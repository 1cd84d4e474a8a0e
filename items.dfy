/** The game's constant tables and the glossary indexes derived from the glossary list:
    the reward items, the category buckets, the term-to-entry map and the sorted list of the
    raw category names. */
module Items {
  import opened Seqs
  import opened Text

  /** One glossary record. */
  datatype Entry = Entry(term: string, category: string, definition: string, example: string, keywords: string)

  /** What the data-preparation step guarantees of the glossary list: rows without a term were
      dropped (every other field is a string, possibly empty, by construction of `Entry`). */
  predicate WellFormed(list: seq<Entry>)
  {
    forall i :: 0 <= i < |list| ==> list[i].term != ""
  }

  /** A reward item. */
  datatype Item = Item(id: string, name: string, icon: string, description: string, stage: int)

  const DICTIONARY: Item :=
    Item("dictionary", "판교어 기초 단어 사전", "/assets/icon/dictionary.png", "기본적인 판교어를 확인할 수 있는 사전", 1)
  const EMAIL_HELPER: Item :=
    Item("email_helper", "판교어 번역기", "/assets/icon/translator.png", "업무 메일 작성을 도와주는 도구", 2)
  const MAGNIFIER: Item :=
    Item("magnifier", "판교어 돋보기", "/assets/icon/magnifier.png", "판교어에 마우스를 올리면 뜻을 알려주는 도구", 3)
  const WELCOME_KIT: Item :=
    Item("welcome_kit", "판교 생존 웰컴 키트", "/assets/icon/certificate.png", "판교 생존에 필요한 모든 것이 담긴 키트", 4)

  /** The `ITEMS` table in declaration order. */
  const AllItems: seq<Item> := [DICTIONARY, EMAIL_HELPER, MAGNIFIER, WELCOME_KIT]

  /** The four items have pairwise distinct ids, and the k-th one is earned in stage k. */
  lemma ItemsTable()
    ensures |AllItems| == 4
    ensures forall i, j :: 0 <= i < j < |AllItems| ==> AllItems[i].id != AllItems[j].id
    ensures forall i :: 0 <= i < |AllItems| ==> AllItems[i].stage == i + 1
  {
  }

  // ---------------------------------------------------------------------------------------
  // Category buckets (`PANGYO_DICTIONARY_BY_CATEGORY`)

  /** The bucket name used for grouping: an empty (falsy) category falls back to "기타". */
  const Fallback: string := "기타"

  function BucketKey(e: Entry): (k: string)
    ensures k != ""
    ensures e.category != "" ==> k == e.category
    ensures e.category == "" ==> k == Fallback
  {
    if e.category != "" then e.category else Fallback
  }

  /** The entries of `list` that are grouped under `c`, in list order. */
  function Bucket(list: seq<Entry>, c: string): seq<Entry>
  {
    Filter(list, (e: Entry) => BucketKey(e) == c)
  }

  function BucketKeys(list: seq<Entry>): set<string>
  {
    set i | 0 <= i < |list| :: BucketKey(list[i])
  }

  /** The specification of the grouping: one bucket per grouping key that occurs, holding
      exactly the entries with that key in list order. */
  function ByCategory(list: seq<Entry>): map<string, seq<Entry>>
  {
    map c | c in BucketKeys(list) :: Bucket(list, c)
  }

  /** The `reduce` that builds the buckets, pushing each entry onto its bucket in turn. */
  method BuildByCategory(list: seq<Entry>) returns (acc: map<string, seq<Entry>>)
    ensures acc == ByCategory(list)
  {
    acc := map[];
    for i := 0 to |list|
      invariant acc == ByCategory(list[..i])
    {
      var item := list[i];
      ghost var before := acc;
      var category := if item.category != "" then item.category else Fallback;
      if category !in acc {
        acc := acc[category := []];
      }
      acc := acc[category := acc[category] + [item]];
      assert acc == before[BucketKey(item) := (if BucketKey(item) in before then before[BucketKey(item)] else []) + [item]];
      assert list[..i + 1] == list[..i] + [item];
      ByCategoryStep(list[..i], item);
    }
    assert list[..|list|] == list;
  }

  lemma BucketAbsent(list: seq<Entry>, c: string)
    requires c !in BucketKeys(list)
    ensures Bucket(list, c) == []
  {
    forall i | 0 <= i < |list| ensures BucketKey(list[i]) != c {
      assert BucketKey(list[i]) in BucketKeys(list);
    }
    FilterNone(list, (e: Entry) => BucketKey(e) == c);
  }

  /** One step of the reduce: appending an entry appends it to its own bucket only. */
  lemma ByCategoryStep(l: seq<Entry>, e: Entry)
    ensures var m, k := ByCategory(l), BucketKey(e);
            ByCategory(l + [e]) == m[k := (if k in m then m[k] else []) + [e]]
  {
    var m, k := ByCategory(l), BucketKey(e);
    var m' := ByCategory(l + [e]);
    var want := m[k := (if k in m then m[k] else []) + [e]];
    assert BucketKeys(l + [e]) == BucketKeys(l) + {k} by {
      assert forall i :: 0 <= i < |l| ==> (l + [e])[i] == l[i];
      assert (l + [e])[|l|] == e;
    }
    forall c | c in m'
      ensures m'[c] == want[c]
    {
      FilterAppend(l, e, (x: Entry) => BucketKey(x) == c);
      if c !in BucketKeys(l) {
        BucketAbsent(l, c);
      }
    }
    assert m'.Keys == want.Keys;
  }

  /** Every entry lands in the bucket of its grouping key, and a bucket holds nothing else;
      hence each entry is in exactly one bucket. No bucket is named "". */
  lemma {:induction false} BucketsPartition(list: seq<Entry>)
    ensures forall i :: 0 <= i < |list| ==>
      BucketKey(list[i]) in ByCategory(list) && list[i] in ByCategory(list)[BucketKey(list[i])]
    ensures forall c, x :: c in ByCategory(list) && x in ByCategory(list)[c] ==> BucketKey(x) == c
    ensures "" !in ByCategory(list)
  {
    var m := ByCategory(list);
    forall i | 0 <= i < |list|
      ensures BucketKey(list[i]) in m && list[i] in m[BucketKey(list[i])]
    {
      var k := BucketKey(list[i]);
      assert k in BucketKeys(list);
      FilterMembership(list, (e: Entry) => BucketKey(e) == k, list[i]);
    }
    forall c, x | c in m && x in m[c]
      ensures BucketKey(x) == c
    {
      FilterMembership(list, (e: Entry) => BucketKey(e) == c, x);
    }
  }

  /** Each bucket keeps the list order of its entries. */
  lemma {:induction false} BucketsKeepOrder(list: seq<Entry>)
    ensures forall c :: c in ByCategory(list) ==> IsSubsequence(ByCategory(list)[c], list)
  {
    forall c | c in ByCategory(list)
      ensures IsSubsequence(ByCategory(list)[c], list)
    {
      FilterIsSubsequence(list, (e: Entry) => BucketKey(e) == c);
    }
  }

  ghost function PickKey(m: map<string, seq<Entry>>): (k: string)
    requires m != map[]
    ensures k in m
  {
    var k :| k in m; k
  }

  /** The sum of the bucket sizes of `m`. */
  ghost function TotalSize(m: map<string, seq<Entry>>): nat
    decreases |m.Keys|
  {
    if m == map[] then 0
    else
      var k := PickKey(m);
      assert (m - {k}).Keys == m.Keys - {k};
      |m[k]| + TotalSize(m - {k})
  }

  /** The sum does not depend on the key picked first. */
  lemma {:induction false} TotalSizeRemove(m: map<string, seq<Entry>>, k: string)
    requires k in m
    ensures TotalSize(m) == |m[k]| + TotalSize(m - {k})
    decreases |m.Keys|
  {
    var j := PickKey(m);
    if j != k {
      assert (m - {j}).Keys == m.Keys - {j};
      assert (m - {k}).Keys == m.Keys - {k};
      TotalSizeRemove(m - {j}, k);
      TotalSizeRemove(m - {k}, j);
      assert m - {j} - {k} == m - {k} - {j};
    }
  }

  lemma TotalSizeUpdate(m: map<string, seq<Entry>>, k: string, v: seq<Entry>)
    ensures TotalSize(m[k := v]) == TotalSize(m) - (if k in m then |m[k]| else 0) + |v|
  {
    var m' := m[k := v];
    TotalSizeRemove(m', k);
    if k in m {
      TotalSizeRemove(m, k);
      assert m' - {k} == m - {k};
    } else {
      assert m' - {k} == m;
    }
  }

  /** The bucket sizes add up to the length of the list. */
  lemma {:induction false} BucketSizesSum(list: seq<Entry>)
    ensures TotalSize(ByCategory(list)) == |list|
  {
    if list == [] {
      assert ByCategory(list) == map[];
    } else {
      var l, e := list[..|list| - 1], list[|list| - 1];
      assert list == l + [e];
      BucketSizesSum(l);
      ByCategoryStep(l, e);
      var m, k := ByCategory(l), BucketKey(e);
      TotalSizeUpdate(m, k, (if k in m then m[k] else []) + [e]);
    }
  }

  // ---------------------------------------------------------------------------------------
  // Term map (`PANGYO_DICTIONARY_MAP`)

  function Terms(list: seq<Entry>): set<string>
  {
    set i | 0 <= i < |list| :: list[i].term
  }

  /** The entry of the last position in `list` whose term is `t`. */
  function LastWithTerm(list: seq<Entry>, t: string): (e: Entry)
    requires t in Terms(list)
    ensures e in list && e.term == t
  {
    var last := list[|list| - 1];
    if last.term == t then last
    else
      var init := list[..|list| - 1];
      assert t in Terms(init) by {
        var i :| 0 <= i < |list| && list[i].term == t;
        assert i < |list| - 1 && init[i] == list[i];
      }
      LastWithTerm(init, t)
  }

  /** The specification of the term map: every term maps to its last entry. */
  function TermMap(list: seq<Entry>): map<string, Entry>
  {
    map t | t in Terms(list) :: LastWithTerm(list, t)
  }

  /** The `reduce` that builds the term map, assigning each entry under its term in turn. */
  method BuildTermMap(list: seq<Entry>) returns (acc: map<string, Entry>)
    ensures acc == TermMap(list)
  {
    acc := map[];
    for i := 0 to |list|
      invariant acc == TermMap(list[..i])
    {
      var item := list[i];
      acc := acc[item.term := item];
      TermMapStep(list[..i], item);
      assert list[..i + 1] == list[..i] + [item];
    }
    assert list[..|list|] == list;
  }

  lemma TermMapStep(l: seq<Entry>, e: Entry)
    ensures TermMap(l + [e]) == TermMap(l)[e.term := e]
  {
    var l' := l + [e];
    assert Terms(l') == Terms(l) + {e.term} by {
      assert forall i :: 0 <= i < |l| ==> l'[i] == l[i];
      assert l'[|l|] == e;
    }
    assert l'[..|l'| - 1] == l;
  }

  /** The keys of the term map are exactly the terms of the list, and a duplicated term keeps
      the entry that comes last in the list. */
  lemma {:induction false} TermMapLast(list: seq<Entry>, t: string) returns (j: nat)
    requires t in TermMap(list)
    ensures j < |list| && list[j].term == t && TermMap(list)[t] == list[j]
    ensures forall k :: j < k < |list| ==> list[k].term != t
  {
    var last := list[|list| - 1];
    if last.term == t {
      j := |list| - 1;
    } else {
      var init := list[..|list| - 1];
      assert list == init + [last];
      TermMapStep(init, last);
      j := TermMapLast(init, t);
      assert list[j] == init[j];
    }
  }

  /** Over a prepared glossary, where every row has a term, the empty string is never a key
      of the term map: looking up "" finds nothing. */
  lemma TermMapNoEmptyKey(list: seq<Entry>)
    requires WellFormed(list)
    ensures "" !in TermMap(list)
  {
  }

  lemma TermMapKeys(list: seq<Entry>)
    ensures forall t :: t in TermMap(list) <==> exists i :: 0 <= i < |list| && list[i].term == t
  {
  }

  // ---------------------------------------------------------------------------------------
  // Category list (`DICTIONARY_CATEGORIES`)

  predicate StrictlySorted(s: seq<string>)
  {
    forall i, j :: 0 <= i < j < |s| ==> Before(s[i], s[j])
  }

  /** Insert `x` into a sorted, duplicate-free list unless it is already there. */
  function InsertSorted(s: seq<string>, x: string): seq<string>
  {
    if s == [] then [x]
    else if x == s[0] then s
    else if Before(x, s[0]) then [x] + s
    else [s[0]] + InsertSorted(s[1..], x)
  }

  lemma {:induction false} InsertSortedCorrect(s: seq<string>, x: string)
    requires StrictlySorted(s)
    ensures StrictlySorted(InsertSorted(s, x))
    ensures forall y :: y in InsertSorted(s, x) <==> y in s || y == x
  {
    if s == [] || x == s[0] {
    } else if Before(x, s[0]) {
      forall j | 0 < j < |s| ensures Before(x, s[j]) {
        BeforeTransitive(x, s[0], s[j]);
      }
    } else {
      BeforeTotal(x, s[0]);
      InsertSortedCorrect(s[1..], x);
      var r := InsertSorted(s[1..], x);
      assert s == [s[0]] + s[1..];
      forall j | 0 <= j < |r| ensures Before(s[0], r[j]) {
        assert r[j] in s[1..] || r[j] == x;
      }
    }
  }

  /** `[...new Set(raw)].sort()`. */
  function SortedDistinct(raw: seq<string>): seq<string>
  {
    if raw == [] then [] else InsertSorted(SortedDistinct(raw[..|raw| - 1]), raw[|raw| - 1])
  }

  lemma {:induction false} SortedDistinctCorrect(raw: seq<string>)
    ensures StrictlySorted(SortedDistinct(raw))
    ensures forall y :: y in SortedDistinct(raw) <==> y in raw
  {
    if raw != [] {
      var init := raw[..|raw| - 1];
      SortedDistinctCorrect(init);
      InsertSortedCorrect(SortedDistinct(init), raw[|raw| - 1]);
      assert raw == init + [raw[|raw| - 1]];
    }
  }

  /** `item.category` for every entry, unmodified (empty categories stay ""). */
  function RawCategories(list: seq<Entry>): (r: seq<string>)
    ensures |r| == |list| && forall i :: 0 <= i < |list| ==> r[i] == list[i].category
  {
    seq(|list|, i requires 0 <= i < |list| => list[i].category)
  }

  function Categories(list: seq<Entry>): seq<string>
  {
    SortedDistinct(RawCategories(list))
  }

  /** The category list is sorted, duplicate-free and holds exactly the raw category values. */
  lemma CategoriesCorrect(list: seq<Entry>)
    ensures StrictlySorted(Categories(list))
    ensures forall i, j :: 0 <= i < j < |Categories(list)| ==> Categories(list)[i] != Categories(list)[j]
    ensures forall c :: c in Categories(list) <==> exists i :: 0 <= i < |list| && list[i].category == c
  {
    SortedDistinctCorrect(RawCategories(list));
    var s := Categories(list);
    forall i, j | 0 <= i < j < |s| ensures s[i] != s[j] {
      BeforeIrreflexive(s[i]);
    }
    forall c ensures c in s <==> exists i :: 0 <= i < |list| && list[i].category == c {
      if c in RawCategories(list) {
        var i :| 0 <= i < |list| && RawCategories(list)[i] == c;
      }
    }
  }

  /** The category list and the buckets disagree on empty categories: "" is listed as a
      category but has no bucket (its entries are under "기타"), while every non-empty listed
      category has one. */
  lemma CategoriesVersusBuckets(list: seq<Entry>)
    ensures forall c :: c in Categories(list) && c != "" ==> c in ByCategory(list)
    ensures "" !in ByCategory(list)
    ensures "" in Categories(list) ==> Fallback in ByCategory(list)
  {
    CategoriesCorrect(list);
    BucketsPartition(list);
    forall c | c in Categories(list) && c != "" ensures c in ByCategory(list) {
      var i :| 0 <= i < |list| && list[i].category == c;
      assert BucketKey(list[i]) == c;
    }
    if "" in Categories(list) {
      var i :| 0 <= i < |list| && list[i].category == "";
      assert BucketKey(list[i]) == Fallback;
    }
  }
}
