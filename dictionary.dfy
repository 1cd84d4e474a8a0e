/** The glossary modal's word list: a category filter followed by a case-insensitive text
    search over three fields of each entry. */
module Dictionary {
  import opened Seqs
  import opened Text
  import opened Items

  /** The pseudo-category that selects the whole glossary. */
  const All: string := "전체"

  /** The list the search starts from: everything for "전체", otherwise the selected
      category's bucket, or nothing when there is no such bucket. */
  function Base(list: seq<Entry>, byCategory: map<string, seq<Entry>>, selected: string): seq<Entry>
  {
    if selected == All then list
    else if selected in byCategory then byCategory[selected]
    else []
  }

  /** With the real buckets, a category filter is exactly the bucket of that name: entries
      of an empty category are reached through "기타" and the name "" selects nothing. */
  lemma BaseIsBucket(list: seq<Entry>, selected: string)
    requires selected != All
    ensures Base(list, ByCategory(list), selected) == Bucket(list, selected)
    ensures selected == "" ==> Base(list, ByCategory(list), selected) == []
    ensures IsSubsequence(Base(list, ByCategory(list), selected), list)
  {
    if selected !in BucketKeys(list) {
      BucketAbsent(list, selected);
    }
    BucketsPartition(list);
    FilterIsSubsequence(list, (e: Entry) => BucketKey(e) == selected);
  }

  /** `item.term`, `item.definition` or `item.keywords`, lower-cased, includes the lower-cased
      search string. The category and the example are not consulted. */
  predicate Matches(e: Entry, search: string)
  {
    var q := Lower(search);
    Contains(Lower(e.term), q) || Contains(Lower(e.definition), q) || Contains(Lower(e.keywords), q)
  }

  /** The search filter as a named predicate. */
  function Hit(search: string): Entry -> bool
  {
    (e: Entry) => Matches(e, search)
  }

  /** `filteredWords`: the base list, narrowed by the search unless the search is blank. The
      search string itself is not trimmed before matching. */
  function FilteredWords(list: seq<Entry>, byCategory: map<string, seq<Entry>>, selected: string, search: string): (r: seq<Entry>)
    ensures IsSubsequence(r, Base(list, byCategory, selected))
    ensures Blank(search) ==> r == Base(list, byCategory, selected)
    ensures !Blank(search) ==> forall e :: e in r <==> e in Base(list, byCategory, selected) && Matches(e, search)
    ensures forall e :: (multiset(r)[e] ==
      if Blank(search) || Matches(e, search) then multiset(Base(list, byCategory, selected))[e] else 0)
  {
    var base := Base(list, byCategory, selected);
    if TrimsToEmpty(search) then
      SubsequenceReflexive(base);
      base
    else
      FilterIsSubsequence(base, Hit(search));
      FilterMultiset(base, Hit(search));
      assert forall e :: e in Filter(base, Hit(search)) <==> e in base && Matches(e, search) by {
        forall e ensures e in Filter(base, Hit(search)) <==> e in base && Hit(search)(e) {
          FilterMembership(base, Hit(search), e);
        }
      }
      Filter(base, Hit(search))
  }

  /** Lower-casing never turns a non-blank character into a blank one or back. */
  lemma LowerKeepsBlank(s: string)
    ensures Blank(Lower(s)) <==> Blank(s)
  {
    forall i | 0 <= i < |s| ensures IsTrimmable(Lower(s)[i]) <==> IsTrimmable(s[i]) {
      assert Lower(s)[i] == LowerChar(s[i]);
    }
  }

  /** The search is case-insensitive: two search strings with the same lower-cased form give
      the same word list. */
  lemma SearchIgnoresCase(list: seq<Entry>, byCategory: map<string, seq<Entry>>, selected: string, s1: string, s2: string)
    requires Lower(s1) == Lower(s2)
    ensures FilteredWords(list, byCategory, selected, s1) == FilteredWords(list, byCategory, selected, s2)
  {
    LowerKeepsBlank(s1);
    LowerKeepsBlank(s2);
    if !Blank(s1) {
      var base := Base(list, byCategory, selected);
      assert forall i :: 0 <= i < |base| ==> Hit(s1)(base[i]) == Hit(s2)(base[i]);
      FilterAgree(base, Hit(s1), Hit(s2));
    }
  }

  /** The search never looks at an entry's category or example: changing them in an entry
      does not change whether it matches. */
  lemma SearchIgnoresCategoryAndExample(e: Entry, c: string, x: string, search: string)
    ensures Hit(search)(e.(category := c, example := x)) == Hit(search)(e)
  {
  }

  /** The count shown on a category's button: its bucket length, `|| 0` when absent. */
  function CategoryCount(byCategory: map<string, seq<Entry>>, c: string): nat
  {
    if c in byCategory then |byCategory[c]| else 0
  }

  /** With the real buckets, a category's count is the number of entries grouped under it,
      which is exactly how many entries choosing that category (with a blank search) lists;
      the "" category, which is listed whenever some entry has no category, always shows 0. */
  lemma CategoryCountCorrect(list: seq<Entry>, c: string, search: string)
    requires c != All && Blank(search)
    ensures CategoryCount(ByCategory(list), c) == |Bucket(list, c)|
    ensures CategoryCount(ByCategory(list), c) == |FilteredWords(list, ByCategory(list), c, search)|
    ensures CategoryCount(ByCategory(list), "") == 0
  {
    if c !in BucketKeys(list) {
      BucketAbsent(list, c);
    }
    BaseIsBucket(list, c);
    BucketsPartition(list);
  }

  /** The "전체" button's count, the glossary length, equals the word list for a blank
      search, and the per-bucket counts add up to it. */
  lemma AllCountCorrect(list: seq<Entry>, search: string)
    requires Blank(search)
    ensures |FilteredWords(list, ByCategory(list), All, search)| == |list|
    ensures TotalSize(ByCategory(list)) == |list|
  {
    BucketSizesSum(list);
  }
}
