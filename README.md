# Pangyo Survival — a Dafny model of the game core

"Pangyo Survival" is a four-stage onboarding game in the browser. The player chats with an NPC colleague, and each stage asks them to answer in the jargon of Pangyo offices:

- **Stage 1:** pick the right reply to a meeting request.
- **Stage 2:** pick the right reply to an urgent request.
- **Stage 3:** write an out-of-office mail that must contain three required keywords.
- **Stage 4:** write a free-form retrospective.

Each passed stage grants a reward item:

- the glossary ("사전");
- a mail translator;
- a magnifier that explains a hovered word;
- a welcome kit.

Passing Stage 1, 2 or 3 starts a transition video. When the video ends or is skipped, the game moves on to the next stage. Stage 4 is the last: passing it shows the ending panel and starts no transition.

This project models the game's core and proves properties of it:

- **The session store (`GameContext`).** The `Session` class holds the store's fields. Every method is proved against a pure transition function on a `GameState` value.
- **The glossary indexes (`Items`).**
  - The category buckets and the term map are built by loop methods. Each loop is proved equal to a declarative specification.
  - The sorted category list is an insertion sort, with its correctness proved.
- **The glossary modal's word list (`Dictionary`).** A category filter followed by a case-insensitive search.
- **The magnifier tooltip (`Magnifier`).** This covers:
  - the exact-term lookup, gated on owning the magnifier;
  - the clamp and flip placement, written as the source's step-by-step reassignments and proved against `Place`;
  - the arrow direction;
  - dismissal.
- **The four stage controllers (`Stage1`–`Stage4`).** Each is a class with the stage's local flags.
  - A handler runs its synchronous part and returns the batch of timer callbacks it arms, as a list of `Timed(delay, effect)`.
  - `Ordered` proves that the delays strictly increase, so list order is firing order.
  - `Controller.Fire` is one callback firing.
  - `Script.Play` composes callbacks on the store. The `…Outcome` lemmas state what a whole branch does to the store.
- **Stage routing and the stage-range invariant (`GameContainer`).**

`Seqs` (filter, subsequence) and `Text` are shared helpers. `Text` covers JavaScript `trim`, `includes`, ASCII lower-casing, `join` and the default string `sort` order.

Where the game's documentation and its code disagree, the model follows the code:

- **Item grants are not deduplicated.** The code appends on every grant (`GameContext.NoDeduplication`). The documentation describes grants as idempotent by id.
- **A failed Stage 3 mail is cleared.** The code re-opens the form with the content set to `''` (`Stage3.Controller.Fire`). The documentation describes a form pre-filled with the old text.
- **There is no persistence and no progress tracking.** The code has no persisted inventory, no `gameStarted` flag and no completed-stages set. The documentation describes these, and so does the heuristic Stage 3 scorer. None of them is modelled.

## Model

| member | source | states |
|---|---|---|
| GameContext.Initial | src/context/GameContext.js:15-20 | The store starts at stage 1, with an empty inventory, an empty log, no transition, no modal and no announced item. |
| GameContext.WithDialogue | src/context/GameContext.js:23-25 | The message goes to the end of the log. The log grows by exactly one, earlier entries are kept, and no other field changes. |
| GameContext.DialogueCleared | src/context/GameContext.js:28-30 | The log becomes empty and no other field changes. |
| GameContext.WithItem | src/context/GameContext.js:33-37 | The item is appended without a duplicate check and announced in the modal. Afterwards it is owned. Stage, transition flag and log are unchanged. |
| GameContext.NoDeduplication | src/context/GameContext.js:33-37 | Granting the same item twice adds two entries. |
| GameContext.ModalClosed | src/context/GameContext.js:40-43 | The modal is hidden and the announced item cleared. The inventory and every other field are unchanged. |
| GameContext.TransitionStarted | src/context/GameContext.js:46-48 | Only the transition flag changes, and it becomes set. |
| GameContext.TransitionCompleted | src/context/GameContext.js:51-55 | The flag is lowered, the stage goes up by one and the log is emptied. Inventory and modal flags are kept. |
| GameContext.InventoryHas | src/context/GameContext.js:58-60 | True iff some inventory entry carries the id. |
| GameContext.OwnershipKept | src/context/GameContext.js:23-55 | No store operation removes an item: an id owned before any of them is still owned after it. |
| GameContext.Session.constructor | src/context/GameContext.js:15-20 | A new store is in the initial state. |
| GameContext.Session.AddDialogue | src/context/GameContext.js:23-25 | The new state is `WithDialogue` of the old one. |
| GameContext.Session.ClearDialogue | src/context/GameContext.js:28-30 | The new state is `DialogueCleared` of the old one. |
| GameContext.Session.AddItemToInventory | src/context/GameContext.js:33-37 | The new state is `WithItem` of the old one. |
| GameContext.Session.CloseItemModal | src/context/GameContext.js:40-43 | The new state is `ModalClosed` of the old one. |
| GameContext.Session.GoToNextStage | src/context/GameContext.js:46-48 | The new state is `TransitionStarted` of the old one. |
| GameContext.Session.CompleteTransition | src/context/GameContext.js:51-55 | The new state is `TransitionCompleted` of the old one, with the log cleared through `ClearDialogue`. |
| GameContext.Session.HasItem | src/context/GameContext.js:58-60 | True iff some inventory entry carries the id. |
| Items.ItemsTable | src/constants/items.js:5-34 | The four items have distinct ids, and the k-th item belongs to stage k. |
| Items.BucketKey | src/constants/items.js:42 | The grouping key is the category when it is non-empty, and exactly "기타" when it is empty. It is never "". |
| Items.BuildByCategory | src/constants/items.js:41-48 | The reduce loop yields `ByCategory(list)`: one bucket per key that occurs, holding that key's entries in list order. |
| Items.ByCategoryStep | src/constants/items.js:43-46 | One reduce step pushes the entry onto its own bucket, creating the bucket if absent. Every other bucket is unchanged. |
| Items.BucketsPartition | src/constants/items.js:41-48 | Every entry is in the bucket of its key, and a bucket holds only entries with its key. No bucket is named "". |
| Items.BucketsKeepOrder | src/constants/items.js:41-48 | Each bucket is an ordered subsequence of the glossary list. |
| Items.BucketSizesSum | src/constants/items.js:41-48 | The bucket sizes add up to the list length. |
| Items.BuildTermMap | src/constants/items.js:51-54 | The reduce loop yields `TermMap(list)`, which maps each term to its last entry. |
| Items.TermMapStep | src/constants/items.js:52 | One step assigns the entry under its term, overwriting an earlier entry. |
| Items.TermMapLast | src/constants/items.js:51-54 | For a duplicated term, the map holds the entry at the last position with that term. |
| Items.TermMapNoEmptyKey | convert.js:23 | Over a glossary whose rows all have a term, "" is not a key of the term map, so looking it up finds nothing. |
| Items.TermMapKeys | src/constants/items.js:51-54 | The map's keys are exactly the terms of the list. |
| Items.SortedDistinctCorrect | src/constants/items.js:57 | `[...new Set(raw)].sort()` is strictly sorted and has exactly the elements of `raw`. |
| Items.CategoriesCorrect | src/constants/items.js:57 | The category list is sorted, duplicate-free, and exactly the set of raw category values. |
| Items.CategoriesVersusBuckets | src/constants/items.js:42-57 | Every non-empty listed category has a bucket. "" is listed when some entry has no category, but has no bucket: those entries are under "기타". |
| Text.TrimEmptyIffBlank | src/components/stages/Stage3.js:55 | `s.trim()` is empty exactly when every character of `s` is trim whitespace. |
| Dictionary.BaseIsBucket | src/components/DictionaryModal.js:17-22 | For a category other than "전체", the base list is that category's bucket: empty when the bucket is absent, and always empty for "". It is an ordered subsequence of the glossary. |
| Dictionary.FilteredWords | src/components/DictionaryModal.js:16-35 | The result is an ordered subsequence of the base. A blank search returns the base unchanged. Otherwise an entry is kept iff it is in the base and its lower-cased term, definition or keywords contain the lower-cased, untrimmed search. Every occurrence of a kept entry is kept: its count in the result equals its count in the base, and a dropped entry occurs 0 times. |
| Dictionary.SearchIgnoresCase | src/components/DictionaryModal.js:26-31 | Search strings with the same lower-cased form give the same word list. |
| Dictionary.SearchIgnoresCategoryAndExample | src/components/DictionaryModal.js:27-31 | Changing an entry's category or example never changes whether it matches. |
| Dictionary.CategoryCountCorrect | src/components/DictionaryModal.js:116 | A category button shows `CategoryCount`: its bucket length, or 0 without a bucket. With the real buckets, the count is the number of entries grouped under the name, and equals the length of that category's word list for a blank search. The "" category shows 0. |
| Dictionary.AllCountCorrect | src/components/DictionaryModal.js:104 | The "전체" count equals the blank-search word list length (the footer's count) and the sum of the bucket sizes. |
| Magnifier.Place | src/components/MagnifierTooltip.js:29-50 | Both coordinates are at least the 20px padding. With a viewport at least 390px wide, the tooltip ends 20px inside the right edge, and a tooltip pushed off the right edge starts at W − 370. A position that fits is kept. Below the cursor means y = cursor + 20, strictly below it. A flip places the whole tooltip above the cursor when there is room. |
| Magnifier.ArrowsExclusive | src/components/MagnifierTooltip.js:147-152 | The up and down arrows have independent conditions. With hover data exactly one of them holds; without it neither does. |
| Magnifier.ArrowMatchesPlacement | src/components/MagnifierTooltip.js:147-152 | For a placed tooltip, the up arrow shows iff it was not flipped or the top clamp lifted it over a cursor near the top edge. The down arrow shows iff it was flipped and the cursor is at least 20px from the top. |
| Magnifier.LookupIsLastEntry | src/components/MagnifierTooltip.js:19 | Looking a word up in the real term map yields the last glossary entry with exactly that term. |
| Magnifier.Tooltip.constructor | src/components/MagnifierTooltip.js:8-9 | No word info, at position (0, 0). |
| Magnifier.Tooltip.Refresh | src/components/MagnifierTooltip.js:14-59 | Word info is set only with hover data, the magnifier owned and the word found, and then the position is `Place` of the cursor. In every other case it is cleared, the tooltip is not visible and the position stays. Afterwards word info is held only for an owner of the magnifier, so holding word info, listening for dismissal and being rendered coincide. |
| Magnifier.Tooltip.OnDocumentEvent | src/components/MagnifierTooltip.js:62-85 | Page clicks and key presses reach listeners that exist only while word info is held. The close button (lines 113-117) exists only while the tooltip is rendered. For a tooltip kept consistent by `Refresh` (and by `GameContext.OwnershipKept`), `hideMagnifier` is called exactly when the tooltip is shown and the event is a click, the close button or Escape. Other keys never hide it. |
| Script.PlayEffect | src/context/GameContext.js:23-48 | Firing a batch appends its NPC lines in order and its granted items in order. It leaves the stage number alone, sets the transition flag iff the batch advances, and the modal ends up showing the batch's last grant. |
| Stage1.ChoicesTable | src/components/stages/Stage1.js:12-16 | Exactly one reply is correct, the one with id 2, and the ids are distinct. |
| Stage1.IntroScript | src/components/stages/Stage1.js:19-38 | Two NPC lines in order, then the choices appear. |
| Stage1.CorrectScript | src/components/stages/Stage1.js:60-93 | Two NPC lines, then the dictionary, a closing line and the advance, in firing order. |
| Stage1.WrongScript | src/components/stages/Stage1.js:94-113 | An NPC line, then the retry line that re-enables the choices. No item and no advance. |
| Stage1.CorrectOutcome | src/components/stages/Stage1.js:60-93 | After the correct branch the dictionary is owned and announced, three NPC lines are logged and the transition is under way at the same stage. |
| Stage1.WrongOutcome | src/components/stages/Stage1.js:94-113 | After a wrong reply only its two NPC lines are added to the store. |
| Stage1.Controller.constructor | src/components/stages/Stage1.js:9-10 | Choices hidden, not answered. |
| Stage1.Controller.HandleChoice | src/components/stages/Stage1.js:47-60 | Once answered, nothing happens. Otherwise the reply is logged first, the choices are hidden and locked, and the batch for the reply's correctness is armed. |
| Stage1.Controller.Fire | src/components/stages/Stage1.js:104-112 | A callback applies its store update. The intro reveal shows the choices, and the retry line unlocks them and makes them visible again. |
| Stage2.ChoicesTable | src/components/stages/Stage2.js:12-31 | Exactly one reply is correct, the one with id 2, and the ids are distinct. |
| Stage2.KeywordsIgnored | src/components/stages/Stage2.js:75 | The verdict does not depend on a reply's keywords. |
| Stage2.IntroScript | src/components/stages/Stage2.js:34-53 | Two NPC lines in order, then the choices appear. |
| Stage2.CorrectScript | src/components/stages/Stage2.js:76-116 | Three NPC lines, then the e-mail helper, a closing line and the advance. |
| Stage2.WrongScript | src/components/stages/Stage2.js:117-144 | Two NPC lines, then the retry line. No item and no advance. |
| Stage2.CorrectOutcome | src/components/stages/Stage2.js:76-116 | The e-mail helper is owned and announced, four NPC lines are logged and the transition is under way. |
| Stage2.WrongOutcome | src/components/stages/Stage2.js:117-144 | Only the three NPC lines are added. |
| Stage2.Controller.HandleChoice | src/components/stages/Stage2.js:62-75 | A no-op once answered. Otherwise the reply is logged before any verdict line, the choices are locked and the verdict's batch is armed. |
| Stage2.Controller.Fire | src/components/stages/Stage2.js:135-143 | As in Stage 1: store update, intro reveal, and a retry that unlocks the choices. |
| Stage3.MissingKeywords | src/components/stages/Stage3.js:58-60 | The required keywords the mail lacks, checked case-sensitively, in the required list's order. |
| Stage3.PassIffAllPresent | src/components/stages/Stage3.js:72 | Nothing is missing iff the mail includes all three of 백업, 슬랙 and 대응. |
| Stage3.FeedbackListsMissing | src/components/stages/Stage3.js:119 | The failure feedback contains a "- k" line for every missing keyword k. |
| Stage3.IntroScript | src/components/stages/Stage3.js:15-43 | Three NPC lines, then the form. |
| Stage3.PassScript | src/components/stages/Stage3.js:73-113 | Three feedback lines, then the magnifier, a closing line and the advance. |
| Stage3.FailScript | src/components/stages/Stage3.js:115-133 | The missing-keyword feedback, then the retry line. No item and no advance. |
| Stage3.PassOutcome | src/components/stages/Stage3.js:73-113 | The magnifier is owned and announced, four NPC lines are logged and the transition is under way. |
| Stage3.FailOutcome | src/components/stages/Stage3.js:115-133 | Only the feedback and the retry line are added. |
| Stage3.Controller.constructor | src/components/stages/Stage3.js:9-11 | Form hidden, content empty, not submitted. |
| Stage3.Controller.Edit | src/components/stages/Stage3.js:151 | Only the content changes. |
| Stage3.Controller.HandleSubmit | src/components/stages/Stage3.js:53-72 | Ignored when already submitted or when the mail is blank. Otherwise "[메일 작성]\n\n" + content is logged first, the form is hidden and locked, and the pass or fail batch armed is chosen by the missing keywords. |
| Stage3.Controller.Fire | src/components/stages/Stage3.js:124-133 | The retry line unlocks the form, shows it and empties the content. |
| Stage4.IntroScript | src/components/stages/Stage4.js:14-42 | Three NPC lines, then the form. |
| Stage4.SubmitScript | src/components/stages/Stage4.js:66-98 | Three NPC lines, then the welcome kit, then the ending panel. No advance and no retry. |
| Stage4.SubmitOutcome | src/components/stages/Stage4.js:66-98 | The welcome kit is owned and announced, three NPC lines are logged, and no transition is requested. |
| Stage4.EndingHoldsEveryItem | src/components/stages/Stage4.js:156 | A player arriving with the first three rewards holds all four items when the ending is shown. |
| Stage4.Controller.constructor | src/components/stages/Stage4.js:9-12 | Form hidden, content empty, not submitted, no ending. |
| Stage4.Controller.Edit | src/components/stages/Stage4.js:115 | Only the content changes. |
| Stage4.Controller.HandleSubmit | src/components/stages/Stage4.js:52-64 | Ignored when already submitted or blank. Otherwise "[회고 작성]\n\n" + content is logged, the form is locked, and the closing batch is armed whatever the content. |
| Stage4.Controller.Fire | src/components/stages/Stage4.js:96-98 | No callback ever clears `submitted`, so the form never returns after a submission. The reveal and the ending only switch their flags on. |
| GameContainer.RenderStage | src/components/GameContainer.js:18-31 | Stages 1–4 route to their own controllers, and every other integer routes to Stage 1. |
| GameContainer.InitialInvariant | src/context/GameContext.js:15-17 | The initial store meets the stage invariant and routes to Stage 1. |
| GameContainer.Stage1AdvancesLast | src/components/stages/Stage1.js:60-113 | In every Stage 1 batch the advance, when present, is the last callback. The callback that unlocks the input after a wrong answer is also last, and the winning batch never unlocks it. |
| GameContainer.Stage2AdvancesLast | src/components/stages/Stage2.js:75-144 | In every Stage 2 batch the advance, when present, is the last callback. The callback that unlocks the input after a wrong answer is also last, and the winning batch never unlocks it. |
| GameContainer.Stage3AdvancesLast | src/components/stages/Stage3.js:72-133 | In every Stage 3 batch the advance, when present, is the last callback. The callback that unlocks the input after a wrong answer is also last, and the winning batch never unlocks it. |
| GameContainer.Stage4NeverAdvances | src/components/stages/Stage4.js:8 | No Stage 4 batch advances. |
| GameContainer.StepKeepsInvariant | src/context/GameContext.js:46-48 | A callback of a mounted stage keeps the stage in 1..4 and never starts a transition out of stage 4. |
| GameContainer.PlayKeepsInvariant | src/context/GameContext.js:23-48 | A whole batch whose only advance is last keeps the invariant and the stage number. |
| GameContainer.Stage1Won | src/components/stages/Stage1.js:60-93 | Stage 1 played through its intro, a correct reply and the transition adds exactly the dictionary and moves one stage on, not transitioning. |
| GameContainer.Stage2Won | src/components/stages/Stage2.js:76-116 | Stage 2 played through its intro, a correct reply and the transition adds exactly the e-mail helper and moves one stage on. |
| GameContainer.Stage3Won | src/components/stages/Stage3.js:73-113 | Stage 3 played through its intro, a mail with every keyword and the transition adds exactly the magnifier and moves one stage on. |
| GameContainer.Stage4Won | src/components/stages/Stage4.js:66-98 | Stage 4 played through its intro and a submission adds exactly the welcome kit, announces it, and keeps the stage and transition flag. |
| GameContainer.WinningRunCollectsEveryItem | src/components/stages/Stage4.js:156 | A play-through from the initial store that wins every stage ends at stage 4, not transitioning, routed to Stage 4, holding the four items of `ITEMS` once each in stage order, with the welcome kit announced. This is the state in which the ending panel says every item was collected. |
| GameContainer.VideoSettled | src/components/VideoPlayer.js:21-27 | Ending or skipping the video completes the transition. The next stage is in 2..4, is the old stage + 1, and is the one `renderStage` mounts. The invariant holds again. |

## Left out

- Rendering, animation, styling, the chat layout, the reward modal, the inventory bar, the progress bar and the main screen are presentation only. They are not part of this model.
- The mail translator (`EmailTranslator.js`, `translationService.js`) is an HTTP client around a remote service, with a timeout. It is not part of this model.
- `VideoPlayer.js` is media playback. It is reduced to the one `completeTransition` call that its end and skip handlers make (`GameContainer.VideoSettled`).
- `StartVideo.js` plays an intro video and calls `completeStartVideo`, which the store shown here does not provide. `App.js` never mounts it. It is not part of this model.
- `convert.js` is a build step over the file system and a CSV library. It is not part of this model. What it guarantees (every glossary entry has a non-empty term and string fields) is the `Items.WellFormed` predicate and the `Entry` field types. `Items.TermMapNoEmptyKey` uses it.
- Timer delays are kept only as numbers whose strict increase gives firing order. Actual time, interleaving with user input during a batch, and the intro timers' cancellation on unmount are not modelled. That no callback is lost when a transition unmounts a stage rests on an argument, not on one lemma. A handler locks the input (`answered` or `submitted`) when it arms a batch, and only a `Retry` callback unlocks it. `GameContainer.Stage1AdvancesLast` and its siblings prove that `Retry` is the last callback of a wrong-answer batch and that a winning batch has none. So at most one verdict batch is pending at a time, and its advance is its last callback. The intro batch reveals the input only with its last callback, so no verdict batch can be armed while the intro is pending.
- Message timestamps (`getCurrentTime`) are clock strings and are dropped from `Message`.
- `Text.Lower`: only ASCII A–Z are lower-cased. JavaScript's full Unicode `toLowerCase` is not modelled. Korean text has no case, so the game's own data is unaffected.
- `Text.Before` compares characters as code points. JavaScript compares UTF-16 code units, which differ only between supplementary-plane characters and U+E000–U+FFFF.
- `Items.ByCategory` and `Items.TermMap` are maps. The source uses plain objects, where a category or term equal to an inherited property name (such as "constructor") would misbehave. That case is not modelled.
- `Magnifier`: the viewport and cursor coordinates are JavaScript numbers and are modelled as integers. `Magnifier.Request` stands for the hover data, and the caller of `Tooltip.OnDocumentEvent` stands for the dismiss callback. Both are inputs, because the store shown here does not provide them.
- The glossary modal's open and close flag, and the search and category inputs, are UI state. `Dictionary.FilteredWords` takes the current values as parameters.
- `Magnifier.Tooltip.Visible`, `Stage1.Controller.ChoicesVisible`, `Stage2.Controller.ChoicesVisible`, `Stage3.Controller.FormVisible` and `Stage4.Controller.FormVisible` are the render conditions at MagnifierTooltip.js:89, Stage1.js:118, Stage2.js:149, Stage3.js:139 and Stage4.js:103. They are definitions that the handlers' contracts use, and they have no row of their own.
