# Ethics MCQ study app: session engine and flashcard splitter in Dafny

This project models the two pieces of logic in the Ethics MCQ study app and
proves properties about them.

The first piece is the question-session engine of the browser app
(`js/app.js`, the `MCQApp` object). It does four things:

- It loads a practice test's question file. It shuffles the question order
  and the option order of every question with Fisher–Yates, strips and
  re-applies the `A.`–`D.` labels, and recomputes `correctAnswer`.
- It keeps a session state: the question list, the current index, the
  filter mode, three id sets (viewed, bookmarked, revealed), the last
  selected option and whether the answer is shown.
- Its operations change that state: navigation, jumps, answer reveal and
  hide, bookmark and filter toggles, and reset.
- It persists the three id sets in `localStorage` under
  `progress_<topic>_<test>` and turns them into completion percentages.

The second piece is the flashcard split script
(`tools/split_flashcards.py`). It cuts the questions of flashcard set 2
into part files of at most 20 questions. It then rewrites the
`practiceTests` of the `flashcards-basic` topic in the topic index so that
the old `flash-2…` entries are replaced by one entry per part.

Modules:

- `Options`: `Option<T>`.
- `Sequences`: an order-preserving subsequence predicate, the first-match
  search behind `find` and the `for … break` loop, and one step lemma for
  loops that build a list.
- `IdSets`: JavaScript `Set`s of question ids, modelled as duplicate-free
  sequences in insertion order. `Array.from` and `JSON` keep that order.
- `Text`: `trim`, the label regex's white space, `startswith`, and decimal
  rendering.
- `Shuffle`: `shuffleArray` and the `loadQuestions` remap.
- `Progress`: the progress record, `localStorage`, save and restore, and
  the rounding of `Math.round`.
- `Session`: the `App` class with the session state and its operations.
- `SplitFlashcards`: the split script.

How the model represents the source:

- `Math.random` is an oracle `rand(k, i)`. It is the value of the k-th
  `Math.floor(Math.random() * (i + 1))` evaluated while loading, and all
  that is assumed of it is that it lies in `[0, i]`. Every property holds
  for every such oracle.
- Draws are numbered in the source's evaluation order. The question order
  takes draws `0 .. n-2`. Then each question's options take the following
  draws, question after question in shuffled order.
- `Math.round(100 * v / c)` on non-negative integers is computed exactly as
  `(200 v + c) div (2 c)`.
- The JSON documents the split script reads and writes are its inputs and
  outputs.

## Model

| member | source | states |
|---|---|---|
| Shuffle.ShuffleArray | js/app.js:21-28 | The copied array, after the descending swap loop, is `Shuffled(input)`; it has the input's length and multiset of elements, and the input value is untouched |
| Shuffle.ShuffledPermutes | js/app.js:21-28 | For every oracle, `shuffleArray` returns a permutation of its input |
| Shuffle.ShuffledMap | js/app.js:21-28 | Fisher–Yates moves by position only: shuffling the images of a list under `f` equals mapping `f` over the shuffled list with the same draws |
| Shuffle.ShuffledIndices | js/app.js:288-289 | The shuffled `indices` array lists each of `0 .. n-1` exactly once |
| Shuffle.StripLabel | js/app.js:281-283 | An option opening with `A.`–`D.` loses that label, any white space after it and trailing white space; any other option is only trimmed |
| Shuffle.IndexOf | js/app.js:298 | `indexOf` returns the first position holding the value, or -1 exactly when the value is absent |
| Shuffle.Remap | js/app.js:279-304 | The callback's result carries every field but `options` and `correctAnswer` over, and has as many options as the input |
| Shuffle.RemapLayout | js/app.js:292-295 | New option k is letter k, ". ", and the stripped original option `shuffledIndices[k]` |
| Shuffle.RemapCorrect | js/app.js:298-304 | The new `correctAnswer` is the position the originally correct option moved to, and the option shown there is that option relabelled; an index that named no option becomes -1; all other fields are carried over |
| Shuffle.RemapBodies | js/app.js:281-295 | With the shuffled indices, the option bodies are the Fisher–Yates shuffle of the stripped options under the same draws, so a permutation of them |
| Shuffle.RemapShuffled | js/app.js:278-304 | Each question the `.map` callback returns is a faithful remap of its input: same fields, options relabelled in place order, bodies permuted, answer index following the correct body |
| Shuffle.LoadedFaithful | js/app.js:276-304 | The loaded list has the file's length, its order is a permutation of the file's list, and each entry is a faithful remap of the question at that shuffled position |
| Shuffle.Loaded | js/app.js:276-305 | The loaded list has as many questions as the file |
| Shuffle.RemapQuestion | js/app.js:278-304 | The callback of the `.map` computes the remap of one question with its option draws starting at the given draw number |
| Shuffle.RemapAll | js/app.js:278-305 | The `.map` over the shuffled questions returns, question by question, the remap with option draws following those of the question before |
| Shuffle.ShuffleQuestions | js/app.js:276-305 | The randomisation of `loadQuestions`: a permutation of the file's questions, each a faithful remap of the question it came from |
| IdSets.Add | js/app.js:373 | `Set.add` adds exactly `x`, keeps the set duplicate-free, is a no-op when `x` is present and otherwise appends it at the end |
| IdSets.Delete | js/app.js:604 | `Set.delete` removes exactly `x`, keeps the order and the absence of duplicates, and is a no-op when `x` is absent |
| IdSets.FromArray | js/app.js:737-739 | `new Set(array)` has exactly the array's elements, without duplicates |
| IdSets.FromArrayOfNoDup | js/app.js:719-721 | A set built from a duplicate-free array, such as one `Array.from(set)` wrote, is that array in the same order |
| Text.Trim | js/app.js:282 | `trim` drops exactly the leading and trailing white space: the result is the infix between them and neither starts nor ends with white space |
| Text.NatToString | tools/split_flashcards.py:24-28 | The decimal rendering of `n` in names is non-empty, all digits, has no leading zero and denotes `n` |
| Progress.ProgressKey | js/app.js:717 | The key is `progress_`, the topic id, `_`, the test id |
| Progress.KeysCanCollide | js/app.js:717 | Topic `a_b` with test `c` and topic `a` with test `b_c` share one key |
| Progress.LocalStorage.GetItem | js/app.js:733 | `getItem` returns the stored record, or nothing exactly when the key is absent |
| Progress.Restore | js/app.js:729-745 | The loaded sets are duplicate-free and hold exactly the stored arrays' ids; an absent key gives three empty sets |
| Progress.SaveThenRestore | js/app.js:714-745 | Saving three sets and loading them back under the same key gives the same sets in the same order; other keys are unaffected |
| Progress.LocalStorage.SetItem | js/app.js:725 | `setItem` maps the key to the value and leaves every other key |
| Progress.LocalStorage.RemoveItem | js/app.js:755 | `removeItem` drops the key and leaves every other key |
| Progress.Overwrite | js/app.js:725 | A second `setItem` on the same key replaces the first |
| Progress.RoundPercent | js/app.js:694 | The result is the integer nearest to `100 v / c`, halves up; it is 0 for `v = 0`, 100 for `v = c` and at most 100 when `v <= c` |
| Session.FilterBookmarked | js/app.js:390 | The filter is no longer than the list and holds only bookmarked questions |
| Session.App.FilteredQuestions | js/app.js:388-393 | In "all" mode the list itself; in bookmarked-only mode an order-preserving subsequence holding exactly the listed questions whose id is bookmarked |
| Session.FilterBookmarkedSelects | js/app.js:388-393 | The bookmark filter is an order-preserving subsequence of `questions`, one entry per bookmarked question, holding a question exactly when it is in the list and its id is bookmarked |
| Session.App.constructor | js/app.js:7-18 | The initial state over the loaded topics and the storage: no topic or test, no questions, index 0, "all" mode, three empty sets, no option chosen, answer hidden |
| Session.FindById | js/app.js:252 | `find` by id: `None` exactly when no element has the id, otherwise the first element that has it (the same lookup serves the calls at lines 189, 675, 703 and 706) |
| Session.App.CurrentQuestion | js/app.js:382-386 | The current question is the filtered list at the current index, and there is one exactly when the index is inside that list |
| Session.App.SaveProgress | js/app.js:714-726 | With a selected topic and test, the record under its key becomes the three current sets; other keys keep their records; without one storage is unchanged |
| Session.App.LoadProgress | js/app.js:729-745 | With a selected test, the three sets become `Restore` of its stored record; otherwise nothing changes |
| Session.App.RenderQuestion | js/app.js:339-380 | With a current question, the answer is hidden, its id is added to the viewed set and progress is saved; otherwise nothing changes |
| Session.App.NavigateQuestion | js/app.js:396-404 | The index moves by `direction` only when the target lies in the filtered list, and then that question is current and viewed; otherwise nothing changes |
| Session.App.JumpToQuestion | js/app.js:437-440 | The index becomes `index` unchecked; inside the filtered list that question is current and viewed and progress is saved, past its end (a stale dot) nothing else changes |
| Session.App.JumpToQuestionFromList | js/app.js:667-671 | Same state step as `jumpToQuestion`, for every index |
| Session.App.SelectOption | js/app.js:443-491 | Without a current question, or while the answer is shown, nothing changes; otherwise the choice is recorded, the answer is shown, the question is added to the revealed set and progress is saved |
| Session.App.HideAnswer | js/app.js:583-596 | With a current question the answer is hidden; nothing else changes |
| Session.App.ToggleBookmark | js/app.js:599-611 | The current question's id leaves the bookmarks if it was there and joins them otherwise; the record saved last holds the new sets; the index is kept; in bookmarked-only mode the view shrinks, and when the current question was its last one no question is current afterwards |
| Session.UnbookmarkCount | js/app.js:390-391 | Deleting a bookmark never grows the bookmarked view, and shrinks it when some question carries that id |
| Session.UnbookmarkShrinksView | js/app.js:599-611 | The question at any position of the bookmarked view is bookmarked, and un-bookmarking it makes the view strictly shorter |
| Session.App.ToggleFilterMode | js/app.js:614-630 | From "all" with no bookmark nothing changes; otherwise the mode flips, the index becomes 0 and the first question of the new view is rendered |
| Session.App.ResetProgress | js/app.js:748-766 | With a selected test its record is removed, the sets are cleared and the index becomes 0; rendering then marks the first question viewed and stores a fresh record |
| Session.App.LoadQuestions | js/app.js:270-312 | The question list becomes the randomised file contents, or empty when the load failed; nothing else changes |
| Session.App.SelectTopic | js/app.js:188-195 | The current topic becomes the first topic with that id; an unknown id changes nothing |
| Session.App.SelectedTest | js/app.js:249-253 | Nothing is found exactly when there is no current topic or none of its tests has the id; otherwise the result is the first test with that id |
| Session.App.StartTest | js/app.js:261-266 | The test becomes current at index 0 in "all" mode, its stored sets are restored, the first question is marked viewed and the record is saved |
| Session.App.SelectPracticeTest | js/app.js:248-267 | An unknown topic or test changes nothing; otherwise the questions are reloaded, and when some came back the test starts on its stored progress |
| Session.App.GetPracticeTestProgress | js/app.js:698-711 | 0 without a record, for an unknown topic or test, or for 0 questions; otherwise the viewed count as a percentage, rounded half up |
| Session.App.GetTopicProgress | js/app.js:674-695 | The `forEach` sums viewed and question counts over tests with questions; the result is their rounded percentage, 0 for an unknown topic or a zero total |
| Session.TotalViewedBounded | js/app.js:681-691 | When no stored record has more viewed ids than its test has questions, the viewed total does not exceed the question total |
| Session.TopicPercentAtMost100 | js/app.js:674-695 | Under the same condition topic progress is at most 100 |
| Session.SingleTestTopicProgress | js/app.js:674-711 | For a topic with a single test, topic progress equals that test's progress |
| SplitFlashcards.Chunks | tools/split_flashcards.py:9-19 | Chunk count is `ceil(n / 20)`, and no chunk exactly when no question; every chunk has 1 to 20 questions and all but the last exactly 20 |
| SplitFlashcards.ChunksPrefix | tools/split_flashcards.py:19 | The first `k` chunks joined are the first `min(20 k, n)` questions |
| SplitFlashcards.ChunksConcat | tools/split_flashcards.py:18-19 | Joining the chunks in order gives back the question list |
| SplitFlashcards.CreatedOf | tools/split_flashcards.py:21-31 | Entry k of `created` names part file k+1 and counts the questions of chunk k |
| SplitFlashcards.WriteParts | tools/split_flashcards.py:21-31 | The loop writes part k+1 from chunk k and records its name and size, in chunk order |
| SplitFlashcards.PartFileNamesDistinct | tools/split_flashcards.py:28 | Different part numbers give different file names |
| SplitFlashcards.CreatedCountsSum | tools/split_flashcards.py:21-31 | The counts in `created` sum to the number of questions |
| SplitFlashcards.PartFilesCoverQuestions | tools/split_flashcards.py:19-30 | The questions of the part files, in file order, are exactly the source questions |
| SplitFlashcards.KeepOthers | tools/split_flashcards.py:41 | The filter is no longer than its input and keeps no entry whose id starts with `flash-2` |
| SplitFlashcards.KeepOthersFilters | tools/split_flashcards.py:41 | The filter keeps, in order, exactly the entries whose id (missing id read as "") does not start with `flash-2` |
| SplitFlashcards.KeepOthersAppend | tools/split_flashcards.py:41 | The filter distributes over concatenation |
| SplitFlashcards.PartEntries | tools/split_flashcards.py:43-50 | One appended entry per part, in order, with id `flash-2-part-k` and that part's question count |
| SplitFlashcards.PartIdsDistinct | tools/split_flashcards.py:45 | Different part numbers give different test ids |
| SplitFlashcards.NewTests | tools/split_flashcards.py:39-50 | The new list has one entry per kept entry and per part; its first part holds no `flash-2` entry and the rest are the part entries |
| SplitFlashcards.NewTestsKeep | tools/split_flashcards.py:39-50 | The new list opens with the kept entries in their original order, every entry that is not an old part among them |
| SplitFlashcards.NewTestsIdempotent | tools/split_flashcards.py:39-51 | Rewriting a rewritten list with the same parts changes nothing |
| SplitFlashcards.ExtendTests | tools/split_flashcards.py:39-50 | The filtered list grown by `append` in the loop is the kept entries followed by the part entries |
| SplitFlashcards.BasicIndex | tools/split_flashcards.py:37-38 | The loop stops at the first topic with id `flashcards-basic`, or finds none |
| SplitFlashcards.Rewritten | tools/split_flashcards.py:37-52 | The rewritten index has the same topics, in order, with the same ids and names |
| Sequences.FirstIndex | tools/split_flashcards.py:37-38 | The first position whose element passes the test, or -1 exactly when none does |
| SplitFlashcards.RewrittenChangesOneTopic | tools/split_flashcards.py:37-52 | Only the first `flashcards-basic` topic changes, and only its `practiceTests`; without such a topic nothing changes |
| SplitFlashcards.RewrittenIdempotent | tools/split_flashcards.py:37-52 | Running the rewrite again with the same parts leaves the index as it is |
| SplitFlashcards.RewriteTopics | tools/split_flashcards.py:37-52 | The loop with its `break` rewrites the first `flashcards-basic` topic's tests and leaves everything else |
| SplitFlashcards.Split | tools/split_flashcards.py:18-55 | The script writes the part files of the chunks and a `created` list whose counts sum to the number of questions; the index is rewritten, or written back unchanged without a `topics` key |

## Left out

- Rendering and view switching are left out because they only build HTML: `renderTopicsGrid`, `renderPracticeTests`, `showView`, `updateNavigationButtons`, `renderQuestionDots`, `showAllQuestions`, the markup of `renderQuestion` and `selectOption`, and dark mode. What is kept of `renderQuestion`, `selectOption` and `hideAnswer` is their effect on state. The `answer-section` visibility is kept as the field `answerShown`.
- `fetch` and `JSON.parse` of the topic index and question files are left out, because they are network I/O. A loaded file is a parameter, and `None` stands for a failed fetch or parse, or a file without `questions`.
- The first `loadQuestions` (js/app.js:80) is left out because the later key at js/app.js:270 replaces it in the object literal.
- `generateAIExplanation`, `sw.js` and `src/worker.js` are left out. They are calls to a remote model, cache handling and HTTP routing.
- The one-off quote-fixing and debugging scripts under `tools/` are left out, along with the script's file I/O, its hard-coded paths, the backup copy and its printing.
- `Math.random` is left out. The model's oracle stands for any sequence of values in `[0, 1)`.
- `alert` and `confirm` are left out. `resetProgress` is modelled as confirmed, and the refused filter toggle only returns.
- `JSON.stringify`/`JSON.parse` of progress and the `lastUpdated` timestamp are left out. Storage holds records, and the timestamp is never read back.
- `Progress.RoundPercent`, `Session.App.GetPracticeTestProgress`, `Session.App.GetTopicProgress`: the source computes `Math.round((v / c) * 100)` in IEEE doubles, and the model rounds the exact value `100 v / c`. The two differ where the float product falls just below a `.5`. For 23 viewed of 40, the source gives 57 (`(23/40)*100` is `57.49999999999999`) and the model gives 58. There are 40 such pairs with `c <= 1000`.
- `Shuffle.Letter`: past the fourth option the source's letter table yields `undefined`. The model writes that text and demands no bound on the option count.
- `Text.IsSpace`: it is ECMAScript's WhiteSpace and LineTerminator set for the Unicode version whose space separators it lists. Characters a later Unicode version adds to that category are not covered.
- Ids are strings. The numeric ids a question file might hold, and a `Set`'s distinction between `1` and `"1"`, are not modelled.
- Topics without a `practiceTests` list are read as having an empty list. This gives the same topic progress. `getPracticeTestProgress` throws on such a topic in the source, and that throw is not modelled.
- Progress records always have the three arrays. The `data.viewed || []` fallback for a record missing one is not modelled.
- `Shuffle.RemapQuestion`: its contract only ties it to `RemapFrom`. What that remap means is stated by `Shuffle.RemapShuffled` and `Shuffle.LoadedFaithful`.
- `Session.App.ToggleBookmark`: in bookmarked-only mode the kept index can fall outside the shrunken view, and the contract says so. The model does not keep the index in range, because the source does not.
