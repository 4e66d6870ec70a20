/** The question session of `MCQApp` (js/app.js:5-18 and the state steps at
    js/app.js:248-491, 583-671, 674-766): one object whose fields are
    updated in place by the navigation, answer, bookmark, filter and
    persistence operations. Rendering is reduced to its effect on the
    state: `renderQuestion` hides the answer section, marks the current
    question viewed and saves. */
module Session {
  import opened Options
  import opened IdSets
  import opened Shuffle
  import opened Progress
  import opened Sequences

  /** `state.filterMode`: `'all'` or `'bookmarked'`. */
  datatype FilterMode = All | BookmarkedOnly

  /** A practice test entry of `topics.json`, as far as the session reads it. */
  datatype PracticeTest = PracticeTest(id: string, questionCount: nat)

  /** A topic of `topics.json`. A topic without `practiceTests` is given an
      empty list. */
  datatype Topic = Topic(id: string, practiceTests: seq<PracticeTest>)

  function TopicId(t: Topic): string { t.id }

  function TestId(t: PracticeTest): string { t.id }

  /** The test `x => idOf(x) === id` of a `find` call. */
  function HasId<T>(idOf: T -> string, id: string): T -> bool {
    x => idOf(x) == id
  }

  /** `s.find(x => x.id === id)`, with `idOf` reading the id: the first
      element with that id, or `None` (`undefined`) when no element has it. */
  function FindById<T>(s: seq<T>, idOf: T -> string, id: string): (r: Option<T>)
    ensures r.None? <==> forall m :: 0 <= m < |s| ==> idOf(s[m]) != id
    ensures r.Some? ==>
              && idOf(r.value) == id
              && exists k :: 0 <= k < |s| && s[k] == r.value && forall m :: 0 <= m < k ==> idOf(s[m]) != id
  {
    var k := FirstIndex(s, HasId(idOf, id));
    if k == -1 then None
    else
      assert forall m :: 0 <= m < k ==> idOf(s[m]) != id by {
        forall m | 0 <= m < k ensures idOf(s[m]) != id {
          assert !HasId(idOf, id)(s[m]);
        }
      }
      Some(s[k])
  }

  /** How many questions of `qs` have a bookmarked id. */
  function CountMarked(qs: seq<Question>, marks: seq<QuestionId>): (n: nat)
    ensures n <= |qs|
  {
    if qs == [] then 0
    else (if qs[0].id in marks then 1 else 0) + CountMarked(qs[1..], marks)
  }

  /** `questions.filter(q => bookmarkedQuestions.has(q.id))`. */
  function FilterBookmarked(qs: seq<Question>, marks: seq<QuestionId>): (r: seq<Question>)
    ensures |r| <= |qs|
    ensures forall k :: 0 <= k < |r| ==> r[k].id in marks
  {
    if qs == [] then []
    else if qs[0].id in marks then [qs[0]] + FilterBookmarked(qs[1..], marks)
    else FilterBookmarked(qs[1..], marks)
  }

  /** The bookmark filter is the order-preserving subsequence of exactly
      the bookmarked questions: one per bookmarked occurrence, and a
      question is in it if and only if it is in `qs` and bookmarked. */
  lemma {:induction false} FilterBookmarkedSelects(qs: seq<Question>, marks: seq<QuestionId>)
    ensures IsSubsequence(FilterBookmarked(qs, marks), qs)
    ensures |FilterBookmarked(qs, marks)| == CountMarked(qs, marks)
    ensures forall q :: q in FilterBookmarked(qs, marks) <==> q in qs && q.id in marks
  {
    if qs != [] {
      FilterBookmarkedSelects(qs[1..], marks);
      var rest := FilterBookmarked(qs[1..], marks);
      if qs[0].id in marks {
        assert ([qs[0]] + rest)[0] == qs[0];
        assert ([qs[0]] + rest)[1..] == rest;
      } else if rest != [] {
        assert rest[0] in rest;
      }
      assert forall q :: q in qs <==> q == qs[0] || q in qs[1..];
    }
  }

  /** Removing a bookmark never adds a question to the bookmarked view,
      and removing the bookmark of a question in the list drops at least
      one. */
  lemma {:induction false} UnbookmarkCount(qs: seq<Question>, marks: seq<QuestionId>, id: QuestionId)
    ensures CountMarked(qs, Delete(marks, id)) <= CountMarked(qs, marks)
    ensures id in marks && (exists k :: 0 <= k < |qs| && qs[k].id == id) ==>
              CountMarked(qs, Delete(marks, id)) < CountMarked(qs, marks)
  {
    if qs != [] {
      UnbookmarkCount(qs[1..], marks, id);
      if id in marks && qs[0].id != id && exists k :: 0 <= k < |qs| && qs[k].id == id {
        var k :| 0 <= k < |qs| && qs[k].id == id;
        assert qs[1..][k - 1].id == id;
      }
    }
  }

  /** In bookmarked-only mode the question at position `i` of the view is
      bookmarked, and un-bookmarking it shrinks the view, so a current
      question at the end of the view leaves the index past the end. */
  lemma UnbookmarkShrinksView(qs: seq<Question>, marks: seq<QuestionId>, i: nat)
    requires i < |FilterBookmarked(qs, marks)|
    ensures FilterBookmarked(qs, marks)[i].id in marks
    ensures |FilterBookmarked(qs, Delete(marks, FilterBookmarked(qs, marks)[i].id))| < |FilterBookmarked(qs, marks)|
  {
    var view := FilterBookmarked(qs, marks);
    var id := view[i].id;
    FilterBookmarkedSelects(qs, marks);
    FilterBookmarkedSelects(qs, Delete(marks, id));
    assert view[i] in view;
    var k :| 0 <= k < |qs| && qs[k] == view[i];
    UnbookmarkCount(qs, marks, id);
  }

  /** The contribution of one practice test to `getTopicProgress`'s
      `totalViewed`: the stored viewed count, for tests with questions. */
  function ViewedOf(topicId: string, test: PracticeTest, items: map<string, ProgressRecord>): nat {
    var key := ProgressKey(topicId, test.id);
    if test.questionCount > 0 && key in items then |items[key].viewed| else 0
  }

  /** `totalQuestions` after the `forEach` over `tests`. */
  function TotalQuestions(tests: seq<PracticeTest>): nat {
    if tests == [] then 0
    else TotalQuestions(tests[..|tests| - 1]) + tests[|tests| - 1].questionCount
  }

  /** `totalViewed` after the `forEach` over `tests`. */
  function TotalViewed(topicId: string, tests: seq<PracticeTest>, items: map<string, ProgressRecord>): nat {
    if tests == [] then 0
    else TotalViewed(topicId, tests[..|tests| - 1], items) + ViewedOf(topicId, tests[|tests| - 1], items)
  }

  /** What `getTopicProgress` returns for a topic that exists. */
  function TopicPercent(topicId: string, tests: seq<PracticeTest>, items: map<string, ProgressRecord>): nat {
    var total := TotalQuestions(tests);
    if total == 0 then 0 else RoundPercent(TotalViewed(topicId, tests, items), total)
  }

  /** When no test has more stored viewed ids than questions, the viewed
      total does not exceed the question total. */
  lemma {:induction false} TotalViewedBounded(topicId: string, tests: seq<PracticeTest>, items: map<string, ProgressRecord>)
    requires forall t :: t in tests && ProgressKey(topicId, t.id) in items ==>
               |items[ProgressKey(topicId, t.id)].viewed| <= t.questionCount
    ensures TotalViewed(topicId, tests, items) <= TotalQuestions(tests)
  {
    if tests != [] {
      var init := tests[..|tests| - 1];
      assert forall t :: t in init ==> t in tests;
      TotalViewedBounded(topicId, init, items);
      assert tests[|tests| - 1] in tests;
    }
  }

  /** Topic progress is a percentage: it lies in [0, 100] as long as no
      test has more viewed ids stored than it has questions. */
  lemma TopicPercentAtMost100(topicId: string, tests: seq<PracticeTest>, items: map<string, ProgressRecord>)
    requires forall t :: t in tests && ProgressKey(topicId, t.id) in items ==>
               |items[ProgressKey(topicId, t.id)].viewed| <= t.questionCount
    ensures TopicPercent(topicId, tests, items) <= 100
  {
    TotalViewedBounded(topicId, tests, items);
  }

  /** The `MCQApp` object together with the `localStorage` it writes. */
  class App {
    var topics: seq<Topic>
    var currentTopic: Option<Topic>
    var currentPracticeTest: Option<PracticeTest>
    var questions: seq<Question>
    var currentQuestionIndex: nat
    var bookmarkedQuestions: seq<QuestionId>
    var viewedQuestions: seq<QuestionId>
    var answersRevealed: seq<QuestionId>
    var filterMode: FilterMode
    /** `state.lastSelectedIndex`, `None` while it is `undefined`. */
    var lastSelectedIndex: Option<int>
    /** Whether `#answer-section` is shown (lacks the `hidden` class). */
    var answerShown: bool
    const storage: LocalStorage

    /** The three id collections are sets. */
    ghost predicate Valid()
      reads this`viewedQuestions, this`bookmarkedQuestions, this`answersRevealed
    {
      NoDup(viewedQuestions) && NoDup(bookmarkedQuestions) && NoDup(answersRevealed)
    }

    /** The initial `state` (js/app.js:7-18) once `loadTopics` has produced
        `topics` (an empty list when the fetch failed). */
    constructor(topics: seq<Topic>, storage: LocalStorage)
      ensures Valid()
      ensures this.topics == topics && this.storage == storage
      ensures currentTopic == None && currentPracticeTest == None
      ensures questions == [] && currentQuestionIndex == 0 && filterMode == All
      ensures viewedQuestions == [] && bookmarkedQuestions == [] && answersRevealed == []
      ensures lastSelectedIndex == None && !answerShown
    {
      this.topics := topics;
      this.storage := storage;
      currentTopic := None;
      currentPracticeTest := None;
      questions := [];
      currentQuestionIndex := 0;
      bookmarkedQuestions := [];
      viewedQuestions := [];
      answersRevealed := [];
      filterMode := All;
      lastSelectedIndex := None;
      answerShown := false;
    }

    /** `getFilteredQuestions`: every question in `'all'` mode, the
        bookmarked ones otherwise. */
    function FilteredQuestions(): (r: seq<Question>)
      reads this`questions, this`filterMode, this`bookmarkedQuestions
      ensures filterMode == All ==> r == questions
      ensures filterMode == BookmarkedOnly ==>
                && IsSubsequence(r, questions)
                && forall q :: q in r <==> q in questions && q.id in bookmarkedQuestions
    {
      FilterBookmarkedSelects(questions, bookmarkedQuestions);
      if filterMode == BookmarkedOnly then FilterBookmarked(questions, bookmarkedQuestions) else questions
    }

    /** `getCurrentQuestion`: `filtered[currentQuestionIndex]`, which is
        `undefined` past the end. */
    function CurrentQuestion(): (r: Option<Question>)
      reads this`questions, this`filterMode, this`bookmarkedQuestions, this`currentQuestionIndex
      ensures r.Some? <==> currentQuestionIndex < |FilteredQuestions()|
      ensures r.Some? ==> r.value == FilteredQuestions()[currentQuestionIndex]
    {
      var filtered := FilteredQuestions();
      if currentQuestionIndex < |filtered| then Some(filtered[currentQuestionIndex]) else None
    }

    /** Whether a topic and a practice test are selected, the guard of
        `saveProgress`, `loadProgress` and `resetProgress`. */
    predicate HasTest()
      reads this`currentTopic, this`currentPracticeTest
    {
      currentTopic.Some? && currentPracticeTest.Some?
    }

    function Key(): string
      reads this`currentTopic, this`currentPracticeTest
      requires HasTest()
    {
      ProgressKey(currentTopic.value.id, currentPracticeTest.value.id)
    }

    /** The record `saveProgress` writes: the three sets as arrays. */
    function Snapshot(): ProgressRecord
      reads this`viewedQuestions, this`bookmarkedQuestions, this`answersRevealed
    {
      ProgressRecord(viewedQuestions, bookmarkedQuestions, answersRevealed)
    }

    /** The storage contents after `saveProgress` ran on `items`. */
    function SavedInto(items: map<string, ProgressRecord>): map<string, ProgressRecord>
      reads this`currentTopic, this`currentPracticeTest,
            this`viewedQuestions, this`bookmarkedQuestions, this`answersRevealed
    {
      if HasTest() then items[Key() := Snapshot()] else items
    }

    /** `saveProgress`: overwrites the record of the current test, if a
        test is selected. */
    method SaveProgress()
      modifies storage
      ensures storage.items == SavedInto(old(storage.items))
    {
      if currentTopic.Some? && currentPracticeTest.Some? {
        storage.SetItem(Key(), Snapshot());
      }
    }

    /** `loadProgress`: the three sets become those stored for the current
        test, or empty when nothing is stored; without a selected test
        nothing happens. */
    method LoadProgress()
      requires Valid()
      modifies this
      ensures Valid()
      ensures old(HasTest()) ==> Snapshot() == Restore(storage.GetItem(old(Key())))
      ensures !old(HasTest()) ==> Snapshot() == old(Snapshot())
      ensures topics == old(topics) && currentTopic == old(currentTopic)
      ensures currentPracticeTest == old(currentPracticeTest) && questions == old(questions)
      ensures currentQuestionIndex == old(currentQuestionIndex) && filterMode == old(filterMode)
      ensures lastSelectedIndex == old(lastSelectedIndex) && answerShown == old(answerShown)
    {
      if currentTopic.Some? && currentPracticeTest.Some? {
        var sets := Restore(storage.GetItem(Key()));
        viewedQuestions := sets.viewed;
        bookmarkedQuestions := sets.bookmarked;
        answersRevealed := sets.revealed;
      }
    }

    /** The state effects of `renderQuestion`: with a current question,
        the answer section is hidden, the question is marked viewed and
        progress is saved; without one nothing happens. */
    method RenderQuestion()
      requires Valid()
      modifies this, storage
      ensures Valid()
      ensures old(CurrentQuestion()).None? ==>
                && viewedQuestions == old(viewedQuestions) && answerShown == old(answerShown)
                && storage.items == old(storage.items)
      ensures old(CurrentQuestion()).Some? ==>
                && viewedQuestions == Add(old(viewedQuestions), old(CurrentQuestion()).value.id)
                && !answerShown
                && storage.items == SavedInto(old(storage.items))
      ensures topics == old(topics) && currentTopic == old(currentTopic)
      ensures currentPracticeTest == old(currentPracticeTest) && questions == old(questions)
      ensures currentQuestionIndex == old(currentQuestionIndex) && filterMode == old(filterMode)
      ensures bookmarkedQuestions == old(bookmarkedQuestions) && answersRevealed == old(answersRevealed)
      ensures lastSelectedIndex == old(lastSelectedIndex)
    {
      var question := CurrentQuestion();
      if question.None? {
        return;
      }
      answerShown := false;
      viewedQuestions := Add(viewedQuestions, question.value.id);
      SaveProgress();
    }

    /** `navigateQuestion(direction)`: moves to `index + direction` only
        when that lies in the filtered list (no wrap-around), then renders;
        otherwise nothing changes. */
    method NavigateQuestion(direction: int)
      requires Valid()
      modifies this, storage
      ensures Valid()
      ensures var target := old(currentQuestionIndex) + direction;
              !(0 <= target < old(|FilteredQuestions()|)) ==>
                && currentQuestionIndex == old(currentQuestionIndex)
                && viewedQuestions == old(viewedQuestions) && answerShown == old(answerShown)
                && storage.items == old(storage.items)
      ensures var target := old(currentQuestionIndex) + direction;
              0 <= target < old(|FilteredQuestions()|) ==>
                && currentQuestionIndex == target
                && CurrentQuestion() == Some(old(FilteredQuestions())[target])
                && viewedQuestions == Add(old(viewedQuestions), old(FilteredQuestions())[target].id)
                && !answerShown
                && storage.items == SavedInto(old(storage.items))
      ensures currentQuestionIndex < |FilteredQuestions()| || currentQuestionIndex == old(currentQuestionIndex)
      ensures topics == old(topics) && currentTopic == old(currentTopic)
      ensures currentPracticeTest == old(currentPracticeTest) && questions == old(questions)
      ensures filterMode == old(filterMode) && bookmarkedQuestions == old(bookmarkedQuestions)
      ensures answersRevealed == old(answersRevealed) && lastSelectedIndex == old(lastSelectedIndex)
    {
      var filtered := FilteredQuestions();
      var newIndex := currentQuestionIndex + direction;
      if newIndex >= 0 && newIndex < |filtered| {
        currentQuestionIndex := newIndex;
        RenderQuestion();
      }
    }

    /** `jumpToQuestion(index)`, called from a question dot: the index is
        set without a bounds check and the view is rendered. A dot drawn
        before the view shrank can pass a position past its end; the
        render then finds no question and nothing else changes. */
    method JumpToQuestion(index: nat)
      requires Valid()
      modifies this, storage
      ensures Valid()
      ensures currentQuestionIndex == index
      ensures index < old(|FilteredQuestions()|) ==>
                && CurrentQuestion() == Some(old(FilteredQuestions())[index])
                && viewedQuestions == Add(old(viewedQuestions), old(FilteredQuestions())[index].id)
                && !answerShown
                && storage.items == SavedInto(old(storage.items))
      ensures index >= old(|FilteredQuestions()|) ==>
                && CurrentQuestion().None?
                && viewedQuestions == old(viewedQuestions) && answerShown == old(answerShown)
                && storage.items == old(storage.items)
      ensures topics == old(topics) && currentTopic == old(currentTopic)
      ensures currentPracticeTest == old(currentPracticeTest) && questions == old(questions)
      ensures filterMode == old(filterMode) && bookmarkedQuestions == old(bookmarkedQuestions)
      ensures answersRevealed == old(answersRevealed) && lastSelectedIndex == old(lastSelectedIndex)
    {
      currentQuestionIndex := index;
      RenderQuestion();
    }

    /** `jumpToQuestionFromList(index)`, called from the list view: the
        same state step as `jumpToQuestion` (the view switch is
        presentation only). */
    method JumpToQuestionFromList(index: nat)
      requires Valid()
      modifies this, storage
      ensures Valid()
      ensures currentQuestionIndex == index
      ensures index < old(|FilteredQuestions()|) ==>
                && CurrentQuestion() == Some(old(FilteredQuestions())[index])
                && viewedQuestions == Add(old(viewedQuestions), old(FilteredQuestions())[index].id)
                && !answerShown
                && storage.items == SavedInto(old(storage.items))
      ensures index >= old(|FilteredQuestions()|) ==>
                && CurrentQuestion().None?
                && viewedQuestions == old(viewedQuestions) && answerShown == old(answerShown)
                && storage.items == old(storage.items)
      ensures topics == old(topics) && currentTopic == old(currentTopic)
      ensures currentPracticeTest == old(currentPracticeTest) && questions == old(questions)
      ensures filterMode == old(filterMode) && bookmarkedQuestions == old(bookmarkedQuestions)
      ensures answersRevealed == old(answersRevealed) && lastSelectedIndex == old(lastSelectedIndex)
    {
      currentQuestionIndex := index;
      RenderQuestion();
    }

    /** The state part of `selectOption(selectedIndex)`: without a current
        question, or while the answer is already shown, nothing happens (so
        a second click before `hideAnswer` is ignored); otherwise the choice
        is recorded, the answer is shown, the question counts as revealed
        and progress is saved. */
    method SelectOption(selectedIndex: int)
      requires Valid()
      modifies this, storage
      ensures Valid()
      ensures old(CurrentQuestion()).None? || old(answerShown) ==>
                && lastSelectedIndex == old(lastSelectedIndex) && answerShown == old(answerShown)
                && answersRevealed == old(answersRevealed) && storage.items == old(storage.items)
      ensures old(CurrentQuestion()).Some? && !old(answerShown) ==>
                && lastSelectedIndex == Some(selectedIndex)
                && answerShown
                && answersRevealed == Add(old(answersRevealed), old(CurrentQuestion()).value.id)
                && storage.items == SavedInto(old(storage.items))
      ensures topics == old(topics) && currentTopic == old(currentTopic)
      ensures currentPracticeTest == old(currentPracticeTest) && questions == old(questions)
      ensures currentQuestionIndex == old(currentQuestionIndex) && filterMode == old(filterMode)
      ensures bookmarkedQuestions == old(bookmarkedQuestions) && viewedQuestions == old(viewedQuestions)
    {
      var question := CurrentQuestion();
      if question.None? {
        return;
      }
      if answerShown {
        return;
      }
      lastSelectedIndex := Some(selectedIndex);
      answerShown := true;
      answersRevealed := Add(answersRevealed, question.value.id);
      SaveProgress();
    }

    /** The state part of `hideAnswer`: with a current question the answer
        section is hidden again. */
    method HideAnswer()
      requires Valid()
      modifies this
      ensures Valid()
      ensures answerShown == (old(answerShown) && old(CurrentQuestion()).None?)
      ensures topics == old(topics) && currentTopic == old(currentTopic)
      ensures currentPracticeTest == old(currentPracticeTest) && questions == old(questions)
      ensures currentQuestionIndex == old(currentQuestionIndex) && filterMode == old(filterMode)
      ensures bookmarkedQuestions == old(bookmarkedQuestions) && viewedQuestions == old(viewedQuestions)
      ensures answersRevealed == old(answersRevealed) && lastSelectedIndex == old(lastSelectedIndex)
    {
      var question := CurrentQuestion();
      if question.None? {
        return;
      }
      answerShown := false;
    }

    /** `toggleBookmark`: flips the current question's bookmark, saves and
        renders. The index is kept, so in bookmarked-only mode the view can
        shrink under it and leave no current question. */
    method ToggleBookmark()
      requires Valid()
      modifies this, storage
      ensures Valid()
      ensures old(CurrentQuestion()).None? ==>
                && bookmarkedQuestions == old(bookmarkedQuestions)
                && viewedQuestions == old(viewedQuestions) && answerShown == old(answerShown)
                && storage.items == old(storage.items)
      ensures old(CurrentQuestion()).Some? ==>
                var id := old(CurrentQuestion()).value.id;
                && (id in old(bookmarkedQuestions) ==> bookmarkedQuestions == Delete(old(bookmarkedQuestions), id))
                && (id !in old(bookmarkedQuestions) ==> bookmarkedQuestions == Add(old(bookmarkedQuestions), id))
                && (CurrentQuestion().Some? ==>
                      viewedQuestions == Add(old(viewedQuestions), CurrentQuestion().value.id) && !answerShown)
                && (CurrentQuestion().None? ==>
                      viewedQuestions == old(viewedQuestions) && answerShown == old(answerShown))
                && storage.items == SavedInto(old(storage.items))
      ensures old(filterMode) == BookmarkedOnly && old(CurrentQuestion()).Some? ==>
                |FilteredQuestions()| < old(|FilteredQuestions()|)
      ensures old(filterMode) == BookmarkedOnly && old(CurrentQuestion()).Some? &&
              old(currentQuestionIndex) + 1 == old(|FilteredQuestions()|) ==>
                CurrentQuestion().None?
      ensures topics == old(topics) && currentTopic == old(currentTopic)
      ensures currentPracticeTest == old(currentPracticeTest) && questions == old(questions)
      ensures currentQuestionIndex == old(currentQuestionIndex) && filterMode == old(filterMode)
      ensures answersRevealed == old(answersRevealed) && lastSelectedIndex == old(lastSelectedIndex)
    {
      var question := CurrentQuestion();
      if question.None? {
        return;
      }
      var id := question.value.id;
      if filterMode == BookmarkedOnly {
        UnbookmarkShrinksView(questions, bookmarkedQuestions, currentQuestionIndex);
      }
      ghost var items0 := storage.items;
      if id in bookmarkedQuestions {
        bookmarkedQuestions := Delete(bookmarkedQuestions, id);
      } else {
        bookmarkedQuestions := Add(bookmarkedQuestions, id);
      }
      SaveProgress();
      ghost var items1 := storage.items;
      ghost var snap1 := Snapshot();
      RenderQuestion();
      if HasTest() {
        assert items1 == items0[Key() := snap1];
        Overwrite(items0, Key(), snap1, Snapshot());
      }
    }

    /** `toggleFilterMode`: switching to bookmarked-only with no bookmark
        is refused and changes nothing; otherwise the mode flips, the index
        returns to 0 and the view is rendered. */
    method ToggleFilterMode()
      requires Valid()
      modifies this, storage
      ensures Valid()
      ensures old(filterMode) == All && |old(bookmarkedQuestions)| == 0 ==>
                && filterMode == All && currentQuestionIndex == old(currentQuestionIndex)
                && viewedQuestions == old(viewedQuestions) && answerShown == old(answerShown)
                && storage.items == old(storage.items)
      ensures !(old(filterMode) == All && |old(bookmarkedQuestions)| == 0) ==>
                && filterMode == (if old(filterMode) == All then BookmarkedOnly else All)
                && currentQuestionIndex == 0
                && (CurrentQuestion().Some? ==>
                      && viewedQuestions == Add(old(viewedQuestions), CurrentQuestion().value.id)
                      && !answerShown
                      && storage.items == SavedInto(old(storage.items)))
                && (CurrentQuestion().None? ==>
                      && viewedQuestions == old(viewedQuestions) && answerShown == old(answerShown)
                      && storage.items == old(storage.items))
      ensures topics == old(topics) && currentTopic == old(currentTopic)
      ensures currentPracticeTest == old(currentPracticeTest) && questions == old(questions)
      ensures bookmarkedQuestions == old(bookmarkedQuestions) && answersRevealed == old(answersRevealed)
      ensures lastSelectedIndex == old(lastSelectedIndex)
    {
      if filterMode == All {
        if |bookmarkedQuestions| == 0 {
          return;
        }
        filterMode := BookmarkedOnly;
      } else {
        filterMode := All;
      }
      currentQuestionIndex := 0;
      RenderQuestion();
    }

    /** `resetProgress`, once confirmed: with a selected test, its stored
        record is removed, the three sets are cleared, the index returns to
        0 and the view is rendered, which marks the new current question
        viewed and stores a fresh record again. */
    method ResetProgress()
      requires Valid()
      modifies this, storage
      ensures Valid()
      ensures !old(HasTest()) ==>
                && Snapshot() == old(Snapshot()) && currentQuestionIndex == old(currentQuestionIndex)
                && answerShown == old(answerShown) && storage.items == old(storage.items)
      ensures old(HasTest()) ==>
                && bookmarkedQuestions == [] && answersRevealed == [] && currentQuestionIndex == 0
                && (CurrentQuestion().Some? ==>
                      && viewedQuestions == [CurrentQuestion().value.id] && !answerShown
                      && storage.items == (old(storage.items) - {old(Key())})[old(Key()) := Snapshot()])
                && (CurrentQuestion().None? ==>
                      && viewedQuestions == [] && answerShown == old(answerShown)
                      && storage.items == old(storage.items) - {old(Key())})
      ensures topics == old(topics) && currentTopic == old(currentTopic)
      ensures currentPracticeTest == old(currentPracticeTest) && questions == old(questions)
      ensures filterMode == old(filterMode) && lastSelectedIndex == old(lastSelectedIndex)
    {
      if currentTopic.Some? && currentPracticeTest.Some? {
        storage.RemoveItem(Key());
        viewedQuestions := [];
        bookmarkedQuestions := [];
        answersRevealed := [];
        currentQuestionIndex := 0;
        RenderQuestion();
      }
    }

    /** The state part of `loadQuestions(dataFile)` (the js/app.js:270
        definition, which overrides the one at js/app.js:80): `data` is the
        fetched question list, `None` when the fetch or the parse failed. */
    method LoadQuestions(data: Option<seq<Question>>, rand: RandomSource)
      requires InRange(rand)
      modifies this
      ensures data.None? ==> questions == []
      ensures data.Some? ==> questions == Loaded(data.value, rand)
      ensures data.Some? ==> |questions| == |data.value|
      ensures topics == old(topics) && currentTopic == old(currentTopic)
      ensures currentPracticeTest == old(currentPracticeTest) && Snapshot() == old(Snapshot())
      ensures currentQuestionIndex == old(currentQuestionIndex) && filterMode == old(filterMode)
      ensures lastSelectedIndex == old(lastSelectedIndex) && answerShown == old(answerShown)
    {
      if data.None? {
        questions := [];
      } else {
        questions := ShuffleQuestions(data.value, rand);
      }
    }

    /** The state part of `selectTopic(topicId)`. */
    method SelectTopic(topicId: string)
      modifies this
      ensures currentTopic == (if FindById(topics, TopicId, topicId).Some? then FindById(topics, TopicId, topicId) else old(currentTopic))
      ensures topics == old(topics) && currentPracticeTest == old(currentPracticeTest)
      ensures questions == old(questions) && Snapshot() == old(Snapshot())
      ensures currentQuestionIndex == old(currentQuestionIndex) && filterMode == old(filterMode)
      ensures lastSelectedIndex == old(lastSelectedIndex) && answerShown == old(answerShown)
    {
      var topic := FindById(topics, TopicId, topicId);
      if topic.None? {
        return;
      }
      currentTopic := topic;
    }

    /** `topic.practiceTests.find(t => t.id === testId)` in the current
        topic, `None` without a current topic. */
    function SelectedTest(testId: string): (r: Option<PracticeTest>)
      reads this`currentTopic
      ensures r.None? <==>
                || currentTopic.None?
                || forall m :: 0 <= m < |currentTopic.value.practiceTests| ==>
                     currentTopic.value.practiceTests[m].id != testId
      ensures r.Some? ==>
                var tests := currentTopic.value.practiceTests;
                && r.value.id == testId
                && exists k :: 0 <= k < |tests| && tests[k] == r.value && forall m :: 0 <= m < k ==> tests[m].id != testId
    {
      if currentTopic.None? then None else FindById(currentTopic.value.practiceTests, TestId, testId)
    }

    /** The end of `selectPracticeTest` once questions are loaded: `test`
        becomes current at index 0 in "all" mode, its stored progress is
        restored and the first question is rendered. */
    method StartTest(test: PracticeTest)
      requires Valid()
      requires currentTopic.Some? && |questions| > 0
      modifies this, storage
      ensures topics == old(topics) && currentTopic == old(currentTopic) && questions == old(questions)
      ensures lastSelectedIndex == old(lastSelectedIndex)
      ensures Valid()
      ensures var key := ProgressKey(currentTopic.value.id, test.id);
              var stored := Restore(old(storage.GetItem(key)));
              && currentPracticeTest == Some(test) && currentQuestionIndex == 0 && filterMode == All
              && CurrentQuestion() == Some(questions[0])
              && viewedQuestions == Add(stored.viewed, questions[0].id)
              && bookmarkedQuestions == stored.bookmarked && answersRevealed == stored.revealed
              && !answerShown
              && storage.items == old(storage.items)[key := Snapshot()]
    {
      currentPracticeTest := Some(test);
      currentQuestionIndex := 0;
      filterMode := All;
      LoadProgress();
      assert CurrentQuestion() == Some(questions[0]);
      RenderQuestion();
    }

    /** `selectPracticeTest(testId)` with the question file's contents as
        `data`: an unknown topic or test changes nothing; otherwise the
        questions are loaded (replacing the old ones even when none come
        back, in which case nothing else changes); with questions, the test
        becomes current at index 0 in "all" mode, its stored progress is
        restored and the first question is rendered. */
    method SelectPracticeTest(testId: string, data: Option<seq<Question>>, rand: RandomSource)
      requires Valid()
      requires InRange(rand)
      modifies this, storage
      ensures Valid()
      ensures old(SelectedTest(testId)).None? ==>
                && questions == old(questions) && currentPracticeTest == old(currentPracticeTest)
                && currentQuestionIndex == old(currentQuestionIndex) && filterMode == old(filterMode)
                && Snapshot() == old(Snapshot()) && answerShown == old(answerShown)
                && storage.items == old(storage.items)
      ensures old(SelectedTest(testId)).Some? ==>
                && (data.None? ==> questions == [])
                && (data.Some? ==> questions == Loaded(data.value, rand))
      ensures old(SelectedTest(testId)).Some? && questions == [] ==>
                && currentPracticeTest == old(currentPracticeTest)
                && currentQuestionIndex == old(currentQuestionIndex) && filterMode == old(filterMode)
                && Snapshot() == old(Snapshot()) && answerShown == old(answerShown)
                && storage.items == old(storage.items)
      ensures old(SelectedTest(testId)).Some? && questions != [] ==>
                var key := ProgressKey(old(currentTopic).value.id, testId);
                var stored := Restore(old(storage.GetItem(key)));
                && currentPracticeTest == old(SelectedTest(testId)) && currentQuestionIndex == 0
                && filterMode == All
                && CurrentQuestion() == Some(questions[0])
                && viewedQuestions == Add(stored.viewed, questions[0].id)
                && bookmarkedQuestions == stored.bookmarked && answersRevealed == stored.revealed
                && !answerShown
                && storage.items == old(storage.items)[key := Snapshot()]
      ensures topics == old(topics) && currentTopic == old(currentTopic)
      ensures lastSelectedIndex == old(lastSelectedIndex)
    {
      if currentTopic.None? {
        return;
      }
      var test := SelectedTest(testId);
      if test.None? {
        return;
      }
      LoadQuestions(data, rand);
      if |questions| == 0 {
        return;
      }
      StartTest(test.value);
    }

    /** `getPracticeTestProgress(topicId, testId)`: 0 without a stored
        record, for an unknown topic or test, or for a test of 0 questions;
        otherwise the stored viewed count as a percentage of the question
        count, rounded to the nearest integer with halves going up. */
    function GetPracticeTestProgress(topicId: string, testId: string): (p: nat)
      reads this, storage
      ensures var key := ProgressKey(topicId, testId);
              var topic := FindById(topics, TopicId, topicId);
              var test := if topic.Some? then FindById(topic.value.practiceTests, TestId, testId) else None;
              if key in storage.items && test.Some? && test.value.questionCount > 0 then
                var v := |storage.items[key].viewed|;
                var c := test.value.questionCount;
                c * (2 * p - 1) <= 200 * v < c * (2 * p + 1)
              else p == 0
    {
      var key := ProgressKey(topicId, testId);
      var saved := storage.GetItem(key);
      if saved.None? then 0
      else
        var topic := FindById(topics, TopicId, topicId);
        if topic.None? then 0
        else
          var test := FindById(topic.value.practiceTests, TestId, testId);
          if test.None? || test.value.questionCount == 0 then 0
          else RoundPercent(|saved.value.viewed|, test.value.questionCount)
    }

    /** `getTopicProgress(topicId)`: the `forEach` sums, over the topic's
        tests that have questions, the stored viewed counts and the
        question counts, and the result is the rounded percentage, 0 for an
        unknown topic or a zero total. */
    method GetTopicProgress(topicId: string) returns (p: nat)
      ensures FindById(topics, TopicId, topicId).None? ==> p == 0
      ensures FindById(topics, TopicId, topicId).Some? ==>
                p == TopicPercent(topicId, FindById(topics, TopicId, topicId).value.practiceTests, storage.items)
    {
      var topic := FindById(topics, TopicId, topicId);
      if topic.None? {
        return 0;
      }
      var tests := topic.value.practiceTests;
      var totalQuestions := 0;
      var totalViewed := 0;
      var k := 0;
      while k < |tests|
        invariant 0 <= k <= |tests|
        invariant totalQuestions == TotalQuestions(tests[..k])
        invariant totalViewed == TotalViewed(topicId, tests[..k], storage.items)
      {
        var test := tests[k];
        assert tests[..k + 1][..k] == tests[..k];
        if test.questionCount > 0 {
          var saved := storage.GetItem(ProgressKey(topicId, test.id));
          if saved.Some? {
            totalViewed := totalViewed + |saved.value.viewed|;
          }
          totalQuestions := totalQuestions + test.questionCount;
        }
        k := k + 1;
      }
      assert tests[..k] == tests;
      if totalQuestions == 0 {
        return 0;
      }
      p := RoundPercent(totalViewed, totalQuestions);
    }
  }

  /** For a topic with a single practice test, topic progress and that
      test's progress agree. */
  lemma SingleTestTopicProgress(app: App, topicId: string)
    requires FindById(app.topics, TopicId, topicId).Some?
    requires |FindById(app.topics, TopicId, topicId).value.practiceTests| == 1
    ensures var t := FindById(app.topics, TopicId, topicId).value.practiceTests[0];
            TopicPercent(topicId, [t], app.storage.items) == app.GetPracticeTestProgress(topicId, t.id)
  {
    var t := FindById(app.topics, TopicId, topicId).value.practiceTests[0];
    var items := app.storage.items;
    assert [t][..0] == [];
    assert TotalQuestions([t]) == t.questionCount;
    assert TotalViewed(topicId, [t], items) == ViewedOf(topicId, t, items);
    assert FindById([t], TestId, t.id) == Some(t);
    if t.questionCount > 0 && ProgressKey(topicId, t.id) !in items {
      assert RoundPercent(0, t.questionCount) == 0;
    }
  }
}
