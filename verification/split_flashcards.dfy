/** The flashcard split script (tools/split_flashcards.py): it cuts the
    question list of flashcard set 2 into files of at most 20 questions and
    rewrites the `practiceTests` of the `flashcards-basic` topic in the
    topic index so that it lists one practice test per file. Reading and
    writing the JSON files is left to the caller: the inputs are the parsed
    documents, the outputs the documents the script writes. */
module SplitFlashcards {
  import opened Options
  import opened Text
  import opened Sequences

  /** `CHUNK`, the largest number of questions per part file. */
  const Chunk: nat := 20

  function Min(a: int, b: int): int {
    if a <= b then a else b
  }

  // ---------------------------------------------------------------------
  // Chunking
  // ---------------------------------------------------------------------

  /** The chunk list comprehension: item `k` is the Python slice
      `questions[20*k : 20*k+20]`, for every start `20*k` below `n`. */
  function Chunks<T>(qs: seq<T>): (r: seq<seq<T>>)
    ensures |r| == 0 <==> |qs| == 0
    ensures (|r| - 1) * Chunk < |qs| <= |r| * Chunk
    ensures forall k :: 0 <= k < |r| ==> 0 < |r[k]| <= Chunk
    ensures forall k :: 0 <= k < |r| - 1 ==> |r[k]| == Chunk
  {
    var count := (|qs| + Chunk - 1) / Chunk;
    seq(count, k requires 0 <= k < count => qs[k * Chunk .. Min(k * Chunk + Chunk, |qs|)])
  }

  /** The chunks joined end to end. */
  function Flatten<T>(ss: seq<seq<T>>): seq<T> {
    if ss == [] then [] else Flatten(ss[..|ss| - 1]) + ss[|ss| - 1]
  }

  /** The first `k` chunks hold exactly the first `min(20*k, n)` questions. */
  lemma {:induction false} ChunksPrefix<T>(qs: seq<T>, k: nat)
    requires k <= |Chunks(qs)|
    ensures Flatten(Chunks(qs)[..k]) == qs[..Min(k * Chunk, |qs|)]
    decreases k
  {
    if k > 0 {
      var r := Chunks(qs);
      assert r[..k][..k - 1] == r[..k - 1];
      ChunksPrefix(qs, k - 1);
      assert (k - 1) * Chunk < |qs|;
      assert r[k - 1] == qs[(k - 1) * Chunk .. Min(k * Chunk, |qs|)];
      assert qs[..(k - 1) * Chunk] + qs[(k - 1) * Chunk .. Min(k * Chunk, |qs|)]
          == qs[..Min(k * Chunk, |qs|)];
    }
  }

  /** Joining the chunks in order gives back the question list: nothing is
      lost, duplicated or reordered. */
  lemma ChunksConcat<T>(qs: seq<T>)
    ensures Flatten(Chunks(qs)) == qs
  {
    var r := Chunks(qs);
    ChunksPrefix(qs, |r|);
    assert r[..|r|] == r;
  }

  // ---------------------------------------------------------------------
  // Part files and the `created` list
  // ---------------------------------------------------------------------

  /** One part file as the script writes it: its name and its JSON object. */
  datatype PartFile<T> = PartFile(
    fileName: string,
    topic: string,
    topicId: string,
    description: string,
    questions: seq<T>)

  /** One entry of `created`: the file name and the number of questions. */
  datatype Created = Created(name: string, count: nat)

  function PartFileName(idx: nat): string {
    "flashcards-2-part-" + NatToString(idx) + ".json"
  }

  /** The file for part `idx` (counted from 1) holding `chunk`. */
  function PartFileOf<T>(idx: nat, chunk: seq<T>): PartFile<T> {
    PartFile(
      PartFileName(idx),
      "Flashcards - Policy Provisions & Health/Group (Set 2 - Part " + NatToString(idx) + ")",
      "flashcards-advanced-2-part-" + NatToString(idx),
      "Part " + NatToString(idx) + " of Flashcards Set 2 (Policy provisions, group & health insurance basics)",
      chunk)
  }

  /** The files written for `chunks`, part `k+1` holding chunk `k`. */
  function PartFiles<T>(chunks: seq<seq<T>>): (r: seq<PartFile<T>>)
    ensures |r| == |chunks|
  {
    seq(|chunks|, k requires 0 <= k < |chunks| => PartFileOf(k + 1, chunks[k]))
  }

  /** The `created` list for `chunks`: name and size of each part. */
  function CreatedOf<T>(chunks: seq<seq<T>>): (r: seq<Created>)
    ensures |r| == |chunks|
    ensures forall k :: 0 <= k < |r| ==> r[k].name == PartFileName(k + 1) && r[k].count == |chunks[k]|
  {
    seq(|chunks|, k requires 0 <= k < |chunks| => Created(PartFileName(k + 1), |chunks[k]|))
  }

  /** Different part numbers give different file names, so no part file
      overwrites another. */
  lemma PartFileNamesDistinct(i: nat, j: nat)
    ensures PartFileName(i) == PartFileName(j) ==> i == j
  {
    if PartFileName(i) == PartFileName(j) {
      var p := "flashcards-2-part-";
      var a, b := NatToString(i), NatToString(j);
      assert PartFileName(i) == p + a + ".json" && PartFileName(j) == p + b + ".json";
      assert a == PartFileName(i)[|p|..|p| + |a|];
      assert b == PartFileName(j)[|p|..|p| + |b|];
    }
  }

  /** The `enumerate(chunks, start=1)` loop: part `k+1` is written from
      chunk `k`, and `created` records its name and size in chunk order. */
  method WriteParts<T>(chunks: seq<seq<T>>) returns (files: seq<PartFile<T>>, created: seq<Created>)
    ensures files == PartFiles(chunks)
    ensures created == CreatedOf(chunks)
  {
    files := [];
    created := [];
    var idx := 0;
    while idx < |chunks|
      invariant 0 <= idx <= |chunks|
      invariant files == PartFiles(chunks)[..idx]
      invariant created == CreatedOf(chunks)[..idx]
    {
      PrefixStep(PartFiles(chunks), idx);
      PrefixStep(CreatedOf(chunks), idx);
      var out := PartFileOf(idx + 1, chunks[idx]);
      files := files + [out];
      created := created + [Created(PartFileName(idx + 1), |chunks[idx]|)];
      idx := idx + 1;
    }
    assert PartFiles(chunks)[..idx] == PartFiles(chunks);
    assert CreatedOf(chunks)[..idx] == CreatedOf(chunks);
  }

  /** The sum of the counts in `created`. */
  function SumCounts(created: seq<Created>): nat {
    if created == [] then 0 else SumCounts(created[..|created| - 1]) + created[|created| - 1].count
  }

  lemma {:induction false} SumCountsFlatten<T>(created: seq<Created>, chunks: seq<seq<T>>)
    requires |created| == |chunks|
    requires forall k :: 0 <= k < |chunks| ==> created[k].count == |chunks[k]|
    ensures SumCounts(created) == |Flatten(chunks)|
  {
    if created != [] {
      var n := |created|;
      SumCountsFlatten(created[..n - 1], chunks[..n - 1]);
    }
  }

  /** The counts recorded in `created` add up to the number of questions. */
  lemma CreatedCountsSum<T>(qs: seq<T>)
    ensures SumCounts(CreatedOf(Chunks(qs))) == |qs|
  {
    SumCountsFlatten(CreatedOf(Chunks(qs)), Chunks(qs));
    ChunksConcat(qs);
  }

  /** The questions of the written part files, in file order, are exactly
      the questions of the source file. */
  lemma PartFilesCoverQuestions<T>(qs: seq<T>)
    ensures var files := PartFiles(Chunks(qs));
            Flatten(seq(|files|, k requires 0 <= k < |files| => files[k].questions)) == qs
  {
    var files := PartFiles(Chunks(qs));
    assert seq(|files|, k requires 0 <= k < |files| => files[k].questions) == Chunks(qs);
    ChunksConcat(qs);
  }

  // ---------------------------------------------------------------------
  // The topic index rewrite
  // ---------------------------------------------------------------------

  /** A `practiceTests` entry; `id` is `None` when the key is absent. */
  datatype TestEntry = TestEntry(
    id: Option<string>,
    name: string,
    description: string,
    questionCount: int,
    dataFile: string)

  /** A topic of the index; `practiceTests` is `None` when absent. */
  datatype TopicEntry = TopicEntry(id: Option<string>, name: string, practiceTests: Option<seq<TestEntry>>)

  const BasicTopicId: string := "flashcards-basic"
  const OldPartPrefix: string := "flash-2"

  /** `p.get("id", "")`. */
  function IdOrEmpty(e: TestEntry): string {
    if e.id.Some? then e.id.value else ""
  }

  /** The entries the rewrite removes: ids starting with `flash-2`. */
  predicate IsOldPart(e: TestEntry) {
    StartsWith(IdOrEmpty(e), OldPartPrefix)
  }

  /** The filter comprehension over `tests`. */
  function KeepOthers(tests: seq<TestEntry>): (r: seq<TestEntry>)
    ensures |r| <= |tests|
    ensures forall k :: 0 <= k < |r| ==> !IsOldPart(r[k])
  {
    if tests == [] then []
    else if IsOldPart(tests[0]) then KeepOthers(tests[1..])
    else [tests[0]] + KeepOthers(tests[1..])
  }

  /** The filter keeps, in their original order, exactly the entries that
      are not old parts. */
  lemma {:induction false} KeepOthersFilters(tests: seq<TestEntry>)
    ensures IsSubsequence(KeepOthers(tests), tests)
    ensures forall e :: e in KeepOthers(tests) <==> e in tests && !IsOldPart(e)
  {
    if tests != [] {
      KeepOthersFilters(tests[1..]);
      var rest := KeepOthers(tests[1..]);
      if !IsOldPart(tests[0]) {
        assert ([tests[0]] + rest)[0] == tests[0];
        assert ([tests[0]] + rest)[1..] == rest;
      }
      assert forall e :: e in tests <==> e == tests[0] || e in tests[1..];
    }
  }

  /** Filtering distributes over concatenation, so `KeepOthers` keeps
      exactly the entries it should, in their original order. */
  lemma {:induction false} KeepOthersAppend(a: seq<TestEntry>, b: seq<TestEntry>)
    ensures KeepOthers(a + b) == KeepOthers(a) + KeepOthers(b)
  {
    if a == [] {
      assert a + b == b;
    } else {
      assert (a + b)[0] == a[0];
      assert (a + b)[1..] == a[1..] + b;
      KeepOthersAppend(a[1..], b);
    }
  }

  /** A list with no `flash-2` entry is left as it is. */
  lemma {:induction false} KeepOthersOfKept(tests: seq<TestEntry>)
    requires forall e :: e in tests ==> !IsOldPart(e)
    ensures KeepOthers(tests) == tests
  {
    if tests != [] {
      assert tests[0] in tests;
      assert forall e :: e in tests[1..] ==> e in tests;
      KeepOthersOfKept(tests[1..]);
    }
  }

  /** The id of the entry for part `idx`; it starts with `flash-2`, so a
      later run of the script removes it again. */
  function PartId(idx: nat): (id: string)
    ensures StartsWith(id, OldPartPrefix)
  {
    var id := "flash-2-part-" + NatToString(idx);
    assert id[..|OldPartPrefix|] == OldPartPrefix;
    id
  }

  /** Different part numbers give different test ids. */
  lemma PartIdsDistinct(i: nat, j: nat)
    ensures PartId(i) == PartId(j) ==> i == j
  {
    if PartId(i) == PartId(j) {
      var p := "flash-2-part-";
      assert PartId(i) == p + NatToString(i) && PartId(j) == p + NatToString(j);
      assert NatToString(i) == PartId(i)[|p|..];
      assert NatToString(j) == PartId(j)[|p|..];
    }
  }

  /** The entry appended for part `idx` with `count` questions. */
  function PartEntry(idx: nat, count: nat): (e: TestEntry)
    ensures IsOldPart(e)
  {
    TestEntry(
      Some(PartId(idx)),
      "Flashcards Set 2 - Part " + NatToString(idx),
      "Part " + NatToString(idx) + " \U{2014} Policy provisions, group & health insurance basics",
      count,
      "data/flashcards/flashcards-2-part-" + NatToString(idx) + ".json")
  }

  /** The entries appended for `created`: one per item, in order, numbered
      from 1, each carrying its item's count and an id that marks it as a
      `flash-2` entry. */
  function PartEntries(created: seq<Created>): (r: seq<TestEntry>)
    ensures |r| == |created|
    ensures forall k :: 0 <= k < |r| ==>
              && r[k].id == Some(PartId(k + 1)) && IsOldPart(r[k])
              && r[k].questionCount == created[k].count
  {
    seq(|created|, k requires 0 <= k < |created| => PartEntry(k + 1, created[k].count))
  }

  lemma {:induction false} KeepOthersOfParts(parts: seq<TestEntry>)
    requires forall k :: 0 <= k < |parts| ==> IsOldPart(parts[k])
    ensures KeepOthers(parts) == []
  {
    if parts != [] {
      KeepOthersOfParts(parts[1..]);
    }
  }

  /** The new `practiceTests` of the rewritten topic. */
  function NewTests(tests: seq<TestEntry>, created: seq<Created>): (r: seq<TestEntry>)
    ensures |r| == |KeepOthers(tests)| + |created|
    ensures forall k :: 0 <= k < |KeepOthers(tests)| ==> !IsOldPart(r[k])
    ensures r[|KeepOthers(tests)|..] == PartEntries(created)
  {
    KeepOthers(tests) + PartEntries(created)
  }

  /** The new list starts with the kept entries: in their original order,
      and every entry that is not an old part is among them. */
  lemma NewTestsKeep(tests: seq<TestEntry>, created: seq<Created>)
    ensures var r := NewTests(tests, created);
            var n := |KeepOthers(tests)|;
            && n <= |r|
            && IsSubsequence(r[..n], tests)
            && (forall e :: e in r[..n] <==> e in tests && !IsOldPart(e))
  {
    var r := NewTests(tests, created);
    assert r[..|KeepOthers(tests)|] == KeepOthers(tests);
    KeepOthersFilters(tests);
  }

  /** Running the rewrite again with the same parts changes nothing. */
  lemma NewTestsIdempotent(tests: seq<TestEntry>, created: seq<Created>)
    ensures NewTests(NewTests(tests, created), created) == NewTests(tests, created)
  {
    var kept := KeepOthers(tests);
    var parts := PartEntries(created);
    var r := NewTests(tests, created);
    assert r == kept + parts;
    KeepOthersAppend(kept, parts);
    KeepOthersFilters(tests);
    KeepOthersOfKept(kept);
    KeepOthersOfParts(parts);
    assert KeepOthers(r) == kept;
  }

  /** `t.get("practiceTests", [])`. */
  function TestsOf(t: TopicEntry): seq<TestEntry> {
    if t.practiceTests.Some? then t.practiceTests.value else []
  }

  /** `t.get("id") == "flashcards-basic"`. */
  predicate IsBasic(t: TopicEntry) {
    t.id == Some(BasicTopicId)
  }

  /** Where the `for t in topics` loop breaks: the first topic whose id is
      `flashcards-basic`, or -1. */
  function BasicIndex(topics: seq<TopicEntry>): (k: int)
    ensures -1 <= k < |topics|
    ensures k == -1 <==> forall m :: 0 <= m < |topics| ==> topics[m].id != Some(BasicTopicId)
    ensures 0 <= k ==> topics[k].id == Some(BasicTopicId)
                       && forall m :: 0 <= m < k ==> topics[m].id != Some(BasicTopicId)
  {
    FirstIndex(topics, IsBasic)
  }

  /** The topic list after the rewrite. */
  function Rewritten(topics: seq<TopicEntry>, created: seq<Created>): (r: seq<TopicEntry>)
    ensures |r| == |topics|
    ensures forall m :: 0 <= m < |r| ==> r[m].id == topics[m].id && r[m].name == topics[m].name
  {
    var k := BasicIndex(topics);
    if k == -1 then topics
    else topics[k := topics[k].(practiceTests := Some(NewTests(TestsOf(topics[k]), created)))]
  }

  /** Only the first `flashcards-basic` topic changes, and in it only
      `practiceTests`; without such a topic the list is unchanged. */
  lemma RewrittenChangesOneTopic(topics: seq<TopicEntry>, created: seq<Created>)
    ensures var r := Rewritten(topics, created);
            && |r| == |topics|
            && (forall m :: 0 <= m < |topics| && m != BasicIndex(topics) ==> r[m] == topics[m])
            && (BasicIndex(topics) == -1 ==> r == topics)
            && (BasicIndex(topics) >= 0 ==>
                  var k := BasicIndex(topics);
                  && r[k].id == topics[k].id && r[k].name == topics[k].name
                  && r[k].practiceTests == Some(NewTests(TestsOf(topics[k]), created)))
  {
  }

  /** Rewriting the rewritten index with the same parts changes nothing. */
  lemma RewrittenIdempotent(topics: seq<TopicEntry>, created: seq<Created>)
    ensures Rewritten(Rewritten(topics, created), created) == Rewritten(topics, created)
  {
    var k := BasicIndex(topics);
    if k >= 0 {
      var tests := NewTests(TestsOf(topics[k]), created);
      var r := Rewritten(topics, created);
      assert r == topics[k := topics[k].(practiceTests := Some(tests))];
      assert forall m :: 0 <= m < |r| ==> r[m].id == topics[m].id;
      assert BasicIndex(r) == k;
      assert TestsOf(r[k]) == tests;
      NewTestsIdempotent(TestsOf(topics[k]), created);
      assert r[k].(practiceTests := Some(NewTests(tests, created))) == r[k];
      assert Rewritten(r, created) == r[k := r[k]];
      assert r[k := r[k]] == r;
    }
  }

  /** The `tests` list of the loop body: filtered, then grown by one entry
      per part with `append`. */
  method ExtendTests(tests: seq<TestEntry>, created: seq<Created>) returns (r: seq<TestEntry>)
    ensures r == NewTests(tests, created)
  {
    var kept := KeepOthers(tests);
    r := kept;
    var idx := 0;
    while idx < |created|
      invariant 0 <= idx <= |created|
      invariant r == kept + PartEntries(created)[..idx]
    {
      PrefixStep(PartEntries(created), idx);
      r := r + [PartEntry(idx + 1, created[idx].count)];
      idx := idx + 1;
    }
    assert PartEntries(created)[..idx] == PartEntries(created);
  }

  /** The `for t in topics` loop with its `break`: the first
      `flashcards-basic` topic gets the new `practiceTests`. */
  method RewriteTopics(topics: seq<TopicEntry>, created: seq<Created>) returns (result: seq<TopicEntry>)
    ensures result == Rewritten(topics, created)
  {
    result := topics;
    var i := 0;
    while i < |result|
      invariant 0 <= i <= |topics| && result == topics
      invariant forall m :: 0 <= m < i ==> topics[m].id != Some(BasicTopicId)
    {
      if result[i].id == Some(BasicTopicId) {
        var tests := ExtendTests(TestsOf(result[i]), created);
        result := result[i := result[i].(practiceTests := Some(tests))];
        break;
      }
      i := i + 1;
    }
  }

  /** The topic index document; `topics` is `None` when the key is absent,
      in which case the script writes the document back unchanged. */
  datatype TopicsDoc = TopicsDoc(topics: Option<seq<TopicEntry>>)

  /** The whole script on the parsed question file (`None` when it has no
      `questions` key) and the parsed topic index: the part files it writes,
      the `created` list and the index it writes back. */
  method Split<T>(questions: Option<seq<T>>, index: TopicsDoc)
      returns (files: seq<PartFile<T>>, created: seq<Created>, newIndex: TopicsDoc)
    ensures var qs := if questions.Some? then questions.value else [];
            && files == PartFiles(Chunks(qs))
            && created == CreatedOf(Chunks(qs))
            && SumCounts(created) == |qs|
    ensures index.topics.None? ==> newIndex == index
    ensures index.topics.Some? ==> newIndex == TopicsDoc(Some(Rewritten(index.topics.value, created)))
  {
    var qs := if questions.Some? then questions.value else [];
    var chunks := Chunks(qs);
    files, created := WriteParts(chunks);
    CreatedCountsSum(qs);
    if index.topics.None? {
      newIndex := index;
    } else {
      var topics := RewriteTopics(index.topics.value, created);
      newIndex := TopicsDoc(Some(topics));
    }
  }
}
