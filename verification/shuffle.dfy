/** The randomisation `loadQuestions` applies to a freshly fetched question
    file (js/app.js:21-28, 270-312): a Fisher–Yates shuffle of the question
    order, then, for every question, label stripping, a shuffle of the
    option positions, relabelling and the remapped `correctAnswer`.

    The only use of `Math.random` is `Math.floor(Math.random() * (i + 1))`,
    a position in [0, i]. It is an oracle here: the k-th such expression
    evaluated while loading, with bound i, yields `rand(k, i)`. Every
    property below holds for every oracle whose answers stay in range, and
    so in particular for every sequence of `Math.random` values. */
module Shuffle {
  import opened Text
  import opened IdSets
  import opened Sequences

  /** `rand(k, i)`: the value of the k-th `Math.floor(Math.random() * (i + 1))`. */
  type RandomSource = (nat, nat) -> nat

  /** What `Math.random() < 1` guarantees of the floor: it lies in [0, i]. */
  ghost predicate InRange(rand: RandomSource) {
    forall k: nat, i: nat :: rand(k, i) <= i
  }

  /** The swap partner drawn for loop index `i` by the draw numbered `c`. */
  function Pick(rand: RandomSource, c: nat, i: nat): (j: nat)
    requires InRange(rand)
    ensures j <= i
  {
    rand(c, i)
  }

  /** `[a[i], a[j]] = [a[j], a[i]]` on a value. */
  function Swap<T>(s: seq<T>, i: nat, j: nat): (r: seq<T>)
    requires i < |s| && j < |s|
    ensures |r| == |s| && r[i] == s[j] && r[j] == s[i]
  {
    s[i := s[j]][j := s[i]]
  }

  /** The remaining iterations of the shuffle loop, entered with loop index
      `i` and the next random draw `c`. */
  function ShuffleFrom<T>(s: seq<T>, i: nat, rand: RandomSource, c: nat): (r: seq<T>)
    requires InRange(rand) && i < |s|
    ensures |r| == |s|
    decreases i
  {
    if i == 0 then s
    else ShuffleFrom(Swap(s, i, Pick(rand, c, i)), i - 1, rand, c + 1)
  }

  /** What `shuffleArray` returns for `s` when its first draw is the one numbered `c`. */
  function Shuffled<T>(s: seq<T>, rand: RandomSource, c: nat): (r: seq<T>)
    requires InRange(rand)
    ensures |r| == |s|
  {
    if |s| == 0 then s else ShuffleFrom(s, |s| - 1, rand, c)
  }

  /** A swap keeps every element with its multiplicity. */
  lemma SwapPermutes<T>(s: seq<T>, i: nat, j: nat)
    requires i < |s| && j < |s|
    ensures multiset(Swap(s, i, j)) == multiset(s)
  {
  }

  lemma {:induction false} ShuffleFromPermutes<T>(s: seq<T>, i: nat, rand: RandomSource, c: nat)
    requires InRange(rand) && i < |s|
    ensures multiset(ShuffleFrom(s, i, rand, c)) == multiset(s)
    decreases i
  {
    if i > 0 {
      var j := Pick(rand, c, i);
      SwapPermutes(s, i, j);
      ShuffleFromPermutes(Swap(s, i, j), i - 1, rand, c + 1);
    }
  }

  /** Whatever the draws, `shuffleArray` returns a permutation of its
      input. */
  lemma ShuffledPermutes<T>(s: seq<T>, rand: RandomSource, c: nat)
    requires InRange(rand)
    ensures multiset(Shuffled(s, rand, c)) == multiset(s)
  {
    if |s| > 0 {
      ShuffleFromPermutes(s, |s| - 1, rand, c);
    }
  }

  /** How many times `shuffleArray` calls `Math.random` on `n` elements. */
  function Draws(n: nat): nat {
    if n == 0 then 0 else n - 1
  }

  /** `shuffleArray`: copies its input into a fresh array and runs
      Fisher–Yates on the copy, from the last position down to position 1.
      The input is a value, so it is left as it was; the result is a
      permutation of it. */
  method ShuffleArray<T>(input: seq<T>, rand: RandomSource, c: nat) returns (shuffled: seq<T>)
    requires InRange(rand)
    ensures shuffled == Shuffled(input, rand, c)
    ensures |shuffled| == |input| && multiset(shuffled) == multiset(input)
  {
    var a := new T[|input|](k requires 0 <= k < |input| => input[k]);
    var i := a.Length - 1;
    var draw := c;
    ghost var target := Shuffled(input, rand, c);
    assert a[..] == input;
    while i > 0
      invariant a.Length == |input|
      invariant -1 <= i < a.Length
      invariant i == -1 ==> a.Length == 0
      invariant draw == c + (a.Length - 1 - i)
      invariant 0 <= i ==> ShuffleFrom(a[..], i, rand, draw) == target
    {
      var j := Pick(rand, draw, i);
      ghost var before := a[..];
      a[i], a[j] := a[j], a[i];
      assert a[..] == before[i := before[j]][j := before[i]];
      i := i - 1;
      draw := draw + 1;
    }
    shuffled := a[..];
    ShuffledPermutes(input, rand, c);
  }

  /** `s.map(f)`. */
  function Map<A, B>(s: seq<A>, f: A -> B): (r: seq<B>)
    ensures |r| == |s| && forall k :: 0 <= k < |s| ==> r[k] == f(s[k])
  {
    seq(|s|, k requires 0 <= k < |s| => f(s[k]))
  }

  /** Fisher–Yates moves elements by position only, so shuffling the images
      of a sequence is the image of the shuffled sequence. */
  lemma {:induction false} ShuffleFromMap<A, B>(s: seq<A>, f: A -> B, i: nat, rand: RandomSource, c: nat)
    requires InRange(rand) && i < |s|
    ensures ShuffleFrom(Map(s, f), i, rand, c) == Map(ShuffleFrom(s, i, rand, c), f)
    decreases i
  {
    if i > 0 {
      var j := Pick(rand, c, i);
      assert Swap(Map(s, f), i, j) == Map(Swap(s, i, j), f);
      ShuffleFromMap(Swap(s, i, j), f, i - 1, rand, c + 1);
    }
  }

  lemma ShuffledMap<A, B>(s: seq<A>, f: A -> B, rand: RandomSource, c: nat)
    requires InRange(rand)
    ensures Shuffled(Map(s, f), rand, c) == Map(Shuffled(s, rand, c), f)
  {
    if |s| > 0 {
      ShuffleFromMap(s, f, |s| - 1, rand, c);
    }
  }

  /** `[0, 1, ..., n-1]`, the `indices` array of js/app.js:288. */
  function Range(n: nat): (r: seq<nat>)
    ensures |r| == n && forall k :: 0 <= k < n ==> r[k] == k
  {
    seq(n, k requires 0 <= k < n => k)
  }

  /** A question record as the question file holds it; `question` is its
      text. Fields the session never reads are not modelled. */
  datatype Question = Question(
    id: QuestionId,
    question: string,
    options: seq<string>,
    correctAnswer: int,
    explanation: string)

  /** Whether `opt` opens with the pattern `^[A-D]\.`. */
  predicate HasLabel(opt: string) {
    |opt| >= 2 && 'A' <= opt[0] <= 'D' && opt[1] == '.'
  }

  /** `opt.replace(/^[A-D]\.\s*\/, '').trim()`. */
  function StripLabel(opt: string): (r: string)
    ensures !HasLabel(opt) ==> r == Trim(opt)
    ensures HasLabel(opt) ==> r == Trim(opt[2..])
    ensures |r| <= |opt|
  {
    Trim(if HasLabel(opt) then TrimStart(opt[2..]) else opt)
  }

  /** `['A', 'B', 'C', 'D'][k]` inside a template literal: positions past the
      fourth read `undefined`. */
  function Letter(k: nat): string {
    if k < 4 then ["ABCD"[k]] else "undefined"
  }

  /** The option text shown at position `k`: its letter, ". ", the body. */
  function Labelled(k: nat, body: string): string {
    Letter(k) + ". " + body
  }

  /** The body of an option written by `Labelled(k, _)`. */
  function BodyAt(opt: string, k: nat): string {
    if |Letter(k)| + 2 <= |opt| then opt[|Letter(k)| + 2..] else opt
  }

  /** `indices.indexOf(x)`: the first position holding `x`, or -1. */
  function IndexOf(s: seq<nat>, x: int): (r: int)
    ensures -1 <= r < |s|
    ensures r == -1 <==> x !in s
    ensures 0 <= r ==> s[r] == x && forall k :: 0 <= k < r ==> s[k] != x
  {
    if s == [] then -1
    else if s[0] == x then 0
    else
      var r := IndexOf(s[1..], x);
      if r == -1 then -1 else r + 1
  }

  /** `perm` lists each of 0 .. n-1 exactly once. */
  predicate IsIndexPermutation(perm: seq<nat>, n: nat) {
    && |perm| == n
    && (forall k :: 0 <= k < n ==> perm[k] < n)
    && (forall x :: 0 <= x < n ==> x in perm)
  }

  /** The callback of the `.map` at js/app.js:279-305 for one question whose
      shuffled option indices are `perm`. */
  function Remap(q: Question, perm: seq<nat>): (r: Question)
    requires IsIndexPermutation(perm, |q.options|)
    ensures r == q.(options := r.options, correctAnswer := r.correctAnswer)
    ensures |r.options| == |q.options|
  {
    var stripped := Map(q.options, StripLabel);
    q.(options := seq(|perm|, k requires 0 <= k < |perm| => Labelled(k, stripped[perm[k]])),
       correctAnswer := IndexOf(perm, q.correctAnswer))
  }

  /** The bodies of a relabelled option list. */
  function Bodies(options: seq<string>): (r: seq<string>)
    ensures |r| == |options|
  {
    seq(|options|, k requires 0 <= k < |options| => BodyAt(options[k], k))
  }

  /** `r` is a faithful remap of `q`: every field but the options and the
      answer index is carried over; option k is labelled with the letter of
      k; the bodies are the stripped originals in some order; the new
      `correctAnswer` points at the originally correct body, or is -1 when
      the original index named no option. */
  ghost predicate RemapOf(r: Question, q: Question) {
    var n := |q.options|;
    var stripped := Map(q.options, StripLabel);
    && r == q.(options := r.options, correctAnswer := r.correctAnswer)
    && |r.options| == n
    && (forall k :: 0 <= k < n ==> r.options[k] == Labelled(k, Bodies(r.options)[k]))
    && multiset(Bodies(r.options)) == multiset(stripped)
    && (0 <= q.correctAnswer < n ==>
          && 0 <= r.correctAnswer < n
          && Bodies(r.options)[r.correctAnswer] == stripped[q.correctAnswer]
          && r.options[r.correctAnswer] == Labelled(r.correctAnswer, stripped[q.correctAnswer]))
    && (!(0 <= q.correctAnswer < n) ==> r.correctAnswer == -1)
  }

  lemma RangeHas(n: nat, x: int)
    ensures x in Range(n) <==> 0 <= x < n
  {
    if 0 <= x < n {
      assert Range(n)[x] == x;
    }
  }

  /** The shuffled `indices` array holds each of 0 .. n-1 exactly once. */
  lemma ShuffledIndices(n: nat, rand: RandomSource, c: nat)
    requires InRange(rand)
    ensures IsIndexPermutation(Shuffled<nat>(Range(n), rand, c), n)
  {
    var perm := Shuffled<nat>(Range(n), rand, c);
    ShuffledPermutes(Range(n), rand, c);
    forall x: int ensures x in perm <==> 0 <= x < n {
      assert x in perm <==> x in multiset(perm);
      assert x in Range(n) <==> x in multiset(Range(n));
      RangeHas(n, x);
    }
    assert forall k :: 0 <= k < n ==> perm[k] in perm;
  }

  lemma BodyOfLabelled(k: nat, body: string)
    ensures BodyAt(Labelled(k, body), k) == body
  {
    var l := Letter(k) + ". ";
    assert Labelled(k, body) == l + body;
    assert (l + body)[|l|..] == body;
  }

  /** Option k of a remapped question is labelled with letter k and carries
      the stripped original option `perm[k]`. */
  lemma RemapLayout(q: Question, perm: seq<nat>)
    requires IsIndexPermutation(perm, |q.options|)
    ensures var r := Remap(q, perm);
            forall k :: 0 <= k < |perm| ==>
              && Bodies(r.options)[k] == StripLabel(q.options[perm[k]])
              && r.options[k] == Labelled(k, Bodies(r.options)[k])
  {
    var r := Remap(q, perm);
    forall k | 0 <= k < |perm|
      ensures Bodies(r.options)[k] == StripLabel(q.options[perm[k]])
      ensures r.options[k] == Labelled(k, Bodies(r.options)[k])
    {
      BodyOfLabelled(k, StripLabel(q.options[perm[k]]));
    }
  }

  /** For every permutation of the option positions, the new
      `correctAnswer` is the position the originally correct option moved
      to (`perm[correctAnswer]` is the old index) and the option shown there
      is that option, relabelled; an index that named no option becomes -1. */
  lemma RemapCorrect(q: Question, perm: seq<nat>)
    requires IsIndexPermutation(perm, |q.options|)
    ensures var r := Remap(q, perm);
            var n := |q.options|;
            && (0 <= q.correctAnswer < n ==>
                  && 0 <= r.correctAnswer < n
                  && perm[r.correctAnswer] == q.correctAnswer
                  && Bodies(r.options)[r.correctAnswer] == StripLabel(q.options[q.correctAnswer])
                  && r.options[r.correctAnswer] == Labelled(r.correctAnswer, StripLabel(q.options[q.correctAnswer])))
            && (!(0 <= q.correctAnswer < n) ==> r.correctAnswer == -1)
  {
    RemapLayout(q, perm);
    if !(0 <= q.correctAnswer < |q.options|) {
      assert q.correctAnswer !in perm;
    }
  }

  /** Reading position x of `s`, as a function of x. */
  function Indexer(s: seq<string>): nat -> string {
    (x: nat) => if x < |s| then s[x] else ""
  }

  lemma MapIndexerRange(s: seq<string>)
    ensures Map(Range(|s|), Indexer(s)) == s
  {
  }

  lemma BodiesAsMap(q: Question, perm: seq<nat>)
    requires IsIndexPermutation(perm, |q.options|)
    ensures Bodies(Remap(q, perm).options) == Map(perm, Indexer(Map(q.options, StripLabel)))
  {
    RemapLayout(q, perm);
  }

  /** With the shuffled indices, the option bodies come out as the
      Fisher–Yates shuffle of the stripped options under the same draws,
      hence a permutation of them. */
  lemma RemapBodies(q: Question, rand: RandomSource, c: nat)
    requires InRange(rand)
    ensures var perm := Shuffled<nat>(Range(|q.options|), rand, c);
            && IsIndexPermutation(perm, |q.options|)
            && var bodies := Bodies(Remap(q, perm).options);
            && bodies == Shuffled(Map(q.options, StripLabel), rand, c)
            && multiset(bodies) == multiset(Map(q.options, StripLabel))
  {
    var n := |q.options|;
    var stripped := Map(q.options, StripLabel);
    ShuffledIndices(n, rand, c);
    BodiesAsMap(q, Shuffled<nat>(Range(n), rand, c));
    MapIndexerRange(stripped);
    ShuffledMap(Range(n), Indexer(stripped), rand, c);
    ShuffledPermutes(stripped, rand, c);
  }

  /** Each question `loadQuestions` produces is a faithful remap of the
      question it came from. */
  lemma RemapShuffled(q: Question, rand: RandomSource, c: nat)
    requires InRange(rand)
    ensures var perm := Shuffled<nat>(Range(|q.options|), rand, c);
            && IsIndexPermutation(perm, |q.options|)
            && RemapOf(Remap(q, perm), q)
  {
    var perm := Shuffled<nat>(Range(|q.options|), rand, c);
    RemapBodies(q, rand, c);
    RemapCorrect(q, perm);
    RemapLayout(q, perm);
  }

  /** The number of the first draw used for `order[k]`'s options when the
      first question's options start at draw `c`. */
  function Cursor(order: seq<Question>, c: nat, k: nat): nat
    requires k <= |order|
  {
    if k == 0 then c else Cursor(order, c, k - 1) + Draws(|order[k - 1].options|)
  }

  /** One question's remap with its option indices shuffled from draw `c`. */
  function RemapFrom(q: Question, rand: RandomSource, c: nat): Question
    requires InRange(rand)
  {
    ShuffledIndices(|q.options|, rand, c);
    Remap(q, Shuffled<nat>(Range(|q.options|), rand, c))
  }

  /** The `.map` over the shuffled questions, the option draws of each
      question following those of the one before. */
  function RemapEach(order: seq<Question>, rand: RandomSource, c: nat): (r: seq<Question>)
    requires InRange(rand)
    ensures |r| == |order|
  {
    seq(|order|, k requires 0 <= k < |order| => RemapFrom(order[k], rand, Cursor(order, c, k)))
  }

  /** What `loadQuestions` stores for a fetched question list: the question
      order is drawn first, then the option orders. */
  function Loaded(raw: seq<Question>, rand: RandomSource): (r: seq<Question>)
    requires InRange(rand)
    ensures |r| == |raw|
  {
    RemapEach(Shuffled(raw, rand, 0), rand, Draws(|raw|))
  }

  /** Whatever the draws, the loaded list holds the file's questions in a
      permuted order, each one a faithful remap of the question it came
      from. */
  lemma LoadedFaithful(raw: seq<Question>, rand: RandomSource)
    requires InRange(rand)
    ensures |Loaded(raw, rand)| == |raw|
    ensures multiset(Shuffled(raw, rand, 0)) == multiset(raw)
    ensures forall k :: 0 <= k < |raw| ==> RemapOf(Loaded(raw, rand)[k], Shuffled(raw, rand, 0)[k])
  {
    ShuffledPermutes(raw, rand, 0);
    var order := Shuffled(raw, rand, 0);
    forall k | 0 <= k < |raw| ensures RemapOf(Loaded(raw, rand)[k], order[k]) {
      RemapShuffled(order[k], rand, Cursor(order, Draws(|raw|), k));
    }
  }

  /** The callback of the `.map` in js/app.js:278-304: the options of
      `q` are stripped, their indices shuffled with the draws from `c` on,
      and the question rebuilt around them. */
  method RemapQuestion(q: Question, rand: RandomSource, c: nat) returns (r: Question)
    requires InRange(rand)
    ensures r == RemapFrom(q, rand, c)
  {
    var indices := Range(|q.options|);
    var perm := ShuffleArray(indices, rand, c);
    ShuffledIndices(|q.options|, rand, c);
    r := Remap(q, perm);
  }

  /** The `.map` of js/app.js:278-304 over the shuffled questions, the
      option draws of each question following those of the one before. */
  method RemapAll(order: seq<Question>, rand: RandomSource, c: nat) returns (loaded: seq<Question>)
    requires InRange(rand)
    ensures loaded == RemapEach(order, rand, c)
  {
    var cursor: nat := c;
    loaded := [];
    var k := 0;
    while k < |order|
      invariant 0 <= k <= |order|
      invariant cursor == Cursor(order, c, k)
      invariant loaded == RemapEach(order, rand, c)[..k]
    {
      var q := order[k];
      var remapped := RemapQuestion(q, rand, cursor);
      PrefixStep(RemapEach(order, rand, c), k);
      loaded := loaded + [remapped];
      cursor := cursor + Draws(|q.options|);
      k := k + 1;
    }
    assert RemapEach(order, rand, c)[..k] == RemapEach(order, rand, c);
  }

  /** The randomisation of js/app.js:276-305. The result lists the
      questions in a permutation of their file order, each one a faithful
      remap of the question it came from. */
  method ShuffleQuestions(raw: seq<Question>, rand: RandomSource) returns (loaded: seq<Question>)
    requires InRange(rand)
    ensures loaded == Loaded(raw, rand)
    ensures |loaded| == |raw|
    ensures multiset(Shuffled(raw, rand, 0)) == multiset(raw)
    ensures forall k :: 0 <= k < |raw| ==> RemapOf(loaded[k], Shuffled(raw, rand, 0)[k])
  {
    var order := ShuffleArray(raw, rand, 0);
    loaded := RemapAll(order, rand, Draws(|raw|));
    LoadedFaithful(raw, rand);
  }
}
