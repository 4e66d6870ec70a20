/** Persisted progress (js/app.js:674-745): one record per practice test in
    `localStorage`, under the key `progress_<topic>_<test>`, holding the
    arrays of viewed, bookmarked and revealed question ids, and the
    completion percentages computed from it. */
module Progress {
  import opened Options
  import opened IdSets

  /** The object `saveProgress` stores. Its `lastUpdated` timestamp is
      written but never read back, so it is not modelled. */
  datatype ProgressRecord = ProgressRecord(
    viewed: seq<QuestionId>,
    bookmarked: seq<QuestionId>,
    revealed: seq<QuestionId>)

  /** The three sets of a session are stored without duplicates. */
  predicate WellFormed(rec: ProgressRecord) {
    NoDup(rec.viewed) && NoDup(rec.bookmarked) && NoDup(rec.revealed)
  }

  /** `progress_${topicId}_${testId}`. */
  function ProgressKey(topicId: string, testId: string): (key: string)
    ensures |key| == 10 + |topicId| + |testId|
    ensures key[..9] == "progress_" && key[9..9 + |topicId|] == topicId
    ensures key[9 + |topicId|] == '_' && key[10 + |topicId|..] == testId
  {
    "progress_" + topicId + "_" + testId
  }

  /** The key is not injective when ids contain underscores: topic `a_b`
      with test `c` and topic `a` with test `b_c` share one record. */
  lemma KeysCanCollide()
    ensures ProgressKey("a_b", "c") == ProgressKey("a", "b_c")
  {
  }

  /** The browser's `localStorage`, restricted to progress records. */
  class LocalStorage {
    var items: map<string, ProgressRecord>

    constructor()
      ensures items == map[]
    {
      items := map[];
    }

    /** `localStorage.getItem(key)`, `None` standing for `null`. */
    function GetItem(key: string): (r: Option<ProgressRecord>)
      reads this
      ensures r.Some? <==> key in items
      ensures r.Some? ==> r.value == items[key]
    {
      if key in items then Some(items[key]) else None
    }

    /** `localStorage.setItem(key, value)`: overwrites, no merge. */
    method SetItem(key: string, value: ProgressRecord)
      modifies this
      ensures items == old(items)[key := value]
    {
      items := items[key := value];
    }

    /** `localStorage.removeItem(key)`. */
    method RemoveItem(key: string)
      modifies this
      ensures items == old(items) - {key}
    {
      items := items - {key};
    }
  }

  /** The three sets `loadProgress` builds from what `getItem` returned:
      `new Set(array)` of each stored array, or three empty sets when
      nothing is stored. */
  function Restore(saved: Option<ProgressRecord>): (sets: ProgressRecord)
    ensures WellFormed(sets)
    ensures saved.None? ==> sets == ProgressRecord([], [], [])
    ensures saved.Some? ==>
              && (forall x :: x in sets.viewed <==> x in saved.value.viewed)
              && (forall x :: x in sets.bookmarked <==> x in saved.value.bookmarked)
              && (forall x :: x in sets.revealed <==> x in saved.value.revealed)
  {
    match saved
    case None => ProgressRecord([], [], [])
    case Some(rec) => ProgressRecord(FromArray(rec.viewed), FromArray(rec.bookmarked), FromArray(rec.revealed))
  }

  /** A second `setItem` on the same key replaces the first. */
  lemma Overwrite(items: map<string, ProgressRecord>, key: string, first: ProgressRecord, second: ProgressRecord)
    ensures items[key := first][key := second] == items[key := second]
  {
  }

  /** Saving three sets and loading them back under the same key gives the
      same sets, in the same order; records under other keys are left as
      they were. */
  lemma SaveThenRestore(items: map<string, ProgressRecord>, key: string, sets: ProgressRecord, other: string)
    requires WellFormed(sets)
    ensures Restore(if key in items[key := sets] then Some(items[key := sets][key]) else None) == sets
    ensures other != key ==> (other in items[key := sets] <==> other in items)
    ensures other != key && other in items ==> items[key := sets][other] == items[other]
  {
    FromArrayOfNoDup(sets.viewed);
    FromArrayOfNoDup(sets.bookmarked);
    FromArrayOfNoDup(sets.revealed);
  }

  /** `Math.round(100 * v / c)` on non-negative integers: JavaScript rounds
      halves up, so this is floor(100 v / c + 1/2) = (200 v + c) div (2 c).
      The result is the integer nearest to 100 v / c, ties going up. */
  function RoundPercent(v: nat, c: nat): (p: nat)
    requires c > 0
    ensures c * (2 * p - 1) <= 200 * v < c * (2 * p + 1)
    ensures v <= c ==> p <= 100
    ensures v == 0 ==> p == 0
    ensures v == c ==> p == 100
  {
    RoundingFacts(v, c);
    (200 * v + c) / (2 * c)
  }

  lemma RoundingFacts(v: nat, c: nat)
    requires c > 0
    ensures var p := (200 * v + c) / (2 * c);
            && c * (2 * p - 1) <= 200 * v < c * (2 * p + 1)
            && (v <= c ==> p <= 100)
            && (v == 0 ==> p == 0)
            && (v == c ==> p == 100)
  {
    var p := (200 * v + c) / (2 * c);
    DivBounds(200 * v + c, 2 * c);
    if v <= c && p > 100 {
      MulMono(p, 101, 2 * c);
    }
    if v == 0 {
      DivUnique(c, 2 * c, 0);
    }
    if v == c {
      DivUnique(200 * v + c, 2 * c, 100);
    }
  }

  lemma DivBounds(x: nat, d: nat)
    requires d > 0
    ensures d * (x / d) <= x < d * (x / d) + d
  {
  }

  lemma MulMono(a: nat, b: nat, d: nat)
    requires a >= b
    ensures a * d >= b * d
  {
  }

  lemma DivUnique(x: nat, d: nat, q: nat)
    requires d > 0 && d * q <= x < d * q + d
    ensures x / d == q
  {
    DivBounds(x, d);
    if x / d < q {
      MulMono(q, x / d + 1, d);
    } else if x / d > q {
      MulMono(x / d, q + 1, d);
    }
  }
}
