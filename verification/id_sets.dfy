/** JavaScript `Set`s of question ids. A `Set` iterates in insertion order
    and `Array.from` lists it in that order, so a set is modelled as a
    sequence without duplicates, and the array a set is saved as is that
    same sequence. */
module IdSets {
  import opened Sequences

  /** A question's `id` field. */
  type QuestionId = string

  /** No element occurs twice. */
  predicate NoDup(s: seq<QuestionId>) {
    forall i, j :: 0 <= i < j < |s| ==> s[i] != s[j]
  }

  /** `set.add(x)`: appends `x` unless it is already present. */
  function Add(s: seq<QuestionId>, x: QuestionId): (r: seq<QuestionId>)
    ensures forall y :: y in r <==> y in s || y == x
    ensures NoDup(s) ==> NoDup(r)
    ensures x in s ==> r == s
    ensures x !in s ==> |r| == |s| + 1 && r[..|s|] == s
  {
    if x in s then s else s + [x]
  }

  /** `set.delete(x)`: removes `x`, keeping the order of the rest. */
  function Delete(s: seq<QuestionId>, x: QuestionId): (r: seq<QuestionId>)
    ensures forall y :: y in r <==> y in s && y != x
    ensures IsSubsequence(r, s)
    ensures NoDup(s) ==> NoDup(r)
    ensures |r| <= |s|
    ensures x !in s ==> r == s
  {
    if s == [] then []
    else if s[0] == x then
      var r := Delete(s[1..], x);
      assert r == [] || r[0] != s[0];
      r
    else
      var rest := Delete(s[1..], x);
      assert NoDup(s) ==> NoDup(s[1..]) && s[0] !in rest;
      assert ([s[0]] + rest)[1..] == rest;
      [s[0]] + rest
  }

  /** `new Set(array)`: keeps the first occurrence of every element, in
      order. */
  function FromArray(s: seq<QuestionId>): (r: seq<QuestionId>)
    ensures forall y :: y in r <==> y in s
    ensures NoDup(r)
    ensures |r| <= |s|
  {
    if s == [] then []
    else
      var rest := FromArray(s[..|s| - 1]);
      var last := s[|s| - 1];
      assert forall y :: y in s <==> y in s[..|s| - 1] || y == last;
      if last in rest then rest else rest + [last]
  }

  /** Building a set from an array that has no duplicates gives the array
      back: a set survives `Array.from` followed by `new Set`. */
  lemma {:induction false} FromArrayOfNoDup(s: seq<QuestionId>)
    requires NoDup(s)
    ensures FromArray(s) == s
  {
    if s != [] {
      var init := s[..|s| - 1];
      assert NoDup(init);
      FromArrayOfNoDup(init);
      assert s[|s| - 1] !in init;
      assert init + [s[|s| - 1]] == s;
    }
  }
}
