/** Generic sequence helpers: order-preserving selection, shared by the
    bookmark filter of the session and the `practiceTests` filter of the
    flashcard split; the first-match search behind every `find` and the
    `for … break` loop; and the prefix step that loops building a list with
    `push`/`append` rely on. */
module Sequences {
  /** `s` occurs in `t` in order, possibly with gaps. */
  predicate IsSubsequence<T(==)>(s: seq<T>, t: seq<T>) {
    if s == [] then true
    else if t == [] then false
    else if s[0] == t[0] then IsSubsequence(s[1..], t[1..])
    else IsSubsequence(s, t[1..])
  }

  /** The position of the first element of `s` satisfying `p`, or -1 when
      there is none: where `Array.prototype.find` and a `for` loop with
      `break` stop. */
  function FirstIndex<T>(s: seq<T>, p: T -> bool): (k: int)
    ensures -1 <= k < |s|
    ensures k == -1 <==> forall m :: 0 <= m < |s| ==> !p(s[m])
    ensures 0 <= k ==> p(s[k]) && forall m :: 0 <= m < k ==> !p(s[m])
  {
    if s == [] then -1
    else if p(s[0]) then 0
    else
      var k := FirstIndex(s[1..], p);
      if k == -1 then -1 else k + 1
  }

  /** Growing a prefix by one element. */
  lemma PrefixStep<T>(s: seq<T>, k: nat)
    requires k < |s|
    ensures s[..k + 1] == s[..k] + [s[k]]
  {
  }
}
