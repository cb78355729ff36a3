/** Optional values, the first-match search, and small facts about reals,
    shared by every part of the model. */
module Basics {

  /** `None` stands for what the calculator writes as `null` or `undefined`: a missing
      chart cell, an unknown model, an input that did not parse as a number. */
  datatype Option<+T> = None | Some(value: T)

  /** The first index whose element satisfies `p`, or -1 when there is none
      (the behaviour of `Array.prototype.findIndex` and of a search loop that
      stops at the first hit). */
  function FindIndex<T>(s: seq<T>, p: T -> bool): (k: int)
    ensures -1 <= k < |s|
    ensures k == -1 <==> forall i :: 0 <= i < |s| ==> !p(s[i])
    ensures 0 <= k ==> p(s[k]) && forall i :: 0 <= i < k ==> !p(s[i])
  {
    if |s| == 0 then -1
    else if p(s[0]) then 0
    else
      var k := FindIndex(s[1..], p);
      assert forall i :: 1 <= i < |s| ==> s[i] == s[1..][i - 1];
      if k == -1 then -1 else k + 1
  }

  function Min(a: real, b: real): real { if a <= b then a else b }

  function Max(a: real, b: real): real { if a <= b then b else a }

  lemma ProductNonNegative(x: real, y: real)
    requires x >= 0.0 && y >= 0.0
    ensures x * y >= 0.0
  {
  }

  lemma QuotientNonNegative(x: real, w: real)
    requires x >= 0.0 && w > 0.0
    ensures x / w >= 0.0
  {
  }
}
