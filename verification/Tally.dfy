/** Counting, bucket totals and bounded tails of sequences. */
module Tally {
  function Count<T>(xs: seq<T>, p: T -> bool): nat {
    if |xs| == 0 then 0
    else Count(xs[..|xs| - 1], p) + (if p(xs[|xs| - 1]) then 1 else 0)
  }

  lemma CountAppend<T>(xs: seq<T>, x: T, p: T -> bool)
    ensures Count(xs + [x], p) == Count(xs, p) + (if p(x) then 1 else 0)
  {
    assert (xs + [x])[..|xs|] == xs;
  }

  /** The positions at which the condition holds. */
  function Positions<T>(xs: seq<T>, p: T -> bool): set<nat> {
    set i: nat | 0 <= i < |xs| && p(xs[i])
  }

  /** A count is the number of positions that satisfy the condition. */
  lemma {:induction false} CountExactly<T>(xs: seq<T>, p: T -> bool)
    ensures Count(xs, p) == |Positions(xs, p)|
  {
    if |xs| == 0 {
      assert Positions(xs, p) == {};
    } else {
      var n := |xs| - 1;
      CountExactly(xs[..n], p);
      assert Positions(xs, p) == Positions(xs[..n], p) + (if p(xs[n]) then {n} else {});
    }
  }

  /** A counter is zero exactly when nothing was counted. */
  lemma {:induction false} CountZero<T>(xs: seq<T>, p: T -> bool)
    ensures Count(xs, p) == 0 <==> forall i :: 0 <= i < |xs| ==> !p(xs[i])
  {
    if |xs| > 0 {
      CountZero(xs[..|xs| - 1], p);
      assert forall i :: 0 <= i < |xs| - 1 ==> xs[..|xs| - 1][i] == xs[i];
    }
  }

  /** The last `n` elements, or all of them when there are fewer. */
  function LastN<T>(s: seq<T>, n: nat): seq<T> {
    if |s| <= n then s else s[|s| - n..]
  }

  lemma LastNAppend<T>(s: seq<T>, x: T, n: nat)
    requires n > 0
    ensures LastN(LastN(s, n) + [x], n) == LastN(s + [x], n)
  {
  }
}
