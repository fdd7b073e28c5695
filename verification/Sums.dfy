/**
 Adding up what each member of a group has left to do.
 */
module Sums {

  function Minus(a: nat, b: nat): nat { if a >= b then a - b else 0 }

  function Sum(f: seq<nat>): nat {
    if f == [] then 0 else Sum(f[..|f| - 1]) + f[|f| - 1]
  }

  /** When one member moves, the sum moves with it. */
  lemma {:induction false} SumUpdate(f: seq<nat>, i: nat, v: nat)
    requires i < |f|
    ensures Sum(f[i := v]) == Sum(f) - f[i] + v
    decreases |f|
  {
    var n := |f| - 1;
    assert f[i := v][..n] == if i < n then f[..n][i := v] else f[..n];
    if i < n { SumUpdate(f[..n], i, v); }
  }
}
