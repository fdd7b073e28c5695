/**
 How the nodes agree on the number of micro-blocks of an epoch: the followers send
 the sizes of their schedules to node 0, it sends back the largest, and every node
 pads its schedule with empty micro-blocks.
 */
module ScheduleAlignment {

  function Larger(a: nat, b: nat): nat { if a >= b then a else b }

  function Largest(sizes: seq<nat>): (m: nat)
    ensures forall i :: 0 <= i < |sizes| ==> sizes[i] <= m
    ensures m == 0 || m in sizes
  {
    if sizes == [] then 0 else Larger(Largest(sizes[..|sizes| - 1]), sizes[|sizes| - 1])
  }

  /** The order in which the sizes arrive does not matter. */
  lemma LargestOfSame(a: seq<nat>, b: seq<nat>)
    requires multiset(a) == multiset(b)
    ensures Largest(a) == Largest(b)
  {
    assert forall m :: m in multiset(a) <==> m in a;
    assert forall m :: m in multiset(b) <==> m in b;
    assert Largest(a) == 0 || Largest(a) in multiset(b);
    assert Largest(b) == 0 || Largest(b) in multiset(a);
  }

  /** Node 0: its own size and the n - 1 that arrive. */
  method AlignScheduleSize(localSize: nat, arrived: seq<nat>) returns (maxSize: nat)
    ensures forall sizes :: multiset(sizes) == multiset([localSize] + arrived) ==> maxSize == Largest(sizes)
  {
    maxSize := localSize;
    for i := 0 to |arrived|
      invariant maxSize == Largest([localSize] + arrived[..i])
    {
      assert ([localSize] + arrived[..i + 1])[..i + 1] == [localSize] + arrived[..i];
      maxSize := Larger(maxSize, arrived[i]);
    }
    assert arrived[..|arrived|] == arrived;
    forall sizes: seq<nat> | multiset(sizes) == multiset([localSize] + arrived)
      ensures maxSize == Largest(sizes)
    {
      LargestOfSame(sizes, [localSize] + arrived);
    }
  }

  method PadScheduleToSize<T>(schedule: seq<seq<T>>, targetSize: nat) returns (padded: seq<seq<T>>)
    ensures |padded| == Larger(|schedule|, targetSize) && padded[..|schedule|] == schedule
    ensures forall b :: |schedule| <= b < |padded| ==> padded[b] == []
  {
    padded := schedule;
    while |padded| < targetSize
      invariant |schedule| <= |padded| <= Larger(|schedule|, targetSize) && padded[..|schedule|] == schedule
      invariant forall b :: |schedule| <= b < |padded| ==> padded[b] == []
    {
      padded := padded + [[]];
    }
  }

  function Sizes<T>(schedules: seq<seq<seq<T>>>): (s: seq<nat>)
    ensures |s| == |schedules| && forall a :: 0 <= a < |s| ==> s[a] == |schedules[a]|
  {
    seq(|schedules|, a requires 0 <= a < |schedules| => |schedules[a]|)
  }

  /** All nodes run the same number of micro-blocks: that of the longest schedule. */
  method AlignAll<T>(schedules: seq<seq<seq<T>>>, arrived: seq<nat>) returns (padded: seq<seq<seq<T>>>)
    requires |schedules| > 0 && multiset([|schedules[0]|] + arrived) == multiset(Sizes(schedules))
    ensures |padded| == |schedules|
    ensures forall a :: 0 <= a < |padded| ==> |padded[a]| == Largest(Sizes(schedules)) && padded[a][..|schedules[a]|] == schedules[a]
    ensures forall a, b :: 0 <= a < |padded| && |schedules[a]| <= b < |padded[a]| ==> padded[a][b] == []
  {
    var maxSize := AlignScheduleSize(|schedules[0]|, arrived);
    padded := [];
    for a := 0 to |schedules|
      invariant |padded| == a
      invariant forall e :: 0 <= e < a ==>
                  |padded[e]| == Largest(Sizes(schedules)) && |schedules[e]| <= |padded[e]| && padded[e][..|schedules[e]|] == schedules[e]
      invariant forall e, b :: 0 <= e < a && |schedules[e]| <= b < |padded[e]| ==> padded[e][b] == []
    {
      assert Sizes(schedules)[a] <= maxSize;
      var s := PadScheduleToSize(schedules[a], maxSize);
      padded := padded + [s];
    }
  }
}
