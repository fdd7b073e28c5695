/**
 The deterministic conflict predictor: two transactions conflict when a key range
 of one meets a key range of the other where the summary knows of data.
 */
module ConflictPredictor {
  import opened DataSummary

  datatype ConflictType = NONE | WAW | WAR | RAW

  datatype Range = Range(start: uint64, end: uint64)
  {
    predicate Contains(key: uint64) { start <= key <= end }
  }

  datatype TxnQueryRanges = TxnQueryRanges(read: seq<Range>, write: seq<Range>)

  ghost predicate SortedByStart(rs: seq<Range>) {
    forall i, j :: 0 <= i < j < |rs| ==> rs[i].start <= rs[j].start
  }

  /** A range that does not lap the circle of hashes. */
  predicate Narrow(dense: bool, r: Range) {
    dense || r.start > r.end || Position(r.end) - Position(r.start) < R
  }

  ghost predicate AllNarrow(dense: bool, rs: seq<Range>) {
    forall i :: 0 <= i < |rs| ==> Narrow(dense, rs[i])
  }

  /** Over a sparse domain it is the intersection of two ranges that the summary is asked about. */
  predicate SafePair(dense: bool, a: Range, b: Range) {
    var s, e := Max(a.start, b.start), Min(a.end, b.end);
    dense || s > e || MonotoneSafe(s, e)
  }

  predicate CoveredPair(dense: bool, a: Range, b: Range) {
    var s, e := Max(a.start, b.start), Min(a.end, b.end);
    dense || s > e || Covers(s, e)
  }

  ghost predicate AllSafe(dense: bool, as_: seq<Range>, bs: seq<Range>) {
    forall i, j :: 0 <= i < |as_| && 0 <= j < |bs| ==> SafePair(dense, as_[i], bs[j])
  }

  ghost predicate AllCovered(dense: bool, as_: seq<Range>, bs: seq<Range>) {
    forall i, j :: 0 <= i < |as_| && 0 <= j < |bs| ==> CoveredPair(dense, as_[i], bs[j])
  }

  /** What is safe is covered. */
  lemma SafeIsCovered(dense: bool, as_: seq<Range>, bs: seq<Range>)
    requires AllSafe(dense, as_, bs)
    ensures AllCovered(dense, as_, bs)
  {
    hide Position;
    forall i, j | 0 <= i < |as_| && 0 <= j < |bs|
      ensures CoveredPair(dense, as_[i], bs[j])
    {
      assert SafePair(dense, as_[i], bs[j]);
    }
  }

  lemma NarrowIsSafe(dense: bool, a: Range, b: Range)
    requires Narrow(dense, a) || Narrow(dense, b)
    ensures SafePair(dense, a, b)
  {
    var s, e := Max(a.start, b.start), Min(a.end, b.end);
    PositionOrder(a.start, s);
    PositionOrder(b.start, s);
    PositionOrder(e, a.end);
    PositionOrder(e, b.end);
    PositionOrder(s, e);
    hide Position;
  }

  /** One list without a lapping range is enough, whatever the other holds. */
  lemma OneNarrowListIsSafe(dense: bool, as_: seq<Range>, bs: seq<Range>)
    requires AllNarrow(dense, as_) || AllNarrow(dense, bs)
    ensures AllSafe(dense, as_, bs)
  {
    forall i, j | 0 <= i < |as_| && 0 <= j < |bs|
      ensures SafePair(dense, as_[i], bs[j])
    {
      NarrowIsSafe(dense, as_[i], bs[j]);
    }
  }

  ghost predicate InSome(rs: seq<Range>, key: uint64) {
    exists i :: 0 <= i < |rs| && rs[i].Contains(key)
  }

  ghost predicate SortedRanges(t: TxnQueryRanges) {
    SortedByStart(t.read) && SortedByStart(t.write)
  }

  class ConflictPredictor {
    const summary: DataSummary

    constructor ()
      ensures summary.Valid() && fresh(summary) && fresh(summary.l1) && fresh(summary.l2)
    {
      summary := new DataSummary();
    }

    method BuildSummary(keys: seq<uint64>, minKey: uint64, maxKey: uint64, denseDomain: bool)
      requires summary.Valid()
      modifies summary, summary.l1, summary.l2
      ensures summary.Valid()
      ensures denseDomain ==> summary.BuiltDense(minKey, maxKey)
      ensures !denseDomain ==> summary.BuiltFrom(keys, minKey, maxKey)
    {
      if denseDomain {
        summary.BuildDense(minKey, maxKey);
        return;
      }
      summary.Build(keys, minKey, maxKey);
    }

    /** The two ranges intersect, and the summary knows of data in the intersection. */
    ghost predicate Hit(a: Range, b: Range)
      requires summary.Valid()
      reads summary, summary.l1, summary.l2
    {
      Max(a.start, b.start) <= Min(a.end, b.end) && summary.Exists(Max(a.start, b.start), Min(a.end, b.end))
    }

    ghost predicate Meet(as_: seq<Range>, bs: seq<Range>)
      requires summary.Valid()
      reads summary, summary.l1, summary.l2
    {
      exists i, j :: 0 <= i < |as_| && 0 <= j < |bs| && Hit(as_[i], bs[j])
    }

    /** A pair whose intersection contains that of a hit is a hit. */
    lemma LargerHit(a: Range, b: Range, a': Range, b': Range)
      requires summary.Valid() && Hit(a', b') && SafePair(summary.denseDomain, a, b)
      requires Max(a.start, b.start) <= Max(a'.start, b'.start) && Min(a'.end, b'.end) <= Min(a.end, b.end)
      ensures Hit(a, b)
    {
      hide MonotoneSafe;
      summary.Monotone(Max(a'.start, b'.start), Min(a'.end, b'.end), Max(a.start, b.start), Min(a.end, b.end));
    }

    /** The walk with its iterators at `i` and `j`: of the two ranges it skips the one that ends first. */
    ghost predicate Walk(ranges1: seq<Range>, ranges2: seq<Range>, i: nat, j: nat)
      requires summary.Valid() && i <= |ranges1| && j <= |ranges2|
      reads summary, summary.l1, summary.l2
      decreases |ranges1| - i + |ranges2| - j
    {
      i < |ranges1| && j < |ranges2| &&
      (Hit(ranges1[i], ranges2[j]) ||
       if ranges1[i].end < ranges2[j].end then Walk(ranges1, ranges2, i + 1, j) else Walk(ranges1, ranges2, i, j + 1))
    }

    method CheckRangeIntersection(ranges1: seq<Range>, ranges2: seq<Range>) returns (r: bool)
      requires summary.Valid()
      ensures r == Walk(ranges1, ranges2, 0, 0)
    {
      if |ranges1| == 0 || |ranges2| == 0 { return false; }
      var it1, it2 := 0, 0;
      while it1 < |ranges1| && it2 < |ranges2|
        invariant 0 <= it1 <= |ranges1| && 0 <= it2 <= |ranges2|
        invariant Walk(ranges1, ranges2, 0, 0) == Walk(ranges1, ranges2, it1, it2)
        decreases |ranges1| - it1 + |ranges2| - it2
      {
        var a, b := ranges1[it1], ranges2[it2];
        var intersectStart := Max(a.start, b.start);
        var intersectEnd := Min(a.end, b.end);
        if intersectStart <= intersectEnd {
          var found := summary.QueryRangeExists(intersectStart, intersectEnd);
          if found { return true; }
        }
        assert !Hit(a, b);
        if a.end < b.end {
          it1 := it1 + 1;
        } else {
          it2 := it2 + 1;
        }
      }
      return false;
    }

    /** The walk invents no hit, whatever the lists. */
    lemma {:induction false} WalkSound(ranges1: seq<Range>, ranges2: seq<Range>, i: nat, j: nat)
      requires summary.Valid() && i <= |ranges1| && j <= |ranges2| && Walk(ranges1, ranges2, i, j)
      ensures Meet(ranges1, ranges2)
      decreases |ranges1| - i + |ranges2| - j
    {
      if !Hit(ranges1[i], ranges2[j]) {
        if ranges1[i].end < ranges2[j].end {
          WalkSound(ranges1, ranges2, i + 1, j);
        } else {
          WalkSound(ranges1, ranges2, i, j + 1);
        }
      }
    }

    /** And on lists sorted by start it skips none, nested and overlapping ranges included. */
    lemma {:induction false} WalkComplete(ranges1: seq<Range>, ranges2: seq<Range>, i: nat, j: nat, i': nat, j': nat)
      requires summary.Valid() && SortedByStart(ranges1) && SortedByStart(ranges2)
      requires AllSafe(summary.denseDomain, ranges1, ranges2)
      requires i <= i' < |ranges1| && j <= j' < |ranges2| && Hit(ranges1[i'], ranges2[j'])
      ensures Walk(ranges1, ranges2, i, j)
      decreases |ranges1| - i + |ranges2| - j
    {
      hide SafePair, Hit;
      if !Hit(ranges1[i], ranges2[j]) {
        if ranges1[i].end < ranges2[j].end {
          if i' == i { LargerHit(ranges1[i], ranges2[j], ranges1[i], ranges2[j']); }
          WalkComplete(ranges1, ranges2, i + 1, j, i', j');
        } else {
          if j' == j { LargerHit(ranges1[i], ranges2[j], ranges1[i'], ranges2[j]); }
          WalkComplete(ranges1, ranges2, i, j + 1, i', j');
        }
      }
    }

    /** The two-iterator walk is exact where the intersections it asks about are safe. */
    lemma WalkIsMeet(ranges1: seq<Range>, ranges2: seq<Range>)
      requires summary.Valid() && SortedByStart(ranges1) && SortedByStart(ranges2)
      requires AllSafe(summary.denseDomain, ranges1, ranges2)
      ensures Walk(ranges1, ranges2, 0, 0) <==> Meet(ranges1, ranges2)
    {
      if Walk(ranges1, ranges2, 0, 0) { WalkSound(ranges1, ranges2, 0, 0); }
      if Meet(ranges1, ranges2) {
        var i, j :| 0 <= i < |ranges1| && 0 <= j < |ranges2| && Hit(ranges1[i], ranges2[j]);
        WalkComplete(ranges1, ranges2, 0, 0, i, j);
      }
    }

    /**
     Every pair whose intersection is not safe breaks it: with one key known there are
     sorted lists, safe but for this pair, on which the walk finds nothing although a pair
     meets.
     */
    lemma UnsafePairBreaks(a: Range, b: Range) returns (key: uint64, ranges1: seq<Range>, ranges2: seq<Range>)
      requires !SafePair(false, a, b)
      ensures SortedByStart(ranges1) && SortedByStart(ranges2) && a in ranges1 && b in ranges2
      ensures forall i, j :: 0 <= i < |ranges1| && 0 <= j < |ranges2| && (ranges1[i] != a || ranges2[j] != b) ==>
                SafePair(false, ranges1[i], ranges2[j])
      ensures summary.Valid() && summary.BuiltFrom([key], 0, UINT64 - 1) ==>
                Meet(ranges1, ranges2) && !Walk(ranges1, ranges2, 0, 0)
    {
      var s, e := Max(a.start, b.start), Min(a.end, b.end);
      var start, end;
      key, start, end := summary.NotMonotone(s, e);
      var w := Range(start, end);
      ranges1, ranges2 := if a.end < b.end then [a] else [a, w], if a.end < b.end then [b, w] else [b];
      assert SafePair(false, a, w) && SafePair(false, w, b);
      hide MonotoneSafe, SafePair;
      if summary.Valid() && summary.BuiltFrom([key], 0, UINT64 - 1) {
        PartHits(a, b, w);
      }
    }

    /** The two ranges do not hit, a part of their intersection does, and the walk never gets there. */
    lemma PartHits(a: Range, b: Range, w: Range)
      requires summary.Valid() && summary.Exists(w.start, w.end) && w.start <= w.end
      requires Max(a.start, b.start) <= w.start && w.end <= Min(a.end, b.end)
      requires !summary.Exists(Max(a.start, b.start), Min(a.end, b.end))
      ensures a.end < b.end ==> Meet([a], [b, w]) && !Walk([a], [b, w], 0, 0)
      ensures a.end >= b.end ==> Meet([a, w], [b]) && !Walk([a, w], [b], 0, 0)
    {
      assert !Hit(a, b) && Hit(a, w) && Hit(w, b);
      hide Hit;
      if a.end < b.end {
        assert Hit([a][0], [b, w][1]);
        assert !Walk([a], [b, w], 1, 0);
      } else {
        assert Hit([a, w][1], [b][0]);
        assert !Walk([a, w], [b], 0, 1);
      }
    }

    /**
     Every range that laps the circle occurs in such a pair: with one key known there are sorted
     lists, the range first in one of them, on which the walk finds nothing although
     a pair meets. Nor does the range itself meet a part of it that holds the key.
     */
    lemma NarrowIsNeeded(r: Range) returns (key: uint64, w: Range, b: Range)
      requires r.start <= r.end && !Narrow(false, r)
      ensures SortedByStart([r, w]) && SortedByStart([b]) && Narrow(false, w)
      ensures r.Contains(key) && b.Contains(key)
      ensures summary.Valid() && summary.BuiltFrom([key], 0, UINT64 - 1) ==>
                Meet([r, w], [b]) && !Walk([r, w], [b], 0, 0) && !Meet([r], [b])
    {
      var last := LappingPart(r.start, r.end);
      key := CoversComplete(r.start, last);
      w, b := Range(key, key), Range(r.start, last);
      if summary.Valid() && summary.BuiltFrom([key], 0, UINT64 - 1) {
        hide HashFunc, OnArc, Position, Covers;
        summary.OneKey(key);
        summary.NeverMissesKnown(key, key, key);
        assert Hit([r, w][1], [b][0]);
        assert !Hit(r, b);
        assert !Walk([r, w], [b], 0, 1);
      }
    }

    /** What the lists of two transactions need for an exact prediction. */
    ghost predicate SafeTogether(t1: TxnQueryRanges, t2: TxnQueryRanges)
      reads summary
    {
      && AllSafe(summary.denseDomain, t1.write, t2.write)
      && AllSafe(summary.denseDomain, t1.write, t2.read)
      && AllSafe(summary.denseDomain, t1.read, t2.write)
    }

    /** And what they need for one that misses nothing. */
    ghost predicate CoveredTogether(t1: TxnQueryRanges, t2: TxnQueryRanges)
      reads summary
    {
      && AllCovered(summary.denseDomain, t1.write, t2.write)
      && AllCovered(summary.denseDomain, t1.write, t2.read)
      && AllCovered(summary.denseDomain, t1.read, t2.write)
    }

    lemma SafeIsCoveredTogether(t1: TxnQueryRanges, t2: TxnQueryRanges)
      requires SafeTogether(t1, t2)
      ensures CoveredTogether(t1, t2)
    {
      SafeIsCovered(summary.denseDomain, t1.write, t2.write);
      SafeIsCovered(summary.denseDomain, t1.write, t2.read);
      SafeIsCovered(summary.denseDomain, t1.read, t2.write);
    }

    /** Writes against writes first, then the earlier transaction's writes against reads, then its reads. */
    ghost function Conflict(t1: TxnQueryRanges, t2: TxnQueryRanges): ConflictType
      requires summary.Valid()
      reads summary, summary.l1, summary.l2
    {
      if Meet(t1.write, t2.write) then WAW
      else if Meet(t1.write, t2.read) then RAW
      else if Meet(t1.read, t2.write) then WAR
      else NONE
    }

    ghost function Predicted(t1: TxnQueryRanges, t2: TxnQueryRanges): ConflictType
      requires summary.Valid()
      reads summary, summary.l1, summary.l2
    {
      if Walk(t1.write, t2.write, 0, 0) then WAW
      else if Walk(t1.write, t2.read, 0, 0) then RAW
      else if Walk(t1.read, t2.write, 0, 0) then WAR
      else NONE
    }

    method PredictConflict(t1: TxnQueryRanges, t2: TxnQueryRanges) returns (c: ConflictType)
      requires summary.Valid()
      ensures c == Predicted(t1, t2)
    {
      var met := CheckRangeIntersection(t1.write, t2.write);
      if met { return WAW; }
      met := CheckRangeIntersection(t1.write, t2.read);
      if met { return RAW; }
      met := CheckRangeIntersection(t1.read, t2.write);
      if met { return WAR; }
      return NONE;
    }

    lemma PredictedIsConflict(t1: TxnQueryRanges, t2: TxnQueryRanges)
      requires summary.Valid() && SortedRanges(t1) && SortedRanges(t2) && SafeTogether(t1, t2)
      ensures Predicted(t1, t2) == Conflict(t1, t2)
    {
      WalkIsMeet(t1.write, t2.write);
      WalkIsMeet(t1.write, t2.read);
      WalkIsMeet(t1.read, t2.write);
    }

    /** Two lists that both contain a known key meet. */
    lemma SharedKeyMeets(as_: seq<Range>, bs: seq<Range>, key: uint64)
      requires summary.Valid() && summary.Knows(key)
      requires AllCovered(summary.denseDomain, as_, bs) && InSome(as_, key) && InSome(bs, key)
      ensures Meet(as_, bs)
    {
      var i :| 0 <= i < |as_| && as_[i].Contains(key);
      var j :| 0 <= j < |bs| && bs[j].Contains(key);
      var s, e := Max(as_[i].start, bs[j].start), Min(as_[i].end, bs[j].end);
      assert CoveredPair(summary.denseDomain, as_[i], bs[j]);
      hide Covers;
      summary.NeverMissesKnown(key, s, e);
      assert Hit(as_[i], bs[j]);
    }

    /** Where an intersection is not covered, two ranges hold a known key and do not meet. */
    lemma UncoveredPairMisses(a: Range, b: Range) returns (key: uint64)
      requires !CoveredPair(false, a, b)
      ensures a.Contains(key) && b.Contains(key)
      ensures summary.Valid() && summary.BuiltFrom([key], 0, UINT64 - 1) ==> summary.Knows(key) && !Meet([a], [b])
    {
      key := CoversComplete(Max(a.start, b.start), Min(a.end, b.end));
      if summary.Valid() && summary.BuiltFrom([key], 0, UINT64 - 1) {
        hide HashFunc, OnArc, Position, Covers;
        summary.OneKey(key);
        assert !Hit(a, b);
      }
    }

    /** A real conflict on a known key is never predicted away, nor ranked below what it is. */
    lemma RealConflictPredicted(t1: TxnQueryRanges, t2: TxnQueryRanges, key: uint64)
      requires summary.Valid() && summary.Knows(key) && CoveredTogether(t1, t2)
      ensures InSome(t1.write, key) && InSome(t2.write, key) ==> Conflict(t1, t2) == WAW
      ensures InSome(t1.write, key) && InSome(t2.read, key) ==> Conflict(t1, t2) == WAW || Conflict(t1, t2) == RAW
      ensures InSome(t1.read, key) && InSome(t2.write, key) ==> Conflict(t1, t2) != NONE
    {
      if InSome(t1.write, key) && InSome(t2.write, key) { SharedKeyMeets(t1.write, t2.write, key); }
      if InSome(t1.write, key) && InSome(t2.read, key) { SharedKeyMeets(t1.write, t2.read, key); }
      if InSome(t1.read, key) && InSome(t2.write, key) { SharedKeyMeets(t1.read, t2.write, key); }
    }
  }
}
