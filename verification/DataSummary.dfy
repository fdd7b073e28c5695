/**
 The two-level summary of the keys of the database: which key ranges may hold
 data. A coarse bitmap over equal buckets of the key domain, then, for sparse
 domains, a set of hashed keys.
 */
module DataSummary {

  const UINT64: nat := 0x1_0000_0000_0000_0000

  type uint64 = x: int | 0 <= x < UINT64

  function Min(a: uint64, b: uint64): uint64 { if a <= b then a else b }

  function Max(a: uint64, b: uint64): uint64 { if a <= b then b else a }

  // ------------------------------------------------------------------
  // L1: buckets of the key domain
  // ------------------------------------------------------------------

  const NUM_BLOCKS: nat := 4096

  datatype L1Result = NoConflict | MaybeConflict

  function BucketWidth(minKey: uint64, maxKey: uint64): (w: nat)
    ensures w > 0
  {
    if minKey > maxKey then 1 else (maxKey - minKey) / NUM_BLOCKS + 1
  }

  /** The bucket of a key, before the clamp of the last line of the computation. */
  function RawBucket(minKey: uint64, maxKey: uint64, key: uint64): nat {
    if key <= minKey then 0
    else if key >= maxKey then NUM_BLOCKS - 1
    else (key - minKey) / BucketWidth(minKey, maxKey)
  }

  function Bucket(minKey: uint64, maxKey: uint64, key: uint64): (b: nat)
    ensures b < NUM_BLOCKS
  {
    var b := RawBucket(minKey, maxKey, key);
    if b >= NUM_BLOCKS then NUM_BLOCKS - 1 else b
  }

  lemma DivAtMost(a: nat, d: nat, q: nat)
    requires d > 0 && a < d * q
    ensures a / d < q
  {
    assert d * (a / d) <= a;
    assert d * (q - a / d) > 0;
  }

  lemma DivMonotone(a: nat, b: nat, d: nat)
    requires d > 0 && a <= b
    ensures a / d <= b / d
  {
    assert b == d * (b / d) + b % d;
    assert b < d * (b / d + 1);
    DivAtMost(a, d, b / d + 1);
  }

  /** The clamp never changes a bucket. */
  lemma ClampNotNeeded(minKey: uint64, maxKey: uint64, key: uint64)
    ensures Bucket(minKey, maxKey, key) == RawBucket(minKey, maxKey, key)
  {
    if minKey < key < maxKey {
      var span, w := maxKey - minKey, BucketWidth(minKey, maxKey);
      assert span == NUM_BLOCKS * (span / NUM_BLOCKS) + span % NUM_BLOCKS;
      assert w * NUM_BLOCKS == NUM_BLOCKS * (span / NUM_BLOCKS) + NUM_BLOCKS;
      DivAtMost(key - minKey, w, NUM_BLOCKS);
    }
  }

  lemma BucketMonotone(minKey: uint64, maxKey: uint64, a: uint64, b: uint64)
    requires a <= b
    ensures Bucket(minKey, maxKey, a) <= Bucket(minKey, maxKey, b)
  {
    if minKey < a && b < maxKey {
      DivMonotone(a - minKey, b - minKey, BucketWidth(minKey, maxKey));
    }
  }

  /** Keys further apart than the width of a bucket are in different buckets. */
  lemma FarApart(minKey: uint64, maxKey: uint64, a: uint64, b: uint64)
    requires minKey <= a && b <= maxKey && b >= a + BucketWidth(minKey, maxKey)
    ensures Bucket(minKey, maxKey, a) < Bucket(minKey, maxKey, b)
  {
    var span, w := maxKey - minKey, BucketWidth(minKey, maxKey);
    ClampNotNeeded(minKey, maxKey, a);
    ClampNotNeeded(minKey, maxKey, b);
    assert span < NUM_BLOCKS * w by { assert span == NUM_BLOCKS * (span / NUM_BLOCKS) + span % NUM_BLOCKS; }
    OneWidthFurther(a - minKey, b - minKey, w);
    if b == maxKey && a > minKey { DivAtMost(a - minKey, w, NUM_BLOCKS - 1); }
  }

  lemma Times(w: nat, p: nat, q: nat)
    requires p <= q
    ensures w * p <= w * q
  {}

  lemma OneWidthFurther(a: nat, b: nat, w: nat)
    requires w > 0 && b >= a + w
    ensures a / w < b / w
  {
    var q, p := a / w, b / w;
    assert a == w * q + a % w && b == w * p + b % w;
    if p <= q {
      assert w * p <= w * q by { Times(w, p, q); }
    }
  }

  class L1Filter {
    var presence: seq<bool>
    var hasDomain: bool
    var minKey: uint64
    var maxKey: uint64

    ghost predicate Valid() reads this {
      |presence| == NUM_BLOCKS && (hasDomain ==> minKey <= maxKey)
    }

    /** What the query answers: some bucket the range touches inside the domain is marked. */
    ghost predicate Maybe(start: uint64, end: uint64)
      requires Valid()
      reads this
    {
      && hasDomain && start <= end && end >= minKey && start <= maxKey
      && exists i :: Bucket(minKey, maxKey, Max(start, minKey)) <= i <= Bucket(minKey, maxKey, Min(end, maxKey)) && presence[i]
    }

    constructor ()
      ensures Valid() && !hasDomain
    {
      presence := seq(NUM_BLOCKS, _ => false);
      hasDomain := false;
      minKey := 0;
      maxKey := 0;
    }

    /** With `minKey` above `maxKey` there is no domain, and the query will answer "no" to everything. */
    method Build(keys: seq<uint64>, minKey: uint64, maxKey: uint64)
      modifies this
      ensures Valid() && (hasDomain <==> minKey <= maxKey) && this.minKey == minKey && this.maxKey == maxKey
      ensures forall b :: 0 <= b < NUM_BLOCKS ==>
                (presence[b] <==> exists i :: 0 <= i < |keys| && Bucket(minKey, maxKey, keys[i]) == b)
    {
      presence := seq(NUM_BLOCKS, _ => false);
      hasDomain := minKey <= maxKey;
      this.minKey := minKey;
      this.maxKey := maxKey;
      for n := 0 to |keys|
        invariant Valid() && (hasDomain <==> minKey <= maxKey) && this.minKey == minKey && this.maxKey == maxKey
        invariant forall b :: 0 <= b < NUM_BLOCKS ==>
                    (presence[b] <==> exists i :: 0 <= i < n && Bucket(minKey, maxKey, keys[i]) == b)
      {
        var blockIdx := Bucket(minKey, maxKey, keys[n]);
        if !presence[blockIdx] {
          presence := presence[blockIdx := true];
        }
      }
    }

    method BuildDense(minKey: uint64, maxKey: uint64)
      modifies this
      ensures Valid() && (hasDomain <==> minKey <= maxKey) && this.minKey == minKey && this.maxKey == maxKey
      ensures hasDomain ==> forall b :: 0 <= b < NUM_BLOCKS ==> presence[b]
    {
      presence := seq(NUM_BLOCKS, _ => false);
      hasDomain := minKey <= maxKey;
      this.minKey := minKey;
      this.maxKey := maxKey;
      if !hasDomain { return; }
      presence := seq(NUM_BLOCKS, _ => true);
    }

    method Query(start: uint64, end: uint64) returns (r: L1Result)
      requires Valid()
      ensures r == if Maybe(start, end) then MaybeConflict else NoConflict
    {
      if !hasDomain || start > end { return NoConflict; }
      if end < minKey || start > maxKey { return NoConflict; }
      var clampedStart := Max(start, minKey);
      var clampedEnd := Min(end, maxKey);
      BucketMonotone(minKey, maxKey, clampedStart, clampedEnd);
      var i := Bucket(minKey, maxKey, clampedStart);
      var endBlock := Bucket(minKey, maxKey, clampedEnd);
      while i <= endBlock
        invariant Bucket(minKey, maxKey, clampedStart) <= i <= endBlock + 1
        invariant forall j :: Bucket(minKey, maxKey, clampedStart) <= j < i ==> !presence[j]
      {
        if presence[i] { return MaybeConflict; }
        i := i + 1;
      }
      return NoConflict;
    }

    lemma Monotone(start: uint64, end: uint64, start': uint64, end': uint64)
      requires Valid() && Maybe(start, end) && start' <= start && end <= end'
      ensures Maybe(start', end')
    {
      var i :| Bucket(minKey, maxKey, Max(start, minKey)) <= i <= Bucket(minKey, maxKey, Min(end, maxKey)) && presence[i];
      BucketMonotone(minKey, maxKey, Max(start', minKey), Max(start, minKey));
      BucketMonotone(minKey, maxKey, Min(end, maxKey), Min(end', maxKey));
    }

    /** What is let through has a key nearby: closer to the range than the 4096th part of the domain, rounded up. */
    lemma NearKey(keys: seq<uint64>, start: uint64, end: uint64)
      requires Valid() && forall i :: 0 <= i < |keys| ==> minKey <= keys[i] <= maxKey
      requires forall b :: 0 <= b < NUM_BLOCKS ==>
                 (presence[b] <==> exists i :: 0 <= i < |keys| && Bucket(minKey, maxKey, keys[i]) == b)
      requires Maybe(start, end)
      ensures var w := (maxKey - minKey) / 4096 + 1; exists k :: k in keys && start < k + w && k < end + w
    {
      var a, z, w := Max(start, minKey), Min(end, maxKey), BucketWidth(minKey, maxKey);
      var b :| Bucket(minKey, maxKey, a) <= b <= Bucket(minKey, maxKey, z) && presence[b];
      var i :| 0 <= i < |keys| && Bucket(minKey, maxKey, keys[i]) == b;
      if a >= keys[i] + w { FarApart(minKey, maxKey, keys[i], a); }
      if keys[i] >= z + w { FarApart(minKey, maxKey, z, keys[i]); }
      assert keys[i] in keys;
    }

    /** Over a dense domain the answer is exact: the range meets the domain. */
    lemma DenseExact(start: uint64, end: uint64)
      requires Valid() && (hasDomain <==> minKey <= maxKey)
      requires hasDomain ==> forall b :: 0 <= b < NUM_BLOCKS ==> presence[b]
      ensures Maybe(start, end) <==> start <= end && minKey <= maxKey && start <= maxKey && minKey <= end
    {
      if start <= end && minKey <= maxKey && start <= maxKey && minKey <= end {
        BucketMonotone(minKey, maxKey, Max(start, minKey), Min(end, maxKey));
        assert presence[Bucket(minKey, maxKey, Max(start, minKey))];
      }
    }
  }

  // ------------------------------------------------------------------
  // L2: locality-preserving hashes
  // ------------------------------------------------------------------

  const R: nat := 0x100_0000
  const P: nat := 0x1FFF_FFFF_FFFF_FFFF
  const ALPHA: nat := 1
  const BETA: nat := 0

  function QFunc(y: uint64): (h: uint64)
    ensures h < R
  {
    (ALPHA * y + BETA) % UINT64 % P % R
  }

  /** Unsigned addition wraps around. */
  function HashFunc(x: uint64): (h: uint64)
    ensures h < R
  {
    (QFunc(x / R) + x) % UINT64 % R
  }

  /** Position of a key on the unwrapped line: one extra step at every multiple of R. */
  function Position(x: nat): nat { x + x / R }

  /** The modulus of the hash divides that of the machine word, so wrapping around is harmless. */
  lemma WrapIsHarmless(v: nat)
    ensures v % UINT64 % R == v % R
  {
    assert UINT64 == 0x100_0000_0000 * R;
    var q := v / UINT64;
    assert v == q * 0x100_0000_0000 * R + v % UINT64;
    AddMultiple(v % UINT64, q * 0x100_0000_0000);
  }

  lemma AddMultiple(v: nat, q: nat)
    ensures (v + q * R) % R == v % R
  {}

  lemma SmallQ(y: nat)
    requires y < 0x100_0000_0000
    ensures QFunc(y) == y % R
  {}

  lemma HashIsPosition(x: uint64)
    ensures HashFunc(x) == Position(x) % R
  {
    var y := x / R;
    SmallQ(y);
    WrapIsHarmless(y % R + x);
    AddMultiple(y % R + x, y / R);
  }

  lemma PositionOrder(a: nat, b: nat)
    ensures a <= b <==> Position(a) <= Position(b)
  {}

  /** Every number is a position but those just below a multiple of R + 1. */
  lemma PositionTaken(v: nat, s: uint64, e: uint64) returns (x: uint64)
    requires Position(s) <= v <= Position(e) && (v + 1) % (R + 1) != 0
    ensures s <= x <= e && Position(x) == v
  {
    var m, t := v / (R + 1), v % (R + 1);
    var z := m * R + t;
    assert z / R == m;
    assert Position(z) == v;
    PositionOrder(z, e);
    PositionOrder(s, z);
    x := z;
  }

  lemma PositionNotTaken(x: nat)
    ensures (Position(x) + 1) % (R + 1) != 0
  {
    var m, t := x / R, x % R;
    assert Position(x) == m * (R + 1) + t;
  }

  /** Whether `h` lies on the arc from `from` to `to` around the circle of R hashes. */
  predicate OnArc(from: nat, to: nat, h: nat) {
    if from <= to then from <= h <= to else h <= to || h >= from
  }

  lemma OnArcByOffset(from: nat, to: nat, h: nat)
    requires from <= to && from <= h
    ensures OnArc(from % R, to % R, h % R) <==> (h - from) % R <= (to - from) % R
  {
    var a, b, c := from % R, to % R, h % R;
    assert (h - from) % R == if c >= a then c - a else c - a + R by { OffsetMod(from, h); }
    assert (to - from) % R == if b >= a then b - a else b - a + R by { OffsetMod(from, to); }
  }

  lemma OffsetMod(a: nat, b: nat)
    requires a <= b
    ensures (b - a) % R == if b % R >= a % R then b % R - a % R else b % R - a % R + R
  {}

  class L2Verifier {
    var tree: set<uint64>

    constructor ()
      ensures tree == {}
    {
      tree := {};
    }

    method Build(keys: seq<uint64>)
      modifies this
      ensures tree == set i | 0 <= i < |keys| :: HashFunc(keys[i])
    {
      tree := {};
      for n := 0 to |keys|
        invariant tree == set i | 0 <= i < n :: HashFunc(keys[i])
      {
        tree := tree + {HashFunc(keys[n])};
      }
    }

    /** A stored hash lies on the arc from the hash of `start` to the hash of `end`. */
    ghost predicate Conflict(start: uint64, end: uint64)
      reads this
    {
      exists h :: h in tree && OnArc(HashFunc(start), HashFunc(end), h)
    }

    /** The smallest element that is not below the bound. */
    method LowerBound(bound: uint64) returns (found: bool, it: uint64)
      ensures found ==> it in tree && it >= bound && forall h :: h in tree && h >= bound ==> it <= h
      ensures !found ==> forall h :: h in tree ==> h < bound
    {
      found, it := false, 0;
      var rest := tree;
      while rest != {}
        invariant rest <= tree
        invariant found ==> it in tree && it >= bound && forall h :: h in tree && h >= bound ==> h in rest || it <= h
        invariant !found ==> forall h :: h in tree ==> h in rest || h < bound
        decreases |rest|
      {
        var h :| h in rest;
        rest := rest - {h};
        if h >= bound && (!found || h < it) { found, it := true, h; }
      }
    }

    method Query(start: uint64, end: uint64) returns (r: bool)
      ensures r <==> Conflict(start, end)
    {
      var hStart := HashFunc(start);
      var hEnd := HashFunc(end);
      if hStart <= hEnd {
        var found, it := LowerBound(hStart);
        if found && it <= hEnd { return true; }
      } else {
        var found, it := LowerBound(0);
        if found && it <= hEnd { return true; }
        found, it := LowerBound(hStart);
        if found { return true; }
      }
      return false;
    }
  }

  /** Whatever the keys, one inside the range makes the verifier answer "conflict". */
  ghost predicate NeverMisses(start: uint64, end: uint64) {
    forall k: uint64 :: start <= k <= end ==> OnArc(HashFunc(start), HashFunc(end), HashFunc(k))
  }

  /** The condition for it: short enough not to lap the circle, or a lap that happens to close. */
  predicate Covers(start: uint64, end: uint64)
    requires start <= end
  {
    var d := Position(end) - Position(start);
    d < R || d % R == R - 1 || (d == 2 * R - 2 && (Position(start) + R) % (R + 1) == 0)
  }

  lemma OnArcIff(start: uint64, end: uint64, k: uint64)
    requires start <= k <= end
    ensures Position(start) <= Position(k) <= Position(end)
    ensures OnArc(HashFunc(start), HashFunc(end), HashFunc(k)) <==>
            (Position(k) - Position(start)) % R <= (Position(end) - Position(start)) % R
  {
    HashIsPosition(start);
    HashIsPosition(end);
    HashIsPosition(k);
    PositionOrder(start, k);
    PositionOrder(k, end);
    OnArcByOffset(Position(start), Position(end), Position(k));
  }

  lemma OffsetWithin(o: nat, d: nat)
    requires o <= d
    requires d < R || d % R == R - 1 || (d == 2 * R - 2 && o != R - 1)
    ensures o % R <= d % R
  {}

  lemma CoversSound(start: uint64, end: uint64, k: uint64)
    requires start <= k <= end && Covers(start, end)
    ensures OnArc(HashFunc(start), HashFunc(end), HashFunc(k))
  {
    OnArcIff(start, end, k);
    PositionNotTaken(k);
    hide HashFunc, OnArc, Position;
    OffsetWithin(Position(k) - Position(start), Position(end) - Position(start));
  }

  lemma SmallOffset(a: nat, v: nat, o: nat)
    requires v == a + o && o < R
    ensures (v - a) % R == o
  {}

  /** A place past the end of an arc that laps the circle without closing it. */
  lemma LapWitness(a: nat, d: nat) returns (v: nat)
    requires d >= R && d % R != R - 1 && !(d == 2 * R - 2 && (a + R) % (R + 1) == 0)
    ensures a <= v <= a + d && (v + 1) % (R + 1) != 0 && (v - a) % R > d % R
  {
    var r := d % R;
    if (a + r + 2) % (R + 1) != 0 {
      v := a + r + 1;
      SmallOffset(a, v, r + 1);
    } else if r + 2 < R {
      v := a + r + 2;
      SmallOffset(a, v, r + 2);
    } else {
      v := a + 2 * R - 1;
      assert (v - a) % R == R - 1;
    }
  }

  /** A range that is not covered hides some key from the verifier. */
  lemma CoversComplete(start: uint64, end: uint64) returns (k: uint64)
    requires start <= end && !Covers(start, end)
    ensures start <= k <= end && !OnArc(HashFunc(start), HashFunc(end), HashFunc(k))
  {
    PositionOrder(start, end);
    var v := LapWitness(Position(start), Position(end) - Position(start));
    k := PositionTaken(v, start, end);
    hide HashFunc, OnArc, Position;
    OnArcIff(start, end, k);
  }

  lemma NeverMissesIffCovers(start: uint64, end: uint64)
    requires start <= end
    ensures NeverMisses(start, end) <==> Covers(start, end)
  {
    if Covers(start, end) {
      forall k: uint64 | start <= k <= end
        ensures OnArc(HashFunc(start), HashFunc(end), HashFunc(k))
      {
        CoversSound(start, end, k);
      }
    } else {
      var k := CoversComplete(start, end);
    }
  }

  /** The shortest part at the front of a range that laps the circle: one position too long, or two. */
  lemma LappingPart(start: uint64, end: uint64) returns (last: uint64)
    requires start <= end && Position(end) - Position(start) >= R
    ensures start <= last <= end && !Covers(start, last)
  {
    var a := Position(start);
    var v := if (a + R + 1) % (R + 1) != 0 then a + R else a + R + 1;
    PositionNotTaken(end);
    last := PositionTaken(v, start, end);
  }

  /** No key of a range of at most R - 1 numbers is missed; one number more is too many. */
  lemma ShortRangesCovered(start: uint64, end: uint64)
    requires start <= end
    ensures end - start <= R - 2 ==> Covers(start, end)
    ensures end - start == R - 1 && start % R != 0 ==> !Covers(start, end)
  {
    var q := start / R;
    if end - start == R - 1 && start % R != 0 {
      assert end / R == q + 1;
    }
  }

  function Wrap(v: nat): nat { if v < R then v else v - R }

  lemma WrapIsMod(a: nat, b: nat)
    requires a <= b < a + R
    ensures b % R == Wrap(a % R + (b - a))
  {}

  lemma ArcNested(a: nat, x: nat, y: nat, z: nat, h: nat)
    requires a < R && x <= y <= z < R && h < R
    requires OnArc(Wrap(a + x), Wrap(a + y), h)
    ensures OnArc(a, Wrap(a + z), h)
  {}

  /** Too short to lap the circle, or ending just before the place where it started. */
  predicate MonotoneSafe(start: uint64, end: uint64)
    requires start <= end
  {
    var d := Position(end) - Position(start);
    d < R || d % R == R - 1
  }

  /** Whatever hash a part of the range finds, the range finds. */
  ghost predicate FindsWhatPartsFind(start': uint64, end': uint64) {
    forall s: uint64, e: uint64, h: nat ::
      start' <= s <= e <= end' && h < R && OnArc(HashFunc(s), HashFunc(e), h) ==> OnArc(HashFunc(start'), HashFunc(end'), h)
  }

  lemma ShortArcMonotone(s: uint64, e: uint64, s': uint64, e': uint64, h: nat)
    requires s' <= s <= e <= e' && Position(e') - Position(s') < R && h < R
    requires OnArc(HashFunc(s), HashFunc(e), h)
    ensures OnArc(HashFunc(s'), HashFunc(e'), h)
  {
    PositionOrder(s', s);
    PositionOrder(s, e);
    PositionOrder(e, e');
    HashIsPosition(s);
    HashIsPosition(e);
    HashIsPosition(s');
    HashIsPosition(e');
    hide HashFunc, Position, OnArc, Wrap;
    var a := Position(s');
    WrapIsMod(a, Position(s));
    WrapIsMod(a, Position(e));
    WrapIsMod(a, Position(e'));
    ArcNested(a % R, Position(s) - a, Position(e) - a, Position(e') - a, h);
  }

  lemma ClosedArcIsAll(a: nat, b: nat, h: nat)
    requires a <= b && (b - a) % R == R - 1 && h < R
    ensures OnArc(a % R, b % R, h)
  {
    OffsetMod(a, b);
  }

  /** Such a range finds whatever a range inside it finds. */
  lemma ArcMonotone(s: uint64, e: uint64, s': uint64, e': uint64, h: nat)
    requires s' <= s <= e <= e' && MonotoneSafe(s', e') && h < R
    requires OnArc(HashFunc(s), HashFunc(e), h)
    ensures OnArc(HashFunc(s'), HashFunc(e'), h)
  {
    if Position(e') - Position(s') < R {
      ShortArcMonotone(s, e, s', e', h);
    } else {
      HashIsPosition(s');
      HashIsPosition(e');
      PositionOrder(s', e');
      ClosedArcIsAll(Position(s'), Position(e'), h);
    }
  }

  /** The covered range that is not safe: it starts right after a multiple of R and leaves out the hash of that multiple. */
  lemma CoveredNotSafe(start: uint64, end: uint64) returns (m: nat)
    requires start <= end && Covers(start, end) && !MonotoneSafe(start, end)
    ensures start == m * R + 1 && m * R + R <= end
    ensures !OnArc(HashFunc(start), HashFunc(end), HashFunc(m * R))
    ensures OnArc(HashFunc(m * R + R - 1), HashFunc(m * R + R), HashFunc(m * R))
  {
    var a, d := Position(start), Position(end) - Position(start);
    m := start / R;
    assert start == m * R + start % R && a == m * (R + 1) + start % R;
    AfterMultiple(m, start % R);
    PositionOrder(m * R + R, end);
    MultipleMissed(m, start, end);
    MultipleFound(m);
  }

  lemma AfterMultiple(m: nat, t: nat)
    requires t < R && (m * (R + 1) + t + R) % (R + 1) == 0
    ensures t == 1
  {}

  lemma PositionOf(m: nat, t: nat)
    requires t < R
    ensures Position(m * R + t) == m * (R + 1) + t
  {}

  lemma MultipleMissed(m: nat, start: uint64, end: uint64)
    requires start == m * R + 1 && start <= end && Position(end) - Position(start) == 2 * R - 2
    ensures !OnArc(HashFunc(start), HashFunc(end), HashFunc(m * R))
  {
    PositionOf(m, 0);
    PositionOf(m, 1);
    HashIsPosition(start);
    HashIsPosition(end);
    HashIsPosition(m * R);
    hide HashFunc, Position;
    var a := m * (R + 1);
    assert (a + 1 + 2 * R - 2) % R == (a + R - 1) % R by { AddMultiple(a + R - 1, 1); }
    OffsetMod(a, a + 1);
    OffsetMod(a, a + R - 1);
  }

  lemma MultipleFound(m: nat)
    requires m * R + R < UINT64
    ensures OnArc(HashFunc(m * R + R - 1), HashFunc(m * R + R), HashFunc(m * R))
  {
    PositionOf(m, 0);
    PositionOf(m, R - 1);
    PositionOf(m + 1, 0);
    HashIsPosition(m * R);
    HashIsPosition(m * R + R - 1);
    HashIsPosition(m * R + R);
    hide HashFunc, Position;
    var a := m * (R + 1);
    OffsetMod(a, a + R - 1);
    AddMultiple(a + 1, 1);
    OffsetMod(a, a + 1);
  }

  lemma OneKeySafe(k: uint64)
    ensures MonotoneSafe(k, k)
  {}

  lemma AroundMultipleSafe(m: nat)
    requires m * R + R < UINT64
    ensures MonotoneSafe(m * R + R - 1, m * R + R)
  {
    PositionOf(m, R - 1);
    PositionOf(m + 1, 0);
  }

  /** Every other range has a part that finds a key of its own or the key before it, while the whole range does not. */
  lemma PartFindsMore(start': uint64, end': uint64) returns (start: uint64, end: uint64, key: uint64)
    requires start' <= end' && !MonotoneSafe(start', end')
    ensures start' <= start <= end <= end' && (start == end == key || (key == start' - 1 && key % R == 0 && start == key + R - 1 && end == key + R))
    ensures MonotoneSafe(start, end)
    ensures OnArc(HashFunc(start), HashFunc(end), HashFunc(key))
    ensures !OnArc(HashFunc(start'), HashFunc(end'), HashFunc(key))
  {
    hide HashFunc, Position, MonotoneSafe, Covers;
    if Covers(start', end') {
      var m := CoveredNotSafe(start', end');
      AroundMultipleSafe(m);
      start, end, key := m * R + R - 1, m * R + R, m * R;
    } else {
      key := CoversComplete(start', end');
      OneKeySafe(key);
      start, end := key, key;
    }
  }

  lemma MonotoneIffSafe(start: uint64, end: uint64)
    requires start <= end
    ensures FindsWhatPartsFind(start, end) <==> MonotoneSafe(start, end)
  {
    if MonotoneSafe(start, end) {
      forall s: uint64, e: uint64, h: nat | start <= s <= e <= end && h < R && OnArc(HashFunc(s), HashFunc(e), h)
        ensures OnArc(HashFunc(start), HashFunc(end), h)
      {
        ArcMonotone(s, e, start, end, h);
      }
    } else {
      var s, e, k := PartFindsMore(start, end);
    }
  }

  // ------------------------------------------------------------------
  // Both levels
  // ------------------------------------------------------------------

  class DataSummary {
    const l1: L1Filter
    const l2: L2Verifier
    var denseDomain: bool

    ghost predicate Valid() reads this, l1, l2 {
      l1.Valid() && forall h :: h in l2.tree ==> h < R
    }

    /** What the query answers. */
    ghost predicate Exists(start: uint64, end: uint64)
      requires Valid()
      reads this, l1, l2
    {
      l1.Maybe(start, end) && (denseDomain || l2.Conflict(start, end))
    }

    constructor ()
      ensures Valid() && fresh(l1) && fresh(l2) && !denseDomain
    {
      l1 := new L1Filter();
      l2 := new L2Verifier();
      denseDomain := false;
    }

    method Build(keys: seq<uint64>, minKey: uint64, maxKey: uint64)
      modifies this, l1, l2
      ensures Valid() && BuiltFrom(keys, minKey, maxKey)
    {
      denseDomain := false;
      l1.Build(keys, minKey, maxKey);
      l2.Build(keys);
    }

    method BuildDense(minKey: uint64, maxKey: uint64)
      requires Valid()
      modifies this, l1
      ensures Valid() && BuiltDense(minKey, maxKey)
    {
      denseDomain := true;
      l1.BuildDense(minKey, maxKey);
    }

    method QueryRangeExists(start: uint64, end: uint64) returns (r: bool)
      requires Valid()
      ensures r <==> Exists(start, end)
    {
      var l1Result := l1.Query(start, end);
      if l1Result == NoConflict { return false; }
      if denseDomain { return true; }
      r := l2.Query(start, end);
    }

    ghost predicate BuiltFrom(keys: seq<uint64>, minKey: uint64, maxKey: uint64)
      reads this, l1, l2
    {
      && !denseDomain && l1.Valid() && (l1.hasDomain <==> minKey <= maxKey) && l1.minKey == minKey && l1.maxKey == maxKey
      && (forall b :: 0 <= b < NUM_BLOCKS ==>
            (l1.presence[b] <==> exists i :: 0 <= i < |keys| && Bucket(minKey, maxKey, keys[i]) == b))
      && l2.tree == set i | 0 <= i < |keys| :: HashFunc(keys[i])
    }

    ghost predicate BuiltDense(minKey: uint64, maxKey: uint64)
      reads this, l1
    {
      && denseDomain && l1.Valid() && (l1.hasDomain <==> minKey <= maxKey) && l1.minKey == minKey && l1.maxKey == maxKey
      && (l1.hasDomain ==> forall b :: 0 <= b < NUM_BLOCKS ==> l1.presence[b])
    }

    /** Both levels hold the trace of a key of the domain. */
    ghost predicate Knows(key: uint64)
      requires Valid()
      reads this, l1, l2
    {
      && l1.hasDomain && l1.minKey <= key <= l1.maxKey && l1.presence[Bucket(l1.minKey, l1.maxKey, key)]
      && (denseDomain || HashFunc(key) in l2.tree)
    }

    lemma BuiltKnows(keys: seq<uint64>, minKey: uint64, maxKey: uint64)
      requires Valid()
      ensures BuiltFrom(keys, minKey, maxKey) ==>
                forall i :: 0 <= i < |keys| && minKey <= keys[i] <= maxKey ==> Knows(keys[i])
      ensures BuiltDense(minKey, maxKey) ==> forall key: uint64 :: minKey <= key <= maxKey ==> Knows(key)
    {}

    /** No false negatives: a known key inside the range makes the range exist. */
    lemma NeverMissesKnown(key: uint64, start: uint64, end: uint64)
      requires Valid() && Knows(key) && start <= key <= end
      requires denseDomain || Covers(start, end)
      ensures Exists(start, end)
    {
      BucketMonotone(l1.minKey, l1.maxKey, Max(start, l1.minKey), key);
      BucketMonotone(l1.minKey, l1.maxKey, key, Min(end, l1.maxKey));
      assert l1.Maybe(start, end);
      if !denseDomain { CoversSound(start, end, key); }
    }

    /** Sparse domain: what exists has a key nearby, and a key whose hash is on its arc. */
    lemma ExistsHasKeys(keys: seq<uint64>, minKey: uint64, maxKey: uint64, start: uint64, end: uint64)
      requires Valid() && BuiltFrom(keys, minKey, maxKey) && forall i :: 0 <= i < |keys| ==> minKey <= keys[i] <= maxKey
      requires Exists(start, end)
      ensures start <= end && minKey <= maxKey
      ensures var w := (maxKey - minKey) / 4096 + 1; exists k :: k in keys && start < k + w && k < end + w
      ensures exists k :: k in keys && OnArc(HashFunc(start), HashFunc(end), HashFunc(k))
    {
      hide HashFunc, OnArc;
      l1.NearKey(keys, start, end);
      var h :| h in l2.tree && OnArc(HashFunc(start), HashFunc(end), h);
      var i :| 0 <= i < |keys| && HashFunc(keys[i]) == h;
      assert keys[i] in keys;
    }

    /** Sparse domain: one key alone is missed by every range that is not covered. */
    lemma SparseMisses(start: uint64, end: uint64) returns (key: uint64)
      requires start <= end && !Covers(start, end)
      ensures start <= key <= end
      ensures Valid() && !denseDomain && l2.tree == {HashFunc(key)} ==> !Exists(start, end)
    {
      key := CoversComplete(start, end);
    }

    /** Dense domain: exact. */
    lemma DenseExact(minKey: uint64, maxKey: uint64, start: uint64, end: uint64)
      requires Valid() && BuiltDense(minKey, maxKey)
      ensures Exists(start, end) <==> start <= end && minKey <= maxKey && start <= maxKey && minKey <= end
    {
      l1.DenseExact(start, end);
    }

    /** A safe range exists whenever a part of it does; over a dense domain every range. */
    lemma Monotone(start: uint64, end: uint64, start': uint64, end': uint64)
      requires Valid() && Exists(start, end) && start' <= start <= end <= end'
      requires denseDomain || MonotoneSafe(start', end')
      ensures Exists(start', end')
    {
      l1.Monotone(start, end, start', end');
      if !denseDomain {
        var h :| h in l2.tree && OnArc(HashFunc(start), HashFunc(end), h);
        ArcMonotone(start, end, start', end', h);
      }
    }

    lemma OneKey(key: uint64)
      requires BuiltFrom([key], 0, UINT64 - 1)
      ensures Valid() && Knows(key) && l2.tree == {HashFunc(key)}
    {
      assert [key][0] == key;
    }

    /** Any other range does not: one key in the whole domain of 64 bits, and a part of the range exists but the range itself does not. */
    lemma NotMonotone(start': uint64, end': uint64) returns (key: uint64, start: uint64, end: uint64)
      requires start' <= end' && !MonotoneSafe(start', end')
      ensures start' <= start <= end <= end' && MonotoneSafe(start, end)
      ensures Valid() && BuiltFrom([key], 0, UINT64 - 1) ==> Exists(start, end) && !Exists(start', end')
    {
      start, end, key := PartFindsMore(start', end');
      if Valid() && BuiltFrom([key], 0, UINT64 - 1) {
        OneKey(key);
        SameBucket(key, start);
        BucketMonotone(0, UINT64 - 1, start, end);
      }
    }
  }

  /** A multiple of R shares its bucket of the whole domain with the R - 1 keys after it. */
  lemma SameBucket(key: uint64, start: uint64)
    requires key == start || (key % R == 0 && start == key + R - 1)
    ensures Bucket(0, UINT64 - 1, key) == Bucket(0, UINT64 - 1, start)
  {
    var w := BucketWidth(0, UINT64 - 1);
    assert w == R * 0x1000_0000;
  }
}
