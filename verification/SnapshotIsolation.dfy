/**
 The snapshot-isolation switch of Aria and PRDCC lets a transaction commit whatever was
 written under its reads. Which batches still run serially: exactly those whose committed
 transactions do not form a cycle in which each reads what the next one writes.
 */
module SnapshotIsolation {
  import opened Transactions
  import opened AriaHelper
  import opened Aria

  /** `x` reads what `y` writes, so in a serial order it has to come first. */
  ghost predicate Precedes(x: Txn, y: Txn) { x != y && Feeds(y, x) }

  ghost predicate Walk(s: set<Txn>, w: seq<Txn>) {
    && |w| > 0 && (forall i :: 0 <= i < |w| ==> w[i] in s)
    && forall i :: 0 <= i < |w| - 1 ==> Precedes(w[i], w[i + 1])
  }

  ghost predicate Cycle(s: set<Txn>, w: seq<Txn>) { Walk(s, w) && |w| > 1 && w[0] == w[|w| - 1] }

  ghost predicate Acyclic(s: set<Txn>) { forall w :: !Cycle(s, w) }

  // ------------------------------------------------------------------
  // Without a cycle there is an order
  // ------------------------------------------------------------------

  lemma {:induction false} Pigeonhole<T>(s: set<T>, w: seq<T>) returns (i: nat, j: nat)
    requires |w| > |s| && forall k :: 0 <= k < |w| ==> w[k] in s
    ensures i < j < |w| && w[i] == w[j]
    decreases |s|
  {
    var last := |w| - 1;
    if k :| 0 <= k < last && w[k] == w[last] {
      i, j := k, last;
    } else {
      i, j := Pigeonhole(s - {w[last]}, w[..last]);
    }
  }

  ghost predicate HasNext(s: set<Txn>, x: Txn) { exists y :: y in s && Precedes(x, y) }

  lemma {:induction false} LongWalk(s: set<Txn>, x: Txn, n: nat) returns (w: seq<Txn>)
    requires x in s && forall y :: y in s ==> HasNext(s, y)
    ensures Walk(s, w) && |w| == n + 1 && w[0] == x
    decreases n
  {
    hide Precedes;
    if n == 0 {
      w := [x];
    } else {
      var y :| y in s && Precedes(x, y);
      var rest := LongWalk(s, y, n - 1);
      w := [x] + rest;
    }
  }

  /** A part of a walk is a walk. */
  lemma WalkPart(s: set<Txn>, w: seq<Txn>, i: nat, j: nat)
    requires Walk(s, w) && i < j < |w| && w[i] == w[j]
    ensures Cycle(s, w[i..j + 1])
  {
    hide Precedes;
  }

  /** Where everybody has somebody to precede, a walk comes round. */
  lemma WalkComesRound(s: set<Txn>) returns (w: seq<Txn>)
    requires s != {} && forall y :: y in s ==> HasNext(s, y)
    ensures Cycle(s, w)
  {
    hide Precedes, HasNext, Cycle;
    var y :| y in s;
    var long := LongWalk(s, y, |s|);
    var i, j := Pigeonhole(s, long);
    WalkPart(s, long, i, j);
    w := long[i..j + 1];
  }

  /** Somebody reads nothing that another one writes. */
  lemma LastExists(s: set<Txn>) returns (x: Txn)
    requires s != {} && Acyclic(s)
    ensures x in s && !HasNext(s, x)
  {
    hide HasNext, Cycle;
    if forall y :: y in s ==> HasNext(s, y) {
      var w := WalkComesRound(s);
    }
    x :| x in s && !HasNext(s, x);
  }

  lemma SubsetAcyclic(s: set<Txn>, s': set<Txn>)
    requires Acyclic(s) && s' <= s
    ensures Acyclic(s')
  {
    hide Precedes;
    forall w
      ensures !Cycle(s', w)
    {
      assert !Cycle(s, w);
    }
  }

  ghost predicate DisjointMembers(s: set<Txn>) {
    forall x, y :: x in s && y in s && x != y ==> !Overlap(x, y)
  }

  /** Each member once. */
  ghost predicate Orders(order: seq<Txn>, s: set<Txn>) {
    multiset(order) == multiset(s)
  }

  lemma {:induction false} OrderExists(s: set<Txn>) returns (order: seq<Txn>)
    requires Acyclic(s) && DisjointMembers(s)
    ensures Orders(order, s) && ConflictFree(order)
    decreases |s|
  {
    if s == {} {
      order := [];
    } else {
      var x := LastExists(s);
      SubsetAcyclic(s, s - {x});
      var front := OrderExists(s - {x});
      order := front + [x];
      assert s == (s - {x}) + {x};
      OrdersMember(front, s - {x});
      hide Acyclic, Feeds, Overlap, ConflictFree;
      forall y | y in front
        ensures Apart(y, x)
      {
        assert y in s - {x};
        assert !Precedes(x, y);
      }
      OneIsConflictFree(x);
      ConflictFreeConcat(front, [x]);
    }
  }

  lemma OneIsConflictFree(x: Txn)
    ensures ConflictFree([x])
  {}

  lemma OrdersMember(order: seq<Txn>, s: set<Txn>)
    requires Orders(order, s)
    ensures forall x :: x in order <==> x in s
  {
    assert forall x :: x in order <==> x in multiset(order);
  }

  // ------------------------------------------------------------------
  // With an order there is no cycle
  // ------------------------------------------------------------------

  lemma OrdersDistinct(order: seq<Txn>, s: set<Txn>, i: nat, j: nat)
    requires Orders(order, s) && i < j < |order|
    ensures order[i] != order[j]
  {
    var x := order[i];
    assert order == order[..j] + [order[j]] + order[j + 1..];
    assert order[..j][i] == x;
    assert multiset(order)[x] == multiset(order[..j])[x] + multiset([order[j]])[x] + multiset(order[j + 1..])[x];
    assert multiset(s)[x] <= 1;
  }

  /** Who reads what another writes stands before it. */
  lemma StandsBefore(order: seq<Txn>, s: set<Txn>, i: nat, j: nat)
    requires Orders(order, s) && ConflictFree(order) && i < |order| && j < |order| && Precedes(order[i], order[j])
    ensures i < j
  {}

  /** Along a walk the places in the order grow. */
  lemma {:induction false} PlacesGrow(order: seq<Txn>, s: set<Txn>, w: seq<Txn>, n: nat) returns (i: nat, j: nat)
    requires Orders(order, s) && ConflictFree(order) && Walk(s, w) && n < |w|
    ensures i < |order| && j < |order| && order[i] == w[0] && order[j] == w[n] && (if n == 0 then i == j else i < j)
    decreases n
  {
    OrdersMember(order, s);
    hide Precedes, ConflictFree, Orders;
    if n == 0 {
      assert w[0] in order;
      i :| 0 <= i < |order| && order[i] == w[0];
      j := i;
    } else {
      var k;
      i, k := PlacesGrow(order, s, w, n - 1);
      assert w[n] in order;
      j :| 0 <= j < |order| && order[j] == w[n];
      assert Precedes(w[n - 1], w[n - 1 + 1]);
      StandsBefore(order, s, k, j);
    }
  }

  lemma OrderMeansAcyclic(order: seq<Txn>, s: set<Txn>)
    requires Orders(order, s) && ConflictFree(order)
    ensures Acyclic(s)
  {
    hide Orders, ConflictFree, Walk;
    forall w
      ensures !Cycle(s, w)
    {
      if Cycle(s, w) {
        var i, j := PlacesGrow(order, s, w, |w| - 1);
        OrdersDistinct(order, s, i, j);
        assert false;
      }
    }
  }

  // ------------------------------------------------------------------
  // The committed transactions of a batch
  // ------------------------------------------------------------------

  lemma CommittedDisjointMembers(o: Options, batch: seq<Txn>)
    requires ValidBatch(batch) && IndexesReadOnly(batch)
    ensures DisjointMembers(Members(Committed(o, batch, batch)))
  {
    var c := Committed(o, batch, batch);
    CommittedDisjoint(o, batch);
    hide Overlap, Commits;
    forall x, y | x in Members(c) && y in Members(c) && x != y
      ensures !Overlap(x, y)
    {
      var i, j :| 0 <= i < |c| && 0 <= j < |c| && c[i] == x && c[j] == y;
      if i > j { OverlapSymmetric(x, y); }
    }
  }

  lemma OverlapSymmetric(x: Txn, y: Txn)
    ensures Overlap(x, y) == Overlap(y, x)
  {}

  /** The committed transactions have a conflict-free order if, and only if, they form no cycle. */
  lemma ConflictFreeIffAcyclic(o: Options, batch: seq<Txn>)
    requires ValidBatch(batch) && IndexesReadOnly(batch)
    ensures var c := Members(Committed(o, batch, batch));
            (exists order :: Orders(order, c) && ConflictFree(order)) <==> Acyclic(c)
  {
    var c := Members(Committed(o, batch, batch));
    CommittedDisjointMembers(o, batch);
    hide Orders, ConflictFree, Acyclic, DisjointMembers;
    if Acyclic(c) {
      var order := OrderExists(c);
    }
    if order :| Orders(order, c) && ConflictFree(order) {
      OrderMeansAcyclic(order, c);
    }
  }

  /** In any such order the committed transactions, run one by one, read what they read in the snapshot and leave its table. */
  lemma OrderIsSerial(o: Options, batch: seq<Txn>, t0: Table, t1: Table, order: seq<Txn>)
    requires AllReady(t0, batch) && Installed(t0, t1, Members(Committed(o, batch, batch)))
    requires Orders(order, Members(Committed(o, batch, batch))) && ConflictFree(order)
    ensures t1 == RunSerial(t0, order)
    ensures forall j :: 0 <= j < |order| ==> ReadValues(RunSerial(t0, order[..j]), order[j]) == ReadValues(t0, order[j])
  {
    var c := Members(Committed(o, batch, batch));
    OrdersMember(order, c);
    ConflictFreeParts(order);
    assert forall i :: 0 <= i < |order| ==> order[i] in c;
    assert Members(order) == c;
    OrderReady(batch, t0, order);
    hide Orders, ConflictFree, Commits, AllReady, NothingReadAfterWrite, DisjointWrites, Installed, RunSerial, ReadValues;
    SerialInstalls(t0, order);
    InstalledUnique(t0, t1, RunSerial(t0, order), c);
    forall j | 0 <= j < |order|
      ensures ReadValues(RunSerial(t0, order[..j]), order[j]) == ReadValues(t0, order[j])
    {
      SerialReads(t0, order, j);
    }
  }

  lemma OrderReady(batch: seq<Txn>, t0: Table, order: seq<Txn>)
    requires AllReady(t0, batch) && forall x :: x in order ==> x in batch
    ensures AllReady(t0, order)
  {
    forall i | 0 <= i < |order|
      ensures order[i].outcome(ReadValues(t0, order[i])).Ready?
    {
      assert order[i] in batch;
      var j :| 0 <= j < |batch| && batch[j] == order[i];
    }
  }

  /** With the switch off there never is a cycle. */
  lemma NeverCyclicWithout(o: Options, batch: seq<Txn>)
    requires !o.snapshotIsolation && ValidBatch(batch) && IndexesReadOnly(batch)
    ensures Acyclic(Members(Committed(o, batch, batch)))
  {
    var c := Committed(o, batch, batch);
    SerialOrderConflictFree(o, batch);
    SerialOrderIsPermutation(o, batch);
    CommittedAscending(o, batch, batch);
    hide SerialOrder, Committed, ConflictFree;
    AscendingOnce(c);
    OrderMeansAcyclic(SerialOrder(o, batch), Members(c));
  }

  lemma {:induction false} AscendingOnce(xs: seq<Txn>)
    requires Ascending(xs)
    ensures Orders(xs, Members(xs))
    decreases |xs|
  {
    if xs != [] {
      var front, last := xs[..|xs| - 1], xs[|xs| - 1];
      AscendingFront(xs);
      AscendingOnce(front);
      assert xs == front + [last];
      assert Members(xs) == Members(front) + {last};
    }
  }

  /** The two crossing copies are such a cycle. */
  lemma CrossingCopiesCycle(x: Txn, y: Txn)
    requires x == CopyTxn(1, 0, 1) && y == CopyTxn(2, 1, 0)
    ensures Cycle({x, y}, [x, y, x])
  {
    assert x.readSet[0].key == 0 && y.readSet[0].key == 1;
    assert y.WritesKey(0) && x.WritesKey(1);
    assert Feeds(y, x) && Feeds(x, y);
  }
}
