/**
 The dependency analysis and the commit rule Aria and PRDCC share, and why the
 transactions they let commit out of one batch are serializable.

 All transactions of a batch read one snapshot. They reserve the keys they
 access, and each is judged by the smallest reader and the smallest writer it
 finds on them.
 */
module Aria {
  import opened Transactions
  import opened AriaHelper

  /** The three switches of the context that the commit rule looks at. */
  datatype Options = Options(readOnlyOptimization: bool, snapshotIsolation: bool, reordering: bool)

  /** Ids start from 1 and fit their field, and grow along the batch. */
  ghost predicate ValidBatch(batch: seq<Txn>) {
    && (forall i :: 0 <= i < |batch| ==> 0 < batch[i].id < TS_LIMIT)
    && (forall i, j :: 0 <= i < j < |batch| ==> batch[i].id < batch[j].id)
  }

  /** Local indexes are read-only tables: what is read through one is not written. */
  ghost predicate IndexesReadOnly(batch: seq<Txn>) {
    forall i, j, k :: 0 <= i < |batch| && 0 <= j < |batch| && batch[i].ReadsIndex(k) ==> !batch[j].WritesKey(k)
  }

  predicate Reserves(o: Options, x: Txn) {
    !(o.readOnlyOptimization && x.ReadOnly())
  }

  /** The reserving members of `xs` that read, or write, `k`. */
  ghost function ReaderIds(o: Options, xs: set<Txn>, k: Key): set<nat> {
    set x | x in xs && Reserves(o, x) && x.Reads(k) :: x.id
  }

  ghost function WriterIds(o: Options, xs: set<Txn>, k: Key): set<nat> {
    set x | x in xs && Reserves(o, x) && x.WritesKey(k) :: x.id
  }

  // ------------------------------------------------------------------
  // What the three flags mean
  // ------------------------------------------------------------------

  /** `x` reads what a smaller id writes. */
  ghost predicate Raw(o: Options, batch: seq<Txn>, x: Txn) {
    exists y, k :: y in batch && Reserves(o, y) && y.id < x.id && y.WritesKey(k) && x.Reads(k)
  }

  /** `x` writes what a smaller id reads. */
  ghost predicate War(o: Options, batch: seq<Txn>, x: Txn) {
    exists y, k :: y in batch && Reserves(o, y) && y.id < x.id && y.Reads(k) && x.WritesKey(k)
  }

  /** `x` writes what a smaller id writes. */
  ghost predicate Waw(o: Options, batch: seq<Txn>, x: Txn) {
    exists y, k :: y in batch && Reserves(o, y) && y.id < x.id && y.WritesKey(k) && x.WritesKey(k)
  }

  /** The test the analysis makes on a timestamp of the word of a key. */
  predicate SmallerIn(w: Word, epoch: nat, ts: nat, id: nat) {
    GetEpoch(w) == epoch && ts < id && ts != 0
  }

  /** The minimum tells whether any smaller id is there at all. */
  lemma SmallerInWord(w: Word, epoch: nat, readers: set<nat>, writers: set<nat>, id: nat)
    requires Summarizes(w, epoch, readers, writers) && 0 !in readers && 0 !in writers
    ensures SmallerIn(w, epoch, GetRts(w), id) <==> exists r :: r in readers && r < id
    ensures SmallerIn(w, epoch, GetWts(w), id) <==> exists r :: r in writers && r < id
  {
    if readers != {} { assert GetRts(w) in readers; }
    if writers != {} { assert GetWts(w) in writers; }
  }

  /** The three tests on the words of its keys give a transaction its three flags. */
  lemma FlagsFromWords(o: Options, batch: seq<Txn>, x: Txn, epoch: nat, k: Key, w: Word)
    requires ValidBatch(batch)
    requires Summarizes(w, epoch, ReaderIds(o, Members(batch), k), WriterIds(o, Members(batch), k))
    ensures SmallerIn(w, epoch, GetWts(w), x.id) <==>
            exists y :: y in batch && Reserves(o, y) && y.id < x.id && y.WritesKey(k)
    ensures SmallerIn(w, epoch, GetRts(w), x.id) <==>
            exists y :: y in batch && Reserves(o, y) && y.id < x.id && y.Reads(k)
  {
    var readers, writers := ReaderIds(o, Members(batch), k), WriterIds(o, Members(batch), k);
    SmallerInWord(w, epoch, readers, writers, x.id);
    assert forall y :: y in batch && Reserves(o, y) && y.WritesKey(k) ==> y.id in writers;
    assert forall y :: y in batch && Reserves(o, y) && y.Reads(k) ==> y.id in readers;
  }

  // ------------------------------------------------------------------
  // The commit rule
  // ------------------------------------------------------------------

  predicate CommitRule(o: Options, readOnly: bool, raw: bool, war: bool, waw: bool) {
    if o.readOnlyOptimization && readOnly then true
    else if waw then false
    else if o.snapshotIsolation then true
    else if o.reordering then !war || !raw
    else !raw
  }

  ghost predicate Commits(o: Options, batch: seq<Txn>, x: Txn) {
    CommitRule(o, x.ReadOnly(), Raw(o, batch, x), War(o, batch, x), Waw(o, batch, x))
  }

  /** Some smaller id of the batch writes the key. */
  ghost predicate EarlierWriter(batch: seq<Txn>, x: Txn, k: Key) {
    exists y :: y in batch && y.id < x.id && k in y.writeSet
  }

  /** Some smaller id of the batch reads it; with the read-only switch one that writes nothing is not seen. */
  ghost predicate EarlierReader(o: Options, batch: seq<Txn>, x: Txn, k: Key) {
    exists y :: y in batch && y.id < x.id && y.Reads(k) && (o.readOnlyOptimization ==> y.writeSet != [])
  }

  /** What keeps a transaction of the batch from committing, in the accesses of the batch. */
  ghost predicate KeptOut(o: Options, batch: seq<Txn>, x: Txn) {
    || (exists k :: k in x.writeSet && EarlierWriter(batch, x, k))
    || (!o.snapshotIsolation && (exists k :: x.Reads(k) && EarlierWriter(batch, x, k))
        && (o.reordering ==> exists k :: k in x.writeSet && EarlierReader(o, batch, x, k)))
  }

  /** A transaction is refused for that reason, and for no other. */
  lemma RefusedIff(o: Options, batch: seq<Txn>, x: Txn)
    ensures (o.readOnlyOptimization && x.writeSet == []) ==> Commits(o, batch, x)
    ensures !(o.readOnlyOptimization && x.writeSet == []) ==> (!Commits(o, batch, x) <==> KeptOut(o, batch, x))
  {
    FlagsInAccesses(o, batch, x);
    hide Raw, War, Waw, EarlierWriter, EarlierReader;
    if exists k :: k in x.writeSet && EarlierWriter(batch, x, k) { assert Waw(o, batch, x); }
    if exists k :: x.Reads(k) && EarlierWriter(batch, x, k) { assert Raw(o, batch, x); }
  }

  lemma FlagsInAccesses(o: Options, batch: seq<Txn>, x: Txn)
    ensures Raw(o, batch, x) <==> exists k :: x.Reads(k) && EarlierWriter(batch, x, k)
    ensures War(o, batch, x) <==> exists k :: k in x.writeSet && EarlierReader(o, batch, x, k)
    ensures Waw(o, batch, x) <==> exists k :: k in x.writeSet && EarlierWriter(batch, x, k)
  {
    if k :| x.Reads(k) && EarlierWriter(batch, x, k) {
      var y :| y in batch && y.id < x.id && k in y.writeSet;
      assert Reserves(o, y) && y.WritesKey(k);
    }
    if k :| k in x.writeSet && EarlierWriter(batch, x, k) {
      var y :| y in batch && y.id < x.id && k in y.writeSet;
      assert Reserves(o, y) && y.WritesKey(k) && x.WritesKey(k);
    }
    if k :| k in x.writeSet && EarlierReader(o, batch, x, k) {
      var y :| y in batch && y.id < x.id && y.Reads(k) && (o.readOnlyOptimization ==> y.writeSet != []);
      assert Reserves(o, y) && x.WritesKey(k);
    }
    if Raw(o, batch, x) {
      var y, k :| y in batch && Reserves(o, y) && y.id < x.id && y.WritesKey(k) && x.Reads(k);
      assert EarlierWriter(batch, x, k);
    }
    if War(o, batch, x) {
      var y, k :| y in batch && Reserves(o, y) && y.id < x.id && y.Reads(k) && x.WritesKey(k);
      assert EarlierReader(o, batch, x, k);
    }
    if Waw(o, batch, x) {
      var y, k :| y in batch && Reserves(o, y) && y.id < x.id && y.WritesKey(k) && x.WritesKey(k);
      assert EarlierWriter(batch, x, k);
    }
  }

  /** The committed members of `xs`, in their order. */
  ghost function Committed(o: Options, batch: seq<Txn>, xs: seq<Txn>): (c: seq<Txn>)
    ensures forall x :: x in c <==> x in xs && Commits(o, batch, x)
  {
    if xs == [] then []
    else Committed(o, batch, xs[..|xs| - 1]) + (if Commits(o, batch, xs[|xs| - 1]) then [xs[|xs| - 1]] else [])
  }

  // ------------------------------------------------------------------
  // The serial order
  // ------------------------------------------------------------------

  /** Transactions that never reserve come before all others. */
  ghost function Unreserved(o: Options, xs: seq<Txn>): (c: seq<Txn>)
    ensures forall x :: x in c <==> x in xs && !Reserves(o, x)
  {
    if xs == [] then []
    else Unreserved(o, xs[..|xs| - 1]) + (if Reserves(o, xs[|xs| - 1]) then [] else [xs[|xs| - 1]])
  }

  ghost function Reserved(o: Options, xs: seq<Txn>): (c: seq<Txn>)
    ensures forall x :: x in c <==> x in xs && Reserves(o, x)
  {
    if xs == [] then []
    else Reserved(o, xs[..|xs| - 1]) + (if Reserves(o, xs[|xs| - 1]) then [xs[|xs| - 1]] else [])
  }

  /** The largest id goes last when it read nothing written before it, and first when it did. */
  ghost function Arrange(o: Options, batch: seq<Txn>, xs: seq<Txn>): (c: seq<Txn>)
    ensures |c| == |xs|
    ensures forall x :: x in c <==> x in xs
  {
    if xs == [] then []
    else
      var rest, last := Arrange(o, batch, xs[..|xs| - 1]), xs[|xs| - 1];
      assert xs == xs[..|xs| - 1] + [last];
      if Raw(o, batch, last) then [last] + rest else rest + [last]
  }

  ghost function SerialOrder(o: Options, batch: seq<Txn>): seq<Txn> {
    var c := Committed(o, batch, batch);
    Unreserved(o, c) + Arrange(o, batch, Reserved(o, c))
  }

  ghost predicate Ascending(xs: seq<Txn>) {
    forall i, j :: 0 <= i < j < |xs| ==> xs[i].id < xs[j].id
  }

  lemma AscendingAppend(xs: seq<Txn>, last: Txn)
    requires Ascending(xs) && forall x :: x in xs ==> x.id < last.id
    ensures Ascending(xs + [last])
  {}

  lemma AscendingFront(xs: seq<Txn>)
    requires Ascending(xs) && xs != []
    ensures Ascending(xs[..|xs| - 1])
    ensures forall x :: x in xs[..|xs| - 1] ==> x.id < xs[|xs| - 1].id
  {}

  lemma {:induction false} CommittedAscending(o: Options, batch: seq<Txn>, xs: seq<Txn>)
    requires Ascending(xs)
    ensures Ascending(Committed(o, batch, xs))
    decreases |xs|
  {
    if xs != [] {
      AscendingFront(xs);
      CommittedAscending(o, batch, xs[..|xs| - 1]);
      AscendingAppend(Committed(o, batch, xs[..|xs| - 1]), xs[|xs| - 1]);
    }
  }

  lemma {:induction false} ReservedAscending(o: Options, xs: seq<Txn>)
    requires Ascending(xs)
    ensures Ascending(Reserved(o, xs))
    decreases |xs|
  {
    if xs != [] {
      AscendingFront(xs);
      ReservedAscending(o, xs[..|xs| - 1]);
      AscendingAppend(Reserved(o, xs[..|xs| - 1]), xs[|xs| - 1]);
    }
  }

  /** Two transactions that both reserved: a conflict between them shows in a flag of the larger id. */
  lemma LargerFlagged(o: Options, batch: seq<Txn>, x: Txn, y: Txn)
    requires IndexesReadOnly(batch)
    requires x in batch && y in batch && x.id < y.id && Reserves(o, x) && Reserves(o, y)
    ensures Overlap(x, y) ==> Waw(o, batch, y)
    ensures Feeds(y, x) ==> War(o, batch, y)
    ensures Feeds(x, y) ==> Raw(o, batch, y)
  {
    if Feeds(y, x) { ReadsNotIndexed(batch, y, x); }
    if Feeds(x, y) { ReadsNotIndexed(batch, x, y); }
  }

  lemma ReadsNotIndexed(batch: seq<Txn>, x: Txn, y: Txn)
    requires IndexesReadOnly(batch) && x in batch && y in batch && Feeds(x, y)
    ensures exists k :: x.WritesKey(k) && y.Reads(k)
  {
    var p :| 0 <= p < |y.readSet| && x.WritesKey(y.readSet[p].key);
    var k := y.readSet[p].key;
    if y.readSet[p].localIndex {
      assert y.readSet[p] == ReadKey(k, true);
      assert y.ReadsIndex(k);
    } else {
      assert y.readSet[p] == ReadKey(k, false);
      assert y.Reads(k);
    }
  }

  ghost predicate Apart(x: Txn, y: Txn) { !Feeds(x, y) && !Overlap(x, y) }

  ghost predicate ConflictFree(xs: seq<Txn>) {
    forall i, j :: 0 <= i < j < |xs| ==> Apart(xs[i], xs[j])
  }

  lemma ConflictFreeConcat(a: seq<Txn>, b: seq<Txn>)
    requires ConflictFree(a) && ConflictFree(b)
    requires forall x, y :: x in a && y in b ==> Apart(x, y)
    ensures ConflictFree(a + b)
  {
    forall i, j | 0 <= i < j < |a + b|
      ensures Apart((a + b)[i], (a + b)[j])
    {
      if i < |a| <= j { assert a[i] in a && b[j - |a|] in b; }
    }
  }

  lemma {:induction false} ArrangeConflictFree(o: Options, batch: seq<Txn>, xs: seq<Txn>)
    requires !o.snapshotIsolation && IndexesReadOnly(batch) && Ascending(xs)
    requires forall x :: x in xs ==> x in batch && Reserves(o, x) && Commits(o, batch, x)
    ensures ConflictFree(Arrange(o, batch, xs))
    decreases |xs|
  {
    if xs != [] {
      var front, last := xs[..|xs| - 1], xs[|xs| - 1];
      AscendingFront(xs);
      ArrangeConflictFree(o, batch, front);
      var rest := Arrange(o, batch, front);
      assert last in xs && Commits(o, batch, last);
      forall x | x in rest
        ensures if Raw(o, batch, last) then Apart(last, x) else Apart(x, last)
      {
        LargerFlagged(o, batch, x, last);
      }
      if Raw(o, batch, last) {
        ConflictFreeConcat([last], rest);
      } else {
        ConflictFreeConcat(rest, [last]);
      }
    }
  }

  lemma UnreservedApart(o: Options, xs: seq<Txn>)
    ensures ConflictFree(Unreserved(o, xs))
    ensures forall x, y :: x in Unreserved(o, xs) ==> Apart(x, y)
  {
    forall x, y | x in Unreserved(o, xs)
      ensures Apart(x, y)
    {
      assert x.ReadOnly();
    }
  }

  lemma SerialOrderConflictFree(o: Options, batch: seq<Txn>)
    requires !o.snapshotIsolation && ValidBatch(batch) && IndexesReadOnly(batch)
    ensures ConflictFree(SerialOrder(o, batch))
  {
    var c := Committed(o, batch, batch);
    CommittedAscending(o, batch, batch);
    ReservedAscending(o, c);
    ArrangeConflictFree(o, batch, Reserved(o, c));
    UnreservedApart(o, c);
    ConflictFreeConcat(Unreserved(o, c), Arrange(o, batch, Reserved(o, c)));
  }

  lemma SplitStep(o: Options, xs: seq<Txn>)
    ensures xs == [] ==> Unreserved(o, xs) == [] && Reserved(o, xs) == []
    ensures xs != [] ==>
              var front, last := xs[..|xs| - 1], xs[|xs| - 1];
              && xs == front + [last]
              && Unreserved(o, xs) == Unreserved(o, front) + (if Reserves(o, last) then [] else [last])
              && Reserved(o, xs) == Reserved(o, front) + (if Reserves(o, last) then [last] else [])
  {}

  lemma CountConcat(a: seq<Txn>, b: seq<Txn>, x: Txn)
    ensures multiset(a + b)[x] == multiset(a)[x] + multiset(b)[x]
  {}

  lemma {:induction false} SplitCounts(o: Options, xs: seq<Txn>, x: Txn)
    ensures multiset(Unreserved(o, xs))[x] + multiset(Reserved(o, xs))[x] == multiset(xs)[x]
    decreases |xs|
  {
    hide *;
    SplitStep(o, xs);
    if xs != [] {
      var front, last := xs[..|xs| - 1], xs[|xs| - 1];
      SplitCounts(o, front, x);
      CountConcat(front, [last], x);
      CountConcat(Unreserved(o, front), if Reserves(o, last) then [] else [last], x);
      CountConcat(Reserved(o, front), if Reserves(o, last) then [last] else [], x);
    }
  }

  lemma SplitIsPermutation(o: Options, xs: seq<Txn>)
    ensures multiset(Unreserved(o, xs) + Reserved(o, xs)) == multiset(xs)
  {
    hide *;
    forall x
      ensures multiset(Unreserved(o, xs) + Reserved(o, xs))[x] == multiset(xs)[x]
    {
      SplitCounts(o, xs, x);
      CountConcat(Unreserved(o, xs), Reserved(o, xs), x);
    }
  }

  lemma {:induction false} ArrangeIsPermutation(o: Options, batch: seq<Txn>, xs: seq<Txn>)
    ensures multiset(Arrange(o, batch, xs)) == multiset(xs)
    decreases |xs|
  {
    if xs != [] {
      ArrangeIsPermutation(o, batch, xs[..|xs| - 1]);
      assert xs == xs[..|xs| - 1] + [xs[|xs| - 1]];
    }
  }

  /** The serial order runs each committed transaction once, and no other. */
  lemma SerialOrderIsPermutation(o: Options, batch: seq<Txn>)
    ensures multiset(SerialOrder(o, batch)) == multiset(Committed(o, batch, batch))
    ensures forall x :: x in SerialOrder(o, batch) <==> x in batch && Commits(o, batch, x)
  {
    var c := Committed(o, batch, batch);
    SplitIsPermutation(o, c);
    ArrangeIsPermutation(o, batch, Reserved(o, c));
  }

  lemma {:induction false} AllReserved(o: Options, xs: seq<Txn>)
    requires !o.readOnlyOptimization
    ensures Unreserved(o, xs) == [] && Reserved(o, xs) == xs
    decreases |xs|
  {
    if xs != [] {
      AllReserved(o, xs[..|xs| - 1]);
      hide Reserves;
      assert xs == xs[..|xs| - 1] + [xs[|xs| - 1]];
    }
  }

  lemma {:induction false} ArrangedById(o: Options, batch: seq<Txn>, xs: seq<Txn>)
    requires forall x :: x in xs ==> !Raw(o, batch, x)
    ensures Arrange(o, batch, xs) == xs
    decreases |xs|
  {
    if xs != [] {
      assert xs[|xs| - 1] in xs;
      ArrangedById(o, batch, xs[..|xs| - 1]);
    }
  }

  /** Without the reordering and the read-only switch it is the order of the ids. */
  lemma IdOrderWithoutReordering(o: Options, batch: seq<Txn>)
    requires !o.reordering && !o.readOnlyOptimization && !o.snapshotIsolation
    ensures SerialOrder(o, batch) == Committed(o, batch, batch)
  {
    var c := Committed(o, batch, batch);
    AllReserved(o, c);
    ArrangedById(o, batch, c);
  }

  /**
   Batch serializability. The table that holds exactly the committed writes,
   computed from the snapshot, is the table of running the committed
   transactions one by one, and each of them reads in that serial run what it
   read in the snapshot.
   */
  lemma BatchSerializable(o: Options, batch: seq<Txn>, t0: Table, t1: Table)
    requires !o.snapshotIsolation && ValidBatch(batch) && IndexesReadOnly(batch) && AllReady(t0, batch)
    requires Installed(t0, t1, Members(Committed(o, batch, batch)))
    ensures t1 == RunSerial(t0, SerialOrder(o, batch))
    ensures forall j :: 0 <= j < |SerialOrder(o, batch)| ==>
              ReadValues(RunSerial(t0, SerialOrder(o, batch)[..j]), SerialOrder(o, batch)[j])
              == ReadValues(t0, SerialOrder(o, batch)[j])
  {
    var order := SerialOrder(o, batch);
    SerialOrderConflictFree(o, batch);
    SerialOrderIsPermutation(o, batch);
    ConflictFreeParts(order);
    assert AllReady(t0, order) by {
      forall i | 0 <= i < |order|
        ensures order[i].outcome(ReadValues(t0, order[i])).Ready?
      {
        assert order[i] in batch;
      }
    }
    SerialInstalls(t0, order);
    assert Members(order) == Members(Committed(o, batch, batch));
    InstalledUnique(t0, t1, RunSerial(t0, order), Members(order));
    forall j | 0 <= j < |order|
      ensures ReadValues(RunSerial(t0, order[..j]), order[j]) == ReadValues(t0, order[j])
    {
      SerialReads(t0, order, j);
    }
  }

  lemma ConflictFreeParts(xs: seq<Txn>)
    requires ConflictFree(xs)
    ensures NothingReadAfterWrite(xs) && DisjointWrites(xs)
  {
    forall i, j | 0 <= i < j < |xs|
      ensures !Feeds(xs[i], xs[j]) && !Overlap(xs[i], xs[j])
    {
      assert Apart(xs[i], xs[j]);
    }
  }

  /** The smallest id of a batch always commits, so every batch makes progress. */
  lemma SmallestCommits(o: Options, batch: seq<Txn>)
    requires ValidBatch(batch) && |batch| > 0
    ensures Commits(o, batch, batch[0])
  {
    assert forall y :: y in batch ==> batch[0].id <= y.id;
  }

  // ------------------------------------------------------------------
  // Committing in parallel: the workers' single writes in any interleaving
  // ------------------------------------------------------------------

  /** `done[i]` writes of the i-th committed transaction have been made. */
  datatype Finalizing = Finalizing(table: Table, done: seq<nat>)

  ghost predicate WriteStep(t0: Table, c: seq<Txn>, s: Finalizing, s': Finalizing, i: nat) {
    && i < |c| && |s.done| == |c| && s.done[i] < |c[i].writeSet|
    && s' == Finalizing(s.table[c[i].writeSet[s.done[i]] := c[i].output(ReadValues(t0, c[i]), s.done[i])],
                        s.done[i := s.done[i] + 1])
  }

  ghost predicate Progress(c: seq<Txn>, done: seq<nat>) {
    |done| == |c| && forall i :: 0 <= i < |c| ==> done[i] <= |c[i].writeSet|
  }

  ghost predicate WrittenSoFar(c: seq<Txn>, done: seq<nat>, i: nat, k: Key)
    requires Progress(c, done) && i < |c|
  {
    k in c[i].writeSet[..done[i]]
  }

  ghost predicate FinalizingAt(t0: Table, c: seq<Txn>, s: Finalizing, k: Key)
    requires Progress(c, s.done)
  {
    && (forall i :: 0 <= i < |c| && WrittenSoFar(c, s.done, i, k) ==>
          k in s.table && s.table[k] == EffectPrefix(c[i], ReadValues(t0, c[i]), s.done[i])[k])
    && ((forall i :: 0 <= i < |c| ==> !WrittenSoFar(c, s.done, i, k)) ==>
          (k in s.table <==> k in t0) && (k in t0 ==> s.table[k] == t0[k]))
  }

  ghost predicate FinalizingInv(t0: Table, c: seq<Txn>, s: Finalizing) {
    Progress(c, s.done) && forall k :: FinalizingAt(t0, c, s, k)
  }

  lemma WriteStepKeepsInv(t0: Table, c: seq<Txn>, s: Finalizing, s': Finalizing, i: nat)
    requires DisjointWrites(c) && FinalizingInv(t0, c, s) && WriteStep(t0, c, s, s', i)
    ensures FinalizingInv(t0, c, s')
  {
    var d := s.done[i];
    var written := c[i].writeSet[d];
    assert c[i].writeSet[..d + 1] == c[i].writeSet[..d] + [written];
    forall k
      ensures FinalizingAt(t0, c, s', k)
    {
      assert FinalizingAt(t0, c, s, k);
      assert WrittenSoFar(c, s'.done, i, k) <==> k == written || WrittenSoFar(c, s.done, i, k);
      forall j | 0 <= j < |c| && j != i
        ensures WrittenSoFar(c, s'.done, j, k) == WrittenSoFar(c, s.done, j, k)
        ensures k == written ==> !WrittenSoFar(c, s.done, j, k)
      {
        if i < j { assert !Overlap(c[i], c[j]); } else { assert !Overlap(c[j], c[i]); }
        assert k in c[j].writeSet[..s.done[j]] ==> c[j].WritesKey(k);
        assert c[i].WritesKey(written);
      }
    }
  }

  ghost predicate SomeWriteStep(t0: Table, c: seq<Txn>, s: Finalizing, s': Finalizing) {
    exists i: nat :: WriteStep(t0, c, s, s', i)
  }

  ghost predicate FinalizeRun(t0: Table, c: seq<Txn>, run: seq<Finalizing>) {
    && |run| > 0 && run[0] == Finalizing(t0, seq(|c|, _ => 0))
    && forall n :: 0 <= n < |run| - 1 ==> SomeWriteStep(t0, c, run[n], run[n + 1])
  }

  ghost predicate FinalizeOver(c: seq<Txn>, s: Finalizing) {
    |s.done| == |c| && forall i :: 0 <= i < |c| ==> s.done[i] == |c[i].writeSet|
  }

  lemma {:induction false} FinalizeRunKeepsInv(t0: Table, c: seq<Txn>, run: seq<Finalizing>, n: nat)
    requires DisjointWrites(c) && FinalizeRun(t0, c, run) && n < |run|
    ensures FinalizingInv(t0, c, run[n])
    decreases n
  {
    if n > 0 {
      FinalizeRunKeepsInv(t0, c, run, n - 1);
      assert SomeWriteStep(t0, c, run[n - 1], run[n - 1 + 1]);
      var i: nat :| WriteStep(t0, c, run[n - 1], run[n], i);
      WriteStepKeepsInv(t0, c, run[n - 1], run[n], i);
    }
  }

  lemma CommittedDisjoint(o: Options, batch: seq<Txn>)
    requires ValidBatch(batch)
    requires IndexesReadOnly(batch)
    ensures DisjointWrites(Committed(o, batch, batch))
  {
    var c := Committed(o, batch, batch);
    CommittedAscending(o, batch, batch);
    forall i, j | 0 <= i < j < |c|
      ensures !Overlap(c[i], c[j])
    {
      assert c[i] in c && c[j] in c && c[i].id < c[j].id;
      if Reserves(o, c[i]) && Reserves(o, c[j]) {
        LargerFlagged(o, batch, c[i], c[j]);
      }
    }
  }

  /** However the workers interleave their writes, the committed transactions end up installed. */
  lemma FinalizeInterleavingsInstall(o: Options, batch: seq<Txn>, t0: Table, run: seq<Finalizing>)
    requires ValidBatch(batch) && IndexesReadOnly(batch)
    requires FinalizeRun(t0, Committed(o, batch, batch), run)
    requires FinalizeOver(Committed(o, batch, batch), run[|run| - 1])
    ensures Installed(t0, run[|run| - 1].table, Members(Committed(o, batch, batch)))
  {
    var c, s := Committed(o, batch, batch), run[|run| - 1];
    CommittedDisjoint(o, batch);
    FinalizeRunKeepsInv(t0, c, run, |run| - 1);
    forall i | 0 <= i < |c|
      ensures c[i].writeSet[..s.done[i]] == c[i].writeSet
    {}
    forall k
      ensures InstalledAt(t0, s.table, Members(c), k)
    {
      assert FinalizingAt(t0, c, s, k);
      forall x | x in Members(c) && x.WritesKey(k)
        ensures k in s.table && s.table[k] == Effect(x, ReadValues(t0, x))[k]
      {
        var i :| 0 <= i < |c| && c[i] == x;
        assert WrittenSoFar(c, s.done, i, k);
      }
      if !SomeWriter(Members(c), k) {
        forall i | 0 <= i < |c| ensures !WrittenSoFar(c, s.done, i, k) { assert c[i] in Members(c); }
      }
    }
  }

  // ------------------------------------------------------------------
  // The snapshot-isolation switch
  // ------------------------------------------------------------------

  function CopyTxn(id: nat, source: Key, target: Key): Txn {
    Txn(id, [ReadKey(source, false)], [target], vs => Ready, (vs: seq<Value>, i) => if |vs| == 1 then vs[0] else DEFAULT_VALUE)
  }

  lemma CopyTxnCopies(t: Table, id: nat, source: Key, target: Key)
    ensures Execute(t, CopyTxn(id, source, target)) == t[target := Lookup(t, source)]
    ensures Effect(CopyTxn(id, source, target), ReadValues(t, CopyTxn(id, source, target))) == map[target := Lookup(t, source)]
    ensures forall k :: CopyTxn(id, source, target).WritesKey(k) <==> k == target
  {
    var x := CopyTxn(id, source, target);
    var vs := ReadValues(t, x);
    assert EffectPrefix(x, vs, 0) == map[];
    assert EffectPrefix(x, vs, 1) == map[target := vs[0]];
    assert t + map[target := vs[0]] == t[target := vs[0]];
  }

  /** With that switch on, two crossing copies commit together. */
  lemma CrossingCopiesCommit(o: Options, x: Txn, y: Txn)
    requires o.snapshotIsolation && x == CopyTxn(1, 0, 1) && y == CopyTxn(2, 1, 0)
    ensures Commits(o, [x, y], x) && Commits(o, [x, y], y)
  {
    CopyTxnCopies(map[], 1, 0, 1);
    CopyTxnCopies(map[], 2, 1, 0);
  }

  /** And no serial order of them does what they do. */
  lemma SnapshotIsolationWriteSkew(t1: Table, x: Txn, y: Txn, t0: Table)
    requires x == CopyTxn(1, 0, 1) && y == CopyTxn(2, 1, 0) && t0 == map[0 := 10, 1 := 20]
    requires Installed(t0, t1, {x, y})
    ensures t1 != RunSerial(t0, [x, y]) && t1 != RunSerial(t0, [y, x])
  {
    CopyTxnCopies(t0, 1, 0, 1);
    CopyTxnCopies(t0, 2, 1, 0);
    assert InstalledAt(t0, t1, {x, y}, 0) && InstalledAt(t0, t1, {x, y}, 1);
    assert x in {x, y} && y in {x, y};
    assert t1[0] == 20 && t1[1] == 10;
    RunSerialTwo(t0, x, y);
    RunSerialTwo(t0, y, x);
    CopyTxnCopies(Execute(t0, x), 2, 1, 0);
    CopyTxnCopies(Execute(t0, y), 1, 0, 1);
  }

  lemma RunSerialTwo(t: Table, x: Txn, y: Txn)
    ensures RunSerial(t, [x, y]) == Execute(Execute(t, x), y)
  {
    assert [x, y][..1] == [x] && [x][..0] == [];
    assert RunSerial(t, [x]) == Execute(RunSerial(t, []), x);
  }
}
