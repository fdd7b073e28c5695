/**
 Strict two-phase locking without waiting: a transaction that is refused a lock goes on
 to the end of its procedure and then aborts. In any interleaving of the workers the
 table is that of running the committed transactions one by one in the order in which
 they decided to commit.
 */
module TwoPL {
  import opened Transactions

  // ------------------------------------------------------------------
  // Commit tids
  // ------------------------------------------------------------------

  function MaxOf(tids: seq<nat>, least: nat): (m: nat)
    ensures m >= least && forall i :: 0 <= i < |tids| ==> tids[i] <= m
    ensures m == least || m in tids
  {
    if tids == [] then least
    else
      var m := MaxOf(tids[..|tids| - 1], least);
      if tids[|tids| - 1] > m then tids[|tids| - 1] else m
  }

  class TidGenerator {
    var maxTid: nat

    constructor ()
      ensures maxTid == 0
    {
      maxTid := 0;
    }

    /** Larger than the tid of any record read, and than this worker's last one; and no larger than needed. */
    method GenerateTid(readTids: seq<nat>) returns (nextTid: nat)
      modifies this
      ensures nextTid == MaxOf(readTids, old(maxTid)) + 1 && maxTid == nextTid
    {
      nextTid := 0;
      for i := 0 to |readTids|
        invariant nextTid == MaxOf(readTids[..i], 0)
      {
        assert readTids[..i + 1][..i] == readTids[..i];
        nextTid := if nextTid > readTids[i] then nextTid else readTids[i];
      }
      assert readTids[..|readTids|] == readTids;
      MaxTogether(readTids, maxTid);
      nextTid := if nextTid > maxTid then nextTid else maxTid;
      nextTid := nextTid + 1;
      maxTid := nextTid;
    }
  }

  lemma {:induction false} MaxTogether(tids: seq<nat>, least: nat)
    ensures MaxOf(tids, least) == if MaxOf(tids, 0) > least then MaxOf(tids, 0) else least
    decreases |tids|
  {
    if tids != [] { MaxTogether(tids[..|tids| - 1], least); }
  }

  // ------------------------------------------------------------------
  // The workers
  // ------------------------------------------------------------------

  /** One entry of the read set: not yet asked for, refused, locked, locked and read, or released again. */
  datatype Slot = Waiting | Refused | Locked | Got(value: Value, tid: nat) | Freed

  datatype Phase =
    | Running
    | Committing(values: seq<Value>, tid: nat, written: nat)
    | Aborting
    | Done

  /** One execution of a transaction by a worker. A retry is another attempt. */
  datatype Attempt = Attempt(txn: Txn, worker: nat, slots: seq<Slot>, abortLock: bool, phase: Phase)

  /** `order` remembers the transactions in the order in which they decided to commit. */
  datatype State = State(
    table: Table,
    tids: map<Key, nat>,
    maxTids: map<nat, nat>,
    attempts: seq<Attempt>,
    order: seq<Txn>)

  function TidOf(s: State, k: Key): nat { if k in s.tids then s.tids[k] else 0 }

  function MaxTidOf(s: State, w: nat): nat { if w in s.maxTids then s.maxTids[w] else 0 }

  predicate Indexed(x: Txn, p: nat)
    requires p < |x.readSet|
  {
    x.readSet[p].localIndex
  }

  /** What is read in order to be written is locked for writing. */
  predicate ForWrite(x: Txn, p: nat)
    requires p < |x.readSet|
  {
    !x.readSet[p].localIndex && x.readSet[p].key in x.writeSet
  }

  /** All writes are updates of distinct records, and indexes are read-only. */
  ghost predicate ValidTxn(x: Txn, indexKeys: set<Key>) {
    && DistinctWrites(x)
    && (forall q :: 0 <= q < |x.writeSet| ==> x.Reads(x.writeSet[q]) && x.writeSet[q] !in indexKeys)
    && (forall p :: 0 <= p < |x.readSet| && Indexed(x, p) ==> x.readSet[p].key in indexKeys)
  }

  predicate Holds(a: Attempt, p: int, k: Key) {
    && 0 <= p < |a.slots| && |a.slots| == |a.txn.readSet| && (a.slots[p].Locked? || a.slots[p].Got?)
    && !Indexed(a.txn, p) && a.txn.readSet[p].key == k
  }

  predicate HoldsForWrite(a: Attempt, p: int, k: Key) {
    Holds(a, p, k) && ForWrite(a.txn, p)
  }

  /** Nobody holds the key's lock. */
  ghost predicate Free(s: State, k: Key) {
    forall i, p :: 0 <= i < |s.attempts| ==> !Holds(s.attempts[i], p, k)
  }

  ghost predicate NotWriteLocked(s: State, k: Key) {
    forall i, p :: 0 <= i < |s.attempts| ==> !HoldsForWrite(s.attempts[i], p, k)
  }

  ghost predicate AllGot(a: Attempt) {
    forall p :: 0 <= p < |a.slots| ==> a.slots[p].Got?
  }

  function SlotValue(s: Slot): Value { if s.Got? then s.value else DEFAULT_VALUE }

  function SlotTid(s: Slot): nat { if s.Got? then s.tid else 0 }

  function ValuesOf(a: Attempt): (vs: seq<Value>)
    ensures |vs| == |a.slots| && forall p :: 0 <= p < |vs| ==> vs[p] == SlotValue(a.slots[p])
  {
    seq(|a.slots|, p requires 0 <= p < |a.slots| => SlotValue(a.slots[p]))
  }

  function TidsOf(a: Attempt): (ts: seq<nat>)
    ensures |ts| == |a.slots| && forall p :: 0 <= p < |ts| ==> ts[p] == SlotTid(a.slots[p])
  {
    seq(|a.slots|, p requires 0 <= p < |a.slots| => SlotTid(a.slots[p]))
  }

  // ------------------------------------------------------------------
  // The steps
  // ------------------------------------------------------------------

  /** A worker takes up a transaction. */
  ghost predicate Start(s: State, s': State, x: Txn, w: nat, indexKeys: set<Key>) {
    && ValidTxn(x, indexKeys)
    && s' == s.(attempts := s.attempts + [Attempt(x, w, seq(|x.readSet|, _ => Waiting), false, Running)])
  }

  ghost predicate CanUse(s: State, i: nat, p: nat, slot: Slot) {
    && i < |s.attempts| && s.attempts[i].phase.Running?
    && p < |s.attempts[i].slots| && |s.attempts[i].slots| == |s.attempts[i].txn.readSet| && s.attempts[i].slots[p] == slot
  }

  /** A lock is granted: to a writer when nobody holds it, to a reader when no writer does. */
  ghost predicate Grant(s: State, s': State, i: nat, p: nat) {
    && CanUse(s, i, p, Waiting)
    && var a := s.attempts[i];
       && (if Indexed(a.txn, p) then true
           else if ForWrite(a.txn, p) then Free(s, a.txn.readSet[p].key)
           else NotWriteLocked(s, a.txn.readSet[p].key))
       && s' == s.(attempts := s.attempts[i := a.(slots := a.slots[p := Locked])])
  }

  /** A lock is refused: it is held, there are too many readers, or the swap lost a race. */
  ghost predicate Refuse(s: State, s': State, i: nat, p: nat) {
    && CanUse(s, i, p, Waiting) && !Indexed(s.attempts[i].txn, p)
    && var a := s.attempts[i];
       s' == s.(attempts := s.attempts[i := a.(slots := a.slots[p := Refused], abortLock := true)])
  }

  /** The value and the tid are copied under the lock. */
  ghost predicate Read(s: State, s': State, i: nat, p: nat) {
    && CanUse(s, i, p, Locked)
    && var a := s.attempts[i];
       var k := a.txn.readSet[p].key;
       s' == s.(attempts := s.attempts[i := a.(slots := a.slots[p := Got(Lookup(s.table, k), TidOf(s, k))])])
  }

  /** The procedure is over; a transaction that was refused a lock, or gives up itself, aborts. */
  ghost predicate DecideAbort(s: State, s': State, i: nat) {
    && i < |s.attempts| && s.attempts[i].phase.Running?
    && (s.attempts[i].abortLock || (AllGot(s.attempts[i]) && !s.attempts[i].txn.outcome(ValuesOf(s.attempts[i])).Ready?))
    && s' == s.(attempts := s.attempts[i := s.attempts[i].(phase := Aborting)])
  }

  ghost predicate CanCommit(a: Attempt) {
    && a.phase.Running? && !a.abortLock && AllGot(a) && a.txn.outcome(ValuesOf(a)).Ready?
  }

  ghost predicate DecideCommit(s: State, s': State, i: nat) {
    && i < |s.attempts| && CanCommit(s.attempts[i])
    && var a := s.attempts[i];
       var tid := MaxOf(TidsOf(a), MaxTidOf(s, a.worker)) + 1;
       && s'.table == s.table && s'.tids == s.tids && s'.maxTids == s.maxTids[a.worker := tid]
       && s'.attempts == s.attempts[i := a.(phase := Committing(ValuesOf(a), tid, 0))]
       && s'.order == s.order + [a.txn]
  }

  ghost predicate Write(s: State, s': State, i: nat) {
    && i < |s.attempts| && s.attempts[i].phase.Committing?
    && var a, c := s.attempts[i], s.attempts[i].phase;
       && c.written < |a.txn.writeSet|
       && s' == s.(table := s.table[a.txn.writeSet[c.written] := a.txn.output(c.values, c.written)],
                   attempts := s.attempts[i := a.(phase := c.(written := c.written + 1))])
  }

  /** Everything is written; a read lock goes. */
  ghost predicate ReleaseRead(s: State, s': State, i: nat, p: nat) {
    && i < |s.attempts| && s.attempts[i].phase.Committing? && s.attempts[i].phase.written == |s.attempts[i].txn.writeSet|
    && var a := s.attempts[i];
       && p < |a.slots| && |a.slots| == |a.txn.readSet| && a.slots[p].Got? && !ForWrite(a.txn, p)
       && s' == s.(attempts := s.attempts[i := a.(slots := a.slots[p := Freed])])
  }

  /** A write lock goes: the value is put in once more, and the word becomes the commit tid. */
  ghost predicate ReleaseWrite(s: State, s': State, i: nat, p: nat, q: nat) {
    && i < |s.attempts| && s.attempts[i].phase.Committing? && s.attempts[i].phase.written == |s.attempts[i].txn.writeSet|
    && var a, c := s.attempts[i], s.attempts[i].phase;
       && p < |a.slots| && |a.slots| == |a.txn.readSet| && a.slots[p].Got? && ForWrite(a.txn, p)
       && q < |a.txn.writeSet| && a.txn.writeSet[q] == a.txn.readSet[p].key
       && s' == s.(table := s.table[a.txn.writeSet[q] := a.txn.output(c.values, q)],
                   tids := s.tids[a.txn.writeSet[q] := c.tid],
                   attempts := s.attempts[i := a.(slots := a.slots[p := Freed])])
  }

  /** An abort gives back what is held and leaves the words as they were. */
  ghost predicate ReleaseAborted(s: State, s': State, i: nat, p: nat) {
    && i < |s.attempts| && s.attempts[i].phase.Aborting? && p < |s.attempts[i].slots|
    && s' == s.(attempts := s.attempts[i := s.attempts[i].(slots := s.attempts[i].slots[p := Freed])])
  }

  ghost predicate AllFreed(a: Attempt) {
    forall p :: 0 <= p < |a.slots| ==> a.slots[p].Freed?
  }

  ghost predicate Finish(s: State, s': State, i: nat) {
    && i < |s.attempts| && AllFreed(s.attempts[i])
    && (s.attempts[i].phase.Aborting? ||
        (s.attempts[i].phase.Committing? && s.attempts[i].phase.written == |s.attempts[i].txn.writeSet|))
    && s' == s.(attempts := s.attempts[i := s.attempts[i].(phase := Done)])
  }

  // ------------------------------------------------------------------
  // The invariant
  // ------------------------------------------------------------------

  /** The table of the serial run so far. */
  ghost function Serial(t0: Table, s: State): Table { RunSerial(t0, s.order) }

  /** The holder of a write lock is the only holder. */
  ghost predicate Exclusive(attempts: seq<Attempt>) {
    forall i, j, p, q, k ::
      (0 <= i < |attempts| && 0 <= j < |attempts| && HoldsForWrite(attempts[i], p, k) && Holds(attempts[j], q, k))
      ==> i == j && p == q
  }

  function TidIn(tids: map<Key, nat>, k: Key): nat { if k in tids then tids[k] else 0 }

  ghost predicate HeldForWrite(a: Attempt, k: Key) {
    exists p :: HoldsForWrite(a, p, k)
  }

  /** What a committing transaction has still to write is locked, and what it has locked is its in the serial run. */
  ghost predicate CommitOk(v: Table, a: Attempt)
    requires a.phase.Committing?
  {
    && a.phase.written <= |a.txn.writeSet|
    && (forall q :: a.phase.written <= q < |a.txn.writeSet| ==> HeldForWrite(a, a.txn.writeSet[q]))
    && forall p, q :: 0 <= q < |a.txn.writeSet| && HoldsForWrite(a, p, a.txn.writeSet[q]) ==>
         && a.slots[p].Got? && a.slots[p].tid < a.phase.tid
         && a.txn.writeSet[q] in v && v[a.txn.writeSet[q]] == a.txn.output(a.phase.values, q)
  }

  ghost predicate AttemptOk(v: Table, tids: map<Key, nat>, indexKeys: set<Key>, a: Attempt) {
    && ValidTxn(a.txn, indexKeys) && |a.slots| == |a.txn.readSet|
    && (a.phase.Running? ==> forall p :: 0 <= p < |a.slots| && a.slots[p].Got? ==> a.slots[p].value == Lookup(v, a.txn.readSet[p].key))
    && (forall p :: 0 <= p < |a.slots| && a.slots[p].Got? && !Indexed(a.txn, p) ==> a.slots[p].tid == TidIn(tids, a.txn.readSet[p].key))
    && (a.phase.Committing? ==> CommitOk(v, a))
  }

  ghost predicate PendingIn(a: Attempt, k: Key) {
    a.phase.Committing? && exists q :: a.phase.written <= q < |a.txn.writeSet| && a.txn.writeSet[q] == k
  }

  /** Some committing transaction has not yet written the key. */
  ghost predicate Pending(attempts: seq<Attempt>, k: Key) {
    exists i :: 0 <= i < |attempts| && PendingIn(attempts[i], k)
  }

  ghost predicate TableOk(table: Table, v: Table, attempts: seq<Attempt>) {
    forall k :: !Pending(attempts, k) ==> SameAt(table, v, k)
  }

  ghost predicate AllOk(v: Table, tids: map<Key, nat>, indexKeys: set<Key>, attempts: seq<Attempt>) {
    forall i :: 0 <= i < |attempts| ==> AttemptOk(v, tids, indexKeys, attempts[i])
  }

  ghost predicate Inv(t0: Table, indexKeys: set<Key>, s: State) {
    && Exclusive(s.attempts)
    && AllOk(Serial(t0, s), s.tids, indexKeys, s.attempts)
    && TableOk(s.table, Serial(t0, s), s.attempts)
  }

  // ------------------------------------------------------------------
  // Steps of the growing phase, and of aborts
  // ------------------------------------------------------------------

  /** Attempt `i` holds at most what it held, and has the same writes before it. */
  lemma HoldsNoMore(attempts: seq<Attempt>, i: nat, a: Attempt)
    requires Exclusive(attempts) && i < |attempts| && a.txn == attempts[i].txn
    requires forall p, k :: Holds(a, p, k) ==> Holds(attempts[i], p, k)
    ensures Exclusive(attempts[i := a])
  {
    var attempts' := attempts[i := a];
    forall j, l, p, q, k | 0 <= j < |attempts'| && 0 <= l < |attempts'|
      && HoldsForWrite(attempts'[j], p, k) && Holds(attempts'[l], q, k)
      ensures j == l && p == q
    {
      assert HoldsForWrite(attempts[j], p, k) && Holds(attempts[l], q, k);
    }
  }

  lemma SamePending(attempts: seq<Attempt>, i: nat, a: Attempt, table: Table, v: Table)
    requires i < |attempts| && TableOk(table, v, attempts)
    requires forall k :: PendingIn(a, k) <==> PendingIn(attempts[i], k)
    ensures TableOk(table, v, attempts[i := a])
  {
    var attempts' := attempts[i := a];
    forall k
      ensures Pending(attempts, k) ==> Pending(attempts', k)
    {
      if Pending(attempts, k) {
        var j :| 0 <= j < |attempts| && PendingIn(attempts[j], k);
        assert PendingIn(attempts'[j], k);
      }
    }
  }

  lemma StartKeepsInv(t0: Table, indexKeys: set<Key>, s: State, s': State, x: Txn, w: nat)
    requires Inv(t0, indexKeys, s) && Start(s, s', x, w, indexKeys)
    ensures Inv(t0, indexKeys, s')
  {
    var a := s'.attempts[|s.attempts|];
    assert forall p, k :: !Holds(a, p, k);
    forall k
      ensures Pending(s.attempts, k) ==> Pending(s'.attempts, k)
    {
      if Pending(s.attempts, k) {
        var j :| 0 <= j < |s.attempts| && PendingIn(s.attempts[j], k);
        assert PendingIn(s'.attempts[j], k);
      }
    }
  }

  lemma GrantKeepsInv(t0: Table, indexKeys: set<Key>, s: State, s': State, i: nat, p: nat)
    requires Inv(t0, indexKeys, s) && Grant(s, s', i, p)
    ensures Inv(t0, indexKeys, s')
  {
    var a, a' := s.attempts[i], s'.attempts[i];
    SamePending(s.attempts, i, a', s.table, Serial(t0, s));
    forall j, l, q, r, k | 0 <= j < |s'.attempts| && 0 <= l < |s'.attempts|
      && HoldsForWrite(s'.attempts[j], q, k) && Holds(s'.attempts[l], r, k)
      ensures j == l && q == r
    {
      assert (j == i && q == p) || HoldsForWrite(s.attempts[j], q, k);
      assert (l == i && r == p) || Holds(s.attempts[l], r, k);
    }
    assert AttemptOk(Serial(t0, s), s.tids, indexKeys, a');
  }

  lemma RefuseKeepsInv(t0: Table, indexKeys: set<Key>, s: State, s': State, i: nat, p: nat)
    requires Inv(t0, indexKeys, s) && Refuse(s, s', i, p)
    ensures Inv(t0, indexKeys, s')
  {
    var a' := s'.attempts[i];
    SamePending(s.attempts, i, a', s.table, Serial(t0, s));
    HoldsNoMore(s.attempts, i, a');
    assert AttemptOk(Serial(t0, s), s.tids, indexKeys, a');
  }

  /** What is read under a lock is current: whoever has still to write it would hold the lock. */
  lemma ReadIsCurrent(t0: Table, indexKeys: set<Key>, s: State, i: nat, p: nat)
    requires Inv(t0, indexKeys, s) && CanUse(s, i, p, Locked)
    ensures SameAt(s.table, Serial(t0, s), s.attempts[i].txn.readSet[p].key)
  {
    var a := s.attempts[i];
    var k := a.txn.readSet[p].key;
    assert AttemptOk(Serial(t0, s), s.tids, indexKeys, a);
    forall j | 0 <= j < |s.attempts|
      ensures !PendingIn(s.attempts[j], k)
    {
      assert AttemptOk(Serial(t0, s), s.tids, indexKeys, s.attempts[j]);
      if Indexed(a.txn, p) {
        assert k in indexKeys;
      } else {
        assert Holds(a, p, k);
        if j != i { HoldersApart(s.attempts, j, i, p, k); }
      }
    }
  }

  /** Nobody else holds what one holds for writing. */
  lemma HoldersApart(attempts: seq<Attempt>, i: nat, j: nat, q: nat, k: Key)
    requires Exclusive(attempts) && i < |attempts| && j < |attempts| && i != j
    ensures HeldForWrite(attempts[i], k) ==> !Holds(attempts[j], q, k)
  {
    if HeldForWrite(attempts[i], k) {
      var p :| HoldsForWrite(attempts[i], p, k);
    }
  }

  lemma ReadKeepsInv(t0: Table, indexKeys: set<Key>, s: State, s': State, i: nat, p: nat)
    requires Inv(t0, indexKeys, s) && Read(s, s', i, p)
    ensures Inv(t0, indexKeys, s')
  {
    var a' := s'.attempts[i];
    ReadIsCurrent(t0, indexKeys, s, i, p);
    SamePending(s.attempts, i, a', s.table, Serial(t0, s));
    HoldsNoMore(s.attempts, i, a');
    assert AttemptOk(Serial(t0, s), s.tids, indexKeys, s.attempts[i]);
    assert AttemptOk(Serial(t0, s), s.tids, indexKeys, a');
  }

  lemma DecideAbortKeepsInv(t0: Table, indexKeys: set<Key>, s: State, s': State, i: nat)
    requires Inv(t0, indexKeys, s) && DecideAbort(s, s', i)
    ensures Inv(t0, indexKeys, s')
  {
    SamePending(s.attempts, i, s'.attempts[i], s.table, Serial(t0, s));
    HoldsNoMore(s.attempts, i, s'.attempts[i]);
  }

  lemma ReleaseAbortedKeepsInv(t0: Table, indexKeys: set<Key>, s: State, s': State, i: nat, p: nat)
    requires Inv(t0, indexKeys, s) && ReleaseAborted(s, s', i, p)
    ensures Inv(t0, indexKeys, s')
  {
    SamePending(s.attempts, i, s'.attempts[i], s.table, Serial(t0, s));
    HoldsNoMore(s.attempts, i, s'.attempts[i]);
    assert AttemptOk(Serial(t0, s), s.tids, indexKeys, s.attempts[i]);
  }

  lemma FinishKeepsInv(t0: Table, indexKeys: set<Key>, s: State, s': State, i: nat)
    requires Inv(t0, indexKeys, s) && Finish(s, s', i)
    ensures Inv(t0, indexKeys, s')
  {
    SamePending(s.attempts, i, s'.attempts[i], s.table, Serial(t0, s));
    HoldsNoMore(s.attempts, i, s'.attempts[i]);
    assert AttemptOk(Serial(t0, s), s.tids, indexKeys, s.attempts[i]);
  }

  // ------------------------------------------------------------------
  // The decision to commit
  // ------------------------------------------------------------------

  /** At that moment the transaction has read exactly what the serial run reads. */
  lemma DecidesOnSerialReads(t0: Table, indexKeys: set<Key>, s: State, i: nat)
    requires Inv(t0, indexKeys, s) && i < |s.attempts| && CanCommit(s.attempts[i])
    ensures ValuesOf(s.attempts[i]) == ReadValues(Serial(t0, s), s.attempts[i].txn)
  {
    var a := s.attempts[i];
    assert AttemptOk(Serial(t0, s), s.tids, indexKeys, a);
    assert forall p :: 0 <= p < |a.slots| ==> a.slots[p].Got?;
  }

  lemma OrderGrows(t0: Table, s: State, s': State, x: Txn)
    requires s'.order == s.order + [x]
    ensures Serial(t0, s') == Execute(Serial(t0, s), x)
  {
    assert (s.order + [x])[..|s.order|] == s.order;
  }

  /** The commit changes its own keys to its outputs, and no other key. */
  lemma CommitChanges(t: Table, x: Txn, vs: seq<Value>)
    requires DistinctWrites(x) && vs == ReadValues(t, x) && x.outcome(vs).Ready?
    ensures forall q :: 0 <= q < |x.writeSet| ==>
              x.writeSet[q] in Execute(t, x) && Execute(t, x)[x.writeSet[q]] == x.output(vs, q)
    ensures forall k :: !x.WritesKey(k) ==> SameAt(Execute(t, x), t, k)
  {
    forall q | 0 <= q < |x.writeSet|
      ensures Effect(x, vs)[x.writeSet[q]] == x.output(vs, q)
    {
      EffectPrefixAt(x, vs, |x.writeSet|, q);
      assert x.WritesKey(x.writeSet[q]);
    }
  }

  /** Whatever another transaction holds, the committing one does not write. */
  lemma OthersKeepReads(attempts: seq<Attempt>, indexKeys: set<Key>, i: nat, j: nat, q: nat)
    requires Exclusive(attempts) && i < |attempts| && j < |attempts| && i != j
    requires ValidTxn(attempts[i].txn, indexKeys) && |attempts[i].slots| == |attempts[i].txn.readSet| && AllGot(attempts[i])
    requires ValidTxn(attempts[j].txn, indexKeys) && |attempts[j].slots| == |attempts[j].txn.readSet|
    requires q < |attempts[j].slots| && attempts[j].slots[q].Got?
    ensures !attempts[i].txn.WritesKey(attempts[j].txn.readSet[q].key)
  {
    var k := attempts[j].txn.readSet[q].key;
    LockedWhenGot(attempts[i], indexKeys, k);
    HoldersApart(attempts, i, j, q, k);
    assert Indexed(attempts[j].txn, q) ==> k in indexKeys;
  }

  lemma LockedWhenGot(a: Attempt, indexKeys: set<Key>, k: Key)
    requires ValidTxn(a.txn, indexKeys) && |a.slots| == |a.txn.readSet| && AllGot(a)
    ensures a.txn.WritesKey(k) ==> HeldForWrite(a, k) && k !in indexKeys
  {
    if a.txn.WritesKey(k) {
      var q :| 0 <= q < |a.txn.writeSet| && a.txn.writeSet[q] == k;
      assert a.txn.Reads(k);
      var p :| 0 <= p < |a.txn.readSet| && a.txn.readSet[p] == ReadKey(k, false);
      assert HoldsForWrite(a, p, k);
    }
  }

  lemma TidIsLarger(s: State, a: Attempt, p: nat)
    requires p < |a.slots| && a.slots[p].Got?
    ensures a.slots[p].tid < MaxOf(TidsOf(a), MaxTidOf(s, a.worker)) + 1
  {
    assert TidsOf(a)[p] == a.slots[p].tid;
  }

  /** The others keep what they had when `v` only changes on keys nobody else has. */
  lemma OthersStayOk(v: Table, v': Table, tids: map<Key, nat>, indexKeys: set<Key>, a: Attempt)
    requires AttemptOk(v, tids, indexKeys, a)
    requires forall p :: 0 <= p < |a.slots| && a.slots[p].Got? ==> SameAt(v', v, a.txn.readSet[p].key)
    ensures AttemptOk(v', tids, indexKeys, a)
  {
    if a.phase.Committing? {
      forall p, q | 0 <= q < |a.txn.writeSet| && HoldsForWrite(a, p, a.txn.writeSet[q])
        ensures a.txn.writeSet[q] in v' && v'[a.txn.writeSet[q]] == a.txn.output(a.phase.values, q)
      {
        assert a.slots[p].Got?;
      }
    }
  }

  /** Holding does not depend on the phase. */
  lemma SameHolds(a: Attempt, a': Attempt)
    requires a'.txn == a.txn && a'.slots == a.slots
    ensures forall p, k :: Holds(a', p, k) == Holds(a, p, k) && HoldsForWrite(a', p, k) == HoldsForWrite(a, p, k)
    ensures forall k :: HeldForWrite(a, k) ==> HeldForWrite(a', k)
  {
    forall k | HeldForWrite(a, k)
      ensures HeldForWrite(a', k)
    {
      var p :| HoldsForWrite(a, p, k);
      assert HoldsForWrite(a', p, k);
    }
  }

  lemma CommittingOk(s: State, v: Table, v': Table, indexKeys: set<Key>, a: Attempt, a': Attempt)
    requires AttemptOk(v, s.tids, indexKeys, a) && CanCommit(a)
    requires a' == a.(phase := Committing(ValuesOf(a), MaxOf(TidsOf(a), MaxTidOf(s, a.worker)) + 1, 0))
    requires forall q :: 0 <= q < |a.txn.writeSet| ==> a.txn.writeSet[q] in v' && v'[a.txn.writeSet[q]] == a.txn.output(ValuesOf(a), q)
    ensures AttemptOk(v', s.tids, indexKeys, a')
  {
    SameHolds(a, a');
    forall p | 0 <= p < |a.slots|
      ensures a.slots[p].Got? && a.slots[p].tid < a'.phase.tid
    {
      TidIsLarger(s, a, p);
    }
    forall q | 0 <= q < |a.txn.writeSet|
      ensures HeldForWrite(a, a.txn.writeSet[q])
    {
      LockedWhenGot(a, indexKeys, a.txn.writeSet[q]);
    }
    hide MaxOf, HeldForWrite, HoldsForWrite, Lookup, DistinctWrites;
    assert CommitOk(v', a');
  }

  lemma CommitTableOk(table: Table, v: Table, v': Table, attempts: seq<Attempt>, i: nat, a': Attempt)
    requires TableOk(table, v, attempts) && i < |attempts| && attempts[i].phase.Running?
    requires a'.txn == attempts[i].txn && a'.phase.Committing? && a'.phase.written == 0
    requires forall k :: !a'.txn.WritesKey(k) ==> SameAt(v', v, k)
    ensures TableOk(table, v', attempts[i := a'])
  {
    var attempts' := attempts[i := a'];
    forall k
      ensures Pending(attempts, k) || a'.txn.WritesKey(k) ==> Pending(attempts', k)
    {
      if a'.txn.WritesKey(k) {
        assert PendingIn(attempts'[i], k);
      } else if Pending(attempts, k) {
        var j :| 0 <= j < |attempts| && PendingIn(attempts[j], k);
        assert PendingIn(attempts'[j], k);
      }
    }
  }

  lemma OthersAfterCommit(v: Table, v': Table, tids: map<Key, nat>, indexKeys: set<Key>, attempts: seq<Attempt>, i: nat, j: nat)
    requires Exclusive(attempts) && AllOk(v, tids, indexKeys, attempts)
    requires i < |attempts| && j < |attempts| && i != j && AllGot(attempts[i])
    requires forall k :: !attempts[i].txn.WritesKey(k) ==> SameAt(v', v, k)
    ensures AttemptOk(v', tids, indexKeys, attempts[j])
  {
    assert AttemptOk(v, tids, indexKeys, attempts[i]) && AttemptOk(v, tids, indexKeys, attempts[j]);
    forall q | 0 <= q < |attempts[j].slots| && attempts[j].slots[q].Got?
      ensures SameAt(v', v, attempts[j].txn.readSet[q].key)
    {
      OthersKeepReads(attempts, indexKeys, i, j, q);
    }
    OthersStayOk(v, v', tids, indexKeys, attempts[j]);
  }

  lemma DecideCommitIs(s: State, s': State, i: nat)
    requires DecideCommit(s, s', i)
    ensures i < |s.attempts| && CanCommit(s.attempts[i]) && s'.table == s.table && s'.tids == s.tids
    ensures s'.attempts == s.attempts[i := s'.attempts[i]] && s'.order == s.order + [s.attempts[i].txn]
    ensures var a := s.attempts[i];
            s'.attempts[i] == a.(phase := Committing(ValuesOf(a), MaxOf(TidsOf(a), MaxTidOf(s, a.worker)) + 1, 0))
    ensures s.attempts[i].phase.Running? && AllGot(s.attempts[i]) && s.attempts[i].txn.outcome(ValuesOf(s.attempts[i])).Ready?
  {}

  lemma InvParts(t0: Table, indexKeys: set<Key>, s: State)
    ensures Inv(t0, indexKeys, s) <==>
            && Exclusive(s.attempts)
            && AllOk(Serial(t0, s), s.tids, indexKeys, s.attempts)
            && TableOk(s.table, Serial(t0, s), s.attempts)
  {}

  lemma OkParts(v: Table, tids: map<Key, nat>, indexKeys: set<Key>, attempts: seq<Attempt>, i: nat)
    requires AllOk(v, tids, indexKeys, attempts) && i < |attempts|
    ensures AttemptOk(v, tids, indexKeys, attempts[i]) && DistinctWrites(attempts[i].txn)
  {
    assert AttemptOk(v, tids, indexKeys, attempts[i]);
  }

  lemma OneAndOthersOk(v: Table, tids: map<Key, nat>, indexKeys: set<Key>, attempts: seq<Attempt>, i: nat, a: Attempt)
    requires i < |attempts| && AttemptOk(v, tids, indexKeys, a)
    requires forall j :: 0 <= j < |attempts| && j != i ==> AttemptOk(v, tids, indexKeys, attempts[j])
    ensures AllOk(v, tids, indexKeys, attempts[i := a])
  {}

  lemma DecideCommitKeepsInv(t0: Table, indexKeys: set<Key>, s: State, s': State, i: nat)
    requires Inv(t0, indexKeys, s) && DecideCommit(s, s', i)
    ensures Inv(t0, indexKeys, s')
  {
    hide *;
    DecideCommitIs(s, s', i);
    InvParts(t0, indexKeys, s);
    var a, a', v := s.attempts[i], s'.attempts[i], Serial(t0, s);
    var v' := Execute(v, a.txn);
    OkParts(v, s.tids, indexKeys, s.attempts, i);
    DecidesOnSerialReads(t0, indexKeys, s, i);
    OrderGrows(t0, s, s', a.txn);
    CommitChanges(v, a.txn, ValuesOf(a));
    CommittingOk(s, v, v', indexKeys, a, a');
    SameHolds(a, a');
    HoldsNoMore(s.attempts, i, a');
    CommitTableOk(s.table, v, v', s.attempts, i, a');
    forall j | 0 <= j < |s.attempts| && j != i
      ensures AttemptOk(v', s.tids, indexKeys, s.attempts[j])
    {
      OthersAfterCommit(v, v', s.tids, indexKeys, s.attempts, i, j);
    }
    OneAndOthersOk(v', s.tids, indexKeys, s.attempts, i, a');
    InvParts(t0, indexKeys, s');
  }

  // ------------------------------------------------------------------
  // Writing and releasing
  // ------------------------------------------------------------------

  lemma WriteTableOk(table: Table, v: Table, attempts: seq<Attempt>, i: nat, a': Attempt, key: Key)
    requires TableOk(table, v, attempts) && i < |attempts| && key in v
    requires forall k :: k != key && PendingIn(attempts[i], k) ==> PendingIn(a', k)
    ensures TableOk(table[key := v[key]], v, attempts[i := a'])
  {
    var attempts' := attempts[i := a'];
    forall k
      ensures k != key && Pending(attempts, k) ==> Pending(attempts', k)
    {
      if k != key && Pending(attempts, k) {
        var j :| 0 <= j < |attempts| && PendingIn(attempts[j], k);
        assert PendingIn(attempts'[j], k);
      }
    }
  }

  lemma WriteIs(s: State, s': State, i: nat)
    requires Write(s, s', i)
    ensures i < |s.attempts| && s.attempts[i].phase.Committing? && s.attempts[i].phase.written < |s.attempts[i].txn.writeSet|
    ensures var a, q := s.attempts[i], s.attempts[i].phase.written;
            && s' == s.(table := s.table[a.txn.writeSet[q] := a.txn.output(a.phase.values, q)],
                        attempts := s.attempts[i := a.(phase := a.phase.(written := q + 1))])
            && forall k :: k != a.txn.writeSet[q] && PendingIn(a, k) ==> PendingIn(s'.attempts[i], k)
  {}

  lemma NextWriteIsSerial(v: Table, tids: map<Key, nat>, indexKeys: set<Key>, a: Attempt)
    requires AttemptOk(v, tids, indexKeys, a) && a.phase.Committing? && a.phase.written < |a.txn.writeSet|
    ensures a.txn.writeSet[a.phase.written] in v
    ensures v[a.txn.writeSet[a.phase.written]] == a.txn.output(a.phase.values, a.phase.written)
  {
    assert HeldForWrite(a, a.txn.writeSet[a.phase.written]);
    var p :| HoldsForWrite(a, p, a.txn.writeSet[a.phase.written]);
  }

  lemma WriteKeepsInv(t0: Table, indexKeys: set<Key>, s: State, s': State, i: nat)
    requires Inv(t0, indexKeys, s) && Write(s, s', i)
    ensures Inv(t0, indexKeys, s')
  {
    hide *;
    WriteIs(s, s', i);
    InvParts(t0, indexKeys, s);
    var a, a', v := s.attempts[i], s'.attempts[i], Serial(t0, s);
    OkParts(v, s.tids, indexKeys, s.attempts, i);
    NextWriteIsSerial(v, s.tids, indexKeys, a);
    SameHolds(a, a');
    HoldsNoMore(s.attempts, i, a');
    WrittenOk(v, s.tids, indexKeys, a, a');
    WriteTableOk(s.table, v, s.attempts, i, a', a.txn.writeSet[a.phase.written]);
    forall j | 0 <= j < |s.attempts| && j != i
      ensures AttemptOk(v, s.tids, indexKeys, s.attempts[j])
    {
      OkParts(v, s.tids, indexKeys, s.attempts, j);
    }
    OneAndOthersOk(v, s.tids, indexKeys, s.attempts, i, a');
    SameOrder(t0, s, s');
    InvParts(t0, indexKeys, s');
  }

  lemma SameOrder(t0: Table, s: State, s': State)
    requires s'.order == s.order
    ensures Serial(t0, s') == Serial(t0, s)
  {}

  lemma WrittenOk(v: Table, tids: map<Key, nat>, indexKeys: set<Key>, a: Attempt, a': Attempt)
    requires AttemptOk(v, tids, indexKeys, a) && a.phase.Committing? && a.phase.written < |a.txn.writeSet|
    requires a' == a.(phase := a.phase.(written := a.phase.written + 1))
    ensures AttemptOk(v, tids, indexKeys, a')
  {
    forall q | a'.phase.written <= q < |a.txn.writeSet|
      ensures HeldForWrite(a', a.txn.writeSet[q])
    {
      var p :| HoldsForWrite(a, p, a.txn.writeSet[q]);
      assert HoldsForWrite(a', p, a.txn.writeSet[q]);
    }
    forall p, q | 0 <= q < |a.txn.writeSet| && HoldsForWrite(a', p, a.txn.writeSet[q])
      ensures a'.slots[p].Got? && a'.slots[p].tid < a'.phase.tid
      ensures a.txn.writeSet[q] in v && v[a.txn.writeSet[q]] == a.txn.output(a'.phase.values, q)
    {
      assert HoldsForWrite(a, p, a.txn.writeSet[q]);
    }
  }

  lemma FreedOk(v: Table, tids: map<Key, nat>, indexKeys: set<Key>, a: Attempt, a': Attempt, p: nat)
    requires AttemptOk(v, tids, indexKeys, a) && a.phase.Committing? && a.phase.written == |a.txn.writeSet|
    requires p < |a.slots| && a' == a.(slots := a.slots[p := Freed])
    ensures AttemptOk(v, tids, indexKeys, a')
  {
    forall r, q | 0 <= q < |a.txn.writeSet| && HoldsForWrite(a', r, a.txn.writeSet[q])
      ensures a'.slots[r].Got? && a'.slots[r].tid < a'.phase.tid
      ensures a.txn.writeSet[q] in v && v[a.txn.writeSet[q]] == a.txn.output(a'.phase.values, q)
    {
      assert HoldsForWrite(a, r, a.txn.writeSet[q]);
    }
  }

  lemma ReleaseReadKeepsInv(t0: Table, indexKeys: set<Key>, s: State, s': State, i: nat, p: nat)
    requires Inv(t0, indexKeys, s) && ReleaseRead(s, s', i, p)
    ensures Inv(t0, indexKeys, s')
  {
    var a, a', v := s.attempts[i], s'.attempts[i], Serial(t0, s);
    assert AttemptOk(v, s.tids, indexKeys, a);
    FreedOk(v, s.tids, indexKeys, a, a', p);
    HoldsNoMore(s.attempts, i, a');
    SamePending(s.attempts, i, a', s.table, v);
  }

  /** The tid of a record grows with every write released. */
  lemma ReleaseGrowsTid(t0: Table, indexKeys: set<Key>, s: State, s': State, i: nat, p: nat, q: nat)
    requires Inv(t0, indexKeys, s) && ReleaseWrite(s, s', i, p, q)
    ensures TidOf(s', s.attempts[i].txn.writeSet[q]) > TidOf(s, s.attempts[i].txn.writeSet[q])
    ensures forall k :: k != s.attempts[i].txn.writeSet[q] ==> TidOf(s', k) == TidOf(s, k)
    ensures SameAt(s'.table, Serial(t0, s), s.attempts[i].txn.writeSet[q])
  {
    var a := s.attempts[i];
    assert AttemptOk(Serial(t0, s), s.tids, indexKeys, a);
    assert HoldsForWrite(a, p, a.txn.writeSet[q]);
  }

  lemma ReleaseWriteKeepsInv(t0: Table, indexKeys: set<Key>, s: State, s': State, i: nat, p: nat, q: nat)
    requires Inv(t0, indexKeys, s) && ReleaseWrite(s, s', i, p, q)
    ensures Inv(t0, indexKeys, s')
  {
    var a, a', v := s.attempts[i], s'.attempts[i], Serial(t0, s);
    var key := a.txn.writeSet[q];
    assert AttemptOk(v, s.tids, indexKeys, a);
    ReleaseGrowsTid(t0, indexKeys, s, s', i, p, q);
    assert HoldsForWrite(a, p, key);
    FreedOk(v, s.tids, indexKeys, a, a', p);
    HoldsNoMore(s.attempts, i, a');
    SamePending(s.attempts, i, a', s.table, v);
    forall j | 0 <= j < |s'.attempts|
      ensures AttemptOk(v, s'.tids, indexKeys, s'.attempts[j])
    {
      var b := s'.attempts[j];
      assert AttemptOk(v, s.tids, indexKeys, s.attempts[j]);
      forall r | 0 <= r < |b.slots| && b.slots[r].Got? && !Indexed(b.txn, r)
        ensures b.txn.readSet[r].key != key
      {
        assert Holds(s.attempts[j], r, b.txn.readSet[r].key);
        if j != i { HoldersApart(s.attempts, i, j, r, key); }
      }
      NewTidElsewhere(v, s.tids, indexKeys, b, key, a.phase.tid);
    }
  }

  lemma NewTidElsewhere(v: Table, tids: map<Key, nat>, indexKeys: set<Key>, b: Attempt, key: Key, tid: nat)
    requires AttemptOk(v, tids, indexKeys, b)
    requires forall r :: 0 <= r < |b.slots| && b.slots[r].Got? && !Indexed(b.txn, r) ==> b.txn.readSet[r].key != key
    ensures AttemptOk(v, tids[key := tid], indexKeys, b)
  {}

  // ------------------------------------------------------------------
  // Every run
  // ------------------------------------------------------------------

  datatype Move =
    | Starts(txn: Txn, worker: nat)
    | Grants(i: nat, p: nat)
    | Refuses(i: nat, p: nat)
    | Reads(i: nat, p: nat)
    | DecidesAbort(i: nat)
    | DecidesCommit(i: nat)
    | Writes(i: nat)
    | ReleasesRead(i: nat, p: nat)
    | ReleasesWrite(i: nat, p: nat, q: nat)
    | ReleasesAborted(i: nat, p: nat)
    | Finishes(i: nat)

  ghost predicate Step(indexKeys: set<Key>, s: State, s': State, m: Move) {
    match m
    case Starts(x, w) => Start(s, s', x, w, indexKeys)
    case Grants(i, p) => Grant(s, s', i, p)
    case Refuses(i, p) => Refuse(s, s', i, p)
    case Reads(i, p) => Read(s, s', i, p)
    case DecidesAbort(i) => DecideAbort(s, s', i)
    case DecidesCommit(i) => DecideCommit(s, s', i)
    case Writes(i) => Write(s, s', i)
    case ReleasesRead(i, p) => ReleaseRead(s, s', i, p)
    case ReleasesWrite(i, p, q) => ReleaseWrite(s, s', i, p, q)
    case ReleasesAborted(i, p) => ReleaseAborted(s, s', i, p)
    case Finishes(i) => Finish(s, s', i)
  }

  lemma StepKeepsInv(t0: Table, indexKeys: set<Key>, s: State, s': State, m: Move)
    requires Inv(t0, indexKeys, s) && Step(indexKeys, s, s', m)
    ensures Inv(t0, indexKeys, s')
  {
    hide Inv, Start, Grant, Refuse, Read, DecideAbort, DecideCommit, Write, ReleaseRead, ReleaseWrite, ReleaseAborted, Finish;
    match m
    case Starts(x, w) => StartKeepsInv(t0, indexKeys, s, s', x, w);
    case Grants(i, p) => GrantKeepsInv(t0, indexKeys, s, s', i, p);
    case Refuses(i, p) => RefuseKeepsInv(t0, indexKeys, s, s', i, p);
    case Reads(i, p) => ReadKeepsInv(t0, indexKeys, s, s', i, p);
    case DecidesAbort(i) => DecideAbortKeepsInv(t0, indexKeys, s, s', i);
    case DecidesCommit(i) => DecideCommitKeepsInv(t0, indexKeys, s, s', i);
    case Writes(i) => WriteKeepsInv(t0, indexKeys, s, s', i);
    case ReleasesRead(i, p) => ReleaseReadKeepsInv(t0, indexKeys, s, s', i, p);
    case ReleasesWrite(i, p, q) => ReleaseWriteKeepsInv(t0, indexKeys, s, s', i, p, q);
    case ReleasesAborted(i, p) => ReleaseAbortedKeepsInv(t0, indexKeys, s, s', i, p);
    case Finishes(i) => FinishKeepsInv(t0, indexKeys, s, s', i);
  }

  ghost predicate SomeStep(indexKeys: set<Key>, s: State, s': State) {
    exists m :: Step(indexKeys, s, s', m)
  }

  /** Any number of workers, any transactions, any interleaving. */
  ghost predicate Run(t0: Table, indexKeys: set<Key>, run: seq<State>) {
    && |run| > 0 && run[0].table == t0 && run[0].attempts == [] && run[0].order == []
    && forall n :: 0 <= n < |run| - 1 ==> SomeStep(indexKeys, run[n], run[n + 1])
  }

  lemma {:induction false} RunKeepsInv(t0: Table, indexKeys: set<Key>, run: seq<State>, n: nat)
    requires Run(t0, indexKeys, run) && n < |run|
    ensures Inv(t0, indexKeys, run[n])
    decreases n
  {
    if n > 0 {
      RunKeepsInv(t0, indexKeys, run, n - 1);
      assert SomeStep(indexKeys, run[n - 1], run[n - 1 + 1]);
      var m :| Step(indexKeys, run[n - 1], run[n], m);
      StepKeepsInv(t0, indexKeys, run[n - 1], run[n], m);
    }
  }

  ghost predicate NobodyCommitting(s: State) {
    forall i :: 0 <= i < |s.attempts| ==> !s.attempts[i].phase.Committing?
  }

  /** Whenever no commit is under way, the table is the serial one, in commit order. */
  lemma TableIsSerial(t0: Table, indexKeys: set<Key>, run: seq<State>, n: nat)
    requires Run(t0, indexKeys, run) && n < |run| && NobodyCommitting(run[n])
    ensures run[n].table == RunSerial(t0, run[n].order)
  {
    RunKeepsInv(t0, indexKeys, run, n);
    forall k
      ensures SameAt(run[n].table, Serial(t0, run[n]), k)
    {
      assert !Pending(run[n].attempts, k);
    }
    SameEverywhere(run[n].table, Serial(t0, run[n]));
  }

  /** And every committed transaction read what it reads in the serial run. */
  lemma CommitsReadSerially(t0: Table, indexKeys: set<Key>, run: seq<State>, n: nat, i: nat)
    requires Run(t0, indexKeys, run) && n + 1 < |run| && DecideCommit(run[n], run[n + 1], i)
    ensures ValuesOf(run[n].attempts[i]) == ReadValues(RunSerial(t0, run[n].order), run[n].attempts[i].txn)
    ensures RunSerial(t0, run[n + 1].order) == Execute(RunSerial(t0, run[n].order), run[n].attempts[i].txn)
  {
    RunKeepsInv(t0, indexKeys, run, n);
    DecidesOnSerialReads(t0, indexKeys, run[n], i);
    OrderGrows(t0, run[n], run[n + 1], run[n].attempts[i].txn);
  }

  /** Strictness: what is locked for reading is what is in the table until it is released. */
  lemma LockedIsCurrent(t0: Table, indexKeys: set<Key>, run: seq<State>, n: nat, i: nat, p: nat)
    requires Run(t0, indexKeys, run) && n < |run| && i < |run[n].attempts| && run[n].attempts[i].phase.Running?
    requires p < |run[n].attempts[i].slots| && run[n].attempts[i].slots[p].Got?
    requires |run[n].attempts[i].slots| == |run[n].attempts[i].txn.readSet|
    ensures run[n].attempts[i].slots[p].value == Lookup(run[n].table, run[n].attempts[i].txn.readSet[p].key)
  {
    var s, a := run[n], run[n].attempts[i];
    var k := a.txn.readSet[p].key;
    RunKeepsInv(t0, indexKeys, run, n);
    assert AttemptOk(Serial(t0, s), s.tids, indexKeys, a);
    forall j | 0 <= j < |s.attempts|
      ensures !PendingIn(s.attempts[j], k)
    {
      assert AttemptOk(Serial(t0, s), s.tids, indexKeys, s.attempts[j]);
      if Indexed(a.txn, p) {
        assert k in indexKeys;
      } else {
        assert Holds(a, p, k);
        if j != i { HoldersApart(s.attempts, j, i, p, k); }
      }
    }
    assert SameAt(s.table, Serial(t0, s), k);
  }

  /** Tids only grow, and a released write makes its record's tid larger. */
  lemma TidsGrow(t0: Table, indexKeys: set<Key>, run: seq<State>, n: nat, m: Move, k: Key)
    requires Run(t0, indexKeys, run) && n + 1 < |run| && Step(indexKeys, run[n], run[n + 1], m)
    ensures TidOf(run[n + 1], k) >= TidOf(run[n], k)
    ensures m.ReleasesWrite? && run[n].attempts[m.i].txn.writeSet[m.q] == k ==> TidOf(run[n + 1], k) > TidOf(run[n], k)
  {
    RunKeepsInv(t0, indexKeys, run, n);
    if m.ReleasesWrite? { ReleaseGrowsTid(t0, indexKeys, run[n], run[n + 1], m.i, m.p, m.q); }
  }

  // ------------------------------------------------------------------
  // No waiting
  // ------------------------------------------------------------------

  ghost predicate Tidy(a: Attempt) {
    && |a.slots| == |a.txn.readSet|
    && (forall p :: 0 <= p < |a.slots| && a.slots[p].Refused? ==> a.abortLock)
    && (a.phase.Running? ==> forall p :: 0 <= p < |a.slots| ==> !a.slots[p].Freed?)
    && (a.phase.Committing? ==> a.phase.written <= |a.txn.writeSet|
                                && forall p :: 0 <= p < |a.slots| ==> a.slots[p].Got? || a.slots[p].Freed?)
  }

  ghost predicate AllTidy(s: State) {
    forall i :: 0 <= i < |s.attempts| ==> Tidy(s.attempts[i])
  }

  lemma StepKeepsTidy(indexKeys: set<Key>, s: State, s': State, m: Move)
    requires AllTidy(s) && Step(indexKeys, s, s', m)
    ensures AllTidy(s')
  {
    hide Free, NotWriteLocked, ValidTxn, MaxOf;
  }

  lemma {:induction false} RunIsTidy(t0: Table, indexKeys: set<Key>, run: seq<State>, n: nat)
    requires Run(t0, indexKeys, run) && n < |run|
    ensures AllTidy(run[n])
    decreases n
  {
    if n > 0 {
      RunIsTidy(t0, indexKeys, run, n - 1);
      assert SomeStep(indexKeys, run[n - 1], run[n - 1 + 1]);
      var m :| Step(indexKeys, run[n - 1], run[n], m);
      StepKeepsTidy(indexKeys, run[n - 1], run[n], m);
    }
  }

  predicate IsBy(m: Move, i: nat) { !m.Starts? && m.i == i }

  lemma RunningMoves(indexKeys: set<Key>, s: State, i: nat) returns (m: Move, s': State)
    requires i < |s.attempts| && Tidy(s.attempts[i]) && s.attempts[i].phase.Running?
    ensures Step(indexKeys, s, s', m) && IsBy(m, i)
  {
    var a := s.attempts[i];
    if p :| 0 <= p < |a.slots| && a.slots[p].Waiting? {
      if Indexed(a.txn, p) {
        m, s' := Grants(i, p), s.(attempts := s.attempts[i := a.(slots := a.slots[p := Locked])]);
      } else {
        m, s' := Refuses(i, p), s.(attempts := s.attempts[i := a.(slots := a.slots[p := Refused], abortLock := true)]);
      }
    } else if p :| 0 <= p < |a.slots| && a.slots[p].Locked? {
      var k := a.txn.readSet[p].key;
      m := Reads(i, p);
      s' := s.(attempts := s.attempts[i := a.(slots := a.slots[p := Got(Lookup(s.table, k), TidOf(s, k))])]);
    } else if a.abortLock || !a.txn.outcome(ValuesOf(a)).Ready? {
      m, s' := DecidesAbort(i), s.(attempts := s.attempts[i := a.(phase := Aborting)]);
    } else {
      var tid := MaxOf(TidsOf(a), MaxTidOf(s, a.worker)) + 1;
      m := DecidesCommit(i);
      s' := s.(maxTids := s.maxTids[a.worker := tid], order := s.order + [a.txn],
               attempts := s.attempts[i := a.(phase := Committing(ValuesOf(a), tid, 0))]);
    }
  }

  lemma CommitterMoves(indexKeys: set<Key>, s: State, i: nat) returns (m: Move, s': State)
    requires i < |s.attempts| && Tidy(s.attempts[i]) && s.attempts[i].phase.Committing?
    ensures Step(indexKeys, s, s', m) && IsBy(m, i)
  {
    var a, c := s.attempts[i], s.attempts[i].phase;
    if c.written < |a.txn.writeSet| {
      m := Writes(i);
      s' := s.(table := s.table[a.txn.writeSet[c.written] := a.txn.output(c.values, c.written)],
               attempts := s.attempts[i := a.(phase := c.(written := c.written + 1))]);
    } else if p :| 0 <= p < |a.slots| && a.slots[p].Got? {
      if ForWrite(a.txn, p) {
        var q :| 0 <= q < |a.txn.writeSet| && a.txn.writeSet[q] == a.txn.readSet[p].key;
        m := ReleasesWrite(i, p, q);
        s' := s.(table := s.table[a.txn.writeSet[q] := a.txn.output(c.values, q)], tids := s.tids[a.txn.writeSet[q] := c.tid],
                 attempts := s.attempts[i := a.(slots := a.slots[p := Freed])]);
      } else {
        m, s' := ReleasesRead(i, p), s.(attempts := s.attempts[i := a.(slots := a.slots[p := Freed])]);
      }
    } else {
      m, s' := Finishes(i), s.(attempts := s.attempts[i := a.(phase := Done)]);
    }
  }

  lemma AborterMoves(indexKeys: set<Key>, s: State, i: nat) returns (m: Move, s': State)
    requires i < |s.attempts| && Tidy(s.attempts[i]) && s.attempts[i].phase.Aborting?
    ensures Step(indexKeys, s, s', m) && IsBy(m, i)
  {
    var a := s.attempts[i];
    if p :| 0 <= p < |a.slots| && !a.slots[p].Freed? {
      m, s' := ReleasesAborted(i, p), s.(attempts := s.attempts[i := a.(slots := a.slots[p := Freed])]);
    } else {
      m, s' := Finishes(i), s.(attempts := s.attempts[i := a.(phase := Done)]);
    }
  }

  /** Nobody ever waits for anybody: every unfinished transaction can go on by itself. */
  lemma NobodyWaits(t0: Table, indexKeys: set<Key>, run: seq<State>, n: nat, i: nat)
    requires Run(t0, indexKeys, run) && n < |run| && i < |run[n].attempts| && !run[n].attempts[i].phase.Done?
    ensures exists m, s' :: Step(indexKeys, run[n], s', m) && IsBy(m, i)
  {
    RunIsTidy(t0, indexKeys, run, n);
    var m, s';
    match run[n].attempts[i].phase
    case Running => m, s' := RunningMoves(indexKeys, run[n], i);
    case Committing(_, _, _) => m, s' := CommitterMoves(indexKeys, run[n], i);
    case Aborting => m, s' := AborterMoves(indexKeys, run[n], i);
  }
}
