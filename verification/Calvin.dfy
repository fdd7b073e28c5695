/**
 Calvin on one node with one lock manager: the lock manager goes through the batch in
 order, spins until it has granted every lock of a transaction, and hands it to a
 worker. Workers read, write and release. Whatever the interleaving, the batch ends as
 if it had been run one by one, and nothing is lost or run twice.
 */
module Calvin {
  import opened Transactions
  import opened PlannedBatch

  const READ_LOCK_MAX := 511

  /** A transaction: not yet handed over, in a queue, or as far as its worker has come. */
  datatype Pc =
    | NotGranted
    | Queued
    | Reading(values: seq<Value>)
    | Writing(values: seq<Value>, written: nat)
    | ReleasingReads(released: nat)
    | ReleasingWrites(freed: nat)
    | Finished

  /** A worker looks first at the lock manager's bit, then at its queue. */
  datatype Worker = AtHead | SawBit | InBody | Busy(i: nat) | Exited

  datatype State = State(
    table: Table,
    pcs: seq<Pc>,
    lmTxn: nat,
    lmPos: nat,
    bit: bool,
    requestId: nat,
    queues: seq<seq<nat>>,
    workers: seq<Worker>)

  datatype Setting = Setting(batch: seq<Planned>, initial: Table, indexKeys: set<Key>)
  {
    function TxnAt(i: nat): Txn
      requires i < |batch|
    {
      batch[i].txn
    }

    /** No blind writes, and read-only indexes. */
    ghost predicate Valid() {
      Determined(batch) && forall i :: 0 <= i < |batch| ==> ValidTxn(batch[i].txn)
    }

    ghost predicate ValidTxn(x: Txn) {
      && (forall q :: 0 <= q < |x.writeSet| ==> x.Reads(x.writeSet[q]) && x.writeSet[q] !in indexKeys)
      && (forall p :: 0 <= p < |x.readSet| && Indexed(x, p) ==> x.readSet[p].key in indexKeys)
    }
  }

  predicate Indexed(x: Txn, p: nat)
    requires p < |x.readSet|
  {
    x.readSet[p].localIndex
  }

  /** Read for update: locked for writing. */
  predicate ForWrite(x: Txn, p: nat)
    requires p < |x.readSet|
  {
    !x.readSet[p].localIndex && x.readSet[p].key in x.writeSet
  }

  ghost predicate Shaped(c: Setting, s: State) {
    && |s.pcs| == |c.batch| && s.lmTxn <= |c.batch| && |s.workers| == |s.queues|
    && (s.lmTxn < |c.batch| ==> s.lmPos <= |c.TxnAt(s.lmTxn).readSet|)
  }

  /** The lock manager has passed position `p` of transaction `i`. */
  predicate Granted(c: Setting, s: State, i: nat, p: nat)
    requires i < |c.batch| && p < |c.TxnAt(i).readSet|
  {
    !c.batch[i].skipped && !Indexed(c.TxnAt(i), p) && (i < s.lmTxn || (i == s.lmTxn && p < s.lmPos))
  }

  /** Transaction `i`, having come as far as `pc`, has given position `p` back. */
  predicate ReleasedIn(x: Txn, pc: Pc, p: nat)
    requires p < |x.readSet|
  {
    match pc
    case ReleasingReads(n) => !ForWrite(x, p) && p < n
    case ReleasingWrites(n) => !ForWrite(x, p) || x.readSet[p].key in x.writeSet[..if n <= |x.writeSet| then n else |x.writeSet|]
    case Finished => true
    case _ => false
  }

  predicate Holds(c: Setting, s: State, i: nat, p: nat)
    requires i < |c.batch| && |s.pcs| == |c.batch| && p < |c.TxnAt(i).readSet|
  {
    Granted(c, s, i, p) && !ReleasedIn(c.TxnAt(i), s.pcs[i], p)
  }

  // ------------------------------------------------------------------
  // The lock manager
  // ------------------------------------------------------------------

  ghost predicate HoldsKey(c: Setting, s: State, i: nat, p: nat, k: Key)
    requires Shaped(c, s)
  {
    i < |c.batch| && p < |c.TxnAt(i).readSet| && c.TxnAt(i).readSet[p].key == k && Holds(c, s, i, p)
  }

  ghost predicate Free(c: Setting, s: State, k: Key)
    requires Shaped(c, s)
  {
    forall i, p :: !HoldsKey(c, s, i, p, k)
  }

  ghost predicate NotWriteLocked(c: Setting, s: State, k: Key)
    requires Shaped(c, s)
  {
    forall i, p :: HoldsKey(c, s, i, p, k) ==> !ForWrite(c.TxnAt(i), p)
  }

  /** The entries that hold the key: what the nine bits of the lock word count. */
  ghost function Holders(c: Setting, s: State, k: Key): set<(nat, nat)>
    requires Shaped(c, s)
  {
    set i, p | 0 <= i < |c.batch| && 0 <= p < |c.TxnAt(i).readSet| && HoldsKey(c, s, i, p, k) :: (i, p)
  }

  ghost predicate Grantable(c: Setting, s: State)
    requires Shaped(c, s) && s.lmTxn < |c.batch| && s.lmPos < |c.TxnAt(s.lmTxn).readSet|
  {
    var x := c.TxnAt(s.lmTxn);
    var k := x.readSet[s.lmPos].key;
    if Indexed(x, s.lmPos) then true
    else if ForWrite(x, s.lmPos) then Free(c, s, k)
    else NotWriteLocked(c, s, k) && |Holders(c, s, k)| < READ_LOCK_MAX
  }

  /** One more lock of the transaction the lock manager is at. */
  ghost predicate Grant(c: Setting, s: State, s': State)
    requires Shaped(c, s)
  {
    && s.lmTxn < |c.batch| && !c.batch[s.lmTxn].skipped && s.lmPos < |c.TxnAt(s.lmTxn).readSet|
    && Grantable(c, s) && s' == s.(lmPos := s.lmPos + 1)
  }

  /** "Abort, no retry": no lock is taken for it. */
  ghost predicate Skip(c: Setting, s: State, s': State)
    requires Shaped(c, s)
  {
    && s.lmTxn < |c.batch| && c.batch[s.lmTxn].skipped
    && s' == s.(lmTxn := s.lmTxn + 1, lmPos := 0, pcs := s.pcs[s.lmTxn := Finished])
  }

  predicate NeedsLock(x: Txn) {
    exists p :: 0 <= p < |x.readSet| && !Indexed(x, p)
  }

  /** All locks are there: to the queue of the next worker, unless there was none to take. */
  ghost predicate Dispatch(c: Setting, s: State, s': State)
    requires Shaped(c, s)
  {
    && s.lmTxn < |c.batch| && !c.batch[s.lmTxn].skipped && s.lmPos == |c.TxnAt(s.lmTxn).readSet| && |s.queues| > 0
    && if NeedsLock(c.TxnAt(s.lmTxn)) then
         var w := s.requestId % |s.queues|;
         s' == s.(lmTxn := s.lmTxn + 1, lmPos := 0, requestId := s.requestId + 1,
                  pcs := s.pcs[s.lmTxn := Queued], queues := s.queues[w := s.queues[w] + [s.lmTxn]])
       else s' == s.(lmTxn := s.lmTxn + 1, lmPos := 0, pcs := s.pcs[s.lmTxn := Finished])
  }

  ghost predicate SetBit(c: Setting, s: State, s': State) {
    s.lmTxn == |c.batch| && !s.bit && s' == s.(bit := true)
  }

  // ------------------------------------------------------------------
  // The workers
  // ------------------------------------------------------------------

  ghost predicate LookAtBit(s: State, s': State, w: nat) {
    && w < |s.workers| && s.workers[w].AtHead?
    && s' == s.(workers := s.workers[w := if s.bit then SawBit else InBody])
  }

  ghost predicate LookAtQueue(s: State, s': State, w: nat) {
    && w < |s.workers| && w < |s.queues| && s.workers[w].SawBit?
    && s' == s.(workers := s.workers[w := if s.queues[w] == [] then Exited else InBody])
  }

  /** In the loop's body: take the front of the queue, or go round once more. */
  ghost predicate Pop(c: Setting, s: State, s': State, w: nat)
    requires Shaped(c, s)
  {
    && w < |s.workers| && s.workers[w].InBody?
    && if s.queues[w] == [] then s' == s.(workers := s.workers[w := AtHead])
       else
         var i := s.queues[w][0];
         && i < |s.pcs|
         && s' == s.(workers := s.workers[w := Busy(i)], queues := s.queues[w := s.queues[w][1..]], pcs := s.pcs[i := Reading([])])
  }

  ghost predicate AtWork(c: Setting, s: State, w: nat, i: nat) {
    w < |s.workers| && s.workers[w] == Busy(i) && i < |c.batch| && i < |s.pcs|
  }

  /** The reads go from the last entry of the read set to the first. */
  ghost predicate Read(c: Setting, s: State, s': State, w: nat, i: nat)
    requires Shaped(c, s)
  {
    && AtWork(c, s, w, i) && s.pcs[i].Reading? && |s.pcs[i].values| < |c.TxnAt(i).readSet|
    && var p := |c.TxnAt(i).readSet| - 1 - |s.pcs[i].values|;
       s' == s.(pcs := s.pcs[i := Reading([Lookup(s.table, c.TxnAt(i).readSet[p].key)] + s.pcs[i].values)])
  }

  ghost predicate BeginWriting(c: Setting, s: State, s': State, w: nat, i: nat)
    requires Shaped(c, s)
  {
    && AtWork(c, s, w, i) && s.pcs[i].Reading? && |s.pcs[i].values| == |c.TxnAt(i).readSet|
    && s' == s.(pcs := s.pcs[i := Writing(s.pcs[i].values, 0)])
  }

  ghost predicate Write(c: Setting, s: State, s': State, w: nat, i: nat)
    requires Shaped(c, s)
  {
    && AtWork(c, s, w, i) && s.pcs[i].Writing? && s.pcs[i].written < |c.TxnAt(i).writeSet|
    && var x, q := c.TxnAt(i), s.pcs[i].written;
       s' == s.(table := s.table[x.writeSet[q] := x.output(s.pcs[i].values, q)],
                pcs := s.pcs[i := Writing(s.pcs[i].values, q + 1)])
  }

  /** Then the read locks go, then the write locks. */
  ghost predicate Release(c: Setting, s: State, s': State, w: nat, i: nat)
    requires Shaped(c, s)
  {
    && AtWork(c, s, w, i)
    && var x := c.TxnAt(i);
       match s.pcs[i]
       case Writing(values, written) => written == |x.writeSet| && s' == s.(pcs := s.pcs[i := ReleasingReads(0)])
       case ReleasingReads(n) =>
         s' == s.(pcs := s.pcs[i := if n < |x.readSet| then ReleasingReads(n + 1) else ReleasingWrites(0)])
       case ReleasingWrites(n) =>
         if n < |x.writeSet| then s' == s.(pcs := s.pcs[i := ReleasingWrites(n + 1)])
         else s' == s.(pcs := s.pcs[i := Finished], workers := s.workers[w := AtHead])
       case _ => false
  }

  datatype Move =
    | Grants | Skips | Dispatches | SetsBit
    | LooksAtBit(w: nat) | LooksAtQueue(w: nat) | Pops(w: nat)
    | Reads(w: nat, i: nat) | BeginsWriting(w: nat, i: nat) | Stores(w: nat, i: nat) | Releases(w: nat, i: nat)

  ghost predicate Step(c: Setting, s: State, s': State, m: Move)
    requires Shaped(c, s)
  {
    match m
    case Grants => Grant(c, s, s')
    case Skips => Skip(c, s, s')
    case Dispatches => Dispatch(c, s, s')
    case SetsBit => SetBit(c, s, s')
    case LooksAtBit(w) => LookAtBit(s, s', w)
    case LooksAtQueue(w) => LookAtQueue(s, s', w)
    case Pops(w) => Pop(c, s, s', w)
    case Reads(w, i) => Read(c, s, s', w, i)
    case BeginsWriting(w, i) => BeginWriting(c, s, s', w, i)
    case Stores(w, i) => Write(c, s, s', w, i)
    case Releases(w, i) => Release(c, s, s', w, i)
  }

  // ------------------------------------------------------------------
  // The invariant: locks and values
  // ------------------------------------------------------------------

  predicate HasWritten(x: Txn, pc: Pc, k: Key) {
    match pc
    case Writing(_, q) => k in x.writeSet[..if q <= |x.writeSet| then q else |x.writeSet|]
    case ReleasingReads(_) => k in x.writeSet
    case ReleasingWrites(_) => k in x.writeSet
    case Finished => k in x.writeSet
    case _ => false
  }

  predicate Conflict(c: Setting, i: nat, p: nat, j: nat, q: nat) {
    && i < |c.batch| && j < |c.batch| && p < |c.TxnAt(i).readSet| && q < |c.TxnAt(j).readSet|
    && !Indexed(c.TxnAt(i), p) && !Indexed(c.TxnAt(j), q) && c.TxnAt(i).readSet[p].key == c.TxnAt(j).readSet[q].key
    && (ForWrite(c.TxnAt(i), p) || ForWrite(c.TxnAt(j), q))
  }

  /** A conflicting lock is granted to a later transaction only when the earlier one has given it back. */
  ghost predicate Ordered(c: Setting, s: State)
    requires Shaped(c, s)
  {
    forall i: nat, p: nat, j: nat, q: nat ::
      i < j && Conflict(c, i, p, j, q) && !c.batch[i].skipped && Granted(c, s, j, q) ==>
        ReleasedIn(c.TxnAt(i), s.pcs[i], p)
  }

  /** The writers of a key that have written it are those below `w`, and the key holds what the last of them wrote. */
  ghost predicate Cut(c: Setting, s: State, k: Key, w: nat)
    requires Shaped(c, s)
  {
    && w <= |c.batch| && SameAt(s.table, Serial(c.initial, c.batch, w), k)
    && forall j :: 0 <= j < |c.batch| && Writes(c.batch, j, k) ==> (HasWritten(c.TxnAt(j), s.pcs[j], k) <==> j < w)
  }

  ghost predicate SomeCut(c: Setting, s: State, k: Key)
    requires Shaped(c, s)
  {
    exists w: nat :: Cut(c, s, k, w)
  }

  ghost predicate PcOk(c: Setting, i: nat, pc: Pc, handedOver: bool)
    requires i < |c.batch|
  {
    && (pc.NotGranted? <==> !handedOver)
    && (c.batch[i].skipped ==> pc.NotGranted? || pc.Finished?)
    && match pc
       case Reading(values) =>
         && |values| <= |c.TxnAt(i).readSet|
         && values == PlannedReads(c.initial, c.batch, i)[|c.TxnAt(i).readSet| - |values|..]
       case Writing(values, q) => values == PlannedReads(c.initial, c.batch, i) && q <= |c.TxnAt(i).writeSet|
       case ReleasingReads(n) => n <= |c.TxnAt(i).readSet|
       case ReleasingWrites(n) => n <= |c.TxnAt(i).writeSet|
       case _ => true
  }

  ghost predicate PcsOk(c: Setting, s: State)
    requires Shaped(c, s)
  {
    forall i :: 0 <= i < |c.batch| ==> PcOk(c, i, s.pcs[i], i < s.lmTxn)
  }

  ghost predicate Inv(c: Setting, s: State) {
    && c.Valid() && Shaped(c, s) && Ordered(c, s) && PcsOk(c, s)
    && forall k :: SomeCut(c, s, k)
  }

  // ------------------------------------------------------------------
  // What a lock protects
  // ------------------------------------------------------------------

  /** A writer of the key has it locked for writing somewhere. */
  lemma WriterLocks(c: Setting, j: nat, k: Key) returns (q: nat)
    requires c.Valid() && j < |c.batch| && Writes(c.batch, j, k)
    ensures q < |c.TxnAt(j).readSet| && c.TxnAt(j).readSet[q].key == k && ForWrite(c.TxnAt(j), q) && k !in c.indexKeys
  {
    assert c.ValidTxn(c.TxnAt(j));
    var r :| 0 <= r < |c.TxnAt(j).writeSet| && c.TxnAt(j).writeSet[r] == k;
    assert c.TxnAt(j).Reads(k);
    q :| 0 <= q < |c.TxnAt(j).readSet| && c.TxnAt(j).readSet[q] == ReadKey(k, false);
  }

  /** Earlier writers of a key that is locked by `i` have written it; later ones have not. */
  lemma WritersSplit(c: Setting, s: State, i: nat, p: nat, j: nat)
    requires Inv(c, s) && i < |c.batch| && p < |c.TxnAt(i).readSet| && Holds(c, s, i, p) && j < |c.batch| && j != i
    requires Writes(c.batch, j, c.TxnAt(i).readSet[p].key)
    ensures HasWritten(c.TxnAt(j), s.pcs[j], c.TxnAt(i).readSet[p].key) <==> j < i
  {
    var k := c.TxnAt(i).readSet[p].key;
    var q := WriterLocks(c, j, k);
    assert PcOk(c, j, s.pcs[j], j < s.lmTxn);
    if j < i {
      assert Conflict(c, j, q, i, p);
      assert ReleasedIn(c.TxnAt(j), s.pcs[j], q);
    } else {
      assert Conflict(c, i, p, j, q);
      assert !Granted(c, s, j, q);
    }
  }

  /** When the writers that have written are those below `i`, the key holds what the serial run has there. */
  lemma CutAt(c: Setting, s: State, k: Key, i: nat)
    requires Inv(c, s) && i <= |c.batch|
    requires forall j :: 0 <= j < |c.batch| && Writes(c.batch, j, k) ==> (HasWritten(c.TxnAt(j), s.pcs[j], k) <==> j < i)
    ensures SameAt(s.table, Serial(c.initial, c.batch, i), k)
  {
    assert SomeCut(c, s, k);
    var w: nat :| Cut(c, s, k, w);
    hide Serial;
    if w <= i {
      SerialBetween(c.initial, c.batch, k, w, i);
    } else {
      SerialBetween(c.initial, c.batch, k, i, w);
    }
  }

  /** What transaction `i` reads is what the serial run reads. */
  lemma ReadsSerial(c: Setting, s: State, i: nat, p: nat)
    requires Inv(c, s) && i < |c.batch| && p < |c.TxnAt(i).readSet| && s.pcs[i].Reading?
    ensures SameAt(s.table, Serial(c.initial, c.batch, i), c.TxnAt(i).readSet[p].key)
  {
    var k := c.TxnAt(i).readSet[p].key;
    assert PcOk(c, i, s.pcs[i], i < s.lmTxn);
    forall j | 0 <= j < |c.batch| && Writes(c.batch, j, k)
      ensures HasWritten(c.TxnAt(j), s.pcs[j], k) <==> j < i
    {
      var q := WriterLocks(c, j, k);
      assert c.ValidTxn(c.TxnAt(i));
      assert Holds(c, s, i, p);
      if j != i { WritersSplit(c, s, i, p, j); }
    }
    CutAt(c, s, k, i);
  }

  /** And when it writes a key, all earlier writers have, and no later one. */
  lemma WritesInOrder(c: Setting, s: State, i: nat)
    requires Inv(c, s) && i < |c.batch| && s.pcs[i].Writing? && s.pcs[i].written < |c.TxnAt(i).writeSet|
    ensures forall j :: 0 <= j < |c.batch| && Writes(c.batch, j, c.TxnAt(i).writeSet[s.pcs[i].written]) ==>
              (HasWritten(c.TxnAt(j), s.pcs[j], c.TxnAt(i).writeSet[s.pcs[i].written]) <==> j < i)
    ensures !c.batch[i].skipped
  {
    var k := c.TxnAt(i).writeSet[s.pcs[i].written];
    assert PcOk(c, i, s.pcs[i], i < s.lmTxn);
    assert Writes(c.batch, i, k);
    var p := WriterLocks(c, i, k);
    assert Holds(c, s, i, p);
    forall j | 0 <= j < |c.batch| && Writes(c.batch, j, k)
      ensures HasWritten(c.TxnAt(j), s.pcs[j], k) <==> j < i
    {
      if j != i {
        WritersSplit(c, s, i, p, j);
      } else {
        assert DistinctWrites(c.TxnAt(i));
      }
    }
  }

  // ------------------------------------------------------------------
  // The lock manager's steps
  // ------------------------------------------------------------------

  lemma GrantKeepsInv(c: Setting, s: State, s': State)
    requires Inv(c, s) && Grant(c, s, s')
    ensures Inv(c, s')
  {
    var n, r := s.lmTxn, s.lmPos;
    forall i: nat, p: nat, j: nat, q: nat | i < j && Conflict(c, i, p, j, q) && !c.batch[i].skipped && Granted(c, s', j, q)
      ensures ReleasedIn(c.TxnAt(i), s'.pcs[i], p)
    {
      if !Granted(c, s, j, q) {
        assert j == n && q == r;
        assert Granted(c, s, i, p);
        assert !HoldsKey(c, s, i, p, c.TxnAt(n).readSet[r].key);
      }
    }
    SameCuts(c, s, s');
  }

  /** Neither the table nor what has been written changes. */
  lemma SameCuts(c: Setting, s: State, s': State)
    requires Shaped(c, s) && Shaped(c, s') && s'.table == s.table && forall k :: SomeCut(c, s, k)
    requires forall j, k :: 0 <= j < |c.batch| && Writes(c.batch, j, k) ==>
               HasWritten(c.TxnAt(j), s'.pcs[j], k) == HasWritten(c.TxnAt(j), s.pcs[j], k)
    ensures forall k :: SomeCut(c, s', k)
  {
    forall k
      ensures SomeCut(c, s', k)
    {
      assert SomeCut(c, s, k);
      var w: nat :| Cut(c, s, k, w);
      assert Cut(c, s', k, w);
    }
  }

  /** A transaction without locks writes nothing. */
  lemma WriterNeedsLock(c: Setting, i: nat, k: Key)
    requires c.Valid() && i < |c.batch|
    ensures c.TxnAt(i).WritesKey(k) ==> NeedsLock(c.TxnAt(i))
  {
    assert c.ValidTxn(c.TxnAt(i));
    if c.TxnAt(i).WritesKey(k) {
      var q :| 0 <= q < |c.TxnAt(i).writeSet| && c.TxnAt(i).writeSet[q] == k;
      assert c.TxnAt(i).Reads(c.TxnAt(i).writeSet[q]);
    }
  }

  lemma HandOverKeepsInv(c: Setting, s: State, s': State)
    requires Inv(c, s) && (Skip(c, s, s') || Dispatch(c, s, s'))
    ensures Inv(c, s')
  {
    var n := s.lmTxn;
    assert PcOk(c, n, s.pcs[n], false);
    forall j, q | 0 <= j < |c.batch| && 0 <= q < |c.TxnAt(j).readSet|
      ensures Granted(c, s', j, q) == Granted(c, s, j, q)
    {}
    forall i: nat, p: nat, j: nat, q: nat | i < j && Conflict(c, i, p, j, q) && !c.batch[i].skipped && Granted(c, s', j, q)
      ensures ReleasedIn(c.TxnAt(i), s'.pcs[i], p)
    {
      assert Granted(c, s, j, q);
    }
    forall j, k | 0 <= j < |c.batch| && Writes(c.batch, j, k)
      ensures HasWritten(c.TxnAt(j), s'.pcs[j], k) == HasWritten(c.TxnAt(j), s.pcs[j], k)
    {
      WriterNeedsLock(c, j, k);
    }
    SameCuts(c, s, s');
    forall i | 0 <= i < |c.batch|
      ensures PcOk(c, i, s'.pcs[i], i < s'.lmTxn)
    {
      assert PcOk(c, i, s.pcs[i], i < s.lmTxn);
    }
  }

  // ------------------------------------------------------------------
  // The workers' steps
  // ------------------------------------------------------------------

  /** One transaction goes on: it gives nothing back that it had, or takes nothing again. */
  lemma PcKeepsInv(c: Setting, s: State, s': State, i: nat)
    requires Inv(c, s) && i < |c.batch| && s'.table == s.table && s'.lmTxn == s.lmTxn && s'.lmPos == s.lmPos
    requires |s'.pcs| == |s.pcs| && s'.pcs == s.pcs[i := s'.pcs[i]] && |s'.workers| == |s'.queues|
    requires PcOk(c, i, s'.pcs[i], i < s.lmTxn)
    requires forall p :: 0 <= p < |c.TxnAt(i).readSet| && ReleasedIn(c.TxnAt(i), s.pcs[i], p) ==> ReleasedIn(c.TxnAt(i), s'.pcs[i], p)
    requires forall k :: HasWritten(c.TxnAt(i), s'.pcs[i], k) == HasWritten(c.TxnAt(i), s.pcs[i], k)
    ensures Inv(c, s')
  {
    forall i': nat, p: nat, j: nat, q: nat | i' < j && Conflict(c, i', p, j, q) && !c.batch[i'].skipped && Granted(c, s', j, q)
      ensures ReleasedIn(c.TxnAt(i'), s'.pcs[i'], p)
    {
      assert Granted(c, s, j, q);
    }
    SameCuts(c, s, s');
    forall j | 0 <= j < |c.batch|
      ensures PcOk(c, j, s'.pcs[j], j < s'.lmTxn)
    {
      assert PcOk(c, j, s.pcs[j], j < s.lmTxn);
    }
  }

  lemma ReadKeepsInv(c: Setting, s: State, s': State, w: nat, i: nat)
    requires Inv(c, s) && Read(c, s, s', w, i)
    ensures Inv(c, s')
  {
    var x := c.TxnAt(i);
    var n, values := |x.readSet|, s.pcs[i].values;
    var p := n - 1 - |values|;
    ReadsSerial(c, s, i, p);
    assert PcOk(c, i, s.pcs[i], i < s.lmTxn);
    var all := PlannedReads(c.initial, c.batch, i);
    assert all[p..] == [all[p]] + all[p + 1..];
    PcKeepsInv(c, s, s', i);
  }

  lemma BeginWritingKeepsInv(c: Setting, s: State, s': State, w: nat, i: nat)
    requires Inv(c, s) && BeginWriting(c, s, s', w, i)
    ensures Inv(c, s')
  {
    assert PcOk(c, i, s.pcs[i], i < s.lmTxn);
    assert c.TxnAt(i).writeSet[..0] == [];
    PcKeepsInv(c, s, s', i);
  }

  lemma ReleaseKeepsInv(c: Setting, s: State, s': State, w: nat, i: nat)
    requires Inv(c, s) && Release(c, s, s', w, i)
    ensures Inv(c, s')
  {
    var x := c.TxnAt(i);
    assert PcOk(c, i, s.pcs[i], i < s.lmTxn);
    assert x.writeSet[..|x.writeSet|] == x.writeSet;
    assert forall n :: 0 <= n < |x.writeSet| ==> x.writeSet[..n + 1] == x.writeSet[..n] + [x.writeSet[n]];
    PcKeepsInv(c, s, s', i);
  }

  lemma WrittenNow(x: Txn, values: seq<Value>, q: nat, k: Key)
    requires q < |x.writeSet|
    ensures HasWritten(x, Writing(values, q + 1), k) <==> HasWritten(x, Writing(values, q), k) || k == x.writeSet[q]
  {
    assert x.writeSet[..q + 1] == x.writeSet[..q] + [x.writeSet[q]];
  }

  lemma WriteIs(c: Setting, s: State, s': State, w: nat, i: nat)
    requires Inv(c, s) && Write(c, s, s', w, i)
    ensures i < |c.batch| && s.pcs[i].Writing? && s.pcs[i].written < |c.TxnAt(i).writeSet| && Shaped(c, s')
    ensures s.pcs[i].values == PlannedReads(c.initial, c.batch, i) && !c.batch[i].skipped
    ensures s' == s.(table := s.table[c.TxnAt(i).writeSet[s.pcs[i].written] := c.TxnAt(i).output(s.pcs[i].values, s.pcs[i].written)],
                     pcs := s.pcs[i := Writing(s.pcs[i].values, s.pcs[i].written + 1)])
  {
    assert PcOk(c, i, s.pcs[i], i < s.lmTxn);
    WritesInOrder(c, s, i);
  }

  lemma WriteCuts(c: Setting, s: State, s': State, w: nat, i: nat, k: Key)
    requires Inv(c, s) && Write(c, s, s', w, i)
    ensures SomeCut(c, s', k)
  {
    WriteIs(c, s, s', w, i);
    var x, q, values := c.TxnAt(i), s.pcs[i].written, s.pcs[i].values;
    WrittenNow(x, values, q, k);
    if k == x.writeSet[q] {
      WritesInOrder(c, s, i);
      SerialKey(c.initial, c.batch, i, k);
      hide Inv, Write, HasWritten, Serial, Conflict, Holds;
      assert Cut(c, s', k, i + 1);
    } else {
      assert SomeCut(c, s, k);
      var u: nat :| Cut(c, s, k, u);
      hide Inv, Write, HasWritten, Serial;
      assert Cut(c, s', k, u);
    }
  }

  lemma WriteKeepsInv(c: Setting, s: State, s': State, w: nat, i: nat)
    requires Inv(c, s) && Write(c, s, s', w, i)
    ensures Inv(c, s')
  {
    WriteIs(c, s, s', w, i);
    forall k ensures SomeCut(c, s', k) { WriteCuts(c, s, s', w, i, k); }
    hide SomeCut, Write, Conflict;
    forall i': nat, p: nat, j: nat, r: nat | i' < j && Conflict(c, i', p, j, r) && !c.batch[i'].skipped && Granted(c, s', j, r)
      ensures ReleasedIn(c.TxnAt(i'), s'.pcs[i'], p)
    {
      assert Granted(c, s, j, r);
    }
    forall j | 0 <= j < |c.batch|
      ensures PcOk(c, j, s'.pcs[j], j < s'.lmTxn)
    {
      assert PcOk(c, j, s.pcs[j], j < s.lmTxn);
    }
  }

  // ------------------------------------------------------------------
  // The queues
  // ------------------------------------------------------------------

  predicate Active(pc: Pc) {
    pc.Reading? || pc.Writing? || pc.ReleasingReads? || pc.ReleasingWrites?
  }

  predicate InQueue(s: State, i: nat, w: nat, a: nat) {
    w < |s.queues| && a < |s.queues[w]| && s.queues[w][a] == i
  }

  ghost predicate StandsInQueue(s: State, i: nat) {
    exists w: nat, a: nat :: InQueue(s, i, w, a)
  }

  predicate IsBusy(s: State, w: nat, i: nat) {
    w < |s.workers| && s.workers[w] == Busy(i)
  }

  ghost predicate BusySomewhere(s: State, i: nat) {
    exists w: nat :: IsBusy(s, w, i)
  }

  /** Whoever is queued stands in one queue, once; whoever is active is at one worker. */
  ghost predicate QueuesOk(s: State) {
    && (forall i: nat, w: nat, a: nat :: InQueue(s, i, w, a) ==> i < |s.pcs| && s.pcs[i].Queued?)
    && (forall i: nat, w: nat, a: nat, w': nat, a': nat :: InQueue(s, i, w, a) && InQueue(s, i, w', a') ==> w == w' && a == a')
    && (forall i :: 0 <= i < |s.pcs| && s.pcs[i].Queued? ==> StandsInQueue(s, i))
    && (forall i: nat, w: nat :: IsBusy(s, w, i) ==> i < |s.pcs| && Active(s.pcs[i]))
    && (forall i: nat, w: nat, w': nat :: IsBusy(s, w, i) && IsBusy(s, w', i) ==> w == w')
    && (forall i :: 0 <= i < |s.pcs| && Active(s.pcs[i]) ==> BusySomewhere(s, i))
  }

  /** A worker that has seen the bit set looks at a queue that no longer grows. */
  ghost predicate BitOk(c: Setting, s: State)
    requires Shaped(c, s)
  {
    && (s.bit ==> s.lmTxn == |c.batch|)
    && (forall w :: 0 <= w < |s.workers| && (s.workers[w].SawBit? || s.workers[w].Exited?) ==> s.bit)
    && (forall w :: 0 <= w < |s.workers| && s.workers[w].Exited? ==> s.queues[w] == [])
  }

  ghost predicate FullInv(c: Setting, s: State) {
    Inv(c, s) && |s.queues| > 0 && QueuesOk(s) && BitOk(c, s)
  }

  lemma PopKeepsInv(c: Setting, s: State, s': State, w: nat)
    requires FullInv(c, s) && Pop(c, s, s', w)
    ensures Inv(c, s')
  {
    if s.queues[w] != [] {
      var i := s.queues[w][0];
      assert InQueue(s, i, w, 0);
      assert PcOk(c, i, s.pcs[i], i < s.lmTxn);
      PcKeepsInv(c, s, s', i);
    } else {
      SameCuts(c, s, s');
    }
  }

  lemma PopKeepsQueues(c: Setting, s: State, s': State, w: nat)
    requires FullInv(c, s) && Pop(c, s, s', w)
    ensures QueuesOk(s')
  {
    if s.queues[w] != [] {
      var n := s.queues[w][0];
      assert InQueue(s, n, w, 0);
      forall i: nat, v: nat, a: nat
        ensures InQueue(s', i, v, a) <==> InQueue(s, i, v, if v == w then a + 1 else a)
      {}
      forall i: nat, v: nat
        ensures IsBusy(s', v, i) <==> if v == w then i == n else IsBusy(s, v, i)
      {}
      forall i | 0 <= i < |s'.pcs| && s'.pcs[i].Queued?
        ensures StandsInQueue(s', i)
      {
        assert i != n && StandsInQueue(s, i);
        var v: nat, a: nat :| InQueue(s, i, v, a);
        assert InQueue(s', i, v, if v == w then a - 1 else a);
      }
      forall i | 0 <= i < |s'.pcs| && Active(s'.pcs[i])
        ensures BusySomewhere(s', i)
      {
        if i == n {
          assert IsBusy(s', w, i);
        } else {
          assert BusySomewhere(s, i);
          var v: nat :| IsBusy(s, v, i);
          assert IsBusy(s', v, i);
        }
      }
    } else {
      SameQueues(s, s');
    }
  }

  /** Queues, assignments and stages stay. */
  lemma SameQueues(s: State, s': State)
    requires QueuesOk(s) && s'.queues == s.queues && |s'.pcs| == |s.pcs|
    requires forall i: nat, w: nat :: IsBusy(s', w, i) == IsBusy(s, w, i)
    requires forall i :: 0 <= i < |s.pcs| ==> s'.pcs[i].Queued? == s.pcs[i].Queued? && Active(s'.pcs[i]) == Active(s.pcs[i])
    ensures QueuesOk(s')
  {
    forall i: nat, w: nat, a: nat ensures InQueue(s', i, w, a) == InQueue(s, i, w, a) {}
    forall i | 0 <= i < |s'.pcs| && s'.pcs[i].Queued?
      ensures StandsInQueue(s', i)
    {
      assert StandsInQueue(s, i);
      var w: nat, a: nat :| InQueue(s, i, w, a);
      assert InQueue(s', i, w, a);
    }
    forall i | 0 <= i < |s'.pcs| && Active(s'.pcs[i])
      ensures BusySomewhere(s', i)
    {
      assert BusySomewhere(s, i);
      var w: nat :| IsBusy(s, w, i);
      assert IsBusy(s', w, i);
    }
  }

  lemma HandOverKeepsQueues(c: Setting, s: State, s': State)
    requires FullInv(c, s) && (Skip(c, s, s') || Dispatch(c, s, s'))
    ensures QueuesOk(s')
  {
    var n := s.lmTxn;
    assert PcOk(c, n, s.pcs[n], false);
    if s'.pcs[n].Queued? {
      var w := s.requestId % |s.queues|;
      var end := |s.queues[w]|;
      forall i: nat, v: nat, a: nat
        ensures InQueue(s', i, v, a) <==> InQueue(s, i, v, a) || (i == n && v == w && a == end)
      {}
      forall i: nat, v: nat ensures IsBusy(s', v, i) == IsBusy(s, v, i) {}
      forall i | 0 <= i < |s'.pcs| && s'.pcs[i].Queued?
        ensures StandsInQueue(s', i)
      {
        if i == n {
          assert InQueue(s', i, w, end);
        } else {
          assert StandsInQueue(s, i);
          var v: nat, a: nat :| InQueue(s, i, v, a);
          assert InQueue(s', i, v, a);
        }
      }
      forall i | 0 <= i < |s'.pcs| && Active(s'.pcs[i])
        ensures BusySomewhere(s', i)
      {
        assert BusySomewhere(s, i);
        var v: nat :| IsBusy(s, v, i);
        assert IsBusy(s', v, i);
      }
    } else {
      SameQueues(s, s');
    }
  }

  /** The last release ends the work of the one worker that was at it. */
  lemma ReleaseKeepsQueues(c: Setting, s: State, s': State, w: nat, i: nat)
    requires FullInv(c, s) && Release(c, s, s', w, i)
    ensures QueuesOk(s')
  {
    if s'.pcs[i].Finished? {
      assert IsBusy(s, w, i);
      forall j: nat, v: nat, a: nat ensures InQueue(s', j, v, a) == InQueue(s, j, v, a) {}
      forall j: nat, v: nat ensures IsBusy(s', v, j) <==> v != w && IsBusy(s, v, j) {}
      forall j | 0 <= j < |s'.pcs| && s'.pcs[j].Queued?
        ensures StandsInQueue(s', j)
      {
        assert StandsInQueue(s, j);
        var v: nat, a: nat :| InQueue(s, j, v, a);
        assert InQueue(s', j, v, a);
      }
      forall j | 0 <= j < |s'.pcs| && Active(s'.pcs[j])
        ensures BusySomewhere(s', j)
      {
        assert j != i && BusySomewhere(s, j);
        var v: nat :| IsBusy(s, v, j);
        assert v != w;
        assert IsBusy(s', v, j);
      }
    } else {
      SameQueues(s, s');
    }
  }

  lemma SameWork(c: Setting, s: State, s': State)
    requires Inv(c, s) && s'.table == s.table && s'.pcs == s.pcs && s'.lmTxn == s.lmTxn && s'.lmPos == s.lmPos
    requires |s'.workers| == |s'.queues|
    ensures Inv(c, s')
  {
    SameCuts(c, s, s');
    forall i: nat, p: nat, j: nat, q: nat | i < j && Conflict(c, i, p, j, q) && !c.batch[i].skipped && Granted(c, s', j, q)
      ensures ReleasedIn(c.TxnAt(i), s'.pcs[i], p)
    {
      assert Granted(c, s, j, q);
    }
  }

  lemma LookKeepsInv(c: Setting, s: State, s': State, w: nat)
    requires FullInv(c, s) && (LookAtBit(s, s', w) || LookAtQueue(s, s', w))
    ensures FullInv(c, s')
  {
    SameWork(c, s, s');
    forall i: nat, v: nat ensures IsBusy(s', v, i) == IsBusy(s, v, i) {}
    SameQueues(s, s');
  }

  lemma StepKeepsInv(c: Setting, s: State, s': State, m: Move)
    requires FullInv(c, s) && Step(c, s, s', m)
    ensures FullInv(c, s')
  {
    StepKeepsBit(c, s, s', m);
    StepKeepsQueues(c, s, s', m);
    hide Inv, QueuesOk, BitOk, Grant, Skip, Dispatch, Read, BeginWriting, Write, Release, Pop, LookAtBit, LookAtQueue;
    match m
    case Grants => GrantKeepsInv(c, s, s');
    case Skips => HandOverKeepsInv(c, s, s');
    case Dispatches => HandOverKeepsInv(c, s, s');
    case SetsBit => SetBitKeepsInv(c, s, s');
    case LooksAtBit(w) => LookKeepsInv(c, s, s', w);
    case LooksAtQueue(w) => LookKeepsInv(c, s, s', w);
    case Pops(w) => PopKeepsInv(c, s, s', w);
    case Reads(w, i) => ReadKeepsInv(c, s, s', w, i);
    case BeginsWriting(w, i) => BeginWritingKeepsInv(c, s, s', w, i);
    case Stores(w, i) => WriteKeepsInv(c, s, s', w, i);
    case Releases(w, i) => ReleaseKeepsInv(c, s, s', w, i);
  }

  lemma SetBitKeepsInv(c: Setting, s: State, s': State)
    requires FullInv(c, s) && SetBit(c, s, s')
    ensures Inv(c, s')
  {
    SameWork(c, s, s');
  }

  lemma StepKeepsBit(c: Setting, s: State, s': State, m: Move)
    requires Shaped(c, s) && BitOk(c, s) && |s.queues| > 0 && Step(c, s, s', m)
    ensures |s'.queues| > 0 && Shaped(c, s') && BitOk(c, s')
  {
    hide Free, NotWriteLocked, Holders, Grantable, NeedsLock, Indexed;
  }

  lemma WorkKeepsQueues(c: Setting, s: State, s': State, w: nat, i: nat)
    requires Shaped(c, s) && QueuesOk(s) && (Read(c, s, s', w, i) || BeginWriting(c, s, s', w, i) || Write(c, s, s', w, i))
    ensures QueuesOk(s')
  {
    assert s'.queues == s.queues && s'.workers == s.workers;
    assert s'.pcs == s.pcs[i := s'.pcs[i]] && Active(s.pcs[i]) && Active(s'.pcs[i]);
    hide QueuesOk, Read, BeginWriting, Write;
    SameQueues(s, s');
  }

  lemma ManagerKeepsQueues(c: Setting, s: State, s': State)
    requires Shaped(c, s) && QueuesOk(s) && (Grant(c, s, s') || SetBit(c, s, s'))
    ensures QueuesOk(s')
  {
    assert s'.queues == s.queues && s'.workers == s.workers && s'.pcs == s.pcs;
    hide QueuesOk, Grant;
    SameQueues(s, s');
  }

  lemma StepKeepsQueues(c: Setting, s: State, s': State, m: Move)
    requires FullInv(c, s) && Step(c, s, s', m)
    ensures QueuesOk(s')
  {
    FullInvGives(c, s);
    hide FullInv, Grant, SetBit, Skip, Dispatch, Read, BeginWriting, Write, Release, Pop, LookAtBit, LookAtQueue, QueuesOk, Shaped;
    match m
    case Grants => ManagerKeepsQueues(c, s, s');
    case Skips => HandOverKeepsQueues(c, s, s');
    case Dispatches => HandOverKeepsQueues(c, s, s');
    case SetsBit => ManagerKeepsQueues(c, s, s');
    case LooksAtBit(w) => LookKeepsInv(c, s, s', w); FullInvGives(c, s');
    case LooksAtQueue(w) => LookKeepsInv(c, s, s', w); FullInvGives(c, s');
    case Pops(w) => PopKeepsQueues(c, s, s', w);
    case Reads(w, i) => WorkKeepsQueues(c, s, s', w, i);
    case BeginsWriting(w, i) => WorkKeepsQueues(c, s, s', w, i);
    case Stores(w, i) => WorkKeepsQueues(c, s, s', w, i);
    case Releases(w, i) => ReleaseKeepsQueues(c, s, s', w, i);
  }

  lemma FullInvGives(c: Setting, s: State)
    requires FullInv(c, s)
    ensures Shaped(c, s) && QueuesOk(s)
  {}

  // ------------------------------------------------------------------
  // Every run
  // ------------------------------------------------------------------

  ghost predicate Init(c: Setting, s: State) {
    && s.table == c.initial && |s.pcs| == |c.batch| && (forall i :: 0 <= i < |s.pcs| ==> s.pcs[i].NotGranted?)
    && s.lmTxn == 0 && s.lmPos == 0 && !s.bit && s.requestId == 0
    && |s.queues| > 0 && |s.workers| == |s.queues|
    && forall w :: 0 <= w < |s.workers| ==> s.queues[w] == [] && s.workers[w].AtHead?
  }

  lemma InitHasInv(c: Setting, s: State)
    requires c.Valid() && Init(c, s)
    ensures FullInv(c, s)
  {
    forall k ensures SomeCut(c, s, k) { assert Cut(c, s, k, 0); }
  }

  ghost predicate SomeStep(c: Setting, s: State, s': State)
    requires Shaped(c, s)
  {
    exists m :: Step(c, s, s', m)
  }

  ghost predicate Run(c: Setting, run: seq<State>) {
    && |run| > 0 && c.Valid() && Init(c, run[0])
    && forall n :: 0 <= n < |run| - 1 ==> Shaped(c, run[n]) && SomeStep(c, run[n], run[n + 1])
  }

  lemma {:induction false} RunKeepsInv(c: Setting, run: seq<State>, n: nat)
    requires Run(c, run) && n < |run|
    ensures FullInv(c, run[n])
    decreases n
  {
    if n == 0 {
      InitHasInv(c, run[0]);
    } else {
      RunKeepsInv(c, run, n - 1);
      assert SomeStep(c, run[n - 1], run[n - 1 + 1]);
      var m :| Step(c, run[n - 1], run[n], m);
      StepKeepsInv(c, run[n - 1], run[n], m);
    }
  }

  ghost predicate AllExited(s: State) {
    forall w :: 0 <= w < |s.workers| ==> s.workers[w].Exited?
  }

  /** When all workers have left their loops, no transaction has been left behind. */
  lemma NothingLost(c: Setting, s: State)
    requires FullInv(c, s) && AllExited(s)
    ensures forall i :: 0 <= i < |c.batch| ==> s.pcs[i].Finished?
  {
    assert s.workers[0].Exited?;
    forall i | 0 <= i < |c.batch|
      ensures s.pcs[i].Finished?
    {
      assert PcOk(c, i, s.pcs[i], i < s.lmTxn);
      assert Active(s.pcs[i]) ==> BusySomewhere(s, i);
      assert s.pcs[i].Queued? ==> StandsInQueue(s, i);
    }
  }

  /** And the table is that of running the batch one by one in its order. */
  lemma BatchIsSerial(c: Setting, run: seq<State>)
    requires Run(c, run) && AllExited(run[|run| - 1])
    ensures run[|run| - 1].table == RunSerial(c.initial, Txns(c.batch))
  {
    var s := run[|run| - 1];
    RunKeepsInv(c, run, |run| - 1);
    NothingLost(c, s);
    forall k
      ensures SameAt(s.table, Serial(c.initial, c.batch, |c.batch|), k)
    {
      CutAt(c, s, k, |c.batch|);
    }
    SameEverywhere(s.table, Serial(c.initial, c.batch, |c.batch|));
    SerialAll(c.initial, c.batch);
  }

  // ------------------------------------------------------------------
  // Exactly once
  // ------------------------------------------------------------------

  function Stage(pc: Pc): nat {
    match pc
    case NotGranted => 0
    case Queued => 1
    case Reading(_) => 2
    case Writing(_, _) => 3
    case ReleasingReads(_) => 4
    case ReleasingWrites(_) => 5
    case Finished => 6
  }

  lemma StageNeverFalls(c: Setting, s: State, s': State, m: Move, i: nat)
    requires Shaped(c, s) && Step(c, s, s', m) && i < |c.batch|
    requires s.lmTxn < |c.batch| ==> s.pcs[s.lmTxn].NotGranted?
    requires m.Pops? ==> FrontQueued(s, m.w)
    ensures |s'.pcs| == |s.pcs| && Stage(s'.pcs[i]) >= Stage(s.pcs[i])
  {
    hide Free, NotWriteLocked, Holders, Grantable, Indexed, NeedsLock;
  }

  predicate FrontQueued(s: State, w: nat) {
    w < |s.queues| && s.queues[w] != [] && s.queues[w][0] < |s.pcs| ==> s.pcs[s.queues[w][0]].Queued?
  }

  lemma FrontIsQueued(c: Setting, s: State, w: nat)
    requires FullInv(c, s)
    ensures FrontQueued(s, w)
    ensures Shaped(c, s) && (s.lmTxn < |c.batch| ==> s.pcs[s.lmTxn].NotGranted?)
  {
    if w < |s.queues| && s.queues[w] != [] { assert InQueue(s, s.queues[w][0], w, 0); }
    if s.lmTxn < |c.batch| { assert PcOk(c, s.lmTxn, s.pcs[s.lmTxn], false); }
  }

  lemma StepOfRun(c: Setting, run: seq<State>, n: nat) returns (m: Move)
    requires Run(c, run) && n + 1 < |run|
    ensures FullInv(c, run[n]) && Shaped(c, run[n]) && Step(c, run[n], run[n + 1], m)
  {
    RunKeepsInv(c, run, n);
    assert SomeStep(c, run[n], run[n + 1]);
    m :| Step(c, run[n], run[n + 1], m);
  }

  predicate Takes(s: State, w: nat, i: nat) {
    w < |s.workers| && w < |s.queues| && s.queues[w] != [] && s.queues[w][0] == i
  }

  lemma {:induction false} StageAfter(c: Setting, run: seq<State>, n: nat, m: nat, i: nat)
    requires Run(c, run) && n <= m < |run| && i < |c.batch| && |run[n].pcs| == |c.batch|
    ensures |run[m].pcs| == |c.batch| && Stage(run[m].pcs[i]) >= Stage(run[n].pcs[i])
    decreases m
  {
    hide *;
    if n < m {
      StageAfter(c, run, n, m - 1, i);
      var move := StepOfRun(c, run, m - 1);
      FrontIsQueued(c, run[m - 1], if move.Pops? then move.w else 0);
      StageNeverFalls(c, run[m - 1], run[m], move, i);
    }
  }

  /** No transaction is taken from a queue twice. */
  lemma TakenOnce(c: Setting, run: seq<State>, n: nat, m: nat, w: nat, w': nat, i: nat)
    requires Run(c, run) && n < m < |run| && i < |c.batch|
    requires Shaped(c, run[n]) && Takes(run[n], w, i) && Pop(c, run[n], run[n + 1], w)
    ensures !Takes(run[m], w', i)
  {
    RunKeepsInv(c, run, n + 1);
    RunKeepsInv(c, run, m);
    StageAfter(c, run, n + 1, m, i);
    assert Takes(run[m], w', i) ==> InQueue(run[m], i, w', 0);
  }
}
