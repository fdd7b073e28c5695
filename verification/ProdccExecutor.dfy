/**
 The five phases in which PRDCC's workers run one micro-block: execute,
 reserve, analyze, finalize, clean up. Worker `id` of `workerNum` handles the
 transactions id, id + workerNum, ... of the block.
 */
module ProdccExecutor {
  import opened Transactions
  import opened AriaHelper
  import opened Aria
  import opened Strides

  /** A transaction of the batch with the flags the phases set on it. */
  datatype TxnState = TxnState(
    txn: Txn,
    values: seq<Value>,
    raw: bool, war: bool, waw: bool,
    abortNoRetry: bool, abortLock: bool, delayLock: bool)
  {
    /** None of the flags that make the later phases skip the transaction. */
    predicate Active() { !abortNoRetry && !abortLock && !delayLock }
  }

  function NewState(x: Txn): TxnState {
    TxnState(x, [], false, false, false, false, false, false)
  }

  function WordOf(m: map<Key, Word>, k: Key): Word {
    if k in m then m[k] else 0
  }

  // ------------------------------------------------------------------
  // What one phase does to one transaction
  // ------------------------------------------------------------------

  function Judge(s: TxnState, outcome: Outcome): TxnState {
    match outcome
    case Ready => s
    case Abort => s.(delayLock := true)
    case AbortNoRetry => s.(abortNoRetry := true)
  }

  /** The execute phase: read everything, run the procedure. */
  function Executed(t: Table, s: TxnState): TxnState {
    if s.abortNoRetry then s
    else
      var vs := ReadValues(t, s.txn);
      Judge(s.(values := vs), s.txn.outcome(vs))
  }

  /** The reserve phase runs the procedure again, to fill in the write set. */
  function Filled(s: TxnState): TxnState {
    if s.Active() then Judge(s, s.txn.outcome(s.values)) else s
  }

  predicate RawTest(m: map<Key, Word>, epoch: nat, x: Txn, n: nat)
    requires n <= |x.readSet|
  {
    exists p :: 0 <= p < n && !x.readSet[p].localIndex &&
      var w := WordOf(m, x.readSet[p].key); SmallerIn(w, epoch, GetWts(w), x.id)
  }

  predicate WarTest(m: map<Key, Word>, epoch: nat, x: Txn, n: nat)
    requires n <= |x.writeSet|
  {
    exists p :: 0 <= p < n && var w := WordOf(m, x.writeSet[p]); SmallerIn(w, epoch, GetRts(w), x.id)
  }

  predicate WawTest(m: map<Key, Word>, epoch: nat, x: Txn, n: nat)
    requires n <= |x.writeSet|
  {
    exists p :: 0 <= p < n && var w := WordOf(m, x.writeSet[p]); SmallerIn(w, epoch, GetWts(w), x.id)
  }

  function Analyzed(o: Options, m: map<Key, Word>, epoch: nat, s: TxnState): TxnState {
    if !s.Active() || !Reserves(o, s.txn) then s
    else s.(raw := s.raw || RawTest(m, epoch, s.txn, |s.txn.readSet|),
            war := s.war || WarTest(m, epoch, s.txn, |s.txn.writeSet|),
            waw := s.waw || WawTest(m, epoch, s.txn, |s.txn.writeSet|))
  }

  predicate Granted(o: Options, s: TxnState) {
    CommitRule(o, s.txn.ReadOnly(), s.raw, s.war, s.waw)
  }

  function Finalized(o: Options, s: TxnState): TxnState {
    if s.Active() && !Granted(o, s) then s.(delayLock := true) else s
  }

  // ------------------------------------------------------------------
  // What the words of all keys say
  // ------------------------------------------------------------------

  /** Every word summarizes the reservations `xs` made in `epoch`. */
  ghost predicate Reservations(o: Options, m: map<Key, Word>, epoch: nat, xs: set<Txn>) {
    forall k :: Summarizes(WordOf(m, k), epoch, ReaderIds(o, xs, k), WriterIds(o, xs, k))
  }

  /** No word holds a reservation of `epoch`. */
  ghost predicate Stale(m: map<Key, Word>, epoch: nat) {
    forall k :: GetEpoch(WordOf(m, k)) < epoch
  }

  lemma StaleIsUnreserved(o: Options, m: map<Key, Word>, epoch: nat)
    requires Stale(m, epoch)
    ensures Reservations(o, m, epoch, {})
  {}

  function IfThen(b: bool, id: nat): set<nat> { if b then {id} else {} }

  ghost predicate ReadBefore(x: Txn, n: nat, k: Key)
    requires n <= |x.readSet|
  {
    exists p :: 0 <= p < n && x.readSet[p] == ReadKey(k, false)
  }

  ghost function ReadersSoFar(o: Options, xs: set<Txn>, x: Txn, p: nat, k: Key): set<nat>
    requires p <= |x.readSet|
  {
    ReaderIds(o, xs, k) + IfThen(ReadBefore(x, p, k), x.id)
  }

  ghost function WritersSoFar(o: Options, xs: set<Txn>, x: Txn, q: nat, k: Key): set<nat>
    requires q <= |x.writeSet|
  {
    WriterIds(o, xs, k) + IfThen(k in x.writeSet[..q], x.id)
  }

  /** `x` has reserved its first `p` reads and its first `q` writes, `xs` all theirs. */
  ghost predicate Reserving(o: Options, m: map<Key, Word>, epoch: nat, xs: set<Txn>, x: Txn, p: nat, q: nat)
    requires p <= |x.readSet| && q <= |x.writeSet|
  {
    forall k :: Summarizes(WordOf(m, k), epoch, ReadersSoFar(o, xs, x, p, k), WritersSoFar(o, xs, x, q, k))
  }

  ghost predicate PositiveIds(xs: set<Txn>) {
    forall x :: x in xs ==> 0 < x.id
  }

  /** The reservation of one key leaves all other words alone. */
  lemma ReserveKey(kind: Kind, m: map<Key, Word>, epoch: nat, key: Key, id: nat, readers: set<nat>, writers: set<nat>)
    requires Summarizes(WordOf(m, key), epoch, readers, writers)
    requires epoch < EPOCH_LIMIT && 0 < id < TS_LIMIT && 0 !in readers && 0 !in writers
    ensures GetEpoch(WordOf(m, key)) <= epoch
    ensures var m' := m[key := Reserve(kind, WordOf(m, key), epoch, id)];
            && Summarizes(WordOf(m', key), epoch, readers + IdsOf(kind, ForRead, id), writers + IdsOf(kind, ForWrite, id))
            && forall k :: k != key ==> WordOf(m', k) == WordOf(m, k)
  {
    ReserveSummarizes(kind, WordOf(m, key), epoch, id, readers, writers);
  }

  lemma NoZeroIds(o: Options, xs: set<Txn>, x: Txn, p: nat, q: nat, k: Key)
    requires p <= |x.readSet| && q <= |x.writeSet| && PositiveIds(xs) && 0 < x.id
    ensures 0 !in ReadersSoFar(o, xs, x, p, k) && 0 !in WritersSoFar(o, xs, x, q, k)
  {}

  lemma ReserveOneRead(o: Options, m: map<Key, Word>, epoch: nat, xs: set<Txn>, x: Txn, p: nat)
    requires p < |x.readSet| && Reserving(o, m, epoch, xs, x, p, 0)
    requires epoch < EPOCH_LIMIT && 0 < x.id < TS_LIMIT && PositiveIds(xs)
    ensures x.readSet[p].localIndex ==> Reserving(o, m, epoch, xs, x, p + 1, 0)
    ensures !x.readSet[p].localIndex ==>
              var k := x.readSet[p].key;
              && GetEpoch(WordOf(m, k)) <= epoch
              && Reserving(o, m[k := Reserve(ForRead, WordOf(m, k), epoch, x.id)], epoch, xs, x, p + 1, 0)
  {
    hide Summarizes, Reserve, ReaderIds, WriterIds;
    var r := x.readSet[p];
    forall k
      ensures ReadersSoFar(o, xs, x, p + 1, k) == ReadersSoFar(o, xs, x, p, k) + IfThen(r == ReadKey(k, false), x.id)
    {
      assert ReadBefore(x, p + 1, k) <==> ReadBefore(x, p, k) || r == ReadKey(k, false);
    }
    if !r.localIndex {
      NoZeroIds(o, xs, x, p, 0, r.key);
      ReserveKey(ForRead, m, epoch, r.key, x.id, ReadersSoFar(o, xs, x, p, r.key), WritersSoFar(o, xs, x, 0, r.key));
      assert WritersSoFar(o, xs, x, 0, r.key) + {} == WritersSoFar(o, xs, x, 0, r.key);
    }
  }

  lemma ReserveOneWrite(o: Options, m: map<Key, Word>, epoch: nat, xs: set<Txn>, x: Txn, q: nat)
    requires q < |x.writeSet| && Reserving(o, m, epoch, xs, x, |x.readSet|, q)
    requires epoch < EPOCH_LIMIT && 0 < x.id < TS_LIMIT && PositiveIds(xs)
    ensures var k := x.writeSet[q];
            && GetEpoch(WordOf(m, k)) <= epoch
            && Reserving(o, m[k := Reserve(ForWrite, WordOf(m, k), epoch, x.id)], epoch, xs, x, |x.readSet|, q + 1)
  {
    hide Summarizes, Reserve, ReaderIds, WriterIds;
    var key := x.writeSet[q];
    assert x.writeSet[..q + 1] == x.writeSet[..q] + [key];
    forall k
      ensures WritersSoFar(o, xs, x, q + 1, k) == WritersSoFar(o, xs, x, q, k) + IfThen(k == key, x.id)
    {}
    var p := |x.readSet|;
    NoZeroIds(o, xs, x, p, q, key);
    ReserveKey(ForWrite, m, epoch, key, x.id, ReadersSoFar(o, xs, x, p, key), WritersSoFar(o, xs, x, q, key));
    assert ReadersSoFar(o, xs, x, p, key) + {} == ReadersSoFar(o, xs, x, p, key);
  }

  lemma ReservingStarts(o: Options, m: map<Key, Word>, epoch: nat, xs: set<Txn>, x: Txn)
    requires Reservations(o, m, epoch, xs)
    ensures Reserving(o, m, epoch, xs, x, 0, 0)
  {
    hide Summarizes, ReaderIds, WriterIds;
    forall k
      ensures ReadersSoFar(o, xs, x, 0, k) == ReaderIds(o, xs, k)
      ensures WritersSoFar(o, xs, x, 0, k) == WriterIds(o, xs, k)
    {}
  }

  lemma ReservingEnds(o: Options, m: map<Key, Word>, epoch: nat, xs: set<Txn>, x: Txn)
    requires Reserves(o, x) && Reserving(o, m, epoch, xs, x, |x.readSet|, |x.writeSet|)
    ensures Reservations(o, m, epoch, xs + {x})
  {
    hide Summarizes, ReaderIds, WriterIds;
    assert x.writeSet[..|x.writeSet|] == x.writeSet;
    forall k
      ensures ReaderIds(o, xs + {x}, k) == ReadersSoFar(o, xs, x, |x.readSet|, k)
      ensures WriterIds(o, xs + {x}, k) == WritersSoFar(o, xs, x, |x.writeSet|, k)
    {
      assert ReadBefore(x, |x.readSet|, k) == x.Reads(k);
      AddId(o, xs, x, k);
    }
  }

  lemma UnreservedAddsNothing(o: Options, m: map<Key, Word>, epoch: nat, xs: set<Txn>, x: Txn)
    requires !Reserves(o, x) && Reservations(o, m, epoch, xs)
    ensures Reservations(o, m, epoch, xs + {x})
  {
    forall k
      ensures ReaderIds(o, xs + {x}, k) == ReaderIds(o, xs, k) && WriterIds(o, xs + {x}, k) == WriterIds(o, xs, k)
    {
      AddId(o, xs, x, k);
    }
  }

  lemma AddId(o: Options, xs: set<Txn>, x: Txn, k: Key)
    ensures ReaderIds(o, xs + {x}, k) == ReaderIds(o, xs, k) + IfThen(Reserves(o, x) && x.Reads(k), x.id)
    ensures WriterIds(o, xs + {x}, k) == WriterIds(o, xs, k) + IfThen(Reserves(o, x) && x.WritesKey(k), x.id)
  {}

  // ------------------------------------------------------------------
  // The positions a phase has handled
  // ------------------------------------------------------------------

  predicate Below(i: nat, n: nat) { i < n }

  ghost function Positions(n: nat): set<nat> { set i | 0 <= i < n && Below(i, n) }

  /** The positions the workers below `id` handle, and those of worker `id` below `upto`. */
  ghost function Handled(n: nat, width: nat, id: nat, upto: nat): set<nat>
    requires width > 0
  {
    set i | 0 <= i < n && (WorkerOf(i, width) < id || (WorkerOf(i, width) == id && i < upto))
  }

  lemma HandleOne(n: nat, width: nat, id: nat, i: nat)
    requires width > 0 && i < n && WorkerOf(i, width) == id
    ensures Handled(n, width, id, i + width) == Handled(n, width, id, i) + {i}
    ensures i !in Handled(n, width, id, i)
    ensures WorkerOf(i + width, width) == id
  {
    NextStride(i, width);
  }

  lemma HandleAll(n: nat, width: nat, id: nat, upto: nat)
    requires id < width && upto >= n
    ensures Handled(n, width, id, upto) == Handled(n, width, id + 1, 0)
    ensures id + 1 == width ==> Handled(n, width, id, upto) == Positions(n)
  {}

  lemma HandleFirst(n: nat, width: nat, id: nat)
    requires id < width
    ensures Handled(n, width, id, 0) == Handled(n, width, id, id)
    ensures WorkerOf(id, width) == id
    ensures forall i :: 0 <= i < id ==> WorkerOf(i, width) != id
  {}

  /** The transactions at these positions that the phases have not dropped. */
  ghost function ActiveAt(b: seq<TxnState>, done: set<nat>): set<Txn> {
    set i | i in done && i < |b| && b[i].Active() :: b[i].txn
  }

  ghost function Active(b: seq<TxnState>): seq<Txn> {
    if b == [] then [] else Active(b[..|b| - 1]) + (if b[|b| - 1].Active() then [b[|b| - 1].txn] else [])
  }

  lemma {:induction false} ActiveMembers(b: seq<TxnState>)
    ensures forall x :: x in Active(b) <==> exists i :: 0 <= i < |b| && b[i].Active() && b[i].txn == x
    ensures Members(Active(b)) == ActiveAt(b, Positions(|b|))
    decreases |b|
  {
    if b != [] {
      var front := b[..|b| - 1];
      ActiveMembers(front);
      assert forall i :: 0 <= i < |front| ==> front[i] == b[i];
      forall x
        ensures x in Active(b) <==> exists i :: 0 <= i < |b| && b[i].Active() && b[i].txn == x
      {
        if x in Active(front) {
          var i :| 0 <= i < |front| && front[i].Active() && front[i].txn == x;
          assert b[i] == front[i];
        }
      }
    }
  }

  // ------------------------------------------------------------------
  // The executor
  // ------------------------------------------------------------------

  class ProdccExecutor {
    const options: Options
    const workerNum: nat
    var table: Table
    var metadata: map<Key, Word>
    var epoch: nat
    var block: seq<TxnState>

    constructor (options: Options, workerNum: nat, table: Table)
      ensures this.options == options && this.workerNum == workerNum && this.table == table
      ensures metadata == map[] && epoch == 0 && block == []
    {
      this.options := options;
      this.workerNum := workerNum;
      this.table := table;
      metadata := map[];
      epoch := 0;
      block := [];
    }

    /** The read handlers run from the last entry of the read set to the first. */
    method ProcessRequests(x: Txn) returns (vs: seq<Value>)
      ensures vs == ReadValues(table, x)
    {
      vs := [];
      var i := |x.readSet|;
      while i > 0
        invariant 0 <= i <= |x.readSet|
        invariant vs == ReadValues(table, x)[i..]
      {
        i := i - 1;
        vs := [Lookup(table, x.readSet[i].key)] + vs;
      }
    }

    method ExecuteTransactions(id: nat)
      requires id < workerNum
      modifies this`block
      ensures |block| == |old(block)|
      ensures forall i :: 0 <= i < |block| ==>
                block[i] == if WorkerOf(i, workerNum) == id then Executed(table, old(block[i])) else old(block[i])
    {
      HandleFirst(|block|, workerNum, id);
      var i := id;
      while i < |block|
        invariant |block| == |old(block)| && WorkerOf(i, workerNum) == id
        invariant forall j :: 0 <= j < |block| ==>
                    block[j] == if WorkerOf(j, workerNum) == id && j < i then Executed(table, old(block[j])) else old(block[j])
      {
        NextStride(i, workerNum);
        if !block[i].abortNoRetry {
          var vs := ProcessRequests(block[i].txn);
          var result := block[i].txn.outcome(vs);
          block := block[i := block[i].(values := vs)];
          if result == AbortNoRetry {
            block := block[i := block[i].(abortNoRetry := true)];
          } else if result == Abort {
            block := block[i := block[i].(delayLock := true)];
          }
        }
        i := i + workerNum;
      }
    }

    method ReserveTransaction(x: Txn, ghost xs: set<Txn>)
      requires Reservations(options, metadata, epoch, xs) && PositiveIds(xs)
      requires epoch < EPOCH_LIMIT && 0 < x.id < TS_LIMIT
      modifies this`metadata
      ensures Reservations(options, metadata, epoch, xs + {x})
    {
      if options.readOnlyOptimization && x.ReadOnly() {
        UnreservedAddsNothing(options, metadata, epoch, xs, x);
        return;
      }
      hide *;
      ReservingStarts(options, metadata, epoch, xs, x);
      for i := 0 to |x.readSet|
        invariant Reserving(options, metadata, epoch, xs, x, i, 0)
      {
        ReserveOneRead(options, metadata, epoch, xs, x, i);
        if !x.readSet[i].localIndex {
          var k := x.readSet[i].key;
          metadata := metadata[k := Reserve(ForRead, WordOf(metadata, k), epoch, x.id)];
        }
      }
      for i := 0 to |x.writeSet|
        invariant Reserving(options, metadata, epoch, xs, x, |x.readSet|, i)
      {
        ReserveOneWrite(options, metadata, epoch, xs, x, i);
        var k := x.writeSet[i];
        metadata := metadata[k := Reserve(ForWrite, WordOf(metadata, k), epoch, x.id)];
      }
      ReservingEnds(options, metadata, epoch, xs, x);
    }

    method ReserveTransactions(id: nat)
      requires id < workerNum && epoch < EPOCH_LIMIT
      requires forall i :: 0 <= i < |block| ==> 0 < block[i].txn.id < TS_LIMIT
      requires Reservations(options, metadata, epoch, ActiveAt(block, Handled(|block|, workerNum, id, 0)))
      modifies this`block, this`metadata
      ensures |block| == |old(block)|
      ensures forall i :: 0 <= i < |block| ==>
                block[i] == if WorkerOf(i, workerNum) == id then Filled(old(block[i])) else old(block[i])
      ensures Reservations(options, metadata, epoch, ActiveAt(block, Handled(|block|, workerNum, id + 1, 0)))
    {
      hide Reservations, Handled, ActiveAt, WorkerOf;
      HandleFirst(|block|, workerNum, id);
      var i := id;
      while i < |block|
        invariant |block| == |old(block)| && WorkerOf(i, workerNum) == id
        invariant forall j :: 0 <= j < |block| ==>
                    block[j] == if WorkerOf(j, workerNum) == id && j < i then Filled(old(block[j])) else old(block[j])
        invariant Reservations(options, metadata, epoch, ActiveAt(block, Handled(|block|, workerNum, id, i)))
      {
        NextStride(i, workerNum);
        HandleOne(|block|, workerNum, id, i);
        ghost var done := Handled(|block|, workerNum, id, i);
        ghost var xs := ActiveAt(block, done);
        ghost var b := block;
        ActiveAtPositive(block, done);
        if block[i].Active() {
          var result := block[i].txn.outcome(block[i].values);
          if result == AbortNoRetry {
            block := block[i := block[i].(abortNoRetry := true)];
          } else if result == Abort {
            block := block[i := block[i].(delayLock := true)];
          } else {
            ReserveTransaction(block[i].txn, xs);
          }
        }
        ActiveAtUpdate(b, block, done, i);
        i := i + workerNum;
      }
      HandleAll(|block|, workerNum, id, i);
    }

    /** Looks at the words of the keys; `raw` stops at the first hit, the other two look at every key. */
    method AnalyzeDependency(s: TxnState) returns (s': TxnState)
      requires s.Active()
      ensures s' == Analyzed(options, metadata, epoch, s)
    {
      s' := s;
      var x := s.txn;
      if options.readOnlyOptimization && x.ReadOnly() { return; }
      var i := 0;
      while i < |x.readSet|
        invariant 0 <= i <= |x.readSet|
        invariant s' == s && !RawTest(metadata, epoch, x, i)
      {
        if !x.readSet[i].localIndex {
          var w := WordOf(metadata, x.readSet[i].key);
          if SmallerIn(w, epoch, GetWts(w), x.id) {
            assert RawTest(metadata, epoch, x, |x.readSet|);
            s' := s'.(raw := true);
            break;
          }
        }
        i := i + 1;
      }
      assert s' == s.(raw := s.raw || RawTest(metadata, epoch, x, |x.readSet|));
      for j := 0 to |x.writeSet|
        invariant s' == s.(raw := s.raw || RawTest(metadata, epoch, x, |x.readSet|),
                           war := s.war || WarTest(metadata, epoch, x, j),
                           waw := s.waw || WawTest(metadata, epoch, x, j))
      {
        var w := WordOf(metadata, x.writeSet[j]);
        assert WarTest(metadata, epoch, x, j + 1) <==> WarTest(metadata, epoch, x, j) || SmallerIn(w, epoch, GetRts(w), x.id);
        assert WawTest(metadata, epoch, x, j + 1) <==> WawTest(metadata, epoch, x, j) || SmallerIn(w, epoch, GetWts(w), x.id);
        if SmallerIn(w, epoch, GetRts(w), x.id) {
          s' := s'.(war := true);
        }
        if SmallerIn(w, epoch, GetWts(w), x.id) {
          s' := s'.(waw := true);
        }
      }
    }

    method AnalyzeTransactions(id: nat)
      requires id < workerNum
      modifies this`block
      ensures |block| == |old(block)|
      ensures forall i :: 0 <= i < |block| ==>
                block[i] == if WorkerOf(i, workerNum) == id then Analyzed(options, metadata, epoch, old(block[i])) else old(block[i])
    {
      HandleFirst(|block|, workerNum, id);
      var i := id;
      while i < |block|
        invariant |block| == |old(block)| && WorkerOf(i, workerNum) == id
        invariant forall j :: 0 <= j < |block| ==>
                    block[j] == if WorkerOf(j, workerNum) == id && j < i then Analyzed(options, metadata, epoch, old(block[j]))
                                else old(block[j])
      {
        NextStride(i, workerNum);
        if block[i].Active() {
          var s := AnalyzeDependency(block[i]);
          block := block[i := s];
        }
        i := i + workerNum;
      }
    }

    /** Applies the buffered writes one by one. */
    method Commit(s: TxnState)
      modifies this`table
      ensures table == old(table) + Effect(s.txn, s.values)
    {
      var x := s.txn;
      for i := 0 to |x.writeSet|
        invariant table == old(table) + EffectPrefix(x, s.values, i)
      {
        EffectOneMore(old(table), x, s.values, i);
        table := table[x.writeSet[i] := x.output(s.values, i)];
      }
    }

    /** Commits, or postpones to the retry list. */
    method FinalizeTransaction(s: TxnState) returns (s': TxnState)
      modifies this`table
      ensures s' == Finalized(options, s)
      ensures table == if Winner(options, s) then old(table) + Effect(s.txn, s.values) else old(table)
      ensures s.Active() && ((options.readOnlyOptimization && s.txn.writeSet == []) ||
                             (!s.waw && (options.snapshotIsolation || !s.raw || (options.reordering && !s.war)))) ==>
                s' == s && table == old(table) + Effect(s.txn, s.values)
      ensures s.Active() && !(options.readOnlyOptimization && s.txn.writeSet == []) &&
              (s.waw || (!options.snapshotIsolation && s.raw && (s.war || !options.reordering))) ==>
                s' == s.(delayLock := true) && table == old(table)
    {
      s' := s;
      if s.abortNoRetry || s.abortLock || s.delayLock { return; }
      var isCommitted, shouldAbort := false, false;
      if options.readOnlyOptimization && s.txn.ReadOnly() {
        isCommitted := true;
      } else if s.waw {
        shouldAbort := true;
      } else if options.snapshotIsolation {
        isCommitted := true;
      } else if options.reordering {
        if s.war == false || s.raw == false { isCommitted := true; } else { shouldAbort := true; }
      } else {
        if s.raw { shouldAbort := true; } else { isCommitted := true; }
      }
      if isCommitted {
        Commit(s);
      } else if shouldAbort {
        s' := s.(delayLock := true);
      }
    }

    method FinalizeTransactions(id: nat, ghost t0: Table)
      requires id < workerNum
      requires Installed(t0, table, ActiveAt(block, Handled(|block|, workerNum, id, 0)))
      requires ReadyToFinalize(options, t0, block)
      requires forall i :: 0 <= i < |block| && WorkerOf(i, workerNum) < id && block[i].Active() ==> Granted(options, block[i])
      modifies this`block, this`table
      ensures |block| == |old(block)|
      ensures forall i :: 0 <= i < |block| ==>
                block[i] == if WorkerOf(i, workerNum) == id then Finalized(options, old(block[i])) else old(block[i])
      ensures Installed(t0, table, ActiveAt(block, Handled(|block|, workerNum, id + 1, 0)))
    {
      hide Installed, Handled, ActiveAt, WorkerOf, Effect, ReadValues;
      HandleFirst(|block|, workerNum, id);
      var i := id;
      while i < |block|
        invariant |block| == |old(block)| && WorkerOf(i, workerNum) == id
        invariant forall j :: 0 <= j < |block| ==>
                    block[j] == if WorkerOf(j, workerNum) == id && j < i then Finalized(options, old(block[j])) else old(block[j])
        invariant Installed(t0, table, ActiveAt(block, Handled(|block|, workerNum, id, i)))
      {
        NextStride(i, workerNum);
        HandleOne(|block|, workerNum, id, i);
        ghost var done := Handled(|block|, workerNum, id, i);
        ghost var xs := ActiveAt(block, done);
        ghost var b := block;
        if Winner(options, block[i]) {
          GrantedApart(options, t0, old(block), block, workerNum, id, i);
          InstallOneMore(t0, table, xs, block[i].txn);
        }
        var s := FinalizeTransaction(block[i]);
        block := block[i := s];
        ActiveAtUpdate(b, block, done, i);
        i := i + workerNum;
      }
      HandleAll(|block|, workerNum, id, i);
    }

    /** Zeroes the words of every key of the transaction, committed or not. */
    method CleanupTransactionMetadata(x: Txn)
      modifies this`metadata
      ensures forall k :: WordOf(metadata, k) == if x.Reads(k) || x.WritesKey(k) then 0 else WordOf(old(metadata), k)
    {
      for i := 0 to |x.readSet|
        invariant forall k :: WordOf(metadata, k) == if ReadBefore(x, i, k) then 0 else WordOf(old(metadata), k)
      {
        ghost var r := x.readSet[i];
        assert forall k :: ReadBefore(x, i + 1, k) <==> ReadBefore(x, i, k) || r == ReadKey(k, false);
        if !x.readSet[i].localIndex {
          metadata := metadata[x.readSet[i].key := 0];
        }
      }
      assert forall k :: ReadBefore(x, |x.readSet|, k) == x.Reads(k);
      for i := 0 to |x.writeSet|
        invariant forall k :: WordOf(metadata, k) == if x.Reads(k) || k in x.writeSet[..i] then 0 else WordOf(old(metadata), k)
      {
        assert x.writeSet[..i + 1] == x.writeSet[..i] + [x.writeSet[i]];
        metadata := metadata[x.writeSet[i] := 0];
      }
      assert x.writeSet[..|x.writeSet|] == x.writeSet;
    }

    method CleanupTransactions(id: nat, ghost m0: map<Key, Word>)
      requires id < workerNum
      requires CleanedUp(m0, metadata, block, Handled(|block|, workerNum, id, 0))
      modifies this`metadata
      ensures CleanedUp(m0, metadata, block, Handled(|block|, workerNum, id + 1, 0))
    {
      HandleFirst(|block|, workerNum, id);
      var i := id;
      while i < |block|
        invariant WorkerOf(i, workerNum) == id
        invariant CleanedUp(m0, metadata, block, Handled(|block|, workerNum, id, i))
      {
        HandleOne(|block|, workerNum, id, i);
        ghost var done := Handled(|block|, workerNum, id, i);
        assert forall k :: Touched(block, done + {i}, k) <==> Touched(block, done, k) || Touches(block[i].txn, k);
        CleanupTransactionMetadata(block[i].txn);
        i := i + workerNum;
      }
      HandleAll(|block|, workerNum, id, i);
    }
  }

  ghost predicate Touches(x: Txn, k: Key) { x.Reads(k) || x.WritesKey(k) }

  ghost predicate Touched(b: seq<TxnState>, done: set<nat>, k: Key) {
    exists i :: i in done && i < |b| && Touches(b[i].txn, k)
  }

  /** Zero wherever a transaction at these positions has an access, and otherwise as in `m0`. */
  ghost predicate CleanedUp(m0: map<Key, Word>, m: map<Key, Word>, b: seq<TxnState>, done: set<nat>) {
    forall k :: WordOf(m, k) == if Touched(b, done, k) then 0 else WordOf(m0, k)
  }

  /** The values were read in `t0`, and what is granted does not overlap. */
  ghost predicate ReadyToFinalize(o: Options, t0: Table, b: seq<TxnState>) {
    && (forall i :: 0 <= i < |b| && b[i].Active() ==> b[i].values == ReadValues(t0, b[i].txn))
    && (forall i, j :: 0 <= i < |b| && 0 <= j < |b| && i != j && Winner(o, b[i]) && Winner(o, b[j])
                       ==> !Overlap(b[i].txn, b[j].txn))
  }

  predicate Winner(o: Options, s: TxnState) { s.Active() && Granted(o, s) }

  lemma ActiveAtPositive(b: seq<TxnState>, done: set<nat>)
    requires forall i :: 0 <= i < |b| ==> 0 < b[i].txn.id
    ensures PositiveIds(ActiveAt(b, done))
  {}

  /** Only position `i` changed, and it was not handled before. */
  lemma ActiveAtUpdate(b0: seq<TxnState>, b: seq<TxnState>, done: set<nat>, i: nat)
    requires |b| == |b0| && i < |b| && i !in done && b[i].txn == b0[i].txn
    requires b == b0[i := b[i]]
    ensures ActiveAt(b, done + {i}) == if b[i].Active() then ActiveAt(b0, done) + {b[i].txn} else ActiveAt(b0, done)
  {}

  lemma GrantedApart(o: Options, t0: Table, b0: seq<TxnState>, b: seq<TxnState>, width: nat, id: nat, i: nat)
    requires width > 0 && |b| == |b0| && i < |b| && WorkerOf(i, width) == id
    requires ReadyToFinalize(o, t0, b0) && b[i] == b0[i] && Winner(o, b0[i])
    requires forall j :: 0 <= j < |b| && WorkerOf(j, width) < id && b0[j].Active() ==> Granted(o, b0[j])
    requires forall j :: 0 <= j < |b| ==>
               b[j] == if WorkerOf(j, width) == id && j < i then Finalized(o, b0[j]) else b0[j]
    ensures forall x :: x in ActiveAt(b, Handled(|b|, width, id, i)) ==> !Overlap(x, b[i].txn)
  {
    forall x | x in ActiveAt(b, Handled(|b|, width, id, i))
      ensures !Overlap(x, b[i].txn)
    {
      var j :| j in Handled(|b|, width, id, i) && j < |b| && b[j].Active() && b[j].txn == x;
      assert Winner(o, b0[j]);
    }
  }
}
