/**
 One micro-block of PRDCC: what its phases compute from the flags of its
 transactions and the words of its keys, and that they commit what the commit
 rule lets commit.
 */
module ProdccMicroBlock {
  import opened Transactions
  import opened AriaHelper
  import opened Aria
  import opened Strides
  import opened ProdccExecutor

  /** The transactions whose procedure, run on `t`, ends ready to commit. */
  ghost function Survivors(t: Table, xs: seq<Txn>): (c: seq<Txn>)
    ensures forall x :: x in c <==> x in xs && x.outcome(ReadValues(t, x)).Ready?
  {
    if xs == [] then []
    else Survivors(t, xs[..|xs| - 1]) +
         (if xs[|xs| - 1].outcome(ReadValues(t, xs[|xs| - 1])).Ready? then [xs[|xs| - 1]] else [])
  }

  lemma {:induction false} SurvivorsAscending(t: Table, xs: seq<Txn>)
    requires Ascending(xs)
    ensures Ascending(Survivors(t, xs))
    decreases |xs|
  {
    if xs != [] {
      AscendingFront(xs);
      SurvivorsAscending(t, xs[..|xs| - 1]);
      AscendingAppend(Survivors(t, xs[..|xs| - 1]), xs[|xs| - 1]);
    }
  }

  lemma SurvivorsValid(t: Table, xs: seq<Txn>)
    requires ValidBatch(xs) && IndexesReadOnly(xs)
    ensures ValidBatch(Survivors(t, xs)) && IndexesReadOnly(Survivors(t, xs)) && AllReady(t, Survivors(t, xs))
  {
    SurvivorsAscending(t, xs);
    var c := Survivors(t, xs);
    forall i | 0 <= i < |c| ensures 0 < c[i].id < TS_LIMIT { assert c[i] in c; }
    forall i, j, k | 0 <= i < |c| && 0 <= j < |c| && c[i].ReadsIndex(k)
      ensures !c[j].WritesKey(k)
    {
      assert c[i] in c && c[j] in c;
      var i', j' :| 0 <= i' < |xs| && 0 <= j' < |xs| && xs[i'] == c[i] && xs[j'] == c[j];
    }
  }

  /** What the execute and the reserve phase leave in the block. */
  ghost predicate ReservedFrom(t0: Table, xs: seq<Txn>, b: seq<TxnState>) {
    |b| == |xs| && forall i :: 0 <= i < |b| ==> b[i] == Executed(t0, NewState(xs[i]))
  }

  lemma ExecuteThenFill(t0: Table, x: Txn)
    ensures Filled(Executed(t0, NewState(x))) == Executed(t0, NewState(x))
    ensures Executed(t0, NewState(x)).Active() <==> x.outcome(ReadValues(t0, x)).Ready?
  {}

  lemma ActiveAreSurvivors(t0: Table, xs: seq<Txn>, b: seq<TxnState>)
    requires ReservedFrom(t0, xs, b)
    ensures ActiveAt(b, Positions(|b|)) == Members(Survivors(t0, xs))
  {
    forall x
      ensures x in ActiveAt(b, Positions(|b|)) <==> x in Survivors(t0, xs)
    {
      if x in xs {
        var i :| 0 <= i < |xs| && xs[i] == x;
        ExecuteThenFill(t0, x);
        assert Below(i, |b|);
        assert i in Positions(|b|);
        assert b[i].txn == x;
      }
    }
  }

  /** What the analysis leaves in the block. */
  ghost predicate AnalyzedFrom(o: Options, t0: Table, batch: seq<Txn>, xs: seq<Txn>, b: seq<TxnState>) {
    && |b| == |xs|
    && forall i :: 0 <= i < |b| ==>
         && b[i].txn == xs[i] && !b[i].abortLock
         && (b[i].Active() <==> xs[i] in batch)
         && (b[i].Active() ==> b[i].values == ReadValues(t0, xs[i]))
         && (b[i].Active() ==> (Granted(o, b[i]) <==> Commits(o, batch, xs[i])))
         && (b[i].abortNoRetry <==> xs[i].outcome(ReadValues(t0, xs[i])).AbortNoRetry?)
         && (b[i].delayLock <==> xs[i].outcome(ReadValues(t0, xs[i])).Abort?)
  }

  lemma AnalysisOfOne(o: Options, batch: seq<Txn>, m: map<Key, Word>, epoch: nat, s: TxnState)
    requires ValidBatch(batch) && Reservations(o, m, epoch, Members(batch))
    requires s.Active() && !s.raw && !s.war && !s.waw
    ensures Granted(o, Analyzed(o, m, epoch, s)) <==> Commits(o, batch, s.txn)
    ensures Reserves(o, s.txn) ==>
              var a := Analyzed(o, m, epoch, s);
              a.raw == Raw(o, batch, s.txn) && a.war == War(o, batch, s.txn) && a.waw == Waw(o, batch, s.txn)
  {
    var x := s.txn;
    assert WordsTell(o, batch, m, epoch, x.id) by {
      forall k
        ensures SmallerIn(WordOf(m, k), epoch, GetWts(WordOf(m, k)), x.id) <==>
                exists y :: y in batch && Reserves(o, y) && y.id < x.id && y.WritesKey(k)
        ensures SmallerIn(WordOf(m, k), epoch, GetRts(WordOf(m, k)), x.id) <==>
                exists y :: y in batch && Reserves(o, y) && y.id < x.id && y.Reads(k)
      {
        FlagsFromWords(o, batch, x, epoch, k, WordOf(m, k));
      }
    }
    RawTestIsRaw(o, batch, m, epoch, x);
    WarTestIsWar(o, batch, m, epoch, x);
    WawTestIsWaw(o, batch, m, epoch, x);
  }

  /** The smallest writer, and the smallest reader, on a word tells what the batch does to the key. */
  ghost predicate WordsTell(o: Options, batch: seq<Txn>, m: map<Key, Word>, epoch: nat, id: nat) {
    && (forall k :: SmallerIn(WordOf(m, k), epoch, GetWts(WordOf(m, k)), id) <==>
          exists y :: y in batch && Reserves(o, y) && y.id < id && y.WritesKey(k))
    && (forall k :: SmallerIn(WordOf(m, k), epoch, GetRts(WordOf(m, k)), id) <==>
          exists y :: y in batch && Reserves(o, y) && y.id < id && y.Reads(k))
  }

  lemma RawTestIsRaw(o: Options, batch: seq<Txn>, m: map<Key, Word>, epoch: nat, x: Txn)
    requires WordsTell(o, batch, m, epoch, x.id)
    ensures RawTest(m, epoch, x, |x.readSet|) == Raw(o, batch, x)
  {
    hide SmallerIn, GetWts, GetRts, WordOf;
    if Raw(o, batch, x) {
      var y, k :| y in batch && Reserves(o, y) && y.id < x.id && y.WritesKey(k) && x.Reads(k);
      var p :| 0 <= p < |x.readSet| && x.readSet[p] == ReadKey(k, false);
      assert x.readSet[p].key == k;
    }
    if RawTest(m, epoch, x, |x.readSet|) {
      var p :| 0 <= p < |x.readSet| && !x.readSet[p].localIndex
               && var w := WordOf(m, x.readSet[p].key); SmallerIn(w, epoch, GetWts(w), x.id);
      assert x.readSet[p] == ReadKey(x.readSet[p].key, false);
      assert x.Reads(x.readSet[p].key);
    }
  }

  lemma WarTestIsWar(o: Options, batch: seq<Txn>, m: map<Key, Word>, epoch: nat, x: Txn)
    requires WordsTell(o, batch, m, epoch, x.id)
    ensures WarTest(m, epoch, x, |x.writeSet|) == War(o, batch, x)
  {
    hide SmallerIn, GetWts, GetRts, WordOf;
    if War(o, batch, x) {
      var y, k :| y in batch && Reserves(o, y) && y.id < x.id && y.Reads(k) && x.WritesKey(k);
      var p :| 0 <= p < |x.writeSet| && x.writeSet[p] == k;
    }
    if WarTest(m, epoch, x, |x.writeSet|) {
      var p :| 0 <= p < |x.writeSet| && var w := WordOf(m, x.writeSet[p]); SmallerIn(w, epoch, GetRts(w), x.id);
      assert x.WritesKey(x.writeSet[p]);
    }
  }

  lemma WawTestIsWaw(o: Options, batch: seq<Txn>, m: map<Key, Word>, epoch: nat, x: Txn)
    requires WordsTell(o, batch, m, epoch, x.id)
    ensures WawTest(m, epoch, x, |x.writeSet|) == Waw(o, batch, x)
  {
    hide SmallerIn, GetWts, GetRts, WordOf;
    if Waw(o, batch, x) {
      var y, k :| y in batch && Reserves(o, y) && y.id < x.id && y.WritesKey(k) && x.WritesKey(k);
      var p :| 0 <= p < |x.writeSet| && x.writeSet[p] == k;
    }
    if WawTest(m, epoch, x, |x.writeSet|) {
      var p :| 0 <= p < |x.writeSet| && var w := WordOf(m, x.writeSet[p]); SmallerIn(w, epoch, GetWts(w), x.id);
      assert x.WritesKey(x.writeSet[p]);
    }
  }

  /** The analysis grants exactly what the commit rule grants. */
  lemma AnalysisOfBlock(o: Options, t0: Table, xs: seq<Txn>, m: map<Key, Word>, epoch: nat, b: seq<TxnState>, b': seq<TxnState>)
    requires ValidBatch(xs) && IndexesReadOnly(xs) && ReservedFrom(t0, xs, b)
    requires Reservations(o, m, epoch, Members(Survivors(t0, xs)))
    requires |b'| == |b| && forall i :: 0 <= i < |b| ==> b'[i] == Analyzed(o, m, epoch, b[i])
    ensures AnalyzedFrom(o, t0, Survivors(t0, xs), xs, b')
  {
    var batch := Survivors(t0, xs);
    SurvivorsValid(t0, xs);
    forall i | 0 <= i < |b|
      ensures b'[i].txn == xs[i] && !b'[i].abortLock && (b'[i].Active() <==> xs[i] in batch)
      ensures b'[i].Active() ==> b'[i].values == ReadValues(t0, xs[i]) && (Granted(o, b'[i]) <==> Commits(o, batch, xs[i]))
      ensures b'[i].abortNoRetry <==> xs[i].outcome(ReadValues(t0, xs[i])).AbortNoRetry?
      ensures b'[i].delayLock <==> xs[i].outcome(ReadValues(t0, xs[i])).Abort?
    {
      ExecuteThenFill(t0, xs[i]);
      if b[i].Active() { AnalysisOfOne(o, batch, m, epoch, b[i]); }
    }
  }

  /** So nothing that will be granted overlaps. */
  lemma AnalyzedReady(o: Options, t0: Table, xs: seq<Txn>, b: seq<TxnState>)
    requires ValidBatch(xs) && IndexesReadOnly(xs) && AnalyzedFrom(o, t0, Survivors(t0, xs), xs, b)
    ensures ReadyToFinalize(o, t0, b)
  {
    var batch := Survivors(t0, xs);
    SurvivorsValid(t0, xs);
    forall i, j | 0 <= i < |b| && 0 <= j < |b| && i != j && Winner(o, b[i]) && Winner(o, b[j])
      ensures !Overlap(b[i].txn, b[j].txn)
    {
      var x, y := xs[i], xs[j];
      if Reserves(o, x) && Reserves(o, y) {
        if i < j { LargerFlagged(o, batch, x, y); } else { LargerFlagged(o, batch, y, x); }
      }
    }
  }

  /** And what the finalize phase leaves active is what the commit rule lets commit. */
  lemma FinalizedAreCommitted(o: Options, t0: Table, xs: seq<Txn>, b: seq<TxnState>, b': seq<TxnState>)
    requires AnalyzedFrom(o, t0, Survivors(t0, xs), xs, b)
    requires |b'| == |b| && forall i :: 0 <= i < |b| ==> b'[i] == Finalized(o, b[i])
    ensures ActiveAt(b', Positions(|b'|)) == Members(Committed(o, Survivors(t0, xs), Survivors(t0, xs)))
  {
    var batch := Survivors(t0, xs);
    forall x
      ensures x in ActiveAt(b', Positions(|b'|)) <==> x in Committed(o, batch, batch)
    {
      if x in Committed(o, batch, batch) {
        var i :| 0 <= i < |xs| && xs[i] == x;
        assert Below(i, |b'|);
        assert i in Positions(|b'|);
        assert b'[i].txn == x;
      }
    }
  }

  /** Every key with a reservation of the epoch belongs to a transaction of the block, and so is zeroed. */
  lemma CleanupLeavesStale(o: Options, t0: Table, xs: seq<Txn>, m0: map<Key, Word>, m: map<Key, Word>, epoch: nat, b: seq<TxnState>)
    requires epoch > 0 && |b| == |xs| && (forall i :: 0 <= i < |b| ==> b[i].txn == xs[i])
    requires Reservations(o, m0, epoch, Members(Survivors(t0, xs)))
    requires CleanedUp(m0, m, b, Positions(|b|))
    ensures Stale(m, epoch)
  {
    forall k
      ensures GetEpoch(WordOf(m, k)) < epoch
    {
      if Touched(b, Positions(|b|), k) {
        ZeroIsOld(epoch);
      } else {
        forall x | x in Members(Survivors(t0, xs))
          ensures !x.Reads(k) && !x.WritesKey(k)
        {
          var i :| 0 <= i < |xs| && xs[i] == x;
          assert Below(i, |b|);
          assert i in Positions(|b|) && !Touches(b[i].txn, k);
        }
        assert ReaderIds(o, Members(Survivors(t0, xs)), k) + WriterIds(o, Members(Survivors(t0, xs)), k) == {};
      }
    }
  }

  /** Between epochs there is nothing to clean up: the words of one are out of date in the next, as Aria relies on. */
  lemma NextEpochIsStale(o: Options, m: map<Key, Word>, epoch: nat, xs: set<Txn>)
    requires Reservations(o, m, epoch, xs)
    ensures Stale(m, epoch + 1)
  {
    forall k
      ensures GetEpoch(WordOf(m, k)) < epoch + 1
    {
      assert Summarizes(WordOf(m, k), epoch, ReaderIds(o, xs, k), WriterIds(o, xs, k));
    }
  }

  lemma ZeroIsOld(epoch: nat)
    requires epoch > 0
    ensures GetEpoch(0) < epoch
  {}

  /** What a batch with these options does to a table, run in its serial order. */
  ghost function BlockResult(o: Options, t: Table, xs: seq<Txn>): Table {
    RunSerial(t, BlockOrder(o, t, xs))
  }

  ghost function BlockOrder(o: Options, t: Table, xs: seq<Txn>): seq<Txn> {
    SerialOrder(o, Survivors(t, xs))
  }

  lemma ExecutedIsReserved(t0: Table, xs: seq<Txn>, b: seq<TxnState>)
    requires |b| == |xs| && forall i :: 0 <= i < |b| ==> b[i] == Executed(t0, NewState(xs[i]))
    requires ValidBatch(xs)
    ensures ReservedFrom(t0, xs, b) && forall i :: 0 <= i < |xs| ==> 0 < xs[i].id < TS_LIMIT
  {}

  lemma BlockOutcome(o: Options, t0: Table, t1: Table, xs: seq<Txn>, b: seq<TxnState>, b': seq<TxnState>)
    requires ValidBatch(xs) && IndexesReadOnly(xs)
    requires AnalyzedFrom(o, t0, Survivors(t0, xs), xs, b)
    requires |b'| == |b| && forall i :: 0 <= i < |b| ==> b'[i] == Finalized(o, b[i])
    requires Installed(t0, t1, ActiveAt(b', Positions(|b'|)))
    ensures EndOf(o, t0, xs, b')
    ensures |b'| == |xs| && forall i :: 0 <= i < |b'| ==> b'[i].txn == xs[i]
    ensures !o.snapshotIsolation ==> t1 == BlockResult(o, t0, xs)
  {
    FinalizedAreCommitted(o, t0, xs, b, b');
    if !o.snapshotIsolation {
      SurvivorsValid(t0, xs);
      BatchSerializable(o, Survivors(t0, xs), t0, t1);
    }
  }

  /** The block at its end: active are those that committed, delayed the others that may run again, and nobody is marked for retry. */
  ghost predicate EndOf(o: Options, t0: Table, xs: seq<Txn>, b: seq<TxnState>) {
    && |b| == |xs|
    && forall i :: 0 <= i < |b| ==>
         && b[i].txn == xs[i] && !b[i].abortLock
         && (b[i].Active() <==> xs[i] in Survivors(t0, xs) && Commits(o, Survivors(t0, xs), xs[i]))
         && (b[i].abortNoRetry <==> xs[i].outcome(ReadValues(t0, xs[i])).AbortNoRetry?)
         && (b[i].delayLock <==> !b[i].Active() && !b[i].abortNoRetry)
  }

  /**
   So, in accesses: a transaction commits if its procedure ends ready and, of the others
   whose does, none with a smaller id keeps it out. With the read-only switch nothing keeps
   out one that writes nothing.
   */
  lemma EndInAccesses(o: Options, t0: Table, xs: seq<Txn>, b: seq<TxnState>, batch: seq<Txn>, i: nat)
    requires EndOf(o, t0, xs, b) && i < |xs|
    requires forall x :: x in batch <==> x in xs && x.outcome(ReadValues(t0, x)).Ready?
    ensures |b| == |xs| && b[i].txn == xs[i]
    ensures b[i].Active() <==>
              && xs[i].outcome(ReadValues(t0, xs[i])).Ready?
              && ((o.readOnlyOptimization && xs[i].writeSet == []) || !KeptOut(o, batch, xs[i]))
  {
    var c := Survivors(t0, xs);
    RefusedIff(o, c, xs[i]);
    hide Commits;
    SameMembersKeepOut(o, c, batch, xs[i]);
  }

  lemma SameMembersKeepOut(o: Options, a: seq<Txn>, b: seq<Txn>, x: Txn)
    requires forall y :: y in a <==> y in b
    ensures KeptOut(o, a, x) <==> KeptOut(o, b, x)
  {
    forall k
      ensures EarlierWriter(a, x, k) <==> EarlierWriter(b, x, k)
      ensures EarlierReader(o, a, x, k) <==> EarlierReader(o, b, x, k)
    {}
  }

  lemma AllHandled(n: nat, width: nat)
    requires width > 0
    ensures Handled(n, width, width, 0) == Positions(n)
  {}

  lemma NobodyHandled(o: Options, m: map<Key, Word>, epoch: nat, b: seq<TxnState>, width: nat)
    requires width > 0 && Stale(m, epoch)
    ensures Reservations(o, m, epoch, ActiveAt(b, Handled(|b|, width, 0, 0)))
  {
    StaleIsUnreserved(o, m, epoch);
    assert ActiveAt(b, Handled(|b|, width, 0, 0)) == {};
  }

  lemma ReservedFromIds(t0: Table, xs: seq<Txn>, b: seq<TxnState>)
    requires ReservedFrom(t0, xs, b) && forall i :: 0 <= i < |xs| ==> 0 < xs[i].id < TS_LIMIT
    ensures |b| == |xs| && forall i :: 0 <= i < |b| ==> 0 < b[i].txn.id < TS_LIMIT
  {}

  lemma FillKeepsReserved(t0: Table, xs: seq<Txn>, b: seq<TxnState>, b': seq<TxnState>)
    requires ReservedFrom(t0, xs, b) && |b'| == |b|
    requires forall i :: 0 <= i < |b| ==> b'[i] == b[i] || b'[i] == Filled(b[i])
    ensures ReservedFrom(t0, xs, b')
  {
    forall i | 0 <= i < |b| { ExecuteThenFill(t0, xs[i]); }
  }

  lemma NothingInstalled(t: Table, b: seq<TxnState>, width: nat)
    requires width > 0
    ensures Installed(t, t, ActiveAt(b, Handled(|b|, width, 0, 0)))
  {
    assert ActiveAt(b, Handled(|b|, width, 0, 0)) == {};
  }

  lemma FinalizedStaysReady(o: Options, t0: Table, b: seq<TxnState>, b': seq<TxnState>)
    requires ReadyToFinalize(o, t0, b) && |b'| == |b|
    requires forall i :: 0 <= i < |b| ==> b'[i] == b[i] || b'[i] == Finalized(o, b[i])
    ensures ReadyToFinalize(o, t0, b')
  {
    forall i | 0 <= i < |b|
      ensures Winner(o, b'[i]) ==> Winner(o, b[i])
      ensures b'[i].txn == b[i].txn && b'[i].values == b[i].values && (b'[i].Active() ==> b[i].Active())
    {}
  }
}
