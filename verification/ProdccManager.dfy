/**
 PRDCC's manager on one coordinator: it drives the workers through the phases of
 every micro-block of every epoch. Whatever the epochs and micro-blocks, the
 table ends as a serial execution of the committed transactions leaves it.
 */
module ProdccManager {
  import opened Transactions
  import opened AriaHelper
  import opened Aria
  import opened Strides
  import opened ProdccExecutor
  import opened ProdccMicroBlock
  import opened DataSummary
  import opened ConflictPredictor
  import opened MicroBlockScheduler
  import opened MacroBatch

  /** What one epoch brings in: its queries with their ranges, and what the heuristics and knobs decide. */
  datatype Epoch = Epoch(queries: seq<Txn>, ranges: seq<TxnQueryRanges>, prediction: bool, toxic: (nat, nat) -> bool)

  class ProdccManager {
    const executor: ProdccExecutor
    const scheduler: MicroBlockScheduler
    const batchSize: nat
    var transactions: seq<TxnState>
    var totalAbort: nat
    var totalDelay: nat
    var totalValid: nat

    constructor (executor: ProdccExecutor, scheduler: MicroBlockScheduler, batchSize: nat)
      ensures this.executor == executor && this.scheduler == scheduler && this.batchSize == batchSize
      ensures transactions == [] && totalAbort == totalDelay == totalValid == 0
    {
      this.executor := executor;
      this.scheduler := scheduler;
      this.batchSize := batchSize;
      transactions := [];
      totalAbort, totalDelay, totalValid := 0, 0, 0;
    }

    /** The phases of the workers, between the barriers that separate them. */
    method RunExecutePhase()
      modifies executor`block
      ensures |executor.block| == |old(executor.block)|
      ensures executor.workerNum > 0 ==> forall i :: 0 <= i < |executor.block| ==>
                executor.block[i] == Executed(executor.table, old(executor.block[i]))
    {
      for id := 0 to executor.workerNum
        invariant |executor.block| == |old(executor.block)|
        invariant executor.workerNum > 0 ==> forall i :: 0 <= i < |executor.block| ==>
                    executor.block[i] == if WorkerOf(i, executor.workerNum) < id then Executed(executor.table, old(executor.block[i]))
                                         else old(executor.block[i])
      {
        executor.ExecuteTransactions(id);
      }
    }

    method RunReservePhase(ghost t0: Table, ghost xs: seq<Txn>)
      requires executor.workerNum > 0 && executor.epoch < EPOCH_LIMIT
      requires ReservedFrom(t0, xs, executor.block) && Stale(executor.metadata, executor.epoch)
      requires forall i :: 0 <= i < |xs| ==> 0 < xs[i].id < TS_LIMIT
      modifies executor`block, executor`metadata
      ensures ReservedFrom(t0, xs, executor.block)
      ensures Reservations(executor.options, executor.metadata, executor.epoch, Members(Survivors(t0, xs)))
    {
      hide *;
      ghost var n, w := |executor.block|, executor.workerNum;
      NobodyHandled(executor.options, executor.metadata, executor.epoch, executor.block, w);
      for id := 0 to executor.workerNum
        invariant ReservedFrom(t0, xs, executor.block) && |executor.block| == n && w == executor.workerNum
        invariant Reservations(executor.options, executor.metadata, executor.epoch, ActiveAt(executor.block, Handled(n, w, id, 0)))
      {
        ghost var b := executor.block;
        ReservedFromIds(t0, xs, b);
        executor.ReserveTransactions(id);
        FillKeepsReserved(t0, xs, b, executor.block);
      }
      AllHandled(n, w);
      ActiveAreSurvivors(t0, xs, executor.block);
    }

    method RunAnalyzePhase()
      requires executor.workerNum > 0
      modifies executor`block
      ensures |executor.block| == |old(executor.block)|
      ensures forall i :: 0 <= i < |executor.block| ==>
                executor.block[i] == Analyzed(executor.options, executor.metadata, executor.epoch, old(executor.block[i]))
    {
      for id := 0 to executor.workerNum
        invariant |executor.block| == |old(executor.block)|
        invariant forall i :: 0 <= i < |executor.block| ==>
                    executor.block[i] == if WorkerOf(i, executor.workerNum) < id
                                         then Analyzed(executor.options, executor.metadata, executor.epoch, old(executor.block[i]))
                                         else old(executor.block[i])
      {
        executor.AnalyzeTransactions(id);
      }
    }

    method RunFinalizePhase()
      requires executor.workerNum > 0 && ReadyToFinalize(executor.options, executor.table, executor.block)
      modifies executor`block, executor`table
      ensures |executor.block| == |old(executor.block)|
      ensures forall i :: 0 <= i < |executor.block| ==> executor.block[i] == Finalized(executor.options, old(executor.block[i]))
      ensures Installed(old(executor.table), executor.table, ActiveAt(executor.block, Positions(|executor.block|)))
    {
      hide Installed, ActiveAt, Handled, Overlap, ReadyToFinalize, ReadValues;
      ghost var n, w, t0, o := |executor.block|, executor.workerNum, executor.table, executor.options;
      NothingInstalled(t0, executor.block, w);
      for id := 0 to executor.workerNum
        invariant |executor.block| == n
        invariant forall i :: 0 <= i < n ==>
                    executor.block[i] == if WorkerOf(i, w) < id then Finalized(o, old(executor.block[i])) else old(executor.block[i])
        invariant Installed(t0, executor.table, ActiveAt(executor.block, Handled(n, w, id, 0)))
      {
        FinalizedStaysReady(o, t0, old(executor.block), executor.block);
        executor.FinalizeTransactions(id, t0);
      }
      AllHandled(n, w);
    }

    method RunCleanupPhase()
      requires executor.workerNum > 0
      modifies executor`metadata
      ensures CleanedUp(old(executor.metadata), executor.metadata, executor.block, Positions(|executor.block|))
    {
      ghost var n, w := |executor.block|, executor.workerNum;
      assert Handled(n, w, 0, 0) == {};
      for id := 0 to executor.workerNum
        invariant CleanedUp(old(executor.metadata), executor.metadata, executor.block, Handled(n, w, id, 0))
      {
        executor.CleanupTransactions(id, old(executor.metadata));
      }
      AllHandled(n, w);
    }

    /** One micro-block, on words that hold no reservation of its epoch, and leaves them so. */
    method RunMicroBlock(xs: seq<Txn>)
      requires executor.workerNum > 0 && 0 < executor.epoch < EPOCH_LIMIT
      requires ValidBatch(xs) && IndexesReadOnly(xs) && Stale(executor.metadata, executor.epoch)
      modifies executor`block, executor`table, executor`metadata
      ensures Stale(executor.metadata, executor.epoch)
      ensures !executor.options.snapshotIsolation ==>
                executor.table == BlockResult(executor.options, old(executor.table), xs)
      ensures EndOf(executor.options, old(executor.table), xs, executor.block)
    {
      ghost var o, t0 := executor.options, executor.table;
      executor.block := seq(|xs|, i requires 0 <= i < |xs| => NewState(xs[i]));
      hide *;
      RunExecutePhase();
      ExecutedIsReserved(t0, xs, executor.block);
      RunReservePhase(t0, xs);
      ghost var b2, m2 := executor.block, executor.metadata;
      RunAnalyzePhase();
      ghost var b3 := executor.block;
      AnalysisOfBlock(o, t0, xs, m2, executor.epoch, b2, b3);
      AnalyzedReady(o, t0, xs, b3);
      RunFinalizePhase();
      BlockOutcome(o, t0, executor.table, xs, b3, executor.block);
      RunCleanupPhase();
      CleanupLeavesStale(o, t0, xs, m2, executor.metadata, executor.epoch, executor.block);
    }

    /** The micro-blocks of one macro batch, one after another in one epoch. */
    method RunMacroBatch(schedule: seq<MicroBlock>) returns (ends: seq<seq<TxnState>>)
      requires executor.workerNum > 0 && 0 < executor.epoch < EPOCH_LIMIT
      requires ValidSchedule(schedule) && Stale(executor.metadata, executor.epoch)
      requires !executor.options.snapshotIsolation
      modifies executor`block, executor`table, executor`metadata
      ensures Stale(executor.metadata, executor.epoch)
      ensures executor.table == RunSerial(old(executor.table), RunOrder(executor.options, old(executor.table), schedule))
      ensures Ends(executor.options, old(executor.table), schedule, ends)
    {
      ghost var o, t0 := executor.options, executor.table;
      ends := [];
      hide *;
      NothingRunYet(o, t0, schedule);
      for b := 0 to |schedule|
        invariant Stale(executor.metadata, executor.epoch)
        invariant executor.table == RunSerial(t0, RunOrder(o, t0, schedule[..b]))
        invariant Ends(o, t0, schedule[..b], ends)
      {
        ScheduleGives(o, t0, schedule, b);
        RunMicroBlock(schedule[b]);
        OneMoreBlock(o, t0, schedule, b);
        OneMoreEnd(o, t0, schedule, b, ends, executor.block);
        ends := ends + [executor.block];
      }
      assert schedule[..|schedule|] == schedule;
    }

    /** Moves the transactions marked for retry to the front, and counts. */
    method CleanupBatch()
      modifies this`transactions, this`totalAbort, this`totalDelay, this`totalValid
      ensures multiset(transactions) == multiset(old(transactions)) && totalAbort <= |transactions|
      ensures forall i :: 0 <= i < |transactions| ==> (transactions[i].abortLock <==> i < totalAbort)
      ensures totalDelay == Delayed(old(transactions)) && totalValid == Valid(old(transactions))
    {
      hide Delayed, Valid, Swapped;
      ghost var all := transactions;
      CountedNone();
      var it, it2, valid := 0, 0, 0;
      for i := 0 to |transactions|
        invariant |transactions| == |all| && it <= i && transactions[i..] == all[i..]
        invariant it2 == Delayed(all[..i]) && valid == Valid(all[..i])
        invariant multiset(transactions) == multiset(all)
        invariant forall j :: 0 <= j < i ==> (transactions[j].abortLock <==> j < it)
      {
        CountedOneMore(all, i);
        assert transactions[i] == transactions[i..][0];
        var shouldRetry, delayed := transactions[i].abortLock, transactions[i].delayLock;
        if !transactions[i].abortNoRetry { valid := valid + 1; }
        if shouldRetry {
          SwapInFront(transactions, it, i);
          transactions := Swapped(transactions, it, i);
          it := it + 1;
        }
        if delayed { it2 := it2 + 1; }
      }
      assert all[..|transactions|] == all;
      totalAbort, totalDelay, totalValid := it, it2, valid;
    }

    /** Nothing is ever marked for retry, so every epoch starts from fresh queries only. */
    ghost predicate NothingToRetry()
      reads this
    {
      NoneToRetry(transactions)
    }

    /** Keeps the first `totalAbort` transactions, takes new queries for the others, and numbers all. */
    method ReadSnapshot(queries: seq<Txn>)
      requires totalAbort <= |transactions|
      modifies this`transactions
      ensures |transactions| == |queries|
      ensures forall i :: 0 <= i < |queries| ==>
                transactions[i] == NewState(Numbered(if i < totalAbort && i < |old(transactions)| then old(transactions)[i].txn
                                                     else queries[i], i))
    {
      var kept, n := transactions, totalAbort;
      transactions := seq(|queries|, i requires 0 <= i < |queries| =>
        NewState(Numbered(if i >= n || i >= |kept| then queries[i] else kept[i].txn, i)));
    }

    /** The ids grow along the array, so the sort that follows in the source finds them sorted. */
    method BuildTxnsToSchedule() returns (txns: seq<Txn>)
      ensures txns == ToSchedule(transactions)
    {
      txns := [];
      for i := 0 to |transactions|
        invariant txns == ToSchedule(transactions[..i])
      {
        assert transactions[..i + 1][..i] == transactions[..i];
        if !transactions[i].abortNoRetry { txns := txns + [transactions[i].txn]; }
      }
      assert transactions[..|transactions|] == transactions;
    }

    /** The predicted micro-blocks. */
    method BuildPredicted(e: Epoch, txns: seq<Txn>, ghost code: Key -> uint64) returns (schedule: seq<MicroBlock>)
      requires |e.ranges| == |txns| && Ascending(txns) && IdsBelow(txns, |txns| + 1)
      requires scheduler.workerNum > 0 && scheduler.predictor.summary.Valid()
      modifies scheduler
      ensures schedule == Schedule(scheduler.options, scheduler.dependencyGraph, txns)
      ensures scheduler.FirstFit(e.toxic, txns, e.ranges, schedule)
      ensures old(AllFaithful(scheduler.predictor, code, txns, e.ranges)) ==> HarmlessSchedule(scheduler.options, schedule)
    {
      hide *;
      scheduler.txnsToSchedule := txns;
      scheduler.txnRanges := e.ranges;
      scheduler.RangedIs();
      assert old(AllFaithful(scheduler.predictor, code, txns, e.ranges)) == AllFaithful(scheduler.predictor, code, txns, e.ranges);
      scheduler.RunPartitionPhase(e.toxic, |txns| + 1);
      scheduler.RangedIs();
      if AllFaithful(scheduler.predictor, code, txns, e.ranges) { ScheduledAreHarmless(scheduler, e.toxic, code); }
      scheduler.ScheduleIsFirstFit(e.toxic);
      schedule := scheduler.PartitionIntoMicroBlocks(txns);
    }

    /** Predicted: each in the first block in which it clashes with nobody. Otherwise: slices of the batch size. */
    ghost predicate CutAsAsked(e: Epoch, txns: seq<Txn>, schedule: seq<MicroBlock>)
      reads scheduler.predictor.summary, scheduler.predictor.summary.l1, scheduler.predictor.summary.l2
    {
      && scheduler.predictor.summary.Valid() && |e.ranges| == |txns|
      && if e.prediction then scheduler.FirstFit(e.toxic, txns, e.ranges, schedule)
         else if batchSize == 0 then schedule == []
         else FixedSlices(schedule, txns, batchSize)
    }

    lemma CutIs(e: Epoch, txns: seq<Txn>, schedule: seq<MicroBlock>)
      requires scheduler.predictor.summary.Valid() && |e.ranges| == |txns|
      requires e.prediction ==> scheduler.FirstFit(e.toxic, txns, e.ranges, schedule)
      requires !e.prediction ==> if batchSize == 0 then schedule == [] else FixedSlices(schedule, txns, batchSize)
      ensures CutAsAsked(e, txns, schedule)
    {}

    lemma CutGives(e: Epoch, txns: seq<Txn>, schedule: seq<MicroBlock>)
      requires CutAsAsked(e, txns, schedule)
      ensures !e.prediction && 0 < |txns| <= batchSize ==> schedule == [txns]
    {
      if !e.prediction && 0 < |txns| <= batchSize { OneSlice(schedule, txns, batchSize); }
    }

    /** The micro-blocks of the transactions to schedule. */
    method BuildSchedule(e: Epoch, txns: seq<Txn>, ghost code: Key -> uint64) returns (schedule: seq<MicroBlock>)
      requires |e.ranges| == |txns| && Ascending(txns) && IdsBelow(txns, |txns| + 1)
      requires scheduler.workerNum > 0 && scheduler.predictor.summary.Valid()
      modifies scheduler
      ensures e.prediction && old(AllFaithful(scheduler.predictor, code, txns, e.ranges)) ==>
                HarmlessSchedule(scheduler.options, schedule)
      ensures CutAsAsked(e, txns, schedule)
      ensures e.prediction || batchSize > 0 || txns == [] ==> multiset(Flatten(schedule)) == multiset(txns)
      ensures forall b :: 0 <= b < |schedule| ==> PartOf(schedule[b], txns)
    {
      hide *;
      if e.prediction {
        schedule := BuildPredicted(e, txns, code);
        ScheduleIsPartition(scheduler.options, scheduler.dependencyGraph, txns);
        ScheduledAreParts(scheduler.options, scheduler.dependencyGraph, txns);
      } else {
        schedule := scheduler.PartitionIntoFixedMicroBlocks(txns, batchSize);
        SlicesFlatten(schedule, txns, batchSize);
        FixedAreParts(schedule, txns);
      }
      CutIs(e, txns, schedule);
    }

    /** The array holds what the micro-blocks made of its transactions. */
    method RecordEnds(ends: seq<seq<TxnState>>)
      requires forall b, i :: 0 <= b < |ends| && 0 <= i < |ends[b]| ==>
                 0 < ends[b][i].txn.id <= |transactions| && !ends[b][i].abortLock
      requires NothingToRetry()
      modifies this`transactions
      ensures |transactions| == |old(transactions)| && NothingToRetry()
      ensures forall t :: 0 <= t < |transactions| ==> transactions[t] == old(transactions[t]) || EndedAs(ends, t, transactions[t])
      ensures Recorded(ends, |ends|, 0, transactions)
    {
      hide EndedAs, Recorded, NoneToRetry;
      NothingRecorded(ends, transactions);
      for b := 0 to |ends|
        invariant |transactions| == |old(transactions)| && NoneToRetry(transactions) && Recorded(ends, b, 0, transactions)
        invariant forall t :: 0 <= t < |transactions| ==> transactions[t] == old(transactions[t]) || EndedAs(ends, t, transactions[t])
      {
        for i := 0 to |ends[b]|
          invariant |transactions| == |old(transactions)| && NoneToRetry(transactions) && Recorded(ends, b, i, transactions)
          invariant forall t :: 0 <= t < |transactions| ==> transactions[t] == old(transactions[t]) || EndedAs(ends, t, transactions[t])
        {
          OneMoreRecorded(ends, b, i, transactions);
          transactions := transactions[ends[b][i].txn.id - 1 := ends[b][i]];
        }
        BlockRecorded(ends, b, transactions);
      }
    }

    /** The parts of the program fit together. */
    ghost predicate Wired()
      reads scheduler.predictor.summary, scheduler.predictor.summary.l1, scheduler.predictor.summary.l2
    {
      && executor.workerNum > 0 && scheduler.workerNum > 0 && scheduler.options == executor.options
      && scheduler.predictor.summary.Valid() && !executor.options.snapshotIsolation
    }

    method StartEpoch(queries: seq<Txn>) returns (txns: seq<Txn>)
      requires NothingToRetry()
      modifies executor`epoch, this`transactions, this`totalAbort, this`totalDelay, this`totalValid
      ensures executor.epoch == old(executor.epoch) + 1 && totalAbort == 0
      ensures txns == AllNumbered(queries) && |transactions| == |queries| && NothingToRetry()
    {
      executor.epoch := executor.epoch + 1;
      ghost var before := transactions;
      CleanupBatch();
      NoneMarked(before, transactions, totalAbort);
      ReadSnapshot(queries);
      txns := BuildTxnsToSchedule();
      AllScheduled(transactions);
    }

    /** Numbers the queries of an epoch and cuts them into micro-blocks. */
    method PlanEpoch(e: Epoch, ghost code: Key -> uint64) returns (schedule: seq<MicroBlock>)
      requires Wired() && NothingToRetry() && ValidEpoch(e, batchSize)
      modifies executor`epoch, this`transactions, this`totalAbort, this`totalDelay, this`totalValid, scheduler
      ensures Wired()
      ensures executor.epoch == old(executor.epoch) + 1
      ensures totalAbort == 0 && |transactions| == |e.queries| && NothingToRetry()
      ensures multiset(Flatten(schedule)) == multiset(AllNumbered(e.queries))
      ensures ValidSchedule(schedule) && forall b :: 0 <= b < |schedule| ==> PartOf(schedule[b], AllNumbered(e.queries))
      ensures CutAsAsked(e, AllNumbered(e.queries), schedule)
      ensures e.prediction && old(AllFaithful(scheduler.predictor, code, AllNumbered(e.queries), e.ranges)) ==>
                HarmlessSchedule(executor.options, schedule)
    {
      ghost var o := executor.options;
      var txns := StartEpoch(e.queries);
      NumberedValid(e.queries);
      hide *;
      schedule := BuildSchedule(e, txns, code);
      PartsValid(schedule, txns);
    }

    /** Runs the micro-blocks of an epoch and keeps their results. */
    method RunSchedule(schedule: seq<MicroBlock>, ghost xs: seq<Txn>) returns (ends: seq<seq<TxnState>>)
      requires Wired() && 0 < executor.epoch < EPOCH_LIMIT
      requires Stale(executor.metadata, executor.epoch) && NothingToRetry()
      requires ValidBatch(xs) && IdsBelow(xs, |xs| + 1) && |transactions| == |xs|
      requires ValidSchedule(schedule) && forall b :: 0 <= b < |schedule| ==> PartOf(schedule[b], xs)
      modifies executor`block, executor`table, executor`metadata, this`transactions
      ensures Wired()
      ensures Stale(executor.metadata, executor.epoch + 1) && NothingToRetry()
      ensures executor.table == RunSerial(old(executor.table), RunOrder(executor.options, old(executor.table), schedule))
      ensures Ends(executor.options, old(executor.table), schedule, ends) && Recorded(ends, |ends|, 0, transactions)
      ensures HarmlessSchedule(executor.options, schedule) ==>
                NoValidationAborts(old(executor.table), executor.options, schedule, ends)
    {
      ghost var o, t0 := executor.options, executor.table;
      hide *;
      ends := RunMacroBatch(schedule);
      assert Wired();
      EndsAreNumbered(o, t0, xs, schedule, ends);
      RecordEnds(ends);
      assert Wired();
      StaleLater(executor.metadata, executor.epoch);
      if HarmlessSchedule(o, schedule) { HarmlessEndsNeverAbort(o, t0, schedule, ends); }
    }

    /** One epoch. */
    method RunEpoch(e: Epoch, ghost code: Key -> uint64) returns (schedule: seq<MicroBlock>, ends: seq<seq<TxnState>>)
      requires Wired()
      requires executor.epoch + 1 < EPOCH_LIMIT && ValidEpoch(e, batchSize)
      requires Stale(executor.metadata, executor.epoch + 1) && NothingToRetry()
      modifies executor`epoch, executor`block, executor`table, executor`metadata
      modifies this`transactions, this`totalAbort, this`totalDelay, this`totalValid, scheduler
      ensures Wired()
      ensures executor.epoch == old(executor.epoch) + 1 && totalAbort == 0
      ensures Stale(executor.metadata, executor.epoch + 1) && NothingToRetry()
      ensures multiset(Flatten(schedule)) == multiset(AllNumbered(e.queries))
      ensures CutAsAsked(e, AllNumbered(e.queries), schedule)
      ensures executor.table == RunSerial(old(executor.table), RunOrder(executor.options, old(executor.table), schedule))
      ensures !e.prediction && 0 < |e.queries| <= batchSize ==>
                executor.table == BlockResult(executor.options, old(executor.table), AllNumbered(e.queries))
      ensures Ends(executor.options, old(executor.table), schedule, ends) && Recorded(ends, |ends|, 0, transactions)
      ensures e.prediction && old(AllFaithful(scheduler.predictor, code, AllNumbered(e.queries), e.ranges)) ==>
                NoValidationAborts(old(executor.table), executor.options, schedule, ends)
    {
      ghost var xs := AllNumbered(e.queries);
      hide *;
      EpochNumbered(e, batchSize);
      schedule := PlanEpoch(e, code);
      CutGives(e, xs, schedule);
      OneBlockRun(executor.options, executor.table, xs);
      ends := RunSchedule(schedule, xs);
    }

    /**
     A whole run. The table is that of running, one by one, the committed
     transactions of all micro-blocks of all epochs in the order RunOrder names.
     */
    method Run(epochs: seq<Epoch>, ghost code: Key -> uint64) returns (schedules: seq<seq<MicroBlock>>)
      requires Wired() && executor.epoch + |epochs| < EPOCH_LIMIT
      requires Stale(executor.metadata, executor.epoch + 1) && NothingToRetry()
      requires forall n :: 0 <= n < |epochs| ==> ValidEpoch(epochs[n], batchSize)
      modifies executor`epoch, executor`block, executor`table, executor`metadata
      modifies this`transactions, this`totalAbort, this`totalDelay, this`totalValid, scheduler
      ensures |schedules| == |epochs| && executor.epoch == old(executor.epoch) + |epochs|
      ensures forall n :: 0 <= n < |epochs| ==> multiset(Flatten(schedules[n])) == multiset(AllNumbered(epochs[n].queries))
      ensures forall n :: 0 <= n < |epochs| ==> CutAsAsked(epochs[n], AllNumbered(epochs[n].queries), schedules[n])
      ensures executor.table == RunSerial(old(executor.table), RunOrder(executor.options, old(executor.table), Joined(schedules)))
      ensures Stale(executor.metadata, executor.epoch + 1) && NothingToRetry()
    {
      hide *;
      ghost var o, t0 := executor.options, executor.table;
      schedules := [];
      NoEpochYet(o, t0);
      for n := 0 to |epochs|
        invariant Wired() && executor.epoch == old(executor.epoch) + n && |schedules| == n
        invariant Stale(executor.metadata, executor.epoch + 1) && NothingToRetry()
        invariant forall m :: 0 <= m < n ==> multiset(Flatten(schedules[m])) == multiset(AllNumbered(epochs[m].queries))
        invariant forall m :: 0 <= m < n ==> CutAsAsked(epochs[m], AllNumbered(epochs[m].queries), schedules[m])
        invariant executor.table == RunSerial(t0, RunOrder(o, t0, Joined(schedules)))
      {
        var schedule, ends := RunEpoch(epochs[n], code);
        OneMoreEpoch(o, t0, schedules, schedule);
        schedules := schedules + [schedule];
      }
    }
  }

  ghost predicate ValidEpoch(e: Epoch, batchSize: nat) {
    && |e.ranges| == |e.queries| && |e.queries| + 1 < TS_LIMIT
    && IndexesReadOnly(e.queries) && (|e.queries| > 0 ==> batchSize > 0)
  }

  lemma SlicesFlatten(bs: seq<MicroBlock>, xs: seq<Txn>, size: nat)
    requires if size > 0 then FixedSlices(bs, xs, size) else bs == []
    ensures bs == [] || Flatten(bs) == xs
    ensures size > 0 ==> Flatten(bs) == xs
  {}

  /** A single micro-block. */
  lemma OneBlockRun(o: Options, t: Table, xs: seq<Txn>)
    ensures RunSerial(t, RunOrder(o, t, [xs])) == BlockResult(o, t, xs)
  {
    assert [xs][..0] == [] && [xs][..1] == [xs];
    OneMoreBlock(o, t, [xs], 0);
    assert RunOrder(o, t, []) == [];
    TableBeforeIs(o, t, [xs], 0);
  }

  lemma EpochNumbered(e: Epoch, batchSize: nat)
    requires ValidEpoch(e, batchSize)
    ensures ValidBatch(AllNumbered(e.queries)) && IdsBelow(AllNumbered(e.queries), |e.queries| + 1)
    ensures |AllNumbered(e.queries)| == |e.queries|
  {
    NumberedValid(e.queries);
  }

  /** This is how the transaction at position `t` ended in one of the micro-blocks. */
  ghost predicate EndedAs(ends: seq<seq<TxnState>>, t: int, s: TxnState) {
    exists b, i :: 0 <= b < |ends| && 0 <= i < |ends[b]| && ends[b][i] == s && s.txn.id == t + 1
  }

  /** Everybody in the first `n` lists of ends, and in the first `m` places of the next, stands in the array as one of its ends. */
  ghost predicate Recorded(ends: seq<seq<TxnState>>, n: nat, m: nat, s: seq<TxnState>) {
    forall b, i :: 0 <= b < |ends| && 0 <= i < |ends[b]| && (b < n || (b == n && i < m)) ==>
      0 < ends[b][i].txn.id <= |s| && EndedAs(ends, ends[b][i].txn.id - 1, s[ends[b][i].txn.id - 1])
  }

  ghost predicate NoneToRetry(s: seq<TxnState>) { forall i :: 0 <= i < |s| ==> !s[i].abortLock }

  lemma NothingRecorded(ends: seq<seq<TxnState>>, s: seq<TxnState>)
    ensures Recorded(ends, 0, 0, s)
  {}

  lemma OneMoreRecorded(ends: seq<seq<TxnState>>, b: nat, i: nat, s: seq<TxnState>)
    requires b < |ends| && i < |ends[b]| && 0 < ends[b][i].txn.id <= |s| && !ends[b][i].abortLock
    requires NoneToRetry(s) && Recorded(ends, b, i, s)
    ensures var s' := s[ends[b][i].txn.id - 1 := ends[b][i]];
            NoneToRetry(s') && Recorded(ends, b, i + 1, s') && EndedAs(ends, ends[b][i].txn.id - 1, ends[b][i])
  {}

  lemma BlockRecorded(ends: seq<seq<TxnState>>, b: nat, s: seq<TxnState>)
    requires b < |ends| && Recorded(ends, b, |ends[b]|, s)
    ensures Recorded(ends, b + 1, 0, s)
  {
    hide EndedAs;
  }

  /** The transactions that may run, in their order. */
  function ToSchedule(s: seq<TxnState>): seq<Txn> {
    if s == [] then []
    else ToSchedule(s[..|s| - 1]) + if s[|s| - 1].abortNoRetry then [] else [s[|s| - 1].txn]
  }

  lemma {:induction false} AllScheduled(s: seq<TxnState>)
    requires forall i :: 0 <= i < |s| ==> !s[i].abortNoRetry
    ensures |ToSchedule(s)| == |s| && forall i :: 0 <= i < |s| ==> ToSchedule(s)[i] == s[i].txn
    decreases |s|
  {
    if s != [] { AllScheduled(s[..|s| - 1]); }
  }

  /** How many were postponed, and how many could run at all. */
  function Delayed(s: seq<TxnState>): nat {
    if s == [] then 0 else Delayed(s[..|s| - 1]) + if s[|s| - 1].delayLock then 1 else 0
  }

  function Valid(s: seq<TxnState>): nat {
    if s == [] then 0 else Valid(s[..|s| - 1]) + if s[|s| - 1].abortNoRetry then 0 else 1
  }

  ghost function PositionsWith(s: seq<TxnState>, p: TxnState -> bool): set<int> {
    set i | 0 <= i < |s| && p(s[i])
  }

  lemma OneMorePosition(s: seq<TxnState>, p: TxnState -> bool)
    requires s != []
    ensures |PositionsWith(s, p)| == |PositionsWith(s[..|s| - 1], p)| + if p(s[|s| - 1]) then 1 else 0
  {
    var n := |s| - 1;
    assert PositionsWith(s, p) == PositionsWith(s[..n], p) + if p(s[n]) then {n} else {};
  }

  /** The counts are numbers of positions; those that may run are the ones not marked "no retry". */
  lemma {:induction false} CountsAre(s: seq<TxnState>, x: Txn)
    ensures Delayed(s) == |PositionsWith(s, (t: TxnState) => t.delayLock)| && Valid(s) == |PositionsWith(s, (t: TxnState) => !t.abortNoRetry)|
    ensures |ToSchedule(s)| == Valid(s) && (x in ToSchedule(s) <==> exists i :: 0 <= i < |s| && !s[i].abortNoRetry && s[i].txn == x)
    decreases |s|
  {
    if s == [] {
      assert PositionsWith(s, (t: TxnState) => t.delayLock) == {} && PositionsWith(s, (t: TxnState) => !t.abortNoRetry) == {};
    } else {
      var n := |s| - 1;
      OneMorePosition(s, (t: TxnState) => t.delayLock);
      OneMorePosition(s, (t: TxnState) => !t.abortNoRetry);
      CountsAre(s[..n], x);
      assert forall i :: 0 <= i < n ==> s[..n][i] == s[i];
    }
  }

  lemma CountedNone()
    ensures Delayed([]) == 0 && Valid([]) == 0
  {}

  lemma CountedOneMore(s: seq<TxnState>, i: nat)
    requires i < |s|
    ensures Delayed(s[..i + 1]) == Delayed(s[..i]) + if s[i].delayLock then 1 else 0
    ensures Valid(s[..i + 1]) == Valid(s[..i]) + if s[i].abortNoRetry then 0 else 1
  {
    assert s[..i + 1][..i] == s[..i];
  }

  function Swapped(s: seq<TxnState>, i: nat, j: nat): (r: seq<TxnState>)
    requires i < |s| && j < |s|
    ensures |r| == |s|
  {
    s[i := s[j]][j := s[i]]
  }

  lemma SwapInFront(s: seq<TxnState>, it: nat, i: nat)
    requires it <= i < |s| && s[i].abortLock
    requires forall j :: 0 <= j < i ==> (s[j].abortLock <==> j < it)
    ensures multiset(Swapped(s, it, i)) == multiset(s)
    ensures forall j :: 0 <= j <= i ==> (Swapped(s, it, i)[j].abortLock <==> j <= it)
    ensures Swapped(s, it, i)[i + 1..] == s[i + 1..]
  {}

  lemma NoneMarked(before: seq<TxnState>, after: seq<TxnState>, n: nat)
    requires multiset(after) == multiset(before) && n <= |after|
    requires forall i :: 0 <= i < |before| ==> !before[i].abortLock
    requires forall i :: 0 <= i < |after| ==> (after[i].abortLock <==> i < n)
    ensures n == 0
  {
    forall i | 0 <= i < |after|
      ensures !after[i].abortLock
    {
      assert after[i] in multiset(before);
    }
    if after != [] { assert after[0].abortLock <==> 0 < n; }
  }

  lemma StaleLater(m: map<Key, Word>, epoch: nat)
    requires Stale(m, epoch)
    ensures Stale(m, epoch + 1)
  {}
}
