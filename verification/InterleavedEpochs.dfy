/**
 Micro-blocks one after another, of one epoch or of many, each run by concurrent workers
 in any interleaving: the table ends as the serial execution leaves it that the methods of
 the manager compute, and the prediction keeps the validation from aborting anybody here
 as it does there.
 */
module InterleavedEpochs {
  import opened Transactions
  import opened AriaHelper
  import opened Aria
  import opened ProdccExecutor
  import opened ProdccMicroBlock
  import opened MicroBlockScheduler
  import opened MacroBatch
  import I = MicroBlockInterleaving
  import P = MicroBlockProgress

  /** A run of one micro-block: its setting, and the states it goes through. */
  datatype BlockRun = BlockRun(c: I.Setting, run: seq<I.State>)

  ghost predicate Complete(b: BlockRun) {
    && |b.run| > 0 && b.run[0] == I.Fresh(b.c) && b.run[|b.run| - 1].phase == I.Over
    && forall n :: 0 <= n < |b.run| - 1 ==> I.Shaped(b.c, b.run[n]) && I.Step(b.c, b.run[n], b.run[n + 1])
  }

  function Last(b: BlockRun): I.State
    requires |b.run| > 0
  {
    b.run[|b.run| - 1]
  }

  /** What a micro-block brings along: ids and indexes in order, and an epoch that is not over yet. */
  ghost predicate ValidBlock(c: I.Setting) {
    ValidBatch(c.xs) && IndexesReadOnly(c.xs) && 0 < c.epoch < EPOCH_LIMIT && !c.o.snapshotIsolation
  }

  /** The next block starts from the table and the words the one before left, in its epoch or a later one. */
  ghost predicate Follows(b: BlockRun, c: I.Setting)
    requires |b.run| > 0
  {
    c.o == b.c.o && c.t0 == Last(b).table && c.words == Last(b).words && c.epoch >= b.c.epoch
  }

  ghost predicate Chain(o: Options, t0: Table, words: map<Key, Word>, bs: seq<BlockRun>) {
    && (forall n :: 0 <= n < |bs| ==> Complete(bs[n]) && ValidBlock(bs[n].c))
    && (forall n :: 0 <= n < |bs| - 1 ==> Follows(bs[n], bs[n + 1].c))
    && (bs != [] ==> bs[0].c.o == o && bs[0].c.t0 == t0 && bs[0].c.words == words && Stale(words, bs[0].c.epoch))
  }

  function BlocksOf(bs: seq<BlockRun>): (r: seq<MicroBlock>)
    ensures |r| == |bs| && forall n :: 0 <= n < |r| ==> r[n] == bs[n].c.xs
  {
    seq(|bs|, n requires 0 <= n < |bs| => bs[n].c.xs)
  }

  /** How each of them ended. */
  ghost function EndsOf(bs: seq<BlockRun>): (r: seq<seq<TxnState>>)
    requires AllRun(bs)
    ensures |r| == |bs| && forall n :: 0 <= n < |r| ==> r[n] == Last(bs[n]).block
  {
    seq(|bs|, n requires 0 <= n < |bs| => Last(bs[n]).block)
  }

  predicate AllRun(bs: seq<BlockRun>) { forall n :: 0 <= n < |bs| ==> |bs[n].run| > 0 }

  function FinalTable(t0: Table, bs: seq<BlockRun>): Table
    requires AllRun(bs)
  {
    if bs == [] then t0 else Last(bs[|bs| - 1]).table
  }

  lemma StaleInLater(m: map<Key, Word>, epoch: nat, epoch': nat)
    requires Stale(m, epoch) && epoch <= epoch'
    ensures Stale(m, epoch')
  {}

  /** One complete run, in any interleaving, ends as its micro-block does. */
  lemma OneBlock(b: BlockRun)
    requires Complete(b) && ValidBlock(b.c) && Stale(b.c.words, b.c.epoch)
    ensures |b.run| > 0
    ensures EndOf(b.c.o, b.c.t0, b.c.xs, Last(b).block) && Stale(Last(b).words, b.c.epoch)
    ensures Last(b).table == BlockResult(b.c.o, b.c.t0, b.c.xs)
  {
    hide EndOf, Stale, BlockResult, I.Step, I.Shaped, ValidBatch, IndexesReadOnly;
    assert I.Run(b.c, b.run);
    I.EveryRunEndsSerially(b.c, b.run);
  }

  lemma ChainFront(o: Options, t0: Table, words: map<Key, Word>, bs: seq<BlockRun>)
    requires Chain(o, t0, words, bs) && bs != []
    ensures Chain(o, t0, words, bs[..|bs| - 1]) && Complete(bs[|bs| - 1]) && ValidBlock(bs[|bs| - 1].c)
    ensures AllRun(bs)
    ensures bs[|bs| - 1].c.o == o || |bs| > 1
    ensures |bs| == 1 ==> bs[0].c.t0 == t0 && Stale(words, bs[0].c.epoch) && bs[0].c.words == words && bs[0].c.o == o
    ensures |bs| > 1 ==> Follows(bs[|bs| - 2], bs[|bs| - 1].c)
  {
    hide I.Step, I.Shaped, ValidBlock, Stale, I.Fresh;
  }

  lemma ChainShapes(o: Options, t0: Table, words: map<Key, Word>, bs: seq<BlockRun>)
    requires Chain(o, t0, words, bs)
    ensures AllRun(bs)
  {
    hide I.Step, I.Shaped, ValidBlock, Stale, I.Fresh, Follows;
  }

  /** What holds of a chain, block by block. */
  ghost predicate Serial(o: Options, t0: Table, bs: seq<BlockRun>)
    requires AllRun(bs)
  {
    && FinalTable(t0, bs) == RunSerial(t0, RunOrder(o, t0, BlocksOf(bs)))
    && Ends(o, t0, BlocksOf(bs), EndsOf(bs))
    && (bs != [] ==> bs[|bs| - 1].c.o == o && Stale(Last(bs[|bs| - 1]).words, bs[|bs| - 1].c.epoch))
  }

  lemma SerialStarts(o: Options, t0: Table)
    ensures Serial(o, t0, [])
  {
    var none: seq<MicroBlock> := [];
    NothingRunYet(o, t0, none);
    assert none[..0] == none == BlocksOf([]) && EndsOf([]) == [];
  }

  lemma ListsGrow(t0: Table, bs: seq<BlockRun>, b: BlockRun)
    requires AllRun(bs) && |b.run| > 0
    ensures AllRun(bs + [b]) && FinalTable(t0, bs + [b]) == Last(b).table && (bs + [b])[|bs + [b]| - 1] == b && bs + [b] != []
    ensures var all, n := BlocksOf(bs + [b]), |bs|;
            n < |all| && all[..n] == BlocksOf(bs) && all[..n + 1] == all && all[n] == b.c.xs
    ensures EndsOf(bs + [b]) == EndsOf(bs) + [Last(b).block]
  {
    assert forall n :: 0 <= n < |bs| ==> (bs + [b])[n] == bs[n];
  }

  lemma SerialGives(o: Options, t0: Table, bs: seq<BlockRun>)
    requires AllRun(bs) && Serial(o, t0, bs)
    ensures FinalTable(t0, bs) == RunSerial(t0, RunOrder(o, t0, BlocksOf(bs))) && Ends(o, t0, BlocksOf(bs), EndsOf(bs))
  {}

  lemma SerialIs(o: Options, t0: Table, bs: seq<BlockRun>)
    requires AllRun(bs) && bs != []
    requires FinalTable(t0, bs) == RunSerial(t0, RunOrder(o, t0, BlocksOf(bs))) && Ends(o, t0, BlocksOf(bs), EndsOf(bs))
    requires bs[|bs| - 1].c.o == o && Stale(Last(bs[|bs| - 1]).words, bs[|bs| - 1].c.epoch)
    ensures Serial(o, t0, bs)
  {}

  /** One more block at the end of a chain. */
  lemma SerialGrows(o: Options, t0: Table, bs: seq<BlockRun>, b: BlockRun)
    requires AllRun(bs) && |b.run| > 0 && Serial(o, t0, bs)
    requires b.c.o == o && b.c.t0 == FinalTable(t0, bs) && EndOf(o, b.c.t0, b.c.xs, Last(b).block)
    requires Last(b).table == BlockResult(o, b.c.t0, b.c.xs) && Stale(Last(b).words, b.c.epoch)
    ensures AllRun(bs + [b]) && Serial(o, t0, bs + [b])
  {
    hide *;
    ListsGrow(t0, bs, b);
    SerialGives(o, t0, bs);
    var all, n := BlocksOf(bs + [b]), |bs|;
    TableBeforeIs(o, t0, all, n);
    OneMoreBlock(o, t0, all, n);
    OneMoreEnd(o, t0, all, n, EndsOf(bs), Last(b).block);
    SerialIs(o, t0, bs + [b]);
  }

  /**
   Any number of micro-blocks, each in any interleaving of its workers: the table is that
   of running the committed transactions one by one in the order of the blocks.
   */
  lemma {:induction false} ChainIsSerial(o: Options, t0: Table, words: map<Key, Word>, bs: seq<BlockRun>)
    requires Chain(o, t0, words, bs)
    ensures AllRun(bs)
    ensures Serial(o, t0, bs)
    decreases |bs|
  {
    hide *;
    ChainShapes(o, t0, words, bs);
    if bs == [] {
      SerialStarts(o, t0);
    } else {
      var front, b := bs[..|bs| - 1], bs[|bs| - 1];
      ChainFront(o, t0, words, bs);
      ChainIsSerial(o, t0, words, front);
      NextStartsThere(o, t0, words, front, b);
      OneBlock(b);
      SerialGrows(o, t0, front, b);
      assert bs == front + [b];
    }
  }

  lemma NextStartsThere(o: Options, t0: Table, words: map<Key, Word>, bs: seq<BlockRun>, b: BlockRun)
    requires AllRun(bs) && Serial(o, t0, bs)
    requires bs == [] ==> b.c.t0 == t0 && Stale(words, b.c.epoch) && b.c.words == words && b.c.o == o
    requires bs != [] ==> Follows(bs[|bs| - 1], b.c)
    ensures b.c.o == o && b.c.t0 == FinalTable(t0, bs) && Stale(b.c.words, b.c.epoch)
  {
    hide RunOrder, RunSerial, Ends, Stale;
    if bs != [] { StaleInLater(b.c.words, bs[|bs| - 1].c.epoch, b.c.epoch); }
  }

  /** With the blocks of a harmless schedule nobody is aborted, and everybody who does not roll back commits. */
  lemma HarmlessChain(o: Options, t0: Table, words: map<Key, Word>, bs: seq<BlockRun>, xs: seq<Txn>)
    requires Chain(o, t0, words, bs) && HarmlessSchedule(o, BlocksOf(bs))
    ensures AllRun(bs)
    ensures NoValidationAborts(t0, o, BlocksOf(bs), EndsOf(bs))
    ensures multiset(Flatten(BlocksOf(bs))) == multiset(xs) && AllForeseen(xs) ==>
              multiset(RunOrder(o, t0, BlocksOf(bs))) == multiset(ReadyOnes(xs))
  {
    ChainIsSerial(o, t0, words, bs);
    hide HarmlessSchedule, Ends, NoValidationAborts, RunOrder, RunSerial, AllForeseen, Chain, ReadyOnes;
    HarmlessEndsNeverAbort(o, t0, BlocksOf(bs), EndsOf(bs));
    if multiset(Flatten(BlocksOf(bs))) == multiset(xs) && AllForeseen(xs) {
      EverybodyCommits(o, t0, xs, BlocksOf(bs), EndsOf(bs));
    }
  }

  /** A chain can always be continued: the next micro-block, on what it finds, can be run to its end. */
  lemma NextBlockCanRun(o: Options, t0: Table, words: map<Key, Word>, bs: seq<BlockRun>, xs: seq<Txn>, epoch: nat) returns (b: BlockRun)
    requires Chain(o, t0, words, bs) && ValidBatch(xs) && IndexesReadOnly(xs) && 0 < epoch < EPOCH_LIMIT && !o.snapshotIsolation
    requires if bs == [] then Stale(words, epoch) else bs[|bs| - 1].c.epoch <= epoch
    ensures Chain(o, t0, words, bs + [b]) && b.c.xs == xs && b.c.epoch == epoch
  {
    hide Serial, Stale, ValidBatch, IndexesReadOnly, I.Step, I.Shaped, I.Fresh, Complete;
    ChainIsSerial(o, t0, words, bs);
    LeftStale(o, t0, words, bs, epoch);
    var left := if bs == [] then words else Last(bs[|bs| - 1]).words;
    var c := I.Setting(o, epoch, xs, FinalTable(t0, bs), left);
    b := RunBlock(c);
    ChainGrows(o, t0, words, bs, b);
  }

  lemma LeftStale(o: Options, t0: Table, words: map<Key, Word>, bs: seq<BlockRun>, epoch: nat)
    requires AllRun(bs) && Serial(o, t0, bs)
    requires if bs == [] then Stale(words, epoch) else bs[|bs| - 1].c.epoch <= epoch
    ensures Stale(if bs == [] then words else Last(bs[|bs| - 1]).words, epoch)
    ensures bs != [] ==> bs[|bs| - 1].c.o == o
  {
    hide Stale, RunSerial, RunOrder, Ends;
    if bs != [] { StaleInLater(Last(bs[|bs| - 1]).words, bs[|bs| - 1].c.epoch, epoch); }
  }

  /** One micro-block can be run to its end. */
  lemma RunBlock(c: I.Setting) returns (b: BlockRun)
    requires c.Valid()
    ensures b.c == c && Complete(b)
  {
    var start := [I.Fresh(c)];
    hide I.Step, I.Shaped, I.Fresh, I.Setting.Valid;
    assert I.Run(c, start);
    var tail := P.EveryRunCanFinish(c, start);
    b := BlockRun(c, start + tail[1..]);
  }

  lemma ChainGrows(o: Options, t0: Table, words: map<Key, Word>, bs: seq<BlockRun>, b: BlockRun)
    requires Chain(o, t0, words, bs) && Complete(b) && ValidBlock(b.c)
    requires if bs == [] then b.c.o == o && b.c.t0 == t0 && b.c.words == words && Stale(words, b.c.epoch)
             else |bs[|bs| - 1].run| > 0 && Follows(bs[|bs| - 1], b.c)
    ensures Chain(o, t0, words, bs + [b])
  {
    hide Complete, ValidBlock, Stale, Follows;
    var all := bs + [b];
    ChainShapes(o, t0, words, bs);
    forall n | 0 <= n < |all|
      ensures Complete(all[n]) && ValidBlock(all[n].c)
    {}
    forall n | 0 <= n < |all| - 1
      ensures |all[n].run| > 0 && Follows(all[n], all[n + 1].c)
    {
      if n < |bs| - 1 { assert all[n] == bs[n] && all[n + 1] == bs[n + 1]; }
    }
  }
}
