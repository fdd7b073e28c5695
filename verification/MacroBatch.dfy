/**
 Many micro-blocks, of one epoch or of many: the serial order of the whole run is
 the concatenation of the serial orders of the micro-blocks.
 */
module MacroBatch {
  import opened Transactions
  import opened AriaHelper
  import opened Aria
  import opened ProdccExecutor
  import opened ProdccMicroBlock
  import opened DataSummary
  import opened ConflictPredictor
  import opened MicroBlockScheduler

  /** A transaction's id on the only coordinator; ids start from 1. */
  function Numbered(query: Txn, i: nat): Txn { query.(id := i + 1) }

  function AllNumbered(queries: seq<Txn>): (xs: seq<Txn>)
    ensures |xs| == |queries|
    ensures forall i :: 0 <= i < |xs| ==> xs[i] == Numbered(queries[i], i)
  {
    seq(|queries|, i requires 0 <= i < |queries| => Numbered(queries[i], i))
  }

  lemma NumberedValid(queries: seq<Txn>)
    requires |queries| + 1 < TS_LIMIT && IndexesReadOnly(queries)
    ensures ValidBatch(AllNumbered(queries)) && IndexesReadOnly(AllNumbered(queries))
    ensures Ascending(AllNumbered(queries)) && IdsBelow(AllNumbered(queries), |queries| + 1)
  {
    var xs := AllNumbered(queries);
    forall i, k | 0 <= i < |xs|
      ensures xs[i].ReadsIndex(k) == queries[i].ReadsIndex(k) && xs[i].WritesKey(k) == queries[i].WritesKey(k)
    {}
  }

  ghost predicate PartOf(mb: MicroBlock, xs: seq<Txn>) {
    (forall x :: x in mb ==> x in xs) && (Ascending(xs) ==> Ascending(mb))
  }

  lemma {:induction false} FlattenHasParts(bs: seq<MicroBlock>, b: nat)
    requires b < |bs|
    ensures PartOf(bs[b], Flatten(bs))
    decreases |bs|
  {
    var rest := Flatten(bs[1..]);
    assert forall i :: 0 <= i < |bs[0]| ==> Flatten(bs)[i] == bs[0][i];
    assert forall i :: 0 <= i < |rest| ==> Flatten(bs)[|bs[0]| + i] == rest[i];
    if b > 0 { FlattenHasParts(bs[1..], b - 1); }
  }

  lemma FixedAreParts(bs: seq<MicroBlock>, xs: seq<Txn>)
    requires bs == [] || Flatten(bs) == xs
    ensures forall b :: 0 <= b < |bs| ==> PartOf(bs[b], xs)
    ensures xs == [] && bs == [] ==> multiset(Flatten(bs)) == multiset(xs)
  {
    forall b | 0 <= b < |bs| { FlattenHasParts(bs, b); }
  }

  lemma ScheduledAreParts(o: Options, g: Graph, xs: seq<Txn>)
    requires Ascending(xs)
    ensures forall b :: 0 <= b < |Schedule(o, g, xs)| ==> PartOf(Schedule(o, g, xs)[b], xs)
  {
    forall b | 0 <= b < |Schedule(o, g, xs)| { ScheduledBlocksAreGood(o, g, xs, b); }
  }

  ghost predicate ValidSchedule(bs: seq<MicroBlock>) {
    forall b :: 0 <= b < |bs| ==> ValidBatch(bs[b]) && IndexesReadOnly(bs[b])
  }

  lemma PartsValid(bs: seq<MicroBlock>, xs: seq<Txn>)
    requires ValidBatch(xs) && IndexesReadOnly(xs)
    requires forall b :: 0 <= b < |bs| ==> PartOf(bs[b], xs)
    ensures ValidSchedule(bs)
  {
    forall b | 0 <= b < |bs| { PartValid(bs[b], xs); }
  }

  lemma PartValid(mb: MicroBlock, xs: seq<Txn>)
    requires ValidBatch(xs) && IndexesReadOnly(xs) && PartOf(mb, xs)
    ensures ValidBatch(mb) && IndexesReadOnly(mb)
  {
    forall i | 0 <= i < |mb| ensures 0 < mb[i].id < TS_LIMIT { assert mb[i] in xs; }
    forall i, j, k | 0 <= i < |mb| && 0 <= j < |mb| && mb[i].ReadsIndex(k)
      ensures !mb[j].WritesKey(k)
    {
      assert mb[i] in xs && mb[j] in xs;
      var i', j' :| 0 <= i' < |xs| && 0 <= j' < |xs| && xs[i'] == mb[i] && xs[j'] == mb[j];
    }
  }

  // ------------------------------------------------------------------
  // The serial order of many micro-blocks
  // ------------------------------------------------------------------

  ghost function RunOrder(o: Options, t: Table, bs: seq<MicroBlock>): seq<Txn> {
    if bs == [] then []
    else
      var before := RunOrder(o, t, bs[..|bs| - 1]);
      before + BlockOrder(o, RunSerial(t, before), bs[|bs| - 1])
  }

  lemma RunOrderAppend(o: Options, t: Table, bs: seq<MicroBlock>, mb: MicroBlock)
    ensures RunOrder(o, t, bs + [mb]) == RunOrder(o, t, bs) + BlockOrder(o, RunSerial(t, RunOrder(o, t, bs)), mb)
  {
    assert (bs + [mb])[..|bs|] == bs;
  }

  /** The table micro-block `b` starts from. */
  ghost function TableBefore(o: Options, t: Table, bs: seq<MicroBlock>, b: nat): Table
    requires b <= |bs|
  {
    RunSerial(t, RunOrder(o, t, bs[..b]))
  }

  /** How every micro-block ended. */
  ghost predicate Ends(o: Options, t: Table, bs: seq<MicroBlock>, ends: seq<seq<TxnState>>) {
    && |ends| == |bs|
    && forall b :: 0 <= b < |bs| ==> EndOf(o, TableBefore(o, t, bs, b), bs[b], ends[b])
  }

  lemma NothingRunYet(o: Options, t: Table, bs: seq<MicroBlock>)
    ensures RunSerial(t, RunOrder(o, t, bs[..0])) == t && Ends(o, t, bs[..0], [])
  {}

  lemma OneMoreBlock(o: Options, t: Table, bs: seq<MicroBlock>, b: nat)
    requires b < |bs|
    ensures RunSerial(t, RunOrder(o, t, bs[..b + 1])) == BlockResult(o, TableBefore(o, t, bs, b), bs[b])
  {
    hide *;
    assert bs[..b + 1] == bs[..b] + [bs[b]];
    RunOrderAppend(o, t, bs[..b], bs[b]);
    RunSerialConcat(t, RunOrder(o, t, bs[..b]), BlockOrder(o, RunSerial(t, RunOrder(o, t, bs[..b])), bs[b]));
    TableBeforeIs(o, t, bs, b);
    BlockResultIs(o, TableBefore(o, t, bs, b), bs[b]);
  }

  lemma TableBeforeIs(o: Options, t: Table, bs: seq<MicroBlock>, b: nat)
    requires b <= |bs|
    ensures TableBefore(o, t, bs, b) == RunSerial(t, RunOrder(o, t, bs[..b]))
  {}

  lemma BlockResultIs(o: Options, t: Table, mb: MicroBlock)
    ensures BlockResult(o, t, mb) == RunSerial(t, BlockOrder(o, t, mb))
  {}

  lemma OneMoreEnd(o: Options, t: Table, bs: seq<MicroBlock>, b: nat, ends: seq<seq<TxnState>>, end: seq<TxnState>)
    requires b < |bs| && Ends(o, t, bs[..b], ends) && EndOf(o, TableBefore(o, t, bs, b), bs[b], end)
    ensures Ends(o, t, bs[..b + 1], ends + [end])
  {
    hide EndOf, RunOrder, RunSerial;
    forall c | 0 <= c < b + 1
      ensures TableBefore(o, t, bs[..b + 1], c) == TableBefore(o, t, bs, c)
      ensures c < b ==> TableBefore(o, t, bs[..b], c) == TableBefore(o, t, bs, c)
    {
      assert bs[..b + 1][..c] == bs[..c] && (c < b ==> bs[..b][..c] == bs[..c]);
    }
  }

  /** Running one list of micro-blocks after another. */
  lemma {:induction false} RunOrderConcat(o: Options, t: Table, a: seq<MicroBlock>, b: seq<MicroBlock>)
    ensures RunOrder(o, t, a + b) == RunOrder(o, t, a) + RunOrder(o, RunSerial(t, RunOrder(o, t, a)), b)
    decreases |b|
  {
    hide BlockOrder, RunSerial;
    if b == [] {
      assert a + b == a;
    } else {
      var b', mb := b[..|b| - 1], b[|b| - 1];
      var t' := RunSerial(t, RunOrder(o, t, a));
      assert a + b == (a + b') + [mb] && b == b' + [mb];
      RunOrderConcat(o, t, a, b');
      RunOrderAppend(o, t, a + b', mb);
      RunOrderAppend(o, t', b', mb);
      RunSerialConcat(t, RunOrder(o, t, a), RunOrder(o, t', b'));
    }
  }

  /** The micro-blocks of all epochs. */
  ghost function Joined(schedules: seq<seq<MicroBlock>>): seq<MicroBlock> {
    if schedules == [] then [] else Joined(schedules[..|schedules| - 1]) + schedules[|schedules| - 1]
  }

  lemma NoEpochYet(o: Options, t: Table)
    ensures RunSerial(t, RunOrder(o, t, Joined([]))) == t
  {}

  lemma OneMoreEpoch(o: Options, t: Table, schedules: seq<seq<MicroBlock>>, schedule: seq<MicroBlock>)
    ensures RunSerial(t, RunOrder(o, t, Joined(schedules + [schedule]))) ==
            var t' := RunSerial(t, RunOrder(o, t, Joined(schedules))); RunSerial(t', RunOrder(o, t', schedule))
  {
    hide RunOrder, RunSerial;
    var before := Joined(schedules);
    assert (schedules + [schedule])[..|schedules|] == schedules;
    RunOrderConcat(o, t, before, schedule);
    RunSerialConcat(t, RunOrder(o, t, before), RunOrder(o, RunSerial(t, RunOrder(o, t, before)), schedule));
  }

  lemma ScheduleGives(o: Options, t: Table, bs: seq<MicroBlock>, b: nat)
    requires ValidSchedule(bs) && b < |bs|
    ensures ValidBatch(bs[b]) && IndexesReadOnly(bs[b])
    ensures TableBefore(o, t, bs, b) == RunSerial(t, RunOrder(o, t, bs[..b]))
  {}

  // ------------------------------------------------------------------
  // Prediction, schedule and validation together
  // ------------------------------------------------------------------

  /** Every access of `x` is a known key inside its ranges. */
  ghost predicate Faithful(p: ConflictPredictor, code: Key -> uint64, x: Txn, r: TxnQueryRanges)
    requires p.summary.Valid()
    reads p.summary, p.summary.l1, p.summary.l2
  {
    && SortedRanges(r)
    && (forall k :: x.Reads(k) ==> InSome(r.read, code(k)) && p.summary.Knows(code(k)))
    && (forall k :: x.WritesKey(k) ==> InSome(r.write, code(k)) && p.summary.Knows(code(k)))
  }

  ghost predicate AllFaithful(p: ConflictPredictor, code: Key -> uint64, xs: seq<Txn>, ranges: seq<TxnQueryRanges>)
    requires p.summary.Valid() && |ranges| == |xs|
    reads p.summary, p.summary.l1, p.summary.l2
  {
    && (forall i :: 0 <= i < |xs| ==> Faithful(p, code, xs[i], ranges[i]))
    && (forall i, j :: 0 <= i < j < |xs| ==> p.SafeTogether(ranges[i], ranges[j]))
  }

  /** `y` before `x` in one micro-block: none of the conflicts the commit rule looks for. */
  ghost predicate Harmless(o: Options, y: Txn, x: Txn) {
    && (forall k :: y.WritesKey(k) ==> !x.Reads(k) && !x.WritesKey(k))
    && (!o.reordering ==> forall k :: y.Reads(k) ==> !x.WritesKey(k))
  }

  lemma NotForbiddenIsHarmless(s: MicroBlockScheduler, toxic: (nat, nat) -> bool, code: Key -> uint64, i: nat, j: nat)
    requires s.Ranged() && s.Prepared() && s.AllLabelled(toxic) && AllFaithful(s.predictor, code, s.txnsToSchedule, s.txnRanges)
    requires i < j < |s.txnsToSchedule|
    requires !Forbids(s.options, s.dependencyGraph, s.txnsToSchedule[i], s.txnsToSchedule[j])
    ensures Harmless(s.options, s.txnsToSchedule[i], s.txnsToSchedule[j])
  {
    var p, y, x, ry, rx := s.predictor, s.txnsToSchedule[i], s.txnsToSchedule[j], s.txnRanges[i], s.txnRanges[j];
    s.ForbidsIsLabel(toxic, i, j);
    assert Faithful(p, code, y, ry) && Faithful(p, code, x, rx) && p.SafeTogether(ry, rx);
    p.SafeIsCoveredTogether(ry, rx);
    p.PredictedIsConflict(ry, rx);
    forall k | y.WritesKey(k)
      ensures !x.Reads(k) && !x.WritesKey(k)
    {
      p.RealConflictPredicted(ry, rx, code(k));
    }
    if !s.options.reordering {
      forall k | y.Reads(k)
        ensures !x.WritesKey(k)
      {
        p.RealConflictPredicted(ry, rx, code(k));
      }
    }
  }

  ghost predicate AllHarmless(o: Options, mb: MicroBlock) {
    forall a, b :: 0 <= a < b < |mb| ==> Harmless(o, mb[a], mb[b])
  }

  /** In a block without harm no flag of the validation is raised, whatever the table. */
  lemma HarmlessNeverAborts(o: Options, t: Table, mb: MicroBlock, x: Txn)
    requires Ascending(mb) && AllHarmless(o, mb) && x in Survivors(t, mb)
    ensures !Raw(o, Survivors(t, mb), x) && !Waw(o, Survivors(t, mb), x)
    ensures !o.reordering ==> !War(o, Survivors(t, mb), x)
    ensures Commits(o, Survivors(t, mb), x)
  {
    hide Harmless, Commits, Raw, War, Waw;
    forall y | y in Survivors(t, mb) && y.id < x.id
      ensures Harmless(o, y, x)
    {
      var a, b :| 0 <= a < |mb| && 0 <= b < |mb| && mb[a] == y && mb[b] == x;
      assert a < b;
    }
    NoFlagRaised(o, Survivors(t, mb), x);
  }

  lemma NoFlagRaised(o: Options, batch: seq<Txn>, x: Txn)
    requires forall y :: y in batch && y.id < x.id ==> Harmless(o, y, x)
    ensures !Raw(o, batch, x) && !Waw(o, batch, x) && (!o.reordering ==> !War(o, batch, x)) && Commits(o, batch, x)
  {}

  ghost predicate HarmlessSchedule(o: Options, bs: seq<MicroBlock>) {
    forall b :: 0 <= b < |bs| ==> Ascending(bs[b]) && AllHarmless(o, bs[b])
  }

  /**
   With the prediction on, and ranges that cover the accesses, the scheduled
   micro-blocks are without harm: so whoever reaches the validation commits.
   */
  lemma ScheduledAreHarmless(s: MicroBlockScheduler, toxic: (nat, nat) -> bool, code: Key -> uint64)
    requires s.Ranged() && s.Prepared() && s.AllLabelled(toxic) && AllFaithful(s.predictor, code, s.txnsToSchedule, s.txnRanges)
    ensures HarmlessSchedule(s.options, Schedule(s.options, s.dependencyGraph, s.txnsToSchedule))
  {
    var bs := Schedule(s.options, s.dependencyGraph, s.txnsToSchedule);
    forall b | 0 <= b < |bs|
      ensures Ascending(bs[b]) && AllHarmless(s.options, bs[b])
    {
      ScheduledBlocksAreGood(s.options, s.dependencyGraph, s.txnsToSchedule, b);
      GoodIsHarmless(s, toxic, code, bs[b]);
    }
  }

  lemma GoodIsHarmless(s: MicroBlockScheduler, toxic: (nat, nat) -> bool, code: Key -> uint64, mb: MicroBlock)
    requires s.Ranged() && s.Prepared() && s.AllLabelled(toxic) && AllFaithful(s.predictor, code, s.txnsToSchedule, s.txnRanges)
    requires GoodBlock(s.options, s.dependencyGraph, mb) && forall x :: x in mb ==> x in s.txnsToSchedule
    ensures AllHarmless(s.options, mb)
  {
    hide Harmless, Forbids, AllFaithful;
    forall a, b | 0 <= a < b < |mb|
      ensures Harmless(s.options, mb[a], mb[b])
    {
      assert mb[a] in mb && mb[b] in mb;
      var i, j :| 0 <= i < |s.txnsToSchedule| && 0 <= j < |s.txnsToSchedule| && s.txnsToSchedule[i] == mb[a] && s.txnsToSchedule[j] == mb[b];
      assert mb[a].id < mb[b].id;
      NotForbiddenIsHarmless(s, toxic, code, i, j);
    }
  }

  /** Whoever's procedure ended ready has committed. */
  ghost predicate NoValidationAborts(t: Table, o: Options, bs: seq<MicroBlock>, ends: seq<seq<TxnState>>) {
    forall b, i :: 0 <= b < |bs| && b < |ends| && 0 <= i < |ends[b]| ==>
      (ends[b][i].Active() <==> ends[b][i].txn in Survivors(TableBefore(o, t, bs, b), bs[b]))
  }

  lemma HarmlessEndsNeverAbort(o: Options, t: Table, bs: seq<MicroBlock>, ends: seq<seq<TxnState>>)
    requires HarmlessSchedule(o, bs) && Ends(o, t, bs, ends)
    ensures NoValidationAborts(t, o, bs, ends)
  {
    forall b, i | 0 <= b < |bs| && 0 <= i < |ends[b]|
      ensures ends[b][i].Active() <==> ends[b][i].txn in Survivors(TableBefore(o, t, bs, b), bs[b])
    {
      assert EndOf(o, TableBefore(o, t, bs, b), bs[b], ends[b]);
      if ends[b][i].txn in Survivors(TableBefore(o, t, bs, b), bs[b]) {
        HarmlessNeverAborts(o, TableBefore(o, t, bs, b), bs[b], ends[b][i].txn);
      }
    }
  }

  // ------------------------------------------------------------------
  // Who commits when nobody is aborted by the validation
  // ------------------------------------------------------------------

  /** How the procedure ends does not depend on what it reads. */
  ghost predicate Foreseen(x: Txn) { forall vs :: x.outcome(vs) == x.outcome([]) }

  ghost predicate AllForeseen(xs: seq<Txn>) { forall x :: x in xs ==> Foreseen(x) }

  /** Those of them that do not roll back. */
  function ReadyOnes(xs: seq<Txn>): seq<Txn> {
    if xs == [] then [] else ReadyOnes(xs[..|xs| - 1]) + if xs[|xs| - 1].outcome([]).Ready? then [xs[|xs| - 1]] else []
  }

  lemma {:induction false} SurvivorsAreReady(t: Table, xs: seq<Txn>)
    requires AllForeseen(xs)
    ensures Survivors(t, xs) == ReadyOnes(xs)
    decreases |xs|
  {
    if xs != [] {
      assert xs[|xs| - 1] in xs;
      SurvivorsAreReady(t, xs[..|xs| - 1]);
      assert Foreseen(xs[|xs| - 1]);
    }
  }

  lemma {:induction false} AllCommitted(o: Options, batch: seq<Txn>, xs: seq<Txn>)
    requires forall x :: x in xs ==> Commits(o, batch, x)
    ensures Committed(o, batch, xs) == xs
    decreases |xs|
  {
    hide Commits;
    if xs != [] {
      assert xs == xs[..|xs| - 1] + [xs[|xs| - 1]];
      AllCommitted(o, batch, xs[..|xs| - 1]);
    }
  }

  lemma {:induction false} ReadyConcat(a: seq<Txn>, b: seq<Txn>)
    ensures ReadyOnes(a + b) == ReadyOnes(a) + ReadyOnes(b)
    decreases |b|
  {
    if b == [] {
      assert a + b == a;
    } else {
      ReadyConcat(a, b[..|b| - 1]);
      assert (a + b)[..|a + b| - 1] == a + b[..|b| - 1];
    }
  }

  lemma {:induction false} ReadyCount(xs: seq<Txn>, x: Txn)
    ensures multiset(ReadyOnes(xs))[x] == if x.outcome([]).Ready? then multiset(xs)[x] else 0
    decreases |xs|
  {
    if xs != [] {
      ReadyCount(xs[..|xs| - 1], x);
      assert xs == xs[..|xs| - 1] + [xs[|xs| - 1]];
    }
  }

  lemma ReadyPermuted(a: seq<Txn>, b: seq<Txn>)
    requires multiset(a) == multiset(b)
    ensures multiset(ReadyOnes(a)) == multiset(ReadyOnes(b))
  {
    forall x ensures multiset(ReadyOnes(a))[x] == multiset(ReadyOnes(b))[x] {
      ReadyCount(a, x);
      ReadyCount(b, x);
    }
  }

  /** A block in which nobody is aborted runs, in its serial order, everybody who does not roll back. */
  lemma BlockOrderIsReady(o: Options, t: Table, mb: MicroBlock, end: seq<TxnState>)
    requires EndOf(o, t, mb, end) && AllForeseen(mb)
    requires forall i :: 0 <= i < |end| ==> (end[i].Active() <==> end[i].txn in Survivors(t, mb))
    ensures multiset(BlockOrder(o, t, mb)) == multiset(ReadyOnes(mb))
  {
    hide Commits;
    var c := Survivors(t, mb);
    forall x | x in c
      ensures Commits(o, c, x)
    {
      var i :| 0 <= i < |mb| && mb[i] == x;
      assert end[i].txn == x;
    }
    AllCommitted(o, c, c);
    SerialOrderIsPermutation(o, c);
    SurvivorsAreReady(t, mb);
  }

  lemma {:induction false} PrefixOrderIsReady(o: Options, t: Table, bs: seq<MicroBlock>, ends: seq<seq<TxnState>>, n: nat)
    requires n <= |bs| && Ends(o, t, bs, ends) && NoValidationAborts(t, o, bs, ends) && forall b :: 0 <= b < |bs| ==> AllForeseen(bs[b])
    ensures multiset(RunOrder(o, t, bs[..n])) == multiset(ReadyOnes(Flatten(bs[..n])))
    decreases n
  {
    hide *;
    if n == 0 {
      NothingReady(o, t, bs);
    } else {
      var mb := bs[n - 1];
      PrefixOrderIsReady(o, t, bs, ends, n - 1);
      assert bs[..n] == bs[..n - 1] + [mb];
      RunOrderAppend(o, t, bs[..n - 1], mb);
      FlattenAppend(bs[..n - 1], mb);
      ReadyConcat(Flatten(bs[..n - 1]), mb);
      TableBeforeIs(o, t, bs, n - 1);
      EndGives(o, t, bs, ends, n - 1);
      BlockOrderIsReady(o, TableBefore(o, t, bs, n - 1), mb, ends[n - 1]);
    }
  }

  lemma EndGives(o: Options, t: Table, bs: seq<MicroBlock>, ends: seq<seq<TxnState>>, b: nat)
    requires Ends(o, t, bs, ends) && NoValidationAborts(t, o, bs, ends) && b < |bs|
    ensures b < |ends| && EndOf(o, TableBefore(o, t, bs, b), bs[b], ends[b])
    ensures forall i :: 0 <= i < |ends[b]| ==> (ends[b][i].Active() <==> ends[b][i].txn in Survivors(TableBefore(o, t, bs, b), bs[b]))
  {}

  lemma NothingReady(o: Options, t: Table, bs: seq<MicroBlock>)
    ensures RunOrder(o, t, bs[..0]) == [] && ReadyOnes(Flatten(bs[..0])) == []
  {}

  /** Without validation aborts the serial order of the epoch runs all of them, each once. */
  lemma EverybodyCommits(o: Options, t: Table, xs: seq<Txn>, bs: seq<MicroBlock>, ends: seq<seq<TxnState>>)
    requires Ends(o, t, bs, ends) && NoValidationAborts(t, o, bs, ends)
    requires multiset(Flatten(bs)) == multiset(xs) && AllForeseen(xs)
    ensures multiset(RunOrder(o, t, bs)) == multiset(ReadyOnes(xs))
  {
    hide Foreseen, EndOf, BlockOrder, RunSerial, Survivors, ReadyOnes;
    forall b | 0 <= b < |bs|
      ensures AllForeseen(bs[b])
    {
      FlattenHasParts(bs, b);
      assert forall x :: x in Flatten(bs) ==> x in multiset(xs);
    }
    PrefixOrderIsReady(o, t, bs, ends, |bs|);
    assert bs[..|bs|] == bs;
    ReadyPermuted(Flatten(bs), xs);
  }

  lemma EndsAreNumbered(o: Options, t: Table, xs: seq<Txn>, bs: seq<MicroBlock>, ends: seq<seq<TxnState>>)
    requires ValidBatch(xs) && IdsBelow(xs, |xs| + 1) && Ends(o, t, bs, ends)
    requires forall b :: 0 <= b < |bs| ==> PartOf(bs[b], xs)
    ensures forall b, i :: 0 <= b < |ends| && 0 <= i < |ends[b]| ==> 0 < ends[b][i].txn.id <= |xs| && !ends[b][i].abortLock
  {
    forall b, i | 0 <= b < |ends| && 0 <= i < |ends[b]|
      ensures 0 < ends[b][i].txn.id <= |xs| && !ends[b][i].abortLock
    {
      assert EndOf(o, TableBefore(o, t, bs, b), bs[b], ends[b]);
      assert bs[b][i] in xs;
    }
  }
}
