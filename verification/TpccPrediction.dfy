/**
 TPC-C under PRDCC, end to end: whatever new orders, payments and deliveries an epoch
 brings, the ranges they declare cover what they access, so the prediction keeps the
 validation from aborting anybody, and the table ends as if all transactions that do
 not roll back had been run one by one.
 */
module TpccPrediction {
  import opened Transactions
  import opened AriaHelper
  import opened DataSummary
  import opened ConflictPredictor
  import K = KeyConverter
  import Q = TpccQuery
  import P = TpccTransaction
  import A = Aria
  import X = ProdccExecutor
  import B = MicroBlockScheduler
  import M = MacroBatch
  import G = ProdccManager
  import E = InterleavedEpochs

  /** `rows` tells which row a key of the table stands for, `code` its number. */
  ghost predicate Encodes(l: K.TpccLayout, rows: Key -> K.TpccKey, code: Key -> uint64) {
    forall k :: K.InRange(l, rows(k)) ==> code(k) == K.ToUint64(l, rows(k))
  }

  ghost predicate Declares(l: K.TpccLayout, rows: Key -> K.TpccKey, xs: seq<Q.Access>, k: Key) {
    Q.AllValid(l, xs) && K.InRange(l, rows(k)) && Q.SomeCovers(l, xs, rows(k))
  }

  /** A transaction whose accesses are declared is faithful to its ranges. */
  lemma DeclaredIsFaithful(p: ConflictPredictor, l: K.TpccLayout, rows: Key -> K.TpccKey, code: Key -> uint64,
                           x: Txn, r: TxnQueryRanges, toRead: seq<Q.Access>, toWrite: seq<Q.Access>)
    requires p.summary.Valid() && l.Valid() && K.Fits(l) && Encodes(l, rows, code)
    requires p.summary.BuiltDense(K.MinKey(l), K.MaxKey(l))
    requires SortedByStart(r.read) && SortedByStart(r.write)
    requires Q.Lists(l, r.read, toRead) && Q.Lists(l, r.write, toWrite)
    requires forall k :: x.Reads(k) ==> Declares(l, rows, toRead, k)
    requires forall k :: x.WritesKey(k) ==> Declares(l, rows, toWrite, k)
    ensures M.Faithful(p, code, x, r)
  {
    forall k | x.Reads(k)
      ensures InSome(r.read, code(k)) && p.summary.Knows(code(k))
    {
      assert Declares(l, rows, toRead, k);
      Q.ListsIsExact(l, r.read, toRead, rows(k));
      Q.EveryRowKnown(p, l, rows(k));
    }
    forall k | x.WritesKey(k)
      ensures InSome(r.write, code(k)) && p.summary.Knows(code(k))
    {
      assert Declares(l, rows, toWrite, k);
      Q.ListsIsExact(l, r.write, toWrite, rows(k));
      Q.EveryRowKnown(p, l, rows(k));
    }
  }

  // ------------------------------------------------------------------
  // The transactions of TPC-C
  // ------------------------------------------------------------------

  /** Every row has a key of its own in the table. */
  ghost predicate Names(key: K.TpccKey -> Key, rows: Key -> K.TpccKey) {
    forall k :: rows(key(k)) == k
  }

  type Output = (seq<Value>, nat) -> Value

  lemma ReadIsDeclared(l: K.TpccLayout, key: K.TpccKey -> Key, rows: Key -> K.TpccKey, q: P.Query, x: Txn, k: Key)
    requires Names(key, rows) && P.ValidQuery(l, q) && x.readSet == P.ReadKeys(P.AccessedBy(q).read, key) && x.Reads(k)
    ensures Declares(l, rows, P.ToRead(q), k)
  {
    assert K.InRange(l, K.Item(1));
    hide *;
    var i := ReadAt(x, k);
    P.QueryCovered(l, q, K.Item(1));
    var read := P.AccessedBy(q).read;
    assert read[i].row == P.Rows(read)[i] && key(read[i].row) == k;
    NameOf(key, rows, read[i].row);
    P.ListedIsSome(l, P.Rows(read), rows(k));
    P.QueryCovered(l, q, rows(k));
    DeclaresIs(l, rows, P.ToRead(q), k);
  }

  lemma ReadAt(x: Txn, k: Key) returns (i: nat)
    requires x.Reads(k)
    ensures i < |x.readSet| && x.readSet[i] == ReadKey(k, false)
  {
    i :| 0 <= i < |x.readSet| && x.readSet[i] == ReadKey(k, false);
  }

  lemma NameOf(key: K.TpccKey -> Key, rows: Key -> K.TpccKey, k: K.TpccKey)
    requires Names(key, rows)
    ensures rows(key(k)) == k
  {}

  lemma DeclaresIs(l: K.TpccLayout, rows: Key -> K.TpccKey, xs: seq<Q.Access>, k: Key)
    requires Q.AllValid(l, xs) && K.InRange(l, rows(k)) && Q.SomeCovers(l, xs, rows(k))
    ensures Declares(l, rows, xs, k)
  {}

  lemma WriteIsDeclared(l: K.TpccLayout, key: K.TpccKey -> Key, rows: Key -> K.TpccKey, q: P.Query, x: Txn, k: Key)
    requires Names(key, rows) && P.ValidQuery(l, q) && x.writeSet == P.WriteKeys(P.AccessedBy(q).written, key) && x.WritesKey(k)
    ensures Declares(l, rows, P.ToWrite(q), k)
  {
    assert K.InRange(l, K.Item(1));
    hide *;
    var written := P.AccessedBy(q).written;
    var i := WrittenAt(x, k);
    P.QueryCovered(l, q, K.Item(1));
    NameOf(key, rows, written[i]);
    P.ListedIsSome(l, written, rows(k));
    P.QueryCovered(l, q, rows(k));
    DeclaresIs(l, rows, P.ToWrite(q), k);
  }

  lemma WrittenAt(x: Txn, k: Key) returns (i: nat)
    requires x.WritesKey(k)
    ensures i < |x.writeSet| && x.writeSet[i] == k
  {
    i :| 0 <= i < |x.writeSet| && x.writeSet[i] == k;
  }

  /** Each of the three procedures is faithful to the ranges its query declares. */
  lemma QueryIsFaithful(p: ConflictPredictor, l: K.TpccLayout, key: K.TpccKey -> Key, rows: Key -> K.TpccKey, code: Key -> uint64,
                        q: P.Query, output: Output, n: nat, r: TxnQueryRanges)
    requires p.summary.Valid() && l.Valid() && K.Fits(l) && Encodes(l, rows, code) && Names(key, rows)
    requires p.summary.BuiltDense(K.MinKey(l), K.MaxKey(l))
    requires P.ValidQuery(l, q) && SortedByStart(r.read) && SortedByStart(r.write)
    requires Q.Lists(l, r.read, P.ToRead(q)) && Q.Lists(l, r.write, P.ToWrite(q))
    ensures M.Faithful(p, code, M.Numbered(P.TxnOf(q, key, output), n), r)
  {
    var x := M.Numbered(P.TxnOf(q, key, output), n);
    assert x.readSet == P.ReadKeys(P.AccessedBy(q).read, key) && x.writeSet == P.WriteKeys(P.AccessedBy(q).written, key);
    hide *;
    forall k | x.Reads(k)
      ensures Declares(l, rows, P.ToRead(q), k)
    {
      ReadIsDeclared(l, key, rows, q, x, k);
    }
    forall k | x.WritesKey(k)
      ensures Declares(l, rows, P.ToWrite(q), k)
    {
      WriteIsDeclared(l, key, rows, q, x, k);
    }
    DeclaredIsFaithful(p, l, rows, code, x, r, P.ToRead(q), P.ToWrite(q));
  }

  /** A query with what its procedure computes. */
  datatype Job = Job(query: P.Query, output: Output)

  function TxnsOf(jobs: seq<Job>, key: K.TpccKey -> Key): (xs: seq<Txn>)
    ensures |xs| == |jobs| && forall i :: 0 <= i < |xs| ==> xs[i] == P.TxnOf(jobs[i].query, key, jobs[i].output)
  {
    seq(|jobs|, i requires 0 <= i < |jobs| => P.TxnOf(jobs[i].query, key, jobs[i].output))
  }

  /** The item table is never written, as its reads through the local index need. */
  lemma ItemsReadOnly(jobs: seq<Job>, key: K.TpccKey -> Key, rows: Key -> K.TpccKey)
    requires Names(key, rows)
    ensures A.IndexesReadOnly(TxnsOf(jobs, key))
  {
    var xs := TxnsOf(jobs, key);
    hide P.AccessedBy;
    forall i, j, k | 0 <= i < |xs| && 0 <= j < |xs| && xs[i].ReadsIndex(k)
      ensures !xs[j].WritesKey(k)
    {
      var a, written := P.AccessedBy(jobs[i].query).read, P.AccessedBy(jobs[j].query).written;
      var n :| 0 <= n < |xs[i].readSet| && xs[i].readSet[n] == ReadKey(k, true);
      P.OnlyItemsIndexed(jobs[i].query, n);
      NameOf(key, rows, a[n].row);
      P.NoItemWritten(jobs[j].query);
      if xs[j].WritesKey(k) {
        var m := WrittenAt(xs[j], k);
        NameOf(key, rows, written[m]);
        assert false;
      }
    }
  }

  lemma AllAreForeseen(jobs: seq<Job>, key: K.TpccKey -> Key)
    ensures M.AllForeseen(M.AllNumbered(TxnsOf(jobs, key)))
  {}

  // ------------------------------------------------------------------
  // One epoch
  // ------------------------------------------------------------------

  ghost predicate Declared(l: K.TpccLayout, q: P.Query, r: TxnQueryRanges) {
    && SortedByStart(r.read) && SortedByStart(r.write)
    && Q.Lists(l, r.read, P.ToRead(q)) && Q.Lists(l, r.write, P.ToWrite(q))
  }

  ghost predicate AllQueriesValid(l: K.TpccLayout, jobs: seq<Job>) {
    forall i :: 0 <= i < |jobs| ==> P.ValidQuery(l, jobs[i].query)
  }

  method PopulateAll(l: K.TpccLayout, jobs: seq<Job>) returns (ranges: seq<TxnQueryRanges>)
    requires l.Valid() && AllQueriesValid(l, jobs)
    ensures |ranges| == |jobs| && forall i :: 0 <= i < |jobs| ==> Declared(l, jobs[i].query, ranges[i])
  {
    hide Q.Lists, SortedByStart, P.ValidQuery;
    ranges := [];
    for i := 0 to |jobs|
      invariant |ranges| == i && forall j :: 0 <= j < i ==> Declared(l, jobs[j].query, ranges[j])
    {
      var r := P.PopulateRanges(l, jobs[i].query);
      ranges := ranges + [r];
    }
  }

  /** Over TPC-C's dense domain any ranges are safe. */
  lemma DenseIsSafe(p: ConflictPredictor, l: K.TpccLayout, r1: TxnQueryRanges, r2: TxnQueryRanges)
    requires l.Valid() && K.Fits(l) && p.summary.BuiltDense(K.MinKey(l), K.MaxKey(l))
    ensures p.SafeTogether(r1, r2)
  {}

  /** Any batch of the three queries is faithful to its ranges. */
  lemma BatchIsFaithful(p: ConflictPredictor, l: K.TpccLayout, key: K.TpccKey -> Key, rows: Key -> K.TpccKey, code: Key -> uint64,
                        jobs: seq<Job>, ranges: seq<TxnQueryRanges>)
    requires p.summary.Valid() && l.Valid() && K.Fits(l) && Encodes(l, rows, code) && Names(key, rows)
    requires p.summary.BuiltDense(K.MinKey(l), K.MaxKey(l))
    requires AllQueriesValid(l, jobs) && |ranges| == |jobs|
    requires forall i :: 0 <= i < |jobs| ==> Declared(l, jobs[i].query, ranges[i])
    ensures M.AllFaithful(p, code, M.AllNumbered(TxnsOf(jobs, key)), ranges)
  {
    var xs := M.AllNumbered(TxnsOf(jobs, key));
    hide M.Faithful, Names, Encodes, Q.Lists, SortedByStart, P.ValidQuery, P.TxnOf, M.Numbered;
    forall i | 0 <= i < |xs|
      ensures M.Faithful(p, code, xs[i], ranges[i])
    {
      assert Declared(l, jobs[i].query, ranges[i]);
      QueryIsFaithful(p, l, key, rows, code, jobs[i].query, jobs[i].output, i, ranges[i]);
    }
    forall i, j | 0 <= i < j < |xs| ensures p.SafeTogether(ranges[i], ranges[j]) { DenseIsSafe(p, l, ranges[i], ranges[j]); }
  }

  /** The number of a row; keys that stand for no row never occur. */
  ghost function CodeOf(l: K.TpccLayout, rows: Key -> K.TpccKey, k: Key): uint64 {
    if K.InRange(l, rows(k)) then K.ToUint64(l, rows(k)) else 0
  }

  /**
   One epoch of TPC-C with the prediction on. The validation aborts nobody; every
   transaction is in one micro-block; and the table is that of running, one by one and
   each once, all transactions but the new orders that roll back.
   */
  method RunTpccEpoch(m: G.ProdccManager, l: K.TpccLayout, jobs: seq<Job>, toxic: (nat, nat) -> bool,
                      key: K.TpccKey -> Key, ghost rows: Key -> K.TpccKey)
    returns (schedule: seq<B.MicroBlock>, ends: seq<seq<X.TxnState>>)
    requires l.Valid() && K.Fits(l) && Names(key, rows) && AllQueriesValid(l, jobs)
    requires m.Wired() && m.scheduler.predictor.summary.BuiltDense(K.MinKey(l), K.MaxKey(l))
    requires m.executor.epoch + 1 < EPOCH_LIMIT && |jobs| + 1 < TS_LIMIT && m.batchSize > 0
    requires X.Stale(m.executor.metadata, m.executor.epoch + 1) && m.NothingToRetry()
    modifies m.executor`epoch, m.executor`block, m.executor`table, m.executor`metadata
    modifies m`transactions, m`totalAbort, m`totalDelay, m`totalValid, m.scheduler
    ensures m.Wired() && X.Stale(m.executor.metadata, m.executor.epoch + 1) && m.NothingToRetry()
    ensures multiset(B.Flatten(schedule)) == multiset(M.AllNumbered(TxnsOf(jobs, key)))
    ensures M.NoValidationAborts(old(m.executor.table), m.executor.options, schedule, ends)
    ensures m.executor.table == RunSerial(old(m.executor.table), M.RunOrder(m.executor.options, old(m.executor.table), schedule))
    ensures multiset(M.RunOrder(m.executor.options, old(m.executor.table), schedule)) ==
            multiset(M.ReadyOnes(M.AllNumbered(TxnsOf(jobs, key))))
  {
    ghost var t0, o, xs := m.executor.table, m.executor.options, M.AllNumbered(TxnsOf(jobs, key));
    ghost var code := (k: Key) => CodeOf(l, rows, k);
    assert Encodes(l, rows, code);
    ItemsReadOnly(jobs, key, rows);
    AllAreForeseen(jobs, key);
    var queries := TxnsOf(jobs, key);
    var ranges := PopulateAll(l, jobs);
    BatchIsFaithful(m.scheduler.predictor, l, key, rows, code, jobs, ranges);
    var e := G.Epoch(queries, ranges, true, toxic);
    assert G.ValidEpoch(e, m.batchSize);
    hide *;
    schedule, ends := m.RunEpoch(e, code);
    M.EverybodyCommits(o, t0, xs, schedule, ends);
  }

  /** The same epoch up to its schedule: no micro-block holds a conflict that the validation looks for. */
  method PlanTpccEpoch(m: G.ProdccManager, l: K.TpccLayout, jobs: seq<Job>, toxic: (nat, nat) -> bool,
                       key: K.TpccKey -> Key, ghost rows: Key -> K.TpccKey)
    returns (schedule: seq<B.MicroBlock>)
    requires l.Valid() && K.Fits(l) && Names(key, rows) && AllQueriesValid(l, jobs)
    requires m.Wired() && m.scheduler.predictor.summary.BuiltDense(K.MinKey(l), K.MaxKey(l))
    requires |jobs| + 1 < TS_LIMIT && m.batchSize > 0 && m.NothingToRetry()
    modifies m.executor`epoch, m`transactions, m`totalAbort, m`totalDelay, m`totalValid, m.scheduler
    ensures m.Wired() && m.NothingToRetry()
    ensures multiset(B.Flatten(schedule)) == multiset(M.AllNumbered(TxnsOf(jobs, key)))
    ensures M.ValidSchedule(schedule) && M.HarmlessSchedule(m.executor.options, schedule)
  {
    ghost var code := (k: Key) => CodeOf(l, rows, k);
    assert Encodes(l, rows, code);
    ItemsReadOnly(jobs, key, rows);
    var queries := TxnsOf(jobs, key);
    var ranges := PopulateAll(l, jobs);
    BatchIsFaithful(m.scheduler.predictor, l, key, rows, code, jobs, ranges);
    var e := G.Epoch(queries, ranges, true, toxic);
    assert G.ValidEpoch(e, m.batchSize);
    hide *;
    schedule := m.PlanEpoch(e, code);
  }

  /**
   Run by concurrent workers in any interleaving, such a schedule ends likewise: no
   validation abort, and the table of running, each once, all but the new orders that roll
   back.
   */
  lemma InterleavedTpccEpoch(o: A.Options, t0: Table, words: map<Key, Word>, bs: seq<E.BlockRun>, jobs: seq<Job>, key: K.TpccKey -> Key)
    requires E.Chain(o, t0, words, bs) && M.HarmlessSchedule(o, E.BlocksOf(bs))
    requires multiset(B.Flatten(E.BlocksOf(bs))) == multiset(M.AllNumbered(TxnsOf(jobs, key)))
    ensures E.AllRun(bs) && M.NoValidationAborts(t0, o, E.BlocksOf(bs), E.EndsOf(bs))
    ensures E.FinalTable(t0, bs) == RunSerial(t0, M.RunOrder(o, t0, E.BlocksOf(bs)))
    ensures multiset(M.RunOrder(o, t0, E.BlocksOf(bs))) == multiset(M.ReadyOnes(M.AllNumbered(TxnsOf(jobs, key))))
  {
    AllAreForeseen(jobs, key);
    hide *;
    E.ChainIsSerial(o, t0, words, bs);
    E.SerialGives(o, t0, bs);
    E.HarmlessChain(o, t0, words, bs, M.AllNumbered(TxnsOf(jobs, key)));
  }
}
