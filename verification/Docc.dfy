/**
 DOCC: all transactions of a batch run on one snapshot and remember the versions they
 read. Then one worker goes through them in the order of the batch, lets those commit
 whose versions are still the newest, and drops the others or runs them again.
 */
module Docc {
  import opened Transactions
  import opened Aria
  import opened Strides
  import opened MvccHashMap
  import opened MvccTable

  datatype DoccTxn = DoccTxn(txn: Txn, values: seq<Value>, versions: seq<nat>, abortNoRetry: bool)

  /** Every key read has a version; the table stops the program on one that has none. */
  ghost predicate KeysExist(rows: Rows, x: Txn) {
    forall p :: 0 <= p < |x.readSet| ==> ListIn(rows, x.readSet[p].key) != []
  }

  function HeadVersion(rows: Rows, k: Key): nat {
    if ListIn(rows, k) == [] then 0 else ListIn(rows, k)[0].version
  }

  /** What a run of `x` on `rows` leaves behind. */
  ghost predicate RanOn(rows: Rows, d: DoccTxn) {
    && d.values == ReadValues(NewestTable(rows), d.txn)
    && |d.versions| == |d.txn.readSet|
    && (forall p :: 0 <= p < |d.versions| ==> d.versions[p] == HeadVersion(rows, d.txn.readSet[p].key))
    && (d.abortNoRetry <==> !d.txn.outcome(d.values).Ready?)
  }

  /** Every version that was read outside the read-only indexes is still the newest. */
  ghost predicate StillNewest(rows: Rows, d: DoccTxn)
    requires |d.versions| == |d.txn.readSet|
  {
    forall p :: 0 <= p < |d.versions| && !d.txn.readSet[p].localIndex ==>
      d.versions[p] == HeadVersion(rows, d.txn.readSet[p].key)
  }

  // ------------------------------------------------------------------
  // Who commits
  // ------------------------------------------------------------------

  /** Someone of `xs` writes a key that `x` reads outside the indexes. */
  ghost predicate Spoiled(xs: seq<Txn>, x: Txn) {
    exists y, k :: y in xs && y.WritesKey(k) && x.Reads(k)
  }

  /** The committed among the first `n`, in their order. */
  ghost function CommittedOf(retry: bool, t0: Table, batch: seq<Txn>, n: nat): (c: seq<Txn>)
    requires n <= |batch|
    ensures forall x :: x in c ==> x in batch[..n]
    decreases n
  {
    if n == 0 then []
    else
      var before, x := CommittedOf(retry, t0, batch, n - 1), batch[n - 1];
      assert batch[..n] == batch[..n - 1] + [x];
      if x.outcome(ReadValues(t0, x)).Ready? && (retry || !Spoiled(before, x)) then before + [x] else before
  }

  ghost predicate IdsGrow(batch: seq<Txn>) {
    forall i, j :: 0 <= i < j < |batch| ==> batch[i].id < batch[j].id
  }

  /** Whether a transaction has committed is settled when its turn is over. */
  lemma {:induction false} SettledInTurn(retry: bool, t0: Table, batch: seq<Txn>, n: nat, i: nat)
    requires i < n <= |batch| && IdsGrow(batch)
    ensures batch[i] in CommittedOf(retry, t0, batch, n) <==>
              batch[i].outcome(ReadValues(t0, batch[i])).Ready? && (retry || !Spoiled(CommittedOf(retry, t0, batch, i), batch[i]))
    decreases n
  {
    hide Spoiled, ReadValues;
    if n > i + 1 {
      SettledInTurn(retry, t0, batch, n - 1, i);
      assert batch[n - 1].id != batch[i].id;
    } else {
      assert forall x :: x in CommittedOf(retry, t0, batch, i) ==> x in batch[..i];
      assert batch[i] !in batch[..i] by { assert forall j :: 0 <= j < i ==> batch[..i][j].id < batch[i].id; }
    }
  }

  lemma SoFarCommitted(retry: bool, t0: Table, batch: seq<Txn>, n: nat, i: nat, x: Txn)
    requires i <= n <= |batch| && IdsGrow(batch)
    ensures x in CommittedOf(retry, t0, batch, i) <==> x in CommittedOf(retry, t0, batch, n) && x in batch[..i]
  {
    hide Spoiled, ReadValues;
    if x in batch[..i] {
      var j :| 0 <= j < i && batch[j] == x;
      SettledInTurn(retry, t0, batch, n, j);
      SettledInTurn(retry, t0, batch, i, j);
    }
  }

  /**
   Who commits, in accesses: with retry everybody who was ready on the snapshot, and
   without it those of them who read nothing that a committed transaction before them
   writes.
   */
  lemma CommitsIff(retry: bool, t0: Table, batch: seq<Txn>, n: nat, i: nat)
    requires i < n <= |batch| && IdsGrow(batch)
    ensures batch[i] in CommittedOf(retry, t0, batch, n) <==>
              && batch[i].outcome(ReadValues(t0, batch[i])).Ready?
              && (retry || forall j, k :: 0 <= j < i && batch[j] in CommittedOf(retry, t0, batch, n) && k in batch[j].writeSet ==>
                             !batch[i].Reads(k))
  {
    var c, before := CommittedOf(retry, t0, batch, n), CommittedOf(retry, t0, batch, i);
    SettledInTurn(retry, t0, batch, n, i);
    hide CommittedOf, ReadValues;
    forall j | 0 <= j < i
      ensures batch[j] in before <==> batch[j] in c
    {
      SoFarCommitted(retry, t0, batch, n, i, batch[j]);
      assert batch[..i][j] == batch[j];
    }
    if Spoiled(before, batch[i]) {
      var y, k :| y in before && y.WritesKey(k) && batch[i].Reads(k);
      SoFarCommitted(retry, t0, batch, n, i, y);
      var j :| 0 <= j < i && batch[..i][j] == y;
      assert batch[j] == y;
    }
    if j, k :| 0 <= j < i && batch[j] in c && k in batch[j].writeSet && batch[i].Reads(k) {
      assert batch[j] in before && batch[j].WritesKey(k);
      assert Spoiled(before, batch[i]);
    }
  }

  /** The first transaction that is ready on the snapshot always commits. */
  lemma {:induction false} FirstReadyCommits(retry: bool, t0: Table, batch: seq<Txn>, i: nat, n: nat)
    requires i < n <= |batch| && batch[i].outcome(ReadValues(t0, batch[i])).Ready?
    requires forall j :: 0 <= j < i ==> !batch[j].outcome(ReadValues(t0, batch[j])).Ready?
    ensures batch[i] in CommittedOf(retry, t0, batch, n)
    decreases n
  {
    if n > i + 1 {
      FirstReadyCommits(retry, t0, batch, i, n - 1);
    } else {
      NobodyYet(retry, t0, batch, i);
    }
  }

  lemma {:induction false} NobodyYet(retry: bool, t0: Table, batch: seq<Txn>, i: nat)
    requires i <= |batch| && forall j :: 0 <= j < i ==> !batch[j].outcome(ReadValues(t0, batch[j])).Ready?
    ensures CommittedOf(retry, t0, batch, i) == []
    decreases i
  {
    if i > 0 { NobodyYet(retry, t0, batch, i - 1); }
  }

  // ------------------------------------------------------------------
  // The rows while the batch commits
  // ------------------------------------------------------------------

  ghost predicate CommittingAt(before: Rows, rows: Rows, floor: nat, bound: nat, xs: set<Txn>, k: Key) {
    && Older(ListIn(rows, k), bound)
    && (if SomeWriter(xs, k) then ListIn(rows, k) != [] && ListIn(rows, k)[0].version >= floor
        else ListIn(rows, k) == ListIn(before, k))
  }

  /** What `xs` wrote has a version from `floor` on; everything else is as before. */
  ghost predicate Committing(before: Rows, rows: Rows, floor: nat, bound: nat, xs: set<Txn>) {
    forall k :: CommittingAt(before, rows, floor, bound, xs, k)
  }

  ghost predicate AllOlder(rows: Rows, bound: nat) {
    forall k :: Older(ListIn(rows, k), bound)
  }

  lemma CommittingStarts(before: Rows, floor: nat, bound: nat)
    requires AllOlder(before, floor) && floor <= bound
    ensures Committing(before, before, floor, bound, {})
  {
    forall k ensures CommittingAt(before, before, floor, bound, {}, k) {
      assert Older(ListIn(before, k), floor);
    }
  }

  /** A version changed exactly when someone who committed wrote the key. */
  lemma VersionTells(before: Rows, rows: Rows, floor: nat, bound: nat, xs: set<Txn>, k: Key)
    requires Committing(before, rows, floor, bound, xs) && AllOlder(before, floor) && ListIn(before, k) != []
    ensures HeadVersion(rows, k) == HeadVersion(before, k) <==> !SomeWriter(xs, k)
    ensures !SomeWriter(xs, k) ==> Lookup(NewestTable(rows), k) == Lookup(NewestTable(before), k)
    ensures ListIn(rows, k) != []
  {
    assert CommittingAt(before, rows, floor, bound, xs, k);
    assert Older(ListIn(before, k), floor) && ListIn(before, k)[0] in ListIn(before, k);
  }

  /** Validation is exact: it fails when, and only when, a committed transaction wrote what was read. */
  lemma ValidationIsExact(before: Rows, rows: Rows, floor: nat, bound: nat, c: seq<Txn>, d: DoccTxn)
    requires Committing(before, rows, floor, bound, Members(c)) && AllOlder(before, floor)
    requires RanOn(before, d) && KeysExist(before, d.txn)
    ensures StillNewest(rows, d) <==> !Spoiled(c, d.txn)
  {
    var x := d.txn;
    forall p | 0 <= p < |x.readSet| {
      VersionTells(before, rows, floor, bound, Members(c), x.readSet[p].key);
    }
    if Spoiled(c, x) {
      var y, k :| y in c && y.WritesKey(k) && x.Reads(k);
      var p :| 0 <= p < |x.readSet| && x.readSet[p] == ReadKey(k, false);
      assert y in Members(c) && SomeWriter(Members(c), k);
    }
    if !StillNewest(rows, d) {
      var p :| 0 <= p < |x.readSet| && !x.readSet[p].localIndex && d.versions[p] != HeadVersion(rows, x.readSet[p].key);
      var k := x.readSet[p].key;
      assert x.readSet[p] == ReadKey(k, false) && x.Reads(k);
      assert SomeWriter(Members(c), k);
      var y :| y in Members(c) && y.WritesKey(k);
    }
  }

  /** Then what was read on the snapshot is what is there now. */
  lemma ValidReadsAreCurrent(before: Rows, rows: Rows, floor: nat, bound: nat, c: seq<Txn>, d: DoccTxn)
    requires Committing(before, rows, floor, bound, Members(c)) && AllOlder(before, floor)
    requires RanOn(before, d) && KeysExist(before, d.txn) && !Spoiled(c, d.txn)
    requires forall y, k :: y in c && d.txn.ReadsIndex(k) ==> !y.WritesKey(k)
    ensures d.values == ReadValues(NewestTable(rows), d.txn)
  {
    var x := d.txn;
    forall p | 0 <= p < |x.readSet|
      ensures Lookup(NewestTable(rows), x.readSet[p].key) == Lookup(NewestTable(before), x.readSet[p].key)
    {
      var k := x.readSet[p].key;
      VersionTells(before, rows, floor, bound, Members(c), k);
      assert x.readSet[p] == ReadKey(k, false) || x.readSet[p] == ReadKey(k, true);
      assert x.Reads(k) || x.ReadsIndex(k);
    }
  }

  /** What the commit and the garbage collection of one transaction do to a list. */
  function CommittedList(l: seq<Version<Row>>, x: Txn, vs: seq<Value>, k: Key): seq<Version<Row>> {
    if x.WritesKey(k) then [Version(x.id, Row(0, Effect(x, vs)[k]))] else l
  }

  ghost predicate CommitOf(rows: Rows, rows': Rows, x: Txn, vs: seq<Value>) {
    forall k :: ListIn(rows', k) == CommittedList(ListIn(rows, k), x, vs, k)
  }

  lemma CommitKeepsCommitting(before: Rows, rows: Rows, rows': Rows, floor: nat, bound: nat, c: seq<Txn>, x: Txn, vs: seq<Value>)
    requires Committing(before, rows, floor, x.id, Members(c)) && CommitOf(rows, rows', x, vs)
    requires floor <= x.id < bound
    ensures Committing(before, rows', floor, bound, Members(c + [x]))
  {
    assert Members(c + [x]) == Members(c) + {x};
    forall k
      ensures CommittingAt(before, rows', floor, bound, Members(c) + {x}, k)
    {
      assert CommittingAt(before, rows, floor, x.id, Members(c), k);
      assert ListIn(rows', k) == CommittedList(ListIn(rows, k), x, vs, k);
      assert x in Members(c) + {x};
      if SomeWriter(Members(c) + {x}, k) && !x.WritesKey(k) {
        var y :| y in Members(c) + {x} && y.WritesKey(k);
        assert y in Members(c);
      }
      if SomeWriter(Members(c), k) {
        var y :| y in Members(c) && y.WritesKey(k);
        assert y in Members(c) + {x};
      }
    }
  }

  /** On the newest values a commit is the execution of the transaction. */
  lemma CommitExecutes(rows: Rows, rows': Rows, x: Txn, vs: seq<Value>)
    requires CommitOf(rows, rows', x, vs)
    requires vs == ReadValues(NewestTable(rows), x) && x.outcome(vs).Ready?
    ensures NewestTable(rows') == Execute(NewestTable(rows), x)
  {
    var t := NewestTable(rows);
    forall k
      ensures HeadIs(rows', t + Effect(x, vs), k)
    {
      assert ListIn(rows', k) == CommittedList(ListIn(rows, k), x, vs, k);
    }
    NewestIs(rows', t + Effect(x, vs));
  }

  lemma LaterBound(before: Rows, rows: Rows, floor: nat, bound: nat, bound': nat, xs: set<Txn>)
    requires Committing(before, rows, floor, bound, xs) && bound <= bound'
    ensures Committing(before, rows, floor, bound', xs)
  {
    forall k ensures CommittingAt(before, rows, floor, bound', xs, k) {
      assert CommittingAt(before, rows, floor, bound, xs, k);
    }
  }

  /** Ids grow along the batch, are newer than all versions, and no write set names a key twice. */
  ghost predicate ValidDocc(batch: seq<Txn>, floor: nat) {
    && (forall i :: 0 <= i < |batch| ==> floor <= batch[i].id < MAX_VERSION && DistinctWrites(batch[i]))
    && (forall i, j :: 0 <= i < j < |batch| ==> batch[i].id < batch[j].id)
    && IndexesReadOnly(batch)
  }

  /**
   With retry, the program stops at transaction `n`: it was ready on the snapshot, a
   committed transaction wrote what it read, and it is not ready on the table these left.
   */
  ghost predicate StopsAt(retry: bool, t0: Table, batch: seq<Txn>, n: nat)
    requires n < |batch|
  {
    var c, x := CommittedOf(retry, t0, batch, n), batch[n];
    && retry && x.outcome(ReadValues(t0, x)).Ready? && Spoiled(c, x)
    && !x.outcome(ReadValues(RunSerial(t0, c), x)).Ready?
  }

  ghost predicate NoStopBefore(retry: bool, t0: Table, batch: seq<Txn>, n: nat)
    requires n <= |batch|
  {
    forall m :: 0 <= m < n ==> !StopsAt(retry, t0, batch, m)
  }

  /** The id above which transaction `n`'s versions lie. */
  function BoundAt(batch: seq<Txn>, floor: nat, n: nat): nat
    requires n <= |batch|
  {
    if n < |batch| then batch[n].id else if n == 0 then floor else batch[n - 1].id + 1
  }

  lemma CommittedMembers(retry: bool, t0: Table, batch: seq<Txn>, n: nat)
    requires n <= |batch|
    ensures forall y :: y in CommittedOf(retry, t0, batch, n) ==> y in batch
  {}

  // ------------------------------------------------------------------
  // The executor
  // ------------------------------------------------------------------

  class DOCCExecutor {
    const workerNum: nat
    const enableValidationRetry: bool
    const table: MVCCTable
    var transactions: seq<DoccTxn>

    constructor (workerNum: nat, enableValidationRetry: bool, table: MVCCTable)
      ensures this.workerNum == workerNum && this.enableValidationRetry == enableValidationRetry && this.table == table
      ensures transactions == []
    {
      this.workerNum, this.enableValidationRetry, this.table := workerNum, enableValidationRetry, table;
      transactions := [];
    }

    /** Runs the procedure on the newest versions, and remembers which these are. */
    method ExecuteOneTransaction(x: Txn) returns (d: DoccTxn)
      requires KeysExist(table.rows.lists, x) && AllOlder(table.rows.lists, MAX_VERSION)
      ensures d.txn == x && RanOn(table.rows.lists, d)
    {
      var vs, versions := [], [];
      for p := 0 to |x.readSet|
        invariant |vs| == |versions| == p
        invariant forall q :: 0 <= q < p ==>
                    && vs[q] == Lookup(NewestTable(table.rows.lists), x.readSet[q].key)
                    && versions[q] == HeadVersion(table.rows.lists, x.readSet[q].key)
      {
        var key := x.readSet[p].key;
        assert ListIn(table.rows.lists, key) == table.ListOf(key) != [];
        var row := table.SearchLatest(key, MAX_VERSION);
        vs := vs + [row.value.value];
        versions := versions + [row.version];
      }
      assert vs == ReadValues(NewestTable(table.rows.lists), x);
      d := DoccTxn(x, vs, versions, !x.outcome(vs).Ready?);
    }

    method ExecuteTransactions(id: nat, queries: seq<Txn>)
      requires id < workerNum && |transactions| == |queries| && AllOlder(table.rows.lists, MAX_VERSION)
      requires forall i :: 0 <= i < |queries| ==> KeysExist(table.rows.lists, queries[i])
      modifies this`transactions
      ensures |transactions| == |queries|
      ensures forall i :: 0 <= i < |queries| ==>
                if WorkerOf(i, workerNum) == id then transactions[i].txn == queries[i] && RanOn(table.rows.lists, transactions[i])
                else transactions[i] == old(transactions)[i]
    {
      hide RanOn, KeysExist, AllOlder;
      WorkerStarts(id, workerNum);
      var i := id;
      while i < |transactions|
        invariant |transactions| == |queries| && WorkerOf(i, workerNum) == id
        invariant forall j :: 0 <= j < |queries| ==>
                    if WorkerOf(j, workerNum) == id && j < i then transactions[j].txn == queries[j] && RanOn(table.rows.lists, transactions[j])
                    else transactions[j] == old(transactions)[j]
      {
        NextStride(i, workerNum);
        var d := ExecuteOneTransaction(queries[i]);
        transactions := transactions[i := d];
        i := i + workerNum;
      }
    }

    method RunExecutePhase(queries: seq<Txn>)
      requires workerNum > 0 && AllOlder(table.rows.lists, MAX_VERSION)
      requires forall i :: 0 <= i < |queries| ==> KeysExist(table.rows.lists, queries[i])
      modifies this`transactions
      ensures |transactions| == |queries|
      ensures forall i :: 0 <= i < |queries| ==> transactions[i].txn == queries[i] && RanOn(table.rows.lists, transactions[i])
    {
      transactions := seq(|queries|, i requires 0 <= i < |queries| => DoccTxn(queries[i], [], [], false));
      for id := 0 to workerNum
        invariant |transactions| == |queries|
        invariant forall i :: 0 <= i < |queries| && WorkerOf(i, workerNum) < id ==>
                    transactions[i].txn == queries[i] && RanOn(table.rows.lists, transactions[i])
      {
        ExecuteTransactions(id, queries);
      }
    }

    method Validate(d: DoccTxn) returns (r: bool)
      requires |d.versions| == |d.txn.readSet| && KeysExist(table.rows.lists, d.txn) && AllOlder(table.rows.lists, MAX_VERSION)
      ensures r <==> StillNewest(table.rows.lists, d)
    {
      var x := d.txn;
      for p := 0 to |x.readSet|
        invariant forall q :: 0 <= q < p && !x.readSet[q].localIndex ==> d.versions[q] == HeadVersion(table.rows.lists, x.readSet[q].key)
      {
        if !x.readSet[p].localIndex {
          var key := x.readSet[p].key;
          assert ListIn(table.rows.lists, key) == table.ListOf(key) != [];
          var row := table.SearchLatest(key, MAX_VERSION);
          if row.version != d.versions[p] { return false; }
        }
      }
      return true;
    }

    /** A new version of one key, ready at once. */
    method CommitKey(key: Key, value: Value, id: nat)
      requires table.rows.Valid() && Older(table.ListOf(key), id)
      modifies table.rows
      ensures table.rows.Valid() && table.ListOf(key) == [Version(id, Row(0, value))] + old(table.ListOf(key))
      ensures forall k :: k != key ==> table.ListOf(k) == old(table.ListOf(k))
    {
      HeadIsOlder(table.ListOf(key), id);
      NewRowReady(table.ListOf(key), id, value);
      table.Insert(key, value, id);
      table.Update(key, value, id);
    }

    method Commit(x: Txn, vs: seq<Value>)
      requires table.rows.Valid() && DistinctWrites(x) && AllOlder(table.rows.lists, x.id)
      modifies table.rows
      ensures table.rows.Valid()
      ensures forall k :: table.ListOf(k) == WrittenList(old(table.rows.lists), x, vs, |x.writeSet|, k)
    {
      hide EffectPrefix;
      ghost var before := table.rows.lists;
      for i := 0 to |x.writeSet|
        invariant table.rows.Valid()
        invariant forall k :: table.ListOf(k) == WrittenList(before, x, vs, i, k)
      {
        OneMoreWritten(before, x, vs, i);
        CommitKey(x.writeSet[i], x.output(vs, i), x.id);
      }
    }

    /** Keeps only the version just committed of every key in the write set. */
    method CollectWrites(x: Txn)
      requires table.rows.Valid()
      modifies table.rows
      ensures table.rows.Valid()
      ensures forall k :: table.ListOf(k) == if x.WritesKey(k) then Kept(old(table.ListOf(k))) else old(table.ListOf(k))
    {
      for q := 0 to |x.writeSet|
        invariant table.rows.Valid()
        invariant forall k :: table.ListOf(k) == if k in x.writeSet[..q] then Kept(old(table.ListOf(k))) else old(table.ListOf(k))
      {
        assert x.writeSet[..q + 1] == x.writeSet[..q] + [x.writeSet[q]];
        table.GarbageCollect(x.writeSet[q]);
      }
      assert x.writeSet[..|x.writeSet|] == x.writeSet;
    }

    method CommitAndCollect(x: Txn, vs: seq<Value>)
      requires table.rows.Valid() && DistinctWrites(x) && AllOlder(table.rows.lists, x.id)
      modifies table.rows
      ensures table.rows.Valid() && CommitOf(old(table.rows.lists), table.rows.lists, x, vs)
    {
      ghost var before := table.rows.lists;
      Commit(x, vs);
      CollectWrites(x);
      forall k
        ensures ListIn(table.rows.lists, k) == CommittedList(ListIn(before, k), x, vs, k)
      {
        assert x.writeSet[..|x.writeSet|] == x.writeSet;
        assert ListIn(table.rows.lists, k) == table.ListOf(k);
      }
    }

    /**
     Validates one transaction, and runs it again as long as it fails and that is asked
     for. The program stops when it is not ready then.
     */
    method Settle(d: DoccTxn) returns (ok: bool, stops: bool, d': DoccTxn)
      requires |d.versions| == |d.txn.readSet| && KeysExist(table.rows.lists, d.txn) && AllOlder(table.rows.lists, MAX_VERSION)
      ensures d'.txn == d.txn && |d'.versions| == |d.txn.readSet|
      ensures StillNewest(table.rows.lists, d) ==> ok && !stops && d' == d
      ensures !StillNewest(table.rows.lists, d) && !enableValidationRetry ==> !ok && !stops
      ensures !StillNewest(table.rows.lists, d) && enableValidationRetry ==>
                RanOn(table.rows.lists, d') && (stops <==> d'.abortNoRetry) && (ok <==> !stops)
    {
      d', stops := d, false;
      ok := Validate(d);
      if ok || !enableValidationRetry { return; }
      var retryCount := 0;
      while !ok
        invariant 0 <= retryCount <= 1 && (ok <==> retryCount == 1)
        invariant d'.txn == d.txn && |d'.versions| == |d.txn.readSet|
        invariant ok ==> RanOn(table.rows.lists, d') && !d'.abortNoRetry
        decreases 1 - retryCount
      {
        retryCount := retryCount + 1;
        if retryCount > 1000 { d' := d'.(abortNoRetry := true); break; }
        d' := ExecuteOneTransaction(d'.txn);
        if d'.abortNoRetry { stops := true; return; }
        ok := Validate(d');
      }
    }

    /**
     The commit phase. It ends with the batch, or stops at the first transaction that is
     not ready when it is run again. The table is that of running the transactions
     committed so far one by one in the order of the batch.
     */
    method ValidateAndCommitTransactions(ghost batch: seq<Txn>, ghost floor: nat)
      returns (committed: seq<Txn>, stopped: bool, reached: nat)
      requires table.rows.Valid() && AllOlder(table.rows.lists, floor) && ValidDocc(batch, floor) && floor <= MAX_VERSION
      requires AllRanOn(table.rows.lists, batch, transactions)
      modifies table.rows
      ensures reached <= |batch| && NoStopBefore(enableValidationRetry, NewestTable(old(table.rows.lists)), batch, reached)
      ensures if stopped then reached < |batch| && StopsAt(enableValidationRetry, NewestTable(old(table.rows.lists)), batch, reached)
              else reached == |batch|
      ensures table.rows.Valid() && AllOlder(table.rows.lists, BoundAt(batch, floor, reached))
      ensures committed == CommittedOf(enableValidationRetry, NewestTable(old(table.rows.lists)), batch, reached)
      ensures NewestTable(table.rows.lists) == RunSerial(NewestTable(old(table.rows.lists)), committed)
    {
      hide *;
      ghost var before := table.rows.lists;
      ghost var t0 := NewestTable(before);
      committed, stopped, reached := [], false, |transactions|;
      CommitPhaseStarts(enableValidationRetry, before, batch, floor);
      BatchSize(before, batch, transactions);
      for i := 0 to |transactions|
        invariant table.rows.Valid() && |transactions| == |batch| == reached && !stopped
        invariant CommitPhase(enableValidationRetry, before, table.rows.lists, batch, floor, i, committed)
      {
        var d := transactions[i];
        TxnFacts(enableValidationRetry, before, table.rows.lists, batch, floor, i, committed, transactions);
        if d.abortNoRetry {
          SkipKeepsPhase(enableValidationRetry, before, table.rows.lists, batch, floor, i, committed, d);
        } else {
          var ok, stops, d' := Settle(d);
          SettledOutcome(enableValidationRetry, before, table.rows.lists, batch, floor, i, committed, d, d', ok, stops);
          if stops {
            CommitPhaseEnds(enableValidationRetry, before, table.rows.lists, batch, floor, i, committed);
            stopped, reached := true, i;
            return;
          }
          if ok {
            ghost var rows := table.rows.lists;
            CommitAndCollect(d'.txn, d'.values);
            CommitKeepsPhase(enableValidationRetry, before, rows, table.rows.lists, batch, floor, i, committed, d');
            committed := committed + [d'.txn];
          }
        }
      }
      CommitPhaseEnds(enableValidationRetry, before, table.rows.lists, batch, floor, |batch|, committed);
    }
  }

  ghost predicate AllRanOn(rows: Rows, batch: seq<Txn>, ds: seq<DoccTxn>) {
    && |ds| == |batch|
    && forall i :: 0 <= i < |ds| ==> ds[i].txn == batch[i] && RanOn(rows, ds[i]) && KeysExist(rows, batch[i])
  }

  /** The first `n` transactions have been dealt with. */
  ghost predicate CommitPhase(retry: bool, before: Rows, rows: Rows, batch: seq<Txn>, floor: nat, n: nat, c: seq<Txn>) {
    && n <= |batch| && ValidDocc(batch, floor) && AllOlder(before, floor) && floor <= MAX_VERSION
    && Committing(before, rows, floor, BoundAt(batch, floor, n), Members(c))
    && c == CommittedOf(retry, NewestTable(before), batch, n)
    && NewestTable(rows) == RunSerial(NewestTable(before), c)
    && NoStopBefore(retry, NewestTable(before), batch, n)
  }

  lemma CommitPhaseStarts(retry: bool, before: Rows, batch: seq<Txn>, floor: nat)
    requires ValidDocc(batch, floor) && AllOlder(before, floor) && floor <= MAX_VERSION
    ensures CommitPhase(retry, before, before, batch, floor, 0, [])
  {
    CommittingStarts(before, floor, BoundAt(batch, floor, 0));
    assert Members([]) == {};
  }

  lemma BatchSize(rows: Rows, batch: seq<Txn>, ds: seq<DoccTxn>)
    requires AllRanOn(rows, batch, ds)
    ensures |ds| == |batch|
  {}

  lemma CommitPhaseEnds(retry: bool, before: Rows, rows: Rows, batch: seq<Txn>, floor: nat, n: nat, c: seq<Txn>)
    requires CommitPhase(retry, before, rows, batch, floor, n, c)
    ensures n <= |batch| && AllOlder(rows, BoundAt(batch, floor, n)) && NoStopBefore(retry, NewestTable(before), batch, n)
    ensures c == CommittedOf(retry, NewestTable(before), batch, n)
    ensures NewestTable(rows) == RunSerial(NewestTable(before), c)
  {
    forall k ensures Older(ListIn(rows, k), BoundAt(batch, floor, n)) {
      assert CommittingAt(before, rows, floor, BoundAt(batch, floor, n), Members(c), k);
    }
  }

  /** What holds of the next transaction. */
  lemma TxnFacts(retry: bool, before: Rows, rows: Rows, batch: seq<Txn>, floor: nat, n: nat, c: seq<Txn>, ds: seq<DoccTxn>)
    requires CommitPhase(retry, before, rows, batch, floor, n, c) && n < |batch|
    requires AllRanOn(before, batch, ds)
    ensures ds[n].txn == batch[n] && RanOn(before, ds[n]) && KeysExist(before, batch[n]) && KeysExist(rows, batch[n])
    ensures |ds[n].versions| == |ds[n].txn.readSet| && (ds[n].abortNoRetry <==> !ds[n].txn.outcome(ds[n].values).Ready?)
    ensures AllOlder(rows, batch[n].id) && AllOlder(rows, MAX_VERSION) && DistinctWrites(batch[n])
  {
    var bound := BoundAt(batch, floor, n);
    forall k
      ensures Older(ListIn(rows, k), bound)
      ensures ListIn(before, k) != [] ==> ListIn(rows, k) != []
    {
      assert CommittingAt(before, rows, floor, bound, Members(c), k);
    }
  }

  lemma SkipKeepsPhase(retry: bool, before: Rows, rows: Rows, batch: seq<Txn>, floor: nat, n: nat, c: seq<Txn>, d: DoccTxn)
    requires CommitPhase(retry, before, rows, batch, floor, n, c) && n < |batch|
    requires d.txn == batch[n] && RanOn(before, d)
    requires d.abortNoRetry || (!retry && Spoiled(c, batch[n]))
    ensures CommitPhase(retry, before, rows, batch, floor, n + 1, c)
  {
    LaterBound(before, rows, floor, BoundAt(batch, floor, n), BoundAt(batch, floor, n + 1), Members(c));
  }

  /** What the validation, and the second run, decide. */
  lemma SettledOutcome(retry: bool, before: Rows, rows: Rows, batch: seq<Txn>, floor: nat, n: nat, c: seq<Txn>,
                       d: DoccTxn, d': DoccTxn, ok: bool, stops: bool)
    requires CommitPhase(retry, before, rows, batch, floor, n, c) && n < |batch|
    requires d.txn == batch[n] && RanOn(before, d) && KeysExist(before, batch[n]) && !d.abortNoRetry && d'.txn == d.txn
    requires StillNewest(rows, d) ==> ok && !stops && d' == d
    requires !StillNewest(rows, d) && !retry ==> !ok && !stops
    requires !StillNewest(rows, d) && retry ==> RanOn(rows, d') && (stops <==> d'.abortNoRetry) && (ok <==> !stops)
    ensures stops ==> StopsAt(retry, NewestTable(before), batch, n)
    ensures !ok && !stops ==> CommitPhase(retry, before, rows, batch, floor, n + 1, c)
    ensures ok ==> CanCommit(retry, before, rows, batch[n], c, d')
  {
    var bound := BoundAt(batch, floor, n);
    ValidationIsExact(before, rows, floor, bound, c, d);
    hide Spoiled, CommittedOf, RunSerial, ReadValues, Committing;
    if StillNewest(rows, d) {
      CommittedMembers(retry, NewestTable(before), batch, n);
      forall y, k | y in c && batch[n].ReadsIndex(k)
        ensures !y.WritesKey(k)
      {
        assert y in batch;
      }
      ValidReadsAreCurrent(before, rows, floor, bound, c, d);
    } else if !retry {
      SkipKeepsPhase(retry, before, rows, batch, floor, n, c, d);
    }
  }

  ghost predicate CanCommit(retry: bool, before: Rows, rows: Rows, x: Txn, c: seq<Txn>, d: DoccTxn) {
    && d.txn == x && d.values == ReadValues(NewestTable(rows), x) && x.outcome(d.values).Ready?
    && x.outcome(ReadValues(NewestTable(before), x)).Ready? && (retry || !Spoiled(c, x))
  }

  lemma CommitKeepsPhase(retry: bool, before: Rows, rows: Rows, rows': Rows, batch: seq<Txn>, floor: nat, n: nat, c: seq<Txn>,
                         d: DoccTxn)
    requires CommitPhase(retry, before, rows, batch, floor, n, c) && n < |batch|
    requires CanCommit(retry, before, rows, batch[n], c, d) && CommitOf(rows, rows', batch[n], d.values)
    ensures CommitPhase(retry, before, rows', batch, floor, n + 1, c + [batch[n]])
  {
    var x := batch[n];
    CommitKeepsCommitting(before, rows, rows', floor, BoundAt(batch, floor, n + 1), c, x, d.values);
    CommitExecutes(rows, rows', x, d.values);
    assert (c + [x])[..|c|] == c;
  }

  ghost function WrittenList(before: Rows, x: Txn, vs: seq<Value>, i: nat, k: Key): seq<Version<Row>>
    requires i <= |x.writeSet|
  {
    if k in x.writeSet[..i] then [Version(x.id, Row(0, EffectPrefix(x, vs, i)[k]))] + ListIn(before, k) else ListIn(before, k)
  }

  lemma OneMoreWritten(before: Rows, x: Txn, vs: seq<Value>, i: nat)
    requires DistinctWrites(x) && i < |x.writeSet| && AllOlder(before, x.id)
    ensures var key := x.writeSet[i];
            && WrittenList(before, x, vs, i, key) == ListIn(before, key) && Older(ListIn(before, key), x.id)
            && WrittenList(before, x, vs, i + 1, key) == [Version(x.id, Row(0, x.output(vs, i)))] + ListIn(before, key)
            && forall k :: k != key ==> WrittenList(before, x, vs, i + 1, k) == WrittenList(before, x, vs, i, k)
  {
    var key := x.writeSet[i];
    assert x.writeSet[..i + 1] == x.writeSet[..i] + [key];
    assert key !in x.writeSet[..i];
    OneMoreOutput(x, vs, i);
    forall k | k in x.writeSet[..i]
      ensures EffectPrefix(x, vs, i + 1)[k] == EffectPrefix(x, vs, i)[k]
    {
      assert Lookup(EffectPrefix(x, vs, i + 1), k) == Lookup(EffectPrefix(x, vs, i), k);
    }
  }

  lemma NewRowReady(l: seq<Version<Row>>, id: nat, value: Value)
    requires Older(l, id)
    ensures At([Version(id, Row(id, value))] + l, id).Found?
    ensures Replaced([Version(id, Row(id, value))] + l, id, Row(0, value)) == [Version(id, Row(0, value))] + l
  {
    assert forall j :: 0 <= j < |l| ==> l[j] in l;
  }
}
