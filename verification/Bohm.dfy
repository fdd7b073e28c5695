/**
 Bohm: before a batch runs, a placeholder is put into the version list of every key
 that any of its transactions writes. Then the workers run the transactions in any
 interleaving; a reader waits until the placeholder it finds has been filled in.

 The outcome is that of running the batch one by one in the order of its ids.
 */
module Bohm {
  import opened Transactions
  import opened PlannedBatch
  import opened Strides
  import opened MvccHashMap
  import opened MvccTable

  /** Ids grow along the batch. */
  ghost predicate ValidBatch(batch: seq<Planned>) {
    && Determined(batch)
    && (forall i :: 0 <= i < |batch| ==> 0 < batch[i].txn.id)
    && (forall i, j :: 0 <= i < j < |batch| ==> batch[i].txn.id < batch[j].txn.id)
  }

  // ------------------------------------------------------------------
  // The version lists while a batch runs
  // ------------------------------------------------------------------

  /** The row of transaction `j` on a key it writes: a placeholder until the write is made. */
  function RowOf(t0: Table, batch: seq<Planned>, done: seq<nat>, k: Key, j: nat): Row
    requires j < |batch| && Sized(batch, done)
  {
    if k in batch[j].txn.writeSet[..done[j]] then Row(0, Lookup(Serial(t0, batch, j + 1), k))
    else Row(batch[j].txn.id, DEFAULT_VALUE)
  }

  /** `done[i]` writes of transaction `i` have been made. */
  ghost predicate Sized(batch: seq<Planned>, done: seq<nat>) {
    |done| == |batch| && forall i :: 0 <= i < |done| ==> done[i] <= |batch[i].txn.writeSet|
  }

  /** The list of a key with the rows of the first `n` transactions in front of what was there. */
  ghost function Lined(l: seq<Version<Row>>, t0: Table, batch: seq<Planned>, done: seq<nat>, k: Key, n: nat): seq<Version<Row>>
    requires n <= |batch| && Sized(batch, done)
  {
    if n == 0 then l
    else if Writes(batch, n - 1, k) then
      [Version(batch[n - 1].txn.id, RowOf(t0, batch, done, k, n - 1))] + Lined(l, t0, batch, done, k, n - 1)
    else Lined(l, t0, batch, done, k, n - 1)
  }

  lemma NewHeadDescends(l: seq<Version<Row>>, e: Version<Row>, bound: nat)
    requires Descending(l) && Older(l, e.version) && e.version < bound
    ensures Descending([e] + l) && Older([e] + l, bound)
  {
    assert forall i :: 0 <= i < |l| ==> l[i] in l;
  }

  lemma {:induction false} LinedDescends(l: seq<Version<Row>>, t0: Table, batch: seq<Planned>, done: seq<nat>,
                                         k: Key, n: nat, bound: nat)
    requires ValidBatch(batch) && n <= |batch| && Sized(batch, done) && Descending(l)
    requires batch != [] ==> SettledList(l, batch[0].txn.id)
    requires n > 0 ==> batch[n - 1].txn.id < bound
    requires n == 0 ==> SettledList(l, bound)
    ensures Descending(Lined(l, t0, batch, done, k, n)) && Older(Lined(l, t0, batch, done, k, n), bound)
    decreases n
  {
    hide Descending, RowOf;
    if n > 0 {
      LinedDescends(l, t0, batch, done, k, n - 1, batch[n - 1].txn.id);
      NewHeadDescends(Lined(l, t0, batch, done, k, n - 1),
                      Version(batch[n - 1].txn.id, RowOf(t0, batch, done, k, n - 1)), bound);
    }
  }

  /** One more than the last writer of the key below `i`; 0 when there is none. */
  function LastWriter(batch: seq<Planned>, k: Key, i: nat): (w: nat)
    requires i <= |batch|
    ensures w <= i && (w > 0 ==> Writes(batch, w - 1, k))
    ensures forall j :: w <= j < i ==> !Writes(batch, j, k)
  {
    if i == 0 then 0 else if Writes(batch, i - 1, k) then i else LastWriter(batch, k, i - 1)
  }

  /** The version reader `i` has to find. */
  ghost function Source(l: seq<Version<Row>>, t0: Table, batch: seq<Planned>, done: seq<nat>, k: Key, i: nat): Found<Row>
    requires i <= |batch| && Sized(batch, done)
  {
    var w := LastWriter(batch, k, i);
    if w > 0 then Found(batch[w - 1].txn.id, RowOf(t0, batch, done, k, w - 1))
    else if l == [] then Missing
    else Found(l[0].version, l[0].value)
  }

  lemma {:induction false} LinedHead(l: seq<Version<Row>>, t0: Table, batch: seq<Planned>, done: seq<nat>,
                                     k: Key, i: nat, bound: nat)
    requires i <= |batch| && Sized(batch, done) && Older(Lined(l, t0, batch, done, k, i), bound)
    ensures Prev(Lined(l, t0, batch, done, k, i), bound) == Source(l, t0, batch, done, k, i)
    decreases i
  {
    hide RowOf;
    var list := Lined(l, t0, batch, done, k, i);
    if list != [] { assert list[0] in list; }
    if i > 0 && !Writes(batch, i - 1, k) { LinedHead(l, t0, batch, done, k, i - 1, bound); }
  }

  /** Reader `i` finds the last writer before it: all later rows are past its bound. */
  lemma {:induction false} ReaderFinds(l: seq<Version<Row>>, t0: Table, batch: seq<Planned>, done: seq<nat>,
                                       k: Key, i: nat, n: nat)
    requires ValidBatch(batch) && i < n <= |batch| && Sized(batch, done)
    requires Descending(l) && SettledList(l, batch[0].txn.id)
    ensures Prev(Lined(l, t0, batch, done, k, n), batch[i].txn.id) == Source(l, t0, batch, done, k, i)
    decreases n
  {
    hide RowOf;
    var bound := batch[i].txn.id;
    if n == i + 1 {
      if i == 0 { assert SettledList(l, bound); }
      LinedDescends(l, t0, batch, done, k, i, bound);
      LinedHead(l, t0, batch, done, k, i, bound);
    } else {
      ReaderFinds(l, t0, batch, done, k, i, n - 1);
    }
    if Writes(batch, n - 1, k) {
      assert batch[n - 1].txn.id >= bound;
      assert Lined(l, t0, batch, done, k, n)[1..] == Lined(l, t0, batch, done, k, n - 1);
    }
  }

  /** What reader `i` finds, once it is ready, is the value of the serial run. */
  lemma SourceIsSerial(l: seq<Version<Row>>, t0: Table, batch: seq<Planned>, done: seq<nat>, k: Key, i: nat)
    requires ValidBatch(batch) && i <= |batch| && Sized(batch, done)
    requires l != [] ==> k in t0 && t0[k] == l[0].value.value
    requires Source(l, t0, batch, done, k, i).Found? && Source(l, t0, batch, done, k, i).value.Ready()
    ensures Source(l, t0, batch, done, k, i).value.value == Lookup(Serial(t0, batch, i), k)
  {
    var w := LastWriter(batch, k, i);
    SerialBetween(t0, batch, k, w, i);
    if w == 0 { assert Serial(t0, batch, 0) == t0; }
  }

  /** The number of writes after one more of transaction `i`. */
  ghost predicate OneMore(batch: seq<Planned>, done: seq<nat>, done': seq<nat>, i: nat, k: Key) {
    && Sized(batch, done) && i < |batch| && done[i] < |batch[i].txn.writeSet|
    && k == batch[i].txn.writeSet[done[i]] && done' == done[i := done[i] + 1]
  }

  lemma StillSized(batch: seq<Planned>, done: seq<nat>, done': seq<nat>, i: nat, k: Key)
    requires OneMore(batch, done, done', i, k)
    ensures Sized(batch, done') && Sized(batch, done) && i < |batch|
  {}

  /** Its write on `k` turns its placeholder into the value. */
  lemma {:induction false} WriteFills(l: seq<Version<Row>>, t0: Table, batch: seq<Planned>, done: seq<nat>, done': seq<nat>,
                                      i: nat, k: Key, n: nat)
    requires ValidBatch(batch) && OneMore(batch, done, done', i, k) && n <= |batch| && SettledList(l, batch[0].txn.id)
    ensures Sized(batch, done') && Lined(l, t0, batch, done', k, n) ==
            Replaced(Lined(l, t0, batch, done, k, n), batch[i].txn.id, Row(0, Lookup(Serial(t0, batch, i + 1), k)))
    decreases n
  {
    hide *;
    StillSized(batch, done, done', i, k);
    IdsTell(batch, i, i);
    if n == 0 {
      NothingReplaced(l, batch[i].txn.id, Row(0, Lookup(Serial(t0, batch, i + 1), k)), batch[0].txn.id);
      LinedNone(l, t0, batch, done, k);
      LinedNone(l, t0, batch, done', k);
    } else {
      WriteFills(l, t0, batch, done, done', i, k, n - 1);
      FillsOne(l, t0, batch, done, done', i, k, n - 1);
    }
  }

  lemma FillsOne(l: seq<Version<Row>>, t0: Table, batch: seq<Planned>, done: seq<nat>, done': seq<nat>, i: nat, k: Key, j: nat)
    requires ValidBatch(batch) && OneMore(batch, done, done', i, k) && j < |batch| && Sized(batch, done')
    requires Lined(l, t0, batch, done', k, j) ==
             Replaced(Lined(l, t0, batch, done, k, j), batch[i].txn.id, Row(0, Lookup(Serial(t0, batch, i + 1), k)))
    ensures Lined(l, t0, batch, done', k, j + 1) ==
            Replaced(Lined(l, t0, batch, done, k, j + 1), batch[i].txn.id, Row(0, Lookup(Serial(t0, batch, i + 1), k)))
  {
    StillSized(batch, done, done', i, k);
    RowsAfterWrite(t0, batch, done, i, k, j);
    hide *;
    IdsTell(batch, i, j);
    LinedStep(l, t0, batch, done, k, j + 1);
    LinedStep(l, t0, batch, done', k, j + 1);
    ReplacedHead(Version(batch[j].txn.id, RowOf(t0, batch, done, k, j)), Lined(l, t0, batch, done, k, j),
                 batch[i].txn.id, Row(0, Lookup(Serial(t0, batch, i + 1), k)));
  }

  lemma IdsTell(batch: seq<Planned>, i: nat, j: nat)
    requires ValidBatch(batch) && i < |batch| && j < |batch|
    ensures batch[i].txn.id == batch[j].txn.id <==> i == j
    ensures batch[0].txn.id <= batch[i].txn.id
  {}

  lemma LinedNone(l: seq<Version<Row>>, t0: Table, batch: seq<Planned>, done: seq<nat>, k: Key)
    requires Sized(batch, done)
    ensures Lined(l, t0, batch, done, k, 0) == l
  {}

  lemma NothingReplaced(l: seq<Version<Row>>, id: nat, row: Row, bound: nat)
    requires SettledList(l, bound) && bound <= id
    ensures Replaced(l, id, row) == l
  {
    assert forall j :: 0 <= j < |l| ==> l[j] in l && l[j].version < id;
  }

  lemma LinedStep(l: seq<Version<Row>>, t0: Table, batch: seq<Planned>, done: seq<nat>, k: Key, n: nat)
    requires 0 < n <= |batch| && Sized(batch, done)
    ensures Lined(l, t0, batch, done, k, n) ==
            if Writes(batch, n - 1, k) then
              [Version(batch[n - 1].txn.id, RowOf(t0, batch, done, k, n - 1))] + Lined(l, t0, batch, done, k, n - 1)
            else Lined(l, t0, batch, done, k, n - 1)
  {}

  lemma ReplacedHead(e: Version<Row>, l: seq<Version<Row>>, version: nat, row: Row)
    ensures Replaced([e] + l, version, row) ==
            [if e.version == version then Version(version, row) else e] + Replaced(l, version, row)
  {
    assert ([e] + l)[1..] == l;
  }

  lemma RowsAfterWrite(t0: Table, batch: seq<Planned>, done: seq<nat>, i: nat, k: Key, j: nat)
    requires i < |batch| && j < |batch| && Sized(batch, done)
    requires done[i] < |batch[i].txn.writeSet|
    ensures var done' := done[i := done[i] + 1];
            && Sized(batch, done')
            && RowOf(t0, batch, done', k, j) ==
               if j == i && k == batch[i].txn.writeSet[done[i]] then Row(0, Lookup(Serial(t0, batch, i + 1), k))
               else RowOf(t0, batch, done, k, j)
  {
    hide Serial, Lookup;
    var x, q := batch[i].txn, done[i];
    assert x.writeSet[..q + 1] == x.writeSet[..q] + [x.writeSet[q]];
  }

  /** And leaves all other keys alone. */
  lemma {:induction false} WriteElsewhere(l: seq<Version<Row>>, t0: Table, batch: seq<Planned>, done: seq<nat>, i: nat, k: Key, n: nat)
    requires i < |batch| && n <= |batch| && Sized(batch, done)
    requires done[i] < |batch[i].txn.writeSet| && k != batch[i].txn.writeSet[done[i]]
    ensures var done' := done[i := done[i] + 1];
            Sized(batch, done') && Lined(l, t0, batch, done', k, n) == Lined(l, t0, batch, done, k, n)
    decreases n
  {
    hide RowOf;
    if n > 0 {
      WriteElsewhere(l, t0, batch, done, i, k, n - 1);
      RowsAfterWrite(t0, batch, done, i, k, n - 1);
    } else {
      RowsAfterWrite(t0, batch, done, i, k, i);
    }
  }

  // ------------------------------------------------------------------
  // The workers
  // ------------------------------------------------------------------

  datatype Read = Pending | Got(value: Value)

  /** How far a transaction has come: its reads, and the number of writes it has made. */
  datatype Progress = Progress(got: seq<Read>, done: nat)

  datatype State = State(rows: Rows, work: seq<Progress>)

  /** What does not change while a batch runs: `width` workers, the rows before it, and a bound on their versions. */
  datatype Setting = Setting(batch: seq<Planned>, width: nat, before: Rows, floor: nat)
  {
    function Initial(): Table { NewestTable(before) }

    ghost predicate Valid() {
      && width > 0 && ValidBatch(batch)
      && Settled(before, if batch == [] then floor else batch[0].txn.id)
      && forall i, k :: 0 <= i < |batch| && !batch[i].skipped && ReadsKey(batch[i].txn, k) ==> ListIn(before, k) != []
    }
  }

  predicate ReadsKey(x: Txn, k: Key) {
    exists p :: 0 <= p < |x.readSet| && x.readSet[p].key == k
  }

  ghost predicate Shaped(c: Setting, s: State) {
    && |s.work| == |c.batch|
    && forall i :: 0 <= i < |c.batch| ==>
         |s.work[i].got| == |c.batch[i].txn.readSet| && s.work[i].done <= |c.batch[i].txn.writeSet|
  }

  function Dones(work: seq<Progress>): (d: seq<nat>)
    ensures |d| == |work| && forall i :: 0 <= i < |d| ==> d[i] == work[i].done
  {
    seq(|work|, i requires 0 <= i < |work| => work[i].done)
  }

  predicate AllRead(w: Progress) {
    forall p :: 0 <= p < |w.got| ==> w.got[p].Got?
  }

  function Values(w: Progress): (vs: seq<Value>)
    requires AllRead(w)
    ensures |vs| == |w.got| && forall p :: 0 <= p < |vs| ==> vs[p] == w.got[p].value
  {
    seq(|w.got|, p requires 0 <= p < |w.got| => w.got[p].value)
  }

  predicate Finished(c: Setting, s: State, i: nat)
    requires i < |c.batch| && i < |s.work|
  {
    c.batch[i].skipped || (AllRead(s.work[i]) && s.work[i].done == |c.batch[i].txn.writeSet|)
  }

  /** A worker turns to a transaction when it has finished all its earlier ones. */
  ghost predicate InTurn(c: Setting, s: State, i: nat)
    requires i < |c.batch| && |s.work| == |c.batch| && c.width > 0
  {
    && !c.batch[i].skipped && !Finished(c, s, i)
    && forall j :: 0 <= j < i && WorkerOf(j, c.width) == WorkerOf(i, c.width) ==> Finished(c, s, j)
  }

  /** What the read of position `p` finds. */
  function Sought(c: Setting, s: State, i: nat, p: nat): Found<Row>
    requires i < |c.batch| && p < |c.batch[i].txn.readSet|
  {
    Prev(ListIn(s.rows, c.batch[i].txn.readSet[p].key), c.batch[i].txn.id)
  }

  /** One read that finds its row ready. */
  ghost predicate ReadStep(c: Setting, s: State, s': State, i: nat, p: nat)
    requires c.Valid() && Shaped(c, s)
  {
    && i < |c.batch| && InTurn(c, s, i) && p < |s.work[i].got| && s.work[i].got[p].Pending?
    && Sought(c, s, i, p).Found? && Sought(c, s, i, p).value.Ready()
    && s' == s.(work := s.work[i := s.work[i].(got := s.work[i].got[p := Got(Sought(c, s, i, p).value.value)])])
  }

  /** One read that finds a placeholder: the transaction starts over. */
  ghost predicate RetryStep(c: Setting, s: State, s': State, i: nat, p: nat)
    requires c.Valid() && Shaped(c, s)
  {
    && i < |c.batch| && InTurn(c, s, i) && p < |s.work[i].got| && s.work[i].got[p].Pending?
    && Sought(c, s, i, p).Found? && !Sought(c, s, i, p).value.Ready()
    && s' == s.(work := s.work[i := s.work[i].(got := seq(|s.work[i].got|, _ => Pending))])
  }

  /** One write of the commit: the value goes in and the placeholder becomes ready. */
  ghost predicate WriteStep(c: Setting, s: State, s': State, i: nat)
    requires c.Valid() && Shaped(c, s)
  {
    && i < |c.batch| && InTurn(c, s, i) && AllRead(s.work[i]) && s.work[i].done < |c.batch[i].txn.writeSet|
    && var x, q := c.batch[i].txn, s.work[i].done;
       s' == State(s.rows[x.writeSet[q] := Replaced(ListIn(s.rows, x.writeSet[q]), x.id, Row(0, x.output(Values(s.work[i]), q)))],
                   s.work[i := s.work[i].(done := q + 1)])
  }

  ghost predicate Step(c: Setting, s: State, s': State, i: nat)
    requires c.Valid() && Shaped(c, s)
  {
    || (exists p: nat :: ReadStep(c, s, s', i, p))
    || (exists p: nat :: RetryStep(c, s, s', i, p))
    || WriteStep(c, s, s', i)
  }

  // ------------------------------------------------------------------
  // The invariant
  // ------------------------------------------------------------------

  ghost predicate LinesAre(before: Rows, t0: Table, batch: seq<Planned>, done: seq<nat>, rows: Rows)
    requires Sized(batch, done)
  {
    forall k :: ListIn(rows, k) == Lined(ListIn(before, k), t0, batch, done, k, |batch|)
  }

  ghost predicate LinesRight(c: Setting, s: State)
    requires Sized(c.batch, Dones(s.work))
  {
    LinesAre(c.before, c.Initial(), c.batch, Dones(s.work), s.rows)
  }

  /** What was read is what the serial run reads, and writing starts when all is read. */
  ghost predicate ReadsRight(c: Setting, s: State, i: nat)
    requires Shaped(c, s) && i < |c.batch|
  {
    && (s.work[i].done > 0 ==> AllRead(s.work[i]))
    && forall p :: 0 <= p < |s.work[i].got| && s.work[i].got[p].Got? ==>
         s.work[i].got[p].value == PlannedReads(c.Initial(), c.batch, i)[p]
  }

  ghost predicate Inv(c: Setting, s: State)
    requires c.Valid()
  {
    && Shaped(c, s) && Sized(c.batch, Dones(s.work)) && LinesRight(c, s)
    && forall i :: 0 <= i < |c.batch| ==> ReadsRight(c, s, i)
  }

  /** What a read finds, stated on the batch. */
  lemma SoughtIsSource(c: Setting, s: State, i: nat, p: nat)
    requires c.Valid() && Inv(c, s) && i < |c.batch| && p < |c.batch[i].txn.readSet|
    ensures var k := c.batch[i].txn.readSet[p].key;
            Sought(c, s, i, p) == Source(ListIn(c.before, k), c.Initial(), c.batch, Dones(s.work), k, i)
  {
    var k := c.batch[i].txn.readSet[p].key;
    ReaderFinds(ListIn(c.before, k), c.Initial(), c.batch, Dones(s.work), k, i, |c.batch|);
  }

  lemma ReadStepKeepsInv(c: Setting, s: State, s': State, i: nat, p: nat)
    requires c.Valid() && Inv(c, s) && ReadStep(c, s, s', i, p)
    ensures Inv(c, s')
  {
    var k := c.batch[i].txn.readSet[p].key;
    SoughtIsSource(c, s, i, p);
    SourceIsSerial(ListIn(c.before, k), c.Initial(), c.batch, Dones(s.work), k, i);
    assert Dones(s'.work) == Dones(s.work);
    assert ReadsRight(c, s, i) && !AllRead(s.work[i]);
    hide Source, Serial, RowOf, Sought, InTurn;
    forall j | 0 <= j < |c.batch|
      ensures ReadsRight(c, s', j)
    {
      assert ReadsRight(c, s, j);
    }
  }

  lemma RetryStepKeepsInv(c: Setting, s: State, s': State, i: nat, p: nat)
    requires c.Valid() && Inv(c, s) && RetryStep(c, s, s', i, p)
    ensures Inv(c, s')
  {
    assert Dones(s'.work) == Dones(s.work);
    assert ReadsRight(c, s, i);
    forall j | 0 <= j < |c.batch|
      ensures ReadsRight(c, s', j)
    {
      assert ReadsRight(c, s, j);
    }
  }

  lemma WrittenValue(c: Setting, s: State, i: nat)
    requires c.Valid() && Inv(c, s) && i < |c.batch| && InTurn(c, s, i) && AllRead(s.work[i])
    requires s.work[i].done < |c.batch[i].txn.writeSet|
    ensures var x, q := c.batch[i].txn, s.work[i].done;
            x.output(Values(s.work[i]), q) == Lookup(Serial(c.Initial(), c.batch, i + 1), x.writeSet[q])
  {
    assert ReadsRight(c, s, i);
    assert Values(s.work[i]) == PlannedReads(c.Initial(), c.batch, i);
    SerialKey(c.Initial(), c.batch, i, c.batch[i].txn.writeSet[s.work[i].done]);
  }

  lemma LinesAfterWrite(before: Rows, t0: Table, batch: seq<Planned>, done: seq<nat>, done': seq<nat>, i: nat, k: Key, rows: Rows)
    requires ValidBatch(batch) && OneMore(batch, done, done', i, k) && Settled(before, batch[0].txn.id)
    requires Sized(batch, done) && LinesAre(before, t0, batch, done, rows)
    ensures Sized(batch, done')
    ensures LinesAre(before, t0, batch, done',
                     rows[k := Replaced(ListIn(rows, k), batch[i].txn.id, Row(0, Lookup(Serial(t0, batch, i + 1), k)))])
  {
    StillSized(batch, done, done', i, k);
    hide Lined, Serial, ValidBatch, Sized, Lookup, Descending;
    forall k' | k' != k
      ensures Lined(ListIn(before, k'), t0, batch, done', k', |batch|) == Lined(ListIn(before, k'), t0, batch, done, k', |batch|)
    {
      WriteElsewhere(ListIn(before, k'), t0, batch, done, i, k', |batch|);
    }
    WriteFills(ListIn(before, k), t0, batch, done, done', i, k, |batch|);
  }

  lemma WriteStepIs(c: Setting, s: State, s': State, i: nat)
    requires c.Valid() && Inv(c, s) && WriteStep(c, s, s', i)
    ensures i < |c.batch| && Shaped(c, s) && Sized(c.batch, Dones(s.work)) && InTurn(c, s, i)
    ensures AllRead(s.work[i]) && s.work[i].done < |c.batch[i].txn.writeSet|
    ensures var x, q := c.batch[i].txn, s.work[i].done;
            s' == State(s.rows[x.writeSet[q] := Replaced(ListIn(s.rows, x.writeSet[q]), x.id, Row(0, x.output(Values(s.work[i]), q)))],
                        s.work[i := s.work[i].(done := q + 1)])
  {
    hide InTurn, ReadsRight, LinesRight, Serial, Settled, ValidBatch, Sized, ReadsKey, ListIn, Replaced;
  }

  lemma DonesAfter(work: seq<Progress>, i: nat, q: nat)
    requires i < |work|
    ensures Dones(work[i := work[i].(done := q)]) == Dones(work)[i := q]
  {}

  lemma WriteStepFacts(c: Setting, s: State, s': State, i: nat)
    requires c.Valid() && Inv(c, s) && WriteStep(c, s, s', i)
    ensures var x, q := c.batch[i].txn, s.work[i].done;
            && OneMore(c.batch, Dones(s.work), Dones(s'.work), i, x.writeSet[q])
            && s'.rows == s.rows[x.writeSet[q] := Replaced(ListIn(s.rows, x.writeSet[q]), x.id,
                                                           Row(0, Lookup(Serial(c.Initial(), c.batch, i + 1), x.writeSet[q])))]
  {
    WriteStepIs(c, s, s', i);
    hide *;
    WrittenValue(c, s, i);
    DonesAfter(s.work, i, s.work[i].done + 1);
    OneMoreIs(c.batch, Dones(s.work), i);
  }

  lemma OneMoreIs(batch: seq<Planned>, done: seq<nat>, i: nat)
    requires Sized(batch, done) && i < |batch| && done[i] < |batch[i].txn.writeSet|
    ensures OneMore(batch, done, done[i := done[i] + 1], i, batch[i].txn.writeSet[done[i]])
  {}

  lemma SettingGives(c: Setting, s: State)
    requires c.Valid() && Inv(c, s)
    ensures ValidBatch(c.batch) && (c.batch != [] ==> Settled(c.before, c.batch[0].txn.id))
    ensures Sized(c.batch, Dones(s.work)) && LinesAre(c.before, c.Initial(), c.batch, Dones(s.work), s.rows)
  {}

  lemma WriteStepLines(c: Setting, s: State, s': State, i: nat)
    requires c.Valid() && Inv(c, s) && WriteStep(c, s, s', i)
    ensures Sized(c.batch, Dones(s'.work)) && LinesAre(c.before, c.Initial(), c.batch, Dones(s'.work), s'.rows)
  {
    assert i < |c.batch| && s.work[i].done < |c.batch[i].txn.writeSet|;
    WriteStepFacts(c, s, s', i);
    SettingGives(c, s);
    hide *;
    LinesAfterWrite(c.before, c.Initial(), c.batch, Dones(s.work), Dones(s'.work), i,
                    c.batch[i].txn.writeSet[s.work[i].done], s.rows);
  }

  lemma WriteStepKeepsInv(c: Setting, s: State, s': State, i: nat)
    requires c.Valid() && Inv(c, s) && WriteStep(c, s, s', i)
    ensures Inv(c, s')
  {
    WriteStepLines(c, s, s', i);
    hide LinesRight, Sized, InTurn, Values, PlannedReads;
    forall j | 0 <= j < |c.batch|
      ensures ReadsRight(c, s', j)
    {
      assert ReadsRight(c, s, j);
    }
  }

  lemma StepKeepsInv(c: Setting, s: State, s': State, i: nat)
    requires c.Valid() && Inv(c, s) && Step(c, s, s', i)
    ensures Inv(c, s')
  {
    if WriteStep(c, s, s', i) {
      WriteStepKeepsInv(c, s, s', i);
    } else if p: nat :| ReadStep(c, s, s', i, p) {
      ReadStepKeepsInv(c, s, s', i, p);
    } else {
      var p: nat :| RetryStep(c, s, s', i, p);
      RetryStepKeepsInv(c, s, s', i, p);
    }
  }

  // ------------------------------------------------------------------
  // The placeholders, before
  // ------------------------------------------------------------------

  /** The list of a key with the placeholders of the first `n` transactions. */
  function Inserted(l: seq<Version<Row>>, batch: seq<Planned>, k: Key, n: nat): seq<Version<Row>>
    requires n <= |batch|
  {
    if n == 0 then l
    else if Writes(batch, n - 1, k) then
      [Version(batch[n - 1].txn.id, Row(batch[n - 1].txn.id, DEFAULT_VALUE))] + Inserted(l, batch, k, n - 1)
    else Inserted(l, batch, k, n - 1)
  }

  lemma {:induction false} InsertedIsLined(l: seq<Version<Row>>, t0: Table, batch: seq<Planned>, done: seq<nat>, k: Key, n: nat)
    requires n <= |batch| && Sized(batch, done) && forall i :: 0 <= i < |done| ==> done[i] == 0
    ensures Inserted(l, batch, k, n) == Lined(l, t0, batch, done, k, n)
    decreases n
  {
    if n > 0 { InsertedIsLined(l, t0, batch, done, k, n - 1); }
  }

  ghost predicate Init(c: Setting, s: State)
    requires c.Valid()
  {
    && Shaped(c, s)
    && (forall i :: 0 <= i < |s.work| ==> s.work[i] == Progress(seq(|c.batch[i].txn.readSet|, _ => Pending), 0))
    && forall k :: ListIn(s.rows, k) == Inserted(ListIn(c.before, k), c.batch, k, |c.batch|)
  }

  lemma InitHasInv(c: Setting, s: State)
    requires c.Valid() && Init(c, s)
    ensures Inv(c, s)
  {
    forall k
      ensures ListIn(s.rows, k) == Lined(ListIn(c.before, k), c.Initial(), c.batch, Dones(s.work), k, |c.batch|)
    {
      InsertedIsLined(ListIn(c.before, k), c.Initial(), c.batch, Dones(s.work), k, |c.batch|);
    }
  }

  ghost predicate SomeStep(c: Setting, s: State, s': State)
    requires c.Valid() && Shaped(c, s)
  {
    exists i: nat :: Step(c, s, s', i)
  }

  /** The states of a batch from the placeholders on, under any interleaving of the workers. */
  ghost predicate Run(c: Setting, run: seq<State>)
    requires c.Valid()
  {
    && |run| > 0 && Init(c, run[0])
    && forall n :: 0 <= n < |run| - 1 ==> Shaped(c, run[n]) && SomeStep(c, run[n], run[n + 1])
  }

  lemma {:induction false} RunKeepsInv(c: Setting, run: seq<State>, n: nat)
    requires c.Valid() && Run(c, run) && n < |run|
    ensures Inv(c, run[n])
    decreases n
  {
    if n == 0 {
      InitHasInv(c, run[0]);
    } else {
      RunKeepsInv(c, run, n - 1);
      assert SomeStep(c, run[n - 1], run[n - 1 + 1]);
      var i: nat :| Step(c, run[n - 1], run[n], i);
      StepKeepsInv(c, run[n - 1], run[n], i);
    }
  }

  /** Whenever a read finds its row ready, it finds the value of the serial run. */
  lemma EveryReadIsSerial(c: Setting, run: seq<State>, n: nat, i: nat, p: nat)
    requires c.Valid() && Run(c, run) && n < |run|
    requires i < |c.batch| && p < |c.batch[i].txn.readSet|
    requires Sought(c, run[n], i, p).Found? && Sought(c, run[n], i, p).value.Ready()
    ensures Sought(c, run[n], i, p).value.value == PlannedReads(c.Initial(), c.batch, i)[p]
  {
    RunKeepsInv(c, run, n);
    var k := c.batch[i].txn.readSet[p].key;
    SoughtIsSource(c, run[n], i, p);
    SourceIsSerial(ListIn(c.before, k), c.Initial(), c.batch, Dones(run[n].work), k, i);
  }

  // ------------------------------------------------------------------
  // The end of a batch
  // ------------------------------------------------------------------

  ghost predicate Over(c: Setting, s: State)
    requires Shaped(c, s)
  {
    forall i :: 0 <= i < |c.batch| ==> Finished(c, s, i)
  }

  lemma ExecuteDomain(t: Table, x: Txn, skipped: bool, k: Key)
    requires forall vs :: x.outcome(vs) == if skipped then AbortNoRetry else Ready
    ensures k in Execute(t, x) <==> k in t || (!skipped && x.WritesKey(k))
  {
    assert x.outcome(ReadValues(t, x)) == if skipped then AbortNoRetry else Ready;
  }

  lemma LastWriterStep(batch: seq<Planned>, k: Key, i: nat)
    requires i <= |batch|
    ensures i == 0 ==> LastWriter(batch, k, i) == 0
    ensures i > 0 ==>
              (LastWriter(batch, k, i) > 0 <==> LastWriter(batch, k, i - 1) > 0 || (!batch[i - 1].skipped && batch[i - 1].txn.WritesKey(k)))
  {}

  lemma OutcomesAre(batch: seq<Planned>, i: nat)
    requires ValidBatch(batch) && i < |batch|
    ensures forall vs :: batch[i].txn.outcome(vs) == if batch[i].skipped then AbortNoRetry else Ready
  {}

  lemma SerialNone(t0: Table, batch: seq<Planned>)
    ensures Serial(t0, batch, 0) == t0
  {}

  lemma {:induction false} SerialDomain(t0: Table, batch: seq<Planned>, k: Key, i: nat)
    requires ValidBatch(batch) && i <= |batch|
    ensures k in Serial(t0, batch, i) <==> k in t0 || LastWriter(batch, k, i) > 0
    decreases i
  {
    hide *;
    SerialNone(t0, batch);
    LastWriterStep(batch, k, i);
    if i > 0 {
      SerialDomain(t0, batch, k, i - 1);
      SerialStep(t0, batch, i - 1);
      OutcomesAre(batch, i - 1);
      ExecuteDomain(Serial(t0, batch, i - 1), batch[i - 1].txn, batch[i - 1].skipped, k);
    }
  }

  ghost predicate AllDone(batch: seq<Planned>, done: seq<nat>)
    requires Sized(batch, done)
  {
    forall i :: 0 <= i < |batch| && !batch[i].skipped ==> done[i] == |batch[i].txn.writeSet|
  }

  /** With all writes made, what anybody past the batch finds is ready. */
  lemma FinalSource(l: seq<Version<Row>>, t0: Table, batch: seq<Planned>, done: seq<nat>, k: Key)
    requires ValidBatch(batch) && Sized(batch, done) && AllDone(batch, done)
    requires forall e :: e in l ==> e.value.Ready()
    ensures Source(l, t0, batch, done, k, |batch|).Found? ==> Source(l, t0, batch, done, k, |batch|).value.Ready()
    ensures Source(l, t0, batch, done, k, |batch|).Found? <==> l != [] || LastWriter(batch, k, |batch|) > 0
  {
    var w := LastWriter(batch, k, |batch|);
    if w > 0 {
      assert batch[w - 1].txn.writeSet[..done[w - 1]] == batch[w - 1].txn.writeSet;
    } else if l != [] {
      assert l[0] in l;
    }
  }

  lemma OverIsAllDone(c: Setting, s: State)
    requires c.Valid() && Shaped(c, s) && Sized(c.batch, Dones(s.work)) && Over(c, s)
    ensures AllDone(c.batch, Dones(s.work))
  {
    forall i | 0 <= i < |c.batch| && !c.batch[i].skipped
      ensures Dones(s.work)[i] == |c.batch[i].txn.writeSet|
    {
      assert Finished(c, s, i);
    }
  }

  /** The list of a key at the end, seen from past the batch. */
  lemma FinalList(l: seq<Version<Row>>, t0: Table, batch: seq<Planned>, done: seq<nat>, k: Key)
    requires ValidBatch(batch) && Sized(batch, done) && AllDone(batch, done) && batch != []
    requires Descending(l) && SettledList(l, batch[0].txn.id)
    ensures Descending(Lined(l, t0, batch, done, k, |batch|))
    ensures Older(Lined(l, t0, batch, done, k, |batch|), batch[|batch| - 1].txn.id + 1)
    ensures Lined(l, t0, batch, done, k, |batch|) == [] <==> Source(l, t0, batch, done, k, |batch|).Missing?
    ensures Lined(l, t0, batch, done, k, |batch|) != [] ==>
              var head := Lined(l, t0, batch, done, k, |batch|)[0];
              Source(l, t0, batch, done, k, |batch|) == Found(head.version, head.value)
  {
    var n := |batch|;
    var bound := batch[n - 1].txn.id + 1;
    LinedDescends(l, t0, batch, done, k, n, bound);
    hide Lined, Source, ValidBatch, SettledList, Descending, AllDone, Sized;
    LinedHead(l, t0, batch, done, k, n, bound);
    HeadIsPrev(Lined(l, t0, batch, done, k, n), bound);
  }

  /** The head of a key's list at the end has the value of the serial run. */
  lemma FinalHead(c: Setting, s: State, k: Key)
    requires c.Valid() && Inv(c, s) && Over(c, s)
    ensures var l, t := ListIn(s.rows, k), Serial(c.Initial(), c.batch, |c.batch|);
            && (l != [] <==> k in t)
            && (l != [] ==> l[0].value.Ready() && l[0].value.value == t[k])
  {
    var n, before, t0, done := |c.batch|, ListIn(c.before, k), c.Initial(), Dones(s.work);
    OverIsAllDone(c, s);
    SerialDomain(t0, c.batch, k, n);
    assert before != [] <==> k in t0;
    if n > 0 {
      FinalList(before, t0, c.batch, done, k);
    } else {
      LinedNone(before, t0, c.batch, done, k);
    }
    if ListIn(s.rows, k) != [] {
      FinalSource(before, t0, c.batch, done, k);
      SourceIsSerial(before, t0, c.batch, done, k, n);
    } else {
      FinalSource(before, t0, c.batch, done, k);
    }
  }

  /** At the end of a batch, however it ran, the newest versions are the serial result. */
  lemma BatchIsSerial(c: Setting, run: seq<State>)
    requires c.Valid() && Run(c, run) && Shaped(c, run[|run| - 1]) && Over(c, run[|run| - 1])
    ensures NewestTable(run[|run| - 1].rows) == RunSerial(c.Initial(), Txns(c.batch))
  {
    var s, t := run[|run| - 1], Serial(c.Initial(), c.batch, |c.batch|);
    RunKeepsInv(c, run, |run| - 1);
    hide Inv, Over, Run, Serial, NewestTable;
    forall k
      ensures HeadIs(s.rows, t, k)
    {
      FinalHead(c, s, k);
    }
    NewestIs(s.rows, t);
    SerialAll(c.Initial(), c.batch);
  }

  // ------------------------------------------------------------------
  // No deadlock
  // ------------------------------------------------------------------

  /** The unfinished transaction with the lowest id. */
  ghost predicate Lowest(c: Setting, s: State, i: nat)
    requires Shaped(c, s)
  {
    i < |c.batch| && !Finished(c, s, i) && forall j :: 0 <= j < i ==> Finished(c, s, j)
  }

  /** Whatever it still has to read is ready. */
  lemma LowestFindsReady(c: Setting, s: State, i: nat, p: nat)
    requires c.Valid() && Inv(c, s) && Lowest(c, s, i) && p < |c.batch[i].txn.readSet|
    ensures Sought(c, s, i, p).Found? && Sought(c, s, i, p).value.Ready()
  {
    var k, done := c.batch[i].txn.readSet[p].key, Dones(s.work);
    var w, before := LastWriter(c.batch, k, i), ListIn(c.before, k);
    SoughtIsSource(c, s, i, p);
    if w > 0 {
      assert Finished(c, s, w - 1);
      assert c.batch[w - 1].txn.writeSet[..done[w - 1]] == c.batch[w - 1].txn.writeSet;
    } else {
      assert ReadsKey(c.batch[i].txn, k);
      assert before != [] && before[0] in before;
    }
  }

  function PendingReads(got: seq<Read>): nat {
    if got == [] then 0 else PendingReads(got[..|got| - 1]) + if got[|got| - 1].Pending? then 1 else 0
  }

  /** What is left to do for a transaction. */
  function Left(c: Setting, s: State, i: nat): int
    requires i < |c.batch| && i < |s.work|
  {
    PendingReads(s.work[i].got) + |c.batch[i].txn.writeSet| - s.work[i].done
  }

  lemma {:induction false} OneReadLess(got: seq<Read>, p: nat, v: Value)
    requires p < |got| && got[p].Pending?
    ensures PendingReads(got[p := Got(v)]) == PendingReads(got) - 1
    decreases |got|
  {
    var n := |got| - 1;
    assert got[p := Got(v)][..n] == if p < n then got[..n][p := Got(v)] else got[..n];
    if p < n { OneReadLess(got[..n], p, v); }
  }

  /** The lowest transaction always has a step, and every step of it brings it nearer to its end. */
  lemma LowestMovesOn(c: Setting, s: State, i: nat)
    requires c.Valid() && Inv(c, s) && Lowest(c, s, i)
    ensures exists s' :: Step(c, s, s', i)
    ensures forall s' :: Step(c, s, s', i) ==> |s'.work| == |s.work| && Left(c, s', i) == Left(c, s, i) - 1
  {
    assert InTurn(c, s, i);
    if AllRead(s.work[i]) {
      var x, q := c.batch[i].txn, s.work[i].done;
      var s' := State(s.rows[x.writeSet[q] := Replaced(ListIn(s.rows, x.writeSet[q]), x.id, Row(0, x.output(Values(s.work[i]), q)))],
                      s.work[i := s.work[i].(done := q + 1)]);
      assert WriteStep(c, s, s', i);
    } else {
      var p: nat :| p < |s.work[i].got| && s.work[i].got[p].Pending?;
      LowestFindsReady(c, s, i, p);
      var s' := s.(work := s.work[i := s.work[i].(got := s.work[i].got[p := Got(Sought(c, s, i, p).value.value)])]);
      assert ReadStep(c, s, s', i, p);
    }
    forall s' | Step(c, s, s', i)
      ensures |s'.work| == |s.work| && Left(c, s', i) == Left(c, s, i) - 1
    {
      LowestStep(c, s, s', i);
    }
  }

  lemma LowestStep(c: Setting, s: State, s': State, i: nat)
    requires c.Valid() && Inv(c, s) && Lowest(c, s, i) && Step(c, s, s', i)
    ensures |s'.work| == |s.work| && Left(c, s', i) == Left(c, s, i) - 1
  {
    if !WriteStep(c, s, s', i) {
      if p: nat :| RetryStep(c, s, s', i, p) {
        LowestFindsReady(c, s, i, p);
      } else {
        var p: nat :| ReadStep(c, s, s', i, p);
        OneReadLess(s.work[i].got, p, Sought(c, s, i, p).value.value);
      }
    }
  }

  // ------------------------------------------------------------------
  // From one batch to the next
  // ------------------------------------------------------------------

  predicate Mentions(batch: seq<Planned>, k: Key) {
    exists i :: 0 <= i < |batch| && batch[i].txn.WritesKey(k)
  }

  /** The garbage collection keeps the newest version of every key in a write set. */
  ghost predicate Collected(batch: seq<Planned>, rows: Rows, rows': Rows) {
    forall k :: ListIn(rows', k) == if Mentions(batch, k) then Kept(ListIn(rows, k)) else ListIn(rows, k)
  }

  /** After it a key that the batch names in a write set has one version, the newest; all other keys keep theirs. */
  lemma OnlyNewestLeft(batch: seq<Planned>, rows: Rows, rows': Rows, k: Key)
    requires Collected(batch, rows, rows')
    ensures (exists i :: 0 <= i < |batch| && k in batch[i].txn.writeSet) && ListIn(rows, k) != [] ==> ListIn(rows', k) == [ListIn(rows, k)[0]]
    ensures (forall i :: 0 <= i < |batch| ==> k !in batch[i].txn.writeSet) ==> ListIn(rows', k) == ListIn(rows, k)
  {
    if i :| 0 <= i < |batch| && k in batch[i].txn.writeSet { assert batch[i].txn.WritesKey(k); }
  }

  ghost predicate IdsUnder(batch: seq<Planned>, bound: nat) {
    forall i :: 0 <= i < |batch| ==> batch[i].txn.id < bound
  }

  lemma CollectedList(c: Setting, s: State, rows': Rows, bound: nat, k: Key)
    requires c.Valid() && Inv(c, s) && Over(c, s) && Collected(c.batch, s.rows, rows')
    requires IdsUnder(c.batch, bound) && c.floor <= bound
    ensures Descending(ListIn(rows', k)) && SettledList(ListIn(rows', k), bound)
  {
    var n, before, t0, done := |c.batch|, ListIn(c.before, k), c.Initial(), Dones(s.work);
    var l := ListIn(s.rows, k);
    FinalHead(c, s, k);
    if n > 0 {
      OverIsAllDone(c, s);
      FinalList(before, t0, c.batch, done, k);
      if l != [] { assert l[0] in l; }
      if !Mentions(c.batch, k) {
        LinedUntouched(before, t0, c.batch, done, k, n);
      }
    } else {
      LinedNone(before, t0, c.batch, done, k);
    }
  }

  lemma {:induction false} LinedUntouched(l: seq<Version<Row>>, t0: Table, batch: seq<Planned>, done: seq<nat>, k: Key, n: nat)
    requires n <= |batch| && Sized(batch, done) && !Mentions(batch, k)
    ensures Lined(l, t0, batch, done, k, n) == l
    decreases n
  {
    if n > 0 { LinedUntouched(l, t0, batch, done, k, n - 1); }
  }

  /**
   After the garbage collection the next batch may start: all versions are
   ready and old, and the newest ones are still the serial result.
   */
  lemma NextBatchMayStart(c: Setting, run: seq<State>, rows': Rows, bound: nat)
    requires c.Valid() && Run(c, run) && Shaped(c, run[|run| - 1]) && Over(c, run[|run| - 1])
    requires Collected(c.batch, run[|run| - 1].rows, rows') && IdsUnder(c.batch, bound) && c.floor <= bound
    ensures Settled(rows', bound)
    ensures NewestTable(rows') == RunSerial(c.Initial(), Txns(c.batch))
  {
    var s := run[|run| - 1];
    RunKeepsInv(c, run, |run| - 1);
    BatchIsSerial(c, run);
    hide Inv, Over, Run, Lined, IdsUnder, Collected, NewestTable, RunSerial, Setting.Valid, Shaped, SettledList, Descending;
    forall k
      ensures Descending(ListIn(rows', k)) && SettledList(ListIn(rows', k), bound)
    {
      CollectedList(c, s, rows', bound, k);
    }
    SameNewest(c.batch, s.rows, rows');
  }

  lemma SameNewest(batch: seq<Planned>, rows: Rows, rows': Rows)
    requires Collected(batch, rows, rows')
    ensures NewestTable(rows') == NewestTable(rows)
  {
    hide Mentions;
    forall k
      ensures HeadIs(rows', NewestTable(rows), k)
    {}
    NewestIs(rows', NewestTable(rows));
  }

  // ------------------------------------------------------------------
  // The executor
  // ------------------------------------------------------------------

  /** The list while transaction `i` has inserted its first `q` placeholders. */
  function Inserting(l: seq<Version<Row>>, batch: seq<Planned>, k: Key, i: nat, q: nat): seq<Version<Row>>
    requires i < |batch| && q <= |batch[i].txn.writeSet|
  {
    if k in batch[i].txn.writeSet[..q] then
      [Version(batch[i].txn.id, Row(batch[i].txn.id, DEFAULT_VALUE))] + Inserted(l, batch, k, i)
    else Inserted(l, batch, k, i)
  }

  lemma InsertedIsOlder(l: seq<Version<Row>>, batch: seq<Planned>, k: Key, i: nat)
    requires ValidBatch(batch) && i < |batch| && Descending(l) && SettledList(l, batch[0].txn.id)
    ensures Descending(Inserted(l, batch, k, i)) && Older(Inserted(l, batch, k, i), batch[i].txn.id)
  {
    var done := seq(|batch|, _ => 0);
    InsertedIsLined(l, map[], batch, done, k, i);
    LinedDescends(l, map[], batch, done, k, i, batch[i].txn.id);
  }

  class BohmExecutor {
    const workerNum: nat
    const table: MVCCTable
    /** The worker that inserts the placeholders of a key's partition. */
    const workerOf: Key -> nat

    constructor (workerNum: nat, table: MVCCTable, workerOf: Key -> nat)
      ensures this.workerNum == workerNum && this.table == table && this.workerOf == workerOf
    {
      this.workerNum, this.table, this.workerOf := workerNum, table, workerOf;
    }

    /** The lists of this worker's keys follow `expected`; all others are as in `old`. */
    ghost predicate Only(id: nat, before: Rows)
      reads table.rows
    {
      forall k :: workerOf(k) != id ==> table.ListOf(k) == ListIn(before, k)
    }

    /** Puts a placeholder into the list of every key of this worker that the batch writes. */
    method InsertWriteSets(id: nat, transactions: seq<Planned>, ghost before: Rows)
      requires table.rows.Valid() && ValidBatch(transactions) && before == table.rows.lists
      requires transactions != [] ==>
                 forall k :: workerOf(k) == id ==> SettledList(ListIn(before, k), transactions[0].txn.id)
      modifies table.rows
      ensures table.rows.Valid() && Only(id, before)
      ensures forall k :: workerOf(k) == id ==>
                table.ListOf(k) == Inserted(ListIn(before, k), transactions, k, |transactions|)
    {
      for i := 0 to |transactions|
        invariant table.rows.Valid() && Only(id, before)
        invariant forall k :: workerOf(k) == id ==> table.ListOf(k) == Inserted(ListIn(before, k), transactions, k, i)
      {
        if !transactions[i].skipped {
          InsertWriteSet(id, transactions, before, i);
        }
      }
    }

    method InsertWriteSet(id: nat, transactions: seq<Planned>, ghost before: Rows, i: nat)
      requires table.rows.Valid() && ValidBatch(transactions) && Only(id, before)
      requires i < |transactions| && !transactions[i].skipped
      requires forall k :: Descending(ListIn(before, k))
      requires forall k :: workerOf(k) == id ==> SettledList(ListIn(before, k), transactions[0].txn.id)
      requires forall k :: workerOf(k) == id ==> table.ListOf(k) == Inserted(ListIn(before, k), transactions, k, i)
      modifies table.rows
      ensures table.rows.Valid() && Only(id, before)
      ensures forall k :: workerOf(k) == id ==> table.ListOf(k) == Inserted(ListIn(before, k), transactions, k, i + 1)
    {
      var x := transactions[i].txn;
      for q := 0 to |x.writeSet|
        invariant table.rows.Valid() && Only(id, before)
        invariant forall k :: workerOf(k) == id ==> table.ListOf(k) == Inserting(ListIn(before, k), transactions, k, i, q)
      {
        var key := x.writeSet[q];
        assert x.writeSet[..q + 1] == x.writeSet[..q] + [key];
        if workerOf(key) == id {
          InsertedIsOlder(ListIn(before, key), transactions, key, i);
          assert key !in x.writeSet[..q];
          HeadIsOlder(table.ListOf(key), x.id);
          table.Insert(key, DEFAULT_VALUE, x.id);
        }
      }
      assert x.writeSet[..|x.writeSet|] == x.writeSet;
    }

    /** All workers insert, each the placeholders of its own keys. */
    method RunInsertPhase(transactions: seq<Planned>)
      requires table.rows.Valid() && ValidBatch(transactions) && forall k :: workerOf(k) < workerNum
      requires transactions != [] ==> Settled(table.rows.lists, transactions[0].txn.id)
      modifies table.rows
      ensures table.rows.Valid()
      ensures forall k :: table.ListOf(k) == Inserted(ListIn(old(table.rows.lists), k), transactions, k, |transactions|)
    {
      ghost var before := table.rows.lists;
      for id := 0 to workerNum
        invariant table.rows.Valid()
        invariant forall k :: table.ListOf(k) ==
                    if workerOf(k) < id then Inserted(ListIn(before, k), transactions, k, |transactions|) else ListIn(before, k)
      {
        InsertWriteSets(id, transactions, table.rows.lists);
      }
    }

    /** Keeps the latest version of every key in the write sets of this worker's transactions. */
    method GarbageCollect(id: nat, transactions: seq<Planned>, ghost before: Rows)
      requires table.rows.Valid() && id < workerNum
      requires forall k :: table.ListOf(k) == CollectedSoFar(transactions, workerNum, id, 0, before, k)
      modifies table.rows
      ensures table.rows.Valid()
      ensures forall k :: table.ListOf(k) == CollectedSoFar(transactions, workerNum, id + 1, 0, before, k)
    {
      WorkerStarts(id, workerNum);
      var i := id;
      while i < |transactions|
        invariant table.rows.Valid() && WorkerOf(i, workerNum) == id
        invariant forall k :: table.ListOf(k) == CollectedSoFar(transactions, workerNum, id, i, before, k)
      {
        NextStride(i, workerNum);
        CollectWriteSet(transactions[i].txn);
        forall k
          ensures table.ListOf(k) == CollectedSoFar(transactions, workerNum, id, i + workerNum, before, k)
        {
          OneMoreCollected(transactions, workerNum, id, i, before, k);
        }
        i := i + workerNum;
      }
    }

    method CollectWriteSet(x: Txn)
      requires table.rows.Valid()
      modifies table.rows
      ensures table.rows.Valid()
      ensures forall k :: table.ListOf(k) == if x.WritesKey(k) then Kept(old(table.ListOf(k))) else old(table.ListOf(k))
    {
      for q := 0 to |x.writeSet|
        invariant table.rows.Valid()
        invariant forall k :: table.ListOf(k) == if k in x.writeSet[..q] then Kept(old(table.ListOf(k))) else old(table.ListOf(k))
      {
        assert x.writeSet[..q + 1] == x.writeSet[..q] + [x.writeSet[q]];
        table.GarbageCollect(x.writeSet[q]);
      }
      assert x.writeSet[..|x.writeSet|] == x.writeSet;
    }

    method RunGarbagePhase(transactions: seq<Planned>)
      requires table.rows.Valid() && workerNum > 0
      modifies table.rows
      ensures table.rows.Valid() && Collected(transactions, old(table.rows.lists), table.rows.lists)
    {
      ghost var before := table.rows.lists;
      for id := 0 to workerNum
        invariant table.rows.Valid()
        invariant forall k :: table.ListOf(k) == CollectedSoFar(transactions, workerNum, id, 0, before, k)
      {
        GarbageCollect(id, transactions, before);
      }
      assert forall k :: ListIn(table.rows.lists, k) == table.ListOf(k);
    }
  }

  /** Some transaction of the workers below `id`, or of worker `id` below `upto`, writes the key. */
  ghost predicate MentionedSoFar(batch: seq<Planned>, width: nat, id: nat, upto: nat, k: Key)
    requires width > 0
  {
    exists i :: 0 <= i < |batch| && (WorkerOf(i, width) < id || (WorkerOf(i, width) == id && i < upto)) && batch[i].txn.WritesKey(k)
  }

  ghost function CollectedSoFar(batch: seq<Planned>, width: nat, id: nat, upto: nat, before: Rows, k: Key): seq<Version<Row>>
    requires width > 0
  {
    if MentionedSoFar(batch, width, id, upto, k) then Kept(ListIn(before, k)) else ListIn(before, k)
  }

  lemma OneMoreCollected(batch: seq<Planned>, width: nat, id: nat, i: nat, before: Rows, k: Key)
    requires width > 0 && i < |batch| && WorkerOf(i, width) == id
    ensures CollectedSoFar(batch, width, id, i + width, before, k) ==
            if batch[i].txn.WritesKey(k) then Kept(CollectedSoFar(batch, width, id, i, before, k))
            else CollectedSoFar(batch, width, id, i, before, k)
  {
    NextStride(i, width);
    if MentionedSoFar(batch, width, id, i + width, k) && !MentionedSoFar(batch, width, id, i, k) {
      var j :| 0 <= j < |batch| && (WorkerOf(j, width) < id || (WorkerOf(j, width) == id && j < i + width)) && batch[j].txn.WritesKey(k);
      assert j == i;
    }
  }
}
