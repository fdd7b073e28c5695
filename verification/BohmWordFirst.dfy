/**
 Bohm's writes as the table makes them: the word of the row is set to 0, which tells the
 readers that the row is ready, and only then the value is copied into it. A reader that
 comes between the two finds the placeholder's value. Runs in which none does are serial;
 and none ever can exactly when every read of the batch is of a key whose last earlier
 writer, if it has one, belongs to the reader's own worker.
 */
module BohmWordFirst {
  import opened Transactions
  import opened PlannedBatch
  import opened Strides
  import opened MvccHashMap
  import opened MvccTable
  import opened Bohm

  /** `half[i]`: transaction `i` has set the word of the row it is writing and not yet copied the value. */
  datatype Fine = Fine(rows: Rows, work: seq<Progress>, half: seq<bool>)

  function Core(f: Fine): State { State(f.rows, f.work) }

  datatype Move = Reading(i: nat, p: nat) | Retrying(i: nat, p: nat) | Marking(i: nat) | Copying(i: nat)

  /** The list with the word of that version set to 0 and its value as it is. */
  function Zeroed(l: seq<Version<Row>>, version: nat): (r: seq<Version<Row>>)
    ensures |r| == |l|
    ensures forall n :: 0 <= n < |l| ==> r[n] == if l[n].version == version then Version(version, Row(0, l[n].value.value)) else l[n]
  {
    seq(|l|, n requires 0 <= n < |l| => if l[n].version == version then Version(version, Row(0, l[n].value.value)) else l[n])
  }

  ghost predicate FineShaped(c: Setting, f: Fine) {
    c.Valid() && Shaped(c, Core(f)) && |f.half| == |c.batch|
  }

  /** A committing transaction with a write to make. */
  ghost predicate Writing(c: Setting, f: Fine, i: nat)
    requires FineShaped(c, f)
  {
    && i < |c.batch| && InTurn(c, Core(f), i) && AllRead(f.work[i]) && f.work[i].done < |c.batch[i].txn.writeSet|
  }

  ghost predicate Mark(c: Setting, f: Fine, f': Fine, i: nat)
    requires FineShaped(c, f)
  {
    && Writing(c, f, i) && !f.half[i]
    && var x := c.batch[i].txn;
       var k := x.writeSet[f.work[i].done];
       f' == Fine(f.rows[k := Zeroed(ListIn(f.rows, k), x.id)], f.work, f.half[i := true])
  }

  ghost predicate Copy(c: Setting, f: Fine, f': Fine, i: nat)
    requires FineShaped(c, f)
  {
    && Writing(c, f, i) && f.half[i]
    && var x, q := c.batch[i].txn, f.work[i].done;
       f' == Fine(f.rows[x.writeSet[q] := Replaced(ListIn(f.rows, x.writeSet[q]), x.id, Row(0, x.output(Values(f.work[i]), q)))],
                  f.work[i := f.work[i].(done := q + 1)], f.half[i := false])
  }

  ghost predicate FineStep(c: Setting, f: Fine, f': Fine, m: Move)
    requires FineShaped(c, f)
  {
    match m
    case Reading(i, p) => ReadStep(c, Core(f), Core(f'), i, p) && f'.half == f.half
    case Retrying(i, p) => RetryStep(c, Core(f), Core(f'), i, p) && f'.half == f.half
    case Marking(i) => Mark(c, f, f', i)
    case Copying(i) => Copy(c, f, f', i)
  }

  ghost predicate FineInit(c: Setting, f: Fine)
    requires c.Valid()
  {
    Init(c, Core(f)) && |f.half| == |c.batch| && forall i :: 0 <= i < |f.half| ==> !f.half[i]
  }

  /** A run with the moves it makes. */
  ghost predicate FineRun(c: Setting, run: seq<Fine>, moves: seq<Move>) {
    && c.Valid() && |run| == |moves| + 1 && FineInit(c, run[0])
    && forall n :: 0 <= n < |moves| ==> FineShaped(c, run[n]) && FineStep(c, run[n], run[n + 1], moves[n])
  }

  /** Version `v` of the key is between the two stores of transaction `j`. */
  predicate HalfBy(c: Setting, work: seq<Progress>, half: seq<bool>, j: nat, k: Key, v: nat) {
    && j < |c.batch| && j < |work| && j < |half| && half[j] && c.batch[j].txn.id == v
    && work[j].done < |c.batch[j].txn.writeSet| && c.batch[j].txn.writeSet[work[j].done] == k
  }

  ghost predicate HalfOn(c: Setting, work: seq<Progress>, half: seq<bool>, k: Key, v: nat) {
    exists j: nat :: HalfBy(c, work, half, j, k, v)
  }

  /** A read that comes between the two stores. */
  ghost predicate Early(c: Setting, f: Fine, m: Move)
    requires FineShaped(c, f)
  {
    && m.Reading? && m.i < |c.batch| && m.p < |c.batch[m.i].txn.readSet| && Sought(c, Core(f), m.i, m.p).Found?
    && HalfOn(c, f.work, f.half, c.batch[m.i].txn.readSet[m.p].key, Sought(c, Core(f), m.i, m.p).version)
  }

  ghost predicate OnTime(c: Setting, run: seq<Fine>, moves: seq<Move>)
    requires FineRun(c, run, moves)
  {
    forall n :: 0 <= n < |moves| ==> !Early(c, run[n], moves[n])
  }

  // ------------------------------------------------------------------
  // The rows, seen as if each write were one step
  // ------------------------------------------------------------------

  /** The list with the rows that are between the two stores: ready, and without their value. */
  ghost function TornList(c: Setting, work: seq<Progress>, half: seq<bool>, k: Key, l: seq<Version<Row>>): (r: seq<Version<Row>>)
    ensures |r| == |l|
    ensures forall n :: 0 <= n < |l| ==>
              r[n] == Version(l[n].version, if HalfOn(c, work, half, k, l[n].version) then Row(0, DEFAULT_VALUE) else l[n].value)
  {
    seq(|l|, n requires 0 <= n < |l| =>
      Version(l[n].version, if HalfOn(c, work, half, k, l[n].version) then Row(0, DEFAULT_VALUE) else l[n].value))
  }

  ghost predicate SeenAs(c: Setting, f: Fine, rows: Rows) {
    forall k :: ListIn(f.rows, k) == TornList(c, f.work, f.half, k, ListIn(rows, k))
  }

  ghost predicate HalfOk(c: Setting, f: Fine)
    requires FineShaped(c, f)
  {
    forall i :: 0 <= i < |f.half| && f.half[i] ==> !c.batch[i].skipped && f.work[i].done < |c.batch[i].txn.writeSet|
  }

  ghost predicate FineInv(c: Setting, f: Fine, rows: Rows) {
    FineShaped(c, f) && HalfOk(c, f) && Inv(c, State(rows, f.work)) && SeenAs(c, f, rows)
  }

  lemma {:induction false} PrevTorn(c: Setting, work: seq<Progress>, half: seq<bool>, k: Key, l: seq<Version<Row>>, bound: nat)
    ensures Prev(TornList(c, work, half, k, l), bound) ==
            match Prev(l, bound)
            case Missing => Missing
            case Found(v, r) => Found(v, if HalfOn(c, work, half, k, v) then Row(0, DEFAULT_VALUE) else r)
    decreases |l|
  {
    hide HalfOn;
    if l != [] {
      assert TornList(c, work, half, k, l)[1..] == TornList(c, work, half, k, l[1..]);
      PrevTorn(c, work, half, k, l[1..], bound);
    }
  }

  lemma {:induction false} PrevBelow(l: seq<Version<Row>>, bound: nat)
    ensures Prev(l, bound).Found? ==> Prev(l, bound).version < bound
    decreases |l|
  {
    if l != [] { PrevBelow(l[1..], bound); }
  }

  /** What a read finds, compared with what it would find were each write one step. */
  lemma SoughtTorn(c: Setting, f: Fine, rows: Rows, i: nat, p: nat)
    requires FineInv(c, f, rows) && i < |c.batch| && p < |c.batch[i].txn.readSet|
    ensures var k, found := c.batch[i].txn.readSet[p].key, Sought(c, State(rows, f.work), i, p);
            Sought(c, Core(f), i, p) ==
            match found
            case Missing => Missing
            case Found(v, r) => Found(v, if HalfOn(c, f.work, f.half, k, v) then Row(0, DEFAULT_VALUE) else r)
  {
    var k := c.batch[i].txn.readSet[p].key;
    hide Inv, HalfOn, Shaped;
    PrevTorn(c, f.work, f.half, k, ListIn(rows, k), c.batch[i].txn.id);
  }

  lemma SameHalves(c: Setting, work: seq<Progress>, work': seq<Progress>, half: seq<bool>, k: Key, v: nat)
    requires |work'| == |work| && forall j :: 0 <= j < |work| ==> work'[j].done == work[j].done
    ensures HalfOn(c, work', half, k, v) == HalfOn(c, work, half, k, v)
  {
    if HalfOn(c, work, half, k, v) {
      var j: nat :| HalfBy(c, work, half, j, k, v);
      assert HalfBy(c, work', half, j, k, v);
    }
    if HalfOn(c, work', half, k, v) {
      var j: nat :| HalfBy(c, work', half, j, k, v);
      assert HalfBy(c, work, half, j, k, v);
    }
  }

  lemma SeenStays(c: Setting, f: Fine, f': Fine, rows: Rows)
    requires SeenAs(c, f, rows) && f'.rows == f.rows && f'.half == f.half
    requires |f'.work| == |f.work| && forall j :: 0 <= j < |f.work| ==> f'.work[j].done == f.work[j].done
    ensures SeenAs(c, f', rows)
  {
    hide HalfOn;
    forall k
      ensures TornList(c, f'.work, f'.half, k, ListIn(rows, k)) == TornList(c, f.work, f.half, k, ListIn(rows, k))
    {
      forall v { SameHalves(c, f.work, f'.work, f.half, k, v); }
    }
  }

  lemma InTurnSame(c: Setting, s: State, s': State, i: nat)
    requires c.Valid() && Shaped(c, s) && Shaped(c, s') && s'.work == s.work && i < |c.batch|
    ensures InTurn(c, s', i) == InTurn(c, s, i)
  {
    forall j | 0 <= j < |c.batch| ensures Finished(c, s', j) == Finished(c, s, j) {}
  }

  /** A read on time is a read of the coarse machine. */
  lemma ReadOnTime(c: Setting, f: Fine, f': Fine, i: nat, p: nat, rows: Rows)
    requires FineInv(c, f, rows) && FineStep(c, f, f', Reading(i, p)) && !Early(c, f, Reading(i, p))
    ensures FineInv(c, f', rows)
  {
    var a, a' := State(rows, f.work), State(rows, f'.work);
    SoughtTorn(c, f, rows, i, p);
    InTurnSame(c, a, Core(f), i);
    hide Inv, HalfOn, InTurn, Sought, SeenAs;
    assert ReadStep(c, a, a', i, p);
    ReadStepKeepsInv(c, a, a', i, p);
    SeenStays(c, f, f', rows);
    assert HalfOk(c, f');
  }

  lemma RetryIsRetry(c: Setting, f: Fine, f': Fine, i: nat, p: nat, rows: Rows)
    requires FineInv(c, f, rows) && FineStep(c, f, f', Retrying(i, p))
    ensures FineInv(c, f', rows)
  {
    var a, a' := State(rows, f.work), State(rows, f'.work);
    SoughtTorn(c, f, rows, i, p);
    InTurnSame(c, a, Core(f), i);
    hide Inv, HalfOn, InTurn, Sought, SeenAs;
    assert RetryStep(c, a, a', i, p);
    RetryStepKeepsInv(c, a, a', i, p);
    SeenStays(c, f, f', rows);
    assert HalfOk(c, f');
  }

  // ------------------------------------------------------------------
  // Marking and copying
  // ------------------------------------------------------------------

  /** In the list of a key the version of a transaction is its row. */
  lemma {:induction false} LinedEntry(l: seq<Version<Row>>, t0: Table, batch: seq<Planned>, done: seq<nat>, k: Key, n: nat, i: nat, e: Version<Row>)
    requires ValidBatch(batch) && n <= |batch| && Sized(batch, done) && i < |batch|
    requires forall d :: d in l ==> d.version < batch[0].txn.id
    requires e in Lined(l, t0, batch, done, k, n) && e.version == batch[i].txn.id
    ensures e.value == RowOf(t0, batch, done, k, i)
    decreases n
  {
    hide RowOf;
    IdsTell(batch, i, i);
    if n > 0 {
      if Writes(batch, n - 1, k) && e == Version(batch[n - 1].txn.id, RowOf(t0, batch, done, k, n - 1)) {
        IdsTell(batch, i, n - 1);
      } else {
        assert e in Lined(l, t0, batch, done, k, n - 1);
        LinedEntry(l, t0, batch, done, k, n - 1, i, e);
      }
    }
  }

  lemma NotYetWritten(batch: seq<Planned>, i: nat, q: nat)
    requires ValidBatch(batch) && i < |batch| && q < |batch[i].txn.writeSet|
    ensures batch[i].txn.writeSet[q] !in batch[i].txn.writeSet[..q]
  {
    assert DistinctWrites(batch[i].txn);
  }

  /** The row a transaction is about to write is a placeholder still. */
  lemma PlaceholderIs(c: Setting, s: State, i: nat, e: Version<Row>)
    requires c.Valid() && Inv(c, s) && i < |c.batch| && s.work[i].done < |c.batch[i].txn.writeSet|
    requires e in ListIn(s.rows, c.batch[i].txn.writeSet[s.work[i].done]) && e.version == c.batch[i].txn.id
    ensures e.value == Row(c.batch[i].txn.id, DEFAULT_VALUE)
  {
    var k, done := c.batch[i].txn.writeSet[s.work[i].done], Dones(s.work);
    assert SettledList(ListIn(c.before, k), c.batch[0].txn.id);
    LinedEntry(ListIn(c.before, k), c.Initial(), c.batch, done, k, |c.batch|, i, e);
    NotYetWritten(c.batch, i, s.work[i].done);
  }

  /** After the mark, transaction `i` is between its stores; nothing else has changed. */
  lemma HalvesAfterMark(c: Setting, work: seq<Progress>, half: seq<bool>, i: nat, k: Key, v: nat)
    requires i < |c.batch| && |work| == |half| == |c.batch| && work[i].done < |c.batch[i].txn.writeSet| && !half[i]
    ensures HalfOn(c, work, half[i := true], k, v) <==>
            HalfOn(c, work, half, k, v) || (k == c.batch[i].txn.writeSet[work[i].done] && v == c.batch[i].txn.id)
  {
    var half' := half[i := true];
    if HalfOn(c, work, half', k, v) {
      var j: nat :| HalfBy(c, work, half', j, k, v);
      assert j != i ==> HalfBy(c, work, half, j, k, v);
    }
    if HalfOn(c, work, half, k, v) {
      var j: nat :| HalfBy(c, work, half, j, k, v);
      assert HalfBy(c, work, half', j, k, v);
    }
    if k == c.batch[i].txn.writeSet[work[i].done] && v == c.batch[i].txn.id { assert HalfBy(c, work, half', i, k, v); }
  }

  lemma NotHalf(c: Setting, work: seq<Progress>, half: seq<bool>, i: nat, k: Key)
    requires ValidBatch(c.batch) && i < |c.batch| && i < |half| && !half[i]
    ensures !HalfOn(c, work, half, k, c.batch[i].txn.id)
  {
    if HalfOn(c, work, half, k, c.batch[i].txn.id) {
      var j: nat :| HalfBy(c, work, half, j, k, c.batch[i].txn.id);
      IdsTell(c.batch, i, j);
    }
  }

  lemma MarkIs(c: Setting, f: Fine, f': Fine, i: nat)
    requires FineShaped(c, f) && Mark(c, f, f', i)
    ensures i < |c.batch| && !c.batch[i].skipped && f.work[i].done < |c.batch[i].txn.writeSet| && !f.half[i]
    ensures var k := c.batch[i].txn.writeSet[f.work[i].done];
            f' == Fine(f.rows[k := Zeroed(ListIn(f.rows, k), c.batch[i].txn.id)], f.work, f.half[i := true])
  {}

  lemma MarkSeen(c: Setting, f: Fine, f': Fine, i: nat, rows: Rows)
    requires FineInv(c, f, rows) && Mark(c, f, f', i)
    ensures SeenAs(c, f', rows)
  {
    MarkIs(c, f, f', i);
    var id, at := c.batch[i].txn.id, c.batch[i].txn.writeSet[f.work[i].done];
    forall k
      ensures ListIn(f'.rows, k) == TornList(c, f'.work, f'.half, k, ListIn(rows, k))
    {
      var l := ListIn(rows, k);
      assert ListIn(f.rows, k) == TornList(c, f.work, f.half, k, l);
      NotHalf(c, f.work, f.half, i, k);
      forall n | 0 <= n < |l| && k == at && l[n].version == id
        ensures l[n].value == Row(id, DEFAULT_VALUE)
      {
        PlaceholderIs(c, State(rows, f.work), i, l[n]);
      }
      forall n | 0 <= n < |l| { HalvesAfterMark(c, f.work, f.half, i, k, l[n].version); }
      hide HalfOn, Inv, Mark;
    }
  }

  lemma MarkKeepsInv(c: Setting, f: Fine, f': Fine, i: nat, rows: Rows)
    requires FineInv(c, f, rows) && FineStep(c, f, f', Marking(i))
    ensures FineInv(c, f', rows)
  {
    MarkSeen(c, f, f', i, rows);
    MarkIs(c, f, f', i);
    hide Inv, SeenAs, Mark;
  }

  /** After the copy transaction `i` is no longer between two stores. */
  lemma HalvesAfterCopy(c: Setting, work: seq<Progress>, half: seq<bool>, i: nat, k: Key, v: nat)
    requires ValidBatch(c.batch) && i < |c.batch| && |work| == |half| == |c.batch| && half[i]
    requires work[i].done < |c.batch[i].txn.writeSet|
    ensures HalfOn(c, work[i := work[i].(done := work[i].done + 1)], half[i := false], k, v) <==>
            HalfOn(c, work, half, k, v) && !(k == c.batch[i].txn.writeSet[work[i].done] && v == c.batch[i].txn.id)
  {
    var work', half' := work[i := work[i].(done := work[i].done + 1)], half[i := false];
    if HalfOn(c, work', half', k, v) {
      var j: nat :| HalfBy(c, work', half', j, k, v);
      IdsTell(c.batch, i, j);
      assert HalfBy(c, work, half, j, k, v);
    }
    if HalfOn(c, work, half, k, v) {
      var j: nat :| HalfBy(c, work, half, j, k, v);
      assert j != i ==> HalfBy(c, work', half', j, k, v);
    }
  }

  lemma CopyIs(c: Setting, f: Fine, f': Fine, i: nat, rows: Rows)
    requires FineInv(c, f, rows) && Copy(c, f, f', i)
    ensures i < |c.batch| && f.work[i].done < |c.batch[i].txn.writeSet| && f.half[i] && Writing(c, f, i)
    ensures var x, q := c.batch[i].txn, f.work[i].done;
            && f'.rows == f.rows[x.writeSet[q] := Replaced(ListIn(f.rows, x.writeSet[q]), x.id, Row(0, x.output(Values(f.work[i]), q)))]
            && f'.work == f.work[i := f.work[i].(done := q + 1)] && f'.half == f.half[i := false]
  {
    hide Inv, SeenAs, InTurn;
  }

  /** The rows of the coarse machine after the write. */
  ghost function Written(c: Setting, f: Fine, i: nat, rows: Rows): Rows
    requires FineShaped(c, f) && Writing(c, f, i)
  {
    var x, q := c.batch[i].txn, f.work[i].done;
    rows[x.writeSet[q] := Replaced(ListIn(rows, x.writeSet[q]), x.id, Row(0, x.output(Values(f.work[i]), q)))]
  }

  lemma CopySeen(c: Setting, f: Fine, f': Fine, i: nat, rows: Rows)
    requires FineInv(c, f, rows) && Copy(c, f, f', i)
    ensures Writing(c, f, i) && SeenAs(c, f', Written(c, f, i, rows))
  {
    CopyIs(c, f, f', i, rows);
    var rows' := Written(c, f, i, rows);
    assert ValidBatch(c.batch);
    forall k
      ensures ListIn(f'.rows, k) == TornList(c, f'.work, f'.half, k, ListIn(rows', k))
    {
      var l := ListIn(rows, k);
      assert ListIn(f.rows, k) == TornList(c, f.work, f.half, k, l);
      forall n | 0 <= n < |l| { HalvesAfterCopy(c, f.work, f.half, i, k, l[n].version); }
      hide HalfOn, Inv, Copy, Writing, FineInv, SeenAs;
    }
  }

  lemma CopyKeepsInv(c: Setting, f: Fine, f': Fine, i: nat, rows: Rows)
    requires FineInv(c, f, rows) && FineStep(c, f, f', Copying(i))
    ensures Writing(c, f, i) && FineInv(c, f', Written(c, f, i, rows))
  {
    CopyIs(c, f, f', i, rows);
    CopySeen(c, f, f', i, rows);
    var a, a' := State(rows, f.work), State(Written(c, f, i, rows), f'.work);
    InTurnSame(c, a, Core(f), i);
    hide Inv, SeenAs, InTurn;
    assert WriteStep(c, a, a', i);
    WriteStepKeepsInv(c, a, a', i);
    CopyShapes(c, f, f', i);
  }

  lemma CopyShapes(c: Setting, f: Fine, f': Fine, i: nat)
    requires FineShaped(c, f) && HalfOk(c, f) && i < |c.batch| && f.work[i].done < |c.batch[i].txn.writeSet|
    requires f'.work == f.work[i := f.work[i].(done := f.work[i].done + 1)] && f'.half == f.half[i := false]
    ensures FineShaped(c, f') && HalfOk(c, f')
  {}

  lemma FineInvShapes(c: Setting, f: Fine, rows: Rows)
    requires FineInv(c, f, rows)
    ensures FineShaped(c, f)
  {}

  lemma StepOnTimeKeepsInv(c: Setting, f: Fine, f': Fine, m: Move, rows: Rows) returns (rows': Rows)
    requires FineInv(c, f, rows) && FineStep(c, f, f', m) && !Early(c, f, m)
    ensures FineInv(c, f', rows')
  {
    FineInvShapes(c, f, rows);
    hide FineInv;
    rows' := rows;
    match m
    case Reading(i, p) => ReadOnTime(c, f, f', i, p, rows);
    case Retrying(i, p) => RetryIsRetry(c, f, f', i, p, rows);
    case Marking(i) => MarkKeepsInv(c, f, f', i, rows);
    case Copying(i) =>
      CopyKeepsInv(c, f, f', i, rows);
      rows' := Written(c, f, i, rows);
  }

  // ------------------------------------------------------------------
  // Runs without an early read
  // ------------------------------------------------------------------

  /** Read `p` of transaction `i` is of a key whose last earlier writer belongs to another worker. */
  ghost predicate Crosses(c: Setting, i: nat, p: nat) {
    && c.width > 0 && i < |c.batch| && !c.batch[i].skipped && p < |c.batch[i].txn.readSet|
    && var w := LastWriter(c.batch, c.batch[i].txn.readSet[p].key, i);
       w > 0 && WorkerOf(w - 1, c.width) != WorkerOf(i, c.width)
  }

  ghost predicate NobodyCrosses(c: Setting) { forall i: nat, p: nat :: !Crosses(c, i, p) }

  /** What a read finds is a row of the last writer before it, or one from before the batch. */
  lemma SourceVersion(l: seq<Version<Row>>, t0: Table, batch: seq<Planned>, done: seq<nat>, k: Key, i: nat)
    requires i < |batch| && Sized(batch, done) && SettledList(l, batch[0].txn.id) && Source(l, t0, batch, done, k, i).Found?
    ensures var w, v := LastWriter(batch, k, i), Source(l, t0, batch, done, k, i).version;
            if w > 0 then v == batch[w - 1].txn.id else v < batch[0].txn.id
  {
    assert l != [] ==> l[0] in l;
  }

  /** Who is between two stores of the row that was found is the last writer before the reader. */
  lemma EarlyIsLastWriter(c: Setting, f: Fine, i: nat, p: nat, j: nat, rows: Rows)
    requires FineInv(c, f, rows) && i < |c.batch| && p < |c.batch[i].txn.readSet| && Sought(c, Core(f), i, p).Found?
    requires HalfBy(c, f.work, f.half, j, c.batch[i].txn.readSet[p].key, Sought(c, Core(f), i, p).version)
    ensures LastWriter(c.batch, c.batch[i].txn.readSet[p].key, i) == j + 1
  {
    var k := c.batch[i].txn.readSet[p].key;
    SoughtTorn(c, f, rows, i, p);
    SoughtIsSource(c, State(rows, f.work), i, p);
    SourceVersion(ListIn(c.before, k), c.Initial(), c.batch, Dones(f.work), k, i);
    var w := LastWriter(c.batch, k, i);
    hide Inv, SeenAs, Source, Sought;
    IdsTell(c.batch, j, if w > 0 then w - 1 else j);
  }

  /** Since a reader waits for the earlier transactions of its own worker, it belongs to another one. */
  lemma EarlyCrosses(c: Setting, f: Fine, i: nat, p: nat, rows: Rows)
    requires FineInv(c, f, rows) && Early(c, f, Reading(i, p)) && InTurn(c, Core(f), i)
    ensures Crosses(c, i, p)
  {
    var k := c.batch[i].txn.readSet[p].key;
    var j: nat :| HalfBy(c, f.work, f.half, j, k, Sought(c, Core(f), i, p).version);
    EarlyIsLastWriter(c, f, i, p, j, rows);
    assert !Finished(c, Core(f), j);
    hide Inv, SeenAs, LastWriter, Sought;
  }

  lemma NeverEarly(c: Setting, f: Fine, f': Fine, m: Move, rows: Rows)
    requires FineInv(c, f, rows) && FineStep(c, f, f', m) && NobodyCrosses(c)
    ensures !Early(c, f, m)
  {
    FineInvShapes(c, f, rows);
    if m.Reading? { ReadInTurn(c, f, f', m); }
    hide FineInv, FineStep, InTurn, Crosses;
    if Early(c, f, m) { EarlyCrosses(c, f, m.i, m.p, rows); }
  }

  lemma ReadInTurn(c: Setting, f: Fine, f': Fine, m: Move)
    requires FineShaped(c, f) && FineStep(c, f, f', m) && m.Reading?
    ensures InTurn(c, Core(f), m.i)
  {}

  lemma FineInitHasInv(c: Setting, f: Fine)
    requires c.Valid() && FineInit(c, f)
    ensures FineInv(c, f, f.rows)
  {
    InitHasInv(c, Core(f));
    hide Inv;
    forall k
      ensures ListIn(f.rows, k) == TornList(c, f.work, f.half, k, ListIn(f.rows, k))
    {
      forall v ensures !HalfOn(c, f.work, f.half, k, v) {}
    }
  }

  lemma {:induction false} FineRunKeepsInv(c: Setting, run: seq<Fine>, moves: seq<Move>, n: nat) returns (rows: Rows)
    requires FineRun(c, run, moves) && n < |run| && (NobodyCrosses(c) || OnTime(c, run, moves))
    ensures FineInv(c, run[n], rows)
    decreases n
  {
    hide FineInv, FineStep, Early, NobodyCrosses, FineInit;
    if n == 0 {
      FineInitHasInv(c, run[0]);
      rows := run[0].rows;
    } else {
      var before := FineRunKeepsInv(c, run, moves, n - 1);
      if NobodyCrosses(c) { NeverEarly(c, run[n - 1], run[n], moves[n - 1], before); }
      rows := StepOnTimeKeepsInv(c, run[n - 1], run[n], moves[n - 1], before);
    }
  }

  lemma NobodyHalf(c: Setting, f: Fine, rows: Rows)
    requires FineInv(c, f, rows) && Over(c, Core(f))
    ensures forall k :: ListIn(f.rows, k) == ListIn(rows, k)
    ensures Over(c, State(rows, f.work))
  {
    forall i | 0 <= i < |c.batch|
      ensures !f.half[i] && Finished(c, State(rows, f.work), i)
    {
      assert Finished(c, Core(f), i);
    }
    hide Inv;
    forall k
      ensures TornList(c, f.work, f.half, k, ListIn(rows, k)) == ListIn(rows, k)
    {
      forall v ensures !HalfOn(c, f.work, f.half, k, v) {}
    }
  }

  /** A run in which no reader comes between the two stores of a write ends as the batch run one by one. */
  lemma OnTimeIsSerial(c: Setting, run: seq<Fine>, moves: seq<Move>)
    requires FineRun(c, run, moves) && OnTime(c, run, moves)
    requires Shaped(c, Core(run[|moves|])) && Over(c, Core(run[|moves|]))
    ensures NewestTable(run[|moves|].rows) == RunSerial(c.Initial(), Txns(c.batch))
  {
    var f := run[|moves|];
    var rows := FineRunKeepsInv(c, run, moves, |moves|);
    NobodyHalf(c, f, rows);
    var t := Serial(c.Initial(), c.batch, |c.batch|);
    assert Inv(c, State(rows, f.work)) && c.Valid();
    hide Inv, FineInv, FineRun, Over, Serial, NewestTable, FineShaped;
    forall k
      ensures HeadIs(f.rows, t, k)
    {
      FinalHead(c, State(rows, f.work), k);
    }
    NewestIs(f.rows, t);
    SerialAll(c.Initial(), c.batch);
  }

  // ------------------------------------------------------------------
  // A run with an early read
  // ------------------------------------------------------------------

  ghost predicate Quiet(f: Fine) { forall i :: 0 <= i < |f.half| ==> !f.half[i] }

  /** Nobody is between two stores, those in `done` are done, and all others but `t` have not begun. */
  ghost predicate FrontAt(c: Setting, f: Fine, done: set<nat>, t: nat) {
    && FineShaped(c, f) && Inv(c, Core(f)) && Quiet(f)
    && (forall m :: m in done && m < |c.batch| ==> Finished(c, Core(f), m))
    && (forall m :: 0 <= m < |c.batch| && m != t && m !in done ==> f.work[m] == Untouched(c, m))
  }

  /** All that `t` waits for is done: the earlier transactions of its worker, and the last writers of what it reads. */
  ghost predicate Runnable(c: Setting, done: set<nat>, t: nat) {
    && c.width > 0 && t < |c.batch| && !c.batch[t].skipped
    && (forall m :: 0 <= m < t && WorkerOf(m, c.width) == WorkerOf(t, c.width) ==> m in done)
    && forall p :: 0 <= p < |c.batch[t].txn.readSet| ==> LastDone(c, done, t, p)
  }

  ghost predicate LastDone(c: Setting, done: set<nat>, t: nat, p: nat)
    requires t < |c.batch| && p < |c.batch[t].txn.readSet|
  {
    var w := LastWriter(c.batch, c.batch[t].txn.readSet[p].key, t);
    w > 0 ==> w - 1 in done
  }

  function Untouched(c: Setting, m: nat): Progress
    requires m < |c.batch|
  {
    Progress(seq(|c.batch[m].txn.readSet|, _ => Pending), 0)
  }

  lemma QuietIsSeen(c: Setting, f: Fine)
    requires FineShaped(c, f) && Inv(c, Core(f)) && Quiet(f)
    ensures FineInv(c, f, f.rows)
  {
    hide Inv;
    forall k
      ensures ListIn(f.rows, k) == TornList(c, f.work, f.half, k, ListIn(f.rows, k))
    {
      forall v ensures !HalfOn(c, f.work, f.half, k, v) {}
    }
  }

  /** Whatever it still has to read is ready. */
  lemma FindsReady(c: Setting, f: Fine, done: set<nat>, t: nat, p: nat)
    requires FrontAt(c, f, done, t) && Runnable(c, done, t) && p < |c.batch[t].txn.readSet|
    ensures Sought(c, Core(f), t, p).Found? && Sought(c, Core(f), t, p).value.Ready()
  {
    var s := Core(f);
    var k, dones := c.batch[t].txn.readSet[p].key, Dones(s.work);
    var w, before := LastWriter(c.batch, k, t), ListIn(c.before, k);
    SoughtIsSource(c, s, t, p);
    assert LastDone(c, done, t, p);
    if w > 0 {
      assert Finished(c, s, w - 1);
      assert c.batch[w - 1].txn.writeSet[..dones[w - 1]] == c.batch[w - 1].txn.writeSet;
    } else {
      assert ReadsKey(c.batch[t].txn, k);
      assert before != [] && before[0] in before;
    }
  }

  lemma MayMove(c: Setting, f: Fine, done: set<nat>, t: nat)
    requires FrontAt(c, f, done, t) && Runnable(c, done, t) && !Finished(c, Core(f), t)
    ensures InTurn(c, Core(f), t)
  {
    hide Inv;
  }

  /** One more read of a transaction that waits for nobody. */
  lemma ReadsOne(c: Setting, f: Fine, done: set<nat>, t: nat) returns (f': Fine, m: Move)
    requires FrontAt(c, f, done, t) && Runnable(c, done, t) && !AllRead(f.work[t])
    ensures FineStep(c, f, f', m) && FrontAt(c, f', done, t)
    ensures PendingReads(f'.work[t].got) < PendingReads(f.work[t].got) && f'.work[t].done == f.work[t].done
  {
    var s := Core(f);
    var p: nat :| p < |f.work[t].got| && f.work[t].got[p].Pending?;
    FindsReady(c, f, done, t, p);
    MayMove(c, f, done, t);
    var v := Sought(c, s, t, p).value.value;
    m := Reading(t, p);
    f' := f.(work := f.work[t := f.work[t].(got := f.work[t].got[p := Got(v)])]);
    OneReadLess(f.work[t].got, p, v);
    hide Runnable, InTurn, Sought, FrontAt;
    ReadStepKeepsInv(c, s, Core(f'), t, p);
    FrontStays(c, f, f', done, t);
  }

  lemma FrontStays(c: Setting, f: Fine, f': Fine, done: set<nat>, t: nat)
    requires FrontAt(c, f, done, t) && t < |c.batch| && t !in done && FineShaped(c, f') && Inv(c, Core(f')) && f'.half == f.half
    requires f'.work == f.work[t := f'.work[t]]
    ensures FrontAt(c, f', done, t)
  {
    hide Inv;
    forall m | m in done && m < |c.batch|
      ensures Finished(c, Core(f'), m)
    {
      assert Finished(c, Core(f), m);
    }
  }

  /** The mark of its next write. */
  lemma MarksOne(c: Setting, f: Fine, done: set<nat>, t: nat) returns (f': Fine)
    requires FrontAt(c, f, done, t) && Runnable(c, done, t) && AllRead(f.work[t])
    requires f.work[t].done < |c.batch[t].txn.writeSet|
    ensures FineStep(c, f, f', Marking(t)) && FineInv(c, f', f.rows) && FineShaped(c, f')
    ensures f'.work == f.work && f'.half == f.half[t := true] && Writing(c, f', t)
  {
    MayMove(c, f, done, t);
    QuietIsSeen(c, f);
    var k := c.batch[t].txn.writeSet[f.work[t].done];
    f' := Fine(f.rows[k := Zeroed(ListIn(f.rows, k), c.batch[t].txn.id)], f.work, f.half[t := true]);
    hide Runnable, InTurn, Inv, SeenAs;
    MarkKeepsInv(c, f, f', t, f.rows);
    hide FrontAt;
    InTurnSame(c, Core(f), Core(f'), t);
  }

  /** And the copy after it. */
  lemma CopiesOne(c: Setting, f: Fine, g: Fine, done: set<nat>, t: nat) returns (f': Fine)
    requires FrontAt(c, f, done, t) && t < |c.batch| && t !in done && f.work[t].done < |c.batch[t].txn.writeSet|
    requires FineInv(c, g, f.rows) && FineShaped(c, g) && g.work == f.work && g.half == f.half[t := true] && Writing(c, g, t)
    ensures FineStep(c, g, f', Copying(t)) && FrontAt(c, f', done, t) && AllRead(f'.work[t]) && f'.work[t].done == f.work[t].done + 1
  {
    var x, q := c.batch[t].txn, g.work[t].done;
    f' := Fine(g.rows[x.writeSet[q] := Replaced(ListIn(g.rows, x.writeSet[q]), x.id, Row(0, x.output(Values(g.work[t]), q)))],
               g.work[t := g.work[t].(done := q + 1)], g.half[t := false]);
    CopyKeepsInv(c, g, f', t, f.rows);
    assert f'.half == f.half;
    SameInv(c, f', Written(c, g, t, f.rows));
    hide Inv, FineInv, SeenAs, InTurn;
    FrontStays(c, f, f', done, t);
  }

  /** With nobody between two stores the rows are those of the coarse machine. */
  lemma SameInv(c: Setting, f: Fine, rows: Rows)
    requires FineInv(c, f, rows) && Quiet(f)
    ensures Inv(c, Core(f))
  {
    forall k
      ensures ListIn(f.rows, k) == ListIn(rows, k)
    {
      assert ListIn(f.rows, k) == TornList(c, f.work, f.half, k, ListIn(rows, k));
      forall v ensures !HalfOn(c, f.work, f.half, k, v) {}
    }
    hide Lined, HalfOn, SeenAs;
    forall i | 0 <= i < |c.batch|
      ensures ReadsRight(c, Core(f), i)
    {
      assert ReadsRight(c, State(rows, f.work), i);
    }
  }

  lemma Appended(c: Setting, run: seq<Fine>, moves: seq<Move>, f: Fine, m: Move)
    requires FineRun(c, run, moves) && FineShaped(c, run[|moves|]) && FineStep(c, run[|moves|], f, m)
    ensures FineRun(c, run + [f], moves + [m])
  {
    hide FineStep, FineShaped, FineInit;
    var run', moves' := run + [f], moves + [m];
    forall n | 0 <= n < |moves'|
      ensures FineShaped(c, run'[n]) && FineStep(c, run'[n], run'[n + 1], moves'[n])
    {
      if n < |moves| { assert run'[n] == run[n] && run'[n + 1] == run[n + 1]; }
    }
  }

  /** Such a transaction is run until it has read everything. */
  lemma {:induction false} ReadAll(c: Setting, run: seq<Fine>, moves: seq<Move>, done: set<nat>, t: nat)
    returns (run': seq<Fine>, moves': seq<Move>)
    requires FineRun(c, run, moves) && FrontAt(c, run[|moves|], done, t) && Runnable(c, done, t) && t !in done
    ensures FineRun(c, run', moves') && FrontAt(c, run'[|moves'|], done, t) && AllRead(run'[|moves'|].work[t])
    ensures run'[|moves'|].work[t].done == run[|moves|].work[t].done
    decreases PendingReads(run[|moves|].work[t].got)
  {
    assert t < |c.batch|;
    hide FineRun, FineStep, FrontAt, Inv, Shaped, AllRead, Runnable;
    RunSizes(c, run, moves);
    FrontSizes(c, run[|moves|], done, t);
    run', moves' := run, moves;
    if !AllRead(run[|moves|].work[t]) {
      var f', m := ReadsOne(c, run[|moves|], done, t);
      Appended(c, run, moves, f', m);
      run', moves' := ReadAll(c, run + [f'], moves + [m], done, t);
    }
  }

  lemma RunSizes(c: Setting, run: seq<Fine>, moves: seq<Move>)
    requires FineRun(c, run, moves)
    ensures |run| == |moves| + 1
  {}

  lemma FrontSizes(c: Setting, f: Fine, done: set<nat>, t: nat)
    requires FrontAt(c, f, done, t)
    ensures FineShaped(c, f) && |f.work| == |c.batch|
  {}

  /** Then until it has made its first `q` writes. */
  lemma {:induction false} WriteSome(c: Setting, run: seq<Fine>, moves: seq<Move>, done: set<nat>, t: nat, q: nat)
    returns (run': seq<Fine>, moves': seq<Move>)
    requires FineRun(c, run, moves) && FrontAt(c, run[|moves|], done, t) && Runnable(c, done, t) && t !in done
    requires AllRead(run[|moves|].work[t]) && run[|moves|].work[t].done <= q <= |c.batch[t].txn.writeSet|
    ensures FineRun(c, run', moves') && FrontAt(c, run'[|moves'|], done, t) && AllRead(run'[|moves'|].work[t])
    ensures run'[|moves'|].work[t].done == q
    decreases q - run[|moves|].work[t].done
  {
    assert t < |c.batch|;
    hide FineRun, FineStep, FrontAt, Inv, Shaped, AllRead, FineInv, Writing, Runnable;
    RunSizes(c, run, moves);
    FrontSizes(c, run[|moves|], done, t);
    run', moves' := run, moves;
    if run[|moves|].work[t].done < q {
      var f := run[|moves|];
      var g := MarksOne(c, f, done, t);
      Appended(c, run, moves, g, Marking(t));
      var f' := CopiesOne(c, f, g, done, t);
      Appended(c, run + [g], moves + [Marking(t)], f', Copying(t));
      run', moves' := WriteSome(c, run + [g] + [f'], moves + [Marking(t)] + [Copying(t)], done, t, q);
    }
  }

  lemma InitFront(c: Setting) returns (f: Fine)
    requires c.Valid()
    ensures FineInit(c, f) && FrontAt(c, f, {}, 0)
    ensures forall m :: 0 <= m < |c.batch| ==> f.work[m] == Untouched(c, m)
  {
    var work := seq(|c.batch|, m requires 0 <= m < |c.batch| => Untouched(c, m));
    f := Fine(InsertedRows(c), work, seq(|c.batch|, _ => false));
    InsertedRowsAre(c);
    assert Init(c, Core(f));
    InitHasInv(c, Core(f));
  }

  ghost function WrittenKeys(batch: seq<Planned>): set<Key> {
    set i, q | 0 <= i < |batch| && 0 <= q < |batch[i].txn.writeSet| :: batch[i].txn.writeSet[q]
  }

  ghost function InsertedRows(c: Setting): Rows {
    map k | k in c.before.Keys + WrittenKeys(c.batch) :: Inserted(ListIn(c.before, k), c.batch, k, |c.batch|)
  }

  lemma {:induction false} UnwrittenStays(l: seq<Version<Row>>, batch: seq<Planned>, k: Key, n: nat)
    requires n <= |batch| && k !in WrittenKeys(batch)
    ensures Inserted(l, batch, k, n) == l
    decreases n
  {
    if n > 0 { UnwrittenStays(l, batch, k, n - 1); }
  }

  lemma InsertedRowsAre(c: Setting)
    ensures forall k :: ListIn(InsertedRows(c), k) == Inserted(ListIn(c.before, k), c.batch, k, |c.batch|)
  {
    forall k
      ensures ListIn(InsertedRows(c), k) == Inserted(ListIn(c.before, k), c.batch, k, |c.batch|)
    {
      if k !in c.before.Keys + WrittenKeys(c.batch) { UnwrittenStays(ListIn(c.before, k), c.batch, k, |c.batch|); }
    }
  }

  lemma NextFront(c: Setting, f: Fine, done: set<nat>, t: nat, t': nat)
    requires FrontAt(c, f, done, t) && t < |c.batch| && Finished(c, Core(f), t)
    ensures FrontAt(c, f, done + {t}, t')
  {
    hide Inv, Finished;
  }

  /** Who is run before the early read, of the transactions below `t`: all before `j`, and the others of worker `id`. */
  ghost function RunFirst(c: Setting, j: nat, id: nat, t: nat): set<nat>
    requires c.width > 0
  {
    set m | 0 <= m < t && IsFirst(c, j, id, m)
  }

  predicate IsFirst(c: Setting, j: nat, id: nat, m: nat)
    requires c.width > 0
  {
    m < j || WorkerOf(m, c.width) == id
  }

  /** None of them waits for anybody else. */
  lemma FirstAreRunnable(c: Setting, j: nat, id: nat, m: nat)
    requires c.width > 0 && m < |c.batch| && !c.batch[m].skipped && IsFirst(c, j, id, m)
    requires WorkerOf(m, c.width) == id && m >= j ==> forall p: nat :: !Crosses(c, m, p)
    ensures Runnable(c, RunFirst(c, j, id, m), m)
  {
    var done := RunFirst(c, j, id, m);
    hide LastWriter;
    forall l | 0 <= l < m && (m < j || WorkerOf(l, c.width) == WorkerOf(m, c.width))
      ensures l in done
    {
      assert IsFirst(c, j, id, l);
    }
    forall p | 0 <= p < |c.batch[m].txn.readSet|
      ensures LastDone(c, done, m, p)
    {
      assert m >= j ==> !Crosses(c, m, p);
    }
  }

  /** They are run one after another. */
  lemma {:induction false} RunBefore(c: Setting, j: nat, id: nat, t: nat) returns (run: seq<Fine>, moves: seq<Move>)
    requires c.Valid() && t <= |c.batch|
    requires forall m: nat, p: nat :: m < t && WorkerOf(m, c.width) == id && m >= j ==> !Crosses(c, m, p)
    ensures FineRun(c, run, moves) && FrontAt(c, run[|moves|], RunFirst(c, j, id, t), t)
    ensures t < |c.batch| ==> run[|moves|].work[t] == Untouched(c, t)
    decreases t
  {
    if t == 0 {
      var f := InitFront(c);
      run, moves := [f], [];
      assert RunFirst(c, j, id, 0) == {};
    } else {
      run, moves := RunBefore(c, j, id, t - 1);
      hide FineRun, FrontAt, Inv, Shaped, AllRead, Finished, Crosses, Runnable, Setting.Valid;
      RunSizes(c, run, moves);
      var done := RunFirst(c, j, id, t - 1);
      FrontSizes(c, run[|moves|], done, t - 1);
      if IsFirst(c, j, id, t - 1) {
        if !c.batch[t - 1].skipped {
          FirstAreRunnable(c, j, id, t - 1);
          run, moves := RunWhole(c, run, moves, done, t - 1);
          RunSizes(c, run, moves);
          FrontSizes(c, run[|moves|], done, t - 1);
        }
        FinishedIs(c, run[|moves|], done, t - 1);
        NextFront(c, run[|moves|], done, t - 1, t);
        assert RunFirst(c, j, id, t) == done + {t - 1};
      } else {
        PassedOver(c, run[|moves|], done, t - 1);
        assert RunFirst(c, j, id, t) == done;
      }
    }
  }

  lemma RunWhole(c: Setting, run: seq<Fine>, moves: seq<Move>, done: set<nat>, t: nat) returns (run': seq<Fine>, moves': seq<Move>)
    requires FineRun(c, run, moves) && FrontAt(c, run[|moves|], done, t) && Runnable(c, done, t) && t !in done
    requires run[|moves|].work[t] == Untouched(c, t)
    ensures FineRun(c, run', moves') && FrontAt(c, run'[|moves'|], done, t)
    ensures AllRead(run'[|moves'|].work[t]) && run'[|moves'|].work[t].done == |c.batch[t].txn.writeSet|
  {
    assert t < |c.batch|;
    hide FineRun, FrontAt, AllRead, Runnable;
    run', moves' := ReadAll(c, run, moves, done, t);
    run', moves' := WriteSome(c, run', moves', done, t, |c.batch[t].txn.writeSet|);
  }

  lemma PassedOver(c: Setting, f: Fine, done: set<nat>, t: nat)
    requires FrontAt(c, f, done, t) && t < |c.batch| && f.work[t] == Untouched(c, t)
    ensures FrontAt(c, f, done, t + 1)
  {
    hide Inv, Finished;
  }

  lemma FinishedIs(c: Setting, f: Fine, done: set<nat>, t: nat)
    requires FrontAt(c, f, done, t) && t < |c.batch|
    requires c.batch[t].skipped || (AllRead(f.work[t]) && f.work[t].done == |c.batch[t].txn.writeSet|)
    ensures Finished(c, Core(f), t)
  {}

  /** What a reader finds at the last writer before it, between the two stores of that write. */
  lemma FindsTorn(c: Setting, f: Fine, g: Fine, j: nat, i: nat, p: nat)
    requires FineShaped(c, f) && Inv(c, Core(f)) && j < i < |c.batch| && p < |c.batch[i].txn.readSet|
    requires LastWriter(c.batch, c.batch[i].txn.readSet[p].key, i) == j + 1
    requires f.work[j].done < |c.batch[j].txn.writeSet| && c.batch[j].txn.writeSet[f.work[j].done] == c.batch[i].txn.readSet[p].key
    requires FineInv(c, g, f.rows) && g.work == f.work && g.half == f.half[j := true]
    ensures Sought(c, Core(g), i, p) == Found(c.batch[j].txn.id, Row(0, DEFAULT_VALUE))
    ensures HalfOn(c, g.work, g.half, c.batch[i].txn.readSet[p].key, c.batch[j].txn.id)
  {
    SoughtIsSource(c, Core(f), i, p);
    SoughtTorn(c, g, f.rows, i, p);
    assert HalfBy(c, g.work, g.half, j, c.batch[i].txn.readSet[p].key, c.batch[j].txn.id);
  }

  /** The last step of the run is an early read: it takes the placeholder's value for that of the last writer. */
  ghost predicate EndsEarly(c: Setting, run: seq<Fine>, moves: seq<Move>, i: nat, p: nat) {
    && FineRun(c, run, moves) && |moves| > 0 && Early(c, run[|moves| - 1], moves[|moves| - 1])
    && i < |c.batch| && p < |c.batch[i].txn.readSet| && LastWriter(c.batch, c.batch[i].txn.readSet[p].key, i) > 0
    && |run[|moves|].work| == |c.batch| && p < |run[|moves|].work[i].got| && run[|moves|].work[i].got[p] == Got(DEFAULT_VALUE)
  }

  lemma ReadsTorn(c: Setting, run: seq<Fine>, moves: seq<Move>, i: nat, p: nat) returns (f': Fine)
    requires FineRun(c, run, moves) && i < |c.batch| && p < |c.batch[i].txn.readSet|
    requires var g := run[|moves|];
             && FineShaped(c, g) && InTurn(c, Core(g), i) && g.work[i].got[p].Pending?
             && Sought(c, Core(g), i, p).Found? && Sought(c, Core(g), i, p).value == Row(0, DEFAULT_VALUE)
             && HalfOn(c, g.work, g.half, c.batch[i].txn.readSet[p].key, Sought(c, Core(g), i, p).version)
    requires LastWriter(c.batch, c.batch[i].txn.readSet[p].key, i) > 0
    ensures EndsEarly(c, run + [f'], moves + [Reading(i, p)], i, p)
  {
    var g := run[|moves|];
    f' := g.(work := g.work[i := g.work[i].(got := g.work[i].got[p := Got(DEFAULT_VALUE)])]);
    hide HalfOn, InTurn, Sought, LastWriter;
    assert FineStep(c, g, f', Reading(i, p));
    Appended(c, run, moves, f', Reading(i, p));
    assert Early(c, g, Reading(i, p));
    assert (run + [f'])[|moves|] == g;
  }

  lemma WriterOf(batch: seq<Planned>, j: nat, k: Key) returns (q: nat)
    requires j < |batch| && Writes(batch, j, k)
    ensures !batch[j].skipped && q < |batch[j].txn.writeSet| && batch[j].txn.writeSet[q] == k
  {
    q :| 0 <= q < |batch[j].txn.writeSet| && batch[j].txn.writeSet[q] == k;
  }

  /** The reader's worker has come to it, and it has read nothing yet. */
  lemma ReaderMayBegin(c: Setting, f: Fine, done: set<nat>, t: nat, i: nat, p: nat)
    requires FrontAt(c, f, done, t) && i < |c.batch| && i != t && i !in done && !c.batch[i].skipped && p < |c.batch[i].txn.readSet|
    requires forall m :: 0 <= m < i && WorkerOf(m, c.width) == WorkerOf(i, c.width) ==> m in done
    ensures InTurn(c, Core(f), i) && f.work[i].got[p].Pending? && |f.work| == |c.batch|
  {
    assert f.work[i] == Untouched(c, i);
    hide Inv;
    assert f.work[i].got[p].Pending?;
  }

  /** The writer is run until it has come to the row of the key. */
  lemma RunWriter(c: Setting, run: seq<Fine>, moves: seq<Move>, done: set<nat>, j: nat, q: nat)
    returns (run': seq<Fine>, moves': seq<Move>, g: Fine)
    requires FineRun(c, run, moves) && FrontAt(c, run[|moves|], done, j) && Runnable(c, done, j) && j !in done
    requires run[|moves|].work[j] == Untouched(c, j) && q < |c.batch[j].txn.writeSet|
    ensures FineRun(c, run', moves') && FrontAt(c, run'[|moves'|], done, j) && run'[|moves'|].work[j].done == q
    ensures FineStep(c, run'[|moves'|], g, Marking(j)) && FineInv(c, g, run'[|moves'|].rows) && FineShaped(c, g)
    ensures g.work == run'[|moves'|].work && g.half == run'[|moves'|].half[j := true]
  {
    assert j < |c.batch|;
    hide FineRun, FrontAt, AllRead, Runnable, FineInv, FineStep, Writing;
    run', moves' := ReadAll(c, run, moves, done, j);
    run', moves' := WriteSome(c, run', moves', done, j, q);
    g := MarksOne(c, run'[|moves'|], done, j);
  }

  lemma WriterRunnable(c: Setting, j: nat, i: nat)
    requires c.width > 0 && j < i < |c.batch| && !c.batch[j].skipped && WorkerOf(j, c.width) != WorkerOf(i, c.width)
    ensures Runnable(c, RunFirst(c, j, WorkerOf(i, c.width), i), j) && j !in RunFirst(c, j, WorkerOf(i, c.width), i)
    ensures forall m :: 0 <= m < i && WorkerOf(m, c.width) == WorkerOf(i, c.width) ==> m in RunFirst(c, j, WorkerOf(i, c.width), i)
  {
    var done := RunFirst(c, j, WorkerOf(i, c.width), i);
    forall m | 0 <= m < i && (m < j || WorkerOf(m, c.width) == WorkerOf(i, c.width))
      ensures m in done
    {
      assert IsFirst(c, j, WorkerOf(i, c.width), m);
    }
  }

  lemma OthersFront(c: Setting, f: Fine, done: set<nat>, t: nat, j: nat)
    requires FrontAt(c, f, done, t) && j < |c.batch| && j !in done && j != t && (t < |c.batch| ==> f.work[t] == Untouched(c, t))
    ensures FrontAt(c, f, done, j) && f.work[j] == Untouched(c, j)
  {
    hide Inv, Finished;
  }

  /**
   A reader can come between the two stores of the last writer before it when that one
   belongs to another worker, and no earlier transaction of its own worker waits likewise.
   */
  lemma ReaderComesEarly(c: Setting, i: nat, p: nat) returns (run: seq<Fine>, moves: seq<Move>)
    requires c.Valid() && Crosses(c, i, p)
    requires forall m: nat, n: nat :: m < i && WorkerOf(m, c.width) == WorkerOf(i, c.width) ==> !Crosses(c, m, n)
    ensures EndsEarly(c, run, moves, i, p)
  {
    var k := c.batch[i].txn.readSet[p].key;
    var j, id := LastWriter(c.batch, k, i) - 1, WorkerOf(i, c.width);
    var q := WriterOf(c.batch, j, k);
    WriterRunnable(c, j, i);
    run, moves := RunBefore(c, j, id, i);
    var done := RunFirst(c, j, id, i);
    hide *;
    RunSizes(c, run, moves);
    OthersFront(c, run[|moves|], done, i, j);
    var g;
    run, moves, g := RunWriter(c, run, moves, done, j, q);
    NotRunFirst(c, j, id, i);
    run, moves := ThenReads(c, run, moves, g, done, j, i, p);
  }

  lemma ThenReads(c: Setting, run: seq<Fine>, moves: seq<Move>, g: Fine, done: set<nat>, j: nat, i: nat, p: nat)
    returns (run': seq<Fine>, moves': seq<Move>)
    requires FineRun(c, run, moves) && FrontAt(c, run[|moves|], done, j) && FineStep(c, run[|moves|], g, Marking(j))
    requires FineInv(c, g, run[|moves|].rows) && FineShaped(c, g)
    requires g.work == run[|moves|].work && g.half == run[|moves|].half[j := true]
    requires j < i < |c.batch| && i !in done && !c.batch[i].skipped && p < |c.batch[i].txn.readSet|
    requires forall m :: 0 <= m < i && WorkerOf(m, c.width) == WorkerOf(i, c.width) ==> m in done
    requires LastWriter(c.batch, c.batch[i].txn.readSet[p].key, i) == j + 1
    requires run[|moves|].work[j].done < |c.batch[j].txn.writeSet|
    requires c.batch[j].txn.writeSet[run[|moves|].work[j].done] == c.batch[i].txn.readSet[p].key
    ensures EndsEarly(c, run', moves', i, p)
  {
    RunSizes(c, run, moves);
    var f := run[|moves|];
    FrontGives(c, f, done, j);
    hide *;
    Appended(c, run, moves, g, Marking(j));
    FindsTorn(c, f, g, j, i, p);
    ReaderMayBegin(c, f, done, j, i, p);
    FrontGives(c, f, done, j);
    MarkedShapes(c, f, g);
    InTurnSame(c, Core(f), Core(g), i);
    var f' := ReadsTorn(c, run + [g], moves + [Marking(j)], i, p);
    run', moves' := run + [g] + [f'], moves + [Marking(j)] + [Reading(i, p)];
  }

  lemma MarkedShapes(c: Setting, f: Fine, g: Fine)
    requires FineShaped(c, f) && FineShaped(c, g) && g.work == f.work
    ensures Core(g).work == Core(f).work && Shaped(c, Core(g)) && Shaped(c, Core(f)) && |g.work| == |c.batch| && |f.work| == |c.batch|
  {}

  lemma NotRunFirst(c: Setting, j: nat, id: nat, i: nat)
    requires c.width > 0
    ensures i !in RunFirst(c, j, id, i)
  {}

  lemma FrontGives(c: Setting, f: Fine, done: set<nat>, t: nat)
    requires FrontAt(c, f, done, t)
    ensures FineShaped(c, f) && Inv(c, Core(f)) && |f.work| == |c.batch| && c.Valid() && Shaped(c, Core(f))
  {}

  /** The first transaction with such a read. */
  lemma {:induction false} FirstCrossing(c: Setting, n: nat) returns (i: nat, p: nat)
    requires exists m: nat, q: nat :: m < n && Crosses(c, m, q)
    ensures Crosses(c, i, p) && forall m: nat, q: nat :: m < i ==> !Crosses(c, m, q)
    decreases n
  {
    hide Crosses;
    var m: nat, q: nat :| m < n && Crosses(c, m, q);
    if exists m': nat, q': nat :: m' < m && Crosses(c, m', q') {
      i, p := FirstCrossing(c, m);
    } else {
      i, p := m, q;
    }
  }

  ghost predicate EveryRunOnTime(c: Setting) {
    forall run, moves :: FineRun(c, run, moves) ==> OnTime(c, run, moves)
  }

  lemma RunOnTime(c: Setting, run: seq<Fine>, moves: seq<Move>)
    requires FineRun(c, run, moves) && NobodyCrosses(c)
    ensures OnTime(c, run, moves)
  {
    forall n | 0 <= n < |moves|
      ensures !Early(c, run[n], moves[n])
    {
      var rows := FineRunKeepsInv(c, run, moves, n);
      NeverEarly(c, run[n], run[n + 1], moves[n], rows);
    }
  }

  /** With this number of workers no reader can come early if, and only if, nobody reads what another worker wrote last. */
  lemma OnTimeIff(c: Setting)
    requires c.Valid()
    ensures EveryRunOnTime(c) <==> NobodyCrosses(c)
  {
    hide FineRun, OnTime, Setting.Valid, Crosses, EndsEarly;
    if NobodyCrosses(c) {
      forall run, moves | FineRun(c, run, moves) ensures OnTime(c, run, moves) { RunOnTime(c, run, moves); }
    } else {
      var m: nat, q: nat :| Crosses(c, m, q);
      var i, p := FirstCrossing(c, m + 1);
      var run, moves := ReaderComesEarly(c, i, p);
      NotOnTime(c, run, moves, i, p);
    }
  }

  lemma NotOnTime(c: Setting, run: seq<Fine>, moves: seq<Move>, i: nat, p: nat)
    requires EndsEarly(c, run, moves, i, p)
    ensures FineRun(c, run, moves) && !OnTime(c, run, moves)
  {}

  /** No transaction reads a key that an earlier one writes. */
  ghost predicate NoLaterReaders(batch: seq<Planned>) {
    forall j: nat, i: nat, k :: j < i < |batch| && Writes(batch, j, k) && !batch[i].skipped ==> !ReadsKey(batch[i].txn, k)
  }

  lemma NoLaterReaderCrosses(c: Setting)
    requires NoLaterReaders(c.batch)
    ensures NobodyCrosses(c)
  {
    forall i: nat, p: nat
      ensures !Crosses(c, i, p)
    {
      if Crosses(c, i, p) {
        var k := c.batch[i].txn.readSet[p].key;
        assert Writes(c.batch, LastWriter(c.batch, k, i) - 1, k);
        assert ReadsKey(c.batch[i].txn, k);
      }
    }
  }

  /** With a worker for every transaction every later reader crosses. */
  lemma LaterReaderCrosses(c: Setting)
    requires c.width == |c.batch| && !NoLaterReaders(c.batch)
    ensures !NobodyCrosses(c)
  {
    var j: nat, i, k :| j < i < |c.batch| && Writes(c.batch, j, k) && !c.batch[i].skipped && ReadsKey(c.batch[i].txn, k);
    var p :| 0 <= p < |c.batch[i].txn.readSet| && c.batch[i].txn.readSet[p].key == k;
    var w := LastWriter(c.batch, k, i);
    assert w > j;
    WorkerStarts(w - 1, c.width);
    WorkerStarts(i, c.width);
    assert Crosses(c, i, p);
  }

  ghost predicate AlwaysOnTime(batch: seq<Planned>, before: Rows, floor: nat) {
    forall width: nat :: Setting(batch, width, before, floor).Valid() ==> EveryRunOnTime(Setting(batch, width, before, floor))
  }

  lemma WidthDoesNotMatter(batch: seq<Planned>, width: nat, width': nat, before: Rows, floor: nat)
    requires Setting(batch, width, before, floor).Valid() && width' > 0
    ensures Setting(batch, width', before, floor).Valid()
  {}

  /** With any number of workers none can if, and only if, nobody reads what an earlier one writes. */
  lemma AlwaysOnTimeIff(batch: seq<Planned>, before: Rows, floor: nat)
    requires Setting(batch, 1, before, floor).Valid()
    ensures AlwaysOnTime(batch, before, floor) <==> NoLaterReaders(batch)
  {
    hide EveryRunOnTime, Setting.Valid, NobodyCrosses;
    if NoLaterReaders(batch) {
      forall width: nat | Setting(batch, width, before, floor).Valid()
        ensures EveryRunOnTime(Setting(batch, width, before, floor))
      {
        NoLaterReaderCrosses(Setting(batch, width, before, floor));
        OnTimeIff(Setting(batch, width, before, floor));
      }
    } else {
      var c := Setting(batch, |batch|, before, floor);
      WidthDoesNotMatter(batch, 1, |batch|, before, floor);
      LaterReaderCrosses(c);
      OnTimeIff(c);
    }
  }

  // ------------------------------------------------------------------
  // A batch of two
  // ------------------------------------------------------------------

  /** The first writes 5 on key 0, the second copies key 0 to key 1; one worker each. */
  function StoreAndCopy(): Setting {
    var store := Txn(1, [ReadKey(0, false)], [0], vs => Ready, (vs: seq<Value>, q) => 5);
    var copy := Txn(2, [ReadKey(0, false)], [1], vs => Ready, (vs: seq<Value>, q) => if |vs| == 1 then vs[0] else DEFAULT_VALUE);
    Setting([Planned(store, false), Planned(copy, false)], 2, map[0 := [Version(0, Row(0, 7))]], 1)
  }

  lemma StoreAndCopyBatch()
    ensures ValidBatch(StoreAndCopy().batch)
  {}

  lemma StoreAndCopyValid()
    ensures StoreAndCopy().Valid()
  {
    var c := StoreAndCopy();
    StoreAndCopyBatch();
    hide ValidBatch;
    assert c.batch[0].txn.id == 1;
    forall k
      ensures Descending(ListIn(c.before, k)) && SettledList(ListIn(c.before, k), 1)
    {}
    assert forall i :: 0 <= i < |c.batch| ==> c.batch[i].txn.readSet == [ReadKey(0, false)];
  }

  lemma CopyComesAfterStore()
    ensures LastWriter(StoreAndCopy().batch, 0, 1) == 1
    ensures PlannedReads(StoreAndCopy().Initial(), StoreAndCopy().batch, 1)[0] == 5
  {
    var c := StoreAndCopy();
    StoreAndCopyBatch();
    hide ValidBatch, Serial;
    assert c.batch[0].txn.writeSet[0] == 0;
    assert c.batch[0].txn.WritesKey(0);
    SerialKey(c.Initial(), c.batch, 0, 0) by { assert ValidBatch(c.batch); BatchIsDetermined(c.batch); }
  }

  lemma BatchIsDetermined(batch: seq<Planned>)
    requires ValidBatch(batch)
    ensures Determined(batch)
  {}

  /** Run one by one the copy reads 5; in this run it reads the placeholder's value. */
  lemma CopyReadsPlaceholder() returns (run: seq<Fine>, moves: seq<Move>)
    ensures FineRun(StoreAndCopy(), run, moves)
    ensures |run[|moves|].work| == 2 && run[|moves|].work[1].got == [Got(DEFAULT_VALUE)]
    ensures PlannedReads(StoreAndCopy().Initial(), StoreAndCopy().batch, 1)[0] == 5
  {
    StoreAndCopyValid();
    CopyComesAfterStore();
    var c := StoreAndCopy();
    assert c.batch[1].txn.readSet == [ReadKey(0, false)];
    WorkerStarts(0, 2);
    WorkerStarts(1, 2);
    assert Crosses(c, 1, 0);
    hide LastWriter, PlannedReads, Setting.Valid;
    run, moves := ReaderComesEarly(c, 1, 0);
    hide Early;
    EndSizes(c, run, moves, 1, 0);
  }

  lemma EndSizes(c: Setting, run: seq<Fine>, moves: seq<Move>, i: nat, p: nat)
    requires EndsEarly(c, run, moves, i, p)
    ensures |run[|moves|].work| == |c.batch| && |run[|moves|].work[i].got| == |c.batch[i].txn.readSet|
  {
    var n := |moves| - 1;
    assert FineStep(c, run[n], run[n + 1], moves[n]) && FineShaped(c, run[n]);
  }
}
