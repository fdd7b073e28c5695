/**
 A batch whose read and write sets are known before it runs, and its serial run in the
 order of the batch: what Bohm and Calvin have in common.
 */
module PlannedBatch {
  import opened Transactions

  /** A transaction of the batch; `skipped` when its procedure ended with "abort, no retry" while its sets were prepared. */
  datatype Planned = Planned(txn: Txn, skipped: bool)

  /** No key stands twice in a write set; whoever runs is ready once its reads are there. */
  ghost predicate Determined(batch: seq<Planned>) {
    && (forall i :: 0 <= i < |batch| ==> DistinctWrites(batch[i].txn))
    && (forall i, vs :: 0 <= i < |batch| ==>
          batch[i].txn.outcome(vs) == if batch[i].skipped then AbortNoRetry else Ready)
  }

  predicate Writes(batch: seq<Planned>, i: nat, k: Key)
    requires i < |batch|
  {
    !batch[i].skipped && batch[i].txn.WritesKey(k)
  }

  // ------------------------------------------------------------------
  // Serial execution, transaction by transaction
  // ------------------------------------------------------------------

  function Txns(batch: seq<Planned>): (xs: seq<Txn>)
    ensures |xs| == |batch| && forall i :: 0 <= i < |xs| ==> xs[i] == batch[i].txn
  {
    seq(|batch|, i requires 0 <= i < |batch| => batch[i].txn)
  }

  /** The table before transaction `i` of the serial run. */
  function Serial(t0: Table, batch: seq<Planned>, i: nat): Table
    requires i <= |batch|
  {
    RunSerial(t0, Txns(batch)[..i])
  }

  lemma SerialStep(t0: Table, batch: seq<Planned>, i: nat)
    requires i < |batch|
    ensures Serial(t0, batch, 0) == t0
    ensures Serial(t0, batch, i + 1) == Execute(Serial(t0, batch, i), batch[i].txn)
  {
    assert Txns(batch)[..i + 1][..i] == Txns(batch)[..i];
  }

  /** What transaction `i` leaves on a key: its output when it writes it, and otherwise nothing new. */
  lemma SerialKey(t0: Table, batch: seq<Planned>, i: nat, k: Key)
    requires Determined(batch) && i < |batch|
    ensures !Writes(batch, i, k) ==> SameAt(Serial(t0, batch, i + 1), Serial(t0, batch, i), k)
    ensures !batch[i].skipped ==> forall q :: 0 <= q < |batch[i].txn.writeSet| && batch[i].txn.writeSet[q] == k ==>
              k in Serial(t0, batch, i + 1) &&
              Lookup(Serial(t0, batch, i + 1), k) == batch[i].txn.output(ReadValues(Serial(t0, batch, i), batch[i].txn), q)
  {
    SerialStep(t0, batch, i);
    var x, t := batch[i].txn, Serial(t0, batch, i);
    var vs := ReadValues(t, x);
    assert x.outcome(vs) == if batch[i].skipped then AbortNoRetry else Ready;
    if !batch[i].skipped {
      forall q | 0 <= q < |x.writeSet| && x.writeSet[q] == k
        ensures Effect(x, vs)[k] == x.output(vs, q)
      {
        EffectPrefixAt(x, vs, |x.writeSet|, q);
      }
    }
  }

  /** Between two writers a key stays. */
  lemma {:induction false} SerialBetween(t0: Table, batch: seq<Planned>, k: Key, w: nat, i: nat)
    requires Determined(batch) && w <= i <= |batch|
    requires forall j :: w <= j < i ==> !Writes(batch, j, k)
    ensures SameAt(Serial(t0, batch, i), Serial(t0, batch, w), k)
    decreases i
  {
    hide Serial;
    if w < i {
      SerialBetween(t0, batch, k, w, i - 1);
      SerialKey(t0, batch, i - 1, k);
    }
  }

  /** The values transaction `i` has to read. */
  function PlannedReads(t0: Table, batch: seq<Planned>, i: nat): seq<Value>
    requires i < |batch|
  {
    ReadValues(Serial(t0, batch, i), batch[i].txn)
  }

  lemma SerialAll(t0: Table, batch: seq<Planned>)
    ensures Serial(t0, batch, |batch|) == RunSerial(t0, Txns(batch))
  {
    assert Txns(batch)[..|batch|] == Txns(batch);
  }
}
