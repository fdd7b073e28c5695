/**
 Transactions, tables and serial execution: the vocabulary shared by every
 protocol of the repository.

 A transaction is what its stored procedure leaves in its read set and write
 set: the keys it reads (some through a read-only local index), the keys it
 writes, the result its code returns for the values read, and the value it
 computes for each position of the write set.
 */
module Transactions {

  type Key = nat
  type Value = int
  type Table = map<Key, Value>

  /** The hash map default-constructs the row of a key that was never written. */
  const DEFAULT_VALUE: Value := 0

  function Lookup(t: Table, k: Key): Value {
    if k in t then t[k] else DEFAULT_VALUE
  }

  /** The two tables hold the same for a key. */
  ghost predicate SameAt(t1: Table, t2: Table, k: Key) {
    (k in t1 <==> k in t2) && (k in t1 ==> t1[k] == t2[k])
  }

  lemma SameEverywhere(t1: Table, t2: Table)
    requires forall k :: SameAt(t1, t2, k)
    ensures t1 == t2
  {
    forall k
      ensures k in t1 <==> k in t2
      ensures k in t1 ==> t1[k] == t2[k]
    {
      assert SameAt(t1, t2, k);
    }
  }

  /** `localIndex` marks a read of a read-only local index. */
  datatype ReadKey = ReadKey(key: Key, localIndex: bool)

  /** What the stored procedure returns once its reads are there. */
  datatype Outcome = Ready | Abort | AbortNoRetry

  datatype Txn = Txn(
    id: nat,
    readSet: seq<ReadKey>,
    writeSet: seq<Key>,
    outcome: seq<Value> -> Outcome,
    output: (seq<Value>, nat) -> Value)
  {
    predicate ReadOnly() { |writeSet| == 0 }

    /** The key is read through the reservable part of the read set. */
    predicate Reads(k: Key) { exists i :: 0 <= i < |readSet| && readSet[i] == ReadKey(k, false) }

    predicate ReadsIndex(k: Key) { exists i :: 0 <= i < |readSet| && readSet[i] == ReadKey(k, true) }

    predicate WritesKey(k: Key) { k in writeSet }
  }

  function ReadValues(t: Table, x: Txn): (vs: seq<Value>)
    ensures |vs| == |x.readSet|
    ensures forall i :: 0 <= i < |vs| ==> vs[i] == Lookup(t, x.readSet[i].key)
  {
    seq(|x.readSet|, i requires 0 <= i < |x.readSet| => Lookup(t, x.readSet[i].key))
  }

  /** The writes at positions 0..n of the write set, later positions winning. */
  function EffectPrefix(x: Txn, vs: seq<Value>, n: nat): (e: Table)
    requires n <= |x.writeSet|
    ensures forall k :: k in e <==> k in x.writeSet[..n]
  {
    if n == 0 then map[]
    else
      assert x.writeSet[..n] == x.writeSet[..n - 1] + [x.writeSet[n - 1]];
      EffectPrefix(x, vs, n - 1)[x.writeSet[n - 1] := x.output(vs, n - 1)]
  }

  function Effect(x: Txn, vs: seq<Value>): (e: Table)
    ensures forall k :: k in e <==> x.WritesKey(k)
  {
    assert x.writeSet[..|x.writeSet|] == x.writeSet;
    EffectPrefix(x, vs, |x.writeSet|)
  }

  lemma EffectOneMore(t: Table, x: Txn, vs: seq<Value>, n: nat)
    requires n < |x.writeSet|
    ensures t + EffectPrefix(x, vs, n + 1) == (t + EffectPrefix(x, vs, n))[x.writeSet[n] := x.output(vs, n)]
  {}

  /** No key stands twice in the write set. */
  predicate DistinctWrites(x: Txn) {
    forall p, q :: 0 <= p < q < |x.writeSet| ==> x.writeSet[p] != x.writeSet[q]
  }

  /** With distinct keys, the effect on the q-th key is the q-th output. */
  lemma {:induction false} EffectPrefixAt(x: Txn, vs: seq<Value>, n: nat, q: nat)
    requires DistinctWrites(x) && q < n <= |x.writeSet|
    ensures Lookup(EffectPrefix(x, vs, n), x.writeSet[q]) == x.output(vs, q)
    decreases n
  {
    hide *;
    if q == n - 1 {
      OneMoreOutput(x, vs, q);
    } else {
      EffectPrefixAt(x, vs, n - 1, q);
      OutputStays(x, vs, n, q);
    }
  }

  lemma OutputStays(x: Txn, vs: seq<Value>, n: nat, q: nat)
    requires DistinctWrites(x) && q < n - 1 < |x.writeSet|
    ensures Lookup(EffectPrefix(x, vs, n), x.writeSet[q]) == Lookup(EffectPrefix(x, vs, n - 1), x.writeSet[q])
  {
    OneMoreOutput(x, vs, n - 1);
    assert x.writeSet[q] != x.writeSet[n - 1];
  }

  lemma OneMoreOutput(x: Txn, vs: seq<Value>, n: nat)
    requires n < |x.writeSet|
    ensures Lookup(EffectPrefix(x, vs, n + 1), x.writeSet[n]) == x.output(vs, n)
    ensures forall k :: k != x.writeSet[n] ==> Lookup(EffectPrefix(x, vs, n + 1), k) == Lookup(EffectPrefix(x, vs, n), k)
  {
    EffectOneMore(map[], x, vs, n);
    hide EffectPrefix;
    assert map[] + EffectPrefix(x, vs, n + 1) == EffectPrefix(x, vs, n + 1);
    assert map[] + EffectPrefix(x, vs, n) == EffectPrefix(x, vs, n);
  }

  /** One transaction run alone. */
  function Execute(t: Table, x: Txn): Table {
    var vs := ReadValues(t, x);
    if x.outcome(vs).Ready? then t + Effect(x, vs) else t
  }

  /** The transactions run one after another, first to last. */
  function RunSerial(t: Table, xs: seq<Txn>): Table {
    if xs == [] then t else Execute(RunSerial(t, xs[..|xs| - 1]), xs[|xs| - 1])
  }

  lemma {:induction false} RunSerialConcat(t: Table, a: seq<Txn>, b: seq<Txn>)
    ensures RunSerial(t, a + b) == RunSerial(RunSerial(t, a), b)
    decreases |b|
  {
    if b == [] {
      assert a + b == a;
    } else {
      var b' := b[..|b| - 1];
      assert (a + b)[..|a + b| - 1] == a + b';
      RunSerialConcat(t, a, b');
    }
  }

  /** A key `x` writes is read by `y`. */
  ghost predicate Feeds(x: Txn, y: Txn) {
    exists p :: 0 <= p < |y.readSet| && x.WritesKey(y.readSet[p].key)
  }

  ghost predicate Overlap(x: Txn, y: Txn) {
    exists k :: x.WritesKey(k) && y.WritesKey(k)
  }

  /** No transaction of the order writes a key that a later one reads. */
  ghost predicate NothingReadAfterWrite(xs: seq<Txn>) {
    forall i, j :: 0 <= i < j < |xs| ==> !Feeds(xs[i], xs[j])
  }

  ghost predicate DisjointWrites(xs: seq<Txn>) {
    forall i, j :: 0 <= i < j < |xs| ==> !Overlap(xs[i], xs[j])
  }

  ghost predicate AllReady(t: Table, xs: seq<Txn>) {
    forall i :: 0 <= i < |xs| ==> xs[i].outcome(ReadValues(t, xs[i])).Ready?
  }

  ghost predicate SomeWriter(xs: set<Txn>, k: Key) {
    exists x :: x in xs && x.WritesKey(k)
  }

  ghost predicate InstalledAt(t0: Table, t1: Table, xs: set<Txn>, k: Key) {
    && (forall x :: x in xs && x.WritesKey(k) ==> k in t1 && t1[k] == Effect(x, ReadValues(t0, x))[k])
    && (!SomeWriter(xs, k) ==> (k in t1 <==> k in t0) && (k in t1 ==> t1[k] == t0[k]))
  }

  /**
   `t1` is `t0` with the writes of every member of `xs`, each computed from the
   values read in `t0`, and nothing else. It does not matter in which order the
   members stand or their writes were made.
   */
  ghost predicate Installed(t0: Table, t1: Table, xs: set<Txn>) {
    forall k :: InstalledAt(t0, t1, xs, k)
  }

  /** Two results of the same installation are the same table. */
  lemma InstalledUnique(t0: Table, t1: Table, t2: Table, xs: set<Txn>)
    requires Installed(t0, t1, xs) && Installed(t0, t2, xs)
    ensures t1 == t2
  {
    forall k
      ensures k in t1 <==> k in t2
      ensures k in t1 ==> t1[k] == t2[k]
    {
      assert InstalledAt(t0, t1, xs, k) && InstalledAt(t0, t2, xs, k);
      if SomeWriter(xs, k) {
        var x :| x in xs && x.WritesKey(k);
      }
    }
  }

  ghost function Members(xs: seq<Txn>): set<Txn> {
    set x | x in xs
  }

  /** Reading after a conflict-free order is reading before it. */
  lemma ReadsUnmoved(t0: Table, t1: Table, xs: set<Txn>, y: Txn)
    requires Installed(t0, t1, xs)
    requires forall x :: x in xs ==> !Feeds(x, y)
    ensures ReadValues(t1, y) == ReadValues(t0, y)
  {
    forall p | 0 <= p < |y.readSet|
      ensures Lookup(t1, y.readSet[p].key) == Lookup(t0, y.readSet[p].key)
    {
      assert InstalledAt(t0, t1, xs, y.readSet[p].key);
      forall x | x in xs ensures !x.WritesKey(y.readSet[p].key) { assert !Feeds(x, y); }
    }
  }

  /** One more transaction, writing keys nobody in `xs` writes, on values read in `t0`. */
  lemma InstallOneMore(t0: Table, t1: Table, xs: set<Txn>, y: Txn)
    requires Installed(t0, t1, xs)
    requires forall x :: x in xs ==> !Overlap(x, y)
    ensures Installed(t0, t1 + Effect(y, ReadValues(t0, y)), xs + {y})
  {
    var e := Effect(y, ReadValues(t0, y));
    forall k
      ensures InstalledAt(t0, t1 + e, xs + {y}, k)
    {
      assert InstalledAt(t0, t1, xs, k);
      assert y in xs + {y};
      if y.WritesKey(k) {
        assert forall x :: x in xs ==> !x.WritesKey(k) by {
          forall x | x in xs ensures !x.WritesKey(k) { assert !Overlap(x, y); }
        }
      }
      if SomeWriter(xs, k) {
        var x :| x in xs && x.WritesKey(k);
        assert x in xs + {y};
      }
    }
  }

  lemma LastApart(xs: seq<Txn>, n: nat)
    requires NothingReadAfterWrite(xs) && DisjointWrites(xs) && n < |xs|
    ensures forall x :: x in Members(xs[..n]) ==> !Feeds(x, xs[n]) && !Overlap(x, xs[n])
  {
    forall x | x in Members(xs[..n])
      ensures !Feeds(x, xs[n]) && !Overlap(x, xs[n])
    {
      var i :| 0 <= i < n && xs[i] == x;
    }
  }

  /**
   When nothing is read after it was written and no two members write the same
   key, running the order serially installs exactly what every member computes
   from the initial table.
   */
  lemma {:induction false} SerialInstalls(t: Table, xs: seq<Txn>)
    requires NothingReadAfterWrite(xs) && DisjointWrites(xs) && AllReady(t, xs)
    ensures Installed(t, RunSerial(t, xs), Members(xs))
    decreases |xs|
  {
    if xs != [] {
      var n := |xs| - 1;
      var front, last := xs[..n], xs[n];
      SerialInstalls(t, front);
      LastApart(xs, n);
      var t1 := RunSerial(t, front);
      ReadsUnmoved(t, t1, Members(front), last);
      InstallOneMore(t, t1, Members(front), last);
      assert Members(xs) == Members(front) + {last} by { assert xs == front + [last]; }
    }
  }

  /** In such an order every member reads what it reads in the initial table. */
  lemma SerialReads(t: Table, xs: seq<Txn>, j: nat)
    requires NothingReadAfterWrite(xs) && DisjointWrites(xs) && AllReady(t, xs) && j < |xs|
    ensures ReadValues(RunSerial(t, xs[..j]), xs[j]) == ReadValues(t, xs[j])
  {
    SerialInstalls(t, xs[..j]);
    LastApart(xs, j);
    ReadsUnmoved(t, RunSerial(t, xs[..j]), Members(xs[..j]), xs[j]);
  }
}
