/**
 When a transaction can commit under two-phase locking without waiting. Left to itself it
 commits whenever the locks that others hold allow it, shared readers included; and a
 transaction that locks twice a key it writes refuses itself and never commits.
 */
module TwoPLProgress {
  import opened Transactions
  import opened TwoPL

  /** No key that is locked for writing is locked at another position. */
  ghost predicate LocksOnce(x: Txn) {
    forall p, q :: 0 <= p < |x.readSet| && 0 <= q < |x.readSet| && p != q && ForWrite(x, p) && !Indexed(x, q) ==>
      x.readSet[p].key != x.readSet[q].key
  }

  /** Nobody else holds a lock that keeps attempt `i` from one of its own. */
  ghost predicate OutOfTheWay(s: State, i: nat) {
    && i < |s.attempts| && |s.attempts[i].slots| == |s.attempts[i].txn.readSet|
    && forall p: nat, j: nat, q: int :: p < |s.attempts[i].slots| && j < |s.attempts| && j != i && !Indexed(s.attempts[i].txn, p) ==>
         var k := s.attempts[i].txn.readSet[p].key;
         !HoldsForWrite(s.attempts[j], q, k) && (ForWrite(s.attempts[i].txn, p) ==> !Holds(s.attempts[j], q, k))
  }

  ghost predicate NotBegun(a: Attempt) {
    a.phase.Running? && !a.abortLock && forall p :: 0 <= p < |a.slots| ==> a.slots[p].Waiting?
  }

  ghost predicate Path(indexKeys: set<Key>, tail: seq<State>) {
    |tail| > 0 && forall n :: 0 <= n < |tail| - 1 ==> SomeStep(indexKeys, tail[n], tail[n + 1])
  }

  lemma Extend(indexKeys: set<Key>, tail: seq<State>, s: State, m: Move)
    requires Path(indexKeys, tail) && Step(indexKeys, tail[|tail| - 1], s, m)
    ensures Path(indexKeys, tail + [s]) && (tail + [s])[|tail|] == s && |tail + [s]| == |tail| + 1 && (tail + [s])[0] == tail[0]
  {
    hide Step;
    assert SomeStep(indexKeys, tail[|tail| - 1], s);
    forall n | 0 <= n < |tail|
      ensures SomeStep(indexKeys, (tail + [s])[n], (tail + [s])[n + 1])
    {
      if n < |tail| - 1 { assert (tail + [s])[n] == tail[n] && (tail + [s])[n + 1] == tail[n + 1]; }
    }
  }

  // ------------------------------------------------------------------
  // The growing phase
  // ------------------------------------------------------------------

  function SlotAt(s: State, x: Txn, q: nat): Slot
    requires q < |x.readSet|
  {
    Got(Lookup(s.table, x.readSet[q].key), TidOf(s, x.readSet[q].key))
  }

  /** Attempt `i` has locked and read its first `n` positions. */
  function Grown(s: State, i: nat, n: nat): Attempt
    requires i < |s.attempts|
  {
    var a := s.attempts[i];
    a.(slots := seq(|a.txn.readSet|, q requires 0 <= q < |a.txn.readSet| => if q < n then SlotAt(s, a.txn, q) else Waiting))
  }

  function With(s: State, i: nat, a: Attempt): State
    requires i < |s.attempts|
  {
    s.(attempts := s.attempts[i := a])
  }

  /** It can be granted its next lock: those it has itself are on other keys, or for reading like this one. */
  lemma NextLockIsFree(s: State, i: nat, n: nat)
    requires OutOfTheWay(s, i) && n < |s.attempts[i].txn.readSet| && LocksOnce(s.attempts[i].txn) && !Indexed(s.attempts[i].txn, n)
    ensures var k, g := s.attempts[i].txn.readSet[n].key, With(s, i, Grown(s, i, n));
            if ForWrite(s.attempts[i].txn, n) then Free(g, k) else NotWriteLocked(g, k)
  {
    var x, k, g := s.attempts[i].txn, s.attempts[i].txn.readSet[n].key, With(s, i, Grown(s, i, n));
    forall j, p | 0 <= j < |g.attempts|
      ensures !HoldsForWrite(g.attempts[j], p, k) && (ForWrite(x, n) ==> !Holds(g.attempts[j], p, k))
    {
      if j == i && Holds(g.attempts[j], p, k) {
        assert p < n && !Indexed(x, p);
      }
    }
  }

  lemma LockAndRead(indexKeys: set<Key>, s: State, i: nat, n: nat) returns (mid: State)
    requires OutOfTheWay(s, i) && n < |s.attempts[i].txn.readSet| && LocksOnce(s.attempts[i].txn) && s.attempts[i].phase.Running?
    ensures Grant(With(s, i, Grown(s, i, n)), mid, i, n) && Read(mid, With(s, i, Grown(s, i, n + 1)), i, n)
  {
    var g, a := With(s, i, Grown(s, i, n)), Grown(s, i, n);
    if !Indexed(a.txn, n) { NextLockIsFree(s, i, n); }
    hide Free, NotWriteLocked, LocksOnce, OutOfTheWay;
    mid := With(g, i, a.(slots := a.slots[n := Locked]));
    assert Grown(s, i, n + 1).slots == mid.attempts[i].slots[n := SlotAt(s, a.txn, n)];
    assert With(s, i, Grown(s, i, n + 1)).attempts == mid.attempts[i := Grown(s, i, n + 1)];
  }

  lemma {:induction false} Grow(indexKeys: set<Key>, s: State, i: nat, n: nat) returns (tail: seq<State>)
    requires OutOfTheWay(s, i) && n <= |s.attempts[i].txn.readSet| && LocksOnce(s.attempts[i].txn) && NotBegun(s.attempts[i])
    ensures Path(indexKeys, tail) && tail[0] == s && tail[|tail| - 1] == With(s, i, Grown(s, i, n))
    decreases n
  {
    if n == 0 {
      assert Grown(s, i, 0).slots == s.attempts[i].slots;
      tail := [s];
    } else {
      tail := Grow(indexKeys, s, i, n - 1);
      var mid := LockAndRead(indexKeys, s, i, n - 1);
      hide *;
      assert Step(indexKeys, tail[|tail| - 1], mid, Grants(i, n - 1)) by { StepOfGrant(indexKeys, tail[|tail| - 1], mid, i, n - 1); }
      Extend(indexKeys, tail, mid, Grants(i, n - 1));
      tail := tail + [mid];
      var g := With(s, i, Grown(s, i, n));
      StepOfRead(indexKeys, mid, g, i, n - 1);
      Extend(indexKeys, tail, g, Reads(i, n - 1));
      tail := tail + [g];
    }
  }

  lemma StepOfGrant(indexKeys: set<Key>, s: State, s': State, i: nat, p: nat)
    requires Grant(s, s', i, p)
    ensures Step(indexKeys, s, s', Grants(i, p))
  {
    hide Grant;
  }

  lemma StepOfRead(indexKeys: set<Key>, s: State, s': State, i: nat, p: nat)
    requires Read(s, s', i, p)
    ensures Step(indexKeys, s, s', Reads(i, p))
  {
    hide Read;
  }

  // ------------------------------------------------------------------
  // The commit
  // ------------------------------------------------------------------

  /** Attempt `i` has decided to commit and has written its first `n` keys; all else is as in `s`. */
  ghost predicate WrittenUpTo(s: State, f: State, i: nat, n: nat) {
    && i < |s.attempts| && |f.attempts| == |s.attempts| && (forall j :: 0 <= j < |s.attempts| && j != i ==> f.attempts[j] == s.attempts[j])
    && var x, vs, a := s.attempts[i].txn, ReadValues(s.table, s.attempts[i].txn), f.attempts[i];
       && n <= |x.writeSet| && a.txn == x && |a.slots| == |x.readSet|
       && a.phase.Committing? && a.phase.values == vs && a.phase.written == n
       && f.order == s.order + [x] && f.table == s.table + EffectPrefix(x, vs, n)
  }

  lemma GrownCanCommit(s: State, i: nat)
    requires i < |s.attempts| && s.attempts[i].phase.Running? && !s.attempts[i].abortLock
    requires var x := s.attempts[i].txn; x.outcome(ReadValues(s.table, x)).Ready?
    ensures var a := Grown(s, i, |s.attempts[i].txn.readSet|);
            CanCommit(a) && ValuesOf(a) == ReadValues(s.table, a.txn) && |a.slots| == |a.txn.readSet|
  {
    var a := Grown(s, i, |s.attempts[i].txn.readSet|);
    assert ValuesOf(a) == ReadValues(s.table, a.txn);
  }

  lemma Decide(indexKeys: set<Key>, s: State, i: nat) returns (f: State)
    requires i < |s.attempts| && s.attempts[i].phase.Running? && !s.attempts[i].abortLock
    requires var x := s.attempts[i].txn; x.outcome(ReadValues(s.table, x)).Ready?
    ensures Step(indexKeys, With(s, i, Grown(s, i, |s.attempts[i].txn.readSet|)), f, DecidesCommit(i))
    ensures WrittenUpTo(s, f, i, 0) && AllGot(f.attempts[i])
  {
    var n := |s.attempts[i].txn.readSet|;
    var g, a := With(s, i, Grown(s, i, n)), Grown(s, i, n);
    GrownCanCommit(s, i);
    GrownIs(s, i, n);
    NoEffectYet(a.txn, ValuesOf(a));
    hide Grown, ReadValues, MaxOf, ValuesOf, TidsOf, EffectPrefix, AllGot;
    var tid := MaxOf(TidsOf(a), MaxTidOf(g, a.worker)) + 1;
    f := g.(maxTids := g.maxTids[a.worker := tid], order := g.order + [a.txn],
            attempts := g.attempts[i := a.(phase := Committing(ValuesOf(a), tid, 0))]);
    assert DecideCommit(g, f, i);
  }

  lemma NoEffectYet(x: Txn, vs: seq<Value>)
    ensures EffectPrefix(x, vs, 0) == map[]
  {}

  lemma GrownIs(s: State, i: nat, n: nat)
    requires i < |s.attempts|
    ensures Grown(s, i, n).txn == s.attempts[i].txn && Grown(s, i, n).phase == s.attempts[i].phase && Grown(s, i, n).worker == s.attempts[i].worker
  {}

  lemma WriteNext(indexKeys: set<Key>, s: State, f: State, i: nat, n: nat) returns (f': State)
    requires WrittenUpTo(s, f, i, n) && n < |s.attempts[i].txn.writeSet| && AllGot(f.attempts[i])
    ensures Step(indexKeys, f, f', Writes(i)) && WrittenUpTo(s, f', i, n + 1) && AllGot(f'.attempts[i])
  {
    var a := f.attempts[i];
    EffectOneMore(s.table, a.txn, a.phase.values, n);
    hide EffectPrefix, ReadValues;
    f' := f.(table := f.table[a.txn.writeSet[n] := a.txn.output(a.phase.values, n)],
             attempts := f.attempts[i := a.(phase := a.phase.(written := n + 1))]);
    assert Write(f, f', i);
  }

  lemma {:induction false} WriteAll(indexKeys: set<Key>, s: State, tail: seq<State>, i: nat, n: nat) returns (tail': seq<State>)
    requires Path(indexKeys, tail) && WrittenUpTo(s, tail[|tail| - 1], i, 0) && AllGot(tail[|tail| - 1].attempts[i])
    requires n <= |s.attempts[i].txn.writeSet|
    ensures Path(indexKeys, tail') && tail'[0] == tail[0]
    ensures WrittenUpTo(s, tail'[|tail'| - 1], i, n) && AllGot(tail'[|tail'| - 1].attempts[i])
    decreases n
  {
    if n == 0 {
      tail' := tail;
    } else {
      tail' := WriteAll(indexKeys, s, tail, i, n - 1);
      hide WrittenUpTo, AllGot, Path, Step;
      var f := WriteNext(indexKeys, s, tail'[|tail'| - 1], i, n - 1);
      Extend(indexKeys, tail', f, Writes(i));
      tail' := tail' + [f];
    }
  }

  /** And it has given back its first `n` positions. */
  ghost predicate FreedUpTo(s: State, f: State, i: nat, n: nat) {
    && i < |s.attempts| && WrittenUpTo(s, f, i, |s.attempts[i].txn.writeSet|)
    && forall p :: 0 <= p < |f.attempts[i].slots| ==> if p < n then f.attempts[i].slots[p].Freed? else f.attempts[i].slots[p].Got?
  }

  lemma SameAgain(s: State, f: State, i: nat, q: nat)
    requires i < |s.attempts| && WrittenUpTo(s, f, i, |s.attempts[i].txn.writeSet|) && DistinctWrites(s.attempts[i].txn)
    requires q < |s.attempts[i].txn.writeSet|
    ensures var x := s.attempts[i].txn; f.table[x.writeSet[q] := x.output(f.attempts[i].phase.values, q)] == f.table
  {
    var x, vs := s.attempts[i].txn, ReadValues(s.table, s.attempts[i].txn);
    EffectPrefixAt(x, vs, |x.writeSet|, q);
    hide ReadValues;
    assert x.writeSet[..|x.writeSet|] == x.writeSet;
    assert x.writeSet[q] in EffectPrefix(x, vs, |x.writeSet|);
  }

  lemma FreeNext(indexKeys: set<Key>, s: State, f: State, i: nat, n: nat) returns (f': State, m: Move)
    requires FreedUpTo(s, f, i, n) && n < |s.attempts[i].txn.readSet| && DistinctWrites(s.attempts[i].txn)
    ensures Step(indexKeys, f, f', m) && FreedUpTo(s, f', i, n + 1)
  {
    var a := f.attempts[i];
    var a' := a.(slots := a.slots[n := Freed]);
    if ForWrite(a.txn, n) {
      var q :| 0 <= q < |a.txn.writeSet| && a.txn.writeSet[q] == a.txn.readSet[n].key;
      SameAgain(s, f, i, q);
      f' := f.(tids := f.tids[a.txn.writeSet[q] := a.phase.tid], attempts := f.attempts[i := a']);
      m := ReleasesWrite(i, n, q);
      assert ReleaseWrite(f, f', i, n, q);
    } else {
      f', m := f.(attempts := f.attempts[i := a']), ReleasesRead(i, n);
      assert ReleaseRead(f, f', i, n);
    }
  }

  lemma {:induction false} FreeAll(indexKeys: set<Key>, s: State, tail: seq<State>, i: nat, n: nat) returns (tail': seq<State>)
    requires Path(indexKeys, tail) && FreedUpTo(s, tail[|tail| - 1], i, 0) && DistinctWrites(s.attempts[i].txn)
    requires n <= |s.attempts[i].txn.readSet|
    ensures Path(indexKeys, tail') && tail'[0] == tail[0] && FreedUpTo(s, tail'[|tail'| - 1], i, n)
    decreases n
  {
    if n == 0 {
      tail' := tail;
    } else {
      tail' := FreeAll(indexKeys, s, tail, i, n - 1);
      hide FreedUpTo, Path, Step, DistinctWrites;
      var f, m := FreeNext(indexKeys, s, tail'[|tail'| - 1], i, n - 1);
      Extend(indexKeys, tail', f, m);
      tail' := tail' + [f];
    }
  }

  /** The attempt is over and its transaction committed: its effect is in the table, and nobody else has moved. */
  ghost predicate CommittedIn(s: State, f: State, i: nat) {
    && i < |s.attempts| && |f.attempts| == |s.attempts| && (forall j :: 0 <= j < |s.attempts| && j != i ==> f.attempts[j] == s.attempts[j])
    && var x := s.attempts[i].txn;
       && f.attempts[i].phase.Done? && f.attempts[i].txn == x && f.order == s.order + [x]
       && f.table == s.table + Effect(x, ReadValues(s.table, x))
  }

  lemma FinishIt(indexKeys: set<Key>, s: State, f: State, i: nat) returns (f': State)
    requires i < |s.attempts| && FreedUpTo(s, f, i, |s.attempts[i].txn.readSet|)
    ensures Step(indexKeys, f, f', Finishes(i)) && CommittedIn(s, f', i)
  {
    var x := s.attempts[i].txn;
    hide EffectPrefix, ReadValues;
    f' := f.(attempts := f.attempts[i := f.attempts[i].(phase := Done)]);
    assert AllFreed(f.attempts[i]);
    assert Finish(f, f', i);
    assert Effect(x, ReadValues(s.table, x)) == EffectPrefix(x, ReadValues(s.table, x), |x.writeSet|);
  }

  lemma NowFree(s: State, f: State, i: nat)
    requires i < |s.attempts| && WrittenUpTo(s, f, i, |s.attempts[i].txn.writeSet|) && AllGot(f.attempts[i])
    ensures FreedUpTo(s, f, i, 0)
  {
    hide EffectPrefix, ReadValues;
  }

  lemma {:induction false} Commits(indexKeys: set<Key>, s: State, i: nat) returns (tail: seq<State>)
    requires OutOfTheWay(s, i) && NotBegun(s.attempts[i]) && LocksOnce(s.attempts[i].txn) && DistinctWrites(s.attempts[i].txn)
    requires var x := s.attempts[i].txn; x.outcome(ReadValues(s.table, x)).Ready?
    ensures Path(indexKeys, tail) && tail[0] == s && CommittedIn(s, tail[|tail| - 1], i)
  {
    var x := s.attempts[i].txn;
    assert i < |s.attempts| && s.attempts[i].phase.Running? && !s.attempts[i].abortLock;
    tail := Grow(indexKeys, s, i, |x.readSet|);
    hide *;
    var f := Decide(indexKeys, s, i);
    Extend(indexKeys, tail, f, DecidesCommit(i));
    tail := WriteAll(indexKeys, s, tail + [f], i, |x.writeSet|);
    NowFree(s, tail[|tail| - 1], i);
    tail := FreeAll(indexKeys, s, tail, i, |x.readSet|);
    f := FinishIt(indexKeys, s, tail[|tail| - 1], i);
    Extend(indexKeys, tail, f, Finishes(i));
    tail := tail + [f];
  }

  lemma {:induction false} RunOn(t0: Table, indexKeys: set<Key>, run: seq<State>, tail: seq<State>)
    requires Run(t0, indexKeys, run) && Path(indexKeys, tail) && tail[0] == run[|run| - 1]
    ensures Run(t0, indexKeys, run + tail[1..]) && (run + tail[1..])[|run + tail[1..]| - 1] == tail[|tail| - 1]
  {
    var all := run + tail[1..];
    forall n | 0 <= n < |all| - 1
      ensures SomeStep(indexKeys, all[n], all[n + 1])
    {
      if n >= |run| - 1 {
        var k := n - (|run| - 1);
        assert all[n] == tail[k] && all[n + 1] == tail[k + 1];
      } else {
        assert all[n] == run[n] && all[n + 1] == run[n + 1];
      }
    }
  }

  /**
   Wherever a run has come: a transaction that has not begun, and in whose way no lock of
   another stands, can commit at once. Locks that others hold for reading are in nobody's
   way who only reads.
   */
  lemma UndisturbedCommits(t0: Table, indexKeys: set<Key>, run: seq<State>, i: nat) returns (tail: seq<State>)
    requires Run(t0, indexKeys, run) && OutOfTheWay(run[|run| - 1], i) && NotBegun(run[|run| - 1].attempts[i])
    requires var x := run[|run| - 1].attempts[i].txn;
             LocksOnce(x) && x.outcome(ReadValues(run[|run| - 1].table, x)).Ready?
    ensures |tail| > 0 && Run(t0, indexKeys, run + tail[1..]) && (run + tail[1..])[|run + tail[1..]| - 1] == tail[|tail| - 1]
    ensures tail[0] == run[|run| - 1] && CommittedIn(run[|run| - 1], tail[|tail| - 1], i)
  {
    var s := run[|run| - 1];
    RunKeepsInv(t0, indexKeys, run, |run| - 1);
    assert AttemptOk(Serial(t0, s), s.tids, indexKeys, s.attempts[i]);
    hide LocksOnce, OutOfTheWay, NotBegun, Run, Path, CommittedIn, Inv, AttemptOk;
    tail := Commits(indexKeys, s, i);
    PathNotEmpty(indexKeys, tail);
    RunOn(t0, indexKeys, run, tail);
  }

  lemma PathNotEmpty(indexKeys: set<Key>, tail: seq<State>)
    requires Path(indexKeys, tail)
    ensures |tail| > 0
  {}

  /** A transaction that locks twice a key it writes stands in its own way: it never comes to commit. */
  lemma NeverTwice(t0: Table, indexKeys: set<Key>, run: seq<State>, n: nat, i: nat)
    requires Run(t0, indexKeys, run) && n < |run| && i < |run[n].attempts| && CanCommit(run[n].attempts[i])
    ensures LocksOnce(run[n].attempts[i].txn)
  {
    var a := run[n].attempts[i];
    RunKeepsInv(t0, indexKeys, run, n);
    assert AttemptOk(Serial(t0, run[n]), run[n].tids, indexKeys, a);
    forall p, q | 0 <= p < |a.txn.readSet| && 0 <= q < |a.txn.readSet| && p != q && ForWrite(a.txn, p) && !Indexed(a.txn, q)
      ensures a.txn.readSet[p].key != a.txn.readSet[q].key
    {
      var k := a.txn.readSet[p].key;
      assert HoldsForWrite(a, p, k);
      assert Holds(a, q, k) <==> a.txn.readSet[q].key == k;
    }
  }

  ghost predicate CommitsFirst(t0: Table, indexKeys: set<Key>, run: seq<State>, x: Txn) {
    Run(t0, indexKeys, run) && |run[|run| - 1].order| > 0 && run[|run| - 1].order[0] == x
  }

  /** Where the first commit was decided. */
  lemma {:induction false} FirstDecision(t0: Table, indexKeys: set<Key>, run: seq<State>, x: Txn, n: nat)
    requires Run(t0, indexKeys, run) && n < |run| && |run[n].order| > 0 && run[n].order[0] == x
    ensures LocksOnce(x) && x.outcome(ReadValues(t0, x)).Ready?
    decreases n
  {
    hide LocksOnce, ReadValues;
    var s, s' := run[n - 1], run[n - 1 + 1];
    assert SomeStep(indexKeys, s, s');
    var m :| Step(indexKeys, s, s', m);
    if |s.order| > 0 {
      OrderKept(indexKeys, s, s', m);
      FirstDecision(t0, indexKeys, run, x, n - 1);
    } else {
      OrderKept(indexKeys, s, s', m);
      assert DecideCommit(s, s', m.i);
      CommitsReadSerially(t0, indexKeys, run, n - 1, m.i);
      NeverTwice(t0, indexKeys, run, n - 1, m.i);
      FirstIsReady(t0, s, s', m.i, x);
    }
  }

  lemma FirstIsReady(t0: Table, s: State, s': State, i: nat, x: Txn)
    requires DecideCommit(s, s', i) && s.order == [] && |s'.order| > 0 && s'.order[0] == x
    requires ValuesOf(s.attempts[i]) == ReadValues(RunSerial(t0, s.order), s.attempts[i].txn)
    ensures x == s.attempts[i].txn && x.outcome(ReadValues(t0, x)).Ready?
  {}

  lemma OrderKept(indexKeys: set<Key>, s: State, s': State, m: Move)
    requires Step(indexKeys, s, s', m)
    ensures if m.DecidesCommit? then m.i < |s.attempts| && s'.order == s.order + [s.attempts[m.i].txn] else s'.order == s.order
  {
    hide Free, NotWriteLocked, ValidTxn, MaxOf, CanCommit;
  }

  lemma CommitsAlone(t0: Table, indexKeys: set<Key>, x: Txn) returns (run: seq<State>)
    requires ValidTxn(x, indexKeys) && LocksOnce(x) && x.outcome(ReadValues(t0, x)).Ready?
    ensures CommitsFirst(t0, indexKeys, run, x)
  {
    var s0 := State(t0, map[], map[], [], []);
    var s := s0.(attempts := [Attempt(x, 0, seq(|x.readSet|, _ => Waiting), false, Running)]);
    assert Start(s0, s, x, 0, indexKeys);
    assert Step(indexKeys, s0, s, Starts(x, 0));
    assert SomeStep(indexKeys, s0, s);
    var begun := [s0, s];
    assert Run(t0, indexKeys, begun) && begun[|begun| - 1] == s;
    assert OutOfTheWay(s, 0) && NotBegun(s.attempts[0]);
    hide LocksOnce, OutOfTheWay, NotBegun, Run, SomeStep;
    var tail := UndisturbedCommits(t0, indexKeys, begun, 0);
    run := begun + tail[1..];
  }

  /**
   A transaction can be the first to commit if and only if it locks no key twice that it
   writes, and its procedure ends ready on the initial table.
   */
  lemma CommittableIff(t0: Table, indexKeys: set<Key>, x: Txn)
    requires ValidTxn(x, indexKeys)
    ensures (exists run :: CommitsFirst(t0, indexKeys, run, x)) <==> LocksOnce(x) && x.outcome(ReadValues(t0, x)).Ready?
  {
    if LocksOnce(x) && x.outcome(ReadValues(t0, x)).Ready? {
      var run := CommitsAlone(t0, indexKeys, x);
    }
    if run :| CommitsFirst(t0, indexKeys, run, x) {
      FirstDecision(t0, indexKeys, run, x, |run| - 1);
    }
  }
}
