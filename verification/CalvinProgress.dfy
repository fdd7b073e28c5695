/**
 When a batch of Calvin's comes to its end: exactly when no transaction of it locks a
 key it writes twice, or any key more than 511 times. Such a transaction waits for
 itself; without one somebody can always go on, and every run can be brought to its end.
 */
module CalvinProgress {
  import opened Transactions
  import opened PlannedBatch
  import opened Sums
  import opened Calvin

  // ------------------------------------------------------------------
  // The condition
  // ------------------------------------------------------------------

  /** The entries of the read set that lock a key. */
  ghost function Entries(x: Txn, k: Key): set<nat> {
    set p: nat | p < |x.readSet| && LocksKey(x, p, k)
  }

  predicate LocksKey(x: Txn, p: nat, k: Key)
    requires p < |x.readSet|
  {
    !Indexed(x, p) && x.readSet[p].key == k
  }

  /** A write lock has one holder; the lock word counts up to 511 readers. */
  function LockLimit(x: Txn, k: Key): nat { if k in x.writeSet then 1 else READ_LOCK_MAX }

  ghost predicate Lockable(x: Txn) {
    forall k :: |Entries(x, k)| <= LockLimit(x, k)
  }

  ghost predicate AllLockable(c: Setting) {
    forall i :: 0 <= i < |c.batch| && !c.batch[i].skipped ==> Lockable(c.TxnAt(i))
  }

  // ------------------------------------------------------------------
  // No deadlock
  // ------------------------------------------------------------------

  /** A worker turning round in its loop with nothing there yet. */
  predicate Polls(s: State, m: Move) {
    (m.LooksAtBit? || m.Pops?) && !s.bit && m.w < |s.queues| && s.queues[m.w] == []
  }

  lemma BusyIs(c: Setting, s: State, w: nat, i: nat)
    requires FullInv(c, s) && IsBusy(s, w, i)
    ensures Shaped(c, s) && AtWork(c, s, w, i) && Active(s.pcs[i])
    ensures s.pcs[i].Reading? ==> |s.pcs[i].values| <= |c.TxnAt(i).readSet|
    ensures s.pcs[i].Writing? ==> s.pcs[i].written <= |c.TxnAt(i).writeSet|
  {
    assert PcOk(c, i, s.pcs[i], i < s.lmTxn);
  }

  lemma ReaderGoesOn(c: Setting, s: State, w: nat, i: nat) returns (m: Move, s': State)
    requires Shaped(c, s) && AtWork(c, s, w, i) && s.pcs[i].Reading? && |s.pcs[i].values| <= |c.TxnAt(i).readSet|
    ensures Step(c, s, s', m) && !Polls(s, m)
  {
    var x, values := c.TxnAt(i), s.pcs[i].values;
    if |values| < |x.readSet| {
      m := Reads(w, i);
      s' := s.(pcs := s.pcs[i := Reading([Lookup(s.table, x.readSet[|x.readSet| - 1 - |values|].key)] + values)]);
      assert Read(c, s, s', w, i);
    } else {
      m := BeginsWriting(w, i);
      s' := s.(pcs := s.pcs[i := Writing(values, 0)]);
      assert BeginWriting(c, s, s', w, i);
    }
  }

  lemma WriterGoesOn(c: Setting, s: State, w: nat, i: nat) returns (m: Move, s': State)
    requires Shaped(c, s) && AtWork(c, s, w, i) && s.pcs[i].Writing? && s.pcs[i].written <= |c.TxnAt(i).writeSet|
    ensures Step(c, s, s', m) && !Polls(s, m)
  {
    var x, q := c.TxnAt(i), s.pcs[i].written;
    if q < |x.writeSet| {
      m := Stores(w, i);
      s' := s.(table := s.table[x.writeSet[q] := x.output(s.pcs[i].values, q)], pcs := s.pcs[i := Writing(s.pcs[i].values, q + 1)]);
      assert Write(c, s, s', w, i);
    } else {
      m := Releases(w, i);
      s' := s.(pcs := s.pcs[i := ReleasingReads(0)]);
      assert Release(c, s, s', w, i);
    }
  }

  lemma ReleaserGoesOn(c: Setting, s: State, w: nat, i: nat) returns (m: Move, s': State)
    requires Shaped(c, s) && AtWork(c, s, w, i) && (s.pcs[i].ReleasingReads? || s.pcs[i].ReleasingWrites?)
    ensures Step(c, s, s', m) && !Polls(s, m)
  {
    var x := c.TxnAt(i);
    m := Releases(w, i);
    match s.pcs[i]
    case ReleasingReads(n) =>
      s' := s.(pcs := s.pcs[i := if n < |x.readSet| then ReleasingReads(n + 1) else ReleasingWrites(0)]);
      assert Release(c, s, s', w, i);
    case ReleasingWrites(n) =>
      s' := if n < |x.writeSet| then s.(pcs := s.pcs[i := ReleasingWrites(n + 1)])
            else s.(pcs := s.pcs[i := Finished], workers := s.workers[w := AtHead]);
      assert Release(c, s, s', w, i);
  }

  /** A transaction at a worker can always go on. */
  lemma BusyGoesOn(c: Setting, s: State, w: nat, i: nat) returns (m: Move, s': State)
    requires FullInv(c, s) && IsBusy(s, w, i)
    ensures Step(c, s, s', m) && !Polls(s, m)
  {
    BusyIs(c, s, w, i);
    hide FullInv, Step, Polls, AtWork;
    if s.pcs[i].Reading? {
      m, s' := ReaderGoesOn(c, s, w, i);
    } else if s.pcs[i].Writing? {
      m, s' := WriterGoesOn(c, s, w, i);
    } else {
      m, s' := ReleaserGoesOn(c, s, w, i);
    }
  }

  /** An idle worker with something in its queue, or with the bit set, does not turn in vain. */
  lemma IdleGoesOn(c: Setting, s: State, w: nat) returns (m: Move, s': State)
    requires FullInv(c, s) && w < |s.workers| && !s.workers[w].Busy? && !s.workers[w].Exited?
    requires s.bit || s.queues[w] != []
    ensures Step(c, s, s', m) && !Polls(s, m)
  {
    match s.workers[w]
    case AtHead =>
      m := LooksAtBit(w);
      s' := s.(workers := s.workers[w := if s.bit then SawBit else InBody]);
    case SawBit =>
      m := LooksAtQueue(w);
      s' := s.(workers := s.workers[w := if s.queues[w] == [] then Exited else InBody]);
    case InBody =>
      m := Pops(w);
      if s.queues[w] == [] {
        s' := s.(workers := s.workers[w := AtHead]);
      } else {
        var i := s.queues[w][0];
        assert InQueue(s, i, w, 0);
        s' := s.(workers := s.workers[w := Busy(i)], queues := s.queues[w := s.queues[w][1..]], pcs := s.pcs[i := Reading([])]);
      }
  }

  ghost predicate AllWaiting(s: State)
    requires |s.workers| == |s.queues|
  {
    !s.bit && forall w :: 0 <= w < |s.workers| ==> s.queues[w] == [] && !s.workers[w].Busy?
  }

  /** With nobody queued and nobody at work, no lock is held but the lock manager's own. */
  lemma NobodyHolds(c: Setting, s: State, i: nat, p: nat)
    requires FullInv(c, s) && AllWaiting(s) && i < s.lmTxn && p < |c.TxnAt(i).readSet|
    ensures !Holds(c, s, i, p)
  {
    assert PcOk(c, i, s.pcs[i], true);
    assert Active(s.pcs[i]) ==> BusySomewhere(s, i);
    assert s.pcs[i].Queued? ==> StandsInQueue(s, i);
  }

  lemma ManagerGoesOn(c: Setting, s: State) returns (m: Move, s': State)
    requires FullInv(c, s) && AllWaiting(s) && AllLockable(c)
    ensures Step(c, s, s', m) && !Polls(s, m)
  {
    var n := s.lmTxn;
    if n == |c.batch| {
      m, s' := SetsBit, s.(bit := true);
    } else if c.batch[n].skipped {
      m, s' := Skips, s.(lmTxn := n + 1, lmPos := 0, pcs := s.pcs[n := Finished]);
    } else if s.lmPos == |c.TxnAt(n).readSet| {
      m := Dispatches;
      var w := s.requestId % |s.queues|;
      s' := if NeedsLock(c.TxnAt(n)) then
              s.(lmTxn := n + 1, lmPos := 0, requestId := s.requestId + 1,
                 pcs := s.pcs[n := Queued], queues := s.queues[w := s.queues[w] + [n]])
            else s.(lmTxn := n + 1, lmPos := 0, pcs := s.pcs[n := Finished]);
    } else {
      m, s' := Grants, s.(lmPos := s.lmPos + 1);
      AlwaysGrantable(c, s);
    }
  }

  function Pairs(n: nat, ps: set<nat>): (r: set<(nat, nat)>)
    ensures forall i, p :: (i, p) in r <==> i == n && p in ps
  {
    set p | p in ps :: (n, p)
  }

  lemma {:induction false} PairsSize(n: nat, ps: set<nat>)
    ensures |Pairs(n, ps)| == |ps|
    decreases |ps|
  {
    if ps == {} {
      assert Pairs(n, ps) == {};
    } else {
      var e :| e in ps;
      PairsSize(n, ps - {e});
      assert Pairs(n, ps) == Pairs(n, ps - {e}) + {(n, e)};
    }
  }

  /** With nobody queued and nobody at work, a key has no holder but earlier entries of the same transaction. */
  lemma OnlyOwnHolders(c: Setting, s: State)
    requires FullInv(c, s) && AllWaiting(s) && s.lmTxn < |c.batch| && s.lmPos < |c.TxnAt(s.lmTxn).readSet|
    ensures var x := c.TxnAt(s.lmTxn);
            var k := x.readSet[s.lmPos].key;
            forall i: nat, p: nat :: HoldsKey(c, s, i, p, k) ==> i == s.lmTxn && p in Entries(x, k) - {s.lmPos}
  {
    var k := c.TxnAt(s.lmTxn).readSet[s.lmPos].key;
    forall i: nat, p: nat
      ensures HoldsKey(c, s, i, p, k) ==> i == s.lmTxn && p in Entries(c.TxnAt(s.lmTxn), k) - {s.lmPos}
    {
      if i < s.lmTxn && p < |c.TxnAt(i).readSet| { NobodyHolds(c, s, i, p); }
    }
  }

  /** Within its limit a transaction never stands in its own way. */
  lemma AlwaysGrantable(c: Setting, s: State)
    requires FullInv(c, s) && AllWaiting(s) && s.lmTxn < |c.batch| && !c.batch[s.lmTxn].skipped
    requires s.lmPos < |c.TxnAt(s.lmTxn).readSet| && Lockable(c.TxnAt(s.lmTxn))
    ensures Grantable(c, s)
  {
    var n, x := s.lmTxn, c.TxnAt(s.lmTxn);
    var k := x.readSet[s.lmPos].key;
    if !Indexed(x, s.lmPos) {
      OnlyOwnHolders(c, s);
      var others := Entries(x, k) - {s.lmPos};
      assert s.lmPos in Entries(x, k) && |others| == |Entries(x, k)| - 1 < LockLimit(x, k);
      assert k in x.writeSet ==> others == {};
      PairsSize(n, others);
      assert Holders(c, s, k) <= Pairs(n, others);
      SubsetSize(Holders(c, s, k), Pairs(n, others));
    }
  }

  lemma {:induction false} SubsetSize<T>(x: set<T>, y: set<T>)
    requires x <= y
    ensures |x| <= |y|
    decreases |x|
  {
    if x != {} {
      var e :| e in x;
      SubsetSize(x - {e}, y - {e});
    }
  }

  lemma NobodyBusy(s: State)
    requires forall w: nat, i: nat :: !IsBusy(s, w, i)
    ensures forall w :: 0 <= w < |s.workers| ==> !s.workers[w].Busy?
  {
    forall w | 0 <= w < |s.workers|
      ensures !s.workers[w].Busy?
    {
      assert s.workers[w].Busy? ==> IsBusy(s, w, s.workers[w].i);
    }
  }

  /** Until all workers have left, there is always a step that is not turning in vain. */
  lemma NeverStuck(c: Setting, s: State) returns (m: Move, s': State)
    requires FullInv(c, s) && !AllExited(s) && AllLockable(c)
    ensures Step(c, s, s', m) && !Polls(s, m)
  {
    if AllWaiting(s) {
      m, s' := ManagerGoesOn(c, s);
    } else if w: nat, i: nat :| IsBusy(s, w, i) {
      m, s' := BusyGoesOn(c, s, w, i);
    } else {
      NobodyBusy(s);
      var w: nat :| w < |s.workers| && !s.workers[w].Busy? && !s.workers[w].Exited? && (s.bit || s.queues[w] != []);
      m, s' := IdleGoesOn(c, s, w);
    }
  }

  // ------------------------------------------------------------------
  // A transaction in its own way
  // ------------------------------------------------------------------

  lemma {:induction false} LastOf(ps: set<nat>) returns (q: nat)
    requires ps != {}
    ensures q in ps && forall p :: p in ps ==> p <= q
    decreases |ps|
  {
    var e :| e in ps;
    q := e;
    if ps - {e} != {} {
      var r := LastOf(ps - {e});
      assert forall p :: p in ps ==> p == e || p in ps - {e};
      if r > e { q := r; }
    } else {
      assert forall p :: p in ps ==> p == e || p in ps - {e};
    }
  }

  /** The lock manager has not passed entry `q` of transaction `i`. */
  predicate NotPast(s: State, i: nat, q: nat) {
    s.lmTxn < i || (s.lmTxn == i && s.lmPos <= q)
  }

  /** `q` is the last of too many entries on one key. */
  ghost predicate TooMany(x: Txn, k: Key, q: nat) {
    && q in Entries(x, k) && (forall p :: p in Entries(x, k) ==> p <= q)
    && |Entries(x, k)| > LockLimit(x, k)
  }

  /** All earlier ones are held when its turn comes, so it is never granted. */
  lemma OwnLocksBlock(c: Setting, s: State, i: nat, k: Key, q: nat)
    requires FullInv(c, s) && i < |c.batch| && !c.batch[i].skipped && TooMany(c.TxnAt(i), k, q)
    requires s.lmTxn == i && s.lmPos == q
    ensures !Grantable(c, s)
  {
    var x := c.TxnAt(i);
    var others := Entries(x, k) - {q};
    assert PcOk(c, i, s.pcs[i], false);
    forall p | p in others
      ensures HoldsKey(c, s, i, p, k)
    {}
    PairsSize(i, others);
    assert Pairs(i, others) <= Holders(c, s, k);
    SubsetSize(Pairs(i, others), Holders(c, s, k));
    assert |others| == |Entries(x, k)| - 1 >= LockLimit(x, k);
    assert others != {};
    var p :| p in others;
    assert HoldsKey(c, s, i, p, k);
    assert LocksKey(x, q, k);
  }

  lemma NeverPassed(c: Setting, s: State, s': State, m: Move, i: nat, k: Key, q: nat)
    requires FullInv(c, s) && Step(c, s, s', m) && i < |c.batch| && !c.batch[i].skipped && TooMany(c.TxnAt(i), k, q)
    requires NotPast(s, i, q)
    ensures NotPast(s', i, q)
  {
    if s.lmTxn == i && s.lmPos == q { OwnLocksBlock(c, s, i, k, q); }
    hide FullInv, Free, NotWriteLocked, Holders, NeedsLock, TooMany;
    assert q < |c.TxnAt(i).readSet| by { InRangeEntry(c.TxnAt(i), k, q); }
  }

  lemma InRangeEntry(x: Txn, k: Key, q: nat)
    requires TooMany(x, k, q)
    ensures q < |x.readSet|
  {}

  /** So in no run does the lock manager get past it. */
  lemma {:induction false} RunNeverPasses(c: Setting, run: seq<State>, n: nat, i: nat, k: Key, q: nat)
    requires Run(c, run) && n < |run| && i < |c.batch| && !c.batch[i].skipped && TooMany(c.TxnAt(i), k, q)
    ensures NotPast(run[n], i, q)
    decreases n
  {
    if n > 0 {
      RunNeverPasses(c, run, n - 1, i, k, q);
      var m := StepOfRun(c, run, n - 1);
      NeverPassed(c, run[n - 1], run[n], m, i, k, q);
    }
  }

  /** And no run comes to its end. */
  lemma NeverFinishes(c: Setting, run: seq<State>, n: nat)
    requires Run(c, run) && n < |run| && !AllLockable(c)
    ensures !AllExited(run[n])
  {
    var i :| 0 <= i < |c.batch| && !c.batch[i].skipped && !Lockable(c.TxnAt(i));
    var k :| |Entries(c.TxnAt(i), k)| > LockLimit(c.TxnAt(i), k);
    var q := LastOf(Entries(c.TxnAt(i), k));
    RunNeverPasses(c, run, n, i, k, q);
    RunKeepsInv(c, run, n);
    hide FullInv, Lockable;
    AllExitedPassed(c, run[n], i, q);
  }

  /** Nobody leaves before the lock manager has been through the batch. */
  lemma AllExitedPassed(c: Setting, s: State, i: nat, q: nat)
    requires FullInv(c, s) && i < |c.batch| && NotPast(s, i, q)
    ensures !AllExited(s)
  {
    assert !s.bit;
    assert !s.workers[0].Exited?;
  }

  // ------------------------------------------------------------------
  // What is left to do
  // ------------------------------------------------------------------

  /** Steps until the transaction is finished, with room for the worker that takes it. */
  function PcWork(x: Txn, pc: Pc): nat {
    var r, w := |x.readSet|, |x.writeSet|;
    match pc
    case Finished => 0
    case ReleasingWrites(n) => Minus(w, n) + 1
    case ReleasingReads(n) => Minus(r, n) + w + 2
    case Writing(_, q) => Minus(w, q) + r + w + 3
    case Reading(values) => Minus(r, |values|) + 2 * w + r + 4
    case Queued => 2 * r + 2 * w + 14
    case NotGranted => 2 * r + 2 * w + 24
  }

  function WorkerWork(w: Worker, empty: bool): nat {
    match w
    case Busy(_) => 5
    case AtHead => if empty then 2 else 5
    case SawBit => if empty then 1 else 4
    case InBody => 3
    case Exited => 0
  }

  function ManagerLeft(c: Setting, i: nat): nat
    decreases |c.batch| - i
  {
    if i >= |c.batch| then 0 else |c.TxnAt(i).readSet| + 1 + ManagerLeft(c, i + 1)
  }

  function ManagerWork(c: Setting, s: State): nat {
    Minus(ManagerLeft(c, s.lmTxn), s.lmPos) + if s.bit then 0 else 1
  }

  ghost function PcWorks(c: Setting, s: State): (f: seq<nat>)
    requires Shaped(c, s)
    ensures |f| == |s.pcs| && forall i :: 0 <= i < |f| ==> f[i] == PcWork(c.TxnAt(i), s.pcs[i])
  {
    seq(|s.pcs|, i requires 0 <= i < |s.pcs| => PcWork(c.TxnAt(i), s.pcs[i]))
  }

  ghost function WorkerWorks(s: State): (f: seq<nat>)
    requires |s.workers| == |s.queues|
    ensures |f| == |s.workers| && forall w :: 0 <= w < |f| ==> f[w] == WorkerWork(s.workers[w], s.queues[w] == [])
  {
    seq(|s.workers|, w requires 0 <= w < |s.workers| => WorkerWork(s.workers[w], s.queues[w] == []))
  }

  ghost function Work(c: Setting, s: State): nat
    requires Shaped(c, s)
  {
    ManagerWork(c, s) + Sum(PcWorks(c, s)) + Sum(WorkerWorks(s))
  }

  lemma OnePcMoves(c: Setting, s: State, s': State, i: nat)
    requires Shaped(c, s) && Shaped(c, s') && i < |s.pcs| && s'.pcs == s.pcs[i := s'.pcs[i]]
    ensures Sum(PcWorks(c, s')) == Sum(PcWorks(c, s)) - PcWork(c.TxnAt(i), s.pcs[i]) + PcWork(c.TxnAt(i), s'.pcs[i])
  {
    SumUpdate(PcWorks(c, s), i, PcWork(c.TxnAt(i), s'.pcs[i]));
    assert PcWorks(c, s') == PcWorks(c, s)[i := PcWork(c.TxnAt(i), s'.pcs[i])];
  }

  lemma OneWorkerMoves(c: Setting, s: State, s': State, w: nat)
    requires Shaped(c, s) && Shaped(c, s') && w < |s.workers| && |s'.workers| == |s.workers|
    requires s'.workers == s.workers[w := s'.workers[w]] && s'.queues == s.queues[w := s'.queues[w]]
    ensures Sum(WorkerWorks(s')) ==
            Sum(WorkerWorks(s)) - WorkerWork(s.workers[w], s.queues[w] == []) + WorkerWork(s'.workers[w], s'.queues[w] == [])
  {
    SumUpdate(WorkerWorks(s), w, WorkerWork(s'.workers[w], s'.queues[w] == []));
    assert WorkerWorks(s') == WorkerWorks(s)[w := WorkerWork(s'.workers[w], s'.queues[w] == [])];
  }

  lemma SamePcs(c: Setting, s: State, s': State)
    requires Shaped(c, s) && Shaped(c, s') && s'.pcs == s.pcs
    ensures PcWorks(c, s') == PcWorks(c, s)
  {}

  lemma SameWorkers(s: State, s': State)
    requires |s.workers| == |s.queues| && s'.workers == s.workers && s'.queues == s.queues
    ensures WorkerWorks(s') == WorkerWorks(s)
  {}

  lemma ManagerStepWorks(c: Setting, s: State, s': State, m: Move)
    requires Shaped(c, s) && Shaped(c, s') && Step(c, s, s', m) && (m.Grants? || m.Skips? || m.Dispatches? || m.SetsBit?)
    requires (s.lmTxn < |c.batch| ==> s.pcs[s.lmTxn].NotGranted?) && (s.bit ==> s.lmTxn == |c.batch|)
    ensures Work(c, s') < Work(c, s)
  {
    hide Sum, Grantable, NeedsLock;
    if m.Grants? || m.SetsBit? {
      SamePcs(c, s, s');
      SameWorkers(s, s');
    } else {
      OnePcMoves(c, s, s', s.lmTxn);
      if s'.pcs[s.lmTxn].Queued? {
        OneWorkerMoves(c, s, s', s.requestId % |s.queues|);
      } else {
        SameWorkers(s, s');
      }
    }
  }

  lemma LookWorks(c: Setting, s: State, s': State, m: Move)
    requires Shaped(c, s) && Shaped(c, s') && Step(c, s, s', m) && !Polls(s, m) && (m.LooksAtBit? || m.LooksAtQueue?)
    ensures Work(c, s') < Work(c, s)
  {
    hide Sum, ManagerLeft;
    SamePcs(c, s, s');
    OneWorkerMoves(c, s, s', m.w);
  }

  lemma PopWorks(c: Setting, s: State, s': State, m: Move)
    requires Shaped(c, s) && Shaped(c, s') && Step(c, s, s', m) && !Polls(s, m) && m.Pops? && FrontQueued(s, m.w)
    ensures Work(c, s') < Work(c, s)
  {
    hide Sum, ManagerLeft;
    OneWorkerMoves(c, s, s', m.w);
    if s.queues[m.w] == [] {
      SamePcs(c, s, s');
    } else {
      OnePcMoves(c, s, s', s.queues[m.w][0]);
    }
  }

  /** A worker's step moves one transaction nearer to its end, and no worker but itself. */
  lemma BusyMoves(c: Setting, s: State, s': State, m: Move)
    requires Shaped(c, s) && Shaped(c, s') && Step(c, s, s', m)
    requires m.Reads? || m.BeginsWriting? || m.Stores? || m.Releases?
    ensures m.i < |s.pcs| && s'.pcs == s.pcs[m.i := s'.pcs[m.i]]
    ensures PcWork(c.TxnAt(m.i), s'.pcs[m.i]) < PcWork(c.TxnAt(m.i), s.pcs[m.i])
    ensures m.w < |s.workers| && s.workers[m.w] == Busy(m.i) && s'.queues == s.queues && s'.bit == s.bit
    ensures s'.lmTxn == s.lmTxn && s'.lmPos == s.lmPos
    ensures s'.workers == s.workers[m.w := s'.workers[m.w]] && (s'.workers[m.w].Busy? || s'.workers[m.w].AtHead?)
  {
    hide Indexed, ForWrite, ReadValues, Lookup;
  }

  lemma BusyWorks(c: Setting, s: State, s': State, m: Move)
    requires Shaped(c, s) && Shaped(c, s') && Step(c, s, s', m)
    requires m.Reads? || m.BeginsWriting? || m.Stores? || m.Releases?
    ensures Work(c, s') < Work(c, s)
  {
    BusyMoves(c, s, s', m);
    hide Step, PcWork, Sum, Shaped;
    OnePcMoves(c, s, s', m.i);
    OneWorkerMoves(c, s, s', m.w);
  }

  /** Every step that is not turning in vain leaves less to do. */
  lemma StepsLeaveLess(c: Setting, s: State, s': State, m: Move)
    requires FullInv(c, s) && Step(c, s, s', m) && !Polls(s, m)
    ensures FullInv(c, s') && Shaped(c, s) && Shaped(c, s') && Work(c, s') < Work(c, s)
  {
    StepKeepsInv(c, s, s', m);
    FullInvGives(c, s);
    FullInvGives(c, s');
    FrontIsQueued(c, s, if m.Pops? then m.w else 0);
    BitTells(c, s);
    hide FullInv, Work, Step, Polls, FrontQueued, Shaped;
    match m
    case Grants => ManagerStepWorks(c, s, s', m);
    case Skips => ManagerStepWorks(c, s, s', m);
    case Dispatches => ManagerStepWorks(c, s, s', m);
    case SetsBit => ManagerStepWorks(c, s, s', m);
    case LooksAtBit(_) => LookWorks(c, s, s', m);
    case LooksAtQueue(_) => LookWorks(c, s, s', m);
    case Pops(_) => PopWorks(c, s, s', m);
    case _ => BusyWorks(c, s, s', m);
  }

  lemma BitTells(c: Setting, s: State)
    requires FullInv(c, s)
    ensures s.bit ==> s.lmTxn == |c.batch|
  {}

  // ------------------------------------------------------------------
  // Coming to an end
  // ------------------------------------------------------------------

  ghost predicate Continues(c: Setting, tail: seq<State>) {
    |tail| > 0 && forall n :: 0 <= n < |tail| - 1 ==> Shaped(c, tail[n]) && SomeStep(c, tail[n], tail[n + 1])
  }

  /** From every state that a run can reach, the batch can be brought to its end. */
  lemma {:induction false} CanFinish(c: Setting, s: State) returns (tail: seq<State>)
    requires FullInv(c, s) && AllLockable(c)
    ensures Continues(c, tail) && tail[0] == s && AllExited(tail[|tail| - 1])
    decreases if Shaped(c, s) then Work(c, s) else 0
  {
    hide FullInv, AllLockable, Step, Polls, Work, AllExited, Shaped;
    if AllExited(s) {
      tail := [s];
    } else {
      var m, s' := NeverStuck(c, s);
      StepsLeaveLess(c, s, s', m);
      var rest := CanFinish(c, s');
      tail := [s] + rest;
      Prepend(c, s, rest, m);
    }
  }

  lemma Prepend(c: Setting, s: State, rest: seq<State>, m: Move)
    requires Continues(c, rest) && Shaped(c, s) && Step(c, s, rest[0], m)
    ensures Continues(c, [s] + rest)
  {
    assert SomeStep(c, s, rest[0]);
    hide Step, SomeStep, Shaped;
    var tail := [s] + rest;
    forall n | 0 <= n < |tail| - 1
      ensures Shaped(c, tail[n]) && SomeStep(c, tail[n], tail[n + 1])
    {
      if n > 0 { assert tail[n] == rest[n - 1] && tail[n + 1] == rest[n - 1 + 1]; }
    }
  }

  function InitialState(c: Setting, workers: nat): State {
    State(c.initial, seq(|c.batch|, _ => NotGranted), 0, 0, false, 0, seq(workers, _ => []), seq(workers, _ => AtHead))
  }

  ghost predicate Finishes(c: Setting, workers: nat, run: seq<State>) {
    Run(c, run) && |run[0].workers| == workers && AllExited(run[|run| - 1])
  }

  /**
   Some run of the batch comes to its end if, and only if, no transaction that
   is not skipped locks a written key twice or any key more than 511 times.
   */
  lemma FinishesIffLockable(c: Setting, workers: nat)
    requires c.Valid() && workers > 0
    ensures (exists run :: Finishes(c, workers, run)) <==> AllLockable(c)
  {
    if AllLockable(c) {
      var s := InitialState(c, workers);
      InitHasInv(c, s);
      var run := CanFinish(c, s);
      assert Finishes(c, workers, run);
    }
    forall run | Run(c, run) && !AllLockable(c)
      ensures !Finishes(c, workers, run)
    {
      NeverFinishes(c, run, |run| - 1);
    }
  }

  /** And then every run, however far it has come, can. */
  lemma EveryRunCanFinish(c: Setting, run: seq<State>) returns (tail: seq<State>)
    requires Run(c, run) && AllLockable(c)
    ensures |tail| > 0 && tail[0] == run[|run| - 1] && Run(c, run + tail[1..])
    ensures AllExited((run + tail[1..])[|run + tail[1..]| - 1])
  {
    RunKeepsInv(c, run, |run| - 1);
    tail := CanFinish(c, run[|run| - 1]);
    var all := run + tail[1..];
    forall n | 0 <= n < |all| - 1
      ensures Shaped(c, all[n]) && SomeStep(c, all[n], all[n + 1])
    {
      if n < |run| - 1 {
        assert SomeStep(c, run[n], run[n + 1]);
      } else {
        var k := n - (|run| - 1);
        assert all[n] == tail[k] && all[n + 1] == tail[k + 1];
      }
    }
  }

  // ------------------------------------------------------------------
  // Two batches of one transaction
  // ------------------------------------------------------------------

  function OneTxn(writeSet: seq<Key>): Setting {
    Setting([Planned(Txn(1, [ReadKey(7, false), ReadKey(7, false)], writeSet, vs => Ready, (vs, q) => DEFAULT_VALUE), false)],
            map[7 := 0], {})
  }

  lemma WrittenTwice()
    ensures OneTxn([7]).Valid() && !AllLockable(OneTxn([7]))
  {
    var c := OneTxn([7]);
    var x := c.TxnAt(0);
    assert x.readSet[0] == ReadKey(7, false);
    assert Entries(x, 7) == {0, 1};
    assert |Entries(x, 7)| > LockLimit(x, 7);
    assert !Lockable(x);
  }

  lemma ReadTwice()
    ensures OneTxn([]).Valid() && AllLockable(OneTxn([]))
  {
    var x := OneTxn([]).TxnAt(0);
    forall k
      ensures |Entries(x, k)| <= LockLimit(x, k)
    {
      assert Entries(x, k) <= {0, 1};
      SubsetSize(Entries(x, k), {0, 1});
    }
  }

  /** It locks key 7 twice: to write it, and no run ever ends; only to read it, and some run does. */
  lemma TwiceLocked(workers: nat)
    requires workers > 0
    ensures OneTxn([7]).Valid() && !(exists run :: Finishes(OneTxn([7]), workers, run))
    ensures OneTxn([]).Valid() && exists run :: Finishes(OneTxn([]), workers, run)
  {
    WrittenTwice();
    ReadTwice();
    hide AllLockable, Finishes, OneTxn;
    FinishesIffLockable(OneTxn([7]), workers);
    FinishesIffLockable(OneTxn([]), workers);
  }
}
