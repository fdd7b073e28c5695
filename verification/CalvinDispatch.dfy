/**
 Which worker runs which transaction under Calvin: the lock manager deals those that take
 a lock out to the workers in turn, in the order of the batch, and each worker runs its
 own in that order.
 */
module CalvinDispatch {
  import opened Transactions
  import opened PlannedBatch
  import opened Calvin

  predicate Dealt(c: Setting, i: nat)
    requires i < |c.batch|
  {
    !c.batch[i].skipped && NeedsLock(c.TxnAt(i))
  }

  /** How many of the first `n` transactions are dealt out. */
  function Ordinal(c: Setting, n: nat): nat
    requires n <= |c.batch|
  {
    if n == 0 then 0 else Ordinal(c, n - 1) + if Dealt(c, n - 1) then 1 else 0
  }

  /** Worker `w` is the one whose turn it is for transaction `i`. */
  ghost predicate IsTurnOf(c: Setting, width: nat, w: nat, i: nat) {
    width > 0 && i < |c.batch| && Dealt(c, i) && Ordinal(c, i) % width == w
  }

  /** What stands in the queue of worker `w`: its own, in the order of the batch. */
  ghost predicate QueueInTurn(c: Setting, width: nat, w: nat, queue: seq<nat>, upto: nat) {
    && (forall a :: 0 <= a < |queue| ==> IsTurnOf(c, width, w, queue[a]) && queue[a] < upto)
    && (forall a, b :: 0 <= a < b < |queue| ==> queue[a] < queue[b])
  }

  /** What it is running comes before all that. */
  ghost predicate WorkerInTurn(c: Setting, width: nat, w: nat, worker: Worker, queue: seq<nat>) {
    worker.Busy? ==> IsTurnOf(c, width, w, worker.i) && forall a :: 0 <= a < |queue| ==> worker.i < queue[a]
  }

  ghost predicate InTurn(c: Setting, width: nat, s: State) {
    && Shaped(c, s) && |s.queues| == width > 0 && s.requestId == Ordinal(c, s.lmTxn)
    && forall w :: 0 <= w < width ==>
         QueueInTurn(c, width, w, s.queues[w], s.lmTxn) && WorkerInTurn(c, width, w, s.workers[w], s.queues[w])
         && (s.workers[w].Busy? ==> s.workers[w].i < s.lmTxn)
  }

  lemma LaterBound(c: Setting, width: nat, w: nat, queue: seq<nat>, upto: nat)
    requires QueueInTurn(c, width, w, queue, upto)
    ensures QueueInTurn(c, width, w, queue, upto + 1)
  {
    hide IsTurnOf;
  }

  lemma OneMoreQueued(c: Setting, width: nat, w: nat, queue: seq<nat>, i: nat)
    requires QueueInTurn(c, width, w, queue, i) && IsTurnOf(c, width, w, i)
    ensures QueueInTurn(c, width, w, queue + [i], i + 1)
  {
    hide IsTurnOf;
  }

  lemma DealKeepsTurns(c: Setting, width: nat, s: State, s': State)
    requires InTurn(c, width, s) && (Dispatch(c, s, s') || Skip(c, s, s')) && Shaped(c, s')
    ensures InTurn(c, width, s')
  {
    var i := s.lmTxn;
    assert s'.requestId == Ordinal(c, i + 1);
    var w' := s.requestId % |s.queues|;
    assert Dealt(c, i) ==> IsTurnOf(c, width, w', i);
    hide QueueInTurn, IsTurnOf, Ordinal;
    forall w | 0 <= w < width
      ensures QueueInTurn(c, width, w, s'.queues[w], i + 1) && WorkerInTurn(c, width, w, s'.workers[w], s'.queues[w])
      ensures s'.workers[w].Busy? ==> s'.workers[w].i < i + 1
    {
      if s'.queues[w] == s.queues[w] {
        LaterBound(c, width, w, s.queues[w], i);
      } else {
        OneMoreQueued(c, width, w, s.queues[w], i);
      }
    }
  }

  lemma PopKeepsTurns(c: Setting, width: nat, s: State, s': State, w: nat)
    requires InTurn(c, width, s) && Pop(c, s, s', w) && Shaped(c, s')
    ensures InTurn(c, width, s')
  {
    var queue := s.queues[w];
    assert QueueInTurn(c, width, w, queue, s.lmTxn);
    if queue != [] {
      assert forall a :: 0 <= a < |queue[1..]| ==> queue[1..][a] == queue[a + 1];
      hide IsTurnOf;
    }
  }

  /** All other steps leave the queues alone, and nobody takes up anything. */
  lemma OtherKeepsTurns(c: Setting, width: nat, s: State, s': State)
    requires InTurn(c, width, s) && Shaped(c, s')
    requires s'.queues == s.queues && s'.lmTxn == s.lmTxn && s'.requestId == s.requestId && |s'.workers| == |s.workers|
    requires forall w :: 0 <= w < |s.workers| && s'.workers[w].Busy? ==> s'.workers[w] == s.workers[w]
    ensures InTurn(c, width, s')
  {
    hide QueueInTurn, IsTurnOf, Ordinal;
    forall w | 0 <= w < width
      ensures WorkerInTurn(c, width, w, s'.workers[w], s'.queues[w])
    {
      assert WorkerInTurn(c, width, w, s.workers[w], s.queues[w]);
    }
  }

  lemma OtherStep(c: Setting, s: State, s': State, m: Move)
    requires Shaped(c, s) && Step(c, s, s', m) && !m.Dispatches? && !m.Skips? && !m.Pops?
    ensures s'.queues == s.queues && s'.lmTxn == s.lmTxn && s'.requestId == s.requestId && |s'.workers| == |s.workers|
    ensures forall w :: 0 <= w < |s.workers| && s'.workers[w].Busy? ==> s'.workers[w] == s.workers[w]
  {
    hide Grantable;
  }

  lemma {:induction false} RunKeepsTurns(c: Setting, run: seq<State>, n: nat)
    requires Run(c, run) && n < |run|
    ensures InTurn(c, |run[0].queues|, run[n])
    decreases n
  {
    RunKeepsInv(c, run, n);
    hide Inv, QueuesOk, BitOk, InTurn, Step;
    if n == 0 {
      StartsInTurn(c, run[0]);
    } else {
      RunKeepsTurns(c, run, n - 1);
      assert SomeStep(c, run[n - 1], run[n - 1 + 1]);
      var m :| Step(c, run[n - 1], run[n], m);
      InvShaped(c, run[n]);
      StepKeepsTurns(c, |run[0].queues|, run[n - 1], run[n], m);
    }
  }

  lemma InvShaped(c: Setting, s: State)
    requires FullInv(c, s)
    ensures Shaped(c, s)
  {
    hide QueuesOk, BitOk;
  }

  lemma StartsInTurn(c: Setting, s: State)
    requires Init(c, s)
    ensures InTurn(c, |s.queues|, s)
  {}

  lemma StepKeepsTurns(c: Setting, width: nat, s: State, s': State, m: Move)
    requires InTurn(c, width, s) && Shaped(c, s') && Shaped(c, s) && Step(c, s, s', m)
    ensures InTurn(c, width, s')
  {
    hide InTurn, Dispatch, Skip, Pop;
    match m
    case Dispatches => DealKeepsTurns(c, width, s, s');
    case Skips => DealKeepsTurns(c, width, s, s');
    case Pops(w) => PopKeepsTurns(c, width, s, s', w);
    case _ =>
      OtherStep(c, s, s', m);
      OtherKeepsTurns(c, width, s, s');
  }

  /**
   In every run: the transaction that a worker is running, and those that wait in its
   queue, are ones that fall to it when all are dealt out in turn, and they ascend.
   */
  lemma DealtInTurn(c: Setting, run: seq<State>, n: nat, w: nat)
    requires Run(c, run) && n < |run| && w < |run[0].queues|
    ensures var s, width := run[n], |run[0].queues|;
            && |s.queues| == |s.workers| == width
            && (s.workers[w].Busy? ==> IsTurnOf(c, width, w, s.workers[w].i))
            && (forall a :: 0 <= a < |s.queues[w]| ==>
                  IsTurnOf(c, width, w, s.queues[w][a]) && (s.workers[w].Busy? ==> s.workers[w].i < s.queues[w][a]))
            && (forall a, b :: 0 <= a < b < |s.queues[w]| ==> s.queues[w][a] < s.queues[w][b])
  {
    RunKeepsTurns(c, run, n);
    hide IsTurnOf;
  }

  /** A worker never goes back to an earlier transaction. */
  lemma {:induction false} WorkerAscends(c: Setting, run: seq<State>, n: nat, m: nat, w: nat)
    requires Run(c, run) && n <= m < |run| && w < |run[0].queues|
    requires |run[n].workers| == |run[m].workers| == |run[0].queues|
    requires run[n].workers[w].Busy? && run[m].workers[w].Busy?
    ensures run[n].workers[w].i <= run[m].workers[w].i
    decreases m
  {
    hide Run;
    StaysPast(c, run, n, m, w, run[n].workers[w].i);
  }

  /** All of worker `w` that is still to come lies past `i`. */
  ghost predicate Past(s: State, w: nat, i: nat) {
    && w < |s.workers| && w < |s.queues| && i < s.lmTxn
    && (s.workers[w].Busy? ==> i <= s.workers[w].i) && forall a :: 0 <= a < |s.queues[w]| ==> i < s.queues[w][a]
  }

  lemma {:induction false} StaysPast(c: Setting, run: seq<State>, n: nat, m: nat, w: nat, i: nat)
    requires Run(c, run) && n <= m < |run| && w < |run[0].queues|
    requires |run[n].workers| == |run[0].queues| && run[n].workers[w] == Busy(i)
    ensures Past(run[m], w, i)
    decreases m
  {
    hide *;
    if n == m {
      RunKeepsTurns(c, run, m);
      PastItself(c, |run[0].queues|, run[m], w, i);
    } else {
      StaysPast(c, run, n, m - 1, w, i);
      var mv := StepAt(c, run, m - 1);
      StepStaysPast(c, run[m - 1], run[m], mv, w, i);
    }
  }

  lemma PastItself(c: Setting, width: nat, s: State, w: nat, i: nat)
    requires InTurn(c, width, s) && w < width && |s.workers| == width && s.workers[w] == Busy(i)
    ensures Past(s, w, i)
  {
    hide IsTurnOf, Ordinal;
    assert WorkerInTurn(c, width, w, s.workers[w], s.queues[w]);
  }

  lemma StepAt(c: Setting, run: seq<State>, n: nat) returns (m: Move)
    requires Run(c, run) && n + 1 < |run|
    ensures Shaped(c, run[n]) && Step(c, run[n], run[n + 1], m)
  {
    hide Step, Shaped, Init;
    m :| Step(c, run[n], run[n + 1], m);
  }

  lemma StepStaysPast(c: Setting, s: State, s': State, m: Move, w: nat, i: nat)
    requires Shaped(c, s) && Step(c, s, s', m) && Past(s, w, i)
    ensures Past(s', w, i)
  {
    hide Grantable;
  }
}
