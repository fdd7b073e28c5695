/**
 That the interleaved phases of a micro-block come to an end: until it is over there is
 always a step that is not a spurious failure of a swap, every such step brings the block
 nearer to its end, and so every run can be completed.
 */
module MicroBlockProgress {
  import opened Transactions
  import opened AriaHelper
  import opened Aria
  import opened ProdccExecutor
  import opened ProdccMicroBlock
  import opened MicroBlockInterleaving
  import opened Sums

  // ------------------------------------------------------------------
  // A word that is held can be swapped
  // ------------------------------------------------------------------

  /** The word that was loaded asks for a store. */
  ghost predicate Swappable(c: Setting, s: State, i: nat)
    requires Shaped(c, s) && i < |c.xs|
  {
    s.places[i].Holding? && 1 <= s.places[i].n < 1 + Accesses(c.xs[i]) ==>
      && Usable(s.places[i].word, c.epoch, c.xs[i].id)
      && Propose(KindAt(c.xs[i], s.places[i].n - 1), s.places[i].word, c.epoch, c.xs[i].id).Store?
  }

  ghost predicate FullInv(c: Setting, s: State) {
    Inv(c, s) && forall i :: 0 <= i < |c.xs| ==> Swappable(c, s, i)
  }

  lemma MoverSwappable(c: Setting, s: State, s': State, i: nat)
    requires Shaped(c, s) && Shaped(c, s') && TxnStep(c, s, s', i) && Swappable(c, s, i)
    ensures Swappable(c, s', i)
    ensures forall j :: 0 <= j < |c.xs| && j != i ==> s'.places[j] == s.places[j]
  {
    hide Executed, Filled, Analyzed, Finalized, GetEpoch, Length;
  }

  lemma StepKeepsFullInv(c: Setting, s: State, s': State)
    requires FullInv(c, s) && Step(c, s, s')
    ensures FullInv(c, s')
  {
    StepKeepsInv(c, s, s');
    InvShapes(c, s);
    InvShapes(c, s');
    hide Inv, PhaseStep, TxnStep, Swappable;
    if PhaseStep(c, s, s') {
      StartSwappable(c, s, s');
    } else {
      var i: nat :| TxnStep(c, s, s', i);
      StepMoves(c, s, s', i);
      MoverSwappable(c, s, s', i);
      forall j | 0 <= j < |c.xs| && j != i { StillSwappable(c, s, s', j); }
    }
  }

  lemma StepMoves(c: Setting, s: State, s': State, i: nat)
    requires Shaped(c, s) && TxnStep(c, s, s', i)
    ensures i < |c.xs|
  {}

  lemma StillSwappable(c: Setting, s: State, s': State, j: nat)
    requires Shaped(c, s) && Shaped(c, s') && j < |c.xs| && Swappable(c, s, j) && s'.places[j] == s.places[j]
    ensures Swappable(c, s', j)
  {}

  lemma StartSwappable(c: Setting, s: State, s': State)
    requires Shaped(c, s) && Shaped(c, s') && PhaseStep(c, s, s')
    ensures forall j :: 0 <= j < |c.xs| ==> Swappable(c, s', j)
  {}

  // ------------------------------------------------------------------
  // What is left to do
  // ------------------------------------------------------------------

  function PhasesLeft(p: Phase): nat {
    match p
    case ExecutePhase => 5
    case ReservePhase => 4
    case AnalyzePhase => 3
    case FinalizePhase => 2
    case CleanupPhase => 1
    case Over => 0
  }

  /** The steps that each transaction still has to make in the phase. */
  ghost function StepsLeft(c: Setting, s: State): (f: seq<nat>)
    requires Shaped(c, s)
    ensures |f| == |c.xs| && forall i :: 0 <= i < |f| ==> f[i] == Minus(Length(c, s, i), s.places[i].n)
  {
    seq(|c.xs|, i requires 0 <= i < |c.xs| => Minus(Length(c, s, i), s.places[i].n))
  }

  /** A swap about to succeed is 1 step away, a load 2, a swap about to fail 3. */
  function Distance(x: Txn, words: map<Key, Word>, place: Place): nat {
    match place
    case At(_) => 2
    case Holding(n, w) => if 1 <= n < 1 + Accesses(x) && WordOf(words, KeyAt(x, n - 1)) == w then 1 else 3
  }

  ghost function Distances(c: Setting, s: State): (f: seq<nat>)
    requires Shaped(c, s)
    ensures |f| == |c.xs| && forall i :: 0 <= i < |f| ==> f[i] == Distance(c.xs[i], s.words, s.places[i])
  {
    seq(|c.xs|, i requires 0 <= i < |c.xs| => Distance(c.xs[i], s.words, s.places[i]))
  }

  ghost predicate Nearer(c: Setting, s: State, s': State)
    requires Shaped(c, s) && Shaped(c, s')
  {
    || PhasesLeft(s'.phase) < PhasesLeft(s.phase)
    || (s'.phase == s.phase && Sum(StepsLeft(c, s')) < Sum(StepsLeft(c, s)))
    || (s'.phase == s.phase && Sum(StepsLeft(c, s')) == Sum(StepsLeft(c, s)) && Sum(Distances(c, s')) < Sum(Distances(c, s)))
  }

  /** A weak swap that fails although the word is the one that was loaded. */
  ghost predicate Spurious(c: Setting, s: State, s': State, i: nat)
    requires Shaped(c, s) && i < |c.xs|
  {
    && s.places[i].Holding? && s'.places == s.places[i := At(s.places[i].n)]
    && Distance(c.xs[i], s.words, s.places[i]) == 1
  }

  /** In the reserve phase: one access further, or a load, or a failed swap. */
  lemma ReserveKinds(c: Setting, s: State, s': State, i: nat)
    requires Shaped(c, s) && i < |c.xs| && 1 <= s.places[i].n < 1 + Accesses(c.xs[i]) && ReserveStep(c, s, s', i)
    ensures s'.phase == s.phase && s'.block == s.block && s'.places == s.places[i := s'.places[i]]
    ensures s'.places[i].n == s.places[i].n + 1 || Retried(c, s, s', i)
  {
    hide Propose, GetEpoch, Usable;
  }

  ghost predicate Retried(c: Setting, s: State, s': State, i: nat)
    requires Shaped(c, s) && i < |c.xs|
  {
    && |s'.places| == |c.xs| && s'.places[i].n == s.places[i].n && s'.words == s.words
    && ((s.places[i].At? && s'.places[i].Holding? && Distance(c.xs[i], s'.words, s'.places[i]) == 1)
        || (s.places[i].Holding? && s'.places[i].At?))
  }

  lemma OthersLength(c: Setting, s: State, s': State, i: nat)
    requires Shaped(c, s) && Shaped(c, s') && i < |c.xs| && s'.phase == s.phase && s'.block == s.block[i := s'.block[i]]
    requires s'.block[i].txn == s.block[i].txn
    requires s'.block[i].Active() ==> s.block[i].Active() || s.phase == ExecutePhase
    ensures forall j :: 0 <= j < |c.xs| && j != i ==> Length(c, s', j) == Length(c, s, j)
    ensures Length(c, s', i) <= Length(c, s, i) && (s'.block == s.block ==> Length(c, s', i) == Length(c, s, i))
  {
    hide Reserves;
  }

  lemma OneMover(c: Setting, s: State, s': State, i: nat)
    requires Shaped(c, s) && Shaped(c, s') && TxnStep(c, s, s', i)
    ensures i < |c.xs| && s'.phase == s.phase && s'.places == s.places[i := s'.places[i]] && s'.block == s.block[i := s'.block[i]]
    ensures s'.places[i].n == s.places[i].n + 1 || (Retried(c, s, s', i) && s'.block == s.block)
  {
    if s.phase == ReservePhase && s.places[i].n > 0 { ReserveKinds(c, s, s', i); }
    hide ReserveStep, Executed, Filled, Analyzed, Finalized, Retried;
  }

  /** What a step does to its transaction: one step further, or a load, or a failed swap. */
  lemma StepKinds(c: Setting, s: State, s': State, i: nat)
    requires Shaped(c, s) && Shaped(c, s') && TxnStep(c, s, s', i)
    ensures i < |c.xs| && s'.phase == s.phase && s'.places == s.places[i := s'.places[i]]
    ensures forall j :: 0 <= j < |c.xs| && j != i ==> Length(c, s', j) == Length(c, s, j)
    ensures (s'.places[i].n == s.places[i].n + 1 && Length(c, s', i) <= Length(c, s, i))
            || (Retried(c, s, s', i) && Length(c, s', i) == Length(c, s, i))
  {
    OneMover(c, s, s', i);
    ActiveShrinks(c, s, s', i);
    hide TxnStep, Length, Retried;
    OthersLength(c, s, s', i);
  }

  lemma ActiveShrinks(c: Setting, s: State, s': State, i: nat)
    requires Shaped(c, s) && TxnStep(c, s, s', i)
    ensures s'.block[i].txn == s.block[i].txn && (s'.block[i].Active() ==> s.block[i].Active() || s.phase == ExecutePhase)
  {
    PhasesKeepTxn(c, s, s.block[i]);
    if s.phase == ReservePhase && s.places[i].n > 0 { ReserveKeepsBlock(c, s, s', i); }
    hide Executed, Filled, Analyzed, Finalized, ReserveStep, Length;
  }

  lemma PhasesKeepTxn(c: Setting, s: State, b: TxnState)
    ensures Executed(s.table, b).txn == b.txn
    ensures Filled(b).txn == b.txn && (Filled(b).Active() ==> b.Active())
    ensures Analyzed(c.o, s.words, c.epoch, b).txn == b.txn && (Analyzed(c.o, s.words, c.epoch, b).Active() ==> b.Active())
    ensures Finalized(c.o, b).txn == b.txn && (Finalized(c.o, b).Active() ==> b.Active())
  {
    hide RawTest, WarTest, WawTest, Granted, ReadValues;
  }

  lemma ReserveKeepsBlock(c: Setting, s: State, s': State, i: nat)
    requires Shaped(c, s) && i < |c.xs| && 1 <= s.places[i].n < 1 + Accesses(c.xs[i])
    ensures ReserveStep(c, s, s', i) ==> s'.block == s.block
  {
    hide Propose, GetEpoch, Usable;
  }

  lemma OneStepLess(c: Setting, s: State, s': State, i: nat)
    requires Shaped(c, s) && Shaped(c, s') && i < |c.xs| && s'.places == s.places[i := s'.places[i]]
    requires forall j :: 0 <= j < |c.xs| && j != i ==> Length(c, s', j) == Length(c, s, j)
    ensures Sum(StepsLeft(c, s')) ==
            Sum(StepsLeft(c, s)) - Minus(Length(c, s, i), s.places[i].n) + Minus(Length(c, s', i), s'.places[i].n)
  {
    hide Length;
    SumUpdate(StepsLeft(c, s), i, Minus(Length(c, s', i), s'.places[i].n));
    assert StepsLeft(c, s') == StepsLeft(c, s)[i := Minus(Length(c, s', i), s'.places[i].n)];
  }

  lemma OneDistanceLess(c: Setting, s: State, s': State, i: nat)
    requires Shaped(c, s) && Shaped(c, s') && i < |c.xs| && s'.places == s.places[i := s'.places[i]] && s'.words == s.words
    ensures Sum(Distances(c, s')) ==
            Sum(Distances(c, s)) - Distance(c.xs[i], s.words, s.places[i]) + Distance(c.xs[i], s'.words, s'.places[i])
  {
    hide Distance;
    SumUpdate(Distances(c, s), i, Distance(c.xs[i], s'.words, s'.places[i]));
    assert Distances(c, s') == Distances(c, s)[i := Distance(c.xs[i], s'.words, s'.places[i])];
  }

  /** Every step of a transaction that is no spurious failure brings the block nearer to its end. */
  lemma TxnStepLeavesLess(c: Setting, s: State, s': State, i: nat)
    requires Shaped(c, s) && Shaped(c, s') && TxnStep(c, s, s', i) && i < |c.xs| && !Spurious(c, s, s', i)
    ensures Nearer(c, s, s')
  {
    StepKinds(c, s, s', i);
    assert s.places[i].n < Length(c, s, i);
    hide TxnStep, Length, Sum, KeyAt, WordOf;
    OneStepLess(c, s, s', i);
    if s'.places[i].n == s.places[i].n { OneDistanceLess(c, s, s', i); }
  }

  lemma PhaseStepLeavesLess(c: Setting, s: State, s': State)
    requires Shaped(c, s) && Shaped(c, s') && PhaseStep(c, s, s')
    ensures Nearer(c, s, s')
  {}

  /** So does every step at all, but for a spurious failure. */
  lemma StepsLeaveLess(c: Setting, s: State, s': State)
    requires FullInv(c, s) && Step(c, s, s')
    ensures FullInv(c, s') && Shaped(c, s) && Shaped(c, s')
    ensures Nearer(c, s, s') || exists i: nat :: i < |c.xs| && Spurious(c, s, s', i)
  {
    StepKeepsFullInv(c, s, s');
    FullGives(c, s);
    FullGives(c, s');
    hide FullInv, Nearer, Shaped, Spurious, TxnStep, PhaseStep;
    if PhaseStep(c, s, s') {
      PhaseStepLeavesLess(c, s, s');
    } else {
      var i: nat :| TxnStep(c, s, s', i);
      StepMoves(c, s, s', i);
      if !Spurious(c, s, s', i) { TxnStepLeavesLess(c, s, s', i); }
    }
  }

  // ------------------------------------------------------------------
  // Never stuck
  // ------------------------------------------------------------------

  lemma WordUsable(c: Setting, s: State, i: nat, k: Key)
    requires Inv(c, s) && s.phase == ReservePhase && i < |c.xs|
    ensures Usable(WordOf(s.words, k), c.epoch, c.xs[i].id)
  {
    assert Summarizes(WordOf(s.words, k), c.epoch, IdsSoFar(c, s, ForRead, k), IdsSoFar(c, s, ForWrite, k));
  }

  lemma ReserveGoesOn(c: Setting, s: State, i: nat) returns (s': State)
    requires FullInv(c, s) && s.phase == ReservePhase && i < |c.xs| && 1 <= s.places[i].n < 1 + Accesses(c.xs[i])
    ensures ReserveStep(c, s, s', i) && !Spurious(c, s, s', i)
  {
    var x, n := c.xs[i], s.places[i].n;
    var kind, k := KindAt(x, n - 1), KeyAt(x, n - 1);
    WordUsable(c, s, i, k);
    assert Swappable(c, s, i);
    hide Inv, GetEpoch;
    match s.places[i]
    case At(_) =>
      if IndexAt(x, n - 1) {
        s' := s.(places := s.places[i := At(n + 1)]);
      } else {
        s' := s.(places := s.places[i := if Propose(kind, WordOf(s.words, k), c.epoch, x.id).GiveUp? then At(n + 1)
                                         else Holding(n, WordOf(s.words, k))]);
      }
    case Holding(_, w) =>
      if WordOf(s.words, k) == w {
        s' := s.(words := s.words[k := Propose(kind, w, c.epoch, x.id).word], places := s.places[i := At(n + 1)]);
        assert s'.places[i] == At(n + 1);
      } else {
        s' := s.(places := s.places[i := At(n)]);
      }
  }

  /** Outside the swaps a transaction can just do what comes next. */
  lemma PlainStep(c: Setting, s: State, i: nat) returns (s': State)
    requires Shaped(c, s) && i < |c.xs| && s.places[i].At? && s.places[i].n < Length(c, s, i)
    requires s.phase != ReservePhase || s.places[i].n == 0
    ensures TxnStep(c, s, s', i)
  {
    hide Executed, Filled, Analyzed, Finalized;
    var n, b := s.places[i].n, s.block[i];
    match s.phase
    case ExecutePhase => s' := s.(block := s.block[i := Executed(s.table, b)], places := s.places[i := At(1)]);
    case ReservePhase => s' := s.(block := s.block[i := Filled(b)], places := s.places[i := At(1)]);
    case AnalyzePhase =>
      s' := s.(block := s.block[i := Analyzed(c.o, s.words, c.epoch, b)], places := s.places[i := At(1)]);
    case FinalizePhase =>
      if n == 0 {
        s' := s.(block := s.block[i := Finalized(c.o, b)], places := s.places[i := At(1)]);
      } else {
        s' := s.(table := s.table[b.txn.writeSet[n - 1] := b.txn.output(b.values, n - 1)], places := s.places[i := At(n + 1)]);
      }
    case CleanupPhase =>
      if IndexAt(b.txn, n) {
        s' := s.(places := s.places[i := At(n + 1)]);
      } else {
        s' := s.(words := s.words[KeyAt(b.txn, n) := 0], places := s.places[i := At(n + 1)]);
      }
    case Over =>
  }

  lemma TxnGoesOn(c: Setting, s: State, i: nat) returns (s': State)
    requires FullInv(c, s) && i < |c.xs| && s.places[i].n < Length(c, s, i)
    ensures TxnStep(c, s, s', i) && !Spurious(c, s, s', i)
  {
    FullGives(c, s);
    HeldInReserve(c, s, i);
    hide FullInv, Shaped, ReserveStep, Reserves;
    if s.phase == ReservePhase && s.places[i].n > 0 {
      s' := ReserveGoesOn(c, s, i);
    } else {
      hide TxnStep;
      s' := PlainStep(c, s, i);
    }
  }

  lemma HeldInReserve(c: Setting, s: State, i: nat)
    requires Inv(c, s) && i < |c.xs|
    ensures |s.places| == |c.xs| == |s.block| && s.block[i].txn == c.xs[i]
    ensures s.places[i].Holding? ==> s.phase == ReservePhase && s.places[i].n >= 1
  {
    assert LoadedOk(c, s, i);
  }

  lemma NotThrough(c: Setting, s: State) returns (i: nat)
    requires Inv(c, s) && !AllThrough(c, s)
    ensures i < |c.xs| && s.places[i].n < Length(c, s, i)
  {
    i :| 0 <= i < |s.places| && s.places[i] != At(Length(c, s, i));
    assert LoadedOk(c, s, i);
  }

  /** Until the block is over some step is possible that brings it nearer to its end. */
  lemma NeverStuck(c: Setting, s: State) returns (s': State)
    requires FullInv(c, s) && s.phase != Over
    ensures Shaped(c, s) && Step(c, s, s') && FullInv(c, s') && Shaped(c, s') && Nearer(c, s, s')
  {
    InvShapes(c, s);
    hide FullInv, Length, Nearer, AllThrough, TxnStep, Spurious;
    FullGives(c, s);
    if AllThrough(c, s) {
      s' := s.(phase := s.phase.Next(), places := Start(c));
      StepKeepsFullInv(c, s, s');
      FullGives(c, s');
      PhaseStepLeavesLess(c, s, s');
    } else {
      var i := NotThrough(c, s);
      s' := TxnGoesOn(c, s, i);
      StepKeepsFullInv(c, s, s');
      FullGives(c, s');
      TxnStepLeavesLess(c, s, s', i);
    }
  }

  lemma FullGives(c: Setting, s: State)
    requires FullInv(c, s)
    ensures Inv(c, s) && Shaped(c, s)
  {}

  // ------------------------------------------------------------------
  // Coming to an end
  // ------------------------------------------------------------------

  ghost predicate Continues(c: Setting, tail: seq<State>) {
    |tail| > 0 && forall n :: 0 <= n < |tail| - 1 ==> Shaped(c, tail[n]) && Step(c, tail[n], tail[n + 1])
  }

  lemma Prepend(c: Setting, s: State, rest: seq<State>)
    requires Continues(c, rest) && Shaped(c, s) && Step(c, s, rest[0])
    ensures Continues(c, [s] + rest)
  {
    hide Step, Shaped;
    var tail := [s] + rest;
    forall n | 0 <= n < |tail| - 1
      ensures Shaped(c, tail[n]) && Step(c, tail[n], tail[n + 1])
    {
      if n > 0 { assert tail[n] == rest[n - 1] && tail[n + 1] == rest[n - 1 + 1]; }
    }
  }

  /** From every state that a run can reach the block can be brought to its end. */
  lemma {:induction false} CanFinish(c: Setting, s: State) returns (tail: seq<State>)
    requires FullInv(c, s) && Shaped(c, s)
    ensures Continues(c, tail) && tail[0] == s && tail[|tail| - 1].phase == Over
    decreases PhasesLeft(s.phase), Sum(StepsLeft(c, s)), Sum(Distances(c, s))
  {
    if s.phase == Over {
      tail := [s];
    } else {
      var s' := NeverStuck(c, s);
      hide FullInv, Shaped, Step;
      var rest := CanFinish(c, s');
      tail := [s] + rest;
      Prepend(c, s, rest);
    }
  }

  lemma FreshHasFullInv(c: Setting)
    requires c.Valid()
    ensures FullInv(c, Fresh(c))
  {
    FreshHasInv(c);
    hide Inv;
  }

  lemma {:induction false} RunKeepsFullInv(c: Setting, run: seq<State>, n: nat)
    requires Run(c, run) && n < |run|
    ensures FullInv(c, run[n])
    decreases n
  {
    hide FullInv, Step, Fresh;
    if n == 0 {
      FreshHasFullInv(c);
    } else {
      RunKeepsFullInv(c, run, n - 1);
      StepKeepsFullInv(c, run[n - 1], run[n]);
    }
  }

  /** Every run of a micro-block, however far it has come, can be brought to its end. */
  lemma EveryRunCanFinish(c: Setting, run: seq<State>) returns (tail: seq<State>)
    requires Run(c, run)
    ensures |tail| > 0 && tail[0] == run[|run| - 1] && Run(c, run + tail[1..])
    ensures (run + tail[1..])[|run + tail[1..]| - 1].phase == Over
  {
    RunKeepsFullInv(c, run, |run| - 1);
    FullGives(c, run[|run| - 1]);
    hide FullInv, Shaped, Step, Fresh, Setting.Valid;
    tail := CanFinish(c, run[|run| - 1]);
    var all := run + tail[1..];
    forall n | 0 <= n < |all| - 1
      ensures Shaped(c, all[n]) && Step(c, all[n], all[n + 1])
    {
      if n >= |run| - 1 {
        var k := n - (|run| - 1);
        assert all[n] == tail[k] && all[n + 1] == tail[k + 1];
      }
    }
  }
}
