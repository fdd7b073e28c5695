/**
 The barrier and the exchange of schedule sizes together: every node takes its phases from
 the sizes it has itself agreed on, and yet the workers of all nodes that are in a body at
 the same time are in the same phase of the same epoch and do the same kind of work.
 */
module AlignedBarrier {
  import opened ScheduleAlignment
  import V = VectorExchange
  import B = PhaseBarrier

  // ------------------------------------------------------------------
  // The sequence of phases
  // ------------------------------------------------------------------

  /** The aligned sizes of the first `e` epochs. */
  function Aligned(c: V.Setting, e: nat): (r: seq<nat>)
    ensures |r| == e && forall i :: 0 <= i < e ==> r[i] == Largest(V.SizesOf(c, i))
  {
    seq(e, i requires 0 <= i => Largest(V.SizesOf(c, i)))
  }

  /** What a node that has agreed on these sizes knows of its phases: those of these epochs, and the first two of the next. */
  function Known(agreed: seq<nat>): seq<V.Kind> { V.Phases(agreed) + [V.ReadPhase, V.PartitionPhase] }

  lemma {:induction false} EpochsArePhases(c: V.Setting, e: nat)
    ensures |V.Phases(Aligned(c, e))| >= 2 * e
    decreases e
  {
    if e > 0 {
      EpochsArePhases(c, e - 1);
      assert Aligned(c, e)[..e - 1] == Aligned(c, e - 1);
    }
  }

  /** The kind of phase `p`, for all nodes. */
  function KindAt(c: V.Setting, p: nat): V.Kind {
    EpochsArePhases(c, p);
    Known(Aligned(c, p))[p]
  }

  /** Agreeing on one more size only adds to what is known. */
  lemma OneMoreEpoch(c: V.Setting, e: nat)
    ensures Known(Aligned(c, e)) <= Known(Aligned(c, e + 1))
  {
    assert Aligned(c, e + 1)[..e] == Aligned(c, e);
  }

  lemma {:induction false} KnownGrows(c: V.Setting, e: nat, e': nat)
    requires e <= e'
    ensures Known(Aligned(c, e)) <= Known(Aligned(c, e'))
    decreases e'
  {
    hide Known, Aligned;
    if e < e' {
      KnownGrows(c, e, e' - 1);
      OneMoreEpoch(c, e' - 1);
    }
  }

  /** However far a node has come, what it knows of phase `p` is the kind of phase `p`. */
  lemma KnownIsKind(c: V.Setting, e: nat, p: nat)
    requires p < |Known(Aligned(c, e))|
    ensures Known(Aligned(c, e))[p] == KindAt(c, p)
  {
    EpochsArePhases(c, p);
    if e <= p { KnownGrows(c, e, p); } else { KnownGrows(c, p, e); }
  }

  // ------------------------------------------------------------------
  // Both at once
  // ------------------------------------------------------------------

  function CodeOf(k: V.Kind): nat {
    match k
    case ReadPhase => 0
    case PartitionPhase => 1
    case Execute => 2
    case Reserve => 3
    case Analyze => 4
    case Finalize => 5
    case Cleanup => 6
  }

  /** The barrier of the exchange's nodes, with `m` workers on each. */
  function BarrierOf(c: V.Setting, m: nat): B.Setting { B.Setting(c.n + 1, m, p => CodeOf(KindAt(c, p))) }

  datatype State = State(barrier: B.State, exchange: V.State)

  /** The phases that node `a` knows of. */
  function KnownTo(s: State, a: nat): seq<V.Kind>
    requires a <= |s.exchange.followers|
  {
    Known(V.Agreed(s.exchange, a))
  }

  /** The status words of its phases, as the node works them out itself. */
  function OwnKind(s: State, a: nat): nat -> nat
    requires a <= |s.exchange.followers|
  {
    var known := KnownTo(s, a);
    (p: nat) => if p < |known| then CodeOf(known[p]) else UNKNOWN
  }

  const UNKNOWN := 7

  function NodeOf(mv: B.Move): nat {
    match mv
    case WorkerMove(a, _) => a
    case ManagerMove(a) => a
    case _ => 0
  }

  /** A step of the barrier on a node's own terms; no status is raised for a phase the node does not know of. */
  ghost predicate OwnStep(c: V.Setting, m: nat, s: State, s': State, mv: B.Move) {
    && s'.exchange == s.exchange && NodeOf(mv) <= c.n == |s.exchange.followers|
    && B.Shaped(BarrierOf(c, m), s.barrier)
    && B.Step(B.Setting(c.n + 1, m, OwnKind(s, NodeOf(mv))), s.barrier, s'.barrier, mv)
    && (mv.ManagerMove? && s.barrier.nodes[mv.a].pc.SetStatus? ==> s.barrier.nodes[mv.a].phase < |KnownTo(s, mv.a)|)
  }

  /** Barrier and exchange take their steps in any order. */
  ghost predicate JointStep(c: V.Setting, m: nat, s: State, s': State) {
    || (exists mv :: OwnStep(c, m, s, s', mv))
    || (s'.barrier == s.barrier && V.SomeStep(c, s.exchange, s'.exchange))
  }

  /** The status is up only of a phase that the node knows of. */
  ghost predicate KnowsPhases(c: V.Setting, s: State) {
    && |s.barrier.nodes| == c.n + 1 && |s.exchange.followers| == c.n
    && forall a :: 0 <= a <= c.n && s.barrier.nodes[a].status.Run? ==> s.barrier.nodes[a].phase < |KnownTo(s, a)|
  }

  ghost predicate JointRun(c: V.Setting, m: nat, run: seq<State>) {
    && |run| > 0 && B.Init(BarrierOf(c, m), run[0].barrier) && run[0].exchange == V.Init(c)
    && forall n :: 0 <= n < |run| - 1 ==> JointStep(c, m, run[n], run[n + 1])
  }

  ghost predicate JointInv(c: V.Setting, m: nat, s: State) {
    B.Inv(BarrierOf(c, m), s.barrier) && V.Inv(c, s.exchange) && KnowsPhases(c, s)
  }

  /** What a node has agreed on is what all agree on. */
  lemma AgreedIsAligned(c: V.Setting, v: V.State, a: nat)
    requires V.Inv(c, v) && a <= c.n
    ensures |v.followers| == c.n && V.Agreed(v, a) == Aligned(c, |V.Agreed(v, a)|)
  {
    if a > 0 { assert V.FollowerOk(c, v, a - 1); }
  }

  /** Nobody forgets a size. */
  lemma AgreedGrows(c: V.Setting, v: V.State, v': V.State, a: nat)
    requires V.Inv(c, v) && V.SomeStep(c, v, v') && a <= c.n
    ensures |v'.followers| == c.n && V.Agreed(v, a) <= V.Agreed(v', a)
  {
    var m :| V.Step(c, v, v', m);
  }

  lemma ExchangeKeepsKnown(c: V.Setting, s: State, s': State)
    requires V.Inv(c, s.exchange) && V.Inv(c, s'.exchange) && KnowsPhases(c, s)
    requires s'.barrier == s.barrier && V.SomeStep(c, s.exchange, s'.exchange)
    ensures KnowsPhases(c, s')
  {
    forall a | 0 <= a <= c.n && s'.barrier.nodes[a].status.Run?
      ensures |s'.exchange.followers| == c.n && s'.barrier.nodes[a].phase < |KnownTo(s', a)|
    {
      AgreedGrows(c, s.exchange, s'.exchange, a);
      AgreedIsAligned(c, s.exchange, a);
      AgreedIsAligned(c, s'.exchange, a);
      KnownGrows(c, |V.Agreed(s.exchange, a)|, |V.Agreed(s'.exchange, a)|);
    }
    AgreedIsAligned(c, s'.exchange, 0);
  }

  /** On what it knows, a node's own status words are those of all. */
  lemma OwnIsKind(c: V.Setting, s: State, a: nat, p: nat)
    requires V.Inv(c, s.exchange) && a <= c.n && |s.exchange.followers| == c.n
    ensures OwnKind(s, a)(p) == if p < |KnownTo(s, a)| then CodeOf(KindAt(c, p)) else UNKNOWN
    ensures CodeOf(KindAt(c, p)) < UNKNOWN
  {
    AgreedIsAligned(c, s.exchange, a);
    hide KindAt, Known, Aligned;
    if p < |KnownTo(s, a)| { KnownIsKind(c, |V.Agreed(s.exchange, a)|, p); }
  }

  /** A worker's step looks at the status only. */
  lemma WorkerStepKind(c: B.Setting, c': B.Setting, d: B.Node, d': B.Node, w: nat)
    requires B.WorkerStep(c, d, d', w)
    requires d.workers[w].stage.Idle? && d.status == B.Run(c.kind(d.workers[w].phase)) ==> d.status == B.Run(c'.kind(d.workers[w].phase))
    requires d.workers[w].stage.Lingering? && d.status == B.Run(c'.kind(d.workers[w].phase)) ==> d.status == B.Run(c.kind(d.workers[w].phase))
    ensures B.WorkerStep(c', d, d', w)
  {}

  lemma WorkerStepShared(c: V.Setting, m: nat, s: State, a: nat, d': B.Node, w: nat)
    requires JointInv(c, m, s) && a <= c.n && |s.barrier.nodes| == c.n + 1 && |s.exchange.followers| == c.n
    requires B.WorkerStep(B.Setting(c.n + 1, m, OwnKind(s, a)), s.barrier.nodes[a], d', w)
    ensures B.WorkerStep(BarrierOf(c, m), s.barrier.nodes[a], d', w)
  {
    var d := s.barrier.nodes[a];
    assert w < |d.workers|;
    JointInvNode(c, m, s, a);
    hide JointInv, KindAt, OwnKind, KnownTo, B.WorkerStep;
    OwnIsKind(c, s, a, d.workers[w].phase);
    OwnIsKind(c, s, a, d.phase);
    LingersInPhase(BarrierOf(c, m), d, w);
    hide B.LocalOk;
    WorkerStepKind(B.Setting(c.n + 1, m, OwnKind(s, a)), BarrierOf(c, m), d, d', w);
  }

  lemma JointInvNode(c: V.Setting, m: nat, s: State, a: nat)
    requires JointInv(c, m, s) && a <= c.n
    ensures |s.barrier.nodes| == c.n + 1 && |s.exchange.followers| == c.n && V.Inv(c, s.exchange)
    ensures B.LocalOk(BarrierOf(c, m), s.barrier.nodes[a])
    ensures s.barrier.nodes[a].status.Run? ==> s.barrier.nodes[a].phase < |KnownTo(s, a)|
  {
    hide B.LocalOk, V.Inv, KnownTo;
  }

  /** A status that is up is that of the phase, and a worker that lingers under it is in the phase. */
  lemma LingersInPhase(c: B.Setting, d: B.Node, w: nat)
    requires B.LocalOk(c, d) && w < |d.workers|
    ensures d.status.Run? ==> d.status == B.Run(c.kind(d.phase))
    ensures d.workers[w].stage.Lingering? ==> d.workers[w].phase == d.phase
  {}

  lemma LocalStepShared(c: V.Setting, m: nat, s: State, a: nat, leader: bool, d': B.Node)
    requires JointInv(c, m, s) && a <= c.n && |s.barrier.nodes| == c.n + 1 && |s.exchange.followers| == c.n
    requires s.barrier.nodes[a].pc.SetStatus? ==> s.barrier.nodes[a].phase < |KnownTo(s, a)|
    requires B.LocalStep(B.Setting(c.n + 1, m, OwnKind(s, a)), leader, s.barrier.nodes[a], d')
    ensures B.LocalStep(BarrierOf(c, m), leader, s.barrier.nodes[a], d')
  {
    OwnIsKind(c, s, a, s.barrier.nodes[a].phase);
    hide B.Inv, V.Inv, KindAt, OwnKind, KnownTo;
  }

  /** Between the nodes the status words play no part. */
  lemma MessageStepShared(c: B.Setting, c': B.Setting, s: B.State, s': B.State, mv: B.Move)
    requires B.Shaped(c, s) && c'.n == c.n && B.Step(c, s, s', mv) && !mv.WorkerMove? && !mv.ManagerMove?
    ensures B.Shaped(c', s) && B.Step(c', s, s', mv)
  {}

  lemma OwnWorkerStep(c: V.Setting, m: nat, s: State, s': State, a: nat, w: nat)
    requires JointInv(c, m, s) && OwnStep(c, m, s, s', B.WorkerMove(a, w))
    ensures B.Shaped(BarrierOf(c, m), s.barrier) && B.Step(BarrierOf(c, m), s.barrier, s'.barrier, B.WorkerMove(a, w))
  {
    JointInvGives(c, m, s);
    hide JointInv, OwnKind, KindAt, B.WorkerStep;
    WorkerStepShared(c, m, s, a, s'.barrier.nodes[a], w);
  }

  lemma OwnManagerStep(c: V.Setting, m: nat, s: State, s': State, a: nat)
    requires JointInv(c, m, s) && OwnStep(c, m, s, s', B.ManagerMove(a))
    ensures B.Shaped(BarrierOf(c, m), s.barrier) && B.Step(BarrierOf(c, m), s.barrier, s'.barrier, B.ManagerMove(a))
  {
    JointInvGives(c, m, s);
    hide JointInv, OwnKind, KindAt, B.LocalStep;
    LocalStepShared(c, m, s, a, a == 0, s'.barrier.nodes[a]);
  }

  /** So each such step is a step of the barrier with one sequence for all. */
  lemma OwnStepIsStep(c: V.Setting, m: nat, s: State, s': State, mv: B.Move)
    requires JointInv(c, m, s) && OwnStep(c, m, s, s', mv)
    ensures B.Shaped(BarrierOf(c, m), s.barrier) && B.Step(BarrierOf(c, m), s.barrier, s'.barrier, mv)
  {
    hide JointInv, OwnKind, KindAt, B.Step;
    match mv
    case WorkerMove(a, w) => OwnWorkerStep(c, m, s, s', a, w);
    case ManagerMove(a) => OwnManagerStep(c, m, s, s', a);
    case _ => MessageStepShared(B.Setting(c.n + 1, m, OwnKind(s, NodeOf(mv))), BarrierOf(c, m), s.barrier, s'.barrier, mv);
  }

  lemma OwnStepKeepsKnown(c: V.Setting, m: nat, s: State, s': State, mv: B.Move)
    requires JointInv(c, m, s) && OwnStep(c, m, s, s', mv)
    ensures KnowsPhases(c, s')
  {
    OwnStepIsStep(c, m, s, s', mv);
    JointInvGives(c, m, s);
    forall a | 0 <= a <= c.n
      ensures |s'.barrier.nodes| == c.n + 1
      ensures s'.barrier.nodes[a].status.Run? ==> s'.barrier.nodes[a].phase < |KnownTo(s', a)|
    {
      assert B.LocalOk(BarrierOf(c, m), s.barrier.nodes[a]);
      assert s.barrier.nodes[a].status.Run? ==> s.barrier.nodes[a].phase < |KnownTo(s, a)|;
      hide JointInv, B.LocalOk, OwnKind, KnownTo, KindAt;
      StatusRaised(BarrierOf(c, m), s.barrier, s'.barrier, mv, a);
    }
  }

  /** The status goes up in one step only, and the phase changes under STOP only. */
  lemma StatusRaised(c: B.Setting, s: B.State, s': B.State, mv: B.Move, a: nat)
    requires B.Shaped(c, s) && B.Step(c, s, s', mv) && a < c.n && B.LocalOk(c, s.nodes[a])
    ensures |s'.nodes| == c.n
    ensures s'.nodes[a].status.Run? ==>
              s'.nodes[a].phase == s.nodes[a].phase
              && (s.nodes[a].status.Run? || (mv == B.ManagerMove(a) && s.nodes[a].pc.SetStatus?))
  {
    hide B.Underway, B.AllAt, B.GoneThrough, B.Count, B.Fits;
  }

  lemma JointStepKeepsInv(c: V.Setting, m: nat, s: State, s': State)
    requires JointInv(c, m, s) && JointStep(c, m, s, s')
    ensures JointInv(c, m, s')
  {
    if mv :| OwnStep(c, m, s, s', mv) {
      OwnStepIsStep(c, m, s, s', mv);
      OwnStepKeepsKnown(c, m, s, s', mv);
      hide B.Inv, V.Inv, KnowsPhases, B.Step, OwnStep;
      B.StepKeepsInv(BarrierOf(c, m), s.barrier, s'.barrier, mv);
    } else {
      hide B.Inv, V.Inv, KnowsPhases, V.SomeStep, OwnStep;
      ExchangeSteps(c, s.exchange, s'.exchange);
      ExchangeKeepsKnown(c, s, s');
    }
  }

  lemma ExchangeSteps(c: V.Setting, v: V.State, v': V.State)
    requires V.Inv(c, v) && V.SomeStep(c, v, v')
    ensures V.Inv(c, v')
  {
    hide V.Inv, V.Step;
    var m :| V.Step(c, v, v', m);
    V.StepKeepsInv(c, v, v', m);
  }

  lemma JointInitHasInv(c: V.Setting, m: nat, s: State)
    requires B.Init(BarrierOf(c, m), s.barrier) && s.exchange == V.Init(c)
    ensures JointInv(c, m, s)
  {
    B.RunKeepsInv(BarrierOf(c, m), [s.barrier], 0);
    V.RunKeepsInv(c, [s.exchange], 0);
    hide B.Inv, V.Inv;
  }

  lemma {:induction false} JointRunKeepsInv(c: V.Setting, m: nat, run: seq<State>, n: nat)
    requires JointRun(c, m, run) && n < |run|
    ensures JointInv(c, m, run[n])
    decreases n
  {
    hide JointInv, JointStep, B.Init;
    if n == 0 {
      JointInitHasInv(c, m, run[0]);
    } else {
      JointRunKeepsInv(c, m, run, n - 1);
      JointStepKeepsInv(c, m, run[n - 1], run[n]);
    }
  }

  /** A worker is in a body only with the status up of the phase that its own node knows. */
  lemma BodyIsOwn(c: V.Setting, m: nat, s: State, a: nat, w: nat)
    requires JointInv(c, m, s) && a <= c.n && |s.barrier.nodes| == c.n + 1 && |s.exchange.followers| == c.n
    requires w < |s.barrier.nodes[a].workers| && s.barrier.nodes[a].workers[w].stage.Body?
    ensures var d, p := s.barrier.nodes[a], s.barrier.nodes[a].workers[w].phase;
            && p == d.phase && d.status == B.Run(CodeOf(KindAt(c, p)))
            && p < |KnownTo(s, a)| && KnownTo(s, a)[p] == KindAt(c, p)
  {
    var d := s.barrier.nodes[a];
    assert B.LocalOk(BarrierOf(c, m), d);
    B.BodyIsUnderway(BarrierOf(c, m), d, w);
    AgreedIsAligned(c, s.exchange, a);
    hide B.Inv, V.Inv, KindAt;
    StatusUp(BarrierOf(c, m), d, w);
    KnownIsKind(c, |V.Agreed(s.exchange, a)|, d.phase);
  }

  lemma StatusUp(c: B.Setting, d: B.Node, w: nat)
    requires B.LocalOk(c, d) && w < |d.workers| && d.workers[w].stage.Body?
    requires B.Rank(B.SendSignals) <= B.Rank(d.pc) < B.Rank(B.SendStops)
    ensures d.status == B.Run(c.kind(d.phase))
  {}

  lemma JointInvGives(c: V.Setting, m: nat, s: State)
    requires JointInv(c, m, s)
    ensures |s.barrier.nodes| == c.n + 1 && |s.exchange.followers| == c.n && B.Inv(BarrierOf(c, m), s.barrier)
  {}

  /**
   In every run of barrier and exchange together, two workers in a body at the same time are
   in the same phase, and what each of their nodes has worked out that phase to be from the
   sizes it agreed on is the same.
   */
  lemma BodiesDoTheSame(c: V.Setting, m: nat, run: seq<State>, i: nat, a: nat, w: nat, b: nat, v: nat)
    requires JointRun(c, m, run) && i < |run| && a <= c.n && b <= c.n
    requires |run[i].barrier.nodes| == c.n + 1 && |run[i].exchange.followers| == c.n
    requires w < |run[i].barrier.nodes[a].workers| && v < |run[i].barrier.nodes[b].workers|
    requires run[i].barrier.nodes[a].workers[w].stage.Body? && run[i].barrier.nodes[b].workers[v].stage.Body?
    ensures var s := run[i];
            var p := s.barrier.nodes[a].workers[w].phase;
            && s.barrier.nodes[b].workers[v].phase == p
            && p < |KnownTo(s, a)| && p < |KnownTo(s, b)| && KnownTo(s, a)[p] == KnownTo(s, b)[p]
            && s.barrier.nodes[a].status == s.barrier.nodes[b].status == B.Run(CodeOf(KnownTo(s, a)[p]))
  {
    var s := run[i];
    JointRunKeepsInv(c, m, run, i);
    hide JointRun, JointInv, KnownTo, KindAt, B.Inv;
    BodyIsOwn(c, m, s, a, w);
    BodyIsOwn(c, m, s, b, v);
    JointInvGives(c, m, s);
    B.BodiesInState(BarrierOf(c, m), s.barrier, a, w, b, v);
  }
}
