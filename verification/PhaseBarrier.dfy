/**
 The barrier between the phases: n managers, one on each node and node 0 leading, drive
 m workers each from one phase to the next with a status word, two counters and the
 messages SIGNAL, STOP and ACK. No worker anywhere enters a phase before every worker
 has done its part of the phase before, and messages of different phases never mix.
 */
module PhaseBarrier {

  // ------------------------------------------------------------------
  // The parts
  // ------------------------------------------------------------------

  datatype Status = Stop | Run(kind: nat)

  /**
   A worker waits for its phase, has seen it, is in its body, has left the body,
   lingers until the status changes, and has seen that it did.
   */
  datatype Stage = Idle | Starting | Body | Ended | Lingering | Leaving

  datatype Worker = Worker(phase: nat, stage: Stage)

  datatype Pc =
    | WaitSignal
    | ResetStarted | ResetCompleted | SetStatus | SendSignals
    | WaitStart | WaitFinish
    | SendStops | WaitStops
    | ResetAgain | SetStop | WaitLeave
    | Acknowledge

  function Rank(pc: Pc): nat {
    match pc
    case WaitSignal => 0
    case ResetStarted => 1
    case ResetCompleted => 2
    case SetStatus => 3
    case SendSignals => 4
    case WaitStart => 5
    case WaitFinish => 6
    case SendStops => 7
    case WaitStops => 8
    case ResetAgain => 9
    case SetStop => 10
    case WaitLeave => 11
    case Acknowledge => 12
  }

  /** A STOP or ACK message. The code sees neither sender nor phase; they are here to tell messages apart. */
  datatype Msg = Msg(from: nat, phase: nat)

  /** `stops` has arrived, or will; `taken` has been waited for in this phase. */
  datatype Node = Node(
    pc: Pc,
    phase: nat,
    status: Status,
    started: nat,
    completed: nat,
    workers: seq<Worker>,
    stops: set<Msg>,
    taken: set<Msg>)

  datatype State = State(nodes: seq<Node>, signals: seq<set<nat>>, acks: set<Msg>, ackTaken: set<Msg>)

  /** `kind` is the status word of a phase; different phases may share one. */
  datatype Setting = Setting(n: nat, m: nat, kind: nat -> nat)

  // ------------------------------------------------------------------
  // The workers
  // ------------------------------------------------------------------

  /** One step of a worker of a node; `started` and `completed` are counted up in single steps. */
  ghost predicate WorkerStep(c: Setting, d: Node, d': Node, w: nat) {
    && w < |d.workers|
    && var x := d.workers[w];
       match x.stage
       case Idle => d.status == Run(c.kind(x.phase)) && d' == d.(workers := d.workers[w := x.(stage := Starting)])
       case Starting => d' == d.(started := d.started + 1, workers := d.workers[w := x.(stage := Body)])
       case Body => d' == d.(workers := d.workers[w := x.(stage := Ended)])
       case Ended => d' == d.(completed := d.completed + 1, workers := d.workers[w := x.(stage := Lingering)])
       case Lingering => d.status != Run(c.kind(x.phase)) && d' == d.(workers := d.workers[w := x.(stage := Leaving)])
       case Leaving => d' == d.(completed := d.completed + 1, workers := d.workers[w := Worker(x.phase + 1, Idle)])
  }

  // ------------------------------------------------------------------
  // The managers: what they do on their own node
  // ------------------------------------------------------------------

  ghost predicate LocalStep(c: Setting, leader: bool, d: Node, d': Node) {
    match d.pc
    case ResetStarted => d' == d.(started := 0, pc := ResetCompleted)
    case ResetCompleted => d' == d.(completed := 0, pc := SetStatus)
    case SetStatus => d' == d.(status := Run(c.kind(d.phase)), pc := if leader then SendSignals else WaitStart)
    case WaitStart => d.started >= c.m && d' == d.(pc := WaitFinish)
    case WaitFinish => d.completed >= c.m && d' == d.(pc := SendStops)
    case ResetAgain => d' == d.(completed := 0, pc := SetStop)
    case SetStop => d' == d.(status := Stop, pc := WaitLeave)
    case WaitLeave => d.completed >= c.m && d' == d.(pc := Acknowledge)
    case _ => false
  }

  // ------------------------------------------------------------------
  // Counting workers
  // ------------------------------------------------------------------

  datatype Which = HasStarted(k: nat) | HasEnded(k: nat) | HasLeft(k: nat)

  predicate Fits(which: Which, x: Worker) {
    match which
    case HasStarted(k) => x.phase == k && (x.stage.Body? || x.stage.Ended? || x.stage.Lingering?)
    case HasEnded(k) => x.phase == k && x.stage.Lingering?
    case HasLeft(k) => x.phase == k + 1 && x.stage.Idle?
  }

  function Count(which: Which, ws: seq<Worker>): (n: nat)
    ensures n <= |ws|
  {
    if ws == [] then 0
    else Count(which, ws[..|ws| - 1]) + if Fits(which, ws[|ws| - 1]) then 1 else 0
  }

  lemma {:induction false} CountUpdate(which: Which, ws: seq<Worker>, w: nat, x: Worker)
    requires w < |ws|
    ensures Count(which, ws[w := x]) ==
            Count(which, ws) - (if Fits(which, ws[w]) then 1 else 0) + (if Fits(which, x) then 1 else 0)
    decreases |ws|
  {
    var n := |ws| - 1;
    assert ws[w := x][..n] == if w < n then ws[..n][w := x] else ws[..n];
    if w < n { CountUpdate(which, ws[..n], w, x); }
  }

  /** The counter reaches the number of workers when all of them fit. */
  lemma {:induction false} CountAll(which: Which, ws: seq<Worker>)
    ensures Count(which, ws) >= |ws| <==> forall w :: 0 <= w < |ws| ==> Fits(which, ws[w])
    ensures Count(which, ws) == 0 <==> forall w :: 0 <= w < |ws| ==> !Fits(which, ws[w])
    decreases |ws|
  {
    if ws != [] {
      var front := ws[..|ws| - 1];
      CountAll(which, front);
      assert forall w :: 0 <= w < |front| ==> front[w] == ws[w];
    }
  }

  // ------------------------------------------------------------------
  // What holds on one node
  // ------------------------------------------------------------------

  ghost predicate AllAt(ws: seq<Worker>, x: Worker) {
    forall w :: 0 <= w < |ws| ==> ws[w] == x
  }

  /** In phase `k` with its status up: no worker has seen the status change yet. */
  ghost predicate InPhase(ws: seq<Worker>, k: nat) {
    forall w :: 0 <= w < |ws| ==> ws[w].phase == k && !ws[w].stage.Leaving?
  }

  ghost predicate GoneThrough(ws: seq<Worker>, k: nat) {
    forall w :: 0 <= w < |ws| ==>
      (ws[w].phase == k && (ws[w].stage.Lingering? || ws[w].stage.Leaving?)) || ws[w] == Worker(k + 1, Idle)
  }

  ghost predicate LocalOk(c: Setting, d: Node) {
    && |d.workers| == c.m
    && match d.pc
       case WaitSignal => d.status.Stop? && AllAt(d.workers, Worker(d.phase, Idle))
       case ResetStarted => d.status.Stop? && AllAt(d.workers, Worker(d.phase, Idle))
       case ResetCompleted => d.status.Stop? && AllAt(d.workers, Worker(d.phase, Idle)) && d.started == 0
       case SetStatus => d.status.Stop? && AllAt(d.workers, Worker(d.phase, Idle)) && d.started == 0 && d.completed == 0
       case SendSignals => Underway(c, d)
       case WaitStart => Underway(c, d)
       case WaitFinish => Underway(c, d) && forall w :: 0 <= w < |d.workers| ==> Fits(HasStarted(d.phase), d.workers[w])
       case SendStops => d.status == Run(c.kind(d.phase)) && AllAt(d.workers, Worker(d.phase, Lingering))
       case WaitStops => d.status == Run(c.kind(d.phase)) && AllAt(d.workers, Worker(d.phase, Lingering))
       case ResetAgain => d.status == Run(c.kind(d.phase)) && AllAt(d.workers, Worker(d.phase, Lingering))
       case SetStop => d.status == Run(c.kind(d.phase)) && AllAt(d.workers, Worker(d.phase, Lingering)) && d.completed == 0
       case WaitLeave => d.status.Stop? && GoneThrough(d.workers, d.phase) && d.completed == Count(HasLeft(d.phase), d.workers)
       case Acknowledge => d.status.Stop? && AllAt(d.workers, Worker(d.phase + 1, Idle))
  }

  ghost predicate Underway(c: Setting, d: Node) {
    && d.status == Run(c.kind(d.phase)) && InPhase(d.workers, d.phase)
    && d.started == Count(HasStarted(d.phase), d.workers) && d.completed == Count(HasEnded(d.phase), d.workers)
  }

  lemma StepUnderway(c: Setting, d: Node, d': Node, w: nat)
    requires Underway(c, d) && WorkerStep(c, d, d', w)
    ensures Underway(c, d')
    ensures (forall v :: 0 <= v < |d.workers| ==> Fits(HasStarted(d.phase), d.workers[v])) ==>
              forall v :: 0 <= v < |d'.workers| ==> Fits(HasStarted(d'.phase), d'.workers[v])
  {
    CountUpdate(HasStarted(d.phase), d.workers, w, d'.workers[w]);
    CountUpdate(HasEnded(d.phase), d.workers, w, d'.workers[w]);
  }

  lemma StepLeaving(c: Setting, d: Node, d': Node, w: nat)
    requires d.status.Stop? && GoneThrough(d.workers, d.phase) && d.completed == Count(HasLeft(d.phase), d.workers)
    requires WorkerStep(c, d, d', w)
    ensures d'.status.Stop? && GoneThrough(d'.workers, d'.phase) && d'.completed == Count(HasLeft(d'.phase), d'.workers)
  {
    CountUpdate(HasLeft(d.phase), d.workers, w, d'.workers[w]);
  }

  lemma NoStepWhen(c: Setting, d: Node, d': Node, w: nat, k: nat)
    requires w < |d.workers|
    requires (d.status.Stop? && AllAt(d.workers, Worker(k, Idle)))
             || (d.status == Run(c.kind(k)) && AllAt(d.workers, Worker(k, Lingering)))
    ensures !WorkerStep(c, d, d', w)
  {}

  lemma WorkerStepKeeps(c: Setting, d: Node, d': Node, w: nat)
    requires WorkerStep(c, d, d', w)
    ensures w < |d.workers| && |d'.workers| == |d.workers|
    ensures d'.pc == d.pc && d'.phase == d.phase && d'.stops == d.stops && d'.taken == d.taken
  {}

  lemma WorkerStepKeepsLocal(c: Setting, d: Node, d': Node, w: nat)
    requires LocalOk(c, d) && WorkerStep(c, d, d', w)
    ensures LocalOk(c, d')
  {
    WorkerStepKeeps(c, d, d', w);
    MovesOnlyThen(c, d, d', w);
    hide WorkerStep, Underway, GoneThrough, Fits, AllAt, Count;
    if d.pc.WaitLeave? {
      StepLeaving(c, d, d', w);
    } else {
      StepUnderway(c, d, d', w);
    }
  }

  /** Workers stand still except between the two changes of the status. */
  lemma MovesOnlyThen(c: Setting, d: Node, d': Node, w: nat)
    requires LocalOk(c, d) && w < |d.workers|
    ensures WorkerStep(c, d, d', w) ==> d.pc.SendSignals? || d.pc.WaitStart? || d.pc.WaitFinish? || d.pc.WaitLeave?
  {
    if !d.pc.SendSignals? && !d.pc.WaitStart? && !d.pc.WaitFinish? && !d.pc.WaitLeave? {
      NoStepWhen(c, d, d', w, if d.pc.Acknowledge? then d.phase + 1 else d.phase);
    }
  }

  lemma StatusUp(c: Setting, d: Node, d': Node)
    requires AllAt(d.workers, Worker(d.phase, Idle)) && d.started == 0 && d.completed == 0
    requires d'.workers == d.workers && d'.phase == d.phase && d'.started == 0 && d'.completed == 0
    requires d'.status == Run(c.kind(d.phase))
    ensures Underway(c, d')
  {
    CountAll(HasStarted(d.phase), d.workers);
    CountAll(HasEnded(d.phase), d.workers);
  }

  lemma EverybodyEnded(c: Setting, d: Node)
    requires Underway(c, d) && d.completed >= |d.workers|
    ensures AllAt(d.workers, Worker(d.phase, Lingering))
  {
    CountAll(HasEnded(d.phase), d.workers);
  }

  lemma EverybodyStarted(c: Setting, d: Node)
    requires Underway(c, d) && d.started >= |d.workers|
    ensures forall w :: 0 <= w < |d.workers| ==> Fits(HasStarted(d.phase), d.workers[w])
  {
    CountAll(HasStarted(d.phase), d.workers);
  }

  lemma StatusDown(d: Node)
    requires AllAt(d.workers, Worker(d.phase, Lingering))
    ensures GoneThrough(d.workers, d.phase) && Count(HasLeft(d.phase), d.workers) == 0
  {
    CountAll(HasLeft(d.phase), d.workers);
  }

  lemma EverybodyLeft(d: Node)
    requires Count(HasLeft(d.phase), d.workers) >= |d.workers|
    ensures AllAt(d.workers, Worker(d.phase + 1, Idle))
  {
    CountAll(HasLeft(d.phase), d.workers);
  }

  lemma LocalStepKeepsLocal(c: Setting, leader: bool, d: Node, d': Node)
    requires LocalOk(c, d) && LocalStep(c, leader, d, d')
    ensures LocalOk(c, d') && d'.phase == d.phase && d'.stops == d.stops && d'.taken == d.taken && Rank(d'.pc) > Rank(d.pc)
  {
    if d.pc.SetStatus? { StatusUp(c, d, d'); }
    if d.pc.WaitStart? { EverybodyStarted(c, d); }
    if d.pc.WaitFinish? { EverybodyEnded(c, d); }
    if d.pc.SetStop? { StatusDown(d); }
    if d.pc.WaitLeave? { EverybodyLeft(d); }
    if d'.status == d.status && d'.started == d.started && d'.completed == d.completed { SameParts(c, d, d'); }
    hide AllAt, Count, GoneThrough, Fits, Underway;
  }

  /** What holds of the workers, the status and the counters does not depend on the rest. */
  lemma SameParts(c: Setting, d: Node, d': Node)
    requires d'.workers == d.workers && d'.status == d.status && d'.phase == d.phase
    requires d'.started == d.started && d'.completed == d.completed
    ensures Underway(c, d') == Underway(c, d)
  {}

  /** While a worker is in the body, its manager waits for it. */
  lemma BodyIsUnderway(c: Setting, d: Node, w: nat)
    requires LocalOk(c, d) && w < |d.workers| && d.workers[w].stage.Body?
    ensures d.workers[w].phase == d.phase && Rank(SendSignals) <= Rank(d.pc) < Rank(SendStops)
  {}

  // ------------------------------------------------------------------
  // The managers: what goes between the nodes
  // ------------------------------------------------------------------

  ghost predicate Shaped(c: Setting, s: State) {
    c.n > 0 && |s.nodes| == c.n && |s.signals| == c.n
  }

  /** Node 0 sends the SIGNAL of its phase to everybody else. */
  ghost predicate SendsSignals(c: Setting, s: State, s': State)
    requires Shaped(c, s)
  {
    && s.nodes[0].pc.SendSignals?
    && s' == s.(nodes := s.nodes[0 := s.nodes[0].(pc := WaitStart)],
                signals := seq(c.n, b requires 0 <= b < c.n =>
                  if b == 0 then s.signals[b] else s.signals[b] + {s.nodes[0].phase}))
  }

  /** A follower takes a SIGNAL and sets out for the phase it names. */
  ghost predicate TakesSignal(c: Setting, s: State, s': State, b: nat, k: nat)
    requires Shaped(c, s)
  {
    && 0 < b < c.n && s.nodes[b].pc.WaitSignal? && k in s.signals[b]
    && s' == s.(nodes := s.nodes[b := s.nodes[b].(pc := ResetStarted)], signals := s.signals[b := s.signals[b] - {k}])
  }

  /** STOP to every other node. */
  ghost predicate BroadcastsStop(c: Setting, s: State, s': State, a: nat)
    requires Shaped(c, s)
  {
    && a < c.n && s.nodes[a].pc.SendStops?
    && s' == s.(nodes := seq(c.n, b requires 0 <= b < c.n =>
                  if b == a then s.nodes[a].(pc := WaitStops)
                  else s.nodes[b].(stops := s.nodes[b].stops + {Msg(a, s.nodes[a].phase)})))
  }

  /** One more STOP is waited for: whichever comes first. */
  ghost predicate TakesStop(c: Setting, s: State, s': State, b: nat, msg: Msg)
    requires Shaped(c, s)
  {
    && b < c.n && s.nodes[b].pc.WaitStops? && |s.nodes[b].taken| < c.n - 1 && msg in s.nodes[b].stops
    && s' == s.(nodes := s.nodes[b := s.nodes[b].(stops := s.nodes[b].stops - {msg}, taken := s.nodes[b].taken + {msg})])
  }

  /** n - 1 STOPs have been taken. */
  ghost predicate StopsDone(c: Setting, s: State, s': State, b: nat)
    requires Shaped(c, s)
  {
    && b < c.n && s.nodes[b].pc.WaitStops? && |s.nodes[b].taken| >= c.n - 1
    && s' == s.(nodes := s.nodes[b := s.nodes[b].(pc := ResetAgain, taken := {})])
  }

  /** A follower acknowledges the end of the phase and waits for the next SIGNAL. */
  ghost predicate SendsAck(c: Setting, s: State, s': State, b: nat)
    requires Shaped(c, s)
  {
    && 0 < b < c.n && s.nodes[b].pc.Acknowledge?
    && s' == s.(nodes := s.nodes[b := s.nodes[b].(pc := WaitSignal, phase := s.nodes[b].phase + 1)],
                acks := s.acks + {Msg(b, s.nodes[b].phase)})
  }

  ghost predicate TakesAck(c: Setting, s: State, s': State, msg: Msg)
    requires Shaped(c, s)
  {
    && s.nodes[0].pc.Acknowledge? && |s.ackTaken| < c.n - 1 && msg in s.acks
    && s' == s.(acks := s.acks - {msg}, ackTaken := s.ackTaken + {msg})
  }

  /** n - 1 ACKs have been taken: on to the next phase. */
  ghost predicate AcksDone(c: Setting, s: State, s': State)
    requires Shaped(c, s)
  {
    && s.nodes[0].pc.Acknowledge? && |s.ackTaken| >= c.n - 1
    && s' == s.(nodes := s.nodes[0 := s.nodes[0].(pc := ResetStarted, phase := s.nodes[0].phase + 1)], ackTaken := {})
  }

  ghost predicate WorkerMoves(c: Setting, s: State, s': State, a: nat, w: nat)
    requires Shaped(c, s)
  {
    && a < c.n && |s'.nodes| == c.n && WorkerStep(c, s.nodes[a], s'.nodes[a], w)
    && s' == s.(nodes := s.nodes[a := s'.nodes[a]])
  }

  ghost predicate ManagerMoves(c: Setting, s: State, s': State, a: nat)
    requires Shaped(c, s)
  {
    && a < c.n && |s'.nodes| == c.n && LocalStep(c, a == 0, s.nodes[a], s'.nodes[a])
    && s' == s.(nodes := s.nodes[a := s'.nodes[a]])
  }

  // ------------------------------------------------------------------
  // What holds between the nodes
  // ------------------------------------------------------------------

  /** The node has sent its STOP of phase `k`. */
  predicate SentStop(d: Node, k: nat) {
    d.phase > k || (d.phase == k && Rank(d.pc) > Rank(SendStops))
  }

  predicate Passed(d: Node) { Rank(d.pc) > Rank(WaitStops) }

  /** The SIGNAL of the leader's phase is out. */
  predicate Signalled(s: State)
    requires |s.nodes| > 0
  {
    Rank(s.nodes[0].pc) > Rank(SendSignals)
  }

  ghost predicate FollowerOk(c: Setting, s: State, b: nat)
    requires Shaped(c, s) && 0 < b < c.n
  {
    var d, k := s.nodes[b], s.nodes[0].phase;
    && !d.pc.SendSignals?
    && (d.phase == k || (d.phase == k + 1 && d.pc.WaitSignal?))
    && (!Signalled(s) ==> d.phase == k && d.pc.WaitSignal?)
    && s.signals[b] == (if d.phase == k && d.pc.WaitSignal? && Signalled(s) then {k} else {})
  }

  /** The ACKs on their way or taken are those of the followers that have ended the leader's phase. */
  ghost predicate AcksOk(c: Setting, s: State)
    requires Shaped(c, s)
  {
    && s.acks !! s.ackTaken
    && (forall msg :: msg in s.acks + s.ackTaken <==>
          0 < msg.from < c.n && msg.phase == s.nodes[0].phase && s.nodes[msg.from].phase == s.nodes[0].phase + 1)
  }

  /** The STOPs at a node are those its peers have sent for the phase it is in. */
  ghost predicate StopsOk(c: Setting, s: State, b: nat)
    requires Shaped(c, s) && b < c.n
  {
    var d := s.nodes[b];
    if Passed(d) then d.stops == {} && d.taken == {}
    else
      && d.stops !! d.taken
      && forall msg :: msg in d.stops + d.taken <==>
           msg.from < c.n && msg.from != b && msg.phase == d.phase && SentStop(s.nodes[msg.from], d.phase)
  }

  /** Whoever is past its STOPs, or in the next phase, has everybody's. */
  ghost predicate PassedOk(c: Setting, s: State, b: nat)
    requires Shaped(c, s) && b < c.n
  {
    && (Passed(s.nodes[b]) ==> forall a :: 0 <= a < c.n ==> SentStop(s.nodes[a], s.nodes[b].phase))
    && (s.nodes[b].phase > 0 ==> forall a :: 0 <= a < c.n ==> SentStop(s.nodes[a], s.nodes[b].phase - 1))
  }

  ghost predicate Inv(c: Setting, s: State) {
    && Shaped(c, s)
    && (forall a :: 0 <= a < c.n ==> LocalOk(c, s.nodes[a]))
    && !s.nodes[0].pc.WaitSignal?
    && (forall b :: 0 < b < c.n ==> FollowerOk(c, s, b))
    && AcksOk(c, s)
    && (forall b :: 0 <= b < c.n ==> StopsOk(c, s, b) && PassedOk(c, s, b))
  }

  /** Every other node. */
  ghost function Others(n: nat, b: nat, k: nat): set<Msg> {
    set a | 0 <= a < n && a != b :: Msg(a, k)
  }

  lemma {:induction false} OthersCount(n: nat, b: nat, k: nat)
    ensures |Others(n, b, k)| == if b < n then n - 1 else n
    decreases n
  {
    if n > 0 {
      OthersCount(n - 1, b, k);
      if n - 1 == b {
        assert Others(n, b, k) == Others(n - 1, b, k);
      } else {
        assert Others(n, b, k) == Others(n - 1, b, k) + {Msg(n - 1, k)};
      }
    } else {
      assert Others(n, b, k) == {};
    }
  }

  lemma SameSize<T>(x: set<T>, y: set<T>)
    requires x <= y && |x| >= |y|
    ensures x == y
  {
    if x != y {
      var e :| e in y && e !in x;
      SmallerSize(x, y - {e});
    }
  }

  lemma {:induction false} SmallerSize<T>(x: set<T>, y: set<T>)
    requires x <= y
    ensures |x| <= |y|
    decreases |x|
  {
    if x != {} {
      var e :| e in x;
      SmallerSize(x - {e}, y - {e});
    }
  }

  /** Counting n - 1 messages means having one from everybody. */
  lemma AllStopsTaken(c: Setting, s: State, b: nat)
    requires Inv(c, s) && b < c.n && s.nodes[b].pc.WaitStops? && |s.nodes[b].taken| >= c.n - 1
    ensures forall a :: 0 <= a < c.n ==> SentStop(s.nodes[a], s.nodes[b].phase)
    ensures s.nodes[b].stops == {}
  {
    var d := s.nodes[b];
    var all := Others(c.n, b, d.phase);
    assert StopsOk(c, s, b);
    OthersCount(c.n, b, d.phase);
    forall msg | msg in d.stops + d.taken
      ensures msg in all
    {
      assert msg == Msg(msg.from, d.phase);
    }
    SameSize(d.taken, all);
    forall a | 0 <= a < c.n
      ensures SentStop(s.nodes[a], d.phase)
    {
      if a != b { assert Msg(a, d.phase) in all; }
    }
  }

  lemma AllAcksTaken(c: Setting, s: State)
    requires Inv(c, s) && |s.ackTaken| >= c.n - 1
    ensures forall b :: 0 < b < c.n ==> s.nodes[b].phase == s.nodes[0].phase + 1 && s.nodes[b].pc.WaitSignal?
    ensures s.acks == {}
  {
    var k := s.nodes[0].phase;
    var all := Others(c.n, 0, k);
    OthersCount(c.n, 0, k);
    forall msg | msg in s.acks + s.ackTaken
      ensures msg in all
    {
      assert msg == Msg(msg.from, k);
    }
    SameSize(s.ackTaken, all);
    forall b | 0 < b < c.n
      ensures s.nodes[b].phase == k + 1 && s.nodes[b].pc.WaitSignal?
    {
      assert Msg(b, k) in all;
      assert FollowerOk(c, s, b);
    }
  }

  // ------------------------------------------------------------------
  // Every step keeps it
  // ------------------------------------------------------------------

  /** The other nodes cannot tell the two apart. */
  ghost predicate SameView(d: Node, d': Node) {
    && d'.phase == d.phase && d'.stops == d.stops && d'.taken == d.taken
    && (d'.pc.WaitSignal? <==> d.pc.WaitSignal?)
    && (d'.pc.SendSignals? ==> d.pc.SendSignals? || d.pc.SetStatus?)
    && (Rank(d'.pc) > Rank(SendSignals) <==> Rank(d.pc) > Rank(SendSignals))
    && (Rank(d'.pc) > Rank(SendStops) <==> Rank(d.pc) > Rank(SendStops))
    && (Passed(d') <==> Passed(d))
  }

  lemma LocalStepView(c: Setting, leader: bool, d: Node, d': Node)
    requires LocalStep(c, leader, d, d')
    ensures d'.phase == d.phase && d'.stops == d.stops && d'.taken == d.taken
    ensures !d.pc.WaitSignal? && !d'.pc.WaitSignal?
    ensures d'.pc.SendSignals? ==> leader
    ensures (!leader && d.pc.SetStatus?) || SameView(d, d')
    ensures Rank(d'.pc) > Rank(SendStops) <==> Rank(d.pc) > Rank(SendStops)
    ensures Passed(d') <==> Passed(d)
  {}

  /** One node changes on the inside; for a follower that includes leaving the first ranks. */
  lemma InsideKeepsInv(c: Setting, s: State, s': State, a: nat)
    requires Inv(c, s) && a < c.n && |s'.nodes| == c.n && s' == s.(nodes := s.nodes[a := s'.nodes[a]])
    requires LocalOk(c, s'.nodes[a])
    requires var d, d' := s.nodes[a], s'.nodes[a];
             && d'.phase == d.phase && d'.stops == d.stops && d'.taken == d.taken
             && (d'.pc.WaitSignal? <==> d.pc.WaitSignal?) && (a > 0 ==> !d'.pc.SendSignals?)
             && (a == 0 ==> (Rank(d'.pc) > Rank(SendSignals) <==> Rank(d.pc) > Rank(SendSignals)))
             && (Rank(d'.pc) > Rank(SendStops) <==> Rank(d.pc) > Rank(SendStops))
             && (Passed(d') <==> Passed(d))
    ensures Inv(c, s')
  {
    forall b, k ensures 0 <= b < c.n ==> SentStop(s'.nodes[b], k) == SentStop(s.nodes[b], k) {}
    forall b | 0 <= b < c.n
      ensures StopsOk(c, s', b) && PassedOk(c, s', b)
    {
      assert StopsOk(c, s, b) && PassedOk(c, s, b);
    }
    forall b | 0 < b < c.n
      ensures FollowerOk(c, s', b)
    {
      assert FollowerOk(c, s, b);
    }
    hide LocalOk, StopsOk, PassedOk, FollowerOk;
    assert AcksOk(c, s');
  }

  lemma WorkerMovesKeepsInv(c: Setting, s: State, s': State, a: nat, w: nat)
    requires Inv(c, s) && WorkerMoves(c, s, s', a, w)
    ensures Inv(c, s')
  {
    WorkerStepKeeps(c, s.nodes[a], s'.nodes[a], w);
    WorkerStepKeepsLocal(c, s.nodes[a], s'.nodes[a], w);
    if a > 0 { assert FollowerOk(c, s, a); }
    hide LocalOk, WorkerStep, StopsOk, PassedOk, FollowerOk, AcksOk;
    InsideKeepsInv(c, s, s', a);
  }

  lemma ManagerMovesKeepsInv(c: Setting, s: State, s': State, a: nat)
    requires Inv(c, s) && ManagerMoves(c, s, s', a)
    ensures Inv(c, s')
  {
    LocalStepKeepsLocal(c, a == 0, s.nodes[a], s'.nodes[a]);
    LocalStepView(c, a == 0, s.nodes[a], s'.nodes[a]);
    if a > 0 { assert FollowerOk(c, s, a); }
    hide LocalOk, LocalStep, StopsOk, PassedOk, FollowerOk, AcksOk;
    InsideKeepsInv(c, s, s', a);
  }

  lemma SendsSignalsKeepsInv(c: Setting, s: State, s': State)
    requires Inv(c, s) && SendsSignals(c, s, s')
    ensures Inv(c, s')
  {
    SameLocal(c, s.nodes[0], s'.nodes[0]);
    forall b, k ensures 0 <= b < c.n ==> SentStop(s'.nodes[b], k) == SentStop(s.nodes[b], k) {}
    forall b | 0 <= b < c.n
      ensures StopsOk(c, s', b) && PassedOk(c, s', b)
    {
      assert StopsOk(c, s, b) && PassedOk(c, s, b);
    }
    forall b | 0 < b < c.n
      ensures FollowerOk(c, s', b)
    {
      assert FollowerOk(c, s, b);
    }
    hide StopsOk, PassedOk, FollowerOk, LocalOk;
  }

  /** The parts on one node do not look at the messages, and these ranks ask the same of it. */
  lemma SameLocal(c: Setting, d: Node, d': Node)
    requires LocalOk(c, d)
    requires d'.workers == d.workers && d'.status == d.status && d'.started == d.started && d'.completed == d.completed
    requires (d'.pc == d.pc && d'.phase == d.phase)
             || (if d.pc.Acknowledge? then d'.phase == d.phase + 1 && (d'.pc.WaitSignal? || d'.pc.ResetStarted?)
                 else d'.phase == d.phase &&
                      ((d.pc.SendSignals? && d'.pc.WaitStart?) || (d.pc.WaitSignal? && d'.pc.ResetStarted?)
                       || (d.pc.SendStops? && d'.pc.WaitStops?) || (d.pc.WaitStops? && d'.pc.ResetAgain?)))
    ensures LocalOk(c, d')
  {
    if d.phase == d'.phase { SameParts(c, d, d'); }
  }

  lemma TakesSignalKeepsInv(c: Setting, s: State, s': State, b: nat, k: nat)
    requires Inv(c, s) && TakesSignal(c, s, s', b, k)
    ensures Inv(c, s') && k == s.nodes[0].phase == s.nodes[b].phase
  {
    assert FollowerOk(c, s, b);
    SameLocal(c, s.nodes[b], s'.nodes[b]);
    forall a, j ensures 0 <= a < c.n ==> SentStop(s'.nodes[a], j) == SentStop(s.nodes[a], j) {}
    forall a | 0 <= a < c.n
      ensures StopsOk(c, s', a) && PassedOk(c, s', a)
    {
      assert StopsOk(c, s, a) && PassedOk(c, s, a);
    }
    forall a | 0 < a < c.n
      ensures FollowerOk(c, s', a)
    {
      assert FollowerOk(c, s, a);
    }
    hide StopsOk, PassedOk, FollowerOk, LocalOk;
  }

  /** A node that sends its STOPs, and all others, are in the leader's phase, and nobody is past its STOPs. */
  lemma StoppersTogether(c: Setting, s: State, a: nat, b: nat)
    requires Inv(c, s) && a < c.n && b < c.n && s.nodes[a].pc.SendStops?
    ensures s.nodes[a].phase == s.nodes[0].phase == s.nodes[b].phase && !Passed(s.nodes[b])
  {
    if a > 0 { assert FollowerOk(c, s, a); }
    if b > 0 { assert FollowerOk(c, s, b); }
    assert PassedOk(c, s, b);
    assert !SentStop(s.nodes[a], s.nodes[a].phase);
  }

  lemma BroadcastIs(c: Setting, s: State, s': State, a: nat)
    requires Shaped(c, s) && BroadcastsStop(c, s, s', a)
    ensures a < c.n && s.nodes[a].pc.SendStops? && Shaped(c, s')
    ensures s'.signals == s.signals && s'.acks == s.acks && s'.ackTaken == s.ackTaken
    ensures forall b :: 0 <= b < c.n ==>
              s'.nodes[b] == if b == a then s.nodes[a].(pc := WaitStops)
                             else s.nodes[b].(stops := s.nodes[b].stops + {Msg(a, s.nodes[a].phase)})
    ensures forall e :: 0 <= e < c.n ==>
              (SentStop(s'.nodes[e], s.nodes[a].phase) <==> SentStop(s.nodes[e], s.nodes[a].phase) || e == a)
  {}

  lemma BroadcastReaches(c: Setting, s: State, s': State, a: nat, b: nat)
    requires Inv(c, s) && BroadcastsStop(c, s, s', a) && b < c.n && |s'.nodes| == c.n && |s'.signals| == c.n
    ensures LocalOk(c, s'.nodes[b]) && StopsOk(c, s', b) && PassedOk(c, s', b)
  {
    BroadcastIs(c, s, s', a);
    StoppersTogether(c, s, a, b);
    assert LocalOk(c, s.nodes[b]) && StopsOk(c, s, b) && PassedOk(c, s, b);
    hide Inv, BroadcastsStop;
    SameLocal(c, s.nodes[b], s'.nodes[b]);
    hide LocalOk;
  }

  lemma BroadcastsStopKeepsInv(c: Setting, s: State, s': State, a: nat)
    requires Inv(c, s) && BroadcastsStop(c, s, s', a)
    ensures Inv(c, s')
  {
    BroadcastIs(c, s, s', a);
    forall b | 0 <= b < c.n
      ensures LocalOk(c, s'.nodes[b]) && StopsOk(c, s', b) && PassedOk(c, s', b)
    {
      BroadcastReaches(c, s, s', a, b);
    }
    hide BroadcastsStop, StopsOk, PassedOk, LocalOk, SentStop;
    forall b | 0 < b < c.n
      ensures FollowerOk(c, s', b)
    {
      assert FollowerOk(c, s, b);
    }
    hide FollowerOk;
  }

  lemma MoveOne(x: set<Msg>, y: set<Msg>, msg: Msg)
    requires x !! y && msg in x
    ensures (x - {msg}) !! (y + {msg}) && (x - {msg}) + (y + {msg}) == x + y
  {}

  /** Where a message stands does not matter, as long as it is still there. */
  lemma StopsStay(c: Setting, s: State, s': State, a: nat)
    requires Shaped(c, s) && Shaped(c, s') && a < c.n && StopsOk(c, s, a) && PassedOk(c, s, a)
    requires forall e :: 0 <= e < c.n ==> s'.nodes[e].pc == s.nodes[e].pc && s'.nodes[e].phase == s.nodes[e].phase
    requires s'.nodes[a].stops !! s'.nodes[a].taken
    requires s'.nodes[a].stops + s'.nodes[a].taken == s.nodes[a].stops + s.nodes[a].taken
    ensures StopsOk(c, s', a) && PassedOk(c, s', a)
  {
    assert forall e, j :: 0 <= e < c.n ==> SentStop(s'.nodes[e], j) == SentStop(s.nodes[e], j);
  }

  lemma TakesStopIs(c: Setting, s: State, s': State, b: nat, msg: Msg)
    requires Shaped(c, s) && TakesStop(c, s, s', b, msg) && (forall a :: 0 <= a < c.n ==> s.nodes[a].stops !! s.nodes[a].taken)
    ensures Shaped(c, s') && |s'.nodes| == c.n && s'.signals == s.signals && s'.acks == s.acks && s'.ackTaken == s.ackTaken
    ensures forall a :: 0 <= a < c.n ==>
              && s'.nodes[a] == s.nodes[a].(stops := s'.nodes[a].stops, taken := s'.nodes[a].taken)
              && s'.nodes[a].stops !! s'.nodes[a].taken
              && s'.nodes[a].stops + s'.nodes[a].taken == s.nodes[a].stops + s.nodes[a].taken
  {
    MoveOne(s.nodes[b].stops, s.nodes[b].taken, msg);
  }

  lemma NodeGives(c: Setting, s: State, a: nat)
    requires Inv(c, s) && a < c.n
    ensures LocalOk(c, s.nodes[a]) && StopsOk(c, s, a) && PassedOk(c, s, a) && s.nodes[a].stops !! s.nodes[a].taken
    ensures Shaped(c, s)
  {}

  lemma TakesStopKeepsInv(c: Setting, s: State, s': State, b: nat, msg: Msg)
    requires Inv(c, s) && TakesStop(c, s, s', b, msg)
    ensures Inv(c, s')
  {
    hide *;
    NobodyAcks(c, s);
    forall a | 0 <= a < c.n
      ensures s.nodes[a].stops !! s.nodes[a].taken
    {
      NodeGives(c, s, a);
    }
    TakesStopIs(c, s, s', b, msg);
    forall a | 0 <= a < c.n
      ensures LocalOk(c, s'.nodes[a]) && StopsOk(c, s', a) && PassedOk(c, s', a)
    {
      NodeGives(c, s, a);
      SameLocal(c, s.nodes[a], s'.nodes[a]);
      StopsStay(c, s, s', a);
    }
    OnlyMessages(c, s, s');
  }

  lemma NobodyAcks(c: Setting, s: State)
    requires Inv(c, s)
    ensures Shaped(c, s) && |s.nodes| == c.n && s.acks !! s.ackTaken
  {}

  /** Nothing but the STOPs and ACKs of some node moved: the rest of the invariant stays. */
  lemma OnlyMessages(c: Setting, s: State, s': State)
    requires Inv(c, s) && Shaped(c, s') && s'.signals == s.signals && s'.acks !! s'.ackTaken
    requires s'.acks + s'.ackTaken == s.acks + s.ackTaken
    requires forall a :: 0 <= a < c.n ==> LocalOk(c, s'.nodes[a]) && s'.nodes[a].pc == s.nodes[a].pc && s'.nodes[a].phase == s.nodes[a].phase
    requires forall a :: 0 <= a < c.n ==> StopsOk(c, s', a) && PassedOk(c, s', a)
    ensures Inv(c, s')
  {
    forall a | 0 < a < c.n
      ensures FollowerOk(c, s', a)
    {
      assert FollowerOk(c, s, a);
    }
    hide StopsOk, PassedOk, FollowerOk, LocalOk;
  }

  lemma StopsDoneKeepsInv(c: Setting, s: State, s': State, b: nat)
    requires Inv(c, s) && StopsDone(c, s, s', b)
    ensures Inv(c, s')
  {
    AllStopsTaken(c, s, b);
    SameLocal(c, s.nodes[b], s'.nodes[b]);
    forall a, j ensures 0 <= a < c.n ==> SentStop(s'.nodes[a], j) == SentStop(s.nodes[a], j) {}
    forall a | 0 <= a < c.n
      ensures StopsOk(c, s', a) && PassedOk(c, s', a)
    {
      assert StopsOk(c, s, a) && PassedOk(c, s, a);
    }
    forall a | 0 < a < c.n
      ensures FollowerOk(c, s', a)
    {
      assert FollowerOk(c, s, a);
    }
    hide StopsOk, PassedOk, FollowerOk, LocalOk;
  }

  lemma NobodyAhead(c: Setting, s: State, a: nat)
    requires Inv(c, s) && a < c.n
    ensures !SentStop(s.nodes[a], s.nodes[0].phase + 1)
  {
    if a > 0 { assert FollowerOk(c, s, a); }
  }

  lemma SendsAckKeepsInv(c: Setting, s: State, s': State, b: nat)
    requires Inv(c, s) && SendsAck(c, s, s', b)
    ensures Inv(c, s')
  {
    var k := s.nodes[0].phase;
    assert FollowerOk(c, s, b);
    assert PassedOk(c, s, b);
    SameLocal(c, s.nodes[b], s'.nodes[b]);
    forall a | 0 <= a < c.n
      ensures SentStop(s'.nodes[a], k) == SentStop(s.nodes[a], k) && !SentStop(s'.nodes[a], k + 1) && !SentStop(s.nodes[a], k + 1)
    {
      NobodyAhead(c, s, a);
    }
    forall a | 0 <= a < c.n
      ensures StopsOk(c, s', a) && PassedOk(c, s', a)
    {
      if a > 0 { assert FollowerOk(c, s, a); }
      assert StopsOk(c, s, a) && PassedOk(c, s, a);
      hide LocalOk, FollowerOk;
    }
    forall a | 0 < a < c.n
      ensures FollowerOk(c, s', a)
    {
      assert FollowerOk(c, s, a);
    }
    hide StopsOk, PassedOk, FollowerOk, LocalOk;
  }

  lemma TakesAckKeepsInv(c: Setting, s: State, s': State, msg: Msg)
    requires Inv(c, s) && TakesAck(c, s, s', msg)
    ensures Inv(c, s')
  {
    MoveOne(s.acks, s.ackTaken, msg);
    NobodyAcks(c, s);
    NodesStay(c, s, s');
    hide LocalOk, StopsOk, PassedOk, FollowerOk, SentStop;
    OnlyMessages(c, s, s');
  }

  lemma NodesStay(c: Setting, s: State, s': State)
    requires Inv(c, s) && Shaped(c, s') && s'.nodes == s.nodes
    ensures forall a :: 0 <= a < c.n ==> LocalOk(c, s'.nodes[a]) && StopsOk(c, s', a) && PassedOk(c, s', a)
  {
    forall a | 0 <= a < c.n
      ensures LocalOk(c, s'.nodes[a]) && StopsOk(c, s', a) && PassedOk(c, s', a)
    {
      assert LocalOk(c, s.nodes[a]) && StopsOk(c, s, a) && PassedOk(c, s, a);
      hide LocalOk, FollowerOk, AcksOk, SentStop;
    }
  }

  lemma AcksDoneReaches(c: Setting, s: State, s': State, a: nat)
    requires Inv(c, s) && AcksDone(c, s, s') && a < c.n
    ensures LocalOk(c, s'.nodes[a]) && StopsOk(c, s', a) && PassedOk(c, s', a) && (a > 0 ==> FollowerOk(c, s', a))
  {
    var k := s.nodes[0].phase;
    AllAcksTaken(c, s);
    assert LocalOk(c, s.nodes[0]) && LocalOk(c, s.nodes[a]) && PassedOk(c, s, 0);
    assert StopsOk(c, s, a) && PassedOk(c, s, a) && (a > 0 ==> FollowerOk(c, s, a));
    forall e | 0 <= e < c.n
      ensures !SentStop(s'.nodes[e], k + 1) && SentStop(s'.nodes[e], k)
    {
      NobodyAhead(c, s, e);
    }
    hide Inv, LocalOk;
    SameLocal(c, s.nodes[0], s'.nodes[0]);
  }

  lemma AcksDoneKeepsInv(c: Setting, s: State, s': State)
    requires Inv(c, s) && AcksDone(c, s, s')
    ensures Inv(c, s')
  {
    AllAcksTaken(c, s);
    forall a | 0 <= a < c.n
      ensures LocalOk(c, s'.nodes[a]) && StopsOk(c, s', a) && PassedOk(c, s', a) && (a > 0 ==> FollowerOk(c, s', a))
    {
      AcksDoneReaches(c, s, s', a);
    }
    hide StopsOk, PassedOk, FollowerOk, LocalOk;
  }

  // ------------------------------------------------------------------
  // Every run
  // ------------------------------------------------------------------

  datatype Move =
    | WorkerMove(a: nat, w: nat)
    | ManagerMove(a: nat)
    | SignalsOut
    | SignalIn(b: nat, k: nat)
    | StopsOut(a: nat)
    | StopIn(b: nat, msg: Msg)
    | AllStopsIn(b: nat)
    | AckOut(b: nat)
    | AckIn(msg: Msg)
    | AllAcksIn

  ghost predicate Step(c: Setting, s: State, s': State, m: Move)
    requires Shaped(c, s)
  {
    match m
    case WorkerMove(a, w) => WorkerMoves(c, s, s', a, w)
    case ManagerMove(a) => ManagerMoves(c, s, s', a)
    case SignalsOut => SendsSignals(c, s, s')
    case SignalIn(b, k) => TakesSignal(c, s, s', b, k)
    case StopsOut(a) => BroadcastsStop(c, s, s', a)
    case StopIn(b, msg) => TakesStop(c, s, s', b, msg)
    case AllStopsIn(b) => StopsDone(c, s, s', b)
    case AckOut(b) => SendsAck(c, s, s', b)
    case AckIn(msg) => TakesAck(c, s, s', msg)
    case AllAcksIn => AcksDone(c, s, s')
  }

  lemma StepKeepsInv(c: Setting, s: State, s': State, m: Move)
    requires Inv(c, s) && Step(c, s, s', m)
    ensures Inv(c, s')
  {
    hide Inv, WorkerMoves, ManagerMoves, SendsSignals, TakesSignal, BroadcastsStop, TakesStop, StopsDone, SendsAck, TakesAck, AcksDone;
    match m
    case WorkerMove(a, w) => WorkerMovesKeepsInv(c, s, s', a, w);
    case ManagerMove(a) => ManagerMovesKeepsInv(c, s, s', a);
    case SignalsOut => SendsSignalsKeepsInv(c, s, s');
    case SignalIn(b, k) => TakesSignalKeepsInv(c, s, s', b, k);
    case StopsOut(a) => BroadcastsStopKeepsInv(c, s, s', a);
    case StopIn(b, msg) => TakesStopKeepsInv(c, s, s', b, msg);
    case AllStopsIn(b) => StopsDoneKeepsInv(c, s, s', b);
    case AckOut(b) => SendsAckKeepsInv(c, s, s', b);
    case AckIn(msg) => TakesAckKeepsInv(c, s, s', msg);
    case AllAcksIn => AcksDoneKeepsInv(c, s, s');
  }

  /** All status words say STOP, all workers wait for the first phase, and nothing is on its way. */
  ghost predicate Init(c: Setting, s: State) {
    && Shaped(c, s) && s.acks == {} && s.ackTaken == {}
    && forall a :: 0 <= a < c.n ==>
         && s.nodes[a].pc == (if a == 0 then ResetStarted else WaitSignal) && s.nodes[a].phase == 0 && s.nodes[a].status.Stop?
         && |s.nodes[a].workers| == c.m && AllAt(s.nodes[a].workers, Worker(0, Idle))
         && s.nodes[a].stops == {} && s.nodes[a].taken == {} && s.signals[a] == {}
  }

  ghost predicate SomeStep(c: Setting, s: State, s': State)
    requires Shaped(c, s)
  {
    exists m :: Step(c, s, s', m)
  }

  ghost predicate IsRun(c: Setting, run: seq<State>) {
    && |run| > 0 && Init(c, run[0]) && (forall i :: 0 <= i < |run| ==> Shaped(c, run[i]))
    && forall i :: 0 <= i < |run| - 1 ==> SomeStep(c, run[i], run[i + 1])
  }

  lemma {:induction false} RunKeepsInv(c: Setting, run: seq<State>, i: nat)
    requires IsRun(c, run) && i < |run|
    ensures Inv(c, run[i])
    decreases i
  {
    if i > 0 {
      RunKeepsInv(c, run, i - 1);
      assert SomeStep(c, run[i - 1], run[i - 1 + 1]);
      var m :| Step(c, run[i - 1], run[i], m);
      StepKeepsInv(c, run[i - 1], run[i], m);
    }
  }

  /** The worker has done its part of phase `k`. */
  predicate DoneWith(x: Worker, k: nat) {
    x.phase > k || (x.phase == k && (x.stage.Lingering? || x.stage.Leaving?))
  }

  lemma SentMeansDone(c: Setting, d: Node, w: nat, k: nat)
    requires LocalOk(c, d) && SentStop(d, k) && w < |d.workers|
    ensures DoneWith(d.workers[w], k)
  {}

  /** A worker is in the body of a phase only when every worker of every node is done with the phase before. */
  lemma BarrierInState(c: Setting, s: State, a: nat, w: nat, b: nat, v: nat)
    requires Inv(c, s) && a < c.n && b < c.n && |s.nodes| == c.n
    requires w < |s.nodes[a].workers| && v < |s.nodes[b].workers| && s.nodes[a].workers[w].stage.Body?
    ensures s.nodes[a].workers[w].phase > 0 ==> DoneWith(s.nodes[b].workers[v], s.nodes[a].workers[w].phase - 1)
  {
    BodyIsUnderway(c, s.nodes[a], w);
    assert PassedOk(c, s, a);
    if s.nodes[a].phase > 0 { SentMeansDone(c, s.nodes[b], v, s.nodes[a].phase - 1); }
  }

  lemma BarrierHolds(c: Setting, run: seq<State>, i: nat, a: nat, w: nat, b: nat, v: nat)
    requires IsRun(c, run) && i < |run| && a < c.n && b < c.n
    requires w < |run[i].nodes[a].workers| && v < |run[i].nodes[b].workers| && run[i].nodes[a].workers[w].stage.Body?
    ensures run[i].nodes[a].workers[w].phase > 0 ==>
              DoneWith(run[i].nodes[b].workers[v], run[i].nodes[a].workers[w].phase - 1)
  {
    RunKeepsInv(c, run, i);
    hide Inv;
    BarrierInState(c, run[i], a, w, b, v);
  }

  /** So two workers that are in a body at the same time are in the same phase. */
  lemma BodiesInState(c: Setting, s: State, a: nat, w: nat, b: nat, v: nat)
    requires Inv(c, s) && a < c.n && b < c.n && |s.nodes| == c.n
    requires w < |s.nodes[a].workers| && v < |s.nodes[b].workers|
    requires s.nodes[a].workers[w].stage.Body? && s.nodes[b].workers[v].stage.Body?
    ensures s.nodes[a].workers[w].phase == s.nodes[b].workers[v].phase
  {
    hide Inv;
    BarrierInState(c, s, a, w, b, v);
    BarrierInState(c, s, b, v, a, w);
    var p, q := s.nodes[a].workers[w].phase, s.nodes[b].workers[v].phase;
    assert p <= q && q <= p;
  }

  lemma BodiesTogether(c: Setting, run: seq<State>, i: nat, a: nat, w: nat, b: nat, v: nat)
    requires IsRun(c, run) && i < |run| && a < c.n && b < c.n
    requires w < |run[i].nodes[a].workers| && v < |run[i].nodes[b].workers|
    requires run[i].nodes[a].workers[w].stage.Body? && run[i].nodes[b].workers[v].stage.Body?
    ensures run[i].nodes[a].workers[w].phase == run[i].nodes[b].workers[v].phase
  {
    RunKeepsInv(c, run, i);
    hide Inv;
    BodiesInState(c, run[i], a, w, b, v);
  }

  /** Every message that is waited for belongs to the phase of whoever waits. */
  lemma MessagesNeverMix(c: Setting, run: seq<State>, i: nat)
    requires IsRun(c, run) && i < |run|
    ensures forall b, k :: 0 < b < c.n && run[i].nodes[b].pc.WaitSignal? && k in run[i].signals[b] ==> k == run[i].nodes[b].phase
    ensures forall b, msg :: 0 <= b < c.n && run[i].nodes[b].pc.WaitStops? && msg in run[i].nodes[b].stops ==>
              msg.phase == run[i].nodes[b].phase && msg.from != b && msg !in run[i].nodes[b].taken
    ensures forall msg :: msg in run[i].acks ==> msg.phase == run[i].nodes[0].phase && msg.from != 0 && msg !in run[i].ackTaken
  {
    var s := run[i];
    RunKeepsInv(c, run, i);
    forall b, k | 0 < b < c.n && s.nodes[b].pc.WaitSignal? && k in s.signals[b]
      ensures k == s.nodes[b].phase
    {
      assert FollowerOk(c, s, b);
    }
    forall b, msg | 0 <= b < c.n && s.nodes[b].pc.WaitStops? && msg in s.nodes[b].stops
      ensures msg.phase == s.nodes[b].phase && msg.from != b && msg !in s.nodes[b].taken
    {
      assert StopsOk(c, s, b);
      assert msg in s.nodes[b].stops + s.nodes[b].taken;
    }
    forall msg | msg in s.acks
      ensures msg.phase == s.nodes[0].phase && msg.from != 0 && msg !in s.ackTaken
    {
      assert msg in s.acks + s.ackTaken;
    }
  }

  // ------------------------------------------------------------------
  // No deadlock
  // ------------------------------------------------------------------

  ghost predicate CanMove(c: Setting, s: State)
    requires Shaped(c, s)
  {
    exists m, s' :: Step(c, s, s', m)
  }

  /** The node waits for a message, or, at the leader, for acknowledgements. */
  predicate WaitsForMessage(a: nat, pc: Pc) {
    pc.WaitSignal? || pc.WaitStops? || (a == 0 && pc.Acknowledge?)
  }

  lemma WorkerCan(c: Setting, s: State, a: nat, w: nat)
    requires Inv(c, s) && a < c.n && w < |s.nodes[a].workers|
    requires var d, x := s.nodes[a], s.nodes[a].workers[w];
             (x.stage.Idle? ==> d.status == Run(c.kind(x.phase))) && (x.stage.Lingering? ==> d.status != Run(c.kind(x.phase)))
    ensures CanMove(c, s)
  {
    var d, x := s.nodes[a], s.nodes[a].workers[w];
    var d' := match x.stage
      case Idle => d.(workers := d.workers[w := x.(stage := Starting)])
      case Starting => d.(started := d.started + 1, workers := d.workers[w := x.(stage := Body)])
      case Body => d.(workers := d.workers[w := x.(stage := Ended)])
      case Ended => d.(completed := d.completed + 1, workers := d.workers[w := x.(stage := Lingering)])
      case Lingering => d.(workers := d.workers[w := x.(stage := Leaving)])
      case Leaving => d.(completed := d.completed + 1, workers := d.workers[w := Worker(x.phase + 1, Idle)]);
    var s' := s.(nodes := s.nodes[a := d']);
    assert WorkerMoves(c, s, s', a, w);
    assert Step(c, s, s', WorkerMove(a, w));
  }

  lemma LocalCan(c: Setting, s: State, a: nat, d': Node)
    requires Inv(c, s) && a < c.n && LocalStep(c, a == 0, s.nodes[a], d')
    ensures CanMove(c, s)
  {
    var s' := s.(nodes := s.nodes[a := d']);
    assert ManagerMoves(c, s, s', a);
    assert Step(c, s, s', ManagerMove(a));
  }

  /** A manager that waits for its workers, or for nothing, is not stuck. */
  lemma NodeCan(c: Setting, s: State, a: nat)
    requires Inv(c, s) && a < c.n && !WaitsForMessage(a, s.nodes[a].pc)
    ensures CanMove(c, s)
  {
    var d := s.nodes[a];
    assert LocalOk(c, d);
    if a > 0 { assert FollowerOk(c, s, a); }
    CountAll(HasStarted(d.phase), d.workers);
    CountAll(HasEnded(d.phase), d.workers);
    CountAll(HasLeft(d.phase), d.workers);
    hide Inv, LocalOk, CanMove, Step;
    match d.pc
    case ResetStarted => LocalCan(c, s, a, d.(started := 0, pc := ResetCompleted));
    case ResetCompleted => LocalCan(c, s, a, d.(completed := 0, pc := SetStatus));
    case SetStatus => LocalCan(c, s, a, d.(status := Run(c.kind(d.phase)), pc := if a == 0 then SendSignals else WaitStart));
    case SendSignals => LeaderCanSignal(c, s);
    case WaitStart => WaiterCan(c, s, a, HasStarted(d.phase));
    case WaitFinish => WaiterCan(c, s, a, HasEnded(d.phase));
    case SendStops => StopperCan(c, s, a);
    case ResetAgain => LocalCan(c, s, a, d.(completed := 0, pc := SetStop));
    case SetStop => LocalCan(c, s, a, d.(status := Stop, pc := WaitLeave));
    case WaitLeave => WaiterCan(c, s, a, HasLeft(d.phase));
    case Acknowledge => AckerCan(c, s, a);
  }

  lemma LeaderCanSignal(c: Setting, s: State)
    requires Inv(c, s) && s.nodes[0].pc.SendSignals?
    ensures CanMove(c, s)
  {
    var s' := s.(nodes := s.nodes[0 := s.nodes[0].(pc := WaitStart)],
                 signals := seq(c.n, b requires 0 <= b < c.n =>
                   if b == 0 then s.signals[b] else s.signals[b] + {s.nodes[0].phase}));
    assert Step(c, s, s', SignalsOut);
  }

  lemma StopperCan(c: Setting, s: State, a: nat)
    requires Inv(c, s) && a < c.n && s.nodes[a].pc.SendStops?
    ensures CanMove(c, s)
  {
    var s' := s.(nodes := seq(c.n, b requires 0 <= b < c.n =>
                   if b == a then s.nodes[a].(pc := WaitStops)
                   else s.nodes[b].(stops := s.nodes[b].stops + {Msg(a, s.nodes[a].phase)})));
    assert Step(c, s, s', StopsOut(a));
  }

  lemma AckerCan(c: Setting, s: State, b: nat)
    requires Inv(c, s) && 0 < b < c.n && s.nodes[b].pc.Acknowledge?
    ensures CanMove(c, s)
  {
    var s' := s.(nodes := s.nodes[b := s.nodes[b].(pc := WaitSignal, phase := s.nodes[b].phase + 1)],
                 acks := s.acks + {Msg(b, s.nodes[b].phase)});
    assert Step(c, s, s', AckOut(b));
  }

  /** Either all workers have come far enough, or one of those that have not can move. */
  lemma WaiterCan(c: Setting, s: State, a: nat, which: Which)
    requires Inv(c, s) && a < c.n
    requires var d := s.nodes[a];
             || (d.pc.WaitStart? && which == HasStarted(d.phase))
             || (d.pc.WaitFinish? && which == HasEnded(d.phase))
             || (d.pc.WaitLeave? && which == HasLeft(d.phase))
    ensures CanMove(c, s)
  {
    var d := s.nodes[a];
    assert LocalOk(c, d);
    CountAll(which, d.workers);
    if Count(which, d.workers) >= |d.workers| {
      LocalCan(c, s, a, d.(pc := if d.pc.WaitStart? then WaitFinish else if d.pc.WaitFinish? then SendStops else Acknowledge));
    } else {
      var w :| 0 <= w < |d.workers| && !Fits(which, d.workers[w]);
      WorkerCan(c, s, a, w);
    }
  }

  lemma SignalCan(c: Setting, s: State, b: nat)
    requires Inv(c, s) && 0 < b < c.n && s.nodes[b].pc.WaitSignal? && s.nodes[b].phase == s.nodes[0].phase && Signalled(s)
    ensures CanMove(c, s)
  {
    assert FollowerOk(c, s, b);
    var k := s.nodes[0].phase;
    var s' := s.(nodes := s.nodes[b := s.nodes[b].(pc := ResetStarted)], signals := s.signals[b := s.signals[b] - {k}]);
    assert Step(c, s, s', SignalIn(b, k));
  }

  /** When all managers wait for messages, one of these messages is there. */
  lemma MessageIsThere(c: Setting, s: State, b: nat)
    requires Inv(c, s) && (forall a :: 0 <= a < c.n ==> WaitsForMessage(a, s.nodes[a].pc))
    requires b < c.n && s.nodes[b].pc.WaitStops?
    ensures CanMove(c, s)
  {
    var d := s.nodes[b];
    assert StopsOk(c, s, b) && (b > 0 ==> FollowerOk(c, s, b));
    if |d.taken| >= c.n - 1 {
      assert Step(c, s, s.(nodes := s.nodes[b := d.(pc := ResetAgain, taken := {})]), AllStopsIn(b));
    } else if d.stops != {} {
      var msg :| msg in d.stops;
      assert Step(c, s, s.(nodes := s.nodes[b := d.(stops := d.stops - {msg}, taken := d.taken + {msg})]), StopIn(b, msg));
    } else {
      var a := SomeoneMissing(c, s, b);
      if a > 0 { assert FollowerOk(c, s, a); }
      SignalCan(c, s, a);
    }
  }

  lemma SomeoneMissing(c: Setting, s: State, b: nat) returns (a: nat)
    requires Inv(c, s) && b < c.n && s.nodes[b].pc.WaitStops? && s.nodes[b].stops == {} && |s.nodes[b].taken| < c.n - 1
    ensures a < c.n && a != b && !SentStop(s.nodes[a], s.nodes[b].phase)
  {
    var d := s.nodes[b];
    var all := Others(c.n, b, d.phase);
    assert StopsOk(c, s, b);
    OthersCount(c.n, b, d.phase);
    assert d.taken != all;
    assert forall msg :: msg in d.taken ==> msg in all by {
      forall msg | msg in d.taken ensures msg in all { assert msg in d.stops + d.taken; assert msg == Msg(msg.from, d.phase); }
    }
    var msg :| msg in all && msg !in d.taken;
    a := msg.from;
    assert msg !in d.stops + d.taken;
  }

  lemma SomeAckThere(c: Setting, s: State)
    requires Inv(c, s) && |s.ackTaken| < c.n - 1
    requires forall b :: 0 < b < c.n ==> s.nodes[b].phase == s.nodes[0].phase + 1
    ensures s.acks != {}
  {
    var all := Others(c.n, 0, s.nodes[0].phase);
    OthersCount(c.n, 0, s.nodes[0].phase);
    assert all <= s.acks + s.ackTaken;
    SmallerSize(all, s.acks + s.ackTaken);
    assert s.acks == {} ==> s.acks + s.ackTaken == s.ackTaken;
  }

  lemma AcksAreThere(c: Setting, s: State)
    requires Inv(c, s) && s.nodes[0].pc.Acknowledge?
    requires forall b :: 0 < b < c.n ==> s.nodes[b].phase == s.nodes[0].phase + 1
    ensures CanMove(c, s)
  {
    var s' := s;
    if |s.ackTaken| >= c.n - 1 {
      s' := s.(nodes := s.nodes[0 := s.nodes[0].(pc := ResetStarted, phase := s.nodes[0].phase + 1)], ackTaken := {});
      assert Step(c, s, s', AllAcksIn);
    } else {
      SomeAckThere(c, s);
      var msg :| msg in s.acks;
      s' := s.(acks := s.acks - {msg}, ackTaken := s.ackTaken + {msg});
      assert Step(c, s, s', AckIn(msg));
    }
  }

  /** The barrier never locks up: in every reachable state somebody can go on. */
  lemma NeverStuck(c: Setting, run: seq<State>, i: nat)
    requires IsRun(c, run) && i < |run|
    ensures CanMove(c, run[i])
  {
    var s := run[i];
    RunKeepsInv(c, run, i);
    hide CanMove, LocalOk, StopsOk, PassedOk, AcksOk;
    if a :| 0 <= a < c.n && !WaitsForMessage(a, s.nodes[a].pc) {
      NodeCan(c, s, a);
    } else if b :| 0 <= b < c.n && s.nodes[b].pc.WaitStops? {
      MessageIsThere(c, s, b);
    } else if b :| 0 < b < c.n && s.nodes[b].phase == s.nodes[0].phase {
      SignalCan(c, s, b);
    } else {
      forall b | 0 < b < c.n
        ensures s.nodes[b].phase == s.nodes[0].phase + 1
      {
        assert FollowerOk(c, s, b);
      }
      AcksAreThere(c, s);
    }
  }
}
