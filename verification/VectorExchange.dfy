/**
 The exchange of VECTOR messages, epoch after epoch: each follower sends the size of its
 schedule to node 0 and waits, node 0 takes as many sizes as there are followers and sends
 the largest to all. Neither looks at who sent a message or for which epoch; still every
 node ends every epoch with the largest size of that epoch, so all run the same phases.
 */
module VectorExchange {
  import opened ScheduleAlignment

  /** A size on its way to node 0. The code sees the size only. */
  datatype Vec = Vec(from: nat, epoch: nat, size: nat)

  /** `agreed` holds the aligned size of every epoch behind the node. */
  datatype Follower = Follower(waiting: bool, agreed: seq<nat>, answers: seq<nat>)

  /** `taken` is who has been heard in this epoch; the code only counts them. */
  datatype Leader = Leader(largest: nat, taken: set<nat>, agreed: seq<nat>)

  datatype State = State(leader: Leader, followers: seq<Follower>, inbox: set<Vec>)

  /** `size(a, e)` is how many micro-blocks node `a` has cut in epoch `e`; follower `b` is node `b + 1`. */
  datatype Setting = Setting(n: nat, size: (nat, nat) -> nat)

  function SizesOf(c: Setting, e: nat): (s: seq<nat>)
    ensures |s| == c.n + 1 && forall a :: 0 <= a < |s| ==> s[a] == c.size(a, e)
  {
    seq(c.n + 1, a requires 0 <= a => c.size(a, e))
  }

  /** What follower `b` sends in an epoch. */
  function SizeOf(c: Setting, b: nat, e: nat): Vec { Vec(b, e, c.size(b + 1, e)) }

  // ------------------------------------------------------------------
  // The steps
  // ------------------------------------------------------------------

  ghost predicate Sends(c: Setting, s: State, s': State, b: nat) {
    && b < |s.followers| && !s.followers[b].waiting
    && var f := s.followers[b];
       s' == s.(followers := s.followers[b := f.(waiting := true)],
                inbox := s.inbox + {SizeOf(c, b, |f.agreed|)})
  }

  ghost predicate Takes(c: Setting, s: State, s': State, v: Vec) {
    && |s.leader.taken| < c.n && v in s.inbox
    && s' == s.(leader := s.leader.(largest := Larger(s.leader.largest, v.size), taken := s.leader.taken + {v.from}),
                inbox := s.inbox - {v})
  }

  ghost predicate Announces(c: Setting, s: State, s': State) {
    && |s.leader.taken| == c.n && |s.followers| == c.n
    && var agreed := s.leader.agreed + [s.leader.largest];
       s' == s.(leader := Leader(c.size(0, |agreed|), {}, agreed),
                followers := seq(c.n, b requires 0 <= b < c.n =>
                  s.followers[b].(answers := s.followers[b].answers + [s.leader.largest])))
  }

  ghost predicate Hears(c: Setting, s: State, s': State, b: nat) {
    && b < |s.followers| && s.followers[b].waiting && s.followers[b].answers != []
    && var f := s.followers[b];
       s' == s.(followers := s.followers[b := Follower(false, f.agreed + [f.answers[0]], f.answers[1..])])
  }

  datatype Move = Sending(b: nat) | Taking(v: Vec) | Announcing | Hearing(b: nat)

  ghost predicate Step(c: Setting, s: State, s': State, m: Move) {
    match m
    case Sending(b) => Sends(c, s, s', b)
    case Taking(v) => Takes(c, s, s', v)
    case Announcing => Announces(c, s, s')
    case Hearing(b) => Hears(c, s, s', b)
  }

  function Init(c: Setting): State {
    State(Leader(c.size(0, 0), {}, []), seq(c.n, _ => Follower(false, [], [])), {})
  }

  ghost predicate SomeStep(c: Setting, s: State, s': State) {
    exists m :: Step(c, s, s', m)
  }

  ghost predicate Run(c: Setting, run: seq<State>) {
    && |run| > 0 && run[0] == Init(c)
    && forall n :: 0 <= n < |run| - 1 ==> SomeStep(c, run[n], run[n + 1])
  }

  // ------------------------------------------------------------------
  // The invariant
  // ------------------------------------------------------------------

  ghost predicate AgreedRight(c: Setting, agreed: seq<nat>) {
    forall e :: 0 <= e < |agreed| ==> agreed[e] == Largest(SizesOf(c, e))
  }

  /** A follower is in the leader's epoch, or has the answer of the one before still to hear. */
  ghost predicate FollowerOk(c: Setting, s: State, b: nat)
    requires b < |s.followers|
  {
    var f, epoch := s.followers[b], |s.leader.agreed|;
    var mine := SizeOf(c, b, epoch);
    && AgreedRight(c, f.agreed)
    && if |f.agreed| == epoch then
         && f.answers == [] && (b in s.leader.taken || mine in s.inbox <==> f.waiting)
         && !(b in s.leader.taken && mine in s.inbox)
       else
         && |f.agreed| + 1 == epoch && f.waiting && f.answers == [s.leader.agreed[epoch - 1]]
         && b !in s.leader.taken && mine !in s.inbox
  }

  /** Whatever is on its way is of the leader's epoch. */
  ghost predicate InboxOk(c: Setting, s: State) {
    forall v :: v in s.inbox ==>
      v.from < c.n && v == SizeOf(c, v.from, |s.leader.agreed|)
  }

  /** The largest of the leader's own size and of those taken. */
  ghost predicate LargestSoFar(c: Setting, s: State) {
    var epoch := |s.leader.agreed|;
    && s.leader.largest >= c.size(0, epoch)
    && (forall b :: b in s.leader.taken ==> b < c.n && s.leader.largest >= c.size(b + 1, epoch))
    && (s.leader.largest == c.size(0, epoch) || exists b :: b in s.leader.taken && s.leader.largest == c.size(b + 1, epoch))
  }

  ghost predicate Inv(c: Setting, s: State) {
    && |s.followers| == c.n && AgreedRight(c, s.leader.agreed) && InboxOk(c, s) && LargestSoFar(c, s)
    && forall b :: 0 <= b < c.n ==> FollowerOk(c, s, b)
  }

  lemma SendsKeepsInv(c: Setting, s: State, s': State, b: nat)
    requires Inv(c, s) && Sends(c, s, s', b)
    ensures Inv(c, s')
  {
    assert FollowerOk(c, s, b);
    assert LargestSoFar(c, s');
    hide LargestSoFar, AgreedRight;
    forall a | 0 <= a < c.n
      ensures FollowerOk(c, s', a)
    {
      assert FollowerOk(c, s, a);
    }
  }

  lemma TakesKeepsInv(c: Setting, s: State, s': State, v: Vec)
    requires Inv(c, s) && Takes(c, s, s', v)
    ensures Inv(c, s')
  {
    assert FollowerOk(c, s, v.from);
    LargestGrows(c, s, s', v);
    hide LargestSoFar, AgreedRight;
    forall a | 0 <= a < c.n
      ensures FollowerOk(c, s', a)
    {
      assert FollowerOk(c, s, a);
    }
  }

  lemma LargestGrows(c: Setting, s: State, s': State, v: Vec)
    requires InboxOk(c, s) && LargestSoFar(c, s) && Takes(c, s, s', v)
    ensures LargestSoFar(c, s')
  {
    var epoch := |s.leader.agreed|;
    assert v.from in s'.leader.taken && v.size == c.size(v.from + 1, epoch);
    if s'.leader.largest != c.size(0, epoch) && s'.leader.largest != v.size {
      var b :| b in s.leader.taken && s.leader.largest == c.size(b + 1, epoch);
      assert b in s'.leader.taken;
    }
  }

  lemma {:induction false} FullSet(n: nat, xs: set<nat>)
    requires |xs| == n && forall x :: x in xs ==> x < n
    ensures forall x :: 0 <= x < n ==> x in xs
    decreases n
  {
    if n > 0 {
      if n - 1 in xs {
        FullSet(n - 1, xs - {n - 1});
        forall x | 0 <= x < n ensures x in xs { assert x < n - 1 ==> x in xs - {n - 1}; }
      } else {
        SmallSet(n - 1, xs);
      }
    }
  }

  lemma {:induction false} SmallSet(n: nat, xs: set<nat>)
    requires forall x :: x in xs ==> x < n
    ensures |xs| <= n
    decreases n
  {
    if n > 0 {
      SmallSet(n - 1, xs - {n - 1});
    } else {
      assert xs == {};
    }
  }

  /** With as many taken as there are followers, everybody has been heard. */
  lemma AllHeard(c: Setting, s: State)
    requires Inv(c, s) && |s.leader.taken| == c.n
    ensures s.leader.largest == Largest(SizesOf(c, |s.leader.agreed|))
    ensures forall b :: 0 <= b < c.n ==> b in s.leader.taken
  {
    FullSet(c.n, s.leader.taken);
    var sizes := SizesOf(c, |s.leader.agreed|);
    forall a | 0 <= a < |sizes|
      ensures sizes[a] <= s.leader.largest
    {
      if a > 0 { assert a - 1 in s.leader.taken; }
    }
    assert s.leader.largest in sizes by {
      if s.leader.largest == c.size(0, |s.leader.agreed|) {
        assert sizes[0] == s.leader.largest;
      } else {
        var b :| b in s.leader.taken && s.leader.largest == c.size(b + 1, |s.leader.agreed|);
        assert sizes[b + 1] == s.leader.largest;
      }
    }
  }

  lemma HeardNotInInbox(c: Setting, s: State, b: nat)
    requires Inv(c, s) && b < c.n && b in s.leader.taken
    ensures SizeOf(c, b, |s.leader.agreed|) !in s.inbox
  {
    assert FollowerOk(c, s, b);
  }

  /** Then nothing is on its way. */
  lemma InboxEmpty(c: Setting, s: State)
    requires Inv(c, s) && forall b :: 0 <= b < c.n ==> b in s.leader.taken
    ensures s.inbox == {}
  {
    var e := |s.leader.agreed|;
    forall b | 0 <= b < c.n
      ensures SizeOf(c, b, e) !in s.inbox
    {
      HeardNotInInbox(c, s, b);
    }
    hide FollowerOk, LargestSoFar, AgreedRight;
    assert forall v :: v in s.inbox ==> v == SizeOf(c, v.from, e);
  }

  lemma AnnouncesKeepsInv(c: Setting, s: State, s': State)
    requires Inv(c, s) && Announces(c, s, s')
    ensures Inv(c, s')
  {
    AllHeard(c, s);
    InboxEmpty(c, s);
    assert LargestSoFar(c, s');
    hide LargestSoFar, Largest;
    forall a | 0 <= a < c.n
      ensures FollowerOk(c, s', a)
    {
      assert FollowerOk(c, s, a);
    }
  }

  lemma HearsKeepsInv(c: Setting, s: State, s': State, b: nat)
    requires Inv(c, s) && Hears(c, s, s', b)
    ensures Inv(c, s')
  {
    assert FollowerOk(c, s, b);
    assert LargestSoFar(c, s');
    hide LargestSoFar, Largest;
    forall a | 0 <= a < c.n
      ensures FollowerOk(c, s', a)
    {
      assert FollowerOk(c, s, a);
    }
  }

  lemma StepKeepsInv(c: Setting, s: State, s': State, m: Move)
    requires Inv(c, s) && Step(c, s, s', m)
    ensures Inv(c, s')
  {
    hide Inv, Sends, Takes, Announces, Hears;
    match m
    case Sending(b) => SendsKeepsInv(c, s, s', b);
    case Taking(v) => TakesKeepsInv(c, s, s', v);
    case Announcing => AnnouncesKeepsInv(c, s, s');
    case Hearing(b) => HearsKeepsInv(c, s, s', b);
  }

  lemma {:induction false} RunKeepsInv(c: Setting, run: seq<State>, n: nat)
    requires Run(c, run) && n < |run|
    ensures Inv(c, run[n])
    decreases n
  {
    if n > 0 {
      RunKeepsInv(c, run, n - 1);
      assert SomeStep(c, run[n - 1], run[n - 1 + 1]);
      var m :| Step(c, run[n - 1], run[n], m);
      hide Inv, Step;
      StepKeepsInv(c, run[n - 1], run[n], m);
    }
  }

  // ------------------------------------------------------------------
  // All nodes run the same phases
  // ------------------------------------------------------------------

  function Agreed(s: State, a: nat): seq<nat>
    requires a <= |s.followers|
  {
    if a == 0 then s.leader.agreed else s.followers[a - 1].agreed
  }

  /** Whenever a node has an epoch behind it, its number of micro-blocks there is the largest that any node has cut. */
  lemma AlignedToLargest(c: Setting, run: seq<State>, n: nat, a: nat, e: nat)
    requires Run(c, run) && n < |run| && a <= c.n
    ensures |run[n].followers| == c.n
    ensures e < |Agreed(run[n], a)| ==> Agreed(run[n], a)[e] == Largest(SizesOf(c, e))
  {
    RunKeepsInv(c, run, n);
    if a > 0 { assert FollowerOk(c, run[n], a - 1); }
  }

  datatype Kind = ReadPhase | PartitionPhase | Execute | Reserve | Analyze | Finalize | Cleanup

  function BlockPhases(n: nat): seq<Kind> {
    if n == 0 then [] else BlockPhases(n - 1) + [Execute, Reserve, Analyze, Finalize, Cleanup]
  }

  /** The phases of the epochs with these numbers of micro-blocks. */
  function Phases(agreed: seq<nat>): seq<Kind> {
    if agreed == [] then [] else Phases(agreed[..|agreed| - 1]) + [ReadPhase, PartitionPhase] + BlockPhases(agreed[|agreed| - 1])
  }

  /** So the phases of any two nodes are the same, as far as both have come. */
  lemma SamePhases(c: Setting, run: seq<State>, n: nat, a: nat, b: nat)
    requires Run(c, run) && n < |run| && a <= c.n && b <= c.n
    ensures |run[n].followers| == c.n
    ensures |Agreed(run[n], a)| <= |Agreed(run[n], b)| ==>
              Phases(Agreed(run[n], a)) == Phases(Agreed(run[n], b)[..|Agreed(run[n], a)|])
  {
    hide *;
    AlignedToLargest(c, run, n, a, 0);
    var x, y := Agreed(run[n], a), Agreed(run[n], b);
    if |x| <= |y| {
      forall e | 0 <= e < |x|
        ensures x[e] == y[e]
      {
        AlignedToLargest(c, run, n, a, e);
        AlignedToLargest(c, run, n, b, e);
      }
      assert x == y[..|x|];
    }
  }

  /** And the exchange never stops: somebody can always send, take, announce or hear. */
  lemma NeverStuck(c: Setting, s: State) returns (m: Move, s': State)
    requires Inv(c, s)
    ensures Step(c, s, s', m)
  {
    if b: nat :| b < c.n && !s.followers[b].waiting {
      var f := s.followers[b];
      m, s' := Sending(b), s.(followers := s.followers[b := f.(waiting := true)],
                              inbox := s.inbox + {SizeOf(c, b, |f.agreed|)});
    } else if b: nat :| b < c.n && s.followers[b].answers != [] {
      var f := s.followers[b];
      m, s' := Hearing(b), s.(followers := s.followers[b := Follower(false, f.agreed + [f.answers[0]], f.answers[1..])]);
    } else {
      TakenFew(c, s);
      if |s.leader.taken| == c.n {
        var agreed := s.leader.agreed + [s.leader.largest];
        m, s' := Announcing, s.(leader := Leader(c.size(0, |agreed|), {}, agreed),
                                followers := seq(c.n, b requires 0 <= b < c.n =>
                                  s.followers[b].(answers := s.followers[b].answers + [s.leader.largest])));
      } else {
        var b := Unheard(c, s);
        assert FollowerOk(c, s, b);
        var v := SizeOf(c, b, |s.leader.agreed|);
        m, s' := Taking(v), s.(leader := s.leader.(largest := Larger(s.leader.largest, v.size), taken := s.leader.taken + {v.from}),
                               inbox := s.inbox - {v});
      }
    }
  }

  lemma TakenFew(c: Setting, s: State)
    requires Inv(c, s)
    ensures |s.leader.taken| <= c.n
  {
    SmallSet(c.n, s.leader.taken);
  }

  lemma Unheard(c: Setting, s: State) returns (b: nat)
    requires Inv(c, s) && |s.leader.taken| < c.n
    ensures b < c.n && b !in s.leader.taken
  {
    if forall x: nat :: x < c.n ==> x in s.leader.taken {
      LargeSet(c.n, s.leader.taken);
    }
    b :| b < c.n && b !in s.leader.taken;
  }

  lemma {:induction false} LargeSet(n: nat, xs: set<nat>)
    requires forall x: nat :: x < n ==> x in xs
    ensures |xs| >= n
    decreases n
  {
    if n > 0 { LargeSet(n - 1, xs - {n - 1}); }
  }
}
