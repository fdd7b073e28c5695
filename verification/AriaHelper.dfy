/**
 The 64-bit metadata word of a record under Aria and PRDCC, and the two
 compare-and-swap loops that reserve a record for reading and for writing.

 A shift right by n is a division by 2^n and a mask of n ones a remainder by
 2^n, so the word is modelled as a number below 2^64.
 */
module AriaHelper {

  // [epoch (24) | read-rts (20) | write-wts (20)]
  const EPOCH_UNIT: nat := 0x100_0000_0000
  const RTS_UNIT: nat := 0x10_0000
  const EPOCH_LIMIT: nat := 0x100_0000
  const TS_LIMIT: nat := 0x10_0000

  type Word = w: int | 0 <= w < 0x1_0000_0000_0000_0000

  function GetEpoch(w: Word): nat { w / EPOCH_UNIT % EPOCH_LIMIT }

  function GetRts(w: Word): nat { w / RTS_UNIT % TS_LIMIT }

  function GetWts(w: Word): nat { w % TS_LIMIT }

  function SetEpoch(w: Word, epoch: nat): Word
    requires epoch < EPOCH_LIMIT
  {
    w - GetEpoch(w) * EPOCH_UNIT + epoch * EPOCH_UNIT
  }

  function SetRts(w: Word, rts: nat): Word
    requires rts < TS_LIMIT
  {
    w - GetRts(w) * RTS_UNIT + rts * RTS_UNIT
  }

  function SetWts(w: Word, wts: nat): Word
    requires wts < TS_LIMIT
  {
    w - GetWts(w) + wts
  }

  function Pack(epoch: nat, rts: nat, wts: nat): Word
    requires epoch < EPOCH_LIMIT && rts < TS_LIMIT && wts < TS_LIMIT
  {
    epoch * EPOCH_UNIT + rts * RTS_UNIT + wts
  }

  lemma PackUnpack(w: Word)
    ensures w == Pack(GetEpoch(w), GetRts(w), GetWts(w))
  {}

  lemma UnpackPack(epoch: nat, rts: nat, wts: nat)
    requires epoch < EPOCH_LIMIT && rts < TS_LIMIT && wts < TS_LIMIT
    ensures GetEpoch(Pack(epoch, rts, wts)) == epoch
    ensures GetRts(Pack(epoch, rts, wts)) == rts
    ensures GetWts(Pack(epoch, rts, wts)) == wts
  {}

  /** Writing a field is seen by its own reader and by no other. */
  lemma FieldsIndependent(w: Word, epoch: nat, ts: nat)
    requires epoch < EPOCH_LIMIT && ts < TS_LIMIT
    ensures SetEpoch(w, epoch) == Pack(epoch, GetRts(w), GetWts(w))
    ensures GetEpoch(SetEpoch(w, epoch)) == epoch && GetRts(SetEpoch(w, epoch)) == GetRts(w)
    ensures GetWts(SetEpoch(w, epoch)) == GetWts(w)
    ensures GetRts(SetRts(w, ts)) == ts && GetEpoch(SetRts(w, ts)) == GetEpoch(w)
    ensures GetWts(SetRts(w, ts)) == GetWts(w)
    ensures GetWts(SetWts(w, ts)) == ts && GetEpoch(SetWts(w, ts)) == GetEpoch(w)
    ensures GetRts(SetWts(w, ts)) == GetRts(w)
  {
    PackUnpack(w);
    var e, r, t := GetEpoch(w), GetRts(w), GetWts(w);
    UnpackPack(epoch, r, t);
    UnpackPack(e, ts, t);
    UnpackPack(e, r, ts);
    assert SetEpoch(w, epoch) == Pack(epoch, r, t);
    assert SetRts(w, ts) == Pack(e, ts, t);
    assert SetWts(w, ts) == Pack(e, r, ts);
  }

  /** The three fields are the whole word. */
  lemma FieldsDetermineWord(v: Word, w: Word)
    requires GetEpoch(v) == GetEpoch(w) && GetRts(v) == GetRts(w) && GetWts(v) == GetWts(w)
    ensures v == w
  {
    PackUnpack(v);
    PackUnpack(w);
  }

  // ------------------------------------------------------------------
  // reserve_read and reserve_write
  // ------------------------------------------------------------------

  datatype Kind = ForRead | ForWrite

  /** What one pass of the loop decides on the value it loaded. */
  datatype Proposal = GiveUp | Store(word: Word)

  function GetTs(kind: Kind, w: Word): nat {
    if kind.ForRead? then GetRts(w) else GetWts(w)
  }

  function SetTs(kind: Kind, w: Word, ts: nat): Word
    requires ts < TS_LIMIT
  {
    if kind.ForRead? then SetRts(w, ts) else SetWts(w, ts)
  }

  function Propose(kind: Kind, old_value: Word, epoch: nat, tid: nat): Proposal
    requires GetEpoch(old_value) <= epoch < EPOCH_LIMIT && 0 < tid < TS_LIMIT
  {
    if epoch > GetEpoch(old_value) then
      Store(SetTs(kind, SetEpoch(0, epoch), tid))
    else if GetTs(kind, old_value) < tid && GetTs(kind, old_value) != 0 then
      GiveUp
    else
      Store(SetTs(kind, old_value, tid))
  }

  /** The effect on the word of a call that nobody disturbs. */
  function Reserve(kind: Kind, w: Word, epoch: nat, tid: nat): Word
    requires GetEpoch(w) <= epoch < EPOCH_LIMIT && 0 < tid < TS_LIMIT
  {
    match Propose(kind, w, epoch, tid)
    case GiveUp => w
    case Store(w') => w'
  }

  /** `v` is the smallest id of `s`, or 0 when there is none. */
  ghost predicate MinOrZero(v: nat, s: set<nat>) {
    if s == {} then v == 0 else v in s && forall x :: x in s ==> v <= x
  }

  /**
   The word after the calls of `epoch` with these reader and writer ids: stale
   when there were none, otherwise the smallest reader and the smallest writer.
   */
  ghost predicate Summarizes(w: Word, epoch: nat, readers: set<nat>, writers: set<nat>) {
    if readers + writers == {} then GetEpoch(w) < epoch
    else GetEpoch(w) == epoch && MinOrZero(GetRts(w), readers) && MinOrZero(GetWts(w), writers)
  }

  function IdsOf(kind: Kind, wanted: Kind, tid: nat): set<nat> {
    if kind == wanted then {tid} else {}
  }

  lemma ReserveSummarizes(kind: Kind, w: Word, epoch: nat, tid: nat, readers: set<nat>, writers: set<nat>)
    requires Summarizes(w, epoch, readers, writers)
    requires epoch < EPOCH_LIMIT && 0 < tid < TS_LIMIT
    requires 0 !in readers && 0 !in writers
    ensures Summarizes(Reserve(kind, w, epoch, tid), epoch,
                       readers + IdsOf(kind, ForRead, tid), writers + IdsOf(kind, ForWrite, tid))
  {
    if GetEpoch(w) < epoch {
      assert readers == {} && writers == {};
      FieldsIndependent(0, epoch, tid);
      FieldsIndependent(SetEpoch(0, epoch), epoch, tid);
    } else {
      FieldsIndependent(w, epoch, tid);
    }
  }

  lemma SummaryUnique(v: Word, w: Word, epoch: nat, readers: set<nat>, writers: set<nat>)
    requires readers + writers != {}
    requires Summarizes(v, epoch, readers, writers) && Summarizes(w, epoch, readers, writers)
    ensures v == w
  {
    FieldsDetermineWord(v, w);
  }

  // ------------------------------------------------------------------
  // Any number of calls racing on one word, a load and a compare-and-swap
  // being separate steps
  // ------------------------------------------------------------------

  datatype Call = Call(kind: Kind, tid: nat)

  datatype Pc = AtLoad | AtCas(old_value: Word) | Returned

  datatype Race = Race(word: Word, pcs: seq<Pc>)

  ghost predicate ValidCalls(calls: seq<Call>) {
    forall i :: 0 <= i < |calls| ==> 0 < calls[i].tid < TS_LIMIT
  }

  ghost function ReturnedIds(calls: seq<Call>, s: Race, kind: Kind): set<nat> {
    set i | 0 <= i < |calls| && i < |s.pcs| && s.pcs[i].Returned? && calls[i].kind == kind :: calls[i].tid
  }

  /** The word summarizes the calls that have returned, and no loaded value is of a later epoch. */
  ghost predicate RaceInv(calls: seq<Call>, epoch: nat, s: Race) {
    && |s.pcs| == |calls|
    && epoch < EPOCH_LIMIT
    && ValidCalls(calls)
    && Summarizes(s.word, epoch, ReturnedIds(calls, s, ForRead), ReturnedIds(calls, s, ForWrite))
    && forall i :: 0 <= i < |s.pcs| && s.pcs[i].AtCas? ==>
         GetEpoch(s.pcs[i].old_value) <= epoch
         && Propose(calls[i].kind, s.pcs[i].old_value, epoch, calls[i].tid).Store?
  }

  ghost predicate Load(calls: seq<Call>, epoch: nat, s: Race, s': Race, i: nat)
    requires RaceInv(calls, epoch, s)
  {
    && i < |calls| && s.pcs[i].AtLoad?
    && s' == s.(pcs := s.pcs[i := if Propose(calls[i].kind, s.word, epoch, calls[i].tid).GiveUp?
                                  then Returned else AtCas(s.word)])
  }

  ghost predicate CasSucceeds(calls: seq<Call>, epoch: nat, s: Race, s': Race, i: nat)
    requires RaceInv(calls, epoch, s)
  {
    && i < |calls| && s.pcs[i].AtCas? && s.pcs[i].old_value == s.word
    && s' == Race(Propose(calls[i].kind, s.word, epoch, calls[i].tid).word, s.pcs[i := Returned])
  }

  /** The weak form may also fail when the values agree. */
  ghost predicate CasFails(calls: seq<Call>, s: Race, s': Race, i: nat) {
    && i < |calls| && i < |s.pcs| && s.pcs[i].AtCas?
    && s' == s.(pcs := s.pcs[i := AtLoad])
  }

  ghost predicate RaceStep(calls: seq<Call>, epoch: nat, s: Race, s': Race)
    requires RaceInv(calls, epoch, s)
  {
    exists i: nat :: Load(calls, epoch, s, s', i) || CasSucceeds(calls, epoch, s, s', i)
                          || CasFails(calls, s, s', i)
  }

  lemma ReturnAddsId(calls: seq<Call>, s: Race, s': Race, i: nat)
    requires |s.pcs| == |s'.pcs| == |calls| && i < |calls| && !s.pcs[i].Returned?
    requires s'.pcs == s.pcs[i := Returned]
    ensures forall kind :: ReturnedIds(calls, s', kind) ==
                           ReturnedIds(calls, s, kind) + IdsOf(calls[i].kind, kind, calls[i].tid)
  {
    forall kind
      ensures ReturnedIds(calls, s', kind) == ReturnedIds(calls, s, kind) + IdsOf(calls[i].kind, kind, calls[i].tid)
    {
      assert forall j :: 0 <= j < |calls| && j != i ==> s'.pcs[j] == s.pcs[j];
    }
  }

  /** A call returns, having left in the word what an undisturbed call would leave. */
  lemma ReturnKeepsInv(calls: seq<Call>, epoch: nat, s: Race, s': Race, i: nat)
    requires RaceInv(calls, epoch, s)
    requires i < |calls| && !s.pcs[i].Returned? && s'.pcs == s.pcs[i := Returned]
    requires GetEpoch(s.word) <= epoch && s'.word == Reserve(calls[i].kind, s.word, epoch, calls[i].tid)
    ensures RaceInv(calls, epoch, s')
  {
    ReturnAddsId(calls, s, s', i);
    ReserveSummarizes(calls[i].kind, s.word, epoch, calls[i].tid,
                      ReturnedIds(calls, s, ForRead), ReturnedIds(calls, s, ForWrite));
  }

  /** A call moves between its load and its compare-and-swap. */
  lemma PassKeepsInv(calls: seq<Call>, epoch: nat, s: Race, s': Race, i: nat)
    requires RaceInv(calls, epoch, s)
    requires i < |calls| && !s.pcs[i].Returned? && s'.word == s.word
    requires s'.pcs == s.pcs[i := AtLoad]
             || (GetEpoch(s.word) <= epoch && Propose(calls[i].kind, s.word, epoch, calls[i].tid).Store?
                 && s'.pcs == s.pcs[i := AtCas(s.word)])
    ensures RaceInv(calls, epoch, s')
  {
    assert ReturnedIds(calls, s', ForRead) == ReturnedIds(calls, s, ForRead);
    assert ReturnedIds(calls, s', ForWrite) == ReturnedIds(calls, s, ForWrite);
  }

  lemma RaceStepKeepsInv(calls: seq<Call>, epoch: nat, s: Race, s': Race)
    requires RaceInv(calls, epoch, s) && RaceStep(calls, epoch, s, s')
    ensures RaceInv(calls, epoch, s')
  {
    var i: nat :| Load(calls, epoch, s, s', i) || CasSucceeds(calls, epoch, s, s', i) || CasFails(calls, s, s', i);
    if s'.pcs[i].Returned? {
      ReturnKeepsInv(calls, epoch, s, s', i);
    } else {
      PassKeepsInv(calls, epoch, s, s', i);
    }
  }

  /** Every call at its first load, on a word left by an earlier epoch. */
  ghost predicate RaceInit(calls: seq<Call>, epoch: nat, s: Race) {
    && |s.pcs| == |calls| && epoch < EPOCH_LIMIT && ValidCalls(calls)
    && GetEpoch(s.word) < epoch
    && forall i :: 0 <= i < |s.pcs| ==> s.pcs[i] == AtLoad
  }

  ghost predicate RaceOver(s: Race) {
    forall i :: 0 <= i < |s.pcs| ==> s.pcs[i].Returned?
  }

  ghost predicate RaceRun(calls: seq<Call>, epoch: nat, run: seq<Race>) {
    && |run| > 0 && RaceInit(calls, epoch, run[0])
    && forall n :: 0 <= n < |run| - 1 ==> RaceInv(calls, epoch, run[n]) ==> RaceStep(calls, epoch, run[n], run[n + 1])
  }

  lemma {:induction false} RaceRunKeepsInv(calls: seq<Call>, epoch: nat, run: seq<Race>, n: nat)
    requires RaceRun(calls, epoch, run) && n < |run|
    ensures RaceInv(calls, epoch, run[n])
    decreases n
  {
    if n == 0 {
      assert ReturnedIds(calls, run[0], ForRead) == {} && ReturnedIds(calls, run[0], ForWrite) == {};
    } else {
      RaceRunKeepsInv(calls, epoch, run, n - 1);
      RaceStepKeepsInv(calls, epoch, run[n - 1], run[n]);
    }
  }

  ghost function CallIds(calls: seq<Call>, kind: Kind): set<nat> {
    set i | 0 <= i < |calls| && calls[i].kind == kind :: calls[i].tid
  }

  /** However the calls interleave, the word ends with the smallest reader and the smallest writer. */
  lemma ReservationIsMinimum(calls: seq<Call>, epoch: nat, run: seq<Race>)
    requires RaceRun(calls, epoch, run) && RaceOver(run[|run| - 1])
    ensures Summarizes(run[|run| - 1].word, epoch, CallIds(calls, ForRead), CallIds(calls, ForWrite))
  {
    RaceRunKeepsInv(calls, epoch, run, |run| - 1);
    var s := run[|run| - 1];
    assert ReturnedIds(calls, s, ForRead) == CallIds(calls, ForRead);
    assert ReturnedIds(calls, s, ForWrite) == CallIds(calls, ForWrite);
  }

  /** Two complete runs of the same calls agree on the word, whatever stale words they started from. */
  lemma ReservationOrderIndependent(calls: seq<Call>, epoch: nat, run1: seq<Race>, run2: seq<Race>)
    requires RaceRun(calls, epoch, run1) && RaceOver(run1[|run1| - 1])
    requires RaceRun(calls, epoch, run2) && RaceOver(run2[|run2| - 1])
    requires |calls| > 0
    ensures run1[|run1| - 1].word == run2[|run2| - 1].word
  {
    ReservationIsMinimum(calls, epoch, run1);
    ReservationIsMinimum(calls, epoch, run2);
    var kind := calls[0].kind;
    assert calls[0].tid in CallIds(calls, kind);
    assert CallIds(calls, ForRead) + CallIds(calls, ForWrite) != {};
    SummaryUnique(run1[|run1| - 1].word, run2[|run2| - 1].word, epoch, CallIds(calls, ForRead), CallIds(calls, ForWrite));
  }

  // Termination: a step that is no spurious failure brings the race closer to its end.

  function Unreturned(pcs: seq<Pc>): nat {
    if pcs == [] then 0 else Unreturned(pcs[1..]) + (if pcs[0].Returned? then 0 else 1)
  }

  /** A call about to succeed is 1 step away, one about to load 2, one about to fail 3. */
  function Distance(word: Word, pcs: seq<Pc>): nat {
    if pcs == [] then 0
    else Distance(word, pcs[1..]) +
         (match pcs[0] case Returned => 0 case AtLoad => 2 case AtCas(v) => if v == word then 1 else 3)
  }

  lemma UpdateMoves(word: Word, pcs: seq<Pc>, i: nat, pc: Pc)
    requires i < |pcs|
    ensures Unreturned(pcs[i := pc]) - Unreturned([pc]) == Unreturned(pcs) - Unreturned([pcs[i]])
    ensures Distance(word, pcs[i := pc]) - Distance(word, [pc]) == Distance(word, pcs) - Distance(word, [pcs[i]])
  {
    if i == 0 {
      assert pcs[0 := pc][1..] == pcs[1..];
    } else {
      assert pcs[i := pc][1..] == pcs[1..][i - 1 := pc];
      UpdateMoves(word, pcs[1..], i - 1, pc);
    }
  }

  /** The loops cannot keep each other from returning: every step that does not fail spuriously is progress. */
  lemma RaceMakesProgress(calls: seq<Call>, epoch: nat, s: Race, s': Race, i: nat)
    requires RaceInv(calls, epoch, s)
    requires Load(calls, epoch, s, s', i) || CasSucceeds(calls, epoch, s, s', i)
             || (CasFails(calls, s, s', i) && s.pcs[i].old_value != s.word)
    ensures Unreturned(s'.pcs) < Unreturned(s.pcs)
            || (Unreturned(s'.pcs) == Unreturned(s.pcs) && Distance(s'.word, s'.pcs) < Distance(s.word, s.pcs))
  {
    UpdateMoves(s.word, s.pcs, i, s'.pcs[i]);
  }

  /** And a race that is not over can always take such a step. */
  lemma RaceNeverStuck(calls: seq<Call>, epoch: nat, s: Race, i: nat)
    requires RaceInv(calls, epoch, s) && i < |calls| && !s.pcs[i].Returned?
    ensures exists s' :: Load(calls, epoch, s, s', i) || CasSucceeds(calls, epoch, s, s', i)
                         || (CasFails(calls, s, s', i) && s.pcs[i].old_value != s.word)
  {
    var pc := s.pcs[i];
    if pc.AtLoad? {
      var giveUp := Propose(calls[i].kind, s.word, epoch, calls[i].tid).GiveUp?;
      assert Load(calls, epoch, s, s.(pcs := s.pcs[i := if giveUp then Returned else AtCas(s.word)]), i);
    } else if pc.old_value == s.word {
      assert CasSucceeds(calls, epoch, s, Race(Propose(calls[i].kind, s.word, epoch, calls[i].tid).word, s.pcs[i := Returned]), i);
    } else {
      assert CasFails(calls, s, s.(pcs := s.pcs[i := AtLoad]), i);
    }
  }
}
