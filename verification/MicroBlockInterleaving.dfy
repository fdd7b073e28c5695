/**
 A micro-block of PRDCC with its transactions in the hands of concurrent workers. In
 each phase every transaction goes its own way, one load, compare-and-swap, write or
 store at a time; only the barriers between the phases hold the workers together.
 Whatever the interleaving, the block ends as its serial order prescribes.
 */
module MicroBlockInterleaving {
  import opened Transactions
  import opened AriaHelper
  import opened Aria
  import opened ProdccExecutor
  import opened ProdccMicroBlock

  datatype Phase = ExecutePhase | ReservePhase | AnalyzePhase | FinalizePhase | CleanupPhase | Over
  {
    function Next(): Phase {
      match this
      case ExecutePhase => ReservePhase
      case ReservePhase => AnalyzePhase
      case AnalyzePhase => FinalizePhase
      case FinalizePhase => CleanupPhase
      case _ => Over
    }
  }

  /** How many steps of the phase a transaction has behind it; `Holding` a word that was loaded and not yet swapped. */
  datatype Place = At(n: nat) | Holding(n: nat, word: Word)

  datatype Setting = Setting(o: Options, epoch: nat, xs: seq<Txn>, t0: Table, words: map<Key, Word>)
  {
    ghost predicate Valid() {
      ValidBatch(xs) && IndexesReadOnly(xs) && 0 < epoch < EPOCH_LIMIT && Stale(words, epoch)
    }
  }

  datatype State = State(phase: Phase, block: seq<TxnState>, words: map<Key, Word>, table: Table, places: seq<Place>)

  // ------------------------------------------------------------------
  // The accesses of a transaction: its reads, then its writes
  // ------------------------------------------------------------------

  function Accesses(x: Txn): nat { |x.readSet| + |x.writeSet| }

  function KindAt(x: Txn, a: nat): Kind { if a < |x.readSet| then ForRead else ForWrite }

  function KeyAt(x: Txn, a: nat): Key
    requires a < Accesses(x)
  {
    if a < |x.readSet| then x.readSet[a].key else x.writeSet[a - |x.readSet|]
  }

  predicate IndexAt(x: Txn, a: nat) { a < |x.readSet| && x.readSet[a].localIndex }

  /** Access `a` is one of this kind to this key, and not through a local index. */
  predicate IsAccess(x: Txn, a: nat, kind: Kind, k: Key) {
    a < Accesses(x) && !IndexAt(x, a) && KindAt(x, a) == kind && KeyAt(x, a) == k
  }

  ghost predicate AccessedBefore(x: Txn, n: nat, kind: Kind, k: Key) {
    exists a: nat :: a < n && IsAccess(x, a, kind, k)
  }

  // ------------------------------------------------------------------
  // The steps
  // ------------------------------------------------------------------

  ghost predicate Shaped(c: Setting, s: State) {
    && |s.block| == |c.xs| && |s.places| == |c.xs|
    && forall i :: 0 <= i < |c.xs| ==> s.block[i].txn == c.xs[i]
  }

  /** The steps a transaction has to make in the phase. */
  function Length(c: Setting, s: State, i: nat): nat
    requires i < |s.block|
  {
    var b := s.block[i];
    match s.phase
    case ExecutePhase => 1
    case ReservePhase => 1 + if b.Active() && Reserves(c.o, b.txn) then Accesses(b.txn) else 0
    case AnalyzePhase => 1
    case FinalizePhase => 1 + if b.Active() then |b.txn.writeSet| else 0
    case CleanupPhase => Accesses(b.txn)
    case Over => 0
  }

  predicate Usable(w: Word, epoch: nat, id: nat) { GetEpoch(w) <= epoch < EPOCH_LIMIT && 0 < id < TS_LIMIT }

  ghost predicate ReserveStep(c: Setting, s: State, s': State, i: nat)
    requires Shaped(c, s) && i < |c.xs| && 1 <= s.places[i].n < 1 + Accesses(c.xs[i])
  {
    var x, n := c.xs[i], s.places[i].n;
    var kind, k := KindAt(x, n - 1), KeyAt(x, n - 1);
    match s.places[i]
    case At(_) =>
      if IndexAt(x, n - 1) then s' == s.(places := s.places[i := At(n + 1)])
      else
        && Usable(WordOf(s.words, k), c.epoch, x.id)
        && s' == s.(places := s.places[i := if Propose(kind, WordOf(s.words, k), c.epoch, x.id).GiveUp? then At(n + 1)
                                            else Holding(n, WordOf(s.words, k))])
    case Holding(_, w) =>
      || s' == s.(places := s.places[i := At(n)])
      || (&& WordOf(s.words, k) == w && Usable(w, c.epoch, x.id) && Propose(kind, w, c.epoch, x.id).Store?
          && s' == s.(words := s.words[k := Propose(kind, w, c.epoch, x.id).word], places := s.places[i := At(n + 1)]))
  }

  /**
   One step of transaction `i`. Running the procedure and judging it are one step each: in
   these phases nobody writes the table, or the words, and all else is the transaction's own.
   */
  ghost predicate TxnStep(c: Setting, s: State, s': State, i: nat)
    requires Shaped(c, s)
  {
    && i < |c.xs| && s.places[i].n < Length(c, s, i)
    && var n, b := s.places[i].n, s.block[i];
       match s.phase
       case ExecutePhase => s' == s.(block := s.block[i := Executed(s.table, b)], places := s.places[i := At(1)])
       case ReservePhase =>
         if n == 0 then s' == s.(block := s.block[i := Filled(b)], places := s.places[i := At(1)])
         else ReserveStep(c, s, s', i)
       case AnalyzePhase => s' == s.(block := s.block[i := Analyzed(c.o, s.words, c.epoch, b)], places := s.places[i := At(1)])
       case FinalizePhase =>
         if n == 0 then s' == s.(block := s.block[i := Finalized(c.o, b)], places := s.places[i := At(1)])
         else s' == s.(table := s.table[b.txn.writeSet[n - 1] := b.txn.output(b.values, n - 1)], places := s.places[i := At(n + 1)])
       case CleanupPhase =>
         if IndexAt(b.txn, n) then s' == s.(places := s.places[i := At(n + 1)])
         else s' == s.(words := s.words[KeyAt(b.txn, n) := 0], places := s.places[i := At(n + 1)])
       case Over => false
  }

  predicate AllThrough(c: Setting, s: State)
    requires |s.block| == |s.places|
  {
    forall i :: 0 <= i < |s.places| ==> s.places[i] == At(Length(c, s, i))
  }

  /** The barrier: all are through, and the next phase begins. */
  ghost predicate PhaseStep(c: Setting, s: State, s': State)
    requires Shaped(c, s)
  {
    s.phase != Over && AllThrough(c, s) && s' == s.(phase := s.phase.Next(), places := Start(c))
  }

  function Start(c: Setting): (ps: seq<Place>)
    ensures |ps| == |c.xs| && forall i :: 0 <= i < |ps| ==> ps[i] == At(0)
  {
    seq(|c.xs|, _ => At(0))
  }

  ghost predicate Step(c: Setting, s: State, s': State)
    requires Shaped(c, s)
  {
    PhaseStep(c, s, s') || exists i: nat :: TxnStep(c, s, s', i)
  }

  function Fresh(c: Setting): State {
    State(ExecutePhase, seq(|c.xs|, i requires 0 <= i < |c.xs| => NewState(c.xs[i])), c.words, c.t0, Start(c))
  }

  ghost predicate Run(c: Setting, run: seq<State>) {
    && |run| > 0 && c.Valid() && run[0] == Fresh(c)
    && forall n :: 0 <= n < |run| - 1 ==> Shaped(c, run[n]) && Step(c, run[n], run[n + 1])
  }

  // ------------------------------------------------------------------
  // The invariant
  // ------------------------------------------------------------------

  /** Transaction `i` after the execute phase, and after the analysis of these words. */
  function Ran(c: Setting, i: nat): TxnState
    requires i < |c.xs|
  {
    Executed(c.t0, NewState(c.xs[i]))
  }

  function Judged(c: Setting, words: map<Key, Word>): (b: seq<TxnState>)
    ensures |b| == |c.xs| && forall i :: 0 <= i < |b| ==> b[i] == Analyzed(c.o, words, c.epoch, Ran(c, i))
  {
    seq(|c.xs|, i requires 0 <= i < |c.xs| => Analyzed(c.o, words, c.epoch, Ran(c, i)))
  }

  function Back(n: nat): nat { if n == 0 then 0 else n - 1 }

  /** The ids whose accesses of this kind to this key have been reserved. */
  ghost function IdsSoFar(c: Setting, s: State, kind: Kind, k: Key): set<nat>
    requires Shaped(c, s)
  {
    set i | 0 <= i < |c.xs| && AccessedBefore(c.xs[i], Back(s.places[i].n), kind, k) :: c.xs[i].id
  }

  ghost predicate AllReserved(c: Setting, words: map<Key, Word>) {
    Reservations(c.o, words, c.epoch, Members(Survivors(c.t0, c.xs)))
  }

  ghost predicate LoadedOk(c: Setting, s: State, i: nat)
    requires Shaped(c, s) && i < |c.xs|
  {
    && s.places[i].n <= Length(c, s, i)
    && (s.places[i].Holding? ==> s.phase == ReservePhase && 1 <= s.places[i].n < Length(c, s, i) && !IndexAt(c.xs[i], s.places[i].n - 1))
  }

  ghost predicate PlacesOk(c: Setting, s: State)
    requires Shaped(c, s)
  {
    forall i :: 0 <= i < |c.xs| ==> LoadedOk(c, s, i)
  }

  ghost predicate WordsOk(c: Setting, s: State)
    requires Shaped(c, s)
  {
    forall k :: Summarizes(WordOf(s.words, k), c.epoch, IdsSoFar(c, s, ForRead, k), IdsSoFar(c, s, ForWrite, k))
  }

  /** A transaction that will be committed with its writes, any other without. */
  function Writer(o: Options, s: TxnState): Txn { if Winner(o, s) then s.txn else s.txn.(writeSet := []) }

  function Writers(o: Options, b: seq<TxnState>): (c: seq<Txn>)
    ensures |c| == |b| && forall i :: 0 <= i < |c| ==> c[i] == Writer(o, b[i])
  {
    seq(|b|, i requires 0 <= i < |b| => Writer(o, b[i]))
  }

  function Progressed(places: seq<Place>): (done: seq<nat>)
    ensures |done| == |places| && forall i :: 0 <= i < |done| ==> done[i] == Back(places[i].n)
  {
    seq(|places|, i requires 0 <= i < |places| => Back(places[i].n))
  }

  /** What the block has come to: who committed, and the table. */
  ghost predicate Outcome(c: Setting, s: State) {
    var batch := Survivors(c.t0, c.xs);
    && EndOf(c.o, c.t0, c.xs, s.block)
    && Installed(c.t0, s.table, Members(Committed(c.o, batch, batch)))
    && (!c.o.snapshotIsolation ==> s.table == BlockResult(c.o, c.t0, c.xs))
  }

  /** Transaction `i` has passed an access to the key in the cleanup. */
  ghost predicate Zeroed(c: Setting, s: State, i: nat, k: Key)
    requires Shaped(c, s) && i < |c.xs|
  {
    AccessedBefore(c.xs[i], s.places[i].n, ForRead, k) || AccessedBefore(c.xs[i], s.places[i].n, ForWrite, k)
  }

  ghost predicate CleanAt(c: Setting, s: State, k: Key)
    requires Shaped(c, s)
  {
    && (forall i :: 0 <= i < |c.xs| && Zeroed(c, s, i, k) ==> WordOf(s.words, k) == 0)
    && ((forall i :: 0 <= i < |c.xs| ==> !Touches(c.xs[i], k)) ==> GetEpoch(WordOf(s.words, k)) < c.epoch)
  }

  /** Who has run, has run on the snapshot. */
  ghost predicate ExecuteInv(c: Setting, s: State)
    requires Shaped(c, s)
  {
    && s.words == c.words && s.table == c.t0
    && forall i :: 0 <= i < |c.xs| ==> s.block[i] == if s.places[i].n == 0 then NewState(c.xs[i]) else Ran(c, i)
  }

  /** The words summarize the accesses reserved so far. */
  ghost predicate ReserveInv(c: Setting, s: State)
    requires Shaped(c, s)
  {
    s.table == c.t0 && (forall i :: 0 <= i < |c.xs| ==> s.block[i] == Ran(c, i)) && WordsOk(c, s)
  }

  /** Who has been judged, has been judged by the words of the whole block. */
  ghost predicate AnalyzeInv(c: Setting, s: State)
    requires Shaped(c, s)
  {
    && s.table == c.t0 && AllReserved(c, s.words)
    && forall i :: 0 <= i < |c.xs| ==> s.block[i] == if s.places[i].n == 0 then Ran(c, i) else Judged(c, s.words)[i]
  }

  /** The table holds what the winners have written so far. */
  ghost predicate FinalizeInv(c: Setting, s: State)
    requires Shaped(c, s)
  {
    && AllReserved(c, s.words)
    && (forall i :: 0 <= i < |c.xs| ==>
          s.block[i] == if s.places[i].n == 0 then Judged(c, s.words)[i] else Finalized(c.o, Judged(c, s.words)[i]))
    && FinalizingInv(c.t0, Writers(c.o, Judged(c, s.words)), Finalizing(s.table, Progressed(s.places)))
  }

  ghost predicate PhaseInv(c: Setting, s: State)
    requires Shaped(c, s)
  {
    match s.phase
    case ExecutePhase => ExecuteInv(c, s)
    case ReservePhase => ReserveInv(c, s)
    case AnalyzePhase => AnalyzeInv(c, s)
    case FinalizePhase => FinalizeInv(c, s)
    case CleanupPhase => Outcome(c, s) && forall k :: CleanAt(c, s, k)
    case Over => Outcome(c, s) && Stale(s.words, c.epoch)
  }

  ghost predicate Inv(c: Setting, s: State) {
    c.Valid() && Shaped(c, s) && PlacesOk(c, s) && PhaseInv(c, s)
  }

  // ------------------------------------------------------------------
  // Reserving
  // ------------------------------------------------------------------

  lemma AccessedOneMore(x: Txn, n: nat, kind: Kind, k: Key)
    ensures AccessedBefore(x, n + 1, kind, k) <==> AccessedBefore(x, n, kind, k) || IsAccess(x, n, kind, k)
  {
    hide IsAccess;
    if AccessedBefore(x, n, kind, k) {
      var a: nat :| a < n && IsAccess(x, a, kind, k);
      assert a < n + 1;
    }
  }

  function IfAccess(b: bool, id: nat): set<nat> { if b then {id} else {} }

  /** One more access behind transaction `i`. */
  lemma IdsOneMore(c: Setting, s: State, s': State, i: nat, kind: Kind, k: Key)
    requires Shaped(c, s) && Shaped(c, s') && i < |c.xs| && 1 <= s.places[i].n
    requires s'.places == s.places[i := s'.places[i]] && s'.places[i].n == s.places[i].n + 1
    ensures IdsSoFar(c, s', kind, k) ==
            IdsSoFar(c, s, kind, k) + IfAccess(IsAccess(c.xs[i], s.places[i].n - 1, kind, k), c.xs[i].id)
  {
    AccessedOneMore(c.xs[i], s.places[i].n - 1, kind, k);
    hide IsAccess, AccessedBefore;
    forall j | 0 <= j < |c.xs| && j != i ensures s'.places[j] == s.places[j] {}
  }

  lemma SameIds(c: Setting, s: State, s': State, kind: Kind, k: Key)
    requires Shaped(c, s) && Shaped(c, s') && forall i :: 0 <= i < |c.xs| ==> Back(s'.places[i].n) == Back(s.places[i].n)
    ensures IdsSoFar(c, s', kind, k) == IdsSoFar(c, s, kind, k)
  {}

  lemma NoZeroId(c: Setting, s: State, kind: Kind, k: Key)
    requires Shaped(c, s) && c.Valid()
    ensures 0 !in IdsSoFar(c, s, kind, k)
  {}

  /** An access is behind transaction `i`, its word as an undisturbed call would leave it. */
  lemma ReturnKeepsWords(c: Setting, s: State, s': State, i: nat)
    requires Shaped(c, s) && Shaped(c, s') && c.Valid() && WordsOk(c, s)
    requires i < |c.xs| && 1 <= s.places[i].n < 1 + Accesses(c.xs[i]) && !IndexAt(c.xs[i], s.places[i].n - 1)
    requires s'.places == s.places[i := At(s.places[i].n + 1)]
    requires var x, a := c.xs[i], s.places[i].n - 1;
             && Usable(WordOf(s.words, KeyAt(x, a)), c.epoch, x.id)
             && WordOf(s'.words, KeyAt(x, a)) == Reserve(KindAt(x, a), WordOf(s.words, KeyAt(x, a)), c.epoch, x.id)
             && forall k :: k != KeyAt(x, a) ==> WordOf(s'.words, k) == WordOf(s.words, k)
    ensures WordsOk(c, s')
  {
    var x, a := c.xs[i], s.places[i].n - 1;
    hide IdsSoFar, Summarizes, Reserve, GetEpoch;
    forall k
      ensures Summarizes(WordOf(s'.words, k), c.epoch, IdsSoFar(c, s', ForRead, k), IdsSoFar(c, s', ForWrite, k))
    {
      IdsOneMore(c, s, s', i, ForRead, k);
      IdsOneMore(c, s, s', i, ForWrite, k);
      if k == KeyAt(x, a) {
        NoZeroId(c, s, ForRead, k);
        NoZeroId(c, s, ForWrite, k);
        ReserveSummarizes(KindAt(x, a), WordOf(s.words, k), c.epoch, x.id, IdsSoFar(c, s, ForRead, k), IdsSoFar(c, s, ForWrite, k));
        assert IfAccess(IsAccess(x, a, ForRead, k), x.id) == IdsOf(KindAt(x, a), ForRead, x.id);
        assert IfAccess(IsAccess(x, a, ForWrite, k), x.id) == IdsOf(KindAt(x, a), ForWrite, x.id);
      } else {
        assert IdsSoFar(c, s', ForRead, k) == IdsSoFar(c, s, ForRead, k);
        assert IdsSoFar(c, s', ForWrite, k) == IdsSoFar(c, s, ForWrite, k);
      }
    }
  }

  /** An index read is passed over. */
  lemma PassKeepsWords(c: Setting, s: State, s': State, i: nat)
    requires Shaped(c, s) && Shaped(c, s') && WordsOk(c, s) && s'.words == s.words
    requires i < |c.xs| && 1 <= s.places[i].n && IndexAt(c.xs[i], s.places[i].n - 1)
    requires s'.places == s.places[i := At(s.places[i].n + 1)]
    ensures WordsOk(c, s')
  {
    hide IdsSoFar, Summarizes;
    forall k
      ensures IdsSoFar(c, s', ForRead, k) == IdsSoFar(c, s, ForRead, k) && IdsSoFar(c, s', ForWrite, k) == IdsSoFar(c, s, ForWrite, k)
    {
      IdsOneMore(c, s, s', i, ForRead, k);
      IdsOneMore(c, s, s', i, ForWrite, k);
    }
  }

  /** Nothing is behind it that was not before. */
  lemma StayKeepsWords(c: Setting, s: State, s': State)
    requires Shaped(c, s) && Shaped(c, s') && WordsOk(c, s) && s'.words == s.words
    requires forall i :: 0 <= i < |c.xs| ==> Back(s'.places[i].n) == Back(s.places[i].n)
    ensures WordsOk(c, s')
  {
    hide IdsSoFar, Summarizes;
    forall k
      ensures IdsSoFar(c, s', ForRead, k) == IdsSoFar(c, s, ForRead, k) && IdsSoFar(c, s', ForWrite, k) == IdsSoFar(c, s, ForWrite, k)
    {
      SameIds(c, s, s', ForRead, k);
      SameIds(c, s, s', ForWrite, k);
    }
  }

  lemma OnePlaceMoves(c: Setting, s: State, s': State, i: nat)
    requires Shaped(c, s) && Shaped(c, s') && PlacesOk(c, s) && i < |c.xs| && s'.phase == s.phase
    requires s'.places == s.places[i := s'.places[i]]
    requires forall j :: 0 <= j < |c.xs| && j != i ==> Length(c, s', j) == Length(c, s, j)
    requires LoadedOk(c, s', i)
    ensures PlacesOk(c, s')
  {
    forall j | 0 <= j < |c.xs| && j != i
      ensures LoadedOk(c, s', j)
    {
      assert LoadedOk(c, s, j);
    }
  }

  lemma FillKeepsInv(c: Setting, s: State, s': State, i: nat)
    requires Inv(c, s) && TxnStep(c, s, s', i) && s.phase == ReservePhase && s.places[i].n == 0
    ensures Inv(c, s')
  {
    ExecuteThenFill(c.t0, c.xs[i]);
    assert s'.block == s.block;
    assert s'.places[i] == At(1);
    OnePlaceMoves(c, s, s', i);
    StayKeepsWords(c, s, s');
  }

  lemma ReserveWords(c: Setting, s: State, s': State, i: nat)
    requires Inv(c, s) && s.phase == ReservePhase && i < |c.xs| && 1 <= s.places[i].n < Length(c, s, i)
    requires ReserveStep(c, s, s', i)
    ensures Shaped(c, s') && WordsOk(c, s')
  {
    var x, n := c.xs[i], s.places[i].n;
    assert LoadedOk(c, s, i);
    hide IdsSoFar, Summarizes, WordsOk, GetEpoch;
    if IndexAt(x, n - 1) {
      PassKeepsWords(c, s, s', i);
    } else if s'.places[i] == At(n + 1) {
      ReturnKeepsWords(c, s, s', i);
    } else {
      StayKeepsWords(c, s, s');
    }
  }

  lemma ReserveDoes(c: Setting, s: State, s': State, i: nat)
    requires Shaped(c, s) && i < |c.xs| && 1 <= s.places[i].n < 1 + Accesses(c.xs[i]) && ReserveStep(c, s, s', i)
    requires s.places[i].Holding? ==> !IndexAt(c.xs[i], s.places[i].n - 1)
    ensures s'.phase == s.phase && s'.block == s.block && s'.table == s.table && s'.places == s.places[i := s'.places[i]]
    ensures var n := s.places[i].n;
            s'.places[i] == At(n) || s'.places[i] == At(n + 1) || (s'.places[i].Holding? && s'.places[i].n == n && !IndexAt(c.xs[i], n - 1))
  {
    hide Propose, GetEpoch, WordOf, KeyAt, KindAt, Usable;
  }

  lemma ReservePlaces(c: Setting, s: State, s': State, i: nat)
    requires Inv(c, s) && s.phase == ReservePhase && i < |c.xs| && 1 <= s.places[i].n < Length(c, s, i)
    requires ReserveStep(c, s, s', i)
    ensures Shaped(c, s') && PlacesOk(c, s') && s'.block == s.block && s'.table == s.table && s'.phase == s.phase
  {
    assert LoadedOk(c, s, i);
    hide PhaseInv, Reserves, Accesses, IndexAt, PlacesOk, ReserveStep;
    ReserveDoes(c, s, s', i);
    OnePlaceMoves(c, s, s', i);
  }

  lemma ReserveKeepsInv(c: Setting, s: State, s': State, i: nat)
    requires Inv(c, s) && s.phase == ReservePhase && i < |c.xs| && 1 <= s.places[i].n < Length(c, s, i)
    requires ReserveStep(c, s, s', i)
    ensures Inv(c, s')
  {
    ReservePlaces(c, s, s', i);
    ReserveWords(c, s, s', i);
    hide WordsOk, PlacesOk, ReserveStep;
  }

  // ------------------------------------------------------------------
  // The other phases
  // ------------------------------------------------------------------

  lemma ExecuteKeepsInv(c: Setting, s: State, s': State, i: nat)
    requires Inv(c, s) && TxnStep(c, s, s', i) && s.phase == ExecutePhase
    ensures Inv(c, s')
  {
    assert s.places[i].n == 0;
    OnePlaceMoves(c, s, s', i);
  }

  lemma AnalyzeKeepsInv(c: Setting, s: State, s': State, i: nat)
    requires Inv(c, s) && TxnStep(c, s, s', i) && s.phase == AnalyzePhase
    ensures Inv(c, s')
  {
    assert s.places[i].n == 0;
    hide Analyzed, AllReserved;
    OnePlaceMoves(c, s, s', i);
    hide PlacesOk;
  }

  lemma DecideKeepsInv(c: Setting, s: State, s': State, i: nat)
    requires Inv(c, s) && TxnStep(c, s, s', i) && s.phase == FinalizePhase && s.places[i].n == 0
    ensures Inv(c, s')
  {
    hide Analyzed, AllReserved, FinalizingInv, Granted;
    OnePlaceMoves(c, s, s', i);
    assert Progressed(s'.places) == Progressed(s.places);
  }

  lemma JudgedIsAnalyzed(c: Setting, words: map<Key, Word>)
    requires c.Valid() && AllReserved(c, words)
    ensures AnalyzedFrom(c.o, c.t0, Survivors(c.t0, c.xs), c.xs, Judged(c, words))
    ensures ReadyToFinalize(c.o, c.t0, Judged(c, words))
  {
    var b := seq(|c.xs|, i requires 0 <= i < |c.xs| => Ran(c, i));
    hide Analyzed, Executed;
    AnalysisOfBlock(c.o, c.t0, c.xs, words, c.epoch, b, Judged(c, words));
    AnalyzedReady(c.o, c.t0, c.xs, Judged(c, words));
  }

  lemma WritersDisjoint(o: Options, t0: Table, b: seq<TxnState>)
    requires ReadyToFinalize(o, t0, b)
    ensures DisjointWrites(Writers(o, b))
  {
    var c := Writers(o, b);
    forall i, j | 0 <= i < j < |c|
      ensures !Overlap(c[i], c[j])
    {
      assert Winner(o, b[i]) && Winner(o, b[j]) ==> !Overlap(b[i].txn, b[j].txn);
    }
  }

  /** A transaction that writes is a winner, and knows what it read. */
  lemma WritingWon(c: Setting, s: State, i: nat)
    requires Inv(c, s) && s.phase == FinalizePhase && i < |c.xs| && 0 < s.places[i].n < Length(c, s, i)
    ensures var b := Judged(c, s.words)[i];
            Winner(c.o, b) && b.txn == c.xs[i] && s.block[i] == b && b.values == ReadValues(c.t0, c.xs[i])
            && s.places[i].n < 1 + |c.xs[i].writeSet|
  {
    JudgedIsAnalyzed(c, s.words);
    hide Analyzed, AllReserved, FinalizingInv, Granted, ReadValues;
  }

  lemma WriteDoes(c: Setting, s: State, s': State, i: nat)
    requires Shaped(c, s) && TxnStep(c, s, s', i) && s.phase == FinalizePhase && s.places[i].n > 0
    ensures i < |c.xs| && s.places[i].n < Length(c, s, i) && s.places[i].n - 1 < |s.block[i].txn.writeSet|
    ensures var b, n := s.block[i], s.places[i].n;
            s' == s.(table := s.table[b.txn.writeSet[n - 1] := b.txn.output(b.values, n - 1)], places := s.places[i := At(n + 1)])
  {}

  lemma AsWriteStep(t0: Table, w: seq<Txn>, places: seq<Place>, places': seq<Place>, t: Table, t': Table, i: nat)
    requires |places| == |w| && i < |w| && 0 < places[i].n <= |w[i].writeSet| && places' == places[i := At(places[i].n + 1)]
    requires t' == t[w[i].writeSet[places[i].n - 1] := w[i].output(ReadValues(t0, w[i]), places[i].n - 1)]
    ensures WriteStep(t0, w, Finalizing(t, Progressed(places)), Finalizing(t', Progressed(places')), i)
  {
    assert Progressed(places') == Progressed(places)[i := places[i].n];
  }

  /** The write of a committing transaction is a step of the committing machine. */
  lemma WriteIsWriteStep(c: Setting, s: State, s': State, i: nat)
    requires Inv(c, s) && TxnStep(c, s, s', i) && s.phase == FinalizePhase && s.places[i].n > 0
    ensures WriteStep(c.t0, Writers(c.o, Judged(c, s.words)), Finalizing(s.table, Progressed(s.places)),
                      Finalizing(s'.table, Progressed(s'.places)), i)
  {
    InvShapes(c, s);
    ShapedSizes(c, s);
    WriteDoes(c, s, s', i);
    WritingWon(c, s, i);
    hide *;
    var w := Writers(c.o, Judged(c, s.words));
    assert w[i] == c.xs[i] by { WinnerWrites(c.o, Judged(c, s.words)[i]); }
    AsWriteStep(c.t0, w, s.places, s'.places, s.table, s'.table, i);
  }

  lemma ShapedSizes(c: Setting, s: State)
    requires Shaped(c, s)
    ensures |s.block| == |c.xs| && |s.places| == |c.xs|
  {}

  lemma WinnerWrites(o: Options, s: TxnState)
    requires Winner(o, s)
    ensures Writer(o, s) == s.txn
  {}

  lemma WriteStepOk(c: Setting, s: State, s': State, i: nat)
    requires Inv(c, s) && TxnStep(c, s, s', i) && s.phase == FinalizePhase && s.places[i].n > 0
    ensures FinalizingInv(c.t0, Writers(c.o, Judged(c, s.words)), Finalizing(s'.table, Progressed(s'.places)))
  {
    var b := Judged(c, s.words);
    WriteIsWriteStep(c, s, s', i);
    JudgedIsAnalyzed(c, s.words);
    hide *;
    WritersDisjoint(c.o, c.t0, b);
    FinalizingIs(c, s);
    WriteStepKeepsInv(c.t0, Writers(c.o, b), Finalizing(s.table, Progressed(s.places)), Finalizing(s'.table, Progressed(s'.places)), i);
  }

  lemma FinalizingIs(c: Setting, s: State)
    requires Inv(c, s) && s.phase == FinalizePhase
    ensures FinalizingInv(c.t0, Writers(c.o, Judged(c, s.words)), Finalizing(s.table, Progressed(s.places)))
  {
    hide AllReserved, Finalized, FinalizingInv, Judged, Writers, Progressed, PlacesOk, Outcome, CleanAt;
  }

  lemma WriteKeepsInv(c: Setting, s: State, s': State, i: nat)
    requires Inv(c, s) && TxnStep(c, s, s', i) && s.phase == FinalizePhase && s.places[i].n > 0
    ensures Inv(c, s')
  {
    WriteStepOk(c, s, s', i);
    WriteDoes(c, s, s', i);
    hide Judged, AllReserved, FinalizingInv, Writers, Progressed, Finalized, TxnStep, Outcome, CleanAt, Stale;
    OnePlaceMoves(c, s, s', i);
    hide PlacesOk;
  }

  lemma ZeroedOneMore(c: Setting, s: State, s': State, i: nat, j: nat, k: Key)
    requires Shaped(c, s) && Shaped(c, s') && i < |c.xs| && j < |c.xs| && s'.places == s.places[i := At(s.places[i].n + 1)]
    ensures var n := s.places[i].n;
            Zeroed(c, s', j, k) <==> Zeroed(c, s, j, k) || (j == i && n < Accesses(c.xs[i]) && !IndexAt(c.xs[i], n) && KeyAt(c.xs[i], n) == k)
  {
    var x, n := c.xs[i], s.places[i].n;
    AccessedOneMore(x, n, ForRead, k);
    AccessedOneMore(x, n, ForWrite, k);
    assert IsAccess(x, n, ForRead, k) || IsAccess(x, n, ForWrite, k) <==> n < Accesses(x) && !IndexAt(x, n) && KeyAt(x, n) == k;
    hide AccessedBefore, IsAccess;
  }

  lemma AccessTouches(x: Txn, a: nat)
    requires a < Accesses(x) && !IndexAt(x, a)
    ensures Touches(x, KeyAt(x, a))
  {
    if a < |x.readSet| {
      assert x.readSet[a] == ReadKey(KeyAt(x, a), false);
    } else {
      assert x.writeSet[a - |x.readSet|] == KeyAt(x, a);
    }
  }

  lemma CleanStays(c: Setting, s: State, s': State, i: nat, k: Key)
    requires Shaped(c, s) && Shaped(c, s') && i < |c.xs| && s.places[i].n < Accesses(c.xs[i])
    requires s'.places == s.places[i := At(s.places[i].n + 1)] && CleanAt(c, s, k)
    requires var x, n := c.xs[i], s.places[i].n;
             s'.words == if IndexAt(x, n) then s.words else s.words[KeyAt(x, n) := 0]
    ensures CleanAt(c, s', k)
  {
    var x, n := c.xs[i], s.places[i].n;
    hide GetEpoch, Zeroed, Touches;
    if !IndexAt(x, n) { AccessTouches(x, n); }
    assert WordOf(s'.words, k) == if !IndexAt(x, n) && KeyAt(x, n) == k then 0 else WordOf(s.words, k);
    forall j | 0 <= j < |c.xs| && Zeroed(c, s', j, k)
      ensures WordOf(s'.words, k) == 0
    {
      ZeroedOneMore(c, s, s', i, j, k);
    }
  }

  lemma CleanKeepsInv(c: Setting, s: State, s': State, i: nat)
    requires Inv(c, s) && TxnStep(c, s, s', i) && s.phase == CleanupPhase
    ensures Inv(c, s')
  {
    hide CleanAt, Outcome, Accesses, IndexAt, KeyAt;
    assert LoadedOk(c, s, i);
    OnePlaceMoves(c, s, s', i);
    forall k ensures CleanAt(c, s', k) { CleanStays(c, s, s', i, k); }
    OutcomeStays(c, s, s');
    hide PlacesOk;
  }

  lemma OutcomeStays(c: Setting, s: State, s': State)
    requires Outcome(c, s) && s'.block == s.block && s'.table == s.table
    ensures Outcome(c, s')
  {}

  // ------------------------------------------------------------------
  // The barriers
  // ------------------------------------------------------------------

  lemma StartPlacesOk(c: Setting, s: State)
    requires Shaped(c, s) && s.places == Start(c)
    ensures PlacesOk(c, s)
  {}

  lemma NothingAccessed(c: Setting, s: State, kind: Kind, k: Key)
    requires Shaped(c, s) && s.places == Start(c)
    ensures IdsSoFar(c, s, kind, k) == {}
  {}

  lemma ExecuteEnds(c: Setting, s: State, s': State)
    requires Inv(c, s) && PhaseStep(c, s, s') && s.phase == ExecutePhase
    ensures Inv(c, s')
  {
    StartPlacesOk(c, s');
    forall k
      ensures Summarizes(WordOf(s'.words, k), c.epoch, IdsSoFar(c, s', ForRead, k), IdsSoFar(c, s', ForWrite, k))
    {
      NothingAccessed(c, s', ForRead, k);
      NothingAccessed(c, s', ForWrite, k);
    }
  }

  lemma ReadAccess(x: Txn, k: Key)
    ensures AccessedBefore(x, Accesses(x), ForRead, k) <==> x.Reads(k)
    ensures AccessedBefore(x, Accesses(x), ForWrite, k) <==> x.WritesKey(k)
  {
    if x.Reads(k) {
      var p :| 0 <= p < |x.readSet| && x.readSet[p] == ReadKey(k, false);
      assert IsAccess(x, p, ForRead, k);
    }
    if x.WritesKey(k) {
      var q :| 0 <= q < |x.writeSet| && x.writeSet[q] == k;
      assert IsAccess(x, |x.readSet| + q, ForWrite, k);
    }
    if AccessedBefore(x, Accesses(x), ForRead, k) {
      var a: nat :| a < Accesses(x) && IsAccess(x, a, ForRead, k);
      assert x.readSet[a] == ReadKey(k, false);
    }
  }

  /** Transaction `i`, when it is through, has reserved what it accesses if it survived and reserves at all. */
  lemma ThroughMeans(c: Setting, s: State, i: nat, k: Key)
    requires Inv(c, s) && s.phase == ReservePhase && i < |c.xs| && s.places[i] == At(Length(c, s, i))
    ensures var mine := c.xs[i] in Survivors(c.t0, c.xs) && Reserves(c.o, c.xs[i]);
            && (AccessedBefore(c.xs[i], Back(s.places[i].n), ForRead, k) <==> mine && c.xs[i].Reads(k))
            && (AccessedBefore(c.xs[i], Back(s.places[i].n), ForWrite, k) <==> mine && c.xs[i].WritesKey(k))
  {
    ExecuteThenFill(c.t0, c.xs[i]);
    ReadAccess(c.xs[i], k);
    assert s.block[i] == Ran(c, i);
    hide WordsOk, PlacesOk, Reserves, ReadValues, Accesses;
  }

  lemma AllThroughMeans(c: Setting, s: State, k: Key)
    requires Inv(c, s) && s.phase == ReservePhase && AllThrough(c, s)
    ensures Shaped(c, s)
    ensures forall i :: 0 <= i < |c.xs| ==>
              (AccessedBefore(c.xs[i], Back(s.places[i].n), ForRead, k) <==>
               c.xs[i] in Survivors(c.t0, c.xs) && Reserves(c.o, c.xs[i]) && c.xs[i].Reads(k))
    ensures forall i :: 0 <= i < |c.xs| ==>
              (AccessedBefore(c.xs[i], Back(s.places[i].n), ForWrite, k) <==>
               c.xs[i] in Survivors(c.t0, c.xs) && Reserves(c.o, c.xs[i]) && c.xs[i].WritesKey(k))
  {
    InvShapes(c, s);
    hide AccessedBefore, Inv, Reserves, Length, Survivors, Back, Txn.Reads, Txn.WritesKey;
    forall i | 0 <= i < |c.xs|
      ensures AccessedBefore(c.xs[i], Back(s.places[i].n), ForRead, k) <==>
              c.xs[i] in Survivors(c.t0, c.xs) && Reserves(c.o, c.xs[i]) && c.xs[i].Reads(k)
      ensures AccessedBefore(c.xs[i], Back(s.places[i].n), ForWrite, k) <==>
              c.xs[i] in Survivors(c.t0, c.xs) && Reserves(c.o, c.xs[i]) && c.xs[i].WritesKey(k)
    {
      ThroughMeans(c, s, i, k);
    }
  }

  /** The set of ids is the same, taken over positions or over members. */
  lemma IdsByPosition(c: Setting, s: State, kind: Kind, k: Key, batch: set<Txn>)
    requires Shaped(c, s) && forall x :: x in batch ==> x in c.xs
    requires forall i :: 0 <= i < |c.xs| ==>
               (AccessedBefore(c.xs[i], Back(s.places[i].n), kind, k) <==>
                c.xs[i] in batch && Reserves(c.o, c.xs[i]) && if kind.ForRead? then c.xs[i].Reads(k) else c.xs[i].WritesKey(k))
    ensures kind.ForRead? ==> IdsSoFar(c, s, kind, k) == ReaderIds(c.o, batch, k)
    ensures kind.ForWrite? ==> IdsSoFar(c, s, kind, k) == WriterIds(c.o, batch, k)
  {
    hide AccessedBefore, Reserves, Back, Txn.Reads, Txn.WritesKey;
    forall x | x in batch
      ensures exists i :: 0 <= i < |c.xs| && c.xs[i] == x
    {
      assert x in c.xs;
    }
  }

  /** When all are through, the ids so far are those of the transactions that reserve. */
  lemma IdsComplete(c: Setting, s: State, k: Key)
    requires Inv(c, s) && s.phase == ReservePhase && AllThrough(c, s)
    ensures IdsSoFar(c, s, ForRead, k) == ReaderIds(c.o, Members(Survivors(c.t0, c.xs)), k)
    ensures IdsSoFar(c, s, ForWrite, k) == WriterIds(c.o, Members(Survivors(c.t0, c.xs)), k)
  {
    AllThroughMeans(c, s, k);
    SurvivorsAreMembers(c.t0, c.xs);
    hide *;
    IdsByPosition(c, s, ForRead, k, Members(Survivors(c.t0, c.xs)));
    IdsByPosition(c, s, ForWrite, k, Members(Survivors(c.t0, c.xs)));
  }

  lemma SurvivorsAreMembers(t: Table, xs: seq<Txn>)
    ensures forall x :: x in Members(Survivors(t, xs)) ==> x in xs
    ensures forall x :: x in Members(Survivors(t, xs)) <==> x in Survivors(t, xs)
  {}

  lemma ReserveEnds(c: Setting, s: State, s': State)
    requires Inv(c, s) && PhaseStep(c, s, s') && s.phase == ReservePhase
    ensures Inv(c, s')
  {
    StartPlacesOk(c, s');
    forall k
      ensures Summarizes(WordOf(s.words, k), c.epoch, ReaderIds(c.o, Members(Survivors(c.t0, c.xs)), k),
                         WriterIds(c.o, Members(Survivors(c.t0, c.xs)), k))
    {
      IdsComplete(c, s, k);
    }
    hide Summarizes, PlacesOk, Survivors, Ran, Judged;
    assert AllReserved(c, s'.words);
  }

  lemma AnalyzeEnds(c: Setting, s: State, s': State)
    requires Inv(c, s) && PhaseStep(c, s, s') && s.phase == AnalyzePhase
    ensures Inv(c, s')
  {
    StartPlacesOk(c, s');
    hide Analyzed, AllReserved, PlacesOk;
    assert forall i :: 0 <= i < |c.xs| ==> s.places[i].n == 1;
    NothingWritten(c.t0, Writers(c.o, Judged(c, s.words)), Progressed(s'.places));
  }

  lemma NothingWritten(t0: Table, c: seq<Txn>, done: seq<nat>)
    requires |done| == |c| && forall i :: 0 <= i < |done| ==> done[i] == 0
    ensures FinalizingInv(t0, c, Finalizing(t0, done))
  {}

  /** The committing machine over, what it wrote is what the winners write. */
  lemma WrittenIsInstalled(o: Options, t0: Table, b: seq<TxnState>, b': seq<TxnState>, t1: Table, done: seq<nat>)
    requires |b'| == |b| && forall i :: 0 <= i < |b| ==> b'[i] == Finalized(o, b[i])
    requires FinalizingInv(t0, Writers(o, b), Finalizing(t1, done))
    requires forall i :: 0 <= i < |b| ==> done[i] == |Writers(o, b)[i].writeSet|
    ensures Installed(t0, t1, ActiveAt(b', Positions(|b'|)))
  {
    var c, xs := Writers(o, b), ActiveAt(b', Positions(|b'|));
    forall k
      ensures InstalledAt(t0, t1, xs, k)
    {
      assert FinalizingAt(t0, c, Finalizing(t1, done), k);
      forall x | x in xs && x.WritesKey(k)
        ensures k in t1 && t1[k] == Effect(x, ReadValues(t0, x))[k]
      {
        var i :| 0 <= i < |b| && b'[i].Active() && b'[i].txn == x;
        assert c[i] == x && c[i].writeSet[..done[i]] == x.writeSet;
        assert WrittenSoFar(c, done, i, k);
      }
      if !SomeWriter(xs, k) {
        forall i | 0 <= i < |c|
          ensures !WrittenSoFar(c, done, i, k)
        {
          if b'[i].Active() { ActiveOne(b', i); }
          assert b'[i].Active() ==> !b'[i].txn.WritesKey(k);
        }
      }
    }
  }

  lemma ActiveOne(b: seq<TxnState>, i: nat)
    requires i < |b| && b[i].Active()
    ensures b[i].txn in ActiveAt(b, Positions(|b|))
  {
    assert Below(i, |b|);
  }

  lemma FinalizeEnds(c: Setting, s: State, s': State)
    requires Inv(c, s) && PhaseStep(c, s, s') && s.phase == FinalizePhase
    ensures Inv(c, s')
  {
    StartPlacesOk(c, s');
    FinalizeOutcome(c, s);
    assert Outcome(c, s') by { hide EndOf, Installed, BlockResult, Inv, Survivors; }
    assert AllReserved(c, s'.words);
    hide Outcome, AllReserved, Judged, FinalizingInv, PlacesOk, AllThrough, CleanAt, Finalized;
    forall k ensures CleanAt(c, s', k) { CleanFirst(c, s', k); }
  }

  lemma CleanFirst(c: Setting, s: State, k: Key)
    requires Shaped(c, s) && s.places == Start(c) && AllReserved(c, s.words)
    ensures CleanAt(c, s, k)
  {
    if forall i :: 0 <= i < |c.xs| ==> !Touches(c.xs[i], k) { UntouchedIsOld(c, s.words, k); }
  }

  lemma UntouchedIsOld(c: Setting, words: map<Key, Word>, k: Key)
    requires AllReserved(c, words) && forall i :: 0 <= i < |c.xs| ==> !Touches(c.xs[i], k)
    ensures GetEpoch(WordOf(words, k)) < c.epoch
  {
    var batch := Members(Survivors(c.t0, c.xs));
    assert forall x :: x in batch ==> x in c.xs;
    assert ReaderIds(c.o, batch, k) == {} && WriterIds(c.o, batch, k) == {};
    assert Summarizes(WordOf(words, k), c.epoch, ReaderIds(c.o, batch, k), WriterIds(c.o, batch, k));
  }

  lemma FinalizeOutcome(c: Setting, s: State)
    requires Inv(c, s) && s.phase == FinalizePhase && AllThrough(c, s)
    ensures Outcome(c, s)
  {
    var b, batch := Judged(c, s.words), Survivors(c.t0, c.xs);
    JudgedIsAnalyzed(c, s.words);
    AllWritten(c, s);
    hide Judged, AllReserved, FinalizingInv, AnalyzedFrom, ReadyToFinalize, Installed, EndOf, BlockResult, ActiveAt, Finalized, Survivors;
    assert |s.block| == |b| && forall i :: 0 <= i < |b| ==> s.block[i] == Finalized(c.o, b[i]);
    WrittenIsInstalled(c.o, c.t0, b, s.block, s.table, Progressed(s.places));
    BlockOutcome(c.o, c.t0, s.table, c.xs, b, s.block);
    FinalizedAreCommitted(c.o, c.t0, c.xs, b, s.block);
  }

  lemma AllWritten(c: Setting, s: State)
    requires Inv(c, s) && s.phase == FinalizePhase && AllThrough(c, s)
    ensures forall i :: 0 <= i < |c.xs| ==>
              && s.block[i] == Finalized(c.o, Judged(c, s.words)[i])
              && Progressed(s.places)[i] == |Writers(c.o, Judged(c, s.words))[i].writeSet|
  {
    hide Analyzed, AllReserved, FinalizingInv;
    forall i | 0 <= i < |c.xs|
      ensures s.block[i] == Finalized(c.o, Judged(c, s.words)[i])
      ensures Progressed(s.places)[i] == |Writers(c.o, Judged(c, s.words))[i].writeSet|
    {
      assert s.places[i] == At(Length(c, s, i));
    }
  }

  lemma TouchedIsAccessed(x: Txn, k: Key)
    requires Touches(x, k)
    ensures AccessedBefore(x, Accesses(x), ForRead, k) || AccessedBefore(x, Accesses(x), ForWrite, k)
  {
    ReadAccess(x, k);
  }

  lemma CleanupEnds(c: Setting, s: State, s': State)
    requires Inv(c, s) && PhaseStep(c, s, s') && s.phase == CleanupPhase
    ensures Inv(c, s')
  {
    StartPlacesOk(c, s');
    assert Outcome(c, s');
    hide Outcome;
    forall k
      ensures GetEpoch(WordOf(s.words, k)) < c.epoch
    {
      assert CleanAt(c, s, k);
      if i :| 0 <= i < |c.xs| && Touches(c.xs[i], k) {
        assert s.places[i] == At(Length(c, s, i));
        TouchedIsAccessed(c.xs[i], k);
        assert Zeroed(c, s, i, k);
        ZeroIsOld(c.epoch);
      }
    }
  }

  // ------------------------------------------------------------------
  // Every run
  // ------------------------------------------------------------------

  lemma TxnStepKeepsInv(c: Setting, s: State, s': State, i: nat)
    requires Inv(c, s) && TxnStep(c, s, s', i)
    ensures Inv(c, s')
  {
    hide Inv;
    InvShapes(c, s);
    match s.phase
    case ExecutePhase => ExecuteKeepsInv(c, s, s', i);
    case ReservePhase => if s.places[i].n == 0 { FillKeepsInv(c, s, s', i); } else { ReserveKeepsInv(c, s, s', i); }
    case AnalyzePhase => AnalyzeKeepsInv(c, s, s', i);
    case FinalizePhase => if s.places[i].n == 0 { DecideKeepsInv(c, s, s', i); } else { WriteKeepsInv(c, s, s', i); }
    case CleanupPhase => CleanKeepsInv(c, s, s', i);
    case Over =>
  }

  lemma InvShapes(c: Setting, s: State)
    requires Inv(c, s)
    ensures Shaped(c, s)
  {}

  lemma PhaseStepKeepsInv(c: Setting, s: State, s': State)
    requires Inv(c, s) && PhaseStep(c, s, s')
    ensures Inv(c, s')
  {
    hide Inv;
    InvShapes(c, s);
    match s.phase
    case ExecutePhase => ExecuteEnds(c, s, s');
    case ReservePhase => ReserveEnds(c, s, s');
    case AnalyzePhase => AnalyzeEnds(c, s, s');
    case FinalizePhase => FinalizeEnds(c, s, s');
    case CleanupPhase => CleanupEnds(c, s, s');
    case Over =>
  }

  lemma StepKeepsInv(c: Setting, s: State, s': State)
    requires Inv(c, s) && Step(c, s, s')
    ensures Inv(c, s')
  {
    hide Inv, TxnStep, PhaseStep;
    InvShapes(c, s);
    if PhaseStep(c, s, s') {
      PhaseStepKeepsInv(c, s, s');
    } else {
      var i: nat :| TxnStep(c, s, s', i);
      TxnStepKeepsInv(c, s, s', i);
    }
  }

  lemma FreshHasInv(c: Setting)
    requires c.Valid()
    ensures Inv(c, Fresh(c))
  {}

  lemma {:induction false} RunKeepsInv(c: Setting, run: seq<State>, n: nat)
    requires Run(c, run) && n < |run|
    ensures Inv(c, run[n])
    decreases n
  {
    hide Inv, Step, Fresh;
    if n == 0 {
      FreshHasInv(c);
    } else {
      RunKeepsInv(c, run, n - 1);
      StepKeepsInv(c, run[n - 1], run[n]);
    }
  }

  /**
   Whatever the interleaving, a micro-block that is over has committed exactly what the
   commit rule lets commit, holds exactly their writes, is that of its serial order, and
   has left no word with a reservation of its epoch.
   */
  lemma EveryRunEndsSerially(c: Setting, run: seq<State>)
    requires Run(c, run) && run[|run| - 1].phase == Over
    ensures var s := run[|run| - 1];
            && EndOf(c.o, c.t0, c.xs, s.block) && Stale(s.words, c.epoch)
            && Installed(c.t0, s.table, Members(Committed(c.o, Survivors(c.t0, c.xs), Survivors(c.t0, c.xs))))
            && (!c.o.snapshotIsolation ==> s.table == BlockResult(c.o, c.t0, c.xs))
  {
    assert |run| > 0;
    hide EndOf, Stale, Installed, BlockResult, Run;
    RunKeepsInv(c, run, |run| - 1);
  }
}
