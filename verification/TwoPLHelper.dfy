/**
 The lock word of a row under two-phase locking: [ write lock (1) | read locks (9) |
 tid (54) ]. Locks are taken and released by compare-and-swap on the whole word, by
 any number of clients at once.
 */
module TwoPLHelper {

  const WORD_LIMIT := 0x1_0000_0000_0000_0000
  const READ_LOCK_UNIT := 0x40_0000_0000_0000
  const WRITE_LOCK_UNIT := 0x8000_0000_0000_0000
  const READ_LOCK_MAX := 0x1FF

  type Word = w: int | 0 <= w < WORD_LIMIT

  function ReadLockNum(w: Word): nat { w / READ_LOCK_UNIT % (READ_LOCK_MAX + 1) }

  predicate IsReadLocked(w: Word) { ReadLockNum(w) != 0 }

  predicate IsWriteLocked(w: Word) { w / WRITE_LOCK_UNIT % 2 != 0 }

  function RemoveLockBit(w: Word): Word { w % READ_LOCK_UNIT }

  /** The word with these fields. */
  function Encode(write: bool, readers: nat, tid: nat): Word
    requires readers <= READ_LOCK_MAX && tid < READ_LOCK_UNIT
  {
    (if write then WRITE_LOCK_UNIT else 0) + readers * READ_LOCK_UNIT + tid
  }

  /** The fields read back what was put in, and no other word has these fields. */
  lemma EncodeDecode(write: bool, readers: nat, tid: nat)
    requires readers <= READ_LOCK_MAX && tid < READ_LOCK_UNIT
    ensures var w := Encode(write, readers, tid);
            IsWriteLocked(w) == write && ReadLockNum(w) == readers && RemoveLockBit(w) == tid
  {
    var w := Encode(write, readers, tid);
    assert w / READ_LOCK_UNIT == (if write then 512 else 0) + readers;
  }

  lemma DecodeEncode(w: Word)
    ensures ReadLockNum(w) <= READ_LOCK_MAX && RemoveLockBit(w) < READ_LOCK_UNIT
    ensures w == Encode(IsWriteLocked(w), ReadLockNum(w), RemoveLockBit(w))
  {
    var high := w / READ_LOCK_UNIT;
    assert w == high * READ_LOCK_UNIT + w % READ_LOCK_UNIT;
    assert high / 512 == w / WRITE_LOCK_UNIT;
  }

  // ------------------------------------------------------------------
  // The clients
  // ------------------------------------------------------------------

  datatype Op =
    | ReadLock
    | WriteLock
    | ReadLockRelease
    | WriteLockRelease
    | WriteLockReleaseWith(newTid: nat)

  /** Between two calls a client holds nothing, a read lock or the write lock; during a call it has seen a word. */
  datatype Client = Idle | Reading | Writing | Swapping(op: Op, seen: Word)
  {
    /** A lock is held until the releasing swap has succeeded. */
    predicate HoldsRead() { Reading? || (Swapping? && op.ReadLockRelease?) }

    predicate HoldsWrite() { Writing? || (Swapping? && (op.WriteLockRelease? || op.WriteLockReleaseWith?)) }
  }

  datatype Shared = Shared(word: Word, clients: seq<Client>)

  function Readers(clients: seq<Client>): (n: nat)
    ensures n <= |clients|
  {
    if clients == [] then 0
    else Readers(clients[..|clients| - 1]) + if clients[|clients| - 1].HoldsRead() then 1 else 0
  }

  function Writers(clients: seq<Client>): (n: nat)
    ensures n <= |clients|
  {
    if clients == [] then 0
    else Writers(clients[..|clients| - 1]) + if clients[|clients| - 1].HoldsWrite() then 1 else 0
  }

  predicate MayStart(c: Client, op: Op) {
    match op
    case ReadLock => c.Idle?
    case WriteLock => c.Idle?
    case ReadLockRelease => c.Reading?
    case WriteLockRelease => c.Writing?
    case WriteLockReleaseWith(newTid) => c.Writing? && newTid < READ_LOCK_UNIT
  }

  /** The call gives up on what it has seen. */
  predicate Refused(op: Op, seen: Word) {
    match op
    case ReadLock => IsWriteLocked(seen) || ReadLockNum(seen) == READ_LOCK_MAX
    case WriteLock => IsReadLocked(seen) || IsWriteLocked(seen)
    case _ => false
  }

  /** The word the call wants to put in place of the one it has seen. */
  function NewWord(op: Op, seen: Word): int {
    match op
    case ReadLock => seen + READ_LOCK_UNIT
    case WriteLock => seen + WRITE_LOCK_UNIT
    case ReadLockRelease => seen - READ_LOCK_UNIT
    case WriteLockRelease => seen - WRITE_LOCK_UNIT
    case WriteLockReleaseWith(newTid) => newTid
  }

  function After(op: Op): Client {
    match op
    case ReadLock => Reading
    case WriteLock => Writing
    case _ => Idle
  }

  function Before(op: Op): Client {
    match op
    case ReadLock => Idle
    case WriteLock => Idle
    case ReadLockRelease => Reading
    case _ => Writing
  }

  /** A call loads the word, and goes on to swap unless it is refused. */
  ghost predicate Load(s: Shared, s': Shared, i: nat, op: Op) {
    && i < |s.clients| && MayStart(s.clients[i], op)
    && s' == (if Refused(op, s.word) then s else s.(clients := s.clients[i := Swapping(op, s.word)]))
  }

  ghost predicate SwapSucceeds(s: Shared, s': Shared, i: nat) {
    && i < |s.clients| && s.clients[i].Swapping? && s.clients[i].seen == s.word
    && s'.word == NewWord(s.clients[i].op, s.word)
    && s'.clients == s.clients[i := After(s.clients[i].op)]
  }

  /** Someone else changed the word: the loops load again, the try-lock gives up. */
  ghost predicate SwapFails(s: Shared, s': Shared, i: nat) {
    && i < |s.clients| && s.clients[i].Swapping? && s.clients[i].seen != s.word
    && s' == s.(clients := s.clients[i := Before(s.clients[i].op)])
  }

  ghost predicate Step(s: Shared, s': Shared, i: nat) {
    (exists op :: Load(s, s', i, op)) || SwapSucceeds(s, s', i) || SwapFails(s, s', i)
  }

  // ------------------------------------------------------------------
  // The invariant
  // ------------------------------------------------------------------

  /** The word counts its holders, and a swap in progress has seen a word that allowed it. */
  ghost predicate Inv(s: Shared) {
    && ReadLockNum(s.word) == Readers(s.clients)
    && (if IsWriteLocked(s.word) then Writers(s.clients) == 1 && Readers(s.clients) == 0 else Writers(s.clients) == 0)
    && forall i :: 0 <= i < |s.clients| && s.clients[i].Swapping? ==> SeenRight(s.word, s.clients[i])
  }

  /** Nobody changes the word of a writer; all others have seen some word that let them go on. */
  predicate SeenRight(word: Word, c: Client)
    requires c.Swapping?
  {
    match c.op
    case ReadLock => !Refused(ReadLock, c.seen)
    case WriteLock => !Refused(WriteLock, c.seen)
    case ReadLockRelease => true
    case WriteLockRelease => c.seen == word
    case WriteLockReleaseWith(newTid) => c.seen == word && newTid < READ_LOCK_UNIT
  }

  lemma {:induction false} ReadersUpdate(clients: seq<Client>, i: nat, c: Client)
    requires i < |clients|
    ensures Readers(clients[i := c]) ==
            Readers(clients) - (if clients[i].HoldsRead() then 1 else 0) + (if c.HoldsRead() then 1 else 0)
    decreases |clients|
  {
    var n := |clients| - 1;
    assert clients[i := c][..n] == if i < n then clients[..n][i := c] else clients[..n];
    if i < n { ReadersUpdate(clients[..n], i, c); }
  }

  lemma {:induction false} WritersUpdate(clients: seq<Client>, i: nat, c: Client)
    requires i < |clients|
    ensures Writers(clients[i := c]) ==
            Writers(clients) - (if clients[i].HoldsWrite() then 1 else 0) + (if c.HoldsWrite() then 1 else 0)
    decreases |clients|
  {
    var n := |clients| - 1;
    assert clients[i := c][..n] == if i < n then clients[..n][i := c] else clients[..n];
    if i < n { WritersUpdate(clients[..n], i, c); }
  }

  lemma HolderCounts(clients: seq<Client>, i: nat)
    requires i < |clients|
    ensures clients[i].HoldsRead() ==> Readers(clients) >= 1
    ensures clients[i].HoldsWrite() ==> Writers(clients) >= 1
    ensures forall j :: 0 <= j < |clients| && j != i && clients[i].HoldsWrite() && clients[j].HoldsWrite() ==> Writers(clients) >= 2
  {
    ReadersUpdate(clients, i, Idle);
    WritersUpdate(clients, i, Idle);
    forall j | 0 <= j < |clients| && j != i && clients[i].HoldsWrite() && clients[j].HoldsWrite()
      ensures Writers(clients) >= 2
    {
      WritersUpdate(clients[i := Idle], j, Idle);
    }
  }

  /** What a successful swap does to the fields. */
  lemma SwapOnFields(op: Op, w: Word)
    requires !Refused(op, w)
    requires op.ReadLockRelease? ==> IsReadLocked(w) && !IsWriteLocked(w)
    requires op.WriteLockRelease? || op.WriteLockReleaseWith? ==> IsWriteLocked(w) && !IsReadLocked(w)
    requires op.WriteLockReleaseWith? ==> op.newTid < READ_LOCK_UNIT
    ensures 0 <= NewWord(op, w) < WORD_LIMIT
    ensures var w': Word := NewWord(op, w);
            && ReadLockNum(w') == ReadLockNum(w) + (if op.ReadLock? then 1 else if op.ReadLockRelease? then -1 else 0)
            && IsWriteLocked(w') == (if op.WriteLock? then true
                                     else if op.WriteLockRelease? || op.WriteLockReleaseWith? then false else IsWriteLocked(w))
            && RemoveLockBit(w') == if op.WriteLockReleaseWith? then op.newTid else RemoveLockBit(w)
  {
    var write, readers, tid := IsWriteLocked(w), ReadLockNum(w), RemoveLockBit(w);
    DecodeEncode(w);
    match op
    case ReadLock => EncodeDecode(false, readers + 1, tid);
    case WriteLock => EncodeDecode(true, 0, tid);
    case ReadLockRelease => EncodeDecode(false, readers - 1, tid);
    case WriteLockRelease => EncodeDecode(false, 0, tid);
    case WriteLockReleaseWith(newTid) => EncodeDecode(false, 0, newTid);
  }

  lemma LoadKeepsInv(s: Shared, s': Shared, i: nat, op: Op)
    requires Inv(s) && Load(s, s', i, op)
    ensures Inv(s')
  {
    if !Refused(op, s.word) {
      ReadersUpdate(s.clients, i, Swapping(op, s.word));
      WritersUpdate(s.clients, i, Swapping(op, s.word));
    }
  }

  lemma SwapFailsKeepsInv(s: Shared, s': Shared, i: nat)
    requires Inv(s) && SwapFails(s, s', i)
    ensures Inv(s')
  {
    var c := Before(s.clients[i].op);
    assert SeenRight(s.word, s.clients[i]);
    ReadersUpdate(s.clients, i, c);
    WritersUpdate(s.clients, i, c);
  }

  /** The swapping client's lock, and the word, fit its call. */
  lemma SwapAllowed(s: Shared, i: nat)
    requires Inv(s) && i < |s.clients| && s.clients[i].Swapping? && s.clients[i].seen == s.word
    ensures var op := s.clients[i].op;
            && !Refused(op, s.word)
            && (op.ReadLockRelease? ==> IsReadLocked(s.word) && !IsWriteLocked(s.word))
            && (op.WriteLockRelease? || op.WriteLockReleaseWith? ==> IsWriteLocked(s.word) && !IsReadLocked(s.word))
            && (op.WriteLockReleaseWith? ==> op.newTid < READ_LOCK_UNIT)
  {
    assert SeenRight(s.word, s.clients[i]);
    HolderCounts(s.clients, i);
  }

  lemma SwapKeepsInv(s: Shared, s': Shared, i: nat)
    requires Inv(s) && SwapSucceeds(s, s', i)
    ensures Inv(s')
  {
    var op := s.clients[i].op;
    SwapAllowed(s, i);
    SwapOnFields(op, s.word);
    ReadersUpdate(s.clients, i, After(op));
    WritersUpdate(s.clients, i, After(op));
    hide ReadLockNum, IsWriteLocked, Readers, Writers, NewWord;
    forall j | 0 <= j < |s'.clients| && s'.clients[j].Swapping?
      ensures SeenRight(s'.word, s'.clients[j])
    {
      assert j != i && SeenRight(s.word, s.clients[j]);
      NobodyElseReleases(s, i, j);
    }
  }

  /** A client that is about to release the write lock is the only one whose swap can succeed. */
  lemma NobodyElseReleases(s: Shared, i: nat, j: nat)
    requires Inv(s) && i < |s.clients| && j < |s.clients| && i != j && s.clients[i].Swapping? && s.clients[i].seen == s.word
    ensures !s.clients[j].HoldsWrite()
  {
    SwapAllowed(s, i);
    HolderCounts(s.clients, i);
    HolderCounts(s.clients, j);
  }

  lemma StepKeepsInv(s: Shared, s': Shared, i: nat)
    requires Inv(s) && Step(s, s', i)
    ensures Inv(s')
  {
    if SwapSucceeds(s, s', i) {
      SwapKeepsInv(s, s', i);
    } else if SwapFails(s, s', i) {
      SwapFailsKeepsInv(s, s', i);
    } else {
      var op :| Load(s, s', i, op);
      LoadKeepsInv(s, s', i, op);
    }
  }

  // ------------------------------------------------------------------
  // Every run
  // ------------------------------------------------------------------

  ghost predicate SomeStep(s: Shared, s': Shared) {
    exists i: nat :: Step(s, s', i)
  }

  /** From a word without locks, nobody holding any. */
  ghost predicate Run(run: seq<Shared>) {
    && |run| > 0 && run[0].word < READ_LOCK_UNIT && (forall i :: 0 <= i < |run[0].clients| ==> run[0].clients[i].Idle?)
    && forall n :: 0 <= n < |run| - 1 ==> SomeStep(run[n], run[n + 1])
  }

  lemma {:induction false} NobodyHolds(clients: seq<Client>)
    requires forall i :: 0 <= i < |clients| ==> clients[i].Idle?
    ensures Readers(clients) == 0 && Writers(clients) == 0
    decreases |clients|
  {
    if clients != [] { NobodyHolds(clients[..|clients| - 1]); }
  }

  lemma {:induction false} RunKeepsInv(run: seq<Shared>, n: nat)
    requires Run(run) && n < |run|
    ensures Inv(run[n])
    decreases n
  {
    if n == 0 {
      NobodyHolds(run[0].clients);
    } else {
      RunKeepsInv(run, n - 1);
      assert SomeStep(run[n - 1], run[n - 1 + 1]);
      var i: nat :| Step(run[n - 1], run[n], i);
      StepKeepsInv(run[n - 1], run[n], i);
    }
  }

  /** The word counts exactly: one writer and no reader, or that many readers and no writer. */
  lemma LocksExclude(run: seq<Shared>, n: nat)
    requires Run(run) && n < |run|
    ensures ReadLockNum(run[n].word) == Readers(run[n].clients) <= READ_LOCK_MAX
    ensures IsWriteLocked(run[n].word) <==> Writers(run[n].clients) == 1
    ensures Writers(run[n].clients) <= 1 && (Writers(run[n].clients) == 1 ==> Readers(run[n].clients) == 0)
    ensures forall i, j :: 0 <= i < |run[n].clients| && 0 <= j < |run[n].clients| && run[n].clients[i].HoldsWrite() && i != j ==>
              !run[n].clients[j].HoldsWrite() && !run[n].clients[j].HoldsRead()
  {
    var s := run[n];
    RunKeepsInv(run, n);
    forall i, j | 0 <= i < |s.clients| && 0 <= j < |s.clients| && s.clients[i].HoldsWrite() && i != j
      ensures !s.clients[j].HoldsWrite() && !s.clients[j].HoldsRead()
    {
      HolderCounts(s.clients, i);
      HolderCounts(s.clients, j);
    }
  }

  /** Of all steps only a release with a commit tid changes the tid, and it puts that one in. */
  lemma TidChangesOnRelease(run: seq<Shared>, n: nat, i: nat)
    requires Run(run) && n + 1 < |run| && Step(run[n], run[n + 1], i)
    ensures RemoveLockBit(run[n + 1].word) != RemoveLockBit(run[n].word) ==>
              && SwapSucceeds(run[n], run[n + 1], i) && run[n].clients[i].op.WriteLockReleaseWith?
              && RemoveLockBit(run[n + 1].word) == run[n].clients[i].op.newTid
  {
    RunKeepsInv(run, n);
    if SwapSucceeds(run[n], run[n + 1], i) {
      SwapAllowed(run[n], i);
      SwapOnFields(run[n].clients[i].op, run[n].word);
    }
  }

  /** The single swap that releases the write lock cannot fail. */
  lemma WriteReleaseNeverFails(run: seq<Shared>, n: nat, i: nat, s': Shared)
    requires Run(run) && n < |run| && i < |run[n].clients| && run[n].clients[i].Swapping?
    requires run[n].clients[i].op.WriteLockRelease? || run[n].clients[i].op.WriteLockReleaseWith?
    ensures !SwapFails(run[n], s', i)
  {
    RunKeepsInv(run, n);
    assert SeenRight(run[n].word, run[n].clients[i]);
  }

  // ------------------------------------------------------------------
  // Who is refused
  // ------------------------------------------------------------------

  ghost function ReadHolders(clients: seq<Client>): set<int> {
    set i | 0 <= i < |clients| && clients[i].HoldsRead()
  }

  lemma {:induction false} ReadersAreHolders(clients: seq<Client>)
    ensures |ReadHolders(clients)| == Readers(clients)
    decreases |clients|
  {
    if clients == [] {
      assert ReadHolders(clients) == {};
    } else {
      var n := |clients| - 1;
      ReadersAreHolders(clients[..n]);
      assert ReadHolders(clients) == ReadHolders(clients[..n]) + if clients[n].HoldsRead() then {n} else {};
    }
  }

  lemma {:induction false} NoWriterHolds(clients: seq<Client>)
    ensures Writers(clients) == 0 <==> forall i :: 0 <= i < |clients| ==> !clients[i].HoldsWrite()
    decreases |clients|
  {
    if clients != [] {
      var n := |clients| - 1;
      NoWriterHolds(clients[..n]);
      assert forall i :: 0 <= i < n ==> clients[..n][i] == clients[i];
    }
  }

  /**
   A reader is refused if and only if somebody holds the write lock or 511 hold read
   locks, a writer if and only if somebody holds any lock, and nobody is kept from
   releasing.
   */
  lemma RefusedIff(run: seq<Shared>, n: nat, i: nat, op: Op, s': Shared)
    requires Run(run) && n < |run| && Load(run[n], s', i, op)
    ensures var clients := run[n].clients;
            s' == run[n] <==>
            match op
            case ReadLock => (exists j :: 0 <= j < |clients| && clients[j].HoldsWrite()) || |ReadHolders(clients)| == 511
            case WriteLock => exists j :: 0 <= j < |clients| && (clients[j].HoldsWrite() || clients[j].HoldsRead())
            case _ => false
  {
    var clients := run[n].clients;
    RunKeepsInv(run, n);
    ReadersAreHolders(clients);
    NoWriterHolds(clients);
    assert s' == run[n] <==> Refused(op, run[n].word);
    hide ReadLockNum, IsWriteLocked, Readers, Writers;
    if ReadHolders(clients) == {} {
      assert forall j :: 0 <= j < |clients| && clients[j].HoldsRead() ==> j in ReadHolders(clients);
    } else {
      var j :| j in ReadHolders(clients);
    }
  }

  // ------------------------------------------------------------------
  // Readers share
  // ------------------------------------------------------------------

  /** The first `k` clients hold read locks, all others nothing. */
  function Sharing(m: nat, k: nat, tid: nat): Shared
    requires k <= READ_LOCK_MAX && tid < READ_LOCK_UNIT
  {
    Shared(Encode(false, k, tid), seq(m, i => if i < k then Reading else Idle))
  }

  lemma OneMoreReader(m: nat, k: nat, tid: nat) returns (s: Shared)
    requires k < m <= READ_LOCK_MAX && tid < READ_LOCK_UNIT
    ensures Load(Sharing(m, k, tid), s, k, ReadLock) && SwapSucceeds(s, Sharing(m, k + 1, tid), k)
  {
    var before, after := Sharing(m, k, tid), Sharing(m, k + 1, tid);
    EncodeDecode(false, k, tid);
    s := before.(clients := before.clients[k := Swapping(ReadLock, before.word)]);
    assert s.clients[k := Reading] == after.clients;
  }

  lemma {:induction false} SharingHolders(m: nat, k: nat, tid: nat)
    requires k <= m && k <= READ_LOCK_MAX && tid < READ_LOCK_UNIT
    ensures |ReadHolders(Sharing(m, k, tid).clients)| == k
    decreases k
  {
    if k == 0 {
      assert ReadHolders(Sharing(m, 0, tid).clients) == {};
    } else {
      SharingHolders(m, k - 1, tid);
      assert ReadHolders(Sharing(m, k, tid).clients) == ReadHolders(Sharing(m, k - 1, tid).clients) + {k - 1};
    }
  }

  /** Any number of readers up to 511 can hold the row together. */
  lemma {:induction false} ReadersShare(m: nat, k: nat, tid: nat) returns (run: seq<Shared>)
    requires k <= m <= READ_LOCK_MAX && tid < READ_LOCK_UNIT
    ensures Run(run) && run[|run| - 1] == Sharing(m, k, tid)
    ensures |ReadHolders(run[|run| - 1].clients)| == k
    decreases k
  {
    SharingHolders(m, k, tid);
    if k == 0 {
      run := [Sharing(m, 0, tid)];
    } else {
      run := ReadersShare(m, k - 1, tid);
      var s := OneMoreReader(m, k - 1, tid);
      var last := Sharing(m, k, tid);
      assert SomeStep(run[|run| - 1], s) by { assert Step(run[|run| - 1], s, k - 1); }
      assert SomeStep(s, last) by { assert Step(s, last, k - 1); }
      hide SomeStep, Sharing;
      run := run + [s, last];
    }
  }
}
