/**
 The multi-version table on top of the hash map: a row is a word and a value. The
 word holds the id of the transaction that will fill the row in, and 0 from then on.
 */
module MvccTable {
  import opened Transactions
  import opened MvccHashMap

  /** The word of a row is 0 once the value is there to read. */
  datatype Row = Row(word: nat, value: Value)
  {
    predicate Ready() { word == 0 }
  }

  type Rows = map<Key, seq<Version<Row>>>

  function ListIn(rows: Rows, k: Key): seq<Version<Row>> {
    if k in rows then rows[k] else []
  }

  // ------------------------------------------------------------------
  // What the version lists hold
  // ------------------------------------------------------------------

  ghost predicate SettledList(l: seq<Version<Row>>, bound: nat) {
    forall e :: e in l ==> e.version < bound && e.value.Ready()
  }

  ghost predicate Settled(rows: Rows, bound: nat) {
    forall k :: Descending(ListIn(rows, k)) && SettledList(ListIn(rows, k), bound)
  }

  ghost predicate Older(l: seq<Version<Row>>, bound: nat) {
    forall e :: e in l ==> e.version < bound
  }

  /** The values of the newest versions. */
  function NewestTable(rows: Rows): Table {
    map k | k in rows && rows[k] != [] :: rows[k][0].value.value
  }

  ghost predicate HeadIs(rows: Rows, t: Table, k: Key) {
    && (ListIn(rows, k) != [] <==> k in t)
    && (ListIn(rows, k) != [] ==> ListIn(rows, k)[0].value.value == t[k])
  }

  lemma NewestIs(rows: Rows, t: Table)
    requires forall k :: HeadIs(rows, t, k)
    ensures NewestTable(rows) == t
  {
    forall k
      ensures k in NewestTable(rows) <==> k in t
      ensures k in t ==> NewestTable(rows)[k] == t[k]
    {
      assert HeadIs(rows, t, k);
    }
  }

  lemma HeadIsPrev(l: seq<Version<Row>>, bound: nat)
    requires Older(l, bound)
    ensures Prev(l, bound) == if l == [] then Missing else Found(l[0].version, l[0].value)
  {
    if l != [] { assert l[0] in l; }
  }

  function Kept(l: seq<Version<Row>>): seq<Version<Row>> {
    if l == [] then [] else l[..1]
  }

  lemma HeadIsOlder(l: seq<Version<Row>>, bound: nat)
    requires Older(l, bound)
    ensures l != [] ==> l[0].version < bound
  {
    if l != [] { assert l[0] in l; }
  }

  // ------------------------------------------------------------------
  // Ids: the epoch in the upper and the position in the lower 32 bits
  // ------------------------------------------------------------------

  const POS_LIMIT := 0x1_0000_0000

  function GetTid(epoch: nat, pos: nat): nat { epoch * POS_LIMIT + pos }

  function GetEpoch(tid: nat): nat { tid / POS_LIMIT % 0x1000_0000_0000 }

  /** The mask of the position is only 24 bits wide. */
  function GetPos(tid: nat): nat { tid % 0x100_0000 }

  /** Ids are ordered by epoch and then by position. */
  lemma TidOrder(epoch: nat, pos: nat, epoch': nat, pos': nat)
    requires pos < POS_LIMIT && pos' < POS_LIMIT
    ensures GetTid(epoch, pos) < GetTid(epoch', pos') <==> epoch < epoch' || (epoch == epoch' && pos < pos')
  {}

  /** The epoch is read back; the position is as long as it fits its mask. */
  lemma TidRoundTrip(epoch: nat, pos: nat)
    requires epoch < POS_LIMIT && pos < POS_LIMIT
    ensures GetEpoch(GetTid(epoch, pos)) == epoch
    ensures GetPos(GetTid(epoch, pos)) == pos <==> pos < 0x100_0000
  {
    assert GetTid(epoch, pos) / POS_LIMIT == epoch;
    assert GetTid(epoch, pos) % 0x100_0000 == pos % 0x100_0000;
  }

  // ------------------------------------------------------------------
  // The table
  // ------------------------------------------------------------------

  const MAX_VERSION := 0xFFFF_FFFF_FFFF_FFFF

  class MVCCTable {
    const rows: MVCCHashMap<Row>

    constructor ()
      ensures rows.Valid() && rows.lists == map[] && fresh(rows)
    {
      rows := new MVCCHashMap<Row>();
    }

    function ListOf(key: Key): seq<Version<Row>>
      reads rows
    {
      rows.ListOf(key)
    }

    /** A new newest version, not ready yet unless its number is 0. */
    method Insert(key: Key, value: Value, version: nat)
      requires rows.Valid() && (ListOf(key) != [] ==> version > ListOf(key)[0].version)
      modifies rows
      ensures rows.Valid() && rows.lists == old(rows.lists)[key := [Version(version, Row(version, value))] + old(ListOf(key))]
    {
      rows.InsertKeyVersionHolder(key, version, Row(version, value));
    }

    /** Fills a version in and makes it ready. */
    method Update(key: Key, value: Value, version: nat)
      requires rows.Valid() && At(ListOf(key), version).Found?
      modifies rows
      ensures rows.Valid() && ListOf(key) == Replaced(old(ListOf(key)), version, Row(0, value))
      ensures rows.lists.Keys == old(rows.lists.Keys) && forall k :: k != key ==> ListOf(k) == old(ListOf(k))
    {
      rows.SetKeyVersion(key, version, Row(0, value));
    }

    method SearchPrev(key: Key, version: nat) returns (r: Found<Row>)
      ensures r == Prev(ListOf(key), version)
    {
      r := rows.GetKeyVersionPrev(key, version);
    }

    /** The newest version up to the bound; without a bound the head of the list. */
    method SearchLatest(key: Key, upperBound: nat) returns (r: Found<Row>)
      requires upperBound <= MAX_VERSION
      ensures upperBound < MAX_VERSION ==> r == Prev(ListOf(key), upperBound + 1)
      ensures upperBound == MAX_VERSION && Older(ListOf(key), MAX_VERSION) ==>
                r == if ListOf(key) == [] then Missing else Found(ListOf(key)[0].version, ListOf(key)[0].value)
    {
      var versionExclusive := upperBound;
      if upperBound != MAX_VERSION { versionExclusive := upperBound + 1; }
      r := rows.GetKeyVersionPrev(key, versionExclusive);
      if Older(ListOf(key), MAX_VERSION) { HeadIsPrev(ListOf(key), MAX_VERSION); }
    }

    method GarbageCollect(key: Key)
      requires rows.Valid()
      modifies rows
      ensures rows.Valid() && ListOf(key) == Kept(old(ListOf(key)))
      ensures rows.lists.Keys == old(rows.lists.Keys) && forall k :: k != key ==> ListOf(k) == old(ListOf(k))
    {
      var size := rows.VacuumKeyKeepLatest(key);
    }
  }
}
