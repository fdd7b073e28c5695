/**
 The multi-version hash map: every key has a list of versions, newest first. A
 reader takes the first version below its bound; garbage collection cuts the list.
 */
module MvccHashMap {
  import opened Transactions

  datatype Version<V> = Version(version: nat, value: V)

  datatype Found<V> = Found(version: nat, value: V) | Missing

  ghost predicate Descending<V>(l: seq<Version<V>>) {
    forall i, j :: 0 <= i < j < |l| ==> l[i].version > l[j].version
  }

  /** The first entry with a version below the bound. */
  function Prev<V>(l: seq<Version<V>>, bound: nat): Found<V> {
    if l == [] then Missing
    else if l[0].version < bound then Found(l[0].version, l[0].value)
    else Prev(l[1..], bound)
  }

  /** The first entry with that version. */
  function At<V>(l: seq<Version<V>>, version: nat): Found<V> {
    if l == [] then Missing
    else if l[0].version == version then Found(version, l[0].value)
    else At(l[1..], version)
  }

  ghost predicate Has<V>(l: seq<Version<V>>, version: nat, value: V) {
    Version(version, value) in l
  }

  /** On a descending list the first match is the greatest version below the bound. */
  lemma {:induction false} PrevIsGreatest<V>(l: seq<Version<V>>, bound: nat)
    requires Descending(l)
    ensures Prev(l, bound).Missing? <==> forall e :: e in l ==> e.version >= bound
    ensures Prev(l, bound).Found? ==>
              && Prev(l, bound).version < bound && Has(l, Prev(l, bound).version, Prev(l, bound).value)
              && forall e :: e in l && e.version < bound ==> e.version <= Prev(l, bound).version
    decreases |l|
  {
    if l != [] {
      assert forall e :: e in l <==> e == l[0] || e in l[1..];
      assert Descending(l[1..]);
      PrevIsGreatest(l[1..], bound);
      assert forall i :: 0 < i < |l| ==> l[0].version > l[i].version;
    }
  }

  /** Versions are unique, so there is one value to find. */
  lemma {:induction false} AtFinds<V>(l: seq<Version<V>>, version: nat)
    requires Descending(l)
    ensures At(l, version).Missing? <==> forall e :: e in l ==> e.version != version
    ensures At(l, version).Found? ==> At(l, version).version == version
    ensures forall value :: Has(l, version, value) <==> At(l, version) == Found(version, value)
    decreases |l|
  {
    if l != [] {
      assert forall e :: e in l <==> e == l[0] || e in l[1..];
      assert Descending(l[1..]);
      AtFinds(l[1..], version);
      assert forall i :: 0 < i < |l| ==> l[0].version > l[i].version;
    }
  }

  /** The part of the list above `v`. */
  function Above<V>(l: seq<Version<V>>, v: nat): (r: seq<Version<V>>)
    ensures |r| <= |l| && r == l[..|r|]
  {
    if l == [] || l[0].version <= v then [] else [l[0]] + Above(l[1..], v)
  }

  /** On a descending list that removes exactly the versions up to `v`. */
  lemma {:induction false} AboveRemovesExactly<V>(l: seq<Version<V>>, v: nat)
    requires Descending(l)
    ensures forall e :: e in Above(l, v) <==> e in l && e.version > v
    ensures forall i :: |Above(l, v)| <= i < |l| ==> l[i].version <= v
    decreases |l|
  {
    if l != [] {
      assert forall e :: e in l <==> e == l[0] || e in l[1..];
      assert Descending(l[1..]);
      AboveRemovesExactly(l[1..], v);
      assert forall i :: 0 < i < |l| ==> l[0].version > l[i].version;
      assert forall i :: 0 < i < |l| ==> l[i] == l[1..][i - 1];
    }
  }

  /** Vacuuming up to `v` changes what a reader finds exactly when it found something up to `v`. */
  lemma {:induction false} VacuumedReads<V>(l: seq<Version<V>>, v: nat, bound: nat)
    requires Descending(l)
    ensures Prev(Above(l, v), bound) == Prev(l, bound) <==> Prev(l, bound).Missing? || Prev(l, bound).version > v
    decreases |l|
  {
    if l != [] && l[0].version > v {
      assert Descending(l[1..]);
      VacuumedReads(l[1..], v, bound);
      assert ([l[0]] + Above(l[1..], v))[1..] == Above(l[1..], v);
    } else if l != [] {
      PrevIsGreatest(l, bound);
      assert forall i :: 0 <= i < |l| ==> l[i].version <= l[0].version;
    }
  }

  /** Keeping the latest version only keeps what every reader past it finds, and nobody else. */
  lemma KeepLatestReads<V>(l: seq<Version<V>>, bound: nat)
    requires Descending(l) && l != []
    ensures Prev(l[..1], bound) == Prev(l, bound) <==> bound > l[0].version || Prev(l, bound).Missing?
  {
    assert l[..1][1..] == [];
    PrevIsGreatest(l[1..], bound);
    assert forall i :: 0 < i < |l| ==> l[0].version > l[i].version;
  }

  /** A new head is found by the readers past it; all others find what they found. */
  lemma NewHeadReads<V>(l: seq<Version<V>>, version: nat, value: V, bound: nat)
    requires l == [] || version > l[0].version
    ensures Prev([Version(version, value)] + l, bound) == if bound > version then Found(version, value) else Prev(l, bound)
  {
    assert ([Version(version, value)] + l)[1..] == l;
  }

  // ------------------------------------------------------------------
  // Writing a value into its place
  // ------------------------------------------------------------------

  /** The list with another value at that version. */
  function Replaced<V>(l: seq<Version<V>>, version: nat, value: V): (r: seq<Version<V>>)
    ensures |r| == |l|
    ensures forall i :: 0 <= i < |l| ==> r[i] == if l[i].version == version then Version(version, value) else l[i]
  {
    if l == [] then []
    else [if l[0].version == version then Version(version, value) else l[0]] + Replaced(l[1..], version, value)
  }

  lemma ReplacedInPlace<V>(l: seq<Version<V>>, i: nat, value: V)
    requires Descending(l) && i < |l|
    ensures l[i := Version(l[i].version, value)] == Replaced(l, l[i].version, value)
  {
    assert forall j :: 0 <= j < |l| && j != i ==> l[j].version != l[i].version;
  }

  /** Only that version changes, for every reader. */
  lemma {:induction false} ReplacedReads<V>(l: seq<Version<V>>, version: nat, value: V, bound: nat)
    ensures At(Replaced(l, version, value), bound) ==
            if bound == version && At(l, version).Found? then Found(version, value) else At(l, bound)
    ensures Prev(Replaced(l, version, value), bound) ==
            if Prev(l, bound).Found? && Prev(l, bound).version == version then Found(version, value) else Prev(l, bound)
    decreases |l|
  {
    if l != [] {
      var head := if l[0].version == version then Version(version, value) else l[0];
      assert ([head] + Replaced(l[1..], version, value))[1..] == Replaced(l[1..], version, value);
      ReplacedReads(l[1..], version, value, bound);
    }
  }

  /** A reader finds the value that stands at the version it finds. */
  lemma {:induction false} PrevIsAt<V>(l: seq<Version<V>>, bound: nat)
    requires Descending(l) && Prev(l, bound).Found?
    ensures At(l, Prev(l, bound).version) == Prev(l, bound)
    decreases |l|
  {
    if l[0].version >= bound {
      assert Descending(l[1..]);
      PrevIsGreatest(l[1..], bound);
      PrevIsAt(l[1..], bound);
    }
  }

  // ------------------------------------------------------------------
  // The map
  // ------------------------------------------------------------------

  class MVCCHashMap<V> {
    var lists: map<Key, seq<Version<V>>>

    ghost predicate Valid()
      reads this
    {
      forall k :: k in lists ==> Descending(lists[k])
    }

    function ListOf(key: Key): seq<Version<V>>
      reads this
    {
      if key in lists then lists[key] else []
    }

    constructor ()
      ensures Valid() && lists == map[]
    {
      lists := map[];
    }

    method ContainsKey(key: Key) returns (r: bool)
      ensures r <==> ListOf(key) != []
    {
      if key !in lists { return false; }
      return lists[key] != [];
    }

    method ContainsKeyVersion(key: Key, version: nat) returns (r: bool)
      ensures r <==> exists e :: e in ListOf(key) && e.version == version
    {
      if key !in lists { return false; }
      var l := lists[key];
      for i := 0 to |l|
        invariant forall j :: 0 <= j < i ==> l[j].version != version
      {
        if l[i].version == version { return true; }
      }
      return false;
    }

    method RemoveKey(key: Key) returns (r: bool)
      requires Valid()
      modifies this
      ensures Valid() && r == (key in old(lists)) && lists == old(lists) - {key}
    {
      if key !in lists { return false; }
      lists := lists - {key};
      return true;
    }

    /** Erases the first entry with that version; the others keep their order. */
    method RemoveKeyVersion(key: Key, version: nat) returns (r: bool)
      requires Valid()
      modifies this
      ensures Valid() && r == old(At(ListOf(key), version)).Found?
      ensures forall k :: k != key ==> ListOf(k) == old(ListOf(k))
      ensures forall e :: e in ListOf(key) <==> e in old(ListOf(key)) && e.version != version
    {
      AtFinds(ListOf(key), version);
      if key !in lists { return false; }
      var l := lists[key];
      for i := 0 to |l|
        invariant forall j :: 0 <= j < i ==> l[j].version != version
      {
        if l[i].version == version {
          lists := lists[key := l[..i] + l[i + 1..]];
          assert forall e :: e in l <==> e in l[..i] || e == l[i] || e in l[i + 1..];
          return true;
        }
      }
      return false;
    }

    /** Puts a new head on the list; its version must exceed the old head's. */
    method InsertKeyVersionHolder(key: Key, version: nat, value: V)
      requires Valid() && (ListOf(key) != [] ==> version > ListOf(key)[0].version)
      modifies this
      ensures Valid() && lists == old(lists)[key := [Version(version, value)] + old(ListOf(key))]
    {
      var l := if key in lists then lists[key] else [];
      assert forall i :: 0 < i < |l| ==> l[0].version > l[i].version;
      lists := lists[key := [Version(version, value)] + l];
    }

    /** Writes through the reference that a lookup of `version` returned. */
    method SetKeyVersion(key: Key, version: nat, value: V)
      requires Valid() && At(ListOf(key), version).Found?
      modifies this
      ensures Valid() && At(ListOf(key), version) == Found(version, value)
      ensures lists.Keys == old(lists.Keys)
      ensures forall k :: k != key ==> ListOf(k) == old(ListOf(k))
      ensures ListOf(key) == Replaced(old(ListOf(key)), version, value)
    {
      AtFinds(ListOf(key), version);
      var l := lists[key];
      var i := 0;
      while l[i].version != version
        invariant 0 <= i < |l| && forall j :: 0 <= j < i ==> l[j].version != version
        decreases |l| - i
      {
        assert exists e :: e in l && e.version == version;
        i := i + 1;
      }
      lists := lists[key := l[i := Version(version, value)]];
      ReplacedInPlace(l, i, value);
      ReplacedReads(l, version, value, version);
    }

    method VersionCount(key: Key) returns (n: nat)
      ensures n == |ListOf(key)|
    {
      if key !in lists { return 0; }
      return |lists[key]|;
    }

    method GetKeyVersion(key: Key, version: nat) returns (r: Found<V>)
      ensures r == At(ListOf(key), version)
    {
      if key !in lists { return Missing; }
      var l := lists[key];
      for i := 0 to |l|
        invariant At(l, version) == At(l[i..], version)
      {
        if l[i].version == version { return Found(version, l[i].value); }
      }
      return Missing;
    }

    method GetKeyVersionPrev(key: Key, version: nat) returns (r: Found<V>)
      ensures r == Prev(ListOf(key), version)
    {
      if key !in lists { return Missing; }
      var l := lists[key];
      for i := 0 to |l|
        invariant Prev(l, version) == Prev(l[i..], version)
      {
        if l[i].version < version { return Found(l[i].version, l[i].value); }
      }
      return Missing;
    }

    /** Erases from the back, and stops at the first version it must keep. */
    method VacuumKeyVersions(key: Key, vacuumVersion: nat) returns (size: nat)
      requires Valid()
      modifies this
      ensures Valid() && lists.Keys == old(lists.Keys)
      ensures ListOf(key) == Above(old(ListOf(key)), vacuumVersion)
      ensures size == |old(ListOf(key))| - |ListOf(key)|
      ensures forall k :: k != key ==> ListOf(k) == old(ListOf(k))
    {
      if key !in lists { return 0; }
      ghost var all := lists[key];
      var l := lists[key];
      size := 0;
      while l != []
        invariant lists == old(lists)
        invariant |Above(all, vacuumVersion)| <= |l| <= |all| && l == all[..|l|]
        invariant size == |all| - |l|
      {
        var last := |l| - 1;
        if l[last].version <= vacuumVersion {
          KeptIsAbove(all, vacuumVersion, last);
          l := l[..last];
          size := size + 1;
        } else {
          break;
        }
      }
      AboveRemovesExactly(all, vacuumVersion);
      lists := lists[key := l];
    }

    method VacuumKeyKeepLatest(key: Key) returns (size: nat)
      requires Valid()
      modifies this
      ensures Valid() && lists.Keys == old(lists.Keys)
      ensures ListOf(key) == if old(ListOf(key)) == [] then [] else old(ListOf(key))[..1]
      ensures size == |old(ListOf(key))| - |ListOf(key)|
      ensures forall k :: k != key ==> ListOf(k) == old(ListOf(k))
    {
      if key !in lists { return 0; }
      ghost var all := lists[key];
      var l := lists[key];
      size := 0;
      if l == [] { return 0; }
      while |l| > 1
        invariant lists == old(lists)
        invariant 1 <= |l| <= |all| && l == [all[0]] + all[|all| - |l| + 1..]
        invariant size == |all| - |l|
      {
        l := [l[0]] + l[2..];
        size := size + 1;
      }
      lists := lists[key := l];
    }
  }

  lemma {:induction false} KeptIsAbove<V>(l: seq<Version<V>>, v: nat, i: nat)
    requires Descending(l) && i < |l| && l[i].version <= v
    ensures |Above(l, v)| <= i
    decreases |l|
  {
    if i > 0 {
      assert Descending(l[1..]);
      KeptIsAbove(l[1..], v, i - 1);
    }
  }
}
