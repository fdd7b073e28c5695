/**
 The key ranges TPC-C's queries declare before they run: sorted lists of the codes of
 single rows, of the lines of an order, and of all customers of a district. Each list
 covers the rows it names and no others; what the stored procedures access of them is
 the business of TpccTransaction.
 */
module TpccQuery {
  import opened DataSummary
  import opened ConflictPredictor
  import opened KeyConverter

  /** What one entry of a range list stands for. */
  datatype Access =
    | One(k: TpccKey)
    | Lines(w: nat, d: nat, o: nat, n: nat)
    | Customers(w: nat, d: nat)

  ghost predicate ValidAccess(l: TpccLayout, a: Access) {
    match a
    case One(k) => InRange(l, k)
    case Lines(w, d, o, n) => InDistrict(l, w, d) && o >= 1 && 1 <= n <= MAX_ORDER_LINES_PER_ORDER
    case Customers(w, d) => InDistrict(l, w, d)
  }

  function RangeOf(l: TpccLayout, a: Access): Range
    requires ValidAccess(l, a)
  {
    match a
    case One(k) => Range(ToUint64(l, k), ToUint64(l, k))
    case Lines(w, d, o, n) => Range(ToUint64(l, OrderLine(w, d, o, 1)), ToUint64(l, OrderLine(w, d, o, n)))
    case Customers(w, d) => Range(ToUint64(l, Customer(w, d, 1)), ToUint64(l, Customer(w, d, CUSTOMERS_PER_DISTRICT)))
  }

  /** The rows meant. */
  ghost predicate Covers(l: TpccLayout, a: Access, k: TpccKey)
    requires ValidAccess(l, a) && InRange(l, k)
  {
    match a
    case One(j) => SameRow(l, k, j)
    case Lines(w, d, o, n) =>
      k.OrderLine? && k.w == w && k.d == d && SameOrder(k.o, o) && (k.n - 1) % MAX_ORDER_LINES_PER_ORDER < n
    case Customers(w, d) => k.Customer? && k.w == w && k.d == d
  }

  /** A range holds the codes of the rows it stands for, and of no others. */
  lemma RangeIsExact(l: TpccLayout, a: Access, k: TpccKey)
    requires l.Valid() && Fits(l) && ValidAccess(l, a) && InRange(l, k)
    ensures RangeOf(l, a).Contains(ToUint64(l, k)) <==> Covers(l, a, k)
  {
    NoCodeWrapsIffFits(l);
    match a
    case One(j) => CodesTell(l, k, j);
    case Lines(w, d, o, n) => OrderLinesAreARange(l, w, d, o, n, k);
    case Customers(w, d) => CustomersAreARange(l, w, d, k);
  }

  ghost predicate AllValid(l: TpccLayout, xs: seq<Access>) {
    forall i :: 0 <= i < |xs| ==> ValidAccess(l, xs[i])
  }

  ghost predicate SomeContains(l: TpccLayout, xs: seq<Access>, key: uint64)
    requires AllValid(l, xs)
  {
    exists i :: 0 <= i < |xs| && RangeOf(l, xs[i]).Contains(key)
  }

  ghost predicate SomeCovers(l: TpccLayout, xs: seq<Access>, k: TpccKey)
    requires AllValid(l, xs) && InRange(l, k)
  {
    exists i :: 0 <= i < |xs| && Covers(l, xs[i], k)
  }

  /** The list holds the ranges of these accesses. */
  ghost predicate Lists(l: TpccLayout, rs: seq<Range>, xs: seq<Access>) {
    AllValid(l, xs) && forall key: uint64 :: InSome(rs, key) <==> SomeContains(l, xs, key)
  }

  /** A list of the ranges of some accesses covers exactly the rows of these accesses. */
  lemma ListsIsExact(l: TpccLayout, rs: seq<Range>, xs: seq<Access>, k: TpccKey)
    requires l.Valid() && Fits(l) && Lists(l, rs, xs) && InRange(l, k)
    ensures InSome(rs, ToUint64(l, k)) <==> SomeCovers(l, xs, k)
  {
    hide RangeOf, Covers, Code, ToUint64;
    forall i | 0 <= i < |xs|
      ensures RangeOf(l, xs[i]).Contains(ToUint64(l, k)) <==> Covers(l, xs[i], k)
    {
      RangeIsExact(l, xs[i], k);
    }
  }

  lemma NothingListed(l: TpccLayout)
    ensures Lists(l, [], [])
  {}

  lemma OneMoreListed(l: TpccLayout, rs: seq<Range>, xs: seq<Access>, a: Access)
    requires Lists(l, rs, xs) && ValidAccess(l, a)
    ensures Lists(l, rs + [RangeOf(l, a)], xs + [a])
  {
    hide RangeOf, ValidAccess;
    var rs', xs' := rs + [RangeOf(l, a)], xs + [a];
    assert AllValid(l, xs');
    forall key: uint64
      ensures InSome(rs', key) <==> InSome(rs, key) || RangeOf(l, a).Contains(key)
      ensures SomeContains(l, xs', key) <==> SomeContains(l, xs, key) || RangeOf(l, a).Contains(key)
    {
      OneMoreRange(rs, RangeOf(l, a), key);
      if SomeContains(l, xs, key) {
        var i :| 0 <= i < |xs| && RangeOf(l, xs[i]).Contains(key);
        assert RangeOf(l, xs'[i]).Contains(key);
      }
      assert RangeOf(l, xs'[|xs|]) == RangeOf(l, a);
    }
  }

  lemma OneMoreRange(rs: seq<Range>, r: Range, key: uint64)
    ensures InSome(rs + [r], key) <==> InSome(rs, key) || r.Contains(key)
  {
    if InSome(rs, key) {
      var i :| 0 <= i < |rs| && rs[i].Contains(key);
      assert (rs + [r])[i].Contains(key);
    }
    assert (rs + [r])[|rs|] == r;
  }

  // ------------------------------------------------------------------
  // Sorting
  // ------------------------------------------------------------------

  lemma SameRanges(rs: seq<Range>, rs': seq<Range>, key: uint64)
    requires forall r :: r in rs <==> r in rs'
    ensures InSome(rs, key) <==> InSome(rs', key)
  {
    if InSome(rs, key) {
      var i :| 0 <= i < |rs| && rs[i].Contains(key);
      assert rs[i] in rs';
    }
    if InSome(rs', key) {
      var i :| 0 <= i < |rs'| && rs'[i].Contains(key);
      assert rs'[i] in rs;
    }
  }

  lemma EmptySorted()
    ensures SortedByStart([])
  {}

  method SortRanges(rs: seq<Range>) returns (sorted: seq<Range>)
    ensures SortedByStart(sorted) && multiset(sorted) == multiset(rs)
  {
    hide SortedByStart;
    EmptySorted();
    sorted := [];
    for i := 0 to |rs|
      invariant SortedByStart(sorted) && multiset(sorted) == multiset(rs[..i])
    {
      sorted := InsertRange(sorted, rs[i]);
      OneMoreTaken(rs, i);
    }
    assert rs[..|rs|] == rs;
  }

  /** Behind the ranges that do not start after it. */
  method InsertRange(s: seq<Range>, r: Range) returns (s': seq<Range>)
    requires SortedByStart(s)
    ensures SortedByStart(s') && multiset(s') == multiset(s) + multiset{r}
  {
    hide SortedByStart;
    var j := |s|;
    while j > 0 && s[j - 1].start > r.start
      invariant 0 <= j <= |s|
      invariant forall k :: j <= k < |s| ==> s[k].start > r.start
    {
      j := j - 1;
    }
    SortedParts(s, j, r);
    InsertedBetween(s[..j], s[j..], r);
    s' := s[..j] + [r] + s[j..];
  }

  lemma OneMoreTaken(rs: seq<Range>, i: nat)
    requires i < |rs|
    ensures multiset(rs[..i + 1]) == multiset(rs[..i]) + multiset{rs[i]}
  {
    assert rs[..i + 1] == rs[..i] + [rs[i]];
  }

  lemma SortedParts(s: seq<Range>, j: nat, r: Range)
    requires SortedByStart(s) && j <= |s|
    requires (j > 0 ==> s[j - 1].start <= r.start) && forall k :: j <= k < |s| ==> s[k].start > r.start
    ensures SortedByStart(s[..j]) && SortedByStart(s[j..]) && s[..j] + s[j..] == s
    ensures forall k :: 0 <= k < j ==> s[..j][k].start <= r.start
    ensures forall k :: 0 <= k < |s| - j ==> s[j..][k].start > r.start
  {}

  lemma InsertedBetween(a: seq<Range>, b: seq<Range>, r: Range)
    requires SortedByStart(a) && SortedByStart(b)
    requires (forall k :: 0 <= k < |a| ==> a[k].start <= r.start) && (forall k :: 0 <= k < |b| ==> b[k].start > r.start)
    ensures SortedByStart(a + [r] + b) && multiset(a + [r] + b) == multiset(a + b) + multiset{r}
  {
    InsertedCount(a, b, r);
    SortedConcat(a, [r]);
    SortedConcat(a + [r], b);
  }

  lemma SortedConcat(a: seq<Range>, b: seq<Range>)
    requires SortedByStart(a) && SortedByStart(b)
    requires forall i, j :: 0 <= i < |a| && 0 <= j < |b| ==> a[i].start <= b[j].start
    ensures SortedByStart(a + b)
  {}

  lemma InsertedCount(a: seq<Range>, b: seq<Range>, r: Range)
    ensures multiset(a + [r] + b) == multiset(a + b) + multiset{r}
  {}

  predicate AllPoints(rs: seq<Range>) { forall r :: r in rs ==> r.start == r.end }

  /** What is left of a sorted list without repetitions. */
  ghost predicate Deduped(out: seq<Range>, s: seq<Range>) {
    && SortedByStart(out) && (forall r :: r in out <==> r in s)
    && (|out| > 0 <==> |s| > 0) && (|s| > 0 ==> out[|out| - 1] == s[|s| - 1])
    && (AllPoints(s) ==> forall a, b :: 0 <= a < b < |out| ==> out[a].start < out[b].start)
  }

  lemma DedupeOneMore(out: seq<Range>, s: seq<Range>, r: Range)
    requires Deduped(out, s) && (|s| > 0 ==> s[|s| - 1].start <= r.start)
    ensures |s| == 0 || r != s[|s| - 1] ==> Deduped(out + [r], s + [r])
    ensures |s| > 0 && r == s[|s| - 1] ==> Deduped(out, s + [r])
  {
    if AllPoints(s + [r]) {
      assert forall x :: x in s ==> x in s + [r];
      assert r in s + [r];
      if |s| > 0 { assert s[|s| - 1] in s + [r]; }
    }
  }

  lemma PrefixSorted(s: seq<Range>, i: nat)
    requires SortedByStart(s) && i < |s|
    ensures s[..i + 1] == s[..i] + [s[i]]
    ensures i > 0 ==> s[..i][i - 1] == s[i - 1] && s[i - 1].start <= s[i].start
  {}

  lemma SamePoints(a: seq<Range>, b: seq<Range>)
    requires forall r :: r in a <==> r in b
    ensures AllPoints(a) <==> AllPoints(b)
  {}

  lemma NothingDeduped()
    ensures Deduped([], [])
  {}

  /** Sorts and drops points that stand twice. */
  method NormalizePoints(rs: seq<Range>) returns (out: seq<Range>)
    ensures SortedByStart(out) && forall r :: r in out <==> r in rs
    ensures AllPoints(rs) ==> forall i, j :: 0 <= i < j < |out| ==> out[i].start < out[j].start
  {
    var sorted := SortRanges(rs);
    SameMembers(sorted, rs);
    SamePoints(sorted, rs);
    hide *;
    out := DropRepeated(sorted);
    DedupedGives(out, sorted);
  }

  method DropRepeated(sorted: seq<Range>) returns (out: seq<Range>)
    requires SortedByStart(sorted)
    ensures Deduped(out, sorted)
  {
    hide *;
    NothingDeduped();
    out := [];
    for i := 0 to |sorted|
      invariant Deduped(out, sorted[..i])
    {
      PrefixSorted(sorted, i);
      DedupeOneMore(out, sorted[..i], sorted[i]);
      if i == 0 || sorted[i] != sorted[i - 1] {
        out := out + [sorted[i]];
      }
    }
    assert sorted[..|sorted|] == sorted;
  }

  lemma DedupedGives(out: seq<Range>, s: seq<Range>)
    requires Deduped(out, s)
    ensures SortedByStart(out) && forall r :: r in out <==> r in s
    ensures AllPoints(s) ==> forall i, j :: 0 <= i < j < |out| ==> out[i].start < out[j].start
  {}

  lemma SortedLists(l: TpccLayout, rs: seq<Range>, rs': seq<Range>, xs: seq<Access>)
    requires Lists(l, rs, xs) && forall r :: r in rs <==> r in rs'
    ensures Lists(l, rs', xs)
  {
    forall key: uint64 ensures InSome(rs', key) <==> InSome(rs, key) { SameRanges(rs, rs', key); }
  }

  // ------------------------------------------------------------------
  // New order
  // ------------------------------------------------------------------

  /** Item 0 is the unused value that makes the order roll back. */
  datatype LineInfo = LineInfo(item: nat, supplyW: nat)

  datatype NewOrderQuery = NewOrderQuery(w: nat, d: nat, c: nat, o: nat, info: seq<LineInfo>)

  ghost predicate ValidNewOrder(l: TpccLayout, q: NewOrderQuery) {
    && InDistrict(l, q.w, q.d) && 1 <= q.c <= CUSTOMERS_PER_DISTRICT && q.o >= 1
    && 1 <= |q.info| <= MAX_ORDER_LINES_PER_ORDER
    && forall i :: 0 <= i < |q.info| ==> q.info[i].item <= ITEMS_PER_WAREHOUSE && InWarehouse(l, q.info[i].supplyW)
  }

  /** The stock, and item, entries of the first `n` lines. */
  function LineReads(info: seq<LineInfo>, n: nat): seq<Access>
    requires n <= |info|
  {
    if n == 0 then []
    else if info[n - 1].item == 0 then LineReads(info, n - 1)
    else LineReads(info, n - 1) + [One(Item(info[n - 1].item))] + [One(Stock(info[n - 1].supplyW, info[n - 1].item))]
  }

  function LineWrites(info: seq<LineInfo>, n: nat): seq<Access>
    requires n <= |info|
  {
    if n == 0 then []
    else if info[n - 1].item == 0 then LineWrites(info, n - 1)
    else LineWrites(info, n - 1) + [One(Stock(info[n - 1].supplyW, info[n - 1].item))]
  }

  function NewOrderReads(q: NewOrderQuery): seq<Access> {
    [One(Warehouse(q.w))] + [One(District(q.w, q.d))] + [One(Customer(q.w, q.d, q.c))] + LineReads(q.info, |q.info|)
  }

  function NewOrderRows(q: NewOrderQuery): seq<Access> {
    [One(NewOrder(q.w, q.d, q.o))] + [One(Order(q.w, q.d, q.o))] + [Lines(q.w, q.d, q.o, |q.info|)]
  }

  function NewOrderPoints(q: NewOrderQuery): seq<Access> {
    [One(District(q.w, q.d))] + LineWrites(q.info, |q.info|)
  }

  method PopulateNewOrder(l: TpccLayout, q: NewOrderQuery) returns (r: TxnQueryRanges)
    requires l.Valid() && ValidNewOrder(l, q)
    ensures SortedByStart(r.read) && SortedByStart(r.write)
    ensures Lists(l, r.read, NewOrderReads(q)) && Lists(l, r.write, NewOrderPoints(q) + NewOrderRows(q))
  {
    hide RangeOf, InSome, SomeContains, SortedByStart, Lists, AllPoints;
    ghost var reading: seq<Access>, points: seq<Access> := [], [];
    var tempReads: seq<Range>, tempPoints: seq<Range> := [], [];
    NothingListed(l);
    tempReads, reading := Push(l, tempReads, reading, One(Warehouse(q.w)));
    tempReads, reading := Push(l, tempReads, reading, One(District(q.w, q.d)));
    tempReads, reading := Push(l, tempReads, reading, One(Customer(q.w, q.d, q.c)));
    tempPoints, points := Push(l, tempPoints, points, One(District(q.w, q.d)));
    ghost var reading0, points0 := reading, points;
    for i := 0 to |q.info|
      invariant Lists(l, tempReads, reading) && reading == reading0 + LineReads(q.info, i)
      invariant Lists(l, tempPoints, points) && points == points0 + LineWrites(q.info, i)
    {
      if q.info[i].item != 0 {
        tempReads, reading := Push(l, tempReads, reading, One(Item(q.info[i].item)));
        tempReads, reading := Push(l, tempReads, reading, One(Stock(q.info[i].supplyW, q.info[i].item)));
        tempPoints, points := Push(l, tempPoints, points, One(Stock(q.info[i].supplyW, q.info[i].item)));
      }
    }
    var normalReads := NormalizeListed(l, tempReads, reading);
    var normalPoints := NormalizeListed(l, tempPoints, points);
    var write, all := normalPoints, points;
    write, all := Push(l, write, all, One(NewOrder(q.w, q.d, q.o)));
    write, all := Push(l, write, all, One(Order(q.w, q.d, q.o)));
    write, all := Push(l, write, all, Lines(q.w, q.d, q.o, |q.info|));
    var sorted := SortListed(l, write, all);
    assert all == NewOrderPoints(q) + NewOrderRows(q);
    assert reading == NewOrderReads(q);
    r := TxnQueryRanges(normalReads, sorted);
  }

  method NormalizeListed(l: TpccLayout, rs: seq<Range>, ghost xs: seq<Access>) returns (sorted: seq<Range>)
    requires Lists(l, rs, xs)
    ensures SortedByStart(sorted) && Lists(l, sorted, xs)
  {
    hide *;
    sorted := NormalizePoints(rs);
    SortedLists(l, rs, sorted, xs);
  }

  method SortListed(l: TpccLayout, rs: seq<Range>, ghost xs: seq<Access>) returns (sorted: seq<Range>)
    requires Lists(l, rs, xs)
    ensures SortedByStart(sorted) && Lists(l, sorted, xs)
  {
    hide *;
    sorted := SortRanges(rs);
    SameMembers(rs, sorted);
    SortedLists(l, rs, sorted, xs);
  }

  lemma SameMembers(rs: seq<Range>, rs': seq<Range>)
    requires multiset(rs) == multiset(rs')
    ensures forall r :: r in rs <==> r in rs'
  {
    assert forall r :: r in rs <==> r in multiset(rs);
    assert forall r :: r in rs' <==> r in multiset(rs');
  }

  method Push(l: TpccLayout, rs: seq<Range>, ghost xs: seq<Access>, a: Access) returns (rs': seq<Range>, ghost xs': seq<Access>)
    requires Lists(l, rs, xs) && ValidAccess(l, a)
    ensures Lists(l, rs', xs') && xs' == xs + [a]
  {
    OneMoreListed(l, rs, xs, a);
    rs' := rs + [RangeOf(l, a)];
    xs' := xs + [a];
  }

  /** The rows the stored procedure writes: the district, the order, its lines and, for each line, the stock. */
  function NewOrderWrites(q: NewOrderQuery): seq<TpccKey> {
    [District(q.w, q.d), NewOrder(q.w, q.d, q.o), Order(q.w, q.d, q.o)] + WrittenLines(q, |q.info|)
  }

  function WrittenLines(q: NewOrderQuery, n: nat): seq<TpccKey>
    requires n <= |q.info|
  {
    if n == 0 then []
    else WrittenLines(q, n - 1) + [Stock(q.info[n - 1].supplyW, q.info[n - 1].item), OrderLine(q.w, q.d, q.o, n)]
  }

  ghost predicate SomeRow(l: TpccLayout, ks: seq<TpccKey>, k: TpccKey)
    requires InRange(l, k)
  {
    exists i :: 0 <= i < |ks| && InRange(l, ks[i]) && SameRow(l, k, ks[i])
  }

  /** No line names the unused item: otherwise the procedure rolls back before it writes. */
  ghost predicate AllItemsUsed(q: NewOrderQuery) {
    forall i :: 0 <= i < |q.info| ==> q.info[i].item != 0
  }

  lemma {:induction false} LineWritesValid(l: TpccLayout, q: NewOrderQuery, n: nat)
    requires ValidNewOrder(l, q) && n <= |q.info|
    ensures AllValid(l, LineWrites(q.info, n))
    decreases n
  {
    if n > 0 { LineWritesValid(l, q, n - 1); }
  }

  /** Among the written rows, the stocks are those of the lines and the order lines are numbers 1 to n. */
  lemma {:induction false} WrittenLinesAre(l: TpccLayout, q: NewOrderQuery, n: nat, k: TpccKey)
    requires ValidNewOrder(l, q) && AllItemsUsed(q) && n <= |q.info| && InRange(l, k)
    requires AllValid(l, LineWrites(q.info, n))
    ensures SomeRow(l, WrittenLines(q, n), k) <==>
            SomeCovers(l, LineWrites(q.info, n), k)
            || (k.OrderLine? && k.w == q.w && k.d == q.d && SameOrder(k.o, q.o) && (k.n - 1) % MAX_ORDER_LINES_PER_ORDER < n)
    decreases n
  {
    if n > 0 {
      LineWritesValid(l, q, n - 1);
      WrittenLinesAre(l, q, n - 1, k);
      var stock := Stock(q.info[n - 1].supplyW, q.info[n - 1].item);
      SomeRowMore(l, WrittenLines(q, n - 1), stock, k);
      SomeRowMore(l, WrittenLines(q, n - 1) + [stock], OrderLine(q.w, q.d, q.o, n), k);
      assert WrittenLines(q, n) == WrittenLines(q, n - 1) + [stock] + [OrderLine(q.w, q.d, q.o, n)];
      SomeCoversMore(l, LineWrites(q.info, n - 1), One(stock), k);
    }
  }

  lemma SomeRowMore(l: TpccLayout, ks: seq<TpccKey>, j: TpccKey, k: TpccKey)
    requires InRange(l, k)
    ensures SomeRow(l, ks + [j], k) <==> SomeRow(l, ks, k) || (InRange(l, j) && SameRow(l, k, j))
  {
    hide SameRow, InRange;
    if SomeRow(l, ks, k) {
      var i :| 0 <= i < |ks| && InRange(l, ks[i]) && SameRow(l, k, ks[i]);
      assert (ks + [j])[i] == ks[i];
    }
    assert (ks + [j])[|ks|] == j;
  }

  lemma SomeCoversMore(l: TpccLayout, xs: seq<Access>, a: Access, k: TpccKey)
    requires AllValid(l, xs) && ValidAccess(l, a) && InRange(l, k)
    ensures AllValid(l, xs + [a])
    ensures SomeCovers(l, xs + [a], k) <==> SomeCovers(l, xs, k) || Covers(l, a, k)
  {
    hide Covers, ValidAccess, InRange;
    assert forall i :: 0 <= i < |xs| ==> (xs + [a])[i] == xs[i];
    assert (xs + [a])[|xs|] == a;
    if SomeCovers(l, xs, k) {
      var i :| 0 <= i < |xs| && Covers(l, xs[i], k);
      assert Covers(l, (xs + [a])[i], k);
    }
  }

  /** The write ranges of a new order hold exactly the rows it writes. */
  lemma NewOrderRangesExact(l: TpccLayout, q: NewOrderQuery, rs: seq<Range>, k: TpccKey)
    requires l.Valid() && Fits(l) && ValidNewOrder(l, q) && AllItemsUsed(q) && InRange(l, k)
    requires Lists(l, rs, NewOrderPoints(q) + NewOrderRows(q))
    ensures InSome(rs, ToUint64(l, k)) <==> SomeRow(l, NewOrderWrites(q), k)
  {
    var xs := NewOrderPoints(q) + NewOrderRows(q);
    ListsIsExact(l, rs, xs, k);
    NewOrderCovers(l, q, k);
  }

  lemma NewOrderCovers(l: TpccLayout, q: NewOrderQuery, k: TpccKey)
    requires ValidNewOrder(l, q) && AllItemsUsed(q) && InRange(l, k)
    requires AllValid(l, NewOrderPoints(q) + NewOrderRows(q))
    ensures SomeCovers(l, NewOrderPoints(q) + NewOrderRows(q), k) <==> SomeRow(l, NewOrderWrites(q), k)
  {
    var lines, n := LineWrites(q.info, |q.info|), |q.info|;
    LineWritesValid(l, q, n);
    WrittenLinesAre(l, q, n, k);
    var first := District(q.w, q.d);
    var rows := [first, NewOrder(q.w, q.d, q.o), Order(q.w, q.d, q.o)];
    SomeCoversConcat(l, NewOrderPoints(q), NewOrderRows(q), k);
    SomeCoversConcat(l, [One(first)], lines, k);
    SomeRowConcat(l, rows, WrittenLines(q, n), k);
    assert NewOrderRows(q) == [One(NewOrder(q.w, q.d, q.o)), One(Order(q.w, q.d, q.o)), Lines(q.w, q.d, q.o, n)];
    HeadsCover(l, q, k);
  }

  lemma SomeCoversConcat(l: TpccLayout, a: seq<Access>, b: seq<Access>, k: TpccKey)
    requires AllValid(l, a) && AllValid(l, b) && InRange(l, k)
    ensures AllValid(l, a + b) && (SomeCovers(l, a + b, k) <==> SomeCovers(l, a, k) || SomeCovers(l, b, k))
  {
    hide Covers, ValidAccess, InRange;
    if SomeCovers(l, a, k) {
      var i :| 0 <= i < |a| && Covers(l, a[i], k);
      assert Covers(l, (a + b)[i], k);
    }
    if SomeCovers(l, b, k) {
      var i :| 0 <= i < |b| && Covers(l, b[i], k);
      assert Covers(l, (a + b)[|a| + i], k);
    }
  }

  lemma SomeRowConcat(l: TpccLayout, a: seq<TpccKey>, b: seq<TpccKey>, k: TpccKey)
    requires InRange(l, k)
    ensures SomeRow(l, a + b, k) <==> SomeRow(l, a, k) || SomeRow(l, b, k)
  {
    hide SameRow, InRange;
    if SomeRow(l, a, k) {
      var i :| 0 <= i < |a| && InRange(l, a[i]) && SameRow(l, k, a[i]);
      assert (a + b)[i] == a[i];
    }
    if SomeRow(l, b, k) {
      var i :| 0 <= i < |b| && InRange(l, b[i]) && SameRow(l, k, b[i]);
      assert (a + b)[|a| + i] == b[i];
    }
  }

  /** The rows that do not depend on the lines. */
  lemma HeadsCover(l: TpccLayout, q: NewOrderQuery, k: TpccKey)
    requires ValidNewOrder(l, q) && InRange(l, k)
    ensures AllValid(l, NewOrderRows(q)) && AllValid(l, [One(District(q.w, q.d))])
    ensures SomeCovers(l, [One(District(q.w, q.d))], k) || SomeCovers(l, NewOrderRows(q), k) <==>
            SomeRow(l, [District(q.w, q.d), NewOrder(q.w, q.d, q.o), Order(q.w, q.d, q.o)], k)
            || (k.OrderLine? && k.w == q.w && k.d == q.d && SameOrder(k.o, q.o) && (k.n - 1) % MAX_ORDER_LINES_PER_ORDER < |q.info|)
  {
    var ks := [District(q.w, q.d), NewOrder(q.w, q.d, q.o), Order(q.w, q.d, q.o)];
    RowsCover(l, q, k);
    assert SomeCovers(l, [One(ks[0])], k) <==> Covers(l, One(ks[0]), k) by {
      assert [One(ks[0])][0] == One(ks[0]);
    }
    hide SomeCovers, NewOrderRows;
    assert InRange(l, ks[0]) && InRange(l, ks[1]) && InRange(l, ks[2]);
    assert SomeRow(l, ks, k) <==> SameRow(l, k, ks[0]) || SameRow(l, k, ks[1]) || SameRow(l, k, ks[2]);
  }

  lemma RowsCover(l: TpccLayout, q: NewOrderQuery, k: TpccKey)
    requires ValidNewOrder(l, q) && InRange(l, k)
    ensures AllValid(l, NewOrderRows(q))
    ensures SomeCovers(l, NewOrderRows(q), k) <==>
            SameRow(l, k, NewOrder(q.w, q.d, q.o)) || SameRow(l, k, Order(q.w, q.d, q.o))
            || (k.OrderLine? && k.w == q.w && k.d == q.d && SameOrder(k.o, q.o) && (k.n - 1) % MAX_ORDER_LINES_PER_ORDER < |q.info|)
  {
    var xs := NewOrderRows(q);
    assert xs == [One(NewOrder(q.w, q.d, q.o)), One(Order(q.w, q.d, q.o)), Lines(q.w, q.d, q.o, |q.info|)];
    assert ValidAccess(l, xs[0]) && ValidAccess(l, xs[1]) && ValidAccess(l, xs[2]);
    assert SomeCovers(l, xs, k) <==> Covers(l, xs[0], k) || Covers(l, xs[1], k) || Covers(l, xs[2], k);
  }

  // ------------------------------------------------------------------
  // Payment
  // ------------------------------------------------------------------

  /** Customer 0 stands for "by last name". */
  datatype PaymentQuery = PaymentQuery(w: nat, d: nat, customerW: nat, customerD: nat, c: nat, last: string, writeToWYtd: bool)

  ghost predicate ValidPayment(l: TpccLayout, q: PaymentQuery) {
    InDistrict(l, q.w, q.d) && InDistrict(l, q.customerW, q.customerD) && q.c <= CUSTOMERS_PER_DISTRICT
  }

  function PaymentHome(q: PaymentQuery): seq<Access> {
    (if q.writeToWYtd then [One(Warehouse(q.w))] else []) + [One(District(q.w, q.d))]
  }

  function PaymentWrites(q: PaymentQuery): seq<Access> {
    PaymentHome(q) + [if q.c == 0 then Customers(q.customerW, q.customerD) else One(Customer(q.customerW, q.customerD, q.c))]
  }

  function PaymentReads(q: PaymentQuery): seq<Access> {
    if q.c == 0 then
      PaymentHome(q) + [One(CustomerName(q.customerW, q.customerD, q.last))] + [Customers(q.customerW, q.customerD)]
    else PaymentWrites(q)
  }

  method PopulatePayment(l: TpccLayout, q: PaymentQuery) returns (r: TxnQueryRanges)
    requires l.Valid() && ValidPayment(l, q)
    ensures SortedByStart(r.read) && SortedByStart(r.write)
    ensures Lists(l, r.read, PaymentReads(q)) && Lists(l, r.write, PaymentWrites(q))
  {
    hide RangeOf, InSome, SomeContains, SortedByStart, Lists, AllPoints;
    ghost var reading: seq<Access>, writing: seq<Access> := [], [];
    var read, write := [], [];
    NothingListed(l);
    if q.writeToWYtd {
      read, reading := Push(l, read, reading, One(Warehouse(q.w)));
      write, writing := Push(l, write, writing, One(Warehouse(q.w)));
    }
    read, reading := Push(l, read, reading, One(District(q.w, q.d)));
    write, writing := Push(l, write, writing, One(District(q.w, q.d)));
    if q.c == 0 {
      read, reading := Push(l, read, reading, One(CustomerName(q.customerW, q.customerD, q.last)));
      read, reading := Push(l, read, reading, Customers(q.customerW, q.customerD));
      write, writing := Push(l, write, writing, Customers(q.customerW, q.customerD));
    } else {
      read, reading := Push(l, read, reading, One(Customer(q.customerW, q.customerD, q.c)));
      write, writing := Push(l, write, writing, One(Customer(q.customerW, q.customerD, q.c)));
    }
    assert reading == PaymentReads(q) && writing == PaymentWrites(q);
    var sortedRead := SortRanges(read);
    SameMembers(read, sortedRead);
    SortedLists(l, read, sortedRead, reading);
    var sortedWrite := SortRanges(write);
    SameMembers(write, sortedWrite);
    SortedLists(l, write, sortedWrite, writing);
    r := TxnQueryRanges(sortedRead, sortedWrite);
  }

  /** The rows a payment writes; by last name the index tells which customer only while it runs. */
  function PaymentRows(q: PaymentQuery, found: nat): seq<TpccKey> {
    (if q.writeToWYtd then [Warehouse(q.w)] else []) + [District(q.w, q.d)]
    + [Customer(q.customerW, q.customerD, if q.c == 0 then found else q.c)]
  }

  /** Whichever customer the index names, its row is inside the write ranges. */
  lemma PaymentRowsCovered(l: TpccLayout, q: PaymentQuery, rs: seq<Range>, found: nat, i: nat)
    requires l.Valid() && Fits(l) && ValidPayment(l, q) && 1 <= found <= CUSTOMERS_PER_DISTRICT
    requires Lists(l, rs, PaymentWrites(q)) && i < |PaymentRows(q, found)|
    ensures InRange(l, PaymentRows(q, found)[i]) && InSome(rs, ToUint64(l, PaymentRows(q, found)[i]))
  {
    var k, xs := PaymentRows(q, found)[i], PaymentWrites(q);
    assert |xs| == |PaymentRows(q, found)|;
    assert InRange(l, k) && Covers(l, xs[i], k);
    ListsIsExact(l, rs, xs, k);
  }

  // ------------------------------------------------------------------
  // Delivery
  // ------------------------------------------------------------------

  /** The oldest undelivered order of one district; order 0 means there is none. */
  datatype Delivered = Delivered(o: nat, c: nat, lines: nat)

  datatype DeliveryQuery = DeliveryQuery(w: nat, orders: seq<Delivered>)

  ghost predicate ValidDelivery(l: TpccLayout, q: DeliveryQuery) {
    && InWarehouse(l, q.w) && |q.orders| <= l.districtsPerWarehouse
    && forall i :: 0 <= i < |q.orders| && q.orders[i].o > 0 ==>
         1 <= q.orders[i].c <= CUSTOMERS_PER_DISTRICT && 1 <= q.orders[i].lines <= MAX_ORDER_LINES_PER_ORDER
  }

  /** Read and write ranges alike, of the first `n` districts. */
  function DeliveryAccesses(q: DeliveryQuery, n: nat): seq<Access>
    requires n <= |q.orders|
  {
    if n == 0 then []
    else if q.orders[n - 1].o == 0 then DeliveryAccesses(q, n - 1)
    else
      var x := q.orders[n - 1];
      DeliveryAccesses(q, n - 1) + [One(NewOrder(q.w, n, x.o))] + [One(Order(q.w, n, x.o))] + [Lines(q.w, n, x.o, x.lines)]
      + [One(Customer(q.w, n, x.c))]
  }

  method PopulateDelivery(l: TpccLayout, q: DeliveryQuery) returns (r: TxnQueryRanges)
    requires l.Valid() && ValidDelivery(l, q)
    ensures SortedByStart(r.read) && SortedByStart(r.write)
    ensures Lists(l, r.read, DeliveryAccesses(q, |q.orders|)) && Lists(l, r.write, DeliveryAccesses(q, |q.orders|))
  {
    hide RangeOf, InSome, SomeContains, SortedByStart, Lists;
    ghost var xs: seq<Access> := [];
    var ranges: seq<Range> := [];
    NothingListed(l);
    for d := 1 to |q.orders| + 1
      invariant Lists(l, ranges, xs) && xs == DeliveryAccesses(q, d - 1)
    {
      var x := q.orders[d - 1];
      if x.o != 0 {
        ranges, xs := Push(l, ranges, xs, One(NewOrder(q.w, d, x.o)));
        ranges, xs := Push(l, ranges, xs, One(Order(q.w, d, x.o)));
        ranges, xs := Push(l, ranges, xs, Lines(q.w, d, x.o, x.lines));
        ranges, xs := Push(l, ranges, xs, One(Customer(q.w, d, x.c)));
      }
    }
    var sorted := SortRanges(ranges);
    SameMembers(ranges, sorted);
    SortedLists(l, ranges, sorted, xs);
    r := TxnQueryRanges(sorted, sorted);
  }

  // ------------------------------------------------------------------
  // What the predictor knows
  // ------------------------------------------------------------------

  /** Its summary is built from the least and the greatest code: it knows every row. */
  lemma EveryRowKnown(p: ConflictPredictor, l: TpccLayout, k: TpccKey)
    requires p.summary.Valid() && l.Valid() && Fits(l) && InRange(l, k)
    requires p.summary.BuiltDense(MinKey(l), MaxKey(l))
    ensures p.summary.Knows(ToUint64(l, k))
  {
    NoCodeWrapsIffFits(l);
    CodeInDomain(l, k);
    p.summary.BuiltKnows([], MinKey(l), MaxKey(l));
  }
}
