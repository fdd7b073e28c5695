/**
 TPC-C's stored procedures: which rows each of them reads and writes, and how these
 compare with the rows its query declares before it runs. Nothing is accessed that was
 not declared. Something is declared that is not accessed exactly by a new order that
 rolls back and by a payment by last name.
 */
module TpccTransaction {
  import opened Transactions
  import opened ConflictPredictor
  import opened KeyConverter
  import opened TpccQuery

  datatype RowRead = RowRead(row: TpccKey, localIndex: bool)

  /** What a procedure leaves in its read set and its write set, and how it ends. */
  datatype Accessed = Accessed(read: seq<RowRead>, written: seq<TpccKey>, outcome: Outcome)

  function Rows(rs: seq<RowRead>): (ks: seq<TpccKey>)
    ensures |ks| == |rs| && forall i :: 0 <= i < |ks| ==> ks[i] == rs[i].row
  {
    seq(|rs|, i requires 0 <= i < |rs| => rs[i].row)
  }

  function Shared(k: TpccKey): RowRead { RowRead(k, false) }

  ghost predicate AllInRange(l: TpccLayout, ks: seq<TpccKey>) {
    forall i :: 0 <= i < |ks| ==> InRange(l, ks[i])
  }

  lemma RowsConcat(a: seq<RowRead>, b: seq<RowRead>)
    ensures Rows(a + b) == Rows(a) + Rows(b)
  {}

  lemma InRangeConcat(l: TpccLayout, a: seq<TpccKey>, b: seq<TpccKey>)
    requires AllInRange(l, a) && AllInRange(l, b)
    ensures AllInRange(l, a + b)
  {}

  lemma ListedIsSome(l: TpccLayout, ks: seq<TpccKey>, k: TpccKey)
    requires AllInRange(l, ks) && k in ks
    ensures InRange(l, k) && SomeRow(l, ks, k)
  {}

  // ------------------------------------------------------------------
  // New order
  // ------------------------------------------------------------------

  /** The first line, from `i` on, that names the unused item. */
  function FirstUnused(info: seq<LineInfo>, i: nat): (n: nat)
    requires i <= |info|
    ensures i <= n <= |info| && (forall j :: i <= j < n ==> info[j].item != 0)
    ensures n < |info| ==> info[n].item == 0
    decreases |info| - i
  {
    if i == |info| || info[i].item == 0 then i else FirstUnused(info, i + 1)
  }

  /** The items through the local index, and the stocks to update. */
  function LinesRead(info: seq<LineInfo>, n: nat): seq<RowRead>
    requires n <= |info|
  {
    if n == 0 then []
    else LinesRead(info, n - 1) + [RowRead(Item(info[n - 1].item), true)] + [Shared(Stock(info[n - 1].supplyW, info[n - 1].item))]
  }

  function NewOrderHeads(q: NewOrderQuery): seq<RowRead> {
    [Shared(Warehouse(q.w)), Shared(District(q.w, q.d)), Shared(Customer(q.w, q.d, q.c))]
  }

  function NewOrderAccessed(q: NewOrderQuery): Accessed {
    var n := FirstUnused(q.info, 0);
    if n < |q.info| then Accessed(NewOrderHeads(q) + LinesRead(q.info, n), [], AbortNoRetry)
    else Accessed(NewOrderHeads(q) + LinesRead(q.info, n), NewOrderWrites(q), Ready)
  }

  method NewOrderProcedure(q: NewOrderQuery) returns (a: Accessed)
    ensures a == NewOrderAccessed(q)
  {
    var readSet := NewOrderHeads(q);
    for i := 0 to |q.info|
      invariant readSet == NewOrderHeads(q) + LinesRead(q.info, i) && forall j :: 0 <= j < i ==> q.info[j].item != 0
    {
      if q.info[i].item == 0 {
        return Accessed(readSet, [], AbortNoRetry);
      }
      readSet := readSet + [RowRead(Item(q.info[i].item), true)];
      readSet := readSet + [Shared(Stock(q.info[i].supplyW, q.info[i].item))];
    }
    var writeSet := [District(q.w, q.d), NewOrder(q.w, q.d, q.o), Order(q.w, q.d, q.o)];
    ghost var heads := writeSet;
    for i := 0 to |q.info|
      invariant writeSet == heads + WrittenLines(q, i)
    {
      writeSet := writeSet + [Stock(q.info[i].supplyW, q.info[i].item)];
      writeSet := writeSet + [OrderLine(q.w, q.d, q.o, i + 1)];
    }
    return Accessed(readSet, writeSet, Ready);
  }

  lemma {:induction false} LineReadsValid(l: TpccLayout, q: NewOrderQuery, n: nat)
    requires ValidNewOrder(l, q) && n <= |q.info|
    ensures AllValid(l, LineReads(q.info, n))
    decreases n
  {
    if n > 0 { LineReadsValid(l, q, n - 1); }
  }

  lemma OneCovers(l: TpccLayout, j: TpccKey, k: TpccKey)
    requires InRange(l, j) && InRange(l, k)
    ensures ValidAccess(l, One(j)) && (Covers(l, One(j), k) <==> SameRow(l, k, j))
  {}

  /** Up to the first unused item the lines read what was declared for them. */
  lemma {:induction false} LinesReadAre(l: TpccLayout, q: NewOrderQuery, n: nat, k: TpccKey)
    requires ValidNewOrder(l, q) && n <= FirstUnused(q.info, 0) && InRange(l, k) && AllValid(l, LineReads(q.info, n))
    ensures AllInRange(l, Rows(LinesRead(q.info, n)))
    ensures SomeRow(l, Rows(LinesRead(q.info, n)), k) <==> SomeCovers(l, LineReads(q.info, n), k)
    decreases n
  {
    if n > 0 {
      var rest, xs := LinesRead(q.info, n - 1), LineReads(q.info, n - 1);
      var item, stock := Item(q.info[n - 1].item), Stock(q.info[n - 1].supplyW, q.info[n - 1].item);
      LineReadsValid(l, q, n - 1);
      LinesReadAre(l, q, n - 1, k);
      assert Rows(LinesRead(q.info, n)) == Rows(rest) + [item] + [stock];
      assert InRange(l, item) && InRange(l, stock);
      hide LineReads, SomeRow, SomeCovers, Covers, SameRow, FirstUnused, ValidAccess;
      OneCovers(l, item, k);
      OneCovers(l, stock, k);
      SomeRowMore(l, Rows(rest), item, k);
      SomeRowMore(l, Rows(rest) + [item], stock, k);
      SomeCoversMore(l, xs, One(item), k);
      SomeCoversMore(l, xs + [One(item)], One(stock), k);
      LineReadsNext(q.info, n);
    }
  }

  lemma LineReadsNext(info: seq<LineInfo>, n: nat)
    requires 0 < n <= FirstUnused(info, 0)
    ensures LineReads(info, n) == LineReads(info, n - 1) + [One(Item(info[n - 1].item))] + [One(Stock(info[n - 1].supplyW, info[n - 1].item))]
  {}

  /** The lines after it only add to what is declared. */
  lemma {:induction false} LineReadsGrow(l: TpccLayout, q: NewOrderQuery, n: nat, m: nat, k: TpccKey)
    requires ValidNewOrder(l, q) && n <= m <= |q.info| && InRange(l, k)
    requires AllValid(l, LineReads(q.info, n)) && SomeCovers(l, LineReads(q.info, n), k)
    ensures AllValid(l, LineReads(q.info, m)) && SomeCovers(l, LineReads(q.info, m), k)
    decreases m
  {
    LineReadsValid(l, q, m);
    if n < m {
      LineReadsGrow(l, q, n, m - 1, k);
      hide Covers, ValidAccess;
      var xs, ys := LineReads(q.info, m - 1), LineReads(q.info, m);
      var i :| 0 <= i < |xs| && Covers(l, xs[i], k);
      assert ys[i] == xs[i];
    }
  }

  lemma ThreeCover(l: TpccLayout, a: TpccKey, b: TpccKey, c: TpccKey, k: TpccKey)
    requires InRange(l, a) && InRange(l, b) && InRange(l, c) && InRange(l, k)
    ensures AllValid(l, [One(a)] + [One(b)] + [One(c)])
    ensures SomeCovers(l, [One(a)] + [One(b)] + [One(c)], k) <==> SomeRow(l, [a, b, c], k)
  {
    var xs, ks := [One(a)] + [One(b)] + [One(c)], [a, b, c];
    OneCovers(l, a, k);
    OneCovers(l, b, k);
    OneCovers(l, c, k);
    hide SameRow, ValidAccess, Covers;
    assert xs == [One(a), One(b), One(c)];
    assert forall i :: 0 <= i < 3 ==> xs[i] == One(ks[i]);
    assert ks[0] == a && ks[1] == b && ks[2] == c;
    assert SomeCovers(l, xs, k) <==> Covers(l, xs[0], k) || Covers(l, xs[1], k) || Covers(l, xs[2], k);
    assert SomeRow(l, ks, k) <==> SameRow(l, k, ks[0]) || SameRow(l, k, ks[1]) || SameRow(l, k, ks[2]);
  }

  /** What a new order reads is declared; and it is all that is declared, when every item is used. */
  lemma NewOrderReadsCovered(l: TpccLayout, q: NewOrderQuery, k: TpccKey)
    requires ValidNewOrder(l, q) && InRange(l, k)
    ensures AllValid(l, NewOrderReads(q)) && AllInRange(l, Rows(NewOrderAccessed(q).read))
    ensures SomeRow(l, Rows(NewOrderAccessed(q).read), k) ==> SomeCovers(l, NewOrderReads(q), k)
    ensures AllItemsUsed(q) && SomeCovers(l, NewOrderReads(q), k) ==> SomeRow(l, Rows(NewOrderAccessed(q).read), k)
  {
    var n, all := FirstUnused(q.info, 0), LineReads(q.info, |q.info|);
    var a, b, c := Warehouse(q.w), District(q.w, q.d), Customer(q.w, q.d, q.c);
    var heads := [One(a)] + [One(b)] + [One(c)];
    LineReadsValid(l, q, n);
    LineReadsValid(l, q, |q.info|);
    LinesReadAre(l, q, n, k);
    if SomeCovers(l, LineReads(q.info, n), k) { LineReadsGrow(l, q, n, |q.info|, k); }
    assert AllItemsUsed(q) ==> n == |q.info|;
    assert Rows(NewOrderHeads(q)) == [a, b, c];
    assert InRange(l, a) && InRange(l, b) && InRange(l, c);
    hide LineReads, LinesRead, SomeRow, SomeCovers, Covers, SameRow, ValidAccess, InRange;
    ThreeCover(l, a, b, c, k);
    RowsConcat(NewOrderHeads(q), LinesRead(q.info, n));
    SomeRowConcat(l, [a, b, c], Rows(LinesRead(q.info, n)), k);
    SomeCoversConcat(l, heads, all, k);
    assert NewOrderReads(q) == heads + all;
  }

  lemma {:induction false} WrittenLinesInRange(l: TpccLayout, q: NewOrderQuery, n: nat)
    requires ValidNewOrder(l, q) && AllItemsUsed(q) && n <= |q.info|
    ensures AllInRange(l, WrittenLines(q, n))
    decreases n
  {
    if n > 0 { WrittenLinesInRange(l, q, n - 1); }
  }

  /** What it writes is declared; and it is all that is declared if, and only if, every item is used. */
  lemma NewOrderWritesCovered(l: TpccLayout, q: NewOrderQuery, k: TpccKey)
    requires ValidNewOrder(l, q) && InRange(l, k)
    ensures AllValid(l, NewOrderPoints(q) + NewOrderRows(q)) && AllInRange(l, NewOrderAccessed(q).written)
    ensures SomeRow(l, NewOrderAccessed(q).written, k) ==> SomeCovers(l, NewOrderPoints(q) + NewOrderRows(q), k)
    ensures AllItemsUsed(q) && SomeCovers(l, NewOrderPoints(q) + NewOrderRows(q), k) ==> SomeRow(l, NewOrderAccessed(q).written, k)
    ensures !AllItemsUsed(q) && k == District(q.w, q.d) ==>
              SomeCovers(l, NewOrderPoints(q) + NewOrderRows(q), k) && !SomeRow(l, NewOrderAccessed(q).written, k)
  {
    var n := |q.info|;
    LineWritesValid(l, q, n);
    HeadsCover(l, q, k);
    DistrictListed(l, q);
    hide SameRow, ValidAccess, Covers, InRange, SomeCovers, LineWrites, NewOrderRows;
    assert AllItemsUsed(q) <==> FirstUnused(q.info, 0) == n;
    SomeCoversConcat(l, [One(District(q.w, q.d))], LineWrites(q.info, n), k);
    SomeCoversConcat(l, NewOrderPoints(q), NewOrderRows(q), k);
    if AllItemsUsed(q) {
      NewOrderCovers(l, q, k);
      NewOrderWritesInRange(l, q);
    }
  }

  lemma NewOrderWritesInRange(l: TpccLayout, q: NewOrderQuery)
    requires ValidNewOrder(l, q) && AllItemsUsed(q)
    ensures AllInRange(l, NewOrderWrites(q))
  {
    WrittenLinesInRange(l, q, |q.info|);
    InRangeConcat(l, [District(q.w, q.d), NewOrder(q.w, q.d, q.o), Order(q.w, q.d, q.o)], WrittenLines(q, |q.info|));
  }

  lemma DistrictListed(l: TpccLayout, q: NewOrderQuery)
    requires ValidNewOrder(l, q)
    ensures AllValid(l, [One(District(q.w, q.d))]) && SomeCovers(l, [One(District(q.w, q.d))], District(q.w, q.d))
  {
    assert Covers(l, [One(District(q.w, q.d))][0], District(q.w, q.d));
  }

  // ------------------------------------------------------------------
  // Payment
  // ------------------------------------------------------------------

  /** The customer the name index names, and the one it reads when there is no need for the index. */
  function PaymentCustomer(q: PaymentQuery, found: nat): TpccKey {
    Customer(q.customerW, q.customerD, if q.c == 0 then found else q.c)
  }

  function PaymentRead(q: PaymentQuery, found: nat): seq<RowRead> {
    (if q.writeToWYtd then [Shared(Warehouse(q.w))] else []) + [Shared(District(q.w, q.d))]
    + (if q.c == 0 then [Shared(CustomerName(q.customerW, q.customerD, q.last))] else []) + [Shared(PaymentCustomer(q, found))]
  }

  function PaymentAccessed(q: PaymentQuery, found: nat): Accessed {
    Accessed(PaymentRead(q, found), PaymentRows(q, found), Ready)
  }

  predicate IsCustomer(c: nat) { 1 <= c <= CUSTOMERS_PER_DISTRICT }

  method PaymentProcedure(q: PaymentQuery, found: nat) returns (a: Accessed)
    ensures a == PaymentAccessed(q, found)
  {
    var readSet: seq<RowRead> := [];
    if q.writeToWYtd { readSet := readSet + [Shared(Warehouse(q.w))]; }
    readSet := readSet + [Shared(District(q.w, q.d))];
    var c := q.c;
    if c == 0 {
      readSet := readSet + [Shared(CustomerName(q.customerW, q.customerD, q.last))];
      c := found;
    }
    readSet := readSet + [Shared(Customer(q.customerW, q.customerD, c))];
    var writeSet: seq<TpccKey> := [];
    if q.writeToWYtd { writeSet := writeSet + [Warehouse(q.w)]; }
    writeSet := writeSet + [District(q.w, q.d)];
    writeSet := writeSet + [Customer(q.customerW, q.customerD, c)];
    return Accessed(readSet, writeSet, Ready);
  }

  lemma PaymentInRange(l: TpccLayout, q: PaymentQuery, found: nat)
    requires ValidPayment(l, q) && IsCustomer(found)
    ensures AllInRange(l, Rows(PaymentRead(q, found))) && AllInRange(l, PaymentRows(q, found))
    ensures AllValid(l, PaymentReads(q)) && AllValid(l, PaymentWrites(q))
    ensures AllValid(l, PaymentHome(q)) && AllInRange(l, PaymentHomeRows(q)) && InRange(l, PaymentCustomer(q, found))
  {}

  function PaymentHomeRows(q: PaymentQuery): seq<TpccKey> {
    (if q.writeToWYtd then [Warehouse(q.w)] else []) + [District(q.w, q.d)]
  }

  lemma SingleCovers(l: TpccLayout, a: Access, k: TpccKey)
    requires ValidAccess(l, a) && InRange(l, k)
    ensures AllValid(l, [a]) && (SomeCovers(l, [a], k) <==> Covers(l, a, k))
  {
    assert [a][0] == a;
  }

  lemma SingleRow(l: TpccLayout, j: TpccKey, k: TpccKey)
    requires InRange(l, j) && InRange(l, k)
    ensures SomeRow(l, [j], k) <==> SameRow(l, k, j)
  {
    assert [j][0] == j;
  }

  lemma HomeCovers(l: TpccLayout, q: PaymentQuery, k: TpccKey)
    requires ValidPayment(l, q) && InRange(l, k)
    ensures AllValid(l, PaymentHome(q))
    ensures SomeCovers(l, PaymentHome(q), k) <==> SomeRow(l, PaymentHomeRows(q), k)
  {
    var w, d := Warehouse(q.w), District(q.w, q.d);
    assert InRange(l, w) && InRange(l, d);
    OneCovers(l, w, k);
    OneCovers(l, d, k);
    hide SameRow, Covers, InRange, ValidAccess, SomeRow, SomeCovers;
    SingleCovers(l, One(w), k);
    SingleCovers(l, One(d), k);
    SingleRow(l, w, k);
    SingleRow(l, d, k);
    SomeCoversConcat(l, [One(w)], [One(d)], k);
    SomeRowConcat(l, [w], [d], k);
    assert [] + [One(d)] == [One(d)] && [] + [d] == [d];
  }

  /** The customer, or all of the district. */
  function PaymentTarget(q: PaymentQuery): Access {
    if q.c == 0 then Customers(q.customerW, q.customerD) else One(Customer(q.customerW, q.customerD, q.c))
  }

  /** Declared are exactly the customers that some index would name. */
  lemma TargetCovers(l: TpccLayout, q: PaymentQuery, k: TpccKey)
    requires ValidPayment(l, q) && InRange(l, k)
    ensures ValidAccess(l, PaymentTarget(q))
    ensures Covers(l, PaymentTarget(q), k) <==>
            exists found :: IsCustomer(found) && SameRow(l, k, PaymentCustomer(q, found))
    ensures q.c != 0 ==> forall found :: IsCustomer(found) ==> (Covers(l, PaymentTarget(q), k) <==> SameRow(l, k, PaymentCustomer(q, found)))
  {
    if q.c == 0 {
      if k.Customer? && k.w == q.customerW && k.d == q.customerD { assert IsCustomer(k.c) && SameRow(l, k, PaymentCustomer(q, k.c)); }
    } else {
      assert IsCustomer(1);
      assert PaymentCustomer(q, 1) == Customer(q.customerW, q.customerD, q.c);
    }
  }

  lemma PaymentWritesAre(l: TpccLayout, q: PaymentQuery, found: nat, k: TpccKey)
    requires ValidPayment(l, q) && InRange(l, k) && IsCustomer(found)
    ensures AllValid(l, PaymentWrites(q)) && AllInRange(l, PaymentRows(q, found)) && InRange(l, PaymentCustomer(q, found))
    ensures ValidAccess(l, PaymentTarget(q))
    ensures SomeRow(l, PaymentRows(q, found), k) <==>
            SomeRow(l, PaymentHomeRows(q), k) || SameRow(l, k, PaymentCustomer(q, found))
    ensures SomeCovers(l, PaymentWrites(q), k) <==>
            SomeRow(l, PaymentHomeRows(q), k) || Covers(l, PaymentTarget(q), k)
  {
    PaymentInRange(l, q, found);
    HomeCovers(l, q, k);
    TargetCovers(l, q, k);
    hide SameRow, Covers, InRange, ValidAccess, SomeRow, SomeCovers, PaymentHome;
    SingleCovers(l, PaymentTarget(q), k);
    SingleRow(l, PaymentCustomer(q, found), k);
    SomeCoversConcat(l, PaymentHome(q), [PaymentTarget(q)], k);
    SomeRowConcat(l, PaymentHomeRows(q), [PaymentCustomer(q, found)], k);
  }

  /** The write ranges of a payment hold exactly the rows it writes for some customer the index may name. */
  lemma PaymentWritesCovered(l: TpccLayout, q: PaymentQuery, k: TpccKey)
    requires ValidPayment(l, q) && InRange(l, k)
    ensures AllValid(l, PaymentWrites(q))
    ensures SomeCovers(l, PaymentWrites(q), k) <==> exists found :: IsCustomer(found) && SomeRow(l, PaymentRows(q, found), k)
  {
    TargetCovers(l, q, k);
    forall found: nat | IsCustomer(found) { PaymentWritesAre(l, q, found, k); }
    PaymentWritesAre(l, q, 1, k);
  }

  /** The index entry that is read besides. */
  function PaymentName(q: PaymentQuery): seq<TpccKey> {
    if q.c == 0 then [CustomerName(q.customerW, q.customerD, q.last)] else []
  }

  lemma NoRow(l: TpccLayout, k: TpccKey)
    requires InRange(l, k)
    ensures !SomeRow(l, [], k)
  {}

  lemma PaymentReadsAre(l: TpccLayout, q: PaymentQuery, found: nat, k: TpccKey)
    requires ValidPayment(l, q) && InRange(l, k) && IsCustomer(found)
    ensures AllValid(l, PaymentReads(q)) && AllInRange(l, Rows(PaymentRead(q, found))) && InRange(l, PaymentCustomer(q, found))
    ensures ValidAccess(l, PaymentTarget(q))
    ensures SomeRow(l, Rows(PaymentRead(q, found)), k) <==>
            SomeRow(l, PaymentHomeRows(q), k) || SomeRow(l, PaymentName(q), k) || SameRow(l, k, PaymentCustomer(q, found))
    ensures SomeCovers(l, PaymentReads(q), k) <==>
            SomeRow(l, PaymentHomeRows(q), k) || SomeRow(l, PaymentName(q), k) || Covers(l, PaymentTarget(q), k)
  {
    PaymentWritesAre(l, q, found, k);
    PaymentInRange(l, q, found);
    HomeCovers(l, q, k);
    NoRow(l, k);
    var name := CustomerName(q.customerW, q.customerD, q.last);
    assert InRange(l, name);
    OneCovers(l, name, k);
    assert Rows(PaymentRead(q, found)) == PaymentHomeRows(q) + PaymentName(q) + [PaymentCustomer(q, found)];
    hide SameRow, Covers, InRange, ValidAccess, SomeRow, SomeCovers, PaymentHome, Rows, PaymentRead;
    SingleRow(l, name, k);
    SingleCovers(l, One(name), k);
    SingleRow(l, PaymentCustomer(q, found), k);
    SomeRowConcat(l, PaymentHomeRows(q), PaymentName(q), k);
    SomeRowConcat(l, PaymentHomeRows(q) + PaymentName(q), [PaymentCustomer(q, found)], k);
    if q.c == 0 {
      SingleCovers(l, PaymentTarget(q), k);
      SomeCoversConcat(l, PaymentHome(q), [One(name)], k);
      SomeCoversConcat(l, PaymentHome(q) + [One(name)], [PaymentTarget(q)], k);
    }
  }

  /** And so do its read ranges, the entry of the name index included. */
  lemma PaymentReadsCovered(l: TpccLayout, q: PaymentQuery, k: TpccKey)
    requires ValidPayment(l, q) && InRange(l, k)
    ensures AllValid(l, PaymentReads(q))
    ensures SomeCovers(l, PaymentReads(q), k) <==> exists found :: IsCustomer(found) && SomeRow(l, Rows(PaymentRead(q, found)), k)
  {
    TargetCovers(l, q, k);
    forall found: nat | IsCustomer(found) { PaymentReadsAre(l, q, found, k); }
    PaymentReadsAre(l, q, 1, k);
  }

  // ------------------------------------------------------------------
  // Delivery
  // ------------------------------------------------------------------

  /** Of the first `n` districts that have an order: the orders, their lines, their customers. */
  function OrdersRead(q: DeliveryQuery, n: nat): seq<TpccKey>
    requires n <= |q.orders|
  {
    if n == 0 then []
    else if q.orders[n - 1].o == 0 then OrdersRead(q, n - 1)
    else OrdersRead(q, n - 1) + [NewOrder(q.w, n, q.orders[n - 1].o)] + [Order(q.w, n, q.orders[n - 1].o)]
  }

  function LinesOf(w: nat, d: nat, o: nat, n: nat): seq<TpccKey> {
    if n == 0 then [] else LinesOf(w, d, o, n - 1) + [OrderLine(w, d, o, n)]
  }

  function OrderLinesRead(q: DeliveryQuery, n: nat): seq<TpccKey>
    requires n <= |q.orders|
  {
    if n == 0 then []
    else if q.orders[n - 1].o == 0 then OrderLinesRead(q, n - 1)
    else OrderLinesRead(q, n - 1) + LinesOf(q.w, n, q.orders[n - 1].o, q.orders[n - 1].lines)
  }

  function CustomersRead(q: DeliveryQuery, n: nat): seq<TpccKey>
    requires n <= |q.orders|
  {
    if n == 0 then []
    else if q.orders[n - 1].o == 0 then CustomersRead(q, n - 1)
    else CustomersRead(q, n - 1) + [Customer(q.w, n, q.orders[n - 1].c)]
  }

  /** The writes go district by district. */
  function DeliveryWritten(q: DeliveryQuery, n: nat): seq<TpccKey>
    requires n <= |q.orders|
  {
    if n == 0 then []
    else if q.orders[n - 1].o == 0 then DeliveryWritten(q, n - 1)
    else
      var x := q.orders[n - 1];
      DeliveryWritten(q, n - 1) + [NewOrder(q.w, n, x.o)] + [Order(q.w, n, x.o)] + LinesOf(q.w, n, x.o, x.lines)
      + [Customer(q.w, n, x.c)]
  }

  function AllShared(ks: seq<TpccKey>): (rs: seq<RowRead>)
    ensures |rs| == |ks| && forall i :: 0 <= i < |rs| ==> rs[i] == Shared(ks[i])
  {
    seq(|ks|, i requires 0 <= i < |ks| => Shared(ks[i]))
  }

  function DeliveryAccessed(q: DeliveryQuery): Accessed {
    var n := |q.orders|;
    Accessed(AllShared(OrdersRead(q, n) + OrderLinesRead(q, n) + CustomersRead(q, n)), DeliveryWritten(q, n), Ready)
  }

  method PushLines(q: DeliveryQuery, d: nat, rows: seq<TpccKey>) returns (rows': seq<TpccKey>)
    requires 1 <= d <= |q.orders|
    ensures rows' == rows + LinesOf(q.w, d, q.orders[d - 1].o, q.orders[d - 1].lines)
  {
    rows' := rows;
    for n := 1 to q.orders[d - 1].lines + 1
      invariant rows' == rows + LinesOf(q.w, d, q.orders[d - 1].o, n - 1)
    {
      rows' := rows' + [OrderLine(q.w, d, q.orders[d - 1].o, n)];
    }
  }

  method DeliveryProcedure(q: DeliveryQuery) returns (a: Accessed)
    ensures a == DeliveryAccessed(q)
  {
    var rows: seq<TpccKey> := [];
    for d := 1 to |q.orders| + 1
      invariant rows == OrdersRead(q, d - 1)
    {
      if q.orders[d - 1].o == 0 { continue; }
      rows := rows + [NewOrder(q.w, d, q.orders[d - 1].o)];
      rows := rows + [Order(q.w, d, q.orders[d - 1].o)];
    }
    ghost var before := rows;
    for d := 1 to |q.orders| + 1
      invariant rows == before + OrderLinesRead(q, d - 1)
    {
      if q.orders[d - 1].o == 0 { continue; }
      rows := PushLines(q, d, rows);
    }
    before := rows;
    for d := 1 to |q.orders| + 1
      invariant rows == before + CustomersRead(q, d - 1)
    {
      if q.orders[d - 1].o == 0 { continue; }
      rows := rows + [Customer(q.w, d, q.orders[d - 1].c)];
    }
    var written := DeliveryUpdates(q);
    return Accessed(AllShared(rows), written, Ready);
  }

  method DeliveryUpdates(q: DeliveryQuery) returns (rows: seq<TpccKey>)
    ensures rows == DeliveryWritten(q, |q.orders|)
  {
    rows := [];
    for d := 1 to |q.orders| + 1
      invariant rows == DeliveryWritten(q, d - 1)
    {
      var x := q.orders[d - 1];
      if x.o == 0 { continue; }
      rows := rows + [NewOrder(q.w, d, x.o)];
      rows := rows + [Order(q.w, d, x.o)];
      rows := PushLines(q, d, rows);
      rows := rows + [Customer(q.w, d, x.c)];
    }
  }

  lemma {:induction false} LinesOfAre(l: TpccLayout, w: nat, d: nat, o: nat, n: nat, k: TpccKey)
    requires InDistrict(l, w, d) && o >= 1 && n <= MAX_ORDER_LINES_PER_ORDER && InRange(l, k)
    ensures AllInRange(l, LinesOf(w, d, o, n))
    ensures SomeRow(l, LinesOf(w, d, o, n), k) <==>
            k.OrderLine? && k.w == w && k.d == d && SameOrder(k.o, o) && (k.n - 1) % MAX_ORDER_LINES_PER_ORDER < n
    decreases n
  {
    if n > 0 {
      LinesOfAre(l, w, d, o, n - 1, k);
      SomeRowMore(l, LinesOf(w, d, o, n - 1), OrderLine(w, d, o, n), k);
    }
  }

  /** The rows one district adds are those its four accesses cover. */
  lemma DistrictRows(l: TpccLayout, w: nat, d: nat, x: Delivered, k: TpccKey)
    requires InDistrict(l, w, d) && x.o >= 1 && 1 <= x.c <= CUSTOMERS_PER_DISTRICT && 1 <= x.lines <= MAX_ORDER_LINES_PER_ORDER && InRange(l, k)
    ensures ValidAccess(l, One(NewOrder(w, d, x.o))) && ValidAccess(l, One(Order(w, d, x.o)))
    ensures ValidAccess(l, Lines(w, d, x.o, x.lines)) && ValidAccess(l, One(Customer(w, d, x.c)))
    ensures AllInRange(l, LinesOf(w, d, x.o, x.lines))
    ensures Covers(l, One(NewOrder(w, d, x.o)), k) <==> SameRow(l, k, NewOrder(w, d, x.o))
    ensures Covers(l, One(Order(w, d, x.o)), k) <==> SameRow(l, k, Order(w, d, x.o))
    ensures Covers(l, One(Customer(w, d, x.c)), k) <==> SameRow(l, k, Customer(w, d, x.c))
    ensures Covers(l, Lines(w, d, x.o, x.lines), k) <==> SomeRow(l, LinesOf(w, d, x.o, x.lines), k)
  {
    LinesOfAre(l, w, d, x.o, x.lines, k);
  }

  lemma DeliveredValid(l: TpccLayout, q: DeliveryQuery, n: nat)
    requires ValidDelivery(l, q) && 0 < n <= |q.orders| && q.orders[n - 1].o != 0
    ensures InDistrict(l, q.w, n) && q.orders[n - 1].o >= 1
    ensures 1 <= q.orders[n - 1].c <= CUSTOMERS_PER_DISTRICT && 1 <= q.orders[n - 1].lines <= MAX_ORDER_LINES_PER_ORDER
    ensures InRange(l, NewOrder(q.w, n, q.orders[n - 1].o)) && InRange(l, Order(q.w, n, q.orders[n - 1].o))
    ensures InRange(l, Customer(q.w, n, q.orders[n - 1].c))
  {}

  /** One more district among the declared accesses. */
  lemma DeclaredStep(l: TpccLayout, q: DeliveryQuery, n: nat, k: TpccKey)
    requires ValidDelivery(l, q) && 0 < n <= |q.orders| && q.orders[n - 1].o != 0 && InRange(l, k)
    requires AllValid(l, DeliveryAccesses(q, n - 1))
    ensures var x := q.orders[n - 1];
            InRange(l, NewOrder(q.w, n, x.o)) && InRange(l, Order(q.w, n, x.o)) && InRange(l, Customer(q.w, n, x.c)) &&
            AllValid(l, DeliveryAccesses(q, n)) &&
            (SomeCovers(l, DeliveryAccesses(q, n), k) <==>
             SomeCovers(l, DeliveryAccesses(q, n - 1), k) || SameRow(l, k, NewOrder(q.w, n, x.o)) || SameRow(l, k, Order(q.w, n, x.o))
             || SomeRow(l, LinesOf(q.w, n, x.o, x.lines), k) || SameRow(l, k, Customer(q.w, n, x.c)))
  {
    var x, xs := q.orders[n - 1], DeliveryAccesses(q, n - 1);
    var a, b, c, d := One(NewOrder(q.w, n, x.o)), One(Order(q.w, n, x.o)), Lines(q.w, n, x.o, x.lines), One(Customer(q.w, n, x.c));
    assert DeliveryAccesses(q, n) == xs + [a] + [b] + [c] + [d];
    DeliveredValid(l, q, n);
    hide *;
    DistrictRows(l, q.w, n, x, k);
    SomeCoversMore(l, xs, a, k);
    SomeCoversMore(l, xs + [a], b, k);
    SomeCoversMore(l, xs + [a] + [b], c, k);
    SomeCoversMore(l, xs + [a] + [b] + [c], d, k);
  }

  /** And among the rows written. */
  lemma WrittenStep(l: TpccLayout, q: DeliveryQuery, n: nat, k: TpccKey)
    requires ValidDelivery(l, q) && 0 < n <= |q.orders| && q.orders[n - 1].o != 0 && InRange(l, k)
    requires AllInRange(l, DeliveryWritten(q, n - 1))
    ensures var x := q.orders[n - 1];
            InRange(l, NewOrder(q.w, n, x.o)) && InRange(l, Order(q.w, n, x.o)) && InRange(l, Customer(q.w, n, x.c)) &&
            AllInRange(l, DeliveryWritten(q, n)) &&
            (SomeRow(l, DeliveryWritten(q, n), k) <==>
             SomeRow(l, DeliveryWritten(q, n - 1), k) || SameRow(l, k, NewOrder(q.w, n, x.o)) || SameRow(l, k, Order(q.w, n, x.o))
             || SomeRow(l, LinesOf(q.w, n, x.o, x.lines), k) || SameRow(l, k, Customer(q.w, n, x.c)))
  {
    var x, ks := q.orders[n - 1], DeliveryWritten(q, n - 1);
    var a, b, ls, c := NewOrder(q.w, n, x.o), Order(q.w, n, x.o), LinesOf(q.w, n, x.o, x.lines), Customer(q.w, n, x.c);
    assert DeliveryWritten(q, n) == ks + [a] + [b] + ls + [c];
    DeliveredValid(l, q, n);
    AddedInRange(l, ks, a);
    AddedInRange(l, ks + [a], b);
    hide *;
    DistrictRows(l, q.w, n, x, k);
    InRangeConcat(l, ks + [a] + [b], ls);
    AddedInRange(l, ks + [a] + [b] + ls, c);
    SomeRowMore(l, ks, a, k);
    SomeRowMore(l, ks + [a], b, k);
    SomeRowConcat(l, ks + [a] + [b], ls, k);
    SomeRowMore(l, ks + [a] + [b] + ls, c, k);
  }

  lemma AddedInRange(l: TpccLayout, ks: seq<TpccKey>, k: TpccKey)
    requires AllInRange(l, ks) && InRange(l, k)
    ensures AllInRange(l, ks + [k])
  {}

  /** And among the rows read, in three rounds over the districts. */
  lemma ReadStep(l: TpccLayout, q: DeliveryQuery, n: nat, k: TpccKey)
    requires ValidDelivery(l, q) && 0 < n <= |q.orders| && q.orders[n - 1].o != 0 && InRange(l, k)
    requires AllInRange(l, OrdersRead(q, n - 1)) && AllInRange(l, OrderLinesRead(q, n - 1)) && AllInRange(l, CustomersRead(q, n - 1))
    ensures AllInRange(l, OrdersRead(q, n)) && AllInRange(l, OrderLinesRead(q, n)) && AllInRange(l, CustomersRead(q, n))
    ensures var x := q.orders[n - 1];
            InRange(l, NewOrder(q.w, n, x.o)) && InRange(l, Order(q.w, n, x.o)) && InRange(l, Customer(q.w, n, x.c)) &&
            (SomeRow(l, OrdersRead(q, n), k) <==>
             SomeRow(l, OrdersRead(q, n - 1), k) || SameRow(l, k, NewOrder(q.w, n, x.o)) || SameRow(l, k, Order(q.w, n, x.o))) &&
            (SomeRow(l, OrderLinesRead(q, n), k) <==>
             SomeRow(l, OrderLinesRead(q, n - 1), k) || SomeRow(l, LinesOf(q.w, n, x.o, x.lines), k)) &&
            (SomeRow(l, CustomersRead(q, n), k) <==> SomeRow(l, CustomersRead(q, n - 1), k) || SameRow(l, k, Customer(q.w, n, x.c)))
  {
    var x := q.orders[n - 1];
    var a, b, ls, c := NewOrder(q.w, n, x.o), Order(q.w, n, x.o), LinesOf(q.w, n, x.o, x.lines), Customer(q.w, n, x.c);
    assert OrdersRead(q, n) == OrdersRead(q, n - 1) + [a] + [b];
    assert OrderLinesRead(q, n) == OrderLinesRead(q, n - 1) + ls;
    assert CustomersRead(q, n) == CustomersRead(q, n - 1) + [c];
    DeliveredValid(l, q, n);
    hide *;
    DistrictRows(l, q.w, n, x, k);
    AddedInRange(l, OrdersRead(q, n - 1), a);
    AddedInRange(l, OrdersRead(q, n - 1) + [a], b);
    AddedInRange(l, CustomersRead(q, n - 1), c);
    InRangeConcat(l, OrderLinesRead(q, n - 1), ls);
    SomeRowMore(l, OrdersRead(q, n - 1), a, k);
    SomeRowMore(l, OrdersRead(q, n - 1) + [a], b, k);
    SomeRowConcat(l, OrderLinesRead(q, n - 1), ls, k);
    SomeRowMore(l, CustomersRead(q, n - 1), c, k);
  }

  lemma {:induction false} DeliveryRowsAre(l: TpccLayout, q: DeliveryQuery, n: nat, k: TpccKey)
    requires ValidDelivery(l, q) && n <= |q.orders| && InRange(l, k)
    ensures AllValid(l, DeliveryAccesses(q, n)) && AllInRange(l, DeliveryWritten(q, n))
    ensures AllInRange(l, OrdersRead(q, n)) && AllInRange(l, OrderLinesRead(q, n)) && AllInRange(l, CustomersRead(q, n))
    ensures SomeRow(l, DeliveryWritten(q, n), k) <==> SomeCovers(l, DeliveryAccesses(q, n), k)
    ensures SomeRow(l, OrdersRead(q, n), k) || SomeRow(l, OrderLinesRead(q, n), k) || SomeRow(l, CustomersRead(q, n), k) <==>
            SomeCovers(l, DeliveryAccesses(q, n), k)
    decreases n
  {
    hide InRange, ValidAccess, SameRow, SomeRow, SomeCovers, Covers;
    if n == 0 {
      NoRow(l, k);
      NoAccess(l, k);
    } else {
      DeliveryRowsAre(l, q, n - 1, k);
      if q.orders[n - 1].o != 0 {
        hide DeliveryAccesses, DeliveryWritten, OrdersRead, OrderLinesRead, CustomersRead, AllValid, AllInRange;
        DeclaredStep(l, q, n, k);
        WrittenStep(l, q, n, k);
        ReadStep(l, q, n, k);
      }
    }
  }

  lemma NoAccess(l: TpccLayout, k: TpccKey)
    requires InRange(l, k)
    ensures AllValid(l, []) && !SomeCovers(l, [], k)
  {}

  /** A delivery reads and writes exactly the rows it declares. */
  lemma DeliveryRowsExact(l: TpccLayout, q: DeliveryQuery, k: TpccKey)
    requires ValidDelivery(l, q) && InRange(l, k)
    ensures AllValid(l, DeliveryAccesses(q, |q.orders|))
    ensures AllInRange(l, Rows(DeliveryAccessed(q).read)) && AllInRange(l, DeliveryAccessed(q).written)
    ensures SomeRow(l, Rows(DeliveryAccessed(q).read), k) <==> SomeCovers(l, DeliveryAccesses(q, |q.orders|), k)
    ensures SomeRow(l, DeliveryAccessed(q).written, k) <==> SomeCovers(l, DeliveryAccesses(q, |q.orders|), k)
  {
    var n := |q.orders|;
    DeliveryRowsAre(l, q, n, k);
    hide InRange, ValidAccess, SameRow, SomeRow, SomeCovers, Covers, OrdersRead, OrderLinesRead, CustomersRead, DeliveryWritten, DeliveryAccesses;
    var a, b, c := OrdersRead(q, n), OrderLinesRead(q, n), CustomersRead(q, n);
    InRangeConcat(l, a, b);
    InRangeConcat(l, a + b, c);
    SomeRowConcat(l, a, b, k);
    SomeRowConcat(l, a + b, c, k);
    assert Rows(AllShared(a + b + c)) == a + b + c;
  }

  // ------------------------------------------------------------------
  // Any of the three
  // ------------------------------------------------------------------

  /** `found` is the customer that the name index will name. */
  datatype Query =
    | OfNewOrder(newOrder: NewOrderQuery)
    | OfPayment(payment: PaymentQuery, found: nat)
    | OfDelivery(delivery: DeliveryQuery)

  ghost predicate ValidQuery(l: TpccLayout, q: Query) {
    match q
    case OfNewOrder(n) => ValidNewOrder(l, n)
    case OfPayment(p, found) => ValidPayment(l, p) && IsCustomer(found)
    case OfDelivery(d) => ValidDelivery(l, d)
  }

  function AccessedBy(q: Query): Accessed {
    match q
    case OfNewOrder(n) => NewOrderAccessed(n)
    case OfPayment(p, found) => PaymentAccessed(p, found)
    case OfDelivery(d) => DeliveryAccessed(d)
  }

  function ToRead(q: Query): seq<Access> {
    match q
    case OfNewOrder(n) => NewOrderReads(n)
    case OfPayment(p, _) => PaymentReads(p)
    case OfDelivery(d) => DeliveryAccesses(d, |d.orders|)
  }

  function ToWrite(q: Query): seq<Access> {
    match q
    case OfNewOrder(n) => NewOrderPoints(n) + NewOrderRows(n)
    case OfPayment(p, _) => PaymentWrites(p)
    case OfDelivery(d) => DeliveryAccesses(d, |d.orders|)
  }

  /** The ranges a query declares when it is made. */
  method PopulateRanges(l: TpccLayout, q: Query) returns (r: TxnQueryRanges)
    requires l.Valid() && ValidQuery(l, q)
    ensures SortedByStart(r.read) && SortedByStart(r.write)
    ensures Lists(l, r.read, ToRead(q)) && Lists(l, r.write, ToWrite(q))
  {
    match q
    case OfNewOrder(n) => r := PopulateNewOrder(l, n);
    case OfPayment(p, _) => r := PopulatePayment(l, p);
    case OfDelivery(d) => r := PopulateDelivery(l, d);
  }

  // ------------------------------------------------------------------
  // The transaction of a query
  // ------------------------------------------------------------------

  /** `key` names the rows; what is computed for the writes is left open. */
  function TxnOf(q: Query, key: TpccKey -> Key, output: (seq<Value>, nat) -> Value): Txn {
    var a := AccessedBy(q);
    Txn(0, ReadKeys(a.read, key), WriteKeys(a.written, key), vs => a.outcome, output)
  }

  function ReadKeys(rs: seq<RowRead>, key: TpccKey -> Key): (ks: seq<ReadKey>)
    ensures |ks| == |rs| && forall i :: 0 <= i < |ks| ==> ks[i] == ReadKey(key(rs[i].row), rs[i].localIndex)
  {
    seq(|rs|, i requires 0 <= i < |rs| => ReadKey(key(rs[i].row), rs[i].localIndex))
  }

  function WriteKeys(rows: seq<TpccKey>, key: TpccKey -> Key): (ks: seq<Key>)
    ensures |ks| == |rows| && forall i :: 0 <= i < |ks| ==> ks[i] == key(rows[i])
  {
    seq(|rows|, i requires 0 <= i < |rows| => key(rows[i]))
  }

  lemma {:induction false} IndexedAreItems(info: seq<LineInfo>, n: nat)
    requires n <= |info|
    ensures forall i :: 0 <= i < |LinesRead(info, n)| && LinesRead(info, n)[i].localIndex ==> LinesRead(info, n)[i].row.Item?
    decreases n
  {
    if n > 0 { IndexedAreItems(info, n - 1); }
  }

  /** Only items are read through the local index. */
  lemma OnlyItemsIndexed(q: Query, i: nat)
    requires i < |AccessedBy(q).read| && AccessedBy(q).read[i].localIndex
    ensures AccessedBy(q).read[i].row.Item?
  {
    match q
    case OfNewOrder(n) =>
      hide FirstUnused;
      IndexedAreItems(n.info, FirstUnused(n.info, 0));
    case OfPayment(p, found) =>
    case OfDelivery(d) =>
  }

  predicate NoItem(ks: seq<TpccKey>) { forall i :: 0 <= i < |ks| ==> !ks[i].Item? }

  lemma {:induction false} LinesNoItem(q: NewOrderQuery, n: nat)
    requires n <= |q.info|
    ensures NoItem(WrittenLines(q, n))
    decreases n
  {
    if n > 0 { LinesNoItem(q, n - 1); }
  }

  lemma {:induction false} LinesOfNoItem(w: nat, d: nat, o: nat, n: nat)
    ensures NoItem(LinesOf(w, d, o, n))
    decreases n
  {
    if n > 0 { LinesOfNoItem(w, d, o, n - 1); }
  }

  lemma {:induction false} DeliveryNoItem(q: DeliveryQuery, n: nat)
    requires n <= |q.orders|
    ensures NoItem(DeliveryWritten(q, n))
    decreases n
  {
    if n > 0 {
      DeliveryNoItem(q, n - 1);
      LinesOfNoItem(q.w, n, q.orders[n - 1].o, q.orders[n - 1].lines);
    }
  }

  /** And no item is written. */
  lemma NoItemWritten(q: Query)
    ensures NoItem(AccessedBy(q).written)
  {
    match q
    case OfNewOrder(n) => LinesNoItem(n, |n.info|);
    case OfPayment(p, found) =>
    case OfDelivery(d) => DeliveryNoItem(d, |d.orders|);
  }

  /** Nothing is accessed that was not declared. */
  lemma QueryCovered(l: TpccLayout, q: Query, k: TpccKey)
    requires ValidQuery(l, q) && InRange(l, k)
    ensures AllValid(l, ToRead(q)) && AllValid(l, ToWrite(q))
    ensures AllInRange(l, Rows(AccessedBy(q).read)) && AllInRange(l, AccessedBy(q).written)
    ensures SomeRow(l, Rows(AccessedBy(q).read), k) ==> SomeCovers(l, ToRead(q), k)
    ensures SomeRow(l, AccessedBy(q).written, k) ==> SomeCovers(l, ToWrite(q), k)
  {
    hide SomeRow, SomeCovers, SameRow, Covers, InRange, ValidAccess, AllValid, AllInRange;
    match q
    case OfNewOrder(n) =>
      NewOrderReadsCovered(l, n, k);
      NewOrderWritesCovered(l, n, k);
    case OfPayment(p, found) =>
      PaymentReadsCovered(l, p, k);
      PaymentWritesCovered(l, p, k);
      PaymentReadsAre(l, p, found, k);
      PaymentWritesAre(l, p, found, k);
    case OfDelivery(d) =>
      DeliveryRowsExact(l, d, k);
  }

  /** If the row is declared, it is accessed. */
  ghost predicate DeclaredIsAccessed(l: TpccLayout, q: Query, k: TpccKey)
    requires AllValid(l, ToRead(q)) && AllValid(l, ToWrite(q)) && InRange(l, k)
  {
    && (SomeCovers(l, ToRead(q), k) ==> SomeRow(l, Rows(AccessedBy(q).read), k))
    && (SomeCovers(l, ToWrite(q), k) ==> SomeRow(l, AccessedBy(q).written, k))
  }

  ghost predicate DeclaredExactly(l: TpccLayout, q: Query)
    requires AllValid(l, ToRead(q)) && AllValid(l, ToWrite(q))
  {
    forall k :: InRange(l, k) ==> DeclaredIsAccessed(l, q, k)
  }

  predicate Predictable(q: Query) {
    match q
    case OfNewOrder(n) => FirstUnused(n.info, 0) == |n.info|
    case OfPayment(p, _) => p.c != 0
    case OfDelivery(_) => true
  }

  /** By last name, a customer is declared that will not be touched. */
  lemma OtherCustomer(l: TpccLayout, p: PaymentQuery, found: nat) returns (k: TpccKey)
    requires ValidPayment(l, p) && IsCustomer(found) && p.c == 0
    ensures InRange(l, k) && AllValid(l, PaymentWrites(p))
    ensures SomeCovers(l, PaymentWrites(p), k) && !SomeRow(l, PaymentRows(p, found), k)
  {
    k := Customer(p.customerW, p.customerD, if found == 1 then 2 else 1);
    PaymentWritesAre(l, p, found, k);
    assert Covers(l, PaymentTarget(p), k);
    assert !SomeRow(l, PaymentHomeRows(p), k);
  }

  /** Unless the order rolls back, or the customer is looked up by last name. */
  lemma PredictableIsAccessed(l: TpccLayout, q: Query, k: TpccKey)
    requires ValidQuery(l, q) && InRange(l, k) && Predictable(q)
    ensures AllValid(l, ToRead(q)) && AllValid(l, ToWrite(q)) && DeclaredIsAccessed(l, q, k)
  {
    hide SomeRow, SomeCovers, SameRow, Covers, InRange, ValidAccess, AllValid, AllInRange;
    match q
    case OfNewOrder(n) =>
      NewOrderReadsCovered(l, n, k);
      NewOrderWritesCovered(l, n, k);
    case OfPayment(p, found) =>
      PaymentReadsAre(l, p, found, k);
      PaymentWritesAre(l, p, found, k);
      TargetCovers(l, p, k);
    case OfDelivery(d) =>
      DeliveryRowsExact(l, d, k);
  }

  /** Then a row is declared that will not be touched: the district of the order, or a customer. */
  lemma DeclaredInVain(l: TpccLayout, q: Query) returns (k: TpccKey)
    requires ValidQuery(l, q) && !Predictable(q)
    ensures InRange(l, k) && AllValid(l, ToRead(q)) && AllValid(l, ToWrite(q)) && !DeclaredIsAccessed(l, q, k)
  {
    match q
    case OfNewOrder(n) =>
      k := District(n.w, n.d);
      assert InRange(l, k);
      hide SomeRow, SomeCovers, SameRow, Covers, InRange, ValidAccess, AllValid, AllInRange;
      NewOrderReadsCovered(l, n, k);
      NewOrderWritesCovered(l, n, k);
    case OfPayment(p, found) =>
      hide SomeRow, SomeCovers, SameRow, Covers, InRange, ValidAccess, AllValid, AllInRange;
      k := OtherCustomer(l, p, found);
      PaymentReadsCovered(l, p, k);
  }

  /** The declared rows are exactly those accessed if, and only if, the order does not roll back and the payment is by number. */
  lemma DeclaredExactlyIff(l: TpccLayout, q: Query)
    requires ValidQuery(l, q)
    ensures AllValid(l, ToRead(q)) && AllValid(l, ToWrite(q)) && (DeclaredExactly(l, q) <==> Predictable(q))
  {
    assert InRange(l, Item(1));
    hide *;
    QueryCovered(l, q, Item(1));
    if Predictable(q) {
      forall k | InRange(l, k) ensures DeclaredIsAccessed(l, q, k) { PredictableIsAccessed(l, q, k); }
      ExactlyIf(l, q);
    } else {
      var k := DeclaredInVain(l, q);
      NotExactly(l, q, k);
    }
  }

  lemma ExactlyIf(l: TpccLayout, q: Query)
    requires AllValid(l, ToRead(q)) && AllValid(l, ToWrite(q))
    requires forall k :: InRange(l, k) ==> DeclaredIsAccessed(l, q, k)
    ensures DeclaredExactly(l, q)
  {}

  lemma NotExactly(l: TpccLayout, q: Query, k: TpccKey)
    requires AllValid(l, ToRead(q)) && AllValid(l, ToWrite(q)) && InRange(l, k) && !DeclaredIsAccessed(l, q, k)
    ensures !DeclaredExactly(l, q)
  {}
}
