/**
 The rows of TPC-C's stored procedures, row by row: which row each of them reads and
 writes, without regard to loops and order.
 */
module TpccRows {
  import opened Transactions
  import opened KeyConverter
  import opened TpccQuery
  import opened TpccTransaction

  /** Line `i` is reached: neither it nor one before it has the unused item. */
  predicate Reached(q: NewOrderQuery, i: nat) {
    i < |q.info| && forall j :: 0 <= j <= i ==> q.info[j].item != 0
  }

  lemma ReachedIffBefore(q: NewOrderQuery, i: nat)
    ensures Reached(q, i) <==> i < FirstUnused(q.info, 0)
  {}

  predicate ReadForLine(q: NewOrderQuery, i: nat, k: TpccKey) {
    i < |q.info| && (k == Item(q.info[i].item) || k == Stock(q.info[i].supplyW, q.info[i].item))
  }

  predicate WrittenForLine(q: NewOrderQuery, i: nat, k: TpccKey) {
    i < |q.info| && (k == Stock(q.info[i].supplyW, q.info[i].item) || k == OrderLine(q.w, q.d, q.o, i + 1))
  }

  lemma ReadInConcat(a: seq<RowRead>, b: seq<RowRead>, k: TpccKey)
    ensures k in Rows(a + b) <==> k in Rows(a) || k in Rows(b)
  {
    RowsConcat(a, b);
  }

  lemma {:induction false} LineReadIff(q: NewOrderQuery, n: nat, k: TpccKey)
    requires n <= |q.info|
    ensures k in Rows(LinesRead(q.info, n)) <==>
              exists i: nat :: i < n && ReadForLine(q, i, k)
    decreases n
  {
    if n > 0 {
      var before, x := LinesRead(q.info, n - 1), q.info[n - 1];
      LineReadIff(q, n - 1, k);
      ReadInConcat(before + [RowRead(Item(x.item), true)], [Shared(Stock(x.supplyW, x.item))], k);
      ReadInConcat(before, [RowRead(Item(x.item), true)], k);
      assert Rows([RowRead(Item(x.item), true)]) == [Item(x.item)];
      assert Rows([Shared(Stock(x.supplyW, x.item))]) == [Stock(x.supplyW, x.item)];
      assert k in Rows(LinesRead(q.info, n)) <==> k in Rows(before) || ReadForLine(q, n - 1, k);
      hide ReadForLine, Rows, LinesRead;
    }
  }

  lemma {:induction false} LineWrittenIff(q: NewOrderQuery, n: nat, k: TpccKey)
    requires n <= |q.info|
    ensures k in WrittenLines(q, n) <==>
              exists i: nat :: i < n && WrittenForLine(q, i, k)
    decreases n
  {
    if n > 0 {
      LineWrittenIff(q, n - 1, k);
      assert k in WrittenLines(q, n) <==> k in WrittenLines(q, n - 1) || WrittenForLine(q, n - 1, k);
      hide WrittenForLine, WrittenLines;
    }
  }

  /** A new order reads its warehouse, district and customer, and the item and the stock of every line up to the first unused item. */
  lemma NewOrderReadsAre(q: NewOrderQuery, k: TpccKey)
    ensures k in Rows(NewOrderAccessed(q).read) <==>
              || k == Warehouse(q.w) || k == District(q.w, q.d) || k == Customer(q.w, q.d, q.c)
              || exists i: nat :: Reached(q, i) && ReadForLine(q, i, k)
  {
    var n := FirstUnused(q.info, 0);
    forall i: nat ensures Reached(q, i) <==> i < n { ReachedIffBefore(q, i); }
    LineReadIff(q, n, k);
    ReadInConcat(NewOrderHeads(q), LinesRead(q.info, n), k);
    assert Rows(NewOrderHeads(q)) == [Warehouse(q.w), District(q.w, q.d), Customer(q.w, q.d, q.c)];
    assert NewOrderAccessed(q).read == NewOrderHeads(q) + LinesRead(q.info, n);
    hide LinesRead, Reached, ReadForLine, Rows, NewOrderAccessed, FirstUnused, NewOrderHeads;
  }

  /** It writes its district, itself, its lines and their stocks, or nothing when some item is unused. */
  lemma NewOrderWritesAre(q: NewOrderQuery, k: TpccKey)
    ensures NewOrderAccessed(q).outcome == if AllItemsUsed(q) then Ready else AbortNoRetry
    ensures k in NewOrderAccessed(q).written <==>
              && AllItemsUsed(q)
              && (|| k == District(q.w, q.d) || k == NewOrder(q.w, q.d, q.o) || k == Order(q.w, q.d, q.o)
                  || exists i: nat :: i < |q.info| && WrittenForLine(q, i, k))
  {
    LineWrittenIff(q, |q.info|, k);
    hide WrittenLines, WrittenForLine;
  }

  /** A payment reads and writes its warehouse, if the switch says so, its district and its customer; by last name it also reads the index. */
  lemma PaymentRowsAre(q: PaymentQuery, found: nat, k: TpccKey)
    ensures var customer := Customer(q.customerW, q.customerD, if q.c == 0 then found else q.c);
            && (k in PaymentAccessed(q, found).written <==>
                (q.writeToWYtd && k == Warehouse(q.w)) || k == District(q.w, q.d) || k == customer)
            && (k in Rows(PaymentAccessed(q, found).read) <==>
                k in PaymentAccessed(q, found).written || (q.c == 0 && k == CustomerName(q.customerW, q.customerD, q.last)))
  {
    var a := if q.writeToWYtd then [Shared(Warehouse(q.w))] else [];
    var c := if q.c == 0 then [Shared(CustomerName(q.customerW, q.customerD, q.last))] else [];
    ReadInConcat(a + [Shared(District(q.w, q.d))] + c, [Shared(PaymentCustomer(q, found))], k);
    ReadInConcat(a + [Shared(District(q.w, q.d))], c, k);
    ReadInConcat(a, [Shared(District(q.w, q.d))], k);
    assert Rows([Shared(District(q.w, q.d))]) == [District(q.w, q.d)];
    assert Rows([Shared(PaymentCustomer(q, found))]) == [PaymentCustomer(q, found)];
    assert q.writeToWYtd ==> Rows(a) == [Warehouse(q.w)];
    assert q.c == 0 ==> Rows(c) == [CustomerName(q.customerW, q.customerD, q.last)];
  }

  /** A row of the order delivered in district `d`, if there is one. */
  predicate OfDistrict(q: DeliveryQuery, d: nat, k: TpccKey) {
    && 1 <= d <= |q.orders| && q.orders[d - 1].o != 0
    && var x := q.orders[d - 1];
       || k == NewOrder(q.w, d, x.o) || k == Order(q.w, d, x.o) || k == Customer(q.w, d, x.c)
       || (k.OrderLine? && k.w == q.w && k.d == d && k.o == x.o && 1 <= k.n <= x.lines)
  }

  lemma {:induction false} LinesOfIff(w: nat, d: nat, o: nat, n: nat, k: TpccKey)
    ensures k in LinesOf(w, d, o, n) <==> k.OrderLine? && k.w == w && k.d == d && k.o == o && 1 <= k.n <= n
    decreases n
  {
    if n > 0 { LinesOfIff(w, d, o, n - 1, k); }
  }

  lemma {:induction false} DeliveredUpTo(q: DeliveryQuery, n: nat, k: TpccKey)
    requires n <= |q.orders|
    ensures k in DeliveryWritten(q, n) <==> exists d: nat :: d <= n && OfDistrict(q, d, k)
    ensures k in OrdersRead(q, n) || k in OrderLinesRead(q, n) || k in CustomersRead(q, n) <==> k in DeliveryWritten(q, n)
    decreases n
  {
    if n > 0 {
      DeliveredUpTo(q, n - 1, k);
      var x := q.orders[n - 1];
      LinesOfIff(q.w, n, x.o, x.lines, k);
      assert (exists d: nat :: d <= n && OfDistrict(q, d, k)) <==> (exists d: nat :: d <= n - 1 && OfDistrict(q, d, k)) || OfDistrict(q, n, k);
      hide LinesOf;
    }
  }

  /** A delivery reads, and writes, in every district that has an undelivered order, the order, its lines and its customer. */
  lemma DeliveryRowsAre(q: DeliveryQuery, k: TpccKey)
    ensures k in DeliveryAccessed(q).written <==> exists d: nat :: OfDistrict(q, d, k)
    ensures k in Rows(DeliveryAccessed(q).read) <==> k in DeliveryAccessed(q).written
  {
    var n := |q.orders|;
    var ks := OrdersRead(q, n) + OrderLinesRead(q, n) + CustomersRead(q, n);
    DeliveredUpTo(q, n, k);
    assert Rows(AllShared(ks)) == ks;
    assert forall d: nat :: OfDistrict(q, d, k) ==> d <= n;
    hide OfDistrict;
  }
}
