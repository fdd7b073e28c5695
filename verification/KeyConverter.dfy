/**
 The key layout of TPC-C: every row of every table gets a number of its own, so
 that the predictor can compare accesses of different tables as ranges of numbers.

 The tables lie one after another; inside a table the fields of the key are the
 digits of a number in mixed radix.
 */
module KeyConverter {
  import opened DataSummary

  const CUSTOMERS_PER_DISTRICT := 3000
  const LAST_NAMES_PER_DISTRICT := 1000
  const ITEMS_PER_WAREHOUSE := 100000
  const ORDERS_PER_DISTRICT := 100000
  const MAX_ORDER_LINES_PER_ORDER := 15

  /** `nameHash` is the hash of a last name that is not made of the usual tokens. */
  datatype TpccLayout = TpccLayout(warehouseCount: nat, districtsPerWarehouse: nat, nameHash: string -> nat)
  {
    ghost predicate Valid() { warehouseCount >= 1 && districtsPerWarehouse >= 1 }

    function Districts(): nat { warehouseCount * districtsPerWarehouse }
  }

  datatype TpccKey =
    | Warehouse(w: nat)
    | District(w: nat, d: nat)
    | Customer(w: nat, d: nat, c: nat)
    | CustomerName(w: nat, d: nat, last: string)
    | Item(i: nat)
    | Stock(w: nat, i: nat)
    | NewOrder(w: nat, d: nat, o: nat)
    | Order(w: nat, d: nat, o: nat)
    | OrderLine(w: nat, d: nat, o: nat, n: nat)

  /** All ids start from 1. Order ids, and line numbers, may grow without bound. */
  ghost predicate InRange(l: TpccLayout, k: TpccKey) {
    match k
    case Warehouse(w) => InWarehouse(l, w)
    case District(w, d) => InDistrict(l, w, d)
    case Customer(w, d, c) => InDistrict(l, w, d) && 1 <= c <= CUSTOMERS_PER_DISTRICT
    case CustomerName(w, d, last) => InDistrict(l, w, d)
    case Item(i) => 1 <= i <= ITEMS_PER_WAREHOUSE
    case Stock(w, i) => InWarehouse(l, w) && 1 <= i <= ITEMS_PER_WAREHOUSE
    case NewOrder(w, d, o) => InDistrict(l, w, d) && o >= 1
    case Order(w, d, o) => InDistrict(l, w, d) && o >= 1
    case OrderLine(w, d, o, n) => InDistrict(l, w, d) && o >= 1 && n >= 1
  }

  ghost predicate InWarehouse(l: TpccLayout, w: nat) { 1 <= w <= l.warehouseCount }

  ghost predicate InDistrict(l: TpccLayout, w: nat, d: nat) { InWarehouse(l, w) && 1 <= d <= l.districtsPerWarehouse }

  // ------------------------------------------------------------------
  // Last names
  // ------------------------------------------------------------------

  const TOKENS: seq<string> := ["BAR", "OUGHT", "ABLE", "PRI", "PRES", "ESE", "ANTI", "CALLY", "ATION", "EING"]

  function Token(digit: nat): (t: string)
    requires digit < 10
    ensures |t| >= 3
  {
    TOKENS[digit]
  }

  function Trimmed(s: string): string {
    if s != [] && s[|s| - 1] == ' ' then Trimmed(s[..|s| - 1]) else s
  }

  predicate StartsWith(s: string, digit: nat)
    requires digit < 10
  {
    Token(digit) <= s
  }

  /** The name the loader gives to number `n`: one token for each of its three digits. */
  function LastName(n: nat): string
    requires n < LAST_NAMES_PER_DISTRICT
  {
    Token(n / 100) + Token(n / 10 % 10) + Token(n % 10)
  }

  predicate Blank(b: string) { forall i :: 0 <= i < |b| ==> b[i] == ' ' }

  /** Name number `n`, with any number of blanks after it, as in a field of fixed width. */
  ghost predicate IsPaddedName(s: string, n: nat) {
    n < LAST_NAMES_PER_DISTRICT && exists b :: Blank(b) && s == LastName(n) + b
  }

  /** No token is the beginning of another, so the first that fits is the only one. */
  lemma TokensPrefixFree(s: string, a: nat, b: nat)
    requires a < 10 && b < 10 && StartsWith(s, a) && StartsWith(s, b)
    ensures a == b
  {
    assert s[0] == Token(a)[0] == Token(b)[0] && s[1] == Token(a)[1] == Token(b)[1];
    assert s[2] == Token(a)[2] == Token(b)[2];
  }

  /** The first token, from number `digit` on, that `s` starts with; 10 when there is none. */
  function FirstToken(s: string, digit: nat): (r: nat)
    requires digit <= 10
    ensures r <= 10 && (r < 10 ==> StartsWith(s, r))
    ensures forall e :: digit <= e < r ==> !StartsWith(s, e)
    decreases 10 - digit
  {
    if digit == 10 then 10 else if StartsWith(s, digit) then digit else FirstToken(s, digit + 1)
  }

  datatype Parsed = Number(n: nat) | NoName

  /** Reads `i` more tokens off `remaining`, and expects nothing after them. */
  function Parse(remaining: string, i: nat, index: nat): Parsed {
    if i == 0 then (if remaining == [] then Number(index) else NoName)
    else
      var digit := FirstToken(remaining, 0);
      if digit == 10 then NoName else Parse(remaining[|Token(digit)|..], i - 1, index * 10 + digit)
  }

  function LastNameIndex(l: TpccLayout, name: string): nat {
    match Parse(Trimmed(name), 3, 0)
    case Number(n) => n
    case NoName => l.nameHash(name) % LAST_NAMES_PER_DISTRICT
  }

  lemma ParseToken(digit: nat, rest: string, i: nat, index: nat)
    requires digit < 10
    ensures Parse(Token(digit) + rest, i + 1, index) == Parse(rest, i, index * 10 + digit)
  {
    hide Token;
    var s := Token(digit) + rest;
    assert StartsWith(s, digit);
    TokensPrefixFree(s, FirstToken(s, 0), digit);
    assert s[|Token(digit)|..] == rest;
  }

  lemma DigitsOf(n: nat, a: nat, b: nat, c: nat)
    requires a < 10 && b < 10 && c < 10
    ensures n == (a * 10 + b) * 10 + c <==> n < LAST_NAMES_PER_DISTRICT && a == n / 100 && b == n / 10 % 10 && c == n % 10
  {}

  lemma NameOf(a: nat, b: nat, c: nat)
    requires a < 10 && b < 10 && c < 10
    ensures var n := (a * 10 + b) * 10 + c; n < LAST_NAMES_PER_DISTRICT && LastName(n) == Token(a) + (Token(b) + (Token(c) + []))
  {
    hide Token;
    DigitsOf((a * 10 + b) * 10 + c, a, b, c);
  }

  /** The names the loader gives are read back: each of the 1000 gets its own index. */
  lemma LastNameRoundTrip(n: nat)
    requires n < LAST_NAMES_PER_DISTRICT
    ensures Parse(LastName(n), 3, 0) == Number(n)
  {
    hide Token, Parse, LastName;
    var a, b, c := n / 100, n / 10 % 10, n % 10;
    DigitsOf(n, a, b, c);
    NameOf(a, b, c);
    ParseToken(a, Token(b) + (Token(c) + []), 2, 0);
    ParseToken(b, Token(c) + [], 1, a);
    ParseToken(c, [], 0, a * 10 + b);
    ParsedNothing(n);
  }

  lemma ParsedNothing(index: nat)
    ensures Parse([], 0, index) == Number(index)
  {}

  lemma ParseStep(s: string, i: nat, index: nat) returns (digit: nat, rest: string)
    requires Parse(s, i + 1, index).Number?
    ensures digit < 10 && s == Token(digit) + rest && Parse(s, i + 1, index) == Parse(rest, i, index * 10 + digit)
  {
    hide Token;
    digit := FirstToken(s, 0);
    rest := s[|Token(digit)|..];
  }

  lemma ParseEnd(s: string, index: nat)
    requires Parse(s, 0, index).Number?
    ensures s == [] && Parse(s, 0, index) == Number(index)
  {}

  lemma ParsedDigits(s: string, i: nat, index: nat) returns (a: nat, b: nat, c: nat)
    requires i == 2 && index == 0 && Parse(s, i + 1, index).Number?
    ensures a < 10 && b < 10 && c < 10 && s == Token(a) + (Token(b) + (Token(c) + []))
    ensures Parse(s, i + 1, index) == Number((a * 10 + b) * 10 + c)
  {
    hide *;
    var s1, s2, s3;
    a, s1 := ParseStep(s, i, index);
    b, s2 := ParseStep(s1, i - 1, a);
    c, s3 := ParseStep(s2, i - 2, a * 10 + b);
    ParseEnd(s3, (a * 10 + b) * 10 + c);
  }

  /** And nothing else is read as a name. */
  lemma ParsedIsLastName(s: string)
    requires Parse(s, 3, 0).Number?
    ensures Parse(s, 3, 0).n < LAST_NAMES_PER_DISTRICT && s == LastName(Parse(s, 3, 0).n)
  {
    hide *;
    var a, b, c := ParsedDigits(s, 2, 0);
    NameOf(a, b, c);
  }

  lemma LastNameIndexSmall(l: TpccLayout, name: string)
    ensures LastNameIndex(l, name) < LAST_NAMES_PER_DISTRICT
  {
    if Parse(Trimmed(name), 3, 0).Number? { ParsedIsLastName(Trimmed(name)); }
  }

  // ------------------------------------------------------------------
  // The layout
  // ------------------------------------------------------------------

  /** The number of the district of a warehouse, and of the order of a district, over all of them. */
  function DistrictSlot(l: TpccLayout, w: nat, d: nat): nat
    requires w >= 1 && d >= 1
  {
    (w - 1) * l.districtsPerWarehouse + (d - 1)
  }

  function OrderSlot(l: TpccLayout, w: nat, d: nat, o: nat): nat
    requires w >= 1 && d >= 1 && o >= 1
  {
    DistrictSlot(l, w, d) * ORDERS_PER_DISTRICT + (o - 1) % ORDERS_PER_DISTRICT
  }

  /** The tables in the order of their codes. */
  function TableOf(k: TpccKey): nat {
    match k
    case Warehouse(_) => 0
    case District(_, _) => 1
    case Customer(_, _, _) => 2
    case CustomerName(_, _, _) => 3
    case Item(_) => 4
    case Stock(_, _) => 5
    case NewOrder(_, _, _) => 6
    case Order(_, _, _) => 7
    case OrderLine(_, _, _, _) => 8
  }

  function Span(l: TpccLayout, table: nat): nat {
    match table
    case 0 => l.warehouseCount
    case 1 => l.Districts()
    case 2 => l.Districts() * CUSTOMERS_PER_DISTRICT
    case 3 => l.Districts() * LAST_NAMES_PER_DISTRICT
    case 4 => ITEMS_PER_WAREHOUSE
    case 5 => l.warehouseCount * ITEMS_PER_WAREHOUSE
    case 6 => l.Districts() * ORDERS_PER_DISTRICT
    case 7 => l.Districts() * ORDERS_PER_DISTRICT
    case _ => l.Districts() * ORDERS_PER_DISTRICT * MAX_ORDER_LINES_PER_ORDER
  }

  /** Where a table starts. */
  function Base(l: TpccLayout, table: nat): nat {
    if table == 0 then 0 else Base(l, table - 1) + Span(l, table - 1)
  }

  function MinKey(l: TpccLayout): nat { Base(l, 0) }

  function MaxKey(l: TpccLayout): int { Base(l, 8) + Span(l, 8) - 1 }

  /** The mixed-radix number of a key inside its table. */
  function Offset(l: TpccLayout, k: TpccKey): nat
    requires InRange(l, k)
  {
    match k
    case Warehouse(w) => w - 1
    case District(w, d) => DistrictSlot(l, w, d)
    case Customer(w, d, c) => DistrictSlot(l, w, d) * CUSTOMERS_PER_DISTRICT + (c - 1)
    case CustomerName(w, d, last) => DistrictSlot(l, w, d) * LAST_NAMES_PER_DISTRICT + LastNameIndex(l, last)
    case Item(i) => i - 1
    case Stock(w, i) => (w - 1) * ITEMS_PER_WAREHOUSE + (i - 1)
    case NewOrder(w, d, o) => OrderSlot(l, w, d, o)
    case Order(w, d, o) => OrderSlot(l, w, d, o)
    case OrderLine(w, d, o, n) => OrderSlot(l, w, d, o) * MAX_ORDER_LINES_PER_ORDER + (n - 1) % MAX_ORDER_LINES_PER_ORDER
  }

  function Code(l: TpccLayout, k: TpccKey): nat
    requires InRange(l, k)
  {
    Base(l, TableOf(k)) + Offset(l, k)
  }

  // ------------------------------------------------------------------
  // Which keys share a code
  // ------------------------------------------------------------------

  predicate SameOrder(a: nat, b: nat)
    requires a >= 1 && b >= 1
  {
    (a - 1) % ORDERS_PER_DISTRICT == (b - 1) % ORDERS_PER_DISTRICT
  }

  predicate SameLine(a: nat, b: nat)
    requires a >= 1 && b >= 1
  {
    (a - 1) % MAX_ORDER_LINES_PER_ORDER == (b - 1) % MAX_ORDER_LINES_PER_ORDER
  }

  /** Equal but for what wraps around and what is hashed. */
  ghost predicate SameRow(l: TpccLayout, x: TpccKey, y: TpccKey)
    requires InRange(l, x) && InRange(l, y)
  {
    match (x, y)
    case (CustomerName(w, d, last), CustomerName(w', d', last')) =>
      w == w' && d == d' && LastNameIndex(l, last) == LastNameIndex(l, last')
    case (NewOrder(w, d, o), NewOrder(w', d', o')) => w == w' && d == d' && SameOrder(o, o')
    case (Order(w, d, o), Order(w', d', o')) => w == w' && d == d' && SameOrder(o, o')
    case (OrderLine(w, d, o, n), OrderLine(w', d', o', n')) => w == w' && d == d' && SameOrder(o, o') && SameLine(n, n')
    case _ => x == y
  }

  /** Two digits and a radix. */
  lemma Digits(q: nat, r: nat, q': nat, r': nat, radix: nat)
    requires r < radix && r' < radix
    ensures q * radix + r == q' * radix + r' <==> q == q' && r == r'
    ensures q < q' ==> q * radix + r < q' * radix
  {
    if q < q' {
      assert (q + 1) * radix <= q' * radix by { Scale(q + 1, q', radix); }
    } else if q' < q {
      assert (q' + 1) * radix <= q * radix by { Scale(q' + 1, q, radix); }
    }
  }

  lemma Scale(a: nat, b: nat, radix: nat)
    requires a <= b
    ensures a * radix <= b * radix
  {}

  lemma SlotInside(l: TpccLayout, w: nat, d: nat)
    requires InDistrict(l, w, d)
    ensures DistrictSlot(l, w, d) < l.Districts()
  {
    Digits(w - 1, d - 1, l.warehouseCount, 0, l.districtsPerWarehouse);
  }

  lemma SlotTells(l: TpccLayout, w: nat, d: nat, w': nat, d': nat)
    requires InDistrict(l, w, d) && InDistrict(l, w', d')
    ensures DistrictSlot(l, w, d) == DistrictSlot(l, w', d') <==> w == w' && d == d'
  {
    Digits(w - 1, d - 1, w' - 1, d' - 1, l.districtsPerWarehouse);
  }

  /** A code lies in the part of its table. */
  lemma CodeInTable(l: TpccLayout, k: TpccKey)
    requires InRange(l, k)
    ensures Offset(l, k) < Span(l, TableOf(k))
  {
    hide DistrictSlot, LastNameIndex, TpccLayout.Districts;
    match k
    case District(w, d) => SlotInside(l, w, d);
    case Customer(w, d, c) => SlotInside(l, w, d);
    case CustomerName(w, d, last) => SlotInside(l, w, d); LastNameIndexSmall(l, last);
    case NewOrder(w, d, o) => SlotInside(l, w, d);
    case Order(w, d, o) => SlotInside(l, w, d);
    case OrderLine(w, d, o, n) => SlotInside(l, w, d);
    case _ =>
  }

  lemma {:induction false} TablesApart(l: TpccLayout, a: nat, b: nat)
    requires a < b
    ensures Base(l, a) + Span(l, a) <= Base(l, b)
  {
    if a + 1 < b { TablesApart(l, a, b - 1); }
  }

  /** Every code lies in the domain the predictor is told of. */
  lemma CodeInDomain(l: TpccLayout, k: TpccKey)
    requires InRange(l, k)
    ensures MinKey(l) <= Code(l, k) <= MaxKey(l)
  {
    CodeInTable(l, k);
    if TableOf(k) < 8 { TablesApart(l, TableOf(k), 8); }
  }

  lemma OffsetTells(l: TpccLayout, x: TpccKey, y: TpccKey)
    requires InRange(l, x) && InRange(l, y) && TableOf(x) == TableOf(y)
    ensures Offset(l, x) == Offset(l, y) <==> SameRow(l, x, y)
  {
    hide DistrictSlot, LastNameIndex;
    match (x, y)
    case (District(w, d), District(w', d')) => SlotTells(l, w, d, w', d');
    case (Customer(w, d, c), Customer(w', d', c')) => SlotTells(l, w, d, w', d');
    case (CustomerName(w, d, last), CustomerName(w', d', last')) =>
      SlotTells(l, w, d, w', d');
      LastNameIndexSmall(l, last);
      LastNameIndexSmall(l, last');
    case (NewOrder(w, d, o), NewOrder(w', d', o')) => SlotTells(l, w, d, w', d');
    case (Order(w, d, o), Order(w', d', o')) => SlotTells(l, w, d, w', d');
    case (OrderLine(w, d, o, n), OrderLine(w', d', o', n')) => SlotTells(l, w, d, w', d');
    case _ =>
  }

  lemma SameRowSameTable(l: TpccLayout, x: TpccKey, y: TpccKey)
    requires InRange(l, x) && InRange(l, y) && SameRow(l, x, y)
    ensures TableOf(x) == TableOf(y)
  {}

  lemma CodesAscendByTable(l: TpccLayout, x: TpccKey, y: TpccKey)
    requires InRange(l, x) && InRange(l, y) && TableOf(x) < TableOf(y)
    ensures Code(l, x) < Code(l, y)
  {
    CodeInTable(l, x);
    hide InRange, Offset, Base, Span, TableOf;
    TablesApart(l, TableOf(x), TableOf(y));
  }

  /** Two keys share a code exactly when they are the same row. */
  lemma CodesTell(l: TpccLayout, x: TpccKey, y: TpccKey)
    requires InRange(l, x) && InRange(l, y)
    ensures Code(l, x) == Code(l, y) <==> SameRow(l, x, y)
  {
    hide InRange, SameRow, Offset, Base, TableOf;
    if SameRow(l, x, y) { SameRowSameTable(l, x, y); }
    if TableOf(x) < TableOf(y) {
      CodesAscendByTable(l, x, y);
    } else if TableOf(y) < TableOf(x) {
      CodesAscendByTable(l, y, x);
    } else {
      OffsetTells(l, x, y);
    }
  }

  lemma LastNameEndsInLetter(n: nat)
    requires n < LAST_NAMES_PER_DISTRICT
    ensures LastName(n) != [] && LastName(n)[|LastName(n)| - 1] != ' '
  {
    var t := Token(n % 10);
    assert t[|t| - 1] != ' ';
    assert LastName(n)[|LastName(n)| - 1] == t[|t| - 1];
  }

  lemma {:induction false} TrimmedPadded(s: string, b: string)
    requires Blank(b) && s != [] && s[|s| - 1] != ' '
    ensures Trimmed(s + b) == s
    decreases |b|
  {
    if b == [] {
      assert s + b == s;
    } else {
      assert (s + b)[..|s + b| - 1] == s + b[..|b| - 1];
      TrimmedPadded(s, b[..|b| - 1]);
    }
  }

  lemma {:induction false} TrimmedRest(s: string) returns (b: string)
    ensures Blank(b) && s == Trimmed(s) + b
    decreases |s|
  {
    if s != [] && s[|s| - 1] == ' ' {
      b := TrimmedRest(s[..|s| - 1]);
      b := b + [' '];
    } else {
      b := [];
    }
  }

  /** A padded name is read back, and what is none is hashed. */
  lemma NameIndexIff(l: TpccLayout, s: string, n: nat)
    ensures IsPaddedName(s, n) ==> LastNameIndex(l, s) == n
    ensures (forall m :: !IsPaddedName(s, m)) ==> LastNameIndex(l, s) == l.nameHash(s) % LAST_NAMES_PER_DISTRICT
  {
    hide LastName, Parse;
    if IsPaddedName(s, n) {
      var b :| Blank(b) && s == LastName(n) + b;
      LastNameEndsInLetter(n);
      TrimmedPadded(LastName(n), b);
      LastNameRoundTrip(n);
    }
    if Parse(Trimmed(s), 3, 0).Number? {
      ParsedIsLastName(Trimmed(s));
      var b := TrimmedRest(s);
      assert IsPaddedName(s, Parse(Trimmed(s), 3, 0).n);
    }
  }

  /** The place of a padded name among those of its district. */
  lemma PaddedNameCode(l: TpccLayout, w: nat, d: nat, n: nat, b: string)
    requires InDistrict(l, w, d) && n < LAST_NAMES_PER_DISTRICT && Blank(b)
    ensures Code(l, CustomerName(w, d, LastName(n) + b)) ==
            l.warehouseCount + l.Districts() + l.Districts() * CUSTOMERS_PER_DISTRICT +
            ((w - 1) * l.districtsPerWarehouse + (d - 1)) * LAST_NAMES_PER_DISTRICT + n
  {
    NameIndexIff(l, LastName(n) + b, n);
    assert IsPaddedName(LastName(n) + b, n);
    hide LastName, LastNameIndex, TpccLayout.Districts;
    NextBase(l, 0);
    NextBase(l, 1);
    NextBase(l, 2);
  }

  /** The ids that do not wrap around, and the names the loader gives, padded or not. */
  ghost predicate Ordinary(k: TpccKey) {
    match k
    case CustomerName(_, _, last) => exists n :: IsPaddedName(last, n)
    case NewOrder(_, _, o) => o <= ORDERS_PER_DISTRICT
    case Order(_, _, o) => o <= ORDERS_PER_DISTRICT
    case OrderLine(_, _, o, n) => o <= ORDERS_PER_DISTRICT && n <= MAX_ORDER_LINES_PER_ORDER
    case _ => true
  }

  /** The same name in the same district, whatever the padding. */
  ghost predicate SameName(x: TpccKey, y: TpccKey) {
    && x.CustomerName? && y.CustomerName? && x.w == y.w && x.d == y.d
    && exists n :: IsPaddedName(x.last, n) && IsPaddedName(y.last, n)
  }

  /** Different ordinary keys have different codes. */
  lemma OrdinaryCodesDiffer(l: TpccLayout, x: TpccKey, y: TpccKey)
    requires InRange(l, x) && InRange(l, y) && Ordinary(x) && Ordinary(y)
    ensures Code(l, x) == Code(l, y) <==> x == y || SameName(x, y)
  {
    hide LastNameIndex, IsPaddedName, Code;
    CodesTell(l, x, y);
    if x.CustomerName? && y.CustomerName? { OrdinaryNamesDiffer(l, x.last, y.last); }
  }

  lemma OrdinaryNamesDiffer(l: TpccLayout, x: string, y: string)
    requires (exists n :: IsPaddedName(x, n)) && (exists n :: IsPaddedName(y, n))
    ensures LastNameIndex(l, x) == LastNameIndex(l, y) <==> exists n :: IsPaddedName(x, n) && IsPaddedName(y, n)
  {
    hide IsPaddedName, LastNameIndex;
    var n :| IsPaddedName(x, n);
    var m :| IsPaddedName(y, m);
    NameIndexIff(l, x, n);
    NameIndexIff(l, y, m);
    forall k | IsPaddedName(x, k) && IsPaddedName(y, k)
      ensures LastNameIndex(l, x) == LastNameIndex(l, y)
    {
      NameIndexIff(l, x, k);
      NameIndexIff(l, y, k);
    }
  }

  /** The range from line 1 to line `n` of an order holds exactly these lines. */
  lemma OrderLinesAreARange(l: TpccLayout, w: nat, d: nat, o: nat, n: nat, k: TpccKey)
    requires InDistrict(l, w, d) && o >= 1 && 1 <= n <= MAX_ORDER_LINES_PER_ORDER && InRange(l, k)
    ensures Code(l, OrderLine(w, d, o, 1)) <= Code(l, k) <= Code(l, OrderLine(w, d, o, n)) <==>
            k.OrderLine? && k.w == w && k.d == d && SameOrder(k.o, o) && (k.n - 1) % MAX_ORDER_LINES_PER_ORDER < n
  {
    if k.OrderLine? {
      SlotTells(l, w, d, k.w, k.d);
      hide DistrictSlot, Base;
    } else {
      CodesAscendByTable(l, k, OrderLine(w, d, o, 1));
    }
  }

  /** The range from customer 1 to customer 3000 of a district holds exactly its customers. */
  lemma CustomersAreARange(l: TpccLayout, w: nat, d: nat, k: TpccKey)
    requires InDistrict(l, w, d) && InRange(l, k)
    ensures Code(l, Customer(w, d, 1)) <= Code(l, k) <= Code(l, Customer(w, d, CUSTOMERS_PER_DISTRICT)) <==>
            k.Customer? && k.w == w && k.d == d
  {
    if k.Customer? {
      SlotTells(l, w, d, k.w, k.d);
      hide DistrictSlot, Base;
    } else if TableOf(k) < 2 {
      CodesAscendByTable(l, k, Customer(w, d, 1));
    } else {
      CodesAscendByTable(l, Customer(w, d, CUSTOMERS_PER_DISTRICT), k);
    }
  }

  // ------------------------------------------------------------------
  // Which row comes after which
  // ------------------------------------------------------------------

  lemma SlotsFollow(l: TpccLayout, w: nat, d: nat)
    requires InDistrict(l, w, d)
    ensures DistrictSlot(l, 1, 1) == 0 && DistrictSlot(l, l.warehouseCount, l.districtsPerWarehouse) == l.Districts() - 1
    ensures DistrictSlot(l, w, d + 1) == DistrictSlot(l, w, d) + 1
    ensures DistrictSlot(l, w + 1, 1) == DistrictSlot(l, w, l.districtsPerWarehouse) + 1
  {}

  lemma NameOffset(l: TpccLayout, w: nat, d: nat, n: nat)
    requires InDistrict(l, w, d) && n < LAST_NAMES_PER_DISTRICT
    ensures Offset(l, CustomerName(w, d, LastName(n))) == DistrictSlot(l, w, d) * LAST_NAMES_PER_DISTRICT + n
  {
    hide LastName;
    assert LastName(n) == LastName(n) + [] && Blank([]);
    assert IsPaddedName(LastName(n), n);
    NameIndexIff(l, LastName(n), n);
  }

  /** The tables follow one another without a gap: the first row of each comes right after the last of the one before. */
  lemma FirstTablesFollow(l: TpccLayout)
    requires l.Valid()
    ensures var w, d := l.warehouseCount, l.districtsPerWarehouse;
            && Code(l, Warehouse(1)) == 0
            && Code(l, District(1, 1)) == Code(l, Warehouse(w)) + 1
            && Code(l, Customer(1, 1, 1)) == Code(l, District(w, d)) + 1
  {
    SlotsFollow(l, 1, 1);
    hide DistrictSlot, TpccLayout.Districts;
    NextBase(l, 0);
    NextBase(l, 1);
  }

  lemma NamesFollowCustomers(l: TpccLayout)
    requires l.Valid()
    ensures var w, d := l.warehouseCount, l.districtsPerWarehouse;
            && Code(l, CustomerName(1, 1, LastName(0))) == Code(l, Customer(w, d, CUSTOMERS_PER_DISTRICT)) + 1
            && Code(l, Item(1)) == Code(l, CustomerName(w, d, LastName(LAST_NAMES_PER_DISTRICT - 1))) + 1
  {
    SlotsFollow(l, 1, 1);
    NameOffset(l, 1, 1, 0);
    NameOffset(l, l.warehouseCount, l.districtsPerWarehouse, LAST_NAMES_PER_DISTRICT - 1);
    hide DistrictSlot, TpccLayout.Districts, LastName, LastNameIndex;
    NextBase(l, 2);
    NextBase(l, 3);
  }

  lemma LastTablesFollow(l: TpccLayout)
    requires l.Valid()
    ensures var w, d := l.warehouseCount, l.districtsPerWarehouse;
            && Code(l, Stock(1, 1)) == Code(l, Item(ITEMS_PER_WAREHOUSE)) + 1
            && Code(l, NewOrder(1, 1, 1)) == Code(l, Stock(w, ITEMS_PER_WAREHOUSE)) + 1
            && Code(l, Order(1, 1, 1)) == Code(l, NewOrder(w, d, ORDERS_PER_DISTRICT)) + 1
            && Code(l, OrderLine(1, 1, 1, 1)) == Code(l, Order(w, d, ORDERS_PER_DISTRICT)) + 1
  {
    SlotsFollow(l, 1, 1);
    hide DistrictSlot, TpccLayout.Districts;
    NextBase(l, 4);
    NextBase(l, 5);
    NextBase(l, 6);
    NextBase(l, 7);
  }

  /** Inside a table the last field runs fastest. */
  lemma RowsFollow(l: TpccLayout, w: nat, d: nat, i: nat)
    requires InDistrict(l, w, d) && i >= 1
    ensures w < l.warehouseCount ==> Code(l, Warehouse(w + 1)) == Code(l, Warehouse(w)) + 1
    ensures d < l.districtsPerWarehouse ==> Code(l, District(w, d + 1)) == Code(l, District(w, d)) + 1
    ensures w < l.warehouseCount ==> Code(l, District(w + 1, 1)) == Code(l, District(w, l.districtsPerWarehouse)) + 1
    ensures i < CUSTOMERS_PER_DISTRICT ==> Code(l, Customer(w, d, i + 1)) == Code(l, Customer(w, d, i)) + 1
    ensures d < l.districtsPerWarehouse ==> Code(l, Customer(w, d + 1, 1)) == Code(l, Customer(w, d, CUSTOMERS_PER_DISTRICT)) + 1
    ensures i < ITEMS_PER_WAREHOUSE ==> Code(l, Item(i + 1)) == Code(l, Item(i)) + 1
    ensures i < ITEMS_PER_WAREHOUSE ==> Code(l, Stock(w, i + 1)) == Code(l, Stock(w, i)) + 1
    ensures w < l.warehouseCount ==> Code(l, Stock(w + 1, 1)) == Code(l, Stock(w, ITEMS_PER_WAREHOUSE)) + 1
  {
    SlotsFollow(l, w, d);
    hide DistrictSlot, Base, TpccLayout.Districts, LastNameIndex;
  }

  lemma NextMod(o: nat, m: nat)
    requires o >= 1 && (m == ORDERS_PER_DISTRICT || m == MAX_ORDER_LINES_PER_ORDER)
    ensures o % m == if o % m == 0 then 0 else (o - 1) % m + 1
    ensures o % m == 0 ==> (o - 1) % m == m - 1
  {}

  /** Order ids start over after the last one, and so do line numbers; each order has its lines together. */
  lemma OrdersFollow(l: TpccLayout, w: nat, d: nat, o: nat)
    requires InDistrict(l, w, d) && o >= 1
    ensures if o % ORDERS_PER_DISTRICT == 0 then OrderSlot(l, w, d, o + 1) == OrderSlot(l, w, d, 1)
            else OrderSlot(l, w, d, o + 1) == OrderSlot(l, w, d, o) + 1
    ensures d < l.districtsPerWarehouse ==> OrderSlot(l, w, d + 1, 1) == OrderSlot(l, w, d, ORDERS_PER_DISTRICT) + 1
    ensures Code(l, NewOrder(w, d, o)) - Code(l, NewOrder(w, d, 1)) == OrderSlot(l, w, d, o) - OrderSlot(l, w, d, 1)
    ensures Code(l, Order(w, d, o)) - Code(l, Order(w, d, 1)) == OrderSlot(l, w, d, o) - OrderSlot(l, w, d, 1)
  {
    SlotsFollow(l, w, d);
    NextMod(o, ORDERS_PER_DISTRICT);
    hide DistrictSlot, Base, TpccLayout.Districts, LastNameIndex;
  }

  lemma LinesFollow(l: TpccLayout, w: nat, d: nat, o: nat, n: nat)
    requires InDistrict(l, w, d) && o >= 1 && n >= 1
    ensures n % MAX_ORDER_LINES_PER_ORDER == 0 ==> Code(l, OrderLine(w, d, o, n + 1)) == Code(l, OrderLine(w, d, o, 1))
    ensures n % MAX_ORDER_LINES_PER_ORDER != 0 ==> Code(l, OrderLine(w, d, o, n + 1)) == Code(l, OrderLine(w, d, o, n)) + 1
    ensures o % ORDERS_PER_DISTRICT != 0 ==>
              Code(l, OrderLine(w, d, o + 1, 1)) == Code(l, OrderLine(w, d, o, MAX_ORDER_LINES_PER_ORDER)) + 1
  {
    OrdersFollow(l, w, d, o);
    NextMod(n, MAX_ORDER_LINES_PER_ORDER);
    hide OrderSlot, Base, TpccLayout.Districts, LastNameIndex;
  }

  // ------------------------------------------------------------------
  // 64 bits
  // ------------------------------------------------------------------

  /** Sums and products of unsigned words wrap around. */
  function ToUint64(l: TpccLayout, k: TpccKey): uint64
    requires InRange(l, k)
  {
    Code(l, k) % UINT64
  }

  ghost predicate Fits(l: TpccLayout) { MaxKey(l) < UINT64 }

  /** The last line of the last order of the last district has the largest code. */
  lemma LastCode(l: TpccLayout)
    requires l.Valid()
    ensures var k := OrderLine(l.warehouseCount, l.districtsPerWarehouse, ORDERS_PER_DISTRICT, MAX_ORDER_LINES_PER_ORDER);
            InRange(l, k) && Code(l, k) == MaxKey(l)
  {
    assert DistrictSlot(l, l.warehouseCount, l.districtsPerWarehouse) == l.Districts() - 1;
    hide DistrictSlot, TpccLayout.Districts;
  }

  /** No code wraps around exactly when the whole layout fits into 64 bits. */
  lemma NoCodeWrapsIffFits(l: TpccLayout)
    requires l.Valid()
    ensures (forall k :: InRange(l, k) ==> ToUint64(l, k) == Code(l, k)) <==> Fits(l)
  {
    LastCode(l);
    var last := OrderLine(l.warehouseCount, l.districtsPerWarehouse, ORDERS_PER_DISTRICT, MAX_ORDER_LINES_PER_ORDER);
    assert ToUint64(l, last) < UINT64;
    forall k | InRange(l, k) && Fits(l)
      ensures ToUint64(l, k) == Code(l, k)
    {
      CodeInDomain(l, k);
    }
  }

  lemma MaxKeyIs(l: TpccLayout)
    ensures MaxKey(l) + 1 == l.warehouseCount * (1 + ITEMS_PER_WAREHOUSE) + ITEMS_PER_WAREHOUSE + l.Districts() * 1704001
  {
    hide TpccLayout.Districts;
    NextBase(l, 0);
    NextBase(l, 1);
    NextBase(l, 2);
    NextBase(l, 3);
    NextBase(l, 4);
    NextBase(l, 5);
    NextBase(l, 6);
    NextBase(l, 7);
  }

  lemma NextBase(l: TpccLayout, table: nat)
    ensures Base(l, table + 1) == Base(l, table) + Span(l, table)
  {}

  /** Warehouse ids are 32-bit: up to 4096 districts a warehouse everything fits. */
  lemma OrdinaryLayoutFits(l: TpccLayout)
    requires l.warehouseCount < 0x8000_0000 && l.districtsPerWarehouse <= 4096
    ensures Fits(l)
  {
    Scale(l.districtsPerWarehouse, 4096, l.warehouseCount);
    assert l.Districts() <= 4096 * l.warehouseCount;
    hide TpccLayout.Districts;
    MaxKeyIs(l);
  }

  function AtLeastOne(n: nat): (r: nat)
    ensures r >= 1 && r >= n && (r == n || r == 1)
  {
    if n < 1 then 1 else n
  }

  lemma PaddedRead(l: TpccLayout, s: string)
    ensures forall n, b :: 0 <= n < LAST_NAMES_PER_DISTRICT && Blank(b) && s == LastName(n) + b ==> LastNameIndex(l, s) == n
  {
    hide LastNameIndex, LastName, Blank;
    forall n, b | 0 <= n < LAST_NAMES_PER_DISTRICT && Blank(b) && s == LastName(n) + b
      ensures LastNameIndex(l, s) == n
    {
      assert IsPaddedName(s, n);
      NameIndexIff(l, s, n);
    }
  }

  class KeyConverter {
    var layout: TpccLayout

    constructor (nameHash: string -> nat)
      ensures layout == TpccLayout(1, 10, nameHash)
    {
      layout := TpccLayout(1, 10, nameHash);
    }

    method ConfigureTpcc(warehouseCount: nat, districtsPerWarehouse: nat)
      modifies this
      ensures layout.Valid() && layout.nameHash == old(layout.nameHash)
      ensures layout.warehouseCount == AtLeastOne(warehouseCount)
      ensures layout.districtsPerWarehouse == AtLeastOne(districtsPerWarehouse)
    {
      layout := TpccLayout(if warehouseCount < 1 then 1 else warehouseCount,
                           if districtsPerWarehouse < 1 then 1 else districtsPerWarehouse, layout.nameHash);
    }

    /** Reads three tokens off the name, trying them in order; what is not a name is hashed. */
    method LastNameIndexOf(lastName: string) returns (r: nat)
      ensures r == LastNameIndex(layout, lastName)
      ensures forall n, b :: 0 <= n < LAST_NAMES_PER_DISTRICT && Blank(b) && lastName == LastName(n) + b ==> r == n
    {
      hide Token, FirstToken, LastName;
      PaddedRead(layout, lastName);
      var remaining := lastName;
      while remaining != [] && remaining[|remaining| - 1] == ' '
        invariant Trimmed(remaining) == Trimmed(lastName)
      {
        remaining := remaining[..|remaining| - 1];
      }
      var index: nat := 0;
      for i := 0 to 3
        invariant Parse(Trimmed(lastName), 3, 0) == Parse(remaining, 3 - i, index)
      {
        var digit := MatchToken(remaining);
        if digit == 10 {
          return layout.nameHash(lastName) % LAST_NAMES_PER_DISTRICT;
        }
        index := index * 10 + digit;
        remaining := remaining[|Token(digit)|..];
      }
      if remaining != [] {
        return layout.nameHash(lastName) % LAST_NAMES_PER_DISTRICT;
      }
      return index;
    }

    method MatchToken(remaining: string) returns (digit: nat)
      ensures digit == FirstToken(remaining, 0)
    {
      digit := 0;
      while digit < 10 && !StartsWith(remaining, digit)
        invariant digit <= 10 && FirstToken(remaining, 0) == FirstToken(remaining, digit)
      {
        digit := digit + 1;
      }
    }
  }
}
