/**
 * The booking records and the amounts the two query managers annotate them
 * with. Money is counted in cents (prices are decimals with two places); the
 * membership fee ("cotisation") is one currency unit per overnight, so 100
 * cents. A nullable column is an `Option`, and SQL arithmetic on NULL gives
 * NULL, as `Mul` does.
 */
module BookingModels {

  import opened Common
  import opened Calendar
  import opened Text

  /** An agreement: its date and its order number in the year. */
  datatype Agreement = Agreement(date: Date, order: int)

  /** `Agreement.number`: the year of the date, a dash, and the order zero-padded to three digits. */
  function AgreementNumber(a: Agreement): string {
    IntToString(a.date.year) + "-" + Format03(a.order)
  }

  /** The number splits at its first dash back into the agreement's year and order. */
  lemma AgreementNumberReads(a: Agreement)
    requires Valid(a.date) && a.order >= 0
    ensures var k := |NatToString(a.date.year)|;
      var s := AgreementNumber(a);
      && |s| >= k + 4 && s[k] == '-' && AllDigits(s[..k])
      && ParseNat(s[..k]) == Some(a.date.year) && ParseNat(s[k + 1..]) == Some(a.order)
  {
    var y := NatToString(a.date.year);
    var o := Format03(a.order);
    assert AgreementNumber(a) == y + "-" + o;
    ParseNatToString(a.date.year);
    Format03RoundTrip(a.order);
    DashSplit(y, o, a.date.year, a.order);
  }

  /** Two agreements (non-negative orders) share a number exactly when they share year and order. */
  lemma AgreementNumberInjective(a: Agreement, b: Agreement)
    requires Valid(a.date) && a.order >= 0 && Valid(b.date) && b.order >= 0
    ensures AgreementNumber(a) == AgreementNumber(b) <==> a.date.year == b.date.year && a.order == b.order
  {
    if AgreementNumber(a) == AgreementNumber(b) {
      var s := AgreementNumber(a);
      var ka := |NatToString(a.date.year)|;
      var kb := |NatToString(b.date.year)|;
      AgreementNumberReads(a);
      AgreementNumberReads(b);
      FirstDash(s, ka, kb);
      assert Some(a.date.year) == ParseNat(s[..ka]) == Some(b.date.year);
      assert Some(a.order) == ParseNat(s[ka + 1..]) == Some(b.order);
    }
  }

  /** A dash preceded only by digits is the first dash. */
  lemma FirstDash(s: string, j: nat, k: nat)
    requires j < |s| && k < |s| && s[j] == '-' && s[k] == '-' && AllDigits(s[..j]) && AllDigits(s[..k])
    ensures j == k
  {
  }

  lemma DashSplit(y: string, o: string, year: nat, order: nat)
    requires ParseNat(y) == Some(year) && ParseNat(o) == Some(order) && |o| >= 3
    ensures var s := y + "-" + o;
      && |s| >= |y| + 4 && s[|y|] == '-' && AllDigits(s[..|y|])
      && ParseNat(s[..|y|]) == Some(year) && ParseNat(s[|y| + 1..]) == Some(order)
  {
    var s := y + "-" + o;
    assert s[..|y|] == y;
    assert s[|y| + 1..] == o;
  }

  /** A booking line: a product sold to a number of people between two dates. */
  datatype BookingItem = BookingItem(
    headcount: Option<nat>, begin: Option<Date>, end: Option<Date>, product: int,
    pricePppn: Option<int>, pricePn: Option<int>, pricePp: Option<int>, price: Option<int>,
    cotisation: bool)

  /** A payment received for a booking. */
  datatype Payment = Payment(mean: int, date: Date, amount: int)

  /** SQL multiplication: NULL when either operand is NULL. */
  function Mul(a: Option<int>, b: Option<int>): (r: Option<int>)
    ensures r.Some? <==> a.Some? && b.Some?
    ensures r.Some? ==> r.value == a.value * b.value
  {
    if a.Some? && b.Some? then Some(a.value * b.value) else None
  }

  /** `Coalesce(x, d)`. */
  function Coalesce(a: Option<int>, d: int): int {
    if a.Some? then a.value else d
  }

  function Headcount(i: BookingItem): Option<int> {
    if i.headcount.Some? then Some(i.headcount.value as int) else None
  }

  /** The item's nights: the days from begin to end, NULL when a date is missing. */
  function ItemNights(i: BookingItem): (r: Option<int>)
    ensures r.Some? <==> i.begin.Some? && i.end.Some?
    ensures r.Some? ==> r.value == Ordinal(i.end.value) - Ordinal(i.begin.value)
  {
    if i.begin.Some? && i.end.Some? then Some(DaysBetween(i.begin.value, i.end.value)) else None
  }

  /** Overnights: nights times headcount. */
  function ItemOvernights(i: BookingItem): Option<int> {
    Mul(ItemNights(i), Headcount(i))
  }

  function ItemPrice(i: BookingItem): Option<int> {
    i.price
  }

  /** The summand of each amount column, before NULL is read as 0. */
  function PppnTerm(i: BookingItem): Option<int> {
    Mul(ItemOvernights(i), i.pricePppn)
  }

  function PpTerm(i: BookingItem): Option<int> {
    Mul(Headcount(i), i.pricePp)
  }

  function PnTerm(i: BookingItem): Option<int> {
    Mul(ItemNights(i), i.pricePn)
  }

  /** The fee counts the overnights of items that carry it, NULL otherwise. */
  function CotTerm(i: BookingItem): Option<int> {
    if i.cotisation then ItemOvernights(i) else None
  }

  /** The fee in cents. */
  function ItemAmountCot(i: BookingItem): int {
    100 * Coalesce(CotTerm(i), 0)
  }

  /** `BookingItemManager`: the item amount, each missing term counting as 0. */
  function ItemAmount(i: BookingItem): int {
    Coalesce(i.price, 0) + Coalesce(PppnTerm(i), 0) + Coalesce(PpTerm(i), 0) + Coalesce(PnTerm(i), 0)
      + ItemAmountCot(i)
  }

  /** With every column filled, the item amount is the full pricing formula. */
  lemma ItemAmountComplete(i: BookingItem, h: nat, b: Date, e: Date, pppn: int, pn: int, pp: int, p: int)
    requires i.headcount == Some(h) && i.begin == Some(b) && i.end == Some(e)
    requires i.pricePppn == Some(pppn) && i.pricePn == Some(pn) && i.pricePp == Some(pp) && i.price == Some(p)
    ensures var n := Ordinal(e) - Ordinal(b);
      ItemAmount(i) == p + n * h * pppn + h * pp + n * pn + (if i.cotisation then 100 * n * h else 0)
  {
    var n := Ordinal(e) - Ordinal(b);
    assert ItemOvernights(i) == Some(n * h);
    assert PppnTerm(i) == Some(n * h * pppn);
    assert PpTerm(i) == Some(h * pp);
    assert PnTerm(i) == Some(n * pn);
    assert ItemAmountCot(i) == if i.cotisation then 100 * (n * h) else 0;
  }

  /** Without dates only the lump price and the per-person price remain. */
  lemma ItemAmountWithoutDates(i: BookingItem)
    requires i.begin.None? || i.end.None?
    ensures ItemAmount(i) == Coalesce(i.price, 0) + Coalesce(Mul(Headcount(i), i.pricePp), 0)
  {
  }

  /** Without a headcount only the lump price and the per-night price remain. */
  lemma ItemAmountWithoutHeadcount(i: BookingItem)
    requires i.headcount.None?
    ensures ItemAmount(i) == Coalesce(i.price, 0) + Coalesce(Mul(ItemNights(i), i.pricePn), 0)
  {
  }

  /** `Booking.terrain` and `Booking.village`: some item is of the product. */
  function HasProduct(items: seq<BookingItem>, product: int): (r: bool)
    ensures r <==> exists k :: 0 <= k < |items| && items[k].product == product
  {
    if items == [] then false
    else items[|items| - 1].product == product || HasProduct(items[..|items| - 1], product)
  }

  function Terrain(items: seq<BookingItem>): bool {
    HasProduct(items, 1)
  }

  function Village(items: seq<BookingItem>): bool {
    HasProduct(items, 2)
  }

  // ---- SQL aggregates ------------------------------------------------------

  /** Adding a value to a SUM: NULL values are skipped, and a SUM of nothing is NULL. */
  function Combine(a: Option<int>, b: Option<int>): Option<int> {
    if a.None? then b else if b.None? then a else Some(a.value + b.value)
  }

  /** `Sum(f)` over rows. */
  function SumNullable<T(!new)>(s: seq<T>, f: T -> Option<int>): Option<int> {
    if s == [] then None else Combine(SumNullable(s[..|s| - 1], f), f(s[|s| - 1]))
  }

  /** A SUM is NULL exactly when every summand is, and otherwise adds the non-NULL ones. */
  lemma {:induction false} SumNullableValue<T(!new)>(s: seq<T>, f: T -> Option<int>, g: T -> int)
    requires forall x :: g(x) == Coalesce(f(x), 0)
    ensures SumNullable(s, f).None? <==> forall k :: 0 <= k < |s| ==> f(s[k]).None?
    ensures Coalesce(SumNullable(s, f), 0) == SumOf(s, g)
  {
    if s != [] {
      SumNullableValue(s[..|s| - 1], f, g);
      assert forall k :: 0 <= k < |s| - 1 ==> s[..|s| - 1][k] == s[k];
    }
  }

  /** A SUM over rows each repeated k times. */
  function Scale(k: nat, a: Option<int>): (r: Option<int>)
    ensures r.Some? <==> a.Some?
  {
    if a.None? then None else Some(k * a.value)
  }

  // ---- the query behind `BookingManager` -------------------------------------

  /**
   * A row of `booking LEFT JOIN item LEFT JOIN payment`: every item of the booking
   * paired with every payment, a missing side read as one NULL.
   */
  datatype Row = Row(item: Option<BookingItem>, payment: Option<Payment>)

  /** One side of the join: its rows, or a single NULL when there are none. */
  function Side<T>(s: seq<T>): (r: seq<Option<T>>)
    ensures |r| == if s == [] then 1 else |s|
    ensures s == [] ==> r == [None]
    ensures forall k :: 0 <= k < |s| ==> r[k] == Some(s[k])
  {
    if s == [] then [None] else Somes(s)
  }

  function Somes<T>(s: seq<T>): (r: seq<Option<T>>)
    ensures |r| == |s| && forall k :: 0 <= k < |s| ==> r[k] == Some(s[k])
  {
    if s == [] then [] else Somes(s[..|s| - 1]) + [Some(s[|s| - 1])]
  }

  /** The rows one item side contributes: paired with every payment side. */
  function RowsFor(o: Option<BookingItem>, ps: seq<Option<Payment>>): (r: seq<Row>)
    ensures |r| == |ps|
  {
    if ps == [] then [] else RowsFor(o, ps[..|ps| - 1]) + [Row(o, ps[|ps| - 1])]
  }

  function Cross(sides: seq<Option<BookingItem>>, ps: seq<Option<Payment>>): (r: seq<Row>)
    ensures |r| == |sides| * |ps|
  {
    if sides == [] then [] else Cross(sides[..|sides| - 1], ps) + RowsFor(sides[|sides| - 1], ps)
  }

  function JoinRows(items: seq<BookingItem>, payments: seq<Payment>): seq<Row> {
    Cross(Side(items), Side(payments))
  }

  /** `Sum('items__...')` over the joined rows. */
  function ItemColumnSum(rows: seq<Row>, f: BookingItem -> Option<int>): Option<int> {
    if rows == [] then None
    else Combine(ItemColumnSum(rows[..|rows| - 1], f), OnItem(rows[|rows| - 1].item, f))
  }

  function OnItem(o: Option<BookingItem>, f: BookingItem -> Option<int>): Option<int> {
    if o.Some? then f(o.value) else None
  }

  /** `Sum('payments__amount')` over the joined rows. */
  function PaymentColumnSum(rows: seq<Row>): Option<int> {
    if rows == [] then None
    else Combine(PaymentColumnSum(rows[..|rows| - 1]), OnPayment(rows[|rows| - 1].payment))
  }

  function OnPayment(o: Option<Payment>): Option<int> {
    if o.Some? then Some(o.value.amount) else None
  }

  function PaymentAmount(p: Payment): Option<int> {
    Some(p.amount)
  }

  /** The earliest begin and the latest end of the items; NULL dates are skipped. */
  function MinBegin(items: seq<BookingItem>): (r: Option<Date>)
    ensures r.Some? <==> exists k :: 0 <= k < |items| && items[k].begin.Some?
    ensures r.Some? ==> exists k :: 0 <= k < |items| && items[k].begin == r
    ensures r.Some? ==> forall k :: 0 <= k < |items| && items[k].begin.Some? ==> NotAfter(r.value, items[k].begin.value)
  {
    if items == [] then None
    else
      var rest := MinBegin(items[..|items| - 1]);
      var b := items[|items| - 1].begin;
      assert forall k :: 0 <= k < |items| - 1 ==> items[..|items| - 1][k] == items[k];
      if b.None? then rest
      else if rest.None? || Before(b.value, rest.value) then b
      else rest
  }

  function MaxEnd(items: seq<BookingItem>): (r: Option<Date>)
    ensures r.Some? <==> exists k :: 0 <= k < |items| && items[k].end.Some?
    ensures r.Some? ==> exists k :: 0 <= k < |items| && items[k].end == r
    ensures r.Some? ==> forall k :: 0 <= k < |items| && items[k].end.Some? ==> NotAfter(items[k].end.value, r.value)
  {
    if items == [] then None
    else
      var rest := MaxEnd(items[..|items| - 1]);
      var e := items[|items| - 1].end;
      assert forall k :: 0 <= k < |items| - 1 ==> items[..|items| - 1][k] == items[k];
      if e.None? then rest
      else if rest.None? || Before(rest.value, e.value) then e
      else rest
  }

  /** The columns `BookingManager` adds to a booking. */
  datatype BookingTotals = BookingTotals(
    begin: Option<Date>, end: Option<Date>, nights: Option<int>,
    headcount: Option<int>, overnights: Option<int>,
    price: int, amountPppn: int, amountPp: int, amountPn: int, amountCot: int, amount: int,
    payment: Option<int>, balance: Option<int>)

  /** The columns computed from the aggregates: the amount adds the five sums, the balance subtracts the payments. */
  function Totals(begin: Option<Date>, end: Option<Date>, headcount: Option<int>, overnights: Option<int>,
                  price: Option<int>, pppn: Option<int>, pp: Option<int>, pn: Option<int>, cot: Option<int>,
                  payment: Option<int>): (t: BookingTotals)
    ensures t.amount == t.price + t.amountPppn + t.amountPp + t.amountPn + t.amountCot
    ensures t.balance.Some? <==> payment.Some?
    ensures t.balance.Some? ==> t.balance.value == t.amount - payment.value
  {
    var nights := if begin.Some? && end.Some? then Some(DaysBetween(begin.value, end.value)) else None;
    var amount := Coalesce(price, 0) + Coalesce(pppn, 0) + Coalesce(pp, 0) + Coalesce(pn, 0) + 100 * Coalesce(cot, 0);
    BookingTotals(begin, end, nights, headcount, overnights,
      Coalesce(price, 0), Coalesce(pppn, 0), Coalesce(pp, 0), Coalesce(pn, 0), 100 * Coalesce(cot, 0), amount,
      payment, if payment.Some? then Some(amount - payment.value) else None)
  }

  /** `BookingManager` as written: every SUM runs over the joined rows. */
  function BookingTotalsAsWritten(items: seq<BookingItem>, payments: seq<Payment>): BookingTotals {
    var rows := JoinRows(items, payments);
    Totals(MinBegin(items), MaxEnd(items),
      ItemColumnSum(rows, Headcount), ItemColumnSum(rows, ItemOvernights),
      ItemColumnSum(rows, ItemPrice), ItemColumnSum(rows, PppnTerm), ItemColumnSum(rows, PpTerm),
      ItemColumnSum(rows, PnTerm), ItemColumnSum(rows, CotTerm),
      PaymentColumnSum(rows))
  }

  /** The intended totals: item sums over the items, the payment sum over the payments. */
  function BookingTotalsOf(items: seq<BookingItem>, payments: seq<Payment>): BookingTotals {
    Totals(MinBegin(items), MaxEnd(items),
      SumNullable(items, Headcount), SumNullable(items, ItemOvernights),
      SumNullable(items, ItemPrice), SumNullable(items, PppnTerm), SumNullable(items, PpTerm),
      SumNullable(items, PnTerm), SumNullable(items, CotTerm),
      SumNullable(payments, PaymentAmount))
  }

  // ---- properties of the intended totals ---------------------------------------

  /**
   * The booking amount is the sum of its item amounts; the headcount is NULL
   * when no item has one and otherwise the sum of those given; the balance is
   * NULL without payments and otherwise the amount less what was paid.
   */
  lemma BookingTotalsAddUp(items: seq<BookingItem>, payments: seq<Payment>)
    ensures var t := BookingTotalsOf(items, payments);
      && t.amount == SumOf(items, ItemAmount)
      && (t.headcount.None? <==> forall k :: 0 <= k < |items| ==> items[k].headcount.None?)
      && Coalesce(t.headcount, 0) == SumOf(items, HeadcountOrZero)
      && (t.balance.None? <==> payments == [])
      && (payments != [] ==> t.balance == Some(t.amount - SumOf(payments, Paid)))
  {
    var t := BookingTotalsOf(items, payments);
    var paid := SumNullable(payments, PaymentAmount);
    assert t.headcount == SumNullable(items, Headcount);
    assert t.balance.Some? <==> paid.Some?;
    assert paid.Some? ==> t.balance == Some(t.amount - paid.value);
    ItemAmountsAddUp(items);
    SumNullableValue(items, Headcount, HeadcountOrZero);
    SumNullableValue(payments, PaymentAmount, Paid);
    if payments != [] {
      assert PaymentAmount(payments[0]).Some?;
    }
  }

  function HeadcountOrZero(i: BookingItem): int {
    Coalesce(Headcount(i), 0)
  }

  function Paid(p: Payment): int {
    p.amount
  }

  lemma {:induction false} ItemAmountsAddUp(items: seq<BookingItem>)
    ensures Coalesce(SumNullable(items, ItemPrice), 0) + Coalesce(SumNullable(items, PppnTerm), 0)
      + Coalesce(SumNullable(items, PpTerm), 0) + Coalesce(SumNullable(items, PnTerm), 0)
      + 100 * Coalesce(SumNullable(items, CotTerm), 0) == SumOf(items, ItemAmount)
  {
    if items != [] {
      var init := items[..|items| - 1];
      var i := items[|items| - 1];
      ItemAmountsAddUp(init);
      SumNullableStep(items, ItemPrice);
      SumNullableStep(items, PppnTerm);
      SumNullableStep(items, PpTerm);
      SumNullableStep(items, PnTerm);
      SumNullableStep(items, CotTerm);
      assert SumOf(items, ItemAmount) == SumOf(init, ItemAmount) + ItemAmount(i);
    }
  }

  /** One more row adds its value, NULL read as 0. */
  lemma SumNullableStep<T(!new)>(s: seq<T>, f: T -> Option<int>)
    requires s != []
    ensures Coalesce(SumNullable(s, f), 0) == Coalesce(SumNullable(s[..|s| - 1], f), 0) + Coalesce(f(s[|s| - 1]), 0)
  {
  }

  // ---- what the join does to the sums ----------------------------------------------

  lemma {:induction false} ItemColumnSumAppend(a: seq<Row>, b: seq<Row>, f: BookingItem -> Option<int>)
    ensures ItemColumnSum(a + b, f) == Combine(ItemColumnSum(a, f), ItemColumnSum(b, f))
  {
    if b != [] {
      assert (a + b)[..|a + b| - 1] == a + b[..|b| - 1];
      ItemColumnSumAppend(a, b[..|b| - 1], f);
    } else {
      assert a + b == a;
    }
  }

  lemma {:induction false} PaymentColumnSumAppend(a: seq<Row>, b: seq<Row>)
    ensures PaymentColumnSum(a + b) == Combine(PaymentColumnSum(a), PaymentColumnSum(b))
  {
    if b != [] {
      assert (a + b)[..|a + b| - 1] == a + b[..|b| - 1];
      PaymentColumnSumAppend(a, b[..|b| - 1]);
    } else {
      assert a + b == a;
    }
  }

  /** An item side paired with n >= 1 payment sides adds its value n times. */
  lemma {:induction false} RowsForItemSum(o: Option<BookingItem>, ps: seq<Option<Payment>>, f: BookingItem -> Option<int>)
    requires ps != []
    ensures ItemColumnSum(RowsFor(o, ps), f) == Scale(|ps|, OnItem(o, f))
  {
    var init := ps[..|ps| - 1];
    if init == [] {
      assert RowsFor(o, init) == [];
    } else {
      RowsForItemSum(o, init, f);
      var rows := RowsFor(o, ps);
      assert rows[..|ps| - 1] == RowsFor(o, init) && rows[|ps| - 1].item == o;
      var v := OnItem(o, f);
      calc {
        ItemColumnSum(rows, f);
        Combine(ItemColumnSum(RowsFor(o, init), f), v);
        Combine(Scale(|init|, v), v);
        { if v.Some? { assert |init| * v.value + v.value == |ps| * v.value; } }
        Scale(|ps|, v);
      }
    }
  }

  /** An item side paired with the payment sides adds the payments once. */
  lemma {:induction false} RowsForPaymentSum(o: Option<BookingItem>, ps: seq<Option<Payment>>)
    ensures PaymentColumnSum(RowsFor(o, ps)) == SideSum(ps)
  {
    if ps != [] {
      RowsForPaymentSum(o, ps[..|ps| - 1]);
      assert RowsFor(o, ps)[..|ps| - 1] == RowsFor(o, ps[..|ps| - 1]);
    }
  }

  /** The SUM of the payment amounts over a payment side. */
  function SideSum(ps: seq<Option<Payment>>): Option<int> {
    if ps == [] then None else Combine(SideSum(ps[..|ps| - 1]), OnPayment(ps[|ps| - 1]))
  }

  /** The SUM of f over an item side. */
  function ItemSideSum(sides: seq<Option<BookingItem>>, f: BookingItem -> Option<int>): Option<int> {
    if sides == [] then None else Combine(ItemSideSum(sides[..|sides| - 1], f), OnItem(sides[|sides| - 1], f))
  }

  lemma ScaleCombine(k: nat, a: Option<int>, b: Option<int>)
    ensures Scale(k, Combine(a, b)) == Combine(Scale(k, a), Scale(k, b))
  {
    if a.Some? && b.Some? {
      assert k * (a.value + b.value) == k * a.value + k * b.value;
    }
  }

  /** Over the joined rows an item column adds up to its item sum, repeated once per payment side. */
  lemma {:induction false} CrossItemSum(sides: seq<Option<BookingItem>>, ps: seq<Option<Payment>>, f: BookingItem -> Option<int>)
    requires ps != []
    ensures ItemColumnSum(Cross(sides, ps), f) == Scale(|ps|, ItemSideSum(sides, f))
  {
    if sides != [] {
      var init := sides[..|sides| - 1];
      CrossItemSum(init, ps, f);
      ItemColumnSumAppend(Cross(init, ps), RowsFor(sides[|sides| - 1], ps), f);
      RowsForItemSum(sides[|sides| - 1], ps, f);
      ScaleCombine(|ps|, ItemSideSum(init, f), OnItem(sides[|sides| - 1], f));
    }
  }

  /** Over the joined rows the payment column adds up to the payment sum, repeated once per item side. */
  lemma {:induction false} CrossPaymentSum(sides: seq<Option<BookingItem>>, ps: seq<Option<Payment>>)
    requires sides != []
    ensures PaymentColumnSum(Cross(sides, ps)) == Scale(|sides|, SideSum(ps))
  {
    var init := sides[..|sides| - 1];
    var last := sides[|sides| - 1];
    RowsForPaymentSum(last, ps);
    if init == [] {
      assert Cross(sides, ps) == RowsFor(last, ps);
    } else {
      CrossPaymentSum(init, ps);
      PaymentColumnSumAppend(Cross(init, ps), RowsFor(last, ps));
      if SideSum(ps).Some? {
        assert (|sides| - 1) * SideSum(ps).value + SideSum(ps).value == |sides| * SideSum(ps).value;
      }
    }
  }

  lemma {:induction false} ItemSideSumOfSide(items: seq<BookingItem>, f: BookingItem -> Option<int>)
    ensures ItemSideSum(Side(items), f) == SumNullable(items, f)
  {
    if items == [] {
      assert Side(items)[..0] == [];
    } else {
      SomesSum(items, f);
    }
  }

  lemma {:induction false} SomesSum(items: seq<BookingItem>, f: BookingItem -> Option<int>)
    ensures ItemSideSum(Somes(items), f) == SumNullable(items, f)
  {
    if items != [] {
      SomesSum(items[..|items| - 1], f);
      assert Somes(items)[..|items| - 1] == Somes(items[..|items| - 1]);
    }
  }

  lemma {:induction false} PaymentSideSum(payments: seq<Payment>)
    ensures SideSum(Side(payments)) == SumNullable(payments, PaymentAmount)
  {
    if payments == [] {
      assert Side(payments)[..0] == [];
    } else {
      PaymentSomesSum(payments);
    }
  }

  lemma {:induction false} PaymentSomesSum(payments: seq<Payment>)
    ensures SideSum(Somes(payments)) == SumNullable(payments, PaymentAmount)
  {
    if payments != [] {
      PaymentSomesSum(payments[..|payments| - 1]);
      assert Somes(payments)[..|payments| - 1] == Somes(payments[..|payments| - 1]);
    }
  }

  /** Each item column of the query is its intended sum counted once per payment (at least once). */
  lemma JoinedItemColumn(items: seq<BookingItem>, payments: seq<Payment>, f: BookingItem -> Option<int>)
    ensures ItemColumnSum(JoinRows(items, payments), f)
      == Scale(if payments == [] then 1 else |payments|, SumNullable(items, f))
  {
    CrossItemSum(Side(items), Side(payments), f);
    ItemSideSumOfSide(items, f);
  }

  /**
   * The query as written multiplies: every item sum (headcount, overnights and
   * the amount) is counted once per payment, and the payment sum once per item.
   */
  lemma JoinMultiplies(items: seq<BookingItem>, payments: seq<Payment>)
    ensures var w := BookingTotalsAsWritten(items, payments);
      var t := BookingTotalsOf(items, payments);
      var kp := if payments == [] then 1 else |payments|;
      var ki := if items == [] then 1 else |items|;
      && w.headcount == Scale(kp, t.headcount) && w.overnights == Scale(kp, t.overnights)
      && w.amount == kp * t.amount
      && w.payment == Scale(ki, t.payment)
      && w.begin == t.begin && w.end == t.end && w.nights == t.nights
  {
    var kp := if payments == [] then 1 else |payments|;
    var ki := if items == [] then 1 else |items|;
    var rows := JoinRows(items, payments);
    JoinedItemColumn(items, payments, Headcount);
    JoinedItemColumn(items, payments, ItemOvernights);
    JoinedItemColumn(items, payments, ItemPrice);
    JoinedItemColumn(items, payments, PppnTerm);
    JoinedItemColumn(items, payments, PpTerm);
    JoinedItemColumn(items, payments, PnTerm);
    JoinedItemColumn(items, payments, CotTerm);
    CrossPaymentSum(Side(items), Side(payments));
    PaymentSideSum(payments);
    TotalsScale(kp, ki, MinBegin(items), MaxEnd(items),
      SumNullable(items, Headcount), SumNullable(items, ItemOvernights),
      SumNullable(items, ItemPrice), SumNullable(items, PppnTerm), SumNullable(items, PpTerm),
      SumNullable(items, PnTerm), SumNullable(items, CotTerm),
      SumNullable(payments, PaymentAmount));
  }

  /** Totals computed from sums repeated kp times (items) and ki times (payments). */
  lemma TotalsScale(kp: nat, ki: nat, begin: Option<Date>, end: Option<Date>, headcount: Option<int>,
                    overnights: Option<int>, price: Option<int>, pppn: Option<int>, pp: Option<int>,
                    pn: Option<int>, cot: Option<int>, payment: Option<int>)
    ensures var w := Totals(begin, end, Scale(kp, headcount), Scale(kp, overnights), Scale(kp, price),
        Scale(kp, pppn), Scale(kp, pp), Scale(kp, pn), Scale(kp, cot), Scale(ki, payment));
      var t := Totals(begin, end, headcount, overnights, price, pppn, pp, pn, cot, payment);
      && w.headcount == Scale(kp, t.headcount) && w.overnights == Scale(kp, t.overnights)
      && w.amount == kp * t.amount && w.payment == Scale(ki, t.payment)
      && w.begin == t.begin && w.end == t.end && w.nights == t.nights
  {
    ScaledCoalesce(kp, price);
    ScaledCoalesce(kp, pppn);
    ScaledCoalesce(kp, pp);
    ScaledCoalesce(kp, pn);
    ScaledCoalesce(kp, cot);
    var w := Totals(begin, end, Scale(kp, headcount), Scale(kp, overnights), Scale(kp, price),
        Scale(kp, pppn), Scale(kp, pp), Scale(kp, pn), Scale(kp, cot), Scale(ki, payment));
    var t := Totals(begin, end, headcount, overnights, price, pppn, pp, pn, cot, payment);
    assert w.amountCot == kp * t.amountCot by {
      assert w.amountCot == 100 * (kp * Coalesce(cot, 0));
      assert t.amountCot == 100 * Coalesce(cot, 0);
    }
    assert w.price == kp * t.price && w.amountPppn == kp * t.amountPppn && w.amountPp == kp * t.amountPp
      && w.amountPn == kp * t.amountPn;
    Distribute(kp, t.price, t.amountPppn, t.amountPp, t.amountPn, t.amountCot);
  }

  lemma Distribute(k: int, a: int, b: int, c: int, d: int, e: int)
    ensures k * (a + b + c + d + e) == k * a + k * b + k * c + k * d + k * e
  {
  }

  lemma ScaledCoalesce(k: nat, a: Option<int>)
    ensures Coalesce(Scale(k, a), 0) == k * Coalesce(a, 0)
  {
  }

  /**
   * Two items at 100.00 each and one payment of 50.00: the query reports
   * 100.00 paid, and so a balance of 100.00 instead of 150.00.
   */
  lemma JoinExample()
    ensures var item := BookingItem(None, None, None, 3, None, None, None, Some(10000), false);
      var payment := Payment(1, Date(2017, 7, 1), 5000);
      && BookingTotalsAsWritten([item, item], [payment]).balance == Some(10000)
      && BookingTotalsOf([item, item], [payment]).balance == Some(15000)
  {
    var item := BookingItem(None, None, None, 3, None, None, None, Some(10000), false);
    var payment := Payment(1, Date(2017, 7, 1), 5000);
    var items, payments := [item, item], [payment];
    var t := BookingTotalsOf(items, payments);
    var w := BookingTotalsAsWritten(items, payments);
    assert SumOf(items, ItemAmount) == 20000 by {
      assert ItemAmount(item) == 10000;
      assert items == [item] + [item];
      SumAppend([item], [item], ItemAmount);
      SumSingle(item, ItemAmount);
    }
    assert SumNullable(payments, PaymentAmount) == Some(5000) && SumOf(payments, Paid) == 5000 by {
      assert payments[..0] == [];
      SumSingle(payment, Paid);
    }
    assert t.amount == 20000 && t.balance == Some(15000) && t.payment == Some(5000) by {
      BookingTotalsAddUp(items, payments);
    }
    assert w.amount == 20000 && w.payment == Some(10000) by {
      JoinMultiplies(items, payments);
    }
  }
}
