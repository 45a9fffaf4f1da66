/**
 * What the booking pages compute from the items: the income and overnight
 * totals of the home page, the day-by-day occupancy table, and the order number
 * of a new agreement. A booked item carries what the queries read through its
 * booking: the booking's title, its state's colour and its state's income code
 * (None when the booking has no state).
 */
module BookingViews {

  import opened Common
  import opened Calendar
  import opened BookingModels

  datatype BookedItem = BookedItem(item: BookingItem, title: string, color: string, income: Option<int>)

  // ---- HomeView ------------------------------------------------------------------

  /** The items whose booking's state has one of the income codes. */
  function InStates(rows: seq<BookedItem>, states: set<int>): (r: seq<BookedItem>)
    ensures forall x :: x in r <==> x in rows && x.income.Some? && x.income.value in states
  {
    Where(rows, (x: BookedItem) => x.income.Some? && x.income.value in states)
  }

  /** `item.amount - item.amount_cot`: the amount without the membership fee. */
  function NetAmount(x: BookedItem): int {
    ItemAmount(x.item) - ItemAmountCot(x.item)
  }

  function NetValue(x: BookedItem): Option<int> {
    Some(NetAmount(x))
  }

  function OvernightValue(x: BookedItem): Option<int> {
    ItemOvernights(x.item)
  }

  function OvernightsOrZero(x: BookedItem): int {
    Coalesce(ItemOvernights(x.item), 0)
  }

  /** `filter(bool, xs)`: None and 0 are dropped. */
  function Truthy(xs: seq<Option<int>>): (r: seq<int>)
    ensures forall v :: v in r ==> v != 0
  {
    if xs == [] then []
    else
      var x := xs[|xs| - 1];
      Truthy(xs[..|xs| - 1]) + (if x.Some? && x.value != 0 then [x.value] else [])
  }

  function Total(xs: seq<int>): int {
    if xs == [] then 0 else Total(xs[..|xs| - 1]) + xs[|xs| - 1]
  }

  function OrZero(o: Option<int>): int {
    Coalesce(o, 0)
  }

  /** Dropping the falsy values does not change the sum: it is the sum with None read as 0. */
  lemma {:induction false} TruthySum(xs: seq<Option<int>>)
    ensures Total(Truthy(xs)) == SumOf(xs, OrZero)
  {
    if xs != [] {
      var init := xs[..|xs| - 1];
      TruthySum(init);
      TotalAppend(Truthy(init), if xs[|xs| - 1].Some? && xs[|xs| - 1].value != 0 then [xs[|xs| - 1].value] else []);
    }
  }

  lemma {:induction false} TotalAppend(a: seq<int>, b: seq<int>)
    ensures Total(a + b) == Total(a) + Total(b)
  {
    if b != [] {
      assert (a + b)[..|a + b| - 1] == a + b[..|b| - 1];
      TotalAppend(a, b[..|b| - 1]);
    } else {
      assert a + b == a;
    }
  }

  /** The home page figures. */
  datatype HomeTotals = HomeTotals(
    potentialIncome: int, potentialOvernights: int,
    confirmedIncome: int, confirmedOvernights: int,
    totalIncome: int, totalOvernights: int)

  /** `HomeView.get_context_data`: potential means income code 1, confirmed codes 2 and 3. */
  function Home(rows: seq<BookedItem>): HomeTotals {
    var potential := InStates(rows, {1});
    var confirmed := InStates(rows, {2, 3});
    var pi := Total(Truthy(MapSeq(potential, NetValue)));
    var po := Total(Truthy(MapSeq(potential, OvernightValue)));
    var ci := Total(Truthy(MapSeq(confirmed, NetValue)));
    var co := Total(Truthy(MapSeq(confirmed, OvernightValue)));
    HomeTotals(pi, po, ci, co, pi + ci, po + co)
  }

  /**
   * The potential and confirmed incomes are the net amounts summed over the
   * items of the states concerned, and the total adds them up over income codes
   * 1 to 3.
   */
  lemma HomeIncome(rows: seq<BookedItem>)
    ensures var h := Home(rows);
      && h.potentialIncome == SumOf(InStates(rows, {1}), NetAmount)
      && h.confirmedIncome == SumOf(InStates(rows, {2, 3}), NetAmount)
      && h.totalIncome == SumOf(InStates(rows, {1, 2, 3}), NetAmount)
  {
    IncomeIs(InStates(rows, {1}));
    IncomeIs(InStates(rows, {2, 3}));
    IncomeCodes();
    StatesSplit(rows, {1}, {2, 3}, {1, 2, 3}, NetAmount);
  }

  /** The same for the overnights, an item without dates or headcount counting 0. */
  lemma HomeOvernights(rows: seq<BookedItem>)
    ensures var h := Home(rows);
      && h.potentialOvernights == SumOf(InStates(rows, {1}), OvernightsOrZero)
      && h.confirmedOvernights == SumOf(InStates(rows, {2, 3}), OvernightsOrZero)
      && h.totalOvernights == SumOf(InStates(rows, {1, 2, 3}), OvernightsOrZero)
  {
    OvernightsIs(InStates(rows, {1}));
    OvernightsIs(InStates(rows, {2, 3}));
    IncomeCodes();
    StatesSplit(rows, {1}, {2, 3}, {1, 2, 3}, OvernightsOrZero);
  }

  /** The potential code and the confirmed codes are disjoint and make up the counted codes. */
  lemma IncomeCodes()
    ensures {1} !! {2, 3} && {1, 2, 3} == {1} + {2, 3}
  {
  }

  lemma IncomeIs(s: seq<BookedItem>)
    ensures Total(Truthy(MapSeq(s, NetValue))) == SumOf(s, NetAmount)
  {
    TruthySum(MapSeq(s, NetValue));
    SumMapSeq(s, NetValue, OrZero, NetAmount);
  }

  lemma OvernightsIs(s: seq<BookedItem>)
    ensures Total(Truthy(MapSeq(s, OvernightValue))) == SumOf(s, OvernightsOrZero)
  {
    TruthySum(MapSeq(s, OvernightValue));
    SumMapSeq(s, OvernightValue, OrZero, OvernightsOrZero);
  }

  /** Summing over two disjoint sets of states adds up to summing over their union. */
  lemma {:induction false} StatesSplit(rows: seq<BookedItem>, a: set<int>, b: set<int>, c: set<int>, f: BookedItem -> int)
    requires a !! b && c == a + b
    ensures SumOf(InStates(rows, a), f) + SumOf(InStates(rows, b), f) == SumOf(InStates(rows, c), f)
  {
    if rows != [] {
      var init := rows[..|rows| - 1];
      var x := rows[|rows| - 1];
      StatesSplit(init, a, b, c, f);
      InStatesStep(rows, a, f);
      InStatesStep(rows, b, f);
      InStatesStep(rows, c, f);
    }
  }

  lemma InStatesStep(rows: seq<BookedItem>, states: set<int>, f: BookedItem -> int)
    requires rows != []
    ensures var x := rows[|rows| - 1];
      SumOf(InStates(rows, states), f)
        == SumOf(InStates(rows[..|rows| - 1], states), f) + (if x.income.Some? && x.income.value in states then f(x) else 0)
  {
    var x := rows[|rows| - 1];
    var init := InStates(rows[..|rows| - 1], states);
    if x.income.Some? && x.income.value in states {
      assert InStates(rows, states) == init + [x];
      SumAppend(init, [x], f);
      SumSingle(x, f);
    } else {
      assert InStates(rows, states) == init;
    }
  }

  // ---- OccupancyView ---------------------------------------------------------------

  /**
   * An item occupies the site on a day when it covers that night (begin <= day < end),
   * is of the product, has a headcount, and its booking's state counts (codes 1 to 3).
   */
  predicate Occupies(x: BookedItem, day: Date, product: int) {
    && x.item.begin.Some? && x.item.end.Some?
    && NotAfter(x.item.begin.value, day) && Before(day, x.item.end.value)
    && x.item.product == product
    && x.income.Some? && x.income.value in {1, 2, 3}
    && x.item.headcount.Some?
  }

  function Occupants(rows: seq<BookedItem>, day: Date, product: int): (r: seq<BookedItem>)
    ensures forall x :: x in r <==> x in rows && Occupies(x, day, product)
  {
    Where(rows, (x: BookedItem) => Occupies(x, day, product))
  }

  /** One line per booking (title and colour) with its headcount that night. */
  datatype OccupancyGroup = OccupancyGroup(title: string, color: string, headcount: int)

  datatype BookingKey = BookingKey(title: string, color: string)

  function GroupKey(x: BookedItem): BookingKey {
    BookingKey(x.title, x.color)
  }

  function HeadcountOf(x: BookedItem): int {
    Coalesce(Headcount(x.item), 0)
  }

  function GroupHeadcount(g: OccupancyGroup): int {
    g.headcount
  }

  function GroupRowOf(occ: seq<BookedItem>): BookingKey -> OccupancyGroup {
    (k: BookingKey) => OccupancyGroup(k.title, k.color, GroupSum(occ, GroupKey, k, HeadcountOf))
  }

  datatype Occupancy = Occupancy(total: int, groups: seq<OccupancyGroup>)

  /** `occupancy_for(day, product)`: the grouped lines and the sum of their headcounts. */
  function OccupancyFor(rows: seq<BookedItem>, day: Date, product: int): Occupancy {
    var occ := Occupants(rows, day, product);
    var groups := MapSeq(Keys(occ, GroupKey), GroupRowOf(occ));
    Occupancy(SumOf(groups, GroupHeadcount), groups)
  }

  /**
   * The total is the headcount of the occupying items, and there is one line
   * per booking among them, with that booking's share.
   */
  lemma OccupancyTotal(rows: seq<BookedItem>, day: Date, product: int)
    ensures var o := OccupancyFor(rows, day, product);
      var occ := Occupants(rows, day, product);
      && o.total == SumOf(occ, HeadcountOf)
      && (forall x :: x in occ ==> exists g :: g in o.groups && g.title == x.title && g.color == x.color)
      && (forall g :: g in o.groups ==> g.headcount == GroupSum(occ, GroupKey, BookingKey(g.title, g.color), HeadcountOf))
  {
    var occ := Occupants(rows, day, product);
    GroupRowsAddUp(occ, GroupKey, HeadcountOf, GroupRowOf(occ), GroupHeadcount);
    var ks := Keys(occ, GroupKey);
    forall x | x in occ
      ensures exists g :: g in OccupancyFor(rows, day, product).groups && g.title == x.title && g.color == x.color
    {
      var k := GroupKey(x);
      assert k in ks;
      var i :| 0 <= i < |ks| && ks[i] == k;
      assert MapSeq(ks, GroupRowOf(occ))[i] == GroupRowOf(occ)(k);
    }
  }

  /** A row of the table: the day, then the hamlet ("village", product 2) and the field ("terrain", product 1). */
  datatype TableRow = TableRow(day: Date, village: Occupancy, terrain: Occupancy)

  const TableStart := Date(2017, 1, 1)

  function TableRowFor(rows: seq<BookedItem>, day: Date): TableRow {
    TableRow(day, OccupancyFor(rows, day, 2), OccupancyFor(rows, day, 1))
  }

  /** `OccupancyView.get_context_data`: 365 rows, one per day from 1 January 2017. */
  method OccupancyTable(rows: seq<BookedItem>) returns (table: seq<TableRow>)
    ensures |table| == 365
    ensures forall i :: 0 <= i < 365 ==> table[i] == TableRowFor(rows, AddDays(TableStart, i))
  {
    table := [];
    var i := 0;
    while i < 365
      invariant i <= 365 && |table| == i
      invariant forall j :: 0 <= j < i ==> table[j] == TableRowFor(rows, AddDays(TableStart, j))
    {
      var day := AddDays(TableStart, i);
      table := table + [TableRow(day, OccupancyFor(rows, day, 2), OccupancyFor(rows, day, 1))];
      i := i + 1;
    }
  }

  /** The table's days are consecutive valid dates, all of them in 2017, the last one 31 December. */
  lemma TableDays(i: nat)
    requires i < 365
    ensures Valid(AddDays(TableStart, i)) && Ordinal(AddDays(TableStart, i)) == Ordinal(TableStart) + i
    ensures AddDays(TableStart, i).year == 2017
    ensures i == 364 ==> AddDays(TableStart, i) == Date(2017, 12, 31)
  {
    AddDaysStep(TableStart, i);
    var d := AddDays(TableStart, i);
    var last := Date(2017, 12, 31);
    assert Ordinal(last) == Ordinal(TableStart) + 364;
    NotAfterIsOrdinalOrder(d, last);
    NotAfterIsOrdinalOrder(TableStart, d);
    if i == 364 {
      OrdinalInjective(d, last);
    }
  }

  // ---- CreateAgreementView ----------------------------------------------------------

  /** The highest order among the agreements dated in the year; None when there is none. */
  function MaxOrder(agreements: seq<Agreement>, year: int): (r: Option<int>)
    ensures r.None? <==> forall a :: a in agreements ==> a.date.year != year
    ensures r.Some? ==> exists a :: a in agreements && a.date.year == year && a.order == r.value
    ensures r.Some? ==> forall a :: a in agreements && a.date.year == year ==> a.order <= r.value
  {
    if agreements == [] then None
    else
      var a := agreements[|agreements| - 1];
      var rest := MaxOrder(agreements[..|agreements| - 1], year);
      assert forall b :: b in agreements <==> b in agreements[..|agreements| - 1] || b == a;
      if a.date.year != year then rest
      else if rest.None? || rest.value < a.order then Some(a.order)
      else rest
  }

  /** `latest('order').order + 1`, or 1 when the year has no agreement. */
  function NextOrder(agreements: seq<Agreement>, year: int): (order: int)
    ensures forall a :: a in agreements && a.date.year == year ==> a.order < order
    ensures order == 1 || exists a :: a in agreements && a.date.year == year && a.order == order - 1
    ensures (forall a :: a in agreements ==> a.date.year != year) ==> order == 1
  {
    var m := MaxOrder(agreements, year);
    if m.None? then 1 else m.value + 1
  }

  /**
   * `CreateAgreementView.render_to_response` as written: the order is counted
   * among the agreements of the year of the booking's earliest item, and the new
   * agreement is dated today. None where the view raises: the booking has no
   * item with a begin date.
   */
  function CreateAgreementAsWritten(items: seq<BookingItem>, agreements: seq<Agreement>, today: Date): (r: Option<Agreement>)
    ensures r.Some? <==> MinBegin(items).Some?
    ensures r.Some? ==> r.value.date == today && r.value.order == NextOrder(agreements, MinBegin(items).value.year)
  {
    var first := MinBegin(items);
    if first.None? then None else Some(Agreement(today, NextOrder(agreements, first.value.year)))
  }

  /**
   * A booking created in 2017 for a stay in 2018, when 2017 already has
   * agreement 2017-001 and 2018 has none: the new agreement is numbered 2017-001 too.
   */
  lemma DuplicateNumberExample()
    ensures var old1 := Agreement(Date(2017, 3, 1), 1);
      var item := BookingItem(Some(20), Some(Date(2018, 7, 1)), Some(Date(2018, 7, 8)), 1,
        Some(500), None, None, None, true);
      var r := CreateAgreementAsWritten([item], [old1], Date(2017, 5, 2));
      r.Some? && AgreementNumber(r.value) == AgreementNumber(old1)
  {
    var old1 := Agreement(Date(2017, 3, 1), 1);
    var item := BookingItem(Some(20), Some(Date(2018, 7, 1)), Some(Date(2018, 7, 8)), 1,
      Some(500), None, None, None, true);
    assert MinBegin([item]) == Some(Date(2018, 7, 1)) by {
      assert [item][..0] == [];
    }
    assert NextOrder([old1], 2018) == 1;
  }

  /**
   * The intended numbering: the order is counted among the agreements of the
   * year the number shows, the year of the new agreement's date.
   */
  function CreateAgreement(items: seq<BookingItem>, agreements: seq<Agreement>, today: Date): (r: Option<Agreement>)
    ensures r.Some? <==> MinBegin(items).Some?
    ensures r.Some? ==> r.value.date == today && r.value.order == NextOrder(agreements, today.year)
  {
    if MinBegin(items).None? then None else Some(Agreement(today, NextOrder(agreements, today.year)))
  }

  /** With the intended numbering a new agreement's number is not taken yet. */
  lemma CreateAgreementFreshNumber(items: seq<BookingItem>, agreements: seq<Agreement>, today: Date)
    requires Valid(today)
    requires forall a :: a in agreements ==> Valid(a.date) && a.order >= 0
    ensures var r := CreateAgreement(items, agreements, today);
      r.Some? ==> r.value.order >= 1 && forall a :: a in agreements ==> AgreementNumber(r.value) != AgreementNumber(a)
  {
    var r := CreateAgreement(items, agreements, today);
    if r.Some? {
      forall a | a in agreements
        ensures AgreementNumber(r.value) != AgreementNumber(a)
      {
        AgreementNumberInjective(r.value, a);
      }
    }
  }
}
