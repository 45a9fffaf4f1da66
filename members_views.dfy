/**
 * The membership dashboards: the daily cumulative headcount chart of a season,
 * the comparison tables (current against reference season, with a TOTAL row,
 * difference and percentage columns and chart labels), the reference day the
 * widgets compare with, and the count of local groups.
 */
module MembersViews {

  import opened Common
  import opened Calendar
  import opened Text
  import opened DailySeries
  import opened MembersModels
  import opened MembersFilters

  // ---------------------------------------------------------------------------
  // The season chart (`AdhesionsJsonView.serie`)

  /**
   * The rows the chart counts: the season, then the sector, unit, function and
   * rate asked for. The function condition is one join on nominations, so an
   * adhesion comes out once per main nomination it has in that category.
   */
  function SerieSelected(adhesions: seq<Adhesion>, season: int, sector: string, units: string, category: string, rate: string): seq<Adhesion> {
    var qs := ByUnits(BySector(Where(adhesions, OfSeason(season)), sector), units);
    var qs := if category != "" then Repeat(qs, MainInRows(category)) else qs;
    ByRate(qs, rate)
  }

  /** A main nomination in the function category given (both conditions on the same nomination). */
  predicate MainIn(category: string, n: Nomination) {
    n.main && InCategory(category)(n)
  }

  /** The rows the chart's nomination join gives one adhesion: one per main nomination in the category. */
  function MainInRows(category: string): Adhesion -> nat {
    (a: Adhesion) => |Where(a.nominations, (n: Nomination) => MainIn(category, n))|
  }

  /**
   * How often the chart's query returns an adhesion: each occurrence of an
   * adhesion of the season in the chosen sector, unit and rate, once per main
   * nomination in the chosen category (once without a function filter).
   */
  lemma SerieSelectedRows(adhesions: seq<Adhesion>, season: int, sector: string, units: string, category: string, rate: string, a: Adhesion)
    ensures var kept := a.season == season && a in BySector([a], sector) && a in ByUnits([a], units) && a in ByRate([a], rate);
      multiset(SerieSelected(adhesions, season, sector, units, category, rate))[a] ==
        if kept then multiset(adhesions)[a] * (if category == "" then 1 else MainInRows(category)(a)) else 0
  {
    var q1 := Where(adhesions, OfSeason(season));
    var q2 := BySector(q1, sector);
    var q3 := ByUnits(q2, units);
    var q4 := if category != "" then Repeat(q3, MainInRows(category)) else q3;
    WhereRows(adhesions, OfSeason(season), a);
    SectorRows(q1, sector, a);
    UnitsRows(q2, units, a);
    RateRows(q4, rate, a);
    var m := multiset(q3)[a];
    if category != "" {
      RepeatCount(q3, MainInRows(category), a);
      if m == 0 {
        assert multiset(q4)[a] == 0;
      }
    } else {
      assert m * 1 == m;
    }
  }

  /** An adhesion gives the chart's join some row iff it has a main nomination in the category. */
  lemma MainInRowsPositive(category: string, a: Adhesion)
    ensures MainInRows(category)(a) > 0 <==> exists n :: n in a.nominations && MainIn(category, n)
  {
    WhereNonEmpty(a.nominations, (n: Nomination) => MainIn(category, n));
  }

  /** The first day of the chart: 1 September before the season. */
  function SerieStart(season: int): Date {
    Date(season - 1, 9, 1)
  }

  /** The last day of the chart: 31 August of the season, or yesterday if earlier. */
  function SerieEnd(season: int, today: Date): Date {
    var yesterday := Prev(today);
    if Before(yesterday, Date(season, 8, 31)) then yesterday else Date(season, 8, 31)
  }

  function Day(a: Adhesion): Date {
    a.date
  }

  function One(a: Adhesion): int {
    1
  }

  function GroupDay(g: Group): Date {
    g.day
  }

  /**
   * The grouped query the chart reads: one group per day on which selected
   * adhesions are dated, carrying their number, in descending day order.
   */
  predicate CountsByDay(groups: seq<Group>, selected: seq<Adhesion>) {
    && Descending(groups) && AllValid(groups)
    && (forall i :: 0 <= i < |groups| ==> groups[i].amount == GroupSum(selected, Day, groups[i].day, One))
    && (forall a :: a in selected ==> HasGroupOn(groups, a.date))
    && (forall g :: g in groups ==> HasAdhesionOn(selected, g.day))
  }

  predicate HasGroupOn(groups: seq<Group>, d: Date) {
    exists g :: g in groups && g.day == d
  }

  predicate HasAdhesionOn(selected: seq<Adhesion>, d: Date) {
    exists a :: a in selected && a.date == d
  }

  /** The chart of a season, as the view walks it. */
  method AdhesionSerie(season: int, today: Date, groups: seq<Group>) returns (data: seq<(Date, int)>)
    ensures data == Points(groups, SerieStart(season), DayCount(SerieStart(season), SerieEnd(season, today)), false)
  {
    var yesterday := Prev(today);
    var start := Date(season - 1, 9, 1);
    var end := if Before(yesterday, Date(season, 8, 31)) then yesterday else Date(season, 8, 31);
    data := Serie(start, end, groups, false);
  }

  /** Summand of the groups dated on or before d. */
  function GroupUpTo(d: Date): Group -> int {
    (g: Group) => if NotAfter(g.day, d) then g.amount else 0
  }

  /** One for an adhesion dated on or before d. */
  function CountedUpTo(d: Date): Adhesion -> int {
    (a: Adhesion) => if NotAfter(a.date, d) then 1 else 0
  }

  /** The day's group, counted when its day is on or before d. */
  function GroupCountUpTo(selected: seq<Adhesion>, d: Date): Group -> int {
    (g: Group) => if NotAfter(g.day, d) then GroupSum(selected, Day, g.day, One) else 0
  }

  lemma {:induction false} UpToIsSum(groups: seq<Group>, d: Date)
    ensures UpTo(groups, d) == SumOf(groups, GroupUpTo(d))
  {
    if groups != [] {
      UpToIsSum(groups[..|groups| - 1], d);
    }
  }

  lemma {:induction false} SumOfOne(s: seq<Adhesion>)
    ensures SumOf(s, One) == |s|
  {
    if s != [] {
      SumOfOne(s[..|s| - 1]);
    }
  }

  /** The group of a day, restricted to day d or before, is the group or nothing. */
  lemma GroupOfDayUpTo(selected: seq<Adhesion>, k: Date, d: Date)
    ensures GroupSum(selected, Day, k, CountedUpTo(d)) == GroupCountUpTo(selected, d)(Group(k, 0))
  {
    if NotAfter(k, d) {
      GroupSumExt(selected, Day, k, CountedUpTo(d), One);
    } else {
      GroupSumVanishes(selected, Day, k, CountedUpTo(d));
    }
  }

  /** The facts about the grouped query that the counting argument uses. */
  lemma CountsByDayFacts(groups: seq<Group>, selected: seq<Adhesion>)
    requires CountsByDay(groups, selected)
    ensures forall i, j :: 0 <= i < j < |groups| ==> GroupDay(groups[i]) != GroupDay(groups[j])
    ensures forall x :: x in selected ==> exists g :: g in groups && GroupDay(g) == Day(x)
    ensures forall g :: g in groups ==> g.amount == GroupSum(selected, Day, g.day, One)
  {
    forall i, j | 0 <= i < j < |groups|
      ensures GroupDay(groups[i]) != GroupDay(groups[j])
    {
      assert Before(groups[j].day, groups[i].day);
    }
    forall x | x in selected
      ensures exists g :: g in groups && GroupDay(g) == Day(x)
    {
      assert HasGroupOn(groups, x.date);
      var g :| g in groups && g.day == x.date;
      assert GroupDay(g) == Day(x);
    }
    forall g | g in groups
      ensures g.amount == GroupSum(selected, Day, g.day, One)
    {
      var i :| 0 <= i < |groups| && groups[i] == g;
    }
  }

  /**
   * Over groups of distinct days that cover the selection and count it day by
   * day, the groups dated up to d hold the adhesions dated up to d.
   */
  lemma GroupsCountUpTo(groups: seq<Group>, selected: seq<Adhesion>, d: Date)
    requires forall i, j :: 0 <= i < j < |groups| ==> GroupDay(groups[i]) != GroupDay(groups[j])
    requires forall x :: x in selected ==> exists g :: g in groups && GroupDay(g) == Day(x)
    requires forall g :: g in groups ==> g.amount == GroupSum(selected, Day, g.day, One)
    ensures UpTo(groups, d) == |DatedUpTo(selected, d)|
  {
    UpToIsSum(groups, d);
    SumExt(groups, GroupUpTo(d), GroupCountUpTo(selected, d));
    forall g
      ensures GroupCountUpTo(selected, d)(g) == GroupSum(selected, Day, GroupDay(g), CountedUpTo(d))
    {
      GroupOfDayUpTo(selected, g.day, d);
    }
    GroupSumsCoveredBy(selected, Day, CountedUpTo(d), groups, GroupDay, GroupCountUpTo(selected, d));
    SumWhereBy(selected, DatedBy(d), One, CountedUpTo(d));
    SumOfOne(DatedUpTo(selected, d));
  }

  /**
   * The chart of a season: its days are those from 1 September to the end,
   * 29 February excepted; when every selected adhesion is dated on or after
   * 1 September, the value of a day is the number of selected adhesions dated
   * on or before it, so the chart never goes down.
   */
  lemma SerieCountsMembers(season: int, today: Date, selected: seq<Adhesion>, groups: seq<Group>, i: nat)
    requires season > 1 && Valid(today) && today.year > 1
    requires CountsByDay(groups, selected)
    requires forall a :: a in selected ==> NotAfter(SerieStart(season), a.date)
    requires i < |Points(groups, SerieStart(season), DayCount(SerieStart(season), SerieEnd(season, today)), false)|
    ensures var p := Points(groups, SerieStart(season), DayCount(SerieStart(season), SerieEnd(season, today)), false);
      && Valid(p[i].0) && !IsLeapDay(p[i].0)
      && NotAfter(SerieStart(season), p[i].0) && NotAfter(p[i].0, SerieEnd(season, today))
      && p[i].1 == |DatedUpTo(selected, p[i].0)|
      && forall j :: 0 <= j < i ==> p[j].1 <= p[i].1
  {
    var start := SerieStart(season);
    var end := SerieEnd(season, today);
    var n := DayCount(start, end);
    var p := Points(groups, start, n, false);
    PrevStep(today);
    PointWithin(groups, start, end, false, i);
    forall j | 0 <= j < |groups|
      ensures NotAfter(start, groups[j].day) && groups[j].amount >= 0
    {
      assert groups[j] in groups;
      GroupSumOne(selected, groups[j].day);
    }
    PointValue(groups, start, n, false, i);
    CountsByDayFacts(groups, selected);
    GroupsCountUpTo(groups, selected, p[i].0);
    PointsNonDecreasing(groups, start, n);
  }

  /**
   * The chart of the rows the view selects: where the season's adhesions are
   * all dated from 1 September on, each point counts the rows of the query
   * dated up to its day (an adhesion once per main nomination in the chosen
   * category), and the chart never decreases.
   */
  lemma ChartCountsSelection(season: int, today: Date, adhesions: seq<Adhesion>, sector: string, units: string,
                             category: string, rate: string, groups: seq<Group>, i: nat)
    requires season > 1 && Valid(today) && today.year > 1
    requires CountsByDay(groups, SerieSelected(adhesions, season, sector, units, category, rate))
    requires forall a :: a in adhesions && a.season == season ==> NotAfter(SerieStart(season), a.date)
    requires i < |Points(groups, SerieStart(season), DayCount(SerieStart(season), SerieEnd(season, today)), false)|
    ensures var p := Points(groups, SerieStart(season), DayCount(SerieStart(season), SerieEnd(season, today)), false);
      && p[i].1 == |DatedUpTo(SerieSelected(adhesions, season, sector, units, category, rate), p[i].0)|
      && forall j :: 0 <= j < i ==> p[j].1 <= p[i].1
  {
    var selected := SerieSelected(adhesions, season, sector, units, category, rate);
    forall a | a in selected
      ensures NotAfter(SerieStart(season), a.date)
    {
      SerieSelectedRows(adhesions, season, sector, units, category, rate, a);
      assert multiset(selected)[a] > 0;
      assert a in adhesions && a.season == season;
    }
    SerieCountsMembers(season, today, selected, groups, i);
  }

  lemma {:induction false} GroupSumOne(s: seq<Adhesion>, k: Date)
    ensures GroupSum(s, Day, k, One) >= 0
  {
    if s != [] {
      GroupSumOne(s[..|s| - 1], k);
    }
  }

  /**
   * `AdhesionsJsonView.get` compares the last day of the chart with the same day
   * one season earlier: that day is always a day of the reference chart, so the
   * lookup of its value never fails.
   */
  function ReferenceDay(x: Date, reference: int): Date {
    Date(if x.month <= 8 then reference else reference - 1, x.month, x.day)
  }

  lemma ReferenceDayIsKey(season: int, today: Date, x: Date)
    requires season > 2 && Valid(today) && Valid(x) && !IsLeapDay(x)
    requires NotAfter(SerieStart(season), x) && NotAfter(x, SerieEnd(season, today))
    ensures var y := ReferenceDay(x, season - 1);
      && Valid(y) && !IsLeapDay(y) && Before(y, x)
      && NotAfter(SerieStart(season - 1), y) && NotAfter(y, SerieEnd(season - 1, today))
  {
  }

  // ---------------------------------------------------------------------------
  // The comparison tables (`TableauView`)

  /** One row of an aggregated query: the row key and its headcount. */
  datatype Count = Count(key: string, headcount: int)

  /** A row of the table: the reference and the current headcount. */
  datatype Pair = Pair(reference: int, current: int)

  function KeyOf(c: Count): string {
    c.key
  }

  function Headcount(c: Count): int {
    c.headcount
  }

  /** The headcount the table shows for key k: the last query row with that key, 0 if none. */
  function LastCount(s: seq<Count>, k: string): int {
    if s == [] then 0
    else if s[|s| - 1].key == k then s[|s| - 1].headcount
    else LastCount(s[..|s| - 1], k)
  }

  function LastCountOf(s: seq<Count>): string -> int {
    (k: string) => LastCount(s, k)
  }

  function Id(k: string): string {
    k
  }

  /** Some row of the query has key k. */
  predicate Names(qs: seq<Count>, k: string) {
    qs != [] && (qs[|qs| - 1].key == k || Names(qs[..|qs| - 1], k))
  }

  /** One column of a row set to v. */
  function Set(p: Pair, cur: bool, v: int): Pair {
    if cur then p.(current := v) else p.(reference := v)
  }

  /** The row of key k after the query qs went into one column: its last headcount there, if it has one. */
  function Put(p: Pair, cur: bool, qs: seq<Count>, k: string): Pair {
    if Names(qs, k) then Set(p, cur, LastCount(qs, k)) else p
  }

  /** The row a key starts `AddColumn` with: its row so far, or zeros. */
  function Base(rows: map<string, Pair>, k: string): Pair {
    if k in rows then rows[k] else Pair(0, 0)
  }

  /** A column total increased by v. */
  function Add(p: Pair, cur: bool, v: int): Pair {
    if cur then p.(current := p.current + v) else p.(reference := p.reference + v)
  }

  /**
   * The rows of `get_context_data` before the TOTAL row: the current query's
   * rows first, then the reference's; each key keeps the headcount last seen for
   * it in each query, and the totals add up every query row.
   */
  method CollectRows(current: seq<Count>, reference: seq<Count>) returns (keys: seq<string>, rows: map<string, Pair>, total: Pair)
    ensures keys == Keys(current + reference, KeyOf)
    ensures forall k :: k in rows <==> k in keys
    ensures forall k :: k in rows ==> rows[k] == Pair(LastCount(reference, k), LastCount(current, k))
    ensures total == Pair(SumOf(reference, Headcount), SumOf(current, Headcount))
  {
    assert [] + current == current;
    RowKeysAreKeys(current + reference);
    var rowsCurrent;
    keys, rowsCurrent, total := AddColumn([], [], map[], Pair(0, 0), current, true);
    keys, rows, total := AddColumn(current, keys, rowsCurrent, total, reference, false);
    forall k | k in rows
      ensures rows[k] == Pair(LastCount(reference, k), LastCount(current, k))
    {
      LastCountUnnamed(current, k);
      LastCountUnnamed(reference, k);
      if k in rowsCurrent {
        assert Base(map[], k) == Pair(0, 0);
      }
    }
  }

  /** A key the query does not name shows 0. */
  lemma {:induction false} LastCountUnnamed(qs: seq<Count>, k: string)
    ensures !Names(qs, k) ==> LastCount(qs, k) == 0
  {
    if qs != [] {
      LastCountUnnamed(qs[..|qs| - 1], k);
    }
  }

  /**
   * The inner loop of `get_context_data`: the rows of one query go into one
   * column, a new key getting a row of zeros first; `seen` are the rows already
   * gone in, which gave the keys so far.
   */
  method AddColumn(seen: seq<Count>, keys: seq<string>, rows: map<string, Pair>, total: Pair, qs: seq<Count>, cur: bool)
      returns (keys': seq<string>, rows': map<string, Pair>, total': Pair)
    requires keys == RowKeys(seen) && forall k :: k in rows <==> k in keys
    ensures keys' == RowKeys(seen + qs) && forall k :: k in rows' <==> k in keys'
    ensures forall k :: k in rows' <==> k in rows || Names(qs, k)
    ensures forall k :: k in rows' ==> rows'[k] == Put(Base(rows, k), cur, qs, k)
    ensures total' == Add(total, cur, SumOf(qs, Headcount))
  {
    keys', rows', total' := keys, rows, total;
    var i := 0;
    assert seen + qs[..0] == seen && qs[..0] == [];
    assert forall k :: !Names(qs[..0], k);
    while i < |qs|
      invariant i <= |qs|
      invariant Filled(seen, rows, total, qs[..i], cur, keys', rows', total')
    {
      var c := qs[i];
      FilledStep(seen, rows, total, qs, i, cur, keys', rows', total');
      var p := Pair(0, 0);
      if c.key in rows' {
        p := rows'[c.key];
      } else {
        keys' := keys' + [c.key];
      }
      rows' := rows'[c.key := Set(p, cur, c.headcount)];
      total' := Add(total', cur, c.headcount);
      i := i + 1;
    }
    assert qs[..i] == qs;
  }

  /**
   * The state of `AddColumn` after the query rows `done`: the keys met so far,
   * one row per key, each row the column value put over its starting row, and
   * the total.
   */
  ghost predicate Filled(seen: seq<Count>, rows: map<string, Pair>, total: Pair, done: seq<Count>, cur: bool,
                   keys': seq<string>, rows': map<string, Pair>, total': Pair) {
    && keys' == RowKeys(seen + done)
    && (forall k :: k in rows' <==> k in keys')
    && (forall k :: k in rows' <==> k in rows || Names(done, k))
    && (forall k :: k in rows' ==> rows'[k] == Put(Base(rows, k), cur, done, k))
    && total' == Add(total, cur, SumOf(done, Headcount))
  }

  /** One iteration of `AddColumn` keeps its state described by `Filled`. */
  lemma FilledStep(seen: seq<Count>, rows: map<string, Pair>, total: Pair, qs: seq<Count>, i: nat, cur: bool,
                   keys': seq<string>, rows': map<string, Pair>, total': Pair)
    requires i < |qs| && Filled(seen, rows, total, qs[..i], cur, keys', rows', total')
    ensures var c := qs[i];
      Filled(seen, rows, total, qs[..i + 1], cur,
        if c.key in rows' then keys' else keys' + [c.key],
        rows'[c.key := Set(if c.key in rows' then rows'[c.key] else Pair(0, 0), cur, c.headcount)],
        Add(total', cur, c.headcount))
  {
    var c := qs[i];
    PutSnoc(qs, i, cur, rows);
    assert seen + qs[..i + 1] == (seen + qs[..i]) + [c];
    var p := if c.key in rows' then rows'[c.key] else Pair(0, 0);
    assert p == Put(Base(rows, c.key), cur, qs[..i], c.key);
    assert Add(total', cur, c.headcount) == Add(total, cur, SumOf(qs[..i + 1], Headcount)) by {
      if cur {} else {}
    }
  }

  /** The row invariant of `AddColumn` carried over one more query row. */
  lemma PutSnoc(qs: seq<Count>, i: nat, cur: bool, rows: map<string, Pair>)
    requires i < |qs|
    ensures SumOf(qs[..i + 1], Headcount) == SumOf(qs[..i], Headcount) + qs[i].headcount
    ensures forall k :: Names(qs[..i + 1], k) <==> qs[i].key == k || Names(qs[..i], k)
    ensures (forall k :: Put(Base(rows, k), cur, qs[..i + 1], k)
               == (if qs[i].key == k then Set(Put(Base(rows, k), cur, qs[..i], k), cur, qs[i].headcount)
                   else Put(Base(rows, k), cur, qs[..i], k)))
  {
    LastCountSnoc(qs, i);
  }

  /**
   * The keys of the table rows in the order they were first met, as the ordered
   * dictionary of `get_context_data` keeps them: `Keys` by key, spelled out
   * without its membership postcondition so that the loop carries only this list.
   */
  function RowKeys(s: seq<Count>): seq<string> {
    if s == [] then []
    else
      var ks := RowKeys(s[..|s| - 1]);
      if s[|s| - 1].key in ks then ks else ks + [s[|s| - 1].key]
  }

  lemma {:induction false} RowKeysAreKeys(s: seq<Count>)
    ensures RowKeys(s) == Keys(s, KeyOf)
  {
    if s != [] {
      RowKeysAreKeys(s[..|s| - 1]);
    }
  }

  /** One more query row changes the headcount of its own key only. */
  lemma LastCountSnoc(s: seq<Count>, i: nat)
    requires i < |s|
    ensures s[..i + 1][..i] == s[..i]
    ensures SumOf(s[..i + 1], Headcount) == SumOf(s[..i], Headcount) + s[i].headcount
    ensures forall k :: LastCount(s[..i + 1], k) == if s[i].key == k then s[i].headcount else LastCount(s[..i], k)
    ensures forall k :: Names(s[..i + 1], k) <==> s[i].key == k || Names(s[..i], k)
  {
    var t := s[..i + 1];
    assert t[..|t| - 1] == s[..i] && t[|t| - 1] == s[i];
    forall k
      ensures LastCount(t, k) == if s[i].key == k then s[i].headcount else LastCount(s[..i], k)
      ensures Names(t, k) <==> s[i].key == k || Names(s[..i], k)
    {
    }
  }

  /** With distinct keys in a query, the headcount shown for a key is the group of that key. */
  lemma {:induction false} LastCountIsGroup(s: seq<Count>, k: string)
    requires Distinct(MapSeq(s, KeyOf))
    ensures LastCount(s, k) == GroupSum(s, KeyOf, k, Headcount)
  {
    if s != [] {
      var init := s[..|s| - 1];
      assert MapSeq(s, KeyOf)[..|init|] == MapSeq(init, KeyOf);
      LastCountIsGroup(init, k);
      if s[|s| - 1].key == k {
        forall x | x in init
          ensures KeyOf(x) != k
        {
          var i :| 0 <= i < |init| && init[i] == x;
          assert MapSeq(s, KeyOf)[i] != MapSeq(s, KeyOf)[|s| - 1];
        }
        GroupSumAbsent(init, KeyOf, k, Headcount);
      }
    }
  }

  /**
   * The TOTAL row is the column sum of the table: when each query names each key
   * at most once, the rows' current (and reference) headcounts add up to the
   * total.
   */
  lemma TotalIsColumnSum(current: seq<Count>, reference: seq<Count>)
    requires Distinct(MapSeq(current, KeyOf)) && Distinct(MapSeq(reference, KeyOf))
    ensures SumOf(Keys(current + reference, KeyOf), LastCountOf(current)) == SumOf(current, Headcount)
    ensures SumOf(Keys(current + reference, KeyOf), LastCountOf(reference)) == SumOf(reference, Headcount)
  {
    var keys := Keys(current + reference, KeyOf);
    KeysDistinct(current + reference, KeyOf);
    KeysCoverBoth(current, reference);
    ColumnSum(current, keys);
    ColumnSum(reference, keys);
  }

  /** Every row of either query has its key among the table's keys. */
  lemma KeysCoverBoth(current: seq<Count>, reference: seq<Count>)
    ensures forall x :: x in current ==> x.key in Keys(current + reference, KeyOf)
    ensures forall x :: x in reference ==> x.key in Keys(current + reference, KeyOf)
  {
    forall x | x in current || x in reference
      ensures x.key in Keys(current + reference, KeyOf)
    {
      assert x in current + reference && KeyOf(x) == x.key;
    }
  }

  lemma ColumnSum(s: seq<Count>, keys: seq<string>)
    requires Distinct(MapSeq(s, KeyOf)) && Distinct(keys)
    requires forall x :: x in s ==> x.key in keys
    ensures SumOf(keys, LastCountOf(s)) == SumOf(s, Headcount)
  {
    forall k
      ensures LastCountOf(s)(k) == GroupSum(s, KeyOf, Id(k), Headcount)
    {
      LastCountIsGroup(s, k);
    }
    forall x | x in s
      ensures exists g :: g in keys && Id(g) == KeyOf(x)
    {
      assert Id(x.key) == KeyOf(x);
    }
    GroupSumsCoveredBy(s, KeyOf, Headcount, keys, Id, LastCountOf(s));
  }

  /**
   * Keys need not be distinct (two structures may share a name): the row then
   * shows the last headcount while the TOTAL row adds both.
   */
  lemma RepeatedKeyExample()
    ensures var current := [Count("Cercle", 2), Count("Cercle", 3)];
      LastCount(current, "Cercle") == 3 && SumOf(current, Headcount) == 5
  {
    var current := [Count("Cercle", 2), Count("Cercle", 3)];
    assert current[..1] == [Count("Cercle", 2)];
  }

  /** `format_diff`: the signed difference current − reference. */
  function FormatDiff(row: Pair): (r: string) {
    var diff := row.current - row.reference;
    if diff > 0 then "+ " + IntToString(diff)
    else if diff == 0 then "="
    else "- " + IntToString(-diff)
  }

  /** The difference can be read back from its text: its sign from the prefix, its size from the digits. */
  lemma FormatDiffReads(row: Pair)
    ensures var r := FormatDiff(row);
      var diff := row.current - row.reference;
      && (r == "=" <==> diff == 0)
      && (diff > 0 <==> |r| > 2 && r[..2] == "+ ")
      && (diff < 0 <==> |r| > 2 && r[..2] == "- ")
      && (diff > 0 ==> ParseNat(r[2..]) == Some(diff))
      && (diff < 0 ==> ParseNat(r[2..]) == Some(-diff))
  {
    var diff := row.current - row.reference;
    var r := FormatDiff(row);
    if diff > 0 {
      ParseNatToString(diff);
      assert r[2..] == NatToString(diff);
    } else if diff < 0 {
      ParseNatToString(-diff);
      assert r[2..] == NatToString(-diff);
    }
  }

  /**
   * `format_percent`, up to the text of the ratio: equal, infinite (from zero),
   * or a rise or fall of 100·|diff|/reference percent.
   */
  datatype Percent = Same | Infinite | Rise(diff: int, base: int) | Fall(diff: int, base: int)

  function FormatPercent(row: Pair): Percent {
    var diff := row.current - row.reference;
    if diff == 0 then Same
    else if row.reference == 0 then Infinite
    else if diff > 0 then Rise(diff, row.reference)
    else Fall(-diff, row.reference)
  }

  /** Both columns agree on the direction of the change. */
  lemma PercentAgreesWithDiff(row: Pair)
    ensures FormatPercent(row) == Same <==> FormatDiff(row) == "="
    ensures FormatPercent(row) == Infinite ==> row.reference == 0 && row.current != 0
    ensures FormatPercent(row).Rise? ==> row.current > row.reference && FormatPercent(row).diff == row.current - row.reference
    ensures FormatPercent(row).Fall? ==> row.current < row.reference && FormatPercent(row).diff == row.reference - row.current
  {
    FormatDiffReads(row);
  }

  /** A row of the finished table: the two headcounts, the difference and the percentage. */
  datatype TableRow = TableRow(reference: int, current: int, diff: string, percent: Percent)

  function Finished(p: Pair): TableRow {
    TableRow(p.reference, p.current, FormatDiff(p), FormatPercent(p))
  }

  /**
   * `get_context_data`: the collected rows, the TOTAL row set last (replacing a
   * row of that key if one exists), then each row completed with its difference
   * and percentage.
   */
  method ContextData(current: seq<Count>, reference: seq<Count>) returns (keys: seq<string>, table: map<string, TableRow>)
    ensures var ks := Keys(current + reference, KeyOf);
      keys == if "TOTAL" in ks then ks else ks + ["TOTAL"]
    ensures forall k :: k in table <==> k in keys
    ensures "TOTAL" in table && table["TOTAL"] == Finished(Pair(SumOf(reference, Headcount), SumOf(current, Headcount)))
    ensures forall k :: k in table && k != "TOTAL" ==> table[k] == Finished(Pair(LastCount(reference, k), LastCount(current, k)))
  {
    var rows, total;
    keys, rows, total := CollectRows(current, reference);
    if "TOTAL" !in rows {
      keys := keys + ["TOTAL"];
    }
    rows := rows["TOTAL" := total];
    table := FinishRows(keys, rows);
  }

  /** The loop that appends the difference and the percentage to every row. */
  method FinishRows(keys: seq<string>, rows: map<string, Pair>) returns (table: map<string, TableRow>)
    requires forall k :: k in rows <==> k in keys
    ensures forall k :: k in table <==> k in rows
    ensures forall k :: k in table ==> table[k] == Finished(rows[k])
  {
    table := map[];
    var i := 0;
    while i < |keys|
      invariant i <= |keys|
      invariant forall k :: k in table <==> k in keys[..i]
      invariant forall k :: k in table ==> table[k] == Finished(rows[k])
    {
      assert keys[i] in rows;
      table := table[keys[i] := Finished(rows[keys[i]])];
      assert keys[..i + 1] == keys[..i] + [keys[i]];
      i := i + 1;
    }
    assert keys[..i] == keys;
  }

  /** `graph_label`, up to the text of the share: no label below 2 % of the total. */
  datatype Label = NoLabel | Plain(key: string) | Share(key: string, part: int, whole: int)

  function GraphLabel(key: string, row: Pair, total: Pair): Label {
    if row.current * 50 < total.current then NoLabel
    else if total.current == 0 then Plain(key)
    else Share(key, row.current, total.current)
  }

  predicate Labelled(v: int, total: int) {
    v * 50 >= total
  }

  function LabelledBy(total: int): int -> bool {
    (v: int) => Labelled(v, total)
  }

  function Value(v: int): int {
    v
  }

  lemma GraphLabelRule(key: string, row: Pair, total: Pair)
    ensures GraphLabel(key, row, total) != NoLabel <==> Labelled(row.current, total.current)
    ensures GraphLabel(key, row, total).Share? ==> GraphLabel(key, row, total).part * 50 >= GraphLabel(key, row, total).whole != 0
  {
  }

  /**
   * At most 50 slices of the chart are labelled: each labelled value is at
   * least a fiftieth of the total, and the values add up to at most the total.
   */
  lemma LabelledAtMost50(values: seq<int>, total: int)
    requires total > 0 && forall v :: v in values ==> v >= 0
    requires SumOf(values, Value) <= total
    ensures |Where(values, LabelledBy(total))| <= 50
  {
    var n := |Where(values, LabelledBy(total))|;
    LabelledSum(values, total);
    SumWhereBy(values, LabelledBy(total), Value, LabelledPart(total));
    SumMasked(values, total);
    assert n * total <= 50 * total;
    if n > 50 {
      MoreTimes(n, total);
    }
  }

  lemma MoreTimes(n: int, t: int)
    requires n > 50 && t > 0
    ensures n * t > 50 * t
  {
    assert n * t == 50 * t + (n - 50) * t;
  }

  function LabelledPart(total: int): int -> int {
    (v: int) => if LabelledBy(total)(v) then Value(v) else 0
  }

  lemma {:induction false} LabelledSum(values: seq<int>, total: int)
    requires forall v :: v in values ==> v >= 0
    ensures SumOf(Where(values, LabelledBy(total)), Value) * 50 >= |Where(values, LabelledBy(total))| * total
  {
    if values != [] {
      var init := values[..|values| - 1];
      var v := values[|values| - 1];
      assert forall x :: x in init ==> x in values;
      LabelledSum(init, total);
      assert values == init + [v];
      var w := Where(init, LabelledBy(total));
      if Labelled(v, total) {
        WhereKeep(init, v, LabelledBy(total));
        SumAppend(w, [v], Value);
        SumSingle(v, Value);
        OneMore(SumOf(w, Value), v, |w|, total);
      } else {
        WhereSkip(init, v, LabelledBy(total));
      }
    }
  }

  lemma OneMore(s: int, v: int, n: int, t: int)
    requires s * 50 >= n * t && v * 50 >= t
    ensures (s + v) * 50 >= (n + 1) * t
  {
    assert (s + v) * 50 == s * 50 + v * 50;
    assert (n + 1) * t == n * t + t;
  }

  lemma {:induction false} SumMasked(values: seq<int>, total: int)
    requires forall v :: v in values ==> v >= 0
    ensures SumOf(values, LabelledPart(total)) <= SumOf(values, Value)
  {
    if values != [] {
      var init := values[..|values| - 1];
      var v := values[|values| - 1];
      assert forall x :: x in init ==> x in values;
      assert v in values;
      SumMasked(init, total);
      assert LabelledPart(total)(v) <= Value(v);
    }
  }

  // ---------------------------------------------------------------------------
  // The widgets

  /**
   * The day the widgets compare yesterday with: the same day a year earlier,
   * 28 February for 29 February. None where the year would drop below 1.
   */
  function WidgetReferenceDay(d: Date): Option<Date> {
    var day := if d.month == 2 && d.day == 29 then 28 else d.day;
    if d.year - 1 >= 1 && Valid(Date(d.year - 1, d.month, day)) then Some(Date(d.year - 1, d.month, day)) else None
  }

  /** The reference day always exists from year 2 on, one year back, in the same month. */
  lemma WidgetReferenceDayValid(d: Date)
    requires Valid(d) && d.year > 1
    ensures var r := WidgetReferenceDay(d);
      && r.Some? && Valid(r.value) && Before(r.value, d)
      && r.value.year == d.year - 1 && r.value.month == d.month
      && r.value.day == (if IsLeapDay(d) then 28 else d.day)
  {
  }

  // ---------------------------------------------------------------------------
  // Local groups (`GroupsWidget.get_nb_groups`)

  /** A local group: a local structure (type 10 or 11) of the "local group" subtype. */
  predicate LocalGroup(s: Structure) {
    (s.kind == 10 || s.kind == 11) && s.subtype == Some(2)
  }

  /** The local group an adhesion counts for through its structure's parent. */
  function ParentGroup(a: Adhesion): Option<nat> {
    if a.parent.Some? && LocalGroup(a.parent.value) then Some(a.parent.value.id) else None
  }

  /** The local group an adhesion counts for through its own structure. */
  function OwnGroup(a: Adhesion): Option<nat> {
    if LocalGroup(a.structure) then Some(a.structure.id) else None
  }

  /** `values_list(...).annotate(Count('id'))` turned into a dictionary: group → number of adhesions. */
  function Tally(qs: seq<Adhesion>, group: Adhesion -> Option<nat>): map<nat, nat> {
    if qs == [] then map[]
    else
      var m := Tally(qs[..|qs| - 1], group);
      match group(qs[|qs| - 1])
      case None => m
      case Some(g) => m[g := (if g in m then m[g] else 0) + 1]
  }

  /** `Counter(a) + Counter(b)`: the counts added key by key. */
  function CounterSum(a: map<nat, nat>, b: map<nat, nat>): (r: map<nat, nat>)
    ensures forall g :: g in r <==> g in a || g in b
    ensures forall g :: g in r ==> r[g] == (if g in a then a[g] else 0) + (if g in b then b[g] else 0)
  {
    map g | g in a.Keys + b.Keys :: (if g in a then a[g] else 0) + (if g in b then b[g] else 0)
  }

  /** The adhesions of the season taken on or before the day. */
  function SeasonUpTo(adhesions: seq<Adhesion>, season: int, date: Date): seq<Adhesion> {
    DatedUpTo(Where(adhesions, OfSeason(season)), date)
  }

  /** The local groups counted: those with at least 3 adhesions in all. */
  function CountedGroups(adhesions: seq<Adhesion>, season: int, date: Date): set<nat> {
    var qs := SeasonUpTo(adhesions, season, date);
    var sums := CounterSum(Tally(qs, ParentGroup), Tally(qs, OwnGroup));
    set g | g in sums && sums[g] >= 3
  }

  /** `get_nb_groups`. */
  function NbGroups(adhesions: seq<Adhesion>, season: int, date: Date): nat {
    |CountedGroups(adhesions, season, date)|
  }

  /** Number of adhesions of qs that count for group g. */
  function Members(qs: seq<Adhesion>, group: Adhesion -> Option<nat>, g: nat): nat {
    if qs == [] then 0
    else Members(qs[..|qs| - 1], group, g) + (if group(qs[|qs| - 1]) == Some(g) then 1 else 0)
  }

  /** The tally holds every group with members, with its number of members. */
  lemma {:induction false} TallyCounts(qs: seq<Adhesion>, group: Adhesion -> Option<nat>)
    ensures forall g :: g in Tally(qs, group) <==> Members(qs, group, g) > 0
    ensures forall g :: g in Tally(qs, group) ==> Tally(qs, group)[g] == Members(qs, group, g)
  {
    if qs != [] {
      TallyCounts(qs[..|qs| - 1], group);
    }
  }

  /**
   * A local group is counted exactly when it has at least three adhesions of the
   * season up to the day, counting those of the group itself and those of the
   * structures directly under it.
   */
  lemma NbGroupsCounts(adhesions: seq<Adhesion>, season: int, date: Date, g: nat)
    ensures var qs := SeasonUpTo(adhesions, season, date);
      g in CountedGroups(adhesions, season, date) <==> Members(qs, ParentGroup, g) + Members(qs, OwnGroup, g) >= 3
  {
    var qs := SeasonUpTo(adhesions, season, date);
    TallyCounts(qs, ParentGroup);
    TallyCounts(qs, OwnGroup);
  }
}
