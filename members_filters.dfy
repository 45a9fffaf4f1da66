/**
 * The filter behind the membership tables (`AdhesionFilter`): the season
 * choices, the request data it starts from, the sector, unit, function and rate
 * filters, the date cutoff it records and the final restriction to main
 * nominations. Request values are strings, as they arrive.
 */
module MembersFilters {

  import opened Common
  import opened Calendar
  import opened Text
  import opened Seasons
  import opened MembersModels

  // ---------------------------------------------------------------------------
  // Season choices

  datatype Choice = Choice(season: int, caption: string)

  /** "2014/2015" for season 2015. */
  function SeasonLabel(s: int): string {
    IntToString(s - 1) + "/" + IntToString(s)
  }

  /** The season choices, from `current` down to the first season. */
  function SeasonChoices(current: int): (r: seq<Choice>)
    ensures |r| == if current >= FirstSeason then current - FirstSeason + 1 else 0
    ensures forall k :: 0 <= k < |r| ==> r[k] == Choice(current - k, SeasonLabel(current - k))
  {
    var n := if current >= FirstSeason then current - FirstSeason + 1 else 0;
    seq(n, k => Choice(current - k, SeasonLabel(current - k)))
  }

  /** Every season from the first to the current one is offered, once, and no other. */
  lemma SeasonChoicesCover(current: int, s: int)
    ensures (exists k :: 0 <= k < |SeasonChoices(current)| && SeasonChoices(current)[k].season == s)
      <==> FirstSeason <= s <= current
  {
    var r := SeasonChoices(current);
    if FirstSeason <= s <= current {
      assert r[current - s].season == s;
    }
  }

  // ---------------------------------------------------------------------------
  // Structure numbers of the sectors

  /** The holiday services. */
  const SvnNumbers: seq<string> := ["0300000200", "0500000100", "1900140100"]

  /** Element-wise concatenation of two lists, as far as the shorter goes (`zip` then `+`). */
  function ZipConcat(a: seq<string>, b: seq<string>): (r: seq<string>)
    ensures |r| == if |a| <= |b| then |a| else |b|
    ensures forall i :: 0 <= i < |r| ==> r[i] == a[i] + b[i]
  {
    if a == [] || b == [] then [] else [a[0] + b[0]] + ZipConcat(a[1..], b[1..])
  }

  /** The national centres: each prefix followed by its two-digit suffix. */
  const CpnNumbers: seq<string> := ZipConcat(["18000002", "14005719", "27000006", "17000003", "27000005"], ["00", "01", "02", "03", "04"])

  /** The centre numbers, written out. */
  lemma CpnNumbersAre()
    ensures CpnNumbers == ["1800000200", "1400571901", "2700000602", "1700000303", "2700000504"]
  {
    var expected := ["1800000200", "1400571901", "2700000602", "1700000303", "2700000504"];
    assert |CpnNumbers| == 5;
    forall i | 0 <= i < 5
      ensures CpnNumbers[i] == expected[i]
    {
    }
  }

  /** No centre number is a holiday service's: their second digits differ. */
  lemma CpnNotSvn()
    ensures forall n :: n in CpnNumbers ==> n !in SvnNumbers
  {
    CpnNumbersAre();
    NotSvn("1800000200");
    NotSvn("1400571901");
    NotSvn("2700000602");
    NotSvn("1700000303");
    NotSvn("2700000504");
  }

  /** The holiday services' numbers have 3, 5 or 9 as second digit. */
  lemma NotSvn(n: string)
    requires |n| >= 2 && n[1] !in "359"
    ensures n !in SvnNumbers
  {
    assert SvnNumbers[0][1] == '3' && SvnNumbers[1][1] == '5' && SvnNumbers[2][1] == '9';
  }

  /** The centre numbers are five valid structure numbers. */
  lemma CpnNumbersValid()
    ensures forall n :: n in CpnNumbers ==> StructureNumberValid(n)
  {
    CpnNumbersAre();
    TenDigitsValid("1800000200");
    TenDigitsValid("1400571901");
    TenDigitsValid("2700000602");
    TenDigitsValid("1700000303");
    TenDigitsValid("2700000504");
  }

  lemma TenDigitsValid(n: string)
    requires |n| == 10 && forall k :: 0 <= k < |n| ==> n[k] in "0123456789"
    ensures StructureNumberValid(n)
  {
    NumberValidators(n);
  }

  // ---------------------------------------------------------------------------
  // Filters

  predicate IsSvn(a: Adhesion) {
    a.structure.number in SvnNumbers
  }

  predicate IsCpn(a: Adhesion) {
    a.structure.number in CpnNumbers
  }

  predicate NotSvnOrCpn(a: Adhesion) {
    a.structure.number !in SvnNumbers + CpnNumbers
  }

  /** `filter_sector`: '1' local structures and regions, '2' holiday services, '3' national centres. */
  function BySector(qs: seq<Adhesion>, value: string): seq<Adhesion> {
    if value == "1" then Where(qs, NotSvnOrCpn)
    else if value == "2" then Where(qs, IsSvn)
    else if value == "3" then Where(qs, IsCpn)
    else qs
  }

  /**
   * The three sectors split the adhesions: each one falls in exactly one sector,
   * so the three filtered lists together are as long as the list.
   */
  lemma {:induction false} SectorsPartition(qs: seq<Adhesion>)
    ensures |BySector(qs, "1")| + |BySector(qs, "2")| + |BySector(qs, "3")| == |qs|
  {
    if qs != [] {
      var init := qs[..|qs| - 1];
      var a := qs[|qs| - 1];
      SectorsPartition(init);
      OneSector(a);
    }
  }

  /** An adhesion passes exactly one of the three sector filters. */
  lemma OneSector(a: Adhesion)
    ensures (if NotSvnOrCpn(a) then 1 else 0) + (if IsSvn(a) then 1 else 0) + (if IsCpn(a) then 1 else 0) == 1
  {
    var n := a.structure.number;
    CpnNotSvn();
    assert n in SvnNumbers + CpnNumbers <==> n in SvnNumbers || n in CpnNumbers;
  }

  /** The unit types that "other units" leaves out (the four age branches). */
  const BranchTypes: set<int> := {1, 2, 7, 13}

  predicate OtherUnit(a: Adhesion) {
    a.structure.kind !in BranchTypes
  }

  /** `filter_units`: '99' every type but the branches, another non-empty value that type. */
  function ByUnits(qs: seq<Adhesion>, value: string): seq<Adhesion> {
    if value == "99" then Where(qs, OtherUnit)
    else if value != "" then Where(qs, (a: Adhesion) => IntToString(a.structure.kind) == value)
    else qs
  }

  /** The four branches and "other units" split the adhesions. */
  lemma {:induction false} UnitsPartition(qs: seq<Adhesion>)
    ensures |ByUnits(qs, "7")| + |ByUnits(qs, "1")| + |ByUnits(qs, "13")| + |ByUnits(qs, "2")| + |ByUnits(qs, "99")| == |qs|
  {
    if qs != [] {
      var init := qs[..|qs| - 1];
      var k := qs[|qs| - 1].structure.kind;
      UnitsPartition(init);
      OneUnit(k);
    }
  }

  /** A type code passes exactly one of the five unit filters. */
  lemma OneUnit(k: int)
    ensures (if IntToString(k) == "7" then 1 else 0) + (if IntToString(k) == "1" then 1 else 0)
      + (if IntToString(k) == "13" then 1 else 0) + (if IntToString(k) == "2" then 1 else 0)
      + (if k !in BranchTypes then 1 else 0) == 1
  {
    KindText(k);
  }

  /** The text of a type code names exactly one of the branch codes when it is one. */
  lemma KindText(k: int)
    ensures IntToString(k) == "7" <==> k == 7
    ensures IntToString(k) == "1" <==> k == 1
    ensures IntToString(k) == "13" <==> k == 13
    ensures IntToString(k) == "2" <==> k == 2
  {
    if k >= 0 {
      ParseNatToString(k);
      BranchCodeValues();
    } else {
      assert IntToString(k)[0] == '-';
    }
  }

  /** The branch codes read as the numbers they write. */
  lemma BranchCodeValues()
    ensures ParseNat("7") == Some(7) && ParseNat("1") == Some(1) && ParseNat("2") == Some(2)
    ensures ParseNat("13") == Some(13)
    ensures NatToString(7) == "7" && NatToString(1) == "1" && NatToString(2) == "2" && NatToString(13) == "13"
  {
    assert "7"[..0] == [] && "1"[..0] == [] && "2"[..0] == [];
    assert "13"[..1] == "1";
  }

  /** A nomination to a function of the category written `value`. */
  function InCategory(value: string): Nomination -> bool {
    (n: Nomination) => n.category.Some? && IntToString(n.category.value) == value
  }

  /**
   * The rows the join on `nomination__function__category` gives one adhesion:
   * one per nomination in that category.
   */
  function CategoryRows(value: string): Adhesion -> nat {
    (a: Adhesion) => |Where(a.nominations, InCategory(value))|
  }

  /**
   * The function filter. It joins the nominations, so an adhesion comes out once
   * per nomination it has in that category, and not at all without one.
   */
  function ByFunction(qs: seq<Adhesion>, value: string): seq<Adhesion> {
    if value == "" then qs else Repeat(qs, CategoryRows(value))
  }

  /** The rate filter: the adhesion's rate is in that category. */
  function ByRate(qs: seq<Adhesion>, value: string): seq<Adhesion> {
    if value == "" then qs
    else Where(qs, (a: Adhesion) => a.rateCategory.Some? && IntToString(a.rateCategory.value) == value)
  }

  predicate HasMainNomination(a: Adhesion) {
    exists n :: n in a.nominations && n.main
  }

  predicate IsMain(n: Nomination) {
    n.main
  }

  /** The rows the join on `nomination__main` gives one adhesion: one per main nomination. */
  function MainRows(a: Adhesion): nat {
    |Where(a.nominations, IsMain)|
  }

  /** An adhesion gives some row to the main-nomination join exactly when it has a main nomination. */
  lemma MainRowsPositive(a: Adhesion)
    ensures MainRows(a) > 0 <==> HasMainNomination(a)
  {
    WhereNonEmpty(a.nominations, IsMain);
  }

  /**
   * `AdhesionFilter.qs`: the join on main nominations. Only adhesions with a main
   * nomination are kept, each once per main nomination.
   */
  function MainOnly(qs: seq<Adhesion>): (r: seq<Adhesion>)
    ensures forall a :: a in r <==> a in qs && HasMainNomination(a)
  {
    forall a | true ensures MainRows(a) > 0 <==> HasMainNomination(a) {
      MainRowsPositive(a);
    }
    Repeat(qs, MainRows)
  }

  // ---------------------------------------------------------------------------
  // Request data

  /** The request value of a key, the empty string when it is absent. */
  function Value(data: map<string, string>, key: string): string {
    if key in data then data[key] else ""
  }

  /**
   * The data the filter starts from: the season defaults to the current one, and
   * the reference filter takes the season before. None where the season given
   * is not an integer (the conversion raises).
   */
  function FilterData(request: map<string, string>, ref: bool, current: int): Option<map<string, string>> {
    var data := if "season" in request then request else request["season" := IntToString(current)];
    if !ref then Some(data)
    else
      match ParseInt(data["season"])
      case None => None
      case Some(s) => Some(data["season" := IntToString(s - 1)])
  }

  /**
   * The season the filter works on: the requested one or the current one, one
   * earlier for the reference filter; no other entry of the request changes.
   */
  lemma FilterDataSeason(request: map<string, string>, ref: bool, current: int)
    ensures var r := FilterData(request, ref, current);
      var given := if "season" in request then ParseInt(request["season"]) else Some(current);
      && (r.None? <==> ref && given.None?)
      && (r.Some? ==> "season" in r.value)
      && (r.Some? && !ref && "season" in request ==> r.value["season"] == request["season"])
      && (r.Some? && (ref || "season" !in request) ==> ParseInt(r.value["season"]) == Some(given.value - (if ref then 1 else 0)))
      && (r.Some? ==> forall k :: k != "season" ==> (k in r.value <==> k in request) && (k in request ==> r.value[k] == request[k]))
  {
    var r := FilterData(request, ref, current);
    var given := if "season" in request then ParseInt(request["season"]) else Some(current);
    if !("season" in request) {
      IntToStringParses(current);
    }
    if r.Some? && ref {
      IntToStringParses(given.value - 1);
    }
  }

  /** `int(str(i)) == i`. */
  lemma IntToStringParses(i: int)
    ensures ParseInt(IntToString(i)) == Some(i)
  {
    if i >= 0 {
      ParseNatToString(i);
      assert Strip(IntToString(i)) == IntToString(i);
    } else {
      ParseNatToString(-i);
      var t := IntToString(i);
      assert t[1..] == NatToString(-i);
      assert Strip(t) == t;
    }
  }

  // ---------------------------------------------------------------------------
  // The date cutoff

  /**
   * `filter_date`: the day up to which adhesions are counted. With the date-to-date
   * box ticked or for the current season, it is yesterday moved into the season
   * (same day and month; the season's own year before September, the year before
   * from September on); otherwise the last day of the season. None where moving
   * yesterday raises: 29 February into a common year, or a year below 1.
   */
  function Cutoff(season: int, dateToDate: bool, today: Date, current: int): Option<Date> {
    if dateToDate || season == current then
      var y := Prev(today);
      var year := if y.month <= 8 then season else season - 1;
      if year >= 1 && Valid(Date(year, y.month, y.day)) then Some(Date(year, y.month, y.day)) else None
    else Some(Date(season, 8, 31))
  }

  /**
   * The cutoff always lies inside the season; it is defined unless yesterday is
   * 29 February and the target year is not a leap year (for seasons from year 2 on).
   */
  lemma CutoffInSeason(season: int, dateToDate: bool, today: Date, current: int)
    requires Valid(today) && today.year > 1 && season > 1
    ensures var c := Cutoff(season, dateToDate, today, current);
      && (c.None? <==> (dateToDate || season == current) && IsLeapDay(Prev(today))
                       && !IsLeap(if Prev(today).month <= 8 then season else season - 1))
      && (c.Some? ==> Valid(c.value) && NotAfter(SeasonStart(season), c.value) && NotAfter(c.value, SeasonEnd(season)))
  {
    PrevStep(today);
  }

  /**
   * For the current season, as long as yesterday is already in it (every day but
   * 1 September), the cutoff is yesterday itself.
   */
  lemma CutoffIsYesterday(today: Date)
    requires Valid(today) && today.year > 1
    requires CurrentSeason(Prev(today)) == CurrentSeason(today)
    ensures Cutoff(CurrentSeason(today), false, today, CurrentSeason(today)) == Some(Prev(today))
  {
    PrevStep(today);
  }

  /** Adhesions for the given season. */
  function OfSeason(season: int): Adhesion -> bool {
    (a: Adhesion) => a.season == season
  }

  /** Dated on or before the cutoff (`date__lte`). */
  function DatedBy(cutoff: Date): Adhesion -> bool {
    (a: Adhesion) => NotAfter(a.date, cutoff)
  }

  /** The cutoff applied: adhesions dated on or before it. */
  function DatedUpTo(qs: seq<Adhesion>, cutoff: Date): (r: seq<Adhesion>)
    ensures forall a :: a in r <==> a in qs && NotAfter(a.date, cutoff)
  {
    Where(qs, DatedBy(cutoff))
  }

  /** Which adhesions of the season the filter keeps, and the day it records. */
  datatype Selection = Selection(adhesions: seq<Adhesion>, date: Date)

  /**
   * The whole filter on the data it was built from: the season, sector, unit,
   * function and rate filters, the date filter (which only restricts with the
   * box ticked or for the current season), then main nominations only. None
   * where the season is not an integer or the cutoff cannot be computed.
   */
  function Select(adhesions: seq<Adhesion>, data: map<string, string>, today: Date, current: int): Option<Selection> {
    match ParseInt(Value(data, "season"))
    case None => None
    case Some(season) =>
      var ticked := Value(data, "date2date") != "" && Value(data, "date2date") != "false";
      match Cutoff(season, ticked, today, current)
      case None => None
      case Some(cutoff) =>
        var qs := Where(adhesions, OfSeason(season));
        var qs := ByRate(ByFunction(ByUnits(BySector(qs, Value(data, "sector")), Value(data, "units")), Value(data, "function")), Value(data, "rate"));
        var qs := if ticked || season == current then DatedUpTo(qs, cutoff) else qs;
        Some(Selection(MainOnly(qs), cutoff))
  }

  /**
   * The filter as an object: the data it was built from (None where building it
   * raised) and the cutoff day its date filter records.
   */
  class AdhesionFilter {
    var data: Option<map<string, string>>
    var date: Option<Date>

    /** `AdhesionFilter.__init__`, on a copy of the request data. */
    constructor(request: map<string, string>, ref: bool, current: int)
      ensures data == FilterData(request, ref, current) && date == None
    {
      var d := request;
      if "season" !in d {
        d := d["season" := IntToString(current)];
      }
      date := None;
      if !ref {
        data := Some(d);
      } else {
        var s := ParseInt(d["season"]);
        if s.None? {
          data := None;
        } else {
          data := Some(d["season" := IntToString(s.value - 1)]);
        }
      }
    }

    /**
     * The filtered adhesions (`qs`), recording the cutoff in `date`; None where the
     * season or the cutoff raises.
     */
    method Qs(adhesions: seq<Adhesion>, today: Date, current: int) returns (r: Option<seq<Adhesion>>)
      requires data.Some?
      modifies this
      ensures data == old(data)
      ensures var sel := Select(adhesions, data.value, today, current);
        && (r.Some? <==> sel.Some?)
        && (sel.Some? ==> r.value == sel.value.adhesions && date == Some(sel.value.date))
    {
      var d := data.value;
      var season := ParseInt(Value(d, "season"));
      if season.None? {
        return None;
      }
      var qs := Where(adhesions, OfSeason(season.value));
      qs := BySector(qs, Value(d, "sector"));
      qs := ByUnits(qs, Value(d, "units"));
      qs := ByFunction(qs, Value(d, "function"));
      qs := ByRate(qs, Value(d, "rate"));
      var ticked := Value(d, "date2date") != "" && Value(d, "date2date") != "false";
      var cutoff := Cutoff(season.value, ticked, today, current);
      if cutoff.None? {
        return None;
      }
      date := cutoff;
      if ticked || season.value == current {
        qs := DatedUpTo(qs, cutoff.value);
      }
      r := Some(MainOnly(qs));
    }
  }

  /** Whether one adhesion passes the function filter: it has a nomination in that category. */
  lemma FunctionKeepsOne(a: Adhesion, value: string)
    ensures a in ByFunction([a], value) <==> value == "" || exists n :: n in a.nominations && InCategory(value)(n)
  {
    WhereNonEmpty(a.nominations, InCategory(value));
  }

  /** The rate filter keeps the rows whose rate is in that category. */
  lemma RateKeepsOne(a: Adhesion, value: string)
    ensures a in ByRate([a], value) <==> value == "" || (a.rateCategory.Some? && IntToString(a.rateCategory.value) == value)
  {
    assert forall x :: x in [a] <==> x == a;
  }

  /**
   * What the filter keeps: exactly the adhesions of the season, in the chosen
   * sector, unit, function and rate, with a main nomination, dated up to the
   * cutoff when the date filter restricts.
   */
  lemma SelectKeeps(adhesions: seq<Adhesion>, data: map<string, string>, today: Date, current: int, a: Adhesion)
    requires Select(adhesions, data, today, current).Some?
    ensures var sel := Select(adhesions, data, today, current).value;
      var season := ParseInt(Value(data, "season")).value;
      var ticked := Value(data, "date2date") != "" && Value(data, "date2date") != "false";
      a in sel.adhesions <==>
        && a in adhesions && a.season == season
        && a in BySector([a], Value(data, "sector"))
        && a in ByUnits([a], Value(data, "units"))
        && a in ByFunction([a], Value(data, "function"))
        && a in ByRate([a], Value(data, "rate"))
        && HasMainNomination(a)
        && ((ticked || season == current) ==> NotAfter(a.date, sel.date))
  {
    var season := ParseInt(Value(data, "season")).value;
    var q1 := Where(adhesions, OfSeason(season));
    var q2 := BySector(q1, Value(data, "sector"));
    var q3 := ByUnits(q2, Value(data, "units"));
    var q4 := ByFunction(q3, Value(data, "function"));
    SectorKeeps(q1, Value(data, "sector"), a);
    UnitsKeep(q2, Value(data, "units"), a);
    FunctionKeeps(q3, Value(data, "function"), a);
    RateKeeps(q4, Value(data, "rate"), a);
  }

  lemma SectorKeeps(qs: seq<Adhesion>, value: string, a: Adhesion)
    ensures a in BySector(qs, value) <==> a in qs && a in BySector([a], value)
  {
    assert forall x :: x in [a] <==> x == a;
  }

  lemma UnitsKeep(qs: seq<Adhesion>, value: string, a: Adhesion)
    ensures a in ByUnits(qs, value) <==> a in qs && a in ByUnits([a], value)
  {
    assert forall x :: x in [a] <==> x == a;
  }

  lemma FunctionKeeps(qs: seq<Adhesion>, value: string, a: Adhesion)
    ensures a in ByFunction(qs, value) <==> a in qs && a in ByFunction([a], value)
  {
    assert forall x :: x in [a] <==> x == a;
  }

  lemma RateKeeps(qs: seq<Adhesion>, value: string, a: Adhesion)
    ensures a in ByRate(qs, value) <==> a in qs && a in ByRate([a], value)
  {
    assert forall x :: x in [a] <==> x == a;
  }

  // ---------------------------------------------------------------------------
  // Rows of the query

  /** A filter on one adhesion's own columns keeps all of its rows or none of them. */
  lemma WhereRows(qs: seq<Adhesion>, p: Adhesion -> bool, a: Adhesion)
    ensures multiset(Where(qs, p))[a] == if a in Where([a], p) then multiset(qs)[a] else 0
  {
    WhereCount(qs, p, a);
    assert forall x :: x in [a] <==> x == a;
  }

  lemma SectorRows(qs: seq<Adhesion>, value: string, a: Adhesion)
    ensures multiset(BySector(qs, value))[a] == if a in BySector([a], value) then multiset(qs)[a] else 0
  {
    if value == "1" {
      WhereRows(qs, NotSvnOrCpn, a);
    } else if value == "2" {
      WhereRows(qs, IsSvn, a);
    } else if value == "3" {
      WhereRows(qs, IsCpn, a);
    }
  }

  lemma UnitsRows(qs: seq<Adhesion>, value: string, a: Adhesion)
    ensures multiset(ByUnits(qs, value))[a] == if a in ByUnits([a], value) then multiset(qs)[a] else 0
  {
    if value == "99" {
      WhereRows(qs, OtherUnit, a);
    } else if value != "" {
      WhereRows(qs, (x: Adhesion) => IntToString(x.structure.kind) == value, a);
    }
  }

  lemma RateRows(qs: seq<Adhesion>, value: string, a: Adhesion)
    ensures multiset(ByRate(qs, value))[a] == if a in ByRate([a], value) then multiset(qs)[a] else 0
  {
    if value != "" {
      WhereRows(qs, (x: Adhesion) => x.rateCategory.Some? && IntToString(x.rateCategory.value) == value, a);
    }
  }

  /** The rows the function filter gives one adhesion: every one without a filter, else one per nomination in the category. */
  function FunctionRows(a: Adhesion, value: string): nat {
    if value == "" then 1 else CategoryRows(value)(a)
  }

  lemma FunctionRowsCount(qs: seq<Adhesion>, value: string, a: Adhesion)
    ensures multiset(ByFunction(qs, value))[a] == multiset(qs)[a] * FunctionRows(a, value)
  {
    var m := multiset(qs)[a];
    if value == "" {
      assert m * 1 == m;
    } else {
      RepeatCount(qs, CategoryRows(value), a);
      assert FunctionRows(a, value) == CategoryRows(value)(a);
    }
  }

  /**
   * How often the filter returns an adhesion: each occurrence of a kept
   * adhesion comes out once per nomination in the chosen function category
   * (once without a function filter) times once per main nomination, since the
   * two filters on nominations are separate joins.
   */
  lemma SelectRows(adhesions: seq<Adhesion>, data: map<string, string>, today: Date, current: int, a: Adhesion)
    requires Select(adhesions, data, today, current).Some?
    ensures var sel := Select(adhesions, data, today, current).value;
      var season := ParseInt(Value(data, "season")).value;
      var ticked := Value(data, "date2date") != "" && Value(data, "date2date") != "false";
      var kept := && a.season == season
        && a in BySector([a], Value(data, "sector"))
        && a in ByUnits([a], Value(data, "units"))
        && a in ByRate([a], Value(data, "rate"))
        && ((ticked || season == current) ==> NotAfter(a.date, sel.date));
      multiset(sel.adhesions)[a] ==
        if kept then multiset(adhesions)[a] * FunctionRows(a, Value(data, "function")) * MainRows(a) else 0
  {
    var sel := Select(adhesions, data, today, current).value;
    var season := ParseInt(Value(data, "season")).value;
    var ticked := Value(data, "date2date") != "" && Value(data, "date2date") != "false";
    var q1 := Where(adhesions, OfSeason(season));
    var q2 := BySector(q1, Value(data, "sector"));
    var q3 := ByUnits(q2, Value(data, "units"));
    var q4 := ByFunction(q3, Value(data, "function"));
    var q5 := ByRate(q4, Value(data, "rate"));
    var q6 := if ticked || season == current then DatedUpTo(q5, sel.date) else q5;
    assert sel.adhesions == MainOnly(q6);
    WhereRows(adhesions, OfSeason(season), a);
    SectorRows(q1, Value(data, "sector"), a);
    UnitsRows(q2, Value(data, "units"), a);
    FunctionRowsCount(q3, Value(data, "function"), a);
    RateRows(q4, Value(data, "rate"), a);
    if ticked || season == current {
      WhereRows(q5, DatedBy(sel.date), a);
    }
    RepeatCount(q6, MainRows, a);
    var m, f := multiset(adhesions)[a], FunctionRows(a, Value(data, "function"));
    assert multiset(q4)[a] == multiset(q3)[a] * f;
    if multiset(q3)[a] == 0 {
      assert multiset(q4)[a] == 0;
    }
  }

  /**
   * The filter with the deduplication the comment on `qs` intends (a
   * `.distinct()` on the query): each kept adhesion once, in order.
   */
  function SelectDistinct(adhesions: seq<Adhesion>, data: map<string, string>, today: Date, current: int): Option<Selection> {
    match Select(adhesions, data, today, current)
    case None => None
    case Some(sel) => Some(Selection(Keys(sel.adhesions, (a: Adhesion) => a), sel.date))
  }

  /** The deduplicated filter returns every adhesion the filter keeps exactly once, and no other. */
  lemma SelectDistinctOnce(adhesions: seq<Adhesion>, data: map<string, string>, today: Date, current: int, a: Adhesion)
    requires Select(adhesions, data, today, current).Some?
    ensures SelectDistinct(adhesions, data, today, current).Some?
    ensures var sel := Select(adhesions, data, today, current).value;
      var r := SelectDistinct(adhesions, data, today, current).value;
      multiset(r.adhesions)[a] == (if a in sel.adhesions then 1 else 0) && r.date == sel.date
  {
    var sel := Select(adhesions, data, today, current).value;
    KeysDistinct(sel.adhesions, (x: Adhesion) => x);
    DistinctCount(Keys(sel.adhesions, (x: Adhesion) => x), a);
  }

  /**
   * An adhesion with two nominations in category 1, one of them main, comes out
   * twice from the function and main-nomination joins.
   */
  lemma DuplicateRowExample(a: Adhesion)
    requires a.nominations == [Nomination(a.structure, "", Some(1), true), Nomination(a.structure, "", Some(1), false)]
    ensures MainOnly(ByFunction([a], "1")) == [a, a]
  {
    ExampleRows(a);
    RepeatOne(a, CategoryRows("1"));
    assert seq(2, _ => a) == [a, a];
    RepeatOne(a, MainRows);
    assert seq(1, _ => a) == [a];
    assert [a, a][..1] == [a];
    assert Repeat([a, a], MainRows) == Repeat([a], MainRows) + [a];
  }

  /** The example adhesion has two nominations in category 1 and one main nomination. */
  lemma ExampleRows(a: Adhesion)
    requires a.nominations == [Nomination(a.structure, "", Some(1), true), Nomination(a.structure, "", Some(1), false)]
    ensures CategoryRows("1")(a) == 2 && MainRows(a) == 1
  {
    var n0, n1 := a.nominations[0], a.nominations[1];
    assert IntToString(1) == "1";
    assert a.nominations[..1] == [n0];
    assert Where(a.nominations, InCategory("1")) == [n0, n1];
    assert Where(a.nominations, IsMain) == [n0];
  }

  /** One row repeated: its copies. */
  lemma RepeatOne(a: Adhesion, count: Adhesion -> nat)
    ensures Repeat([a], count) == seq(count(a), _ => a)
  {
    assert [a][..0] == [];
  }
}
