/**
 * The Bécours campsite's group records. A group books one or more headcounts:
 * a number of people, an arrival day, a departure day and a comfort (1 tent
 * ground, 2 village). Saving a group first recomputes its summary fields from
 * its headcounts: first arrival, last departure, nights, comfort (3 when the
 * headcounts mix the two), peak occupancy and total overnights.
 */
module Becours {

  import opened Common
  import opened Calendar

  datatype Headcount = Headcount(number: nat, begin: Date, end: Date, comfort: int)

  /** `(end - begin).days` of one headcount. */
  function Nights(h: Headcount): int {
    DaysBetween(h.begin, h.end)
  }

  /** The number of turns of `range(n)`: none when n is zero or negative. */
  function RangeLength(n: int): nat {
    if n > 0 then n else 0
  }

  /** Every headcount has two real calendar days (a `DateField`). */
  predicate ValidDates(hs: seq<Headcount>) {
    forall i :: 0 <= i < |hs| ==> Valid(hs[i].begin) && Valid(hs[i].end)
  }

  // ----- begin and end -----

  /** `min(headcount.begin for ...)`: the earliest arrival. */
  function FirstBegin(hs: seq<Headcount>): (r: Date)
    requires hs != []
    ensures exists i :: 0 <= i < |hs| && hs[i].begin == r
    ensures forall i :: 0 <= i < |hs| ==> NotAfter(r, hs[i].begin)
  {
    if |hs| == 1 then hs[0].begin
    else
      var r := FirstBegin(hs[..|hs| - 1]);
      var b := hs[|hs| - 1].begin;
      if Before(b, r) then b else r
  }

  /** `max(headcount.end for ...)`: the latest departure. */
  function LastEnd(hs: seq<Headcount>): (r: Date)
    requires hs != []
    ensures exists i :: 0 <= i < |hs| && hs[i].end == r
    ensures forall i :: 0 <= i < |hs| ==> NotAfter(hs[i].end, r)
  {
    if |hs| == 1 then hs[0].end
    else
      var r := LastEnd(hs[..|hs| - 1]);
      var e := hs[|hs| - 1].end;
      if Before(r, e) then e else r
  }

  // ----- comfort -----

  /** One turn of the comfort loop: `comfort = comfort or c`, then 3 if the two differ. */
  function ComfortStep(comfort: Option<int>, c: int): Option<int> {
    var kept := if comfort.None? || comfort.value == 0 then Some(c) else comfort;
    if kept != Some(c) then Some(3) else kept
  }

  /** The comfort loop over the headcounts, starting from None. */
  function ComfortOf(hs: seq<Headcount>): Option<int> {
    if hs == [] then None else ComfortStep(ComfortOf(hs[..|hs| - 1]), hs[|hs| - 1].comfort)
  }

  /** Once the loop has reached 3 (mixed), it stays 3 whatever the later headcounts say. */
  lemma {:induction false} ComfortSticks(hs: seq<Headcount>, k: nat)
    requires k <= |hs| && ComfortOf(hs[..k]) == Some(3)
    ensures ComfortOf(hs) == Some(3)
    decreases |hs|
  {
    if |hs| > k {
      assert hs[..|hs| - 1][..k] == hs[..k];
      ComfortSticks(hs[..|hs| - 1], k);
    } else {
      assert hs[..k] == hs;
    }
  }

  /**
   * With comforts 1 and 2 only, the group's comfort is the common comfort when
   * all headcounts agree, and 3 as soon as two of them differ.
   */
  lemma {:induction false} ComfortCommonOrMixed(hs: seq<Headcount>)
    requires hs != []
    requires forall i :: 0 <= i < |hs| ==> hs[i].comfort == 1 || hs[i].comfort == 2
    ensures ComfortOf(hs) == if forall i :: 0 <= i < |hs| ==> hs[i].comfort == hs[0].comfort
      then Some(hs[0].comfort) else Some(3)
  {
    if |hs| > 1 {
      var init := hs[..|hs| - 1];
      ComfortCommonOrMixed(init);
      assert init[0] == hs[0];
      if forall i :: 0 <= i < |init| ==> init[i].comfort == hs[0].comfort {
        if hs[|hs| - 1].comfort == hs[0].comfort {
          assert forall i :: 0 <= i < |hs| ==> hs[i].comfort == hs[0].comfort by {
            forall i | 0 <= i < |hs|
              ensures hs[i].comfort == hs[0].comfort
            {
              if i < |hs| - 1 {
                assert init[i] == hs[i];
              }
            }
          }
        }
      } else {
        var j :| 0 <= j < |init| && init[j].comfort != hs[0].comfort;
        assert hs[j] == init[j];
      }
    }
  }

  // ----- the overnight map -----

  /** The `defaultdict(int)` of people per night, with its keys in insertion order. */
  datatype Stays = Stays(counts: map<Date, int>, days: seq<Date>)

  /** A read of the `defaultdict`: 0 for a day never added to. */
  function Get(m: map<Date, int>, d: Date): int {
    if d in m then m[d] else 0
  }

  /** `overnights[d] += x` */
  function AddNight(s: Stays, d: Date, x: int): Stays {
    if d in s.counts then Stays(s.counts[d := s.counts[d] + x], s.days)
    else Stays(s.counts[d := x], s.days + [d])
  }

  /** The inner loop: x more people on each of the n nights from b. */
  function AddNights(s: Stays, b: Date, n: nat, x: int): Stays {
    if n == 0 then s else AddNight(AddNights(s, b, n - 1, x), AddDays(b, n - 1), x)
  }

  /** The outer loop over the headcounts. */
  function AddStays(s: Stays, hs: seq<Headcount>): Stays {
    if hs == [] then s
    else
      var h := hs[|hs| - 1];
      AddNights(AddStays(s, hs[..|hs| - 1]), h.begin, RangeLength(Nights(h)), h.number)
  }

  /** Night i + 1 of the inner loop. */
  lemma NightStep(s: Stays, b: Date, i: nat, x: int)
    ensures AddNights(s, b, i + 1, x) == AddNight(AddNights(s, b, i, x), AddDays(b, i), x)
  {
  }

  /** Headcount k + 1 of the outer loop. */
  lemma StaysStep(hs: seq<Headcount>, k: nat)
    requires k < |hs|
    ensures AddStays(EmptyStays(), hs[..k + 1])
      == AddNights(AddStays(EmptyStays(), hs[..k]), hs[k].begin, RangeLength(Nights(hs[k])), hs[k].number)
  {
    assert hs[..k + 1][..k] == hs[..k];
  }

  /** The keys in insertion order are the keys of the map, each once. */
  ghost predicate WellKeyed(s: Stays) {
    Distinct(s.days) && forall d :: d in s.counts <==> d in s.days
  }

  /** Headcount h is on site on the night of d: arrived on or before d, leaving after d. */
  predicate Covers(h: Headcount, d: Date) {
    Valid(d) && NotAfter(h.begin, d) && Before(d, h.end)
  }

  /** The number of people on site on the night of d. */
  function Occupancy(hs: seq<Headcount>, d: Date): (r: int)
    ensures r >= 0
  {
    if hs == [] then 0 else Occupancy(hs[..|hs| - 1], d) + (if Covers(hs[|hs| - 1], d) then hs[|hs| - 1].number else 0)
  }

  /** Some headcount is on site on the night of d. */
  predicate Occupied(hs: seq<Headcount>, d: Date) {
    exists i :: 0 <= i < |hs| && Covers(hs[i], d)
  }

  /** The nights of the inner loop are the valid days at ordinals b .. b + n - 1. */
  lemma {:induction false} AddNightsAt(s: Stays, b: Date, n: nat, x: int, d: Date)
    requires Valid(b)
    ensures var inRun := Valid(d) && Ordinal(b) <= Ordinal(d) < Ordinal(b) + n;
      && Get(AddNights(s, b, n, x).counts, d) == Get(s.counts, d) + (if inRun then x else 0)
      && (d in AddNights(s, b, n, x).counts <==> d in s.counts || inRun)
  {
    if n > 0 {
      AddNightsAt(s, b, n - 1, x, d);
      var e := AddDays(b, n - 1);
      AddDaysStep(b, n - 1);
      if Valid(d) {
        OrdinalInjective(d, e);
      }
    }
  }

  /** `range((end - begin).days)` from `begin` walks exactly the nights the headcount covers. */
  lemma StayIsCover(h: Headcount, d: Date)
    requires Valid(h.begin) && Valid(h.end)
    ensures (Valid(d) && Ordinal(h.begin) <= Ordinal(d) < Ordinal(h.begin) + RangeLength(Nights(h))) <==> Covers(h, d)
  {
    if Valid(d) {
      NotAfterIsOrdinalOrder(h.begin, d);
      BeforeIsOrdinalOrder(d, h.end);
    }
  }

  /** The map built by the two loops holds, for each day, the number of people on site that night. */
  lemma {:induction false} AddStaysAt(s: Stays, hs: seq<Headcount>, d: Date)
    requires ValidDates(hs)
    ensures Get(AddStays(s, hs).counts, d) == Get(s.counts, d) + Occupancy(hs, d)
    ensures d in AddStays(s, hs).counts <==> d in s.counts || Occupied(hs, d)
  {
    if hs != [] {
      var init, h := hs[..|hs| - 1], hs[|hs| - 1];
      InitSplit(hs, d);
      AddStaysAt(s, init, d);
      AddNightsAt(AddStays(s, init), h.begin, RangeLength(Nights(h)), h.number, d);
      StayIsCover(h, d);
    }
  }

  /** The headcounts but the last keep valid dates, and a night is occupied by them or by the last. */
  lemma InitSplit(hs: seq<Headcount>, d: Date)
    requires ValidDates(hs) && hs != []
    ensures ValidDates(hs[..|hs| - 1]) && Valid(hs[|hs| - 1].begin) && Valid(hs[|hs| - 1].end)
    ensures Occupied(hs, d) <==> Occupied(hs[..|hs| - 1], d) || Covers(hs[|hs| - 1], d)
  {
    var init := hs[..|hs| - 1];
    forall i | 0 <= i < |init|
      ensures init[i] == hs[i]
    {
    }
    if Occupied(hs, d) && !Covers(hs[|hs| - 1], d) {
      var i :| 0 <= i < |hs| && Covers(hs[i], d);
      assert init[i] == hs[i];
    }
  }

  lemma AddNightKeys(s: Stays, d: Date, x: int)
    requires WellKeyed(s)
    ensures WellKeyed(AddNight(s, d, x))
  {
  }

  lemma {:induction false} AddNightsKeys(s: Stays, b: Date, n: nat, x: int)
    requires WellKeyed(s)
    ensures WellKeyed(AddNights(s, b, n, x))
  {
    if n > 0 {
      AddNightsKeys(s, b, n - 1, x);
      AddNightKeys(AddNights(s, b, n - 1, x), AddDays(b, n - 1), x);
    }
  }

  lemma {:induction false} AddStaysKeys(s: Stays, hs: seq<Headcount>)
    requires WellKeyed(s)
    ensures WellKeyed(AddStays(s, hs))
  {
    if hs != [] {
      var h := hs[|hs| - 1];
      AddStaysKeys(s, hs[..|hs| - 1]);
      AddNightsKeys(AddStays(s, hs[..|hs| - 1]), h.begin, RangeLength(Nights(h)), h.number);
    }
  }

  // ----- number and overnights -----

  /** `sum(overnights.values())` */
  function TotalOf(m: map<Date, int>, days: seq<Date>): int {
    if days == [] then 0 else TotalOf(m, days[..|days| - 1]) + Get(m, days[|days| - 1])
  }

  /** `max(overnights.values() or [None])` */
  function PeakOf(m: map<Date, int>, days: seq<Date>): (r: Option<int>)
    ensures r.None? <==> days == []
    ensures r.Some? ==> forall i :: 0 <= i < |days| ==> Get(m, days[i]) <= r.value
    ensures r.Some? ==> exists i :: 0 <= i < |days| && Get(m, days[i]) == r.value
  {
    if days == [] then None
    else
      var v := Get(m, days[|days| - 1]);
      match PeakOf(m, days[..|days| - 1])
      case None => Some(v)
      case Some(p) => if v > p then Some(v) else Some(p)
  }

  /** Changing the value of a day that is not listed leaves the total alone; changing a listed one shifts it. */
  lemma {:induction false} TotalUpdate(m: map<Date, int>, days: seq<Date>, d: Date, v: int)
    requires Distinct(days)
    ensures TotalOf(m[d := v], days) == TotalOf(m, days) + (if d in days then v - Get(m, d) else 0)
  {
    if days != [] {
      var init := days[..|days| - 1];
      assert Distinct(init);
      TotalUpdate(m, init, d, v);
      assert d in days <==> d in init || d == days[|days| - 1];
      if d == days[|days| - 1] {
        assert d !in init;
      }
    }
  }

  lemma AddNightTotal(s: Stays, d: Date, x: int)
    requires WellKeyed(s)
    ensures TotalOf(AddNight(s, d, x).counts, AddNight(s, d, x).days) == TotalOf(s.counts, s.days) + x
  {
    if d in s.counts {
      TotalUpdate(s.counts, s.days, d, s.counts[d] + x);
    } else {
      TotalUpdate(s.counts, s.days, d, x);
      assert (s.days + [d])[..|s.days|] == s.days;
    }
  }

  lemma {:induction false} AddNightsTotal(s: Stays, b: Date, n: nat, x: int)
    requires WellKeyed(s)
    ensures TotalOf(AddNights(s, b, n, x).counts, AddNights(s, b, n, x).days) == TotalOf(s.counts, s.days) + n * x
  {
    if n > 0 {
      AddNightsTotal(s, b, n - 1, x);
      AddNightsKeys(s, b, n - 1, x);
      AddNightTotal(AddNights(s, b, n - 1, x), AddDays(b, n - 1), x);
      assert (n - 1) * x + x == n * x;
    }
  }

  /** Σ number × nights over the headcounts (a reversed stay counts for none). */
  function Demand(hs: seq<Headcount>): int {
    if hs == [] then 0 else Demand(hs[..|hs| - 1]) + hs[|hs| - 1].number * RangeLength(Nights(hs[|hs| - 1]))
  }

  lemma {:induction false} AddStaysTotal(s: Stays, hs: seq<Headcount>)
    requires WellKeyed(s)
    ensures TotalOf(AddStays(s, hs).counts, AddStays(s, hs).days) == TotalOf(s.counts, s.days) + Demand(hs)
  {
    if hs != [] {
      var h := hs[|hs| - 1];
      AddStaysTotal(s, hs[..|hs| - 1]);
      AddStaysKeys(s, hs[..|hs| - 1]);
      AddNightsTotal(AddStays(s, hs[..|hs| - 1]), h.begin, RangeLength(Nights(h)), h.number);
    }
  }

  // ----- the summary -----

  /** The fields `denormalize` computes. */
  datatype Summary = Summary(begin: Date, end: Date, nights: int, comfort: Option<int>, number: Option<int>, overnights: Option<int>)

  function EmptyStays(): Stays {
    Stays(map[], [])
  }

  /** What `denormalize` sets, for a group with at least one headcount. */
  function Summarize(hs: seq<Headcount>): Summary
    requires hs != []
  {
    var s := AddStays(EmptyStays(), hs);
    var total := TotalOf(s.counts, s.days);
    Summary(FirstBegin(hs), LastEnd(hs), DaysBetween(FirstBegin(hs), LastEnd(hs)), ComfortOf(hs),
      PeakOf(s.counts, s.days), if total == 0 then None else Some(total))
  }

  /** Read day by day, the filled `defaultdict` is the occupancy, and its keys the occupied days. */
  lemma StaysAreOccupancy(hs: seq<Headcount>)
    requires ValidDates(hs)
    ensures var s := AddStays(EmptyStays(), hs);
      && WellKeyed(s)
      && (forall d :: Get(s.counts, d) == Occupancy(hs, d))
      && (forall d :: d in s.counts <==> Occupied(hs, d))
  {
    var s := AddStays(EmptyStays(), hs);
    AddStaysKeys(EmptyStays(), hs);
    forall d
      ensures Get(s.counts, d) == Occupancy(hs, d)
      ensures d in s.counts <==> Occupied(hs, d)
    {
      AddStaysAt(EmptyStays(), hs, d);
    }
  }

  /**
   * `number` is the peak occupancy: no night has more people on site, some night
   * has exactly that many, and it is None iff no night is occupied.
   */
  lemma PeakOccupancy(hs: seq<Headcount>)
    requires hs != [] && ValidDates(hs)
    ensures var r := Summarize(hs);
      && (r.number.None? <==> forall d :: !Occupied(hs, d))
      && (r.number.Some? ==> (forall d :: Occupancy(hs, d) <= r.number.value) && exists d :: Occupancy(hs, d) == r.number.value)
  {
    var s := AddStays(EmptyStays(), hs);
    var r := Summarize(hs);
    StaysAreOccupancy(hs);
    if r.number.Some? {
      var i :| 0 <= i < |s.days| && Get(s.counts, s.days[i]) == r.number.value;
      assert Occupancy(hs, s.days[i]) == r.number.value;
      forall d
        ensures Occupancy(hs, d) <= r.number.value
      {
        if d in s.days {
          var j :| 0 <= j < |s.days| && s.days[j] == d;
        }
      }
    } else {
      forall d
        ensures !Occupied(hs, d)
      {
      }
    }
  }

  /** `overnights` is Σ number × nights over the headcounts, or None when that is 0. */
  lemma OvernightsIsDemand(hs: seq<Headcount>)
    requires hs != []
    ensures Summarize(hs).overnights == if Demand(hs) == 0 then None else Some(Demand(hs))
  {
    AddStaysTotal(EmptyStays(), hs);
  }

  // ----- the database checks -----

  /**
   * The CHECK constraints of the `PositiveIntegerField` columns `number`,
   * `nights` and `overnights`: a row with a negative value is refused.
   */
  predicate FitsColumns(s: Summary) {
    && s.nights >= 0
    && (s.number.Some? ==> s.number.value >= 0)
    && (s.overnights.Some? ==> s.overnights.value >= 0)
  }

  /** No night of the `defaultdict` holds a negative count. */
  predicate NoNegativeNight(s: Stays) {
    forall d :: d in s.counts ==> s.counts[d] >= 0
  }

  lemma {:induction false} AddNightsNoNegative(s: Stays, b: Date, n: nat, x: int)
    requires NoNegativeNight(s) && x >= 0
    ensures NoNegativeNight(AddNights(s, b, n, x))
  {
    if n > 0 {
      AddNightsNoNegative(s, b, n - 1, x);
    }
  }

  lemma {:induction false} AddStaysNoNegative(s: Stays, hs: seq<Headcount>)
    requires NoNegativeNight(s)
    ensures NoNegativeNight(AddStays(s, hs))
  {
    if hs != [] {
      var h := hs[|hs| - 1];
      AddStaysNoNegative(s, hs[..|hs| - 1]);
      AddNightsNoNegative(AddStays(s, hs[..|hs| - 1]), h.begin, RangeLength(Nights(h)), h.number);
    }
  }

  lemma {:induction false} DemandNonNegative(hs: seq<Headcount>)
    ensures Demand(hs) >= 0
  {
    if hs != [] {
      DemandNonNegative(hs[..|hs| - 1]);
    }
  }

  /**
   * Head counts are never negative, so of the three checked columns only
   * `nights` can fail: the row fits iff the last departure is not before
   * the first arrival.
   */
  lemma ColumnsFitIffOrdered(hs: seq<Headcount>)
    requires hs != []
    ensures FitsColumns(Summarize(hs)) <==> DaysBetween(FirstBegin(hs), LastEnd(hs)) >= 0
  {
    var s := AddStays(EmptyStays(), hs);
    AddStaysNoNegative(EmptyStays(), hs);
    var peak := PeakOf(s.counts, s.days);
    if peak.Some? {
      var i :| 0 <= i < |s.days| && Get(s.counts, s.days[i]) == peak.value;
    }
    OvernightsIsDemand(hs);
    DemandNonNegative(hs);
  }

  /** Five people from 10 July to 5 July 2017: `nights` is -5 and the row is refused. */
  lemma ReversedGroupRefused()
    ensures var r := Summarize([Headcount(5, Date(2017, 7, 10), Date(2017, 7, 5), 1)]);
      r.nights == -5 && !FitsColumns(r)
  {
  }

  /** A group and its headcounts; `stored` is the group's row in the database. */
  class Group {
    const headcounts: seq<Headcount>
    var begin: Option<Date>
    var end: Option<Date>
    var nights: Option<int>
    var comfort: Option<int>
    var number: Option<int>
    var overnights: Option<int>
    var stored: Option<Summary>

    constructor(headcounts: seq<Headcount>)
      ensures this.headcounts == headcounts && stored == None
      ensures begin == None && end == None && nights == None && comfort == None && number == None && overnights == None
    {
      this.headcounts := headcounts;
      begin, end, nights, comfort, number, overnights := None, None, None, None, None, None;
      stored := None;
    }

    /**
     * `denormalize`: `ok` is false when the group has no headcount, where Python
     * raises on `None - None` after setting begin and end to None.
     */
    method Denormalize() returns (ok: bool)
      modifies this
      ensures ok <==> headcounts != []
      ensures ok ==> begin == Some(Summarize(headcounts).begin) && end == Some(Summarize(headcounts).end)
      ensures ok ==> nights == Some(Summarize(headcounts).nights) && comfort == Summarize(headcounts).comfort
      ensures ok ==> number == Summarize(headcounts).number && overnights == Summarize(headcounts).overnights
      ensures !ok ==> begin == None && end == None && nights == old(nights) && comfort == old(comfort)
      ensures !ok ==> number == old(number) && overnights == old(overnights)
      ensures stored == old(stored)
    {
      if headcounts == [] {
        begin, end := None, None;
        return false;
      }
      var first, last := FirstBegin(headcounts), LastEnd(headcounts);
      begin, end := Some(first), Some(last);
      nights := Some(DaysBetween(first, last));
      comfort := ComputeComfort();
      var counts, days := ComputeStays();
      number := PeakOf(counts, days);
      var total := TotalOf(counts, days);
      overnights := if total == 0 then None else Some(total);
      return true;
    }

    /** The comfort loop of `denormalize`. */
    method ComputeComfort() returns (comfort: Option<int>)
      ensures comfort == ComfortOf(headcounts)
    {
      comfort := None;
      var k := 0;
      while k < |headcounts|
        invariant k <= |headcounts|
        invariant comfort == ComfortOf(headcounts[..k])
      {
        assert headcounts[..k + 1][..k] == headcounts[..k];
        var c := headcounts[k].comfort;
        comfort := if comfort.None? || comfort.value == 0 then Some(c) else comfort;
        if comfort != Some(c) {
          comfort := Some(3);
        }
        k := k + 1;
      }
      assert headcounts[..k] == headcounts;
    }

    /** The two nested loops of `denormalize` filling the `defaultdict`. */
    method ComputeStays() returns (counts: map<Date, int>, days: seq<Date>)
      ensures Stays(counts, days) == AddStays(EmptyStays(), headcounts)
    {
      counts, days := map[], [];
      var k := 0;
      while k < |headcounts|
        invariant k <= |headcounts|
        invariant Stays(counts, days) == AddStays(EmptyStays(), headcounts[..k])
      {
        var h := headcounts[k];
        var n := RangeLength(DaysBetween(h.begin, h.end));
        ghost var before := Stays(counts, days);
        var i := 0;
        while i < n
          invariant i <= n
          invariant Stays(counts, days) == AddNights(before, h.begin, i, h.number)
        {
          var d := AddDays(h.begin, i);
          NightStep(before, h.begin, i, h.number);
          if d in counts {
            counts := counts[d := counts[d] + h.number];
          } else {
            counts := counts[d := h.number];
            days := days + [d];
          }
          i := i + 1;
        }
        StaysStep(headcounts, k);
        k := k + 1;
      }
      assert headcounts[..k] == headcounts;
    }

    /**
     * `save`: the summary fields are recomputed before the row is written, and
     * the database refuses the row when a checked column is negative.
     */
    method Save() returns (ok: bool)
      modifies this
      ensures ok <==> headcounts != [] && FitsColumns(Summarize(headcounts))
      ensures ok ==> stored == Some(Summarize(headcounts))
      ensures !ok ==> stored == old(stored)
    {
      ok := Denormalize();
      if ok {
        var row := Summary(begin.value, end.value, nights.value, comfort, number, overnights);
        if FitsColumns(row) {
          stored := Some(row);
        } else {
          ok := false;
        }
      }
    }
  }
}
