/**
 * The daily cumulative series behind the cash-flow chart
 * (`CashFlowJsonView.serie`) and the membership chart (`AdhesionsJsonView.serie`).
 * Both read a query grouped by day and ordered by descending day into a list,
 * then walk the days from `start` to `end`: on each day the last list element
 * is popped and added to the running total when it is dated that day, and every
 * day except 29 February gets a point carrying the running total (negated for
 * the cash flow).
 */
module DailySeries {

  import opened Common
  import opened Calendar

  /** One row of the grouped query: the day and its aggregate (a headcount or a balance). */
  datatype Group = Group(day: Date, amount: int)

  function Amount(g: Group): int {
    g.amount
  }

  /** The walk on one day: pop the last group when it is dated that day. */
  function Step(q: seq<Group>, acc: int, d: Date): (seq<Group>, int) {
    if q != [] && q[|q| - 1].day == d then (q[..|q| - 1], acc + q[|q| - 1].amount) else (q, acc)
  }

  /** The groups still in the list and the running total after walking the first n days. */
  function Run(groups: seq<Group>, start: Date, n: nat): (seq<Group>, int) {
    if n == 0 then (groups, 0)
    else
      var prev := Run(groups, start, n - 1);
      Step(prev.0, prev.1, AddDays(start, n - 1))
  }

  function Shown(acc: int, negate: bool): int {
    if negate then -acc else acc
  }

  /** The series after the first n days: one point per day, 29 February excepted. */
  function Points(groups: seq<Group>, start: Date, n: nat, negate: bool): seq<(Date, int)> {
    if n == 0 then []
    else
      var d := AddDays(start, n - 1);
      Points(groups, start, n - 1, negate)
      + (if IsLeapDay(d) then [] else [(d, Shown(Run(groups, start, n).1, negate))])
  }

  /** `len(range((end - start).days + 1))`: no day at all when end is before start. */
  function DayCount(start: Date, end: Date): nat {
    if DaysBetween(start, end) >= 0 then DaysBetween(start, end) + 1 else 0
  }

  /** The walk as the views write it. */
  method Serie(start: Date, end: Date, groups: seq<Group>, negate: bool) returns (data: seq<(Date, int)>)
    ensures data == Points(groups, start, DayCount(start, end), negate)
  {
    var count := DayCount(start, end);
    var q := groups;
    var acc := 0;
    var d := start;
    var n := 0;
    data := [];
    while n < count
      invariant n <= count
      invariant d == AddDays(start, n)
      invariant (q, acc) == Run(groups, start, n)
      invariant data == Points(groups, start, n, negate)
    {
      WalkStep(groups, start, n, negate);
      if q != [] && q[|q| - 1].day == d {
        acc := acc + q[|q| - 1].amount;
        q := q[..|q| - 1];
      }
      if !IsLeapDay(d) {
        data := data + [(d, if negate then -acc else acc)];
      }
      d := Next(d);
      n := n + 1;
    }
  }

  /** Day n + 1 of the walk: one step on the state after n days, and that day's point. */
  lemma WalkStep(groups: seq<Group>, start: Date, n: nat, negate: bool)
    ensures var prev := Run(groups, start, n);
      var d := AddDays(start, n);
      && Run(groups, start, n + 1) == Step(prev.0, prev.1, d)
      && AddDays(start, n + 1) == Next(d)
      && Points(groups, start, n + 1, negate)
         == Points(groups, start, n, negate) + (if IsLeapDay(d) then [] else [(d, Shown(Run(groups, start, n + 1).1, negate))])
  {
  }

  // ---------------------------------------------------------------------------
  // The days of the series

  /** One more day keeps the earlier points and adds at most the point of that day. */
  lemma PointsStep(groups: seq<Group>, start: Date, n: nat, negate: bool)
    requires n > 0
    ensures var prev := Points(groups, start, n - 1, negate);
      var p := Points(groups, start, n, negate);
      var d := AddDays(start, n - 1);
      && |prev| <= |p|
      && (forall i :: 0 <= i < |prev| ==> p[i] == prev[i])
      && (IsLeapDay(d) ==> p == prev)
      && (!IsLeapDay(d) ==> |p| == |prev| + 1 && p[|prev|] == (d, Shown(Run(groups, start, n).1, negate)))
  {
  }

  /** The walk only moves forward: every earlier day is before the day it reaches. */
  lemma {:induction false} DaysAdvance(start: Date, k: nat, n: nat)
    requires Valid(start) && k < n
    ensures Valid(AddDays(start, k)) && Valid(AddDays(start, n)) && Before(AddDays(start, k), AddDays(start, n))
  {
    AddDaysValid(start, n - 1);
    NextIsSuccessor(AddDays(start, n - 1), start);
    if k < n - 1 {
      DaysAdvance(start, k, n - 1);
    }
  }

  lemma {:induction false} StartNotAfter(start: Date, n: nat)
    requires Valid(start)
    ensures Valid(AddDays(start, n)) && NotAfter(start, AddDays(start, n))
  {
    AddDaysValid(start, n);
    if n > 0 {
      DaysAdvance(start, 0, n);
    }
  }

  /**
   * The points are the days from start up to the day the walk reaches, in
   * increasing order, each day once and 29 February left out.
   */
  lemma {:induction false} PointsDays(groups: seq<Group>, start: Date, n: nat, negate: bool)
    requires Valid(start)
    ensures var p := Points(groups, start, n, negate);
      && (forall i :: 0 <= i < |p| ==>
            Valid(p[i].0) && !IsLeapDay(p[i].0) && NotAfter(start, p[i].0) && Before(p[i].0, AddDays(start, n)))
      && (forall i, j :: 0 <= i < j < |p| ==> Before(p[i].0, p[j].0))
  {
    if n > 0 {
      PointsDays(groups, start, n - 1, negate);
      PointsStep(groups, start, n, negate);
      var d := AddDays(start, n - 1);
      var e := AddDays(start, n);
      DaysAdvance(start, n - 1, n);
      StartNotAfter(start, n - 1);
      var prev := Points(groups, start, n - 1, negate);
      var p := Points(groups, start, n, negate);
      forall i | 0 <= i < |p|
        ensures Valid(p[i].0) && !IsLeapDay(p[i].0) && NotAfter(start, p[i].0) && Before(p[i].0, e)
        ensures i < |prev| ==> Before(p[i].0, d)
      {
      }
      forall i, j | 0 <= i < j < |p|
        ensures Before(p[i].0, p[j].0)
      {
        if j == |prev| {
          assert Before(prev[i].0, d);
        }
      }
    }
  }

  /** Every day the walk passes, 29 February excepted, has its point. */
  lemma {:induction false} PointsCoverDays(groups: seq<Group>, start: Date, n: nat, negate: bool)
    ensures var p := Points(groups, start, n, negate);
      forall k :: 0 <= k < n && !IsLeapDay(AddDays(start, k)) ==> exists i :: 0 <= i < |p| && p[i].0 == AddDays(start, k)
  {
    if n > 0 {
      PointsCoverDays(groups, start, n - 1, negate);
      PointsStep(groups, start, n, negate);
      var prev := Points(groups, start, n - 1, negate);
      var p := Points(groups, start, n, negate);
      forall k | 0 <= k < n && !IsLeapDay(AddDays(start, k))
        ensures exists i :: 0 <= i < |p| && p[i].0 == AddDays(start, k)
      {
        if k < n - 1 {
          var i :| 0 <= i < |prev| && prev[i].0 == AddDays(start, k);
          assert p[i].0 == AddDays(start, k);
        } else {
          assert p[|prev|].0 == AddDays(start, k);
        }
      }
    }
  }

  /** A day of the series lies between start and end. */
  lemma PointWithin(groups: seq<Group>, start: Date, end: Date, negate: bool, i: nat)
    requires Valid(start) && Valid(end)
    requires i < |Points(groups, start, DayCount(start, end), negate)|
    ensures var x := Points(groups, start, DayCount(start, end), negate)[i].0;
      Valid(x) && !IsLeapDay(x) && NotAfter(start, x) && NotAfter(x, end)
  {
    var n := DayCount(start, end);
    var x := Points(groups, start, n, negate)[i].0;
    PointsDays(groups, start, n, negate);
    AddDaysStep(start, n);
    BeforeIsOrdinalOrder(x, AddDays(start, n));
    NotAfterIsOrdinalOrder(x, end);
  }

  /** Every day between start and end except 29 February has a point. */
  lemma DayHasPoint(groups: seq<Group>, start: Date, end: Date, negate: bool, x: Date)
    requires Valid(start) && Valid(end) && Valid(x)
    requires NotAfter(start, x) && NotAfter(x, end) && !IsLeapDay(x)
    ensures var p := Points(groups, start, DayCount(start, end), negate);
      exists i :: 0 <= i < |p| && p[i].0 == x
  {
    NotAfterIsOrdinalOrder(start, x);
    NotAfterIsOrdinalOrder(x, end);
    var k := Ordinal(x) - Ordinal(start);
    AddDaysStep(start, k);
    OrdinalInjective(AddDays(start, k), x);
    PointsCoverDays(groups, start, DayCount(start, end), negate);
  }

  /**
   * The keys of the series are exactly the days from start to end, 29 February
   * excepted (none when end is before start).
   */
  lemma SerieDays(groups: seq<Group>, start: Date, end: Date, negate: bool, x: Date)
    requires Valid(start) && Valid(end) && Valid(x)
    ensures var p := Points(groups, start, DayCount(start, end), negate);
      (exists i :: 0 <= i < |p| && p[i].0 == x) <==> (NotAfter(start, x) && NotAfter(x, end) && !IsLeapDay(x))
  {
    var p := Points(groups, start, DayCount(start, end), negate);
    if exists i :: 0 <= i < |p| && p[i].0 == x {
      var i :| 0 <= i < |p| && p[i].0 == x;
      PointWithin(groups, start, end, negate, i);
    }
    if NotAfter(start, x) && NotAfter(x, end) && !IsLeapDay(x) {
      DayHasPoint(groups, start, end, negate, x);
    }
  }

  // ---------------------------------------------------------------------------
  // The running total

  /** Total of the groups dated on or before d. */
  function UpTo(groups: seq<Group>, d: Date): int {
    if groups == [] then 0
    else UpTo(groups[..|groups| - 1], d) + (if NotAfter(groups[|groups| - 1].day, d) then groups[|groups| - 1].amount else 0)
  }

  /** The list is in strictly descending day order, as `order_by('-date')` on grouped days gives. */
  predicate Descending(groups: seq<Group>) {
    forall i, j :: 0 <= i < j < |groups| ==> Before(groups[j].day, groups[i].day)
  }

  predicate AllValid(groups: seq<Group>) {
    forall i :: 0 <= i < |groups| ==> Valid(groups[i].day)
  }

  /** When the list splits into groups after d and groups on or before d, the total is the tail's sum. */
  lemma {:induction false} UpToSplit(groups: seq<Group>, m: nat, d: Date)
    requires m <= |groups|
    requires forall i :: 0 <= i < m ==> Before(d, groups[i].day)
    requires forall i :: m <= i < |groups| ==> NotAfter(groups[i].day, d)
    ensures UpTo(groups, d) == SumOf(groups[m..], Amount)
  {
    if groups != [] {
      var init := groups[..|groups| - 1];
      if m < |groups| {
        UpToSplit(init, m, d);
        assert groups[m..] == init[m..] + [groups[|groups| - 1]];
        assert groups[m..][..|groups[m..]| - 1] == init[m..];
      } else {
        UpToSplit(init, m - 1, d);
      }
    }
  }

  /** The state of the walk before day d: groups[..m] still listed, the rest popped and added. */
  predicate PoppedBefore(groups: seq<Group>, q: seq<Group>, acc: int, m: nat, d: Date) {
    m <= |groups| && q == groups[..m] && acc == SumOf(groups[m..], Amount)
    && (forall i :: 0 <= i < m ==> NotAfter(d, groups[i].day))
    && (forall i :: m <= i < |groups| ==> Before(groups[i].day, d))
  }

  /** Popping the last listed group moves it to the added part. */
  lemma PopOne(groups: seq<Group>, m: nat)
    requires 0 < m <= |groups|
    ensures groups[..m][..m - 1] == groups[..m - 1]
    ensures SumOf(groups[m - 1..], Amount) == groups[m - 1].amount + SumOf(groups[m..], Amount)
  {
    assert groups[m - 1..] == [groups[m - 1]] + groups[m..];
    SumAppend([groups[m - 1]], groups[m..], Amount);
    SumSingle(groups[m - 1], Amount);
  }

  /**
   * When every group is dated on or after start, the walk has popped exactly the
   * groups dated before the day it reaches, and its total is theirs.
   */
  lemma {:induction false} RunPopsInOrder(groups: seq<Group>, start: Date, n: nat)
    requires Valid(start) && AllValid(groups) && Descending(groups)
    requires forall i :: 0 <= i < |groups| ==> NotAfter(start, groups[i].day)
    ensures exists m :: PoppedBefore(groups, Run(groups, start, n).0, Run(groups, start, n).1, m, AddDays(start, n))
  {
    if n == 0 {
      assert groups[..|groups|] == groups && groups[|groups|..] == [];
      assert Run(groups, start, 0) == (groups, 0) && AddDays(start, 0) == start;
      assert PoppedBefore(groups, groups, 0, |groups|, start);
    } else {
      RunPopsInOrder(groups, start, n - 1);
      var d := AddDays(start, n - 1);
      var m: nat :| PoppedBefore(groups, Run(groups, start, n - 1).0, Run(groups, start, n - 1).1, m, d);
      AddDaysValid(start, n - 1);
      StepPops(groups, Run(groups, start, n - 1).0, Run(groups, start, n - 1).1, m, d);
      var m' := if m > 0 && groups[m - 1].day == d then m - 1 else m;
      assert PoppedBefore(groups, Run(groups, start, n).0, Run(groups, start, n).1, m', AddDays(start, n));
    }
  }

  /** One day of the walk keeps the split: the group of that day, if listed last, moves to the added part. */
  lemma StepPops(groups: seq<Group>, q: seq<Group>, acc: int, m: nat, d: Date)
    requires Valid(d) && AllValid(groups) && Descending(groups)
    requires PoppedBefore(groups, q, acc, m, d)
    ensures PoppedBefore(groups, Step(q, acc, d).0, Step(q, acc, d).1, if m > 0 && groups[m - 1].day == d then m - 1 else m, Next(d))
  {
    var m' := if m > 0 && groups[m - 1].day == d then m - 1 else m;
    NextIsSuccessor(d, d);
    forall i | 0 <= i < m'
      ensures NotAfter(Next(d), groups[i].day)
    {
      if i < m - 1 {
        assert Before(groups[m - 1].day, groups[i].day);
      }
      assert Before(d, groups[i].day);
      NextIsSuccessor(d, groups[i].day);
    }
    forall i | m' <= i < |groups|
      ensures Before(groups[i].day, Next(d))
    {
    }
    if m > 0 && groups[m - 1].day == d {
      PopOne(groups, m);
    }
  }

  /** Every point carries the total of the groups dated on or before its day. */
  predicate CarriesTotals(groups: seq<Group>, p: seq<(Date, int)>, negate: bool) {
    forall i :: 0 <= i < |p| ==> p[i].1 == Shown(UpTo(groups, p[i].0), negate)
  }

  /**
   * When every group is dated on or after start, the point of day d carries the
   * total of the groups dated on or before d.
   */
  lemma {:induction false} PointsAreCumulative(groups: seq<Group>, start: Date, n: nat, negate: bool)
    requires Valid(start) && AllValid(groups) && Descending(groups)
    requires forall i :: 0 <= i < |groups| ==> NotAfter(start, groups[i].day)
    ensures CarriesTotals(groups, Points(groups, start, n, negate), negate)
  {
    if n > 0 {
      PointsAreCumulative(groups, start, n - 1, negate);
      RunIsUpTo(groups, start, n);
      PointsExtend(groups, start, n, negate);
    }
  }

  /**
   * When every group is dated on or after start, the running total after the
   * n-th day is the total of the groups dated on or before that day.
   */
  lemma RunIsUpTo(groups: seq<Group>, start: Date, n: nat)
    requires Valid(start) && AllValid(groups) && Descending(groups) && n > 0
    requires forall i :: 0 <= i < |groups| ==> NotAfter(start, groups[i].day)
    ensures Run(groups, start, n).1 == UpTo(groups, AddDays(start, n - 1))
  {
    var d := AddDays(start, n - 1);
    AddDaysValid(start, n - 1);
    RunPopsInOrder(groups, start, n);
    var m: nat :| PoppedBefore(groups, Run(groups, start, n).0, Run(groups, start, n).1, m, AddDays(start, n));
    forall i | 0 <= i < m
      ensures Before(d, groups[i].day)
    {
      NextIsSuccessor(d, groups[i].day);
    }
    forall i | m <= i < |groups|
      ensures NotAfter(groups[i].day, d)
    {
      NextIsSuccessor(groups[i].day, d);
      NextIsSuccessor(d, groups[i].day);
    }
    UpToSplit(groups, m, d);
  }

  /** The points stay cumulative for one more day when the total of that day is cumulative. */
  lemma PointsExtend(groups: seq<Group>, start: Date, n: nat, negate: bool)
    requires n > 0
    requires CarriesTotals(groups, Points(groups, start, n - 1, negate), negate)
    requires Run(groups, start, n).1 == UpTo(groups, AddDays(start, n - 1))
    ensures CarriesTotals(groups, Points(groups, start, n, negate), negate)
  {
    PointsStep(groups, start, n, negate);
  }

  /** The point at index i carries the total of the groups dated on or before its day. */
  lemma PointValue(groups: seq<Group>, start: Date, n: nat, negate: bool, i: nat)
    requires Valid(start) && AllValid(groups) && Descending(groups)
    requires forall j :: 0 <= j < |groups| ==> NotAfter(start, groups[j].day)
    requires i < |Points(groups, start, n, negate)|
    ensures Points(groups, start, n, negate)[i].1 == Shown(UpTo(groups, Points(groups, start, n, negate)[i].0), negate)
  {
    PointsAreCumulative(groups, start, n, negate);
  }

  /** With non-negative groups (headcounts), the running total never decreases. */
  lemma {:induction false} RunNonDecreasing(groups: seq<Group>, start: Date, n: nat)
    requires forall i :: 0 <= i < |groups| ==> groups[i].amount >= 0
    ensures Run(groups, start, n).1 >= 0
    ensures forall k :: 0 <= k <= n ==> Run(groups, start, k).1 <= Run(groups, start, n).1
    ensures forall g :: g in Run(groups, start, n).0 ==> g in groups
  {
    if n > 0 {
      RunNonDecreasing(groups, start, n - 1);
      var q := Run(groups, start, n - 1).0;
      if q != [] {
        assert q[|q| - 1] in q;
        assert forall g :: g in q[..|q| - 1] ==> g in q;
      }
    }
  }

  /** A headcount series is non-decreasing from day to day. */
  lemma {:induction false} PointsNonDecreasing(groups: seq<Group>, start: Date, n: nat)
    requires forall i :: 0 <= i < |groups| ==> groups[i].amount >= 0
    ensures var p := Points(groups, start, n, false);
      && (forall i, j :: 0 <= i < j < |p| ==> p[i].1 <= p[j].1)
      && (forall i :: 0 <= i < |p| ==> p[i].1 <= Run(groups, start, n).1)
  {
    RunNonDecreasing(groups, start, n);
    if n > 0 {
      PointsNonDecreasing(groups, start, n - 1);
      PointsStep(groups, start, n, false);
      var prev := Points(groups, start, n - 1, false);
      var p := Points(groups, start, n, false);
      var top := Run(groups, start, n).1;
      assert Run(groups, start, n - 1).1 <= top;
      forall i | 0 <= i < |p|
        ensures p[i].1 <= top
      {
      }
      forall i, j | 0 <= i < j < |p|
        ensures p[i].1 <= p[j].1
      {
        if j == |prev| {
          assert prev[i].1 <= Run(groups, start, n - 1).1;
        }
      }
    }
  }

  // ---------------------------------------------------------------------------
  // A group dated before the first day

  /**
   * A group dated before start is never popped; since it is the last element of
   * the list, nothing after it is popped either, and the total stays 0 to the end.
   */
  lemma {:induction false} EarlyGroupStalls(groups: seq<Group>, start: Date, n: nat)
    requires Valid(start) && groups != [] && Before(groups[|groups| - 1].day, start)
    ensures Run(groups, start, n) == (groups, 0)
  {
    if n > 0 {
      EarlyGroupStalls(groups, start, n - 1);
      StartNotAfter(start, n - 1);
    }
  }

  /**
   * Five members dated 2 September 2015 and one dated 20 August 2015 in the
   * season starting 1 September 2015: the series shows 0 on 2 September
   * although six members are dated on or before that day.
   */
  lemma EarlyGroupExample()
    ensures var groups := [Group(Date(2015, 9, 2), 5), Group(Date(2015, 8, 20), 1)];
      var p := Points(groups, Date(2015, 9, 1), 3, false);
      && p == [(Date(2015, 9, 1), 0), (Date(2015, 9, 2), 0), (Date(2015, 9, 3), 0)]
      && UpTo(groups, Date(2015, 9, 2)) == 6
  {
    var groups := [Group(Date(2015, 9, 2), 5), Group(Date(2015, 8, 20), 1)];
    var start := Date(2015, 9, 1);
    EarlyGroupStalls(groups, start, 1);
    EarlyGroupStalls(groups, start, 2);
    EarlyGroupStalls(groups, start, 3);
    assert AddDays(start, 1) == Date(2015, 9, 2);
    assert AddDays(start, 2) == Date(2015, 9, 3);
    assert groups[..1] == [Group(Date(2015, 9, 2), 5)];
  }

  /**
   * The walk with the evidently intended pop: every group dated on or before the
   * current day is added, so a group dated before start counts from the first day.
   */
  method SerieCumulative(start: Date, end: Date, groups: seq<Group>, negate: bool) returns (data: seq<(Date, int)>)
    requires Valid(start) && AllValid(groups) && Descending(groups)
    ensures |data| == |Points(groups, start, DayCount(start, end), negate)|
    ensures forall i :: 0 <= i < |data| ==> data[i].0 == Points(groups, start, DayCount(start, end), negate)[i].0
    ensures forall i :: 0 <= i < |data| ==> data[i].1 == Shown(UpTo(groups, data[i].0), negate)
  {
    var count := DayCount(start, end);
    var q := groups;
    ghost var m: nat := |groups|;
    var acc := 0;
    var d := start;
    var n := 0;
    data := [];
    assert groups[..|groups|] == groups;
    while n < count
      invariant n <= count && d == AddDays(start, n) && Valid(d)
      invariant m <= |groups| && q == groups[..m] && acc == SumOf(groups[m..], Amount)
      invariant forall i :: m <= i < |groups| ==> Before(groups[i].day, d)
      invariant CumulativeSoFar(groups, start, n, negate, data)
    {
      q, acc, m := PopDue(groups, q, acc, m, d);
      UpToSplit(groups, m, d);
      SerieExtend(groups, start, n, negate, data, acc);
      if !IsLeapDay(d) {
        data := data + [(d, Shown(acc, negate))];
      }
      NextAfterPopped(groups, m, d);
      AddDaysValid(start, n + 1);
      d := Next(d);
      n := n + 1;
    }
  }

  /** The corrected series after n days: the days of `Points`, each with the total up to that day. */
  predicate CumulativeSoFar(groups: seq<Group>, start: Date, n: nat, negate: bool, data: seq<(Date, int)>) {
    && |data| == |Points(groups, start, n, negate)|
    && (forall i :: 0 <= i < |data| ==> data[i].0 == Points(groups, start, n, negate)[i].0)
    && (forall i :: 0 <= i < |data| ==> data[i].1 == Shown(UpTo(groups, data[i].0), negate))
  }

  /** A point carrying the total of the groups on or before its day keeps the series cumulative. */
  lemma SerieExtend(groups: seq<Group>, start: Date, n: nat, negate: bool, data: seq<(Date, int)>, acc: int)
    requires CumulativeSoFar(groups, start, n, negate, data)
    requires acc == UpTo(groups, AddDays(start, n))
    ensures var d := AddDays(start, n);
      CumulativeSoFar(groups, start, n + 1, negate, if IsLeapDay(d) then data else data + [(d, Shown(acc, negate))])
  {
    PointsStep(groups, start, n + 1, negate);
  }

  /** The inner loop of the corrected walk: pop every listed group dated on or before d. */
  method PopDue(groups: seq<Group>, q: seq<Group>, acc: int, ghost m: nat, d: Date) returns (q': seq<Group>, acc': int, ghost m': nat)
    requires Descending(groups)
    requires m <= |groups| && q == groups[..m] && acc == SumOf(groups[m..], Amount)
    requires forall i :: m <= i < |groups| ==> Before(groups[i].day, d)
    ensures m' <= m && q' == groups[..m'] && acc' == SumOf(groups[m'..], Amount)
    ensures forall i :: m' <= i < |groups| ==> NotAfter(groups[i].day, d)
    ensures forall i :: 0 <= i < m' ==> Before(d, groups[i].day)
  {
    q', acc', m' := q, acc, m;
    while q' != [] && NotAfter(q'[|q'| - 1].day, d)
      invariant m' <= m && q' == groups[..m'] && acc' == SumOf(groups[m'..], Amount)
      invariant forall i :: m' <= i < |groups| ==> NotAfter(groups[i].day, d)
    {
      PopOne(groups, m');
      acc' := acc' + q'[|q'| - 1].amount;
      q' := q'[..|q'| - 1];
      m' := m' - 1;
    }
    DescendingAfter(groups, m', d);
  }

  /** In a descending list, once the last listed group is after d, all listed groups are. */
  lemma DescendingAfter(groups: seq<Group>, m: nat, d: Date)
    requires Descending(groups) && m <= |groups|
    requires m > 0 ==> !NotAfter(groups[m - 1].day, d)
    ensures forall i :: 0 <= i < m ==> Before(d, groups[i].day)
  {
  }

  /** Groups on or before d are before the next day; groups after d are on or after it. */
  lemma NextAfterPopped(groups: seq<Group>, m: nat, d: Date)
    requires Valid(d) && AllValid(groups) && m <= |groups|
    requires forall i :: m <= i < |groups| ==> NotAfter(groups[i].day, d)
    requires forall i :: 0 <= i < m ==> Before(d, groups[i].day)
    ensures forall i :: m <= i < |groups| ==> Before(groups[i].day, Next(d))
    ensures forall i :: 0 <= i < m ==> NotAfter(Next(d), groups[i].day)
  {
    NextIsSuccessor(d, d);
    forall i | 0 <= i < m
      ensures NotAfter(Next(d), groups[i].day)
    {
      NextIsSuccessor(d, groups[i].day);
    }
  }
}
