/** The driver's month: total, counts and weekly trend. */
module Settlements {
  import opened Earnings
  import opened Options

  /** A point in time, in UTC. */
  datatype DateTime = DateTime(year: int, month: int, day: int, second: int) {
    predicate Valid() {
      1 <= month <= 12 && 1 <= day <= 31 && 0 <= second < 86400
    }

    predicate Before(t: DateTime) {
      || year < t.year
      || (year == t.year && (month < t.month
      || (month == t.month && (day < t.day
      || (day == t.day && second < t.second)))))
    }
  }

  function MonthStart(y: int, m: int): DateTime {
    DateTime(y, m, 1, 0)
  }

  function MonthEnd(y: int, m: int): DateTime {
    if m == 12 then DateTime(y + 1, 1, 1, 0) else DateTime(y, m + 1, 1, 0)
  }

  predicate InWindow(t: DateTime, y: int, m: int) {
    !t.Before(MonthStart(y, m)) && t.Before(MonthEnd(y, m))
  }

  /** The window takes exactly the times of that month. */
  lemma WindowIsMonth(t: DateTime, y: int, m: int)
    requires t.Valid() && 1 <= m <= 12
    ensures InWindow(t, y, m) <==> t.year == y && t.month == m
  {
  }

  function WeekOf(t: DateTime): int {
    (t.day - 1) / 7 + 1
  }

  function WeekStart(w: int): int {
    (w - 1) * 7 + 1
  }

  datatype Week = Week(no: int, startDay: int, amount: Money)

  datatype Summary = Summary(total: Money, completed: nat, pending: nat, trend: seq<Week>)

  /** Completion times of the driver's legs. */
  type Completions = map<LegId, DateTime>

  function MonthLegs(legs: Completions, y: int, m: int): set<LegId> {
    set id | id in legs && InWindow(legs[id], y, m)
  }

  function SumTrend(trend: seq<Week>): Money {
    if trend == [] then 0 else SumTrend(trend[..|trend| - 1]) + trend[|trend| - 1].amount
  }

  /** What the legs of the list earned in week `w`. */
  function InWeek(order: seq<LegId>, out: map<LegId, Earning>, legs: Completions, w: int): Money
    requires forall k | k in order :: k in out && k in legs
  {
    if order == [] then 0
    else
      var k := order[|order| - 1];
      assert k in order;
      InWeek(order[..|order| - 1], out, legs, w) + (if WeekOf(legs[k]) == w then out[k].amount else 0)
  }

  predicate LegInWeek(order: seq<LegId>, legs: Completions, w: int)
    requires forall k | k in order :: k in legs
  {
    exists k | k in order :: WeekOf(legs[k]) == w
  }

  /** The buckets after the legs of the list: one for each week with a leg, holding what they earned. */
  ghost predicate Bucketed(order: seq<LegId>, out: map<LegId, Earning>, legs: Completions, buckets: map<int, Money>)
    requires forall k | k in order :: k in out && k in legs
  {
    && (forall w :: w in buckets <==> LegInWeek(order, legs, w))
    && (forall w | w in buckets :: buckets[w] == InWeek(order, out, legs, w))
  }

  lemma {:induction false} NoLegNoAmount(order: seq<LegId>, out: map<LegId, Earning>, legs: Completions, w: int)
    requires forall k | k in order :: k in out && k in legs
    requires !LegInWeek(order, legs, w)
    ensures InWeek(order, out, legs, w) == 0
  {
    if order != [] {
      var front := order[..|order| - 1];
      assert order[|order| - 1] in order && forall k | k in front :: k in order;
      NoLegNoAmount(front, out, legs, w);
    }
  }

  lemma AddLeg(order: seq<LegId>, k: LegId, out: map<LegId, Earning>, legs: Completions, buckets: map<int, Money>)
    requires forall x | x in order + [k] :: x in out && x in legs
    requires forall x | x in order :: x in out && x in legs
    requires Bucketed(order, out, legs, buckets)
    ensures var w := WeekOf(legs[k]);
            Bucketed(order + [k], out, legs,
                     buckets[w := (if w in buckets then buckets[w] else 0) + out[k].amount])
  {
    var order' := order + [k];
    assert order'[..|order|] == order;
    assert forall x :: x in order' <==> x in order || x == k;
    forall w
      ensures LegInWeek(order', legs, w) <==> LegInWeek(order, legs, w) || WeekOf(legs[k]) == w
    {
    }
    var w := WeekOf(legs[k]);
    if w !in buckets {
      NoLegNoAmount(order, out, legs, w);
    }
  }

  /** Every leg falls in one of five weeks, so the weeks' amounts add up to the total. */
  lemma {:induction false} WeeksConserve(order: seq<LegId>, out: map<LegId, Earning>, legs: Completions)
    requires forall k | k in order :: k in out && k in legs && legs[k].Valid()
    ensures InWeek(order, out, legs, 1) + InWeek(order, out, legs, 2) + InWeek(order, out, legs, 3)
            + InWeek(order, out, legs, 4) + InWeek(order, out, legs, 5) == Total(order, out)
  {
    if order != [] {
      assert order[|order| - 1] in order;
      WeeksConserve(order[..|order| - 1], out, legs);
    }
  }

  /** A week of the trend has a leg, and holds what the legs of that week earned. */
  ghost predicate WeekOk(order: seq<LegId>, out: map<LegId, Earning>, legs: Completions, x: Week)
    requires forall k | k in order :: k in out && k in legs
  {
    && 1 <= x.no <= 5 && x.startDay == WeekStart(x.no)
    && x.amount == InWeek(order, out, legs, x.no)
    && LegInWeek(order, legs, x.no)
  }

  /** A leg lies in the week whose first day is at most 6 days before it. */
  lemma WeekSpan(t: DateTime, w: int)
    requires t.Valid()
    ensures 1 <= WeekOf(t) <= 5
    ensures WeekOf(t) == w <==> WeekStart(w) <= t.day <= WeekStart(w) + 6
  {
  }

  method Buckets(order: seq<LegId>, out: map<LegId, Earning>, legs: Completions) returns (buckets: map<int, Money>)
    requires forall k | k in order :: k in out && k in legs
    ensures Bucketed(order, out, legs, buckets)
  {
    buckets := map[];
    for i := 0 to |order|
      invariant Bucketed(order[..i], out, legs, buckets)
    {
      var k := order[i];
      AddLeg(order[..i], k, out, legs, buckets);
      assert order[..i + 1] == order[..i] + [k];
      var w := WeekOf(legs[k]);
      if w !in buckets {
        buckets := buckets[w := 0];
      }
      buckets := buckets[w := buckets[w] + out[k].amount];
    }
    assert order[..|order|] == order;
  }

  /** Weeks before `w`, in order. */
  ghost predicate TrendUpTo(order: seq<LegId>, out: map<LegId, Earning>, legs: Completions, trend: seq<Week>, w: int)
    requires forall k | k in order :: k in out && k in legs
  {
    && (forall i | 0 <= i < |trend| :: WeekOk(order, out, legs, trend[i]) && trend[i].no < w)
    && (forall i, j | 0 <= i < j < |trend| :: trend[i].no < trend[j].no)
  }

  /** The amounts of the weeks before `w`. */
  function WeeksBefore(order: seq<LegId>, out: map<LegId, Earning>, legs: Completions, w: nat): Money
    requires forall k | k in order :: k in out && k in legs
  {
    if w <= 1 then 0 else WeeksBefore(order, out, legs, w - 1) + InWeek(order, out, legs, w - 1)
  }

  lemma AddWeek(order: seq<LegId>, out: map<LegId, Earning>, legs: Completions, trend: seq<Week>, x: Week)
    requires forall k | k in order :: k in out && k in legs
    requires TrendUpTo(order, out, legs, trend, x.no) && WeekOk(order, out, legs, x)
    ensures TrendUpTo(order, out, legs, trend + [x], x.no + 1)
    ensures SumTrend(trend + [x]) == SumTrend(trend) + x.amount
  {
    assert (trend + [x])[..|trend|] == trend;
  }

  /** The trend holds the weeks before `w` and all they earned. */
  ghost predicate TrendDone(order: seq<LegId>, out: map<LegId, Earning>, legs: Completions, trend: seq<Week>, w: nat)
    requires forall k | k in order :: k in out && k in legs
  {
    SumTrend(trend) == WeeksBefore(order, out, legs, w) && TrendUpTo(order, out, legs, trend, w)
  }

  lemma EmptyWeek(order: seq<LegId>, out: map<LegId, Earning>, legs: Completions, buckets: map<int, Money>,
                  trend: seq<Week>, w: nat)
    requires forall k | k in order :: k in out && k in legs
    requires Bucketed(order, out, legs, buckets) && TrendDone(order, out, legs, trend, w)
    requires w >= 1 && w !in buckets
    ensures TrendDone(order, out, legs, trend, w + 1)
  {
    NoLegNoAmount(order, out, legs, w);
  }

  lemma FullWeek(order: seq<LegId>, out: map<LegId, Earning>, legs: Completions, buckets: map<int, Money>,
                 trend: seq<Week>, w: nat)
    requires forall k | k in order :: k in out && k in legs
    requires Bucketed(order, out, legs, buckets) && TrendDone(order, out, legs, trend, w)
    requires 1 <= w <= 5 && w in buckets
    ensures TrendDone(order, out, legs, trend + [Week(w, WeekStart(w), buckets[w])], w + 1)
  {
    AddWeek(order, out, legs, trend, Week(w, WeekStart(w), buckets[w]));
  }

  /** The buckets in order of their weeks. */
  method SortedWeeks(order: seq<LegId>, out: map<LegId, Earning>, legs: Completions, buckets: map<int, Money>)
      returns (trend: seq<Week>)
    requires forall k | k in order :: k in out && k in legs
    requires Bucketed(order, out, legs, buckets)
    ensures TrendDone(order, out, legs, trend, 6)
  {
    trend := [];
    for w := 1 to 6
      invariant TrendDone(order, out, legs, trend, w)
    {
      if w in buckets {
        FullWeek(order, out, legs, buckets, trend, w);
        trend := trend + [Week(w, (w - 1) * 7 + 1, buckets[w])];
      } else {
        EmptyWeek(order, out, legs, buckets, trend, w);
      }
    }
  }

  lemma AllWeeks(order: seq<LegId>, out: map<LegId, Earning>, legs: Completions)
    requires forall k | k in order :: k in out && k in legs && legs[k].Valid()
    ensures WeeksBefore(order, out, legs, 6) == Total(order, out)
  {
    WeeksConserve(order, out, legs);
    assert WeeksBefore(order, out, legs, 1) == 0;
    assert WeeksBefore(order, out, legs, 2) == InWeek(order, out, legs, 1);
    assert WeeksBefore(order, out, legs, 3) == WeeksBefore(order, out, legs, 2) + InWeek(order, out, legs, 2);
    assert WeeksBefore(order, out, legs, 4) == WeeksBefore(order, out, legs, 3) + InWeek(order, out, legs, 3);
    assert WeeksBefore(order, out, legs, 5) == WeeksBefore(order, out, legs, 4) + InWeek(order, out, legs, 4);
  }

  // ----- weeks in terms of lines -----

  predicate IsInWeek(legs: Completions, leg: LegId, w: int) {
    leg in legs && WeekOf(legs[leg]) == w
  }

  /** What the rows pay for legs completed in week `w`. */
  function WeekBases(rows: seq<Line>, legs: Completions, w: int): Money {
    if rows == [] then 0
    else
      var last := rows[|rows| - 1];
      WeekBases(rows[..|rows| - 1], legs, w) + (if IsInWeek(legs, last.leg, w) then Base(last) else 0)
  }

  function LegInWeekSum(rows: seq<Line>, legs: Completions, w: int): LegId -> Money {
    leg => if IsInWeek(legs, leg, w) then SumOf(rows, leg) else 0
  }

  lemma {:induction false} WeekSumsConserve(rows: seq<Line>, order: seq<LegId>, legs: Completions, w: int)
    requires forall i, j | 0 <= i < j < |order| :: order[i] != order[j]
    requires forall l | l in rows :: l.leg in order
    ensures Sum(order, LegInWeekSum(rows, legs, w)) == WeekBases(rows, legs, w)
  {
    if rows == [] {
      SumZero(order, LegInWeekSum(rows, legs, w));
    } else {
      var front, last := rows[..|rows| - 1], rows[|rows| - 1];
      assert forall l | l in front :: l in rows;
      WeekSumsConserve(front, order, legs, w);
      SumAddsOne(order, LegInWeekSum(front, legs, w), LegInWeekSum(rows, legs, w), last.leg,
                 if IsInWeek(legs, last.leg, w) then Base(last) else 0);
    }
  }

  lemma {:induction false} InWeekIsSum(order: seq<LegId>, out: map<LegId, Earning>, legs: Completions, w: int, f: LegId -> Money)
    requires forall k | k in order :: k in out && k in legs
    requires forall k | k in order :: f(k) == if IsInWeek(legs, k, w) then out[k].amount else 0
    ensures InWeek(order, out, legs, w) == Sum(order, f)
  {
    if order != [] {
      assert order[|order| - 1] in order;
      InWeekIsSum(order[..|order| - 1], out, legs, w, f);
    }
  }

  lemma InWeekIsWeekBases(rows: seq<Line>, out: map<LegId, Earning>, order: seq<LegId>, legs: Completions, w: int)
    requires AddsUp(rows, out) && OrderedKeys(order, out)
    requires forall k | k in order :: k in out && k in legs
    ensures InWeek(order, out, legs, w) == WeekBases(rows, legs, w)
  {
    forall l | l in rows
      ensures l.leg in order
    {
      assert HasLine(rows, l.leg);
    }
    WeekSumsConserve(rows, order, legs, w);
    InWeekIsSum(order, out, legs, w, LegInWeekSum(rows, legs, w));
  }

  // ----- the summary -----

  /** The legs of the list whose entry satisfies `p`. */
  function Those(order: seq<LegId>, out: map<LegId, Earning>, p: Earning -> bool): set<LegId> {
    set k | k in out && p(out[k]) && k in order
  }

  lemma ThoseSnoc(front: seq<LegId>, last: LegId, out: map<LegId, Earning>, p: Earning -> bool)
    requires last !in front && last in out
    ensures |Those(front + [last], out, p)| == |Those(front, out, p)| + (if p(out[last]) then 1 else 0)
  {
    if p(out[last]) {
      assert Those(front + [last], out, p) == Those(front, out, p) + {last};
    } else {
      assert Those(front + [last], out, p) == Those(front, out, p);
    }
  }

  lemma {:induction false} CountIsSize(order: seq<LegId>, out: map<LegId, Earning>, p: Earning -> bool)
    requires forall i, j | 0 <= i < j < |order| :: order[i] != order[j]
    requires forall k | k in order :: k in out
    ensures Count(order, out, p) == |Those(order, out, p)|
  {
    if order == [] {
      assert Those(order, out, p) == {};
    } else {
      var front, last := order[..|order| - 1], order[|order| - 1];
      assert order == front + [last] && last in order;
      CountIsSize(front, out, p);
      ThoseSnoc(front, last, out, p);
    }
  }

  /** The legs with a row, and those with a paid row. */
  function LegsWithLine(rows: seq<Line>): set<LegId> {
    set l | l in rows :: l.leg
  }

  function LegsWithPaidLine(rows: seq<Line>): set<LegId> {
    set l | l in rows && l.status == Paid :: l.leg
  }

  lemma SettledLegs(rows: seq<Line>, out: map<LegId, Earning>, order: seq<LegId>)
    requires AddsUp(rows, out) && OrderedKeys(order, out)
    ensures Those(order, out, Settled()) == LegsWithPaidLine(rows)
  {
    forall leg
      ensures leg in Those(order, out, Settled()) <==> leg in LegsWithPaidLine(rows)
    {
      assert HasPaid(rows, leg) ==> HasLine(rows, leg);
      assert leg in out <==> HasLine(rows, leg);
    }
  }

  lemma AllLegs(rows: seq<Line>, out: map<LegId, Earning>, order: seq<LegId>)
    requires AddsUp(rows, out) && OrderedKeys(order, out)
    ensures Those(order, out, Settled()) + Those(order, out, OnlyPending()) == LegsWithLine(rows)
  {
    forall leg
      ensures leg in out <==> leg in LegsWithLine(rows)
    {
      assert leg in out <==> HasLine(rows, leg);
    }
  }

  lemma CountsAreLegs(rows: seq<Line>, out: map<LegId, Earning>, order: seq<LegId>)
    requires AddsUp(rows, out) && OrderedKeys(order, out)
    requires forall k | k in order :: k in out
    ensures Count(order, out, Settled()) == |LegsWithPaidLine(rows)|
    ensures Count(order, out, Settled()) + Count(order, out, OnlyPending()) == |LegsWithLine(rows)|
  {
    CountIsSize(order, out, Settled());
    CountIsSize(order, out, OnlyPending());
    SettledLegs(rows, out, order);
    AllLegs(rows, out, order);
    assert Those(order, out, Settled()) !! Those(order, out, OnlyPending());
  }

  lemma {:induction false} SelectedLegs(lines: seq<Line>, ids: set<LegId>)
    ensures forall l :: l in Selected(lines, ids) <==> l in lines && Selects(l, ids)
  {
    if lines != [] {
      SelectedLegs(lines[1..], ids);
    }
  }

  /** The legs completed in the month. */
  function CompletedIn(legs: Completions, y: int, m: int): set<LegId> {
    set id | id in legs && legs[id].year == y && legs[id].month == m
  }

  lemma MonthLegsExact(legs: Completions, y: int, m: int)
    requires 1 <= m <= 12 && forall id | id in legs :: legs[id].Valid()
    ensures MonthLegs(legs, y, m) == CompletedIn(legs, y, m)
  {
    forall id | id in legs
      ensures InWindow(legs[id], y, m) <==> legs[id].year == y && legs[id].month == m
    {
      WindowIsMonth(legs[id], y, m);
    }
  }

  /** A leg was completed on `day` or one of the six days after it. */
  ghost predicate LegFrom(legs: Completions, ids: set<LegId>, day: int) {
    exists id | id in legs && id in ids :: day <= legs[id].day <= day + 6
  }

  /** A trend in order of weeks; each holds what the rows pay for the legs of that week, and starts on a day of
      the month not after one of them. */
  ghost predicate TrendOk(legs: Completions, ids: set<LegId>, rows: seq<Line>, trend: seq<Week>) {
    && (forall i, j | 0 <= i < j < |trend| :: trend[i].no < trend[j].no)
    && (forall i | 0 <= i < |trend| ::
          && 1 <= trend[i].startDay == WeekStart(trend[i].no)
          && LegFrom(legs, ids, trend[i].startDay)
          && trend[i].amount == WeekBases(rows, legs, trend[i].no))
  }

  lemma WeekHasLeg(order: seq<LegId>, legs: Completions, ids: set<LegId>, w: int)
    requires forall k | k in order :: k in legs && k in ids && legs[k].Valid()
    requires LegInWeek(order, legs, w)
    ensures LegFrom(legs, ids, WeekStart(w))
  {
    var k :| k in order && WeekOf(legs[k]) == w;
    WeekSpan(legs[k], w);
  }

  lemma TrendIsOk(rows: seq<Line>, out: map<LegId, Earning>, order: seq<LegId>, legs: Completions, ids: set<LegId>,
                  trend: seq<Week>)
    requires AddsUp(rows, out) && OrderedKeys(order, out)
    requires forall k | k in order :: k in out && k in legs && k in ids && legs[k].Valid()
    requires TrendUpTo(order, out, legs, trend, 6)
    ensures TrendOk(legs, ids, rows, trend)
  {
    forall i | 0 <= i < |trend|
      ensures LegFrom(legs, ids, trend[i].startDay) && trend[i].amount == WeekBases(rows, legs, trend[i].no)
    {
      assert WeekOk(order, out, legs, trend[i]);
      WeekHasLeg(order, legs, ids, trend[i].no);
      InWeekIsWeekBases(rows, out, order, legs, trend[i].no);
    }
  }

  method Summarize(legs: Completions, lines: seq<Line>, ids: set<LegId>) returns (r: Summary)
    requires forall id | id in ids :: id in legs && legs[id].Valid()
    ensures var rows := Selected(lines, ids);
            && r.total == SumBases(rows)
            && SumTrend(r.trend) == r.total
            && r.completed == |LegsWithPaidLine(rows)|
            && r.completed + r.pending == |LegsWithLine(rows)|
    ensures TrendOk(legs, ids, Selected(lines, ids), r.trend)
  {
    ghost var rows := Selected(lines, ids);
    var out, order := EarningsByLeg(lines, ids);
    SelectedLegs(lines, ids);
    forall k | k in order
      ensures k in out && k in ids && k in legs && legs[k].Valid()
    {
      assert HasLine(rows, k);
    }
    TotalConserved(rows, out, order);
    CountsAreLegs(rows, out, order);
    AllWeeks(order, out, legs);
    var buckets := Buckets(order, out, legs);
    var trend := SortedWeeks(order, out, legs, buckets);
    TrendIsOk(rows, out, order, legs, ids, trend);
    r := Summary(Total(order, out), Count(order, out, Settled()), Count(order, out, OnlyPending()), trend);
  }

  lemma {:induction false} NothingSelected(lines: seq<Line>)
    ensures Selected(lines, {}) == []
  {
    if lines != [] {
      NothingSelected(lines[1..]);
    }
  }

  /** The month's total, counts and trend: nothing the lines of the month's legs pay is lost or counted twice,
      in the total or over the weeks, and every leg with a line is counted once, as settled or as pending. */
  method MonthlySummary(legs: Completions, lines: seq<Line>, y: int, m: int) returns (r: Summary)
    requires 1 <= m <= 12 && forall id | id in legs :: legs[id].Valid()
    ensures var rows := Selected(lines, CompletedIn(legs, y, m));
            && r.total == SumBases(rows)
            && SumTrend(r.trend) == r.total
            && r.completed == |LegsWithPaidLine(rows)|
            && r.completed + r.pending == |LegsWithLine(rows)|
    ensures TrendOk(legs, CompletedIn(legs, y, m), Selected(lines, CompletedIn(legs, y, m)), r.trend)
  {
    MonthLegsExact(legs, y, m);
    var ids := MonthLegs(legs, y, m);
    if ids == {} {
      NothingSelected(lines);
      return Summary(0, 0, 0, []);
    }
    r := Summarize(legs, lines, ids);
  }
}
