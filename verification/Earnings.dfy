/** What a driver earned: payroll lines added up per leg, per month and per week of the month. */
module Earnings {
  import opened Options

  type LegId = int
  /** Amounts in hundredths. */
  type Money = int

  datatype PayrollStatus = Draft | Confirmed | Paid | Void

  /** A payroll line joined with its settlement. */
  datatype Line = Line(leg: LegId, base: Option<Money>, status: PayrollStatus, active: bool)

  datatype Earning = Earning(amount: Money, settled: bool, pending: bool)

  // ----- lines -----

  predicate Selects(l: Line, legs: set<LegId>) {
    l.leg in legs && l.status != Void && l.active
  }

  /** The rows of the line query. */
  function Selected(lines: seq<Line>, legs: set<LegId>): seq<Line> {
    if lines == [] then []
    else if Selects(lines[0], legs) then [lines[0]] + Selected(lines[1..], legs)
    else Selected(lines[1..], legs)
  }

  function Base(l: Line): Money {
    if l.base.Some? then l.base.value else 0
  }

  function SumBases(rows: seq<Line>): Money {
    if rows == [] then 0 else SumBases(rows[..|rows| - 1]) + Base(rows[|rows| - 1])
  }

  function SumOf(rows: seq<Line>, leg: LegId): Money {
    if rows == [] then 0
    else SumOf(rows[..|rows| - 1], leg) + (if rows[|rows| - 1].leg == leg then Base(rows[|rows| - 1]) else 0)
  }

  predicate HasLine(rows: seq<Line>, leg: LegId) {
    exists l | l in rows :: l.leg == leg
  }

  predicate HasPaid(rows: seq<Line>, leg: LegId) {
    exists l | l in rows :: l.leg == leg && l.status == Paid
  }

  predicate HasUnpaid(rows: seq<Line>, leg: LegId) {
    exists l | l in rows :: l.leg == leg && l.status != Paid
  }

  // ----- per leg -----

  /** A dictionary with its insertion order. */
  ghost predicate OrderedKeys(order: seq<LegId>, out: map<LegId, Earning>) {
    && (forall i, j | 0 <= i < j < |order| :: order[i] != order[j])
    && (forall k :: k in out <==> k in order)
  }

  /** `out` has an entry for exactly the legs with a row, and each entry says what its rows add up to. */
  ghost predicate AddsUp(rows: seq<Line>, out: map<LegId, Earning>) {
    && (forall leg :: leg in out <==> HasLine(rows, leg))
    && (forall leg | leg in out ::
          out[leg] == Earning(SumOf(rows, leg), HasPaid(rows, leg), HasUnpaid(rows, leg)))
  }

  method EarningsByLeg(lines: seq<Line>, legs: set<LegId>) returns (out: map<LegId, Earning>, order: seq<LegId>)
    ensures AddsUp(Selected(lines, legs), out)
    ensures OrderedKeys(order, out)
  {
    var rows := Selected(lines, legs);
    out, order := map[], [];
    for i := 0 to |rows|
      invariant AddsUp(rows[..i], out)
      invariant OrderedKeys(order, out)
    {
      RowAdded(rows, i, out, order);
      out, order := AddLine(out, order, rows[i]);
    }
    assert rows[..|rows|] == rows;
  }

  /** Enters one row: a leg seen for the first time starts from nothing. */
  method AddLine(out: map<LegId, Earning>, order: seq<LegId>, row: Line)
      returns (out': map<LegId, Earning>, order': seq<LegId>)
    ensures out' == out[row.leg := Entered(out, row)]
    ensures order' == KeyAdded(order, out, row.leg)
  {
    out', order' := out, order;
    if row.leg !in out {
      out' := out'[row.leg := Earning(0, false, false)];
      order' := order + [row.leg];
    }
    var cur := out'[row.leg];
    cur := cur.(amount := cur.amount + (if row.base.Some? then row.base.value else 0));
    if row.status == Paid {
      cur := cur.(settled := true);
    } else {
      cur := cur.(pending := true);
    }
    out' := out'[row.leg := cur];
  }

  function KeyAdded(order: seq<LegId>, out: map<LegId, Earning>, leg: LegId): seq<LegId> {
    if leg in out then order else order + [leg]
  }

  /** The entry of a row's leg after the row was added. */
  function Entered(out: map<LegId, Earning>, row: Line): Earning {
    var cur := if row.leg in out then out[row.leg] else Earning(0, false, false);
    Earning(cur.amount + Base(row), cur.settled || row.status == Paid, cur.pending || row.status != Paid)
  }

  lemma AddKey(order: seq<LegId>, out: map<LegId, Earning>, leg: LegId, e: Earning)
    requires OrderedKeys(order, out)
    ensures OrderedKeys(KeyAdded(order, out, leg), out[leg := e])
  {
    assert leg !in out ==> forall k :: k in order + [leg] <==> k in order || k == leg;
  }

  lemma RowAdded(rows: seq<Line>, i: nat, out: map<LegId, Earning>, order: seq<LegId>)
    requires i < |rows| && AddsUp(rows[..i], out) && OrderedKeys(order, out)
    ensures AddsUp(rows[..i + 1], out[rows[i].leg := Entered(out, rows[i])])
    ensures OrderedKeys(KeyAdded(order, out, rows[i].leg), out[rows[i].leg := Entered(out, rows[i])])
  {
    assert rows[..i + 1] == rows[..i] + [rows[i]];
    AddRow(rows[..i], rows[i], out);
    AddKey(order, out, rows[i].leg, Entered(out, rows[i]));
  }

  lemma AddRow(rows: seq<Line>, row: Line, out: map<LegId, Earning>)
    requires AddsUp(rows, out)
    ensures AddsUp(rows + [row], out[row.leg := Entered(out, row)])
  {
    var rows' := rows + [row];
    assert rows'[..|rows|] == rows;
    assert forall l :: l in rows' <==> l in rows || l == row;
    forall leg
      ensures SumOf(rows', leg) == SumOf(rows, leg) + (if row.leg == leg then Base(row) else 0)
      ensures HasLine(rows', leg) <==> HasLine(rows, leg) || row.leg == leg
      ensures HasPaid(rows', leg) <==> HasPaid(rows, leg) || (row.leg == leg && row.status == Paid)
      ensures HasUnpaid(rows', leg) <==> HasUnpaid(rows, leg) || (row.leg == leg && row.status != Paid)
    {
    }
    if !HasLine(rows, row.leg) {
      SumOfNone(rows, row.leg);
    }
  }

  lemma {:induction false} SumOfNone(rows: seq<Line>, leg: LegId)
    requires !HasLine(rows, leg)
    ensures SumOf(rows, leg) == 0
  {
    if rows != [] {
      var front := rows[..|rows| - 1];
      assert rows[|rows| - 1] in rows && forall l | l in front :: l in rows;
      SumOfNone(front, leg);
    }
  }

  // ----- sums over legs -----

  function Total(order: seq<LegId>, out: map<LegId, Earning>): Money
    requires forall k | k in order :: k in out
  {
    if order == [] then 0
    else
      var k := order[|order| - 1];
      assert k in order;
      Total(order[..|order| - 1], out) + out[k].amount
  }

  function Count(order: seq<LegId>, out: map<LegId, Earning>, p: Earning -> bool): nat
    requires forall k | k in order :: k in out
  {
    if order == [] then 0
    else
      var k := order[|order| - 1];
      assert k in order;
      Count(order[..|order| - 1], out, p) + (if p(out[k]) then 1 else 0)
  }

  /** The sum of `f` over legs. */
  function Sum(order: seq<LegId>, f: LegId -> Money): Money {
    if order == [] then 0 else Sum(order[..|order| - 1], f) + f(order[|order| - 1])
  }

  lemma {:induction false} SumAddsOne(order: seq<LegId>, f: LegId -> Money, g: LegId -> Money, leg: LegId, x: Money)
    requires forall i, j | 0 <= i < j < |order| :: order[i] != order[j]
    requires forall k :: g(k) == f(k) + (if k == leg then x else 0)
    ensures Sum(order, g) == Sum(order, f) + (if leg in order then x else 0)
  {
    if order != [] {
      var front, last := order[..|order| - 1], order[|order| - 1];
      SumAddsOne(front, f, g, leg, x);
      assert order == front + [last];
      assert leg in order <==> leg in front || leg == last;
    }
  }

  lemma {:induction false} SumZero(order: seq<LegId>, f: LegId -> Money)
    requires forall k :: f(k) == 0
    ensures Sum(order, f) == 0
  {
    if order != [] {
      SumZero(order[..|order| - 1], f);
    }
  }

  function LegSum(rows: seq<Line>): LegId -> Money {
    leg => SumOf(rows, leg)
  }

  /** Summing the legs' sums gives the sum of all rows: no row is lost or counted twice. */
  lemma {:induction false} LegSumsConserve(rows: seq<Line>, order: seq<LegId>)
    requires forall i, j | 0 <= i < j < |order| :: order[i] != order[j]
    requires forall l | l in rows :: l.leg in order
    ensures Sum(order, LegSum(rows)) == SumBases(rows)
  {
    if rows == [] {
      SumZero(order, LegSum(rows));
    } else {
      var front, last := rows[..|rows| - 1], rows[|rows| - 1];
      assert forall l | l in front :: l in rows;
      LegSumsConserve(front, order);
      SumAddsOne(order, LegSum(front), LegSum(rows), last.leg, Base(last));
    }
  }

  lemma {:induction false} TotalIsSum(order: seq<LegId>, out: map<LegId, Earning>, f: LegId -> Money)
    requires forall k | k in order :: k in out && out[k].amount == f(k)
    ensures Total(order, out) == Sum(order, f)
  {
    if order != [] {
      assert order[|order| - 1] in order;
      TotalIsSum(order[..|order| - 1], out, f);
    }
  }

  /** The earnings of all legs together are the bases of all their lines. */
  lemma TotalConserved(rows: seq<Line>, out: map<LegId, Earning>, order: seq<LegId>)
    requires AddsUp(rows, out) && OrderedKeys(order, out)
    ensures Total(order, out) == SumBases(rows)
  {
    forall l | l in rows
      ensures l.leg in order
    {
      assert HasLine(rows, l.leg);
    }
    LegSumsConserve(rows, order);
    TotalIsSum(order, out, LegSum(rows));
  }

  function Settled(): Earning -> bool {
    (e: Earning) => e.settled
  }

  function OnlyPending(): Earning -> bool {
    (e: Earning) => e.pending && !e.settled
  }
}
