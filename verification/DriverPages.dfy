/** The two listings of a driver's completed legs, page by page, proved against `CursorWalk`. */
module DriverPages {
  import opened CursorWalk
  import opened Earnings
  import opened Options

  datatype SettlementStatus = PaidOut | PendingPay | Unbilled

  function StatusOf(e: Option<Earning>): SettlementStatus {
    if e.None? then Unbilled else if e.value.settled then PaidOut else PendingPay
  }

  /** `Unknown` is a filter text that names no status, and so matches nothing. */
  datatype StatusFilter = Any | Only(status: SettlementStatus) | Unknown

  predicate Matches(f: StatusFilter, s: SettlementStatus) {
    match f
    case Any => true
    case Only(t) => s == t
    case Unknown => false
  }

  datatype HistoryItem = HistoryItem(leg: Id, revenue: Option<Money>)

  datatype SettlementItem = SettlementItem(leg: Id, status: SettlementStatus, amount: Option<Money>)

  datatype Listing<T> = Listing(items: seq<T>, hasMore: bool, next: Option<Id>)

  /** The earning of a leg as its payroll lines determine it. */
  ghost function EarningOf(lines: seq<Line>, leg: Id): Option<Earning> {
    var rows := Selected(lines, {leg});
    if rows == [] then None else Some(Earning(SumBases(rows), HasPaid(rows, leg), HasUnpaid(rows, leg)))
  }

  function AmountOf(e: Option<Earning>): Option<Money> {
    if e.None? then None else Some(e.value.amount)
  }

  ghost function Keeps(lines: seq<Line>, f: StatusFilter): Id -> bool {
    leg => Matches(f, StatusOf(EarningOf(lines, leg)))
  }

  // ----- the lines of one leg among those of a page -----

  lemma {:induction false} SelectOne(lines: seq<Line>, legs: set<Id>, leg: Id)
    requires leg in legs
    ensures var rows, one := Selected(lines, legs), Selected(lines, {leg});
            && SumOf(rows, leg) == SumBases(one)
            && (HasLine(rows, leg) <==> one != [])
            && (HasPaid(rows, leg) <==> HasPaid(one, leg))
            && (HasUnpaid(rows, leg) <==> HasUnpaid(one, leg))
  {
    if lines != [] {
      SelectOne(lines[1..], legs, leg);
      var first := lines[0];
      var rows, one := Selected(lines[1..], legs), Selected(lines[1..], {leg});
      if Selects(first, legs) {
        SumOfCons(first, rows, leg);
        assert forall l :: l in [first] + rows <==> l == first || l in rows;
      }
      if Selects(first, {leg}) {
        SumBasesCons(first, one);
        assert forall l :: l in [first] + one <==> l == first || l in one;
      }
    }
  }

  lemma {:induction false} SumOfCons(l: Line, rows: seq<Line>, leg: Id)
    ensures SumOf([l] + rows, leg) == (if l.leg == leg then Base(l) else 0) + SumOf(rows, leg)
  {
    if rows == [] {
      assert [l] + rows == [l];
    } else {
      assert ([l] + rows)[..|rows|] == [l] + rows[..|rows| - 1];
      SumOfCons(l, rows[..|rows| - 1], leg);
    }
  }

  lemma {:induction false} SumBasesCons(l: Line, rows: seq<Line>)
    ensures SumBases([l] + rows) == Base(l) + SumBases(rows)
  {
    if rows == [] {
      assert [l] + rows == [l];
    } else {
      assert ([l] + rows)[..|rows|] == [l] + rows[..|rows| - 1];
      SumBasesCons(l, rows[..|rows| - 1]);
    }
  }

  lemma EntryIsEarning(lines: seq<Line>, legs: set<Id>, out: map<Id, Earning>, leg: Id)
    requires AddsUp(Selected(lines, legs), out) && leg in legs
    ensures EarningOf(lines, leg) == if leg in out then Some(out[leg]) else None
  {
    SelectOne(lines, legs, leg);
    assert leg in out <==> HasLine(Selected(lines, legs), leg);
  }

  /** The line pays for the leg: its settlement is neither void nor deleted. */
  predicate Pays(l: Line, leg: Id) {
    l.leg == leg && l.active && l.status != Void
  }

  lemma {:induction false} SelectedAppend(lines: seq<Line>, l: Line, legs: set<Id>)
    ensures Selected(lines + [l], legs)
         == if l.leg in legs && Pays(l, l.leg) then Selected(lines, legs) + [l] else Selected(lines, legs)
  {
    if lines == [] {
      assert lines + [l] == [l] && [l][1..] == [];
    } else {
      assert (lines + [l])[1..] == lines[1..] + [l];
      SelectedAppend(lines[1..], l, legs);
    }
  }

  /** Line by line: one that does not pay for the leg leaves its earning alone; one that does adds its base, or
      nothing if it has none, and marks the earning as settled if it is paid and as pending if not. */
  lemma LineCounted(lines: seq<Line>, l: Line, leg: Id)
    ensures EarningOf([], leg) == None
    ensures var before, after := EarningOf(lines, leg), EarningOf(lines + [l], leg);
            if Pays(l, leg)
            then after == Some(Earning(
                   (if before.Some? then before.value.amount else 0) + (if l.base.Some? then l.base.value else 0),
                   (before.Some? && before.value.settled) || l.status == Paid,
                   (before.Some? && before.value.pending) || l.status != Paid))
            else after == before
  {
    SelectedAppend(lines, l, {leg});
    var rows := Selected(lines, {leg});
    RowEntered(rows, l, leg);
    if rows == [] {
      assert !HasPaid(rows, leg) && !HasUnpaid(rows, leg) && SumBases(rows) == 0;
    }
  }

  lemma RowEntered(rows: seq<Line>, l: Line, leg: Id)
    ensures SumBases(rows + [l]) == SumBases(rows) + Base(l)
    ensures HasPaid(rows + [l], leg) <==> HasPaid(rows, leg) || (l.leg == leg && l.status == Paid)
    ensures HasUnpaid(rows + [l], leg) <==> HasUnpaid(rows, leg) || (l.leg == leg && l.status != Paid)
  {
    assert (rows + [l])[..|rows|] == rows;
    assert forall x :: x in rows + [l] <==> x in rows || x == l;
  }

  lemma {:induction false} SelectedOnes(lines: seq<Line>, leg: Id)
    ensures forall l :: l in Selected(lines, {leg}) <==> l in lines && Pays(l, leg)
  {
    if lines != [] {
      SelectedOnes(lines[1..], leg);
      assert forall l :: l in lines <==> l == lines[0] || l in lines[1..];
    }
  }

  /** A leg is paid out as soon as one of its lines is paid, pending if it has lines but no paid one, and not billed if
      it has none; only then it shows no amount. */
  lemma StatusExact(lines: seq<Line>, leg: Id)
    ensures var e := EarningOf(lines, leg);
            && (StatusOf(e) == PaidOut <==> exists l :: l in lines && Pays(l, leg) && l.status == Paid)
            && (StatusOf(e) == Unbilled <==> forall l | l in lines :: !Pays(l, leg))
            && (StatusOf(e) == PendingPay <==>
                  (exists l :: l in lines && Pays(l, leg)) && forall l | l in lines && Pays(l, leg) :: l.status != Paid)
            && (AmountOf(e) == None <==> StatusOf(e) == Unbilled)
            && (e.Some? ==> AmountOf(e) == Some(e.value.amount))
  {
    SelectedOnes(lines, leg);
    var rows := Selected(lines, {leg});
    if rows != [] {
      assert rows[0] in rows;
    }
  }

  /** Without a filter every leg is kept, with one those in its status, and a filter that names no status keeps none. */
  lemma FilterExact(lines: seq<Line>, leg: Id, s: SettlementStatus)
    ensures Keeps(lines, Any)(leg) && !Keeps(lines, Unknown)(leg)
    ensures Keeps(lines, Only(s))(leg) <==> StatusOf(EarningOf(lines, leg)) == s
  {
  }

  // ----- the listings -----

  function HistoryIds(items: seq<HistoryItem>): seq<Id> {
    if items == [] then [] else HistoryIds(items[..|items| - 1]) + [items[|items| - 1].leg]
  }

  function SettlementIds(items: seq<SettlementItem>): seq<Id> {
    if items == [] then [] else SettlementIds(items[..|items| - 1]) + [items[|items| - 1].leg]
  }

  ghost predicate HistoryOk(lines: seq<Line>, items: seq<HistoryItem>) {
    forall i | 0 <= i < |items| :: items[i].revenue == AmountOf(EarningOf(lines, items[i].leg))
  }

  ghost predicate SettlementsOk(lines: seq<Line>, items: seq<SettlementItem>) {
    forall i | 0 <= i < |items| ::
      var e := EarningOf(lines, items[i].leg);
      items[i].status == StatusOf(e) && items[i].amount == AmountOf(e)
  }

  method HistoryItems(page: seq<Id>, lines: seq<Line>) returns (items: seq<HistoryItem>)
    ensures HistoryIds(items) == page && HistoryOk(lines, items)
  {
    var ids := set id | id in page;
    var earnings, _ := EarningsByLeg(lines, ids);
    items := [];
    for i := 0 to |page|
      invariant HistoryIds(items) == page[..i] && HistoryOk(lines, items)
    {
      var leg := page[i];
      EntryIsEarning(lines, ids, earnings, leg);
      var item := HistoryItem(leg, if leg in earnings then Some(earnings[leg].amount) else None);
      assert (items + [item])[..|items|] == items;
      items := items + [item];
    }
  }

  method SettlementItems(page: seq<Id>, lines: seq<Line>, f: StatusFilter) returns (items: seq<SettlementItem>)
    ensures SettlementIds(items) == Filter(page, Keeps(lines, f)) && SettlementsOk(lines, items)
  {
    var ids := set id | id in page;
    var earnings, _ := EarningsByLeg(lines, ids);
    items := [];
    for i := 0 to |page|
      invariant SettlementIds(items) == Filter(page[..i], Keeps(lines, f)) && SettlementsOk(lines, items)
    {
      var leg := page[i];
      EntryIsEarning(lines, ids, earnings, leg);
      FilterSnoc(page[..i], leg, Keeps(lines, f));
      assert page[..i + 1] == page[..i] + [leg];
      var e := if leg in earnings then Some(earnings[leg]) else None;
      if Matches(f, StatusOf(e)) {
        var item := SettlementItem(leg, StatusOf(e), AmountOf(e));
        assert (items + [item])[..|items|] == items;
        items := items + [item];
      }
    }
    assert page[..|page|] == page;
  }

  method ListHistory(rows: seq<Id>, lines: seq<Line>, before: Option<Id>, limit: nat) returns (r: Listing<HistoryItem>)
    ensures Page(HistoryIds(r.items), r.hasMore, r.next) == PageOf(rows, Everything(), before, limit)
    ensures HistoryOk(lines, r.items)
  {
    var fetched := Take(After(rows, before), limit + 1);
    var hasMore := |fetched| > limit;
    var page := Take(fetched, limit);
    var items := HistoryItems(page, lines);
    FilterAll(page, Everything());
    r := Listing(items, hasMore, if hasMore && items != [] then Some(items[|items| - 1].leg) else None);
  }

  method ListSettlements(rows: seq<Id>, lines: seq<Line>, before: Option<Id>, limit: nat, f: StatusFilter)
      returns (r: Listing<SettlementItem>)
    ensures Page(SettlementIds(r.items), r.hasMore, r.next) == PageOf(rows, Keeps(lines, f), before, limit)
    ensures SettlementsOk(lines, r.items)
  {
    var fetched := Take(After(rows, before), limit + 1);
    var hasMore := |fetched| > limit;
    var items := SettlementItems(Take(fetched, limit), lines, f);
    r := Listing(items, hasMore, if hasMore && items != [] then Some(items[|items| - 1].leg) else None);
  }

  // ----- a match that is never shown -----

  /** The gap is real: leg 1 is paid and leg 2 is not billed yet, so with pages of one leg the walk over the paid
      legs ends with its first page, which is empty. */
  lemma GapWitness()
    ensures var lines := [Line(1, Some(100), Paid, true)];
            var keep := Keeps(lines, Only(PaidOut));
            Shown(Walk([2, 1], keep, None, 1)) == [] && Filter([2, 1], keep) == [1]
  {
    var lines := [Line(1, Some(100), Paid, true)];
    var keep := Keeps(lines, Only(PaidOut));
    assert Selected(lines, {1}) == lines && Selected(lines, {2}) == [];
    assert HasPaid(lines, 1) by { assert lines[0] in lines; }
    assert keep(1) && !keep(2);
    assert Filter([2, 1][1..], keep) == [1] && Filter([2, 1], keep) == [1];
    FilteredWalk([2, 1], keep, 1);
    assert !NoGap([2, 1], keep, 1, 0) by {
      assert keep([2, 1][1]) && !KeptWithin([2, 1], keep, 0, 1);
    }
  }
}
