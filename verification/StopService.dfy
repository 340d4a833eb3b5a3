/** The stop service, row by row, proved against the steps of `StopRuns`. */
module StopService {
  import opened Legs
  import opened Options
  import opened Stops
  import opened Reorder
  import opened StopRuns

  datatype Saved = Saved(id: StopId) | Failed(error: StopError)

  /** `q` lists exactly the stops `ids`, by ascending number. */
  ghost predicate Orders(q: seq<StopId>, stops: Table, ids: set<StopId>) {
    && (forall i | 0 <= i < |q| :: q[i] in stops && q[i] in ids)
    && (forall id | id in ids :: id in q)
    && (forall i, j | 0 <= i < j < |q| :: stops[q[i]].seqNo < stops[q[j]].seqNo)
  }

  /** The query has a result: the stops of a container can be put in ascending order. */
  lemma {:induction false} OrderExists(stops: Table, cid: Cid, ids: set<StopId>)
    requires UniqueNumbers(stops) && forall id | id in ids :: Listed(stops, cid, id)
    ensures exists q :: Orders(q, stops, ids)
    decreases ids
  {
    if id0 :| id0 in ids {
      var ns := set id | id in ids :: stops[id].seqNo;
      assert stops[id0].seqNo in ns;
      MaxExists(ns);
      var top :| top in ns && forall x | x in ns :: x <= top;
      var last :| last in ids && stops[last].seqNo == top;
      OrderExists(stops, cid, ids - {last});
      var q :| Orders(q, stops, ids - {last});
      forall id | id in ids
        ensures stops[id].seqNo <= top
      {
        assert stops[id].seqNo in ns;
      }
      assert forall i | 0 <= i < |q| :: q[i] in ids && q[i] != last;
      assert Orders(q + [last], stops, ids);
    } else {
      assert Orders([], stops, ids);
    }
  }

  class StopService {
    var stops: Table
    var legs: map<Cid, seq<LegStatus>>
    var work: map<Cid, WorkState>

    function View(): Db
      reads this
    {
      Db(stops, legs, work)
    }

    constructor (stops: Table, legs: map<Cid, seq<LegStatus>>, work: map<Cid, WorkState>)
      ensures View() == Db(stops, legs, work)
    {
      this.stops, this.legs, this.work := stops, legs, work;
    }

    method ListByContainer(cid: Cid) returns (q: seq<StopId>)
      requires UniqueNumbers(stops)
      ensures IsOrdered(q, stops, cid)
    {
      ghost var ids := set id | id in stops && Listed(stops, cid, id);
      OrderExists(stops, cid, ids);
      ghost var q0 :| Orders(q0, stops, ids);
      assert IsOrdered(q0, stops, cid);
      q :| IsOrdered(q, stops, cid);
    }

    method NextSequenceNo(cid: Cid) returns (n: int)
      ensures n == NextNumber(stops, cid)
    {
      var ns := Numbers(stops, cid);
      if exists x :: x in ns {
        MaxExists(ns);
        var m :| m in ns && forall x | x in ns :: x <= m;
        return (if m == 0 then 0 else m) + 1;
      }
      return 1;
    }

    /** Recomputes and stores the work state; the result tells the new state if it changed. */
    method DeriveAndSaveState(cid: Cid) returns (changed: Option<WorkState>)
      requires UniqueNumbers(stops)
      modifies this`work
      ensures View() == DeriveStep(old(View()), cid)
      ensures changed.Some? <==> work != old(work)
      ensures changed.Some? ==> changed == Some(Derived(old(View()), cid))
    {
      if cid !in work || work[cid] == Hold || work[cid] == Cancelled {
        return None;
      }
      var q := ListByContainer(cid);
      NoNextStopIsLastArrived(stops, cid, q);
      var newState: WorkState;
      if q == [] {
        newState := Draft;
      } else {
        var ls := if cid in legs then legs[cid] else [];
        if ls == [] {
          newState := Planned;
        } else if forall l | l in ls :: l == LegCompleted {
          newState := if stops[q[|q| - 1]].arrival.Some? then Completed else AtStop;
        } else if exists l | l in ls :: l == LegInTransit {
          newState := InTransit;
        } else {
          var last := LastArrivedInOrder(stops, q);
          if last.None? {
            newState := Planned;
          } else {
            var nextSeq := stops[last.value].seqNo + 1;
            var hasNext := exists i | 0 <= i < |q| :: stops[q[i]].seqNo >= nextSeq;
            newState := if hasNext then AtStop else WaitingPlan;
          }
        }
      }
      assert newState == Derived(View(), cid);
      if work[cid] != newState {
        work := work[cid := newState];
        return Some(newState);
      }
      assert work[cid := newState] == work;
      return None;
    }

    method Create(id: StopId, cid: Cid, point: Point, seqNo: Option<int>, arrival: Option<int>) returns (r: Saved)
      requires GoodTable(stops) && id !in stops
      modifies this
      ensures View() == Step(old(View()), Event.Create(id, cid, point, seqNo, arrival))
      ensures var error := old(CreateError(View(), id, cid, point, seqNo));
              r == if error.Some? then Failed(error.value) else Saved(id)
      ensures GoodTable(stops)
    {
      StepGood(View(), Event.Create(id, cid, point, seqNo, arrival));
      var error := CheckPoint(point);
      if error.Some? {
        return Failed(error.value);
      }
      var n;
      if seqNo.Some? {
        n := seqNo.value;
      } else {
        n := NextSequenceNo(cid);
      }
      if cid !in work {
        return Failed(NoContainer);
      }
      if Clash(stops, cid, id, n) {
        return Failed(DuplicateNumber);
      }
      InsertKeepsUnique(stops, id, Stop(cid, n, true, arrival, point));
      stops := stops[id := Stop(cid, n, true, arrival, point)];
      var _ := DeriveAndSaveState(cid);
      r := Saved(id);
    }

    method Update(id: StopId, patch: Patch) returns (r: Saved)
      requires GoodTable(stops)
      modifies this
      ensures View() == Step(old(View()), Event.Update(id, patch))
      ensures var error := old(UpdateError(View(), id, patch));
              r == if error.Some? then Failed(error.value) else Saved(id)
      ensures GoodTable(stops)
    {
      StepGood(View(), Event.Update(id, patch));
      if id !in stops || !stops[id].active {
        return Failed(NotFound);
      }
      var row := stops[id];
      if patch.kind == Set(None) {
        return Failed(NoPointType);
      }
      var point := MergedPoint(row.point, patch);
      var error := CheckPoint(point);
      if error.Some? {
        return Failed(error.value);
      }
      if patch.seqNo == Set(None) {
        return Failed(NullNumber);
      }
      var n := MergedNumber(row.seqNo, patch);
      if Clash(stops, row.container, id, n) {
        return Failed(DuplicateNumber);
      }
      InsertKeepsUnique(stops, id, Patched(row, patch));
      stops := stops[id := row.(seqNo := n, arrival := Chosen(patch.arrival, row.arrival), point := point)];
      var _ := DeriveAndSaveState(row.container);
      r := Saved(id);
    }

    method Delete(id: StopId)
      requires GoodTable(stops)
      modifies this
      ensures View() == Step(old(View()), Event.Delete(id))
      ensures GoodTable(stops)
    {
      StepGood(View(), Event.Delete(id));
      if id in stops && stops[id].active {
        var row := stops[id];
        stops := stops[id := row.(active := false)];
        var _ := DeriveAndSaveState(row.container);
      }
    }

    /** UPDATE of one stop's number; the database refuses a number in use. */
    method UpdateNumber(cid: Cid, id: StopId, n: int) returns (done: bool)
      modifies this`stops
      ensures done <==> MaySet(old(stops), cid, id, n)
      ensures stops == if done then SetNumber(old(stops), cid, id, n) else old(stops)
    {
      if !InContainer(stops, cid, id) {
        return true;
      }
      if Clash(stops, cid, id, n) {
        return false;
      }
      stops := stops[id := stops[id].(seqNo := n)];
      return true;
    }

    /** Parks every named stop, then gives each its target.  A refused UPDATE rolls everything back.
        Returns the stops in their new order. */
    method Reorder(cid: Cid, items: seq<Move>) returns (r: Option<seq<StopId>>)
      requires UniqueNumbers(stops)
      modifies this
      ensures View() == Step(old(View()), Event.Reorder(cid, items))
      ensures r.Some? <==> Reorderable(old(stops), cid, items)
      ensures r.Some? && items != [] ==> IsOrdered(r.value, stops, cid)
      ensures items == [] ==> r == Some([])
    {
      if items == [] {
        return Some([]);
      }
      ReorderableIffAllPass(stops, cid, items);
      var before := stops;
      var done := ParkAll(cid, items);
      if done {
        done := PlaceAll(cid, items, before);
      }
      if !done {
        stops := before;
        return None;
      }
      UniqueThroughout(before, cid, items, |items|);
      var rows := ListByContainer(cid);
      var _ := DeriveAndSaveState(cid);
      r := Some(rows);
    }

    method ParkAll(cid: Cid, items: seq<Move>) returns (done: bool)
      modifies this`stops
      ensures done <==> forall k | 0 <= k < |items| ::
                          MaySet(ParkedTable(old(stops), cid, items, k), cid, items[k].id, Parking(k))
      ensures done ==> stops == ParkedTable(old(stops), cid, items, |items|)
    {
      for offset := 0 to |items|
        invariant stops == ParkedTable(old(stops), cid, items, offset)
        invariant forall k | 0 <= k < offset ::
                    MaySet(ParkedTable(old(stops), cid, items, k), cid, items[k].id, Parking(k))
      {
        done := UpdateNumber(cid, items[offset].id, -(10000 + offset));
        if !done {
          return;
        }
      }
      done := true;
    }

    method PlaceAll(cid: Cid, items: seq<Move>, ghost before: Table) returns (done: bool)
      requires stops == ParkedTable(before, cid, items, |items|)
      modifies this`stops
      ensures done <==> forall k | 0 <= k < |items| ::
                          MaySet(PlacedTable(before, cid, items, k), cid, items[k].id, items[k].target)
      ensures done ==> stops == PlacedTable(before, cid, items, |items|)
    {
      for k := 0 to |items|
        invariant stops == PlacedTable(before, cid, items, k)
        invariant forall i | 0 <= i < k ::
                    MaySet(PlacedTable(before, cid, items, i), cid, items[i].id, items[i].target)
      {
        done := UpdateNumber(cid, items[k].id, items[k].target);
        if !done {
          return;
        }
      }
      done := true;
    }
  }

  lemma InsertKeepsUnique(stops: Table, id: StopId, row: Stop)
    requires UniqueNumbers(stops) && !Clash(stops, row.container, id, row.seqNo)
    ensures UniqueNumbers(stops[id := row])
  {
  }
}
