/** What the stop operations store, and which work state belongs to which stops and legs, said of the rows
    themselves. */
module StopEffects {
  import opened Legs
  import opened Options
  import opened Stops
  import opened Reorder
  import opened StopRuns

  // ----- the work state -----

  ghost predicate Active(db: Db, cid: Cid, id: StopId) {
    id in db.stops && db.stops[id].container == cid && db.stops[id].active
  }

  ghost predicate SomeStop(db: Db, cid: Cid) {
    exists id :: Active(db, cid, id)
  }

  ghost predicate SomeArrived(db: Db, cid: Cid) {
    exists id :: Active(db, cid, id) && db.stops[id].arrival.Some?
  }

  /** An active stop has arrived, and no active stop has a higher number. */
  ghost predicate LastHasArrived(db: Db, cid: Cid) {
    exists id :: Active(db, cid, id) && db.stops[id].arrival.Some?
                 && forall r | Active(db, cid, r) :: db.stops[r].seqNo <= db.stops[id].seqNo
  }

  ghost predicate SomeLeg(db: Db, cid: Cid) {
    cid in db.legs && db.legs[cid] != []
  }

  ghost predicate SomeOpenLeg(db: Db, cid: Cid) {
    cid in db.legs && exists l :: l in db.legs[cid] && l != LegCompleted
  }

  ghost predicate SomeMovingLeg(db: Db, cid: Cid) {
    cid in db.legs && LegInTransit in db.legs[cid]
  }

  lemma FactsAgree(db: Db, cid: Cid)
    ensures SomeStop(db, cid) <==> HasStops(db.stops, cid)
    ensures SomeArrived(db, cid) <==> AnyArrived(db.stops, cid)
    ensures LastHasArrived(db, cid) <==> LastArrived(db.stops, cid)
  {
    assert forall id :: Active(db, cid, id) <==> Listed(db.stops, cid, id);
    if LastHasArrived(db, cid) {
      var id :| Active(db, cid, id) && db.stops[id].arrival.Some?
                && forall r | Active(db, cid, r) :: db.stops[r].seqNo <= db.stops[id].seqNo;
      assert IsLast(db.stops, cid, id);
    }
    if LastArrived(db.stops, cid) {
      var id :| id in db.stops && IsLast(db.stops, cid, id) && db.stops[id].arrival.Some?;
      assert Active(db, cid, id);
    }
  }

  /** After a derivation a container that is not held or cancelled is in exactly one of six states:
      without stops, a draft;
      with stops but no leg, planned;
      with every leg completed, completed if its last stop has arrived and at a stop if not;
      with a leg in transit, in transit;
      otherwise, planned before the first arrival, waiting for a plan after the last, and at a stop in between. */
  lemma WorkStateExact(db: Db, cid: Cid)
    requires cid in db.work && db.work[cid] != Hold && db.work[cid] != Cancelled
    ensures var work := DeriveStep(db, cid).work;
            && cid in work
            && (work[cid] == Draft <==> !SomeStop(db, cid))
            && (work[cid] == Planned <==>
                  SomeStop(db, cid)
                  && (!SomeLeg(db, cid)
                      || (SomeOpenLeg(db, cid) && !SomeMovingLeg(db, cid) && !SomeArrived(db, cid))))
            && (work[cid] == InTransit <==> SomeStop(db, cid) && SomeMovingLeg(db, cid))
            && (work[cid] == WaitingPlan <==>
                  SomeLeg(db, cid) && SomeOpenLeg(db, cid) && !SomeMovingLeg(db, cid) && LastHasArrived(db, cid))
            && (work[cid] == AtStop <==>
                  SomeLeg(db, cid) && !SomeMovingLeg(db, cid) && !LastHasArrived(db, cid)
                  && if SomeOpenLeg(db, cid) then SomeArrived(db, cid) else SomeStop(db, cid))
            && (work[cid] == Completed <==>
                  SomeLeg(db, cid) && !SomeOpenLeg(db, cid) && LastHasArrived(db, cid))
  {
    FactsAgree(db, cid);
  }

  /** A derivation touches no other container, and none that is held or cancelled or does not exist. */
  lemma DeriveTouchesOne(db: Db, cid: Cid)
    ensures var db' := DeriveStep(db, cid);
            && db'.stops == db.stops && db'.legs == db.legs && db'.work.Keys == db.work.Keys
            && (forall c | c in db.work && c != cid :: db'.work[c] == db.work[c])
            && (cid in db.work && (db.work[cid] == Hold || db.work[cid] == Cancelled) ==> db'.work == db.work)
  {
  }

  // ----- what is stored -----

  /** All rows but one are as before. */
  ghost predicate OnlyRow(s: Table, t: Table, id: StopId) {
    id in t && (forall r | r != id :: (r in t <==> r in s) && (r in s ==> t[r] == s[r]))
  }

  /** The default number is the highest one in use, by deleted stops too, and one more; 1 in a new container. */
  lemma DefaultNumberExact(stops: Table, cid: Cid)
    ensures (forall r | r in stops :: stops[r].container != cid) ==> NextNumber(stops, cid) == 1
    ensures (exists r :: r in stops && stops[r].container == cid) ==>
              exists r :: r in stops && stops[r].container == cid && NextNumber(stops, cid) == stops[r].seqNo + 1
    ensures forall r | r in stops && stops[r].container == cid :: stops[r].seqNo < NextNumber(stops, cid)
  {
    var ns := Numbers(stops, cid);
    if r :| r in stops && stops[r].container == cid {
      assert stops[r].seqNo in ns;
      MaxExists(ns);
    }
    DefaultNumberIsFree(stops, cid, 0);
  }

  /** A reference is refused as missing or as superfluous, in that order. */
  lemma CheckPointErrors(p: Point)
    ensures var named := match p.kind case Terminal => p.terminal case Yard => p.location case Customer => p.customer;
            var others := match p.kind
              case Terminal => {p.location, p.customer}
              case Yard => {p.terminal, p.customer}
              case Customer => {p.terminal, p.location};
            && (CheckPoint(p) == Some(PointFkRequired) <==> named == None)
            && (CheckPoint(p) == Some(PointFkConflict) <==> named != None && others != {None})
            && (CheckPoint(p) == None <==> named != None && others == {None})
  {
    var others := match p.kind
      case Terminal => {p.location, p.customer}
      case Yard => {p.terminal, p.customer}
      case Customer => {p.terminal, p.location};
    assert p.kind == Terminal ==> p.location in others && p.customer in others;
    assert p.kind == Yard ==> p.terminal in others && p.customer in others;
    assert p.kind == Customer ==> p.terminal in others && p.location in others;
  }

  /** `n` is free for stop `id` of the container. */
  ghost predicate Free(stops: Table, cid: Cid, id: StopId, n: int) {
    forall r | r in stops && r != id && stops[r].container == cid :: stops[r].seqNo != n
  }

  /** A create goes through iff its point is valid, its container exists and its number, the one given or the
      default, is free; then it stores one active row with just what was asked for. */
  lemma CreateStores(db: Db, id: StopId, cid: Cid, point: Point, seqNo: Option<int>, arrival: Option<int>)
    requires id !in db.stops
    ensures var db' := Step(db, Create(id, cid, point, seqNo, arrival));
            if OneReference(point) && cid in db.work && (seqNo.Some? ==> Free(db.stops, cid, id, seqNo.value))
            then OnlyRow(db.stops, db'.stops, id) && db'.legs == db.legs
                 && db'.stops[id].container == cid && db'.stops[id].active
                 && db'.stops[id].arrival == arrival && db'.stops[id].point == point
                 && db'.stops[id].seqNo == (if seqNo.Some? then seqNo.value else NextNumber(db.stops, cid))
            else db' == db
  {
    CheckPointExact(point);
    DefaultNumberIsFree(db.stops, cid, id);
    assert seqNo.Some? ==> (Free(db.stops, cid, id, seqNo.value) <==> !Clash(db.stops, cid, id, seqNo.value));
  }

  /** A create is refused for the first of these: an invalid point, no such container, a number in use. */
  lemma CreateRefused(db: Db, id: StopId, cid: Cid, point: Point, seqNo: Option<int>)
    ensures var error := CreateError(db, id, cid, point, seqNo);
            && (!OneReference(point) ==> error == CheckPoint(point) && error.Some?)
            && (error == Some(NoContainer) <==> OneReference(point) && cid !in db.work)
            && (error == Some(DuplicateNumber) <==>
                  OneReference(point) && cid in db.work && seqNo.Some? && !Free(db.stops, cid, id, seqNo.value))
  {
    CheckPointExact(point);
    DefaultNumberIsFree(db.stops, cid, id);
    assert seqNo.Some? ==> (Free(db.stops, cid, id, seqNo.value) <==> !Clash(db.stops, cid, id, seqNo.value));
  }

  /** What a field holds after an update: what was asked for, or what it held. */
  predicate Took<T(==)>(f: Field<T>, before: T, after: T) {
    match f
    case Unset => after == before
    case Set(v) => after == v
  }

  /** An update that goes through stores every field it gives and keeps the others, except that a change of type
      empties the references it does not give. */
  lemma UpdateStores(db: Db, id: StopId, patch: Patch)
    requires UpdateError(db, id, patch).None?
    ensures var db' := Step(db, Update(id, patch));
            && id in db.stops && db.stops[id].active
            && OnlyRow(db.stops, db'.stops, id) && db'.legs == db.legs
            && var s, s' := db.stops[id], db'.stops[id];
               var p, p' := s.point, s'.point;
               && s'.container == s.container && s'.active
               && Took(patch.arrival, s.arrival, s'.arrival)
               && Took(patch.seqNo, Some(s.seqNo), Some(s'.seqNo))
               && Took(patch.kind, Some(p.kind), Some(p'.kind))
               && Took(patch.terminal, if patch.kind.Set? then None else p.terminal, p'.terminal)
               && Took(patch.location, if patch.kind.Set? then None else p.location, p'.location)
               && Took(patch.customer, if patch.kind.Set? then None else p.customer, p'.customer)
  {
  }

  /** An update is refused for the first of these: no such stop, a null type, a point its type does not allow, a
      null number, a number in use; refused, it changes nothing. */
  lemma UpdateRefused(db: Db, id: StopId, patch: Patch)
    ensures var error := UpdateError(db, id, patch);
            && (error.Some? ==> Step(db, Update(id, patch)) == db)
            && (error == Some(NotFound) <==> id !in db.stops || !db.stops[id].active)
            && (error == Some(NoPointType) <==> id in db.stops && db.stops[id].active && patch.kind == Set(None))
            && (error.None? ==>
                  OneReference(MergedPoint(db.stops[id].point, patch)) && patch.seqNo != Set(None)
                  && (patch.seqNo.Set? ==> Free(db.stops, db.stops[id].container, id, patch.seqNo.value.value)))
            && (error == Some(DuplicateNumber) ==>
                  !Free(db.stops, db.stops[id].container, id, MergedNumber(db.stops[id].seqNo, patch)))
            && (error == Some(NullNumber) ==> patch.seqNo == Set(None))
  {
    if id in db.stops {
      CheckPointExact(MergedPoint(db.stops[id].point, patch));
    }
  }

  /** A delete only switches its row off; the number stays in use. */
  lemma DeleteStores(db: Db, id: StopId)
    ensures var db' := Step(db, Delete(id));
            if id in db.stops && db.stops[id].active
            then OnlyRow(db.stops, db'.stops, id) && db'.stops[id] == db.stops[id].(active := false)
                 && db'.legs == db.legs
            else db' == db
  {
  }
}
