/** The stop operations as steps on the database, and what every run of them keeps. */
module StopRuns {
  import opened Legs
  import opened Options
  import opened Stops
  import opened Reorder

  // ----- steps -----

  /** The numbers in use in a container, by active and deleted stops. */
  function Numbers(stops: Table, cid: Cid): set<int> {
    set r | r in stops && stops[r].container == cid :: stops[r].seqNo
  }

  lemma {:induction false} MaxExists(ns: set<int>)
    requires exists x :: x in ns
    ensures exists m :: m in ns && forall x | x in ns :: x <= m
  {
    var n :| n in ns;
    var rest := ns - {n};
    if exists x :: x in rest {
      MaxExists(rest);
      var m :| m in rest && forall x | x in rest :: x <= m;
      var top := if m < n then n else m;
      assert top in ns;
      forall x | x in ns
        ensures x <= top
      {
        assert x == n || x in rest;
      }
    } else {
      forall x | x in ns
        ensures x <= n
      {
        assert x == n || x in rest;
      }
    }
  }

  /** One above the highest number in use, counting deleted stops; 1 for an empty container. */
  ghost function NextNumber(stops: Table, cid: Cid): int {
    var ns := Numbers(stops, cid);
    if exists x :: x in ns then
      MaxExists(ns);
      var m :| m in ns && forall x | x in ns :: x <= m;
      m + 1
    else 1
  }

  /** A field a request may leave out. */
  datatype Field<+T> = Unset | Set(value: T)

  function Chosen<T>(f: Field<T>, other: T): T {
    match f
    case Unset => other
    case Set(v) => v
  }

  /** A request may give a type or a number as null; the row cannot hold either. */
  datatype Patch = Patch(
    kind: Field<Option<PointType>>, terminal: Field<Option<int>>, location: Field<Option<int>>,
    customer: Field<Option<int>>, seqNo: Field<Option<int>>, arrival: Field<Option<int>>)

  /** A change of type sets all three references anew; otherwise only those given change. */
  function MergedPoint(p: Point, patch: Patch): Point {
    if patch.kind.Set? && patch.kind.value.Some? then
      Point(patch.kind.value.value, Chosen(patch.terminal, None), Chosen(patch.location, None),
            Chosen(patch.customer, None))
    else
      Point(p.kind, Chosen(patch.terminal, p.terminal), Chosen(patch.location, p.location),
            Chosen(patch.customer, p.customer))
  }

  function MergedNumber(n: int, patch: Patch): int {
    if patch.seqNo.Set? && patch.seqNo.value.Some? then patch.seqNo.value.value else n
  }

  ghost function CreateNumber(db: Db, cid: Cid, seqNo: Option<int>): int {
    if seqNo.Some? then seqNo.value else NextNumber(db.stops, cid)
  }

  ghost function CreateError(db: Db, id: StopId, cid: Cid, point: Point, seqNo: Option<int>): Option<StopError> {
    if CheckPoint(point).Some? then CheckPoint(point)
    else if cid !in db.work then Some(NoContainer)
    else if Clash(db.stops, cid, id, CreateNumber(db, cid, seqNo)) then Some(DuplicateNumber)
    else None
  }

  ghost function CreateStep(db: Db, id: StopId, cid: Cid, point: Point, seqNo: Option<int>, arrival: Option<int>): Db {
    if CreateError(db, id, cid, point, seqNo).Some? then db
    else DeriveStep(db.(stops := db.stops[id := Stop(cid, CreateNumber(db, cid, seqNo), true, arrival, point)]), cid)
  }

  /** A null type has no required reference to look up, and a null number breaks the NOT NULL constraint. */
  function UpdateError(db: Db, id: StopId, patch: Patch): Option<StopError> {
    if id !in db.stops || !db.stops[id].active then Some(NotFound)
    else
      var s := db.stops[id];
      if patch.kind == Set(None) then Some(NoPointType)
      else if CheckPoint(MergedPoint(s.point, patch)).Some? then CheckPoint(MergedPoint(s.point, patch))
      else if patch.seqNo == Set(None) then Some(NullNumber)
      else if Clash(db.stops, s.container, id, MergedNumber(s.seqNo, patch)) then Some(DuplicateNumber)
      else None
  }

  function Patched(s: Stop, patch: Patch): Stop {
    s.(seqNo := MergedNumber(s.seqNo, patch), arrival := Chosen(patch.arrival, s.arrival),
       point := MergedPoint(s.point, patch))
  }

  function UpdateStep(db: Db, id: StopId, patch: Patch): Db {
    if UpdateError(db, id, patch).Some? then db
    else DeriveStep(db.(stops := db.stops[id := Patched(db.stops[id], patch)]), db.stops[id].container)
  }

  /** A stop already deleted, or never there, changes nothing. */
  function DeleteStep(db: Db, id: StopId): Db {
    if id !in db.stops || !db.stops[id].active then db
    else DeriveStep(db.(stops := db.stops[id := db.stops[id].(active := false)]), db.stops[id].container)
  }

  ghost function ReorderStep(db: Db, cid: Cid, items: seq<Move>): Db {
    if items == [] || !Reorderable(db.stops, cid, items) then db
    else DeriveStep(db.(stops := PlacedTable(db.stops, cid, items, |items|)), cid)
  }

  // ----- runs -----

  /** Besides the service's own operations: a change of the container's legs, which derives the work state,
      and the manual switch to hold or cancelled. */
  datatype Event =
    | Create(id: StopId, cid: Cid, point: Point, seqNo: Option<int>, arrival: Option<int>)
    | Update(id: StopId, patch: Patch)
    | Delete(id: StopId)
    | Reorder(cid: Cid, items: seq<Move>)
    | LegsChange(cid: Cid, legs: seq<LegStatus>)
    | Switch(cid: Cid, to: WorkState)

  ghost function Step(db: Db, e: Event): Db {
    match e
    case Create(id, cid, point, seqNo, arrival) => CreateStep(db, id, cid, point, seqNo, arrival)
    case Update(id, patch) => UpdateStep(db, id, patch)
    case Delete(id) => DeleteStep(db, id)
    case Reorder(cid, items) => ReorderStep(db, cid, items)
    case LegsChange(cid, legs) => DeriveStep(db.(legs := db.legs[cid := legs]), cid)
    case Switch(cid, to) => if cid in db.work && Manual(to) then db.(work := db.work[cid := to]) else db
  }

  /** New rows get fresh ids. */
  predicate FreshEvent(db: Db, e: Event) {
    e.Create? ==> e.id !in db.stops
  }

  ghost function Run(db: Db, es: seq<Event>): Db
    decreases es
  {
    if es == [] then db else Run(Step(db, es[0]), es[1..])
  }

  ghost predicate FreshRun(db: Db, es: seq<Event>)
    decreases es
  {
    es != [] ==> FreshEvent(db, es[0]) && FreshRun(Step(db, es[0]), es[1..])
  }

  /** Containers without stops or legs. */
  function Empty(cids: set<Cid>): Db {
    Db(map[], map[], map c | c in cids :: Draft)
  }

  // ----- what a run keeps -----

  ghost predicate GoodTable(stops: Table) {
    UniqueNumbers(stops) && forall id | id in stops :: OneReference(stops[id].point)
  }

  /** The stored work state is the derived one, unless it was set by hand. */
  ghost predicate Agrees(db: Db, cid: Cid) {
    cid in db.work ==> Manual(db.work[cid]) || db.work[cid] == Derived(db, cid)
  }

  ghost predicate Inv(db: Db) {
    GoodTable(db.stops) && forall cid :: Agrees(db, cid)
  }

  /** Two tables hold the same stops of a container. */
  ghost predicate SameStops(s: Table, t: Table, cid: Cid) {
    forall id :: (InContainer(s, cid, id) <==> InContainer(t, cid, id)) && (InContainer(s, cid, id) ==> s[id] == t[id])
  }

  lemma DerivedFrame(db: Db, db': Db, cid: Cid)
    requires SameStops(db.stops, db'.stops, cid) && LegsOf(db, cid) == LegsOf(db', cid)
    ensures Derived(db, cid) == Derived(db', cid)
  {
    assert HasStops(db.stops, cid) <==> HasStops(db'.stops, cid);
    assert AnyArrived(db.stops, cid) <==> AnyArrived(db'.stops, cid);
    forall id
      ensures IsLast(db.stops, cid, id) <==> IsLast(db'.stops, cid, id)
    {
    }
  }

  /** After a derivation the container agrees, whatever the stored state was before. */
  lemma DeriveAgrees(db: Db, cid: Cid)
    ensures Agrees(DeriveStep(db, cid), cid)
    ensures cid in db.work && Manual(db.work[cid]) ==> DeriveStep(db, cid).work == db.work
    ensures DeriveStep(db, cid).stops == db.stops && DeriveStep(db, cid).legs == db.legs
  {
  }

  /** A change that touches one container and then derives it keeps the agreement of all. */
  lemma ChangeAgrees(db: Db, changed: Db, cid: Cid)
    requires forall c :: Agrees(db, c)
    requires changed.work == db.work
    requires forall c | c != cid :: SameStops(db.stops, changed.stops, c) && LegsOf(db, c) == LegsOf(changed, c)
    ensures forall c :: Agrees(DeriveStep(changed, cid), c)
  {
    var after := DeriveStep(changed, cid);
    DeriveAgrees(changed, cid);
    forall c
      ensures Agrees(after, c)
    {
      if c != cid {
        assert Agrees(db, c);
        DerivedFrame(db, after, c);
      }
    }
  }

  // ----- numbers -----

  /** The default number is above every number in use, so a create without a number never collides. */
  lemma DefaultNumberIsFree(stops: Table, cid: Cid, id: StopId)
    ensures forall r | InContainer(stops, cid, r) :: stops[r].seqNo < NextNumber(stops, cid)
    ensures !Clash(stops, cid, id, NextNumber(stops, cid))
    ensures (forall r | r in stops :: stops[r].seqNo > 0) ==> NextNumber(stops, cid) > 0
  {
    var ns := Numbers(stops, cid);
    forall r | InContainer(stops, cid, r)
      ensures stops[r].seqNo in ns
    {
    }
    if exists x :: x in ns {
      MaxExists(ns);
    }
  }

  lemma ReorderGood(stops: Table, cid: Cid, items: seq<Move>)
    requires GoodTable(stops) && Reorderable(stops, cid, items)
    ensures GoodTable(PlacedTable(stops, cid, items, |items|))
  {
    ReorderableIffAllPass(stops, cid, items);
    UniqueThroughout(stops, cid, items, |items|);
    ReorderFrame(stops, cid, items);
  }

  /** A reorder changes nothing but numbers, and those only in its own container. */
  lemma ReorderFrame(stops: Table, cid: Cid, items: seq<Move>)
    ensures var t := PlacedTable(stops, cid, items, |items|);
            && (forall c | c != cid :: SameStops(stops, t, c))
            && (forall id :: id in t <==> id in stops)
            && (forall id | id in t :: t[id] == stops[id].(seqNo := t[id].seqNo))
  {
    forall id
      ensures var t := PlacedTable(stops, cid, items, |items|);
              (id in t <==> id in stops)
              && (id in t ==> t[id] == stops[id].(seqNo := Placed(stops, cid, items, |items|, id)))
    {
      PlacedForm(stops, cid, items, |items|, id);
    }
  }

  lemma StepGood(db: Db, e: Event)
    requires GoodTable(db.stops) && FreshEvent(db, e)
    ensures GoodTable(Step(db, e).stops)
  {
    match e
    case Create(id, cid, point, seqNo, arrival) =>
      DefaultNumberIsFree(db.stops, cid, id);
      CheckPointExact(point);
    case Update(id, patch) =>
      if id in db.stops {
        CheckPointExact(MergedPoint(db.stops[id].point, patch));
      }
    case Delete(_) =>
    case Reorder(cid, items) =>
      if items != [] && Reorderable(db.stops, cid, items) {
        ReorderGood(db.stops, cid, items);
      }
    case LegsChange(_, _) =>
    case Switch(_, _) =>
  }

  lemma StepAgrees(db: Db, e: Event)
    requires (forall c :: Agrees(db, c)) && FreshEvent(db, e)
    ensures forall c :: Agrees(Step(db, e), c)
  {
    match e
    case Create(id, cid, point, seqNo, arrival) =>
      if CreateError(db, id, cid, point, seqNo).None? {
        ChangeAgrees(db, db.(stops := db.stops[id := Stop(cid, CreateNumber(db, cid, seqNo), true, arrival, point)]), cid);
      }
    case Update(id, patch) =>
      if UpdateError(db, id, patch).None? {
        ChangeAgrees(db, db.(stops := db.stops[id := Patched(db.stops[id], patch)]), db.stops[id].container);
      }
    case Delete(id) =>
      if id in db.stops && db.stops[id].active {
        ChangeAgrees(db, db.(stops := db.stops[id := db.stops[id].(active := false)]), db.stops[id].container);
      }
    case Reorder(cid, items) =>
      if items != [] && Reorderable(db.stops, cid, items) {
        ReorderFrame(db.stops, cid, items);
        ChangeAgrees(db, db.(stops := PlacedTable(db.stops, cid, items, |items|)), cid);
      }
    case LegsChange(cid, legs) =>
      ChangeAgrees(db, db.(legs := db.legs[cid := legs]), cid);
    case Switch(cid, to) =>
      forall c
        ensures Agrees(Step(db, e), c)
      {
        assert Agrees(db, c);
        DerivedFrame(db, Step(db, e), c);
      }
  }

  /** Every run, whatever numbers its requests ask for, keeps all numbers of a container distinct, every point
      with exactly the reference its type names, and every work state in agreement. */
  lemma {:induction false} RunKeepsInv(db: Db, es: seq<Event>)
    requires Inv(db) && FreshRun(db, es)
    ensures Inv(Run(db, es))
    decreases es
  {
    if es != [] {
      StepGood(db, es[0]);
      StepAgrees(db, es[0]);
      RunKeepsInv(Step(db, es[0]), es[1..]);
    }
  }

  lemma EmptyInv(cids: set<Cid>)
    ensures Inv(Empty(cids)) && Positive(Empty(cids).stops)
  {
  }

  /** In every state a create without a number is refused only for its point or its container. */
  lemma DefaultCreateNeverCollides(db: Db, id: StopId, cid: Cid, point: Point)
    ensures CreateError(db, id, cid, point, None) != Some(DuplicateNumber)
  {
    DefaultNumberIsFree(db.stops, cid, id);
  }

  // ----- positive numbers -----

  predicate Positive(stops: Table) {
    forall id | id in stops :: stops[id].seqNo > 0
  }

  /** The numbers a request gives are positive. */
  predicate AsksPositive(e: Event) {
    match e
    case Create(_, _, _, seqNo, _) => seqNo.Some? ==> seqNo.value > 0
    case Update(_, patch) => patch.seqNo.Set? && patch.seqNo.value.Some? ==> patch.seqNo.value.value > 0
    case Reorder(_, items) => forall i | 0 <= i < |items| :: items[i].target > 0
    case _ => true
  }

  lemma PlacedPositive(stops: Table, cid: Cid, items: seq<Move>)
    requires Positive(stops) && forall i | 0 <= i < |items| :: items[i].target > 0
    ensures Positive(PlacedTable(stops, cid, items, |items|))
  {
    var t := PlacedTable(stops, cid, items, |items|);
    forall id | id in t
      ensures t[id].seqNo > 0
    {
      PlacedForm(stops, cid, items, |items|, id);
    }
  }

  lemma StepPositive(db: Db, e: Event)
    requires Positive(db.stops) && AsksPositive(e)
    ensures Positive(Step(db, e).stops)
  {
    match e
    case Create(id, cid, _, _, _) => DefaultNumberIsFree(db.stops, cid, id);
    case Update(_, _) =>
    case Delete(_) =>
    case Reorder(cid, items) => PlacedPositive(db.stops, cid, items);
    case LegsChange(_, _) =>
    case Switch(_, _) =>
  }

  /** As long as requests ask for positive numbers, all numbers stay positive: default numbers and the parking
      of a reorder never leave others behind. */
  lemma {:induction false} RunKeepsPositive(db: Db, es: seq<Event>)
    requires Positive(db.stops) && forall i | 0 <= i < |es| :: AsksPositive(es[i])
    ensures Positive(Run(db, es).stops)
    decreases es
  {
    if es != [] {
      StepPositive(db, es[0]);
      RunKeepsPositive(Step(db, es[0]), es[1..]);
    }
  }

  /** After such a run a reorder to positive numbers that names no stop twice succeeds iff its targets fit. */
  lemma OrdinaryReorder(cids: set<Cid>, es: seq<Event>, cid: Cid, items: seq<Move>)
    requires forall i | 0 <= i < |es| :: AsksPositive(es[i])
    requires DistinctIds(items) && forall i | 0 <= i < |items| :: items[i].target > 0
    ensures var stops := Run(Empty(cids), es).stops;
            Reorderable(stops, cid, items) <==> TargetsFit(stops, cid, items)
  {
    var stops := Run(Empty(cids), es).stops;
    RunKeepsPositive(Empty(cids), es);
    AboveParkingIsFree(stops, cid, items);
    ReorderableIffTargetsFit(stops, cid, items);
  }

  // ----- work states -----

  /** A manual state survives every operation except the next manual switch. */
  lemma {:induction false} ManualSurvives(db: Db, es: seq<Event>, cid: Cid)
    requires cid in db.work && Manual(db.work[cid])
    requires forall i | 0 <= i < |es| :: !(es[i].Switch? && es[i].cid == cid)
    ensures cid in Run(db, es).work && Run(db, es).work[cid] == db.work[cid]
    decreases es
  {
    if es != [] {
      var db' := Step(db, es[0]);
      assert cid in db'.work && db'.work[cid] == db.work[cid];
      ManualSurvives(db', es[1..], cid);
    }
  }

  /** A reorder that leaves the arrival of the last stop as it was leaves the derived work state as it was, and
      so, where they agreed before, every stored one. */
  lemma ReorderKeepsWorkState(db: Db, cid: Cid, items: seq<Move>)
    requires Reorderable(db.stops, cid, items)
    requires var t := PlacedTable(db.stops, cid, items, |items|);
             LastArrived(t, cid) <==> LastArrived(db.stops, cid)
    ensures Derived(ReorderStep(db, cid, items), cid) == Derived(db, cid)
    ensures Agrees(db, cid) ==> ReorderStep(db, cid, items).work == db.work
  {
    var t := PlacedTable(db.stops, cid, items, |items|);
    ReorderFrame(db.stops, cid, items);
    assert forall id :: Listed(t, cid, id) <==> Listed(db.stops, cid, id);
    assert HasStops(t, cid) <==> HasStops(db.stops, cid);
    assert AnyArrived(t, cid) <==> AnyArrived(db.stops, cid);
    assert Derived(db.(stops := t), cid) == Derived(db, cid);
  }
}
