/** The stops of a container, their numbers, and the work state derived from them. */
module Stops {
  import opened Legs
  import opened Options

  type StopId = int
  type Cid = int

  datatype PointType = Terminal | Yard | Customer

  /** A point refers to one master row, of the kind its type says. */
  datatype Point = Point(kind: PointType, terminal: Option<int>, location: Option<int>, customer: Option<int>)

  /** A row of `container_stop`; a deleted row stays in the table, inactive. */
  datatype Stop = Stop(container: Cid, seqNo: int, active: bool, arrival: Option<int>, point: Point)

  type Table = map<StopId, Stop>

  datatype WorkState = Draft | Planned | InTransit | AtStop | WaitingPlan | Hold | Completed | Cancelled

  /** Stops of all containers, and for each container its active legs and its stored work state. */
  datatype Db = Db(stops: Table, legs: map<Cid, seq<LegStatus>>, work: map<Cid, WorkState>)

  // ----- points -----

  datatype StopError =
    | PointFkRequired | PointFkConflict | NoPointType | DuplicateNumber | NullNumber | NotFound | NoContainer

  function CheckPoint(p: Point): Option<StopError> {
    var (required, extra) := match p.kind
      case Terminal => (p.terminal, p.location.Some? || p.customer.Some?)
      case Yard => (p.location, p.terminal.Some? || p.customer.Some?)
      case Customer => (p.customer, p.terminal.Some? || p.location.Some?);
    if required.None? then Some(PointFkRequired)
    else if extra then Some(PointFkConflict)
    else None
  }

  /** Exactly one reference is filled, and it is the one the type names. */
  predicate OneReference(p: Point) {
    && (p.terminal.Some? <==> p.kind == Terminal)
    && (p.location.Some? <==> p.kind == Yard)
    && (p.customer.Some? <==> p.kind == Customer)
  }

  lemma CheckPointExact(p: Point)
    ensures CheckPoint(p) == None <==> OneReference(p)
  {
  }

  // ----- numbers -----

  predicate InContainer(stops: Table, cid: Cid, id: StopId) {
    id in stops && stops[id].container == cid
  }

  predicate Listed(stops: Table, cid: Cid, id: StopId) {
    InContainer(stops, cid, id) && stops[id].active
  }

  /** UNIQUE(container_id, sequence_no), over active and inactive rows. */
  ghost predicate UniqueNumbers(stops: Table) {
    forall a, b | a in stops && b in stops && a != b && stops[a].container == stops[b].container ::
      stops[a].seqNo != stops[b].seqNo
  }

  /** Giving stop `id` the number `n` would break the constraint. */
  predicate Clash(stops: Table, cid: Cid, id: StopId, n: int) {
    exists r | r in stops :: r != id && stops[r].container == cid && stops[r].seqNo == n
  }

  // ----- the derived work state -----

  /** The result of the stop query: the active stops of a container by ascending number. */
  predicate IsOrdered(q: seq<StopId>, stops: Table, cid: Cid) {
    && (forall i | 0 <= i < |q| :: Listed(stops, cid, q[i]))
    && (forall id | id in stops && Listed(stops, cid, id) :: id in q)
    && (forall i, j | 0 <= i < j < |q| :: stops[q[i]].seqNo < stops[q[j]].seqNo)
  }

  predicate AllCompleted(legs: seq<LegStatus>) {
    forall l | l in legs :: l == LegCompleted
  }

  /** The work state as a function of four facts. */
  function WorkStateOf(legs: seq<LegStatus>, hasStops: bool, anyArrived: bool, lastArrived: bool): WorkState {
    if !hasStops then Draft
    else if legs == [] then Planned
    else if AllCompleted(legs) then (if lastArrived then Completed else AtStop)
    else if LegInTransit in legs then InTransit
    else if !anyArrived then Planned
    else if lastArrived then WaitingPlan
    else AtStop
  }

  predicate HasStops(stops: Table, cid: Cid) {
    exists id | id in stops :: Listed(stops, cid, id)
  }

  predicate AnyArrived(stops: Table, cid: Cid) {
    exists id | id in stops :: Listed(stops, cid, id) && stops[id].arrival.Some?
  }

  predicate IsLast(stops: Table, cid: Cid, id: StopId) {
    Listed(stops, cid, id) && forall r | r in stops && Listed(stops, cid, r) :: stops[r].seqNo <= stops[id].seqNo
  }

  /** The active stop with the highest number has arrived. */
  predicate LastArrived(stops: Table, cid: Cid) {
    exists id | id in stops :: IsLast(stops, cid, id) && stops[id].arrival.Some?
  }

  function LegsOf(db: Db, cid: Cid): seq<LegStatus> {
    if cid in db.legs then db.legs[cid] else []
  }

  function Derived(db: Db, cid: Cid): WorkState {
    WorkStateOf(LegsOf(db, cid), HasStops(db.stops, cid), AnyArrived(db.stops, cid), LastArrived(db.stops, cid))
  }

  /** Hold and cancellation are set by hand and never overwritten. */
  predicate Manual(w: WorkState) {
    w == Hold || w == Cancelled
  }

  function DeriveStep(db: Db, cid: Cid): Db {
    if cid !in db.work || Manual(db.work[cid]) then db
    else db.(work := db.work[cid := Derived(db, cid)])
  }

  // ----- the derivation as the source computes it, from the query's result -----

  /** The first arrived stop of a backward scan. */
  function LastArrivedInOrder(stops: Table, q: seq<StopId>): Option<StopId>
    requires forall i | 0 <= i < |q| :: q[i] in stops
  {
    if q == [] then None
    else if stops[q[|q| - 1]].arrival.Some? then Some(q[|q| - 1])
    else LastArrivedInOrder(stops, q[..|q| - 1])
  }

  lemma {:induction false} BackwardScan(stops: Table, q: seq<StopId>)
    requires forall i | 0 <= i < |q| :: q[i] in stops
    ensures match LastArrivedInOrder(stops, q)
            case None => forall i | 0 <= i < |q| :: stops[q[i]].arrival.None?
            case Some(id) =>
              exists k | 0 <= k < |q| :: q[k] == id && stops[id].arrival.Some?
                                         && forall i | k < i < |q| :: stops[q[i]].arrival.None?
  {
    if q != [] && stops[q[|q| - 1]].arrival.None? {
      var front := q[..|q| - 1];
      BackwardScan(stops, front);
      if LastArrivedInOrder(stops, front).Some? {
        var id := LastArrivedInOrder(stops, front).value;
        var k :| 0 <= k < |front| && front[k] == id && stops[id].arrival.Some?
                 && forall i | k < i < |front| :: stops[front[i]].arrival.None?;
        assert q[k] == id && forall i | k < i < |q| :: stops[q[i]].arrival.None?;
      }
    } else if q != [] {
      assert q[|q| - 1] == LastArrivedInOrder(stops, q).value;
    }
  }

  /** On the query's result, "no stop numbered at least one above the last arrived one" says exactly that
      the stop with the highest number has arrived. */
  lemma NoNextStopIsLastArrived(stops: Table, cid: Cid, q: seq<StopId>)
    requires IsOrdered(q, stops, cid)
    ensures HasStops(stops, cid) <==> q != []
    ensures q != [] ==> (LastArrived(stops, cid) <==> stops[q[|q| - 1]].arrival.Some?)
    ensures AnyArrived(stops, cid) <==> LastArrivedInOrder(stops, q).Some?
    ensures var last := LastArrivedInOrder(stops, q);
            last.Some? ==> last.value in stops
                           && (LastArrived(stops, cid)
                               <==> !exists i | 0 <= i < |q| :: stops[q[i]].seqNo >= stops[last.value].seqNo + 1)
  {
    BackwardScan(stops, q);
    if q != [] {
      assert IsLast(stops, cid, q[|q| - 1]);
    }
  }
}
