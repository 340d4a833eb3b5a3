/** What each request does to a delivery order and its legs, and which status belongs to which legs, said of the
    order and the legs themselves. */
module OrderEffects {
  import opened DeliveryOrders
  import opened Legs
  import opened Options

  // ----- the derived status -----

  /** The leg is waiting: it is not deleted, has no driver, and is pending or assigned. */
  predicate Waiting(l: Leg) {
    l.active && l.driver == None && l.status in {LegPending, LegAssigned}
  }

  /** An order that is neither held nor cancelled and is still being dispatched takes its status from its legs:
      planning if it has none, dispatching if one waits for a driver, dispatched if none does. */
  lemma DispatchExact(db: Db, legs: map<LegId, Leg>)
    requires !db.order.onHold && db.order.cancelledAt == None
    requires db.order.status in {Planning, Dispatching, Dispatched}
    ensures var status := Step(db, LegsChange(legs)).order.status;
            && (status == Planning <==> forall id | id in legs :: !legs[id].active)
            && (status == Dispatching <==> exists id :: id in legs && Waiting(legs[id]))
            && (status == Dispatched <==>
                  (exists id :: id in legs && legs[id].active)
                  && forall id | id in legs && legs[id].active ::
                       legs[id].driver != None || legs[id].status !in {LegPending, LegAssigned})
  {
    assert forall id | id in legs :: Waiting(legs[id]) <==> NeedsDriver(legs[id]);
    if AnyNeedsDriver(legs) {
      var id :| id in legs && NeedsDriver(legs[id]);
      assert Waiting(legs[id]);
    }
    if id :| id in legs && Waiting(legs[id]) {
      assert NeedsDriver(legs[id]);
    }
  }

  /** Any other order keeps its status when its legs change, and nothing but the status ever follows the legs. */
  lemma LegsChangeKeeps(db: Db, legs: map<LegId, Leg>)
    ensures var db' := Step(db, LegsChange(legs));
            && db'.legs == legs && db'.order == db.order.(status := db'.order.status)
            && ((db.order.onHold || db.order.cancelledAt != None || db.order.status !in {Planning, Dispatching, Dispatched})
                ==> db'.order == db.order)
  {
  }

  /** After any run, giving the last waiting leg a driver moves the order to dispatched; giving one of several
      leaves it dispatching. */
  lemma LastDriverDispatches(db: Db, es: seq<Event>, id: LegId, driver: DriverId)
    requires var r := Run(db, es);
             && !r.order.onHold && r.order.cancelledAt == None && r.order.status in {Planning, Dispatching, Dispatched}
             && id in r.legs && Waiting(r.legs[id])
    ensures var legs := Run(db, es).legs;
            var given := LegsChange(legs[id := legs[id].(driver := Some(driver))]);
            Run(db, es + [given]).order.status
            == if exists other :: other != id && other in legs && Waiting(legs[other]) then Dispatching else Dispatched
  {
    var r := Run(db, es);
    var legs := r.legs[id := r.legs[id].(driver := Some(driver))];
    RunSnoc(db, es, LegsChange(legs));
    DispatchExact(r, legs);
    assert legs[id].active;
    if other :| other != id && other in r.legs && Waiting(r.legs[other]) {
      assert other in legs && Waiting(legs[other]);
    }
  }

  // ----- the transition graph -----

  function Position(s: Status): nat {
    match s
    case Planning => 0
    case Dispatching => 1
    case Dispatched => 2
    case YardStaged => 3
    case FinalDelivery => 4
    case EmptyStaged => 5
    case Completed => 6
  }

  /** Within the dispatch phase a transition may go anywhere.  From there on it goes back one status at a time; it
      goes forward to the next status, past yard staged unless still planning, and past empty staged. */
  predicate MayGo(s: Status, t: Status) {
    var i, j := Position(s), Position(t);
    if i <= 2 && j <= 2 then i != j
    else if j < i then j == i - 1
    else if i <= 2 then i >= 1 && j <= 4
    else i < j <= (if s == FinalDelivery then i + 2 else i + 1)
  }

  lemma GraphExact(s: Status, t: Status)
    ensures t in Allowed(s) <==> MayGo(s, t)
  {
  }

  /** A transition by hand sets exactly the status asked for if it may go there, held and cancelled orders included,
      and otherwise changes nothing. */
  lemma TransitionExact(db: Db, target: Status)
    ensures var db' := Step(db, Transition(target));
            && db'.legs == db.legs && db'.order == db.order.(status := db'.order.status)
            && db'.order.status == if MayGo(db.order.status, target) then target else db.order.status
  {
    GraphExact(db.order.status, target);
  }

  /** Every status can be reached from every other. */
  lemma GraphConnected(s: Status, t: Status) returns (p: seq<Status>)
    ensures IsWalk(p) && |p| >= 1 && p[0] == s && p[|p| - 1] == t
    decreases if Position(s) < Position(t) then Position(t) - Position(s) else Position(s) - Position(t)
  {
    if s == t {
      p := [s];
    } else {
      var next := Toward(s, t);
      var rest := GraphConnected(next, t);
      p := [s] + rest;
      forall i | 0 <= i < |p| - 1
        ensures Edge(p[i], p[i + 1])
      {
        if i > 0 {
          assert p[i] == rest[i - 1] && p[i + 1] == rest[i];
        }
      }
    }
  }

  function Toward(s: Status, t: Status): (next: Status)
    requires s != t
    ensures next in Allowed(s)
    ensures Position(next) == if Position(s) < Position(t) then Position(s) + 1 else Position(s) - 1
  {
    var statuses := [Planning, Dispatching, Dispatched, YardStaged, FinalDelivery, EmptyStaged, Completed];
    statuses[if Position(s) < Position(t) then Position(s) + 1 else Position(s) - 1]
  }

  // ----- hold and cancel -----

  /** An order that is not cancelled is on hold exactly as asked, with the reason only while it is; a cancelled one is
      left alone. */
  lemma HoldExact(db: Db, on: bool, reason: Option<string>)
    ensures var o, db' := db.order, Step(db, Hold(on, reason));
            var o' := db'.order;
            && db'.legs == db.legs && o'.status == o.status
            && o'.cancelledAt == o.cancelledAt && o'.cancelReason == o.cancelReason
            && if o.cancelledAt == None
               then o'.onHold == on && (on ==> o'.holdReason == reason) && (!on ==> o'.holdReason == None)
               else o' == o
  {
  }

  /** The first cancel records its time and reason and lifts the hold, keeping the reason for it; later ones do
      nothing. */
  lemma CancelExact(db: Db, reason: Option<string>, now: int)
    ensures var o, db' := db.order, Step(db, CancelOrder(reason, now));
            var o' := db'.order;
            && db'.legs == db.legs && o'.status == o.status && o'.holdReason == o.holdReason
            && if o.cancelledAt == None
               then o'.cancelledAt == Some(now) && o'.cancelReason == reason && !o'.onHold
               else o' == o
  {
  }

  // ----- offers -----

  /** The leg is offered to the driver and still open to the answer. */
  predicate OfferedTo(legs: map<LegId, Leg>, id: LegId, driver: DriverId) {
    id in legs && legs[id].active && legs[id].driver == Some(driver) && legs[id].acceptedAt == None
  }

  ghost predicate OnlyLeg(legs: map<LegId, Leg>, legs': map<LegId, Leg>, id: LegId) {
    id in legs && id in legs' && forall x | x != id :: (x in legs' <==> x in legs) && (x in legs ==> legs'[x] == legs[x])
  }

  /** Accepting records the time and nothing else; rejecting records time and reason and takes the driver away.  The
      order itself is left alone, its status included. */
  lemma AnswerExact(db: Db, id: LegId, driver: DriverId, reason: string, now: int)
    ensures var a, r := Step(db, AcceptOffer(id, driver, now)), Step(db, RejectOffer(id, driver, reason, now));
            && a.order == db.order && r.order == db.order
            && (if OfferedTo(db.legs, id, driver) && db.legs[id].rejectedAt == None
                then OnlyLeg(db.legs, a.legs, id)
                     && a.legs[id].acceptedAt == Some(now) && a.legs[id] == db.legs[id].(acceptedAt := a.legs[id].acceptedAt)
                else a == db)
            && (if OfferedTo(db.legs, id, driver)
                then OnlyLeg(db.legs, r.legs, id)
                     && r.legs[id].rejectedAt == Some(now) && r.legs[id].rejectionReason == Some(reason)
                     && r.legs[id].driver == None && r.legs[id].acceptedAt == None
                     && r.legs[id].status == db.legs[id].status && r.legs[id].active
                else r == db)
  {
  }
}
