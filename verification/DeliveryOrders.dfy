/** The status of a delivery order: a transition graph driven by hand, an automatic derivation from the legs,
    and a hold and cancel overlay, all writing the same row. */
module DeliveryOrders {
  import opened Legs
  import opened Options

  datatype Status = Planning | Dispatching | Dispatched | YardStaged | FinalDelivery | EmptyStaged | Completed

  function Allowed(s: Status): set<Status> {
    match s
    case Planning => {Dispatching, Dispatched}
    case Dispatching => {Dispatched, Planning, YardStaged, FinalDelivery}
    case Dispatched => {Dispatching, YardStaged, FinalDelivery, Planning}
    case YardStaged => {FinalDelivery, Dispatched}
    case FinalDelivery => {EmptyStaged, Completed, YardStaged}
    case EmptyStaged => {Completed, FinalDelivery}
    case Completed => {EmptyStaged}
  }

  predicate InDispatchPhase(s: Status) {
    s == Planning || s == Dispatching || s == Dispatched
  }

  datatype Order = Order(
    status: Status, onHold: bool, holdReason: Option<string>, cancelledAt: Option<int>, cancelReason: Option<string>)

  /** An order and its legs. */
  datatype Db = Db(order: Order, legs: map<LegId, Leg>)

  // ----- the derivation -----

  predicate NeedsDriver(l: Leg) {
    l.active && l.driver.None? && (l.status == LegPending || l.status == LegAssigned)
  }

  /** The dispatch status of a list of legs. */
  function ComputeDispatchStatus(legs: seq<Leg>): Status {
    if forall l | l in legs :: !l.active then Planning
    else if exists l | l in legs :: NeedsDriver(l) then Dispatching
    else Dispatched
  }

  /** `q` is a result of the leg query, which fixes no order. */
  predicate Enumerates(q: seq<Leg>, legs: map<LegId, Leg>) {
    && (forall l | l in q :: l.active && exists id | id in legs :: legs[id] == l)
    && (forall id | id in legs && legs[id].active :: legs[id] in q)
  }

  predicate AnyNeedsDriver(legs: map<LegId, Leg>) {
    exists id | id in legs :: NeedsDriver(legs[id])
  }

  predicate AnyActive(legs: map<LegId, Leg>) {
    exists id | id in legs :: legs[id].active
  }

  function DispatchOf(legs: map<LegId, Leg>): Status {
    if !AnyActive(legs) then Planning
    else if AnyNeedsDriver(legs) then Dispatching
    else Dispatched
  }

  /** The computed status does not depend on the order in which the legs are read. */
  lemma OrderOfLegsIrrelevant(q: seq<Leg>, legs: map<LegId, Leg>)
    requires Enumerates(q, legs)
    ensures ComputeDispatchStatus(q) == DispatchOf(legs)
  {
    if AnyNeedsDriver(legs) {
      var id :| id in legs && NeedsDriver(legs[id]);
      assert legs[id] in q;
    }
    if AnyActive(legs) {
      var id :| id in legs && legs[id].active;
      assert legs[id] in q;
    }
  }

  /** The derivation is at work: nothing holds the order and it is still being dispatched. */
  predicate Derivable(o: Order) {
    !o.onHold && o.cancelledAt.None? && InDispatchPhase(o.status)
  }

  function Derive(db: Db): Db {
    if Derivable(db.order) then db.(order := db.order.(status := DispatchOf(db.legs))) else db
  }

  // ----- requests -----

  function SetHold(o: Order, on: bool, reason: Option<string>): Order {
    if o.cancelledAt.Some? then o else o.(onHold := on, holdReason := if on then reason else None)
  }

  function Cancel(o: Order, reason: Option<string>, now: int): Order {
    if o.cancelledAt.Some? then o else o.(cancelledAt := Some(now), cancelReason := reason, onHold := false)
  }

  predicate Owns(legs: map<LegId, Leg>, id: LegId, driver: DriverId) {
    id in legs && legs[id].active && legs[id].driver == Some(driver)
  }

  predicate MayAccept(legs: map<LegId, Leg>, id: LegId, driver: DriverId) {
    Owns(legs, id, driver) && legs[id].acceptedAt.None? && legs[id].rejectedAt.None?
  }

  predicate MayReject(legs: map<LegId, Leg>, id: LegId, driver: DriverId) {
    Owns(legs, id, driver) && legs[id].acceptedAt.None?
  }

  /** The legs after a driver's answer to an offer; a rejected leg is free for another driver. */
  function Accept(legs: map<LegId, Leg>, id: LegId, driver: DriverId, now: int): map<LegId, Leg> {
    if MayAccept(legs, id, driver) then legs[id := legs[id].(acceptedAt := Some(now))] else legs
  }

  function Reject(legs: map<LegId, Leg>, id: LegId, driver: DriverId, reason: string, now: int): map<LegId, Leg> {
    if MayReject(legs, id, driver)
    then legs[id := legs[id].(rejectedAt := Some(now), rejectionReason := Some(reason), driver := None)]
    else legs
  }

  // ----- runs -----

  /** `LegsChange` stands for any change of the legs that is followed by the derivation. */
  datatype Event =
    | Transition(target: Status)
    | Hold(on: bool, reason: Option<string>)
    | CancelOrder(reason: Option<string>, now: int)
    | LegsChange(legs: map<LegId, Leg>)
    | AcceptOffer(id: LegId, driver: DriverId, now: int)
    | RejectOffer(id: LegId, driver: DriverId, why: string, now: int)

  function Step(db: Db, e: Event): Db {
    match e
    case Transition(target) =>
      if target in Allowed(db.order.status) then db.(order := db.order.(status := target)) else db
    case Hold(on, reason) => db.(order := SetHold(db.order, on, reason))
    case CancelOrder(reason, now) => db.(order := Cancel(db.order, reason, now))
    case LegsChange(legs) => Derive(db.(legs := legs))
    case AcceptOffer(id, driver, now) => db.(legs := Accept(db.legs, id, driver, now))
    case RejectOffer(id, driver, reason, now) => db.(legs := Reject(db.legs, id, driver, reason, now))
  }

  function Run(db: Db, es: seq<Event>): Db
    decreases es
  {
    if es == [] then db else Run(Step(db, es[0]), es[1..])
  }

  /** The statuses the order goes through, from before the first event to after the last. */
  function Trace(db: Db, es: seq<Event>): (p: seq<Status>)
    ensures |p| == |es| + 1 && p[0] == db.order.status
    decreases es
  {
    if es == [] then [db.order.status] else [db.order.status] + Trace(Step(db, es[0]), es[1..])
  }

  // ----- walks in the transition graph -----

  predicate Edge(s: Status, t: Status) {
    s == t || t in Allowed(s)
  }

  predicate IsWalk(p: seq<Status>) {
    forall i | 0 <= i < |p| - 1 :: Edge(p[i], p[i + 1])
  }

  /** Whatever the derivation changes, it changes along an edge of the graph within the dispatch phase. */
  lemma DeriveFollowsGraph(db: Db)
    ensures var s, s' := db.order.status, Derive(db).order.status;
            Edge(s, s') && (s != s' ==> InDispatchPhase(s) && InDispatchPhase(s'))
    ensures Derive(db).order == db.order.(status := Derive(db).order.status)
  {
  }

  lemma {:induction false} TraceIsWalk(db: Db, es: seq<Event>)
    ensures IsWalk(Trace(db, es))
    ensures Trace(db, es)[|es|] == Run(db, es).order.status
    decreases es
  {
    if es != [] {
      var db' := Step(db, es[0]);
      if es[0].LegsChange? {
        DeriveFollowsGraph(db.(legs := es[0].legs));
      }
      TraceIsWalk(db', es[1..]);
      var p, rest := Trace(db, es), Trace(db', es[1..]);
      forall i | 0 <= i < |p| - 1
        ensures Edge(p[i], p[i + 1])
      {
        if i > 0 {
          assert p[i] == rest[i - 1] && p[i + 1] == rest[i];
        }
      }
    }
  }

  /** A walk that enters a set of statuses enters it somewhere for the last time. */
  lemma {:induction false} LastEntry(p: seq<Status>, within: set<Status>, a: nat, b: nat) returns (k: nat)
    requires a < b < |p| && p[a] !in within && p[b] in within
    ensures a <= k < b && p[k] !in within && p[k + 1] in within
    decreases b
  {
    if p[b - 1] !in within {
      k := b - 1;
    } else {
      k := LastEntry(p, within, a, b - 1);
    }
  }

  /** An order that starts in the dispatch phase is not completed before it was in final delivery. */
  lemma CompletedOnlyAfterFinalDelivery(db: Db, es: seq<Event>, b: nat)
    requires InDispatchPhase(db.order.status)
    requires b <= |es| && Trace(db, es)[b] == Completed
    ensures exists i :: 0 < i < b && Trace(db, es)[i] == FinalDelivery
  {
    var p := Trace(db, es);
    TraceIsWalk(db, es);
    var k := LastEntry(p, {FinalDelivery, EmptyStaged, Completed}, 0, b);
    assert Edge(p[k], p[k + 1]);
    assert p[k + 1] == FinalDelivery;
  }

  lemma WalkBackToDispatch(p: seq<Status>, a: nat, b: nat) returns (i: nat, j: nat, k: nat)
    requires IsWalk(p) && a < b < |p| && p[a] == Completed && InDispatchPhase(p[b])
    ensures a < i < j < k < b && p[i] == EmptyStaged && p[j] == FinalDelivery && p[k] == YardStaged
  {
    var phase := {Planning, Dispatching, Dispatched};
    k := LastEntry(p, phase, a, b);
    assert Edge(p[k], p[k + 1]);
    assert p[k] == YardStaged;
    j := LastEntry(p, phase + {YardStaged}, a, k);
    assert Edge(p[j], p[j + 1]);
    assert p[j] == FinalDelivery;
    i := LastEntry(p, phase + {YardStaged, FinalDelivery}, a, j);
    assert Edge(p[i], p[i + 1]);
    assert p[i] == EmptyStaged;
  }

  /** An order that was completed returns to the dispatch phase only through empty staged, final delivery and
      yard staged, in that order. */
  lemma ReturnFromCompleted(db: Db, es: seq<Event>, a: nat, b: nat)
    requires a < b <= |es| && Trace(db, es)[a] == Completed && InDispatchPhase(Trace(db, es)[b])
    ensures var p := Trace(db, es);
            exists i, j, k :: a < i < j < k < b && p[i] == EmptyStaged && p[j] == FinalDelivery && p[k] == YardStaged
  {
    TraceIsWalk(db, es);
    var i, j, k := WalkBackToDispatch(Trace(db, es), a, b);
  }

  // ----- dispatch agreement -----

  /** The status is the one computed from the legs. */
  predicate Agrees(db: Db) {
    db.order.status == DispatchOf(db.legs)
  }

  /** The leg is a rejection away from needing a driver. */
  predicate Frees(legs: map<LegId, Leg>, e: Event) {
    e.RejectOffer? && MayReject(legs, e.id, e.driver)
    && (legs[e.id].status == LegPending || legs[e.id].status == LegAssigned)
  }

  /** The event makes the derivation store its result. */
  predicate Derives(db: Db, e: Event) {
    e.LegsChange? && Derivable(db.order)
  }

  /** What takes an agreeing order out of agreement: a transition that the graph allows, a rejection that frees a
      leg of an order not already being dispatched, a change of legs the derivation does not follow. */
  predicate Breaks(db: Db, e: Event) {
    match e
    case Transition(target) => target in Allowed(db.order.status)
    case RejectOffer(_, _, _, _) => Frees(db.legs, e) && db.order.status != Dispatching
    case LegsChange(legs) => !Derivable(db.order) && DispatchOf(legs) != db.order.status
    case _ => false
  }

  /** What brings an order back into agreement. */
  predicate Mends(db: Db, e: Event) {
    match e
    case Transition(target) => target in Allowed(db.order.status) && target == DispatchOf(db.legs)
    case RejectOffer(_, _, _, _) => Frees(db.legs, e) && db.order.status == Dispatching
    case LegsChange(legs) => Derivable(db.order) || DispatchOf(legs) == db.order.status
    case _ => false
  }

  /** Legs with the same activity and the same need of a driver, wherever they stand in the table. */
  lemma DispatchReads(legs: map<LegId, Leg>, legs': map<LegId, Leg>)
    requires legs.Keys == legs'.Keys
    requires forall id | id in legs ::
               legs[id].active == legs'[id].active && NeedsDriver(legs[id]) == NeedsDriver(legs'[id])
    ensures DispatchOf(legs) == DispatchOf(legs')
  {
    assert forall id | id in legs :: NeedsDriver(legs[id]) == NeedsDriver(legs'[id]);
    assert AnyActive(legs) <==> AnyActive(legs');
    assert AnyNeedsDriver(legs) <==> AnyNeedsDriver(legs');
  }

  /** A driver's answer changes the computed status only by freeing a leg, and then to `Dispatching`. */
  lemma AnswerDispatches(db: Db, e: Event)
    requires e.AcceptOffer? || e.RejectOffer?
    ensures DispatchOf(Step(db, e).legs) == if Frees(db.legs, e) then Dispatching else DispatchOf(db.legs)
  {
    var legs' := Step(db, e).legs;
    if Frees(db.legs, e) {
      assert NeedsDriver(legs'[e.id]);
    } else {
      DispatchReads(db.legs, legs');
    }
  }

  /** For every event: an agreeing order still agrees iff the event does not break the agreement, and a
      disagreeing one agrees again iff it mends it. */
  lemma StepAgreement(db: Db, e: Event)
    ensures Agrees(Step(db, e)) <==> if Agrees(db) then !Breaks(db, e) else Mends(db, e)
  {
    if e.AcceptOffer? || e.RejectOffer? {
      AnswerDispatches(db, e);
    }
  }

  /** The state after the first `k` events. */
  function After(db: Db, es: seq<Event>, k: nat): Db
    requires k <= |es|
  {
    Run(db, es[..k])
  }

  lemma {:induction false} RunSnoc(db: Db, es: seq<Event>, e: Event)
    ensures Run(db, es + [e]) == Step(Run(db, es), e)
    decreases es
  {
    if es == [] {
      assert es + [e] == [e];
      assert Run(Step(db, e), [e][1..]) == Step(db, e);
    } else {
      assert (es + [e])[1..] == es[1..] + [e];
      RunSnoc(Step(db, es[0]), es[1..], e);
    }
  }

  lemma AfterStep(db: Db, es: seq<Event>, k: nat)
    requires k < |es|
    ensures After(db, es, k + 1) == Step(After(db, es, k), es[k])
  {
    assert es[..k + 1] == es[..k] + [es[k]];
    RunSnoc(db, es[..k], es[k]);
  }

  ghost predicate AgreesFrom(db: Db, es: seq<Event>, i: nat) {
    forall j | i <= j <= |es| :: Agrees(After(db, es, j))
  }

  ghost predicate UnbrokenFrom(db: Db, es: seq<Event>, i: nat) {
    forall j | i <= j < |es| :: !Breaks(After(db, es, j), es[j])
  }

  lemma {:induction false} AgreementLasts(db: Db, es: seq<Event>, i: nat)
    requires i <= |es| && Agrees(After(db, es, i))
    ensures AgreesFrom(db, es, i) <==> UnbrokenFrom(db, es, i)
    decreases |es| - i
  {
    if i < |es| {
      AfterStep(db, es, i);
      StepAgreement(After(db, es, i), es[i]);
      if Agrees(After(db, es, i + 1)) {
        AgreementLasts(db, es, i + 1);
      }
    }
  }

  /** From any change of the legs that is derived, the status is the computed one in every later state, through
      holds, cancellation, answers and further changes, iff no event from there on breaks the agreement. */
  lemma DispatchAgreement(db: Db, es: seq<Event>, i: nat)
    requires i < |es| && Derives(After(db, es, i), es[i])
    ensures AgreesFrom(db, es, i + 1) <==> UnbrokenFrom(db, es, i + 1)
  {
    AfterStep(db, es, i);
    AgreementLasts(db, es, i + 1);
  }

  /** Event `k` breaks the agreement and no later one mends it, in particular none derives. */
  ghost predicate LastBreak(db: Db, es: seq<Event>, k: nat) {
    && k < |es| && Agrees(After(db, es, k)) && Breaks(After(db, es, k), es[k])
    && forall j | k < j < |es| :: !Mends(After(db, es, j), es[j]) && !Derives(After(db, es, j), es[j])
  }

  lemma {:induction false} BreakLasts(db: Db, es: seq<Event>, k: nat, n: nat)
    requires LastBreak(db, es, k) && k < n <= |es|
    ensures !Agrees(After(db, es, n))
    decreases n
  {
    AfterStep(db, es, n - 1);
    StepAgreement(After(db, es, n - 1), es[n - 1]);
    if k < n - 1 {
      BreakLasts(db, es, k, n - 1);
    }
  }

  lemma {:induction false} BreakFound(db: Db, es: seq<Event>, n: nat) returns (k: nat)
    requires Agrees(db) && n <= |es| && !Agrees(After(db, es, n))
    ensures k < n && Agrees(After(db, es, k)) && Breaks(After(db, es, k), es[k])
    ensures forall j | k < j < n :: !Mends(After(db, es, j), es[j])
    decreases n
  {
    assert es[..0] == [];
    AfterStep(db, es, n - 1);
    StepAgreement(After(db, es, n - 1), es[n - 1]);
    if Agrees(After(db, es, n - 1)) {
      k := n - 1;
    } else {
      k := BreakFound(db, es, n - 1);
    }
  }

  /** An order that agreed at the start disagrees after a run iff some event broke the agreement and nothing has
      mended it since: no derivation, no transition by hand to the computed status. */
  lemma DisagreementTraced(db: Db, es: seq<Event>)
    requires Agrees(db)
    ensures !Agrees(Run(db, es)) <==> exists k: nat :: LastBreak(db, es, k)
  {
    assert es[..|es|] == es;
    if !Agrees(Run(db, es)) {
      var k := BreakFound(db, es, |es|);
      assert LastBreak(db, es, k);
    } else if exists k: nat :: LastBreak(db, es, k) {
      var k: nat :| LastBreak(db, es, k);
      BreakLasts(db, es, k, |es|);
    }
  }

  /** A new order has no legs and is being planned. */
  function New(): Db {
    Db(Order(Planning, false, None, None, None), map[])
  }

  /** From a new order: its status, the derivation at work or not, differs from the computed one exactly when a
      transition by hand, a rejected offer or a change of legs that was not derived came last. */
  lemma NewOrderDisagreement(es: seq<Event>)
    ensures !Agrees(Run(New(), es)) <==> exists k: nat :: LastBreak(New(), es, k)
  {
    DisagreementTraced(New(), es);
  }

  // ----- a rejected offer -----

  /** Leg `id` waits for a driver in every table of legs the run brings in. */
  predicate StaysFree(es: seq<Event>, id: LegId) {
    forall i | 0 <= i < |es| && es[i].LegsChange? :: id in es[i].legs && NeedsDriver(es[i].legs[id])
  }

  lemma {:induction false} FreeLegStays(db: Db, es: seq<Event>, id: LegId, k: nat)
    requires id in db.legs && NeedsDriver(db.legs[id]) && StaysFree(es, id) && k <= |es|
    ensures id in After(db, es, k).legs && NeedsDriver(After(db, es, k).legs[id])
    decreases k
  {
    if k == 0 {
      assert es[..0] == [];
    } else {
      AfterStep(db, es, k - 1);
      FreeLegStays(db, es, id, k - 1);
    }
  }

  lemma {:induction false} FreeLegDispatches(db: Db, es: seq<Event>, id: LegId, i: nat, n: nat)
    requires id in db.legs && NeedsDriver(db.legs[id]) && StaysFree(es, id) && NoTransition(es)
    requires i < n <= |es| && Derives(After(db, es, i), es[i])
    ensures After(db, es, n).order.status == Dispatching
    decreases n
  {
    AfterStep(db, es, n - 1);
    FreeLegStays(db, es, id, n - 1);
    FreeLegStays(db, es, id, n);
    if i < n - 1 {
      FreeLegDispatches(db, es, id, i, n - 1);
    }
  }

  /** After the rejection of a leg that waits for its driver, and as long as no other driver is given the leg,
      the order is being dispatched from the first derivation on, whatever happens to the other legs, to the hold
      or to the cancellation, until a transition by hand. */
  lemma RejectReopensDispatch(db: Db, e: Event, es: seq<Event>, i: nat)
    requires Frees(db.legs, e) && StaysFree(es, e.id) && NoTransition(es)
    requires i < |es| && Derives(After(Step(db, e), es, i), es[i])
    ensures forall n | i < n <= |es| :: After(Step(db, e), es, n).order.status == Dispatching
  {
    var db' := Step(db, e);
    assert NeedsDriver(db'.legs[e.id]);
    forall n | i < n <= |es|
      ensures After(db', es, n).order.status == Dispatching
    {
      FreeLegDispatches(db', es, e.id, i, n);
    }
  }

  // ----- offers -----

  predicate OfferAnsweredOnce(l: Leg) {
    !(l.acceptedAt.Some? && l.rejectedAt.Some?)
  }

  predicate AnsweredOnce(db: Db) {
    forall id | id in db.legs :: OfferAnsweredOnce(db.legs[id])
  }

  /** No run makes a leg both accepted and rejected, unless a leg change brings one in. */
  lemma {:induction false} NeverAcceptedAndRejected(db: Db, es: seq<Event>)
    requires AnsweredOnce(db)
    requires forall i | 0 <= i < |es| && es[i].LegsChange? :: AnsweredOnce(Db(db.order, es[i].legs))
    ensures AnsweredOnce(Run(db, es))
    decreases es
  {
    if es != [] {
      assert AnsweredOnce(Step(db, es[0]));
      NeverAcceptedAndRejected(Step(db, es[0]), es[1..]);
    }
  }

  // ----- cancellation is absorbing -----

  ghost predicate CancelledFor(o: Order, at: int, reason: Option<string>) {
    o.cancelledAt == Some(at) && o.cancelReason == reason && !o.onHold
  }

  /** Only transitions by hand move a cancelled order. */
  predicate NoTransition(es: seq<Event>) {
    forall i | 0 <= i < |es| :: !es[i].Transition?
  }

  /** Once cancelled, an order keeps its time and reason and is never on hold, over every run; and without a
      transition by hand its status never changes either. */
  lemma {:induction false} CancelledForever(db: Db, es: seq<Event>, at: int, reason: Option<string>)
    requires CancelledFor(db.order, at, reason)
    ensures CancelledFor(Run(db, es).order, at, reason)
    ensures NoTransition(es) ==> Run(db, es).order == db.order
    decreases es
  {
    if es != [] {
      CancelledForever(Step(db, es[0]), es[1..], at, reason);
    }
  }

  /** A cancel request leaves the order cancelled, whether it is the first or not, and only the first one sets
      the time and the reason. */
  lemma CancelIdempotent(o: Order, r1: Option<string>, t1: int, r2: Option<string>, t2: int)
    requires o.cancelledAt.None?
    ensures CancelledFor(Cancel(o, r1, t1), t1, r1)
    ensures Cancel(Cancel(o, r1, t1), r2, t2) == Cancel(o, r1, t1)
  {
  }
}
