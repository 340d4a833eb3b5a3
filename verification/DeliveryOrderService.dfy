/** The requests that write an order's status, field by field, proved against the steps of `DeliveryOrders`. */
module DeliveryOrderService {
  import opened DeliveryOrders
  import opened Legs
  import opened Options

  datatype OrderError = InvalidTransition(src: Status, target: Status) | CancelledOrder

  datatype OfferError = LegNotFound | ForbiddenLeg | AlreadyAccepted | AlreadyRejected

  class DeliveryOrderService {
    var status: Status
    var onHold: bool
    var holdReason: Option<string>
    var cancelledAt: Option<int>
    var cancelReason: Option<string>
    var legs: map<LegId, Leg>

    function View(): Db
      reads this
    {
      Db(Order(status, onHold, holdReason, cancelledAt, cancelReason), legs)
    }

    constructor ()
      ensures View() == New()
    {
      status, onHold, holdReason, cancelledAt, cancelReason := Planning, false, None, None, None;
      legs := map[];
    }

    /** Neither a hold nor a cancellation blocks a transition by hand. */
    method TransitionTo(target: Status) returns (error: Option<OrderError>)
      modifies this`status
      ensures View() == Step(old(View()), Transition(target))
      ensures error == if target in Allowed(old(status)) then None else Some(InvalidTransition(old(status), target))
    {
      if target !in Allowed(status) {
        return Some(InvalidTransition(status, target));
      }
      status := target;
      return None;
    }

    method SetHoldOverlay(on: bool, reason: Option<string>) returns (error: Option<OrderError>)
      modifies this`onHold, this`holdReason
      ensures View() == Step(old(View()), Hold(on, reason))
      ensures error.Some? <==> old(cancelledAt).Some?
    {
      if cancelledAt.Some? {
        return Some(CancelledOrder);
      }
      onHold := on;
      holdReason := if on then reason else None;
      return None;
    }

    method CancelOverlay(reason: Option<string>, now: int)
      modifies this`cancelledAt, this`cancelReason, this`onHold
      ensures View() == Step(old(View()), CancelOrder(reason, now))
      ensures cancelledAt.Some? && (old(cancelledAt).None? ==> !onHold)
    {
      if cancelledAt.Some? {
        return;
      }
      cancelledAt := Some(now);
      cancelReason := reason;
      onHold := false;
    }

    /** `q` is what the leg query returned; the result tells the new status if it changed. */
    method DeriveDispatchState(q: seq<Leg>) returns (changed: Option<Status>)
      requires Enumerates(q, legs)
      modifies this`status
      ensures View() == Derive(old(View()))
      ensures changed == if status != old(status) then Some(status) else None
      ensures changed.Some? ==> changed.value in Allowed(old(status))
    {
      if onHold || cancelledAt.Some? || !InDispatchPhase(status) {
        return None;
      }
      OrderOfLegsIrrelevant(q, legs);
      var newStatus := ComputeDispatchStatus(q);
      if newStatus != status {
        status := newStatus;
        return Some(newStatus);
      }
      return None;
    }

    method AcceptOffered(id: LegId, driver: DriverId, now: int) returns (error: Option<OfferError>)
      modifies this`legs
      ensures View() == Step(old(View()), AcceptOffer(id, driver, now))
      ensures error.None? <==> MayAccept(old(legs), id, driver)
      ensures error == Some(AlreadyAccepted) <==> Owns(old(legs), id, driver) && old(legs)[id].acceptedAt.Some?
      ensures error == Some(LegNotFound) <==> id !in old(legs) || !old(legs)[id].active
    {
      error := CheckOwner(id, driver);
      if error.Some? {
        return;
      }
      if legs[id].acceptedAt.Some? {
        return Some(AlreadyAccepted);
      }
      if legs[id].rejectedAt.Some? {
        return Some(AlreadyRejected);
      }
      legs := legs[id := legs[id].(acceptedAt := Some(now))];
    }

    method RejectOffered(id: LegId, driver: DriverId, reason: string, now: int) returns (error: Option<OfferError>)
      modifies this`legs
      ensures View() == Step(old(View()), RejectOffer(id, driver, reason, now))
      ensures error.None? <==> MayReject(old(legs), id, driver)
      ensures error == Some(AlreadyAccepted) <==> Owns(old(legs), id, driver) && old(legs)[id].acceptedAt.Some?
      ensures error == Some(LegNotFound) <==> id !in old(legs) || !old(legs)[id].active
    {
      error := CheckOwner(id, driver);
      if error.Some? {
        return;
      }
      if legs[id].acceptedAt.Some? {
        return Some(AlreadyAccepted);
      }
      var leg := legs[id];
      leg := leg.(rejectedAt := Some(now));
      leg := leg.(rejectionReason := Some(reason));
      leg := leg.(driver := None);
      legs := legs[id := leg];
    }

    method CheckOwner(id: LegId, driver: DriverId) returns (error: Option<OfferError>)
      ensures error.None? <==> Owns(legs, id, driver)
      ensures error == Some(LegNotFound) <==> id !in legs || !legs[id].active
      ensures error.Some? ==> error == Some(LegNotFound) || error == Some(ForbiddenLeg)
    {
      if id !in legs || !legs[id].active {
        return Some(LegNotFound);
      }
      if legs[id].driver != Some(driver) {
        return Some(ForbiddenLeg);
      }
      return None;
    }
  }
}
