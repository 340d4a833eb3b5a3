/** Two-phase renumbering of stops under the UNIQUE constraint, in closed form.

    The service parks every listed stop at a negative number and then gives each its target, one UPDATE at
    a time, and the constraint is checked at every UPDATE. */
module Reorder {
  import opened Options
  import opened Stops

  datatype Move = Move(id: StopId, target: int)

  /** The parking number of the item at position `k`. */
  function Parking(k: nat): int {
    -(10000 + k)
  }

  /** The last item before position `k` that names `id`, or -1. */
  function LastIndex(items: seq<Move>, k: nat, id: StopId): (j: int)
    requires k <= |items|
    ensures -1 <= j < k
    ensures j >= 0 ==> items[j].id == id
    ensures forall i | j < i < k :: items[i].id != id
  {
    if k == 0 then -1
    else if items[k - 1].id == id then k - 1
    else LastIndex(items, k - 1, id)
  }

  // ----- the table after each UPDATE -----

  /** UPDATE ... SET sequence_no = n WHERE container_id = cid AND id = id */
  function SetNumber(t: Table, cid: Cid, id: StopId, n: int): Table {
    if InContainer(t, cid, id) then t[id := t[id].(seqNo := n)] else t
  }

  /** The constraint lets the UPDATE through. */
  predicate MaySet(t: Table, cid: Cid, id: StopId, n: int) {
    InContainer(t, cid, id) ==> !Clash(t, cid, id, n)
  }

  function ParkedTable(stops: Table, cid: Cid, items: seq<Move>, k: nat): Table
    requires k <= |items|
  {
    if k == 0 then stops
    else SetNumber(ParkedTable(stops, cid, items, k - 1), cid, items[k - 1].id, Parking(k - 1))
  }

  function PlacedTable(stops: Table, cid: Cid, items: seq<Move>, k: nat): Table
    requires k <= |items|
  {
    if k == 0 then ParkedTable(stops, cid, items, |items|)
    else SetNumber(PlacedTable(stops, cid, items, k - 1), cid, items[k - 1].id, items[k - 1].target)
  }

  /** No UPDATE of either phase is refused. */
  ghost predicate AllPass(stops: Table, cid: Cid, items: seq<Move>) {
    && (forall k | 0 <= k < |items| ::
          MaySet(ParkedTable(stops, cid, items, k), cid, items[k].id, Parking(k)))
    && (forall k | 0 <= k < |items| ::
          MaySet(PlacedTable(stops, cid, items, k), cid, items[k].id, items[k].target))
  }

  lemma SetKeepsUnique(t: Table, cid: Cid, id: StopId, n: int)
    requires UniqueNumbers(t) && MaySet(t, cid, id, n)
    ensures UniqueNumbers(SetNumber(t, cid, id, n))
  {
  }

  lemma {:induction false} ParkedUnique(stops: Table, cid: Cid, items: seq<Move>, k: nat)
    requires UniqueNumbers(stops) && k <= |items|
    requires forall j | 0 <= j < k :: MaySet(ParkedTable(stops, cid, items, j), cid, items[j].id, Parking(j))
    ensures UniqueNumbers(ParkedTable(stops, cid, items, k))
  {
    if k > 0 {
      ParkedUnique(stops, cid, items, k - 1);
      SetKeepsUnique(ParkedTable(stops, cid, items, k - 1), cid, items[k - 1].id, Parking(k - 1));
    }
  }

  lemma {:induction false} PlacedUnique(stops: Table, cid: Cid, items: seq<Move>, k: nat)
    requires UniqueNumbers(ParkedTable(stops, cid, items, |items|)) && k <= |items|
    requires forall j | 0 <= j < k :: MaySet(PlacedTable(stops, cid, items, j), cid, items[j].id, items[j].target)
    ensures UniqueNumbers(PlacedTable(stops, cid, items, k))
  {
    if k > 0 {
      PlacedUnique(stops, cid, items, k - 1);
      SetKeepsUnique(PlacedTable(stops, cid, items, k - 1), cid, items[k - 1].id, items[k - 1].target);
    }
  }

  /** The constraint holds after every single UPDATE of both phases. */
  lemma UniqueThroughout(stops: Table, cid: Cid, items: seq<Move>, k: nat)
    requires UniqueNumbers(stops) && AllPass(stops, cid, items) && k <= |items|
    ensures UniqueNumbers(ParkedTable(stops, cid, items, k))
    ensures UniqueNumbers(PlacedTable(stops, cid, items, k))
  {
    ParkedUnique(stops, cid, items, k);
    ParkedUnique(stops, cid, items, |items|);
    PlacedUnique(stops, cid, items, k);
  }

  // ----- in closed form -----

  /** The number of stop `id` after `k` UPDATEs of the parking phase. */
  function Parked(stops: Table, cid: Cid, items: seq<Move>, k: nat, id: StopId): int
    requires k <= |items| && id in stops
  {
    var j := LastIndex(items, k, id);
    if stops[id].container == cid && j >= 0 then Parking(j) else stops[id].seqNo
  }

  /** The number of stop `id` after the parking phase and `k` UPDATEs of the second phase. */
  function Placed(stops: Table, cid: Cid, items: seq<Move>, k: nat, id: StopId): int
    requires k <= |items| && id in stops
  {
    var j := LastIndex(items, k, id);
    if stops[id].container == cid && j >= 0 then items[j].target else Parked(stops, cid, items, |items|, id)
  }

  lemma {:induction false} ParkedForm(stops: Table, cid: Cid, items: seq<Move>, k: nat, id: StopId)
    requires k <= |items|
    ensures var t := ParkedTable(stops, cid, items, k);
            (id in t <==> id in stops)
            && (id in t ==> t[id] == stops[id].(seqNo := Parked(stops, cid, items, k, id)))
  {
    if k > 0 {
      ParkedForm(stops, cid, items, k - 1, id);
    }
  }

  lemma {:induction false} PlacedForm(stops: Table, cid: Cid, items: seq<Move>, k: nat, id: StopId)
    requires k <= |items|
    ensures var t := PlacedTable(stops, cid, items, k);
            (id in t <==> id in stops)
            && (id in t ==> t[id] == stops[id].(seqNo := Placed(stops, cid, items, k, id)))
  {
    if k == 0 {
      ParkedForm(stops, cid, items, |items|, id);
    } else {
      PlacedForm(stops, cid, items, k - 1, id);
    }
  }

  /** No other stop of the container holds the parking number of item `k` when it is given out. */
  ghost predicate ParkClear(stops: Table, cid: Cid, items: seq<Move>, k: nat)
    requires k < |items|
  {
    forall r | InContainer(stops, cid, r) && r != items[k].id :: Parked(stops, cid, items, k, r) != Parking(k)
  }

  /** No other stop of the container holds the target of item `k` when it is given out. */
  ghost predicate PlaceClear(stops: Table, cid: Cid, items: seq<Move>, k: nat)
    requires k < |items|
  {
    forall r | InContainer(stops, cid, r) && r != items[k].id :: Placed(stops, cid, items, k, r) != items[k].target
  }

  /** No number is given out while another stop of the container holds it. */
  ghost predicate Reorderable(stops: Table, cid: Cid, items: seq<Move>) {
    forall k | 0 <= k < |items| && InContainer(stops, cid, items[k].id) ::
      ParkClear(stops, cid, items, k) && PlaceClear(stops, cid, items, k)
  }

  lemma ParkClearExact(stops: Table, cid: Cid, items: seq<Move>, k: nat)
    requires k < |items|
    ensures MaySet(ParkedTable(stops, cid, items, k), cid, items[k].id, Parking(k))
            <==> (InContainer(stops, cid, items[k].id) ==> ParkClear(stops, cid, items, k))
  {
    forall id
      ensures var t := ParkedTable(stops, cid, items, k);
              (id in t <==> id in stops)
              && (id in t ==> t[id] == stops[id].(seqNo := Parked(stops, cid, items, k, id)))
    {
      ParkedForm(stops, cid, items, k, id);
    }
  }

  lemma PlaceClearExact(stops: Table, cid: Cid, items: seq<Move>, k: nat)
    requires k < |items|
    ensures MaySet(PlacedTable(stops, cid, items, k), cid, items[k].id, items[k].target)
            <==> (InContainer(stops, cid, items[k].id) ==> PlaceClear(stops, cid, items, k))
  {
    forall id
      ensures var t := PlacedTable(stops, cid, items, k);
              (id in t <==> id in stops)
              && (id in t ==> t[id] == stops[id].(seqNo := Placed(stops, cid, items, k, id)))
    {
      PlacedForm(stops, cid, items, k, id);
    }
  }

  /** The closed form says exactly when every UPDATE passes, for any list of items. */
  lemma ReorderableIffAllPass(stops: Table, cid: Cid, items: seq<Move>)
    ensures Reorderable(stops, cid, items) <==> AllPass(stops, cid, items)
  {
    forall k | 0 <= k < |items|
      ensures && MaySet(ParkedTable(stops, cid, items, k), cid, items[k].id, Parking(k))
              && MaySet(PlacedTable(stops, cid, items, k), cid, items[k].id, items[k].target)
              <==> (InContainer(stops, cid, items[k].id) ==>
                      ParkClear(stops, cid, items, k) && PlaceClear(stops, cid, items, k))
    {
      ParkClearExact(stops, cid, items, k);
      PlaceClearExact(stops, cid, items, k);
    }
  }

  // ----- when a reorder succeeds -----

  ghost predicate DistinctIds(items: seq<Move>) {
    forall i, j | 0 <= i < j < |items| :: items[i].id != items[j].id
  }

  predicate Named(items: seq<Move>, id: StopId) {
    exists i | 0 <= i < |items| :: items[i].id == id
  }

  /** The items that name a stop of the container have distinct targets, and no stop of the container that is
      not named, deleted ones included, holds one of them. */
  ghost predicate TargetsFit(stops: Table, cid: Cid, items: seq<Move>) {
    && (forall i, j | 0 <= i < j < |items| && InContainer(stops, cid, items[i].id) && InContainer(stops, cid, items[j].id) ::
          items[i].target != items[j].target)
    && (forall i, r | 0 <= i < |items| && InContainer(stops, cid, items[i].id)
                      && InContainer(stops, cid, r) && !Named(items, r) ::
          stops[r].seqNo != items[i].target)
  }

  /** No parking number is in the way: item `k` is parked at a number that no stop still at its own number
      holds, and no target is the number at which a later item is still parked. */
  ghost predicate ParkingFree(stops: Table, cid: Cid, items: seq<Move>) {
    && (forall k, r | 0 <= k < |items| && InContainer(stops, cid, items[k].id) && InContainer(stops, cid, r)
                      && r != items[k].id && !Named(items[..k], r) ::
          stops[r].seqNo != Parking(k))
    && (forall i, k | 0 <= i < k < |items| && InContainer(stops, cid, items[i].id) && InContainer(stops, cid, items[k].id) ::
          items[i].target != Parking(k))
  }

  /** Nothing in the container, now or as a target, is as low as the parking numbers. */
  ghost predicate AboveParking(stops: Table, cid: Cid, items: seq<Move>) {
    && (forall r | InContainer(stops, cid, r) :: stops[r].seqNo > Parking(0))
    && (forall i | 0 <= i < |items| :: items[i].target > Parking(0))
  }

  lemma AboveParkingIsFree(stops: Table, cid: Cid, items: seq<Move>)
    requires AboveParking(stops, cid, items)
    ensures ParkingFree(stops, cid, items)
  {
  }

  lemma LastIndexDistinct(items: seq<Move>, k: nat, i: nat)
    requires DistinctIds(items) && k <= |items| && i < |items|
    ensures LastIndex(items, k, items[i].id) == if i < k then i else -1
  {
  }

  lemma LastIndexUnnamed(items: seq<Move>, k: nat, id: StopId)
    requires k <= |items| && !Named(items, id)
    ensures LastIndex(items, k, id) == -1
  {
  }

  lemma NamedUpTo(items: seq<Move>, k: nat, id: StopId)
    requires k <= |items|
    ensures Named(items[..k], id) <==> LastIndex(items, k, id) >= 0
  {
    if Named(items[..k], id) {
      var i :| 0 <= i < k && items[..k][i].id == id;
      assert items[i].id == id;
    }
    if LastIndex(items, k, id) >= 0 {
      assert items[..k][LastIndex(items, k, id)].id == id;
    }
  }

  lemma FreeIsParkClear(stops: Table, cid: Cid, items: seq<Move>, k: nat)
    requires DistinctIds(items) && ParkingFree(stops, cid, items) && k < |items|
    requires InContainer(stops, cid, items[k].id)
    ensures ParkClear(stops, cid, items, k)
  {
    forall r | InContainer(stops, cid, r) && r != items[k].id
      ensures Parked(stops, cid, items, k, r) != Parking(k)
    {
      NamedUpTo(items, k, r);
    }
  }

  lemma FitIsPlaceClear(stops: Table, cid: Cid, items: seq<Move>, k: nat)
    requires DistinctIds(items) && ParkingFree(stops, cid, items) && TargetsFit(stops, cid, items) && k < |items|
    requires InContainer(stops, cid, items[k].id)
    ensures PlaceClear(stops, cid, items, k)
  {
    forall r | InContainer(stops, cid, r) && r != items[k].id
      ensures Placed(stops, cid, items, k, r) != items[k].target
    {
      if Named(items, r) {
        var i :| 0 <= i < |items| && items[i].id == r;
        LastIndexDistinct(items, k, i);
        LastIndexDistinct(items, |items|, i);
      } else {
        LastIndexUnnamed(items, k, r);
        LastIndexUnnamed(items, |items|, r);
      }
    }
  }

  lemma ClearIsFit(stops: Table, cid: Cid, items: seq<Move>)
    requires DistinctIds(items) && Reorderable(stops, cid, items)
    ensures TargetsFit(stops, cid, items)
  {
    forall i, j | 0 <= i < j < |items| && InContainer(stops, cid, items[i].id) && InContainer(stops, cid, items[j].id)
      ensures items[i].target != items[j].target
    {
      assert PlaceClear(stops, cid, items, j);
      LastIndexDistinct(items, j, i);
    }
    forall i, r | 0 <= i < |items| && InContainer(stops, cid, items[i].id)
                  && InContainer(stops, cid, r) && !Named(items, r)
      ensures stops[r].seqNo != items[i].target
    {
      assert PlaceClear(stops, cid, items, i);
      LastIndexUnnamed(items, i, r);
      LastIndexUnnamed(items, |items|, r);
      assert items[i].id != r;
    }
  }

  lemma ClearIsFree(stops: Table, cid: Cid, items: seq<Move>)
    requires DistinctIds(items) && Reorderable(stops, cid, items)
    ensures ParkingFree(stops, cid, items)
  {
    forall k, r | 0 <= k < |items| && InContainer(stops, cid, items[k].id) && InContainer(stops, cid, r)
                  && r != items[k].id && !Named(items[..k], r)
      ensures stops[r].seqNo != Parking(k)
    {
      assert ParkClear(stops, cid, items, k);
      NamedUpTo(items, k, r);
    }
    forall i, k | 0 <= i < k < |items| && InContainer(stops, cid, items[i].id) && InContainer(stops, cid, items[k].id)
      ensures items[i].target != Parking(k)
    {
      assert PlaceClear(stops, cid, items, i);
      LastIndexDistinct(items, i, k);
      LastIndexDistinct(items, |items|, k);
    }
  }

  /** When no stop is named twice, a reorder succeeds iff its targets fit and no parking number is in the way. */
  lemma ReorderableIffTargetsFit(stops: Table, cid: Cid, items: seq<Move>)
    requires DistinctIds(items)
    ensures Reorderable(stops, cid, items) <==> TargetsFit(stops, cid, items) && ParkingFree(stops, cid, items)
  {
    if TargetsFit(stops, cid, items) && ParkingFree(stops, cid, items) {
      forall k | 0 <= k < |items| && InContainer(stops, cid, items[k].id)
        ensures ParkClear(stops, cid, items, k) && PlaceClear(stops, cid, items, k)
      {
        FreeIsParkClear(stops, cid, items, k);
        FitIsPlaceClear(stops, cid, items, k);
      }
    } else if Reorderable(stops, cid, items) {
      ClearIsFit(stops, cid, items);
      ClearIsFree(stops, cid, items);
    }
  }

  /** A stop that holds the first parking number blocks every reorder that does not name it first, even one
      whose targets fit. */
  lemma ParkingBlocked(stops: Table, cid: Cid, items: seq<Move>, r: StopId)
    requires items != [] && InContainer(stops, cid, items[0].id)
    requires InContainer(stops, cid, r) && stops[r].seqNo == Parking(0) && r != items[0].id
    ensures !Reorderable(stops, cid, items)
  {
    assert Parked(stops, cid, items, 0, r) == Parking(0);
    assert !ParkClear(stops, cid, items, 0);
  }

  lemma ParkingBlockedWitness(point: Point)
    ensures var stops := map[1 := Stop(7, 1, true, None, point), 2 := Stop(7, -10000, true, None, point)];
            var items := [Move(1, 5)];
            UniqueNumbers(stops) && DistinctIds(items) && TargetsFit(stops, 7, items) && !Reorderable(stops, 7, items)
  {
    var stops := map[1 := Stop(7, 1, true, None, point), 2 := Stop(7, -10000, true, None, point)];
    ParkingBlocked(stops, 7, [Move(1, 5)], 2);
  }

  /** Afterwards every named stop of the container has the target of the last item that names it, and no other
      row has changed. */
  lemma FinalNumbers(stops: Table, cid: Cid, items: seq<Move>, id: StopId)
    requires id in stops
    ensures var t := PlacedTable(stops, cid, items, |items|);
            && id in t
            && t[id] == stops[id].(seqNo := t[id].seqNo)
            && (forall i | 0 <= i < |items| && items[i].id == id && !Named(items[i + 1..], id) && stops[id].container == cid ::
                  t[id].seqNo == items[i].target)
            && (!Named(items, id) || stops[id].container != cid ==> t[id] == stops[id])
  {
    PlacedForm(stops, cid, items, |items|, id);
    var last := LastIndex(items, |items|, id);
    forall i | 0 <= i < |items| && items[i].id == id && !Named(items[i + 1..], id)
      ensures i == last
    {
      assert forall m | i < m < |items| :: items[m] == items[i + 1..][m - (i + 1)];
    }
    if !Named(items, id) {
      LastIndexUnnamed(items, |items|, id);
    }
  }

  /** `n` is the present number of a named stop. */
  ghost predicate OwnNumber(stops: Table, cid: Cid, items: seq<Move>, n: int) {
    exists r :: InContainer(stops, cid, r) && Named(items, r) && stops[r].seqNo == n
  }

  /** Any rearrangement of the named stops' own numbers succeeds, unless a parking number is in the way. */
  lemma PermutationSucceeds(stops: Table, cid: Cid, items: seq<Move>)
    requires UniqueNumbers(stops) && DistinctIds(items)
    requires forall i, j | 0 <= i < j < |items| :: items[i].target != items[j].target
    requires forall i | 0 <= i < |items| :: OwnNumber(stops, cid, items, items[i].target)
    ensures Reorderable(stops, cid, items) <==> ParkingFree(stops, cid, items)
    ensures AboveParking(stops, cid, items) ==> Reorderable(stops, cid, items)
  {
    forall i, r | 0 <= i < |items| && InContainer(stops, cid, items[i].id)
                  && InContainer(stops, cid, r) && !Named(items, r)
      ensures stops[r].seqNo != items[i].target
    {
      assert OwnNumber(stops, cid, items, items[i].target);
    }
    assert TargetsFit(stops, cid, items);
    ReorderableIffTargetsFit(stops, cid, items);
    if AboveParking(stops, cid, items) {
      AboveParkingIsFree(stops, cid, items);
    }
  }

  /** Why two phases: the first UPDATE of a single pass over the targets of any exchange would clash, while in
      two phases the exchange succeeds unless a parking number is in the way. */
  lemma SwapNeedsTwoPhases(stops: Table, cid: Cid, a: StopId, b: StopId)
    requires UniqueNumbers(stops) && InContainer(stops, cid, a) && InContainer(stops, cid, b) && a != b
    ensures var items := [Move(a, stops[b].seqNo), Move(b, stops[a].seqNo)];
            && Clash(stops, cid, items[0].id, items[0].target)
            && (Reorderable(stops, cid, items) <==> ParkingFree(stops, cid, items))
            && (AboveParking(stops, cid, items) ==> Reorderable(stops, cid, items))
  {
    var items := [Move(a, stops[b].seqNo), Move(b, stops[a].seqNo)];
    assert items[0].id == a && items[1].id == b && Named(items, a) && Named(items, b);
    assert OwnNumber(stops, cid, items, items[0].target) && OwnNumber(stops, cid, items, items[1].target);
    PermutationSucceeds(stops, cid, items);
  }
}
