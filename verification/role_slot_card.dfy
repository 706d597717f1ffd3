/** Placing, removing and restoring a unit in one slot
    (components/RoleSlotCard.js), and the bottom-up repricing every such change
    goes through: a detachment's points are the sum of its units' costs, the
    list's points the sum of its detachments' points. */
module RoleSlotCard {
  import opened Wrappers
  import opened Seqs
  import opened Records
  import opened RoleSlotSection
  import Text

  function UnitCost(u: Unit): int
  {
    u.totalCost
  }

  function DetachmentPoints(d: Detachment): int
  {
    d.totalPoints
  }

  /** `units.reduce((sum, u) => sum + u.totalCost, 0)`. */
  function UnitsTotal(units: seq<Unit>): int
  {
    SumOf(units, UnitCost)
  }

  /** `detachments.reduce((sum, d) => sum + d.totalPoints, 0)`. */
  function DetachmentsTotal(ds: seq<Detachment>): int
  {
    SumOf(ds, DetachmentPoints)
  }

  /** The pricing invariant of a list. */
  ghost predicate Priced(list: ArmyList)
  {
    list.totalPoints == DetachmentsTotal(list.detachments) &&
    forall d :: d in list.detachments ==> d.totalPoints == UnitsTotal(d.units)
  }

  ghost predicate UniqueDetachmentIds(ds: seq<Detachment>)
  {
    forall i, j :: 0 <= i < j < |ds| ==> ds[i].id != ds[j].id
  }

  ghost predicate UniqueUnitIds(units: seq<Unit>)
  {
    forall i, j :: 0 <= i < j < |units| ==> units[i].id != units[j].id
  }

  /** `updateDetachmentUnits(newUnits)`: the detachment `det` (the component's
      copy) with the new units and their sum as its points takes the place of
      every detachment with its id; the list's points are summed again. The
      result is priced whenever the untouched detachments were. */
  function UpdateDetachmentUnits(list: ArmyList, det: Detachment, newUnits: seq<Unit>): (r: ArmyList)
    ensures r.(detachments := list.detachments, totalPoints := list.totalPoints) == list
    ensures |r.detachments| == |list.detachments|
    ensures forall i :: 0 <= i < |list.detachments| ==>
      r.detachments[i] == if list.detachments[i].id == det.id
        then det.(units := newUnits, totalPoints := UnitsTotal(newUnits))
        else list.detachments[i]
    ensures r.totalPoints == DetachmentsTotal(r.detachments)
    ensures (forall d :: d in list.detachments && d.id != det.id ==> d.totalPoints == UnitsTotal(d.units)) ==> Priced(r)
  {
    var updated := det.(units := newUnits, totalPoints := UnitsTotal(newUnits));
    var ds := seq(|list.detachments|, i requires 0 <= i < |list.detachments| =>
      if list.detachments[i].id == det.id then updated else list.detachments[i]);
    assert forall d :: d in ds ==> d == updated || (d in list.detachments && d.id != det.id);
    list.(detachments := ds, totalPoints := DetachmentsTotal(ds))
  }

  /** The unit `handleSelectUnit` builds for a slot from a catalog row, with
      `Date.now()` as `now`. */
  function NewUnit(slot: SlotView, unitData: UnitTemplate, now: int): Unit
  {
    Unit(
      id := "unit-" + Text.IntToString(now),
      slotIndex := slot.slotIndex,
      unitId := unitData.id,
      name := unitData.name,
      role := unitData.role,
      isPrimeSlot := slot.isPrime,
      baseCost := unitData.baseCost,
      equipmentCost := 0,
      totalCost := unitData.baseCost,
      equipment := [],
      baseWargear := OrEmpty(unitData.baseWargear),
      specialRules := OrEmpty(unitData.specialRules),
      primeBenefit := None,
      isLogisticalBenefit := slot.isLogisticalBenefit)
  }

  /** `handleSelectUnit`, reached only from an empty slot's "Add Unit": the new
      unit is appended after the detachment's units. */
  function HandleSelectUnit(list: ArmyList, det: Detachment, slot: SlotView, unitData: UnitTemplate, now: int): (r: Option<ArmyList>)
    ensures r.Some? <==> slot.unit.None?
    ensures r.Some? ==> r.value == UpdateDetachmentUnits(list, det, det.units + [NewUnit(slot, unitData, now)])
  {
    if slot.unit.Some? then None
    else Some(UpdateDetachmentUnits(list, det, det.units + [NewUnit(slot, unitData, now)]))
  }

  /** A placed unit takes the slot it was placed in: its index and prime flag,
      its base cost as its whole cost, nothing chosen yet. */
  lemma NewUnitFitsSlot(slot: SlotView, unitData: UnitTemplate, now: int)
    ensures var u := NewUnit(slot, unitData, now);
      u.slotIndex == slot.slotIndex && u.isPrimeSlot == slot.isPrime &&
      u.totalCost == u.baseCost == unitData.baseCost && u.equipmentCost == 0 &&
      u.equipment == [] && u.primeBenefit.None? && u.isLogisticalBenefit == slot.isLogisticalBenefit &&
      Text.StartsWith(u.id, "unit-")
  {
    var id := "unit-" + Text.IntToString(now);
    assert id[..5] == "unit-";
  }

  /** The unit placed in an empty slot is the one that slot then shows, when
      the catalog row has the section's role (the selector only offers such rows). */
  lemma PlacedUnitOccupiesSlot(units: seq<Unit>, slot: SlotView, unitData: UnitTemplate, now: int, role: string)
    requires slot.unit == Occupant(units, role, slot.slotIndex) && slot.unit.None?
    requires unitData.role == role
    ensures Occupant(units + [NewUnit(slot, unitData, now)], role, slot.slotIndex) == Some(NewUnit(slot, unitData, now))
  {
    var all := units + [NewUnit(slot, unitData, now)];
    forall j | 0 <= j < |units|
      ensures !(all[j].role == role && all[j].slotIndex == slot.slotIndex)
    {
      assert all[j] in units;
    }
    OccupantIsFirst(all, role, slot.slotIndex, |units|);
  }

  /** The detachment at index `k`, when ids are unique, is the only one an
      update through it replaces. */
  lemma UpdateReplacesOne(list: ArmyList, k: nat, newUnits: seq<Unit>)
    requires k < |list.detachments| && UniqueDetachmentIds(list.detachments)
    ensures var det := list.detachments[k];
      UpdateDetachmentUnits(list, det, newUnits).detachments ==
        list.detachments[k := det.(units := newUnits, totalPoints := UnitsTotal(newUnits))]
  {
  }

  /** Repricing through the detachment at `k` moves both totals by the change
      in that detachment's unit sum. */
  lemma UpdateMovesTotals(list: ArmyList, k: nat, newUnits: seq<Unit>)
    requires Priced(list) && k < |list.detachments| && UniqueDetachmentIds(list.detachments)
    ensures var det := list.detachments[k];
      var r := UpdateDetachmentUnits(list, det, newUnits);
      Priced(r) &&
      r.detachments[k].totalPoints == UnitsTotal(newUnits) &&
      r.totalPoints == list.totalPoints - det.totalPoints + UnitsTotal(newUnits)
  {
    var det := list.detachments[k];
    UpdateReplacesOne(list, k, newUnits);
    SumOfUpdate(list.detachments, k, det.(units := newUnits, totalPoints := UnitsTotal(newUnits)), DetachmentPoints);
  }

  /** Placing a unit raises the detachment's and the list's points by the
      unit's base cost and keeps the earlier units as they were. */
  lemma PlacementRaisesTotals(list: ArmyList, k: nat, slot: SlotView, unitData: UnitTemplate, now: int)
    requires Priced(list) && k < |list.detachments| && UniqueDetachmentIds(list.detachments)
    requires slot.unit.None?
    ensures var det := list.detachments[k];
      var r := HandleSelectUnit(list, det, slot, unitData, now).value;
      Priced(r) &&
      r.detachments[k].units == det.units + [NewUnit(slot, unitData, now)] &&
      r.detachments[k].totalPoints == det.totalPoints + unitData.baseCost &&
      r.totalPoints == list.totalPoints + unitData.baseCost
  {
    var det := list.detachments[k];
    var u := NewUnit(slot, unitData, now);
    assert det in list.detachments;
    SumOfAppend(det.units, [u], UnitCost);
    assert SumOf([u], UnitCost) == u.totalCost by { assert [u][..0] == []; }
    UpdateMovesTotals(list, k, det.units + [u]);
  }

  function IdIsNot(id: string): Unit -> bool
  {
    (u: Unit) => u.id != id
  }

  function IdIs(id: string): Unit -> bool
  {
    (u: Unit) => u.id == id
  }

  /** `detachment.units.filter(u => u.id !== id)`. */
  function WithoutUnit(units: seq<Unit>, id: string): (r: seq<Unit>)
    ensures IsSubseq(r, units)
    ensures forall u :: u in r <==> u in units && u.id != id
  {
    FilterIsSubseq(units, IdIsNot(id));
    Filter(units, IdIsNot(id))
  }

  /** `handleRemoveUnit` for the unit a slot shows. */
  function HandleRemoveUnit(list: ArmyList, det: Detachment, removed: Unit): (r: ArmyList)
    ensures |r.detachments| == |list.detachments|
    ensures forall i :: 0 <= i < |list.detachments| && list.detachments[i].id == det.id ==>
      IsSubseq(r.detachments[i].units, det.units) &&
      forall u :: u in r.detachments[i].units <==> u in det.units && u.id != removed.id
  {
    UpdateDetachmentUnits(list, det, WithoutUnit(det.units, removed.id))
  }

  /** `handleUndoRemove(unit)` given the units it should extend: the unit goes
      back at the end. */
  function HandleUndoRemove(list: ArmyList, det: Detachment, restored: Unit): (r: ArmyList)
    ensures |r.detachments| == |list.detachments|
    ensures forall i :: 0 <= i < |list.detachments| && list.detachments[i].id == det.id ==>
      r.detachments[i].units == det.units + [restored]
  {
    UpdateDetachmentUnits(list, det, det.units + [restored])
  }

  /** Removing a unit whose id is unique in its detachment lowers the points
      by its cost. */
  lemma RemovalLowersTotals(list: ArmyList, k: nat, j: nat)
    requires Priced(list) && k < |list.detachments| && UniqueDetachmentIds(list.detachments)
    requires j < |list.detachments[k].units| && UniqueUnitIds(list.detachments[k].units)
    ensures var det := list.detachments[k];
      var u := det.units[j];
      var r := HandleRemoveUnit(list, det, u);
      Priced(r) &&
      r.detachments[k].totalPoints == det.totalPoints - u.totalCost &&
      r.totalPoints == list.totalPoints - u.totalCost
  {
    var det := list.detachments[k];
    var u := det.units[j];
    assert det in list.detachments;
    FilterOnlyMatch(det.units, IdIs(u.id), j);
    SumOfPartition(det.units, IdIsNot(u.id), IdIs(u.id), UnitCost);
    assert SumOf([u], UnitCost) == u.totalCost by { assert [u][..0] == []; }
    UpdateMovesTotals(list, k, WithoutUnit(det.units, u.id));
  }

  /** Undo against the list and detachment as they are after the removal puts
      every point back. */
  lemma RemoveThenUndoRestoresTotals(list: ArmyList, k: nat, j: nat)
    requires Priced(list) && k < |list.detachments| && UniqueDetachmentIds(list.detachments)
    requires j < |list.detachments[k].units| && UniqueUnitIds(list.detachments[k].units)
    ensures var det := list.detachments[k];
      var u := det.units[j];
      var after := HandleRemoveUnit(list, det, u);
      var back := HandleUndoRemove(after, after.detachments[k], u);
      Priced(back) &&
      back.detachments[k].totalPoints == det.totalPoints &&
      back.totalPoints == list.totalPoints &&
      forall v :: v in back.detachments[k].units <==> v in det.units
  {
    var det := list.detachments[k];
    var u := det.units[j];
    RemovalKeepsShape(list, k, j);
    UndoRaisesTotals(HandleRemoveUnit(list, det, u), k, u);
    RemoveThenAppendMembers(det.units, j);
  }

  /** After the removal the list is still priced, its detachment ids are
      still unique, and the detachment at `k` holds the other units. */
  lemma RemovalKeepsShape(list: ArmyList, k: nat, j: nat)
    requires Priced(list) && k < |list.detachments| && UniqueDetachmentIds(list.detachments)
    requires j < |list.detachments[k].units| && UniqueUnitIds(list.detachments[k].units)
    ensures var det := list.detachments[k];
      var u := det.units[j];
      var after := HandleRemoveUnit(list, det, u);
      Priced(after) && UniqueDetachmentIds(after.detachments) &&
      after.detachments[k].units == WithoutUnit(det.units, u.id) &&
      after.detachments[k].totalPoints == det.totalPoints - u.totalCost &&
      after.totalPoints == list.totalPoints - u.totalCost
  {
    var det := list.detachments[k];
    var u := det.units[j];
    RemovalLowersTotals(list, k, j);
    var after := HandleRemoveUnit(list, det, u);
    UpdateReplacesOne(list, k, WithoutUnit(det.units, u.id));
    assert forall i :: 0 <= i < |after.detachments| ==> after.detachments[i].id == list.detachments[i].id;
  }

  /** Undo through the detachment at `k` appends the unit and raises both
      totals by its cost. */
  lemma UndoRaisesTotals(list: ArmyList, k: nat, u: Unit)
    requires Priced(list) && k < |list.detachments| && UniqueDetachmentIds(list.detachments)
    ensures var det := list.detachments[k];
      var back := HandleUndoRemove(list, det, u);
      Priced(back) &&
      back.detachments[k].units == det.units + [u] &&
      back.detachments[k].totalPoints == det.totalPoints + u.totalCost &&
      back.totalPoints == list.totalPoints + u.totalCost
  {
    var det := list.detachments[k];
    assert det in list.detachments;
    SumOfAppend(det.units, [u], UnitCost);
    assert SumOf([u], UnitCost) == u.totalCost by { assert [u][..0] == []; }
    UpdateMovesTotals(list, k, det.units + [u]);
    UpdateReplacesOne(list, k, det.units + [u]);
  }

  /** Dropping the unit with a unique id and appending it again keeps the
      same units. */
  lemma RemoveThenAppendMembers(units: seq<Unit>, j: nat)
    requires j < |units| && UniqueUnitIds(units)
    ensures forall v :: v in WithoutUnit(units, units[j].id) + [units[j]] <==> v in units
  {
    var u := units[j];
    forall v | v in units ensures v in WithoutUnit(units, u.id) + [u] {
      var i :| 0 <= i < |units| && units[i] == v;
      if v.id == u.id {
        assert i == j;
      }
    }
  }

  /** Appending a unit already present once makes it present twice. */
  lemma AppendPresentTwice(units: seq<Unit>, j: nat)
    requires j < |units| && UniqueUnitIds(units)
    ensures |Filter(units + [units[j]], IdIs(units[j].id))| == 2
  {
    var u := units[j];
    FilterOnlyMatch(units, IdIs(u.id), j);
    FilterAppend(units, [u], IdIs(u.id));
    assert [u][1..] == [];
  }

  /** As written, the undo closure still holds the list and detachment from
      before the removal, so undo appends the unit to units that still contain
      it: the unit appears twice and its cost is counted twice. */
  lemma StaleUndoDuplicates(list: ArmyList, k: nat, j: nat)
    requires Priced(list) && k < |list.detachments| && UniqueDetachmentIds(list.detachments)
    requires j < |list.detachments[k].units| && UniqueUnitIds(list.detachments[k].units)
    ensures var det := list.detachments[k];
      var u := det.units[j];
      var back := HandleUndoRemove(list, det, u);
      |Filter(back.detachments[k].units, IdIs(u.id))| == 2 &&
      back.detachments[k].totalPoints == det.totalPoints + u.totalCost &&
      back.totalPoints == list.totalPoints + u.totalCost
  {
    var det := list.detachments[k];
    var u := det.units[j];
    assert det in list.detachments;
    AppendPresentTwice(det.units, j);
    SumOfAppend(det.units, [u], UnitCost);
    assert SumOf([u], UnitCost) == u.totalCost by { assert [u][..0] == []; }
    UpdateMovesTotals(list, k, det.units + [u]);
  }
}
