/** The slots of one role section of a detachment (sections/RoleSlotSection.js):
    `quantity` numbered slots, their indices shifted past the template's fixed
    slots when the role was added by a logistical benefit, each showing the
    unit placed at that index. */
module RoleSlotSection {
  import opened Wrappers
  import opened Seqs
  import opened Records

  /** `{slotNumber, slotIndex, isPrime, unit, isLogisticalBenefit}`. */
  datatype SlotView = SlotView(slotNumber: int, slotIndex: int, isPrime: bool, unit: Option<Unit>, isLogisticalBenefit: bool)

  /** `specs.find(r => r.role === role)`. */
  function FirstWithRole(specs: seq<RoleSlotSpec>, role: string): (r: Option<RoleSlotSpec>)
    ensures r.None? <==> forall s :: s in specs ==> s.role != role
    ensures r.Some? ==> r.value in specs && r.value.role == role
  {
    if specs == [] then None
    else if specs[0].role == role then Some(specs[0])
    else
      assert forall s :: s in specs ==> s == specs[0] || s in specs[1..];
      FirstWithRole(specs[1..], role)
  }

  /** The spec found is the first one with the role. */
  lemma {:induction false} FirstWithRoleIsFirst(specs: seq<RoleSlotSpec>, role: string, k: nat)
    requires k < |specs| && specs[k].role == role
    requires forall j :: 0 <= j < k ==> specs[j].role != role
    ensures FirstWithRole(specs, role) == Some(specs[k])
  {
    if k > 0 {
      FirstWithRoleIsFirst(specs[1..], role, k - 1);
    }
  }

  function RoleIs(role: string): Unit -> bool
  {
    (u: Unit) => u.role == role
  }

  /** `detachment.units.filter(u => u.role === role)`. */
  function UnitsInRole(units: seq<Unit>, role: string): (r: seq<Unit>)
    ensures IsSubseq(r, units)
    ensures forall u :: u in r <==> u in units && u.role == role
  {
    FilterIsSubseq(units, RoleIs(role));
    Filter(units, RoleIs(role))
  }

  /** `unitsInRole.find(u => u.slotIndex === index)`. */
  function FirstAtIndex(units: seq<Unit>, index: int): (r: Option<Unit>)
    ensures r.None? <==> forall u :: u in units ==> u.slotIndex != index
    ensures r.Some? ==> r.value in units && r.value.slotIndex == index
  {
    if units == [] then None
    else if units[0].slotIndex == index then Some(units[0])
    else
      assert forall u :: u in units ==> u == units[0] || u in units[1..];
      FirstAtIndex(units[1..], index)
  }

  /** The unit a slot shows: the first unit of the detachment with the role and
      the index, if any. */
  function Occupant(units: seq<Unit>, role: string, index: int): (r: Option<Unit>)
    ensures r.None? <==> forall u :: u in units ==> !(u.role == role && u.slotIndex == index)
    ensures r.Some? ==> r.value in units && r.value.role == role && r.value.slotIndex == index
  {
    FirstAtIndex(UnitsInRole(units, role), index)
  }

  /** The occupant of a slot is the first unit, in detachment order, with the
      slot's role and index. */
  lemma {:induction false} OccupantIsFirst(units: seq<Unit>, role: string, index: int, k: nat)
    requires k < |units| && units[k].role == role && units[k].slotIndex == index
    requires forall j :: 0 <= j < k ==> !(units[j].role == role && units[j].slotIndex == index)
    ensures Occupant(units, role, index) == Some(units[k])
    decreases k
  {
    assert units == [units[0]] + units[1..];
    if k > 0 {
      OccupantIsFirst(units[1..], role, index, k - 1);
      if units[0].role == role {
        assert UnitsInRole(units, role) == [units[0]] + UnitsInRole(units[1..], role);
      } else {
        assert UnitsInRole(units, role) == UnitsInRole(units[1..], role);
      }
    }
  }

  /** `slotIndexOffset`: for an added role (truthy `triggeredBy`) with a
      template, the quantity of the template's first slot spec for the role;
      otherwise 0. A template without `role_slots` is one with none. */
  function SlotIndexOffset(spec: RoleSlotSpec, template: Option<DetachmentTemplate>): (offset: int)
    ensures !Truthy(spec.triggeredBy) || template.None? ==> offset == 0
    ensures Truthy(spec.triggeredBy) && template.Some? ==>
      match FirstWithRole(template.value.roleSlots, spec.role)
      case None => offset == 0
      case Some(fixed) => offset == fixed.quantity
  {
    if Truthy(spec.triggeredBy) && template.Some? then
      match FirstWithRole(template.value.roleSlots, spec.role)
      case Some(fixed) => fixed.quantity
      case None => 0
    else 0
  }

  /** The slots of the section, built by the counted loop. */
  method BuildSlots(spec: RoleSlotSpec, units: seq<Unit>, template: Option<DetachmentTemplate>)
    returns (slots: seq<SlotView>)
    ensures |slots| == if spec.quantity > 0 then spec.quantity else 0
    ensures forall i :: 0 <= i < |slots| ==>
      slots[i].slotNumber == i + 1 &&
      slots[i].slotIndex == SlotIndexOffset(spec, template) + i &&
      (slots[i].isPrime <==> i + 1 in spec.primeSlots) &&
      slots[i].unit == Occupant(units, spec.role, slots[i].slotIndex) &&
      slots[i].isLogisticalBenefit == Truthy(spec.triggeredBy)
  {
    var unitsInRole := UnitsInRole(units, spec.role);
    var slotIndexOffset := 0;
    if Truthy(spec.triggeredBy) && template.Some? {
      var templateRoleSlot := FirstWithRole(template.value.roleSlots, spec.role);
      if templateRoleSlot.Some? {
        slotIndexOffset := templateRoleSlot.value.quantity;
      }
    }
    slots := [];
    var i := 0;
    while i < spec.quantity
      invariant 0 <= i <= if spec.quantity > 0 then spec.quantity else 0
      invariant |slots| == i
      invariant forall k :: 0 <= k < i ==>
        slots[k].slotNumber == k + 1 &&
        slots[k].slotIndex == slotIndexOffset + k &&
        (slots[k].isPrime <==> k + 1 in spec.primeSlots) &&
        slots[k].unit == FirstAtIndex(unitsInRole, slots[k].slotIndex) &&
        slots[k].isLogisticalBenefit == Truthy(spec.triggeredBy)
    {
      var slotNumber := i + 1;
      var actualSlotIndex := slotIndexOffset + i;
      var isPrime := slotNumber in spec.primeSlots;
      var unit := FirstAtIndex(unitsInRole, actualSlotIndex);
      slots := slots + [SlotView(slotNumber, actualSlotIndex, isPrime, unit, Truthy(spec.triggeredBy))];
      i := i + 1;
    }
  }

  /** The slots of a role added by a logistical benefit never share an index
      with the slots of the template's fixed spec for that role. */
  lemma AddedRoleAfterFixed(fixed: RoleSlotSpec, added: RoleSlotSpec, template: DetachmentTemplate, i: int, j: int)
    requires FirstWithRole(template.roleSlots, added.role) == Some(fixed)
    requires !Truthy(fixed.triggeredBy) && Truthy(added.triggeredBy)
    requires 0 <= i < fixed.quantity && 0 <= j < added.quantity
    ensures SlotIndexOffset(fixed, Some(template)) + i < SlotIndexOffset(added, Some(template)) + j
  {
  }
}
