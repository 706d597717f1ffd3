/** What a detachment card derives from its detachment
    (components/DetachmentCard.js): the units holding the logistical benefit,
    whether one of them has not yet added a role, the role sections shown, and
    which controls appear. */
module DetachmentCard {
  import opened Wrappers
  import opened Seqs
  import opened Records

  /** `getLogisticalBenefitUnits()`. */
  function LogisticalUnits(units: seq<Unit>): (r: seq<Unit>)
    ensures IsSubseq(r, units)
    ensures forall u :: u in r <==> u in units && HoldsLogistical(u)
  {
    FilterIsSubseq(units, HoldsLogistical);
    Filter(units, HoldsLogistical)
  }

  /** Some added role names the unit as its trigger. */
  predicate HasAddedRole(addedRoles: seq<RoleSlotSpec>, unitId: string)
  {
    exists r :: r in addedRoles && r.triggeredBy == Some(unitId)
  }

  /** `hasUnusedLogisticalBenefits`. */
  function HasUnusedLogisticalBenefits(det: Detachment): (b: bool)
    ensures b <==> exists u :: u in det.units && HoldsLogistical(u) && !HasAddedRole(det.addedRoles, u.id)
  {
    exists u :: u in LogisticalUnits(det.units) && !HasAddedRole(det.addedRoles, u.id)
  }

  /** `allRoleSlots`: the template's fixed specs, then the added ones. */
  function AllRoleSlots(template: DetachmentTemplate, det: Detachment): (r: seq<RoleSlotSpec>)
    ensures |r| == |template.roleSlots| + |det.addedRoles|
    ensures r[..|template.roleSlots|] == template.roleSlots && r[|template.roleSlots|..] == det.addedRoles
  {
    template.roleSlots + det.addedRoles
  }

  /** The unlock counts the card receives. */
  datatype Available = Available(apex: int, auxiliary: int)

  /** Which buttons the card shows. */
  datatype Controls = Controls(removeDetachment: bool, addApex: bool, addAuxiliary: bool, addLogisticalRole: bool)

  const PrimaryId: string := "crusade-primary"

  /** The card's controls: none while the template is loading; the Remove
      button on every detachment but the primary one; the add buttons only on
      the primary one, each behind its own guard. */
  function ShownControls(det: Detachment, template: Option<DetachmentTemplate>, available: Available): (c: Controls)
    ensures template.None? ==> c == Controls(false, false, false, false)
    ensures template.Some? ==> (c.removeDetachment <==> det.detachmentId != PrimaryId)
    ensures c.addApex <==> template.Some? && det.detachmentId == PrimaryId && available.apex > 0
    ensures c.addAuxiliary <==> template.Some? && det.detachmentId == PrimaryId && available.auxiliary > 0
    ensures c.addLogisticalRole <==> template.Some? && det.detachmentId == PrimaryId && HasUnusedLogisticalBenefits(det)
    ensures c.removeDetachment ==> !c.addApex && !c.addAuxiliary && !c.addLogisticalRole
  {
    if template.None? then Controls(false, false, false, false)
    else
      var primary := det.detachmentId == PrimaryId;
      Controls(!primary, primary && available.apex > 0, primary && available.auxiliary > 0,
        primary && HasUnusedLogisticalBenefits(det))
  }

  /** The unit add-role mode starts with: `logisticalUnits[0]`, when the
      button is there to press. */
  function AddRoleTrigger(det: Detachment): (r: Option<Unit>)
    ensures r.Some? <==> HasUnusedLogisticalBenefits(det)
    ensures r.Some? ==> r.value in det.units && HoldsLogistical(r.value)
  {
    if HasUnusedLogisticalBenefits(det) then
      var ls := LogisticalUnits(det.units);
      assert ls != [] by {
        var u :| u in det.units && HoldsLogistical(u) && !HasAddedRole(det.addedRoles, u.id);
        assert u in ls;
      }
      assert ls[0] in ls;
      Some(ls[0])
    else None
  }

  /** While at most one unit holds the benefit, the trigger is a unit that has
      not added a role yet. */
  lemma TriggerUnusedWhenSingleHolder(det: Detachment)
    requires |LogisticalUnits(det.units)| <= 1
    ensures var r := AddRoleTrigger(det); r.Some? ==> !HasAddedRole(det.addedRoles, r.value.id)
  {
    var r := AddRoleTrigger(det);
    if r.Some? {
      var u :| u in det.units && HoldsLogistical(u) && !HasAddedRole(det.addedRoles, u.id);
      var ls := LogisticalUnits(det.units);
      assert u in ls;
      assert ls == [ls[0]];
    }
  }

  function Logistical(): Benefit
  {
    Benefit(LogisticalBenefitId, "Logistical Benefit", "")
  }

  function Holder(id: string): Unit
  {
    Unit(id, 0, "t", id, "Troops", true, 10, 0, 10, [], [], [], Some(Logistical()), false)
  }

  /** With two holders, the trigger is always the first, even after it has
      added its role. */
  lemma TriggerIgnoresUsedFirstHolder()
    ensures var det := Detachment("d", PrimaryId, "Primary", "Primary", true, 20, None,
        [Holder("a"), Holder("b")], [RoleSlotSpec("Elites", 1, [], Some("a"))]);
      HasUnusedLogisticalBenefits(det) && AddRoleTrigger(det) == Some(Holder("a")) &&
      HasAddedRole(det.addedRoles, "a")
  {
    var det := Detachment("d", PrimaryId, "Primary", "Primary", true, 20, None,
        [Holder("a"), Holder("b")], [RoleSlotSpec("Elites", 1, [], Some("a"))]);
    assert det.units[1] in det.units;
    assert LogisticalUnits(det.units) == [Holder("a"), Holder("b")] by {
      FilterAll(det.units, HoldsLogistical);
    }
    assert det.addedRoles[0] in det.addedRoles;
    assert !HasAddedRole(det.addedRoles, "b");
  }
}
