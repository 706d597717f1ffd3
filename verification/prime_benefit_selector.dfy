/** The prime-slot benefit picker (components/PrimeBenefitSelector.js): the
    logistical benefit is disabled while another unit of the detachment holds
    it, so at most one unit holds it. */
module PrimeBenefitSelector {
  import opened Wrappers
  import opened Records

  /** `isLogisticalBenefitUsed`: another unit of the detachment holds it. */
  predicate IsLogisticalBenefitUsed(det: Option<Detachment>, currentUnitId: string)
  {
    det.Some? && exists u :: u in det.value.units && u.id != currentUnitId && HoldsLogistical(u)
  }

  /** `isDisabled` for one benefit button. */
  predicate IsDisabled(b: Benefit, det: Option<Detachment>, currentUnitId: string)
  {
    b.id == LogisticalBenefitId && IsLogisticalBenefitUsed(det, currentUnitId)
  }

  /** A press on a benefit button or on "No Benefit". */
  datatype Click = PickBenefit(benefit: Benefit) | PickNone

  /** What reaches `onBenefitChange`: `None` when nothing is called (the slot
      is not prime, or the button is disabled), `Some(choice)` otherwise. */
  function Choose(isPrimeSlot: bool, det: Option<Detachment>, currentUnitId: string, click: Click): (r: Option<Option<Benefit>>)
    ensures !isPrimeSlot ==> r.None?
    ensures isPrimeSlot && click.PickNone? ==> r == Some(None)
    ensures isPrimeSlot && click.PickBenefit? ==>
      (r.None? <==> click.benefit.id == LogisticalBenefitId && IsLogisticalBenefitUsed(det, currentUnitId))
    ensures r.Some? && r.value.Some? ==> click == PickBenefit(r.value.value)
  {
    if !isPrimeSlot then None
    else match click
      case PickNone => Some(None)
      case PickBenefit(b) => if IsDisabled(b, det, currentUnitId) then None else Some(Some(b))
  }

  /** The unit editor's write-back of the chosen benefit to the unit with the id. */
  function SetBenefit(units: seq<Unit>, unitId: string, choice: Option<Benefit>): (r: seq<Unit>)
    ensures |r| == |units|
    ensures forall i :: 0 <= i < |units| ==>
      r[i] == if units[i].id == unitId then units[i].(primeBenefit := choice) else units[i]
  {
    seq(|units|, i requires 0 <= i < |units| =>
      if units[i].id == unitId then units[i].(primeBenefit := choice) else units[i])
  }

  ghost predicate AtMostOneHolder(units: seq<Unit>)
  {
    forall i, j :: 0 <= i < j < |units| && HoldsLogistical(units[i]) ==> !HoldsLogistical(units[j])
  }

  ghost predicate UniqueIds(units: seq<Unit>)
  {
    forall i, j :: 0 <= i < j < |units| ==> units[i].id != units[j].id
  }

  /** The current unit's own benefit never disables the logistical button. */
  lemma UsedIgnoresCurrentUnit(det: Detachment, currentUnitId: string, choice: Option<Benefit>)
    ensures IsLogisticalBenefitUsed(Some(det.(units := SetBenefit(det.units, currentUnitId, choice))), currentUnitId)
      == IsLogisticalBenefitUsed(Some(det), currentUnitId)
  {
    var units' := SetBenefit(det.units, currentUnitId, choice);
    if IsLogisticalBenefitUsed(Some(det), currentUnitId) {
      var u :| u in det.units && u.id != currentUnitId && HoldsLogistical(u);
      OtherHolderKept(det.units, currentUnitId, choice, u);
    }
    if IsLogisticalBenefitUsed(Some(det.(units := units')), currentUnitId) {
      var u :| u in units' && u.id != currentUnitId && HoldsLogistical(u);
      OtherHolderWasThere(det.units, currentUnitId, choice, u);
    }
  }

  lemma OtherHolderKept(units: seq<Unit>, currentUnitId: string, choice: Option<Benefit>, u: Unit)
    requires u in units && u.id != currentUnitId
    ensures u in SetBenefit(units, currentUnitId, choice)
  {
    var i :| 0 <= i < |units| && units[i] == u;
    assert SetBenefit(units, currentUnitId, choice)[i] == u;
  }

  lemma OtherHolderWasThere(units: seq<Unit>, currentUnitId: string, choice: Option<Benefit>, u: Unit)
    requires u in SetBenefit(units, currentUnitId, choice) && u.id != currentUnitId
    ensures u in units
  {
    var r := SetBenefit(units, currentUnitId, choice);
    var i :| 0 <= i < |r| && r[i] == u;
    assert units[i] == u;
  }

  /** A change made through the picker keeps the logistical benefit with at
      most one unit of the detachment. */
  lemma ChoiceKeepsSingleHolder(det: Detachment, currentUnitId: string, click: Click)
    requires AtMostOneHolder(det.units) && UniqueIds(det.units)
    ensures var r := Choose(true, Some(det), currentUnitId, click);
      r.Some? ==> AtMostOneHolder(SetBenefit(det.units, currentUnitId, r.value))
  {
    var r := Choose(true, Some(det), currentUnitId, click);
    if r.Some? {
      var units' := SetBenefit(det.units, currentUnitId, r.value);
      if r.value.Some? && r.value.value.id == LogisticalBenefitId {
        forall i, j | 0 <= i < j < |units'| && HoldsLogistical(units'[i])
          ensures !HoldsLogistical(units'[j])
        {
          assert det.units[i] in det.units && det.units[j] in det.units;
        }
      } else {
        forall i, j | 0 <= i < j < |units'| && HoldsLogistical(units'[i])
          ensures !HoldsLogistical(units'[j])
        {
          assert HoldsLogistical(det.units[i]);
        }
      }
    }
  }
}
