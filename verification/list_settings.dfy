/** The list settings dialog: the form filled from a list, and the save
    that writes the edited fields back over the list. */
module ListSettings {
  import opened Wrappers
  import opened Records
  import Text
  import ArmySummary
  import CreateList

  /** The form as the dialog fills it from a list; an unset (or zero) limit
      shows as an empty field. */
  function InitForm(list: ArmyList): (form: CreateList.ListForm)
    ensures form.name == list.name && form.army == list.army
    ensures form.faction == list.faction && form.allegiance == list.allegiance
    ensures form.pointsLimit == "" <==> !ArmySummary.LimitIsSet(list.pointsLimit)
  {
    CreateList.ListForm(list.name, list.army, list.faction, list.allegiance,
      if ArmySummary.LimitIsSet(list.pointsLimit) then Text.IntToString(list.pointsLimit.value) else "")
  }

  /** `handleSave` as written: the required fields are checked before the
      name is trimmed, so a name of spaces passes and is saved empty. */
  function SaveAsWritten(list: ArmyList, form: CreateList.ListForm): (r: Result<ArmyList, string>)
    ensures r.Err? <==> CreateList.MissingRequired(form)
  {
    if CreateList.MissingRequired(form) then Err("Please fill in all required fields")
    else Ok(list.(name := Text.Trim(form.name), army := form.army, faction := form.faction,
      allegiance := form.allegiance, pointsLimit := CreateList.LimitFromField(form.pointsLimit)))
  }

  /** A name of a single space is accepted and saved as the empty name. */
  lemma BlankNameSavedEmpty(list: ArmyList)
    ensures var form := CreateList.ListForm(" ", "Mechanicum", "All", "Traitor", "");
      SaveAsWritten(list, form).Ok? && SaveAsWritten(list, form).value.name == ""
  {
    Text.TrimAfterSpace("");
    assert " " == " " + "";
  }

  /** The form with the name trimmed, as it is checked and saved. */
  function Trimmed(form: CreateList.ListForm): CreateList.ListForm
  {
    form.(name := Text.Trim(form.name))
  }

  /** `handleSave` checking the name it saves: the list with only the name
      (trimmed), army, faction, allegiance and points limit replaced. */
  function Save(list: ArmyList, form: CreateList.ListForm): (r: Result<ArmyList, string>)
    ensures r.Err? <==> CreateList.MissingRequired(Trimmed(form))
    ensures r.Ok? ==> r.value.name != "" && Text.IsTrimmed(r.value.name)
    ensures r.Ok? ==> (r.value.id == list.id && r.value.detachments == list.detachments
      && r.value.totalPoints == list.totalPoints && r.value.isValid == list.isValid)
    ensures r.Ok? ==> r.value.pointsLimit == CreateList.LimitFromField(form.pointsLimit)
  {
    var t := Trimmed(form);
    if CreateList.MissingRequired(t) then Err("Please fill in all required fields")
    else Ok(list.(name := t.name, army := t.army, faction := t.faction,
      allegiance := t.allegiance, pointsLimit := CreateList.LimitFromField(t.pointsLimit)))
  }

  /** Where the name has no surrounding spaces, the checked save and the
      save as written agree. */
  lemma SaveAgreesOnTrimmedNames(list: ArmyList, form: CreateList.ListForm)
    requires Text.IsTrimmed(form.name)
    ensures Save(list, form) == SaveAsWritten(list, form)
  {
    Text.TrimOfTrimmed(form.name);
  }

  /** Opening the dialog and saving without edits gives back the list, except
      that a zero limit is cleared. */
  lemma SaveUnchangedForm(list: ArmyList)
    requires list.name != "" && Text.IsTrimmed(list.name)
    requires list.army != "" && list.faction != "" && list.allegiance != ""
    ensures Save(list, InitForm(list)) ==
      Ok(list.(pointsLimit := if ArmySummary.LimitIsSet(list.pointsLimit) then list.pointsLimit else None))
  {
    Text.TrimOfTrimmed(list.name);
    if ArmySummary.LimitIsSet(list.pointsLimit) {
      CreateList.LimitFieldRoundTrip(list.pointsLimit.value);
    }
  }
}
