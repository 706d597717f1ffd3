/** The new-list form: its fields, the change handlers (choosing an army
    clears the faction), the validation and the list it builds. The same
    form shape is used by the list settings dialog. The random id, the clock
    and the signed-in state are parameters. */
module CreateList {
  import opened Wrappers
  import opened Records
  import Seqs
  import Text
  import ListSync
  import ArmySummary

  /** `{name, army, faction, allegiance, pointsLimit}`, every field as typed. */
  datatype ListForm = ListForm(name: string, army: string, faction: string, allegiance: string, pointsLimit: string)

  datatype Field = Name | Army | Faction | Allegiance | PointsLimit

  const EmptyForm: ListForm := ListForm("", "", "", "", "")

  function Get(form: ListForm, field: Field): string
  {
    match field
    case Name => form.name
    case Army => form.army
    case Faction => form.faction
    case Allegiance => form.allegiance
    case PointsLimit => form.pointsLimit
  }

  /** `handleChange`: sets the edited field; a change of army also clears the faction. */
  function HandleChange(form: ListForm, field: Field, value: string): (r: ListForm)
    ensures field != Army ==> Get(r, field) == value
    ensures field == Army ==> r.army == value && r.faction == ""
    ensures forall g :: g != field && !(field == Army && g == Faction) ==> Get(r, g) == Get(form, g)
  {
    match field
    case Name => form.(name := value)
    case Army => form.(army := value, faction := "")
    case Faction => form.(faction := value)
    case Allegiance => form.(allegiance := value)
    case PointsLimit => form.(pointsLimit := value)
  }

  /** An army button: sets the army and clears the faction. */
  function ChooseArmy(form: ListForm, army: string): (r: ListForm)
    ensures r.army == army && r.faction == ""
    ensures r.name == form.name && r.allegiance == form.allegiance && r.pointsLimit == form.pointsLimit
  {
    form.(army := army, faction := "")
  }

  /** The army buttons and the army field of the form do the same thing. */
  lemma ChooseArmyIsArmyChange(form: ListForm, army: string)
    ensures ChooseArmy(form, army) == HandleChange(form, Army, army)
  {
  }

  /** One of the required fields is empty. */
  predicate MissingRequired(form: ListForm)
  {
    form.name == "" || form.army == "" || form.faction == "" || form.allegiance == ""
  }

  /** `pointsLimit ? parseInt(pointsLimit) : null`; a text `parseInt` cannot
      read is stored as none. */
  function LimitFromField(text: string): (r: Option<int>)
    ensures text == "" ==> r == None
  {
    if text == "" then None else Text.ParseInt(text)
  }

  /** The decimal text of a limit reads back as that limit. */
  lemma LimitFieldRoundTrip(n: int)
    ensures LimitFromField(Text.IntToString(n)) == Some(n)
  {
    Text.IntToStringRoundTrip(n);
  }

  const PrimaryDetachmentName: string := "Crusade Primary Detachment"

  /** The detachment every new list starts with, created at `now` milliseconds. */
  function PrimaryDetachment(now: int): Detachment
  {
    Detachment("det-" + Text.IntToString(now), "crusade-primary", PrimaryDetachmentName, "Primary",
      true, 0, None, [], [])
  }

  /** `handleSubmit` up to the save: the list it builds from the form, or the
      validation message. `uuid` is `crypto.randomUUID()`, `now` is
      `Date.now()` and `isoNow` the ISO time. */
  function Submit(form: ListForm, signedIn: bool, uuid: string, now: int, isoNow: string): (r: Result<ArmyList, string>)
    ensures r.Err? <==> MissingRequired(form)
    ensures r.Ok? ==> r.value.id == (if signedIn then uuid else ListSync.LocalPrefix + uuid)
    ensures r.Ok? ==> (r.value.name == form.name && r.value.army == form.army
      && r.value.faction == form.faction && r.value.allegiance == form.allegiance)
    ensures r.Ok? ==> r.value.pointsLimit == LimitFromField(form.pointsLimit)
    ensures r.Ok? ==> r.value.totalPoints == 0 && r.value.isValid
    ensures r.Ok? ==> (|r.value.detachments| == 1
      && r.value.detachments[0].detachmentId == "crusade-primary"
      && r.value.detachments[0].kind == "Primary"
      && r.value.detachments[0].units == [] && r.value.detachments[0].addedRoles == []
      && r.value.detachments[0].triggeredBy == None && r.value.detachments[0].totalPoints == 0)
  {
    if MissingRequired(form) then Err("Please fill in all required fields")
    else
      Ok(ArmyList(
        if signedIn then uuid else "list-" + uuid,
        form.name, form.army, form.faction, form.allegiance,
        LimitFromField(form.pointsLimit), 0, true, [PrimaryDetachment(now)],
        Some(isoNow), Some(isoNow), None))
  }

  /** A new list, however it is created, is stored in the cloud under the
      random id alone. */
  lemma NewListCloudId(form: ListForm, signedIn: bool, uuid: string, now: int, isoNow: string)
    requires !MissingRequired(form)
    requires !Text.Contains(uuid, ListSync.LocalPrefix)
    ensures ListSync.CloudId(Submit(form, signedIn, uuid, now, isoNow).value.id) == uuid
  {
    var id := Submit(form, signedIn, uuid, now, isoNow).value.id;
    if !signedIn {
      assert Text.StartsWith(id, ListSync.LocalPrefix) by {
        assert id[..|ListSync.LocalPrefix|] == ListSync.LocalPrefix;
      }
      assert id[|ListSync.LocalPrefix|..] == uuid;
    }
  }

  /** A new list has no units: the summary shows no detachment section and
      counts no units. */
  lemma NewListShowsNothing(form: ListForm, signedIn: bool, uuid: string, now: int, isoNow: string)
    requires !MissingRequired(form)
    ensures var list := Submit(form, signedIn, uuid, now, isoNow).value;
      ArmySummary.TotalUnits(list) == 0 && ArmySummary.ShownDetachments(list.detachments) == []
  {
    var list := Submit(form, signedIn, uuid, now, isoNow).value;
    var ds := list.detachments;
    assert ds == [PrimaryDetachment(now)];
    assert ds[..|ds| - 1] == [];
    assert ArmySummary.UnitCount()(ds[0]) == 0;
    assert ArmySummary.TotalUnits(list) == Seqs.SumOf([], ArmySummary.UnitCount()) + 0;
  }

  /** `handleSubmit` after the list is built: a signed-in user's list must be
      saved to the cloud first (`cloudSaved`); on failure nothing is stored.
      Otherwise the list is appended to the stored lists. */
  function StoreNewList(stored: seq<ArmyList>, list: ArmyList, signedIn: bool, cloudSaved: bool): (r: Option<seq<ArmyList>>)
    ensures r.None? <==> signedIn && !cloudSaved
    ensures r.Some? ==> |r.value| == |stored| + 1 && r.value[..|stored|] == stored && r.value[|stored|] == list
  {
    if signedIn && !cloudSaved then None else Some(stored + [list])
  }
}
