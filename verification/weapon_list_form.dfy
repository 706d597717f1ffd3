/** The weapon-list form: adding, removing and editing the weapons of a
    list, and the checks before it is saved. Costs are typed as text and read
    with `parseInt(...) || 0`. */
module WeaponListForm {
  import opened Wrappers
  import opened Seqs
  import opened Records
  import Text

  /** `{name, weapons}`. */
  datatype Form = Form(name: string, weapons: seq<Weapon>)

  /** The new-weapon inputs `{name, cost}`. */
  datatype WeaponInput = WeaponInput(name: string, cost: string)

  const EmptyInput: WeaponInput := WeaponInput("", "0")

  /** The form opened on an existing list, or empty for a new one. */
  function InitForm(list: Option<WeaponList>): (form: Form)
    ensures list.None? ==> form == Form("", [])
    ensures list.Some? ==> form.name == list.value.name && form.weapons == list.value.weapons
  {
    match list
    case None => Form("", [])
    case Some(l) => Form(l.name, l.weapons)
  }

  /** `handleAddWeapon`: a blank name is refused and nothing changes;
      otherwise the trimmed weapon is appended and the inputs are cleared. */
  function AddWeapon(form: Form, input: WeaponInput): (r: (Form, WeaponInput))
    ensures Text.Trim(input.name) == "" ==> r == (form, input)
    ensures Text.Trim(input.name) != "" ==> (r.0.name == form.name && r.1 == EmptyInput
      && |r.0.weapons| == |form.weapons| + 1 && r.0.weapons[..|form.weapons|] == form.weapons)
    ensures Text.Trim(input.name) != "" ==> (var w := r.0.weapons[|form.weapons|];
      && w.id.None? && w.name != "" && Text.IsTrimmed(w.name) && w.name == Text.Trim(input.name)
      && w.cost == Text.ParseInt(input.cost).GetOr(0))
  {
    if Text.Trim(input.name) == "" then (form, input)
    else (form.(weapons := form.weapons + [Weapon(None, Text.Trim(input.name), Text.ParseIntOrZero(input.cost))]), EmptyInput)
  }

  /** `handleDeleteWeapon`: the weapon at `index` goes; the others keep their order. */
  function DeleteWeapon(form: Form, index: int): (r: Form)
    ensures r.name == form.name
    ensures 0 <= index < |form.weapons| ==> (|r.weapons| == |form.weapons| - 1
      && r.weapons[..index] == form.weapons[..index] && r.weapons[index..] == form.weapons[index + 1..])
    ensures !(0 <= index < |form.weapons|) ==> r == form
  {
    RemoveAtIsIndexFilter(form.weapons, index);
    form.(weapons := DropIndex(form.weapons, index, 0))
  }

  /** Adding a weapon and deleting it again gives back the form. */
  lemma AddThenDelete(form: Form, input: WeaponInput)
    requires Text.Trim(input.name) != ""
    ensures DeleteWeapon(AddWeapon(form, input).0, |form.weapons|) == form
  {
    var added := AddWeapon(form, input).0;
    assert added.weapons[..|form.weapons|] == form.weapons;
  }

  /** The edits of one weapon row. */
  datatype WeaponEdit = SetName(name: string) | SetCost(cost: string)

  /** `handleUpdateWeapon`: one field of the weapon at `index`; a cost is read
      with `parseInt(...) || 0`. The other weapons are untouched. */
  function UpdateWeapon(form: Form, index: nat, edit: WeaponEdit): (r: Form)
    requires index < |form.weapons|
    ensures r.name == form.name && |r.weapons| == |form.weapons|
    ensures forall j :: 0 <= j < |form.weapons| && j != index ==> r.weapons[j] == form.weapons[j]
    ensures r.weapons[index].id == form.weapons[index].id
    ensures edit.SetName? ==> r.weapons[index].name == edit.name && r.weapons[index].cost == form.weapons[index].cost
    ensures edit.SetCost? ==> (r.weapons[index].name == form.weapons[index].name
      && r.weapons[index].cost == Text.ParseInt(edit.cost).GetOr(0))
  {
    var w := form.weapons[index];
    var w' := match edit
      case SetName(n) => w.(name := n)
      case SetCost(c) => w.(cost := Text.ParseIntOrZero(c));
    form.(weapons := form.weapons[index := w'])
  }

  /** Typing a cost's decimal text sets exactly that cost. */
  lemma CostTextRoundTrip(form: Form, index: nat, n: int)
    requires index < |form.weapons|
    ensures UpdateWeapon(form, index, SetCost(Text.IntToString(n))).weapons[index].cost == n
  {
    Text.IntToStringRoundTrip(n);
  }

  /** `handleSave`: a blank name, or no weapons, is refused; otherwise the
      form is passed on as it is, name untrimmed. */
  function Save(form: Form): (r: Result<Form, string>)
    ensures r.Err? <==> Text.Trim(form.name) == "" || form.weapons == []
    ensures r.Ok? ==> r.value == form
  {
    if Text.Trim(form.name) == "" then Err("Please enter a weapon list name")
    else if form.weapons == [] then Err("Please add at least one weapon")
    else Ok(form)
  }

  /** A named form with one weapon added through the inputs can be saved. */
  lemma SaveAfterAdd(form: Form, input: WeaponInput)
    requires Text.Trim(form.name) != "" && Text.Trim(input.name) != ""
    ensures Save(AddWeapon(form, input).0).Ok?
  {
  }
}
