/** The unit template form of the admin pages: the list fields (factions,
    allegiances, wargear, special rules, composition) edited by add, remove
    and toggle, the army change, and the checks before a unit is saved. */
module UnitForm {
  import opened Wrappers
  import opened Seqs
  import opened Records
  import Text

  /** The form's fields; `baseCost` is the text of the cost input. */
  datatype Form = Form(
    name: string,
    role: string,
    baseCost: string,
    army: string,
    factions: seq<string>,
    allegiances: seq<string>,
    baseWargear: seq<string>,
    specialRules: seq<string>,
    unitComposition: seq<string>,
    equipmentOptions: seq<OptionGroup>)

  datatype ListField = Factions | Allegiances | BaseWargear | SpecialRules | UnitComposition

  const EmptyForm: Form := Form("", "", "", "", [], [], [], [], [], [])

  function GetList(form: Form, field: ListField): seq<string>
  {
    match field
    case Factions => form.factions
    case Allegiances => form.allegiances
    case BaseWargear => form.baseWargear
    case SpecialRules => form.specialRules
    case UnitComposition => form.unitComposition
  }

  /** The form with one list field replaced and every other field kept. */
  function SetList(form: Form, field: ListField, xs: seq<string>): (r: Form)
    ensures GetList(r, field) == xs
    ensures forall g :: g != field ==> GetList(r, g) == GetList(form, g)
    ensures r.name == form.name && r.role == form.role && r.baseCost == form.baseCost
      && r.army == form.army && r.equipmentOptions == form.equipmentOptions
  {
    match field
    case Factions => form.(factions := xs)
    case Allegiances => form.(allegiances := xs)
    case BaseWargear => form.(baseWargear := xs)
    case SpecialRules => form.(specialRules := xs)
    case UnitComposition => form.(unitComposition := xs)
  }

  /** `handleArrayAdd`: a non-blank entry is appended trimmed and its input
      cleared; a blank one changes nothing. */
  function ArrayAdd(form: Form, field: ListField, input: string): (r: (Form, string))
    ensures Text.Trim(input) == "" ==> r == (form, input)
    ensures Text.Trim(input) != "" ==> (r.1 == ""
      && GetList(r.0, field) == GetList(form, field) + [Text.Trim(input)]
      && r.0 == SetList(form, field, GetList(r.0, field)))
  {
    if Text.Trim(input) == "" then (form, input)
    else (SetList(form, field, GetList(form, field) + [Text.Trim(input)]), "")
  }

  /** `handleArrayRemove`: the entry at `index` goes, the others keep their order. */
  function ArrayRemove(form: Form, field: ListField, index: int): (r: Form)
    ensures var xs := GetList(form, field);
      0 <= index < |xs| ==> (|GetList(r, field)| == |xs| - 1
        && GetList(r, field)[..index] == xs[..index] && GetList(r, field)[index..] == xs[index + 1..])
    ensures !(0 <= index < |GetList(form, field)|) ==> r == form
    ensures forall g :: g != field ==> GetList(r, g) == GetList(form, g)
  {
    RemoveAtIsIndexFilter(GetList(form, field), index);
    SetList(form, field, DropIndex(GetList(form, field), index, 0))
  }

  /** Adding an entry and removing the last one gives back the form. */
  lemma AddThenRemove(form: Form, field: ListField, input: string)
    requires Text.Trim(input) != ""
    ensures ArrayRemove(ArrayAdd(form, field, input).0, field, |GetList(form, field)|) == form
  {
    var xs := GetList(form, field);
    var added := ArrayAdd(form, field, input).0;
    assert GetList(added, field)[..|xs|] == xs;
  }

  function IsNot(v: string): string -> bool
  {
    (x: string) => x != v
  }

  /** `toggleArrayItem` on one list: every copy of a present value goes;
      an absent value is appended. */
  function Toggle(xs: seq<string>, v: string): (r: seq<string>)
    ensures v in xs ==> v !in r && IsSubseq(r, xs) && forall x :: x != v ==> (x in r <==> x in xs)
    ensures v !in xs ==> r == xs + [v]
  {
    FilterIsSubseq(xs, IsNot(v));
    if v in xs then Filter(xs, IsNot(v)) else xs + [v]
  }

  /** Toggling an absent value twice gives back the list. */
  lemma ToggleTwice(xs: seq<string>, v: string)
    requires v !in xs
    ensures Toggle(Toggle(xs, v), v) == xs
  {
    FilterAppend(xs, [v], IsNot(v));
    FilterAll(xs, IsNot(v));
    assert Filter([v], IsNot(v)) == [];
  }

  /** Toggling a present value twice leaves one copy, at the end. */
  lemma ToggleTwicePresent(xs: seq<string>, v: string)
    requires v in xs
    ensures Toggle(Toggle(xs, v), v) == Filter(xs, IsNot(v)) + [v]
  {
  }

  /** `toggleArrayItem` on the form: only that list field changes. */
  function ToggleItem(form: Form, field: ListField, v: string): (r: Form)
    ensures GetList(r, field) == Toggle(GetList(form, field), v)
    ensures forall g :: g != field ==> GetList(r, g) == GetList(form, g)
  {
    SetList(form, field, Toggle(GetList(form, field), v))
  }

  /** The army select: sets the army and empties the factions. */
  function ChangeArmy(form: Form, army: string): (r: Form)
    ensures r.army == army && r.factions == []
    ensures r.name == form.name && r.role == form.role && r.baseCost == form.baseCost
    ensures forall g :: g != Factions ==> GetList(r, g) == GetList(form, g)
  {
    form.(army := army, factions := [])
  }

  /** The cost input of a loaded unit, `base_cost || ''`: a cost of 0 shows empty. */
  function InitCost(baseCost: int): (r: string)
    ensures r == "" <==> baseCost == 0
  {
    if baseCost == 0 then "" else Text.IntToString(baseCost)
  }

  /** The unit `handleSave` passes on: the form's fields with `base_cost`
      replaced by `parseInt` of its text (`None` for `NaN`). */
  datatype UnitData = UnitData(fields: Form, baseCost: Option<int>)

  /** The checks of `handleSave`, in order: name, role and army; a cost that
      is present and a number; a faction; an allegiance. */
  function Save(form: Form): (r: Result<UnitData, string>)
    ensures r.Err? <==> (form.name == "" || form.role == "" || form.army == ""
      || form.baseCost == "" || Text.StrictNumber(form.baseCost).None?
      || form.factions == [] || form.allegiances == [])
    ensures r.Ok? ==> r.value.fields == form && r.value.baseCost == Text.ParseInt(form.baseCost)
  {
    if form.name == "" || form.role == "" || form.army == "" then Err("Please fill in Name, Role, and Army")
    else if form.baseCost == "" || Text.StrictNumber(form.baseCost).None? then Err("Please enter a valid base cost")
    else if form.factions == [] then Err("Please select at least one faction")
    else if form.allegiances == [] then Err("Please select at least one allegiance")
    else Ok(UnitData(form, Text.ParseInt(form.baseCost)))
  }

  /** A loaded unit saved without edits keeps its cost, unless the cost is
      0: that shows as an empty input, and the save is refused. */
  lemma LoadedCostSaved(form: Form, baseCost: int)
    requires form.name != "" && form.role != "" && form.army != ""
    requires form.factions != [] && form.allegiances != []
    ensures baseCost == 0 ==> Save(form.(baseCost := InitCost(baseCost))).Err?
    ensures baseCost != 0 ==> (Save(form.(baseCost := InitCost(baseCost))) ==
      Ok(UnitData(form.(baseCost := InitCost(baseCost)), Some(baseCost))))
  {
    if baseCost != 0 {
      Text.IntToStringRoundTrip(baseCost);
      StrictNumberOfInt(baseCost);
    }
  }

  /** The decimal text of an integer is a number. */
  lemma StrictNumberOfInt(n: int)
    ensures Text.StrictNumber(Text.IntToString(n)) == Some(n)
  {
    var s := Text.IntToString(n);
    var m: nat := if n < 0 then -n else n;
    var ds := Text.NatToString(m);
    assert Text.IsTrimmed(s);
    Text.TrimOfTrimmed(s);
    Text.DigitRunOfDigits(ds, "");
    assert ds + "" == ds;
    Text.DigitsValueOfNat(m);
    if n < 0 {
      assert s[1..] == ds;
    }
  }
}
