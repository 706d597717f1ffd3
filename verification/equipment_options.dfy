/** The equipment picker of one unit (components/EquipmentOptions.js): a
    selection is an ordered list of `{name, cost}` entries keyed by name; a
    click on a checkbox toggles its name, a click in a radio group replaces the
    group's earlier choice. Every handler builds a new selection. */
module EquipmentOptions {
  import opened Wrappers
  import opened Seqs
  import opened Records

  type Selection = seq<Item>

  /** `isOptionSelected(name)`: some entry carries the name. */
  predicate IsOptionSelected(sel: Selection, name: string)
  {
    exists e :: e in sel && e.name == name
  }

  function NameIsNot(name: string): Item -> bool
  {
    (e: Item) => e.name != name
  }

  function NameIn(names: seq<string>): Item -> bool
  {
    (e: Item) => e.name in names
  }

  function NameNotIn(names: seq<string>): Item -> bool
  {
    (e: Item) => e.name !in names
  }

  /** The entries whose name differs from `name`, in order. */
  function WithoutName(sel: Selection, name: string): (r: Selection)
    ensures IsSubseq(r, sel)
    ensures forall e :: e in r <==> e in sel && e.name != name
    ensures !IsOptionSelected(r, name)
    ensures forall n :: n != name ==> (IsOptionSelected(r, n) <==> IsOptionSelected(sel, n))
  {
    FilterIsSubseq(sel, NameIsNot(name));
    Filter(sel, NameIsNot(name))
  }

  /** `handleToggleCheckbox`: an unselected option is appended as `{name, cost}`;
      a selected one loses every entry with its name. */
  function ToggleCheckbox(sel: Selection, option: Item): (r: Selection)
    ensures IsOptionSelected(r, option.name) <==> !IsOptionSelected(sel, option.name)
    ensures forall n :: n != option.name ==> (IsOptionSelected(r, n) <==> IsOptionSelected(sel, n))
    ensures !IsOptionSelected(sel, option.name) ==> r == sel + [option]
    ensures IsOptionSelected(sel, option.name) ==>
      IsSubseq(r, sel) && forall e :: e in r <==> e in sel && e.name != option.name
  {
    if IsOptionSelected(sel, option.name) then WithoutName(sel, option.name)
    else
      assert option in sel + [option];
      sel + [option]
  }

  /** Toggling an unselected option twice gives back the selection. */
  lemma ToggleTwice(sel: Selection, option: Item)
    requires !IsOptionSelected(sel, option.name)
    ensures ToggleCheckbox(ToggleCheckbox(sel, option), option) == sel
  {
    FilterAppend(sel, [option], NameIsNot(option.name));
    FilterAll(sel, NameIsNot(option.name));
  }

  /** `handleSelectRadio` against the names of the group's options: a selected
      option is deselected; otherwise every entry named in the group goes and
      the option is appended. */
  function SelectRadio(sel: Selection, names: seq<string>, option: Item): (r: Selection)
    ensures IsOptionSelected(r, option.name) <==> !IsOptionSelected(sel, option.name)
    ensures IsOptionSelected(sel, option.name) ==>
      IsSubseq(r, sel) && forall e :: e in r <==> e in sel && e.name != option.name
    ensures !IsOptionSelected(sel, option.name) ==>
      |r| >= 1 && r[|r| - 1] == option && IsSubseq(r[..|r| - 1], sel) &&
      forall e :: e in r[..|r| - 1] <==> e in sel && e.name !in names
    ensures forall n :: n != option.name && n !in names ==> (IsOptionSelected(r, n) <==> IsOptionSelected(sel, n))
  {
    if IsOptionSelected(sel, option.name) then WithoutName(sel, option.name)
    else
      var others := Filter(sel, NameNotIn(names));
      FilterIsSubseq(sel, NameNotIn(names));
      var r := others + [option];
      assert r[..|r| - 1] == others;
      assert option in r;
      r
  }

  /** How many entries of the selection belong to the group `names`. */
  function GroupCount(sel: Selection, names: seq<string>): nat
  {
    |Filter(sel, NameIn(names))|
  }

  /** Choosing an unselected member of a radio group leaves exactly one entry
      of that group. */
  lemma RadioLeavesOne(sel: Selection, names: seq<string>, option: Item)
    requires option.name in names && !IsOptionSelected(sel, option.name)
    ensures GroupCount(SelectRadio(sel, names, option), names) == 1
  {
    var others := Filter(sel, NameNotIn(names));
    FilterAppend(others, [option], NameIn(names));
    FilterDisjoint(sel, NameNotIn(names), NameIn(names));
  }

  /** A radio click never takes a group from at most one entry to two. */
  lemma RadioKeepsAtMostOne(sel: Selection, names: seq<string>, option: Item)
    requires GroupCount(sel, names) <= 1
    ensures GroupCount(SelectRadio(sel, names, option), names) <= 1
  {
    if IsOptionSelected(sel, option.name) {
      FilterCommute(sel, NameIsNot(option.name), NameIn(names));
    } else {
      var others := Filter(sel, NameNotIn(names));
      FilterAppend(others, [option], NameIn(names));
      FilterDisjoint(sel, NameNotIn(names), NameIn(names));
    }
  }

  /** The names of a group's options, as `group.options.some(opt => opt.name === …)` sees them. */
  function OptionNames(options: seq<EquipOption>): (r: seq<string>)
    ensures |r| == |options|
    ensures forall i :: 0 <= i < |options| ==> r[i] == options[i].name
  {
    if options == [] then [] else OptionNames(options[..|options| - 1]) + [options[|options| - 1].name]
  }

  /** The change handler a checkbox calls: the radio handler iff the group's
      `type` is `'radio'`; `mutuallyExclusive` plays no part. Either way the
      clicked box flips. */
  function OnOptionChange(group: OptionGroup, sel: Selection, clicked: Item): (r: Selection)
    ensures IsOptionSelected(r, clicked.name) <==> !IsOptionSelected(sel, clicked.name)
    ensures group.kind != "radio" ==>
      forall n :: n != clicked.name ==> (IsOptionSelected(r, n) <==> IsOptionSelected(sel, n))
    ensures group.kind == "radio" ==>
      forall n :: n != clicked.name && n !in OptionNames(group.options) ==> (IsOptionSelected(r, n) <==> IsOptionSelected(sel, n))
  {
    if group.kind == "radio" then SelectRadio(sel, OptionNames(group.options), clicked)
    else ToggleCheckbox(sel, clicked)
  }

  /** The `mutuallyExclusive` flag does not change what a click does. */
  lemma MutuallyExclusiveIgnored(group: OptionGroup, flag: bool, sel: Selection, clicked: Item)
    ensures OnOptionChange(group.(mutuallyExclusive := flag), sel, clicked) == OnOptionChange(group, sel, clicked)
  {
  }

  function ItemEntry(item: ListItem): Item
  {
    Item(item.name, item.cost)
  }

  /** What an option row offers to click: the items of its weapon list when
      `weaponListMetadata[option.name]` exists (an accordion), otherwise the
      option itself. */
  function ClickTargets(option: EquipOption, metadata: map<string, ListMetadata>): (r: seq<Item>)
    ensures option.name in metadata ==>
      |r| == |metadata[option.name].items| &&
      forall i :: 0 <= i < |r| ==> r[i] == ItemEntry(metadata[option.name].items[i])
    ensures option.name !in metadata ==> r == [Item(option.name, option.cost)]
  {
    if option.name in metadata then
      var items := metadata[option.name].items;
      seq(|items|, i requires 0 <= i < |items| => ItemEntry(items[i]))
    else [Item(option.name, option.cost)]
  }

  // ------------------------------------------------------------------
  // Radio groups holding a weapon list.

  function BoltPistol(): Item { Item("Bolt pistol", 0) }

  function PlasmaPistol(): Item { Item("Plasma pistol", 5) }

  /** A radio group whose only option is a weapon-list marker. */
  function MarkerGroup(): OptionGroup
  {
    OptionGroup("Weapons", "radio", false,
      [EquipOption(None, "L1-Weapons", 0, Some([]), None, Absent, Some("L1-Weapons"))])
  }

  /** The marker's list holds two pistols. */
  function MarkerMetadata(): map<string, ListMetadata>
  {
    map["L1-Weapons" := ListMetadata(Some("Pistols"), Some("L1"), 2,
      [ListItem("Bolt pistol", 0, []), ListItem("Plasma pistol", 5, [])])]
  }

  lemma MarkerTargets()
    ensures ClickTargets(MarkerGroup().options[0], MarkerMetadata()) == [BoltPistol(), PlasmaPistol()]
  {
  }

  /** Filtering a one-entry selection. */
  lemma FilterSingle(e: Item, p: Item -> bool)
    ensures Filter([e], p) == if p(e) then [e] else []
  {
    assert [e][1..] == [];
  }

  /** As written, the radio handler only knows the marker's name, so clicking
      the two items of the same list in a radio group keeps both. */
  lemma RadioWeaponListKeepsBoth()
    ensures var g := MarkerGroup();
      var s1 := OnOptionChange(g, [], BoltPistol());
      var s2 := OnOptionChange(g, s1, PlasmaPistol());
      s2 == [BoltPistol(), PlasmaPistol()] &&
      GroupCount(s2, ResolvedNames(g.options, MarkerMetadata())) == 2
  {
    MarkerClicks();
    MarkerCountsBoth();
  }

  /** The two clicks, with the marker's name as the only group name. */
  lemma MarkerClicks()
    ensures OnOptionChange(MarkerGroup(), OnOptionChange(MarkerGroup(), [], BoltPistol()), PlasmaPistol()) ==
      [BoltPistol(), PlasmaPistol()]
  {
    FirstMarkerClick();
    SecondMarkerClick();
  }

  lemma FirstMarkerClick()
    ensures OnOptionChange(MarkerGroup(), [], BoltPistol()) == [BoltPistol()]
  {
    var names := MarkerNames();
    RadioClick(MarkerGroup(), [], BoltPistol());
    RadioAppends([], names, BoltPistol());
    assert Filter([], NameNotIn(names)) == [];
  }

  lemma SecondMarkerClick()
    ensures OnOptionChange(MarkerGroup(), [BoltPistol()], PlasmaPistol()) == [BoltPistol(), PlasmaPistol()]
  {
    var names := MarkerNames();
    RadioClick(MarkerGroup(), [BoltPistol()], PlasmaPistol());
    RadioAppends([BoltPistol()], names, PlasmaPistol());
    FilterSingle(BoltPistol(), NameNotIn(names));
  }

  /** The marker group's only name is the marker's. */
  lemma MarkerNames() returns (names: seq<string>)
    ensures names == OptionNames(MarkerGroup().options) == ["L1-Weapons"]
  {
    names := OptionNames(MarkerGroup().options);
  }

  /** In a radio group a click is `SelectRadio` against the options' names. */
  lemma RadioClick(g: OptionGroup, sel: Selection, clicked: Item)
    requires g.kind == "radio"
    ensures OnOptionChange(g, sel, clicked) == SelectRadio(sel, OptionNames(g.options), clicked)
  {
  }

  /** Choosing an unselected option drops the group's entries and appends it. */
  lemma RadioAppends(sel: Selection, names: seq<string>, option: Item)
    requires forall e :: e in sel ==> e.name != option.name
    ensures SelectRadio(sel, names, option) == Filter(sel, NameNotIn(names)) + [option]
  {
  }

  /** Both pistols belong to the group once the marker's list is resolved. */
  lemma MarkerCountsBoth()
    ensures GroupCount([BoltPistol(), PlasmaPistol()], ResolvedNames(MarkerGroup().options, MarkerMetadata())) == 2
  {
    var g := MarkerGroup();
    MarkerTargets();
    var resolved := ResolvedNames(g.options, MarkerMetadata());
    assert g.options[0] in g.options;
    assert BoltPistol().name in resolved && PlasmaPistol().name in resolved;
    FilterAllAt([BoltPistol(), PlasmaPistol()], NameIn(resolved));
  }

  /** The names a radio group stands for once its weapon lists are open: its
      options' names and the names of the items under each of its markers. */
  function ResolvedNames(options: seq<EquipOption>, metadata: map<string, ListMetadata>): (r: seq<string>)
    ensures forall o, t :: o in options && t in ClickTargets(o, metadata) ==> t.name in r
  {
    if options == [] then []
    else
      var last := options[|options| - 1];
      var targets := ClickTargets(last, metadata);
      var rest := ResolvedNames(options[..|options| - 1], metadata);
      assert forall o :: o in options ==> o == last || o in options[..|options| - 1];
      rest + TargetNames(targets)
  }

  /** The names of what an option row offers to click, in order. */
  function TargetNames(targets: seq<Item>): (r: seq<string>)
    ensures |r| == |targets|
    ensures forall i :: 0 <= i < |targets| ==> r[i] == targets[i].name
    ensures forall t :: t in targets ==> t.name in r
  {
    if targets == [] then [] else [targets[0].name] + TargetNames(targets[1..])
  }

  /** The change handler with a radio group standing for its resolved names. */
  function OnOptionChangeResolved(group: OptionGroup, metadata: map<string, ListMetadata>, sel: Selection, clicked: Item): (r: Selection)
    ensures IsOptionSelected(r, clicked.name) <==> !IsOptionSelected(sel, clicked.name)
    ensures group.kind != "radio" ==> r == OnOptionChange(group, sel, clicked)
  {
    if group.kind == "radio" then SelectRadio(sel, ResolvedNames(group.options, metadata), clicked)
    else ToggleCheckbox(sel, clicked)
  }

  /** With resolved names, choosing any unselected target a radio group offers
      leaves exactly one entry of the group, and no click takes the group past one. */
  lemma ResolvedRadioKeepsOne(group: OptionGroup, metadata: map<string, ListMetadata>, sel: Selection, o: EquipOption, clicked: Item)
    requires group.kind == "radio"
    requires o in group.options && clicked in ClickTargets(o, metadata)
    ensures var names := ResolvedNames(group.options, metadata);
      var r := OnOptionChangeResolved(group, metadata, sel, clicked);
      (!IsOptionSelected(sel, clicked.name) ==> GroupCount(r, names) == 1) &&
      (GroupCount(sel, names) <= 1 ==> GroupCount(r, names) <= 1)
  {
    var names := ResolvedNames(group.options, metadata);
    if !IsOptionSelected(sel, clicked.name) {
      RadioLeavesOne(sel, names, clicked);
    }
    if GroupCount(sel, names) <= 1 {
      RadioKeepsAtMostOne(sel, names, clicked);
    }
  }
}
