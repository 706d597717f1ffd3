/** The equipment options editor of a unit template: a list of option groups
    edited in place (groups added, relabelled and deleted; options added,
    edited and deleted), the weapon lists offered for weapon-list options,
    and the comma-separated "replaces" input. */
module EquipmentOptionsEditor {
  import opened Wrappers
  import opened Seqs
  import opened Records
  import Text
  import WeaponListsPage
  import EquipmentUtils

  // ---------------------------------------------------------------------
  // The "replaces" input

  function TrimFn(): string -> string
  {
    (s: string) => Text.Trim(s)
  }

  function NonEmpty(): string -> bool
  {
    (s: string) => s != ""
  }

  /** Trimming keeps only characters of the text. */
  lemma TrimKeepsOut(s: string, c: char)
    requires c !in s
    ensures c !in Text.Trim(s)
  {
    var r := Text.Trim(s);
    var a, b :| Text.TrimmedSlice(s, r, a, b);
    forall k | 0 <= k < |r| ensures r[k] != c {
      assert r[k] == s[a + k];
    }
  }

  /** `text.split(',').map(s => s.trim()).filter(Boolean)`. */
  function ParseReplaces(text: string): (r: seq<string>)
    ensures forall x :: x in r ==> x != "" && Text.IsTrimmed(x) && ',' !in x
  {
    var pieces := Text.Split(text, ',');
    var trimmed := Map(pieces, TrimFn());
    assert forall x :: x in trimmed ==> Text.IsTrimmed(x) && ',' !in x by {
      forall x | x in trimmed ensures Text.IsTrimmed(x) && ',' !in x {
        var i :| 0 <= i < |trimmed| && trimmed[i] == x;
        TrimKeepsOut(pieces[i], ',');
      }
    }
    Filter(trimmed, NonEmpty())
  }

  /** The text the input shows: `replaces?.join(', ') || ''`. */
  function ReplacesText(replaced: Option<seq<string>>): string
  {
    match replaced
    case None => ""
    case Some(xs) => Text.Join(xs, ", ")
  }

  /** Entries that are non-blank, trimmed and free of commas survive a
      round trip through the input. */
  lemma ReplacesRoundTrip(xs: seq<string>)
    requires forall i :: 0 <= i < |xs| ==> xs[i] != "" && Text.IsTrimmed(xs[i]) && ',' !in xs[i]
    ensures ParseReplaces(ReplacesText(Some(xs))) == xs
  {
    var text := ReplacesText(Some(xs));
    var pieces := Text.Split(text, ',');
    if xs == [] {
      EmptyInputNoReplaces();
    } else {
      Text.SplitJoin("", xs);
      assert "" + text == text;
      TrimPieces(xs, pieces);
      assert forall x :: x in xs ==> NonEmpty()(x);
      FilterAll(xs, NonEmpty());
    }
  }

  /** An empty input gives no entries. */
  lemma EmptyInputNoReplaces()
    ensures ParseReplaces("") == []
  {
    assert Text.Split("", ',') == [""];
    assert TrimFn()("") == "";
    MapAgrees([""], TrimFn(), [""]);
    FilterNone([""], NonEmpty());
  }

  /** The pieces `', '` leaves trim back to the joined entries. */
  lemma TrimPieces(xs: seq<string>, pieces: seq<string>)
    requires |xs| >= 1 && |pieces| == |xs|
    requires forall i :: 0 <= i < |xs| ==> Text.IsTrimmed(xs[i])
    requires pieces[0] == "" + xs[0]
    requires forall i :: 1 <= i < |xs| ==> pieces[i] == " " + xs[i]
    ensures Map(pieces, TrimFn()) == xs
  {
    TrimEachPiece(xs, pieces);
    MapAgrees(pieces, TrimFn(), xs);
  }

  lemma TrimEachPiece(xs: seq<string>, pieces: seq<string>)
    requires |xs| >= 1 && |pieces| == |xs|
    requires forall i :: 0 <= i < |xs| ==> Text.IsTrimmed(xs[i])
    requires pieces[0] == "" + xs[0]
    requires forall i :: 1 <= i < |xs| ==> pieces[i] == " " + xs[i]
    ensures forall i :: 0 <= i < |xs| ==> TrimFn()(pieces[i]) == xs[i]
  {
    forall i | 0 <= i < |xs| ensures TrimFn()(pieces[i]) == xs[i] {
      TrimPiece(pieces[i], xs[i]);
    }
  }

  lemma TrimPiece(piece: string, x: string)
    requires Text.IsTrimmed(x)
    requires piece == "" + x || piece == " " + x
    ensures Text.Trim(piece) == x
  {
    if piece == " " + x {
      Text.TrimAfterSpace(x);
    } else {
      assert piece == x;
      Text.TrimOfTrimmed(x);
    }
  }

  // ---------------------------------------------------------------------
  // Groups and options

  /** The group `addNewGroup` appends. */
  const NewGroup: OptionGroup := OptionGroup("New Option Group", "checkbox", false, [])

  /** The option `addOption` appends; a weapon-list option also gets a null
      `weaponListId`. */
  function NewOption(kind: string): (o: EquipOption)
    ensures o.kind == Some(kind) && o.name == "" && o.cost == 0 && o.replaced == Some([])
    ensures o.weaponListId == (if kind == "weaponList" then Null else Absent)
    ensures o.listId.None? && o.metadataKey.None?
  {
    EquipOption(Some(kind), "", 0, Some([]), None, if kind == "weaponList" then Null else Absent, None)
  }

  /** The two option kinds the editor offers. */
  predicate EditorKind(o: EquipOption)
  {
    o.kind == Some("standard") || o.kind == Some("weaponList")
  }

  /** The editor never writes a weapon-list reference the resolver reads:
      options of its two kinds pass through the resolver unchanged. */
  lemma EditorOptionsNotExpanded(os: seq<EquipOption>, groupLabel: string, fetch: EquipmentUtils.Fetch)
    requires forall o :: o in os ==> EditorKind(o)
    ensures EquipmentUtils.ExpandOptions(os, groupLabel, fetch) == os
  {
    EquipmentUtils.NoReferencesUnchanged(map[], os, groupLabel, fetch);
  }

  /** The edits of a group's settings: label, selection type, mutually exclusive. */
  datatype GroupEdit = SetLabel(groupLabel: string) | SetKind(kind: string) | SetExclusive(exclusive: bool)

  /** `{...group, [field]: value}`. */
  function EditGroup(g: OptionGroup, edit: GroupEdit): (r: OptionGroup)
    ensures r.options == g.options
    ensures edit.SetLabel? ==> r == g.(groupLabel := edit.groupLabel)
    ensures edit.SetKind? ==> r == g.(kind := edit.kind)
    ensures edit.SetExclusive? ==> r == g.(mutuallyExclusive := edit.exclusive)
  {
    match edit
    case SetLabel(l) => g.(groupLabel := l)
    case SetKind(k) => g.(kind := k)
    case SetExclusive(b) => g.(mutuallyExclusive := b)
  }

  /** The inputs of one option row, each with the text typed: the name as
      is, the cost read by `parseInt(...) || 0`, the replaces list parsed,
      and the chosen weapon list (`value || null`). */
  datatype OptionEdit = SetName(name: string) | SetCost(cost: string) | SetReplaces(text: string) | SetWeaponList(listId: string)

  function EditOption(o: EquipOption, edit: OptionEdit): (r: EquipOption)
    ensures r.kind == o.kind
    ensures edit.SetName? ==> r == o.(name := edit.name)
    ensures edit.SetCost? ==> r == o.(cost := Text.ParseInt(edit.cost).GetOr(0))
    ensures edit.SetReplaces? ==> r == o.(replaced := Some(ParseReplaces(edit.text)))
    ensures edit.SetWeaponList? ==> r == o.(weaponListId := if edit.listId == "" then Null else Present(edit.listId))
  {
    match edit
    case SetName(n) => o.(name := n)
    case SetCost(c) => o.(cost := Text.ParseIntOrZero(c))
    case SetReplaces(t) => o.(replaced := Some(ParseReplaces(t)))
    case SetWeaponList(id) => o.(weaponListId := if id == "" then Null else Present(id))
  }

  /** Retyping the replaces list an option shows leaves the option as it is
      (when its entries are non-blank, trimmed and free of commas). */
  lemma RetypedReplacesUnchanged(o: EquipOption, xs: seq<string>)
    requires o.replaced == Some(xs)
    requires forall i :: 0 <= i < |xs| ==> xs[i] != "" && Text.IsTrimmed(xs[i]) && ',' !in xs[i]
    ensures EditOption(o, SetReplaces(ReplacesText(o.replaced))) == o
  {
    ReplacesRoundTrip(xs);
  }

  /** The groups with an option of `kind` appended to group `gi`. */
  function OptionAdded(groups: seq<OptionGroup>, gi: nat, kind: string): (r: seq<OptionGroup>)
    requires gi < |groups|
    ensures |r| == |groups| && r[gi].options == groups[gi].options + [NewOption(kind)]
    ensures forall j :: 0 <= j < |groups| && j != gi ==> r[j] == groups[j]
  {
    groups[gi := groups[gi].(options := groups[gi].options + [NewOption(kind)])]
  }

  /** The groups with option `oi` of group `gi` removed. */
  function OptionDeleted(groups: seq<OptionGroup>, gi: nat, oi: int): (r: seq<OptionGroup>)
    requires gi < |groups|
    ensures |r| == |groups| && r[gi].options == RemoveAt(groups[gi].options, oi)
    ensures forall j :: 0 <= j < |groups| && j != gi ==> r[j] == groups[j]
  {
    RemoveAtIsIndexFilter(groups[gi].options, oi);
    groups[gi := groups[gi].(options := DropIndex(groups[gi].options, oi, 0))]
  }

  /** Adding an option and deleting it again gives back the groups. */
  lemma AddThenDeleteOption(groups: seq<OptionGroup>, gi: nat, kind: string)
    requires gi < |groups|
    ensures OptionDeleted(OptionAdded(groups, gi, kind), gi, |groups[gi].options|) == groups
  {
    var added := OptionAdded(groups, gi, kind);
    assert added[gi].options[..|groups[gi].options|] == groups[gi].options;
    assert OptionDeleted(added, gi, |groups[gi].options|)[gi] == groups[gi];
  }

  /** Adding a group and deleting it again gives back the groups. */
  lemma AddThenDeleteGroup(groups: seq<OptionGroup>)
    ensures RemoveAt(groups + [NewGroup], |groups|) == groups
  {
    assert (groups + [NewGroup])[..|groups|] == groups;
  }

  /** The editor's state: the option groups being edited, the index of the
      group last added (`editingGroupIndex`), and the weapon lists offered. */
  class Editor {
    var groups: seq<OptionGroup>
    var editing: Option<int>
    var weaponLists: seq<WeaponList>

    /** Opened on a unit: its saved groups, or none. */
    constructor(saved: Option<seq<OptionGroup>>)
      ensures groups == saved.GetOr([]) && editing == None && weaponLists == []
    {
      groups := saved.GetOr([]);
      editing := None;
      weaponLists := [];
    }

    /** `fetchWeaponLists`: the same read and join as the weapon-lists page. */
    method LoadWeaponLists(lists: Result<seq<WeaponListRow>, string>, items: Result<seq<WeaponItemRow>, string>)
      modifies this
      ensures weaponLists == WeaponListsPage.Fetch(old(weaponLists), lists, items)
      ensures groups == old(groups) && editing == old(editing)
    {
      weaponLists := WeaponListsPage.Fetch(weaponLists, lists, items);
    }

    /** `addNewGroup`: appends the default group and marks it as edited. */
    method AddNewGroup()
      modifies this
      ensures groups == old(groups) + [NewGroup]
      ensures editing == Some(|old(groups)|)
      ensures weaponLists == old(weaponLists)
    {
      editing := Some(|groups|);
      groups := groups + [NewGroup];
    }

    /** `updateGroup`: one setting of group `index`; every other group is untouched. */
    method UpdateGroup(index: nat, edit: GroupEdit)
      requires index < |groups|
      modifies this
      ensures groups == old(groups)[index := EditGroup(old(groups)[index], edit)]
      ensures editing == old(editing) && weaponLists == old(weaponLists)
    {
      groups := groups[index := EditGroup(groups[index], edit)];
    }

    /** `deleteGroup`: when confirmed, group `index` goes; the edited index
        is cleared only when it was that group. */
    method DeleteGroup(index: int, confirmed: bool)
      modifies this
      ensures !confirmed ==> groups == old(groups) && editing == old(editing)
      ensures confirmed ==> groups == RemoveAt(old(groups), index)
      ensures confirmed ==> editing == (if old(editing) == Some(index) then None else old(editing))
      ensures weaponLists == old(weaponLists)
    {
      if confirmed {
        RemoveAtIsIndexFilter(groups, index);
        groups := DropIndex(groups, index, 0);
        if editing == Some(index) {
          editing := None;
        }
      }
    }

    /** `addOption`: pushes a new option of `kind` onto group `gi`. */
    method AddOption(gi: nat, kind: string)
      requires gi < |groups|
      modifies this
      ensures groups == OptionAdded(old(groups), gi, kind)
      ensures editing == old(editing) && weaponLists == old(weaponLists)
    {
      var g := groups[gi];
      groups := groups[gi := g.(options := g.options + [NewOption(kind)])];
    }

    /** `updateOption`: one field of option `oi` of group `gi`. */
    method UpdateOption(gi: nat, oi: nat, edit: OptionEdit)
      requires gi < |groups| && oi < |groups[gi].options|
      modifies this
      ensures |groups| == |old(groups)|
      ensures forall j :: 0 <= j < |groups| && j != gi ==> groups[j] == old(groups)[j]
      ensures groups[gi] == old(groups)[gi].(options := old(groups)[gi].options[oi := EditOption(old(groups)[gi].options[oi], edit)])
      ensures editing == old(editing) && weaponLists == old(weaponLists)
    {
      var g := groups[gi];
      groups := groups[gi := g.(options := g.options[oi := EditOption(g.options[oi], edit)])];
    }

    /** `deleteOption`: option `oi` of group `gi` goes. */
    method DeleteOption(gi: nat, oi: int)
      requires gi < |groups|
      modifies this
      ensures groups == OptionDeleted(old(groups), gi, oi)
      ensures editing == old(editing) && weaponLists == old(weaponLists)
    {
      var g := groups[gi];
      RemoveAtIsIndexFilter(g.options, oi);
      groups := groups[gi := g.(options := DropIndex(g.options, oi, 0))];
    }

  }
}
