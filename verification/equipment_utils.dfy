/** The equipment option resolver (lib/equipmentUtils.js): every option of type
    `weapon_list_reference` is replaced by one marker option, and the list it
    names is read into a metadata entry keyed `"{list_id}-{label}"`. The two
    reads of the weapon-list tables are the `fetch` parameter. */
module EquipmentUtils {
  import opened Wrappers
  import opened Seqs
  import opened Records
  import Text

  /** What reading one weapon list gave: its name (missing when the name read
      failed or found no row) and its items in `sort_order`, or `None` when the
      item read reported an error or threw. */
  datatype ListFetch = ListFetch(name: Option<string>, items: Option<seq<Item>>)

  type Fetch = Option<string> -> ListFetch

  predicate IsListReference(o: EquipOption)
  {
    o.kind == Some("weapon_list_reference")
  }

  /** A reference whose items could be read. */
  predicate Resolves(o: EquipOption, fetch: Fetch)
  {
    IsListReference(o) && fetch(o.listId).items.Some?
  }

  /** `${option.list_id}` inside a template literal. */
  function IdText(id: Option<string>): string
  {
    match id
    case Some(s) => s
    case None => "undefined"
  }

  /** `"{list_id}-{label}"`. */
  function MetadataKey(listId: Option<string>, groupLabel: string): string
  {
    IdText(listId) + "-" + groupLabel
  }

  /** In `t + "-" + rest` with no dash in `t`, the first dash follows `t`. */
  lemma FirstDashAfterId(t: string, rest: string)
    requires '-' !in t
    ensures '-' in t + "-" + rest && Text.FirstIndexOf(t + "-" + rest, '-') == |t|
  {
    var k := t + "-" + rest;
    assert k[|t|] == '-';
    var i := Text.FirstIndexOf(k, '-');
    assert forall j :: 0 <= j < |t| ==> k[j] == t[j];
  }

  /** Two references share a key exactly when their list ids' texts and group
      labels agree (for ids without a dash, as generated ids are). */
  lemma MetadataKeyInjective(a: Option<string>, la: string, b: Option<string>, lb: string)
    requires '-' !in IdText(a) && '-' !in IdText(b)
    ensures MetadataKey(a, la) == MetadataKey(b, lb) <==> IdText(a) == IdText(b) && la == lb
  {
    var ka, kb := MetadataKey(a, la), MetadataKey(b, lb);
    var ta, tb := IdText(a), IdText(b);
    FirstDashAfterId(ta, la);
    FirstDashAfterId(tb, lb);
    if ka == kb {
      assert ta == ka[..|ta|] && tb == kb[..|tb|];
      assert la == ka[|ta| + 1..] && lb == kb[|tb| + 1..];
    }
  }

  /** The marker that stands for a resolved reference: named by its key, free,
      replacing what the reference replaces (or nothing), with no `type`. */
  function Marker(o: EquipOption, key: string): (m: EquipOption)
    ensures m.name == key && m.cost == 0 && m.metadataKey == Some(key)
    ensures m.replaced == Some(OrEmpty(o.replaced))
    ensures !IsListReference(m)
  {
    EquipOption(None, key, 0, Some(OrEmpty(o.replaced)), None, Absent, Some(key))
  }

  /** The metadata entry of a resolved reference. */
  function Entry(o: EquipOption, f: ListFetch): (e: ListMetadata)
    requires f.items.Some?
    ensures e.itemCount == |f.items.value| == |e.items|
    ensures e.listId == o.listId
    ensures e.listName == (if Truthy(f.name) then f.name else o.listId)
    ensures forall i :: 0 <= i < |e.items| ==>
      e.items[i].name == f.items.value[i].name && e.items[i].cost == f.items.value[i].cost &&
      e.items[i].replaced == OrEmpty(o.replaced)
  {
    var items := f.items.value;
    ListMetadata(OrElse(f.name, o.listId), o.listId, |items|,
      seq(|items|, i requires 0 <= i < |items| => ListItem(items[i].name, items[i].cost, OrEmpty(o.replaced))))
  }

  /** What one option of a group labelled `groupLabel` becomes. */
  function Step(o: EquipOption, groupLabel: string, fetch: Fetch): (r: seq<EquipOption>)
    ensures !IsListReference(o) ==> r == [o]
    ensures IsListReference(o) && !Resolves(o, fetch) ==> r == []
    ensures Resolves(o, fetch) ==> r == [Marker(o, MetadataKey(o.listId, groupLabel))]
  {
    if !IsListReference(o) then [o]
    else if fetch(o.listId).items.None? then []
    else [Marker(o, MetadataKey(o.listId, groupLabel))]
  }

  /** The options of one expanded group. */
  function ExpandOptions(os: seq<EquipOption>, groupLabel: string, fetch: Fetch): (r: seq<EquipOption>)
    ensures |r| <= |os|
    ensures forall x :: x in r ==> !IsListReference(x)
  {
    if os == [] then []
    else ExpandOptions(os[..|os| - 1], groupLabel, fetch) + Step(os[|os| - 1], groupLabel, fetch)
  }

  /** The metadata after the options of one group, starting from `m`. */
  function MetaOptions(m: map<string, ListMetadata>, os: seq<EquipOption>, groupLabel: string, fetch: Fetch): map<string, ListMetadata>
  {
    if os == [] then m
    else
      var m' := MetaOptions(m, os[..|os| - 1], groupLabel, fetch);
      var o := os[|os| - 1];
      if Resolves(o, fetch) then m'[MetadataKey(o.listId, groupLabel) := Entry(o, fetch(o.listId))] else m'
  }

  /** Each group with only its options expanded. */
  function ExpandGroups(gs: seq<OptionGroup>, fetch: Fetch): (r: seq<OptionGroup>)
    ensures |r| == |gs|
    ensures forall i :: 0 <= i < |gs| ==>
      r[i].groupLabel == gs[i].groupLabel && r[i].kind == gs[i].kind &&
      r[i].mutuallyExclusive == gs[i].mutuallyExclusive &&
      r[i].options == ExpandOptions(gs[i].options, gs[i].groupLabel, fetch)
  {
    if gs == [] then []
    else
      var g := gs[|gs| - 1];
      ExpandGroups(gs[..|gs| - 1], fetch) + [g.(options := ExpandOptions(g.options, g.groupLabel, fetch))]
  }

  /** The metadata gathered over all groups. */
  function MetaGroups(gs: seq<OptionGroup>, fetch: Fetch): map<string, ListMetadata>
  {
    if gs == [] then map[]
    else
      var g := gs[|gs| - 1];
      MetaOptions(MetaGroups(gs[..|gs| - 1], fetch), g.options, g.groupLabel, fetch)
  }

  /** The inner loop of `expandEquipmentOptions`: the options of one group
      pushed in order into a fresh `options` array, the metadata written as
      references resolve. */
  method ExpandGroup(group: OptionGroup, metadataIn: map<string, ListMetadata>, fetch: Fetch)
    returns (expandedGroup: OptionGroup, metadata: map<string, ListMetadata>)
    ensures expandedGroup == group.(options := ExpandOptions(group.options, group.groupLabel, fetch))
    ensures metadata == MetaOptions(metadataIn, group.options, group.groupLabel, fetch)
  {
    metadata := metadataIn;
    var options: seq<EquipOption> := [];
    var oi := 0;
    while oi < |group.options|
      invariant 0 <= oi <= |group.options|
      invariant options == ExpandOptions(group.options[..oi], group.groupLabel, fetch)
      invariant metadata == MetaOptions(metadataIn, group.options[..oi], group.groupLabel, fetch)
    {
      var option := group.options[oi];
      ExpandStep(metadataIn, group.options, oi, group.groupLabel, fetch);
      if option.kind == Some("weapon_list_reference") {
        var fetched := fetch(option.listId);
        if fetched.items.None? {
          oi := oi + 1;
          continue;
        }
        var key := IdText(option.listId) + "-" + group.groupLabel;
        var items := fetched.items.value;
        var weaponOptions := seq(|items|, i requires 0 <= i < |items| => ListItem(items[i].name, items[i].cost, OrEmpty(option.replaced)));
        var entry := ListMetadata(OrElse(fetched.name, option.listId), option.listId, |items|, weaponOptions);
        var marker := EquipOption(None, key, 0, Some(OrEmpty(option.replaced)), None, Absent, Some(key));
        assert entry == Entry(option, fetched) && marker == Marker(option, MetadataKey(option.listId, group.groupLabel));
        metadata := metadata[key := entry];
        options := options + [marker];
      } else {
        options := options + [option];
      }
      oi := oi + 1;
    }
    assert group.options[..oi] == group.options;
    expandedGroup := group.(options := options);
  }

  /** One more option: its step is appended and, when it resolves, its entry written. */
  lemma ExpandStep(m: map<string, ListMetadata>, os: seq<EquipOption>, k: nat, groupLabel: string, fetch: Fetch)
    requires k < |os|
    ensures ExpandOptions(os[..k + 1], groupLabel, fetch) ==
      ExpandOptions(os[..k], groupLabel, fetch) + Step(os[k], groupLabel, fetch)
    ensures MetaOptions(m, os[..k + 1], groupLabel, fetch) ==
      if Resolves(os[k], fetch) then
        MetaOptions(m, os[..k], groupLabel, fetch)[MetadataKey(os[k].listId, groupLabel) := Entry(os[k], fetch(os[k].listId))]
      else MetaOptions(m, os[..k], groupLabel, fetch)
  {
    assert os[..k + 1][..k] == os[..k];
  }

  /** `expandEquipmentOptions`: a missing or empty list of groups gives no
      groups and no metadata; otherwise the groups are walked in order, each
      option pushed as it is or replaced by a marker, and a reference whose
      items cannot be read skipped. */
  method ExpandEquipmentOptions(input: Option<seq<OptionGroup>>, fetch: Fetch)
    returns (expanded: seq<OptionGroup>, metadata: map<string, ListMetadata>)
    ensures input.None? ==> expanded == [] && metadata == map[]
    ensures input.Some? ==> expanded == ExpandGroups(input.value, fetch) && metadata == MetaGroups(input.value, fetch)
  {
    if input.None? || |input.value| == 0 {
      return [], map[];
    }
    var groups := input.value;
    expanded := [];
    metadata := map[];
    var gi := 0;
    while gi < |groups|
      invariant 0 <= gi <= |groups|
      invariant expanded == ExpandGroups(groups[..gi], fetch)
      invariant metadata == MetaGroups(groups[..gi], fetch)
    {
      GroupsStep(groups, gi, fetch);
      var expandedGroup;
      expandedGroup, metadata := ExpandGroup(groups[gi], metadata, fetch);
      expanded := expanded + [expandedGroup];
      gi := gi + 1;
    }
    assert groups[..gi] == groups;
  }

  /** One more group: its expansion is appended and its options' metadata written. */
  lemma GroupsStep(gs: seq<OptionGroup>, k: nat, fetch: Fetch)
    requires k < |gs|
    ensures ExpandGroups(gs[..k + 1], fetch) ==
      ExpandGroups(gs[..k], fetch) + [gs[k].(options := ExpandOptions(gs[k].options, gs[k].groupLabel, fetch))]
    ensures MetaGroups(gs[..k + 1], fetch) == MetaOptions(MetaGroups(gs[..k], fetch), gs[k].options, gs[k].groupLabel, fetch)
  {
    assert gs[..k + 1][..k] == gs[..k];
  }

  // ------------------------------------------------------------------
  // Properties of the expansion.

  lemma {:induction false} ExpandOptionsAppend(a: seq<EquipOption>, b: seq<EquipOption>, groupLabel: string, fetch: Fetch)
    ensures ExpandOptions(a + b, groupLabel, fetch) == ExpandOptions(a, groupLabel, fetch) + ExpandOptions(b, groupLabel, fetch)
    decreases |b|
  {
    if b == [] {
      assert a + b == a;
    } else {
      var b', x := b[..|b| - 1], b[|b| - 1];
      assert (a + b)[..|a + b| - 1] == a + b' && (a + b)[|a + b| - 1] == x;
      ExpandOptionsAppend(a, b', groupLabel, fetch);
      assert ExpandOptions(a + b, groupLabel, fetch) == ExpandOptions(a + b', groupLabel, fetch) + Step(x, groupLabel, fetch);
    }
  }

  lemma {:induction false} MetaOptionsAppend(m: map<string, ListMetadata>, a: seq<EquipOption>, b: seq<EquipOption>, groupLabel: string, fetch: Fetch)
    ensures MetaOptions(m, a + b, groupLabel, fetch) == MetaOptions(MetaOptions(m, a, groupLabel, fetch), b, groupLabel, fetch)
    decreases |b|
  {
    if b == [] {
      assert a + b == a;
    } else {
      var b' := b[..|b| - 1];
      assert (a + b)[..|a + b| - 1] == a + b';
      MetaOptionsAppend(m, a, b', groupLabel, fetch);
    }
  }

  function Unresolved(fetch: Fetch): EquipOption -> bool
  {
    (o: EquipOption) => IsListReference(o) && !Resolves(o, fetch)
  }

  function PlainUnkeyed(): EquipOption -> bool
  {
    (o: EquipOption) => !IsListReference(o) && o.metadataKey.None?
  }

  function Unkeyed(): EquipOption -> bool
  {
    (o: EquipOption) => o.metadataKey.None?
  }

  /** Options that are not references come through unchanged and in order;
      markers take the places of the resolved references; nothing else appears. */
  lemma ExpandOptionsShape(os: seq<EquipOption>, groupLabel: string, fetch: Fetch)
    ensures |ExpandOptions(os, groupLabel, fetch)| == |os| - |Filter(os, Unresolved(fetch))|
    ensures Filter(ExpandOptions(os, groupLabel, fetch), Unkeyed()) == Filter(os, PlainUnkeyed())
  {
    ExpandOptionsLength(os, groupLabel, fetch);
    ExpandOptionsKeepsPlain(os, groupLabel, fetch);
  }

  lemma {:induction false} ExpandOptionsLength(os: seq<EquipOption>, groupLabel: string, fetch: Fetch)
    ensures |ExpandOptions(os, groupLabel, fetch)| == |os| - |Filter(os, Unresolved(fetch))|
    decreases |os|
  {
    if os != [] {
      ExpandOptionsLength(os[..|os| - 1], groupLabel, fetch);
      FilterSnoc(os, Unresolved(fetch));
    }
  }

  lemma {:induction false} ExpandOptionsKeepsPlain(os: seq<EquipOption>, groupLabel: string, fetch: Fetch)
    ensures Filter(ExpandOptions(os, groupLabel, fetch), Unkeyed()) == Filter(os, PlainUnkeyed())
    decreases |os|
  {
    if os != [] {
      var pre, o := os[..|os| - 1], os[|os| - 1];
      ExpandOptionsKeepsPlain(pre, groupLabel, fetch);
      FilterSnoc(os, PlainUnkeyed());
      FilterAppend(ExpandOptions(pre, groupLabel, fetch), Step(o, groupLabel, fetch), Unkeyed());
      StepKeepsPlain(o, groupLabel, fetch);
    }
  }

  /** What one option adds to the unkeyed options is the option itself when it is plain and unkeyed. */
  lemma StepKeepsPlain(o: EquipOption, groupLabel: string, fetch: Fetch)
    ensures Filter(Step(o, groupLabel, fetch), Unkeyed()) == if PlainUnkeyed()(o) then [o] else []
  {
    if !IsListReference(o) {
      FilterSingleton(o, Unkeyed());
    } else if Resolves(o, fetch) {
      FilterSingleton(Marker(o, MetadataKey(o.listId, groupLabel)), Unkeyed());
    }
  }

  /** A group without references is left as it is and adds no metadata. */
  lemma {:induction false} NoReferencesUnchanged(m: map<string, ListMetadata>, os: seq<EquipOption>, groupLabel: string, fetch: Fetch)
    requires forall o :: o in os ==> !IsListReference(o)
    ensures ExpandOptions(os, groupLabel, fetch) == os
    ensures MetaOptions(m, os, groupLabel, fetch) == m
    decreases |os|
  {
    if os != [] {
      var pre, o := os[..|os| - 1], os[|os| - 1];
      assert os == pre + [o];
      assert forall x :: x in pre ==> x in os;
      NoReferencesUnchanged(m, pre, groupLabel, fetch);
      assert !IsListReference(o);
      assert Step(o, groupLabel, fetch) == [o];
    }
  }

  /** Expanding what the resolver already produced changes nothing and finds
      no list to read. */
  lemma {:induction false} ExpandIdempotent(gs: seq<OptionGroup>, fetch: Fetch, fetch2: Fetch)
    ensures ExpandGroups(ExpandGroups(gs, fetch), fetch2) == ExpandGroups(gs, fetch)
    ensures MetaGroups(ExpandGroups(gs, fetch), fetch2) == map[]
    decreases |gs|
  {
    if gs != [] {
      var pre := gs[..|gs| - 1];
      var e := ExpandGroups(gs, fetch);
      ExpandIdempotent(pre, fetch, fetch2);
      assert e[..|e| - 1] == ExpandGroups(pre, fetch);
      var g := e[|e| - 1];
      NoReferencesUnchanged(MetaGroups(ExpandGroups(pre, fetch), fetch2), g.options, g.groupLabel, fetch2);
    }
  }

  /** A reference whose items cannot be read contributes no marker: the
      options are as if it were not there. */
  lemma FailedReferenceNoMarker(os: seq<EquipOption>, k: nat, groupLabel: string, fetch: Fetch)
    requires k < |os| && IsListReference(os[k]) && !Resolves(os[k], fetch)
    ensures ExpandOptions(os, groupLabel, fetch) == ExpandOptions(os[..k] + os[k + 1..], groupLabel, fetch)
  {
    var a, b := os[..k], os[k + 1..];
    var one := [os[k]];
    assert os == (a + one) + b;
    assert one[..0] == [];
    assert ExpandOptions(one, groupLabel, fetch) == [];
    ExpandOptionsAppend(a, one, groupLabel, fetch);
    assert ExpandOptions(a + one, groupLabel, fetch) == ExpandOptions(a, groupLabel, fetch);
    ExpandOptionsAppend(a + one, b, groupLabel, fetch);
    ExpandOptionsAppend(a, b, groupLabel, fetch);
  }

  /** A reference whose items cannot be read writes no metadata. */
  lemma FailedReferenceNoMetadata(m: map<string, ListMetadata>, os: seq<EquipOption>, k: nat, groupLabel: string, fetch: Fetch)
    requires k < |os| && IsListReference(os[k]) && !Resolves(os[k], fetch)
    ensures MetaOptions(m, os, groupLabel, fetch) == MetaOptions(m, os[..k] + os[k + 1..], groupLabel, fetch)
  {
    var a, b := os[..k], os[k + 1..];
    assert os == (a + [os[k]]) + b;
    MetaOptionsAppend(m, a + [os[k]], b, groupLabel, fetch);
    MetaOptionsAppend(m, a, [os[k]], groupLabel, fetch);
    MetaOptionsAppend(m, a, b, groupLabel, fetch);
    assert [os[k]][..0] == [];
  }

  /** References to the same list in groups with the same groupLabel share a key,
      and the metadata under it is the entry of the LAST resolved reference. */
  lemma {:induction false} LastReferenceWins(m: map<string, ListMetadata>, os: seq<EquipOption>, j: nat, groupLabel: string, fetch: Fetch)
    requires j < |os| && Resolves(os[j], fetch)
    requires forall l :: j < l < |os| && Resolves(os[l], fetch) ==>
      MetadataKey(os[l].listId, groupLabel) != MetadataKey(os[j].listId, groupLabel)
    ensures var key := MetadataKey(os[j].listId, groupLabel);
      key in MetaOptions(m, os, groupLabel, fetch) &&
      MetaOptions(m, os, groupLabel, fetch)[key] == Entry(os[j], fetch(os[j].listId))
    decreases |os|
  {
    if j < |os| - 1 {
      var pre := os[..|os| - 1];
      assert forall l :: j < l < |pre| ==> pre[l] == os[l];
      LastReferenceWins(m, pre, j, groupLabel, fetch);
    }
  }
}
