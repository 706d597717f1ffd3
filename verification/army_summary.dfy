/** The read-only army summary card: the unit count, the detachments with
    their units grouped by role (logistical units last within a role), the
    wargear listed under each unit and the points line. The PDF export
    renders the same grouping and wargear and reuses them from here. */
module ArmySummary {
  import opened Wrappers
  import opened Seqs
  import opened Records
  import Text
  import RoleSlotSection

  // ---------------------------------------------------------------------
  // Counting units

  function UnitCount(): Detachment -> int
  {
    (d: Detachment) => |d.units|
  }

  /** `totalUnits`: the units of every detachment, summed. */
  function TotalUnits(list: ArmyList): int
  {
    SumOf(list.detachments, UnitCount())
  }

  function HasUnits(): Detachment -> bool
  {
    (d: Detachment) => |d.units| > 0
  }

  function LacksUnits(): Detachment -> bool
  {
    (d: Detachment) => |d.units| == 0
  }

  /** The detachments the card renders: those with at least one unit, in list order. */
  function ShownDetachments(ds: seq<Detachment>): seq<Detachment>
  {
    Filter(ds, HasUnits())
  }

  // ---------------------------------------------------------------------
  // Grouping by role

  /** One entry of `unitsByRole`: a role and its units. */
  datatype RoleGroup = RoleGroup(role: string, units: seq<Unit>)

  /** The keys of `unitsByRole` in insertion order: each role once, in the
      order of its first unit. */
  function RolesInOrder(units: seq<Unit>): (roles: seq<string>)
    ensures forall i, j :: 0 <= i < j < |roles| ==> roles[i] != roles[j]
    ensures forall r :: r in roles <==> exists k :: 0 <= k < |units| && units[k].role == r
  {
    if units == [] then []
    else
      var pre := units[..|units| - 1];
      var u := units[|units| - 1];
      var prev := RolesInOrder(pre);
      assert forall k :: 0 <= k < |pre| ==> pre[k] == units[k];
      if u.role in prev then prev else prev + [u.role]
  }

  function IsLogistical(): Unit -> bool
  {
    (u: Unit) => u.isLogisticalBenefit
  }

  function IsRegular(): Unit -> bool
  {
    (u: Unit) => !u.isLogisticalBenefit
  }

  /** The result of sorting a role's units with the comparator that puts a
      logistical unit after a regular one and otherwise keeps the order. */
  function LogisticalLast(units: seq<Unit>): seq<Unit>
  {
    Filter(units, IsRegular()) + Filter(units, IsLogistical())
  }

  /** The sorted units are the same units, logistical ones last, with the
      relative order of the regular and of the logistical units kept. */
  lemma LogisticalLastSorts(units: seq<Unit>)
    ensures var r := LogisticalLast(units);
      && multiset(r) == multiset(units)
      && (forall i, j :: 0 <= i < j < |r| && r[i].isLogisticalBenefit ==> r[j].isLogisticalBenefit)
      && Filter(r, IsRegular()) == Filter(units, IsRegular())
      && Filter(r, IsLogistical()) == Filter(units, IsLogistical())
  {
    FilterSplitMultiset(units, IsRegular(), IsLogistical());
    LogisticalLastOrdered(units);
    LogisticalLastKeepsOrder(units);
  }

  /** No regular unit comes after a logistical one. */
  lemma LogisticalLastOrdered(units: seq<Unit>)
    ensures var r := LogisticalLast(units);
      forall i, j :: 0 <= i < j < |r| && r[i].isLogisticalBenefit ==> r[j].isLogisticalBenefit
  {
    var regular := Filter(units, IsRegular());
    var logistical := Filter(units, IsLogistical());
    FilterSatisfies(units, IsRegular());
    FilterSatisfies(units, IsLogistical());
    ConcatPartitioned(regular, logistical, IsLogistical());
  }

  /** The regular units and the logistical units each keep their order. */
  lemma LogisticalLastKeepsOrder(units: seq<Unit>)
    ensures Filter(LogisticalLast(units), IsRegular()) == Filter(units, IsRegular())
    ensures Filter(LogisticalLast(units), IsLogistical()) == Filter(units, IsLogistical())
  {
    var regular := Filter(units, IsRegular());
    var logistical := Filter(units, IsLogistical());
    FilterAppend(regular, logistical, IsRegular());
    FilterAppend(regular, logistical, IsLogistical());
    FilterIdempotent(units, IsRegular());
    FilterIdempotent(units, IsLogistical());
    FilterDisjoint(units, IsRegular(), IsLogistical());
    FilterDisjoint(units, IsLogistical(), IsRegular());
  }

  /** A sort with that comparator is stable, so its result is determined:
      any ordering of a role's units that puts logistical units last and
      keeps the relative order of the regular and of the logistical units
      is `LogisticalLast`. */
  lemma StableSortIsLogisticalLast(units: seq<Unit>, r: seq<Unit>)
    requires forall i, j :: 0 <= i < j < |r| && r[i].isLogisticalBenefit ==> r[j].isLogisticalBenefit
    requires Filter(r, IsRegular()) == Filter(units, IsRegular())
    requires Filter(r, IsLogistical()) == Filter(units, IsLogistical())
    ensures r == LogisticalLast(units)
  {
    assert forall i, j :: 0 <= i < j < |r| && IsLogistical()(r[i]) ==> IsLogistical()(r[j]);
    PartitionedIsFilters(r, IsRegular(), IsLogistical());
  }

  /** The group `unitsByRole[role]` after the sort. */
  function GroupOf(units: seq<Unit>): string -> RoleGroup
  {
    (role: string) => RoleGroup(role, LogisticalLast(RoleSlotSection.UnitsInRole(units, role)))
  }

  /** `Object.entries(unitsByRole)` once every group is sorted. */
  function Grouped(units: seq<Unit>): seq<RoleGroup>
  {
    Map(RolesInOrder(units), GroupOf(units))
  }

  /** Index of the group for `role`, or `|groups|` when there is none yet. */
  function FindGroup(groups: seq<RoleGroup>, role: string): (j: nat)
    ensures j <= |groups|
    ensures j < |groups| ==> groups[j].role == role
    ensures j == |groups| ==> forall i :: 0 <= i < |groups| ==> groups[i].role != role
  {
    if groups == [] then 0
    else if groups[0].role == role then 0
    else 1 + FindGroup(groups[1..], role)
  }

  /** How one more unit changes the roles seen so far. */
  lemma StepRoles(units: seq<Unit>, k: nat)
    requires k < |units|
    ensures RolesInOrder(units[..k + 1]) ==
      if units[k].role in RolesInOrder(units[..k]) then RolesInOrder(units[..k])
      else RolesInOrder(units[..k]) + [units[k].role]
    ensures units[k].role !in RolesInOrder(units[..k]) ==> RoleSlotSection.UnitsInRole(units[..k], units[k].role) == []
  {
    var pre := units[..k];
    var u := units[k];
    assert units[..k + 1][..k] == pre;
    if u.role !in RolesInOrder(pre) {
      assert forall x :: x in pre ==> x.role != u.role;
      FilterNone(pre, RoleSlotSection.RoleIs(u.role));
    }
  }

  /** How one more unit changes the units of one role. */
  lemma StepRole(units: seq<Unit>, k: nat, r: string)
    requires k < |units|
    ensures RoleSlotSection.UnitsInRole(units[..k + 1], r) ==
      RoleSlotSection.UnitsInRole(units[..k], r) + (if r == units[k].role then [units[k]] else [])
  {
    var pre := units[..k];
    var u := units[k];
    assert units[..k + 1] == pre + [u];
    FilterAppend(pre, [u], RoleSlotSection.RoleIs(r));
    assert [u][1..] == [];
  }

  /** The group `unitsByRole[role]` before the sort. */
  function Collected(units: seq<Unit>): string -> RoleGroup
  {
    (role: string) => RoleGroup(role, RoleSlotSection.UnitsInRole(units, role))
  }

  /** Pushing a unit onto the existing array of its role. */
  lemma PushExisting(units: seq<Unit>, k: nat, j: nat)
    requires k < |units|
    requires j < |RolesInOrder(units[..k])| && RolesInOrder(units[..k])[j] == units[k].role
    ensures var before := Map(RolesInOrder(units[..k]), Collected(units[..k]));
      before[j := RoleGroup(units[k].role, before[j].units + [units[k]])] ==
      Map(RolesInOrder(units[..k + 1]), Collected(units[..k + 1]))
  {
    var pre, next, u := units[..k], units[..k + 1], units[k];
    var roles := RolesInOrder(pre);
    assert u.role in roles;
    StepRoles(units, k);
    var before := Map(roles, Collected(pre));
    var updated := before[j := RoleGroup(u.role, before[j].units + [u])];
    forall i | 0 <= i < |roles| ensures Collected(next)(roles[i]) == updated[i] {
      PushAt(units, k, j, i);
    }
    MapAgrees(roles, Collected(next), updated);
  }

  /** The group of the `i`-th role seen after a push onto the `j`-th. */
  lemma PushAt(units: seq<Unit>, k: nat, j: nat, i: nat)
    requires k < |units|
    requires j < |RolesInOrder(units[..k])| && RolesInOrder(units[..k])[j] == units[k].role
    requires i < |RolesInOrder(units[..k])|
    ensures Collected(units[..k + 1])(RolesInOrder(units[..k])[i]) ==
      if i == j then RoleGroup(units[k].role, Collected(units[..k])(units[k].role).units + [units[k]])
      else Collected(units[..k])(RolesInOrder(units[..k])[i])
  {
    CollectedStep(units, k, RolesInOrder(units[..k])[i]);
  }

  /** One more unit is pushed onto the array of its own role only. */
  lemma CollectedStep(units: seq<Unit>, k: nat, r: string)
    requires k < |units|
    ensures Collected(units[..k + 1])(r) ==
      if r == units[k].role then RoleGroup(r, Collected(units[..k])(r).units + [units[k]])
      else Collected(units[..k])(r)
  {
    StepRole(units, k, r);
    assert RoleSlotSection.UnitsInRole(units[..k], r) + [] == RoleSlotSection.UnitsInRole(units[..k], r);
  }

  /** Creating the array for a role on its first unit. */
  lemma PushNew(units: seq<Unit>, k: nat)
    requires k < |units|
    requires units[k].role !in RolesInOrder(units[..k])
    ensures Map(RolesInOrder(units[..k]), Collected(units[..k])) + [RoleGroup(units[k].role, [units[k]])] ==
      Map(RolesInOrder(units[..k + 1]), Collected(units[..k + 1]))
  {
    var pre, next, u := units[..k], units[..k + 1], units[k];
    StepRoles(units, k);
    var roles := RolesInOrder(pre);
    assert RolesInOrder(next) == roles + [u.role];
    MapSnoc(roles, u.role, Collected(next));
    forall r | r in roles ensures Collected(next)(r) == Collected(pre)(r) {
      StepRole(units, k, r);
      assert r != u.role;
      assert Collected(next)(r).units == Collected(pre)(r).units + [];
    }
    MapPointwise(roles, Collected(next), Collected(pre));
    StepRole(units, k, u.role);
    assert Collected(next)(u.role) == RoleGroup(u.role, [u]);
  }

  /** The `forEach`/`push` pass: one array per role, in first-occurrence order. */
  method CollectByRole(units: seq<Unit>) returns (groups: seq<RoleGroup>)
    ensures groups == Map(RolesInOrder(units), Collected(units))
  {
    groups := [];
    var k := 0;
    while k < |units|
      invariant 0 <= k <= |units|
      invariant groups == Map(RolesInOrder(units[..k]), Collected(units[..k]))
    {
      var u := units[k];
      var j := FindGroup(groups, u.role);
      if j < |groups| {
        PushExisting(units, k, j);
        groups := groups[j := RoleGroup(u.role, groups[j].units + [u])];
      } else {
        PushNew(units, k);
        groups := groups + [RoleGroup(u.role, [u])];
      }
      k := k + 1;
    }
    assert units[..k] == units;
  }

  /** A role's array after the logistical-last sort. */
  function SortedGroup(): RoleGroup -> RoleGroup
  {
    (g: RoleGroup) => RoleGroup(g.role, LogisticalLast(g.units))
  }

  /** The `Object.keys(...).forEach(... .sort(...))` pass: every array sorted
      in place, the roles and their order kept. */
  method SortGroups(groups: seq<RoleGroup>) returns (sorted: seq<RoleGroup>)
    ensures sorted == Map(groups, SortedGroup())
  {
    sorted := groups;
    var i := 0;
    while i < |sorted|
      invariant 0 <= i <= |sorted| == |groups|
      invariant forall j :: 0 <= j < i ==> sorted[j] == SortedGroup()(groups[j])
      invariant forall j :: i <= j < |sorted| ==> sorted[j] == groups[j]
    {
      sorted := sorted[i := RoleGroup(sorted[i].role, LogisticalLast(sorted[i].units))];
      i := i + 1;
    }
    MapAgrees(groups, SortedGroup(), sorted);
  }

  /** The grouping as the card and the PDF route do it: push each unit onto
      its role's array, then sort every array with the logistical-last comparator. */
  method GroupByRole(units: seq<Unit>) returns (groups: seq<RoleGroup>)
    ensures groups == Grouped(units)
  {
    var collected := CollectByRole(units);
    groups := SortGroups(collected);
    SortCollected(units);
  }

  /** Sorting the collected arrays gives the specified groups. */
  lemma SortCollected(units: seq<Unit>)
    ensures Map(Map(RolesInOrder(units), Collected(units)), SortedGroup()) == Grouped(units)
  {
    var roles := RolesInOrder(units);
    var collected := Map(roles, Collected(units));
    forall i | 0 <= i < |roles| ensures SortedGroup()(collected[i]) == GroupOf(units)(roles[i]) {
    }
    MapAgrees(roles, GroupOf(units), Map(collected, SortedGroup()));
  }

  /** Every unit is in the group of its own role. */
  lemma UnitInItsGroup(units: seq<Unit>, u: Unit)
    requires u in units
    ensures exists i :: 0 <= i < |Grouped(units)| && Grouped(units)[i].role == u.role && u in Grouped(units)[i].units
  {
    var i := RoleIndex(units, u);
    assert Grouped(units)[i] == GroupOf(units)(u.role);
    InOwnGroup(units, u);
  }

  /** A unit's role is among the roles seen. */
  lemma RoleIndex(units: seq<Unit>, u: Unit) returns (i: nat)
    requires u in units
    ensures i < |RolesInOrder(units)| && RolesInOrder(units)[i] == u.role
  {
    var roles := RolesInOrder(units);
    var k :| 0 <= k < |units| && units[k] == u;
    assert u.role in roles;
    i :| 0 <= i < |roles| && roles[i] == u.role;
  }

  /** The sorted array of a unit's role holds the unit. */
  lemma InOwnGroup(units: seq<Unit>, u: Unit)
    requires u in units
    ensures u in GroupOf(units)(u.role).units
  {
    var inRole := RoleSlotSection.UnitsInRole(units, u.role);
    assert u in inRole;
    LogisticalLastSorts(inRole);
    assert u in multiset(LogisticalLast(inRole));
  }

  /** A group holds only units of the list with the group's role, and no two
      groups have the same role: so each unit is in exactly one group. */
  lemma GroupsAreByRole(units: seq<Unit>)
    ensures forall i, v :: 0 <= i < |Grouped(units)| && v in Grouped(units)[i].units ==>
      v in units && v.role == Grouped(units)[i].role
    ensures forall i, j :: 0 <= i < j < |Grouped(units)| ==> Grouped(units)[i].role != Grouped(units)[j].role
  {
    var roles := RolesInOrder(units);
    var groups := Grouped(units);
    forall i, v | 0 <= i < |groups| && v in groups[i].units ensures v in units && v.role == groups[i].role {
      assert groups[i] == GroupOf(units)(roles[i]);
      LogisticalLastSorts(RoleSlotSection.UnitsInRole(units, roles[i]));
      assert v in multiset(RoleSlotSection.UnitsInRole(units, roles[i]));
    }
  }

  function GroupSize(units: seq<Unit>): string -> int
  {
    (role: string) => |RoleSlotSection.UnitsInRole(units, role)|
  }

  /** The role arrays, taken together, hold as many units as the detachment. */
  lemma {:induction false} RoleSizesSum(units: seq<Unit>)
    ensures SumOf(RolesInOrder(units), GroupSize(units)) == |units|
  {
    if units != [] {
      var n := |units| - 1;
      var pre := units[..n];
      var u := units[n];
      RoleSizesSum(pre);
      StepRoles(units, n);
      assert units[..n + 1] == units;
      var rp := RolesInOrder(pre);
      var f, g := GroupSize(pre), GroupSize(units);
      SizeStep(units, u.role);
      forall y | y != u.role ensures g(y) == f(y) {
        SizeStep(units, y);
      }
      if u.role in rp {
        var k :| 0 <= k < |rp| && rp[k] == u.role;
        SumOfBumpOnce(rp, k, f, g);
      } else {
        SumOfPointwise(rp, f, g);
        SumOfAppend(rp, [u.role], g);
        assert [u.role][..0] == [];
      }
    }
  }

  /** The last unit adds one to the size of its own role only. */
  lemma SizeStep(units: seq<Unit>, y: string)
    requires units != []
    ensures GroupSize(units)(y) ==
      GroupSize(units[..|units| - 1])(y) + (if y == units[|units| - 1].role then 1 else 0)
  {
    var n := |units| - 1;
    StepRole(units, n, y);
    assert units[..n + 1] == units;
  }

  function GroupLength(): RoleGroup -> int
  {
    (g: RoleGroup) => |g.units|
  }

  /** The rendered groups show every unit of the detachment once: their
      lengths add up to the number of units. */
  lemma GroupsCoverUnits(units: seq<Unit>)
    ensures SumOf(Grouped(units), GroupLength()) == |units|
  {
    var roles := RolesInOrder(units);
    forall r | r in roles ensures GroupSize(units)(r) == GroupLength()(GroupOf(units)(r)) {
      var g := GroupOf(units)(r);
      LogisticalLastSorts(RoleSlotSection.UnitsInRole(units, r));
      assert |multiset(g.units)| == |multiset(RoleSlotSection.UnitsInRole(units, r))|;
    }
    SumOfMap(roles, GroupOf(units), GroupLength(), GroupSize(units));
    RoleSizesSum(units);
  }

  /** Some unit before position `b` has the role. */
  ghost predicate RoleBefore(units: seq<Unit>, role: string, b: int)
  {
    exists a :: 0 <= a < b && a < |units| && units[a].role == role
  }

  /** Groups appear in first-occurrence order: every unit of a later group
      comes after some unit of each earlier group. */
  lemma {:induction false} RolesFirstOccurrenceOrder(units: seq<Unit>)
    ensures forall i, j, b :: 0 <= i < j < |RolesInOrder(units)| && 0 <= b < |units| && units[b].role == RolesInOrder(units)[j] ==>
      RoleBefore(units, RolesInOrder(units)[i], b)
  {
    if units != [] {
      var pre, u := units[..|units| - 1], units[|units| - 1];
      RolesFirstOccurrenceOrder(pre);
      assert units == pre + [u];
      forall i, j, b | 0 <= i < j < |RolesInOrder(units)| && 0 <= b < |units| && units[b].role == RolesInOrder(units)[j]
        ensures RoleBefore(units, RolesInOrder(units)[i], b)
      {
        OrderStep(pre, u, i, j, b);
      }
    }
  }

  /** One unit more keeps the first-occurrence order of the roles. */
  lemma OrderStep(pre: seq<Unit>, u: Unit, i: nat, j: nat, b: nat)
    requires forall i', j', b' :: 0 <= i' < j' < |RolesInOrder(pre)| && 0 <= b' < |pre| && pre[b'].role == RolesInOrder(pre)[j'] ==>
      RoleBefore(pre, RolesInOrder(pre)[i'], b')
    requires i < j < |RolesInOrder(pre + [u])| && b <= |pre| && (pre + [u])[b].role == RolesInOrder(pre + [u])[j]
    ensures RoleBefore(pre + [u], RolesInOrder(pre + [u])[i], b)
  {
    var units := pre + [u];
    assert units[..|pre|] == pre;
    var rp := RolesInOrder(pre);
    var roles := RolesInOrder(units);
    assert roles == if u.role in rp then rp else rp + [u.role];
    assert i < |rp| && roles[i] == rp[i];
    if b < |pre| {
      assert units[b] == pre[b];
      assert pre[b].role in rp;
      assert j < |rp| && roles[j] == rp[j];
      assert 0 <= i < j < |rp| && 0 <= b < |pre| && pre[b].role == rp[j];
      assert RoleBefore(pre, rp[i], b);
      var a :| 0 <= a < b && a < |pre| && pre[a].role == rp[i];
      assert units[a] == pre[a];
    } else {
      assert rp[i] in rp;
      var a0 :| 0 <= a0 < |pre| && pre[a0].role == rp[i];
      assert units[a0] == pre[a0];
    }
  }

  // ---------------------------------------------------------------------
  // The rendered sections

  /** One rendered detachment: its heading and its role groups. */
  datatype Section = Section(id: string, name: string, groups: seq<RoleGroup>)

  function SectionOf(): Detachment -> Section
  {
    (d: Detachment) => Section(d.id, d.name, Grouped(d.units))
  }

  function SectionSize(): Section -> int
  {
    (s: Section) => SumOf(s.groups, GroupLength())
  }

  /** The detachment sections of the card, one per detachment with units. */
  method SummarySections(list: ArmyList) returns (sections: seq<Section>)
    ensures sections == Map(ShownDetachments(list.detachments), SectionOf())
  {
    sections := RenderSections(ShownDetachments(list.detachments));
  }

  /** The `map` over the shown detachments, one section each, in order. */
  method RenderSections(shown: seq<Detachment>) returns (sections: seq<Section>)
    ensures sections == Map(shown, SectionOf())
  {
    sections := [];
    var k := 0;
    while k < |shown|
      invariant 0 <= k <= |shown| && |sections| == k
      invariant forall i :: 0 <= i < k ==> sections[i] == SectionOf()(shown[i])
    {
      var section := RenderSection(shown[k]);
      sections := sections + [section];
      k := k + 1;
    }
    MapAgrees(shown, SectionOf(), sections);
  }

  /** One detachment's section: its heading and its units grouped by role. */
  method RenderSection(d: Detachment) returns (section: Section)
    ensures section == SectionOf()(d)
  {
    var groups := GroupByRole(d.units);
    section := Section(d.id, d.name, groups);
  }

  /** The "Total Units" figure is the number of units the sections show:
      skipping empty detachments and regrouping by role loses and repeats none. */
  lemma TotalUnitsMatchesSections(list: ArmyList)
    ensures SumOf(Map(ShownDetachments(list.detachments), SectionOf()), SectionSize()) == TotalUnits(list)
  {
    SectionsCountUnits(ShownDetachments(list.detachments));
    EmptyDetachmentsAddNothing(list.detachments);
  }

  /** The sections of some detachments show as many units as those detachments hold. */
  lemma SectionsCountUnits(shown: seq<Detachment>)
    ensures SumOf(Map(shown, SectionOf()), SectionSize()) == SumOf(shown, UnitCount())
  {
    forall d | d in shown ensures UnitCount()(d) == SectionSize()(SectionOf()(d)) {
      GroupsCoverUnits(d.units);
    }
    SumOfMap(shown, SectionOf(), SectionSize(), UnitCount());
  }

  /** Leaving out the detachments without units does not change the unit count. */
  lemma EmptyDetachmentsAddNothing(ds: seq<Detachment>)
    ensures SumOf(ShownDetachments(ds), UnitCount()) == SumOf(ds, UnitCount())
  {
    SumOfPartition(ds, HasUnits(), LacksUnits(), UnitCount());
    var empty := Filter(ds, LacksUnits());
    SumOfPointwise(empty, UnitCount(), (d: Detachment) => 0);
    ZeroSum(empty);
  }

  lemma {:induction false} ZeroSum(ds: seq<Detachment>)
    ensures SumOf(ds, (d: Detachment) => 0) == 0
  {
    if ds != [] {
      ZeroSum(ds[..|ds| - 1]);
    }
  }

  // ---------------------------------------------------------------------
  // Per-unit lines

  function ItemName(): Item -> string
  {
    (e: Item) => e.name
  }

  /** The wargear listed under a unit: the names of its chosen equipment, or
      its base wargear when it has no equipment. Shared by the card and the PDF. */
  function ListedWargear(u: Unit): (r: seq<string>)
    ensures |u.equipment| > 0 ==> |r| == |u.equipment| && forall i :: 0 <= i < |r| ==> r[i] == u.equipment[i].name
    ensures |u.equipment| == 0 ==> r == u.baseWargear
  {
    if |u.equipment| > 0 then Map(u.equipment, ItemName()) else u.baseWargear
  }

  /** Nothing is listed exactly when the unit has neither equipment nor base wargear. */
  lemma ListedWargearEmptyIff(u: Unit)
    ensures ListedWargear(u) == [] <==> u.equipment == [] && u.baseWargear == []
  {
  }

  // ---------------------------------------------------------------------
  // The points line

  /** JavaScript truthiness of a numeric points limit: present and non-zero. */
  predicate LimitIsSet(limit: Option<int>)
  {
    limit.Some? && limit.value != 0
  }

  /** The points line as the card writes it: the total, then
      `{list.pointsLimit && <span>/{limit}</span>}`, then "pts". A limit of 0
      is falsy, but `&&` yields the number 0 itself, which is rendered. */
  function PointsLineAsWritten(total: int, limit: Option<int>): string
  {
    var limitPart := match limit
      case None => ""
      case Some(n) => if n == 0 then "0" else "/" + Text.IntToString(n);
    Text.IntToString(total) + limitPart + "pts"
  }

  /** With a limit of 0 the card shows ten times the total: 100 points read as "1000pts". */
  lemma ZeroLimitShowsTenfold()
    ensures PointsLineAsWritten(100, Some(0)) == "1000pts"
    ensures Text.ParseInt(PointsLineAsWritten(100, Some(0))) == Some(1000)
  {
    TenfoldText();
    Text.ParseIntOfNumberThen(1000, "pts");
  }

  lemma TenfoldText()
    ensures PointsLineAsWritten(100, Some(0)) == Text.IntToString(1000) + "pts" == "1000pts"
  {
    HundredAndThousand();
    assert PointsLineAsWritten(100, Some(0)) == Text.IntToString(100) + "0" + "pts";
    assert Text.IntToString(100) + "0" == Text.IntToString(1000);
  }

  lemma HundredAndThousand()
    ensures Text.IntToString(100) == "100" && Text.IntToString(1000) == "1000"
  {
    assert Text.NatToString(1) == "1";
    assert Text.NatToString(10) == "10";
    assert Text.NatToString(100) == "100";
    assert Text.NatToString(1000) == "1000";
  }

  lemma NoSlashInNumber(n: int)
    ensures '/' !in Text.IntToString(n)
  {
    var s := Text.IntToString(n);
    forall i | 0 <= i < |s| ensures s[i] != '/' {
      assert Text.IsDigit(s[i]) || s[i] == '-';
    }
  }

  /** The points line with an unset or zero limit treated as no limit, as the
      PDF export does: it always reads back as the total, and it shows a
      `/` exactly when a limit is set. */
  function PointsLine(total: int, limit: Option<int>): (r: string)
    ensures Text.ParseInt(r) == Some(total)
    ensures '/' in r <==> LimitIsSet(limit)
    ensures LimitIsSet(limit) ==>
      exists k :: 0 <= k < |r| && r[k] == '/' && Text.ParseInt(r[k + 1..]) == Some(limit.value)
    ensures |r| >= 3 && r[|r| - 3..] == "pts"
  {
    if LimitIsSet(limit) then
      LimitedLine(total, limit.value);
      LimitedLineShowsLimit(total, limit.value);
      Text.IntToString(total) + "/" + Text.IntToString(limit.value) + "pts"
    else
      UnlimitedLine(total);
      Text.IntToString(total) + "pts"
  }

  /** "{total}/{limit}pts" reads back as the total and holds a `/`. */
  lemma LimitedLine(total: int, limit: int)
    ensures var r := Text.IntToString(total) + "/" + Text.IntToString(limit) + "pts";
      Text.ParseInt(r) == Some(total) && '/' in r
  {
    var t := Text.IntToString(total);
    var rest := "/" + Text.IntToString(limit) + "pts";
    assert rest[0] == '/';
    Text.ParseIntOfNumberThen(total, rest);
    SlashJoin(t, Text.IntToString(limit));
  }

  /** In "{total}/{limit}pts" the limit follows the slash, and the text ends in "pts". */
  lemma LimitedLineShowsLimit(total: int, limit: int)
    ensures var r := Text.IntToString(total) + "/" + Text.IntToString(limit) + "pts";
      r[|Text.IntToString(total)|] == '/' && Text.ParseInt(r[|Text.IntToString(total)| + 1..]) == Some(limit)
    ensures var r := Text.IntToString(total) + "/" + Text.IntToString(limit) + "pts";
      r[|r| - 3..] == "pts"
  {
    SlashJoin(Text.IntToString(total), Text.IntToString(limit));
    LimitAfterSlash(Text.IntToString(total), Text.IntToString(limit), limit);
  }

  /** After the slash comes the limit's text. */
  lemma LimitAfterSlash(t: string, l: string, limit: int)
    requires l == Text.IntToString(limit)
    ensures Text.ParseInt((t + "/" + l + "pts")[|t| + 1..]) == Some(limit)
  {
    assert (t + "/" + l + "pts")[|t| + 1..] == l + "pts";
    Text.ParseIntOfNumberThen(limit, "pts");
  }

  /** Gluing "/" and a limit's text after a number's text. */
  lemma SlashJoin(t: string, l: string)
    ensures t + "/" + l + "pts" == t + ("/" + l + "pts")
    ensures (t + "/" + l + "pts")[|t|] == '/'
  {
  }

  /** "{total}pts" reads back as the total and holds no `/`. */
  lemma UnlimitedLine(total: int)
    ensures var r := Text.IntToString(total) + "pts";
      Text.ParseInt(r) == Some(total) && '/' !in r
  {
    Text.ParseIntOfNumberThen(total, "pts");
    NoSlashInNumber(total);
  }
}
