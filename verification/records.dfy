/** The JSON-shaped records the list builder passes around: list-side
    instances (lists, detachments, units) and catalog rows (unit and
    detachment templates, equipment option groups). Field names follow the
    records; a JavaScript field that may be missing or null is an `Option`. */
module Records {
  import opened Wrappers

  /** A chosen piece of equipment or a weapon-list item: `{name, cost}`. */
  datatype Item = Item(name: string, cost: int)

  /** A prime-slot benefit row. */
  datatype Benefit = Benefit(id: string, name: string, description: string)

  /** The id of the benefit at most one unit per detachment may hold. */
  const LogisticalBenefitId: string := "logistical-benefit"

  /** A unit placed in a list. */
  datatype Unit = Unit(
    id: string,
    slotIndex: int,
    unitId: string,
    name: string,
    role: string,
    isPrimeSlot: bool,
    baseCost: int,
    equipmentCost: int,
    totalCost: int,
    equipment: seq<Item>,
    baseWargear: seq<string>,
    specialRules: seq<string>,
    primeBenefit: Option<Benefit>,
    isLogisticalBenefit: bool)

  /** `{role, quantity, primeSlots, triggeredBy}`: fixed in a template, or added
      to a detachment by the unit whose id is `triggeredBy`. */
  datatype RoleSlotSpec = RoleSlotSpec(role: string, quantity: int, primeSlots: seq<int>, triggeredBy: Option<string>)

  /** A detachment instance inside a list. */
  datatype Detachment = Detachment(
    id: string,
    detachmentId: string,
    name: string,
    kind: string,
    isValid: bool,
    totalPoints: int,
    triggeredBy: Option<string>,
    units: seq<Unit>,
    addedRoles: seq<RoleSlotSpec>)

  /** An army list. */
  datatype ArmyList = ArmyList(
    id: string,
    name: string,
    army: string,
    faction: string,
    allegiance: string,
    pointsLimit: Option<int>,
    totalPoints: int,
    isValid: bool,
    detachments: seq<Detachment>,
    createdAt: Option<string>,
    updatedAt: Option<string>,
    lastModified: Option<string>)

  /** An equipment option as stored in a unit template. `kind` is the `type`
      field; `listId` is `list_id` (what the resolver reads); `weaponListId` is
      the `weaponListId` the admin editor writes; `metadataKey` is set only on
      the markers the resolver makes. `replaced` is the `replaces` field. */
  datatype EquipOption = EquipOption(
    kind: Option<string>,
    name: string,
    cost: int,
    replaced: Option<seq<string>>,
    listId: Option<string>,
    weaponListId: Nullable<string>,
    metadataKey: Option<string>)

  /** `{label, type, mutuallyExclusive, options}`; `groupLabel` is `label`. */
  datatype OptionGroup = OptionGroup(groupLabel: string, kind: string, mutuallyExclusive: bool, options: seq<EquipOption>)

  /** A weapon-list item as the resolver hands it out: `{name, cost, replaces}`. */
  datatype ListItem = ListItem(name: string, cost: int, replaced: seq<string>)

  /** `{listName, listId, itemCount, items}`: what the accordion of one marker shows. */
  datatype ListMetadata = ListMetadata(listName: Option<string>, listId: Option<string>, itemCount: int, items: seq<ListItem>)

  /** A unit template (catalog row of the `units` table). */
  datatype UnitTemplate = UnitTemplate(
    id: string,
    name: string,
    role: string,
    baseCost: int,
    army: string,
    factions: seq<string>,
    allegiances: seq<string>,
    baseWargear: Option<seq<string>>,
    specialRules: Option<seq<string>>,
    equipmentOptions: seq<OptionGroup>)

  /** A detachment template (catalog row of the `detachments` table). */
  datatype DetachmentTemplate = DetachmentTemplate(
    id: string,
    name: string,
    kind: string,
    armies: seq<string>,
    factions: seq<string>,
    roleSlots: seq<RoleSlotSpec>)

  /** A row of the `weapon_lists` table. */
  datatype WeaponListRow = WeaponListRow(id: string, name: string)

  /** A row of the `weapon_list_items` table; `listId` is `list_id`. */
  datatype WeaponItemRow = WeaponItemRow(id: string, listId: string, name: string, cost: int)

  /** `{id, name, cost}` of a weapon in a list; a weapon added in the editor
      has no id yet. */
  datatype Weapon = Weapon(id: Option<string>, name: string, cost: int)

  /** A weapon list with its weapons attached. */
  datatype WeaponList = WeaponList(id: string, name: string, weapons: seq<Weapon>)

  /** JavaScript truthiness of a possibly missing string. */
  predicate Truthy(s: Option<string>)
  {
    s.Some? && s.value != ""
  }

  /** `a || b` for possibly missing strings. */
  function OrElse(a: Option<string>, b: Option<string>): Option<string>
  {
    if Truthy(a) then a else b
  }

  /** `xs || []`. */
  function OrEmpty<T>(xs: Option<seq<T>>): seq<T>
  {
    xs.GetOr([])
  }

  /** The unit holds the logistical benefit. */
  predicate HoldsLogistical(u: Unit)
  {
    u.primeBenefit.Some? && u.primeBenefit.value.id == LogisticalBenefitId
  }
}
