# heresy-forge list-building logic in Dafny

heresy-forge is a Next.js army-list builder for a tabletop game.

- **The user's lists.** A user builds an army list made of detachments. Each detachment has role slots, each slot holds at most one unit, and each unit carries the equipment chosen for it and possibly a prime benefit.
- **The admin catalog.** Admin pages maintain the unit templates, their equipment option groups and the weapon lists that options may refer to.

This project models the list-building rules of the app as Dafny datatypes, functions, methods and lemmas. Each rule is plain data transformation over JSON-shaped records, scattered through React event handlers and helper functions. The rules covered are:

- the equipment checkbox and radio rules;
- the resolver that expands weapon-list references into markers and metadata;
- how role slots are derived and units placed, priced, removed and restored;
- the logistical-benefit bookkeeping;
- the catalog filters;
- the read-only views (summary card and PDF);
- the list record mapping, sync, creation, settings and delete/undo;
- the admin editors and pages.

Database reads and writes, `crypto.randomUUID()`, `Date.now()` and the current date are parameters. Every operation is deterministic given its inputs.

Modules, one per source file (plus three shared ones):

| module | source file |
|---|---|
| `Wrappers` | Option / nullable / result datatypes |
| `Seqs` | order-preserving filter, map and sum over sequences, with their lemmas |
| `Text` | the JavaScript string operations used: ASCII `toLowerCase`, `trim`, `startsWith`, `includes`, `indexOf`, `replace` with a string pattern, `split`/`join`, `String(n)`, `parseInt`, and `Number`/`isNaN` for integer text |
| `Records` | the list, detachment, unit, catalog and weapon-list records |
| `EquipmentOptions` | components/EquipmentOptions.js |
| `EquipmentUtils` | lib/equipmentUtils.js |
| `RoleSlotSection` | sections/RoleSlotSection.js |
| `RoleSlotCard` | components/RoleSlotCard.js |
| `DetachmentCard` | components/DetachmentCard.js |
| `PrimeBenefitSelector` | components/PrimeBenefitSelector.js |
| `UnitSelector` | components/UnitSelector.js |
| `DetachmentSelector` | components/DetachmentSelector.js |
| `ArmySummary` | components/ArmySummary.js |
| `PdfRoute` | app/api/generate-pdf/route.js (not the drawing) |
| `ListSync` | lib/listSyncUtils.js |
| `CreateList` | app/create-list/page.js |
| `ListSettings` | components/ListSettingsModal.js |
| `ListsPage` | app/page.js |
| `EquipmentOptionsEditor` | app/admin/components/EquipmentOptionsModal.js |
| `WeaponListForm` | app/admin/components/WeaponListFormModal.js |
| `UnitForm` | app/admin/components/UnitFormModal.js |
| `WeaponListsPage` | app/admin/weapon-lists/page.js |
| `UnitsPage` | app/admin/units/page.js |

The code's form follows the source:

- **Handlers and helpers** that compute a new value from old ones are functions.
- **Loops that build results step by step** are methods with loop invariants, each proved equal to a specification function: `ExpandGroup`, `ExpandEquipmentOptions`, `BuildSlots`, `CollectByRole`, `SortGroups`, `GroupByRole`, `SummarySections`, `RenderSections`, `DetachmentBlocks`, `BlocksOf`, `GetTimeAgo`.
- **State updated in place** is a class:
  - `PdfRoute.PdfCursor` holds the route's `yPos` and page count.
  - `EquipmentOptionsEditor.Editor` holds the option-editor state.

## Model

| member | source | states |
|---|---|---|
| EquipmentOptions.WithoutName | components/EquipmentOptions.js:11 | the entries whose name differs, in order: an order-preserving subsequence, membership iff name differs, the name no longer selected, every other name's selection unchanged |
| EquipmentOptions.ToggleCheckbox | components/EquipmentOptions.js:6-16 | the clicked name flips; every other name keeps its state; an unselected option is appended as `{name, cost}` after the untouched entries; a selected one loses every entry with its name |
| EquipmentOptions.ToggleTwice | components/EquipmentOptions.js:6-16 | toggling an unselected option twice gives back the exact selection |
| EquipmentOptions.SelectRadio | components/EquipmentOptions.js:18-34 | the clicked name flips; re-clicking removes all its entries; a new choice drops every entry named by the group's options, keeps the others in order and appends the option |
| EquipmentOptions.RadioLeavesOne | components/EquipmentOptions.js:26-32 | choosing an unselected member of the group leaves exactly one entry of the group |
| EquipmentOptions.RadioKeepsAtMostOne | components/EquipmentOptions.js:18-34 | a radio click never takes a group from at most one entry to two |
| EquipmentOptions.OptionNames | components/EquipmentOptions.js:28 | the group's option names, position by position |
| EquipmentOptions.OnOptionChange | components/EquipmentOptions.js:137-141 | the radio path is taken iff `group.type` is "radio"; either way the clicked name flips, and outside the group nothing else changes |
| EquipmentOptions.MutuallyExclusiveIgnored | components/EquipmentOptions.js:137-141 | the `mutuallyExclusive` flag never changes what a click does |
| EquipmentOptions.ClickTargets | components/EquipmentOptions.js:69-70 | an option with metadata under its name offers exactly the list's items, in order; any other offers itself |
| EquipmentOptions.MarkerTargets | components/EquipmentOptions.js:107-116 | a marker with a two-pistol list offers both pistols as click targets |
| EquipmentOptions.RadioWeaponListKeepsBoth | components/EquipmentOptions.js:107-116 | as written, clicking both items of one weapon list in a radio group selects both |
| EquipmentOptions.ResolvedNames | components/EquipmentOptions.js:27-29 | every name a group's options offer, items under markers included, is among the resolved names |
| EquipmentOptions.OnOptionChangeResolved | components/EquipmentOptions.js:18-34 | the corrected handler flips the clicked name and agrees with the original outside radio groups |
| EquipmentOptions.ResolvedRadioKeepsOne | components/EquipmentOptions.js:26-32 | with resolved names, choosing any unselected target of a radio group leaves exactly one entry of the group, and no click exceeds one |
| EquipmentUtils.MetadataKeyInjective | lib/equipmentUtils.js:54 | for ids without a dash, two references share a metadata key iff their id texts and group labels agree |
| EquipmentUtils.Marker | lib/equipmentUtils.js:63-69 | the marker is named by its key, costs 0, carries the key, replaces the reference's replaces or nothing, and is not itself a reference |
| EquipmentUtils.Entry | lib/equipmentUtils.js:46-60 | `itemCount` is the number of items; `listName` falls back to the list id when the name is missing; every item keeps name and cost and inherits the reference's replaces |
| EquipmentUtils.Step | lib/equipmentUtils.js:24-76 | a plain option is copied; a reference whose items cannot be read yields nothing; a resolved one yields exactly its marker under `"{list_id}-{label}"` |
| EquipmentUtils.ExpandOptions | lib/equipmentUtils.js:20-77 | the expanded options are no more than the input and contain no reference |
| EquipmentUtils.ExpandGroups | lib/equipmentUtils.js:16-19 | one group per input group, in order, with label, type and flag unchanged and the options expanded |
| EquipmentUtils.ExpandGroup | lib/equipmentUtils.js:16-79 | the loop over a group's options yields the expanded group and the metadata of its resolved references |
| EquipmentUtils.ExpandEquipmentOptions | lib/equipmentUtils.js:9-79 | null input gives no groups and empty metadata; otherwise the loops yield exactly the specified groups and metadata |
| EquipmentUtils.ExpandOptionsAppend | lib/equipmentUtils.js:20-77 | expansion distributes over concatenation (order is preserved) |
| EquipmentUtils.MetaOptionsAppend | lib/equipmentUtils.js:55-60 | metadata of a concatenation is metadata of the second part started from that of the first |
| EquipmentUtils.ExpandOptionsShape | lib/equipmentUtils.js:63-76 | the output loses exactly the unresolved references; its non-marker options are the input's non-references, in order |
| EquipmentUtils.NoReferencesUnchanged | lib/equipmentUtils.js:73-76 | a group without references is unchanged and adds no metadata |
| EquipmentUtils.ExpandIdempotent | lib/equipmentUtils.js:24 | expanding an expanded result changes no group and finds no metadata |
| EquipmentUtils.FailedReferenceNoMarker | lib/equipmentUtils.js:40-43 | a reference whose items cannot be read leaves the options as if it were absent |
| EquipmentUtils.FailedReferenceNoMetadata | lib/equipmentUtils.js:70-72 | such a reference writes no metadata, and processing goes on |
| EquipmentUtils.LastReferenceWins | lib/equipmentUtils.js:54-55 | references sharing a key leave the metadata of the last resolved one |
| RoleSlotSection.FirstWithRole | sections/RoleSlotSection.js:14 | none iff no spec has the role; otherwise a spec of the template with that role |
| RoleSlotSection.FirstWithRoleIsFirst | sections/RoleSlotSection.js:14 | the spec found is the first one with the role |
| RoleSlotSection.UnitsInRole | sections/RoleSlotSection.js:8 | the detachment's units with the role, as an order-preserving subsequence |
| RoleSlotSection.FirstAtIndex | sections/RoleSlotSection.js:25 | none iff no unit has the index; otherwise a unit with the index |
| RoleSlotSection.Occupant | sections/RoleSlotSection.js:8-25 | a slot's unit has the slot's role and index, and is absent iff no unit has both |
| RoleSlotSection.OccupantIsFirst | sections/RoleSlotSection.js:8-25 | the occupant is the first such unit in detachment order |
| RoleSlotSection.SlotIndexOffset | sections/RoleSlotSection.js:11-18 | the offset is the quantity of the first template spec with the role when `triggeredBy` is set and one exists, otherwise 0 |
| RoleSlotSection.BuildSlots | sections/RoleSlotSection.js:20-34 | exactly `quantity` slots, numbered 1.., indexed offset+i, prime iff the number is in `primeSlots`, holding their occupant, all flagged `!!triggeredBy` |
| RoleSlotSection.AddedRoleAfterFixed | sections/RoleSlotSection.js:14-23 | an added role's slot indices never collide with the fixed role's indices |
| RoleSlotCard.UpdateDetachmentUnits | components/RoleSlotCard.js:11-35 | only the detachment with the id is replaced, its points the sum of the new units; the list total is the sum of detachment totals; everything else kept; pricing preserved |
| RoleSlotCard.HandleSelectUnit | components/RoleSlotCard.js:41-63 | placement happens iff the slot is empty, and appends the new unit after the existing ones |
| RoleSlotCard.NewUnitFitsSlot | components/RoleSlotCard.js:42-57 | the new unit takes the slot's index and prime flag, costs its base cost, has no equipment or benefit, and inherits the logistical flag |
| RoleSlotCard.PlacedUnitOccupiesSlot | components/RoleSlotCard.js:59-60 | the placed unit is the one the slot then shows |
| RoleSlotCard.UpdateReplacesOne | components/RoleSlotCard.js:22-32 | with unique detachment ids, only the detachment at that index changes |
| RoleSlotCard.UpdateMovesTotals | components/RoleSlotCard.js:17-32 | repricing moves both totals by the change in that detachment's unit sum |
| RoleSlotCard.PlacementRaisesTotals | components/RoleSlotCard.js:41-63 | placing raises the detachment and list totals by the base cost |
| RoleSlotCard.WithoutUnit | components/RoleSlotCard.js:68 | removal keeps, in order, exactly the units with another id |
| RoleSlotCard.HandleRemoveUnit | components/RoleSlotCard.js:65-74 | the detachment's units lose every unit with the removed id |
| RoleSlotCard.HandleUndoRemove | components/RoleSlotCard.js:76-79 | undo appends the unit to the units it is given |
| RoleSlotCard.RemovalLowersTotals | components/RoleSlotCard.js:65-74 | removing a unit with a unique id lowers both totals by its cost |
| RoleSlotCard.RemoveThenUndoRestoresTotals | components/RoleSlotCard.js:70-79 | undo against the post-removal list restores both totals |
| RoleSlotCard.StaleUndoDuplicates | components/RoleSlotCard.js:70-79 | as written, undo against the captured pre-removal detachment duplicates the unit and counts its cost twice |
| DetachmentCard.LogisticalUnits | components/DetachmentCard.js:15-19 | exactly the units holding `logistical-benefit`, in list order |
| DetachmentCard.HasUnusedLogisticalBenefits | components/DetachmentCard.js:22-24 | true iff some holder is not the trigger of any added role |
| DetachmentCard.AllRoleSlots | components/DetachmentCard.js:46 | the template's specs followed by the added roles |
| DetachmentCard.ShownControls | components/DetachmentCard.js:116-148 | Remove iff not the primary; apex, auxiliary and add-role only on the primary, each behind its own count or unused-benefit guard |
| DetachmentCard.AddRoleTrigger | components/DetachmentCard.js:151 | a trigger exists iff a benefit is unused, and it is a holder in the detachment |
| DetachmentCard.TriggerUnusedWhenSingleHolder | components/DetachmentCard.js:151 | with at most one holder, the trigger has no added role yet |
| DetachmentCard.TriggerIgnoresUsedFirstHolder | components/DetachmentCard.js:151 | with two holders, the first is the trigger even after it added its role |
| PrimeBenefitSelector.Choose | components/PrimeBenefitSelector.js:4-45 | nothing off a prime slot; "No Benefit" always clears; a benefit is blocked iff it is the logistical one and another unit holds it |
| PrimeBenefitSelector.SetBenefit | components/PrimeBenefitSelector.js:28 | only the unit with the id gets the chosen benefit |
| PrimeBenefitSelector.UsedIgnoresCurrentUnit | components/PrimeBenefitSelector.js:9-12 | the current unit's own holding never disables its button |
| PrimeBenefitSelector.ChoiceKeepsSingleHolder | components/PrimeBenefitSelector.js:9-28 | with at most one holder before a change, there is at most one after |
| UnitSelector.LoadUnits | components/UnitSelector.js:22-27 | no rows gives none; kept iff the allegiance and faction tests (with 'All') pass; order preserved |
| UnitSelector.AllMatchesEveryList | components/UnitSelector.js:23-27 | 'All' tags pass for every list |
| UnitSelector.Search | components/UnitSelector.js:34-36 | kept iff the lower-cased name starts with the lower-cased term; order preserved |
| UnitSelector.EmptySearchKeepsAll | components/UnitSelector.js:34-36 | an empty term keeps every unit |
| UnitSelector.SearchIdempotent | components/UnitSelector.js:34-36 | searching twice equals searching once |
| UnitSelector.LoadIdempotent | components/UnitSelector.js:23-27 | filtering twice equals filtering once |
| DetachmentSelector.LoadDetachments | components/DetachmentSelector.js:20-28 | no rows gives none; kept iff the army and faction tests (with 'All') pass; order preserved |
| DetachmentSelector.WildcardKeepsRow | components/DetachmentSelector.js:23-24 | a row with 'All' armies and factions is offered to every list |
| DetachmentSelector.LoadIdempotent | components/DetachmentSelector.js:22-26 | filtering twice equals filtering once |
| ArmySummary.RolesInOrder | components/ArmySummary.js:99-105 | each role once, exactly the roles of the units |
| ArmySummary.LogisticalLastSorts | components/ArmySummary.js:108-116 | the sort is a permutation with logistical units last and both classes in their original order |
| ArmySummary.StableSortIsLogisticalLast | components/ArmySummary.js:108-116 | any order with those three properties is the model's sort result |
| ArmySummary.CollectByRole | components/ArmySummary.js:99-105 | the push loop yields one array per role in first-occurrence order |
| ArmySummary.GroupByRole | components/ArmySummary.js:99-116 | grouping then sorting yields the specified groups |
| ArmySummary.SortGroups | components/ArmySummary.js:107-116 | sorting every role array keeps the roles and their order and sorts each array logistical-last |
| ArmySummary.SortCollected | components/ArmySummary.js:99-116 | the collected arrays, once sorted, are exactly the specified groups |
| ArmySummary.UnitInItsGroup | components/ArmySummary.js:99-105 | every unit is in the group of its role |
| ArmySummary.GroupsAreByRole | components/ArmySummary.js:99-105 | a group holds only units of its role, and roles are distinct across groups |
| ArmySummary.RoleSizesSum | components/ArmySummary.js:99-105 | the role arrays hold as many units as the detachment |
| ArmySummary.GroupsCoverUnits | components/ArmySummary.js:99-116 | the sorted groups' sizes sum to the number of units |
| ArmySummary.RolesFirstOccurrenceOrder | components/ArmySummary.js:99-105 | groups appear in first-occurrence order |
| ArmySummary.SummarySections | components/ArmySummary.js:96 | one section per detachment with units, in order |
| ArmySummary.RenderSections | components/ArmySummary.js:95-96 | the sections are the shown detachments' sections, one each, in order |
| ArmySummary.RenderSection | components/ArmySummary.js:96-116 | a section is the detachment's heading with its units grouped and sorted by role |
| ArmySummary.TotalUnitsMatchesSections | components/ArmySummary.js:43 | the "Total Units" figure equals the units the sections show |
| ArmySummary.ListedWargear | components/ArmySummary.js:161-173 | the equipment names when there is equipment, else the base wargear |
| ArmySummary.ListedWargearEmptyIff | components/ArmySummary.js:161-173 | nothing listed iff no equipment and no base wargear |
| ArmySummary.ZeroLimitShowsTenfold | components/ArmySummary.js:80 | as written, a limit of 0 turns 100 points into "1000pts" |
| ArmySummary.PointsLine | components/ArmySummary.js:80 | the corrected line reads back as the total, shows a slash iff a limit is set, the text after that slash reads back as the limit, and it ends in "pts" |
| PdfRoute.PointsText | app/api/generate-pdf/route.js:59-61 | reads back as the total, with a slash iff the limit is truthy; the text after the slash reads back as the limit; it ends in " pts" |
| PdfRoute.PointsTextMatchesCard | app/api/generate-pdf/route.js:59-61 | equals the corrected card line up to spaces |
| PdfRoute.DisplayName | app/api/generate-pdf/route.js:135-137 | the name itself when the unit does not hold the logistical benefit; otherwise the name followed by " [LOGISTICAL BENEFIT]" |
| PdfRoute.BadgeShowsBenefit | app/api/generate-pdf/route.js:135-137 | a holder's name always ends with the badge; for a name that does not already end with it, the badge appears iff the unit holds the benefit |
| PdfRoute.PdfCursor.CheckNewPage | app/api/generate-pdf/route.js:21-28 | new page iff `yPos + n > 752`, then `yPos` is 40 and a page is added; otherwise unchanged, and the space fits |
| PdfRoute.PdfCursor.PlaceWargear | app/api/generate-pdf/route.js:179-195 | every wargear line starts on a page with its 15 points above the bottom margin |
| PdfRoute.DetachmentBlocks | app/api/generate-pdf/route.js:70-111 | "No units" for empty detachments, else the role groups, in order |
| PdfRoute.BlocksOf | app/api/generate-pdf/route.js:70-111 | one block per detachment, in the detachments' order |
| PdfRoute.DetachmentBlock | app/api/generate-pdf/route.js:70-111 | an empty detachment gives "No units"; any other its units grouped and sorted by role |
| PdfRoute.BlocksMatchSections | app/api/generate-pdf/route.js:85-111 | the PDF writes the same role groups as the summary card |
| ListSync.CloudId | lib/listSyncUtils.js:12 | a "list-" id loses that prefix; unchanged iff "list-" does not occur |
| ListSync.ToRow | lib/listSyncUtils.js:14-26 | `is_valid` is true; `points_limit` is set iff the limit is truthy, and is that limit |
| ListSync.LoadLists | lib/listSyncUtils.js:55-79 | success iff the query did; the rows mapped in order; no lists on error |
| ListSync.RowRoundTrip | lib/listSyncUtils.js:14-77 | save then load keeps the fields; keeps the id iff it has no "list-"; loses a 0 limit; stamps lastModified |
| ListSync.GuestIdChanges | lib/listSyncUtils.js:12 | a guest list comes back under its id without the prefix |
| ListSync.ToUpload | lib/listSyncUtils.js:127-131 | the local lists whose id no cloud list has, in order |
| ListSync.Sync | lib/listSyncUtils.js:117-153 | always success; 0 for no local lists; the synced count is the number of lists to upload whose upload succeeds; a failed count is reported iff there is something to upload, and synced plus failed equals the uploads; failed 0 iff all uploads succeed |
| ListSync.CountSuccesses | lib/listSyncUtils.js:138-142 | counting the successful results equals counting the lists whose upload succeeds |
| ListSync.AllSucceededIff | lib/listSyncUtils.js:142-143 | every upload succeeded iff the success count equals the uploads |
| ListSync.UploadedGuestListUploadedAgain | lib/listSyncUtils.js:12-131 | an uploaded guest list is not recognised and is uploaded again |
| CreateList.HandleChange | app/create-list/page.js:38-46 | sets the field; an army change also clears the faction; nothing else changes |
| CreateList.ChooseArmy | app/create-list/page.js:144 | sets the army and clears the faction; the settings form's army buttons (components/ListSettingsModal.js:86) make the same update on the same form |
| CreateList.ChooseArmyIsArmyChange | app/create-list/page.js:144 | the army buttons equal the army field change |
| CreateList.LimitFromField | app/create-list/page.js:67 | an empty field gives no limit |
| CreateList.LimitFieldRoundTrip | app/create-list/page.js:67 | an integer's text gives that limit |
| CreateList.Submit | app/create-list/page.js:48-83 | refused iff a required field is empty; otherwise the id with or without "list-", the fields, the limit, zero points, and one empty Primary detachment |
| CreateList.NewListCloudId | app/create-list/page.js:58 | either way the list is stored under the random id |
| CreateList.NewListShowsNothing | app/create-list/page.js:61-83 | a new list counts no units and shows no section |
| CreateList.StoreNewList | app/create-list/page.js:85-104 | nothing stored iff signed in and the cloud save failed; otherwise appended |
| ListSettings.InitForm | components/ListSettingsModal.js:32-42 | the fields copied; the limit field empty iff the limit is unset or 0 |
| ListSettings.SaveAsWritten | components/ListSettingsModal.js:44-58 | as written, refused iff a required field is empty before trimming |
| ListSettings.BlankNameSavedEmpty | components/ListSettingsModal.js:46-53 | as written, a name of one space is saved as the empty name |
| Text.Trim | components/ListSettingsModal.js:53 | the result has no white space at either end and is a slice of the input with only white space cut off before and after it |
| ListSettings.Save | components/ListSettingsModal.js:44-58 | refused iff a required field of the trimmed form is empty; a saved name is non-empty and trimmed; id, detachments, points and validity kept |
| ListSettings.SaveAgreesOnTrimmedNames | components/ListSettingsModal.js:46-53 | for trimmed names both saves agree |
| ListSettings.SaveUnchangedForm | components/ListSettingsModal.js:32-58 | opening and saving gives back the list, a 0 limit cleared |
| ListsPage.IntervalsWellFormed | app/page.js:19-26 | units are strictly decreasing, at least 60 seconds, and their names do not end in "s" |
| ListsPage.Phrase | app/page.js:31 | reads back as the count, ends in "s" iff the count exceeds one |
| ListsPage.GetTimeAgo | app/page.js:10-36 | the loop yields the specified text |
| ListsPage.UnitIndex | app/page.js:28-33 | the first unit no longer than the seconds |
| ListsPage.JustNow | app/page.js:35 | under a minute reads "just now" |
| ListsPage.DescribeUsesUnit | app/page.js:28-33 | from a minute, the count of the largest fitting unit, at least one |
| ListsPage.CountBelowNextUnit | app/page.js:28-33 | the count never reaches the next unit up |
| ListsPage.Remaining | app/page.js:71 | exactly the lists not matching either id form |
| ListsPage.Deleted | app/page.js:70 | none iff nothing matches; otherwise a matching list |
| ListsPage.AfterDelete | app/page.js:69-90 | the remaining lists, with the deleted one appended iff signed in and the cloud delete failed |
| ListsPage.CloudDeleteId | app/page.js:79 | a "list-" id loses that prefix |
| ListsPage.Undo | app/page.js:95-97 | the remaining lists plus the deleted one at the end |
| ListsPage.DeleteThenUndo | app/page.js:69-97 | with one match, delete removes only it, and undo is a permutation moving it to the end |
| ListsPage.FirstMatch | app/page.js:70 | the first matching list is the one found |
| ListsPage.DeleteTakesBothForms | app/page.js:70-71 | "list-x" removes both "x" and "list-x" |
| EquipmentOptionsEditor.ParseReplaces | app/admin/components/EquipmentOptionsModal.js:216 | every entry is non-blank, trimmed and free of commas |
| EquipmentOptionsEditor.ReplacesRoundTrip | app/admin/components/EquipmentOptionsModal.js:214-216 | such entries survive display and re-parse |
| EquipmentOptionsEditor.EmptyInputNoReplaces | app/admin/components/EquipmentOptionsModal.js:216 | empty input gives no entries |
| EquipmentOptionsEditor.NewOption | app/admin/components/EquipmentOptionsModal.js:87-96 | a fresh option of the kind: empty name, cost 0, no replaces, a null `weaponListId` only for "weaponList" |
| EquipmentOptionsEditor.EditorOptionsNotExpanded | app/admin/components/EquipmentOptionsModal.js:88 | options the editor writes pass through the resolver unchanged |
| EquipmentOptionsEditor.EditGroup | app/admin/components/EquipmentOptionsModal.js:72 | one setting changes, the options are kept |
| EquipmentOptionsEditor.EditOption | app/admin/components/EquipmentOptionsModal.js:203-243 | one field changes: the name, the cost `parseInt || 0`, the parsed replaces, or the list id (empty becomes null) |
| EquipmentOptionsEditor.RetypedReplacesUnchanged | app/admin/components/EquipmentOptionsModal.js:214-217 | retyping the shown replaces changes nothing |
| EquipmentOptionsEditor.OptionAdded | app/admin/components/EquipmentOptionsModal.js:85-100 | only that group grows, by the new option |
| EquipmentOptionsEditor.OptionDeleted | app/admin/components/EquipmentOptionsModal.js:108-112 | only that group loses the option at the index |
| EquipmentOptionsEditor.AddThenDeleteOption | app/admin/components/EquipmentOptionsModal.js:85-112 | adding then deleting an option gives back the groups |
| EquipmentOptionsEditor.AddThenDeleteGroup | app/admin/components/EquipmentOptionsModal.js:59-83 | adding then deleting a group gives back the groups |
| EquipmentOptionsEditor.Editor.constructor | app/admin/components/EquipmentOptionsModal.js:12-17 | the saved groups or none, nothing edited, no weapon lists |
| EquipmentOptionsEditor.Editor.LoadWeaponLists | app/admin/components/EquipmentOptionsModal.js:19-53 | the weapon lists are the join, kept on a list-read error |
| EquipmentOptionsEditor.Editor.AddNewGroup | app/admin/components/EquipmentOptionsModal.js:59-68 | the default group appended and marked as edited |
| EquipmentOptionsEditor.Editor.UpdateGroup | app/admin/components/EquipmentOptionsModal.js:70-74 | only that group is edited |
| EquipmentOptionsEditor.Editor.DeleteGroup | app/admin/components/EquipmentOptionsModal.js:76-83 | when confirmed, the group goes, and the edited index is cleared only if it was that group |
| EquipmentOptionsEditor.Editor.AddOption | app/admin/components/EquipmentOptionsModal.js:85-100 | the groups become `OptionAdded` |
| EquipmentOptionsEditor.Editor.UpdateOption | app/admin/components/EquipmentOptionsModal.js:102-106 | only that option of that group is edited |
| EquipmentOptionsEditor.Editor.DeleteOption | app/admin/components/EquipmentOptionsModal.js:108-112 | the groups become `OptionDeleted` |
| WeaponListForm.InitForm | app/admin/components/WeaponListFormModal.js:17-24 | the list's name and weapons, or an empty form |
| WeaponListForm.AddWeapon | app/admin/components/WeaponListFormModal.js:26-44 | blank names are refused and nothing changes; otherwise a trimmed weapon with cost `parseInt || 0` is appended and the inputs reset |
| WeaponListForm.DeleteWeapon | app/admin/components/WeaponListFormModal.js:46-51 | the weapon at the index goes, the others keep their order |
| WeaponListForm.AddThenDelete | app/admin/components/WeaponListFormModal.js:26-51 | adding then deleting a weapon gives back the form |
| WeaponListForm.UpdateWeapon | app/admin/components/WeaponListFormModal.js:53-60 | only the field of that weapon changes; a cost is `parseInt || 0` |
| WeaponListForm.CostTextRoundTrip | app/admin/components/WeaponListFormModal.js:57 | typing an integer's text sets that cost |
| WeaponListForm.Save | app/admin/components/WeaponListFormModal.js:62-74 | refused iff the name is blank or there are no weapons; otherwise the form as is |
| WeaponListForm.SaveAfterAdd | app/admin/components/WeaponListFormModal.js:26-74 | a named form with a weapon added can be saved |
| UnitForm.SetList | app/admin/components/UnitFormModal.js:59-61 | one list field replaced, every other field kept |
| UnitForm.ArrayAdd | app/admin/components/UnitFormModal.js:63-71 | blank input changes nothing; otherwise the trimmed entry is appended and the input cleared |
| UnitForm.ArrayRemove | app/admin/components/UnitFormModal.js:73-78 | the entry at the index goes, the others keep their order |
| UnitForm.AddThenRemove | app/admin/components/UnitFormModal.js:63-78 | add then remove gives back the form |
| UnitForm.Toggle | app/admin/components/UnitFormModal.js:80-89 | a present value loses every copy and nothing else; an absent one is appended |
| UnitForm.ToggleTwice | app/admin/components/UnitFormModal.js:80-89 | toggling an absent value twice gives back the list |
| UnitForm.ToggleTwicePresent | app/admin/components/UnitFormModal.js:80-89 | toggling a present value twice leaves one copy at the end |
| UnitForm.ToggleItem | app/admin/components/UnitFormModal.js:80-89 | only that list field changes |
| UnitForm.ChangeArmy | app/admin/components/UnitFormModal.js:169-173 | sets the army, empties the factions, keeps the rest |
| UnitForm.InitCost | app/admin/components/UnitFormModal.js:47 | the loaded cost field is empty iff the cost is 0 |
| UnitForm.Save | app/admin/components/UnitFormModal.js:91-119 | refused iff a check fails (name, role, army; cost present and numeric; a faction; an allegiance); otherwise the form with `parseInt` of the cost |
| UnitForm.LoadedCostSaved | app/admin/components/UnitFormModal.js:47-116 | an unedited non-zero cost saves as itself; a 0 cost blocks the save |
| WeaponListsPage.WeaponsOf | app/admin/weapon-lists/page.js:51-57 | a list's weapons are exactly its items' `{id, name, cost}` |
| WeaponListsPage.WithWeapons | app/admin/weapon-lists/page.js:49-58 | every list, in order, with id and name kept and its items attached |
| WeaponListsPage.OrphanItemsDropped | app/admin/weapon-lists/page.js:49-58 | an item naming no list appears nowhere |
| WeaponListsPage.Fetch | app/admin/weapon-lists/page.js:24-62 | a list error keeps the page; with both reads the lists are the join of lists and items; an item error leaves every list empty |
| WeaponListsPage.Search | app/admin/weapon-lists/page.js:64-67 | kept iff the name contains the term, ignoring case; order preserved |
| WeaponListsPage.EmptySearchShowsAll | app/admin/weapon-lists/page.js:64-67 | an empty search shows every list |
| WeaponListsPage.AfterDelete | app/admin/weapon-lists/page.js:295-321 | on success, exactly the lists with another id, in order; otherwise unchanged |
| UnitsPage.Shown | app/admin/units/page.js:43-47 | kept iff the name matches the search and the role filter passes; order preserved |
| UnitsPage.NoFilterShowsAll | app/admin/units/page.js:43-47 | no search and "All" show every unit |
| UnitsPage.FiltersCommute | app/admin/units/page.js:43-47 | search then role equals both at once |
| UnitsPage.Fetch | app/admin/units/page.js:27-40 | an error keeps the units; otherwise the rows or none |
| UnitsPage.AfterCreate | app/admin/units/page.js:217-230 | the inserted row appended; unchanged on error |
| UnitsPage.AfterUpdate | app/admin/units/page.js:232-253 | units with the id become the returned row; unchanged on error or no row |
| UnitsPage.UpdateUnknownId | app/admin/units/page.js:251 | an unknown id changes nothing |
| UnitsPage.UpdateIdempotent | app/admin/units/page.js:270-291 | saving the same row twice equals once |
| UnitsPage.AfterDelete | app/admin/units/page.js:255-268 | on success, exactly the units with another id, in order; otherwise unchanged |
| UnitsPage.CreateThenDelete | app/admin/units/page.js:217-268 | creating then deleting a new id gives back the units |
| Text.RemoveFirst | lib/listSyncUtils.js:12 | only the first occurrence of the pattern is removed; unchanged when it does not occur |
| Text.SplitJoin | app/admin/components/EquipmentOptionsModal.js:214-216 | splitting joined entries on commas gives each entry back, the later ones with one leading blank |
| Text.IntToStringRoundTrip | app/create-list/page.js:67 | `parseInt` of an integer's decimal text is that integer |
| UnitForm.StrictNumberOfInt | app/admin/components/UnitFormModal.js:98 | an integer's decimal text passes the `isNaN` check with its value |

## Left out

- The database, `localStorage` and authentication are parameters: the outcome of each read or write, and whether a user is signed in. `Promise.all` is modelled as uploads in list order.
- Rendering, styling, modal open/close state, loading flags, alerts and console output are left out. So is jsPDF drawing beyond the `yPos` cursor.
- Date parsing is abstracted. A date is given as `Option<int>` milliseconds, with `None` for a missing or invalid date, and the current time is a parameter. `toISOString` times are opaque strings.
- `Text.ToLower` and `Text.Trim` cover ASCII only. Unicode case mapping and Unicode white space are not modelled.
- `Text.ParseInt` reads base 10 only. `Text.StrictNumber` accepts optionally signed integer text only. The source's `isNaN` also accepts decimals and exponents such as "1.5" and "1e3", which the model rejects.
- `UnitForm.Save`: the saved cost is `parseInt` of the text. A decimal cost such as "1.5" is therefore refused by the model, where the source accepts it and saves 1.
- `NaN` points limits and costs are `None`. The source's `0` versus `null` distinctions are written out where they matter, in `ToRow`, `InitForm` and `InitCost`.
- Equipment options edited in place: `addOption` and `updateOption` mutate the option arrays shared with the unit passed in. The model gives the editor its own copy, so aliasing between the editor and the unit record is not captured.
- The editor's `handleSave` passes `groups` on unchanged. It is the `Editor.groups` field and has no member of its own.
- `ListsPage.AfterDelete` and `ListsPage.Undo` require a matching list. With none, the source would append `undefined` to the lists on a failed cloud delete or on undo.
- `EquipmentOptionsEditor.Editor.DeleteGroup` keeps the edited index as it is when an earlier group is deleted, as the source does. That index is only read for display.
- Calls made with an index outside the array are excluded by `requires` in `UpdateOption`, `AddOption`, `UpdateGroup` and `UpdateWeapon`. In the source these would throw a `TypeError` or create holes.
- React's asynchronous state batching is not modelled. Each handler acts on the state it is given. The stale undo closure is modelled explicitly; see Findings.
- `Object.entries` is modelled as insertion order. JavaScript lists keys that look like array indices first, in numeric order, so a role literally named "1" would be placed differently by the source.

## Findings

| source | as written | input that shows it | evidently intended | confidence | as-written member | corrected member |
|---|---|---|---|---|---|---|
| components/RoleSlotCard.js:70-79 | undo appends the removed unit to the units captured before the removal | remove a unit, then press undo | undo restores the list as it was before the removal | not executed | RoleSlotCard.StaleUndoDuplicates | RoleSlotCard.RemoveThenUndoRestoresTotals |
| components/EquipmentOptions.js:107-116 | a radio group's weapon-list items are handled by `handleSelectRadio`, which only knows the marker's name, so earlier items of the same list stay selected | a radio group with one marker for a list of two pistols; click one pistol, then the other | at most one selection per radio group | not executed | EquipmentOptions.RadioWeaponListKeepsBoth | EquipmentOptions.ResolvedRadioKeepsOne |
| components/ArmySummary.js:80 | `list.pointsLimit && …` renders the number 0 when the limit is 0 | total 100, limit 0: "1000pts" | "100pts", as the PDF route prints | not executed | ArmySummary.ZeroLimitShowsTenfold | ArmySummary.PointsLine |
| components/ListSettingsModal.js:46-53 | the required-field check runs before the name is trimmed | name " " with every other field filled | a blank name is refused | not executed | ListSettings.BlankNameSavedEmpty | ListSettings.Save |
