/** The weapon-lists admin page: joining the `weapon_lists` rows with their
    `weapon_list_items`, the search box, and the page state after a fetch or
    a delete. The table reads and the deletes are parameters. */
module WeaponListsPage {
  import opened Wrappers
  import opened Seqs
  import opened Records
  import Text

  function InList(listId: string): WeaponItemRow -> bool
  {
    (item: WeaponItemRow) => item.listId == listId
  }

  /** `{id, name, cost}` of an item row. */
  function ItemWeapon(): WeaponItemRow -> Weapon
  {
    (item: WeaponItemRow) => Weapon(Some(item.id), item.name, item.cost)
  }

  /** The weapons of the list `listId`: its items, in item order. */
  function WeaponsOf(items: seq<WeaponItemRow>, listId: string): (r: seq<Weapon>)
    ensures forall w :: w in r <==> exists item :: item in items && item.listId == listId && w == ItemWeapon()(item)
  {
    var mine := Filter(items, InList(listId));
    assert forall w :: w in Map(mine, ItemWeapon()) <==> exists item :: item in mine && w == ItemWeapon()(item) by {
      MapMembers(mine, ItemWeapon());
    }
    Map(mine, ItemWeapon())
  }

  function Attach(items: seq<WeaponItemRow>): WeaponListRow -> WeaponList
  {
    (list: WeaponListRow) => WeaponList(list.id, list.name, WeaponsOf(items, list.id))
  }

  /** The join: every list, in order, with the weapons whose `list_id` is its id. */
  function WithWeapons(lists: seq<WeaponListRow>, items: seq<WeaponItemRow>): (r: seq<WeaponList>)
    ensures |r| == |lists|
    ensures forall i :: 0 <= i < |r| ==> r[i].id == lists[i].id && r[i].name == lists[i].name
    ensures forall i :: 0 <= i < |r| ==> r[i].weapons == WeaponsOf(items, lists[i].id)
  {
    Map(lists, Attach(items))
  }

  /** An item whose `list_id` names no list shows up in no list. */
  lemma OrphanItemsDropped(lists: seq<WeaponListRow>, items: seq<WeaponItemRow>, item: WeaponItemRow)
    requires item in items
    requires forall l :: l in lists ==> l.id != item.listId
    requires forall other :: other in items && other != item ==> other.id != item.id
    ensures forall l :: l in WithWeapons(lists, items) ==> ItemWeapon()(item) !in l.weapons
  {
    var r := WithWeapons(lists, items);
    forall l | l in r ensures ItemWeapon()(item) !in l.weapons {
      var i :| 0 <= i < |r| && r[i] == l;
      assert lists[i] in lists;
    }
  }

  /** `fetchWeaponLists`: a failed list read leaves the page as it was;
      otherwise every list comes with the items that name it, and a failed
      item read leaves every list without weapons. */
  function Fetch(current: seq<WeaponList>, lists: Result<seq<WeaponListRow>, string>, items: Result<seq<WeaponItemRow>, string>): (r: seq<WeaponList>)
    ensures lists.Err? ==> r == current
    ensures lists.Ok? ==> |r| == |lists.value|
    ensures lists.Ok? && items.Ok? ==> r == WithWeapons(lists.value, items.value)
    ensures lists.Ok? && items.Err? ==> forall i :: 0 <= i < |r| ==> r[i].weapons == []
  {
    match lists
    case Err(_) => current
    case Ok(rows) =>
      var found := if items.Ok? then items.value else [];
      assert forall id :: WeaponsOf([], id) == [];
      WithWeapons(rows, found)
  }

  function NameMatches(term: string): WeaponList -> bool
  {
    (list: WeaponList) => Text.MatchesSearch(list.name, term)
  }

  /** The lists shown for the search term, in order. */
  function Search(lists: seq<WeaponList>, term: string): (r: seq<WeaponList>)
    ensures IsSubseq(r, lists)
    ensures forall l :: l in r <==> l in lists && Text.MatchesSearch(l.name, term)
  {
    FilterIsSubseq(lists, NameMatches(term));
    Filter(lists, NameMatches(term))
  }

  /** An empty search shows every list. */
  lemma EmptySearchShowsAll(lists: seq<WeaponList>)
    ensures Search(lists, "") == lists
  {
    forall l | l in lists ensures NameMatches("")(l) {
      Text.EmptySearchMatches(l.name);
    }
    FilterAll(lists, NameMatches(""));
  }

  function IdIsNot(id: string): WeaponList -> bool
  {
    (list: WeaponList) => list.id != id
  }

  /** The page after a delete of the list `id`: when both deletes succeed,
      the lists with that id are gone and the rest keep their order. */
  function AfterDelete(lists: seq<WeaponList>, id: string, deleted: bool): (r: seq<WeaponList>)
    ensures !deleted ==> r == lists
    ensures IsSubseq(r, lists)
    ensures deleted ==> forall l :: l in r <==> l in lists && l.id != id
  {
    FilterIsSubseq(lists, IdIsNot(id));
    SubseqRefl(lists);
    if deleted then Filter(lists, IdIsNot(id)) else lists
  }
}
