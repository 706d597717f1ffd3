/** The units admin page: the search and role filter over the unit
    templates, and the page state after a fetch, a create, an edit, an
    equipment save or a delete. The table calls are parameters. */
module UnitsPage {
  import opened Wrappers
  import opened Seqs
  import opened Records
  import Text

  /** The role filter value that shows every role. */
  const AllRoles: string := "All"

  /** The name matches the search and the role matches the role filter. */
  predicate Visible(u: UnitTemplate, term: string, role: string)
  {
    Text.MatchesSearch(u.name, term) && (role == AllRoles || u.role == role)
  }

  function VisibleIn(term: string, role: string): UnitTemplate -> bool
  {
    (u: UnitTemplate) => Visible(u, term, role)
  }

  /** `filteredUnits`: the units shown, in order. */
  function Shown(units: seq<UnitTemplate>, term: string, role: string): (r: seq<UnitTemplate>)
    ensures IsSubseq(r, units)
    ensures forall u :: u in r <==> u in units && Visible(u, term, role)
  {
    FilterIsSubseq(units, VisibleIn(term, role));
    Filter(units, VisibleIn(term, role))
  }

  /** With no search and the "All" filter every unit is shown. */
  lemma NoFilterShowsAll(units: seq<UnitTemplate>)
    ensures Shown(units, "", AllRoles) == units
  {
    forall u | u in units ensures VisibleIn("", AllRoles)(u) {
      Text.EmptySearchMatches(u.name);
    }
    FilterAll(units, VisibleIn("", AllRoles));
  }

  /** The search and the role filter can be applied in either order. */
  lemma FiltersCommute(units: seq<UnitTemplate>, term: string, role: string)
    ensures Shown(units, term, role) == Shown(Shown(units, term, AllRoles), "", role)
  {
    var bySearch := VisibleIn(term, AllRoles);
    var byRole := VisibleIn("", role);
    forall u ensures VisibleIn(term, role)(u) == (bySearch(u) && byRole(u)) {
      Text.EmptySearchMatches(u.name);
    }
    FilterBoth(units, VisibleIn(term, role), bySearch, byRole);
  }

  /** Filtering by a conjunction is filtering by each part in turn. */
  lemma {:induction false} FilterBoth(s: seq<UnitTemplate>, p: UnitTemplate -> bool, q1: UnitTemplate -> bool, q2: UnitTemplate -> bool)
    requires forall u :: p(u) == (q1(u) && q2(u))
    ensures Filter(s, p) == Filter(Filter(s, q1), q2)
  {
    if s != [] {
      FilterBoth(s[1..], p, q1, q2);
      if q1(s[0]) {
        var x := Filter(s, q1);
        assert x == [s[0]] + Filter(s[1..], q1);
        assert x[0] == s[0] && x[1..] == Filter(s[1..], q1);
        assert Filter(x, q2) == (if q2(s[0]) then [s[0]] else []) + Filter(x[1..], q2);
        assert p(s[0]) == q2(s[0]);
        assert Filter(s, p) == (if p(s[0]) then [s[0]] else []) + Filter(s[1..], p);
      } else {
        assert Filter(s, q1) == Filter(s[1..], q1);
        assert !p(s[0]);
        assert Filter(s, p) == Filter(s[1..], p);
      }
    }
  }

  /** `fetchUnits`: an error leaves the units as they were; otherwise the
      rows (`data || []`). */
  function Fetch(current: seq<UnitTemplate>, rows: Result<Option<seq<UnitTemplate>>, string>): (r: seq<UnitTemplate>)
    ensures rows.Err? ==> r == current
    ensures rows.Ok? ==> r == rows.value.GetOr([])
  {
    match rows
    case Err(_) => current
    case Ok(data) => data.GetOr([])
  }

  /** `handleCreateUnit`: the inserted row goes at the end; on error nothing changes. */
  function AfterCreate(units: seq<UnitTemplate>, inserted: Result<UnitTemplate, string>): (r: seq<UnitTemplate>)
    ensures inserted.Err? ==> r == units
    ensures inserted.Ok? ==> |r| == |units| + 1 && r[..|units|] == units && r[|units|] == inserted.value
  {
    match inserted
    case Err(_) => units
    case Ok(row) => units + [row]
  }

  function ReplaceIfId(id: string, row: UnitTemplate): UnitTemplate -> UnitTemplate
  {
    (u: UnitTemplate) => if u.id == id then row else u
  }

  /** `handleEditUnit` and `handleSaveEquipment`: every unit with the edited
      id becomes the first returned row; an error or no returned row changes
      nothing. */
  function AfterUpdate(units: seq<UnitTemplate>, id: string, updated: Result<Option<seq<UnitTemplate>>, string>): (r: seq<UnitTemplate>)
    ensures |r| == |units|
    ensures updated.Err? || updated.value.GetOr([]) == [] ==> r == units
    ensures updated.Ok? && updated.value.GetOr([]) != [] ==>
      forall i :: 0 <= i < |units| ==> r[i] == (if units[i].id == id then updated.value.value[0] else units[i])
  {
    match updated
    case Err(_) => units
    case Ok(data) =>
      var rows := data.GetOr([]);
      if rows == [] then units else Map(units, ReplaceIfId(id, rows[0]))
  }

  /** An update for an id no unit has changes nothing. */
  lemma UpdateUnknownId(units: seq<UnitTemplate>, id: string, updated: Result<Option<seq<UnitTemplate>>, string>)
    requires forall u :: u in units ==> u.id != id
    ensures AfterUpdate(units, id, updated) == units
  {
    var r := AfterUpdate(units, id, updated);
    forall i | 0 <= i < |units| ensures r[i] == units[i] {
      assert units[i] in units;
    }
  }

  /** Saving the same row twice is the same as saving it once. */
  lemma UpdateIdempotent(units: seq<UnitTemplate>, id: string, row: UnitTemplate)
    requires row.id == id
    ensures var once := AfterUpdate(units, id, Ok(Some([row])));
      AfterUpdate(once, id, Ok(Some([row]))) == once
  {
  }

  function IdIsNot(id: string): UnitTemplate -> bool
  {
    (u: UnitTemplate) => u.id != id
  }

  /** `handleDeleteUnit`: on success the units with that id are gone and the
      others keep their order; on error nothing changes. */
  function AfterDelete(units: seq<UnitTemplate>, id: string, deleted: bool): (r: seq<UnitTemplate>)
    ensures !deleted ==> r == units
    ensures IsSubseq(r, units)
    ensures deleted ==> forall u :: u in r <==> u in units && u.id != id
  {
    FilterIsSubseq(units, IdIsNot(id));
    SubseqRefl(units);
    if deleted then Filter(units, IdIsNot(id)) else units
  }

  /** Creating a unit and deleting it again, when its id is new, gives back the units. */
  lemma CreateThenDelete(units: seq<UnitTemplate>, row: UnitTemplate)
    requires forall u :: u in units ==> u.id != row.id
    ensures AfterDelete(AfterCreate(units, Ok(row)), row.id, true) == units
  {
    FilterAppend(units, [row], IdIsNot(row.id));
    FilterAll(units, IdIsNot(row.id));
    assert Filter([row], IdIsNot(row.id)) == [];
  }
}
