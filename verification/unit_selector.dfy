/** The catalog picker for one slot (components/UnitSelector.js): the rows of
    the slot's role and the list's army (the query's result, a parameter here)
    are narrowed to the list's allegiance and faction, then by a name prefix. */
module UnitSelector {
  import opened Wrappers
  import opened Seqs
  import opened Records
  import Text

  /** `tags.includes('All') || tags.includes(value)`. */
  predicate Matches(tags: seq<string>, value: string)
  {
    "All" in tags || value in tags
  }

  predicate KeepUnit(list: ArmyList, u: UnitTemplate)
  {
    Matches(u.allegiances, list.allegiance) && Matches(u.factions, list.faction)
  }

  /** `loadUnits`: no rows (a failed query) leaves the offered units empty. */
  function LoadUnits(data: Option<seq<UnitTemplate>>, list: ArmyList): (r: seq<UnitTemplate>)
    ensures data.None? ==> r == []
    ensures data.Some? ==> IsSubseq(r, data.value)
    ensures forall u :: u in r <==> data.Some? && u in data.value && KeepUnit(list, u)
  {
    match data
    case None => []
    case Some(rows) =>
      FilterIsSubseq(rows, u => KeepUnit(list, u));
      Filter(rows, u => KeepUnit(list, u))
  }

  /** A row tagged `'All'` passes its test for every list. */
  lemma AllMatchesEveryList(u: UnitTemplate, list: ArmyList)
    requires "All" in u.allegiances && "All" in u.factions
    ensures KeepUnit(list, u)
  {
  }

  predicate NameHasPrefix(term: string, u: UnitTemplate)
  {
    Text.StartsWith(Text.ToLower(u.name), Text.ToLower(term))
  }

  /** `filteredUnits`: the units whose lower-cased name starts with the
      lower-cased search term. */
  function Search(units: seq<UnitTemplate>, term: string): (r: seq<UnitTemplate>)
    ensures IsSubseq(r, units)
    ensures forall u :: u in r <==> u in units && NameHasPrefix(term, u)
  {
    FilterIsSubseq(units, u => NameHasPrefix(term, u));
    Filter(units, u => NameHasPrefix(term, u))
  }

  /** An empty term keeps every unit, in order. */
  lemma EmptySearchKeepsAll(units: seq<UnitTemplate>)
    ensures Search(units, "") == units
  {
    FilterAll(units, u => NameHasPrefix("", u));
  }

  /** Searching twice with the same term is searching once. */
  lemma SearchIdempotent(units: seq<UnitTemplate>, term: string)
    ensures Search(Search(units, term), term) == Search(units, term)
  {
    FilterIdempotent(units, u => NameHasPrefix(term, u));
  }

  /** Loading the same rows twice over is loading them once. */
  lemma LoadIdempotent(rows: seq<UnitTemplate>, list: ArmyList)
    ensures LoadUnits(Some(LoadUnits(Some(rows), list)), list) == LoadUnits(Some(rows), list)
  {
    FilterIdempotent(rows, u => KeepUnit(list, u));
  }
}
