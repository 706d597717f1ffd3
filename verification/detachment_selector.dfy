/** The detachment picker (components/DetachmentSelector.js): the catalog rows
    of the requested type (the query's result, a parameter here) narrowed to
    the list's army and faction. */
module DetachmentSelector {
  import opened Wrappers
  import opened Seqs
  import opened Records

  predicate KeepDetachment(list: ArmyList, d: DetachmentTemplate)
  {
    ("All" in d.armies || list.army in d.armies) && ("All" in d.factions || list.faction in d.factions)
  }

  /** `loadDetachments`: no rows leaves the offered detachments empty. */
  function LoadDetachments(data: Option<seq<DetachmentTemplate>>, list: ArmyList): (r: seq<DetachmentTemplate>)
    ensures data.None? ==> r == []
    ensures data.Some? ==> IsSubseq(r, data.value)
    ensures forall d :: d in r <==> data.Some? && d in data.value && KeepDetachment(list, d)
  {
    match data
    case None => []
    case Some(rows) =>
      FilterIsSubseq(rows, d => KeepDetachment(list, d));
      Filter(rows, d => KeepDetachment(list, d))
  }

  /** `'All'` among the armies and the factions makes a row pass for every list. */
  lemma WildcardKeepsRow(rows: seq<DetachmentTemplate>, k: nat, list: ArmyList)
    requires k < |rows| && "All" in rows[k].armies && "All" in rows[k].factions
    ensures rows[k] in LoadDetachments(Some(rows), list)
  {
    assert rows[k] in rows;
  }

  /** The filter keeps a row iff its army and faction tests pass, and
      filtering again changes nothing. */
  lemma LoadIdempotent(rows: seq<DetachmentTemplate>, list: ArmyList)
    ensures LoadDetachments(Some(LoadDetachments(Some(rows), list)), list) == LoadDetachments(Some(rows), list)
  {
    FilterIdempotent(rows, d => KeepDetachment(list, d));
  }
}
