/** Mapping between an army list and its `army_lists` database row, the
    mapping back on load, and the one-off upload of a guest's local lists.
    The database, the clock and the uploads are parameters. */
module ListSync {
  import opened Wrappers
  import opened Seqs
  import opened Records
  import Text
  import ArmySummary

  /** The prefix guest list ids carry. */
  const LocalPrefix: string := "list-"

  /** A row of the `army_lists` table. */
  datatype ListRow = ListRow(
    id: string,
    userId: string,
    name: string,
    army: string,
    faction: string,
    allegiance: string,
    pointsLimit: Option<int>,
    totalPoints: int,
    isValid: bool,
    detachments: seq<Detachment>,
    updatedAt: string)

  /** The cloud id of a list: its id with the first "list-" removed. */
  function CloudId(id: string): (r: string)
    ensures Text.StartsWith(id, LocalPrefix) ==> r == id[|LocalPrefix|..]
    ensures r == id <==> !Text.Contains(id, LocalPrefix)
  {
    RemovePrefixFacts(id);
    Text.RemoveFirst(id, LocalPrefix)
  }

  lemma RemovePrefixFacts(id: string)
    ensures Text.StartsWith(id, LocalPrefix) ==> Text.RemoveFirst(id, LocalPrefix) == id[|LocalPrefix|..]
    ensures Text.RemoveFirst(id, LocalPrefix) == id <==> !Text.Contains(id, LocalPrefix)
  {
    if Text.StartsWith(id, LocalPrefix) {
      assert id == LocalPrefix + id[|LocalPrefix|..];
      Text.RemoveFirstOfPrefixed(LocalPrefix, id[|LocalPrefix|..]);
    }
    Text.RemoveFirstUnchangedIff(id, LocalPrefix);
  }

  /** The row `saveListToCloud` upserts, at time `now`. A points limit of 0
      is falsy and is stored as null; `isValid || true` is always true. */
  function ToRow(list: ArmyList, userId: string, now: string): (row: ListRow)
    ensures row.isValid
    ensures row.pointsLimit.Some? <==> ArmySummary.LimitIsSet(list.pointsLimit)
    ensures row.pointsLimit.Some? ==> row.pointsLimit == list.pointsLimit
  {
    ListRow(
      CloudId(list.id), userId, list.name, list.army, list.faction, list.allegiance,
      if ArmySummary.LimitIsSet(list.pointsLimit) then list.pointsLimit else None,
      list.totalPoints, true, list.detachments, now)
  }

  /** The list `loadListsFromCloud` builds from a row. */
  function FromRow(row: ListRow): ArmyList
  {
    ArmyList(
      row.id, row.name, row.army, row.faction, row.allegiance, row.pointsLimit,
      row.totalPoints, row.isValid, row.detachments, None, None, Some(row.updatedAt))
  }

  function FromRowFn(): ListRow -> ArmyList
  {
    (row: ListRow) => FromRow(row)
  }

  /** `loadListsFromCloud`: the rows mapped in order, or no lists when the query fails. */
  function LoadLists(query: Result<seq<ListRow>, string>): (r: (bool, seq<ArmyList>))
    ensures r.0 <==> query.Ok?
    ensures query.Ok? ==> |r.1| == |query.value|
    ensures query.Ok? ==> forall i :: 0 <= i < |r.1| ==> r.1[i] == FromRow(query.value[i])
    ensures query.Err? ==> r.1 == []
  {
    match query
    case Ok(rows) => (true, Map(rows, FromRowFn()))
    case Err(_) => (false, [])
  }

  /** Saving a list and loading it back keeps its name, army, faction,
      allegiance, detachments and total; it keeps its id exactly when the id
      has no "list-" in it; it always comes back valid; a zero limit comes
      back as none; and the save time becomes `lastModified`. */
  lemma RowRoundTrip(list: ArmyList, userId: string, now: string)
    ensures var back := FromRow(ToRow(list, userId, now));
      && back.name == list.name && back.army == list.army
      && back.faction == list.faction && back.allegiance == list.allegiance
      && back.detachments == list.detachments && back.totalPoints == list.totalPoints
      && (back.id == list.id <==> !Text.Contains(list.id, LocalPrefix))
      && back.isValid
      && (back.pointsLimit == list.pointsLimit <==> list.pointsLimit != Some(0))
      && back.lastModified == Some(now)
  {
  }

  /** A guest list, saved once, comes back under a different id. */
  lemma GuestIdChanges(list: ArmyList, userId: string, now: string)
    requires Text.StartsWith(list.id, LocalPrefix)
    ensures FromRow(ToRow(list, userId, now)).id != list.id
    ensures LocalPrefix + FromRow(ToRow(list, userId, now)).id == list.id
  {
    assert list.id == LocalPrefix + list.id[|LocalPrefix|..];
  }

  // ---------------------------------------------------------------------
  // Uploading local lists

  /** What `syncLocalToCloud` reports; `failedCount` is absent on the early returns. */
  datatype SyncReport = SyncReport(success: bool, syncedCount: int, failedCount: Option<int>)

  function ListId(): ArmyList -> string
  {
    (l: ArmyList) => l.id
  }

  function IdNotIn(ids: seq<string>): ArmyList -> bool
  {
    (l: ArmyList) => l.id !in ids
  }

  /** The local lists whose id is not the id of a cloud list, in local order. */
  function ToUpload(local: seq<ArmyList>, cloud: seq<ArmyList>): (r: seq<ArmyList>)
    ensures IsSubseq(r, local)
    ensures forall l :: l in r <==> l in local && forall c :: c in cloud ==> c.id != l.id
  {
    var ids := Map(cloud, ListId());
    assert forall l: ArmyList :: l.id in ids <==> exists c: ArmyList :: c in cloud && c.id == l.id by {
      forall l: ArmyList ensures l.id in ids <==> exists c: ArmyList :: c in cloud && c.id == l.id {
        if l.id in ids {
          var i :| 0 <= i < |ids| && ids[i] == l.id;
          assert cloud[i] in cloud;
        }
        if exists c: ArmyList :: c in cloud && c.id == l.id {
          var c :| c in cloud && c.id == l.id;
          var i :| 0 <= i < |cloud| && cloud[i] == c;
          assert ids[i] == l.id;
        }
      }
    }
    FilterIsSubseq(local, IdNotIn(ids));
    Filter(local, IdNotIn(ids))
  }

  function Succeeded(): bool -> bool
  {
    (ok: bool) => ok
  }

  /** `syncLocalToCloud` with the stored local lists, the cloud lists as
      `loadListsFromCloud` returned them (none when it failed), and the
      outcome `save` of uploading each list. */
  function Sync(local: seq<ArmyList>, cloud: seq<ArmyList>, save: ArmyList -> bool): (r: SyncReport)
    ensures r.success
    ensures local == [] ==> r.syncedCount == 0 && r.failedCount == None
    ensures 0 <= r.syncedCount <= |ToUpload(local, cloud)|
    ensures r.failedCount.Some? ==> r.syncedCount + r.failedCount.value == |ToUpload(local, cloud)|
    ensures r.failedCount == Some(0) <==> ToUpload(local, cloud) != [] && forall l :: l in ToUpload(local, cloud) ==> save(l)
    ensures r.syncedCount == |Filter(ToUpload(local, cloud), save)|
    ensures r.failedCount.Some? <==> ToUpload(local, cloud) != []
  {
    if local == [] then SyncReport(true, 0, None)
    else
      var toSync := ToUpload(local, cloud);
      if toSync == [] then SyncReport(true, 0, None)
      else
        var results := Map(toSync, save);
        var ok := Filter(results, Succeeded());
        AllSucceededIff(toSync, save);
        CountSuccesses(toSync, save);
        SyncReport(true, |ok|, Some(|results| - |ok|))
  }

  /** Counting the successful results is counting the lists whose upload succeeds. */
  lemma {:induction false} CountSuccesses(lists: seq<ArmyList>, save: ArmyList -> bool)
    ensures |Filter(Map(lists, save), Succeeded())| == |Filter(lists, save)|
    decreases |lists|
  {
    if lists != [] {
      var pre, x := lists[..|lists| - 1], lists[|lists| - 1];
      CountSuccesses(pre, save);
      FilterSnoc(lists, save);
      var m := Map(lists, save);
      assert m[..|m| - 1] == Map(pre, save);
      FilterSnoc(m, Succeeded());
    }
  }

  /** Every upload succeeds exactly when the successes are as many as the uploads. */
  lemma AllSucceededIff(lists: seq<ArmyList>, save: ArmyList -> bool)
    ensures |Filter(Map(lists, save), Succeeded())| == |lists| <==> forall l :: l in lists ==> save(l)
  {
    var results := Map(lists, save);
    if forall l :: l in lists ==> save(l) {
      assert forall x :: x in results ==> Succeeded()(x) by {
        forall x | x in results ensures Succeeded()(x) {
          var i :| 0 <= i < |results| && results[i] == x;
          assert lists[i] in lists;
        }
      }
      FilterAll(results, Succeeded());
    } else {
      var l :| l in lists && !save(l);
      var i :| 0 <= i < |lists| && lists[i] == l;
      assert results[i] == false;
      FilterShorter(results, Succeeded(), i);
    }
  }

  /** Dropping an element the predicate rejects shortens the filter result. */
  lemma {:induction false} FilterShorter<T(!new)>(s: seq<T>, p: T -> bool, i: nat)
    requires i < |s| && !p(s[i])
    ensures |Filter(s, p)| < |s|
  {
    if i == 0 {
      assert Filter(s, p) == Filter(s[1..], p);
    } else {
      FilterShorter(s[1..], p, i - 1);
    }
  }

  /** A guest list already uploaded is not recognised: its cloud copy has
      the id without "list-", so the next sync uploads it again. */
  lemma UploadedGuestListUploadedAgain(list: ArmyList, userId: string, now: string)
    requires Text.StartsWith(list.id, LocalPrefix)
    ensures list in ToUpload([list], [FromRow(ToRow(list, userId, now))])
  {
    GuestIdChanges(list, userId, now);
  }
}
