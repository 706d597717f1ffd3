/** The saved-lists page: the "time ago" line under each list, and deleting
    a list with its undo. The date parser and the clock are parameters: a
    date is its time in milliseconds, or none when it is missing, empty or
    not a date. */
module ListsPage {
  import opened Wrappers
  import opened Seqs
  import opened Records
  import Text
  import ListSync

  // ---------------------------------------------------------------------
  // Relative time

  datatype Interval = Interval(unit: string, size: int)

  /** The units tried, largest first, with their length in seconds. */
  const Intervals: seq<Interval> := [
    Interval("year", 31536000),
    Interval("month", 2592000),
    Interval("week", 604800),
    Interval("day", 86400),
    Interval("hour", 3600),
    Interval("minute", 60)]

  /** Every unit is a positive number of seconds, shorter than the one before
      it, and no unit name ends in "s". */
  lemma IntervalsWellFormed()
    ensures forall i :: 0 <= i < |Intervals| ==> Intervals[i].size >= 60
    ensures forall i :: 0 < i < |Intervals| ==> Intervals[i].size < Intervals[i - 1].size
    ensures forall i :: 0 <= i < |Intervals| ==> Intervals[i].unit != [] && Intervals[i].unit[|Intervals[i].unit| - 1] != 's'
  {
  }

  /** `${n} ${unit}` with an "s" when `n` is more than one. */
  function Phrase(n: int, unit: string): (r: string)
    requires unit != [] && unit[|unit| - 1] != 's'
    ensures |r| > |unit|
    ensures Text.ParseInt(r) == Some(n)
    ensures r[|r| - 1] == 's' <==> n > 1
  {
    PhraseReads(n, unit, " " + unit + (if n > 1 then "s" else ""));
    Text.IntToString(n) + (" " + unit + (if n > 1 then "s" else ""))
  }

  lemma PhraseReads(n: int, unit: string, tail: string)
    requires unit != [] && unit[|unit| - 1] != 's'
    requires tail == " " + unit + (if n > 1 then "s" else "")
    ensures Text.ParseInt(Text.IntToString(n) + tail) == Some(n)
    ensures (Text.IntToString(n) + tail)[|Text.IntToString(n) + tail| - 1] == 's' <==> n > 1
  {
    assert tail[0] == ' ';
    Text.ParseIntOfNumberThen(n, tail);
    assert tail[|tail| - 1] == if n > 1 then 's' else unit[|unit| - 1];
  }

  /** The text for `seconds` trying the units from index `k` on. */
  function Describe(seconds: int, k: nat): string
    requires k <= |Intervals|
    decreases |Intervals| - k
  {
    if k == |Intervals| then "just now"
    else if seconds / Intervals[k].size >= 1 then Phrase(seconds / Intervals[k].size, Intervals[k].unit)
    else Describe(seconds, k + 1)
  }

  /** Whole seconds between `date` and `now`, rounded down as `Math.floor` does. */
  function ElapsedSeconds(date: int, now: int): int
  {
    (now - date) / 1000
  }

  /** `getTimeAgo`, as the loop over the units computes it. */
  function TimeAgo(date: Option<int>, now: int): string
  {
    match date
    case None => "recently"
    case Some(d) => Describe(ElapsedSeconds(d, now), 0)
  }

  /** `getTimeAgo`: the first unit of which at least one has elapsed, with
      the count; "just now" when not even a minute has. */
  method GetTimeAgo(date: Option<int>, now: int) returns (text: string)
    ensures text == TimeAgo(date, now)
  {
    if date.None? {
      return "recently";
    }
    var seconds := (now - date.value) / 1000;
    var i := 0;
    while i < |Intervals|
      invariant 0 <= i <= |Intervals|
      invariant Describe(seconds, 0) == Describe(seconds, i)
    {
      var interval := seconds / Intervals[i].size;
      if interval >= 1 {
        return Phrase(interval, Intervals[i].unit);
      }
      i := i + 1;
    }
    return "just now";
  }

  /** The unit the text is given in: the first one not longer than `seconds`. */
  function UnitIndex(seconds: int, k: nat): (i: nat)
    requires k < |Intervals| && seconds >= 60
    ensures k <= i < |Intervals| && Intervals[i].size <= seconds
    ensures forall j :: k <= j < i ==> seconds < Intervals[j].size
    decreases |Intervals| - k
  {
    if Intervals[k].size <= seconds then k else UnitIndex(seconds, k + 1)
  }

  /** Less than a minute, a moment in the future included, reads "just now". */
  lemma {:induction false} JustNow(seconds: int, k: nat)
    requires k <= |Intervals| && seconds < 60
    ensures Describe(seconds, k) == "just now"
    decreases |Intervals| - k
  {
    if k < |Intervals| {
      var size := Intervals[k].size;
      assert size >= 60;
      DivBelowOne(seconds, size);
      JustNow(seconds, k + 1);
    }
  }

  lemma DivBelowOne(a: int, b: int)
    requires 0 < b && a < b
    ensures a / b < 1
  {
  }

  lemma DivAtLeastOne(a: int, b: int)
    requires 0 < b <= a
    ensures a / b >= 1
  {
  }

  /** From a minute on, the text is the count of the largest unit that fits,
      rounded down, and that count is at least one. */
  lemma {:induction false} DescribeUsesUnit(seconds: int, k: nat)
    requires k < |Intervals| && seconds >= 60
    ensures var i := UnitIndex(seconds, k);
      && seconds / Intervals[i].size >= 1
      && Describe(seconds, k) == Phrase(seconds / Intervals[i].size, Intervals[i].unit)
    decreases |Intervals| - k
  {
    var size := Intervals[k].size;
    assert size >= 60;
    if size > seconds {
      DivBelowOne(seconds, size);
      DescribeUsesUnit(seconds, k + 1);
    } else {
      DivAtLeastOne(seconds, size);
    }
  }

  /** A count never reaches the next unit up: at most 12 months, 4 weeks,
      6 days, 23 hours or 59 minutes. */
  lemma CountBelowNextUnit(seconds: int)
    requires seconds >= 60
    ensures var i := UnitIndex(seconds, 0);
      var n := seconds / Intervals[i].size;
      && (Intervals[i].unit == "month" ==> n <= 12)
      && (Intervals[i].unit == "week" ==> n <= 4)
      && (Intervals[i].unit == "day" ==> n <= 6)
      && (Intervals[i].unit == "hour" ==> n <= 23)
      && (Intervals[i].unit == "minute" ==> n <= 59)
  {
    var i := UnitIndex(seconds, 0);
    if i > 0 {
      assert seconds < Intervals[i - 1].size;
    }
  }

  // ---------------------------------------------------------------------
  // Deleting a list

  /** A list is the one deleted under `listId` when its id is `listId` or
      "list-" followed by its id is. */
  predicate Matches(list: ArmyList, listId: string)
  {
    list.id == listId || ListSync.LocalPrefix + list.id == listId
  }

  function Kept(listId: string): ArmyList -> bool
  {
    (l: ArmyList) => !Matches(l, listId)
  }

  function Dropped(listId: string): ArmyList -> bool
  {
    (l: ArmyList) => Matches(l, listId)
  }

  /** The lists left on the page: every match removed, the rest in order. */
  function Remaining(lists: seq<ArmyList>, listId: string): (r: seq<ArmyList>)
    ensures forall l :: l in r <==> l in lists && !Matches(l, listId)
  {
    Filter(lists, Kept(listId))
  }

  /** `lists.find(...)`: the first list that matches. */
  function Deleted(lists: seq<ArmyList>, listId: string): (r: Option<ArmyList>)
    ensures r.None? <==> forall l :: l in lists ==> !Matches(l, listId)
    ensures r.Some? ==> r.value in lists && Matches(r.value, listId)
  {
    if lists == [] then None
    else if Matches(lists[0], listId) then Some(lists[0])
    else Deleted(lists[1..], listId)
  }

  /** The page after the delete settles. A signed-in user's list is deleted
      in the cloud under its id without "list-" (`cloudDeleted` is whether
      that worked); when it fails the list comes back, at the end. */
  function AfterDelete(lists: seq<ArmyList>, listId: string, signedIn: bool, cloudDeleted: bool): (r: seq<ArmyList>)
    requires Deleted(lists, listId).Some?
    ensures signedIn && !cloudDeleted ==> r == Remaining(lists, listId) + [Deleted(lists, listId).value]
    ensures !(signedIn && !cloudDeleted) ==> r == Remaining(lists, listId)
  {
    if signedIn && !cloudDeleted then Remaining(lists, listId) + [Deleted(lists, listId).value]
    else Remaining(lists, listId)
  }

  /** The id the cloud delete is sent. */
  function CloudDeleteId(listId: string): (r: string)
    ensures Text.StartsWith(listId, ListSync.LocalPrefix) ==> ListSync.LocalPrefix + r == listId
  {
    ListSync.CloudId(listId)
  }

  /** Undo from the snackbar: the lists kept, then the deleted one. */
  function Undo(lists: seq<ArmyList>, listId: string): (r: seq<ArmyList>)
    requires Deleted(lists, listId).Some?
    ensures |r| == |Remaining(lists, listId)| + 1 && r[|r| - 1] == Deleted(lists, listId).value
  {
    Remaining(lists, listId) + [Deleted(lists, listId).value]
  }

  /** When exactly one list matches, the delete removes just that list, and
      undo gives back the same lists with it moved to the end. */
  lemma DeleteThenUndo(lists: seq<ArmyList>, listId: string, k: nat)
    requires k < |lists| && Matches(lists[k], listId)
    requires forall j :: 0 <= j < |lists| && j != k ==> !Matches(lists[j], listId)
    ensures Remaining(lists, listId) == lists[..k] + lists[k + 1..]
    ensures Undo(lists, listId) == lists[..k] + lists[k + 1..] + [lists[k]]
    ensures multiset(Undo(lists, listId)) == multiset(lists)
  {
    RemainingSkipsOne(lists, listId, k);
    FirstMatch(lists, listId, k);
    MoveToEndMultiset(lists, k);
  }

  lemma RemainingSkipsOne(lists: seq<ArmyList>, listId: string, k: nat)
    requires k < |lists| && Matches(lists[k], listId)
    requires forall j :: 0 <= j < |lists| && j != k ==> !Matches(lists[j], listId)
    ensures Remaining(lists, listId) == lists[..k] + lists[k + 1..]
  {
    FilterDropsOne(lists, Kept(listId), k);
  }

  /** The first list that matches is the one found. */
  lemma {:induction false} FirstMatch(lists: seq<ArmyList>, listId: string, k: nat)
    requires k < |lists| && Matches(lists[k], listId)
    requires forall j :: 0 <= j < k ==> !Matches(lists[j], listId)
    ensures Deleted(lists, listId) == Some(lists[k])
  {
    if k > 0 {
      FirstMatch(lists[1..], listId, k - 1);
    }
  }

  /** A guest id "list-x" removes both a list "x" and a list "list-x". */
  lemma DeleteTakesBothForms(a: ArmyList, b: ArmyList)
    requires b.id == ListSync.LocalPrefix + a.id
    ensures Remaining([a, b], b.id) == []
  {
    FilterNone([a, b], Kept(b.id));
  }
}
