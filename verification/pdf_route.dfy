/** The PDF export route, without the drawing: the points text, the unit
    display name, the vertical cursor with its page-break check, the
    placement of the wargear lines, and the per-detachment blocks (a
    "No units" line or the role groups shared with the summary card). */
module PdfRoute {
  import opened Wrappers
  import opened Seqs
  import opened Records
  import Text
  import ArmySummary

  /** Letter height in points. */
  const PageHeight: int := 792
  /** The top margin, where a fresh page starts writing. */
  const TopY: int := 40
  /** Nothing is started below this line without a page break. */
  const BottomY: int := PageHeight - 40

  // ---------------------------------------------------------------------
  // Texts

  /** `pointsText`: "{total} / {limit} pts" when the limit is truthy, else "{total} pts". */
  function PointsText(total: int, limit: Option<int>): (r: string)
    ensures Text.ParseInt(r) == Some(total)
    ensures '/' in r <==> ArmySummary.LimitIsSet(limit)
    ensures ArmySummary.LimitIsSet(limit) ==>
      exists k :: 0 <= k < |r| && r[k] == '/' && Text.ParseInt(r[k + 1..]) == Some(limit.value)
    ensures |r| >= 4 && r[|r| - 4..] == " pts"
  {
    if ArmySummary.LimitIsSet(limit) then
      LimitedText(total, limit.value);
      Text.IntToString(total) + " / " + Text.IntToString(limit.value) + " pts"
    else
      UnlimitedText(total);
      Text.IntToString(total) + " pts"
  }

  lemma LimitedText(total: int, limit: int)
    ensures var r := Text.IntToString(total) + " / " + Text.IntToString(limit) + " pts";
      Text.ParseInt(r) == Some(total) && '/' in r
    ensures var r := Text.IntToString(total) + " / " + Text.IntToString(limit) + " pts";
      r[|Text.IntToString(total)| + 1] == '/' && Text.ParseInt(r[|Text.IntToString(total)| + 2..]) == Some(limit)
    ensures var r := Text.IntToString(total) + " / " + Text.IntToString(limit) + " pts";
      r[|r| - 4..] == " pts"
  {
    var t, l := Text.IntToString(total), Text.IntToString(limit);
    var rest := " / " + l + " pts";
    assert t + " / " + l + " pts" == t + rest;
    assert rest[0] == ' ';
    Text.ParseIntOfNumberThen(total, rest);
    assert (t + rest)[|t| + 1] == '/';
    LimitAfterSlash(t, l, limit);
  }

  /** After the slash come a blank and the limit's text. */
  lemma LimitAfterSlash(t: string, l: string, limit: int)
    requires l == Text.IntToString(limit)
    ensures Text.ParseInt((t + " / " + l + " pts")[|t| + 2..]) == Some(limit)
  {
    assert (t + " / " + l + " pts")[|t| + 2..] == " " + (l + " pts");
    Text.ParseIntAfterSpace(l + " pts");
    Text.ParseIntOfNumberThen(limit, " pts");
  }

  lemma UnlimitedText(total: int)
    ensures var r := Text.IntToString(total) + " pts";
      Text.ParseInt(r) == Some(total) && '/' !in r
  {
    Text.ParseIntOfNumberThen(total, " pts");
    ArmySummary.NoSlashInNumber(total);
  }

  function NotSpace(): char -> bool
  {
    (c: char) => c != ' '
  }

  lemma NumberHasNoSpace(n: int)
    ensures Filter(Text.IntToString(n), NotSpace()) == Text.IntToString(n)
  {
    var s := Text.IntToString(n);
    forall c | c in s ensures NotSpace()(c) {
      var i :| 0 <= i < |s| && s[i] == c;
      assert Text.IsDigit(s[i]) || s[i] == '-';
    }
    FilterAll(s, NotSpace());
  }

  lemma SpacesDropped()
    ensures Filter(" / ", NotSpace()) == "/"
    ensures Filter(" pts", NotSpace()) == "pts"
  {
    SlashSpacesDropped();
    PtsSpaceDropped();
  }

  lemma SlashSpacesDropped()
    ensures Filter(" / ", NotSpace()) == "/"
  {
    var p := NotSpace();
    assert " / "[1..] == "/ " && "/ "[1..] == " " && " "[1..] == [];
    assert Filter(" ", p) == [];
    assert Filter("/ ", p) == "/";
  }

  lemma PtsSpaceDropped()
    ensures Filter(" pts", NotSpace()) == "pts"
  {
    var p := NotSpace();
    assert " pts"[1..] == "pts" && "pts"[1..] == "ts" && "ts"[1..] == "s" && "s"[1..] == [];
    assert Filter("s", p) == "s";
    assert Filter("ts", p) == "ts";
    assert Filter("pts", p) == "pts";
  }

  lemma DropSpacesLimited(t: string, l: string)
    requires Filter(t, NotSpace()) == t && Filter(l, NotSpace()) == l
    ensures Filter(t + " / " + l + " pts", NotSpace()) == t + "/" + l + "pts"
  {
    var p := NotSpace();
    SpacesDropped();
    FilterAppend(t + " / " + l, " pts", p);
    FilterAppend(t + " / ", l, p);
    FilterAppend(t, " / ", p);
  }

  lemma DropSpacesUnlimited(t: string)
    requires Filter(t, NotSpace()) == t
    ensures Filter(t + " pts", NotSpace()) == t + "pts"
  {
    SpacesDropped();
    FilterAppend(t, " pts", NotSpace());
  }

  /** The PDF and the summary card (with a zero limit read as no limit)
      write the same points line up to spacing. */
  lemma PointsTextMatchesCard(total: int, limit: Option<int>)
    ensures Filter(PointsText(total, limit), NotSpace()) == ArmySummary.PointsLine(total, limit)
  {
    if ArmySummary.LimitIsSet(limit) {
      MatchesCardLimited(total, limit);
    } else {
      MatchesCardUnlimited(total, limit);
    }
  }

  lemma MatchesCardLimited(total: int, limit: Option<int>)
    requires ArmySummary.LimitIsSet(limit)
    ensures Filter(PointsText(total, limit), NotSpace()) == ArmySummary.PointsLine(total, limit)
  {
    var t := Text.IntToString(total);
    var l := Text.IntToString(limit.value);
    var spaced := t + " / " + l + " pts";
    var packed := t + "/" + l + "pts";
    assert PointsText(total, limit) == spaced;
    assert ArmySummary.PointsLine(total, limit) == packed;
    PackLimited(total, limit.value);
  }

  lemma PackLimited(total: int, limit: int)
    ensures var t, l := Text.IntToString(total), Text.IntToString(limit);
      Filter(t + " / " + l + " pts", NotSpace()) == t + "/" + l + "pts"
  {
    NumberHasNoSpace(total);
    NumberHasNoSpace(limit);
    DropSpacesLimited(Text.IntToString(total), Text.IntToString(limit));
  }

  lemma MatchesCardUnlimited(total: int, limit: Option<int>)
    requires !ArmySummary.LimitIsSet(limit)
    ensures Filter(PointsText(total, limit), NotSpace()) == ArmySummary.PointsLine(total, limit)
  {
    var t := Text.IntToString(total);
    NumberHasNoSpace(total);
    DropSpacesUnlimited(t);
    var pdf := PointsText(total, limit);
    var card := ArmySummary.PointsLine(total, limit);
    assert pdf == t + " pts";
    assert card == t + "pts";
  }

  const LogisticalSuffix: string := " [LOGISTICAL BENEFIT]"

  /** `displayName`: the unit's name, with a suffix when it holds the logistical benefit. */
  function DisplayName(u: Unit): (r: string)
    ensures Text.StartsWith(r, u.name)
    ensures |r| > |u.name| <==> u.isLogisticalBenefit
    ensures u.isLogisticalBenefit ==> r[|u.name|..] == LogisticalSuffix
    ensures !u.isLogisticalBenefit ==> r == u.name
  {
    if u.isLogisticalBenefit then u.name + LogisticalSuffix else u.name
  }

  /** The badge shows exactly the units holding the logistical benefit, unless
      a unit's own name already ends with the badge text. */
  lemma BadgeShowsBenefit(u: Unit)
    ensures u.isLogisticalBenefit ==> Text.EndsWith(DisplayName(u), LogisticalSuffix)
    ensures !Text.EndsWith(u.name, LogisticalSuffix) ==>
      (Text.EndsWith(DisplayName(u), LogisticalSuffix) <==> u.isLogisticalBenefit)
  {
    if u.isLogisticalBenefit {
      var r := DisplayName(u);
      assert r[|r| - |LogisticalSuffix|..] == r[|u.name|..];
    }
  }

  /** The detachment heading: "{name} ({totalPoints} pts)". */
  function Heading(d: Detachment): string
  {
    d.name + " (" + Text.IntToString(d.totalPoints) + " pts)"
  }

  // ---------------------------------------------------------------------
  // The vertical cursor

  /** The route's `yPos` and the pages `doc.addPage` has added. */
  class PdfCursor {
    var yPos: int
    var pages: nat

    /** The cursor never goes above the top margin. */
    predicate Valid()
      reads this
    {
      TopY <= yPos
    }

    /** A new document: one page, writing from the top margin. */
    constructor()
      ensures Valid()
      ensures yPos == TopY && pages == 1
    {
      yPos := TopY;
      pages := 1;
    }

    /** `checkNewPage(neededSpace)`: starts a new page when the space needed
        would cross the bottom margin. */
    method CheckNewPage(neededSpace: int) returns (newPage: bool)
      requires Valid()
      modifies this
      ensures Valid()
      ensures newPage <==> old(yPos) + neededSpace > BottomY
      ensures newPage ==> yPos == TopY && pages == old(pages) + 1
      ensures !newPage ==> yPos == old(yPos) && pages == old(pages)
      ensures neededSpace <= BottomY - TopY ==> yPos + neededSpace <= BottomY
    {
      if yPos + neededSpace > BottomY {
        pages := pages + 1;
        yPos := TopY;
        return true;
      }
      return false;
    }

    /** `yPos += dy`. */
    method Advance(dy: nat)
      requires Valid()
      modifies this
      ensures Valid()
      ensures yPos == old(yPos) + dy && pages == old(pages)
    {
      yPos := yPos + dy;
    }

    /** The wargear block: a heading line, then for each entry a
        `checkNewPage(15)` and a 12-point line, then a 10-point gap. Returns
        the heading's y and each entry's y. Every entry starts high enough
        for its 15 points to fit above the bottom margin. */
    method PlaceWargear(wargear: seq<string>) returns (heading: Option<int>, lines: seq<int>)
      requires Valid()
      modifies this
      ensures Valid()
      ensures wargear == [] <==> heading == None
      ensures wargear == [] ==> yPos == old(yPos) && pages == old(pages)
      ensures heading.Some? ==> heading.value == old(yPos)
      ensures |lines| == |wargear|
      ensures forall i :: 0 <= i < |lines| ==> TopY <= lines[i] && lines[i] + 15 <= BottomY
      ensures |lines| > 0 ==> yPos == lines[|lines| - 1] + 22
      ensures pages >= old(pages)
    {
      lines := [];
      if wargear == [] {
        return None, lines;
      }
      heading := Some(yPos);
      Advance(12);
      var k := 0;
      while k < |wargear|
        invariant Valid()
        invariant 0 <= k <= |wargear|
        invariant |lines| == k
        invariant forall i :: 0 <= i < k ==> TopY <= lines[i] && lines[i] + 15 <= BottomY
        invariant k > 0 ==> yPos == lines[k - 1] + 12
        invariant pages >= old(pages)
      {
        var _ := CheckNewPage(15);
        lines := lines + [yPos];
        Advance(12);
        k := k + 1;
      }
      Advance(10);
    }
  }

  // ---------------------------------------------------------------------
  // Detachment blocks

  /** What the route writes for one detachment after its heading. */
  datatype Block =
    | NoUnits(heading: string)
    | Roles(heading: string, groups: seq<ArmySummary.RoleGroup>)

  function BlockOf(): Detachment -> Block
  {
    (d: Detachment) =>
      if |d.units| == 0 then NoUnits(Heading(d)) else Roles(Heading(d), ArmySummary.Grouped(d.units))
  }

  /** The loop over `listData.detachments || []`: a "No units" block for an
      empty detachment, the grouped units otherwise. */
  method DetachmentBlocks(list: ArmyList) returns (blocks: seq<Block>)
    ensures blocks == Map(list.detachments, BlockOf())
  {
    blocks := BlocksOf(list.detachments);
  }

  /** One block per detachment, in order. */
  method BlocksOf(ds: seq<Detachment>) returns (blocks: seq<Block>)
    ensures blocks == Map(ds, BlockOf())
  {
    blocks := [];
    var k := 0;
    while k < |ds|
      invariant 0 <= k <= |ds| && |blocks| == k
      invariant forall i :: 0 <= i < k ==> blocks[i] == BlockOf()(ds[i])
    {
      var block := DetachmentBlock(ds[k]);
      blocks := blocks + [block];
      k := k + 1;
    }
    MapAgrees(ds, BlockOf(), blocks);
  }

  /** The block of one detachment. */
  method DetachmentBlock(d: Detachment) returns (block: Block)
    ensures block == BlockOf()(d)
  {
    if |d.units| == 0 {
      block := NoUnits(Heading(d));
    } else {
      var groups := ArmySummary.GroupByRole(d.units);
      block := Roles(Heading(d), groups);
    }
  }

  function IsRoles(): Block -> bool
  {
    (b: Block) => b.Roles?
  }

  function BlockGroups(): Block -> seq<ArmySummary.RoleGroup>
  {
    (b: Block) => if b.Roles? then b.groups else []
  }

  function SectionGroups(): ArmySummary.Section -> seq<ArmySummary.RoleGroup>
  {
    (s: ArmySummary.Section) => s.groups
  }

  /** The role groups the PDF writes, detachment by detachment, skipping "No units". */
  function PdfGroups(ds: seq<Detachment>): seq<seq<ArmySummary.RoleGroup>>
  {
    Map(Filter(Map(ds, BlockOf()), IsRoles()), BlockGroups())
  }

  /** The role groups the summary card renders, section by section. */
  function CardGroups(ds: seq<Detachment>): seq<seq<ArmySummary.RoleGroup>>
  {
    Map(Map(ArmySummary.ShownDetachments(ds), ArmySummary.SectionOf()), SectionGroups())
  }

  lemma PdfGroupsStep(pre: seq<Detachment>, d: Detachment)
    ensures PdfGroups(pre + [d]) ==
      PdfGroups(pre) + (if |d.units| == 0 then [] else [ArmySummary.Grouped(d.units)])
  {
    MapSnoc(pre, d, BlockOf());
    var bs := Map(pre, BlockOf());
    var b := BlockOf()(d);
    FilterAppend(bs, [b], IsRoles());
    if |d.units| == 0 {
      assert Filter([b], IsRoles()) == [];
      assert Filter(bs + [b], IsRoles()) == Filter(bs, IsRoles());
    } else {
      assert Filter([b], IsRoles()) == [b];
      MapSnoc(Filter(bs, IsRoles()), b, BlockGroups());
    }
  }

  lemma CardGroupsStep(pre: seq<Detachment>, d: Detachment)
    ensures CardGroups(pre + [d]) ==
      CardGroups(pre) + (if |d.units| == 0 then [] else [ArmySummary.Grouped(d.units)])
  {
    FilterAppend(pre, [d], ArmySummary.HasUnits());
    var shownPre := ArmySummary.ShownDetachments(pre);
    if |d.units| == 0 {
      assert Filter([d], ArmySummary.HasUnits()) == [];
      assert ArmySummary.ShownDetachments(pre + [d]) == shownPre;
    } else {
      assert Filter([d], ArmySummary.HasUnits()) == [d];
      assert ArmySummary.ShownDetachments(pre + [d]) == shownPre + [d];
      MapSnoc(shownPre, d, ArmySummary.SectionOf());
      MapSnoc(Map(shownPre, ArmySummary.SectionOf()), ArmySummary.SectionOf()(d), SectionGroups());
    }
  }

  /** The PDF writes a block for every detachment; leaving out its "No
      units" blocks gives exactly the role groups of the summary card's
      sections, in the same order. */
  lemma {:induction false} BlocksMatchSections(ds: seq<Detachment>)
    ensures PdfGroups(ds) == CardGroups(ds)
  {
    if ds != [] {
      var n := |ds| - 1;
      var pre, d := ds[..n], ds[n];
      assert pre + [d] == ds;
      BlocksMatchSections(pre);
      BlocksMatchStep(pre, d, ds);
    }
  }

  lemma BlocksMatchStep(pre: seq<Detachment>, d: Detachment, ds: seq<Detachment>)
    requires pre + [d] == ds
    requires PdfGroups(pre) == CardGroups(pre)
    ensures PdfGroups(ds) == CardGroups(ds)
  {
    PdfGroupsStep(pre, d);
    CardGroupsStep(pre, d);
  }
}
