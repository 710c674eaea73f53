/**
 * The plain text of the `!tasks` reply: the task count with thousands
 * separators, then an optional bracelet segment and an optional cannon
 * segment, each introduced by " | ". `ParseSummary` reads the line back, and
 * `SummaryRoundTrip` shows that the line carries exactly the segments the
 * toggles and counts call for, with the counts they report.
 */
module Summary {
  import opened Wrappers
  import opened Strings
  import opened Decimal

  const TasksLabel := "Slayer Tasks Completed: "
  const BraceletsLabel := " | Bracelets Used - Slaughter: "
  const ExpeditiousLabel := ", Expeditious: "
  const CannonLabel := " | Cannon Breaks: "

  /** Bracelet counts are printed with `String.valueOf`, without grouping. */
  function BraceletSegment(slaughter: int, expeditious: int): string
  {
    BraceletsLabel + (IntToString(slaughter) + (ExpeditiousLabel + IntToString(expeditious)))
  }

  function CannonSegment(breaks: int): string
  {
    CannonLabel + IntToString(breaks)
  }

  /** The bracelet segment is shown when bracelets are tracked and either bracelet was used. */
  predicate ShowsBracelets(trackBracelets: bool, slaughter: int, expeditious: int)
  {
    trackBracelets && (slaughter > 0 || expeditious > 0)
  }

  /** The cannon segment is shown when cannon breaks are tracked and there was at least one. */
  predicate ShowsCannon(trackCannon: bool, breaks: int)
  {
    trackCannon && breaks > 0
  }

  /** What a reader of the line learns: the task count and the segments present. */
  datatype SummaryView = SummaryView(tasks: int, bracelets: Option<(int, int)>, cannonBreaks: Option<int>)

  /** The content the line is meant to carry, stated independently of its layout. */
  function Intended(tasks: int, slaughter: int, expeditious: int, breaks: int,
                    trackBracelets: bool, trackCannon: bool): SummaryView
  {
    SummaryView(
      tasks,
      if ShowsBracelets(trackBracelets, slaughter, expeditious) then Some((slaughter, expeditious)) else None,
      if ShowsCannon(trackCannon, breaks) then Some(breaks) else None)
  }

  /** The reply line, segments in the fixed order task, bracelets, cannon. */
  function SummaryText(tasks: int, slaughter: int, expeditious: int, breaks: int,
                       trackBracelets: bool, trackCannon: bool): (r: string)
    ensures StartsWith(r, TasksLabel + GroupInt(tasks))
  {
    var segments := (if ShowsBracelets(trackBracelets, slaughter, expeditious) then BraceletSegment(slaughter, expeditious) else "")
                  + (if ShowsCannon(trackCannon, breaks) then CannonSegment(breaks) else "");
    Assoc(TasksLabel, GroupInt(tasks), segments);
    StartsWithAppend(TasksLabel + GroupInt(tasks), segments);
    TasksLabel + (GroupInt(tasks) + segments)
  }

  // ---------------------------------------------------------------- reading the line back

  /** Position of the first `stop` in `s`, or `|s|` when there is none. */
  function IndexOf(s: string, stop: char): (k: nat)
    ensures k <= |s|
    ensures stop !in s[..k]
    ensures k < |s| ==> s[k] == stop
  {
    if |s| == 0 then 0
    else if s[0] == stop then 0
    else
      var k := 1 + IndexOf(s[1..], stop);
      assert s[..k] == [s[0]] + s[1..][..k - 1];
      k
  }

  /** A token free of `stop`, followed by nothing or by `stop`, is split off exactly. */
  lemma IndexOfToken(tok: string, rest: string, stop: char)
    requires stop !in tok
    requires rest == [] || rest[0] == stop
    ensures IndexOf(tok + rest, stop) == |tok|
    ensures (tok + rest)[..|tok|] == tok && (tok + rest)[|tok|..] == rest
  {
  }

  function ParseCannon(r: string): Option<Option<int>>
  {
    if r == [] then Some(None)
    else if StartsWith(r, CannonLabel) then
      match ParseInt(r[|CannonLabel|..])
      case Some(c) => Some(Some(c))
      case None => None
    else None
  }

  /** Reads ", Expeditious: <count>" and returns the count with the text that follows. */
  function ParseExpeditious(b: string): Option<(int, string)>
  {
    if StartsWith(b, ExpeditiousLabel) then
      var c := b[|ExpeditiousLabel|..];
      var j := IndexOf(c, ' ');
      match ParseInt(c[..j])
      case None => None
      case Some(e) => Some((e, c[j..]))
    else None
  }

  /** Reads "<count>, Expeditious: <count>" and returns both counts with the text that follows. */
  function ParseBraceletCounts(a: string): Option<((int, int), string)>
  {
    var i := IndexOf(a, ',');
    match ParseInt(a[..i])
    case None => None
    case Some(s) =>
      match ParseExpeditious(a[i..])
      case None => None
      case Some((e, rest)) => Some(((s, e), rest))
  }

  /** Reads an optional bracelet segment and returns it with the text that follows. */
  function ParseBracelets(r: string): Option<(Option<(int, int)>, string)>
  {
    if StartsWith(r, BraceletsLabel) then
      match ParseBraceletCounts(r[|BraceletsLabel|..])
      case None => None
      case Some((counts, rest)) => Some((Some(counts), rest))
    else Some((None, r))
  }

  /** Reads the optional segments that follow the task count. */
  function ParseSegments(r: string): Option<(Option<(int, int)>, Option<int>)>
  {
    match ParseBracelets(r)
    case None => None
    case Some((br, rest)) =>
      match ParseCannon(rest)
      case None => None
      case Some(cb) => Some((br, cb))
  }

  function ParseSummary(r: string): Option<SummaryView>
  {
    if !StartsWith(r, TasksLabel) then None
    else
      var a := r[|TasksLabel|..];
      var k := IndexOf(a, ' ');
      match ParseGrouped(a[..k])
      case None => None
      case Some(t) =>
        match ParseSegments(a[k..])
        case None => None
        case Some((br, cb)) => Some(SummaryView(t, br, cb))
  }

  lemma CannonRoundTrip(shown: bool, breaks: int)
    ensures ParseCannon(if shown then CannonSegment(breaks) else []) == Some(if shown then Some(breaks) else None)
  {
    if shown {
      var r := CannonSegment(breaks);
      assert r[|CannonLabel|..] == IntToString(breaks);
      IntRoundTrip(breaks);
    }
  }

  lemma Assoc(a: string, b: string, c: string)
    ensures (a + b) + c == a + (b + c)
  {
  }

  lemma ExpeditiousRoundTrip(expeditious: int, rest: string)
    requires rest == [] || rest[0] == ' '
    ensures ParseExpeditious(ExpeditiousLabel + (IntToString(expeditious) + rest)) == Some((expeditious, rest))
  {
    var es := IntToString(expeditious);
    StartsWithAppend(ExpeditiousLabel, es + rest);
    assert (ExpeditiousLabel + (es + rest))[|ExpeditiousLabel|..] == es + rest;
    IntTextAvoids(es, ' ');
    IndexOfToken(es, rest, ' ');
    IntRoundTrip(expeditious);
  }

  lemma BraceletCountsRoundTrip(slaughter: int, expeditious: int, rest: string)
    requires rest == [] || rest[0] == ' '
    ensures ParseBraceletCounts(IntToString(slaughter) + (ExpeditiousLabel + (IntToString(expeditious) + rest)))
         == Some(((slaughter, expeditious), rest))
  {
    var ss := IntToString(slaughter);
    var tail := ExpeditiousLabel + (IntToString(expeditious) + rest);
    IntTextAvoids(ss, ',');
    IndexOfToken(ss, tail, ',');
    IntRoundTrip(slaughter);
    ExpeditiousRoundTrip(expeditious, rest);
  }

  lemma BraceletRoundTrip(slaughter: int, expeditious: int, rest: string)
    requires rest == [] || rest[0] == ' '
    ensures ParseBracelets(BraceletSegment(slaughter, expeditious) + rest) == Some((Some((slaughter, expeditious)), rest))
  {
    var ss, es := IntToString(slaughter), IntToString(expeditious);
    var counts := ss + (ExpeditiousLabel + (es + rest));
    Assoc(ExpeditiousLabel, es, rest);
    Assoc(ss, ExpeditiousLabel + es, rest);
    Assoc(BraceletsLabel, ss + (ExpeditiousLabel + es), rest);
    var r := BraceletSegment(slaughter, expeditious) + rest;
    assert r == BraceletsLabel + counts;
    StartsWithAppend(BraceletsLabel, counts);
    assert r[|BraceletsLabel|..] == counts;
    BraceletCountsRoundTrip(slaughter, expeditious, rest);
  }

  lemma NoBraceletRoundTrip(rest: string)
    requires rest == [] || StartsWith(rest, CannonLabel)
    ensures ParseBracelets(rest) == Some((None, rest))
  {
    if rest != [] {
      assert rest[3] == CannonLabel[3];
      assert CannonLabel[3] != BraceletsLabel[3];
    }
  }

  lemma SegmentsRoundTrip(slaughter: int, expeditious: int, breaks: int, showB: bool, showC: bool)
    ensures ParseSegments((if showB then BraceletSegment(slaughter, expeditious) else [])
                          + (if showC then CannonSegment(breaks) else []))
         == Some((if showB then Some((slaughter, expeditious)) else None, if showC then Some(breaks) else None))
  {
    var cseg := if showC then CannonSegment(breaks) else [];
    CannonRoundTrip(showC, breaks);
    if showB {
      BraceletRoundTrip(slaughter, expeditious, cseg);
    } else {
      assert [] + cseg == cseg;
      NoBraceletRoundTrip(cseg);
    }
  }

  /** The grouped task count is read back, and the segments after it are left over. */
  lemma TaskCountSplit(tasks: int, segs: string)
    requires segs == [] || segs[0] == ' '
    ensures IndexOf(GroupInt(tasks) + segs, ' ') == |GroupInt(tasks)|
    ensures (GroupInt(tasks) + segs)[..|GroupInt(tasks)|] == GroupInt(tasks)
    ensures (GroupInt(tasks) + segs)[|GroupInt(tasks)|..] == segs
    ensures ParseGrouped(GroupInt(tasks)) == Some(tasks)
  {
    GroupedAvoids(tasks, ' ');
    IndexOfToken(GroupInt(tasks), segs, ' ');
    GroupedRoundTrip(tasks);
  }

  /**
   * The reply line reads back as exactly the intended content: the bracelet
   * segment is present if and only if bracelets are tracked and one was used,
   * the cannon segment if and only if breaks are tracked and there was one,
   * and every count shown is the count given.
   */
  lemma SummaryRoundTrip(tasks: int, slaughter: int, expeditious: int, breaks: int,
                         trackBracelets: bool, trackCannon: bool)
    ensures ParseSummary(SummaryText(tasks, slaughter, expeditious, breaks, trackBracelets, trackCannon))
         == Some(Intended(tasks, slaughter, expeditious, breaks, trackBracelets, trackCannon))
  {
    var showB := ShowsBracelets(trackBracelets, slaughter, expeditious);
    var showC := ShowsCannon(trackCannon, breaks);
    var g := GroupInt(tasks);
    var segs := (if showB then BraceletSegment(slaughter, expeditious) else [])
              + (if showC then CannonSegment(breaks) else []);
    var r := SummaryText(tasks, slaughter, expeditious, breaks, trackBracelets, trackCannon);
    assert r == TasksLabel + (g + segs);
    SegmentsLead(slaughter, expeditious, breaks, showB, showC);
    TaskCountSplit(tasks, segs);
    SegmentsRoundTrip(slaughter, expeditious, breaks, showB, showC);
    ParseSummaryParts(r, g, segs, tasks);
    var br := if showB then Some((slaughter, expeditious)) else None;
    var cb := if showC then Some(breaks) else None;
    assert ParseSegments(segs) == Some((br, cb));
    assert ParseSummary(r) == Some(SummaryView(tasks, br, cb));
  }

  lemma SegmentsLead(slaughter: int, expeditious: int, breaks: int, showB: bool, showC: bool)
    ensures var segs := (if showB then BraceletSegment(slaughter, expeditious) else [])
                      + (if showC then CannonSegment(breaks) else []);
            segs == [] || segs[0] == ' '
  {
  }

  /** The line is read as its label, a task count up to the first space, and segments. */
  lemma ParseSummaryParts(r: string, g: string, segs: string, tasks: int)
    requires r == TasksLabel + (g + segs)
    requires IndexOf(g + segs, ' ') == |g|
    requires (g + segs)[..|g|] == g && (g + segs)[|g|..] == segs
    requires ParseGrouped(g) == Some(tasks)
    ensures ParseSummary(r) == match ParseSegments(segs)
                               case None => None
                               case Some((br, cb)) => Some(SummaryView(tasks, br, cb))
  {
    StartsWithAppend(TasksLabel, g + segs);
    assert r[|TasksLabel|..] == g + segs;
  }

  /** Three tasks and two slaughter bracelets, with every toggle on. */
  lemma SummaryExampleBracelets()
    ensures SummaryText(3, 2, 0, 0, true, true)
         == "Slayer Tasks Completed: " + ("3" + (" | Bracelets Used - Slaughter: " + ("2" + (", Expeditious: " + "0"))))
  {
    assert GroupInt(3) == "3" && IntToString(2) == "2" && IntToString(0) == "0";
    assert !ShowsCannon(true, 0) && ShowsBracelets(true, 2, 0);
    assert BraceletSegment(2, 0) + "" == BraceletSegment(2, 0);
  }

  /** A fresh install: every count 0 and every toggle on gives only the task segment. */
  lemma SummaryExampleFresh()
    ensures SummaryText(0, 0, 0, 0, true, true) == "Slayer Tasks Completed: 0"
  {
    assert GroupInt(0) == "0";
  }

}
