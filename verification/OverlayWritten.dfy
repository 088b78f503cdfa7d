/** Whole overlay files as people write them: the sections in any order, rows in any form, blank
    lines and comments wherever a line may end. */
module OverlayWritten {
  import opened OverlayText
  import opened Overlays
  import opened OverlayRoundTrip
  import opened OverlayFile
  import opened OverlayDocument
  import opened OverlayForms

  // --- Sections ---------------------------------------------------------------------------------

  /** A section and the number of blank lines behind it; an empty list of owners, and a line
      without a colon, are sections that say nothing. */
  datatype Part =
    | NodesPart(rows: seq<Route>, gaps: nat)
    | EdgesPart(lists: seq<seq<string>>, gaps: nat)
    | RoutingPart(rows: seq<Route>, gaps: nat)
    | OwnersPart(owners: seq<string>, gaps: nat)
    | SettingPart(setting: Setting, gaps: nat)
    | NoOwnersPart(gaps: nat)
    | NotePart(text: string, gaps: nat)
  {
    ghost predicate Ok()
    {
      match this
      case NodesPart(rows, _) => RoutesOk(rows) && AllFlow(rows)
      case EdgesPart(lists, _) => AllListsOk(lists)
      case RoutingPart(rows, _) => RoutesOk(rows)
      case OwnersPart(owners, _) => AllNames(owners)
      case SettingPart(setting, _) => setting.Ok()
      case NoOwnersPart(_) => true
      case NotePart(text, _) => text != "" && !Space(text[0]) && ':' !in text
    }

    function Head(): string
    {
      match this
      case NodesPart(_, _) => Heading("nodes", "")
      case EdgesPart(_, _) => Heading("edges", "")
      case RoutingPart(_, _) => Heading("routing", "")
      case OwnersPart(owners, _) => Heading("data_owners", " " + SeqBody(owners))
      case SettingPart(setting, _) => Heading(setting.key, "")
      case NoOwnersPart(_) => Heading("data_owners", "")
      case NotePart(text, _) => text
    }

    function Body(): seq<string>
    {
      match this
      case NodesPart(rows, _) => RouteText(rows)
      case EdgesPart(lists, _) => ListLines(lists)
      case RoutingPart(rows, _) => RouteText(rows)
      case SettingPart(setting, _) => ValueLines(setting.values)
      case _ => []
    }

    /** What the overlay becomes: a second section of a kind adds to the first, except that the
        data owners are replaced. */
    function Apply(o: Overlay): Overlay
    {
      match this
      case NodesPart(rows, _) => o.(nodes := RouteTable(rows, o.nodes))
      case EdgesPart(lists, _) => o.(edges := o.edges + Pairs(lists))
      case RoutingPart(rows, _) => o.(routing := RouteTable(rows, o.routing))
      case OwnersPart(owners, _) => o.(dataOwners := owners)
      case _ => o
    }
  }

  /** Nodes have the flow form alone, and every line of their section is a node. */
  ghost predicate AllFlow(rows: seq<Route>)
  {
    forall k :: 0 <= k < |rows| ==> rows[k].FlowRoute? && rows[k].strays == []
  }

  /** A line of the edges section; only a list of two names is an edge. */
  function ListLine(names: seq<string>): string
  {
    "  - " + SeqBody(names)
  }

  function ListLines(lists: seq<seq<string>>): seq<string>
  {
    if lists == [] then [] else [ListLine(lists[0])] + ListLines(lists[1..])
  }

  function Pairs(lists: seq<seq<string>>): seq<Edge>
  {
    if lists == [] then [] else
    (if |lists[0]| == 2 then [(lists[0][0], lists[0][1])] else []) + Pairs(lists[1..])
  }

  ghost predicate AllListsOk(lists: seq<seq<string>>)
  {
    forall k :: 0 <= k < |lists| ==> AllNames(lists[k])
  }

  function PartsText(parts: seq<Part>): seq<string>
  {
    if parts == [] then [] else
    [parts[0].Head()] + (parts[0].Body() + (CleanComments(parts[0].gaps) + PartsText(parts[1..])))
  }

  function ApplyAll(parts: seq<Part>, o: Overlay): Overlay
  {
    if parts == [] then o else ApplyAll(parts[1..], parts[0].Apply(o))
  }

  ghost predicate PartsOk(parts: seq<Part>)
  {
    forall k :: 0 <= k < |parts| ==> parts[k].Ok()
  }

  // --- Reading one section -----------------------------------------------------------------------

  lemma NodeStep(route: Route, more: seq<string>, acc: map<string, Row>)
    requires route.Ok() && route.FlowRoute? && route.strays == []
    ensures NodesOf(route.Text() + more, acc)
         == NodesOf(more, acc[route.name := FieldsRow(route.Fields(), map[])])
  {
    hide NodesOf, JoinPieces, FieldsRow, FieldsOf, Name, FlowOk;
    FlowLineStep(route.name, route.gap, route.pieces, more, acc);
    assert route.Text() == ["  " + route.name + ":" + (route.gap + ("{" + JoinPieces(route.pieces) + "}"))];
  }

  lemma {:induction false} NodesThrough(rows: seq<Route>, more: seq<string>, acc: map<string, Row>)
    requires RoutesOk(rows) && AllFlow(rows)
    ensures NodesOf(RouteText(rows) + more, acc) == NodesOf(more, RouteTable(rows, acc))
    decreases |rows|
  {
    hide NodesOf, FieldsRow, Route.Text, Route.Fields, Route.Ok;
    if rows == [] {
      assert RouteText(rows) + more == more;
    } else {
      assert RouteText(rows) + more == rows[0].Text() + (RouteText(rows[1..]) + more);
      NodeStep(rows[0], RouteText(rows[1..]) + more, acc);
      NodesThrough(rows[1..], more, acc[rows[0].name := FieldsRow(rows[0].Fields(), map[])]);
    }
  }

  lemma ListReads(names: seq<string>)
    requires AllNames(names)
    ensures var line := ListLine(names);
            !Blank(line) && Leading(line) == 2 && Find(line, '-') == 2 < |line| && FlowSeq(line[3..]) == names
  {
    hide SeqBody, Blank, Leading, FlowSeq, Find, Tight, AllNames;
    var line, body := ListLine(names), SeqBody(names);
    assert line[2] == '-' && line[3..] == " " + body;
    FindIs(line, '-', 2);
    FlowSeqReads(" ", names);
    BulletTight(names);
    assert line == "  " + ("-" + (" " + body));
    IndentedLine("  ", "-" + (" " + body));
  }

  lemma ListStep(names: seq<string>, more: seq<string>, acc: seq<Edge>)
    requires AllNames(names)
    ensures EdgesOf([ListLine(names)] + more, acc)
         == EdgesOf(more, if |names| == 2 then acc + [(names[0], names[1])] else acc)
  {
    hide Blank, Leading, Find, FlowSeq, ListLine, AllNames;
    ListReads(names);
    assert ([ListLine(names)] + more)[1..] == more;
  }

  lemma {:induction false} EdgesThrough(lists: seq<seq<string>>, more: seq<string>, acc: seq<Edge>)
    requires AllListsOk(lists)
    ensures EdgesOf(ListLines(lists) + more, acc) == EdgesOf(more, acc + Pairs(lists))
    decreases |lists|
  {
    hide EdgesOf, ListLine, AllNames;
    if lists == [] {
      assert ListLines(lists) + more == more && acc + Pairs(lists) == acc;
    } else {
      assert ListLines(lists) + more == [ListLine(lists[0])] + (ListLines(lists[1..]) + more);
      ListStep(lists[0], ListLines(lists[1..]) + more, acc);
      var first := if |lists[0]| == 2 then [(lists[0][0], lists[0][1])] else [];
      EdgesThrough(lists[1..], more, acc + first);
      assert acc + Pairs(lists) == acc + first + Pairs(lists[1..]);
      assert acc + [] == acc;
    }
  }

  lemma OwnersThrough(owners: seq<string>, n: nat, rest: seq<string>, o: Overlay)
    requires AllNames(owners)
    ensures LoadFrom([Heading("data_owners", " " + SeqBody(owners))] + (CleanComments(n) + rest), o)
         == LoadFrom(rest, o.(dataOwners := owners))
  {
    hide *;
    OwnersLoad(owners, CleanComments(n) + rest, o);
    BlanksLoad(n, rest, o.(dataOwners := owners));
  }

  lemma NoOwnersThrough(n: nat, rest: seq<string>, o: Overlay)
    ensures LoadFrom([Heading("data_owners", "")] + (CleanComments(n) + rest), o) == LoadFrom(rest, o)
  {
    hide LoadFrom, Heading, CleanComments, Trim;
    SectionNames();
    HeadingLoads("data_owners", "", CleanComments(n) + rest, o);
    BlanksLoad(n, rest, o);
  }

  lemma NoteThrough(text: string, n: nat, rest: seq<string>, o: Overlay)
    requires text != "" && !Space(text[0]) && ':' !in text
    ensures LoadFrom([text] + (CleanComments(n) + rest), o) == LoadFrom(rest, o)
    ensures Stops([text] + (CleanComments(n) + rest))
  {
    hide Blank, Leading, Find, CleanComments;
    var behind := CleanComments(n) + rest;
    NotBlank(text);
    LeadingIs(text, 0);
    FindIs(text, ':', |text|);
    assert ([text] + behind)[1..] == behind;
    BlanksLoad(n, rest, o);
  }

  /** A section loads as what it says, and the loop goes on behind its blank lines. */
  lemma PartLoads(p: Part, rest: seq<string>, o: Overlay)
    requires p.Ok() && Stops(rest)
    ensures LoadFrom([p.Head()] + (p.Body() + (CleanComments(p.gaps) + rest)), o) == LoadFrom(rest, p.Apply(o))
    ensures Stops([p.Head()] + (p.Body() + (CleanComments(p.gaps) + rest)))
  {
    hide LoadFrom, NodesOf, EdgesOf, RoutingOf, SkipBlock, RouteText, RouteTable, ListLines, Pairs, ValueLines;
    hide Stops, CleanComments, SeqBody, RoutesOk, AllNames, Name, Trim, Heading;
    var behind := CleanComments(p.gaps) + rest;
    SectionNames();
    match p
    case NodesPart(rows, n) =>
      HeadingLoads("nodes", "", RouteText(rows) + behind, o);
      NodesThrough(rows, behind, o.nodes);
      SectionEnds(n, rest, RouteTable(rows, o.nodes), []);
    case EdgesPart(lists, n) =>
      HeadingLoads("edges", "", ListLines(lists) + behind, o);
      EdgesThrough(lists, behind, o.edges);
      SectionEnds(n, rest, map[], o.edges + Pairs(lists));
    case RoutingPart(rows, n) =>
      HeadingLoads("routing", "", RouteText(rows) + behind, o);
      RoutesRead(rows, n, rest, o.routing);
    case OwnersPart(owners, n) =>
      HeadingLoads("data_owners", " " + SeqBody(owners), [] + behind, o);
      assert [] + behind == behind;
      OwnersThrough(owners, n, rest, o);
    case SettingPart(setting, n) =>
      HeadingLoads(setting.key, "", ValueLines(setting.values) + behind, o);
      OtherSection(setting.key, ValueLines(setting.values) + behind, o);
      ValuesSkipped(setting.values, behind);
      SectionEnds(n, rest, map[], []);
    case NoOwnersPart(n) =>
      assert [] + behind == behind;
      HeadingLoads("data_owners", "", behind, o);
      NoOwnersThrough(n, rest, o);
    case NotePart(text, n) =>
      assert [] + behind == behind;
      NoteThrough(text, n, rest, o);
  }

  lemma {:induction false} PartsLoad(parts: seq<Part>, o: Overlay)
    requires PartsOk(parts)
    ensures LoadFrom(PartsText(parts), o) == OverlayText.Ok(ApplyAll(parts, o))
    ensures Stops(PartsText(parts))
    decreases |parts|
  {
    hide Part.Ok, Part.Head, Part.Body, Part.Apply, CleanComments, InBlock;
    if parts != [] {
      hide LoadFrom, Stops;
      PartsLoad(parts[1..], parts[0].Apply(o));
      PartLoads(parts[0], PartsText(parts[1..]), o);
    }
  }

  // --- The whole file ----------------------------------------------------------------------------

  /** A line of the file: its content, blanks behind it and a comment, or none. */
  datatype Raw = Raw(line: string, blanks: string, comment: string)
  {
    ghost predicate Ok()
    {
      && Settled(line)
      && (forall k :: 0 <= k < |blanks| ==> blanks[k] == ' ' || blanks[k] == '\r')
      && (comment != "" ==> comment[0] == '#' && '\n' !in comment)
    }

    function Text(): string
    {
      line + blanks + comment
    }
  }

  ghost predicate RawsOk(raws: seq<Raw>)
  {
    forall k :: 0 <= k < |raws| ==> raws[k].Ok()
  }

  function Texts(raws: seq<Raw>): seq<string>
  {
    if raws == [] then [] else [raws[0].Text()] + Texts(raws[1..])
  }

  function Contents(raws: seq<Raw>): seq<string>
  {
    if raws == [] then [] else [raws[0].line] + Contents(raws[1..])
  }

  lemma {:induction false} RTrimPad(s: string, blanks: string)
    requires forall k :: 0 <= k < |blanks| ==> blanks[k] == ' ' || blanks[k] == '\r'
    ensures RTrim(s + blanks) == RTrim(s)
    decreases |blanks|
  {
    if blanks == "" {
      assert s + blanks == s;
    } else {
      assert (s + blanks)[..|s + blanks| - 1] == s + blanks[..|blanks| - 1];
      RTrimPad(s, blanks[..|blanks| - 1]);
    }
  }

  /** The first `#` starts a comment wherever it stands, inside quotes too. */
  lemma HashCuts(s: string, t: string)
    requires '#' !in s
    ensures CleanLine(s + "#" + t) == RTrim(s)
  {
    hide RTrim;
    FindIs(s + "#" + t, '#', |s|);
    assert (s + "#" + t)[..|s|] == s;
  }

  /** A comment goes, with the blanks in front of it. */
  lemma RawCleans(r: Raw)
    requires r.Ok()
    ensures CleanLine(r.Text()) == r.line && '\n' !in r.Text()
  {
    hide RTrim, Find;
    var text, c := r.Text(), |r.line + r.blanks|;
    forall k | 0 <= k < c
      ensures text[k] != '#' && text[k] != '\n'
    {
      if k < |r.line| {
        assert text[k] == r.line[k];
      } else {
        assert text[k] == r.blanks[k - |r.line|];
      }
    }
    FindIs(text, '#', c);
    assert text[..c] == r.line + r.blanks;
    RTrimPad(r.line, r.blanks);
    FindIs(r.line, '#', |r.line|);
    assert r.line[..|r.line|] == r.line;
  }

  lemma {:induction false} RawsClean(raws: seq<Raw>)
    requires RawsOk(raws)
    ensures CleanAll(Texts(raws)) == Contents(raws)
    ensures |Texts(raws)| == |raws| && forall k :: 0 <= k < |raws| ==> '\n' !in Texts(raws)[k]
    decreases |raws|
  {
    hide CleanLine, Raw.Ok, Raw.Text;
    if raws != [] {
      RawCleans(raws[0]);
      RawsClean(raws[1..]);
    }
  }

  /** Every overlay file made of such sections, in any order, with comments and blanks anywhere
      behind a line, loads as what its sections say; one that names no node is refused. */
  lemma WrittenLoads(raws: seq<Raw>, lead: nat, parts: seq<Part>)
    requires RawsOk(raws) && PartsOk(parts) && Contents(raws) == CleanComments(lead) + PartsText(parts)
    ensures Load(CleanAll(GetLines(Join(Texts(raws) + [""]))))
         == if ApplyAll(parts, EMPTY).nodes == map[] then OverlayText.NoNodes
            else OverlayText.Ok(ApplyAll(parts, EMPTY))
  {
    hide *;
    RawsClean(raws);
    GetJoined(Texts(raws));
    BlanksLoad(lead, PartsText(parts), EMPTY);
    PartsLoad(parts, EMPTY);
    LoadIs(Contents(raws));
  }

  lemma LoadIs(lines: seq<string>)
    ensures var r := LoadFrom(lines, EMPTY);
            Load(lines) == if r.Ok? && r.value.nodes == map[] then OverlayText.NoNodes else r
  {
  }

  // --- Rows that are refused ----------------------------------------------------------------------

  /** A node whose text is no flow map makes the whole file unreadable, whatever comes behind it. */
  lemma BadNodeRefused(rows: seq<Route>, name: string, pad: string, body: string, more: seq<string>, o: Overlay)
    requires RoutesOk(rows) && AllFlow(rows) && Name(name) && AllSpace(pad)
    requires Tight(body) && !exists i, j :: 0 <= i < j < |body| && body[i] == '{' && body[j] == '}'
    ensures LoadFrom([Heading("nodes", "")] + (RouteText(rows) + (["  " + name + ":" + (pad + body)] + more)), o)
         == BadFlowMap(body)
  {
    hide Blank, Leading, Find, Trim, FlowMap, NodesOf, RouteText, RouteTable, Before, Behind, LoadFrom, Heading;
    hide RoutesOk, Name, Tight;
    var bad := ["  " + name + ":" + (pad + body)] + more;
    SectionNames();
    HeadingLoads("nodes", "", RouteText(rows) + bad, o);
    NodesThrough(rows, bad, o.nodes);
    BadNode(name, pad, body, more, RouteTable(rows, o.nodes));
  }

  lemma BadNode(name: string, pad: string, body: string, more: seq<string>, acc: map<string, Row>)
    requires Name(name) && AllSpace(pad) && Tight(body)
    requires !exists i, j :: 0 <= i < j < |body| && body[i] == '{' && body[j] == '}'
    ensures NodesOf(["  " + name + ":" + (pad + body)] + more, acc) == Bad(body)
  {
    hide Blank, Leading, Find, Trim, FlowMap, Before, Behind, Tight;
    assert (pad + body)[|pad|..] == body && (pad + body)[..|pad|] == pad;
    assert body != "" by { TightFirst(body); }
    RowHead(name, pad + body, body);
    FlowMapRefuses(body);
  }

  /** So does a routing row that opens a brace and does not close it. */
  lemma BadRowRefused(name: string, pad: string, body: string, more: seq<string>, acc: map<string, Row>)
    requires Name(name) && AllSpace(pad) && Tight(body) && body[0] == '{' && '}' !in body
    ensures RoutingOf(["  " + name + ":" + (pad + body)] + more, acc) == Bad(body)
  {
    hide Blank, Leading, Find, Trim, FlowMap, Before, Behind, BlockRow;
    assert (pad + body)[|pad|..] == body && (pad + body)[..|pad|] == pad;
    RowHead(name, pad + body, body);
    FlowMapRefuses(body);
  }

  // --- Odd lines ------------------------------------------------------------------------------------

  /** A node without a colon is its own name and its own text. */
  lemma ColonlessNode(text: string, more: seq<string>, acc: map<string, Row>)
    requires Tight(text) && ':' !in text
    ensures NodesOf(["  " + text] + more, acc)
         == if FlowMap(text).Ok? then NodesOf(more, acc[text := FlowMap(text).value]) else Bad(text)
  {
    hide Blank, Leading, Find, Trim, FlowMap, Tight;
    var line := "  " + text;
    IndentedLine("  ", text);
    FindIs(line, ':', |line|);
    TrimPad("  ", text, "");
    assert line + "" == line && ([line] + more)[1..] == more;
  }

  /** A sequence needs both brackets, in either order: behind an opening bracket that no closing
      one follows, everything is read. */
  lemma OpenSequence(front: string, behind: string)
    requires '[' !in front && ']' !in behind
    ensures FlowSeq(front + "[" + behind) == if ']' in front then Items(behind) else []
  {
    hide Items;
    var s := front + "[" + behind;
    FindIs(s, '[', |front|);
    var rb := RFind(s, ']');
    assert s[|front| + 1..] == behind;
    if k :| 0 <= k < |front| && front[k] == ']' {
      assert s[k] == ']';
    }
    forall k | |front| <= k < |s|
      ensures s[k] != ']'
    {
      assert s[k] == if k == |front| then '[' else behind[k - |front| - 1];
    }
    if rb < |s| {
      assert front[rb] == ']';
    }
  }
}
