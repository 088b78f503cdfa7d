/** The overlay file as emit_yaml prints it, and that load_overlay reads it back. */
module OverlayFile {
  import opened OverlayText
  import opened Overlays
  import opened OverlayRoundTrip

  // --- Printed lines ------------------------------------------------------------------------

  /** A named flow map: one node, or one node's routing row. */
  datatype FlowRow = FlowRow(name: string, items: seq<Item>)
  {
    ghost predicate Ok()
    {
      Name(name) && AllOk(items)
    }

    function Line(): string
    {
      "  " + name + ": " + FlowBody(items)
    }
  }

  type Edge = (string, string)

  function EdgeLine(e: Edge): string
  {
    "  - " + SeqBody([e.0, e.1])
  }

  function RowLines(rows: seq<FlowRow>): seq<string>
  {
    if rows == [] then [] else [rows[0].Line()] + RowLines(rows[1..])
  }

  function EdgeLines(edges: seq<Edge>): seq<string>
  {
    if edges == [] then [] else [EdgeLine(edges[0])] + EdgeLines(edges[1..])
  }

  function Rows(rows: seq<FlowRow>, acc: map<string, Row>): map<string, Row>
  {
    if rows == [] then acc else Rows(rows[1..], acc[rows[0].name := RowOf(rows[0].items, map[])])
  }

  ghost predicate AllRowsOk(rows: seq<FlowRow>)
  {
    forall k :: 0 <= k < |rows| ==> rows[k].Ok()
  }

  ghost predicate AllEdgesOk(edges: seq<Edge>)
  {
    forall k :: 0 <= k < |edges| ==> Name(edges[k].0) && Name(edges[k].1)
  }

  // --- Reading one line ----------------------------------------------------------------------

  lemma FlowBodyTight(items: seq<Item>)
    ensures Tight(FlowBody(items)) && FlowBody(items)[0] == '{' && FlowBody(items)[|FlowBody(items)| - 1] == '}'
  {
    hide ShowItems;
    var body := FlowBody(items);
    assert body == "{" + (" " + ShowItems(items) + " ") + "}";
  }

  lemma RowLineReads(row: FlowRow)
    requires row.Ok()
    ensures var line := row.Line();
            && !Blank(line) && Leading(line) == 2
            && Trim(Before(line, Find(line, ':'))) == row.name
            && Trim(Behind(line, Find(line, ':'))) == FlowBody(row.items)
            && FlowMap(FlowBody(row.items)) == OverlayText.Ok(RowOf(row.items, map[]))
  {
    hide FlowBody, Trim, Tight, Blank, Leading, RowOf, FlowMap;
    var line, body, c := row.Line(), FlowBody(row.items), 2 + |row.name|;
    FlowBodyTight(row.items);
    FlowMapReads(row.items);
    NameTight(row.name);
    TrimPad("  ", row.name, "");
    TrimPad(" ", body, "");
    assert line[c] == ':' && line[..c] == "  " + row.name + "" && line[c + 1..] == " " + body + "";
    NoColon(row.name, line);
    FindIs(line, ':', c);
    var x := row.name + (": " + body);
    assert line == "  " + x;
    JoinTight(row.name, ": " + body, body);
    IndentedLine("  ", x);
  }

  lemma NoColon(name: string, line: string)
    requires Name(name) && "  " + name <= line
    ensures forall k :: 0 <= k < 2 + |name| ==> line[k] != ':'
  {
    forall k | 0 <= k < 2 + |name|
      ensures line[k] != ':'
    {
      assert line[k] == ("  " + name)[k];
      if k >= 2 {
        assert NameChar(name[k - 2]);
      }
    }
  }

  /** Tight at the front, and at the back. */
  lemma JoinTight(a: string, b: string, tail: string)
    requires Tight(a) && Tight(tail) && |b| >= |tail| && b[|b| - |tail|..] == tail
    ensures Tight(a + b)
  {
    assert (a + b)[|a + b| - 1] == tail[|tail| - 1];
  }

  lemma EdgeLineReads(e: Edge)
    requires Name(e.0) && Name(e.1)
    ensures var line := EdgeLine(e);
            && !Blank(line) && Leading(line) == 2 && Find(line, '-') == 2 < |line|
            && FlowSeq(line[3..]) == [e.0, e.1]
  {
    hide SeqBody, Blank, Leading, FlowSeq, Find, Tight;
    var line, body := EdgeLine(e), SeqBody([e.0, e.1]);
    assert line[2] == '-' && line[3..] == " " + body;
    FindIs(line, '-', 2);
    FlowSeqReads(" ", [e.0, e.1]);
    BulletTight([e.0, e.1]);
    assert line == "  " + ("-" + (" " + body));
    IndentedLine("  ", "-" + (" " + body));
  }

  lemma BulletTight(names: seq<string>)
    ensures Tight("-" + (" " + SeqBody(names)))
  {
    hide SeqBody;
    SeqBodyTight(names);
    JoinTight("-", " " + SeqBody(names), SeqBody(names));
  }

  lemma SeqBodyTight(names: seq<string>)
    ensures Tight(SeqBody(names)) && SeqBody(names)[0] == '['
  {
    hide ShowNames;
  }

  // --- Reading the sections -------------------------------------------------------------------

  /** The lines behind a section: the next line, if any, starts at column 0. */
  ghost predicate Stops(rest: seq<string>)
  {
    rest == [] || !InBlock(rest[0], 2)
  }

  lemma NodesStop(rest: seq<string>, acc: map<string, Row>)
    requires Stops(rest)
    ensures NodesOf([""] + rest, acc) == Read(acc, rest) && RoutingOf([""] + rest, acc) == Read(acc, rest)
  {
    assert ([""] + rest)[1..] == rest;
    assert Blank("");
  }

  lemma RowStep(row: FlowRow, more: seq<string>, acc: map<string, Row>)
    requires row.Ok()
    ensures NodesOf([row.Line()] + more, acc) == NodesOf(more, acc[row.name := RowOf(row.items, map[])])
    ensures RoutingOf([row.Line()] + more, acc) == RoutingOf(more, acc[row.name := RowOf(row.items, map[])])
  {
    hide Blank, Leading, Find, Trim, FlowMap, FlowBody, RowOf, Before, Behind;
    RowLineReads(row);
    FlowBodyTight(row.items);
    assert ([row.Line()] + more)[1..] == more;
  }

  lemma {:induction false} RowsRead(rows: seq<FlowRow>, rest: seq<string>, acc: map<string, Row>)
    requires AllRowsOk(rows) && Stops(rest)
    ensures NodesOf(RowLines(rows) + [""] + rest, acc) == Read(Rows(rows, acc), rest)
    ensures RoutingOf(RowLines(rows) + [""] + rest, acc) == Read(Rows(rows, acc), rest)
    decreases |rows|
  {
    hide NodesOf, RoutingOf, RowOf, Stops;
    if rows == [] {
      NodesStop(rest, acc);
      assert RowLines(rows) + [""] + rest == [""] + rest;
    } else {
      var more := RowLines(rows[1..]) + [""] + rest;
      assert RowLines(rows) + [""] + rest == [rows[0].Line()] + more;
      RowStep(rows[0], more, acc);
      RowsRead(rows[1..], rest, acc[rows[0].name := RowOf(rows[0].items, map[])]);
    }
  }

  lemma EdgeStep(e: Edge, more: seq<string>, acc: seq<Edge>)
    requires Name(e.0) && Name(e.1)
    ensures EdgesOf([EdgeLine(e)] + more, acc) == EdgesOf(more, acc + [e])
  {
    hide Blank, Leading, Find, FlowSeq, SeqBody;
    EdgeLineReads(e);
    assert ([EdgeLine(e)] + more)[1..] == more;
  }

  lemma EdgesStop(rest: seq<string>, acc: seq<Edge>)
    requires Stops(rest)
    ensures EdgesOf([""] + rest, acc) == (acc, rest)
  {
    assert ([""] + rest)[1..] == rest;
    assert Blank("");
  }

  lemma {:induction false} EdgesRead(edges: seq<Edge>, rest: seq<string>, acc: seq<Edge>)
    requires AllEdgesOk(edges) && Stops(rest)
    ensures EdgesOf(EdgeLines(edges) + [""] + rest, acc) == (acc + edges, rest)
    decreases |edges|
  {
    hide EdgesOf, Stops, EdgeLine;
    if edges == [] {
      EdgesStop(rest, acc);
      assert EdgeLines(edges) + [""] + rest == [""] + rest;
      assert acc + edges == acc;
    } else {
      var more := EdgeLines(edges[1..]) + [""] + rest;
      assert EdgeLines(edges) + [""] + rest == [EdgeLine(edges[0])] + more;
      EdgeStep(edges[0], more, acc);
      EdgesRead(edges[1..], rest, acc + [edges[0]]);
      assert acc + [edges[0]] + edges[1..] == acc + edges;
    }
  }

  // --- Headings -------------------------------------------------------------------------------

  lemma {:induction false} KeepsFirst(s: string)
    requires s != "" && !Space(s[0])
    ensures TrimRight(s) != ""
    decreases |s|
  {
    if |s| > 1 && Space(s[|s| - 1]) {
      KeepsFirst(s[..|s| - 1]);
    }
  }

  lemma NotBlank(s: string)
    requires s != "" && !Space(s[0])
    ensures !Blank(s)
  {
    hide TrimRight;
    KeepsFirst(s);
  }

  /** A section heading, with whatever follows its colon. */
  function Heading(key: string, value: string): string
  {
    key + ":" + value
  }

  lemma HeadingReads(key: string, value: string)
    requires Name(key)
    ensures var line := Heading(key, value);
            && !Blank(line) && Leading(line) == 0 && Find(line, ':') == |key| < |line|
            && Trim(line[..|key|]) == key && line[|key| + 1..] == value
  {
    hide Trim, Blank;
    var line := Heading(key, value);
    assert line[0] == key[0] && NameChar(key[0]);
    NotBlank(line);
    LeadingIs(line, 0);
    forall k | 0 <= k < |key|
      ensures line[k] != ':'
    {
      assert NameChar(key[k]);
    }
    FindIs(line, ':', |key|);
    assert line[..|key|] == "" + key + "";
    NameTight(key);
    TrimPad("", key, "");
  }

  lemma HeadingLoads(key: string, value: string, rest: seq<string>, o: Overlay)
    requires Name(key)
    ensures LoadFrom([Heading(key, value)] + rest, o) == LoadSection(key, Trim(value), rest, o)
    ensures Stops([Heading(key, value)] + rest)
  {
    hide Blank, Leading, Find, Trim, LoadSection;
    HeadingReads(key, value);
    assert ([Heading(key, value)] + rest)[1..] == rest;
  }

  lemma BlankLoads(line: string, rest: seq<string>, o: Overlay)
    requires Blank(line)
    ensures LoadFrom([line] + rest, o) == LoadFrom(rest, o)
  {
    hide Blank;
    assert ([line] + rest)[1..] == rest;
  }

  lemma SectionNames()
    ensures Name("nodes") && Name("edges") && Name("routing") && Name("data_owners")
    ensures Trim("") == ""
  {
    AsciiName("nodes");
    AsciiName("edges");
    AsciiName("routing");
    AsciiName("data_owners");
  }

  lemma AsciiName(s: string)
    requires s != "" && forall k :: 0 <= k < |s| ==> 'a' <= s[k] <= 'z' || s[k] == '_'
    ensures Name(s)
  {
    forall k | 0 <= k < |s|
      ensures NameChar(s[k])
    {
    }
  }

  // --- The sections in order ---------------------------------------------------------------------

  lemma NodesLoad(rows: seq<FlowRow>, rest: seq<string>, o: Overlay)
    requires AllRowsOk(rows) && Stops(rest)
    ensures LoadFrom([Heading("nodes", "")] + (RowLines(rows) + [""] + rest), o)
         == LoadFrom(rest, o.(nodes := Rows(rows, o.nodes)))
  {
    hide NodesOf, RowLines, Rows, Stops, LoadFrom;
    SectionNames();
    HeadingLoads("nodes", "", RowLines(rows) + [""] + rest, o);
    RowsRead(rows, rest, o.nodes);
  }

  lemma RoutingLoad(rows: seq<FlowRow>, rest: seq<string>, o: Overlay)
    requires AllRowsOk(rows) && Stops(rest)
    ensures LoadFrom([Heading("routing", "")] + (RowLines(rows) + [""] + rest), o)
         == LoadFrom(rest, o.(routing := Rows(rows, o.routing)))
  {
    hide RoutingOf, RowLines, Rows, Stops, LoadFrom;
    SectionNames();
    HeadingLoads("routing", "", RowLines(rows) + [""] + rest, o);
    RowsRead(rows, rest, o.routing);
  }

  lemma EdgesLoad(edges: seq<Edge>, rest: seq<string>, o: Overlay)
    requires AllEdgesOk(edges) && Stops(rest)
    ensures LoadFrom([Heading("edges", "")] + (EdgeLines(edges) + [""] + rest), o)
         == LoadFrom(rest, o.(edges := o.edges + edges))
  {
    hide EdgesOf, EdgeLines, Stops, LoadFrom;
    SectionNames();
    HeadingLoads("edges", "", EdgeLines(edges) + [""] + rest, o);
    EdgesRead(edges, rest, o.edges);
  }

  lemma OwnersLoad(owners: seq<string>, rest: seq<string>, o: Overlay)
    requires AllNames(owners)
    ensures LoadFrom([Heading("data_owners", " " + SeqBody(owners))] + rest, o)
         == LoadFrom(rest, o.(dataOwners := owners))
  {
    hide SeqBody, LoadFrom, FlowSeq, AllNames, Trim;
    SectionNames();
    var body := SeqBody(owners);
    HeadingLoads("data_owners", " " + body, rest, o);
    SeqBodyTight(owners);
    TrimPad(" ", body, "");
    assert " " + body + "" == " " + body && "" + body == body;
    FlowSeqReads("", owners);
  }
}
