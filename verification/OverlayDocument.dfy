/** The whole overlay file: printed by the generator, cleaned line by line, loaded. */
module OverlayDocument {
  import opened OverlayText
  import opened Overlays
  import opened OverlayRoundTrip
  import opened OverlayFile

  /** A section the loader only skips over here: chunking, scheduler, network. */
  datatype Setting = Setting(key: string, values: seq<string>)
  {
    ghost predicate Ok()
    {
      && Name(key) && key !in {"nodes", "edges", "routing", "data_owners"}
      && forall k :: 0 <= k < |values| ==> Tight(values[k]) && Plain(values[k])
    }
  }

  datatype Doc = Doc(comments: seq<string>, nodes: seq<FlowRow>, edges: seq<Edge>,
                     routing: seq<FlowRow>, owners: seq<string>, settings: seq<Setting>)
  {
    ghost predicate Ok()
    {
      && (forall k :: 0 <= k < |comments| ==> '\n' !in comments[k])
      && AllRowsOk(nodes) && AllEdgesOk(edges) && AllRowsOk(routing) && AllNames(owners)
      && (forall k :: 0 <= k < |settings| ==> settings[k].Ok())
    }
  }

  // --- Printing ---------------------------------------------------------------------------

  function CommentLines(cs: seq<string>): seq<string>
  {
    if cs == [] then [] else ["#" + cs[0]] + CommentLines(cs[1..])
  }

  function ValueLines(vs: seq<string>): seq<string>
  {
    if vs == [] then [] else ["  " + vs[0]] + ValueLines(vs[1..])
  }

  function SettingLines(ss: seq<Setting>): seq<string>
  {
    if ss == [] then [] else ["", Heading(ss[0].key, "")] + ValueLines(ss[0].values) + SettingLines(ss[1..])
  }

  function OwnerLines(d: Doc): seq<string>
  {
    [Heading("data_owners", " " + SeqBody(d.owners))] + SettingLines(d.settings)
  }

  function RoutingLines(d: Doc): seq<string>
  {
    [Heading("routing", "")] + (RowLines(d.routing) + [""] + OwnerLines(d))
  }

  function EdgeSection(d: Doc): seq<string>
  {
    [Heading("edges", "")] + (EdgeLines(d.edges) + [""] + RoutingLines(d))
  }

  function NodeSection(d: Doc): seq<string>
  {
    [Heading("nodes", "")] + (RowLines(d.nodes) + [""] + EdgeSection(d))
  }

  /** The lines of the file, in the order emit_yaml prints them. */
  function FileLines(d: Doc): seq<string>
  {
    CommentLines(d.comments) + ([""] + NodeSection(d))
  }

  /** The overlay a document stands for. */
  function Meaning(d: Doc): Overlay
  {
    Overlay(Rows(d.nodes, map[]), d.edges, Rows(d.routing, map[]), d.owners)
  }

  // --- Skipped sections ----------------------------------------------------------------------

  lemma {:induction false} ValuesSkipped(vs: seq<string>, rest: seq<string>)
    requires forall k :: 0 <= k < |vs| ==> Tight(vs[k])
    ensures SkipBlock(ValueLines(vs) + rest) == SkipBlock(rest)
    decreases |vs|
  {
    hide Blank, Leading, Tight;
    if vs == [] {
      assert ValueLines(vs) + rest == rest;
    } else {
      var more := ValueLines(vs[1..]) + rest;
      assert ValueLines(vs) + rest == ["  " + vs[0]] + more;
      assert (["  " + vs[0]] + more)[1..] == more;
      IndentedLine("  ", vs[0]);
      ValuesSkipped(vs[1..], rest);
    }
  }

  /** The skipping loop stops in front of the next heading; the blank line there is no loss. */
  lemma SkipToNext(ss: seq<Setting>, o: Overlay)
    requires forall k :: 0 <= k < |ss| ==> ss[k].Ok()
    ensures LoadFrom(SkipBlock(SettingLines(ss)), o) == LoadFrom(SettingLines(ss), o)
  {
    if ss != [] {
      hide LoadFrom, ValueLines, Leading, Find, Trim;
      var more := [Heading(ss[0].key, "")] + (ValueLines(ss[0].values) + SettingLines(ss[1..]));
      var lines := SettingLines(ss);
      assert lines == [""] + more && lines[1..] == more;
      SectionNames();
      BlankLoads("", more, o);
      HeadingLoads(ss[0].key, "", ValueLines(ss[0].values) + SettingLines(ss[1..]), o);
      assert SkipBlock(lines) == SkipBlock(more) == more;
    }
  }

  lemma OtherSection(key: string, rest: seq<string>, o: Overlay)
    requires key !in {"nodes", "edges", "routing", "data_owners"}
    ensures LoadSection(key, "", rest, o) == LoadFrom(SkipBlock(rest), o)
  {
  }

  lemma {:induction false} SettingsLoad(ss: seq<Setting>, o: Overlay)
    requires forall k :: 0 <= k < |ss| ==> ss[k].Ok()
    ensures LoadFrom(SettingLines(ss), o) == OverlayText.Ok(o)
    decreases |ss|
  {
    if ss != [] {
      hide LoadFrom, LoadSection, ValueLines, SkipBlock, Heading, Trim;
      var rest := ValueLines(ss[0].values) + SettingLines(ss[1..]);
      assert SettingLines(ss) == [""] + ([Heading(ss[0].key, "")] + rest);
      SectionNames();
      BlankLoads("", [Heading(ss[0].key, "")] + rest, o);
      HeadingLoads(ss[0].key, "", rest, o);
      OtherSection(ss[0].key, rest, o);
      ValuesSkipped(ss[0].values, SettingLines(ss[1..]));
      SkipToNext(ss[1..], o);
      SettingsLoad(ss[1..], o);
    }
  }

  // --- The cleaned file loads -----------------------------------------------------------------

  /** The file's lines after cleaning: comments become blank lines. */
  function CleanComments(n: nat): seq<string>
  {
    if n == 0 then [] else [""] + CleanComments(n - 1)
  }

  function CleanFile(d: Doc): seq<string>
  {
    CleanComments(|d.comments|) + ([""] + NodeSection(d))
  }

  lemma {:induction false} BlanksLoad(n: nat, rest: seq<string>, o: Overlay)
    ensures LoadFrom(CleanComments(n) + rest, o) == LoadFrom(rest, o)
  {
    hide LoadFrom;
    if n == 0 {
      assert CleanComments(n) + rest == rest;
    } else {
      assert CleanComments(n) + rest == [""] + (CleanComments(n - 1) + rest);
      SectionNames();
      BlankLoads("", CleanComments(n - 1) + rest, o);
      BlanksLoad(n - 1, rest, o);
    }
  }

  lemma SectionsLoad(d: Doc)
    requires d.Ok()
    ensures LoadFrom(NodeSection(d), EMPTY) == OverlayText.Ok(Meaning(d))
  {
    hide LoadFrom, Stops, RowLines, EdgeLines, SettingLines, SeqBody, Rows, Heading, Name;
    SectionNames();
    var o1 := EMPTY.(nodes := Rows(d.nodes, map[]));
    var o2 := o1.(edges := d.edges);
    var o3 := o2.(routing := Rows(d.routing, map[]));
    HeadingLoads("edges", "", EdgeLines(d.edges) + [""] + RoutingLines(d), EMPTY);
    HeadingLoads("routing", "", RowLines(d.routing) + [""] + OwnerLines(d), EMPTY);
    HeadingLoads("data_owners", " " + SeqBody(d.owners), SettingLines(d.settings), EMPTY);
    NodesLoad(d.nodes, EdgeSection(d), EMPTY);
    EdgesLoad(d.edges, RoutingLines(d), o1);
    assert [] + d.edges == d.edges;
    RoutingLoad(d.routing, OwnerLines(d), o2);
    OwnersLoad(d.owners, SettingLines(d.settings), o3);
    SettingsLoad(d.settings, o3.(dataOwners := d.owners));
  }

  lemma CleanFileLoads(d: Doc)
    requires d.Ok()
    ensures Load(CleanFile(d)) == if d.nodes == [] then OverlayText.NoNodes else OverlayText.Ok(Meaning(d))
  {
    hide LoadFrom, NodeSection, Rows, CleanComments;
    var rest := NodeSection(d);
    BlanksLoad(|d.comments|, [""] + rest, EMPTY);
    SectionNames();
    BlankLoads("", rest, EMPTY);
    SectionsLoad(d);
    RowsKept(d.nodes, map[]);
  }

  lemma {:induction false} RowsKept(rows: seq<FlowRow>, acc: map<string, Row>)
    ensures Rows(rows, acc) == map[] <==> rows == [] && acc == map[]
    decreases |rows|
  {
    if rows != [] {
      var acc' := acc[rows[0].name := RowOf(rows[0].items, map[])];
      assert rows[0].name in acc';
      RowsKept(rows[1..], acc');
    }
  }

  // --- Lines and text -------------------------------------------------------------------------

  function CleanAll(lines: seq<string>): seq<string>
  {
    if lines == [] then [] else [CleanLine(lines[0])] + CleanAll(lines[1..])
  }

  lemma {:induction false} CleanConcat(a: seq<string>, b: seq<string>)
    ensures CleanAll(a + b) == CleanAll(a) + CleanAll(b)
    decreases |a|
  {
    hide CleanLine;
    if a == [] {
      assert a + b == b;
    } else {
      assert (a + b)[1..] == a[1..] + b;
      CleanConcat(a[1..], b);
    }
  }

  /** Stays on its line and has no comment. */
  predicate Inline(s: string)
  {
    '#' !in s && '\n' !in s
  }

  lemma InlineConcat(a: string, b: string)
    requires Inline(a) && Inline(b)
    ensures Inline(a + b)
  {
  }

  lemma PlainInline(s: string)
    requires Plain(s)
    ensures Inline(s)
  {
  }

  /** A line that cleaning leaves alone. */
  ghost predicate Settled(line: string)
  {
    Inline(line) && CleanLine(line) == line
  }

  ghost predicate AllSettled(lines: seq<string>)
  {
    forall k :: 0 <= k < |lines| ==> Settled(lines[k])
  }

  lemma {:induction false} CleanSettled(lines: seq<string>)
    requires AllSettled(lines)
    ensures CleanAll(lines) == lines
    decreases |lines|
  {
    hide CleanLine;
    if lines != [] {
      assert Settled(lines[0]);
      CleanSettled(lines[1..]);
    }
  }

  lemma Settle(s: string)
    requires Inline(s) && (s != "" ==> s[|s| - 1] !in {'\r', '\n', ' '})
    ensures Settled(s)
  {
    CleanPlain(s);
  }

  lemma SettledConcat(a: seq<string>, b: seq<string>)
    requires AllSettled(a) && AllSettled(b)
    ensures AllSettled(a + b)
  {
    hide Settled;
  }

  lemma RowSettled(row: FlowRow)
    requires row.Ok()
    ensures Settled(row.Line())
  {
    hide Settled, Inline, ShowItems, AllOk, Name, Plain;
    var show := ShowItems(row.items);
    NamePlain(row.name);
    PlainInline(row.name);
    ItemsPlain(row.items);
    PlainInline(show);
    ShortInline();
    InlineConcat("  ", row.name);
    InlineConcat("  " + row.name, ": ");
    InlineConcat("{ ", show);
    InlineConcat("{ " + show, " }");
    InlineConcat("  " + row.name + ": ", FlowBody(row.items));
    FlowBodyTight(row.items);
    Settle(row.Line());
  }

  /** The fixed pieces of the format. */
  lemma ShortInline()
    ensures Inline("") && Inline(" ") && Inline("  ") && Inline(": ") && Inline(":") && Inline("{ ") && Inline(" }")
    ensures Inline("  - ") && Inline("[") && Inline("]")
  {
  }

  lemma SeqInline(names: seq<string>)
    requires AllNames(names)
    ensures Inline(SeqBody(names)) && SeqBody(names) != "" && SeqBody(names)[|SeqBody(names)| - 1] == ']'
  {
    hide Inline, ShowNames, AllNames, Plain;
    NamesPlain(names);
    PlainInline(ShowNames(names));
    ShortInline();
    InlineConcat("[", ShowNames(names));
    InlineConcat("[" + ShowNames(names), "]");
  }

  lemma EdgeSettled(e: Edge)
    requires Name(e.0) && Name(e.1)
    ensures Settled(EdgeLine(e))
  {
    hide Settled, Inline, SeqBody;
    SeqInline([e.0, e.1]);
    ShortInline();
    InlineConcat("  - ", SeqBody([e.0, e.1]));
    Settle(EdgeLine(e));
  }

  lemma HeadingSettled(key: string, value: string)
    requires Name(key) && Inline(value) && (value != "" ==> value[|value| - 1] !in {'\r', '\n', ' '})
    ensures Settled(Heading(key, value))
  {
    hide Settled, Inline, Name, Plain;
    NamePlain(key);
    PlainInline(key);
    ShortInline();
    InlineConcat(key, ":");
    InlineConcat(key + ":", value);
    Settle(Heading(key, value));
  }

  lemma {:induction false} RowsSettled(rows: seq<FlowRow>)
    requires AllRowsOk(rows)
    ensures AllSettled(RowLines(rows))
    decreases |rows|
  {
    hide Settled;
    if rows != [] {
      assert rows[0].Ok();
      RowSettled(rows[0]);
      RowsSettled(rows[1..]);
    }
  }

  lemma {:induction false} EdgesSettled(edges: seq<Edge>)
    requires AllEdgesOk(edges)
    ensures AllSettled(EdgeLines(edges))
    decreases |edges|
  {
    hide Settled, Name, EdgeLine;
    if edges != [] {
      EdgeSettled(edges[0]);
      EdgesSettled(edges[1..]);
    }
  }

  lemma {:induction false} ValuesSettled(vs: seq<string>)
    requires forall k :: 0 <= k < |vs| ==> Tight(vs[k]) && Plain(vs[k])
    ensures AllSettled(ValueLines(vs))
    decreases |vs|
  {
    hide Settled, Plain, Inline;
    if vs != [] {
      PlainInline(vs[0]);
      ShortInline();
      InlineConcat("  ", vs[0]);
      Settle("  " + vs[0]);
      ValuesSettled(vs[1..]);
    }
  }

  lemma {:induction false} SettingsSettled(ss: seq<Setting>)
    requires forall k :: 0 <= k < |ss| ==> ss[k].Ok()
    ensures AllSettled(SettingLines(ss))
    decreases |ss|
  {
    hide Settled, Inline, Heading, ValueLines, Name, Plain, Tight;
    if ss != [] {
      var s := ss[0];
      ShortInline();
      Settle("");
      HeadingSettled(s.key, "");
      ValuesSettled(s.values);
      SettingsSettled(ss[1..]);
      SettledConcat(["", Heading(s.key, "")], ValueLines(s.values));
      SettledConcat(["", Heading(s.key, "")] + ValueLines(s.values), SettingLines(ss[1..]));
    }
  }

  lemma SectionsSettled(d: Doc)
    requires d.Ok()
    ensures AllSettled(NodeSection(d))
  {
    hide Settled, Inline, Heading, RowLines, EdgeLines, SettingLines, SeqBody, Name;
    SectionNames();
    ShortInline();
    Settle("");
    HeadingSettled("nodes", "");
    HeadingSettled("edges", "");
    HeadingSettled("routing", "");
    SeqInline(d.owners);
    InlineConcat(" ", SeqBody(d.owners));
    HeadingSettled("data_owners", " " + SeqBody(d.owners));
    RowsSettled(d.nodes);
    EdgesSettled(d.edges);
    RowsSettled(d.routing);
    SettingsSettled(d.settings);
  }

  lemma {:induction false} CommentsClean(cs: seq<string>)
    ensures CleanAll(CommentLines(cs)) == CleanComments(|cs|)
    decreases |cs|
  {
    hide CleanLine;
    if cs != [] {
      CleanComment(cs[0]);
      CommentsClean(cs[1..]);
    }
  }

  lemma FileCleans(d: Doc)
    requires d.Ok()
    ensures CleanAll(FileLines(d)) == CleanFile(d)
  {
    hide CleanAll, NodeSection, CommentLines, CleanComments, Settled;
    SectionsSettled(d);
    ShortInline();
    Settle("");
    CleanSettled([""] + NodeSection(d));
    CommentsClean(d.comments);
    CleanConcat(CommentLines(d.comments), [""] + NodeSection(d));
  }

  /** Lines joined by newlines. */
  function Join(lines: seq<string>): string
  {
    if lines == [] then "" else
    if |lines| == 1 then lines[0] else lines[0] + "\n" + Join(lines[1..])
  }

  /** The lines of a text; a final newline does not start another one. */
  function GetLines(text: string): seq<string>
    decreases |text|
  {
    if text == "" then [] else
    var nl := Find(text, '\n');
    if nl == |text| then [text] else [text[..nl]] + GetLines(text[nl + 1..])
  }

  lemma {:induction false} GetJoined(lines: seq<string>)
    requires forall k :: 0 <= k < |lines| ==> '\n' !in lines[k]
    ensures GetLines(Join(lines + [""])) == lines
    decreases |lines|
  {
    if lines == [] {
      assert lines + [""] == [""];
    } else {
      var rest := Join(lines[1..] + [""]);
      assert (lines + [""])[1..] == lines[1..] + [""];
      var text := lines[0] + "\n" + rest;
      assert Join(lines + [""]) == text;
      FindIs(text, '\n', |lines[0]|);
      assert text[..|lines[0]|] == lines[0] && text[|lines[0]| + 1..] == rest;
      GetJoined(lines[1..]);
    }
  }

  lemma {:induction false} CommentsInline(cs: seq<string>)
    requires forall k :: 0 <= k < |cs| ==> '\n' !in cs[k]
    ensures forall k :: 0 <= k < |CommentLines(cs)| ==> '\n' !in CommentLines(cs)[k]
    decreases |cs|
  {
    if cs != [] {
      CommentsInline(cs[1..]);
    }
  }

  lemma FileOnLines(d: Doc)
    requires d.Ok()
    ensures forall k :: 0 <= k < |FileLines(d)| ==> '\n' !in FileLines(d)[k]
  {
    hide NodeSection, CommentLines, CleanLine;
    SectionsSettled(d);
    CommentsInline(d.comments);
    var sections := NodeSection(d);
    forall k | 0 <= k < |FileLines(d)|
      ensures '\n' !in FileLines(d)[k]
    {
      var m := |d.comments|;
      CommentCount(d.comments);
      if k > m {
        assert FileLines(d)[k] == sections[k - m - 1];
        assert Settled(sections[k - m - 1]);
      }
    }
  }

  lemma {:induction false} CommentCount(cs: seq<string>)
    ensures |CommentLines(cs)| == |cs|
    decreases |cs|
  {
    if cs != [] {
      CommentCount(cs[1..]);
    }
  }

  /** Reading inverts printing: the text the generator prints, for names the format can carry,
      is loaded as exactly the nodes, edges, routing rows and data owners that were printed.
      (A file without nodes is refused.) */
  lemma FileReadsBack(d: Doc)
    requires d.Ok()
    ensures Load(CleanAll(GetLines(Join(FileLines(d) + [""]))))
         == if d.nodes == [] then OverlayText.NoNodes else OverlayText.Ok(Meaning(d))
  {
    hide *;
    FileOnLines(d);
    GetJoined(FileLines(d));
    FileCleans(d);
    CleanFileLoads(d);
  }

  // --- Routing tables ---------------------------------------------------------------------------

  function RowItems(names: seq<string>, row: Row): seq<Item>
    requires forall k :: 0 <= k < |names| ==> names[k] in row
  {
    if names == [] then [] else [Item(names[0], row[names[0]])] + RowItems(names[1..], row)
  }

  /** One row per node, listing its next hop to every node, in node order. */
  function TableRows(sources: seq<string>, names: seq<string>, table: map<string, Row>): seq<FlowRow>
    requires forall k :: 0 <= k < |sources| ==> sources[k] in table
    requires forall k, src :: 0 <= k < |names| && src in table ==> names[k] in table[src]
  {
    if sources == [] then [] else
    [FlowRow(sources[0], RowItems(names, table[sources[0]]))] + TableRows(sources[1..], names, table)
  }

  lemma {:induction false} RowReads(names: seq<string>, row: Row, acc: Row)
    requires forall k :: 0 <= k < |names| ==> names[k] in row
    ensures var r := RowOf(RowItems(names, row), acc);
            && (forall x :: x in r <==> x in acc || x in names)
            && (forall x :: x in r ==> r[x] == if x in names then row[x] else acc[x])
    decreases |names|
  {
    if names != [] {
      var item := Item(names[0], row[names[0]]);
      assert RowItems(names, row)[1..] == RowItems(names[1..], row);
      RowReads(names[1..], row, acc[item.key := item.value]);
    }
  }

  /** Row `x` of the table after reading the rows of `sources` on top of `acc`. */
  lemma {:induction false} TableReads(sources: seq<string>, names: seq<string>, table: map<string, Row>,
          acc: map<string, Row>, x: string)
    requires forall k :: 0 <= k < |sources| ==> sources[k] in table
    requires forall k, src :: 0 <= k < |names| && src in table ==> names[k] in table[src]
    requires forall src, dst :: src in table && dst in table[src] ==> dst in names
    ensures var r := Rows(TableRows(sources, names, table), acc);
            && (x in r <==> x in acc || x in sources)
            && (x in r ==> r[x] == if x in sources then table[x] else acc[x])
    decreases |sources|
  {
    hide RowItems, RowOf;
    if sources != [] {
      var src := sources[0];
      RowReadsBack(names, table[src]);
      assert TableRows(sources, names, table)[1..] == TableRows(sources[1..], names, table);
      TableReads(sources[1..], names, table, acc[src := table[src]], x);
    }
  }

  lemma RowReadsBack(names: seq<string>, row: Row)
    requires forall k :: 0 <= k < |names| ==> names[k] in row
    requires forall dst :: dst in row ==> dst in names
    ensures RowOf(RowItems(names, row), map[]) == row
  {
    RowReads(names, row, map[]);
  }

  /** A complete routing table over the nodes is loaded as the same table. */
  lemma RoutingReadsBack(names: seq<string>, table: map<string, Row>)
    requires forall x :: x in table <==> x in names
    requires forall src, dst :: src in table ==> (dst in table[src] <==> dst in names)
    ensures Rows(TableRows(names, names, table), map[]) == table
  {
    var r := Rows(TableRows(names, names, table), map[]);
    forall x: string
      ensures x in r <==> x in table
      ensures x in r ==> r[x] == table[x]
    {
      TableReads(names, names, table, map[], x);
    }
  }
}
