/** load_overlay: the section loops that read nodes, edges, routing rows and data owners. */
module Overlays {
  import opened OverlayText

  type Row = map<string, string>

  datatype Overlay = Overlay(nodes: map<string, Row>, edges: seq<(string, string)>,
                             routing: map<string, Row>, dataOwners: seq<string>)

  const EMPTY := Overlay(map[], [], map[], [])

  // --- Lines ------------------------------------------------------------------------------

  function RTrim(s: string): string
  {
    if s != "" && s[|s| - 1] in {'\r', '\n', ' '} then RTrim(s[..|s| - 1]) else s
  }

  /** A line without its comment and trailing blanks. */
  function CleanLine(raw: string): string
  {
    RTrim(raw[..Find(raw, '#')])
  }

  function Leading(s: string): (n: nat)
    ensures n <= |s| && (forall k :: 0 <= k < n ==> s[k] == ' ') && (n < |s| ==> s[n] != ' ')
  {
    if s == "" || s[0] != ' ' then 0 else 1 + Leading(s[1..])
  }

  predicate Blank(line: string)
  {
    Trim(line) == ""
  }

  predicate InBlock(line: string, indent: nat)
  {
    Blank(line) || Leading(line) >= indent
  }

  // --- Sections: what they read, and the lines they leave -----------------------------------

  function EdgesOf(lines: seq<string>, acc: seq<(string, string)>): (r: (seq<(string, string)>, seq<string>))
    ensures |r.1| <= |lines|
  {
    if lines == [] || !InBlock(lines[0], 2) then (acc, lines) else
    var dash := Find(lines[0], '-');
    if Blank(lines[0]) || dash == |lines[0]| then EdgesOf(lines[1..], acc) else
    var pair := FlowSeq(lines[0][dash + 1..]);
    EdgesOf(lines[1..], if |pair| == 2 then acc + [(pair[0], pair[1])] else acc)
  }

  /** A routing row written as a block of deeper lines. */
  function BlockRow(lines: seq<string>, row: Row): (r: (Row, seq<string>))
    ensures |r.1| <= |lines|
  {
    if lines == [] || !InBlock(lines[0], 4) then (row, lines) else
    var colon := Find(lines[0], ':');
    BlockRow(lines[1..], if Blank(lines[0]) || colon == |lines[0]| then row
                         else row[Trim(lines[0][..colon]) := Dequote(Trim(lines[0][colon + 1..]))])
  }

  datatype Section = Read(rows: map<string, Row>, rest: seq<string>) | Bad(body: string)

  function RoutingOf(lines: seq<string>, acc: map<string, Row>): (r: Section)
    ensures r.Read? ==> |r.rest| <= |lines|
    decreases |lines|
  {
    if lines == [] || !InBlock(lines[0], 2) then Read(acc, lines) else
    if Blank(lines[0]) || Leading(lines[0]) != 2 then RoutingOf(lines[1..], acc) else
    var colon := Find(lines[0], ':');
    var src, body := Trim(Before(lines[0], colon)), Trim(Behind(lines[0], colon));
    if body != "" && body[0] == '{' then
      var row := FlowMap(body);
      if row.BadFlowMap? then Bad(body) else RoutingOf(lines[1..], acc[src := row.value])
    else
      var (row, rest) := BlockRow(lines[1..], map[]);
      RoutingOf(rest, acc[src := row])
  }

  function NodesOf(lines: seq<string>, acc: map<string, Row>): (r: Section)
    ensures r.Read? ==> |r.rest| <= |lines|
  {
    if lines == [] || !InBlock(lines[0], 2) then Read(acc, lines) else
    if Blank(lines[0]) then NodesOf(lines[1..], acc) else
    var colon := Find(lines[0], ':');
    var body := Trim(Behind(lines[0], colon));
    var row := FlowMap(body);
    if row.BadFlowMap? then Bad(body) else NodesOf(lines[1..], acc[Trim(Before(lines[0], colon)) := row.value])
  }

  function SkipBlock(lines: seq<string>): (r: seq<string>)
    ensures |r| <= |lines|
  {
    if lines == [] || !InBlock(lines[0], 2) then lines else SkipBlock(lines[1..])
  }

  /** The whole file; settings and unknown sections are skipped over. */
  function LoadFrom(lines: seq<string>, o: Overlay): Result<Overlay>
    decreases |lines|, 0
  {
    if lines == [] then Ok(o) else
    var line, rest := lines[0], lines[1..];
    var colon := Find(line, ':');
    if Blank(line) || Leading(line) != 0 || colon == |line| then LoadFrom(rest, o) else
    LoadSection(Trim(line[..colon]), Trim(line[colon + 1..]), rest, o)
  }

  function LoadSection(key: string, value: string, rest: seq<string>, o: Overlay): Result<Overlay>
    decreases |rest|, 1
  {
    if key == "nodes" then
      var s := NodesOf(rest, o.nodes);
      if s.Bad? then BadFlowMap(s.body) else LoadFrom(s.rest, o.(nodes := s.rows))
    else if key == "edges" then
      var (edges, more) := EdgesOf(rest, o.edges);
      LoadFrom(more, o.(edges := edges))
    else if key == "routing" then
      var s := RoutingOf(rest, o.routing);
      if s.Bad? then BadFlowMap(s.body) else LoadFrom(s.rest, o.(routing := s.rows))
    else if key == "data_owners" then
      LoadFrom(rest, if value == "" then o else o.(dataOwners := FlowSeq(value)))
    else LoadFrom(SkipBlock(rest), o)
  }

  /** A file without any node is refused. */
  function Load(lines: seq<string>): Result<Overlay>
  {
    var r := LoadFrom(lines, EMPTY);
    if r.Ok? && r.value.nodes == map[] then NoNodes else r
  }

  // --- The loops --------------------------------------------------------------------------

  method ReadEdges(lines: seq<string>, i: nat, acc: seq<(string, string)>)
    returns (edges: seq<(string, string)>, j: nat)
    requires i <= |lines|
    ensures i <= j <= |lines| && (edges, lines[j..]) == EdgesOf(lines[i..], acc)
  {
    hide Blank, Leading, Find, FlowSeq;
    edges, j := acc, i;
    while j < |lines| && InBlock(lines[j], 2)
      invariant i <= j <= |lines| && EdgesOf(lines[j..], edges) == EdgesOf(lines[i..], acc)
    {
      assert lines[j..][1..] == lines[j + 1..];
      var line := lines[j];
      var dash := Find(line, '-');
      if !Blank(line) && dash < |line| {
        var pair := ParseFlowSeq(line[dash + 1..]);
        if |pair| == 2 {
          edges := edges + [(pair[0], pair[1])];
        }
      }
      j := j + 1;
    }
  }

  method ReadBlockRow(lines: seq<string>, i: nat) returns (row: Row, j: nat)
    requires i <= |lines|
    ensures i <= j <= |lines| && (row, lines[j..]) == BlockRow(lines[i..], map[])
  {
    hide Blank, Leading, Find, Trim, Dequote;
    row, j := map[], i;
    while j < |lines| && InBlock(lines[j], 4)
      invariant i <= j <= |lines| && BlockRow(lines[j..], row) == BlockRow(lines[i..], map[])
    {
      assert lines[j..][1..] == lines[j + 1..];
      var line := lines[j];
      var colon := Find(line, ':');
      if !Blank(line) && colon < |line| {
        row := row[Trim(line[..colon]) := Dequote(Trim(line[colon + 1..]))];
      }
      j := j + 1;
    }
  }

  method ReadRouting(lines: seq<string>, i: nat,
          acc: map<string, Row>) returns (ok: bool, rows: map<string, Row>, j: nat, bad: string)
    requires i <= |lines|
    ensures i <= j <= |lines|
    ensures RoutingOf(lines[i..], acc) == if ok then Read(rows, lines[j..]) else Bad(bad)
  {
    hide Blank, Leading, Find, Trim, Before, Behind, FlowMap, BlockRow;
    ok, rows, j, bad := true, acc, i, "";
    while j < |lines| && InBlock(lines[j], 2)
      invariant ok && i <= j <= |lines| && RoutingOf(lines[j..], rows) == RoutingOf(lines[i..], acc)
    {
      assert lines[j..][1..] == lines[j + 1..];
      var line := lines[j];
      if Blank(line) || Leading(line) != 2 {
        j := j + 1;
      } else {
        var colon := Find(line, ':');
        var src, body := Trim(Before(line, colon)), Trim(Behind(line, colon));
        var row: Row;
        if body != "" && body[0] == '{' {
          var r := ParseFlowMap(body);
          if r.BadFlowMap? {
            ok, bad := false, body;
            return;
          }
          row := r.value;
          j := j + 1;
        } else {
          row, j := ReadBlockRow(lines, j + 1);
        }
        rows := rows[src := row];
      }
    }
  }

  method ReadNodes(lines: seq<string>, i: nat,
          acc: map<string, Row>) returns (ok: bool, rows: map<string, Row>, j: nat, bad: string)
    requires i <= |lines|
    ensures i <= j <= |lines|
    ensures NodesOf(lines[i..], acc) == if ok then Read(rows, lines[j..]) else Bad(bad)
  {
    hide Blank, Leading, Find, Trim, Before, Behind, FlowMap;
    ok, rows, j, bad := true, acc, i, "";
    while j < |lines| && InBlock(lines[j], 2)
      invariant ok && i <= j <= |lines| && NodesOf(lines[j..], rows) == NodesOf(lines[i..], acc)
    {
      assert lines[j..][1..] == lines[j + 1..];
      var line := lines[j];
      if !Blank(line) {
        var colon := Find(line, ':');
        var body := Trim(Behind(line, colon));
        var r := ParseFlowMap(body);
        if r.BadFlowMap? {
          ok, bad := false, body;
          return;
        }
        rows := rows[Trim(Before(line, colon)) := r.value];
      }
      j := j + 1;
    }
  }

  method SkipSection(lines: seq<string>, i: nat) returns (j: nat)
    requires i <= |lines|
    ensures i <= j <= |lines| && lines[j..] == SkipBlock(lines[i..])
  {
    j := i;
    while j < |lines| && InBlock(lines[j], 2)
      invariant i <= j <= |lines| && SkipBlock(lines[j..]) == SkipBlock(lines[i..])
    {
      assert lines[j..][1..] == lines[j + 1..];
      j := j + 1;
    }
  }

  method LoadOverlay(lines: seq<string>) returns (r: Result<Overlay>)
    ensures r == Load(lines)
  {
    hide Blank, Leading, Find, Trim, FlowSeq, EdgesOf, RoutingOf, NodesOf, SkipBlock;
    var o, i := EMPTY, 0;
    assert lines[0..] == lines;
    while i < |lines|
      invariant i <= |lines| && LoadFrom(lines[i..], o) == LoadFrom(lines, EMPTY)
      decreases |lines| - i
    {
      assert lines[i..][1..] == lines[i + 1..];
      var line := lines[i];
      var colon := Find(line, ':');
      i := i + 1;
      if !Blank(line) && Leading(line) == 0 && colon < |line| {
        var key, value := Trim(line[..colon]), Trim(line[colon + 1..]);
        if key == "nodes" {
          var ok, rows, j, bad := ReadNodes(lines, i, o.nodes);
          if !ok {
            return BadFlowMap(bad);
          }
          o, i := o.(nodes := rows), j;
        } else if key == "edges" {
          var edges, j := ReadEdges(lines, i, o.edges);
          o, i := o.(edges := edges), j;
        } else if key == "routing" {
          var ok, rows, j, bad := ReadRouting(lines, i, o.routing);
          if !ok {
            return BadFlowMap(bad);
          }
          o, i := o.(routing := rows), j;
        } else if key == "data_owners" {
          if value != "" {
            var owners := ParseFlowSeq(value);
            o := o.(dataOwners := owners);
          }
        } else {
          i := SkipSection(lines, i);
        }
      }
    }
    r := if o.nodes == map[] then NoNodes else Ok(o);
  }
}
