/** Overlays as people write them: padded and quoted fields, and routing rows in block form,
    one entry a line, beside rows in flow form.  All forms of a row are loaded alike. */
module OverlayForms {
  import opened OverlayText
  import opened Overlays
  import opened OverlayRoundTrip
  import opened OverlayFile
  import opened OverlayDocument

  // --- Fields ---------------------------------------------------------------------------------

  /** `key: value` with any padding; `quote` is what the value is quoted with, or empty. */
  datatype Field = Field(key: string, value: string, quote: string, pads: Pads)
  {
    /** A quoted value may contain anything, spaces and colons included. */
    ghost predicate Ok()
    {
      && Name(key) && pads.Ok()
      && (quote == "" || quote == "\"" || quote == "\'")
      && (quote == "" ==> Name(value))
    }

    function Shown(): string
    {
      quote + value + quote
    }

    function Text(): string
    {
      pads.a + key + pads.b + ":" + (pads.c + Shown() + pads.d)
    }
  }

  /** White space in front of the key, behind it, in front of the value and behind it. */
  datatype Pads = Pads(a: string, b: string, c: string, d: string)
  {
    ghost predicate Ok()
    {
      Padding(a) && Padding(b) && Padding(c) && Padding(d)
    }
  }

  /** Consists of the white space characters of the C locale. */
  ghost predicate Padding(s: string)
  {
    forall k :: 0 <= k < |s| ==> s[k] in {' ', '\t', '\n', '\r', '\U{0B}', '\U{0C}'}
  }

  lemma PaddingIsSpace(p: Pads)
    requires p.Ok()
    ensures AllSpace(p.a) && AllSpace(p.b) && AllSpace(p.c) && AllSpace(p.d)
  {
  }

  /** The row that a list of fields stands for; the last of equal keys counts. */
  function FieldsRow(fields: seq<Field>, acc: Row): Row
  {
    if fields == [] then acc else FieldsRow(fields[1..], acc[fields[0].key := fields[0].value])
  }

  /** What a row says of a key: the value of its last entry. */
  lemma {:induction false} FieldsRowIs(fields: seq<Field>, acc: Row, k: nat)
    requires k < |fields| && forall j :: k < j < |fields| ==> fields[j].key != fields[k].key
    ensures fields[k].key in FieldsRow(fields, acc) && FieldsRow(fields, acc)[fields[k].key] == fields[k].value
    decreases |fields|
  {
    var acc' := acc[fields[0].key := fields[0].value];
    if k == 0 {
      FieldsRowKeeps(fields[1..], acc', fields[0].key);
    } else {
      FieldsRowIs(fields[1..], acc', k - 1);
    }
  }

  /** A key without an entry keeps what it had. */
  lemma {:induction false} FieldsRowKeeps(fields: seq<Field>, acc: Row, x: string)
    requires forall j :: 0 <= j < |fields| ==> fields[j].key != x
    ensures x in FieldsRow(fields, acc) <==> x in acc
    ensures x in acc ==> FieldsRow(fields, acc)[x] == acc[x]
    decreases |fields|
  {
    if fields != [] {
      FieldsRowKeeps(fields[1..], acc[fields[0].key := fields[0].value], x);
    }
  }

  /** One pair of outer quotes goes, and everything between them stays. */
  lemma DequoteQuoted(q: char, value: string)
    requires q == '"' || q == '\''
    ensures Tight([q] + value + [q]) && Dequote([q] + value + [q]) == value
  {
    hide Trim;
    var s := [q] + value + [q];
    assert s[0] == q && s[|s| - 1] == q && !Space(q);
    TrimPad("", s, "");
    assert "" + s + "" == s;
    assert s[1..|s| - 1] == value;
  }

  lemma ShownReads(f: Field)
    requires f.Ok()
    ensures Tight(f.Shown()) && Dequote(f.Shown()) == f.value
  {
    hide Trim, Dequote, Name, Tight;
    if f.quote == "" {
      NameTight(f.value);
      DequotePad("", f.value, "");
      assert "" + f.value + "" == f.value == f.Shown();
      TrimPad("", f.value, "");
    } else {
      DequoteQuoted(f.quote[0], f.value);
      assert f.Shown() == [f.quote[0]] + f.value + [f.quote[0]];
    }
  }

  lemma KeyFree(f: Field, c: char)
    requires f.Ok() && !Space(c) && !NameChar(c)
    ensures forall k :: 0 <= k < |f.pads.a + f.key + f.pads.b| ==> (f.pads.a + f.key + f.pads.b)[k] != c
  {
    PaddingIsSpace(f.pads);
    var front := f.pads.a + f.key + f.pads.b;
    forall k | 0 <= k < |front|
      ensures front[k] != c
    {
      if k < |f.pads.a| {
        assert Space(f.pads.a[k]);
      } else if k < |f.pads.a| + |f.key| {
        assert NameChar(f.key[k - |f.pads.a|]);
      } else {
        assert Space(f.pads.b[k - |f.pads.a| - |f.key|]);
      }
    }
  }

  /** A field reads as its key and its value. */
  lemma FieldReads(f: Field)
    requires f.Ok()
    ensures var s := f.Text();
            var colon := Find(s, ':');
            colon < |s| && Trim(s[..colon]) == f.key && Dequote(Trim(s[colon + 1..])) == f.value
  {
    hide Trim, Dequote, Name, Tight, Find;
    var s, front := f.Text(), f.pads.a + f.key + f.pads.b;
    ColonIsNoName();
    PaddingIsSpace(f.pads);
    KeyFree(f, ':');
    assert s[|front|] == ':' && s[..|front|] == front;
    FindIs(s, ':', |front|);
    NameTight(f.key);
    TrimPad(f.pads.a, f.key, f.pads.b);
    ShownReads(f);
    TrimPad(f.pads.c, f.Shown(), f.pads.d);
    assert s[|front| + 1..] == f.pads.c + f.Shown() + f.pads.d;
  }

  lemma ColonIsNoName()
    ensures !Space(':') && !NameChar(':') && !Space(',') && !NameChar(',')
  {
  }

  // --- Pieces -----------------------------------------------------------------------------------

  /** What a row is made of: entries, and pieces that are none because they have no colon. */
  datatype Piece = Gap(text: string) | Entry(field: Field)
  {
    function Text(): string
    {
      if Gap? then text else field.Text()
    }

    ghost predicate Ok()
    {
      if Gap? then ':' !in text else field.Ok()
    }
  }

  function FieldsOf(pieces: seq<Piece>): seq<Field>
  {
    if pieces == [] then [] else
    (if pieces[0].Gap? then [] else [pieces[0].field]) + FieldsOf(pieces[1..])
  }

  /** The row with one more piece read. */
  function With(p: Piece, acc: Row): Row
  {
    if p.Gap? then acc else acc[p.field.key := p.field.value]
  }

  lemma WithRow(pieces: seq<Piece>, acc: Row)
    requires pieces != []
    ensures FieldsRow(FieldsOf(pieces), acc) == FieldsRow(FieldsOf(pieces[1..]), With(pieces[0], acc))
  {
    if pieces[0].Gap? {
      assert FieldsOf(pieces) == FieldsOf(pieces[1..]);
    } else {
      assert FieldsOf(pieces)[1..] == FieldsOf(pieces[1..]);
    }
  }

  // --- Flow form --------------------------------------------------------------------------------

  function JoinPieces(pieces: seq<Piece>): string
  {
    if pieces == [] then "" else
    if |pieces| == 1 then pieces[0].Text() else pieces[0].Text() + "," + JoinPieces(pieces[1..])
  }

  /** Pieces that can stand between braces: none contains a comma. */
  ghost predicate FlowOk(pieces: seq<Piece>)
  {
    forall k :: 0 <= k < |pieces| ==>
      pieces[k].Ok() && ',' !in (if pieces[k].Gap? then pieces[k].text else pieces[k].field.value)
  }

  lemma PieceEntry(p: Piece, acc: Row)
    requires FlowOk([p])
    ensures Entries([p.Text()], acc) == With(p, acc)
    ensures forall k :: 0 <= k < |p.Text()| ==> p.Text()[k] != ','
  {
    hide Trim, Dequote, Find;
    assert [p][0] == p && [p.Text()][1..] == [];
    if p.Gap? {
      FindIs(p.text, ':', |p.text|);
    } else {
      FieldReads(p.field);
      NoCommaIn(p.field);
    }
  }

  lemma NoCommaIn(f: Field)
    requires f.Ok() && ',' !in f.value
    ensures forall k :: 0 <= k < |f.Text()| ==> f.Text()[k] != ','
  {
    var front, tail := f.pads.a + f.key + f.pads.b, f.pads.c + f.Shown() + f.pads.d;
    ColonIsNoName();
    PaddingIsSpace(f.pads);
    KeyFree(f, ',');
    forall k | 0 <= k < |tail|
      ensures tail[k] != ','
    {
      var n := |f.pads.c|;
      if k < n {
        assert Space(f.pads.c[k]);
      } else if k < n + |f.Shown()| {
        assert tail[k] == f.Shown()[k - n];
      } else {
        assert Space(f.pads.d[k - n - |f.Shown()|]);
      }
    }
    assert f.Text() == front + ":" + tail;
  }

  lemma PartsSingle(p: string, acc: Row)
    requires forall k :: 0 <= k < |p| ==> p[k] != ','
    ensures Entries(Parts(p), acc) == if p == "" then acc else Entries([p], acc)
  {
    hide Trim, Dequote, Find;
    if p != "" {
      PartsOne(p);
    }
  }

  lemma NothingEntered(acc: Row)
    ensures Entries([""], acc) == acc
  {
    assert [""][1..] == [];
  }

  lemma {:induction false} PiecesRead(pieces: seq<Piece>, acc: Row)
    requires FlowOk(pieces)
    ensures Entries(Parts(JoinPieces(pieces)), acc) == FieldsRow(FieldsOf(pieces), acc)
    decreases |pieces|
  {
    hide Entries, Parts, FieldsRow, FieldsOf, Piece.Ok, Piece.Text;
    if pieces == [] {
      NoParts(acc);
    } else {
      assert [pieces[0]][0] == pieces[0];
      PieceEntry(pieces[0], acc);
      WithRow(pieces, acc);
      if |pieces| == 1 {
        PartsSingle(pieces[0].Text(), acc);
        NothingEntered(acc);
        assert pieces[1..] == [];
        NoFields(With(pieces[0], acc));
      } else {
        PartsCons(pieces[0].Text(), JoinPieces(pieces[1..]));
        EntriesCons(pieces[0].Text(), Parts(JoinPieces(pieces[1..])), acc);
        PiecesRead(pieces[1..], With(pieces[0], acc));
      }
    }
  }

  lemma NoFields(acc: Row)
    ensures FieldsRow(FieldsOf([]), acc) == acc
  {
  }

  lemma NoParts(acc: Row)
    ensures Entries(Parts(""), acc) == acc == FieldsRow(FieldsOf([]), acc)
  {
  }

  /** A flow map reads as its entries, whatever the padding and the quotes; parts without a colon
      and a comma too many are skipped. */
  lemma FlowPiecesRead(pieces: seq<Piece>)
    requires FlowOk(pieces)
    ensures FlowMap("{" + JoinPieces(pieces) + "}") == OverlayText.Ok(FieldsRow(FieldsOf(pieces), map[]))
  {
    hide Entries, Parts, JoinPieces, FieldsRow, FieldsOf;
    var inner := JoinPieces(pieces);
    var body := "{" + inner + "}";
    FindIs(body, '{', 0);
    LastIs(body, '}');
    assert body[1..|body| - 1] == inner;
    PiecesRead(pieces, map[]);
  }

  lemma LastIs(s: string, c: char)
    requires s != "" && s[|s| - 1] == c
    ensures RFind(s, c) == |s| - 1
  {
  }

  /** Exactly which texts are no flow map: those without an opening brace and a closing one
      somewhere behind it. */
  lemma FlowMapRefuses(body: string)
    ensures FlowMap(body) == BadFlowMap(body) <==>
            !exists i, j :: 0 <= i < j < |body| && body[i] == '{' && body[j] == '}'
  {
    hide Find, RFind, Entries, Parts;
    var lb, rb := Find(body, '{'), RFind(body, '}');
    if i, j :| 0 <= i < j < |body| && body[i] == '{' && body[j] == '}' {
      assert lb <= i && rb < |body| && j <= rb;
    }
    if lb < |body| && rb < |body| && lb < rb {
      assert body[lb] == '{' && body[rb] == '}';
    }
  }

  // --- Block form -------------------------------------------------------------------------------

  /** An entry of a block is indented by four columns or more; a line without a colon is in the
      block if it is, or if it is blank. */
  ghost predicate InBlockForm(p: Piece)
  {
    && p.Ok()
    && if p.Gap? then InBlock(p.text, 4)
       else |p.field.pads.a| >= 4 && forall k :: 0 <= k < |p.field.pads.a| ==> p.field.pads.a[k] == ' '
  }

  ghost predicate BlockOk(pieces: seq<Piece>)
  {
    forall k :: 0 <= k < |pieces| ==> InBlockForm(pieces[k])
  }

  function BlockText(pieces: seq<Piece>): seq<string>
  {
    if pieces == [] then [] else [pieces[0].Text()] + BlockText(pieces[1..])
  }

  /** The next line is not in the block any more. */
  ghost predicate BlockStops(rest: seq<string>)
  {
    rest == [] || !InBlock(rest[0], 4)
  }

  lemma EntryIsIn(f: Field)
    requires f.Ok() && |f.pads.a| >= 4 && forall k :: 0 <= k < |f.pads.a| ==> f.pads.a[k] == ' '
    ensures !Blank(f.Text()) && Leading(f.Text()) >= 4
  {
    hide Trim, Tight, Name;
    var s := f.Text();
    NameTight(f.key);
    var more := f.key + (f.pads.b + ":" + (f.pads.c + f.Shown() + f.pads.d));
    assert s == f.pads.a + more && !Space(more[0]) by {
      TightFirst(f.key);
      assert more[0] == f.key[0];
    }
    assert s[|f.pads.a|] == more[0] && more[0] != ' ';
    LeadingIs(s, |f.pads.a|);
    NotBlankInside(f.pads.a, more);
  }

  lemma TightFirst(s: string)
    requires Tight(s)
    ensures s != "" && !Space(s[0])
  {
  }

  lemma NotBlankInside(pad: string, more: string)
    requires (forall k :: 0 <= k < |pad| ==> pad[k] == ' ') && more != "" && !Space(more[0])
    ensures !Blank(pad + more)
  {
    hide TrimLeft, TrimRight;
    TrimLeftPad(pad, more);
    KeepsFirst(more);
  }

  lemma BlockStep(p: Piece, more: seq<string>, acc: Row)
    requires InBlockForm(p)
    ensures BlockRow([p.Text()] + more, acc) == BlockRow(more, With(p, acc))
  {
    hide Trim, Dequote, Find, Leading, Blank;
    assert ([p.Text()] + more)[1..] == more;
    if p.Gap? {
      FindIs(p.text, ':', |p.text|);
    } else {
      EntryIsIn(p.field);
      FieldReads(p.field);
    }
  }

  /** The lines of a block read as its entries, whatever comes behind them. */
  lemma {:induction false} BlockReads(pieces: seq<Piece>, more: seq<string>, acc: Row)
    requires BlockOk(pieces)
    ensures BlockRow(BlockText(pieces) + more, acc) == BlockRow(more, FieldsRow(FieldsOf(pieces), acc))
    decreases |pieces|
  {
    hide BlockRow, InBlockForm, FieldsRow, FieldsOf;
    if pieces == [] {
      assert BlockText(pieces) + more == more;
      NoFields(acc);
    } else {
      var behind := BlockText(pieces[1..]) + more;
      assert BlockText(pieces) + more == [pieces[0].Text()] + behind;
      BlockStep(pieces[0], behind, acc);
      BlockReads(pieces[1..], more, With(pieces[0], acc));
      WithRow(pieces, acc);
    }
  }

  /** A block ends in front of the first line that is indented less, blank lines included. */
  lemma {:induction false} BlockEnds(n: nat, rest: seq<string>, acc: Row)
    requires BlockStops(rest)
    ensures BlockRow(CleanComments(n) + rest, acc) == (acc, rest)
  {
    var lines := CleanComments(n) + rest;
    if n == 0 {
      assert lines == rest;
    } else {
      SectionNames();
      assert lines[1..] == CleanComments(n - 1) + rest && lines[0] == "";
      BlockEnds(n - 1, rest, acc);
    }
  }

  // --- The routing section ------------------------------------------------------------------------

  /** A routing row in one of its two forms; `strays` are deeper lines behind a flow row, which
      belong to nothing. */
  datatype Route = FlowRoute(name: string, gap: string, pieces: seq<Piece>, strays: seq<string>)
                 | BlockRoute(name: string, pieces: seq<Piece>)
  {
    ghost predicate Ok()
    {
      && Name(name)
      && match this
         case FlowRoute(_, gap, pieces, strays) => Padding(gap) && FlowOk(pieces) && AllStray(strays)
         case BlockRoute(_, pieces) => BlockOk(pieces)
    }

    /** The entries, whichever the form. */
    function Fields(): seq<Field>
    {
      FieldsOf(pieces)
    }

    function Text(): seq<string>
    {
      match this
      case FlowRoute(name, gap, pieces, strays) =>
        ["  " + name + ":" + (gap + ("{" + JoinPieces(pieces) + "}"))] + strays
      case BlockRoute(name, pieces) => ["  " + name + ":"] + BlockText(pieces)
    }
  }

  ghost predicate AllStray(lines: seq<string>)
  {
    forall k :: 0 <= k < |lines| ==> Blank(lines[k]) || Leading(lines[k]) > 2
  }

  lemma {:induction false} StraysSkipped(strays: seq<string>, more: seq<string>, acc: map<string, Row>)
    requires AllStray(strays)
    ensures RoutingOf(strays + more, acc) == RoutingOf(more, acc)
    decreases |strays|
  {
    hide Blank, Leading, Find, Trim, FlowMap, Before, Behind, BlockRow;
    var lines := strays + more;
    if strays == [] {
      assert lines == more;
    } else {
      assert lines[0] == strays[0] && lines[1..] == strays[1..] + more;
      StraysSkipped(strays[1..], more, acc);
    }
  }

  function RouteText(routes: seq<Route>): seq<string>
  {
    if routes == [] then [] else routes[0].Text() + RouteText(routes[1..])
  }

  function RouteTable(routes: seq<Route>, acc: map<string, Row>): map<string, Row>
  {
    if routes == [] then acc
    else RouteTable(routes[1..], acc[routes[0].name := FieldsRow(routes[0].Fields(), map[])])
  }

  ghost predicate RoutesOk(routes: seq<Route>)
  {
    forall k :: 0 <= k < |routes| ==> routes[k].Ok()
  }

  /** The first line of a row: its name, and what follows the colon. */
  lemma RowHead(name: string, behind: string, body: string)
    requires Name(name) && (body == "" ==> behind == "")
    requires body != "" ==> Tight(body) && |behind| >= |body| && behind[|behind| - |body|..] == body
    requires body != "" ==> AllSpace(behind[..|behind| - |body|])
    ensures var line := "  " + name + ":" + behind;
            && !Blank(line) && Leading(line) == 2
            && Trim(Before(line, Find(line, ':'))) == name && Trim(Behind(line, Find(line, ':'))) == body
  {
    hide Trim, Blank, Leading, Tight, Find;
    var line, c := "  " + name + ":" + behind, 2 + |name|;
    NameTight(name);
    TrimPad("  ", name, "");
    assert line[c] == ':' && line[..c] == "  " + name + "" && line[c + 1..] == behind;
    NoColon(name, line);
    FindIs(line, ':', c);
    if body == "" {
      SectionNames();
    } else {
      TrimPad(behind[..|behind| - |body|], body, "");
      assert behind == behind[..|behind| - |body|] + body + "";
    }
    TightFirst(name);
    var x := name + (":" + behind);
    assert line == "  " + x && x[0] == name[0];
    NotBlankInside("  ", x);
    assert line[2] == x[0];
    LeadingIs(line, 2);
  }

  lemma FlowLineStep(name: string, gap: string, pieces: seq<Piece>, more: seq<string>, acc: map<string, Row>)
    requires Name(name) && AllSpace(gap) && FlowOk(pieces)
    ensures var line := "  " + name + ":" + (gap + ("{" + JoinPieces(pieces) + "}"));
            && RoutingOf([line] + more, acc) == RoutingOf(more, acc[name := FieldsRow(FieldsOf(pieces), map[])])
            && NodesOf([line] + more, acc) == NodesOf(more, acc[name := FieldsRow(FieldsOf(pieces), map[])])
            && !Blank(line) && Leading(line) == 2
  {
    hide Blank, Leading, Find, Trim, FlowMap, JoinPieces, FieldsRow, FieldsOf, Before, Behind, BlockRow, Name;
    var body := "{" + JoinPieces(pieces) + "}";
    var line := "  " + name + ":" + (gap + body);
    BraceTight(body);
    assert (gap + body)[|gap|..] == body && (gap + body)[..|gap|] == gap;
    RowHead(name, gap + body, body);
    FlowPiecesRead(pieces);
    assert ([line] + more)[1..] == more;
  }

  lemma FlowRouteStep(route: Route, more: seq<string>, acc: map<string, Row>)
    requires route.Ok() && route.FlowRoute?
    ensures RoutingOf(route.Text() + more, acc)
         == RoutingOf(more, acc[route.name := FieldsRow(route.Fields(), map[])])
  {
    hide RoutingOf, JoinPieces, FieldsRow, FieldsOf, Name, FlowOk, AllStray;
    var line := "  " + route.name + ":" + (route.gap + ("{" + JoinPieces(route.pieces) + "}"));
    FlowLineStep(route.name, route.gap, route.pieces, route.strays + more, acc);
    assert route.Text() + more == [line] + (route.strays + more);
    StraysSkipped(route.strays, more, acc[route.name := FieldsRow(route.Fields(), map[])]);
  }

  lemma BlockRouteStep(route: Route, more: seq<string>, acc: map<string, Row>)
    requires route.Ok() && route.BlockRoute?
    ensures var (row, rest) := BlockRow(more, FieldsRow(route.Fields(), map[]));
            RoutingOf(route.Text() + more, acc) == RoutingOf(rest, acc[route.name := row])
  {
    hide Blank, Leading, Find, Trim, FlowMap, FieldsRow, Before, Behind, BlockRow, BlockText, FieldsOf;
    var line := "  " + route.name + ":";
    assert line + "" == line;
    RowHead(route.name, "", "");
    BlockReads(route.pieces, more, map[]);
    var all := route.Text() + more;
    assert all == [line] + (BlockText(route.pieces) + more) && all[1..] == BlockText(route.pieces) + more;
  }

  /** A row starts at column 2, so it ends the block in front of it. */
  lemma RouteEndsBlock(route: Route, more: seq<string>)
    requires route.Ok()
    ensures BlockStops(route.Text() + more)
  {
    hide Blank, Leading, Find, Trim, JoinPieces, BlockText, Tight, RoutingOf, NodesOf;
    match route
    case FlowRoute(name, gap, pieces, _) =>
      FlowLineStep(name, gap, pieces, more, map[]);
    case BlockRoute(name, pieces) =>
      assert "  " + name + ":" + "" == "  " + name + ":";
      RowHead(name, "", "");
  }

  lemma BraceTight(body: string)
    requires body != "" && body[0] == '{' && body[|body| - 1] == '}'
    ensures Tight(body)
  {
  }

  /** Blank lines and the heading behind them end every section. */
  lemma {:induction false} SectionEnds(n: nat, rest: seq<string>, acc: map<string, Row>, edges: seq<Edge>)
    requires Stops(rest)
    ensures var lines := CleanComments(n) + rest;
            && NodesOf(lines, acc) == Read(acc, rest) && RoutingOf(lines, acc) == Read(acc, rest)
            && EdgesOf(lines, edges) == (edges, rest) && SkipBlock(lines) == rest
    ensures BlockStops(rest)
  {
    hide Leading;
    var lines := CleanComments(n) + rest;
    if n == 0 {
      assert lines == rest;
    } else {
      SectionNames();
      assert lines[1..] == CleanComments(n - 1) + rest && lines[0] == "";
      SectionEnds(n - 1, rest, acc, edges);
    }
  }

  /** A row followed by another row, and the last row of a section. */
  lemma RouteStep(route: Route, next: Route, more: seq<string>, acc: map<string, Row>)
    requires route.Ok() && next.Ok()
    ensures RoutingOf(route.Text() + (next.Text() + more), acc)
         == RoutingOf(next.Text() + more, acc[route.name := FieldsRow(route.Fields(), map[])])
  {
    hide *;
    var lines := next.Text() + more;
    if route.FlowRoute? {
      FlowRouteStep(route, lines, acc);
    } else {
      BlockRouteStep(route, lines, acc);
      RouteEndsBlock(next, more);
      BlockEnds(0, lines, FieldsRow(route.Fields(), map[]));
      NoBlanks(lines);
    }
  }

  lemma NoBlanks(lines: seq<string>)
    ensures CleanComments(0) + lines == lines
  {
  }

  lemma LastRoute(route: Route, n: nat, rest: seq<string>, acc: map<string, Row>)
    requires route.Ok() && Stops(rest)
    ensures RoutingOf(route.Text() + (CleanComments(n) + rest), acc)
         == Read(acc[route.name := FieldsRow(route.Fields(), map[])], rest)
  {
    hide *;
    var acc' := acc[route.name := FieldsRow(route.Fields(), map[])];
    SectionEnds(n, rest, acc', []);
    if route.FlowRoute? {
      FlowRouteStep(route, CleanComments(n) + rest, acc);
    } else {
      BlockRouteStep(route, CleanComments(n) + rest, acc);
      BlockEnds(n, rest, FieldsRow(route.Fields(), map[]));
      SectionEnds(0, rest, acc', []);
      NoBlanks(rest);
    }
  }

  /** Every routing section reads as the table of its rows, in any mixture of forms. */
  lemma {:induction false} RoutesRead(routes: seq<Route>, n: nat, rest: seq<string>, acc: map<string, Row>)
    requires RoutesOk(routes) && Stops(rest)
    ensures RoutingOf(RouteText(routes) + (CleanComments(n) + rest), acc) == Read(RouteTable(routes, acc), rest)
    decreases |routes|
  {
    hide RoutingOf, Stops, FieldsRow, Route.Text, Route.Fields, Route.Ok, CleanComments;
    var end := CleanComments(n) + rest;
    if routes == [] {
      SectionEnds(n, rest, acc, []);
      assert RouteText(routes) + end == end;
    } else if routes[1..] == [] {
      LastRoute(routes[0], n, rest, acc);
      assert RouteText(routes) + end == routes[0].Text() + end;
    } else {
      var more := RouteText(routes[2..]) + end;
      assert routes[1..][1..] == routes[2..] && routes[1..][0] == routes[1];
      assert RouteText(routes) + end == routes[0].Text() + (routes[1].Text() + more);
      assert RouteText(routes[1..]) + end == routes[1].Text() + more;
      RouteStep(routes[0], routes[1], more, acc);
      RoutesRead(routes[1..], n, rest, acc[routes[0].name := FieldsRow(routes[0].Fields(), map[])]);
    }
  }

  /** The same rows, whatever their forms. */
  ghost predicate SameRows(a: seq<Route>, b: seq<Route>)
  {
    && |a| == |b|
    && forall k :: 0 <= k < |a| ==> a[k].name == b[k].name && SameFields(a[k].Fields(), b[k].Fields())
  }

  /** The same keys and values in the same order, whatever the padding and the quotes. */
  ghost predicate SameFields(a: seq<Field>, b: seq<Field>)
  {
    |a| == |b| && forall k :: 0 <= k < |a| ==> a[k].key == b[k].key && a[k].value == b[k].value
  }

  lemma {:induction false} SameFieldsRow(a: seq<Field>, b: seq<Field>, acc: Row)
    requires SameFields(a, b)
    ensures FieldsRow(a, acc) == FieldsRow(b, acc)
    decreases |a|
  {
    if a != [] {
      SameFieldsRow(a[1..], b[1..], acc[a[0].key := a[0].value]);
    }
  }

  lemma {:induction false} SameTable(a: seq<Route>, b: seq<Route>, acc: map<string, Row>)
    requires SameRows(a, b)
    ensures RouteTable(a, acc) == RouteTable(b, acc)
    decreases |a|
  {
    hide FieldsRow, SameFields, Route.Fields;
    if a != [] {
      SameFieldsRow(a[0].Fields(), b[0].Fields(), map[]);
      SameTable(a[1..], b[1..], acc[a[0].name := FieldsRow(a[0].Fields(), map[])]);
    }
  }

  /** The block and the flow form of a row load alike. */
  lemma FormsAlike(a: seq<Route>, b: seq<Route>, n: nat, m: nat, rest: seq<string>, acc: map<string, Row>)
    requires RoutesOk(a) && RoutesOk(b) && SameRows(a, b) && Stops(rest)
    ensures RoutingOf(RouteText(a) + (CleanComments(n) + rest), acc)
         == RoutingOf(RouteText(b) + (CleanComments(m) + rest), acc)
  {
    hide *;
    RoutesRead(a, n, rest, acc);
    RoutesRead(b, m, rest, acc);
    SameTable(a, b, acc);
  }
}
