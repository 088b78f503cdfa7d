/** What the loader makes of a text file, line by line: every line reaches the row parser as it
    was written, without its line ending. */
module LoaderText {
  import opened Basics
  import opened Lines
  import opened Loader

  /** A line as an editor shows it, and whether it ends in CR LF or in LF. */
  datatype Line = Line(text: Text, crlf: bool)
  {
    /** A text that ends in CR would be read as ending in CR LF. */
    ghost predicate Ok()
    {
      '\n' !in text && (text == [] || text[|text| - 1] != '\r')
    }

    function Show(): Text
    {
      text + (if crlf then ['\r', '\n'] else ['\n'])
    }
  }

  ghost predicate AllOk(lines: seq<Line>)
  {
    forall k :: 0 <= k < |lines| ==> lines[k].Ok()
  }

  /** The lines, one after the other. */
  function Joined(lines: seq<Line>): Text
  {
    if lines == [] then [] else lines[0].Show() + Joined(lines[1..])
  }

  function Value<Row>(text: Text, parse: Text -> Option<Row>): seq<Row>
  {
    if parse(text).Some? then [parse(text).value] else []
  }

  /** The rows the lines stand for: those the parser accepts, in order.  An empty line is no row
      for a reader of LF files; before CR LF it is offered to the parser. */
  function Values<Row>(lines: seq<Line>, parse: Text -> Option<Row>): seq<Row>
  {
    if lines == [] then [] else
    (if lines[0].text == [] && !lines[0].crlf then [] else Value(lines[0].text, parse)) + Values(lines[1..], parse)
  }

  lemma FirstShown(line: Line)
    requires line.Ok()
    ensures Terminated(line.Show()) && line.Show() != [] && AfterLine(line.Show()) == []
    ensures line.Show()[..NextNewline(line.Show(), 0)] == line.text + (if line.crlf then ['\r'] else [])
  {
    var s := line.Show();
    var n := |s| - 1;
    assert s[n] == '\n' && forall k :: 0 <= k < n ==> s[k] != '\n';
    NextNewlineUnique(s, 0, n);
    assert s[..n] == line.text + (if line.crlf then ['\r'] else []);
  }

  lemma OneLine<Row>(line: Line, parse: Text -> Option<Row>)
    requires line.Ok()
    ensures ValidRows(Sequential(line.Show(), parse))
         == if line.text == [] && !line.crlf then [] else Value(line.text, parse)
  {
    hide NextNewline;
    var s := line.Show();
    FirstShown(line);
    LinesUnfold(s);
    NoLines();
    var first := s[..NextNewline(s, 0)];
    assert Lines.Lines(s) == [first] + [];
    ChompShown(line);
    OneSlot(first, parse);
  }

  lemma ChompShown(line: Line)
    requires line.Ok()
    ensures Chomp(line.text + (if line.crlf then ['\r'] else [])) == line.text
  {
    if line.crlf {
      assert (line.text + ['\r'])[..|line.text|] == line.text;
    } else {
      assert line.text + [] == line.text;
    }
  }

  lemma OneSlot<Row>(first: Text, parse: Text -> Option<Row>)
    ensures ValidRows(ParsedAll(NonBlank([first]), parse)) == if first == [] then [] else Value(Chomp(first), parse)
  {
    assert [first][1..] == [];
    if first != [] {
      assert NonBlank([first]) == [first];
      var slot := Parsed(first, parse);
      assert ParsedAll([first], parse) == [slot];
      TailRows(slot);
    } else {
      assert NonBlank([first]) == [];
    }
  }

  lemma {:induction false} JoinedReads<Row>(lines: seq<Line>, parse: Text -> Option<Row>)
    requires AllOk(lines)
    ensures Terminated(Joined(lines)) && ValidRows(Sequential(Joined(lines), parse)) == Values(lines, parse)
    decreases |lines|
  {
    hide Sequential, ValidRows, Value;
    if lines == [] {
      NothingRead(parse);
    } else {
      var a, b := lines[0].Show(), Joined(lines[1..]);
      JoinedReads(lines[1..], parse);
      FirstShown(lines[0]);
      SequentialConcat(a, b, parse);
      ValidRowsConcat(Sequential(a, parse), Sequential(b, parse));
      OneLine(lines[0], parse);
      assert b != [] ==> (a + b)[|a + b| - 1] == b[|b| - 1];
    }
  }

  lemma NothingRead<Row>(parse: Text -> Option<Row>)
    ensures ValidRows(Sequential([], parse)) == []
  {
  }

  /** A file of lines, with any mixture of line endings, is loaded as the rows of its lines, by
      any number of threads. */
  lemma FileLoads<Row>(header: Text, lines: seq<Line>, nt: nat, parse: Text -> Option<Row>)
    requires '\n' !in header && AllOk(lines) && nt > 0
    ensures var file := header + ['\n'] + Joined(lines);
            '\n' in file && Loaded(AfterLine(file), nt, parse) == Values(lines, parse)
  {
    hide Loaded;
    var file := header + ['\n'] + Joined(lines);
    assert file[|header|] == '\n';
    NextNewlineUnique(file, 0, |header|);
    assert AfterLine(file) == Joined(lines);
    JoinedReads(lines, parse);
    LoadIsSequential(Joined(lines), nt, parse);
  }

  /** For lines that are not empty the endings make no difference. */
  lemma {:induction false} EndingsAlike<Row>(a: seq<Line>, b: seq<Line>, parse: Text -> Option<Row>)
    requires |a| == |b| && forall k :: 0 <= k < |a| ==> a[k].text == b[k].text != []
    ensures Values(a, parse) == Values(b, parse)
    decreases |a|
  {
    hide Value;
    if a != [] {
      EndingsAlike(a[1..], b[1..], parse);
    }
  }

  /** A last line without an ending is either kept, as it was written, or lost; nothing else
      changes. */
  lemma OpenFileLoads<Row>(lines: seq<Line>, text: Text, nt: nat, parse: Text -> Option<Row>)
    requires AllOk(lines) && text != [] && '\n' !in text && text[|text| - 1] != '\r' && nt > 0
    ensures var rows := Loaded(Joined(lines) + text, nt, parse);
            rows == Values(lines, parse) || rows == Values(lines, parse) + Value(text, parse)
  {
    hide Sequential, ValidRows, Starts, LastStart, HasBlank;
    var s := Joined(lines) + text;
    JoinedReads(lines, parse);
    LinesConcat(Joined(lines), text);
    SequentialConcat(Joined(lines), text, parse);
    OpenTail(text, parse);
    ValidRowsConcat(Sequential(Joined(lines), parse), Sequential(text, parse));
    LoadedIs(s, nt, parse);
  }

  lemma OpenTail<Row>(text: Text, parse: Text -> Option<Row>)
    requires text != [] && '\n' !in text && text[|text| - 1] != '\r'
    ensures Tail(text) == text && Chomp(text) == text && Sequential(text, parse) == []
    ensures ValidRows(Sequential(text, parse)) == []
  {
    NextNewlineUnique(text, 0, |text|);
  }
}
