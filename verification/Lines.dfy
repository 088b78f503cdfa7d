/** Newline-separated text: lines, the unterminated tail, and what one loader thread
    makes of its chunk. */
module Lines {
  import opened Basics

  type Text = seq<char>

  /** A row slot of the columns: untouched, or written with its valid flag. */
  datatype Slot<Row> = Empty | Written(row: Option<Row>)

  /** memchr: the first newline at or after `from`, or the end of the text. */
  function NextNewline(s: Text, from: nat): (r: nat)
    requires from <= |s|
    ensures from <= r <= |s|
    ensures forall k :: from <= k < r ==> s[k] != '\n'
    ensures r < |s| ==> s[r] == '\n'
    decreases |s| - from
  {
    if from == |s| || s[from] == '\n' then from else NextNewline(s, from + 1)
  }

  lemma {:induction false} NextNewlineUnique(s: Text, from: nat, r: nat)
    requires from <= r <= |s|
    requires forall k :: from <= k < r ==> s[k] != '\n'
    requires r < |s| ==> s[r] == '\n'
    ensures NextNewline(s, from) == r
  {
    var n := NextNewline(s, from);
  }

  /** The text behind the first line. */
  function AfterLine(s: Text): (r: Text)
    requires s != []
    ensures |r| < |s|
  {
    var nl := NextNewline(s, 0);
    if nl < |s| then s[nl + 1..] else []
  }

  /** The newline-terminated lines, without their newlines. */
  function Lines(s: Text): seq<Text>
    decreases |s|
  {
    if s == [] then [] else
    var nl := NextNewline(s, 0);
    if nl == |s| then [] else [s[..nl]] + Lines(AfterLine(s))
  }

  /** What follows the last newline. */
  function Tail(s: Text): Text
    decreases |s|
  {
    if s == [] then [] else
    var nl := NextNewline(s, 0);
    if nl == |s| then s else Tail(AfterLine(s))
  }

  /** Empty, or ending in a newline. */
  predicate Terminated(s: Text)
  {
    s == [] || s[|s| - 1] == '\n'
  }

  lemma {:induction false} TerminatedTail(s: Text)
    ensures Terminated(s) <==> Tail(s) == []
    decreases |s|
  {
    if s != [] {
      var nl := NextNewline(s, 0);
      if nl < |s| {
        TerminatedTail(AfterLine(s));
        if AfterLine(s) != [] {
          assert AfterLine(s)[|AfterLine(s)| - 1] == s[|s| - 1];
        }
      }
    }
  }

  lemma FirstNewline(a: Text, b: Text)
    requires a != [] && Terminated(a)
    ensures NextNewline(a, 0) < |a| && NextNewline(a + b, 0) == NextNewline(a, 0)
  {
    hide NextNewline;
    var nl := NextNewline(a, 0);
    assert nl < |a| by {
      assert a[|a| - 1] == '\n';
    }
    NextNewlineUnique(a + b, 0, nl);
  }

  /** A text starting with a line: the line, and the rest of it. */
  lemma FirstLine(a: Text, b: Text)
    requires a != [] && Terminated(a)
    ensures NextNewline(a, 0) < |a| && NextNewline(a + b, 0) == NextNewline(a, 0)
    ensures (a + b)[..NextNewline(a, 0)] == a[..NextNewline(a, 0)]
    ensures AfterLine(a + b) == AfterLine(a) + b && Terminated(AfterLine(a))
  {
    hide NextNewline;
    FirstNewline(a, b);
    if AfterLine(a) != [] {
      assert AfterLine(a)[|AfterLine(a)| - 1] == a[|a| - 1];
    }
  }

  lemma LinesUnfold(s: Text)
    requires s != [] && NextNewline(s, 0) < |s|
    ensures Lines(s) == [s[..NextNewline(s, 0)]] + Lines(AfterLine(s))
    ensures Tail(s) == Tail(AfterLine(s))
  {
  }

  lemma NoLines()
    ensures Lines([]) == [] && Tail([]) == []
  {
  }

  /** Cutting a text behind a newline cuts its lines. */
  lemma {:induction false} LinesConcat(a: Text, b: Text)
    requires Terminated(a)
    ensures Lines(a + b) == Lines(a) + Lines(b)
    ensures Tail(a + b) == Tail(b)
    decreases |a|
  {
    hide *;
    if a == [] {
      NoLines();
      assert a + b == b;
    } else {
      FirstLine(a, b);
      LinesUnfold(a);
      LinesUnfold(a + b);
      LinesConcat(AfterLine(a), b);
    }
  }

  function NonBlank(lines: seq<Text>): (r: seq<Text>)
    ensures |r| <= |lines|
  {
    if lines == [] then [] else
    if lines[0] == [] then NonBlank(lines[1..]) else [lines[0]] + NonBlank(lines[1..])
  }

  lemma {:induction false} NonBlankConcat(a: seq<Text>, b: seq<Text>)
    ensures NonBlank(a + b) == NonBlank(a) + NonBlank(b)
    decreases |a|
  {
    if a == [] {
      assert a + b == b;
    } else {
      assert (a + b)[1..] == a[1..] + b;
      NonBlankConcat(a[1..], b);
    }
  }

  /** A line without its carriage return. */
  function Chomp(line: Text): Text
  {
    if line != [] && line[|line| - 1] == '\r' then line[..|line| - 1] else line
  }

  /** The slot a line is parsed into; `parse` reads the fields. */
  function Parsed<Row>(line: Text, parse: Text -> Option<Row>): Slot<Row>
  {
    Written(parse(Chomp(line)))
  }

  function ParsedAll<Row>(lines: seq<Text>, parse: Text -> Option<Row>): (r: seq<Slot<Row>>)
    ensures |r| == |lines| && forall k :: 0 <= k < |r| ==> r[k] == Parsed(lines[k], parse)
  {
    seq(|lines|, k requires 0 <= k < |lines| => Parsed(lines[k], parse))
  }

  /** The slots a sequential reader fills: one per non-blank terminated line. */
  function Sequential<Row>(s: Text, parse: Text -> Option<Row>): seq<Slot<Row>>
  {
    ParsedAll(NonBlank(Lines(s)), parse)
  }

  lemma SequentialConcat<Row>(a: Text, b: Text, parse: Text -> Option<Row>)
    requires Terminated(a)
    ensures Sequential(a + b, parse) == Sequential(a, parse) + Sequential(b, parse)
  {
    LinesConcat(a, b);
    NonBlankConcat(Lines(a), Lines(b));
  }

  // --- One thread's chunk -------------------------------------------------------------

  function CountNewlines(s: Text): nat
  {
    if s == [] then 0 else (if s[0] == '\n' then 1 else 0) + CountNewlines(s[1..])
  }

  lemma {:induction false} CountSkip(s: Text, n: nat)
    requires n <= |s| && forall k :: 0 <= k < n ==> s[k] != '\n'
    ensures CountNewlines(s) == CountNewlines(s[n..])
    decreases n
  {
    if n > 0 {
      CountSkip(s[1..], n - 1);
      assert s[1..][n - 1..] == s[n..];
    }
  }

  lemma {:induction false} CountIsLines(s: Text)
    ensures CountNewlines(s) == |Lines(s)|
    decreases |s|
  {
    if s != [] {
      var nl := NextNewline(s, 0);
      CountSkip(s, nl);
      if nl < |s| {
        CountIsLines(AfterLine(s));
        assert s[nl..][1..] == AfterLine(s);
      } else {
        assert s[nl..] == [];
      }
    }
  }

  /** What a thread with `cap` slots writes for the text `s`. */
  function Fill<Row>(s: Text, cap: nat, parse: Text -> Option<Row>): (r: seq<Slot<Row>>)
    ensures |r| <= cap
    decreases |s|
  {
    if s == [] || cap == 0 then [] else
    var line := s[..NextNewline(s, 0)];
    if line == [] then Fill(AfterLine(s), cap, parse)
    else [Parsed(line, parse)] + Fill(AfterLine(s), cap - 1, parse)
  }

  lemma NonBlankCons(line: Text, rest: seq<Text>)
    ensures NonBlank([line] + rest) == if line == [] then NonBlank(rest) else [line] + NonBlank(rest)
  {
    assert ([line] + rest)[1..] == rest;
  }

  lemma ParsedCons<Row>(line: Text, rest: seq<Text>, parse: Text -> Option<Row>)
    ensures ParsedAll([line] + rest, parse) == [Parsed(line, parse)] + ParsedAll(rest, parse)
  {
  }

  lemma FillLine<Row>(s: Text, parse: Text -> Option<Row>)
    requires s != [] && NextNewline(s, 0) < |s|
    ensures var line := s[..NextNewline(s, 0)];
            && |NonBlank(Lines(s))| == (if line == [] then 0 else 1) + |NonBlank(Lines(AfterLine(s)))|
            && (line == [] ==> Sequential(s, parse) == Sequential(AfterLine(s), parse))
            && (line != [] ==> Sequential(s, parse) == [Parsed(line, parse)] + Sequential(AfterLine(s), parse))
  {
    hide Lines;
    hide NonBlank;
    hide Parsed;
    var line, rest := s[..NextNewline(s, 0)], AfterLine(s);
    LinesUnfold(s);
    NonBlankCons(line, Lines(rest));
    ParsedCons(line, NonBlank(Lines(rest)), parse);
  }

  lemma FillUnfold<Row>(s: Text, cap: nat, parse: Text -> Option<Row>)
    requires s != [] && cap > 0
    ensures var line := s[..NextNewline(s, 0)];
            Fill(s, cap, parse) == if line == [] then Fill(AfterLine(s), cap, parse)
                                   else [Parsed(line, parse)] + Fill(AfterLine(s), cap - 1, parse)
  {
  }

  /** A text without a newline is all tail. */
  lemma FillTail<Row>(s: Text, cap: nat, parse: Text -> Option<Row>)
    requires s != [] && NextNewline(s, 0) == |s|
    ensures Lines(s) == NonBlank(Lines(s)) == [] && Tail(s) == s && Sequential(s, parse) == []
    ensures Fill(s, cap, parse) == if cap > 0 then [Parsed(s, parse)] else []
  {
    assert s[..|s|] == s;
  }

  /** With a slot for every non-blank line, a thread writes them all; an unterminated tail
      is written only if a slot is left over. */
  lemma {:induction false} FillMeans<Row>(s: Text, cap: nat, parse: Text -> Option<Row>)
    requires cap >= |NonBlank(Lines(s))|
    ensures Fill(s, cap, parse)
         == Sequential(s, parse)
            + (if Tail(s) != [] && cap > |NonBlank(Lines(s))| then [Parsed(Tail(s), parse)] else [])
    decreases |s|
  {
    hide *;
    if s == [] {
      EmptyText(cap, parse);
    } else if NextNewline(s, 0) == |s| {
      FillTail(s, cap, parse);
    } else {
      FillLine(s, parse);
      LinesUnfold(s);
      var line := s[..NextNewline(s, 0)];
      if cap == 0 {
        NoNonBlank(s, parse);
      } else {
        FillUnfold(s, cap, parse);
        FillMeans(AfterLine(s), if line == [] then cap else cap - 1, parse);
      }
    }
  }

  lemma EmptyText<Row>(cap: nat, parse: Text -> Option<Row>)
    ensures Lines([]) == [] && Tail([]) == [] && Sequential([], parse) == [] && Fill([], cap, parse) == []
  {
  }

  lemma NoNonBlank<Row>(s: Text, parse: Text -> Option<Row>)
    requires NonBlank(Lines(s)) == []
    ensures Sequential(s, parse) == [] && Fill(s, 0, parse) == []
  {
  }

  /** Does the text have a blank terminated line? */
  predicate HasBlank(s: Text)
  {
    |NonBlank(Lines(s))| < |Lines(s)|
  }

  /** The blank lines of a text are those of its parts. */
  lemma BlankConcat(a: Text, b: Text)
    requires Terminated(a)
    ensures HasBlank(a + b) <==> HasBlank(a) || HasBlank(b)
  {
    LinesConcat(a, b);
    NonBlankConcat(Lines(a), Lines(b));
  }

  /** The tail row a chunk picks up although it is not newline-terminated. */
  function TailSlot<Row>(s: Text, parse: Text -> Option<Row>): seq<Slot<Row>>
  {
    if Tail(s) != [] && HasBlank(s) then [Parsed(Tail(s), parse)] else []
  }

  lemma ChunkFill<Row>(s: Text, parse: Text -> Option<Row>)
    ensures Fill(s, CountNewlines(s), parse) == Sequential(s, parse) + TailSlot(s, parse)
  {
    CountIsLines(s);
    FillMeans(s, CountNewlines(s), parse);
  }
}
