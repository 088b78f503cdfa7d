/** The manifest reader gives back any printed document, however it is laid out. */
module JsonRoundTrip {
  import opened Json

  // --- Documents ---------------------------------------------------------------------------

  /** A document as written: members in order, keys possibly repeated. */
  datatype Doc =
    | DNull | DStr(s: string) | DNum(lexeme: string) | DBool(b: bool)
    | DObj(members: seq<Member>) | DArr(elems: seq<Doc>)

  datatype Member = Member(key: string, value: Doc)

  /** The value a document stands for; the last of several equal keys counts. */
  function Meaning(d: Doc): Value
  {
    match d
    case DNull => VNull
    case DStr(s) => VStr(s)
    case DNum(x) => VNum(x)
    case DBool(b) => VBool(b)
    case DObj(members) => VObj(MembersMeaning(members, map[]))
    case DArr(elems) => VArr(ElemsMeaning(elems))
  }

  function MembersMeaning(ms: seq<Member>, acc: map<string, Value>): map<string, Value>
  {
    if ms == [] then acc else MembersMeaning(ms[1..], acc[ms[0].key := Meaning(ms[0].value)])
  }

  function ElemsMeaning(es: seq<Doc>): seq<Value>
  {
    if es == [] then [] else [Meaning(es[0])] + ElemsMeaning(es[1..])
  }

  /** The tokens of a document. */
  function Tokens(d: Doc): (r: seq<Tok>)
    ensures r != []
  {
    match d
    case DNull => [Null]
    case DStr(s) => [Str(s)]
    case DNum(x) => [Num(x)]
    case DBool(b) => [if b then True else False]
    case DObj(members) => [Lbrace] + MemberTokens(members) + [Rbrace]
    case DArr(elems) => [Lbracket] + ElemTokens(elems) + [Rbracket]
  }

  function MemberTokens(ms: seq<Member>): seq<Tok>
  {
    if ms == [] then [] else
    [Str(ms[0].key)]
            + ([Colon] + (Tokens(ms[0].value) + (if |ms| == 1 then [] else [Comma]) + MemberTokens(ms[1..])))
  }

  function ElemTokens(es: seq<Doc>): seq<Tok>
  {
    if es == [] then [] else
    Tokens(es[0]) + (if |es| == 1 then [] else [Comma]) + ElemTokens(es[1..])
  }

  // --- Parsing tokens ------------------------------------------------------------------------

  /** The lexer delivers `toks` from this text, and then whatever follows. */
  predicate Lexes(text: string, toks: seq<Tok>)
    decreases |toks|
  {
    toks == [] || (NextTok(text).0 == toks[0] && Lexes(NextTok(text).1, toks[1..]))
  }

  lemma LexOne(text: string, t: Tok, more: seq<Tok>)
    requires Lexes(text, [t] + more)
    ensures NextTok(text).0 == t && Lexes(NextTok(text).1, more)
  {
    assert ([t] + more)[1..] == more;
  }

  /** Neither a closing bracket, nor a closing brace, nor a comma starts a value. */
  lemma FirstToken(d: Doc)
    ensures Tokens(d)[0] != Rbracket
  {
  }

  /** From any text that lexes to a document, the parser reads its meaning and nothing more. */
  lemma {:induction false} ParsesDoc(d: Doc, text: string, more: seq<Tok>)
    requires Lexes(text, Tokens(d) + more)
    ensures ValueOf(text).0 == Meaning(d) && Lexes(ValueOf(text).1, more)
    decreases d
  {
    hide Lexes, NextTok;
    match d {
      case DObj(ms) => ParsesObject(ms, text, more);
      case DArr(es) => ParsesArray(es, text, more);
      case DNull => LexOne(text, Null, more);
      case DStr(s) => LexOne(text, Str(s), more);
      case DNum(x) => LexOne(text, Num(x), more);
      case DBool(b) => LexOne(text, if b then True else False, more);
    }
  }

  lemma {:induction false} ParsesObject(ms: seq<Member>, text: string, more: seq<Tok>)
    requires Lexes(text, Tokens(DObj(ms)) + more)
    ensures ValueOf(text).0 == Meaning(DObj(ms)) && Lexes(ValueOf(text).1, more)
    decreases ms, 2
  {
    hide Lexes, NextTok;
    assert Tokens(DObj(ms)) + more == [Lbrace] + (MemberTokens(ms) + ([Rbrace] + more));
    ObjectEnds(ms, [Rbrace], text, more);
  }

  /** The tokens that end an object behind its last member, or behind the opening brace: the
      closing brace or any other token that is out of place.  None of them is an error. */
  predicate EndsObject(tail: seq<Tok>, empty: bool)
  {
    if empty then (|tail| == 1 && !tail[0].Str?) || (|tail| == 2 && tail[0].Str? && tail[1] != Colon)
    else
      || (|tail| == 1 && tail[0] != Comma)
      || (|tail| == 2 && tail[0] == Comma && !tail[1].Str?)
      || (|tail| == 3 && tail[0] == Comma && tail[1].Str? && tail[2] != Colon)
  }

  /** An object that ends in the wrong way reads as the members in front of its end: a comma
      without a member, a key without a colon, or a missing brace go without notice. */
  lemma {:induction false} ObjectEnds(ms: seq<Member>, tail: seq<Tok>, text: string, more: seq<Tok>)
    requires EndsObject(tail, ms == []) && Lexes(text, [Lbrace] + (MemberTokens(ms) + (tail + more)))
    ensures ValueOf(text).0 == Meaning(DObj(ms)) && Lexes(ValueOf(text).1, more)
    decreases ms, 1
  {
    hide Lexes, NextTok, EndsObject;
    var toks := MemberTokens(ms) + (tail + more);
    LexOne(text, Lbrace, toks);
    var s := NextTok(text).1;
    if ms == [] {
      assert toks == tail + more;
      EmptyEnds(tail, s, more);
    } else {
      MemberTokensFirst(ms, tail + more);
      LexOne(s, Str(ms[0].key), toks[1..]);
      ParsesMembers(ms, NextTok(s).1, map[], tail, more);
    }
  }

  lemma EmptyEnds(tail: seq<Tok>, text: string, more: seq<Tok>)
    requires EndsObject(tail, true) && Lexes(text, tail + more)
    ensures ObjectOf(text).0 == VObj(map[]) && Lexes(ObjectOf(text).1, more)
  {
    hide Lexes, NextTok;
    assert tail + more == [tail[0]] + (tail[1..] + more);
    LexOne(text, tail[0], tail[1..] + more);
    if |tail| == 1 {
      assert tail[1..] + more == more;
    } else {
      assert tail[1..] + more == [tail[1]] + more;
      LexOne(NextTok(text).1, tail[1], more);
    }
  }

  lemma MemberTokensFirst(ms: seq<Member>, end: seq<Tok>)
    requires ms != []
    ensures var toks := MemberTokens(ms) + end; toks == [Str(ms[0].key)] + toks[1..]
  {
  }

  lemma MemberTokensRest(ms: seq<Member>, end: seq<Tok>)
    requires ms != []
    ensures (MemberTokens(ms) + end)[1..]
         == [Colon] + (Tokens(ms[0].value) + (if |ms| == 1 then end else [Comma] + (MemberTokens(ms[1..]) + end)))
  {
    hide *;
    var toks, sep, rest := Tokens(ms[0].value), if |ms| == 1 then [] else [Comma], MemberTokens(ms[1..]);
    RegroupTokens(toks, sep, rest, end);
    MemberTokensUnfold(ms);
    PushIn(Str(ms[0].key), Colon, toks + sep + rest, end);
    if |ms| == 1 {
      NoMemberTokens();
      assert ms[1..] == [];
      assert [] + (rest + end) == end;
    }
  }

  lemma NoMemberTokens()
    ensures MemberTokens([]) == []
  {
  }

  lemma MemberTokensUnfold(ms: seq<Member>)
    requires ms != []
    ensures MemberTokens(ms)
         == [Str(ms[0].key)]
            + ([Colon] + (Tokens(ms[0].value) + (if |ms| == 1 then [] else [Comma]) + MemberTokens(ms[1..])))
  {
  }

  lemma PushIn(a: Tok, b: Tok, x: seq<Tok>, end: seq<Tok>)
    ensures ([a] + ([b] + x) + end)[1..] == [b] + (x + end)
  {
  }

  lemma RegroupTokens(a: seq<Tok>, sep: seq<Tok>, b: seq<Tok>, end: seq<Tok>)
    ensures a + sep + b + end == a + (sep + (b + end))
  {
  }

  /** What the member loop makes of the tokens that end the object. */
  lemma MembersEnd(key: string, child: Value, text: string, acc: map<string, Value>, tail: seq<Tok>, more: seq<Tok>)
    requires EndsObject(tail, false) && NextTok(text).0 == Colon && ValueOf(NextTok(text).1).0 == child
    requires Lexes(ValueOf(NextTok(text).1).1, tail + more)
    ensures var r := Members(Str(key), text, acc);
            r.0 == VObj(acc[key := child]) && Lexes(r.1, more)
  {
    hide Lexes, NextTok, ValueOf;
    var s := ValueOf(NextTok(text).1).1;
    assert tail + more == [tail[0]] + (tail[1..] + more);
    LexOne(s, tail[0], tail[1..] + more);
    if |tail| == 1 {
      assert tail[1..] + more == more;
    } else {
      assert tail[1..] + more == [tail[1]] + (tail[2..] + more);
      LexOne(NextTok(s).1, tail[1], tail[2..] + more);
      if |tail| == 2 {
        assert tail[2..] + more == more;
      } else {
        assert tail[2..] + more == [tail[2]] + more;
        LexOne(NextTok(NextTok(s).1).1, tail[2], more);
      }
    }
  }

  lemma {:induction false} ParsesMembers(ms: seq<Member>, text: string, acc: map<string, Value>,
          tail: seq<Tok>, more: seq<Tok>)
    requires ms != [] && EndsObject(tail, false) && Lexes(text, (MemberTokens(ms) + (tail + more))[1..])
    ensures var r := Members(Str(ms[0].key), text, acc);
            r.0 == VObj(MembersMeaning(ms, acc)) && Lexes(r.1, more)
    decreases ms, 0
  {
    hide Lexes, NextTok, EndsObject;
    var end := tail + more;
    MemberTokensRest(ms, end);
    var close := if |ms| == 1 then end else [Comma] + (MemberTokens(ms[1..]) + end);
    var m := ms[0];
    LexOne(text, Colon, Tokens(m.value) + close);
    var s1 := NextTok(text).1;
    ParsesDoc(m.value, s1, close);
    var s2 := ValueOf(s1).1;
    if |ms| == 1 {
      MembersEnd(m.key, Meaning(m.value), text, acc, tail, more);
      assert MembersMeaning(ms[1..], acc[m.key := Meaning(m.value)]) == acc[m.key := Meaning(m.value)];
    } else {
      var rest := MemberTokens(ms[1..]) + end;
      LexOne(s2, Comma, rest);
      MemberTokensFirst(ms[1..], end);
      LexOne(NextTok(s2).1, Str(ms[1].key), rest[1..]);
      ParsesMembers(ms[1..], NextTok(NextTok(s2).1).1, acc[m.key := Meaning(m.value)], tail, more);
    }
  }

  lemma {:induction false} ParsesArray(es: seq<Doc>, text: string, more: seq<Tok>)
    requires Lexes(text, Tokens(DArr(es)) + more)
    ensures ValueOf(text).0 == Meaning(DArr(es)) && Lexes(ValueOf(text).1, more)
    decreases es, 2
  {
    hide Lexes, NextTok;
    assert Tokens(DArr(es)) + more == [Lbracket] + (ElemTokens(es) + ([Rbracket] + more));
    ArrayEnds(es, Rbracket, text, more);
  }

  /** Any token but a comma ends an array behind an element; behind the opening bracket only the
      closing one does. */
  lemma {:induction false} ArrayEnds(es: seq<Doc>, last: Tok, text: string, more: seq<Tok>)
    requires (if es == [] then last == Rbracket else last != Comma)
    requires Lexes(text, [Lbracket] + (ElemTokens(es) + ([last] + more)))
    ensures ValueOf(text).0 == Meaning(DArr(es)) && Lexes(ValueOf(text).1, more)
    decreases es, 1
  {
    hide Lexes, NextTok;
    var toks := ElemTokens(es) + ([last] + more);
    LexOne(text, Lbracket, toks);
    var s := NextTok(text).1;
    if es == [] {
      assert toks == [Rbracket] + more;
      LexOne(s, Rbracket, more);
    } else {
      FirstToken(es[0]);
      assert toks == [Tokens(es[0])[0]] + toks[1..];
      LexOne(s, Tokens(es[0])[0], toks[1..]);
      ParsesElements(es, s, [], last, more);
    }
  }

  lemma ElemTokensRest(es: seq<Doc>, end: seq<Tok>)
    requires es != []
    ensures ElemTokens(es) + end
         == Tokens(es[0]) + (if |es| == 1 then end else [Comma] + (ElemTokens(es[1..]) + end))
  {
    hide Tokens;
    var toks, rest := Tokens(es[0]), ElemTokens(es[1..]);
    RegroupTokens(toks, if |es| == 1 then [] else [Comma], rest, end);
    if |es| == 1 {
      assert rest == [] && [] + (rest + end) == end;
    }
  }

  lemma ElemsUnfold(es: seq<Doc>, acc: seq<Value>)
    requires es != []
    ensures acc + ElemsMeaning(es) == (acc + [Meaning(es[0])]) + ElemsMeaning(es[1..])
  {
  }

  lemma {:induction false} ParsesElements(es: seq<Doc>, text: string, acc: seq<Value>, last: Tok, more: seq<Tok>)
    requires es != [] && last != Comma && Lexes(text, ElemTokens(es) + ([last] + more))
    ensures var r := Elements(text, acc);
            r.0 == VArr(acc + ElemsMeaning(es)) && Lexes(r.1, more)
    decreases es, 0
  {
    hide Lexes, NextTok;
    var end := [last] + more;
    ElemTokensRest(es, end);
    var close := if |es| == 1 then end else [Comma] + (ElemTokens(es[1..]) + end);
    ParsesDoc(es[0], text, close);
    var s1 := ValueOf(text).1;
    if |es| == 1 {
      LexOne(s1, last, more);
      assert ElemsMeaning(es[1..]) == [];
    } else {
      var rest := ElemTokens(es[1..]) + end;
      LexOne(s1, Comma, rest);
      ParsesElements(es[1..], NextTok(s1).1, acc + [Meaning(es[0])], last, more);
      ElemsUnfold(es, acc);
    }
  }

  /** Where a value is expected, a token that starts none is used up and reads as null: after a
      comma, the closing bracket too. */
  lemma HoleReads(t: Tok, text: string, more: seq<Tok>)
    requires t in {Rbrace, Rbracket, Colon, Comma, End} && Lexes(text, [t] + more)
    ensures ValueOf(text).0 == VNull && Lexes(ValueOf(text).1, more)
  {
    hide Lexes, NextTok;
    LexOne(text, t, more);
  }

  // --- Printing --------------------------------------------------------------------------------

  function EscapeChar(c: char): string
  {
    if c == '"' then "\\\"" else if c == '\\' then "\\\\"
    else if c == '\n' then "\\n" else if c == '\t' then "\\t" else [c]
  }

  function Escape(s: string): string
  {
    if s == "" then "" else EscapeChar(s[0]) + Escape(s[1..])
  }

  function Show(t: Tok): string
  {
    match t
    case Lbrace => "{"
    case Rbrace => "}"
    case Lbracket => "["
    case Rbracket => "]"
    case Colon => ":"
    case Comma => ","
    case Str(s) => "\"" + (Escape(s) + "\"")
    case Num(x) => x
    case True => "true"
    case False => "false"
    case Null => "null"
    case End => ""
  }

  /** A printed token and the whitespace in front of it. */
  datatype Piece = Piece(ws: string, tok: Tok)
  {
    predicate Printable()
    {
      && (forall k :: 0 <= k < |ws| ==> Space(ws[k])) && tok != End
      && (tok.Num? ==> tok.lexeme != "" && forall k :: 0 <= k < |tok.lexeme| ==> NumChar(tok.lexeme[k]))
    }
  }

  function Print(pieces: seq<Piece>): string
  {
    if pieces == [] then "" else pieces[0].ws + (Show(pieces[0].tok) + Print(pieces[1..]))
  }

  function PieceTokens(pieces: seq<Piece>): seq<Tok>
  {
    if pieces == [] then [] else [pieces[0].tok] + PieceTokens(pieces[1..])
  }

  /** An escaped string reads back as itself. */
  lemma {:induction false} ReadsEscaped(x: string, rest: string)
    ensures ReadString(Escape(x) + "\"" + rest) == (x, rest)
    decreases |x|
  {
    hide ReadString, EscapeChar;
    if x == "" {
      ReadStringEnd("\"" + rest, 0);
      assert Escape(x) + "\"" + rest == "\"" + rest;
      assert ("\"" + rest)[1..] == rest;
    } else {
      var tail := Escape(x[1..]) + "\"" + rest;
      EscapeFirst(x, rest);
      ReadsEscapedChar(x[0], tail);
      ReadsEscaped(x[1..], rest);
      assert x == [x[0]] + x[1..];
    }
  }

  lemma EscapeFirst(x: string, rest: string)
    requires x != ""
    ensures Escape(x) + "\"" + rest == EscapeChar(x[0]) + (Escape(x[1..]) + "\"" + rest)
  {
    hide EscapeChar;
  }

  lemma ReadsEscapedChar(c: char, tail: string)
    ensures ReadString(EscapeChar(c) + tail) == ([c] + ReadString(tail).0, ReadString(tail).1)
  {
    var e := EscapeChar(c);
    assert (e + tail)[|e|..] == tail;
    assert (e + tail)[0] == e[0] && (|e| == 2 ==> (e + tail)[1] == e[1]);
  }

  lemma SkipsSpace(ws: string, s: string)
    requires (forall k :: 0 <= k < |ws| ==> Space(ws[k])) && (s != "" ==> !Space(s[0]))
    ensures Trim(ws + s) == s
  {
    RunUnique(ws + s, Space, |ws|);
  }

  /** A printed token is read back, unless a number runs into what follows. */
  lemma ReadsToken(p: Piece, rest: string)
    requires p.Printable() && (p.tok.Num? && rest != "" ==> !NumChar(rest[0]))
    ensures NextTok(p.ws + (Show(p.tok) + rest)) == (p.tok, rest)
  {
    hide TokAt, Trim;
    var s := Show(p.tok) + rest;
    ShowsStart(p);
    assert s[0] == Show(p.tok)[0];
    SkipsSpace(p.ws, s);
    if p.tok.Num? {
      ReadsNumber(p.tok.lexeme, rest);
    } else if p.tok.Str? {
      ReadsString(p.tok.s, rest);
    } else {
      ReadsFixed(p.tok, rest);
    }
  }

  lemma ShowsStart(p: Piece)
    requires p.Printable()
    ensures Show(p.tok) != "" && !Space(Show(p.tok)[0])
  {
  }

  lemma ReadsNumber(x: string, rest: string)
    requires x != "" && (forall k :: 0 <= k < |x| ==> NumChar(x[k])) && (rest != "" ==> !NumChar(rest[0]))
    ensures TokAt(x + rest) == (Num(x), rest)
  {
    var s := x + rest;
    RunUnique(s, NumChar, |x|);
    assert s[0] == x[0] && s[..|x|] == x && s[|x|..] == rest;
  }

  lemma ReadsString(x: string, rest: string)
    ensures TokAt(("\"" + (Escape(x) + "\"")) + rest) == (Str(x), rest)
  {
    var s := ("\"" + (Escape(x) + "\"")) + rest;
    assert s[0] == '"' && s[1..] == Escape(x) + "\"" + rest;
    ReadsEscaped(x, rest);
  }

  lemma ReadsFixed(t: Tok, rest: string)
    requires !t.Num? && !t.Str? && t != End
    ensures TokAt(Show(t) + rest) == (t, rest)
  {
    var s := Show(t) + rest;
    assert s[0] == Show(t)[0] && s[|Show(t)|..] == rest && Show(t) <= s;
  }

  predicate Digits(s: string)
  {
    s != "" && forall k :: 0 <= k < |s| ==> '0' <= s[k] <= '9'
  }

  /** The numbers of section 6 of RFC 8259: sign, whole part, fraction and exponent, with leading
      zeros allowed as well. */
  ghost predicate JsonNumber(x: string)
  {
    exists sign: string, whole: string, frac: string, exp: string :: NumberParts(x, sign, whole, frac, exp)
  }

  ghost predicate NumberParts(x: string, sign: string, whole: string, frac: string, exp: string)
  {
    && x == sign + whole + frac + exp && (sign == "" || sign == "-") && Digits(whole)
    && (frac != "" ==> frac[0] == '.' && Digits(frac[1..]))
    && (exp != "" ==> exp[0] in {'e', 'E'} && (Digits(exp[1..])
                                              || (|exp| > 1 && exp[1] in {'+', '-'} && Digits(exp[2..]))))
  }

  /** Every number of the standard, behind any whitespace of the standard, is a token that the
      round trip covers. */
  lemma StandardNumber(ws: string, x: string)
    requires (forall k :: 0 <= k < |ws| ==> ws[k] in {' ', '\t', '\n', '\r'}) && JsonNumber(x)
    ensures Piece(ws, Num(x)).Printable()
  {
    var sign, whole, frac, exp :| NumberParts(x, sign, whole, frac, exp);
    DigitChars(whole);
    if frac != "" {
      DigitChars(frac[1..]);
      NumChars([frac[0]], frac[1..]);
      assert frac == [frac[0]] + frac[1..];
    }
    if exp != "" {
      ExponentChars(exp);
    }
    NumChars(sign, whole);
    NumChars(sign + whole, frac);
    NumChars(sign + whole + frac, exp);
  }

  lemma ExponentChars(exp: string)
    requires exp != "" && exp[0] in {'e', 'E'}
    requires Digits(exp[1..]) || (|exp| > 1 && exp[1] in {'+', '-'} && Digits(exp[2..]))
    ensures forall k :: 0 <= k < |exp| ==> NumChar(exp[k])
  {
    if Digits(exp[1..]) {
      DigitChars(exp[1..]);
      NumChars([exp[0]], exp[1..]);
      assert exp == [exp[0]] + exp[1..];
    } else {
      DigitChars(exp[2..]);
      NumChars([exp[0], exp[1]], exp[2..]);
      assert exp == [exp[0], exp[1]] + exp[2..];
    }
  }

  lemma DigitChars(s: string)
    requires Digits(s)
    ensures forall k :: 0 <= k < |s| ==> NumChar(s[k])
  {
  }

  lemma NumChars(a: string, b: string)
    requires (forall k :: 0 <= k < |a| ==> NumChar(a[k])) && (forall k :: 0 <= k < |b| ==> NumChar(b[k]))
    ensures forall k :: 0 <= k < |a + b| ==> NumChar((a + b)[k])
  {
    hide NumChar;
  }

  // --- Layout ------------------------------------------------------------------------------------

  ghost predicate Layout(pieces: seq<Piece>, toks: seq<Tok>)
  {
    PieceTokens(pieces) == toks && forall k :: 0 <= k < |pieces| ==> pieces[k].Printable()
  }

  /** No number token is directly followed by another one. */
  ghost predicate Apart(toks: seq<Tok>)
  {
    forall k :: 0 <= k < |toks| - 1 ==> !(toks[k].Num? && toks[k + 1].Num?)
  }

  /** What follows a text whose last token is a number must not continue the number. */
  predicate EndsNumber(toks: seq<Tok>, tail: string)
  {
    toks != [] && toks[|toks| - 1].Num? && tail != "" ==> !NumChar(tail[0])
  }

  lemma PrintStart(pieces: seq<Piece>, tail: string)
    requires pieces != [] && pieces[0].Printable() && !pieces[0].tok.Num?
    ensures Print(pieces) + tail != "" && !NumChar((Print(pieces) + tail)[0])
  {
    var p := pieces[0];
    if p.ws != "" {
      assert Print(pieces)[0] == p.ws[0];
    } else {
      assert Print(pieces) == Show(p.tok) + Print(pieces[1..]);
      assert Print(pieces)[0] == Show(p.tok)[0];
    }
  }

  lemma {:induction false} PrintLexes(pieces: seq<Piece>, toks: seq<Tok>, tail: string)
    requires Layout(pieces, toks) && Apart(toks) && EndsNumber(toks, tail)
    ensures Lexes(Print(pieces) + tail, toks)
    decreases |pieces|
  {
    hide NextTok, Show, Print, Layout, Apart, EndsNumber;
    LayoutNonEmpty(pieces, toks);
    if toks != [] {
      var p, rest := pieces[0], Print(pieces[1..]) + tail;
      PrintFirst(pieces, tail);
      LayoutRest(pieces, toks, tail);
      ReadsToken(p, rest);
      PrintLexes(pieces[1..], toks[1..], tail);
    }
  }

  lemma LayoutNonEmpty(pieces: seq<Piece>, toks: seq<Tok>)
    requires Layout(pieces, toks)
    ensures |pieces| == |toks|
    ensures pieces != [] ==> pieces[0].tok == toks[0] && PieceTokens(pieces[1..]) == toks[1..]
    decreases |pieces|
  {
    if pieces != [] {
      assert toks == [pieces[0].tok] + PieceTokens(pieces[1..]);
      LayoutNonEmpty(pieces[1..], PieceTokens(pieces[1..]));
    }
  }

  lemma PrintFirst(pieces: seq<Piece>, tail: string)
    requires pieces != []
    ensures Print(pieces) + tail == pieces[0].ws + (Show(pieces[0].tok) + (Print(pieces[1..]) + tail))
  {
    hide Show;
  }

  lemma LayoutRest(pieces: seq<Piece>, toks: seq<Tok>, tail: string)
    requires Layout(pieces, toks) && Apart(toks) && EndsNumber(toks, tail) && pieces != [] && toks != []
    ensures Layout(pieces[1..], toks[1..]) && Apart(toks[1..]) && EndsNumber(toks[1..], tail)
    ensures pieces[0].Printable() && pieces[0].tok == toks[0]
    ensures var rest := Print(pieces[1..]) + tail; toks[0].Num? && rest != "" ==> !NumChar(rest[0])
  {
    hide Show, NumChar, Space;
    LayoutNonEmpty(pieces, toks);
    if toks[0].Num? {
      if |toks| > 1 {
        LayoutNonEmpty(pieces[1..], toks[1..]);
        assert !toks[1].Num?;
        PrintStart(pieces[1..], tail);
      } else {
        assert pieces[1..] == [] && Print([]) + tail == tail;
      }
    }
  }

  lemma ApartConcat(a: seq<Tok>, b: seq<Tok>)
    requires Apart(a) && Apart(b) && (a != [] && b != [] ==> !a[|a| - 1].Num? || !b[0].Num?)
    ensures Apart(a + b)
  {
  }

  lemma {:induction false} TokensApart(d: Doc)
    ensures Apart(Tokens(d))
    decreases d
  {
    match d {
      case DObj(ms) => MembersApart(ms);
      case DArr(es) => ElemsApart(es);
      case DNull =>
      case DStr(s) =>
      case DNum(x) =>
      case DBool(b) =>
    }
    if d.DObj? {
      ApartConcat([Lbrace], MemberTokens(d.members));
      ApartConcat([Lbrace] + MemberTokens(d.members), [Rbrace]);
    } else if d.DArr? {
      ApartConcat([Lbracket], ElemTokens(d.elems));
      ApartConcat([Lbracket] + ElemTokens(d.elems), [Rbracket]);
    }
  }

  lemma {:induction false} MembersApart(ms: seq<Member>)
    ensures Apart(MemberTokens(ms))
    decreases ms
  {
    hide Tokens;
    if ms != [] {
      TokensApart(ms[0].value);
      MembersApart(ms[1..]);
      SeparatedApart(Tokens(ms[0].value), MemberTokens(ms[1..]), |ms| == 1);
      var x := Tokens(ms[0].value) + (if |ms| == 1 then [] else [Comma]) + MemberTokens(ms[1..]);
      ApartConcat([Colon], x);
      ApartConcat([Str(ms[0].key)], [Colon] + x);
    }
  }

  lemma {:induction false} ElemsApart(es: seq<Doc>)
    ensures Apart(ElemTokens(es))
    decreases es
  {
    hide Tokens;
    if es != [] {
      TokensApart(es[0]);
      ElemsApart(es[1..]);
      SeparatedApart(Tokens(es[0]), ElemTokens(es[1..]), |es| == 1);
    }
  }

  lemma SeparatedApart(a: seq<Tok>, b: seq<Tok>, last: bool)
    requires Apart(a) && Apart(b) && (last ==> b == [])
    ensures Apart(a + (if last then [] else [Comma]) + b)
  {
    ApartConcat(a, if last then [] else [Comma]);
    ApartConcat(a + (if last then [] else [Comma]), b);
  }

  /** Reading inverts printing: every document, printed with any whitespace between its tokens
      and anything behind it, is read back as its meaning. */
  lemma RoundTrip(d: Doc, pieces: seq<Piece>, tail: string)
    requires Layout(pieces, Tokens(d)) && EndsNumber(Tokens(d), tail)
    ensures ValueOf(Print(pieces) + tail).0 == Meaning(d)
  {
    TokensApart(d);
    PrintLexes(pieces, Tokens(d), tail);
    assert Tokens(d) + [] == Tokens(d);
    ParsesDoc(d, Print(pieces) + tail, []);
  }

  /** Escapes outside the subset (section 7 of RFC 8259 has \r, \b, \f and \u as well) read
      as their letter. */
  lemma EscapeOutsideSubset(c: char)
    requires c !in {'n', 't', '"', '\\'}
    ensures ValueOf("\"\\" + [c] + "\"").0 == VStr([c])
  {
    var s := "\"\\" + [c] + "\"";
    assert Run(s, Space) == 0 && Trim(s) == s;
    var body := s[1..];
    assert body == ['\\', c, '"'];
    ReadStringStep(body, 0, "");
    ReadStringEnd(body, 2);
    assert body[0..] == body;
    assert "" + ReadString(body).0 == ReadString(body).0;
  }

  /** No token starts with the character the text begins with. */
  predicate StartsNothing(text: string)
  {
    && text != "" && !Space(text[0]) && !NumChar(text[0]) && Punctuation(text[0]) == End && text[0] != '"'
    && !("true" <= text) && !("false" <= text) && !("null" <= text)
  }

  /** The lexer does not move over a text exactly when no token starts there; then it delivers
      an empty number, again and again, and the value read is that number. */
  lemma StuckOnUnknown(text: string)
    requires text != ""
    ensures NextTok(text).1 == text <==> StartsNothing(text)
    ensures StartsNothing(text) ==> NextTok(text) == (Num(""), text) && ValueOf(text) == (VNum(""), text)
  {
    if StartsNothing(text) {
      assert Run(text, Space) == 0 && text[0..] == text && text[..0] == "";
      assert Run(text, NumChar) == 0;
    }
  }
}
