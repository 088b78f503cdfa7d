/** The manifest reader: a hand-written JSON lexer and recursive-descent parser. */
module Json {

  // --- Tokens ----------------------------------------------------------------------------

  datatype Tok =
    | Lbrace | Rbrace | Lbracket | Rbracket | Colon | Comma
    | Str(s: string) | Num(lexeme: string) | True | False | Null | End

  predicate Space(c: char)
  {
    c == ' ' || c == '\n' || c == '\r' || c == '\t'
  }

  predicate NumChar(c: char)
  {
    '0' <= c <= '9' || c == '.' || c == 'e' || c == 'E' || c == '+' || c == '-'
  }

  /** How many leading characters satisfy `p`. */
  function Run(s: string, p: char -> bool): (n: nat)
    ensures n <= |s| && (forall k :: 0 <= k < n ==> p(s[k])) && (n < |s| ==> !p(s[n]))
  {
    if s == "" || !p(s[0]) then 0 else 1 + Run(s[1..], p)
  }

  lemma {:induction false} RunUnique(s: string, p: char -> bool, n: nat)
    requires n <= |s| && (forall k :: 0 <= k < n ==> p(s[k])) && (n < |s| ==> !p(s[n]))
    ensures Run(s, p) == n
  {
    var m := Run(s, p);
  }

  function Unescape(c: char): char
  {
    if c == 'n' then '\n' else if c == 't' then '\t' else c
  }

  /** What follows an opening quote: the string's characters, and the text behind it. */
  function ReadString(s: string): (r: (string, string))
    ensures |r.1| <= |s|
    decreases |s|
  {
    if s == "" then ("", "")
    else if s[0] == '"' then ("", s[1..])
    else if s[0] == '\\' && |s| > 1 then
      var rest := ReadString(s[2..]);
      ([Unescape(s[1])] + rest.0, rest.1)
    else
      var rest := ReadString(s[1..]);
      ([s[0]] + rest.0, rest.1)
  }

  lemma Escape(rest: string)
    requires |rest| > 1 && rest[0] == '\\'
    ensures ReadString(rest) == ([Unescape(rest[1])] + ReadString(rest[2..]).0, ReadString(rest[2..]).1)
  {
  }

  lemma OneChar(rest: string)
    requires rest != "" && rest[0] != '"' && (rest[0] == '\\' ==> |rest| == 1)
    ensures ReadString(rest) == ([rest[0]] + ReadString(rest[1..]).0, ReadString(rest[1..]).1)
  {
  }

  lemma ReadStringStep(text: string, k: nat, s: string)
    requires k < |text| && text[k] != '"'
    ensures var r := ReadString(text[k..]);
            if text[k] == '\\' && k + 1 < |text| then
              var more := ReadString(text[k + 2..]);
              r.1 == more.1 && s + r.0 == (s + [Unescape(text[k + 1])]) + more.0
            else
              var more := ReadString(text[k + 1..]);
              r.1 == more.1 && s + r.0 == (s + [text[k]]) + more.0
  {
    hide Unescape, ReadString;
    var rest := text[k..];
    if text[k] == '\\' && k + 1 < |text| {
      Escape(rest);
      assert rest[2..] == text[k + 2..];
      Regroup(s, Unescape(text[k + 1]), ReadString(text[k + 2..]).0);
    } else {
      OneChar(rest);
      assert rest[1..] == text[k + 1..];
      Regroup(s, text[k], ReadString(text[k + 1..]).0);
    }
  }

  lemma Regroup(s: string, c: char, t: string)
    ensures s + ([c] + t) == (s + [c]) + t
  {
  }

  lemma ReadStringEnd(text: string, k: nat)
    requires k <= |text| && (k < |text| ==> text[k] == '"')
    ensures ReadString(text[k..]) == ("", if k < |text| then text[k + 1..] else "")
  {
    if k < |text| {
      assert text[k..][1..] == text[k + 1..];
    }
  }

  function Trim(s: string): (r: string)
    ensures |r| <= |s| && (r != "" ==> !Space(r[0]))
  {
    s[Run(s, Space)..]
  }

  function Punctuation(c: char): Tok
  {
    match c
    case '{' => Lbrace
    case '}' => Rbrace
    case '[' => Lbracket
    case ']' => Rbracket
    case ':' => Colon
    case ',' => Comma
    case _ => End
  }

  /** A keyword, or a number lexeme; the lexeme is empty at a character no token starts with. */
  function WordAt(s: string): (r: (Tok, string))
    ensures |r.1| <= |s| && r.0 != End && (r.0 != Num("") ==> |r.1| < |s|)
  {
    if "true" <= s then (True, s[4..])
    else if "false" <= s then (False, s[5..])
    else if "null" <= s then (Null, s[4..])
    else var n := Run(s, NumChar); (Num(s[..n]), s[n..])
  }

  function TokAt(s: string): (r: (Tok, string))
    requires s != ""
    ensures |r.1| <= |s| && r.0 != End && (r.0 != Num("") ==> |r.1| < |s|)
  {
    if Punctuation(s[0]) != End then (Punctuation(s[0]), s[1..])
    else if s[0] == '"' then (var r := ReadString(s[1..]); (Str(r.0), r.1))
    else WordAt(s)
  }

  /** The next token of a text, and the text behind it. */
  function NextTok(text: string): (r: (Tok, string))
    ensures |r.1| <= |text|
    ensures r.0 != End && r.0 != Num("") ==> |r.1| < |text|
  {
    var s := Trim(text);
    if s == "" then (End, s) else TokAt(s)
  }

  // --- Values ----------------------------------------------------------------------------

  /** A parsed value; a number is kept as its lexeme. */
  datatype Value =
    | VNull | VStr(s: string) | VNum(lexeme: string) | VBool(b: bool)
    | VObj(obj: map<string, Value>) | VArr(arr: seq<Value>)

  function ValueOf(text: string): (r: (Value, string))
    ensures |r.1| <= |text|
    decreases |text|, 0
  {
    var (t, s) := NextTok(text);
    match t
    case Lbrace => ObjectOf(s)
    case Lbracket => ArrayOf(s)
    case Str(x) => (VStr(x), s)
    case Num(x) => (VNum(x), s)
    case True => (VBool(true), s)
    case False => (VBool(false), s)
    case _ => (VNull, s)
  }

  function ObjectOf(text: string): (r: (Value, string))
    ensures |r.1| <= |text|
    decreases |text|, 2
  {
    var (t, s) := NextTok(text);
    if t == Rbrace then (VObj(map[]), s) else Members(t, s, map[])
  }

  function ArrayOf(text: string): (r: (Value, string))
    ensures |r.1| <= |text|
    decreases |text|, 2
  {
    var (t, s) := NextTok(text);
    if t == Rbracket then (VArr([]), s) else Elements(text, [])
  }

  /** The member loop, `t` being the token where a key is expected. */
  function Members(t: Tok, text: string, acc: map<string, Value>): (r: (Value, string))
    ensures |r.1| <= |text|
    decreases |text|, 1
  {
    if !t.Str? then (VObj(acc), text) else
    var (colon, s1) := NextTok(text);
    if colon != Colon then (VObj(acc), s1) else
    var (child, s2) := ValueOf(s1);
    var (next, s3) := NextTok(s2);
    if next != Comma then (VObj(acc[t.s := child]), s3) else
    var (key, s4) := NextTok(s3);
    Members(key, s4, acc[t.s := child])
  }

  function Elements(text: string, acc: seq<Value>): (r: (Value, string))
    ensures |r.1| <= |text|
    decreases |text|, 1
  {
    var (child, s1) := ValueOf(text);
    var (next, s2) := NextTok(s1);
    if next != Comma then (VArr(acc + [child]), s2) else Elements(s2, acc + [child])
  }

  // --- The reader ------------------------------------------------------------------------

  class Lex {
    const src: string
    var i: nat

    ghost predicate Valid()
      reads this
    {
      i <= |src|
    }

    constructor (src: string)
      ensures Valid() && this.src == src && i == 0
    {
      this.src := src;
      i := 0;
    }

    ghost function Text(): string
      requires Valid()
      reads this
    {
      src[i..]
    }

    /** Skip while `p` holds. */
    method Skip(p: char -> bool)
      requires Valid()
      modifies this
      ensures Valid() && i == old(i) + Run(old(Text()), p)
    {
      while i < |src| && p(src[i])
        invariant old(i) <= i <= |src| && forall k :: old(i) <= k < i ==> p(src[k])
      {
        i := i + 1;
      }
      RunUnique(src[old(i)..], p, i - old(i));
    }

    method QuotedString() returns (s: string)
      requires Valid()
      modifies this
      ensures Valid() && s == ReadString(old(Text())).0 && Text() == ReadString(old(Text())).1
    {
      hide ReadString, Unescape;
      s := "";
      while i < |src| && src[i] != '"'
        invariant old(i) <= i <= |src|
        invariant s + ReadString(src[i..]).0 == ReadString(old(Text())).0
        invariant ReadString(src[i..]).1 == ReadString(old(Text())).1
        decreases |src| - i
      {
        ReadStringStep(src, i, s);
        if src[i] == '\\' && i + 1 < |src| {
          i := i + 1;
          s := s + [Unescape(src[i])];
          i := i + 1;
        } else {
          s := s + [src[i]];
          i := i + 1;
        }
      }
      ReadStringEnd(src, i);
      if i < |src| {
        i := i + 1;
      }
    }

    method Number() returns (lexeme: string)
      requires Valid() && i < |src|
      modifies this
      ensures Valid() && var n := Run(old(Text()), NumChar); lexeme == old(Text())[..n] && Text() == old(Text())[n..]
    {
      hide Run;
      var s := i;
      if src[i] == '-' || src[i] == '+' {
        i := i + 1;
      }
      Skip(NumChar);
      RunUnique(src[s..], NumChar, i - s);
      lexeme := src[s..i];
      assert lexeme == src[s..][..i - s];
    }

    /** Does the text at the cursor start with a keyword?  Then step over it. */
    method Keyword(word: string) returns (found: bool)
      requires Valid()
      modifies this
      ensures Valid() && found == (word <= old(Text())) && i == old(i) + if found then |word| else 0
    {
      found := i + |word| <= |src| && src[i..i + |word|] == word;
      if found {
        i := i + |word|;
      }
    }

    method Word() returns (t: Tok)
      requires Valid() && i < |src|
      modifies this
      ensures Valid() && t == WordAt(old(Text())).0 && Text() == WordAt(old(Text())).1
    {
      hide Run, NumChar;
      var found := Keyword("true");
      if found {
        return True;
      }
      found := Keyword("false");
      if found {
        return False;
      }
      found := Keyword("null");
      if found {
        return Null;
      }
      var lexeme := Number();
      return Num(lexeme);
    }

    method Next() returns (t: Tok)
      requires Valid()
      modifies this
      ensures Valid() && t == NextTok(old(Text())).0 && Text() == NextTok(old(Text())).1
    {
      hide Run, ReadString, WordAt, Space, Punctuation;
      Skip(Space);
      assert Text() == Trim(old(Text()));
      if i >= |src| {
        return End;
      }
      var c := src[i];
      if Punctuation(c) != End {
        i := i + 1;
        return Punctuation(c);
      }
      if c == '"' {
        i := i + 1;
        var x := QuotedString();
        return Str(x);
      }
      t := Word();
    }
  }

  method ParseValue(lex: Lex) returns (v: Value)
    requires lex.Valid()
    modifies lex
    ensures lex.Valid() && v == ValueOf(old(lex.Text())).0 && lex.Text() == ValueOf(old(lex.Text())).1
    decreases |lex.Text()|, 0
  {
    hide NextTok, Members, Elements, ObjectOf, ArrayOf;
    var t := lex.Next();
    match t
    case Lbrace => v := ParseObject(lex);
    case Lbracket => v := ParseArray(lex);
    case Str(x) => v := VStr(x);
    case Num(x) => v := VNum(x);
    case True => v := VBool(true);
    case False => v := VBool(false);
    case _ => v := VNull;
  }

  method ParseObject(lex: Lex) returns (v: Value)
    requires lex.Valid()
    modifies lex
    ensures lex.Valid() && v == ObjectOf(old(lex.Text())).0 && lex.Text() == ObjectOf(old(lex.Text())).1
    decreases |lex.Text()|, 2
  {
    hide NextTok, ValueOf;
    var obj: map<string, Value> := map[];
    var t := lex.Next();
    if t == Rbrace {
      return VObj(obj);
    }
    while true
      invariant lex.Valid() && |lex.Text()| <= |old(lex.Text())|
      invariant Members(t, lex.Text(), obj) == ObjectOf(old(lex.Text()))
      decreases |lex.Text()|
    {
      if !t.Str? {
        break;
      }
      var key := t.s;
      var colon := lex.Next();
      if colon != Colon {
        break;
      }
      var child := ParseValue(lex);
      obj := obj[key := child];
      var next := lex.Next();
      if next == Rbrace {
        break;
      }
      if next != Comma {
        break;
      }
      t := lex.Next();
    }
    v := VObj(obj);
  }

  method ParseArray(lex: Lex) returns (v: Value)
    requires lex.Valid()
    modifies lex
    ensures lex.Valid() && v == ArrayOf(old(lex.Text())).0 && lex.Text() == ArrayOf(old(lex.Text())).1
    decreases |lex.Text()|, 2
  {
    hide NextTok, ValueOf;
    var arr: seq<Value> := [];
    var saved := lex.i;
    var first := lex.Next();
    if first == Rbracket {
      return VArr(arr);
    }
    lex.i := saved;
    while true
      invariant lex.Valid() && |lex.Text()| <= |old(lex.Text())|
      invariant Elements(lex.Text(), arr) == ArrayOf(old(lex.Text()))
      decreases |lex.Text()|
    {
      var child := ParseValue(lex);
      arr := arr + [child];
      var next := lex.Next();
      if next == Rbracket {
        break;
      }
      if next != Comma {
        break;
      }
    }
    v := VArr(arr);
  }

  /** Total on every text; the cursor never passes the end. */
  method ParseRoot(src: string) returns (v: Value)
    ensures v == ValueOf(src).0
  {
    var lex := new Lex(src);
    assert lex.Text() == src;
    v := ParseValue(lex);
  }
}
