/** The overlay file's text layer: trimming, flow maps and flow sequences. */
module OverlayText {

  predicate Space(c: char)
  {
    c == ' ' || c == '\t' || c == '\n' || c == '\r' || c == '\U{0B}' || c == '\U{0C}'
  }

  /** Index of the first `c`, or the length. */
  function Find(s: string, c: char): (k: nat)
    ensures k <= |s| && (forall j :: 0 <= j < k ==> s[j] != c) && (k < |s| ==> s[k] == c)
  {
    if s == "" || s[0] == c then 0 else 1 + Find(s[1..], c)
  }

  /** Index of the last `c`, or the length. */
  function RFind(s: string, c: char): (k: nat)
    ensures k <= |s| && (k < |s| ==> s[k] == c)
    ensures forall j :: (if k < |s| then k else -1) < j < |s| ==> s[j] != c
  {
    if s == "" then 0
    else if s[|s| - 1] == c then |s| - 1
    else
      var k := RFind(s[..|s| - 1], c);
      if k < |s| - 1 then k else |s|
  }

  function TrimLeft(s: string): string
  {
    if s != "" && Space(s[0]) then TrimLeft(s[1..]) else s
  }

  function TrimRight(s: string): string
  {
    if s != "" && Space(s[|s| - 1]) then TrimRight(s[..|s| - 1]) else s
  }

  function Trim(s: string): string
  {
    TrimRight(TrimLeft(s))
  }

  /** Without one pair of matching outer quotes. */
  function Dequote(text: string): string
  {
    var s := Trim(text);
    if |s| >= 2 && ((s[0] == '"' && s[|s| - 1] == '"') || (s[0] == '\'' && s[|s| - 1] == '\''))
    then s[1..|s| - 1] else s
  }

  /** What is in front of position `c` and behind it; if `c` is the length, both are the text
      (the position past the end wraps around to the front). */
  function Before(s: string, c: nat): string
  {
    if c < |s| then s[..c] else s
  }

  function Behind(s: string, c: nat): string
  {
    if c < |s| then s[c + 1..] else s
  }

  // --- Flow maps ------------------------------------------------------------------------

  /** The parts between commas; an empty last part does not count. */
  function Parts(s: string): (r: seq<string>)
    decreases |s|
  {
    if s == "" then [] else
    var c := Find(s, ',');
    if c == |s| then [s] else [s[..c]] + Parts(s[c + 1..])
  }

  /** The entries of `key: value` parts; parts without a colon are skipped. */
  function Entries(parts: seq<string>, acc: map<string, string>): map<string, string>
  {
    if parts == [] then acc else
    var p := parts[0];
    var colon := Find(p, ':');
    Entries(parts[1..], if colon == |p| then acc else acc[Trim(p[..colon]) := Dequote(Trim(p[colon + 1..]))])
  }

  datatype Result<T> = Ok(value: T) | BadFlowMap(body: string) | NoNodes

  function FlowMap(body: string): (r: Result<map<string, string>>)
    ensures r.Ok? || r == BadFlowMap(body)
  {
    var lb, rb := Find(body, '{'), RFind(body, '}');
    if lb == |body| || rb == |body| || rb <= lb then BadFlowMap(body)
    else Ok(Entries(Parts(body[lb + 1..rb]), map[]))
  }

  method SplitParts(inner: string) returns (parts: seq<string>)
    ensures parts == Parts(inner)
  {
    hide Parts, Find;
    var tok := "";
    parts := [];
    assert "" + inner[0..] == inner;
    for k := 0 to |inner|
      invariant parts + Parts(tok + inner[k..]) == Parts(inner)
      invariant forall j :: 0 <= j < |tok| ==> tok[j] != ','
    {
      OneMore(tok, inner, k);
      if inner[k] == ',' {
        PartsStep(tok, inner, k, parts);
        parts := parts + [tok];
        tok := "";
      } else {
        tok := tok + [inner[k]];
      }
    }
    PartsEnd(tok, inner);
    if tok != "" {
      parts := parts + [tok];
    }
  }

  lemma FindIs(s: string, c: char, k: nat)
    requires k <= |s| && (forall j :: 0 <= j < k ==> s[j] != c) && (k < |s| ==> s[k] == c)
    ensures Find(s, c) == k
  {
    var f := Find(s, c);
  }

  /** A token in progress followed by a comma, or by one more character of the token. */
  lemma CommaAt(tok: string, inner: string, k: nat)
    requires k < |inner| && inner[k] == ',' && forall j :: 0 <= j < |tok| ==> tok[j] != ','
    ensures var s := tok + inner[k..];
            Find(s, ',') == |tok| < |s| && s[..|tok|] == tok && s[|tok| + 1..] == "" + inner[k + 1..]
  {
    hide Find;
    FindIs(tok + inner[k..], ',', |tok|);
  }

  lemma OneMore(tok: string, inner: string, k: nat)
    requires k < |inner|
    ensures tok + inner[k..] == (tok + [inner[k]]) + inner[k + 1..]
  {
  }

  lemma NoneLeft(tok: string, inner: string)
    requires forall j :: 0 <= j < |tok| ==> tok[j] != ','
    ensures tok + inner[|inner|..] == tok && Find(tok, ',') == |tok|
  {
    hide Find;
    FindIs(tok, ',', |tok|);
  }

  lemma PartsComma(s: string, c: nat)
    requires c < |s| && Find(s, ',') == c
    ensures Parts(s) == [s[..c]] + Parts(s[c + 1..])
  {
    hide Find;
  }

  lemma Regroup(out: seq<string>, x: string, rest: seq<string>)
    ensures out + ([x] + rest) == (out + [x]) + rest
  {
  }

  lemma PartsStep(tok: string, inner: string, k: nat, parts: seq<string>)
    requires k < |inner| && inner[k] == ',' && forall j :: 0 <= j < |tok| ==> tok[j] != ','
    ensures parts + Parts(tok + inner[k..]) == (parts + [tok]) + Parts("" + inner[k + 1..])
  {
    hide Find, Parts;
    CommaAt(tok, inner, k);
    PartsComma(tok + inner[k..], |tok|);
    Regroup(parts, tok, Parts("" + inner[k + 1..]));
  }

  lemma PartsEnd(tok: string, inner: string)
    requires forall j :: 0 <= j < |tok| ==> tok[j] != ','
    ensures Parts(tok + inner[|inner|..]) == if tok == "" then [] else [tok]
  {
    NoneLeft(tok, inner);
  }

  lemma EntriesStep(parts: seq<string>, k: nat, acc: map<string, string>)
    requires k < |parts|
    ensures var p, colon := parts[k], Find(parts[k], ':');
            Entries(parts[k..], acc)
            == Entries(parts[k + 1..],
                       if colon == |p| then acc else acc[Trim(p[..colon]) := Dequote(Trim(p[colon + 1..]))])
  {
    hide Find, Trim, Dequote;
    assert parts[k..][1..] == parts[k + 1..];
  }

  method ParseFlowMap(body: string) returns (r: Result<map<string, string>>)
    ensures r == FlowMap(body)
  {
    hide Find, RFind, Trim, Dequote, Parts;
    var lb, rb := Find(body, '{'), RFind(body, '}');
    if lb == |body| || rb == |body| || rb <= lb {
      return BadFlowMap(body);
    }
    var parts := SplitParts(body[lb + 1..rb]);
    var out: map<string, string> := map[];
    for k := 0 to |parts|
      invariant Entries(parts[k..], out) == Entries(parts, map[])
    {
      var p := parts[k];
      EntriesStep(parts, k, out);
      var colon := Find(p, ':');
      if colon < |p| {
        out := out[Trim(p[..colon]) := Dequote(Trim(p[colon + 1..]))];
      }
    }
    r := Ok(out);
  }

  // --- Flow sequences -------------------------------------------------------------------

  function Items(s: string): seq<string>
    decreases |s|
  {
    var c := Find(s, ',');
    if c < |s| then [Dequote(Trim(s[..c]))] + Items(s[c + 1..])
    else if Trim(s) == "" then [] else [Dequote(Trim(s))]
  }

  function FlowSeq(body: string): seq<string>
  {
    var lb, rb := Find(body, '['), RFind(body, ']');
    if lb == |body| || rb == |body| then [] else
    Items(if rb < lb then body[lb + 1..] else body[lb + 1..rb])
  }

  lemma ItemsComma(s: string, c: nat)
    requires c < |s| && Find(s, ',') == c
    ensures Items(s) == [Dequote(Trim(s[..c]))] + Items(s[c + 1..])
  {
    hide Find, Dequote, Trim;
  }

  lemma ItemsStep(tok: string, inner: string, k: nat, out: seq<string>)
    requires k < |inner| && inner[k] == ',' && forall j :: 0 <= j < |tok| ==> tok[j] != ','
    ensures out + Items(tok + inner[k..]) == (out + [Dequote(Trim(tok))]) + Items("" + inner[k + 1..])
  {
    hide *;
    var s, rest := tok + inner[k..], "" + inner[k + 1..];
    CommaAt(tok, inner, k);
    ItemsComma(s, |tok|);
    Regroup(out, Dequote(Trim(tok)), Items(rest));
  }

  lemma ItemsEnd(tok: string, inner: string)
    requires forall j :: 0 <= j < |tok| ==> tok[j] != ','
    ensures Items(tok + inner[|inner|..]) == if Trim(tok) == "" then [] else [Dequote(Trim(tok))]
  {
    NoneLeft(tok, inner);
  }

  method ParseFlowSeq(body: string) returns (out: seq<string>)
    ensures out == FlowSeq(body)
  {
    hide Find, RFind, Dequote, Trim, Items;
    out := [];
    var lb, rb := Find(body, '['), RFind(body, ']');
    if lb == |body| || rb == |body| {
      return;
    }
    var inner := if rb < lb then body[lb + 1..] else body[lb + 1..rb];
    var tok := "";
    assert "" + inner[0..] == inner;
    for k := 0 to |inner|
      invariant out + Items(tok + inner[k..]) == Items(inner)
      invariant forall j :: 0 <= j < |tok| ==> tok[j] != ','
    {
      OneMore(tok, inner, k);
      if inner[k] == ',' {
        ItemsStep(tok, inner, k, out);
        out := out + [Dequote(Trim(tok))];
        tok := "";
      } else {
        tok := tok + [inner[k]];
      }
    }
    ItemsEnd(tok, inner);
    if Trim(tok) != "" {
      out := out + [Dequote(Trim(tok))];
    }
  }
}
