/** What the topology generator prints, the overlay loader reads back. */
module OverlayRoundTrip {
  import opened OverlayText
  import opened Overlays

  /** A name the text format can carry: no whitespace, no character the format gives a meaning. */
  predicate NameChar(c: char)
  {
    !Space(c) && c !in {',', ':', '{', '}', '[', ']', '#', '"', '\''}
  }

  predicate Name(s: string)
  {
    s != "" && forall k :: 0 <= k < |s| ==> NameChar(s[k])
  }

  // --- Trimming ---------------------------------------------------------------------------

  ghost predicate AllSpace(s: string)
  {
    forall k :: 0 <= k < |s| ==> Space(s[k])
  }

  /** Starts and ends with something other than a space. */
  predicate Tight(s: string)
  {
    s != "" && !Space(s[0]) && !Space(s[|s| - 1])
  }

  lemma {:induction false} TrimLeftPad(a: string, x: string)
    requires AllSpace(a) && x != "" && !Space(x[0])
    ensures TrimLeft(a + x) == x
    decreases |a|
  {
    if a == "" {
      assert a + x == x;
    } else {
      assert (a + x)[1..] == a[1..] + x;
      TrimLeftPad(a[1..], x);
    }
  }

  lemma {:induction false} TrimRightPad(x: string, b: string)
    requires AllSpace(b) && x != "" && !Space(x[|x| - 1])
    ensures TrimRight(x + b) == x
    decreases |b|
  {
    if b == "" {
      assert x + b == x;
    } else {
      assert (x + b)[..|x + b| - 1] == x + b[..|b| - 1];
      TrimRightPad(x, b[..|b| - 1]);
    }
  }

  lemma TrimPad(a: string, x: string, b: string)
    requires AllSpace(a) && Tight(x) && AllSpace(b)
    ensures Trim(a + x + b) == x
  {
    hide TrimLeft, TrimRight;
    assert a + x + b == a + (x + b) && (x + b)[0] == x[0];
    TrimLeftPad(a, x + b);
    TrimRightPad(x, b);
  }

  lemma DequotePad(a: string, x: string, b: string)
    requires AllSpace(a) && Name(x) && AllSpace(b)
    ensures Trim(a + x + b) == x && Dequote(Trim(a + x + b)) == x
  {
    hide Trim, Space;
    NameTight(x);
    TrimPad(a, x, b);
    TrimPad("", x, "");
    assert "" + x + "" == x;
    assert NameChar(x[0]);
  }

  lemma NameTight(x: string)
    requires Name(x)
    ensures Tight(x)
  {
    assert NameChar(x[0]) && NameChar(x[|x| - 1]);
  }

  // --- Flow maps --------------------------------------------------------------------------

  datatype Item = Item(key: string, value: string)
  {
    predicate Ok()
    {
      Name(key) && Name(value)
    }

    function Show(): string
    {
      key + ": " + value
    }
  }

  function ShowItems(items: seq<Item>): string
  {
    if items == [] then "" else
    if |items| == 1 then items[0].Show() else items[0].Show() + ", " + ShowItems(items[1..])
  }

  function RowOf(items: seq<Item>, acc: Row): Row
  {
    if items == [] then acc else RowOf(items[1..], acc[items[0].key := items[0].value])
  }

  ghost predicate AllOk(items: seq<Item>)
  {
    forall k :: 0 <= k < |items| ==> items[k].Ok()
  }

  function FlowBody(items: seq<Item>): string
  {
    "{ " + ShowItems(items) + " }"
  }

  lemma EntryOf(item: Item, pad: string, acc: Row)
    requires item.Ok() && AllSpace(pad)
    ensures Entries([" " + item.Show() + pad], acc) == acc[item.key := item.value]
    ensures forall k :: 0 <= k < |" " + item.Show() + pad| ==> (" " + item.Show() + pad)[k] != ','
  {
    hide Dequote, Trim, Find;
    var p := " " + item.Show() + pad;
    var c := 1 + |item.key|;
    assert p == " " + item.key + ":" + " " + item.value + pad;
    assert p[..c] == " " + item.key + "";
    assert p[c] == ':' && p[c + 1..] == " " + item.value + pad;
    FindIs(p, ':', c);
    NameTight(item.key);
    TrimPad(" ", item.key, "");
    DequotePad(" ", item.value, pad);
    assert [p][1..] == [];
  }

  lemma EntriesCons(p: string, parts: seq<string>, acc: Row)
    ensures Entries([p] + parts, acc) == Entries(parts, Entries([p], acc))
  {
    hide Dequote, Trim, Find;
    assert ([p] + parts)[1..] == parts && [p][1..] == [];
  }

  lemma PartsOne(s: string)
    requires s != "" && forall k :: 0 <= k < |s| ==> s[k] != ','
    ensures Parts(s) == [s]
  {
    FindIs(s, ',', |s|);
  }

  lemma PartsCons(p: string, rest: string)
    requires forall k :: 0 <= k < |p| ==> p[k] != ','
    ensures Parts(p + "," + rest) == [p] + Parts(rest)
  {
    hide Find;
    var s := p + "," + rest;
    FindIs(s, ',', |p|);
    assert s[..|p|] == p && s[|p| + 1..] == rest;
  }

  lemma {:induction false} ItemsRead(items: seq<Item>, acc: Row)
    requires AllOk(items)
    ensures Entries(Parts(" " + ShowItems(items) + " "), acc) == RowOf(items, acc)
    decreases |items|
  {
    hide Entries, Parts;
    if items == [] {
      BlankParts(acc);
    } else if |items| == 1 {
      EntryOf(items[0], " ", acc);
      PartsOne(" " + items[0].Show() + " ");
      assert items[1..] == [];
    } else {
      var p, rest := " " + items[0].Show() + "", " " + ShowItems(items[1..]) + " ";
      assert " " + ShowItems(items) + " " == p + "," + rest;
      EntryOf(items[0], "", acc);
      PartsCons(p, rest);
      EntriesCons(p, Parts(rest), acc);
      ItemsRead(items[1..], Entries([p], acc));
    }
  }

  lemma BlankParts(acc: Row)
    ensures Entries(Parts(" " + "" + " "), acc) == acc
  {
    hide Dequote, Trim;
    var s := " " + "" + " ";
    PartsOne(s);
    FindIs(s, ':', |s|);
    assert [s][1..] == [];
  }

  /** Contains none of the characters that structure the file. */
  ghost predicate Plain(s: string)
  {
    forall k :: 0 <= k < |s| ==> s[k] !in {'{', '}', '[', ']', '#', '\n', '\r'}
  }

  lemma NamePlain(s: string)
    requires Name(s)
    ensures Plain(s)
  {
    forall k | 0 <= k < |s|
      ensures s[k] !in {'{', '}', '[', ']', '#', '\n', '\r'}
    {
      assert NameChar(s[k]);
    }
  }

  lemma PlainConcat(a: string, b: string)
    requires Plain(a) && Plain(b)
    ensures Plain(a + b)
  {
  }

  lemma ItemPlain(item: Item)
    requires item.Ok()
    ensures Plain(item.Show()) && item.Show() != ""
  {
    hide Name;
    NamePlain(item.key);
    NamePlain(item.value);
    assert Plain(": ");
    PlainConcat(item.key, ": ");
    PlainConcat(item.key + ": ", item.value);
  }

  lemma {:induction false} ItemsPlain(items: seq<Item>)
    requires AllOk(items)
    ensures Plain(ShowItems(items))
    decreases |items|
  {
    if items != [] {
      ItemPlain(items[0]);
      if |items| > 1 {
        ItemsPlain(items[1..]);
        assert Plain(", ");
        PlainConcat(items[0].Show(), ", ");
        PlainConcat(items[0].Show() + ", ", ShowItems(items[1..]));
      }
    }
  }

  /** A printed flow map reads back as its entries. */
  lemma FlowMapReads(items: seq<Item>)
    requires AllOk(items)
    ensures FlowMap(FlowBody(items)) == Ok(RowOf(items, map[]))
  {
    hide Entries, Parts, ShowItems, AllOk, RowOf;
    var show, body := ShowItems(items), FlowBody(items);
    assert body == "{" + (" " + show + " ") + "}";
    FindIs(body, '{', 0);
    assert body[|body| - 1] == '}';
    assert body[1..|body| - 1] == " " + show + " ";
    ItemsRead(items, map[]);
  }

  // --- Flow sequences -----------------------------------------------------------------------

  function ShowNames(names: seq<string>): string
  {
    if names == [] then "" else
    if |names| == 1 then names[0] else names[0] + ", " + ShowNames(names[1..])
  }

  ghost predicate AllNames(names: seq<string>)
  {
    forall k :: 0 <= k < |names| ==> Name(names[k])
  }

  lemma NoComma(lead: string, x: string)
    requires AllSpace(lead) && Name(x)
    ensures forall k :: 0 <= k < |lead + x| ==> (lead + x)[k] != ','
  {
    forall k | 0 <= k < |lead + x|
      ensures (lead + x)[k] != ','
    {
      if k < |lead| {
        assert Space(lead[k]);
      } else {
        assert NameChar(x[k - |lead|]);
      }
    }
  }

  lemma ItemsOne(lead: string, x: string)
    requires AllSpace(lead) && Name(x)
    ensures Items(lead + x) == [x]
  {
    hide Name;
    NoComma(lead, x);
    FindIs(lead + x, ',', |lead + x|);
    assert lead + x == lead + x + "";
    DequotePad(lead, x, "");
    NameTight(x);
  }

  lemma ItemsCons(lead: string, x: string, rest: string)
    requires AllSpace(lead) && Name(x)
    ensures Items(lead + x + "," + rest) == [x] + Items(rest)
  {
    hide Name, Find;
    var s := lead + x + "," + rest;
    NoComma(lead, x);
    FindIs(s, ',', |lead + x|);
    assert s[..|lead + x|] == lead + x == lead + x + "" && s[|lead + x| + 1..] == rest;
    DequotePad(lead, x, "");
  }

  lemma {:induction false} NamesRead(lead: string, names: seq<string>)
    requires AllSpace(lead) && AllNames(names) && names != []
    ensures Items(lead + ShowNames(names)) == names
    decreases |names|
  {
    hide Items, Name;
    if |names| == 1 {
      ItemsOne(lead, names[0]);
    } else {
      var rest := " " + ShowNames(names[1..]);
      assert lead + ShowNames(names) == lead + names[0] + "," + rest;
      ItemsCons(lead, names[0], rest);
      NamesRead(" ", names[1..]);
    }
  }

  lemma {:induction false} NamesPlain(names: seq<string>)
    requires AllNames(names)
    ensures Plain(ShowNames(names))
    decreases |names|
  {
    hide Name;
    if names != [] {
      NamePlain(names[0]);
      if |names| > 1 {
        NamesPlain(names[1..]);
        assert Plain(", ");
        PlainConcat(names[0], ", ");
        PlainConcat(names[0] + ", ", ShowNames(names[1..]));
      }
    }
  }

  function SeqBody(names: seq<string>): string
  {
    "[" + ShowNames(names) + "]"
  }

  /** A printed flow sequence reads back as its names, also with space in front. */
  lemma FlowSeqReads(lead: string, names: seq<string>)
    requires AllNames(names) && AllSpace(lead)
    ensures FlowSeq(lead + SeqBody(names)) == names
  {
    hide Items, ShowNames, AllNames;
    var show, body := ShowNames(names), lead + SeqBody(names);
    assert body == lead + "[" + show + "]";
    forall k | 0 <= k < |lead|
      ensures body[k] != '['
    {
      assert Space(lead[k]);
    }
    FindIs(body, '[', |lead|);
    assert body[|body| - 1] == ']';
    assert body[|lead| + 1..|body| - 1] == show == "" + show;
    if names == [] {
      NoNames();
    } else {
      NamesRead("", names);
    }
  }

  lemma NoNames()
    ensures ShowNames([]) == "" && Items("") == []
  {
  }

  // --- Lines --------------------------------------------------------------------------------

  lemma CleanPlain(s: string)
    requires (forall k :: 0 <= k < |s| ==> s[k] != '#') && (s != "" ==> s[|s| - 1] !in {'\r', '\n', ' '})
    ensures CleanLine(s) == s
  {
    FindIs(s, '#', |s|);
    assert s[..|s|] == s;
  }

  lemma CleanComment(s: string)
    ensures CleanLine("#" + s) == ""
  {
    FindIs("#" + s, '#', 0);
    assert ("#" + s)[..0] == "";
  }

  lemma LeadingIs(s: string, n: nat)
    requires n < |s| && s[n] != ' ' && forall k :: 0 <= k < n ==> s[k] == ' '
    ensures Leading(s) == n
  {
    var m := Leading(s);
  }

  /** An indented line with tight content. */
  lemma IndentedLine(indent: string, x: string)
    requires (forall k :: 0 <= k < |indent| ==> indent[k] == ' ') && Tight(x)
    ensures !Blank(indent + x) && Leading(indent + x) == |indent|
  {
    hide Trim;
    assert indent + x + "" == indent + x;
    TrimPad(indent, x, "");
    assert (indent + x)[|indent|] == x[0];
    LeadingIs(indent + x, |indent|);
  }
}
