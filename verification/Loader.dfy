/** The two-pass parallel CSV loader: line-aligned chunks, newline counts, a prefix sum
    of offsets, and one thread per chunk parsing straight into the shared columns. */
module Loader {
  import opened Basics
  import opened Lines

  // --- Chunk boundaries -----------------------------------------------------------------

  /** A position where a line starts, or the end of the text. */
  predicate LineStart(s: Text, p: nat)
  {
    p == 0 || p == |s| || (p < |s| && s[p - 1] == '\n')
  }

  ghost predicate Boundaries(s: Text, starts: seq<nat>)
  {
    && |starts| > 1 && starts[0] == 0 && starts[|starts| - 1] == |s|
    && (forall i, j :: 0 <= i <= j < |starts| ==> starts[i] <= starts[j])
    && (forall i :: 0 <= i < |starts| ==> LineStart(s, starts[i]))
  }

  lemma NextNewlineMonotone(s: Text, a: nat, b: nat)
    requires a <= b <= |s|
    ensures NextNewline(s, a) <= NextNewline(s, b)
  {
  }

  /** Where a chunk cut at byte `raw` is moved to. */
  function AlignedStart(s: Text, raw: nat): (r: nat)
    ensures r <= |s| && LineStart(s, r)
  {
    if raw >= |s| then |s| else
    var nl := NextNewline(s, raw);
    if nl < |s| then nl + 1 else |s|
  }

  lemma AlignedMonotone(s: Text, a: nat, b: nat)
    requires a <= b
    ensures AlignedStart(s, a) <= AlignedStart(s, b)
  {
    if b < |s| {
      NextNewlineMonotone(s, a, b);
    }
  }

  /** The byte offset at which the text is cut for thread `i`, before alignment. */
  function Cut(n: nat, i: nat, nt: nat): nat
    requires nt > 0
  {
    n * i / nt
  }

  lemma QuotientBounds(x: nat, d: nat)
    requires d > 0
    ensures d * (x / d) <= x < d * (x / d) + d
  {
  }

  lemma CutsMonotone(n: nat, i: nat, nt: nat)
    requires nt > 0
    ensures Cut(n, i, nt) <= Cut(n, i + 1, nt)
  {
    var x, y := n * i, n * (i + 1);
    assert y == x + n;
    QuotientBounds(x, nt);
    QuotientBounds(y, nt);
    if x / nt > y / nt {
      MultipleGap(nt, y / nt, x / nt);
    }
  }

  /** The chunk boundaries for `nt` threads. */
  function Starts(s: Text, nt: nat): (r: seq<nat>)
    requires nt > 0
    ensures |r| == nt + 1
  {
    seq(nt + 1, i requires 0 <= i <= nt =>
      if i == 0 then 0 else if i == nt then |s| else AlignedStart(s, Cut(|s|, i, nt)))
  }

  lemma {:induction false} StartsOrdered(s: Text, nt: nat, i: nat, j: nat)
    requires nt > 0 && i <= j <= nt
    ensures Starts(s, nt)[i] <= Starts(s, nt)[j] <= |s|
    decreases j
  {
    hide AlignedStart, Cut;
    if i < j {
      StartsOrdered(s, nt, i, j - 1);
      CutsMonotone(|s|, j - 1, nt);
      AlignedMonotone(s, Cut(|s|, j - 1, nt), Cut(|s|, j, nt));
    }
  }

  /** The chunks are line-aligned and tile the text. */
  lemma StartsTile(s: Text, nt: nat)
    requires nt > 0
    ensures Boundaries(s, Starts(s, nt))
  {
    hide AlignedStart, Cut;
    forall i, j | 0 <= i <= j < nt + 1
      ensures Starts(s, nt)[i] <= Starts(s, nt)[j]
    {
      StartsOrdered(s, nt, i, j);
    }
  }

  /** Every stretch of `m` characters has a newline: no line is longer than `m`. */
  ghost predicate LinesWithin(s: Text, m: nat)
  {
    forall p: nat :: p + m <= |s| ==> NextNewline(s, p) < p + m
  }

  lemma CutsEven(n: nat, i: nat, nt: nat)
    requires i < nt
    ensures n / nt <= Cut(n, i + 1, nt) - Cut(n, i, nt) <= n / nt + 1
    ensures Cut(n, 0, nt) == 0 && Cut(n, nt, nt) == n
  {
    var a, b, q := Cut(n, i, nt), Cut(n, i + 1, nt), n / nt;
    QuotientBounds(n * i, nt);
    QuotientBounds(n * (i + 1), nt);
    QuotientBounds(n, nt);
    assert n * (i + 1) == n * i + n;
    EvenGap(nt, a, b, q, n * i, n);
    QuotientBounds(n * nt, nt);
    assert n * nt == nt * n;
    SameMultiple(nt, Cut(n, nt, nt), n);
  }

  lemma EvenGap(d: nat, a: nat, b: nat, q: nat, x: nat, n: nat)
    requires d > 0 && d * a <= x < d * a + d && d * b <= x + n < d * b + d && d * q <= n < d * q + d
    ensures q <= b - a <= q + 1
  {
    if b < a + q {
      MultipleGap(d, b, a + q);
    } else if b > a + q + 1 {
      MultipleGap(d, a + q + 1, b);
    }
  }

  lemma SameMultiple(d: nat, a: nat, b: nat)
    requires d * a <= d * b < d * a + d
    ensures a == b
  {
    if a < b {
      MultipleGap(d, a, b);
    } else if b < a {
      MultipleGap(d, b, a);
    }
  }

  lemma AlignedNear(s: Text, raw: nat, m: nat)
    requires LinesWithin(s, m) && raw <= |s|
    ensures raw <= AlignedStart(s, raw) <= raw + m
  {
    if raw < |s| {
      var nl := NextNewline(s, raw);
    }
  }

  /** The work is divided evenly: no thread gets more than its share of the text and one line. */
  lemma ChunksEven(s: Text, nt: nat, t: nat, m: nat)
    requires t < nt && LinesWithin(s, m)
    ensures Starts(s, nt)[t + 1] - Starts(s, nt)[t] <= |s| / nt + 1 + m
  {
    hide AlignedStart, Cut, LinesWithin;
    CutsEven(|s|, t, nt);
    StartNear(s, nt, t, m);
    StartNear(s, nt, t + 1, m);
  }

  lemma StartNear(s: Text, nt: nat, t: nat, m: nat)
    requires 0 < nt && t <= nt && LinesWithin(s, m)
    ensures Cut(|s|, t, nt) <= Starts(s, nt)[t] <= Cut(|s|, t, nt) + m
  {
    hide AlignedStart, Cut, LinesWithin;
    CutsEven(|s|, 0, nt);
    if 0 < t < nt {
      CutBelow(|s|, t, nt);
      AlignedNear(s, Cut(|s|, t, nt), m);
    }
  }

  lemma {:induction false} CutBelow(n: nat, i: nat, nt: nat)
    requires 0 < nt && i <= nt
    ensures Cut(n, i, nt) <= n
    decreases nt - i
  {
    if i == nt {
      CutsEven(n, 0, nt);
    } else {
      CutBelow(n, i + 1, nt);
      CutsMonotone(n, i, nt);
    }
  }

  lemma NextStart(s: Text, nt: nat, i: nat)
    requires 1 <= i <= nt
    ensures Starts(s, nt)[..i] + [if i == nt then |s| else AlignedStart(s, Cut(|s|, i, nt))] == Starts(s, nt)[..i + 1]
  {
    hide AlignedStart, Cut;
  }

  lemma FirstStart(s: Text, nt: nat)
    requires nt > 0
    ensures Starts(s, nt)[..1] == [0] && Starts(s, nt)[..nt + 1] == Starts(s, nt)
  {
    hide AlignedStart, Cut;
  }

  /** Where memchr moves one cut. */
  method Align(s: Text, raw: nat) returns (start: nat)
    ensures start == AlignedStart(s, raw)
  {
    if raw >= |s| {
      return |s|;
    }
    var nl := NextNewline(s, raw);
    start := if nl < |s| then nl + 1 else |s|;
  }

  method ChunkStarts(s: Text, nt: nat) returns (starts: seq<nat>)
    requires nt > 0
    ensures starts == Starts(s, nt) && Boundaries(s, starts)
  {
    hide *;
    FirstStart(s, nt);
    starts := [0];
    for i := 1 to nt
      invariant starts == Starts(s, nt)[..i]
    {
      var start := Align(s, Cut(|s|, i, nt));
      NextStart(s, nt, i);
      starts := starts + [start];
    }
    NextStart(s, nt, nt);
    starts := starts + [|s|];
    StartsTile(s, nt);
  }

  function Chunk(s: Text, starts: seq<nat>, t: nat): Text
    requires t + 1 < |starts| && starts[t] <= starts[t + 1] <= |s|
  {
    s[starts[t]..starts[t + 1]]
  }

  // --- Pass 1 and the prefix sum --------------------------------------------------------

  method CountChunk(s: Text) returns (n: nat)
    ensures n == CountNewlines(s)
  {
    n := 0;
    var p := 0;
    while p < |s|
      invariant p <= |s| && n + CountNewlines(s[p..]) == CountNewlines(s)
    {
      var found := NextNewline(s, p);
      CountSkip(s[p..], found - p);
      assert s[p..][found - p..] == s[found..];
      if found == |s| {
        p := |s|;
      } else {
        assert s[found..][1..] == s[found + 1..];
        n := n + 1;
        p := found + 1;
      }
    }
  }

  ghost predicate OffsetsFor(s: Text, starts: seq<nat>, offsets: seq<nat>)
    requires Boundaries(s, starts)
  {
    && |offsets| == |starts| && offsets[0] == 0
    && forall t :: 0 <= t < |starts| - 1 ==> offsets[t + 1] == offsets[t] + CountNewlines(Chunk(s, starts, t))
  }

  method Offsets(s: Text, starts: seq<nat>) returns (offsets: seq<nat>)
    requires Boundaries(s, starts)
    ensures OffsetsFor(s, starts, offsets)
  {
    offsets := [0];
    for t := 0 to |starts| - 1
      invariant |offsets| == t + 1 && offsets[0] == 0
      invariant forall k :: 0 <= k < t ==> offsets[k + 1] == offsets[k] + CountNewlines(Chunk(s, starts, k))
    {
      var n := CountChunk(Chunk(s, starts, t));
      offsets := offsets + [offsets[t] + n];
    }
  }

  lemma {:induction false} OffsetsMonotone(s: Text, starts: seq<nat>, offsets: seq<nat>, i: nat, j: nat)
    requires Boundaries(s, starts) && OffsetsFor(s, starts, offsets) && i <= j < |offsets|
    ensures offsets[i] <= offsets[j]
    decreases j
  {
    if i < j {
      OffsetsMonotone(s, starts, offsets, i, j - 1);
      assert offsets[j - 1 + 1] == offsets[j - 1] + CountNewlines(Chunk(s, starts, j - 1));
    }
  }

  // --- Pass 2: the threads --------------------------------------------------------------

  /** The loop variables of one thread: read position, chunk end, next slot, slot limit. */
  datatype Cursor = Cursor(pos: nat, cend: nat, idx: nat, cap: nat)
  {
    predicate Running()
    {
      pos < cend && idx < cap
    }
  }

  function Rest(s: Text, c: Cursor): Text
  {
    if c.pos < c.cend <= |s| then s[c.pos..c.cend] else []
  }

  /** One round of a thread's loop: one line, one slot at most. */
  method ParseLine<Row>(s: Text, c: Cursor, slots: array<Slot<Row>>, parse: Text -> Option<Row>) returns (moved: Cursor)
    requires c.Running() && c.cend <= |s| && c.cap <= slots.Length
    modifies slots
    ensures moved.cend == c.cend && moved.cap == c.cap && |Rest(s, moved)| < |Rest(s, c)|
    ensures Rest(s, moved) == AfterLine(Rest(s, c))
    ensures var line := Rest(s, c)[..NextNewline(Rest(s, c), 0)];
            if line == [] then moved.idx == c.idx && slots[..] == old(slots[..])
            else moved.idx == c.idx + 1 && slots[..] == old(slots[..])[c.idx := Parsed(line, parse)]
  {
    hide NextNewline;
    var rest := Rest(s, c);
    var lineEnd := c.pos + NextNewline(rest, 0);
    if lineEnd == c.pos {
      moved := c.(pos := lineEnd + 1);
    } else {
      var rowEnd := lineEnd;
      if rowEnd > c.pos && s[rowEnd - 1] == '\r' {
        rowEnd := rowEnd - 1;
      }
      assert rest[..lineEnd - c.pos] == s[c.pos..lineEnd];
      assert s[c.pos..rowEnd] == Chomp(s[c.pos..lineEnd]);
      slots[c.idx] := Written(parse(s[c.pos..rowEnd]));
      moved := c.(pos := lineEnd + 1, idx := c.idx + 1);
    }
    assert Rest(s, moved) == AfterLine(rest);
  }

  /** What a thread has written and what it will still write are what its chunk calls for. */
  ghost predicate ThreadOk<Row>(s: Text, slots: seq<Slot<Row>>, c: Cursor, lo: nat, chunk: Text,
                                parse: Text -> Option<Row>)
  {
    && lo <= c.idx <= c.cap <= |slots| && c.cend <= |s| && c.cap == lo + CountNewlines(chunk)
    && slots[lo..c.idx] + Fill(Rest(s, c), c.cap - c.idx, parse) == Fill(chunk, CountNewlines(chunk), parse)
    && (forall k :: c.idx <= k < c.cap ==> slots[k] == Empty)
  }

  lemma LineStep<Row>(s: Text, a: seq<Slot<Row>>, b: seq<Slot<Row>>, c: Cursor, moved: Cursor, lo: nat,
          chunk: Text, parse: Text -> Option<Row>)
    requires ThreadOk(s, a, c, lo, chunk, parse) && c.Running()
    requires moved.cend == c.cend && moved.cap == c.cap && Rest(s, moved) == AfterLine(Rest(s, c))
    requires var line := Rest(s, c)[..NextNewline(Rest(s, c), 0)];
             if line == [] then moved.idx == c.idx && b == a
             else moved.idx == c.idx + 1 && b == a[c.idx := Parsed(line, parse)]
    ensures ThreadOk(s, b, moved, lo, chunk, parse)
  {
    hide Fill;
    hide Parsed;
    hide NextNewline;
    hide AfterLine;
    FillUnfold(Rest(s, c), c.cap - c.idx, parse);
    var line := Rest(s, c)[..NextNewline(Rest(s, c), 0)];
    if line != [] {
      assert b[lo..moved.idx] == a[lo..c.idx] + [Parsed(line, parse)];
    }
  }

  /** A thread is not disturbed by a write outside its own offsets. */
  lemma OtherThread<Row>(s: Text, a: seq<Slot<Row>>, b: seq<Slot<Row>>, c: Cursor, lo: nat, chunk: Text,
          parse: Text -> Option<Row>)
    requires ThreadOk(s, a, c, lo, chunk, parse)
    requires |a| == |b| && forall k :: lo <= k < c.cap ==> a[k] == b[k]
    ensures ThreadOk(s, b, c, lo, chunk, parse)
  {
    assert a[lo..c.idx] == b[lo..c.idx];
  }

  ghost predicate AllOk<Row>(s: Text, starts: seq<nat>, offsets: seq<nat>, threads: seq<Cursor>,
          slots: seq<Slot<Row>>, parse: Text -> Option<Row>)
    requires Boundaries(s, starts) && OffsetsFor(s, starts, offsets)
  {
    && |threads| == |starts| - 1 && |slots| == offsets[|threads|]
    && forall t :: 0 <= t < |threads| ==> ThreadOk(s, slots, threads[t], offsets[t], Chunk(s, starts, t), parse)
  }

  lemma StepKeepsAll<Row>(s: Text, starts: seq<nat>, offsets: seq<nat>, threads: seq<Cursor>, a: seq<Slot<Row>>,
          b: seq<Slot<Row>>, t: nat, moved: Cursor, parse: Text -> Option<Row>)
    requires Boundaries(s, starts) && OffsetsFor(s, starts, offsets)
    requires AllOk(s, starts, offsets, threads, a, parse) && t < |threads| && |a| == |b|
    requires ThreadOk(s, b, moved, offsets[t], Chunk(s, starts, t), parse)
    requires forall k :: 0 <= k < |a| && !(offsets[t] <= k < offsets[t + 1]) ==> a[k] == b[k]
    ensures AllOk(s, starts, offsets, threads[t := moved], b, parse)
  {
    hide ThreadOk;
    forall u | 0 <= u < |threads| && u != t
      ensures ThreadOk(s, b, threads[u], offsets[u], Chunk(s, starts, u), parse)
    {
      Disjoint(s, starts, offsets, t, u);
      ThreadCap(s, starts, offsets, a, threads[u], u, parse);
      OtherThread(s, a, b, threads[u], offsets[u], Chunk(s, starts, u), parse);
    }
  }

  /** The slots of two threads do not overlap. */
  lemma Disjoint(s: Text, starts: seq<nat>, offsets: seq<nat>, t: nat, u: nat)
    requires Boundaries(s, starts) && OffsetsFor(s, starts, offsets) && t < |starts| - 1 && u < |starts| - 1 && t != u
    ensures offsets[t + 1] <= offsets[u] || offsets[u + 1] <= offsets[t]
  {
    hide CountNewlines, Chunk, Boundaries;
    if t < u {
      OffsetsMonotone(s, starts, offsets, t + 1, u);
    } else {
      OffsetsMonotone(s, starts, offsets, u + 1, t);
    }
  }

  lemma ThreadCap<Row>(s: Text, starts: seq<nat>, offsets: seq<nat>, slots: seq<Slot<Row>>, c: Cursor, u: nat,
          parse: Text -> Option<Row>)
    requires Boundaries(s, starts) && OffsetsFor(s, starts, offsets) && u < |starts| - 1
    requires ThreadOk(s, slots, c, offsets[u], Chunk(s, starts, u), parse)
    ensures c.cap == offsets[u + 1] <= |slots|
  {
    hide Fill, CountNewlines, Chunk, Rest;
  }

  // --- The rows of a store --------------------------------------------------------------

  /** The valid rows of the columns, in index order. */
  function ValidRows<Row>(slots: seq<Slot<Row>>): (r: seq<Row>)
    ensures |r| <= |slots|
  {
    if slots == [] then [] else
    var row := slots[0];
    (if row.Written? && row.row.Some? then [row.row.value] else []) + ValidRows(slots[1..])
  }

  lemma {:induction false} ValidRowsConcat<Row>(a: seq<Slot<Row>>, b: seq<Slot<Row>>)
    ensures ValidRows(a + b) == ValidRows(a) + ValidRows(b)
    decreases |a|
  {
    if a == [] {
      assert a + b == b;
    } else {
      assert (a + b)[1..] == a[1..] + b;
      ValidRowsConcat(a[1..], b);
    }
  }

  lemma {:induction false} UntouchedRows<Row>(slots: seq<Slot<Row>>)
    requires forall k :: 0 <= k < |slots| ==> slots[k] == Empty
    ensures ValidRows(slots) == []
  {
    if slots != [] {
      UntouchedRows(slots[1..]);
    }
  }

  /** The start of the last chunk that is not empty (`n` if there is none). */
  function LastStart(starts: seq<nat>, n: nat): (r: nat)
    ensures r <= n
  {
    if starts == [] then n
    else if starts[|starts| - 1] < n then starts[|starts| - 1]
    else LastStart(starts[..|starts| - 1], n)
  }

  lemma {:induction false} LastStartIs(starts: seq<nat>, n: nat, t: nat)
    requires t < |starts| && starts[t] < n && forall k :: t < k < |starts| ==> starts[k] >= n
    ensures LastStart(starts, n) == starts[t]
  {
    if t < |starts| - 1 {
      LastStartIs(starts[..|starts| - 1], n, t);
    }
  }

  lemma LastStartNone(starts: seq<nat>, n: nat)
    requires forall k :: 0 <= k < |starts| ==> starts[k] >= n
    ensures LastStart(starts, n) == n
  {
  }

  /** The rows of a sequential read, and what the last chunk makes of an unterminated tail. */
  function Expected<Row>(s: Text, last: nat, parse: Text -> Option<Row>): seq<Row>
    requires last <= |s|
  {
    ValidRows(Sequential(s, parse)) + ValidRows(TailSlot(s[last..], parse))
  }

  /** The valid rows one thread leaves behind. */
  function ChunkRows<Row>(chunk: Text, parse: Text -> Option<Row>): seq<Row>
  {
    ValidRows(Sequential(chunk, parse)) + ValidRows(TailSlot(chunk, parse))
  }

  lemma FinishedThread<Row>(s: Text, slots: seq<Slot<Row>>, c: Cursor, lo: nat, chunk: Text,
                                parse: Text -> Option<Row>)
    requires ThreadOk(s, slots, c, lo, chunk, parse) && !c.Running()
    ensures lo <= c.cap <= |slots|
    ensures ValidRows(slots[lo..c.cap]) == ChunkRows(chunk, parse)
  {
    hide Sequential, TailSlot, CountNewlines, ValidRows;
    ChunkFill(chunk, parse);
    assert Fill(Rest(s, c), c.cap - c.idx, parse) == [];
    assert slots[lo..c.idx] == Sequential(chunk, parse) + TailSlot(chunk, parse);
    assert slots[lo..c.cap] == slots[lo..c.idx] + slots[c.idx..c.cap];
    ValidRowsConcat(slots[lo..c.idx], slots[c.idx..c.cap]);
    UntouchedRows(slots[c.idx..c.cap]);
    ValidRowsConcat(Sequential(chunk, parse), TailSlot(chunk, parse));
  }

  lemma NoTail<Row>(s: Text, parse: Text -> Option<Row>)
    requires Terminated(s)
    ensures TailSlot(s, parse) == []
  {
    TerminatedTail(s);
  }

  ghost predicate AllFinished(threads: seq<Cursor>)
  {
    forall t :: 0 <= t < |threads| ==> !threads[t].Running()
  }

  /** What the first `t` chunks must have put into the columns. */
  function PrefixRows<Row>(s: Text, starts: seq<nat>, t: nat, parse: Text -> Option<Row>): seq<Row>
    requires t < |starts| && starts[t] <= |s|
  {
    if starts[t] < |s| then ValidRows(Sequential(s[..starts[t]], parse))
    else Expected(s, LastStart(starts, |s|), parse)
  }

  /** One chunk extends the sequential read by its own lines. */
  lemma ChunkExtends<Row>(s: Text, starts: seq<nat>, t: nat, parse: Text -> Option<Row>)
    requires Boundaries(s, starts) && t + 1 < |starts| && starts[t] < |s|
    ensures PrefixRows(s, starts, t + 1, parse)
         == PrefixRows(s, starts, t, parse) + ChunkRows(Chunk(s, starts, t), parse)
  {
    hide Sequential, TailSlot, ValidRows, LastStart;
    var a, chunk := s[..starts[t]], Chunk(s, starts, t);
    assert s[..starts[t + 1]] == a + chunk;
    assert LineStart(s, starts[t]) && LineStart(s, starts[t + 1]);
    assert Terminated(a);
    SequentialConcat(a, chunk, parse);
    ValidRowsConcat(Sequential(a, parse), Sequential(chunk, parse));
    if starts[t + 1] < |s| {
      if chunk != [] {
        assert chunk[|chunk| - 1] == s[starts[t + 1] - 1];
      }
      NoTail(chunk, parse);
      ValidRowsNone<Row>();
    } else {
      LastStartIs(starts, |s|, t);
      assert chunk == s[starts[t]..] && s[..|s|] == s;
    }
  }

  lemma ValidRowsNone<Row>()
    ensures ValidRows<Row>([]) == []
  {
  }

  lemma {:induction false} FinishedPrefix<Row>(s: Text, starts: seq<nat>, offsets: seq<nat>,
          threads: seq<Cursor>, slots: seq<Slot<Row>>, t: nat, parse: Text -> Option<Row>)
    requires Boundaries(s, starts) && OffsetsFor(s, starts, offsets)
    requires AllOk(s, starts, offsets, threads, slots, parse) && AllFinished(threads) && t < |starts|
    ensures offsets[t] <= |slots| && ValidRows(slots[..offsets[t]]) == PrefixRows(s, starts, t, parse)
    decreases t
  {
    hide PrefixRows, ThreadOk, Fill, ChunkRows;
    if t == 0 {
      NoRows(s, starts, parse);
      OffsetsMonotone(s, starts, offsets, 0, |threads|);
      assert slots[..offsets[0]] == [];
    } else {
      var u := t - 1;
      FinishedPrefix(s, starts, offsets, threads, slots, u, parse);
      ThreadCap(s, starts, offsets, slots, threads[u], u, parse);
      FinishedThread(s, slots, threads[u], offsets[u], Chunk(s, starts, u), parse);
      assert slots[..offsets[t]] == slots[..offsets[u]] + slots[offsets[u]..offsets[t]];
      ValidRowsConcat(slots[..offsets[u]], slots[offsets[u]..offsets[t]]);
      NextPrefix(s, starts, offsets, u, parse);
      if starts[u] >= |s| {
        assert slots[offsets[u]..offsets[t]] == [];
      }
    }
  }

  lemma NoRows<Row>(s: Text, starts: seq<nat>, parse: Text -> Option<Row>)
    requires Boundaries(s, starts)
    ensures ValidRows<Row>([]) == [] == PrefixRows(s, starts, 0, parse)
  {
    EmptyText(0, parse);
    NoTail([], parse);
    assert s[..0] == [] && s[|s|..] == [];
    if |s| == 0 {
      LastStartNone(starts, 0);
    }
  }

  lemma NextPrefix<Row>(s: Text, starts: seq<nat>, offsets: seq<nat>, u: nat, parse: Text -> Option<Row>)
    requires Boundaries(s, starts) && OffsetsFor(s, starts, offsets) && u + 1 < |starts|
    ensures starts[u] < |s| ==>
              PrefixRows(s, starts, u + 1, parse)
              == PrefixRows(s, starts, u, parse) + ChunkRows(Chunk(s, starts, u), parse)
    ensures starts[u] >= |s| ==>
              offsets[u + 1] == offsets[u] && PrefixRows(s, starts, u + 1, parse) == PrefixRows(s, starts, u, parse)
  {
    if starts[u] < |s| {
      ChunkExtends(s, starts, u, parse);
    } else {
      assert Chunk(s, starts, u) == [];
      assert starts[u + 1] == |s|;
    }
  }

  // --- Running the threads ----------------------------------------------------------------

  function Sum(xs: seq<nat>): nat
  {
    if xs == [] then 0 else xs[0] + Sum(xs[1..])
  }

  lemma {:induction false} SumDrops(xs: seq<nat>, t: nat, v: nat)
    requires t < |xs| && v < xs[t]
    ensures Sum(xs[t := v]) < Sum(xs)
  {
    if t == 0 {
      assert xs[t := v][1..] == xs[1..];
    } else {
      assert xs[t := v][1..] == xs[1..][t - 1 := v];
      SumDrops(xs[1..], t - 1, v);
    }
  }

  /** Characters the threads have still to read. */
  function Left(s: Text, threads: seq<Cursor>): seq<nat>
  {
    seq(|threads|, t requires 0 <= t < |threads| => |Rest(s, threads[t])|)
  }

  lemma LeftDrops(s: Text, threads: seq<Cursor>, t: nat, c: Cursor)
    requires t < |threads| && |Rest(s, c)| < |Rest(s, threads[t])|
    ensures Sum(Left(s, threads[t := c])) < Sum(Left(s, threads))
  {
    assert Left(s, threads[t := c]) == Left(s, threads)[t := |Rest(s, c)|];
    SumDrops(Left(s, threads), t, |Rest(s, c)|);
  }

  /** A thread at the start of its chunk. */
  lemma FreshThread<Row>(s: Text, starts: seq<nat>, offsets: seq<nat>, slots: seq<Slot<Row>>, t: nat,
          parse: Text -> Option<Row>)
    requires Boundaries(s, starts) && OffsetsFor(s, starts, offsets) && t + 1 < |starts|
    requires |slots| == offsets[|starts| - 1] && forall k :: 0 <= k < |slots| ==> slots[k] == Empty
    ensures ThreadOk(s, slots, Cursor(starts[t], starts[t + 1], offsets[t], offsets[t + 1]), offsets[t],
                     Chunk(s, starts, t), parse)
  {
    hide Fill, CountNewlines;
    OffsetsMonotone(s, starts, offsets, t, t + 1);
    OffsetsMonotone(s, starts, offsets, t + 1, |starts| - 1);
    var c := Cursor(starts[t], starts[t + 1], offsets[t], offsets[t + 1]);
    assert Rest(s, c) == Chunk(s, starts, t);
    assert slots[c.idx..c.idx] == [];
    var fill := Fill(Rest(s, c), c.cap - c.idx, parse);
    assert [] + fill == fill;
  }

  method StartThreads<Row>(ghost s: Text, starts: seq<nat>, offsets: seq<nat>, slots: array<Slot<Row>>,
          ghost parse: Text -> Option<Row>) returns (threads: seq<Cursor>)
    requires Boundaries(s, starts) && OffsetsFor(s, starts, offsets)
    requires slots.Length == offsets[|starts| - 1] && forall k :: 0 <= k < slots.Length ==> slots[k] == Empty
    ensures AllOk(s, starts, offsets, threads, slots[..], parse)
  {
    hide ThreadOk;
    threads := [];
    for t := 0 to |starts| - 1
      invariant |threads| == t
      invariant forall u :: 0 <= u < t ==> ThreadOk(s, slots[..], threads[u], offsets[u], Chunk(s, starts, u), parse)
    {
      FreshThread(s, starts, offsets, slots[..], t, parse);
      threads := threads + [Cursor(starts[t], starts[t + 1], offsets[t], offsets[t + 1])];
    }
  }

  /** One step of thread `t`: it writes inside its own offsets and leaves the others alone. */
  method StepThread<Row>(s: Text, ghost starts: seq<nat>, ghost offsets: seq<nat>, threads: seq<Cursor>, t: nat,
          slots: array<Slot<Row>>, parse: Text -> Option<Row>) returns (advanced: seq<Cursor>)
    requires Boundaries(s, starts) && OffsetsFor(s, starts, offsets)
    requires AllOk(s, starts, offsets, threads, slots[..], parse) && t < |threads| && threads[t].Running()
    modifies slots
    ensures AllOk(s, starts, offsets, advanced, slots[..], parse)
    ensures forall k :: 0 <= k < slots.Length && !(offsets[t] <= k < offsets[t + 1]) ==> slots[k] == old(slots[k])
    ensures Sum(Left(s, advanced)) < Sum(Left(s, threads))
  {
    hide ThreadOk, Fill, CountNewlines, Left, AfterLine, NextNewline, Rest, Parsed;
    assert ThreadOk(s, slots[..], threads[t], offsets[t], Chunk(s, starts, t), parse);
    ThreadCap(s, starts, offsets, slots[..], threads[t], t, parse);
    ThreadBounds(s, slots[..], threads[t], offsets[t], Chunk(s, starts, t), parse);
    ghost var was := slots[..];
    var c := ParseLine(s, threads[t], slots, parse);
    LineStep(s, was, slots[..], threads[t], c, offsets[t], Chunk(s, starts, t), parse);
    StepKeepsAll(s, starts, offsets, threads, was, slots[..], t, c, parse);
    LeftDrops(s, threads, t, c);
    advanced := threads[t := c];
  }

  lemma ThreadBounds<Row>(s: Text, slots: seq<Slot<Row>>, c: Cursor, lo: nat, chunk: Text,
                                parse: Text -> Option<Row>)
    requires ThreadOk(s, slots, c, lo, chunk, parse)
    ensures lo <= c.idx <= c.cap <= |slots| && c.cend <= |s|
  {
  }

  /** Pass 2 under any schedule: each round, any unfinished thread handles one line. */
  method RunThreads<Row>(s: Text, ghost starts: seq<nat>, ghost offsets: seq<nat>, begun: seq<Cursor>,
          slots: array<Slot<Row>>, parse: Text -> Option<Row>)
    requires Boundaries(s, starts) && OffsetsFor(s, starts, offsets)
    requires AllOk(s, starts, offsets, begun, slots[..], parse)
    modifies slots
    ensures ValidRows(slots[..]) == Expected(s, LastStart(starts, |s|), parse)
  {
    hide ThreadOk, Left, Expected;
    var threads := begun;
    while exists t :: 0 <= t < |threads| && threads[t].Running()
      invariant AllOk(s, starts, offsets, threads, slots[..], parse)
      decreases Sum(Left(s, threads))
    {
      var t :| 0 <= t < |threads| && threads[t].Running();
      threads := StepThread(s, starts, offsets, threads, t, slots, parse);
    }
    FinishedPrefix(s, starts, offsets, threads, slots[..], |starts| - 1, parse);
    assert slots[..][..slots.Length] == slots[..];
  }

  // --- The loader -------------------------------------------------------------------------

  lemma {:induction false} CountConcat(a: Text, b: Text)
    ensures CountNewlines(a + b) == CountNewlines(a) + CountNewlines(b)
    decreases |a|
  {
    if a == [] {
      assert a + b == b;
    } else {
      assert (a + b)[1..] == a[1..] + b;
      CountConcat(a[1..], b);
    }
  }

  /** An offset counts the newlines in front of its chunk. */
  lemma {:induction false} OffsetCounts(s: Text, starts: seq<nat>, offsets: seq<nat>, t: nat)
    requires Boundaries(s, starts) && OffsetsFor(s, starts, offsets) && t < |starts|
    ensures starts[t] <= |s| && offsets[t] == CountNewlines(s[..starts[t]])
    decreases t
  {
    if t > 0 {
      OffsetCounts(s, starts, offsets, t - 1);
      assert offsets[t - 1 + 1] == offsets[t - 1] + CountNewlines(Chunk(s, starts, t - 1));
      CountConcat(s[..starts[t - 1]], Chunk(s, starts, t - 1));
      assert s[..starts[t]] == s[..starts[t - 1]] + Chunk(s, starts, t - 1);
    }
  }

  /** The rows loaded by `nt` threads from the text behind the header line. */
  function Loaded<Row>(s: Text, nt: nat, parse: Text -> Option<Row>): seq<Row>
    requires nt > 0
  {
    Expected(s, LastStart(Starts(s, nt), |s|), parse)
  }

  method LoadData<Row>(s: Text, nt: nat, parse: Text -> Option<Row>) returns (slots: array<Slot<Row>>)
    requires nt > 0
    ensures fresh(slots) && slots.Length == CountNewlines(s)
    ensures ValidRows(slots[..]) == Loaded(s, nt, parse)
  {
    hide AllOk, CountNewlines, ValidRows, Expected, LastStart, Starts;
    var starts := ChunkStarts(s, nt);
    var offsets := Offsets(s, starts);
    OffsetCounts(s, starts, offsets, nt);
    assert s[..starts[nt]] == s;
    slots := new Slot<Row>[offsets[nt]](_ => Empty);
    var threads := StartThreads(s, starts, offsets, slots, parse);
    RunThreads(s, starts, offsets, threads, slots, parse);
  }

  /** Loading a file: the header line is skipped; a file with content but no newline is refused. */
  method LoadPartition<Row>(file: Text, nt: nat, parse: Text -> Option<Row>) returns (ok: bool, slots: array<Slot<Row>>)
    requires nt > 0
    ensures fresh(slots)
    ensures ok <==> file == [] || '\n' in file
    ensures ok ==> ValidRows(slots[..]) == if file == [] then [] else Loaded(AfterLine(file), nt, parse)
  {
    hide CountNewlines, Loaded, AfterLine;
    slots := new Slot<Row>[0];
    if file == [] {
      return true, slots;
    }
    var header := NextNewline(file, 0);
    if header == |file| {
      return false, slots;
    }
    AfterHeader(file);
    ok := true;
    slots := LoadData(file[header + 1..], nt, parse);
  }

  lemma AfterHeader(file: Text)
    requires file != [] && NextNewline(file, 0) < |file|
    ensures AfterLine(file) == file[NextNewline(file, 0) + 1..]
  {
  }

  /** For newline-terminated data the loader is the sequential reader, for every number of
      threads and every interleaving of their steps. */
  lemma LoadIsSequential<Row>(s: Text, nt: nat, parse: Text -> Option<Row>)
    requires nt > 0 && Terminated(s)
    ensures Loaded(s, nt, parse) == ValidRows(Sequential(s, parse))
  {
    var rest := s[LastStart(Starts(s, nt), |s|)..];
    if rest != [] {
      assert rest[|rest| - 1] == s[|s| - 1];
    }
    NoTail(rest, parse);
  }

  /** A reader that also takes an unterminated last line. */
  function ReadAll<Row>(s: Text, parse: Text -> Option<Row>): seq<Row>
  {
    ValidRows(Sequential(s, parse)) + ValidRows(if Tail(s) == [] then [] else [Parsed(Tail(s), parse)])
  }

  lemma {:induction false} LastStartIsLine(s: Text, starts: seq<nat>)
    requires forall k :: 0 <= k < |starts| ==> LineStart(s, starts[k])
    ensures LineStart(s, LastStart(starts, |s|))
  {
    if starts != [] && starts[|starts| - 1] >= |s| {
      LastStartIsLine(s, starts[..|starts| - 1]);
    }
  }

  lemma {:induction false} LastStartBelow(starts: seq<nat>, n: nat)
    requires starts != [] && starts[0] < n
    ensures LastStart(starts, n) < n
  {
    if starts[|starts| - 1] >= n {
      LastStartBelow(starts[..|starts| - 1], n);
    }
  }

  lemma TailOfLastChunk(s: Text, nt: nat)
    requires nt > 0
    ensures Tail(s[LastStart(Starts(s, nt), |s|)..]) == Tail(s)
  {
    hide Tail, LastStart, Starts;
    var starts := Starts(s, nt);
    StartsTile(s, nt);
    LastStartIsLine(s, starts);
    var last := LastStart(starts, |s|);
    assert s == s[..last] + s[last..];
    if s != [] {
      LastStartBelow(starts, |s|);
      LinesConcat(s[..last], s[last..]);
    }
  }

  /** Exactly when the loader keeps an unterminated last row: there is none, it is not a
      valid row, or the last chunk has a blank line whose slot it can take. */
  lemma TailRowKept<Row>(s: Text, nt: nat, parse: Text -> Option<Row>)
    requires nt > 0
    ensures Loaded(s, nt, parse) == ReadAll(s, parse) <==>
            Tail(s) == [] || parse(Chomp(Tail(s))).None? || HasBlank(s[LastStart(Starts(s, nt), |s|)..])
  {
    hide Sequential, LastStart, Starts, Tail, HasBlank, Chomp;
    TailOfLastChunk(s, nt);
  }

  /** Without the final newline the number of threads decides which rows are loaded. */
  lemma ThreadCountMatters<Row>(row: Row, parse: Text -> Option<Row>)
    requires parse("x") == Some(row)
    ensures Loaded("\n\nx", 1, parse) == [row] && Loaded("\n\nx", 2, parse) == []
  {
  }

  // --- When the number of threads matters --------------------------------------------------

  /** A text with an unterminated last line that is a valid row. */
  predicate ValidTail<Row>(s: Text, parse: Text -> Option<Row>)
  {
    Tail(s) != [] && parse(Chomp(Tail(s))).Some?
  }

  /** What `nt` threads load, by whether the last chunk has a blank line. */
  lemma LoadedIs<Row>(s: Text, nt: nat, parse: Text -> Option<Row>)
    requires nt > 0
    ensures var rows := ValidRows(Sequential(s, parse));
            if ValidTail(s, parse) && HasBlank(s[LastStart(Starts(s, nt), |s|)..])
            then Loaded(s, nt, parse) == rows + [parse(Chomp(Tail(s))).value]
            else Loaded(s, nt, parse) == rows
  {
    hide Sequential, LastStart, Starts, Tail, HasBlank, Chomp, ValidRows;
    TailOfLastChunk(s, nt);
    TailRows(Parsed(Tail(s), parse));
    var rows := ValidRows(Sequential(s, parse));
    assert rows + [] == rows;
  }

  lemma TailRows<Row>(slot: Slot<Row>)
    requires slot.Written?
    ensures ValidRows<Row>([]) == []
    ensures ValidRows([slot]) == if slot.row.Some? then [slot.row.value] else []
  {
    assert [slot][1..] == [];
  }

  /** Two thread counts load the same rows exactly when no valid row is unterminated, or both
      or neither of their last chunks have a blank line. */
  lemma SameForBoth<Row>(s: Text, a: nat, b: nat, parse: Text -> Option<Row>)
    requires a > 0 && b > 0
    ensures Loaded(s, a, parse) == Loaded(s, b, parse) <==>
            !ValidTail(s, parse)
            || (HasBlank(s[LastStart(Starts(s, a), |s|)..]) <==> HasBlank(s[LastStart(Starts(s, b), |s|)..]))
  {
    hide Sequential, LastStart, Starts, Tail, HasBlank, Chomp, ValidRows, Loaded;
    LoadedIs(s, a, parse);
    LoadedIs(s, b, parse);
  }

  /** A blank line of the last chunk is a blank line of the text. */
  lemma BlankInSuffix(s: Text, nt: nat)
    requires nt > 0 && HasBlank(s[LastStart(Starts(s, nt), |s|)..])
    ensures HasBlank(s)
  {
    hide LastStart, Starts, HasBlank;
    var starts := Starts(s, nt);
    StartsTile(s, nt);
    LastStartIsLine(s, starts);
    var last := LastStart(starts, |s|);
    assert s == s[..last] + s[last..];
    if s != [] {
      LastStartBelow(starts, |s|);
      BlankConcat(s[..last], s[last..]);
    }
  }

  lemma LastOfTwo(n: nat)
    ensures LastStart([0, n], n) == 0
  {
    if n == 0 {
      LastStartNone([0, n], n);
    } else {
      LastStartIs([0, n], n, 0);
    }
  }

  lemma OneStart(s: Text)
    ensures Starts(s, 1) == [0, |s|]
  {
    hide AlignedStart, Cut;
  }

  /** One thread has the whole text as its last chunk. */
  lemma OneChunk(s: Text)
    ensures s[LastStart(Starts(s, 1), |s|)..] == s
  {
    hide *;
    OneStart(s);
    LastOfTwo(|s|);
  }

  /** The unterminated last line is a suffix behind a newline, and has none itself. */
  lemma {:induction false} TailIsSuffix(s: Text) returns (p: nat)
    requires Tail(s) != []
    ensures p < |s| && s[p..] == Tail(s) && (p == 0 || s[p - 1] == '\n')
    ensures forall k :: p <= k < |s| ==> s[k] != '\n'
    decreases |s|
  {
    hide NextNewline, Tail;
    FirstTail(s);
    var nl := NextNewline(s, 0);
    if nl == |s| {
      p := 0;
      assert s[0..] == s;
    } else {
      var rest := s[nl + 1..];
      var r := TailIsSuffix(rest);
      p := nl + 1 + r;
      assert s[p..] == rest[r..];
      assert forall k :: p <= k < |s| ==> s[k] == rest[k - (nl + 1)];
    }
  }

  lemma FirstTail(s: Text)
    requires Tail(s) != []
    ensures s != []
    ensures var nl := NextNewline(s, 0);
            if nl == |s| then Tail(s) == s else AfterLine(s) == s[nl + 1..] && Tail(s) == Tail(AfterLine(s))
  {
    hide NextNewline;
  }

  /** With one thread more than bytes, the text is cut at every byte. */
  lemma CutEverywhere(n: nat, i: nat)
    requires 1 <= i <= n
    ensures Cut(n, i, n + 1) == i - 1
  {
    var x, d := n * i, n + 1;
    QuotientBounds(x, d);
    assert x == d * (i - 1) + (n + 1 - i);
    if x / d < i - 1 {
      MultipleGap(d, x / d, i - 1);
    } else if x / d > i - 1 {
      MultipleGap(d, i - 1, x / d);
    }
  }

  /** Then the last chunk is the unterminated line alone. */
  lemma TailAlone(s: Text)
    requires Tail(s) != [] && HasBlank(s)
    ensures !HasBlank(s[LastStart(Starts(s, |s| + 1), |s|)..])
  {
    hide Tail, Cut, HasBlank;
    var n, p := |s|, 0;
    p := TailIsSuffix(s);
    var starts := Starts(s, n + 1);
    NoBlankInTail(s, p);
    forall i | p <= i <= n + 1
      ensures starts[i] == if i == p then p else n
    {
      if i <= n {
        CutEverywhere(n, i);
        CutBehind(s, p, i - 1);
      }
    }
    LastStartIs(starts, n, p);
  }

  lemma NoBlankInTail(s: Text, p: nat)
    requires p < |s| && (forall k :: p <= k < |s| ==> s[k] != '\n') && HasBlank(s)
    ensures p > 0 && !HasBlank(s[p..])
  {
    var rest := s[p..];
    assert NextNewline(rest, 0) == |rest|;
    assert s[0..] == s;
  }

  lemma CutBehind(s: Text, p: nat, raw: nat)
    requires 0 < p < |s| && s[p - 1] == '\n' && (forall k :: p <= k < |s| ==> s[k] != '\n')
    requires p - 1 <= raw < |s|
    ensures AlignedStart(s, raw) == if raw == p - 1 then p else |s|
  {
    var nl := NextNewline(s, raw);
  }

  /** Exactly when the number of threads cannot be seen in what is loaded: the text is
      terminated, its last line is no valid row, or no line of it is blank. */
  lemma ThreadCountInvisible<Row>(s: Text, parse: Text -> Option<Row>)
    ensures (forall nt: nat :: nt > 0 ==> Loaded(s, nt, parse) == Loaded(s, 1, parse)) <==>
            Tail(s) == [] || parse(Chomp(Tail(s))).None? || !HasBlank(s)
  {
    hide Loaded, LastStart, Starts, Tail, HasBlank, Chomp;
    OneChunk(s);
    if ValidTail(s, parse) && HasBlank(s) {
      TailAlone(s);
      SameForBoth(s, |s| + 1, 1, parse);
      assert Loaded(s, |s| + 1, parse) != Loaded(s, 1, parse);
    } else {
      forall nt: nat | nt > 0
        ensures Loaded(s, nt, parse) == Loaded(s, 1, parse)
      {
        SameForBoth(s, nt, 1, parse);
        if HasBlank(s[LastStart(Starts(s, nt), |s|)..]) {
          BlankInSuffix(s, nt);
        }
      }
    }
  }
}
