/** The round-robin drain of FetchChunk.

    A gateway request has one row source per data owner: source 0 is the local
    `matched` deque and the others are the prefetch slots in `data_owners` order.
    One FetchChunk takes a row from every non-empty source in turn until the
    chunk is full or all sources are empty. */
module Drain {
  import opened Basics

  /** An emitted row, tagged with the source it came from. */
  datatype Emit<T> = Emit(source: nat, row: T)

  /** The rows of source `i` in an emission log, in log order. */
  function Project<T>(log: seq<Emit<T>>, i: nat): seq<T>
  {
    if log == [] then [] else
    var last := log[|log| - 1];
    Project(log[..|log| - 1], i) + (if last.source == i then [last.row] else [])
  }

  lemma {:induction false} ProjectConcat<T>(a: seq<Emit<T>>, b: seq<Emit<T>>, i: nat)
    ensures Project(a + b, i) == Project(a, i) + Project(b, i)
    decreases |b|
  {
    if b == [] {
      assert a + b == a;
    } else {
      var n := |b| - 1;
      assert (a + b)[..|a| + n] == a + b[..n];
      ProjectConcat(a, b[..n], i);
    }
  }

  lemma ProjectOne<T>(e: Emit<T>, i: nat)
    ensures Project([e], i) == if e.source == i then [e.row] else []
  {
    assert [e][..0] == [];
  }

  /** Number of rows buffered over all sources. */
  function Total<T>(sources: seq<seq<T>>): nat
  {
    if sources == [] then 0 else
    Total(sources[..|sources| - 1]) + |sources[|sources| - 1]|
  }

  // --- Reference order: whole rounds, one row per non-empty source ---------

  /** What round `r` takes from the first `n` sources. */
  function Round<T>(sources: seq<seq<T>>, r: nat, n: nat): seq<Emit<T>>
    requires n <= |sources|
  {
    if n == 0 then [] else
    var before := Round(sources, r, n - 1);
    if r < |sources[n - 1]| then before + [Emit(n - 1, sources[n - 1][r])] else before
  }

  /** All rounds before round `r`. */
  function Rounds<T>(sources: seq<seq<T>>, r: nat): seq<Emit<T>>
  {
    if r == 0 then [] else Rounds(sources, r - 1) + Round(sources, r - 1, |sources|)
  }

  /** Everything emitted when `r` rounds are complete and the next one has passed `n` sources. */
  function Emitted<T>(sources: seq<seq<T>>, r: nat, n: nat): seq<Emit<T>>
    requires n <= |sources|
  {
    Rounds(sources, r) + Round(sources, r, n)
  }

  function Longest<T>(sources: seq<seq<T>>): (m: nat)
    ensures forall i :: 0 <= i < |sources| ==> |sources[i]| <= m
  {
    if sources == [] then 0 else
    var m := Longest(sources[..|sources| - 1]);
    var s := sources[|sources| - 1];
    assert forall i :: 0 <= i < |sources| - 1 ==> sources[i] == sources[..|sources| - 1][i];
    if |s| > m then |s| else m
  }

  /** The complete round-robin interleaving of the sources. */
  function RoundRobin<T>(sources: seq<seq<T>>): seq<Emit<T>>
  {
    Rounds(sources, Longest(sources))
  }

  /** The share of source `i` at drain position (`r`, `n`). */
  function Share<T>(sources: seq<seq<T>>, r: nat, n: nat, i: nat): nat
    requires i < |sources|
  {
    Min(|sources[i]|, if i < n then r + 1 else r)
  }

  lemma {:induction false} RoundProject<T>(sources: seq<seq<T>>, r: nat, n: nat, i: nat)
    requires n <= |sources|
    ensures Project(Round(sources, r, n), i)
         == if i < n && r < |sources[i]| then [sources[i][r]] else []
  {
    hide Project, Round;
    RoundUnfold(sources, r, n);
    if n == 0 {
      ProjectNone<T>(i);
    } else {
      RoundProject(sources, r, n - 1, i);
      if r < |sources[n - 1]| {
        var e := Emit(n - 1, sources[n - 1][r]);
        ProjectConcat(Round(sources, r, n - 1), [e], i);
        ProjectOne(e, i);
      }
    }
  }

  lemma RoundUnfold<T>(sources: seq<seq<T>>, r: nat, n: nat)
    requires n <= |sources|
    ensures Round(sources, r, n) == if n == 0 then [] else
            if r < |sources[n - 1]| then Round(sources, r, n - 1) + [Emit(n - 1, sources[n - 1][r])]
            else Round(sources, r, n - 1)
  {
  }

  lemma ProjectNone<T>(i: nat)
    ensures Project<T>([], i) == []
  {
  }

  /** At drain position (`r`, `n`) every source has given a prefix of itself:
      `r` rows, one more on the first `n` sources, or all it had. */
  lemma {:induction false} EmittedProject<T>(sources: seq<seq<T>>, r: nat, n: nat, i: nat)
    requires n <= |sources|
    ensures i < |sources| ==>
              Project(Emitted(sources, r, n), i) == sources[i][..Share(sources, r, n, i)]
    ensures i >= |sources| ==> Project(Emitted(sources, r, n), i) == []
    decreases r
  {
    ProjectConcat(Rounds(sources, r), Round(sources, r, n), i);
    RoundProject(sources, r, n, i);
    if r > 0 {
      EmittedProject(sources, r - 1, |sources|, i);
      assert Emitted(sources, r - 1, |sources|) == Rounds(sources, r);
    }
    if i < |sources| {
      ShareStep(sources, r, n, i);
    }
  }

  /** One more round adds the next row of every source that still has one. */
  lemma ShareStep<T>(sources: seq<seq<T>>, r: nat, n: nat, i: nat)
    requires i < |sources|
    ensures sources[i][..Share(sources, r, n, i)]
         == sources[i][..Min(|sources[i]|, r)] + (if i < n && r < |sources[i]| then [sources[i][r]] else [])
  {
  }

  lemma {:induction false} RoundGrows<T>(sources: seq<seq<T>>, r: nat, n: nat, upto: nat)
    requires n <= upto <= |sources|
    ensures Emitted(sources, r, n) <= Emitted(sources, r, upto)
    decreases upto
  {
    if n < upto {
      RoundGrows(sources, r, n, upto - 1);
    }
  }

  lemma {:induction false} RoundsGrow<T>(sources: seq<seq<T>>, r: nat, later: nat)
    requires r <= later
    ensures Rounds(sources, r) <= Rounds(sources, later)
    decreases later
  {
    if r < later {
      RoundsGrow(sources, r, later - 1);
    }
  }

  lemma {:induction false} EmptyRound<T>(sources: seq<seq<T>>, r: nat, n: nat)
    requires n <= |sources|
    requires forall i :: 0 <= i < n ==> |sources[i]| <= r
    ensures Round(sources, r, n) == []
  {
    if n > 0 {
      EmptyRound(sources, r, n - 1);
    }
  }

  /** Rounds past the longest source add nothing. */
  lemma {:induction false} RoundsSaturate<T>(sources: seq<seq<T>>, r: nat, later: nat)
    requires r <= later
    requires forall i :: 0 <= i < |sources| ==> |sources[i]| <= r
    ensures Rounds(sources, later) == Rounds(sources, r)
    decreases later
  {
    if r < later {
      RoundsSaturate(sources, r, later - 1);
      EmptyRound(sources, later - 1, |sources|);
    }
  }

  /** Every drain position is a prefix of the complete interleaving. */
  lemma EmittedIsPrefix<T>(sources: seq<seq<T>>, r: nat, n: nat)
    requires n <= |sources|
    ensures Emitted(sources, r, n) <= RoundRobin(sources)
  {
    RoundGrows(sources, r, n, |sources|);
    var m := Longest(sources);
    if r + 1 <= m {
      RoundsGrow(sources, r + 1, m);
    } else {
      RoundsSaturate(sources, m, r + 1);
    }
  }

  // --- Lengths --------------------------------------------------------------

  /** Rows of a log that carry a source below `n`. */
  function CountBelow<T>(log: seq<Emit<T>>, n: nat): nat
  {
    if n == 0 then 0 else CountBelow(log, n - 1) + |Project(log, n - 1)|
  }

  lemma {:induction false} CountBelowConcat<T>(a: seq<Emit<T>>, b: seq<Emit<T>>, n: nat)
    ensures CountBelow(a + b, n) == CountBelow(a, n) + CountBelow(b, n)
  {
    if n > 0 {
      CountBelowConcat(a, b, n - 1);
      ProjectConcat(a, b, n - 1);
    }
  }

  lemma {:induction false} CountOne<T>(e: Emit<T>, n: nat)
    ensures CountBelow([e], n) == if e.source < n then 1 else 0
  {
    if n > 0 {
      CountOne(e, n - 1);
      ProjectOne(e, n - 1);
    }
  }

  lemma {:induction false} CountEmpty<T>(n: nat)
    ensures CountBelow<T>([], n) == 0
  {
    if n > 0 {
      CountEmpty<T>(n - 1);
    }
  }

  /** A log whose sources are all below `n` is as long as its projections together. */
  lemma {:induction false} LogLength<T>(log: seq<Emit<T>>, n: nat)
    requires SourcesBelow(log, n)
    ensures |log| == CountBelow(log, n)
    decreases |log|
  {
    if log == [] {
      CountEmpty<T>(n);
    } else {
      var m := |log| - 1;
      LogLength(log[..m], n);
      assert log == log[..m] + [log[m]];
      CountBelowConcat(log[..m], [log[m]], n);
      CountOne(log[m], n);
    }
  }

  ghost predicate SourcesBelow<T>(log: seq<Emit<T>>, n: nat)
  {
    forall k :: 0 <= k < |log| ==> log[k].source < n
  }

  lemma {:induction false} RoundSources<T>(sources: seq<seq<T>>, r: nat, n: nat)
    requires n <= |sources|
    ensures SourcesBelow(Round(sources, r, n), |sources|)
  {
    if n > 0 {
      RoundSources(sources, r, n - 1);
    }
  }

  lemma {:induction false} RoundsSources<T>(sources: seq<seq<T>>, r: nat)
    ensures SourcesBelow(Rounds(sources, r), |sources|)
  {
    if r > 0 {
      RoundsSources(sources, r - 1);
      RoundSources(sources, r - 1, |sources|);
    }
  }

  lemma {:induction false} CountWhole<T>(sources: seq<seq<T>>, log: seq<Emit<T>>, n: nat)
    requires n <= |sources|
    requires forall i :: 0 <= i < |sources| ==> Project(log, i) == sources[i]
    ensures CountBelow(log, n) == Total(sources[..n])
  {
    if n > 0 {
      CountWhole(sources, log, n - 1);
      assert sources[..n][..n - 1] == sources[..n - 1];
    }
  }

  /** The complete interleaving holds every source whole, and nothing else. */
  lemma RoundRobinComplete<T>(sources: seq<seq<T>>)
    ensures forall i :: 0 <= i < |sources| ==> Project(RoundRobin(sources), i) == sources[i]
    ensures |RoundRobin(sources)| == Total(sources)
    ensures SourcesBelow(RoundRobin(sources), |sources|)
  {
    var m := Longest(sources);
    var log := RoundRobin(sources);
    assert Emitted(sources, m, 0) == log;
    forall i: nat | i < |sources|
      ensures Project(log, i) == sources[i]
    {
      EmittedProject(sources, m, 0, i);
    }
    RoundsSources(sources, m);
    LogLength(log, |sources|);
    CountWhole(sources, log, |sources|);
    assert sources[..|sources|] == sources;
  }

  // --- One drain --------------------------------------------------------------

  /** What one FetchChunk with room for `max` rows emits. */
  function Take<T>(sources: seq<seq<T>>, max: int): seq<Emit<T>>
  {
    var all := RoundRobin(sources);
    if max <= 0 then [] else all[..Min(max, |all|)]
  }

  /** A drain emits exactly min(max, buffered) rows: it stops early only when all sources are empty. */
  lemma TakeFills<T>(sources: seq<seq<T>>, max: int)
    ensures |Take(sources, max)| == if max <= 0 then 0 else Min(max, Total(sources))
  {
    RoundRobinComplete(sources);
  }

  lemma PrefixProject<T>(all: seq<Emit<T>>, p: nat, i: nat)
    requires p <= |all|
    ensures Project(all[..p], i) <= Project(all, i)
  {
    assert all == all[..p] + all[p..];
    ProjectConcat(all[..p], all[p..], i);
  }

  /** Each source is drained from its front, in order, and nothing is invented. */
  lemma TakeIsFifo<T>(sources: seq<seq<T>>, max: int, i: nat)
    ensures i < |sources| ==> Project(Take(sources, max), i) <= sources[i]
    ensures i >= |sources| ==> Project(Take(sources, max), i) == []
  {
    var all := RoundRobin(sources);
    var out := Take(sources, max);
    assert out == all[..|out|];
    PrefixProject(all, |out|, i);
    RoundRobinComplete(sources);
    EmittedProject(sources, Longest(sources), 0, i);
    assert Emitted(sources, Longest(sources), 0) == all;
  }

  /** Position reached after `p` rows of the complete interleaving. */
  lemma {:induction false} FindPosition<T>(sources: seq<seq<T>>, r: nat, n: nat, p: nat) returns (k: nat, j: nat)
    requires n <= |sources|
    requires p <= |Emitted(sources, r, n)|
    ensures j <= |sources| && Emitted(sources, k, j) == Emitted(sources, r, n)[..p]
    decreases r, n
  {
    if p == |Emitted(sources, r, n)| {
      k, j := r, n;
    } else if n > 0 {
      k, j := FindPosition(sources, r, n - 1, p);
      RoundGrows(sources, r, n - 1, n);
    } else {
      assert Emitted(sources, r, 0) == Emitted(sources, r - 1, |sources|);
      k, j := FindPosition(sources, r - 1, |sources|, p);
    }
  }

  ghost predicate Balanced<T>(sources: seq<seq<T>>, out: seq<Emit<T>>, k: nat, j: nat)
  {
    forall i: nat :: i < |sources| ==> Project(out, i) == sources[i][..Share(sources, k, j, i)]
  }

  /** The drain is fair: for some round `k` every source gave min(len, k) rows,
      or min(len, k + 1) on a prefix of the source order. */
  lemma TakeIsBalanced<T>(sources: seq<seq<T>>, max: int)
    ensures exists k: nat, j: nat :: Balanced(sources, Take(sources, max), k, j)
  {
    var out := Take(sources, max);
    var m := Longest(sources);
    assert Emitted(sources, m, 0) == RoundRobin(sources);
    var k, j := FindPosition(sources, m, 0, |out|);
    assert out == Emitted(sources, k, j);
    forall i: nat | i < |sources|
      ensures Project(out, i) == sources[i][..Share(sources, k, j, i)]
    {
      EmittedProject(sources, k, j, i);
    }
    assert Balanced(sources, out, k, j);
  }
}
