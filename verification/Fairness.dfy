/** What the weighted scheduler guarantees: whom a call serves, how long a request waits, and
    exactly when every request gets its share. */
module Fairness {
  import opened Basics
  import opened Scheduler

  // --- Whom a call serves ---------------------------------------------------------------------

  /** Steps from the cursor to an index, going round. */
  function Gap(n: nat, cursor: nat, k: nat): int
  {
    if cursor <= k then k - cursor else n - cursor + k
  }

  /** The queue after the first `m` entries from the cursor on were found without credit. */
  function Refilled(q: seq<Entry>, cursor: nat, m: nat): (r: seq<Entry>)
    requires cursor < |q|
    ensures |r| == |q|
    ensures forall i :: 0 <= i < |q| ==> r[i] == if Gap(|q|, cursor, i) < m then q[i].(credits := q[i].weight) else q[i]
  {
    seq(|q|, i requires 0 <= i < |q| => if Gap(|q|, cursor, i) < m then q[i].(credits := q[i].weight) else q[i])
  }

  /** The position `m` steps after the cursor. */
  function Onward(n: nat, cursor: nat, m: nat): nat
    requires cursor < n && m <= n
  {
    if cursor + m < n then cursor + m else cursor + m - n
  }

  /** Entries without credit are passed over, at most one round of them. */
  lemma {:induction false} PassesOver(q: seq<Entry>, cursor: nat, tries: nat, m: nat)
    requires cursor < |q| && m <= |q| && tries + m <= |q| + 1
    requires forall i :: 0 <= i < |q| && Gap(|q|, cursor, i) < m ==> q[i].credits <= 0
    ensures Serve(q, cursor, tries) == Serve(Refilled(q, cursor, m), Onward(|q|, cursor, m), tries + m)
    decreases m
  {
    hide Serve;
    if m == 0 {
      assert Refilled(q, cursor, 0) == q;
    } else {
      assert Gap(|q|, cursor, cursor) == 0;
      SkipOne(q, cursor, tries);
      var q1, c1 := q[cursor := q[cursor].(credits := q[cursor].weight)], After(cursor, |q|);
      PassesOver(q1, c1, tries + 1, m - 1);
      assert Refilled(q1, c1, m - 1) == Refilled(q, cursor, m);
    }
  }

  /** The first entry with credit, going round from the cursor, is the one served. */
  lemma FirstCreditServed(q: seq<Entry>, cursor: nat, k: nat)
    requires cursor < |q| && k < |q| && q[k].credits > 0
    requires forall i :: 0 <= i < |q| && Gap(|q|, cursor, i) < Gap(|q|, cursor, k) ==> q[i].credits <= 0
    ensures Serve(q, cursor, 0).idx == k
  {
    hide Serve;
    var m := Gap(|q|, cursor, k);
    PassesOver(q, cursor, 0, m);
    ServeHere(Refilled(q, cursor, m), k, m);
  }

  lemma {:induction false} NearestCredit(q: seq<Entry>, cursor: nat, k: nat) returns (j: nat)
    requires cursor < |q| && k < |q| && q[k].credits > 0
    ensures j < |q| && q[j].credits > 0
    ensures forall i :: 0 <= i < |q| && Gap(|q|, cursor, i) < Gap(|q|, cursor, j) ==> q[i].credits <= 0
    decreases Gap(|q|, cursor, k)
  {
    j := k;
    if i :| 0 <= i < |q| && Gap(|q|, cursor, i) < Gap(|q|, cursor, k) && q[i].credits > 0 {
      j := NearestCredit(q, cursor, i);
    }
  }

  /** When no entry has credit, a round of refills is tried: the entry under the cursor gets
      its turn if it has weight, and otherwise the front of the queue does, weight or not. */
  lemma NoCreditServed(q: seq<Entry>, cursor: nat)
    requires cursor < |q| && forall i :: 0 <= i < |q| ==> q[i].credits <= 0
    ensures Serve(q, cursor, 0).idx == if q[cursor].weight > 0 then cursor else 0
  {
    hide Serve;
    var n := |q|;
    PassesOver(q, cursor, 0, n);
    var r := Refilled(q, cursor, n);
    if q[cursor].weight > 0 {
      ServeHere(r, cursor, n);
    } else {
      SkipOne(r, cursor, n);
      var r1 := r[cursor := r[cursor].(credits := r[cursor].weight)];
      ServeGivesUp(r1, After(cursor, n), n + 1);
    }
  }

  /** An entry with neither weight nor credit is passed over exactly when some entry has
      credit, or the entry under the cursor or at the front of the queue has weight. */
  lemma WeightlessPassedOver(q: seq<Entry>, cursor: nat)
    requires cursor < |q|
    ensures var e := q[Serve(q, cursor, 0).idx];
            (e.credits > 0 || e.weight > 0)
            <==> (exists k :: 0 <= k < |q| && q[k].credits > 0) || q[cursor].weight > 0 || q[0].weight > 0
  {
    if k :| 0 <= k < |q| && q[k].credits > 0 {
      var j := NearestCredit(q, cursor, k);
      FirstCreditServed(q, cursor, j);
    } else {
      NoCreditServed(q, cursor);
    }
  }

  /** A history that fails it: two requests added without weight, the second one then given
      weight 2, and the call returns the first one. */
  lemma WeightlessServed()
    ensures var q := Added(Added(Added([], "a", 0), "b", 0), "b", 2);
            && q == [Entry("a", 0, 0), Entry("b", 2, 0)]
            && Serve(q, 0, 0).idx == 0
  {
    var q := [Entry("a", 0, 0), Entry("b", 2, 0)];
    var one := [Entry("a", 0, 0)];
    assert Added([], "a", 0) == one;
    assert one[1..] == [];
    var two := [Entry("a", 0, 0), Entry("b", 0, 0)];
    assert Added(one, "b", 0) == two;
    assert two[1..] == [Entry("b", 0, 0)];
    assert Find(two, "b") == 1;
    assert Added(two, "b", 2) == q;
    NoCreditServed(q, 0);
  }

  // --- How long a request waits -------------------------------------------------------------

  function Credits(q: seq<Entry>): int
  {
    if q == [] then 0 else q[0].credits + Credits(q[1..])
  }

  lemma {:induction false} CreditsConcat(a: seq<Entry>, b: seq<Entry>)
    ensures Credits(a + b) == Credits(a) + Credits(b)
    decreases |a|
  {
    if a == [] {
      assert a + b == b;
    } else {
      assert (a + b)[1..] == a[1..] + b;
      CreditsConcat(a[1..], b);
    }
  }

  lemma CreditsFirst(q: seq<Entry>, i: nat, j: nat)
    requires i < j <= |q|
    ensures Credits(q[i..j]) == q[i].credits + Credits(q[i + 1..j])
  {
    assert q[i..j][1..] == q[i + 1..j];
  }

  lemma CreditsCut(q: seq<Entry>, i: nat, j: nat, l: nat)
    requires i <= j <= l <= |q|
    ensures Credits(q[i..l]) == Credits(q[i..j]) + Credits(q[j..l])
  {
    assert q[i..l] == q[i..j] + q[j..l];
    CreditsConcat(q[i..j], q[j..l]);
  }

  /** Changing one entry's credits changes the sum by as much. */
  lemma CreditsUpdate(q: seq<Entry>, k: nat, e: Entry)
    requires k < |q|
    ensures Credits(q[k := e]) == Credits(q) - q[k].credits + e.credits
  {
    hide Credits;
    var r := q[k := e];
    assert q == q[0..|q|] && r == r[0..|r|];
    CreditsCut(q, 0, k, |q|);
    CreditsCut(r, 0, k, |r|);
    CreditsFirst(q, k, |q|);
    CreditsFirst(r, k, |r|);
    assert r[0..k] == q[0..k] && r[k + 1..|r|] == q[k + 1..|q|];
  }

  ghost predicate Credited(q: seq<Entry>)
  {
    forall k :: 0 <= k < |q| ==> q[k].credits >= 1
  }

  /** Everybody has credit, and everybody but perhaps `k` has weight. */
  ghost predicate LiveBut(q: seq<Entry>, k: nat)
  {
    Credited(q) && forall i :: 0 <= i < |q| && i != k ==> q[i].weight >= 1
  }

  ghost predicate Live(q: seq<Entry>)
  {
    Credited(q) && forall i :: 0 <= i < |q| ==> q[i].weight >= 1
  }

  lemma {:induction false} CreditedSum(q: seq<Entry>)
    requires Credited(q)
    ensures Credits(q) >= |q|
  {
    if q != [] {
      CreditedSum(q[1..]);
    }
  }

  /** The credits in front of entry `k`, going round from the cursor. */
  function Ahead(q: seq<Entry>, cursor: nat, k: nat): int
    requires cursor < |q| && k < |q|
  {
    if cursor <= k then Credits(q[cursor..k]) else Credits(q[cursor..|q|]) + Credits(q[0..k])
  }

  lemma AheadIsNat(q: seq<Entry>, cursor: nat, k: nat)
    requires Credited(q) && cursor < |q| && k < |q|
    ensures Ahead(q, cursor, k) >= (if cursor == k then 0 else 1)
    ensures cursor == k ==> Ahead(q, cursor, k) == 0
  {
    hide Credits;
    if cursor <= k {
      CreditedSum(q[cursor..k]);
      assert q[k..k] == [];
      NoCredits(q);
    } else {
      CreditedSum(q[cursor..|q|]);
      CreditedSum(q[0..k]);
    }
  }

  lemma NoCredits(q: seq<Entry>)
    ensures Credits([]) == 0 && Credits(q[|q|..|q|]) == 0 && (q != [] ==> Credits(q[0..0]) == 0)
  {
  }

  /** An entry the cursor has just left has everybody else ahead of it. */
  lemma AheadOfLeft(q: seq<Entry>, c: nat)
    requires c < |q|
    ensures Ahead(q, After(c, |q|), c) == if |q| == 1 then 0 else Credits(q) - q[c].credits
  {
    hide Credits;
    NoCredits(q);
    assert q == q[0..|q|];
    CreditsCut(q, 0, c, |q|);
    CreditsFirst(q, c, |q|);
    if c + 1 == |q| {
      assert q[c + 1..|q|] == [];
      assert |q| == 1 ==> q[0..0] == [];
    }
  }

  /** A turn either serves `k` or brings it one closer. */
  lemma TurnApproaches(q: seq<Entry>, cursor: nat, k: nat)
    requires LiveBut(q, k) && cursor < |q| && k < |q| && cursor != k
    ensures var t := Serve(q, cursor, 0);
            && t.idx == cursor && LiveBut(t.q, k) && SameWeights(q, t.q) && t.q[k] == q[k]
            && Ahead(t.q, t.cursor, k) == Ahead(q, cursor, k) - 1
  {
    hide Serve, Credits;
    TurnIs(q, cursor);
    var t := Serve(q, cursor, 0);
    var hi := if cursor <= k then k else |q|;
    CreditsFirst(q, cursor, hi);
    CreditsFirst(t.q, cursor, hi);
    assert t.q[cursor + 1..hi] == q[cursor + 1..hi];
    if hi == |q| {
      assert t.q[0..k] == q[0..k];
      NoCredits(q);
    }
  }

  /** The calls until the cursor reaches `k` do not return `k`, and leave it as it is. */
  lemma {:induction false} Arrives(q: seq<Entry>, cursor: nat, k: nat)
    requires LiveBut(q, k) && Distinct(q) && cursor < |q| && k < |q|
    ensures Ahead(q, cursor, k) >= 0
    ensures var p := Play(q, cursor, Ahead(q, cursor, k));
            && p.cursor == k && p.q[k] == q[k] && SameWeights(q, p.q) && LiveBut(p.q, k)
            && q[k].rid !in p.log
    decreases Ahead(q, cursor, k)
  {
    hide Serve, Ahead;
    AheadIsNat(q, cursor, k);
    if cursor != k {
      var t := Serve(q, cursor, 0);
      TurnApproaches(q, cursor, k);
      DistinctRids(q, t.q);
      Arrives(t.q, t.cursor, k);
      assert q[cursor].rid != q[k].rid;
    }
  }

  lemma DistinctRids(a: seq<Entry>, b: seq<Entry>)
    requires Distinct(a) && SameWeights(a, b)
    ensures Distinct(b)
  {
  }

  lemma {:induction false} PlayConcat(q: seq<Entry>, cursor: nat, m: nat, n: nat)
    requires cursor < |q|
    ensures var a := Play(q, cursor, m);
            var b := Play(a.q, a.cursor, n);
            Play(q, cursor, m + n) == Played(a.log + b.log, b.q, b.cursor)
    decreases m
  {
    hide Serve;
    var a := Play(q, cursor, m);
    var b := Play(a.q, a.cursor, n);
    if m == 0 {
      assert a.log + b.log == b.log;
    } else {
      var t := Serve(q, cursor, 0);
      PlayConcat(t.q, t.cursor, m - 1, n);
      var r := Play(t.q, t.cursor, m - 1);
      assert ([q[t.idx].rid] + r.log) + b.log == [q[t.idx].rid] + (r.log + b.log);
    }
  }

  lemma PlayOne(q: seq<Entry>, cursor: nat)
    requires cursor < |q|
    ensures var t := Serve(q, cursor, 0);
            Play(q, cursor, 1) == Played([q[t.idx].rid], t.q, t.cursor)
  {
    var t := Serve(q, cursor, 0);
    assert Play(t.q, t.cursor, 0).log == [];
  }

  /** Bounded wait, exactly: request `k` is returned by the call that follows the credits
      ahead of it, and by none before. */
  lemma ServedInTime(q: seq<Entry>, cursor: nat, k: nat)
    requires Live(q) && Distinct(q) && cursor < |q| && k < |q|
    ensures var n := Ahead(q, cursor, k);
            n >= 0 && q[k].rid !in Play(q, cursor, n).log && Play(q, cursor, n + 1).log[n] == q[k].rid
  {
    hide Serve, Ahead, Play;
    Arrives(q, cursor, k);
    var n := Ahead(q, cursor, k);
    var p := Play(q, cursor, n);
    PlayConcat(q, cursor, n, 1);
    PlayOne(p.q, k);
    ServeHere(p.q, k, 0);
  }

  lemma PlayPrefix(q: seq<Entry>, cursor: nat, m: nat, n: nat)
    requires cursor < |q| && m <= n
    ensures Play(q, cursor, m).log == Play(q, cursor, n).log[..m]
  {
    hide Play;
    PlayConcat(q, cursor, m, n - m);
  }

  lemma {:induction false} CreditsWithin(q: seq<Entry>)
    requires forall k :: 0 <= k < |q| ==> q[k].credits <= q[k].weight && q[k].weight >= 0
    ensures Credits(q) <= |Wheel(q)|
    ensures forall k :: 0 <= k < |q| && q[k].credits < q[k].weight ==> Credits(q) < |Wheel(q)|
  {
    if q != [] {
      CreditsWithin(q[1..]);
      forall k | 0 <= k < |q| && q[k].credits < q[k].weight
        ensures Credits(q) < |Wheel(q)|
      {
        if k > 0 {
          assert q[1..][k - 1].credits < q[1..][k - 1].weight;
        }
      }
    }
  }

  /** A request is among the next sum-of-weights calls exactly when fewer credits than that
      are ahead of it; so nobody waits longer than a round unless a weight was lowered below
      the credits left. */
  lemma ServedWithinRound(q: seq<Entry>, cursor: nat, k: nat)
    requires Live(q) && Distinct(q) && cursor < |q| && k < |q|
    ensures q[k].rid in Play(q, cursor, |Wheel(q)|).log <==> Ahead(q, cursor, k) < |Wheel(q)|
    ensures (forall i :: 0 <= i < |q| ==> q[i].credits <= q[i].weight) ==> Ahead(q, cursor, k) < |Wheel(q)|
  {
    hide Ahead, Play, Wheel, Credits;
    ServedInTime(q, cursor, k);
    var n, w := Ahead(q, cursor, k), |Wheel(q)|;
    if n < w {
      PlayPrefix(q, cursor, n + 1, w);
      assert Play(q, cursor, w).log[n] == q[k].rid;
    } else {
      PlayPrefix(q, cursor, w, n);
      var log := Play(q, cursor, n).log;
      assert forall x :: x in log[..w] ==> x in log;
    }
    if forall i :: 0 <= i < |q| ==> q[i].credits <= q[i].weight {
      CreditsWithin(q);
      AheadBelow(q, cursor, k);
    }
  }

  /** What is ahead of a request is at most all credits but its own. */
  lemma AheadBelow(q: seq<Entry>, cursor: nat, k: nat)
    requires Credited(q) && cursor < |q| && k < |q|
    ensures Ahead(q, cursor, k) <= Credits(q) - q[k].credits
  {
    hide Credits, Credited;
    assert q == q[0..|q|];
    CreditsCut(q, 0, k, |q|);
    CreditsFirst(q, k, |q|);
    if cursor <= k {
      CreditsCut(q, 0, cursor, k);
      SliceSum(q, k + 1, |q|);
      SliceSum(q, 0, cursor);
    } else {
      CreditsCut(q, k + 1, cursor, |q|);
      SliceSum(q, k + 1, cursor);
    }
  }

  lemma SliceSum(q: seq<Entry>, i: nat, j: nat)
    requires Credited(q) && i <= j <= |q|
    ensures Credits(q[i..j]) >= 0
  {
    CreditedSum(q[i..j]);
  }

  // --- When everybody gets its share ------------------------------------------------------------

  /** The next sum-of-weights calls return every request exactly `weight` times. */
  ghost predicate RoundFair(q: seq<Entry>, cursor: nat)
    requires cursor < |q|
  {
    forall j :: 0 <= j < |q| ==> multiset(Play(q, cursor, |Wheel(q)|).log)[q[j].rid] == q[j].weight
  }

  ghost predicate FairAfter(q: seq<Entry>, cursor: nat, n: nat)
    requires cursor < |q|
  {
    RoundFair(Play(q, cursor, n).q, Play(q, cursor, n).cursor)
  }

  /** Any sum-of-weights consecutive calls from now on do. */
  ghost predicate AlwaysFair(q: seq<Entry>, cursor: nat)
    requires cursor < |q|
  {
    forall n: nat :: FairAfter(q, cursor, n)
  }

  lemma FairLater(q: seq<Entry>, cursor: nat, m: nat)
    requires cursor < |q| && AlwaysFair(q, cursor)
    ensures var p := Play(q, cursor, m); RoundFair(p.q, p.cursor) && AlwaysFair(p.q, p.cursor)
  {
    hide Play, RoundFair;
    assert FairAfter(q, cursor, m);
    var p := Play(q, cursor, m);
    forall n: nat
      ensures FairAfter(p.q, p.cursor, n)
    {
      assert FairAfter(q, cursor, m + n);
      PlayConcat(q, cursor, m, n);
    }
  }

  lemma {:induction false} PlayKeepsRegular(q: seq<Entry>, cursor: nat, n: nat)
    requires Regular(q, cursor) && q != [] && Distinct(q)
    ensures var p := Play(q, cursor, n); Regular(p.q, p.cursor) && SameWeights(q, p.q) && Distinct(p.q)
    decreases n
  {
    hide Serve, Regular, Distinct;
    if n > 0 {
      TurnStaysRegular(q, cursor);
      var t := Serve(q, cursor, 0);
      DistinctRids(q, t.q);
      RegularCursor(q, cursor);
      PlayKeepsRegular(t.q, t.cursor, n - 1);
    }
  }

  lemma RegularCursor(q: seq<Entry>, cursor: nat)
    requires Regular(q, cursor) && q != []
    ensures cursor < |q| && Live(q) && q[cursor].credits <= q[cursor].weight
  {
  }

  /** From a regular state the share is exact, in every window. */
  lemma RegularIsFair(q: seq<Entry>, cursor: nat)
    requires Regular(q, cursor) && q != [] && Distinct(q)
    ensures RoundFair(q, cursor) && AlwaysFair(q, cursor)
  {
    hide Play, Wheel, Regular;
    RegularCursor(q, cursor);
    forall n: nat
      ensures FairAfter(q, cursor, n)
    {
      PlayKeepsRegular(q, cursor, n);
      RegularRound(Play(q, cursor, n).q, Play(q, cursor, n).cursor);
    }
    RegularRound(q, cursor);
  }

  lemma RegularRound(q: seq<Entry>, cursor: nat)
    requires Regular(q, cursor) && q != [] && Distinct(q)
    ensures RoundFair(q, cursor)
  {
    hide Play, Wheel;
    forall j | 0 <= j < |q|
      ensures multiset(Play(q, cursor, |Wheel(q)|).log)[q[j].rid] == q[j].weight
    {
      FairShare(q, cursor, j);
    }
  }

  /** The entry under the cursor spends some of its credits. */
  lemma {:induction false} SpendsSome(q: seq<Entry>, c: nat, n: nat)
    requires c < |q| && n < q[c].credits
    ensures Play(q, c, n) == Played(Repeat(q[c].rid, n), q[c := q[c].(credits := q[c].credits - n)], c)
    decreases n
  {
    hide Serve;
    if n == 0 {
      assert q[c := q[c].(credits := q[c].credits - n)] == q;
    } else {
      TurnIs(q, c);
      var t := Serve(q, c, 0);
      SpendsSome(t.q, c, n - 1);
      assert t.q[c := t.q[c].(credits := t.q[c].credits - (n - 1))] == q[c := q[c].(credits := q[c].credits - n)];
      assert [q[c].rid] + Repeat(q[c].rid, n - 1) == Repeat(q[c].rid, n);
    }
  }

  /** All of them: it is refilled and the cursor moves on. */
  lemma SpendsAll(q: seq<Entry>, c: nat)
    requires c < |q| && q[c].credits >= 1
    ensures Play(q, c, q[c].credits)
         == Played(Repeat(q[c].rid, q[c].credits), q[c := q[c].(credits := q[c].weight)], After(c, |q|))
  {
    hide Play, Serve;
    var n := q[c].credits - 1;
    SpendsSome(q, c, n);
    var r := q[c := q[c].(credits := 1)];
    PlayConcat(q, c, n, 1);
    PlayOne(r, c);
    TurnIs(r, c);
    assert r[c := r[c].(credits := r[c].weight)] == q[c := q[c].(credits := q[c].weight)];
    assert Repeat(q[c].rid, n) + [q[c].rid] == Repeat(q[c].rid, n + 1);
  }

  /** The first `n` calls return only the entry under the cursor. */
  lemma SpendsLog(q: seq<Entry>, c: nat, n: nat)
    requires c < |q| && 1 <= n <= q[c].credits
    ensures Play(q, c, n).log == Repeat(q[c].rid, n)
  {
    if n < q[c].credits {
      SpendsSome(q, c, n);
    } else {
      SpendsAll(q, c);
    }
  }

  lemma {:induction false} WheelSum(q: seq<Entry>, c: nat)
    requires c < |q| && forall i :: 0 <= i < |q| ==> q[i].weight >= 1
    ensures |Wheel(q)| >= q[c].weight + |q| - 1
    decreases |q|
  {
    if c > 0 {
      WheelSum(q[1..], c - 1);
    } else if |q| > 1 {
      WheelSum(q[1..], 0);
    }
  }

  lemma PrefixCount(log: seq<string>, m: nat, rid: string)
    requires m <= |log|
    ensures multiset(log)[rid] >= multiset(log[..m])[rid]
    ensures multiset(log)[rid] <= multiset(log[..m])[rid] + (|log| - m)
  {
    assert log == log[..m] + log[m..];
  }

  /** An entry under the cursor with more credits than its weight gets too much. */
  lemma Overfull(q: seq<Entry>, c: nat)
    requires Live(q) && c < |q| && |q| >= 2 && q[c].credits > q[c].weight
    ensures !RoundFair(q, c)
  {
    hide Play, Wheel, Repeat;
    var n, w := q[c].weight + 1, |Wheel(q)|;
    WheelSum(q, c);
    SpendsLog(q, c, n);
    RepeatCount(q[c].rid, n);
    PlayPrefix(q, c, n, w);
    PrefixCount(Play(q, c, w).log, n, q[c].rid);
  }

  /** An entry that waits too long gets too little. */
  lemma Late(q: seq<Entry>, c: nat, k: nat)
    requires Live(q) && Distinct(q) && c < |q| && k < |q| && Ahead(q, c, k) > |Wheel(q)| - q[k].weight
    ensures !RoundFair(q, c)
  {
    hide Play, Wheel, Ahead;
    Arrives(q, c, k);
    var n, w := Ahead(q, c, k), |Wheel(q)|;
    var m := if n < w then n else w;
    PlayPrefix(q, c, m, n);
    PlayPrefix(q, c, m, w);
    NotIn(Play(q, c, n).log, m, q[k].rid);
    PrefixCount(Play(q, c, w).log, m, q[k].rid);
  }

  lemma NotIn(log: seq<string>, m: nat, rid: string)
    requires rid !in log && m <= |log|
    ensures multiset(log[..m])[rid] == 0
  {
    assert log == log[..m] + log[m..];
    assert rid !in log[..m];
  }

  /** An entry that is served, and again before the round is over, gets too much. */
  lemma Early(q: seq<Entry>, c: nat, x: nat)
    requires Live(q) && Distinct(q) && c < |q| && |q| >= 2 && 1 <= x <= q[c].weight
    requires Credits(q) + x <= |Wheel(q)| && q[c].credits + x > q[c].weight
    ensures !RoundFair(q, c)
  {
    hide Play, Wheel, Ahead, Credits, Repeat, Live;
    var f, w := q[c], |Wheel(q)|;
    LiveAt(q, c);
    var b := q[c := f.(credits := f.weight)];
    var cb := After(c, |q|);
    SpendsAll(q, c);
    LiveRefill(q, c);
    CreditsUpdate(q, c, f.(credits := f.weight));
    AheadOfLeft(b, c);
    Arrives(b, cb, c);
    var o := Ahead(b, cb, c);
    var d := Play(b, cb, o);
    SpendsLog(d.q, c, x);
    PlayConcat(b, cb, o, x);
    PlayConcat(q, c, f.credits, o + x);
    var n := f.credits + (o + x);
    var log := Play(q, c, n).log;
    assert log == Repeat(f.rid, f.credits) + (d.log + Repeat(f.rid, x));
    RepeatCount(f.rid, f.credits);
    RepeatCount(f.rid, x);
    assert multiset(log)[f.rid] >= f.credits + x;
    PlayPrefix(q, c, n, w);
    PrefixCount(Play(q, c, w).log, n, f.rid);
  }

  lemma LiveAt(q: seq<Entry>, c: nat)
    requires Live(q) && c < |q|
    ensures q[c].credits >= 1 && q[c].weight >= 1 && LiveBut(q, c)
  {
  }

  lemma LiveRefill(q: seq<Entry>, c: nat)
    requires Live(q) && Distinct(q) && c < |q|
    ensures var b := q[c := q[c].(credits := q[c].weight)];
            Live(b) && LiveBut(b, c) && Distinct(b) && SameWeights(q, b)
  {
  }

  /** What the cursor leaves behind when its entry is spent. */
  lemma LeavesEntry(q: seq<Entry>, c: nat)
    requires Live(q) && Distinct(q) && c < |q| && |q| >= 2
    ensures var b := q[c := q[c].(credits := q[c].weight)];
            var cb := After(c, |q|);
            && Play(q, c, q[c].credits).q == b && Play(q, c, q[c].credits).cursor == cb
            && Live(b) && Distinct(b) && SameWeights(q, b) && Wheel(b) == Wheel(q)
            && Credits(b) == Credits(q) - q[c].credits + q[c].weight
            && Ahead(b, cb, c) == Credits(q) - q[c].credits
  {
    hide Play, Wheel, Ahead, Credits, Live, Distinct;
    LiveAt(q, c);
    var b := q[c := q[c].(credits := q[c].weight)];
    SpendsAll(q, c);
    LiveRefill(q, c);
    SameWheel(q, b);
    CreditsUpdate(q, c, b[c]);
    AheadOfLeft(b, c);
  }

  /** In a schedule that stays fair, the others have the credits of one round left. */
  lemma Balance(q: seq<Entry>, c: nat)
    requires Live(q) && Distinct(q) && c < |q| && |q| >= 2 && AlwaysFair(q, c)
    ensures Credits(q) - q[c].credits == |Wheel(q)| - q[c].weight
  {
    hide Play, Wheel, Ahead, Credits, Distinct, AlwaysFair, RoundFair, Live;
    LiveAt(q, c);
    LeavesEntry(q, c);
    var others := Credits(q) - q[c].credits;
    var b := q[c := q[c].(credits := q[c].weight)];
    FairLater(q, c, q[c].credits);
    if others > |Wheel(q)| - q[c].weight {
      Late(b, After(c, |q|), c);
    } else if others < |Wheel(q)| - q[c].weight {
      LastCredit(q, c);
    }
  }

  lemma LastCredit(q: seq<Entry>, c: nat)
    requires Live(q) && Distinct(q) && c < |q| && |q| >= 2
    requires Credits(q) - q[c].credits < |Wheel(q)| - q[c].weight
    ensures !AlwaysFair(q, c)
  {
    hide Play, Wheel, Ahead, Credits, Distinct, AlwaysFair, RoundFair, Live;
    LiveAt(q, c);
    var n := q[c].credits - 1;
    var r := q[c := q[c].(credits := q[c].credits - n)];
    SpendsSome(q, c, n);
    CreditsUpdate(q, c, r[c]);
    LiveOne(q, c);
    SameWheel(q, r);
    Early(r, c, r[c].weight);
    if AlwaysFair(q, c) {
      FairLater(q, c, n);
    }
  }

  lemma LiveOne(q: seq<Entry>, c: nat)
    requires Live(q) && Distinct(q) && c < |q|
    ensures var r := q[c := q[c].(credits := 1)]; Live(r) && Distinct(r) && SameWeights(q, r)
  {
  }

  /** In a schedule that stays fair, the next entry has its full credits. */
  lemma NextFull(q: seq<Entry>, c: nat)
    requires Live(q) && Distinct(q) && c < |q| && |q| >= 2 && AlwaysFair(q, c)
    ensures q[After(c, |q|)].credits == q[After(c, |q|)].weight
  {
    hide Play, Wheel, Ahead, Credits, Distinct, AlwaysFair, RoundFair, Live;
    LiveAt(q, c);
    LeavesEntry(q, c);
    FairLater(q, c, q[c].credits);
    Balance(q, c);
    Balance(q[c := q[c].(credits := q[c].weight)], After(c, |q|));
  }

  lemma {:induction false} OthersFull(q: seq<Entry>, c: nat, k: nat)
    requires Live(q) && Distinct(q) && c < |q| && k < |q| && k != c && AlwaysFair(q, c)
    ensures q[k].credits == q[k].weight
    decreases Gap(|q|, c, k)
  {
    hide Play, Wheel, Ahead, Credits, Distinct, AlwaysFair, RoundFair, Live;
    NextFull(q, c);
    if After(c, |q|) != k {
      LiveAt(q, c);
      LeavesEntry(q, c);
      FairLater(q, c, q[c].credits);
      OthersFull(q[c := q[c].(credits := q[c].weight)], After(c, |q|), k);
    }
  }

  /** The share is exact in every window from now on exactly when the state is regular: every
      entry but the one under the cursor has its full credits, and that one no more. */
  lemma FairExactly(q: seq<Entry>, c: nat)
    requires Live(q) && Distinct(q) && c < |q| && |q| >= 2
    ensures AlwaysFair(q, c) <==> Regular(q, c)
  {
    hide Play, Wheel, Distinct, AlwaysFair, RoundFair;
    if AlwaysFair(q, c) {
      FairLater(q, c, 0);
      PlayNone(q, c);
      if q[c].credits > q[c].weight {
        Overfull(q, c);
      }
      forall k | 0 <= k < |q| && k != c
        ensures q[k].credits == q[k].weight
      {
        OthersFull(q, c, k);
      }
    }
    if Regular(q, c) {
      RegularIsFair(q, c);
    }
  }

  lemma PlayNone(q: seq<Entry>, c: nat)
    requires c < |q|
    ensures Play(q, c, 0) == Played([], q, c)
  {
  }

  // --- Round robin --------------------------------------------------------------------------------

  /** Consecutive calls of `next` in round_robin mode, which leaves the queue alone. */
  function Turns(q: seq<Entry>, cursor: nat, n: nat): (p: Played)
    requires cursor < |q|
    ensures |p.log| == n && p.q == q && p.cursor < |q|
    decreases n
  {
    if n == 0 then Played([], q, cursor) else
    var rest := Turns(q, After(cursor, |q|), n - 1);
    rest.(log := [q[cursor].rid] + rest.log)
  }

  /** The same requests with weight 1. */
  function AsUnits(q: seq<Entry>): (r: seq<Entry>)
    ensures |r| == |q| && forall i :: 0 <= i < |q| ==> r[i] == Entry(q[i].rid, 1, 1)
  {
    seq(|q|, i requires 0 <= i < |q| => Entry(q[i].rid, 1, 1))
  }

  /** Round robin is the weighted schedule with all weights 1. */
  lemma {:induction false} TurnsAreUnit(q: seq<Entry>, cursor: nat, n: nat)
    requires cursor < |q|
    ensures var u, p := Play(AsUnits(q), cursor, n), Turns(q, cursor, n);
            u.log == p.log && u.cursor == p.cursor
    decreases n
  {
    hide Serve, After, Regular;
    if n > 0 {
      RoundRobinIsUnit(AsUnits(q), cursor);
      TurnsAreUnit(q, After(cursor, |q|), n - 1);
    }
  }

  lemma {:induction false} UnitWheel(q: seq<Entry>)
    requires forall k :: 0 <= k < |q| ==> q[k].weight == 1
    ensures |Wheel(q)| == |q|
  {
    if q != [] {
      UnitWheel(q[1..]);
    }
  }

  /** Any as many consecutive calls as there are requests return each of them once, and leave
      the cursor where it was. */
  lemma RoundRobinShare(q: seq<Entry>, cursor: nat, j: nat)
    requires Distinct(q) && cursor < |q| && j < |q|
    ensures multiset(Turns(q, cursor, |q|).log)[q[j].rid] == 1 && Turns(q, cursor, |q|).cursor == cursor
  {
    hide Play, Turns, Wheel;
    var u := AsUnits(q);
    UnitWheel(u);
    TurnsAreUnit(q, cursor, |q|);
    FairShare(u, cursor, j);
  }
}
