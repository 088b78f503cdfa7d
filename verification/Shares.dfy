/** How requests that come and go change the share of the others. */
module Shares {
  import opened Scheduler
  import opened Fairness

  // --- The share after a change of membership ---------------------------------------------------

  /** After a removal the next round, and every one after it, gives the exact share exactly when
      the removal does not pull a partly used entry away from under the cursor. */
  lemma ShareAfterRemove(q: seq<Entry>, cursor: nat, rid: string)
    requires Regular(q, cursor) && Distinct(q) && Find(q, rid) < |q| && |q| >= 2
    ensures var r, c := Removed(q, rid), RemovedCursor(q, cursor, rid);
            var calm := Find(q, rid) >= cursor || q[cursor].credits == q[cursor].weight || |q| == 2;
            c < |r| && (RoundFair(r, c) <==> calm) && (AlwaysFair(r, c) <==> calm)
  {
    hide Find, AlwaysFair, RoundFair, Removed, Regular, Distinct;
    var r, c := Removed(q, rid), RemovedCursor(q, cursor, rid);
    RemoveRegular(q, cursor, rid);
    MembershipDistinct(q, rid, 1);
    RemovedAt(q, rid);
    RegularCursor(q, cursor);
    if Find(q, rid) >= cursor || q[cursor].credits == q[cursor].weight || |q| == 2 {
      RegularIsFair(r, c);
    } else {
      PulledAway(q, cursor, rid);
      if AlwaysFair(r, c) {
        FairLater(r, c, 0);
        PlayNone(r, c);
      }
    }
  }

  lemma PulledAway(q: seq<Entry>, cursor: nat, rid: string)
    requires Regular(q, cursor) && Distinct(q) && |q| > 2
    requires Find(q, rid) < cursor && q[cursor].credits < q[cursor].weight
    ensures var r, c := Removed(q, rid), RemovedCursor(q, cursor, rid); c < |r| && !RoundFair(r, c)
  {
    hide Find, RoundFair, Removed, Distinct, Wheel, Credits, Live, Regular;
    var r, c := Removed(q, rid), RemovedCursor(q, cursor, rid);
    MembershipDistinct(q, rid, 1);
    PulledState(q, cursor, rid);
    CreditsWithin(r);
    Early(r, c, 1);
  }

  lemma PulledState(q: seq<Entry>, cursor: nat, rid: string)
    requires Regular(q, cursor) && |q| > 2
    requires Find(q, rid) < cursor && q[cursor].credits < q[cursor].weight
    ensures var r, c := Removed(q, rid), RemovedCursor(q, cursor, rid);
            && 0 < cursor < |q| && c < |r| == |q| - 1 && Live(r) && r[c].credits == r[c].weight >= 1
            && (forall k :: 0 <= k < |r| ==> r[k].credits <= r[k].weight && r[k].weight >= 0)
            && r[cursor - 1].credits < r[cursor - 1].weight
  {
    hide Find, Removed;
    RemovedAt(q, rid);
  }

  /** A history in which a removal costs a share: of the five calls that follow it, "b" with
      weight 3 gets one and "c" with weight 2 gets four. */
  lemma RemovalDisturbs()
    ensures var q := [Entry("a", 1, 1), Entry("b", 3, 3), Entry("c", 2, 2)];
            && q == Added(Added(Added([], "a", 1), "b", 3), "c", 2)
            && Play(q, 0, 3) == Played(["a", "b", "b"], q[1 := Entry("b", 3, 1)], 1)
    ensures var q := [Entry("a", 1, 1), Entry("b", 3, 1), Entry("c", 2, 2)];
            && Removed(q, "a") == [Entry("b", 3, 1), Entry("c", 2, 2)] && RemovedCursor(q, 1, "a") == 1
            && Play(Removed(q, "a"), 1, 5).log == ["c", "c", "b", "c", "c"]
  {
    AddedThree();
    var q := [Entry("a", 1, 1), Entry("b", 3, 3), Entry("c", 2, 2)];
    var part := [Entry("a", 1, 1), Entry("b", 3, 1), Entry("c", 2, 2)];
    ThreeCalls(q);
    assert part == q[1 := Entry("b", 3, 1)];
    var r := [Entry("b", 3, 1), Entry("c", 2, 2)];
    assert part[..0] + part[1..] == r;
    FiveCalls(r);
  }

  lemma AddedThree()
    ensures Added(Added(Added([], "a", 1), "b", 3), "c", 2)
         == [Entry("a", 1, 1), Entry("b", 3, 3), Entry("c", 2, 2)]
  {
    var one, two := [Entry("a", 1, 1)], [Entry("a", 1, 1), Entry("b", 3, 3)];
    assert one[1..] == [] && two[1..] == [Entry("b", 3, 3)] && two[1..][1..] == [];
    assert Find(one, "b") == 1 && Find(two, "c") == 2;
    assert one + [Entry("b", 3, 3)] == two;
  }

  lemma ThreeCalls(q: seq<Entry>)
    requires q == [Entry("a", 1, 1), Entry("b", 3, 3), Entry("c", 2, 2)]
    ensures Play(q, 0, 3) == Played(["a", "b", "b"], q[1 := Entry("b", 3, 1)], 1)
  {
    hide Play, Serve;
    SpendsAll(q, 0);
    SpendsSome(q, 1, 2);
    PlayConcat(q, 0, 1, 2);
    assert q[0 := Entry("a", 1, 1)] == q;
    assert Repeat("a", 1) + Repeat("b", 2) == ["a", "b", "b"];
  }

  lemma FiveCalls(r: seq<Entry>)
    requires r == [Entry("b", 3, 1), Entry("c", 2, 2)]
    ensures Play(r, 1, 5).log == ["c", "c", "b", "c", "c"]
  {
    hide Play, Serve;
    var full := r[0 := Entry("b", 3, 3)];
    SpendsAll(r, 1);
    assert r[1 := Entry("c", 2, 2)] == r;
    SpendsAll(r, 0);
    PlayConcat(r, 1, 2, 1);
    SpendsAll(full, 1);
    PlayConcat(r, 1, 3, 2);
    assert Repeat("c", 2) + Repeat("b", 1) + Repeat("c", 2) == ["c", "c", "b", "c", "c"];
  }

  /** Re-adding a request changes its weight but not its credits: every round from then on gives
      the exact share exactly when the change is invisible in the current round. A request
      that is alone gets all calls, whatever its weight. */
  lemma ShareAfterReweight(q: seq<Entry>, cursor: nat, rid: string, weight: int)
    requires Regular(q, cursor) && Distinct(q) && Find(q, rid) < |q|
    ensures var k, r := Find(q, rid), Added(q, rid, weight);
            && |r| == |q| && cursor < |q|
            && (AlwaysFair(r, cursor) <==>
                if |q| == 1 then weight >= 0
                else if k == cursor then weight >= q[cursor].credits
                else weight == q[k].weight)
  {
    hide Find, AlwaysFair, Regular, Distinct;
    RegularCursor(q, cursor);
    ReweightRegular(q, cursor, rid, weight);
    MembershipDistinct(q, rid, weight);
    var k := Find(q, rid);
    var r := Added(q, rid, weight);
    if |q| == 1 {
      AloneIsFair(r, weight);
    } else if weight >= 1 {
      LiveReweight(q, k, weight);
      FairExactly(r, cursor);
    } else {
      LiveReweight(q, k, weight);
      WeightlessUnfair(r, cursor, k);
    }
  }

  lemma LiveReweight(q: seq<Entry>, k: nat, weight: int)
    requires Live(q) && k < |q|
    ensures LiveBut(q[k := q[k].(weight := weight)], k)
    ensures weight >= 1 ==> Live(q[k := q[k].(weight := weight)])
    ensures q[k].credits >= 1 && q[k].weight >= 1
  {
  }

  /** A request with credit but without weight is served once more than it should be. */
  lemma WeightlessUnfair(q: seq<Entry>, c: nat, k: nat)
    requires LiveBut(q, k) && Distinct(q) && c < |q| && k < |q| && |q| >= 2 && q[k].weight <= 0
    ensures !AlwaysFair(q, c)
  {
    hide AlwaysFair, Play, Ahead, Wheel, Distinct;
    if AlwaysFair(q, c) {
      Arrives(q, c, k);
      var n := Ahead(q, c, k);
      FairLater(q, c, n);
      var p := Play(q, c, n);
      var i := if k == 0 then 1 else 0;
      WheelHas(p.q, i);
      var w := |Wheel(p.q)|;
      PlayPrefix(p.q, k, 1, w);
      SpendsLog(p.q, k, 1);
      RepeatCount(q[k].rid, 1);
      PrefixCount(Play(p.q, k, w).log, 1, q[k].rid);
    }
  }

  lemma {:induction false} WheelHas(q: seq<Entry>, i: nat)
    requires i < |q| && q[i].weight >= 1
    ensures |Wheel(q)| >= 1
  {
    if i > 0 {
      WheelHas(q[1..], i - 1);
    }
  }

  lemma {:induction false} AloneCalls(q: seq<Entry>, c: nat, n: nat)
    requires |q| == 1 && c == 0
    ensures var p := Play(q, c, n);
            p.log == Repeat(q[0].rid, n) && SameWeights(q, p.q) && p.cursor == 0
    decreases n
  {
    hide Serve, Repeat;
    if n > 0 {
      var t := Serve(q, c, 0);
      ServeKeepsWeights(q, c, 0);
      AloneCalls(t.q, t.cursor, n - 1);
      assert [q[0].rid] + Repeat(q[0].rid, n - 1) == Repeat(q[0].rid, n);
    } else {
      assert Repeat(q[0].rid, 0) == [];
    }
  }

  lemma {:induction false} ServeKeepsWeights(q: seq<Entry>, c: nat, tries: nat)
    requires c < |q|
    ensures SameWeights(q, Serve(q, c, tries).q)
    decreases |q| + 1 - tries
  {
    if tries <= |q| && q[c].credits <= 0 {
      ServeKeepsWeights(q[c := q[c].(credits := q[c].weight)], After(c, |q|), tries + 1);
    }
  }

  lemma AloneIsFair(q: seq<Entry>, weight: int)
    requires |q| == 1 && q[0].weight == weight
    ensures AlwaysFair(q, 0) <==> weight >= 0
  {
    hide Play, Wheel, Repeat;
    forall n: nat
      ensures FairAfter(q, 0, n) <==> weight >= 0
    {
      AloneCalls(q, 0, n);
      var r := Play(q, 0, n).q;
      AloneWheel(r, weight);
      AloneCalls(r, 0, |Wheel(r)|);
      RepeatCount(r[0].rid, |Wheel(r)|);
    }
    assert FairAfter(q, 0, 0) <==> weight >= 0;
  }

  lemma AloneWheel(q: seq<Entry>, weight: int)
    requires |q| == 1 && q[0].weight == weight
    ensures |Wheel(q)| == if weight < 0 then 0 else weight
  {
    assert q == [q[0]];
    WheelOne(q[0]);
  }

  // --- Histories --------------------------------------------------------------------------------

  datatype Op = Add(rid: string, weight: int) | Remove(rid: string) | Next

  datatype Schedule = Schedule(q: seq<Entry>, cursor: nat) {
    ghost predicate Valid() {
      if q == [] then cursor == 0 else cursor < |q|
    }
  }

  /** The schedule after one operation, in weighted mode. */
  ghost function Apply(s: Schedule, op: Op): (t: Schedule)
    requires s.Valid()
    ensures t.Valid()
  {
    match op
    case Add(rid, weight) => s.(q := Added(s.q, rid, weight))
    case Remove(rid) => Schedule(Removed(s.q, rid), RemovedCursor(s.q, s.cursor, rid))
    case Next => if s.q == [] then s else var t := Serve(s.q, s.cursor, 0); Schedule(t.q, t.cursor)
  }

  ghost function Outcome(s: Schedule, ops: seq<Op>): (t: Schedule)
    requires s.Valid()
    ensures t.Valid()
    decreases |ops|
  {
    if ops == [] then s else Outcome(Apply(s, ops[0]), ops[1..])
  }

  ghost predicate Positive(ops: seq<Op>)
  {
    forall i :: 0 <= i < |ops| && ops[i].Add? ==> ops[i].weight >= 1
  }

  ghost predicate Lively(s: Schedule)
  {
    s.Valid() && Live(s.q) && Distinct(s.q)
  }

  lemma LivelyStep(s: Schedule, op: Op)
    requires Lively(s) && (op.Add? ==> op.weight >= 1)
    ensures Lively(Apply(s, op))
  {
    hide Find, Serve;
    match op
    case Add(rid, weight) =>
      MembershipDistinct(s.q, rid, weight);
    case Remove(rid) =>
      MembershipDistinct(s.q, rid, 1);
      if Find(s.q, rid) < |s.q| {
        RemovedAt(s.q, rid);
      } else {
        NothingRemoved(s.q, rid);
      }
    case Next =>
      if s.q != [] {
        TurnIs(s.q, s.cursor);
        DistinctRids(s.q, Serve(s.q, s.cursor, 0).q);
      }
  }

  lemma {:induction false} LivelyHistory(s: Schedule, ops: seq<Op>)
    requires Lively(s) && Positive(ops)
    ensures Lively(Outcome(s, ops))
    decreases |ops|
  {
    hide Live, Distinct, Apply;
    if ops != [] {
      LivelyStep(s, ops[0]);
      LivelyHistory(Apply(s, ops[0]), ops[1..]);
    }
  }

  /** Whatever the history of adds with positive weights, removals and calls: from its end on
      every round gives two or more requests the exact share exactly when the schedule is
      regular there. */
  lemma FairWhenRegular(ops: seq<Op>)
    requires Positive(ops)
    ensures var t := Outcome(Schedule([], 0), ops);
            |t.q| >= 2 ==> (AlwaysFair(t.q, t.cursor) <==> Regular(t.q, t.cursor))
  {
    hide Outcome, AlwaysFair, Regular, Distinct;
    EmptyLively();
    LivelyHistory(Schedule([], 0), ops);
    var t := Outcome(Schedule([], 0), ops);
    if |t.q| >= 2 {
      FairExactly(t.q, t.cursor);
    }
  }

  lemma EmptyLively()
    ensures Lively(Schedule([], 0)) && Steady(Schedule([], 0)) && Units([])
  {
  }

  /** Operations that leave the share alone. */
  ghost predicate Calm(s: Schedule, op: Op)
    requires s.Valid()
  {
    match op
    case Next => true
    case Add(rid, weight) =>
      var k := Find(s.q, rid);
      if k == |s.q| then weight >= 1
      else if k == s.cursor then weight >= s.q[k].credits
      else weight == s.q[k].weight
    case Remove(rid) =>
      var k := Find(s.q, rid);
      k == |s.q| || k >= s.cursor || s.q[s.cursor].credits == s.q[s.cursor].weight || |s.q| == 2
  }

  /** Every operation is calm where it happens. */
  ghost predicate AllCalm(s: Schedule, ops: seq<Op>)
    requires s.Valid()
    decreases |ops|
  {
    ops == [] || (Calm(s, ops[0]) && AllCalm(Apply(s, ops[0]), ops[1..]))
  }

  ghost predicate Steady(s: Schedule)
  {
    Regular(s.q, s.cursor) && Distinct(s.q)
  }

  /** An operation on a steady schedule keeps it steady exactly when it is calm. */
  lemma SteadyStep(s: Schedule, op: Op)
    requires Steady(s)
    ensures s.Valid()
    ensures Steady(Apply(s, op)) <==> Calm(s, op)
  {
    hide Find, Serve, Removed, Added;
    match op
    case Add(rid, weight) =>
      MembershipDistinct(s.q, rid, weight);
      if Find(s.q, rid) < |s.q| {
        ReweightRegular(s.q, s.cursor, rid, weight);
      } else {
        FreshRegular(s.q, s.cursor, rid, weight);
      }
    case Remove(rid) =>
      MembershipDistinct(s.q, rid, 1);
      if Find(s.q, rid) < |s.q| {
        RemoveRegular(s.q, s.cursor, rid);
      } else {
        NothingRemoved(s.q, rid);
      }
    case Next =>
      if s.q != [] {
        TurnStaysRegular(s.q, s.cursor);
        DistinctRids(s.q, Serve(s.q, s.cursor, 0).q);
      }
  }

  lemma NothingRemoved(q: seq<Entry>, rid: string)
    requires Find(q, rid) == |q|
    ensures Removed(q, rid) == q
  {
  }

  lemma FreshRegular(q: seq<Entry>, cursor: nat, rid: string, weight: int)
    requires Regular(q, cursor) && Find(q, rid) == |q|
    ensures Regular(Added(q, rid, weight), cursor) <==> weight >= 1
  {
    var r := Added(q, rid, weight);
    assert r[|q|] == Entry(rid, weight, weight);
    assert forall k :: 0 <= k < |q| ==> r[k] == q[k];
  }

  lemma {:induction false} SteadyHistory(s: Schedule, ops: seq<Op>)
    requires Steady(s)
    ensures s.Valid() && (AllCalm(s, ops) ==> Steady(Outcome(s, ops)))
    decreases |ops|
  {
    hide Calm, Apply, Steady;
    SteadyStep(s, Next);
    if ops != [] {
      SteadyStep(s, ops[0]);
      if Calm(s, ops[0]) {
        SteadyHistory(Apply(s, ops[0]), ops[1..]);
      }
    }
  }

  /** From the empty schedule, a history of calm operations reaches only schedules that give
      everybody the exact share in every round. */
  lemma CalmIsFair(ops: seq<Op>)
    requires AllCalm(Schedule([], 0), ops)
    ensures var t := Outcome(Schedule([], 0), ops);
            t.q != [] ==> t.cursor < |t.q| && AlwaysFair(t.q, t.cursor)
  {
    hide Outcome, AllCalm, AlwaysFair, Regular, Distinct;
    EmptyLively();
    SteadyHistory(Schedule([], 0), ops);
    var t := Outcome(Schedule([], 0), ops);
    if t.q != [] {
      RegularCursor(t.q, t.cursor);
      RegularIsFair(t.q, t.cursor);
    }
  }

  ghost predicate Units(q: seq<Entry>)
  {
    forall k :: 0 <= k < |q| ==> q[k].weight == 1
  }

  lemma UnitStep(s: Schedule, op: Op)
    requires Steady(s) && Units(s.q) && (op.Add? ==> op.weight == 1)
    ensures s.Valid()
    ensures Calm(s, op) && Steady(Apply(s, op)) && Units(Apply(s, op).q)
  {
    hide Find, Serve;
    SteadyStep(s, op);
    if op.Next? && s.q != [] {
      ServeKeepsWeights(s.q, s.cursor, 0);
    }
  }

  /** With unit weights every history of adds, removals and calls is calm. */
  lemma {:induction false} UnitsCalm(s: Schedule, ops: seq<Op>)
    requires Steady(s) && Units(s.q) && forall i :: 0 <= i < |ops| && ops[i].Add? ==> ops[i].weight == 1
    ensures s.Valid() && AllCalm(s, ops)
    decreases |ops|
  {
    hide Calm, Apply, Steady, Units;
    SteadyStep(s, Next);
    if ops != [] {
      UnitStep(s, ops[0]);
      UnitsCalm(Apply(s, ops[0]), ops[1..]);
    }
  }
}
