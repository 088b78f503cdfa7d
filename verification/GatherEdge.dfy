/** When the last chunk can be reported too early.

    FetchChunk serves the gateway's own matches whether or not routing kept the
    gateway's shard, but it only waits for owners that routing kept.  If routing
    drops the own shard although it has matches, the request can end while the
    gateway still holds rows.  This module gives the exact condition. */
module GatherEdge {
  import opened Drain
  import opened Gather
  import opened GatherSafety
  import opened GatherProgress

  /** Two events of one leg in a row. */
  lemma RunTwice(c: Config, trace: seq<Event>, s: State, i: nat, a: Step,
          b: Step) returns (longer: seq<Event>, reached: State)
    requires Run(c, trace, s) && PositiveFetches(trace) && i < |s.legs| == |c.legs|
    requires StepEnabled(c.legs[i], s.legs[i], a)
    requires StepEnabled(c.legs[i], Apply(c.legs[i], s.legs[i], a), b)
    ensures Run(c, longer, reached) && PositiveFetches(longer)
    ensures reached == s.(legs := s.legs[i := Apply(c.legs[i], Apply(c.legs[i], s.legs[i], a), b)])
  {
    var m := ApplyEvent(c, s, At(i, a));
    RunSnoc(c, trace, s, At(i, a));
    RunSnoc(c, trace + [At(i, a)], m, At(i, b));
    longer, reached := trace + [At(i, a)] + [At(i, b)], ApplyEvent(c, m, At(i, b));
    assert reached.legs == s.legs[i := Apply(c.legs[i], Apply(c.legs[i], s.legs[i], a), b)];
  }

  /** A run in which the pulls of remote legs 1 .. k - 1 all failed and nothing else happened. */
  ghost predicate RemotesFailed(c: Config, k: nat, trace: seq<Event>, s: State)
  {
    && Run(c, trace, s) && PositiveFetches(trace)
    && |s.legs| == |c.legs| && s.delivered == [] && !s.finished
    && (forall i: nat :: i < |s.legs| && (i == 0 || i >= k) ==> s.legs[i] == Start(c.legs[i], i == 0))
    && (forall i: nat :: 1 <= i < k && i < |s.legs| ==> s.legs[i].ownerDone && s.legs[i].slot == [])
  }

  lemma FailNext(c: Config, k: nat, trace: seq<Event>, s: State) returns (longer: seq<Event>, reached: State)
    requires 1 <= k < |c.legs| && RemotesFailed(c, k, trace, s)
    ensures RemotesFailed(c, k + 1, longer, reached)
  {
    hide Run;
    longer, reached := trace, s;
    if !s.legs[k].ownerDone {
      longer, reached := RunTwice(c, trace, s, k, Issue, Fail);
    }
  }

  lemma {:induction false} FailRemotes(c: Config, k: nat) returns (trace: seq<Event>, s: State)
    requires c.Valid() && 1 <= k <= |c.legs|
    ensures RemotesFailed(c, k, trace, s)
  {
    if k == 1 {
      var legs := seq(|c.legs|, i requires 0 <= i < |c.legs| => Start(c.legs[i], i == 0));
      trace, s := [], State(legs, [], 0, false);
      assert Init(c, s);
    } else {
      hide RemotesFailed;
      trace, s := FailRemotes(c, k - 1);
      trace, s := FailNext(c, k - 1, trace, s);
    }
  }

  /** One own row produced, every remote leg done: the next chunk is reported as the last. */
  lemma EarlyLast(c: Config, s: State)
    requires |s.legs| == |c.legs| > 0 && !s.finished && c.legs[0].size >= 2
    requires s.legs[0].matched == [0] && s.legs[0].cursor == 1
    requires forall i: nat :: i < |s.legs| ==> s.legs[i].ownerDone
    ensures EventEnabled(c, s, Fetch(1))
    ensures ApplyFetch(c, s, 1).finished && Held(c.legs[0], ApplyFetch(c, s, 1).legs[0], true) > 0
  {
    assert Source(s.legs, 0) == [0];
    var out := Take(Sources(s.legs), 1);
    forall i: nat | i < |s.legs|
      ensures ApplyFetch(c, s, 1).legs[i].ownerDone
    {
      TakeIsFifo(Sources(s.legs), 1, i);
      assert ApplyFetch(c, s, 1).legs[i] == DrainLeg(s.legs, out, i);
    }
    TakeIsFifo(Sources(s.legs), 1, 0);
    assert ApplyFetch(c, s, 1).legs[0] == DrainLeg(s.legs, out, 0);
  }

  /** With at least two own matches and a dropped own shard, some run reports the last
      chunk while a match is still at the gateway. */
  lemma Strands(c: Config) returns (trace: seq<Event>, s: State)
    requires c.Valid() && !c.legs[0].eligible && c.legs[0].size >= 2
    ensures Run(c, trace, s) && PositiveFetches(trace) && s.finished && |s.legs| > 0
    ensures Held(c.legs[0], s.legs[0], true) > 0
  {
    hide Run;
    trace, s := FailRemotes(c, |c.legs|);
    trace, s := RunTwice(c, trace, s, 0, BeginTick, Push);
    EarlyLast(c, s);
    RunSnoc(c, trace, s, Fetch(1));
    trace, s := trace + [Fetch(1)], ApplyFetch(c, s, 1);
  }

  /** With at most one own match nothing is stranded: the chunk that ends the request
      either takes that match or waited for the producer to finish. */
  ghost predicate Taken(c: LegCfg, l: Leg)
  {
    l.matched == [] && l.cursor == c.size
  }

  /** Of a leg with at most one match, at most one row is anywhere. */
  lemma OneRow(c: LegCfg, l: Leg, d: seq<nat>)
    requires LegInv(c, l, d, true) && c.size <= 1
    ensures |l.matched| + |Range(l.cursor, c.size)| <= 1
  {
    IncreasingFits(Flow(c, l, d), c.size);
  }

  /** If the chunk is the last one, only the own deque can have had rows for it. */
  lemma LastHasOnlyOwn(c: Config, s: State, max: int, i: nat)
    requires Inv(c, s) && ApplyFetch(c, s, max).finished && 0 < i < |s.legs|
    ensures Source(s.legs, i) == []
  {
    assert LegInv(c.legs[i], s.legs[i], Project(s.delivered, i), false);
    TakeIsFifo(Sources(s.legs), max, i);
    assert ApplyFetch(c, s, max).legs[i] == DrainLeg(s.legs, Take(Sources(s.legs), max), i);
    assert ApplyFetch(c, s, max).legs[i].ownerDone;
  }

  lemma LastFetchTakesOne(c: Config, s: State, max: int)
    requires Inv(c, s) && EventEnabled(c, s, Fetch(max)) && max >= 1
    requires c.legs[0].size <= 1 && ApplyFetch(c, s, max).finished
    ensures Taken(c.legs[0], ApplyFetch(c, s, max).legs[0])
  {
    var out := Take(Sources(s.legs), max);
    TakeIsFifo(Sources(s.legs), max, 0);
    assert ApplyFetch(c, s, max).legs[0] == DrainLeg(s.legs, out, 0);
    assert LegInv(c.legs[0], s.legs[0], Project(s.delivered, 0), true);
    OneRow(c.legs[0], s.legs[0], Project(s.delivered, 0));
    if HaveData(s.legs) {
      var i: nat :| i < |s.legs| && Source(s.legs, i) != [];
      if i > 0 {
        LastHasOnlyOwn(c, s, max, i);
      }
      OnlyOwnRows(s.legs, max);
    } else {
      assert LegDrained(s.legs, 0);
    }
  }

  /** When only the own deque has rows, a chunk with room takes from it. */
  lemma OnlyOwnRows(legs: seq<Leg>, max: int)
    requires max >= 1 && |legs| > 0 && Source(legs, 0) != []
    ensures Project(Take(Sources(legs), max), 0) != []
  {
    var src := Sources(legs);
    assert Emitted(src, 0, 1) == [Emit(0, src[0][0])] by {
      assert Round(src, 0, 0) == [];
    }
    EmittedIsPrefix(src, 0, 1);
    var out := Take(src, max);
    assert out[..1] == [Emit(0, src[0][0])] && out == out[..1] + out[1..];
    ProjectConcat(out[..1], out[1..], 0);
    ProjectOne(out[0], 0);
  }

  lemma TakenStays(c: LegCfg, l: Leg, step: Step)
    requires StepEnabled(c, l, step) && ProducerOk(c, l) && Taken(c, l)
    ensures Taken(c, Apply(c, l, step))
  {
  }

  lemma OwnTakenStays(c: Config, s: State, i: nat, step: Step)
    requires Inv(c, s) && EventEnabled(c, s, At(i, step)) && Taken(c.legs[0], s.legs[0])
    ensures Taken(c.legs[0], ApplyEvent(c, s, At(i, step)).legs[0])
  {
    hide Taken, CallsOk, GatewayOk, OwnerOk, Flow;
    assert LegInv(c.legs[0], s.legs[0], Project(s.delivered, 0), true);
    if i == 0 {
      TakenStays(c.legs[0], s.legs[0], step);
    }
  }

  lemma {:induction false} OneIsTaken(c: Config, trace: seq<Event>, s: State)
    requires c.Valid() && Run(c, trace, s) && PositiveFetches(trace) && s.finished && c.legs[0].size <= 1
    ensures |s.legs| > 0 && Taken(c.legs[0], s.legs[0])
    decreases |trace|
  {
    hide Inv, Taken, StepEnabled, Apply, ApplyFetch, FetchReady;
    var n := |trace| - 1;
    var prev: State :| RunStep(c, trace, prev, s);
    assert PositiveFetches(trace[..n]);
    RunInv(c, trace[..n], prev);
    InvLegs(c, prev);
    match trace[n] {
      case Fetch(max) => LastFetchTakesOne(c, prev, max);
      case At(i, step) =>
        OneIsTaken(c, trace[..n], prev);
        OwnTakenStays(c, prev, i, step);
    }
  }

  lemma InvLegs(c: Config, s: State)
    requires Inv(c, s)
    ensures |s.legs| == |c.legs| > 0
  {
  }

  /** The exact condition: every run that reports the last chunk has emptied the
      gateway's own shard if and only if routing kept that shard or it has at most
      one match. */
  lemma OwnShardEmptied(c: Config)
    requires c.Valid()
    ensures (forall trace: seq<Event>, s: State ::
               Run(c, trace, s) && PositiveFetches(trace) && s.finished && |s.legs| > 0
               ==> Held(c.legs[0], s.legs[0], true) == 0)
       <==> (c.legs[0].eligible || c.legs[0].size <= 1)
  {
    if c.legs[0].eligible || c.legs[0].size <= 1 {
      forall trace: seq<Event>, s: State | Run(c, trace, s) && PositiveFetches(trace) && s.finished && |s.legs| > 0
        ensures Held(c.legs[0], s.legs[0], true) == 0
      {
        if c.legs[0].eligible {
          LastMeansEmpty(c, trace, s, 0);
        } else {
          OneIsTaken(c, trace, s);
          RunInv(c, trace, s);
          assert LegInv(c.legs[0], s.legs[0], Project(s.delivered, 0), true);
        }
      }
    } else {
      var trace, s := Strands(c);
    }
  }
}
