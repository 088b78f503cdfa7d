/** Progress of the pull protocol: what FetchChunk always achieves, how many calls
    a client needs, and that no interleaving gets stuck. */
module GatherProgress {
  import opened Drain
  import opened Gather
  import opened GatherSafety

  lemma {:induction false} TotalPositive(sources: seq<seq<nat>>, i: nat)
    requires i < |sources| && sources[i] != []
    ensures Total(sources) > 0
  {
    if i < |sources| - 1 {
      TotalPositive(sources[..|sources| - 1], i);
    }
  }

  /** A FetchChunk with room for a row that gets past its wait returns a row or ends the request. */
  lemma FetchProgress(c: Config, s: State, max: int)
    requires |s.legs| == |c.legs| && EventEnabled(c, s, Fetch(max)) && max >= 1
    ensures |ApplyFetch(c, s, max).delivered| > |s.delivered| || ApplyFetch(c, s, max).finished
  {
    var out := Take(Sources(s.legs), max);
    var s' := ApplyFetch(c, s, max);
    TakeFills(Sources(s.legs), max);
    if HaveData(s.legs) {
      var i: nat :| i < |s.legs| && Source(s.legs, i) != [];
      TotalPositive(Sources(s.legs), i);
    } else if out == [] {
      forall i: nat | i < |s.legs|
        ensures s'.legs[i].ownerDone
      {
        assert LegDrained(s.legs, i) && Project(out, i) == [];
        assert s'.legs[i] == DrainLeg(s.legs, out, i);
      }
    }
  }

  /** Every FetchChunk of the run had room for at least one row. */
  predicate PositiveFetches(trace: seq<Event>)
  {
    forall k :: 0 <= k < |trace| && trace[k].Fetch? ==> trace[k].max >= 1
  }

  /** The client calls FetchChunk at most once per delivered row, plus once. */
  lemma {:induction false} FetchesPaid(c: Config, trace: seq<Event>, s: State)
    requires c.Valid() && Run(c, trace, s) && PositiveFetches(trace)
    ensures |s.legs| == |c.legs|
    ensures s.fetches <= |s.delivered| + (if s.finished then 1 else 0)
    decreases |trace|
  {
    if trace != [] {
      var n := |trace| - 1;
      var prev: State :| RunStep(c, trace, prev, s);
      assert PositiveFetches(trace[..n]);
      FetchesPaid(c, trace[..n], prev);
      if trace[n].Fetch? {
        FetchProgress(c, prev, trace[n].max);
      }
    }
  }

  function Sizes(c: Config, n: nat): nat
    requires n <= |c.legs|
  {
    if n == 0 then 0 else Sizes(c, n - 1) + c.legs[n - 1].size
  }

  lemma {:induction false} DeliveredSources(c: Config, trace: seq<Event>, s: State)
    requires c.Valid() && Run(c, trace, s)
    ensures |s.legs| == |c.legs|
    ensures SourcesBelow(s.delivered, |c.legs|)
    decreases |trace|
  {
    if trace != [] {
      var n := |trace| - 1;
      var prev: State :| RunStep(c, trace, prev, s);
      DeliveredSources(c, trace[..n], prev);
      if trace[n].Fetch? {
        RoundRobinComplete(Sources(prev.legs));
      }
    }
  }

  lemma {:induction false} DeliveredUpTo(c: Config, delivered: seq<Emit<nat>>, n: nat)
    requires n <= |c.legs|
    requires forall i: nat :: i < n ==> |Project(delivered, i)| <= c.legs[i].size
    ensures CountBelow(delivered, n) <= Sizes(c, n)
  {
    if n > 0 {
      DeliveredUpTo(c, delivered, n - 1);
    }
  }

  /** Termination bound, faults or not: a run contains at most one FetchChunk more than
      there are matching rows over all legs. */
  lemma FetchBound(c: Config, trace: seq<Event>, s: State)
    requires c.Valid() && Run(c, trace, s) && PositiveFetches(trace)
    ensures |s.delivered| <= Sizes(c, |c.legs|)
    ensures s.fetches <= Sizes(c, |c.legs|) + 1
  {
    hide Run;
    FetchesPaid(c, trace, s);
    DeliveredSources(c, trace, s);
    LogLength(s.delivered, |c.legs|);
    forall i: nat | i < |c.legs|
      ensures |Project(s.delivered, i)| <= c.legs[i].size
    {
      NothingTwice(c, trace, s, i);
      IncreasingFits(Project(s.delivered, i), c.legs[i].size);
    }
    DeliveredUpTo(c, s.delivered, |c.legs|);
  }

  // --- No interleaving gets stuck -------------------------------------------------

  lemma ProducerMoves(c: LegCfg, l: Leg) returns (step: Step)
    requires l.registered && !l.done && |l.matched| < MAX_BUFFERED
    ensures StepEnabled(c, l, step) && !step.IsFault()
    ensures step.BeginTick? || step.Push? || step.EndTick? || step.FinishTick?
  {
    step := match l.producer
      case Idle => BeginTick
      case Pushing(limit) => if l.cursor < limit then Push else EndTick
      case Finishing => FinishTick;
  }

  lemma CallMoves(c: LegCfg, l: Leg) returns (step: Step)
    requires l.prefetcher.Calling? && l.prefetcher.id in l.calls
    ensures StepEnabled(c, l, step) && !step.IsFault()
  {
    var id := l.prefetcher.id;
    step := match l.calls[id]
      case Sent => Lookup(id)
      case Found => DrainCall(id, 0)
      case Drained(_) => ReadDone(id)
      case SawDone(_, _) => Recheck(id)
      case Checked(_, _) => Reply(id)
      case Replied(_, _) => Receive
      case NotFound => Refuse;
  }

  /** A leg that keeps FetchChunk waiting has a step of its own to take. */
  lemma LegMoves(c: LegCfg, legs: seq<Leg>, i: nat, d: seq<nat>) returns (step: Step)
    requires i < |legs| && LegInv(c, legs[i], d, i == 0)
    requires Source(legs, i) == [] && !LegDrained(legs, i)
    ensures StepEnabled(c, legs[i], step) && !step.IsFault()
  {
    var l := legs[i];
    if i == 0 {
      step := ProducerMoves(c, l);
    } else if l.prefetcher.Calling? {
      step := CallMoves(c, l);
    } else {
      step := Issue;
    }
  }

  /** Until the last chunk is reported, every run, whatever faults it had, can take
      another step that is no fault. */
  lemma NeverStuck(c: Config, trace: seq<Event>, s: State)
    requires c.Valid() && Run(c, trace, s) && !s.finished
    ensures |s.legs| == |c.legs|
    ensures exists e: Event :: !e.IsFault() && EventEnabled(c, s, e)
  {
    hide Run;
    hide LegInv;
    RunInv(c, trace, s);
    if FetchReady(s.legs) {
      assert EventEnabled(c, s, Fetch(1)) && !Fetch(1).IsFault();
    } else {
      var i: nat :| i < |s.legs| && !LegDrained(s.legs, i);
      var step := LegMoves(c.legs[i], s.legs, i, Project(s.delivered, i));
      assert EventEnabled(c, s, At(i, step)) && !At(i, step).IsFault();
    }
  }
}
