/** Owners whose chunk sizes come from their chunk sizers: the configured max_rows bounds what
    the gateway holds of them. */
module SizedPulls {
  import opened Drain
  import opened Gather
  import opened GatherSafety
  import opened ChunkSizing

  /** The size with which some pull of owner `i` was served. */
  predicate Served(e: Event, i: nat, max: int)
  {
    e.At? && e.leg == i && e.step.DrainCall? && e.step.max == max
  }

  /** The sizer can decide on this size: it is a decision in some sequence of pulls, with any
      hints at any times, since the request was new to the sizer. */
  ghost predicate CanDecide(limits: Limits, size: int)
  {
    exists pulls: seq<Pull> :: size in Decisions(limits, FRESH, pulls)
  }

  /** Every pull of owner `i` was served with a size its sizer can decide on. */
  ghost predicate SizedBy(trace: seq<Event>, i: nat, limits: Limits)
  {
    forall k, max :: 0 <= k < |trace| && Served(trace[k], i, max) ==> CanDecide(limits, max)
  }

  /** No pull of owner `i` was served with more than `bound`. */
  ghost predicate AtMost(trace: seq<Event>, i: nat, bound: nat)
  {
    forall k, max :: 0 <= k < |trace| && Served(trace[k], i, max) ==> max <= bound
  }

  lemma SizedAtMost(trace: seq<Event>, i: nat, limits: Limits)
    requires limits.Sane() && limits.min <= limits.initial <= limits.max && SizedBy(trace, i, limits)
    ensures AtMost(trace, i, limits.max)
  {
    forall k, max | 0 <= k < |trace| && Served(trace[k], i, max)
      ensures max <= limits.max
    {
      assert CanDecide(limits, max);
      var pulls: seq<Pull> :| max in Decisions(limits, FRESH, pulls);
      DecisionsWithin(limits, FRESH, pulls);
      var sizes := Decisions(limits, FRESH, pulls);
      var n :| 0 <= n < |sizes| && sizes[n] == max;
    }
  }

  // --- Narrower legs --------------------------------------------------------------------------

  /** The configuration with other bounds on the chunk sizes. */
  function Bounded(c: Config, bounds: seq<nat>): (r: Config)
    requires |bounds| == |c.legs|
    ensures |r.legs| == |c.legs| && forall i :: 0 <= i < |r.legs| ==> r.legs[i] == c.legs[i].(chunkMax := bounds[i])
  {
    c.(legs := seq(|c.legs|, i requires 0 <= i < |c.legs| => c.legs[i].(chunkMax := bounds[i])))
  }

  lemma SameStep(c: LegCfg, bound: nat, l: Leg, step: Step)
    requires StepEnabled(c, l, step) && (step.DrainCall? ==> step.max <= bound)
    ensures StepEnabled(c.(chunkMax := bound), l, step)
    ensures Apply(c.(chunkMax := bound), l, step) == Apply(c, l, step)
  {
  }

  lemma SameEvent(c: Config, bounds: seq<nat>, s: Gather.State, e: Event)
    requires |bounds| == |c.legs| == |s.legs| && EventEnabled(c, s, e)
    requires e.At? && e.step.DrainCall? ==> e.leg < |bounds| && e.step.max <= bounds[e.leg]
    ensures EventEnabled(Bounded(c, bounds), s, e)
    ensures ApplyEvent(Bounded(c, bounds), s, e) == ApplyEvent(c, s, e)
  {
    hide StepEnabled, Apply, Take, DrainLegs, FetchReady;
    if e.At? {
      SameStep(c.legs[e.leg], bounds[e.leg], s.legs[e.leg], e.step);
    }
  }

  /** A run whose pulls stay within bounds is a run of the configuration with these bounds. */
  lemma {:induction false} RunWithin(c: Config, bounds: seq<nat>, trace: seq<Event>, s: Gather.State)
    requires |bounds| == |c.legs| && Run(c, trace, s) && forall i: nat :: i < |bounds| ==> AtMost(trace, i, bounds[i])
    ensures Run(Bounded(c, bounds), trace, s)
    decreases |trace|
  {
    hide EventEnabled, ApplyEvent;
    if trace != [] {
      var n := |trace| - 1;
      var prev: Gather.State :| RunStep(c, trace, prev, s);
      forall i: nat | i < |bounds|
        ensures AtMost(trace[..n], i, bounds[i])
      {
        assert forall k :: 0 <= k < n ==> trace[..n][k] == trace[k];
      }
      RunWithin(c, bounds, trace[..n], prev);
      if trace[n].At? {
        LegOf(c, prev, trace[n]);
      }
      assert trace[n].At? && trace[n].step.DrainCall? ==> Served(trace[n], trace[n].leg, trace[n].step.max);
      SameEvent(c, bounds, prev, trace[n]);
      assert RunStep(Bounded(c, bounds), trace, prev, s);
    }
  }

  lemma LegOf(c: Config, s: Gather.State, e: Event)
    requires |s.legs| == |c.legs| && EventEnabled(c, s, e) && e.At?
    ensures e.leg < |c.legs|
  {
  }

  /** With sizers whose first size is within their limits, the gateway never holds more than
      max_rows rows of a remote owner, nor more than that many times the remote owners in all,
      whatever sizes the configuration allows. */
  lemma SizedMemory(c: Config, trace: seq<Event>, s: Gather.State, limits: seq<Limits>, maxRows: nat)
    requires c.Valid() && Run(c, trace, s) && |limits| == |c.legs|
    requires forall i: nat :: i < |limits| ==>
               && limits[i].Sane() && limits[i].min <= limits[i].initial <= limits[i].max <= maxRows
               && SizedBy(trace, i, limits[i])
    ensures |s.legs| == |c.legs|
    ensures forall i: nat :: 0 < i < |s.legs| ==> |s.legs[i].slot| <= limits[i].max
    ensures SlotRows(s.legs) <= (|c.legs| - 1) * maxRows
  {
    hide Run, SizedBy, AtMost, SlotRows;
    var bounds: seq<nat> := seq(|limits|, i requires 0 <= i < |limits| => limits[i].max);
    forall i: nat | i < |bounds|
      ensures AtMost(trace, i, bounds[i])
    {
      SizedAtMost(trace, i, limits[i]);
    }
    RunWithin(c, bounds, trace, s);
    BoundedMemory(Bounded(c, bounds), trace, s, maxRows);
    RunInv(Bounded(c, bounds), trace, s);
    forall i: nat | 0 < i < |s.legs|
      ensures |s.legs[i].slot| <= limits[i].max
    {
      LegMemory(Bounded(c, bounds), s, i);
    }
  }
}
