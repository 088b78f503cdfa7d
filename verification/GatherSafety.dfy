/** What every reachable state of the pull protocol keeps, and what a run delivers. */
module GatherSafety {
  import opened Drain
  import opened Gather

  // --- The flow of one leg ----------------------------------------------------

  function Range(lo: nat, hi: nat): (r: seq<nat>)
    ensures |r| == (if lo <= hi then hi - lo else 0)
    ensures forall k :: 0 <= k < |r| ==> r[k] == lo + k
  {
    if lo <= hi then seq(hi - lo, k requires 0 <= k => lo + k) else []
  }

  /** All rows of a leg still accounted for, from the client back to the producer's
      cursor: delivered, in the slot, in the live call, in the deque, not yet produced. */
  function Flow(c: LegCfg, l: Leg, delivered: seq<nat>): seq<nat>
  {
    delivered + (l.slot + (l.Live() + (l.matched + Range(l.cursor, c.size))))
  }

  ghost predicate Increasing(s: seq<nat>)
  {
    forall i, j :: 0 <= i < j < |s| ==> s[i] < s[j]
  }

  lemma {:induction false} IncreasingFits(s: seq<nat>, n: nat)
    requires Increasing(s) && forall k :: 0 <= k < |s| ==> s[k] < n
    ensures |s| <= n
  {
    if s != [] {
      IncreasingFits(s[..|s| - 1], s[|s| - 1]);
    }
  }

  /** `b` is `a` with one stretch of rows missing. */
  ghost predicate Without(a: seq<nat>, b: seq<nat>, x: seq<nat>, y: seq<nat>, z: seq<nat>)
  {
    a == x + y + z && b == x + z
  }

  ghost predicate Loses(a: seq<nat>, b: seq<nat>)
  {
    exists x, y, z :: Without(a, b, x, y, z)
  }

  lemma LosesNothing(a: seq<nat>)
    ensures Loses(a, a)
  {
    assert Without(a, a, a, [], []);
  }

  /** Losing rows keeps the order, repeats nothing and invents nothing. */
  lemma LosesKeepsOrder(a: seq<nat>, b: seq<nat>, n: nat)
    requires Loses(a, b) && Increasing(a) && forall k :: 0 <= k < |a| ==> a[k] < n
    ensures Increasing(b) && forall k :: 0 <= k < |b| ==> b[k] < n
  {
    var x, y, z :| Without(a, b, x, y, z);
    forall k | 0 <= k < |b|
      ensures b[k] == a[if k < |x| then k else k + |y|]
    {
    }
  }

  // --- Invariants -------------------------------------------------------------

  ghost predicate CallOk(c: LegCfg, l: Leg, call: Call)
  {
    && |call.Rows()| <= c.chunkMax
    && (call.SawDone? && call.done ==> l.done)
    && ((call.Checked? || call.Replied?) && call.last ==> l.done && l.matched == [] && call.out == [])
  }

  ghost predicate ProducerOk(c: LegCfg, l: Leg)
  {
    && l.cursor <= c.size
    && |l.matched| <= MAX_BUFFERED
    && (l.producer.Pushing? ==> l.producer.limit <= c.size && |l.matched| < MAX_BUFFERED)
    && (l.done ==> l.cursor == c.size)
  }

  ghost predicate CallsOk(c: LegCfg, l: Leg)
  {
    forall id :: id in l.calls ==> id < l.nextCall && CallOk(c, l, l.calls[id])
  }

  ghost predicate GatewayOk(c: LegCfg, l: Leg, delivered: seq<nat>, local: bool)
  {
    && |l.slot| <= c.chunkMax
    && (l.prefetcher.Calling? ==> l.prefetcher.id in l.calls && l.slot == [] && !l.prefetchDone)
    && (l.prefetchDone ==> l.slot == [] && l.prefetcher.Stopped?)
    && (l.ownerDone ==> l.slot == [] && l.prefetcher.Stopped?)
    && (l.responded ==> c.eligible)
    && (local ==> l.registered && l.slot == [] && l.prefetcher.Stopped? && !l.prefetchDone && l.calls == map[])
    && (local && l.ownerDone && c.eligible ==> l.done && l.matched == [])
    && (!local && !c.eligible ==> l.prefetcher.Stopped? && l.ownerDone && delivered == [])
    && (!local && l.prefetcher.Stopped? ==> l.ownerDone || l.prefetchDone)
  }

  /** An owner that never gets or never answers a pull has given nothing to the gateway. */
  ghost predicate CutOff(l: Leg, delivered: seq<nat>)
  {
    && delivered == [] && l.slot == [] && !l.responded
    && (forall id :: id in l.calls ==> l.calls[id].Sent? || l.calls[id].NotFound?)
  }

  /** Who the owner knows: it has the request until the reply that ends it. */
  ghost predicate OwnerOk(c: LegCfg, l: Leg, delivered: seq<nat>, local: bool)
  {
    && (local || c.accepted ==> l.registered || l.done)
    && (!local && !c.accepted ==> !l.registered)
    && (!local && !c.delivered ==> l.prefetcher.Stopped? && l.calls == map[])
    && (!local && !c.Answers() ==> CutOff(l, delivered))
  }

  ghost predicate LegInv(c: LegCfg, l: Leg, delivered: seq<nat>, local: bool)
  {
    && ProducerOk(c, l)
    && CallsOk(c, l)
    && GatewayOk(c, l, delivered, local)
    && OwnerOk(c, l, delivered, local)
    && Increasing(Flow(c, l, delivered))
    && (forall k :: 0 <= k < |Flow(c, l, delivered)| ==> Flow(c, l, delivered)[k] < c.size)
  }

  /** Additionally, for a leg without faults: nothing is missing and no call is abandoned. */
  ghost predicate ExactInv(c: LegCfg, l: Leg, delivered: seq<nat>, local: bool)
  {
    && Flow(c, l, delivered) == Range(0, c.size)
    && l.calls.Keys == (if l.prefetcher.Calling? then {l.prefetcher.id} else {})
    && (!local && c.eligible && l.prefetcher.Stopped? && c.delivered ==> l.prefetchDone)
    && (c.Answers() && l.prefetchDone ==> l.responded && l.done && l.matched == [])
    && (!local && c.eligible && c.delivered && l.ownerDone ==> l.prefetchDone)
    && (local && c.eligible ==> l.responded)
    && (c.accepted && c.servable ==> Reachable(l))
  }

  /** A pull finds the request at the owner until the reply that ends it. */
  ghost predicate Reachable(l: Leg)
  {
    && (l.registered || l.prefetchDone || Ending(l))
    && (forall id :: id in l.calls ==> !l.calls[id].NotFound?)
  }

  /** The live call carries the last reply. */
  ghost predicate Ending(l: Leg)
  {
    l.prefetcher.Calling? && l.prefetcher.id in l.calls
    && l.calls[l.prefetcher.id].Replied? && l.calls[l.prefetcher.id].last
  }

  lemma InitInv(c: LegCfg, l: Leg, local: bool)
    requires InitLeg(c, l, local)
    ensures LegInv(c, l, [], local) && ExactInv(c, l, [], local)
  {
    assert Flow(c, l, []) == Range(0, c.size);
  }

  // --- One step of one leg ------------------------------------------------------

  lemma ProducerStepFlow(c: LegCfg, l: Leg, d: seq<nat>, step: Step)
    requires StepEnabled(c, l, step) && ProducerOk(c, l)
    requires step.BeginTick? || step.Push? || step.EndTick? || step.FinishTick?
    ensures Flow(c, Apply(c, l, step), d) == Flow(c, l, d)
  {
    var l' := Apply(c, l, step);
    assert l'.Live() == l.Live();
    if step.Push? {
      assert l.matched + Range(l.cursor, c.size) == l'.matched + Range(l'.cursor, c.size);
    }
  }

  lemma RegroupLost(d: seq<nat>, slot: seq<nat>, live: seq<nat>, out: seq<nat>, m: seq<nat>, r: seq<nat>)
    ensures d + (slot + (live + ((out + m) + r))) == (d + (slot + live)) + out + (m + r)
    ensures d + (slot + (live + (m + r))) == (d + (slot + live)) + (m + r)
  {
  }

  lemma RegroupLive(d: seq<nat>, slot: seq<nat>, out: seq<nat>, m: seq<nat>, r: seq<nat>)
    ensures d + (slot + ([] + ((out + m) + r))) == d + (slot + (out + (m + r)))
  {
    assert (out + m) + r == out + (m + r);
  }

  /** A live pull moves rows from the deque into the reply; an abandoned one loses them. */
  lemma DrainCallFlow(c: LegCfg, l: Leg, d: seq<nat>, step: Step)
    requires StepEnabled(c, l, step) && step.DrainCall?
    ensures Loses(Flow(c, l, d), Flow(c, Apply(c, l, step), d))
    ensures l.prefetcher == Calling(step.id) ==> Flow(c, Apply(c, l, step), d) == Flow(c, l, d)
  {
    var l' := Apply(c, l, step);
    var out, r := l'.calls[step.id].out, Range(l.cursor, c.size);
    assert l.matched == out + l'.matched;
    if l.prefetcher == Calling(step.id) {
      RegroupLive(d, l.slot, out, l'.matched, r);
      LosesNothing(Flow(c, l, d));
    } else {
      assert l'.Live() == l.Live();
      RegroupLost(d, l.slot, l.Live(), out, l'.matched, r);
      assert Without(Flow(c, l, d), Flow(c, l', d), d + (l.slot + l.Live()), out, l'.matched + r);
    }
  }

  /** The other steps of a pull at the owner move no rows. */
  lemma CallStepFlow(c: LegCfg, l: Leg, d: seq<nat>, step: Step)
    requires StepEnabled(c, l, step)
    requires step.Lookup? || step.ReadDone? || step.Recheck? || step.Reply?
    ensures Flow(c, Apply(c, l, step), d) == Flow(c, l, d)
  {
    assert Apply(c, l, step).Live() == l.Live();
  }

  lemma IssueFlow(c: LegCfg, l: Leg, d: seq<nat>)
    requires StepEnabled(c, l, Issue)
    ensures Flow(c, Apply(c, l, Issue), d) == Flow(c, l, d)
  {
    assert l.Live() == [] && Apply(c, l, Issue).Live() == [];
  }

  /** The reply moves from the call into the slot. */
  lemma ReceiveFlow(c: LegCfg, l: Leg, d: seq<nat>)
    requires StepEnabled(c, l, Receive) && l.slot == []
    ensures Flow(c, Apply(c, l, Receive), d) == Flow(c, l, d)
  {
    var l' := Apply(c, l, Receive);
    var out, rest := l.Live(), l.matched + Range(l.cursor, c.size);
    assert l'.Live() == [] && l'.slot == out;
    assert [] + (out + rest) == out + ([] + rest);
  }

  /** A NOT_FOUND reply carries nothing. */
  lemma RefuseFlow(c: LegCfg, l: Leg, d: seq<nat>)
    requires StepEnabled(c, l, Refuse)
    ensures Flow(c, Apply(c, l, Refuse), d) == Flow(c, l, d)
  {
    assert l.Live() == [] && Apply(c, l, Refuse).Live() == [];
  }

  /** A pull that timed out or failed loses what its reply carried. */
  lemma FaultFlow(c: LegCfg, l: Leg, d: seq<nat>, step: Step)
    requires StepEnabled(c, l, step) && step.IsFault() && l.slot == []
    ensures Loses(Flow(c, l, d), Flow(c, Apply(c, l, step), d))
  {
    var l' := Apply(c, l, step);
    var rest := l.matched + Range(l.cursor, c.size);
    assert l'.Live() == [] && l'.slot == [];
    assert Flow(c, l, d) == d + l.Live() + rest;
    assert Flow(c, l', d) == d + rest;
    assert Without(Flow(c, l, d), Flow(c, l', d), d, l.Live(), rest);
  }

  lemma LegStepFlow(c: LegCfg, l: Leg, d: seq<nat>, step: Step, local: bool)
    requires StepEnabled(c, l, step) && GatewayOk(c, l, d, local) && ProducerOk(c, l)
    ensures Loses(Flow(c, l, d), Flow(c, Apply(c, l, step), d))
    ensures !step.IsFault() && (forall id :: id in l.calls ==> l.prefetcher == Calling(id)) ==>
              Flow(c, Apply(c, l, step), d) == Flow(c, l, d)
  {
    hide Flow;
    if step.IsFault() {
      FaultFlow(c, l, d, step);
    } else if step.DrainCall? {
      DrainCallFlow(c, l, d, step);
    } else {
      if step.Issue? {
        IssueFlow(c, l, d);
      } else if step.Receive? {
        ReceiveFlow(c, l, d);
      } else if step.Refuse? {
        RefuseFlow(c, l, d);
      } else if step.Lookup? || step.ReadDone? || step.Recheck? || step.Reply? {
        CallStepFlow(c, l, d, step);
      } else {
        ProducerStepFlow(c, l, d, step);
      }
      LosesNothing(Flow(c, l, d));
    }
  }

  /** The producer adds no reason to doubt a call. */
  lemma ProducerCallOk(c: LegCfg, l: Leg, step: Step, call: Call)
    requires StepEnabled(c, l, step) && ProducerOk(c, l) && CallOk(c, l, call)
    requires step.BeginTick? || step.Push? || step.EndTick? || step.FinishTick?
    ensures CallOk(c, Apply(c, l, step), call)
  {
  }

  /** Neither does a block of the same or another pull. */
  lemma PullCallOk(c: LegCfg, l: Leg, step: Step, id: nat)
    requires StepEnabled(c, l, step) && CallsOk(c, l) && id in Apply(c, l, step).calls
    requires step.Lookup? || step.DrainCall? || step.ReadDone? || step.Recheck? || step.Reply?
    ensures id < Apply(c, l, step).nextCall && CallOk(c, Apply(c, l, step), Apply(c, l, step).calls[id])
  {
    assert id in l.calls;
    assert CallOk(c, l, l.calls[id]);
  }

  lemma GatewayCallOk(c: LegCfg, l: Leg, step: Step, id: nat)
    requires StepEnabled(c, l, step) && CallsOk(c, l) && id in Apply(c, l, step).calls
    requires step.Issue? || step.Receive? || step.Refuse? || step.Timeout? || step.Fail?
    ensures id < Apply(c, l, step).nextCall && CallOk(c, Apply(c, l, step), Apply(c, l, step).calls[id])
  {
    if id in l.calls {
      assert CallOk(c, l, l.calls[id]);
    }
  }

  lemma CallsStayOk(c: LegCfg, l: Leg, step: Step)
    requires StepEnabled(c, l, step) && ProducerOk(c, l) && CallsOk(c, l)
    ensures CallsOk(c, Apply(c, l, step))
  {
    hide CallOk, ProducerOk, StepEnabled;
    forall id | id in Apply(c, l, step).calls
      ensures id < Apply(c, l, step).nextCall && CallOk(c, Apply(c, l, step), Apply(c, l, step).calls[id])
    {
      if step.BeginTick? || step.Push? || step.EndTick? || step.FinishTick? {
        ProducerCallOk(c, l, step, l.calls[id]);
      } else if step.Lookup? || step.DrainCall? || step.ReadDone? || step.Recheck? || step.Reply? {
        PullCallOk(c, l, step, id);
      } else {
        GatewayCallOk(c, l, step, id);
      }
    }
  }

  lemma ProducerGatewayOk(c: LegCfg, l: Leg, d: seq<nat>, step: Step, local: bool)
    requires StepEnabled(c, l, step) && ProducerOk(c, l) && GatewayOk(c, l, d, local)
    requires step.BeginTick? || step.Push? || step.EndTick? || step.FinishTick?
    ensures GatewayOk(c, Apply(c, l, step), d, local)
  {
  }

  lemma PullGatewayOk(c: LegCfg, l: Leg, d: seq<nat>, step: Step, local: bool)
    requires StepEnabled(c, l, step) && GatewayOk(c, l, d, local)
    requires step.Lookup? || step.DrainCall? || step.ReadDone? || step.Recheck? || step.Reply?
    ensures GatewayOk(c, Apply(c, l, step), d, local)
  {
  }

  lemma GatewayStaysOk(c: LegCfg, l: Leg, d: seq<nat>, step: Step, local: bool)
    requires StepEnabled(c, l, step) && ProducerOk(c, l) && CallsOk(c, l) && GatewayOk(c, l, d, local)
    ensures GatewayOk(c, Apply(c, l, step), d, local)
  {
    if step.Issue? || step.Refuse? || step.IsFault() {
      hide ProducerOk, CallsOk;
    } else if step.Receive? {
      hide ProducerOk;
      assert CallOk(c, l, l.calls[l.prefetcher.id]);
    } else {
      hide GatewayOk, ProducerOk, CallsOk, Apply, StepEnabled;
      if step.BeginTick? || step.Push? || step.EndTick? || step.FinishTick? {
        ProducerGatewayOk(c, l, d, step, local);
      } else {
        PullGatewayOk(c, l, d, step, local);
      }
    }
  }

  lemma ProducerStaysOk(c: LegCfg, l: Leg, step: Step)
    requires StepEnabled(c, l, step) && ProducerOk(c, l)
    ensures ProducerOk(c, Apply(c, l, step))
  {
  }

  lemma ReplyOwnerOk(c: LegCfg, l: Leg, d: seq<nat>, step: Step, local: bool)
    requires StepEnabled(c, l, step) && CallsOk(c, l) && OwnerOk(c, l, d, local) && step.Reply?
    ensures OwnerOk(c, Apply(c, l, step), d, local)
  {
    assert CallOk(c, l, l.calls[step.id]);
  }

  lemma OwnerStaysOk(c: LegCfg, l: Leg, d: seq<nat>, step: Step, local: bool)
    requires StepEnabled(c, l, step) && CallsOk(c, l) && GatewayOk(c, l, d, local) && OwnerOk(c, l, d, local)
    ensures OwnerOk(c, Apply(c, l, step), d, local)
  {
    if step.Reply? {
      hide OwnerOk, Apply, CallsOk, GatewayOk;
      ReplyOwnerOk(c, l, d, step, local);
    } else {
      hide CallsOk;
    }
  }

  lemma LegStepInv(c: LegCfg, l: Leg, d: seq<nat>, step: Step, local: bool)
    requires StepEnabled(c, l, step) && LegInv(c, l, d, local)
    ensures LegInv(c, Apply(c, l, step), d, local)
  {
    hide Flow, CallsOk, GatewayOk, OwnerOk, Increasing, Loses;
    LegStepFlow(c, l, d, step, local);
    LosesKeepsOrder(Flow(c, l, d), Flow(c, Apply(c, l, step), d), c.size);
    CallsStayOk(c, l, step);
    GatewayStaysOk(c, l, d, step, local);
    OwnerStaysOk(c, l, d, step, local);
    ProducerStaysOk(c, l, step);
  }

  lemma LegStepExact(c: LegCfg, l: Leg, d: seq<nat>, step: Step, local: bool)
    requires StepEnabled(c, l, step) && LegInv(c, l, d, local) && ExactInv(c, l, d, local)
    requires !step.IsFault()
    ensures ExactInv(c, Apply(c, l, step), d, local)
  {
    hide Flow;
    LegStepFlow(c, l, d, step, local);
    if step.Receive? {
      assert CallOk(c, l, l.calls[l.prefetcher.id]);
    }
  }

  // --- One FetchChunk -----------------------------------------------------------

  lemma RegroupFetch(d: seq<nat>, taken: seq<nat>, rest: seq<nat>, tail: seq<nat>)
    ensures d + ((taken + rest) + tail) == (d + taken) + (rest + tail)
    ensures d + ([] + ([] + ((taken + rest) + tail))) == (d + taken) + ([] + ([] + (rest + tail)))
  {
    assert (taken + rest) + tail == taken + (rest + tail);
  }

  /** FetchChunk moves rows from a leg's source to the client and loses none. */
  lemma FetchLegFlow(c: LegCfg, legs: seq<Leg>, out: seq<Emit<nat>>, i: nat, d: seq<nat>)
    requires i < |legs| && Project(out, i) <= Source(legs, i)
    requires i == 0 ==> legs[i].slot == [] && legs[i].Live() == []
    ensures Flow(c, DrainLeg(legs, out, i), d + Project(out, i)) == Flow(c, legs[i], d)
  {
    var l, l', taken := legs[i], DrainLeg(legs, out, i), Project(out, i);
    var rest, r := Source(legs, i)[|taken|..], Range(l.cursor, c.size);
    assert l'.Live() == l.Live();
    assert Source(legs, i) == taken + rest;
    RegroupFetch(d, taken, rest, if i == 0 then r else l.Live() + (l.matched + r));
  }

  lemma FetchCallsOk(c: LegCfg, legs: seq<Leg>, out: seq<Emit<nat>>, i: nat)
    requires i < |legs| && Project(out, i) <= Source(legs, i) && CallsOk(c, legs[i])
    ensures CallsOk(c, DrainLeg(legs, out, i))
  {
    var l, l' := legs[i], DrainLeg(legs, out, i);
    forall id | id in l'.calls
      ensures id < l'.nextCall && CallOk(c, l', l'.calls[id])
    {
      assert CallOk(c, l, l.calls[id]);
    }
  }

  lemma FetchLegInv(c: LegCfg, legs: seq<Leg>, out: seq<Emit<nat>>, i: nat, d: seq<nat>)
    requires i < |legs| && Project(out, i) <= Source(legs, i)
    requires LegInv(c, legs[i], d, i == 0)
    ensures LegInv(c, DrainLeg(legs, out, i), d + Project(out, i), i == 0)
  {
    hide Flow, CallsOk, Increasing, Project;
    FetchSlot(c, legs, out, i, d);
    FetchLegFlow(c, legs, out, i, d);
    FetchCallsOk(c, legs, out, i);
  }

  lemma FetchSlot(c: LegCfg, legs: seq<Leg>, out: seq<Emit<nat>>, i: nat, d: seq<nat>)
    requires i < |legs| && GatewayOk(c, legs[i], d, i == 0)
    ensures i == 0 ==> legs[i].slot == [] && legs[i].Live() == []
  {
  }

  lemma FetchLegExact(c: LegCfg, legs: seq<Leg>, out: seq<Emit<nat>>, i: nat, d: seq<nat>)
    requires i < |legs| && Project(out, i) <= Source(legs, i)
    requires LegInv(c, legs[i], d, i == 0) && ExactInv(c, legs[i], d, i == 0)
    ensures ExactInv(c, DrainLeg(legs, out, i), d + Project(out, i), i == 0)
  {
    hide Flow, CallsOk, OwnerOk, Increasing, Project;
    FetchSlot(c, legs, out, i, d);
    FetchLegFlow(c, legs, out, i, d);
  }

  // --- Every reachable state ------------------------------------------------------

  ghost predicate Inv(c: Config, s: State)
  {
    && |s.legs| == |c.legs| > 0
    && (forall i: nat :: i < |s.legs| ==> LegInv(c.legs[i], s.legs[i], Project(s.delivered, i), i == 0))
    && (s.finished ==> AllOwnersDone(c, s.legs))
  }

  /** Leg `i` has lost nothing. */
  ghost predicate Exact(c: Config, s: State, i: nat)
    requires i < |s.legs| == |c.legs|
  {
    ExactInv(c.legs[i], s.legs[i], Project(s.delivered, i), i == 0)
  }

  lemma FetchInv(c: Config, s: State, max: int)
    requires Inv(c, s)
    ensures Inv(c, ApplyFetch(c, s, max))
    ensures forall i: nat :: i < |s.legs| && Exact(c, s, i) ==> Exact(c, ApplyFetch(c, s, max), i)
  {
    hide LegInv;
    hide ExactInv;
    var out := Take(Sources(s.legs), max);
    var s' := ApplyFetch(c, s, max);
    forall i: nat | i < |s.legs|
      ensures LegInv(c.legs[i], s'.legs[i], Project(s'.delivered, i), i == 0)
      ensures Exact(c, s, i) ==> Exact(c, s', i)
    {
      TakeIsFifo(Sources(s.legs), max, i);
      ProjectConcat(s.delivered, out, i);
      FetchLegInv(c.legs[i], s.legs, out, i, Project(s.delivered, i));
      if Exact(c, s, i) {
        FetchLegExact(c.legs[i], s.legs, out, i, Project(s.delivered, i));
      }
    }
  }

  lemma MarksSurvive(c: Config, s: State, i: nat, step: Step)
    requires |s.legs| == |c.legs| && EventEnabled(c, s, At(i, step))
    ensures AllOwnersDone(c, s.legs) ==> AllOwnersDone(c, ApplyEvent(c, s, At(i, step)).legs)
  {
  }

  lemma StepInv(c: Config, s: State, i: nat, step: Step)
    requires Inv(c, s) && EventEnabled(c, s, At(i, step))
    ensures Inv(c, ApplyEvent(c, s, At(i, step)))
    ensures forall j: nat :: j < |s.legs| && Exact(c, s, j) && (j != i || !step.IsFault()) ==>
              Exact(c, ApplyEvent(c, s, At(i, step)), j)
  {
    hide LegInv;
    hide ExactInv;
    var d := Project(s.delivered, i);
    MarksSurvive(c, s, i, step);
    LegStepInv(c.legs[i], s.legs[i], d, step, i == 0);
    if Exact(c, s, i) && !step.IsFault() {
      LegStepExact(c.legs[i], s.legs[i], d, step, i == 0);
    }
  }

  /** Every state of every run satisfies the invariant; a leg without faults loses nothing. */
  lemma {:induction false} RunInv(c: Config, trace: seq<Event>, s: State)
    requires c.Valid() && Run(c, trace, s)
    ensures Inv(c, s)
    ensures forall i: nat :: i < |s.legs| && FaultFreeAt(trace, i) ==> Exact(c, s, i)
    decreases |trace|
  {
    hide LegInv, ExactInv;
    if trace == [] {
      forall i: nat | i < |s.legs|
        ensures LegInv(c.legs[i], s.legs[i], Project(s.delivered, i), i == 0)
        ensures Exact(c, s, i)
      {
        InitInv(c.legs[i], s.legs[i], i == 0);
      }
    } else {
      var n := |trace| - 1;
      var prev: State :| RunStep(c, trace, prev, s);
      RunInv(c, trace[..n], prev);
      forall i: nat | FaultFreeAt(trace, i)
        ensures FaultFreeAt(trace[..n], i) && (trace[n].At? && trace[n].leg == i ==> !trace[n].IsFault())
      {
      }
      match trace[n] {
        case At(i, step) => StepInv(c, prev, i, step);
        case Fetch(max) => FetchInv(c, prev, max);
      }
    }
  }

  // --- Results ----------------------------------------------------------------------

  /** Conservation, for any interleaving and any number of lost replies and retried
      pulls: what the client has of an owner, followed by what is still on its way,
      names rows of the match list in increasing order, none of them twice. */
  lemma NothingTwice(c: Config, trace: seq<Event>, s: State, i: nat)
    requires c.Valid() && Run(c, trace, s) && i < |s.legs|
    ensures |s.legs| == |c.legs|
    ensures Increasing(Flow(c.legs[i], s.legs[i], Project(s.delivered, i)))
    ensures Increasing(Project(s.delivered, i))
    ensures forall k :: 0 <= k < |Project(s.delivered, i)| ==> Project(s.delivered, i)[k] < c.legs[i].size
  {
    RunInv(c, trace, s);
    var d := Project(s.delivered, i);
    var flow := Flow(c.legs[i], s.legs[i], d);
    assert forall k :: 0 <= k < |d| ==> d[k] == flow[k];
  }

  /** Conservation without faults at an owner, whatever happened to the others: delivered,
      slot, reply in flight, deque and the rows behind the cursor are, in this order, the
      whole match list. */
  lemma NothingLost(c: Config, trace: seq<Event>, s: State, i: nat)
    requires c.Valid() && Run(c, trace, s) && FaultFreeAt(trace, i) && i < |s.legs|
    ensures |s.legs| == |c.legs|
    ensures Flow(c.legs[i], s.legs[i], Project(s.delivered, i)) == Range(0, c.legs[i].size)
  {
    RunInv(c, trace, s);
    assert Exact(c, s, i);
  }

  /** What the gateway gets of a leg when nothing of it is lost: all of it or nothing. */
  predicate Reached(c: Config, i: nat)
    requires i < |c.legs|
  {
    c.legs[i].eligible && (i == 0 || c.legs[i].size == 0 || (c.legs[i].delivered && c.legs[i].accepted))
  }

  /** A remote owner that was not asked, not reached by its forward, did not register the
      request or has no rows to serve gives nothing, in any run. */
  lemma NothingFrom(c: Config, trace: seq<Event>, s: State, i: nat)
    requires c.Valid() && Run(c, trace, s) && 0 < i < |s.legs|
    ensures |s.legs| == |c.legs|
    ensures !c.legs[i].eligible || !c.legs[i].Answers() ==> Project(s.delivered, i) == []
  {
    hide Run;
    RunInv(c, trace, s);
    assert LegInv(c.legs[i], s.legs[i], Project(s.delivered, i), false);
  }

  /** Exactly once, owner by owner: when FetchChunk reports the last chunk and no pull of
      this owner timed out or failed, the client has the owner's match list, complete and
      in order, or nothing at all; and an eligible owner's list is complete exactly when it
      is empty, or the forward was delivered and the owner registered the request. */
  lemma ExactlyOnce(c: Config, trace: seq<Event>, s: State, i: nat)
    requires c.Valid() && Run(c, trace, s) && s.finished && FaultFreeAt(trace, i) && i < |s.legs|
    ensures |s.legs| == |c.legs|
    ensures c.legs[i].eligible ==>
              (Project(s.delivered, i) == Range(0, c.legs[i].size) <==> Reached(c, i))
    ensures !Reached(c, i) && (i > 0 || !c.gatewayOwnsData) ==> Project(s.delivered, i) == []
  {
    hide Run;
    RunInv(c, trace, s);
    assert Exact(c, s, i);
    var l, cfg, d := s.legs[i], c.legs[i], Project(s.delivered, i);
    assert LegInv(cfg, l, d, i == 0);
    if !cfg.Answers() && i > 0 {
      assert CutOff(l, d);
    } else if cfg.eligible {
      assert l.ownerDone;
      assert l.slot == [] && l.matched == [] && l.cursor == cfg.size;
      assert l.Live() == [];
      assert Flow(cfg, l, d) == d;
    } else if i == 0 && !c.gatewayOwnsData {
      IncreasingFits(Flow(cfg, l, d), 0);
      assert |Flow(cfg, l, d)| >= |d|;
    }
  }

  /** Rows the gateway holds for a leg: its prefetch slot, or its own deque and the
      matches its own producer has still to push. */
  function Held(c: LegCfg, l: Leg, local: bool): nat
  {
    |l.slot| + (if local then |l.matched| + |Range(l.cursor, c.size)| else 0)
  }

  /** Last means empty, even when owners failed: a leg marked done has nothing at the
      gateway, so after the last chunk nothing is left there.  For the gateway's own
      shard this needs routing to have kept it whenever it has matches. */
  lemma LastMeansEmpty(c: Config, trace: seq<Event>, s: State, i: nat)
    requires c.Valid() && Run(c, trace, s) && s.finished && i < |s.legs|
    requires c.legs[0].eligible || c.legs[0].size == 0
    ensures |s.legs| == |c.legs| && Held(c.legs[i], s.legs[i], i == 0) == 0
  {
    RunInv(c, trace, s);
    var l, cfg := s.legs[i], c.legs[i];
    if i == 0 && cfg.size == 0 {
      var d := Project(s.delivered, 0);
      var flow := Flow(cfg, l, d);
      IncreasingFits(flow, 0);
      assert |flow| == |d| + |l.slot| + |l.Live()| + |l.matched| + |Range(l.cursor, cfg.size)|;
    }
  }

  /** A leg is never marked done while its slot holds rows. */
  lemma DoneHoldsNothing(c: Config, trace: seq<Event>, s: State, i: nat)
    requires c.Valid() && Run(c, trace, s) && i < |s.legs|
    ensures |s.legs| == |c.legs|
    ensures s.legs[i].ownerDone || s.legs[i].prefetchDone ==> s.legs[i].slot == []
  {
    RunInv(c, trace, s);
  }

  /** `owners_hit` only counts eligible owners; when a request ends it counts an owner none
      of whose pulls failed exactly if it is eligible and able to answer. */
  lemma Responders(c: Config, trace: seq<Event>, s: State, i: nat)
    requires c.Valid() && Run(c, trace, s) && i < |s.legs|
    ensures |s.legs| == |c.legs|
    ensures s.legs[i].responded ==> c.legs[i].eligible
    ensures s.finished && FaultFreeAt(trace, i) ==>
              (s.legs[i].responded <==> c.legs[i].eligible && (i == 0 || c.legs[i].Answers()))
  {
    hide Run;
    RunInv(c, trace, s);
    assert FaultFreeAt(trace, i) ==> Exact(c, s, i);
    assert LegInv(c.legs[i], s.legs[i], Project(s.delivered, i), i == 0);
  }

  function SlotRows(legs: seq<Leg>): nat
  {
    if legs == [] then 0 else SlotRows(legs[..|legs| - 1]) + |legs[|legs| - 1].slot|
  }

  lemma {:induction false} SlotRowsBound(legs: seq<Leg>, chunkMax: nat)
    requires forall i: nat :: i < |legs| ==> |legs[i].slot| <= if i == 0 then 0 else chunkMax
    ensures SlotRows(legs) <= (if |legs| <= 1 then 0 else (|legs| - 1) * chunkMax)
  {
    if |legs| > 1 {
      SlotRowsBound(legs[..|legs| - 1], chunkMax);
      assert (|legs| - 1) * chunkMax == (|legs| - 2) * chunkMax + chunkMax;
    } else if |legs| == 1 {
      assert SlotRows(legs[..0]) == 0;
    }
  }

  lemma LegMemory(c: Config, s: State, i: nat)
    requires Inv(c, s) && i < |s.legs|
    ensures |s.legs[i].matched| <= MAX_BUFFERED
    ensures |s.legs[i].slot| <= if i == 0 then 0 else c.legs[i].chunkMax
  {
    assert LegInv(c.legs[i], s.legs[i], Project(s.delivered, i), i == 0);
  }

  lemma AllLegsMemory(c: Config, s: State, chunkMax: nat)
    requires Inv(c, s)
    requires forall i: nat :: i < |c.legs| ==> c.legs[i].chunkMax <= chunkMax
    ensures forall i: nat :: i < |s.legs| ==> |s.legs[i].matched| <= MAX_BUFFERED
    ensures forall i: nat :: i < |s.legs| ==> |s.legs[i].slot| <= if i == 0 then 0 else chunkMax
  {
    forall i: nat | i < |s.legs|
      ensures |s.legs[i].matched| <= MAX_BUFFERED
      ensures |s.legs[i].slot| <= if i == 0 then 0 else chunkMax
    {
      LegMemory(c, s, i);
    }
  }

  /** Bounded memory in every reachable state: a deque never exceeds 8192 rows, and
      the prefetch slots hold at most one chunk per remote owner. */
  lemma BoundedMemory(c: Config, trace: seq<Event>, s: State, chunkMax: nat)
    requires c.Valid() && Run(c, trace, s)
    requires forall i: nat :: i < |c.legs| ==> c.legs[i].chunkMax <= chunkMax
    ensures |s.legs| == |c.legs| > 0
    ensures forall i: nat :: i < |s.legs| ==> |s.legs[i].matched| <= 8192
    ensures SlotRows(s.legs) <= (|c.legs| - 1) * chunkMax
  {
    hide Run, LegInv, ExactInv, SlotRows;
    RunInv(c, trace, s);
    AllLegsMemory(c, s, chunkMax);
    SlotRowsBound(s.legs, chunkMax);
    if |s.legs| == 1 {
      assert (|c.legs| - 1) * chunkMax == 0;
    }
  }
}
