/** What time-outs and failures cost.

    A pull that timed out or failed goes on at the owner as a call nobody waits for.  In every
    run, the rows such calls drained from the deque are all that is missing: together with what
    was delivered, held by the gateway, on its way, in the deque or still to be produced they
    are the owner's match list, each row once. */
module GatherLosses {
  import opened Basics
  import opened Drain
  import opened Gather
  import opened GatherSafety

  // --- Calls nobody waits for ---------------------------------------------------------------

  /** The rows in call `id`, if the prefetcher no longer waits for it. */
  function LostBy(l: Leg, id: nat): seq<nat>
  {
    if id in l.calls && l.prefetcher != Calling(id) then l.calls[id].Rows() else []
  }

  /** The rows of the first `n` calls that nobody waits for. */
  function LostUpTo(l: Leg, n: nat): seq<nat>
  {
    if n == 0 then [] else LostUpTo(l, n - 1) + LostBy(l, n - 1)
  }

  /** The rows drained by pulls that timed out or failed. */
  function Lost(l: Leg): seq<nat>
  {
    LostUpTo(l, l.nextCall)
  }

  /** The pulls that timed out or failed. */
  function Abandoned(l: Leg): set<nat>
  {
    set id | id in l.calls && l.prefetcher != Calling(id)
  }

  /** Time-outs and failures of pulls of owner `i`. */
  function Faults(trace: seq<Event>, i: nat): nat
  {
    if trace == [] then 0 else
    var e := trace[|trace| - 1];
    Faults(trace[..|trace| - 1], i) + (if e.At? && e.leg == i && e.IsFault() then 1 else 0)
  }

  lemma {:induction false} LostSame(a: Leg, b: Leg, n: nat)
    requires forall id: nat :: id < n ==> LostBy(a, id) == LostBy(b, id)
    ensures LostUpTo(a, n) == LostUpTo(b, n)
  {
    hide LostBy;
    if n > 0 {
      LostSame(a, b, n - 1);
    }
  }

  lemma {:induction false} LostMore(a: Leg, b: Leg, n: nat, id: nat)
    requires id < n && LostBy(a, id) == [] && forall j: nat :: j < n && j != id ==> LostBy(a, j) == LostBy(b, j)
    ensures multiset(LostUpTo(b, n)) == multiset(LostUpTo(a, n)) + multiset(LostBy(b, id))
  {
    hide LostBy;
    if id == n - 1 {
      LostSame(a, b, n - 1);
    } else {
      LostMore(a, b, n - 1, id);
    }
  }

  // --- The match list, partitioned -------------------------------------------------------------

  /** Every match is accounted for exactly once. */
  ghost predicate Partition(c: LegCfg, l: Leg, delivered: seq<nat>)
  {
    multiset(Flow(c, l, delivered)) + multiset(Lost(l)) == multiset(Range(0, c.size))
  }

  lemma TakenOut(x: seq<nat>, y: seq<nat>, z: seq<nat>)
    ensures multiset(x + y + z) == multiset(x + z) + multiset(y)
  {
  }

  lemma DrainLostBy(c: LegCfg, l: Leg, step: Step, id: nat)
    requires StepEnabled(c, l, step) && step.DrainCall?
    ensures LostBy(l, step.id) == []
    ensures id != step.id || l.prefetcher == Calling(step.id) ==> LostBy(Apply(c, l, step), id) == LostBy(l, id)
  {
  }

  lemma DrainLosses(c: LegCfg, l: Leg, d: seq<nat>, step: Step)
    requires StepEnabled(c, l, step) && step.DrainCall? && CallsOk(c, l) && Partition(c, l, d)
    ensures Partition(c, Apply(c, l, step), d)
  {
    hide LostBy, LostUpTo, Flow;
    var l' := Apply(c, l, step);
    forall id: nat
      ensures LostBy(l, step.id) == []
      ensures id != step.id || l.prefetcher == Calling(step.id) ==> LostBy(l', id) == LostBy(l, id)
    {
      DrainLostBy(c, l, step, id);
    }
    if l.prefetcher == Calling(step.id) {
      DrainCallFlow(c, l, d, step);
      LostSame(l, l', l.nextCall);
    } else {
      DrainRows(c, l, d, step);
      LostMore(l, l', l.nextCall, step.id);
    }
  }

  /** The rows an abandoned pull drains leave the flow. */
  lemma DrainRows(c: LegCfg, l: Leg, d: seq<nat>, step: Step)
    requires StepEnabled(c, l, step) && step.DrainCall? && l.prefetcher != Calling(step.id)
    ensures var l' := Apply(c, l, step);
            multiset(Flow(c, l, d)) == multiset(Flow(c, l', d)) + multiset(LostBy(l', step.id))
  {
    hide Range;
    var l' := Apply(c, l, step);
    var out, r := l'.calls[step.id].out, Range(l.cursor, c.size);
    assert l.matched == out + l'.matched;
    assert l'.Live() == l.Live() && LostBy(l', step.id) == out;
    RegroupLost(d, l.slot, l.Live(), out, l'.matched, r);
    TakenOut(d + (l.slot + l.Live()), out, l'.matched + r);
  }

  lemma FaultLostBy(c: LegCfg, l: Leg, step: Step, id: nat)
    requires StepEnabled(c, l, step) && step.IsFault() && l.prefetcher.id in l.calls
    ensures LostBy(l, l.prefetcher.id) == [] && LostBy(Apply(c, l, step), l.prefetcher.id) == l.Live()
    ensures id != l.prefetcher.id ==> LostBy(Apply(c, l, step), id) == LostBy(l, id)
  {
  }

  /** What the live call carried when it timed out or failed leaves the flow. */
  lemma FaultLosses(c: LegCfg, l: Leg, d: seq<nat>, step: Step)
    requires StepEnabled(c, l, step) && step.IsFault() && CallsOk(c, l) && Partition(c, l, d)
    requires l.prefetcher.id in l.calls && l.slot == []
    ensures Partition(c, Apply(c, l, step), d)
  {
    hide LostBy, LostUpTo, Flow;
    var l' := Apply(c, l, step);
    forall id: nat
      ensures LostBy(l, l.prefetcher.id) == [] && LostBy(l', l.prefetcher.id) == l.Live()
      ensures id != l.prefetcher.id ==> LostBy(l', id) == LostBy(l, id)
    {
      FaultLostBy(c, l, step, id);
    }
    FaultRows(c, l, d, step);
    LostMore(l, l', l.nextCall, l.prefetcher.id);
  }

  lemma FaultRows(c: LegCfg, l: Leg, d: seq<nat>, step: Step)
    requires StepEnabled(c, l, step) && step.IsFault() && l.prefetcher.id in l.calls && l.slot == []
    ensures multiset(Flow(c, l, d)) == multiset(Flow(c, Apply(c, l, step), d)) + multiset(l.Live())
  {
    hide Flow, Range;
    var rest := l.matched + Range(l.cursor, c.size);
    FaultKeepsOwner(c, l, step);
    FlowWithoutSlot(c, l, d);
    FlowWithoutSlot(c, Apply(c, l, step), d);
    assert d + [] + rest == d + rest;
    TakenOut(d, l.Live(), rest);
  }

  lemma FaultKeepsOwner(c: LegCfg, l: Leg, step: Step)
    requires StepEnabled(c, l, step) && step.IsFault() && l.slot == []
    ensures var l' := Apply(c, l, step);
            l'.Live() == [] && l'.slot == [] && l'.matched == l.matched && l'.cursor == l.cursor
  {
  }

  lemma FlowWithoutSlot(c: LegCfg, l: Leg, d: seq<nat>)
    requires l.slot == []
    ensures Flow(c, l, d) == d + l.Live() + (l.matched + Range(l.cursor, c.size))
  {
    hide Range;
    var live, rest := l.Live(), l.matched + Range(l.cursor, c.size);
    assert d + ([] + (live + rest)) == d + live + rest;
  }

  /** The other steps lose nothing and abandon nothing. */
  lemma OtherLosses(c: LegCfg, l: Leg, d: seq<nat>, step: Step, local: bool)
    requires StepEnabled(c, l, step) && !step.DrainCall? && !step.IsFault()
    requires CallsOk(c, l) && GatewayOk(c, l, d, local) && ProducerOk(c, l) && Partition(c, l, d)
    ensures Partition(c, Apply(c, l, step), d)
  {
    hide Flow, GatewayOk, ProducerOk;
    OtherFlow(c, l, d, step, local);
    SameLost(c, l, step);
  }

  lemma OtherFlow(c: LegCfg, l: Leg, d: seq<nat>, step: Step, local: bool)
    requires StepEnabled(c, l, step) && !step.DrainCall? && !step.IsFault()
    requires GatewayOk(c, l, d, local) && ProducerOk(c, l)
    ensures Flow(c, Apply(c, l, step), d) == Flow(c, l, d)
  {
    hide Flow;
    if step.Issue? {
      IssueFlow(c, l, d);
    } else if step.Receive? {
      ReceiveFlow(c, l, d);
    } else if step.Refuse? {
      RefuseFlow(c, l, d);
    } else if step.IsProducer() {
      ProducerStepFlow(c, l, d, step);
    } else {
      CallStepFlow(c, l, d, step);
    }
  }

  lemma SameLostBy(c: LegCfg, l: Leg, step: Step, id: nat)
    requires StepEnabled(c, l, step) && !step.DrainCall? && !step.IsFault() && CallsOk(c, l)
    ensures LostBy(Apply(c, l, step), id) == LostBy(l, id)
    ensures id >= l.nextCall ==> LostBy(l, id) == []
  {
  }

  lemma SameLost(c: LegCfg, l: Leg, step: Step)
    requires StepEnabled(c, l, step) && !step.DrainCall? && !step.IsFault() && CallsOk(c, l)
    ensures Lost(Apply(c, l, step)) == Lost(l)
  {
    hide LostBy, CallsOk, Apply, StepEnabled;
    var l' := Apply(c, l, step);
    NextCallIs(c, l, step);
    forall id: nat
      ensures LostBy(l', id) == LostBy(l, id) && (id >= l.nextCall ==> LostBy(l, id) == [])
    {
      SameLostBy(c, l, step, id);
    }
    LostSame(l, l', l.nextCall);
  }

  // --- Pulls without a failure ------------------------------------------------------------------

  /** No pull of owner `i` failed; time-outs are allowed. */
  predicate NoFailAt(trace: seq<Event>, i: nat)
  {
    forall k :: 0 <= k < |trace| && trace[k].At? && trace[k].leg == i ==> !trace[k].step.Fail?
  }

  /** As long as no pull failed, the gateway gives up on an owner that answers only when its
      deque has been emptied for good. */
  ghost predicate Patient(c: LegCfg, l: Leg)
  {
    && (!l.registered || l.prefetchDone || (l.ownerDone && c.eligible) ==> l.done && l.matched == [])
    && (l.prefetchDone || (l.ownerDone && c.eligible) ==> !l.registered)
    && (forall id :: id in l.calls && (l.calls[id].NotFound? || (l.calls[id].Replied? && l.calls[id].last)) ==>
          l.done && l.matched == [] && !l.registered)
  }

  lemma StaysPatient(c: LegCfg, l: Leg, d: seq<nat>, step: Step)
    requires StepEnabled(c, l, step) && !step.Fail? && c.Answers() && Patient(c, l)
    requires CallsOk(c, l) && ProducerOk(c, l)
    ensures Patient(c, Apply(c, l, step))
  {
    if step.Receive? {
      assert CallOk(c, l, l.calls[l.prefetcher.id]);
    }
    if step.Reply? {
      assert CallOk(c, l, l.calls[step.id]);
    }
  }

  // --- Every run ----------------------------------------------------------------------------------

  lemma StepAbandons(c: LegCfg, l: Leg, step: Step)
    requires StepEnabled(c, l, step) && CallsOk(c, l) && (step.IsFault() ==> l.prefetcher.id in l.calls)
    ensures |Abandoned(Apply(c, l, step))| == |Abandoned(l)| + (if step.IsFault() then 1 else 0)
  {
    var a, b := Abandoned(l), Abandoned(Apply(c, l, step));
    if step.IsFault() {
      assert b == a + {l.prefetcher.id};
    } else {
      assert a == b;
    }
  }

  lemma StepPartition(c: LegCfg, l: Leg, d: seq<nat>, step: Step, local: bool)
    requires StepEnabled(c, l, step) && LegInv(c, l, d, local) && Partition(c, l, d)
    ensures Partition(c, Apply(c, l, step), d)
  {
    hide Partition, Apply, CallsOk, ProducerOk, OwnerOk;
    if step.DrainCall? {
      DrainLosses(c, l, d, step);
    } else if step.IsFault() {
      FaultLosses(c, l, d, step);
    } else {
      OtherLosses(c, l, d, step, local);
    }
  }

  /** What a leg keeps, after `faults` faults of its pulls. */
  ghost predicate LegLosses(c: LegCfg, l: Leg, d: seq<nat>, faults: nat)
  {
    Partition(c, l, d) && |Abandoned(l)| == faults
  }

  lemma StepLosses(c: LegCfg, l: Leg, d: seq<nat>, step: Step, local: bool, faults: nat)
    requires StepEnabled(c, l, step) && LegInv(c, l, d, local) && LegLosses(c, l, d, faults)
    ensures LegLosses(c, Apply(c, l, step), d, faults + (if step.IsFault() then 1 else 0))
  {
    hide Partition, Apply, CallsOk, ProducerOk, OwnerOk, Abandoned;
    StepPartition(c, l, d, step, local);
    StepAbandons(c, l, step);
  }

  lemma DrainedLosses(c: LegCfg, legs: seq<Leg>, out: seq<Emit<nat>>, i: nat, d: seq<nat>, faults: nat)
    requires i < |legs| && Project(out, i) <= Source(legs, i) && LegInv(c, legs[i], d, i == 0)
    requires LegLosses(c, legs[i], d, faults)
    ensures LegLosses(c, DrainLeg(legs, out, i), d + Project(out, i), faults)
  {
    hide Flow, Project, LegInv, LostUpTo;
    DrainKeepsCalls(legs, out, i);
    FetchFlow(c, legs, out, i, d);
    LostSame(legs[i], DrainLeg(legs, out, i), legs[i].nextCall);
  }

  lemma FetchFlow(c: LegCfg, legs: seq<Leg>, out: seq<Emit<nat>>, i: nat, d: seq<nat>)
    requires i < |legs| && Project(out, i) <= Source(legs, i) && LegInv(c, legs[i], d, i == 0)
    ensures Flow(c, DrainLeg(legs, out, i), d + Project(out, i)) == Flow(c, legs[i], d)
  {
    FetchSlot(c, legs, out, i, d);
    FetchLegFlow(c, legs, out, i, d);
  }

  lemma DrainKeepsCalls(legs: seq<Leg>, out: seq<Emit<nat>>, i: nat)
    requires i < |legs| && Project(out, i) <= Source(legs, i)
    ensures var l, l' := legs[i], DrainLeg(legs, out, i);
            && l'.calls == l.calls && l'.prefetcher == l.prefetcher && l'.nextCall == l.nextCall
            && Abandoned(l') == Abandoned(l)
  {
    hide Project, Abandoned;
    SameAbandoned(legs[i], DrainLeg(legs, out, i));
  }

  lemma SameAbandoned(a: Leg, b: Leg)
    requires a.calls == b.calls && a.prefetcher == b.prefetcher
    ensures Abandoned(a) == Abandoned(b)
  {
  }

  lemma DrainPatient(c: LegCfg, legs: seq<Leg>, out: seq<Emit<nat>>, i: nat)
    requires 0 < i < |legs| && Project(out, i) <= Source(legs, i) && Patient(c, legs[i])
    ensures Patient(c, DrainLeg(legs, out, i))
  {
    hide Project;
  }

  lemma StartsWhole(c: LegCfg, l: Leg, local: bool)
    requires InitLeg(c, l, local)
    ensures LegLosses(c, l, [], 0)
    ensures !local && c.Answers() ==> Patient(c, l)
  {
    InitInv(c, l, local);
    NothingLostYet(l, l.nextCall);
    assert Abandoned(l) == {};
  }

  lemma {:induction false} NothingLostYet(l: Leg, n: nat)
    requires l.calls == map[]
    ensures LostUpTo(l, n) == []
  {
    if n > 0 {
      NothingLostYet(l, n - 1);
    }
  }

  /** Every state of every run accounts for every match of every leg. */
  lemma {:induction false} RunLosses(c: Config, trace: seq<Event>, s: State, i: nat)
    requires c.Valid() && Run(c, trace, s) && i < |c.legs|
    ensures i < |s.legs| && LegLosses(c.legs[i], s.legs[i], Project(s.delivered, i), Faults(trace, i))
    ensures i > 0 && c.legs[i].Answers() && NoFailAt(trace, i) ==> Patient(c.legs[i], s.legs[i])
    decreases |trace|
  {
    hide LegLosses, Patient, LegInv, Project, Take, StepEnabled, Apply, DrainLeg;
    if trace == [] {
      StartsWhole(c.legs[i], s.legs[i], i == 0);
      NoProject(s.delivered, i);
    } else {
      var n := |trace| - 1;
      var prev: State :| RunStep(c, trace, prev, s);
      RunLosses(c, trace[..n], prev, i);
      RunInv(c, trace[..n], prev);
      assert NoFailAt(trace, i) ==> NoFailAt(trace[..n], i);
      EventLosses(c, prev, trace[n], i, Faults(trace[..n], i));
    }
  }

  lemma NoProject(out: seq<Emit<nat>>, i: nat)
    requires out == []
    ensures Project(out, i) == []
  {
  }

  lemma EventLosses(c: Config, s: State, e: Event, i: nat, faults: nat)
    requires Inv(c, s) && EventEnabled(c, s, e) && i < |c.legs|
    requires LegLosses(c.legs[i], s.legs[i], Project(s.delivered, i), faults)
    ensures var after := ApplyEvent(c, s, e);
            && LegLosses(c.legs[i], after.legs[i], Project(after.delivered, i),
                         faults + (if e.At? && e.leg == i && e.IsFault() then 1 else 0))
            && (i > 0 && c.legs[i].Answers() && Patient(c.legs[i], s.legs[i]) && !(e.At? && e.leg == i && e.step.Fail?)
                ==> Patient(c.legs[i], after.legs[i]))
  {
    hide LegLosses, Patient, Project, Take, StepEnabled, Apply, DrainLeg, GatewayOk, OwnerOk, Flow, CallsOk, ProducerOk,
      Increasing;
    assert LegInv(c.legs[i], s.legs[i], Project(s.delivered, i), i == 0);
    match e
    case At(j, step) =>
      if j == i {
        StepLosses(c.legs[i], s.legs[i], Project(s.delivered, i), step, i == 0, faults);
        if i > 0 && c.legs[i].Answers() && Patient(c.legs[i], s.legs[i]) && !step.Fail? {
          StaysPatient(c.legs[i], s.legs[i], Project(s.delivered, i), step);
        }
      }
    case Fetch(max) =>
      var out := Take(Sources(s.legs), max);
      TakeIsFifo(Sources(s.legs), max, i);
      ProjectConcat(s.delivered, out, i);
      assert ApplyFetch(c, s, max).legs[i] == DrainLeg(s.legs, out, i);
      DrainedLosses(c.legs[i], s.legs, out, i, Project(s.delivered, i), faults);
      if i > 0 && Patient(c.legs[i], s.legs[i]) {
        DrainPatient(c.legs[i], s.legs, out, i);
      }
  }

  // --- Results ------------------------------------------------------------------------------------

  /** The first `n` calls that nobody waits for. */
  function AbandonedUpTo(l: Leg, n: nat): (r: set<nat>)
    ensures forall id :: id in r <==> id in Abandoned(l) && id < n
  {
    set id | id in Abandoned(l) && id < n
  }

  lemma {:induction false} LostBound(c: LegCfg, l: Leg, n: nat)
    requires CallsOk(c, l)
    ensures |LostUpTo(l, n)| <= |AbandonedUpTo(l, n)| * c.chunkMax
  {
    if n == 0 {
      assert AbandonedUpTo(l, 0) == {};
    } else {
      LostBound(c, l, n - 1);
      var before := AbandonedUpTo(l, n - 1);
      if n - 1 in Abandoned(l) {
        assert CallOk(c, l, l.calls[n - 1]);
        assert AbandonedUpTo(l, n) == before + {n - 1};
        assert (|before| + 1) * c.chunkMax == |before| * c.chunkMax + c.chunkMax;
      } else {
        assert AbandonedUpTo(l, n) == before;
      }
    }
  }

  /** What faults cost, in every state of every run: the rows missing from what was delivered,
      held, on its way, in the deque or still to be produced are exactly those drained by the
      pulls that timed out or failed.  There are as many such pulls as faults, and each costs
      at most one chunk. */
  lemma LossesExact(c: Config, trace: seq<Event>, s: State, i: nat)
    requires c.Valid() && Run(c, trace, s) && i < |c.legs|
    ensures i < |s.legs|
    ensures var l := s.legs[i];
            && multiset(Project(s.delivered, i)) + multiset(l.slot) + multiset(l.Live()) + multiset(l.matched)
               + multiset(Range(l.cursor, c.legs[i].size)) + multiset(Lost(l))
               == multiset(Range(0, c.legs[i].size))
            && |Abandoned(l)| == Faults(trace, i)
            && |Lost(l)| <= Faults(trace, i) * c.legs[i].chunkMax
  {
    hide Run, Project, Range;
    RunLosses(c, trace, s, i);
    RunInv(c, trace, s);
    var cfg, l, d := c.legs[i], s.legs[i], Project(s.delivered, i);
    assert LegInv(cfg, l, d, i == 0);
    FlowParts(d, l.slot, l.Live(), l.matched, Range(l.cursor, cfg.size));
    LostBound(cfg, l, l.nextCall);
    assert AbandonedUpTo(l, l.nextCall) == Abandoned(l);
  }

  lemma FlowParts(d: seq<nat>, slot: seq<nat>, live: seq<nat>, m: seq<nat>, r: seq<nat>)
    ensures multiset(d + (slot + (live + (m + r))))
         == multiset(d) + multiset(slot) + multiset(live) + multiset(m) + multiset(r)
  {
  }

  lemma {:induction false} IncreasingFull(s: seq<nat>, n: nat)
    requires Increasing(s) && (forall k :: 0 <= k < |s| ==> s[k] < n) && |s| == n
    ensures s == Range(0, n)
    decreases n
  {
    if n > 0 {
      var init := s[..n - 1];
      IncreasingFits(init, s[n - 1]);
      IncreasingFull(init, n - 1);
      assert s == init + [s[n - 1]];
    }
  }

  /** At the end of a query, time-outs or not: if no pull of an asked and reached owner failed,
      the client has of its match list exactly what no pull that timed out had drained; so the
      list is complete if and only if no such pull had drained a row. */
  lemma TimeoutsCostDrained(c: Config, trace: seq<Event>, s: State, i: nat)
    requires c.Valid() && Run(c, trace, s) && s.finished && 0 < i < |c.legs|
    requires c.legs[i].eligible && c.legs[i].Answers() && NoFailAt(trace, i)
    ensures i < |s.legs|
    ensures multiset(Project(s.delivered, i)) + multiset(Lost(s.legs[i])) == multiset(Range(0, c.legs[i].size))
    ensures Project(s.delivered, i) == Range(0, c.legs[i].size) <==> Lost(s.legs[i]) == []
    ensures |Project(s.delivered, i)| >= c.legs[i].size - Faults(trace, i) * c.legs[i].chunkMax
  {
    hide Run, Project, Lost, Abandoned, Partition;
    RunLosses(c, trace, s, i);
    RunInv(c, trace, s);
    LossesExact(c, trace, s, i);
    var cfg, l, d := c.legs[i], s.legs[i], Project(s.delivered, i);
    assert LegInv(cfg, l, d, false);
    AllIn(c, s, i);
    var lost := Lost(l);
    assert |multiset(d) + multiset(lost)| == |d| + |lost|;
    assert |multiset(Range(0, cfg.size))| == cfg.size;
    if lost == [] {
      NothingTwice(c, trace, s, i);
      IncreasingFull(d, cfg.size);
    }
  }

  /** When the gateway has given up on an owner that emptied its deque, nothing is on its way. */
  lemma AllIn(c: Config, s: State, i: nat)
    requires 0 < i < |s.legs| == |c.legs| && s.finished && AllOwnersDone(c, s.legs)
    requires c.legs[i].eligible && Patient(c.legs[i], s.legs[i])
    requires LegInv(c.legs[i], s.legs[i], Project(s.delivered, i), false)
    ensures var l := s.legs[i];
            l.slot == [] && l.Live() == [] && l.matched == [] && Range(l.cursor, c.legs[i].size) == []
  {
    hide Project, Flow;
  }

  /** At the end of a query every asked and reached owner none of whose pulls failed has
      forgotten it, lost replies or not. */
  lemma OwnersForget(c: Config, trace: seq<Event>, s: State, i: nat)
    requires c.Valid() && Run(c, trace, s) && s.finished && 0 < i < |c.legs|
    requires c.legs[i].eligible && c.legs[i].Answers() && NoFailAt(trace, i)
    ensures i < |s.legs| && !s.legs[i].registered
  {
    hide Run, Partition, Abandoned, LegInv;
    RunLosses(c, trace, s, i);
    RunInv(c, trace, s);
  }
}
