/** Python data owners as legs of the gather protocol.

    A Python owner's producer keeps its position in local variables and takes the lock once
    per row; a pull drains under the lock and reads `done_producing` and the deque after it.
    Here every lock block and every unlocked read or store is a step of its own, interleaved
    with the pulls, the gateway and the other owners.  Every such run is a run of the gather
    machine, so what is proved about that machine holds for Python owners too; an owner with
    rows can always be brought to its end, and one without rows never ends. */
module PyGather {
  import opened Basics
  import opened Drain
  import opened Gather
  import opened GatherSafety
  import opened GatherProgress
  import opened GatherCompletes
  import PyOwner

  // --- One Python owner -----------------------------------------------------------------------

  /** Where the producer loop is with the request, and the locals it holds there. */
  datatype Stage = Resting | Chosen | Looping(i: nat, end: nat) | Storing(i: nat) | Marking(i: nat)

  /** The producer's side of a request; `cursor` is `matched_cursor`, and `empty` says that
      the shard has no rows, so that the registration left `matched_indices` unset. */
  datatype Owner = Owner(empty: bool, stage: Stage, cursor: nat)

  /** The producer's side, and the leg with the fields the owner shares with the pulls; the
      producer fields of `leg` are not used. */
  datatype Side = Side(own: Owner, leg: Leg)

  /** Find the request and read its flags; look at the deque under the lock; append a row
      under the lock; leave the row loop; store the cursor; set `done_producing`. */
  datatype PyStep = Choose | Check | Append | Leave | Store | Mark

  predicate PyEnabled(c: LegCfg, x: Side, step: PyStep)
  {
    var stage := x.own.stage;
    match step
    case Choose => stage.Resting? && x.leg.registered && !x.leg.done && !x.own.empty
    case Check => stage.Chosen?
    case Append => stage.Looping? && stage.i < stage.end
    case Leave => stage.Looping? && stage.i >= stage.end
    case Store => stage.Storing?
    case Mark => stage.Marking?
  }

  function PyApply(c: LegCfg, x: Side, step: PyStep): Side
    requires PyEnabled(c, x, step)
  {
    var o, l := x.own, x.leg;
    match step
    case Choose => x.(own := o.(stage := Chosen))
    case Check =>
      if |l.matched| >= MAX_BUFFERED then x.(own := o.(stage := Resting))
      else x.(own := o.(stage := Looping(o.cursor, Min(c.size, o.cursor + c.quantum))))
    case Append =>
      var matched := l.matched + [o.stage.i];
      var i := o.stage.i + 1;
      Side(o.(stage := if |matched| >= MAX_BUFFERED then Storing(i) else Looping(i, o.stage.end)),
           l.(matched := matched))
    case Leave => x.(own := o.(stage := Storing(o.stage.i)))
    case Store => x.(own := o.(cursor := o.stage.i, stage := Marking(o.stage.i)))
    case Mark => Side(o.(stage := Resting), l.(done := l.done || o.stage.i >= c.size))
  }

  /** The leg of the gather machine a Python owner stands for. */
  function Abs(x: Side): Leg
  {
    var stage := x.own.stage;
    x.leg.(
      cursor := if stage.Looping? || stage.Storing? || stage.Marking? then stage.i else x.own.cursor,
      producer := match stage
                  case Resting => Idle
                  case Chosen => Idle
                  case Looping(_, end) => Pushing(end)
                  case Storing(_) => Finishing
                  case Marking(_) => Finishing)
  }

  /** The step of the gather machine that shows, if any. */
  function Shown(x: Side, step: PyStep): Option<Step>
  {
    match step
    case Choose => None
    case Check => if |x.leg.matched| >= MAX_BUFFERED then None else Some(BeginTick)
    case Append => Some(Push)
    case Leave => Some(EndTick)
    case Store => None
    case Mark => Some(FinishTick)
  }

  /** A reply that ends the request, and a flag read as set, mean that the flag is set. */
  predicate CallSaw(l: Leg, call: Call)
  {
    && (call.SawDone? && call.done ==> l.done)
    && ((call.Checked? || call.Replied?) && call.last ==> l.done)
  }

  /** The producer never works on a request that was dropped or is done. */
  ghost predicate SideOk(x: Side)
  {
    && (forall id :: id in x.leg.calls ==> CallSaw(x.leg, x.leg.calls[id]))
    && (!x.own.stage.Resting? ==> x.leg.registered && !x.leg.done && !x.own.empty)
    && (x.own.stage.Marking? ==> x.own.cursor == x.own.stage.i)
    && (x.own.empty ==> !x.leg.done)
  }

  /** A producer step shows as one step of the gather machine, or not at all. */
  lemma OwnStepShows(c: LegCfg, x: Side, step: PyStep)
    requires SideOk(x) && PyEnabled(c, x, step)
    ensures var y := PyApply(c, x, step);
            match Shown(x, step)
            case None => Abs(y) == Abs(x)
            case Some(g) => StepEnabled(c, Abs(x), g) && g.IsProducer() && Apply(c, Abs(x), g) == Abs(y)
  {
  }

  lemma OwnStepOk(c: LegCfg, x: Side, step: PyStep)
    requires SideOk(x) && PyEnabled(c, x, step)
    ensures SideOk(PyApply(c, x, step))
  {
  }

  /** Any other step is the same step of the gather machine. */
  lemma OtherStepShows(c: LegCfg, x: Side, step: Step)
    requires StepEnabled(c, x.leg, step) && !step.IsProducer()
    ensures StepEnabled(c, Abs(x), step)
    ensures Apply(c, Abs(x), step) == Abs(x.(leg := Apply(c, x.leg, step)))
  {
  }

  lemma OtherStepOk(c: LegCfg, x: Side, step: Step)
    requires SideOk(x) && StepEnabled(c, x.leg, step) && !step.IsProducer()
    ensures SideOk(x.(leg := Apply(c, x.leg, step)))
  {
    var l := Apply(c, x.leg, step);
    assert l.done == x.leg.done;
    forall id | id in l.calls
      ensures CallSaw(l, l.calls[id])
    {
      if id in x.leg.calls {
        assert CallSaw(x.leg, x.leg.calls[id]);
      }
    }
  }

  // --- Queries with Python owners ---------------------------------------------------------------

  /** The gather machine's state, and the Python producers of the legs that have one. */
  datatype Mixed = Mixed(s: State, owners: map<nat, Owner>)

  datatype MixedEvent = Own(leg: nat, step: PyStep) | Shared(e: Event)

  function SideOf(m: Mixed, i: nat): Side
    requires i < |m.s.legs| && i in m.owners
  {
    Side(m.owners[i], m.s.legs[i])
  }

  function AbsLeg(m: Mixed, i: nat): Leg
    requires i < |m.s.legs|
  {
    if i in m.owners then Abs(SideOf(m, i)) else m.s.legs[i]
  }

  function AbsLegs(m: Mixed): (r: seq<Leg>)
    ensures |r| == |m.s.legs| && forall i: nat :: i < |r| ==> r[i] == AbsLeg(m, i)
  {
    seq(|m.s.legs|, i requires 0 <= i < |m.s.legs| => AbsLeg(m, i))
  }

  function AbsState(m: Mixed): (r: State)
    ensures |r.legs| == |m.s.legs| && r.finished == m.s.finished && r.delivered == m.s.delivered
  {
    m.s.(legs := AbsLegs(m))
  }

  predicate MixedEnabled(c: Config, m: Mixed, e: MixedEvent)
    requires |m.s.legs| == |c.legs|
  {
    match e
    case Own(i, step) => i in m.owners && i < |m.s.legs| && PyEnabled(c.legs[i], SideOf(m, i), step)
    case Shared(e) => EventEnabled(c, m.s, e) && (e.At? && e.leg in m.owners ==> !e.step.IsProducer())
  }

  function MixedApply(c: Config, m: Mixed, e: MixedEvent): (after: Mixed)
    requires |m.s.legs| == |c.legs| && MixedEnabled(c, m, e)
    ensures |after.s.legs| == |c.legs| && after.owners.Keys == m.owners.Keys
  {
    match e
    case Own(i, step) =>
      var x := PyApply(c.legs[i], SideOf(m, i), step);
      Mixed(m.s.(legs := m.s.legs[i := x.leg]), m.owners[i := x.own])
    case Shared(e) => m.(s := ApplyEvent(c, m.s, e))
  }

  /** Right after SubmitQuery; an owner with rows but no match is done from the start. */
  ghost predicate MixedInit(c: Config, m: Mixed)
  {
    && Init(c, m.s) && 0 !in m.owners
    && forall i :: i in m.owners ==>
         && i < |m.s.legs| && m.owners[i] == Owner(m.owners[i].empty, Resting, 0)
         && (m.owners[i].empty ==> c.legs[i].size == 0)
         && m.s.legs[i].done == (c.legs[i].size == 0 && !m.owners[i].empty)
  }

  ghost predicate MixedRun(c: Config, trace: seq<MixedEvent>, m: Mixed)
    decreases |trace|
  {
    if trace == [] then MixedInit(c, m) else
    exists prev: Mixed :: MixedRunStep(c, trace, prev, m)
  }

  ghost predicate MixedRunStep(c: Config, trace: seq<MixedEvent>, prev: Mixed, m: Mixed)
    requires trace != []
    decreases |trace|, 0
  {
    var e := trace[|trace| - 1];
    && MixedRun(c, trace[..|trace| - 1], prev)
    && |prev.s.legs| == |c.legs|
    && MixedEnabled(c, prev, e)
    && m == MixedApply(c, prev, e)
  }

  /** The shared events of a mixed trace; faults are among them. */
  ghost predicate NoFaultAt(trace: seq<MixedEvent>, i: nat)
  {
    forall k :: 0 <= k < |trace| && trace[k].Shared? && trace[k].e.At? && trace[k].e.leg == i ==> !trace[k].e.IsFault()
  }

  ghost predicate MixedInv(c: Config, m: Mixed)
  {
    && |m.s.legs| == |c.legs| && 0 !in m.owners
    && forall i :: i in m.owners ==> i < |m.s.legs| && SideOk(SideOf(m, i))
  }

  // --- Refinement -------------------------------------------------------------------------------

  lemma InitShows(c: Config, m: Mixed)
    requires MixedInit(c, m)
    ensures MixedInv(c, m) && AbsState(m) == m.s
  {
    forall i: nat | i < |m.s.legs|
      ensures AbsLeg(m, i) == m.s.legs[i]
    {
      assert InitLeg(c.legs[i], m.s.legs[i], i == 0);
    }
    assert AbsLegs(m) == m.s.legs;
  }

  lemma OwnShows(c: Config, m: Mixed, i: nat, step: PyStep)
    requires MixedInv(c, m) && MixedEnabled(c, m, Own(i, step))
    ensures var after := MixedApply(c, m, Own(i, step));
            && MixedInv(c, after)
            && match Shown(SideOf(m, i), step)
               case None => AbsState(after) == AbsState(m)
               case Some(g) =>
                 && g.IsProducer() && EventEnabled(c, AbsState(m), At(i, g))
                 && ApplyEvent(c, AbsState(m), At(i, g)) == AbsState(after)
  {
    hide SideOk, PyApply, Abs, Shown, Apply, StepEnabled;
    var x := SideOf(m, i);
    var after := MixedApply(c, m, Own(i, step));
    OwnStepShows(c.legs[i], x, step);
    OwnStepOk(c.legs[i], x, step);
    assert AbsLegs(after) == AbsLegs(m)[i := Abs(PyApply(c.legs[i], x, step))];
    assert AbsLegs(m)[i := AbsLegs(m)[i]] == AbsLegs(m);
  }

  lemma SharedStepShows(c: Config, m: Mixed, i: nat, step: Step)
    requires MixedInv(c, m) && MixedEnabled(c, m, Shared(At(i, step)))
    ensures var after := MixedApply(c, m, Shared(At(i, step)));
            && MixedInv(c, after) && EventEnabled(c, AbsState(m), At(i, step))
            && ApplyEvent(c, AbsState(m), At(i, step)) == AbsState(after)
  {
    hide SideOk, Abs, Apply, StepEnabled;
    var after := MixedApply(c, m, Shared(At(i, step)));
    if i in m.owners {
      OtherStepShows(c.legs[i], SideOf(m, i), step);
      OtherStepOk(c.legs[i], SideOf(m, i), step);
    }
    assert AbsLegs(after) == AbsLegs(m)[i := AbsLeg(after, i)];
  }

  /** What a fetch reads and writes of a leg is not the producer's. */
  lemma DrainLegShows(m: Mixed, out: seq<Emit<nat>>, i: nat)
    requires 0 !in m.owners && i < |m.s.legs| && |Project(out, i)| <= |Source(m.s.legs, i)|
    ensures Source(AbsLegs(m), i) == Source(m.s.legs, i)
    ensures LegDrained(AbsLegs(m), i) <==> LegDrained(m.s.legs, i)
    ensures DrainLeg(AbsLegs(m), out, i) ==
            if i in m.owners then Abs(Side(m.owners[i], DrainLeg(m.s.legs, out, i))) else DrainLeg(m.s.legs, out, i)
    ensures DrainLeg(AbsLegs(m), out, i).ownerDone == DrainLeg(m.s.legs, out, i).ownerDone
  {
    hide Project;
  }

  lemma DrainLegOk(legs: seq<Leg>, out: seq<Emit<nat>>, i: nat, own: Owner)
    requires 0 < i < |legs| && |Project(out, i)| <= |Source(legs, i)| && SideOk(Side(own, legs[i]))
    ensures SideOk(Side(own, DrainLeg(legs, out, i)))
  {
    hide Project;
    var l := DrainLeg(legs, out, i);
    forall id | id in l.calls
      ensures CallSaw(l, l.calls[id])
    {
      assert CallSaw(legs[i], legs[i].calls[id]);
    }
  }

  lemma FetchLegShows(c: Config, m: Mixed, max: int, i: nat)
    requires MixedInv(c, m) && i < |m.s.legs|
    ensures var after := m.(s := ApplyFetch(c, m.s, max));
            var out := Take(Sources(m.s.legs), max);
            && |after.s.legs| == |m.s.legs| && |Project(out, i)| <= |Source(m.s.legs, i)|
            && Source(AbsLegs(m), i) == Source(m.s.legs, i)
            && (LegDrained(AbsLegs(m), i) <==> LegDrained(m.s.legs, i))
            && DrainLeg(AbsLegs(m), out, i) == AbsLeg(after, i)
            && AbsLegs(after)[i].ownerDone == after.s.legs[i].ownerDone
            && (i in m.owners ==> SideOk(SideOf(after, i)))
  {
    hide Take, Project, DrainLeg, Abs, SideOk, Source, LegDrained;
    var out := Take(Sources(m.s.legs), max);
    forall j: nat | j < |m.s.legs|
      ensures |Project(out, j)| <= |Source(m.s.legs, j)|
    {
      TakeIsFifo(Sources(m.s.legs), max, j);
    }
    DrainLegShows(m, out, i);
    if i in m.owners {
      DrainLegOk(m.s.legs, out, i, m.owners[i]);
    }
  }

  lemma ReadyShows(m: Mixed)
    requires 0 !in m.owners
    ensures Sources(AbsLegs(m)) == Sources(m.s.legs) && (FetchReady(AbsLegs(m)) <==> FetchReady(m.s.legs))
  {
    hide Abs, Source, LegDrained, FetchReady;
    forall i: nat | i < |m.s.legs|
      ensures Source(AbsLegs(m), i) == Source(m.s.legs, i)
      ensures LegDrained(AbsLegs(m), i) <==> LegDrained(m.s.legs, i)
    {
      DrainLegSame(m, i);
    }
    SameReady(AbsLegs(m), m.s.legs);
  }

  lemma FetchInvShows(c: Config, m: Mixed, max: int)
    requires MixedInv(c, m)
    ensures MixedInv(c, m.(s := ApplyFetch(c, m.s, max)))
  {
    hide ApplyFetch, SideOk, Take, Project, Source, LegDrained, DrainLeg, AbsLeg;
    forall i | i in m.owners
      ensures SideOk(SideOf(m.(s := ApplyFetch(c, m.s, max)), i))
    {
      FetchLegShows(c, m, max, i);
    }
  }

  lemma FetchStateShows(c: Config, m: Mixed, max: int)
    requires MixedInv(c, m)
    ensures ApplyFetch(c, AbsState(m), max) == AbsState(m.(s := ApplyFetch(c, m.s, max)))
  {
    hide Take, Project, DrainLeg, AbsLeg, SideOk, Source, LegDrained, AllOwnersDone;
    var after := m.(s := ApplyFetch(c, m.s, max));
    var out := Take(Sources(m.s.legs), max);
    ReadyShows(m);
    forall i: nat | i < |m.s.legs|
      ensures |Project(out, i)| <= |Source(m.s.legs, i)|
      ensures Source(AbsLegs(m), i) == Source(m.s.legs, i)
      ensures DrainLeg(AbsLegs(m), out, i) == AbsLeg(after, i)
      ensures AbsLegs(after)[i].ownerDone == after.s.legs[i].ownerDone
    {
      FetchLegShows(c, m, max, i);
    }
    assert DrainLegs(AbsLegs(m), out) == AbsLegs(after);
    SameDone(c, AbsLegs(after), after.s.legs);
  }

  lemma FetchShows(c: Config, m: Mixed, max: int)
    requires MixedInv(c, m) && MixedEnabled(c, m, Shared(Fetch(max)))
    ensures var after := MixedApply(c, m, Shared(Fetch(max)));
            && MixedInv(c, after) && EventEnabled(c, AbsState(m), Fetch(max))
            && ApplyEvent(c, AbsState(m), Fetch(max)) == AbsState(after)
  {
    hide ApplyFetch, SideOk, FetchReady, AbsLeg;
    ReadyShows(m);
    FetchInvShows(c, m, max);
    FetchStateShows(c, m, max);
  }

  lemma SameReady(a: seq<Leg>, b: seq<Leg>)
    requires |a| == |b|
    requires forall i: nat :: i < |a| ==> Source(a, i) == Source(b, i) && (LegDrained(a, i) <==> LegDrained(b, i))
    ensures FetchReady(a) <==> FetchReady(b)
  {
    hide Source, LegDrained;
    if i: nat :| i < |a| && Source(a, i) != [] {
      assert Source(b, i) != [];
    }
    if i: nat :| i < |b| && Source(b, i) != [] {
      assert Source(a, i) != [];
    }
  }

  lemma SameDone(c: Config, a: seq<Leg>, b: seq<Leg>)
    requires |a| == |b| == |c.legs| && forall i: nat :: i < |a| ==> a[i].ownerDone == b[i].ownerDone
    ensures AllOwnersDone(c, a) <==> AllOwnersDone(c, b)
  {
  }

  lemma FaultsSnoc(trace: seq<MixedEvent>, shown: seq<Event>, e: MixedEvent, out: Option<Event>)
    requires forall i :: FaultFreeAt(shown, i) <==> NoFaultAt(trace, i)
    requires out.Some? && !(e.Shared? && out.value == e.e) ==> !out.value.IsFault()
    requires e.Shared? ==> out == Some(e.e)
    ensures forall i :: FaultFreeAt(if out.Some? then shown + [out.value] else shown, i) <==> NoFaultAt(trace + [e], i)
  {
    forall i
      ensures FaultFreeAt(if out.Some? then shown + [out.value] else shown, i) <==> NoFaultAt(trace + [e], i)
    {
      MixedSnoc(trace, e, i);
      if out.Some? {
        ShownSnoc(shown, out.value, i);
      }
    }
  }

  lemma MixedSnoc(trace: seq<MixedEvent>, e: MixedEvent, i: nat)
    ensures NoFaultAt(trace + [e], i) <==>
            NoFaultAt(trace, i) && (e.Shared? && e.e.At? && e.e.leg == i ==> !e.e.IsFault())
  {
    var longer := trace + [e];
    assert longer[|trace|] == e && forall k :: 0 <= k < |trace| ==> longer[k] == trace[k];
  }

  lemma ShownSnoc(trace: seq<Event>, e: Event, i: nat)
    ensures FaultFreeAt(trace + [e], i) <==> FaultFreeAt(trace, i) && (e.At? && e.leg == i ==> !e.IsFault())
  {
    var longer := trace + [e];
    assert longer[|trace|] == e && forall k :: 0 <= k < |trace| ==> longer[k] == trace[k];
  }

  /** One event of a query with Python owners is one event of the gather machine or none. */
  lemma EventShows(c: Config, m: Mixed, e: MixedEvent) returns (shown: Option<Event>)
    requires MixedInv(c, m) && |m.s.legs| == |c.legs| && MixedEnabled(c, m, e)
    ensures MixedInv(c, MixedApply(c, m, e))
    ensures e.Shared? ==> shown == Some(e.e)
    ensures shown.Some? && e.Own? ==> !shown.value.IsFault()
    ensures shown.None? ==> AbsState(MixedApply(c, m, e)) == AbsState(m)
    ensures shown.Some? ==>
              EventEnabled(c, AbsState(m), shown.value)
              && ApplyEvent(c, AbsState(m), shown.value) == AbsState(MixedApply(c, m, e))
  {
    hide MixedInv, AbsState, MixedApply, EventEnabled, Shown, PyEnabled;
    match e
    case Own(i, step) =>
      assert i in m.owners && i < |m.s.legs|;
      OwnShows(c, m, i, step);
      shown := match Shown(SideOf(m, i), step) case None => None case Some(g) => Some(At(i, g));
    case Shared(e) =>
      shown := Some(e);
      match e {
        case At(i, step) => SharedStepShows(c, m, i, step);
        case Fetch(max) => FetchShows(c, m, max);
      }
  }

  /** Every run with Python owners is a run of the gather machine, with the same faults. */
  lemma {:induction false} IsGatherRun(c: Config, trace: seq<MixedEvent>, m: Mixed) returns (shown: seq<Event>)
    requires MixedRun(c, trace, m)
    ensures MixedInv(c, m) && |m.s.legs| == |c.legs| && Run(c, shown, AbsState(m))
    ensures forall i :: FaultFreeAt(shown, i) <==> NoFaultAt(trace, i)
    decreases |trace|
  {
    hide AbsState, MixedApply, MixedEnabled, EventEnabled, ApplyEvent, FaultFreeAt, NoFaultAt, SideOk, Run;
    if trace == [] {
      InitShows(c, m);
      shown := NoEvents(c, m);
    } else {
      var n := |trace| - 1;
      var prev: Mixed :| MixedRunStep(c, trace, prev, m);
      var before := IsGatherRun(c, trace[..n], prev);
      var e := EventShows(c, prev, trace[n]);
      assert trace == trace[..n] + [trace[n]];
      FaultsSnoc(trace[..n], before, trace[n], e);
      shown := before;
      if e.Some? {
        RunSnoc(c, before, AbsState(prev), e.value);
        shown := before + [e.value];
      }
    }
  }

  lemma NoEvents(c: Config, m: Mixed) returns (shown: seq<Event>)
    requires MixedInit(c, m) && AbsState(m) == m.s
    ensures Run(c, shown, AbsState(m)) && shown == []
    ensures forall i :: FaultFreeAt(shown, i) && NoFaultAt([], i)
  {
    shown := [];
  }

  // --- What carries over ------------------------------------------------------------------------

  /** Python owners hand out every row at most once and in order, under any interleaving and
      any faults; and when the last chunk is reported, an asked owner none of whose pulls
      failed has delivered its whole answer exactly when its forward reached it. */
  lemma PyExactlyOnce(c: Config, trace: seq<MixedEvent>, m: Mixed, i: nat)
    requires c.Valid() && MixedRun(c, trace, m) && i < |m.s.legs|
    ensures |m.s.legs| == |c.legs| && Increasing(Project(m.s.delivered, i))
    ensures m.s.finished && NoFaultAt(trace, i) && c.legs[i].eligible ==>
              (Project(m.s.delivered, i) == Range(0, c.legs[i].size) <==> Reached(c, i))
  {
    hide MixedRun, Run, AbsState, FaultFreeAt, NoFaultAt, Project;
    var shown := IsGatherRun(c, trace, m);
    NothingTwice(c, shown, AbsState(m), i);
    if m.s.finished && NoFaultAt(trace, i) {
      ExactlyOnce(c, shown, AbsState(m), i);
    }
  }

  // --- Owners without rows ----------------------------------------------------------------------

  /** A Python owner without rows that the query asks and reaches. */
  ghost predicate AsksEmpty(c: Config, m: Mixed, i: nat)
  {
    i in m.owners && i < |c.legs| && m.owners[i].empty && c.legs[i].eligible && c.legs[i].Answers()
  }

  /** The gateway still waits for the leg, and no pull in flight will end it. */
  ghost predicate Unanswered(l: Leg)
  {
    && l.registered && !l.done && !l.ownerDone && !l.prefetchDone
    && forall id :: id in l.calls ==>
         && !l.calls[id].NotFound? && (l.calls[id].SawDone? ==> !l.calls[id].done)
         && (l.calls[id].Checked? || l.calls[id].Replied? ==> !l.calls[id].last)
  }

  /** Replies are empty and not the last, and a pull that times out is asked again. */
  lemma StaysUnanswered(c: LegCfg, l: Leg, step: Step)
    requires Unanswered(l) && StepEnabled(c, l, step) && !step.IsProducer() && !step.Fail? && c.Answers()
    ensures Unanswered(Apply(c, l, step))
  {
  }

  /** The event at which the gateway gives up on owner `i`: a pull of it fails. */
  predicate IsFailAt(e: MixedEvent, i: nat)
  {
    e.Shared? && e.e.At? && e.e.leg == i && e.e.step.Fail?
  }

  lemma StepUnanswered(c: Config, m: Mixed, e: MixedEvent, i: nat)
    requires MixedInv(c, m) && MixedEnabled(c, m, e) && AsksEmpty(c, m, i) && !m.s.finished
    requires Unanswered(m.s.legs[i]) && !IsFailAt(e, i)
    ensures var after := MixedApply(c, m, e); !after.s.finished && Unanswered(after.s.legs[i])
  {
    hide Apply, Take, Project, SideOk;
    match e
    case Own(j, step) =>
      EmptyRests(m, i);
    case Shared(e) =>
      match e {
        case At(j, step) =>
          if j == i {
            StaysUnanswered(c.legs[i], m.s.legs[i], step);
          }
        case Fetch(max) =>
          FetchUnanswered(c, m.s, max, i);
      }
  }

  lemma EmptyRests(m: Mixed, i: nat)
    requires i < |m.s.legs| && i in m.owners && m.owners[i].empty && SideOk(SideOf(m, i))
    ensures m.owners[i].stage.Resting?
  {
  }

  lemma FetchUnanswered(c: Config, s: State, max: int, i: nat)
    requires 0 < i < |s.legs| == |c.legs| && Unanswered(s.legs[i])
    ensures var after := ApplyFetch(c, s, max); !after.finished && Unanswered(after.legs[i])
  {
    hide Take, Project;
    FetchAt(c, s, max, i);
  }

  lemma FetchAt(c: Config, s: State, max: int, i: nat)
    requires i < |s.legs| == |c.legs|
    ensures var out := Take(Sources(s.legs), max);
            |Project(out, i)| <= |Source(s.legs, i)| && ApplyFetch(c, s, max).legs[i] == DrainLeg(s.legs, out, i)
  {
    hide Take, Project;
    TakeIsFifo(Sources(s.legs), max, i);
  }

  /** Owners stay who they are, with their shards. */
  ghost predicate SameShards(a: Mixed, b: Mixed)
  {
    a.owners.Keys == b.owners.Keys && forall i :: i in a.owners ==> a.owners[i].empty == b.owners[i].empty
  }

  lemma KeepsShards(c: Config, m: Mixed, e: MixedEvent)
    requires |m.s.legs| == |c.legs| && MixedEnabled(c, m, e)
    ensures SameShards(m, MixedApply(c, m, e))
  {
    hide ApplyEvent, EventEnabled;
  }

  lemma StartsUnanswered(c: Config, m: Mixed, i: nat)
    requires MixedInit(c, m) && AsksEmpty(c, m, i)
    ensures !m.s.finished && i < |m.s.legs| && Unanswered(m.s.legs[i])
  {
    assert InitLeg(c.legs[i], m.s.legs[i], false);
  }

  lemma MarkStaysAt(c: LegCfg, l: Leg, step: Step)
    requires StepEnabled(c, l, step) && (l.ownerDone || step.Fail?)
    ensures Apply(c, l, step).ownerDone
  {
  }

  lemma MarkStays(c: Config, m: Mixed, e: MixedEvent, i: nat)
    requires |m.s.legs| == |c.legs| && MixedEnabled(c, m, e) && i < |m.s.legs|
    requires m.s.legs[i].ownerDone || IsFailAt(e, i)
    ensures MixedApply(c, m, e).s.legs[i].ownerDone
  {
    hide Take, Project, Apply, StepEnabled, ApplyFetch, FetchReady;
    match e
    case Own(j, step) =>
    case Shared(e) =>
      match e {
        case At(j, step) =>
          if j == i {
            MarkStaysAt(c.legs[i], m.s.legs[i], step);
          }
        case Fetch(max) =>
          FetchAt(c, m.s, max, i);
      }
  }

  lemma FailSnoc(trace: seq<MixedEvent>, i: nat)
    requires trace != []
    ensures var n := |trace| - 1;
            (exists k :: 0 <= k < |trace| && IsFailAt(trace[k], i))
            <==> (exists k :: 0 <= k < n && IsFailAt(trace[..n][k], i)) || IsFailAt(trace[n], i)
  {
    hide IsFailAt;
    var n := |trace| - 1;
    assert forall k :: 0 <= k < n ==> trace[..n][k] == trace[k];
  }

  /** An asked and reached owner without rows keeps the query waiting until a pull of it
      fails; time-outs do not help. */
  lemma {:induction false} EmptyWaits(c: Config, trace: seq<MixedEvent>, m: Mixed, i: nat)
    requires MixedRun(c, trace, m) && AsksEmpty(c, m, i)
    ensures i < |m.s.legs|
    ensures m.s.legs[i].ownerDone <==> exists k :: 0 <= k < |trace| && IsFailAt(trace[k], i)
    ensures !m.s.legs[i].ownerDone ==> !m.s.finished && Unanswered(m.s.legs[i])
    decreases |trace|
  {
    hide Unanswered, MixedInv, MixedApply, MixedEnabled, IsFailAt;
    if trace == [] {
      StartsUnanswered(c, m, i);
      NotMarked(m.s.legs[i]);
    } else {
      var n := |trace| - 1;
      var prev: Mixed :| MixedRunStep(c, trace, prev, m);
      KeepsShards(c, prev, trace[n]);
      var shown := IsGatherRun(c, trace[..n], prev);
      EmptyWaits(c, trace[..n], prev, i);
      FailSnoc(trace, i);
      if prev.s.legs[i].ownerDone || IsFailAt(trace[n], i) {
        MarkStays(c, prev, trace[n], i);
      } else {
        StepUnanswered(c, prev, trace[n], i);
        NotMarked(m.s.legs[i]);
      }
    }
  }

  lemma NotMarked(l: Leg)
    requires Unanswered(l)
    ensures !l.ownerDone
  {
  }

  /** A query that reaches a Python owner without rows never ends unless a pull of that owner
      fails, whatever times out and whatever fails elsewhere. */
  lemma EmptyNeverEnds(c: Config, trace: seq<MixedEvent>, m: Mixed, i: nat)
    requires MixedRun(c, trace, m) && AsksEmpty(c, m, i)
    requires forall k :: 0 <= k < |trace| ==> !IsFailAt(trace[k], i)
    ensures !m.s.finished
  {
    hide MixedRun, Unanswered;
    EmptyWaits(c, trace, m, i);
  }

  // --- Continuations ----------------------------------------------------------------------------

  /** The events `ext` lead from `m` to `reached`. */
  ghost predicate Leads(c: Config, m: Mixed, ext: seq<MixedEvent>, reached: Mixed)
    decreases |ext|
  {
    if ext == [] then m == reached
    else |m.s.legs| == |c.legs| && MixedEnabled(c, m, ext[0]) && Leads(c, MixedApply(c, m, ext[0]), ext[1..], reached)
  }

  ghost predicate Calm(ext: seq<MixedEvent>)
  {
    forall k :: 0 <= k < |ext| && ext[k].Shared? ==> !ext[k].e.IsFault()
  }

  /** A continuation without faults that ends the query. */
  ghost predicate Ends(c: Config, m: Mixed, ext: seq<MixedEvent>, reached: Mixed)
  {
    Leads(c, m, ext, reached) && Calm(ext) && reached.s.finished
  }

  lemma LeadsOne(c: Config, m: Mixed, e: MixedEvent)
    requires |m.s.legs| == |c.legs| && MixedEnabled(c, m, e)
    ensures Leads(c, m, [e], MixedApply(c, m, e))
  {
    hide MixedEnabled, MixedApply;
    assert [e][1..] == [];
  }

  lemma {:induction false} LeadsOn(c: Config, m: Mixed, a: seq<MixedEvent>, n: Mixed, b: seq<MixedEvent>, r: Mixed)
    requires Leads(c, m, a, n) && Leads(c, n, b, r)
    ensures Leads(c, m, a + b, r)
    decreases |a|
  {
    hide MixedEnabled, MixedApply;
    if a == [] {
      assert a + b == b;
    } else {
      LeadsOn(c, MixedApply(c, m, a[0]), a[1..], n, b, r);
      assert (a + b)[1..] == a[1..] + b;
    }
  }

  lemma MixedRunSnoc(c: Config, trace: seq<MixedEvent>, m: Mixed, e: MixedEvent)
    requires MixedRun(c, trace, m) && |m.s.legs| == |c.legs| && MixedEnabled(c, m, e)
    ensures MixedRun(c, trace + [e], MixedApply(c, m, e))
  {
    assert (trace + [e])[..|trace|] == trace;
    assert MixedRunStep(c, trace + [e], m, MixedApply(c, m, e));
  }

  lemma {:induction false} LeadsRun(c: Config, trace: seq<MixedEvent>, m: Mixed, ext: seq<MixedEvent>, reached: Mixed)
    requires MixedRun(c, trace, m) && Leads(c, m, ext, reached)
    ensures MixedRun(c, trace + ext, reached) && SameShards(m, reached)
    decreases |ext|
  {
    hide MixedRun, MixedEnabled, MixedApply;
    if ext == [] {
      assert trace + ext == trace;
    } else {
      MixedRunSnoc(c, trace, m, ext[0]);
      KeepsShards(c, m, ext[0]);
      LeadsRun(c, trace + [ext[0]], MixedApply(c, m, ext[0]), ext[1..], reached);
      assert trace + ext == (trace + [ext[0]]) + ext[1..];
    }
  }

  /** The producer's next step towards a given step of the gather machine. */
  function Towards(x: Side, g: Step): PyStep
    requires g.IsProducer()
  {
    match g
    case BeginTick => if x.own.stage.Resting? then Choose else Check
    case Push => Append
    case EndTick => Leave
    case FinishTick => if x.own.stage.Storing? then Store else Mark
    case _ => Mark
  }

  lemma TowardsEnabled(c: LegCfg, x: Side, g: Step)
    requires SideOk(x) && !x.own.empty && g.IsProducer() && StepEnabled(c, Abs(x), g)
    ensures PyEnabled(c, x, Towards(x, g))
    ensures var y := PyApply(c, x, Towards(x, g));
            !y.own.empty && (Shown(x, Towards(x, g)) == Some(g)
                             || (Shown(x, Towards(x, g)).None? && Shown(y, Towards(y, g)) == Some(g)))
  {
  }

  /** One or two producer steps of owner `i` that show as the given step. */
  lemma Produces(c: Config, m: Mixed, i: nat, g: Step) returns (ext: seq<MixedEvent>, after: Mixed)
    requires MixedInv(c, m) && i in m.owners && !m.owners[i].empty
    requires g.IsProducer() && EventEnabled(c, AbsState(m), At(i, g))
    ensures Leads(c, m, ext, after) && Calm(ext)
    ensures AbsState(after) == ApplyEvent(c, AbsState(m), At(i, g))
  {
    hide Leads, AbsState, SideOk, Apply, Abs, PyApply, PyEnabled, Shown, Towards;
    var x := SideOf(m, i);
    TowardsAt(c, m, i, g);
    TowardsEnabled(c.legs[i], x, g);
    var e := Own(i, Towards(x, g));
    LeadsOne(c, m, e);
    OwnShows(c, m, i, e.step);
    after := MixedApply(c, m, e);
    ext := [e];
    if Shown(x, e.step) != Some(g) {
      TowardsAt(c, after, i, g);
      var y := SideOf(after, i);
      TowardsEnabled(c.legs[i], y, g);
      var e2 := Own(i, Towards(y, g));
      LeadsOne(c, after, e2);
      OwnShows(c, after, i, e2.step);
      LeadsOn(c, m, [e], after, [e2], MixedApply(c, after, e2));
      after := MixedApply(c, after, e2);
      ext := [e] + [e2];
    }
  }

  lemma TowardsAt(c: Config, m: Mixed, i: nat, g: Step)
    requires i in m.owners && |m.s.legs| == |c.legs| && EventEnabled(c, AbsState(m), At(i, g))
    ensures i < |m.s.legs| && StepEnabled(c.legs[i], Abs(SideOf(m, i)), g)
  {
    hide StepEnabled, Abs;
  }

  lemma OtherEnabled(c: LegCfg, x: Side, step: Step)
    requires StepEnabled(c, Abs(x), step) && !step.IsProducer()
    ensures StepEnabled(c, x.leg, step)
  {
  }

  lemma SharedEnabled(c: Config, m: Mixed, e: Event)
    requires MixedInv(c, m) && EventEnabled(c, AbsState(m), e)
    requires e.At? && e.leg in m.owners ==> !e.step.IsProducer()
    ensures MixedEnabled(c, m, Shared(e))
  {
    hide StepEnabled, Abs, SideOk, Source, LegDrained;
    match e
    case At(i, step) =>
      if i in m.owners {
        OtherEnabled(c.legs[i], SideOf(m, i), step);
      }
    case Fetch(max) =>
      ReadyShows(m);
  }

  lemma DrainLegSame(m: Mixed, i: nat)
    requires 0 !in m.owners && i < |m.s.legs|
    ensures Source(AbsLegs(m), i) == Source(m.s.legs, i)
    ensures LegDrained(AbsLegs(m), i) <==> LegDrained(m.s.legs, i)
  {
  }

  /** Whether the event makes a Python owner without rows produce. */
  predicate EmptyProduces(m: Mixed, e: Event)
  {
    e.At? && e.leg in m.owners && e.step.IsProducer() && m.owners[e.leg].empty
  }

  /** Whatever the gather machine can do next, the query with Python owners can do as well,
      except for making an owner without rows produce. */
  lemma Follows(c: Config, m: Mixed, e: Event) returns (ext: seq<MixedEvent>, after: Mixed)
    requires MixedInv(c, m) && EventEnabled(c, AbsState(m), e) && !e.IsFault() && !EmptyProduces(m, e)
    ensures Leads(c, m, ext, after) && Calm(ext)
    ensures AbsState(after) == ApplyEvent(c, AbsState(m), e)
  {
    hide Leads, AbsState, EventEnabled, MixedEnabled, ApplyEvent, SideOk;
    if e.At? && e.leg in m.owners && e.step.IsProducer() {
      ext, after := Produces(c, m, e.leg, e.step);
    } else {
      SharedEnabled(c, m, e);
      LeadsOne(c, m, Shared(e));
      var shown := EventShows(c, m, Shared(e));
      ext, after := [Shared(e)], MixedApply(c, m, Shared(e));
    }
  }

  // --- Exactly when a query can end -------------------------------------------------------------

  /** The gateway has given up on every owner without rows that the query asks and reaches. */
  ghost predicate NoneAwaited(c: Config, m: Mixed)
  {
    forall i: nat :: AsksEmpty(c, m, i) && i < |m.s.legs| ==> m.s.legs[i].ownerDone
  }

  /** A leg that keeps FetchChunk waiting has a step that leaves less work, and is not one of
      an owner without rows. */
  lemma AwaitedWorks(c: Config, m: Mixed, i: nat, d: seq<nat>) returns (step: Step)
    requires |m.s.legs| == |c.legs| && i < |c.legs| && NoneAwaited(c, m) && 0 !in m.owners
    requires LegInv(c.legs[i], AbsLegs(m)[i], d, i == 0) && c.legs[i].quantum > 0 && c.legs[i].chunkMax >= 1
    requires Source(AbsLegs(m), i) == [] && !LegDrained(AbsLegs(m), i)
    ensures StepEnabled(c.legs[i], AbsLegs(m)[i], step) && !step.IsFault() && !EmptyProduces(m, At(i, step))
    ensures LegWork(c.legs[i], Apply(c.legs[i], AbsLegs(m)[i], step), i == 0)
          < LegWork(c.legs[i], AbsLegs(m)[i], i == 0)
  {
    hide LegWork, Apply, StepEnabled, Flow, Increasing, CallsOk, ProducerOk, OwnerOk;
    if i in m.owners && m.owners[i].empty {
      assert AbsLegs(m)[i].ownerDone == m.s.legs[i].ownerDone;
      step := CutOffWorks(c.legs[i], AbsLegs(m), i, d);
    } else {
      step := LegWorks(c.legs[i], AbsLegs(m), i, d);
    }
  }

  /** The next event of the completion. */
  lemma NextMixed(c: Config, trace: seq<MixedEvent>, m: Mixed) returns (e: Event)
    requires c.Valid() && (forall i :: 0 <= i < |c.legs| ==> c.legs[i].chunkMax >= 1)
    requires MixedRun(c, trace, m) && !m.s.finished && NoneAwaited(c, m)
    ensures MixedInv(c, m) && |m.s.legs| == |c.legs|
    ensures EventEnabled(c, AbsState(m), e) && !e.IsFault() && !EmptyProduces(m, e)
    ensures var after := ApplyEvent(c, AbsState(m), e);
            after.finished || Work(c, after.legs, |c.legs|) < Work(c, AbsLegs(m), |c.legs|)
  {
    hide MixedRun, Run, LegInv, Work, LegWork, NoneAwaited, SideOk, Source, LegDrained;
    var shown := IsGatherRun(c, trace, m);
    var s := AbsState(m);
    RunInv(c, shown, s);
    if FetchReady(s.legs) {
      e := Fetch(1);
      FetchWorks(c, s);
    } else {
      var i: nat :| i < |s.legs| && !LegDrained(s.legs, i);
      var step := AwaitedWorks(c, m, i, Project(s.delivered, i));
      e := At(i, step);
      StepWorks(c, s, i, step);
    }
  }

  /** A query can be brought to its end, whatever happened so far and without further faults,
      as soon as the gateway awaits no owner without rows. */
  lemma {:induction false} PyCanComplete(c: Config, trace: seq<MixedEvent>, m: Mixed)
      returns (ext: seq<MixedEvent>, reached: Mixed)
    requires c.Valid() && (forall i :: 0 <= i < |c.legs| ==> c.legs[i].chunkMax >= 1)
    requires MixedRun(c, trace, m) && NoneAwaited(c, m)
    ensures Ends(c, m, ext, reached)
    decreases if m.s.finished then 0 else 1, if |m.s.legs| == |c.legs| then Work(c, AbsLegs(m), |c.legs|) else 0
  {
    hide MixedRun, Run, Work, ApplyEvent, EventEnabled, MixedInv, NoneAwaited;
    ext, reached := [], m;
    if !m.s.finished {
      var e := NextMixed(c, trace, m);
      var first, next := Follows(c, m, e);
      LeadsRun(c, trace, m, first, next);
      StillNoneAwaited(c, trace, m, first, next);
      assert AbsState(next).finished || Work(c, AbsLegs(next), |c.legs|) < Work(c, AbsLegs(m), |c.legs|);
      ext, reached := PyCanComplete(c, trace + first, next);
      LeadsOn(c, m, first, next, ext, reached);
      ext := first + ext;
    }
  }

  lemma StillNoneAwaited(c: Config, trace: seq<MixedEvent>, m: Mixed, ext: seq<MixedEvent>, next: Mixed)
    requires MixedRun(c, trace, m) && NoneAwaited(c, m) && Leads(c, m, ext, next)
    ensures NoneAwaited(c, next)
  {
    hide MixedRun, Leads, Unanswered;
    LeadsRun(c, trace, m, ext, next);
    forall i: nat | AsksEmpty(c, next, i) && i < |next.s.legs|
      ensures next.s.legs[i].ownerDone
    {
      EmptyWaits(c, trace, m, i);
      var k :| 0 <= k < |trace| && IsFailAt(trace[k], i);
      assert IsFailAt((trace + ext)[k], i);
      EmptyWaits(c, trace + ext, next, i);
    }
  }

  /** Exactly when a query can still end without further faults: no owner without rows that it
      asks and reaches is awaited, in that every one of them has had a pull fail. */
  lemma PyEndsExactly(c: Config, trace: seq<MixedEvent>, m: Mixed)
    requires c.Valid() && (forall i :: 0 <= i < |c.legs| ==> c.legs[i].chunkMax >= 1) && MixedRun(c, trace, m)
    ensures (exists ext: seq<MixedEvent>, reached: Mixed :: Ends(c, m, ext, reached)) <==> NoneAwaited(c, m)
    ensures NoneAwaited(c, m) <==>
            forall i: nat :: AsksEmpty(c, m, i) ==> exists k :: 0 <= k < |trace| && IsFailAt(trace[k], i)
  {
    hide MixedRun, Leads, Unanswered, AsksEmpty;
    forall i: nat | AsksEmpty(c, m, i)
      ensures i < |m.s.legs|
      ensures m.s.legs[i].ownerDone <==> exists k :: 0 <= k < |trace| && IsFailAt(trace[k], i)
    {
      EmptyWaits(c, trace, m, i);
    }
    if NoneAwaited(c, m) {
      var ext, reached := PyCanComplete(c, trace, m);
    }
    if ext: seq<MixedEvent>, reached: Mixed :| Ends(c, m, ext, reached) {
      forall i: nat | AsksEmpty(c, m, i)
        ensures m.s.legs[i].ownerDone
      {
        OnlyFailsEnd(c, trace, m, ext, reached, i);
      }
    }
  }

  lemma OnlyFailsEnd(c: Config, trace: seq<MixedEvent>, m: Mixed, ext: seq<MixedEvent>, reached: Mixed, i: nat)
    requires MixedRun(c, trace, m) && Ends(c, m, ext, reached) && AsksEmpty(c, m, i)
    ensures i < |m.s.legs| && m.s.legs[i].ownerDone
  {
    hide MixedRun, Leads, Unanswered;
    LeadsRun(c, trace, m, ext, reached);
    EmptyWaits(c, trace, m, i);
    EmptyWaits(c, trace + ext, reached, i);
    CalmIsFailFree(trace, ext, i);
  }

  lemma CalmIsFailFree(trace: seq<MixedEvent>, ext: seq<MixedEvent>, i: nat)
    requires Calm(ext) && exists k :: 0 <= k < |trace + ext| && IsFailAt((trace + ext)[k], i)
    ensures exists k :: 0 <= k < |trace| && IsFailAt(trace[k], i)
  {
    var k :| 0 <= k < |trace + ext| && IsFailAt((trace + ext)[k], i);
    var e := (trace + ext)[k];
    assert k >= |trace| ==> e == ext[k - |trace|];
    assert e.e.IsFault();
    assert k < |trace| && trace[k] == e;
  }

  lemma StartRuns(c: Config, m: Mixed)
    requires MixedInit(c, m)
    ensures MixedRun(c, [], m)
  {
  }

  /** So a fresh query can end without faults exactly when it asks and reaches no Python owner
      without rows. */
  lemma PyEndsFromStart(c: Config, m: Mixed)
    requires c.Valid() && (forall i :: 0 <= i < |c.legs| ==> c.legs[i].chunkMax >= 1) && MixedInit(c, m)
    ensures (exists ext: seq<MixedEvent>, reached: Mixed :: Ends(c, m, ext, reached)) <==>
            forall i: nat :: !AsksEmpty(c, m, i)
  {
    hide MixedInit, Ends, AsksEmpty, NoneAwaited;
    PyEndsExactly(c, [], m);
  }

  // --- Undisturbed ticks and pulls --------------------------------------------------------------

  /** The record of `PyOwner` says what the side says; there rows are what the positions of
      the match list hold. */
  ghost predicate Holds(r: PyOwner.Request, x: Side, answer: seq<nat>)
  {
    && !x.own.empty && r.indices == Some(answer) && r.cursor == x.own.cursor && r.done == x.leg.done
    && |r.matched| == |x.leg.matched|
    && forall k :: 0 <= k < |r.matched| ==> x.leg.matched[k] < |answer| && r.matched[k] == answer[x.leg.matched[k]]
  }

  /** Registration leaves the record with which the run begins: at a shard with rows the match list
      that is searched, done at once if it is empty; at one without rows no list, and never done. */
  lemma RegisteredStarts(c: Config, m: Mixed, i: nat, n: nat, canMatch: bool, answer: seq<nat>)
    requires MixedInit(c, m) && i in m.owners && i < |c.legs| && c.legs[i].size == |answer|
    requires (n == 0 || !canMatch ==> answer == []) && (m.owners[i].empty <==> n == 0)
    ensures i < |m.s.legs|
    ensures var r := PyOwner.Registered(n, canMatch, answer);
            && r.done == m.s.legs[i].done
            && if n > 0 then Holds(r, SideOf(m, i), answer) else r.indices.None? && r.matched == m.s.legs[i].matched
  {
    assert InitLeg(c.legs[i], m.s.legs[i], i == 0);
  }

  /** The steps can be taken one after the other, and lead from `x` to `y`. */
  ghost predicate Steps(c: LegCfg, x: Side, steps: seq<PyStep>, y: Side)
    decreases |steps|
  {
    if steps == [] then x == y
    else PyEnabled(c, x, steps[0]) && Steps(c, PyApply(c, x, steps[0]), steps[1..], y)
  }

  lemma FirstStep(c: LegCfg, x: Side, step: PyStep, rest: seq<PyStep>, y: Side)
    requires PyEnabled(c, x, step) && Steps(c, PyApply(c, x, step), rest, y)
    ensures Steps(c, x, [step] + rest, y)
  {
    assert ([step] + rest)[1..] == rest;
  }

  lemma AppendIs(c: LegCfg, x: Side, stop: nat)
    requires x.own.stage.Looping? && x.own.stage.i < stop <= x.own.stage.end
    ensures PyEnabled(c, x, Append)
    ensures var z, i := PyApply(c, x, Append), x.own.stage.i;
            && z.leg == x.leg.(matched := x.leg.matched + [i])
            && z.own == x.own.(stage := if |x.leg.matched| + 1 >= MAX_BUFFERED then Storing(i + 1)
                                        else Looping(i + 1, x.own.stage.end))
  {
  }

  lemma LeaveIs(c: LegCfg, x: Side)
    requires x.own.stage.Looping? && x.own.stage.i >= x.own.stage.end
    ensures PyEnabled(c, x, Leave) && PyApply(c, x, Leave) == x.(own := x.own.(stage := Storing(x.own.stage.i)))
  {
  }

  lemma RangeFirst(m: seq<nat>, i: nat, stop: nat)
    requires i < stop
    ensures (m + [i]) + Range(i + 1, stop) == m + Range(i, stop)
  {
  }

  lemma NoRange(i: nat)
    ensures Range(i, i) == []
  {
  }

  lemma LeaveBlocks(c: LegCfg, x: Side) returns (steps: seq<PyStep>, y: Side)
    requires x.own.stage.Looping? && x.own.stage.i == x.own.stage.end
    ensures Steps(c, x, steps, y) && y.own == x.own.(stage := Storing(x.own.stage.i))
    ensures y.leg == x.leg.(matched := x.leg.matched + Range(x.own.stage.i, x.own.stage.i))
  {
    hide Steps, PyApply, PyEnabled, Range;
    LeaveIs(c, x);
    y := PyApply(c, x, Leave);
    FullBlocks(c, y);
    FirstStep(c, x, Leave, [], y);
    steps := [Leave] + [];
  }

  lemma FullBlocks(c: LegCfg, x: Side)
    requires x.own.stage.Storing?
    ensures Steps(c, x, [], x) && x.leg == x.leg.(matched := x.leg.matched + Range(x.own.stage.i, x.own.stage.i))
  {
    hide Range;
    NoRange(x.own.stage.i);
    assert x.leg.matched + [] == x.leg.matched;
  }

  /** The row loop of a tick that stops at `stop`. */
  lemma {:induction false} LoopBlocks(c: LegCfg, x: Side, stop: nat) returns (steps: seq<PyStep>, y: Side)
    requires x.own.stage.Looping? && x.own.stage.i <= stop <= x.own.stage.end
    requires |x.leg.matched| + (stop - x.own.stage.i) <= MAX_BUFFERED && |x.leg.matched| < MAX_BUFFERED
    requires stop < x.own.stage.end ==> |x.leg.matched| + (stop - x.own.stage.i) == MAX_BUFFERED
    ensures Steps(c, x, steps, y) && y.own == x.own.(stage := Storing(stop))
    ensures y.leg == x.leg.(matched := x.leg.matched + Range(x.own.stage.i, stop))
    decreases stop - x.own.stage.i
  {
    hide Steps, PyApply, PyEnabled, Range;
    var i := x.own.stage.i;
    if i == stop {
      steps, y := LeaveBlocks(c, x);
    } else {
      AppendIs(c, x, stop);
      RangeFirst(x.leg.matched, i, stop);
      var z := PyApply(c, x, Append);
      if z.own.stage.Storing? {
        FullBlocks(c, z);
        steps, y := [], z;
      } else {
        steps, y := LoopBlocks(c, z, stop);
      }
      FirstStep(c, x, Append, steps, y);
      steps := [Append] + steps;
    }
  }

  lemma NoSteps(c: LegCfg, x: Side)
    ensures Steps(c, x, [], x)
  {
  }

  lemma {:induction false} StepsConcat(c: LegCfg, x: Side, a: seq<PyStep>, y: Side, b: seq<PyStep>, z: Side)
    requires Steps(c, x, a, y) && Steps(c, y, b, z)
    ensures Steps(c, x, a + b, z)
    decreases |a|
  {
    hide PyEnabled, PyApply;
    if a == [] {
      assert a + b == b;
    } else {
      StepsConcat(c, PyApply(c, x, a[0]), a[1..], y, b, z);
      assert (a + b)[1..] == a[1..] + b;
    }
  }

  lemma TwoSteps(c: LegCfg, x: Side, a: PyStep, b: PyStep)
    requires PyEnabled(c, x, a) && PyEnabled(c, PyApply(c, x, a), b)
    ensures Steps(c, x, [a, b], PyApply(c, PyApply(c, x, a), b))
  {
    hide PyEnabled, PyApply, Steps;
    var y := PyApply(c, x, a);
    NoSteps(c, PyApply(c, y, b));
    FirstStep(c, y, b, [], PyApply(c, y, b));
    assert [b] + [] == [b] && [a] + [b] == [a, b];
    FirstStep(c, x, a, [b], PyApply(c, y, b));
  }

  /** The tick of `PyOwner` is what the steps of one undisturbed tick add up to. */
  lemma TickIsSteps(c: LegCfg, x: Side, r: PyOwner.Request, answer: seq<nat>)
      returns (steps: seq<PyStep>, y: Side)
    requires r.Valid() && Holds(r, x, answer) && c.size == |answer| && c.quantum > 0
    requires x.own.stage.Resting? && x.leg.registered
    ensures Steps(c, x, steps, y) && y.own.stage.Resting? && Holds(PyOwner.Ticked(r, c.quantum), y, answer)
  {
    hide Steps, Holds;
    steps, y := [], x;
    NoSteps(c, x);
    if r.done || |r.matched| >= MAX_BUFFERED {
      IdleTick(r, c.quantum);
    } else {
      StartHolds(r, x, answer);
      var i := Min(Min(c.size, r.cursor + c.quantum), r.cursor + (MAX_BUFFERED - |r.matched|));
      var a := PyApply(c, PyApply(c, x, Choose), Check);
      TwoSteps(c, x, Choose, Check);
      var loop, b := LoopBlocks(c, a, i);
      y := PyApply(c, PyApply(c, b, Store), Mark);
      TwoSteps(c, b, Store, Mark);
      StepsConcat(c, a, loop, b, [Store, Mark], y);
      StepsConcat(c, x, [Choose, Check], a, loop + [Store, Mark], y);
      steps := [Choose, Check] + (loop + [Store, Mark]);
      TickHolds(c, x, r, answer, i, y);
    }
  }

  lemma IdleTick(r: PyOwner.Request, quantum: nat)
    requires r.Valid() && (r.done || |r.matched| >= MAX_BUFFERED)
    ensures PyOwner.Ticked(r, quantum) == r
  {
  }

  lemma StartHolds(r: PyOwner.Request, x: Side, answer: seq<nat>)
    requires Holds(r, x, answer)
    ensures !x.own.empty && r.indices == Some(answer) && r.cursor == x.own.cursor && r.done == x.leg.done
    ensures |r.matched| == |x.leg.matched|
  {
  }

  lemma TickHolds(c: LegCfg, x: Side, r: PyOwner.Request, answer: seq<nat>, i: nat, y: Side)
    requires Holds(r, x, answer) && r.Valid() && c.size == |answer| && !r.done && |r.matched| < MAX_BUFFERED
    requires i == Min(Min(c.size, r.cursor + c.quantum), r.cursor + (MAX_BUFFERED - |r.matched|))
    requires y.own == Owner(false, Resting, i)
    requires y.leg.matched == x.leg.matched + Range(x.own.cursor, i) && y.leg.done == (i >= c.size)
    ensures Holds(PyOwner.Ticked(r, c.quantum), y, answer)
  {
    var t, n := PyOwner.Ticked(r, c.quantum), |r.matched|;
    assert t == PyOwner.Request(r.indices, i, r.matched + answer[r.cursor..i], i >= c.size);
    forall k | 0 <= k < |t.matched|
      ensures y.leg.matched[k] < |answer| && t.matched[k] == answer[y.leg.matched[k]]
    {
      if k >= n {
        assert y.leg.matched[k] == r.cursor + (k - n);
      }
    }
  }

  /** The three blocks of a pull in a row. */
  function PullBlocks(c: LegCfg, l: Leg, id: nat, max: int): Leg
    requires id in l.calls && l.calls[id].Found? && max <= c.chunkMax
  {
    Apply(c, Apply(c, Apply(c, l, DrainCall(id, max)), ReadDone(id)), Recheck(id))
  }

  /** The pull of `PyOwner` is what its blocks add up to when nothing comes between. */
  lemma PullIsSteps(c: LegCfg, x: Side, id: nat, max: int, r: PyOwner.Request, answer: seq<nat>)
    requires r.Valid() && Holds(r, x, answer) && id in x.leg.calls && x.leg.calls[id].Found? && max <= c.chunkMax
    ensures var l, n := PullBlocks(c, x.leg, id, max), PyOwner.Taken(r, max);
            && Holds(PyOwner.Pulled(r, max), x.(leg := l), answer)
            && id in l.calls && l.calls[id].Checked? && (l.calls[id].last <==> PyOwner.Last(r))
            && var out := l.calls[id].out;
            && |out| == n && forall k :: 0 <= k < n ==> out[k] < |answer| && r.matched[k] == answer[out[k]]
  {
    var l, n := PullBlocks(c, x.leg, id, max), PyOwner.Taken(r, max);
    assert l.matched == x.leg.matched[n..] && l.calls[id].out == x.leg.matched[..n];
  }
}
