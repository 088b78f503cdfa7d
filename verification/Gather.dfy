/** The scatter/gather pull protocol of one request, as a step machine.

    Leg 0 is the gateway's own shard; every other leg is one remote data owner.
    A row is named by its position in its owner's match list.  Each
    mutex-protected block of the servers is one step; the store to
    `done_producing` is a step of its own, and PullChunk is looked up, drained,
    reads the flag, re-checks the deque and replies in separate steps.  Timed
    out calls keep running at the owner while the gateway retries. */
module Gather {
  import opened Basics
  import opened Drain

  const MAX_BUFFERED: nat := 8192

  // --- Configuration of a request -------------------------------------------

  /** What is fixed about one leg once SubmitQuery has returned.
      `size` is the length of the match list, `quantum` the rows per producer
      tick, `delivered` whether the forward's transport status was ok (all the
      gateway looks at), `accepted` whether the target owner registered the request,
      and `servable` whether the owner has a non-empty partition. */
  datatype LegCfg = LegCfg(size: nat, quantum: nat, eligible: bool, delivered: bool,
                           accepted: bool, servable: bool, chunkMax: nat)
  {
    /** The gateway pulls from this owner, and the owner answers with rows. */
    predicate Answers()
    {
      delivered && accepted && servable
    }
  }

  datatype Config = Config(legs: seq<LegCfg>, gatewayOwnsData: bool)
  {
    ghost predicate Valid()
    {
      && |legs| > 0
      && (forall i :: 0 <= i < |legs| ==> legs[i].quantum > 0)
      && (forall i :: 0 <= i < |legs| && !legs[i].servable ==> legs[i].size == 0)
      && (!gatewayOwnsData ==> legs[0].size == 0 && !legs[0].eligible)
    }

  }

  // --- State -----------------------------------------------------------------

  datatype Producer = Idle | Pushing(limit: nat) | Finishing

  /** A PullChunk call as it moves through the owner and back. */
  datatype Call =
    | Sent
    | Found
    | Drained(out: seq<nat>)
    | SawDone(out: seq<nat>, done: bool)
    | Checked(out: seq<nat>, last: bool)
    | Replied(out: seq<nat>, last: bool)
    | NotFound
  {
    function Rows(): seq<nat>
    {
      if Sent? || Found? || NotFound? then [] else out
    }
  }

  datatype Prefetcher = Waiting | Calling(id: nat) | Stopped

  datatype Leg = Leg(
    // at the owner
    registered: bool, cursor: nat, producer: Producer, matched: seq<nat>, done: bool,
    // calls, live and abandoned
    calls: map<nat, Call>, nextCall: nat,
    // at the gateway
    slot: seq<nat>, prefetcher: Prefetcher, prefetchDone: bool, ownerDone: bool, responded: bool)
  {
    /** Rows carried by the call the prefetcher is still waiting for. */
    function Live(): seq<nat>
    {
      if prefetcher.Calling? && prefetcher.id in calls then calls[prefetcher.id].Rows() else []
    }
  }

  datatype State = State(legs: seq<Leg>, delivered: seq<Emit<nat>>, fetches: nat, finished: bool)

  // --- Steps -----------------------------------------------------------------

  datatype Step =
    | BeginTick | Push | EndTick | FinishTick
    | Lookup(id: nat) | DrainCall(id: nat, max: int) | ReadDone(id: nat) | Recheck(id: nat) | Reply(id: nat)
    | Issue | Receive | Refuse | Timeout | Fail
  {
    /** The reply was lost in time, or the call broke.  A NOT_FOUND reply is neither. */
    predicate IsFault()
    {
      Timeout? || Fail?
    }

    predicate IsProducer()
    {
      BeginTick? || Push? || EndTick? || FinishTick?
    }
  }

  datatype Event = At(leg: nat, step: Step) | Fetch(max: int)
  {
    predicate IsFault()
    {
      At? && step.IsFault()
    }
  }

  predicate StepEnabled(c: LegCfg, l: Leg, step: Step)
  {
    match step
    case BeginTick => l.registered && l.producer.Idle? && !l.done && |l.matched| < MAX_BUFFERED
    case Push => l.producer.Pushing? && l.cursor < l.producer.limit
    case EndTick => l.producer.Pushing? && l.cursor >= l.producer.limit
    case FinishTick => l.producer.Finishing?
    case Lookup(id) => id in l.calls && l.calls[id].Sent?
    case DrainCall(id, max) => id in l.calls && l.calls[id].Found? && max <= c.chunkMax
    case ReadDone(id) => id in l.calls && l.calls[id].Drained?
    case Recheck(id) => id in l.calls && l.calls[id].SawDone?
    case Reply(id) => id in l.calls && l.calls[id].Checked?
    case Issue => l.prefetcher.Waiting? && l.slot == []
    case Receive => l.prefetcher.Calling? && l.prefetcher.id in l.calls && l.calls[l.prefetcher.id].Replied?
    case Refuse => l.prefetcher.Calling? && l.prefetcher.id in l.calls && l.calls[l.prefetcher.id].NotFound?
    case Timeout => l.prefetcher.Calling?
    case Fail => l.prefetcher.Calling?
  }

  function Apply(c: LegCfg, l: Leg, step: Step): Leg
    requires StepEnabled(c, l, step)
  {
    match step
    case BeginTick =>
      l.(producer := Pushing(Min(c.size, l.cursor + c.quantum)))
    case Push =>
      var matched := l.matched + [l.cursor];
      l.(matched := matched, cursor := l.cursor + 1,
         producer := if |matched| >= MAX_BUFFERED then Finishing else l.producer)
    case EndTick => l.(producer := Finishing)
    case FinishTick => l.(producer := Idle, done := l.done || l.cursor >= c.size)
    case Lookup(id) =>
      l.(calls := l.calls[id := if l.registered && c.servable then Found else NotFound])
    case DrainCall(id, max) =>
      var k := if max <= 0 then 0 else Min(max, |l.matched|);
      l.(calls := l.calls[id := Drained(l.matched[..k])], matched := l.matched[k..])
    case ReadDone(id) =>
      l.(calls := l.calls[id := SawDone(l.calls[id].out, l.done)])
    case Recheck(id) =>
      var call := l.calls[id];
      l.(calls := l.calls[id := Checked(call.out, call.done && l.matched == [] && call.out == [])])
    case Reply(id) =>
      var call := l.calls[id];
      l.(calls := l.calls[id := Replied(call.out, call.last)], registered := l.registered && !call.last)
    case Issue =>
      l.(calls := l.calls[l.nextCall := Sent], nextCall := l.nextCall + 1, prefetcher := Calling(l.nextCall))
    case Receive =>
      var call := l.calls[l.prefetcher.id];
      l.(calls := l.calls - {l.prefetcher.id}, slot := l.slot + call.out, responded := true,
         prefetchDone := l.prefetchDone || call.last,
         prefetcher := if call.last then Stopped else Waiting)
    case Refuse =>
      l.(calls := l.calls - {l.prefetcher.id}, prefetcher := Stopped, prefetchDone := true, ownerDone := true)
    case Timeout => l.(prefetcher := Waiting)
    case Fail => l.(prefetcher := Stopped, prefetchDone := true, ownerDone := true)
  }

  /** Only a new pull takes a new number. */
  lemma NextCallIs(c: LegCfg, l: Leg, step: Step)
    requires StepEnabled(c, l, step)
    ensures Apply(c, l, step).nextCall == l.nextCall + (if step.Issue? then 1 else 0)
  {
    match step
    case Lookup(_) =>
    case DrainCall(_, _) =>
    case ReadDone(_) =>
    case Recheck(_) =>
    case Reply(_) =>
    case Receive =>
    case Refuse =>
    case _ =>
  }

  /** The row sources of a FetchChunk: the local deque and the prefetch slots. */
  function Source(legs: seq<Leg>, i: nat): seq<nat>
    requires i < |legs|
  {
    if i == 0 then legs[i].matched else legs[i].slot
  }

  function Sources(legs: seq<Leg>): (r: seq<seq<nat>>)
    ensures |r| == |legs| && forall i: nat :: i < |legs| ==> r[i] == Source(legs, i)
  {
    seq(|legs|, i requires 0 <= i < |legs| => Source(legs, i))
  }

  predicate HaveData(legs: seq<Leg>)
  {
    exists i: nat :: i < |legs| && Source(legs, i) != []
  }

  /** A leg that will yield nothing more to the gateway. */
  predicate LegDrained(legs: seq<Leg>, i: nat)
    requires i < |legs|
  {
    var l := legs[i];
    if i == 0 then l.done && l.matched == []
    else l.ownerDone || (l.prefetchDone && l.slot == [])
  }

  predicate AllDrained(legs: seq<Leg>)
  {
    forall i: nat :: i < |legs| ==> LegDrained(legs, i)
  }

  /** The wait condition of FetchChunk (cancellation ends the run and is not modelled). */
  predicate FetchReady(legs: seq<Leg>)
  {
    HaveData(legs) || AllDrained(legs)
  }

  function DrainLeg(legs: seq<Leg>, out: seq<Emit<nat>>, i: nat): Leg
    requires i < |legs| && |Project(out, i)| <= |Source(legs, i)|
  {
    var rest := Source(legs, i)[|Project(out, i)|..];
    var l := if i == 0 then legs[i].(matched := rest) else legs[i].(slot := rest);
    var finished := if i == 0 then l.done && l.matched == [] else l.prefetchDone && l.slot == [];
    l.(ownerDone := l.ownerDone || finished)
  }

  function DrainLegs(legs: seq<Leg>, out: seq<Emit<nat>>): (r: seq<Leg>)
    requires forall i: nat :: i < |legs| ==> |Project(out, i)| <= |Source(legs, i)|
    ensures |r| == |legs| && forall i: nat :: i < |legs| ==> r[i] == DrainLeg(legs, out, i)
  {
    seq(|legs|, i requires 0 <= i < |legs| => DrainLeg(legs, out, i))
  }

  predicate AllOwnersDone(c: Config, legs: seq<Leg>)
    requires |legs| == |c.legs|
  {
    forall i: nat :: i < |legs| && (i > 0 || c.gatewayOwnsData) ==> legs[i].ownerDone
  }

  function ApplyFetch(c: Config, s: State, max: int): (after: State)
    requires |s.legs| == |c.legs|
    ensures |after.legs| == |c.legs|
  {
    var out := Take(Sources(s.legs), max);
    assert forall i: nat :: i < |s.legs| ==> |Project(out, i)| <= |Source(s.legs, i)| by {
      forall i: nat | i < |s.legs|
        ensures |Project(out, i)| <= |Source(s.legs, i)|
      {
        TakeIsFifo(Sources(s.legs), max, i);
      }
    }
    var legs := DrainLegs(s.legs, out);
    State(legs, s.delivered + out, s.fetches + 1, AllOwnersDone(c, legs))
  }

  predicate EventEnabled(c: Config, s: State, e: Event)
    requires |s.legs| == |c.legs|
  {
    match e
    case At(i, step) => i < |s.legs| && StepEnabled(c.legs[i], s.legs[i], step)
    case Fetch(_) => !s.finished && FetchReady(s.legs)
  }

  function ApplyEvent(c: Config, s: State, e: Event): (after: State)
    requires |s.legs| == |c.legs| && EventEnabled(c, s, e)
    ensures |after.legs| == |c.legs|
  {
    match e
    case At(i, step) => s.(legs := s.legs[i := Apply(c.legs[i], s.legs[i], step)])
    case Fetch(max) => ApplyFetch(c, s, max)
  }

  // --- Runs ------------------------------------------------------------------

  /** A leg right after SubmitQuery: nothing produced, nothing pulled. */
  ghost predicate InitLeg(c: LegCfg, l: Leg, local: bool)
  {
    && l.cursor == 0 && l.producer.Idle? && l.matched == [] && (l.done ==> c.size == 0)
    && l.calls == map[] && l.slot == [] && !l.prefetchDone
    && l.responded == (local && c.eligible)
    && l.registered == (local || c.accepted)
    && l.ownerDone == (!c.eligible || (!local && !c.delivered))
    && l.prefetcher == (if local || l.ownerDone then Stopped else Waiting)
  }

  ghost predicate Init(c: Config, s: State)
  {
    && |s.legs| == |c.legs| && s.delivered == [] && s.fetches == 0 && !s.finished
    && forall i :: 0 <= i < |s.legs| ==> InitLeg(c.legs[i], s.legs[i], i == 0)
  }

  /** `s` is reached by performing the events of `trace` in order, under any interleaving. */
  ghost predicate Run(c: Config, trace: seq<Event>, s: State)
    decreases |trace|
  {
    if trace == [] then Init(c, s) else
    exists prev: State :: RunStep(c, trace, prev, s)
  }

  ghost predicate RunStep(c: Config, trace: seq<Event>, prev: State, s: State)
    requires trace != []
    decreases |trace|, 0
  {
    var e := trace[|trace| - 1];
    && Run(c, trace[..|trace| - 1], prev)
    && |prev.legs| == |c.legs|
    && EventEnabled(c, prev, e)
    && s == ApplyEvent(c, prev, e)
  }

  lemma RunSnoc(c: Config, trace: seq<Event>, s: State, e: Event)
    requires Run(c, trace, s) && |s.legs| == |c.legs| && EventEnabled(c, s, e)
    ensures Run(c, trace + [e], ApplyEvent(c, s, e))
  {
    assert (trace + [e])[..|trace|] == trace;
    assert RunStep(c, trace + [e], s, ApplyEvent(c, s, e));
  }

  /** The state of a leg right after SubmitQuery, when nothing was found to be done yet. */
  ghost function Start(c: LegCfg, local: bool): Leg
  {
    var marked := !c.eligible || (!local && !c.delivered);
    Leg(local || c.accepted, 0, Idle, [], false, map[], 0, [], if local || marked then Stopped else Waiting,
        false, marked, local && c.eligible)
  }

  /** No pull timed out and no pull failed. */
  predicate FaultFree(trace: seq<Event>)
  {
    forall k :: 0 <= k < |trace| ==> !trace[k].IsFault()
  }

  /** No pull of leg `i` timed out or failed, whatever happened to other owners. */
  predicate FaultFreeAt(trace: seq<Event>, i: nat)
  {
    forall k :: 0 <= k < |trace| && trace[k].At? && trace[k].leg == i ==> !trace[k].IsFault()
  }
}
