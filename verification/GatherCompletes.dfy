/** Whatever happened so far, lost replies and failed owners included, a query can still be
    brought to its end: no interleaving runs into a dead end. */
module GatherCompletes {
  import opened Drain
  import opened Gather
  import opened GatherSafety
  import opened GatherProgress

  // --- Work left in a leg -------------------------------------------------------------------

  function ProducerRank(c: LegCfg, l: Leg): nat
  {
    if l.done then 0 else
    match l.producer
    case Idle => 3
    case Pushing(limit) => if l.cursor < c.size && l.cursor >= limit then 5 else 2
    case Finishing => if l.cursor < c.size then 4 else 1
  }

  /** Steps until the prefetcher's call is answered; an empty reply that is not the last one
      has to be asked for again and counts more. */
  function CallRank(l: Leg): nat
  {
    if l.prefetcher.Stopped? then 0
    else if l.prefetcher.Waiting? then 20
    else if l.prefetcher.id !in l.calls then 0 else
    match l.calls[l.prefetcher.id]
    case Sent => 19
    case Found => 18
    case Drained(out) => if out == [] && l.done && l.matched == [] then 17 else 25
    case SawDone(out, done) => if out == [] && done && l.matched == [] then 16 else 24
    case Checked(_, last) => if last then 15 else 23
    case Replied(_, last) => if last then 14 else 22
    case NotFound => 10
  }

  function LegWork(c: LegCfg, l: Leg, local: bool): nat
  {
    100 * (if l.cursor <= c.size then c.size - l.cursor else 0) + 60 * |l.matched| + 30 * |l.Live()| + |l.slot|
    + ProducerRank(c, l) + (if local then 0 else CallRank(l))
  }

  lemma ProducerWorks(c: LegCfg, l: Leg, step: Step, local: bool)
    requires StepEnabled(c, l, step) && ProducerOk(c, l) && CallsOk(c, l) && c.quantum > 0 && !l.done
    requires step.BeginTick? || step.Push? || step.EndTick? || step.FinishTick?
    ensures LegWork(c, Apply(c, l, step), local) < LegWork(c, l, local)
  {
    var l' := Apply(c, l, step);
    assert l'.Live() == l.Live();
    assert CallRank(l') <= CallRank(l) by {
      if l.prefetcher.Calling? && l.prefetcher.id in l.calls {
        assert CallOk(c, l, l.calls[l.prefetcher.id]);
      }
    }
  }

  /** The owner's and the gateway's part of a pull, when the producer has to wait for it. */
  lemma PullWorks(c: LegCfg, l: Leg, d: seq<nat>, step: Step)
    requires StepEnabled(c, l, step) && CallsOk(c, l) && GatewayOk(c, l, d, false)
    requires l.done || l.matched != []
    requires step.Issue? || step.Receive? || (step.DrainCall? && l.prefetcher == Calling(step.id) && step.max >= 1)
    ensures LegWork(c, Apply(c, l, step), false) < LegWork(c, l, false)
  {
    var l' := Apply(c, l, step);
    if step.Issue? {
      assert l.Live() == [] && l'.Live() == [];
    } else if step.Receive? {
      assert CallOk(c, l, l.calls[l.prefetcher.id]);
      assert l'.Live() == [];
    } else {
      assert l.Live() == [] && |l'.Live()| + |l'.matched| == |l.matched|;
    }
  }

  /** The steps of the live pull that move no rows. */
  lemma CallWorks(c: LegCfg, l: Leg, step: Step)
    requires StepEnabled(c, l, step) && CallsOk(c, l) && l.prefetcher.Calling?
    requires step == Lookup(l.prefetcher.id) || step == ReadDone(l.prefetcher.id) || step == Recheck(l.prefetcher.id)
             || step == Reply(l.prefetcher.id)
    requires step.ReadDone? || step.Recheck? ==> l.done || l.matched != []
    ensures LegWork(c, Apply(c, l, step), false) < LegWork(c, l, false)
  {
    assert CallOk(c, l, l.calls[l.prefetcher.id]);
    assert Apply(c, l, step).Live() == l.Live();
  }

  lemma IssueOrRefuseWorks(c: LegCfg, l: Leg, d: seq<nat>, step: Step)
    requires StepEnabled(c, l, step) && GatewayOk(c, l, d, false) && CallsOk(c, l) && (step.Issue? || step.Refuse?)
    ensures LegWork(c, Apply(c, l, step), false) < LegWork(c, l, false)
  {
    assert l.Live() == [] && Apply(c, l, step).Live() == [];
  }

  /** A live pull, when the producer has to wait for it. */
  lemma PullMoves(c: LegCfg, l: Leg, d: seq<nat>) returns (step: Step)
    requires l.prefetcher.Calling? && CallsOk(c, l) && GatewayOk(c, l, d, false) && c.chunkMax >= 1
    requires l.done || l.matched != [] || l.calls[l.prefetcher.id].Sent? || l.calls[l.prefetcher.id].NotFound?
    ensures StepEnabled(c, l, step) && !step.IsFault() && !step.IsProducer()
    ensures LegWork(c, Apply(c, l, step), false) < LegWork(c, l, false)
  {
    hide LegWork, CallsOk;
    var id := l.prefetcher.id;
    match l.calls[id] {
      case Sent => step := Lookup(id); CallWorks(c, l, step);
      case Found => step := DrainCall(id, 1); PullWorks(c, l, d, step);
      case Drained(_) => step := ReadDone(id); CallWorks(c, l, step);
      case SawDone(_, _) => step := Recheck(id); CallWorks(c, l, step);
      case Checked(_, _) => step := Reply(id); CallWorks(c, l, step);
      case Replied(_, _) => step := Receive; PullWorks(c, l, d, step);
      case NotFound => step := Refuse; IssueOrRefuseWorks(c, l, d, step);
    }
  }

  /** A producer that cannot go on has finished, waits for room, or never had the request. */
  lemma WaitsForPull(c: LegCfg, l: Leg, d: seq<nat>)
    requires OwnerOk(c, l, d, false) && (!l.registered || l.done || |l.matched| >= MAX_BUFFERED)
    requires l.prefetcher.Calling? && l.prefetcher.id in l.calls
    ensures l.done || l.matched != [] || l.calls[l.prefetcher.id].Sent? || l.calls[l.prefetcher.id].NotFound?
  {
  }

  /** A leg that keeps FetchChunk waiting has a step that leaves less work. */
  lemma LegWorks(c: LegCfg, legs: seq<Leg>, i: nat, d: seq<nat>) returns (step: Step)
    requires i < |legs| && LegInv(c, legs[i], d, i == 0)
    requires c.quantum > 0 && c.chunkMax >= 1
    requires Source(legs, i) == [] && !LegDrained(legs, i)
    ensures StepEnabled(c, legs[i], step) && !step.IsFault()
    ensures LegWork(c, Apply(c, legs[i], step), i == 0) < LegWork(c, legs[i], i == 0)
  {
    hide LegWork, Flow, Increasing, Range, CallsOk;
    var l := legs[i];
    if i == 0 || (l.registered && !l.done && |l.matched| < MAX_BUFFERED) {
      step := ProducerMoves(c, l);
      ProducerWorks(c, l, step, i == 0);
    } else if l.prefetcher.Calling? {
      WaitsForPull(c, l, d);
      step := PullMoves(c, l, d);
    } else {
      step := Issue;
      IssueOrRefuseWorks(c, l, d, step);
    }
  }

  /** A remote leg whose owner cannot answer is waited for until it has said so. */
  lemma CutOffWorks(c: LegCfg, legs: seq<Leg>, i: nat, d: seq<nat>) returns (step: Step)
    requires 0 < i < |legs| && LegInv(c, legs[i], d, false) && !c.Answers() && c.chunkMax >= 1
    requires !LegDrained(legs, i)
    ensures StepEnabled(c, legs[i], step) && !step.IsFault() && !step.IsProducer()
    ensures LegWork(c, Apply(c, legs[i], step), false) < LegWork(c, legs[i], false)
  {
    hide LegWork, Flow, Increasing, CallsOk;
    var l := legs[i];
    if l.prefetcher.Calling? {
      step := PullMoves(c, l, d);
    } else {
      step := Issue;
      IssueOrRefuseWorks(c, l, d, step);
    }
  }

  // --- Work left in a request -----------------------------------------------------------------

  function Work(c: Config, legs: seq<Leg>, n: nat): nat
    requires n <= |legs| == |c.legs|
  {
    if n == 0 then 0 else Work(c, legs, n - 1) + LegWork(c.legs[n - 1], legs[n - 1], n == 1)
  }

  lemma {:induction false} LessWork(c: Config, a: seq<Leg>, b: seq<Leg>, n: nat, i: nat)
    requires n <= |a| == |b| == |c.legs|
    requires forall j: nat :: j < n ==> LegWork(c.legs[j], b[j], j == 0) <= LegWork(c.legs[j], a[j], j == 0)
    requires i < n ==> LegWork(c.legs[i], b[i], i == 0) < LegWork(c.legs[i], a[i], i == 0)
    ensures Work(c, b, n) <= Work(c, a, n) && (i < n ==> Work(c, b, n) < Work(c, a, n))
  {
    hide LegWork;
    if n > 0 {
      LessWork(c, a, b, n - 1, i);
    }
  }

  lemma FetchLegWork(c: LegCfg, legs: seq<Leg>, out: seq<Emit<nat>>, i: nat)
    requires i < |legs| && Project(out, i) <= Source(legs, i)
    ensures LegWork(c, DrainLeg(legs, out, i), i == 0) <= LegWork(c, legs[i], i == 0)
    ensures Project(out, i) != [] ==> LegWork(c, DrainLeg(legs, out, i), i == 0) < LegWork(c, legs[i], i == 0)
  {
    hide Project, ProducerRank, CallRank;
    DrainRanks(c, legs, out, i);
  }

  /** A fetch does not touch what the producer and the pulls are doing. */
  lemma DrainRanks(c: LegCfg, legs: seq<Leg>, out: seq<Emit<nat>>, i: nat)
    requires i < |legs| && Project(out, i) <= Source(legs, i)
    ensures var l' := DrainLeg(legs, out, i);
            && l'.Live() == legs[i].Live() && ProducerRank(c, l') == ProducerRank(c, legs[i])
            && (i > 0 ==> CallRank(l') == CallRank(legs[i]))
  {
    hide Project;
  }

  lemma FirstIsProjected(out: seq<Emit<nat>>)
    requires out != []
    ensures Project(out, out[0].source) != []
  {
    hide Project;
    assert out == [out[0]] + out[1..];
    ProjectConcat([out[0]], out[1..], out[0].source);
    ProjectOne(out[0], out[0].source);
  }

  /** A FetchChunk with room ends the request or leaves less work. */
  lemma FetchWorks(c: Config, s: State)
    requires |s.legs| == |c.legs| && EventEnabled(c, s, Fetch(1))
    ensures ApplyFetch(c, s, 1).finished || Work(c, ApplyFetch(c, s, 1).legs, |c.legs|) < Work(c, s.legs, |c.legs|)
  {
    hide LegWork, Project, DrainLeg, Work;
    FetchProgress(c, s, 1);
    var sources := Sources(s.legs);
    var out, reached := Take(sources, 1), ApplyFetch(c, s, 1);
    forall j: nat | j < |s.legs|
      ensures Project(out, j) <= Source(s.legs, j)
      ensures LegWork(c.legs[j], reached.legs[j], j == 0) <= LegWork(c.legs[j], s.legs[j], j == 0)
      ensures Project(out, j) != [] ==>
                LegWork(c.legs[j], reached.legs[j], j == 0) < LegWork(c.legs[j], s.legs[j], j == 0)
    {
      TakeIsFifo(sources, 1, j);
      FetchLegWork(c.legs[j], s.legs, out, j);
    }
    if !reached.finished {
      var i := out[0].source;
      FirstIsProjected(out);
      TakeIsFifo(sources, 1, i);
      LessWork(c, s.legs, reached.legs, |c.legs|, i);
    }
  }

  lemma StepWorks(c: Config, s: State, i: nat, step: Step)
    requires |s.legs| == |c.legs| && EventEnabled(c, s, At(i, step))
    requires LegWork(c.legs[i], Apply(c.legs[i], s.legs[i], step), i == 0) < LegWork(c.legs[i], s.legs[i], i == 0)
    ensures Work(c, ApplyEvent(c, s, At(i, step)).legs, |c.legs|) < Work(c, s.legs, |c.legs|)
  {
    hide LegWork, Apply;
    LessWork(c, s.legs, ApplyEvent(c, s, At(i, step)).legs, |c.legs|, i);
  }

  /** The next event of the completion. */
  lemma NextEvent(c: Config, trace: seq<Event>, s: State) returns (e: Event)
    requires c.Valid() && (forall i :: 0 <= i < |c.legs| ==> c.legs[i].chunkMax >= 1)
    requires Run(c, trace, s) && !s.finished
    ensures |s.legs| == |c.legs| && EventEnabled(c, s, e) && !e.IsFault()
    ensures ApplyEvent(c, s, e).finished || Work(c, ApplyEvent(c, s, e).legs, |c.legs|) < Work(c, s.legs, |c.legs|)
  {
    hide Run, LegInv, Work, LegWork;
    RunInv(c, trace, s);
    if FetchReady(s.legs) {
      e := Fetch(1);
      FetchWorks(c, s);
    } else {
      var i: nat :| i < |s.legs| && !LegDrained(s.legs, i);
      var step := LegWorks(c.legs[i], s.legs, i, Project(s.delivered, i));
      e := At(i, step);
      StepWorks(c, s, i, step);
    }
  }

  /** Completion: every run, with any faults so far, has a continuation without further
      faults in which FetchChunk reports the last chunk. */
  lemma {:induction false} CanComplete(c: Config, trace: seq<Event>, s: State) returns (ext: seq<Event>, reached: State)
    requires c.Valid() && (forall i :: 0 <= i < |c.legs| ==> c.legs[i].chunkMax >= 1)
    requires Run(c, trace, s)
    ensures Run(c, trace + ext, reached) && FaultFree(ext) && reached.finished
    decreases if s.finished then 0 else 1, if |s.legs| == |c.legs| then Work(c, s.legs, |c.legs|) else 0
  {
    hide Run, Work;
    if s.finished {
      ext, reached := [], s;
      assert trace + [] == trace;
    } else {
      var e := NextEvent(c, trace, s);
      RunSnoc(c, trace, s, e);
      ext, reached := CanComplete(c, trace + [e], ApplyEvent(c, s, e));
      assert trace + ([e] + ext) == (trace + [e]) + ext;
      ext := [e] + ext;
    }
  }

  /** Every configuration has a complete run without faults. */
  lemma HasCompleteRun(c: Config) returns (trace: seq<Event>, s: State)
    requires c.Valid() && (forall i :: 0 <= i < |c.legs| ==> c.legs[i].chunkMax >= 1)
    ensures Run(c, trace, s) && FaultFree(trace) && s.finished
  {
    var legs := seq(|c.legs|, i requires 0 <= i < |c.legs| => Start(c.legs[i], i == 0));
    var first := State(legs, [], 0, false);
    assert Init(c, first);
    trace, s := CanComplete(c, [], first);
    assert [] + trace == trace;
  }
}
