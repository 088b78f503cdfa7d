/** From the stored rows to the client: a fault-free query returns the plain filter over the
    rows of all owners, whatever was routed around, however the owners searched, and in
    whatever order the protocol's steps happened. */
module EndToEnd {
  import opened Drain
  import opened Gather
  import opened GatherSafety
  import opened GatherProgress
  import opened GatherCompletes
  import opened Store
  import opened Routing
  import opened RoutingSound
  import PyGather
  import SortedPartition

  /** One node's shard for a query: the rows that parsed, and the rows of its match list in
      match-list order. */
  datatype Shard = Shard(owner: Owner, rows: seq<Row>, answer: seq<Row>)
  {
    ghost predicate Answers(q: seq<Pred>)
    {
      multiset(answer) == multiset(Filter(rows, q))
    }
  }

  /** A C++ owner's shard, range-scanned or ruled out by its column ranges. */
  lemma CppShardAnswers(t: Table, q: seq<Pred>, o: Owner)
    requires t.WellFormed()
    ensures forall k :: 0 <= k < |MatchList(t, q, 0, t.Size())| ==> MatchList(t, q, 0, t.Size())[k] < t.Size()
    ensures Shard(o, Rows(t, t.Size()), RowsAt(t, MatchList(t, q, 0, t.Size()))).Answers(q)
  {
    AnswerIsFilter(t, q, t.Size());
  }

  /** A Python owner's shard, searched after the load-time sort. */
  lemma PythonShardAnswers(parsed: map<string, seq<real>>, sorted: map<string, seq<real>>, n: nat,
          order: seq<nat>, q: seq<Pred>, o: Owner)
    requires forall c :: c in parsed ==> |parsed[c]| == n
    requires |order| == n && SortedPartition.IsPermutation(order)
    requires forall c :: c in sorted ==> |sorted[c]| == n
    requires sorted.Keys == parsed.Keys
    requires forall c :: c in parsed ==> sorted[c] == SortedPartition.Permuted(parsed[c], order)
    ensures var t := SortedPartition.AllValid(sorted, n);
            && (forall k :: 0 <= k < |MatchList(t, q, 0, n)| ==> MatchList(t, q, 0, n)[k] < n)
            && Shard(o, Rows(SortedPartition.AllValid(parsed, n), n), RowsAt(t, MatchList(t, q, 0, n))).Answers(q)
  {
    SortedPartition.SortKeepsAnswers(parsed, sorted, n, order, q);
    AnswerIsFilter(SortedPartition.AllValid(sorted, n), q, n);
  }

  // --- The query -----------------------------------------------------------------------

  /** The request's legs are these shards, with the gateway first and eligibility as routed. */
  ghost predicate Describes(c: Config, shards: seq<Shard>, all: seq<Owner>, q: seq<Pred>, meta: Meta, hash: int -> nat)
    requires RingOk(meta)
  {
    && c.Valid() && |c.legs| == |shards|
    && (forall i :: 0 <= i < |shards| ==> c.legs[i].size == |shards[i].answer| && shards[i].Answers(q))
    && (forall i :: 0 <= i < |shards| ==> (c.legs[i].eligible <==> shards[i].owner in Eligible(all, q, meta, hash)))
    && (forall i :: 0 <= i < |shards| && (i > 0 || c.gatewayOwnsData) ==> shards[i].owner in all)
  }

  /** Every row sits where the manifest says, and routing can express the query for it. */
  ghost predicate WellPlaced(shards: seq<Shard>, q: seq<Pred>, meta: Meta, hash: int -> nat)
  {
    forall i, row :: 0 <= i < |shards| && row in shards[i].rows && RowMatches(row, q) ==>
      Placed(row, shards[i].owner, meta, hash) && Routable(row, q, meta)
  }

  function AllRows(shards: seq<Shard>): seq<Row>
  {
    if shards == [] then [] else AllRows(shards[..|shards| - 1]) + shards[|shards| - 1].rows
  }

  ghost predicate InShards(shards: seq<Shard>, log: seq<Emit<nat>>)
  {
    forall k :: 0 <= k < |log| ==> log[k].source < |shards| && log[k].row < |shards[log[k].source].answer|
  }

  /** The rows the client got, in the order of the delivered chunks. */
  function ClientRows(shards: seq<Shard>, log: seq<Emit<nat>>): seq<Row>
    requires InShards(shards, log)
  {
    seq(|log|, k requires 0 <= k < |log| => shards[log[k].source].answer[log[k].row])
  }

  // --- Filtering -------------------------------------------------------------------------

  lemma {:induction false} FilterConcat(a: seq<Row>, b: seq<Row>, q: seq<Pred>)
    ensures Filter(a + b, q) == Filter(a, q) + Filter(b, q)
    decreases |b|
  {
    if b == [] {
      assert a + b == a;
    } else {
      var n := |b| - 1;
      assert (a + b)[..|a| + n] == a + b[..n];
      FilterConcat(a, b[..n], q);
    }
  }

  lemma {:induction false} FilterFirst(rows: seq<Row>, q: seq<Pred>)
    requires Filter(rows, q) != []
    ensures exists row :: row in rows && RowMatches(row, q)
  {
    var last := rows[|rows| - 1];
    if RowMatches(last, q) {
      assert last in rows;
    } else {
      FilterFirst(rows[..|rows| - 1], q);
    }
  }

  /** An owner that routing leaves out has no answer to give. */
  lemma LeftOutIsEmpty(c: Config, shards: seq<Shard>, all: seq<Owner>, q: seq<Pred>, meta: Meta,
                       hash: int -> nat, i: nat)
    requires RingOk(meta) && Describes(c, shards, all, q, meta, hash) && WellPlaced(shards, q, meta, hash)
    requires i < |shards| && !c.legs[i].eligible
    ensures shards[i].answer == []
  {
    hide Eligible, Placed, Routable, Filter, RowMatches;
    if shards[i].answer != [] && (i > 0 || c.gatewayOwnsData) {
      assert shards[i].answer[0] in multiset(shards[i].answer);
      FilterFirst(shards[i].rows, q);
      var row :| row in shards[i].rows && RowMatches(row, q);
      RoutingIsSound(all, q, meta, hash, row, shards[i].owner);
    }
  }

  // --- What the client has, leg by leg ------------------------------------------------------

  lemma {:induction false} EmitIsProjected(log: seq<Emit<nat>>, k: nat)
    requires k < |log|
    ensures log[k].row in Project(log, log[k].source)
    decreases |log|
  {
    var n := |log| - 1;
    if k < n {
      EmitIsProjected(log[..n], k);
    }
  }

  lemma DeliveredInShards(c: Config, shards: seq<Shard>, trace: seq<Event>, s: State)
    requires c.Valid() && |c.legs| == |shards| && Run(c, trace, s)
    requires forall i :: 0 <= i < |shards| ==> c.legs[i].size == |shards[i].answer|
    ensures InShards(shards, s.delivered)
  {
    hide Run, Project;
    forall k | 0 <= k < |s.delivered|
      ensures s.delivered[k].source < |shards| && s.delivered[k].row < |shards[s.delivered[k].source].answer|
    {
      var i := s.delivered[k].source;
      EmitIsProjected(s.delivered, k);
      DeliveredSources(c, trace, s);
      NothingTwice(c, trace, s, i);
    }
  }

  function RowOf(answer: seq<Row>, i: nat): Row
  {
    if i < |answer| then answer[i] else map[]
  }

  function Picked(answer: seq<Row>, picks: seq<nat>): seq<Row>
  {
    seq(|picks|, k requires 0 <= k < |picks| => RowOf(answer, picks[k]))
  }

  function SumPicked(shards: seq<Shard>, log: seq<Emit<nat>>, n: nat): multiset<Row>
    requires n <= |shards|
  {
    if n == 0 then multiset{} else
    SumPicked(shards, log, n - 1) + multiset(Picked(shards[n - 1].answer, Project(log, n - 1)))
  }

  lemma {:induction false} NothingPicked(shards: seq<Shard>, n: nat)
    requires n <= |shards|
    ensures SumPicked(shards, [], n) == multiset{}
  {
    if n > 0 {
      NothingPicked(shards, n - 1);
    }
  }

  lemma PickedSnoc(answer: seq<Row>, picks: seq<nat>, i: nat)
    ensures Picked(answer, picks + [i]) == Picked(answer, picks) + [RowOf(answer, i)]
  {
  }

  lemma ProjectSnoc(log: seq<Emit<nat>>, e: Emit<nat>, i: nat)
    ensures Project(log + [e], i) == Project(log, i) + (if e.source == i then [e.row] else [])
  {
    assert (log + [e])[..|log|] == log;
  }

  lemma MultisetSnoc(rows: seq<Row>, row: Row)
    ensures multiset(rows + [row]) == multiset(rows) + multiset{row}
  {
  }

  lemma Regroup(a: multiset<Row>, b: multiset<Row>, c: multiset<Row>)
    ensures a + (b + c) == (a + b) + c == (a + c) + b
  {
  }

  lemma SumUnfold(shards: seq<Shard>, log: seq<Emit<nat>>, n: nat)
    requires n <= |shards|
    ensures SumPicked(shards, log, n) == if n == 0 then multiset{} else
            SumPicked(shards, log, n - 1) + multiset(Picked(shards[n - 1].answer, Project(log, n - 1)))
  {
  }

  /** An emitted row does not count for the legs in front of its source. */
  lemma {:induction false} PickedSkips(shards: seq<Shard>, log: seq<Emit<nat>>, e: Emit<nat>, n: nat)
    requires n <= e.source && n <= |shards|
    ensures SumPicked(shards, log + [e], n)
         == SumPicked(shards, log, n)
    decreases n
  {
    hide Picked, Project;
    if n > 0 {
      PickedSkips(shards, log, e, n - 1);
      ProjectSnoc(log, e, n - 1);
      assert Project(log + [e], n - 1) == Project(log, n - 1);
    }
  }

  lemma {:induction false} PickedEmit(shards: seq<Shard>, log: seq<Emit<nat>>, e: Emit<nat>, n: nat)
    requires e.source < n <= |shards|
    ensures SumPicked(shards, log + [e], n)
         == SumPicked(shards, log, n) + multiset{RowOf(shards[e.source].answer, e.row)}
    decreases n
  {
    hide *;
    SumUnfold(shards, log, n);
    SumUnfold(shards, log + [e], n);
    ProjectSnoc(log, e, n - 1);
    var picked := Picked(shards[n - 1].answer, Project(log, n - 1));
    var row := RowOf(shards[e.source].answer, e.row);
    Regroup(SumPicked(shards, log, n - 1), multiset(picked), multiset{row});
    if e.source == n - 1 {
      PickedSkips(shards, log, e, n - 1);
      PickedSnoc(shards[n - 1].answer, Project(log, n - 1), e.row);
      MultisetSnoc(picked, row);
    } else {
      PickedEmit(shards, log, e, n - 1);
      assert Project(log + [e], n - 1) == Project(log, n - 1);
    }
  }

  /** The client's rows are the rows picked from each leg. */
  lemma {:induction false} ClientRowsByLeg(shards: seq<Shard>, log: seq<Emit<nat>>)
    requires InShards(shards, log)
    ensures multiset(ClientRows(shards, log)) == SumPicked(shards, log, |shards|)
    decreases |log|
  {
    if log == [] {
      NothingPicked(shards, |shards|);
    } else {
      var n := |log| - 1;
      var init, e := log[..n], log[n];
      assert log == init + [e];
      ClientRowsByLeg(shards, init);
      PickedEmit(shards, init, e, |shards|);
      assert ClientRows(shards, log) == ClientRows(shards, init) + [shards[e.source].answer[e.row]];
    }
  }

  lemma PickAll(answer: seq<Row>)
    ensures Picked(answer, Range(0, |answer|)) == answer && Picked(answer, []) == []
  {
  }

  lemma NoRows(q: seq<Pred>)
    ensures multiset(Filter(AllRows([]), q)) == multiset{}
  {
  }

  lemma AllRowsUnfold(shards: seq<Shard>, n: nat)
    requires 0 < n <= |shards|
    ensures AllRows(shards[..n]) == AllRows(shards[..n - 1]) + shards[n - 1].rows
  {
    assert shards[..n][..n - 1] == shards[..n - 1];
  }

  lemma AnswerMultiset(s: Shard, q: seq<Pred>)
    requires s.Answers(q)
    ensures multiset(s.answer) == multiset(Filter(s.rows, q))
  {
  }

  /** When every leg delivered its whole answer, the client has the filtered rows of all shards. */
  lemma {:induction false} SumOfAnswers(shards: seq<Shard>, log: seq<Emit<nat>>, q: seq<Pred>, n: nat)
    requires n <= |shards|
    requires forall i :: 0 <= i < |shards| ==> shards[i].Answers(q)
    requires forall i: nat :: i < |shards| ==> Picked(shards[i].answer, Project(log, i)) == shards[i].answer
    ensures SumPicked(shards, log, n) == multiset(Filter(AllRows(shards[..n]), q))
    decreases n
  {
    hide *;
    SumUnfold(shards, log, n);
    if n == 0 {
      NoRows(q);
      assert shards[..0] == [];
    } else {
      SumOfAnswers(shards, log, q, n - 1);
      AllRowsUnfold(shards, n);
      FilterConcat(AllRows(shards[..n - 1]), shards[n - 1].rows, q);
      AnswerMultiset(shards[n - 1], q);
    }
  }

  // --- The whole pipeline -------------------------------------------------------------------------

  /** No pull timed out or failed at an owner that has rows to give; faults at the others
      do not matter. */
  ghost predicate Calm(c: Config, trace: seq<Event>)
  {
    forall i: nat :: i < |c.legs| && Reached(c, i) && c.legs[i].size > 0 ==> FaultFreeAt(trace, i)
  }

  /** Every owner that was asked and has matches got its forward and registered the request. */
  ghost predicate AllReached(c: Config)
  {
    forall i: nat :: i < |c.legs| && c.legs[i].eligible ==> Reached(c, i)
  }

  /** One leg of a finished run: its whole answer if it was reached, else nothing. */
  lemma LegDelivered(c: Config, shards: seq<Shard>, all: seq<Owner>, q: seq<Pred>, meta: Meta, hash: int -> nat,
                     trace: seq<Event>, s: State, i: nat)
    requires RingOk(meta) && Describes(c, shards, all, q, meta, hash) && WellPlaced(shards, q, meta, hash)
    requires Run(c, trace, s) && Calm(c, trace) && s.finished && i < |shards|
    ensures |Project(s.delivered, i)| <= |shards[i].answer|
    ensures !c.legs[i].eligible || Reached(c, i) ==>
              Picked(shards[i].answer, Project(s.delivered, i)) == shards[i].answer
    ensures c.legs[i].eligible && !Reached(c, i) ==> Project(s.delivered, i) == [] && shards[i].answer != []
  {
    hide Run, Picked, Project, Eligible, WellPlaced;
    RunInv(c, trace, s);
    NothingTwice(c, trace, s, i);
    IncreasingFits(Project(s.delivered, i), c.legs[i].size);
    PickAll(shards[i].answer);
    if !c.legs[i].eligible {
      LeftOutIsEmpty(c, shards, all, q, meta, hash, i);
    } else if Reached(c, i) && c.legs[i].size > 0 {
      ExactlyOnce(c, trace, s, i);
    } else if !Reached(c, i) {
      NothingFrom(c, trace, s, i);
    }
  }

  /** Rows the owners found. */
  function Found(shards: seq<Shard>, n: nat): nat
    requires n <= |shards|
  {
    if n == 0 then 0 else Found(shards, n - 1) + |shards[n - 1].answer|
  }

  lemma {:induction false} FilterSize(shards: seq<Shard>, q: seq<Pred>, n: nat)
    requires n <= |shards| && forall i :: 0 <= i < |shards| ==> shards[i].Answers(q)
    ensures |Filter(AllRows(shards[..n]), q)| == Found(shards, n)
  {
    hide Filter, AllRows;
    if n == 0 {
      assert shards[..0] == [];
      NoRows(q);
      assert |multiset(Filter(AllRows([]), q))| == 0;
    } else {
      FilterSize(shards, q, n - 1);
      AllRowsUnfold(shards, n);
      FilterConcat(AllRows(shards[..n - 1]), shards[n - 1].rows, q);
      AnswerMultiset(shards[n - 1], q);
      assert |multiset(shards[n - 1].answer)| == |multiset(Filter(shards[n - 1].rows, q))|;
    }
  }

  /** A leg that gives less than it found makes the total fall short. */
  lemma {:induction false} PickedSize(shards: seq<Shard>, log: seq<Emit<nat>>, n: nat, j: nat)
    requires n <= |shards| && forall i: nat :: i < n ==> |Project(log, i)| <= |shards[i].answer|
    requires j < n ==> |Project(log, j)| < |shards[j].answer|
    ensures |SumPicked(shards, log, n)| <= Found(shards, n)
    ensures j < n ==> |SumPicked(shards, log, n)| < Found(shards, n)
  {
    hide Project;
    if n > 0 {
      PickedSize(shards, log, n - 1, j);
      assert |multiset(Picked(shards[n - 1].answer, Project(log, n - 1)))| == |Project(log, n - 1)|;
    }
  }

  /** The whole pipeline: when FetchChunk reports the last chunk, whatever failed at owners
      without matches, the client's rows are, as a multiset, the plain filter over the rows
      of every owner, including the owners that routing never asked, exactly if every asked
      owner with matches got its forward and registered the request. */
  lemma QueryIsFilter(c: Config, shards: seq<Shard>, all: seq<Owner>, q: seq<Pred>, meta: Meta, hash: int -> nat,
                      trace: seq<Event>, s: State)
    requires RingOk(meta) && Describes(c, shards, all, q, meta, hash) && WellPlaced(shards, q, meta, hash)
    requires Run(c, trace, s) && Calm(c, trace) && s.finished
    ensures InShards(shards, s.delivered)
    ensures multiset(ClientRows(shards, s.delivered)) == multiset(Filter(AllRows(shards), q)) <==> AllReached(c)
  {
    hide Run, Picked, Project, Eligible, Filter, WellPlaced, Calm, AllRows;
    DeliveredInShards(c, shards, trace, s);
    ClientRowsByLeg(shards, s.delivered);
    assert shards[..|shards|] == shards;
    forall i: nat | i < |shards|
      ensures |Project(s.delivered, i)| <= |shards[i].answer|
      ensures c.legs[i].eligible && !Reached(c, i) ==> Project(s.delivered, i) == [] && shards[i].answer != []
      ensures !c.legs[i].eligible || Reached(c, i) ==>
                Picked(shards[i].answer, Project(s.delivered, i)) == shards[i].answer
    {
      LegDelivered(c, shards, all, q, meta, hash, trace, s, i);
    }
    if AllReached(c) {
      SumOfAnswers(shards, s.delivered, q, |shards|);
    } else {
      var j: nat :| j < |c.legs| && c.legs[j].eligible && !Reached(c, j);
      PickedSize(shards, s.delivered, |shards|, j);
      FilterSize(shards, q, |shards|);
      assert |multiset(Filter(AllRows(shards), q))| == |Filter(AllRows(shards), q)|;
    }
  }

  /** And every query can be brought to that end. */
  lemma QueryCompletes(c: Config, shards: seq<Shard>, all: seq<Owner>, q: seq<Pred>, meta: Meta, hash: int -> nat)
    returns (trace: seq<Event>, s: State)
    requires RingOk(meta) && Describes(c, shards, all, q, meta, hash) && WellPlaced(shards, q, meta, hash)
    requires forall i :: 0 <= i < |c.legs| ==> c.legs[i].chunkMax >= 1
    ensures Run(c, trace, s) && FaultFree(trace) && s.finished && InShards(shards, s.delivered)
    ensures multiset(ClientRows(shards, s.delivered)) == multiset(Filter(AllRows(shards), q)) <==> AllReached(c)
  {
    hide Run, Eligible, Filter, ClientRows, AllRows, WellPlaced, InShards, AllReached;
    trace, s := HasCompleteRun(c);
    QueryIsFilter(c, shards, all, q, meta, hash, trace, s);
  }

  /** As `Calm`, for a query with Python owners. */
  ghost predicate CalmPulls(c: Config, trace: seq<PyGather.MixedEvent>)
  {
    forall i: nat :: i < |c.legs| && Reached(c, i) && c.legs[i].size > 0 ==> PyGather.NoFaultAt(trace, i)
  }

  /** The same with Python owners among the owners, each producing in its own lock blocks. */
  lemma PyQueryIsFilter(c: Config, shards: seq<Shard>, all: seq<Owner>, q: seq<Pred>, meta: Meta,
                        hash: int -> nat, trace: seq<PyGather.MixedEvent>, m: PyGather.Mixed)
    requires RingOk(meta) && Describes(c, shards, all, q, meta, hash) && WellPlaced(shards, q, meta, hash)
    requires PyGather.MixedRun(c, trace, m) && CalmPulls(c, trace) && m.s.finished
    ensures InShards(shards, m.s.delivered)
    ensures multiset(ClientRows(shards, m.s.delivered)) == multiset(Filter(AllRows(shards), q)) <==> AllReached(c)
  {
    hide Run, PyGather.MixedRun, FaultFreeAt, PyGather.NoFaultAt, Eligible, Filter, ClientRows, AllRows, WellPlaced,
      InShards, AllReached, Describes, RingOk, PyGather.AbsState, PyGather.MixedInv;
    var shown := PyGather.IsGatherRun(c, trace, m);
    QueryIsFilter(c, shards, all, q, meta, hash, shown, PyGather.AbsState(m));
  }

  /** A continuation without faults has none at any owner. */
  lemma CalmEverywhere(c: Config, ext: seq<PyGather.MixedEvent>)
    requires PyGather.Calm(ext)
    ensures CalmPulls(c, ext)
  {
  }

  /** Exactly when such a query has a run without faults that ends: it asks and reaches no Python
      owner without rows.  Every such run returns the plain filter under the same condition as
      a query without Python owners. */
  lemma PyQueryCompletes(c: Config, shards: seq<Shard>, all: seq<Owner>, q: seq<Pred>, meta: Meta,
                         hash: int -> nat, m: PyGather.Mixed)
    requires RingOk(meta) && Describes(c, shards, all, q, meta, hash) && WellPlaced(shards, q, meta, hash)
    requires forall i :: 0 <= i < |c.legs| ==> c.legs[i].chunkMax >= 1
    requires PyGather.MixedInit(c, m)
    ensures (exists ext: seq<PyGather.MixedEvent>, r: PyGather.Mixed :: PyGather.Ends(c, m, ext, r)) <==>
            forall i: nat :: !PyGather.AsksEmpty(c, m, i)
    ensures forall ext: seq<PyGather.MixedEvent>, r: PyGather.Mixed :: PyGather.Ends(c, m, ext, r) ==>
              && InShards(shards, r.s.delivered)
              && (multiset(ClientRows(shards, r.s.delivered)) == multiset(Filter(AllRows(shards), q))
                  <==> AllReached(c))
  {
    hide PyGather.MixedRun, PyGather.MixedInit, PyGather.Leads, PyGather.AsksEmpty, Eligible, Filter, ClientRows,
      AllRows, WellPlaced, InShards, AllReached, CalmPulls;
    PyGather.PyEndsFromStart(c, m);
    forall ext: seq<PyGather.MixedEvent>, r: PyGather.Mixed | PyGather.Ends(c, m, ext, r)
      ensures InShards(shards, r.s.delivered)
      ensures multiset(ClientRows(shards, r.s.delivered)) == multiset(Filter(AllRows(shards), q)) <==> AllReached(c)
    {
      PyGather.StartRuns(c, m);
      PyGather.LeadsRun(c, [], m, ext, r);
      assert [] + ext == ext;
      CalmEverywhere(c, ext);
      PyQueryIsFilter(c, shards, all, q, meta, hash, ext, r);
    }
  }
}
