/** The client's pull loop (cpp/client/client.cpp), and what it sees of a gateway's run. */
module Client {
  import opened Basics
  import opened Drain
  import opened Gather
  import opened GatherSafety
  import opened GatherProgress

  /** How one FetchChunk call ends for the client. */
  datatype Reply =
    | Failed
    | Chunk(rows: nat, bytes: nat, last: bool, ownersHit: nat, ownersEligible: nat)

  datatype Args = Args(cancelAfter: bool, cancelAfterChunks: int, limitChunks: int)

  datatype Exit = Error | Cancelled | Abandoned | Complete | StillPulling

  datatype Result = Result(rows: nat, chunks: nat, bytes: nat, bytesMin: nat, bytesMax: nat,
                           ownersHit: nat, ownersEligible: nat, ok: bool)

  /** Why the loop stops at the reply that makes `chunks` chunks, if it does. */
  function ExitAt(a: Args, reply: Reply, chunks: nat): Exit
  {
    if reply.Failed? then Error
    else if a.cancelAfter && chunks >= a.cancelAfterChunks then Cancelled
    else if a.limitChunks >= 0 && chunks >= a.limitChunks then Abandoned
    else if reply.last then Complete
    else StillPulling
  }

  /** The number of replies the loop takes in: up to the first one that stops it. */
  function Consumed(a: Args, replies: seq<Reply>, from: nat): (n: nat)
    requires from <= |replies|
    ensures from <= n <= |replies|
    ensures forall k :: from <= k < n - 1 ==> ExitAt(a, replies[k], k + 1) == StillPulling
    ensures n < |replies| ==> n > from && ExitAt(a, replies[n - 1], n) != StillPulling
    decreases |replies| - from
  {
    if from == |replies| then from
    else if ExitAt(a, replies[from], from + 1) != StillPulling then from + 1
    else Consumed(a, replies, from + 1)
  }

  /** Exactly when and why the loop stops: every reply before the last one taken in is a chunk
      that is not the last and reaches neither bound; a failure comes first, then the bound for
      cancelling, then the bound for walking away, and only then the last chunk. */
  lemma StopsExactly(a: Args, replies: seq<Reply>)
    requires Consumed(a, replies, 0) > 0
    ensures var n := Consumed(a, replies, 0);
            var reply, exit := replies[n - 1], ExitAt(a, replies[n - 1], n);
            var cancels := a.cancelAfter && n == Max(1, a.cancelAfterChunks);
            var leaves := a.limitChunks >= 0 && n == Max(1, a.limitChunks);
            && (forall k :: 0 <= k < n - 1 ==>
                  && replies[k].Chunk? && !replies[k].last
                  && (a.cancelAfter ==> k + 1 < a.cancelAfterChunks)
                  && (a.limitChunks >= 0 ==> k + 1 < a.limitChunks))
            && (exit == Error <==> reply.Failed?)
            && (exit == Cancelled <==> reply.Chunk? && cancels)
            && (exit == Abandoned <==> reply.Chunk? && !cancels && leaves)
            && (exit == Complete <==> reply.Chunk? && !cancels && !leaves && reply.last)
            && (exit == StillPulling ==> n == |replies|)
  {
    var n := Consumed(a, replies, 0);
    if n > 1 {
      assert ExitAt(a, replies[n - 2], n - 1) == StillPulling;
    }
  }

  function RowsOf(replies: seq<Reply>): nat
  {
    if replies == [] then 0 else
    var last := replies[|replies| - 1];
    RowsOf(replies[..|replies| - 1]) + (if last.Chunk? then last.rows else 0)
  }

  function BytesOf(replies: seq<Reply>): nat
  {
    if replies == [] then 0 else
    var last := replies[|replies| - 1];
    BytesOf(replies[..|replies| - 1]) + (if last.Chunk? then last.bytes else 0)
  }

  /** The totals add up over the replies. */
  lemma {:induction false} TotalsConcat(a: seq<Reply>, b: seq<Reply>)
    ensures RowsOf(a + b) == RowsOf(a) + RowsOf(b) && BytesOf(a + b) == BytesOf(a) + BytesOf(b)
    decreases |b|
  {
    if b == [] {
      assert a + b == a;
    } else {
      var n := |b| - 1;
      assert (a + b)[..|a| + n] == a + b[..n];
      TotalsConcat(a, b[..n]);
    }
  }

  lemma TotalsOne(rows: nat, bytes: nat, last: bool, hit: nat, eligible: nat)
    ensures RowsOf([Chunk(rows, bytes, last, hit, eligible)]) == rows
    ensures BytesOf([Chunk(rows, bytes, last, hit, eligible)]) == bytes
    ensures RowsOf([Failed]) == BytesOf([Failed]) == 0
  {
    assert [Failed][..0] == [] && [Chunk(rows, bytes, last, hit, eligible)][..0] == [];
  }

  predicate NonEmpty(reply: Reply)
  {
    reply.Chunk? && reply.rows > 0
  }

  /** `lo` and `hi` are the sizes of the smallest and the largest chunk with rows, or 0; a
      chunk with rows has bytes on the wire. */
  ghost predicate Spread(replies: seq<Reply>, lo: nat, hi: nat)
  {
    && (forall k :: 0 <= k < |replies| && NonEmpty(replies[k]) ==> replies[k].bytes <= hi)
    && (hi == 0 || exists k :: 0 <= k < |replies| && NonEmpty(replies[k]) && replies[k].bytes == hi)
    && ((forall k :: 0 <= k < |replies| && NonEmpty(replies[k]) ==> replies[k].bytes > 0) ==>
          && (forall k :: 0 <= k < |replies| && NonEmpty(replies[k]) ==> lo <= replies[k].bytes)
          && ((lo == 0 && forall k :: 0 <= k < |replies| ==> !NonEmpty(replies[k]))
              || exists k :: 0 <= k < |replies| && NonEmpty(replies[k]) && replies[k].bytes == lo))
  }

  lemma SpreadMore(replies: seq<Reply>, lo: nat, hi: nat, reply: Reply)
    requires Spread(replies, lo, hi)
    ensures if NonEmpty(reply)
            then Spread(replies + [reply], if lo == 0 || reply.bytes < lo then reply.bytes else lo,
                        if reply.bytes > hi then reply.bytes else hi)
            else Spread(replies + [reply], lo, hi)
  {
    var more := replies + [reply];
    assert more[|replies|] == reply && forall k :: 0 <= k < |replies| ==> more[k] == replies[k];
  }

  /** The totals are those of the replies. */
  ghost predicate Totals(replies: seq<Reply>, rows: nat, bytes: nat, lo: nat, hi: nat)
  {
    rows == RowsOf(replies) && bytes == BytesOf(replies) && Spread(replies, lo, hi)
  }

  lemma NoTotals(replies: seq<Reply>)
    requires replies == []
    ensures Totals(replies, 0, 0, 0, 0)
  {
  }

  lemma TotalsMore(replies: seq<Reply>, n: nat, rows: nat, bytes: nat, lo: nat, hi: nat)
    requires n < |replies| && Totals(replies[..n], rows, bytes, lo, hi)
    ensures var reply := replies[n];
            if reply.Failed? then Totals(replies[..n + 1], rows, bytes, lo, hi)
            else Totals(replies[..n + 1], rows + reply.rows, bytes + reply.bytes,
                        if reply.rows > 0 && (lo == 0 || reply.bytes < lo) then reply.bytes else lo,
                        if reply.rows > 0 && reply.bytes > hi then reply.bytes else hi)
  {
    hide Spread;
    assert replies[..n + 1][..n] == replies[..n] && replies[..n + 1] == replies[..n] + [replies[n]];
    SpreadMore(replies[..n], lo, hi, replies[n]);
  }

  /** The pull loop over the replies its calls get; `StillPulling` if it would call again. */
  method RunOne(a: Args, replies: seq<Reply>) returns (r: Result, exit: Exit, fetches: nat)
    ensures fetches == Consumed(a, replies, 0)
    ensures exit == if fetches == 0 then StillPulling else ExitAt(a, replies[fetches - 1], fetches)
    ensures r.ok <==> exit in {Cancelled, Abandoned, Complete}
    ensures Totals(replies[..fetches], r.rows, r.bytes, r.bytesMin, r.bytesMax)
    ensures r.chunks == if exit == Error then fetches - 1 else fetches
    ensures exit == Complete ==> r.ownersHit == replies[fetches - 1].ownersHit
                                 && r.ownersEligible == replies[fetches - 1].ownersEligible
  {
    hide Totals;
    NoTotals(replies[..0]);
    r, exit, fetches := Result(0, 0, 0, 0, 0, 0, 0, false), StillPulling, 0;
    while fetches < |replies|
      invariant fetches <= |replies| && exit == StillPulling && !r.ok && r.chunks == fetches
      invariant Consumed(a, replies, fetches) == Consumed(a, replies, 0)
      invariant Totals(replies[..fetches], r.rows, r.bytes, r.bytesMin, r.bytesMax)
      invariant fetches > 0 ==> ExitAt(a, replies[fetches - 1], fetches) == StillPulling
    {
      var reply := replies[fetches];
      TotalsMore(replies, fetches, r.rows, r.bytes, r.bytesMin, r.bytesMax);
      fetches := fetches + 1;
      if reply.Failed? {
        exit := Error;
        return;
      }
      r := r.(chunks := r.chunks + 1, rows := r.rows + reply.rows, bytes := r.bytes + reply.bytes);
      if reply.rows > 0 {
        if r.bytesMin == 0 || reply.bytes < r.bytesMin {
          r := r.(bytesMin := reply.bytes);
        }
        if reply.bytes > r.bytesMax {
          r := r.(bytesMax := reply.bytes);
        }
      }
      if a.cancelAfter && r.chunks >= a.cancelAfterChunks {
        exit, r := Cancelled, r.(ok := true);
        return;
      }
      if a.limitChunks >= 0 && r.chunks >= a.limitChunks {
        exit, r := Abandoned, r.(ok := true);
        return;
      }
      if reply.last {
        exit, r := Complete, r.(ok := true, ownersHit := reply.ownersHit, ownersEligible := reply.ownersEligible);
        return;
      }
    }
  }

  // --- What the client sees of a run -----------------------------------------------------

  const TO_THE_END := Args(false, 0, -1)

  /** `replies` are the replies the run `trace` gave to the client. */
  ghost predicate Observed(c: Config, trace: seq<Event>, s: State, replies: seq<Reply>)
    decreases |trace|
  {
    if trace == [] then Init(c, s) && replies == [] else
    exists prev: State, before: seq<Reply> :: ObservedStep(c, trace, prev, before, s, replies)
  }

  ghost predicate ObservedStep(c: Config, trace: seq<Event>, prev: State, before: seq<Reply>,
                               s: State, replies: seq<Reply>)
    requires trace != []
    decreases |trace|, 0
  {
    && RunStep(c, trace, prev, s) && Observed(c, trace[..|trace| - 1], prev, before)
    && if trace[|trace| - 1].Fetch? then replies != [] && replies[..|replies| - 1] == before
                                         && ReplyIs(replies[|replies| - 1], prev, s)
       else replies == before
  }

  ghost predicate ReplyIs(reply: Reply, prev: State, s: State)
  {
    reply.Chunk? && |s.delivered| == |prev.delivered| + reply.rows && reply.last == s.finished
  }

  /** Every reply but the last one of a finished run asks for another call. */
  ghost predicate LastIsLast(replies: seq<Reply>, finished: bool)
  {
    && (forall k :: 0 <= k < |replies| ==> replies[k].Chunk? && (replies[k].rows > 0 || replies[k].last))
    && (forall k :: 0 <= k < |replies| - 1 ==> !replies[k].last)
    && (finished ==> replies != [])
    && (replies != [] ==> (replies[|replies| - 1].last <==> finished))
  }

  lemma {:induction false} ObservedMeans(c: Config, trace: seq<Event>, s: State, replies: seq<Reply>)
    requires Observed(c, trace, s, replies) && PositiveFetches(trace)
    ensures Run(c, trace, s) && |s.legs| == |c.legs|
    ensures LastIsLast(replies, s.finished) && RowsOf(replies) == |s.delivered|
    decreases |trace|
  {
    if trace != [] {
      var n := |trace| - 1;
      var prev: State, before: seq<Reply> :| ObservedStep(c, trace, prev, before, s, replies);
      assert PositiveFetches(trace[..n]);
      ObservedMeans(c, trace[..n], prev, before);
      if trace[n].Fetch? {
        FetchProgress(c, prev, trace[n].max);
        Extends(before, replies, prev.finished, s.finished);
      }
    }
  }

  lemma Extends(before: seq<Reply>, replies: seq<Reply>, was: bool, finished: bool)
    requires LastIsLast(before, was) && !was && replies != [] && replies[..|replies| - 1] == before
    requires var r := replies[|replies| - 1];
             r.Chunk? && (r.rows > 0 || r.last) && (r.last <==> finished)
    ensures LastIsLast(replies, finished)
  {
    forall k | 0 <= k < |replies| - 1
      ensures replies[k] == before[k]
    {
    }
  }

  lemma {:induction false} ConsumesAll(replies: seq<Reply>, from: nat)
    requires from <= |replies|
    requires forall k :: 0 <= k < |replies| ==> replies[k].Chunk?
    requires forall k :: 0 <= k < |replies| - 1 ==> !replies[k].last
    ensures Consumed(TO_THE_END, replies, from) == |replies|
    decreases |replies| - from
  {
    if from < |replies| && ExitAt(TO_THE_END, replies[from], from + 1) == StillPulling {
      ConsumesAll(replies, from + 1);
    }
  }

  lemma {:induction false} RowsPay(replies: seq<Reply>)
    requires forall k :: 0 <= k < |replies| ==> replies[k].Chunk? && (replies[k].rows > 0 || replies[k].last)
    requires forall k :: 0 <= k < |replies| - 1 ==> !replies[k].last
    ensures |replies| <= RowsOf(replies) + 1
    ensures replies != [] && !replies[|replies| - 1].last ==> |replies| <= RowsOf(replies)
  {
    if replies != [] {
      RowsPay(replies[..|replies| - 1]);
    }
  }

  /** A client that pulls to the end stops exactly at the reply that ends the request, has
      counted every delivered row, and has called at most once more than it got rows. */
  lemma ClientSeesAll(c: Config, trace: seq<Event>, s: State, replies: seq<Reply>)
    requires Observed(c, trace, s, replies) && PositiveFetches(trace)
    ensures Consumed(TO_THE_END, replies, 0) == |replies| <= RowsOf(replies) + 1
    ensures RowsOf(replies) == |s.delivered|
    ensures s.finished <==> replies != [] && ExitAt(TO_THE_END, replies[|replies| - 1], |replies|) == Complete
  {
    ObservedMeans(c, trace, s, replies);
    ConsumesAll(replies, 0);
    RowsPay(replies);
  }
}
