/** The per-request object of a node, with its critical sections as methods.

    The methods marked as blocks are what the step machine of module Gather
    interleaves; at the end of this file each of them is shown to be the
    machine's step.  The methods that put blocks together say what happens when
    nobody comes between them, and are shown to be runs of those steps. */
module RequestStates {
  import opened Basics
  import opened Drain
  import opened Gather

  type Owner = string

  class RequestState<Row(0)> {
    const self: Owner
    const remote: seq<Owner>            // the other data owners, in overlay order
    const ownsData: bool                // this node is itself in `data_owners`
    const fill: nat -> Row              // copies one partition row into a message
    const weight: int

    // producer side
    var matchedIndices: seq<nat>
    var matchedCursor: nat
    var matched: seq<Row>
    var doneProducing: bool
    ghost var positions: seq<nat>       // which match each row of `matched` is
    // gateway side
    var prefetchBuf: map<Owner, seq<Row>>
    var prefetchDone: map<Owner, bool>
    var producersDone: map<Owner, bool>
    var perOwnerRows: map<Owner, int>
    var responded: set<Owner>
    var totalMatched: int
    var clientLastSeq: int
    var lastDeliveredSeq: int

    ghost predicate Valid()
      reads this
    {
      && (forall i, j :: 0 <= i < j < |remote| ==> remote[i] != remote[j])
      && self !in remote
      && matchedCursor <= |matchedIndices|
      && |matched| == |positions|
      && (forall k :: 0 <= k < |matched| ==>
            positions[k] < |matchedIndices| && matched[k] == fill(matchedIndices[positions[k]]))
      && (forall o :: o in remote ==> o in prefetchBuf && o in prefetchDone && o in producersDone && o in perOwnerRows)
      && self in producersDone && self in perOwnerRows
    }

    constructor (self: Owner, remote: seq<Owner>, ownsData: bool, fill: nat -> Row, weight: int,
                 indices: seq<nat>, skip: bool, eligible: set<Owner>)
      requires forall i, j :: 0 <= i < j < |remote| ==> remote[i] != remote[j]
      requires self !in remote
      ensures Valid()
      ensures this.self == self && this.remote == remote && this.ownsData == ownsData && this.weight == weight
      ensures matchedIndices == indices && matchedCursor == 0 && matched == [] && positions == []
      ensures doneProducing == skip
      ensures forall o :: o in remote ==> prefetchBuf[o] == [] && !prefetchDone[o]
      ensures forall o :: o in remote || o == self ==> producersDone[o] == (o !in eligible) && perOwnerRows[o] == 0
      ensures responded == if self in eligible then {self} else {}
      ensures totalMatched == 0 && clientLastSeq == -1 && lastDeliveredSeq == -1
    {
      this.self, this.remote, this.ownsData, this.fill, this.weight := self, remote, ownsData, fill, weight;
      matchedIndices, matchedCursor, matched, positions := indices, 0, [], [];
      doneProducing := skip;
      prefetchBuf := map o | o in remote :: [];
      prefetchDone := map o | o in remote :: false;
      producersDone := map o | o in remote + [self] :: o !in eligible;
      perOwnerRows := map o | o in remote + [self] :: 0;
      responded := if self in eligible then {self} else {};
      totalMatched, clientLastSeq, lastDeliveredSeq := 0, -1, -1;
    }

    function Quantum(): nat
    {
      256 * (if weight > 1 then weight else 1)
    }

    /** Rows the next producer tick pushes if nobody else touches the deque. */
    function TickRows(): (k: nat)
      requires matchedCursor <= |matchedIndices|
      reads this
    {
      if |matched| >= MAX_BUFFERED then 0
      else Min(Min(|matchedIndices| - matchedCursor, Quantum()), MAX_BUFFERED - |matched|)
    }

    /** `matched` is `before` followed by matches `from`, `from` + 1, ... */
    ghost predicate Extends(before: seq<Row>, old_positions: seq<nat>, from: nat)
      reads this
    {
      && |before| == |old_positions| && |matched| == |positions| && before <= matched && old_positions <= positions
      && forall k :: |before| <= k < |matched| ==> positions[k] == from + k - |before|
    }

    /** Block: may a tick begin, and up to which match? */
    method BeginTick() returns (go: bool, limit: nat)
      requires Valid()
      ensures go <==> !doneProducing && |matched| < MAX_BUFFERED
      ensures limit == Min(|matchedIndices|, matchedCursor + Quantum())
    {
      limit := Min(|matchedIndices|, matchedCursor + Quantum());
      go := !doneProducing && |matched| < MAX_BUFFERED;
    }

    /** Block: the locked push of one row; `full` ends the tick. */
    method PushRow(i: nat) returns (full: bool)
      requires Valid() && i < |matchedIndices|
      modifies `matched, `positions
      ensures Valid() && matched == old(matched) + [fill(matchedIndices[i])] && positions == old(positions) + [i]
      ensures full <==> |matched| >= MAX_BUFFERED
    {
      matched := matched + [fill(matchedIndices[i])];
      positions := positions + [i];
      full := |matched| >= MAX_BUFFERED;
    }

    /** Block: the cursor is stored, and the done flag if the list is used up. */
    method FinishTick(i: nat)
      requires Valid() && i <= |matchedIndices|
      modifies `matchedCursor, `doneProducing
      ensures Valid() && matchedCursor == i
      ensures doneProducing == (old(doneProducing) || i == |matchedIndices|)
    {
      matchedCursor := i;
      if i >= |matchedIndices| {
        doneProducing := true;
      }
    }

    /** The push loop of a tick: up to `limit`, or until the deque holds 8192 rows. */
    method PushRows(limit: nat) returns (i: nat)
      requires Valid() && matchedCursor <= limit <= |matchedIndices| && |matched| < MAX_BUFFERED
      modifies `matched, `positions
      ensures Valid() && |matched| <= MAX_BUFFERED
      ensures i == matchedCursor + Min(limit - matchedCursor, MAX_BUFFERED - |old(matched)|)
      ensures |matched| == |old(matched)| + (i - matchedCursor)
      ensures Extends(old(matched), old(positions), matchedCursor)
    {
      i := matchedCursor;
      while i < limit
        invariant matchedCursor <= i <= limit && Valid()
        invariant |matched| == |old(matched)| + (i - matchedCursor) < MAX_BUFFERED
        invariant Extends(old(matched), old(positions), matchedCursor)
      {
        var full := PushRow(i);
        i := i + 1;
        if full {
          break;
        }
      }
    }

    /** One round of produce_loop for this request, if no pull comes between its blocks.
        It pushes the next matches in order, stops at its quantum, at the end of the match
        list or when the deque holds 8192 rows, and raises the done flag exactly when the
        list is used up. */
    method ProduceTick()
      requires Valid()
      modifies `matched, `matchedCursor, `doneProducing, `positions
      ensures Valid()
      ensures matchedCursor == old(matchedCursor) + (if old(doneProducing) then 0 else old(TickRows()))
      ensures !old(doneProducing) && |old(matched)| < 8192 ==>
                matchedCursor - old(matchedCursor)
                == Min(Min(|matchedIndices| - old(matchedCursor), 256 * Max(1, weight)), 8192 - |old(matched)|)
      ensures |matched| == |old(matched)| + (matchedCursor - old(matchedCursor))
      ensures Extends(old(matched), old(positions), old(matchedCursor))
      ensures doneProducing == (old(doneProducing)
                || (|old(matched)| < MAX_BUFFERED && matchedCursor == |matchedIndices|))
      ensures |old(matched)| <= MAX_BUFFERED ==> |matched| <= MAX_BUFFERED
    {
      var go, limit := BeginTick();
      if !go {
        return;
      }
      var i := PushRows(limit);
      FinishTick(i);
    }

    /** Block: the locked drain of a pull. */
    method DrainRows(maxRows: int) returns (out: seq<Row>)
      requires Valid()
      modifies `matched, `positions
      ensures Valid()
      ensures out + matched == old(matched) && |out| == (if maxRows <= 0 then 0 else Min(maxRows, |old(matched)|))
    {
      out := [];
      while matched != [] && |out| < maxRows
        invariant Valid() && out + matched == old(matched)
        invariant |out| <= (if maxRows <= 0 then 0 else maxRows)
        decreases |matched|
      {
        out := out + [matched[0]];
        matched := matched[1..];
        positions := positions[1..];
      }
    }

    /** Block: the locked re-check, for the done flag as it was read after the drain. */
    method Recheck(doneProd: bool, out: seq<Row>) returns (last: bool)
      ensures last <==> doneProd && matched == [] && out == []
    {
      last := doneProd && matched == [] && out == [];
    }

    /** PullChunk, if nobody comes between its blocks: rows leave the front of the deque in
        order, and `last` is reported only for an empty reply after everything was produced. */
    method ServePull(maxRows: int) returns (out: seq<Row>, last: bool, backlog: nat)
      requires Valid()
      modifies `matched, `positions, `lastDeliveredSeq
      ensures Valid()
      ensures out + matched == old(matched) && |out| == (if maxRows <= 0 then 0 else Min(maxRows, |old(matched)|))
      ensures last <==> doneProducing && old(matched) == []
      ensures backlog == |matched|
      ensures lastDeliveredSeq == old(lastDeliveredSeq) + 1
    {
      lastDeliveredSeq := lastDeliveredSeq + 1;
      out := DrainRows(maxRows);
      var doneProd := doneProducing;
      last := Recheck(doneProd, out);
      backlog := |matched|;
    }

    /** The prefetcher's reply block: an ok reply fills the owner's slot and ends the
        prefetcher exactly on `last`. */
    method ReceiveChunk(owner: Owner, rows: seq<Row>, last: bool) returns (stop: bool)
      requires Valid() && owner in remote
      modifies `prefetchBuf, `prefetchDone, `responded
      ensures Valid() && stop == last
      ensures responded == old(responded) + {owner}
      ensures prefetchBuf == old(prefetchBuf)[owner := old(prefetchBuf)[owner] + rows]
      ensures prefetchDone == old(prefetchDone)[owner := old(prefetchDone)[owner] || last]
    {
      responded := responded + {owner};
      assert prefetchBuf[owner] + rows[..0] == prefetchBuf[owner];
      for k := 0 to |rows|
        invariant Valid() && prefetchDone == old(prefetchDone) && responded == old(responded) + {owner}
        invariant prefetchBuf == old(prefetchBuf)[owner := old(prefetchBuf)[owner] + rows[..k]]
      {
        assert rows[..k + 1] == rows[..k] + [rows[k]];
        assert old(prefetchBuf)[owner] + rows[..k] + [rows[k]] == old(prefetchBuf)[owner] + rows[..k + 1];
        prefetchBuf := prefetchBuf[owner := prefetchBuf[owner] + [rows[k]]];
      }
      assert rows[..|rows|] == rows;
      if last {
        prefetchDone := prefetchDone[owner := true];
      }
      stop := last;
    }

    /** The prefetcher's error block: the owner counts as done, its slot is untouched. */
    method FailOwner(owner: Owner)
      requires Valid() && owner in remote
      modifies `prefetchDone, `producersDone
      ensures Valid()
      ensures prefetchDone == old(prefetchDone)[owner := true]
      ensures producersDone == old(producersDone)[owner := true]
    {
      prefetchDone := prefetchDone[owner := true];
      producersDone := producersDone[owner := true];
    }

    /** The row sources of a FetchChunk: own deque first, then the slots in overlay order. */
    function Sources(): (s: seq<seq<Row>>)
      requires forall o :: o in remote ==> o in prefetchBuf
      reads this
      ensures |s| == |remote| + 1 && s[0] == matched
      ensures forall j :: 0 <= j < |remote| ==> s[j + 1] == prefetchBuf[remote[j]]
    {
      var bufs := prefetchBuf;
      [matched] + seq(|remote|, j requires 0 <= j < |remote| && remote[j] in bufs => bufs[remote[j]])
    }

    /** Owner of source `i`. */
    function SourceOwner(i: nat): Owner
      requires i <= |remote|
    {
      if i == 0 then self else remote[i - 1]
    }

    /** The buffers and per-owner counts when sources `src` were drained up to position
        (`r`, `n`), starting from the counts `before`. */
    ghost predicate DrainedTo(src: seq<seq<Row>>, before: map<Owner, int>, r: nat, n: nat)
      reads this
    {
      && Valid()
      && n <= |src| == |remote| + 1
      && self in before && (forall o :: o in remote ==> o in before)
      && matched == src[0][Share(src, r, n, 0)..]
      && perOwnerRows[self] == before[self] + Share(src, r, n, 0)
      && forall j :: 0 <= j < |remote| ==>
           && prefetchBuf[remote[j]] == src[j + 1][Share(src, r, n, j + 1)..]
           && perOwnerRows[remote[j]] == before[remote[j]] + Share(src, r, n, j + 1)
    }

    /** What drain position (`r`, `i`) takes from source `i`. */
    ghost function Next(src: seq<seq<Row>>, r: nat, i: nat): seq<Emit<Row>>
      requires i < |src|
    {
      if r < |src[i]| then [Emit(i, src[i][r])] else []
    }

    /** The self part of a round: one row from the own deque, if it has one. */
    method DrainSelf(ghost src: seq<seq<Row>>, ghost r: nat, ghost counts: map<Owner, int>) returns (e: seq<Emit<Row>>)
      requires DrainedTo(src, counts, r, 0)
      modifies `matched, `positions, `perOwnerRows, `totalMatched
      ensures DrainedTo(src, counts, r, 1)
      ensures e == Next(src, r, 0) && totalMatched == old(totalMatched) + |e|
    {
      e := [];
      if matched != [] {
        e := [Emit(0, matched[0])];
        matched := matched[1..];
        positions := positions[1..];
        perOwnerRows := perOwnerRows[self := perOwnerRows[self] + 1];
        totalMatched := totalMatched + 1;
      }
    }

    /** One remote owner of a round: one row from its slot, if it has one. */
    method DrainSlot(j: nat, ghost src: seq<seq<Row>>, ghost r: nat, ghost counts: map<Owner, int>)
      returns (e: seq<Emit<Row>>)
      requires j < |remote| && |src| == |remote| + 1 && DrainedTo(src, counts, r, j + 1)
      modifies `prefetchBuf, `perOwnerRows, `totalMatched
      ensures DrainedTo(src, counts, r, j + 2)
      ensures e == Next(src, r, j + 1) && totalMatched == old(totalMatched) + |e|
    {
      var o := remote[j];
      e := [];
      if prefetchBuf[o] != [] {
        e := [Emit(j + 1, prefetchBuf[o][0])];
        prefetchBuf := prefetchBuf[o := prefetchBuf[o][1..]];
        perOwnerRows := perOwnerRows[o := perOwnerRows[o] + 1];
        totalMatched := totalMatched + 1;
      }
    }

    /** A full round that emits nothing has found every source empty. */
    lemma {:induction false} SilentRound(src: seq<seq<Row>>, r: nat, n: nat)
      requires n <= |src| && Round(src, r, n) == []
      ensures forall i :: 0 <= i < n ==> |src[i]| <= r
    {
      if n > 0 {
        SilentRound(src, r, n - 1);
      }
    }

    lemma RoundStep(src: seq<seq<Row>>, r: nat, n: nat)
      requires n < |src|
      ensures Round(src, r, n + 1) == Round(src, r, n) + Next(src, r, n)
    {
    }

    /** One round over all sources, cut short when the chunk is full. */
    method DrainRound(room: nat, ghost src: seq<seq<Row>>, ghost r: nat, ghost counts: map<Owner, int>)
      returns (out: seq<Emit<Row>>, ghost n: nat)
      requires room > 0 && |src| == |remote| + 1 && DrainedTo(src, counts, r, 0)
      modifies `matched, `positions, `prefetchBuf, `perOwnerRows, `totalMatched
      ensures n <= |src| && DrainedTo(src, counts, r, n)
      ensures out == Round(src, r, n) && |out| <= room && (|out| == room || n == |src|)
      ensures totalMatched == old(totalMatched) + |out|
    {
      hide DrainedTo;
      n := 0;
      out := DrainSelf(src, r, counts);
      RoundStep(src, r, 0);
      n := 1;
      if |out| >= room {
        return;
      }
      var j := 0;
      while j < |remote|
        invariant j <= |remote| && n == j + 1
        invariant DrainedTo(src, counts, r, n)
        invariant out == Round(src, r, n) && |out| < room
        invariant totalMatched == old(totalMatched) + |out|
      {
        var e := DrainSlot(j, src, r, counts);
        RoundStep(src, r, n);
        out := out + e;
        n, j := n + 1, j + 1;
        if |out| >= room {
          return;
        }
      }
    }

    lemma NothingEmitted(src: seq<seq<Row>>)
      ensures Emitted(src, 0, 0) == []
    {
    }

    /** A further round, and what a whole one comes to. */
    lemma EmittedRound(src: seq<seq<Row>>, r: nat, n: nat)
      requires n <= |src|
      ensures Emitted(src, r, 0) + Round(src, r, n) == Emitted(src, r, n)
      ensures n == |src| ==> Emitted(src, r, n) == Emitted(src, r + 1, 0)
    {
    }

    /** The drain loop of FetchChunk: rounds until the chunk is full or a round is silent. */
    method DrainRounds(maxRows: int, ghost src: seq<seq<Row>>, ghost counts: map<Owner, int>)
      returns (out: seq<Emit<Row>>, ghost r: nat, ghost n: nat)
      requires |src| == |remote| + 1 && DrainedTo(src, counts, 0, 0)
      modifies `matched, `positions, `prefetchBuf, `perOwnerRows, `totalMatched
      ensures n <= |src| && DrainedTo(src, counts, r, n) && out == Emitted(src, r, n)
      ensures if maxRows > 0 then |out| <= maxRows else out == []
      ensures |out| >= maxRows || forall i :: 0 <= i < |src| ==> |src[i]| <= r
      ensures totalMatched == old(totalMatched) + |out|
    {
      hide DrainedTo, Emitted, Round;
      r, n := 0, 0;
      out := [];
      NothingEmitted(src);
      while |out| < maxRows
        invariant n <= |src| && (n == 0 || |out| >= maxRows)
        invariant out == Emitted(src, r, n)
        invariant if maxRows > 0 then |out| <= maxRows else out == []
        invariant DrainedTo(src, counts, r, n)
        invariant totalMatched == old(totalMatched) + |out|
        decreases maxRows - |out|
      {
        var round;
        round, n := DrainRound(maxRows - |out|, src, r, counts);
        EmittedRound(src, r, n);
        out := out + round;
        if round == [] {
          SilentRound(src, r, n);
          break;
        }
        if n == |src| {
          WholeRound(src, counts, r);
          r, n := r + 1, 0;
        }
      }
    }

    lemma StartDrain(src: seq<seq<Row>>, counts: map<Owner, int>)
      requires Valid() && src == Sources() && counts == perOwnerRows
      ensures DrainedTo(src, counts, 0, 0)
    {
    }

    lemma WholeRound(src: seq<seq<Row>>, counts: map<Owner, int>, r: nat)
      requires DrainedTo(src, counts, r, |src|)
      ensures DrainedTo(src, counts, r + 1, 0)
    {
    }

    /** A FetchChunk drain emits the round-robin interleaving of the sources up to
        `maxRows` rows, and removes from each source exactly what it emitted of it. */
    method Drain(maxRows: int) returns (out: seq<Emit<Row>>)
      requires Valid()
      modifies `matched, `positions, `prefetchBuf, `perOwnerRows, `totalMatched
      ensures Valid()
      ensures out == Take(old(Sources()), maxRows)
      ensures forall i: nat :: i <= |remote| ==>
                Project(out, i) <= old(Sources())[i] && Sources()[i] == old(Sources())[i][|Project(out, i)|..]
      ensures forall i: nat :: i <= |remote| ==>
                perOwnerRows[SourceOwner(i)] == old(perOwnerRows)[SourceOwner(i)] + |Project(out, i)|
      ensures totalMatched == old(totalMatched) + |out|
    {
      ghost var src, counts := Sources(), perOwnerRows;
      ghost var r, n;
      hide DrainedTo;
      StartDrain(src, counts);
      out, r, n := DrainRounds(maxRows, src, counts);
      FinishDrain(src, r, n, maxRows, out);
      ReadDrained(src, counts, r, n, out);
    }

    /** What a drain position means for one source. */
    lemma ReadOne(src: seq<seq<Row>>, counts: map<Owner, int>, r: nat, n: nat, i: nat)
      requires DrainedTo(src, counts, r, n) && i < |src|
      ensures Sources()[i] == src[i][Share(src, r, n, i)..]
      ensures SourceOwner(i) in counts
      ensures perOwnerRows[SourceOwner(i)] == counts[SourceOwner(i)] + Share(src, r, n, i)
    {
      if i > 0 {
        var j := i - 1;
        assert prefetchBuf[remote[j]] == src[j + 1][Share(src, r, n, j + 1)..];
      }
    }

    /** What a drain position means for the buffers and the counts. */
    lemma ReadDrained(src: seq<seq<Row>>, counts: map<Owner, int>, r: nat, n: nat, out: seq<Emit<Row>>)
      requires DrainedTo(src, counts, r, n)
      requires forall i: nat :: i < |src| ==> Project(out, i) == src[i][..Share(src, r, n, i)]
      ensures Valid() && |src| == |remote| + 1
      ensures forall i: nat :: i <= |remote| ==>
                Project(out, i) <= src[i] && Sources()[i] == src[i][|Project(out, i)|..]
      ensures forall i: nat :: i <= |remote| ==>
                SourceOwner(i) in counts && perOwnerRows[SourceOwner(i)] == counts[SourceOwner(i)] + |Project(out, i)|
    {
      forall i: nat | i <= |remote|
        ensures Project(out, i) <= src[i] && Sources()[i] == src[i][|Project(out, i)|..]
        ensures SourceOwner(i) in counts && perOwnerRows[SourceOwner(i)] == counts[SourceOwner(i)] + |Project(out, i)|
      {
        ReadOne(src, counts, r, n, i);
        assert |Project(out, i)| == Share(src, r, n, i);
      }
    }

    /** True once owner `o` will yield nothing more. */
    ghost predicate OwnerFinished(o: Owner)
      requires Valid() && (o == self || o in remote)
      reads this
    {
      if o == self then doneProducing && matched == [] else prefetchDone[o] && prefetchBuf[o] == []
    }

    /** Marks the owners that are used up. */
    method Promote()
      requires Valid()
      modifies `producersDone
      ensures Valid()
      ensures forall o :: o == self || o in remote ==> producersDone[o] == (old(producersDone)[o] || OwnerFinished(o))
    {
      if doneProducing && matched == [] {
        producersDone := producersDone[self := true];
      }
      for j := 0 to |remote|
        invariant Valid()
        invariant producersDone[self] == (old(producersDone)[self] || OwnerFinished(self))
        invariant forall i :: 0 <= i < |remote| ==>
                    producersDone[remote[i]] == (old(producersDone)[remote[i]] || (i < j && OwnerFinished(remote[i])))
      {
        var o := remote[j];
        if prefetchDone[o] && prefetchBuf[o] == [] {
          producersDone := producersDone[o := true];
        }
      }
    }

    method AllDone() returns (allDone: bool)
      requires Valid()
      ensures allDone <==> (ownsData ==> producersDone[self]) && forall o :: o in remote ==> producersDone[o]
    {
      allDone := !ownsData || producersDone[self];
      for j := 0 to |remote|
        invariant allDone <==> (ownsData ==> producersDone[self]) && forall i :: 0 <= i < j ==> producersDone[remote[i]]
      {
        if !producersDone[remote[j]] {
          allDone := false;
          break;
        }
      }
    }

    /** FetchChunk past its wait: drain, mark the owners that are used up, and report
        the last chunk exactly when every data owner is marked. */
    method FetchChunk(maxRows: int) returns (out: seq<Emit<Row>>, allDone: bool)
      requires Valid()
      modifies `matched, `positions, `prefetchBuf, `perOwnerRows, `totalMatched, `producersDone, `clientLastSeq
      ensures Valid()
      ensures out == Take(old(Sources()), maxRows)
      ensures forall i: nat :: i <= |remote| ==>
                Project(out, i) <= old(Sources())[i] && Sources()[i] == old(Sources())[i][|Project(out, i)|..]
      ensures forall o :: o == self || o in remote ==> producersDone[o] == (old(producersDone)[o] || OwnerFinished(o))
      ensures allDone <==> (ownsData ==> producersDone[self]) && forall o :: o in remote ==> producersDone[o]
      ensures totalMatched == old(totalMatched) + |out| && clientLastSeq == old(clientLastSeq) + 1
    {
      clientLastSeq := clientLastSeq + 1;
      out := Drain(maxRows);
      Promote();
      allDone := AllDone();
    }

    /** A position that is full, or past every source, is what Take describes. */
    lemma FinishDrain(src: seq<seq<Row>>, r: nat, n: nat, maxRows: int, out: seq<Emit<Row>>)
      requires n <= |src| && out == Emitted(src, r, n)
      requires maxRows > 0 ==> |out| <= maxRows
      requires maxRows <= 0 ==> out == []
      requires |out| >= maxRows || forall i :: 0 <= i < |src| ==> |src[i]| <= r
      ensures out == Take(src, maxRows)
      ensures forall i: nat :: i < |src| ==> Project(out, i) == src[i][..Share(src, r, n, i)]
    {
      EmittedIsPrefix(src, r, n);
      forall i: nat | i < |src|
        ensures Project(out, i) == src[i][..Share(src, r, n, i)]
      {
        EmittedProject(src, r, n, i);
      }
      if |out| < maxRows {
        var m := Longest(src);
        EmptyRound(src, r, n);
        if r <= m {
          RoundsSaturate(src, r, m);
        } else {
          RoundsSaturate(src, m, r);
        }
      }
    }
  }

  // --- The methods and the step machine ------------------------------------------

  /** What FetchChunk and the prefetcher know of one owner: the rows held for it, whether it
      is marked done, whether it answered, and whether its producer (own shard) or its
      prefetcher (remote owner) has finished. */
  datatype View = View(source: seq<nat>, marked: bool, responded: bool, finished: bool)

  function LegView(l: Leg, local: bool): View
  {
    if local then View(l.matched, l.ownerDone, l.responded, l.done)
    else View(l.slot, l.ownerDone, l.responded, l.prefetchDone)
  }

  function OwnView(st: RequestState<nat>): View
    requires st.self in st.producersDone
    reads st
  {
    View(st.matched, st.producersDone[st.self], st.self in st.responded, st.doneProducing)
  }

  function SlotView(st: RequestState<nat>, o: Owner): View
    requires o in st.prefetchBuf && o in st.producersDone && o in st.prefetchDone
    reads st
  {
    View(st.prefetchBuf[o], st.producersDone[o], o in st.responded, st.prefetchDone[o])
  }

  /** `st`, with rows named by their positions, holds what the gateway holds in `legs`. */
  ghost predicate Represents(st: RequestState<nat>, c: Config, legs: seq<Leg>)
    reads st
  {
    && st.Valid() && |legs| == |c.legs| == |st.remote| + 1
    && st.ownsData == c.gatewayOwnsData
    && OwnView(st) == LegView(legs[0], true)
    && forall j :: 0 <= j < |st.remote| ==> SlotView(st, st.remote[j]) == LegView(legs[j + 1], false)
  }

  lemma RepresentedSources(st: RequestState<nat>, c: Config, legs: seq<Leg>)
    requires Represents(st, c, legs)
    ensures st.Sources() == Gather.Sources(legs)
  {
    var a, b := st.Sources(), Gather.Sources(legs);
    forall i: nat | i < |legs|
      ensures a[i] == b[i]
    {
      if i > 0 {
        assert SlotView(st, st.remote[i - 1]) == LegView(legs[i - 1 + 1], false);
        assert a[i - 1 + 1] == st.prefetchBuf[st.remote[i - 1]];
      }
    }
  }

  /** One leg of the machine after a Fetch. */
  lemma ViewAfterFetch(c: Config, s: State, max: int, i: nat)
    requires i < |s.legs| == |c.legs|
    ensures var taken := Project(Take(Gather.Sources(s.legs), max), i);
            var was := LegView(s.legs[i], i == 0);
            && taken <= Source(s.legs, i) == was.source
            && LegView(ApplyFetch(c, s, max).legs[i], i == 0)
               == was.(source := was.source[|taken|..],
                       marked := was.marked || (was.finished && was.source[|taken|..] == []))
  {
    hide Take, Project;
    var out := Take(Gather.Sources(s.legs), max);
    TakeIsFifo(Gather.Sources(s.legs), max, i);
    assert ApplyFetch(c, s, max).legs[i] == DrainLeg(s.legs, out, i);
  }

  lemma FetchResult(c: Config, s: State, max: int)
    requires |s.legs| == |c.legs|
    ensures var s' := ApplyFetch(c, s, max);
            && |s'.legs| == |c.legs|
            && s'.delivered == s.delivered + Take(Gather.Sources(s.legs), max)
            && (s'.finished <==> AllOwnersDone(c, s'.legs))
  {
  }

  lemma AllDoneAgrees(st: RequestState<nat>, c: Config, legs: seq<Leg>)
    requires Represents(st, c, legs)
    ensures AllOwnersDone(c, legs)
       <==> (st.ownsData ==> st.producersDone[st.self]) && forall o :: o in st.remote ==> st.producersDone[o]
  {
    forall j | 0 <= j < |st.remote|
      ensures st.producersDone[st.remote[j]] == legs[j + 1].ownerDone
    {
      assert SlotView(st, st.remote[j]) == LegView(legs[j + 1], false);
    }
    if (st.ownsData ==> st.producersDone[st.self]) && forall o :: o in st.remote ==> st.producersDone[o] {
      forall i: nat | i < |legs| && (i > 0 || c.gatewayOwnsData)
        ensures legs[i].ownerDone
      {
        if i > 0 {
          assert st.producersDone[st.remote[i - 1]] == legs[i - 1 + 1].ownerDone;
        }
      }
    }
  }

  /** The object's views after FetchChunk, from those before it. */
  ghost predicate Fetched(st: RequestState<nat>, before: seq<View>, out: seq<Emit<nat>>)
    requires st.Valid() && |before| == |st.remote| + 1
    reads st
  {
    && FetchedView(OwnView(st), before[0], Project(out, 0))
    && forall j :: 0 <= j < |st.remote| ==>
         FetchedView(SlotView(st, st.remote[j]), before[j + 1], Project(out, j + 1))
  }

  ghost predicate FetchedView(v: View, was: View, taken: seq<nat>)
  {
    && taken <= was.source
    && v == was.(source := was.source[|taken|..], marked := was.marked || (was.finished && was.source[|taken|..] == []))
  }

  function LegViews(legs: seq<Leg>): (r: seq<View>)
    ensures |r| == |legs| && forall i :: 0 <= i < |r| ==> r[i] == LegView(legs[i], i == 0)
  {
    seq(|legs|, i requires 0 <= i < |legs| => LegView(legs[i], i == 0))
  }

  lemma AllAfterFetch(st: RequestState<nat>, c: Config, s: State, max: int)
    requires st.Valid() && |s.legs| == |c.legs| == |st.remote| + 1 && st.ownsData == c.gatewayOwnsData
    requires Fetched(st, LegViews(s.legs), Take(Gather.Sources(s.legs), max))
    ensures Represents(st, c, ApplyFetch(c, s, max).legs)
  {
    hide Take, Project, ApplyFetch, LegView, OwnView, SlotView;
    FetchResult(c, s, max);
    var legs := ApplyFetch(c, s, max).legs;
    ViewAfterFetch(c, s, max, 0);
    forall j | 0 <= j < |st.remote|
      ensures SlotView(st, st.remote[j]) == LegView(legs[j + 1], false)
    {
      ViewAfterFetch(c, s, max, j + 1);
    }
  }

  /** FetchChunk seen through the views. */
  method FetchViews(st: RequestState<nat>, ghost before: seq<View>, maxRows: int)
    returns (out: seq<Emit<nat>>, allDone: bool)
    requires st.Valid() && |before| == |st.remote| + 1 && before[0] == OwnView(st)
    requires forall j :: 0 <= j < |st.remote| ==> before[j + 1] == SlotView(st, st.remote[j])
    modifies st`matched, st`positions, st`prefetchBuf, st`perOwnerRows, st`totalMatched, st`producersDone,
      st`clientLastSeq
    ensures st.Valid() && out == Take(old(st.Sources()), maxRows) && Fetched(st, before, out)
    ensures allDone <==>
            (st.ownsData ==> st.producersDone[st.self]) && forall o :: o in st.remote ==> st.producersDone[o]
  {
    hide Take, Project, RequestState.Sources;
    ghost var src := st.Sources();
    out, allDone := st.FetchChunk(maxRows);
    assert FetchedView(OwnView(st), before[0], Project(out, 0)) by {
      assert Project(out, 0) <= src[0] && st.Sources()[0] == src[0][|Project(out, 0)|..];
    }
    forall j | 0 <= j < |st.remote|
      ensures FetchedView(SlotView(st, st.remote[j]), before[j + 1], Project(out, j + 1))
    {
      assert st.remote[j] in st.remote;
      assert src[j + 1] == before[j + 1].source && st.Sources()[j + 1] == st.prefetchBuf[st.remote[j]];
      assert Project(out, j + 1) <= src[j + 1] && st.Sources()[j + 1] == src[j + 1][|Project(out, j + 1)|..];
    }
  }

  /** FetchChunk of the request object is the Fetch step of the machine. */
  method FetchIsStep(st: RequestState<nat>, ghost c: Config, ghost s: State, maxRows: int)
    returns (out: seq<Emit<nat>>, allDone: bool)
    requires |s.legs| == |c.legs| && Represents(st, c, s.legs)
    modifies st`matched, st`positions, st`prefetchBuf, st`perOwnerRows, st`totalMatched, st`producersDone,
      st`clientLastSeq
    ensures Represents(st, c, ApplyFetch(c, s, maxRows).legs)
    ensures ApplyFetch(c, s, maxRows).delivered == s.delivered + out
    ensures allDone == ApplyFetch(c, s, maxRows).finished
  {
    hide ApplyFetch, AllOwnersDone, Take, Project, LegView, OwnView, SlotView, Fetched;
    FetchResult(c, s, maxRows);
    RepresentedSources(st, c, s.legs);
    out, allDone := FetchViews(st, LegViews(s.legs), maxRows);
    AllAfterFetch(st, c, s, maxRows);
    AllDoneAgrees(st, c, ApplyFetch(c, s, maxRows).legs);
  }

  // --- The prefetcher's blocks are steps ------------------------------------------------

  /** One remote leg changed and the others did not. */
  ghost predicate OnlySlot(st: RequestState<nat>, legs: seq<Leg>, j: nat)
    requires st.Valid() && |legs| == |st.remote| + 1
    reads st
  {
    && OwnView(st) == LegView(legs[0], true)
    && forall k :: 0 <= k < |st.remote| && k != j ==> SlotView(st, st.remote[k]) == LegView(legs[k + 1], false)
  }

  lemma SlotRepresents(st: RequestState<nat>, c: Config, s: State, j: nat, step: Step)
    requires st.Valid() && |s.legs| == |c.legs| == |st.remote| + 1 && st.ownsData == c.gatewayOwnsData
    requires j < |st.remote| && StepEnabled(c.legs[j + 1], s.legs[j + 1], step) && OnlySlot(st, s.legs, j)
    requires SlotView(st, st.remote[j]) == LegView(Apply(c.legs[j + 1], s.legs[j + 1], step), false)
    ensures Represents(st, c, ApplyEvent(c, s, At(j + 1, step)).legs)
  {
    hide SlotView, OwnView, LegView, Apply, StepEnabled;
  }

  /** The reply block of the prefetcher is the Receive step. */
  method ReceiveIsStep(st: RequestState<nat>, ghost c: Config, ghost s: State, j: nat, rows: seq<nat>, last: bool)
    returns (stop: bool)
    requires |s.legs| == |c.legs| && Represents(st, c, s.legs) && j < |st.remote|
    requires StepEnabled(c.legs[j + 1], s.legs[j + 1], Receive)
    requires s.legs[j + 1].calls[s.legs[j + 1].prefetcher.id] == Replied(rows, last)
    modifies st`prefetchBuf, st`prefetchDone, st`responded
    ensures EventEnabled(c, s, At(j + 1, Receive))
    ensures Represents(st, c, ApplyEvent(c, s, At(j + 1, Receive)).legs)
    ensures stop == Apply(c.legs[j + 1], s.legs[j + 1], Receive).prefetcher.Stopped?
  {
    hide Represents, ApplyEvent;
    RepresentsMeans(st, c, s.legs, j);
    stop := st.ReceiveChunk(st.remote[j], rows, last);
    SlotRepresents(st, c, s, j, Receive);
  }

  lemma RepresentsMeans(st: RequestState<nat>, c: Config, legs: seq<Leg>, j: nat)
    requires Represents(st, c, legs) && j < |st.remote|
    ensures st.Valid() && |legs| == |c.legs| == |st.remote| + 1 && st.ownsData == c.gatewayOwnsData
    ensures OnlySlot(st, legs, j) && SlotView(st, st.remote[j]) == LegView(legs[j + 1], false)
  {
  }

  /** The error block of the prefetcher is the Fail step, and the Refuse step if the error
      is the owner's NOT_FOUND: rows already held stay for the client. */
  method FailIsStep(st: RequestState<nat>, ghost c: Config, ghost s: State, j: nat, ghost step: Step)
    requires |s.legs| == |c.legs| && Represents(st, c, s.legs) && j < |st.remote|
    requires (step.Fail? || step.Refuse?) && StepEnabled(c.legs[j + 1], s.legs[j + 1], step)
    modifies st`prefetchDone, st`producersDone
    ensures EventEnabled(c, s, At(j + 1, step))
    ensures Represents(st, c, ApplyEvent(c, s, At(j + 1, step)).legs)
    ensures st.Sources() == old(st.Sources())
  {
    hide Represents, ApplyEvent;
    RepresentsMeans(st, c, s.legs, j);
    st.FailOwner(st.remote[j]);
    SlotRepresents(st, c, s, j, step);
  }

  /** A pull that times out changes nothing: not what the gateway holds, ... */
  lemma TimeoutIsStep(st: RequestState<nat>, c: Config, s: State, j: nat)
    requires |s.legs| == |c.legs| && Represents(st, c, s.legs) && j < |st.remote|
    requires StepEnabled(c.legs[j + 1], s.legs[j + 1], Timeout)
    ensures EventEnabled(c, s, At(j + 1, Timeout))
    ensures Represents(st, c, ApplyEvent(c, s, At(j + 1, Timeout)).legs)
  {
    hide SlotView, OwnView;
  }

  // --- The owner's blocks are steps -----------------------------------------------------

  /** The object holds the owner side of a leg; `i` is the producer's position, which during
      a tick runs ahead of the stored cursor. */
  ghost predicate OwnerHolds(st: RequestState<nat>, c: LegCfg, l: Leg, i: nat)
    reads st
  {
    && st.Valid() && |st.matchedIndices| == c.size && st.Quantum() == c.quantum
    && (forall k :: 0 <= k < c.size ==> st.fill(st.matchedIndices[k]) == k)
    && st.matched == l.matched && st.doneProducing == l.done && l.cursor == i <= c.size
  }

  /** ... nor, like all that the gateway does with a pull, anything at the owner. */
  lemma GatewayLeavesOwner(st: RequestState<nat>, c: LegCfg, l: Leg, i: nat, step: Step)
    requires OwnerHolds(st, c, l, i) && StepEnabled(c, l, step)
    requires step.Issue? || step.Receive? || step.Refuse? || step.Timeout? || step.Fail?
    ensures OwnerHolds(st, c, Apply(c, l, step), i)
    ensures Apply(c, l, step).registered == l.registered && Apply(c, l, step).producer == l.producer
  {
  }

  /** At the gateway, whose own shard is leg 0, the owner side is part of what is represented. */
  lemma OwnLegRepresents(st: RequestState<nat>, c: Config, legs: seq<Leg>, own: Leg, i: nat)
    requires st.Valid() && |legs| == |c.legs| == |st.remote| + 1 && st.ownsData == c.gatewayOwnsData
    requires forall j :: 0 <= j < |st.remote| ==> SlotView(st, st.remote[j]) == LegView(legs[j + 1], false)
    requires OwnerHolds(st, c.legs[0], own, i)
    requires st.producersDone[st.self] == own.ownerDone && (st.self in st.responded <==> own.responded)
    ensures Represents(st, c, legs[0 := own])
  {
  }

  method BeginIsStep(st: RequestState<nat>, ghost c: LegCfg, ghost l: Leg) returns (go: bool, limit: nat)
    requires OwnerHolds(st, c, l, st.matchedCursor) && l.registered && l.producer.Idle?
    ensures go <==> StepEnabled(c, l, BeginTick)
    ensures go ==> Apply(c, l, BeginTick).producer == Pushing(limit)
    ensures go ==> OwnerHolds(st, c, Apply(c, l, BeginTick), st.matchedCursor)
  {
    go, limit := st.BeginTick();
  }

  method PushIsStep(st: RequestState<nat>, ghost c: LegCfg, ghost l: Leg, i: nat) returns (full: bool)
    requires OwnerHolds(st, c, l, i) && i < c.size && StepEnabled(c, l, Push)
    modifies st`matched, st`positions
    ensures OwnerHolds(st, c, Apply(c, l, Push), i + 1)
    ensures full <==> Apply(c, l, Push).producer.Finishing?
  {
    full := st.PushRow(i);
  }

  method FinishIsStep(st: RequestState<nat>, ghost c: LegCfg, ghost l: Leg, i: nat)
    requires OwnerHolds(st, c, l, i) && StepEnabled(c, l, FinishTick)
    modifies st`matchedCursor, st`doneProducing
    ensures OwnerHolds(st, c, Apply(c, l, FinishTick), i) && st.matchedCursor == i
  {
    st.FinishTick(i);
  }

  method DrainIsStep(st: RequestState<nat>, ghost c: LegCfg, ghost l: Leg, i: nat, ghost id: nat, max: int)
    returns (out: seq<nat>)
    requires OwnerHolds(st, c, l, i) && StepEnabled(c, l, DrainCall(id, max))
    modifies st`matched, st`positions
    ensures OwnerHolds(st, c, Apply(c, l, DrainCall(id, max)), i)
    ensures Apply(c, l, DrainCall(id, max)).calls[id] == Drained(out)
  {
    out := st.DrainRows(max);
    assert l.matched == out + st.matched;
  }

  /** Reading the done flag, a step of its own. */
  method ReadDoneIsStep(st: RequestState<nat>, ghost c: LegCfg, ghost l: Leg, ghost i: nat, ghost id: nat)
    returns (done: bool)
    requires OwnerHolds(st, c, l, i) && StepEnabled(c, l, ReadDone(id))
    ensures OwnerHolds(st, c, Apply(c, l, ReadDone(id)), i)
    ensures Apply(c, l, ReadDone(id)).calls[id] == SawDone(l.calls[id].out, done)
  {
    done := st.doneProducing;
  }

  method RecheckIsStep(st: RequestState<nat>, ghost c: LegCfg, ghost l: Leg, ghost i: nat, ghost id: nat,
                       done: bool, out: seq<nat>)
    returns (last: bool)
    requires OwnerHolds(st, c, l, i) && StepEnabled(c, l, Recheck(id)) && l.calls[id] == SawDone(out, done)
    ensures OwnerHolds(st, c, Apply(c, l, Recheck(id)), i)
    ensures Apply(c, l, Recheck(id)).calls[id] == Checked(out, last)
  {
    last := st.Recheck(done, out);
  }

  // --- The gateway's own producer ---------------------------------------------------------

  /** The object of a gateway, with its own shard as leg 0; `i` as in OwnerHolds. */
  ghost predicate GatewayHolds(st: RequestState<nat>, c: Config, s: State, i: nat)
    reads st
  {
    |s.legs| == |c.legs| && Represents(st, c, s.legs) && OwnerHolds(st, c.legs[0], s.legs[0], i)
  }

  lemma OwnStepRepresents(st: RequestState<nat>, c: Config, s: State, step: Step, i: nat)
    requires |s.legs| == |c.legs| > 0 && st.Valid() && |s.legs| == |st.remote| + 1 && st.ownsData == c.gatewayOwnsData
    requires forall j :: 0 <= j < |st.remote| ==> SlotView(st, st.remote[j]) == LegView(s.legs[j + 1], false)
    requires step.IsProducer() && StepEnabled(c.legs[0], s.legs[0], step)
    requires OwnerHolds(st, c.legs[0], Apply(c.legs[0], s.legs[0], step), i)
    requires st.producersDone[st.self] == s.legs[0].ownerDone && (st.self in st.responded <==> s.legs[0].responded)
    ensures EventEnabled(c, s, At(0, step)) && GatewayHolds(st, c, ApplyEvent(c, s, At(0, step)), i)
  {
    hide SlotView, LegView, StepEnabled, OwnerHolds, Represents;
    OwnStepMarks(c.legs[0], s.legs[0], step);
    OwnLegRepresents(st, c, s.legs, Apply(c.legs[0], s.legs[0], step), i);
  }

  lemma OwnStepMarks(c: LegCfg, l: Leg, step: Step)
    requires step.IsProducer() && StepEnabled(c, l, step)
    ensures Apply(c, l, step).ownerDone == l.ownerDone && Apply(c, l, step).responded == l.responded
  {
  }

  lemma GatewayMeans(st: RequestState<nat>, c: Config, s: State, i: nat)
    requires GatewayHolds(st, c, s, i)
    ensures |s.legs| == |c.legs| == |st.remote| + 1 && st.Valid() && st.ownsData == c.gatewayOwnsData
    ensures OwnerHolds(st, c.legs[0], s.legs[0], i)
    ensures forall j :: 0 <= j < |st.remote| ==> SlotView(st, st.remote[j]) == LegView(s.legs[j + 1], false)
    ensures st.producersDone[st.self] == s.legs[0].ownerDone && (st.self in st.responded <==> s.legs[0].responded)
  {
  }

  /** The gateway's producer looks whether it can go on. */
  method OwnBeginIsStep(st: RequestState<nat>, ghost c: Config, ghost s: State) returns (go: bool, limit: nat)
    requires GatewayHolds(st, c, s, st.matchedCursor) && s.legs[0].registered && s.legs[0].producer.Idle?
    ensures |s.legs| == |c.legs| && (go <==> EventEnabled(c, s, At(0, BeginTick)))
    ensures go ==> GatewayHolds(st, c, ApplyEvent(c, s, At(0, BeginTick)), st.matchedCursor)
    ensures go ==> ApplyEvent(c, s, At(0, BeginTick)).legs[0].producer == Pushing(limit)
  {
    hide GatewayHolds, Represents, SlotView, LegView;
    GatewayMeans(st, c, s, st.matchedCursor);
    go, limit := BeginIsStep(st, c.legs[0], s.legs[0]);
    if go {
      OwnStepRepresents(st, c, s, BeginTick, st.matchedCursor);
    }
  }

  /** The gateway's producer pushes one of its own matches. */
  method OwnPushIsStep(st: RequestState<nat>, ghost c: Config, ghost s: State, i: nat) returns (full: bool)
    requires GatewayHolds(st, c, s, i) && i < c.legs[0].size && StepEnabled(c.legs[0], s.legs[0], Push)
    modifies st`matched, st`positions
    ensures |s.legs| == |c.legs| && EventEnabled(c, s, At(0, Push))
    ensures GatewayHolds(st, c, ApplyEvent(c, s, At(0, Push)), i + 1)
    ensures full <==> ApplyEvent(c, s, At(0, Push)).legs[0].producer.Finishing?
  {
    hide GatewayHolds, Represents, LegView;
    GatewayMeans(st, c, s, i);
    full := PushIsStep(st, c.legs[0], s.legs[0], i);
    OwnStepRepresents(st, c, s, Push, i + 1);
  }

  /** The gateway's producer stores its cursor and the done flag. */
  method OwnFinishIsStep(st: RequestState<nat>, ghost c: Config, ghost s: State, i: nat)
    requires GatewayHolds(st, c, s, i) && StepEnabled(c.legs[0], s.legs[0], FinishTick)
    modifies st`matchedCursor, st`doneProducing
    ensures |s.legs| == |c.legs| && EventEnabled(c, s, At(0, FinishTick)) && st.matchedCursor == i
    ensures GatewayHolds(st, c, ApplyEvent(c, s, At(0, FinishTick)), i)
  {
    hide GatewayHolds, Represents, LegView;
    GatewayMeans(st, c, s, i);
    FinishIsStep(st, c.legs[0], s.legs[0], i);
    OwnStepRepresents(st, c, s, FinishTick, i);
  }

  lemma FetchKeepsProducer(c: Config, s: State, max: int)
    requires |s.legs| == |c.legs| > 0
    ensures var l := ApplyFetch(c, s, max).legs[0];
            l.cursor == s.legs[0].cursor && l.done == s.legs[0].done
  {
    hide Take, Project;
    TakeIsFifo(Gather.Sources(s.legs), max, 0);
    assert ApplyFetch(c, s, max).legs[0] == DrainLeg(s.legs, Take(Gather.Sources(s.legs), max), 0);
  }

  lemma FetchedMatched(st: RequestState<nat>, c: Config, s: State)
    requires Represents(st, c, s.legs)
    ensures st.Valid() && |s.legs| > 0 && st.matched == s.legs[0].matched
  {
  }

  /** FetchChunk drains the gateway's own deque and leaves its producer alone. */
  method OwnFetchIsStep(st: RequestState<nat>, ghost c: Config, ghost s: State, ghost i: nat, maxRows: int)
    returns (out: seq<Emit<nat>>, allDone: bool)
    requires GatewayHolds(st, c, s, i)
    modifies st`matched, st`positions, st`prefetchBuf, st`perOwnerRows, st`totalMatched, st`producersDone,
      st`clientLastSeq
    ensures |s.legs| == |c.legs| && GatewayHolds(st, c, ApplyFetch(c, s, maxRows), i)
    ensures ApplyFetch(c, s, maxRows).delivered == s.delivered + out
    ensures allDone == ApplyFetch(c, s, maxRows).finished
  {
    hide Represents, ApplyFetch, LegView, OwnView, SlotView;
    FetchKeepsProducer(c, s, maxRows);
    out, allDone := FetchIsStep(st, c, s, maxRows);
    FetchedMatched(st, c, ApplyFetch(c, s, maxRows));
  }

  /** Performs the steps in order. */
  ghost predicate Performs(c: LegCfg, l: Leg, steps: seq<Step>, later: Leg)
    decreases |steps|
  {
    if steps == [] then later == l
    else StepEnabled(c, l, steps[0]) && Performs(c, Apply(c, l, steps[0]), steps[1..], later)
  }

  function Positions(from: nat, k: nat): (r: seq<nat>)
    ensures |r| == k && forall i :: 0 <= i < k ==> r[i] == from + i
  {
    seq(k, i requires 0 <= i => from + i)
  }

  lemma PerformsCons(c: LegCfg, l: Leg, step: Step, rest: seq<Step>, later: Leg)
    requires StepEnabled(c, l, step) && Performs(c, Apply(c, l, step), rest, later)
    ensures Performs(c, l, [step] + rest, later)
  {
    assert ([step] + rest)[1..] == rest;
  }

  lemma PerformsNothing(c: LegCfg, l: Leg)
    ensures Performs(c, l, [], l)
  {
  }

  /** The leg after `k` pushes of a tick. */
  function Pushed(l: Leg, k: nat): Leg
  {
    l.(cursor := l.cursor + k, matched := l.matched + Positions(l.cursor, k), producer := Finishing)
  }

  lemma PushedOne(c: LegCfg, l: Leg, k: nat)
    requires StepEnabled(c, l, Push) && k > 0
    ensures Pushed(Apply(c, l, Push), k - 1) == Pushed(l, k)
  {
    var m := Apply(c, l, Push);
    assert m.matched + Positions(m.cursor, k - 1) == l.matched + Positions(l.cursor, k);
  }

  lemma PushedNone(l: Leg)
    ensures Pushed(l, 0) == l.(producer := Finishing)
  {
    assert l.matched + Positions(l.cursor, 0) == l.matched;
  }

  lemma {:induction false} PushesAre(c: LegCfg, l: Leg, k: nat) returns (steps: seq<Step>)
    requires l.producer.Pushing? && l.cursor <= l.producer.limit && |l.matched| < MAX_BUFFERED
    requires k == Min(l.producer.limit - l.cursor, MAX_BUFFERED - |l.matched|)
    ensures Performs(c, l, steps, Pushed(l, k))
    decreases k
  {
    hide Performs;
    hide Pushed;
    if l.cursor == l.producer.limit {
      PushedNone(l);
      PerformsNothing(c, Apply(c, l, EndTick));
      PerformsCons(c, l, EndTick, [], Pushed(l, k));
      steps := [EndTick] + [];
    } else {
      var m := Apply(c, l, Push);
      PushedOne(c, l, k);
      if m.producer.Finishing? {
        PushedNone(m);
        PerformsNothing(c, m);
        steps := [];
      } else {
        steps := PushesAre(c, m, k - 1);
      }
      PerformsCons(c, l, Push, steps, Pushed(l, k));
      steps := [Push] + steps;
    }
  }

  /** A producer tick that nobody interrupts is a run of machine steps with the effect
      that ProduceTick promises. */
  lemma TickIsSteps(c: LegCfg, l: Leg) returns (steps: seq<Step>, later: Leg)
    requires StepEnabled(c, l, BeginTick) && l.cursor <= c.size
    ensures Performs(c, l, steps, later)
    ensures var k := Min(Min(c.size - l.cursor, c.quantum), MAX_BUFFERED - |l.matched|);
            later == l.(cursor := l.cursor + k, matched := l.matched + Positions(l.cursor, k),
                     done := l.cursor + k == c.size)
  {
    var m := Apply(c, l, BeginTick);
    var k := Min(m.producer.limit - m.cursor, MAX_BUFFERED - |m.matched|);
    var pushes := PushesAre(c, m, k);
    var n := Pushed(m, k);
    later := Apply(c, n, FinishTick);
    PerformsSnoc(c, m, pushes, n, FinishTick);
    PerformsCons(c, l, BeginTick, pushes + [FinishTick], later);
    steps := [BeginTick] + (pushes + [FinishTick]);
  }

  lemma {:induction false} PerformsSnoc(c: LegCfg, l: Leg, steps: seq<Step>, n: Leg, last: Step)
    requires Performs(c, l, steps, n) && StepEnabled(c, n, last)
    ensures Performs(c, l, steps + [last], Apply(c, n, last))
    decreases |steps|
  {
    if steps == [] {
      assert Performs(c, Apply(c, n, last), ([last])[1..], Apply(c, n, last));
      assert steps + [last] == [last];
    } else {
      PerformsSnoc(c, Apply(c, l, steps[0]), steps[1..], n, last);
      assert (steps + [last])[1..] == steps[1..] + [last];
    }
  }

  /** ProduceTick is such a run of steps. */
  method TickIsRun(st: RequestState<nat>, ghost c: LegCfg, ghost l: Leg)
    returns (ghost steps: seq<Step>, ghost later: Leg)
    requires OwnerHolds(st, c, l, st.matchedCursor) && l.registered && l.producer.Idle?
    modifies st`matched, st`matchedCursor, st`doneProducing, st`positions
    ensures Performs(c, l, steps, later) && OwnerHolds(st, c, later, st.matchedCursor) && later.producer.Idle?
    ensures StepEnabled(c, l, BeginTick) <==> steps != []
  {
    hide Performs;
    if l.done || |l.matched| >= MAX_BUFFERED {
      steps, later := [], l;
      PerformsNothing(c, l);
    } else {
      steps, later := TickIsSteps(c, l);
    }
    ghost var was, at := st.matched, st.matchedCursor;
    st.ProduceTick();
    NewRows(st, was, at, st.matchedCursor - at);
  }

  /** The rows a tick appended, named by their positions. */
  lemma NewRows(st: RequestState<nat>, was: seq<nat>, from: nat, k: nat)
    requires st.Valid() && was <= st.matched && |st.matched| == |was| + k
    requires forall i :: 0 <= i < |st.matchedIndices| ==> st.fill(st.matchedIndices[i]) == i
    requires forall i :: |was| <= i < |st.matched| ==> st.positions[i] == from + i - |was|
    ensures st.matched == was + Positions(from, k)
  {
    forall i | |was| <= i < |st.matched|
      ensures st.matched[i] == st.positions[i]
    {
    }
  }

  /** The leg after an undisturbed pull up to its reply. */
  function PulledLeg(c: LegCfg, l: Leg, id: nat, max: int): Leg
    requires StepEnabled(c, l, DrainCall(id, max))
  {
    var drained := Apply(c, l, DrainCall(id, max));
    Apply(c, Apply(c, drained, ReadDone(id)), Recheck(id))
  }

  /** ServePull is the run of the drain, the read of the flag and the re-check. */
  method PullIsRun(st: RequestState<nat>, ghost c: LegCfg, ghost l: Leg, ghost i: nat, ghost id: nat, max: int)
    returns (out: seq<nat>, last: bool, backlog: nat)
    requires OwnerHolds(st, c, l, i) && StepEnabled(c, l, DrainCall(id, max))
    modifies st`matched, st`positions, st`lastDeliveredSeq
    ensures Performs(c, l, [DrainCall(id, max), ReadDone(id), Recheck(id)], PulledLeg(c, l, id, max))
    ensures OwnerHolds(st, c, PulledLeg(c, l, id, max), i)
    ensures PulledLeg(c, l, id, max).calls[id] == Checked(out, last)
  {
    hide Performs;
    PullPerforms(c, l, id, max);
    out, last, backlog := st.ServePull(max);
    assert l.matched == out + st.matched;
    PulledIs(c, l, id, max, out, st.matched);
  }

  lemma PulledIs(c: LegCfg, l: Leg, id: nat, max: int, out: seq<nat>, rest: seq<nat>)
    requires StepEnabled(c, l, DrainCall(id, max)) && l.matched == out + rest
    requires |out| == if max <= 0 then 0 else Min(max, |l.matched|)
    ensures var p := PulledLeg(c, l, id, max);
            && p.matched == rest && id in p.calls && p.calls[id] == Checked(out, l.done && rest == [] && out == [])
            && p == l.(matched := p.matched, calls := p.calls)
  {
  }

  lemma PullPerforms(c: LegCfg, l: Leg, id: nat, max: int)
    requires StepEnabled(c, l, DrainCall(id, max))
    ensures Performs(c, l, [DrainCall(id, max), ReadDone(id), Recheck(id)], PulledLeg(c, l, id, max))
  {
    hide Performs;
    var a := Apply(c, l, DrainCall(id, max));
    var b := Apply(c, a, ReadDone(id));
    var later := Apply(c, b, Recheck(id));
    PerformsNothing(c, later);
    PerformsCons(c, b, Recheck(id), [], later);
    PerformsCons(c, a, ReadDone(id), [Recheck(id)] + [], later);
    PerformsCons(c, l, DrainCall(id, max), [ReadDone(id)] + ([Recheck(id)] + []), later);
    assert [DrainCall(id, max)] + ([ReadDone(id)] + ([Recheck(id)] + []))
        == [DrainCall(id, max), ReadDone(id), Recheck(id)];
  }
}
