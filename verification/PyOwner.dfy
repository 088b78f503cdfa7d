/** The Python data owner's side of one request: registration, producer ticks and pulls. */
module PyOwner {
  import opened Basics
  import opened Gather

  /** The owner's record of a request. `indices` is None when the shard is empty: the
      registration then never computes a match list. */
  datatype Request = Request(indices: Option<seq<nat>>, cursor: nat, matched: seq<nat>, done: bool)
  {
    ghost predicate Valid()
    {
      && cursor <= (if indices.Some? then |indices.value| else 0)
      && |matched| <= MAX_BUFFERED
      && (indices.None? ==> matched == [] && !done)
      && (done ==> indices.Some? && cursor == |indices.value|)
    }

    /** Rows not yet handed out. */
    function Pending(): seq<nat>
    {
      matched + (if indices.Some? && cursor <= |indices.value| then indices.value[cursor..] else [])
    }
  }

  /** Registration at an owner with `n` rows; `answer` is what range_search finds. */
  function Registered(n: nat, canMatch: bool, answer: seq<nat>): Request
  {
    if n == 0 then Request(None, 0, [], false)
    else if !canMatch then Request(Some([]), 0, [], true)
    else Request(Some(answer), 0, [], answer == [])
  }

  /** One producer tick. */
  function Ticked(r: Request, quantum: nat): Request
    requires r.Valid()
  {
    if r.done || r.indices.None? || |r.matched| >= MAX_BUFFERED then r else
    var size := |r.indices.value|;
    var i := Min(Min(size, r.cursor + quantum), r.cursor + (MAX_BUFFERED - |r.matched|));
    Request(r.indices, i, r.matched + r.indices.value[r.cursor..i], i >= size)
  }

  /** One pull: the rows handed out, the record after it, and whether it ends the request. */
  function Taken(r: Request, max: int): nat
  {
    if max <= 0 then 0 else Min(max, |r.matched|)
  }

  function Pulled(r: Request, max: int): Request
  {
    r.(matched := r.matched[Taken(r, max)..])
  }

  predicate Last(r: Request)
  {
    r.done && r.matched == []
  }

  class OwnerRequest {
    var r: Request

    constructor (n: nat, canMatch: bool, answer: seq<nat>)
      ensures r == Registered(n, canMatch, answer) && r.Valid()
    {
      var indices: Option<seq<nat>>, done := None, false;
      if n > 0 {
        if !canMatch {
          indices, done := Some([]), true;
        } else {
          indices := Some(answer);
          if |answer| == 0 {
            done := true;
          }
        }
      }
      r := Request(indices, 0, [], done);
    }

    method Tick(quantum: nat)
      requires r.Valid()
      modifies this
      ensures r == Ticked(old(r), quantum) && r.Valid()
    {
      if r.done || r.indices.None? || |r.matched| >= MAX_BUFFERED {
        return;
      }
      var idxs, i := r.indices.value, r.cursor;
      var end := Min(|idxs|, i + quantum);
      var matched := r.matched;
      while i < end
        invariant r == old(r) && r.cursor <= i <= end && |matched| <= MAX_BUFFERED
        invariant matched == r.matched + idxs[r.cursor..i]
        invariant i < end ==> |matched| < MAX_BUFFERED || i == r.cursor
      {
        matched := matched + [idxs[i]];
        i := i + 1;
        if |matched| >= MAX_BUFFERED {
          break;
        }
      }
      r := r.(matched := matched, cursor := i);
      if i >= |idxs| {
        r := r.(done := true);
      }
    }

    method Pull(max: int) returns (out: seq<nat>, last: bool)
      requires r.Valid()
      modifies this
      ensures r == Pulled(old(r), max) && r.Valid()
      ensures out == old(r).matched[..Taken(old(r), max)]
      ensures last <==> Last(old(r))
    {
      out := [];
      var matched := r.matched;
      while matched != [] && |out| < max
        invariant |out| <= |r.matched| && out + matched == r.matched && (|out| <= max || out == [])
        decreases |matched|
      {
        out := out + [matched[0]];
        matched := matched[1..];
      }
      r := r.(matched := matched);
      last := r.done && r.matched == [] && out == [];
    }
  }

  // --- Runs of one owner -----------------------------------------------------------------

  datatype Op = Tick(quantum: nat) | Pull(max: int)

  /** All rows handed out, the record at the end, and whether some pull reported the end. */
  datatype Outcome = Outcome(out: seq<nat>, r: Request, last: bool)

  /** Ticks and pulls in any order; a pull that reports the end drops the request. */
  function Play(r: Request, ops: seq<Op>): Outcome
    requires r.Valid()
    decreases |ops|
  {
    if ops == [] then Outcome([], r, false) else
    match ops[0]
    case Tick(quantum) => Play(Ticked(r, quantum), ops[1..])
    case Pull(max) =>
      if Last(r) then Outcome([], Pulled(r, max), true) else
      var rest := Play(Pulled(r, max), ops[1..]);
      rest.(out := r.matched[..Taken(r, max)] + rest.out)
  }

  lemma TickKeepsPending(r: Request, quantum: nat)
    requires r.Valid()
    ensures Ticked(r, quantum).Valid() && Ticked(r, quantum).Pending() == r.Pending()
  {
    var r' := Ticked(r, quantum);
    if r'.indices.Some? && r.cursor <= r'.cursor <= |r.indices.value| {
      var idxs := r.indices.value;
      assert idxs[r.cursor..] == idxs[r.cursor..r'.cursor] + idxs[r'.cursor..];
      if r' != r {
        assert r'.Pending() == r.matched + idxs[r.cursor..r'.cursor] + idxs[r'.cursor..];
      }
    }
  }

  lemma PullKeepsPending(r: Request, max: int)
    requires r.Valid()
    ensures Pulled(r, max).Valid() && r.matched[..Taken(r, max)] + Pulled(r, max).Pending() == r.Pending()
  {
    assert r.matched == r.matched[..Taken(r, max)] + Pulled(r, max).matched;
  }

  /** Rows leave the owner once and in order: whatever ticks and pulls happened, what was
      handed out followed by what is pending is what was pending before; and the end is
      only reported when nothing is pending. */
  lemma {:induction false} HandedOutOnce(r: Request, ops: seq<Op>)
    requires r.Valid()
    ensures var o := Play(r, ops);
            o.r.Valid() && o.out + o.r.Pending() == r.Pending() && (o.last ==> o.r.Pending() == [])
    decreases |ops|
  {
    hide Ticked, Pulled;
    if ops != [] {
      if ops[0].Tick? {
        TickKeepsPending(r, ops[0].quantum);
        HandedOutOnce(Ticked(r, ops[0].quantum), ops[1..]);
      } else {
        var max := ops[0].max;
        PullKeepsPending(r, max);
        if Last(r) {
          assert r.Pending() == [];
        } else {
          HandedOutOnce(Pulled(r, max), ops[1..]);
          var rest := Play(Pulled(r, max), ops[1..]);
          assert r.matched[..Taken(r, max)] + (rest.out + rest.r.Pending())
              == (r.matched[..Taken(r, max)] + rest.out) + rest.r.Pending();
        }
      }
    }
  }

  /** A reported end means the whole answer was handed out. */
  lemma EndMeansComplete(n: nat, canMatch: bool, answer: seq<nat>, ops: seq<Op>)
    requires n > 0 && (!canMatch ==> answer == [])
    ensures var r := Registered(n, canMatch, answer);
            r.Valid() && (Play(r, ops).last ==> Play(r, ops).out == answer)
  {
    var r := Registered(n, canMatch, answer);
    HandedOutOnce(r, ops);
    assert r.Pending() == answer;
  }

  // --- When an owner ends ------------------------------------------------------------------

  /** A tick followed by a pull, with room for a row in both. */
  datatype Turn = Turn(quantum: nat, max: int)

  function Ops(turns: seq<Turn>): seq<Op>
  {
    if turns == [] then [] else [Tick(turns[0].quantum), Pull(turns[0].max)] + Ops(turns[1..])
  }

  ghost predicate Productive(turns: seq<Turn>)
  {
    forall k :: 0 <= k < |turns| ==> turns[k].quantum >= 1 && turns[k].max >= 1
  }

  function Work(r: Request): int
    requires r.Valid()
  {
    (if r.indices.Some? then 2 * (|r.indices.value| - r.cursor) else 0) + |r.matched| + (if r.done then 0 else 1)
  }

  /** A turn ends the request or leaves less work. */
  lemma TurnWorks(r: Request, t: Turn)
    requires r.Valid() && r.indices.Some? && t.quantum >= 1 && t.max >= 1
    ensures var r1 := Ticked(r, t.quantum);
            r1.Valid() && (Last(r1) || Work(Pulled(r1, t.max)) < Work(r))
  {
    TickKeepsPending(r, t.quantum);
  }

  lemma PlayTurn(r: Request, turns: seq<Turn>)
    requires r.Valid() && turns != []
    ensures var r1 := Ticked(r, turns[0].quantum);
            && r1.Valid() && Pulled(r1, turns[0].max).Valid()
            && Play(r, Ops(turns)).last == (Last(r1) || Play(Pulled(r1, turns[0].max), Ops(turns[1..])).last)
  {
    var ops := Ops(turns);
    TickKeepsPending(r, turns[0].quantum);
    assert ops[1..] == [Pull(turns[0].max)] + Ops(turns[1..]);
    assert ops[1..][1..] == Ops(turns[1..]);
  }

  lemma {:induction false} EndsWithin(r: Request, turns: seq<Turn>)
    requires r.Valid() && r.indices.Some? && Productive(turns) && |turns| > Work(r)
    ensures Play(r, Ops(turns)).last
    decreases |turns|
  {
    hide Play, Ops, Work, Ticked;
    WorkIsNat(r);
    PlayTurn(r, turns);
    TurnWorks(r, turns[0]);
    var r1 := Ticked(r, turns[0].quantum);
    TickIndices(r, turns[0].quantum);
    if !Last(r1) {
      EndsWithin(Pulled(r1, turns[0].max), turns[1..]);
    }
  }

  lemma WorkIsNat(r: Request)
    requires r.Valid()
    ensures Work(r) >= 0
  {
  }

  lemma TickIndices(r: Request, quantum: nat)
    requires r.Valid()
    ensures Ticked(r, quantum).indices == r.indices
  {
  }

  lemma {:induction false} EmptyShardNeverEnds(r: Request, ops: seq<Op>)
    requires r.Valid() && r.indices.None?
    ensures !Play(r, ops).last && Play(r, ops).out == []
    decreases |ops|
  {
    if ops != [] {
      EmptyShardNeverEnds(if ops[0].Tick? then Ticked(r, ops[0].quantum) else Pulled(r, ops[0].max), ops[1..]);
    }
  }

  /** Every schedule of productive turns that is long enough ends the request. */
  ghost predicate Ends(r: Request)
    requires r.Valid()
  {
    exists bound: nat :: EndsBy(r, bound)
  }

  ghost predicate EndsBy(r: Request, bound: nat)
    requires r.Valid()
  {
    forall turns: seq<Turn> :: Productive(turns) && |turns| > bound ==> Play(r, Ops(turns)).last
  }

  function Idle(n: nat): (turns: seq<Turn>)
    ensures |turns| == n && Productive(turns)
  {
    seq(n, _ => Turn(1, 1))
  }

  /** An owner reports the end of a request exactly when its shard has rows: with an empty
      shard the record never becomes done, and every pull is empty and not the last. */
  lemma EndsExactly(n: nat, canMatch: bool, answer: seq<nat>)
    ensures Registered(n, canMatch, answer).Valid() && (Ends(Registered(n, canMatch, answer)) <==> n > 0)
  {
    var r := Registered(n, canMatch, answer);
    if n > 0 {
      WorkIsNat(r);
      forall turns: seq<Turn> | Productive(turns) && |turns| > Work(r)
        ensures Play(r, Ops(turns)).last
      {
        EndsWithin(r, turns);
      }
      assert EndsBy(r, Work(r));
    } else {
      forall bound: nat
        ensures !EndsBy(r, bound)
      {
        NoBound(r, bound);
      }
    }
  }

  lemma NoBound(r: Request, bound: nat)
    requires r.Valid() && r.indices.None?
    ensures !EndsBy(r, bound)
  {
    EmptyShardNeverEnds(r, Ops(Idle(bound + 1)));
  }
}
