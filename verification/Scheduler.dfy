/** The fair scheduler that hands out production turns among concurrent requests. */
module Scheduler {

  datatype Entry = Entry(rid: string, weight: int, credits: int)

  // --- One weighted turn ------------------------------------------------------------------

  /** The entry served, and the queue and cursor after it. */
  datatype Turn = Turn(idx: nat, q: seq<Entry>, cursor: nat)

  /** The cursor position that follows, going round. */
  function After(cursor: nat, n: nat): (r: nat)
    requires cursor < n
    ensures r < n && r == if cursor + 1 == n then 0 else cursor + 1
  {
    (cursor + 1) % n
  }

  /** One call of `next` in weighted mode, after `tries` entries were found without credit. */
  function Serve(q: seq<Entry>, cursor: nat, tries: nat): (t: Turn)
    requires cursor < |q|
    ensures t.idx < |q| && |t.q| == |q| && t.cursor < |q|
    decreases |q| + 1 - tries
  {
    if tries > |q| then Turn(0, q, cursor) else
    var e := q[cursor];
    if e.credits > 0 then SpendTurn(q, cursor)
    else Serve(q[cursor := e.(credits := e.weight)], After(cursor, |q|), tries + 1)
  }

  /** A turn of the entry under the cursor; its last credit refills it and moves the cursor on. */
  function SpendTurn(q: seq<Entry>, cursor: nat): (t: Turn)
    requires cursor < |q|
    ensures t.idx < |q| && |t.q| == |q| && t.cursor < |q|
  {
    var e := q[cursor];
    if e.credits == 1 then Turn(cursor, q[cursor := e.(credits := e.weight)], After(cursor, |q|))
    else Turn(cursor, q[cursor := e.(credits := e.credits - 1)], cursor)
  }

  /** The rids returned by consecutive calls, and the state they leave. */
  datatype Played = Played(log: seq<string>, q: seq<Entry>, cursor: nat)

  function Play(q: seq<Entry>, cursor: nat, n: nat): (p: Played)
    requires cursor < |q|
    ensures |p.log| == n && |p.q| == |q| && p.cursor < |q|
    decreases n
  {
    if n == 0 then Played([], q, cursor) else
    var t := Serve(q, cursor, 0);
    var rest := Play(t.q, t.cursor, n - 1);
    rest.(log := [q[t.idx].rid] + rest.log)
  }

  // --- The wheel --------------------------------------------------------------------------

  function Repeat(rid: string, n: int): (r: seq<string>)
    ensures |r| == (if n < 0 then 0 else n) && forall k :: 0 <= k < |r| ==> r[k] == rid
  {
    if n <= 0 then [] else seq(n, k => rid)
  }

  /** Every rid as often as its weight says, in queue order. */
  function Wheel(q: seq<Entry>): seq<string>
  {
    if q == [] then [] else Repeat(q[0].rid, q[0].weight) + Wheel(q[1..])
  }

  lemma {:induction false} WheelConcat(a: seq<Entry>, b: seq<Entry>)
    ensures Wheel(a + b) == Wheel(a) + Wheel(b)
    decreases |a|
  {
    if a == [] {
      assert a + b == b;
    } else {
      assert (a + b)[1..] == a[1..] + b;
      WheelConcat(a[1..], b);
    }
  }

  lemma WheelOne(e: Entry)
    ensures Wheel([e]) == Repeat(e.rid, e.weight)
  {
    assert [e][1..] == [];
  }

  lemma WheelCut(q: seq<Entry>, c: nat)
    requires c <= |q|
    ensures Wheel(q) == Wheel(q[..c]) + Wheel(q[c..])
  {
    assert q == q[..c] + q[c..];
    WheelConcat(q[..c], q[c..]);
  }

  lemma WheelSnoc(q: seq<Entry>, e: Entry)
    ensures Wheel(q + [e]) == Wheel(q) + Repeat(e.rid, e.weight)
  {
    WheelConcat(q, [e]);
    WheelOne(e);
  }

  lemma TakeSnoc(q: seq<Entry>, c: nat)
    requires c < |q|
    ensures q[..c + 1] == q[..c] + [q[c]]
  {
  }

  lemma WheelSplit(q: seq<Entry>, c: nat)
    requires c < |q|
    ensures Wheel(q) == Wheel(q[..c]) + Repeat(q[c].rid, q[c].weight) + Wheel(q[c + 1..])
    ensures Wheel(q[..c + 1]) == Wheel(q[..c]) + Repeat(q[c].rid, q[c].weight)
  {
    hide *;
    WheelCut(q, c + 1);
    WheelSnoc(q[..c], q[c]);
    TakeSnoc(q, c);
  }

  /** Same requests and weights; credits may differ. */
  ghost predicate SameWeights(a: seq<Entry>, b: seq<Entry>)
  {
    |a| == |b| && forall k :: 0 <= k < |a| ==> a[k].rid == b[k].rid && a[k].weight == b[k].weight
  }

  lemma {:induction false} SameWheel(a: seq<Entry>, b: seq<Entry>)
    requires SameWeights(a, b)
    ensures Wheel(a) == Wheel(b)
    decreases |a|
  {
    if a != [] {
      SameWheel(a[1..], b[1..]);
    }
  }

  // --- Regular states ---------------------------------------------------------------------

  /** Every weight is at least 1 and only the entry under the cursor has used credits. */
  ghost predicate Regular(q: seq<Entry>, cursor: nat)
  {
    && (q == [] ==> cursor == 0) && (q != [] ==> cursor < |q|)
    && (forall k :: 0 <= k < |q| ==> q[k].weight >= 1)
    && (forall k :: 0 <= k < |q| && k != cursor ==> q[k].credits == q[k].weight)
    && (q != [] ==> 1 <= q[cursor].credits <= q[cursor].weight)
  }

  /** How far the current round has got. */
  function Position(q: seq<Entry>, cursor: nat): int
    requires cursor < |q|
  {
    |Wheel(q[..cursor])| + q[cursor].weight - q[cursor].credits
  }

  lemma PositionInWheel(q: seq<Entry>, cursor: nat)
    requires Regular(q, cursor) && q != []
    ensures 0 <= Position(q, cursor) < |Wheel(q)|
    ensures Wheel(q)[Position(q, cursor)] == q[cursor].rid
  {
    WheelSplit(q, cursor);
  }

  lemma TurnIs(q: seq<Entry>, cursor: nat)
    requires cursor < |q| && q[cursor].credits >= 1
    ensures var e := q[cursor];
            Serve(q, cursor, 0) == if e.credits > 1 then Turn(cursor, q[cursor := e.(credits := e.credits - 1)], cursor)
            else Turn(cursor, q[cursor := e.(credits := e.weight)], if cursor + 1 == |q| then 0 else cursor + 1)
  {
  }

  lemma TurnStaysRegular(q: seq<Entry>, cursor: nat)
    requires Regular(q, cursor) && q != []
    ensures var t := Serve(q, cursor, 0);
            t.idx == cursor && SameWeights(q, t.q) && Regular(t.q, t.cursor)
  {
    hide Serve;
    TurnIs(q, cursor);
  }

  lemma TurnPosition(q: seq<Entry>, cursor: nat)
    requires Regular(q, cursor) && q != []
    ensures var t := Serve(q, cursor, 0);
            Position(t.q, t.cursor) == (if Position(q, cursor) + 1 == |Wheel(q)| then 0 else Position(q, cursor) + 1)
  {
    hide Serve, Wheel;
    TurnIs(q, cursor);
    var t := Serve(q, cursor, 0);
    WheelSplit(q, cursor);
    if q[cursor].credits > 1 {
      assert t.q[..cursor] == q[..cursor];
      PositionInWheel(q, cursor);
      PositionInWheel(t.q, cursor);
      SameWheel(t.q, q);
    } else if cursor + 1 == |q| {
      assert q[..cursor + 1] == q;
      assert t.q[..0] == [];
      EmptyWheel();
    } else {
      WheelSplit(q, cursor + 1);
      SameWheel(t.q[..cursor + 1], q[..cursor + 1]);
    }
  }

  lemma EmptyWheel()
    ensures Wheel([]) == []
  {
  }

  /** A turn serves the wheel's slot at the position and moves the position on by one. */
  lemma TurnAdvances(q: seq<Entry>, cursor: nat)
    requires Regular(q, cursor) && q != []
    ensures var t := Serve(q, cursor, 0);
            && 0 <= Position(q, cursor) < |Wheel(q)|
            && q[t.idx].rid == Wheel(q)[Position(q, cursor)]
            && SameWeights(q, t.q) && Wheel(t.q) == Wheel(q) && Regular(t.q, t.cursor)
            && Position(t.q, t.cursor) == (if Position(q, cursor) + 1 == |Wheel(q)| then 0 else Position(q, cursor) + 1)
  {
    hide Serve, Wheel, Position;
    PositionInWheel(q, cursor);
    TurnStaysRegular(q, cursor);
    TurnPosition(q, cursor);
    SameWheel(q, Serve(q, cursor, 0).q);
  }

  // --- A whole round ----------------------------------------------------------------------

  function Rotate(w: seq<string>, p: nat): seq<string>
    requires p <= |w|
  {
    w[p..] + w[..p]
  }

  lemma RotateNext(w: seq<string>, p: nat, n: nat)
    requires p < |w| && 0 < n <= |w|
    ensures Rotate(w, p)[..n] == [w[p]] + Rotate(w, if p + 1 == |w| then 0 else p + 1)[..n - 1]
  {
  }

  /** Up to a whole round of calls returns the wheel, read from the current position on. */
  lemma {:induction false} PlayReadsWheel(q: seq<Entry>, cursor: nat, n: nat)
    requires Regular(q, cursor) && q != [] && n <= |Wheel(q)|
    ensures var p := Play(q, cursor, n);
            && 0 <= Position(q, cursor) < |Wheel(q)|
            && p.log == Rotate(Wheel(q), Position(q, cursor))[..n]
            && SameWeights(q, p.q) && Regular(p.q, p.cursor)
            && Position(p.q, p.cursor)
               == Position(q, cursor) + n - (if Position(q, cursor) + n < |Wheel(q)| then 0 else |Wheel(q)|)
    decreases n
  {
    hide Serve, Wheel, Position, Rotate;
    TurnAdvances(q, cursor);
    if n > 0 {
      var t := Serve(q, cursor, 0);
      PlayReadsWheel(t.q, t.cursor, n - 1);
      RotateNext(Wheel(q), Position(q, cursor), n);
    }
  }

  lemma PositionBelow(a: seq<Entry>, c: nat, b: seq<Entry>, d: nat)
    requires Regular(a, c) && Regular(b, d) && SameWeights(a, b) && c < d < |a|
    ensures Position(a, c) < Position(b, d)
  {
    hide Wheel;
    WheelSplit(a, c);
    WheelCut(a[..d], c + 1);
    assert a[..d][..c + 1] == a[..c + 1];
    SameWheel(a[..d], b[..d]);
  }

  /** A regular state is determined by the weights and the position. */
  lemma PositionDetermines(a: seq<Entry>, c: nat, b: seq<Entry>, d: nat)
    requires Regular(a, c) && Regular(b, d) && a != [] && SameWeights(a, b)
    requires Position(a, c) == Position(b, d)
    ensures a == b && c == d
  {
    hide Wheel;
    if c < d {
      PositionBelow(a, c, b, d);
    } else if d < c {
      PositionBelow(b, d, a, c);
    } else {
      SameWheel(a[..c], b[..c]);
    }
  }

  ghost predicate Distinct(q: seq<Entry>)
  {
    forall i, j :: 0 <= i < j < |q| ==> q[i].rid != q[j].rid
  }

  lemma {:induction false} RepeatCount(rid: string, n: nat)
    ensures multiset(Repeat(rid, n))[rid] == n
    decreases n
  {
    if n > 0 {
      RepeatCount(rid, n - 1);
      assert Repeat(rid, n) == Repeat(rid, n - 1) + [rid];
    }
  }

  lemma {:induction false} WheelMembers(q: seq<Entry>, rid: string)
    requires rid in Wheel(q)
    ensures exists k :: 0 <= k < |q| && q[k].rid == rid
    decreases |q|
  {
    if q != [] && rid in Wheel(q[1..]) {
      WheelMembers(q[1..], rid);
      var k :| 0 <= k < |q[1..]| && q[1..][k].rid == rid;
      assert q[k + 1].rid == rid;
    }
  }

  lemma WheelCount(q: seq<Entry>, j: nat)
    requires Distinct(q) && j < |q| && q[j].weight >= 0
    ensures multiset(Wheel(q))[q[j].rid] == q[j].weight
  {
    hide Wheel, Repeat;
    var rid := q[j].rid;
    var a, b := Wheel(q[..j]), Wheel(q[j + 1..]);
    WheelSplit(q, j);
    RepeatCount(rid, q[j].weight);
    if rid in a {
      WheelMembers(q[..j], rid);
      assert false;
    }
    if rid in b {
      WheelMembers(q[j + 1..], rid);
      assert false;
    }
    assert multiset(a)[rid] == 0 && multiset(b)[rid] == 0;
  }

  /** Weighted share: from any regular state, a round of as many calls as the weights add up
      to returns every request exactly `weight` times, and ends in the state it began in. */
  lemma FairShare(q: seq<Entry>, cursor: nat, j: nat)
    requires Regular(q, cursor) && Distinct(q) && j < |q|
    ensures var p := Play(q, cursor, |Wheel(q)|);
            p.q == q && p.cursor == cursor && multiset(p.log)[q[j].rid] == q[j].weight
  {
    hide Wheel, Play, Position;
    var w := |Wheel(q)|;
    PlayReadsWheel(q, cursor, w);
    var pos := Position(q, cursor);
    var p := Play(q, cursor, w);
    assert Rotate(Wheel(q), pos)[..w] == Wheel(q)[pos..] + Wheel(q)[..pos];
    assert Wheel(q) == Wheel(q)[..pos] + Wheel(q)[pos..];
    assert multiset(p.log) == multiset(Wheel(q));
    WheelCount(q, j);
    PositionDetermines(q, cursor, p.q, p.cursor);
  }

  // --- Membership changes -----------------------------------------------------------------

  /** Index of the request, or the queue length. */
  function Find(q: seq<Entry>, rid: string): (k: nat)
    ensures k <= |q| && (k < |q| ==> q[k].rid == rid)
    ensures forall i :: 0 <= i < k ==> q[i].rid != rid
  {
    if q == [] || q[0].rid == rid then 0 else 1 + Find(q[1..], rid)
  }

  function Added(q: seq<Entry>, rid: string, weight: int): seq<Entry>
  {
    var k := Find(q, rid);
    if k < |q| then q[k := q[k].(weight := weight)] else q + [Entry(rid, weight, weight)]
  }

  function Removed(q: seq<Entry>, rid: string): seq<Entry>
  {
    var k := Find(q, rid);
    if k < |q| then q[..k] + q[k + 1..] else q
  }

  function RemovedCursor(q: seq<Entry>, cursor: nat, rid: string): nat
  {
    if Find(q, rid) < |q| && cursor >= |q| - 1 then 0 else cursor
  }

  lemma MembershipDistinct(q: seq<Entry>, rid: string, weight: int)
    requires Distinct(q)
    ensures Distinct(Added(q, rid, weight)) && Distinct(Removed(q, rid))
  {
  }

  /** Re-adding a request changes its weight but not its credits; the state stays regular
      exactly when that is invisible in the current round. */
  lemma ReweightRegular(q: seq<Entry>, cursor: nat, rid: string, weight: int)
    requires Regular(q, cursor) && Find(q, rid) < |q|
    ensures Regular(Added(q, rid, weight), cursor) <==>
            if Find(q, rid) == cursor then weight >= q[cursor].credits else weight == q[Find(q, rid)].weight
  {
    var k := Find(q, rid);
    var q' := Added(q, rid, weight);
    assert q'[k] == q[k].(weight := weight);
  }

  /** Removing a request keeps the state regular exactly when it does not pull a partly used
      entry away from under the cursor (which two entries cannot do: the cursor follows). */
  lemma RemoveRegular(q: seq<Entry>, cursor: nat, rid: string)
    requires Regular(q, cursor) && Find(q, rid) < |q|
    ensures Regular(Removed(q, rid), RemovedCursor(q, cursor, rid)) <==>
            Find(q, rid) >= cursor || q[cursor].credits == q[cursor].weight || |q| == 2
  {
    hide Find;
    var k, q', c' := Find(q, rid), Removed(q, rid), RemovedCursor(q, cursor, rid);
    RemovedAt(q, rid);
    if k < cursor {
      assert q'[cursor - 1] == q[cursor];
    }
  }

  lemma RemovedAt(q: seq<Entry>, rid: string)
    requires Find(q, rid) < |q|
    ensures var k, q' := Find(q, rid), Removed(q, rid);
            && |q'| == |q| - 1 && (forall i :: 0 <= i < k ==> q'[i] == q[i])
            && (forall i :: k <= i < |q'| ==> q'[i] == q[i + 1])
  {
    hide Find;
  }

  /** With unit weights every removal keeps the state regular, and so the fair share. */
  lemma RemoveKeepsUnit(q: seq<Entry>, cursor: nat, rid: string)
    requires Regular(q, cursor) && forall k :: 0 <= k < |q| ==> q[k].weight == 1
    ensures Regular(Removed(q, rid), RemovedCursor(q, cursor, rid))
  {
    if Find(q, rid) < |q| {
      RemoveRegular(q, cursor, rid);
    }
  }

  /** Round robin is the weighted schedule with all weights 1. */
  lemma RoundRobinIsUnit(q: seq<Entry>, cursor: nat)
    requires cursor < |q| && forall k :: 0 <= k < |q| ==> q[k].weight == q[k].credits == 1
    ensures Serve(q, cursor, 0) == Turn(cursor, q, After(cursor, |q|)) && Regular(q, cursor)
  {
  }

  // --- The tries of one call ----------------------------------------------------------------

  lemma SkipOne(q: seq<Entry>, cursor: nat, tries: nat)
    requires cursor < |q| && tries <= |q| && q[cursor].credits <= 0
    ensures Serve(q, cursor, tries)
         == Serve(q[cursor := q[cursor].(credits := q[cursor].weight)], After(cursor, |q|), tries + 1)
  {
  }

  lemma SpendIsTurn(q: seq<Entry>, cursor: nat, tries: nat)
    requires cursor < |q| && tries <= |q| && q[cursor].credits > 0
    ensures Serve(q, cursor, tries) == SpendTurn(q, cursor) && SpendTurn(q, cursor).idx == cursor
  {
  }

  lemma ServeGivesUp(q: seq<Entry>, cursor: nat, tries: nat)
    requires cursor < |q| && tries > |q|
    ensures Serve(q, cursor, tries) == Turn(0, q, cursor)
  {
  }

  lemma ServeHere(q: seq<Entry>, cursor: nat, tries: nat)
    requires cursor < |q| && tries <= |q| && q[cursor].credits > 0
    ensures Serve(q, cursor, tries).idx == cursor
  {
  }

  lemma CreditsDistinct(q: seq<Entry>, k: nat, credits: int)
    requires Distinct(q) && k < |q|
    ensures Distinct(q[k := q[k].(credits := credits)])
  {
    var q' := q[k := q[k].(credits := credits)];
    assert forall i :: 0 <= i < |q| ==> q'[i].rid == q[i].rid;
  }

  lemma TurnDistinct(q: seq<Entry>, k: nat)
    requires Distinct(q) && k < |q|
    ensures var e := q[k];
            && Distinct(q[k := e.(credits := e.credits - 1)]) && Distinct(q[k := e.(credits := e.weight)])
            && q[k := e.(credits := e.credits - 1)][k := e.(credits := e.weight)] == q[k := e.(credits := e.weight)]
  {
    hide Distinct;
    CreditsDistinct(q, k, q[k].credits - 1);
    CreditsDistinct(q, k, q[k].weight);
  }

  // --- The scheduler object -----------------------------------------------------------------

  class FairScheduler {
    const mode: string
    var q: seq<Entry>
    var cursor: nat

    ghost predicate Valid()
      reads this
    {
      Distinct(q) && if q == [] then cursor == 0 else cursor < |q|
    }

    constructor (mode: string)
      ensures Valid() && this.mode == mode && q == [] && Regular(q, cursor)
    {
      this.mode := mode;
      q, cursor := [], 0;
    }

    method Add(rid: string, weight: int)
      requires Valid()
      modifies this`q
      ensures Valid() && q == Added(old(q), rid, weight)
    {
      MembershipDistinct(q, rid, weight);
      for k := 0 to |q|
        invariant q == old(q) && Find(q, rid) >= k
      {
        if q[k].rid == rid {
          q := q[k := q[k].(weight := weight)];
          return;
        }
      }
      q := q + [Entry(rid, weight, weight)];
    }

    method Remove(rid: string)
      requires Valid()
      modifies this
      ensures Valid() && q == Removed(old(q), rid) && cursor == RemovedCursor(old(q), old(cursor), rid)
    {
      MembershipDistinct(q, rid, 0);
      for k := 0 to |q|
        invariant q == old(q) && cursor == old(cursor) && Find(q, rid) >= k
      {
        if q[k].rid == rid {
          q := q[..k] + q[k + 1..];
          if cursor >= |q| {
            cursor := 0;
          }
          return;
        }
      }
    }

    /** Serve the entry under the cursor out of its credits. */
    method Spend() returns (rid: string)
      requires Distinct(q) && cursor < |q| && q[cursor].credits > 0
      modifies this
      ensures Distinct(q) && rid == old(q)[old(cursor)].rid
      ensures Turn(old(cursor), q, cursor) == SpendTurn(old(q), old(cursor))
    {
      hide Distinct;
      TurnDistinct(q, cursor);
      var e := q[cursor];
      q := q[cursor := e.(credits := e.credits - 1)];
      rid := e.rid;
      if q[cursor].credits == 0 {
        q := q[cursor := e.(credits := e.weight)];
        cursor := After(cursor, |q|);
      }
    }

    /** The request that gets the next turn ("" if there is none). */
    method Next() returns (rid: string)
      requires Valid()
      modifies this
      ensures Valid()
      ensures old(q) == [] ==> rid == "" && q == [] && cursor == 0
      ensures old(q) != [] && mode == "fifo" ==> rid == old(q)[0].rid && q == old(q) && cursor == old(cursor)
      ensures old(q) != [] && mode == "round_robin" ==>
                rid == old(q)[old(cursor)].rid && q == old(q) && cursor == After(old(cursor), |q|)
      ensures old(q) != [] && mode != "fifo" && mode != "round_robin" ==>
                var t := Serve(old(q), old(cursor), 0);
                rid == old(q)[t.idx].rid && q == t.q && cursor == t.cursor
    {
      hide Distinct, Serve, SpendTurn, After;
      if q == [] {
        return "";
      }
      var tries := 0;
      while tries <= |q|
        invariant cursor < |q| == |old(q)| && Distinct(q) && forall k :: 0 <= k < |q| ==> q[k].rid == old(q)[k].rid
        invariant tries <= |q| + 1
        invariant mode == "fifo" || mode == "round_robin" ==> tries == 0 && q == old(q) && cursor == old(cursor)
        invariant mode != "fifo" && mode != "round_robin" ==> Serve(q, cursor, tries) == Serve(old(q), old(cursor), 0)
        decreases |q| + 1 - tries
      {
        var e := q[cursor];
        TurnDistinct(q, cursor);
        if mode == "fifo" {
          return q[0].rid;
        }
        if mode == "round_robin" {
          rid := e.rid;
          cursor := After(cursor, |q|);
          return;
        }
        if e.credits > 0 {
          SpendIsTurn(q, cursor, tries);
          rid := Spend();
          return;
        }
        SkipOne(q, cursor, tries);
        q := q[cursor := e.(credits := e.weight)];
        cursor := After(cursor, |q|);
        tries := tries + 1;
      }
      ServeGivesUp(q, cursor, tries);
      return q[0].rid;
    }
  }
}
