/** The adaptive chunk sizer: rows per chunk from how fast the consumer pulls. */
module ChunkSizing {
  import opened Basics

  /** Integer division by 2 that truncates toward zero. */
  function Half(x: int): int
  {
    if x >= 0 then x / 2 else -(-x / 2)
  }

  datatype Limits = Limits(initial: int, min: int, max: int, targetMs: int)
  {
    predicate Sane()
    {
      1 <= min <= max
    }
  }

  /** Per-request state: last decision (0 before the first one) and last pull. */
  datatype State = State(cur: int, last: int, hasLast: bool)

  const FRESH := State(0, 0, false)

  /** A pull with its size hint (0 or less if none) and its time in milliseconds. */
  datatype Pull = Pull(hint: int, now: int)

  /** What one pull makes of the request's state; the decision is the new `cur`. */
  function Decided(c: Limits, st: State, p: Pull): State
  {
    var cur := if st.cur == 0 then c.initial else st.cur;
    if p.hint > 0 then State(Max(c.min, Min(c.max, p.hint)), p.now, true)
    else if !st.hasLast then State(cur, p.now, true)
    else if p.now - st.last < Half(c.targetMs) then State(Min(c.max, Half(3 * cur) + 1), p.now, true)
    else if p.now - st.last > c.targetMs * 2 then State(Max(c.min, Half(cur)), p.now, true)
    else State(cur, p.now, true)
  }

  class ChunkSizer {
    const limits: Limits
    var s: map<string, State>

    constructor (limits: Limits)
      ensures this.limits == limits && s == map[]
    {
      this.limits := limits;
      s := map[];
    }

    function Of(rid: string): State
      reads this
    {
      if rid in s then s[rid] else FRESH
    }

    method Decide(rid: string, hint: int, now: int) returns (rows: int)
      modifies this
      ensures s == old(s)[rid := Decided(limits, old(Of(rid)), Pull(hint, now))]
      ensures rows == Of(rid).cur
      ensures forall other :: other != rid ==> Of(other) == old(Of(other))
    {
      var st := if rid in s then s[rid] else FRESH;
      if st.cur == 0 {
        st := st.(cur := limits.initial);
      }
      if hint > 0 {
        st := State(Max(limits.min, Min(limits.max, hint)), now, true);
        s := s[rid := st];
        return st.cur;
      }
      if st.hasLast {
        var dt := now - st.last;
        if dt < Half(limits.targetMs) {
          st := st.(cur := Min(limits.max, Half(3 * st.cur) + 1));
        } else if dt > limits.targetMs * 2 {
          st := st.(cur := Max(limits.min, Half(st.cur)));
        }
      }
      st := st.(last := now, hasLast := true);
      s := s[rid := st];
      rows := st.cur;
    }

    method Forget(rid: string)
      modifies this
      ensures Of(rid) == FRESH && forall other :: other != rid ==> Of(other) == old(Of(other))
    {
      s := s - {rid};
    }
  }

  // --- Bounds ---------------------------------------------------------------------------

  function Decisions(c: Limits, st: State, pulls: seq<Pull>): (r: seq<int>)
    ensures |r| == |pulls|
    decreases |pulls|
  {
    if pulls == [] then [] else
    var st' := Decided(c, st, pulls[0]);
    [st'.cur] + Decisions(c, st', pulls[1..])
  }

  predicate Within(c: Limits, xs: seq<int>)
  {
    forall k :: 0 <= k < |xs| ==> c.min <= xs[k] <= c.max
  }

  lemma {:induction false} DecisionsWithin(c: Limits, st: State, pulls: seq<Pull>)
    requires c.Sane() && c.min <= c.initial <= c.max && (st.cur == 0 || c.min <= st.cur <= c.max)
    ensures Within(c, Decisions(c, st, pulls))
    decreases |pulls|
  {
    if pulls != [] {
      var st' := Decided(c, st, pulls[0]);
      assert c.min <= st'.cur <= c.max;
      DecisionsWithin(c, st', pulls[1..]);
    }
  }

  /** Every decision of every request stays within the limits exactly when the configured
      first size does. */
  lemma BoundedExactly(c: Limits)
    requires c.Sane()
    ensures (forall pulls: seq<Pull> :: Within(c, Decisions(c, FRESH, pulls))) <==> c.min <= c.initial <= c.max
  {
    if c.min <= c.initial <= c.max {
      forall pulls: seq<Pull>
        ensures Within(c, Decisions(c, FRESH, pulls))
      {
        DecisionsWithin(c, FRESH, pulls);
      }
    } else {
      var pulls := [Pull(0, 0)];
      assert Decisions(c, FRESH, pulls)[0] == Decided(c, FRESH, pulls[0]).cur;
      assert !Within(c, Decisions(c, FRESH, pulls));
    }
  }

  // --- One decision -------------------------------------------------------------------------

  function Distance(x: int, y: int): int
  {
    if x <= y then y - x else x - y
  }

  /** A pull with a size hint gets the size within the limits that is nearest to the hint, so the
      hint itself if it is one. */
  lemma HintNearest(c: Limits, st: State, p: Pull)
    requires c.min <= c.max && p.hint > 0
    ensures var size := Decided(c, st, p).cur;
            && c.min <= size <= c.max
            && (forall x :: c.min <= x <= c.max && x != size ==> Distance(size, p.hint) < Distance(x, p.hint))
            && (c.min <= p.hint <= c.max ==> size == p.hint)
  {
  }

  /** The first pull of a request, without a hint, gets the configured first size. */
  lemma FirstSize(c: Limits, p: Pull)
    requires p.hint <= 0
    ensures Decided(c, FRESH, p).cur == c.initial
  {
  }

  /** Without a hint, a pull between half and twice the target time after the one before leaves
      the size as it was, and only such a pull leaves every size as it was. */
  lemma SteadyExactly(c: Limits, last: int, p: Pull)
    requires c.Sane() && c.targetMs >= 0 && p.hint <= 0
    ensures var dt := p.now - last;
            (forall cur :: cur > 0 ==> Decided(c, State(cur, last, true), p).cur == cur)
            <==> 2 * dt + 2 > c.targetMs && dt <= 2 * c.targetMs
  {
    var dt := p.now - last;
    if 2 * dt + 2 <= c.targetMs {
      assert Decided(c, State(2 * c.max, last, true), p).cur != 2 * c.max;
    } else if dt > 2 * c.targetMs {
      assert Decided(c, State(2 * c.max, last, true), p).cur != 2 * c.max;
    }
  }

  /** An earlier pull makes the size the least one of more than half as much again, but at most
      the maximum; a later one halves it, but not below the minimum. */
  lemma AdaptsExactly(c: Limits, st: State, p: Pull)
    requires c.targetMs >= 0 && p.hint <= 0 && st.hasLast && st.cur > 0
    ensures var dt, size := p.now - st.last, Decided(c, st, p).cur;
            && (2 * dt + 2 <= c.targetMs ==>
                  exists x: int :: 2 * (x - 1) <= 3 * st.cur < 2 * x && size == if x <= c.max then x else c.max)
            && (dt > 2 * c.targetMs ==>
                  exists x: int :: 2 * x <= st.cur < 2 * (x + 1) && size == if x >= c.min then x else c.min)
  {
    var x, y := 3 * st.cur / 2 + 1, st.cur / 2;
    assert 2 * (x - 1) <= 3 * st.cur < 2 * x && 2 * y <= st.cur < 2 * (y + 1);
  }

  /** Every decision is remembered with its time. */
  lemma Remembered(c: Limits, st: State, p: Pull)
    ensures Decided(c, st, p).hasLast && Decided(c, st, p).last == p.now
  {
  }

  // --- Speed ----------------------------------------------------------------------------

  /** The state after a sequence of pulls. */
  function Settle(c: Limits, st: State, pulls: seq<Pull>): State
    decreases |pulls|
  {
    if pulls == [] then st else Decided(c, Settle(c, st, pulls[..|pulls| - 1]), pulls[|pulls| - 1])
  }

  /** Time since the pull before, `last` being the time of the one before the first. */
  function Elapsed(last: int, pulls: seq<Pull>, k: nat): int
    requires k < |pulls|
  {
    pulls[k].now - (if k == 0 then last else pulls[k - 1].now)
  }

  ghost predicate AllFast(c: Limits, last: int, pulls: seq<Pull>)
  {
    forall k :: 0 <= k < |pulls| ==> pulls[k].hint <= 0 && Elapsed(last, pulls, k) < Half(c.targetMs)
  }

  /** With a negative target a pull could be fast as well as slow; the code then grows the chunk. */
  ghost predicate AllSlow(c: Limits, last: int, pulls: seq<Pull>)
  {
    forall k :: 0 <= k < |pulls| ==> pulls[k].hint <= 0 && Elapsed(last, pulls, k) > c.targetMs * 2
                                     && Elapsed(last, pulls, k) >= Half(c.targetMs)
  }

  function Pow(b: nat, n: nat): (r: nat)
    ensures b > 0 ==> r > 0
  {
    if n == 0 then 1 else b * Pow(b, n - 1)
  }

  lemma SettledLast(c: Limits, st: State, pulls: seq<Pull>)
    requires st.hasLast
    ensures Settle(c, st, pulls).hasLast
    ensures Settle(c, st, pulls).last == if pulls == [] then st.last else pulls[|pulls| - 1].now
  {
  }

  /** `cur` is at least (3/2)^n times `start`. */
  ghost predicate Grown(n: nat, start: nat, cur: nat)
  {
    Pow(2, n) * cur >= Pow(3, n) * start
  }

  lemma GrowStep(n: nat, start: nat, cur: nat, next: nat)
    requires Grown(n, start, cur) && 2 * next >= 3 * cur
    ensures Grown(n + 1, start, next)
  {
    hide Pow;
    PowStep(n + 1);
    var two, three := Pow(2, n), Pow(3, n);
    assert two * (2 * next) >= two * (3 * cur) by {
      assert two * (2 * next) - two * (3 * cur) == two * (2 * next - 3 * cur);
    }
    assert (2 * two) * next == two * (2 * next);
    assert two * (3 * cur) == 3 * (two * cur);
    assert (3 * three) * start == 3 * (three * start);
  }

  lemma PowStep(n: nat)
    ensures n == 0 ==> Pow(2, n) == Pow(3, n) == 1
    ensures n > 0 ==> Pow(2, n) == 2 * Pow(2, n - 1) && Pow(3, n) == 3 * Pow(3, n - 1)
  {
  }

  /** A fast pull grows the chunk by half and one more, or to the maximum. */
  lemma FastStep(c: Limits, st: State, p: Pull)
    requires c.Sane() && st.hasLast && c.min <= st.cur <= c.max && p.hint <= 0 && p.now - st.last < Half(c.targetMs)
    ensures var next := Decided(c, st, p).cur;
            c.min <= next <= c.max && (next < c.max ==> 2 * next >= 3 * st.cur)
  {
  }

  lemma NoGrowth(cur: nat)
    ensures Grown(0, cur, cur)
  {
  }

  /** n fast pulls in a row grow the chunk at least like (3/2)^n, until it hits the maximum. */
  lemma {:induction false} FastGrowth(c: Limits, st: State, pulls: seq<Pull>)
    requires c.Sane() && st.hasLast && c.min <= st.cur <= c.max && AllFast(c, st.last, pulls)
    ensures var cur := Settle(c, st, pulls).cur;
            && c.min <= cur <= c.max
            && (cur == c.max || Grown(|pulls|, st.cur, cur))
    decreases |pulls|
  {
    hide Grown, Decided, Settle, AllFast, Half, Elapsed;
    var n := |pulls|;
    SettleLast(c, st, pulls);
    if n == 0 {
      NoGrowth(st.cur);
    } else {
      var init := pulls[..n - 1];
      FastLast(c, st.last, pulls);
      FastGrowth(c, st, init);
      var prev := Settle(c, st, init);
      SettledLast(c, st, init);
      FastStep(c, prev, pulls[n - 1]);
      var next := Decided(c, prev, pulls[n - 1]).cur;
      if next < c.max {
        GrowStep(n - 1, st.cur, prev.cur, next);
      }
    }
  }

  lemma SettleLast(c: Limits, st: State, pulls: seq<Pull>)
    ensures Settle(c, st, pulls)
         == if pulls == [] then st else Decided(c, Settle(c, st, pulls[..|pulls| - 1]), pulls[|pulls| - 1])
  {
  }

  lemma FastLast(c: Limits, last: int, pulls: seq<Pull>)
    requires AllFast(c, last, pulls) && pulls != []
    ensures var n := |pulls| - 1;
            && AllFast(c, last, pulls[..n]) && pulls[n].hint <= 0
            && pulls[n].now - (if n == 0 then last else pulls[..n][n - 1].now) < Half(c.targetMs)
  {
    var init := pulls[..|pulls| - 1];
    assert forall k :: 0 <= k < |init| ==> Elapsed(last, init, k) == Elapsed(last, pulls, k);
    assert Elapsed(last, pulls, |pulls| - 1) < Half(c.targetMs);
  }

  lemma HalfAgain(x: nat, d: nat)
    requires d > 0
    ensures 2 * d > 0 && x / d / 2 == x / (2 * d)
  {
    var q := x / (2 * d);
    var r := x - 2 * d * q;
    assert 0 <= r < 2 * d;
    assert x == d * (2 * q) + r;
    if r < d {
      DivIs(x, d, 2 * q);
    } else {
      assert d * (2 * q + 1) == d * (2 * q) + d;
      DivIs(x, d, 2 * q + 1);
    }
  }

  lemma DivIs(x: nat, d: nat, q: nat)
    requires d > 0 && d * q <= x < d * q + d
    ensures x / d == q
  {
    var p := x / d;
    assert d * p <= x < d * p + d;
    if p < q {
      MultipleGap(d, p, q);
    } else if p > q {
      MultipleGap(d, q, p);
    }
  }

  lemma SlowLast(c: Limits, last: int, pulls: seq<Pull>)
    requires AllSlow(c, last, pulls) && pulls != []
    ensures var n := |pulls| - 1;
            && AllSlow(c, last, pulls[..n]) && pulls[n].hint <= 0
            && var dt := pulls[n].now - (if n == 0 then last else pulls[..n][n - 1].now);
            dt > c.targetMs * 2 && dt >= Half(c.targetMs)
  {
    var init := pulls[..|pulls| - 1];
    assert forall k :: 0 <= k < |init| ==> Elapsed(last, init, k) == Elapsed(last, pulls, k);
    assert Elapsed(last, pulls, |pulls| - 1) > c.targetMs * 2;
  }

  /** One slow pull halves the chunk, down to the minimum. */
  lemma SlowPull(c: Limits, st: State, pull: Pull)
    requires c.Sane() && st.hasLast && c.min <= st.cur && pull.hint <= 0
    requires pull.now - st.last > c.targetMs * 2 && pull.now - st.last >= Half(c.targetMs)
    ensures Decided(c, st, pull).cur == Max(c.min, st.cur / 2)
  {
  }

  /** n slow pulls in a row halve the chunk n times, down to the minimum. */
  lemma {:induction false} SlowDecay(c: Limits, st: State, pulls: seq<Pull>)
    requires c.Sane() && st.hasLast && c.min <= st.cur && AllSlow(c, st.last, pulls)
    ensures Settle(c, st, pulls).cur == Max(c.min, st.cur / Pow(2, |pulls|))
    decreases |pulls|
  {
    hide AllSlow, Decided, Settle, Half, Elapsed;
    var n := |pulls|;
    SettleLast(c, st, pulls);
    if n > 0 {
      SlowLast(c, st.last, pulls);
      SlowDecay(c, st, pulls[..n - 1]);
      SettledLast(c, st, pulls[..n - 1]);
      var prev := Settle(c, st, pulls[..n - 1]);
      SlowPull(c, prev, pulls[n - 1]);
      HalfAgain(st.cur, Pow(2, n - 1));
    }
  }
}
