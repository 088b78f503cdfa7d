/** Exactly which owners manifest routing asks: routing prunes what it should. */
module RoutingAsks {
  import opened Basics
  import opened Store
  import opened Calendar
  import opened Routing
  import opened RoutingSound

  lemma EligibleIsKept(all: seq<Owner>, q: seq<Pred>, meta: Meta, hash: int -> nat, p: Pred, o: Owner)
    requires RingOk(meta) && meta.scheme != "consistent_hash" && RoutePred(q, meta) == Some(p)
    ensures o in Eligible(all, q, meta, hash) <==> o in all && Kept(meta, p, o)
  {
    hide Select, Kept, RoutePred;
    SelectMeans(all, x => Kept(meta, p, x));
  }

  predicate Between(lo: real, v: real, hi: real)
  {
    lo <= v <= hi
  }

  /** A distance query asks an owner that has a range exactly if some distance is both in the
      range and in the window, and every owner that has none. */
  lemma RangeAsked(all: seq<Owner>, q: seq<Pred>, meta: Meta, hash: int -> nat, p: Pred, o: Owner)
    requires meta.scheme == "trip_distance" && RoutePred(q, meta) == Some(p) && o in all && p.low <= p.high
    requires o in meta.distRange ==> meta.distRange[o].0 <= meta.distRange[o].1
    ensures o in Eligible(all, q, meta, hash) <==>
            (o in meta.distRange ==>
               exists v: real :: Between(meta.distRange[o].0, v, meta.distRange[o].1) && Between(p.low, v, p.high))
  {
    hide Eligible, RoutePred;
    EligibleIsKept(all, q, meta, hash, p, o);
    if o in meta.distRange {
      var (lo, hi) := meta.distRange[o];
      if !(hi < p.low || lo > p.high) {
        var v := if lo <= p.low then p.low else lo;
        assert Between(lo, v, hi) && Between(p.low, v, p.high);
      }
    }
  }

  /** A zone query asks an owner that has zones exactly if one of them lies between the bounds
      without their fractions. */
  lemma ZoneAsked(all: seq<Owner>, q: seq<Pred>, meta: Meta, hash: int -> nat, p: Pred, a: int, b: int, o: Owner)
    requires meta.scheme == "pu_location_id" && RoutePred(q, meta) == Some(p) && o in all
    requires IsBucket(p.low, 1, a) && IsBucket(p.high, 1, b)
    ensures o in Eligible(all, q, meta, hash) <==>
            (o in meta.zones ==> exists k :: 0 <= k < |meta.zones[o]| && a <= meta.zones[o][k] <= b)
  {
    hide Eligible, RoutePred, IsBucket;
    EligibleIsKept(all, q, meta, hash, p, o);
    WholePart(p.low, a);
    WholePart(p.high, b);
  }

  lemma WholePart(v: real, n: int)
    requires IsBucket(v, 1, n)
    ensures Trunc(v) == n
  {
    assert v * 1.0 == v;
    TruncIs(v, n);
  }

  /** A pickup query inside one calendar year asks an owner that has months exactly if some
      second of the window lies in one of them. */
  lemma MonthAsked(all: seq<Owner>, q: seq<Pred>, meta: Meta, hash: int -> nat, p: Pred, s: int, t: int, o: Owner)
    requires meta.scheme == "pickup_datetime" && RoutePred(q, meta) == Some(p) && o in all
    requires IsBucket(p.low, 1, s) && IsBucket(p.high, 1, t) && s <= t && YearOf(s) == YearOf(t)
    requires o in meta.months ==> forall k :: 0 <= k < |meta.months[o]| ==> 1 <= meta.months[o][k] <= 12
    ensures o in Eligible(all, q, meta, hash) <==>
            (o in meta.months ==> exists x: int :: s <= x <= t && MonthOf(x) in meta.months[o])
  {
    hide Eligible, RoutePred, IsBucket, MonthOf, YearOf;
    EligibleIsKept(all, q, meta, hash, p, o);
    WholePart(p.low, s);
    WholePart(p.high, t);
    SameYearMonths(s, s, t);
    if o in meta.months {
      var months := meta.months[o];
      if x: int :| s <= x <= t && MonthOf(x) in months {
        SameYearMonths(s, x, t);
        var k :| 0 <= k < |months| && months[k] == MonthOf(x);
        assert MonthHit(months, s, t);
      }
      if k :| 0 <= k < |months| && MonthOf(s) <= months[k] <= MonthOf(t) {
        var x := SecondIn(s, t, months[k]);
        assert MonthOf(x) in months;
      }
    }
  }

  /** Every month between those of two seconds of one year has a second between them. */
  lemma SecondIn(s: int, t: int, m: int) returns (x: int)
    requires s <= t && YearOf(s) == YearOf(t) && MonthOf(s) <= m <= MonthOf(t)
    ensures s <= x <= t && MonthOf(x) == m
  {
    hide MonthStart, MonthOf, YearOf;
    if m == MonthOf(s) {
      x := s;
    } else if m == MonthOf(t) {
      x := t;
    } else {
      SplitMonth(s);
      SplitMonth(t);
      assert 1 <= m <= 12;
      StartOf(YearOf(s), m);
      x := MonthStart(12 * YearOf(s) + m - 1);
      StartAfter(s, 12 * YearOf(s) + m - 1);
      StartBefore(t, 12 * YearOf(s) + m - 1);
    }
  }

  /** Some enumerated bucket hashes into the stripe of owner `o`. */
  ghost predicate StripeHit(meta: Meta, hash: int -> nat, lo: int, hi: int, o: Owner)
    requires Ring(meta)
  {
    exists b: int :: lo <= b <= hi && BucketIn(meta, hash, b, o)
  }

  /** A query on the hash column, with bounds in buckets `a` and `b`: unless there are more than
      four times as many buckets as vnodes, it asks exactly the owners into whose stripe some
      bucket from 0 on hashes, or everybody if there is no such owner. */
  lemma HashAsked(all: seq<Owner>, p: Pred, meta: Meta, hash: int -> nat, a: int, b: int, o: Owner)
    requires Ring(meta) && IsBucket(p.low, meta.multiplier, a) && IsBucket(p.high, meta.multiplier, b) && o in all
    ensures var lo, hi := Max(0, Min(a, b)), Max(a, b);
            o in HashEligible(all, p, meta, hash) <==>
            || hi - lo + 1 > 4 * meta.totalVnodes
            || StripeHit(meta, hash, lo, hi, o)
            || (forall x :: x in all ==> !StripeHit(meta, hash, lo, hi, x))
  {
    hide IsBucket, BucketIn, BucketOwner, Select, BucketAt;
    BucketIs(p.low, meta.multiplier, a);
    BucketIs(p.high, meta.multiplier, b);
    var lo, hi := Max(0, Min(a, b)), Max(a, b);
    var hit := BucketOwners(meta, hash, lo, hi);
    forall x
      ensures x in hit <==> StripeHit(meta, hash, lo, hi, x)
    {
      HitIsStripe(meta, hash, lo, hi, x);
    }
    SelectMeans(all, x => x in hit);
    var out := Select(all, x => x in hit);
    if out == [] {
      assert forall x :: x in all ==> x !in out;
    } else {
      assert out[0] in out;
    }
  }

  lemma HitIsStripe(meta: Meta, hash: int -> nat, lo: int, hi: int, o: Owner)
    requires Ring(meta)
    ensures o in BucketOwners(meta, hash, lo, hi) <==> StripeHit(meta, hash, lo, hi, o)
  {
    hide BucketIn, BucketOwner;
    forall b: int
      ensures BucketIn(meta, hash, b, o) <==> o == BucketOwner(meta, hash, b)
    {
      StripeIs(meta, hash, b, o);
    }
  }
}
