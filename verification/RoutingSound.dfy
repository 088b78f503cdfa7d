/** Manifest routing never leaves out an owner that holds a matching row, and exactly
    when its month windows do. */
module RoutingSound {
  import opened Basics
  import opened Store
  import opened Calendar
  import opened Routing

  // --- How rows are placed ----------------------------------------------------------------

  /** Row `row` may be stored at owner `o` under the manifest: what the splitter that wrote
      the manifest has to guarantee. */
  ghost predicate Placed(row: Row, o: Owner, meta: Meta, hash: int -> nat)
  {
    if meta.scheme == "trip_distance" then
      o in meta.distRange && "trip_distance" in row ==>
        meta.distRange[o].0 <= row["trip_distance"] <= meta.distRange[o].1
    else if meta.scheme == "pu_location_id" then
      o in meta.zones && "pu_location_id" in row ==> ZonePlaced(row["pu_location_id"], meta.zones[o])
    else if meta.scheme == "pickup_datetime" then
      o in meta.months && "pickup_datetime" in row ==> MonthPlaced(row["pickup_datetime"], meta.months[o])
    else if meta.scheme == "consistent_hash" then
      Ring(meta) && meta.hashColumn in row ==> HashPlaced(row[meta.hashColumn], o, meta, hash)
    else true
  }

  /** The bucket of a value: what the multiplier makes of it, without the fraction. */
  predicate IsBucket(v: real, multiplier: int, b: int)
  {
    var x := v * (multiplier as real);
    if x >= 0.0 then b as real <= x < (b + 1) as real else (b - 1) as real < x <= b as real
  }

  /** The ring gives every owner in turn a stripe of as many vnodes; the last owner has what is
      left over.  A negative number of vnodes per owner gives the first one everything. */
  ghost predicate InStripe(meta: Meta, vnode: nat, o: Owner)
    requires meta.ownersOrder != []
  {
    if meta.vnodesPerOwner < 0 then o == meta.ownersOrder[0]
    else exists i: nat :: IsStripe(meta, vnode, i) && o == meta.ownersOrder[Min(i, |meta.ownersOrder| - 1)]
  }

  predicate IsStripe(meta: Meta, vnode: nat, i: nat)
  {
    i * meta.vnodesPerOwner <= vnode < (i + 1) * meta.vnodesPerOwner
  }

  /** Bucket `b` hashes into the stripe of owner `o`. */
  ghost predicate BucketIn(meta: Meta, hash: int -> nat, b: int, o: Owner)
    requires Ring(meta)
  {
    InStripe(meta, hash(b) % meta.totalVnodes, o)
  }

  /** The value's bucket hashes into the owner's stripe of the ring. */
  ghost predicate HashPlaced(v: real, o: Owner, meta: Meta, hash: int -> nat)
    requires Ring(meta)
  {
    exists b: int :: IsBucket(v, meta.multiplier, b) && BucketIn(meta, hash, b, o)
  }

  /** The computed bucket is the bucket. */
  lemma BucketIs(v: real, multiplier: int, b: int)
    ensures IsBucket(v, multiplier, b) <==> b == BucketAt(multiplier, v)
  {
    hide Scaled;
    ScaledIs(v, multiplier);
    TruncIs(Scaled(v, multiplier), b);
  }

  lemma ScaledIs(v: real, multiplier: int)
    ensures Scaled(v, multiplier) == v * (multiplier as real)
  {
  }

  lemma TruncIs(x: real, b: int)
    ensures b == Trunc(x) <==>
            if x >= 0.0 then b as real <= x < (b + 1) as real else (b - 1) as real < x <= b as real
  {
  }

  lemma OnlyStripe(meta: Meta, v: nat, i: nat)
    requires meta.vnodesPerOwner > 0
    ensures IsStripe(meta, v, i) <==> i == v / meta.vnodesPerOwner
  {
    var d := meta.vnodesPerOwner;
    StripeQuotient(v, d);
    if IsStripe(meta, v, i) {
      assert (i + 1) * d == i * d + d;
      DivUnique(v, d, i, v - i * d);
    }
  }

  lemma StripeOwner(meta: Meta, v: nat, o: Owner)
    requires meta.vnodesPerOwner > 0 && meta.ownersOrder != []
    ensures InStripe(meta, v, o) <==>
            o == meta.ownersOrder[Min(v / meta.vnodesPerOwner, |meta.ownersOrder| - 1)]
  {
    hide IsStripe;
    forall i: nat
      ensures IsStripe(meta, v, i) <==> i == v / meta.vnodesPerOwner
    {
      OnlyStripe(meta, v, i);
    }
    assert IsStripe(meta, v, v / meta.vnodesPerOwner);
  }

  /** The computed owner of a bucket is the one whose stripe it hashes into. */
  lemma StripeIs(meta: Meta, hash: int -> nat, b: int, o: Owner)
    requires Ring(meta)
    ensures BucketIn(meta, hash, b, o) <==> o == BucketOwner(meta, hash, b)
  {
    hide IsStripe;
    var v := hash(b) % meta.totalVnodes;
    if meta.vnodesPerOwner < 0 {
      ZeroQuotient(v, -meta.vnodesPerOwner);
    } else {
      StripeOwner(meta, v, o);
    }
  }

  lemma StripeQuotient(v: nat, d: nat)
    requires d > 0
    ensures (v / d) * d <= v < (v / d + 1) * d
  {
    var q, r := v / d, v % d;
    assert v == q * d + r;
    assert (q + 1) * d == q * d + d;
  }

  lemma PlacedIs(v: real, o: Owner, meta: Meta, hash: int -> nat)
    requires Ring(meta)
    ensures HashPlaced(v, o, meta, hash) <==> o == BucketOwner(meta, hash, Bucket(meta, v))
  {
    hide BucketIn, BucketOwner, IsBucket, BucketAt;
    forall b: int
      ensures IsBucket(v, meta.multiplier, b) <==> b == BucketAt(meta.multiplier, v)
      ensures BucketIn(meta, hash, b, o) <==> o == BucketOwner(meta, hash, b)
    {
      BucketIs(v, meta.multiplier, b);
      StripeIs(meta, hash, b, o);
    }
    assert IsBucket(v, meta.multiplier, Bucket(meta, v));
  }

  /** The value is one of the owner's zone numbers. */
  ghost predicate ZonePlaced(v: real, zones: seq<int>)
  {
    exists k :: 0 <= k < |zones| && v == zones[k] as real
  }

  /** The value is a whole second in one of the owner's months. */
  ghost predicate MonthPlaced(v: real, months: seq<int>)
  {
    exists t: int :: WholeSecond(v, t) && MonthOf(t) in months
  }

  predicate WholeSecond(v: real, t: int)
  {
    v == t as real
  }

  /** The window of a pickup query is one that month numbers can express: inside one
      calendar year, or from January or December of one year to the other of a later one. */
  ghost predicate MonthWindowOk(s: int, t: int)
  {
    || s > t
    || YearOf(s) == YearOf(t)
    || (Min(MonthOf(s), MonthOf(t)) == 1 && Max(MonthOf(s), MonthOf(t)) == 12)
  }

  /** No value is inside the window. */
  predicate NoWindow(p: Pred)
  {
    if p.inclusive then p.low > p.high else p.low >= p.high
  }

  /** The window of a hash query is one that enumerating from bucket 0 serves: it is empty,
      or all its buckets are negative (then everybody is asked), or none of them is. */
  predicate HashWindowOk(p: Pred, multiplier: int)
  {
    || NoWindow(p)
    || (BucketAt(multiplier, p.low) < 0 && BucketAt(multiplier, p.high) < 0)
    || (if p.inclusive then BucketAt(multiplier, p.low) >= 0 && BucketAt(multiplier, p.high) >= 0
        else Scaled(p.low, multiplier) >= -1.0 && Scaled(p.high, multiplier) >= -1.0)
  }

  /** What soundness needs beyond placement: the query's window is one that routing can
      express, or else the row's own hash bucket is not negative. */
  ghost predicate Routable(row: Row, q: seq<Pred>, meta: Meta)
  {
    var p := RoutePred(q, meta);
    p.Some? ==>
      && (meta.scheme == "consistent_hash" && meta.hashColumn in row ==>
            HashWindowOk(p.value, meta.multiplier) || Bucket(meta, row[meta.hashColumn]) >= 0)
      && (meta.scheme == "pickup_datetime" ==> MonthWindowOk(Trunc(p.value.low), Trunc(p.value.high)))
  }

  lemma HitIsWithin(p: Pred, v: real)
    requires Hit(p, v)
    ensures p.low <= v <= p.high
  {
  }

  lemma {:induction false} FoundIsHit(q: seq<Pred>, column: string, row: Row)
    requires FindPred(q, column).Some? && RowMatches(row, q)
    ensures column in row && Hit(FindPred(q, column).value, row[column])
  {
    if q[0].column != column {
      assert RowMatches(row, q[1..]);
      FoundIsHit(q[1..], column, row);
    }
  }

  // --- consistent_hash ----------------------------------------------------------------------

  lemma ScaledOrder(x: real, y: real, multiplier: int)
    requires x <= y
    ensures multiplier >= 0 ==> Scaled(x, multiplier) <= Scaled(y, multiplier)
    ensures multiplier <= 0 ==> Scaled(y, multiplier) <= Scaled(x, multiplier)
  {
    var m := multiplier as real;
    assert (y - x) * m == y * m - x * m;
    if multiplier >= 0 {
      ProductSign(y - x, m);
    }
    if multiplier <= 0 {
      ProductSign(y - x, -m);
      assert (y - x) * -m == -((y - x) * m);
    }
  }

  lemma ProductSign(a: real, b: real)
    requires a >= 0.0 && b >= 0.0
    ensures a * b >= 0.0
  {
  }

  /** Buckets are ordered like the values, or against them for a negative multiplier. */
  lemma BucketOrder(meta: Meta, x: real, y: real)
    requires x <= y
    ensures meta.multiplier >= 0 ==> Bucket(meta, x) <= Bucket(meta, y)
    ensures meta.multiplier <= 0 ==> Bucket(meta, y) <= Bucket(meta, x)
  {
    hide Scaled;
    hide Trunc;
    ScaledOrder(x, y, meta.multiplier);
    if meta.multiplier >= 0 {
      TruncMonotone(Scaled(x, meta.multiplier), Scaled(y, meta.multiplier));
    }
    if meta.multiplier <= 0 {
      TruncMonotone(Scaled(y, meta.multiplier), Scaled(x, meta.multiplier));
    }
  }

  /** A matching value's bucket lies between the buckets of the bounds, whatever the sign of
      the multiplier; the enumeration reaches it exactly when it is not negative. */
  lemma BucketEnumerated(meta: Meta, p: Pred, v: real)
    requires Hit(p, v)
    ensures FirstBucket(meta, p) <= Bucket(meta, v) <= LastBucket(meta, p) <==> Bucket(meta, v) >= 0
  {
    hide Bucket;
    BucketOrder(meta, p.low, v);
    BucketOrder(meta, v, p.high);
  }

  lemma ScaledStrict(x: real, y: real, multiplier: int)
    requires x < y
    ensures multiplier > 0 ==> Scaled(x, multiplier) < Scaled(y, multiplier)
    ensures multiplier < 0 ==> Scaled(y, multiplier) < Scaled(x, multiplier)
    ensures multiplier == 0 ==> Scaled(x, multiplier) == 0.0
  {
    var m := multiplier as real;
    assert (y - x) * m == y * m - x * m;
    if multiplier > 0 {
      StrictProduct(y - x, m);
    } else if multiplier < 0 {
      StrictProduct(y - x, -m);
      assert (y - x) * -m == -((y - x) * m);
    }
  }

  lemma StrictProduct(a: real, b: real)
    requires a > 0.0 && b > 0.0
    ensures a * b > 0.0
  {
  }

  lemma TruncSign(x: real)
    ensures Trunc(x) >= 0 <==> x > -1.0
  {
  }

  /** In a window that enumeration serves, a hit has a non-negative bucket unless everybody
      is asked. */
  lemma ServedBucket(p: Pred, multiplier: int, v: real)
    requires Hit(p, v) && HashWindowOk(p, multiplier) && BucketAt(multiplier, v) < 0
    ensures BucketAt(multiplier, p.low) < 0 && BucketAt(multiplier, p.high) < 0
  {
    hide Scaled, Trunc;
    TruncSign(Scaled(v, multiplier));
    TruncSign(Scaled(p.low, multiplier));
    TruncSign(Scaled(p.high, multiplier));
    if p.inclusive {
      ScaledOrder(p.low, v, multiplier);
      ScaledOrder(v, p.high, multiplier);
    } else {
      ScaledStrict(p.low, v, multiplier);
      ScaledStrict(v, p.high, multiplier);
    }
  }

  /** Nothing enumerated: the fallback asks everybody. */
  lemma AllNegative(all: seq<Owner>, p: Pred, meta: Meta, hash: int -> nat)
    requires (meta.totalVnodes > 0 ==> Ring(meta)) && LastBucket(meta, p) < 0
    ensures HashEligible(all, p, meta, hash) == all
  {
    hide Select, BucketOwner;
    if meta.totalVnodes > 0 {
      var hit := BucketOwners(meta, hash, FirstBucket(meta, p), LastBucket(meta, p));
      NoBuckets(meta, hash, FirstBucket(meta, p), LastBucket(meta, p));
      NobodyHit(all, hit);
    }
  }

  lemma HashSound(all: seq<Owner>, p: Pred, meta: Meta, hash: int -> nat, v: real, o: Owner)
    requires (meta.totalVnodes > 0 ==> Ring(meta)) && o in all && Hit(p, v)
    requires Bucket(meta, v) >= 0 || HashWindowOk(p, meta.multiplier)
    requires Ring(meta) ==> HashPlaced(v, o, meta, hash)
    ensures o in HashEligible(all, p, meta, hash)
  {
    hide Select, BucketOwner, BucketAt, HashWindowOk, HashPlaced;
    if Ring(meta) {
      PlacedIs(v, o, meta, hash);
    }
    if Bucket(meta, v) < 0 {
      ServedBucket(p, meta.multiplier, v);
      AllNegative(all, p, meta, hash);
    } else if Ring(meta) {
      BucketEnumerated(meta, p, v);
      var lo, hi := FirstBucket(meta, p), LastBucket(meta, p);
      var hit := BucketOwners(meta, hash, lo, hi);
      assert o in hit;
      SelectMeans(all, x => x in hit);
    }
  }

  // --- pickup_datetime ------------------------------------------------------------------------

  lemma SplitMonth(t: int)
    ensures MonthIndex(t) == 12 * YearOf(t) + MonthOf(t) - 1
  {
    hide MonthStart;
  }

  /** Months of one year are ordered like the seconds in them. */
  lemma SameYearMonths(s: int, x: int, t: int)
    requires s <= x <= t && YearOf(s) == YearOf(t)
    ensures MonthOf(s) <= MonthOf(x) <= MonthOf(t)
  {
    hide *;
    MonthIndexMonotone(s, x);
    MonthIndexMonotone(x, t);
    SplitMonth(s);
    SplitMonth(x);
    SplitMonth(t);
  }

  /** The first second of a month, as gmtime sees it. */
  lemma StartOf(y: int, m: int)
    requires 1 <= m <= 12
    ensures var t := MonthStart(12 * y + m - 1);
            MonthIndex(t) == 12 * y + m - 1 && MonthOf(t) == m
  {
    hide MonthStart;
    AtStart(12 * y + m - 1);
    DivUnique(12 * y + m - 1, 12, y, m - 1);
  }

  /** A window over a year boundary contains a December and the January after it. */
  lemma YearBoundary(s: int, t: int) returns (dec: int, jan: int)
    requires s <= t && YearOf(s) < YearOf(t)
    ensures MonthOf(s) != 12 ==> s < dec < t && MonthOf(dec) == 12
    ensures MonthOf(t) != 1 ==> s < jan < t && MonthOf(jan) == 1
  {
    hide MonthStart;
    hide MonthOf;
    hide YearOf;
    var y := YearOf(s);
    SplitMonth(s);
    SplitMonth(t);
    dec, jan := MonthStart(12 * y + 12 - 1), MonthStart(12 * (y + 1) + 1 - 1);
    StartOf(y, 12);
    StartOf(y + 1, 1);
    if MonthOf(s) != 12 {
      StartAfter(s, 12 * y + 12 - 1);
      StartBefore(t, 12 * y + 12 - 1);
    }
    if MonthOf(t) != 1 {
      StartAfter(s, 12 * (y + 1) + 1 - 1);
      StartBefore(t, 12 * (y + 1) + 1 - 1);
    }
  }

  lemma AtStart(k: int)
    ensures MonthIndex(MonthStart(k)) == k
  {
    MonthsIncrease(k);
    hide MonthStart;
    MonthUnique(MonthStart(k), MonthIndex(MonthStart(k)), k);
  }

  lemma StartAfter(s: int, k: int)
    requires MonthIndex(s) < k
    ensures s < MonthStart(k)
  {
    hide MonthStart;
    if MonthIndex(s) + 1 < k {
      MonthStartMonotone(MonthIndex(s) + 1, k);
    }
  }

  lemma StartBefore(t: int, k: int)
    requires k < MonthIndex(t)
    ensures MonthStart(k) < t
  {
    hide MonthStart;
    MonthStartMonotone(k, MonthIndex(t));
  }

  /** The months between the endpoint months cover every moment of the window if and only
      if the window is expressible. */
  lemma MonthWindowExact(s: int, t: int)
    requires s <= t
    ensures (forall x: int :: s <= x <= t ==> Min(MonthOf(s), MonthOf(t)) <= MonthOf(x) <= Max(MonthOf(s), MonthOf(t)))
       <==> MonthWindowOk(s, t)
  {
    if YearOf(s) == YearOf(t) {
      forall x: int | s <= x <= t
        ensures MonthOf(s) <= MonthOf(x) <= MonthOf(t)
      {
        SameYearMonths(s, x, t);
      }
    } else if !MonthWindowOk(s, t) {
      var x := Uncovered(s, t);
    }
  }

  /** Some moment strictly inside an inexpressible window is in a month routing skips. */
  lemma Uncovered(s: int, t: int) returns (x: int)
    requires !MonthWindowOk(s, t)
    ensures s < x < t && !(Min(MonthOf(s), MonthOf(t)) <= MonthOf(x) <= Max(MonthOf(s), MonthOf(t)))
  {
    hide MonthOf;
    MonthIndexMonotone(s, t);
    var dec, jan := YearBoundary(s, t);
    x := if Max(MonthOf(s), MonthOf(t)) < 12 then dec else jan;
  }

  lemma MonthSound(months: seq<int>, p: Pred, t: int)
    requires Hit(p, t as real) && MonthOf(t) in months && MonthWindowOk(Trunc(p.low), Trunc(p.high))
    ensures MonthHit(months, Trunc(p.low), Trunc(p.high))
  {
    hide MonthOf;
    TruncWindow(t, p.low, p.high);
    MonthWindowExact(Trunc(p.low), Trunc(p.high));
    var k :| 0 <= k < |months| && months[k] == MonthOf(t);
  }

  // --- All schemes ---------------------------------------------------------------------------------

  lemma KeptSound(p: Pred, meta: Meta, hash: int -> nat, row: Row, o: Owner)
    requires meta.scheme in {"trip_distance", "pu_location_id", "pickup_datetime"}
    requires meta.scheme in row && Hit(p, row[meta.scheme]) && Placed(row, o, meta, hash)
    requires meta.scheme == "pickup_datetime" ==> MonthWindowOk(Trunc(p.low), Trunc(p.high))
    ensures Kept(meta, p, o)
  {
    HitIsWithin(p, row[meta.scheme]);
    if meta.scheme == "pu_location_id" && o in meta.zones {
      assert ZonePlaced(row["pu_location_id"], meta.zones[o]);
      var k :| 0 <= k < |meta.zones[o]| && row["pu_location_id"] == meta.zones[o][k] as real;
      TruncWindow(meta.zones[o][k], p.low, p.high);
    } else if meta.scheme == "pickup_datetime" && o in meta.months {
      assert MonthPlaced(row["pickup_datetime"], meta.months[o]);
      var t: int :| WholeSecond(row["pickup_datetime"], t) && MonthOf(t) in meta.months[o];
      MonthSound(meta.months[o], p, t);
    }
  }

  /** Routing soundness, all schemes: if rows are placed as the manifest says, an owner that
      holds a row satisfying every predicate is asked. */
  lemma RoutingIsSound(all: seq<Owner>, q: seq<Pred>, meta: Meta, hash: int -> nat, row: Row, o: Owner)
    requires RingOk(meta) && o in all
    requires RowMatches(row, q) && Placed(row, o, meta, hash) && Routable(row, q, meta)
    ensures o in Eligible(all, q, meta, hash)
  {
    hide Kept;
    hide HashEligible;
    var p := RoutePred(q, meta);
    if p.Some? {
      FoundIsHit(q, RouteColumn(meta).value, row);
      if meta.scheme == "consistent_hash" {
        HashSound(all, p.value, meta, hash, row[meta.hashColumn], o);
      } else {
        KeptSound(p.value, meta, hash, row, o);
        SelectMeans(all, x => Kept(meta, p.value, x));
      }
    }
  }

  lemma HashEligibleIn(all: seq<Owner>, p: Pred, meta: Meta, hash: int -> nat, o: Owner)
    requires (meta.totalVnodes > 0 ==> Ring(meta)) && o in HashEligible(all, p, meta, hash)
    ensures o in all
  {
    hide Select, BucketOwners;
    if meta.totalVnodes > 0 {
      var hit := BucketOwners(meta, hash, FirstBucket(meta, p), LastBucket(meta, p));
      SelectMeans(all, x => x in hit);
    }
  }

  /** Every asked owner is one of the data owners. */
  lemma EligibleIsSubset(all: seq<Owner>, q: seq<Pred>, meta: Meta, hash: int -> nat, o: Owner)
    requires RingOk(meta) && o in Eligible(all, q, meta, hash)
    ensures o in all
  {
    hide Kept, Select, HashEligible;
    var p := RoutePred(q, meta);
    if p.Some? {
      if meta.scheme == "consistent_hash" {
        HashEligibleIn(all, p.value, meta, hash, o);
      } else {
        SelectMeans(all, x => Kept(meta, p.value, x));
      }
    }
  }

  // --- Where it fails --------------------------------------------------------------------------------

  function MonthMeta(o: Owner, month: int): Meta
  {
    Meta("pickup_datetime", map[], map[], map[o := [month]], 100, 0, 0, "", [])
  }

  /** Under no month manifest does owner `o` miss being asked for a row it correctly holds. */
  ghost predicate NeverLoses(q: seq<Pred>, o: Owner, hash: int -> nat)
  {
    forall meta: Meta, row: Row ::
      meta.scheme == "pickup_datetime" && RowMatches(row, q) && Placed(row, o, meta, hash)
      ==> o in Eligible([o], q, meta, hash)
  }

  /** For pickup windows the condition is exact: a window that month numbers cannot express
      loses a correctly placed matching row for some manifest, and an expressible one never does. */
  lemma MonthRoutingExact(low: real, high: real, inclusive: bool, o: Owner, hash: int -> nat)
    ensures NeverLoses([Pred("pickup_datetime", low, high, inclusive)], o, hash)
       <==> MonthWindowOk(Trunc(low), Trunc(high))
  {
    hide MonthWindowOk;
    var p := Pred("pickup_datetime", low, high, inclusive);
    var q := [p];
    if MonthWindowOk(Trunc(low), Trunc(high)) {
      forall meta: Meta, row: Row | meta.scheme == "pickup_datetime" && RowMatches(row, q) && Placed(row, o, meta, hash)
        ensures o in Eligible([o], q, meta, hash)
      {
        assert RoutePred(q, meta).Some? ==> RoutePred(q, meta).value == p;
        RoutingIsSound([o], q, meta, hash, row, o);
      }
    } else {
      var x := Uncovered(Trunc(low), Trunc(high));
      MonthRoutingLoses(p, x, o, hash);
    }
  }

  lemma MonthRoutingLoses(p: Pred, x: int, o: Owner, hash: int -> nat)
    requires p.column == "pickup_datetime" && Trunc(p.low) < x < Trunc(p.high)
    requires var s, t := Trunc(p.low), Trunc(p.high);
             !(Min(MonthOf(s), MonthOf(t)) <= MonthOf(x) <= Max(MonthOf(s), MonthOf(t)))
    ensures var meta, row := MonthMeta(o, MonthOf(x)), map["pickup_datetime" := x as real];
            RowMatches(row, [p]) && Placed(row, o, meta, hash) && o !in Eligible([o], [p], meta, hash)
  {
    hide MonthOf;
    var meta, row := MonthMeta(o, MonthOf(x)), map["pickup_datetime" := x as real];
    assert p.low < x as real < p.high;
    assert WholeSecond(row["pickup_datetime"], x) && MonthOf(x) in meta.months[o];
    assert o in meta.months;
    assert RoutePred([p], meta) == Some(p);
    assert !Kept(meta, p, o);
    SelectMeans([o], y => Kept(meta, p, y));
  }

  /** The winter of 1970: a query from 1 November to 1 February is routed by the months 2 to
      11, and does not ask the owner of a pickup on 1 December. */
  lemma WinterWindowLoses(o: Owner, hash: int -> nat)
    ensures var november, december, february := 26265600, 28857600, 34214400;
            var p := Pred("pickup_datetime", november as real, february as real, true);
            var meta, row := MonthMeta(o, 12), map["pickup_datetime" := december as real];
            && MonthOf(november) == 11 && MonthOf(december) == 12 && MonthOf(february) == 2
            && YearOf(november) == YearOf(december) == 1970 && YearOf(february) == 1971
            && RowMatches(row, [p]) && Placed(row, o, meta, hash) && o !in Eligible([o], [p], meta, hash)
  {
    hide *;
    WinterMonths();
    WholeTrunc(26265600);
    WholeTrunc(34214400);
    AtMostOf(11, 2);
    MonthRoutingLoses(Pred("pickup_datetime", 26265600 as real, 34214400 as real, true), 28857600, o, hash);
  }

  lemma WinterMonths()
    ensures MonthOf(26265600) == 11 && MonthOf(28857600) == 12 && MonthOf(34214400) == 2
    ensures YearOf(26265600) == YearOf(28857600) == 1970 && YearOf(34214400) == 1971
  {
    hide *;
    November();
    December();
    February();
    MonthIs(26265600, 1970, 11);
    MonthIs(28857600, 1970, 12);
    MonthIs(34214400, 1971, 2);
  }

  lemma AtMostOf(a: int, b: int)
    ensures Max(a, b) == (if a <= b then b else a) && Min(a, b) == (if a <= b then a else b)
  {
  }

  lemma WholeTrunc(n: int)
    ensures Trunc(n as real) == n
  {
  }

  /** Under no hash manifest with this multiplier, and no hash, is an owner left out that
      correctly holds a matching row. */
  ghost predicate HashNeverLoses(p: Pred, multiplier: int)
  {
    forall meta: Meta, hash: int -> nat, all: seq<Owner>, row: Row, o: Owner ::
      meta.scheme == "consistent_hash" && meta.multiplier == multiplier && RingOk(meta) && o in all
      && RowMatches(row, [p]) && Placed(row, o, meta, hash)
      ==> o in Eligible(all, [p], meta, hash)
  }

  /** Hash routing is sound exactly for the windows that enumeration serves. */
  lemma HashRoutingExact(p: Pred, multiplier: int)
    ensures HashNeverLoses(p, multiplier) <==> HashWindowOk(p, multiplier)
  {
    hide HashWindowOk, Eligible;
    if HashWindowOk(p, multiplier) {
      forall meta: Meta, hash: int -> nat, all: seq<Owner>, row: Row, o: Owner
        | meta.scheme == "consistent_hash" && meta.multiplier == multiplier && RingOk(meta) && o in all
          && RowMatches(row, [p]) && Placed(row, o, meta, hash)
        ensures o in Eligible(all, [p], meta, hash)
      {
        assert RoutePred([p], meta).Some? ==> RoutePred([p], meta).value == p;
        RoutingIsSound(all, [p], meta, hash, row, o);
      }
    } else {
      var v := NegativeHit(p, multiplier);
      HashRoutingLoses(p, multiplier, v);
    }
  }

  /** A window that enumeration does not serve has a hit in a negative bucket, and a
      non-negative bucket to enumerate. */
  lemma NegativeHit(p: Pred, multiplier: int) returns (v: real)
    requires !HashWindowOk(p, multiplier)
    ensures Hit(p, v) && BucketAt(multiplier, v) < 0
    ensures BucketAt(multiplier, p.low) >= 0 || BucketAt(multiplier, p.high) >= 0
  {
    hide Scaled, Trunc;
    if p.inclusive {
      v := if BucketAt(multiplier, p.low) < 0 then p.low else p.high;
    } else {
      v := InsideBelow(p.low, p.high, multiplier);
      TruncSign(Scaled(v, multiplier));
    }
  }

  /** Between two values one of which scales below -1 there is one that still does. */
  lemma InsideBelow(low: real, high: real, multiplier: int) returns (v: real)
    requires low < high && (Scaled(low, multiplier) < -1.0 || Scaled(high, multiplier) < -1.0)
    ensures low < v < high && Scaled(v, multiplier) <= -1.0
  {
    hide Scaled;
    ScaledStrict(low, high, multiplier);
    ScaledZero(low, high, multiplier);
    var c := Unit(multiplier);
    if multiplier > 0 {
      if c <= low {
        ScaledOrder(c, low, multiplier);
      }
      v := if c < high then (low + c) / 2.0 else (low + high) / 2.0;
      ScaledOrder(v, c, multiplier);
    } else {
      if high <= c {
        ScaledOrder(high, c, multiplier);
      }
      v := if low < c then (c + high) / 2.0 else (low + high) / 2.0;
      ScaledOrder(c, v, multiplier);
    }
  }

  lemma ScaledZero(low: real, high: real, multiplier: int)
    requires Scaled(low, multiplier) < -1.0 || Scaled(high, multiplier) < -1.0
    ensures multiplier != 0
  {
  }

  /** The value that scales to -1. */
  lemma Unit(multiplier: int) returns (c: real)
    requires multiplier != 0
    ensures Scaled(c, multiplier) == -1.0
  {
    c := -1.0 / (multiplier as real);
  }

  /** The ring, hash and row with which the clamp at bucket 0 loses a match: two owners, the
      negative buckets on the second, the enumerated ones on the first. */
  lemma HashRoutingLoses(p: Pred, multiplier: int, v: real)
    requires Hit(p, v) && BucketAt(multiplier, v) < 0
    requires BucketAt(multiplier, p.low) >= 0 || BucketAt(multiplier, p.high) >= 0
    ensures !HashNeverLoses(p, multiplier)
  {
    hide Trunc, Scaled;
    var meta0 := Meta("consistent_hash", map[], map[], map[], multiplier, 1, 1, p.column, ["C", "D"]);
    var last := LastBucket(meta0, p);
    var meta := meta0.(totalVnodes := last + 2);
    var hash: int -> nat := b => if b < 0 then 1 else 0;
    var row: Row := map[p.column := v];
    BucketEnumerated(meta, p, v);
    BucketOrder(meta, p.low, v);
    BucketOrder(meta, v, p.high);
    TwoOwners(meta, hash);
    assert FirstBucket(meta, p) == 0 && LastBucket(meta, p) == last;
    var hit := BucketOwners(meta, hash, 0, last);
    assert BucketOwner(meta, hash, 0) in hit;
    assert "D" !in hit;
    SelectMeans(["C", "D"], o => o in hit);
    assert "C" in Select(["C", "D"], o => o in hit);
    assert RoutePred([p], meta) == Some(p);
    PlacedIs(v, "D", meta, hash);
    assert RowMatches(row, [p]) && Placed(row, "D", meta, hash);
    assert "D" !in Eligible(["C", "D"], [p], meta, hash);
  }

  lemma TwoOwners(meta: Meta, hash: int -> nat)
    requires Ring(meta) && meta.vnodesPerOwner == 1 && meta.totalVnodes >= 2 && meta.ownersOrder == ["C", "D"]
    requires forall b: int :: hash(b) == if b < 0 then 1 else 0
    ensures forall b: int :: BucketOwner(meta, hash, b) == if b < 0 then "D" else "C"
  {
    forall b: int
      ensures BucketOwner(meta, hash, b) == if b < 0 then "D" else "C"
    {
      SmallMod(hash(b), meta.totalVnodes);
    }
  }

  lemma SmallMod(v: nat, n: nat)
    requires v < n
    ensures v % n == v && v / 1 == v
  {
  }
}
