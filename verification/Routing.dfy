/** Manifest routing: which owners a query has to ask (cpp/common/routing.cpp). */
module Routing {
  import opened Basics
  import opened Store
  import opened Calendar

  type Owner = string

  /** manifest.json's routing fields. */
  datatype Meta = Meta(scheme: string,
                       distRange: map<Owner, (real, real)>, zones: map<Owner, seq<int>>, months: map<Owner, seq<int>>,
                       multiplier: int, vnodesPerOwner: int, totalVnodes: int,
                       hashColumn: string, ownersOrder: seq<Owner>)
  {
    predicate Empty()
    {
      scheme == "" || (distRange == map[] && zones == map[] && months == map[] && vnodesPerOwner == 0)
    }

    /** The manifest carries a usable hash ring. */
    predicate HashActive()
    {
      vnodesPerOwner != 0 && totalVnodes != 0 && ownersOrder != []
    }
  }

  // --- Casts -------------------------------------------------------------------------

  /** A C++ cast of a double to an integer: the fraction is dropped. */
  function Trunc(x: real): int
  {
    if x >= 0.0 then x.Floor else -((-x).Floor)
  }

  predicate FitsInt32(x: real)
  {
    -0x8000_0000 <= Trunc(x) < 0x8000_0000
  }

  /** Leaves room for the span computation, which adds one. */
  predicate FitsInt64(x: real)
  {
    -0x4000_0000_0000_0000 <= Trunc(x) < 0x4000_0000_0000_0000
  }

  lemma TruncMonotone(x: real, y: real)
    requires x <= y
    ensures Trunc(x) <= Trunc(y)
  {
  }

  /** An integer inside a real window is inside the truncated window. */
  lemma TruncWindow(z: int, low: real, high: real)
    requires low <= z as real <= high
    ensures Trunc(low) <= z <= Trunc(high)
  {
  }

  // --- Predicates and owners ----------------------------------------------------------

  /** The first predicate on a column. */
  function FindPred(q: seq<Pred>, column: string): (r: Option<Pred>)
    ensures r.Some? ==> exists k :: 0 <= k < |q| && q[k] == r.value && FirstOn(q, column, k)
    ensures r.Some? ==> r.value in q && r.value.column == column
    ensures r.None? ==> forall k :: 0 <= k < |q| ==> q[k].column != column
  {
    if q == [] then None
    else if q[0].column == column then Some(q[0])
    else
      var r := FindPred(q[1..], column);
      assert r.Some? ==> exists k :: 0 <= k < |q| && q[k] == r.value && FirstOn(q, column, k) by {
        if r.Some? {
          var k :| 0 <= k < |q[1..]| && q[1..][k] == r.value && FirstOn(q[1..], column, k);
          assert FirstOn(q, column, k + 1);
        }
      }
      r
  }

  /** Position `k` is the first with a predicate on the column. */
  predicate FirstOn(q: seq<Pred>, column: string, k: nat)
    requires k < |q|
  {
    q[k].column == column && forall j :: 0 <= j < k ==> q[j].column != column
  }

  function Select(all: seq<Owner>, keep: Owner -> bool): seq<Owner>
  {
    if all == [] then [] else
    var before := Select(all[..|all| - 1], keep);
    var last := all[|all| - 1];
    if keep(last) then before + [last] else before
  }

  lemma {:induction false} SelectMeans(all: seq<Owner>, keep: Owner -> bool)
    ensures forall o :: o in Select(all, keep) <==> o in all && keep(o)
  {
    if all != [] {
      var n := |all| - 1;
      SelectMeans(all[..n], keep);
      assert all == all[..n] + [all[n]];
    }
  }

  /** What is kept stays in its order. */
  lemma {:induction false} SelectConcat(a: seq<Owner>, b: seq<Owner>, keep: Owner -> bool)
    ensures Select(a + b, keep) == Select(a, keep) + Select(b, keep)
    decreases |b|
  {
    if b == [] {
      assert a + b == a;
    } else {
      var n := |b| - 1;
      assert (a + b)[..|a| + n] == a + b[..n];
      SelectConcat(a, b[..n], keep);
    }
  }

  // --- The hash ring ------------------------------------------------------------------------

  /** The hash bucket of a value, and the owner that the striped ring gives it. */
  function Bucket(meta: Meta, v: real): int
  {
    BucketAt(meta.multiplier, v)
  }

  function BucketAt(multiplier: int, v: real): int
  {
    Trunc(Scaled(v, multiplier))
  }

  function Scaled(v: real, multiplier: int): real
  {
    v * (multiplier as real)
  }

  /** A ring on which every bucket has an owner.  With a negative count per owner the index
      is zero or negative, and only zero is an index. */
  predicate Ring(meta: Meta)
  {
    && meta.ownersOrder != [] && meta.totalVnodes > 0 && meta.vnodesPerOwner != 0
    && (meta.vnodesPerOwner < 0 ==> -meta.vnodesPerOwner >= meta.totalVnodes)
  }

  /** The bucket loop of a consistent_hash manifest never indexes out of range; with a
      negative total it is never entered. */
  predicate RingOk(meta: Meta)
  {
    meta.scheme == "consistent_hash" && meta.HashActive() && meta.totalVnodes > 0 ==> Ring(meta)
  }

  lemma ZeroQuotient(v: int, d: int)
    ensures 0 <= v < d ==> v / d == 0
  {
  }

  function BucketOwner(meta: Meta, hash: int -> nat, b: int): (o: Owner)
    requires Ring(meta)
    ensures o in meta.ownersOrder
  {
    var v := hash(b) % meta.totalVnodes;
    var idx := if meta.vnodesPerOwner > 0 then v / meta.vnodesPerOwner else -(v / -meta.vnodesPerOwner);
    ZeroQuotient(v, -meta.vnodesPerOwner);
    var n := |meta.ownersOrder|;
    if idx >= n then meta.ownersOrder[n - 1] else meta.ownersOrder[idx]
  }

  /** First and last bucket that are enumerated. */
  function FirstBucket(meta: Meta, p: Pred): int
  {
    Max(0, Min(Bucket(meta, p.low), Bucket(meta, p.high)))
  }

  function LastBucket(meta: Meta, p: Pred): int
  {
    Max(Bucket(meta, p.low), Bucket(meta, p.high))
  }

  function BucketOwners(meta: Meta, hash: int -> nat, lo: int, hi: int): (s: set<Owner>)
    requires Ring(meta)
    ensures forall o :: o in s <==> exists b :: lo <= b <= hi && BucketOwner(meta, hash, b) == o
  {
    set b | lo <= b <= hi :: BucketOwner(meta, hash, b)
  }

  ghost predicate MonthHit(months: seq<int>, s: int, t: int)
  {
    exists k :: 0 <= k < |months| && Min(MonthOf(s), MonthOf(t)) <= months[k] <= Max(MonthOf(s), MonthOf(t))
  }

  predicate ZoneHit(zones: seq<int>, lo: int, hi: int)
  {
    exists k :: 0 <= k < |zones| && lo <= zones[k] <= hi
  }

  /** Is owner `o` asked, when routing is by ranges, zones or months? */
  ghost predicate Kept(meta: Meta, p: Pred, o: Owner)
  {
    if meta.scheme == "trip_distance" then
      o in meta.distRange ==> !(meta.distRange[o].1 < p.low || meta.distRange[o].0 > p.high)
    else if meta.scheme == "pu_location_id" then
      o in meta.zones ==> ZoneHit(meta.zones[o], Trunc(p.low), Trunc(p.high))
    else if meta.scheme == "pickup_datetime" then
      o in meta.months ==> MonthHit(meta.months[o], Trunc(p.low), Trunc(p.high))
    else true
  }

  /** Owners of the enumerated buckets, or everybody when the ring gives no selection. */
  ghost function HashEligible(all: seq<Owner>, p: Pred, meta: Meta, hash: int -> nat): seq<Owner>
    requires meta.totalVnodes > 0 ==> Ring(meta)
  {
    var lo, hi := FirstBucket(meta, p), LastBucket(meta, p);
    if meta.totalVnodes <= 0 || hi - lo + 1 > meta.totalVnodes * 4 then all
    else
      var hit := BucketOwners(meta, hash, lo, hi);
      var out := Select(all, o => o in hit);
      if out == [] then all else out
  }

  function RouteColumn(meta: Meta): Option<string>
  {
    if meta.scheme in {"trip_distance", "pu_location_id", "pickup_datetime"} then Some(meta.scheme)
    else if meta.scheme == "consistent_hash" && meta.HashActive() then Some(meta.hashColumn)
    else None
  }

  /** The owners a query asks, in overlay order. */
  ghost function Eligible(all: seq<Owner>, q: seq<Pred>, meta: Meta, hash: int -> nat): seq<Owner>
    requires RingOk(meta)
  {
    var p := RoutePred(q, meta);
    if p.None? then all
    else if meta.scheme == "consistent_hash" then HashEligible(all, p.value, meta, hash)
    else Select(all, o => Kept(meta, p.value, o))
  }

  /** The predicate that routing looks at, if any. */
  function RoutePred(q: seq<Pred>, meta: Meta): Option<Pred>
  {
    if meta.Empty() || RouteColumn(meta).None? then None else FindPred(q, RouteColumn(meta).value)
  }

  /** The casts routing performs on the query's bounds are defined. */
  predicate CastsDefined(q: seq<Pred>, meta: Meta)
  {
    var p := RoutePred(q, meta);
    p.None? ||
    match meta.scheme
    case "pu_location_id" => FitsInt32(p.value.low) && FitsInt32(p.value.high)
    case "pickup_datetime" => FitsInt64(p.value.low) && FitsInt64(p.value.high)
    case "consistent_hash" =>
      FitsInt64(Scaled(p.value.low, meta.multiplier)) && FitsInt64(Scaled(p.value.high, meta.multiplier))
    case _ => true
  }

  // --- eligible_owners ----------------------------------------------------------------------

  method KeepByRange(all: seq<Owner>, p: Pred, meta: Meta) returns (out: seq<Owner>)
    requires meta.scheme == "trip_distance"
    ensures out == Select(all, o => Kept(meta, p, o))
  {
    out := [];
    for i := 0 to |all|
      invariant out == Select(all[..i], o => Kept(meta, p, o))
    {
      var o := all[i];
      assert all[..i + 1][..i] == all[..i];
      if o !in meta.distRange {
        out := out + [o];
      } else {
        var (lo, hi) := meta.distRange[o];
        if !(hi < p.low || lo > p.high) {
          out := out + [o];
        }
      }
    }
    assert all[..|all|] == all;
  }

  method AnyWithin(values: seq<int>, lo: int, hi: int) returns (hit: bool)
    ensures hit == ZoneHit(values, lo, hi)
  {
    for k := 0 to |values|
      invariant forall j :: 0 <= j < k ==> !(lo <= values[j] <= hi)
    {
      if values[k] >= lo && values[k] <= hi {
        return true;
      }
    }
    return false;
  }

  method KeepByZone(all: seq<Owner>, p: Pred, meta: Meta) returns (out: seq<Owner>)
    requires meta.scheme == "pu_location_id"
    ensures out == Select(all, o => Kept(meta, p, o))
  {
    var low, high := Trunc(p.low), Trunc(p.high);
    out := [];
    for i := 0 to |all|
      invariant out == Select(all[..i], o => Kept(meta, p, o))
    {
      var o := all[i];
      assert all[..i + 1][..i] == all[..i];
      if o !in meta.zones {
        out := out + [o];
      } else {
        var hit := AnyWithin(meta.zones[o], low, high);
        if hit {
          out := out + [o];
        }
      }
    }
    assert all[..|all|] == all;
  }

  /** `monthOf` stands for the calendar call. */
  method KeepByMonth(all: seq<Owner>, p: Pred, meta: Meta, monthOf: int -> int) returns (out: seq<Owner>)
    requires meta.scheme == "pickup_datetime" && forall t :: monthOf(t) == MonthOf(t)
    ensures out == Select(all, o => Kept(meta, p, o))
  {
    var lo, hi := monthOf(Trunc(p.low)), monthOf(Trunc(p.high));
    if lo > hi {
      lo, hi := hi, lo;
    }
    out := [];
    for i := 0 to |all|
      invariant out == Select(all[..i], o => Kept(meta, p, o))
    {
      var o := all[i];
      assert all[..i + 1][..i] == all[..i];
      if o !in meta.months {
        out := out + [o];
      } else {
        var hit := AnyWithin(meta.months[o], lo, hi);
        if hit {
          out := out + [o];
        }
      }
    }
    assert all[..|all|] == all;
  }

  function Names(order: seq<Owner>): (s: set<Owner>)
    ensures |s| <= |order| && forall o :: o in s <==> o in order
  {
    if order == [] then {} else Names(order[1..]) + {order[0]}
  }

  lemma AddBucket(meta: Meta, hash: int -> nat, lo: int, b: int)
    requires Ring(meta) && lo <= b
    ensures BucketOwners(meta, hash, lo, b) == BucketOwners(meta, hash, lo, b - 1) + {BucketOwner(meta, hash, b)}
  {
  }

  /** Once as many owners are hit as the ring has, no further bucket can add one. */
  lemma Saturated(meta: Meta, hash: int -> nat, lo: int, b: int, hi: int)
    requires Ring(meta) && b <= hi && |BucketOwners(meta, hash, lo, b)| >= |meta.ownersOrder|
    ensures BucketOwners(meta, hash, lo, b) == BucketOwners(meta, hash, lo, hi)
  {
    var hit, all := BucketOwners(meta, hash, lo, b), Names(meta.ownersOrder);
    assert hit <= BucketOwners(meta, hash, lo, hi);
    assert BucketOwners(meta, hash, lo, hi) <= all;
    SubsetSize(hit, all);
  }

  lemma NoBuckets(meta: Meta, hash: int -> nat, lo: int, hi: int)
    requires Ring(meta) && hi < lo
    ensures BucketOwners(meta, hash, lo, hi) == {}
  {
  }

  /** The bucket loop; it may stop as soon as every owner was hit. */
  method CollectOwners(meta: Meta, hash: int -> nat, lo: int, hi: int) returns (hit: set<Owner>)
    requires lo <= hi ==> Ring(meta)
    ensures Ring(meta) ==> hit == BucketOwners(meta, hash, lo, hi)
    ensures hi < lo ==> hit == {}
  {
    hide BucketOwners;
    hide BucketOwner;
    hit := {};
    if hi < lo {
      if Ring(meta) {
        NoBuckets(meta, hash, lo, hi);
      }
      return;
    }
    NoBuckets(meta, hash, lo, lo - 1);
    var n := |meta.ownersOrder|;
    var b := lo;
    while b <= hi
      invariant b == lo || (lo < b <= hi + 1)
      invariant hit == BucketOwners(meta, hash, lo, b - 1)
      decreases hi + 1 - b
    {
      AddBucket(meta, hash, lo, b);
      hit := hit + {BucketOwner(meta, hash, b)};
      if |hit| >= n {
        Saturated(meta, hash, lo, b, hi);
        return;
      }
      b := b + 1;
    }
  }

  lemma {:induction false} NobodyHit(all: seq<Owner>, hit: set<Owner>)
    requires hit == {}
    ensures Select(all, o => o in hit) == []
    decreases |all|
  {
    if all != [] {
      NobodyHit(all[..|all| - 1], hit);
    }
  }

  /** Owners with an enumerated bucket, in overlay order. */
  method KeepHit(all: seq<Owner>, hit: set<Owner>) returns (out: seq<Owner>)
    ensures out == Select(all, o => o in hit)
  {
    out := [];
    for i := 0 to |all|
      invariant out == Select(all[..i], o => o in hit)
    {
      assert all[..i + 1][..i] == all[..i];
      if all[i] in hit {
        out := out + [all[i]];
      }
    }
    assert all[..|all|] == all;
  }

  method KeepByHash(all: seq<Owner>, p: Pred, meta: Meta, hash: int -> nat) returns (out: seq<Owner>)
    requires meta.totalVnodes != 0 && (meta.totalVnodes > 0 ==> Ring(meta))
    ensures out == HashEligible(all, p, meta, hash)
  {
    hide Select, BucketOwners, Bucket, Ring;
    var lo, hi := Bucket(meta, p.low), Bucket(meta, p.high);
    if lo > hi {
      lo, hi := hi, lo;
    }
    if lo < 0 {
      lo := 0;
    }
    var span, cap := hi - lo + 1, meta.totalVnodes * 4;
    if span > cap {
      return all;
    }
    var hit := CollectOwners(meta, hash, lo, hi);
    out := KeepHit(all, hit);
    if hit == {} {
      NobodyHit(all, hit);
    }
    if out == [] {
      out := all;
    }
  }

  /** eligible_owners. */
  method EligibleOwners(all: seq<Owner>, q: seq<Pred>, meta: Meta, hash: int -> nat, monthOf: int -> int)
    returns (out: seq<Owner>)
    requires RingOk(meta) && CastsDefined(q, meta) && forall t :: monthOf(t) == MonthOf(t)
    ensures out == Eligible(all, q, meta, hash)
  {
    if meta.Empty() || q == [] {
      return all;
    }
    if meta.scheme == "trip_distance" {
      var p := FindPred(q, "trip_distance");
      if p.None? { return all; }
      out := KeepByRange(all, p.value, meta);
    } else if meta.scheme == "pu_location_id" {
      var p := FindPred(q, "pu_location_id");
      if p.None? { return all; }
      out := KeepByZone(all, p.value, meta);
    } else if meta.scheme == "consistent_hash" {
      if !meta.HashActive() { return all; }
      var p := FindPred(q, meta.hashColumn);
      if p.None? { return all; }
      out := KeepByHash(all, p.value, meta, hash);
    } else if meta.scheme == "pickup_datetime" {
      var p := FindPred(q, "pickup_datetime");
      if p.None? { return all; }
      out := KeepByMonth(all, p.value, meta, monthOf);
    } else {
      out := all;
    }
  }
}
