/** A shard's columns, range queries over them, and the per-shard pre-filter
    (cpp/common/csv_store.cpp). */
module Store {

  type Row = map<string, real>

  /** One predicate of a query; all predicates of a query must hold. */
  datatype Pred = Pred(column: string, low: real, high: real, inclusive: bool)

  predicate Hit(p: Pred, v: real)
  {
    if p.inclusive then p.low <= v <= p.high else p.low < v < p.high
  }

  predicate RowMatches(row: Row, q: seq<Pred>)
  {
    forall k :: 0 <= k < |q| ==> q[k].column in row && Hit(q[k], row[q[k].column])
  }

  /** The columns of a shard; `valid` marks the rows that parsed. */
  datatype Table = Table(cols: map<string, seq<real>>, valid: seq<bool>)
  {
    ghost predicate WellFormed()
    {
      forall c :: c in cols ==> |cols[c]| == |valid|
    }

    function Size(): nat
    {
      |valid|
    }

    function RowAt(i: nat): Row
      requires WellFormed() && i < Size()
    {
      map c | c in cols :: cols[c][i]
    }
  }

  /** PartitionStore::matches. */
  predicate Matches(t: Table, i: nat, q: seq<Pred>)
    requires t.WellFormed()
  {
    && i < t.Size() && t.valid[i]
    && forall k :: 0 <= k < |q| ==> q[k].column in t.cols && Hit(q[k], t.cols[q[k].column][i])
  }

  lemma MatchesIsRow(t: Table, i: nat, q: seq<Pred>)
    requires t.WellFormed() && i < t.Size()
    ensures Matches(t, i, q) <==> t.valid[i] && RowMatches(t.RowAt(i), q)
  {
  }

  // --- The plain filter ------------------------------------------------------------

  /** The matching indices of [lo, hi), in order: what a scan row by row yields. */
  function MatchList(t: Table, q: seq<Pred>, lo: nat, hi: nat): (r: seq<nat>)
    requires t.WellFormed()
    decreases hi
  {
    if hi <= lo then [] else
    var before := MatchList(t, q, lo, hi - 1);
    if Matches(t, hi - 1, q) then before + [hi - 1] else before
  }

  /** The match list is ascending and holds exactly the matching indices. */
  lemma {:induction false} MatchListMeans(t: Table, q: seq<Pred>, lo: nat, hi: nat)
    requires t.WellFormed()
    ensures var r := MatchList(t, q, lo, hi);
            && (forall j, k :: 0 <= j < k < |r| ==> r[j] < r[k])
            && (forall i: nat :: i in r <==> lo <= i < hi && Matches(t, i, q))
    decreases hi
  {
    if lo < hi {
      MatchListMeans(t, q, lo, hi - 1);
      var before := MatchList(t, q, lo, hi - 1);
      forall j | 0 <= j < |before|
        ensures before[j] < hi - 1
      {
        assert before[j] in before;
      }
    }
  }

  lemma {:induction false} MatchListSplit(t: Table, q: seq<Pred>, lo: nat, mid: nat, hi: nat)
    requires t.WellFormed() && lo <= mid <= hi
    ensures MatchList(t, q, lo, hi) == MatchList(t, q, lo, mid) + MatchList(t, q, mid, hi)
    decreases hi
  {
    if mid < hi {
      MatchListSplit(t, q, lo, mid, hi - 1);
    }
  }

  lemma {:induction false} MatchListNone(t: Table, q: seq<Pred>, lo: nat, hi: nat)
    requires t.WellFormed() && forall i: nat :: lo <= i < hi ==> !Matches(t, i, q)
    ensures MatchList(t, q, lo, hi) == []
    decreases hi
  {
    if lo < hi {
      MatchListNone(t, q, lo, hi - 1);
    }
  }

  // --- Rows ------------------------------------------------------------------------

  /** The rows at given indices. */
  function RowsAt(t: Table, indices: seq<nat>): (r: seq<Row>)
    requires t.WellFormed() && forall k :: 0 <= k < |indices| ==> indices[k] < t.Size()
  {
    seq(|indices|, k requires 0 <= k < |indices| => t.RowAt(indices[k]))
  }

  /** The rows of the first `n` lines that parsed. */
  function Rows(t: Table, n: nat): seq<Row>
    requires t.WellFormed() && n <= t.Size()
  {
    if n == 0 then [] else
    var before := Rows(t, n - 1);
    if t.valid[n - 1] then before + [t.RowAt(n - 1)] else before
  }

  function Filter(rows: seq<Row>, q: seq<Pred>): seq<Row>
  {
    if rows == [] then [] else
    var before := Filter(rows[..|rows| - 1], q);
    var last := rows[|rows| - 1];
    if RowMatches(last, q) then before + [last] else before
  }

  /** The rows of the match list are the filtered rows of the shard. */
  lemma {:induction false} AnswerIsFilter(t: Table, q: seq<Pred>, n: nat)
    requires t.WellFormed() && n <= t.Size()
    ensures forall k :: 0 <= k < |MatchList(t, q, 0, n)| ==> MatchList(t, q, 0, n)[k] < n
    ensures RowsAt(t, MatchList(t, q, 0, n)) == Filter(Rows(t, n), q)
  {
    MatchListMeans(t, q, 0, n);
    if n > 0 {
      AnswerIsFilter(t, q, n - 1);
      MatchesIsRow(t, n - 1, q);
      var rows, list := Rows(t, n - 1), MatchList(t, q, 0, n - 1);
      if t.valid[n - 1] {
        assert (rows + [t.RowAt(n - 1)])[..|rows|] == rows;
      }
      if Matches(t, n - 1, q) {
        assert RowsAt(t, list + [n - 1]) == RowsAt(t, list) + [t.RowAt(n - 1)];
      }
    }
  }

  // --- Parallel search ---------------------------------------------------------------

  /** Contiguous ranges covering 0 .. n, one per thread: what a static schedule hands out. */
  ghost predicate StaticSplit(bounds: seq<nat>, n: nat)
  {
    && |bounds| >= 2 && bounds[0] == 0 && bounds[|bounds| - 1] == n
    && forall k :: 0 <= k < |bounds| - 1 ==> bounds[k] <= bounds[k + 1]
  }

  lemma {:induction false} BoundsBelow(bounds: seq<nat>, n: nat, k: nat)
    requires StaticSplit(bounds, n) && k < |bounds|
    ensures bounds[k] <= n
    decreases |bounds| - k
  {
    if k < |bounds| - 1 {
      BoundsBelow(bounds, n, k + 1);
    }
  }

  class PartitionStore {
    var table: Table
    var columnRanges: map<string, (real, real)>

    constructor (table: Table)
      ensures this.table == table && columnRanges == map[]
    {
      this.table, columnRanges := table, map[];
    }

    /** The predicate loop of one row: stops at the first predicate that fails. */
    method RowHits(i: nat, q: seq<Pred>) returns (hit: bool)
      requires table.WellFormed() && i < table.Size() && table.valid[i]
      requires forall k :: 0 <= k < |q| ==> q[k].column in table.cols
      ensures hit == Matches(table, i, q)
    {
      hit := true;
      for k := 0 to |q|
        invariant hit && forall j :: 0 <= j < k ==> Hit(q[j], table.cols[q[j].column][i])
      {
        if !Hit(q[k], table.cols[q[k].column][i]) {
          return false;
        }
      }
    }

    /** range_search: every thread scans its range, the results are concatenated in thread
        order.  Whatever the split, the answer is the plain filter. */
    method RangeSearch(q: seq<Pred>, bounds: seq<nat>) returns (result: seq<nat>)
      requires table.WellFormed() && StaticSplit(bounds, table.Size())
      ensures result == MatchList(table, q, 0, table.Size())
    {
      var n := table.Size();
      if n == 0 {
        return [];
      }
      for k := 0 to |q|
        invariant forall j :: 0 <= j < k ==> q[j].column in table.cols
      {
        if q[k].column !in table.cols {
          MatchListNone(table, q, 0, n);
          return [];
        }
      }
      var nt := |bounds| - 1;
      var perThread: seq<seq<nat>> := [];
      for tid := 0 to nt
        invariant |perThread| == tid
        invariant forall k: nat :: k < tid ==> perThread[k] == MatchList(table, q, bounds[k], bounds[k + 1])
      {
        BoundsBelow(bounds, n, tid + 1);
        var local := ScanRange(q, bounds[tid], bounds[tid + 1]);
        perThread := perThread + [local];
      }
      result := [];
      for tid := 0 to nt
        invariant result == MatchList(table, q, 0, bounds[tid])
      {
        MatchListSplitAt(q, bounds, tid);
        result := result + perThread[tid];
      }
    }

    lemma MatchListSplitAt(q: seq<Pred>, bounds: seq<nat>, tid: nat)
      requires table.WellFormed() && StaticSplit(bounds, table.Size()) && tid < |bounds| - 1
      ensures MatchList(table, q, 0, bounds[tid + 1])
           == MatchList(table, q, 0, bounds[tid]) + MatchList(table, q, bounds[tid], bounds[tid + 1])
    {
      MatchListSplit(table, q, 0, bounds[tid], bounds[tid + 1]);
    }

    /** One thread's range. */
    method ScanRange(q: seq<Pred>, lo: nat, hi: nat) returns (local: seq<nat>)
      requires table.WellFormed() && lo <= hi <= table.Size()
      requires forall k :: 0 <= k < |q| ==> q[k].column in table.cols
      ensures local == MatchList(table, q, lo, hi)
    {
      local := [];
      for i := lo to hi
        invariant local == MatchList(table, q, lo, i)
      {
        if table.valid[i] {
          var hit := RowHits(i, q);
          if hit {
            local := local + [i];
          }
        }
      }
    }

    /** Least and greatest value of a column over the rows that parsed, if there are any. */
    method MinMax(col: seq<real>) returns (found: bool, lo: real, hi: real)
      requires |col| == table.Size()
      ensures found <==> exists i: nat :: i < |col| && table.valid[i]
      ensures found ==> IsRange(table, col, (lo, hi))
    {
      found, lo, hi := false, 0.0, 0.0;
      for i := 0 to |col|
        invariant found <==> exists j: nat :: j < i && table.valid[j]
        invariant forall j: nat :: j < i && table.valid[j] ==> lo <= col[j] <= hi
        invariant found ==> exists j: nat :: j < i && table.valid[j] && col[j] == lo
        invariant found ==> exists j: nat :: j < i && table.valid[j] && col[j] == hi
      {
        if table.valid[i] {
          if !found || col[i] < lo {
            lo := col[i];
          }
          if !found || col[i] > hi {
            hi := col[i];
          }
          found := true;
        }
      }
    }

    /** compute_column_ranges: the exact range of every column, none for a shard
        without a row that parsed. */
    method ComputeColumnRanges()
      requires table.WellFormed()
      modifies `columnRanges
      ensures forall c :: c in columnRanges ==>
                c in table.cols && IsRange(table, table.cols[c], columnRanges[c])
      ensures (exists i: nat :: i < table.Size() && table.valid[i]) ==> columnRanges.Keys == table.cols.Keys
    {
      columnRanges := map[];
      var todo := table.cols.Keys;
      while todo != {}
        invariant todo <= table.cols.Keys
        invariant forall c :: c in columnRanges ==>
                    c in table.cols && IsRange(table, table.cols[c], columnRanges[c])
        invariant (exists i: nat :: i < table.Size() && table.valid[i]) ==> columnRanges.Keys == table.cols.Keys - todo
        decreases |todo|
      {
        var c :| c in todo;
        var found, lo, hi := MinMax(table.cols[c]);
        if found {
          columnRanges := columnRanges[c := (lo, hi)];
        }
        todo := todo - {c};
      }
    }

    /** register_request's precomputation: skip the scan when the range table rules the
        query out.  With any sound table, however partial, the answer is the plain filter. */
    method Precompute(q: seq<Pred>, bounds: seq<nat>) returns (indices: seq<nat>, done: bool)
      requires table.WellFormed() && StaticSplit(bounds, table.Size())
      requires SoundRanges(table, columnRanges)
      ensures indices == MatchList(table, q, 0, table.Size())
      ensures done <==> table.Size() > 0 && indices == []
    {
      indices, done := [], false;
      if table.Size() == 0 {
        return;
      }
      if !CanMatch(columnRanges, q) {
        SkipIsSafe(table, columnRanges, q);
        return [], true;
      }
      indices := RangeSearch(q, bounds);
      if indices == [] {
        done := true;
      }
    }
  }

  // --- The range table -----------------------------------------------------------------

  ghost predicate Covers(t: Table, col: seq<real>, r: (real, real))
    requires |col| == t.Size()
  {
    forall i: nat :: i < |col| && t.valid[i] ==> r.0 <= col[i] <= r.1
  }

  /** `r` is the least range that covers the column, and it is attained at both ends. */
  ghost predicate IsRange(t: Table, col: seq<real>, r: (real, real))
    requires |col| == t.Size()
  {
    && Covers(t, col, r)
    && (exists i: nat :: i < |col| && t.valid[i] && col[i] == r.0)
    && (exists i: nat :: i < |col| && t.valid[i] && col[i] == r.1)
  }

  /** Some of the columns have a range that covers them. */
  ghost predicate SoundRanges(t: Table, ranges: map<string, (real, real)>)
    requires t.WellFormed()
  {
    forall c :: c in ranges ==> c in t.cols && Covers(t, t.cols[c], ranges[c])
  }

  /** predicate_can_match: no predicate's window lies outside its column's range. */
  predicate CanMatch(ranges: map<string, (real, real)>, q: seq<Pred>)
  {
    forall k :: 0 <= k < |q| && q[k].column in ranges ==>
      !(q[k].high < ranges[q[k].column].0 || q[k].low > ranges[q[k].column].1)
  }

  /** A ruled-out query matches nothing, so skipping the scan changes no answer. */
  lemma SkipIsSafe(t: Table, ranges: map<string, (real, real)>, q: seq<Pred>)
    requires t.WellFormed() && SoundRanges(t, ranges) && !CanMatch(ranges, q)
    ensures MatchList(t, q, 0, t.Size()) == []
  {
    var k :| 0 <= k < |q| && q[k].column in ranges
             && (q[k].high < ranges[q[k].column].0 || q[k].low > ranges[q[k].column].1);
    forall i: nat | i < t.Size()
      ensures !Matches(t, i, q)
    {
      if t.valid[i] {
        var v := t.cols[q[k].column][i];
        assert ranges[q[k].column].0 <= v <= ranges[q[k].column].1;
        assert !Hit(q[k], v);
      }
    }
    MatchListNone(t, q, 0, t.Size());
  }

  /** Every row that parsed lies above the predicate's window, or every one lies below it. */
  ghost predicate Beyond(t: Table, p: Pred)
    requires t.WellFormed() && p.column in t.cols
  {
    || (forall i: nat :: i < t.Size() && t.valid[i] ==> t.cols[p.column][i] > p.high)
    || (forall i: nat :: i < t.Size() && t.valid[i] ==> t.cols[p.column][i] < p.low)
  }

  /** With the exact ranges the scan is skipped exactly when the values of some column all lie on
      one side of a predicate's window. */
  lemma SkipsExactly(t: Table, ranges: map<string, (real, real)>, q: seq<Pred>)
    requires t.WellFormed() && forall c :: c in ranges ==> c in t.cols && IsRange(t, t.cols[c], ranges[c])
    ensures !CanMatch(ranges, q) <==> exists k :: 0 <= k < |q| && q[k].column in ranges && Beyond(t, q[k])
  {
    forall k | 0 <= k < |q| && q[k].column in ranges
      ensures Beyond(t, q[k]) <==> (q[k].high < ranges[q[k].column].0 || q[k].low > ranges[q[k].column].1)
    {
      OneSide(t, q[k], ranges[q[k].column]);
    }
  }

  lemma OneSide(t: Table, p: Pred, r: (real, real))
    requires t.WellFormed() && p.column in t.cols && IsRange(t, t.cols[p.column], r)
    ensures Beyond(t, p) <==> (p.high < r.0 || p.low > r.1)
  {
    var col := t.cols[p.column];
    var i: nat :| i < |col| && t.valid[i] && col[i] == r.0;
    var j: nat :| j < |col| && t.valid[j] && col[j] == r.1;
  }

  /** A table that is still being built is sound as far as it goes. */
  lemma PartialRangesSound(t: Table, ranges: map<string, (real, real)>, partial: map<string, (real, real)>)
    requires t.WellFormed() && SoundRanges(t, ranges)
    requires forall c :: c in partial ==> c in ranges && partial[c] == ranges[c]
    ensures SoundRanges(t, partial)
    ensures forall q: seq<Pred> :: !CanMatch(partial, q) ==>
              !CanMatch(ranges, q) && MatchList(t, q, 0, t.Size()) == []
  {
    forall q: seq<Pred> | !CanMatch(partial, q)
      ensures !CanMatch(ranges, q) && MatchList(t, q, 0, t.Size()) == []
    {
      SkipIsSafe(t, partial, q);
    }
  }
}
