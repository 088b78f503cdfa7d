/** The Python owner's partition: sorted at load time, searched by bisection
    (py/server/node.py). */
module SortedPartition {
  import opened Basics
  import opened Store

  // --- The load-time permutation --------------------------------------------------------

  /** What sorted(range(n), key=...) returns: each index once, keys non-decreasing. */
  ghost predicate IsSortOrder(order: seq<nat>, key: seq<real>)
  {
    && |order| == |key|
    && (forall i :: 0 <= i < |order| ==> order[i] < |key|)
    && (forall i, j :: 0 <= i < j < |order| ==> order[i] != order[j])
    && (forall i, j :: 0 <= i < j < |order| ==> key[order[i]] <= key[order[j]])
  }

  ghost predicate IsPermutation(order: seq<nat>)
  {
    && (forall i :: 0 <= i < |order| ==> order[i] < |order|)
    && (forall i, j :: 0 <= i < j < |order| ==> order[i] != order[j])
  }

  function Permuted<T>(s: seq<T>, order: seq<nat>): (r: seq<T>)
    requires forall i :: 0 <= i < |order| ==> order[i] < |s|
    ensures |r| == |order| && forall i :: 0 <= i < |order| ==> r[i] == s[order[i]]
  {
    seq(|order|, i requires 0 <= i < |order| => s[order[i]])
  }

  function Below(n: nat): (r: set<nat>)
    ensures |r| == n && forall k: nat :: k in r <==> k < n
  {
    if n == 0 then {} else Below(n - 1) + {n - 1}
  }

  function Elements(s: seq<nat>): (r: set<nat>)
    ensures forall x: nat :: x in r <==> x in s
  {
    set x | x in s
  }

  lemma {:induction false} DistinctSize(s: seq<nat>)
    requires forall i, j :: 0 <= i < j < |s| ==> s[i] != s[j]
    ensures |Elements(s)| == |s|
  {
    if s != [] {
      var n := |s| - 1;
      DistinctSize(s[..n]);
      assert Elements(s) == Elements(s[..n]) + {s[n]};
    }
  }

  /** A permutation of 0 .. n - 1 mentions each of them. */
  lemma Enumerates(order: seq<nat>, k: nat)
    requires IsPermutation(order) && k < |order|
    ensures k in order
  {
    DistinctSize(order);
    if k !in order {
      forall x | x in Elements(order)
        ensures x in Below(|order|) - {k}
      {
        var i :| 0 <= i < |order| && order[i] == x;
      }
      SubsetSize(Elements(order), Below(|order|) - {k});
    }
  }

  /** A permutation without its largest index is a permutation of the rest. */
  lemma DropLargest(order: seq<nat>, at: nat) returns (rest: seq<nat>)
    requires IsPermutation(order) && at < |order| && order[at] == |order| - 1
    ensures rest == order[..at] + order[at + 1..] && IsPermutation(rest)
  {
    rest := order[..at] + order[at + 1..];
    assert forall i :: 0 <= i < |rest| ==> rest[i] == order[if i < at then i else i + 1];
  }

  lemma MultisetWithout<T>(p: seq<T>, at: nat)
    requires at < |p|
    ensures multiset(p) == multiset(p[..at] + p[at + 1..]) + multiset{p[at]}
  {
    assert p == p[..at] + [p[at]] + p[at + 1..];
  }

  /** Permuting a sequence keeps its multiset. */
  lemma {:induction false} PermutedMultiset<T>(s: seq<T>, order: seq<nat>)
    requires |order| == |s| && IsPermutation(order)
    ensures multiset(Permuted(s, order)) == multiset(s)
    decreases |s|
  {
    if s != [] {
      var n := |s| - 1;
      Enumerates(order, n);
      var at: nat :| at < |order| && order[at] == n;
      var rest := DropLargest(order, at);
      PermutedMultiset(s[..n], rest);
      var p := Permuted(s, order);
      assert Permuted(s[..n], rest) == p[..at] + p[at + 1..];
      MultisetWithout(p, at);
      assert s == s[..n] + [s[n]];
    }
  }

  // --- Bisection ---------------------------------------------------------------------------

  ghost predicate NonDecreasing(col: seq<real>)
  {
    forall i, j :: 0 <= i < j < |col| ==> col[i] <= col[j]
  }

  /** bisect.bisect_left: where the values below `x` end. */
  method BisectLeft(col: seq<real>, x: real) returns (r: nat)
    requires NonDecreasing(col)
    ensures r <= |col|
    ensures forall i :: 0 <= i < r ==> col[i] < x
    ensures forall i :: r <= i < |col| ==> col[i] >= x
  {
    var lo, hi := 0, |col|;
    while lo < hi
      invariant 0 <= lo <= hi <= |col|
      invariant forall i :: 0 <= i < lo ==> col[i] < x
      invariant forall i :: hi <= i < |col| ==> col[i] >= x
    {
      var mid := (lo + hi) / 2;
      if col[mid] < x {
        lo := mid + 1;
      } else {
        hi := mid;
      }
    }
    r := lo;
  }

  /** bisect.bisect_right: where the values up to `x` end. */
  method BisectRight(col: seq<real>, x: real) returns (r: nat)
    requires NonDecreasing(col)
    ensures r <= |col|
    ensures forall i :: 0 <= i < r ==> col[i] <= x
    ensures forall i :: r <= i < |col| ==> col[i] > x
  {
    var lo, hi := 0, |col|;
    while lo < hi
      invariant 0 <= lo <= hi <= |col|
      invariant forall i :: 0 <= i < lo ==> col[i] <= x
      invariant forall i :: hi <= i < |col| ==> col[i] > x
    {
      var mid := (lo + hi) / 2;
      if x < col[mid] {
        hi := mid;
      } else {
        lo := mid + 1;
      }
    }
    r := lo;
  }

  /** _bisect_window: the indices of a sorted column that a predicate hits form a window,
      possibly an empty one whose ends cross. */
  method BisectWindow(col: seq<real>, p: Pred) returns (lo: nat, hi: nat)
    requires NonDecreasing(col)
    ensures lo <= |col| && hi <= |col|
    ensures forall i :: 0 <= i < |col| ==> (lo <= i < hi <==> Hit(p, col[i]))
  {
    if p.inclusive {
      lo := BisectLeft(col, p.low);
      hi := BisectRight(col, p.high);
    } else {
      lo := BisectRight(col, p.low);
      hi := BisectLeft(col, p.high);
    }
  }

  // --- The partition ----------------------------------------------------------------------------

  function AllValid(cols: map<string, seq<real>>, n: nat): Table
  {
    Table(cols, seq(n, _ => true))
  }

  class Partition {
    var cols: map<string, seq<real>>
    var n: nat
    var sortColumn: string           // "" when no clustering column is known

    ghost predicate Valid()
      reads this
    {
      && (forall c :: c in cols ==> |cols[c]| == n)
      && (sortColumn != "" && sortColumn in cols ==> NonDecreasing(cols[sortColumn]))
    }

    function AsTable(): Table
      reads this
    {
      AllValid(cols, n)
    }

    /** Loading: the parsed columns, each permuted by the sort order of the clustering column. */
    constructor (parsed: map<string, seq<real>>, n: nat, sortColumn: string, order: seq<nat>)
      requires forall c :: c in parsed ==> |parsed[c]| == n
      requires sortColumn != "" && sortColumn in parsed ==> IsSortOrder(order, parsed[sortColumn])
      ensures Valid() && this.n == n && this.sortColumn == sortColumn && cols.Keys == parsed.Keys
      ensures forall c :: c in parsed ==>
                cols[c] == if sortColumn != "" && sortColumn in parsed && n > 1
                           then Permuted(parsed[c], order) else parsed[c]
    {
      this.n, this.sortColumn := n, sortColumn;
      if sortColumn != "" && sortColumn in parsed && n > 1 {
        var sorted := PermuteAll(parsed, n, order);
        this.cols := sorted;
      } else {
        this.cols := parsed;
      }
    }

    /** Every column is permuted alike. */
    static method PermuteAll(parsed: map<string, seq<real>>, n: nat, order: seq<nat>)
      returns (cols: map<string, seq<real>>)
      requires |order| == n && (forall i :: 0 <= i < n ==> order[i] < n) && forall c :: c in parsed ==> |parsed[c]| == n
      ensures cols.Keys == parsed.Keys && forall c :: c in parsed ==> cols[c] == Permuted(parsed[c], order)
    {
      cols := parsed;
      var todo := parsed.Keys;
      while todo != {}
        invariant todo <= parsed.Keys == cols.Keys
        invariant forall c :: c in parsed ==> cols[c] == if c in todo then parsed[c] else Permuted(parsed[c], order)
        decreases |todo|
      {
        var c :| c in todo;
        var dst := PermuteColumn(parsed[c], order);
        cols := cols[c := dst];
        todo := todo - {c};
      }
    }

    static method PermuteColumn(src: seq<real>, order: seq<nat>) returns (dst: seq<real>)
      requires |order| == |src| && forall i :: 0 <= i < |order| ==> order[i] < |src|
      ensures dst == Permuted(src, order)
    {
      var n := |src|;
      var a := new real[n](_ => 0.0);
      for i := 0 to n
        invariant forall j :: 0 <= j < i ==> a[j] == src[order[j]]
      {
        a[i] := src[order[i]];
      }
      dst := a[..];
    }

    /** A row that fails one predicate is not in the answer. */
    lemma MissesOne(q: seq<Pred>, at: nat, lo: nat, hi: nat)
      requires Valid() && at < |q| && lo <= hi <= n
      requires forall k :: 0 <= k < |q| ==> q[k].column in cols
      requires forall i :: lo <= i < hi ==> !Hit(q[at], cols[q[at].column][i])
      ensures MatchList(AsTable(), q, lo, hi) == []
    {
      forall i: nat | lo <= i < hi
        ensures !Matches(AsTable(), i, q)
      {
        assert !Hit(q[at], cols[q[at].column][i]);
      }
      MatchListNone(AsTable(), q, lo, hi);
    }

    /** Path 2: bisect on the first sort-column predicate, check the others row by row. */
    method WindowScan(q: seq<Pred>, at: nat, lo: nat, hi: nat) returns (out: seq<nat>)
      requires Valid() && at < |q| && lo <= n && hi <= n
      requires forall k :: 0 <= k < |q| ==> q[k].column in cols
      requires forall i :: 0 <= i < n ==> (lo <= i < hi <==> Hit(q[at], cols[q[at].column][i]))
      ensures out == MatchList(AsTable(), q, 0, n)
    {
      out := [];
      var i := lo;
      MissesOne(q, at, 0, lo);
      while i < hi
        invariant lo <= i && (i == lo || i <= hi)
        invariant out == MatchList(AsTable(), q, 0, i)
      {
        var ok := true;
        var k := 0;
        while k < |q|
          invariant k <= |q|
          invariant ok && forall j :: 0 <= j < k && j != at ==> Hit(q[j], cols[q[j].column][i])
        {
          if k != at && !Hit(q[k], cols[q[k].column][i]) {
            ok := false;
            break;
          }
          k := k + 1;
        }
        if ok {
          out := out + [i];
        }
        i := i + 1;
      }
      MissesOne(q, at, i, n);
      MatchListSplit(AsTable(), q, 0, i, n);
    }

    /** Path 3: the plain scan. */
    method FullScan(q: seq<Pred>) returns (out: seq<nat>)
      requires Valid() && forall k :: 0 <= k < |q| ==> q[k].column in cols
      ensures out == MatchList(AsTable(), q, 0, n)
    {
      out := [];
      for i := 0 to n
        invariant out == MatchList(AsTable(), q, 0, i)
      {
        var ok := true;
        var k := 0;
        while k < |q|
          invariant k <= |q|
          invariant ok && forall j :: 0 <= j < k ==> Hit(q[j], cols[q[j].column][i])
        {
          if !Hit(q[k], cols[q[k].column][i]) {
            ok := false;
            break;
          }
          k := k + 1;
        }
        if ok {
          out := out + [i];
        }
      }
    }

    /** range_search: all its paths return the plain filter of the (sorted) partition. */
    method RangeSearch(q: seq<Pred>) returns (out: seq<nat>)
      requires Valid()
      ensures out == MatchList(AsTable(), q, 0, n)
    {
      if n == 0 {
        return [];
      }
      var sortPred := -1;
      for k := 0 to |q|
        invariant forall j :: 0 <= j < k ==> q[j].column in cols
        invariant sortPred == -1 || (0 <= sortPred < k && q[sortPred].column == sortColumn && sortColumn != "")
      {
        if q[k].column !in cols {
          MatchListNone(AsTable(), q, 0, n);
          return [];
        }
        if sortColumn != "" && q[k].column == sortColumn && sortPred < 0 {
          sortPred := k;
        }
      }
      if sortPred >= 0 {
        var lo, hi := BisectWindow(cols[sortColumn], q[sortPred]);
        if |q| == 1 {
          out := Interval(lo, hi);
          IntervalIsMatchList(q, lo, hi, out);
        } else {
          out := WindowScan(q, sortPred, lo, hi);
        }
      } else {
        out := FullScan(q);
      }
    }

    /** list(range(lo, hi)). */
    static method Interval(lo: nat, hi: nat) returns (r: seq<nat>)
      ensures |r| == if lo <= hi then hi - lo else 0
      ensures forall k :: 0 <= k < |r| ==> r[k] == lo + k
    {
      r := [];
      var i := lo;
      while i < hi
        invariant i == lo + |r| && (lo <= hi ==> i <= hi) && (hi < lo ==> r == [])
        invariant forall k :: 0 <= k < |r| ==> r[k] == lo + k
      {
        r := r + [i];
        i := i + 1;
      }
    }

    lemma IntervalIsMatchList(q: seq<Pred>, lo: nat, hi: nat, r: seq<nat>)
      requires Valid() && lo <= n && hi <= n && |q| == 1 && q[0].column in cols
      requires forall i :: 0 <= i < n ==> (lo <= i < hi <==> Hit(q[0], cols[q[0].column][i]))
      requires |r| == (if lo <= hi then hi - lo else 0) && forall k :: 0 <= k < |r| ==> r[k] == lo + k
      ensures r == MatchList(AsTable(), q, 0, n)
    {
      hide MatchList;
      var t := AsTable();
      var end := if lo <= hi then hi else lo;
      MissesOne(q, 0, 0, lo);
      MissesOne(q, 0, end, n);
      AllHit(q, lo, end);
      MatchListSplit(t, q, 0, lo, n);
      MatchListSplit(t, q, lo, end, n);
    }

    lemma AllHit(q: seq<Pred>, lo: nat, hi: nat)
      requires Valid() && lo <= hi <= n && |q| == 1 && q[0].column in cols
      requires forall i :: lo <= i < hi ==> Hit(q[0], cols[q[0].column][i])
      ensures |MatchList(AsTable(), q, lo, hi)| == hi - lo
      ensures forall k :: 0 <= k < hi - lo ==> MatchList(AsTable(), q, lo, hi)[k] == lo + k
    {
      hide MatchList;
      AllMatch(AsTable(), q, lo, hi);
    }
  }

  lemma {:induction false} AllMatch(t: Table, q: seq<Pred>, lo: nat, hi: nat)
    requires t.WellFormed() && lo <= hi && forall i: nat :: lo <= i < hi ==> Matches(t, i, q)
    ensures |MatchList(t, q, lo, hi)| == hi - lo
    ensures forall k :: 0 <= k < hi - lo ==> MatchList(t, q, lo, hi)[k] == lo + k
    decreases hi
  {
    if lo < hi {
      AllMatch(t, q, lo, hi - 1);
    }
  }

  // --- Sorting changes no answer -----------------------------------------------------------------

  ghost function Hits(q: seq<Pred>, r: Row, count: nat): nat
  {
    if RowMatches(r, q) then count else 0
  }

  lemma {:induction false} FilterCounts(rows: seq<Row>, q: seq<Pred>, r: Row)
    ensures multiset(Filter(rows, q))[r] == Hits(q, r, multiset(rows)[r])
  {
    if rows != [] {
      var n := |rows| - 1;
      FilterCounts(rows[..n], q, r);
      assert rows == rows[..n] + [rows[n]];
    }
  }

  /** Filtering depends only on the multiset of rows. */
  lemma FilterMultiset(a: seq<Row>, b: seq<Row>, q: seq<Pred>)
    requires multiset(a) == multiset(b)
    ensures multiset(Filter(a, q)) == multiset(Filter(b, q))
  {
    forall r: Row
      ensures multiset(Filter(a, q))[r] == multiset(Filter(b, q))[r]
    {
      FilterCounts(a, q, r);
      FilterCounts(b, q, r);
    }
  }

  lemma {:induction false} RowsOfAllValid(t: Table, n: nat)
    requires t.WellFormed() && n <= t.Size() && forall i :: 0 <= i < t.Size() ==> t.valid[i]
    ensures |Rows(t, n)| == n && forall i: nat :: i < n ==> Rows(t, n)[i] == t.RowAt(i)
  {
    if n > 0 {
      RowsOfAllValid(t, n - 1);
    }
  }

  /** Rows stay together: row `i` of the sorted columns is row `order[i]` of the parsed ones. */
  lemma PermutedRow(parsed: map<string, seq<real>>, sorted: map<string, seq<real>>, n: nat,
                    order: seq<nat>, i: nat)
    requires forall c :: c in parsed ==> |parsed[c]| == n
    requires |order| == n && IsPermutation(order) && i < n
    requires forall c :: c in sorted ==> |sorted[c]| == n
    requires sorted.Keys == parsed.Keys
    requires forall c :: c in parsed ==> sorted[c] == Permuted(parsed[c], order)
    ensures order[i] < n && AllValid(sorted, n).RowAt(i) == AllValid(parsed, n).RowAt(order[i])
  {
  }

  lemma PermutedIs<T>(s: seq<T>, order: seq<nat>, r: seq<T>)
    requires |s| == |r| == |order| && IsPermutation(order)
    requires forall i: nat :: i < |r| ==> order[i] < |s| && r[i] == s[order[i]]
    ensures r == Permuted(s, order)
  {
  }

  lemma SortedRows(parsed: map<string, seq<real>>, sorted: map<string, seq<real>>, n: nat, order: seq<nat>)
    requires forall c :: c in parsed ==> |parsed[c]| == n
    requires |order| == n && IsPermutation(order)
    requires forall c :: c in sorted ==> |sorted[c]| == n
    requires sorted.Keys == parsed.Keys
    requires forall c :: c in parsed ==> sorted[c] == Permuted(parsed[c], order)
    ensures |Rows(AllValid(parsed, n), n)| == n
    ensures Rows(AllValid(sorted, n), n) == Permuted(Rows(AllValid(parsed, n), n), order)
  {
    hide Rows, Permuted, IsPermutation;
    var t, u := Rows(AllValid(parsed, n), n), Rows(AllValid(sorted, n), n);
    RowsOfAllValid(AllValid(parsed, n), n);
    RowsOfAllValid(AllValid(sorted, n), n);
    forall i: nat | i < n
      ensures order[i] < n && u[i] == t[order[i]]
    {
      PermutedRow(parsed, sorted, n, order, i);
    }
    PermutedIs(t, order, u);
  }

  /** The sorted partition answers every query with the same rows, as often, as the
      unsorted one: every column is permuted alike, so rows stay together. */
  lemma SortKeepsAnswers(parsed: map<string, seq<real>>, sorted: map<string, seq<real>>, n: nat,
                         order: seq<nat>, q: seq<Pred>)
    requires forall c :: c in parsed ==> |parsed[c]| == n
    requires |order| == n && IsPermutation(order)
    requires forall c :: c in sorted ==> |sorted[c]| == n
    requires sorted.Keys == parsed.Keys
    requires forall c :: c in parsed ==> sorted[c] == Permuted(parsed[c], order)
    ensures multiset(Filter(Rows(AllValid(sorted, n), n), q)) == multiset(Filter(Rows(AllValid(parsed, n), n), q))
  {
    hide Rows, Filter, Permuted, IsPermutation;
    var t, u := Rows(AllValid(parsed, n), n), Rows(AllValid(sorted, n), n);
    SortedRows(parsed, sorted, n, order);
    PermutedMultiset(t, order);
    FilterMultiset(u, t, q);
  }
}
