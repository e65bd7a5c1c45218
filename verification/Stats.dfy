/** Filtering, summing, sorting and nearest-rank percentiles of sequences. */
module Stats {

  function Filter<T>(p: T -> bool, xs: seq<T>): seq<T> {
    if xs == [] then []
    else Filter(p, xs[..|xs| - 1]) + (if p(xs[|xs| - 1]) then [xs[|xs| - 1]] else [])
  }

  function Sum(xs: seq<real>): real {
    if xs == [] then 0.0 else Sum(xs[..|xs| - 1]) + xs[|xs| - 1]
  }

  function Map<S, T>(f: S -> T, xs: seq<S>): seq<T> { seq(|xs|, i requires 0 <= i < |xs| => f(xs[i])) }

  predicate Sorted(xs: seq<real>) { forall i, j | 0 <= i < j < |xs| :: xs[i] <= xs[j] }

  function Insert(x: real, xs: seq<real>): seq<real> {
    if xs == [] || xs[|xs| - 1] <= x then xs + [x]
    else Insert(x, xs[..|xs| - 1]) + [xs[|xs| - 1]]
  }

  function Sort(xs: seq<real>): seq<real> {
    if xs == [] then [] else Insert(xs[|xs| - 1], Sort(xs[..|xs| - 1]))
  }

  function Ceil(x: real): int { -((-x).Floor) }

  /** The index of the nearest rank among n sorted values. */
  function RankIndex(p: real, n: nat): (k: nat)
    requires n > 0
    ensures k < n
  {
    var k := Ceil(p * n as real) - 1;
    if k < 0 then 0 else if k < n then k else n - 1
  }

  /** Nearest-rank percentile over the sorted values. */
  function Percentile(xs: seq<real>, p: real): real
    requires xs != []
  {
    SortKeeps(xs);
    Sort(xs)[RankIndex(p, |xs|)]
  }

  // ---- Order does not matter --------------------------------------------------------------

  lemma SameMultisetSameLength<T>(xs: seq<T>, ys: seq<T>)
    requires multiset(xs) == multiset(ys)
    ensures |xs| == |ys|
  {
    assert |multiset(xs)| == |xs| && |multiset(ys)| == |ys|;
  }

  lemma {:induction false} FilterConcat<T>(p: T -> bool, xs: seq<T>, ys: seq<T>)
    ensures Filter(p, xs + ys) == Filter(p, xs) + Filter(p, ys)
  {
    if ys == [] {
      assert xs + ys == xs;
    } else {
      assert (xs + ys)[..|xs + ys| - 1] == xs + ys[..|ys| - 1];
      FilterConcat(p, xs, ys[..|ys| - 1]);
    }
  }

  lemma FilterSnoc<T>(p: T -> bool, xs: seq<T>, x: T)
    ensures Filter(p, xs + [x]) == if p(x) then Filter(p, xs) + [x] else Filter(p, xs)
  {
    assert (xs + [x])[..|xs|] == xs;
  }

  /** Finds an element of one arrangement in another. */
  lemma SplitAtLast<T>(xs: seq<T>, ys: seq<T>) returns (a: seq<T>, b: seq<T>)
    requires multiset(xs) == multiset(ys) && xs != []
    ensures ys == a + [xs[|xs| - 1]] + b
    ensures multiset(xs[..|xs| - 1]) == multiset(a + b)
  {
    var x := xs[|xs| - 1];
    assert x in multiset(ys);
    var i :| 0 <= i < |ys| && ys[i] == x;
    a, b := ys[..i], ys[i + 1..];
    assert ys == a + [x] + b;
    assert xs == xs[..|xs| - 1] + [x];
    Cancel(xs[..|xs| - 1], x, a, b);
  }

  lemma Cancel<T>(front: seq<T>, x: T, a: seq<T>, b: seq<T>)
    requires multiset(front + [x]) == multiset(a + [x] + b)
    ensures multiset(front) == multiset(a + b)
  {
    MiddleOut(a, [x], b);
    assert multiset(front + [x]) == multiset(front) + multiset{x};
    assert multiset(front) == multiset(front) + multiset{x} - multiset{x};
    assert multiset(a + b) == multiset(a + b) + multiset{x} - multiset{x};
  }

  lemma MiddleOut<T>(left: seq<T>, mid: seq<T>, right: seq<T>)
    ensures multiset(left + mid + right) == multiset(left + right) + multiset(mid)
  {
  }

  lemma {:induction false} FilterPermutes<T>(p: T -> bool, xs: seq<T>, ys: seq<T>)
    requires multiset(xs) == multiset(ys)
    ensures multiset(Filter(p, xs)) == multiset(Filter(p, ys))
    decreases |xs|
  {
    SameMultisetSameLength(xs, ys);
    if xs != [] {
      var front, x := xs[..|xs| - 1], xs[|xs| - 1];
      var a, b := SplitAtLast(xs, ys);
      FilterPermutes(p, front, a + b);
      assert xs == front + [x];
      FilterConcat(p, front, [x]);
      FilterMiddle(p, a, [x], b);
    }
  }

  lemma CountPermutes<T>(p: T -> bool, xs: seq<T>, ys: seq<T>)
    requires multiset(xs) == multiset(ys)
    ensures |Filter(p, xs)| == |Filter(p, ys)|
  {
    FilterPermutes(p, xs, ys);
    SameMultisetSameLength(Filter(p, xs), Filter(p, ys));
  }

  lemma FilterMiddle<T>(p: T -> bool, left: seq<T>, mid: seq<T>, right: seq<T>)
    ensures multiset(Filter(p, left + mid + right)) == multiset(Filter(p, left + right)) + multiset(Filter(p, mid))
  {
    FilterConcat(p, left + mid, right);
    FilterConcat(p, left, mid);
    FilterConcat(p, left, right);
    MiddleOut(Filter(p, left), Filter(p, mid), Filter(p, right));
  }

  lemma {:induction false} SumConcat(xs: seq<real>, ys: seq<real>)
    ensures Sum(xs + ys) == Sum(xs) + Sum(ys)
  {
    if ys == [] {
      assert xs + ys == xs;
    } else {
      assert (xs + ys)[..|xs + ys| - 1] == xs + ys[..|ys| - 1];
      SumConcat(xs, ys[..|ys| - 1]);
    }
  }

  lemma {:induction false} SumPermutes(xs: seq<real>, ys: seq<real>)
    requires multiset(xs) == multiset(ys)
    ensures Sum(xs) == Sum(ys)
    decreases |xs|
  {
    SameMultisetSameLength(xs, ys);
    if xs != [] {
      var x := xs[|xs| - 1];
      var a, b := SplitAtLast(xs, ys);
      SumPermutes(xs[..|xs| - 1], a + b);
      SumConcat(a + [x], b);
      SumConcat(a, [x]);
      SumConcat(a, b);
    }
  }

  lemma MapConcat<S, T>(f: S -> T, xs: seq<S>, ys: seq<S>)
    ensures Map(f, xs + ys) == Map(f, xs) + Map(f, ys)
  {
  }

  lemma MapMiddle<S, T>(f: S -> T, left: seq<S>, mid: seq<S>, right: seq<S>)
    ensures multiset(Map(f, left + mid + right)) == multiset(Map(f, left + right)) + multiset(Map(f, mid))
  {
    MapConcat(f, left + mid, right);
    MapConcat(f, left, mid);
    MapConcat(f, left, right);
    MiddleOut(Map(f, left), Map(f, mid), Map(f, right));
  }

  lemma {:induction false} MapPermutes<S, T>(f: S -> T, xs: seq<S>, ys: seq<S>)
    requires multiset(xs) == multiset(ys)
    ensures multiset(Map(f, xs)) == multiset(Map(f, ys))
    decreases |xs|
  {
    SameMultisetSameLength(xs, ys);
    if xs == [] {
      assert Map(f, xs) == Map(f, ys);
    } else {
      var front, x := xs[..|xs| - 1], xs[|xs| - 1];
      var a, b := SplitAtLast(xs, ys);
      MapPermutes(f, front, a + b);
      assert xs == front + [x];
      MapConcat(f, front, [x]);
      MapMiddle(f, a, [x], b);
    }
  }

  lemma {:induction false} InsertKeeps(x: real, xs: seq<real>)
    ensures multiset(Insert(x, xs)) == multiset(xs) + multiset{x}
  {
    if xs != [] {
      assert xs == xs[..|xs| - 1] + [xs[|xs| - 1]];
      InsertKeeps(x, xs[..|xs| - 1]);
    }
  }

  lemma InsertAtMost(x: real, xs: seq<real>, top: real)
    requires x <= top && forall i | 0 <= i < |xs| :: xs[i] <= top
    ensures forall i | 0 <= i < |Insert(x, xs)| :: Insert(x, xs)[i] <= top
  {
    InsertKeeps(x, xs);
    forall i | 0 <= i < |Insert(x, xs)| ensures Insert(x, xs)[i] <= top {
      assert Insert(x, xs)[i] in multiset(xs) + multiset{x};
    }
  }

  lemma {:induction false} InsertSorts(x: real, xs: seq<real>)
    requires Sorted(xs)
    ensures Sorted(Insert(x, xs))
  {
    if xs != [] && xs[|xs| - 1] > x {
      InsertSorts(x, xs[..|xs| - 1]);
      InsertAtMost(x, xs[..|xs| - 1], xs[|xs| - 1]);
    }
  }

  lemma {:induction false} SortKeeps(xs: seq<real>)
    ensures multiset(Sort(xs)) == multiset(xs) && |Sort(xs)| == |xs|
  {
    if xs != [] {
      SortKeeps(xs[..|xs| - 1]);
      InsertKeeps(xs[|xs| - 1], Sort(xs[..|xs| - 1]));
      assert xs == xs[..|xs| - 1] + [xs[|xs| - 1]];
    }
    SameMultisetSameLength(Sort(xs), xs);
  }

  lemma {:induction false} SortSorts(xs: seq<real>)
    ensures Sorted(Sort(xs))
  {
    if xs != [] {
      SortSorts(xs[..|xs| - 1]);
      InsertSorts(xs[|xs| - 1], Sort(xs[..|xs| - 1]));
    }
  }

  lemma LastOfSorted(xs: seq<real>, ys: seq<real>)
    requires Sorted(xs) && Sorted(ys) && multiset(xs) == multiset(ys) && xs != []
    ensures ys != [] && xs[|xs| - 1] == ys[|ys| - 1]
  {
    SameMultisetSameLength(xs, ys);
    var last := |xs| - 1;
    assert xs[last] in multiset(ys) && ys[last] in multiset(xs);
    var i :| 0 <= i < |ys| && ys[i] == xs[last];
    var j :| 0 <= j < |xs| && xs[j] == ys[last];
  }

  lemma DropLast(xs: seq<real>)
    requires xs != []
    ensures multiset(xs[..|xs| - 1]) == multiset(xs) - multiset{xs[|xs| - 1]}
  {
    assert xs == xs[..|xs| - 1] + [xs[|xs| - 1]];
  }

  /** A sorted sequence is determined by its elements. */
  lemma {:induction false} SortedIsUnique(xs: seq<real>, ys: seq<real>)
    requires Sorted(xs) && Sorted(ys) && multiset(xs) == multiset(ys)
    ensures xs == ys
    decreases |xs|
  {
    SameMultisetSameLength(xs, ys);
    if xs != [] {
      LastOfSorted(xs, ys);
      DropLast(xs);
      DropLast(ys);
      SortedIsUnique(xs[..|xs| - 1], ys[..|ys| - 1]);
      assert xs == xs[..|xs| - 1] + [xs[|xs| - 1]];
      assert ys == ys[..|ys| - 1] + [ys[|ys| - 1]];
    }
  }

  lemma PercentilePermutes(xs: seq<real>, ys: seq<real>, p: real)
    requires multiset(xs) == multiset(ys) && xs != []
    ensures ys != [] && Percentile(xs, p) == Percentile(ys, p)
  {
    SameMultisetSameLength(xs, ys);
    SortSorts(xs);
    SortSorts(ys);
    SortKeeps(xs);
    SortKeeps(ys);
    SortedIsUnique(Sort(xs), Sort(ys));
  }

  // ---- The percentile is the nearest rank -------------------------------------------------

  function AtMost(v: real): real -> bool { x => x <= v }
  function Under(v: real): real -> bool { x => x < v }

  function CountAtMost(xs: seq<real>, v: real): nat { |Filter(AtMost(v), xs)| }
  function CountBelow(xs: seq<real>, v: real): nat { |Filter(Under(v), xs)| }

  lemma {:induction false} FilterAtLeast<T>(p: T -> bool, xs: seq<T>, k: nat)
    requires k <= |xs| && forall i | 0 <= i < k :: p(xs[i])
    ensures |Filter(p, xs)| >= k
  {
    if xs != [] {
      FilterAtLeast(p, xs[..|xs| - 1], if k == |xs| then k - 1 else k);
    }
  }

  lemma {:induction false} FilterAtMost<T>(p: T -> bool, xs: seq<T>, k: nat)
    requires k <= |xs| && forall i | k <= i < |xs| :: !p(xs[i])
    ensures |Filter(p, xs)| <= k
  {
    if xs != [] {
      FilterAtMost(p, xs[..|xs| - 1], if k == |xs| then k - 1 else k);
    }
  }

  lemma SortedRank(sorted: seq<real>, k: nat)
    requires Sorted(sorted) && k < |sorted|
    ensures CountBelow(sorted, sorted[k]) <= k < CountAtMost(sorted, sorted[k])
  {
    FilterAtLeast(AtMost(sorted[k]), sorted, k + 1);
    FilterAtMost(Under(sorted[k]), sorted, k);
  }

  lemma PercentileRank(xs: seq<real>, p: real)
    requires xs != []
    ensures Percentile(xs, p) in xs
    ensures CountBelow(xs, Percentile(xs, p)) <= RankIndex(p, |xs|) < CountAtMost(xs, Percentile(xs, p))
  {
    SortSorts(xs);
    SortKeeps(xs);
    var v := Percentile(xs, p);
    assert v in multiset(Sort(xs));
    SortedRank(Sort(xs), RankIndex(p, |xs|));
    CountPermutes(AtMost(v), xs, Sort(xs));
    CountPermutes(Under(v), xs, Sort(xs));
  }

  /** The share of n that the percentile stands for. */
  function Share(p: real, n: nat): real { p * n as real }

  /** At least p*n of the values are at or below the percentile, and fewer than p*n strictly below it. */
  lemma PercentileIsNearestRank(xs: seq<real>, p: real)
    requires xs != [] && 0.0 < p <= 1.0
    ensures BracketsShare(CountBelow(xs, Percentile(xs, p)), CountAtMost(xs, Percentile(xs, p)), p, |xs|)
  {
    var below, atMost := CountBelow(xs, Percentile(xs, p)), CountAtMost(xs, Percentile(xs, p));
    assert below <= RankIndex(p, |xs|) < atMost by { PercentileRank(xs, p); }
    RankBrackets(below, atMost, p, |xs|);
  }

  ghost predicate BracketsShare(below: nat, atMost: nat, p: real, n: nat) {
    (below as real) < Share(p, n) <= atMost as real
  }

  lemma RankBrackets(below: nat, atMost: nat, p: real, n: nat)
    requires 0.0 < p <= 1.0 && n > 0 && below <= RankIndex(p, n) < atMost
    ensures BracketsShare(below, atMost, p, n)
  {
    RankBounds(p, n);
  }

  lemma RankBounds(p: real, n: nat)
    requires 0.0 < p <= 1.0 && n > 0
    ensures (RankIndex(p, n) as real) < p * n as real <= (RankIndex(p, n) + 1) as real
  {
    var rank := p * n as real;
    assert 0.0 < rank <= n as real;
    assert rank <= Ceil(rank) as real < rank + 1.0;
  }

  lemma RankIsMonotone(p: real, q: real, n: nat)
    requires p <= q && n > 0
    ensures RankIndex(p, n) <= RankIndex(q, n)
  {
    assert p * n as real <= q * n as real;
    assert Ceil(p * n as real) <= Ceil(q * n as real);
  }

  lemma PercentileIsMonotone(xs: seq<real>, p: real, q: real)
    requires xs != [] && p <= q
    ensures Percentile(xs, p) <= Percentile(xs, q)
  {
    SortSorts(xs);
    SortKeeps(xs);
    RankIsMonotone(p, q, |xs|);
  }

  function Least(xs: seq<real>): real
    requires xs != []
  {
    if |xs| == 1 then xs[0]
    else
      var m := Least(xs[..|xs| - 1]);
      if xs[|xs| - 1] < m then xs[|xs| - 1] else m
  }

  lemma {:induction false} LeastIsLeast(xs: seq<real>)
    requires xs != []
    ensures Least(xs) in xs && forall i | 0 <= i < |xs| :: Least(xs) <= xs[i]
  {
    if |xs| > 1 {
      LeastIsLeast(xs[..|xs| - 1]);
      var front := xs[..|xs| - 1];
      assert forall i | 0 <= i < |front| :: Least(front) <= front[i] == xs[i];
    }
  }

  lemma LeastPermutes(xs: seq<real>, ys: seq<real>)
    requires multiset(xs) == multiset(ys) && xs != []
    ensures ys != [] && Least(xs) == Least(ys)
  {
    SameMultisetSameLength(xs, ys);
    LeastIsLeast(xs);
    LeastIsLeast(ys);
    assert Least(xs) in multiset(ys) && Least(ys) in multiset(xs);
    assert Least(xs) in ys && Least(ys) in xs;
  }

  lemma {:induction false} SumBounds(xs: seq<real>)
    requires forall i | 0 <= i < |xs| :: 0.0 <= xs[i] <= 1.0
    ensures 0.0 <= Sum(xs) <= |xs| as real
  {
    if xs != [] {
      SumBounds(xs[..|xs| - 1]);
    }
  }

  lemma MeanBounds(xs: seq<real>)
    requires xs != [] && forall i | 0 <= i < |xs| :: 0.0 <= xs[i] <= 1.0
    ensures 0.0 <= Sum(xs) / |xs| as real <= 1.0
  {
    SumBounds(xs);
    RatioBounds(Sum(xs), |xs| as real);
  }

  lemma RatioBounds(x: real, n: real)
    requires 0.0 <= x <= n && n > 0.0
    ensures 0.0 <= x / n <= 1.0
  {
    assert x / n * n == x;
  }

  /** Shares beyond the ends give the least and the greatest value. */
  lemma PercentileEnds(xs: seq<real>, p: real)
    requires xs != []
    ensures p <= 0.0 ==> RankIndex(p, |xs|) == 0
    ensures p >= 1.0 ==> RankIndex(p, |xs|) == |xs| - 1
  {
    var n := |xs| as real;
    assert p <= 0.0 ==> p * n <= 0.0;
    assert p >= 1.0 ==> p * n >= n;
  }
}
