/** Cohen's kappa over pairs of labels, in exact arithmetic. */
module Kappa {
  import opened Wrappers

  /** A label; two labels have the same JSON text exactly when they are the same value of this type. */
  datatype Label = NullLabel | BoolLabel(b: bool) | IntLabel(i: int) | FloatLabel(x: real) | TextLabel(s: string)

  datatype Pair = Pair(human: Label, judge: Label)

  function Number(l: Label): Option<real> {
    match l
    case BoolLabel(b) => Some(if b then 1.0 else 0.0)
    case IntLabel(i) => Some(i as real)
    case FloatLabel(x) => Some(x)
    case _ => None
  }

  /** The equality by which the raters agree: true equals 1 equals 1.0. */
  predicate Agree(a: Label, b: Label) { a == b || (Number(a).Some? && Number(a) == Number(b)) }

  function Agreements(ps: seq<Pair>): nat {
    if ps == [] then 0 else Agreements(ps[1..]) + if Agree(ps[0].human, ps[0].judge) then 1 else 0
  }

  function Humans(ps: seq<Pair>, s: set<Label>): nat {
    if ps == [] then 0 else Humans(ps[1..], s) + if ps[0].human in s then 1 else 0
  }

  function Judges(ps: seq<Pair>, s: set<Label>): nat {
    if ps == [] then 0 else Judges(ps[1..], s) + if ps[0].judge in s then 1 else 0
  }

  /** Pairs on which both raters use the same label, one of s. */
  function Diagonal(ps: seq<Pair>, s: set<Label>): nat {
    if ps == [] then 0 else Diagonal(ps[1..], s) + if ps[0].human == ps[0].judge && ps[0].human in s then 1 else 0
  }

  /** In how many ways a human label of ps, one of s, and a judge label of qs are the same. */
  function Crossings(ps: seq<Pair>, qs: seq<Pair>, s: set<Label>): nat {
    if ps == [] then 0
    else Crossings(ps[1..], qs, s) + if ps[0].human in s then Judges(qs, {ps[0].human}) else 0
  }

  function Categories(ps: seq<Pair>): set<Label> {
    (set p | p in ps :: p.human) + (set p | p in ps :: p.judge)
  }

  function Observed(ps: seq<Pair>): real
    requires ps != []
  {
    Agreements(ps) as real / |ps| as real
  }

  /** The part of chance agreement that falls on the categories of s. */
  function ChanceWithin(ps: seq<Pair>, s: set<Label>): real
    requires ps != []
  {
    assert |ps| * |ps| > 0;
    Crossings(ps, ps, s) as real / (|ps| * |ps|) as real
  }

  /** The chance that a human label and a judge label, drawn independently, are the same. */
  function Chance(ps: seq<Pair>): real
    requires ps != []
  {
    ChanceWithin(ps, Categories(ps))
  }

  function KappaOf(ps: seq<Pair>): Option<real> {
    if ps == [] then None
    else if Chance(ps) == 1.0 then Some(if Observed(ps) == 1.0 then 1.0 else 0.0)
    else Some((Observed(ps) - Chance(ps)) / (1.0 - Chance(ps)))
  }

  // ---- Counting by category ----------------------------------------------------------------------

  lemma {:induction false} HumansGrow(ps: seq<Pair>, s: set<Label>, c: Label)
    requires c !in s
    ensures Humans(ps, s + {c}) == Humans(ps, s) + Humans(ps, {c})
  {
    if ps != [] {
      HumansGrow(ps[1..], s, c);
    }
  }

  lemma {:induction false} JudgesGrow(ps: seq<Pair>, s: set<Label>, c: Label)
    requires c !in s
    ensures Judges(ps, s + {c}) == Judges(ps, s) + Judges(ps, {c})
  {
    if ps != [] {
      JudgesGrow(ps[1..], s, c);
    }
  }

  lemma {:induction false} DiagonalGrows(ps: seq<Pair>, s: set<Label>, c: Label)
    requires c !in s
    ensures Diagonal(ps, s + {c}) == Diagonal(ps, s) + Diagonal(ps, {c})
  {
    if ps != [] {
      DiagonalGrows(ps[1..], s, c);
    }
  }

  /** One more category adds the product of its two counts. */
  lemma {:induction false} CrossingsGrow(ps: seq<Pair>, qs: seq<Pair>, s: set<Label>, c: Label)
    requires c !in s
    ensures Crossings(ps, qs, s + {c}) == Crossings(ps, qs, s) + Humans(ps, {c}) * Judges(qs, {c})
  {
    if ps != [] {
      CrossingsGrow(ps[1..], qs, s, c);
      if ps[0].human == c {
        Distribute(Humans(ps[1..], {c}), Judges(qs, {c}));
      }
    }
  }

  lemma Distribute(h: nat, j: nat)
    ensures (h + 1) * j == h * j + j
  {
  }

  lemma {:induction false} NothingYet(ps: seq<Pair>, qs: seq<Pair>)
    ensures Humans(ps, {}) == 0 && Judges(ps, {}) == 0 && Diagonal(ps, {}) == 0 && Crossings(ps, qs, {}) == 0
  {
    if ps != [] {
      NothingYet(ps[1..], qs);
    }
  }

  lemma {:induction false} AllCounted(ps: seq<Pair>, s: set<Label>)
    requires forall p | p in ps :: p.human in s && p.judge in s
    ensures Humans(ps, s) == |ps| && Judges(ps, s) == |ps|
  {
    if ps != [] {
      AllCounted(ps[1..], s);
    }
  }

  lemma {:induction false} DiagonalAgrees(ps: seq<Pair>, s: set<Label>)
    ensures Diagonal(ps, s) <= Agreements(ps) <= |ps|
  {
    if ps != [] {
      DiagonalAgrees(ps[1..], s);
    }
  }

  // ---- The bounds --------------------------------------------------------------------------------

  /** A category both raters use often has pairs on the diagonal. */
  lemma {:induction false} DiagonalAtLeast(ps: seq<Pair>, c: Label)
    ensures Diagonal(ps, {c}) >= Humans(ps, {c}) + Judges(ps, {c}) - |ps|
    ensures Humans(ps, {c}) <= |ps| && Judges(ps, {c}) <= |ps|
  {
    if ps != [] {
      DiagonalAtLeast(ps[1..], c);
    }
  }

  lemma SquareOfSum(h: int, j: int)
    ensures 4 * (h * j) <= (h + j) * (h + j)
  {
    assert (h + j) * (h + j) - 4 * (h * j) == (h - j) * (h - j);
    assert (h - j) * (h - j) >= 0;
  }

  lemma ProductOfGaps(s: int, n: int)
    requires n <= s <= 2 * n
    ensures s * s <= 3 * (n * s) - 2 * (n * n)
  {
    assert (s - n) * (2 * n - s) >= 0;
    assert (s - n) * (2 * n - s) == 3 * (n * s) - s * s - 2 * (n * n);
  }

  /** The inequality of one category behind the lower bound. */
  lemma CategoryBound(h: int, j: int, d: int, n: int)
    requires 0 <= h <= n && 0 <= j <= n && 0 <= d && d >= h + j - n
    ensures 4 * (h * j) <= n * (h + j) + 2 * (n * d)
  {
    var s := h + j;
    SquareOfSum(h, j);
    assert n * d >= 0;
    if s <= n {
      assert s * s <= n * s;
    } else {
      ProductOfGaps(s, n);
      assert n * d >= n * (s - n);
      assert n * (s - n) == n * s - n * n;
    }
  }

  lemma SumStep(n: int, h: int, j: int, d: int, h1: int, j1: int, d1: int)
    ensures n * (h + h1 + (j + j1)) + 2 * (n * (d + d1)) == n * (h + j) + 2 * (n * d) + (n * (h1 + j1) + 2 * (n * d1))
  {
  }

  lemma {:induction false} CrossingsBound(ps: seq<Pair>, s: set<Label>)
    ensures 4 * Crossings(ps, ps, s) <= |ps| * (Humans(ps, s) + Judges(ps, s)) + 2 * (|ps| * Diagonal(ps, s))
    decreases s
  {
    if s == {} {
      NothingYet(ps, ps);
    } else {
      var c :| c in s;
      var t := s - {c};
      assert t + {c} == s;
      CrossingsBound(ps, t);
      HumansGrow(ps, t, c);
      JudgesGrow(ps, t, c);
      DiagonalGrows(ps, t, c);
      CrossingsGrow(ps, ps, t, c);
      DiagonalAtLeast(ps, c);
      var h, j, d := Humans(ps, {c}), Judges(ps, {c}), Diagonal(ps, {c});
      CategoryBound(h, j, d, |ps|);
      SumStep(|ps|, Humans(ps, t), Judges(ps, t), Diagonal(ps, t), h, j, d);
    }
  }

  lemma {:induction false} CrossingsAtMost(ps: seq<Pair>, qs: seq<Pair>, s: set<Label>)
    ensures Crossings(ps, qs, s) <= |ps| * |qs|
    ensures Crossings(ps, qs, s) == |ps| * |qs| ==> forall p, q | p in ps && q in qs :: p.human == q.judge
  {
    if ps != [] {
      CrossingsAtMost(ps[1..], qs, s);
      JudgesAtMost(qs, ps[0].human);
      Distribute(|ps| - 1, |qs|);
    }
  }

  lemma {:induction false} JudgesAtMost(qs: seq<Pair>, c: Label)
    ensures Judges(qs, {c}) <= |qs| && (Judges(qs, {c}) == |qs| ==> forall q | q in qs :: q.judge == c)
  {
    if qs != [] {
      JudgesAtMost(qs[1..], c);
    }
  }

  lemma {:induction false} AllAgree(ps: seq<Pair>)
    requires forall p | p in ps :: p.human == p.judge
    ensures Agreements(ps) == |ps|
  {
    if ps != [] {
      AllAgree(ps[1..]);
    }
  }

  /** The integers behind kappa: agreements a, crossings e, pairs n. */
  lemma CountBounds(ps: seq<Pair>)
    requires ps != []
    ensures var n, a, e := |ps|, Agreements(ps), Crossings(ps, ps, Categories(ps));
            && 0 <= a <= n && 0 <= e <= n * n && 2 * e <= n * n + n * a
            && (e == n * n ==> a == n)
  {
    var s, n := Categories(ps), |ps|;
    CrossingsBound(ps, s);
    AllCounted(ps, s);
    DiagonalAgrees(ps, s);
    Scaled(n, Diagonal(ps, s), Agreements(ps));
    CrossingsAtMost(ps, ps, s);
    hide Crossings, Agreements, Diagonal, Humans, Judges, Categories;
    if Crossings(ps, ps, s) == n * n {
      AllAgree(ps);
    }
  }

  lemma Scaled(n: int, d: int, a: int)
    requires n >= 0 && d <= a
    ensures n * d <= n * a && n * (n + n) == 2 * (n * n)
  {
  }

  lemma Fractions(n: int, a: int, e: int)
    requires n > 0 && 0 <= a <= n && 0 <= e <= n * n && 2 * e <= n * n + n * a && (e == n * n ==> a == n)
    ensures n * n > 0
    ensures FractionsBounded(a as real / n as real, e as real / (n * n) as real) && (a as real / n as real == 1.0 <==> a == n)
  {
    Squared(n, a);
    var o, x := a as real / n as real, e as real / (n * n) as real;
    ScaledUp(a as real, n as real);
    ScaledUp(e as real, (n * n) as real);
    Compare(n as real, (n * n) as real, a as real, (n * a) as real, e as real, o, x);
  }

  lemma ScaledUp(u: real, m: real)
    requires m > 0.0
    ensures u / m * m == u
  {
  }

  lemma Squared(n: int, a: int)
    requires n > 0
    ensures n * n > 0 && (a as real / n as real) * (n * n) as real == (n * a) as real
  {
    var o := a as real / n as real;
    ScaledUp(a as real, n as real);
    assert (n * n) as real == n as real * n as real && (n * a) as real == n as real * a as real;
    assert o * (n as real * n as real) == n as real * (o * n as real);
  }

  ghost predicate FractionsBounded(o: real, x: real) {
    0.0 <= o <= 1.0 && 0.0 <= x <= 1.0 && 2.0 * x <= 1.0 + o && (x == 1.0 ==> o == 1.0)
  }

  lemma Compare(n: real, m: real, a: real, b: real, e: real, o: real, x: real)
    requires n > 0.0 && m > 0.0 && o * n == a && x * m == e && o * m == b
    requires 0.0 <= a <= n && 0.0 <= e <= m && 2.0 * e <= m + b && (e == m ==> a == n)
    ensures FractionsBounded(o, x) && (o == 1.0 <==> a == n)
  {
    Within(x, m, e);
    Within(o, n, a);
    assert 2.0 * x * m == 2.0 * e && (1.0 + o) * m == m + b;
    Cancel(2.0 * x, 1.0 + o, m);
  }

  lemma Within(u: real, m: real, product: real)
    requires m > 0.0 && u * m == product && 0.0 <= product <= m
    ensures 0.0 <= u <= 1.0 && (u == 1.0 <==> product == m)
  {
    assert (u - 1.0) * m == product - m;
    SameSign(u - 1.0, m, product - m);
    SameSign(u, m, product);
  }

  lemma SameSign(u: real, m: real, product: real)
    requires m > 0.0 && u * m == product
    ensures (product > 0.0 <==> u > 0.0) && (product == 0.0 <==> u == 0.0)
  {
    PositiveProduct(u, m);
    PositiveProduct(-u, m);
    assert -u * m == -product;
  }

  lemma Cancel(u: real, v: real, m: real)
    requires m > 0.0 && u * m <= v * m
    ensures u <= v
  {
    PositiveProduct(u - v, m);
    assert (u - v) * m == u * m - v * m;
  }

  lemma PositiveProduct(d: real, m: real)
    ensures d > 0.0 && m > 0.0 ==> d * m > 0.0
  {
  }

  lemma Quotient(o: real, x: real)
    requires FractionsBounded(o, x) && x < 1.0
    ensures var k := (o - x) / (1.0 - x); -1.0 <= k <= 1.0 && (k == 1.0 <==> o == 1.0)
  {
    var k, m := (o - x) / (1.0 - x), 1.0 - x;
    assert k * m == o - x;
    assert 1.0 * m == m && -1.0 * m == -m;
    Cancel(k, 1.0, m);
    Cancel(-1.0, k, m);
  }

  /**
   For every list of pairs, over any categories: kappa exists exactly when there is a pair, lies
   in [-1, 1], is 1 exactly under full agreement, and chance agreement 1 forces observed agreement 1.
  */
  lemma KappaBounds(ps: seq<Pair>)
    ensures KappaOf(ps).Some? <==> ps != []
    ensures ps != [] ==>
              && -1.0 <= KappaOf(ps).value <= 1.0
              && (KappaOf(ps).value == 1.0 <==> forall p | p in ps :: Agree(p.human, p.judge))
              && (Chance(ps) == 1.0 ==> Observed(ps) == 1.0)
  {
    if ps != [] {
      CountBounds(ps);
      Fractions(|ps|, Agreements(ps), Crossings(ps, ps, Categories(ps)));
      FullAgreement(ps);
      if Chance(ps) != 1.0 {
        Quotient(Observed(ps), Chance(ps));
      }
    }
  }

  lemma {:induction false} FullAgreement(ps: seq<Pair>)
    ensures Agreements(ps) <= |ps|
    ensures Agreements(ps) == |ps| <==> forall p | p in ps :: Agree(p.human, p.judge)
  {
    if ps != [] {
      FullAgreement(ps[1..]);
      assert forall p :: p in ps <==> p == ps[0] || p in ps[1..];
    }
  }

  // ---- Symmetry ----------------------------------------------------------------------------------

  function Swap(ps: seq<Pair>): (qs: seq<Pair>)
    ensures |qs| == |ps|
  {
    seq(|ps|, i requires 0 <= i < |ps| => Pair(ps[i].judge, ps[i].human))
  }

  lemma SwapTail(ps: seq<Pair>)
    requires ps != []
    ensures Swap(ps)[1..] == Swap(ps[1..]) && Swap(ps)[0] == Pair(ps[0].judge, ps[0].human)
  {
  }

  lemma {:induction false} SwapCounts(ps: seq<Pair>, s: set<Label>)
    ensures Humans(Swap(ps), s) == Judges(ps, s) && Judges(Swap(ps), s) == Humans(ps, s)
    ensures Agreements(Swap(ps)) == Agreements(ps)
  {
    if ps != [] {
      SwapTail(ps);
      SwapCounts(ps[1..], s);
    }
  }

  /** Summed category by category, the crossings of the swapped pairs are the same products. */
  lemma {:induction false} SwapCrossings(ps: seq<Pair>, s: set<Label>)
    ensures Crossings(Swap(ps), Swap(ps), s) == Crossings(ps, ps, s)
    decreases s
  {
    var qs := Swap(ps);
    if s == {} {
      NothingYet(ps, ps);
      NothingYet(qs, qs);
    } else {
      var c :| c in s;
      var t := s - {c};
      assert t + {c} == s;
      SwapCrossings(ps, t);
      CrossingsGrow(ps, ps, t, c);
      CrossingsGrow(qs, qs, t, c);
      SwapCounts(ps, {c});
    }
  }

  lemma SwapCategories(ps: seq<Pair>)
    ensures Categories(Swap(ps)) == Categories(ps)
  {
    var qs := Swap(ps);
    forall p | p in ps ensures Pair(p.judge, p.human) in qs {
      var i :| 0 <= i < |ps| && ps[i] == p;
      assert qs[i] == Pair(p.judge, p.human);
    }
    forall q | q in qs ensures Pair(q.judge, q.human) in ps {
      var i :| 0 <= i < |qs| && qs[i] == q;
      assert ps[i] == Pair(q.judge, q.human);
    }
    forall c ensures c in Categories(qs) <==> c in Categories(ps) {
      if p :| p in ps && p.human == c {
        assert Pair(p.judge, p.human) in qs;
      } else if p :| p in ps && p.judge == c {
        assert Pair(p.judge, p.human) in qs;
      }
    }
  }

  /** Kappa does not depend on which rater is called the human. */
  lemma KappaIsSymmetric(ps: seq<Pair>)
    ensures KappaOf(Swap(ps)) == KappaOf(ps)
  {
    SwapCounts(ps, {});
    SwapCrossings(ps, Categories(ps));
    SwapCategories(ps);
  }

  /**
   Observed agreement counts pairs of one category exactly when no pair agrees across kinds,
   such as true with 1, which the categories keep apart.
  */
  lemma {:induction false} ObservedIsDiagonalExactly(ps: seq<Pair>, s: set<Label>)
    requires forall p | p in ps :: p.human in s
    ensures Agreements(ps) == Diagonal(ps, s) <==> forall p | p in ps && Agree(p.human, p.judge) :: p.human == p.judge
  {
    DiagonalAgrees(ps, s);
    if ps != [] {
      ObservedIsDiagonalExactly(ps[1..], s);
      DiagonalAgrees(ps[1..], s);
      hide Agree;
      assert forall p :: p in ps <==> p == ps[0] || p in ps[1..];
    }
  }

  // ---- The computation ---------------------------------------------------------------------------

  lemma TermOf(h: int, j: int, n: int)
    requires n > 0
    ensures n * n > 0
    ensures (h as real / n as real) * (j as real / n as real) == (h * j) as real / (n * n) as real
  {
    var x, y, m := h as real / n as real, j as real / n as real, n as real;
    ScaledUp(h as real, m);
    ScaledUp(j as real, m);
    assert (x * m) * (y * m) == (x * y) * (m * m);
    assert (h * j) as real == h as real * j as real && (n * n) as real == m * m;
    assert m * m > 0.0;
    Divided(x * y, m * m);
  }

  lemma Divided(u: real, m: real)
    requires m > 0.0
    ensures u * m / m == u
  {
  }

  lemma SumOfFractions(u: int, v: int, m: int)
    requires m > 0
    ensures u as real / m as real + v as real / m as real == (u + v) as real / m as real
  {
  }

  /** One category's contribution to chance agreement. */
  lemma ChanceGrows(ps: seq<Pair>, s: set<Label>, c: Label)
    requires ps != [] && c !in s
    ensures ChanceWithin(ps, s + {c}) ==
              ChanceWithin(ps, s) + (Humans(ps, {c}) as real / |ps| as real) * (Judges(ps, {c}) as real / |ps| as real)
  {
    var h, j, n := Humans(ps, {c}), Judges(ps, {c}), |ps|;
    CrossingsGrow(ps, ps, s, c);
    TermOf(h, j, n);
    SumOfFractions(Crossings(ps, ps, s), h * j, n * n);
  }

  /** Adds the categories up in whatever order the set yields them. */
  method CohenKappa(ps: seq<Pair>) returns (kappa: Option<real>)
    ensures kappa == KappaOf(ps)
  {
    if ps == [] {
      return None;
    }
    var total := |ps|;
    var observed := Agreements(ps) as real / total as real;
    var left, expected := Categories(ps), 0.0;
    ghost var done: set<Label> := {};
    NothingYet(ps, ps);
    while left != {}
      invariant left + done == Categories(ps) && left !! done
      invariant expected == ChanceWithin(ps, done)
      decreases left
    {
      var category :| category in left;
      var h, j := Humans(ps, {category}), Judges(ps, {category});
      ChanceGrows(ps, done, category);
      expected := expected + (h as real / total as real) * (j as real / total as real);
      left, done := left - {category}, done + {category};
    }
    assert done == Categories(ps);
    if expected == 1.0 {
      return Some(if observed == 1.0 then 1.0 else 0.0);
    }
    kappa := Some((observed - expected) / (1.0 - expected));
  }

  // ---- What kappa measures -----------------------------------------------------------------------

  /** Labels agree as Python compares them: booleans count as 0 and 1, numbers by value, anything else by being the same. */
  lemma AgreementMeans(b: bool, i: int, x: real, other: Label)
    ensures Agree(BoolLabel(b), IntLabel(i)) <==> i == if b then 1 else 0
    ensures Agree(BoolLabel(b), FloatLabel(x)) <==> x == if b then 1.0 else 0.0
    ensures Agree(IntLabel(i), FloatLabel(x)) <==> i as real == x
    ensures forall a, c :: Agree(a, c) <==> Agree(c, a)
    ensures forall a :: Agree(a, a)
    ensures forall c | other.NullLabel? || other.TextLabel? :: Agree(other, c) <==> c == other
    ensures forall c | Agree(other, c) && other != c :: other.IntLabel? || other.FloatLabel? || other.BoolLabel?
    ensures forall d :: Agree(BoolLabel(b), BoolLabel(d)) <==> b == d
    ensures forall k :: Agree(IntLabel(i), IntLabel(k)) <==> i == k
    ensures forall y :: Agree(FloatLabel(x), FloatLabel(y)) <==> x == y
  {
  }

  /** The pairs on which the raters agree, by position. */
  ghost function AgreeingPairs(ps: seq<Pair>): set<nat> {
    set i: nat | i < |ps| && Agree(ps[i].human, ps[i].judge)
  }

  /** The draws of a human label from one pair and a judge label from another that come out the same. */
  ghost function EqualDraws(ps: seq<Pair>, qs: seq<Pair>): set<(nat, nat)> {
    set i: nat, j: nat | i < |ps| && j < |qs| && ps[i].human == qs[j].judge :: (i, j)
  }

  lemma {:induction false} CountsOfLast(ps: seq<Pair>, p: Pair, qs: seq<Pair>, s: set<Label>)
    ensures Agreements(ps + [p]) == Agreements(ps) + if Agree(p.human, p.judge) then 1 else 0
    ensures Judges(ps + [p], s) == Judges(ps, s) + if p.judge in s then 1 else 0
    ensures Crossings(ps + [p], qs, s) == Crossings(ps, qs, s) + if p.human in s then Judges(qs, {p.human}) else 0
  {
    if ps == [] {
      assert ps + [p] == [p] && [p][1..] == [];
    } else {
      assert (ps + [p])[1..] == ps[1..] + [p];
      CountsOfLast(ps[1..], p, qs, s);
    }
  }

  lemma {:induction false} AgreementsCount(ps: seq<Pair>)
    ensures |AgreeingPairs(ps)| == Agreements(ps)
  {
    if ps != [] {
      var front, p := ps[..|ps| - 1], ps[|ps| - 1];
      assert ps == front + [p];
      AgreementsCount(front);
      CountsOfLast(front, p, [], {});
      assert AgreeingPairs(ps) == AgreeingPairs(front) + if Agree(p.human, p.judge) then {|front|} else {};
    }
  }

  /** The draws of the human label c at position i that come out the same. */
  ghost function DrawsOf(i: nat, c: Label, qs: seq<Pair>): set<(nat, nat)> {
    set j: nat | j < |qs| && qs[j].judge == c :: (i, j)
  }

  lemma {:induction false} DrawsOfOne(i: nat, c: Label, qs: seq<Pair>)
    ensures |DrawsOf(i, c, qs)| == Judges(qs, {c})
  {
    if qs != [] {
      var front, q := qs[..|qs| - 1], qs[|qs| - 1];
      assert qs == front + [q];
      DrawsOfOne(i, c, front);
      CountsOfLast(front, q, [], {c});
      OneMoreDraw(i, c, front, q);
      hide DrawsOf, Judges;
    }
  }

  lemma OneMoreDraw(i: nat, c: Label, front: seq<Pair>, q: Pair)
    ensures |DrawsOf(i, c, front + [q])| == |DrawsOf(i, c, front)| + if q.judge == c then 1 else 0
  {
    assert DrawsOf(i, c, front + [q]) == DrawsOf(i, c, front) + if q.judge == c then {(i, |front|)} else {};
  }

  lemma DrawsSplit(front: seq<Pair>, p: Pair, qs: seq<Pair>)
    ensures EqualDraws(front + [p], qs) == EqualDraws(front, qs) + DrawsOf(|front|, p.human, qs)
    ensures EqualDraws(front, qs) !! DrawsOf(|front|, p.human, qs)
  {
  }

  lemma UnionSize<T>(a: set<T>, b: set<T>)
    requires a !! b
    ensures |a + b| == |a| + |b|
  {
  }

  lemma {:induction false} CrossingsCount(ps: seq<Pair>, qs: seq<Pair>, s: set<Label>)
    requires forall p | p in ps :: p.human in s
    ensures |EqualDraws(ps, qs)| == Crossings(ps, qs, s)
  {
    if ps != [] {
      var front, p := ps[..|ps| - 1], ps[|ps| - 1];
      assert ps == front + [p] && p in ps && forall r | r in front :: r in ps;
      CrossingsCount(front, qs, s);
      CountsOfLast(front, p, qs, s);
      hide EqualDraws, DrawsOf, Crossings, Judges;
      DrawsOfOne(|front|, p.human, qs);
      DrawsSplit(front, p, qs);
      UnionSize(EqualDraws(front, qs), DrawsOf(|front|, p.human, qs));
    }
  }

  lemma Beyond(o: real, x: real, m: real, b: real, e: real, k: real)
    requires o * m == b && x * m == e && x != 1.0 && k == (o - x) / (1.0 - x)
    ensures k * (m - e) == b - e
  {
    Divide(o - x, 1.0 - x);
    assert k * (1.0 - x) == o - x;
    assert k * (1.0 - x) * m == k * (m - x * m);
    assert (o - x) * m == o * m - x * m;
  }

  lemma Divide(u: real, m: real)
    requires m != 0.0
    ensures u / m * m == u
  {
  }

  lemma ChanceIsOne(e: int, n: int)
    requires n > 0 && n * n > 0
    ensures e as real / (n * n) as real == 1.0 <==> e == n * n
    ensures e as real / (n * n) as real * (n * n) as real == e as real
  {
    ScaledUp(e as real, (n * n) as real);
  }

  /**
   Of n pairs with a agreements, and e equal results among the n * n draws of one human and one judge
   label, kappa is (n * a - e) / (n * n - e), the agreement beyond chance as a share of what chance
   leaves; and 1 if every draw comes out the same.
  */
  ghost predicate Measures(kappa: real, n: nat, a: nat, e: nat) {
    if e == n * n then kappa == 1.0 else kappa * (n * n - e) as real == (n * a - e) as real
  }

  lemma MeasuresByShares(n: nat, a: nat, e: nat, o: real, x: real, kappa: real)
    requires n > 0 && n * n > 0 && o == a as real / n as real && x == e as real / (n * n) as real
    requires x == 1.0 ==> kappa == 1.0
    requires x != 1.0 ==> kappa == (o - x) / (1.0 - x)
    ensures Measures(kappa, n, a, e)
  {
    Squared(n, a);
    ChanceIsOne(e, n);
    if x != 1.0 {
      Beyond(o, x, (n * n) as real, (n * a) as real, e as real, kappa);
    }
  }

  /** Kappa exists for every non-empty list and measures the agreement beyond chance. */
  lemma KappaMeasures(ps: seq<Pair>)
    requires ps != []
    ensures KappaOf(ps).Some? && Measures(KappaOf(ps).value, |ps|, |AgreeingPairs(ps)|, |EqualDraws(ps, ps)|)
  {
    AgreementsCount(ps);
    CrossingsCount(ps, ps, Categories(ps));
    KappaBounds(ps);
    assert |ps| * |ps| > 0;
    hide Measures, AgreeingPairs, EqualDraws, Agreements, Crossings, Categories;
    MeasuresByShares(|ps|, Agreements(ps), Crossings(ps, ps, Categories(ps)), Observed(ps), Chance(ps), KappaOf(ps).value);
  }
}
