/** The ellipticity grid of the naive grid sampler: the enumerator
    `forEachEllipticity` and the `CountSamples` visitor.

    A grid vertex is named by its integer step indices (k1, k2); its
    ellipticity is (k1 * step, k2 * step).  The source accumulates
    `e += step` in floating point; here the k-th value of a loop is exactly
    k * step. */
module EllipticityGrid {

  function Sq(x: real): real { x * x }

  function Abs(k: int): nat { if k < 0 then -k else k }

  /** The squared magnitude (k * step)^2 of the k-th grid step. */
  function Mag2(k: int, step: real): real { Sq(k as real * step) }

  datatype GridIndex = GridIndex(k1: int, k2: int)

  datatype Ellipticity = Ellipticity(e1: real, e2: real)

  const Origin: GridIndex := GridIndex(0, 0)

  /** The ellipticity (e1, e2) a grid vertex stands for. */
  function At(g: GridIndex, step: real): Ellipticity {
    Ellipticity(g.k1 as real * step, g.k2 as real * step)
  }

  /** The loops of the enumerator stop exactly when the step is nonzero or
      the bound is zero: with step 0 and a positive bound `e*e < bound`
      holds forever. */
  predicate Terminates(maxEllipticity: real, step: real) {
    step != 0.0 || maxEllipticity == 0.0
  }

  /** e1^2 + e2^2 < maxSq, the boundary test of the enumerator. */
  predicate Inside(g: GridIndex, step: real, maxSq: real) {
    Mag2(g.k1, step) + Mag2(g.k2, step) < maxSq
  }

  lemma Mag2Facts(k: int, step: real)
    ensures Mag2(k, step) >= 0.0
    ensures Mag2(-k, step) == Mag2(k, step)
    ensures Mag2(Abs(k), step) == Mag2(k, step)
    ensures Mag2(0, step) == 0.0
  {
    assert (-k) as real * step == -(k as real * step);
  }

  /** (k * step)^2 grows with k >= 0. */
  lemma Mag2Monotone(j: int, k: int, step: real)
    requires 0 <= j <= k
    ensures Mag2(j, step) <= Mag2(k, step)
  {
    var a := j as real * step;
    var b := k as real * step;
    var d := (k - j) as real;
    var s := (k + j) as real;
    assert b * b - a * a == d * s * (step * step);
    assert d * s >= 0.0;
    assert step * step >= 0.0;
  }

  /** An index past which the loop guard `(k * step)^2 < bound` fails. */
  function Limit(step: real, bound: real): nat {
    if step == 0.0 || bound <= 0.0 then 0
    else
      var q := bound / (step * step);
      assert q > 0.0;
      q.Floor + 1
  }

  lemma Mag2Expand(k: int, step: real)
    ensures Mag2(k, step) == (k as real) * (k as real) * (step * step)
  {
  }

  lemma ScaleMonotone(x: real, y: real, c: real)
    requires x <= y && c >= 0.0
    ensures x * c <= y * c
  {
  }

  lemma ScaleLeft(c: real, x: real, y: real)
    requires x <= y && c >= 0.0
    ensures c * x <= c * y
  {
  }

  lemma DivNonnegative(x: real, y: real)
    requires x >= 0.0 && y > 0.0
    ensures x / y >= 0.0
  {
  }

  lemma DivMul(x: real, y: real)
    requires y > 0.0
    ensures (x / y) * y == x
  {
  }

  lemma BelowLimit(step: real, bound: real, k: int)
    requires step != 0.0 || bound <= 0.0
    requires 1 <= k
    requires Mag2(k, step) < bound
    ensures k < Limit(step, bound)
  {
    var kr := k as real;
    var s2 := step * step;
    Mag2Expand(k, step);
    assert s2 >= 0.0;
    ScaleMonotone(kr, kr * kr, s2);
    assert kr * s2 < bound;
    assert s2 > 0.0;
    var q := bound / s2;
    DivMul(bound, s2);
    var lim := q.Floor + 1;
    assert lim == Limit(step, bound);
    assert q < lim as real;
    ScaleMonotone(q, lim as real, s2);
    if lim <= k {
      ScaleMonotone(lim as real, kr, s2);
    }
  }

  /** The number of times `for (e = k*step; e*e < bound; e += step)` runs
      its body: the iterations are k, k+1, ... while the guard holds. */
  function RunFrom(step: real, bound: real, k: nat): (n: nat)
    requires 1 <= k
    requires step != 0.0 || bound <= 0.0
    ensures forall j :: k <= j < k + n ==> Mag2(j, step) < bound
    ensures !(Mag2(k + n, step) < bound)
    decreases Limit(step, bound) - k
  {
    if Mag2(k, step) < bound then
      BelowLimit(step, bound, k);
      1 + RunFrom(step, bound, k + 1)
    else
      0
  }

  /** The number of iterations of `for (e = step; e*e < bound; e += step)`
      (src/NaiveGridSampler.cc lines 41 and 50, and the e1 loop at line 46). */
  function RunLength(step: real, bound: real): (n: nat)
    requires step != 0.0 || bound <= 0.0
    ensures forall k :: 1 <= k <= n ==> Mag2(k, step) < bound
    ensures !(Mag2(n + 1, step) < bound)
    ensures bound <= 0.0 ==> n == 0
  {
    var n := RunFrom(step, bound, 1);
    Mag2Facts(1, step);
    n
  }

  /** Since the guard is monotone in k, the loop visits exactly the k >= 1
      whose square is below the bound. */
  lemma RunIff(step: real, bound: real, k: int)
    requires step != 0.0 || bound <= 0.0
    requires 1 <= k
    ensures Mag2(k, step) < bound <==> k <= RunLength(step, bound)
  {
    var n := RunLength(step, bound);
    if k > n {
      Mag2Monotone(n + 1, k, step);
    }
  }

  /** The e2-axis loop (lines 41-44): (0, -k), (0, k) for k = 1..n. */
  function AxisPoints(n: nat): seq<GridIndex> {
    if n == 0 then []
    else AxisPoints(n - 1) + [GridIndex(0, -(n as int)), GridIndex(0, n)]
  }

  /** The inner loop of one e1 column (lines 50-55): the four-way groups
      (-k1, -k), (k1, -k), (-k1, k), (k1, k) for k = 1..n. */
  function Quads(k1: nat, n: nat): seq<GridIndex> {
    if n == 0 then []
    else
      var a, b := k1 as int, n as int;
      Quads(k1, n - 1) + [GridIndex(-a, -b), GridIndex(a, -b), GridIndex(-a, b), GridIndex(a, b)]
  }

  /** The number of inner iterations for column k1: e2^2 < maxSq - e1^2 (line 49). */
  function InnerLength(step: real, maxSq: real, k1: int): nat
    requires step != 0.0
  {
    RunLength(step, maxSq - Mag2(k1, step))
  }

  /** The inner iteration counts of columns 1..n1. */
  function InnerLengths(step: real, maxSq: real, n1: nat): (r: seq<nat>)
    requires step != 0.0 || n1 == 0
    ensures |r| == n1
    ensures forall k :: 1 <= k <= n1 ==> r[k - 1] == InnerLength(step, maxSq, k)
  {
    seq(n1, i requires 0 <= i < n1 => InnerLength(step, maxSq, i + 1))
  }

  /** The e1 loop (lines 46-56) for k1 = 1..n1: (-k1, 0), (k1, 0), then the
      four-way groups of that column, whose length is inner[k1 - 1]. */
  function Rings(n1: nat, inner: seq<nat>): seq<GridIndex>
    requires n1 <= |inner|
  {
    if n1 == 0 then []
    else Rings(n1 - 1, inner) + [GridIndex(-(n1 as int), 0), GridIndex(n1, 0)] + Quads(n1, inner[n1 - 1])
  }

  /** forEachEllipticity (lines 34-57) as the sequence of vertices it visits. */
  function GridIndices(maxEllipticity: real, step: real): (gs: seq<GridIndex>)
    requires Terminates(maxEllipticity, step)
    ensures |gs| >= 1 && gs[0] == Origin
  {
    var maxSq := Sq(maxEllipticity);
    var n := RunLength(step, maxSq);
    [Origin] + AxisPoints(n) + Rings(n, InnerLengths(step, maxSq, n))
  }

  /** The same visit order as ellipticity values. */
  function Ellipticities(maxEllipticity: real, step: real): (es: seq<Ellipticity>)
    requires Terminates(maxEllipticity, step)
    ensures |es| == |GridIndices(maxEllipticity, step)|
    ensures es[0] == Ellipticity(0.0, 0.0)
    ensures forall i :: 0 <= i < |es| ==> es[i] == At(GridIndices(maxEllipticity, step)[i], step)
  {
    var gs := GridIndices(maxEllipticity, step);
    seq(|gs|, i requires 0 <= i < |gs| => At(gs[i], step))
  }

  // ---------------------------------------------------------------------
  // Membership

  lemma {:induction false} AxisMember(n: nat, g: GridIndex)
    ensures g in AxisPoints(n) <==> g.k1 == 0 && 1 <= Abs(g.k2) <= n
  {
    if n > 0 {
      AxisMember(n - 1, g);
    }
  }

  lemma {:induction false} QuadMember(k1: nat, n: nat, g: GridIndex)
    requires 1 <= k1
    ensures g in Quads(k1, n) <==> Abs(g.k1) == k1 && 1 <= Abs(g.k2) <= n
  {
    if n > 0 {
      QuadMember(k1, n - 1, g);
    }
  }

  lemma {:induction false} RingMember(n1: nat, inner: seq<nat>, g: GridIndex)
    requires n1 <= |inner|
    ensures g in Rings(n1, inner) <==> 1 <= Abs(g.k1) <= n1 && Abs(g.k2) <= inner[Abs(g.k1) - 1]
  {
    if n1 > 0 {
      var m := inner[n1 - 1];
      RingMember(n1 - 1, inner, g);
      QuadMember(n1, m, g);
      var pair := [GridIndex(-(n1 as int), 0), GridIndex(n1, 0)];
      assert Rings(n1, inner) == Rings(n1 - 1, inner) + pair + Quads(n1, m);
      assert g in pair <==> Abs(g.k1) == n1 && g.k2 == 0;
    }
  }

  /** The three blocks of the enumeration. */
  lemma GridIndicesBlocks(maxEllipticity: real, step: real, g: GridIndex)
    requires Terminates(maxEllipticity, step)
    ensures var n := RunLength(step, Sq(maxEllipticity));
      g in GridIndices(maxEllipticity, step) <==>
        || g == Origin
        || (g.k1 == 0 && 1 <= Abs(g.k2) <= n)
        || (1 <= Abs(g.k1) <= n && Abs(g.k2) <= InnerLengths(step, Sq(maxEllipticity), n)[Abs(g.k1) - 1])
  {
    var maxSq := Sq(maxEllipticity);
    var n := RunLength(step, maxSq);
    AxisMember(n, g);
    RingMember(n, InnerLengths(step, maxSq, n), g);
  }

  /** A vertex on the e2 axis is visited exactly when it is the origin or
      inside the circle. */
  lemma AxisMemberIff(maxEllipticity: real, step: real, g: GridIndex)
    requires Terminates(maxEllipticity, step)
    requires g.k1 == 0
    ensures g in GridIndices(maxEllipticity, step) <==> g == Origin || Inside(g, step, Sq(maxEllipticity))
  {
    GridIndicesBlocks(maxEllipticity, step, g);
    Mag2Facts(0, step);
    Mag2Facts(g.k2, step);
    if g.k2 != 0 {
      RunIff(step, Sq(maxEllipticity), Abs(g.k2));
    }
  }

  /** Off the e2 axis: the column of |k1| is entered when e1^2 < max^2 and
      its inner loop reaches |k2| when e2^2 < max^2 - e1^2. */
  lemma OffAxisMemberIff(maxEllipticity: real, step: real, g: GridIndex)
    requires Terminates(maxEllipticity, step)
    requires g.k1 != 0
    ensures g in GridIndices(maxEllipticity, step) <==> Inside(g, step, Sq(maxEllipticity))
  {
    var maxSq := Sq(maxEllipticity);
    var n := RunLength(step, maxSq);
    GridIndicesBlocks(maxEllipticity, step, g);
    Mag2Facts(g.k1, step);
    Mag2Facts(g.k2, step);
    if step == 0.0 {
      assert maxSq == 0.0;
      assert n == 0;
    } else {
      var a := Abs(g.k1);
      RunIff(step, maxSq, a);
      if a <= n {
        var m := InnerLengths(step, maxSq, n)[a - 1];
        assert m == RunLength(step, maxSq - Mag2(a, step));
        if g.k2 != 0 {
          RunIff(step, maxSq - Mag2(a, step), Abs(g.k2));
        }
      }
    }
  }

  /** One vertex is visited exactly when it is the origin or lies strictly
      inside the circle. */
  lemma MemberIff(maxEllipticity: real, step: real, g: GridIndex)
    requires Terminates(maxEllipticity, step)
    ensures g in GridIndices(maxEllipticity, step) <==> g == Origin || Inside(g, step, Sq(maxEllipticity))
  {
    if g.k1 == 0 {
      AxisMemberIff(maxEllipticity, step, g);
    } else {
      OffAxisMemberIff(maxEllipticity, step, g);
    }
  }

  lemma Membership(maxEllipticity: real, step: real)
    requires Terminates(maxEllipticity, step)
    ensures forall g :: g in GridIndices(maxEllipticity, step) <==> g == Origin || Inside(g, step, Sq(maxEllipticity))
  {
    forall g {
      MemberIff(maxEllipticity, step, g);
    }
  }

  // ---------------------------------------------------------------------
  // Order

  /** The visit order: by |k1|, then |k2|, then the sign of k2, then the
      sign of k1. */
  predicate Before(a: GridIndex, b: GridIndex) {
    || Abs(a.k1) < Abs(b.k1)
    || (Abs(a.k1) == Abs(b.k1) && Abs(a.k2) < Abs(b.k2))
    || (Abs(a.k1) == Abs(b.k1) && Abs(a.k2) == Abs(b.k2) && a.k2 < b.k2)
    || (Abs(a.k1) == Abs(b.k1) && Abs(a.k2) == Abs(b.k2) && a.k2 == b.k2 && a.k1 < b.k1)
  }

  predicate StrictlyIncreasing(s: seq<GridIndex>) {
    forall i, j :: 0 <= i < j < |s| ==> Before(s[i], s[j])
  }

  lemma ConcatIncreasing(a: seq<GridIndex>, b: seq<GridIndex>)
    requires StrictlyIncreasing(a) && StrictlyIncreasing(b)
    requires forall x, y :: x in a && y in b ==> Before(x, y)
    ensures StrictlyIncreasing(a + b)
  {
    var c := a + b;
    forall i, j | 0 <= i < j < |c|
      ensures Before(c[i], c[j])
    {
      if j < |a| {
        assert c[i] == a[i] && c[j] == a[j];
      } else if i < |a| {
        assert c[i] == a[i] && c[j] == b[j - |a|];
        assert c[i] in a && c[j] in b;
      } else {
        assert c[i] == b[i - |a|] && c[j] == b[j - |a|];
      }
    }
  }

  lemma {:induction false} AxisIncreasing(n: nat)
    ensures StrictlyIncreasing(AxisPoints(n))
  {
    if n > 0 {
      AxisIncreasing(n - 1);
      var pair := [GridIndex(0, -(n as int)), GridIndex(0, n)];
      forall x, y | x in AxisPoints(n - 1) && y in pair
        ensures Before(x, y)
      {
        AxisMember(n - 1, x);
      }
      ConcatIncreasing(AxisPoints(n - 1), pair);
    }
  }

  lemma {:induction false} QuadsIncreasing(k1: nat, n: nat)
    requires 1 <= k1
    ensures StrictlyIncreasing(Quads(k1, n))
  {
    if n > 0 {
      QuadsIncreasing(k1, n - 1);
      var a, b := k1 as int, n as int;
      var group := [GridIndex(-a, -b), GridIndex(a, -b), GridIndex(-a, b), GridIndex(a, b)];
      assert StrictlyIncreasing(group);
      forall x, y | x in Quads(k1, n - 1) && y in group
        ensures Before(x, y)
      {
        QuadMember(k1, n - 1, x);
      }
      ConcatIncreasing(Quads(k1, n - 1), group);
    }
  }

  lemma {:induction false} RingsIncreasing(n1: nat, inner: seq<nat>)
    requires n1 <= |inner|
    ensures StrictlyIncreasing(Rings(n1, inner))
  {
    if n1 > 0 {
      var m := inner[n1 - 1];
      var pair := [GridIndex(-(n1 as int), 0), GridIndex(n1, 0)];
      var column := pair + Quads(n1, m);
      RingsIncreasing(n1 - 1, inner);
      QuadsIncreasing(n1, m);
      forall x, y | x in pair && y in Quads(n1, m)
        ensures Before(x, y)
      {
        QuadMember(n1, m, y);
      }
      ConcatIncreasing(pair, Quads(n1, m));
      forall x, y | x in Rings(n1 - 1, inner) && y in column
        ensures Before(x, y)
      {
        RingMember(n1 - 1, inner, x);
        QuadMember(n1, m, y);
      }
      ConcatIncreasing(Rings(n1 - 1, inner), column);
      assert Rings(n1, inner) == Rings(n1 - 1, inner) + column;
    }
  }

  lemma GridIndicesIncreasing(maxEllipticity: real, step: real)
    requires Terminates(maxEllipticity, step)
    ensures StrictlyIncreasing(GridIndices(maxEllipticity, step))
  {
    var maxSq := Sq(maxEllipticity);
    var n := RunLength(step, maxSq);
    var inner := InnerLengths(step, maxSq, n);
    AxisIncreasing(n);
    RingsIncreasing(n, inner);
    forall y | y in AxisPoints(n)
      ensures Before(Origin, y)
    {
      AxisMember(n, y);
    }
    ConcatIncreasing([Origin], AxisPoints(n));
    forall x, y | x in [Origin] + AxisPoints(n) && y in Rings(n, inner)
      ensures Before(x, y)
    {
      AxisMember(n, x);
      RingMember(n, inner, y);
    }
    ConcatIncreasing([Origin] + AxisPoints(n), Rings(n, inner));
  }

  lemma IncreasingDistinct(s: seq<GridIndex>)
    requires StrictlyIncreasing(s)
    ensures forall i, j :: 0 <= i < j < |s| ==> s[i] != s[j]
  {
  }

  // ---------------------------------------------------------------------
  // The promises of the enumerator

  /** Every vertex after the first lies strictly inside the circle. */
  lemma GridIndicesInside(maxEllipticity: real, step: real)
    requires Terminates(maxEllipticity, step)
    ensures forall i :: 0 < i < |GridIndices(maxEllipticity, step)| ==>
      Inside(GridIndices(maxEllipticity, step)[i], step, Sq(maxEllipticity))
  {
    var gs := GridIndices(maxEllipticity, step);
    GridIndicesIncreasing(maxEllipticity, step);
    forall i | 0 < i < |gs|
      ensures Inside(gs[i], step, Sq(maxEllipticity))
    {
      assert Before(gs[0], gs[i]);
      assert gs[i] in gs;
      MemberIff(maxEllipticity, step, gs[i]);
    }
  }

  /** The enumeration, completely: it starts at the origin, visits every
      vertex strictly inside the circle e1^2 + e2^2 < maxEllipticity^2 and
      nothing else, and visits them once each in the order `Before`. */
  lemma GridIndicesSpec(maxEllipticity: real, step: real)
    requires Terminates(maxEllipticity, step)
    ensures GridIndices(maxEllipticity, step)[0] == Origin
    ensures StrictlyIncreasing(GridIndices(maxEllipticity, step))
    ensures forall g :: g in GridIndices(maxEllipticity, step) <==> g == Origin || Inside(g, step, Sq(maxEllipticity))
    ensures forall i :: 0 < i < |GridIndices(maxEllipticity, step)| ==>
      Inside(GridIndices(maxEllipticity, step)[i], step, Sq(maxEllipticity))
    ensures forall i, j :: 0 <= i < j < |GridIndices(maxEllipticity, step)| ==>
      GridIndices(maxEllipticity, step)[i] != GridIndices(maxEllipticity, step)[j]
  {
    GridIndicesIncreasing(maxEllipticity, step);
    IncreasingDistinct(GridIndices(maxEllipticity, step));
    Membership(maxEllipticity, step);
    GridIndicesInside(maxEllipticity, step);
  }

  /** The visited set is closed under negating either component. */
  lemma GridIndicesSymmetric(maxEllipticity: real, step: real, g: GridIndex)
    requires Terminates(maxEllipticity, step)
    requires g in GridIndices(maxEllipticity, step)
    ensures GridIndex(-g.k1, g.k2) in GridIndices(maxEllipticity, step)
    ensures GridIndex(g.k1, -g.k2) in GridIndices(maxEllipticity, step)
  {
    MemberIff(maxEllipticity, step, g);
    MemberIff(maxEllipticity, step, GridIndex(-g.k1, g.k2));
    MemberIff(maxEllipticity, step, GridIndex(g.k1, -g.k2));
    Mag2Facts(g.k1, step);
    Mag2Facts(g.k2, step);
  }

  /** With maxEllipticity = 0 only the origin is visited. */
  lemma ZeroMaxEllipticity(step: real)
    ensures GridIndices(0.0, step) == [Origin]
  {
    assert RunLength(step, Sq(0.0)) == 0;
  }

  // ---------------------------------------------------------------------
  // Visiting: the functor protocol of forEachEllipticity

  /** A left fold: the functor is applied to each pair in visit order. */
  function Fold<A>(f: (A, Ellipticity) -> A, acc: A, es: seq<Ellipticity>): A
    decreases |es|
  {
    if |es| == 0 then acc else Fold(f, f(acc, es[0]), es[1..])
  }

  /** forEachEllipticity with a functor: the first call is always at
      (0, 0), then the remaining pairs follow in visit order. */
  function ForEachEllipticity<A>(f: (A, Ellipticity) -> A, acc: A, maxEllipticity: real, step: real): (r: A)
    requires Terminates(maxEllipticity, step)
    ensures r == Fold(f, f(acc, Ellipticity(0.0, 0.0)), Ellipticities(maxEllipticity, step)[1..])
  {
    Fold(f, acc, Ellipticities(maxEllipticity, step))
  }

  /** The CountSamples functor (lines 59-65): `++n`. */
  function CountVisit(n: nat, e: Ellipticity): nat { n + 1 }

  lemma {:induction false} FoldCount(n: nat, es: seq<Ellipticity>)
    ensures Fold(CountVisit, n, es) == n + |es|
    decreases |es|
  {
    if |es| > 0 {
      FoldCount(n + 1, es[1..]);
    }
  }

  /** Counting with the CountSamples functor gives the length of the
      enumeration. */
  function CountSamples(maxEllipticity: real, step: real): (n: nat)
    requires Terminates(maxEllipticity, step)
    ensures n == |GridIndices(maxEllipticity, step)|
  {
    FoldCount(0, Ellipticities(maxEllipticity, step));
    ForEachEllipticity(CountVisit, 0, maxEllipticity, step)
  }

  lemma AtInside(g: GridIndex, step: real, maxSq: real)
    requires Inside(g, step, maxSq)
    ensures Sq(At(g, step).e1) + Sq(At(g, step).e2) < maxSq
  {
  }

  /** The ellipticity values: the first is (0, 0), every later one lies
      strictly inside the circle of radius maxEllipticity. */
  lemma EllipticitiesInside(maxEllipticity: real, step: real)
    requires Terminates(maxEllipticity, step)
    ensures Ellipticities(maxEllipticity, step)[0] == Ellipticity(0.0, 0.0)
    ensures forall i :: 0 < i < |Ellipticities(maxEllipticity, step)| ==>
      Sq(Ellipticities(maxEllipticity, step)[i].e1) + Sq(Ellipticities(maxEllipticity, step)[i].e2) < Sq(maxEllipticity)
  {
    GridIndicesInside(maxEllipticity, step);
    var gs := GridIndices(maxEllipticity, step);
    var es := Ellipticities(maxEllipticity, step);
    assert gs[0] == Origin;
    forall i | 0 < i < |es|
      ensures Sq(es[i].e1) + Sq(es[i].e2) < Sq(maxEllipticity)
    {
      assert es[i] == At(gs[i], step);
      AtInside(gs[i], step, Sq(maxEllipticity));
    }
  }

  lemma AtNegate(g: GridIndex, step: real)
    ensures At(GridIndex(-g.k1, g.k2), step) == Ellipticity(-At(g, step).e1, At(g, step).e2)
    ensures At(GridIndex(g.k1, -g.k2), step) == Ellipticity(At(g, step).e1, -At(g, step).e2)
  {
    assert (-g.k1) as real * step == -(g.k1 as real * step);
    assert (-g.k2) as real * step == -(g.k2 as real * step);
  }

  /** The ellipticity values are closed under negating e1 and under
      negating e2. */
  lemma EllipticitiesSymmetric(maxEllipticity: real, step: real, e: Ellipticity)
    requires Terminates(maxEllipticity, step)
    requires e in Ellipticities(maxEllipticity, step)
    ensures Ellipticity(-e.e1, e.e2) in Ellipticities(maxEllipticity, step)
    ensures Ellipticity(e.e1, -e.e2) in Ellipticities(maxEllipticity, step)
  {
    var gs := GridIndices(maxEllipticity, step);
    var es := Ellipticities(maxEllipticity, step);
    var i :| 0 <= i < |es| && es[i] == e;
    var g := gs[i];
    assert e == At(g, step);
    GridIndicesSymmetric(maxEllipticity, step, g);
    AtNegate(g, step);
    var j :| 0 <= j < |gs| && gs[j] == GridIndex(-g.k1, g.k2);
    assert es[j] == At(gs[j], step);
    var k :| 0 <= k < |gs| && gs[k] == GridIndex(g.k1, -g.k2);
    assert es[k] == At(gs[k], step);
  }
}
