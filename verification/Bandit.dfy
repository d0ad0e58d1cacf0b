/** The diagonal linear bandit: per-arm precision and reward accumulators updated in place, and
    the clamped upper-confidence score. Floating-point numbers are real numbers here. */
module Bandit {

  /** One observation: feature vector and reward. */
  datatype Outcome = Outcome(x: seq<real>, reward: real)

  function At(x: seq<real>, i: nat): (v: real)
  {
    if i < |x| then x[i] else 0.0
  }

  function Square(v: real): (r: real)
    ensures r >= 0.0
  {
    v * v
  }

  function Times(v: real, reward: real): (r: real)
  {
    v * reward
  }

  /** Sum of x_i * x_i over a history. */
  function SquareSum(h: seq<Outcome>, i: nat): (s: real)
    ensures s >= 0.0
  {
    if h == [] then 0.0
    else SquareSum(h[..|h| - 1], i) + Square(At(h[|h| - 1].x, i))
  }

  /** Sum of x_i * r over a history. */
  function RewardSum(h: seq<Outcome>, i: nat): (s: real)
  {
    if h == [] then 0.0 else RewardSum(h[..|h| - 1], i) + Times(At(h[|h| - 1].x, i), h[|h| - 1].reward)
  }

  lemma SumsAppend(h: seq<Outcome>, o: Outcome, i: nat)
    ensures SquareSum(h + [o], i) == SquareSum(h, i) + Square(At(o.x, i))
    ensures RewardSum(h + [o], i) == RewardSum(h, i) + Times(At(o.x, i), o.reward)
  {
    assert (h + [o])[..|h|] == h;
  }

  // ---- Order independence ------------------------------------------------------------------

  /** A sum of per-outcome terms. */
  function Total(h: seq<Outcome>, f: Outcome -> real): (s: real)
  {
    if h == [] then 0.0 else Total(h[..|h| - 1], f) + f(h[|h| - 1])
  }

  lemma {:induction false} TotalRemove(h: seq<Outcome>, f: Outcome -> real, k: nat)
    requires k < |h|
    ensures Total(h, f) == Total(h[..k] + h[k + 1..], f) + f(h[k])
  {
    var rest := h[..k] + h[k + 1..];
    if k == |h| - 1 {
      assert rest == h[..|h| - 1];
    } else {
      var front := h[..|h| - 1];
      TotalRemove(front, f, k);
      assert front[..k] == h[..k];
      assert rest[..|rest| - 1] == front[..k] + front[k + 1..];
      assert rest[|rest| - 1] == h[|h| - 1];
    }
  }

  lemma RemoveOne(b: seq<Outcome>, k: nat)
    requires k < |b|
    ensures multiset(b[..k] + b[k + 1..]) == multiset(b) - multiset{b[k]}
  {
    assert b == b[..k] + [b[k]] + b[k + 1..];
  }

  lemma {:induction false} TotalPermuted(a: seq<Outcome>, b: seq<Outcome>, f: Outcome -> real)
    requires multiset(a) == multiset(b)
    ensures Total(a, f) == Total(b, f)
    decreases |a|
  {
    assert |multiset(a)| == |a| && |multiset(b)| == |b|;
    if a != [] {
      var last, front := a[|a| - 1], a[..|a| - 1];
      assert a == front + [last];
      assert multiset(a) == multiset(front) + multiset{last};
      assert last in multiset(b);
      var k :| 0 <= k < |b| && b[k] == last;
      var rest := b[..k] + b[k + 1..];
      RemoveOne(b, k);
      TotalRemove(b, f, k);
      TotalPermuted(front, rest, f);
    }
  }

  lemma {:induction false} SumsAreTotals(h: seq<Outcome>, i: nat)
    ensures SquareSum(h, i) == Total(h, (o: Outcome) => Square(At(o.x, i)))
    ensures RewardSum(h, i) == Total(h, (o: Outcome) => Times(At(o.x, i), o.reward))
  {
    if h != [] { SumsAreTotals(h[..|h| - 1], i); }
  }

  /** The accumulators do not depend on the order of the updates. */
  lemma OrderIndependent(a: seq<Outcome>, b: seq<Outcome>, i: nat)
    requires multiset(a) == multiset(b)
    ensures SquareSum(a, i) == SquareSum(b, i) && RewardSum(a, i) == RewardSum(b, i)
  {
    SumsAreTotals(a, i);
    SumsAreTotals(b, i);
    TotalPermuted(a, b, (o: Outcome) => Square(At(o.x, i)));
    TotalPermuted(a, b, (o: Outcome) => Times(At(o.x, i), o.reward));
  }

  // ---- Precision and confidence --------------------------------------------------------------

  /** The precision 1 + sum of squares never falls. */
  lemma {:induction false} PrecisionGrows(h: seq<Outcome>, more: seq<Outcome>, i: nat)
    ensures SquareSum(h, i) <= SquareSum(h + more, i)
  {
    if more == [] {
      assert h + more == h;
    } else {
      var front, o := more[..|more| - 1], more[|more| - 1];
      PrecisionGrows(h, front, i);
      assert h + more == (h + front) + [o];
      SumsAppend(h + front, o, i);
    }
  }

  /** One coordinate's share of the confidence term. */
  function Share(x: real, a: real): (q: real)
    requires a > 0.0
  {
    Square(x) / a
  }

  /** One coordinate's share of the estimate, x * (b / a). */
  function Weighted(x: real, b: real, a: real): (q: real)
    requires a > 0.0
  {
    x * (b / a)
  }

  /** sum over i < n of x_i^2 / a_i. */
  function Spread(x: seq<real>, a: seq<real>, n: nat): (s: real)
    requires n <= |x| && n <= |a| && forall i :: 0 <= i < n ==> a[i] > 0.0
  {
    if n == 0 then 0.0 else Spread(x, a, n - 1) + Share(x[n - 1], a[n - 1])
  }

  /** sum over i < n of x_i * b_i / a_i. */
  function Estimate(x: seq<real>, a: seq<real>, b: seq<real>, n: nat): (s: real)
    requires n <= |x| && n <= |a| && n <= |b| && forall i :: 0 <= i < n ==> a[i] > 0.0
  {
    if n == 0 then 0.0 else Estimate(x, a, b, n - 1) + Weighted(x[n - 1], b[n - 1], a[n - 1])
  }

  lemma QuotientFalls(y: real, a: real, a': real)
    requires y >= 0.0 && 0.0 < a <= a'
    ensures y / a' <= y / a
  {
    var q, q' := y / a, y / a';
    assert q * a == y && q' * a' == y && q >= 0.0;
    assert q * a' >= q * a;
    assert (q' - q) * a' <= 0.0;
  }

  lemma {:induction false} SpreadFalls(x: seq<real>, a: seq<real>, a': seq<real>, n: nat)
    requires n <= |x| && n <= |a| && n <= |a'|
    requires forall i :: 0 <= i < n ==> 0.0 < a[i] <= a'[i]
    ensures Spread(x, a', n) <= Spread(x, a, n)
  {
    if n > 0 {
      SpreadFalls(x, a, a', n - 1);
      QuotientFalls(Square(x[n - 1]), a[n - 1], a'[n - 1]);
    }
  }

  /** The precision diagonal after a history, in dimension d. */
  function Precision(h: seq<Outcome>, d: nat): (a: seq<real>)
    ensures |a| == d && forall i :: 0 <= i < d ==> a[i] >= 1.0
  {
    seq(d, i requires 0 <= i < d => 1.0 + SquareSum(h, i))
  }

  /** For a fixed feature vector the confidence term never grows as outcomes come in. */
  lemma ConfidenceNeverGrows(h: seq<Outcome>, more: seq<Outcome>, x: seq<real>, d: nat)
    requires d <= |x|
    ensures forall i :: 0 <= i < d ==> 1.0 <= Precision(h, d)[i] <= Precision(h + more, d)[i]
    ensures Spread(x, Precision(h + more, d), d) <= Spread(x, Precision(h, d), d)
  {
    forall i | 0 <= i < d ensures 1.0 <= Precision(h, d)[i] <= Precision(h + more, d)[i] {
      PrecisionGrows(h, more, i);
    }
    SpreadFalls(x, Precision(h, d), Precision(h + more, d), d);
  }

  /** k outcomes with the feature vector x. */
  ghost predicate Repeats(h: seq<Outcome>, x: seq<real>)
  {
    forall j :: 0 <= j < |h| ==> h[j].x == x
  }

  lemma {:induction false} SquareSumRepeats(h: seq<Outcome>, x: seq<real>, i: nat)
    requires Repeats(h, x) && i < |x|
    ensures SquareSum(h, i) == Times(|h| as real, Square(x[i]))
  {
    if h != [] {
      SquareSumRepeats(h[..|h| - 1], x, i);
      OneMore(|h| as real - 1.0, Square(x[i]));
    }
  }

  lemma OneMore(k: real, y: real)
    ensures Times(k, y) + y == Times(k + 1.0, y)
  {
  }

  lemma PositiveFactor(u: real, a: real)
    requires a > 0.0 && u * a > 0.0
    ensures u > 0.0
  {
  }

  lemma TermBound(y: real, k: real, a: real)
    requires y >= 0.0 && k > 0.0 && a == 1.0 + k * y
    ensures a > 0.0 && y / a <= 1.0 / k
  {
    assert k * y >= 0.0 && a >= 1.0;
    var q := y / a;
    assert q * a == y;
    assert (k * q) * a == k * y;
    assert (1.0 - k * q) * a == 1.0;
    PositiveFactor(1.0 - k * q, a);
    assert (1.0 / k - q) * k == 1.0 - k * q;
  }

  lemma OneMoreShare(n: real, k: real)
    requires k > 0.0
    ensures (n - 1.0) / k + 1.0 / k == n / k
  {
  }

  lemma {:induction false} SpreadBound(x: seq<real>, a: seq<real>, k: real, n: nat)
    requires n <= |x| && n <= |a| && k > 0.0
    requires forall i :: 0 <= i < n ==> a[i] > 0.0 && a[i] == 1.0 + Times(k, Square(x[i]))
    ensures Spread(x, a, n) <= n as real / k
  {
    if n > 0 {
      SpreadBound(x, a, k, n - 1);
      TermBound(Square(x[n - 1]), k, a[n - 1]);
      OneMoreShare(n as real, k);
    }
  }

  /** Exploration dies out: after k outcomes at the same features the confidence term there is at
      most d / k. */
  lemma {:induction false} ExplorationDiesOut(h: seq<Outcome>, x: seq<real>)
    requires Repeats(h, x) && h != []
    ensures Spread(x, Precision(h, |x|), |x|) <= |x| as real / |h| as real
  {
    var a := Precision(h, |x|);
    forall i | 0 <= i < |x| ensures a[i] == 1.0 + Times(|h| as real, Square(x[i])) { SquareSumRepeats(h, x, i); }
    SpreadBound(x, a, |h| as real, |x|);
  }

  // ---- The estimate is the ridge regression of the rewards ---------------------------------------

  /** What the weight `theta` of feature i gets wrong about the rewards seen, plus its own size:
      theta^2 + sum of (r - theta * x_i)^2. */
  function Loss(h: seq<Outcome>, i: nat, theta: real): (l: real)
  {
    if h == [] then theta * theta
    else
      var o := h[|h| - 1];
      Loss(h[..|h| - 1], i, theta) + Residual(o.reward, theta, At(o.x, i))
  }

  function Residual(r: real, t: real, x: real): (e: real)
  {
    (r - t * x) * (r - t * x)
  }

  function Rewards(h: seq<Outcome>): (s: real)
  {
    if h == [] then 0.0 else Rewards(h[..|h| - 1]) + Square(h[|h| - 1].reward)
  }

  lemma ExpandSquare(r: real, t: real, x: real)
    ensures Residual(r, t, x) == r * r - 2.0 * (t * (x * r)) + (t * t) * (x * x)
  {
  }

  lemma Distribute(t: real, a: real, b: real)
    ensures t * (a + b) == t * a + t * b
  {
  }

  function Curve(a: real, b: real, c: real, t: real): (l: real)
  {
    (t * t) * a - 2.0 * (t * b) + c
  }

  function Area(a: real, d: real): (g: real)
  {
    a * (d * d)
  }

  /** The loss is a parabola whose coefficients are the two accumulators. */
  lemma {:induction false} LossExpands(h: seq<Outcome>, i: nat, theta: real)
    ensures Loss(h, i, theta) == Curve(1.0 + SquareSum(h, i), RewardSum(h, i), Rewards(h), theta)
  {
    if h == [] {
      CurveStart(theta);
    } else {
      var front, o := h[..|h| - 1], h[|h| - 1];
      var x := At(o.x, i);
      LossExpands(front, i, theta);
      CurveStep(1.0 + SquareSum(front, i), RewardSum(front, i), Rewards(front), theta, x, o.reward);
    }
  }

  lemma CurveStart(t: real)
    ensures Curve(1.0 + 0.0, 0.0, 0.0, t) == t * t
  {
  }

  lemma CurveStep(a: real, b: real, c: real, t: real, x: real, r: real)
    ensures Curve(a, b, c, t) + Residual(r, t, x) == Curve(a + Square(x), b + Times(x, r), c + Square(r), t)
  {
    ExpandSquare(r, t, x);
    Distribute(t * t, a, x * x);
    Distribute(t, b, x * r);
  }

  ghost predicate Minimises(h: seq<Outcome>, i: nat, theta: real)
  {
    forall other :: Loss(h, i, theta) <= Loss(h, i, other)
  }

  lemma Parabola(a: real, b: real, c: real, theta: real, other: real)
    requires Times(theta, a) == b
    ensures Curve(a, b, c, other) - Curve(a, b, c, theta) == Area(a, other - theta)
  {
    assert other * b == (other * theta) * a && theta * b == (theta * theta) * a;
  }

  lemma LossGap(h: seq<Outcome>, i: nat, theta: real, other: real)
    requires Times(theta, 1.0 + SquareSum(h, i)) == RewardSum(h, i)
    ensures Loss(h, i, other) - Loss(h, i, theta) == Area(1.0 + SquareSum(h, i), other - theta)
  {
    LossExpands(h, i, theta);
    LossExpands(h, i, other);
    Parabola(1.0 + SquareSum(h, i), RewardSum(h, i), Rewards(h), theta, other);
  }

  lemma TimesPositive(a: real, b: real)
    requires a > 0.0 && b > 0.0
    ensures Times(a, b) > 0.0
  {
  }

  lemma SquareOfNegated(d: real)
    ensures Square(-d) == Square(d)
  {
  }

  lemma SquarePositive(d: real)
    requires d != 0.0
    ensures Square(d) > 0.0
  {
    var e := if d > 0.0 then d else -d;
    SquareOfNegated(d);
    TimesPositive(e, e);
    assert Square(e) == Times(e, e);
  }

  lemma AreaAtLeast(a: real, d: real)
    requires a >= 1.0
    ensures Area(a, d) >= Square(d)
  {
    assert (a - 1.0) * Square(d) >= 0.0;
  }

  lemma Gap(a: real, d: real)
    requires a >= 1.0
    ensures Area(a, d) >= 0.0 && (d != 0.0 ==> Area(a, d) > 0.0)
  {
    AreaAtLeast(a, d);
    if d != 0.0 { SquarePositive(d); }
  }

  lemma Solution(a: real, b: real) returns (best: real)
    requires a > 0.0
    ensures Times(best, a) == b
  {
    best := b / a;
  }

  lemma SameProduct(t: real, u: real, a: real)
    requires t - u == 0.0
    ensures Times(t, a) == Times(u, a)
  {
  }

  /** A weight minimises the loss exactly when it solves the normal equation of the accumulators. */
  lemma RidgeExact(h: seq<Outcome>, i: nat, theta: real)
    ensures Minimises(h, i, theta) <==> Times(theta, 1.0 + SquareSum(h, i)) == RewardSum(h, i)
  {
    var a := 1.0 + SquareSum(h, i);
    if Times(theta, a) == RewardSum(h, i) {
      forall other ensures Loss(h, i, theta) <= Loss(h, i, other) {
        LossGap(h, i, theta, other);
        Gap(a, other - theta);
      }
    }
    if Minimises(h, i, theta) {
      var best := Solution(a, RewardSum(h, i));
      LossGap(h, i, best, theta);
      Gap(a, theta - best);
      SameProduct(theta, best, a);
    }
  }

  /** sum over i < n of x_i * w_i. */
  function Dot(x: seq<real>, w: seq<real>, n: nat): (s: real)
    requires n <= |x| && n <= |w|
  {
    if n == 0 then 0.0 else Dot(x, w, n - 1) + x[n - 1] * w[n - 1]
  }

  lemma SolveWeight(b: real, a: real, w: real)
    requires a > 0.0 && w * a == b
    ensures b / a == w
  {
    assert (b / a) * a == b;
    assert (b / a - w) * a == 0.0;
  }

  lemma {:induction false} EstimateMeaning(x: seq<real>, a: seq<real>, b: seq<real>, w: seq<real>, n: nat)
    requires n <= |x| && n <= |a| && n <= |b| && n <= |w|
    requires forall i :: 0 <= i < n ==> a[i] > 0.0 && Times(w[i], a[i]) == b[i]
    ensures Estimate(x, a, b, n) == Dot(x, w, n)
  {
    if n > 0 {
      EstimateMeaning(x, a, b, w, n - 1);
      assert Times(w[n - 1], a[n - 1]) == b[n - 1];
      SolveWeight(b[n - 1], a[n - 1], w[n - 1]);
    }
  }

  /** The confidence term sums x_i^2 / a_i. */
  lemma {:induction false} SpreadMeaning(x: seq<real>, a: seq<real>, q: seq<real>, n: nat)
    requires n <= |x| && n <= |a| && n <= |q|
    requires forall i :: 0 <= i < n ==> a[i] > 0.0 && Times(q[i], a[i]) == Times(x[i], x[i])
    ensures Spread(x, a, n) == Dot(seq(n, i => 1.0), q, n)
  {
    if n > 0 {
      SpreadMeaning(x, a, q, n - 1);
      SameDot(seq(n, i => 1.0), seq(n - 1, i => 1.0), q, n - 1);
      assert Times(q[n - 1], a[n - 1]) == Times(x[n - 1], x[n - 1]);
      SolveWeight(Square(x[n - 1]), a[n - 1], q[n - 1]);
    }
  }

  lemma {:induction false} SameDot(x: seq<real>, y: seq<real>, w: seq<real>, n: nat)
    requires n <= |x| && n <= |y| && n <= |w| && forall i :: 0 <= i < n ==> x[i] == y[i]
    ensures Dot(x, w, n) == Dot(y, w, n)
  {
    if n > 0 { SameDot(x, y, w, n - 1); }
  }

  function Clamp(v: real): (r: real)
    ensures 0.0 <= r <= 1.0
    ensures 0.0 <= v <= 1.0 ==> r == v
    ensures v < 0.0 ==> r == 0.0
    ensures v > 1.0 ==> r == 1.0
  {
    if v < 0.0 then 0.0 else if v > 1.0 then 1.0 else v
  }

  const ALPHA := 0.25

  // ---- The code ------------------------------------------------------------------------------

  class Arm {
    const aDiag: array<real>
    const bVec: array<real>
    var n: nat
    ghost var history: seq<Outcome>

    ghost predicate Valid()
      reads this, aDiag, bVec
    {
      && aDiag.Length == bVec.Length && aDiag != bVec
      && n == |history|
      && (forall i :: 0 <= i < aDiag.Length ==> aDiag[i] == 1.0 + SquareSum(history, i))
      && (forall i :: 0 <= i < bVec.Length ==> bVec[i] == RewardSum(history, i))
    }

    /** A new arm starts from the identity. */
    constructor (d: nat)
      ensures Valid() && history == [] && aDiag.Length == d && fresh(aDiag) && fresh(bVec)
    {
      var a := new real[d](_ => 1.0);
      var b := new real[d](_ => 0.0);
      aDiag, bVec, n, history := a, b, 0, [];
    }

    /** The in-place update adds the outcome to the history the accumulators sum up. */
    method Update(x: seq<real>, reward: real)
      requires Valid()
      modifies this, aDiag, bVec
      ensures Valid() && history == old(history) + [Outcome(x, reward)]
    {
      ghost var a, b := aDiag[..], bVec[..];
      var i := 0;
      while i < |x| && i < aDiag.Length
        invariant 0 <= i <= aDiag.Length && i <= |x| && history == old(history) && n == old(n)
        invariant forall j :: 0 <= j < i ==> aDiag[j] == a[j] + Square(x[j]) && bVec[j] == b[j] + Times(x[j], reward)
        invariant forall j :: i <= j < aDiag.Length ==> aDiag[j] == a[j] && bVec[j] == b[j]
      {
        aDiag[i] := aDiag[i] + Square(x[i]);
        bVec[i] := bVec[i] + Times(x[i], reward);
        i := i + 1;
      }
      n := n + 1;
      history := history + [Outcome(x, reward)];
      forall j | 0 <= j < aDiag.Length
        ensures aDiag[j] == 1.0 + SquareSum(history, j) && bVec[j] == RewardSum(history, j)
      {
        SumsAppend(old(history), Outcome(x, reward), j);
      }
    }

    lemma PrecisionPositive()
      requires Valid()
      ensures forall i :: 0 <= i < aDiag.Length ==> aDiag[i] > 0.0
    {
    }

    /** The clamped upper confidence bound over the first min(|x|, dimension) features. */
    ghost function Ucb(x: seq<real>, sqrt: real -> real): (score: real)
      requires Valid()
      reads this, aDiag, bVec
    {
      PrecisionPositive();
      var d := if |x| < aDiag.Length then |x| else aDiag.Length;
      Clamp(Estimate(x, aDiag[..], bVec[..], d) + ALPHA * sqrt(Spread(x, aDiag[..], d)))
    }

    /** The score in terms of the rewards seen: with the weights that fit them best and the shares
        x_i^2 / (1 + sum of squares), it is the clamped prediction plus a quarter of the root of
        the summed shares. */
    lemma UcbMeaning(x: seq<real>, sqrt: real -> real, w: seq<real>, q: seq<real>, d: nat)
      requires Valid() && d == (if |x| < aDiag.Length then |x| else aDiag.Length) && |w| == d && |q| == d
      requires forall i :: 0 <= i < d ==> Minimises(history, i, w[i])
      requires forall i :: 0 <= i < d ==> Times(q[i], 1.0 + SquareSum(history, i)) == Times(x[i], x[i])
      ensures Ucb(x, sqrt) == Clamp(Dot(x, w, d) + 0.25 * sqrt(Dot(seq(d, i => 1.0), q, d)))
    {
      PrecisionPositive();
      forall i | 0 <= i < d ensures Times(w[i], aDiag[..][i]) == bVec[..][i] { RidgeExact(history, i, w[i]); }
      EstimateMeaning(x, aDiag[..], bVec[..], w, d);
      SpreadMeaning(x, aDiag[..], q, d);
    }

    /** The loop accumulates the estimate and the confidence term coordinate by coordinate. */
    method Score(x: seq<real>, sqrt: real -> real) returns (score: real)
      requires Valid()
      ensures 0.0 <= score <= 1.0
      ensures score == Ucb(x, sqrt)
    {
      ghost var a, b := aDiag[..], bVec[..];
      PrecisionPositive();
      var reward, confidence := 0.0, 0.0;
      var i := 0;
      while i < |x| && i < aDiag.Length
        invariant 0 <= i <= |a| && i <= |x|
        invariant reward == Estimate(x, a, b, i) && confidence == Spread(x, a, i)
      {
        var ai, bi := aDiag[i], bVec[i];
        assert ai == a[i] && bi == b[i];
        if ai > 0.0 {
          reward := reward + Weighted(x[i], bi, ai);
          confidence := confidence + Share(x[i], ai);
        }
        i := i + 1;
      }
      score := Clamp(reward + ALPHA * sqrt(confidence));
    }
  }

  /** One instance per context: arms by tool. */
  class Instance {
    var arms: map<string, Arm>
    ghost var Repr: set<object>

    ghost predicate Valid()
      reads this, Repr
    {
      && this in Repr
      && (forall t :: t in arms ==>
            var a := arms[t]; a in Repr && a.aDiag in Repr && a.bVec in Repr && a.Valid())
      && (forall t, u :: t in arms && u in arms && t != u ==>
            var a, b := arms[t], arms[u];
            a != b && a.aDiag != b.aDiag && a.aDiag != b.bVec && a.bVec != b.aDiag && a.bVec != b.bVec)
    }

    constructor ()
      ensures Valid() && arms == map[] && fresh(Repr)
    {
      arms, Repr := map[], {this};
    }

    method AddArm(toolId: string, d: nat)
      requires Valid() && toolId !in arms
      modifies this
      ensures Valid() && fresh(Repr - old(Repr))
      ensures toolId in arms && arms == old(arms)[toolId := arms[toolId]]
      ensures arms[toolId].history == [] && arms[toolId].aDiag.Length == d && fresh(arms[toolId])
    {
      var arm := new Arm(d);
      arms := arms[toolId := arm];
      Repr := Repr + {arm, arm.aDiag, arm.bVec};
    }

    /** Unknown tools get a fresh arm of the dimension of their first vector; only the arm of
        the tool changes. */
    method Update(toolId: string, x: seq<real>, reward: real)
      requires Valid()
      modifies Repr
      ensures Valid() && fresh(Repr - old(Repr))
      ensures arms.Keys == old(arms.Keys) + {toolId}
      ensures arms[toolId].history == (if toolId in old(arms) then old(arms[toolId].history) else []) + [Outcome(x, reward)]
      ensures toolId !in old(arms) ==> arms[toolId].aDiag.Length == |x|
      ensures forall t :: t in old(arms) && t != toolId ==> arms[t] == old(arms[t]) && arms[t].history == old(arms[t].history)
    {
      if toolId !in arms { AddArm(toolId, |x|); }
      arms[toolId].Update(x, reward);
    }

    /** An unknown arm scores 0.5 + ALPHA. */
    method Score(toolId: string, x: seq<real>, sqrt: real -> real) returns (score: real)
      requires Valid()
      ensures 0.0 <= score <= 1.0
      ensures score == if toolId in arms then arms[toolId].Ucb(x, sqrt) else 0.75
    {
      if toolId !in arms { return 0.5 + ALPHA; }
      var arm := arms[toolId];
      score := arm.Score(x, sqrt);
    }
  }
}
