/** The adaptive one-dimensional Kalman filter that smooths RSSI, over exact reals. */
module Kalman {

  datatype Filter = Filter(q: real, r: real, x: real, p: real, k: real, rVar: real)

  const ZERO := Filter(0.0, 0.0, 0.0, 0.0, 0.0, 0.0)
  const R_ALPHA := 0.1
  const R_MIN := 1.0
  const R_MAX := 20.0
  const MIN_GAIN := 37.0 / 2037.0
  const MAX_GAIN := 733.0 / 1233.0
  const RATE := 2000.0 / 2037.0

  function Init(z: real): Filter { Filter(0.1, 2.0, z, 1.0, 0.0, 2.0) }

  function Clamp(v: real): real {
    if v < R_MIN then R_MIN else if v > R_MAX then R_MAX else v
  }

  function Step(f: Filter, z: real): Filter
    requires f.p >= 0.0 && f.q >= 0.0
  {
    var innovation := z - f.x;
    var rVar := (1.0 - R_ALPHA) * f.rVar + R_ALPHA * (innovation * innovation);
    var r := Clamp(rVar);
    var pPred := f.p + f.q;
    var k := pPred / (pPred + r);
    Filter(f.q, r, f.x + k * innovation, (1.0 - k) * pPred, k, rVar)
  }

  /** `kalman_update` on the structure it is handed. */
  method Update(kf: Filter, rssi: real) returns (f: Filter)
    requires kf.p >= 0.0 && kf.q >= 0.0
    ensures f == Step(kf, rssi)
  {
    f := kf;
    var innovation := rssi - f.x;
    var rVar := (1.0 - R_ALPHA) * f.rVar + R_ALPHA * (innovation * innovation);
    f := f.(rVar := rVar, r := rVar);
    if f.r < R_MIN {
      f := f.(r := R_MIN);
    } else if f.r > R_MAX {
      f := f.(r := R_MAX);
    }
    assert f == kf.(rVar := rVar, r := Clamp(rVar));
    var p := f.p + f.q;
    var k := p / (p + f.r);
    f := f.(p := p, k := k);
    var x := f.x + f.k * innovation;
    f := f.(x := x);
    var shrunk := (1.0 - f.k) * f.p;
    f := f.(p := shrunk);
    assert f == Filter(kf.q, Clamp(rVar), x, shrunk, k, rVar);
  }

  /** The band the error covariance and the clamped noise estimate never leave. */
  predicate InBand(f: Filter) {
    f.q == 0.1 && 0.27 <= f.p <= 1.366 && R_MIN <= f.r <= R_MAX
  }

  lemma DivBounds(a: real, b: real, lo: real, hi: real)
    requires b > 0.0 && lo * b <= a <= hi * b
    ensures lo <= a / b <= hi
  {
    assert (a / b - lo) * b >= 0.0;
    assert (hi - a / b) * b >= 0.0;
  }

  /** One step keeps the band, computes a gain strictly between frozen and unfiltered,
      and moves the estimate that fraction of the way to the sample. */
  lemma StepKeepsBand(f: Filter, z: real)
    requires InBand(f)
    ensures InBand(Step(f, z))
    ensures MIN_GAIN <= Step(f, z).k <= MAX_GAIN
  {
    var g := Step(f, z);
    var a, r := f.p + f.q, g.r;
    GainBounds(a, r);
    assert g.k == a / (a + r) && g.p == (1.0 - g.k) * a;
    CovarianceBounds(a, r, g.k);
  }

  lemma GainBounds(a: real, r: real)
    requires 0.37 <= a <= 1.466 && R_MIN <= r <= R_MAX
    ensures MIN_GAIN <= a / (a + r) <= MAX_GAIN
  {
    assert 2037.0 * a >= 37.0 * (a + r);
    assert 1233.0 * a <= 733.0 * (a + r);
    DivBounds(a, a + r, MIN_GAIN, MAX_GAIN);
  }

  lemma CovarianceBounds(a: real, r: real, k: real)
    requires 0.37 <= a <= 1.466 && R_MIN <= r <= R_MAX && k == a / (a + r)
    ensures 0.27 <= (1.0 - k) * a <= 1.366
  {
    var p, s := (1.0 - k) * a, a + r;
    CovarianceTimesSum(a, r, k, p, s);
    ProductBounds(a, r, a * r, s);
    BetweenByProduct(p, s, a * r, 0.27, 1.366);
  }

  /** The new covariance is the product of the two variances over their sum. */
  lemma CovarianceTimesSum(a: real, r: real, k: real, p: real, s: real)
    requires a > 0.0 && r > 0.0 && s == a + r && k == a / s && p == (1.0 - k) * a
    ensures p * s == a * r
  {
    QuotientTimes(a, s);
    Distribute(k, s);
    Rearrange(1.0 - k, a, s);
  }

  lemma QuotientTimes(a: real, b: real)
    requires b > 0.0
    ensures a / b * b == a
  {
  }

  lemma Distribute(k: real, s: real)
    ensures (1.0 - k) * s == s - k * s
  {
  }

  lemma Rearrange(x: real, a: real, s: real)
    ensures x * a * s == a * (x * s)
  {
  }

  lemma BetweenByProduct(x: real, s: real, product: real, lo: real, hi: real)
    requires s > 0.0 && x * s == product && lo * s <= product <= hi * s
    ensures lo <= x <= hi
  {
    if x < lo { Positive(lo - x, s); }
    if x > hi { Positive(x - hi, s); }
  }

  lemma ProductBounds(a: real, r: real, product: real, s: real)
    requires 0.37 <= a <= 1.466 && R_MIN <= r <= R_MAX && product == a * r && s == a + r
    ensures 0.27 * s <= product <= 1.366 * s
  {
    ProductAboveSum(a, r);
    ProductBelowSum(a, r);
  }

  lemma Positive(x: real, s: real)
    requires x > 0.0 && s > 0.0
    ensures x * s > 0.0
  {
  }

  lemma ProductAboveSum(a: real, r: real)
    requires 0.37 <= a <= 1.466 && R_MIN <= r <= R_MAX
    ensures 0.27 * (a + r) <= a * r
  {
    NonNegative(a - 0.37, r - 1.0);
  }

  lemma NonNegative(x: real, y: real)
    requires x >= 0.0 && y >= 0.0
    ensures x * y >= 0.0
  {
  }

  /** a*r/(a+r) grows in both arguments, so it is largest at a = 1.466, r = 20. */
  lemma ProductBelowSum(a: real, r: real)
    requires 0.37 <= a <= 1.466 && R_MIN <= r <= R_MAX
    ensures a * r <= 1.366 * (a + r)
  {
    if r > 1.366 {
      NonNegative(1.466 - a, r - 1.366);
    } else {
      NonNegative(a, 1.366 - r);
    }
  }

  // ----- whole runs -----

  /** The filter after `Init` on the first sample and one step per later sample. */
  function Run(zs: seq<real>): (f: Filter)
    requires zs != []
    ensures InBand(f)
    ensures |zs| > 1 ==> MIN_GAIN <= f.k <= MAX_GAIN
  {
    if |zs| == 1 then Init(zs[0])
    else
      var prev := Run(zs[..|zs| - 1]);
      StepKeepsBand(prev, zs[|zs| - 1]);
      Step(prev, zs[|zs| - 1])
  }

  ghost predicate Within(zs: seq<real>, lo: real, hi: real) {
    forall i :: 0 <= i < |zs| ==> lo <= zs[i] <= hi
  }

  /** A gain between 0 and 1 keeps the estimate between itself and the sample. */
  lemma StepStaysBetween(f: Filter, z: real, lo: real, hi: real)
    requires InBand(f) && lo <= f.x <= hi && lo <= z <= hi
    ensures lo <= Step(f, z).x <= hi
  {
    StepKeepsBand(f, z);
    StepMovesByGain(f, z);
    Convex(Step(f, z).k, f.x, z, lo, hi);
  }

  lemma Convex(k: real, x: real, z: real, lo: real, hi: real)
    requires 0.0 <= k <= 1.0 && lo <= x <= hi && lo <= z <= hi
    ensures lo <= x + k * (z - x) <= hi
  {
    assert (1.0 - k) * (x - lo) >= 0.0 && k * (z - lo) >= 0.0;
    assert (1.0 - k) * (hi - x) >= 0.0 && k * (hi - z) >= 0.0;
    assert x + k * (z - x) == lo + (1.0 - k) * (x - lo) + k * (z - lo);
    assert x + k * (z - x) == hi - (1.0 - k) * (hi - x) - k * (hi - z);
  }

  /** Over every run the estimate stays in the hull of the samples since `Init`. */
  lemma {:induction false} EstimateInHull(zs: seq<real>, lo: real, hi: real)
    requires zs != [] && Within(zs, lo, hi)
    ensures lo <= Run(zs).x <= hi
  {
    if |zs| > 1 {
      var init := zs[..|zs| - 1];
      EstimateInHull(init, lo, hi);
      StepStaysBetween(Run(init), zs[|zs| - 1], lo, hi);
    }
  }

  /** For int8 samples the noise estimate is the average of squares no larger than 255^2. */
  lemma {:induction false} NoiseEstimateBounded(zs: seq<real>)
    requires zs != [] && Within(zs, -128.0, 127.0)
    ensures 0.0 <= Run(zs).rVar <= 65025.0
  {
    if |zs| > 1 {
      var init, z := zs[..|zs| - 1], zs[|zs| - 1];
      NoiseEstimateBounded(init);
      EstimateInHull(init, -128.0, 127.0);
      NoiseStep(Run(init), z);
    }
  }

  lemma NoiseStep(f: Filter, z: real)
    requires InBand(f) && -128.0 <= f.x <= 127.0 && -128.0 <= z <= 127.0 && 0.0 <= f.rVar <= 65025.0
    ensures 0.0 <= Step(f, z).rVar <= 65025.0
  {
    SquareBound(z - f.x, 255.0);
    var s := (z - f.x) * (z - f.x);
    assert Step(f, z).rVar == (1.0 - R_ALPHA) * f.rVar + R_ALPHA * s;
  }

  lemma SquareBound(d: real, m: real)
    requires -m <= d <= m
    ensures 0.0 <= d * d <= m * m
  {
    assert (m - d) * (m + d) >= 0.0;
    if d >= 0.0 {
      assert d * d >= 0.0;
    } else {
      assert d * d == (-d) * (-d) >= 0.0;
    }
  }

  // ----- the filter adapts to the noise -----

  /** How far each sample after the first lay from the estimate it met. */
  function Innovations(zs: seq<real>): (ds: seq<real>)
    requires zs != []
    ensures |ds| == |zs| - 1
  {
    if |zs| == 1 then []
    else var init := zs[..|zs| - 1]; Innovations(init) + [zs[|zs| - 1] - Run(init).x]
  }

  /** Squares averaged with weights that fade by a tenth with every later sample. */
  function Faded(ds: seq<real>): real {
    if |ds| == 0 then 0.0 else 0.1 * Pow(0.9, |ds| - 1) * (ds[0] * ds[0]) + Faded(ds[1..])
  }

  lemma {:induction false} FadedAppend(ds: seq<real>, d: real)
    ensures Faded(ds + [d]) == 0.9 * Faded(ds) + 0.1 * (d * d)
  {
    if |ds| == 0 {
      assert (ds + [d])[1..] == [];
    } else {
      FadedAppend(ds[1..], d);
      assert (ds + [d])[1..] == ds[1..] + [d];
      Refade(Pow(0.9, |ds| - 1), ds[0] * ds[0]);
    }
  }

  lemma Refade(w: real, square: real)
    ensures 0.1 * (0.9 * w) * square == 0.9 * (0.1 * w * square)
  {
  }

  /** Over every run the noise estimate is the faded average of the squared innovations, its start
      value 2 fading with them; and the noise a gain is computed with is that estimate, this
      sample's innovation included, cut off to [1, 20]. */
  lemma {:induction false} NoiseIsFadedAverage(zs: seq<real>)
    requires zs != []
    ensures Run(zs).rVar == 2.0 * Pow(0.9, |zs| - 1) + Faded(Innovations(zs))
    ensures |zs| > 1 ==>
      var v, r := Run(zs).rVar, Run(zs).r;
      r == if v < 1.0 then 1.0 else if v > 20.0 then 20.0 else v
  {
    if |zs| > 1 {
      var init, z := zs[..|zs| - 1], zs[|zs| - 1];
      var d := z - Run(init).x;
      NoiseIsFadedAverage(init);
      NoiseOfRun(zs, Run(init), Run(zs), z, d);
      FadedAppend(Innovations(init), d);
      FadeBoth(Pow(0.9, |zs| - 2), Faded(Innovations(init)), d * d, Run(init).rVar, Run(zs).rVar);
    }
  }

  lemma FadeBoth(w: real, sum: real, square: real, v: real, next: real)
    requires v == 2.0 * w + sum && next == 0.9 * v + 0.1 * square
    ensures next == 2.0 * (0.9 * w) + (0.9 * sum + 0.1 * square)
  {
  }

  lemma NoiseOfRun(zs: seq<real>, f: Filter, g: Filter, z: real, d: real)
    requires |zs| > 1 && f == Run(zs[..|zs| - 1]) && g == Run(zs) && z == zs[|zs| - 1] && d == z - f.x
    ensures g.rVar == 0.9 * f.rVar + 0.1 * (d * d) && g.r == Clamp(g.rVar)
  {
    RunIsStep(zs);
    NoiseOfStep(f, g, z, d);
  }

  lemma RunIsStep(zs: seq<real>)
    requires |zs| > 1
    ensures Run(zs) == Step(Run(zs[..|zs| - 1]), zs[|zs| - 1])
  {
  }

  lemma NoiseOfStep(f: Filter, g: Filter, z: real, d: real)
    requires InBand(f) && g == Step(f, z) && d == z - f.x
    ensures g.rVar == 0.9 * f.rVar + 0.1 * (d * d) && g.r == Clamp(g.rVar)
  {
  }

  /** The gain is the one gain that makes the error variance least: weighting the sample by any
      `g`, with a predicted variance of p + q and a noise of r, leaves at least the new p, and
      exactly that only for the gain computed. */
  lemma GainIsBest(f: Filter, z: real, g: real)
    requires InBand(f)
    ensures var next := Step(f, z);
            var left := (1.0 - g) * (1.0 - g) * (f.p + f.q) + g * g * next.r;
            left >= next.p && (left == next.p <==> g == next.k)
  {
    GainOfStep(f, Step(f, z), z);
    Least(f.p + f.q, Step(f, z).r, Step(f, z).k, g, g - Step(f, z).k);
  }

  lemma GainOfStep(f: Filter, next: Filter, z: real)
    requires InBand(f) && next == Step(f, z)
    ensures next.r >= 1.0 && next.k == (f.p + f.q) / (f.p + f.q + next.r) && next.p == (1.0 - next.k) * (f.p + f.q)
  {
  }

  lemma Least(a: real, r: real, k: real, g: real, e: real)
    requires a > 0.0 && r > 0.0 && k == a / (a + r) && e == g - k
    ensures var left, least := (1.0 - g) * (1.0 - g) * a + g * g * r, (1.0 - k) * a;
            left >= least && (left == least <==> g == k)
  {
    QuotientTimes(a, a + r);
    Excess(a, r, k, g, e);
    var excess := ScaledSquare(e, a + r);
  }

  lemma ScaledSquare(e: real, s: real) returns (x: real)
    requires s > 0.0
    ensures x == e * e * s && x >= 0.0 && (x == 0.0 <==> e == 0.0)
  {
    var m := Abs(e);
    var t := m * s;
    x := m * t;
    if e != 0.0 {
      Positive(m, s);
      Positive(m, t);
    }
    assert x == e * e * s;
  }

  lemma Excess(a: real, r: real, k: real, g: real, e: real)
    requires k * (a + r) == a && e == g - k
    ensures (1.0 - g) * (1.0 - g) * a + g * g * r == (1.0 - k) * a + e * e * (a + r)
  {
    var s := a + r;
    assert (1.0 - g) * (1.0 - g) * a + g * g * r == a - 2.0 * (g * a) + g * g * s;
    assert e * e * s == g * g * s - 2.0 * (g * (k * s)) + k * (k * s);
  }

  /** Of two samples the one further from the estimate never gets the larger gain, and it gets the
      smaller one exactly while the cut-off leaves their noise estimates apart. */
  lemma FurtherSampleGetsLessGain(f: Filter, near: real, far: real)
    requires InBand(f) && Abs(near - f.x) <= Abs(far - f.x)
    ensures Step(f, far).k <= Step(f, near).k
    ensures Step(f, far).k < Step(f, near).k
       <==> Abs(near - f.x) < Abs(far - f.x) && Step(f, far).rVar > 1.0 && Step(f, near).rVar < 20.0
  {
    var g, h, m, n := Step(f, near), Step(f, far), near - f.x, far - f.x;
    NoiseOfStep(f, g, near, m);
    NoiseOfStep(f, h, far, n);
    GainOfStep(f, g, near);
    GainOfStep(f, h, far);
    SquareOrder(m, n);
    NoiseOrder(f.rVar, m * m, n * n, g, h);
    QuotientOrder(f.p + f.q, g.r, h.r);
  }

  lemma NoiseOrder(v: real, m: real, n: real, g: Filter, h: Filter)
    requires m <= n && g.rVar == 0.9 * v + 0.1 * m && h.rVar == 0.9 * v + 0.1 * n
    requires g.r == Clamp(g.rVar) && h.r == Clamp(h.rVar)
    ensures 1.0 <= g.r <= h.r
    ensures g.r < h.r <==> m < n && h.rVar > 1.0 && g.rVar < 20.0
  {
  }

  lemma SquareOrder(m: real, n: real)
    requires Abs(m) <= Abs(n)
    ensures m * m <= n * n
    ensures m * m < n * n <==> Abs(m) < Abs(n)
  {
    SquareOfAbs(m);
    SquareOfAbs(n);
    AbsOrder(Abs(m), Abs(n));
  }

  lemma AbsOrder(a: real, b: real)
    requires 0.0 <= a <= b
    ensures a * a <= b * b && (a < b ==> a * a < b * b)
  {
    if a < b {
      Positive(b - a, b + a);
      assert b * b == a * a + (b - a) * (b + a);
    }
  }

  lemma SquareOfAbs(d: real)
    ensures Abs(d) * Abs(d) == d * d
  {
  }

  /** A larger noise makes a smaller gain. */
  lemma QuotientOrder(a: real, r: real, r': real)
    requires a > 0.0 && 0.0 < r <= r'
    ensures a / (a + r') <= a / (a + r)
    ensures a / (a + r') < a / (a + r) <==> r < r'
  {
    if r < r' {
      var k, k' := a / (a + r), a / (a + r');
      QuotientTimes(a, a + r);
      QuotientTimes(a, a + r');
      if k' >= k {
        NonNegative(k' - k, a + r');
        Positive(k, r' - r) by { DivBounds(a, a + r, 0.0, 1.0); }
      }
    }
  }

  /** A tag heard at -60 dBm and then at -80: the second sample is taken for noise, and the
      estimate stays at -61. */
  lemma OutlierIsDamped()
    ensures var f := Run([-60.0, -80.0]);
            f.rVar == 41.8 && f.r == 20.0 && f.k == 1.1 / 21.1 && -61.1 < f.x < -61.0
  {
    var zs := [-60.0, -80.0];
    assert zs[..1] == [-60.0];
    var f := Run(zs);
    assert f == Step(Init(-60.0), -80.0);
    assert 21.1 * f.k == 1.1;
  }

  // ----- convergence under a constant input -----

  function Abs(a: real): real { if a < 0.0 then -a else a }

  function Pow(b: real, n: nat): real { if n == 0 then 1.0 else b * Pow(b, n - 1) }

  function Repeat(f: Filter, c: real, n: nat): (g: Filter)
    requires InBand(f)
    ensures InBand(g)
  {
    if n == 0 then f
    else
      var h := Repeat(f, c, n - 1);
      StepKeepsBand(h, c);
      Step(h, c)
  }

  /** d shrunk n times by the rate: Pow(RATE, n) * d. */
  function Envelope(d: real, n: nat): real { if n == 0 then d else RATE * Envelope(d, n - 1) }

  lemma {:induction false} EnvelopeIsGeometric(d: real, n: nat)
    ensures Envelope(d, n) == Pow(RATE, n) * d
  {
    if n > 0 {
      EnvelopeIsGeometric(d, n - 1);
      assert Pow(RATE, n) * d == RATE * (Pow(RATE, n - 1) * d);
    }
  }

  /** Under a constant input the estimate approaches it geometrically and never crosses it. */
  lemma {:induction false} Converges(f: Filter, c: real, n: nat)
    requires InBand(f)
    ensures Abs(Repeat(f, c, n).x - c) <= Envelope(Abs(f.x - c), n)
    ensures f.x <= c ==> Repeat(f, c, n).x <= c
    ensures f.x >= c ==> Repeat(f, c, n).x >= c
  {
    if n > 0 {
      Converges(f, c, n - 1);
      StepToward(Repeat(f, c, n - 1), c, Envelope(Abs(f.x - c), n - 1));
    }
  }

  lemma StepToward(h: Filter, c: real, bound: real)
    requires InBand(h) && Abs(h.x - c) <= bound
    ensures Abs(Step(h, c).x - c) <= RATE * bound
    ensures h.x <= c ==> Step(h, c).x <= c
    ensures h.x >= c ==> Step(h, c).x >= c
  {
    StepKeepsBand(h, c);
    StepMovesByGain(h, c);
    MoveToward(h.x, c, Step(h, c).k, bound);
  }

  lemma StepMovesByGain(f: Filter, z: real)
    requires InBand(f)
    ensures Step(f, z).x == f.x + Step(f, z).k * (z - f.x)
  {
  }

  lemma MoveToward(x: real, c: real, k: real, bound: real)
    requires MIN_GAIN <= k <= 1.0 && Abs(x - c) <= bound
    ensures var y := x + k * (c - x);
            Abs(y - c) <= RATE * bound && (x <= c ==> y <= c) && (x >= c ==> y >= c)
  {
    assert x + k * (c - x) - c == (1.0 - k) * (x - c);
    Contract(1.0 - k, x - c, RATE, bound);
  }

  lemma Contract(m: real, e: real, b: real, bound: real)
    requires 0.0 <= m <= b && Abs(e) <= bound
    ensures Abs(m * e) <= b * bound
    ensures e <= 0.0 ==> m * e <= 0.0
    ensures e >= 0.0 ==> m * e >= 0.0
  {
    assert Abs(m * e) == m * Abs(e);
    assert m * Abs(e) <= b * Abs(e) <= b * bound;
  }
}
