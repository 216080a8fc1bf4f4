/**
  * The predictor's integer helpers, and the two adaptive filters as functions on values.
  *
  * The filter values here are the reference: taps and the last `order` samples, nothing else. They
  * have no fast flag, no window position, no int32 form and no vector lanes. The classes that carry
  * those are proved against these functions.
  */
module Predictor {
  import opened Machine

  const TAP_SCALE: int := 0x1_0000      // Q16
  const HALF_SCALE: int := 0x8000
  const TAP_LIMIT: int := 0x100_0000    // 2^24
  const MAX_PRODUCT: int := 0x80_0000_0000_0000 // 2^55, a tap times an int32 sample
  const MAX_MU: nat := 0x3F7F_FFFF      // the largest step that cannot take an int32 tap out of int32
  const LEAK_COMPLEX: int := 0x4000     // 2^14
  const LEAK_REAL: int := 0x1_0000      // 2^16

  // -1, 0 or +1.
  function PredSign(v: int): (s: int)
    ensures -1 <= s <= 1 && (s == 1 <==> v > 0) && (s == -1 <==> v < 0)
  {
    (if v > 0 then 1 else 0) - (if v < 0 then 1 else 0)
  }

  // Division by 2^16 to nearest, ties away from zero, through the unsigned magnitude.
  function PredRoundShift(v: int): (r: int)
    requires FitsS64(v)
    ensures v >= 0 ==> r >= 0 && -HALF_SCALE <= v - TAP_SCALE * r < HALF_SCALE
    ensures v < 0 ==> r <= 0 && -HALF_SCALE < v - TAP_SCALE * r <= HALF_SCALE
  {
    Magnitude(v);
    Nearest(Abs(v));
    if v < 0 then
      var mag := WrapU64(0 - WrapU64(v));
      -WrapS64(WrapU64(mag + HALF_SCALE) / TAP_SCALE)
    else
      WrapS64(WrapU64(WrapU64(v) + HALF_SCALE) / TAP_SCALE)
  }

  lemma Nearest(m: nat)
    requires m <= TWO_63
    ensures var q := WrapS64(WrapU64(m + HALF_SCALE) / TAP_SCALE);
            q >= 0 && -HALF_SCALE <= m - TAP_SCALE * q < HALF_SCALE
  {
    assert WrapU64(m + HALF_SCALE) == m + HALF_SCALE;
  }

  // The magnitude divided by `scale`, truncated, with the sign put back.
  function PredLeak(w: int, scale: int): (r: int)
    requires scale == LEAK_COMPLEX || scale == LEAK_REAL
    requires FitsS64(w)
    ensures r == if w < 0 then -(-w / scale) else w / scale
    ensures if w < 0 then w <= r <= 0 else 0 <= r <= w
  {
    Magnitude(w);
    DivideShrinks(Abs(w), scale);
    if w < 0 then -WrapS64(WrapU64(0 - WrapU64(w)) / scale) else WrapS64(WrapU64(w) / scale)
  }

  // |w| through unsigned arithmetic, where the negation cannot overflow.
  lemma Magnitude(w: int)
    requires FitsS64(w)
    ensures if w < 0 then WrapU64(0 - WrapU64(w)) == -w else WrapU64(w) == w
  {
  }

  lemma DivideShrinks(m: nat, scale: int)
    requires scale == LEAK_COMPLEX || scale == LEAK_REAL
    ensures 0 <= m / scale <= m / 2
    ensures m <= TWO_63 ==> WrapS64(m / scale) == m / scale
  {
  }

  function PredClampTap(w: int): (r: int)
    ensures -TAP_LIMIT <= r <= TAP_LIMIT
    ensures Abs(w) <= TAP_LIMIT ==> r == w
  {
    if w > TAP_LIMIT then TAP_LIMIT else if w < -TAP_LIMIT then -TAP_LIMIT else w
  }

  // Window length kept for a filter of `order` taps.
  function PredHistoryLen(order: nat): (n: nat)
    ensures n > order
  {
    var n := order * 8;
    if n < 64 then 64 else n
  }

  predicate Bounded(s: seq<int>, m: int) {
    forall j :: 0 <= j < |s| ==> -m <= s[j] <= m
  }

  // Taps inside the clamp.
  type Taps = s: seq<int> | Bounded(s, TAP_LIMIT)

  predicate AllFitS32(s: seq<int>) { forall j :: 0 <= j < |s| ==> FitsS32(s[j]) }

  type Samples32 = s: seq<int> | AllFitS32(s)

  // The first n products of two sequences, summed exactly.
  function Dot(a: seq<int>, b: seq<int>, n: nat): int
    requires n <= |a| && n <= |b|
  {
    if n == 0 then 0 else Dot(a, b, n - 1) + a[n - 1] * b[n - 1]
  }

  lemma ProductBound(x: int, y: int, p: nat, q: nat)
    requires Abs(x) <= p && Abs(y) <= q
    ensures -(p * q) <= x * y <= p * q
  {
    var u, v := Abs(x), Abs(y);
    assert u * v <= p * v <= p * q;
    assert x * y == u * v || x * y == -(u * v);
  }

  lemma {:induction false} DotBound(a: seq<int>, b: seq<int>, n: nat, p: nat, q: nat)
    requires n <= |a| && n <= |b|
    requires Bounded(a, p) && Bounded(b, q)
    ensures -(n * (p * q)) <= Dot(a, b, n) <= n * (p * q)
  {
    if n > 0 {
      DotBound(a, b, n - 1, p, q);
      ProductBound(a[n - 1], b[n - 1], p, q);
      assert n * (p * q) == (n - 1) * (p * q) + p * q;
    }
  }

  function Slide(h: seq<int>, x: int): (r: seq<int>)
    requires |h| > 0
    ensures |r| == |h|
  {
    h[1..] + [x]
  }

  // ---- The complex filter -------------------------------------------------------------------

  datatype ComplexFilter = ComplexFilter(mu: nat, wr: Taps, wi: Taps, hr: seq<int>, hi: seq<int>) {
    predicate Ok() {
      0 < |wr| == |wi| == |hr| == |hi|
    }

    function SumR(): int
      requires Ok()
    {
      Dot(wr, hr, |wr|) - Dot(wi, hi, |wr|)
    }

    function SumI(): int
      requires Ok()
    {
      Dot(wr, hi, |wr|) + Dot(wi, hr, |wr|)
    }

    function Predict(): (int, int)
      requires Ok()
    {
      (PredRoundShift(WrapS64(SumR())), PredRoundShift(WrapS64(SumI())))
    }

    // Its residual can be computed in int64.
    predicate CanForward(x: (int, int))
      requires Ok()
    {
      FitsS64(x.0) && FitsS64(x.1) && FitsS64(x.0 - Predict().0) && FitsS64(x.1 - Predict().1)
    }

    // Its sample can be computed in int64.
    predicate CanInverse(e: (int, int))
      requires Ok()
    {
      FitsS64(e.0) && FitsS64(e.1) && FitsS64(e.0 + Predict().0) && FitsS64(e.1 + Predict().1)
    }

    // What one update adds to tap j before the leak: mu against the conjugate of the history.
    function NudgeR(er: int, ei: int, j: nat): int
      requires j < |hr| == |hi|
    {
      mu * PredSign(er) * PredSign(hr[j]) + mu * PredSign(ei) * PredSign(hi[j])
    }

    function NudgeI(er: int, ei: int, j: nat): int
      requires j < |hr| == |hi|
    {
      mu * PredSign(ei) * PredSign(hr[j]) - mu * PredSign(er) * PredSign(hi[j])
    }

    function NewR(er: int, ei: int, j: nat): int
      requires Ok() && j < |wr|
    {
      PredClampTap(wr[j] + NudgeR(er, ei, j) - PredLeak(wr[j], LEAK_COMPLEX))
    }

    function NewI(er: int, ei: int, j: nat): int
      requires Ok() && j < |wr|
    {
      PredClampTap(wi[j] + NudgeI(er, ei, j) - PredLeak(wi[j], LEAK_COMPLEX))
    }

    function AdaptedR(er: int, ei: int): (r: Taps)
      requires Ok()
      ensures |r| == |wr|
    {
      if er == 0 && ei == 0 then wr else seq(|wr|, j requires 0 <= j < |wr| => NewR(er, ei, j))
    }

    function AdaptedI(er: int, ei: int): (r: Taps)
      requires Ok()
      ensures |r| == |wr|
    {
      if er == 0 && ei == 0 then wi else seq(|wi|, j requires 0 <= j < |wi| => NewI(er, ei, j))
    }

    // One step with residual e and sample x: adapt always clamping, then take x into the history.
    function Step(e: (int, int), x: (int, int)): (f: ComplexFilter)
      requires Ok()
      ensures f.Ok() && f.mu == mu && |f.wr| == |wr|
    {
      ComplexFilter(mu, AdaptedR(e.0, e.1), AdaptedI(e.0, e.1), Slide(hr, x.0), Slide(hi, x.1))
    }

    function Forward(x: (int, int)): (r: ((int, int), ComplexFilter))
      requires Ok()
      ensures r.1.Ok() && r.1.mu == mu && |r.1.wr| == |wr|
    {
      var p := Predict();
      var e := (x.0 - p.0, x.1 - p.1);
      (e, Step(e, x))
    }

    function Inverse(e: (int, int)): (r: ((int, int), ComplexFilter))
      requires Ok()
      ensures r.1.Ok() && r.1.mu == mu && |r.1.wr| == |wr|
    {
      var p := Predict();
      var x := (e.0 + p.0, e.1 + p.1);
      (x, Step(e, x))
    }
  }

  // Whatever taps and history, no prediction passes 2^47: only a sample or residual that far out can fail to
  // fit.
  lemma PredictionBound(f: ComplexFilter)
    requires f.Ok()
    ensures Abs(f.Predict().0) <= TWO_63 / TAP_SCALE && Abs(f.Predict().1) <= TWO_63 / TAP_SCALE
    ensures forall x: (int, int) :: FitsS32(x.0) && FitsS32(x.1) ==> f.CanForward(x) && f.CanInverse(x)
  {
    hide Dot;
  }

  // Frame i of an interleaved sequence.
  function Frame(s: seq<int>, i: nat): (int, int)
    requires 2 * i + 2 <= |s|
  {
    (s[2 * i], s[2 * i + 1])
  }

  // The first n frames of residuals inverted one after another: the samples, and where it leaves f.
  function InverseFrames(f: ComplexFilter, es: seq<int>, n: nat): (r: (seq<int>, ComplexFilter))
    requires f.Ok() && 2 * n <= |es|
    ensures |r.0| == 2 * n && r.1.Ok() && r.1.mu == f.mu && |r.1.wr| == |f.wr|
  {
    if n == 0 then ([], f)
    else
      var done := InverseFrames(f, es, n - 1);
      var (x, g) := done.1.Inverse(Frame(es, n - 1));
      (done.0 + [x.0, x.1], g)
  }

  // The int16 conversion of every sample.
  function Truncate16(s: seq<int>): (r: seq<int>)
    ensures |r| == |s|
  {
    seq(|s|, j requires 0 <= j < |s| => WrapS16(s[j]))
  }

  lemma TruncateFrame(s: seq<int>, a: int, b: int)
    ensures Truncate16(s + [a, b]) == Truncate16(s) + [WrapS16(a), WrapS16(b)]
  {
  }

  function NewComplexFilter(order: nat, mu: nat): (f: ComplexFilter)
    requires order > 0
    ensures f.Ok() && |f.wr| == order && f.mu == mu
  {
    var z := seq(order, _ => 0);
    ComplexFilter(mu, z, z, z, z)
  }

  // A step moves a tap by at most 2*mu away from zero, clamped or not.
  lemma ComplexNudge(f: ComplexFilter, er: int, ei: int, j: nat)
    requires f.Ok() && j < |f.wr|
    ensures Abs(f.NudgeR(er, ei, j)) <= 2 * f.mu && Abs(f.NudgeI(er, ei, j)) <= 2 * f.mu
    ensures Abs(f.wr[j] + f.NudgeR(er, ei, j) - PredLeak(f.wr[j], LEAK_COMPLEX)) <= Abs(f.wr[j]) + 2 * f.mu
    ensures Abs(f.wi[j] + f.NudgeI(er, ei, j) - PredLeak(f.wi[j], LEAK_COMPLEX)) <= Abs(f.wi[j]) + 2 * f.mu
  {
    SignedStep(f.mu, er, f.hr[j]);
    SignedStep(f.mu, ei, f.hi[j]);
    SignedStep(f.mu, ei, f.hr[j]);
    SignedStep(f.mu, er, f.hi[j]);
  }

  // How far a change (dr, di) of a tap with history (hr, hi) moves the prediction along (a, b).
  function Along(a: int, b: int, dr: int, di: int, hr: int, hi: int): int {
    a * (dr * hr - di * hi) + b * (dr * hi + di * hr)
  }

  // The step goes downhill: along the signs of the error, what it adds to tap j moves the prediction by mu
  // times the magnitudes of the history, never against them.
  lemma ComplexDescent(f: ComplexFilter, er: int, ei: int, j: nat)
    requires f.Ok() && j < |f.wr|
    ensures Along(PredSign(er), PredSign(ei), f.NudgeR(er, ei, j), f.NudgeI(er, ei, j), f.hr[j], f.hi[j])
            == (Abs(PredSign(er)) + Abs(PredSign(ei))) * (f.mu * Abs(f.hr[j]) + f.mu * Abs(f.hi[j]))
  {
    hide Along, PredSign, Abs;
    var hr, hi := f.hr[j], f.hi[j];
    var a, b, s, t := PredSign(er), PredSign(ei), PredSign(hr), PredSign(hi);
    NudgeFactors(f, er, ei, j);
    AlongScaled(a, b, a * s + b * t, b * s - a * t, f.mu, hr, hi);
    CrossTerms(a, b, s, t, f.mu * hr, f.mu * hi);
    MagnitudeBySign(f.mu, hr);
    MagnitudeBySign(f.mu, hi);
    SignSquare(a);
    SignSquare(b);
  }

  lemma NudgeFactors(f: ComplexFilter, er: int, ei: int, j: nat)
    requires f.Ok() && j < |f.wr|
    ensures var a, b, s, t := PredSign(er), PredSign(ei), PredSign(f.hr[j]), PredSign(f.hi[j]);
            f.NudgeR(er, ei, j) == (a * s + b * t) * f.mu && f.NudgeI(er, ei, j) == (b * s - a * t) * f.mu
  {
    hide PredSign;
    var a, b, s, t := PredSign(er), PredSign(ei), PredSign(f.hr[j]), PredSign(f.hi[j]);
    SignProduct(f.mu, a, s);
    SignProduct(f.mu, b, t);
    SignProduct(f.mu, b, s);
    SignProduct(f.mu, a, t);
  }

  lemma AlongScaled(a: int, b: int, k: int, l: int, mu: int, hr: int, hi: int)
    ensures Along(a, b, k * mu, l * mu, hr, hi) == Along(a, b, k, l, mu * hr, mu * hi)
  {
    Factor(k, mu, hr); Factor(k, mu, hi); Factor(l, mu, hr); Factor(l, mu, hi);
  }

  lemma Scaled(mu: int, k: int, h: int)
    ensures k * mu * h == k * (mu * h)
  {
  }

  lemma SignProduct(mu: int, a: int, s: int)
    ensures mu * a * s == (a * s) * mu
  {
  }

  lemma MagnitudeBySign(mu: int, h: int)
    ensures mu * Abs(h) == PredSign(h) * (mu * h)
  {
  }

  // The cross terms of the conjugate cancel, and every other term is a square of a sign.
  lemma CrossTerms(a: int, b: int, s: int, t: int, u: int, v: int)
    ensures Along(a, b, a * s + b * t, b * s - a * t, u, v) == (a * a + b * b) * (s * u + t * v)
  {
    var k, l, q := a * s + b * t, b * s - a * t, a * a + b * b;
    Gather(a, b, k, l, u, v);
    Cancel(a, b, s, t);
    assert a * k + b * l == q * s && b * k - a * l == q * t;
    Factor(q, s, u);
    Factor(q, t, v);
  }

  lemma Factor(q: int, s: int, u: int)
    ensures (q * s) * u == q * (s * u)
  {
  }

  lemma Gather(a: int, b: int, k: int, l: int, u: int, v: int)
    ensures a * (k * u - l * v) + b * (k * v + l * u) == (a * k + b * l) * u + (b * k - a * l) * v
  {
    Factor(a, k, u); Factor(a, l, v); Factor(b, k, v); Factor(b, l, u);
    assert a * (k * u - l * v) == a * (k * u) - a * (l * v) && b * (k * v + l * u) == b * (k * v) + b * (l * u);
    assert (a * k + b * l) * u == (a * k) * u + (b * l) * u && (b * k - a * l) * v == (b * k) * v - (a * l) * v;
  }

  lemma Cancel(a: int, b: int, s: int, t: int)
    ensures a * (a * s + b * t) + b * (b * s - a * t) == (a * a + b * b) * s
    ensures b * (a * s + b * t) - a * (b * s - a * t) == (a * a + b * b) * t
  {
    Factor(a, a, s); Factor(b, b, s); Factor(a, b, t); Factor(b, a, t);
    Factor(a, a, t); Factor(b, b, t); Factor(a, b, s); Factor(b, a, s);
    assert a * (a * s + b * t) == a * (a * s) + a * (b * t) && b * (b * s - a * t) == b * (b * s) - b * (a * t);
    assert b * (a * s + b * t) == b * (a * s) + b * (b * t) && a * (b * s - a * t) == a * (b * s) - a * (a * t);
    assert (a * a + b * b) * s == (a * a) * s + (b * b) * s && (a * a + b * b) * t == (a * a) * t + (b * b) * t;
    assert a * b == b * a;
  }

  lemma SignSquare(a: int)
    requires -1 <= a <= 1
    ensures a * a == Abs(a)
  {
  }

  // The headroom argument for skipping the clamp: a step eats at most 2*mu of it.
  lemma ComplexHeadroom(f: ComplexFilter, e: (int, int), x: (int, int), room: nat)
    requires f.Ok()
    requires forall j :: 0 <= j < |f.wr| ==>
             Abs(f.wr[j]) + 2 * f.mu <= TAP_LIMIT - room && Abs(f.wi[j]) + 2 * f.mu <= TAP_LIMIT - room
    ensures var g := f.Step(e, x);
            forall j :: 0 <= j < |g.wr| ==> Abs(g.wr[j]) <= TAP_LIMIT - room && Abs(g.wi[j]) <= TAP_LIMIT - room
  {
    forall j: nat | j < |f.wr|
      ensures Abs(f.Step(e, x).wr[j]) <= TAP_LIMIT - room && Abs(f.Step(e, x).wi[j]) <= TAP_LIMIT - room
    {
      ComplexNudge(f, e.0, e.1, j);
    }
  }

  lemma SignedStep(mu: int, e: int, h: int)
    requires mu >= 0
    ensures mu * PredSign(e) * PredSign(h) in {-mu, 0, mu}
  {
  }

  // Prediction bound when taps respect the clamp and the history is within `m`.
  lemma ComplexSumBound(f: ComplexFilter, m: nat)
    requires f.Ok() && Bounded(f.hr, m) && Bounded(f.hi, m)
    ensures Abs(f.SumR()) <= 2 * (|f.wr| * (TAP_LIMIT * m))
    ensures Abs(f.SumI()) <= 2 * (|f.wr| * (TAP_LIMIT * m))
  {
    var n := |f.wr|;
    DotBound(f.wr, f.hr, n, TAP_LIMIT, m);
    DotBound(f.wi, f.hi, n, TAP_LIMIT, m);
    DotBound(f.wr, f.hi, n, TAP_LIMIT, m);
    DotBound(f.wi, f.hr, n, TAP_LIMIT, m);
  }

  // ---- The real filter ----------------------------------------------------------------------

  datatype RealFilter = RealFilter(mu: nat, w: Taps, h: seq<int>) {
    predicate Ok() {
      0 < |w| == |h|
    }

    function Predict(): int
      requires Ok()
    {
      PredRoundShift(WrapS64(Dot(w, h, |w|)))
    }

    // Its residual can be computed in int64.
    predicate CanForward(x: int)
      requires Ok()
    {
      FitsS64(x) && FitsS64(x - Predict())
    }

    // Its sample can be computed in int64.
    predicate CanInverse(e: int)
      requires Ok()
    {
      FitsS64(e) && FitsS64(e + Predict())
    }

    function Nudge(e: int, j: nat): int
      requires j < |h|
    {
      mu * PredSign(e) * PredSign(h[j])
    }

    function New(e: int, j: nat): int
      requires Ok() && j < |w|
    {
      PredClampTap(w[j] + Nudge(e, j) - PredLeak(w[j], LEAK_REAL))
    }

    function Adapted(e: int): (r: Taps)
      requires Ok()
      ensures |r| == |w|
    {
      if e == 0 then w else seq(|w|, j requires 0 <= j < |w| => New(e, j))
    }

    function Step(e: int, x: int): (f: RealFilter)
      requires Ok()
      ensures f.Ok() && f.mu == mu && |f.w| == |w|
    {
      RealFilter(mu, Adapted(e), Slide(h, x))
    }

    function Forward(x: int): (r: (int, RealFilter))
      requires Ok()
      ensures r.1.Ok() && r.1.mu == mu && |r.1.w| == |w|
    {
      var e := x - Predict();
      (e, Step(e, x))
    }

    function Inverse(e: int): (r: (int, RealFilter))
      requires Ok()
      ensures r.1.Ok() && r.1.mu == mu && |r.1.w| == |w|
    {
      var x := e + Predict();
      (x, Step(e, x))
    }
  }

  lemma RealPredictionBound(f: RealFilter)
    requires f.Ok()
    ensures Abs(f.Predict()) <= TWO_63 / TAP_SCALE
  {
    hide Dot;
  }

  function NewRealFilter(order: nat, mu: nat): (f: RealFilter)
    requires order > 0
    ensures f.Ok() && |f.w| == order && f.mu == mu
  {
    var z := seq(order, _ => 0);
    RealFilter(mu, z, z)
  }

  lemma RealNudge(f: RealFilter, e: int, j: nat)
    requires f.Ok() && j < |f.w|
    ensures Abs(f.Nudge(e, j)) <= f.mu
    ensures Abs(f.w[j] + f.Nudge(e, j) - PredLeak(f.w[j], LEAK_REAL)) <= Abs(f.w[j]) + f.mu
  {
    SignedStep(f.mu, e, f.h[j]);
  }

  lemma RealDescent(f: RealFilter, e: int, j: nat)
    requires f.Ok() && j < |f.w|
    ensures PredSign(e) * (f.Nudge(e, j) * f.h[j]) == Abs(PredSign(e)) * (f.mu * Abs(f.h[j]))
  {
    var a, s, h := PredSign(e), PredSign(f.h[j]), f.h[j];
    SignProduct(f.mu, a, s);
    Scaled(f.mu, a * s, h);
    MagnitudeBySign(f.mu, h);
    Factor(a, s, f.mu * h);
    Factor(a, a, s * (f.mu * h));
    assert a * a == Abs(a);
  }
}
