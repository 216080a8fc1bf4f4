/**
  * The vector kernels of the order-16 complex filter, lane by lane: AVX2 (two registers of eight
  * int32 lanes, products of even and of odd lanes) and NEON (four registers of four lanes, two
  * accumulators). A 16-lane register file is one sequence; a register is a slice of it.
  */
module BlockKernels {
  import opened Machine
  import opened Predictor

  datatype Simd = NoSimd | Avx2 | Neon

  // What the kernels load: taps inside the clamp, samples in int32, sixteen lanes of each.
  ghost predicate Lanes(w: seq<int>, h: seq<int>) {
    |w| == |h| == 16 && Bounded(w, TAP_LIMIT) && Bounded(h, TWO_31)
  }


  // The lane products of a multiply.
  function Products(w: seq<int>, h: seq<int>): (p: seq<int>)
    requires Lanes(w, h)
    ensures |p| == 16 && Bounded(p, MAX_PRODUCT)
  {
    LaneProducts(w, h);
    seq(16, j requires 0 <= j < 16 => w[j] * h[j])
  }

  lemma LaneProducts(w: seq<int>, h: seq<int>)
    requires Lanes(w, h)
    ensures forall j :: 0 <= j < 16 ==> -MAX_PRODUCT <= w[j] * h[j] <= MAX_PRODUCT
  {
    forall j | 0 <= j < 16
      ensures -MAX_PRODUCT <= w[j] * h[j] <= MAX_PRODUCT
    {
      ProductBound(w[j], h[j], TAP_LIMIT, TWO_31);
      assert TAP_LIMIT * TWO_31 == MAX_PRODUCT;
    }
  }

  // int64 lane l of (even products + odd products) over both AVX2 registers.
  function Avx2Lane(p: seq<int>, l: nat): (r: int)
    requires |p| == 16 && Bounded(p, MAX_PRODUCT) && l < 4
    ensures Abs(r) <= 4 * MAX_PRODUCT
  {
    I64(I64(p[2 * l] + p[2 * l + 1]) + I64(p[8 + 2 * l] + p[8 + 2 * l + 1]))
  }

  // One lane of one NEON accumulator after its four registers: lanes c, c+4, c+8 and c+12.
  function NeonLane(p: seq<int>, c: nat): (r: int)
    requires |p| == 16 && Bounded(p, MAX_PRODUCT) && c < 4
    ensures Abs(r) <= 4 * MAX_PRODUCT
  {
    I64(I64(I64(p[c] + p[4 + c]) + p[8 + c]) + p[12 + c])
  }

  function KernelLane(simd: Simd, p: seq<int>, l: nat): (r: int)
    requires |p| == 16 && Bounded(p, MAX_PRODUCT) && l < 4
    ensures Abs(r) <= 4 * MAX_PRODUCT
  {
    if simd == Neon then NeonLane(p, l) else Avx2Lane(p, l)
  }

  // Horizontal sum: the halves together, then the two lanes that remain.
  function HorizontalSum(a0: int, a1: int, a2: int, a3: int): (r: int)
    requires Abs(a0) <= 8 * MAX_PRODUCT && Abs(a1) <= 8 * MAX_PRODUCT
    requires Abs(a2) <= 8 * MAX_PRODUCT && Abs(a3) <= 8 * MAX_PRODUCT
    ensures Abs(r) <= 32 * MAX_PRODUCT
  {
    I64(I64(a0 + a2) + I64(a1 + a3))
  }

  // The sum of one product vector less, or plus, that of another.
  function SumDifference(simd: Simd, p: seq<int>, q: seq<int>): int
    requires |p| == |q| == 16 && Bounded(p, MAX_PRODUCT) && Bounded(q, MAX_PRODUCT)
  {
    HorizontalSum(KernelLane(simd, p, 0) - KernelLane(simd, q, 0), KernelLane(simd, p, 1) - KernelLane(simd, q, 1),
                  KernelLane(simd, p, 2) - KernelLane(simd, q, 2), KernelLane(simd, p, 3) - KernelLane(simd, q, 3))
  }

  function SumTotal(simd: Simd, p: seq<int>, q: seq<int>): int
    requires |p| == |q| == 16 && Bounded(p, MAX_PRODUCT) && Bounded(q, MAX_PRODUCT)
  {
    HorizontalSum(KernelLane(simd, p, 0) + KernelLane(simd, q, 0), KernelLane(simd, p, 1) + KernelLane(simd, q, 1),
                  KernelLane(simd, p, 2) + KernelLane(simd, q, 2), KernelLane(simd, p, 3) + KernelLane(simd, q, 3))
  }

  function Prefix(p: seq<int>, n: nat): int
    requires n <= |p|
  {
    if n == 0 then 0 else Prefix(p, n - 1) + p[n - 1]
  }

  lemma PrefixUnrolled(p: seq<int>)
    requires |p| == 16
    ensures Prefix(p, 16) == p[0] + p[1] + p[2] + p[3] + p[4] + p[5] + p[6] + p[7]
                           + p[8] + p[9] + p[10] + p[11] + p[12] + p[13] + p[14] + p[15]
  {
    PrefixStep(p, 0); PrefixStep(p, 1); PrefixStep(p, 2); PrefixStep(p, 3);
    PrefixStep(p, 4); PrefixStep(p, 5); PrefixStep(p, 6); PrefixStep(p, 7);
    PrefixStep(p, 8); PrefixStep(p, 9); PrefixStep(p, 10); PrefixStep(p, 11);
    PrefixStep(p, 12); PrefixStep(p, 13); PrefixStep(p, 14); PrefixStep(p, 15);
  }

  lemma PrefixStep(p: seq<int>, n: nat)
    requires n < |p|
    ensures Prefix(p, n + 1) == Prefix(p, n) + p[n] && Prefix(p, 0) == 0
  {
  }

  lemma {:induction false} PrefixIsDot(w: seq<int>, h: seq<int>, n: nat)
    requires Lanes(w, h) && n <= 16
    ensures Prefix(Products(w, h), n) == Dot(w, h, n)
  {
    if n > 0 {
      PrefixIsDot(w, h, n - 1);
    }
  }

  lemma LanesAddUp(simd: Simd, p: seq<int>, q: seq<int>)
    requires |p| == |q| == 16 && Bounded(p, MAX_PRODUCT) && Bounded(q, MAX_PRODUCT)
    ensures SumDifference(simd, p, q) == Prefix(p, 16) - Prefix(q, 16)
    ensures SumTotal(simd, p, q) == Prefix(p, 16) + Prefix(q, 16)
    ensures Abs(SumDifference(simd, p, q)) <= 32 * MAX_PRODUCT && Abs(SumTotal(simd, p, q)) <= 32 * MAX_PRODUCT
  {
    PrefixUnrolled(p);
    PrefixUnrolled(q);
  }

  // However the lanes are split, a kernel's sums are the per-frame ones, and never leave int64.
  lemma KernelSums(simd: Simd, f: ComplexFilter)
    requires Lanes(f.wr, f.hr) && Lanes(f.wi, f.hi) && Lanes(f.wr, f.hi) && Lanes(f.wi, f.hr)
    ensures SumDifference(simd, Products(f.wr, f.hr), Products(f.wi, f.hi)) == f.SumR()
    ensures SumTotal(simd, Products(f.wr, f.hi), Products(f.wi, f.hr)) == f.SumI()
    ensures FitsS64(f.SumR()) && FitsS64(-f.SumR()) && FitsS64(f.SumI()) && FitsS64(-f.SumI())
  {
    hide Prefix, Dot, SumDifference, SumTotal;
    LanesAddUp(simd, Products(f.wr, f.hr), Products(f.wi, f.hi));
    LanesAddUp(simd, Products(f.wr, f.hi), Products(f.wi, f.hr));
    PrefixIsDot(f.wr, f.hr, 16);
    PrefixIsDot(f.wi, f.hi, 16);
    PrefixIsDot(f.wr, f.hi, 16);
    PrefixIsDot(f.wi, f.hr, 16);
  }

  // x ^ s for a sign mask s, which is 0 or -1: in two's complement x ^ -1 is -x - 1.
  function XorMask(x: int, s: int): int
    requires s == 0 || s == -1
  {
    if s == 0 then x else -x - 1
  }

  // v >> 63 or w >> 31, arithmetic.
  function SignMask(v: int): int { if v < 0 then -1 else 0 }

  function Rounded(m: int): (q: int)
    requires 0 <= m <= TWO_63
    ensures 0 <= q <= TWO_63 / TAP_SCALE
  {
    WrapU64(m + HALF_SCALE) / TAP_SCALE
  }

  lemma RoundCases(v: int)
    requires FitsS64(v)
    ensures v < 0 ==> PredRoundShift(v) == -Rounded(-v)
    ensures v >= 0 ==> PredRoundShift(v) == Rounded(v)
  {
    Magnitude(v);
  }

  // The sign put back in two's complement: nothing to wrap.
  lemma SignBack(q: int, s: int)
    requires 0 <= q <= TWO_63 / TAP_SCALE && (s == 0 || s == -1)
    ensures s == 0 ==> WrapS64(XorMask(q, s)) - s == q
    ensures s == -1 ==> WrapS64(XorMask(q, s)) - s == -q
  {
  }

  // The kernels' rounding, by masks alone: the nearest integer to v / TAP_SCALE, halves away from zero, as the
  // branching form gives it.
  function RoundBranchless(v: int): (r: int)
    requires FitsS64(v) && FitsS64(-v)
    ensures r == PredRoundShift(v)
  {
    var s := SignMask(v);
    var mag := WrapU64(I64(XorMask(v, s) - s));
    assert mag == Abs(v);
    RoundCases(v);
    SignBack(Rounded(mag), s);
    I64(WrapS64(XorMask(WrapU64(mag + HALF_SCALE) / TAP_SCALE, s)) - s)
  }

  // The kernels' leak, by masks alone and inside int32: the same truncation toward zero as the branching form.
  function LeakBranchless(w: int): (r: int)
    requires Abs(w) <= TAP_LIMIT
    ensures r == PredLeak(w, LEAK_COMPLEX)
  {
    var s := SignMask(w);
    I32(XorMask(I32(XorMask(w, s) - s) / LEAK_COMPLEX, s) - s)
  }

  // _mm256_sign_epi32: a with the sign of b, or zero.
  function SignLane(a: int, b: int): int { if b < 0 then -a else if b == 0 then 0 else a }

  // A multiply by a lane holding -1, 0 or 1.
  function MulSign(s: int, m: int): (r: int)
    requires -1 <= s <= 1
    ensures r == SignLane(m, s)
  {
    s * m
  }

  // A comparison's lane mask.
  function Mask(c: bool): int { if c then -1 else 0 }

  function LaneMin(a: int, b: int): int { if a < b then a else b }

  function LaneMax(a: int, b: int): int { if a > b then a else b }

  // Lane j of the taps after an update, as each kernel computes it; always clamped.
  function UpdatedR(simd: Simd, wr: int, hr: int, hi: int, mr: int, mi: int): (r: int)
    requires Abs(wr) <= TAP_LIMIT && Abs(mr) <= MAX_MU && Abs(mi) <= MAX_MU
    ensures Abs(r) <= TAP_LIMIT
  {
    if simd == Neon then
      var sr, si := Mask(hr < 0) - Mask(hr > 0), Mask(hi < 0) - Mask(hi > 0);
      LaneMax(LaneMin(I32(I32(I32(wr + MulSign(sr, mr)) + MulSign(si, mi)) - LeakBranchless(wr)), TAP_LIMIT),
        -TAP_LIMIT)
    else
      var leak := SignLane(Abs(wr) / LEAK_COMPLEX, wr);
      LaneMax(LaneMin(I32(I32(wr + I32(SignLane(mr, hr) + SignLane(mi, hi))) - leak), TAP_LIMIT), -TAP_LIMIT)
  }

  function UpdatedI(simd: Simd, wi: int, hr: int, hi: int, mr: int, mi: int): (r: int)
    requires Abs(wi) <= TAP_LIMIT && Abs(mr) <= MAX_MU && Abs(mi) <= MAX_MU
    ensures Abs(r) <= TAP_LIMIT
  {
    if simd == Neon then
      var sr, si := Mask(hr < 0) - Mask(hr > 0), Mask(hi < 0) - Mask(hi > 0);
      LaneMax(LaneMin(I32(I32(I32(wi + MulSign(sr, mi)) - MulSign(si, mr)) - LeakBranchless(wi)), TAP_LIMIT),
        -TAP_LIMIT)
    else
      var leak := SignLane(Abs(wi) / LEAK_COMPLEX, wi);
      LaneMax(LaneMin(I32(I32(wi + I32(SignLane(mi, hr) - SignLane(mr, hi))) - leak), TAP_LIMIT), -TAP_LIMIT)
  }

  // A lane update is the reference's clamped one.
  lemma LaneUpdateR(simd: Simd, f: ComplexFilter, er: int, ei: int, j: nat, mr: int, mi: int)
    requires f.Ok() && j < |f.wr| && mr == f.mu * PredSign(er) && mi == f.mu * PredSign(ei)
    requires Abs(mr) <= MAX_MU && Abs(mi) <= MAX_MU
    ensures UpdatedR(simd, f.wr[j], f.hr[j], f.hi[j], mr, mi) == f.NewR(er, ei, j)
  {
    hide UpdatedR, SignLane, PredSign, PredLeak, PredClampTap, ComplexFilter.NudgeR;
    LaneNudges(f, er, ei, j, mr, mi);
    UpdatedRIs(simd, f.wr[j], f.hr[j], f.hi[j], mr, mi);
  }

  lemma LaneUpdateI(simd: Simd, f: ComplexFilter, er: int, ei: int, j: nat, mr: int, mi: int)
    requires f.Ok() && j < |f.wr| && mr == f.mu * PredSign(er) && mi == f.mu * PredSign(ei)
    requires Abs(mr) <= MAX_MU && Abs(mi) <= MAX_MU
    ensures UpdatedI(simd, f.wi[j], f.hr[j], f.hi[j], mr, mi) == f.NewI(er, ei, j)
  {
    hide UpdatedI, SignLane, PredSign, PredLeak, PredClampTap, ComplexFilter.NudgeI;
    LaneNudges(f, er, ei, j, mr, mi);
    UpdatedIIs(simd, f.wi[j], f.hr[j], f.hi[j], mr, mi);
  }

  // The adds of both kernels, and the two ways of clamping.
  lemma UpdatedRIs(simd: Simd, w: int, hr: int, hi: int, mr: int, mi: int)
    requires Abs(w) <= TAP_LIMIT && Abs(mr) <= MAX_MU && Abs(mi) <= MAX_MU
    ensures UpdatedR(simd, w, hr, hi, mr, mi)
            == PredClampTap(w + (SignLane(mr, hr) + SignLane(mi, hi)) - PredLeak(w, LEAK_COMPLEX))
  {
    LeakBySign(w);
    hide PredLeak;
  }

  lemma UpdatedIIs(simd: Simd, w: int, hr: int, hi: int, mr: int, mi: int)
    requires Abs(w) <= TAP_LIMIT && Abs(mr) <= MAX_MU && Abs(mi) <= MAX_MU
    ensures UpdatedI(simd, w, hr, hi, mr, mi)
            == PredClampTap(w + (SignLane(mi, hr) - SignLane(mr, hi)) - PredLeak(w, LEAK_COMPLEX))
  {
    LeakBySign(w);
    hide PredLeak;
  }

  lemma LaneNudges(f: ComplexFilter, er: int, ei: int, j: nat, mr: int, mi: int)
    requires f.Ok() && j < |f.wr| && mr == f.mu * PredSign(er) && mi == f.mu * PredSign(ei)
    ensures f.NudgeR(er, ei, j) == SignLane(mr, f.hr[j]) + SignLane(mi, f.hi[j])
    ensures f.NudgeI(er, ei, j) == SignLane(mi, f.hr[j]) - SignLane(mr, f.hi[j])
  {
    SignLaneTimes(mr, f.hr[j]);
    SignLaneTimes(mi, f.hi[j]);
    SignLaneTimes(mi, f.hr[j]);
    SignLaneTimes(mr, f.hi[j]);
  }

  lemma SignLaneTimes(m: int, h: int)
    ensures m * PredSign(h) == SignLane(m, h)
  {
  }

  lemma LeakBySign(w: int)
    requires Abs(w) <= TAP_LIMIT
    ensures SignLane(Abs(w) / LEAK_COMPLEX, w) == PredLeak(w, LEAK_COMPLEX)
  {
  }

  // The window a lane on: AVX2 rotates each register and blends in lane 7, NEON extracts.
  function SlideLanes(simd: Simd, h: seq<int>, x: int): (r: seq<int>)
    requires |h| == 16
    ensures r == Slide(h, x)
  {
    if simd == Neon then
      var q0, q1, q2, q3 := h[0..4], h[4..8], h[8..12], h[12..16];
      (q0[1..] + q1[..1]) + (q1[1..] + q2[..1]) + (q2[1..] + q3[..1]) + (q3[1..] + [x])
    else
      var r0, r1 := Rotate(h[..8]), Rotate(h[8..]);
      r0[7 := r1[7]] + r1[7 := x]
  }

  // _mm256_permutevar8x32_epi32 by (1, 2, ..., 7, 0).
  function Rotate(h: seq<int>): (r: seq<int>)
    requires |h| == 8
    ensures |r| == 8
  {
    h[1..] + h[..1]
  }
}
