/**
  * The complex stage in its int32 form, with the int64 filter that takes over at the first sample
  * outside int32. Both keep their history in a linear window that is slid back when it fills, may skip the
  * tap clamp for a packet, and are proved to compute `Predictor.ComplexFilter`.
  */
module ComplexStages {
  import opened Machine
  import opened Predictor
  import opened Histories
  import opened BlockKernels

  const MAX_ORDER: nat := 127   // the most taps whose sums of products are sure to fit int64

  /** The filter in int64, with the signs of its history cached beside it. */
  class Wide {
    var order: nat
    var mu: nat
    var fast: bool
    var idx: nat
    var wr: Taps
    var wi: Taps
    var hr: seq<int>
    var hi: seq<int>
    var sr: seq<int>
    var si: seq<int>
    // How many more updates the current packet may make.
    ghost var budget: nat

    constructor ()
    {
      order, mu, fast, idx, budget := 0, 0, false, 0, 0;
      wr, wi, hr, hi, sr, si := [], [], [], [], [], [];
    }

    ghost predicate Valid()
      reads this
    {
      && 0 < order <= MAX_ORDER && mu <= MAX_MU
      && |wr| == |wi| == order
      && |hr| == |hi| == PredHistoryLen(order)
      && order <= idx < |hr|
      && (fast ==> Room(wr, wi, Reach(2 * mu, budget)))
      && Signs(sr, hr) && Signs(si, hi)
    }

    ghost function Denote(): (f: ComplexFilter)
      requires Valid()
      reads this
      ensures f.Ok()
    {
      ComplexFilter(mu, wr, wi, Window(hr, order, idx), Window(hi, order, idx))
    }

    method Load(order: nat, mu: nat, fast: bool, idx: nat,
                wr: Taps, wi: Taps, hr: seq<int>, hi: seq<int>, ghost budget: nat)
      requires 0 < order <= MAX_ORDER && mu <= MAX_MU
      requires |wr| == |wi| == order && |hr| == |hi| == PredHistoryLen(order) && order <= idx < |hr|
      requires fast ==> Room(wr, wi, Reach(2 * mu, budget))
      modifies this
      ensures Valid() && this.budget == budget && this.order == order && this.mu == mu
      ensures Denote() == ComplexFilter(mu, wr, wi, Window(hr, order, idx), Window(hi, order, idx))
    {
      this.order, this.mu, this.fast, this.idx, this.budget := order, mu, fast, idx, budget;
      this.wr, this.wi, this.hr, this.hi := wr, wi, hr, hi;
      sr, si := [], [];
      for j := 0 to |hr|
        invariant |sr| == |si| == j
        invariant forall k :: 0 <= k < j ==> sr[k] == PredSign(hr[k]) && si[k] == PredSign(hi[k])
        invariant this.hr == hr && this.hi == hi && this.wr == wr && this.wi == wi
        invariant this.order == order && this.mu == mu && this.fast == fast && this.idx == idx && this.budget == budget
      {
        sr, si := sr + [PredSign(hr[j])], si + [PredSign(hi[j])];
      }
    }

    method BeginPacket(steps: nat)
      requires Valid()
      modifies this`fast, this`budget
      ensures Valid() && budget == steps && Denote() == old(Denote())
      ensures fast <==> Room(wr, wi, Reach(2 * mu, steps))
    {
      fast := DecideFast(wr, wi, mu, steps);
      budget := steps;
    }

    method Forward(xr: int, xi: int) returns (er: int, ei: int)
      requires Valid() && budget > 0 && Denote().CanForward((xr, xi))
      modifies this
      ensures Valid() && budget == old(budget) - 1 && order == old(order) && mu == old(mu)
      ensures ((er, ei), Denote()) == old(Denote()).Forward((xr, xi))
    {
      hide ComplexFilter.Predict, ComplexFilter.AdaptedR, ComplexFilter.AdaptedI, Slide, Window;
      ghost var f := Denote();
      var pr, pi := Predict();
      er, ei := I64(xr - pr), I64(xi - pi);
      Adapt(er, ei);
      Push(xr, xi);
      assert Denote() == f.Step((er, ei), (xr, xi));
    }

    method Inverse(er: int, ei: int) returns (xr: int, xi: int)
      requires Valid() && budget > 0 && Denote().CanInverse((er, ei))
      modifies this
      ensures Valid() && budget == old(budget) - 1 && order == old(order) && mu == old(mu)
      ensures ((xr, xi), Denote()) == old(Denote()).Inverse((er, ei))
    {
      hide ComplexFilter.Predict, ComplexFilter.AdaptedR, ComplexFilter.AdaptedI, Slide, Window;
      ghost var f := Denote();
      var pr, pi := Predict();
      xr, xi := I64(er + pr), I64(ei + pi);
      Adapt(er, ei);
      Push(xr, xi);
      assert Denote() == f.Step((er, ei), (xr, xi));
    }

    method Push(xr: int, xi: int)
      requires Valid()
      modifies this`hr, this`hi, this`sr, this`si, this`idx
      ensures Valid()
      ensures Window(hr, order, idx) == Slide(old(Window(hr, order, idx)), xr)
      ensures Window(hi, order, idx) == Slide(old(Window(hi, order, idx)), xi)
    {
      PushedWindow(hr, order, idx, xr);
      PushedWindow(hi, order, idx, xi);
      PushedSigns(sr, hr, order, idx, xr);
      PushedSigns(si, hi, order, idx, xi);
      var hr' := PushInto(hr, order, idx, xr);
      var hi' := PushInto(hi, order, idx, xi);
      var sr' := PushInto(sr, order, idx, PredSign(xr));
      var si' := PushInto(si, order, idx, PredSign(xi));
      idx := PushedIdx(|hr|, order, idx);
      hr, hi, sr, si := hr', hi', sr', si';
    }

    method Predict() returns (outR: int, outI: int)
      requires Valid()
      ensures (outR, outI) == Denote().Predict()
      ensures Abs(outR) <= TWO_63 / TAP_SCALE && Abs(outI) <= TWO_63 / TAP_SCALE
    {
      ghost var f := Denote();
      var lo := idx - order;
      var pr, pi := 0, 0;
      for j := 0 to order
        invariant pr == WrapU64(Dot(f.wr, f.hr, j) - Dot(f.wi, f.hi, j))
        invariant pi == WrapU64(Dot(f.wr, f.hi, j) + Dot(f.wi, f.hr, j))
      {
        var br, bi := hr[lo + j], hi[lo + j];
        var w, wiv := wr[j], wi[j];
        AccumulateSub(pr, Dot(f.wr, f.hr, j) - Dot(f.wi, f.hi, j), w, br, wiv, bi);
        AccumulateAdd(pi, Dot(f.wr, f.hi, j) + Dot(f.wi, f.hr, j), w, bi, wiv, br);
        pr := WrapU64(pr + WrapU64(MulU64(w, br) - MulU64(wiv, bi)));
        pi := WrapU64(pi + WrapU64(MulU64(w, bi) + MulU64(wiv, br)));
      }
      WrapU64Twice(f.SumR());
      WrapU64Twice(f.SumI());
      outR, outI := PredRoundShift(WrapS64(pr)), PredRoundShift(WrapS64(pi));
    }

    method Adapt(er: int, ei: int)
      requires Valid() && budget > 0
      modifies this`wr, this`wi, this`budget
      ensures Valid() && budget == old(budget) - 1
      ensures wr == old(Denote()).AdaptedR(er, ei) && wi == old(Denote()).AdaptedI(er, ei)
    {
      ghost var f := Denote();
      budget := budget - 1;
      if er == 0 && ei == 0 {
        return;
      }
      var mr, mi := mu * PredSign(er), mu * PredSign(ei);
      var r, i := WideAdaptTaps(f, er, ei, mr, mi, wr, wi, sr, si, idx - order, fast, Reach(2 * mu, budget));
      wr, wi := r, i;
    }
  }

  // The tap loop of `Wide.Adapt`. `room` is how far the taps may still move in this packet.
  method WideAdaptTaps(ghost f: ComplexFilter, ghost er: int, ghost ei: int, mr: int, mi: int,
                       wr: Taps, wi: Taps, sr: seq<int>, si: seq<int>, lo: nat, fast: bool, ghost room: nat)
    returns (r: Taps, i: Taps)
    requires f.Ok() && f.mu <= MAX_MU && f.wr == wr && f.wi == wi
    requires mr == f.mu * PredSign(er) && mi == f.mu * PredSign(ei)
    requires lo + |wr| <= |sr| == |si|
    requires forall j {:trigger f.hr[j]} ::
             0 <= j < |wr| ==> sr[lo + j] == PredSign(f.hr[j]) && si[lo + j] == PredSign(f.hi[j])
    requires fast ==> Room(wr, wi, room + 2 * f.mu)
    ensures Adapting(f, er, ei, r, i, |wr|)
    ensures fast ==> Room(r, i, room)
  {
    hide PredSign, ComplexFilter.NewR, ComplexFilter.NewI;
    r, i := wr, wi;
    for j := 0 to |wr|
      invariant Adapting(f, er, ei, r, i, j)
      invariant fast ==> forall k :: 0 <= k < j ==> Abs(r[k]) <= TAP_LIMIT - room && Abs(i[k]) <= TAP_LIMIT - room
    {
      var nr, ni := WideAdaptTap(f, er, ei, j, mr, mi, r[j], i[j], sr[lo + j], -si[lo + j], fast, room);
      r, i := r[j := nr], i[j := ni];
    }
  }

  method WideAdaptTap(ghost f: ComplexFilter, ghost er: int, ghost ei: int, ghost j: nat, mr: int, mi: int,
                      r: int, i: int, hrs: int, his: int, fast: bool, ghost room: nat)
    returns (nr: int, ni: int)
    requires f.Ok() && f.mu <= MAX_MU && j < |f.wr| && r == f.wr[j] && i == f.wi[j]
    requires mr == f.mu * PredSign(er) && mi == f.mu * PredSign(ei)
    requires hrs == PredSign(f.hr[j]) && his == -PredSign(f.hi[j])
    requires fast ==> Abs(r) <= TAP_LIMIT - room - 2 * f.mu && Abs(i) <= TAP_LIMIT - room - 2 * f.mu
    ensures nr == f.NewR(er, ei, j) && ni == f.NewI(er, ei, j)
    ensures Abs(nr) <= TAP_LIMIT && Abs(ni) <= TAP_LIMIT
    ensures fast ==> Abs(nr) <= TAP_LIMIT - room && Abs(ni) <= TAP_LIMIT - room
  {
    hide PredSign, PredLeak, ComplexFilter.NudgeR, ComplexFilter.NudgeI;
    var dr, di := mr * hrs - mi * his, mr * his + mi * hrs;
    ConjugateStep(f, er, ei, j, mr, mi, hrs, his);
    if fast {
      nr := I64(r + (dr - PredLeak(r, LEAK_COMPLEX)));
      ni := I64(i + (di - PredLeak(i, LEAK_COMPLEX)));
    } else {
      nr := PredClampTap(I64(r + dr - PredLeak(r, LEAK_COMPLEX)));
      ni := PredClampTap(I64(i + di - PredLeak(i, LEAK_COMPLEX)));
    }
  }

  lemma ConjugateStep(f: ComplexFilter, er: int, ei: int, j: nat, mr: int, mi: int, hrs: int, his: int)
    requires f.Ok() && j < |f.wr|
    requires mr == f.mu * PredSign(er) && mi == f.mu * PredSign(ei)
    requires hrs == PredSign(f.hr[j]) && his == -PredSign(f.hi[j])
    ensures mr * hrs - mi * his == f.NudgeR(er, ei, j) && mr * his + mi * hrs == f.NudgeI(er, ei, j)
    ensures Abs(f.wr[j] + f.NudgeR(er, ei, j) - PredLeak(f.wr[j], LEAK_COMPLEX)) <= Abs(f.wr[j]) + 2 * f.mu
    ensures Abs(f.wi[j] + f.NudgeI(er, ei, j) - PredLeak(f.wi[j], LEAK_COMPLEX)) <= Abs(f.wi[j]) + 2 * f.mu
  {
    ComplexNudge(f, er, ei, j);
    MulNegated(mi, PredSign(f.hi[j]));
    MulNegated(mr, PredSign(f.hi[j]));
  }

  lemma MulNegated(x: int, y: int)
    ensures x * -y == -(x * y)
  {
  }

  // The adapt loops of both classes: taps before j are the reference's new ones, the rest untouched.
  ghost predicate Adapting(f: ComplexFilter, er: int, ei: int, wr: seq<int>, wi: seq<int>, j: nat) {
    && f.Ok()
    && |wr| == |wi| == |f.wr|
    && j <= |wr|
    && (forall k :: 0 <= k < j ==> wr[k] == f.NewR(er, ei, k) && wi[k] == f.NewI(er, ei, k))
    && (forall k :: j <= k < |wr| ==> wr[k] == f.wr[k] && wi[k] == f.wi[k])
  }

  // A uint64 accumulator takes two products at once; it stays the exact sum modulo 2^64.
  lemma AccumulateSub(acc: int, exact: int, w: int, h: int, v: int, g: int)
    requires acc == WrapU64(exact)
    ensures WrapU64(acc + WrapU64(MulU64(w, h) - MulU64(v, g))) == WrapU64(exact + w * h - v * g)
  {
    hide WrapU64, MulU64;
    WrapMulAdd(acc, exact, w, h);
    WrapMulSub(WrapU64(exact + w * h), exact + w * h, v, g);
    Reassociate(acc, MulU64(w, h), MulU64(v, g));
  }

  lemma AccumulateAdd(acc: int, exact: int, w: int, h: int, v: int, g: int)
    requires acc == WrapU64(exact)
    ensures WrapU64(acc + WrapU64(MulU64(w, h) + MulU64(v, g))) == WrapU64(exact + w * h + v * g)
  {
    hide WrapU64, MulU64;
    WrapMulAdd(acc, exact, w, h);
    WrapMulAdd(WrapU64(exact + w * h), exact + w * h, v, g);
    Reassociate(acc, MulU64(w, h), MulU64(v, g));
  }

  lemma Reassociate(a: int, p: int, q: int)
    ensures WrapU64(a + WrapU64(p - q)) == WrapU64(WrapU64(a + p) - q)
    ensures WrapU64(a + WrapU64(p + q)) == WrapU64(WrapU64(a + p) + q)
  {
    ModShift(a + WrapU64(p - q), (p - q) / TWO_64, TWO_64);
    ModShift(WrapU64(a + p) - q, (a + p) / TWO_64, TWO_64);
    ModShift(a + WrapU64(p + q), (p + q) / TWO_64, TWO_64);
    ModShift(WrapU64(a + p) + q, (a + p) / TWO_64, TWO_64);
  }

  /** The stage as built: int32 throughout, until a sample does not fit. */
  class ComplexStage {
    const order: nat
    const mu: nat
    const wideStage: Wide
    var fast: bool
    var idx: nat
    var wide: bool
    var wr: Taps
    var wi: Taps
    var hr: Samples32
    var hi: Samples32
    ghost var steps: nat

    constructor (order: nat, mu: nat)
      requires 0 < order <= MAX_ORDER && mu <= MAX_MU
      ensures Valid() && fresh(this) && fresh(wideStage) && !wide
      ensures Denote() == NewComplexFilter(order, mu)
    {
      this.order, this.mu := order, mu;
      fast, idx, wide, steps := false, order, false, 0;
      wr, wi := seq(order, _ => 0), seq(order, _ => 0);
      hr, hi := seq(PredHistoryLen(order), _ => 0), seq(PredHistoryLen(order), _ => 0);
      wideStage := new Wide();
      new;
      assert Denote() == NewComplexFilter(order, mu);
    }

    ghost predicate Narrow()
      reads this
    {
      && |wr| == |wi| == order
      && |hr| == |hi| == PredHistoryLen(order)
      && order <= idx < |hr|
      && (fast ==> Room(wr, wi, Reach(2 * mu, steps)))
    }

    ghost predicate Valid()
      reads this, wideStage
    {
      && 0 < order <= MAX_ORDER && mu <= MAX_MU
      && (if wide then wideStage.Valid() && wideStage.order == order && wideStage.mu == mu else Narrow())
    }

    // The reference filter this stage stands for, whichever form it is in.
    ghost function Denote(): (f: ComplexFilter)
      requires Valid()
      reads this, wideStage
      ensures f.Ok() && f.mu == mu && |f.wr| == order
    {
      if wide then wideStage.Denote()
      else ComplexFilter(mu, wr, wi, Window(hr, order, idx), Window(hi, order, idx))
    }

    // How many more updates the current packet may make.
    ghost function Budget(): nat
      reads this, wideStage
    {
      if wide then wideStage.budget else steps
    }

    method BeginPacket(steps: nat)
      requires Valid()
      modifies this`fast, this`steps, wideStage
      ensures Valid() && Budget() == steps && Denote() == old(Denote())
    {
      if wide {
        wideStage.BeginPacket(steps);
        return;
      }
      fast := DecideFast(wr, wi, mu, steps);
      this.steps := steps;
    }

    method Forward(xr: int, xi: int) returns (er: int, ei: int)
      requires Valid() && Budget() > 0 && Denote().CanForward((xr, xi))
      modifies this, wideStage
      ensures Valid() && Budget() == old(Budget()) - 1
      ensures ((er, ei), Denote()) == old(Denote()).Forward((xr, xi))
      ensures wide <==> old(wide) || !FitsS32(xr) || !FitsS32(xi)
    {
      if wide {
        er, ei := wideStage.Forward(xr, xi);
      } else {
        er, ei := ForwardNarrow(xr, xi);
      }
    }

    method ForwardNarrow(xr: int, xi: int) returns (er: int, ei: int)
      requires Valid() && !wide && steps > 0 && Denote().CanForward((xr, xi))
      modifies this, wideStage
      ensures Valid() && Budget() == old(steps) - 1
      ensures ((er, ei), Denote()) == old(Denote()).Forward((xr, xi))
      ensures wide <==> !FitsS32(xr) || !FitsS32(xi)
    {
      hide ComplexFilter.Predict, ComplexFilter.AdaptedR, ComplexFilter.AdaptedI, Slide, Window;
      ghost var f := Denote();
      var pr, pi := Predict();
      er, ei := I64(xr - pr), I64(xi - pi);
      Adapt(er, ei);
      Push(xr, xi);
      assert Denote() == f.Step((er, ei), (xr, xi));
    }

    method Inverse(er: int, ei: int) returns (xr: int, xi: int)
      requires Valid() && Budget() > 0 && Denote().CanInverse((er, ei))
      modifies this, wideStage
      ensures Valid() && Budget() == old(Budget()) - 1
      ensures ((xr, xi), Denote()) == old(Denote()).Inverse((er, ei))
      ensures wide <==> old(wide) || !FitsS32(xr) || !FitsS32(xi)
    {
      if wide {
        xr, xi := wideStage.Inverse(er, ei);
      } else {
        xr, xi := InverseNarrow(er, ei);
      }
    }

    method InverseNarrow(er: int, ei: int) returns (xr: int, xi: int)
      requires Valid() && !wide && steps > 0 && Denote().CanInverse((er, ei))
      modifies this, wideStage
      ensures Valid() && Budget() == old(steps) - 1
      ensures ((xr, xi), Denote()) == old(Denote()).Inverse((er, ei))
      ensures wide <==> !FitsS32(xr) || !FitsS32(xi)
    {
      hide ComplexFilter.Predict, ComplexFilter.AdaptedR, ComplexFilter.AdaptedI, Slide, Window;
      ghost var f := Denote();
      var pr, pi := Predict();
      xr, xi := I64(er + pr), I64(ei + pi);
      Adapt(er, ei);
      Push(xr, xi);
      assert Denote() == f.Step((er, ei), (xr, xi));
    }

    method Predict() returns (outR: int, outI: int)
      requires Valid() && !wide
      ensures (outR, outI) == Denote().Predict()
      ensures Abs(outR) <= TWO_63 / TAP_SCALE && Abs(outI) <= TWO_63 / TAP_SCALE
    {
      var pr, pi := PredictSums(Denote(), wr, wi, hr, hi, idx - order);
      outR, outI := PredRoundShift(pr), PredRoundShift(pi);
    }

    method Adapt(er: int, ei: int)
      requires Valid() && !wide && steps > 0
      modifies this`wr, this`wi, this`steps
      ensures Valid() && steps == old(steps) - 1
      ensures wr == old(Denote()).AdaptedR(er, ei) && wi == old(Denote()).AdaptedI(er, ei)
    {
      ghost var f := Denote();
      steps := steps - 1;
      if er == 0 && ei == 0 {
        return;
      }
      var mr, mi := I32(mu * PredSign(er)), I32(mu * PredSign(ei));
      var r, i := AdaptTaps(f, er, ei, mr, mi, wr, wi, hr, hi, idx - order, fast, Reach(2 * mu, steps));
      wr, wi := r, i;
    }

    method Push(xr: int, xi: int)
      requires Valid() && !wide
      modifies this`hr, this`hi, this`idx, this`wide, wideStage
      ensures Valid() && Budget() == old(steps)
      ensures Denote() == ComplexFilter(mu, wr, wi, Slide(old(Denote()).hr, xr), Slide(old(Denote()).hi, xi))
      ensures wide <==> !FitsS32(xr) || !FitsS32(xi)
    {
      if xr < -TWO_31 || xr > TWO_31 - 1 || xi < -TWO_31 || xi > TWO_31 - 1 {
        GoWide(xr, xi);
      } else {
        PushNarrow(xr, xi);
      }
    }

    // Hands the filter, with its history and its steps left, to the int64 form, which takes the sample that did
    // not fit; nothing of what the stage denotes is lost.
    method GoWide(xr: int, xi: int)
      requires Valid() && !wide
      modifies this`wide, wideStage
      ensures Valid() && wide && Budget() == steps
      ensures Denote() == ComplexFilter(mu, wr, wi, Slide(Window(hr, order, idx), xr),
              Slide(Window(hi, order, idx), xi))
    {
      wide := true;
      wideStage.Load(order, mu, fast, idx, wr, wi, hr, hi, steps);
      wideStage.Push(xr, xi);
    }

    method PushNarrow(xr: int, xi: int)
      requires Valid() && !wide && FitsS32(xr) && FitsS32(xi)
      modifies this`hr, this`hi, this`idx
      ensures Valid()
      ensures Window(hr, order, idx) == Slide(old(Window(hr, order, idx)), xr)
      ensures Window(hi, order, idx) == Slide(old(Window(hi, order, idx)), xi)
    {
      PushedWindow(hr, order, idx, xr);
      PushedWindow(hi, order, idx, xi);
      PushedFits(hr, order, idx, xr);
      PushedFits(hi, order, idx, xi);
      var hr' := PushInto(hr, order, idx, xr);
      var hi' := PushInto(hi, order, idx, xi);
      idx := PushedIdx(|hr|, order, idx);
      hr, hi := hr', hi';
    }

    /** The inverse of a packet's frames in vector registers, as if frame by frame; false, with the filter
        unchanged, when the registers are missing or cannot hold it. */
    method InverseBlock(simd: Simd, res: Samples32, frames: nat) returns (ok: bool, out: seq<int>)
      requires Valid() && Budget() >= frames && |res| >= 2 * frames
      modifies this, wideStage
      ensures ok <==> order == 16 && !old(wide) && simd != NoSimd
      ensures Valid()
      ensures !ok ==> Denote() == old(Denote()) && Budget() == old(Budget()) && wide == old(wide)
      ensures ok ==> var run := InverseFrames(old(Denote()), res, frames);
                     && out == Truncate16(run.0)
                     && Denote() == run.1
                     && Budget() == old(Budget()) - frames
                     && (AllFitS32(run.0) ==> !wide)
    {
      if order != 16 || wide || simd == NoSimd {
        return false, [];
      }
      ok := true;
      ghost var f := Denote();
      ghost var runs := seq(frames + 1, k requires 0 <= k <= frames => InverseFrames(f, res, k));
      var done;
      done, out := BlockRegisters(simd, res, frames, f, runs);
      out := FinishFrames(res, done, frames, out, f, runs);
      assert runs[frames] == InverseFrames(f, res, frames);
    }

    // The register loop over this stage's taps and window; afterwards the window is at the front.
    method BlockRegisters(simd: Simd, res: Samples32, frames: nat, ghost f: ComplexFilter, ghost runs: seq<Run>)
      returns (done: nat, out: seq<int>)
      requires Valid() && !wide && order == 16 && simd != NoSimd && f == Denote()
      requires steps >= frames && |res| >= 2 * frames && Runs(f, res, frames, runs)
      modifies this`wr, this`wi, this`hr, this`hi, this`idx, this`steps
      ensures Valid() && done <= frames && steps == old(steps) - done
      ensures At(runs[done], out)
    {
      var r, i, p, q;
      done, out, r, i, p, q := BlockLoop(simd, mu, wr, wi, hr[idx - 16..idx], hi[idx - 16..idx], res, frames, fast,
        steps, f, runs);
      wr, wi := r, i;
      hr, hi := p + hr[16..], q + hi[16..];
      idx := 16;
      steps := steps - done;
      assert Window(hr, order, idx) == p && Window(hi, order, idx) == q;
    }

    // This stage stands where a run over residuals leads, and `out` is what the run gave.
    ghost predicate At(run: Run, out: seq<int>)
      requires Valid()
      reads this, wideStage
    {
      Denote() == run.1 && out == Truncate16(run.0) && (AllFitS32(run.0) ==> !wide)
    }

    // The frames the register loop left, one by one: the first of them takes the stage wide.
    method FinishFrames(res: Samples32, done: nat, frames: nat, out0: seq<int>, ghost f: ComplexFilter,
                        ghost runs: seq<Run>)
      returns (out: seq<int>)
      requires f.Ok() && done <= frames && 2 * frames <= |res| && Runs(f, res, frames, runs)
      requires Valid() && At(runs[done], out0) && Budget() >= frames - done
      modifies this, wideStage
      ensures Valid() && At(runs[frames], out) && Budget() == old(Budget()) - (frames - done)
    {
      out := out0;
      for i := done to frames
        invariant Valid() && At(runs[i], out) && Budget() == old(Budget()) - (i - done)
      {
        out := FinishFrame(res, i, frames, out, f, runs);
      }
    }

    method FinishFrame(res: Samples32, i: nat, ghost frames: nat, out0: seq<int>, ghost f: ComplexFilter,
                       ghost runs: seq<Run>)
      returns (out: seq<int>)
      requires f.Ok() && i < frames && 2 * frames <= |res| && Runs(f, res, frames, runs)
      requires Valid() && At(runs[i], out0) && Budget() > 0
      modifies this, wideStage
      ensures Valid() && At(runs[i + 1], out) && Budget() == old(Budget()) - 1
    {
      hide ComplexFilter.Predict, ComplexFilter.CanInverse;
      assert FitsS32(res[2 * i]) && FitsS32(res[2 * i + 1]);
      PredictionBound(Denote());
      var xr, xi := Inverse(res[2 * i], res[2 * i + 1]);
      InverseFramesStep(f, res, i, xr, xi);
      out := out0 + [WrapS16(xr), WrapS16(xi)];
    }
  }

  // What inverting some frames gave, and the filter it left.
  type Run = (seq<int>, ComplexFilter)

  // `runs` tabulates `InverseFrames(f, res, _)`.
  ghost predicate Runs(f: ComplexFilter, res: Samples32, frames: nat, runs: seq<Run>)
    requires f.Ok() && 2 * frames <= |res|
  {
    |runs| == frames + 1
    && forall k {:trigger InverseFrames(f, res, k)} :: 0 <= k <= frames ==> runs[k] == InverseFrames(f, res, k)
  }

  lemma InverseFramesStep(f: ComplexFilter, res: Samples32, i: nat, xr: int, xi: int)
    requires f.Ok() && 2 * i + 2 <= |res|
    requires (xr, xi) == InverseFrames(f, res, i).1.Inverse((res[2 * i], res[2 * i + 1])).0
    ensures InverseFrames(f, res, i + 1).0 == InverseFrames(f, res, i).0 + [xr, xi]
    ensures InverseFrames(f, res, i + 1).1 == InverseFrames(f, res, i).1.Inverse((res[2 * i], res[2 * i + 1])).1
    ensures Truncate16(InverseFrames(f, res, i + 1).0)
            == Truncate16(InverseFrames(f, res, i).0) + [WrapS16(xr), WrapS16(xi)]
    ensures AllFitS32(InverseFrames(f, res, i + 1).0) <==>
            AllFitS32(InverseFrames(f, res, i).0) && FitsS32(xr) && FitsS32(xi)
  {
    TruncateFrame(InverseFrames(f, res, i).0, xr, xi);
    FitsFrame(InverseFrames(f, res, i).0, xr, xi);
  }

  // Registers that hold the filter where a run leads, with the room the fast flag promises.
  ghost predicate Holding(g: ComplexFilter, run: Run, out: seq<int>, fast: bool, left: nat) {
    && g == run.1
    && out == Truncate16(run.0)
    && AllFitS32(run.0)
    && (fast ==> Room(g.wr, g.wi, Reach(2 * g.mu, left)))
  }

  // The next sample a filter reconstructs is in int32.
  ghost predicate NextFits(g: ComplexFilter, res: Samples32, done: nat)
    requires g.Ok() && 2 * done + 2 <= |res|
  {
    var x := g.Inverse((res[2 * done], res[2 * done + 1])).0;
    FitsS32(x.0) && FitsS32(x.1)
  }

  // The loop on registers: it stops at the first sample that is not in int32.
  method BlockLoop(simd: Simd, mu: nat, wr: Taps, wi: Taps, hr: Samples32, hi: Samples32, res: Samples32, frames: nat,
                   ghost fast: bool, ghost steps: nat, ghost f: ComplexFilter, ghost runs: seq<Run>)
    returns (done: nat, out: seq<int>, r: Taps, i: Taps, p: Samples32, q: Samples32)
    requires f == ComplexFilter(mu, wr, wi, hr, hi) && f.Ok() && mu <= MAX_MU && |wr| == 16 && simd != NoSimd
    requires |res| >= 2 * frames && steps >= frames && Runs(f, res, frames, runs)
    requires fast ==> Room(wr, wi, Reach(2 * mu, steps))
    ensures done <= frames && |r| == |i| == |p| == |q| == 16
    ensures Holding(ComplexFilter(mu, r, i, p, q), runs[done], out, fast, steps - done)
    ensures done < frames ==> !NextFits(ComplexFilter(mu, r, i, p, q), res, done)
  {
    hide NextFits;
    r, i, p, q := wr, wi, hr, hi;
    done, out := 0, [];
    var go := true;
    assert runs[0] == InverseFrames(f, res, 0);
    while done < frames && go
      invariant done <= frames && |r| == |i| == |p| == |q| == 16
      invariant Holding(ComplexFilter(mu, r, i, p, q), runs[done], out, fast, steps - done)
      invariant go || (done < frames && !NextFits(ComplexFilter(mu, r, i, p, q), res, done))
      decreases frames - done, go
    {
      go, out, r, i, p, q := BlockFrame(simd, mu, r, i, p, q, res, done, frames, out, fast, steps - done, f, runs);
      if go {
        done := done + 1;
      }
    }
  }

  // One frame of the register loop, which changes nothing when a sample does not fit.
  method BlockFrame(simd: Simd, mu: nat, wr: Taps, wi: Taps, hr: Samples32, hi: Samples32, res: Samples32, done: nat,
                    ghost frames: nat, out0: seq<int>, ghost fast: bool, ghost left: nat, ghost f: ComplexFilter,
                    ghost runs: seq<Run>)
    returns (go: bool, out: seq<int>, r: Taps, i: Taps, p: Samples32, q: Samples32)
    requires f.Ok() && done < frames && |res| >= 2 * frames && Runs(f, res, frames, runs)
    requires mu <= MAX_MU && |wr| == |wi| == |hr| == |hi| == 16 && simd != NoSimd && left > 0
    requires Holding(ComplexFilter(mu, wr, wi, hr, hi), runs[done], out0, fast, left)
    ensures |r| == |i| == |p| == |q| == 16
    ensures if go then Holding(ComplexFilter(mu, r, i, p, q), runs[done + 1], out, fast, left - 1)
            else (r, i, p, q, out) == (wr, wi, hr, hi, out0)
    ensures go <==> NextFits(ComplexFilter(mu, wr, wi, hr, hi), res, done)
  {
    ghost var g := ComplexFilter(mu, wr, wi, hr, hi);
    var er, ei := res[2 * done], res[2 * done + 1];
    var xr, xi;
    go, xr, xi, r, i, p, q := BlockInverse(simd, mu, wr, wi, hr, hi, er, ei);
    out := out0;
    if go {
      InverseFramesStep(f, res, done, xr, xi);
      if fast {
        ComplexHeadroom(g, (er, ei), (xr, xi), Reach(2 * mu, left - 1));
      }
      out := out + [WrapS16(xr), WrapS16(xi)];
    }
  }

  method KernelAccumulate(simd: Simd, ghost f: ComplexFilter, wr: Taps, wi: Taps, hr: Samples32, hi: Samples32)
    returns (pr: int, pi: int)
    requires f.Ok() && f == ComplexFilter(f.mu, wr, wi, hr, hi) && |wr| == 16
    requires Bounded(hr, TWO_31) && Bounded(hi, TWO_31)
    ensures pr == f.SumR() && pi == f.SumI()
    ensures FitsS64(pr) && FitsS64(-pr) && FitsS64(pi) && FitsS64(-pi)
  {
    KernelSums(simd, f);
    pr := SumDifference(simd, Products(wr, hr), Products(wi, hi));
    pi := SumTotal(simd, Products(wr, hi), Products(wi, hr));
  }

  lemma RoundInRange(v: int)
    requires FitsS64(v) && FitsS64(-v)
    ensures RoundBranchless(v) == PredRoundShift(WrapS64(v)) && Abs(RoundBranchless(v)) <= TWO_63 / TAP_SCALE
  {
    assert WrapS64(v) == v;
  }

  method BlockPredict(simd: Simd, ghost f: ComplexFilter, wr: Taps, wi: Taps, hr: Samples32, hi: Samples32)
    returns (qr: int, qi: int)
    requires f.Ok() && f == ComplexFilter(f.mu, wr, wi, hr, hi) && |wr| == 16
    ensures (qr, qi) == f.Predict()
    ensures Abs(qr) <= TWO_63 / TAP_SCALE && Abs(qi) <= TWO_63 / TAP_SCALE
  {
    var pr, pi := KernelAccumulate(simd, f, wr, wi, hr, hi);
    RoundInRange(pr);
    RoundInRange(pi);
    qr, qi := RoundBranchless(pr), RoundBranchless(pi);
  }

  // Predict, check, update and slide, in registers.
  method BlockInverse(simd: Simd, mu: nat, wr: Taps, wi: Taps, hr: Samples32, hi: Samples32, er: int, ei: int)
    returns (fits: bool, xr: int, xi: int, wr': Taps, wi': Taps, hr': Samples32, hi': Samples32)
    requires ComplexFilter(mu, wr, wi, hr, hi).Ok() && mu <= MAX_MU && |wr| == 16
    requires FitsS32(er) && FitsS32(ei)
    requires simd != NoSimd
    ensures fits <==> FitsS32(xr) && FitsS32(xi)
    ensures (xr, xi) == ComplexFilter(mu, wr, wi, hr, hi).Inverse((er, ei)).0
    ensures if fits then ComplexFilter(mu, wr', wi', hr', hi') == ComplexFilter(mu, wr, wi, hr, hi).Inverse((er, ei)).1
            else (wr', wi', hr', hi') == (wr, wi, hr, hi)
  {
    hide ComplexFilter.Predict, ComplexFilter.NewR, ComplexFilter.NewI, PredRoundShift, SlideLanes;
    ghost var f := ComplexFilter(mu, wr, wi, hr, hi);
    var qr, qi := BlockPredict(simd, f, wr, wi, hr, hi);
    xr, xi := I64(er + qr), I64(ei + qi);
    fits := !(xr < -TWO_31 || xr > TWO_31 - 1 || xi < -TWO_31 || xi > TWO_31 - 1);
    wr', wi', hr', hi' := wr, wi, hr, hi;
    if fits {
      if er != 0 || ei != 0 {
        wr', wi' := UpdateLanes(simd, f, er, ei, wr, wi, hr, hi, mu);
      }
      hr', hi' := SlideLanes(simd, hr, xr), SlideLanes(simd, hi, xi);
      assert ComplexFilter(mu, wr', wi', hr', hi') == f.Step((er, ei), (xr, xi));
    }
  }

  // Every lane of the taps at once.
  lemma StepFits(mu: nat, e: int)
    requires mu <= MAX_MU
    ensures Abs(mu * PredSign(e)) <= MAX_MU
  {
  }

  method UpdateLanes(simd: Simd, ghost f: ComplexFilter, er: int, ei: int,
                     wr: Taps, wi: Taps, hr: Samples32, hi: Samples32, mu: nat) returns (wr': Taps, wi': Taps)
    requires f.Ok() && f == ComplexFilter(mu, wr, wi, hr, hi) && mu <= MAX_MU && (er != 0 || ei != 0)
    ensures wr' == f.AdaptedR(er, ei) && wi' == f.AdaptedI(er, ei)
  {
    hide UpdatedR, UpdatedI, PredSign, ComplexFilter.NewR, ComplexFilter.NewI;
    StepFits(mu, er);
    StepFits(mu, ei);
    var mr, mi := I32(mu * PredSign(er)), I32(mu * PredSign(ei));
    wr' := seq(|wr|, j requires 0 <= j < |wr| => UpdatedR(simd, wr[j], hr[j], hi[j], mr, mi));
    wi' := seq(|wi|, j requires 0 <= j < |wi| => UpdatedI(simd, wi[j], hr[j], hi[j], mr, mi));
    forall j: nat | j < |wr|
      ensures wr'[j] == f.NewR(er, ei, j) && wi'[j] == f.NewI(er, ei, j)
    {
      LaneUpdateR(simd, f, er, ei, j, mr, mi);
      LaneUpdateI(simd, f, er, ei, j, mr, mi);
    }
  }

  lemma FitsFrame(s: seq<int>, a: int, b: int)
    ensures AllFitS32(s + [a, b]) <==> AllFitS32(s) && FitsS32(a) && FitsS32(b)
  {
    if AllFitS32(s + [a, b]) {
      assert (s + [a, b])[|s|] == a && (s + [a, b])[|s| + 1] == b;
      assert forall j :: 0 <= j < |s| ==> s[j] == (s + [a, b])[j];
    }
  }

  // Taps inside the clamp and samples in int32 keep the prediction sums in int64 at every step.
  lemma NarrowSums(f: ComplexFilter, n: nat)
    requires f.Ok() && n <= |f.wr| <= MAX_ORDER && AllFitS32(f.hr) && AllFitS32(f.hi)
    ensures Abs(Dot(f.wr, f.hr, n) - Dot(f.wi, f.hi, n)) <= 2 * n * MAX_PRODUCT
    ensures Abs(Dot(f.wr, f.hi, n) + Dot(f.wi, f.hr, n)) <= 2 * n * MAX_PRODUCT
  {
    assert Bounded(f.hr, TWO_31) && Bounded(f.hi, TWO_31);
    DotBound(f.wr, f.hr, n, TAP_LIMIT, TWO_31);
    DotBound(f.wi, f.hi, n, TAP_LIMIT, TWO_31);
    DotBound(f.wr, f.hi, n, TAP_LIMIT, TWO_31);
    DotBound(f.wi, f.hr, n, TAP_LIMIT, TWO_31);
    assert TAP_LIMIT * TWO_31 == MAX_PRODUCT;
  }

  // A product as the int64 multiply of two int32 values.
  function Multiply(w: int, h: int): (r: int)
    requires Abs(w) <= TAP_LIMIT && FitsS32(h)
    ensures Abs(r) <= MAX_PRODUCT
  {
    ProductBound(w, h, TAP_LIMIT, TWO_31);
    I64(w * h)
  }

  lemma DotStep(f: ComplexFilter, j: nat)
    requires f.Ok() && j < |f.wr| && AllFitS32(f.hr) && AllFitS32(f.hi)
    ensures Dot(f.wr, f.hr, j + 1) == Dot(f.wr, f.hr, j) + Multiply(f.wr[j], f.hr[j])
    ensures Dot(f.wi, f.hi, j + 1) == Dot(f.wi, f.hi, j) + Multiply(f.wi[j], f.hi[j])
    ensures Dot(f.wr, f.hi, j + 1) == Dot(f.wr, f.hi, j) + Multiply(f.wr[j], f.hi[j])
    ensures Dot(f.wi, f.hr, j + 1) == Dot(f.wi, f.hr, j) + Multiply(f.wi[j], f.hr[j])
  {
  }

  lemma DotNone(f: ComplexFilter)
    requires f.Ok()
    ensures Dot(f.wr, f.hr, 0) == Dot(f.wi, f.hi, 0) == Dot(f.wr, f.hi, 0) == Dot(f.wi, f.hr, 0) == 0
  {
  }

  // The loop of `ComplexStage.Predict`, exact in int64.
  method PredictSums(ghost f: ComplexFilter, wr: Taps, wi: Taps, hr: Samples32, hi: Samples32, lo: nat)
    returns (pr: int, pi: int)
    requires f.Ok() && |wr| <= MAX_ORDER
    requires f.wr == wr && f.wi == wi
    requires lo + |wr| <= |hr| == |hi| && f.hr == hr[lo..lo + |wr|] && f.hi == hi[lo..lo + |wr|]
    ensures pr == f.SumR() == WrapS64(f.SumR()) && pi == f.SumI() == WrapS64(f.SumI())
  {
    hide Dot, Multiply;
    pr, pi := 0, 0;
    DotNone(f);
    for j := 0 to |wr|
      invariant pr == Dot(f.wr, f.hr, j) - Dot(f.wi, f.hi, j)
      invariant pi == Dot(f.wr, f.hi, j) + Dot(f.wi, f.hr, j)
    {
      NarrowSums(f, j);
      DotStep(f, j);
      pr := I64(pr + I64(Multiply(wr[j], hr[lo + j]) - Multiply(wi[j], hi[lo + j])));
      pi := I64(pi + I64(Multiply(wr[j], hi[lo + j]) + Multiply(wi[j], hr[lo + j])));
    }
    NarrowSums(f, |wr|);
  }

  // The tap loop of `ComplexStage.Adapt`, in int32 and with the branchless leak.
  method AdaptTaps(ghost f: ComplexFilter, ghost er: int, ghost ei: int, mr: int, mi: int,
                   wr: Taps, wi: Taps, hr: Samples32, hi: Samples32, lo: nat, fast: bool, ghost room: nat)
    returns (r: Taps, i: Taps)
    requires f.Ok() && f.mu <= MAX_MU && f.wr == wr && f.wi == wi
    requires mr == f.mu * PredSign(er) && mi == f.mu * PredSign(ei)
    requires lo + |wr| <= |hr| == |hi| && f.hr == hr[lo..lo + |wr|] && f.hi == hi[lo..lo + |wr|]
    requires fast ==> Room(wr, wi, room + 2 * f.mu)
    ensures Adapting(f, er, ei, r, i, |wr|)
    ensures fast ==> Room(r, i, room)
  {
    r, i := wr, wi;
    for j := 0 to |wr|
      invariant Adapting(f, er, ei, r, i, j)
      invariant fast ==> forall k :: 0 <= k < j ==> Abs(r[k]) <= TAP_LIMIT - room && Abs(i[k]) <= TAP_LIMIT - room
    {
      var nr, ni := AdaptTap(f, er, ei, j, mr, mi, r[j], i[j], hr[lo + j], hi[lo + j], fast, room);
      r, i := r[j := nr], i[j := ni];
    }
  }

  method AdaptTap(ghost f: ComplexFilter, ghost er: int, ghost ei: int, ghost j: nat, mr: int, mi: int,
                  r: int, i: int, hr: int, hi: int, fast: bool, ghost room: nat)
    returns (nr: int, ni: int)
    requires f.Ok() && f.mu <= MAX_MU && j < |f.wr| && (r, i, hr, hi) == (f.wr[j], f.wi[j], f.hr[j], f.hi[j])
    requires mr == f.mu * PredSign(er) && mi == f.mu * PredSign(ei)
    requires fast ==> Abs(r) <= TAP_LIMIT - room - 2 * f.mu && Abs(i) <= TAP_LIMIT - room - 2 * f.mu
    ensures nr == f.NewR(er, ei, j) && ni == f.NewI(er, ei, j)
    ensures fast ==> Abs(nr) <= TAP_LIMIT - room && Abs(ni) <= TAP_LIMIT - room
  {
    var sr := (if hr > 0 then 1 else 0) - (if hr < 0 then 1 else 0);
    var si := (if hi > 0 then 1 else 0) - (if hi < 0 then 1 else 0);
    PlainStep(f, er, ei, j, mr, mi, sr, si);
    nr := StepTap(r, mr * sr, mi * si);
    ni := StepTap(i, mi * sr, -(mr * si));
    if !fast {
      nr := if nr > TAP_LIMIT then TAP_LIMIT else if nr < -TAP_LIMIT then -TAP_LIMIT else nr;
      ni := if ni > TAP_LIMIT then TAP_LIMIT else if ni < -TAP_LIMIT then -TAP_LIMIT else ni;
    }
  }

  // One int32 tap plus its two nudges, less its leak.
  function StepTap(w: int, a: int, b: int): (r: int)
    requires Abs(w) <= TAP_LIMIT && Abs(a) <= MAX_MU && Abs(b) <= MAX_MU
    ensures r == w + (a + b) - PredLeak(w, LEAK_COMPLEX)
  {
    I32(I32(I32(w + I32(a)) + I32(b)) - LeakBranchless(w))
  }

  lemma PlainStep(f: ComplexFilter, er: int, ei: int, j: nat, mr: int, mi: int, sr: int, si: int)
    requires f.Ok() && j < |f.wr|
    requires mr == f.mu * PredSign(er) && mi == f.mu * PredSign(ei)
    requires sr == PredSign(f.hr[j]) && si == PredSign(f.hi[j])
    ensures mr * sr + mi * si == f.NudgeR(er, ei, j) && mi * sr - mr * si == f.NudgeI(er, ei, j)
    ensures Abs(mr * sr) <= f.mu && Abs(mi * si) <= f.mu && Abs(mi * sr) <= f.mu && Abs(mr * si) <= f.mu
    ensures Abs(f.wr[j] + f.NudgeR(er, ei, j) - PredLeak(f.wr[j], LEAK_COMPLEX)) <= Abs(f.wr[j]) + 2 * f.mu
    ensures Abs(f.wi[j] + f.NudgeI(er, ei, j) - PredLeak(f.wi[j], LEAK_COMPLEX)) <= Abs(f.wi[j]) + 2 * f.mu
  {
    ComplexNudge(f, er, ei, j);
    SignedStep(f.mu, er, f.hr[j]);
    SignedStep(f.mu, ei, f.hi[j]);
    SignedStep(f.mu, ei, f.hr[j]);
    SignedStep(f.mu, er, f.hi[j]);
  }
}
