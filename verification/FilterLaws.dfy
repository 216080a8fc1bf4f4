/**
  * What the two filters remember, predict and learn, said of their behaviour alone: whatever else they were,
  * they would not satisfy these laws.
  */
module FilterLaws {
  import opened Machine
  import opened Predictor

  // ---- What they remember -----------------------------------------------------------------------

  // As many of the latest values as there were at the start, oldest first.
  function Latest(start: seq<int>, values: seq<int>): (r: seq<int>)
    ensures |r| == |start|
    ensures forall j :: 0 <= j < |r| ==>
              r[j] == var k := |values| + j - |start|; if k < 0 then start[|start| + k] else values[k]
  {
    (start + values)[|values|..]
  }

  lemma LatestSlides(start: seq<int>, values: seq<int>, x: int)
    requires start != []
    ensures Slide(Latest(start, values), x) == Latest(start, values + [x])
  {
  }

  function I(xs: seq<(int, int)>): (r: seq<int>)
    ensures |r| == |xs|
  {
    seq(|xs|, i requires 0 <= i < |xs| => xs[i].0)
  }

  function Q(xs: seq<(int, int)>): (r: seq<int>)
    ensures |r| == |xs|
  {
    seq(|xs|, i requires 0 <= i < |xs| => xs[i].1)
  }

  lemma PartsAppend(xs: seq<(int, int)>, x: (int, int))
    ensures I(xs + [x]) == I(xs) + [x.0] && Q(xs + [x]) == Q(xs) + [x.1]
  {
  }

  // The residuals of frames in the encoder's direction, and the filter after them.
  function Sent(f: ComplexFilter, xs: seq<(int, int)>): (r: (seq<(int, int)>, ComplexFilter))
    requires f.Ok()
    ensures |r.0| == |xs| && r.1.Ok() && r.1.mu == f.mu && |r.1.wr| == |f.wr|
  {
    if xs == [] then ([], f)
    else
      var done, x := Sent(f, xs[..|xs| - 1]), xs[|xs| - 1];
      (done.0 + [done.1.Forward(x).0], done.1.Forward(x).1)
  }

  // The samples residuals stand for, and the filter after them.
  function Received(f: ComplexFilter, es: seq<(int, int)>): (r: (seq<(int, int)>, ComplexFilter))
    requires f.Ok()
    ensures |r.0| == |es| && r.1.Ok() && r.1.mu == f.mu && |r.1.wr| == |f.wr|
  {
    if es == [] then ([], f)
    else
      var done, e := Received(f, es[..|es| - 1]), es[|es| - 1];
      (done.0 + [done.1.Inverse(e).0], done.1.Inverse(e).1)
  }

  // Either direction takes its sample in at the newest place, and moves the others on.
  lemma StepRemembers(f: ComplexFilter, x: (int, int))
    requires f.Ok()
    ensures f.Forward(x).1.hr == Slide(f.hr, x.0) && f.Forward(x).1.hi == Slide(f.hi, x.1)
    ensures var (y, g) := f.Inverse(x); g.hr == Slide(f.hr, y.0) && g.hi == Slide(f.hi, y.1)
  {
    hide ComplexFilter.Predict, ComplexFilter.AdaptedR, ComplexFilter.AdaptedI, Slide;
  }

  // Whatever it was, after frames in the encoder's direction the filter holds the latest of them, I in one part
  // and Q in the other.
  lemma {:induction false} SentIsRemembered(f: ComplexFilter, xs: seq<(int, int)>)
    requires f.Ok()
    ensures Sent(f, xs).1.hr == Latest(f.hr, I(xs)) && Sent(f, xs).1.hi == Latest(f.hi, Q(xs))
  {
    if xs != [] {
      var front, x := xs[..|xs| - 1], xs[|xs| - 1];
      var last := Sent(f, front).1;
      hide ComplexFilter.Forward, I, Q, Slide, Latest;
      SentIsRemembered(f, front);
      StepRemembers(last, x);
      assert xs == front + [x];
      PartsAppend(front, x);
      LatestSlides(f.hr, I(front), x.0);
      LatestSlides(f.hi, Q(front), x.1);
    }
  }

  // And in the decoder's direction the latest of the samples it gave.
  lemma {:induction false} ReceivedIsRemembered(f: ComplexFilter, es: seq<(int, int)>)
    requires f.Ok()
    ensures var (xs, g) := Received(f, es); g.hr == Latest(f.hr, I(xs)) && g.hi == Latest(f.hi, Q(xs))
  {
    if es != [] {
      var front, e := es[..|es| - 1], es[|es| - 1];
      var (xs, last) := Received(f, front);
      var x := last.Inverse(e).0;
      hide ComplexFilter.Inverse, I, Q, Slide, Latest;
      ReceivedIsRemembered(f, front);
      StepRemembers(last, e);
      PartsAppend(xs, x);
      LatestSlides(f.hr, I(xs), x.0);
      LatestSlides(f.hi, Q(xs), x.1);
    }
  }

  function RealSent(f: RealFilter, xs: seq<int>): (r: (seq<int>, RealFilter))
    requires f.Ok()
    ensures |r.0| == |xs| && r.1.Ok() && r.1.mu == f.mu && |r.1.w| == |f.w|
  {
    if xs == [] then ([], f)
    else
      var done, x := RealSent(f, xs[..|xs| - 1]), xs[|xs| - 1];
      (done.0 + [done.1.Forward(x).0], done.1.Forward(x).1)
  }

  function RealReceived(f: RealFilter, es: seq<int>): (r: (seq<int>, RealFilter))
    requires f.Ok()
    ensures |r.0| == |es| && r.1.Ok() && r.1.mu == f.mu && |r.1.w| == |f.w|
  {
    if es == [] then ([], f)
    else
      var done, e := RealReceived(f, es[..|es| - 1]), es[|es| - 1];
      (done.0 + [done.1.Inverse(e).0], done.1.Inverse(e).1)
  }

  lemma {:induction false} RealSentIsRemembered(f: RealFilter, xs: seq<int>)
    requires f.Ok()
    ensures RealSent(f, xs).1.h == Latest(f.h, xs)
  {
    if xs != [] {
      var front, x := xs[..|xs| - 1], xs[|xs| - 1];
      hide RealFilter.Predict, RealFilter.Adapted, Slide, Latest;
      RealSentIsRemembered(f, front);
      assert xs == front + [x];
      LatestSlides(f.h, front, x);
    } else {
      assert Latest(f.h, xs) == f.h;
    }
  }

  lemma {:induction false} RealReceivedIsRemembered(f: RealFilter, es: seq<int>)
    requires f.Ok()
    ensures RealReceived(f, es).1.h == Latest(f.h, RealReceived(f, es).0)
  {
    if es != [] {
      var front, e := es[..|es| - 1], es[|es| - 1];
      var (xs, last) := RealReceived(f, front);
      hide RealFilter.Predict, RealFilter.Adapted, Slide, Latest;
      RealReceivedIsRemembered(f, front);
      LatestSlides(f.h, xs, last.Inverse(e).0);
    } else {
      assert Latest(f.h, []) == f.h;
    }
  }

  // ---- What they predict ------------------------------------------------------------------------

  lemma {:induction false} DotNothing(a: seq<int>, b: seq<int>, n: nat)
    requires n <= |a| && n <= |b| && forall i :: 0 <= i < n ==> a[i] == 0
    ensures Dot(a, b, n) == 0
  {
    if n > 0 { DotNothing(a, b, n - 1); }
  }

  lemma {:induction false} DotSingle(a: seq<int>, b: seq<int>, j: nat, n: nat)
    requires j < n <= |a| && n <= |b| && forall i :: 0 <= i < n && i != j ==> a[i] == 0
    ensures Dot(a, b, n) == a[j] * b[j]
  {
    if j == n - 1 { DotNothing(a, b, n - 1); } else { DotSingle(a, b, j, n - 1); }
  }

  // A single tap a + bi multiplies its place of the history, as complex numbers; 65536 is one.
  lemma SingleTap(f: ComplexFilter, j: nat, a: int, b: int)
    requires f.Ok() && j < |f.wr| && f.wr[j] == a * 65536 && f.wi[j] == b * 65536
    requires forall i :: 0 <= i < |f.wr| && i != j ==> f.wr[i] == 0 && f.wi[i] == 0
    requires FitsS32(f.hr[j]) && FitsS32(f.hi[j])
    ensures f.Predict() == (a * f.hr[j] - b * f.hi[j], a * f.hi[j] + b * f.hr[j])
  {
    var n, x, y := |f.wr|, f.hr[j], f.hi[j];
    DotSingle(f.wr, f.hr, j, n); DotSingle(f.wi, f.hi, j, n);
    DotSingle(f.wr, f.hi, j, n); DotSingle(f.wi, f.hr, j, n);
    hide Dot, PredRoundShift;
    Scale(a, x); Scale(b, y); Scale(a, y); Scale(b, x);
    ProductBound(a, x, 256, TWO_31); ProductBound(b, y, 256, TWO_31);
    ProductBound(a, y, 256, TWO_31); ProductBound(b, x, 256, TWO_31);
    WholeTap(a * x - b * y);
    WholeTap(a * y + b * x);
  }

  lemma Scale(a: int, x: int)
    ensures (a * 65536) * x == 65536 * (a * x)
  {
  }

  lemma WholeTap(v: int)
    requires Abs(v) <= 512 * TWO_31
    ensures PredRoundShift(WrapS64(65536 * v)) == v
  {
  }

  // So the newest tap carries on a carrier: the imaginary one turns the last sample by a quarter.
  lemma Carrier(f: ComplexFilter, x: (int, int))
    requires f.Ok() && FitsS32(x.0) && FitsS32(x.1)
    requires var n := |f.wr|; f.wi[n - 1] == 65536 && forall i :: 0 <= i < n ==>
               f.wr[i] == 0 && (i != n - 1 ==> f.wi[i] == 0)
    ensures f.Step((0, 0), x).Predict() == (-x.1, x.0)
  {
    var g := f.Step((0, 0), x);
    SingleTap(g, |f.wr| - 1, 0, 1);
  }

  lemma RealSingleTap(f: RealFilter, j: nat, a: int)
    requires f.Ok() && j < |f.w| && f.w[j] == a * 65536 && FitsS32(f.h[j])
    requires forall i :: 0 <= i < |f.w| && i != j ==> f.w[i] == 0
    ensures f.Predict() == a * f.h[j]
  {
    DotSingle(f.w, f.h, j, |f.w|);
    hide Dot, PredRoundShift;
    Scale(a, f.h[j]);
    ProductBound(a, f.h[j], 256, TWO_31);
    WholeTap(a * f.h[j]);
  }

  // A new filter predicts nothing: the first sample and the first residual are one.
  lemma FirstAsIs(order: nat, mu: nat, x: (int, int))
    requires order > 0
    ensures NewComplexFilter(order, mu).Forward(x).0 == x == NewComplexFilter(order, mu).Inverse(x).0
    ensures NewRealFilter(order, mu).Forward(x.0).0 == x.0 == NewRealFilter(order, mu).Inverse(x.0).0
  {
    hide ComplexFilter.Step, RealFilter.Step;
    SingleTap(NewComplexFilter(order, mu), 0, 0, 0);
    RealSingleTap(NewRealFilter(order, mu), 0, 0);
  }

  // ---- What they learn --------------------------------------------------------------------------

  function SumAbs(h: seq<int>, n: nat): nat
    requires n <= |h|
  {
    if n == 0 then 0 else SumAbs(h, n - 1) + Abs(h[n - 1])
  }

  // The taps once they have leaked, toward zero.
  function Leaked(w: Taps, scale: int): (r: Taps)
    requires scale == LEAK_COMPLEX || scale == LEAK_REAL
    ensures |r| == |w|
  {
    seq(|w|, j requires 0 <= j < |w| => w[j] - PredLeak(w[j], scale))
  }

  // A tap less than 2^14 (2^16 in the real filter) leaks nothing; any other loses that part of itself.
  lemma Leaks(w: Taps, j: nat)
    requires j < |w|
    ensures Abs(Leaked(w, LEAK_COMPLEX)[j]) == Abs(w[j]) - Abs(w[j]) / 16384
    ensures Abs(Leaked(w, LEAK_REAL)[j]) == Abs(w[j]) - Abs(w[j]) / 65536
    ensures if w[j] < 0 then Leaked(w, LEAK_COMPLEX)[j] <= 0 && Leaked(w, LEAK_REAL)[j] <= 0
            else Leaked(w, LEAK_COMPLEX)[j] >= 0 && Leaked(w, LEAK_REAL)[j] >= 0
  {
    SameSide(w[j], LEAK_COMPLEX);
    SameSide(w[j], LEAK_REAL);
  }

  lemma SameSide(w: int, scale: int)
    requires Abs(w) <= TAP_LIMIT && (scale == LEAK_COMPLEX || scale == LEAK_REAL)
    ensures var v := w - PredLeak(w, scale);
            Abs(v) == Abs(w) - Abs(w) / scale && if w < 0 then v <= 0 else v >= 0
  {
  }

  lemma {:induction false} DotGain(a: seq<int>, b: seq<int>, h: seq<int>, s: int, mu: nat, n: nat)
    requires n <= |a| == |b| == |h|
    requires forall j :: 0 <= j < n ==> s * (a[j] - b[j]) * h[j] == mu * Abs(h[j])
    ensures s * (Dot(a, h, n) - Dot(b, h, n)) == mu * SumAbs(h, n)
  {
    if n > 0 {
      DotGain(a, b, h, s, mu, n - 1);
      var i := n - 1;
      GainStep(s, Dot(a, h, i), Dot(b, h, i), a[i], b[i], h[i], mu, SumAbs(h, i));
    }
  }

  lemma GainStep(s: int, p: int, q: int, a: int, b: int, h: int, mu: int, sum: int)
    requires s * (p - q) == mu * sum && s * (a - b) * h == mu * Abs(h)
    ensures s * (p + a * h - (q + b * h)) == mu * (sum + Abs(h))
  {
    assert a * h - b * h == (a - b) * h;
    assert s * (p - q + (a - b) * h) == s * (p - q) + s * ((a - b) * h);
    assert s * ((a - b) * h) == s * (a - b) * h;
    assert mu * (sum + Abs(h)) == mu * sum + mu * Abs(h);
  }

  // A step that meets no limit moves the prediction toward the sample: on the history it was made from, by mu
  // times the magnitudes of that history, beside what the leak does. Residuals of either sign teach alike.
  lemma RealStepLearns(f: RealFilter, e: int, x: int)
    requires f.Ok() && e != 0 && forall j :: 0 <= j < |f.w| ==> Abs(f.w[j]) + f.mu <= 0x100_0000
    ensures var n := |f.w|;
            PredSign(e) * (Dot(f.Step(e, x).w, f.h, n) - Dot(Leaked(f.w, LEAK_REAL), f.h, n)) == f.mu * SumAbs(f.h, n)
  {
    var n, a, b := |f.w|, f.Step(e, x).w, Leaked(f.w, LEAK_REAL);
    forall j: nat | j < n ensures PredSign(e) * (a[j] - b[j]) * f.h[j] == f.mu * Abs(f.h[j]) {
      RealNudge(f, e, j);
      RealDescent(f, e, j);
      assert a[j] - b[j] == f.Nudge(e, j);
      assert Abs(PredSign(e)) == 1;
      Reorder(PredSign(e), f.Nudge(e, j), f.h[j]);
    }
    DotGain(a, b, f.h, PredSign(e), f.mu, n);
  }

  lemma Reorder(s: int, d: int, h: int)
    ensures s * d * h == s * (d * h)
  {
  }

  // Without a residual nothing is learned and nothing leaks; a tap that saw nothing only leaks.
  lemma RealStepRests(f: RealFilter, e: int, x: int, j: nat)
    requires f.Ok() && j < |f.w|
    ensures e == 0 ==> f.Step(e, x).w == f.w
    ensures e != 0 && f.h[j] == 0 ==> f.Step(e, x).w[j] == Leaked(f.w, LEAK_REAL)[j]
  {
    SameSide(f.w[j], LEAK_REAL);
  }

  lemma {:induction false} DotDifference(a: seq<int>, b: seq<int>, d: seq<int>, h: seq<int>, n: nat)
    requires n <= |a| == |b| == |d| == |h| && forall j :: 0 <= j < n ==> d[j] == a[j] - b[j]
    ensures Dot(d, h, n) == Dot(a, h, n) - Dot(b, h, n)
  {
    if n > 0 {
      DotDifference(a, b, d, h, n - 1);
      assert (a[n - 1] - b[n - 1]) * h[n - 1] == a[n - 1] * h[n - 1] - b[n - 1] * h[n - 1];
    }
  }

  // What a step adds to the taps.
  function NudgesR(f: ComplexFilter, e: (int, int)): (d: seq<int>)
    requires f.Ok()
    ensures |d| == |f.wr|
  {
    seq(|f.wr|, j requires 0 <= j < |f.wr| => f.NudgeR(e.0, e.1, j))
  }

  function NudgesI(f: ComplexFilter, e: (int, int)): (d: seq<int>)
    requires f.Ok()
    ensures |d| == |f.wr|
  {
    seq(|f.wr|, j requires 0 <= j < |f.wr| => f.NudgeI(e.0, e.1, j))
  }

  // How far the change (dr, di) of the first n taps moves the two sums along (a, b).
  function Moved(a: int, b: int, dr: seq<int>, di: seq<int>, hr: seq<int>, hi: seq<int>, n: nat): int
    requires n <= |dr| == |di| == |hr| == |hi|
  {
    Toward(a, b, Dot(dr, hr, n) - Dot(di, hi, n), Dot(dr, hi, n) + Dot(di, hr, n))
  }

  function Toward(a: int, b: int, p: int, q: int): int { a * p + b * q }

  // The most that steps of mu for each part that is wrong can do on the first n places of the history.
  function Most(f: ComplexFilter, a: int, b: int, n: nat): int
    requires n <= |f.hr| == |f.hi|
  {
    (Abs(a) + Abs(b)) * (f.mu * (SumAbs(f.hr, n) + SumAbs(f.hi, n)))
  }

  lemma MovedStep(a: int, b: int, dr: seq<int>, di: seq<int>, hr: seq<int>, hi: seq<int>, n: nat)
    requires n < |dr| == |di| == |hr| == |hi|
    ensures Moved(a, b, dr, di, hr, hi, n + 1)
            == Moved(a, b, dr, di, hr, hi, n) + Along(a, b, dr[n], di[n], hr[n], hi[n])
  {
    var p, q := Dot(dr, hr, n) - Dot(di, hi, n), dr[n] * hr[n] - di[n] * hi[n];
    var u, v := Dot(dr, hi, n) + Dot(di, hr, n), dr[n] * hi[n] + di[n] * hr[n];
    assert Dot(dr, hr, n + 1) - Dot(di, hi, n + 1) == p + q && Dot(dr, hi, n + 1) + Dot(di, hr, n + 1) == u + v;
    hide Dot;
    Distribute(a, p, q);
    Distribute(b, u, v);
  }

  lemma Distribute(a: int, p: int, q: int)
    ensures a * (p + q) == a * p + a * q
  {
  }

  // What one place of the history allows.
  function Share(a: int, b: int, mu: nat, hr: int, hi: int): int {
    (Abs(a) + Abs(b)) * (mu * Abs(hr) + mu * Abs(hi))
  }

  lemma MostStep(f: ComplexFilter, a: int, b: int, n: nat)
    requires n < |f.hr| == |f.hi|
    ensures Most(f, a, b, n + 1) == Most(f, a, b, n) + Share(a, b, f.mu, f.hr[n], f.hi[n])
  {
    var p, q := SumAbs(f.hr, n) + SumAbs(f.hi, n), Abs(f.hr[n]) + Abs(f.hi[n]);
    assert SumAbs(f.hr, n + 1) + SumAbs(f.hi, n + 1) == p + q;
    hide SumAbs, Abs;
    Distribute(f.mu, p, q);
    Distribute(f.mu, Abs(f.hr[n]), Abs(f.hi[n]));
    Distribute(Abs(a) + Abs(b), f.mu * p, f.mu * q);
  }

  lemma NothingMoved(f: ComplexFilter, a: int, b: int, dr: seq<int>, di: seq<int>)
    requires f.Ok() && |dr| == |di| == |f.wr|
    ensures Moved(a, b, dr, di, f.hr, f.hi, 0) == Most(f, a, b, 0) == 0
  {
  }

  lemma {:induction false} AllMoved(f: ComplexFilter, e: (int, int), n: nat)
    requires f.Ok() && n <= |f.wr|
    ensures var a, b := PredSign(e.0), PredSign(e.1);
            Moved(a, b, NudgesR(f, e), NudgesI(f, e), f.hr, f.hi, n) == Most(f, a, b, n)
  {
    var a, b, dr, di := PredSign(e.0), PredSign(e.1), NudgesR(f, e), NudgesI(f, e);
    if n == 0 {
      NothingMoved(f, a, b, dr, di);
    } else {
      ComplexDescent(f, e.0, e.1, n - 1);
      hide Moved, Most, Along, PredSign, ComplexFilter.NudgeR, ComplexFilter.NudgeI;
      AllMoved(f, e, n - 1);
      MovedStep(a, b, dr, di, f.hr, f.hi, n - 1);
      MostStep(f, a, b, n - 1);
    }
  }

  // The complex step that meets no limit moves both sums toward the sample: on the history it was made from and
  // along the signs of the residual, by mu times the magnitudes of that history for each part that is wrong.
  lemma ComplexStepLearns(f: ComplexFilter, e: (int, int), x: (int, int))
    requires f.Ok() && e != (0, 0)
    requires forall j :: 0 <= j < |f.wr| ==>
               Abs(f.wr[j]) + 2 * f.mu <= 0x100_0000 && Abs(f.wi[j]) + 2 * f.mu <= 0x100_0000
    ensures var n, a, b := |f.wr|, PredSign(e.0), PredSign(e.1);
            var learned := f.(wr := f.Step(e, x).wr, wi := f.Step(e, x).wi);
            var leaked := f.(wr := Leaked(f.wr, LEAK_COMPLEX), wi := Leaked(f.wi, LEAK_COMPLEX));
            Toward(a, b, learned.SumR() - leaked.SumR(), learned.SumI() - leaked.SumI()) == Most(f, a, b, n)
  {
    Unclamped(f, e, x);
    AllMoved(f, e, |f.wr|);
    hide ComplexFilter.Step, Leaked, NudgesR, NudgesI, PredSign, Dot, Toward, Most;
    hide ComplexFilter.SumR, ComplexFilter.SumI;
    SumsDiffer(f, f.Step(e, x).wr, f.Step(e, x).wi, Leaked(f.wr, LEAK_COMPLEX), Leaked(f.wi, LEAK_COMPLEX),
      NudgesR(f, e), NudgesI(f, e));
  }

  lemma SumsDiffer(f: ComplexFilter, wr: Taps, wi: Taps, r: Taps, i: Taps, dr: seq<int>, di: seq<int>)
    requires f.Ok() && |wr| == |wi| == |r| == |i| == |dr| == |di| == |f.wr|
    requires forall j :: 0 <= j < |wr| ==> dr[j] == wr[j] - r[j] && di[j] == wi[j] - i[j]
    ensures var n, g, h := |f.wr|, f.(wr := wr, wi := wi), f.(wr := r, wi := i);
            && g.SumR() - h.SumR() == Dot(dr, f.hr, n) - Dot(di, f.hi, n)
            && g.SumI() - h.SumI() == Dot(dr, f.hi, n) + Dot(di, f.hr, n)
  {
    hide Dot;
    DotDifference(wr, r, dr, f.hr, |f.wr|); DotDifference(wi, i, di, f.hi, |f.wr|);
    DotDifference(wr, r, dr, f.hi, |f.wr|); DotDifference(wi, i, di, f.hr, |f.wr|);
  }

  lemma Unclamped(f: ComplexFilter, e: (int, int), x: (int, int))
    requires f.Ok() && e != (0, 0)
    requires forall j :: 0 <= j < |f.wr| ==>
               Abs(f.wr[j]) + 2 * f.mu <= 0x100_0000 && Abs(f.wi[j]) + 2 * f.mu <= 0x100_0000
    ensures var g := f.Step(e, x);
            forall j :: 0 <= j < |f.wr| ==>
              && NudgesR(f, e)[j] == g.wr[j] - Leaked(f.wr, LEAK_COMPLEX)[j]
              && NudgesI(f, e)[j] == g.wi[j] - Leaked(f.wi, LEAK_COMPLEX)[j]
  {
    hide ComplexFilter.NudgeR, ComplexFilter.NudgeI, PredLeak;
    forall j: nat | j < |f.wr|
      ensures f.Step(e, x).wr[j] == Leaked(f.wr, LEAK_COMPLEX)[j] + f.NudgeR(e.0, e.1, j)
      ensures f.Step(e, x).wi[j] == Leaked(f.wi, LEAK_COMPLEX)[j] + f.NudgeI(e.0, e.1, j)
    {
      ComplexNudge(f, e.0, e.1, j);
    }
  }

  lemma ComplexStepRests(f: ComplexFilter, e: (int, int), x: (int, int), j: nat)
    requires f.Ok() && j < |f.wr|
    ensures e == (0, 0) ==> f.Step(e, x).wr == f.wr && f.Step(e, x).wi == f.wi
    ensures e != (0, 0) && f.hr[j] == 0 && f.hi[j] == 0 ==>
              && f.Step(e, x).wr[j] == Leaked(f.wr, LEAK_COMPLEX)[j]
              && f.Step(e, x).wi[j] == Leaked(f.wi, LEAK_COMPLEX)[j]
  {
  }

  // The two parts of the residual teach apart, each by at most mu a tap; a part of the history that is silent
  // teaches nothing.
  lemma NudgeParts(f: ComplexFilter, er: int, ei: int, j: nat)
    requires f.Ok() && j < |f.wr|
    ensures f.NudgeR(er, ei, j) == f.NudgeR(er, 0, j) + f.NudgeR(0, ei, j)
    ensures f.NudgeI(er, ei, j) == f.NudgeI(er, 0, j) + f.NudgeI(0, ei, j)
    ensures Abs(f.NudgeR(er, 0, j)) <= f.mu && Abs(f.NudgeI(er, 0, j)) <= f.mu
    ensures Abs(f.NudgeR(0, ei, j)) <= f.mu && Abs(f.NudgeI(0, ei, j)) <= f.mu
    ensures f.hr[j] == 0 ==> f.NudgeR(er, 0, j) == 0 && f.NudgeI(0, ei, j) == 0
    ensures f.hi[j] == 0 ==> f.NudgeI(er, 0, j) == 0 && f.NudgeR(0, ei, j) == 0
  {
    var hr, hi := f.hr[j], f.hi[j];
    SignedStep(f.mu, er, hr); SignedStep(f.mu, er, hi); SignedStep(f.mu, ei, hr); SignedStep(f.mu, ei, hi);
    SilentStep(f.mu, 0, hr); SilentStep(f.mu, 0, hi);
    SilentStep(f.mu, er, hr); SilentStep(f.mu, er, hi); SilentStep(f.mu, ei, hr); SilentStep(f.mu, ei, hi);
    hide PredSign;
  }

  lemma SilentStep(mu: int, e: int, h: int)
    ensures e == 0 || h == 0 ==> mu * PredSign(e) * PredSign(h) == 0
  {
  }

  // And each on its own part of the prediction, by the most that allows: there is only one such nudge.
  lemma NudgeGain(f: ComplexFilter, er: int, ei: int, j: nat)
    requires f.Ok() && j < |f.wr|
    ensures PredSign(er) * (f.NudgeR(er, 0, j) * f.hr[j] - f.NudgeI(er, 0, j) * f.hi[j])
            == Abs(PredSign(er)) * (f.mu * Abs(f.hr[j]) + f.mu * Abs(f.hi[j]))
    ensures PredSign(ei) * (f.NudgeR(0, ei, j) * f.hi[j] + f.NudgeI(0, ei, j) * f.hr[j])
            == Abs(PredSign(ei)) * (f.mu * Abs(f.hr[j]) + f.mu * Abs(f.hi[j]))
  {
    hide ComplexFilter.NudgeR, ComplexFilter.NudgeI;
    ComplexDescent(f, er, 0, j);
    ComplexDescent(f, 0, ei, j);
  }

  // A tap that would leave the limit goes to the nearest one inside it.
  lemma ClampIsNearest(w: int, v: int)
    requires -0x100_0000 <= v <= 0x100_0000
    ensures -0x100_0000 <= PredClampTap(w) <= 0x100_0000 && Abs(PredClampTap(w) - w) <= Abs(v - w)
  {
  }

  // So every tap ends at what it leaked to plus its nudge, or as near to that as the limit lets it.
  lemma StepIsNearest(f: ComplexFilter, e: (int, int), x: (int, int), j: nat, v: int)
    requires f.Ok() && j < |f.wr| && e != (0, 0) && -0x100_0000 <= v <= 0x100_0000
    ensures var wanted := Leaked(f.wr, LEAK_COMPLEX)[j] + f.NudgeR(e.0, e.1, j);
            Abs(f.Step(e, x).wr[j] - wanted) <= Abs(v - wanted)
    ensures var wanted := Leaked(f.wi, LEAK_COMPLEX)[j] + f.NudgeI(e.0, e.1, j);
            Abs(f.Step(e, x).wi[j] - wanted) <= Abs(v - wanted)
  {
    hide ComplexFilter.NudgeR, ComplexFilter.NudgeI, PredLeak;
    ClampIsNearest(Leaked(f.wr, LEAK_COMPLEX)[j] + f.NudgeR(e.0, e.1, j), v);
    ClampIsNearest(Leaked(f.wi, LEAK_COMPLEX)[j] + f.NudgeI(e.0, e.1, j), v);
  }

  lemma RealStepIsNearest(f: RealFilter, e: int, x: int, j: nat, v: int)
    requires f.Ok() && j < |f.w| && e != 0 && -0x100_0000 <= v <= 0x100_0000
    ensures var wanted := Leaked(f.w, LEAK_REAL)[j] + f.Nudge(e, j);
            Abs(f.Step(e, x).w[j] - wanted) <= Abs(v - wanted)
  {
    hide RealFilter.Nudge, PredLeak;
    ClampIsNearest(Leaked(f.w, LEAK_REAL)[j] + f.Nudge(e, j), v);
  }
}
