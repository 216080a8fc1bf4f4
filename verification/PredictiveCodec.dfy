/**
  * The payload codec as a class over its stage objects, proved against `CodecModel`. A packet goes
  * through the vector kernel where there is one, frame by frame otherwise.
  */
module PredictiveCodecs {
  import opened Machine
  import opened Predictor
  import opened Histories
  import opened Outcomes
  import opened CodecModel
  import opened Lockstep
  import opened BlockKernels
  import opened ComplexStages
  import opened RealStages
  import Rice

  const MAX_STAGES: nat := 8
  const MAX_GAIN: int := 0x8000_0000_0000   // 2^47, what one prediction can add

  // ---- Tables of a run, so that loops need not unfold the filters ------------------------------

  // vals[k] leaves stage k on the way back, which becomes gs[k].
  ghost predicate InverseTable(fs: seq<StageFilter>, vals: seq<Frame>, gs: seq<StageFilter>) {
    |vals| == |fs| + 1 && |gs| == |fs|
    && forall k {:trigger Inverse(fs[k], vals[k + 1])} ::
       0 <= k < |fs| ==> Inverse(fs[k], vals[k + 1]) == (vals[k], gs[k])
  }

  // vals[k] enters stage k on the way forward, which becomes gs[k].
  ghost predicate ForwardTable(fs: seq<StageFilter>, vals: seq<Frame>, gs: seq<StageFilter>) {
    |vals| == |fs| + 1 && |gs| == |fs|
    && forall k {:trigger Forward(fs[k], vals[k])} :: 0 <= k < |fs| ==> Forward(fs[k], vals[k]) == (vals[k + 1], gs[k])
  }

  lemma TabulateInverse(fs: seq<StageFilter>, e: Frame) returns (vals: seq<Frame>, gs: seq<StageFilter>)
    ensures InverseTable(fs, vals, gs) && vals[|fs|] == e
    ensures (vals[0], gs) == CascadeInverse(Inverse, fs, e)
  {
    hide Inverse;
    vals := seq(|fs| + 1, k requires 0 <= k <= |fs| => Undone(Inverse, fs, e, k));
    gs := CascadeInverse(Inverse, fs, e).1;
  }

  lemma TabulateForward(fs: seq<StageFilter>, x: Frame) returns (vals: seq<Frame>, gs: seq<StageFilter>)
    ensures ForwardTable(fs, vals, gs) && vals[0] == x
    ensures (vals[|fs|], gs) == CascadeForward(Forward, fs, x)
  {
    vals := seq(|fs| + 1, k requires 0 <= k <= |fs| => Through(Forward, fs, x, k));
    gs := CascadeForward(Forward, fs, x).1;
  }

  type FrameRun = (seq<Frame>, seq<StageFilter>)

  ghost predicate InverseRuns(fs: seq<StageFilter>, es: seq<Frame>, runs: seq<FrameRun>) {
    |runs| == |es| + 1
    && forall k {:trigger InverseRun(Inverse, fs, es, k)} ::
       0 <= k <= |es| ==> runs[k] == InverseRun(Inverse, fs, es, k)
  }

  lemma TabulateRun(fs: seq<StageFilter>, es: seq<Frame>) returns (runs: seq<FrameRun>)
    ensures InverseRuns(fs, es, runs) && runs[0] == ([], fs) && runs[|es|] == InverseRun(Inverse, fs, es, |es|)
  {
    hide Inverse;
    runs := seq(|es| + 1, k requires 0 <= k <= |es| => InverseRun(Inverse, fs, es, k));
    assert runs[0] == InverseRun(Inverse, fs, es, 0);
  }

  ghost predicate ForwardRuns(fs: seq<StageFilter>, xs: seq<Frame>, runs: seq<FrameRun>) {
    |runs| == |xs| + 1
    && forall k {:trigger ForwardRun(Forward, fs, xs, k)} ::
       0 <= k <= |xs| ==> runs[k] == ForwardRun(Forward, fs, xs, k)
  }

  lemma InverseRunNext(fs: seq<StageFilter>, es: seq<Frame>, runs: seq<FrameRun>, i: nat)
    requires InverseRuns(fs, es, runs) && i < |es|
    ensures var (x, gs) := CascadeInverse(Inverse, runs[i].1, es[i]);
            runs[i + 1] == (runs[i].0 + [x], gs)
  {
    assert runs[i + 1] == InverseRun(Inverse, fs, es, i + 1);
    assert runs[i] == InverseRun(Inverse, fs, es, i);
  }

  lemma ForwardRunNext(fs: seq<StageFilter>, xs: seq<Frame>, runs: seq<FrameRun>, i: nat)
    requires ForwardRuns(fs, xs, runs) && i < |xs|
    ensures runs[i + 1].1 == CascadeForward(Forward, runs[i].1, xs[i]).1
  {
    assert runs[i + 1] == ForwardRun(Forward, fs, xs, i + 1);
    assert runs[i] == ForwardRun(Forward, fs, xs, i);
  }

  // What enters a stage is at most 2^31 wide at the ends of a cascade and grows by less than 2^48 a stage, far
  // below this.
  const MAX_SAMPLE: int := 0x4000_0000_0000_0000

  ghost predicate InDomain(x: int) { -MAX_SAMPLE <= x <= MAX_SAMPLE }

  // ---- Real cascades --------------------------------------------------------------------------

  ghost predicate Distinct(rl: seq<RealStage>) {
    forall i, j :: 0 <= i < j < |rl| ==> rl[i] != rl[j]
  }

  ghost predicate RealOk(rl: seq<RealStage>)
    reads rl
  {
    |rl| <= MAX_STAGES && Distinct(rl) && forall s :: s in rl ==> s.Valid()
  }

  ghost function RealFilters(rl: seq<RealStage>): (fs: seq<StageFilter>)
    requires RealOk(rl)
    reads rl
    ensures |fs| == |rl|
  {
    seq(|rl|, i requires 0 <= i < |rl| && rl[i].Valid() reads rl => Rl(rl[i].Denote()))
  }

  ghost predicate RealBudget(rl: seq<RealStage>, n: nat)
    reads rl
  {
    forall s :: s in rl ==> s.budget == n
  }

  // Stages from `lo` on have moved to gs, those below stand where fs says.
  ghost predicate RealSplit(rl: seq<RealStage>, lower: seq<StageFilter>, upper: seq<StageFilter>, s: nat, below: nat,
                            above: nat)
    reads rl
  {
    && |rl| == |lower| == |upper| <= MAX_STAGES && s <= |rl| && Distinct(rl)
    && (forall r :: r in rl ==> r.Valid())
    && (forall i :: 0 <= i < s ==> Rl(rl[i].Denote()) == lower[i] && rl[i].budget == below)
    && (forall i :: s <= i < |rl| ==> Rl(rl[i].Denote()) == upper[i] && rl[i].budget == above)
  }

  method RealInverseStage(rl: seq<RealStage>, s: nat, ghost fs: seq<StageFilter>, ghost vals: seq<Frame>,
                          ghost gs: seq<StageFilter>, ghost left: nat, a: int) returns (x: int)
    requires InverseTable(fs, vals, gs) && s < |fs| && left > 0
    requires RealSplit(rl, fs, gs, s + 1, left, left - 1)
    requires (a, 0) == vals[s + 1] && InDomain(a)
    modifies rl[s]
    ensures RealSplit(rl, fs, gs, s, left, left - 1)
    ensures (x, 0) == vals[s] && Abs(x - a) <= MAX_GAIN
  {
    assert Inverse(fs[s], vals[s + 1]) == (vals[s], gs[s]);
    RealPredictionBound(rl[s].Denote());
    hide RealFilter.Predict, RealFilter.Inverse;
    x := rl[s].Inverse(a);
  }

  method RealForwardStage(rl: seq<RealStage>, s: nat, ghost fs: seq<StageFilter>, ghost vals: seq<Frame>,
                          ghost gs: seq<StageFilter>, ghost left: nat, a: int) returns (e: int)
    requires ForwardTable(fs, vals, gs) && s < |fs| && left > 0
    requires RealSplit(rl, gs, fs, s, left - 1, left)
    requires (a, 0) == vals[s] && InDomain(a)
    modifies rl[s]
    ensures RealSplit(rl, gs, fs, s + 1, left - 1, left)
    ensures (e, 0) == vals[s + 1] && Abs(e - a) <= MAX_GAIN
  {
    assert Forward(fs[s], vals[s]) == (vals[s + 1], gs[s]);
    RealPredictionBound(rl[s].Denote());
    hide RealFilter.Predict, RealFilter.Forward;
    e := rl[s].Forward(a);
  }

  // One residual through the cascade, last stage first.
  method RealInverse(rl: seq<RealStage>, e: int, ghost left: nat) returns (x: int)
    requires RealOk(rl) && RealBudget(rl, left) && left > 0 && FitsS32(e)
    modifies rl
    ensures RealOk(rl) && RealBudget(rl, left - 1)
    ensures ((x, 0), RealFilters(rl)) == CascadeInverse(Inverse, old(RealFilters(rl)), (e, 0))
  {
    ghost var fs := RealFilters(rl);
    ghost var vals, gs := TabulateInverse(fs, (e, 0));
    x := RealInverseLoop(rl, e, fs, vals, gs, left);
    assert RealFilters(rl) == gs;
  }

  method RealInverseLoop(rl: seq<RealStage>, e: int, ghost fs: seq<StageFilter>, ghost vals: seq<Frame>,
                         ghost gs: seq<StageFilter>, ghost left: nat) returns (x: int)
    requires InverseTable(fs, vals, gs) && vals[|fs|] == (e, 0) && FitsS32(e)
    requires left > 0 && RealSplit(rl, fs, gs, |rl|, left, left - 1)
    modifies rl
    ensures RealSplit(rl, fs, gs, 0, left, left - 1) && vals[0] == (x, 0)
  {
    x := e;
    for s := |rl| downto 0
      invariant RealSplit(rl, fs, gs, s, left, left - 1)
      invariant (x, 0) == vals[s] && Abs(x) <= TWO_31 + (|rl| - s) * MAX_GAIN
    {
      x := RealInverseStage(rl, s, fs, vals, gs, left, x);
    }
  }

  // One sample through the cascade, first stage first.
  method RealForward(rl: seq<RealStage>, x: int, ghost left: nat) returns (e: int)
    requires RealOk(rl) && RealBudget(rl, left) && left > 0 && FitsS32(x)
    modifies rl
    ensures RealOk(rl) && RealBudget(rl, left - 1)
    ensures ((e, 0), RealFilters(rl)) == CascadeForward(Forward, old(RealFilters(rl)), (x, 0))
  {
    ghost var fs := RealFilters(rl);
    ghost var vals, gs := TabulateForward(fs, (x, 0));
    e := RealForwardLoop(rl, x, fs, vals, gs, left);
    assert RealFilters(rl) == gs;
  }

  method RealForwardLoop(rl: seq<RealStage>, x: int, ghost fs: seq<StageFilter>, ghost vals: seq<Frame>,
                         ghost gs: seq<StageFilter>, ghost left: nat) returns (e: int)
    requires ForwardTable(fs, vals, gs) && vals[0] == (x, 0) && FitsS32(x)
    requires left > 0 && RealSplit(rl, gs, fs, 0, left - 1, left)
    modifies rl
    ensures RealSplit(rl, gs, fs, |rl|, left - 1, left) && vals[|fs|] == (e, 0)
  {
    e := x;
    for s := 0 to |rl|
      invariant RealSplit(rl, gs, fs, s, left - 1, left)
      invariant (e, 0) == vals[s] && Abs(e) <= TWO_31 + s * MAX_GAIN
    {
      e := RealForwardStage(rl, s, fs, vals, gs, left, e);
    }
  }

  method RealBegin(rl: seq<RealStage>, steps: nat)
    requires RealOk(rl)
    modifies rl
    ensures RealOk(rl) && RealBudget(rl, steps) && RealFilters(rl) == old(RealFilters(rl))
  {
    ghost var fs := RealFilters(rl);
    for s := 0 to |rl|
      invariant RealOk(rl) && RealFilters(rl) == fs
      invariant forall i :: 0 <= i < s ==> rl[i].budget == steps
    {
      RealBeginStage(rl, s, steps);
    }
  }

  method RealBeginStage(rl: seq<RealStage>, s: nat, steps: nat)
    requires RealOk(rl) && s < |rl|
    modifies rl[s]
    ensures RealOk(rl) && RealFilters(rl) == old(RealFilters(rl)) && rl[s].budget == steps
    ensures forall i :: 0 <= i < |rl| && i != s ==> rl[i].budget == old(rl[i].budget)
  {
    rl[s].BeginPacket(steps);
    assert RealFilters(rl) == old(RealFilters(rl));
  }

  // ---- Complex cascades: no stage or one ------------------------------------------------------

  ghost function WideStages(cx: seq<ComplexStage>): set<object> {
    if |cx| == 1 then {cx[0].wideStage} else {}
  }

  ghost predicate ComplexOk(cx: seq<ComplexStage>)
    reads cx, WideStages(cx)
  {
    |cx| <= 1 && (|cx| == 1 ==> cx[0].Valid())
  }

  ghost function ComplexFilters(cx: seq<ComplexStage>): (fs: seq<StageFilter>)
    requires ComplexOk(cx)
    reads cx, WideStages(cx)
    ensures |fs| == |cx|
  {
    if |cx| == 1 then [Cx(cx[0].Denote())] else []
  }

  ghost predicate ComplexBudget(cx: seq<ComplexStage>, n: nat)
    reads cx, WideStages(cx)
  {
    |cx| == 1 ==> cx[0].Budget() == n
  }

  // Some stage has left int32.
  ghost predicate GoneWide(cx: seq<ComplexStage>)
    reads cx
  {
    |cx| == 1 && cx[0].wide
  }

  method ComplexInverse(cx: seq<ComplexStage>, er: int, ei: int, ghost left: nat) returns (xr: int, xi: int)
    requires ComplexOk(cx) && ComplexBudget(cx, left) && left > 0 && FitsS32(er) && FitsS32(ei)
    modifies cx, WideStages(cx)
    ensures ComplexOk(cx) && ComplexBudget(cx, left - 1)
    ensures ((xr, xi), ComplexFilters(cx)) == CascadeInverse(Inverse, old(ComplexFilters(cx)), (er, ei))
    ensures GoneWide(cx) ==> old(GoneWide(cx)) || !FitsS32(xr) || !FitsS32(xi)
  {
    ghost var fs := ComplexFilters(cx);
    ghost var vals, gs := TabulateInverse(fs, (er, ei));
    xr, xi := er, ei;
    for s := |cx| downto 0
      invariant ComplexOk(cx) && ComplexBudget(cx, if s == |cx| then left else left - 1)
      invariant ComplexFilters(cx) == (if s == |cx| then fs else gs)
      invariant (xr, xi) == vals[s]
      invariant GoneWide(cx) ==> old(GoneWide(cx)) || (s < |cx| && (!FitsS32(xr) || !FitsS32(xi)))
    {
      assert Inverse(fs[s], vals[s + 1]) == (vals[s], gs[s]);
      PredictionBound(cx[s].Denote());
      xr, xi := cx[s].Inverse(xr, xi);
      assert ComplexFilters(cx) == gs;
    }
  }

  method ComplexForward(cx: seq<ComplexStage>, xr: int, xi: int, ghost left: nat) returns (er: int, ei: int)
    requires ComplexOk(cx) && ComplexBudget(cx, left) && left > 0 && FitsS32(xr) && FitsS32(xi)
    modifies cx, WideStages(cx)
    ensures ComplexOk(cx) && ComplexBudget(cx, left - 1)
    ensures ((er, ei), ComplexFilters(cx)) == CascadeForward(Forward, old(ComplexFilters(cx)), (xr, xi))
    ensures GoneWide(cx) == old(GoneWide(cx))
  {
    ghost var fs := ComplexFilters(cx);
    ghost var vals, gs := TabulateForward(fs, (xr, xi));
    er, ei := xr, xi;
    for s := 0 to |cx|
      invariant ComplexOk(cx) && ComplexBudget(cx, if s == 0 then left else left - 1)
      invariant ComplexFilters(cx) == (if s == 0 then fs else gs)
      invariant (er, ei) == vals[s]
      invariant GoneWide(cx) == old(GoneWide(cx))
    {
      assert Forward(fs[s], vals[s]) == (vals[s + 1], gs[s]);
      PredictionBound(cx[s].Denote());
      er, ei := cx[s].Forward(er, ei);
      assert ComplexFilters(cx) == gs;
    }
  }

  method ComplexBegin(cx: seq<ComplexStage>, steps: nat)
    requires ComplexOk(cx)
    modifies cx, WideStages(cx)
    ensures ComplexOk(cx) && ComplexBudget(cx, steps) && ComplexFilters(cx) == old(ComplexFilters(cx))
    ensures GoneWide(cx) == old(GoneWide(cx))
  {
    for s := 0 to |cx|
      invariant ComplexOk(cx) && ComplexFilters(cx) == old(ComplexFilters(cx)) && GoneWide(cx) == old(GoneWide(cx))
      invariant s == |cx| ==> ComplexBudget(cx, steps)
    {
      cx[s].BeginPacket(steps);
    }
  }

  method BuildIq() returns (cx: seq<ComplexStage>)
    ensures ComplexOk(cx) && ComplexFilters(cx) == IqFilters() && !GoneWide(cx)
    ensures fresh((set s | s in cx) + WideStages(cx))
  {
    var s := new ComplexStage(16, 16);
    cx := [s];
  }

  method BuildAudio() returns (rl: seq<RealStage>)
    ensures RealOk(rl) && RealFilters(rl) == AudioFilters() && fresh(set s | s in rl)
  {
    var s0 := new RealStage(8, 16);
    var s1 := new RealStage(8, 16);
    var s2 := new RealStage(4, 32);
    var s3 := new RealStage(2, 32);
    rl := [s0, s1, s2, s3];
    assert RealFilters(rl) == AudioFilters();
  }

  // ---- The class ------------------------------------------------------------------------------

  /** The decoder of the payloads of a stream, with the stages of its profile. */
  class PredictiveCodec {
    var id: nat
    var complex: bool
    var cx: seq<ComplexStage>
    var rl: seq<RealStage>

    constructor ()
      ensures Valid() && Denote() == INITIAL_CODEC && Stages() == {} && !GoneWide(cx)
    {
      id, complex, cx, rl := NO_PROFILE, false, [], [];
    }

    ghost predicate Valid()
      reads this, Stages()
    {
      ComplexOk(cx) && RealOk(rl) && if complex then rl == [] else cx == []
    }

    ghost function Stages(): set<object>
      reads this
    {
      (set s | s in cx) + WideStages(cx) + (set s | s in rl)
    }

    ghost function Filters(): seq<StageFilter>
      requires Valid()
      reads this, Stages()
    {
      if complex then ComplexFilters(cx) else RealFilters(rl)
    }

    ghost function Denote(): Codec
      requires Valid()
      reads this, Stages()
    {
      Codec(id, complex, Filters())
    }

    ghost predicate Budget(n: nat)
      reads this, Stages()
    {
      ComplexBudget(cx, n) && RealBudget(rl, n)
    }

    method Configure(profile: nat) returns (r: Result<()>)
      requires Valid()
      modifies this
      ensures Valid() && fresh(Stages() - old(Stages()))
      ensures (Denote(), r) == CodecModel.Configure(old(Denote()), profile)
      ensures GoneWide(cx) ==> old(GoneWide(cx))
    {
      if id == profile {
        return Ok(());
      }
      if profile == PROFILE_IQ || profile == PROFILE_IQ_SCALED {
        complex, rl := true, [];
        cx := BuildIq();
      } else if profile == PROFILE_AUDIO {
        complex, cx := false, [];
        rl := BuildAudio();
      } else {
        cx, rl := [], [];
        id := NO_PROFILE;
        return Err(CodecUnknownProfile);
      }
      id := profile;
      return Ok(());
    }

    method BeginPacket(steps: nat)
      requires Valid()
      modifies Stages()
      ensures Valid() && Budget(steps) && Filters() == old(Filters()) && GoneWide(cx) == old(GoneWide(cx))
    {
      ComplexBegin(cx, steps);
      RealBegin(rl, steps);
    }

    // One sample position in the encoder's direction.
    method ForwardFrame(a: int, b: int, ghost left: nat)
      requires Valid() && Budget(left) && left > 0 && FitsS32(a) && FitsS32(b) && (!complex ==> b == 0)
      modifies Stages()
      ensures Valid() && Budget(left - 1) && GoneWide(cx) == old(GoneWide(cx))
      ensures Filters() == CascadeForward(Forward, old(Filters()), (a, b)).1
    {
      if complex {
        var er, ei := ComplexForward(cx, a, b, left);
      } else {
        var e := RealForward(rl, a, left);
      }
    }

    // One sample position in the decoder's direction.
    method InverseFrame(a: int, b: int, ghost left: nat) returns (x: Frame)
      requires Valid() && Budget(left) && left > 0 && FitsS32(a) && FitsS32(b) && (!complex ==> b == 0)
      modifies Stages()
      ensures Valid() && Budget(left - 1)
      ensures (x, Filters()) == CascadeInverse(Inverse, old(Filters()), (a, b))
      ensures GoneWide(cx) ==> old(GoneWide(cx)) || !FitsS32(x.0) || !FitsS32(x.1)
    {
      if complex {
        var xr, xi := ComplexInverse(cx, a, b, left);
        x := (xr, xi);
      } else {
        var y := RealInverse(rl, a, left);
        x := (y, 0);
      }
    }

    // Advance the filters over samples that are known: those of an escape, or silence.
    method FollowSamples(s: seq<int>)
      requires Valid() && GoodCount(Denote(), |s|) && AllFitS16(s)
      modifies Stages()
      ensures Valid() && Denote() == Follow(old(Denote()), s) && GoneWide(cx) == old(GoneWide(cx))
    {
      var step := StepSize(complex);
      BeginPacket(|s| / step);
      ghost var fs, fr := Filters(), ToFrames(complex, s);
      ghost var runs := seq(|fr| + 1, k requires 0 <= k <= |fr| => ForwardRun(Forward, fs, fr, k));
      assert runs[0] == ForwardRun(Forward, fs, fr, 0);
      FollowLoop(s, |s| / step, fs, fr, runs);
      assert runs[|fr|] == ForwardRun(Forward, fs, fr, |fr|);
    }

    method FollowLoop(s: seq<int>, n: nat, ghost fs: seq<StageFilter>, ghost fr: seq<Frame>, ghost runs: seq<FrameRun>)
      requires Valid() && GoodCount(Denote(), |s|) && AllFitS16(s) && fr == ToFrames(complex, s) && n == |fr|
      requires ForwardRuns(fs, fr, runs) && Filters() == runs[0].1 && Budget(n)
      modifies Stages()
      ensures Valid() && Filters() == runs[n].1 && GoneWide(cx) == old(GoneWide(cx))
    {
      for i := 0 to n
        invariant Valid() && Budget(n - i) && Filters() == runs[i].1
        invariant GoneWide(cx) == old(GoneWide(cx))
      {
        FollowFrame(s, i, n - i, fs, fr, runs);
      }
    }

    method FollowFrame(s: seq<int>, i: nat, ghost left: nat, ghost fs: seq<StageFilter>, ghost fr: seq<Frame>,
                       ghost runs: seq<FrameRun>)
      requires Valid() && GoodCount(Denote(), |s|) && AllFitS16(s) && fr == ToFrames(complex, s)
      requires ForwardRuns(fs, fr, runs) && i < |fr| && Filters() == runs[i].1 && Budget(left) && left > 0
      modifies Stages()
      ensures Valid() && Budget(left - 1) && Filters() == runs[i + 1].1 && GoneWide(cx) == old(GoneWide(cx))
    {
      var step := StepSize(complex);
      var a := s[step * i];
      var b := if step == 2 then s[step * i + 1] else 0;
      assert (a, b) == fr[i];
      ForwardRunNext(fs, fr, runs, i);
      ForwardFrame(a, b, left);
    }

    method AdvanceSilence(count: int) returns (r: Result<()>)
      requires Valid()
      modifies Stages()
      ensures Valid() && (Denote(), r) == CodecModel.AdvanceSilence(old(Denote()), count)
      ensures GoneWide(cx) == old(GoneWide(cx))
    {
      if count <= 0 || count % StepSize(complex) != 0 {
        return Err(CodecBadSampleCount);
      }
      FollowSamples(seq(count, _ => 0));
      return Ok(());
    }

    method DecodeBody(body: seq<Byte>, count: int, escape: bool, simd: Simd) returns (r: Result<seq<int>>)
      requires Valid()
      modifies Stages()
      ensures Valid() && (Denote(), r) == CodecModel.DecodeBody(old(Denote()), body, count, escape)
      ensures !old(GoneWide(cx)) && StaysNarrow(old(Denote()), body, count, escape) ==> !GoneWide(cx)
    {
      hide PredictiveCodec.Valid, Rice.Decode, Follow, EscapedSamples, InverseRun, ToFrames, FromFrames, FramesFit;
      if count <= 0 || count % StepSize(complex) != 0 {
        return Err(CodecBadSampleCount);
      }
      if escape {
        if |body| < 2 * count {
          return Err(CodecEscapeTruncated);
        }
        var s := ReadEscape(body, count);
        FollowSamples(s);
        return Ok(s);
      }
      if |body| < 1 {
        return Err(CodecEmptyPayload);
      }
      var res := Rice.RiceDecodeResiduals(body, count);
      if res.Err? {
        return Err(res.error);
      }
      var out := InverseSamples(res.value, simd);
      return Ok(out);
    }

    method ReadEscape(body: seq<Byte>, count: nat) returns (s: seq<int>)
      requires |body| >= 2 * count
      ensures s == EscapedSamples(body, count) && AllFitS16(s)
    {
      s := [];
      for i := 0 to count
        invariant |s| == i && AllFitS16(s)
        invariant forall k :: 0 <= k < i ==> s[k] == EscapedSamples(body, count)[k]
      {
        s := s + [WrapS16(body[2 * i] as int + 256 * body[2 * i + 1] as int)];
      }
    }

    // Reconstruct a packet's samples, in the vector kernel or frame by frame.
    method InverseSamples(res: Samples32, simd: Simd) returns (out: seq<int>)
      requires Valid() && GoodCount(Denote(), |res|)
      modifies Stages()
      ensures Valid()
      ensures var es := ToFrames(old(complex), res);
              var run := InverseRun(Inverse, old(Filters()), es, |es|);
              && Denote() == old(Denote()).(filters := run.1)
              && out == Truncate16(FromFrames(old(complex), run.0))
              && (!old(GoneWide(cx)) && FramesFit(run.0) ==> !GoneWide(cx))
    {
      BeginPacket(|res| / StepSize(complex));
      if complex && |cx| == 1 {
        var ok;
        ok, out := BlockSamples(res, simd);
        if ok {
          return;
        }
      }
      out := InverseEach(res);
    }

    method BlockSamples(res: Samples32, simd: Simd) returns (ok: bool, out: seq<int>)
      requires Valid() && GoodCount(Denote(), |res|) && Budget(|res| / 2) && complex && |cx| == 1
      modifies Stages()
      ensures Valid()
      ensures !ok ==> Denote() == old(Denote()) && Budget(|res| / 2) && GoneWide(cx) == old(GoneWide(cx))
      ensures ok ==> var es := ToFrames(true, res);
                     var run := InverseRun(Inverse, old(Filters()), es, |es|);
                     && Denote() == old(Denote()).(filters := run.1)
                     && out == Truncate16(FromFrames(true, run.0))
                     && (!old(GoneWide(cx)) && FramesFit(run.0) ==> !GoneWide(cx))
    {
      ghost var f := cx[0].Denote();
      assert Filters() == Alone(f);
      ok, out := cx[0].InverseBlock(simd, res, |res| / 2);
      SingleStage(f, res, |res| / 2);
    }

    method InverseEach(res: Samples32) returns (out: seq<int>)
      requires Valid() && GoodCount(Denote(), |res|) && Budget(|res| / StepSize(complex))
      modifies Stages()
      ensures Valid()
      ensures var es := ToFrames(old(complex), res);
              var run := InverseRun(Inverse, old(Filters()), es, |es|);
              && Denote() == old(Denote()).(filters := run.1)
              && out == Truncate16(FromFrames(old(complex), run.0))
              && (!old(GoneWide(cx)) && FramesFit(run.0) ==> !GoneWide(cx))
    {
      hide Valid, Filters, Budget, GoneWide, FromFrames, Truncate16, FramesFit;
      var step := StepSize(complex);
      ghost var fs, es := Filters(), ToFrames(complex, res);
      ghost var runs := TabulateRun(fs, es);
      out := InverseLoop(res, |res| / step, fs, es, runs);
    }

    method InverseLoop(res: Samples32, n: nat, ghost fs: seq<StageFilter>, ghost es: seq<Frame>,
                       ghost runs: seq<FrameRun>)
      returns (out: seq<int>)
      requires Valid() && GoodCount(Denote(), |res|) && es == ToFrames(complex, res) && n == |es|
      requires InverseRuns(fs, es, runs) && Filters() == runs[0].1 && runs[0].0 == [] && Budget(n)
      modifies Stages()
      ensures Valid() && Standing(runs[n], out)
      ensures !old(GoneWide(cx)) && FramesFit(runs[n].0) ==> !GoneWide(cx)
    {
      hide Valid, Budget, FramesFit, GoneWide, Standing, Filters, InverseRun, ToFrames, FromFrames, Truncate16;
      out := [];
      StandsAtStart(runs[0]);
      for i := 0 to n
        invariant Valid() && Budget(n - i) && Standing(runs[i], out)
        invariant !old(GoneWide(cx)) && FramesFit(runs[i].0) ==> !GoneWide(cx)
      {
        out := InverseOne(res, i, n - i, out, fs, es, runs);
      }
    }

    lemma StandsAtStart(run: FrameRun)
      requires Valid() && Filters() == run.1 && run.0 == []
      ensures Standing(run, [])
    {
    }

    // The filters stand where a run leads, and `out` is what it gave, as int16.
    ghost predicate Standing(run: FrameRun, out: seq<int>)
      requires Valid()
      reads this, Stages()
    {
      Filters() == run.1 && out == Truncate16(FromFrames(complex, run.0))
    }

    method InverseOne(res: Samples32, i: nat, ghost left: nat, out0: seq<int>,
                      ghost fs: seq<StageFilter>, ghost es: seq<Frame>, ghost runs: seq<FrameRun>)
      returns (out: seq<int>)
      requires Valid() && GoodCount(Denote(), |res|) && es == ToFrames(complex, res)
      requires InverseRuns(fs, es, runs) && i < |es| && Standing(runs[i], out0) && left > 0 && Budget(left)
      modifies Stages()
      ensures Valid() && Budget(left - 1) && Standing(runs[i + 1], out)
      ensures !old(GoneWide(cx)) && FramesFit(runs[i + 1].0) ==> !GoneWide(cx)
      ensures FramesFit(runs[i + 1].0) ==> FramesFit(runs[i].0)
    {
      var step := StepSize(complex);
      var a := res[step * i];
      var b := if step == 2 then res[step * i + 1] else 0;
      assert (a, b) == es[i];
      hide ToFrames, FromFrames, Truncate16, FramesFit, InverseRun, CascadeInverse;
      InverseRunNext(fs, es, runs, i);
      var x := InverseFrame(a, b, left);
      AppendFrame(complex, runs[i].0, x);
      out := if complex then out0 + [WrapS16(x.0), WrapS16(x.1)] else out0 + [WrapS16(x.0)];
    }
  }

  lemma AppendFrame(complex: bool, fr: seq<Frame>, x: Frame)
    ensures Truncate16(FromFrames(complex, fr + [x]))
         == Truncate16(FromFrames(complex, fr)) + if complex then [WrapS16(x.0), WrapS16(x.1)] else [WrapS16(x.0)]
    ensures FramesFit(fr + [x]) <==> FramesFit(fr) && FitsS32(x.0) && FitsS32(x.1)
  {
    var s, t := FromFrames(complex, fr + [x]), FromFrames(complex, fr);
    if complex {
      assert s == t + [x.0, x.1];
    } else {
      assert s == t + [x.0];
    }
    assert (fr + [x])[|fr|] == x;
    assert forall i :: 0 <= i < |fr| ==> (fr + [x])[i] == fr[i];
  }

  function Alone(f: ComplexFilter): seq<StageFilter>
    requires f.Ok()
  {
    [Cx(f)]
  }

  // A cascade of one complex stage is that stage.
  lemma {:induction false} SingleStage(f: ComplexFilter, res: seq<int>, n: nat)
    requires f.Ok() && |res| % 2 == 0 && 2 * n <= |res|
    ensures var run := InverseRun(Inverse, Alone(f), ToFrames(true, res), n);
            && run.1 == Alone(InverseFrames(f, res, n).1)
            && FromFrames(true, run.0) == InverseFrames(f, res, n).0
            && (FramesFit(run.0) <==> AllFitS32(InverseFrames(f, res, n).0))
  {
    var es := ToFrames(true, res);
    if n > 0 {
      SingleStage(f, res, n - 1);
      var done := InverseRun(Inverse, Alone(f), es, n - 1);
      var g := InverseFrames(f, res, n - 1).1;
      assert es[n - 1] == Predictor.Frame(res, n - 1);
      SingleCascade(g, es[n - 1]);
      AppendSample(done.0, g.Inverse(es[n - 1]).0);
    }
  }

  lemma SingleCascade(g: ComplexFilter, e: Frame)
    requires g.Ok()
    ensures CascadeInverse(Inverse, Alone(g), e) == (g.Inverse(e).0, Alone(g.Inverse(e).1))
  {
    var fs := Alone(g);
    assert Undone(Inverse, fs, e, 1) == e;
    assert Undone(Inverse, fs, e, 0) == Inverse(fs[0], e).0;
    assert CascadeInverse(Inverse, fs, e).1 == Alone(g.Inverse(e).1);
  }

  lemma AppendSample(fr: seq<Frame>, x: Frame)
    ensures FromFrames(true, fr + [x]) == FromFrames(true, fr) + [x.0, x.1]
    ensures FramesFit(fr + [x]) <==> FramesFit(fr) && FitsS32(x.0) && FitsS32(x.1)
    ensures AllFitS32(FromFrames(true, fr) + [x.0, x.1]) <==>
            AllFitS32(FromFrames(true, fr)) && FitsS32(x.0) && FitsS32(x.1)
  {
    AppendFrame(true, fr, x);
    FitsFrame(FromFrames(true, fr), x.0, x.1);
  }
}
