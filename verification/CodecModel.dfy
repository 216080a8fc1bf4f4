/**
  * The payload codec on values: cascades of filters over frames, packets of samples over cascades,
  * and the encoder that uses the same filters in the other direction. The decoder never receives a
  * coefficient; what keeps it in step is proved here.
  */
module CodecModel {
  import opened Machine
  import opened Predictor
  import opened Outcomes
  import opened Lockstep
  import Rice

  // I and Q of one position; mono audio leaves the second component zero.
  type Frame = (int, int)

  datatype Filter = Cx(c: ComplexFilter) | Rl(r: RealFilter) {
    predicate Ok() {
      match this case Cx(c) => c.Ok() case Rl(r) => r.Ok()
    }
  }

  type StageFilter = f: Filter | f.Ok() witness Cx(NewComplexFilter(1, 0))

  // The encoder's direction. A real stage works on the first component.
  function Forward(f: StageFilter, x: Frame): (Frame, StageFilter) {
    match f
    case Cx(c) => var (e, g) := c.Forward(x); (e, Cx(g))
    case Rl(r) => var (e, g) := r.Forward(x.0); ((e, x.1), Rl(g))
  }

  // The decoder's direction.
  function Inverse(f: StageFilter, e: Frame): (Frame, StageFilter) {
    match f
    case Cx(c) => var (x, g) := c.Inverse(e); (x, Cx(g))
    case Rl(r) => var (x, g) := r.Inverse(e.0); ((x, e.1), Rl(g))
  }

  // The server's residual, inverted, is the sample, and both ends' filters have moved alike.
  lemma StageBack()
    ensures Inverts(Forward, Inverse)
  {
    forall f: StageFilter, x: Frame
      ensures Inverse(f, Forward(f, x).0) == (x, Forward(f, x).1)
    {
      StageBackAt(f, x);
    }
  }

  lemma StageBackAt(f: StageFilter, x: Frame)
    ensures Inverse(f, Forward(f, x).0) == (x, Forward(f, x).1)
  {
  }

  // ---- Samples and frames ---------------------------------------------------------------------

  function StepSize(complex: bool): nat { if complex then 2 else 1 }

  // Mono: nothing in the second components.
  predicate AllFlat(fr: seq<Frame>) { forall i :: 0 <= i < |fr| ==> fr[i].1 == 0 }

  function ToFrames(complex: bool, s: seq<int>): (fr: seq<Frame>)
    requires |s| % StepSize(complex) == 0
    ensures |fr| == |s| / StepSize(complex)
    ensures !complex ==> AllFlat(fr)
  {
    if complex then seq(|s| / 2, i requires 0 <= i < |s| / 2 => (s[2 * i], s[2 * i + 1]))
    else seq(|s|, i requires 0 <= i < |s| => (s[i], 0))
  }

  function FromFrames(complex: bool, fr: seq<Frame>): (s: seq<int>)
    ensures |s| == |fr| * StepSize(complex)
  {
    if complex then seq(2 * |fr|, i requires 0 <= i < 2 * |fr| => if i % 2 == 0 then fr[i / 2].0 else fr[i / 2].1)
    else seq(|fr|, i requires 0 <= i < |fr| => fr[i].0)
  }

  lemma FramesBack(complex: bool, s: seq<int>)
    requires |s| % StepSize(complex) == 0
    ensures FromFrames(complex, ToFrames(complex, s)) == s
  {
    var fr := ToFrames(complex, s);
    forall i | 0 <= i < |s|
      ensures FromFrames(complex, fr)[i] == s[i]
    {
      HalfIndex(i);
    }
  }

  lemma HalfIndex(i: nat)
    ensures i == 2 * (i / 2) + i % 2
  {
  }

  lemma SamplesBack(complex: bool, fr: seq<Frame>)
    requires complex || AllFlat(fr)
    ensures |FromFrames(complex, fr)| % StepSize(complex) == 0 && ToFrames(complex, FromFrames(complex, fr)) == fr
  {
    var s := FromFrames(complex, fr);
    if complex {
      assert |s| / 2 == |fr|;
      forall i | 0 <= i < |fr|
        ensures ToFrames(complex, s)[i] == fr[i]
      {
        assert s[2 * i] == fr[2 * i / 2].0 && s[2 * i + 1] == fr[(2 * i + 1) / 2].1;
      }
    }
  }

  // ---- The codec ------------------------------------------------------------------------------

  const PROFILE_IQ: nat := 0
  const PROFILE_AUDIO: nat := 1
  const PROFILE_IQ_SCALED: nat := 2
  const NO_PROFILE: nat := 0xff

  datatype Codec = Codec(id: nat, complex: bool, filters: seq<StageFilter>)

  const INITIAL_CODEC: Codec := Codec(NO_PROFILE, false, [])

  function IqFilters(): seq<StageFilter> {
    [Cx(NewComplexFilter(16, 16))]
  }

  function AudioFilters(): seq<StageFilter> {
    [Rl(NewRealFilter(8, 16)), Rl(NewRealFilter(8, 16)), Rl(NewRealFilter(4, 32)), Rl(NewRealFilter(2, 32))]
  }

  // The same profile keeps its filters; another starts afresh; an unknown one leaves none.
  function Configure(c: Codec, profile: nat): (r: (Codec, Result<()>)) {
    if c.id == profile then (c, Ok(()))
    else if profile == PROFILE_IQ || profile == PROFILE_IQ_SCALED then (Codec(profile, true, IqFilters()), Ok(()))
    else if profile == PROFILE_AUDIO then (Codec(profile, false, AudioFilters()), Ok(()))
    else (Codec(NO_PROFILE, c.complex, []), Err(CodecUnknownProfile))
  }

  // Every filter of a new codec: one of the order and step given, that has heard nothing.
  predicate Fresh(f: StageFilter, complex: bool, order: nat, mu: nat) {
    match f
    case Cx(c) => complex && c.mu == mu && |c.wr| == order && forall j :: 0 <= j < order ==>
                    c.wr[j] == c.wi[j] == c.hr[j] == c.hi[j] == 0
    case Rl(r) => !complex && r.mu == mu && |r.w| == order && forall j :: 0 <= j < order ==> r.w[j] == r.h[j] == 0
  }

  // The profiles there are: 0 and 2 for IQ, with one complex filter of order 16 and step 16; 1 for audio, with
  // real filters of orders 8, 8, 4 and 2 and steps 16, 16, 32 and 32.
  lemma Profiles(c: Codec, profile: nat)
    requires c.id != profile
    ensures var (d, r) := Configure(c, profile);
            if profile == 0 || profile == 2 then
              r.Ok? && d.id == profile && d.complex && |d.filters| == 1 && Fresh(d.filters[0], true, 16, 16)
            else if profile == 1 then
              && r.Ok? && d.id == profile && !d.complex && |d.filters| == 4
              && Fresh(d.filters[0], false, 8, 16) && Fresh(d.filters[1], false, 8, 16)
              && Fresh(d.filters[2], false, 4, 32) && Fresh(d.filters[3], false, 2, 32)
            else r == Err(CodecUnknownProfile) && d.filters == [] && d.id == 0xff
  {
  }

  predicate GoodCount(c: Codec, count: int) { count > 0 && count % StepSize(c.complex) == 0 }

  // Both sides over samples that are known.
  function Follow(c: Codec, s: seq<int>): Codec
    requires |s| % StepSize(c.complex) == 0
  {
    var fr := ToFrames(c.complex, s);
    c.(filters := ForwardRun(Forward, c.filters, fr, |fr|).1)
  }

  function AdvanceSilence(c: Codec, count: int): (Codec, Result<()>) {
    if !GoodCount(c, count) then (c, Err(CodecBadSampleCount))
    else (Follow(c, seq(count, _ => 0)), Ok(()))
  }

  // The int16 samples an escape carries.
  function EscapedSamples(body: seq<Byte>, count: nat): (s: seq<int>)
    requires |body| >= 2 * count
    ensures |s| == count
  {
    seq(count, i requires 0 <= i < count => WrapS16(body[2 * i] as int + 256 * body[2 * i + 1] as int))
  }

  // Each is two bytes, the low one first, as a signed word.
  lemma EscapeLayout(body: seq<Byte>, count: nat, i: nat)
    requires |body| >= 2 * count && i < count
    ensures var low, high := body[2 * i] as int, body[2 * i + 1] as int;
            EscapedSamples(body, count)[i] == low + 256 * (if high < 128 then high else high - 256)
  {
  }

  function DecodeBody(c: Codec, body: seq<Byte>, count: int, escape: bool): (r: (Codec, Result<seq<int>>))
    ensures r.1.Ok? ==> |r.1.value| == count
    ensures r.0.id == c.id && r.0.complex == c.complex
    ensures r.1.Err? ==> r.0 == c
  {
    if !GoodCount(c, count) then (c, Err(CodecBadSampleCount))
    else if escape then
      if |body| < 2 * count then (c, Err(CodecEscapeTruncated))
      else
        var s := EscapedSamples(body, count);
        (Follow(c, s), Ok(s))
    else if |body| < 1 then (c, Err(CodecEmptyPayload))
    else
      match Rice.Decode(body, count)
      case Err(e) => (c, Err(e))
      case Ok(res) =>
        var es := ToFrames(c.complex, res);
        var run := InverseRun(Inverse, c.filters, es, |es|);
        (c.(filters := run.1), Ok(Truncate16(FromFrames(c.complex, run.0))))
  }

  // Every sample this body reconstructs, before its conversion to int16, is in int32.
  ghost predicate StaysNarrow(c: Codec, body: seq<Byte>, count: int, escape: bool) {
    GoodCount(c, count) && !escape && |body| >= 1 && Rice.Decode(body, count).Ok? ==>
      var es := ToFrames(c.complex, Rice.Decode(body, count).value);
      FramesFit(InverseRun(Inverse, c.filters, es, |es|).0)
  }

  predicate FramesFit(fr: seq<Frame>) {
    forall i :: 0 <= i < |fr| ==> FitsS32(fr[i].0) && FitsS32(fr[i].1)
  }

  // ---- The encoder ----------------------------------------------------------------------------

  datatype Mode = Coded(k: nat) | Escape | Silent

  function ResidualsOf(c: Codec, s: seq<int>): (res: seq<int>)
    requires |s| % StepSize(c.complex) == 0
    ensures |res| == |s|
  {
    var fr := ToFrames(c.complex, s);
    FromFrames(c.complex, ForwardRun(Forward, c.filters, fr, |fr|).0)
  }

  function EscapeBytes(s: seq<int>): (b: seq<Byte>)
    ensures |b| == 2 * |s|
  {
    seq(2 * |s|, i requires 0 <= i < 2 * |s| => if i % 2 == 0 then s[i / 2] % 256 else s[i / 2] / 256 % 256)
  }

  predicate AllFitS16(s: seq<int>) { forall i :: 0 <= i < |s| ==> FitsS16(s[i]) }

  // A mode a server may choose for these samples. Residuals that leave int32 need an escape.
  predicate Codable(c: Codec, s: seq<int>, mode: Mode) {
    && GoodCount(c, |s|) && AllFitS16(s)
    && match mode
       case Coded(k) => k <= 30 && AllFitS32(ResidualsOf(c, s))
       case Escape => true
       case Silent => forall i :: 0 <= i < |s| ==> s[i] == 0
  }

  function EncodeBody(c: Codec, s: seq<int>, mode: Mode): seq<Byte>
    requires Codable(c, s, mode)
  {
    match mode
    case Coded(k) => Rice.Encode(ResidualsOf(c, s), k)
    case Escape => EscapeBytes(s)
    case Silent => []
  }

  // A coded body gives the samples back, and moves the decoder's filters as coding moved the server's.
  lemma CodedBack(c: Codec, s: seq<int>, k: nat)
    requires Codable(c, s, Coded(k)) && Uniform(c)
    ensures DecodeBody(c, EncodeBody(c, s, Coded(k)), |s|, false) == (Follow(c, s), Ok(s))
    ensures StaysNarrow(c, EncodeBody(c, s, Coded(k)), |s|, false)
  {
    hide CascadeForward, CascadeInverse, Rice.Encode, Rice.Decode;
    var fr := ToFrames(c.complex, s);
    var run := ForwardRun(Forward, c.filters, fr, |fr|);
    var res := ResidualsOf(c, s);
    Rice.RoundTrip(res, k, []);
    assert Rice.Encode(res, k) + [] == Rice.Encode(res, k);
    StageBack();
    PacketBack(Forward, Inverse, c.filters, fr);
    RunStaysUniform(c, fr);
    SamplesBack(c.complex, run.0);
    FramesBack(c.complex, s);
    TruncateFits(s);
  }

  // A codec holds stages of its kind only.
  predicate Uniform(c: Codec) { forall f :: f in c.filters ==> f.Cx? == c.complex }

  // A mono cascade keeps to the first component, and every cascade to its kind.
  lemma RunStaysUniform(c: Codec, fr: seq<Frame>)
    requires Uniform(c) && (c.complex || AllFlat(fr))
    ensures Uniform(c.(filters := ForwardRun(Forward, c.filters, fr, |fr|).1))
    ensures c.complex || AllFlat(ForwardRun(Forward, c.filters, fr, |fr|).0)
  {
    if c.complex {
      RunKeeps(Forward, c.filters, fr, |fr|, (f: StageFilter) => f.Cx?, (x: Frame) => true);
    } else {
      RunKeeps(Forward, c.filters, fr, |fr|, (f: StageFilter) => f.Rl?, (x: Frame) => x.1 == 0);
    }
  }

  lemma TruncateFits(s: seq<int>)
    requires AllFitS16(s)
    ensures Truncate16(s) == s
  {
  }

  lemma EscapeBack(s: seq<int>)
    requires AllFitS16(s)
    ensures EscapedSamples(EscapeBytes(s), |s|) == s
  {
    var b := EscapeBytes(s);
    forall i | 0 <= i < |s|
      ensures EscapedSamples(b, |s|)[i] == s[i]
    {
      assert b[2 * i] == s[2 * i / 2] % 256 && b[2 * i + 1] == s[(2 * i + 1) / 2] / 256 % 256;
      SampleBack(s[i]);
    }
  }

  lemma SampleBack(x: int)
    requires FitsS16(x)
    ensures WrapS16(x % 256 + 256 * (x / 256 % 256)) == x
  {
  }

  // Whatever the mode, the decoder gives the samples and its filters stand where the server's do.
  lemma BodyBack(c: Codec, s: seq<int>, mode: Mode)
    requires Codable(c, s, mode) && Uniform(c)
    ensures !mode.Silent? ==> DecodeBody(c, EncodeBody(c, s, mode), |s|, mode.Escape?) == (Follow(c, s), Ok(s))
    ensures mode.Silent? ==> AdvanceSilence(c, |s|) == (Follow(c, s), Ok(()))
    ensures Uniform(Follow(c, s))
  {
    RunStaysUniform(c, ToFrames(c.complex, s));
    match mode
    case Coded(k) => CodedBack(c, s, k);
    case Escape => EscapeBack(s);
    case Silent => assert s == seq(|s|, _ => 0);
  }

  // ---- The complex profile's bounds -----------------------------------------------------------

  const MAX_PREDICTION: int := 0x1000_0000   // 2^28

  // The IQ filter as it stands after int16 samples only.
  ghost predicate Tame(f: Filter) {
    f.Cx? && f.c.Ok() && |f.c.wr| == 16 && AllFitS16(f.c.hr) && AllFitS16(f.c.hi)
  }

  lemma TamePrediction(f: ComplexFilter)
    requires Tame(Cx(f))
    ensures Abs(f.SumR()) <= MAX_PREDICTION * TAP_SCALE && Abs(f.SumI()) <= MAX_PREDICTION * TAP_SCALE
    ensures Abs(f.Predict().0) <= MAX_PREDICTION && Abs(f.Predict().1) <= MAX_PREDICTION
  {
    assert Bounded(f.hr, TWO_15) && Bounded(f.hi, TWO_15);
    ComplexSumBound(f, TWO_15);
    assert 2 * (16 * (TAP_LIMIT * TWO_15)) == MAX_PREDICTION * TAP_SCALE;
    RoundBound(f.SumR());
    RoundBound(f.SumI());
  }

  lemma RoundBound(v: int)
    requires Abs(v) <= MAX_PREDICTION * TAP_SCALE
    ensures WrapS64(v) == v && Abs(PredRoundShift(v)) <= MAX_PREDICTION
  {
  }

  // A residual of no more than 30 bits with its sign, whose zigzag fits a uint32.
  predicate SmallResidual(r: int) {
    Abs(r) <= MAX_PREDICTION + TWO_15 && FitsS32(r) && Rice.Zigzag(r) < TWO_32
  }

  // One int16 frame leaves small residuals and a tame filter.
  lemma TameForward(f: ComplexFilter, x: Frame)
    requires Tame(Cx(f)) && FitsS16(x.0) && FitsS16(x.1)
    ensures var (e, g) := f.Forward(x);
            && SmallResidual(e.0) && SmallResidual(e.1) && Tame(Cx(g))
  {
    TamePrediction(f);
  }

  lemma {:induction false} TameRun(fs: seq<StageFilter>, xs: seq<Frame>, n: nat)
    requires n <= |xs| && |fs| == 1 && Tame(fs[0])
    requires forall i :: 0 <= i < |xs| ==> FitsS16(xs[i].0) && FitsS16(xs[i].1)
    ensures var r := ForwardRun(Forward, fs, xs, n);
            && Tame(r.1[0])
            && forall i :: 0 <= i < n ==> SmallResidual(r.0[i].0) && SmallResidual(r.0[i].1)
  {
    if n > 0 {
      TameRun(fs, xs, n - 1);
      var gs := ForwardRun(Forward, fs, xs, n - 1).1;
      TameForward(gs[0].c, xs[n - 1]);
      assert Through(Forward, gs, xs[n - 1], 1) == Forward(gs[0], Through(Forward, gs, xs[n - 1], 0)).0;
    }
  }

  ghost predicate TameCodec(c: Codec) {
    c.complex && |c.filters| == 1 && Tame(c.filters[0])
  }

  // What the filter predicts for frame i of a packet of int16 samples.
  ghost function PredictionAt(c: Codec, s: seq<int>, i: nat): Frame
    requires TameCodec(c) && |s| % 2 == 0 && AllFitS16(s) && i < |s| / 2
  {
    var fr := ToFrames(c.complex, s);
    TameRun(c.filters, fr, i);
    ForwardRun(Forward, c.filters, fr, i).1[0].c.Predict()
  }

  lemma PredictionsSmall(c: Codec, s: seq<int>, i: nat)
    requires TameCodec(c) && |s| % 2 == 0 && AllFitS16(s) && i < |s| / 2
    ensures Abs(PredictionAt(c, s, i).0) <= MAX_PREDICTION && Abs(PredictionAt(c, s, i).1) <= MAX_PREDICTION
  {
    var fr := ToFrames(c.complex, s);
    TameRun(c.filters, fr, i);
    TamePrediction(ForwardRun(Forward, c.filters, fr, i).1[0].c);
  }

  // On the complex profile int16 samples can always be coded, and leave the codec able to go on.
  lemma ComplexAlwaysCodable(c: Codec, s: seq<int>, k: nat)
    requires TameCodec(c) && GoodCount(c, |s|) && AllFitS16(s) && k <= 30
    ensures Codable(c, s, Coded(k)) && TameCodec(Follow(c, s))
    ensures forall i :: 0 <= i < |s| ==> SmallResidual(ResidualsOf(c, s)[i])
  {
    var fr := ToFrames(c.complex, s);
    TameRun(c.filters, fr, |fr|);
  }
}
