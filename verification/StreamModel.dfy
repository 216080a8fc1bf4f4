/**
  * Whole packets on values: what the stream decoder does with one, what a server sends, and the
  * lockstep of the two over every stream.
  */
module StreamModel {
  import Bitwise
  import opened Machine
  import opened Outcomes
  import opened Predictor
  import opened CodecModel
  import Headers

  const MAX_SHIFT: nat := 15

  datatype Stream = Stream(header: Headers.State, codec: Codec)

  const INITIAL_STREAM: Stream := Stream(Headers.INITIAL_STATE, INITIAL_CODEC)

  // A sample shifted back up, saturating instead of wrapping.
  function Saturate(x: int): (r: int)
    ensures FitsS16(r) && (FitsS16(x) ==> r == x)
  {
    if x > 32767 then 32767 else if x < -32768 then -32768 else x
  }

  function Restore(s: seq<int>, shift: nat): (r: seq<int>)
    ensures |r| == |s|
  {
    if shift == 0 then s else seq(|s|, i requires 0 <= i < |s| => Saturate(s[i] * Pow2(shift)))
  }

  // Each restored sample is the int16 nearest to the one sent, scaled; so it is that exactly when it fits, and
  // otherwise on the same side of zero and no nearer to it.
  lemma RestoreSample(s: seq<int>, shift: nat, i: nat)
    requires i < |s| && FitsS16(s[i])
    ensures var x, y := s[i], Restore(s, shift)[i];
            && FitsS16(y) && (x > 0 ==> y >= x) && (x == 0 ==> y == 0) && (x < 0 ==> y <= x)
            && (y == x * Pow2(shift) <==> FitsS16(x * Pow2(shift)))
            && forall v {:trigger FitsS16(v)} :: FitsS16(v) ==> Abs(y - x * Pow2(shift)) <= Abs(v - x * Pow2(shift))
  {
    var p := Pow2(shift);
    Bitwise.Pow2Grows(0, shift);
    if s[i] > 0 { MulGrows(s[i], p); } else { MulGrows(-s[i], p); assert (-s[i]) * p == -(s[i] * p); }
  }

  lemma MulGrows(x: nat, p: nat)
    requires p >= 1
    ensures x * p >= x
  {
  }

  type Decoded = Result<(Headers.Header, seq<int>)>

  // The payload of a packet whose header and profile are settled.
  function DecodePayload(c: Codec, pkt: seq<Byte>, h: Headers.Header, off: nat): (Codec, Decoded)
    requires off <= |pkt| && h.sampleCount > 0
  {
    if h.silent then
      if off != |pkt| then (c, Err(StreamSilentWithBody))
      else
        match AdvanceSilence(c, h.sampleCount)
        case (c', Err(e)) => (c', Err(e))
        case (c', Ok(_)) => (c', Ok((h, seq(h.sampleCount, _ => 0))))
    else if h.profile == PROFILE_IQ_SCALED then
      if |pkt| <= off then (c, Err(StreamNoShift))
      else if pkt[off] > MAX_SHIFT then (c, Err(StreamShiftOutOfRange))
      else DecodeSamples(c, pkt[off + 1..], h.(shift := pkt[off]), pkt[off])
    else DecodeSamples(c, pkt[off..], h, 0)
  }

  // On the scaled profile the byte before the body is the shift, at most 15; on the others there is none.
  lemma ShiftComesFirst(c: Codec, pkt: seq<Byte>, h: Headers.Header, off: nat)
    requires off < |pkt| && h.sampleCount > 0 && !h.silent
    ensures h.profile == 2 ==>
              DecodePayload(c, pkt, h, off)
              == if pkt[off] > 15 then (c, Err(StreamShiftOutOfRange))
                 else DecodeSamples(c, pkt[off + 1..], h.(shift := pkt[off]), pkt[off])
    ensures h.profile != 2 ==> DecodePayload(c, pkt, h, off) == DecodeSamples(c, pkt[off..], h, 0)
  {
  }

  function DecodeSamples(c: Codec, body: seq<Byte>, h: Headers.Header, shift: nat): (Codec, Decoded) {
    match DecodeBody(c, body, h.sampleCount, h.escape)
    case (c', Err(e)) => (c', Err(e))
    case (c', Ok(s)) => (c', Ok((h, Restore(s, shift))))
  }

  // The rest of a packet whose header has been read: the packet names its profile.
  function DecodeRest(c: Codec, pkt: seq<Byte>, h: Headers.Header, off: nat): (Codec, Decoded)
    requires off <= |pkt| && h.sampleCount > 0
  {
    match Configure(c, h.profile)
    case (c', Err(e)) => (c', Err(e))
    case (c', Ok(_)) => DecodePayload(c', pkt, h, off)
  }

  // One packet: the state it leaves, and the header with the samples.
  function DecodePacket(st: Stream, pkt: seq<Byte>, h0: Headers.Header): (Stream, Decoded) {
    match Headers.Decode(st.header, pkt, h0)
    case (hs, Err(e)) => (st.(header := hs), Err(e))
    case (hs, Ok((h, off))) =>
      var (c, r) := DecodeRest(st.codec, pkt, h, off);
      (Stream(hs, c), r)
  }

  // ---- The server -----------------------------------------------------------------------------

  // Samples as quantised for this packet, and how it chose to send them.
  datatype Packet = Packet(fields: Headers.Fields, mode: Mode, shift: nat, samples: seq<int>)

  function CodecFor(st: Stream, p: Packet): Codec { Configure(st.codec, p.fields.profile).0 }

  ghost predicate Sendable(st: Stream, p: Packet) {
    && Headers.Encodable(st.header, p.fields)
    && p.fields.profile in {PROFILE_IQ, PROFILE_AUDIO, PROFILE_IQ_SCALED}
    && p.fields.escape == p.mode.Escape? && p.fields.silent == p.mode.Silent?
    && p.fields.count == |p.samples| && p.shift <= MAX_SHIFT
    && Codable(CodecFor(st, p), p.samples, p.mode)
  }

  function ShiftByte(p: Packet): (s: seq<Byte>)
    requires p.shift <= MAX_SHIFT
  {
    if p.fields.profile == PROFILE_IQ_SCALED && !p.mode.Silent? then [p.shift] else []
  }

  function EncodePacket(st: Stream, p: Packet): seq<Byte>
    requires Sendable(st, p)
  {
    Headers.Encode(st.header, p.fields) + (ShiftByte(p) + EncodeBody(CodecFor(st, p), p.samples, p.mode))
  }

  function NextStream(st: Stream, p: Packet): Stream
    requires |p.samples| % StepSize(CodecFor(st, p).complex) == 0
  {
    Stream(Headers.Remember(p.fields), Follow(CodecFor(st, p), p.samples))
  }

  // What the device hears: the samples, shifted back up and saturated on the scaled profile.
  function Heard(p: Packet): seq<int> {
    if p.mode.Silent? then p.samples
    else if p.fields.profile == PROFILE_IQ_SCALED then Restore(p.samples, p.shift) else p.samples
  }

  function HeardHeader(p: Packet, h0: Headers.Header): Headers.Header {
    var h := Headers.HeaderOf(p.fields, h0);
    if p.fields.profile == PROFILE_IQ_SCALED && !p.mode.Silent? then h.(shift := p.shift) else h
  }

  ghost predicate Ready(st: Stream) { Uniform(st.codec) }

  lemma ConfigureUniform(c: Codec, profile: nat)
    requires Uniform(c)
    ensures Uniform(Configure(c, profile).0)
  {
  }

  // The payload, once header and profile are settled.
  lemma PayloadBack(c: Codec, p: Packet, pkt: seq<Byte>, h: Headers.Header, off: nat)
    requires Uniform(c) && Codable(c, p.samples, p.mode) && p.shift <= MAX_SHIFT
    requires h.profile == p.fields.profile && h.escape == p.mode.Escape? && h.silent == p.mode.Silent?
    requires h.sampleCount == |p.samples|
    requires off <= |pkt| && pkt[off..] == ShiftByte(p) + EncodeBody(c, p.samples, p.mode)
    ensures DecodePayload(c, pkt, h, off)
         == (Follow(c, p.samples),
             Ok((if p.fields.profile == PROFILE_IQ_SCALED && !p.mode.Silent? then h.(shift := p.shift) else h,
                 Heard(p))))
  {
    BodyBack(c, p.samples, p.mode);
    var body := EncodeBody(c, p.samples, p.mode);
    if p.mode.Silent? {
      assert pkt[off..] == [];
      assert p.samples == seq(|p.samples|, _ => 0);
    } else if p.fields.profile == PROFILE_IQ_SCALED {
      assert pkt[off] == pkt[off..][0] == p.shift;
      assert pkt[off + 1..] == pkt[off..][1..] == body;
    } else {
      assert ShiftByte(p) + body == body;
    }
  }

  // One packet sent and received: the samples, the header, and both ends in the same state again.
  lemma PacketBack(st: Stream, p: Packet, h0: Headers.Header)
    requires Ready(st) && Sendable(st, p)
    ensures DecodePacket(st, EncodePacket(st, p), h0) == (NextStream(st, p), Ok((HeardHeader(p, h0), Heard(p))))
    ensures Ready(NextStream(st, p))
  {
    var c := CodecFor(st, p);
    var payload := ShiftByte(p) + EncodeBody(c, p.samples, p.mode);
    Headers.RoundTrip(st.header, p.fields, payload, h0);
    ConfigureUniform(st.codec, p.fields.profile);
    var off := |Headers.Encode(st.header, p.fields)|;
    assert EncodePacket(st, p)[off..] == payload;
    PayloadBack(c, p, EncodePacket(st, p), Headers.HeaderOf(p.fields, h0), off);
    BodyBack(c, p.samples, p.mode);
  }

  // ---- Streams --------------------------------------------------------------------------------

  ghost predicate SendableRun(st: Stream, ps: seq<Packet>)
    decreases |ps|
  {
    ps == [] || (Sendable(st, ps[0]) && SendableRun(NextStream(st, ps[0]), ps[1..]))
  }

  function EncodeRun(st: Stream, ps: seq<Packet>): (r: (Stream, seq<seq<Byte>>))
    requires SendableRun(st, ps)
    ensures |r.1| == |ps|
    decreases |ps|
  {
    if ps == [] then (st, [])
    else
      var (end, pkts) := EncodeRun(NextStream(st, ps[0]), ps[1..]);
      (end, [EncodePacket(st, ps[0])] + pkts)
  }

  function DecodeRun(st: Stream, pkts: seq<seq<Byte>>, h0: Headers.Header): (r: (Stream, seq<Decoded>))
    ensures |r.1| == |pkts|
    decreases |pkts|
  {
    if pkts == [] then (st, [])
    else
      var (st1, d) := DecodePacket(st, pkts[0], h0);
      var (end, ds) := DecodeRun(st1, pkts[1..], h0);
      (end, [d] + ds)
  }

  // Whole-stream lockstep: coded, escaped, silent and scaled packets in any order, with any changes of
  // profile. Every packet gives its samples, and the decoder ends with the server's filters and header.
  lemma {:induction false} StreamLockstep(st: Stream, ps: seq<Packet>, h0: Headers.Header)
    requires Ready(st) && SendableRun(st, ps)
    ensures DecodeRun(st, EncodeRun(st, ps).1, h0).0 == EncodeRun(st, ps).0
    ensures forall i :: 0 <= i < |ps| ==>
            DecodeRun(st, EncodeRun(st, ps).1, h0).1[i] == Ok((HeardHeader(ps[i], h0), Heard(ps[i])))
    decreases |ps|
  {
    if ps != [] {
      hide DecodePacket, EncodePacket, Sendable, Ready, Heard, HeardHeader;
      PacketBack(st, ps[0], h0);
      var st1 := NextStream(st, ps[0]);
      StreamLockstep(st1, ps[1..], h0);
      var pkts := EncodeRun(st, ps).1;
      assert pkts[1..] == EncodeRun(st1, ps[1..]).1;
      assert DecodeRun(st, pkts, h0).1 == [DecodePacket(st, pkts[0], h0).1] + DecodeRun(st1, pkts[1..], h0).1;
    }
  }

  // ... from the start of a connection.
  lemma ConnectionLockstep(ps: seq<Packet>, h0: Headers.Header)
    requires SendableRun(INITIAL_STREAM, ps)
    ensures DecodeRun(INITIAL_STREAM, EncodeRun(INITIAL_STREAM, ps).1, h0).0 == EncodeRun(INITIAL_STREAM, ps).0
    ensures forall i :: 0 <= i < |ps| ==>
              DecodeRun(INITIAL_STREAM, EncodeRun(INITIAL_STREAM, ps).1, h0).1[i]
                == Ok((HeardHeader(ps[i], h0), Heard(ps[i])))
  {
    StreamLockstep(INITIAL_STREAM, ps, h0);
  }

  // ---- The IQ profiles never need an escape ---------------------------------------------------

  predicate IsIq(profile: nat) { profile == PROFILE_IQ || profile == PROFILE_IQ_SCALED }

  // Configured for IQ, the one filter has only ever seen int16 samples.
  ghost predicate IqTame(c: Codec) {
    IsIq(c.id) ==> TameCodec(c)
  }

  lemma FollowTame(c: Codec, s: seq<int>)
    requires TameCodec(c) && |s| % 2 == 0 && AllFitS16(s)
    ensures TameCodec(Follow(c, s))
  {
    TameRun(c.filters, ToFrames(c.complex, s), |s| / 2);
  }

  // Every packet a server sends keeps it so.
  lemma TameKept(st: Stream, p: Packet)
    requires IqTame(st.codec) && Sendable(st, p)
    ensures IqTame(NextStream(st, p).codec)
  {
    var c := CodecFor(st, p);
    if IsIq(p.fields.profile) {
      assert TameCodec(c);
      FollowTame(c, p.samples);
    }
  }

  lemma {:induction false} RunStaysTame(st: Stream, ps: seq<Packet>)
    requires IqTame(st.codec) && SendableRun(st, ps)
    ensures IqTame(EncodeRun(st, ps).0.codec)
    decreases |ps|
  {
    hide IqTame;
    if ps != [] {
      TameKept(st, ps[0]);
      RunStaysTame(NextStream(st, ps[0]), ps[1..]);
    }
  }

  lemma IqAlwaysCodable(st: Stream, f: Headers.Fields, k: nat, shift: nat, s: seq<int>)
    requires IqTame(st.codec) && Headers.Encodable(st.header, f) && IsIq(f.profile) && !f.escape && !f.silent
    requires f.count == |s| && |s| % 2 == 0 && AllFitS16(s) && k <= 30 && shift <= MAX_SHIFT
    ensures Sendable(st, Packet(f, Coded(k), shift, s)) && TameCodec(Configure(st.codec, f.profile).0)
  {
    ComplexAlwaysCodable(Configure(st.codec, f.profile).0, s, k);
  }

  // At any point of any connection an IQ packet of int16 samples may be sent coded, with any k: no prediction
  // passes 2^28, and no residual 30 bits with its sign.
  lemma IqNeverEscapes(ps: seq<Packet>, f: Headers.Fields, k: nat, shift: nat, s: seq<int>)
    requires SendableRun(INITIAL_STREAM, ps) && Headers.Encodable(EncodeRun(INITIAL_STREAM, ps).0.header, f)
    requires IsIq(f.profile) && !f.escape && !f.silent && f.count == |s| && |s| % 2 == 0 && AllFitS16(s)
    requires k <= 30 && shift <= MAX_SHIFT
    ensures var st, p := EncodeRun(INITIAL_STREAM, ps).0, Packet(f, Coded(k), shift, s);
            && Sendable(st, p) && TameCodec(CodecFor(st, p))
            && (forall i :: 0 <= i < |s| ==> SmallResidual(ResidualsOf(CodecFor(st, p), s)[i]))
            && forall i :: 0 <= i < |s| / 2 ==>
                 && Abs(PredictionAt(CodecFor(st, p), s, i).0) <= MAX_PREDICTION
                 && Abs(PredictionAt(CodecFor(st, p), s, i).1) <= MAX_PREDICTION
  {
    RunStaysTame(INITIAL_STREAM, ps);
    var st, p := EncodeRun(INITIAL_STREAM, ps).0, Packet(f, Coded(k), shift, s);
    var c := CodecFor(st, p);
    IqAlwaysCodable(st, f, k, shift, s);
    ComplexAlwaysCodable(c, s, k);
    forall i | 0 <= i < |s| / 2
      ensures Abs(PredictionAt(c, s, i).0) <= MAX_PREDICTION && Abs(PredictionAt(c, s, i).1) <= MAX_PREDICTION
    {
      PredictionsSmall(c, s, i);
    }
  }
}
