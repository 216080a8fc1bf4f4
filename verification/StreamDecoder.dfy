/**
  * The packet decoder as a class over its header decoder and its codec, proved against `StreamModel`.
  */
module StreamDecoders {
  import opened Machine
  import opened Outcomes
  import opened Predictor
  import opened CodecModel
  import opened StreamModel
  import opened BlockKernels
  import opened PredictiveCodecs
  import Headers

  /** PCMv4StreamDecoder. */
  class PCMv4StreamDecoder {
    const header: Headers.PCMv4HeaderDecoder
    var codec: PredictiveCodec
    const simd: Simd

    constructor (simd: Simd)
      ensures Valid() && Denote() == INITIAL_STREAM && fresh(Footprint()) && !Wide()
    {
      this.simd := simd;
      header := new Headers.PCMv4HeaderDecoder();
      codec := new PredictiveCodec();
    }

    ghost predicate Valid()
      reads this, codec, codec.Stages()
    {
      codec.Valid()
    }

    ghost function Footprint(): set<object>
      reads this, codec
    {
      {this, header, codec} + codec.Stages()
    }

    ghost function Denote(): Stream
      requires Valid()
      reads this, header, codec, codec.Stages()
    {
      Stream(header.Denote(), codec.Denote())
    }

    ghost predicate Wide()
      reads this, codec, codec.Stages()
    {
      GoneWide(codec.cx)
    }

    // A new socket: nothing of the old stream is left.
    method Reset()
      requires Valid()
      modifies this`codec, header
      ensures Valid() && Denote() == INITIAL_STREAM && !Wide()
      ensures fresh(codec) && codec.Stages() == {}
    {
      header.Reset();
      codec := new PredictiveCodec();
    }

    method Decode(pkt: seq<Byte>, h0: Headers.Header) returns (r: Decoded)
      requires Valid()
      modifies Footprint()
      ensures Valid() && codec == old(codec) && fresh(Footprint() - old(Footprint()))
      ensures (Denote(), r) == DecodePacket(old(Denote()), pkt, h0)
      ensures !old(Wide()) && PacketStaysNarrow(old(Denote()), pkt, h0) ==> !Wide()
    {
      r := DecodeWith(header, codec, simd, pkt, h0);
    }
  }

  // Header first, then the codec.
  method DecodeWith(header: Headers.PCMv4HeaderDecoder, codec: PredictiveCodec, simd: Simd, pkt: seq<Byte>,
                    h0: Headers.Header)
    returns (r: Decoded)
    requires codec.Valid()
    modifies header, codec, codec.Stages()
    ensures codec.Valid() && fresh(codec.Stages() - old(codec.Stages()))
    ensures (Stream(header.Denote(), codec.Denote()), r)
            == DecodePacket(old(Stream(header.Denote(), codec.Denote())), pkt, h0)
    ensures !old(GoneWide(codec.cx)) && PacketStaysNarrow(old(Stream(header.Denote(), codec.Denote())), pkt, h0) ==>
            !GoneWide(codec.cx)
  {
    assert header !in codec.Stages();
    hide PredictiveCodec.Valid, PredictiveCodec.Denote, PredictiveCodec.Stages, WideStages, GoneWide;
    hide RestStaysNarrow, DecodeRest, Headers.Decode;
    var hd := header.DecodePacket(pkt, h0);
    if hd.Err? {
      return Err(hd.error);
    }
    var (h, off) := hd.value;
    r := DecodeTheRest(codec, simd, pkt, h, off);
  }

  // The rest of a packet whose header has been read.
  method DecodeTheRest(codec: PredictiveCodec, simd: Simd, pkt: seq<Byte>, h: Headers.Header, off: nat)
    returns (r: Decoded)
    requires codec.Valid() && off <= |pkt| && h.sampleCount > 0
    modifies codec, codec.Stages()
    ensures codec.Valid() && fresh(codec.Stages() - old(codec.Stages()))
    ensures (codec.Denote(), r) == DecodeRest(old(codec.Denote()), pkt, h, off)
    ensures !old(GoneWide(codec.cx)) && RestStaysNarrow(old(codec.Denote()), pkt, h, off) ==> !GoneWide(codec.cx)
  {
    hide PredictiveCodec.Valid, PayloadStaysNarrow, DecodePayload, Configure;
    var configured := codec.Configure(h.profile);
    if configured.Err? {
      return Err(configured.error);
    }
    r := DecodeThePayload(codec, simd, pkt, h, off);
  }

  // The payload of a packet whose header and profile are settled.
  method DecodeThePayload(codec: PredictiveCodec, simd: Simd, pkt: seq<Byte>, h: Headers.Header, off: nat)
    returns (r: Decoded)
    requires codec.Valid() && off <= |pkt| && h.sampleCount > 0
    modifies codec.Stages()
    ensures codec.Valid() && (codec.Denote(), r) == DecodePayload(old(codec.Denote()), pkt, h, off)
    ensures !old(GoneWide(codec.cx)) && PayloadStaysNarrow(old(codec.Denote()), pkt, h, off) ==> !GoneWide(codec.cx)
  {
    if h.silent {
      if off != |pkt| {
        return Err(StreamSilentWithBody);
      }
      var ok := codec.AdvanceSilence(h.sampleCount);
      if ok.Err? {
        return Err(ok.error);
      }
      return Ok((h, seq(h.sampleCount, _ => 0)));
    }
    if h.profile != PROFILE_IQ_SCALED {
      r := DecodeTheSamples(codec, simd, pkt[off..], h, 0);
      return;
    }
    if |pkt| <= off {
      return Err(StreamNoShift);
    }
    var shift := pkt[off];
    if shift > MAX_SHIFT {
      return Err(StreamShiftOutOfRange);
    }
    r := DecodeTheSamples(codec, simd, pkt[off + 1..], h.(shift := shift), shift);
  }

  method DecodeTheSamples(codec: PredictiveCodec, simd: Simd, body: seq<Byte>, h: Headers.Header, shift: nat)
    returns (r: Decoded)
    requires codec.Valid() && shift <= MAX_SHIFT
    modifies codec.Stages()
    ensures codec.Valid() && (codec.Denote(), r) == DecodeSamples(old(codec.Denote()), body, h, shift)
    ensures !old(GoneWide(codec.cx)) && StaysNarrow(old(codec.Denote()), body, h.sampleCount, h.escape) ==>
            !GoneWide(codec.cx)
  {
    hide PredictiveCodec.Valid, DecodeBody, StaysNarrow, Restore;
    var s := codec.DecodeBody(body, h.sampleCount, h.escape, simd);
    if s.Err? {
      return Err(s.error);
    }
    var out := LossyRestore(s.value, shift);
    return Ok((h, out));
  }

  // Undo the reduced depth, saturating.
  method LossyRestore(s: seq<int>, shift: nat) returns (out: seq<int>)
    requires shift <= MAX_SHIFT
    ensures out == Restore(s, shift)
  {
    if shift == 0 {
      return s;
    }
    var scale := Pow2(shift);
    out := [];
    for i := 0 to |s|
      invariant |out| == i && forall k :: 0 <= k < i ==> out[k] == Saturate(s[k] * Pow2(shift))
    {
      var r := s[i] * scale;
      if r > 32767 {
        r := 32767;
      } else if r < -32768 {
        r := -32768;
      }
      out := out + [r];
    }
  }

  // Every sample this packet reconstructs fits int32 before its conversion to int16.
  ghost predicate PayloadStaysNarrow(c: Codec, pkt: seq<Byte>, h: Headers.Header, off: nat)
    requires off <= |pkt|
  {
    h.silent ||
    if h.profile == PROFILE_IQ_SCALED then |pkt| <= off || StaysNarrow(c, pkt[off + 1..], h.sampleCount, h.escape)
    else StaysNarrow(c, pkt[off..], h.sampleCount, h.escape)
  }

  ghost predicate RestStaysNarrow(c: Codec, pkt: seq<Byte>, h: Headers.Header, off: nat)
    requires off <= |pkt|
  {
    Configure(c, h.profile).1.Err? || PayloadStaysNarrow(Configure(c, h.profile).0, pkt, h, off)
  }

  ghost predicate PacketStaysNarrow(st: Stream, pkt: seq<Byte>, h0: Headers.Header) {
    match Headers.Decode(st.header, pkt, h0)
    case (hs, Err(_)) => true
    case (hs, Ok((h, off))) => RestStaysNarrow(st.codec, pkt, h, off)
  }

  // What a server sends never takes the decoder out of int32.
  lemma SentStaysNarrow(st: Stream, p: Packet, h0: Headers.Header)
    requires Ready(st) && Sendable(st, p)
    ensures PacketStaysNarrow(st, EncodePacket(st, p), h0)
  {
    var c := CodecFor(st, p);
    var payload := ShiftByte(p) + EncodeBody(c, p.samples, p.mode);
    Headers.RoundTrip(st.header, p.fields, payload, h0);
    ConfigureUniform(st.codec, p.fields.profile);
    var pkt, off := EncodePacket(st, p), |Headers.Encode(st.header, p.fields)|;
    assert pkt[off..] == payload;
    SentPayloadStaysNarrow(c, p, pkt, Headers.HeaderOf(p.fields, h0), off);
  }

  lemma SentPayloadStaysNarrow(c: Codec, p: Packet, pkt: seq<Byte>, h: Headers.Header, off: nat)
    requires Uniform(c) && Codable(c, p.samples, p.mode) && p.shift <= MAX_SHIFT
    requires h.profile == p.fields.profile && h.escape == p.mode.Escape? && h.silent == p.mode.Silent?
    requires h.sampleCount == |p.samples|
    requires off <= |pkt| && pkt[off..] == ShiftByte(p) + EncodeBody(c, p.samples, p.mode)
    ensures PayloadStaysNarrow(c, pkt, h, off)
  {
    if p.mode.Coded? {
      var body := EncodeBody(c, p.samples, p.mode);
      CodedBack(c, p.samples, p.mode.k);
      if p.fields.profile == PROFILE_IQ_SCALED {
        assert pkt[off + 1..] == pkt[off..][1..] == body;
      } else {
        assert pkt[off..] == body;
      }
    }
  }

  // states[i] is where the server stands after i packets; there the decoder takes packet i to states[i + 1].
  ghost predicate InStep(states: seq<Stream>, ps: seq<Packet>, pkts: seq<seq<Byte>>, h0: Headers.Header) {
    && |states| == |ps| + 1 && |pkts| == |ps|
    && forall i {:trigger DecodePacket(states[i], pkts[i], h0)} :: 0 <= i < |ps| ==>
         && DecodePacket(states[i], pkts[i], h0) == (states[i + 1], Ok((HeardHeader(ps[i], h0), Heard(ps[i]))))
         && PacketStaysNarrow(states[i], pkts[i], h0)
  }

  lemma {:induction false} ServerStates(st: Stream, ps: seq<Packet>, pkts: seq<seq<Byte>>, h0: Headers.Header)
    returns (states: seq<Stream>)
    requires Ready(st) && SendableRun(st, ps) && pkts == EncodeRun(st, ps).1
    ensures InStep(states, ps, pkts, h0) && states[0] == st && states[|ps|] == EncodeRun(st, ps).0
    decreases |ps|
  {
    if ps == [] {
      return [st];
    }
    hide DecodePacket, PacketStaysNarrow, Heard, HeardHeader, EncodePacket, Sendable, InStep;
    PacketBack(st, ps[0], h0);
    SentStaysNarrow(st, ps[0], h0);
    assert pkts[1..] == EncodeRun(NextStream(st, ps[0]), ps[1..]).1;
    var rest := ServerStates(NextStream(st, ps[0]), ps[1..], pkts[1..], h0);
    states := [st] + rest;
    InStepCons(st, rest, ps, pkts, h0);
  }

  lemma InStepCons(st: Stream, rest: seq<Stream>, ps: seq<Packet>, pkts: seq<seq<Byte>>, h0: Headers.Header)
    requires ps != [] && |pkts| == |ps| && InStep(rest, ps[1..], pkts[1..], h0)
    requires DecodePacket(st, pkts[0], h0) == (rest[0], Ok((HeardHeader(ps[0], h0), Heard(ps[0]))))
    requires PacketStaysNarrow(st, pkts[0], h0)
    ensures InStep([st] + rest, ps, pkts, h0)
  {
    hide DecodePacket, PacketStaysNarrow, Heard, HeardHeader;
    var states := [st] + rest;
    forall i | 0 <= i < |ps|
      ensures DecodePacket(states[i], pkts[i], h0) == (states[i + 1], Ok((HeardHeader(ps[i], h0), Heard(ps[i]))))
      ensures PacketStaysNarrow(states[i], pkts[i], h0)
    {
      if i > 0 {
        assert states[i] == rest[i - 1] && pkts[i] == pkts[1..][i - 1] && ps[i] == ps[1..][i - 1];
        assert DecodePacket(rest[i - 1], pkts[1..][i - 1], h0).0 == rest[i];
      }
    }
  }

  /** A connection: feed a server's packets to a fresh decoder and keep what it gives. */
  method Receive(simd: Simd, ps: seq<Packet>, h0: Headers.Header, pkts: seq<seq<Byte>>)
    returns (decoder: PCMv4StreamDecoder, heard: seq<Decoded>)
    requires SendableRun(INITIAL_STREAM, ps) && pkts == EncodeRun(INITIAL_STREAM, ps).1
    ensures decoder.Valid() && decoder.Denote() == EncodeRun(INITIAL_STREAM, ps).0 && !decoder.Wide()
    ensures |heard| == |ps| && forall i :: 0 <= i < |ps| ==> heard[i] == Ok((HeardHeader(ps[i], h0), Heard(ps[i])))
  {
    hide PCMv4StreamDecoder.Valid, InStep, EncodeRun, Heard, HeardHeader;
    ghost var states := ServerStates(INITIAL_STREAM, ps, pkts, h0);
    decoder := new PCMv4StreamDecoder(simd);
    heard := ReceiveFrom(decoder, 0, ps, h0, pkts, states);
  }

  // From packet i on.
  method ReceiveFrom(decoder: PCMv4StreamDecoder, i: nat, ghost ps: seq<Packet>, h0: Headers.Header,
                     pkts: seq<seq<Byte>>, ghost states: seq<Stream>) returns (heard: seq<Decoded>)
    requires InStep(states, ps, pkts, h0) && i <= |pkts|
    requires decoder.Valid() && decoder.Denote() == states[i] && !decoder.Wide()
    modifies decoder.Footprint()
    ensures decoder.Valid() && decoder.Denote() == states[|ps|] && !decoder.Wide()
    ensures |heard| == |ps| - i && forall k ::
            0 <= k < |heard| ==> heard[k] == Ok((HeardHeader(ps[i + k], h0), Heard(ps[i + k])))
    decreases |pkts| - i
  {
    hide PCMv4StreamDecoder.Valid, PCMv4StreamDecoder.Denote, PCMv4StreamDecoder.Wide, DecodePacket, PacketStaysNarrow;
    hide PCMv4StreamDecoder.Footprint, Heard, HeardHeader;
    heard := [];
    if i < |pkts| {
      var d := ReceiveOne(decoder, i, ps, h0, pkts, states);
      heard := ReceiveFrom(decoder, i + 1, ps, h0, pkts, states);
      heard := [d] + heard;
    }
  }

  method ReceiveOne(decoder: PCMv4StreamDecoder, i: nat, ghost ps: seq<Packet>, h0: Headers.Header,
                    pkts: seq<seq<Byte>>, ghost states: seq<Stream>)
    returns (d: Decoded)
    requires InStep(states, ps, pkts, h0) && i < |pkts|
    requires decoder.Valid() && decoder.Denote() == states[i] && !decoder.Wide()
    modifies decoder.Footprint()
    ensures decoder.Valid() && decoder.Denote() == states[i + 1] && !decoder.Wide()
    ensures fresh(decoder.Footprint() - old(decoder.Footprint()))
    ensures d == Ok((HeardHeader(ps[i], h0), Heard(ps[i])))
  {
    assert DecodePacket(states[i], pkts[i], h0).0 == states[i + 1];
    d := decoder.Decode(pkts[i], h0);
  }
}
