/**
  * The packet header: the stateful decoder that carries fields forward, the encoder the documented
  * layout describes, and what holds between them over whole streams.
  */
module Headers {
  import opened Machine
  import opened Bitwise
  import opened Outcomes
  import opened Varint

  const MAGIC: seq<Byte> := [0x50, 0x43, 0x4D, 0x34]   // "PCM4"
  const FLAG_ESCAPE: nat := 0x80
  const FLAG_QUALITY: nat := 0x40
  const FLAG_METADATA: nat := 0x20
  const FLAG_SILENT: nat := 0x10
  const FLAG_COUNT: nat := 0x08
  const QUALITY_NO_READING: int := -0x8000

  // flags & bit, for a single-bit mask.
  predicate Has(flags: Byte, bit: nat)
    requires bit > 0
  {
    flags / bit % 2 == 1
  }

  // Signed centidecibels to dB, or the no-reading sentinel.
  function QualityToDb(q: int): real {
    if q == QUALITY_NO_READING then -999.0 else q as real / 100.0
  }

  datatype Header = Header(timestampNanos: nat, sampleRate: int, channels: int, sampleCount: int,
                           basebandPower: real, noise: real, profile: nat, shift: nat, escape: bool, silent: bool)

  // What a stream's header decoder remembers.
  datatype State = State(haveMetadata: bool, lastTS: nat, rate: int, channels: int, count: int, power: int, noise: int)

  const INITIAL_STATE: State := State(false, 0, 0, 0, 0, 0, 0)

  // A little-endian number.
  function LittleEndian(s: seq<Byte>): nat {
    if s == [] then 0 else s[0] + 256 * LittleEndian(s[1..])
  }

  function ToLittleEndian(v: nat, n: nat): (s: seq<Byte>)
    ensures |s| == n
  {
    if n == 0 then [] else [v % 256] + ToLittleEndian(v / 256, n - 1)
  }

  // ---- Decoding, field by field; each returns where the next field starts ---------------------

  function TakeTimestamp(s: State, pkt: seq<Byte>, off: nat, meta: bool): (r: (State, Result<nat>))
    requires off <= |pkt|
    ensures r.1.Ok? ==> off <= r.1.value <= |pkt|
  {
    if meta then
      if |pkt| < off + 8 then (s, Err(HeaderTruncatedTimestamp))
      else (s.(lastTS := LittleEndian(pkt[off..off + 8])), Ok(off + 8))
    else if !s.haveMetadata then (s, Err(HeaderDeltaBeforeMetadata))
    else
      match SignedVarint(pkt[off..])
      case None => (s, Err(HeaderMalformedDelta))
      case Some((delta, len)) => (s.(lastTS := WrapU64(WrapS64(s.lastTS) + delta)), Ok(off + len))
  }

  function TakeCount(s: State, pkt: seq<Byte>, off: nat, present: bool): (r: (State, Result<nat>))
    requires off <= |pkt|
    ensures r.1.Ok? ==> off <= r.1.value <= |pkt|
  {
    if !present then (s, Ok(off))
    else
      match Uvarint(pkt[off..], 0)
      case None => (s, Err(HeaderMalformedCount))
      case Some((v, len)) => (s.(count := WrapS32(v)), Ok(off + len))
  }

  function TakeMetadata(s: State, pkt: seq<Byte>, off: nat, present: bool): (r: (State, Result<nat>))
    requires off <= |pkt|
    ensures r.1.Ok? ==> off <= r.1.value <= |pkt|
  {
    if !present then (s, Ok(off))
    else
      match Uvarint(pkt[off..], 0)
      case None => (s, Err(HeaderMalformedRate))
      case Some((v, len)) =>
        if |pkt| < off + len + 1 then (s, Err(HeaderTruncatedChannels))
        else (s.(rate := WrapS32(v), channels := pkt[off + len], haveMetadata := true), Ok(off + len + 1))
  }

  function TakeQuality(s: State, pkt: seq<Byte>, off: nat, present: bool): (r: (State, Result<nat>))
    requires off <= |pkt|
    ensures r.1.Ok? ==> off <= r.1.value <= |pkt|
  {
    if !present then (s, Ok(off))
    else if |pkt| < off + 4 then (s, Err(HeaderTruncatedQuality))
    else (s.(power := WrapS16(LittleEndian(pkt[off..off + 2])), noise := WrapS16(LittleEndian(pkt[off + 2..off + 4]))),
          Ok(off + 4))
  }

  // The header a state gives, or why it gives none.
  function Report(s: State, flags: Byte, h: Header, off: nat): Result<(Header, nat)> {
    if s.rate <= 0 || s.channels <= 0 then Err(HeaderImplausibleMetadata)
    else if s.count <= 0 then Err(HeaderImplausibleCount)
    else Ok((Header(s.lastTS, s.rate, s.channels, s.count, QualityToDb(s.power), QualityToDb(s.noise),
                    flags % 8, h.shift, Has(flags, FLAG_ESCAPE), Has(flags, FLAG_SILENT)), off))
  }

  // A whole header at the front of pkt: the state it leaves, and the header with the body's offset.
  function Decode(s: State, pkt: seq<Byte>, h: Header): (r: (State, Result<(Header, nat)>))
    ensures r.1.Ok? ==> 5 <= r.1.value.1 <= |pkt| && r.1.value.0.sampleCount > 0
    ensures r.1.Ok? ==> var g := r.1.value.0; g.sampleRate > 0 && g.channels > 0 && !(g.escape && g.silent)
  {
    if |pkt| < 5 then (s, Err(HeaderTooShort))
    else if pkt[..4] != MAGIC then (s, Err(HeaderBadMagic))
    else
      var flags := pkt[4];
      if Has(flags, FLAG_ESCAPE) && Has(flags, FLAG_SILENT) then (s, Err(HeaderEscapeAndSilent))
      else
        var t := TakeTimestamp(s, pkt, 5, Has(flags, FLAG_METADATA));
        if t.1.Err? then (t.0, Err(t.1.error))
        else
          var c := TakeCount(t.0, pkt, t.1.value, Has(flags, FLAG_COUNT));
          if c.1.Err? then (c.0, Err(c.1.error))
          else
            var m := TakeMetadata(c.0, pkt, c.1.value, Has(flags, FLAG_METADATA));
            if m.1.Err? then (m.0, Err(m.1.error))
            else
              var q := TakeQuality(m.0, pkt, m.1.value, Has(flags, FLAG_QUALITY));
              if q.1.Err? then (q.0, Err(q.1.error))
              else (q.0, Report(q.0, flags, h, q.1.value))
  }

  // ---- The class ------------------------------------------------------------------------------

  /** PCMv4HeaderDecoder. */
  class PCMv4HeaderDecoder {
    var haveMetadata: bool
    var lastTS: nat
    var rate: int
    var channels: int
    var count: int
    var power: int
    var noise: int

    constructor ()
      ensures Denote() == INITIAL_STATE
    {
      haveMetadata, lastTS, rate, channels, count, power, noise := false, 0, 0, 0, 0, 0, 0;
    }

    ghost function Denote(): State
      reads this
    {
      State(haveMetadata, lastTS, rate, channels, count, power, noise)
    }

    method Reset()
      modifies this
      ensures Denote() == INITIAL_STATE
    {
      haveMetadata, lastTS, rate, channels, count, power, noise := false, 0, 0, 0, 0, 0, 0;
    }

    method DecodePacket(pkt: seq<Byte>, h: Header) returns (r: Result<(Header, nat)>)
      modifies this
      ensures (Denote(), r) == Decode(old(Denote()), pkt, h)
    {
      if |pkt| < 5 {
        return Err(HeaderTooShort);
      }
      if pkt[..4] != MAGIC {
        return Err(HeaderBadMagic);
      }
      var flags := pkt[4];
      if Has(flags, FLAG_ESCAPE) && Has(flags, FLAG_SILENT) {
        return Err(HeaderEscapeAndSilent);
      }
      var off := ReadTimestamp(pkt, 5, Has(flags, FLAG_METADATA));
      if off.Err? {
        return Err(off.error);
      }
      off := ReadCount(pkt, off.value, Has(flags, FLAG_COUNT));
      if off.Err? {
        return Err(off.error);
      }
      off := ReadMetadata(pkt, off.value, Has(flags, FLAG_METADATA));
      if off.Err? {
        return Err(off.error);
      }
      off := ReadQuality(pkt, off.value, Has(flags, FLAG_QUALITY));
      if off.Err? {
        return Err(off.error);
      }
      r := Report(State(haveMetadata, lastTS, rate, channels, count, power, noise), flags, h, off.value);
    }

    method ReadCount(pkt: seq<Byte>, off: nat, present: bool) returns (r: Result<nat>)
      requires off <= |pkt|
      modifies this`count
      ensures (Denote(), r) == TakeCount(old(Denote()), pkt, off, present)
    {
      if !present {
        return Ok(off);
      }
      var v := ReadUvarint(pkt, off);
      if v.None? {
        return Err(HeaderMalformedCount);
      }
      count, r := WrapS32(v.value.0), Ok(v.value.1);
    }

    method ReadQuality(pkt: seq<Byte>, off: nat, present: bool) returns (r: Result<nat>)
      requires off <= |pkt|
      modifies this`power, this`noise
      ensures (Denote(), r) == TakeQuality(old(Denote()), pkt, off, present)
    {
      if !present {
        return Ok(off);
      }
      if |pkt| < off + 4 {
        return Err(HeaderTruncatedQuality);
      }
      TwoBytes(pkt, off);
      TwoBytes(pkt, off + 2);
      power := WrapS16(pkt[off] as int + 256 * pkt[off + 1] as int);
      noise := WrapS16(pkt[off + 2] as int + 256 * pkt[off + 3] as int);
      r := Ok(off + 4);
    }

    method ReadTimestamp(pkt: seq<Byte>, off: nat, meta: bool) returns (r: Result<nat>)
      requires off <= |pkt|
      modifies this`lastTS
      ensures (Denote(), r) == TakeTimestamp(old(Denote()), pkt, off, meta)
    {
      if meta {
        if |pkt| < off + 8 {
          return Err(HeaderTruncatedTimestamp);
        }
        var ts := 0;
        var b := 8;
        while b > 0
          invariant 0 <= b <= 8 && ts == LittleEndian(pkt[off + b..off + 8])
        {
          b := b - 1;
          assert pkt[off + b..off + 8][1..] == pkt[off + b + 1..off + 8];
          ts := 256 * ts + pkt[off + b] as int;
        }
        lastTS := ts;
        return Ok(off + 8);
      }
      if !haveMetadata {
        return Err(HeaderDeltaBeforeMetadata);
      }
      var delta := ReadVarint(pkt, off);
      if delta.None? {
        return Err(HeaderMalformedDelta);
      }
      lastTS := WrapU64(WrapS64(lastTS) + delta.value.0);
      return Ok(delta.value.1);
    }

    method ReadMetadata(pkt: seq<Byte>, off: nat, meta: bool) returns (r: Result<nat>)
      requires off <= |pkt|
      modifies this`rate, this`channels, this`haveMetadata
      ensures (Denote(), r) == TakeMetadata(old(Denote()), pkt, off, meta)
    {
      if !meta {
        return Ok(off);
      }
      hide Uvarint, WrapS32;
      var v := ReadUvarint(pkt, off);
      if v.None? {
        return Err(HeaderMalformedRate);
      }
      var o := v.value.1;
      if |pkt| < o + 1 {
        return Err(HeaderTruncatedChannels);
      }
      rate, channels, haveMetadata := WrapS32(v.value.0), pkt[o], true;
      return Ok(o + 1);
    }
  }

  lemma TwoBytes(pkt: seq<Byte>, o: nat)
    requires o + 2 <= |pkt|
    ensures LittleEndian(pkt[o..o + 2]) == pkt[o] as int + 256 * pkt[o + 1] as int
  {
    var s := pkt[o..o + 2];
    assert s[1..] == [pkt[o + 1]] && s[1..][1..] == [];
    assert LittleEndian(s[1..]) == pkt[o + 1] as int + 256 * LittleEndian(s[1..][1..]);
  }

  // ---- Encoding -------------------------------------------------------------------------------

  // What a server has to say in one header, and which of it this packet repeats.
  datatype Fields = Fields(meta: bool, withCount: bool, withQuality: bool, profile: nat, escape: bool, silent: bool,
                           ts: nat, rate: int, channels: int, count: int, power: int, noise: int)

  function Flags(f: Fields): (b: Byte)
    requires f.profile < 8
    ensures Has(b, FLAG_ESCAPE) == f.escape && Has(b, FLAG_QUALITY) == f.withQuality && Has(b, FLAG_METADATA) == f.meta
    ensures Has(b, FLAG_SILENT) == f.silent && Has(b, FLAG_COUNT) == f.withCount && b % 8 == f.profile
  {
    (if f.escape then FLAG_ESCAPE else 0) + (if f.withQuality then FLAG_QUALITY else 0)
    + (if f.meta then FLAG_METADATA else 0)
    + (if f.silent then FLAG_SILENT else 0) + (if f.withCount then FLAG_COUNT else 0) + f.profile
  }

  // The fields are in range, and whatever is not repeated is what the other side remembers.
  ghost predicate Encodable(s: State, f: Fields) {
    && f.profile < 8 && !(f.escape && f.silent)
    && FitsU64(f.ts) && 0 < f.rate < TWO_31 && 0 < f.channels < 256 && 0 < f.count < TWO_31
    && FitsS16(f.power) && FitsS16(f.noise) && FitsU64(s.lastTS)
    && (!f.meta ==> s.haveMetadata && s.rate == f.rate && s.channels == f.channels)
    && (!f.withCount ==> s.count == f.count)
    && (!f.withQuality ==> s.power == f.power && s.noise == f.noise)
  }

  function EncodeTimestamp(s: State, f: Fields): seq<Byte> {
    if f.meta then ToLittleEndian(f.ts, 8) else EncodeUvarint(Zigzag64(WrapS64(f.ts - s.lastTS)))
  }

  function EncodeCount(f: Fields): seq<Byte>
    requires f.count >= 0
  {
    if f.withCount then EncodeUvarint(f.count) else []
  }

  function EncodeMetadata(f: Fields): seq<Byte>
    requires f.rate >= 0 && 0 <= f.channels < 256
  {
    if f.meta then EncodeUvarint(f.rate) + [f.channels] else []
  }

  function EncodeQuality(f: Fields): seq<Byte> {
    if f.withQuality then ToLittleEndian(WrapU16(f.power), 2) + ToLittleEndian(WrapU16(f.noise), 2) else []
  }

  function WrapU16(x: int): (r: nat) { x % TWO_16 }

  // [magic][flags][timestamp][count?][rate, channels?][power, noise?]
  function Encode(s: State, f: Fields): seq<Byte>
    requires Encodable(s, f)
  {
    MAGIC + [Flags(f)] + EncodeTimestamp(s, f) + EncodeCount(f) + EncodeMetadata(f) + EncodeQuality(f)
  }

  // What both sides remember afterwards.
  function Remember(f: Fields): State {
    State(true, f.ts, f.rate, f.channels, f.count, f.power, f.noise)
  }

  function HeaderOf(f: Fields, h: Header): Header {
    Header(f.ts, f.rate, f.channels, f.count, QualityToDb(f.power), QualityToDb(f.noise), f.profile, h.shift, f.escape,
      f.silent)
  }

  lemma {:induction false} LittleEndianBack(v: nat, n: nat)
    ensures LittleEndian(ToLittleEndian(v, n)) == v % Pow2(8 * n)
  {
    if n > 0 {
      LittleEndianBack(v / 256, n - 1);
      var p := Pow2(8 * (n - 1));
      Pow2Adds(8, 8 * (n - 1));
      Pow2Constants();
      assert ToLittleEndian(v, n)[1..] == ToLittleEndian(v / 256, n - 1);
      Digit(v, p);
    } else {
      assert Pow2(0) == 1;
    }
  }

  lemma Digit(v: nat, p: nat)
    requires p > 0
    ensures v % 256 + 256 * (v / 256 % p) == v % (256 * p)
  {
    var q, r := v / 256 / p, v / 256 % p;
    assert v / 256 == q * p + r;
    assert q * (256 * p) == 256 * (q * p);
    DivModUnique(v, q, 256 * p, v % 256 + 256 * r);
  }

  lemma TimestampBack(s: State, f: Fields, pkt: seq<Byte>, off: nat, tail: seq<Byte>)
    requires Encodable(s, f) && off <= |pkt| && pkt[off..] == EncodeTimestamp(s, f) + tail
    ensures TakeTimestamp(s, pkt, off, f.meta) == (s.(lastTS := f.ts), Ok(|pkt| - |tail|))
  {
    if f.meta {
      FullTimestampBack(f.ts);
      assert pkt[off..off + 8] == pkt[off..][..8] == ToLittleEndian(f.ts, 8);
    } else {
      var delta := WrapS64(f.ts - s.lastTS);
      DeltaBack(s.lastTS, f.ts);
      hide WrapU64, WrapS64, Zigzag64, EncodeUvarint, SignedVarint;
      DeltaTaken(s, pkt, off, delta, tail);
    }
  }

  lemma DeltaTaken(s: State, pkt: seq<Byte>, off: nat, delta: int, tail: seq<Byte>)
    requires s.haveMetadata && FitsS64(delta) && off <= |pkt| && pkt[off..] == EncodeUvarint(Zigzag64(delta)) + tail
    ensures TakeTimestamp(s, pkt, off, false)
            == (s.(lastTS := WrapU64(WrapS64(s.lastTS) + delta)), Ok(|pkt| - |tail|))
  {
    hide WrapU64, WrapS64, Zigzag64, EncodeUvarint, SignedVarint;
    SignedVarintBack(delta, tail);
    assert |pkt[off..]| == |pkt| - off;
  }

  lemma FullTimestampBack(ts: nat)
    requires FitsU64(ts)
    ensures LittleEndian(ToLittleEndian(ts, 8)) == ts
  {
    LittleEndianBack(ts, 8);
    Pow2Constants();
  }

  lemma DeltaBack(last: nat, ts: nat)
    requires FitsU64(last) && FitsU64(ts)
    ensures WrapU64(WrapS64(last) + WrapS64(ts - last)) == ts
  {
    SignedMod(last);
    SignedMod(ts - last);
    var k := (last - WrapS64(last)) / TWO_64 + (ts - last - WrapS64(ts - last)) / TWO_64;
    assert WrapS64(last) + WrapS64(ts - last) == ts + -k * TWO_64;
    hide WrapS64;
    ModShift(ts, -k, TWO_64);
  }

  lemma SignedMod(x: int)
    ensures x == WrapS64(x) + (x - WrapS64(x)) / TWO_64 * TWO_64
  {
    assert x - WrapS64(x) == (x + TWO_63) / TWO_64 * TWO_64;
  }

  lemma CountBack(s: State, f: Fields, pkt: seq<Byte>, off: nat, tail: seq<Byte>)
    requires 0 < f.count < TWO_31 && (!f.withCount ==> s.count == f.count)
    requires off <= |pkt| && pkt[off..] == EncodeCount(f) + tail
    ensures TakeCount(s, pkt, off, f.withCount) == (s.(count := f.count), Ok(|pkt| - |tail|))
  {
    hide Uvarint, EncodeUvarint, Pow2;
    if f.withCount {
      Pow2Constants();
      UvarintBack(f.count, 0, tail);
    } else {
      assert EncodeCount(f) + tail == tail;
    }
  }

  lemma MetadataBack(s: State, f: Fields, pkt: seq<Byte>, off: nat, tail: seq<Byte>)
    requires 0 < f.rate < TWO_31 && 0 < f.channels < 256
    requires !f.meta ==> s.haveMetadata && s.rate == f.rate && s.channels == f.channels
    requires off <= |pkt| && pkt[off..] == EncodeMetadata(f) + tail
    ensures TakeMetadata(s, pkt, off, f.meta)
         == (s.(rate := f.rate, channels := f.channels, haveMetadata := true), Ok(|pkt| - |tail|))
  {
    hide Uvarint, EncodeUvarint, Pow2;
    if f.meta {
      Pow2Constants();
      var e := EncodeUvarint(f.rate);
      assert pkt[off..] == e + ([f.channels] + tail);
      UvarintBack(f.rate, 0, [f.channels] + tail);
      assert pkt[off + |e|] == pkt[off..][|e|] == f.channels;
    } else {
      assert EncodeMetadata(f) + tail == tail;
    }
  }

  lemma QualityBack(s: State, f: Fields, pkt: seq<Byte>, off: nat, tail: seq<Byte>)
    requires FitsS16(f.power) && FitsS16(f.noise)
    requires !f.withQuality ==> s.power == f.power && s.noise == f.noise
    requires off <= |pkt| && pkt[off..] == EncodeQuality(f) + tail
    ensures TakeQuality(s, pkt, off, f.withQuality) == (s.(power := f.power, noise := f.noise), Ok(|pkt| - |tail|))
  {
    if f.withQuality {
      var a, b := ToLittleEndian(WrapU16(f.power), 2), ToLittleEndian(WrapU16(f.noise), 2);
      assert pkt[off..off + 2] == pkt[off..][..2] == a;
      assert pkt[off + 2..off + 4] == pkt[off..][2..4] == b;
      WordBack(f.power);
      WordBack(f.noise);
    } else {
      assert EncodeQuality(f) + tail == tail;
    }
  }

  lemma WordBack(q: int)
    requires FitsS16(q)
    ensures WrapS16(LittleEndian(ToLittleEndian(WrapU16(q), 2))) == q
  {
    hide LittleEndian, ToLittleEndian, Pow2;
    LittleEndianBack(WrapU16(q), 2);
    Pow2Adds(8, 8);
    Pow2Constants();
  }

  // Timestamp and count.
  lemma FrontBack(s: State, f: Fields, pkt: seq<Byte>, tail: seq<Byte>) returns (s2: State, o2: nat)
    requires Encodable(s, f) && |pkt| >= 5 && pkt[5..] == EncodeTimestamp(s, f) + EncodeCount(f) + tail
    ensures s2 == s.(lastTS := f.ts, count := f.count) && o2 == |pkt| - |tail| && pkt[o2..] == tail
    ensures var t := TakeTimestamp(s, pkt, 5, f.meta);
            t.1.Ok? && TakeCount(t.0, pkt, t.1.value, f.withCount) == (s2, Ok(o2))
  {
    hide EncodeTimestamp, EncodeCount, TakeTimestamp, TakeCount;
    var c := EncodeCount(f);
    assert pkt[5..] == EncodeTimestamp(s, f) + (c + tail);
    TimestampBack(s, f, pkt, 5, c + tail);
    var s1, o1 := s.(lastTS := f.ts), |pkt| - |c + tail|;
    assert pkt[o1..] == pkt[5..][o1 - 5..] == c + tail;
    CountBack(s1, f, pkt, o1, tail);
    s2, o2 := s1.(count := f.count), |pkt| - |tail|;
    assert pkt[o2..] == pkt[o1..][o2 - o1..] == tail;
  }

  // Metadata and quality.
  lemma BackBack(s: State, f: Fields, pkt: seq<Byte>, off: nat, body: seq<Byte>)
    requires 0 < f.rate < TWO_31 && 0 < f.channels < 256 && FitsS16(f.power) && FitsS16(f.noise)
    requires !f.meta ==> s.haveMetadata && s.rate == f.rate && s.channels == f.channels
    requires !f.withQuality ==> s.power == f.power && s.noise == f.noise
    requires off <= |pkt| && pkt[off..] == EncodeMetadata(f) + EncodeQuality(f) + body
    ensures var m := TakeMetadata(s, pkt, off, f.meta);
            m.1.Ok?
            && TakeQuality(m.0, pkt, m.1.value, f.withQuality)
            == (State(true, s.lastTS, f.rate, f.channels, s.count, f.power, f.noise), Ok(|pkt| - |body|))
  {
    hide EncodeMetadata, EncodeQuality, TakeMetadata, TakeQuality;
    var q := EncodeQuality(f);
    assert pkt[off..] == EncodeMetadata(f) + (q + body);
    MetadataBack(s, f, pkt, off, q + body);
    var o := |pkt| - |q + body|;
    assert pkt[o..] == pkt[off..][o - off..] == q + body;
    QualityBack(s.(rate := f.rate, channels := f.channels, haveMetadata := true), f, pkt, o, body);
  }

  // One header: every field comes back, carried forward or not, and the body starts where it should.
  lemma RoundTrip(s: State, f: Fields, body: seq<Byte>, h: Header)
    requires Encodable(s, f)
    ensures Decode(s, Encode(s, f) + body, h) == (Remember(f), Ok((HeaderOf(f, h), |Encode(s, f)|)))
  {
    hide EncodeTimestamp, EncodeCount, EncodeMetadata, EncodeQuality, TakeTimestamp, TakeCount, TakeMetadata,
         TakeQuality;
    var pkt := Encode(s, f) + body;
    Layout(s, f, body);
    var s2, o2 := FrontBack(s, f, pkt, EncodeMetadata(f) + EncodeQuality(f) + body);
    BackBack(s2, f, pkt, o2, body);
    DecodeByFields(s, pkt, h, f);
  }

  lemma Layout(s: State, f: Fields, body: seq<Byte>)
    requires Encodable(s, f)
    ensures var pkt := Encode(s, f) + body;
            && |pkt| >= 5 && pkt[..4] == MAGIC && pkt[4] == Flags(f)
            && pkt[5..] == EncodeTimestamp(s, f) + EncodeCount(f) + (EncodeMetadata(f) + EncodeQuality(f) + body)
  {
    hide Encodable, Flags, EncodeTimestamp, EncodeCount, EncodeMetadata, EncodeQuality;
  }

  // Decode, once its four fields are known to succeed.
  lemma DecodeByFields(s: State, pkt: seq<Byte>, h: Header, f: Fields)
    requires f.profile < 8 && !(f.escape && f.silent) && f.rate > 0 && f.channels > 0 && f.count > 0
    requires |pkt| >= 5 && pkt[..4] == MAGIC && pkt[4] == Flags(f)
    requires TakeTimestamp(s, pkt, 5, f.meta).1.Ok?
    requires var t := TakeTimestamp(s, pkt, 5, f.meta);
             TakeCount(t.0, pkt, t.1.value, f.withCount).1.Ok?
    requires var t := TakeTimestamp(s, pkt, 5, f.meta);
             var c := TakeCount(t.0, pkt, t.1.value, f.withCount);
             TakeMetadata(c.0, pkt, c.1.value, f.meta).1.Ok?
    requires var t := TakeTimestamp(s, pkt, 5, f.meta);
             var c := TakeCount(t.0, pkt, t.1.value, f.withCount);
             var m := TakeMetadata(c.0, pkt, c.1.value, f.meta);
             var q := TakeQuality(m.0, pkt, m.1.value, f.withQuality);
             q.0 == Remember(f) && q.1.Ok?
    ensures var t := TakeTimestamp(s, pkt, 5, f.meta);
            var c := TakeCount(t.0, pkt, t.1.value, f.withCount);
            var m := TakeMetadata(c.0, pkt, c.1.value, f.meta);
            var q := TakeQuality(m.0, pkt, m.1.value, f.withQuality);
            Decode(s, pkt, h) == (Remember(f), Ok((HeaderOf(f, h), q.1.value)))
  {
  }

  // ---- Streams of headers ---------------------------------------------------------------------

  predicate IsResync(pkt: seq<Byte>) {
    |pkt| >= 5 && Has(pkt[4], FLAG_METADATA) && Has(pkt[4], FLAG_COUNT) && Has(pkt[4], FLAG_QUALITY)
  }

  // Two decoders with any histories agree from the first full packet either of them accepts.
  lemma Resynchronise(s: State, t: State, pkt: seq<Byte>, h: Header)
    requires IsResync(pkt) && Decode(s, pkt, h).1.Ok?
    ensures Decode(t, pkt, h) == Decode(s, pkt, h)
  {
    var s1, t1 := TakeTimestamp(s, pkt, 5, true), TakeTimestamp(t, pkt, 5, true);
    assert s1.1 == t1.1 && s1.0.lastTS == t1.0.lastTS;
    var o1 := s1.1.value;
    var s2, t2 := TakeCount(s1.0, pkt, o1, true), TakeCount(t1.0, pkt, o1, true);
    assert s2.1 == t2.1 && s2.0.lastTS == t2.0.lastTS && s2.0.count == t2.0.count;
    var o2 := s2.1.value;
    var s3, t3 := TakeMetadata(s2.0, pkt, o2, true), TakeMetadata(t2.0, pkt, o2, true);
    assert s3.1 == t3.1 && s3.0.(power := 0, noise := 0) == t3.0.(power := 0, noise := 0);
    var o3 := s3.1.value;
    assert TakeQuality(s3.0, pkt, o3, true) == TakeQuality(t3.0, pkt, o3, true);
  }

  function DecodeAll(s: State, pkts: seq<seq<Byte>>, h: Header): (r: (State, seq<Result<(Header, nat)>>))
    ensures |r.1| == |pkts|
    decreases |pkts|
  {
    if pkts == [] then (s, [])
    else
      var (s1, first) := Decode(s, pkts[0], h);
      var (s2, rest) := DecodeAll(s1, pkts[1..], h);
      (s2, [first] + rest)
  }

  // ... and on every packet after it.
  lemma ResynchroniseStream(s: State, t: State, pkts: seq<seq<Byte>>, h: Header)
    requires pkts != [] && IsResync(pkts[0]) && Decode(s, pkts[0], h).1.Ok?
    ensures DecodeAll(s, pkts, h) == DecodeAll(t, pkts, h)
  {
    Resynchronise(s, t, pkts[0], h);
  }

  // Before a metadata packet nothing is accepted and nothing is remembered.
  lemma {:induction false} NothingBeforeMetadata(s: State, pkts: seq<seq<Byte>>, h: Header)
    requires !s.haveMetadata
    requires forall i :: 0 <= i < |pkts| ==> |pkts[i]| < 5 || !Has(pkts[i][4], FLAG_METADATA)
    ensures DecodeAll(s, pkts, h).0 == s
    ensures forall i :: 0 <= i < |pkts| ==> DecodeAll(s, pkts, h).1[i].Err?
    decreases |pkts|
  {
    if pkts != [] {
      assert Decode(s, pkts[0], h).0 == s && Decode(s, pkts[0], h).1.Err?;
      NothingBeforeMetadata(s, pkts[1..], h);
    }
  }

  // The delta a packet without metadata carries.
  function DeltaOf(pkt: seq<Byte>): int {
    if |pkt| < 5 then 0
    else match SignedVarint(pkt[5..]) case None => 0 case Some((delta, len)) => delta
  }

  function DeltaSum(pkts: seq<seq<Byte>>): int {
    if pkts == [] then 0 else DeltaOf(pkts[0]) + DeltaSum(pkts[1..])
  }

  lemma OneDelta(s: State, pkt: seq<Byte>, h: Header)
    requires FitsU64(s.lastTS) && |pkt| >= 5 && !Has(pkt[4], FLAG_METADATA) && Decode(s, pkt, h).1.Ok?
    ensures Decode(s, pkt, h).0.lastTS == WrapU64(s.lastTS + DeltaOf(pkt))
    ensures Decode(s, pkt, h).1.value.0.timestampNanos == Decode(s, pkt, h).0.lastTS
  {
    var s1, delta := Decode(s, pkt, h).0, DeltaOf(pkt);
    assert s1.lastTS == WrapU64(WrapS64(s.lastTS) + delta);
    hide Decode, DeltaOf, Has, WrapU64, WrapS64;
    AddDelta(s.lastTS, delta);
  }

  predicate NoMetadata(pkts: seq<seq<Byte>>) {
    forall i :: 0 <= i < |pkts| ==> |pkts[i]| >= 5 && !Has(pkts[i][4], FLAG_METADATA)
  }

  predicate AllAccepted(s: State, pkts: seq<seq<Byte>>, h: Header) {
    forall i :: 0 <= i < |pkts| ==> DecodeAll(s, pkts, h).1[i].Ok?
  }

  lemma AcceptedOne(s: State, pkts: seq<seq<Byte>>, h: Header)
    requires pkts != [] && NoMetadata(pkts) && AllAccepted(s, pkts, h)
    ensures |pkts[0]| >= 5 && !Has(pkts[0][4], FLAG_METADATA) && Decode(s, pkts[0], h).1.Ok?
    ensures NoMetadata(pkts[1..]) && AllAccepted(Decode(s, pkts[0], h).0, pkts[1..], h)
  {
    hide Decode, Has;
    var all, rest := DecodeAll(s, pkts, h).1, DecodeAll(Decode(s, pkts[0], h).0, pkts[1..], h).1;
    assert all == [Decode(s, pkts[0], h).1] + rest && all[0].Ok?;
    assert forall i :: 0 <= i < |rest| ==> rest[i] == all[i + 1];
  }

  // Over accepted packets without metadata the timestamp is the old one plus all deltas, modulo 2^64.
  lemma {:induction false} TimestampsAdd(s: State, pkts: seq<seq<Byte>>, h: Header)
    requires FitsU64(s.lastTS) && NoMetadata(pkts) && AllAccepted(s, pkts, h)
    ensures DecodeAll(s, pkts, h).0.lastTS == WrapU64(s.lastTS + DeltaSum(pkts))
    ensures pkts != [] ==>
              DecodeAll(s, pkts, h).1[|pkts| - 1].value.0.timestampNanos == WrapU64(s.lastTS + DeltaSum(pkts))
    decreases |pkts|
  {
    if pkts != [] {
      hide Decode, DeltaOf, NoMetadata, AllAccepted, WrapU64;
      AcceptedOne(s, pkts, h);
      var s1, more := Decode(s, pkts[0], h).0, pkts[1..];
      OneDelta(s, pkts[0], h);
      AddMore(s.lastTS + DeltaOf(pkts[0]), DeltaSum(more));
      TimestampsAdd(s1, more, h);
    }
  }

  lemma AddDelta(last: nat, delta: int)
    requires FitsU64(last)
    ensures WrapU64(WrapS64(last) + delta) == WrapU64(last + delta)
  {
    if last >= TWO_63 { ModShift(WrapS64(last) + delta, 1, TWO_64); }
  }

  lemma AddMore(x: int, more: int)
    ensures WrapU64(WrapU64(x) + more) == WrapU64(x + more)
  {
    ModShift(x % TWO_64 + more, x / TWO_64, TWO_64);
  }

  // ---- What bytes mean --------------------------------------------------------------------------

  // The bits of the flags byte, as numbers.
  lemma FlagBits(f: Fields)
    requires f.profile < 8
    ensures Flags(f) == (if f.escape then 128 else 0) + (if f.withQuality then 64 else 0) + (if f.meta then 32 else 0)
                        + (if f.silent then 16 else 0) + (if f.withCount then 8 else 0) + f.profile
  {
  }

  // Hundredths of a decibel, but for the one value that says there is no reading.
  lemma Quality(q: int)
    ensures q == -32768 ==> QualityToDb(q) == -999.0
    ensures q != -32768 ==> 100.0 * QualityToDb(q) == q as real
  {
  }

  // The number from place i of the packet on, least significant byte first.
  function Two(p: seq<Byte>, i: nat): int
    requires i + 2 <= |p|
  {
    p[i] as int + 0x100 * p[i + 1] as int
  }

  function Four(p: seq<Byte>, i: nat): int
    requires i + 4 <= |p|
  {
    Two(p, i) + 0x1_0000 * Two(p, i + 2)
  }

  lemma LittleEndianSums(s: seq<Byte>)
    ensures |s| == 2 ==> LittleEndian(s) == Two(s, 0)
    ensures |s| == 8 ==> LittleEndian(s) == Four(s, 0) + 0x1_0000_0000 * Four(s, 4)
  {
    if |s| == 2 {
      LittleEndianTwo(s, 0);
    } else if |s| == 8 {
      LittleEndianTwo(s, 6);
      LittleEndianTwo(s, 4);
      LittleEndianTwo(s, 2);
      LittleEndianTwo(s, 0);
    }
  }

  lemma LittleEndianTwo(s: seq<Byte>, i: nat)
    requires i + 2 <= |s|
    ensures LittleEndian(s[i..]) == Two(s, i) + 0x1_0000 * LittleEndian(s[i + 2..])
    ensures i == 0 ==> s[i..] == s
  {
    assert s[i..][1..] == s[i + 1..] && s[i + 1..][1..] == s[i + 2..];
  }

  // A number in two groups of seven bits, the low one first.
  function Groups(p: seq<Byte>, i: nat): int
    requires i + 2 <= |p|
  {
    p[i] as int - 128 + 128 * p[i + 1] as int
  }

  lemma TwoGroups(p: seq<Byte>, i: nat)
    requires i + 2 <= |p| && p[i] >= 128 && p[i + 1] < 128
    ensures Uvarint(p[i..], 0) == Some((Groups(p, i), 2))
  {
    assert p[i..][1..] == p[i + 1..];
  }

  function Signed(x: int): int { if x >= 0x8000 then x - 0x1_0000 else x }

  // A packet that carries everything, byte by byte: the magic, the flags, eight bytes of time, here two of count
  // and two of rate, one of channels, two of power, two of noise.
  lemma FullPacket(s: State, p: seq<Byte>, h: Header)
    requires |p| >= 22 && p[..4] == [0x50, 0x43, 0x4D, 0x34] && (p[4] / 8 == 13 || p[4] / 8 == 15 || p[4] / 8 == 29)
    requires p[13] >= 128 > p[14] && p[15] >= 128 > p[16]
    requires Groups(p, 13) > 0 && Groups(p, 15) > 0 && p[17] > 0
    ensures var ts := Four(p, 5) + 0x1_0000_0000 * Four(p, 9);
            var power, noise := Signed(Two(p, 18)), Signed(Two(p, 20));
            Decode(s, p, h)
            == (State(true, ts, Groups(p, 15), p[17], Groups(p, 13), power, noise),
                Ok((Header(ts, Groups(p, 15), p[17], Groups(p, 13), QualityToDb(power), QualityToDb(noise),
                           p[4] % 8, h.shift, p[4] / 8 == 29, p[4] / 8 == 15), 22)))
  {
    FullFlags(p[4]);
    FullTimestamp(s, p);
    var s1 := s.(lastTS := Four(p, 5) + 0x1_0000_0000 * Four(p, 9));
    FullCount(s1, p);
    var s2 := s1.(count := Groups(p, 13));
    FullMetadata(s2, p);
    FullQuality(s2.(rate := Groups(p, 15), channels := p[17], haveMetadata := true), p);
    hide Has, QualityToDb, TakeTimestamp, TakeCount, TakeMetadata, TakeQuality, Groups, Two, Four;
  }

  lemma FullFlags(f: Byte)
    requires f / 8 == 13 || f / 8 == 15 || f / 8 == 29
    ensures Has(f, FLAG_METADATA) && Has(f, FLAG_COUNT) && Has(f, FLAG_QUALITY)
    ensures Has(f, FLAG_ESCAPE) == (f / 8 == 29) && Has(f, FLAG_SILENT) == (f / 8 == 15)
  {
  }

  lemma FullTimestamp(s: State, p: seq<Byte>)
    requires |p| >= 22
    ensures TakeTimestamp(s, p, 5, true) == (s.(lastTS := Four(p, 5) + 0x1_0000_0000 * Four(p, 9)), Ok(13))
  {
    LittleEndianSums(p[5..13]);
    hide LittleEndian;
  }

  lemma FullCount(s: State, p: seq<Byte>)
    requires |p| >= 22 && p[13] >= 128 > p[14]
    ensures TakeCount(s, p, 13, true) == (s.(count := Groups(p, 13)), Ok(15))
  {
    TwoGroups(p, 13);
    hide Uvarint;
  }

  lemma FullMetadata(s: State, p: seq<Byte>)
    requires |p| >= 22 && p[15] >= 128 > p[16]
    ensures TakeMetadata(s, p, 15, true)
            == (s.(rate := Groups(p, 15), channels := p[17], haveMetadata := true), Ok(18))
  {
    TwoGroups(p, 15);
    hide Uvarint;
  }

  lemma FullQuality(s: State, p: seq<Byte>)
    requires |p| >= 22
    ensures TakeQuality(s, p, 18, true)
            == (s.(power := Signed(Two(p, 18)), noise := Signed(Two(p, 20))), Ok(22))
  {
    LittleEndianSums(p[18..20]);
    LittleEndianSums(p[20..22]);
    hide LittleEndian;
  }

  // A packet that repeats nothing: the flags, and how much later it is, even numbers forward and odd ones back.
  lemma DeltaPacket(s: State, p: seq<Byte>, h: Header)
    requires s.haveMetadata && s.rate > 0 && s.channels > 0 && s.count > 0
    requires |p| >= 6 && p[..4] == [0x50, 0x43, 0x4D, 0x34] && p[4] / 8 in {0, 2, 16} && p[5] < 128
    ensures var d := p[5] as int;
            var ts := WrapU64(WrapS64(s.lastTS) + if d % 2 == 0 then d / 2 else -((d + 1) / 2));
            Decode(s, p, h)
            == (s.(lastTS := ts),
                Ok((Header(ts, s.rate, s.channels, s.count, QualityToDb(s.power), QualityToDb(s.noise),
                           p[4] % 8, h.shift, p[4] / 8 == 16, p[4] / 8 == 2), 6)))
  {
    var f := p[4];
    assert !Has(f, FLAG_METADATA) && !Has(f, FLAG_COUNT) && !Has(f, FLAG_QUALITY);
    assert Has(f, FLAG_ESCAPE) == (f / 8 == 16) && Has(f, FLAG_SILENT) == (f / 8 == 2);
    assert Uvarint(p[5..], 0) == Some((p[5], 1));
    hide Uvarint, Has, QualityToDb, WrapU64, WrapS64;
  }
}
