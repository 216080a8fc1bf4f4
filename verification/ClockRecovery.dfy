/**
  * Clock recovery and bit sampling of the DSC receiver: the tail of the sample loop, on exact numbers.
  */
module ClockRecovery {
  import opened DscDecoders
  import opened DscReceivers
  import opened DscSymbols

  // The clock and the last decision on the data.
  datatype Clock = Clock(count: real, data: bool)

  // Half a bit, where the clock runs from and to.
  function Half(spb: int): real { spb as real / 2.0 }

  // Where the clock is between samples.
  predicate InRange(count: real, spb: int) {
    -Half(spb) - 1.0 <= count < Half(spb) - 1.0
  }

  // The clock after a rising edge is pulled a quarter of the way towards zero.
  function Pulled(c: Clock, level: bool): real {
    if level && !c.data then c.count - c.count * 0.25 else c.count
  }

  // A bit is taken on this sample.
  predicate Takes(c: Clock, level: bool, spb: int) {
    Pulled(c, level) + 1.0 >= Half(spb) - 1.0
  }

  // One sample. When the bit taken completes a call, everything starts over before the clock steps back.
  function Tick(c: Clock, level: bool, spb: int, completes: bool): Clock {
    if !Takes(c, level, spb) then Clock(Pulled(c, level) + 1.0, level)
    else if completes then Clock(-Half(spb) - spb as real, false)
    else Clock(Pulled(c, level) + 1.0 - spb as real, level)
  }

  // The clock stays in its range on every sample, but for the one that completes a call: that one leaves it
  // a whole bit too low.
  lemma TickRange(c: Clock, level: bool, spb: int, completes: bool)
    requires spb > 2 && InRange(c.count, spb)
    ensures InRange(Tick(c, level, spb, completes).count, spb) <==> !(Takes(c, level, spb) && completes)
  {
  }

  // It never falls lower than that, and never passes the top.
  lemma TickBounds(c: Clock, level: bool, spb: int, completes: bool)
    requires spb > 2 && -3.0 * Half(spb) <= c.count < Half(spb) - 1.0
    ensures -3.0 * Half(spb) <= Tick(c, level, spb, completes).count < Half(spb) - 1.0
  {
  }

  // The samples of n bits.
  function Samples(spb: int, n: int): real { spb as real * n as real }

  lemma SamplesAdd(spb: int, m: int, n: int)
    ensures Samples(spb, m + n) == Samples(spb, m) + Samples(spb, n)
    ensures Samples(spb, 1) == spb as real && Samples(spb, -1) == -(spb as real) && Samples(spb, 0) == 0.0
  {
  }

  lemma SamplesSign(spb: int, n: nat)
    requires spb > 0
    ensures Samples(spb, n) >= 0.0
  {
  }

  // ---- Runs without a completed call ------------------------------------------------------------

  function Run(c: Clock, levels: seq<bool>, spb: int): Clock
    decreases |levels|
  {
    if levels == [] then c else Run(Tick(c, levels[0], spb, false), levels[1..], spb)
  }

  // How many bits a run takes.
  function Bits(c: Clock, levels: seq<bool>, spb: int): nat
    decreases |levels|
  {
    if levels == [] then 0
    else (if Takes(c, levels[0], spb) then 1 else 0) + Bits(Tick(c, levels[0], spb, false), levels[1..], spb)
  }

  // No sample of the run is a rising edge.
  predicate Edgeless(data: bool, levels: seq<bool>) {
    levels == [] || (!(levels[0] && !data) && Edgeless(levels[0], levels[1..]))
  }

  // Between edges the clock counts samples, and gives one bit back for each bit taken.
  lemma {:induction false} RunEdgeless(c: Clock, levels: seq<bool>, spb: int)
    requires spb > 2 && InRange(c.count, spb) && Edgeless(c.data, levels)
    ensures InRange(Run(c, levels, spb).count, spb)
    ensures Run(c, levels, spb).count == c.count + |levels| as real - Samples(spb, Bits(c, levels, spb))
    decreases |levels|
  {
    if levels != [] {
      TickRange(c, levels[0], spb, false);
      RunEdgeless(Tick(c, levels[0], spb, false), levels[1..], spb);
      SamplesAdd(spb, Bits(Tick(c, levels[0], spb, false), levels[1..], spb), 1);
    }
  }

  // Two places of the clock that differ by whole bits are the same.
  lemma SamePlace(x: real, y: real, spb: int, n: int)
    requires spb > 2 && InRange(x, spb) && InRange(y, spb) && x == y + Samples(spb, n)
    ensures n == 0 && x == y
  {
    if n >= 1 { SamplesAdd(spb, n - 1, 1); SamplesSign(spb, n - 1); }
    if n <= -1 { SamplesAdd(spb, n + 1, -1); SamplesSign(spb, -n - 1); SamplesAdd(spb, n + 1, -n - 1); }
  }

  // A rising edge, and the samples up to the next one.
  predicate Segment(levels: seq<bool>) {
    levels != [] && levels[0] && Edgeless(true, levels[1..])
  }

  // From edge to edge: when the next edge is m bits and e samples away, exactly m bits are taken, and the
  // clock keeps three quarters of its error and the new one.
  lemma EdgeToEdge(c: Clock, levels: seq<bool>, spb: int, m: nat, e: real)
    requires spb > 2 && InRange(c.count, spb) && !c.data && Segment(levels)
    requires |levels| as real == Samples(spb, m) + e && InRange(0.75 * c.count + e, spb)
    ensures Bits(c, levels, spb) == m && Run(c, levels, spb).count == 0.75 * c.count + e
  {
    var next := Tick(c, levels[0], spb, false);
    TickRange(c, levels[0], spb, false);
    RunEdgeless(next, levels[1..], spb);
    hide Samples, InRange;
    var end, n := Run(c, levels, spb).count, Bits(c, levels, spb);
    var rest := Bits(next, levels[1..], spb);
    SamplesAdd(spb, rest, 1);
    assert end == 0.75 * c.count + |levels| as real - Samples(spb, n);
    SamplesAdd(spb, m - n, n);
    SamePlace(end, 0.75 * c.count + e, spb, m - n);
  }

  // ---- Whole signals ----------------------------------------------------------------------------

  // A signal, cut at its rising edges: the samples of each part, the bits it stands for, and by how much
  // its length differs from theirs.
  datatype Part = Part(levels: seq<bool>, bits: nat, jitter: real)

  // A part starts with an edge and ends low, so that the next part can start with one.
  predicate WellCut(p: Part, spb: int) {
    Segment(p.levels) && !p.levels[|p.levels| - 1]
    && |p.levels| as real == Samples(spb, p.bits) + p.jitter
  }

  function Signal(parts: seq<Part>): seq<bool> {
    if parts == [] then [] else parts[0].levels + Signal(parts[1..])
  }

  function Total(parts: seq<Part>): nat {
    if parts == [] then 0 else parts[0].bits + Total(parts[1..])
  }

  // What is left of the clock's error after each edge.
  function Error(count: real, parts: seq<Part>): real
    decreases |parts|
  {
    if parts == [] then count else Error(0.75 * count + parts[0].jitter, parts[1..])
  }

  function Power(x: real, n: nat): real { if n == 0 then 1.0 else x * Power(x, n - 1) }

  lemma {:induction false} RunAppend(c: Clock, a: seq<bool>, b: seq<bool>, spb: int)
    ensures Run(c, a + b, spb) == Run(Run(c, a, spb), b, spb)
    ensures Bits(c, a + b, spb) == Bits(c, a, spb) + Bits(Run(c, a, spb), b, spb)
    decreases |a|
  {
    if a == [] {
      assert a + b == b;
    } else {
      assert (a + b)[1..] == a[1..] + b;
      RunAppend(Tick(c, a[0], spb, false), a[1..], b, spb);
    }
  }

  lemma {:induction false} RunEndsLow(c: Clock, levels: seq<bool>, spb: int)
    requires levels != []
    ensures Run(c, levels, spb).data == levels[|levels| - 1]
    decreases |levels|
  {
    if |levels| > 1 { RunEndsLow(Tick(c, levels[0], spb, false), levels[1..], spb); }
  }

  // The law of the clock over whole signals, from anywhere in its range: as long as what is left of its
  // error stays in the range at every edge, exactly the signal's bits are taken, and the clock ends where
  // the recurrence does.
  lemma {:induction false} Tracks(c: Clock, parts: seq<Part>, spb: int)
    requires spb > 2 && !c.data && forall p :: p in parts ==> WellCut(p, spb)
    requires forall k: nat :: k <= |parts| ==> InRange(Error(c.count, parts[..k]), spb)
    ensures var end := Run(c, Signal(parts), spb); end.count == Error(c.count, parts) && !end.data
    ensures Bits(c, Signal(parts), spb) == Total(parts)
    decreases |parts|
  {
    hide InRange, WellCut;
    assert parts[..0] == [] && InRange(Error(c.count, parts[..0]), spb);
    if parts != [] {
      var p, rest := parts[0], parts[1..];
      var next := 0.75 * c.count + p.jitter;
      forall k: nat | k <= |rest| ensures InRange(Error(next, rest[..k]), spb) {
        assert parts[..k + 1][1..] == rest[..k];
        assert Error(c.count, parts[..k + 1]) == Error(next, rest[..k]);
      }
      assert rest[..0] == [] && InRange(Error(next, rest[..0]), spb);
      assert p in parts;
      PartTracked(c, p, spb);
      RunAppend(c, p.levels, Signal(rest), spb);
      Tracks(Run(c, p.levels, spb), rest, spb);
    }
  }

  lemma PartTracked(c: Clock, p: Part, spb: int)
    requires spb > 2 && !c.data && InRange(c.count, spb) && WellCut(p, spb)
    requires InRange(0.75 * c.count + p.jitter, spb)
    ensures var end := Run(c, p.levels, spb); end.count == 0.75 * c.count + p.jitter && !end.data
    ensures Bits(c, p.levels, spb) == p.bits
  {
    hide InRange;
    EdgeToEdge(c, p.levels, spb, p.bits, p.jitter);
    RunEndsLow(c, p.levels, spb);
  }

  // What n edges leave of an error when each leaves three quarters of it.
  function Decayed(count: real, n: nat): real { Power(0.75, n) * count }

  // Without jitter the clock contracts: after n edges, from anywhere in its range, it is 0.75^n of what it
  // was, and every bit between has been taken once.
  lemma Contracts(c: Clock, parts: seq<Part>, spb: int)
    requires spb > 2 && !c.data && InRange(c.count, spb)
    requires forall p :: p in parts ==> WellCut(p, spb) && p.jitter == 0.0
    ensures var end := Run(c, Signal(parts), spb); end.count == Decayed(c.count, |parts|) && !end.data
    ensures Bits(c, Signal(parts), spb) == Total(parts)
  {
    ErrorDecays(c.count, parts);
    hide InRange, WellCut, Power, Error, Decayed;
    forall k: nat | k <= |parts| ensures InRange(Error(c.count, parts[..k]), spb) {
      ErrorDecays(c.count, parts[..k]);
      DecayStays(c.count, k, spb);
    }
    Tracks(c, parts, spb);
  }

  lemma DecayStep(count: real, n: nat)
    requires n > 0
    ensures Decayed(count, n) == Decayed(0.75 * count, n - 1) == 0.75 * Decayed(count, n - 1)
  {
    var r := Power(0.75, n - 1);
    assert (0.75 * r) * count == r * (0.75 * count) == 0.75 * (r * count);
  }

  lemma {:induction false} ErrorDecays(count: real, parts: seq<Part>)
    requires forall p :: p in parts ==> p.jitter == 0.0
    ensures Error(count, parts) == Decayed(count, |parts|)
    decreases |parts|
  {
    if parts == [] {
      assert Decayed(count, 0) == count;
    } else {
      hide Decayed, Power;
      DecayStep(count, |parts|);
      ErrorDecays(0.75 * count, parts[1..]);
    }
  }

  lemma {:induction false} DecayStays(count: real, n: nat, spb: int)
    requires spb > 2 && InRange(count, spb)
    ensures InRange(Decayed(count, n), spb)
    decreases n
  {
    if n == 0 {
      assert Decayed(count, 0) == count;
    } else {
      hide Decayed, Power;
      DecayStep(count, n);
      DecayStays(count, n - 1, spb);
    }
  }

  // Jitter within a quarter of a margin never costs or adds a bit, however long the signal, and leaves the
  // clock within the margin.
  lemma TracksWithin(c: Clock, parts: seq<Part>, spb: int, margin: real)
    requires spb > 2 && !c.data && 0.0 <= margin < Half(spb) - 1.0 && -margin <= c.count <= margin
    requires forall p :: p in parts ==> WellCut(p, spb) && -margin / 4.0 <= p.jitter <= margin / 4.0
    ensures var end := Run(c, Signal(parts), spb);
            end.count == Error(c.count, parts) && -margin <= end.count <= margin && !end.data
    ensures Bits(c, Signal(parts), spb) == Total(parts)
  {
    hide WellCut, Error;
    forall k: nat | k <= |parts| ensures InRange(Error(c.count, parts[..k]), spb) {
      ErrorWithin(c.count, parts[..k], margin);
    }
    Tracks(c, parts, spb);
    ErrorWithin(c.count, parts, margin);
  }

  lemma {:induction false} ErrorWithin(count: real, parts: seq<Part>, margin: real)
    requires -margin <= count <= margin
    requires forall p :: p in parts ==> -margin / 4.0 <= p.jitter <= margin / 4.0
    ensures -margin <= Error(count, parts) <= margin
    decreases |parts|
  {
    if parts != [] { ErrorWithin(0.75 * count + parts[0].jitter, parts[1..], margin); }
  }

  // ---- A sampled signal -------------------------------------------------------------------------

  // The bits a run takes.
  function Taken(c: Clock, levels: seq<bool>, spb: int): (t: seq<bool>)
    ensures |t| == Bits(c, levels, spb)
    decreases |levels|
  {
    if levels == [] then []
    else
      var rest := Taken(Tick(c, levels[0], spb, false), levels[1..], spb);
      if Takes(c, levels[0], spb) then [levels[0]] + rest else rest
  }

  lemma {:induction false} TakenAppend(c: Clock, a: seq<bool>, b: seq<bool>, spb: int)
    ensures Taken(c, a + b, spb) == Taken(c, a, spb) + Taken(Run(c, a, spb), b, spb)
    decreases |a|
  {
    if a == [] {
      assert a + b == b;
    } else {
      assert (a + b)[1..] == a[1..] + b;
      TakenAppend(Tick(c, a[0], spb, false), a[1..], b, spb);
    }
  }

  // One bit, as the demodulator shows it.
  function Period(bit: bool, n: nat): seq<bool> {
    seq(n, _ => bit)
  }

  function Wave(bits: seq<bool>, spb: nat): seq<bool> {
    if bits == [] then [] else Period(bits[0], spb) + Wave(bits[1..], spb)
  }

  // While the level stays, there is no edge and every bit taken is that level.
  lemma {:induction false} SteadyLevel(c: Clock, bit: bool, n: nat, spb: int)
    ensures Edgeless(bit, Period(bit, n)) && forall i ::
            0 <= i < |Taken(c, Period(bit, n), spb)| ==> Taken(c, Period(bit, n), spb)[i] == bit
    decreases n
  {
    if n > 0 {
      assert Period(bit, n)[1..] == Period(bit, n - 1);
      SteadyLevel(Tick(c, bit, spb, false), bit, n - 1, spb);
    }
  }

  // One bit period takes exactly that bit, wherever in its range the clock stands.
  lemma PeriodTaken(c: Clock, bit: bool, spb: nat)
    requires spb > 2 && InRange(c.count, spb)
    ensures Taken(c, Period(bit, spb), spb) == [bit] && InRange(Run(c, Period(bit, spb), spb).count, spb)
  {
    var levels := Period(bit, spb);
    SteadyLevel(c, bit, spb, spb);
    SamplesAdd(spb, 0, 0);
    if bit && !c.data {
      SteadyLevel(c, bit, spb - 1, spb);
      assert levels[1..] == Period(bit, spb - 1);
      EdgeToEdge(c, levels, spb, 1, 0.0);
    } else {
      assert levels[1..] == Period(bit, spb - 1);
      SteadyLevel(c, bit, spb - 1, spb);
      RunEdgeless(c, levels, spb);
      SamplesAdd(spb, 1 - Bits(c, levels, spb), Bits(c, levels, spb));
      SamePlace(Run(c, levels, spb).count, c.count, spb, 1 - Bits(c, levels, spb));
    }
  }

  // A signal with every bit of its full length is sampled into exactly its bits.
  lemma {:induction false} WaveTaken(c: Clock, bits: seq<bool>, spb: nat)
    requires spb > 2 && InRange(c.count, spb)
    ensures Taken(c, Wave(bits, spb), spb) == bits && InRange(Run(c, Wave(bits, spb), spb).count, spb)
    decreases |bits|
  {
    if bits != [] {
      var levels := Period(bits[0], spb);
      PeriodTaken(c, bits[0], spb);
      TakenAppend(c, levels, Wave(bits[1..], spb), spb);
      RunAppend(c, levels, Wave(bits[1..], spb), spb);
      WaveTaken(Run(c, levels, spb), bits[1..], spb);
    }
  }

  // While the clock cannot reach the sampling point, no bit is taken.
  lemma {:induction false} NoBitYet(c: Clock, levels: seq<bool>, spb: int)
    requires Edgeless(c.data, levels) && c.count + |levels| as real < Half(spb) - 1.0
    ensures Bits(c, levels, spb) == 0
    decreases |levels|
  {
    if levels != [] { NoBitYet(Tick(c, levels[0], spb, false), levels[1..], spb); }
  }

  // Where a completed call leaves the clock, and the data.
  function AfterCall(spb: int): Clock { Clock(-Half(spb) - spb as real, false) }

  // Without an edge to pull the clock, a completed call costs the next bit: nothing is taken for nearly two
  // bit periods.
  lemma CallLosesABit(c: Clock, level: bool, levels: seq<bool>, spb: int)
    requires Takes(c, level, spb) && Edgeless(false, levels) && |levels| < 2 * spb - 1
    ensures Bits(Tick(c, level, spb, true), levels, spb) == 0
  {
    NoBitYet(Tick(c, level, spb, true), levels, spb);
  }

  // An edgeless run too short for two bits takes one exactly when the clock comes to the sampling point,
  // from however low.
  lemma {:induction false} FromBelow(c: Clock, levels: seq<bool>, spb: int)
    requires Edgeless(c.data, levels) && c.count < Half(spb) - 1.0
    requires c.count + |levels| as real < Half(spb) - 1.0 + spb as real
    ensures var there := c.count + |levels| as real;
            if there >= Half(spb) - 1.0 then
              Bits(c, levels, spb) == 1 && Run(c, levels, spb).count == there - spb as real
            else Bits(c, levels, spb) == 0 && Run(c, levels, spb).count == there
    decreases |levels|
  {
    if levels != [] { FromBelow(Tick(c, levels[0], spb, false), levels[1..], spb); }
  }

  // Pulling the clock first changes nothing else about a run that starts with an edge.
  lemma PulledFirst(c: Clock, bit: bool, n: nat, spb: int)
    requires n > 0
    ensures var levels, pulled := Period(bit, n), Clock(Pulled(c, bit), bit);
            Run(c, levels, spb) == Run(pulled, levels, spb) && Taken(c, levels, spb) == Taken(pulled, levels, spb)
  {
    assert Tick(c, bit, spb, false) == Tick(Clock(Pulled(c, bit), bit), bit, spb, false);
  }

  // One bit period brings the clock back into its range from as low as a completed call leaves it, with an
  // edge or without, and takes that bit or none.
  lemma PeriodFromBelow(c: Clock, bit: bool, spb: nat)
    requires spb > 2 && -3.0 * Half(spb) <= c.count < Half(spb) - 1.0
    ensures var t := Taken(c, Period(bit, spb), spb); t == [] || t == [bit]
    ensures InRange(Run(c, Period(bit, spb), spb).count, spb)
  {
    var pulled := Clock(Pulled(c, bit), bit);
    PulledFirst(c, bit, spb, spb);
    SteadyLevel(pulled, bit, spb, spb);
    FromBelow(pulled, Period(bit, spb), spb);
  }

  // What is left of a call's last bit period takes no bit, even if its level looks like an edge.
  lemma QuietAfterCall(bit: bool, n: nat, spb: int)
    requires spb > 2 && n < spb
    ensures Taken(AfterCall(spb), Period(bit, n), spb) == []
    ensures -3.0 * Half(spb) <= Run(AfterCall(spb), Period(bit, n), spb).count < Half(spb) - 1.0
  {
    if n > 0 {
      var pulled := Clock(Pulled(AfterCall(spb), bit), bit);
      PulledFirst(AfterCall(spb), bit, n, spb);
      SteadyLevel(pulled, bit, n, spb);
      FromBelow(pulled, Period(bit, n), spb);
    }
  }

  // So a completed call costs at most one bit, whatever the levels, and the clock is back in its range after
  // that bit.
  lemma FirstBitAfterCall(bit: bool, n: nat, b: bool, spb: nat)
    requires spb > 2 && n < spb
    ensures var lead := Period(bit, n) + Period(b, spb);
            && (Taken(AfterCall(spb), lead, spb) == [] || Taken(AfterCall(spb), lead, spb) == [b])
            && InRange(Run(AfterCall(spb), lead, spb).count, spb)
  {
    var c := AfterCall(spb);
    QuietAfterCall(bit, n, spb);
    TakenAppend(c, Period(bit, n), Period(b, spb), spb);
    RunAppend(c, Period(bit, n), Period(b, spb), spb);
    PeriodFromBelow(Run(c, Period(bit, n), spb), b, spb);
  }

  lemma AtMostOneBitLost(bit: bool, n: nat, b: bool, bits: seq<bool>, spb: nat)
    requires spb > 2 && n < spb
    ensures var levels := Period(bit, n) + Wave([b] + bits, spb);
            && (Taken(AfterCall(spb), levels, spb) == bits || Taken(AfterCall(spb), levels, spb) == [b] + bits)
            && InRange(Run(AfterCall(spb), levels, spb).count, spb)
  {
    var c, lead := AfterCall(spb), Period(bit, n) + Period(b, spb);
    assert ([b] + bits)[1..] == bits;
    assert Period(bit, n) + Wave([b] + bits, spb) == lead + Wave(bits, spb);
    FirstBitAfterCall(bit, n, b, spb);
    TakenAppend(c, lead, Wave(bits, spb), spb);
    RunAppend(c, lead, Wave(bits, spb), spb);
    WaveTaken(Run(c, lead, spb), bits, spb);
  }

  // ---- From levels to calls -----------------------------------------------------------------------

  // The calls of a run of levels, when the bits in `seen` came since the last start.
  ghost function Demodulated(c: Clock, seen: seq<bool>, levels: seq<bool>, spb: int): seq<Call>
    decreases |levels|
  {
    if levels == [] then []
    else if !Takes(c, levels[0], spb) then Demodulated(Tick(c, levels[0], spb, false), seen, levels[1..], spb)
    else
      var next := seen + [levels[0]];
      if Framed(next).Call? then [Framed(next)] + Demodulated(Tick(c, levels[0], spb, true), [], levels[1..], spb)
      else Demodulated(Tick(c, levels[0], spb, false), next, levels[1..], spb)
  }

  // While the bits taken complete no call, they only add up.
  lemma {:induction false} NothingYet(c: Clock, seen: seq<bool>, levels: seq<bool>, rest: seq<bool>, spb: int)
    requires forall n {:trigger Taken(c, levels, spb)[..n]} ::
             1 <= n <= |Taken(c, levels, spb)| ==> Framed(seen + Taken(c, levels, spb)[..n]) == NoCall
    ensures Demodulated(c, seen, levels + rest, spb)
            == Demodulated(Run(c, levels, spb), seen + Taken(c, levels, spb), rest, spb)
    decreases |levels|
  {
    hide Framed, Takes, Tick;
    var t := Taken(c, levels, spb);
    if levels == [] {
      assert levels + rest == rest && seen + t == seen;
    } else {
      var l, after := levels[0], Tick(c, levels[0], spb, false);
      assert (levels + rest)[1..] == levels[1..] + rest;
      var u := Taken(after, levels[1..], spb);
      if Takes(c, l, spb) {
        assert t == [l] + u && t[..1] == [l];
        forall n {:trigger u[..n]} | 1 <= n <= |u| ensures Framed((seen + [l]) + u[..n]) == NoCall {
          assert t[..n + 1] == [l] + u[..n];
          assert seen + t[..n + 1] == (seen + [l]) + u[..n];
        }
        NothingYet(after, seen + [l], levels[1..], rest, spb);
        assert (seen + [l]) + u == seen + t;
      } else {
        assert t == u;
        NothingYet(after, seen, levels[1..], rest, spb);
      }
    }
  }

  lemma {:induction false} NothingTaken(c: Clock, seen: seq<bool>, levels: seq<bool>, spb: int)
    requires Bits(c, levels, spb) == 0
    ensures Demodulated(c, seen, levels, spb) == []
    decreases |levels|
  {
    hide Framed;
    if levels != [] { NothingTaken(Tick(c, levels[0], spb, false), seen, levels[1..], spb); }
  }

  // The period in which the bit is taken that completes a call; m of its samples are left.
  lemma {:induction false} LastPeriod(c: Clock, seen: seq<bool>, bit: bool, n: nat, rest: seq<bool>, spb: int)
    returns (m: nat)
    requires Taken(c, Period(bit, n), spb) == [bit] && Framed(seen + [bit]).Call?
    ensures m < n
    ensures Demodulated(c, seen, Period(bit, n) + rest, spb)
            == [Framed(seen + [bit])] + Demodulated(AfterCall(spb), [], Period(bit, m) + rest, spb)
    decreases n
  {
    hide Framed;
    assert n > 0;
    var levels := Period(bit, n) + rest;
    assert Period(bit, n)[1..] == Period(bit, n - 1) && levels[1..] == Period(bit, n - 1) + rest;
    if Takes(c, bit, spb) {
      m := n - 1;
    } else {
      m := LastPeriod(Tick(c, bit, spb, false), seen, bit, n - 1, rest, spb);
    }
  }

  lemma {:induction false} WaveAppend(bits: seq<bool>, b: bool, spb: nat)
    ensures Wave(bits + [b], spb) == Wave(bits, spb) + Period(b, spb)
    decreases |bits|
  {
    if bits == [] {
      assert bits + [b] == [b] && Wave([b], spb) == Period(b, spb) + Wave([b][1..], spb);
    } else {
      assert (bits + [b])[1..] == bits[1..] + [b];
      WaveAppend(bits[1..], b, spb);
    }
  }

  // Bits that go on from those seen to a call are demodulated into that call, from any place of the clock in
  // its range, and whatever follows finds the clock where a call leaves it.
  lemma CallThen(c: Clock, seen: seq<bool>, bits: seq<bool>, rest: seq<bool>, spb: nat) returns (m: nat)
    requires spb > 2 && InRange(c.count, spb) && bits != [] && Framed(seen + bits).Call?
    ensures m < spb
    ensures Demodulated(c, seen, Wave(bits, spb) + rest, spb)
            == [Framed(seen + bits)]
               + Demodulated(AfterCall(spb), [], Period(bits[|bits| - 1], m) + rest, spb)
  {
    hide Framed, Takes, Tick, InRange, Demodulated;
    var front, last := bits[..|bits| - 1], bits[|bits| - 1];
    assert bits == front + [last] && seen + bits == (seen + front) + [last];
    WaveAppend(front, last, spb);
    WaveTaken(c, front, spb);
    forall n {:trigger front[..n]} | 1 <= n <= |front| ensures Framed(seen + front[..n]) == NoCall {
      NotFramedBefore(seen + bits, |seen| + n);
      assert seen + front[..n] == (seen + bits)[..|seen| + n];
    }
    assert Wave(bits, spb) + rest == Wave(front, spb) + (Period(last, spb) + rest);
    NothingYet(c, seen, Wave(front, spb), Period(last, spb) + rest, spb);
    var there := Run(c, Wave(front, spb), spb);
    PeriodTaken(there, last, spb);
    m := LastPeriod(there, seen + front, last, spb, rest, spb);
  }

  // A signal whose bits are a call is demodulated into that call and no other, from any place of the clock in
  // its range.
  lemma WaveDelivers(c: Clock, bits: seq<bool>, spb: nat)
    requires spb > 2 && InRange(c.count, spb) && bits != [] && Framed(bits).Call?
    ensures Demodulated(c, [], Wave(bits, spb), spb) == [Framed(bits)]
  {
    hide Framed, Takes, Tick, InRange, Demodulated;
    assert [] + bits == bits && Wave(bits, spb) + [] == Wave(bits, spb);
    var m := CallThen(c, [], bits, [], spb);
    NoCallLeft(bits[|bits| - 1], m, spb);
  }

  lemma NoCallLeft(bit: bool, m: nat, spb: nat)
    requires spb > 2 && m < spb
    ensures Demodulated(AfterCall(spb), [], Period(bit, m) + [], spb) == []
  {
    assert Period(bit, m) + [] == Period(bit, m);
    QuietAfterCall(bit, m, spb);
    NothingTaken(AfterCall(spb), [], Period(bit, m), spb);
  }

  // ---- Any number of transmissions ----------------------------------------------------------------

  // The bits of a call on the air, where its phasing sequence starts in them, and its characters.
  datatype Transmission = Transmission(bits: seq<bool>, start: nat, message: seq<bv8>) {
    // It starts cleanly, and one copy of each character is intact, the other intact or damaged one way.
    predicate Receivable() { CleanCall(bits, start, message) }

    function Sent(): Call
      requires Receivable()
    {
      Call(message, Errors(HeardFrom(bits, start), 9))
    }
  }

  // All the levels of transmissions sent one straight after the other.
  function Air(ts: seq<Transmission>, spb: nat): seq<bool> {
    if ts == [] then [] else Wave(ts[0].bits, spb) + Air(ts[1..], spb)
  }

  function AllSent(ts: seq<Transmission>): (calls: seq<Call>)
    requires forall t :: t in ts ==> t.Receivable()
    ensures |calls| == |ts| && forall i :: 0 <= i < |ts| ==> calls[i] == ts[i].Sent()
  {
    if ts == [] then [] else [ts[0].Sent()] + AllSent(ts[1..])
  }

  lemma Regroup<T>(a: seq<T>, b: seq<T>, c: seq<T>, d: seq<T>)
    ensures a + ((b + c) + d) == (a + b) + (c + d)
  {
  }

  lemma WaveHead(before: seq<bool>, bits: seq<bool>, rest: seq<bool>, spb: nat)
    requires bits != []
    ensures before + (Wave(bits, spb) + rest) == (before + Period(bits[0], spb)) + (Wave(bits[1..], spb) + rest)
  {
    var p, w := Period(bits[0], spb), Wave(bits[1..], spb);
    assert Wave(bits, spb) == p + w;
    hide Wave, Period;
    Regroup(before, p, w, rest);
  }

  // After a call, a transmission with a dot to spare is received whole: if its first bit is lost, that is a
  // dot.
  lemma TransmissionAfterCall(bit: bool, n: nat, t: Transmission, rest: seq<bool>, spb: nat) returns (m: nat)
    requires spb > 2 && n < spb && t.Receivable() && t.start > 0
    ensures m < spb && t.bits != []
    ensures Demodulated(AfterCall(spb), [], Period(bit, n) + (Wave(t.bits, spb) + rest), spb)
            == [t.Sent()] + Demodulated(AfterCall(spb), [], Period(t.bits[|t.bits| - 1], m) + rest, spb)
  {
    hide Framed, Takes, Tick, Taken, Run, InRange, Demodulated, Wave, Period;
    hide CleanCall, Errors, HeardFrom, Heard, Offset, SlotsArrive, InPhase;
    CleanCallIs(t.bits, t.start, t.message);
    var b, tail := t.bits[0], t.bits[1..];
    var lead, more := Period(bit, n) + Period(b, spb), Wave(tail, spb) + rest;
    assert t.bits == [b] + tail;
    WaveHead(Period(bit, n), t.bits, rest, spb);
    CleanCallTail(t.bits, t.start, t.message);
    CleanCallIs(tail, t.start - 1, t.message);
    NotFramedBefore(t.bits, 1);
    FirstBitAfterCall(bit, n, b, spb);
    var c, taken := AfterCall(spb), Taken(AfterCall(spb), lead, spb);
    forall k {:trigger taken[..k]} | 1 <= k <= |taken| ensures Framed([] + taken[..k]) == NoCall {
      assert [] + taken[..k] == t.bits[..1];
    }
    NothingYet(c, [], lead, more, spb);
    assert [] + taken == taken && taken + tail == if taken == [] then tail else t.bits;
    m := CallThen(Run(c, lead, spb), taken, tail, rest, spb);
  }

  lemma {:induction false} AllAfterCall(bit: bool, n: nat, ts: seq<Transmission>, spb: nat)
    requires spb > 2 && n < spb && forall t :: t in ts ==> t.Receivable() && t.start > 0
    ensures Demodulated(AfterCall(spb), [], Period(bit, n) + Air(ts, spb), spb) == AllSent(ts)
    decreases |ts|
  {
    hide Demodulated, Wave, Period, Transmission.Receivable, Transmission.Sent;
    if ts == [] {
      NoCallLeft(bit, n, spb);
    } else {
      var m := TransmissionAfterCall(bit, n, ts[0], Air(ts[1..], spb), spb);
      var last := ts[0].bits[|ts[0].bits| - 1];
      AllAfterCall(last, m, ts[1..], spb);
    }
  }

  // The first transmission a receiver hears is received whole, with a dot to spare or without.
  lemma FirstReceived(c: Clock, t: Transmission, rest: seq<bool>, spb: nat) returns (m: nat)
    requires spb > 2 && InRange(c.count, spb) && t.Receivable()
    ensures m < spb && t.bits != []
    ensures Demodulated(c, [], Wave(t.bits, spb) + rest, spb)
            == [t.Sent()] + Demodulated(AfterCall(spb), [], Period(t.bits[|t.bits| - 1], m) + rest, spb)
  {
    hide Demodulated, Framed, InRange, CleanCall, Errors, HeardFrom, Heard, Offset, SlotsArrive, InPhase;
    CleanCallIs(t.bits, t.start, t.message);
    assert [] + t.bits == t.bits;
    m := CallThen(c, [], t.bits, rest, spb);
  }

  // From the demodulator's decisions to the messages: of any number of calls sent at full bit length, one
  // straight after the other, every one is received whole and nothing else is, if one copy of each of its
  // characters is intact and the other intact or damaged in one direction; only the first can do without a
  // dot before its phasing sequence.
  lemma CallsReceived(c: Clock, ts: seq<Transmission>, spb: nat)
    requires spb > 2 && InRange(c.count, spb) && ts != []
    requires forall i :: 0 <= i < |ts| ==> ts[i].Receivable() && (i > 0 ==> ts[i].start > 0)
    ensures Demodulated(c, [], Air(ts, spb), spb) == AllSent(ts)
  {
    hide Demodulated, Wave, Period, InRange, Transmission.Receivable, Transmission.Sent;
    var t := ts[0];
    var m := FirstReceived(c, t, Air(ts[1..], spb), spb);
    AllAfterCall(t.bits[|t.bits| - 1], m, ts[1..], spb);
  }

  // ---- The sampler ------------------------------------------------------------------------------

  class BitSampler {
    const samplesPerBit: int
    const receiver: Receiver
    var clockCount: real
    var data: bool
    var dataPrev: bool

    ghost predicate Valid()
      reads this, receiver, receiver.decoder, receiver.decoder.buf
    {
      && samplesPerBit > 2 && receiver.Valid()
      && -3.0 * Half(samplesPerBit) <= clockCount < Half(samplesPerBit) - 1.0
    }

    ghost function Now(): Clock
      reads this
    {
      Clock(clockCount, data)
    }

    constructor (samplesPerBit: int)
      requires samplesPerBit > 2
      ensures Valid() && fresh(receiver) && fresh(receiver.decoder) && fresh(receiver.decoder.buf)
      ensures Now() == Clock(-Half(samplesPerBit), false) && receiver.seen == []
    {
      this.samplesPerBit := samplesPerBit;
      receiver := new Receiver();
      clockCount, data, dataPrev := -Half(samplesPerBit), false, false;
    }

    // One decision on the data; the call it completes, if the bit taken completes one.
    method ProcessLevel(level: bool) returns (call: Call)
      requires Valid()
      modifies this, receiver, receiver.decoder, receiver.decoder.buf
      ensures Valid()
      ensures Now() == Tick(old(Now()), level, samplesPerBit, call.Call?)
      ensures if Takes(old(Now()), level, samplesPerBit) then
                call == Framed(old(receiver.seen) + [level])
                && receiver.seen == if call.Call? then [] else old(receiver.seen) + [level]
              else call == NoCall && receiver.seen == old(receiver.seen)
    {
      hide Framed, Receiver.Valid;
      TickBounds(Now(), level, samplesPerBit, false);
      call := NoCall;
      dataPrev := data;
      data := level;
      if data && !dataPrev {
        clockCount := clockCount - clockCount * 0.25;
      }
      clockCount := clockCount + 1.0;
      if clockCount >= Half(samplesPerBit) - 1.0 {
        call := receiver.ReceiveBit(data);
        if call.Call? {
          clockCount, data, dataPrev := -Half(samplesPerBit), false, false;
        }
        clockCount := clockCount - samplesPerBit as real;
      }
    }

    // Every call of a run of decisions.
    method ProcessLevels(levels: seq<bool>) returns (calls: seq<Call>)
      requires Valid()
      modifies this, receiver, receiver.decoder, receiver.decoder.buf
      ensures Valid() && calls == Demodulated(old(Now()), old(receiver.seen), levels, samplesPerBit)
    {
      hide Framed, Receiver.Valid, Takes, Tick;
      calls := [];
      for i := 0 to |levels|
        invariant Valid()
        invariant calls + Demodulated(Now(), receiver.seen, levels[i..], samplesPerBit)
                  == Demodulated(old(Now()), old(receiver.seen), levels, samplesPerBit)
      {
        assert levels[i..][1..] == levels[i + 1..];
        var call := ProcessLevel(levels[i]);
        if call.Call? { calls := calls + [call]; }
      }
    }
  }
}
