/**
  * Rice coding of residuals: the decoder with its 64-bit refilled accumulator, proved against a
  * decoder that reads a plain list of bits, and the round trip with the encoder's documented form.
  */
module Rice {
  import opened Machine
  import opened Bitwise
  import opened Outcomes

  // ---- On bit lists ---------------------------------------------------------------------------

  // Zigzag: small magnitudes of either sign become small naturals.
  function Zigzag(r: int): (u: nat)
  {
    if r >= 0 then 2 * r else -2 * r - 1
  }

  function Unzigzag(u: nat): int {
    if u % 2 == 0 then u / 2 else -(u / 2) - 1
  }

  // The length of the run of ones a bit list starts with.
  function Ones(bits: seq<bool>): (n: nat)
    ensures n <= |bits|
    ensures n < |bits| ==> !bits[n]
  {
    if bits == [] || !bits[0] then 0 else 1 + Ones(bits[1..])
  }

  // One codeword: a run of ones, a stop bit, k raw bits. The run, the raw bits and what follows.
  function Codeword(bits: seq<bool>, k: nat): (r: Result<(nat, seq<bool>, seq<bool>)>)
    ensures r.Ok? ==> |r.value.1| == k
  {
    var q := Ones(bits);
    if q == |bits| then Err(RiceTruncatedBitstream)
    else
      var tail := bits[q + 1..];
      if |tail| < k then Err(RiceTruncatedRemainder)
      else Ok((q, tail[..k], tail[k..]))
  }

  type Code = (nat, seq<bool>)

  function DecodeCodes(bits: seq<bool>, k: nat, count: nat): (r: Result<seq<Code>>)
    ensures r.Ok? ==> |r.value| == count
  {
    if count == 0 then Ok([])
    else match Codeword(bits, k)
      case Err(e) => Err(e)
      case Ok((q, low, rest)) =>
        match DecodeCodes(rest, k, count - 1)
        case Err(e) => Err(e)
        case Ok(more) => Ok([(q, low)] + more)
  }

  // The uint32 a code stands for, as the int32 residual.
  function Residual(c: Code): (r: int)
    ensures FitsS32(r)
  {
    WrapS32(Unzigzag(WrapU32(c.0 * Pow2(|c.1|) + Val(c.1))))
  }

  function Residuals(codes: seq<Code>): (rs: seq<int>)
    ensures |rs| == |codes| && forall j :: 0 <= j < |rs| ==> FitsS32(rs[j])
  {
    seq(|codes|, j requires 0 <= j < |codes| => Residual(codes[j]))
  }

  // What the decoder must return for a body: k, then the bits.
  function Decode(src: seq<Byte>, count: nat): (r: Result<seq<int>>)
    ensures r.Ok? ==> |r.value| == count && forall j :: 0 <= j < count ==> FitsS32(r.value[j])
  {
    if |src| < 1 then Err(RiceEmptyBitstream)
    else if src[0] > 30 then Err(RiceInvalidK)
    else match DecodeCodes(Bits(src[1..]), src[0], count)
      case Err(e) => Err(e)
      case Ok(codes) => Ok(Residuals(codes))
  }

  // No parameter, or one above 30, is refused whatever follows.
  lemma Refusals(src: seq<Byte>, count: nat)
    ensures src == [] ==> Decode(src, count) == Err(RiceEmptyBitstream)
    ensures src != [] ==> (src[0] > 30 <==> Decode(src, count) == Err(RiceInvalidK))
  {
    if src != [] && src[0] <= 30 { OtherErrors(Bits(src[1..]), src[0], count); }
  }

  lemma {:induction false} OtherErrors(bits: seq<bool>, k: nat, count: nat)
    ensures DecodeCodes(bits, k, count).Err? ==> DecodeCodes(bits, k, count).error != RiceInvalidK
  {
    if count > 0 && Codeword(bits, k).Ok? { OtherErrors(Codeword(bits, k).value.2, k, count - 1); }
  }

  // ---- The encoder ----------------------------------------------------------------------------

  // n ones.
  function Run(n: nat): (s: seq<bool>)
    ensures |s| == n
  {
    if n == 0 then [] else [true] + Run(n - 1)
  }

  // The two parts a residual's zigzag is sent in: the run's length, and k bits as they are.
  function Split(r: int, k: nat): (c: Code)
    ensures |c.1| == k
  {
    var u := Zigzag(r);
    QuotientRemainder(u, Pow2(k));
    (u / Pow2(k), LowBits(u, k))
  }

  function EncodeBits(rs: seq<int>, k: nat): seq<bool> {
    if rs == [] then []
    else
      var c := Split(rs[0], k);
      Run(c.0) + [false] + c.1 + EncodeBits(rs[1..], k)
  }

  function Encode(rs: seq<int>, k: nat): (body: seq<Byte>)
    requires k <= 30
    ensures |body| >= 1
  {
    [k] + Pack(EncodeBits(rs, k))
  }

  lemma {:induction false} RunIsOnes(n: nat, i: nat)
    requires i < n
    ensures Run(n)[i]
  {
    if i > 0 { RunIsOnes(n - 1, i - 1); }
  }

  // A residual on the wire: ones, a zero, and k bits; each one counts 2^k, the bits count themselves, lowest
  // first, and together they are twice the residual, or one less than twice its magnitude below zero.
  lemma CodewordLayout(r: int, k: nat)
    ensures var c := EncodeBits([r], k);
            |c| > k && var q := |c| - 1 - k;
            && (forall i :: 0 <= i < q ==> c[i]) && !c[q]
            && q * Pow2(k) + Val(c[q + 1..]) == if r >= 0 then 2 * r else -2 * r - 1
  {
    var u, code := Zigzag(r), Split(r, k);
    assert [r][1..] == [] && EncodeBits([r], k) == Run(code.0) + [false] + code.1;
    forall i: nat | i < code.0 ensures EncodeBits([r], k)[i] { RunIsOnes(code.0, i); }
    LowBitsVal(u, k);
    QuotientRemainder(u, Pow2(k));
  }

  lemma {:induction false} OnesOfRun(n: nat, tail: seq<bool>)
    ensures Ones(Run(n) + [false] + tail) == n
  {
    var s := Run(n) + [false] + tail;
    if n > 0 {
      OnesOfRun(n - 1, tail);
      assert s[1..] == Run(n - 1) + [false] + tail;
    }
  }

  // A residual is back from the two parts of its zigzag.
  lemma ResidualBack(r: int, k: nat)
    requires FitsS32(r)
    ensures Residual(Split(r, k)) == r
  {
    var u := Zigzag(r);
    LowBitsVal(u, k);
    QuotientRemainder(u, Pow2(k));
    UnzigzagBack(r);
  }

  lemma UnzigzagBack(r: int)
    requires FitsS32(r)
    ensures WrapU32(Zigzag(r)) == Zigzag(r) && WrapS32(Unzigzag(Zigzag(r))) == r
  {
  }

  lemma QuotientRemainder(u: nat, p: nat)
    requires p > 0
    ensures u / p >= 0 && u / p * p + u % p == u
  {
  }

  // A codeword is read back whatever follows it.
  lemma CodewordBack(q: nat, low: seq<bool>, tail: seq<bool>)
    ensures Codeword(Run(q) + [false] + low + tail, |low|) == Ok((q, low, tail))
  {
    CodewordShape(q, low, tail);
  }

  lemma CodewordShape(q: nat, low: seq<bool>, tail: seq<bool>)
    ensures var bits := Run(q) + [false] + low + tail;
            Ones(bits) == q < |bits| && bits[q + 1..] == low + tail
    ensures (low + tail)[..|low|] == low && (low + tail)[|low|..] == tail
  {
    var bits := Run(q) + [false] + low + tail;
    OnesOfRun(q, low + tail);
    assert bits == Run(q) + [false] + (low + tail);
  }

  function Splits(rs: seq<int>, k: nat): (codes: seq<Code>)
    ensures |codes| == |rs|
  {
    seq(|rs|, j requires 0 <= j < |rs| => Split(rs[j], k))
  }

  lemma {:induction false} CodesBack(rs: seq<int>, k: nat, tail: seq<bool>)
    ensures DecodeCodes(EncodeBits(rs, k) + tail, k, |rs|) == Ok(Splits(rs, k))
  {
    hide Split, Run, LowBits, Zigzag, Codeword, Ones;
    if rs != [] {
      var rest, c := EncodeBits(rs[1..], k), Split(rs[0], k);
      assert EncodeBits(rs, k) + tail == Run(c.0) + [false] + c.1 + (rest + tail);
      CodewordBack(c.0, c.1, rest + tail);
      CodesBack(rs[1..], k, tail);
      assert Splits(rs, k) == [c] + Splits(rs[1..], k);
    }
  }

  // Decoding undoes encoding, for all int32 residuals and every k, and whatever follows the bits.
  lemma RoundTrip(rs: seq<int>, k: nat, tail: seq<Byte>)
    requires k <= 30 && forall j :: 0 <= j < |rs| ==> FitsS32(rs[j])
    ensures Decode(Encode(rs, k) + tail, |rs|) == Ok(rs)
  {
    var bits := EncodeBits(rs, k);
    PackBits(bits);
    BitsConcat(Pack(bits), tail);
    var src := Encode(rs, k) + tail;
    assert src[0] == k && src[1..] == Pack(bits) + tail;
    var all := Bits(src[1..]);
    assert all == bits + all[|bits|..];
    CodesBack(rs, k, all[|bits|..]);
    ResidualsBack(rs, k);
  }

  lemma ResidualsBack(rs: seq<int>, k: nat)
    requires forall j :: 0 <= j < |rs| ==> FitsS32(rs[j])
    ensures Residuals(Splits(rs, k)) == rs
  {
    forall j | 0 <= j < |rs|
      ensures Residual(Splits(rs, k)[j]) == rs[j]
    {
      ResidualBack(rs[j], k);
    }
  }

  // ---- The accumulator ------------------------------------------------------------------------

  function TrailingZeros(x: nat): nat
    requires x > 0
  {
    if x % 2 == 1 then 0 else 1 + TrailingZeros(x / 2)
  }

  method PredTrailingZeros64(x: nat) returns (n: nat)
    requires FitsU64(x)
    ensures n == if x == 0 then 64 else TrailingZeros(x)
  {
    if x == 0 {
      return 64;
    }
    n := 0;
    var y := x;
    while y % 2 == 0
      invariant y > 0 && TrailingZeros(x) == n + TrailingZeros(y)
      decreases y
    {
      y, n := y / 2, n + 1;
    }
  }

  // The trailing zeros of the complement count the ones the accumulator's bits start with.
  lemma {:induction false} ComplementCounts(s: seq<bool>, w: nat)
    requires |s| <= w
    ensures Val(s) < Pow2(w)
    ensures var y := Pow2(w) - 1 - Val(s);
            && (y == 0 ==> Ones(s) == |s| == w)
            && (y > 0 && Ones(s) < |s| ==> TrailingZeros(y) == Ones(s))
            && (y > 0 && Ones(s) == |s| ==> TrailingZeros(y) >= |s|)
  {
    ValBound(s);
    Pow2Grows(|s|, w);
    if s != [] && s[0] {
      ComplementCounts(s[1..], w - 1);
      assert Pow2(w) - 1 - Val(s) == 2 * (Pow2(w - 1) - 1 - Val(s[1..]));
    }
  }

  lemma {:induction false} OnesPrefix(s: seq<bool>, n: nat)
    requires n <= |s|
    ensures Ones(s[..n]) < n ==> Ones(s) == Ones(s[..n])
    ensures Ones(s[..n]) == n ==> Ones(s) == n + Ones(s[n..])
  {
    if n > 0 && s[0] {
      OnesPrefix(s[1..], n - 1);
      assert s[..n][1..] == s[1..][..n - 1];
      assert s[n..] == s[1..][n - 1..];
    } else if n == 0 {
      assert s[0..] == s;
    }
  }

  // acc holds the first nbits of `rest`, and the bytes from i on hold the others.
  ghost predicate Holds(src: seq<Byte>, i: nat, acc: nat, nbits: nat, rest: seq<bool>) {
    && i <= |src|
    && nbits <= 64 && nbits <= |rest|
    && rest[nbits..] == Bits(src[i..])
    && acc == Val(rest[..nbits])
  }

  lemma NextByte(src: seq<Byte>, i: nat, acc: nat, nbits: nat, rest: seq<bool>)
    requires Holds(src, i, acc, nbits, rest) && nbits <= 56 && i < |src|
    ensures Holds(src, i + 1, acc + src[i] * Pow2(nbits), nbits + 8, rest)
    ensures acc < Pow2(nbits)
  {
    hide Val, Bits, LowBits;
    var low := LowBits(src[i], 8);
    Regroup(src, i, nbits, rest);
    ValConcat(rest[..nbits], low);
    LowBitsVal(src[i], 8);
    Pow2Constants();
    ValBound(rest[..nbits]);
  }

  lemma Regroup(src: seq<Byte>, i: nat, nbits: nat, rest: seq<bool>)
    requires i < |src| && nbits <= |rest| && rest[nbits..] == Bits(src[i..])
    ensures nbits + 8 <= |rest|
    ensures rest[..nbits + 8] == rest[..nbits] + LowBits(src[i], 8) && rest[nbits + 8..] == Bits(src[i + 1..])
  {
    assert src[i..][1..] == src[i + 1..];
    var tail := rest[nbits..];
    assert tail == LowBits(src[i], 8) + Bits(src[i + 1..]);
    assert rest[..nbits + 8] == rest[..nbits] + tail[..8];
    assert rest[nbits + 8..] == tail[8..];
  }

  // Places the next byte above the nbits bits the accumulator holds.
  method TakeByte(src: seq<Byte>, i: nat, acc0: nat, nbits: nat, ghost rest: seq<bool>) returns (acc: nat)
    requires Holds(src, i, acc0, nbits, rest) && nbits <= 56 && i < |src|
    ensures Holds(src, i + 1, acc, nbits + 8, rest)
  {
    NextByte(src, i, acc0, nbits, rest);
    OrDisjoint(acc0, src[i], nbits);
    NoWrap(src[i] * Pow2(nbits), rest[..nbits + 8], acc0);
    acc := BitOr(acc0, WrapU64(src[i] * Pow2(nbits)));
  }

  lemma NoWrap(x: nat, s: seq<bool>, acc: nat)
    requires |s| <= 64 && acc + x == Val(s)
    ensures WrapU64(x) == x
  {
    ValBound(s);
    Pow2Grows(|s|, 64);
    Pow2Constants();
  }

  method Refill(src: seq<Byte>, i0: nat, acc0: nat, nbits0: nat, ghost rest: seq<bool>)
    returns (i: nat, acc: nat, nbits: nat)
    requires Holds(src, i0, acc0, nbits0, rest)
    ensures Holds(src, i, acc, nbits, rest)
    ensures i0 <= i && (nbits > 56 || i == |src|) && (nbits0 <= 56 && i0 < |src| ==> i > i0)
  {
    i, acc, nbits := i0, acc0, nbits0;
    while nbits <= 56 && i < |src|
      invariant i0 <= i && Holds(src, i, acc, nbits, rest)
      invariant nbits0 <= 56 && i0 < |src| ==> i > i0 || nbits == nbits0
      decreases |src| - i
    {
      acc := TakeByte(src, i, acc, nbits, rest);
      i, nbits := i + 1, nbits + 8;
    }
  }

  lemma DropBits(src: seq<Byte>, i: nat, acc: nat, nbits: nat, rest: seq<bool>, sh: nat)
    requires Holds(src, i, acc, nbits, rest) && sh <= nbits
    ensures Holds(src, i, acc / Pow2(sh), nbits - sh, rest[sh..])
    ensures acc % Pow2(sh) == Val(rest[..sh])
    ensures sh == 64 ==> acc / Pow2(sh) == 0
  {
    var low := rest[..nbits];
    ValSplit(low, sh);
    assert low[..sh] == rest[..sh] && low[sh..] == rest[sh..][..nbits - sh];
    assert rest[sh..][nbits - sh..] == rest[nbits..];
  }

  // q += n on an unsigned int that counts `seen` so far.
  method AddU32(q: nat, n: nat, ghost seen: nat) returns (r: nat)
    requires q == WrapU32(seen)
    ensures r == WrapU32(seen + n)
  {
    WrapU32Adds(seen, n);
    r := WrapU32(q + n);
  }

  // `seen` ones of the run are behind, and counted in q.
  ghost predicate Counting(src: seq<Byte>, i: nat, acc: nat, nbits: nat, q: nat, rest: seq<bool>, seen: nat) {
    && seen <= |rest| && Holds(src, i, acc, nbits, rest[seen..])
    && Ones(rest) == seen + Ones(rest[seen..])
    && q == WrapU32(seen)
  }

  // A shift by 64 or more, which a 64-bit word does not do, leaves nothing.
  function ShiftOut(acc: nat, sh: nat): nat {
    QuotientRemainder(acc, Pow2(sh));
    if sh >= 64 then 0 else acc / Pow2(sh)
  }

  // The run is over: what it counted, and the accumulator past its stop bit.
  ghost predicate Counted(src: seq<Byte>, i: nat, acc: nat, nbits: nat, q: nat, rest: seq<bool>) {
    && Ones(rest) < |rest|
    && q == WrapU32(Ones(rest))
    && Holds(src, i, acc, nbits, rest[Ones(rest) + 1..])
  }

  datatype Progress = Found | Truncated | More

  // The unary part: a run of ones and its stop bit, refilling as often as it takes.
  method ReadUnary(src: seq<Byte>, i0: nat, acc0: nat, nbits0: nat, ghost rest: seq<bool>)
    returns (ok: bool, q: nat, i: nat, acc: nat, nbits: nat)
    requires Holds(src, i0, acc0, nbits0, rest)
    ensures ok <==> Ones(rest) < |rest|
    ensures ok ==> Counted(src, i, acc, nbits, q, rest)
  {
    i, acc, nbits, q := i0, acc0, nbits0, 0;
    ghost var seen: nat := 0;
    assert rest[0..] == rest;
    var progress := More;
    while progress == More
      invariant match progress
                case More => Counting(src, i, acc, nbits, q, rest, seen)
                case Found => Counted(src, i, acc, nbits, q, rest)
                case Truncated => Ones(rest) == |rest|
      decreases progress == More, |src| - i
    {
      progress, q, i, acc, nbits, seen := CountRun(src, i, acc, nbits, q, rest, seen);
    }
    ok := progress == Found;
  }

  // One look at the accumulator.
  method CountRun(src: seq<Byte>, i0: nat, acc0: nat, nbits0: nat, q0: nat, ghost rest: seq<bool>, ghost seen0: nat)
    returns (progress: Progress, q: nat, i: nat, acc: nat, nbits: nat, ghost seen: nat)
    requires Counting(src, i0, acc0, nbits0, q0, rest, seen0)
    ensures match progress
            case More => Counting(src, i, acc, nbits, q, rest, seen) && i0 < i <= |src|
            case Found => Counted(src, i, acc, nbits, q, rest)
            case Truncated => Ones(rest) == |rest|
  {
    hide ShiftOut, Ones, TrailingZeros, Val, Bits, Pow2, WrapU32;
    i, acc, nbits, q, seen := i0, acc0, nbits0, q0, seen0;
    CountOnes(src, i, acc, nbits, rest[seen..]);
    var c := PredTrailingZeros64(TWO_64 - 1 - acc);
    if c < nbits {
      var sh := c + 1;
      StopBit(src, i, acc, nbits, rest, seen, c);
      q := AddU32(q, c, seen);
      acc := ShiftOut(acc, sh);
      nbits := nbits - sh;
      progress := Found;
    } else {
      AllOnes(src, i, acc, nbits, rest, seen);
      if i >= |src| {
        progress := Truncated;
      } else {
        q := AddU32(q, nbits, seen);
        seen := seen + nbits;
        acc, nbits := 0, 0;
        i, acc, nbits := Refill(src, i, acc, nbits, rest[seen..]);
        progress := More;
      }
    }
  }

  // The trailing zeros of ~acc, against the nbits that are really there.
  lemma CountOnes(src: seq<Byte>, i: nat, acc: nat, nbits: nat, cur: seq<bool>)
    requires Holds(src, i, acc, nbits, cur)
    ensures acc < TWO_64
    ensures var y := TWO_64 - 1 - acc;
            var c := if y == 0 then 64 else TrailingZeros(y);
            if c < nbits then c == Ones(cur) < |cur| else Ones(cur) == nbits + Ones(cur[nbits..])
  {
    hide Val, Ones, TrailingZeros, Bits, Pow2;
    Pow2Constants();
    ComplementCounts(cur[..nbits], 64);
    OnesPrefix(cur, nbits);
  }

  // The run ends inside the accumulator; dropping it and its stop bit may drop all 64 bits.
  lemma StopBit(src: seq<Byte>, i: nat, acc: nat, nbits: nat, rest: seq<bool>, seen: nat, c: nat)
    requires seen <= |rest| && Holds(src, i, acc, nbits, rest[seen..])
    requires Ones(rest) == seen + Ones(rest[seen..]) && c == Ones(rest[seen..]) < nbits
    ensures Ones(rest) < |rest| && seen + c == Ones(rest)
    ensures Holds(src, i, ShiftOut(acc, c + 1), nbits - (c + 1), rest[Ones(rest) + 1..])
  {
    hide Ones, Val, Bits, Pow2;
    DropBits(src, i, acc, nbits, rest[seen..], c + 1);
    assert rest[seen..][c + 1..] == rest[Ones(rest) + 1..];
  }

  // The run fills the accumulator: it goes on in what follows, or the bits have run out.
  lemma AllOnes(src: seq<Byte>, i: nat, acc: nat, nbits: nat, rest: seq<bool>, seen: nat)
    requires seen <= |rest| && Holds(src, i, acc, nbits, rest[seen..])
    requires Ones(rest) == seen + Ones(rest[seen..]) && Ones(rest[seen..]) == nbits + Ones(rest[seen..][nbits..])
    ensures i == |src| ==> Ones(rest) == |rest|
    ensures seen + nbits <= |rest| && Ones(rest) == (seen + nbits) + Ones(rest[seen + nbits..])
    ensures Holds(src, i, 0, 0, rest[seen + nbits..])
  {
    assert rest[seen..][nbits..] == rest[seen + nbits..];
    assert rest[seen + nbits..][0..] == rest[seen + nbits..];
  }

  lemma JoinCodeword(q: nat, k: nat, low: nat)
    requires k <= 30 && low < Pow2(k)
    ensures BitOr(WrapU32(WrapU32(q) * Pow2(k)), low) == WrapU32(q * Pow2(k) + low)
  {
    var p, m := Pow2(k), Pow2(32 - k);
    Pow2Adds(k, 32 - k);
    Pow2Constants();
    ScaledWrap(q, p, m);
    ScaledWrap(WrapU32(q), p, m);
    var h := q % m;
    FactorOfWrap(q, p, m);
    WrapWithin(q * p, h * p, low, p, m, h);
    OrDisjoint(low, h, k);
  }

  // Modulo 2^32 = m*p, a multiple of p only depends on the factor modulo m.
  lemma ScaledWrap(q: nat, p: nat, m: nat)
    requires p > 0 && m > 0 && p * m == TWO_32
    ensures WrapU32(q * p) == (q % m) * p
  {
    var h, g := q % m, q / m;
    assert q == g * m + h;
    assert q * p == g * (p * m) + h * p by {
      assert (g * m + h) * p == g * m * p + h * p;
      assert g * m * p == g * (p * m);
    }
    ScaledBelow(h, p, m);
    DivModUnique(q * p, g, TWO_32, h * p);
  }

  lemma FactorOfWrap(q: nat, p: nat, m: nat)
    requires p > 0 && m > 0 && p * m == TWO_32
    ensures WrapU32(q) % m == q % m
  {
    var t, w := q / TWO_32, WrapU32(q);
    assert q == w + t * (p * m);
    assert t * (p * m) == (t * p) * m;
    ModShift(w, t * p, m);
  }

  lemma ScaledBelow(h: nat, p: nat, m: nat)
    requires h < m && p > 0
    ensures h * p + p <= p * m
  {
    assert h * p + p == (h + 1) * p <= m * p;
  }

  lemma WrapWithin(x: nat, y: nat, low: nat, p: nat, m: nat, h: nat)
    requires p > 0 && low < p && h < m && y == h * p && p * m == TWO_32 && WrapU32(x) == y
    ensures WrapU32(x + low) == y + low
  {
    ScaledBelow(h, p, m);
  }

  lemma UnzigzagXor(u: nat)
    requires FitsU32(u)
    ensures WrapS32(BitXor(u / 2, WrapU32(0 - u % 2))) == WrapS32(Unzigzag(u))
  {
    hide BitXor;
    var h := u / 2;
    if u % 2 == 0 {
      XorZero(h);
      assert WrapU32(0 - u % 2) == 0 && Unzigzag(u) == h;
    } else {
      XorAllOnes(h);
      assert u % 2 == 1 && Unzigzag(u) == -h - 1;
    }
  }

  lemma XorAllOnes(h: int)
    requires 0 <= h < TWO_31
    ensures BitXor(h, WrapU32(-1)) == TWO_32 - 1 - h
    ensures WrapS32(TWO_32 - 1 - h) == WrapS32(-h - 1)
  {
    hide BitXor, Pow2;
    Pow2Constants();
    XorOnes(h, 32);
    assert WrapU32(-1) == TWO_32 - 1;
  }

  // The shifts, masks and exclusive-or that turn a codeword into its residual.
  method Assemble(q: nat, k: nat, acc: nat, ghost run: nat, ghost low: seq<bool>) returns (x: int)
    requires k <= 30 && q == WrapU32(run) && |low| == k && acc % Pow2(k) == Val(low)
    ensures x == Residual((run, low))
  {
    var u := JoinParts(q, k, acc, run, low);
    x := UndoZigzag(u);
  }

  // (u >> 1) ^ (0 - (u & 1)), as an int32.
  method UndoZigzag(u: nat) returns (x: int)
    requires FitsU32(u)
    ensures x == WrapS32(Unzigzag(u))
  {
    UnzigzagXor(u);
    x := WrapS32(BitXor(u / 2, WrapU32(0 - u % 2)));
  }

  method JoinParts(q: nat, k: nat, acc: nat, ghost run: nat, ghost low: seq<bool>) returns (u: nat)
    requires k <= 30 && q == WrapU32(run) && |low| == k && acc % Pow2(k) == Val(low)
    ensures FitsU32(u) && u == WrapU32(run * Pow2(|low|) + Val(low))
  {
    AndMask(acc, k);
    ValBound(low);
    JoinCodeword(run, k, Val(low));
    u := BitOr(WrapU32(q * Pow2(k)), BitAnd(acc, Pow2(k) - 1));
  }

  function Prepend(out: seq<Code>, r: Result<seq<Code>>): Result<seq<Code>> {
    match r case Err(e) => Err(e) case Ok(more) => Ok(out + more)
  }

  // One residual out of the accumulator.
  method ReadResidual(src: seq<Byte>, i0: nat, acc0: nat, nbits0: nat, k: nat, ghost rest: seq<bool>)
    returns (r: Result<int>, i: nat, acc: nat, nbits: nat)
    requires Holds(src, i0, acc0, nbits0, rest) && k <= 30
    ensures match Codeword(rest, k)
            case Err(e) => r == Err(e)
            case Ok((q, low, after)) => r == Ok(Residual((q, low))) && Holds(src, i, acc, nbits, after)
  {
    i, acc, nbits := i0, acc0, nbits0;
    if nbits < 48 {
      i, acc, nbits := Refill(src, i, acc, nbits, rest);
    }
    var ok, q;
    ok, q, i, acc, nbits := ReadUnary(src, i, acc, nbits, rest);
    if !ok {
      return Err(RiceTruncatedBitstream), i, acc, nbits;
    }
    ghost var tail := rest[Ones(rest) + 1..];
    if nbits < k {
      i, acc, nbits := Refill(src, i, acc, nbits, tail);
    }
    if nbits < k {
      assert tail[nbits..] == [];
      return Err(RiceTruncatedRemainder), i, acc, nbits;
    }
    DropBits(src, i, acc, nbits, tail, k);
    var x := Assemble(q, k, acc, Ones(rest), tail[..k]);
    r, acc, nbits := Ok(x), acc / Pow2(k), nbits - k;
  }

  /** riceDecodeResiduals. */
  method RiceDecodeResiduals(src: seq<Byte>, count: nat) returns (r: Result<seq<int>>)
    ensures r == Decode(src, count)
  {
    hide Holds, Codeword, Residual, Ones, Pow2;
    if |src| < 1 {
      return Err(RiceEmptyBitstream);
    }
    var k: nat := src[0];
    if k > 30 {
      return Err(RiceInvalidK);
    }
    var body := src[1..];
    ghost var all := Bits(body);
    ghost var rest := all;
    ghost var codes: seq<Code> := [];
    var out: seq<int> := [];
    StartsEmpty(body);
    var i, acc, nbits := Refill(body, 0, 0, 0, rest);
    PrependNone(DecodeCodes(all, k, count));
    for j := 0 to count
      invariant |codes| == j && out == Residuals(codes)
      invariant Holds(body, i, acc, nbits, rest)
      invariant DecodeCodes(all, k, count) == Prepend(codes, DecodeCodes(rest, k, count - j))
    {
      var x;
      x, i, acc, nbits := ReadResidual(body, i, acc, nbits, k, rest);
      if x.Err? {
        return Err(x.error);
      }
      codes, rest := Advance(rest, k, count - j, codes);
      out := out + [x.value];
    }
    assert codes + [] == codes;
    return Ok(out);
  }

  lemma StartsEmpty(body: seq<Byte>)
    ensures Holds(body, 0, 0, 0, Bits(body))
  {
    var all := Bits(body);
    assert body[0..] == body && all[0..] == all && all[..0] == [];
  }

  lemma PrependNone(r: Result<seq<Code>>)
    ensures Prepend([], r) == r
  {
    if r.Ok? {
      assert [] + r.value == r.value;
    }
  }

  // What taking one code off the bits does to the codes so far and those to come.
  lemma Advance(rest: seq<bool>, k: nat, left: nat, codes: seq<Code>) returns (codes': seq<Code>, after: seq<bool>)
    requires left > 0 && Codeword(rest, k).Ok?
    ensures |codes'| == |codes| + 1 && after == Codeword(rest, k).value.2
    ensures Residuals(codes') == Residuals(codes) + [Residual((Codeword(rest, k).value.0, Codeword(rest, k).value.1))]
    ensures Prepend(codes, DecodeCodes(rest, k, left)) == Prepend(codes', DecodeCodes(after, k, left - 1))
  {
    var c := (Codeword(rest, k).value.0, Codeword(rest, k).value.1);
    codes', after := codes + [c], Codeword(rest, k).value.2;
    var r := DecodeCodes(after, k, left - 1);
    if r.Ok? {
      assert codes + ([c] + r.value) == codes' + r.value;
    }
  }
}
