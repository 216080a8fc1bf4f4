/**
  * The bit-serial receiver: hunting for the phasing sequence, framing ten-bit symbols, starting over.
  */
module DscReceivers {
  import opened DscDecoders
  import opened DscSymbols

  const WINDOW := 30

  // The phasing sequence as it is sent, first and second copies alternating.
  const PHASING_SEQUENCE: seq<bv8> := [125, 111, 125, 110, 125, 109, 125, 108, 125, 107, 125, 106]

  function PhasingSymbol(t: nat): (s: bv8)
    requires t < |PHASING_SEQUENCE|
    ensures Valid(s)
  {
    PHASING_SEQUENCE[t]
  }

  datatype PhasingPattern = PhasingPattern(pattern: bv32, offset: int)

  const PATTERNS: seq<PhasingPattern> := [
    PhasingPattern(0x2F9F66F9, 9), PhasingPattern(0x3D9BE5DA, 8), PhasingPattern(0x2F976AF9, 7),
    PhasingPattern(0x1DABE6DA, 6), PhasingPattern(0x2F9B6AF9, 5), PhasingPattern(0x2DABE4DB, 4),
    PhasingPattern(0x2F936EF9, 3), PhasingPattern(0x0DBBE75A, 2), PhasingPattern(0x2F9D6AF9, 1),
    PhasingPattern(0x35ABE55B, 0)]

  // ---- The hunt ---------------------------------------------------------------------------------

  // Thirty bits of the phasing sequence, from symbol j on.
  function Phasing(j: nat): (w: seq<bool>)
    requires j < |PATTERNS|
    ensures |w| == WINDOW
  {
    Code(PhasingSymbol(j)) + Code(PhasingSymbol(j + 1)) + Code(PhasingSymbol(j + 2))
  }

  // The window shows the phasing sequence from symbol j on.
  predicate Shows(window: seq<bool>, j: nat) {
    j < |PATTERNS| && window == Phasing(j)
  }

  ghost predicate IsPhasing(window: seq<bool>) {
    exists j: nat :: Shows(window, j)
  }

  ghost function Part(window: seq<bool>): (j: nat)
    requires IsPhasing(window)
    ensures Shows(window, j)
  {
    var j: nat :| Shows(window, j);
    j
  }

  // The window that ends at p.
  function Before(bits: seq<bool>, p: nat): seq<bool>
    requires WINDOW <= p <= |bits|
  {
    bits[p - WINDOW..p]
  }

  ghost predicate Locks(bits: seq<bool>, p: nat) {
    WINDOW <= p <= |bits| && IsPhasing(Before(bits, p))
  }

  // The first place from p on where the bits before show the phasing sequence; past the end for none.
  ghost function Hunt(bits: seq<bool>, p: nat): nat
    decreases |bits| + 1 - p
  {
    if p > |bits| then |bits| + 1 else if Locks(bits, p) then p else Hunt(bits, p + 1)
  }

  lemma {:induction false} HuntFinds(bits: seq<bool>, p: nat)
    ensures var q := Hunt(bits, p);
            q <= |bits| + 1 && (q <= |bits| ==> p <= q && Locks(bits, q)) && forall i :: p <= i < q ==> !Locks(bits, i)
    decreases |bits| + 1 - p
  {
    hide Locks;
    if p <= |bits| { HuntFinds(bits, p + 1); }
  }

  ghost function LockPoint(bits: seq<bool>): (q: nat)
    ensures q <= |bits| + 1 && (q <= |bits| ==> Locks(bits, q)) && forall i :: 0 <= i < q ==> !Locks(bits, i)
  {
    HuntFinds(bits, 0);
    Hunt(bits, 0)
  }

  ghost predicate Locked(bits: seq<bool>) { LockPoint(bits) <= |bits| }

  // Phasing symbols still to come when the receiver locks.
  ghost function Offset(bits: seq<bool>): (o: nat)
    requires Locked(bits)
    ensures o <= 9
  {
    9 - Part(Before(bits, LockPoint(bits)))
  }

  // ---- The framing ------------------------------------------------------------------------------

  function Symbols(bits: seq<bool>): (r: seq<Received>)
    ensures |r| == |bits| / 10
  {
    seq(|bits| / 10, i requires 0 <= i < |bits| / 10 => Symbol(bits[10 * i..10 * i + 10]))
  }

  // The symbols after the lock.
  ghost function Heard(bits: seq<bool>): seq<Received>
    requires Locked(bits)
  {
    Symbols(bits[LockPoint(bits)..])
  }

  // A call handed to the application.
  datatype Call = NoCall | Call(symbols: seq<bv8>, errors: nat)

  // The call these symbols complete, if they do.
  function CallOf(heard: seq<Received>, o: nat): Call
    requires o <= 9
  {
    if Complete(heard, o) then Call(Characters(heard, o), Errors(heard, o)) else NoCall
  }

  // The call that the last of these bits completes, if it does; the bits are those since the last start.
  ghost function Framed(bits: seq<bool>): Call {
    if Locked(bits) && (|bits| - LockPoint(bits)) % 10 == 0 then CallOf(Heard(bits), Offset(bits)) else NoCall
  }

  // All the calls of a stream of bits, when cur came since the last start.
  ghost function Calls(stream: seq<bool>, cur: seq<bool>): seq<Call> {
    if stream == [] then []
    else
      var next := cur + [stream[0]];
      if Framed(next).Call? then [Framed(next)] + Calls(stream[1..], []) else Calls(stream[1..], next)
  }

  // ---- One bit more -----------------------------------------------------------------------------

  lemma LocksGrow(bits: seq<bool>, b: bool, p: nat)
    requires p <= |bits|
    ensures Locks(bits + [b], p) == Locks(bits, p)
  {
    if p >= WINDOW { assert Before(bits + [b], p) == Before(bits, p); }
  }

  lemma LockGrow(bits: seq<bool>, b: bool)
    ensures Locked(bits) ==> LockPoint(bits + [b]) == LockPoint(bits) && Offset(bits + [b]) == Offset(bits)
    ensures !Locked(bits) ==> LockPoint(bits + [b]) == if Locks(bits + [b], |bits| + 1) then |bits| + 1 else |bits| + 2
  {
    var p, q := LockPoint(bits), LockPoint(bits + [b]);
    if q <= |bits| { LocksGrow(bits, b, q); }
    if p <= |bits| {
      LocksGrow(bits, b, p);
      assert p == q;
      assert Before(bits + [b], p) == Before(bits, p);
    }
  }

  lemma SymbolsGrow(bits: seq<bool>, b: bool)
    ensures Symbols(bits + [b]) == if |bits| % 10 == 9 then Symbols(bits) + [Symbol((bits + [b])[|bits| - 9..])]
            else Symbols(bits)
  {
    hide Symbol;
    var r, s, q := Symbols(bits), Symbols(bits + [b]), |bits| / 10;
    assert |bits| == 10 * q + |bits| % 10;
    forall i | 0 <= i < |r| ensures s[i] == r[i] {
      assert (bits + [b])[10 * i..10 * i + 10] == bits[10 * i..10 * i + 10];
    }
    if |bits| % 10 == 9 {
      assert (bits + [b])[10 * q..10 * q + 10] == (bits + [b])[|bits| - 9..];
      assert s == r + [s[q]];
    } else {
      assert |s| == q && s == r;
    }
  }

  // ---- The pattern table ------------------------------------------------------------------------

  function CodeWord(s: bv8): bv32
    requires Valid(s)
  {
    Word(Code(s))
  }

  lemma CodeWords()
    ensures CodeWord(125) == 0x2F9 && CodeWord(111) == 0x3D9 && CodeWord(110) == 0x1DA && CodeWord(109) == 0x2DA
    ensures CodeWord(108) == 0x0DB && CodeWord(107) == 0x35A && CodeWord(106) == 0x15B
  {
  }

  lemma TableJoined(j: nat)
    requires j < |PATTERNS|
    ensures PATTERNS[j].pattern
            == Join(CodeWord(PhasingSymbol(j)), CodeWord(PhasingSymbol(j + 1)), CodeWord(PhasingSymbol(j + 2)))
    ensures PATTERNS[j].offset == 9 - j
  {
    hide CodeWord;
    CodeWords();
  }

  // Every entry of the table is what the register holds after its part of the phasing sequence.
  lemma TableIsPhasing(j: nat)
    requires j < |PATTERNS|
    ensures PATTERNS[j].pattern == Reg(Phasing(j)) && PATTERNS[j].offset == 9 - j
  {
    TableJoined(j);
    var a, b, c := PhasingSymbol(j), PhasingSymbol(j + 1), PhasingSymbol(j + 2);
    RegThirty(Code(a), Code(b), Code(c));
    RegIsWord(Code(a)); RegIsWord(Code(b)); RegIsWord(Code(c));
  }

  function Ten(a: bv32, b: bv32): bv32 { (a << 10) | b }

  function Join(a: bv32, b: bv32, c: bv32): bv32 { Ten(Ten(a, b), c) }

  lemma JoinInjective(a: bv32, b: bv32, c: bv32, d: bv32, e: bv32, f: bv32)
    requires a <= 0x3FF && b <= 0x3FF && c <= 0x3FF && d <= 0x3FF && e <= 0x3FF && f <= 0x3FF
    requires Join(a, b, c) == Join(d, e, f)
    ensures a == d && b == e && c == f
  {
  }

  lemma RegOfTen(x: seq<bool>)
    requires |x| == 10
    ensures Reg(x) <= 0x3FF
  {
    RegIsWord(x);
  }

  lemma RegOfTenInjective(x: seq<bool>, y: seq<bool>)
    requires |x| == |y| == 10 && Reg(x) == Reg(y)
    ensures x == y
  {
    RegIsWord(x);
    RegIsWord(y);
  }

  lemma RegAfterTen(x: seq<bool>, y: seq<bool>)
    requires |y| == 10
    ensures Reg(x + y) == Ten(Reg(x), Reg(y))
  {
    RegTen(x, y);
    RegIsWord(y);
  }

  lemma RegThirty(x: seq<bool>, y: seq<bool>, z: seq<bool>)
    requires |x| == |y| == |z| == 10
    ensures Reg(x + y + z) == Join(Reg(x), Reg(y), Reg(z))
  {
    var w := x + y;
    RegAfterTen(x, y);
    RegAfterTen(w, z);
  }

  // The register tells windows apart.
  lemma WindowsDiffer(x: seq<bool>, y: seq<bool>)
    requires |x| == |y| == WINDOW && Reg(x) == Reg(y)
    ensures x == y
  {
    assert x == x[..10] + x[10..20] + x[20..] && y == y[..10] + y[10..20] + y[20..];
    RegThirty(x[..10], x[10..20], x[20..]);
    RegThirty(y[..10], y[10..20], y[20..]);
    RegOfTen(x[..10]); RegOfTen(x[10..20]); RegOfTen(x[20..]);
    RegOfTen(y[..10]); RegOfTen(y[10..20]); RegOfTen(y[20..]);
    JoinInjective(Reg(x[..10]), Reg(x[10..20]), Reg(x[20..]), Reg(y[..10]), Reg(y[10..20]), Reg(y[20..]));
    RegOfTenInjective(x[..10], y[..10]);
    RegOfTenInjective(x[10..20], y[10..20]);
    RegOfTenInjective(x[20..], y[20..]);
  }

  // The register holds an entry of the table exactly when the window shows that part of the sequence.
  lemma TableShows(window: seq<bool>, j: nat)
    requires |window| == WINDOW && j < |PATTERNS|
    ensures Reg(window) == PATTERNS[j].pattern <==> Shows(window, j)
  {
    TableIsPhasing(j);
    if Reg(window) == PATTERNS[j].pattern { WindowsDiffer(window, Phasing(j)); }
  }

  lemma TableDistinct(i: nat, j: nat)
    requires i < |PATTERNS| && j < |PATTERNS| && PATTERNS[i].pattern == PATTERNS[j].pattern
    ensures i == j
  {
  }

  lemma TableOffset(window: seq<bool>, j: nat)
    requires Shows(window, j)
    ensures IsPhasing(window) && PATTERNS[j].offset == 9 - Part(window)
  {
    TableIsPhasing(j);
    TableIsPhasing(Part(window));
    TableDistinct(j, Part(window));
  }

  lemma NoPhasing(window: seq<bool>)
    requires forall j: nat :: j < |PATTERNS| ==> !Shows(window, j)
    ensures !IsPhasing(window)
  {
  }

  // A bit that comes before the lock, or locks, completes no call.
  lemma FramedWhileHunting(seen: seq<bool>, bit: bool)
    requires !Locked(seen)
    ensures Framed(seen + [bit]) == NoCall
    ensures var cur := seen + [bit];
            && Locked(cur) == (|cur| >= WINDOW && IsPhasing(Before(cur, |cur|)))
            && (Locked(cur) ==>
                  LockPoint(cur) == |cur| && Heard(cur) == [] && Offset(cur) == 9 - Part(Before(cur, |cur|)))
  {
    LockGrow(seen, bit);
  }

  // The symbols after the lock, one bit later, when n bits came since the last whole symbol.
  lemma HeardGrows(seen: seq<bool>, bit: bool, p: nat, n: nat)
    requires p <= |seen| && |seen| == p + 10 * |Symbols(seen[p..])| + n && n < 10
    ensures var cur := seen + [bit];
            Symbols(cur[p..]) == if n == 9 then Symbols(seen[p..]) + [Symbol(cur[|cur| - 10..])] else Symbols(seen[p..])
  {
    var cur, r := seen + [bit], seen[p..];
    assert cur[p..] == r + [bit];
    SymbolsGrow(r, bit);
    if n == 9 { assert (r + [bit])[|r| - 9..] == cur[|cur| - 10..]; }
  }

  // A bit after the lock may complete a symbol, and that symbol a call.
  lemma FramedWhileFollowing(seen: seq<bool>, bit: bool, n: nat)
    requires Locked(seen) && |seen| == LockPoint(seen) + 10 * |Heard(seen)| + n && n < 10
    ensures var cur := seen + [bit];
            && Locked(cur) && LockPoint(cur) == LockPoint(seen) && Offset(cur) == Offset(seen)
            && Heard(cur) == (if n == 9 then Heard(seen) + [Symbol(cur[|cur| - 10..])] else Heard(seen))
            && Framed(cur) == (if n == 9 then CallOf(Heard(cur), Offset(cur)) else NoCall)
  {
    hide Hunt, Locks, Symbols, Symbol;
    LockGrow(seen, bit);
    HeardGrows(seen, bit, LockPoint(seen), n);
  }

  lemma NothingSeen(seen: seq<bool>)
    requires seen == []
    ensures Reg(seen) == 0 && !Locked(seen)
  {
  }

  lemma LowThirty(seen: seq<bool>)
    requires |seen| >= WINDOW
    ensures Reg(seen) & 0x3FFF_FFFF == Reg(Before(seen, |seen|)) && |Before(seen, |seen|)| == WINDOW
  {
    hide Reg;
    Masks();
    RegLow(seen, 0x3FFF_FFFF, WINDOW);
    assert Before(seen, |seen|) == seen[|seen| - WINDOW..];
  }

  // ---- The receiver -----------------------------------------------------------------------------

  class Receiver {
    var bits: bv32
    var bitCount: int
    var gotSOP: bool
    const decoder: DSCDecoder

    // The bits since the last start.
    ghost var seen: seq<bool>

    ghost predicate Valid()
      reads this, decoder, decoder.buf
    {
      && decoder.Valid() && bits == Reg(seen) && gotSOP == Locked(seen)
      && if !gotSOP then bitCount == if |seen| < WINDOW then |seen| else WINDOW - 1
         else Following()
    }

    // The decoder has heard every symbol since the lock, and wants more.
    ghost predicate Following()
      requires Locked(seen)
      reads this, decoder, decoder.buf
    {
      && decoder.offset == Offset(seen) && decoder.heard == Heard(seen) && !decoder.Finished()
      && |seen| == LockPoint(seen) + 10 * |decoder.heard| + bitCount && 0 <= bitCount < 10
    }

    constructor ()
      ensures Valid() && fresh(decoder) && fresh(decoder.buf) && seen == []
    {
      hide DSCDecoder.Valid, Reg, Hunt, Locks, Locked, LockPoint, Offset, Heard;
      decoder := new DSCDecoder();
      bits, bitCount, gotSOP := 0, 0, false;
      seen := [];
      new;
      NothingSeen(seen);
    }

    method Init()
      requires decoder.Valid()
      modifies this
      ensures Valid() && seen == []
    {
      bits, bitCount, gotSOP := 0, 0, false;
      seen := [];
    }

    // Look the register up in the phasing table, and lock if it is there.
    method Hunting()
      requires decoder.Valid() && |seen| >= WINDOW && bits == Reg(seen) && !gotSOP
      modifies this`bitCount, this`gotSOP, decoder
      ensures decoder.Valid()
      ensures gotSOP == IsPhasing(Before(seen, |seen|))
      ensures gotSOP ==> bitCount == 0 && decoder.heard == [] && !decoder.Finished()
      ensures gotSOP ==> decoder.offset == 9 - Part(Before(seen, |seen|))
      ensures !gotSOP ==> bitCount == old(bitCount)
    {
      hide DSCDecoder.Valid, IsPhasing, Shows, Part, Before, Reg;
      var pat := bits & 0x3FFF_FFFF;
      ghost var window := Before(seen, |seen|);
      LowThirty(seen);
      for i := 0 to |PATTERNS|
        invariant forall j: nat :: j < i ==> !Shows(window, j)
        invariant bitCount == old(bitCount) && !gotSOP && decoder.Valid()
      {
        TableShows(window, i);
        if pat == PATTERNS[i].pattern {
          TableOffset(window, i);
          decoder.Init(PATTERNS[i].offset);
          gotSOP := true;
          bitCount := 0;
          return;
        }
      }
      NoPhasing(window);
    }

    // Decode the last ten bits; a whole message is a call, and starts the hunt again.
    method TakeSymbol(ghost r: seq<Received>, ghost o: nat) returns (call: Call)
      requires decoder.Valid() && !decoder.Finished() && |seen| >= 10 && bits == Reg(seen)
      requires r == decoder.heard + [Symbol(seen[|seen| - 10..])] && o == decoder.offset <= 9
      modifies this, decoder, decoder.buf
      ensures call == CallOf(r, o)
      ensures if call.Call? then Valid() && seen == []
              else
                && decoder.Valid() && unchanged(this) && decoder.heard == r && decoder.offset == o
                && !decoder.Finished()
    {
      hide DSCDecoder.Valid, Hunt, LockPoint, Locked, Symbol, BitsToSymbol, Characters, Errors, Reg;
      LastSymbol(seen);
      call := NoCall;
      var done := decoder.DecodeBits(bits & 0x3FF);
      NotBoth(decoder.heard, decoder.offset);
      if done {
        call := Call(decoder.bytes, decoder.errors);
        Init();
      }
    }

    // A bit before the lock: it may lock, but completes no call.
    method HuntOn(ghost before: seq<bool>, ghost bit: bool)
      requires decoder.Valid() && !gotSOP && !Locked(before) && seen == before + [bit] && bits == Reg(seen)
      requires bitCount == 1 + if |before| < WINDOW then |before| else WINDOW - 1
      modifies this`bitCount, this`gotSOP, decoder
      ensures Valid() && Framed(seen) == NoCall
    {
      hide DSCDecoder.Valid, Hunt, LockPoint, Locked, Locks, IsPhasing, Before, Part, Offset, Heard, Symbols, Framed,
           Reg;
      FramedWhileHunting(before, bit);
      if bitCount == WINDOW {
        bitCount := bitCount - 1;
        Hunting();
      }
    }

    // A bit after the lock: it may complete a symbol, and that a call.
    method FollowOn(ghost before: seq<bool>, ghost bit: bool) returns (call: Call)
      requires decoder.Valid() && gotSOP && Locked(before) && seen == before + [bit] && bits == Reg(seen)
      requires decoder.offset == Offset(before) && decoder.heard == Heard(before) && !decoder.Finished()
      requires |before| == LockPoint(before) + 10 * |decoder.heard| + (bitCount - 1) && 0 < bitCount <= 10
      modifies this, decoder, decoder.buf
      ensures Valid() && call == Framed(before + [bit])
      ensures seen == if call.Call? then [] else before + [bit]
    {
      hide DSCDecoder.Valid, Hunt, LockPoint, Locked, Offset, Heard, Symbols, Symbol, Framed, CallOf, Reg;
      hide Locks, IsPhasing, Before, Part, Shows, Phasing;
      FramedWhileFollowing(before, bit, bitCount - 1);
      call := NoCall;
      if bitCount == 10 {
        call := TakeSymbol(Heard(seen), decoder.offset);
        bitCount := 0;
      }
    }

    method ReceiveBit(bit: bool) returns (call: Call)
      requires Valid()
      modifies this, decoder, decoder.buf
      ensures Valid()
      ensures call == Framed(old(seen) + [bit])
      ensures seen == if call.Call? then [] else old(seen) + [bit]
    {
      hide DSCDecoder.Valid, LockPoint, Locked, Offset, Heard, Framed, Reg, Shifted;
      RegShifted(seen, bit);
      ghost var before := seen;
      bits := Shifted(bits, bit);
      bitCount := bitCount + 1;
      seen := seen + [bit];
      if !gotSOP {
        HuntOn(before, bit);
        call := NoCall;
      } else {
        call := FollowOn(before, bit);
      }
    }

    // Every call of a stream of bits.
    method ReceiveBits(stream: seq<bool>) returns (calls: seq<Call>)
      requires Valid()
      modifies this, decoder, decoder.buf
      ensures Valid() && calls == Calls(stream, old(seen))
    {
      hide Framed, DSCDecoder.Valid, Locked, LockPoint, Offset, Heard, Reg;
      calls := [];
      for i := 0 to |stream|
        invariant Valid() && calls + Calls(stream[i..], seen) == Calls(stream, old(seen))
      {
        CallsStep(stream[i..], seen);
        var call := ReceiveBit(stream[i]);
        if call.Call? { calls := calls + [call]; }
      }
    }
  }

  // ---- Whole transmissions ----------------------------------------------------------------------

  lemma CallsStep(stream: seq<bool>, cur: seq<bool>)
    requires stream != []
    ensures var next := cur + [stream[0]];
            Calls(stream, cur) == if Framed(next).Call? then [Framed(next)] + Calls(stream[1..], [])
              else Calls(stream[1..], next)
  {
  }

  // What is locked on in the first n bits is what is locked on later.
  lemma LockPrefix(bits: seq<bool>, n: nat)
    requires n <= |bits|
    ensures LockPoint(bits[..n]) == if LockPoint(bits) <= n then LockPoint(bits) else n + 1
    ensures LockPoint(bits) <= n ==> Offset(bits[..n]) == Offset(bits)
  {
    hide IsPhasing, Hunt;
    var p, q := LockPoint(bits), LockPoint(bits[..n]);
    if q <= n { LocksPrefix(bits, n, q); }
    if p <= n {
      LocksPrefix(bits, n, p);
      assert Before(bits[..n], p) == Before(bits, p);
    }
  }

  lemma LocksPrefix(bits: seq<bool>, n: nat, p: nat)
    requires p <= n <= |bits|
    ensures Locks(bits[..n], p) == Locks(bits, p)
  {
    if p >= WINDOW { assert Before(bits[..n], p) == Before(bits, p); }
  }

  lemma HeardLength(bits: seq<bool>, m: nat)
    requires Locked(bits)
    ensures LockPoint(bits) + 10 * m <= |bits| <==> m <= |Heard(bits)|
    ensures |bits| == LockPoint(bits) + 10 * m ==> m == |Heard(bits)|
  {
  }

  lemma HeardPrefix(bits: seq<bool>, n: nat, m: nat)
    requires Locked(bits) && n == LockPoint(bits) + 10 * m <= |bits|
    ensures Locked(bits[..n]) && m <= |Heard(bits)| && Heard(bits[..n]) == Heard(bits)[..m]
  {
    hide Locks, Hunt, Symbols;
    LockPrefix(bits, n);
    var p := LockPoint(bits);
    assert bits[..n][p..] == bits[p..][..10 * m];
    SymbolsPrefix(bits[p..], m);
  }

  lemma SymbolsPrefix(bits: seq<bool>, m: nat)
    requires 10 * m <= |bits|
    ensures m <= |Symbols(bits)| && Symbols(bits[..10 * m]) == Symbols(bits)[..m]
  {
    forall i | 0 <= i < m ensures Symbols(bits[..10 * m])[i] == Symbols(bits)[i] {
      assert bits[..10 * m][10 * i..10 * i + 10] == bits[10 * i..10 * i + 10];
    }
  }

  // A call is framed by no fewer bits.
  lemma NotFramedBefore(bits: seq<bool>, n: nat)
    requires Framed(bits).Call? && n < |bits|
    ensures Framed(bits[..n]) == NoCall
  {
    hide Locks, Hunt, Symbols, Heard, Complete, Pending, Characters, Errors, LockPoint, Offset;
    LockPrefix(bits, n);
    var p := LockPoint(bits);
    if p <= n && (n - p) % 10 == 0 {
      var m := (n - p) / 10;
      HeardLength(bits, (|bits| - p) / 10);
      HeardPrefix(bits, n, m);
      OneEnd(Heard(bits), Offset(bits), m);
      NotBoth(Heard(bits)[..m], Offset(bits));
    }
  }

  // Once locked, the receiver is done after at most 950 bits, whatever they are.
  lemma LockEnds(bits: seq<bool>) returns (n: nat)
    requires Locked(bits) && |bits| >= LockPoint(bits) + 10 * (Offset(bits) + 86)
    ensures LockPoint(bits) < n <= LockPoint(bits) + 10 * (Offset(bits) + 86) <= LockPoint(bits) + 950
    ensures Framed(bits[..n]).Call? && 1 <= |Framed(bits[..n]).symbols| <= 41
  {
    hide Hunt, Locks, Symbols, Complete, Characters, Errors, LockPoint, Offset;
    var p, o := LockPoint(bits), Offset(bits);
    HeardLength(bits, o + 86);
    var m := AlwaysEnds(Heard(bits), o);
    HeardLength(bits, m);
    n := p + 10 * m;
    HeardPrefix(bits, n, m);
    LockPrefix(bits, n);
  }

  lemma {:induction false} CallsFirst(bits: seq<bool>, rest: seq<bool>, n: nat)
    requires Framed(bits).Call? && n < |bits|
    ensures Calls(bits[n..] + rest, bits[..n]) == [Framed(bits)] + Calls(rest, [])
    decreases |bits| - n
  {
    hide Framed;
    var s := bits[n..] + rest;
    assert s[1..] == bits[n + 1..] + rest && bits[..n] + [s[0]] == bits[..n + 1];
    CallsStep(s, bits[..n]);
    if n + 1 < |bits| {
      NotFramedBefore(bits, n + 1);
      CallsFirst(bits, rest, n + 1);
    } else {
      assert bits[..n + 1] == bits && bits[n + 1..] + rest == rest;
    }
  }

  // The ten bits of slot t of a transmission whose phasing sequence starts at q.
  function Slot(bits: seq<bool>, q: nat, t: nat): (s: seq<bool>)
    requires q + 10 * t + 10 <= |bits|
    ensures |s| == 10
  {
    bits[q + 10 * t..q + 10 * t + 10]
  }

  // The bits of a transmission of n characters, up to the second copy of the last one.
  function Extent(q: nat, n: nat): nat { q + 10 * (2 * n + 16) }

  // Of the two copies of character k, sent in slots 12 + 2k and 17 + 2k, the receiver can still tell v.
  predicate SlotsArrive(bits: seq<bool>, q: nat, k: nat, v: bv8)
    requires Extent(q, k + 1) <= |bits|
  {
    var dx, rx := Symbol(Slot(bits, q, 12 + 2 * k)), Symbol(Slot(bits, q, 17 + 2 * k));
    dx == Sym(v) || (dx == Bad && (rx == Sym(v) || (rx == Bad && v == LOST)))
  }

  lemma PartIs(window: seq<bool>, j: nat)
    requires Shows(window, j)
    ensures IsPhasing(window) && Part(window) == j
  {
    TableIsPhasing(j);
    TableIsPhasing(Part(window));
    TableDistinct(j, Part(window));
  }

  // The receiver locked on part j of the phasing sequence of a transmission that starts at q.
  ghost predicate InPhase(bits: seq<bool>, q: nat, j: nat) {
    Locked(bits) && LockPoint(bits) == q + 10 * j + WINDOW && Shows(Before(bits, LockPoint(bits)), j)
  }

  lemma HeardSlot(bits: seq<bool>, q: nat, j: nat, t: nat)
    requires InPhase(bits, q, j) && j + 3 <= t && q + 10 * t + 10 <= |bits|
    ensures t - j - 3 < |Heard(bits)| && Heard(bits)[t - j - 3] == Symbol(Slot(bits, q, t))
  {
    var p, i := LockPoint(bits), t - j - 3;
    assert bits[p..][10 * i..10 * i + 10] == Slot(bits, q, t);
  }

  // A receiver in phase frames exactly the message sent if and only if every character arrives in one of
  // its two slots.
  lemma TransmissionFramed(bits: seq<bool>, q: nat, j: nat, c: seq<bv8>)
    requires Message(c) && InPhase(bits, q, j) && |bits| == Extent(q, |c|)
    ensures (Framed(bits).Call? && Framed(bits).symbols == c)
            <==> forall k: nat :: k < |c| ==> SlotsArrive(bits, q, k, c[k])
  {
    hide Hunt, Locks, IsPhasing, Shows, Symbols, Symbol, Characters, Complete, Pending;
    var p, r, o := LockPoint(bits), Heard(bits), Offset(bits);
    PartIs(Before(bits, p), j);
    assert |r| == Second(o, |c| - 1) + 1;
    TimeDiversity(r, o, c);
    forall k: nat | k < |c| ensures Arrives(r, o, k, c[k]) == SlotsArrive(bits, q, k, c[k]) {
      HeardSlot(bits, q, j, 12 + 2 * k);
      HeardSlot(bits, q, j, 17 + 2 * k);
    }
  }

  // So a receiver that just started delivers that message first, whatever follows it.
  lemma TransmissionDelivered(bits: seq<bool>, q: nat, j: nat, c: seq<bv8>, rest: seq<bool>)
    requires Message(c) && InPhase(bits, q, j) && |bits| == Extent(q, |c|)
    requires forall k: nat :: k < |c| ==> SlotsArrive(bits, q, k, c[k])
    ensures Calls(bits + rest, []) == [Call(c, Errors(Heard(bits), Offset(bits)))] + Calls(rest, [])
  {
    TransmissionFramed(bits, q, j, c);
    assert bits[0..] == bits && bits[..0] == [];
    CallsFirst(bits, rest, 0);
    assert Framed(bits) == Call(c, Errors(Heard(bits), Offset(bits)));
  }

  // One intact copy is enough when the other shows its damage.
  predicate OneGoodCopy(dx: seq<bool>, rx: seq<bool>, v: bv8)
    requires Valid(v)
  {
    dx == Code(v) || (Unidirectional(Code(v), dx) && rx == Code(v))
  }

  lemma GoodCopyArrives(bits: seq<bool>, q: nat, k: nat, v: bv8)
    requires Valid(v) && Extent(q, k + 1) <= |bits|
    requires OneGoodCopy(Slot(bits, q, 12 + 2 * k), Slot(bits, q, 17 + 2 * k), v)
    ensures SlotsArrive(bits, q, k, v)
  {
    CodeBack(v);
    var dx := Slot(bits, q, 12 + 2 * k);
    if dx != Code(v) { UnidirectionalDetected(v, dx); }
  }

  // ---- The clean start --------------------------------------------------------------------------

  // The dot pattern that precedes a call.
  predicate Dots(bits: seq<bool>) {
    forall i :: 0 < i < |bits| ==> bits[i] != bits[i - 1]
  }

  // No part of the phasing sequence starts with dots.
  lemma PhasingIsNoDots(j: nat)
    requires j < |PATTERNS|
    ensures var w := Phasing(j); w[0] == w[1] || w[1] == w[2] || w[2] == w[3]
  {
    PhasingBegins(j);
    hide Code, Phasing;
    Beginning(PhasingSymbol(j));
  }

  // Nor does one show the beginning of the sequence one, two or three bits late.
  lemma PhasingIsNotLate(j: nat, d: nat)
    requires j < |PATTERNS| && 1 <= d <= 3
    ensures var w, s := Phasing(j), Phasing(0);
            w[d] != s[0] || w[d + 1] != s[1] || w[d + 2] != s[2] || w[d + 3] != s[3] || w[d + 4] != s[4]
  {
    PhasingBegins(j);
    PhasingBegins(0);
    hide Code, Phasing;
    Beginning(PhasingSymbol(j));
    Beginning(125);
  }

  lemma PhasingBegins(j: nat)
    requires j < |PATTERNS|
    ensures forall i {:trigger Phasing(j)[i]} :: 0 <= i < 8 ==> Phasing(j)[i] == Code(PhasingSymbol(j))[..8][i]
  {
    hide Code, PhasingSymbol;
  }

  // The bits of a symbol's codeword, when it is one of the phasing sequence.
  lemma Beginning(s: bv8)
    requires s == 125 || s == 111 || s == 110 || s == 109 || s == 108 || s == 107 || s == 106
    ensures Code(s)[..8] == if s == 125 then [true, false, true, true, true, true, true, false]
                            else if s == 111 then [true, true, true, true, false, true, true, false]
                            else if s == 110 then [false, true, true, true, false, true, true, false]
                            else if s == 109 then [true, false, true, true, false, true, true, false]
                            else if s == 108 then [false, false, true, true, false, true, true, false]
                            else if s == 107 then [true, true, false, true, false, true, true, false]
                            else [false, true, false, true, false, true, true, false]
  {
  }

  // Of a window that ends before the first symbol of the sequence does, the first bits are dots.
  lemma NoLockInDots(bits: seq<bool>, q: nat, p: nat)
    requires WINDOW <= p <= |bits| && q <= |bits| && p <= q + WINDOW - 4 && Dots(bits[..q])
    ensures !IsPhasing(Before(bits, p))
  {
    hide Phasing;
    var w, r, dots := Before(bits, p), p - WINDOW, bits[..q];
    assert dots[r + 1] != dots[r] && dots[r + 2] != dots[r + 1] && dots[r + 3] != dots[r + 2];
    assert w[0] == dots[r] && w[1] == dots[r + 1] && w[2] == dots[r + 2] && w[3] == dots[r + 3];
    if IsPhasing(w) {
      assert w == Phasing(Part(w));
      PhasingIsNoDots(Part(w));
    }
  }

  // A window that ends one, two or three bits early shows the beginning of the sequence late.
  lemma NoLockEarly(bits: seq<bool>, q: nat, p: nat)
    requires WINDOW <= p && q + WINDOW <= |bits| && bits[q..q + WINDOW] == Phasing(0) && q + WINDOW - 4 < p < q + WINDOW
    ensures !IsPhasing(Before(bits, p))
  {
    hide Phasing;
    var w, d, s := Before(bits, p), q + WINDOW - p, bits[q..q + WINDOW];
    assert w[d] == s[0] && w[d + 1] == s[1] && w[d + 2] == s[2] && w[d + 3] == s[3] && w[d + 4] == s[4];
    if IsPhasing(w) { PhasingIsNotLate(Part(w), d); }
  }

  // After dots of any length, the receiver locks on the very beginning of the phasing sequence.
  lemma CleanStart(bits: seq<bool>, q: nat)
    requires q + WINDOW <= |bits| && Dots(bits[..q]) && bits[q..q + WINDOW] == Phasing(0)
    ensures InPhase(bits, q, 0)
  {
    hide Phasing;
    forall p | WINDOW <= p < q + WINDOW ensures !Locks(bits, p) {
      if p <= q + WINDOW - 4 { NoLockInDots(bits, q, p); } else { NoLockEarly(bits, q, p); }
    }
    assert Before(bits, q + WINDOW) == bits[q..q + WINDOW];
    assert Shows(Before(bits, q + WINDOW), 0);
    assert Locks(bits, q + WINDOW);
  }

  // A whole transmission that starts cleanly, one copy of each of its characters intact and the other either
  // intact or damaged by errors in one direction.
  predicate CleanCall(bits: seq<bool>, q: nat, c: seq<bv8>) {
    && Message(c) && (forall k: nat :: k < |c| ==> Valid(c[k])) && |bits| == Extent(q, |c|)
    && Dots(bits[..q]) && bits[q..q + WINDOW] == Phasing(0)
    && forall k: nat :: k < |c| ==> OneGoodCopy(Slot(bits, q, 12 + 2 * k), Slot(bits, q, 17 + 2 * k), c[k])
  }

  // The symbols after the first three of the phasing sequence.
  function HeardFrom(bits: seq<bool>, q: nat): seq<Received>
    requires q + WINDOW <= |bits|
  {
    Symbols(bits[q + WINDOW..])
  }

  // It is framed whole, and no fewer of its bits are framed; its errors are those of all its symbols.
  lemma CleanCallIs(bits: seq<bool>, q: nat, c: seq<bv8>)
    requires CleanCall(bits, q, c)
    ensures bits != [] && InPhase(bits, q, 0)
    ensures Heard(bits) == HeardFrom(bits, q) && Offset(bits) == 9
    ensures forall k: nat :: k < |c| ==> SlotsArrive(bits, q, k, c[k])
    ensures Framed(bits) == Call(c, Errors(HeardFrom(bits, q), 9))
  {
    hide Phasing, Calls, OneGoodCopy, SlotsArrive, Hunt, Locks, IsPhasing, Part, Errors, Characters, Complete;
    CleanStart(bits, q);
    PartIs(Before(bits, LockPoint(bits)), 0);
    forall k: nat | k < |c| ensures SlotsArrive(bits, q, k, c[k]) {
      GoodCopyArrives(bits, q, k, c[k]);
    }
    TransmissionFramed(bits, q, 0, c);
  }

  // It is the first call delivered, whatever follows it.
  lemma CleanCallDelivered(bits: seq<bool>, q: nat, c: seq<bv8>, rest: seq<bool>)
    requires CleanCall(bits, q, c)
    ensures Calls(bits + rest, []) == [Call(c, Errors(HeardFrom(bits, q), 9))] + Calls(rest, [])
  {
    hide Calls, InPhase, CleanCall, SlotsArrive, Errors, Heard, Offset;
    CleanCallIs(bits, q, c);
    assert Message(c) && |bits| == Extent(q, |c|) by { CleanCallShape(bits, q, c); }
    TransmissionDelivered(bits, q, 0, c, rest);
  }

  lemma CleanCallShape(bits: seq<bool>, q: nat, c: seq<bv8>)
    requires CleanCall(bits, q, c)
    ensures Message(c) && |bits| == Extent(q, |c|)
  {
  }

  // A dot less before it makes no difference.
  lemma CleanCallTail(bits: seq<bool>, q: nat, c: seq<bv8>)
    requires CleanCall(bits, q, c) && q > 0
    ensures CleanCall(bits[1..], q - 1, c) && HeardFrom(bits[1..], q - 1) == HeardFrom(bits, q)
  {
    hide OneGoodCopy, Symbols, Phasing;
    var tail := bits[1..];
    assert tail[..q - 1] == bits[..q][1..] && tail[q - 1..q - 1 + WINDOW] == bits[q..q + WINDOW];
    assert tail[q - 1 + WINDOW..] == bits[q + WINDOW..];
    forall k: nat | k < |c|
      ensures OneGoodCopy(Slot(tail, q - 1, 12 + 2 * k), Slot(tail, q - 1, 17 + 2 * k), c[k])
    {
      assert Slot(tail, q - 1, 12 + 2 * k) == Slot(bits, q, 12 + 2 * k);
      assert Slot(tail, q - 1, 17 + 2 * k) == Slot(bits, q, 17 + 2 * k);
    }
  }

  // ---- How damage is reported ---------------------------------------------------------------------

  const SECOND_COPIES: seq<bv8> := [111, 110, 109, 108, 107, 106, 105, 104]

  // What slot t of a transmission of c carries, up to the second copy of its last character: in the even
  // slots six phasing symbols and then the first copies, in the odd ones eight and then the second copies.
  function Carried(c: seq<bv8>, t: nat): bv8
    requires Carries(c, t)
  {
    if t % 2 == 0 then (if t < 12 then 125 else c[t / 2 - 6])
    else if t < 16 then SECOND_COPIES[t / 2] else c[t / 2 - 8]
  }

  // The even slots past the last first copy may carry anything.
  predicate Carries(c: seq<bv8>, t: nat) { t < 2 * |c| + 16 && (t % 2 == 1 || t < 2 * |c| + 12) }

  // Slot t is as it was sent, or damaged in one direction.
  predicate Worn(bits: seq<bool>, q: nat, c: seq<bv8>, t: nat)
    requires Carries(c, t) && q + 10 * t + 10 <= |bits|
  {
    var v := Carried(c, t);
    Valid(v) && (Slot(bits, q, t) == Code(v) || Unidirectional(Code(v), Slot(bits, q, t)))
  }

  // A transmission that starts cleanly, every slot after the first three intact or damaged in one direction and
  // one copy of each character intact.
  ghost predicate WornCall(bits: seq<bool>, q: nat, c: seq<bv8>) {
    CleanCall(bits, q, c) && forall t: nat :: 3 <= t && Carries(c, t) ==> Worn(bits, q, c, t)
  }

  // Symbol n after the lock counts, and its slot is not as it was sent.
  predicate DamagedSlot(bits: seq<bool>, q: nat, c: seq<bv8>, n: nat) {
    && Counts(9, 2 * |c| + 13, n) && Carries(c, n + 3) && q + 10 * (n + 3) + 10 <= |bits|
    && Valid(Carried(c, n + 3)) && Slot(bits, q, n + 3) != Code(Carried(c, n + 3))
  }

  // The damaged slots that count: all but those of the phasing symbols between the first characters.
  function DamagedSlots(bits: seq<bool>, q: nat, c: seq<bv8>): set<nat> {
    set n: nat | n < 2 * |c| + 13 && DamagedSlot(bits, q, c, n)
  }

  lemma HeardWorn(bits: seq<bool>, q: nat, c: seq<bv8>, t: nat)
    requires WornCall(bits, q, c) && InPhase(bits, q, 0) && 3 <= t && Carries(c, t)
    ensures t - 3 < |Heard(bits)|
    ensures Heard(bits)[t - 3] == if Slot(bits, q, t) == Code(Carried(c, t)) then Sym(Carried(c, t)) else Bad
  {
    hide Code, Symbol, Heard, Carried, Locked, Unidirectional;
    HeardSlot(bits, q, 0, t);
    var v := Carried(c, t);
    assert Worn(bits, q, c, t);
    if Slot(bits, q, t) == Code(v) { CodeBack(v); } else { UnidirectionalDetected(v, Slot(bits, q, t)); }
  }

  lemma HeardExtent(bits: seq<bool>, q: nat, c: seq<bv8>)
    requires WornCall(bits, q, c) && InPhase(bits, q, 0)
    ensures |Heard(bits)| == 2 * |c| + 13 && |c| >= 2
  {
    HeardLength(bits, 2 * |c| + 13);
  }

  lemma WornHeard(bits: seq<bool>, q: nat, c: seq<bv8>)
    requires WornCall(bits, q, c) && InPhase(bits, q, 0)
    ensures |Heard(bits)| == 2 * |c| + 13 && ShowsDamage(Heard(bits), 9)
  {
    assert Locked(bits);
    hide WornCall, InPhase, Heard, Locked, LockPoint, Carried;
    HeardExtent(bits, q, c);
    var heard := Heard(bits);
    forall n: nat | n < 9 ensures heard[n] in {Sym(EXPECTED[n]), Bad} {
      PhasingHeard(bits, q, c, n);
    }
    LateHeard(bits, q, c);
    forall n: nat | 14 <= n < |heard| && (n - 14) % 2 == 0 && heard[n].Sym? && heard[n - 5].Sym?
      ensures heard[n] == heard[n - 5]
    {
      var k := (n - 14) / 2;
      assert n == 14 + 2 * k;
      CopiesHeard(bits, q, c, k);
    }
  }

  lemma PhasingHeard(bits: seq<bool>, q: nat, c: seq<bv8>, n: nat)
    requires WornCall(bits, q, c) && InPhase(bits, q, 0) && n < 9
    ensures |Heard(bits)| == 2 * |c| + 13 && Heard(bits)[n] in {Sym(EXPECTED[n]), Bad}
  {
    assert Locked(bits);
    hide WornCall, InPhase, Heard, Locked, LockPoint, Carried;
    HeardExtent(bits, q, c);
    PhasingCarried(c, n);
    HeardWorn(bits, q, c, n + 3);
  }

  lemma LateHeard(bits: seq<bool>, q: nat, c: seq<bv8>)
    requires WornCall(bits, q, c) && InPhase(bits, q, 0)
    ensures |Heard(bits)| == 2 * |c| + 13 && Heard(bits)[10] != Sym(106) && Heard(bits)[12] != Sym(105)
  {
    assert Locked(bits);
    hide WornCall, InPhase, Heard, Locked, LockPoint, Carried;
    HeardExtent(bits, q, c);
    LateCarried(c);
    HeardWorn(bits, q, c, 13);
    HeardWorn(bits, q, c, 15);
  }

  lemma CopiesHeard(bits: seq<bool>, q: nat, c: seq<bv8>, k: nat)
    requires WornCall(bits, q, c) && InPhase(bits, q, 0) && k < |c| && 14 + 2 * k < 2 * |c| + 13
    ensures |Heard(bits)| == 2 * |c| + 13
    ensures Heard(bits)[9 + 2 * k] in {Sym(c[k]), Bad} && Heard(bits)[14 + 2 * k] in {Sym(c[k]), Bad}
  {
    assert Locked(bits);
    hide WornCall, InPhase, Heard, Locked, LockPoint, Carried;
    HeardExtent(bits, q, c);
    CopiesCarried(c, k);
    HeardWorn(bits, q, c, 17 + 2 * k);
    HeardWorn(bits, q, c, 12 + 2 * k);
  }

  lemma PhasingCarried(c: seq<bv8>, n: nat)
    requires n < 9 && |c| >= 2
    ensures Carried(c, n + 3) == EXPECTED[n]
  {
  }

  lemma LateCarried(c: seq<bv8>)
    requires |c| >= 2
    ensures Carried(c, 13) == 105 && Carried(c, 15) == 104
  {
  }

  lemma CopiesCarried(c: seq<bv8>, k: nat)
    requires k < |c|
    ensures Carried(c, 12 + 2 * k) == c[k] == Carried(c, 17 + 2 * k)
  {
  }

  lemma PlacesAreSlots(bits: seq<bool>, q: nat, c: seq<bv8>)
    requires WornCall(bits, q, c) && InPhase(bits, q, 0)
    ensures DamagedPlaces(Heard(bits), 9) == DamagedSlots(bits, q, c)
  {
    HeardExtent(bits, q, c);
    var heard := Heard(bits);
    hide WornCall, InPhase, Heard, DamagedSlot;
    forall n: nat | n < |heard| && Counts(9, |heard|, n)
      ensures heard[n] == Bad <==> DamagedSlot(bits, q, c, n)
    {
      PlaceIsSlot(bits, q, c, n);
    }
    forall n: nat | n < |heard| && DamagedSlot(bits, q, c, n) ensures Counts(9, |heard|, n) {
      SlotCounts(bits, q, c, n);
    }
  }

  lemma SlotCounts(bits: seq<bool>, q: nat, c: seq<bv8>, n: nat)
    requires DamagedSlot(bits, q, c, n)
    ensures Counts(9, 2 * |c| + 13, n)
  {
  }

  lemma PlaceIsSlot(bits: seq<bool>, q: nat, c: seq<bv8>, n: nat)
    requires WornCall(bits, q, c) && InPhase(bits, q, 0) && Counts(9, 2 * |c| + 13, n)
    ensures |Heard(bits)| == 2 * |c| + 13 && (Heard(bits)[n] == Bad <==> DamagedSlot(bits, q, c, n))
  {
    HeardExtent(bits, q, c);
    assert Carries(c, n + 3) && |bits| == Extent(q, |c|);
    assert Worn(bits, q, c, n + 3);
    assert Locked(bits);
    HeardWorn(bits, q, c, n + 3);
    hide WornCall, InPhase, Heard, Locked, Carried, Code, Slot, Unidirectional;
  }

  // It is framed whole, and handed on with one error for each damaged slot that counts, and two for none.
  lemma DamageReported(bits: seq<bool>, q: nat, c: seq<bv8>)
    requires WornCall(bits, q, c)
    ensures Framed(bits) == Call(c, 2 + |DamagedSlots(bits, q, c)|)
  {
    assert CleanCall(bits, q, c);
    hide WornCall, CleanCall, InPhase, ShowsDamage, Errors, Heard, HeardFrom, Offset, DamagedPlaces, DamagedSlots;
    CleanCallIs(bits, q, c);
    WornHeard(bits, q, c);
    DamageCounted(Heard(bits), 9);
    PlacesAreSlots(bits, q, c);
  }

  // An undamaged transmission.
  ghost predicate Undamaged(bits: seq<bool>, q: nat, c: seq<bv8>) {
    && Message(c) && (forall k: nat :: k < |c| ==> Valid(c[k])) && |bits| == Extent(q, |c|) && Dots(bits[..q])
    && forall t: nat {:trigger Carried(c, t)} :: Carries(c, t) ==>
         Valid(Carried(c, t)) && Slot(bits, q, t) == Code(Carried(c, t))
  }

  lemma UndamagedIsWorn(bits: seq<bool>, q: nat, c: seq<bv8>)
    requires Undamaged(bits, q, c)
    ensures WornCall(bits, q, c)
  {
    hide Code, Unidirectional;
    assert Carried(c, 0) == 125 && Carried(c, 1) == 111 && Carried(c, 2) == 125;
    assert bits[q..q + WINDOW] == Slot(bits, q, 0) + Slot(bits, q, 1) + Slot(bits, q, 2);
    forall k: nat | k < |c| ensures OneGoodCopy(Slot(bits, q, 12 + 2 * k), Slot(bits, q, 17 + 2 * k), c[k]) {
      assert Carried(c, 12 + 2 * k) == c[k];
    }
  }

  // It is handed on with exactly two errors counted.
  lemma UndamagedCall(bits: seq<bool>, q: nat, c: seq<bv8>)
    requires Undamaged(bits, q, c)
    ensures CleanCall(bits, q, c) && Framed(bits) == Call(c, 2)
  {
    UndamagedIsWorn(bits, q, c);
    DamageReported(bits, q, c);
    NoneDamaged(bits, q, c);
    hide CleanCall, Framed, DamagedSlots;
  }

  lemma NoneDamaged(bits: seq<bool>, q: nat, c: seq<bv8>)
    requires Undamaged(bits, q, c)
    ensures DamagedSlots(bits, q, c) == {}
  {
    hide Code, Slot, Carried;
  }

  // ---- What a call can carry ----------------------------------------------------------------------

  // Every symbol of a call is one of seven bits: no mark of a detected error gets through.
  lemma SymbolsAreValid(bits: seq<bool>, k: nat)
    requires Framed(bits).Call? && k < |Framed(bits).symbols|
    ensures Valid(Framed(bits).symbols[k])
  {
    hide Hunt, Locks, IsPhasing, Complete, Symbol;
    var b, r, o := bits[LockPoint(bits)..], Heard(bits), Offset(bits);
    forall i | 0 <= i < |r| && r[i].Sym? ensures Valid(r[i].value) {
      OnlyCodewords(b[10 * i..10 * i + 10]);
    }
    assert Framed(bits).symbols[k] == Select(r[First(o, k)], r[Second(o, k)]);
  }
}
