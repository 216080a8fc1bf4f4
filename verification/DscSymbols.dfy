/**
  * The ten-bit error-detecting code of section 1.1 of ITU-R M.493-15 Annex 1, as the receiver's shift
  * register sees it: seven information bits, least significant first, then the number of zeros among
  * them, most significant bit first.
  */
module DscSymbols {

  // What ten bits are taken for: a symbol of 0..127, or none when an error shows (-1 in the program).
  datatype Received = Bad | Sym(value: bv8)

  predicate Valid(s: bv8) { s < 0x80 }

  // ---- The shift register ---------------------------------------------------------------------

  // All bits so far, newest lowest; the 32-bit register forgets the oldest by itself.
  function Reg(bits: seq<bool>): bv32 {
    if bits == [] then 0
    else (Reg(bits[..|bits| - 1]) << 1) | Bit(bits[|bits| - 1])
  }

  function Shifted(r: bv32, b: bool): bv32 { (r << 1) | Bit(b) }

  function Bit(b: bool): bv32 { if b then 1 else 0 }

  // m keeps the n low bits.
  predicate Keeps(m: bv32, n: nat) {
    if n == 0 then m == 0 else Odd(m) && Keeps(Halved(m), n - 1)
  }

  predicate Odd(m: bv32) { m & 1 == 1 }

  function Halved(m: bv32): bv32 { m >> 1 }

  lemma RegAppend(bits: seq<bool>, b: bool)
    ensures Reg(bits + [b]) == (Reg(bits) << 1) | Bit(b)
  {
    assert (bits + [b])[..|bits|] == bits;
  }

  lemma RegShifted(bits: seq<bool>, b: bool)
    ensures Reg(bits + [b]) == Shifted(Reg(bits), b)
  {
    RegAppend(bits, b);
  }

  lemma LastBits(bits: seq<bool>, n: nat)
    requires 0 < n <= |bits|
    ensures var front, b := bits[..|bits| - 1], bits[|bits| - 1];
            front + [b] == bits && front[|front| - (n - 1)..] + [b] == bits[|bits| - n..]
  {
  }

  // The n low bits of the register are the last n bits received.
  lemma {:induction false} RegLow(bits: seq<bool>, m: bv32, n: nat)
    requires n <= |bits| && Keeps(m, n)
    ensures Kept(Reg(bits), m) == Reg(bits[|bits| - n..])
  {
    hide Reg, Kept, Odd, Halved, Keeps;
    if n == 0 {
      NothingKept(bits[|bits|..], Reg(bits), m);
    } else {
      KeepsHalf(m, n);
      var front, b := bits[..|bits| - 1], bits[|bits| - 1];
      RegLow(front, Halved(m), n - 1);
      LastBits(bits, n);
      OneMoreKept(front, front[|front| - (n - 1)..], b, m);
    }
  }

  lemma OneMoreKept(front: seq<bool>, tail: seq<bool>, b: bool, m: bv32)
    requires Odd(m) && Kept(Reg(front), Halved(m)) == Reg(tail)
    ensures Kept(Reg(front + [b]), m) == Reg(tail + [b])
  {
    hide Reg, Shifted, Kept, Odd, Halved, Bit;
    RegShifted(front, b);
    RegShifted(tail, b);
    ShiftMask(Reg(front), m, b);
  }

  lemma KeepsHalf(m: bv32, n: nat)
    requires Keeps(m, n) && n > 0
    ensures Odd(m) && Keeps(Halved(m), n - 1)
  {
    hide Odd, Halved;
  }

  lemma NothingKept(none: seq<bool>, r: bv32, m: bv32)
    requires none == [] && Keeps(m, 0)
    ensures Kept(r, m) == Reg(none)
  {
  }

  function Kept(r: bv32, m: bv32): bv32 { r & m }

  lemma ShiftMask(x: bv32, m: bv32, b: bool)
    requires Odd(m)
    ensures Kept(Shifted(x, b), m) == Shifted(Kept(x, Halved(m)), b)
  {
    ShiftBits(x, m, Bit(b));
  }

  lemma ShiftBits(x: bv32, m: bv32, b: bv32)
    requires b <= 1 && m & 1 == 1
    ensures ((x << 1) | b) & m == ((x & (m >> 1)) << 1) | b
  {
  }

  lemma Masks()
    ensures Keeps(0x3FF, 10) && Keeps(0x3FFF_FFFF, 30)
  {
    assert Keeps(0x1, 1); assert Keeps(0x3, 2); assert Keeps(0x7, 3); assert Keeps(0xF, 4); assert Keeps(0x1F, 5);
    assert Keeps(0x3F, 6); assert Keeps(0x7F, 7); assert Keeps(0xFF, 8); assert Keeps(0x1FF, 9);
    assert Keeps(0x3FF, 10);
    assert Keeps(0x7FF, 11); assert Keeps(0xFFF, 12); assert Keeps(0x1FFF, 13); assert Keeps(0x3FFF, 14);
    assert Keeps(0x7FFF, 15);
    assert Keeps(0xFFFF, 16); assert Keeps(0x1FFFF, 17); assert Keeps(0x3FFFF, 18); assert Keeps(0x7FFFF, 19);
    assert Keeps(0xFFFFF, 20);
    assert Keeps(0x1FFFFF, 21); assert Keeps(0x3FFFFF, 22); assert Keeps(0x7FFFFF, 23); assert Keeps(0xFFFFFF, 24);
    assert Keeps(0x1FFFFFF, 25);
    assert Keeps(0x3FFFFFF, 26); assert Keeps(0x7FFFFFF, 27); assert Keeps(0xFFFFFFF, 28);
    assert Keeps(0x1FFFFFFF, 29); assert Keeps(0x3FFFFFFF, 30);
  }

  // ---- The code -------------------------------------------------------------------------------

  // Reverse the bits of a byte.
  function Reverse(b: bv8): bv8 {
    var b1 := ((b & 0xF0) >> 4) | ((b & 0x0F) << 4);
    var b2 := ((b1 & 0xCC) >> 2) | ((b1 & 0x33) << 2);
    ((b2 & 0xAA) >> 1) | ((b2 & 0x55) << 1)
  }

  function Popcount(x: bv8): bv8 {
    (x & 1) + ((x >> 1) & 1) + ((x >> 2) & 1) + ((x >> 3) & 1) + ((x >> 4) & 1) + ((x >> 5) & 1) + ((x >> 6) & 1)
      + ((x >> 7) & 1)
  }

  // The symbol ten bits stand for, or Bad when their zeros do not count up.
  function BitsToSymbol(bits: bv32): Received
    requires bits <= 0x3FF
  {
    var data := Reverse((bits >> 3) as bv8) >> 1;
    var zeros := 7 - Popcount(data);
    if zeros == (bits & 7) as bv8 then Sym(data) else Bad
  }

  // Bit i of a symbol.
  function SymbolBit(s: bv8, i: bv8): bool
    requires i < 7
  {
    (s >> i) & 1 == 1
  }

  function Zeros(s: bv8): bv8 { 7 - Popcount(s) }

  // The ten bits sent for a symbol.
  function Code(s: bv8): (c: seq<bool>)
    requires Valid(s)
    ensures |c| == 10
  {
    [SymbolBit(s, 0), SymbolBit(s, 1), SymbolBit(s, 2), SymbolBit(s, 3), SymbolBit(s, 4), SymbolBit(s, 5),
     SymbolBit(s, 6), Zeros(s) & 4 != 0, Zeros(s) & 2 != 0, Zeros(s) & 1 != 0]
  }

  // What a codeword says: seven bits of the symbol, lowest first, and in three more, highest first, how many of
  // those are zero.
  lemma CodewordSays(s: bv8)
    requires Valid(s)
    ensures var c := Code(s);
            && s == Weight(c[0], 1) + Weight(c[1], 2) + Weight(c[2], 4) + Weight(c[3], 8) + Weight(c[4], 16)
                    + Weight(c[5], 32) + Weight(c[6], 64)
            && Weight(c[7], 4) + Weight(c[8], 2) + Weight(c[9], 1)
               == Weight(!c[0], 1) + Weight(!c[1], 1) + Weight(!c[2], 1) + Weight(!c[3], 1) + Weight(!c[4], 1)
                  + Weight(!c[5], 1) + Weight(!c[6], 1)
  {
  }

  function Weight(b: bool, w: bv8): bv8 { if b then w else 0 }

  // Ten bits as a register value.
  function Word(b: seq<bool>): (w: bv32)
    requires |b| == 10
    ensures w <= 0x3FF
  {
    (Bit(b[0]) << 9) | (Bit(b[1]) << 8) | (Bit(b[2]) << 7) | (Bit(b[3]) << 6) | (Bit(b[4]) << 5)
    | (Bit(b[5]) << 4) | (Bit(b[6]) << 3) | (Bit(b[7]) << 2) | (Bit(b[8]) << 1) | Bit(b[9])
  }

  lemma FiveShifts(r: bv32, b0: bool, b1: bool, b2: bool, b3: bool, b4: bool)
    ensures Shifted(Shifted(Shifted(Shifted(Shifted(r, b0), b1), b2), b3), b4) == FiveOn(r, Five(b0, b1, b2, b3, b4))
  {
    hide Bit;
    FiveBits(r, Bit(b0), Bit(b1), Bit(b2), Bit(b3), Bit(b4));
  }

  lemma FiveBits(r: bv32, a: bv32, b: bv32, c: bv32, d: bv32, e: bv32)
    ensures ((((((((((r << 1) | a) << 1) | b) << 1) | c) << 1) | d) << 1) | e)
            == (r << 5) | ((a << 4) | (b << 3) | (c << 2) | (d << 1) | e)
  {
  }

  function Five(b0: bool, b1: bool, b2: bool, b3: bool, b4: bool): bv32 {
    (Bit(b0) << 4) | (Bit(b1) << 3) | (Bit(b2) << 2) | (Bit(b3) << 1) | Bit(b4)
  }

  function FiveOn(r: bv32, f: bv32): bv32 { (r << 5) | f }

  lemma FiveAndFive(r: bv32, y: seq<bool>)
    requires |y| == 10
    ensures FiveOn(FiveOn(r, Five(y[0], y[1], y[2], y[3], y[4])), Five(y[5], y[6], y[7], y[8], y[9]))
            == (r << 10) | Word(y)
  {
    hide Bit;
    TenBits(r, Bit(y[0]), Bit(y[1]), Bit(y[2]), Bit(y[3]), Bit(y[4]), Bit(y[5]), Bit(y[6]), Bit(y[7]), Bit(y[8]),
      Bit(y[9]));
  }

  lemma TenBits(r: bv32, a: bv32, b: bv32, c: bv32, d: bv32, e: bv32, f: bv32, g: bv32, h: bv32, i: bv32, j: bv32)
    ensures (((r << 5) | ((a << 4) | (b << 3) | (c << 2) | (d << 1) | e)) << 5)
            | ((f << 4) | (g << 3) | (h << 2) | (i << 1) | j)
            == (r << 10) | ((a << 9) | (b << 8) | (c << 7) | (d << 6) | (e << 5) | (f << 4) | (g << 3) | (h << 2)
              | (i << 1) | j)
  {
  }

  lemma RegOne(x: seq<bool>, y: seq<bool>, n: nat)
    requires n < |y|
    ensures Reg(x + y[..n + 1]) == Shifted(Reg(x + y[..n]), y[n])
  {
    assert x + y[..n + 1] == (x + y[..n]) + [y[n]];
    RegShifted(x + y[..n], y[n]);
  }

  lemma RegFive(x: seq<bool>, y: seq<bool>, i: nat)
    requires i + 5 <= |y|
    ensures Reg(x + y[..i + 5]) == FiveOn(Reg(x + y[..i]), Five(y[i], y[i + 1], y[i + 2], y[i + 3], y[i + 4]))
  {
    hide Reg, Shifted, Five, FiveOn;
    RegOne(x, y, i); RegOne(x, y, i + 1); RegOne(x, y, i + 2); RegOne(x, y, i + 3); RegOne(x, y, i + 4);
    FiveShifts(Reg(x + y[..i]), y[i], y[i + 1], y[i + 2], y[i + 3], y[i + 4]);
  }

  // The register after ten more bits.
  lemma RegTen(x: seq<bool>, y: seq<bool>)
    requires |y| == 10
    ensures Reg(x + y) == (Reg(x) << 10) | Word(y)
  {
    hide Reg, Five, FiveOn, Word;
    assert x + y[..0] == x && y[..10] == y;
    RegFive(x, y, 0);
    RegFive(x, y, 5);
    FiveAndFive(Reg(x), y);
  }

  lemma RegIsWord(b: seq<bool>)
    requires |b| == 10
    ensures Reg(b) == Word(b)
  {
    assert [] + b == b && Reg([]) == 0;
    hide Reg, Word;
    RegTen([], b);
  }

  // What the receiver makes of ten bits.
  function Symbol(b: seq<bool>): Received
    requires |b| == 10
  {
    BitsToSymbol(Word(b))
  }

  // The last ten bits in the register are the last symbol.
  lemma LastSymbol(bits: seq<bool>)
    requires |bits| >= 10
    ensures BitsToSymbol(Reg(bits) & 0x3FF) == Symbol(bits[|bits| - 10..])
  {
    hide Word, BitsToSymbol, Reg;
    Masks();
    RegLow(bits, 0x3FF, 10);
    RegIsWord(bits[|bits| - 10..]);
  }

  // A codeword is its symbol.
  lemma CodeBack(s: bv8)
    requires Valid(s)
    ensures Symbol(Code(s)) == Sym(s)
  {
  }

  // Only codewords pass: any error that does not turn one codeword into another is detected.
  lemma OnlyCodewords(b: seq<bool>)
    requires |b| == 10 && Symbol(b) != Bad
    ensures Valid(Symbol(b).value) && b == Code(Symbol(b).value)
  {
  }

  // b is a with some bits changed, all of them in the same direction.
  predicate Unidirectional(a: seq<bool>, b: seq<bool>) {
    |a| == |b| && a != b
    && ((forall i :: 0 <= i < |a| ==> a[i] ==> b[i]) || (forall i :: 0 <= i < |a| ==> b[i] ==> a[i]))
  }

  // No codeword has all the ones of another and more.
  lemma NoTwoOrdered(s: bv8, t: bv8)
    requires Valid(s) && Valid(t) && forall i :: 0 <= i < 10 && Code(s)[i] ==> Code(t)[i]
    ensures s == t
  {
    var a, b := Code(s), Code(t);
    assert (a[0] ==> b[0]) && (a[1] ==> b[1]) && (a[2] ==> b[2]) && (a[3] ==> b[3]) && (a[4] ==> b[4]);
    assert (a[5] ==> b[5]) && (a[6] ==> b[6]) && (a[7] ==> b[7]) && (a[8] ==> b[8]) && (a[9] ==> b[9]);
  }

  // Errors in one direction only are always detected, however many.
  lemma UnidirectionalDetected(s: bv8, b: seq<bool>)
    requires Valid(s) && Unidirectional(Code(s), b)
    ensures Symbol(b) == Bad
  {
    if Symbol(b) != Bad {
      OnlyCodewords(b);
      OneDirection(s, Symbol(b).value);
    }
  }

  lemma OneDirection(s: bv8, t: bv8)
    requires Valid(s) && Valid(t)
    ensures !Unidirectional(Code(s), Code(t))
  {
    if forall i :: 0 <= i < 10 && Code(t)[i] ==> Code(s)[i] {
      NoTwoOrdered(t, s);
    } else if forall i :: 0 <= i < 10 && Code(s)[i] ==> Code(t)[i] {
      NoTwoOrdered(s, t);
    }
  }
}
