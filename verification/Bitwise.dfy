/**
  * Bitwise operators on unbounded naturals, and bit lists with the least significant bit first.
  */
module Bitwise {
  import opened Machine

  function BitOr(a: nat, b: nat): nat {
    if a == 0 && b == 0 then 0
    else 2 * BitOr(a / 2, b / 2) + (if a % 2 == 1 || b % 2 == 1 then 1 else 0)
  }

  function BitAnd(a: nat, b: nat): nat {
    if a == 0 && b == 0 then 0
    else 2 * BitAnd(a / 2, b / 2) + (if a % 2 == 1 && b % 2 == 1 then 1 else 0)
  }

  function BitXor(a: nat, b: nat): nat {
    if a == 0 && b == 0 then 0
    else 2 * BitXor(a / 2, b / 2) + (if a % 2 != b % 2 then 1 else 0)
  }

  lemma {:induction false} OrZero(a: nat)
    ensures BitOr(a, 0) == a && BitOr(0, a) == a
  {
    if a > 0 {
      OrZero(a / 2);
    }
  }

  lemma {:induction false} AndZero(a: nat)
    ensures BitAnd(a, 0) == 0
  {
    if a > 0 {
      AndZero(a / 2);
    }
  }

  lemma {:induction false} XorZero(a: nat)
    ensures BitXor(a, 0) == a
  {
    if a > 0 {
      XorZero(a / 2);
    }
  }

  // OR of two numbers that share no bit position is their sum.
  lemma {:induction false} OrDisjoint(a: nat, b: nat, n: nat)
    requires a < Pow2(n)
    ensures BitOr(a, b * Pow2(n)) == a + b * Pow2(n)
    ensures BitOr(b * Pow2(n), a) == a + b * Pow2(n)
  {
    if n == 0 {
      OrZero(b);
    } else {
      var c := b * Pow2(n - 1);
      assert b * Pow2(n) == 2 * c;
      OrDisjoint(a / 2, b, n - 1);
    }
  }

  // AND with n ones keeps the low n bits.
  lemma {:induction false} AndMask(a: nat, n: nat)
    ensures BitAnd(a, Pow2(n) - 1) == a % Pow2(n)
  {
    if n == 0 {
      AndZero(a);
    } else {
      AndMask(a / 2, n - 1);
      var p := Pow2(n - 1);
      assert (Pow2(n) - 1) / 2 == p - 1;
      HalveMod(a, p);
    }
  }

  lemma HalveMod(a: nat, p: nat)
    requires p > 0
    ensures a % (2 * p) == 2 * (a / 2 % p) + a % 2
  {
    var h := a / 2;
    var q, r := h / p, h % p;
    var d := a % 2;
    assert h == q * p + r;
    assert q * (2 * p) == 2 * (q * p);
    DivModUnique(a, q, 2 * p, 2 * r + d);
  }

  // XOR with n ones complements the low n bits.
  lemma {:induction false} XorOnes(a: nat, n: nat)
    requires a < Pow2(n)
    ensures BitXor(a, Pow2(n) - 1) == Pow2(n) - 1 - a
  {
    if n > 0 {
      var p := Pow2(n - 1);
      XorOnes(a / 2, n - 1);
      assert (Pow2(n) - 1) / 2 == p - 1 && (Pow2(n) - 1) % 2 == 1 by { assert Pow2(n) - 1 == 2 * (p - 1) + 1; }
      hide Pow2;
    }
  }

  lemma {:induction false} Pow2Adds(m: nat, n: nat)
    ensures Pow2(m + n) == Pow2(m) * Pow2(n)
  {
    if m > 0 {
      Pow2Adds(m - 1, n);
      assert Pow2(m + n) == 2 * Pow2(m - 1 + n);
      assert Pow2(m) * Pow2(n) == 2 * (Pow2(m - 1) * Pow2(n));
    }
  }

  lemma {:induction false} Pow2Grows(m: nat, n: nat)
    requires m <= n
    ensures Pow2(m) <= Pow2(n)
  {
    if m < n {
      Pow2Grows(m, n - 1);
    }
  }

  lemma Pow2Constants()
    ensures Pow2(7) == 128 && Pow2(8) == 256 && Pow2(32) == TWO_32 && Pow2(64) == TWO_64
  {
    assert Pow2(8) == 256;
    Pow2Adds(8, 8);
    Pow2Adds(16, 16);
    Pow2Adds(32, 32);
  }

  // ---- Bit lists ------------------------------------------------------------------------------

  function Bit(b: bool): nat { if b then 1 else 0 }

  // The number a bit list denotes, least significant bit first.
  function Val(s: seq<bool>): nat {
    if s == [] then 0 else Bit(s[0]) + 2 * Val(s[1..])
  }

  // The n low bits of v.
  function LowBits(v: nat, n: nat): (s: seq<bool>)
    ensures |s| == n
  {
    if n == 0 then [] else [v % 2 == 1] + LowBits(v / 2, n - 1)
  }

  lemma {:induction false} LowBitsVal(v: nat, n: nat)
    ensures Val(LowBits(v, n)) == v % Pow2(n)
  {
    if n > 0 {
      var s := LowBits(v, n);
      assert s[1..] == LowBits(v / 2, n - 1);
      LowBitsVal(v / 2, n - 1);
      HalveMod(v, Pow2(n - 1));
    }
  }

  lemma {:induction false} ValBound(s: seq<bool>)
    ensures Val(s) < Pow2(|s|)
  {
    if s != [] {
      ValBound(s[1..]);
    }
  }

  lemma Double(v: int, p: int)
    ensures v * (2 * p) == 2 * (v * p)
  {
  }

  lemma {:induction false} ValConcat(s: seq<bool>, t: seq<bool>)
    ensures Val(s + t) == Val(s) + Val(t) * Pow2(|s|)
  {
    if s == [] {
      assert s + t == t;
    } else {
      assert (s + t)[1..] == s[1..] + t;
      ValConcat(s[1..], t);
      Double(Val(t), Pow2(|s| - 1));
    }
  }

  // Taking bits off the bottom: the low part is a remainder, the rest a quotient.
  lemma ValSplit(s: seq<bool>, n: nat)
    requires n <= |s|
    ensures Val(s[..n]) == Val(s) % Pow2(n) && Val(s[n..]) == Val(s) / Pow2(n)
  {
    assert s == s[..n] + s[n..];
    ValConcat(s[..n], s[n..]);
    ValBound(s[..n]);
    DivModUnique(Val(s), Val(s[n..]), Pow2(n), Val(s[..n]));
  }

  // All the bits of a byte string, lowest bit of each byte first.
  function Bits(bytes: seq<Byte>): (s: seq<bool>)
    ensures |s| == 8 * |bytes|
  {
    if bytes == [] then [] else LowBits(bytes[0], 8) + Bits(bytes[1..])
  }

  lemma {:induction false} LowBitAt(v: nat, n: nat, i: nat)
    requires i < n
    ensures LowBits(v, n)[i] == (v / Pow2(i) % 2 == 1)
  {
    if i > 0 {
      LowBitAt(v / 2, n - 1, i - 1);
      DivideTwice(v, Pow2(i - 1));
    } else {
      assert Pow2(0) == 1;
    }
  }

  lemma DivideTwice(v: nat, p: nat)
    requires p > 0
    ensures v / 2 / p == v / (2 * p)
  {
    var q, r := v / 2 / p, v / 2 % p;
    assert v / 2 == q * p + r && v == 2 * (v / 2) + v % 2;
    assert 2 * (q * p) == q * (2 * p);
    DivModUnique(v, q, 2 * p, 2 * r + v % 2);
  }

  // Bit 8 * i + j of a byte string is bit j of byte i.
  lemma {:induction false} BitOfByte(bytes: seq<Byte>, i: nat, j: nat)
    requires i < |bytes| && j < 8
    ensures Bits(bytes)[8 * i + j] == (bytes[i] / Pow2(j) % 2 == 1)
  {
    hide LowBits;
    if i == 0 { LowBitAt(bytes[0], 8, j); } else { BitOfByte(bytes[1..], i - 1, j); }
  }

  lemma {:induction false} BitsConcat(a: seq<Byte>, b: seq<Byte>)
    ensures Bits(a + b) == Bits(a) + Bits(b)
  {
    if a == [] {
      assert a + b == b;
    } else {
      assert (a + b)[1..] == a[1..] + b;
      BitsConcat(a[1..], b);
    }
  }

  // Bytes for a bit list, the last one padded with zeros.
  function Pack(s: seq<bool>): (bytes: seq<Byte>)
    decreases |s|
  {
    if s == [] then []
    else if |s| < 8 then
      var chunk := s + seq(8 - |s|, _ => false);
      ByteOf(chunk);
      [Val(chunk)]
    else
      ByteOf(s[..8]);
      [Val(s[..8])] + Pack(s[8..])
  }

  lemma ByteOf(s: seq<bool>)
    requires |s| == 8
    ensures 0 <= Val(s) < 256
  {
    ValBound(s);
    Pow2Constants();
  }

  lemma {:induction false} LowBitsOfVal(s: seq<bool>)
    ensures LowBits(Val(s), |s|) == s
  {
    if s != [] {
      LowBitsOfVal(s[1..]);
    }
  }

  // Packing loses nothing: the bit list comes back, followed by padding.
  lemma {:induction false} PackBits(s: seq<bool>)
    ensures s <= Bits(Pack(s))
    decreases |s|
  {
    if s == [] {
    } else if |s| < 8 {
      var chunk := s + seq(8 - |s|, _ => false);
      LowBitsOfVal(chunk);
      assert Pack(s)[1..] == [];
      assert Bits(Pack(s)) == chunk + [];
    } else {
      LowBitsOfVal(s[..8]);
      PackBits(s[8..]);
      assert Pack(s)[1..] == Pack(s[8..]);
      assert s == s[..8] + s[8..];
    }
  }
}
