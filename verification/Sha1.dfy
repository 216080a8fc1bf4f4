/**
  * The SHA-1 compression with rotating registers and an in-place schedule of sixteen words, against the
  * algorithm of section 6.1.2 of FIPS 180-4.
  */
module SecureHash {

  // ---- FIPS 180-4 -------------------------------------------------------------------------------

  // Section 3.2.
  function Rol(x: bv32, n: nat): bv32
    requires n <= 32
  {
    (x << n) | (x >> (32 - n))
  }

  function Ch(x: bv32, y: bv32, z: bv32): bv32 { (x & y) ^ (!x & z) }

  function Parity(x: bv32, y: bv32, z: bv32): bv32 { x ^ y ^ z }

  function Maj(x: bv32, y: bv32, z: bv32): bv32 { (x & y) ^ (x & z) ^ (y & z) }

  // Section 4.1.1.
  function F(t: nat, x: bv32, y: bv32, z: bv32): bv32 {
    if t < 20 then Ch(x, y, z) else if t < 40 then Parity(x, y, z) else if t < 60 then Maj(x, y, z) else Parity(x, y, z)
  }

  // Section 4.2.1.
  function K(t: nat): bv32 {
    if t < 20 then 0x5a827999 else if t < 40 then 0x6ed9eba1 else if t < 60 then 0x8f1bbcdc else 0xca62c1d6
  }

  // The message schedule, section 6.1.2 step 1.
  function W(m: seq<bv32>, t: nat): bv32
    requires |m| == 16
  {
    if t < 16 then m[t] else Mixed(W(m, t - 3), W(m, t - 8), W(m, t - 14), W(m, t - 16))
  }

  function Mixed(w: bv32, x: bv32, y: bv32, z: bv32): bv32 { Rol(Xor(w, x, y, z), 1) }

  function Xor(w: bv32, x: bv32, y: bv32, z: bv32): bv32 { w ^ x ^ y ^ z }

  datatype Registers = Registers(a: bv32, b: bv32, c: bv32, d: bv32, e: bv32)

  function Add(x: bv32, y: bv32): bv32 { x + y }

  function Add5(u: bv32, v: bv32, w: bv32, x: bv32, y: bv32): bv32 { u + v + w + x + y }

  // Section 6.1.2 step 3.
  function Round(r: Registers, w: bv32, t: nat): Registers {
    Registers(Add5(Rol(r.a, 5), F(t, r.b, r.c, r.d), r.e, K(t), w), r.a, Rol(r.b, 30), r.c, r.d)
  }

  function Rounds(r: Registers, m: seq<bv32>, t: nat): Registers
    requires |m| == 16
  {
    if t == 0 then r else Round(Rounds(r, m, t - 1), W(m, t - 1), t - 1)
  }

  // One block, section 6.1.2 steps 1 to 4.
  function Compress(h: seq<bv32>, m: seq<bv32>): (r: seq<bv32>)
    requires |h| == 5 && |m| == 16
    ensures |r| == 5
  {
    var s := Rounds(Registers(h[0], h[1], h[2], h[3], h[4]), m, 80);
    [Add(h[0], s.a), Add(h[1], s.b), Add(h[2], s.c), Add(h[3], s.d), Add(h[4], s.e)]
  }

  // ---- FIPS 180-4, bit by bit ---------------------------------------------------------------------

  predicate BitAt(x: bv32, i: bv32)
    requires i < 32
  {
    (x >> i) & 1 == 1
  }

  // The place n below place i, around the end.
  function Below(i: bv32, n: bv32): (j: bv32)
    requires i < 32 && n <= 32
    ensures j < 32
  {
    (i + (32 - n)) % 32
  }

  lemma RotatedWords(x: bv32)
    ensures Rol(x, 1) == (x << 1) | (x >> 31)
    ensures Rol(x, 5) == (x << 5) | (x >> 27)
    ensures Rol(x, 30) == (x << 30) | (x >> 2)
  {
  }

  lemma RotatedOnce(x: bv32, i: bv32)
    requires i < 32
    ensures BitAt((x << 1) | (x >> 31), i) == BitAt(x, Below(i, 1))
  {
  }

  lemma RotatedFive(x: bv32, i: bv32)
    requires i < 32
    ensures BitAt((x << 5) | (x >> 27), i) == BitAt(x, Below(i, 5))
  {
  }

  lemma RotatedThirty(x: bv32, i: bv32)
    requires i < 32
    ensures BitAt((x << 30) | (x >> 2), i) == BitAt(x, Below(i, 30))
  {
  }

  // Bit i of a word rotated by n is the bit n places below, around the end.
  lemma RotatedByOne(x: bv32, i: bv32)
    requires i < 32
    ensures BitAt(Rol(x, 1), i) == BitAt(x, Below(i, 1))
  {
    RotatedWords(x);
    RotatedOnce(x, i);
    hide Rol, BitAt, Below;
  }

  lemma RotatedByFive(x: bv32, i: bv32)
    requires i < 32
    ensures BitAt(Rol(x, 5), i) == BitAt(x, Below(i, 5))
  {
    RotatedWords(x);
    RotatedFive(x, i);
    hide Rol, BitAt, Below;
  }

  lemma RotatedByThirty(x: bv32, i: bv32)
    requires i < 32
    ensures BitAt(Rol(x, 30), i) == BitAt(x, Below(i, 30))
  {
    RotatedWords(x);
    RotatedThirty(x, i);
    hide Rol, BitAt, Below;
  }

  lemma XorEachBit(w: bv32, x: bv32, y: bv32, z: bv32, i: bv32)
    requires i < 32
    ensures BitAt(w ^ x ^ y ^ z, i) == (((BitAt(w, i) != BitAt(x, i)) != BitAt(y, i)) != BitAt(z, i))
  {
  }

  lemma XorBits(w: bv32, x: bv32, y: bv32, z: bv32, i: bv32)
    requires i < 32
    ensures BitAt(Xor(w, x, y, z), i) == (((BitAt(w, i) != BitAt(x, i)) != BitAt(y, i)) != BitAt(z, i))
  {
    hide BitAt;
    XorEachBit(w, x, y, z, i);
  }

  lemma MixedBits(w: bv32, x: bv32, y: bv32, z: bv32, i: bv32)
    requires i < 32
    ensures var j := Below(i, 1);
            BitAt(Mixed(w, x, y, z), i) == (((BitAt(w, j) != BitAt(x, j)) != BitAt(y, j)) != BitAt(z, j))
  {
    hide Rol, Xor, BitAt, Below;
    RotatedByOne(Xor(w, x, y, z), i);
    XorBits(w, x, y, z, Below(i, 1));
  }

  // Each bit of the schedule is the exclusive or of four earlier ones, one place below.
  lemma ScheduleBits(m: seq<bv32>, t: nat, i: bv32)
    requires |m| == 16 && 16 <= t < 80 && i < 32
    ensures var j := Below(i, 1);
            BitAt(W(m, t), i)
            == (((BitAt(W(m, t - 3), j) != BitAt(W(m, t - 8), j)) != BitAt(W(m, t - 14), j)) != BitAt(W(m, t - 16), j))
  {
    hide W, Mixed, BitAt, Below;
    WStep(m, t);
    MixedBits(W(m, t - 3), W(m, t - 8), W(m, t - 14), W(m, t - 16), i);
  }

  // Where x is set the choice is y, and z elsewhere; the majority agrees with any two that agree; the parity
  // cancels its words.
  lemma ChoiceBits(x: bv32, y: bv32, z: bv32)
    ensures x & Ch(x, y, z) == x & y && !x & Ch(x, y, z) == !x & z
  {
  }

  lemma MajorityBits(x: bv32, y: bv32, z: bv32)
    ensures (x ^ Maj(x, y, z)) & !(x ^ y) == 0 && (z ^ Maj(x, y, z)) & (x ^ y) == 0
  {
  }

  lemma ParityCancels(x: bv32, y: bv32, z: bv32)
    ensures Parity(x, y, z) ^ x ^ y ^ z == 0
  {
  }

  // The four constants are the square roots of 2, 3, 5 and 10, cut at thirty binary places.
  lemma RootConstants(t: nat)
    requires t < 80
    ensures var k, c := K(t) as int, [2, 3, 5, 10][t / 20];
            k * k <= c * 0x1000_0000_0000_0000 < (k + 1) * (k + 1)
  {
  }

  // ---- The rotating layout ------------------------------------------------------------------------

  // Before round t the registers lie t places on.
  predicate Laid(a: seq<bv32>, r: Registers, t: nat) {
    |a| == 5 && a[(4 + t) % 5] == r.a && a[(3 + t) % 5] == r.b && a[(2 + t) % 5] == r.c && a[(1 + t) % 5] == r.d
      && a[t % 5] == r.e
  }

  // Before round t the block holds sixteen words of the schedule: the message's, or the last sixteen.
  predicate Scheduled(b: seq<bv32>, m: seq<bv32>, t: nat) {
    |b| == 16 && |m| == 16 && forall u: nat :: Oldest(t) <= u < Oldest(t) + 16 ==> b[u % 16] == W(m, u)
  }

  function Oldest(t: nat): nat { if t < 16 then 0 else t - 16 }

  // One turn of the wheel: the oldest register takes the new value, and another is rotated in place.
  lemma Turned(a: seq<bv32>, r: Registers, t: nat, x: bv32, y: bv32)
    requires Laid(a, r, t)
    ensures Laid(a[t % 5 := x][(3 + t) % 5 := y], Registers(x, r.a, y, r.c, r.d), t + 1)
  {
  }

  // The word of the schedule that replaces the oldest one.
  function Blk(b: seq<bv32>, i: nat): bv32
    requires |b| == 16 && i < 16
  {
    Mixed(b[(i + 13) % 16], b[(i + 8) % 16], b[(i + 2) % 16], b[i])
  }

  lemma WStep(m: seq<bv32>, t: nat)
    requires |m| == 16 && t >= 16
    ensures W(m, t) == Mixed(W(m, t - 3), W(m, t - 8), W(m, t - 14), W(m, t - 16))
  {
  }

  // Going back k places among sixteen is going on 16 - k.
  lemma PlaceBack(t: nat, k: nat)
    requires t >= k && k <= 16
    ensures (t - k) % 16 == (t % 16 + (16 - k)) % 16
  {
    var q, i := t / 16, t % 16;
    if i >= k {
      assert t - k == 16 * q + (i - k);
    } else {
      assert t - k == 16 * (q - 1) + (i + 16 - k);
    }
  }

  lemma Places(t: nat)
    requires t >= 16
    ensures var i := t % 16;
            (t - 3) % 16 == (i + 13) % 16 && (t - 8) % 16 == (i + 8) % 16 && (t - 14) % 16 == (i + 2) % 16
              && (t - 16) % 16 == i
  {
    PlaceBack(t, 3);
    PlaceBack(t, 8);
    PlaceBack(t, 14);
    PlaceBack(t, 16);
  }

  lemma BlkIsW(b: seq<bv32>, m: seq<bv32>, t: nat)
    requires t >= 16 && Scheduled(b, m, t)
    ensures Blk(b, t % 16) == W(m, t)
  {
    hide Mixed, W;
    WStep(m, t);
    Places(t);
    assert b[(t - 3) % 16] == W(m, t - 3) && b[(t - 8) % 16] == W(m, t - 8);
    assert b[(t - 14) % 16] == W(m, t - 14) && b[(t - 16) % 16] == W(m, t - 16);
  }

  lemma Replaced(b: seq<bv32>, m: seq<bv32>, t: nat)
    requires t >= 16 && Scheduled(b, m, t)
    ensures Scheduled(b[t % 16 := W(m, t)], m, t + 1)
  {
    hide W;
    forall u: nat | Oldest(t + 1) <= u < Oldest(t + 1) + 16 ensures b[t % 16 := W(m, t)][u % 16] == W(m, u) {
      if u < t { assert u % 16 != t % 16; }
    }
  }

  // ---- The forms of the round functions the program computes ---------------------------------------

  function Choose(x: bv32, y: bv32, z: bv32): bv32 { (x & (y ^ z)) ^ z }

  function Majority(x: bv32, y: bv32, z: bv32): bv32 { ((x | y) & z) | (x & y) }

  lemma ChBits(x: bv32, y: bv32, z: bv32)
    ensures (x & (y ^ z)) ^ z == (x & y) ^ (!x & z)
  {
  }

  lemma MajBits(x: bv32, y: bv32, z: bv32)
    ensures ((x | y) & z) | (x & y) == (x & y) ^ (x & z) ^ (y & z)
  {
  }

  lemma ChooseIsCh(x: bv32, y: bv32, z: bv32)
    ensures Choose(x, y, z) == Ch(x, y, z)
  {
    ChBits(x, y, z);
  }

  lemma MajorityIsMaj(x: bv32, y: bv32, z: bv32)
    ensures Majority(x, y, z) == Maj(x, y, z)
  {
    MajBits(x, y, z);
  }

  // e += f + w + k + s.
  function Plus(e: bv32, f: bv32, w: bv32, k: bv32, s: bv32): bv32 { e + (f + w + k + s) }

  lemma Mixes(e: bv32, f: bv32, w: bv32, k: bv32, s: bv32)
    ensures Plus(e, f, w, k, s) == Add5(s, f, e, k, w)
  {
  }

  // ---- The program ------------------------------------------------------------------------------

  lemma Unchanged(b: seq<bv32>, m: seq<bv32>, t: nat)
    requires t < 16 && Scheduled(b, m, t)
    ensures Scheduled(b, m, t + 1) && b[t] == W(m, t)
  {
    hide W;
    assert b[t % 16] == W(m, t);
  }

  // Places repeat every five rounds.
  lemma Turns(t: nat, i: nat, q: nat)
    requires t == i + 5 * q
    ensures t % 5 == i % 5 && (1 + t) % 5 == (1 + i) % 5 && (2 + t) % 5 == (2 + i) % 5 && (3 + t) % 5 == (3 + i) % 5
            && (4 + t) % 5 == (4 + i) % 5
  {
    Turn(t, i, q); Turn(1 + t, 1 + i, q); Turn(2 + t, 2 + i, q); Turn(3 + t, 3 + i, q); Turn(4 + t, 4 + i, q);
  }

  lemma Turn(t: nat, i: nat, q: nat)
    requires t == i + 5 * q
    ensures t % 5 == i % 5
  {
  }

  lemma Wraps(t: nat, i: nat, q: nat)
    requires t == i + 16 * q
    ensures t % 16 == i % 16
  {
  }

  // Rounds 0 to 15, on the words of the message.
  method Phase1(i: int, a: array<bv32>, b: array<bv32>, ghost r: Registers, ghost m: seq<bv32>, ghost t: nat)
    requires a.Length == 5 && b.Length == 16 && a != b && |m| == 16 && 0 <= i < 16 && t == i
    requires Laid(a[..], r, t) && Scheduled(b[..], m, t)
    modifies a
    ensures Laid(a[..], Round(r, W(m, t), t), t + 1) && Scheduled(b[..], m, t + 1)
  {
    hide Rol, Choose, Majority, Ch, Maj, Parity, Plus, Add5, Blk, W, Scheduled;
    ghost var was, w := a[..], W(m, t);
    Unchanged(b[..], m, t);
    ChooseIsCh(r.b, r.c, r.d);
    Mixes(r.e, Ch(r.b, r.c, r.d), w, 0x5a827999, Rol(r.a, 5));
    ghost var next := Round(r, w, t);
    a[i % 5] := Plus(a[i % 5], Choose(a[(3 + i) % 5], a[(2 + i) % 5], a[(1 + i) % 5]), b[i], 0x5a827999,
      Rol(a[(4 + i) % 5], 5));
    assert a[..] == was[t % 5 := next.a];
    a[(3 + i) % 5] := Rol(a[(3 + i) % 5], 30);
    assert a[..] == was[t % 5 := next.a][(3 + t) % 5 := next.c];
    Turned(was, r, t, next.a, next.c);
  }

  // Rounds 16 to 19: the schedule replaces the words in place.
  method Phase2(i: int, a: array<bv32>, b: array<bv32>, ghost r: Registers, ghost m: seq<bv32>, ghost t: nat)
    requires a.Length == 5 && b.Length == 16 && a != b && |m| == 16 && 0 <= i < 4 && t == 16 + i
    requires Laid(a[..], r, t) && Scheduled(b[..], m, t)
    modifies a, b
    ensures Laid(a[..], Round(r, W(m, t), t), t + 1) && Scheduled(b[..], m, t + 1)
  {
    hide Rol, Choose, Majority, Ch, Maj, Parity, Plus, Add5, Blk, W, Scheduled;
    ghost var was, w := a[..], W(m, t);
    Turns(t, 1 + i, 3);
    Wraps(t, i, 1);
    BlkIsW(b[..], m, t);
    Replaced(b[..], m, t);
    ghost var words := b[..];
    b[i] := Blk(b[..], i);
    assert b[..] == words[t % 16 := w];
    ChooseIsCh(r.b, r.c, r.d);
    Mixes(r.e, Ch(r.b, r.c, r.d), w, 0x5a827999, Rol(r.a, 5));
    ghost var next := Round(r, w, t);
    a[(1 + i) % 5] := Plus(a[(1 + i) % 5], Choose(a[(4 + i) % 5], a[(3 + i) % 5], a[(2 + i) % 5]), b[i], 0x5a827999,
      Rol(a[(5 + i) % 5], 5));
    assert a[..] == was[t % 5 := next.a];
    a[(4 + i) % 5] := Rol(a[(4 + i) % 5], 30);
    assert a[..] == was[t % 5 := next.a][(3 + t) % 5 := next.c];
    Turned(was, r, t, next.a, next.c);
  }

  // Rounds 20 to 39.
  method Phase3(i: int, a: array<bv32>, b: array<bv32>, ghost r: Registers, ghost m: seq<bv32>, ghost t: nat)
    requires a.Length == 5 && b.Length == 16 && a != b && |m| == 16 && 0 <= i < 20 && t == 20 + i
    requires Laid(a[..], r, t) && Scheduled(b[..], m, t)
    modifies a, b
    ensures Laid(a[..], Round(r, W(m, t), t), t + 1) && Scheduled(b[..], m, t + 1)
  {
    hide Rol, Choose, Majority, Ch, Maj, Parity, Plus, Add5, Blk, W, Scheduled;
    ghost var was, w := a[..], W(m, t);
    Turns(t, i, 4);
    Wraps(t, i + 4, 1);
    BlkIsW(b[..], m, t);
    Replaced(b[..], m, t);
    ghost var words := b[..];
    b[(i + 4) % 16] := Blk(b[..], (i + 4) % 16);
    assert b[..] == words[t % 16 := w];
    Mixes(r.e, Parity(r.b, r.c, r.d), w, 0x6ed9eba1, Rol(r.a, 5));
    ghost var next := Round(r, w, t);
    a[i % 5] := Plus(a[i % 5], Parity(a[(3 + i) % 5], a[(2 + i) % 5], a[(1 + i) % 5]), b[(i + 4) % 16], 0x6ed9eba1,
      Rol(a[(4 + i) % 5], 5));
    assert a[..] == was[t % 5 := next.a];
    a[(3 + i) % 5] := Rol(a[(3 + i) % 5], 30);
    assert a[..] == was[t % 5 := next.a][(3 + t) % 5 := next.c];
    Turned(was, r, t, next.a, next.c);
  }

  // Rounds 40 to 59.
  method Phase4(i: int, a: array<bv32>, b: array<bv32>, ghost r: Registers, ghost m: seq<bv32>, ghost t: nat)
    requires a.Length == 5 && b.Length == 16 && a != b && |m| == 16 && 0 <= i < 20 && t == 40 + i
    requires Laid(a[..], r, t) && Scheduled(b[..], m, t)
    modifies a, b
    ensures Laid(a[..], Round(r, W(m, t), t), t + 1) && Scheduled(b[..], m, t + 1)
  {
    hide Rol, Choose, Majority, Ch, Maj, Parity, Plus, Add5, Blk, W, Scheduled;
    ghost var was, w := a[..], W(m, t);
    Turns(t, i, 8);
    Wraps(t, i + 8, 2);
    BlkIsW(b[..], m, t);
    Replaced(b[..], m, t);
    ghost var words := b[..];
    b[(i + 8) % 16] := Blk(b[..], (i + 8) % 16);
    assert b[..] == words[t % 16 := w];
    MajorityIsMaj(r.b, r.c, r.d);
    Mixes(r.e, Maj(r.b, r.c, r.d), w, 0x8f1bbcdc, Rol(r.a, 5));
    ghost var next := Round(r, w, t);
    a[i % 5] := Plus(a[i % 5], Majority(a[(3 + i) % 5], a[(2 + i) % 5], a[(1 + i) % 5]), b[(i + 8) % 16], 0x8f1bbcdc,
      Rol(a[(4 + i) % 5], 5));
    assert a[..] == was[t % 5 := next.a];
    a[(3 + i) % 5] := Rol(a[(3 + i) % 5], 30);
    assert a[..] == was[t % 5 := next.a][(3 + t) % 5 := next.c];
    Turned(was, r, t, next.a, next.c);
  }

  // Rounds 60 to 79.
  method Phase5(i: int, a: array<bv32>, b: array<bv32>, ghost r: Registers, ghost m: seq<bv32>, ghost t: nat)
    requires a.Length == 5 && b.Length == 16 && a != b && |m| == 16 && 0 <= i < 20 && t == 60 + i
    requires Laid(a[..], r, t) && Scheduled(b[..], m, t)
    modifies a, b
    ensures Laid(a[..], Round(r, W(m, t), t), t + 1) && Scheduled(b[..], m, t + 1)
  {
    hide Rol, Choose, Majority, Ch, Maj, Parity, Plus, Add5, Blk, W, Scheduled;
    ghost var was, w := a[..], W(m, t);
    Turns(t, i, 12);
    Wraps(t, i + 12, 3);
    BlkIsW(b[..], m, t);
    Replaced(b[..], m, t);
    ghost var words := b[..];
    b[(i + 12) % 16] := Blk(b[..], (i + 12) % 16);
    assert b[..] == words[t % 16 := w];
    Mixes(r.e, Parity(r.b, r.c, r.d), w, 0xca62c1d6, Rol(r.a, 5));
    ghost var next := Round(r, w, t);
    a[i % 5] := Plus(a[i % 5], Parity(a[(3 + i) % 5], a[(2 + i) % 5], a[(1 + i) % 5]), b[(i + 12) % 16], 0xca62c1d6,
      Rol(a[(4 + i) % 5], 5));
    assert a[..] == was[t % 5 := next.a];
    a[(3 + i) % 5] := Rol(a[(3 + i) % 5], 30);
    assert a[..] == was[t % 5 := next.a][(3 + t) % 5 := next.c];
    Turned(was, r, t, next.a, next.c);
  }

  lemma RoundsStep(r: Registers, m: seq<bv32>, t: nat)
    requires |m| == 16
    ensures Rounds(r, m, t + 1) == Round(Rounds(r, m, t), W(m, t), t)
  {
  }

  lemma Begins(a: seq<bv32>, b: seq<bv32>, r: Registers)
    requires a == [r.e, r.d, r.c, r.b, r.a] && |b| == 16
    ensures Laid(a, Rounds(r, b, 0), 0) && Scheduled(b, b, 0)
  {
  }

  lemma LaidAtEnd(a: seq<bv32>, r: Registers)
    requires Laid(a, r, 80)
    ensures a == [r.e, r.d, r.c, r.b, r.a]
  {
  }

  // One block; the schedule overwrites the words of the message.
  method Sha1(hash: array<bv32>, b: array<bv32>)
    requires hash.Length == 5 && b.Length == 16 && hash != b
    modifies hash, b
    ensures hash[..] == Compress(old(hash[..]), old(b[..]))
  {
    hide Laid, Scheduled, Round, Rounds, W, Add;
    ghost var m, h := b[..], hash[..];
    ghost var r := Registers(h[0], h[1], h[2], h[3], h[4]);
    var a := new bv32[] [hash[4], hash[3], hash[2], hash[1], hash[0]];
    Begins(a[..], m, r);
    for i := 0 to 16
      invariant hash[..] == h && Laid(a[..], Rounds(r, m, i), i) && Scheduled(b[..], m, i)
    {
      Phase1(i, a, b, Rounds(r, m, i), m, i);
      RoundsStep(r, m, i);
    }
    for i := 0 to 4
      invariant hash[..] == h && Laid(a[..], Rounds(r, m, 16 + i), 16 + i) && Scheduled(b[..], m, 16 + i)
    {
      Phase2(i, a, b, Rounds(r, m, 16 + i), m, 16 + i);
      RoundsStep(r, m, 16 + i);
    }
    for i := 0 to 20
      invariant hash[..] == h && Laid(a[..], Rounds(r, m, 20 + i), 20 + i) && Scheduled(b[..], m, 20 + i)
    {
      Phase3(i, a, b, Rounds(r, m, 20 + i), m, 20 + i);
      RoundsStep(r, m, 20 + i);
    }
    for i := 0 to 20
      invariant hash[..] == h && Laid(a[..], Rounds(r, m, 40 + i), 40 + i) && Scheduled(b[..], m, 40 + i)
    {
      Phase4(i, a, b, Rounds(r, m, 40 + i), m, 40 + i);
      RoundsStep(r, m, 40 + i);
    }
    for i := 0 to 20
      invariant hash[..] == h && Laid(a[..], Rounds(r, m, 60 + i), 60 + i) && Scheduled(b[..], m, 60 + i)
    {
      Phase5(i, a, b, Rounds(r, m, 60 + i), m, 60 + i);
      RoundsStep(r, m, 60 + i);
    }
    ghost var s := Rounds(r, m, 80);
    LaidAtEnd(a[..], s);
    assert a[0] == a[..][0] && a[1] == a[..][1] && a[2] == a[..][2] && a[3] == a[..][3] && a[4] == a[..][4];
    Accumulate(hash, a);
  }

  // The last phase: the registers are added to the hash, in reverse.
  method Accumulate(hash: array<bv32>, a: array<bv32>)
    requires hash.Length == 5 && a.Length == 5 && hash != a
    modifies hash
    ensures var h := old(hash[..]);
            hash[..] == [Add(h[0], a[4]), Add(h[1], a[3]), Add(h[2], a[2]), Add(h[3], a[1]), Add(h[4], a[0])]
  {
    hide Add;
    for i := 0 to 5
      invariant forall j :: 0 <= j < i ==> hash[j] == Add(old(hash[..])[j], a[4 - j])
      invariant forall j :: i <= j < 5 ==> hash[j] == old(hash[..])[j]
    {
      hash[i] := Add(hash[i], a[4 - i]);
    }
  }
}
