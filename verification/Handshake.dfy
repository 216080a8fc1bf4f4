/**
  * The accept value of a WebSocket handshake: section 4.2.2 of RFC 6455, over SHA-1 (FIPS 180-4) and Base64
  * (section 4 of RFC 4648).
  */
module Handshake {
  import opened SecureHash

  // ---- FIPS 180-4 on bytes ------------------------------------------------------------------------

  // Section 5.3.1.
  const INITIAL: seq<bv32> := [0x67452301, 0xefcdab89, 0x98badcfe, 0x10325476, 0xc3d2e1f0]

  function Word(a: bv8, b: bv8, c: bv8, d: bv8): bv32 {
    (a as bv32 << 24) | (b as bv32 << 16) | (c as bv32 << 8) | d as bv32
  }

  // Sixteen words from 64 bytes, most significant byte first.
  function Words(s: seq<bv8>): (w: seq<bv32>)
    requires |s| == 64
    ensures |w| == 16
  {
    seq(16, i requires 0 <= i < 16 => Word(s[4 * i], s[4 * i + 1], s[4 * i + 2], s[4 * i + 3]))
  }

  function Zeros(n: nat): seq<bv8> { seq(n, _ => 0) }

  function Digit(n: nat): bv8 { (n % 256) as bv8 }

  // A number as eight bytes.
  function Eight(n: nat): seq<bv8> {
    [Digit(n / 0x100_0000_0000_0000), Digit(n / 0x1_0000_0000_0000), Digit(n / 0x100_0000_0000),
     Digit(n / 0x1_0000_0000), Digit(n / 0x100_0000), Digit(n / 0x1_0000), Digit(n / 0x100), Digit(n)]
  }

  // Section 5.1.1: a one, zeros up to the end of a block but eight bytes, and the length in bits.
  function Padded(msg: seq<bv8>): (p: seq<bv8>)
    ensures |p| % 64 == 0
  {
    PadLength(|msg|);
    msg + [0x80] + Zeros((119 - |msg| % 64) % 64) + Eight(8 * |msg|)
  }

  lemma PadLength(n: nat)
    ensures (n + 1 + (119 - n % 64) % 64 + 8) % 64 == 0
  {
    var q, r := n / 64, n % 64;
    assert n == 64 * q + r;
    assert (119 - r) % 64 == if r <= 55 then 55 - r else 119 - r;
  }

  function Blocks(h: seq<bv32>, s: seq<bv8>): (r: seq<bv32>)
    requires |h| == 5 && |s| % 64 == 0
    ensures |r| == 5
    decreases |s|
  {
    if s == [] then h else Blocks(Compress(h, Words(s[..64])), s[64..])
  }

  function WordBytes(w: bv32): (s: seq<bv8>)
    ensures |s| == 4
  {
    [((w >> 24) & 0xFF) as bv8, ((w >> 16) & 0xFF) as bv8, ((w >> 8) & 0xFF) as bv8, (w & 0xFF) as bv8]
  }

  function Bytes(h: seq<bv32>): (s: seq<bv8>)
    requires |h| == 5
    ensures |s| == 20
  {
    WordBytes(h[0]) + WordBytes(h[1]) + WordBytes(h[2]) + WordBytes(h[3]) + WordBytes(h[4])
  }

  function Digest(msg: seq<bv8>): (s: seq<bv8>)
    ensures |s| == 20
  {
    Bytes(Blocks(INITIAL, Padded(msg)))
  }

  // ---- RFC 4648 -----------------------------------------------------------------------------------

  const ALPHABET: string := "ABCDEFGHIJKLMNOPQRSTUVWXYZ" + "abcdefghijklmnopqrstuvwxyz" + "0123456789+/"

  function Letter(x: bv32): char
    requires x < 64
  {
    ALPHABET[x as int]
  }

  // The number three bytes make.
  function Group(a: bv8, b: bv8, c: bv8): bv32 { (a as bv32 << 16) | (b as bv32 << 8) | c as bv32 }

  // Its six bits number k from the left.
  function Sextet(g: bv32, k: bv8): (x: bv32)
    requires k < 4
    ensures x < 64
  {
    if k == 0 then (g >> 18) & 63 else if k == 1 then (g >> 12) & 63 else if k == 2 then (g >> 6) & 63 else g & 63
  }

  function Base64(s: seq<bv8>): string {
    if s == [] then ""
    else if |s| == 1 then
      var g := Group(s[0], 0, 0);
      [Letter(Sextet(g, 0)), Letter(Sextet(g, 1)), '=', '=']
    else if |s| == 2 then
      var g := Group(s[0], s[1], 0);
      [Letter(Sextet(g, 0)), Letter(Sextet(g, 1)), Letter(Sextet(g, 2)), '=']
    else
      var g := Group(s[0], s[1], s[2]);
      [Letter(Sextet(g, 0)), Letter(Sextet(g, 1)), Letter(Sextet(g, 2)), Letter(Sextet(g, 3))] + Base64(s[3..])
  }

  // ---- RFC 6455 -----------------------------------------------------------------------------------

  // "258EAFA5-E914-47DA-95CA-C5AB0DC85B11".
  const GUID: seq<bv8> := [
    0x32, 0x35, 0x38, 0x45, 0x41, 0x46, 0x41, 0x35, 0x2D, 0x45, 0x39, 0x31, 0x34, 0x2D, 0x34, 0x37, 0x44, 0x41,
    0x2D, 0x39, 0x35, 0x43, 0x41, 0x2D, 0x43, 0x35, 0x41, 0x42, 0x30, 0x44, 0x43, 0x38, 0x35, 0x42, 0x31, 0x31]

  // Section 4.2.2, step 5, item 4.
  function Accept(key: seq<bv8>): string { Base64(Digest(key + GUID)) }

  // ---- The two blocks -----------------------------------------------------------------------------

  // The words the program lays out after those of the key.
  const REST: seq<bv32> := [
    0x32353845, 0x41464135, 0x2d453931, 0x342d3437, 0x44412d39, 0x3543412d, 0x43354142, 0x30444338, 0x35423131,
    0x80000000]

  const LAST: seq<bv32> := [0, 0, 0, 0, 0, 0, 0, 0, 0, 0, 0, 0, 0, 0, 0, 480]

  function KeyWords(key: seq<bv8>): (w: seq<bv32>)
    requires |key| == 24
    ensures |w| == 6
  {
    seq(6, i requires 0 <= i < 6 => Word(key[4 * i], key[4 * i + 1], key[4 * i + 2], key[4 * i + 3]))
  }

  lemma GuidQuads()
    ensures Word(0x32, 0x35, 0x38, 0x45) == 0x32353845
            && Word(0x41, 0x46, 0x41, 0x35) == 0x41464135
            && Word(0x2D, 0x45, 0x39, 0x31) == 0x2d453931
            && Word(0x34, 0x2D, 0x34, 0x37) == 0x342d3437
            && Word(0x44, 0x41, 0x2D, 0x39) == 0x44412d39
            && Word(0x35, 0x43, 0x41, 0x2D) == 0x3543412d
            && Word(0x43, 0x35, 0x41, 0x42) == 0x43354142
            && Word(0x30, 0x44, 0x43, 0x38) == 0x30444338
            && Word(0x35, 0x42, 0x31, 0x31) == 0x35423131
  {
  }

  lemma GuidWords(i: nat)
    requires i < 9
    ensures Word(GUID[4 * i], GUID[4 * i + 1], GUID[4 * i + 2], GUID[4 * i + 3]) == REST[i]
  {
    hide Word;
    if i < 3 { GuidFirst(i); } else if i < 6 { GuidSecond(i); } else { GuidThird(i); }
  }

  lemma GuidFirst(i: nat)
    requires i < 3
    ensures Word(GUID[4 * i], GUID[4 * i + 1], GUID[4 * i + 2], GUID[4 * i + 3]) == REST[i]
  {
    hide Word;
    GuidQuads();
  }

  lemma GuidSecond(i: nat)
    requires 3 <= i < 6
    ensures Word(GUID[4 * i], GUID[4 * i + 1], GUID[4 * i + 2], GUID[4 * i + 3]) == REST[i]
  {
    hide Word;
    GuidQuads();
  }

  lemma GuidThird(i: nat)
    requires 6 <= i < 9
    ensures Word(GUID[4 * i], GUID[4 * i + 1], GUID[4 * i + 2], GUID[4 * i + 3]) == REST[i]
  {
    hide Word;
    GuidQuads();
  }

  // The padded message is two blocks of bytes: the key, the GUID and the mark; then nothing but the length.
  lemma PaddedKey(key: seq<bv8>)
    requires |key| == 24
    ensures Padded(key + GUID) == (key + GUID + [0x80, 0, 0, 0]) + (Zeros(56) + [0, 0, 0, 0, 0, 0, 1, 0xE0])
  {
    hide Padded;
    assert |GUID| == 36;
    PaddedSixty(key + GUID);
  }

  lemma PaddedSixty(msg: seq<bv8>)
    requires |msg| == 60
    ensures Padded(msg) == (msg + [0x80, 0, 0, 0]) + (Zeros(56) + [0, 0, 0, 0, 0, 0, 1, 0xE0])
  {
    hide Zeros, Eight;
    EightBytes();
    assert Padded(msg) == msg + [0x80] + Zeros(59) + Eight(480) by { assert (119 - 60) % 64 == 59; }
    ZerosAdd();
    Shift(msg, Zeros(56), Eight(480));
  }

  lemma EightBytes()
    ensures Eight(480) == [0, 0, 0, 0, 0, 0, 1, 0xE0]
  {
    DigitsOf480();
    hide Digit;
    assert 480 / 0x100_0000_0000_0000 == 480 / 0x1_0000_0000_0000 == 480 / 0x100_0000_0000 == 0;
    assert 480 / 0x1_0000_0000 == 480 / 0x100_0000 == 480 / 0x1_0000 == 0 && 480 / 0x100 == 1;
  }

  lemma DigitsOf480()
    ensures Digit(0) == 0 && Digit(1) == 1 && Digit(480) == 0xE0
  {
  }

  lemma Shift(msg: seq<bv8>, z: seq<bv8>, e: seq<bv8>)
    ensures msg + [0x80] + ([0, 0, 0] + z) + e == (msg + [0x80, 0, 0, 0]) + (z + e)
  {
  }

  lemma ZerosAdd()
    ensures Zeros(59) == [0, 0, 0] + Zeros(56)
  {
  }

  lemma FirstWords(key: seq<bv8>)
    requires |key| == 24
    ensures Words(key + GUID + [0x80, 0, 0, 0]) == KeyWords(key) + REST
  {
    var q, w := key + GUID + [0x80, 0, 0, 0], KeyWords(key) + REST;
    assert Word(0x80, 0, 0, 0) == 0x80000000;
    hide Word, KeyWords;
    forall i | 0 <= i < 16 ensures Words(q)[i] == w[i] {
      if i < 6 {
        KeyWord(key, q, i);
      } else if i < 15 {
        GuidWord(q, i);
        assert w[i] == REST[i - 6];
      } else {
        assert w[15] == REST[9] == 0x80000000;
        assert q[60] == 0x80 && q[61] == 0 && q[62] == 0 && q[63] == 0;
      }
    }
  }

  lemma KeyWord(key: seq<bv8>, q: seq<bv8>, i: nat)
    requires |key| == 24 && |q| == 64 && q[..24] == key && i < 6
    ensures Words(q)[i] == KeyWords(key)[i]
  {
    hide Word;
    assert q[..24][4 * i] == q[4 * i] && q[..24][4 * i + 1] == q[4 * i + 1];
    assert q[..24][4 * i + 2] == q[4 * i + 2] && q[..24][4 * i + 3] == q[4 * i + 3];
  }

  lemma GuidWord(q: seq<bv8>, i: nat)
    requires |q| == 64 && q[24..60] == GUID && 6 <= i < 15
    ensures Words(q)[i] == REST[i - 6]
  {
    hide Word;
    GuidWords(i - 6);
    QuadAt(q, GUID, i);
  }

  lemma QuadAt(q: seq<bv8>, g: seq<bv8>, i: nat)
    requires |q| == 64 && q[24..60] == g && 6 <= i < 15
    ensures var j := i - 6;
            Words(q)[i] == Word(g[4 * j], g[4 * j + 1], g[4 * j + 2], g[4 * j + 3])
  {
    hide Word;
  }

  lemma LastWords()
    ensures Words(Zeros(56) + [0, 0, 0, 0, 0, 0, 1, 0xE0]) == LAST
  {
    var r := Zeros(56) + [0, 0, 0, 0, 0, 0, 1, 0xE0];
    assert Word(0, 0, 0, 0) == 0 && Word(0, 0, 1, 0xE0) == 480;
    hide Word;
    forall i | 0 <= i < 16 ensures Words(r)[i] == LAST[i] {
      if i < 14 { assert r[4 * i] == r[4 * i + 1] == r[4 * i + 2] == r[4 * i + 3] == 0; }
    }
  }

  lemma AcceptIs(key: seq<bv8>)
    requires |key| == 24
    ensures Accept(key) == Base64(Bytes(Compress(Compress(INITIAL, KeyWords(key) + REST), LAST)))
  {
    hide Padded, Words, Bytes, Base64, Compress;
    PaddedKey(key);
    FirstWords(key);
    LastWords();
    var p := Padded(key + GUID);
    assert p[..64] == key + GUID + [0x80, 0, 0, 0] && p[64..] == Zeros(56) + [0, 0, 0, 0, 0, 0, 1, 0xE0];
    var h := Compress(INITIAL, Words(p[..64]));
    assert Blocks(INITIAL, p) == Blocks(h, p[64..]);
    assert p[64..][..64] == p[64..] && p[64..][64..] == [];
    assert Blocks(h, p[64..]) == Blocks(Compress(h, Words(p[64..])), []);
  }

  // ---- The program ------------------------------------------------------------------------------

  // What the program makes of a string of any length: 24 bytes, cut there or at a NUL and filled with NULs.
  function Input(key: seq<bv8>): (s: seq<bv8>)
    ensures |s| == 24
    ensures |key| == 24 && 0 !in key ==> s == key
  {
    var n := Cut(key, 0);
    key[..n] + Zeros(24 - n)
  }

  // The length up to a NUL or 24 bytes, from i on.
  function Cut(key: seq<bv8>, i: nat): (n: nat)
    requires i <= |key| && i <= 24
    ensures i <= n <= |key| && n <= 24 && (|key| == 24 && 0 !in key ==> n == 24)
    decreases |key| - i
  {
    if i == 24 || i == |key| || key[i] == 0 then i else Cut(key, i + 1)
  }

  // Copy up to 24 bytes, up to a NUL, and fill with NULs.
  method CopyKey(key: seq<bv8>, input: array<bv8>)
    requires input.Length == 25
    modifies input
    ensures input[..24] == Input(key)
  {
    var i := 0;
    while i < 24 && i < |key| && key[i] != 0
      invariant 0 <= i <= |key| && i <= 24 && Cut(key, i) == Cut(key, 0)
      invariant input[..i] == key[..i]
    {
      input[i] := key[i];
      i := i + 1;
    }
    var n := i;
    while i < 24
      invariant n <= i <= 24
      invariant input[..i] == key[..n] + Zeros(i - n)
    {
      input[i] := 0;
      i := i + 1;
      assert Zeros(i - n) == Zeros(i - 1 - n) + [0];
    }
    input[24] := 0;
  }

  // The program's four indices of three bytes.
  function Index0(a: bv8): (x: bv32) ensures x < 64 { ((a >> 2) & 63) as bv32 }
  function Index1(a: bv8, b: bv8): (x: bv32) ensures x < 64 { (((a & 3) << 4) | ((b & 240) >> 4)) as bv32 }
  function Index2(b: bv8, c: bv8): (x: bv32) ensures x < 64 { (((b & 15) << 2) | ((c & 192) >> 6)) as bv32 }
  function Index3(c: bv8): (x: bv32) ensures x < 64 { (c & 63) as bv32 }

  // The four letters the program makes of them.
  function Quad(a: bv8, b: bv8, c: bv8): (q: seq<char>)
    ensures |q| == 4
  {
    [Letter(Index0(a)), Letter(Index1(a, b)), Letter(Index2(b, c)), Letter(Index3(c))]
  }

  lemma SextetsOfThree(a: bv8, b: bv8, c: bv8)
    ensures var g := Group(a, b, c);
            && Index0(a) == Sextet(g, 0) && Index1(a, b) == Sextet(g, 1)
            && Index2(b, c) == Sextet(g, 2) && Index3(c) == Sextet(g, 3)
  {
  }

  lemma QuadIs(a: bv8, b: bv8, c: bv8)
    ensures var g := Group(a, b, c);
            Quad(a, b, c) == [Letter(Sextet(g, 0)), Letter(Sextet(g, 1)), Letter(Sextet(g, 2)), Letter(Sextet(g, 3))]
  {
    hide Sextet, Group, Letter, Index0, Index1, Index2, Index3;
    SextetsOfThree(a, b, c);
  }

  lemma ThreeBytes(s: seq<bv8>, i: nat)
    requires i + 3 <= |s|
    ensures Base64(s[i..]) == Quad(s[i], s[i + 1], s[i + 2]) + Base64(s[i + 3..])
  {
    hide Quad, Sextet, Group, Letter;
    QuadIs(s[i], s[i + 1], s[i + 2]);
    assert s[i..][3..] == s[i + 3..];
  }

  // Two bytes left: the last letter gives way to a mark.
  lemma TwoBytes(s: seq<bv8>, i: nat)
    requires i + 2 == |s|
    ensures Base64(s[i..]) == Quad(s[i], s[i + 1], 0)[..3] + ['=']
  {
    hide Quad, Sextet, Group, Letter;
    QuadIs(s[i], s[i + 1], 0);
  }

  // One group of three.
  method StoreQuad(src: array<bv8>, i: nat, dst: array<char>, d: nat)
    requires src.Length == 20 && dst.Length == 28 && i + 3 <= 20 && d + 4 <= 28
    modifies dst
    ensures dst[..d + 4] == old(dst[..d]) + Quad(src[i], src[i + 1], src[i + 2])
  {
    hide Letter, Index0, Index1, Index2, Index3;
    ghost var before := dst[..d];
    dst[d] := Letter(Index0(src[i]));
    dst[d + 1] := Letter(Index1(src[i], src[i + 1]));
    dst[d + 2] := Letter(Index2(src[i + 1], src[i + 2]));
    dst[d + 3] := Letter(Index3(src[i + 2]));
    assert dst[d..d + 4] == Quad(src[i], src[i + 1], src[i + 2]);
    assert dst[..d + 4] == before + dst[d..d + 4];
  }

  // The two bytes left over, and a mark.
  method StoreRest(src: array<bv8>, dst: array<char>)
    requires src.Length == 20 && dst.Length == 28
    modifies dst
    ensures dst[..] == old(dst[..24]) + (Quad(src[18], src[19], 0)[..3] + ['='])
  {
    hide Letter, Index0, Index1, Index2;
    ghost var before := dst[..24];
    dst[24] := Letter(Index0(src[18]));
    dst[25] := Letter(Index1(src[18], src[19]));
    NoThird(src[19]);
    dst[26] := Letter(((src[19] & 15) << 2) as bv32);
    dst[27] := '=';
    assert dst[..] == before + [dst[24], dst[25], dst[26], dst[27]];
  }

  // Twenty bytes: six groups of three, and two left over.
  method EncodeBase64(src: array<bv8>, dst: array<char>)
    requires src.Length == 20 && dst.Length == 28
    modifies dst
    ensures dst[..] == Base64(src[..])
  {
    hide Base64, Quad;
    var d := 0;
    var i := 0;
    while i < 18
      invariant 0 <= i <= 18 && i % 3 == 0 && 3 * d == 4 * i
      invariant dst[..d] + Base64(src[..][i..]) == Base64(src[..])
    {
      ThreeBytes(src[..], i);
      StoreQuad(src, i, dst, d);
      d := d + 4;
      i := i + 3;
    }
    TwoBytes(src[..], 18);
    StoreRest(src, dst);
  }

  lemma NoThird(b: bv8)
    ensures Index2(b, 0) == ((b & 15) << 2) as bv32
  {
  }

  // Lay a word out most significant byte first.
  method StoreWord(w: bv32, bytes: array<bv8>, at: nat)
    requires at + 4 <= bytes.Length
    modifies bytes
    ensures bytes[..at + 4] == old(bytes[..at]) + WordBytes(w)
  {
    bytes[at + 3] := (w & 0xFF) as bv8;
    bytes[at + 2] := ((w >> 8) & 0xFF) as bv8;
    bytes[at + 1] := ((w >> 16) & 0xFF) as bv8;
    bytes[at] := ((w >> 24) & 0xFF) as bv8;
  }

  // The first block, before the key is known and after.
  method LayOut(input: array<bv8>) returns (b: array<bv32>)
    requires input.Length == 25
    ensures fresh(b) && b.Length == 16 && b[..] == KeyWords(input[..24]) + REST
  {
    hide Word;
    b := new bv32[] [
      0, 0, 0, 0, 0, 0, 0x32353845, 0x41464135, 0x2d453931, 0x342d3437, 0x44412d39, 0x3543412d, 0x43354142, 0x30444338,
      0x35423131, 0x80000000];
    ghost var rest := REST;
    assert b[6..] == rest;
    FillKey(input, b, rest);
  }

  method FillKey(input: array<bv8>, b: array<bv32>, ghost rest: seq<bv32>)
    requires input.Length == 25 && b.Length == 16 && b[6..] == rest
    modifies b
    ensures b[..] == KeyWords(input[..24]) + rest
  {
    hide Word;
    for i := 0 to 6
      invariant b[..i] == KeyWords(input[..24])[..i] && b[6..] == rest
    {
      ghost var before := b[..];
      b[i] := Word(input[4 * i], input[4 * i + 1], input[4 * i + 2], input[4 * i + 3]);
      assert b[6..] == before[6..];
    }
    assert b[..] == b[..6] + b[6..];
  }

  method StoreHash(h: array<bv32>) returns (bytes: array<bv8>)
    requires h.Length == 5
    ensures fresh(bytes) && bytes.Length == 20 && bytes[..] == Bytes(h[..])
  {
    hide WordBytes;
    bytes := new bv8[20];
    StoreWord(h[0], bytes, 0);
    StoreWord(h[1], bytes, 4);
    StoreWord(h[2], bytes, 8);
    StoreWord(h[3], bytes, 12);
    StoreWord(h[4], bytes, 16);
    assert bytes[..] == bytes[..20];
  }

  // The accept value of a key.
  method Generate(inputStr: seq<bv8>, output: array<char>)
    requires output.Length == 28
    modifies output
    ensures output[..] == Accept(Input(inputStr))
    ensures |inputStr| == 24 && 0 !in inputStr ==> output[..] == Accept(inputStr)
  {
    hide Compress, Bytes, KeyWords, Base64, Accept;
    var input := new bv8[25](_ => 0);
    CopyKey(inputStr, input);
    ghost var key := input[..24];
    var bOutput := new bv32[] [0x67452301, 0xefcdab89, 0x98badcfe, 0x10325476, 0xc3d2e1f0];
    assert bOutput[..] == INITIAL;
    var bInput := LayOut(input);
    Sha1(bOutput, bInput);
    var lastB := new bv32[] [0, 0, 0, 0, 0, 0, 0, 0, 0, 0, 0, 0, 0, 0, 0, 480];
    assert lastB[..] == LAST;
    Sha1(bOutput, lastB);
    var bytes := StoreHash(bOutput);
    EncodeBase64(bytes, output);
    AcceptIs(key);
  }
}
