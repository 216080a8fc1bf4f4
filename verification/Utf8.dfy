/**
  * The table-driven UTF-8 validator: it accepts exactly the encodings of section 4 of RFC 3629, and decodes
  * the code points they encode.
  */
module Utf8 {
  import opened Bitwise
  import opened Machine

  const ACCEPT := 0
  const REJECT := 1

  // Sixteen entries a row: the type of each byte, then the next state for each state and type.
  const TABLE: seq<seq<nat>> := [
    [0, 0, 0, 0, 0, 0, 0, 0, 0, 0, 0, 0, 0, 0, 0, 0],
    [0, 0, 0, 0, 0, 0, 0, 0, 0, 0, 0, 0, 0, 0, 0, 0],
    [0, 0, 0, 0, 0, 0, 0, 0, 0, 0, 0, 0, 0, 0, 0, 0],
    [0, 0, 0, 0, 0, 0, 0, 0, 0, 0, 0, 0, 0, 0, 0, 0],
    [0, 0, 0, 0, 0, 0, 0, 0, 0, 0, 0, 0, 0, 0, 0, 0],
    [0, 0, 0, 0, 0, 0, 0, 0, 0, 0, 0, 0, 0, 0, 0, 0],
    [0, 0, 0, 0, 0, 0, 0, 0, 0, 0, 0, 0, 0, 0, 0, 0],
    [0, 0, 0, 0, 0, 0, 0, 0, 0, 0, 0, 0, 0, 0, 0, 0],
    [1, 1, 1, 1, 1, 1, 1, 1, 1, 1, 1, 1, 1, 1, 1, 1],
    [9, 9, 9, 9, 9, 9, 9, 9, 9, 9, 9, 9, 9, 9, 9, 9],
    [7, 7, 7, 7, 7, 7, 7, 7, 7, 7, 7, 7, 7, 7, 7, 7],
    [7, 7, 7, 7, 7, 7, 7, 7, 7, 7, 7, 7, 7, 7, 7, 7],
    [8, 8, 2, 2, 2, 2, 2, 2, 2, 2, 2, 2, 2, 2, 2, 2],
    [2, 2, 2, 2, 2, 2, 2, 2, 2, 2, 2, 2, 2, 2, 2, 2],
    [10, 3, 3, 3, 3, 3, 3, 3, 3, 3, 3, 3, 3, 4, 3, 3],
    [11, 6, 6, 6, 5, 8, 8, 8, 8, 8, 8, 8, 8, 8, 8, 8],
    [0, 1, 2, 3, 5, 8, 7, 1, 1, 1, 4, 6, 1, 1, 1, 1],
    [1, 1, 1, 1, 1, 1, 1, 1, 1, 1, 1, 1, 1, 1, 1, 1],
    [1, 0, 1, 1, 1, 1, 1, 0, 1, 0, 1, 1, 1, 1, 1, 1],
    [1, 2, 1, 1, 1, 1, 1, 2, 1, 2, 1, 1, 1, 1, 1, 1],
    [1, 1, 1, 1, 1, 1, 1, 2, 1, 1, 1, 1, 1, 1, 1, 1],
    [1, 2, 1, 1, 1, 1, 1, 1, 1, 2, 1, 1, 1, 1, 1, 1],
    [1, 1, 1, 1, 1, 1, 1, 3, 1, 3, 1, 1, 1, 1, 1, 1],
    [1, 3, 1, 1, 1, 1, 1, 3, 1, 3, 1, 1, 1, 1, 1, 1],
    [1, 3, 1, 1, 1, 1, 1, 1, 1, 1, 1, 1, 1, 1, 1, 1]]

  function Entry(i: nat): nat
    requires i < 400
  {
    TABLE[i / 16][i % 16]
  }

  type State = s: nat | s <= 8

  // ---- What the table says ------------------------------------------------------------------------

  // The type of a byte, by the ranges of section 4 of RFC 3629.
  function Type(b: Byte): nat {
    if b <= 0x7F then 0
    else if b <= 0x8F then 1
    else if b <= 0x9F then 9
    else if b <= 0xBF then 7
    else if b <= 0xC1 then 8
    else if b <= 0xDF then 2
    else if b == 0xE0 then 10
    else if b == 0xED then 4
    else if b <= 0xEF then 3
    else if b == 0xF0 then 11
    else if b <= 0xF3 then 6
    else if b == 0xF4 then 5
    else 8
  }

  // The state after a byte: how many tail bytes are missing, and in which range the first must be.
  function Next(s: State, b: Byte): State {
    if s == 0 then
      if b <= 0x7F then 0
      else if 0xC2 <= b <= 0xDF then 2
      else if b == 0xE0 then 4
      else if b == 0xED then 5
      else if 0xE1 <= b <= 0xEF then 3
      else if b == 0xF0 then 6
      else if 0xF1 <= b <= 0xF3 then 7
      else if b == 0xF4 then 8
      else REJECT
    else if s == 2 && 0x80 <= b <= 0xBF then ACCEPT
    else if (s == 3 && 0x80 <= b <= 0xBF) || (s == 4 && 0xA0 <= b <= 0xBF) || (s == 5 && 0x80 <= b <= 0x9F) then 2
    else if (s == 6 && 0x90 <= b <= 0xBF) || (s == 7 && 0x80 <= b <= 0xBF) || (s == 8 && 0x80 <= b <= 0x8F) then 3
    else REJECT
  }

  lemma TypesRow(b: Byte)
    ensures Entry(b) == Type(b)
  {
    if b < 128 {
      assert b / 16 < 8;
    } else {
      TailRows(b / 16, b % 16);
      assert b == 16 * (b / 16) + b % 16;
    }
  }

  lemma TailRows(r: nat, c: nat)
    requires 8 <= r < 16 && c < 16
    ensures TABLE[r][c] == Type(16 * r + c)
  {
  }

  lemma StatesRow(s: State, b: Byte)
    ensures Type(b) < 16 && Entry(256 + s * 16 + Type(b)) == Next(s, b)
  {
    var t := Type(b);
    assert (256 + s * 16 + t) / 16 == 16 + s && (256 + s * 16 + t) % 16 == t;
  }

  // The code point collected so far.
  function Collect(s: State, cp: nat, b: Byte): nat {
    if s != ACCEPT then b % 64 + 64 * (cp % 0x400_0000)
    else b % Pow2(if Type(b) <= 8 then 8 - Type(b) else 0)
  }

  // ---- The code points --------------------------------------------------------------------------

  predicate Scalar(c: int) { 0 <= c < 0xD800 || 0xE000 <= c < 0x11_0000 }

  // The encoding of a code point, by section 3 of RFC 3629.
  function Encode(c: int): (s: seq<Byte>)
    requires Scalar(c)
    ensures 1 <= |s| <= 4
  {
    if c < 0x80 then [c]
    else if c < 0x800 then [0xC0 + c / 64, 0x80 + c % 64]
    else if c < 0x1_0000 then [0xE0 + c / 4096, 0x80 + c / 64 % 64, 0x80 + c % 64]
    else [0xF0 + c / 262144, 0x80 + c / 4096 % 64, 0x80 + c / 64 % 64, 0x80 + c % 64]
  }

  predicate Scalars(cs: seq<int>) {
    forall i :: 0 <= i < |cs| ==> Scalar(cs[i])
  }

  function EncodeAll(cs: seq<int>): seq<Byte>
    requires Scalars(cs)
  {
    if cs == [] then [] else Encode(cs[0]) + EncodeAll(cs[1..])
  }

  // ---- Runs of the automaton --------------------------------------------------------------------

  function Run(s: State, bytes: seq<Byte>): State
    decreases |bytes|
  {
    if bytes == [] then s else Run(Next(s, bytes[0]), bytes[1..])
  }

  // What the code point register held each time a run was back in the accepting state.
  function Decoded(s: State, cp: nat, bytes: seq<Byte>): seq<int>
    decreases |bytes|
  {
    if bytes == [] then []
    else
      var t, c := Next(s, bytes[0]), Collect(s, cp, bytes[0]);
      (if t == ACCEPT then [c] else []) + Decoded(t, c, bytes[1..])
  }

  lemma {:induction false} RejectStays(bytes: seq<Byte>)
    ensures Run(REJECT, bytes) == REJECT
    decreases |bytes|
  {
    if bytes != [] { RejectStays(bytes[1..]); }
  }

  // One step of a run.
  lemma Step(s: State, cp: nat, b: Byte, rest: seq<Byte>)
    ensures var t, c := Next(s, b), Collect(s, cp, b);
            Run(s, [b] + rest) == Run(t, rest)
              && Decoded(s, cp, [b] + rest) == (if t == ACCEPT then [c] else []) + Decoded(t, c, rest)
  {
    assert ([b] + rest)[1..] == rest;
  }

  // The first byte of an encoding brings the high bits of its code point, and the tail bytes six more each.
  lemma CollectFirst(c: int, cp: nat)
    requires Scalar(c)
    ensures Collect(ACCEPT, cp, Encode(c)[0])
            == (match |Encode(c)| case 1 => c case 2 => c / 64 case 3 => c / 4096 case _ => c / 262144)
  {
    assert Pow2(0) == 1 && Pow2(2) == 4 && Pow2(3) == 8 && Pow2(4) == 16 && Pow2(5) == 32 && Pow2(6) == 64
           && Pow2(8) == 256;
  }

  lemma CollectTail(s: State, cp: nat, x: nat)
    requires s != ACCEPT && x < 64 && cp < 0x400_0000
    ensures Collect(s, cp, 0x80 + x) == 64 * cp + x
  {
  }

  // One encoded character takes the automaton from the accepting state back to it, with its code point in
  // the register, and not through the accepting state in between.
  lemma RunEncoded(c: int, cp: nat, rest: seq<Byte>)
    requires Scalar(c)
    ensures Run(ACCEPT, Encode(c) + rest) == Run(ACCEPT, rest)
    ensures Decoded(ACCEPT, cp, Encode(c) + rest) == [c] + Decoded(ACCEPT, c, rest)
  {
    if c < 0x80 {
      CollectFirst(c, cp);
      Step(ACCEPT, cp, c, rest);
    } else if c < 0x800 {
      RunTwo(c, cp, rest);
    } else if c < 0x1_0000 {
      RunThree(c, cp, rest);
    } else {
      RunFour(c, cp, rest);
    }
  }

  lemma RunTwo(c: int, cp: nat, rest: seq<Byte>)
    requires 0x80 <= c < 0x800
    ensures Run(ACCEPT, Encode(c) + rest) == Run(ACCEPT, rest)
    ensures Decoded(ACCEPT, cp, Encode(c) + rest) == [c] + Decoded(ACCEPT, c, rest)
  {
    hide Collect, Run, Decoded;
    var e := Encode(c);
    assert e + rest == [e[0]] + ([e[1]] + rest);
    CollectFirst(c, cp);
    Step(ACCEPT, cp, e[0], [e[1]] + rest);
    CollectTail(2, c / 64, c % 64);
    Step(2, c / 64, e[1], rest);
  }

  lemma StatesThree(c: int)
    requires Scalar(c) && 0x800 <= c < 0x1_0000
    ensures var e := Encode(c);
            3 <= Next(ACCEPT, e[0]) <= 5 && Next(Next(ACCEPT, e[0]), e[1]) == 2 && Next(2, e[2]) == ACCEPT
  {
  }

  lemma RunThree(c: int, cp: nat, rest: seq<Byte>)
    requires Scalar(c) && 0x800 <= c < 0x1_0000
    ensures Run(ACCEPT, Encode(c) + rest) == Run(ACCEPT, rest)
    ensures Decoded(ACCEPT, cp, Encode(c) + rest) == [c] + Decoded(ACCEPT, c, rest)
  {
    hide Collect, Run, Decoded, Next, Type;
    var e := Encode(c);
    assert e + rest == [e[0]] + ([e[1]] + ([e[2]] + rest));
    CollectFirst(c, cp);
    StatesThree(c);
    var s1 := Next(ACCEPT, e[0]);
    Step(ACCEPT, cp, e[0], [e[1]] + ([e[2]] + rest));
    CollectTail(s1, c / 4096, c / 64 % 64);
    Step(s1, c / 4096, e[1], [e[2]] + rest);
    CollectTail(2, c / 64, c % 64);
    Step(2, c / 64, e[2], rest);
  }

  lemma StatesFour(c: int)
    requires 0x1_0000 <= c < 0x11_0000
    ensures var e := Encode(c);
            Next(ACCEPT, e[0]) >= 6 && Next(Next(ACCEPT, e[0]), e[1]) == 3 && Next(3, e[2]) == 2
              && Next(2, e[3]) == ACCEPT
  {
  }

  lemma RunFour(c: int, cp: nat, rest: seq<Byte>)
    requires 0x1_0000 <= c < 0x11_0000
    ensures Run(ACCEPT, Encode(c) + rest) == Run(ACCEPT, rest)
    ensures Decoded(ACCEPT, cp, Encode(c) + rest) == [c] + Decoded(ACCEPT, c, rest)
  {
    hide Collect, Run, Decoded, Next, Type;
    var e := Encode(c);
    assert e + rest == [e[0]] + ([e[1]] + ([e[2]] + ([e[3]] + rest)));
    CollectFirst(c, cp);
    StatesFour(c);
    var s1 := Next(ACCEPT, e[0]);
    Step(ACCEPT, cp, e[0], [e[1]] + ([e[2]] + ([e[3]] + rest)));
    CollectTail(s1, c / 262144, c / 4096 % 64);
    Step(s1, c / 262144, e[1], [e[2]] + ([e[3]] + rest));
    CollectTail(3, c / 4096, c / 64 % 64);
    Step(3, c / 4096, e[2], [e[3]] + rest);
    CollectTail(2, c / 64, c % 64);
    Step(2, c / 64, e[3], rest);
  }

  // A run that accepts from some other state has a byte to go on with.
  lemma GoesOn(s: State, bytes: seq<Byte>)
    requires s != ACCEPT && Run(s, bytes) == ACCEPT
    ensures bytes != [] && Next(s, bytes[0]) != REJECT && Run(Next(s, bytes[0]), bytes[1..]) == ACCEPT
  {
    if bytes != [] { RejectStays(bytes[1..]); }
  }

  // The code point that bytes the automaton lets through encode.
  lemma HeadTwo(b0: Byte, b1: Byte) returns (c: int)
    requires Next(Next(ACCEPT, b0), b1) == ACCEPT && Next(ACCEPT, b0) == 2
    ensures Scalar(c) && Encode(c) == [b0, b1]
  {
    var x, y: int := b0 - 0xC0, b1 - 0x80;
    c := x * 64 + y;
    assert c / 64 == x && c % 64 == y;
  }

  lemma HeadThree(b0: Byte, b1: Byte, b2: Byte) returns (c: int)
    requires 3 <= Next(ACCEPT, b0) <= 5 && Next(Next(ACCEPT, b0), b1) == 2 && Next(2, b2) == ACCEPT
    ensures Scalar(c) && Encode(c) == [b0, b1, b2]
  {
    var x, y, z: int := b0 - 0xE0, b1 - 0x80, b2 - 0x80;
    c := x * 4096 + y * 64 + z;
    assert c / 4096 == x && c / 64 % 64 == y && c % 64 == z;
  }

  lemma HeadFour(b0: Byte, b1: Byte, b2: Byte, b3: Byte) returns (c: int)
    requires Next(ACCEPT, b0) >= 6 && Next(Next(ACCEPT, b0), b1) == 3 && Next(3, b2) == 2 && Next(2, b3) == ACCEPT
    ensures Scalar(c) && Encode(c) == [b0, b1, b2, b3]
  {
    var x, y, z, w: int := b0 - 0xF0, b1 - 0x80, b2 - 0x80, b3 - 0x80;
    var h := x * 64 + y;
    var i := h * 64 + z;
    c := i * 64 + w;
    assert 0x10 <= h <= 0x10F;
    assert c / 64 == i && c % 64 == w && i / 64 == h && i % 64 == z && h / 64 == x && h % 64 == y;
    Thirds(c);
  }

  lemma Thirds(c: nat)
    ensures c / 4096 == c / 64 / 64 && c / 262144 == c / 64 / 64 / 64
  {
  }

  // If the automaton accepts, its first bytes encode a character.
  lemma AcceptedHead(bytes: seq<Byte>) returns (c: int)
    requires bytes != [] && Run(ACCEPT, bytes) == ACCEPT
    ensures Scalar(c) && |Encode(c)| <= |bytes| && bytes[..|Encode(c)|] == Encode(c)
  {
    hide Encode, Run;
    var s1 := Next(ACCEPT, bytes[0]);
    var rest := bytes[1..];
    Step(ACCEPT, 0, bytes[0], rest);
    assert bytes == [bytes[0]] + rest;
    if s1 == ACCEPT {
      c := bytes[0];
      HeadOne(bytes[0]);
    } else {
      RejectStays(rest);
      GoesOn(s1, rest);
      var s2 := Next(s1, rest[0]);
      if s1 == 2 {
        c := HeadTwo(bytes[0], rest[0]);
      } else {
        GoesOn(s2, rest[1..]);
        var s3 := Next(s2, rest[1..][0]);
        if s1 <= 5 {
          c := HeadThree(bytes[0], bytes[1], bytes[2]);
        } else {
          GoesOn(s3, rest[1..][1..]);
          c := HeadFour(bytes[0], bytes[1], bytes[2], bytes[3]);
        }
      }
    }
  }

  lemma HeadOne(b0: Byte)
    requires b0 <= 0x7F
    ensures Scalar(b0) && Encode(b0) == [b0]
  {
  }

  // The automaton accepts every sequence of encoded characters, and decodes them.
  lemma {:induction false} EncodedAccepted(cs: seq<int>, cp: nat)
    requires Scalars(cs)
    ensures Run(ACCEPT, EncodeAll(cs)) == ACCEPT && Decoded(ACCEPT, cp, EncodeAll(cs)) == cs
    decreases |cs|
  {
    if cs != [] {
      RunEncoded(cs[0], cp, EncodeAll(cs[1..]));
      EncodedAccepted(cs[1..], cs[0]);
    }
  }

  // And nothing else.
  lemma {:induction false} AcceptedEncoded(bytes: seq<Byte>) returns (cs: seq<int>)
    requires Run(ACCEPT, bytes) == ACCEPT
    ensures Scalars(cs) && bytes == EncodeAll(cs)
    decreases |bytes|
  {
    if bytes == [] {
      cs := [];
    } else {
      var c := AcceptedHead(bytes);
      var rest := bytes[|Encode(c)|..];
      assert bytes == Encode(c) + rest;
      RunEncoded(c, 0, rest);
      var more := AcceptedEncoded(rest);
      cs := [c] + more;
      assert cs[1..] == more;
    }
  }

  // These bytes are UTF-8.
  ghost predicate WellFormed(bytes: seq<Byte>) {
    exists cs: seq<int> :: Scalars(cs) && bytes == EncodeAll(cs)
  }

  // The automaton accepts exactly UTF-8; and the code points it then shows are the only ones the bytes encode.
  lemma AcceptsUtf8(bytes: seq<Byte>, cp: nat)
    ensures Run(ACCEPT, bytes) == ACCEPT <==> WellFormed(bytes)
    ensures forall cs: seq<int> :: Scalars(cs) && bytes == EncodeAll(cs) ==> cs == Decoded(ACCEPT, cp, bytes)
  {
    if Run(ACCEPT, bytes) == ACCEPT {
      var cs := AcceptedEncoded(bytes);
    }
    forall cs: seq<int> | Scalars(cs) && bytes == EncodeAll(cs)
      ensures Run(ACCEPT, bytes) == ACCEPT && cs == Decoded(ACCEPT, cp, bytes)
    {
      EncodedAccepted(cs, cp);
    }
  }

  // What the code point register holds after a run.
  function Register(s: State, cp: nat, bytes: seq<Byte>): nat
    decreases |bytes|
  {
    if bytes == [] then cp else Register(Next(s, bytes[0]), Collect(s, cp, bytes[0]), bytes[1..])
  }

  // In the accepting state it holds the last code point decoded.
  lemma {:induction false} RegisterIsLast(s: State, cp: nat, bytes: seq<Byte>)
    requires bytes != [] && Run(s, bytes) == ACCEPT
    ensures var d := Decoded(s, cp, bytes); d != [] && d[|d| - 1] == Register(s, cp, bytes)
    decreases |bytes|
  {
    if |bytes| > 1 { RegisterIsLast(Next(s, bytes[0]), Collect(s, cp, bytes[0]), bytes[1..]); }
  }

  // The same for any way of cutting the bytes.
  lemma {:induction false} RunAppend(s: State, a: seq<Byte>, b: seq<Byte>)
    ensures Run(s, a + b) == Run(Run(s, a), b)
    ensures forall cp :: Register(s, cp, a + b) == Register(Run(s, a), Register(s, cp, a), b)
    decreases |a|
  {
    if a == [] {
      assert a + b == b;
    } else {
      assert (a + b)[1..] == a[1..] + b;
      RunAppend(Next(s, a[0]), a[1..], b);
    }
  }

  // These bytes are the beginning of UTF-8.
  ghost predicate Beginning(bytes: seq<Byte>) {
    exists more: seq<Byte> :: WellFormed(bytes + more)
  }

  // Bytes that bring the automaton back from any state but rejection.
  function Missing(s: State): seq<Byte> {
    if s == ACCEPT then [] else if s == 2 then [0x80] else if s == 4 then [0xA0, 0x80]
    else if s == 3 || s == 5 then [0x80, 0x80] else if s == 6 then [0x90, 0x80, 0x80] else [0x80, 0x80, 0x80]
  }

  lemma MissingAccepts(s: State)
    requires s != REJECT
    ensures Run(s, Missing(s)) == ACCEPT
  {
    var m := Missing(s);
    if m != [] {
      var s1 := Next(s, m[0]);
      assert m[1..] == Missing(s1);
      MissingAccepts(s1);
    }
  }

  // The automaton rejects as soon as the bytes can no longer become UTF-8, and no sooner.
  lemma RejectsAtOnce(bytes: seq<Byte>)
    ensures Run(ACCEPT, bytes) != REJECT <==> Beginning(bytes)
  {
    var s := Run(ACCEPT, bytes);
    if s != REJECT {
      MissingAccepts(s);
      RunAppend(ACCEPT, bytes, Missing(s));
      AcceptsUtf8(bytes + Missing(s), 0);
    } else {
      forall more: seq<Byte> ensures !WellFormed(bytes + more) {
        RunAppend(ACCEPT, bytes, more);
        RejectStays(more);
        AcceptsUtf8(bytes + more, 0);
      }
    }
  }

  // ---- The validator ----------------------------------------------------------------------------

  // Decode one byte, as the table has it.
  method DecodeNextByte(s: State, codep: nat, b: Byte) returns (t: State, c: nat)
    requires codep < TWO_32
    ensures t == Next(s, b) && c == Collect(s, codep, b) < TWO_32
  {
    hide Entry, Type, Next, Collect, BitOr, BitAnd;
    var ty := Entry(b);
    TypesRow(b);
    StatesRow(s, b);
    if s != ACCEPT {
      c := BitOr(BitAnd(b, 0x3F), codep * 64 % TWO_32);
      TailBits(s, b, codep);
    } else {
      c := BitAnd(0xFF / Pow2(ty), b);
      FirstBits(codep, b, ty);
    }
    t := Entry(256 + s * 16 + ty);
  }

  lemma TailBits(s: State, b: Byte, codep: nat)
    requires s != ACCEPT && codep < TWO_32
    ensures BitOr(BitAnd(b, 0x3F), codep * 64 % TWO_32) == Collect(s, codep, b) < TWO_32
  {
    assert Pow2(6) == 64;
    AndMask(b, 6);
    var h := codep % 0x400_0000;
    assert codep * 64 % TWO_32 == h * 64;
    OrDisjoint(b % 64, h, 6);
  }

  lemma FirstBits(codep: nat, b: Byte, ty: nat)
    requires ty == Type(b)
    ensures BitAnd(0xFF / Pow2(ty), b) == Collect(ACCEPT, codep, b) < 256
  {
    var n := if ty <= 8 then 8 - ty else 0;
    assert Pow2(0) == 1 && Pow2(2) == 4 && Pow2(3) == 8 && Pow2(4) == 16 && Pow2(5) == 32 && Pow2(6) == 64;
    assert Pow2(7) == 128 && Pow2(8) == 256 && Pow2(9) == 512 && Pow2(10) == 1024 && Pow2(11) == 2048 && Pow2(1) == 2;
    assert 0xFF / Pow2(ty) == Pow2(n) - 1;
    AndMask(b, n);
    AndSwap(Pow2(n) - 1, b);
  }

  lemma {:induction false} AndSwap(a: nat, b: nat)
    ensures BitAnd(a, b) == BitAnd(b, a)
    decreases a + b
  {
    if a + b > 0 { AndSwap(a / 2, b / 2); }
  }

  lemma StaysRejected(bytes: seq<Byte>, more: seq<Byte>, n: nat)
    requires n <= |more| && Run(ACCEPT, bytes + more[..n]) == REJECT
    ensures Run(ACCEPT, bytes + more) == REJECT
  {
    hide Run;
    RunAppend(ACCEPT, bytes + more[..n], more[n..]);
    RejectStays(more[n..]);
    assert (bytes + more[..n]) + more[n..] == bytes + more;
  }

  class Utf8Validator {
    var s: State
    var codepoint: nat

    // The bytes since the last reset.
    ghost var bytes: seq<Byte>

    ghost predicate Valid()
      reads this
    {
      s == Run(ACCEPT, bytes) && codepoint == Register(ACCEPT, 0, bytes) < TWO_32
    }

    constructor ()
      ensures Valid() && bytes == []
    {
      s, codepoint, bytes := ACCEPT, 0, [];
    }

    // False when the bytes so far are no beginning of UTF-8.
    method Consume(b: Byte) returns (ok: bool)
      requires Valid()
      modifies this
      ensures Valid() && bytes == old(bytes) + [b] && ok == (s != REJECT)
      ensures ok <==> Beginning(bytes)
    {
      RejectsAtOnce(bytes + [b]);
      RunAppend(ACCEPT, bytes, [b]);
      Step(s, 0, b, []);
      assert [b] + [] == [b];
      assert Register(s, codepoint, [b]) == Collect(s, codepoint, b) by { assert [b][1..] == []; }
      s, codepoint := DecodeNextByte(s, codepoint, b);
      bytes := bytes + [b];
      ok := s != REJECT;
    }

    // Stops at the first byte that cannot be.
    method Decode(more: seq<Byte>) returns (ok: bool)
      requires Valid()
      modifies this
      ensures Valid() && ok == (more == [] || Beginning(old(bytes) + more))
      ensures ok ==> bytes == old(bytes) + more
    {
      hide Run, Beginning;
      RejectsAtOnce(bytes + more);
      for i := 0 to |more|
        invariant Valid() && bytes == old(bytes) + more[..i] && (i > 0 ==> s != REJECT)
      {
        assert more[..i + 1] == more[..i] + [more[i]];
        var next := Consume(more[i]);
        if !next {
          assert bytes == old(bytes) + more[..i + 1];
          StaysRejected(old(bytes), more, i + 1);
          return false;
        }
      }
      assert more[..|more|] == more;
      return true;
    }

    // The bytes so far are UTF-8, and the register holds the last of their code points.
    method Complete() returns (done: bool)
      requires Valid()
      ensures done <==> WellFormed(bytes)
      ensures forall cs: seq<int> :: Scalars(cs) && bytes == EncodeAll(cs) && cs != [] ==> codepoint == cs[|cs| - 1]
    {
      AcceptsUtf8(bytes, 0);
      if s == ACCEPT && bytes != [] { RegisterIsLast(ACCEPT, 0, bytes); }
      done := s == ACCEPT;
    }

    method Reset()
      modifies this
      ensures Valid() && bytes == []
    {
      s, codepoint, bytes := ACCEPT, 0, [];
    }
  }

  // True exactly for UTF-8.
  method ValidateUtf8(s: seq<Byte>) returns (ok: bool)
    ensures ok <==> WellFormed(s)
  {
    var v := new Utf8Validator();
    var decoded := v.Decode(s);
    assert [] + s == s;
    RejectsAtOnce(s);
    AcceptsUtf8(s, 0);
    if !decoded { return false; }
    ok := v.Complete();
  }
}
