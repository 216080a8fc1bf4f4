/**
  * Variable-length integers: seven bits a byte, least significant group first, at most 64 bits.
  */
module Varint {
  import opened Machine
  import opened Bitwise

  datatype Option<+T> = None | Some(value: T)

  // The value and the length of the varint s starts with, when n of its bytes have gone before.
  function Uvarint(s: seq<Byte>, n: nat): (r: Option<(nat, nat)>)
    requires n <= 10
    ensures r.Some? ==> 1 <= r.value.1 <= |s|
    ensures r.Some? ==> n < 10
    decreases 10 - n
  {
    if n == 10 || s == [] then None
    else if s[0] < 128 then
      if n == 9 && s[0] > 1 then None else Some((s[0], 1))
    else
      match Uvarint(s[1..], n + 1)
      case None => None
      case Some((v, len)) => Some((s[0] - 128 + 128 * v, len + 1))
  }

  function EncodeUvarint(x: nat): (s: seq<Byte>)
    ensures |s| > 0
  {
    if x < 128 then [x] else [128 + x % 128] + EncodeUvarint(x / 128)
  }

  // The room left for the value after n bytes.
  lemma {:induction false} UvarintBound(s: seq<Byte>, n: nat)
    requires n <= 9
    ensures Uvarint(s, n).Some? ==> Uvarint(s, n).value.0 < Pow2(64 - 7 * n)
    decreases 9 - n
  {
    if n == 9 {
      assert Pow2(1) == 2;
    } else {
      Pow2Grows(8, 64 - 7 * n);
      Pow2Constants();
      Pow2Adds(7, 57 - 7 * n);
      if s != [] {
        UvarintBound(s[1..], n + 1);
      }
    }
  }

  // What was encoded is read back, with its length, whatever follows.
  lemma {:induction false} UvarintBack(x: nat, n: nat, tail: seq<Byte>)
    requires n <= 9 && x < Pow2(64 - 7 * n)
    ensures Uvarint(EncodeUvarint(x) + tail, n) == Some((x, |EncodeUvarint(x)|))
    decreases 9 - n
  {
    var s := EncodeUvarint(x) + tail;
    if n == 9 {
      assert Pow2(1) == 2;
    } else if x >= 128 {
      Pow2Adds(7, 57 - 7 * n);
      Pow2Constants();
      hide Pow2;
      assert s[1..] == EncodeUvarint(x / 128) + tail;
      UvarintBack(x / 128, n + 1, tail);
    }
  }

  // Zigzag of an int64.
  function Zigzag64(v: int): (u: int)
    requires FitsS64(v)
    ensures FitsU64(u)
  {
    if v >= 0 then 2 * v else -2 * v - 1
  }

  function Unzigzag64(u: int): (v: int)
    requires FitsU64(u)
    ensures FitsS64(v)
  {
    if u % 2 == 0 then u / 2 else -(u / 2) - 1
  }

  lemma ZigzagBack64(v: int)
    requires FitsS64(v)
    ensures Unzigzag64(Zigzag64(v)) == v
  {
  }

  // The value and length of the signed varint s starts with.
  function SignedVarint(s: seq<Byte>): (r: Option<(int, nat)>)
    ensures r.Some? ==> FitsS64(r.value.0) && 1 <= r.value.1 <= |s|
  {
    match Uvarint(s, 0)
    case None => None
    case Some((u, len)) =>
      UvarintBound(s, 0);
      Pow2Constants();
      Some((Unzigzag64(u), len))
  }

  lemma SignedVarintBack(v: int, tail: seq<Byte>)
    requires FitsS64(v)
    ensures SignedVarint(EncodeUvarint(Zigzag64(v)) + tail) == Some((v, |EncodeUvarint(Zigzag64(v))|))
  {
    Pow2Constants();
    UvarintBack(Zigzag64(v), 0, tail);
    ZigzagBack64(v);
  }

  // A group of seven bits at its place after n bytes.
  function Placed(v: nat, n: nat): (r: nat)
    ensures v == 0 ==> r == 0
  {
    MulAtMost(0, v, Pow2(7 * n));
    v * Pow2(7 * n)
  }

  lemma MulAtMost(a: nat, b: nat, m: nat)
    requires a <= b
    ensures a * m <= b * m
  {
  }

  lemma PlacedNext(b: nat, v: nat, n: nat)
    ensures Placed(b + 128 * v, n) == Placed(b, n) + Placed(v, n + 1)
  {
    var m := Pow2(7 * n);
    Pow2Adds(7 * n, 7);
    Pow2Constants();
    assert (b + 128 * v) * m == b * m + v * (m * 128);
  }

  lemma PlacedBelow(b: nat, n: nat)
    requires b < 128 && n <= 8
    ensures Placed(b, n) + Pow2(7 * n) <= Pow2(7 * (n + 1)) < TWO_64
  {
    var m := Pow2(7 * n);
    Pow2Adds(7 * n, 7);
    Pow2Constants();
    Pow2Grows(7 * n + 7, 63);
    MulAtMost(b + 1, 128, m);
    assert (b + 1) * m == b * m + m;
    assert Pow2(64) == 2 * Pow2(63);
  }

  // What the loop holds after n bytes: their groups in x, the rest of the varint at off.
  ghost predicate Partial(target: Option<(nat, nat)>, p: seq<Byte>, off0: nat, off: nat, n: nat, x: nat) {
    && off0 <= off <= |p| && n <= 10
    && (n <= 9 ==> x < Pow2(7 * n))
    && match Uvarint(p[off..], n)
       case None => target == None
       case Some((v, len)) => target == Some((x + Placed(v, n), off - off0 + len))
  }

  lemma PartialStart(p: seq<Byte>, off0: nat)
    requires off0 <= |p|
    ensures Partial(Uvarint(p[off0..], 0), p, off0, off0, 0, 0)
  {
    assert Pow2(0) == 1;
  }

  lemma PartialStep(target: Option<(nat, nat)>, p: seq<Byte>, off0: nat, off: nat, n: nat, x: nat)
    requires Partial(target, p, off0, off, n, x) && n < 9 && off < |p| && p[off] >= 128
    ensures Placed(p[off] - 128, n) < TWO_64
    ensures Partial(target, p, off0, off + 1, n + 1, x + Placed(p[off] - 128, n))
  {
    var b := p[off] - 128;
    assert p[off..][1..] == p[off + 1..];
    PlacedBelow(b, n);
    match Uvarint(p[off + 1..], n + 1)
    case None =>
      assert Uvarint(p[off..], n) == None;
    case Some((v, len)) =>
      assert Uvarint(p[off..], n) == Some((b + 128 * v, len + 1));
      PlacedNext(b, v, n);
  }

  // No bytes left, more than 64 bits, or a tenth byte that is not the last.
  lemma PartialBad(target: Option<(nat, nat)>, p: seq<Byte>, off0: nat, off: nat, n: nat, x: nat)
    requires Partial(target, p, off0, off, n, x)
    requires n == 10 || off == |p| || (n == 9 && 1 < p[off] < 128)
    ensures target == None
  {
  }

  lemma PartialEnd(target: Option<(nat, nat)>, p: seq<Byte>, off0: nat, off: nat, n: nat, x: nat)
    requires Partial(target, p, off0, off, n, x) && n <= 9 && off < |p| && p[off] < 128 && !(n == 9 && p[off] > 1)
    requires target.Some? ==> target.value.0 < TWO_64
    ensures target == Some((x + Placed(p[off], n), off + 1 - off0))
    ensures x + Placed(p[off], n) < TWO_64
  {
  }

  // A varint's value and the offset after it.
  function Located(target: Option<(nat, nat)>, off0: nat): Option<(nat, nat)> {
    match target case None => None case Some((v, len)) => Some((v, off0 + len))
  }

  lemma LocatedBound(p: seq<Byte>, off0: nat)
    requires off0 <= |p|
    ensures var r := Located(Uvarint(p[off0..], 0), off0); r.Some? ==> FitsU64(r.value.0) && r.value.1 <= |p|
  {
    hide Uvarint, Pow2;
    UvarintBound(p[off0..], 0);
    Pow2Constants();
  }

  lemma PartialOver(target: Option<(nat, nat)>, p: seq<Byte>, off0: nat, off: nat, x: nat)
    requires Partial(target, p, off0, off, 10, x)
    ensures Located(target, off0) == None
  {
    PartialBad(target, p, off0, off, 10, x);
  }

  /** readUvarint: the value and the offset after it. */
  method ReadUvarint(p: seq<Byte>, off0: nat) returns (r: Option<(nat, nat)>)
    requires off0 <= |p|
    ensures r == Located(Uvarint(p[off0..], 0), off0)
    ensures r.Some? ==> FitsU64(r.value.0) && r.value.1 <= |p|
  {
    var x: nat, shift: nat, off: nat := 0, 0, off0;
    ghost var target := Uvarint(p[off0..], 0);
    UvarintBound(p[off0..], 0);
    LocatedBound(p, off0);
    PartialStart(p, off0);
    hide Uvarint, Partial, Located;
    for n := 0 to 10
      invariant shift == 7 * n && Partial(target, p, off0, off, n, x)
    {
      var done;
      done, r, off, x := ReadGroup(target, p, off0, off, n, shift, x);
      if done {
        return r;
      }
      shift := shift + 7;
    }
    PartialOver(target, p, off0, off, x);
    return None;
  }

  // One byte of the varint: it ends it, breaks it off, or adds a group.
  method ReadGroup(ghost target: Option<(nat, nat)>, p: seq<Byte>, ghost off0: nat, off0': nat, n: nat, shift: nat,
                   x0: nat)
    returns (done: bool, r: Option<(nat, nat)>, off: nat, x: nat)
    requires Partial(target, p, off0, off0', n, x0) && n <= 9 && shift == 7 * n
    requires target.Some? ==> target.value.0 < TWO_64
    ensures if done then r == Located(target, off0) else Partial(target, p, off0, off, n + 1, x)
  {
    done, r, off, x := true, None, off0', x0;
    if off >= |p| {
      PartialBad(target, p, off0, off, n, x);
      return;
    }
    var b := p[off];
    off := off + 1;
    if b < 128 {
      if n == 9 && b > 1 {
        PartialBad(target, p, off0, off - 1, n, x);
        return;
      }
      PartialEnd(target, p, off0, off - 1, n, x);
      x := OrGroup(b, n, shift, x);
      r := Some((x, off));
    } else {
      done := false;
      x := TakeGroup(target, p, off0, off - 1, n, shift, x);
    }
  }

  // (uint64_t)v << shift.
  function ShiftU64(v: nat, shift: nat): (r: nat)
    ensures v * Pow2(shift) < TWO_64 ==> r == v * Pow2(shift)
  {
    MulAtMost(0, v, Pow2(shift));
    WrapU64(v * Pow2(shift))
  }

  // x |= (uint64_t)b << shift.
  method OrGroup(b: nat, ghost n: nat, shift: nat, x0: nat) returns (x: nat)
    requires shift == 7 * n && x0 < Pow2(shift) && Placed(b, n) < TWO_64
    ensures x == x0 + Placed(b, n)
  {
    OrDisjoint(x0, b, shift);
    x := BitOr(x0, ShiftU64(b, shift));
  }

  // Places the next seven bits above those read; at the tenth byte what this leaves in x no longer matters.
  method TakeGroup(ghost target: Option<(nat, nat)>, p: seq<Byte>, ghost off0: nat, off: nat, n: nat, shift: nat,
                   x0: nat) returns (x: nat)
    requires Partial(target, p, off0, off, n, x0) && n <= 9 && shift == 7 * n && off < |p| && p[off] >= 128
    ensures Partial(target, p, off0, off + 1, n + 1, x)
  {
    var b := p[off];
    if n < 9 {
      PartialStep(target, p, off0, off, n, x0);
      AndSeven(b);
      x := OrGroup(BitAnd(b, 127), n, shift, x0);
    } else {
      x := BitOr(x0, ShiftU64(BitAnd(b, 127), shift));
      LastGroup(target, p, off0, off, x);
    }
  }

  lemma AndSeven(b: Byte)
    requires b >= 128
    ensures BitAnd(b, 127) == b - 128
  {
    var p := Pow2(7);
    assert p == 128 by {
      Pow2Constants();
    }
    AndMask(b, 7);
    assert b % 128 == b - 128;
  }

  // A tenth byte that says another follows: not a varint.
  lemma LastGroup(target: Option<(nat, nat)>, p: seq<Byte>, off0: nat, off: nat, x: nat)
    requires off0 <= off < |p| && p[off] >= 128
    requires Uvarint(p[off..], 9) == None ==> target == None
    ensures Partial(target, p, off0, off + 1, 10, x)
  {
  }

  /** readVarint. */
  method ReadVarint(p: seq<Byte>, off: nat) returns (r: Option<(int, nat)>)
    requires off <= |p|
    ensures r == match SignedVarint(p[off..]) case None => None case Some((v, len)) => Some((v, off + len))
    ensures r.Some? ==> r.value.1 <= |p|
  {
    var u := ReadUvarint(p, off);
    if u.None? {
      return None;
    }
    var v := UndoZigzag64(u.value.0);
    return Some((v, u.value.1));
  }

  // (ux >> 1) ^ (0 - (ux & 1)), as an int64.
  method UndoZigzag64(ux: nat) returns (v: int)
    requires FitsU64(ux)
    ensures v == Unzigzag64(ux)
  {
    Unzigzag64Xor(ux);
    v := WrapS64(BitXor(ux / 2, WrapU64(0 - ux % 2)));
  }

  lemma Unzigzag64Xor(u: nat)
    requires FitsU64(u)
    ensures WrapS64(BitXor(u / 2, WrapU64(0 - u % 2))) == Unzigzag64(u)
  {
    var h := u / 2;
    if u % 2 == 0 {
      XorNone64(h);
    } else {
      XorAllOnes64(h);
    }
  }

  lemma XorNone64(h: int)
    requires 0 <= h < TWO_63
    ensures WrapS64(BitXor(h, WrapU64(0))) == h
  {
    XorZero(h);
  }

  lemma XorAllOnes64(h: int)
    requires 0 <= h < TWO_63
    ensures WrapS64(BitXor(h, WrapU64(-1))) == -h - 1
  {
    hide BitXor, Pow2;
    Pow2Constants();
    XorOnes(h, 64);
    assert WrapU64(-1) == TWO_64 - 1;
  }
}
