/**
  * The error-check character (section 10 of ITU-R M.493-15 Annex 1) and what it catches together with the
  * decoder's substitute for a lost symbol.
  */
module DscEcc {
  import opened DscDecoders
  import opened DscSymbols

  // The exclusive or of all the bytes.
  function Parity(data: seq<bv8>): bv8 {
    if data == [] then 0 else Parity(data[..|data| - 1]) ^ data[|data| - 1]
  }

  // What the check character covers: all but the first byte and the check character itself.
  function Covered(data: seq<bv8>): seq<bv8> {
    if |data| < 2 then [] else data[1..|data| - 1]
  }

  method CheckECC(data: seq<bv8>, ecc: bv8) returns (calculated: bv8, ok: bool)
    ensures calculated == Parity(Covered(data)) && ok == (calculated == ecc)
  {
    calculated := 0;
    var i := 1;
    while i < |data| - 1
      invariant 1 <= i && (|data| >= 2 ==> i <= |data| - 1)
      invariant calculated == if |data| < 2 then 0 else Parity(data[1..i])
    {
      assert data[1..i + 1] == data[1..i] + [data[i]];
      calculated := calculated ^ data[i];
      i := i + 1;
    }
    ok := calculated == ecc;
  }

  // The message checks, its last byte being the check character.
  predicate Passes(c: seq<bv8>)
    requires |c| >= 2
  {
    Parity(Covered(c)) == c[|c| - 1]
  }

  function Replaced(p: bv8, x: bv8, v: bv8): bv8 { (p ^ x) ^ v }

  // How many bytes have bit k set.
  function Set(data: seq<bv8>, k: bv8): nat
    requires k < 8
  {
    if data == [] then 0 else Set(data[..|data| - 1], k) + if Bit(data[|data| - 1], k) then 1 else 0
  }

  predicate Bit(x: bv8, k: bv8)
    requires k < 8
  {
    (x >> k) & 1 == 1
  }

  lemma BitOfXor(x: bv8, y: bv8, k: bv8)
    requires k < 8
    ensures Bit(x ^ y, k) == (Bit(x, k) != Bit(y, k)) && !Bit(0, k)
  {
  }

  // A bit of the parity is set when an odd number of bytes have it set.
  lemma {:induction false} ParityIsOdd(data: seq<bv8>, k: bv8)
    requires k < 8
    ensures Bit(Parity(data), k) <==> Set(data, k) % 2 == 1
    decreases |data|
  {
    hide Bit;
    BitOfXor(0, 0, k);
    if data != [] {
      var front, x := data[..|data| - 1], data[|data| - 1];
      ParityIsOdd(front, k);
      BitOfXor(Parity(front), x, k);
    }
  }

  lemma SameBits(x: bv8, y: bv8)
    requires forall k: bv8 :: k < 8 ==> Bit(x, k) == Bit(y, k)
    ensures x == y
  {
    BitsDiffer(x, y, 0); BitsDiffer(x, y, 1); BitsDiffer(x, y, 2); BitsDiffer(x, y, 3);
    BitsDiffer(x, y, 4); BitsDiffer(x, y, 5); BitsDiffer(x, y, 6); BitsDiffer(x, y, 7);
    hide Bit;
    NoBits(x ^ y);
    Equal(x, y);
  }

  lemma BitsDiffer(x: bv8, y: bv8, k: bv8)
    requires k < 8 && Bit(x, k) == Bit(y, k)
    ensures ((x ^ y) >> k) & 1 == 0
  {
  }

  lemma NoBits(x: bv8)
    requires (x >> 0) & 1 == (x >> 1) & 1 == (x >> 2) & 1 == (x >> 3) & 1 == 0
    requires (x >> 4) & 1 == (x >> 5) & 1 == (x >> 6) & 1 == (x >> 7) & 1 == 0
    ensures x == 0
  {
  }

  lemma Equal(x: bv8, y: bv8)
    requires x ^ y == 0
    ensures x == y
  {
  }

  ghost predicate AllEven(data: seq<bv8>) {
    forall k: bv8 :: k < 8 ==> Set(data, k) % 2 == 0
  }

  lemma AgreesIsEven(d: seq<bv8>, x: bv8, k: bv8)
    requires k < 8
    ensures Bit(Parity(d), k) == Bit(x, k) <==> Set(d + [x], k) % 2 == 0
  {
    hide Bit;
    assert (d + [x])[..|d|] == d;
    ParityIsOdd(d, k);
  }

  lemma ParityIsEven(d: seq<bv8>, x: bv8)
    ensures Parity(d) == x <==> AllEven(d + [x])
  {
    hide Bit, Parity, Set;
    forall k: bv8 | k < 8 ensures Bit(Parity(d), k) == Bit(x, k) <==> Set(d + [x], k) % 2 == 0 {
      AgreesIsEven(d, x, k);
    }
    if AllEven(d + [x]) { SameBits(Parity(d), x); }
  }

  // A message checks exactly when each bit is set in an even number of its bytes after the first.
  lemma PassesIsEven(c: seq<bv8>)
    requires |c| >= 2
    ensures Passes(c) <==> AllEven(c[1..])
  {
    hide AllEven, Parity;
    assert c[1..] == Covered(c) + [c[|c| - 1]];
    ParityIsEven(Covered(c), c[|c| - 1]);
  }

  // Changing one byte changes the parity by the same bits.
  lemma {:induction false} ParityUpdate(data: seq<bv8>, i: nat, v: bv8)
    requires i < |data|
    ensures Parity(data[i := v]) == Replaced(Parity(data), data[i], v)
  {
    var n := |data| - 1;
    if i == n {
      assert data[i := v][..n] == data[..n];
      Exchange(Parity(data[..n]), data[n], v);
    } else {
      ParityUpdate(data[..n], i, v);
      assert data[i := v][..n] == data[..n][i := v];
      Swap(Parity(data[..n]), data[i], v, data[n]);
    }
  }

  lemma Exchange(p: bv8, x: bv8, v: bv8)
    ensures p ^ v == ((p ^ x) ^ x) ^ v
  {
  }

  lemma Swap(p: bv8, x: bv8, v: bv8, y: bv8)
    ensures ((p ^ x) ^ v) ^ y == ((p ^ y) ^ x) ^ v
  {
  }

  // A change of one byte other than the first is always noticed.
  lemma OneChangeNoticed(c: seq<bv8>, i: nat, v: bv8)
    requires |c| >= 2 && 0 < i < |c| && Passes(c)
    ensures Passes(c[i := v]) <==> v == c[i]
  {
    hide Parity, Replaced;
    var n := |c| - 1;
    if i == n {
      assert Covered(c[i := v]) == Covered(c);
    } else {
      assert Covered(c[i := v]) == Covered(c)[i - 1 := v];
      ParityUpdate(Covered(c), i - 1, v);
      Cancel(Parity(Covered(c)), c[i], v);
    }
  }

  lemma Cancel(p: bv8, x: bv8, v: bv8)
    ensures Replaced(p, x, v) == p <==> x == v
  {
  }

  // The first byte is not covered.
  lemma FirstNotCovered(c: seq<bv8>, v: bv8)
    requires |c| >= 2
    ensures Passes(c[0 := v]) == Passes(c)
  {
    assert Covered(c[0 := v]) == Covered(c);
  }

  // Both copies of character i are lost, and every other character arrives.
  predicate OneLost(heard: seq<Received>, o: nat, c: seq<bv8>, i: nat)
    requires i < |c| && |heard| == Second(o, |c| - 1) + 1
  {
    heard[First(o, i)] == Bad && heard[Second(o, i)] == Bad
    && forall k: nat :: k < |c| && k != i ==> Arrives(heard, o, k, c[k])
  }

  lemma OthersArrive(heard: seq<Received>, o: nat, c: seq<bv8>, i: nat)
    requires Message(c) && i < |c| && i != |c| - 2 && |heard| == Second(o, |c| - 1) + 1 && OneLost(heard, o, c, i)
    ensures var d := c[i := LOST]; Message(d) && forall k: nat :: k < |d| ==> Arrives(heard, o, k, d[k])
  {
    var d := c[i := LOST];
    assert forall k: nat :: k < |d| - 2 ==> d[k] == c[k] || d[k] == LOST;
  }

  // Then the decoder completes a message all the same, with its substitute in the place of character i; the
  // check fails unless the lost character was that one, or the first.
  lemma LostSymbolNoticed(heard: seq<Received>, o: nat, c: seq<bv8>, i: nat)
    requires Message(c) && i < |c| && i != |c| - 2 && |heard| == Second(o, |c| - 1) + 1 && OneLost(heard, o, c, i)
    requires Passes(c)
    ensures Complete(heard, o) && Characters(heard, o) == c[i := LOST]
    ensures Passes(Characters(heard, o)) <==> i == 0 || c[i] == LOST
  {
    var d := c[i := LOST];
    OthersArrive(heard, o, c, i);
    hide OneLost, Arrives, Complete, Characters, Passes;
    TimeDiversity(heard, o, d);
    if i == 0 { FirstNotCovered(c, LOST); } else { OneChangeNoticed(c, i, LOST); }
  }

  // When it is the end of sequence that is lost, the decoder goes on waiting for one.
  lemma LostEndNotSeen(heard: seq<Received>, o: nat, c: seq<bv8>)
    requires Message(c) && |c| <= MAX_BYTES && |heard| == Second(o, |c| - 1) + 1 && OneLost(heard, o, c, |c| - 2)
    ensures Pending(heard, o) && Characters(heard, o) == c[|c| - 2 := LOST]
  {
    var d := c[|c| - 2 := LOST];
    assert Characters(heard, o) == d;
    forall k: nat | k < |d| ensures !Ends(d, k) {
      if 0 < k < |c| - 1 { assert !IsEndOfSignal(c[k - 1]); }
    }
  }
}
