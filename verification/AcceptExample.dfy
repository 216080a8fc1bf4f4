/**
  * The example of section 1.3 of RFC 6455, computed: a definition that gave another digest, padding or encoding
  * would not give its answer.
  */
module AcceptExample {
  import opened Handshake
  import opened SecureHash

  // ---- Traces -----------------------------------------------------------------------------------

  type Row = s: seq<bv32> | |s| == 5 witness [0, 0, 0, 0, 0]

  // The registers, when the last five values of the first of them are these, oldest first.
  function Five(a: bv32, b: bv32, c: bv32, d: bv32, e: bv32): Registers {
    Registers(e, d, Rol(c, 30), Rol(b, 30), Rol(a, 30))
  }

  function Held(u: Row): Registers { Five(u[0], u[1], u[2], u[3], u[4]) }

  // The value after those five, in round t.
  function Next(a: bv32, b: bv32, c: bv32, d: bv32, e: bv32, w: bv32, t: nat): bv32 {
    Add5(Rol(e, 5), F(t, d, Rol(c, 30), Rol(b, 30)), Rol(a, 30), K(t), w)
  }

  // The values q of rounds t to t + 4, after the values p and with the words w.
  predicate ValuesRow(p: Row, w: Row, q: Row, t: nat) {
    && q[0] == Next(p[0], p[1], p[2], p[3], p[4], w[0], t)
    && q[1] == Next(p[1], p[2], p[3], p[4], q[0], w[1], t + 1)
    && q[2] == Next(p[2], p[3], p[4], q[0], q[1], w[2], t + 2)
    && q[3] == Next(p[3], p[4], q[0], q[1], q[2], w[3], t + 3)
    && q[4] == Next(p[4], q[0], q[1], q[2], q[3], w[4], t + 4)
  }

  // A row of the schedule but for its first word, after the three rows before it.
  predicate WordsTail(b: Row, c: Row, d: Row, e: Row) {
    && e[1] == Mixed(d[3], c[3], b[2], b[0]) && e[2] == Mixed(d[4], c[4], b[3], b[1])
    && e[3] == Mixed(e[0], d[0], b[4], b[2]) && e[4] == Mixed(e[1], d[1], c[0], b[3])
  }

  // A whole one.
  predicate WordsRow(a: Row, b: Row, c: Row, d: Row, e: Row) {
    e[0] == Mixed(d[2], c[2], b[1], a[4]) && WordsTail(b, c, d, e)
  }

  predicate WordsAt(w: seq<Row>, k: nat)
    requires 4 <= k < |w|
  {
    WordsRow(w[k - 4], w[k - 3], w[k - 2], w[k - 1], w[k])
  }

  // Sixteen rows of words, whose first sixteen are the message.
  predicate Words16(w: seq<Row>) {
    && |w| == 16 && WordsTail(w[0], w[1], w[2], w[3])
    && forall k: nat :: 4 <= k < 16 ==> WordsAt(w, k)
  }

  function Message(w: seq<Row>): (m: seq<bv32>)
    requires |w| == 16
    ensures |m| == 16
  {
    var a: seq<bv32>, b: seq<bv32>, c: seq<bv32> := w[0], w[1], w[2];
    a + b + c + [w[3][0]]
  }

  predicate ValuesAt(w: seq<Row>, a: seq<Row>, k: nat)
    requires k < |w| < |a|
  {
    ValuesRow(a[k], w[k], a[k + 1], 5 * k)
  }

  // The five values before the first round, and sixteen rows of five.
  predicate Values16(w: seq<Row>, a: seq<Row>) {
    |w| == 16 && |a| == 17 && forall k: nat :: k < 16 ==> ValuesAt(w, a, k)
  }

  // Row k is words 5 * k to 5 * k + 4 of the schedule.
  predicate IsRow(m: seq<bv32>, k: nat, w: Row)
    requires |m| == 16
  {
    && W(m, 5 * k) == w[0] && W(m, 5 * k + 1) == w[1] && W(m, 5 * k + 2) == w[2] && W(m, 5 * k + 3) == w[3]
    && W(m, 5 * k + 4) == w[4]
  }

  lemma TailIsRow(m: seq<bv32>, k: nat, b: Row, c: Row, d: Row, e: Row)
    requires |m| == 16 && k >= 3 && IsRow(m, k - 3, b) && IsRow(m, k - 2, c) && IsRow(m, k - 1, d)
    requires WordsTail(b, c, d, e) && W(m, 5 * k) == e[0]
    ensures IsRow(m, k, e)
  {
    hide W, Mixed;
    WStep(m, 5 * k + 1);
    WStep(m, 5 * k + 2);
    WStep(m, 5 * k + 3);
    WStep(m, 5 * k + 4);
  }

  lemma FirstOfRow(m: seq<bv32>, k: nat, a: Row, b: Row, c: Row, d: Row, e: Row)
    requires |m| == 16 && k >= 4 && IsRow(m, k - 4, a) && IsRow(m, k - 3, b) && IsRow(m, k - 2, c) && IsRow(m, k - 1, d)
    requires WordsRow(a, b, c, d, e)
    ensures W(m, 5 * k) == e[0]
  {
    hide W, Mixed, WordsTail;
    WStep(m, 5 * k);
  }

  lemma MessageRows(w: seq<Row>)
    requires |w| == 16
    ensures IsRow(Message(w), 0, w[0]) && IsRow(Message(w), 1, w[1]) && IsRow(Message(w), 2, w[2])
    ensures W(Message(w), 15) == w[3][0]
  {
    hide Mixed;
  }

  lemma {:induction false} RowsOfSchedule(w: seq<Row>, k: nat)
    requires Words16(w) && k < 16
    ensures IsRow(Message(w), k, w[k])
  {
    var m := Message(w);
    MessageRows(w);
    if k >= 3 {
      assert k > 3 ==> WordsAt(w, k);
      hide IsRow, Words16, WordsTail, Message, W, Mixed;
      RowsOfSchedule(w, k - 1); RowsOfSchedule(w, k - 2); RowsOfSchedule(w, k - 3);
      if k > 3 {
        RowsOfSchedule(w, k - 4);
        FirstOfRow(m, k, w[k - 4], w[k - 3], w[k - 2], w[k - 1], w[k]);
      }
      TailIsRow(m, k, w[k - 3], w[k - 2], w[k - 1], w[k]);
    }
  }

  lemma RoundOn(r: Registers, m: seq<bv32>, t: nat, a: bv32, b: bv32, c: bv32, d: bv32, e: bv32, w: bv32)
    requires |m| == 16 && Rounds(r, m, t) == Five(a, b, c, d, e) && W(m, t) == w
    ensures Rounds(r, m, t + 1) == Five(b, c, d, e, Next(a, b, c, d, e, w, t))
  {
    hide F, K, Rol, W;
    RoundsStep(r, m, t);
  }

  // Five rounds.
  lemma RowOn(r: Registers, m: seq<bv32>, k: nat, p: Row, w: Row, q: Row)
    requires |m| == 16 && IsRow(m, k, w) && ValuesRow(p, w, q, 5 * k) && Rounds(r, m, 5 * k) == Held(p)
    ensures Rounds(r, m, 5 * (k + 1)) == Held(q)
  {
    var t := 5 * k;
    hide Rounds, W, Five, Next;
    RoundOn(r, m, t, p[0], p[1], p[2], p[3], p[4], w[0]);
    RoundOn(r, m, t + 1, p[1], p[2], p[3], p[4], q[0], w[1]);
    RoundOn(r, m, t + 2, p[2], p[3], p[4], q[0], q[1], w[2]);
    RoundOn(r, m, t + 3, p[3], p[4], q[0], q[1], q[2], w[3]);
    RoundOn(r, m, t + 4, p[4], q[0], q[1], q[2], q[3], w[4]);
  }

  lemma {:induction false} RowsOfRounds(r: Registers, w: seq<Row>, a: seq<Row>, k: nat)
    requires Words16(w) && Values16(w, a) && k <= 16 && r == Held(a[0])
    ensures Rounds(r, Message(w), 5 * k) == Held(a[k])
  {
    hide Message, Words16, Held, W, ValuesRow, IsRow;
    if k > 0 {
      hide Rounds;
      assert ValuesAt(w, a, k - 1);
      RowsOfRounds(r, w, a, k - 1);
      RowsOfSchedule(w, k - 1);
      RowOn(r, Message(w), k - 1, a[k - 1], w[k - 1], a[k]);
    }
  }

  // The sums that end a block.
  function Summed(h: seq<bv32>, s: Registers): seq<bv32>
    requires |h| == 5
  {
    [Add(h[0], s.a), Add(h[1], s.b), Add(h[2], s.c), Add(h[3], s.d), Add(h[4], s.e)]
  }

  // So what such tables end in is what the compression gives.
  lemma Compressed(h: seq<bv32>, w: seq<Row>, a: seq<Row>)
    requires |h| == 5 && Words16(w) && Values16(w, a) && Held(a[0]) == Registers(h[0], h[1], h[2], h[3], h[4])
    ensures Compress(h, Message(w)) == Summed(h, Held(a[16]))
  {
    hide Message, Words16, Values16, Rounds, Held, Add;
    RowsOfRounds(Registers(h[0], h[1], h[2], h[3], h[4]), w, a, 16);
  }

  // ---- The example ------------------------------------------------------------------------------

  // "dGhlIHNhbXBsZSBub25jZQ=="
  const KEY: seq<bv8> := [
    0x64, 0x47, 0x68, 0x6C, 0x49, 0x48, 0x4E, 0x68, 0x62, 0x58, 0x42, 0x73,
    0x5A, 0x53, 0x42, 0x75, 0x62, 0x32, 0x35, 0x6A, 0x5A, 0x51, 0x3D, 0x3D]

  function FirstTable(): (w: seq<Row>)
    ensures |w| == 16
  {
    [
      [0x6447686c, 0x49484e68, 0x62584273, 0x5a534275, 0x6232356a],
      [0x5a513d3d, 0x32353845, 0x41464135, 0x2d453931, 0x342d3437],
      [0x44412d39, 0x3543412d, 0x43354142, 0x30444338, 0x35423131],
      [0x80000000, 0x363ca02c, 0x24e81236, 0x8856b441, 0x06fb3c92],
      [0x6fb4bcb6, 0x460b16e3, 0x599219ae, 0x35bf9369, 0x3267458e],
      [0xf828fd04, 0x753a96a7, 0x6336f612, 0xc3d66383, 0x06eb86f9],
      [0x73b4fd42, 0xa503c5b8, 0x15cdae35, 0x531e5dc5, 0x6fb6b7d0],
      [0x6c16e4ac, 0x4ddd36bd, 0x35d36946, 0xe8ae8b9c, 0x4a933ad0],
      [0xce8628b4, 0x415dba9e, 0x2792f049, 0x8e9b79e7, 0x79c425c5],
      [0x6353b49d, 0x00994218, 0x8a950ed1, 0xaf5d0b99, 0xfd9883de],
      [0x1ed8ffeb, 0xf007ff28, 0x425e3674, 0x059631c0, 0xad6c3c31],
      [0x860b71d7, 0x87bfc548, 0x3e64f92d, 0x8d0ab761, 0x34e1ee35],
      [0x0acf5108, 0xc2b479da, 0x6c93370a, 0xf7935ba1, 0xe91c91c1],
      [0xbed165a2, 0x4c3e4abe, 0x50d96238, 0xb6587dde, 0x1a2ee6e6],
      [0x2d335896, 0xf3495d0b, 0xf30e0a1d, 0x32ce5459, 0x7165e3b8],
      [0xab05ff94, 0xc5949f0b, 0xbcd84e4a, 0x07720392, 0xff3ff806]]
  }

  function FirstTrace(): (a: seq<Row>)
    ensures |a| == 17
  {
    [
      [0x0f4b87c3, 0x40c951d8, 0x62eb73fa, 0xefcdab89, 0x67452301],
      [0x03fc011f, 0x2f793f55, 0xbe90ee8f, 0x53e039ac, 0xdd8c7c12],
      [0x7320b969, 0x73553e84, 0x2e0ce601, 0x32beb05a, 0xfaad2675],
      [0x5ff4238c, 0x34ceb986, 0x61bdb2bf, 0xae1a096e, 0xe922cc9d],
      [0xa004c468, 0xd7daf575, 0x7ebb296b, 0x8dc510b6, 0x091ab97c],
      [0x518470a3, 0xd12f0b56, 0xbeafd554, 0x250e26ef, 0x23d1c91b],
      [0x748b39a0, 0xef012f20, 0x571f7d82, 0x1abb1c37, 0x081b63e5],
      [0xb7dabc8b, 0xa6680a1f, 0x1ae360a9, 0xeeaba35a, 0x149bb4d3],
      [0x9de793c8, 0x4ccd2227, 0x68760824, 0xd0869081, 0x2ba2c83e],
      [0xcb8c52d0, 0x4f589a44, 0x868829b7, 0x6dc6a3d7, 0x5f5f3452],
      [0x72ff334d, 0xdee4b7a8, 0xabe1748a, 0x7510d04f, 0x065f8486],
      [0x0e5d77c4, 0x10e7f671, 0x26c69395, 0x4c608ac4, 0x50c9104c],
      [0x7e1242f2, 0x6ef6fef4, 0x0c247c2e, 0xd284f163, 0x4872d85a],
      [0xcd4200b8, 0x90f00d8f, 0x840054d3, 0x685e2ff6, 0xa4cee018],
      [0xc3c2e45b, 0x53131a40, 0xcf8658ec, 0x966e049a, 0x07381b7e],
      [0x80d59773, 0x7e65e044, 0x628e7b47, 0x143a8388, 0xe20983f9],
      [0x69cf0bca, 0x29171009, 0x97047bec, 0x835995e1, 0xf48a5426]]
  }

  const MIDDLE: seq<bv32> := [0x5bcf7727, 0x7327416a, 0xbe7bfbf9, 0x5a781878, 0x5e46a4e2]

  lemma FirstWords()
    ensures Words16(FirstTable())
  {
    hide WordsAt, WordsTail, FirstTable;
    forall k: nat | 4 <= k < 16
      ensures WordsAt(FirstTable(), k)
    {
      if k < 7 { FirstWordsTo7(k); } else if k < 10 { FirstWordsTo10(k); }
      else if k < 13 { FirstWordsTo13(k); } else { FirstWordsTo16(k); }
    }
    FirstWordsTo4();
  }

  lemma FirstWordsTo4()
    ensures WordsTail(FirstTable()[0], FirstTable()[1], FirstTable()[2], FirstTable()[3])
  {
  }

  lemma FirstWordsTo7(k: nat)
    requires 4 <= k < 7
    ensures WordsAt(FirstTable(), k)
  {
  }

  lemma FirstWordsTo10(k: nat)
    requires 7 <= k < 10
    ensures WordsAt(FirstTable(), k)
  {
  }

  lemma FirstWordsTo13(k: nat)
    requires 10 <= k < 13
    ensures WordsAt(FirstTable(), k)
  {
  }

  lemma FirstWordsTo16(k: nat)
    requires 13 <= k < 16
    ensures WordsAt(FirstTable(), k)
  {
  }

  lemma FirstValues()
    ensures Values16(FirstTable(), FirstTrace())
  {
    hide ValuesAt, FirstTable, FirstTrace;
    forall k: nat | k < 16 ensures ValuesAt(FirstTable(), FirstTrace(), k) {
      if k < 3 { FirstValuesTo3(k); } else if k < 6 { FirstValuesTo6(k); } else if k < 9 { FirstValuesTo9(k); }
      else if k < 12 { FirstValuesTo12(k); } else if k < 14 { FirstValuesTo14(k); } else { FirstValuesTo16(k); }
    }
  }

  lemma FirstValuesTo3(k: nat)
    requires 0 <= k < 3
    ensures ValuesAt(FirstTable(), FirstTrace(), k)
  {
  }

  lemma FirstValuesTo6(k: nat)
    requires 3 <= k < 6
    ensures ValuesAt(FirstTable(), FirstTrace(), k)
  {
  }

  lemma FirstValuesTo9(k: nat)
    requires 6 <= k < 9
    ensures ValuesAt(FirstTable(), FirstTrace(), k)
  {
  }

  lemma FirstValuesTo12(k: nat)
    requires 9 <= k < 12
    ensures ValuesAt(FirstTable(), FirstTrace(), k)
  {
  }

  lemma FirstValuesTo14(k: nat)
    requires 12 <= k < 14
    ensures ValuesAt(FirstTable(), FirstTrace(), k)
  {
  }

  lemma FirstValuesTo16(k: nat)
    requires 14 <= k < 16
    ensures ValuesAt(FirstTable(), FirstTrace(), k)
  {
  }

  lemma FirstBlock()
    ensures Compress(INITIAL, Message(FirstTable())) == MIDDLE
  {
    FirstEnds();
    hide Words16, Values16, Message, Compress, Held, Summed, FirstTable, FirstTrace;
    FirstWords();
    FirstValues();
    Compressed(INITIAL, FirstTable(), FirstTrace());
  }

  lemma FirstEnds()
    ensures Held(FirstTrace()[0]) == Registers(INITIAL[0], INITIAL[1], INITIAL[2], INITIAL[3], INITIAL[4])
    ensures Summed(INITIAL, Held(FirstTrace()[16])) == MIDDLE
  {
  }

  function SecondTable(): (w: seq<Row>)
    ensures |w| == 16
  {
    [
      [0x00000000, 0x00000000, 0x00000000, 0x00000000, 0x00000000],
      [0x00000000, 0x00000000, 0x00000000, 0x00000000, 0x00000000],
      [0x00000000, 0x00000000, 0x00000000, 0x00000000, 0x00000000],
      [0x000001e0, 0x00000000, 0x00000000, 0x000003c0, 0x00000000],
      [0x00000000, 0x00000780, 0x00000000, 0x000003c0, 0x00000f00],
      [0x00000000, 0x00000000, 0x00001e00, 0x00000000, 0x00000cc0],
      [0x00003c00, 0x00000440, 0x00000000, 0x00007800, 0x00000f00],
      [0x00003300, 0x0000f000, 0x00000f00, 0x00000000, 0x0001ef00],
      [0x00000000, 0x0000cc00, 0x0003c000, 0x00004380, 0x00000000],
      [0x00078f00, 0x0000ff00, 0x00032680, 0x000f0000, 0x0000f000],
      [0x00003300, 0x001eff00, 0x00000000, 0x000cb800, 0x003c0000],
      [0x00040b00, 0x0000f000, 0x0078ff00, 0x000ff000, 0x00338700],
      [0x00f00000, 0x000fc300, 0x0000f000, 0x01efbb00, 0x00000000],
      [0x00cc0000, 0x03c0f000, 0x00438000, 0x00000000, 0x078f0000],
      [0x00ff0000, 0x03269e00, 0x0f000000, 0x00f0f000, 0x00333c00],
      [0x1eff8800, 0x00000000, 0x0cb88800, 0x3c00f000, 0x040a4a00]]
  }

  function SecondTrace(): (a: seq<Row>)
    ensures |a| == 17
  {
    [
      [0x791a9389, 0x69e061e1, 0xf9efefe6, 0x7327416a, 0x5bcf7727],
      [0x6d335cde, 0x186006b8, 0xf9fb295d, 0x15855523, 0xe43dd2f2],
      [0x93a5efbb, 0xb3bbcafe, 0x25c018be, 0x80946593, 0x0b0814c3],
      [0x4ce92417, 0x250601ad, 0x6576d2dc, 0xad43f39e, 0x990b7be7],
      [0x986df268, 0x3ad7440e, 0x72198f06, 0x2f193a09, 0x2a008b51],
      [0x12315b2b, 0x40fbcf98, 0x3e5179e7, 0x53c73650, 0x1d24c44a],
      [0x646c677d, 0xd2e726da, 0x9327df6f, 0xf57cb53e, 0x243ee057],
      [0xf4ddd7b7, 0x3cf6eb58, 0x730e9170, 0x96d9e59e, 0x942ac4d3],
      [0x76922a14, 0x7dbcf2ed, 0x796adef3, 0xc6ff0cd3, 0x6f698f1a],
      [0x78716769, 0xfc343a02, 0xedfcd85b, 0x1e934acf, 0xfc7bd35f],
      [0x3bd9203b, 0xc8cda3da, 0xa3ef857e, 0xa39f2041, 0xa516f265],
      [0xa3abe4f5, 0x5fe2a3db, 0x9e540637, 0x2c73bd78, 0x660dd0b1],
      [0xa1b68141, 0x05033fa3, 0x21289715, 0x085eb2fe, 0x56119f19],
      [0x77489e23, 0x11132f8f, 0xd5ef1ed7, 0xa5937450, 0x9ecfa66c],
      [0x17a22ef7, 0xc97f1968, 0x097a511c, 0x4e363db9, 0xbf3a7f95],
      [0xf6d1afee, 0xc90888ca, 0xc7652edb, 0x26f99990, 0xe22b36d1],
      [0x51e08021, 0xd3010335, 0x49e92837, 0x4d3b0dac, 0x57aad805]]
  }

  const DIGEST: seq<bv32> := [0xb37a4f2c, 0xc0624f16, 0x90f64606, 0xcf385945, 0xb2bec4ea]

  lemma SecondWords()
    ensures Words16(SecondTable())
  {
    hide WordsAt, WordsTail, SecondTable;
    forall k: nat | 4 <= k < 16
      ensures WordsAt(SecondTable(), k)
    {
      if k < 7 { SecondWordsTo7(k); } else if k < 10 { SecondWordsTo10(k); }
      else if k < 13 { SecondWordsTo13(k); } else { SecondWordsTo16(k); }
    }
    SecondWordsTo4();
  }

  lemma SecondWordsTo4()
    ensures WordsTail(SecondTable()[0], SecondTable()[1], SecondTable()[2], SecondTable()[3])
  {
  }

  lemma SecondWordsTo7(k: nat)
    requires 4 <= k < 7
    ensures WordsAt(SecondTable(), k)
  {
  }

  lemma SecondWordsTo10(k: nat)
    requires 7 <= k < 10
    ensures WordsAt(SecondTable(), k)
  {
  }

  lemma SecondWordsTo13(k: nat)
    requires 10 <= k < 13
    ensures WordsAt(SecondTable(), k)
  {
  }

  lemma SecondWordsTo16(k: nat)
    requires 13 <= k < 16
    ensures WordsAt(SecondTable(), k)
  {
  }

  lemma SecondValues()
    ensures Values16(SecondTable(), SecondTrace())
  {
    hide ValuesAt, SecondTable, SecondTrace;
    forall k: nat | k < 16 ensures ValuesAt(SecondTable(), SecondTrace(), k) {
      if k < 3 { SecondValuesTo3(k); } else if k < 6 { SecondValuesTo6(k); } else if k < 9 { SecondValuesTo9(k); }
      else if k < 12 { SecondValuesTo12(k); } else if k < 14 { SecondValuesTo14(k); } else { SecondValuesTo16(k); }
    }
  }

  lemma SecondValuesTo3(k: nat)
    requires 0 <= k < 3
    ensures ValuesAt(SecondTable(), SecondTrace(), k)
  {
  }

  lemma SecondValuesTo6(k: nat)
    requires 3 <= k < 6
    ensures ValuesAt(SecondTable(), SecondTrace(), k)
  {
  }

  lemma SecondValuesTo9(k: nat)
    requires 6 <= k < 9
    ensures ValuesAt(SecondTable(), SecondTrace(), k)
  {
  }

  lemma SecondValuesTo12(k: nat)
    requires 9 <= k < 12
    ensures ValuesAt(SecondTable(), SecondTrace(), k)
  {
  }

  lemma SecondValuesTo14(k: nat)
    requires 12 <= k < 14
    ensures ValuesAt(SecondTable(), SecondTrace(), k)
  {
  }

  lemma SecondValuesTo16(k: nat)
    requires 14 <= k < 16
    ensures ValuesAt(SecondTable(), SecondTrace(), k)
  {
  }

  lemma SecondBlock()
    ensures Compress(MIDDLE, Message(SecondTable())) == DIGEST
  {
    SecondEnds();
    hide Words16, Values16, Message, Compress, Held, Summed, SecondTable, SecondTrace;
    SecondWords();
    SecondValues();
    Compressed(MIDDLE, SecondTable(), SecondTrace());
  }

  lemma SecondEnds()
    ensures Held(SecondTrace()[0]) == Registers(MIDDLE[0], MIDDLE[1], MIDDLE[2], MIDDLE[3], MIDDLE[4])
    ensures Summed(MIDDLE, Held(SecondTrace()[16])) == DIGEST
  {
  }

  lemma KeyLaidOut()
    ensures KeyWords(KEY) + REST == Message(FirstTable()) && LAST == Message(SecondTable())
  {
  }

  // Three bytes are four letters.
  lemma Quad(a: bv8, b: bv8, c: bv8, rest: seq<bv8>, text: string)
    requires text == Text(Group(a, b, c))
    ensures Base64([a, b, c] + rest) == text + Base64(rest)
  {
    hide Letter, Sextet, Group;
    assert ([a, b, c] + rest)[3..] == rest;
  }

  function Text(g: bv32): string {
    [Letter(Sextet(g, 0)), Letter(Sextet(g, 1)), Letter(Sextet(g, 2)), Letter(Sextet(g, 3))]
  }

  function Spelled(w: bv32, x: bv32, y: bv32, z: bv32): string
    requires w < 64 && x < 64 && y < 64 && z < 64
  {
    [Letter(w), Letter(x), Letter(y), Letter(z)]
  }

  lemma TextIs(a: bv8, b: bv8, c: bv8, w: bv32, x: bv32, y: bv32, z: bv32)
    requires w < 64 && x < 64 && y < 64 && z < 64
    requires Group(a, b, c) == (w << 18) | (x << 12) | (y << 6) | z
    ensures Text(Group(a, b, c)) == Spelled(w, x, y, z)
  {
    Sextets(w, x, y, z);
    hide Letter, Sextet, Group;
  }

  lemma Sextets(w: bv32, x: bv32, y: bv32, z: bv32)
    requires w < 64 && x < 64 && y < 64 && z < 64
    ensures var g := (w << 18) | (x << 12) | (y << 6) | z;
            Sextet(g, 0) == w && Sextet(g, 1) == x && Sextet(g, 2) == y && Sextet(g, 3) == z
  {
  }

  lemma Letters()
    ensures Spelled(44, 55, 41, 15) == "s3pP"
         && Spelled(11, 12, 1, 34) == "LMBi"
         && Spelled(19, 49, 26, 16) == "TxaQ"
         && Spelled(61, 36, 24, 6) == "9kYG"
         && Spelled(51, 51, 33, 25) == "zzhZ"
         && Spelled(17, 27, 10, 62) == "RbK+"
  {
  }

  lemma Groups()
    ensures Text(Group(0xB3, 0x7A, 0x4F)) == "s3pP"
         && Text(Group(0x2C, 0xC0, 0x62)) == "LMBi"
         && Text(Group(0x4F, 0x16, 0x90)) == "TxaQ"
         && Text(Group(0xF6, 0x46, 0x06)) == "9kYG"
         && Text(Group(0xCF, 0x38, 0x59)) == "zzhZ"
         && Text(Group(0x45, 0xB2, 0xBE)) == "RbK+"
  {
    Letters();
    hide Spelled, Text;
    TextIs(0xB3, 0x7A, 0x4F, 44, 55, 41, 15);
    TextIs(0x2C, 0xC0, 0x62, 11, 12, 1, 34);
    TextIs(0x4F, 0x16, 0x90, 19, 49, 26, 16);
    TextIs(0xF6, 0x46, 0x06, 61, 36, 24, 6);
    TextIs(0xCF, 0x38, 0x59, 51, 51, 33, 25);
    TextIs(0x45, 0xB2, 0xBE, 17, 27, 10, 62);
  }

  // Each three bytes of the digest, then its last two.
  lemma DigestEncoded()
    ensures Base64(Bytes(DIGEST)) == "s3pPLMBiTxaQ9kYGzzhZRbK+xOo="
  {
    DigestBytes();
    LastTwo();
    Groups();
    hide Bytes, Base64, Text;
    var s6: seq<bv8> := [0xC4, 0xEA];
    var s5 := [0x45, 0xB2, 0xBE] + s6;
    Quad(0x45, 0xB2, 0xBE, s6, "RbK+");
    var s4 := [0xCF, 0x38, 0x59] + s5;
    Quad(0xCF, 0x38, 0x59, s5, "zzhZ");
    var s3 := [0xF6, 0x46, 0x06] + s4;
    Quad(0xF6, 0x46, 0x06, s4, "9kYG");
    var s2 := [0x4F, 0x16, 0x90] + s3;
    Quad(0x4F, 0x16, 0x90, s3, "TxaQ");
    var s1 := [0x2C, 0xC0, 0x62] + s2;
    Quad(0x2C, 0xC0, 0x62, s2, "LMBi");
    var s0 := [0xB3, 0x7A, 0x4F] + s1;
    Quad(0xB3, 0x7A, 0x4F, s1, "s3pP");
    assert Bytes(DIGEST) == s0;
  }

  lemma DigestBytes()
    ensures Bytes(DIGEST) == [
              0xB3, 0x7A, 0x4F, 0x2C, 0xC0, 0x62, 0x4F, 0x16, 0x90, 0xF6,
              0x46, 0x06, 0xCF, 0x38, 0x59, 0x45, 0xB2, 0xBE, 0xC4, 0xEA]
  {
  }

  lemma LastTwo()
    ensures Base64([0xC4, 0xEA]) == "xOo="
  {
    var g := Group(0xC4, 0xEA, 0);
    Sextets(49, 14, 40, 0);
    assert g == (49 << 18) | (14 << 12) | (40 << 6) | 0;
    assert Letter(49) == 'x' && Letter(14) == 'O' && Letter(40) == 'o';
  }

  // The answer the standard gives for its key.
  lemma ExampleAccepted()
    ensures |KEY| == 24 && Accept(KEY) == "s3pPLMBiTxaQ9kYGzzhZRbK+xOo="
  {
    KeyLaidOut();
    DigestEncoded();
    hide Compress, KeyWords, Bytes, Base64, Message, Accept, FirstTable, SecondTable;
    AcceptIs(KEY);
    FirstBlock();
    SecondBlock();
  }
}
