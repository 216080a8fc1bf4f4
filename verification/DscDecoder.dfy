/**
  * The symbol decoder: phasing, the three-symbol delay between the two copies of every character, the
  * choice between the copies, and the end of sequence (sections 1.2, 3 and 9 of ITU-R M.493-15 Annex 1).
  */
module DscDecoders {
  import opened DscSymbols

  const BUFFER_SIZE := 3
  const MAX_BYTES := 40
  const LOST: bv8 := 42

  // What follows 125 111 125 in the phasing sequence.
  const EXPECTED: seq<bv8> := [110, 125, 109, 125, 108, 125, 107, 125, 106]

  predicate IsEndOfSignal(s: bv8) { s == 117 || s == 122 || s == 127 }

  // ---- What a run of symbols means ------------------------------------------------------------

  // The character meant by its two copies.
  function Select(dx: Received, rx: Received): bv8 {
    if dx.Sym? then dx.value else if rx.Sym? then rx.value else LOST
  }

  // The first copy of character k; o phasing symbols come before the first.
  function First(o: nat, k: nat): nat { o + 2 * k }

  // The second copy comes five symbols later.
  function Second(o: nat, k: nat): nat { o + 2 * k + 5 }

  // How many characters have both their copies in n symbols.
  function Count(o: nat, n: nat): (c: nat)
    ensures forall k: nat :: k < c <==> Second(o, k) < n
  {
    if n < o + 5 then 0 else (n - o - 4) / 2
  }

  // The characters of the symbols heard so far.
  function Characters(heard: seq<Received>, o: nat): (c: seq<bv8>)
    ensures |c| == Count(o, |heard|)
  {
    seq(Count(o, |heard|), k requires 0 <= k < Count(o, |heard|) => Select(heard[First(o, k)], heard[Second(o, k)]))
  }

  // Character k is the last: it follows an end-of-signal symbol, or there are too many.
  predicate Ends(chars: seq<bv8>, k: nat)
    requires k < |chars|
  {
    k == MAX_BYTES || (k > 0 && IsEndOfSignal(chars[k - 1]))
  }

  predicate Running(chars: seq<bv8>) {
    forall k: nat :: k < |chars| ==> !Ends(chars, k)
  }

  // The symbols heard make one whole message, and its last character needed the last of them.
  predicate Complete(heard: seq<Received>, o: nat) {
    var c := Characters(heard, o);
    |heard| >= o + 6 && (|heard| - o) % 2 == 0 && Ends(c, |c| - 1) && Running(c[..|c| - 1])
  }

  // The message is not finished yet.
  predicate Pending(heard: seq<Received>, o: nat) {
    Running(Characters(heard, o))
  }

  // A whole message is not a pending one.
  lemma NotBoth(heard: seq<Received>, o: nat)
    ensures !(Complete(heard, o) && Pending(heard, o))
  {
    var c := Characters(heard, o);
    if |heard| >= o + 6 { assert |c| > 0 && (Ends(c, |c| - 1) || !Ends(c, |c| - 1)); }
  }

  // The second copy of character k completes it.
  lemma CharacterDone(heard: seq<Received>, s: Received, o: nat, k: nat)
    requires |heard| == Second(o, k)
    ensures |Characters(heard, o)| == k
    ensures Characters(heard + [s], o) == Characters(heard, o) + [Select(heard[First(o, k)], s)]
  {
  }

  // Any other symbol completes none.
  lemma NoCharacter(heard: seq<Received>, s: Received, o: nat)
    requires |heard| < o + 5 || (|heard| - o) % 2 == 0
    ensures Characters(heard + [s], o) == Characters(heard, o)
  {
  }

  // The characters of the first symbols are the first characters.
  lemma CharactersPrefix(heard: seq<Received>, o: nat, n: nat)
    requires n <= |heard|
    ensures Characters(heard[..n], o) == Characters(heard, o)[..Count(o, n)]
  {
  }

  // ---- What the receiver promises about whole messages ---------------------------------------------

  // No run of symbols is a whole message twice: there is at most one place to stop.
  lemma OneEnd(heard: seq<Received>, o: nat, n: nat)
    requires n < |heard| && Complete(heard, o)
    ensures Pending(heard[..n], o)
  {
    var c := Characters(heard, o);
    CharactersPrefix(heard, o, n);
    forall k: nat | k < Count(o, n) ensures !Ends(c[..Count(o, n)], k) {
      assert !Ends(c[..|c| - 1], k);
    }
  }

  // The first character from k on that ends the message.
  function FirstEnd(chars: seq<bv8>, k: nat): (e: nat)
    requires k <= MAX_BYTES < |chars|
    ensures k <= e <= MAX_BYTES && Ends(chars, e) && forall i: nat :: k <= i < e ==> !Ends(chars, i)
    decreases MAX_BYTES - k
  {
    if Ends(chars, k) then k else FirstEnd(chars, k + 1)
  }

  // Whatever is heard, the message ends within 86 symbols after the phasing, with at most 41 characters.
  lemma AlwaysEnds(heard: seq<Received>, o: nat) returns (n: nat)
    requires |heard| >= o + 2 * MAX_BYTES + 6
    ensures o + 6 <= n <= o + 2 * MAX_BYTES + 6
    ensures Complete(heard[..n], o) && 1 <= |Characters(heard[..n], o)| <= MAX_BYTES + 1
  {
    var c := Characters(heard, o);
    assert Second(o, MAX_BYTES) < |heard|;
    var e := FirstEnd(c, 0);
    n := Second(o, e) + 1;
    CharactersPrefix(heard, o, n);
    var d := Characters(heard[..n], o);
    assert d == c[..e + 1];
    assert Ends(d, e);
    forall k: nat | k < e ensures !Ends(d[..e], k) {
      assert !Ends(c, k);
    }
  }

  // A message a sender may send: its end of sequence is the character before the last.
  predicate Message(c: seq<bv8>) {
    2 <= |c| <= MAX_BYTES + 1 && IsEndOfSignal(c[|c| - 2])
    && forall k :: 0 <= k < |c| - 2 ==> !IsEndOfSignal(c[k])
  }

  // It ends with 117, 122 or 127 and the check character, has at most 41 characters in all, and a character lost
  // in it is received as 42.
  lemma MessageIs(c: seq<bv8>)
    ensures Message(c) <==>
            && 2 <= |c| <= 41 && (c[|c| - 2] == 117 || c[|c| - 2] == 122 || c[|c| - 2] == 127)
            && forall k :: 0 <= k < |c| - 2 ==> c[k] != 117 && c[k] != 122 && c[k] != 127
    ensures Select(Bad, Bad) == 42
  {
  }

  // The two copies of character k are damaged at most so that the receiver still takes them for v.
  predicate Arrives(heard: seq<Received>, o: nat, k: nat, v: bv8)
    requires Second(o, k) < |heard|
  {
    var dx, rx := heard[First(o, k)], heard[Second(o, k)];
    dx == Sym(v) || (dx == Bad && (rx == Sym(v) || (rx == Bad && v == LOST)))
  }

  // A message is received exactly when each of its characters arrives in one copy or the other, and it is
  // complete as soon as the second copy of the last one is in.
  lemma TimeDiversity(heard: seq<Received>, o: nat, c: seq<bv8>)
    requires Message(c) && |heard| == Second(o, |c| - 1) + 1
    ensures (Complete(heard, o) && Characters(heard, o) == c)
            <==> forall k: nat :: k < |c| ==> Arrives(heard, o, k, c[k])
  {
    var d := Characters(heard, o);
    assert |d| == |c|;
    if forall k: nat :: k < |c| ==> Arrives(heard, o, k, c[k]) {
      assert d == c;
      var front := d[..|d| - 1];
      forall k: nat | k < |front| ensures !Ends(front, k) {
        if k > 0 { assert !IsEndOfSignal(c[k - 1]); }
      }
    } else {
      var k: nat :| k < |c| && !Arrives(heard, o, k, c[k]);
      assert d[k] != c[k];
    }
  }

  // ---- Errors counted ---------------------------------------------------------------------------

  // How far two copies of a character disagree.
  function Disagreement(dx: Received, rx: Received): nat {
    if dx.Sym? then (if dx != rx then 1 else 0) else if rx.Sym? then 1 else 2
  }

  // The errors counted on symbol n. The phasing symbols between the first characters are compared with
  // 106 and 105 one position late: the sequence has 105 and 104 there.
  function ErrorsAt(heard: seq<Received>, o: nat, n: nat): nat
    requires n < |heard| && o <= 9
  {
    if n < o then (if heard[n] != Sym(EXPECTED[9 - o + n]) then 1 else 0)
    else if n == o + 1 then (if heard[n] != Sym(106) then 1 else 0)
    else if n == o + 3 then (if heard[n] != Sym(105) then 1 else 0)
    else if n >= o + 5 && (n - o - 5) % 2 == 0 then Disagreement(heard[n - 5], heard[n])
    else 0
  }

  function Errors(heard: seq<Received>, o: nat): nat
    requires o <= 9
  {
    if heard == [] then 0
    else Errors(heard[..|heard| - 1], o) + ErrorsAt(heard, o, |heard| - 1)
  }

  lemma ErrorsGrow(heard: seq<Received>, s: Received, o: nat)
    requires o <= 9
    ensures Errors(heard + [s], o) == Errors(heard, o) + ErrorsAt(heard + [s], o, |heard|)
  {
    assert (heard + [s])[..|heard|] == heard;
  }

  // Symbols with no damage at all: the phasing sequence, and every character twice.
  predicate Clean(heard: seq<Received>, o: nat)
    requires o <= 9
  {
    && (forall n: nat :: n < |heard| && n < o ==> heard[n] == Sym(EXPECTED[9 - o + n]))
    && (|heard| > o + 1 ==> heard[o + 1] == Sym(105)) && (|heard| > o + 3 ==> heard[o + 3] == Sym(104))
    && (forall n: nat :: o + 5 <= n < |heard| && (n - o - 5) % 2 == 0 ==> heard[n] == heard[n - 5] && heard[n].Sym?)
  }

  // A clean call is reported with exactly two errors, because of the two positions compared late.
  lemma {:induction false} CleanErrors(heard: seq<Received>, o: nat)
    requires o <= 9 && Clean(heard, o)
    ensures Errors(heard, o) == if |heard| > o + 3 then 2 else if |heard| > o + 1 then 1 else 0
  {
    if heard != [] { CleanErrors(heard[..|heard| - 1], o); }
  }

  // The phasing symbols, and the copies of every character that is complete: the places where damage counts.
  predicate Counts(o: nat, len: nat, n: nat) {
    n < len && (n < o || (if (n - o) % 2 == 0 then n + 5 < len else n >= o + 5))
  }

  function DamagedPlaces(heard: seq<Received>, o: nat): set<nat> {
    set n: nat | n < |heard| && Counts(o, |heard|, n) && heard[n] == Bad
  }

  // Every symbol is as it was sent, or shows its damage: the two copies of a character that arrive agree. The
  // two phasing symbols that are compared late may be anything but what they are compared with.
  predicate ShowsDamage(heard: seq<Received>, o: nat)
    requires o <= 9
  {
    && (forall n: nat :: n < |heard| && n < o ==> heard[n] in {Sym(EXPECTED[9 - o + n]), Bad})
    && (|heard| > o + 1 ==> heard[o + 1] != Sym(106)) && (|heard| > o + 3 ==> heard[o + 3] != Sym(105))
    && (forall n: nat :: o + 5 <= n < |heard| && (n - o - 5) % 2 == 0 && heard[n].Sym? && heard[n - 5].Sym? ==>
          heard[n] == heard[n - 5])
  }

  // What one symbol more adds to the damaged places: its own, and that of the first copy it completes.
  function NewlyDamaged(heard: seq<Received>, o: nat, n: nat): set<nat>
    requires n < |heard|
  {
    if n < o || (n >= o + 5 && (n - o) % 2 == 1) then
      (if heard[n] == Bad then {n} else {}) + (if n >= o + 5 && heard[n - 5] == Bad then {n - 5} else {})
    else {}
  }

  lemma DamageGrows(heard: seq<Received>, o: nat, n: nat)
    requires |heard| == n + 1
    ensures var before, more := DamagedPlaces(heard[..n], o), NewlyDamaged(heard, o, n);
            DamagedPlaces(heard, o) == before + more && before !! more
  {
  }

  lemma DamageAt(heard: seq<Received>, o: nat, n: nat)
    requires |heard| == n + 1 && o <= 9 && ShowsDamage(heard, o)
    ensures ErrorsAt(heard, o, n) == |NewlyDamaged(heard, o, n)| + if n == o + 1 || n == o + 3 then 1 else 0
  {
  }

  lemma DamageShown(heard: seq<Received>, o: nat, n: nat)
    requires |heard| == n + 1 && o <= 9 && ShowsDamage(heard, o)
    ensures ShowsDamage(heard[..n], o)
  {
  }

  // Each damaged place counts one error, beside the two that are always counted.
  lemma {:induction false} DamageCounted(heard: seq<Received>, o: nat)
    requires o <= 9 && ShowsDamage(heard, o)
    ensures Errors(heard, o)
            == |DamagedPlaces(heard, o)| + if |heard| > o + 3 then 2 else if |heard| > o + 1 then 1 else 0
  {
    if heard == [] {
      assert DamagedPlaces(heard, o) == {};
    } else {
      hide DamagedPlaces, NewlyDamaged, ErrorsAt, ShowsDamage;
      var n := |heard| - 1;
      DamageShown(heard, o, n);
      DamageCounted(heard[..n], o);
      DamageAt(heard, o, n);
      assert |DamagedPlaces(heard, o)| == |DamagedPlaces(heard[..n], o)| + |NewlyDamaged(heard, o, n)| by {
        DamageGrows(heard, o, n);
      }
    }
  }

  // ---- The state machine ------------------------------------------------------------------------

  datatype State = PHASING | FILL_DX | FILL_RX | DX | RX | DX_EOS | RX_EOS | DONE | NO_EOS

  // The decoder's fields as a value.
  datatype Fields = Fields(state: State, buf: seq<Received>, idx: int, errors: int, phaseIdx: int, bytes: seq<bv8>) {
    predicate Finished() { state == DONE || state == NO_EOS }

    // The bytes grew to a whole message, or by one character.
    function Took(s: Received): Fields
      requires 0 <= idx < |buf|
    {
      this.(bytes := bytes + [Select(buf[idx], s)], errors := errors + Disagreement(buf[idx], s))
    }

    function Stored(s: Received): Fields
      requires 0 <= idx < |buf|
    {
      this.(buf := buf[idx := s], idx := Next(idx))
    }

    // Slot i of the ring holds the first copy of character k.
    predicate Holds(i: int, k: nat, heard: seq<Received>, o: nat) {
      0 <= i < |buf| && First(o, k) < |heard| && buf[i] == heard[First(o, k)]
    }

    // The ring holds the next three characters, oldest at idx.
    predicate Delayed(heard: seq<Received>, o: nat) {
      var k := |bytes|;
      0 <= idx < 3 && |heard| == Second(o, k)
      && Holds(idx, k, heard, o) && Holds(Next(idx), k + 1, heard, o) && Holds(Next(Next(idx)), k + 2, heard, o)
    }

    // The ring holds the next two, and the slot at idx is free.
    predicate Behind(heard: seq<Received>, o: nat) {
      var k := |bytes|;
      k > 0 && 0 <= idx < 3 && |heard| == Second(o, k) - 1
      && Holds(Next(idx), k, heard, o) && Holds(Next(Next(idx)), k + 1, heard, o)
    }

    // What each state says about the symbols since Init(o).
    predicate At(heard: seq<Received>, o: nat) {
      var n := |heard|;
      var last := bytes != [] && IsEndOfSignal(bytes[|bytes| - 1]);
      match state
      case PHASING => n < o && phaseIdx == o - n && idx == 0
      case FILL_DX => 0 <= idx < 3 && n == First(o, idx) && (idx > 0 ==> Holds(0, 0, heard, o))
        && (idx > 1 ==> Holds(1, 1, heard, o))
      case FILL_RX => 0 < idx < 3 && n == First(o, idx) - 1 && Holds(0, 0, heard, o)
        && (idx > 1 ==> Holds(1, 1, heard, o))
      case RX => !last && Delayed(heard, o)
      case RX_EOS => last && Delayed(heard, o)
      case DX => !last && Behind(heard, o)
      case DX_EOS => last && Behind(heard, o)
      case DONE => true
      case NO_EOS => true
    }

    // The fields are what the symbols since Init(o) make them.
    predicate Means(heard: seq<Received>, o: nat) {
      && |buf| == BUFFER_SIZE && o <= 9 && At(heard, o)
      && errors == Errors(heard, o) && bytes == Characters(heard, o)
      && if Finished() then Complete(heard, o) else Pending(heard, o)
    }
  }

  function Next(i: int): int { (i + 1) % BUFFER_SIZE }

  // The fields after one more symbol.
  function Step(f: Fields, s: Received): Fields
    requires |f.buf| == BUFFER_SIZE && (f.Finished() || 0 <= f.idx < 3) && (f.state == PHASING ==> 1 <= f.phaseIdx <= 9)
  {
    match f.state
    case PHASING =>
      f.(errors := f.errors + if s != Sym(EXPECTED[9 - f.phaseIdx]) then 1 else 0,
         phaseIdx := f.phaseIdx - 1, state := if f.phaseIdx == 1 then FILL_DX else PHASING)
    case FILL_DX => f.Stored(s).(state := if f.idx == 2 then RX else FILL_RX)
    case FILL_RX =>
      f.(errors := f.errors + if (f.idx == 1 && s != Sym(106)) || (f.idx == 2 && s != Sym(105)) then 1 else 0,
         state := FILL_DX)
    case RX =>
      var t := f.Took(s);
      if |t.bytes| > MAX_BYTES then t.(state := NO_EOS)
      else t.(state := if IsEndOfSignal(Select(f.buf[f.idx], s)) then DX_EOS else DX)
    case DX => f.Stored(s).(state := RX)
    case DX_EOS => f.Stored(s).(state := RX_EOS)
    case RX_EOS => f.Took(s).(state := DONE)
    case DONE => f
    case NO_EOS => f
  }

  // Fields just initialised stand for no symbols at all.
  lemma Starts(f: Fields, heard: seq<Received>, o: nat)
    requires |heard| == 0 && |f.buf| == BUFFER_SIZE && o <= 9 && f.idx == 0 && f.errors == 0 && f.bytes == []
    requires if o == 0 then f.state == FILL_DX else f.state == PHASING && f.phaseIdx == o
    ensures f.Means(heard, o)
  {
    assert Characters(heard, o) == [] && Errors(heard, o) == 0;
    assert f.At(heard, o);
    assert Running(Characters(heard, o));
  }

  lemma RunningGrow(c: seq<bv8>, x: bv8)
    requires Running(c) && !Ends(c + [x], |c|)
    ensures Running(c + [x])
  {
    forall k: nat | k < |c + [x]| ensures !Ends(c + [x], k) {
      if k < |c| { assert !Ends(c, k); }
    }
  }

  lemma StepOnFill(f: Fields, s: Received, heard: seq<Received>, o: nat)
    requires f.Means(heard, o) && (f.state == PHASING || f.state == FILL_DX || f.state == FILL_RX)
    ensures Step(f, s).Means(heard + [s], o)
  {
    hide Errors, Characters, Complete, Running, Select, Disagreement;
    ErrorsGrow(heard, s, o);
    NoCharacter(heard, s, o);
  }

  lemma StepOnFirst(f: Fields, s: Received, heard: seq<Received>, o: nat)
    requires f.Means(heard, o) && (f.state == DX || f.state == DX_EOS)
    ensures Step(f, s).Means(heard + [s], o)
  {
    hide Errors, Characters, Complete, Running, Select, Disagreement;
    ErrorsGrow(heard, s, o);
    NoCharacter(heard, s, o);
    assert Next(Next(Next(f.idx))) == f.idx;
  }

  // The second copy of character k either finishes the message or leaves it pending.
  lemma FinishesOrNot(heard: seq<Received>, s: Received, o: nat, k: nat)
    requires |heard| == Second(o, k) && Pending(heard, o)
    ensures k <= MAX_BYTES && |Characters(heard + [s], o)| == k + 1
    ensures if Ends(Characters(heard + [s], o), k) then Complete(heard + [s], o) else Pending(heard + [s], o)
  {
    CharacterDone(heard, s, o, k);
    var b, c := Characters(heard, o), Characters(heard + [s], o);
    assert c[..k] == b;
    if k > MAX_BYTES { assert Ends(b, MAX_BYTES); }
    if !Ends(c, k) { RunningGrow(b, c[k]); }
  }

  lemma StepOnSecond(f: Fields, s: Received, heard: seq<Received>, o: nat)
    requires f.Means(heard, o) && f.state == RX
    ensures Step(f, s).Means(heard + [s], o)
  {
    hide Errors, Characters, Complete, Pending;
    ErrorsGrow(heard, s, o);
    CharacterDone(heard, s, o, |f.bytes|);
    FinishesOrNot(heard, s, o, |f.bytes|);
    assert Next(Next(Next(f.idx))) == f.idx;
  }

  lemma StepOnLast(f: Fields, s: Received, heard: seq<Received>, o: nat)
    requires f.Means(heard, o) && f.state == RX_EOS
    ensures Step(f, s).Means(heard + [s], o)
  {
    hide Errors, Characters, Complete, Pending;
    ErrorsGrow(heard, s, o);
    CharacterDone(heard, s, o, |f.bytes|);
    FinishesOrNot(heard, s, o, |f.bytes|);
  }

  // Every symbol keeps the fields' meaning.
  lemma StepKeeps(f: Fields, s: Received, heard: seq<Received>, o: nat)
    requires f.Means(heard, o)
    ensures f.Finished() ==> Step(f, s) == f
    ensures !f.Finished() ==> Step(f, s).Means(heard + [s], o)
  {
    if f.state == RX {
      StepOnSecond(f, s, heard, o);
    } else if f.state == RX_EOS {
      StepOnLast(f, s, heard, o);
    } else if f.state == DX || f.state == DX_EOS {
      StepOnFirst(f, s, heard, o);
    } else if !f.Finished() {
      StepOnFill(f, s, heard, o);
    }
  }

  class DSCDecoder {
    var state: State
    const buf: array<Received>
    var idx: int
    var errors: int
    var phaseIdx: int
    var eos: bool
    var bytes: seq<bv8>

    // The symbols since the last Init, until the message was complete.
    ghost var heard: seq<Received>
    ghost var offset: nat

    ghost predicate Finished()
      reads this
    {
      state == DONE || state == NO_EOS
    }

    ghost function Now(): Fields
      reads this, buf
    {
      Fields(state, buf[..], idx, errors, phaseIdx, bytes)
    }

    ghost predicate Valid()
      reads this, buf
    {
      Now().Means(heard, offset)
    }

    constructor ()
      ensures Valid() && fresh(buf) && heard == [] && offset == 0
    {
      buf := new Received[BUFFER_SIZE];
      state, idx, errors, phaseIdx, eos, bytes := FILL_DX, 0, 0, 0, false, [];
      heard, offset := [], 0;
      new;
      Starts(Now(), heard, 0);
    }

    method Init(o: int)
      requires Valid() && 0 <= o <= 9
      modifies this
      ensures Valid() && offset == o && heard == [] && !Finished()
    {
      if o == 0 {
        state := FILL_DX;
      } else {
        phaseIdx := o;
        state := PHASING;
      }
      idx, errors, bytes, eos := 0, 0, [], false;
      heard, offset := [], o;
      Starts(Now(), heard, o);
    }

    method SelectSymbol(dx: Received, rx: Received) returns (s: bv8)
      modifies this`errors, this`bytes
      ensures s == Select(dx, rx)
      ensures errors == old(errors) + Disagreement(dx, rx) && bytes == old(bytes) + [s]
    {
      if dx.Sym? {
        s := dx.value;
        if dx != rx { errors := errors + 1; }
      } else if rx.Sym? {
        s := rx.value;
        errors := errors + 1;
      } else {
        s := LOST;
        errors := errors + 2;
      }
      bytes := bytes + [s];
    }

    // True exactly when this symbol completes the message.
    method DecodeSymbol(s: Received) returns (done: bool)
      requires buf.Length == BUFFER_SIZE && (Finished() || 0 <= idx < 3) && (state == PHASING ==> 1 <= phaseIdx <= 9)
      modifies this`state, this`idx, this`errors, this`phaseIdx, this`bytes, buf
      ensures Now() == Step(old(Now()), s)
      ensures done == (!old(Finished()) && Finished())
    {
      hide Select, Disagreement, IsEndOfSignal;
      done := false;
      match state {
        case PHASING =>
          if s != Sym(EXPECTED[9 - phaseIdx]) { errors := errors + 1; }
          phaseIdx := phaseIdx - 1;
          if phaseIdx == 0 { state := FILL_DX; }
        case FILL_DX =>
          buf[idx] := s;
          assert buf[..] == old(buf[..])[idx := s];
          idx := idx + 1;
          if idx == BUFFER_SIZE {
            state := RX;
            idx := 0;
          } else {
            state := FILL_RX;
          }
        case FILL_RX =>
          if (idx == 1 && s != Sym(106)) || (idx == 2 && s != Sym(105)) { errors := errors + 1; }
          state := FILL_DX;
        case RX =>
          var a := SelectSymbol(buf[idx], s);
          if IsEndOfSignal(a) { state := DX_EOS; } else { state := DX; }
          if |bytes| > MAX_BYTES {
            done := true;
            state := NO_EOS;
          }
        case DX =>
          buf[idx] := s;
          assert buf[..] == old(buf[..])[idx := s];
          idx := (idx + 1) % BUFFER_SIZE;
          state := RX;
        case DX_EOS =>
          buf[idx] := s;
          assert buf[..] == old(buf[..])[idx := s];
          idx := (idx + 1) % BUFFER_SIZE;
          state := RX_EOS;
        case RX_EOS =>
          var _ := SelectSymbol(buf[idx], s);
          state := DONE;
          done := true;
        case DONE =>
        case NO_EOS =>
      }
    }

    // Ten bits more; true when they complete a message, which bytes and errors then describe.
    method DecodeBits(bits: bv32) returns (done: bool)
      requires Valid() && !Finished() && bits <= 0x3FF
      modifies this, buf
      ensures Valid() && offset == old(offset) <= 9 && heard == old(heard) + [BitsToSymbol(bits)] && done == Finished()
      ensures if done then Complete(heard, offset) && bytes == Characters(heard, offset)
              && errors == Errors(heard, offset)
              else Pending(heard, offset)
    {
      var s := BitsToSymbol(bits);
      StepKeeps(Now(), s, heard, offset);
      heard := heard + [s];
      done := DecodeSymbol(s);
    }
  }
}
