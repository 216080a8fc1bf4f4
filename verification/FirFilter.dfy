/**
  * The symmetric FIR filter over a ring buffer of complex samples, on exact numbers: half of the taps are
  * stored, and the two halves of the history are folded with indices that move in opposite directions.
  */
module FirFilters {
  import opened MovingMaximums

  // A real signal is one without imaginary parts.
  datatype Complex = Complex(re: real, im: real) {
    function Plus(z: Complex): Complex { Complex(re + z.re, im + z.im) }

    function Times(t: real): Complex { Complex(re * t, im * t) }
  }

  const ZERO: Complex := Complex(0.0, 0.0)

  lemma PlusAssociates(x: Complex, y: Complex, z: Complex)
    ensures x.Plus(y).Plus(z) == x.Plus(y.Plus(z))
  {
  }

  lemma TimesDistributes(x: Complex, y: Complex, t: real)
    ensures x.Plus(y).Times(t) == x.Times(t).Plus(y.Times(t))
  {
  }

  function Sum(s: seq<Complex>): Complex {
    if s == [] then ZERO else s[0].Plus(Sum(s[1..]))
  }

  lemma {:induction false} SumAppend(s: seq<Complex>, x: Complex)
    ensures Sum(s + [x]) == Sum(s).Plus(x)
    decreases |s|
  {
    if s == [] {
      assert s + [x] == [x];
    } else {
      assert (s + [x])[1..] == s[1..] + [x];
      SumAppend(s[1..], x);
    }
  }

  // A sum from the outside in.
  lemma SumEnds(s: seq<Complex>)
    requires |s| >= 2
    ensures Sum(s) == s[0].Plus(s[|s| - 1]).Plus(Sum(s[1..|s| - 1]))
  {
    var n := |s| - 1;
    assert s[1..] == s[1..n] + [s[n]];
    SumAppend(s[1..n], s[n]);
  }

  // All the taps: those stored, and the same again in reverse but for the last.
  function Mirrored(taps: seq<real>): (h: seq<real>)
    requires taps != []
    ensures |h| == 2 * |taps| - 1
  {
    seq(2 * |taps| - 1, k requires 0 <= k < 2 * |taps| - 1 => if k < |taps| then taps[k] else taps[2 * |taps| - 2 - k])
  }

  // Input number n; before the first there was silence.
  function At(inputs: seq<Complex>, n: int): Complex {
    if 0 <= n < |inputs| then inputs[n] else ZERO
  }

  // The terms of the convolution of the inputs with h at the latest input, newest first.
  function Terms(inputs: seq<Complex>, h: seq<real>): (t: seq<Complex>)
    ensures |t| == |h|
  {
    seq(|h|, k requires 0 <= k < |h| => At(inputs, |inputs| - 1 - k).Times(h[k]))
  }

  function Convolution(inputs: seq<Complex>, h: seq<real>): Complex {
    Sum(Terms(inputs, h))
  }

  // ---- Part by part -----------------------------------------------------------------------------

  function Reals(inputs: seq<Complex>): (x: seq<real>)
    ensures |x| == |inputs|
  {
    seq(|inputs|, k requires 0 <= k < |inputs| => inputs[k].re)
  }

  function Imaginaries(inputs: seq<Complex>): (x: seq<real>)
    ensures |x| == |inputs|
  {
    seq(|inputs|, k requires 0 <= k < |inputs| => inputs[k].im)
  }

  // The value n places back; before the first there was silence.
  function Back(x: seq<real>, n: nat): real
    requires n > 0
  {
    if n <= |x| then x[|x| - n] else 0.0
  }

  function Weigh(h: real, v: real): real { h * v }

  // The first n products of a convolution of real signals: the newest with the first weight, and so on back.
  function Weighted(x: seq<real>, h: seq<real>, n: nat): real
    requires n <= |h|
  {
    if n == 0 then 0.0 else Weighted(x, h, n - 1) + Weigh(h[n - 1], Back(x, n))
  }

  lemma TermParts(inputs: seq<Complex>, h: seq<real>, n: nat)
    requires 0 < n <= |h|
    ensures var t := Terms(inputs, h)[n - 1];
            && t.re == Weigh(h[n - 1], Back(Reals(inputs), n))
            && t.im == Weigh(h[n - 1], Back(Imaginaries(inputs), n))
  {
    assert Terms(inputs, h)[n - 1] == At(inputs, |inputs| - n).Times(h[n - 1]);
  }

  // The convolution is that of the real parts and that of the imaginary ones.
  lemma {:induction false} PartsConvolve(inputs: seq<Complex>, h: seq<real>, n: nat)
    requires n <= |h|
    ensures var s := Sum(Terms(inputs, h)[..n]);
            s.re == Weighted(Reals(inputs), h, n) && s.im == Weighted(Imaginaries(inputs), h, n)
  {
    var t := Terms(inputs, h);
    if n == 0 {
      assert t[..0] == [];
    } else {
      hide Terms, Sum, Reals, Imaginaries, Back, Weigh;
      PartsConvolve(inputs, h, n - 1);
      assert t[..n] == t[..n - 1] + [t[n - 1]];
      SumAppend(t[..n - 1], t[n - 1]);
      TermParts(inputs, h, n);
    }
  }

  lemma ConvolutionParts(inputs: seq<Complex>, h: seq<real>)
    ensures Convolution(inputs, h)
            == Complex(Weighted(Reals(inputs), h, |h|), Weighted(Imaginaries(inputs), h, |h|))
  {
    PartsConvolve(inputs, h, |h|);
    assert Terms(inputs, h)[..|h|] == Terms(inputs, h);
  }

  // The last n inputs, oldest first.
  function History(inputs: seq<Complex>, n: nat): (s: seq<Complex>)
    ensures |s| == n
  {
    seq(n, k requires 0 <= k < n => At(inputs, |inputs| - n + k))
  }

  lemma HistoryPush(inputs: seq<Complex>, x: Complex, n: nat)
    requires n > 0
    ensures History(inputs + [x], n) == History(inputs, n)[1..] + [x]
  {
    var before, after := History(inputs, n), History(inputs + [x], n);
    forall k | 0 <= k < n - 1 ensures after[k] == before[1..][k] {
      assert before[1..][k] == before[k + 1] == At(inputs, |inputs| - n + k + 1);
      assert after[k] == At(inputs + [x], |inputs| + 1 - n + k);
    }
    assert after == after[..n - 1] + [after[n - 1]];
    assert after[n - 1] == At(inputs + [x], |inputs|) == x;
    assert after[..n - 1] == before[1..];
  }

  lemma Silence(s: seq<Complex>)
    requires forall k :: 0 <= k < |s| ==> s[k] == ZERO
    ensures s == History([], |s|)
  {
    var inputs: seq<Complex> := [];
    forall k | 0 <= k < |s| ensures s[k] == History(inputs, |s|)[k] {
      assert History(inputs, |s|)[k] == At(inputs, |inputs| - |s| + k);
    }
  }

  // What a ring shows at place k.
  lemma RingAt(s: seq<Complex>, i: nat, k: nat)
    requires i < |s| && k < |s|
    ensures Ring(s, i)[k] == s[if i + k < |s| then i + k else i + k - |s|]
  {
  }

  // One fold: the terms at both ends have the same tap.
  lemma Fold(inputs: seq<Complex>, taps: seq<real>, i: nat, newer: Complex, older: Complex)
    requires taps != [] && i < |taps| - 1
    requires newer == At(inputs, |inputs| - 1 - i) && older == At(inputs, |inputs| - 2 * |taps| + 1 + i)
    ensures var t := Terms(inputs, Mirrored(taps));
            Sum(t[i..|t| - i]) == newer.Plus(older).Times(taps[i]).Plus(Sum(t[i + 1..|t| - i - 1]))
  {
    var t := Terms(inputs, Mirrored(taps));
    var m := t[i..|t| - i];
    SumEnds(m);
    assert m[1..|m| - 1] == t[i + 1..|t| - i - 1];
    assert m[0] == newer.Times(taps[i]) && m[|m| - 1] == older.Times(taps[i]);
    TimesDistributes(newer, older, taps[i]);
  }

  class FirFilter {
    const taps: seq<real>
    const samples: array<Complex>
    var ptr: int

    ghost var inputs: seq<Complex>

    ghost predicate Valid()
      reads this, samples
    {
      && taps != [] && samples.Length == 2 * |taps| - 1 && 0 <= ptr < samples.Length
      && Ring(samples[..], ptr) == History(inputs, samples.Length)
    }

    constructor (taps: seq<real>)
      requires taps != []
      ensures Valid() && fresh(samples) && inputs == [] && this.taps == taps
    {
      this.taps := taps;
      samples := new Complex[2 * |taps| - 1](_ => ZERO);
      ptr, inputs := 0, [];
      new;
      RingStart(samples[..]);
      Silence(samples[..]);
    }

    method Filter(sample: Complex) returns (acc: Complex)
      requires Valid()
      modifies this, samples
      ensures Valid() && inputs == old(inputs) + [sample]
      ensures acc == Convolution(inputs, Mirrored(taps))
    {
      hide Ring, History, At, Terms, Mirrored, Sum, Complex.Plus, Complex.Times;
      acc := ZERO;
      var nSamples := samples.Length;
      var nTaps := |taps| - 1;
      var a := ptr;
      var b := if a == nSamples - 1 then 0 else a + 1;
      Rotated(samples[..], ptr, sample);
      HistoryPush(inputs, sample, nSamples);
      ghost var next := b;
      samples[ptr] := sample;
      inputs := inputs + [sample];
      assert samples[..] == old(samples[..])[ptr := sample];
      Started(inputs, taps);
      for i := 0 to nTaps
        invariant ptr == old(ptr) && inputs == old(inputs) + [sample]
        invariant samples[..] == old(samples[..])[ptr := sample]
        invariant a == Newer(nSamples, next, i) && b == Older(nSamples, next, i)
        invariant Folded(inputs, taps, i, acc)
      {
        Ends(samples[..], inputs, next, i);
        Folding(inputs, taps, i, acc, samples[a], samples[b]);
        acc := acc.Plus(samples[a].Plus(samples[b]).Times(taps[i]));
        a := if a == 0 then nSamples - 1 else a - 1;
        b := if b == nSamples - 1 then 0 else b + 1;
      }
      Ends(samples[..], inputs, next, nTaps);
      Middle(inputs, taps, samples[a]);
      acc := acc.Plus(samples[a].Times(taps[nTaps]));
      ptr := if ptr == nSamples - 1 then 0 else ptr + 1;
    }
  }

  // Where the newest input but i stands in a ring of n read from place j, and where the oldest but i does.
  function Newer(n: nat, j: nat, i: nat): (a: nat)
    requires j < n && i < n
    ensures a < n
  {
    if j + n - 1 - i < n then j + n - 1 - i else j - 1 - i
  }

  function Older(n: nat, j: nat, i: nat): (b: nat)
    requires j < n && i < n
    ensures b < n
  {
    if j + i < n then j + i else j + i - n
  }

  // acc is the sum of the convolution's first i terms and its last i.
  predicate Folded(inputs: seq<Complex>, taps: seq<real>, i: nat, acc: Complex)
    requires taps != [] && i < |taps|
  {
    var t := Terms(inputs, Mirrored(taps));
    acc.Plus(Sum(t[i..|t| - i])) == Sum(t)
  }

  lemma Started(inputs: seq<Complex>, taps: seq<real>)
    requires taps != []
    ensures Folded(inputs, taps, 0, ZERO)
  {
    var t := Terms(inputs, Mirrored(taps));
    assert t[0..|t| - 0] == t;
  }

  lemma Folding(inputs: seq<Complex>, taps: seq<real>, i: nat, acc: Complex, newer: Complex, older: Complex)
    requires taps != [] && i < |taps| - 1 && Folded(inputs, taps, i, acc)
    requires newer == At(inputs, |inputs| - 1 - i) && older == At(inputs, |inputs| - 2 * |taps| + 1 + i)
    ensures Folded(inputs, taps, i + 1, acc.Plus(newer.Plus(older).Times(taps[i])))
  {
    Fold(inputs, taps, i, newer, older);
    var t := Terms(inputs, Mirrored(taps));
    assert t[i + 1..|t| - (i + 1)] == t[i + 1..|t| - i - 1];
    PlusAssociates(acc, newer.Plus(older).Times(taps[i]), Sum(t[i + 1..|t| - i - 1]));
  }

  // They hold the two inputs that share tap i.
  lemma Ends(s: seq<Complex>, inputs: seq<Complex>, j: nat, i: nat)
    requires j < |s| && i < |s| && Ring(s, j) == History(inputs, |s|)
    ensures s[Newer(|s|, j, i)] == At(inputs, |inputs| - 1 - i)
    ensures s[Older(|s|, j, i)] == At(inputs, |inputs| - |s| + i)
  {
    RingAt(s, j, |s| - 1 - i);
    RingAt(s, j, i);
  }

  // The last term left is the middle one.
  lemma Middle(inputs: seq<Complex>, taps: seq<real>, x: Complex)
    requires taps != [] && x == At(inputs, |inputs| - |taps|)
    ensures var t, i := Terms(inputs, Mirrored(taps)), |taps| - 1;
            Sum(t[i..|t| - i]) == x.Times(taps[i])
  {
    var t, i := Terms(inputs, Mirrored(taps)), |taps| - 1;
    assert |t| - i == i + 1 && t[i] == x.Times(taps[i]);
    assert t[i..|t| - i] == [t[i]];
    assert Sum([t[i]]) == t[i].Plus(Sum([]));
  }
}
