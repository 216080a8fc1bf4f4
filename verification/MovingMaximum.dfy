/**
  * The largest of the last few samples, twice: the cached maximum over a circular buffer, and the deque that
  * looks at every sample each time.
  */
module MovingMaximums {

  function Max(x: real, y: real): real { if x < y then y else x }

  // The last samples, as many as the window holds.
  function Window(pushed: seq<real>, size: nat): (w: seq<real>)
    ensures |w| == if |pushed| <= size then |pushed| else size
  {
    if |pushed| <= size then pushed else pushed[|pushed| - size..]
  }

  // m is the largest of s.
  predicate IsMaximum(m: real, s: seq<real>) {
    m in s && forall x :: x in s ==> x <= m
  }

  lemma OneMaximum(m: real, n: real, s: seq<real>)
    requires IsMaximum(m, s) && IsMaximum(n, s)
    ensures m == n
  {
  }

  lemma IsMaximumAppend(m: real, s: seq<real>, x: real)
    requires IsMaximum(m, s)
    ensures IsMaximum(Max(m, x), s + [x])
  {
  }

  lemma OnlyOne(x: real)
    ensures IsMaximum(x, [x])
  {
  }

  lemma RingStart<T>(s: seq<T>)
    ensures Ring(s, 0) == s
  {
  }

  // Dropping the oldest sample leaves the maximum alone unless it was the oldest.
  lemma IsMaximumDrop(m: real, oldest: real, s: seq<real>, x: real)
    requires IsMaximum(m, [oldest] + s) && oldest < Max(m, x)
    ensures IsMaximum(Max(m, x), s + [x])
  {
    var t := [oldest] + s;
    var i :| 0 <= i < |t| && t[i] == m;
    assert Max(m, x) in s + [x] by {
      if m < x { assert (s + [x])[|s|] == x; } else { assert (s + [x])[i - 1] == m; }
    }
    forall y | y in s + [x] ensures y <= Max(m, x) {
      if y in s { assert y in t; }
    }
  }

  // A circular buffer read from place i on.
  function Ring<T>(s: seq<T>, i: nat): seq<T>
    requires i <= |s|
  {
    s[i..] + s[..i]
  }

  // A rotation has the same maximum.
  lemma IsMaximumRotate(m: real, s: seq<real>, i: nat)
    requires i <= |s|
    ensures IsMaximum(m, Ring(s, i)) == IsMaximum(m, s)
  {
    assert s == s[..i] + s[i..];
    assert forall x :: x in s <==> x in s[i..] + s[..i];
  }

  // Overwriting the oldest sample of a ring and moving on drops it and appends the new one.
  lemma Rotated<T>(s: seq<T>, i: nat, x: T)
    requires i < |s|
    ensures Ring(s, i) == [s[i]] + Ring(s, i)[1..]
    ensures Ring(s[i := x], if i + 1 < |s| then i + 1 else 0) == Ring(s, i)[1..] + [x]
  {
    var t := s[i := x];
    assert s[i..] == [s[i]] + s[i + 1..];
    assert Ring(s, i)[1..] == s[i + 1..] + s[..i];
    if i + 1 < |s| {
      assert t[i + 1..] == s[i + 1..] && t[..i + 1] == s[..i] + [x];
    } else {
      assert Ring(t, 0) == t;
      assert t == s[..i] + [x];
    }
  }

  lemma NextIndex(i: nat, n: nat)
    requires i < n
    ensures (i + 1) % n == if i + 1 < n then i + 1 else 0
  {
  }

  lemma WindowPush(pushed: seq<real>, x: real, size: nat)
    requires size > 0
    ensures Window(pushed + [x], size)
            == if |pushed| < size then Window(pushed, size) + [x] else Window(pushed, size)[1..] + [x]
  {
  }

  datatype Reading = NotANumber | Number(value: real)

  // What is shown for a window: its maximum, if it has one.
  predicate Shows(m: Reading, window: seq<real>) {
    if window == [] then m == NotANumber else m.Number? && IsMaximum(m.value, window)
  }

  // The circular buffer with a cached maximum, looked for again only when the oldest sample may have been it.
  class CachedMaximum {
    var samples: array<real>
    var count: int
    var index: int
    var max: Reading

    ghost var pushed: seq<real>

    ghost predicate Valid()
      reads this, samples
    {
      && samples.Length > 0 && count == |Window(pushed, samples.Length)| && 0 <= index < samples.Length
      && (count < samples.Length ==> index == 0)
      && (count < samples.Length ==> samples[..count] == Window(pushed, samples.Length))
      && (count == samples.Length ==> Ring(samples[..], index) == Window(pushed, samples.Length))
      && Shows(max, Window(pushed, samples.Length))
    }

    constructor (size: int)
      requires size > 0
      ensures Valid() && fresh(samples) && pushed == [] && samples.Length == size
    {
      samples := new real[size](_ => 0.0);
      count, index, max := 0, 0, NotANumber;
      pushed := [];
    }

    method Reset()
      requires samples.Length > 0
      modifies this
      ensures Valid() && samples == old(samples) && pushed == []
    {
      count, index, max := 0, 0, NotANumber;
      pushed := [];
    }

    // A buffer of another size, as new.
    method SetSize(size: int)
      requires size > 0
      modifies this
      ensures Valid() && fresh(samples) && samples.Length == size && pushed == []
    {
      samples := new real[size](_ => 0.0);
      Reset();
    }

    method Push(sample: real)
      requires Valid()
      modifies this, samples
      ensures Valid() && samples == old(samples) && pushed == old(pushed) + [sample]
    {
      WindowPush(pushed, sample, samples.Length);
      if count < samples.Length { PushGrowing(sample); } else { PushFull(sample); }
    }

    // While the buffer still fills, nothing leaves the window.
    method PushGrowing(sample: real)
      requires Valid() && count < samples.Length
      modifies this, samples
      ensures Valid() && samples == old(samples) && pushed == old(pushed) + [sample]
    {
      hide Ring, IsMaximum, Window;
      ghost var before := Window(pushed, samples.Length);
      WindowPush(pushed, sample, samples.Length);
      pushed := pushed + [sample];
      samples[count] := sample;
      count := count + 1;
      if count == 1 {
        OnlyOne(sample);
        assert before + [sample] == [sample];
        max := Number(sample);
      } else {
        IsMaximumAppend(max.value, before, sample);
        max := Number(Max(max.value, sample));
      }
      assert samples[..count] == before + [sample];
      RingStart(samples[..]);
      assert count == samples.Length ==> samples[..] == samples[..count];
    }

    // Then the oldest sample leaves, and the maximum is looked for again if that may have been it.
    method PushFull(sample: real)
      requires Valid() && count == samples.Length
      modifies this, samples
      ensures Valid() && samples == old(samples) && pushed == old(pushed) + [sample]
    {
      hide Ring, IsMaximum, Window, Max;
      ghost var before := Window(pushed, samples.Length);
      WindowPush(pushed, sample, samples.Length);
      pushed := pushed + [sample];
      var oldest := samples[index];
      ghost var all := samples[..];
      Rotated(all, index, sample);
      assert before == Ring(all, index) == [oldest] + before[1..];
      ghost var after := before[1..] + [sample];
      samples[index] := sample;
      assert samples[..] == all[index := sample];
      NextIndex(index, samples.Length);
      index := (index + 1) % samples.Length;
      if oldest < Max(max.value, sample) { IsMaximumDrop(max.value, oldest, before[1..], sample); }
      max := Number(Max(max.value, sample));
      if oldest >= max.value {
        Rescan();
        IsMaximumRotate(max.value, samples[..], index);
      }
    }

    // Look at every sample for the maximum.
    method Rescan()
      requires samples.Length > 0
      modifies this`max
      ensures max.Number? && IsMaximum(max.value, samples[..])
    {
      max := Number(samples[0]);
      for i := 1 to samples.Length
        invariant max.Number? && IsMaximum(max.value, samples[..i])
      {
        assert samples[..i + 1] == samples[..i] + [samples[i]];
        IsMaximumAppend(max.value, samples[..i], samples[i]);
        max := Number(Max(max.value, samples[i]));
      }
      assert samples[..samples.Length] == samples[..];
    }

    // The maximum of the window, and not a number for none.
    method GetMaximum() returns (m: Reading)
      requires Valid()
      ensures m.NotANumber? <==> pushed == []
      ensures m.Number? ==> IsMaximum(m.value, Window(pushed, samples.Length))
    {
      m := max;
    }
  }

  // The deque that keeps the last samples and scans them.
  class DequeMaximum {
    const size: int
    var buf: seq<real>

    ghost var pushed: seq<real>

    ghost predicate Valid()
      reads this
    {
      size > 0 && buf == Window(pushed, size)
    }

    constructor (size: int)
      requires size > 0
      ensures Valid() && this.size == size && pushed == []
    {
      this.size := size;
      buf, pushed := [], [];
    }

    method Push(v: real)
      requires Valid()
      modifies this
      ensures Valid() && pushed == old(pushed) + [v]
    {
      WindowPush(pushed, v, size);
      buf := buf + [v];
      if |buf| > size {
        assert (old(buf) + [v])[1..] == old(buf)[1..] + [v];
        buf := buf[1..];
      }
      pushed := pushed + [v];
    }

    method GetMaximum() returns (m: real)
      requires Valid()
      ensures if pushed == [] then m == 0.0 else IsMaximum(m, Window(pushed, size))
    {
      if |buf| == 0 { return 0.0; }
      m := buf[0];
      for i := 0 to |buf|
        invariant if i == 0 then m == buf[0] else IsMaximum(m, buf[..i])
      {
        if i > 0 {
          IsMaximumAppend(m, buf[..i], buf[i]);
        }
        assert buf[..i + 1] == buf[..i] + [buf[i]];
        if buf[i] > m { m := buf[i]; }
      }
      assert buf[..|buf|] == buf;
    }
  }

  // After any samples the two give the same maximum, every time.
  method Agree(values: seq<real>, size: int) returns (cached: seq<real>, scanned: seq<real>)
    requires size > 0
    ensures cached == scanned && |cached| == |values|
    ensures forall i :: 0 <= i < |values| ==> IsMaximum(cached[i], Window(values[..i + 1], size))
  {
    hide IsMaximum, Window, Ring;
    var a := new CachedMaximum(size);
    var b := new DequeMaximum(size);
    cached, scanned := [], [];
    for i := 0 to |values|
      invariant a.Valid() && b.Valid() && fresh(a) && fresh(a.samples) && fresh(b) && a.samples.Length == b.size == size
      invariant a.pushed == b.pushed == values[..i]
      invariant cached == scanned && |cached| == i
      invariant forall j :: 0 <= j < i ==> IsMaximum(cached[j], Window(values[..j + 1], size))
    {
      assert values[..i + 1] == values[..i] + [values[i]];
      a.Push(values[i]);
      b.Push(values[i]);
      var m := a.GetMaximum();
      var n := b.GetMaximum();
      OneMaximum(m.value, n, Window(values[..i + 1], size));
      cached, scanned := cached + [m.value], scanned + [n];
    }
  }
}
