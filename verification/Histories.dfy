/**
  * What every stage does with its taps and its history besides filtering: the linear history window
  * and its slide, and the per-packet scan of the taps.
  */
module Histories {
  import opened Machine
  import opened Predictor

  // The last `order` samples before `idx` of a linear history buffer.
  function Window(h: seq<int>, order: nat, idx: nat): (r: seq<int>)
    requires order <= idx <= |h|
    ensures |r| == order
  {
    h[idx - order..idx]
  }

  // The buffer once x has been entered at idx and, if that filled it, the newest `order` entries
  // copied back to the front; and the position the next sample goes to.
  function Pushed(h: seq<int>, order: nat, idx: nat, x: int): (r: seq<int>)
    requires order <= idx < |h|
    ensures |r| == |h|
  {
    var u := h[idx := x];
    if idx + 1 == |h| then Window(u, order, idx + 1) + u[order..] else u
  }

  function PushedIdx(len: nat, order: nat, idx: nat): (r: nat)
    requires order <= idx < len
    ensures order <= r < len
  {
    if idx + 1 == len then order else idx + 1
  }

  // Wherever the window stands, a push moves it one sample on.
  lemma PushedWindow(h: seq<int>, order: nat, idx: nat, x: int)
    requires 0 < order <= idx < |h|
    ensures Window(Pushed(h, order, idx, x), order, PushedIdx(|h|, order, idx)) == Slide(Window(h, order, idx), x)
  {
    assert Window(h[idx := x], order, idx + 1) == Slide(Window(h, order, idx), x);
  }

  lemma PushedFits(h: seq<int>, order: nat, idx: nat, x: int)
    requires order <= idx < |h| && AllFitS32(h) && FitsS32(x)
    ensures AllFitS32(Pushed(h, order, idx, x))
  {
    assert AllFitS32(h[idx := x]);
  }

  // Enter x in place; when the buffer is full, copy its tail to the front, oldest first.
  method PushInto(h: seq<int>, order: nat, idx: nat, x: int) returns (r: seq<int>)
    requires 0 < order <= idx < |h|
    ensures r == Pushed(h, order, idx, x)
  {
    r := h[idx := x];
    if idx + 1 == |h| {
      ghost var u := r;
      for j := 0 to order
        invariant |r| == |h|
        invariant forall k :: 0 <= k < j ==> r[k] == u[idx + 1 - order + k]
        invariant forall k :: j <= k < |r| ==> r[k] == u[k]
      {
        r := r[j := r[idx + 1 - order + j]];
      }
      assert r == Window(u, order, idx + 1) + u[order..];
    }
  }

  // A cache of signs beside a history.
  ghost predicate Signs(s: seq<int>, h: seq<int>) {
    |s| == |h| && forall j :: 0 <= j < |h| ==> s[j] == PredSign(h[j])
  }

  lemma PushedSigns(s: seq<int>, h: seq<int>, order: nat, idx: nat, x: int)
    requires Signs(s, h) && 0 < order <= idx < |h|
    ensures Signs(Pushed(s, order, idx, PredSign(x)), Pushed(h, order, idx, x))
  {
    assert Signs(s[idx := PredSign(x)], h[idx := x]);
  }

  // The largest magnitude among the taps and `start`.
  method MaxMagnitude(w: Taps, start: int) returns (maxAbs: int)
    requires start >= 0
    ensures maxAbs >= start
    ensures forall b {:trigger Bounded(w, b)} :: maxAbs <= b <==> start <= b && Bounded(w, b)
  {
    maxAbs := start;
    for j := 0 to |w|
      invariant maxAbs >= start && forall k :: 0 <= k < j ==> Abs(w[k]) <= maxAbs
      invariant maxAbs == start || exists k :: 0 <= k < j && maxAbs == Abs(w[k])
    {
      var m := if w[j] < 0 then I64(-w[j]) else w[j];
      if m > maxAbs {
        maxAbs := m;
      }
    }
  }

  // How far `steps` updates of at most `step` each can move a tap.
  function Reach(step: nat, steps: nat): nat {
    if steps == 0 then 0 else Reach(step, steps - 1) + step
  }

  // Every tap of both parts is at least `reach` inside the clamp.
  ghost predicate Room(r: seq<int>, i: seq<int>, reach: nat) {
    |r| == |i| && forall j :: 0 <= j < |r| ==> Abs(r[j]) <= TAP_LIMIT - reach && Abs(i[j]) <= TAP_LIMIT - reach
  }

  lemma {:induction false} ReachIsProduct(step: nat, steps: nat)
    ensures Reach(step, steps) == step * steps
  {
    if steps > 0 {
      ReachIsProduct(step, steps - 1);
      assert step * steps == step * (steps - 1) + step;
    }
  }

  // The per-packet decision whether the clamp may be skipped.
  method DecideFast(wr: Taps, wi: Taps, mu: nat, steps: nat) returns (fast: bool)
    requires |wr| == |wi| > 0
    ensures fast <==> Room(wr, wi, Reach(2 * mu, steps))
  {
    var maxR := MaxMagnitude(wr, 0);
    var maxAbs := MaxMagnitude(wi, maxR);
    ReachIsProduct(2 * mu, steps);
    fast := maxAbs + 2 * mu * steps <= TAP_LIMIT;
    RoomIsBound(wr, wi, Reach(2 * mu, steps));
  }

  lemma RoomIsBound(wr: seq<int>, wi: seq<int>, reach: nat)
    requires |wr| == |wi| > 0
    ensures Room(wr, wi, reach) <==>
            0 <= TAP_LIMIT - reach && Bounded(wr, TAP_LIMIT - reach) && Bounded(wi, TAP_LIMIT - reach)
  {
    if Room(wr, wi, reach) {
      assert Abs(wr[0]) <= TAP_LIMIT - reach;
    }
  }
}
