/**
  * The stage of the audio profile, over one component: int64 throughout, a prediction sum that may wrap,
  * proved to compute `Predictor.RealFilter`.
  */
module RealStages {
  import opened Machine
  import opened Predictor
  import opened Histories

  const MAX_ORDER: nat := 0xFFF_FFFF   // the most taps whose window has an int for its length

  class RealStage {
    const order: nat
    const mu: nat
    var fast: bool
    var idx: nat
    var w: Taps
    var h: seq<int>
    var s: seq<int>
    // How many more updates the current packet may make.
    ghost var budget: nat

    constructor (order: nat, mu: nat)
      requires 0 < order <= MAX_ORDER && mu <= MAX_MU
      ensures Valid() && Denote() == NewRealFilter(order, mu)
    {
      this.order, this.mu := order, mu;
      fast, idx, budget := false, order, 0;
      w := seq(order, _ => 0);
      h, s := seq(PredHistoryLen(order), _ => 0), seq(PredHistoryLen(order), _ => 0);
      new;
      assert Denote() == NewRealFilter(order, mu);
    }

    ghost predicate Valid()
      reads this
    {
      && 0 < order <= MAX_ORDER && mu <= MAX_MU
      && |w| == order && |h| == PredHistoryLen(order)
      && order <= idx < |h|
      && (fast ==> Room(w, w, Reach(mu, budget)))
      && Signs(s, h)
    }

    ghost function Denote(): (f: RealFilter)
      requires Valid()
      reads this
      ensures f.Ok()
    {
      RealFilter(mu, w, Window(h, order, idx))
    }

    method BeginPacket(steps: nat)
      requires Valid()
      modifies this`fast, this`budget
      ensures Valid() && budget == steps && Denote() == old(Denote())
      ensures fast <==> Room(w, w, Reach(mu, steps))
    {
      var maxAbs := MaxMagnitude(w, 0);
      ReachIsProduct(mu, steps);
      RoomIsBound(w, w, Reach(mu, steps));
      fast := maxAbs + mu * steps <= TAP_LIMIT;
      budget := steps;
    }

    method Forward(x: int) returns (e: int)
      requires Valid() && budget > 0 && Denote().CanForward(x)
      modifies this
      ensures Valid() && budget == old(budget) - 1
      ensures (e, Denote()) == old(Denote()).Forward(x)
      ensures Abs(e - x) <= TWO_63 / TAP_SCALE
    {
      hide RealFilter.Predict, RealFilter.Adapted, Slide, Window;
      ghost var f := Denote();
      var p := Predict();
      e := I64(x - p);
      Adapt(e);
      Push(x);
      assert Denote() == f.Step(e, x);
    }

    method Inverse(e: int) returns (x: int)
      requires Valid() && budget > 0 && Denote().CanInverse(e)
      modifies this
      ensures Valid() && budget == old(budget) - 1
      ensures (x, Denote()) == old(Denote()).Inverse(e)
      ensures Abs(x - e) <= TWO_63 / TAP_SCALE
    {
      hide RealFilter.Predict, RealFilter.Adapted, Slide, Window;
      ghost var f := Denote();
      var p := Predict();
      x := I64(e + p);
      Adapt(e);
      Push(x);
      assert Denote() == f.Step(e, x);
    }

    method Predict() returns (r: int)
      requires Valid()
      ensures r == Denote().Predict()
      ensures Abs(r) <= TWO_63 / TAP_SCALE
    {
      ghost var f := Denote();
      var lo := idx - order;
      var p := 0;
      for j := 0 to order
        invariant p == WrapU64(Dot(f.w, f.h, j))
      {
        WrapMulAdd(p, Dot(f.w, f.h, j), w[j], h[lo + j]);
        p := WrapU64(p + MulU64(w[j], h[lo + j]));
      }
      WrapU64Twice(Dot(f.w, f.h, order));
      r := PredRoundShift(WrapS64(p));
    }

    method Adapt(e: int)
      requires Valid() && budget > 0
      modifies this`w, this`budget
      ensures Valid() && budget == old(budget) - 1
      ensures w == old(Denote()).Adapted(e)
    {
      ghost var f := Denote();
      budget := budget - 1;
      if e == 0 {
        return;
      }
      var m := mu * PredSign(e);
      var r := RealAdaptTaps(f, e, m, w, s, idx - order, fast, Reach(mu, budget));
      w := r;
    }

    method Push(x: int)
      requires Valid()
      modifies this`h, this`s, this`idx
      ensures Valid() && Window(h, order, idx) == Slide(old(Window(h, order, idx)), x)
    {
      PushedWindow(h, order, idx, x);
      PushedSigns(s, h, order, idx, x);
      var h' := PushInto(h, order, idx, x);
      var s' := PushInto(s, order, idx, PredSign(x));
      idx := PushedIdx(|h|, order, idx);
      h, s := h', s';
    }
  }

  // The tap loop of `RealStage.Adapt`. `room` is how far the taps may still move in this packet.
  method RealAdaptTaps(ghost f: RealFilter, ghost e: int, m: int, w: Taps, s: seq<int>, lo: nat, fast: bool,
                       ghost room: nat)
    returns (r: Taps)
    requires f.Ok() && f.mu <= MAX_MU && f.w == w && m == f.mu * PredSign(e)
    requires lo + |w| <= |s|
    requires forall j {:trigger f.h[j]} :: 0 <= j < |w| ==> s[lo + j] == PredSign(f.h[j])
    requires fast ==> Room(w, w, room + f.mu)
    ensures |r| == |w| && forall k :: 0 <= k < |w| ==> r[k] == f.New(e, k)
    ensures fast ==> Room(r, r, room)
  {
    r := w;
    for j := 0 to |w|
      invariant |r| == |w|
      invariant forall k :: 0 <= k < j ==> r[k] == f.New(e, k)
      invariant forall k :: j <= k < |w| ==> r[k] == w[k]
      invariant fast ==> forall k :: 0 <= k < j ==> Abs(r[k]) <= TAP_LIMIT - room
    {
      RealNudge(f, e, j);
      assert s[lo + j] == PredSign(f.h[j]);
      var d := m * s[lo + j];
      if fast {
        r := r[j := I64(r[j] + I64(d - PredLeak(r[j], LEAK_REAL)))];
      } else {
        r := r[j := PredClampTap(I64(I64(r[j] + d) - PredLeak(r[j], LEAK_REAL)))];
      }
    }
  }
}
