/**
  * Cascades of stages that each turn a value into a residual and move on, for any stage whose two
  * directions undo each other. The two ends hold the same stages and exchange residuals only.
  */
module Lockstep {

  // A stage maps what enters it to what leaves it and to the stage it becomes.
  type Direction<!F, !X> = (F, X) -> (X, F)

  // From the same stage, inverting what forward gives yields the value back and the same next stage.
  ghost predicate Inverts<F(!new), X(!new)>(fwd: Direction<F, X>, inv: Direction<F, X>) {
    forall f: F, x: X :: inv(f, fwd(f, x).0) == (x, fwd(f, x).1)
  }

  // What enters stage n on the way forward.
  function Through<F, X>(fwd: Direction<F, X>, fs: seq<F>, x: X, n: nat): X
    requires n <= |fs|
  {
    if n == 0 then x else fwd(fs[n - 1], Through(fwd, fs, x, n - 1)).0
  }

  function CascadeForward<F, X>(fwd: Direction<F, X>, fs: seq<F>, x: X): (r: (X, seq<F>))
    ensures |r.1| == |fs|
  {
    (Through(fwd, fs, x, |fs|), seq(|fs|, k requires 0 <= k < |fs| => fwd(fs[k], Through(fwd, fs, x, k)).1))
  }

  // What leaves stage n on the way back: stages are undone in the opposite order.
  function Undone<F, X>(inv: Direction<F, X>, fs: seq<F>, e: X, n: nat): X
    requires n <= |fs|
    decreases |fs| - n
  {
    if n == |fs| then e else inv(fs[n], Undone(inv, fs, e, n + 1)).0
  }

  function CascadeInverse<F, X>(inv: Direction<F, X>, fs: seq<F>, e: X): (r: (X, seq<F>))
    ensures |r.1| == |fs|
  {
    (Undone(inv, fs, e, 0), seq(|fs|, k requires 0 <= k < |fs| => inv(fs[k], Undone(inv, fs, e, k + 1)).1))
  }

  lemma {:induction false} UndoneIsThrough<F(!new), X(!new)>(fwd: Direction<F, X>, inv: Direction<F, X>, fs: seq<F>,
                                                             x: X, n: nat)
    requires Inverts(fwd, inv) && n <= |fs|
    ensures Undone(inv, fs, Through(fwd, fs, x, |fs|), n) == Through(fwd, fs, x, n)
    decreases |fs| - n
  {
    if n < |fs| {
      UndoneIsThrough(fwd, inv, fs, x, n + 1);
    }
  }

  // Undoing the stages in reverse order gives the value back and leaves every stage where forward does.
  lemma CascadeBack<F(!new), X(!new)>(fwd: Direction<F, X>, inv: Direction<F, X>, fs: seq<F>, x: X)
    requires Inverts(fwd, inv)
    ensures CascadeInverse(inv, fs, CascadeForward(fwd, fs, x).0) == (x, CascadeForward(fwd, fs, x).1)
  {
    hide Undone;
    var e := Through(fwd, fs, x, |fs|);
    UndoneIsThrough(fwd, inv, fs, x, 0);
    forall k | 0 <= k < |fs|
      ensures inv(fs[k], Undone(inv, fs, e, k + 1)).1 == fwd(fs[k], Through(fwd, fs, x, k)).1
    {
      UndoneIsThrough(fwd, inv, fs, x, k + 1);
    }
    assert CascadeInverse(inv, fs, e).1 == CascadeForward(fwd, fs, x).1;
  }

  // The first n values forward: their residuals, and the stages after them.
  function ForwardRun<F, X>(fwd: Direction<F, X>, fs: seq<F>, xs: seq<X>, n: nat): (r: (seq<X>, seq<F>))
    requires n <= |xs|
    ensures |r.0| == n && |r.1| == |fs|
  {
    if n == 0 then ([], fs)
    else
      var done := ForwardRun(fwd, fs, xs, n - 1);
      var (e, gs) := CascadeForward(fwd, done.1, xs[n - 1]);
      (done.0 + [e], gs)
  }

  function InverseRun<F, X>(inv: Direction<F, X>, fs: seq<F>, es: seq<X>, n: nat): (r: (seq<X>, seq<F>))
    requires n <= |es|
    ensures |r.0| == n && |r.1| == |fs|
  {
    if n == 0 then ([], fs)
    else
      var done := InverseRun(inv, fs, es, n - 1);
      var (x, gs) := CascadeInverse(inv, done.1, es[n - 1]);
      (done.0 + [x], gs)
  }

  lemma {:induction false} RunBack<F(!new), X(!new)>(fwd: Direction<F, X>, inv: Direction<F, X>, fs: seq<F>,
                                                     xs: seq<X>, n: nat, more: seq<X>)
    requires Inverts(fwd, inv) && n <= |xs|
    ensures InverseRun(inv, fs, ForwardRun(fwd, fs, xs, n).0 + more, n) == (xs[..n], ForwardRun(fwd, fs, xs, n).1)
  {
    hide CascadeForward, CascadeInverse, Inverts;
    if n == 0 {
      assert xs[..0] == [];
    } else {
      hide ForwardRun, InverseRun;
      var (done, gs) := ForwardRun(fwd, fs, xs, n - 1);
      var (e, hs) := CascadeForward(fwd, gs, xs[n - 1]);
      var es := done + ([e] + more);
      ForwardStep(fwd, fs, xs, n);
      Regrouped(done, e, more);
      RunBack(fwd, inv, fs, xs, n - 1, [e] + more);
      InverseStep(inv, fs, es, n);
      CascadeBack(fwd, inv, gs, xs[n - 1]);
      assert xs[..n] == xs[..n - 1] + [xs[n - 1]];
    }
  }

  lemma Regrouped<X>(done: seq<X>, e: X, more: seq<X>)
    ensures (done + [e]) + more == done + ([e] + more) && (done + ([e] + more))[|done|] == e
  {
  }

  lemma ForwardStep<F, X>(fwd: Direction<F, X>, fs: seq<F>, xs: seq<X>, n: nat)
    requires 0 < n <= |xs|
    ensures var (done, gs) := ForwardRun(fwd, fs, xs, n - 1);
            var (e, hs) := CascadeForward(fwd, gs, xs[n - 1]);
            ForwardRun(fwd, fs, xs, n) == (done + [e], hs)
  {
    hide CascadeForward;
  }

  lemma InverseStep<F, X>(inv: Direction<F, X>, fs: seq<F>, es: seq<X>, n: nat)
    requires 0 < n <= |es|
    ensures var (done, gs) := InverseRun(inv, fs, es, n - 1);
            var (x, hs) := CascadeInverse(inv, gs, es[n - 1]);
            InverseRun(inv, fs, es, n) == (done + [x], hs)
  {
    hide CascadeInverse;
  }

  // Lockstep over a packet: inverting the residuals gives the values, and the same stages.
  lemma PacketBack<F(!new), X(!new)>(fwd: Direction<F, X>, inv: Direction<F, X>, fs: seq<F>, xs: seq<X>)
    requires Inverts(fwd, inv)
    ensures var r := ForwardRun(fwd, fs, xs, |xs|);
            InverseRun(inv, fs, r.0, |xs|) == (xs, r.1)
  {
    RunBack(fwd, inv, fs, xs, |xs|, []);
    assert ForwardRun(fwd, fs, xs, |xs|).0 + [] == ForwardRun(fwd, fs, xs, |xs|).0 && xs[..|xs|] == xs;
  }

  // What every residual and every stage of a run satisfies, from one step that keeps it.
  lemma {:induction false} RunKeeps<F(!new), X(!new)>(fwd: Direction<F, X>, fs: seq<F>, xs: seq<X>, n: nat,
                                                      stage: F -> bool, input: X -> bool)
    requires n <= |xs|
    requires forall f, x :: stage(f) && input(x) ==> stage(fwd(f, x).1) && input(fwd(f, x).0)
    requires (forall f :: f in fs ==> stage(f)) && (forall i :: 0 <= i < |xs| ==> input(xs[i]))
    ensures forall f :: f in ForwardRun(fwd, fs, xs, n).1 ==> stage(f)
    ensures forall i :: 0 <= i < n ==> input(ForwardRun(fwd, fs, xs, n).0[i])
  {
    if n > 0 {
      RunKeeps(fwd, fs, xs, n - 1, stage, input);
      CascadeKeeps(fwd, ForwardRun(fwd, fs, xs, n - 1).1, xs[n - 1], stage, input);
    }
  }

  lemma CascadeKeeps<F(!new), X(!new)>(fwd: Direction<F, X>, fs: seq<F>, x: X, stage: F -> bool, input: X -> bool)
    requires forall f, x :: stage(f) && input(x) ==> stage(fwd(f, x).1) && input(fwd(f, x).0)
    requires (forall f :: f in fs ==> stage(f)) && input(x)
    ensures forall f :: f in CascadeForward(fwd, fs, x).1 ==> stage(f)
    ensures input(CascadeForward(fwd, fs, x).0)
  {
    forall k | 0 <= k <= |fs|
      ensures input(Through(fwd, fs, x, k))
    {
      ThroughKeeps(fwd, fs, x, k, stage, input);
    }
  }

  lemma {:induction false} ThroughKeeps<F(!new), X(!new)>(fwd: Direction<F, X>, fs: seq<F>, x: X, n: nat,
                                                          stage: F -> bool, input: X -> bool)
    requires forall f, x :: stage(f) && input(x) ==> stage(fwd(f, x).1) && input(fwd(f, x).0)
    requires (forall f :: f in fs ==> stage(f)) && input(x) && n <= |fs|
    ensures input(Through(fwd, fs, x, n))
  {
    if n > 0 {
      ThroughKeeps(fwd, fs, x, n - 1, stage, input);
      assert fs[n - 1] in fs;
    }
  }

  // ---- Which order things come in -----------------------------------------------------------------

  lemma {:induction false} ThroughFirst<F, X>(fwd: Direction<F, X>, fs: seq<F>, gs: seq<F>, x: X, n: nat)
    requires n <= |fs|
    ensures Through(fwd, fs + gs, x, n) == Through(fwd, fs, x, n)
  {
    if n > 0 { ThroughFirst(fwd, fs, gs, x, n - 1); }
  }

  lemma {:induction false} ThroughSecond<F, X>(fwd: Direction<F, X>, fs: seq<F>, gs: seq<F>, x: X, n: nat)
    requires n <= |gs|
    ensures Through(fwd, fs + gs, x, |fs| + n) == Through(fwd, gs, Through(fwd, fs, x, |fs|), n)
  {
    if n > 0 { ThroughSecond(fwd, fs, gs, x, n - 1); } else { ThroughFirst(fwd, fs, gs, x, |fs|); }
  }

  // A value goes through the first stages, and what leaves them through the others.
  lemma CascadeSplits<F, X>(fwd: Direction<F, X>, fs: seq<F>, gs: seq<F>, x: X)
    ensures var (y, fs') := CascadeForward(fwd, fs, x);
            var (z, gs') := CascadeForward(fwd, gs, y);
            CascadeForward(fwd, fs + gs, x) == (z, fs' + gs')
  {
    hide Through;
    ThroughSecond(fwd, fs, gs, x, |gs|);
    var (y, fs') := CascadeForward(fwd, fs, x);
    var gs', hs := CascadeForward(fwd, gs, y).1, CascadeForward(fwd, fs + gs, x).1;
    forall k | 0 <= k < |fs + gs| ensures hs[k] == (fs' + gs')[k] {
      if k < |fs| {
        ThroughFirst(fwd, fs, gs, x, k);
      } else {
        ThroughSecond(fwd, fs, gs, x, k - |fs|);
      }
    }
    assert hs == fs' + gs';
  }

  lemma CascadeOfOne<F, X>(fwd: Direction<F, X>, f: F, x: X)
    ensures CascadeForward(fwd, [f], x) == (fwd(f, x).0, [fwd(f, x).1])
  {
    assert Through(fwd, [f], x, 0) == x && Through(fwd, [f], x, 1) == fwd(f, x).0;
    assert CascadeForward(fwd, [f], x).1 == [fwd(f, x).1];
  }

  lemma {:induction false} RunPrefix<F, X>(fwd: Direction<F, X>, fs: seq<F>, xs: seq<X>, ys: seq<X>, n: nat)
    requires n <= |xs|
    ensures ForwardRun(fwd, fs, xs + ys, n) == ForwardRun(fwd, fs, xs, n)
  {
    if n > 0 {
      hide CascadeForward;
      RunPrefix(fwd, fs, xs, ys, n - 1);
    }
  }

  // Where packets are cut makes no difference to the stages or to the residuals.
  lemma {:induction false} RunSplits<F, X>(fwd: Direction<F, X>, fs: seq<F>, xs: seq<X>, ys: seq<X>, n: nat)
    requires n <= |ys|
    ensures var (es, gs) := ForwardRun(fwd, fs, xs, |xs|);
            var (more, hs) := ForwardRun(fwd, gs, ys, n);
            ForwardRun(fwd, fs, xs + ys, |xs| + n) == (es + more, hs)
  {
    hide CascadeForward;
    if n == 0 {
      RunPrefix(fwd, fs, xs, ys, |xs|);
      var es := ForwardRun(fwd, fs, xs, |xs|).0;
      assert es + [] == es;
    } else {
      RunSplits(fwd, fs, xs, ys, n - 1);
      assert (xs + ys)[|xs| + n - 1] == ys[n - 1];
      var (es, gs) := ForwardRun(fwd, fs, xs, |xs|);
      var (more, hs) := ForwardRun(fwd, gs, ys, n - 1);
      var last := CascadeForward(fwd, hs, ys[n - 1]).0;
      assert (es + more) + [last] == es + (more + [last]);
    }
  }
}
