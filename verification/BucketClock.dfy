/** What the Redis script's admissions owe to the clock that it is given (internal/ratelimit/limiter.go). */
module BucketClock {
  import opened Arithmetic
  import opened TokenBucket

  /** The sum of the forward moves of the clock. */
  function Advance(ts: seq<int>): (f: int)
    ensures f >= 0
  {
    if |ts| <= 1 then 0 else Advance(ts[..|ts| - 1]) + Forward(ts[|ts| - 2], ts[|ts| - 1])
  }

  /** The forward moves cover the window, and exceed it as soon as the clock once goes back. */
  lemma {:induction false} AdvanceCoversWindow(ts: seq<int>)
    requires |ts| > 0
    ensures Advance(ts) >= ts[|ts| - 1] - ts[0]
    ensures Advance(ts) == ts[|ts| - 1] - ts[0] <==> NeverBack(ts)
  {
    var n := |ts|;
    if n > 1 {
      var init := ts[..n - 1];
      AdvanceCoversWindow(init);
      assert NeverBack(ts) <==> NeverBack(init) && init[n - 2] <= ts[n - 1] by {
        if NeverBack(init) && init[n - 2] <= ts[n - 1] {
          forall i, j | 0 <= i < j < n ensures ts[i] <= ts[j] {
            assert ts[i] == init[i] <= init[n - 2];
            assert j < n - 1 ==> ts[j] == init[j];
          }
        }
        if NeverBack(ts) {
          assert ts[n - 2] <= ts[n - 1];
          forall i, j | 0 <= i < j < n - 1 ensures init[i] <= init[j] {
            assert ts[i] <= ts[j];
          }
        }
      }
    }
  }

  lemma {:induction false} AdvanceGrows(ts: seq<int>, m: nat)
    requires m <= |ts|
    ensures Advance(ts[..m]) <= Advance(ts)
  {
    if m < |ts| {
      assert ts[..|ts| - 1][..m] == ts[..m];
      AdvanceGrows(ts[..|ts| - 1], m);
    } else {
      assert ts[..m] == ts;
    }
  }

  ghost predicate Bounded(p: Params, ts: seq<int>)
    requires |ts| > 0
  {
    Admitted(Run(Absent, Polls(p, ts)).1) as real <= p.burst as real + p.rate * ((ts[|ts| - 1] - ts[0]) as real)
  }

  /** One token of room, refilled by all the forward moves together. */
  function Tight(f: int): Params
    requires f > 0
  {
    Params(1.0 / (f as real), 1, 2)
  }

  lemma {:induction false} TightIs(f: int)
    requires f > 0
    ensures Tight(f).burst == 1 && Tight(f).rate > 0.0 && Tight(f).rate * (f as real) == 1.0
  {
  }

  lemma {:induction false} Share(f: int, g: int)
    requires f > 0
    ensures Tight(f).burst == 1 && Tight(f).rate > 0.0
    ensures 0 <= g ==> 0.0 <= Tight(f).rate * (g as real)
    ensures (Tight(f).rate * (g as real) < 1.0 <==> g < f) && (Tight(f).rate * (g as real) == 1.0 <==> g == f)
  {
    hide Tight;
    TightIs(f);
    Part(Tight(f).rate, f as real, g as real);
  }

  lemma {:induction false} Part(rate: real, f: real, g: real)
    requires rate > 0.0 && rate * f == 1.0
    ensures 0.0 <= g ==> 0.0 <= rate * g
    ensures (rate * g < 1.0 <==> g < f) && (rate * g == 1.0 <==> g == f)
  {
    Ordered(rate, f, g, 1.0, rate * g);
    Ordered(rate, 0.0, g, 0.0, rate * g);
  }

  lemma {:induction false} Ordered(rate: real, a: real, b: real, atA: real, atB: real)
    requires rate > 0.0 && atA == rate * a && atB == rate * b
    ensures (atA <= atB <==> a <= b) && (atB <= atA <==> b <= a)
  {
    MulOrder(rate, a, b);
    MulOrder(rate, b, a);
  }

  /** What such a bucket holds: the share of the forward moves so far, or nothing once they are complete. */
  ghost predicate Holding(k: Key, admitted: nat, f: int, g: int, now: int)
    requires f > 0
  {
    && k.Present? && k.hash.last == now
    && k.hash.tokens == (if g < f then Tight(f).rate * (g as real) else 0.0)
    && admitted == if g < f then 1 else 2
  }

  lemma {:induction false} HoldingStep(k: Key, f: int, g: int, last: int, now: int)
    requires f > 0 && 0 <= g && g + Forward(last, now) <= f
    requires Holding(k, if g < f then 1 else 2, f, g, last)
    ensures var (k', r) := Script(k, Tight(f), now);
            var g' := g + Forward(last, now);
            && (r.allowed <==> g < f && g' == f)
            && Holding(k', if g' < f then 1 else 2, f, g', now)
  {
    hide Script, Ceil, ResetAfter, Tight;
    var p, d := Tight(f), Forward(last, now);
    Share(f, g);
    Share(f, g + d);
    StepEffect(k, p, now);
    assert Elapsed(k, now) == d;
    Distribute(p.rate, g as real, d as real);
    assert (g + d) as real == g as real + d as real;
    if g == f {
      assert p.rate * (d as real) == 0.0;
    }
  }

  lemma {:induction false} HoldingCount(k: Key, admitted: nat, f: int, g: int, now: int)
    requires f > 0 && Holding(k, admitted, f, g, now)
    ensures admitted == if g < f then 1 else 2
  {
  }

  lemma {:induction false} HoldingRun(ts: seq<int>, f: int, m: nat)
    requires f == Advance(ts) > 0 && 1 <= m <= |ts|
    ensures var (k, rs) := Run(Absent, Polls(Tight(f), ts[..m]));
            Holding(k, Admitted(rs), f, Advance(ts[..m]), ts[m - 1])
  {
    hide Script, Tight, Holding, Run, Admitted, Forward;
    var p := Tight(f);
    if m == 1 {
      FirstCall(p, f, ts[0]);
      assert ts[..1] == [ts[0]];
    } else {
      HoldingRun(ts, f, m - 1);
      var earlier, now := ts[..m - 1], ts[m - 1];
      assert ts[..m][..m - 1] == earlier && ts[..m][m - 2] == ts[m - 2];
      AdvanceGrows(ts, m);
      AdvanceGrows(ts[..m], m - 1);
      var (k, rs) := Run(Absent, Polls(p, earlier));
      HoldingCount(k, Admitted(rs), f, Advance(earlier), ts[m - 2]);
      HoldingStep(k, f, Advance(earlier), ts[m - 2], now);
      assert Polls(p, ts[..m]) == Polls(p, earlier) + [Call(p, now)];
      RunAppend(Absent, Polls(p, earlier), Call(p, now));
      AdmittedNext(rs, Script(k, p, now).1);
    }
  }

  lemma {:induction false} FirstCall(p: Params, f: int, now: int)
    requires f > 0 && p == Tight(f)
    ensures var (k, rs) := Run(Absent, Polls(p, [now]));
            Holding(k, Admitted(rs), f, 0, now)
  {
    hide Ceil, ResetAfter, Script, Level, Tight;
    Share(f, 0);
    StepEffect(Absent, p, now);
    AbsentIsFull(p, now);
    assert p.rate * (0 as real) == 0.0;
    assert Polls(p, [now]) == [] + [Call(p, now)];
    RunAppend(Absent, [], Call(p, now));
    AdmittedNext([], Script(Absent, p, now).1);
  }

  lemma {:induction false} FirstIsAdmitted(p: Params, ts: seq<int>)
    requires p.rate > 0.0 && p.burst >= 1 && |ts| > 0
    ensures Admitted(Run(Absent, Polls(p, ts)).1) >= 1
  {
    hide Script, Ceil, ResetAfter, Level;
    var n := |ts|;
    var (k, rs) := Run(Absent, Polls(p, ts[..n - 1]));
    assert Polls(p, ts) == Polls(p, ts[..n - 1]) + [Call(p, ts[n - 1])];
    RunAppend(Absent, Polls(p, ts[..n - 1]), Call(p, ts[n - 1]));
    AdmittedNext(rs, Script(k, p, ts[n - 1]).1);
    if n > 1 {
      FirstIsAdmitted(p, ts[..n - 1]);
    } else {
      StepEffect(Absent, p, ts[0]);
      AbsentIsFull(p, ts[0]);
    }
  }

  /**
   At most burst + rate × window is admitted, for every rate and every burst, if and only if the clock never goes back.
   */
  lemma {:induction false} WindowBoundIff(ts: seq<int>)
    requires |ts| > 0
    ensures (forall p: Params :: p.rate > 0.0 && p.burst >= 1 ==> Bounded(p, ts)) <==> NeverBack(ts)
  {
    hide Run, Polls, Admitted;
    if NeverBack(ts) {
      forall p: Params | p.rate > 0.0 && p.burst >= 1 ensures Bounded(p, ts) {
        var calls := Polls(p, ts);
        WindowBound(Absent, p, calls, 0, |ts|);
        assert Run(Absent, calls).1[0..|ts|] == Run(Absent, calls).1;
      }
    } else {
      var p := Unbounded(ts);
    }
  }

  /** On a clock that goes back, the tight bucket admits two calls in a window worth less than two. */
  lemma {:induction false} Unbounded(ts: seq<int>) returns (p: Params)
    requires |ts| > 0 && !NeverBack(ts)
    ensures p.rate > 0.0 && p.burst == 1 && !Bounded(p, ts)
  {
    hide Run, Polls, Admitted, Tight;
    AdvanceCoversWindow(ts);
    var f, span := Advance(ts), ts[|ts| - 1] - ts[0];
    if f > 0 {
      p := Tight(f);
      Share(f, span);
      HoldingRun(ts, f, |ts|);
      assert ts[..|ts|] == ts;
    } else {
      p := Params(1.0, 1, 2);
      FirstIsAdmitted(p, ts);
    }
  }
}
