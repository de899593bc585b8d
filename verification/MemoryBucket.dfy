/**
 The in-memory twin of the Redis bucket (internal/ratelimit/fallback.go).

 Times are whole nanoseconds, the rate is per second.  The model follows one bucket; which bucket a key is
 given after an eviction is up to the cache library.
 */
module MemoryBucket {
  import opened Arithmetic
  import TB = TokenBucket

  datatype Fill = Fill(tokens: real, lastTime: int)

  datatype Bucket = NoBucket | Held(state: Fill)

  function Refilled(s: Fill, rate: real, burst: int, now: int): real {
    MinReal(burst as real, s.tokens + rate * ((now - s.lastTime) as real / 1_000_000_000.0))
  }

  /** Refill and consume on an existing bucket. */
  function Take(s: Fill, rate: real, burst: int, now: int): (Fill, bool) {
    var level := Refilled(s, rate, burst, now);
    if level >= 1.0 then (Fill(level - 1.0, now), true) else (Fill(level, now), false)
  }

  function Allow(b: Bucket, rate: real, burst: int, now: int): (Bucket, bool) {
    if rate <= 0.0 then (b, true)
    else match b
      case NoBucket => (Held(Fill(burst as real - 1.0, now)), true)
      case Held(s) => var (s', ok) := Take(s, rate, burst, now); (Held(s'), ok)
  }

  /** The limiter as it serves one key: the bucket's fields change in place. */
  class BucketCell {
    var tokens: real
    var lastTime: int

    constructor (tokens: real, lastTime: int)
      ensures State() == Fill(tokens, lastTime)
    {
      this.tokens, this.lastTime := tokens, lastTime;
    }

    ghost function State(): Fill
      reads this
    {
      Fill(tokens, lastTime)
    }

    method Refill(rate: real, burst: int, now: int) returns (ok: bool)
      modifies this
      ensures (State(), ok) == Take(old(State()), rate, burst, now)
    {
      ghost var before := State();
      var elapsed := (now - lastTime) as real / 1_000_000_000.0;
      tokens := tokens + rate * elapsed;
      assert MinReal(burst as real, tokens) == Refilled(before, rate, burst, now);
      hide Refilled;
      if tokens > burst as real {
        tokens := burst as real;
      }
      lastTime := now;
      if tokens >= 1.0 {
        tokens := tokens - 1.0;
        return true;
      }
      return false;
    }
  }

  class KeyLimiter {
    const rate: real
    const burst: int
    const disabled: bool
    var cell: BucketCell?

    constructor (rate: real, burst: int)
      ensures this.rate == rate && this.burst == burst && disabled == (rate <= 0.0) && Content() == NoBucket
    {
      this.rate, this.burst, disabled, cell := rate, burst, rate <= 0.0, null;
    }

    ghost function Content(): Bucket
      reads this, cell
    {
      if cell == null then NoBucket else Held(cell.State())
    }

    method Check(now: int) returns (ok: bool)
      requires disabled == (rate <= 0.0)
      modifies this, cell
      ensures (Content(), ok) == Allow(old(Content()), rate, burst, now)
      ensures fresh(cell) || cell == old(cell)
    {
      if disabled {
        return true;
      }
      if cell == null {
        cell := new BucketCell(burst as real - 1.0, now);
        return true;
      }
      ok := cell.Refill(rate, burst, now);
    }
  }

  // ---------------------------------------------------------------- out-of-order timestamps

  function Run(b: Bucket, rate: real, burst: int, nows: seq<int>): (res: (Bucket, seq<bool>))
    ensures |res.1| == |nows|
  {
    if |nows| == 0 then (b, [])
    else
      var (b1, oks) := Run(b, rate, burst, nows[..|nows| - 1]);
      var (b2, ok) := Allow(b1, rate, burst, nows[|nows| - 1]);
      (b2, oks + [ok])
  }

  function Count(oks: seq<bool>): nat {
    if |oks| == 0 then 0 else Count(oks[..|oks| - 1]) + if oks[|oks| - 1] then 1 else 0
  }

  function Seconds(ns: int): real {
    ns as real / 1_000_000_000.0
  }

  /** Tokens less what the clock reading is worth.  Refilling never raises it and every admission lowers it by one. */
  function Potential(s: Fill, rate: real): real {
    s.tokens - rate * Seconds(s.lastTime)
  }

  lemma {:induction false} PotentialStep(s: Fill, rate: real, burst: int, now: int)
    ensures var (s', ok) := Take(s, rate, burst, now);
            && s'.lastTime == now
            && Potential(s', rate) <= Potential(s, rate) - (if ok then 1.0 else 0.0)
            && (ok ==> s'.tokens >= 0.0)
  {
    assert Seconds(now - s.lastTime) == Seconds(now) - Seconds(s.lastTime);
    assert rate * Seconds(now - s.lastTime) == rate * Seconds(now) - rate * Seconds(s.lastTime);
  }

  lemma {:induction false} PotentialRun(rate: real, burst: int, nows: seq<int>)
    requires rate > 0.0 && |nows| > 0
    ensures var (b, oks) := Run(NoBucket, rate, burst, nows);
            var n := |nows| - 1;
            && b.Held? && b.state.lastTime == nows[n]
            && Potential(b.state, rate) + Count(oks) as real <= burst as real - rate * Seconds(nows[0])
            && (oks[n] && n > 0 ==> b.state.tokens >= 0.0)
  {
    hide Take, Potential;
    var n := |nows| - 1;
    var (b1, oks1) := Run(NoBucket, rate, burst, nows[..n]);
    var ok := Allow(b1, rate, burst, nows[n]).1;
    assert (oks1 + [ok])[..n] == oks1;
    if n > 0 {
      PotentialRun(rate, burst, nows[..n]);
      PotentialStep(b1.state, rate, burst, nows[n]);
    } else {
      assert nows[..n] == [];
      assert oks1 == [] && Count(oks1 + [ok]) == 1;
      FirstPotential(rate, burst, nows[0]);
    }
  }

  lemma {:induction false} FirstPotential(rate: real, burst: int, now: int)
    ensures Potential(Fill(burst as real - 1.0, now), rate) == burst as real - 1.0 - rate * Seconds(now)
  {
  }

  /**
   No sequence of timestamps creates tokens: at any admitting call, the number admitted so far is at most the
   burst plus the rate times the time since the bucket was created.
   */
  lemma {:induction false} NoTokensFromDisorder(rate: real, burst: int, nows: seq<int>, i: nat)
    requires rate > 0.0 && burst >= 1 && i < |nows|
    ensures var oks := Run(NoBucket, rate, burst, nows).1;
            oks[i] ==> Count(oks[..i + 1]) as real <= burst as real + rate * (Seconds(nows[i]) - Seconds(nows[0]))
  {
    hide Allow, Seconds;
    RunPrefix(rate, burst, nows, i + 1);
    PotentialRun(rate, burst, nows[..i + 1]);
    var b := Run(NoBucket, rate, burst, nows[..i + 1]).0;
    Distribute(rate, Seconds(nows[i]), -Seconds(nows[0]));
    if i == 0 {
      FirstCount(rate, burst, nows);
    }
  }

  lemma {:induction false} FirstCount(rate: real, burst: int, nows: seq<int>)
    requires |nows| > 0
    ensures Count(Run(NoBucket, rate, burst, nows).1[..1]) <= 1
  {
    hide Run;
    var oks := Run(NoBucket, rate, burst, nows).1[..1];
    assert oks[..0] == [];
  }

  lemma {:induction false} RunPrefix(rate: real, burst: int, nows: seq<int>, i: nat)
    requires i <= |nows|
    ensures Run(NoBucket, rate, burst, nows).1[..i] == Run(NoBucket, rate, burst, nows[..i]).1
  {
    hide Allow;
    var n := |nows|;
    if i < n {
      RunPrefix(rate, burst, nows[..n - 1], i);
      assert nows[..n - 1][..i] == nows[..i];
    } else {
      assert nows[..i] == nows;
    }
  }

  // ---------------------------------------------------------------- refinement of the Redis script

  /** The script is given whole microseconds. */
  function Micros(nows: seq<int>): (us: seq<int>)
    ensures |us| == |nows| && forall i :: 0 <= i < |nows| ==> us[i] == nows[i] / 1000
  {
    seq(|nows|, i requires 0 <= i < |nows| => nows[i] / 1000)
  }

  function Decisions(rs: seq<TB.Reply>): (oks: seq<bool>)
    ensures |oks| == |rs| && forall i :: 0 <= i < |rs| ==> oks[i] == rs[i].allowed
  {
    seq(|rs|, i requires 0 <= i < |rs| => rs[i].allowed)
  }

  /** All times have the same part below the microsecond, so every two are whole microseconds apart. */
  ghost predicate WholeSteps(nows: seq<int>) {
    forall i :: 0 <= i < |nows| ==> nows[i] % 1000 == nows[0] % 1000
  }

  function PerSecond(p: TB.Params): real {
    p.rate * 1_000_000.0
  }

  /** From a fresh key, the limiter in memory and the script decide alike at every call. */
  ghost predicate Alike(p: TB.Params, nows: seq<int>) {
    Run(NoBucket, PerSecond(p), p.burst, nows).1 == Decisions(TB.Run(TB.Absent, TB.Polls(p, Micros(nows))).1)
  }

  /** Both hold no bucket, or the same tokens as of the same instant up to the part below the microsecond. */
  ghost predicate Twin(b: Bucket, k: TB.Key, part: int) {
    match b
    case NoBucket => k.Absent?
    case Held(s) => k.Present? && s.tokens == k.hash.tokens && s.lastTime == 1000 * k.hash.last + part
  }

  lemma {:induction false} SameRefill(s: Fill, k: TB.Key, p: TB.Params, now: int, part: int)
    requires Twin(Held(s), k, part) && now >= k.hash.last
    ensures Refilled(s, PerSecond(p), p.burst, 1000 * now + part) == TB.Level(k, p, now)
  {
    var d := now - k.hash.last;
    assert 1000 * now + part - s.lastTime == 1000 * d;
    PerNano(p.rate, 1000 * d, d as real);
  }

  /** So many nanoseconds at the rate per second are so many microseconds at the rate per microsecond. */
  lemma {:induction false} PerNano(rate: real, ns: int, us: real)
    requires ns as real == 1000.0 * us
    ensures rate * 1_000_000.0 * (ns as real / 1_000_000_000.0) == rate * us
  {
    assert ns as real / 1_000_000_000.0 == us / 1_000_000.0;
    assert rate * 1_000_000.0 * (us / 1_000_000.0) == rate * us;
  }

  lemma {:induction false} TwinStep(b: Bucket, k: TB.Key, p: TB.Params, now: int, part: int)
    requires p.burst >= 1 && Twin(b, k, part) && (k.Present? ==> now >= k.hash.last)
    ensures Allow(b, PerSecond(p), p.burst, 1000 * now + part).1 == TB.Script(k, p, now).1.allowed
    ensures Twin(Allow(b, PerSecond(p), p.burst, 1000 * now + part).0, TB.Script(k, p, now).0, part)
    ensures p.rate > 0.0 ==> TB.Script(k, p, now).0.Present? && TB.Script(k, p, now).0.hash.last == now
  {
    if p.rate > 0.0 {
      hide TB.Script, TB.Level, Refilled;
      TB.StepEffect(k, p, now);
      match b
      case NoBucket => TB.AbsentIsFull(p, now);
      case Held(s) => SameRefill(s, k, p, now, part);
    }
  }

  lemma {:induction false} TwinRun(p: TB.Params, nows: seq<int>, part: int)
    requires p.burst >= 1 && NeverBack(nows) && WholeSteps(nows)
    ensures var (b, oks) := Run(NoBucket, PerSecond(p), p.burst, nows);
            var (k, rs) := TB.Run(TB.Absent, TB.Polls(p, Micros(nows)));
            && oks == Decisions(rs) && Twin(b, k, if nows == [] then part else nows[0] % 1000)
            && (k.Present? ==> p.rate > 0.0 && |nows| > 0 && k.hash.last == nows[|nows| - 1] / 1000)
  {
    hide Allow, TB.Script, PerSecond;
    var n := |nows|;
    if n == 0 {
      assert Decisions([]) == [];
    } else {
      hide Twin;
      var earlier, now := nows[..n - 1], nows[n - 1];
      TwinRun(p, earlier, nows[0] % 1000);
      assert TB.Polls(p, Micros(nows))[..n - 1] == TB.Polls(p, Micros(earlier));
      var b, k := Run(NoBucket, PerSecond(p), p.burst, earlier).0, TB.Run(TB.Absent, TB.Polls(p, Micros(earlier))).0;
      assert now == 1000 * (now / 1000) + nows[0] % 1000;
      TwinStep(b, k, p, now / 1000, nows[0] % 1000);
      UnmeteredKeepsKey(k, p, now / 1000);
    }
  }

  lemma {:induction false} UnmeteredKeepsKey(k: TB.Key, p: TB.Params, now: int)
    ensures p.rate <= 0.0 ==> TB.Script(k, p, now).0 == k && TB.Script(k, p, now).1.allowed
  {
    hide TB.Level, Ceil;
  }

  // ---------------------------------------------------------------- where the two part

  /** Capacity one, and one token in `m` nanoseconds. */
  function OneIn(m: int): TB.Params
    requires m > 0
  {
    TB.Params(1000.0 / (m as real), 1, 2)
  }

  function Fraction(x: int, m: int): real
    requires m > 0
  {
    x as real / m as real
  }

  lemma {:induction false} Fractions(a: int, b: int, m: int)
    requires m > 0
    ensures Fraction(a, m) + Fraction(b, m) == Fraction(a + b, m)
    ensures (Fraction(a, m) >= 1.0 <==> a >= m) && Fraction(0, m) == 0.0
    ensures OneIn(m).rate > 0.0 && OneIn(m).burst == 1
  {
    assert Fraction(a, m) >= 1.0 <==> a as real >= m as real;
  }

  lemma {:induction false} MemoryRefill(s: Fill, m: int, since: int, now: int)
    requires m > 0 && s.tokens == Fraction(s.lastTime - since, m)
    ensures Refilled(s, PerSecond(OneIn(m)), 1, now) == MinReal(1.0, Fraction(now - since, m))
  {
    var d := now - s.lastTime;
    PerNano(OneIn(m).rate, d, d as real / 1000.0);
    OverM(d, m);
    Fractions(s.lastTime - since, d, m);
  }

  lemma {:induction false} OverM(d: int, m: int)
    requires m > 0
    ensures OneIn(m).rate * (d as real / 1000.0) == Fraction(d, m)
  {
  }

  lemma {:induction false} ScriptLevel(k: TB.Key, m: int, since: int, now: int)
    requires m > 0 && k.Present? && now >= k.hash.last
    requires k.hash.tokens == Fraction(1000 * (k.hash.last - since), m)
    ensures TB.Level(k, OneIn(m), now) == MinReal(1.0, Fraction(1000 * (now - since), m))
  {
    var d := now - k.hash.last;
    assert d as real == (1000 * d) as real / 1000.0;
    OverM(1000 * d, m);
    Fractions(1000 * (k.hash.last - since), 1000 * d, m);
  }

  /** After the first call both are empty, and while less than `m` has passed each holds the fraction that has. */
  lemma {:induction false} FillingMemory(nows: seq<int>, m: int, n: nat)
    requires m > 0 && 1 <= n <= |nows| && forall j :: 0 <= j < n ==> nows[j] - nows[0] < m
    ensures var b := Run(NoBucket, PerSecond(OneIn(m)), 1, nows[..n]).0;
            b.Held? && b.state.lastTime == nows[n - 1] && b.state.tokens == Fraction(nows[n - 1] - nows[0], m)
  {
    hide Refilled, OneIn, Fraction;
    var p, now := OneIn(m), nows[n - 1];
    Fractions(now - nows[0], 0, m);
    assert PerSecond(p) > 0.0;
    hide PerSecond;
    var earlier := nows[..n - 1];
    assert nows[..n][..n - 1] == earlier && nows[..n][n - 1] == now;
    var b := Run(NoBucket, PerSecond(p), 1, earlier).0;
    if n == 1 {
      assert earlier == [];
    } else {
      FillingMemory(nows, m, n - 1);
      MemoryRefill(b.state, m, nows[0], now);
    }
  }

  lemma {:induction false} FillingScript(us: seq<int>, m: int, n: nat)
    requires NeverBack(us) && m > 0 && 1 <= n <= |us| && forall j :: 0 <= j < n ==> 1000 * (us[j] - us[0]) < m
    ensures var k := TB.Run(TB.Absent, TB.Polls(OneIn(m), us[..n])).0;
            k.Present? && k.hash.last == us[n - 1] && k.hash.tokens == Fraction(1000 * (us[n - 1] - us[0]), m)
  {
    hide TB.Script, TB.Level, OneIn, Fraction;
    var p, now := OneIn(m), us[n - 1];
    Fractions(1000 * (now - us[0]), 0, m);
    var earlier := us[..n - 1];
    assert us[..n][..n - 1] == earlier && us[..n][n - 1] == now;
    assert TB.Polls(p, us[..n])[..n - 1] == TB.Polls(p, earlier);
    var k := TB.Run(TB.Absent, TB.Polls(p, earlier)).0;
    TB.StepEffect(k, p, now);
    if n == 1 {
      assert earlier == [];
      TB.AbsentIsFull(p, now);
    } else {
      FillingScript(us, m, n - 1);
      assert us[n - 2] <= now;
      ScriptLevel(k, m, us[0], now);
    }
  }

  /** The first call whose distance from the first differs on the two clocks is one that just one of the two admits. */
  lemma {:induction false} FirstDisagreement(nows: seq<int>, i: nat) returns (p: TB.Params)
    requires NeverBack(nows) && i < |nows| && nows[i] % 1000 != nows[0] % 1000
    requires forall j :: 0 <= j < i ==> nows[j] % 1000 == nows[0] % 1000
    ensures p.burst == 1 && !Alike(p, nows)
  {
    hide TB.Script, TB.Level, Refilled, OneIn, Fraction, TB.Run, Run;
    var now := nows[i];
    var d, e := now - nows[0], 1000 * (now / 1000 - nows[0] / 1000);
    var m := MaxInt(d, e);
    assert i > 0 && nows[0] <= now && d != e && m > 0;
    forall j | 0 <= j < i ensures nows[j] - nows[0] < m && 1000 * (nows[j] / 1000 - nows[0] / 1000) < m {
      assert nows[j] <= now && nows[j] / 1000 <= now / 1000;
    }
    p := OneIn(m);
    FillingMemory(nows, m, i);
    FillingScript(Micros(nows), m, i);
    assert Micros(nows)[..i] == Micros(nows[..i]);
    Fractions(d, 0, m);
    Fractions(e, 0, m);
    var b, k := Run(NoBucket, PerSecond(p), 1, nows[..i]).0, TB.Run(TB.Absent, TB.Polls(p, Micros(nows[..i]))).0;
    MemoryRefill(b.state, m, nows[0], now);
    assert nows[i - 1] <= now;
    ScriptLevel(k, m, nows[0] / 1000, now / 1000);
    TB.StepEffect(k, p, now / 1000);
    DecisionAt(p, nows, i);
  }

  lemma {:induction false} DecisionAt(p: TB.Params, nows: seq<int>, i: nat)
    requires i < |nows|
    ensures Run(NoBucket, PerSecond(p), p.burst, nows).1[i]
            == Allow(Run(NoBucket, PerSecond(p), p.burst, nows[..i]).0, PerSecond(p), p.burst, nows[i]).1
    ensures TB.Run(TB.Absent, TB.Polls(p, Micros(nows))).1[i]
            == TB.Script(TB.Run(TB.Absent, TB.Polls(p, Micros(nows[..i]))).0, p, nows[i] / 1000).1
  {
    hide TB.Script, Allow, TB.Run;
    RunPrefix(PerSecond(p), p.burst, nows, i + 1);
    assert nows[..i + 1][..i] == nows[..i];
    assert Run(NoBucket, PerSecond(p), p.burst, nows).1[..i + 1][i] == Run(NoBucket, PerSecond(p), p.burst, nows).1[i];
    TB.ReplyAt(TB.Absent, TB.Polls(p, Micros(nows)), i);
    assert TB.Polls(p, Micros(nows))[..i] == TB.Polls(p, Micros(nows[..i]));
  }

  /**
   On a clock that never goes back, the limiter in memory and the Redis script decide alike at every call, for every rate
   and every burst, if and only if the calls are whole microseconds apart.
   */
  lemma {:induction false} SameDecisionsIff(nows: seq<int>)
    requires NeverBack(nows)
    ensures (forall p: TB.Params :: p.burst >= 1 ==> Alike(p, nows)) <==> WholeSteps(nows)
  {
    hide Run, TB.Run, Allow, TB.Script;
    if WholeSteps(nows) {
      forall p: TB.Params | p.burst >= 1 ensures Alike(p, nows) {
        TwinRun(p, nows, 0);
      }
    } else {
      var i := FirstBroken(nows, |nows|);
      var p := FirstDisagreement(nows, i);
    }
  }

  lemma {:induction false} FirstBroken(nows: seq<int>, n: nat) returns (i: nat)
    requires n <= |nows| && exists j :: 0 <= j < n && nows[j] % 1000 != nows[0] % 1000
    ensures i < n && nows[i] % 1000 != nows[0] % 1000
    ensures forall j :: 0 <= j < i ==> nows[j] % 1000 == nows[0] % 1000
  {
    if j :| 0 <= j < n - 1 && nows[j] % 1000 != nows[0] % 1000 {
      i := FirstBroken(nows, n - 1);
    } else {
      i := n - 1;
    }
  }

  /** With a rate of zero or less both admit everything. */
  lemma {:induction false} UnmeteredAdmitsAll(p: TB.Params, nows: seq<int>, i: nat)
    requires p.rate <= 0.0 && i < |nows|
    ensures Run(NoBucket, PerSecond(p), p.burst, nows).1[i] && TB.Run(TB.Absent, TB.Polls(p, Micros(nows))).1[i].allowed
  {
    hide Run, TB.Run, TB.Script;
    DecisionAt(p, nows, i);
    UnmeteredKeepsKey(TB.Run(TB.Absent, TB.Polls(p, Micros(nows[..i]))).0, p, nows[i] / 1000);
  }
}
