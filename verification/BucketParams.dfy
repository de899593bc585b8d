/** How the configured average, burst, period and min_ttl become bucket parameters (internal/middleware/chain.go). */
module BucketParams {
  import opened Arithmetic
  import opened TokenBucket
  import opened BucketExpiry

  const MAX_TTL := 7 * 24 * 3600
  const SECOND := 1_000_000_000

  /** Rate in tokens per second, TTL in seconds, period in nanoseconds. */
  datatype Resolved = Resolved(ratePerSecond: real, burst: int, ttl: int, period: int)

  /** Durations are nanoseconds; one that is empty or does not parse is 0. */
  function Parse(average: int, burst: int, period: int, minTtl: int): Resolved {
    var period' := if period <= 0 then SECOND else period;
    var rate := if average > 0 then average as real * SECOND as real / period' as real else 0.0;
    var ttl := MaxInt(2, 2 * Ceil(period' as real / SECOND as real));
    var ttl' := if 0.0 < rate < 1.0 then MinInt((1.0 / rate).Floor + 2, MAX_TTL) else ttl;
    var ttl'' := if minTtl > 0 then MaxInt(ttl', Ceil(minTtl as real / SECOND as real)) else ttl';
    Resolved(rate, MaxInt(burst, 1), ttl'', period')
  }

  /** The arguments the limiter hands to the script: the rate becomes per-microsecond. */
  function ScriptParams(r: Resolved): Params {
    Params(r.ratePerSecond / 1_000_000.0, r.burst, r.ttl)
  }

  lemma {:induction false} RateSign(average: int, burst: int, period: int, minTtl: int)
    ensures Parse(average, burst, period, minTtl).ratePerSecond > 0.0 <==> average > 0
    ensures Parse(average, burst, period, minTtl).ratePerSecond >= 0.0
  {
    hide Ceil;
    var period' := if period <= 0 then SECOND else period;
    if average > 0 {
      var n := average as real * SECOND as real;
      var rate := n / period' as real;
      assert rate * (period' as real) == n > 0.0;
      if rate <= 0.0 {
        MulMono(period' as real, rate, 0.0);
      }
    }
  }

  /** The period that counts: one second unless a positive one is configured. */
  function PeriodOf(period: int): (d: int)
    ensures d > 0
  {
    if period > 0 then period else SECOND
  }

  /** What the configuration promises: `average` tokens in one period. */
  lemma {:induction false} AveragePerPeriod(average: int, burst: int, period: int, minTtl: int)
    requires average > 0
    ensures var r := Parse(average, burst, period, minTtl);
            && r.period == PeriodOf(period)
            && r.ratePerSecond * (r.period as real) == average as real * SECOND as real
            && ScriptParams(r).rate * (r.period as real) == average as real * 1000.0
  {
    hide Ceil;
    var r := Parse(average, burst, period, minTtl);
    var n := average as real * SECOND as real;
    assert r.ratePerSecond == n / r.period as real;
    assert r.ratePerSecond * (r.period as real) == n;
    assert ScriptParams(r).rate * 1_000_000.0 == r.ratePerSecond;
    Commute(ScriptParams(r).rate, 1_000_000.0, r.period as real);
  }

  lemma {:induction false} Commute(a: real, b: real, c: real)
    ensures (a * b) * c == (a * c) * b
  {
  }

  /** Scaling: a rate that makes `whole` in `span` makes its share in `e`. */
  lemma {:induction false} Share(rate: real, span: real, whole: real, e: real)
    requires span > 0.0 && rate * span == whole
    ensures rate * e == whole * (e / span)
  {
    var q := e / span;
    assert q * span == e;
    assert rate * e == rate * (q * span) == (rate * span) * q;
  }

  /** In `e` microseconds a bucket gains its share of the average, up to the burst. */
  lemma {:induction false} GainsAverage(average: int, burst: int, period: int, minTtl: int, k: Key, e: nat)
    requires average > 0 && k.Present?
    ensures var p := ScriptParams(Parse(average, burst, period, minTtl));
            Level(k, p, k.hash.last + e) ==
            MinReal(MaxInt(burst, 1) as real, k.hash.tokens + average as real * 1000.0 * (e as real / PeriodOf(period) as real))
  {
    hide Parse;
    AveragePerPeriod(average, burst, period, minTtl);
    BurstAtLeastOne(average, burst, period, minTtl);
    var r := Parse(average, burst, period, minTtl);
    Share(ScriptParams(r).rate, r.period as real, average as real * 1000.0, e as real);
  }

  /** So a window admits at most the burst and its share of the average, however the calls fall. */
  lemma {:induction false} AverageBound(average: int, burst: int, period: int, minTtl: int, k: Key, nows: seq<int>,
                                        i: nat, j: nat)
    requires average > 0 && Solvent(k) && NeverBack(nows) && i < j <= |nows|
    ensures var p := ScriptParams(Parse(average, burst, period, minTtl));
            var window := (nows[j - 1] - nows[i]) as real * 1000.0;
            Admitted(Run(k, Polls(p, nows)).1[i..j]) as real
            <= MaxInt(burst, 1) as real + average as real * (window / PeriodOf(period) as real)
  {
    hide Parse, Run, Admitted;
    AveragePerPeriod(average, burst, period, minTtl);
    BurstAtLeastOne(average, burst, period, minTtl);
    RateSign(average, burst, period, minTtl);
    var r := Parse(average, burst, period, minTtl);
    var e := (nows[j - 1] - nows[i]) as real;
    Share(ScriptParams(r).rate, r.period as real, average as real * 1000.0, e);
    ShareScales(average as real, e, r.period as real);
    WindowBound(k, ScriptParams(r), Polls(ScriptParams(r), nows), i, j);
  }

  lemma {:induction false} ShareScales(a: real, e: real, span: real)
    requires span > 0.0
    ensures a * 1000.0 * (e / span) == a * ((e * 1000.0) / span)
  {
    assert (e * 1000.0) / span == (e / span) * 1000.0;
  }

  lemma {:induction false} TtlAtLeastTwo(average: int, burst: int, period: int, minTtl: int)
    ensures Parse(average, burst, period, minTtl).ttl >= 2
    ensures minTtl > 0 ==> Parse(average, burst, period, minTtl).ttl >= Ceil(minTtl as real / SECOND as real)
  {
    hide Ceil;
    var rate := Parse(average, burst, period, minTtl).ratePerSecond;
    if 0.0 < rate < 1.0 {
      var q := 1.0 / rate;
      assert q * rate == 1.0;
      if q < 0.0 {
        MulMono(rate, q, 0.0);
      }
    }
  }

  /**
   Without min_ttl the TTL covers two periods, by less than two seconds more, at one token a second or faster.  For a
   slower average it outlasts the refill of one token unless that takes seven days or more, which is where it is cut.
   */
  lemma {:induction false} TtlCovers(average: int, burst: int, period: int)
    ensures var ttl, d := Parse(average, burst, period, 0).ttl, PeriodOf(period);
            if 0 < average * SECOND < d
            then ttl <= MAX_TTL && (ttl * SECOND * average > d <==> MAX_TTL * SECOND * average > d)
            else 2 * d <= ttl * SECOND < 2 * d + 2 * SECOND
  {
    hide Ceil, Parse;
    var r, d, a := Parse(average, burst, period, 0), PeriodOf(period), average * SECOND;
    if 0 < a < d {
      var q := d as real / a as real;
      SlowRate(average, burst, period);
      OverQuotient(r.ttl, q, a, d);
      OverQuotient(MAX_TTL, q, a, d);
      assert r.ttl * SECOND * average == r.ttl * a && MAX_TTL * SECOND * average == MAX_TTL * a;
    } else {
      FastRate(average, burst, period);
      WholeSeconds(d);
    }
  }

  lemma {:induction false} WholeSeconds(d: int)
    requires d > 0
    ensures var c := Ceil(d as real / SECOND as real); c >= 1 && d <= c * SECOND < d + SECOND
  {
    hide Ceil;
    var q := d as real / SECOND as real;
    assert q * SECOND as real == d as real;
  }

  lemma {:induction false} OverQuotient(n: int, q: real, a: int, d: int)
    requires a > 0 && q == d as real / a as real
    ensures n * a > d <==> n as real > q
  {
    assert q * a as real == d as real;
    MulOrder(a as real, n as real, q);
    assert (n * a) as real == n as real * a as real;
  }

  lemma {:induction false} SlowRate(average: int, burst: int, period: int)
    requires 0 < average * SECOND < PeriodOf(period)
    ensures var q := PeriodOf(period) as real / (average * SECOND) as real;
            Parse(average, burst, period, 0).ttl == MinInt(q.Floor + 2, MAX_TTL)
  {
    hide Ceil;
    var r, d, a := Parse(average, burst, period, 0), PeriodOf(period) as real, (average * SECOND) as real;
    assert average as real * SECOND as real == a;
    assert r.ratePerSecond == a / d;
    Inverse(a, d);
  }

  lemma {:induction false} Inverse(a: real, d: real)
    requires 0.0 < a < d
    ensures 0.0 < a / d < 1.0 && 1.0 / (a / d) == d / a
  {
    var x := a / d;
    assert d * x == a;
    if x >= 1.0 {
      MulMono(d, 1.0, x);
    }
    if x <= 0.0 {
      MulMono(d, x, 0.0);
    }
    var y := d / a;
    assert x * y == 1.0;
  }

  lemma {:induction false} FastRate(average: int, burst: int, period: int)
    requires !(0 < average * SECOND < PeriodOf(period))
    ensures Parse(average, burst, period, 0).ttl == MaxInt(2, 2 * Ceil(PeriodOf(period) as real / SECOND as real))
  {
    hide Ceil;
    var r, d, a := Parse(average, burst, period, 0), PeriodOf(period) as real, (average * SECOND) as real;
    if average > 0 {
      assert average as real * SECOND as real == a;
      assert r.ratePerSecond == a / d;
      AtLeastOne(a, d);
    }
  }

  lemma {:induction false} AtLeastOne(a: real, d: real)
    requires 0.0 < d <= a
    ensures a / d >= 1.0
  {
    var x := a / d;
    assert d * x == a;
    MulOrder(d, 1.0, x);
  }

  /** A min_ttl only ever raises the TTL, and by no more than it takes. */
  lemma {:induction false} MinTtlRaises(average: int, burst: int, period: int, minTtl: int)
    ensures var ttl, base := Parse(average, burst, period, minTtl).ttl, Parse(average, burst, period, 0).ttl;
            && base <= ttl && minTtl <= ttl * SECOND
            && (ttl > base ==> (ttl - 1) * SECOND < minTtl)
  {
    hide Ceil;
  }

  /** A positive average always gives the script parameters it needs. */
  lemma {:induction false} ParsedIsSane(average: int, burst: int, period: int, minTtl: int)
    requires average > 0
    ensures Sane(ScriptParams(Parse(average, burst, period, minTtl)))
  {
    hide Parse;
    RateSign(average, burst, period, minTtl);
    TtlAtLeastTwo(average, burst, period, minTtl);
    assert Parse(average, burst, period, minTtl).burst >= 1 by { BurstAtLeastOne(average, burst, period, minTtl); }
  }

  lemma {:induction false} BurstAtLeastOne(average: int, burst: int, period: int, minTtl: int)
    ensures Parse(average, burst, period, minTtl).burst == MaxInt(burst, 1)
  {
    hide Ceil;
  }

  /** A TTL of at least 2 * (burst / rate + 1) seconds makes the bucket refill before its key can be lost. */
  lemma {:induction false} LongTtlRefills(r: Resolved)
    requires r.ratePerSecond > 0.0 && r.burst >= 1
    requires r.ttl as real >= 2.0 * (r.burst as real / r.ratePerSecond + 1.0)
    ensures Refills(ScriptParams(r))
  {
    var rate, b := r.ratePerSecond, r.burst as real;
    var p := ScriptParams(r);
    var q := b / rate;
    assert rate * q == b;
    var seconds := Gap(p) as real / 1_000_000.0;
    assert seconds == r.ttl as real / 2.0 - 0.999_999;
    MulMono(rate, q, seconds);
    assert Gain(p, Gap(p)) == rate * seconds;
  }

  /** A min_ttl of at least 2 * (burst / rate + 1) seconds makes expiry invisible on every run. */
  lemma {:induction false} MinTtlHidesExpiry(average: int, burst: int, period: int, minTtl: int)
    requires average > 0 && minTtl > 0
    requires var r := Parse(average, burst, period, minTtl);
             r.ratePerSecond > 0.0 && minTtl as real / SECOND as real >= 2.0 * (r.burst as real / r.ratePerSecond + 1.0)
    ensures Invisible(ScriptParams(Parse(average, burst, period, minTtl)))
  {
    hide Parse, Ceil, Invisible, Refills;
    var r := Parse(average, burst, period, minTtl);
    ParsedIsSane(average, burst, period, minTtl);
    TtlAtLeastTwo(average, burst, period, minTtl);
    BurstAtLeastOne(average, burst, period, minTtl);
    LongTtlRefills(r);
    InvisibleIff(ScriptParams(r));
  }

  /**
   Without min_ttl and with the default one-second period, the TTL is 2 s and expiry is invisible only for
   averages of at least a million times the burst: below that, a client that idles past the TTL gets its burst back early.
   */
  lemma {:induction false} OneSecondPeriod(average: int, burst: int)
    requires average > 0
    ensures Invisible(ScriptParams(Parse(average, burst, 0, 0))) <==> average >= 1_000_000 * MaxInt(burst, 1)
  {
    hide Invisible;
    var r := Parse(average, burst, 0, 0);
    assert r.ratePerSecond == average as real;
    assert r.ttl == 2;
    var p := ScriptParams(r);
    assert Gain(p, HalfTtl(p)) == average as real;
    assert Gain(p, Gap(p)) == average as real / 1_000_000.0;
    ParsedIsSane(average, burst, 0, 0);
    InvisibleIff(p);
  }
}
