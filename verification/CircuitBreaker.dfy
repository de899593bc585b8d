/**
 The circuit breaker of the auth client (internal/auth/auth.go) and its per-tenant sibling
 (internal/ratelimit/external.go), which adds access times so that idle breakers can be evicted.

 `Core` is the state both share; `After` is that state as a function of the outcomes recorded so far.
 */
module CircuitBreaker {

  datatype Core = Core(failures: nat, open: bool, openUntil: int)

  datatype Config = Config(threshold: int, resetTimeout: int)

  const CLOSED := Core(0, false, 0)

  function Failed(c: Core, cfg: Config, now: int): Core {
    var n := c.failures + 1;
    if n >= cfg.threshold then Core(n, true, now + cfg.resetTimeout) else c.(failures := n)
  }

  function Succeeded(c: Core): Core {
    c.(failures := 0, open := false)
  }

  predicate IsOpen(c: Core, now: int) {
    c.open && now < c.openUntil
  }

  const DEFAULT_THRESHOLD := 5
  const DEFAULT_RESET := 30_000_000_000

  /** The auth client's breaker; every call of the clock within one method is one reading. */
  class Breaker {
    const threshold: int
    const resetTimeout: int
    var failures: nat
    var open: bool
    var openUntil: int

    constructor (threshold: int, resetTimeout: int)
      ensures View() == CLOSED && this.threshold >= 1 && this.resetTimeout >= 1
      ensures this.threshold == if threshold <= 0 then DEFAULT_THRESHOLD else threshold
      ensures this.resetTimeout == if resetTimeout <= 0 then DEFAULT_RESET else resetTimeout
    {
      this.threshold := if threshold <= 0 then DEFAULT_THRESHOLD else threshold;
      this.resetTimeout := if resetTimeout <= 0 then DEFAULT_RESET else resetTimeout;
      failures, open, openUntil := 0, false, 0;
    }

    ghost function View(): Core
      reads this
    {
      Core(failures, open, openUntil)
    }

    method CheckOpen(now: int) returns (r: bool)
      ensures r == IsOpen(View(), now)
    {
      if !open {
        return false;
      }
      return now < openUntil;
    }

    method RecordFailure(now: int)
      modifies this
      ensures View() == Failed(old(View()), Config(threshold, resetTimeout), now)
    {
      failures := failures + 1;
      if failures >= threshold {
        open := true;
        openUntil := now + resetTimeout;
      }
    }

    method RecordSuccess()
      modifies this
      ensures View() == Succeeded(old(View()))
    {
      failures := 0;
      open := false;
    }
  }

  // ---------------------------------------------------------------- state and history

  datatype Outcome = Failure(at: int) | Success

  function After(h: seq<Outcome>, cfg: Config): Core {
    if |h| == 0 then CLOSED
    else match h[|h| - 1]
      case Failure(at) => Failed(After(h[..|h| - 1], cfg), cfg, at)
      case Success => Succeeded(After(h[..|h| - 1], cfg))
  }

  /** The failures recorded since the last success. */
  function Streak(h: seq<Outcome>): nat {
    if |h| == 0 || h[|h| - 1].Success? then 0 else Streak(h[..|h| - 1]) + 1
  }

  /**
   The state is its history: open iff the failures since the last success number at least the threshold, and
   refusing at `now` iff, besides, less than the reset timeout has passed since the last failure.
   */
  lemma {:induction false} StateIsHistory(h: seq<Outcome>, cfg: Config, now: int)
    requires cfg.threshold >= 1
    ensures var c := After(h, cfg);
            && c.failures == Streak(h)
            && (c.open <==> Streak(h) >= cfg.threshold)
            && (IsOpen(c, now) <==> Streak(h) >= cfg.threshold && now < h[|h| - 1].at + cfg.resetTimeout)
  {
    if |h| == 0 {
    } else {
      StateIsHistory(h[..|h| - 1], cfg, now);
    }
  }

  // ---------------------------------------------------------------- overlapping callers

  /** A caller asks whether to go ahead, or an outcome is recorded; nothing ties an outcome to the next question. */
  datatype Event = Ask(at: int) | Record(outcome: Outcome)

  function Outcomes(es: seq<Event>): seq<Outcome> {
    if es == [] then []
    else Outcomes(es[..|es| - 1]) + if es[|es| - 1].Record? then [es[|es| - 1].outcome] else []
  }

  /** The number of questions answered with go ahead. */
  function Contacts(es: seq<Event>, cfg: Config): nat {
    if es == [] then 0
    else
      var init, e := es[..|es| - 1], es[|es| - 1];
      Contacts(init, cfg) + if e.Ask? && !IsOpen(After(Outcomes(init), cfg), e.at) then 1 else 0
  }

  function Asks(m: nat, at: int): (es: seq<Event>)
    ensures |es| == m && forall i :: 0 <= i < m ==> es[i] == Ask(at)
  {
    seq(m, i => Ask(at))
  }

  /** Half-open is no single probe: once the timeout has passed, any number of callers go ahead before the first reports. */
  lemma {:induction false} HalfOpenAdmitsMany(es: seq<Event>, cfg: Config, m: nat, at: int)
    requires cfg.threshold >= 1 && Streak(Outcomes(es)) >= cfg.threshold
    requires var h := Outcomes(es); at >= h[|h| - 1].at + cfg.resetTimeout
    ensures Outcomes(es + Asks(m, at)) == Outcomes(es)
    ensures Contacts(es + Asks(m, at), cfg) == Contacts(es, cfg) + m
  {
    if m == 0 {
      assert es + Asks(0, at) == es;
    } else {
      HalfOpenAdmitsMany(es, cfg, m - 1, at);
      var all := es + Asks(m, at);
      assert all[..|all| - 1] == es + Asks(m - 1, at);
      StateIsHistory(Outcomes(es), cfg, at);
    }
  }

  // ---------------------------------------------------------------- sequential use by the auth client

  datatype Answer = Allowed | Error | Canceled

  /** One Check: it starts, and if it contacts the service the answer arrives at `end`. */
  datatype Attempt = Attempt(start: int, end: int, answer: Answer)

  /** A Check leaves the breaker as it was unless the service was contacted and answered or failed. */
  function Check(c: Core, cfg: Config, a: Attempt): (Core, bool) {
    if IsOpen(c, a.start) then (c, false)
    else match a.answer
      case Allowed => (Succeeded(c), true)
      case Error => (Failed(c, cfg, a.end), true)
      case Canceled => (c, true)
  }

  class AuthClient {
    const cb: Breaker

    constructor (threshold: int, resetTimeout: int)
      ensures fresh(cb) && cb.View() == CLOSED && cb.threshold >= 1
    {
      cb := new Breaker(threshold, resetTimeout);
    }

    method CheckOnce(a: Attempt) returns (contacted: bool)
      modifies cb
      ensures (cb.View(), contacted) == Check(old(cb.View()), Config(cb.threshold, cb.resetTimeout), a)
    {
      var refused := cb.CheckOpen(a.start);
      if refused {
        return false;
      }
      contacted := true;
      if !a.answer.Allowed? {
        if a.answer.Canceled? {
          return;
        }
        cb.RecordFailure(a.end);
        return;
      }
      cb.RecordSuccess();
    }
  }

  function Session(xs: seq<Attempt>, cfg: Config): Core {
    if |xs| == 0 then CLOSED else Check(Session(xs[..|xs| - 1], cfg), cfg, xs[|xs| - 1]).0
  }

  /** What a session records: the contacts that answered or failed, not the canceled or refused ones. */
  function Recorded(xs: seq<Attempt>, cfg: Config): seq<Outcome> {
    if |xs| == 0 then []
    else
      var n := |xs| - 1;
      var earlier := Recorded(xs[..n], cfg);
      if IsOpen(Session(xs[..n], cfg), xs[n].start) || xs[n].answer.Canceled? then earlier
      else earlier + [if xs[n].answer.Error? then Failure(xs[n].end) else Success]
  }

  /** Canceled and refused Checks never change the breaker: a session leaves it as its recorded outcomes alone would. */
  lemma {:induction false} SessionIsHistory(xs: seq<Attempt>, cfg: Config)
    ensures Session(xs, cfg) == After(Recorded(xs, cfg), cfg)
  {
    var n := |xs| - 1;
    if |xs| == 0 {
    } else {
      SessionIsHistory(xs[..n], cfg);
      var earlier, all := Recorded(xs[..n], cfg), Recorded(xs, cfg);
      assert |all| > |earlier| ==> all[..|earlier|] == earlier;
    }
  }

  /** A Check contacts the service unless the outcomes recorded so far keep the circuit open at its start. */
  lemma {:induction false} ContactedIff(xs: seq<Attempt>, cfg: Config, a: Attempt)
    requires cfg.threshold >= 1
    ensures var h := Recorded(xs, cfg);
            Check(Session(xs, cfg), cfg, a).1 <==> !(Streak(h) >= cfg.threshold && a.start < h[|h| - 1].at + cfg.resetTimeout)
  {
    hide Failed, Succeeded;
    SessionIsHistory(xs, cfg);
    StateIsHistory(Recorded(xs, cfg), cfg, a.start);
  }

  /** One after the other: each Check starts no earlier than the one before it ended. */
  ghost predicate Sequential(xs: seq<Attempt>) {
    && (forall i :: 0 <= i < |xs| ==> xs[i].start <= xs[i].end)
    && (forall i, j :: 0 <= i < j < |xs| ==> xs[i].end <= xs[j].start)
  }

  ghost predicate NoneAllowed(xs: seq<Attempt>) {
    forall i :: 0 <= i < |xs| ==> !xs[i].answer.Allowed?
  }

  /** When the contacts that failed did so. */
  function FailTimes(xs: seq<Attempt>, cfg: Config): seq<int> {
    if |xs| == 0 then []
    else
      var n := |xs| - 1;
      var earlier := FailTimes(xs[..n], cfg);
      if !IsOpen(Session(xs[..n], cfg), xs[n].start) && xs[n].answer.Error? then earlier + [xs[n].end] else earlier
  }

  lemma {:induction false} SessionState(xs: seq<Attempt>, cfg: Config)
    requires cfg.threshold >= 1 && Sequential(xs) && NoneAllowed(xs)
    ensures var c, ft := Session(xs, cfg), FailTimes(xs, cfg);
            && c.failures == |ft|
            && (c.open <==> |ft| >= cfg.threshold)
            && (c.open ==> c.openUntil == ft[|ft| - 1] + cfg.resetTimeout)
  {
    if |xs| == 0 {
    } else {
      SessionState(xs[..|xs| - 1], cfg);
    }
  }

  /** Failed contacts from the threshold on: each at least a reset timeout after the one before. */
  ghost predicate Spaced(ft: seq<int>, cfg: Config) {
    forall k :: 1 <= k < |ft| && k >= cfg.threshold ==> ft[k] >= ft[k - 1] + cfg.resetTimeout
  }

  /** In any sequential run without a success, failed contacts beyond the threshold are a reset timeout apart. */
  lemma {:induction false} FailuresAreSpaced(xs: seq<Attempt>, cfg: Config)
    requires cfg.threshold >= 1 && Sequential(xs) && NoneAllowed(xs)
    ensures Spaced(FailTimes(xs, cfg), cfg)
  {
    if |xs| == 0 {
    } else {
      FailuresAreSpaced(xs[..|xs| - 1], cfg);
      SessionState(xs[..|xs| - 1], cfg);
    }
  }

  lemma {:induction false} SpacedSpan(ft: seq<int>, cfg: Config)
    requires cfg.threshold >= 1 && Spaced(ft, cfg) && |ft| >= cfg.threshold
    ensures (|ft| - cfg.threshold) * cfg.resetTimeout <= ft[|ft| - 1] - ft[cfg.threshold - 1]
    decreases |ft|
  {
    if |ft| > cfg.threshold {
      SpacedSpan(ft[..|ft| - 1], cfg);
      assert (|ft| - cfg.threshold) * cfg.resetTimeout
          == (|ft| - 1 - cfg.threshold) * cfg.resetTimeout + cfg.resetTimeout;
    }
  }

  /**
   So a dead service is contacted in vain at most threshold + span / resetTimeout times, where the span runs from
   the failure that opened the circuit to the last one.
   */
  lemma {:induction false} FailureBudget(xs: seq<Attempt>, cfg: Config)
    requires cfg.threshold >= 1 && Sequential(xs) && NoneAllowed(xs)
    ensures var ft := FailTimes(xs, cfg);
            |ft| >= cfg.threshold ==>
              (|ft| - cfg.threshold) * cfg.resetTimeout <= ft[|ft| - 1] - ft[cfg.threshold - 1]
  {
    FailuresAreSpaced(xs, cfg);
    if |FailTimes(xs, cfg)| >= cfg.threshold {
      SpacedSpan(FailTimes(xs, cfg), cfg);
    }
  }

  // ---------------------------------------------------------------- per-tenant breakers

  /** The per-tenant breaker: the same core with the time of its last use. */
  class TenantBreaker {
    const threshold: int
    const resetTimeout: int
    var failures: nat
    var lastFailure: int
    var open: bool
    var openUntil: int
    var lastAccess: int

    constructor (threshold: int, resetTimeout: int, now: int)
      requires resetTimeout >= 0
      ensures View() == CLOSED && lastAccess == now && Fresh()
      ensures this.threshold == threshold && this.resetTimeout == resetTimeout
    {
      this.threshold, this.resetTimeout := threshold, resetTimeout;
      failures, lastFailure, open, openUntil, lastAccess := 0, 0, false, 0, now;
    }

    ghost function View(): Core
      reads this
    {
      Core(failures, open, openUntil)
    }

    /** What every operation keeps on a clock that never goes back: an open circuit closes within a timeout of the last use. */
    ghost predicate Fresh()
      reads this
    {
      resetTimeout >= 0 && (open ==> openUntil <= lastAccess + resetTimeout)
    }

    method CheckOpen(now: int) returns (r: bool)
      requires Fresh() && now >= lastAccess
      modifies this`lastAccess
      ensures Fresh() && lastAccess == now && r == IsOpen(View(), now)
    {
      lastAccess := now;
      if !open {
        return false;
      }
      return now < openUntil;
    }

    method RecordFailure(now: int)
      requires Fresh() && now >= lastAccess
      modifies this
      ensures Fresh() && lastAccess == lastFailure == now && View() == Failed(old(View()), Config(threshold, resetTimeout), now)
    {
      failures := failures + 1;
      lastFailure := now;
      lastAccess := now;
      if failures >= threshold {
        open := true;
        openUntil := now + resetTimeout;
      }
    }

    method RecordSuccess(now: int)
      requires Fresh() && now >= lastAccess
      modifies this
      ensures Fresh() && lastAccess == now && View() == Succeeded(old(View()))
    {
      failures := 0;
      open := false;
      lastAccess := now;
    }

    /** Only breakers idle for two reset timeouts are evicted, and such a breaker refuses nothing, now or later. */
    method IsStale(now: int) returns (stale: bool)
      requires Fresh()
      ensures stale == (now - lastAccess > 2 * resetTimeout)
      ensures stale ==> forall t :: t >= now ==> !IsOpen(View(), t)
    {
      stale := now - lastAccess > 2 * resetTimeout;
    }
  }

  const STUB := Config(0x7fff_ffff, 3_600_000_000_000)

  function Failures(n: nat, at: int): (h: seq<Outcome>)
    ensures |h| == n && forall i :: 0 <= i < n ==> h[i] == Failure(at)
  {
    seq(n, i => Failure(at))
  }

  lemma {:induction false} StreakOfFailures(n: nat, at: int)
    ensures Streak(Failures(n, at)) == n
  {
    if n > 0 {
      StreakOfFailures(n - 1, at);
      assert Failures(n, at)[..n - 1] == Failures(n - 1, at);
    }
  }

  /**
   The stub that all keys beyond the cap share is documented as permanently closed with record* as no-ops.  Its methods
   do count: it stays closed exactly as long as fewer than 2^31 - 1 failures follow the last success, and that many open it.
   */
  lemma {:induction false} StubIsNotInert(h: seq<Outcome>, at: int)
    ensures After(h, STUB).open <==> Streak(h) >= 0x7fff_ffff
    ensures IsOpen(After(Failures(0x7fff_ffff, at), STUB), at)
  {
    StateIsHistory(h, STUB, at);
    StreakOfFailures(0x7fff_ffff, at);
    StateIsHistory(Failures(0x7fff_ffff, at), STUB, at);
  }
}
