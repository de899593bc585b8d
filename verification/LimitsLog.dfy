/**
 What happens around the external limits service, as a log (internal/ratelimit/external.go), and what a log tells about a
 value that was returned: where it came from, and what stood in the way of something fresher.
 Times are in nanoseconds.
 */
module LimitsLog {
  import CB = CircuitBreaker
  import opened LookupKey
  import opened Options

  datatype Limits = Limits(average: int, burst: int, period: string, tenantKey: string)

  /** What a Redis key holds, and until when. */
  datatype Cell = Cell(limits: Limits, exp: int)

  datatype Settings = Settings(exclude: set<string>, breaker: CB.Config, maxBreakers: nat, maxFetches: nat)

  const STALE_TTL := 300_000_000_000

  datatype Reason = CircuitOpen | SemaphoreFull | FetchError

  datatype Reader = ByCall(id: nat) | ByFlight(f: nat)

  /**
   Calls start, read copies, pass or are refused by a breaker or the semaphore, acquire and release it, and join flights;
   flights are launched, read, hear from the service, record the outcome with a breaker, write copies, and finish; Redis
   loses keys and the evictor drops breakers.
   A read or write is logged with its being carried out or not, and not with what it found.
   */
  datatype Event =
    | Started(id: nat)
    | ReadFresh(who: Reader, key: string, works: bool, at: int)
    | ReadStale(who: Reader, key: string, works: bool, at: int)
    | Passed(id: nat, key: string, slot: nat, at: int)
    | Refused(id: nat, key: string, reason: Reason, slot: nat, at: int)
    | Acquired(id: nat)
    | Released(id: nat)
    | Launched(flight: nat)
    | Joined(id: nat, flight: nat)
    | Fetched(q: Query, limits: Limits, ttl: int, flight: nat)
    | FetchFailed(flight: nat)
    | Recorded(slot: nat, key: string, outcome: CB.Outcome, flight: nat)
    | SetFresh(key: string, limits: Limits, ttl: int, flight: nat, works: bool, at: int)
    | SetStale(key: string, limits: Limits, flight: nat, works: bool, at: int)
    | Finished(flight: nat)
    | Evicted(rk: string)
    | Dropped(key: string)

  type Log = seq<Event>

  ghost function KeyIn(cfg: Settings, q: Query): string {
    Key(q, cfg.exclude)
  }

  /** The breaker that keys beyond the cap share has slot 0. */
  function BreakerConfig(cfg: Settings, slot: nat): CB.Config {
    if slot == 0 then CB.STUB else cfg.breaker
  }

  // ---------------------------------------------------------------- state as history

  /** The calls that hold the semaphore, and the flights under way, after these events. */
  function Holding(log: Log): set<nat> {
    if log == [] then {}
    else
      var before := Holding(log[..|log| - 1]);
      match log[|log| - 1]
      case Acquired(id) => before + {id}
      case Released(id) => before - {id}
      case _ => before
  }

  function Under(log: Log): set<nat> {
    if log == [] then {}
    else
      var before := Under(log[..|log| - 1]);
      match log[|log| - 1]
      case Launched(f) => before + {f}
      case Finished(f) => before - {f}
      case _ => before
  }

  /** The outcomes recorded with a breaker. */
  function Outcomes(log: Log, slot: nat): seq<CB.Outcome> {
    if log == [] then []
    else
      var before, e := Outcomes(log[..|log| - 1], slot), log[|log| - 1];
      if e.Recorded? && e.slot == slot then before + [e.outcome] else before
  }

  /** What a Redis key holds: the last write to it that was carried out, unless the key was lost since. */
  function Stored(log: Log, rk: string): Option<Cell> {
    if log == [] then None
    else
      var before := Stored(log[..|log| - 1], rk);
      match log[|log| - 1]
      case SetFresh(key, v, ttl, _, works, at) =>
        if works && ttl > 0 && rk == FreshKey(key) then Some(Cell(v, at + ttl)) else before
      case SetStale(key, v, _, works, at) => if works && rk == StaleKey(key) then Some(Cell(v, at + STALE_TTL)) else before
      case Evicted(lost) => if rk == lost then None else before
      case _ => before
  }

  /** What a read finds: the copy, if the command is carried out and the copy has not expired. */
  function Found(log: Log, rk: string, works: bool, at: int): Option<Limits> {
    var c := Stored(log, rk);
    if works && c.Some? && at < c.value.exp then Some(c.value.limits) else None
  }

  /** The breakers that keys have of their own: a key has the one it was last seen with, until that is dropped. */
  function Owners(log: Log): map<string, nat> {
    if log == [] then map[]
    else
      var before := Owners(log[..|log| - 1]);
      match log[|log| - 1]
      case Passed(_, key, slot, _) => if slot != 0 then before[key := slot] else before
      case Refused(_, key, reason, slot, _) => if reason.CircuitOpen? && slot != 0 then before[key := slot] else before
      case Recorded(slot, key, _, _) => if slot != 0 then before[key := slot] else before
      case Dropped(key) => before - {key}
      case _ => before
  }

  /** The breaker of a key: its own; or, if all places are taken, the shared one; or a new one. */
  ghost predicate RightSlot(cfg: Settings, log: Log, key: string, slot: nat) {
    if key in Owners(log) then slot == Owners(log)[key]
    else if |Owners(log)| >= cfg.maxBreakers then slot == 0
    else slot != 0 && forall k :: k in Owners(log) ==> Owners(log)[k] != slot
  }

  predicate Binds(e: Event) {
    e.Passed? || e.Recorded? || (e.Refused? && e.reason.CircuitOpen?)
  }

  predicate Writes(e: Event) {
    e.SetFresh? || e.SetStale? || e.Evicted?
  }

  lemma {:induction false} StoredNext(log: Log, e: Event, rk: string)
    ensures !Writes(e) ==> Stored(log + [e], rk) == Stored(log, rk)
    ensures e.SetFresh? ==> Stored(log + [e], rk) == if e.works && e.ttl > 0 && rk == FreshKey(e.key)
                                                     then Some(Cell(e.limits, e.at + e.ttl)) else Stored(log, rk)
    ensures e.SetStale? ==> Stored(log + [e], rk) == if e.works && rk == StaleKey(e.key)
                                                     then Some(Cell(e.limits, e.at + STALE_TTL)) else Stored(log, rk)
    ensures e.Evicted? ==> Stored(log + [e], rk) == if rk == e.rk then None else Stored(log, rk)
  {
    hide FreshKey, StaleKey;
    assert (log + [e])[..|log|] == log;
  }

  lemma {:induction false} OwnersNext(log: Log, e: Event)
    ensures Owners(log + [e]) == if Binds(e) && e.slot != 0 then Owners(log)[e.key := e.slot]
                                 else if e.Dropped? then Owners(log) - {e.key} else Owners(log)
  {
    assert (log + [e])[..|log|] == log;
  }

  lemma {:induction false} AfterEvent(log: Log, e: Event)
    ensures Holding(log + [e]) == if e.Acquired? then Holding(log) + {e.id}
                                  else if e.Released? then Holding(log) - {e.id} else Holding(log)
    ensures Under(log + [e]) == if e.Launched? then Under(log) + {e.flight}
                                else if e.Finished? then Under(log) - {e.flight} else Under(log)
    ensures forall b :: Outcomes(log + [e], b)
                        == if e.Recorded? && e.slot == b then Outcomes(log, b) + [e.outcome] else Outcomes(log, b)
  {
    assert (log + [e])[..|log|] == log;
  }

  // ---------------------------------------------------------------- what a log tells

  ghost predicate WasFetched(cfg: Settings, log: Log, key: string, v: Limits) {
    exists i :: 0 <= i < |log| && log[i].Fetched? && KeyIn(cfg, log[i].q) == key && log[i].limits == v
  }

  ghost predicate FetchedBy(cfg: Settings, log: Log, key: string, v: Limits, f: nat) {
    exists i :: 0 <= i < |log| && log[i].Fetched? && log[i].flight == f && KeyIn(cfg, log[i].q) == key && log[i].limits == v
  }

  ghost predicate FailedIn(log: Log, f: nat) {
    exists i :: 0 <= i < |log| && log[i] == FetchFailed(f)
  }

  /** Written no later than `at`, with a TTL that had not passed at that time. */
  ghost predicate FreshAt(log: Log, key: string, v: Limits, at: int) {
    exists i :: 0 <= i < |log| && log[i].SetFresh? && log[i].works && log[i].key == key && log[i].limits == v
                && log[i].at <= at < log[i].at + log[i].ttl
  }

  ghost predicate StaleAt(log: Log, key: string, v: Limits, at: int) {
    exists i :: 0 <= i < |log| && log[i].SetStale? && log[i].works && log[i].key == key && log[i].limits == v
                && log[i].at <= at < log[i].at + STALE_TTL
  }

  ghost predicate HasStarted(log: Log, id: nat) {
    exists i :: 0 <= i < |log| && log[i] == Started(id)
  }

  /** The breaker for the key let the call pass. */
  ghost predicate HasPassed(log: Log, id: nat, key: string) {
    exists i :: 0 <= i < |log| && log[i].Passed? && log[i].id == id && log[i].key == key
  }

  /** At some moment of the call the flight was under way. */
  ghost predicate Met(log: Log, id: nat, f: nat) {
    exists i :: 0 <= i < |log| && log[i] == Joined(id, f) && f in Under(log[..i]) && HasStarted(log[..i], id)
  }

  ghost predicate OnlyFor(log: Log, slot: nat, key: string) {
    forall i :: 0 <= i < |log| && log[i].Recorded? && log[i].slot == slot ==> log[i].key == key
  }

  /** Every failure recorded with the breaker is that of a flight whose fetch had failed. */
  ghost predicate FailuresAreReal(log: Log, slot: nat) {
    forall i :: 0 <= i < |log| && log[i].Recorded? && log[i].slot == slot && log[i].outcome.Failure? ==>
      FailedIn(log[..i], log[i].flight)
  }

  /** Since its last success the breaker had seen failures up to its threshold, the last within a reset timeout. */
  ghost predicate Streaky(cfg: Settings, log: Log, slot: nat, at: int) {
    var h, c := Outcomes(log, slot), BreakerConfig(cfg, slot);
    CB.Streak(h) >= c.threshold && |h| > 0 && h[|h| - 1].Failure? && at < h[|h| - 1].at + c.resetTimeout
  }

  /** All of these were failed fetches and, unless the breaker is the shared one, fetches for that key. */
  ghost predicate Tripped(cfg: Settings, log: Log, key: string, slot: nat, at: int) {
    Streaky(cfg, log, slot, at) && FailuresAreReal(log, slot) && (slot != 0 ==> OnlyFor(log, slot, key))
  }

  ghost predicate Justified(cfg: Settings, log: Log, e: Event)
    requires e.Refused?
  {
    match e.reason
    case CircuitOpen => Tripped(cfg, log, e.key, e.slot, e.at)
    case SemaphoreFull => |Holding(log)| >= cfg.maxFetches
    case FetchError => false
  }

  /** The call was refused for that reason no later than `at`, and the reason was true at the time. */
  ghost predicate RefusedBy(cfg: Settings, log: Log, id: nat, key: string, reason: Reason, at: int) {
    exists i :: 0 <= i < |log| && log[i].Refused? && log[i].id == id && log[i].key == key && log[i].reason == reason
                && log[i].at <= at && Justified(cfg, log[..i], log[i])
  }

  /** How a result was come by; `at` is the time of the read. */
  datatype How = FreshHit(at: int) | StaleHit(reason: Reason, at: int) | FetchedNow | NoLimits

  /** Where a value returned by call `id` for `key` came from; `via` is the flight that was waited for, if any. */
  ghost predicate Explained(cfg: Settings, log: Log, id: nat, key: string, v: Limits, how: How, via: Option<nat>) {
    && WasFetched(cfg, log, key, v)
    && (via.Some? ==> Met(log, id, via.value))
    && match how
       case FreshHit(at) => FreshAt(log, key, v, at)
       case StaleHit(reason, at) =>
         && StaleAt(log, key, v, at)
         && (if reason == FetchError then via.Some? && FailedIn(log, via.value) else RefusedBy(cfg, log, id, key, reason, at))
       case FetchedNow => via.Some? && FetchedBy(cfg, log, key, v, via.value)
       case NoLimits => false
  }

  /** A read of the stale copy for the key was not carried out or found nothing live, and the service had been out of reach. */
  ghost predicate FoundNothing(cfg: Settings, log: Log, i: nat, who: Reader, key: string) {
    && i < |log| && log[i].ReadStale? && log[i].who == who && log[i].key == key
    && Found(log[..i], StaleKey(key), log[i].works, log[i].at).None?
    && match who
       case ByCall(id) => exists reason :: reason != FetchError && RefusedBy(cfg, log[..i], id, key, reason, log[i].at)
       case ByFlight(f) => FailedIn(log[..i], f)
  }

  /** Why a call got no limits: it was refused, or its flight's fetch failed, and then there was no stale copy to be had. */
  ghost predicate Unanswered(cfg: Settings, log: Log, who: Reader, key: string) {
    exists i: nat :: FoundNothing(cfg, log, i, who, key)
  }

  /** Who read last on behalf of a call: the flight that it waited for, or itself. */
  function LastReader(id: nat, via: Option<nat>): Reader {
    if via.Some? then ByFlight(via.value) else ByCall(id)
  }

  // ---------------------------------------------------------------- what a flight does with an answer

  ghost predicate Answered(log: Log, f: nat, v: Limits, ttl: int) {
    exists i :: 0 <= i < |log| && log[i].Fetched? && log[i].flight == f && log[i].limits == v && log[i].ttl == ttl
  }

  ghost predicate Reported(log: Log, f: nat, key: string, ok: bool) {
    exists i :: 0 <= i < |log| && log[i].Recorded? && log[i].flight == f && log[i].key == key && log[i].outcome.Success? == ok
  }

  ghost predicate WroteFresh(log: Log, f: nat, key: string, v: Limits) {
    exists i :: 0 <= i < |log| && log[i].SetFresh? && log[i].flight == f && log[i].key == key && log[i].limits == v
                && Answered(log[..i], f, v, log[i].ttl)
  }

  ghost predicate WroteStale(log: Log, f: nat, key: string, v: Limits) {
    exists i :: 0 <= i < |log| && log[i].SetStale? && log[i].flight == f && log[i].key == key && log[i].limits == v
  }

  // ---------------------------------------------------------------- logs only grow

  lemma {:induction false} LaterFetched(cfg: Settings, log: Log, log': Log, key: string, v: Limits)
    requires log <= log' && WasFetched(cfg, log, key, v)
    ensures WasFetched(cfg, log', key, v)
  {
    var i :| 0 <= i < |log| && log[i].Fetched? && KeyIn(cfg, log[i].q) == key && log[i].limits == v;
    assert log'[i] == log[i];
  }

  lemma {:induction false} LaterFetchedBy(cfg: Settings, log: Log, log': Log, key: string, v: Limits, f: nat)
    requires log <= log' && FetchedBy(cfg, log, key, v, f)
    ensures FetchedBy(cfg, log', key, v, f)
  {
    var i :| 0 <= i < |log| && log[i].Fetched? && log[i].flight == f && KeyIn(cfg, log[i].q) == key && log[i].limits == v;
    assert log'[i] == log[i];
  }

  lemma {:induction false} LaterFailed(log: Log, log': Log, f: nat)
    requires log <= log' && FailedIn(log, f)
    ensures FailedIn(log', f)
  {
    var i :| 0 <= i < |log| && log[i] == FetchFailed(f);
    assert log'[i] == log[i];
  }

  lemma {:induction false} LaterFresh(log: Log, log': Log, key: string, v: Limits, at: int)
    requires log <= log' && FreshAt(log, key, v, at)
    ensures FreshAt(log', key, v, at)
  {
    var i :| 0 <= i < |log| && log[i].SetFresh? && log[i].works && log[i].key == key && log[i].limits == v
             && log[i].at <= at < log[i].at + log[i].ttl;
    assert log'[i] == log[i];
  }

  lemma {:induction false} LaterStale(log: Log, log': Log, key: string, v: Limits, at: int)
    requires log <= log' && StaleAt(log, key, v, at)
    ensures StaleAt(log', key, v, at)
  {
    var i :| 0 <= i < |log| && log[i].SetStale? && log[i].works && log[i].key == key && log[i].limits == v
             && log[i].at <= at < log[i].at + STALE_TTL;
    assert log'[i] == log[i];
  }

  lemma {:induction false} LaterStarted(log: Log, log': Log, id: nat)
    requires log <= log' && HasStarted(log, id)
    ensures HasStarted(log', id)
  {
    var i :| 0 <= i < |log| && log[i] == Started(id);
    assert log'[i] == log[i];
  }

  lemma {:induction false} LaterPassed(log: Log, log': Log, id: nat, key: string)
    requires log <= log' && HasPassed(log, id, key)
    ensures HasPassed(log', id, key)
  {
    var i :| 0 <= i < |log| && log[i].Passed? && log[i].id == id && log[i].key == key;
    assert log'[i] == log[i];
  }

  lemma {:induction false} LaterMet(log: Log, log': Log, id: nat, f: nat)
    requires log <= log' && Met(log, id, f)
    ensures Met(log', id, f)
  {
    hide Under, HasStarted;
    var i :| 0 <= i < |log| && log[i] == Joined(id, f) && f in Under(log[..i]) && HasStarted(log[..i], id);
    assert log'[i] == log[i] && log'[..i] == log[..i];
  }

  lemma {:induction false} LaterRefused(cfg: Settings, log: Log, log': Log, id: nat, key: string, reason: Reason,
                                        at: int, at': int)
    requires log <= log' && at <= at' && RefusedBy(cfg, log, id, key, reason, at)
    ensures RefusedBy(cfg, log', id, key, reason, at')
  {
    hide Justified;
    var i :| 0 <= i < |log| && log[i].Refused? && log[i].id == id && log[i].key == key && log[i].reason == reason
             && log[i].at <= at && Justified(cfg, log[..i], log[i]);
    assert log'[i] == log[i] && log'[..i] == log[..i];
  }

  lemma {:induction false} LaterExplained(cfg: Settings, log: Log, log': Log, id: nat, key: string, v: Limits, how: How,
                                          via: Option<nat>)
    requires log <= log' && Explained(cfg, log, id, key, v, how, via)
    ensures Explained(cfg, log', id, key, v, how, via)
  {
    hide WasFetched, FetchedBy, FailedIn, FreshAt, StaleAt, Met, RefusedBy;
    LaterFetched(cfg, log, log', key, v);
    if via.Some? {
      LaterMet(log, log', id, via.value);
    }
    match how {
      case FreshHit(at) => LaterFresh(log, log', key, v, at);
      case StaleHit(reason, at) =>
        LaterStale(log, log', key, v, at);
        if reason == FetchError {
          LaterFailed(log, log', via.value);
        } else {
          LaterRefused(cfg, log, log', id, key, reason, at, at);
        }
      case FetchedNow => LaterFetchedBy(cfg, log, log', key, v, via.value);
      case NoLimits =>
    }
  }

  lemma {:induction false} ByOneIsByAny(cfg: Settings, log: Log, key: string, v: Limits, f: nat)
    requires FetchedBy(cfg, log, key, v, f)
    ensures WasFetched(cfg, log, key, v)
  {
  }

  lemma {:induction false} LaterUnanswered(cfg: Settings, log: Log, log': Log, who: Reader, key: string)
    requires log <= log' && Unanswered(cfg, log, who, key)
    ensures Unanswered(cfg, log', who, key)
  {
    hide Found, RefusedBy, FailedIn, StaleKey;
    var i: nat :| FoundNothing(cfg, log, i, who, key);
    assert log'[i] == log[i] && log'[..i] == log[..i];
    assert FoundNothing(cfg, log', i, who, key);
  }

  lemma {:induction false} LaterAnswered(log: Log, log': Log, f: nat, v: Limits, ttl: int)
    requires log <= log' && Answered(log, f, v, ttl)
    ensures Answered(log', f, v, ttl)
  {
    var i :| 0 <= i < |log| && log[i].Fetched? && log[i].flight == f && log[i].limits == v && log[i].ttl == ttl;
    assert log'[i] == log[i];
  }

  lemma {:induction false} LaterReported(log: Log, log': Log, f: nat, key: string, ok: bool)
    requires log <= log' && Reported(log, f, key, ok)
    ensures Reported(log', f, key, ok)
  {
    var i :| 0 <= i < |log| && log[i].Recorded? && log[i].flight == f && log[i].key == key && log[i].outcome.Success? == ok;
    assert log'[i] == log[i];
  }

  lemma {:induction false} LaterWroteFresh(log: Log, log': Log, f: nat, key: string, v: Limits)
    requires log <= log' && WroteFresh(log, f, key, v)
    ensures WroteFresh(log', f, key, v)
  {
    hide Answered;
    var i :| 0 <= i < |log| && log[i].SetFresh? && log[i].flight == f && log[i].key == key && log[i].limits == v
             && Answered(log[..i], f, v, log[i].ttl);
    assert log'[i] == log[i] && log'[..i] == log[..i];
  }

  lemma {:induction false} LaterWroteStale(log: Log, log': Log, f: nat, key: string, v: Limits)
    requires log <= log' && WroteStale(log, f, key, v)
    ensures WroteStale(log', f, key, v)
  {
    var i :| 0 <= i < |log| && log[i].SetStale? && log[i].flight == f && log[i].key == key && log[i].limits == v;
    assert log'[i] == log[i];
  }

  // ---------------------------------------------------------------- sound logs

  ghost predicate GoodKey(cfg: Settings, key: string) {
    exists q: Query :: ':' !in q.verb && KeyIn(cfg, q) == key
  }

  /** What an event that is about to be logged must have going for it. */
  ghost predicate Sound(cfg: Settings, now: int, log: Log, e: Event) {
    match e
    case SetFresh(key, v, ttl, f, _, at) => at <= now && GoodKey(cfg, key) && WasFetched(cfg, log, key, v)
    case SetStale(key, v, f, _, at) => at <= now && GoodKey(cfg, key) && WasFetched(cfg, log, key, v)
    case Passed(_, key, slot, at) => RightSlot(cfg, log, key, slot) && !Streaky(cfg, log, slot, at)
    case Refused(_, key, reason, slot, at) =>
      at <= now && Justified(cfg, log, e) && (reason.CircuitOpen? ==> RightSlot(cfg, log, key, slot))
    case Acquired(id) => exists key :: HasPassed(log, id, key)
    case Recorded(slot, key, o, f) => RightSlot(cfg, log, key, slot) && (o.Failure? ==> FailedIn(log, f))
    case _ => true
  }

  ghost predicate LogOk(cfg: Settings, now: int, log: Log) {
    forall i :: 0 <= i < |log| ==> Sound(cfg, now, log[..i], log[i])
  }

  lemma {:induction false} LogLater(cfg: Settings, now: int, log: Log, now': int)
    requires LogOk(cfg, now, log) && now <= now'
    ensures LogOk(cfg, now', log)
  {
    hide GoodKey, WasFetched, Justified, FailedIn, RightSlot, Streaky;
    forall i | 0 <= i < |log| ensures Sound(cfg, now', log[..i], log[i]) {
      assert Sound(cfg, now, log[..i], log[i]);
    }
  }

  lemma {:induction false} LogNote(cfg: Settings, now: int, log: Log, e: Event)
    requires LogOk(cfg, now, log) && Sound(cfg, now, log, e)
    ensures LogOk(cfg, now, log + [e])
  {
    hide Sound;
    var log' := log + [e];
    forall i | 0 <= i < |log'| ensures Sound(cfg, now, log'[..i], log'[i]) {
      assert log'[..i] == log[..i];
      if i == |log| {
        assert log[..i] == log;
      } else {
        assert log'[i] == log[i];
      }
    }
  }

  lemma {:induction false} RealFailures(cfg: Settings, now: int, log: Log, slot: nat)
    requires LogOk(cfg, now, log)
    ensures FailuresAreReal(log, slot)
  {
    hide FailedIn, Justified, GoodKey, WasFetched, RightSlot, Streaky;
    forall i | 0 <= i < |log| && log[i].Recorded? && log[i].slot == slot && log[i].outcome.Failure?
      ensures FailedIn(log[..i], log[i].flight)
    {
      assert Sound(cfg, now, log[..i], log[i]);
    }
  }

  lemma {:induction false} OnlyForNext(log: Log, slot: nat, key: string, e: Event)
    requires OnlyFor(log, slot, key) && (e.Recorded? && e.slot == slot ==> e.key == key)
    ensures OnlyFor(log + [e], slot, key)
  {
  }
}
