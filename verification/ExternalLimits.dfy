/**
 The client of the external limits service (internal/ratelimit/external.go): any number of concurrent GetLimits calls,
 cut at their Redis commands, their breaker and semaphore operations, their service calls and singleflight, over a fresh and
 a stale copy of each answer.
 Times are in nanoseconds.  A read may fail, a write may fail, and a key may be evicted at any time.
 */
module ExternalLimits {
  import CB = CircuitBreaker
  import opened LimitsLog
  import opened LookupKey
  import opened Options

  datatype Slot = Slot(core: CB.Core, lastAccess: int)

  /** The breakers: which slot a key has, what each slot holds, the next free slot, and the counter against the cap. */
  datatype Guard = Guard(breakers: map<string, nat>, slots: map<nat, Slot>, next: nat, count: nat)

  datatype Phase =
    | Looking
    | Missed
    | Cleared
    | Denied(reason: Reason)
    | Admitted
    | Waiting(flight: nat)
    | Done(result: Option<Limits>, how: How, via: Option<nat>)

  datatype Call = Call(q: Query, phase: Phase)

  datatype FlightPhase =
    | Rechecking
    | Fetching
    | Succeeding(limits: Limits, ttl: int)
    | StoringFresh(limits: Limits, ttl: int)
    | StoringStale(limits: Limits)
    | Failing
    | FallingBack
    | Ended(result: Option<Limits>, how: How)

  /** A flight fetches for the request of the call that started it. */
  datatype Flight = Flight(q: Query, leader: nat, phase: FlightPhase)

  /** `group` is the singleflight group, the flight under way for a key; `holders` are the calls inside the semaphore. */
  datatype State = State(cfg: Settings, now: int, log: Log, redis: map<string, Cell>, guard: Guard,
                         calls: map<nat, Call>, holders: set<nat>, flights: map<nat, Flight>, group: map<string, nat>)

  datatype Action =
    | Start(id: nat, q: Query)
    | Look(id: nat, works: bool)
    | AskBreaker(id: nat)
    | Acquire(id: nat)
    | LookStale(id: nat, works: bool)
    | Join(id: nat, flight: nat)
    | Collect(id: nat)
    | Recheck(f: nat, works: bool)
    | Answer(f: nat, limits: Limits, ttl: int)
    | Fail(f: nat)
    | Report(f: nat)
    | PutFresh(f: nat, works: bool)
    | PutStale(f: nat, works: bool)
    | FallBack(f: nat, works: bool)
    | Tick(d: nat)
    | Evict(rk: string)
    | EvictBreaker(key: string)

  function Init(cfg: Settings): State {
    State(cfg, 0, [], map[], Guard(map[], map[0 := Slot(CB.CLOSED, 0)], 1, 0), map[], {}, map[], map[])
  }

  /** GET of a Redis key; an expired key and a failed command read alike. */
  function Get(s: State, rk: string, works: bool): Option<Limits> {
    if works && rk in s.redis && s.now < s.redis[rk].exp then Some(s.redis[rk].limits) else None
  }

  ghost function CallKey(s: State, id: nat): string
    requires id in s.calls
  {
    KeyIn(s.cfg, s.calls[id].q)
  }

  ghost function FlightKey(s: State, f: nat): string
    requires f in s.flights
  {
    KeyIn(s.cfg, s.flights[f].q)
  }

  predicate InPhase(s: State, id: nat, p: Phase) {
    id in s.calls && s.calls[id].phase == p
  }

  predicate FlightIn(s: State, f: nat, p: FlightPhase) {
    f in s.flights && s.flights[f].phase == p
  }

  predicate InFlight(s: State, f: nat) {
    f in s.flights && !s.flights[f].phase.Ended?
  }

  ghost predicate Enabled(s: State, a: Action) {
    match a
    case Start(id, q) => id !in s.calls && ':' !in q.verb
    case Look(id, _) => InPhase(s, id, Looking)
    case AskBreaker(id) => InPhase(s, id, Missed)
    case Acquire(id) => InPhase(s, id, Cleared)
    case LookStale(id, _) => id in s.calls && s.calls[id].phase.Denied?
    case Join(id, f) =>
      InPhase(s, id, Admitted)
      && (var k := CallKey(s, id); if k in s.group then f == s.group[k] else f !in s.flights)
    case Collect(id) =>
      id in s.calls && s.calls[id].phase.Waiting?
      && (var f := s.calls[id].phase.flight; f in s.flights && s.flights[f].phase.Ended?)
    case Recheck(f, _) => FlightIn(s, f, Rechecking)
    case Answer(f, _, _) => FlightIn(s, f, Fetching)
    case Fail(f) => FlightIn(s, f, Fetching)
    case Report(f) => f in s.flights && (s.flights[f].phase.Succeeding? || s.flights[f].phase.Failing?)
    case PutFresh(f, _) => f in s.flights && s.flights[f].phase.StoringFresh?
    case PutStale(f, _) => f in s.flights && s.flights[f].phase.StoringStale?
    case FallBack(f, _) => FlightIn(s, f, FallingBack)
    case Tick(_) => true
    case Evict(_) => true
    case EvictBreaker(key) =>
      key in s.guard.breakers && s.guard.breakers[key] in s.guard.slots
      && s.now - s.guard.slots[s.guard.breakers[key]].lastAccess > 2 * s.cfg.breaker.resetTimeout
  }

  // ---------------------------------------------------------------- breakers

  /** getOrCreateCB: the key's slot, or the shared one at the cap, or a new one. */
  function SlotFor(cfg: Settings, g: Guard, key: string): nat {
    if key in g.breakers then g.breakers[key] else if g.count >= cfg.maxBreakers then 0 else g.next
  }

  function Created(cfg: Settings, g: Guard, key: string, now: int): Guard {
    if key in g.breakers || g.count >= cfg.maxBreakers then g
    else Guard(g.breakers[key := g.next], g.slots[g.next := Slot(CB.CLOSED, now)], g.next + 1, g.count + 1)
  }

  function CoreOf(g: Guard, slot: nat): CB.Core {
    if slot in g.slots then g.slots[slot].core else CB.CLOSED
  }

  function WithCore(g: Guard, slot: nat, core: CB.Core, now: int): Guard {
    g.(slots := g.slots[slot := Slot(core, now)])
  }

  /** recordFailure or recordSuccess. */
  function Told(cfg: Settings, g: Guard, slot: nat, o: CB.Outcome, now: int): Guard {
    var core := CoreOf(g, slot);
    var core' := match o case Failure(at) => CB.Failed(core, BreakerConfig(cfg, slot), at) case Success => CB.Succeeded(core);
    WithCore(g, slot, core', now)
  }

  // ---------------------------------------------------------------- steps

  function SetPhase(s: State, id: nat, p: Phase): State
    requires id in s.calls
  {
    s.(calls := s.calls[id := s.calls[id].(phase := p)])
  }

  function SetFlight(s: State, f: nat, p: FlightPhase): State
    requires f in s.flights
  {
    s.(flights := s.flights[f := s.flights[f].(phase := p)])
  }

  function Note(s: State, e: Event): State {
    s.(log := s.log + [e])
  }

  /** The flight's result is known and its key free again. */
  ghost function End(s: State, f: nat, result: Option<Limits>, how: How): State
    requires f in s.flights
  {
    Note(SetFlight(s, f, Ended(result, how)).(group := s.group - {FlightKey(s, f)}), Finished(f))
  }

  function Put(s: State, rk: string, limits: Limits, ttl: int): State {
    s.(redis := s.redis[rk := Cell(limits, s.now + ttl)])
  }

  ghost function Asked(s: State, id: nat): State
    requires id in s.calls
  {
    var key := CallKey(s, id);
    var slot, g := SlotFor(s.cfg, s.guard, key), Created(s.cfg, s.guard, key, s.now);
    var s1 := s.(guard := WithCore(g, slot, CoreOf(g, slot), s.now));
    if CB.IsOpen(CoreOf(g, slot), s.now)
    then Note(SetPhase(s1, id, Denied(CircuitOpen)), Refused(id, key, CircuitOpen, slot, s.now))
    else Note(SetPhase(s1, id, Cleared), Passed(id, key, slot, s.now))
  }

  ghost function Acquiring(s: State, id: nat): State
    requires id in s.calls
  {
    if |s.holders| < s.cfg.maxFetches
    then Note(SetPhase(s, id, Admitted), Acquired(id)).(holders := s.holders + {id})
    else Note(SetPhase(s, id, Denied(SemaphoreFull)), Refused(id, CallKey(s, id), SemaphoreFull, 0, s.now))
  }

  /** singleflight.Do: wait for the flight under way for the key, or start one. */
  ghost function Joining(s: State, id: nat, f: nat): State
    requires id in s.calls
  {
    var s1 := SetPhase(s, id, Waiting(f));
    if CallKey(s, id) in s.group then Note(s1, LimitsLog.Joined(id, f))
    else Note(Note(s1, Launched(f)), LimitsLog.Joined(id, f))
         .(flights := s.flights[f := Flight(s.calls[id].q, id, Rechecking)], group := s.group[CallKey(s, id) := f])
  }

  ghost function Reporting(s: State, f: nat): State
    requires f in s.flights
  {
    var key, p := FlightKey(s, f), s.flights[f].phase;
    var o := if p.Succeeding? then CB.Success else CB.Failure(s.now);
    var slot, g := SlotFor(s.cfg, s.guard, key), Created(s.cfg, s.guard, key, s.now);
    var s1 := s.(guard := Told(s.cfg, g, slot, o, s.now));
    Note(SetFlight(s1, f, if p.Succeeding? then StoringFresh(p.limits, p.ttl) else FallingBack), Recorded(slot, key, o, f))
  }

  ghost function LookingUp(s: State, id: nat, works: bool): State
    requires id in s.calls
  {
    var key := CallKey(s, id);
    var hit := Get(s, FreshKey(key), works);
    Note(SetPhase(s, id, if hit.Some? then Done(hit, FreshHit(s.now), None) else Missed),
         ReadFresh(ByCall(id), key, works, s.now))
  }

  ghost function FallingOnStale(s: State, id: nat, works: bool): State
    requires id in s.calls && s.calls[id].phase.Denied?
  {
    var key := CallKey(s, id);
    var hit := Get(s, StaleKey(key), works);
    Note(SetPhase(s, id, Done(hit, if hit.Some? then StaleHit(s.calls[id].phase.reason, s.now) else NoLimits, None)),
         ReadStale(ByCall(id), key, works, s.now))
  }

  function Collecting(s: State, id: nat): State
    requires id in s.calls && s.calls[id].phase.Waiting?
    requires var f := s.calls[id].phase.flight; f in s.flights && s.flights[f].phase.Ended?
  {
    var f := s.calls[id].phase.flight;
    Note(SetPhase(s, id, Done(s.flights[f].phase.result, s.flights[f].phase.how, Some(f))), Released(id))
    .(holders := s.holders - {id})
  }

  ghost function Rereading(s: State, f: nat, works: bool): State
    requires f in s.flights
  {
    var key := FlightKey(s, f);
    var hit := Get(s, FreshKey(key), works);
    var s1 := Note(s, ReadFresh(ByFlight(f), key, works, s.now));
    if hit.Some? then End(s1, f, hit, FreshHit(s.now)) else SetFlight(s1, f, Fetching)
  }

  ghost function WithFresh(s: State, f: nat, works: bool): State
    requires f in s.flights && s.flights[f].phase.StoringFresh?
  {
    var p, key := s.flights[f].phase, FlightKey(s, f);
    var s1 := SetFlight(s, f, StoringStale(p.limits));
    Note(if works && p.ttl > 0 then Put(s1, FreshKey(key), p.limits, p.ttl) else s1,
         SetFresh(key, p.limits, p.ttl, f, works, s.now))
  }

  ghost function WithStale(s: State, f: nat, works: bool): State
    requires f in s.flights && s.flights[f].phase.StoringStale?
  {
    var p, key := s.flights[f].phase, FlightKey(s, f);
    Note(if works then Put(s, StaleKey(key), p.limits, STALE_TTL) else s, SetStale(key, p.limits, f, works, s.now))
  }

  ghost function FallingBackOnStale(s: State, f: nat, works: bool): State
    requires f in s.flights
  {
    var key := FlightKey(s, f);
    var hit := Get(s, StaleKey(key), works);
    End(Note(s, ReadStale(ByFlight(f), key, works, s.now)), f, hit, if hit.Some? then StaleHit(FetchError, s.now) else NoLimits)
  }

  function Evicting(g: Guard, key: string): Guard {
    g.(breakers := g.breakers - {key}, count := if g.count > 0 then g.count - 1 else 0)
  }

  ghost function Apply(s: State, a: Action): State
    requires Enabled(s, a)
  {
    match a
    case Start(id, q) => Note(s.(calls := s.calls[id := Call(q, Looking)]), Started(id))
    case Look(id, works) => LookingUp(s, id, works)
    case AskBreaker(id) => Asked(s, id)
    case Acquire(id) => Acquiring(s, id)
    case LookStale(id, works) => FallingOnStale(s, id, works)
    case Join(id, f) => Joining(s, id, f)
    case Collect(id) => Collecting(s, id)
    case Recheck(f, works) => Rereading(s, f, works)
    case Answer(f, limits, ttl) => Note(SetFlight(s, f, Succeeding(limits, ttl)), Fetched(s.flights[f].q, limits, ttl, f))
    case Fail(f) => Note(SetFlight(s, f, Failing), FetchFailed(f))
    case Report(f) => Reporting(s, f)
    case PutFresh(f, works) => WithFresh(s, f, works)
    case PutStale(f, works) => End(WithStale(s, f, works), f, Some(s.flights[f].phase.limits), FetchedNow)
    case FallBack(f, works) => FallingBackOnStale(s, f, works)
    case Tick(d) => s.(now := s.now + d)
    case Evict(rk) => Note(s.(redis := s.redis - {rk}), Evicted(rk))
    case EvictBreaker(key) => Note(s.(guard := Evicting(s.guard, key)), Dropped(key))
  }

  ghost function Step(s: State, a: Action): State {
    if Enabled(s, a) then Apply(s, a) else s
  }

  ghost function Exec(s: State, acts: seq<Action>): State {
    if acts == [] then s else Step(Exec(s, acts[..|acts| - 1]), acts[|acts| - 1])
  }

  // ---------------------------------------------------------------- the invariant: facts

  /** Redis holds what the log says. */
  ghost predicate RedisOk(log: Log, redis: map<string, Cell>) {
    forall rk :: Stored(log, rk) == if rk in redis then Some(redis[rk]) else None
  }

  ghost predicate CallOk(s: State, id: nat, c: Call) {
    var key := KeyIn(s.cfg, c.q);
    && ':' !in c.q.verb && HasStarted(s.log, id)
    && match c.phase
       case Cleared => HasPassed(s.log, id, key)
       case Denied(reason) => reason != FetchError && RefusedBy(s.cfg, s.log, id, key, reason, s.now)
       case Waiting(f) => f in s.flights && FlightKey(s, f) == key && Met(s.log, id, f)
       case Done(result, how, via) =>
         if result.Some? then Explained(s.cfg, s.log, id, key, result.value, how, via)
         else Unanswered(s.cfg, s.log, LastReader(id, via), key)
       case _ => true
  }

  ghost predicate CallsOk(s: State) {
    forall id :: id in s.calls ==> CallOk(s, id, s.calls[id])
  }

  /** The answer was reported to the breaker and handed to Redis twice. */
  ghost predicate Delivered(log: Log, f: nat, key: string, v: Limits) {
    Reported(log, f, key, true) && WroteFresh(log, f, key, v) && WroteStale(log, f, key, v)
  }

  /** What a flight's result rests on, apart from who waits for it. */
  ghost predicate Grounded(cfg: Settings, log: Log, f: nat, key: string, v: Limits, how: How) {
    && WasFetched(cfg, log, key, v)
    && match how
       case FreshHit(at) => FreshAt(log, key, v, at)
       case StaleHit(reason, at) =>
         reason == FetchError && StaleAt(log, key, v, at) && FailedIn(log, f) && Reported(log, f, key, false)
       case FetchedNow => FetchedBy(cfg, log, key, v, f) && Delivered(log, f, key, v)
       case NoLimits => false
  }

  ghost predicate Ends(cfg: Settings, log: Log, f: nat, key: string, result: Option<Limits>, how: How) {
    if result.Some? then Grounded(cfg, log, f, key, result.value, how)
    else Unanswered(cfg, log, ByFlight(f), key) && Reported(log, f, key, false)
  }

  ghost predicate FlightOk(cfg: Settings, log: Log, f: nat, fl: Flight) {
    var key := KeyIn(cfg, fl.q);
    && ':' !in fl.q.verb
    && match fl.phase
       case Succeeding(v, ttl) => FetchedBy(cfg, log, key, v, f) && Answered(log, f, v, ttl)
       case StoringFresh(v, ttl) => FetchedBy(cfg, log, key, v, f) && Answered(log, f, v, ttl) && Reported(log, f, key, true)
       case StoringStale(v) => FetchedBy(cfg, log, key, v, f) && Reported(log, f, key, true) && WroteFresh(log, f, key, v)
       case Failing => FailedIn(log, f)
       case FallingBack => FailedIn(log, f) && Reported(log, f, key, false)
       case Ended(result, how) => Ends(cfg, log, f, key, result, how)
       case _ => true
  }

  ghost predicate FlightsOk(s: State) {
    forall f :: f in s.flights ==> FlightOk(s.cfg, s.log, f, s.flights[f])
  }

  ghost predicate Facts(s: State) {
    LogOk(s.cfg, s.now, s.log) && RedisOk(s.log, s.redis) && CallsOk(s) && FlightsOk(s)
  }

  // ---------------------------------------------------------------- reads

  lemma {:induction false} GetIsFound(s: State, rk: string, works: bool)
    requires RedisOk(s.log, s.redis)
    ensures Get(s, rk, works) == Found(s.log, rk, works, s.now)
  {
    hide Stored;
    assert Stored(s.log, rk) == if rk in s.redis then Some(s.redis[rk]) else None;
  }

  /** The event that wrote what a key holds. */
  ghost predicate Wrote(e: Event, rk: string, c: Cell) {
    || (e.SetFresh? && e.works && rk == FreshKey(e.key) && c == Cell(e.limits, e.at + e.ttl))
    || (e.SetStale? && e.works && rk == StaleKey(e.key) && c == Cell(e.limits, e.at + STALE_TTL))
  }

  lemma {:induction false} WriterOf(log: Log, rk: string) returns (i: nat)
    requires Stored(log, rk).Some?
    ensures i < |log| && Wrote(log[i], rk, Stored(log, rk).value)
  {
    hide FreshKey, StaleKey;
    var init, e := log[..|log| - 1], log[|log| - 1];
    assert log == init + [e];
    if Wrote(e, rk, Stored(log, rk).value) {
      i := |log| - 1;
    } else {
      StoredNext(init, e, rk);
      hide Stored;
      i := WriterOf(init, rk);
    }
  }

  lemma {:induction false} FreshRead(s: State, q: Query, works: bool)
    requires LogOk(s.cfg, s.now, s.log) && RedisOk(s.log, s.redis) && ':' !in q.verb
    ensures var key := KeyIn(s.cfg, q);
            var hit := Get(s, FreshKey(key), works);
            hit.Some? ==> WasFetched(s.cfg, s.log, key, hit.value) && FreshAt(s.log, key, hit.value, s.now)
  {
    hide WasFetched, FreshKey, StaleKey, GoodKey, Key, Justified, Stored, RightSlot, Streaky;
    var key := KeyIn(s.cfg, q);
    var rk := FreshKey(key);
    GetIsFound(s, rk, works);
    if Get(s, rk, works).Some? {
      var i := WriterOf(s.log, rk);
      var e := s.log[i];
      assert Sound(s.cfg, s.now, s.log[..i], e);
      LaterFetched(s.cfg, s.log[..i], s.log, e.key, e.limits);
      KeySpacesApart(q, s.cfg.exclude, e.key);
      RedisKeysInjective(key, e.key);
    }
  }

  lemma {:induction false} StaleRead(s: State, q: Query, works: bool)
    requires LogOk(s.cfg, s.now, s.log) && RedisOk(s.log, s.redis)
    ensures var key := KeyIn(s.cfg, q);
            var hit := Get(s, StaleKey(key), works);
            hit.Some? ==> WasFetched(s.cfg, s.log, key, hit.value) && StaleAt(s.log, key, hit.value, s.now)
  {
    hide WasFetched, FreshKey, StaleKey, Key, Justified, Stored, RightSlot, Streaky;
    var key := KeyIn(s.cfg, q);
    var rk := StaleKey(key);
    GetIsFound(s, rk, works);
    if Get(s, rk, works).Some? {
      var i := WriterOf(s.log, rk);
      var e := s.log[i];
      assert Sound(s.cfg, s.now, s.log[..i], e);
      LaterFetched(s.cfg, s.log[..i], s.log, e.key, e.limits);
      var q': Query :| ':' !in q'.verb && KeyIn(s.cfg, q') == e.key;
      KeySpacesApart(q', s.cfg.exclude, key);
      RedisKeysInjective(key, e.key);
    }
  }

  // ---------------------------------------------------------------- frames of the facts

  /** The log grows, time passes, and flights stay with the request that they fly for. */
  predicate Later(s: State, s': State) {
    && s'.cfg == s.cfg && s.now <= s'.now && s.log <= s'.log
    && forall f :: f in s.flights ==> f in s'.flights && s'.flights[f].q == s.flights[f].q
  }

  lemma {:induction false} CallStays(s: State, s': State, id: nat, c: Call)
    requires CallOk(s, id, c) && Later(s, s')
    ensures CallOk(s', id, c)
  {
    hide Explained, Key, RefusedBy, Met, HasStarted, Unanswered, HasPassed;
    LaterStarted(s.log, s'.log, id);
    match c.phase {
      case Cleared => LaterPassed(s.log, s'.log, id, KeyIn(s.cfg, c.q));
      case Denied(reason) => LaterRefused(s.cfg, s.log, s'.log, id, KeyIn(s.cfg, c.q), reason, s.now, s'.now);
      case Waiting(f) => LaterMet(s.log, s'.log, id, f);
      case Done(result, how, via) =>
        if result.Some? {
          LaterExplained(s.cfg, s.log, s'.log, id, KeyIn(s.cfg, c.q), result.value, how, via);
        } else {
          LaterUnanswered(s.cfg, s.log, s'.log, LastReader(id, via), KeyIn(s.cfg, c.q));
        }
      case _ =>
    }
  }

  lemma {:induction false} LaterDelivered(log: Log, log': Log, f: nat, key: string, v: Limits)
    requires log <= log' && Delivered(log, f, key, v)
    ensures Delivered(log', f, key, v)
  {
    hide Reported, WroteFresh, WroteStale;
    LaterReported(log, log', f, key, true);
    LaterWroteFresh(log, log', f, key, v);
    LaterWroteStale(log, log', f, key, v);
  }

  lemma {:induction false} LaterGrounded(cfg: Settings, log: Log, log': Log, f: nat, key: string, v: Limits, how: How)
    requires log <= log' && Grounded(cfg, log, f, key, v, how)
    ensures Grounded(cfg, log', f, key, v, how)
  {
    hide WasFetched, FetchedBy, FailedIn, FreshAt, StaleAt, Reported, Delivered;
    LaterFetched(cfg, log, log', key, v);
    match how {
      case FreshHit(at) => LaterFresh(log, log', key, v, at);
      case StaleHit(_, at) =>
        LaterStale(log, log', key, v, at);
        LaterFailed(log, log', f);
        LaterReported(log, log', f, key, false);
      case FetchedNow =>
        LaterFetchedBy(cfg, log, log', key, v, f);
        LaterDelivered(log, log', f, key, v);
      case NoLimits =>
    }
  }

  lemma {:induction false} LaterEnds(cfg: Settings, log: Log, log': Log, f: nat, key: string, result: Option<Limits>, how: How)
    requires log <= log' && Ends(cfg, log, f, key, result, how)
    ensures Ends(cfg, log', f, key, result, how)
  {
    hide Grounded, Unanswered, Reported;
    if result.Some? {
      LaterGrounded(cfg, log, log', f, key, result.value, how);
    } else {
      LaterUnanswered(cfg, log, log', ByFlight(f), key);
      LaterReported(log, log', f, key, false);
    }
  }

  lemma {:induction false} FlightStays(cfg: Settings, log: Log, log': Log, f: nat, fl: Flight)
    requires log <= log' && FlightOk(cfg, log, f, fl)
    ensures FlightOk(cfg, log', f, fl)
  {
    hide Key, FetchedBy, FailedIn, Ends, Answered, Reported, WroteFresh;
    var key := KeyIn(cfg, fl.q);
    match fl.phase {
      case Succeeding(v, ttl) =>
        LaterFetchedBy(cfg, log, log', key, v, f);
        LaterAnswered(log, log', f, v, ttl);
      case StoringFresh(v, ttl) =>
        LaterFetchedBy(cfg, log, log', key, v, f);
        LaterAnswered(log, log', f, v, ttl);
        LaterReported(log, log', f, key, true);
      case StoringStale(v) =>
        LaterFetchedBy(cfg, log, log', key, v, f);
        LaterReported(log, log', f, key, true);
        LaterWroteFresh(log, log', f, key, v);
      case Failing => LaterFailed(log, log', f);
      case FallingBack =>
        LaterFailed(log, log', f);
        LaterReported(log, log', f, key, false);
      case Ended(result, how) => LaterEnds(cfg, log, log', f, key, result, how);
      case _ =>
    }
  }

  lemma {:induction false} RedisNote(log: Log, redis: map<string, Cell>, e: Event)
    requires RedisOk(log, redis) && !Writes(e)
    ensures RedisOk(log + [e], redis)
  {
    hide Stored;
    forall rk ensures Stored(log + [e], rk) == if rk in redis then Some(redis[rk]) else None {
      StoredNext(log, e, rk);
    }
  }

  /** All calls but one, and all flights but one, are left alone; those two are as they should be. */
  lemma {:induction false} FactsStay(s: State, s': State, ids: set<nat>, fs: set<nat>)
    requires Facts(s) && Later(s, s') && LogOk(s'.cfg, s'.now, s'.log) && RedisOk(s'.log, s'.redis)
    requires forall id :: id in s'.calls ==>
               if id in ids then CallOk(s', id, s'.calls[id]) else id in s.calls && s'.calls[id] == s.calls[id]
    requires forall f :: f in s'.flights ==>
               if f in fs then FlightOk(s'.cfg, s'.log, f, s'.flights[f]) else f in s.flights && s'.flights[f] == s.flights[f]
    ensures Facts(s')
  {
    hide CallOk, FlightOk, LogOk, RedisOk;
    forall id | id in s'.calls ensures CallOk(s', id, s'.calls[id]) {
      if id !in ids {
        CallStays(s, s', id, s.calls[id]);
      }
    }
    forall f | f in s'.flights ensures FlightOk(s'.cfg, s'.log, f, s'.flights[f]) {
      if f !in fs {
        FlightStays(s.cfg, s.log, s'.log, f, s.flights[f]);
      }
    }
  }

  // ---------------------------------------------------------------- the invariant: breakers

  /** Every breaker is its history, and every key's own breaker has seen only that key. */
  ghost predicate GuardOk(cfg: Settings, log: Log, g: Guard) {
    && g.next >= 1 && 0 in g.slots
    && (forall b :: b in g.slots ==> b < g.next && g.slots[b].core == CB.After(Outcomes(log, b), BreakerConfig(cfg, b)))
    && (forall k :: k in g.breakers ==> g.breakers[k] in g.slots && g.breakers[k] != 0 && OnlyFor(log, g.breakers[k], k))
    && (forall k, k' :: k in g.breakers && k' in g.breakers && g.breakers[k] == g.breakers[k'] ==> k == k')
    && (forall i :: 0 <= i < |log| && log[i].Recorded? ==> log[i].slot < g.next)
  }

  /** The log knows which breakers keys have of their own, and the counter counts them. */
  ghost predicate OwnersOk(log: Log, g: Guard) {
    g.breakers == Owners(log) && g.count == |g.breakers|
  }

  lemma {:induction false} OwnersNote(log: Log, g: Guard, e: Event)
    requires OwnersOk(log, g) && !Binds(e) && !e.Dropped?
    ensures OwnersOk(log + [e], g)
  {
    hide Owners;
    OwnersNext(log, e);
  }

  /** The slot asked for is the right one, and is the key's own from then on. */
  lemma {:induction false} OwnersBound(cfg: Settings, log: Log, g: Guard, g': Guard, e: Event, now: int)
    requires OwnersOk(log, g) && g.next >= 1 && Binds(e) && e.slot == SlotFor(cfg, g, e.key)
    requires forall k :: k in g.breakers ==> 0 != g.breakers[k] < g.next
    requires var c := Created(cfg, g, e.key, now); g'.breakers == c.breakers && g'.count == c.count
    ensures RightSlot(cfg, log, e.key, e.slot) && OwnersOk(log + [e], g')
  {
    hide Owners;
    OwnersNext(log, e);
    if e.key in g.breakers {
      assert g.breakers[e.key := e.slot] == g.breakers;
    }
  }

  lemma {:induction false} OwnersDropped(log: Log, g: Guard, g': Guard, key: string)
    requires OwnersOk(log, g) && key in g.breakers
    requires g'.breakers == g.breakers - {key} && g'.count == if g.count > 0 then g.count - 1 else 0
    ensures OwnersOk(log + [Dropped(key)], g')
  {
    hide Owners;
    OwnersNext(log, Dropped(key));
    assert g.breakers == g'.breakers[key := g.breakers[key]];
  }

  lemma {:induction false} GuardNote(cfg: Settings, log: Log, g: Guard, e: Event)
    requires GuardOk(cfg, log, g) && !e.Recorded?
    ensures GuardOk(cfg, log + [e], g)
  {
    hide Outcomes, OnlyFor;
    AfterEvent(log, e);
    forall k | k in g.breakers ensures OnlyFor(log + [e], g.breakers[k], k) {
      OnlyForNext(log, g.breakers[k], k, e);
    }
  }

  lemma {:induction false} NoOutcomes(log: Log, slot: nat)
    requires forall i :: 0 <= i < |log| && log[i].Recorded? ==> log[i].slot != slot
    ensures Outcomes(log, slot) == []
  {
    if log == [] {
    } else {
      NoOutcomes(log[..|log| - 1], slot);
    }
  }

  lemma {:induction false} CreatedOk(cfg: Settings, log: Log, g: Guard, key: string, now: int)
    requires GuardOk(cfg, log, g)
    ensures var g', slot := Created(cfg, g, key, now), SlotFor(cfg, g, key);
            GuardOk(cfg, log, g') && slot in g'.slots && (slot != 0 ==> key in g'.breakers && g'.breakers[key] == slot)
  {
    hide Outcomes;
    if key !in g.breakers && g.count < cfg.maxBreakers {
      NoOutcomes(log, g.next);
    }
  }

  lemma {:induction false} TouchedOk(cfg: Settings, log: Log, g: Guard, slot: nat, now: int)
    requires GuardOk(cfg, log, g) && slot in g.slots
    ensures GuardOk(cfg, log, WithCore(g, slot, CoreOf(g, slot), now))
  {
    hide Outcomes, OnlyFor;
  }

  lemma {:induction false} AfterNext(h: seq<CB.Outcome>, o: CB.Outcome, c: CB.Config)
    ensures CB.After(h + [o], c)
            == match o { case Failure(at) => CB.Failed(CB.After(h, c), c, at) case Success => CB.Succeeded(CB.After(h, c)) }
  {
    assert (h + [o])[..|h|] == h;
  }

  lemma {:induction false} ToldOk(cfg: Settings, log: Log, g: Guard, slot: nat, key: string, o: CB.Outcome, f: nat, now: int)
    requires GuardOk(cfg, log, g) && slot in g.slots && (slot != 0 ==> key in g.breakers && g.breakers[key] == slot)
    ensures GuardOk(cfg, log + [Recorded(slot, key, o, f)], Told(cfg, g, slot, o, now))
  {
    hide Outcomes, OnlyFor, CB.After, CB.Failed, CB.Succeeded;
    var e := Recorded(slot, key, o, f);
    AfterEvent(log, e);
    AfterNext(Outcomes(log, slot), o, BreakerConfig(cfg, slot));
    forall k | k in g.breakers ensures OnlyFor(log + [e], g.breakers[k], k) {
      OnlyForNext(log, g.breakers[k], k, e);
    }
  }

  /** A circuit found open has tripped, and one found closed has not had enough failures in time. */
  lemma {:induction false} OpenIsTripped(cfg: Settings, log: Log, g: Guard, slot: nat, key: string, now: int)
    requires GuardOk(cfg, log, g) && slot in g.slots && (slot != 0 ==> key in g.breakers && g.breakers[key] == slot)
    requires cfg.breaker.threshold >= 1 && LogOk(cfg, now, log)
    ensures if CB.IsOpen(CoreOf(g, slot), now) then Tripped(cfg, log, key, slot, now) else !Streaky(cfg, log, slot, now)
  {
    hide Outcomes, CB.After, LogOk, FailuresAreReal;
    RealFailures(cfg, now, log, slot);
    CB.StateIsHistory(Outcomes(log, slot), BreakerConfig(cfg, slot), now);
  }

  // ---------------------------------------------------------------- the invariant: books

  predicate Inside(p: Phase) {
    p.Admitted? || p.Waiting?
  }

  /** The semaphore is held by the calls between acquiring and collecting, and by no more than it allows. */
  ghost predicate HoldersOk(s: State) {
    && s.holders == Holding(s.log) && |s.holders| <= s.cfg.maxFetches
    && forall id :: id in s.holders <==> id in s.calls && Inside(s.calls[id].phase)
  }

  /** The log knows the flights under way, and each has its leader waiting for it. */
  ghost predicate FlightsTracked(s: State) {
    && (forall f :: f in Under(s.log) <==> InFlight(s, f))
    && (forall f :: InFlight(s, f) ==> InPhase(s, s.flights[f].leader, Waiting(f)))
  }

  /** The group names exactly the flights under way. */
  ghost predicate GroupOk(s: State) {
    && (forall k :: k in s.group ==> InFlight(s, s.group[k]) && FlightKey(s, s.group[k]) == k)
    && (forall f :: InFlight(s, f) ==> FlightKey(s, f) in s.group && s.group[FlightKey(s, f)] == f)
  }

  ghost predicate Books(s: State) {
    HoldersOk(s) && FlightsTracked(s) && GroupOk(s)
  }

  ghost predicate Inv(s: State) {
    Facts(s) && GuardOk(s.cfg, s.log, s.guard) && OwnersOk(s.log, s.guard) && Books(s)
  }

  /** A call moves between phases outside the semaphore. */
  lemma {:induction false} BooksOutside(s: State, s': State, id: nat)
    requires Books(s) && s'.cfg == s.cfg && s'.holders == s.holders && s'.flights == s.flights && s'.group == s.group
    requires Holding(s'.log) == Holding(s.log) && Under(s'.log) == Under(s.log)
    requires id in s'.calls && s'.calls == s.calls[id := s'.calls[id]] && !Inside(s'.calls[id].phase)
    requires id in s.calls ==> !Inside(s.calls[id].phase)
    ensures Books(s')
  {
    hide Holding, Under, Key;
    forall f | InFlight(s', f) ensures InPhase(s', s'.flights[f].leader, Waiting(f)) {
      assert InFlight(s, f) && InPhase(s, s.flights[f].leader, Waiting(f));
    }
    forall f ensures f in Under(s'.log) <==> InFlight(s', f) {
      assert InFlight(s, f) <==> InFlight(s', f);
    }
    GroupStays(s, s');
  }

  lemma {:induction false} GroupStays(s: State, s': State)
    requires GroupOk(s) && s'.cfg == s.cfg && s'.flights == s.flights && s'.group == s.group
    ensures GroupOk(s')
  {
    hide Key;
    forall k | k in s'.group ensures InFlight(s', s'.group[k]) && FlightKey(s', s'.group[k]) == k {
      assert InFlight(s, s.group[k]) && FlightKey(s, s.group[k]) == k;
    }
    forall f | InFlight(s', f) ensures FlightKey(s', f) in s'.group && s'.group[FlightKey(s', f)] == f {
      assert InFlight(s, f);
    }
  }

  /** An event that concerns neither Redis nor the breakers. */
  predicate Silent(e: Event) {
    !Binds(e) && !e.Dropped? && !Writes(e)
  }

  lemma {:induction false} Noted(s: State, e: Event)
    requires LogOk(s.cfg, s.now, s.log) && RedisOk(s.log, s.redis) && GuardOk(s.cfg, s.log, s.guard) && OwnersOk(s.log, s.guard)
    requires Silent(e) && Sound(s.cfg, s.now, s.log, e)
    ensures LogOk(s.cfg, s.now, s.log + [e]) && RedisOk(s.log + [e], s.redis)
    ensures GuardOk(s.cfg, s.log + [e], s.guard) && OwnersOk(s.log + [e], s.guard)
  {
    hide LogOk, RedisOk, GuardOk, OwnersOk, Sound;
    LogNote(s.cfg, s.now, s.log, e);
    RedisNote(s.log, s.redis, e);
    GuardNote(s.cfg, s.log, s.guard, e);
    OwnersNote(s.log, s.guard, e);
  }

  // ---------------------------------------------------------------- calls

  lemma {:induction false} StartStep(s: State, a: Action)
    requires Inv(s) && a.Start? && Enabled(s, a)
    ensures Inv(Apply(s, a))
  {
    hide Facts, GuardOk, OwnersOk, Books, Key, Holding, Under;
    var s' := Apply(s, a);
    AfterEvent(s.log, Started(a.id));
    StartFacts(s, s', a.id, a.q);
    BooksOutside(s, s', a.id);
  }

  lemma {:induction false} StartFacts(s: State, s': State, id: nat, q: Query)
    requires Inv(s) && id !in s.calls && ':' !in q.verb
    requires s' == Note(s.(calls := s.calls[id := Call(q, Looking)]), Started(id))
    ensures Facts(s') && GuardOk(s'.cfg, s'.log, s'.guard) && OwnersOk(s'.log, s'.guard)
  {
    hide LogOk, RedisOk, FlightOk, GuardOk, OwnersOk, Books, RefusedBy, Met, Explained, Key, Unanswered, HasPassed;
    assert s'.log[|s.log|] == Started(id);
    Noted(s, Started(id));
    FactsStay(s, s', {id}, {});
  }

  lemma {:induction false} LookStep(s: State, a: Action)
    requires Inv(s) && (a.Look? || a.LookStale?) && Enabled(s, a)
    ensures Inv(Apply(s, a))
  {
    hide Facts, GuardOk, OwnersOk, Books, Key, Holding, Under, Get, FreshKey, StaleKey;
    var s', key := Apply(s, a), CallKey(s, a.id);
    var e := if a.Look? then ReadFresh(ByCall(a.id), key, a.works, s.now) else ReadStale(ByCall(a.id), key, a.works, s.now);
    AfterEvent(s.log, e);
    assert s'.log == s.log + [e];
    LookFacts(s, a, s', e);
    BooksOutside(s, s', a.id);
  }

  lemma {:induction false} LookFacts(s: State, a: Action, s': State, e: Event)
    requires Inv(s) && (a.Look? || a.LookStale?) && Enabled(s, a) && s' == Apply(s, a)
    requires var key := CallKey(s, a.id);
             e == if a.Look? then ReadFresh(ByCall(a.id), key, a.works, s.now) else ReadStale(ByCall(a.id), key, a.works, s.now)
    ensures Facts(s') && GuardOk(s'.cfg, s'.log, s'.guard) && OwnersOk(s'.log, s'.guard)
  {
    hide LogOk, RedisOk, FlightOk, GuardOk, OwnersOk, Books, RefusedBy, Met, Key, HasStarted, Explained, Unanswered;
    hide FreshKey, StaleKey, Get;
    var c := s.calls[a.id];
    assert CallOk(s, a.id, c);
    Noted(s, e);
    LaterStarted(s.log, s'.log, a.id);
    if a.Look? {
      LookedFresh(s, a.id, a.works, e);
    } else {
      LookedStale(s, a.id, a.works, e);
    }
    FactsStay(s, s', {a.id}, {});
  }

  lemma {:induction false} LookedFresh(s: State, id: nat, works: bool, e: Event)
    requires LogOk(s.cfg, s.now, s.log) && RedisOk(s.log, s.redis) && id in s.calls && CallOk(s, id, s.calls[id])
    ensures var key := CallKey(s, id);
            var hit := Get(s, FreshKey(key), works);
            hit.Some? ==> Explained(s.cfg, s.log + [e], id, key, hit.value, FreshHit(s.now), None)
  {
    hide LogOk, RedisOk, Key, FreshKey, Get, WasFetched, FreshAt, Met, HasStarted, RefusedBy, Unanswered;
    FreshRead(s, s.calls[id].q, works);
    var hit := Get(s, FreshKey(CallKey(s, id)), works);
    if hit.Some? {
      LaterExplained(s.cfg, s.log, s.log + [e], id, CallKey(s, id), hit.value, FreshHit(s.now), None);
    }
  }

  lemma {:induction false} LookedStale(s: State, id: nat, works: bool, e: Event)
    requires LogOk(s.cfg, s.now, s.log) && RedisOk(s.log, s.redis) && id in s.calls && CallOk(s, id, s.calls[id])
    requires s.calls[id].phase.Denied? && e == ReadStale(ByCall(id), CallKey(s, id), works, s.now)
    ensures var key := CallKey(s, id);
            var hit := Get(s, StaleKey(key), works);
            if hit.Some? then Explained(s.cfg, s.log + [e], id, key, hit.value, StaleHit(s.calls[id].phase.reason, s.now), None)
            else Unanswered(s.cfg, s.log + [e], ByCall(id), key)
  {
    hide LogOk, RedisOk, Key, StaleKey, Get, WasFetched, StaleAt, Met, HasStarted, RefusedBy, Found;
    var key := CallKey(s, id);
    StaleRead(s, s.calls[id].q, works);
    GetIsFound(s, StaleKey(key), works);
    var hit := Get(s, StaleKey(key), works);
    if hit.Some? {
      LaterExplained(s.cfg, s.log, s.log + [e], id, key, hit.value, StaleHit(s.calls[id].phase.reason, s.now), None);
    } else {
      var log', i := s.log + [e], |s.log|;
      assert log'[i] == e && log'[..i] == s.log;
      assert FoundNothing(s.cfg, log', i, ByCall(id), key);
    }
  }

  lemma {:induction false} AskStep(s: State, a: Action)
    requires Inv(s) && a.AskBreaker? && Enabled(s, a) && s.cfg.breaker.threshold >= 1
    ensures Inv(Apply(s, a))
  {
    hide LogOk, RedisOk, FlightOk, GuardOk, OwnersOk, Books, Met, Key, Holding, Under, HasStarted, Explained, Tripped, RefusedBy;
    hide Created, SlotFor, CB.IsOpen, CoreOf, Unanswered, RightSlot, Streaky, CallKey;
    var s', key := Apply(s, a), CallKey(s, a.id);
    var slot, g := SlotFor(s.cfg, s.guard, key), Created(s.cfg, s.guard, key, s.now);
    assert CallOk(s, a.id, s.calls[a.id]);
    CreatedOk(s.cfg, s.log, s.guard, key, s.now);
    TouchedOk(s.cfg, s.log, g, slot, s.now);
    OpenIsTripped(s.cfg, s.log, g, slot, key, s.now);
    var open := CB.IsOpen(CoreOf(g, slot), s.now);
    var e := if open then Refused(a.id, key, CircuitOpen, slot, s.now) else Passed(a.id, key, slot, s.now);
    AskedBound(s, s', key, e);
    GuardNote(s.cfg, s.log, s'.guard, e);
    if open {
      RefusedStep(s, s', a.id, e);
    } else {
      PassedStep(s, s', a.id, e);
    }
    AskKeepsBooks(s, s', a.id);
  }

  lemma {:induction false} AskedBound(s: State, s': State, key: string, e: Event)
    requires GuardOk(s.cfg, s.log, s.guard) && OwnersOk(s.log, s.guard) && Binds(e) && e.key == key
    requires e.slot == SlotFor(s.cfg, s.guard, key) && s'.log == s.log + [e]
    requires var c := Created(s.cfg, s.guard, key, s.now); s'.guard.breakers == c.breakers && s'.guard.count == c.count
    ensures RightSlot(s.cfg, s.log, key, e.slot) && OwnersOk(s'.log, s'.guard)
  {
    hide OwnersOk, RightSlot, Outcomes, OnlyFor;
    OwnersBound(s.cfg, s.log, s.guard, s'.guard, e, s.now);
  }

  lemma {:induction false} PassedStep(s: State, s': State, id: nat, e: Event)
    requires Facts(s) && id in s.calls && e.Passed? && e.id == id && e.key == CallKey(s, id) && Sound(s.cfg, s.now, s.log, e)
    requires s'.cfg == s.cfg && s'.now == s.now && s'.log == s.log + [e] && s'.redis == s.redis && s'.flights == s.flights
    requires s'.calls == s.calls[id := s.calls[id].(phase := Cleared)]
    ensures Facts(s')
  {
    hide LogOk, RedisOk, FlightOk, Key, Met, Explained, HasStarted, RefusedBy, Unanswered, Sound;
    assert CallOk(s, id, s.calls[id]);
    LogNote(s.cfg, s.now, s.log, e);
    RedisNote(s.log, s.redis, e);
    LaterStarted(s.log, s'.log, id);
    assert s'.log[|s.log|] == e;
    FactsStay(s, s', {id}, {});
  }

  /** A call is refused for a reason that holds. */
  lemma {:induction false} RefusedStep(s: State, s': State, id: nat, e: Event)
    requires Facts(s) && id in s.calls && e.Refused? && e.id == id && e.key == CallKey(s, id) && e.at == s.now
    requires Sound(s.cfg, s.now, s.log, e)
    requires s'.cfg == s.cfg && s'.now == s.now && s'.log == s.log + [e] && s'.redis == s.redis && s'.flights == s.flights
    requires s'.calls == s.calls[id := s.calls[id].(phase := Denied(e.reason))]
    ensures Facts(s')
  {
    hide LogOk, RedisOk, FlightOk, Justified, Key, Met, Explained, HasStarted, Unanswered, RightSlot;
    assert CallOk(s, id, s.calls[id]);
    assert e.reason != FetchError by { NotForFetch(s.cfg, s.log, e); }
    LogNote(s.cfg, s.now, s.log, e);
    RedisNote(s.log, s.redis, e);
    LaterStarted(s.log, s'.log, id);
    var i := |s.log|;
    assert s'.log[..i] == s.log && s'.log[i] == e;
    assert RefusedBy(s'.cfg, s'.log, id, e.key, e.reason, s'.now);
    FactsStay(s, s', {id}, {});
  }

  lemma {:induction false} NotForFetch(cfg: Settings, log: Log, e: Event)
    requires e.Refused? && Justified(cfg, log, e)
    ensures e.reason != FetchError
  {
  }

  lemma {:induction false} AskKeepsBooks(s: State, s': State, id: nat)
    requires Books(s) && s'.cfg == s.cfg && s'.holders == s.holders && s'.flights == s.flights && s'.group == s.group
    requires |s'.log| == |s.log| + 1 && s.log <= s'.log && (var e := s'.log[|s.log|]; e.Refused? || e.Passed?)
    requires id in s.calls && id in s'.calls && s'.calls == s.calls[id := s'.calls[id]]
    requires !Inside(s'.calls[id].phase) && !Inside(s.calls[id].phase)
    ensures Books(s')
  {
    hide Books, Holding, Under;
    AfterEvent(s.log, s'.log[|s.log|]);
    assert s'.log == s.log + [s'.log[|s.log|]];
    BooksOutside(s, s', id);
  }

  lemma {:induction false} AcquireStep(s: State, a: Action)
    requires Inv(s) && a.Acquire? && Enabled(s, a)
    ensures Inv(Apply(s, a))
  {
    hide Facts, GuardOk, OwnersOk, Books, Key, Holding, CallKey;
    var s' := Apply(s, a);
    if |s.holders| < s.cfg.maxFetches {
      GuardNote(s.cfg, s.log, s.guard, Acquired(a.id));
      OwnersNote(s.log, s.guard, Acquired(a.id));
      AcquireFacts(s, s', a.id);
      AcquireKeepsBooks(s, s', a.id);
    } else {
      var e := Refused(a.id, CallKey(s, a.id), SemaphoreFull, 0, s.now);
      HoldersAre(s);
      RefusedStep(s, s', a.id, e);
      GuardNote(s.cfg, s.log, s.guard, e);
      OwnersNote(s.log, s.guard, e);
      AskKeepsBooks(s, s', a.id);
    }
  }

  lemma {:induction false} AcquireFacts(s: State, s': State, id: nat)
    requires Facts(s) && id in s.calls && s.calls[id].phase == Cleared
    requires s'.cfg == s.cfg && s'.now == s.now && s'.redis == s.redis && s'.flights == s.flights
    requires s'.log == s.log + [Acquired(id)] && s'.calls == s.calls[id := s.calls[id].(phase := Admitted)]
    ensures Facts(s')
  {
    hide LogOk, RedisOk, FlightOk, Met, Key, HasStarted, Explained, RefusedBy, Unanswered, HasPassed;
    assert CallOk(s, id, s.calls[id]);
    assert HasPassed(s.log, id, CallKey(s, id));
    LogNote(s.cfg, s.now, s.log, Acquired(id));
    RedisNote(s.log, s.redis, Acquired(id));
    LaterStarted(s.log, s'.log, id);
    FactsStay(s, s', {id}, {});
  }

  lemma {:induction false} HoldersAre(s: State)
    requires Books(s)
    ensures s.holders == Holding(s.log)
  {
  }

  lemma {:induction false} AcquireKeepsBooks(s: State, s': State, id: nat)
    requires Books(s) && id in s.calls && s.calls[id].phase == Cleared && |s.holders| < s.cfg.maxFetches
    requires s'.cfg == s.cfg && s'.flights == s.flights && s'.group == s.group
    requires s'.log == s.log + [Acquired(id)] && s'.holders == s.holders + {id}
    requires s'.calls == s.calls[id := s.calls[id].(phase := Admitted)]
    ensures Books(s')
  {
    hide Holding, Under, FlightsTracked, GroupOk;
    AfterEvent(s.log, Acquired(id));
    assert id !in s.holders && |s'.holders| == |s.holders| + 1;
    PhaseKeepsFlights(s, s', id);
  }

  /** The phase of a call that waits for nothing changes. */
  lemma {:induction false} PhaseKeepsFlights(s: State, s': State, id: nat)
    requires FlightsTracked(s) && GroupOk(s) && s'.cfg == s.cfg && s'.flights == s.flights && s'.group == s.group
    requires Under(s'.log) == Under(s.log) && id in s.calls && id in s'.calls && s'.calls == s.calls[id := s'.calls[id]]
    requires s.calls[id].phase.Waiting? ==> !InFlight(s, s.calls[id].phase.flight)
    ensures FlightsTracked(s') && GroupOk(s')
  {
    hide Under, Key;
    forall f | InFlight(s', f) ensures InPhase(s', s'.flights[f].leader, Waiting(f)) {
      assert InFlight(s, f) && InPhase(s, s.flights[f].leader, Waiting(f));
    }
    forall f ensures f in Under(s'.log) <==> InFlight(s', f) {
      assert InFlight(s, f) <==> InFlight(s', f);
    }
    GroupStays(s, s');
  }

  lemma {:induction false} CollectStep(s: State, a: Action)
    requires Inv(s) && a.Collect? && Enabled(s, a)
    ensures Inv(Apply(s, a))
  {
    hide LogOk, RedisOk, GuardOk, OwnersOk, Key, HasStarted, Met, RefusedBy, Books, Explained, Ends, Unanswered;
    var s', e := Apply(s, a), Released(a.id);
    var f := s.calls[a.id].phase.flight;
    assert CallOk(s, a.id, s.calls[a.id]) && FlightOk(s.cfg, s.log, f, s.flights[f]);
    Noted(s, e);
    CollectedOk(s, a.id, f);
    CallStays(s, s', a.id, s'.calls[a.id]);
    FactsStay(s, s', {a.id}, {});
    CollectKeepsBooks(s, s', a.id);
  }

  lemma {:induction false} CollectKeepsBooks(s: State, s': State, id: nat)
    requires Books(s) && id in s.calls && s.calls[id].phase.Waiting? && !InFlight(s, s.calls[id].phase.flight)
    requires s'.cfg == s.cfg && s'.flights == s.flights && s'.group == s.group
    requires s'.log == s.log + [Released(id)] && s'.holders == s.holders - {id}
    requires id in s'.calls && s'.calls == s.calls[id := s'.calls[id]] && s'.calls[id].phase.Done?
    ensures Books(s')
  {
    hide Holding, Under, FlightsTracked, GroupOk;
    AfterEvent(s.log, Released(id));
    assert s'.holders <= s.holders;
    CardinalLe(s'.holders, s.holders);
    PhaseKeepsFlights(s, s', id);
  }

  lemma {:induction false} CardinalLe(a: set<nat>, b: set<nat>)
    requires a <= b
    ensures |a| <= |b|
  {
    assert b == a + (b - a);
  }

  lemma {:induction false} CollectedOk(s: State, id: nat, f: nat)
    requires id in s.calls && s.calls[id].phase == Waiting(f) && CallOk(s, id, s.calls[id])
    requires f in s.flights && FlightOk(s.cfg, s.log, f, s.flights[f]) && s.flights[f].phase.Ended?
    ensures var p := s.flights[f].phase; CallOk(s, id, s.calls[id].(phase := Done(p.result, p.how, Some(f))))
  {
    hide Key, HasStarted, Met, RefusedBy, WasFetched, FetchedBy, FreshAt, StaleAt, FailedIn, Delivered, Reported, Unanswered;
  }

  // ---------------------------------------------------------------- flights

  lemma {:induction false} JoinStep(s: State, a: Action)
    requires Inv(s) && a.Join? && Enabled(s, a)
    ensures Inv(Apply(s, a))
  {
    hide LogOk, RedisOk, GuardOk, OwnersOk, FlightOk, Key, HasStarted, RefusedBy, Books, Explained, Met, CallKey, Unanswered;
    var s', c := Apply(s, a), s.calls[a.id];
    assert CallOk(s, a.id, c);
    if CallKey(s, a.id) in s.group {
      JoinFacts(s, s', a.id, a.flight);
      Noted(s, LimitsLog.Joined(a.id, a.flight));
      JoinKeepsBooks(s, a.id, a.flight);
    } else {
      Noted(s, Launched(a.flight));
      Noted(Note(s, Launched(a.flight)), LimitsLog.Joined(a.id, a.flight));
      LaunchFacts(s, a.id, a.flight);
      LaunchKeepsBooks(s, a.id, a.flight);
    }
  }

  lemma {:induction false} MetNow(log: Log, id: nat, f: nat)
    requires f in Under(log) && HasStarted(log, id)
    ensures Met(log + [LimitsLog.Joined(id, f)], id, f)
  {
    hide Under, HasStarted;
    var log' := log + [LimitsLog.Joined(id, f)];
    var i := |log|;
    assert log'[..i] == log && log'[i] == LimitsLog.Joined(id, f);
  }

  lemma {:induction false} JoinFacts(s: State, s': State, id: nat, f: nat)
    requires Inv(s) && id in s.calls && s.calls[id].phase == Admitted && CallKey(s, id) in s.group && f == s.group[CallKey(s, id)]
    requires s' == Joining(s, id, f)
    ensures Facts(s')
  {
    hide LogOk, RedisOk, GuardOk, OwnersOk, FlightOk, Key, HasStarted, RefusedBy, Explained, Met, Holding, Under, Unanswered;
    var e := LimitsLog.Joined(id, f);
    assert CallOk(s, id, s.calls[id]);
    assert InFlight(s, f) && FlightKey(s, f) == CallKey(s, id);
    Noted(s, e);
    LaterStarted(s.log, s'.log, id);
    MetNow(s.log, id, f);
    FactsStay(s, s', {id}, {});
  }

  lemma {:induction false} JoinKeepsBooks(s: State, id: nat, f: nat)
    requires Books(s) && id in s.calls && s.calls[id].phase == Admitted && CallKey(s, id) in s.group
    ensures Books(Joining(s, id, f))
  {
    hide Holding, Under, FlightsTracked, GroupOk;
    AfterEvent(s.log, LimitsLog.Joined(id, f));
    PhaseKeepsFlights(s, Joining(s, id, f), id);
  }

  lemma {:induction false} LaunchFacts(s: State, id: nat, f: nat)
    requires Facts(s) && id in s.calls && CallKey(s, id) !in s.group && f !in s.flights
    ensures Facts(Joining(s, id, f))
  {
    hide LogOk, RedisOk, Key, HasStarted, RefusedBy, Explained, Met, Under, Unanswered;
    var s', log := Joining(s, id, f), s.log + [Launched(f)];
    assert CallOk(s, id, s.calls[id]);
    LogNote(s.cfg, s.now, s.log, Launched(f));
    LogNote(s.cfg, s.now, log, LimitsLog.Joined(id, f));
    RedisNote(s.log, s.redis, Launched(f));
    RedisNote(log, s.redis, LimitsLog.Joined(id, f));
    LaterStarted(s.log, log, id);
    LaterStarted(log, s'.log, id);
    AfterEvent(s.log, Launched(f));
    MetNow(log, id, f);
    FactsStay(s, s', {id}, {f});
  }

  lemma {:induction false} LaunchKeepsBooks(s: State, id: nat, f: nat)
    requires Books(s) && id in s.calls && s.calls[id].phase == Admitted && CallKey(s, id) !in s.group && f !in s.flights
    ensures Books(Joining(s, id, f))
  {
    hide Holding, Under, Key;
    var s', log := Joining(s, id, f), s.log + [Launched(f)];
    AfterEvent(s.log, Launched(f));
    AfterEvent(log, LimitsLog.Joined(id, f));
    forall g ensures g in Under(s'.log) <==> InFlight(s', g) {
      assert g != f ==> (InFlight(s', g) <==> InFlight(s, g));
    }
    forall g | InFlight(s', g) ensures InPhase(s', s'.flights[g].leader, Waiting(g)) {
      if g != f {
        assert InFlight(s, g) && InPhase(s, s.flights[g].leader, Waiting(g));
      }
    }
    LaunchGroup(s, s', f, CallKey(s, id));
  }

  lemma {:induction false} LaunchGroup(s: State, s': State, f: nat, key: string)
    requires GroupOk(s) && f !in s.flights && key !in s.group && s'.cfg == s.cfg && InFlight(s', f) && FlightKey(s', f) == key
    requires s'.flights == s.flights[f := s'.flights[f]] && s'.group == s.group[key := f]
    ensures GroupOk(s')
  {
    hide Key;
    forall k | k in s'.group ensures InFlight(s', s'.group[k]) && FlightKey(s', s'.group[k]) == k {
      if k in s.group {
        assert InFlight(s, s.group[k]) && FlightKey(s, s.group[k]) == k;
      }
    }
    forall g | InFlight(s', g) ensures FlightKey(s', g) in s'.group && s'.group[FlightKey(s', g)] == g {
      if g != f {
        assert InFlight(s, g);
      }
    }
  }

  /** A flight goes from one phase under way to another, or ends. */
  lemma {:induction false} FlightKeepsBooks(s: State, s': State, f: nat)
    requires Books(s) && InFlight(s, f) && f in s'.flights && s'.cfg == s.cfg && s'.calls == s.calls && s'.holders == s.holders
    requires s'.flights == s.flights[f := s.flights[f].(phase := s'.flights[f].phase)]
    requires Holding(s'.log) == Holding(s.log)
    requires var ends := s'.flights[f].phase.Ended?;
             && s'.group == (if ends then s.group - {FlightKey(s, f)} else s.group)
             && Under(s'.log) == if ends then Under(s.log) - {f} else Under(s.log)
    ensures Books(s')
  {
    hide Holding, Under, Key;
    forall g ensures g in Under(s'.log) <==> InFlight(s', g) {
      assert g != f ==> (InFlight(s', g) <==> InFlight(s, g));
    }
    forall g | InFlight(s', g) ensures InPhase(s', s'.flights[g].leader, Waiting(g)) {
      assert InFlight(s, g) && InPhase(s, s.flights[g].leader, Waiting(g));
    }
    forall k | k in s'.group ensures InFlight(s', s'.group[k]) && FlightKey(s', s'.group[k]) == k {
      assert InFlight(s, s.group[k]) && FlightKey(s, s.group[k]) == k;
    }
    forall g | InFlight(s', g) ensures FlightKey(s', g) in s'.group && s'.group[FlightKey(s', g)] == g {
      assert InFlight(s, g);
    }
  }

  /** A flight takes one step that logs one event at most, and does not end by it. */
  lemma {:induction false} FlightMoves(s: State, s': State, f: nat, evs: Log)
    requires Inv(s) && InFlight(s, f) && f in s'.flights && s'.cfg == s.cfg && s'.now == s.now && s'.calls == s.calls
    requires s'.holders == s.holders && s'.group == s.group && s'.log == s.log + evs && |evs| <= 1
    requires s'.flights == s.flights[f := s.flights[f].(phase := s'.flights[f].phase)] && !s'.flights[f].phase.Ended?
    requires |evs| == 1 ==>
               var e := evs[0];
               !e.Acquired? && !e.Released? && !e.Launched? && !e.Finished? && Sound(s.cfg, s.now, s.log, e)
    requires RedisOk(s'.log, s'.redis) && FlightOk(s'.cfg, s'.log, f, s'.flights[f])
    ensures Facts(s') && Books(s')
  {
    hide LogOk, RedisOk, GuardOk, FlightOk, Key, Books, CallOk, Holding, Under, Sound;
    if |evs| == 1 {
      assert s'.log == s.log + [evs[0]];
      LogNote(s.cfg, s.now, s.log, evs[0]);
      AfterEvent(s.log, evs[0]);
    } else {
      assert s'.log == s.log;
    }
    FactsStay(s, s', {}, {f});
    FlightKeepsBooks(s, s', f);
  }

  /** A flight ends with a result that it has grounds for. */
  lemma {:induction false} FlightEnds(s: State, f: nat, result: Option<Limits>, how: How)
    requires Inv(s) && InFlight(s, f) && Ends(s.cfg, s.log, f, FlightKey(s, f), result, how)
    ensures Inv(End(s, f, result, how))
  {
    hide LogOk, RedisOk, GuardOk, OwnersOk, Key, Books, CallOk, Holding, Under, Ends;
    var s', e := End(s, f, result, how), Finished(f);
    assert FlightOk(s.cfg, s.log, f, s.flights[f]);
    Noted(s, e);
    AfterEvent(s.log, e);
    LaterEnds(s.cfg, s.log, s'.log, f, FlightKey(s, f), result, how);
    FactsStay(s, s', {}, {f});
    FlightKeepsBooks(s, s', f);
  }

  /** A flight reads, and is where it was. */
  lemma {:induction false} FlightReads(s: State, f: nat, e: Event)
    requires Inv(s) && InFlight(s, f) && (e.ReadFresh? || e.ReadStale?)
    ensures Inv(Note(s, e))
  {
    hide LogOk, RedisOk, GuardOk, OwnersOk, Key, Books, CallsOk, FlightOk;
    var s1 := Note(s, e);
    assert FlightOk(s.cfg, s.log, f, s.flights[f]);
    Noted(s, e);
    FlightStays(s.cfg, s.log, s1.log, f, s.flights[f]);
    assert s1.flights == s.flights[f := s.flights[f].(phase := s1.flights[f].phase)];
    FlightMoves(s, s1, f, [e]);
  }

  lemma {:induction false} RecheckStep(s: State, a: Action)
    requires Inv(s) && a.Recheck? && Enabled(s, a)
    ensures Inv(Apply(s, a))
  {
    hide LogOk, RedisOk, GuardOk, OwnersOk, Key, Books, CallsOk, FreshKey, Get, End, WasFetched, FreshAt;
    var s', fl, key := Apply(s, a), s.flights[a.f], FlightKey(s, a.f);
    var e := ReadFresh(ByFlight(a.f), key, a.works, s.now);
    var s1 := Note(s, e);
    assert FlightOk(s.cfg, s.log, a.f, fl);
    FreshRead(s, fl.q, a.works);
    FlightReads(s, a.f, e);
    var hit := Get(s, FreshKey(key), a.works);
    if hit.Some? {
      LaterGrounded(s.cfg, s.log, s1.log, a.f, key, hit.value, FreshHit(s.now));
      FlightEnds(s1, a.f, hit, FreshHit(s.now));
    } else {
      assert s1.log + [] == s1.log;
      FlightMoves(s1, s', a.f, []);
    }
  }

  lemma {:induction false} FallBackStep(s: State, a: Action)
    requires Inv(s) && a.FallBack? && Enabled(s, a)
    ensures Inv(Apply(s, a))
  {
    hide LogOk, RedisOk, GuardOk, OwnersOk, Key, Books, CallsOk, StaleKey, Get, Found, End, WasFetched, StaleAt;
    hide FailedIn, Reported;
    var fl, key := s.flights[a.f], FlightKey(s, a.f);
    var e := ReadStale(ByFlight(a.f), key, a.works, s.now);
    var s1 := Note(s, e);
    assert FlightOk(s.cfg, s.log, a.f, fl);
    StaleRead(s, fl.q, a.works);
    GetIsFound(s, StaleKey(key), a.works);
    FlightReads(s, a.f, e);
    var hit := Get(s, StaleKey(key), a.works);
    var how := if hit.Some? then StaleHit(FetchError, s.now) else NoLimits;
    LaterReported(s.log, s1.log, a.f, key, false);
    if hit.Some? {
      LaterGrounded(s.cfg, s.log, s1.log, a.f, key, hit.value, how);
    } else {
      var i := |s.log|;
      assert s1.log[i] == e && s1.log[..i] == s.log;
      assert FoundNothing(s.cfg, s1.log, i, ByFlight(a.f), key);
    }
    FlightEnds(s1, a.f, hit, how);
  }

  lemma {:induction false} AnswerStep(s: State, a: Action)
    requires Inv(s) && (a.Answer? || a.Fail?) && Enabled(s, a)
    ensures Inv(Apply(s, a))
  {
    hide LogOk, RedisOk, GuardOk, OwnersOk, Key, Books, CallsOk;
    var s', fl := Apply(s, a), s.flights[a.f];
    var e := if a.Answer? then Fetched(fl.q, a.limits, a.ttl, a.f) else FetchFailed(a.f);
    assert FlightOk(s.cfg, s.log, a.f, fl);
    assert s'.log == s.log + [e] && s'.log[|s.log|] == e;
    Noted(s, e);
    FlightMoves(s, s', a.f, [e]);
  }

  lemma {:induction false} ReportStep(s: State, a: Action)
    requires Inv(s) && a.Report? && Enabled(s, a)
    ensures Inv(Apply(s, a))
  {
    hide LogOk, RedisOk, GuardOk, OwnersOk, Key, Books, CallsOk, Told, Created, SlotFor, FetchedBy, FailedIn, Answered, RightSlot;
    hide FlightKey;
    var s', fl, key := Apply(s, a), s.flights[a.f], FlightKey(s, a.f);
    var ok := fl.phase.Succeeding?;
    var o := if ok then CB.Success else CB.Failure(s.now);
    var slot, g := SlotFor(s.cfg, s.guard, key), Created(s.cfg, s.guard, key, s.now);
    var e := Recorded(slot, key, o, a.f);
    assert FlightOk(s.cfg, s.log, a.f, fl);
    CreatedOk(s.cfg, s.log, s.guard, key, s.now);
    ToldOk(s.cfg, s.log, g, slot, key, o, a.f, s.now);
    ToldKeeps(s.cfg, g, slot, o, s.now);
    AskedBound(s, s', key, e);
    RedisNote(s.log, s.redis, e);
    assert s'.log[|s.log|] == e;
    assert Reported(s'.log, a.f, key, ok);
    KeyOfFlight(s, a.f);
    if ok {
      LaterFetchedBy(s.cfg, s.log, s'.log, key, fl.phase.limits, a.f);
      LaterAnswered(s.log, s'.log, a.f, fl.phase.limits, fl.phase.ttl);
    } else {
      LaterFailed(s.log, s'.log, a.f);
    }
    hide Reported;
    FlightMoves(s, s', a.f, [e]);
  }

  lemma {:induction false} KeyOfFlight(s: State, f: nat)
    requires f in s.flights
    ensures FlightKey(s, f) == KeyIn(s.cfg, s.flights[f].q)
  {
  }

  lemma {:induction false} ToldKeeps(cfg: Settings, g: Guard, slot: nat, o: CB.Outcome, now: int)
    ensures var g' := Told(cfg, g, slot, o, now); g'.breakers == g.breakers && g'.count == g.count
  {
  }

  lemma {:induction false} PutRedis(log: Log, redis: map<string, Cell>, e: Event, rk: string, c: Cell)
    requires RedisOk(log, redis)
    requires || (e.SetFresh? && e.works && e.ttl > 0 && rk == FreshKey(e.key) && c == Cell(e.limits, e.at + e.ttl))
             || (e.SetStale? && e.works && rk == StaleKey(e.key) && c == Cell(e.limits, e.at + STALE_TTL))
    ensures RedisOk(log + [e], redis[rk := c])
  {
    hide Stored, FreshKey, StaleKey;
    forall k ensures Stored(log + [e], k) == if k in redis[rk := c] then Some(redis[rk := c][k]) else None {
      StoredNext(log, e, k);
    }
  }

  /** A write that is not carried out changes nothing. */
  lemma {:induction false} NotPut(log: Log, redis: map<string, Cell>, e: Event)
    requires RedisOk(log, redis) && ((e.SetFresh? && !(e.works && e.ttl > 0)) || (e.SetStale? && !e.works))
    ensures RedisOk(log + [e], redis)
  {
    hide Stored, FreshKey, StaleKey;
    forall k ensures Stored(log + [e], k) == if k in redis then Some(redis[k]) else None {
      StoredNext(log, e, k);
    }
  }

  lemma {:induction false} PutFreshStep(s: State, a: Action)
    requires Inv(s) && a.PutFresh? && Enabled(s, a)
    ensures Inv(Apply(s, a))
  {
    hide LogOk, RedisOk, GuardOk, OwnersOk, Key, Books, CallsOk, FetchedBy, WasFetched, FreshKey, StaleKey, Answered, Reported;
    var s', fl, key := Apply(s, a), s.flights[a.f], FlightKey(s, a.f);
    var v, ttl := fl.phase.limits, fl.phase.ttl;
    assert FlightOk(s.cfg, s.log, a.f, fl);
    var e := SetFresh(key, v, ttl, a.f, a.works, s.now);
    assert GoodKey(s.cfg, key) by { assert KeyIn(s.cfg, fl.q) == key; }
    ByOneIsByAny(s.cfg, s.log, key, v, a.f);
    if a.works && ttl > 0 {
      PutRedis(s.log, s.redis, e, FreshKey(key), Cell(v, s.now + ttl));
    } else {
      NotPut(s.log, s.redis, e);
    }
    LaterFetchedBy(s.cfg, s.log, s'.log, key, v, a.f);
    LaterReported(s.log, s'.log, a.f, key, true);
    var i := |s.log|;
    assert s'.log[i] == e && s'.log[..i] == s.log;
    assert WroteFresh(s'.log, a.f, key, v);
    hide WroteFresh;
    GuardNote(s.cfg, s.log, s.guard, e);
    OwnersNote(s.log, s.guard, e);
    FlightMoves(s, s', a.f, [e]);
  }

  lemma {:induction false} WithStaleOk(s: State, f: nat, works: bool)
    requires Inv(s) && f in s.flights && s.flights[f].phase.StoringStale?
    ensures Inv(WithStale(s, f, works)) && WroteStale(WithStale(s, f, works).log, f, FlightKey(s, f), s.flights[f].phase.limits)
  {
    hide LogOk, RedisOk, GuardOk, OwnersOk, Key, Books, CallsOk, FetchedBy, WasFetched, FreshKey, StaleKey, Reported, WroteFresh;
    var fl, key, s1 := s.flights[f], FlightKey(s, f), WithStale(s, f, works);
    var v := fl.phase.limits;
    assert FlightOk(s.cfg, s.log, f, fl);
    var e := SetStale(key, v, f, works, s.now);
    assert GoodKey(s.cfg, key) by { assert KeyIn(s.cfg, fl.q) == key; }
    ByOneIsByAny(s.cfg, s.log, key, v, f);
    if works {
      PutRedis(s.log, s.redis, e, StaleKey(key), Cell(v, s.now + STALE_TTL));
    } else {
      NotPut(s.log, s.redis, e);
    }
    assert s1.log[|s.log|] == e;
    FlightStays(s.cfg, s.log, s1.log, f, fl);
    GuardNote(s.cfg, s.log, s.guard, e);
    OwnersNote(s.log, s.guard, e);
    assert s1.flights == s.flights[f := s.flights[f].(phase := s1.flights[f].phase)];
    FlightMoves(s, s1, f, [e]);
  }

  lemma {:induction false} PutStaleStep(s: State, a: Action)
    requires Inv(s) && a.PutStale? && Enabled(s, a)
    ensures Inv(Apply(s, a))
  {
    hide LogOk, RedisOk, GuardOk, OwnersOk, Key, Books, CallsOk, FetchedBy, WasFetched, Reported, WroteFresh;
    hide WroteStale, WithStale, End;
    var v, s1 := s.flights[a.f].phase.limits, WithStale(s, a.f, a.works);
    WithStaleOk(s, a.f, a.works);
    WithStaleFlights(s, a.f, a.works);
    assert FlightOk(s1.cfg, s1.log, a.f, s1.flights[a.f]);
    ByOneIsByAny(s.cfg, s1.log, FlightKey(s, a.f), v, a.f);
    FlightEnds(s1, a.f, Some(v), FetchedNow);
  }

  lemma {:induction false} WithStaleFlights(s: State, f: nat, works: bool)
    requires f in s.flights && s.flights[f].phase.StoringStale?
    ensures var s1 := WithStale(s, f, works);
            && s1.flights == s.flights && s1.cfg == s.cfg
            && Apply(s, PutStale(f, works)) == End(s1, f, Some(s.flights[f].phase.limits), FetchedNow)
  {
    hide FreshKey, StaleKey, Key, End;
  }

  lemma {:induction false} BooksStay(s: State, s': State)
    requires Books(s) && s'.cfg == s.cfg && s'.calls == s.calls && s'.holders == s.holders
    requires Holding(s'.log) == Holding(s.log) && Under(s'.log) == Under(s.log)
    requires s'.flights == s.flights && s'.group == s.group
    ensures Books(s')
  {
    hide Holding, Under;
    GroupStays(s, s');
    forall f ensures f in Under(s'.log) <==> InFlight(s', f) {
      assert InFlight(s', f) <==> InFlight(s, f);
    }
    forall f | InFlight(s', f) ensures InPhase(s', s'.flights[f].leader, Waiting(f)) {
      assert InFlight(s, f) && InPhase(s, s.flights[f].leader, Waiting(f));
    }
  }

  lemma {:induction false} EvictedOk(cfg: Settings, log: Log, g: Guard, g': Guard)
    requires GuardOk(cfg, log, g) && g'.slots == g.slots && g'.next == g.next
    requires forall k :: k in g'.breakers ==> k in g.breakers && g'.breakers[k] == g.breakers[k]
    ensures GuardOk(cfg, log, g')
  {
    hide Outcomes, OnlyFor;
  }

  lemma {:induction false} TickStep(s: State, a: Action)
    requires Inv(s) && a.Tick? && Enabled(s, a)
    ensures Inv(Apply(s, a))
  {
    hide LogOk, RedisOk, Books, GuardOk, OwnersOk, Key, CallOk, FlightOk, Holding, Under;
    hide LookingUp, Asked, Acquiring, FallingOnStale, Joining, Collecting, Rereading, Reporting, WithFresh, WithStale,
         FallingBackOnStale, End;
    var s' := Apply(s, a);
    LogLater(s.cfg, s.now, s.log, s'.now);
    FactsStay(s, s', {}, {});
    BooksStay(s, s');
  }

  lemma {:induction false} EvictStep(s: State, a: Action)
    requires Inv(s) && a.Evict? && Enabled(s, a)
    ensures Inv(Apply(s, a))
  {
    hide LogOk, Books, GuardOk, OwnersOk, Key, CallOk, FlightOk, Stored, Holding, Under;
    hide LookingUp, Asked, Acquiring, FallingOnStale, Joining, Collecting, Rereading, Reporting, WithFresh, WithStale,
         FallingBackOnStale, End;
    var s', e := Apply(s, a), Evicted(a.rk);
    LogNote(s.cfg, s.now, s.log, e);
    GuardNote(s.cfg, s.log, s.guard, e);
    OwnersNote(s.log, s.guard, e);
    AfterEvent(s.log, e);
    forall rk ensures Stored(s'.log, rk) == if rk in s'.redis then Some(s'.redis[rk]) else None {
      StoredNext(s.log, e, rk);
    }
    hide RedisOk;
    FactsStay(s, s', {}, {});
    BooksStay(s, s');
  }

  lemma {:induction false} EvictBreakerStep(s: State, a: Action)
    requires Inv(s) && a.EvictBreaker? && Enabled(s, a)
    ensures Inv(Apply(s, a))
  {
    hide LogOk, RedisOk, Books, GuardOk, OwnersOk, Key, CallOk, FlightOk, Holding, Under;
    hide LookingUp, Asked, Acquiring, FallingOnStale, Joining, Collecting, Rereading, Reporting, WithFresh, WithStale,
         FallingBackOnStale, End;
    var s', e := Apply(s, a), Dropped(a.key);
    LogNote(s.cfg, s.now, s.log, e);
    RedisNote(s.log, s.redis, e);
    OwnersDropped(s.log, s.guard, s'.guard, a.key);
    EvictedOk(s.cfg, s.log, s.guard, s'.guard);
    GuardNote(s.cfg, s.log, s'.guard, e);
    AfterEvent(s.log, e);
    FactsStay(s, s', {}, {});
    BooksStay(s, s');
  }

  lemma {:induction false} StepInv(s: State, a: Action)
    requires Inv(s) && s.cfg.breaker.threshold >= 1
    ensures Inv(Step(s, a)) && Step(s, a).cfg == s.cfg
  {
    CfgStays(s, a);
    hide Inv, Enabled, Apply;
    if Enabled(s, a) {
      match a {
        case Start(_, _) => StartStep(s, a);
        case Look(_, _) => LookStep(s, a);
        case LookStale(_, _) => LookStep(s, a);
        case AskBreaker(_) => AskStep(s, a);
        case Acquire(_) => AcquireStep(s, a);
        case Join(_, _) => JoinStep(s, a);
        case Collect(_) => CollectStep(s, a);
        case Recheck(_, _) => RecheckStep(s, a);
        case FallBack(_, _) => FallBackStep(s, a);
        case Answer(_, _, _) => AnswerStep(s, a);
        case Fail(_) => AnswerStep(s, a);
        case Report(_) => ReportStep(s, a);
        case PutFresh(_, _) => PutFreshStep(s, a);
        case PutStale(_, _) => PutStaleStep(s, a);
        case Tick(_) => TickStep(s, a);
        case Evict(_) => EvictStep(s, a);
        case EvictBreaker(_) => EvictBreakerStep(s, a);
      }
    }
  }

  lemma {:induction false} CfgStays(s: State, a: Action)
    ensures Step(s, a).cfg == s.cfg
  {
    hide Enabled, CallKey, FlightKey, Get, FreshKey, StaleKey, SlotFor, Created, WithCore, CoreOf, Told;
  }

  lemma {:induction false} InvHolds(cfg: Settings, acts: seq<Action>)
    requires cfg.breaker.threshold >= 1
    ensures Inv(Exec(Init(cfg), acts)) && Exec(Init(cfg), acts).cfg == cfg
  {
    hide Step;
    if acts == [] {
      assert Exec(Init(cfg), acts) == Init(cfg);
    } else {
      hide Inv;
      InvHolds(cfg, acts[..|acts| - 1]);
      StepInv(Exec(Init(cfg), acts[..|acts| - 1]), acts[|acts| - 1]);
    }
  }

  // ---------------------------------------------------------------- every run

  /**
   In every run, limits returned for a request were fetched for a request with the same lookup key: by a flight that was
   under way at some moment of the call; or read from a fresh copy within its TTL; or read from a stale copy within five
   minutes of its writing, and that only after the call was refused by a tripped breaker or by a semaphore with all its
   places taken, or after the fetch of the flight that it waited for had failed.
   */
  lemma {:induction false} Provenance(cfg: Settings, acts: seq<Action>, id: nat)
    requires cfg.breaker.threshold >= 1
    requires var s := Exec(Init(cfg), acts); id in s.calls && s.calls[id].phase.Done? && s.calls[id].phase.result.Some?
    ensures var s := Exec(Init(cfg), acts);
            var c := s.calls[id];
            Explained(cfg, s.log, id, Key(c.q, cfg.exclude), c.phase.result.value, c.phase.how, c.phase.via)
  {
    hide Exec, Explained, Key, LogOk, RedisOk, FlightsOk, GuardOk, Books;
    InvHolds(cfg, acts);
    var s := Exec(Init(cfg), acts);
    assert CallOk(s, id, s.calls[id]);
  }

  /** Never two flights at once for one lookup key: concurrent misses cost one call to the service. */
  lemma {:induction false} OneFlightPerKey(cfg: Settings, acts: seq<Action>, f: nat, g: nat)
    requires cfg.breaker.threshold >= 1
    requires var s := Exec(Init(cfg), acts); InFlight(s, f) && InFlight(s, g) && FlightKey(s, f) == FlightKey(s, g)
    ensures f == g
  {
    hide Exec, Key, Facts, GuardOk, HoldersOk, FlightsTracked;
    InvHolds(cfg, acts);
  }

  ghost function FlightsUnderWay(s: State): set<nat> {
    set f | f in s.flights && InFlight(s, f)
  }

  /** The flights under way, over all keys together, never outnumber the places of the semaphore. */
  lemma {:induction false} FetchesAreBounded(cfg: Settings, acts: seq<Action>)
    requires cfg.breaker.threshold >= 1
    ensures |FlightsUnderWay(Exec(Init(cfg), acts))| <= cfg.maxFetches
  {
    hide Exec, Key, Facts, GuardOk, GroupOk, Holding, Under;
    InvHolds(cfg, acts);
    var s := Exec(Init(cfg), acts);
    LeadersHold(s, FlightsUnderWay(s), s.holders);
  }

  lemma {:induction false} LeadersHold(s: State, fs: set<nat>, ids: set<nat>)
    requires forall f :: f in fs ==> f in s.flights && s.flights[f].leader in ids && InPhase(s, s.flights[f].leader, Waiting(f))
    ensures |fs| <= |ids|
    decreases |fs|
  {
    if fs != {} {
      var f :| f in fs;
      var id := s.flights[f].leader;
      LeadersHold(s, fs - {f}, ids - {id});
    }
  }
}
