/**
 What calls of the external limits client get, over every run (internal/ratelimit/external.go): the answer of the service, or
 the copy that Redis holds, and nothing only if there is neither.
 */
module LimitsAnswers {
  import CB = CircuitBreaker
  import opened ExternalLimits
  import opened LimitsLog
  import opened LookupKey
  import opened Options

  // ---------------------------------------------------------------- what follows from an event

  /** The flight is on its way to return this answer, or has. */
  predicate Carries(p: FlightPhase, v: Limits, ttl: int) {
    match p
    case Succeeding(w, t) => w == v && t == ttl
    case StoringFresh(w, t) => w == v && t == ttl
    case StoringStale(w) => w == v
    case Ended(result, how) => result == Some(v) && how == FetchedNow
    case _ => false
  }

  /** The flight has to do without an answer. */
  predicate Fallen(p: FlightPhase) {
    p.Failing? || p.FallingBack? || (p.Ended? && (p.how.StaleHit? || p.how.NoLimits?))
  }

  /** What has come, or will come, of an event; `log` is what was logged before it. */
  ghost predicate Fits(s: State, log: Log, e: Event) {
    match e
    case Fetched(_, v, ttl, f) => f in s.flights && Carries(s.flights[f].phase, v, ttl)
    case FetchFailed(f) => f in s.flights && Fallen(s.flights[f].phase)
    case ReadFresh(ByCall(id), key, works, at) =>
      var hit := Found(log, FreshKey(key), works, at);
      id in s.calls && key == CallKey(s, id) && (hit.Some? ==> s.calls[id].phase == Done(hit, FreshHit(at), None))
    case ReadFresh(ByFlight(f), key, works, at) =>
      var hit := Found(log, FreshKey(key), works, at);
      f in s.flights && key == FlightKey(s, f) && (hit.Some? ==> s.flights[f].phase == Ended(hit, FreshHit(at)))
    case ReadStale(ByCall(id), key, works, at) =>
      id in s.calls && key == CallKey(s, id)
      && (var p := s.calls[id].phase; p.Done? && p.via == None && p.result == Found(log, StaleKey(key), works, at))
    case ReadStale(ByFlight(f), key, works, at) =>
      f in s.flights && key == FlightKey(s, f)
      && (var p := s.flights[f].phase; p.Ended? && p.result == Found(log, StaleKey(key), works, at))
    case _ => true
  }

  ghost predicate EventsFit(s: State) {
    forall i :: 0 <= i < |s.log| ==> Fits(s, s.log[..i], s.log[i])
  }

  /** Who waited for a flight has its result. */
  ghost predicate Collected(s: State) {
    forall id :: id in s.calls && s.calls[id].phase.Done? && s.calls[id].phase.via.Some? ==>
      FlightIn(s, s.calls[id].phase.via.value, Ended(s.calls[id].phase.result, s.calls[id].phase.how))
  }

  // ---------------------------------------------------------------- nothing is taken back

  predicate Follows(p: FlightPhase, p': FlightPhase) {
    p' == p ||
    match p
    case Rechecking => true
    case Fetching => true
    case Succeeding(v, ttl) => p' == StoringFresh(v, ttl)
    case StoringFresh(v, _) => p' == StoringStale(v)
    case StoringStale(v) => p' == Ended(Some(v), FetchedNow)
    case Failing => p' == FallingBack
    case FallingBack => p'.Ended? && (p'.how.StaleHit? || p'.how.NoLimits?)
    case Ended(_, _) => false
  }

  ghost predicate CallsGrow(s: State, s': State) {
    forall id :: id in s.calls ==>
      && id in s'.calls && s'.calls[id].q == s.calls[id].q
      && (s.calls[id].phase.Done? ==> s'.calls[id].phase == s.calls[id].phase)
  }

  ghost predicate FlightsGrow(s: State, s': State) {
    forall f :: f in s.flights ==>
      f in s'.flights && s'.flights[f].q == s.flights[f].q && Follows(s.flights[f].phase, s'.flights[f].phase)
  }

  ghost predicate Grows(s: State, s': State) {
    s'.cfg == s.cfg && CallsGrow(s, s') && FlightsGrow(s, s')
  }

  lemma {:induction false} FitStays(s: State, s': State, log: Log, e: Event)
    requires Grows(s, s') && Fits(s, log, e)
    ensures Fits(s', log, e)
  {
    hide Found, Key, FreshKey, StaleKey;
  }

  lemma {:induction false} Extends(s: State, s': State, evs: Log)
    requires EventsFit(s) && Grows(s, s') && s'.log == s.log + evs
    requires forall j :: 0 <= j < |evs| ==> Fits(s', s.log + evs[..j], evs[j])
    ensures EventsFit(s')
  {
    hide Fits, Grows;
    forall i | 0 <= i < |s'.log| ensures Fits(s', s'.log[..i], s'.log[i]) {
      if i < |s.log| {
        assert s'.log[..i] == s.log[..i] && s'.log[i] == s.log[i];
        FitStays(s, s', s.log[..i], s.log[i]);
      } else {
        var j := i - |s.log|;
        assert s'.log[..i] == s.log + evs[..j] && s'.log[i] == evs[j];
      }
    }
  }

  lemma {:induction false} ExtendsByOne(s: State, s': State, e: Event)
    requires EventsFit(s) && Grows(s, s') && s'.log == s.log + [e] && Fits(s', s.log, e)
    ensures EventsFit(s')
  {
    hide Fits, Grows, EventsFit;
    assert s.log + [e][..0] == s.log;
    Extends(s, s', [e]);
  }

  lemma {:induction false} ExtendsByTwo(s: State, s': State, e: Event, e': Event)
    requires EventsFit(s) && Grows(s, s') && s'.log == s.log + [e] + [e'] && Fits(s', s.log, e) && Fits(s', s.log + [e], e')
    ensures EventsFit(s')
  {
    hide Fits, Grows, EventsFit;
    var evs := [e, e'];
    assert s.log + evs[..0] == s.log && s.log + evs[..1] == s.log + [e] && s'.log == s.log + evs;
    Extends(s, s', evs);
  }

  // ---------------------------------------------------------------- steps of calls

  lemma {:induction false} CallGrows(s: State, s': State, id: nat)
    requires s'.cfg == s.cfg && s'.flights == s.flights && id in s'.calls && s'.calls == s.calls[id := s'.calls[id]]
    requires id in s.calls ==> s'.calls[id].q == s.calls[id].q && !s.calls[id].phase.Done?
    ensures Grows(s, s')
  {
  }

  lemma {:induction false} LookGrows(s: State, a: Action)
    requires EventsFit(s) && RedisOk(s.log, s.redis) && Enabled(s, a) && (a.Look? || a.LookStale?)
    ensures EventsFit(Apply(s, a)) && Grows(s, Apply(s, a))
  {
    hide EventsFit, RedisOk, Found, Get, Key, FreshKey, StaleKey, CallKey;
    var s', key := Apply(s, a), CallKey(s, a.id);
    var e := if a.Look? then ReadFresh(ByCall(a.id), key, a.works, s.now) else ReadStale(ByCall(a.id), key, a.works, s.now);
    CallGrows(s, s', a.id);
    SameKey(s, s', a.id);
    GetIsFound(s, if a.Look? then FreshKey(key) else StaleKey(key), a.works);
    hide Grows;
    ExtendsByOne(s, s', e);
  }

  /** Steps of a call that log no read. */
  lemma {:induction false} CallMoves(s: State, s': State, id: nat, e: Event)
    requires EventsFit(s) && s'.cfg == s.cfg && s'.flights == s.flights && s'.log == s.log + [e]
    requires id in s'.calls && s'.calls == s.calls[id := s'.calls[id]]
    requires id in s.calls ==> s'.calls[id].q == s.calls[id].q && !s.calls[id].phase.Done?
    requires !e.ReadFresh? && !e.ReadStale? && !e.Fetched? && !e.FetchFailed?
    ensures EventsFit(s') && Grows(s, s')
  {
    hide EventsFit, Found, Key, FreshKey, StaleKey;
    CallGrows(s, s', id);
    hide Grows;
    ExtendsByOne(s, s', e);
  }

  /** The call goes on to a phase and logs an event; nothing that matters here changes besides. */
  ghost predicate Goes(s: State, s': State, id: nat, p: Phase, e: Event) {
    && id in s.calls && s'.cfg == s.cfg && s'.flights == s.flights && s'.log == s.log + [e]
    && s'.calls == s.calls[id := s.calls[id].(phase := p)]
  }

  lemma {:induction false} AskGoes(s: State, id: nat) returns (e: Event)
    requires id in s.calls
    ensures Goes(s, Asked(s, id), id, Cleared, e) || Goes(s, Asked(s, id), id, Denied(CircuitOpen), e)
    ensures e.Passed? || e.Refused?
  {
    hide SlotFor, Created, CoreOf, CB.IsOpen, Key;
    e := Asked(s, id).log[|s.log|];
  }

  lemma {:induction false} AcquireGoes(s: State, id: nat) returns (e: Event)
    requires id in s.calls
    ensures Goes(s, Acquiring(s, id), id, Admitted, e) || Goes(s, Acquiring(s, id), id, Denied(SemaphoreFull), e)
    ensures e.Acquired? || e.Refused?
  {
    hide Key;
    e := Acquiring(s, id).log[|s.log|];
  }

  lemma {:induction false} CallStep(s: State, a: Action)
    requires EventsFit(s) && Enabled(s, a) && (a.Start? || a.AskBreaker? || a.Acquire? || a.Collect?)
    ensures EventsFit(Apply(s, a)) && Grows(s, Apply(s, a))
  {
    hide EventsFit, Asked, Acquiring, Grows;
    match a {
      case Start(id, _) => CallMoves(s, Apply(s, a), id, Started(id));
      case Collect(id) => CallMoves(s, Collecting(s, id), id, Released(id));
      case AskBreaker(id) =>
        var e := AskGoes(s, id);
        CallMoves(s, Asked(s, id), id, e);
      case Acquire(id) =>
        var e := AcquireGoes(s, id);
        CallMoves(s, Acquiring(s, id), id, e);
    }
  }

  lemma {:induction false} SameKey(s: State, s': State, id: nat)
    requires Grows(s, s') && id in s.calls
    ensures id in s'.calls && CallKey(s', id) == CallKey(s, id)
  {
    hide Key;
  }

  lemma {:induction false} JoinGrows(s: State, a: Action)
    requires EventsFit(s) && a.Join? && Enabled(s, a)
    ensures EventsFit(Apply(s, a)) && Grows(s, Apply(s, a))
  {
    hide EventsFit, Key, CallKey;
    hide Rereading, WithFresh, WithStale, FallingBackOnStale, Reporting, End, LookingUp, FallingOnStale, Asked;
    hide Acquiring, Collecting;
    var s', e, e' := Apply(s, a), Launched(a.flight), LimitsLog.Joined(a.id, a.flight);
    assert Grows(s, s');
    hide Grows;
    if CallKey(s, a.id) in s.group {
      ExtendsByOne(s, s', e');
    } else {
      ExtendsByTwo(s, s', e, e');
    }
  }

  // ---------------------------------------------------------------- steps of flights

  lemma {:induction false} FlightGrows(s: State, s': State, f: nat)
    requires s'.cfg == s.cfg && s'.calls == s.calls && f in s.flights && f in s'.flights
    requires s'.flights == s.flights[f := s.flights[f].(phase := s'.flights[f].phase)]
    requires Follows(s.flights[f].phase, s'.flights[f].phase)
    ensures Grows(s, s') && FlightKey(s', f) == FlightKey(s, f)
  {
    hide Key;
  }

  lemma {:induction false} MoveStep(s: State, a: Action)
    requires EventsFit(s) && (a.Answer? || a.Fail? || a.Report? || a.PutFresh?) && Enabled(s, a)
    ensures EventsFit(Apply(s, a)) && Grows(s, Apply(s, a))
  {
    hide EventsFit, Key, FlightKey, SlotFor, Created, Told, FreshKey;
    hide Rereading, WithStale, FallingBackOnStale, End, LookingUp, FallingOnStale, Asked, Acquiring, Collecting, Joining;
    var s' := Apply(s, a);
    var e := s'.log[|s.log|];
    assert s'.log == s.log + [e];
    FlightGrows(s, s', a.f);
    hide Grows;
    ExtendsByOne(s, s', e);
  }

  lemma {:induction false} EndGrows(s: State, s1: State, f: nat, result: Option<Limits>, how: How, e: Event)
    requires EventsFit(s) && f in s.flights && Follows(s.flights[f].phase, Ended(result, how))
    requires s1.log == s.log + [e] && s1.cfg == s.cfg && s1.calls == s.calls && s1.flights == s.flights
    requires Fits(End(s1, f, result, how), s.log, e)
    ensures EventsFit(End(s1, f, result, how)) && Grows(s, End(s1, f, result, how))
  {
    hide EventsFit, Fits, Key, FlightKey;
    var s' := End(s1, f, result, how);
    FlightGrows(s, s', f);
    hide Grows;
    assert Fits(s', s.log + [e], Finished(f)) by { FinishFits(s', s.log + [e], f); }
    ExtendsByTwo(s, s', e, Finished(f));
  }

  lemma {:induction false} FinishFits(s: State, log: Log, f: nat)
    ensures Fits(s, log, Finished(f))
  {
    hide Found, Key;
  }

  lemma {:induction false} RecheckGrows(s: State, a: Action)
    requires EventsFit(s) && RedisOk(s.log, s.redis) && a.Recheck? && Enabled(s, a)
    ensures EventsFit(Apply(s, a)) && Grows(s, Apply(s, a))
  {
    hide EventsFit, RedisOk, Key, FreshKey, Found, Get;
    var s', key := Apply(s, a), FlightKey(s, a.f);
    var e := ReadFresh(ByFlight(a.f), key, a.works, s.now);
    var s1, hit := Note(s, e), Get(s, FreshKey(key), a.works);
    GetIsFound(s, FreshKey(key), a.works);
    if hit.Some? {
      EndGrows(s, s1, a.f, hit, FreshHit(s.now), e);
    } else {
      FlightGrows(s, s', a.f);
      hide Grows;
      ExtendsByOne(s, s', e);
    }
  }

  lemma {:induction false} FallBackGrows(s: State, a: Action)
    requires EventsFit(s) && RedisOk(s.log, s.redis) && a.FallBack? && Enabled(s, a)
    ensures EventsFit(Apply(s, a)) && Grows(s, Apply(s, a))
  {
    hide EventsFit, RedisOk, Key, StaleKey, Found, Get;
    var key := FlightKey(s, a.f);
    var e, hit := ReadStale(ByFlight(a.f), key, a.works, s.now), Get(s, StaleKey(key), a.works);
    GetIsFound(s, StaleKey(key), a.works);
    EndGrows(s, Note(s, e), a.f, hit, if hit.Some? then StaleHit(FetchError, s.now) else NoLimits, e);
  }

  lemma {:induction false} PutStaleGrows(s: State, a: Action)
    requires EventsFit(s) && a.PutStale? && Enabled(s, a)
    ensures EventsFit(Apply(s, a)) && Grows(s, Apply(s, a))
  {
    hide EventsFit, Key, FlightKey, StaleKey;
    var p, key := s.flights[a.f].phase, FlightKey(s, a.f);
    var e := SetStale(key, p.limits, a.f, a.works, s.now);
    EndGrows(s, WithStale(s, a.f, a.works), a.f, Some(p.limits), FetchedNow, e);
  }

  lemma {:induction false} OutsideGrows(s: State, a: Action)
    requires EventsFit(s) && (a.Tick? || a.Evict? || a.EvictBreaker?) && Enabled(s, a)
    ensures EventsFit(Apply(s, a)) && Grows(s, Apply(s, a))
  {
    hide EventsFit, Key, Rereading, WithFresh, WithStale, FallingBackOnStale, End, Reporting;
    hide LookingUp, FallingOnStale, Asked, Acquiring, Collecting, Joining;
    var s' := Apply(s, a);
    assert Grows(s, s');
    hide Grows;
    if a.Tick? {
      assert s'.log == s.log + [];
      Extends(s, s', []);
    } else {
      ExtendsByOne(s, s', s'.log[|s.log|]);
    }
  }

  lemma {:induction false} StepFits(s: State, a: Action)
    requires EventsFit(s) && RedisOk(s.log, s.redis)
    ensures EventsFit(Step(s, a)) && Grows(s, Step(s, a))
  {
    if Enabled(s, a) {
      hide EventsFit, RedisOk, Enabled, Apply, Grows;
      match a {
        case Join(_, _) => JoinGrows(s, a);
        case Recheck(_, _) => RecheckGrows(s, a);
        case FallBack(_, _) => FallBackGrows(s, a);
        case PutStale(_, _) => PutStaleGrows(s, a);
        case Answer(_, _, _) => MoveStep(s, a);
        case Fail(_) => MoveStep(s, a);
        case Report(_) => MoveStep(s, a);
        case PutFresh(_, _) => MoveStep(s, a);
        case Tick(_) => OutsideGrows(s, a);
        case Evict(_) => OutsideGrows(s, a);
        case EvictBreaker(_) => OutsideGrows(s, a);
        case Look(_, _) => LookGrows(s, a);
        case LookStale(_, _) => LookGrows(s, a);
        case _ => CallStep(s, a);
      }
    }
  }

  predicate OfCalls(a: Action) {
    a.Start? || a.Look? || a.AskBreaker? || a.Acquire? || a.LookStale? || a.Join? || a.Collect?
  }

  lemma {:induction false} CallsStay(s: State, a: Action)
    requires Enabled(s, a) && !OfCalls(a)
    ensures Apply(s, a).calls == s.calls
  {
    hide Key, CallKey, FlightKey, Get, FreshKey, StaleKey, SlotFor, Created, Told;
    hide Asked, Acquiring, Joining, Collecting, LookingUp, FallingOnStale;
  }

  /** Only by collecting is a call done that waited. */
  lemma {:induction false} DoneByItself(s: State, a: Action, id: nat)
    requires Enabled(s, a) && OfCalls(a) && !a.Collect? && id in Apply(s, a).calls
    ensures var c := Apply(s, a).calls[id];
            (id in s.calls && c == s.calls[id]) || (c.phase.Done? ==> c.phase.via == None)
  {
    hide Key, CallKey, Get, FreshKey, StaleKey, Asked, Acquiring;
    match a {
      case AskBreaker(i) => var e := AskGoes(s, i);
      case Acquire(i) => var e := AcquireGoes(s, i);
      case Start(_, _) =>
      case Look(_, _) =>
      case LookStale(_, _) =>
      case Join(_, _) =>
    }
  }

  lemma {:induction false} CollectCollects(s: State, id: nat)
    requires Collected(s) && Enabled(s, Collect(id))
    ensures Collected(Collecting(s, id))
  {
  }

  lemma {:induction false} StepCollects(s: State, a: Action)
    requires Collected(s) && Grows(s, Step(s, a))
    ensures Collected(Step(s, a))
  {
    if Enabled(s, a) {
      if a.Collect? {
        hide Collected;
        CollectCollects(s, a.id);
      } else {
        OthersCollect(s, a, Apply(s, a));
      }
    }
  }

  lemma {:induction false} OthersCollect(s: State, a: Action, s': State)
    requires Collected(s) && Enabled(s, a) && !a.Collect? && s' == Apply(s, a) && Grows(s, s')
    ensures Collected(s')
  {
    hide Enabled, Apply, Follows;
    forall id | id in s'.calls && s'.calls[id].phase.Done? && s'.calls[id].phase.via.Some?
      ensures FlightIn(s', s'.calls[id].phase.via.value, Ended(s'.calls[id].phase.result, s'.calls[id].phase.how))
    {
      if OfCalls(a) {
        DoneByItself(s, a, id);
      } else {
        CallsStay(s, a);
      }
      EndedStays(s, s', s.calls[id].phase.via.value);
    }
  }

  lemma {:induction false} EndedStays(s: State, s': State, f: nat)
    requires Grows(s, s') && f in s.flights && s.flights[f].phase.Ended?
    ensures f in s'.flights && s'.flights[f].phase == s.flights[f].phase
  {
  }

  lemma {:induction false} AllFit(cfg: Settings, acts: seq<Action>)
    requires cfg.breaker.threshold >= 1
    ensures EventsFit(Exec(Init(cfg), acts)) && Collected(Exec(Init(cfg), acts))
  {
    hide Step;
    if acts == [] {
      assert Exec(Init(cfg), acts) == Init(cfg);
    } else {
      var init, a := acts[..|acts| - 1], acts[|acts| - 1];
      AllFit(cfg, init);
      InvHolds(cfg, init);
      hide EventsFit, Collected, Grows, GuardOk, OwnersOk, Books, CallsOk, FlightsOk, LogOk, RedisOk;
      StepFits(Exec(Init(cfg), init), a);
      StepCollects(Exec(Init(cfg), init), a);
    }
  }

  // ---------------------------------------------------------------- every run

  /** The call is done, with this result, after waiting for this flight if for any. */
  predicate Returned(s: State, id: nat, result: Option<Limits>, via: Option<nat>) {
    id in s.calls && s.calls[id].phase.Done? && s.calls[id].phase.result == result && s.calls[id].phase.via == via
  }

  /** Every call that waited for a flight to which the service answered returns that answer. */
  lemma {:induction false} AnswerIsReturned(cfg: Settings, acts: seq<Action>, id: nat, f: nat, i: nat)
    requires cfg.breaker.threshold >= 1
    requires var s := Exec(Init(cfg), acts);
             && id in s.calls && s.calls[id].phase.Done? && s.calls[id].phase.via == Some(f)
             && i < |s.log| && s.log[i].Fetched? && s.log[i].flight == f
    ensures var s := Exec(Init(cfg), acts); Returned(s, id, Some(s.log[i].limits), Some(f))
  {
    hide Exec, Found, Key, FreshKey, StaleKey;
    AllFit(cfg, acts);
    var s := Exec(Init(cfg), acts);
    assert Fits(s, s.log[..i], s.log[i]);
  }

  /**
   A read that is carried out while Redis holds a live fresh copy for the key returns that copy: to the call that reads, or to
   all that wait for the flight that reads.
   */
  lemma {:induction false} FreshCopyIsReturned(cfg: Settings, acts: seq<Action>, i: nat)
    requires cfg.breaker.threshold >= 1
    requires var s := Exec(Init(cfg), acts);
             i < |s.log| && s.log[i].ReadFresh? && Found(s.log[..i], FreshKey(s.log[i].key), s.log[i].works, s.log[i].at).Some?
    ensures var s := Exec(Init(cfg), acts);
            var v := Found(s.log[..i], FreshKey(s.log[i].key), s.log[i].works, s.log[i].at);
            match s.log[i].who
            case ByCall(id) => Returned(s, id, v, None) && s.log[i].key == CallKey(s, id)
            case ByFlight(f) =>
              && f in s.flights && s.log[i].key == FlightKey(s, f)
              && forall id :: id in s.calls && s.calls[id].phase.Done? && s.calls[id].phase.via == Some(f) ==>
                   Returned(s, id, v, Some(f))
  {
    hide Exec, Found, Key, FreshKey, StaleKey;
    AllFit(cfg, acts);
    var s := Exec(Init(cfg), acts);
    assert Fits(s, s.log[..i], s.log[i]);
  }

  /**
   A call returns no limits only if a breaker or the semaphore refused it for a reason that held, or the fetch of its flight
   failed, and if then the read of the stale copy was not carried out or Redis held no live one.
   */
  lemma {:induction false} NothingOnlyIf(cfg: Settings, acts: seq<Action>, id: nat, via: Option<nat>)
    requires cfg.breaker.threshold >= 1 && Returned(Exec(Init(cfg), acts), id, None, via)
    ensures var s := Exec(Init(cfg), acts);
            Unanswered(cfg, s.log, LastReader(id, via), Key(s.calls[id].q, cfg.exclude))
  {
    hide Exec, Unanswered, Key, LogOk, RedisOk, FlightsOk, GuardOk, OwnersOk, Books;
    InvHolds(cfg, acts);
    var s := Exec(Init(cfg), acts);
    assert CallOk(s, id, s.calls[id]);
  }

  /** And a stale copy that such a read does find is returned. */
  lemma {:induction false} StaleCopyIsReturned(cfg: Settings, acts: seq<Action>, i: nat)
    requires cfg.breaker.threshold >= 1
    requires var s := Exec(Init(cfg), acts); i < |s.log| && s.log[i].ReadStale?
    ensures var s := Exec(Init(cfg), acts);
            var v := Found(s.log[..i], StaleKey(s.log[i].key), s.log[i].works, s.log[i].at);
            match s.log[i].who
            case ByCall(id) => Returned(s, id, v, None) && s.log[i].key == CallKey(s, id)
            case ByFlight(f) =>
              && f in s.flights && s.log[i].key == FlightKey(s, f)
              && forall id :: id in s.calls && s.calls[id].phase.Done? && s.calls[id].phase.via == Some(f) ==>
                   Returned(s, id, v, Some(f))
  {
    hide Exec, Found, Key, FreshKey, StaleKey;
    AllFit(cfg, acts);
    var s := Exec(Init(cfg), acts);
    assert Fits(s, s.log[..i], s.log[i]);
  }

  /**
   A flight that is over and to which the service answered has told the breaker of its key so, and has handed the answer to
   Redis as the fresh copy, with the TTL that came with it, and as the stale one.  If the fetch failed, the breaker was told.
   */
  lemma {:induction false} AnswersAreKept(cfg: Settings, acts: seq<Action>, i: nat)
    requires cfg.breaker.threshold >= 1
    requires var s := Exec(Init(cfg), acts);
             i < |s.log| && (s.log[i].Fetched? || s.log[i].FetchFailed?) && s.log[i].flight !in Under(s.log)
    ensures var s := Exec(Init(cfg), acts);
            var e := s.log[i];
            && e.flight in s.flights
            && if e.Fetched? then Delivered(s.log, e.flight, FlightKey(s, e.flight), e.limits)
               else Reported(s.log, e.flight, FlightKey(s, e.flight), false)
  {
    hide Exec, Found, Key, FreshKey, StaleKey, LogOk, RedisOk, CallsOk, GuardOk, OwnersOk, Delivered, Reported, Unanswered;
    hide HoldersOk, GroupOk, Under, WasFetched, FetchedBy, FreshAt, StaleAt, FailedIn;
    AllFit(cfg, acts);
    InvHolds(cfg, acts);
    var s := Exec(Init(cfg), acts);
    assert Fits(s, s.log[..i], s.log[i]);
    var f := s.log[i].flight;
    assert f in Under(s.log) <==> InFlight(s, f);
    assert FlightOk(s.cfg, s.log, f, s.flights[f]);
  }

  /**
   Breakers are asked and told in every run: whoever passes asked the right breaker, and it had not tripped; whoever is let
   into the semaphore had passed; and outcomes go to the right breaker.
   */
  lemma {:induction false} BreakersDecide(cfg: Settings, acts: seq<Action>, i: nat)
    requires cfg.breaker.threshold >= 1 && i < |Exec(Init(cfg), acts).log|
    ensures var log := Exec(Init(cfg), acts).log;
            var e := log[i];
            && (e.Passed? ==> RightSlot(cfg, log[..i], e.key, e.slot) && !Streaky(cfg, log[..i], e.slot, e.at))
            && (e.Refused? && e.reason.CircuitOpen? ==>
                  RightSlot(cfg, log[..i], e.key, e.slot) && Tripped(cfg, log[..i], e.key, e.slot, e.at))
            && (e.Refused? && e.reason.SemaphoreFull? ==> |Holding(log[..i])| >= cfg.maxFetches)
            && (e.Acquired? ==> exists key :: HasPassed(log[..i], e.id, key))
            && (e.Recorded? ==> RightSlot(cfg, log[..i], e.key, e.slot))
  {
    hide Exec, RightSlot, Streaky, Tripped, Holding, HasPassed, GoodKey, WasFetched, FailedIn, RedisOk, CallsOk;
    hide FlightsOk, GuardOk, OwnersOk, Books;
    InvHolds(cfg, acts);
    var s := Exec(Init(cfg), acts);
    assert Sound(cfg, s.now, s.log[..i], s.log[i]);
  }

  // ---------------------------------------------------------------- calls come to an end

  function CallRank(p: Phase): nat {
    match p
    case Looking => 5
    case Missed => 4
    case Cleared => 3
    case Admitted => 2
    case Denied(_) => 1
    case Waiting(_) => 1
    case Done(_, _, _) => 0
  }

  function FlightRank(p: FlightPhase): nat {
    match p
    case Rechecking => 5
    case Fetching => 4
    case Succeeding(_, _) => 3
    case Failing => 3
    case StoringFresh(_, _) => 2
    case StoringStale(_) => 1
    case FallingBack => 1
    case Ended(_, _) => 0
  }

  predicate OfCall(a: Action, id: nat) {
    match a
    case Look(i, _) => i == id
    case AskBreaker(i) => i == id
    case Acquire(i) => i == id
    case LookStale(i, _) => i == id
    case Join(i, _) => i == id
    case Collect(i) => i == id
    case _ => false
  }

  predicate OfFlight(a: Action, f: nat) {
    match a
    case Recheck(g, _) => g == f
    case Answer(g, _, _) => g == f
    case Fail(g) => g == f
    case Report(g) => g == f
    case PutFresh(g, _) => g == f
    case PutStale(g, _) => g == f
    case FallBack(g, _) => g == f
    case _ => false
  }

  /** Every step of a call or of a flight brings it nearer to its end. */
  lemma {:induction false} CallStepsLower(s: State, a: Action, id: nat)
    requires Enabled(s, a) && OfCall(a, id)
    ensures id in s.calls && id in Apply(s, a).calls && CallRank(Apply(s, a).calls[id].phase) < CallRank(s.calls[id].phase)
  {
    hide Key, CallKey, Get, FreshKey, StaleKey, Asked, Acquiring;
    match a {
      case AskBreaker(i) => var e := AskGoes(s, i);
      case Acquire(i) => var e := AcquireGoes(s, i);
      case Look(_, _) =>
      case LookStale(_, _) =>
      case Join(_, _) =>
      case Collect(_) =>
    }
  }

  lemma {:induction false} FlightStepsLower(s: State, a: Action, f: nat)
    requires Enabled(s, a) && OfFlight(a, f)
    ensures f in s.flights && f in Apply(s, a).flights
    ensures FlightRank(Apply(s, a).flights[f].phase) < FlightRank(s.flights[f].phase)
  {
    hide Key, CallKey, FlightKey, Get, FreshKey, StaleKey, SlotFor, Created, Told;
    hide Asked, Acquiring, Joining, Collecting, LookingUp, FallingOnStale;
  }

  /** A call that is not done can go on, or the flight that it waits for can. */
  lemma {:induction false} NoCallIsStuck(cfg: Settings, acts: seq<Action>, id: nat) returns (a: Action)
    requires cfg.breaker.threshold >= 1
    requires var s := Exec(Init(cfg), acts); id in s.calls && !s.calls[id].phase.Done?
    ensures var s := Exec(Init(cfg), acts);
            && Enabled(s, a)
            && (OfCall(a, id) || (s.calls[id].phase.Waiting? && OfFlight(a, s.calls[id].phase.flight)))
  {
    hide Exec, Key, LogOk, RedisOk, FlightsOk, GuardOk, OwnersOk, Books, HasStarted, HasPassed, RefusedBy, Met;
    hide Explained, Unanswered;
    InvHolds(cfg, acts);
    var s := Exec(Init(cfg), acts);
    assert CallOk(s, id, s.calls[id]);
    match s.calls[id].phase {
      case Looking => a := Look(id, true);
      case Missed => a := AskBreaker(id);
      case Cleared => a := Acquire(id);
      case Admitted =>
        var f := NewFlight(s.flights);
        a := Join(id, if CallKey(s, id) in s.group then s.group[CallKey(s, id)] else f);
      case Denied(_) => a := LookStale(id, true);
      case Waiting(f) =>
        match s.flights[f].phase {
          case Rechecking => a := Recheck(f, true);
          case Fetching => a := Fail(f);
          case Succeeding(_, _) => a := Report(f);
          case Failing => a := Report(f);
          case StoringFresh(_, _) => a := PutFresh(f, true);
          case StoringStale(_) => a := PutStale(f, true);
          case FallingBack => a := FallBack(f, true);
          case Ended(_, _) => a := Collect(id);
        }
    }
  }

  lemma {:induction false} NewFlight(flights: map<nat, Flight>) returns (f: nat)
    ensures f !in flights
  {
    f := Above(flights.Keys);
  }

  lemma {:induction false} Above(fs: set<nat>) returns (f: nat)
    ensures forall g :: g in fs ==> g < f
    decreases |fs|
  {
    f := 0;
    if fs != {} {
      var g :| g in fs;
      var h := Above(fs - {g});
      f := if h > g then h else g + 1;
      forall x | x in fs ensures x < f {
        assert x == g || x in fs - {g};
      }
    }
  }
}
