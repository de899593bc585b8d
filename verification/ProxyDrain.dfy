/**
 Admission and drain of the proxy (internal/proxy/proxy.go): requests take a read lock to be admitted,
 Close takes the write lock to stop admissions, waits for the in-flight count and releases the transports once.

 Every lock operation, the read of `closing`, the in-flight Add and Done, the wait and the release are separate
 steps of any number of requests and Close calls.  A disabled action leaves the state alone.
 */
module ProxyDrain {

  type Id = nat

  /**
   Requests by where they are: holding the read lock before reading `closing`; having read false; having added
   themselves; running after the unlock; refused.  Close calls likewise.
   */
  datatype State = State(
    closing: bool, inflight: int, releases: nat, deadlinePassed: bool,
    locked: set<Id>, cleared: set<Id>, added: set<Id>, running: set<Id>, refused: set<Id>,
    writer: set<Id>, waiting: set<Id>, drained: set<Id>, expired: set<Id>, returned: set<Id>)

  datatype Action =
    | RLock(r: Id) | ReadClosing(r: Id) | Add(r: Id) | RUnlock(r: Id) | Done(r: Id) | Refuse(r: Id)
    | Lock(c: Id) | SetClosing(c: Id) | Unlock(c: Id) | WaitReturns(c: Id) | Deadline(c: Id) | Release(c: Id)

  const INIT := State(false, 0, 0, false, {}, {}, {}, {}, {}, {}, {}, {}, {}, {})

  function Requests(s: State): set<Id> {
    s.locked + s.cleared + s.added + s.running + s.refused
  }

  function Closers(s: State): set<Id> {
    s.writer + s.waiting + s.drained + s.expired + s.returned
  }

  predicate Readers(s: State) {
    s.locked != {} || s.cleared != {} || s.added != {}
  }

  predicate Enabled(s: State, a: Action) {
    match a
    case RLock(r) => r !in Requests(s) && s.writer == {}
    case ReadClosing(r) => r in s.locked
    case Add(r) => r in s.cleared
    case RUnlock(r) => r in s.added
    case Done(r) => r in s.running
    case Refuse(r) => r in s.refused
    case Lock(c) => c !in Closers(s) && s.writer == {} && !Readers(s)
    case SetClosing(c) => c in s.writer
    case Unlock(c) => c in s.writer && s.closing
    case WaitReturns(c) => c in s.waiting && s.inflight == 0
    case Deadline(c) => c in s.waiting
    case Release(c) => c in s.drained || c in s.expired
  }

  function Apply(s: State, a: Action): State {
    if !Enabled(s, a) then s
    else match a
      case RLock(r) => s.(locked := s.locked + {r})
      case ReadClosing(r) =>
        if s.closing then s.(locked := s.locked - {r}, refused := s.refused + {r})
        else s.(locked := s.locked - {r}, cleared := s.cleared + {r})
      case Add(r) => s.(cleared := s.cleared - {r}, added := s.added + {r}, inflight := s.inflight + 1)
      case RUnlock(r) => s.(added := s.added - {r}, running := s.running + {r})
      case Done(r) => s.(running := s.running - {r}, inflight := s.inflight - 1)
      case Refuse(r) => s.(refused := s.refused - {r})
      case Lock(c) => s.(writer := s.writer + {c})
      case SetClosing(c) => s.(closing := true)
      case Unlock(c) => s.(writer := s.writer - {c}, waiting := s.waiting + {c})
      case WaitReturns(c) => s.(waiting := s.waiting - {c}, drained := s.drained + {c})
      case Deadline(c) => s.(waiting := s.waiting - {c}, expired := s.expired + {c}, deadlinePassed := true)
      case Release(c) =>
        s.(drained := s.drained - {c}, expired := s.expired - {c}, returned := s.returned + {c},
           releases := if s.releases == 0 then 1 else s.releases)
  }

  function Exec(acts: seq<Action>): State {
    if |acts| == 0 then INIT else Apply(Exec(acts[..|acts| - 1]), acts[|acts| - 1])
  }

  /** The requests the in-flight counter stands for. */
  function Tracked(s: State): set<Id> {
    s.added + s.running
  }

  /** A request is in one place at a time. */
  predicate Apart(s: State) {
    && s.locked !! s.cleared && s.locked !! s.added && s.locked !! s.running
    && s.cleared !! s.added && s.cleared !! s.running && s.added !! s.running
    && s.refused !! s.locked + s.cleared + s.added + s.running
  }

  predicate Places(s: State) {
    Apart(s) && s.inflight == |Tracked(s)|
  }

  predicate Fence(s: State) {
    && (s.refused != {} ==> s.closing)
    && (s.writer != {} ==> !Readers(s))
    && (s.closing ==> s.cleared == {} && s.added == {})
    && (s.waiting + s.drained + s.expired + s.returned != {} ==> s.closing)
  }

  predicate Released(s: State) {
    && (s.drained != {} ==> s.inflight == 0)
    && (s.expired != {} ==> s.deadlinePassed)
    && s.releases <= 1
    && (s.releases == 1 <==> s.returned != {})
    && (s.releases == 1 && s.inflight > 0 ==> s.deadlinePassed)
  }

  predicate Inv(s: State) {
    Places(s) && Fence(s) && Released(s)
  }

  lemma {:induction false} ApartStep(s: State, a: Action)
    requires Apart(s)
    ensures Apart(Apply(s, a))
  {
  }

  /** Only Add and Done change which requests are tracked. */
  lemma {:induction false} TrackedStep(s: State, a: Action)
    requires Apart(s)
    ensures var t, t' := Tracked(s), Tracked(Apply(s, a));
            if Enabled(s, a) && a.Add? then a.r !in t && t' == t + {a.r}
            else if Enabled(s, a) && a.Done? then a.r in t && t' == t - {a.r}
            else t' == t
  {
  }

  lemma {:induction false} CountStep(s: State, a: Action)
    requires Places(s)
    ensures Apply(s, a).inflight == |Tracked(Apply(s, a))|
  {
    hide Tracked, Apart;
    TrackedStep(s, a);
  }

  lemma {:induction false} FenceStep(s: State, a: Action)
    requires Inv(s)
    ensures Fence(Apply(s, a)) && Released(Apply(s, a))
  {
  }

  lemma {:induction false} StepInv(s: State, a: Action)
    requires Inv(s)
    ensures Inv(Apply(s, a))
  {
    hide Apply, Apart, Fence, Released, Tracked;
    ApartStep(s, a);
    CountStep(s, a);
    FenceStep(s, a);
  }

  lemma {:induction false} InvHolds(acts: seq<Action>)
    ensures Inv(Exec(acts))
  {
    hide Places, Fence, Released, Apply;
    if |acts| == 0 {
      InitInv();
    } else {
      InvHolds(acts[..|acts| - 1]);
      StepInv(Exec(acts[..|acts| - 1]), acts[|acts| - 1]);
    }
  }

  lemma {:induction false} InitInv()
    ensures Inv(INIT)
  {
  }

  /**
   Once `closing` is set it stays set, no request is added to the in-flight count any more, and every request
   tracked later was tracked already: the count never rises again.
   */
  lemma {:induction false} ClosingIsFinal(acts: seq<Action>, more: seq<Action>)
    requires Exec(acts).closing
    ensures var s, s' := Exec(acts), Exec(acts + more);
            s'.closing && Tracked(s') <= Tracked(s) && s'.inflight <= s.inflight
    decreases |more|
  {
    hide Inv;
    var n := |more|;
    if n == 0 {
      assert acts + more == acts;
    } else {
      ClosingIsFinal(acts, more[..n - 1]);
      assert (acts + more)[..|acts + more| - 1] == acts + more[..n - 1];
      var s := Exec(acts + more[..n - 1]);
      InvHolds(acts + more[..n - 1]);
      NoAdmissionStep(s, more[n - 1]);
    }
  }

  lemma {:induction false} NoAdmissionStep(s: State, a: Action)
    requires Inv(s) && s.closing
    ensures var s' := Apply(s, a);
            s'.closing && Tracked(s') <= Tracked(s) && s'.inflight <= s.inflight
  {
  }

  /** The in-flight Add can never run while some Close waits for the count, nor after its wait has returned. */
  lemma {:induction false} AddNeverRacesWait(acts: seq<Action>, r: Id)
    ensures var s := Exec(acts);
            s.waiting + s.drained + s.expired + s.returned != {} ==> !Enabled(s, Add(r))
  {
    InvHolds(acts);
  }

  /**
   Over every interleaving of requests and Close calls: the transports are released at most once, and exactly once
   by the time any Close returns; and a tracked request is still running after the release only if the deadline of
   some Close passed.
   */
  lemma {:induction false} ReleasedOnceAndDrained(acts: seq<Action>)
    ensures var s := Exec(acts);
            && s.releases <= 1
            && (s.returned != {} ==> s.releases == 1)
            && s.inflight == |Tracked(s)|
            && (s.releases == 1 && Tracked(s) != {} ==> s.deadlinePassed)
  {
    InvHolds(acts);
    var s := Exec(acts);
    if Tracked(s) != {} {
      var r :| r in Tracked(s);
      assert |Tracked(s)| == |Tracked(s) - {r}| + 1;
    }
  }

  /** A request that reads `closing` before any Close sets it is admitted. */
  lemma {:induction false} AdmittedWhileOpen(acts: seq<Action>, r: Id)
    requires !Exec(acts).closing && r in Exec(acts).locked
    ensures var s' := Exec(acts + [ReadClosing(r)]); s'.refused == {} && r in s'.cleared
  {
    InvHolds(acts);
    assert (acts + [ReadClosing(r)])[..|acts|] == acts;
  }

  /** Refusals happen only after `closing` is set. */
  lemma {:induction false} RefusedOnlyWhenClosing(acts: seq<Action>)
    ensures Exec(acts).refused != {} ==> Exec(acts).closing
  {
    InvHolds(acts);
  }

  /** How far a request is from its end. */
  function Ahead(s: State, r: Id): nat {
    if r in s.locked then 4 else if r in s.cleared then 3 else if r in s.added then 2
    else if r in s.running || r in s.refused then 1 else 0
  }

  /** Every request can always go on, and its next step brings it nearer to its end. */
  lemma {:induction false} RequestsGoOn(acts: seq<Action>, r: Id) returns (a: Action)
    requires r in Requests(Exec(acts))
    ensures var s := Exec(acts); Enabled(s, a) && Ahead(Apply(s, a), r) < Ahead(s, r)
  {
    hide Exec;
    InvHolds(acts);
    var s := Exec(acts);
    a := if r in s.locked then ReadClosing(r) else if r in s.cleared then Add(r) else if r in s.added then RUnlock(r)
         else if r in s.running then Done(r) else Refuse(r);
  }

  /** A Close can go on unless it waits while requests are tracked; it can return as soon as they are done. */
  lemma {:induction false} CloseGoesOn(acts: seq<Action>, c: Id)
    ensures var s := Exec(acts);
            && (c in s.writer ==> Enabled(s, SetClosing(c)) && Enabled(Apply(s, SetClosing(c)), Unlock(c)))
            && (c in s.waiting ==> (Enabled(s, WaitReturns(c)) <==> Tracked(s) == {}))
            && (c in s.drained + s.expired ==> Enabled(s, Release(c)) && c in Apply(s, Release(c)).returned)
  {
    hide Exec;
    InvHolds(acts);
  }
}
