/**
 The emitter's wakeup protocol (internal/events/emitter.go): many Emit calls, one flusher, a one-slot channel.

 Goroutines are interleaved atomic steps: Emit's locked part and its send are separate, and so are the
 flusher's receive, each drain, and its return to the select.  An action that is not enabled leaves the state alone,
 so every sequence of actions is a run and every run is one.
 */
module EmitterWakeup {
  import R = EventRing

  datatype Flusher = Selecting | Flushing | SawEmpty | Exited

  datatype Closer = Open | DoneClosed | FinalFlush | Closed

  /** `signalling` counts the Emit calls that have unlocked with a batch in the ring and not yet sent. */
  datatype State = State(len: nat, slot: bool, signalling: nat, flusher: Flusher, closer: Closer)

  datatype Action =
    | EmitLocked | EmitSend
    | Receive | Tick | DrainBatch | DrainNothing | Return
    | CloseDone | Exit | StartFinal | FinalDrain | FinalDone

  const INIT := State(0, false, 0, Selecting, Open)

  predicate Enabled(s: State, a: Action) {
    match a
    case EmitLocked => true
    case EmitSend => s.signalling > 0
    case Receive => s.flusher.Selecting? && s.slot
    case Tick => s.flusher.Selecting?
    case DrainBatch => s.flusher.Flushing? && s.len > 0
    case DrainNothing => s.flusher.Flushing? && s.len == 0
    case Return => s.flusher.SawEmpty?
    case CloseDone => s.closer.Open?
    case Exit => s.flusher.Selecting? && !s.closer.Open?
    case StartFinal => s.closer.DoneClosed? && s.flusher.Exited?
    case FinalDrain => s.closer.FinalFlush? && s.len > 0
    case FinalDone => s.closer.FinalFlush? && s.len == 0
  }

  function Less(len: nat, batch: nat): nat {
    if len > batch then len - batch else 0
  }

  function Apply(s: State, a: Action, size: nat, batch: nat): State {
    if !Enabled(s, a) then s
    else match a
      case EmitLocked =>
        var len := if s.len >= size then s.len else s.len + 1;
        s.(len := len, signalling := if len >= batch then s.signalling + 1 else s.signalling)
      case EmitSend => s.(signalling := s.signalling - 1, slot := true)
      case Receive => s.(slot := false, flusher := Flushing)
      case Tick => s.(flusher := Flushing)
      case DrainBatch => s.(len := Less(s.len, batch))
      case DrainNothing => s.(flusher := SawEmpty)
      case Return => s.(flusher := Selecting)
      case CloseDone => s.(closer := DoneClosed)
      case Exit => s.(flusher := Exited)
      case StartFinal => s.(closer := FinalFlush)
      case FinalDrain => s.(len := Less(s.len, batch))
      case FinalDone => s.(closer := Closed)
  }

  function Exec(acts: seq<Action>, size: nat, batch: nat): State {
    if |acts| == 0 then INIT else Apply(Exec(acts[..|acts| - 1], size, batch), acts[|acts| - 1], size, batch)
  }

  /** Someone is bound to look at the ring again. */
  predicate Awake(s: State) {
    s.slot || s.signalling > 0 || s.flusher.Flushing? || s.closer.FinalFlush?
  }

  predicate Inv(s: State, size: nat, batch: nat) {
    && s.len <= size
    && (s.len >= batch ==> Awake(s))
    && (s.flusher.Exited? ==> !s.closer.Open?)
    && (s.closer.FinalFlush? || s.closer.Closed? ==> s.flusher.Exited?)
  }

  /**
   No lost wakeup: in every interleaving, whenever the ring holds at least a batch, the slot is full, or some
   Emit is between unlocking and sending, or a flush is running that has not yet seen an empty ring.
   */
  lemma {:induction false} NoLostWakeup(acts: seq<Action>, size: nat, batch: nat)
    requires size >= 1 && batch >= 1
    ensures var s := Exec(acts, size, batch);
            Inv(s, size, batch) && (s.len >= batch ==> Awake(s))
  {
    if |acts| == 0 {
    } else {
      NoLostWakeup(acts[..|acts| - 1], size, batch);
    }
  }

  /** The steps a batch is waiting for: no new event, no timer, no shutdown. */
  predicate Internal(a: Action) {
    a.EmitSend? || a.Receive? || a.DrainBatch? || a.DrainNothing? || a.Return?
  }

  function Rank(s: State): nat {
    6 * s.signalling + (if s.slot then 4 else 0) + s.len
    + match s.flusher { case Flushing => 3 case SawEmpty => 1 case _ => 0 }
  }

  /**
   A batch never gets stuck: in every reachable state of a running emitter that holds one, some internal step is
   enabled.
   */
  lemma {:induction false} BatchMovesOn(acts: seq<Action>, size: nat, batch: nat) returns (a: Action)
    requires size >= 1 && batch >= 1
    ensures var s := Exec(acts, size, batch);
            s.len >= batch && s.closer.Open? ==> Internal(a) && Enabled(s, a)
  {
    NoLostWakeup(acts, size, batch);
    var s := Exec(acts, size, batch);
    a := if s.signalling > 0 then EmitSend
         else match s.flusher
           case Flushing => if s.len > 0 then DrainBatch else DrainNothing
           case SawEmpty => Return
           case _ => Receive;
  }

  lemma {:induction false} InternalStepsEnd(s: State, a: Action, size: nat, batch: nat)
    requires batch >= 1 && Internal(a) && Enabled(s, a)
    ensures Rank(Apply(s, a, size, batch)) < Rank(s)
  {
  }

  /** Enabled internal steps only. */
  ghost predicate InternalRun(acts: seq<Action>, more: seq<Action>, size: nat, batch: nat) {
    forall i :: 0 <= i < |more| ==> Internal(more[i]) && Enabled(Exec(acts + more[..i], size, batch), more[i])
  }

  lemma {:induction false} InternalRunEnds(acts: seq<Action>, more: seq<Action>, size: nat, batch: nat)
    requires batch >= 1 && InternalRun(acts, more, size, batch)
    ensures var s, s' := Exec(acts, size, batch), Exec(acts + more, size, batch);
            |more| + Rank(s') <= Rank(s) && s'.closer == s.closer
  {
    hide Rank, Enabled, Exec, Apply;
    var n := |more|;
    if n == 0 {
      assert acts + more == acts;
    } else {
      var init, a := more[..n - 1], more[n - 1];
      forall i | 0 <= i < |init| ensures Internal(init[i]) && Enabled(Exec(acts + init[..i], size, batch), init[i]) {
        assert init[..i] == more[..i];
      }
      InternalRunEnds(acts, init, size, batch);
      assert Enabled(Exec(acts + more[..n - 1], size, batch), a);
      InternalStepsEnd(Exec(acts + init, size, batch), a, size, batch);
      ExecNext(acts + init, a, size, batch);
      assert acts + init + [a] == acts + more;
    }
  }

  lemma {:induction false} ExecNext(acts: seq<Action>, a: Action, size: nat, batch: nat)
    ensures Exec(acts + [a], size, batch) == Apply(Exec(acts, size, batch), a, size, batch)
    ensures Internal(a) ==> Exec(acts + [a], size, batch).closer == Exec(acts, size, batch).closer
  {
    assert (acts + [a])[..|acts|] == acts;
  }

  /**
   Without the timer, the ring still falls below a batch: from any reachable state of a running emitter, enabled internal
   steps run out after at most `Rank` of them, and when none is left the ring holds less than a batch.
   */
  lemma {:induction false} RingFallsBelowBatch(acts: seq<Action>, more: seq<Action>, size: nat, batch: nat)
    requires size >= 1 && batch >= 1 && InternalRun(acts, more, size, batch) && Exec(acts, size, batch).closer.Open?
    ensures |more| <= Rank(Exec(acts, size, batch))
    ensures var s := Exec(acts + more, size, batch);
            (forall a :: Internal(a) ==> !Enabled(s, a)) ==> s.len < batch
  {
    hide Exec, Rank;
    InternalRunEnds(acts, more, size, batch);
    var a := BatchMovesOn(acts + more, size, batch);
  }

  // ---------------------------------------------------------------- the ring behind the protocol

  /** What the locked steps of a run do to the ring; an event is its position in the run. */
  function Ops(acts: seq<Action>, size: nat, batch: nat): seq<R.Op<nat>> {
    if |acts| == 0 then []
    else
      var init, a := acts[..|acts| - 1], acts[|acts| - 1];
      var ops := Ops(init, size, batch);
      if !Enabled(Exec(init, size, batch), a) then ops
      else if a.EmitLocked? then ops + [R.Emit(|init|)]
      else if a.DrainBatch? || a.FinalDrain? then ops + [R.Drain]
      else ops
  }

  function Ring(acts: seq<Action>, size: nat, batch: nat): R.Log<nat> {
    R.Run(Ops(acts, size, batch), size, batch)
  }

  lemma {:induction false} NextOp(ops: seq<R.Op<nat>>, op: R.Op<nat>, size: nat, batch: nat)
    ensures R.Run(ops + [op], size, batch) == R.Step(R.Run(ops, size, batch), op, size, batch)
  {
    assert (ops + [op])[..|ops|] == ops;
  }

  /** The length that the protocol goes by is that of the ring, in every run. */
  lemma {:induction false} LenIsRing(acts: seq<Action>, size: nat, batch: nat)
    requires size >= 1 && batch >= 1
    ensures Exec(acts, size, batch).len == |Ring(acts, size, batch).queue|
  {
    hide R.Run;
    if |acts| == 0 {
      RingIsEmpty(size, batch);
    } else {
      var init, a := acts[..|acts| - 1], acts[|acts| - 1];
      LenIsRing(init, size, batch);
      NoLostWakeup(init, size, batch);
      NextOp(Ops(init, size, batch), R.Emit(|init|), size, batch);
      NextOp(Ops(init, size, batch), R.Drain, size, batch);
    }
  }

  lemma {:induction false} RingIsEmpty(size: nat, batch: nat)
    ensures R.Run<nat>([], size, batch).queue == []
  {
  }

  function Emits(acts: seq<Action>): nat {
    if |acts| == 0 then 0 else Emits(acts[..|acts| - 1]) + if acts[|acts| - 1].EmitLocked? then 1 else 0
  }

  lemma {:induction false} AllEmitted(acts: seq<Action>, size: nat, batch: nat)
    ensures |Ring(acts, size, batch).emitted| == Emits(acts)
  {
    hide R.Run;
    if |acts| == 0 {
      NothingEmitted(size, batch);
    } else {
      var init := acts[..|acts| - 1];
      AllEmitted(init, size, batch);
      NextOp(Ops(init, size, batch), R.Emit(|init|), size, batch);
      NextOp(Ops(init, size, batch), R.Drain, size, batch);
    }
  }

  lemma {:induction false} NothingEmitted(size: nat, batch: nat)
    ensures R.Run<nat>([], size, batch).emitted == []
  {
  }

  /**
   When Close is about to return, every event of every Emit so far has been handed to send or was dropped by a full ring, and
   none of them twice.
   */
  lemma {:induction false} CloseLeavesNothing(acts: seq<Action>, size: nat, batch: nat, id: nat)
    requires size >= 1 && batch >= 1 && Enabled(Exec(acts, size, batch), FinalDone)
    ensures var log := Ring(acts, size, batch);
            && |log.drained| + |log.dropped| == Emits(acts)
            && (id < Emits(acts) <==> R.Has(log.drained, id) || R.Has(log.dropped, id))
            && !(R.Has(log.drained, id) && R.Has(log.dropped, id))
  {
    hide R.Run, R.Has, Ops;
    LenIsRing(acts, size, batch);
    AllEmitted(acts, size, batch);
    R.RunKeepsLedger(Ops(acts, size, batch), size, batch);
  }
}
