/**
 When does the expiry that the script puts on its key change a decision?

 Redis may drop the key at any moment from its expiry instant on.  `ExpiringRun` is a run in which it does so
 at marked calls; `TokenBucket.Run` is the same run on a key that never expires.  `InvisibleIff` gives the exact
 condition on rate, capacity and TTL under which the two reply alike on every run.
 */
module BucketExpiry {
  import opened Arithmetic
  import opened Options
  import opened TokenBucket

  /** A call at `now`; `dropped` says that Redis had removed the key by then. */
  datatype Event = Event(now: int, dropped: bool)

  function Survivor(k: Key, e: Event): Key {
    if e.dropped then Absent else k
  }

  function ExpiringRun(k: Key, p: Params, evs: seq<Event>): (res: (Key, seq<Reply>))
    ensures |res.1| == |evs|
  {
    if |evs| == 0 then (k, [])
    else
      var (k1, rs) := ExpiringRun(k, p, evs[..|evs| - 1]);
      var e := evs[|evs| - 1];
      var (k2, r) := Script(Survivor(k1, e), p, e.now);
      (k2, rs + [r])
  }

  function Calls(p: Params, evs: seq<Event>): (calls: seq<Call>)
    ensures |calls| == |evs|
    ensures forall i :: 0 <= i < |evs| ==> calls[i] == Call(p, evs[i].now)
  {
    seq(|evs|, i requires 0 <= i < |evs| => Call(p, evs[i].now))
  }

  ghost predicate MayDrop(k: Key, now: int) {
    k.Present? && k.expireAt.Some? && now >= k.expireAt.value * 1_000_000
  }

  ghost predicate DropsAreDue(p: Params, evs: seq<Event>) {
    forall i :: 0 <= i < |evs| && evs[i].dropped ==> MayDrop(ExpiringRun(Absent, p, evs[..i]).0, evs[i].now)
  }

  /** A clock that never goes back and reads more than half a TTL past 1970; keys dropped only when due. */
  ghost predicate Legal(p: Params, evs: seq<Event>) {
    && (forall i :: 0 <= i < |evs| ==> evs[i].now > HalfTtl(p))
    && (forall i, j :: 0 <= i < j < |evs| ==> evs[i].now <= evs[j].now)
    && DropsAreDue(p, evs)
  }

  ghost predicate SameReplies(p: Params, evs: seq<Event>) {
    ExpiringRun(Absent, p, evs).1 == Run(Absent, Calls(p, evs)).1
  }

  ghost predicate Invisible(p: Params) {
    forall evs :: Legal(p, evs) ==> SameReplies(p, evs)
  }

  /** The shortest time, in microseconds, from a key's last access to its expiry: half the TTL less 999999. */
  function Gap(p: Params): int {
    HalfTtl(p) - 999_999
  }

  function Gain(p: Params, micros: int): real {
    p.rate * (micros as real)
  }

  /** The bucket refills completely within the shortest idle time that can lose the key. */
  ghost predicate Refills(p: Params) {
    Gain(p, Gap(p)) >= p.burst as real
  }

  /**
   The one other way for expiry to be invisible: capacity 1, refilled just after half a TTL, so that every
   admission refreshes the expiry and nothing else is admitted before the next refresh.
   */
  ghost predicate Lockstep(p: Params) {
    && p.burst == 1
    && Gain(p, HalfTtl(p)) < 1.0 <= Gain(p, HalfTtl(p) + 1)
    && Gain(p, HalfTtl(p) + Gap(p)) >= 1.0
  }

  ghost predicate Sane(p: Params) {
    p.rate > 0.0 && p.burst >= 1 && p.ttl >= 2
  }

  lemma {:induction false} GainAdds(p: Params, a: int, b: int)
    ensures Gain(p, a + b) == Gain(p, a) + Gain(p, b)
  {
    assert (a + b) as real == a as real + b as real;
    Distribute(p.rate, a as real, b as real);
  }

  lemma {:induction false} GainOrder(p: Params, a: int, b: int)
    requires p.rate > 0.0
    ensures Gain(p, a) <= Gain(p, b) <==> a <= b
  {
    MulOrder(p.rate, a as real, b as real);
  }

  lemma {:induction false} LevelIs(k: Key, p: Params, now: int)
    requires p.rate > 0.0
    ensures k.Present? && now >= k.hash.last ==>
              Level(k, p, now) == MinReal(p.burst as real, k.hash.tokens + Gain(p, now - k.hash.last))
    ensures k.Absent? ==> Level(k, p, now) == p.burst as real
  {
    MulMono(p.rate, 0.0, Elapsed(k, now) as real);
  }

  /** Two keys at the same level get the same reply and keep the same tokens. */
  lemma {:induction false} SameLevel(k: Key, k': Key, p: Params, now: int)
    requires p.rate > 0.0 && Level(k, p, now) == Level(k', p, now)
    ensures Script(k, p, now).1 == Script(k', p, now).1
    ensures Script(k, p, now).0.Present? && Script(k', p, now).0.Present?
    ensures Script(k, p, now).0.hash.tokens == Script(k', p, now).0.hash.tokens
  {
    hide Level, Ceil;
  }

  lemma {:induction false} ExpiryEffect(k: Key, p: Params, now: int)
    requires p.rate > 0.0
    ensures var k' := Script(k, p, now).0;
            k'.Present? && if NeedsExpire(k, p, now)
            then k'.hash.lastExpire == now && k'.expireAt == Some(now / 1_000_000 + p.ttl)
            else k'.hash.lastExpire == LastExpire(k) && k'.expireAt == (if k.Present? then k.expireAt else None)
  {
    hide Level, Ceil;
  }

  // ---------------------------------------------------------------- expiry is invisible

  /** The expiry always stands where the last refresh put it, and the last access is at most half a TTL later. */
  ghost predicate Kept(k: Key, p: Params) {
    && k.Present?
    && k.expireAt == Some(k.hash.lastExpire / 1_000_000 + p.ttl)
    && k.hash.lastExpire <= k.hash.last <= k.hash.lastExpire + HalfTtl(p)
  }

  lemma {:induction false} KeptStep(k: Key, p: Params, now: int)
    requires Sane(p) && now > HalfTtl(p)
    requires k.Absent? || (Kept(k, p) && now >= k.hash.last)
    ensures Kept(Script(k, p, now).0, p)
  {
    hide Script, Level, Ceil;
    StepEffect(k, p, now);
    ExpiryEffect(k, p, now);
  }

  /** A key is never dropped sooner than half a TTL less 999999 microseconds after its last access. */
  lemma {:induction false} NotDroppedBefore(k: Key, p: Params, now: int)
    requires Kept(k, p) && MayDrop(k, now)
    ensures now >= k.hash.last + Gap(p)
    ensures now >= k.hash.lastExpire + HalfTtl(p) + Gap(p)
  {
    assert k.hash.lastExpire / 1_000_000 * 1_000_000 >= k.hash.lastExpire - 999_999;
  }

  /** Same bucket content; only the expiry bookkeeping may differ. */
  ghost predicate Synced(kx: Key, kn: Key, p: Params) {
    && Kept(kx, p) && kn.Present?
    && kx.hash.last == kn.hash.last
    && kx.hash.tokens == kn.hash.tokens >= 0.0
    && (Lockstep(p) ==> kx.hash.tokens == Gain(p, kx.hash.last - kx.hash.lastExpire))
  }

  lemma {:induction false} SyncedLevels(kx: Key, kn: Key, p: Params, e: Event)
    requires Sane(p) && (Refills(p) || Lockstep(p)) && Synced(kx, kn, p)
    requires e.now >= kx.hash.last && (e.dropped ==> MayDrop(kx, e.now))
    ensures Level(Survivor(kx, e), p, e.now) == Level(kn, p, e.now)
  {
    hide Level, Gain;
    LevelIs(kx, p, e.now);
    LevelIs(kn, p, e.now);
    LevelIs(Absent, p, e.now);
    if e.dropped {
      NotDroppedBefore(kx, p, e.now);
      if Refills(p) {
        GainOrder(p, Gap(p), e.now - kn.hash.last);
      } else {
        GainAdds(p, kx.hash.last - kx.hash.lastExpire, e.now - kx.hash.last);
        GainOrder(p, HalfTtl(p) + Gap(p), e.now - kx.hash.lastExpire);
      }
    }
  }

  /** In lockstep a refresh always admits and anything else is denied. */
  lemma {:induction false} LockstepStep(k: Key, p: Params, now: int)
    requires Sane(p) && Lockstep(p) && now > HalfTtl(p)
    requires k.Absent? || (Kept(k, p) && now >= k.hash.last && k.hash.tokens == Gain(p, k.hash.last - k.hash.lastExpire))
    ensures var k' := Script(k, p, now).0;
            k'.Present? && k'.hash.tokens == Gain(p, k'.hash.last - k'.hash.lastExpire)
  {
    hide Script, Level, Ceil, Gain;
    StepEffect(k, p, now);
    ExpiryEffect(k, p, now);
    LevelIs(k, p, now);
    GainAdds(p, 0, 0);
    if k.Present? {
      GainAdds(p, k.hash.last - k.hash.lastExpire, now - k.hash.last);
      GainOrder(p, HalfTtl(p) + 1, now - k.hash.lastExpire);
      GainOrder(p, now - k.hash.lastExpire, HalfTtl(p));
    }
  }

  lemma {:induction false} SyncedStep(kx: Key, kn: Key, p: Params, e: Event)
    requires Sane(p) && (Refills(p) || Lockstep(p)) && e.now > HalfTtl(p)
    requires (kx.Absent? && kn.Absent? && !e.dropped)
             || (Synced(kx, kn, p) && e.now >= kx.hash.last && (e.dropped ==> MayDrop(kx, e.now)))
    ensures Script(Survivor(kx, e), p, e.now).1 == Script(kn, p, e.now).1
    ensures Synced(Script(Survivor(kx, e), p, e.now).0, Script(kn, p, e.now).0, p)
    ensures Script(kn, p, e.now).0.hash.last == e.now
  {
    hide Script, Level, Ceil, Gain;
    var k0 := Survivor(kx, e);
    if kx.Present? {
      SyncedLevels(kx, kn, p, e);
    }
    SameLevel(k0, kn, p, e.now);
    KeptStep(k0, p, e.now);
    if Lockstep(p) {
      LockstepStep(k0, p, e.now);
    }
    StepEffect(k0, p, e.now);
    StepEffect(kn, p, e.now);
    LevelInRange(kn, p, e.now);
  }

  lemma {:induction false} InvisibleRun(p: Params, evs: seq<Event>)
    requires Sane(p) && (Refills(p) || Lockstep(p)) && Legal(p, evs)
    ensures SameReplies(p, evs)
    ensures var kx, kn := ExpiringRun(Absent, p, evs).0, Run(Absent, Calls(p, evs)).0;
            if evs == [] then kx.Absent? && kn.Absent?
            else Synced(kx, kn, p) && kn.hash.last == evs[|evs| - 1].now
  {
    hide Script, Synced, Refills, Lockstep, MayDrop;
    var n := |evs|;
    if n > 0 {
      var earlier := evs[..n - 1];
      assert DropsAreDue(p, earlier) by {
        forall i | 0 <= i < n - 1 && earlier[i].dropped
          ensures MayDrop(ExpiringRun(Absent, p, earlier[..i]).0, earlier[i].now)
        {
          assert earlier[..i] == evs[..i];
        }
      }
      InvisibleRun(p, earlier);
      assert Calls(p, evs)[..n - 1] == Calls(p, earlier);
      AbsentCannotDrop(p, evs);
      SyncedImpliesSameLast(ExpiringRun(Absent, p, earlier).0, Run(Absent, Calls(p, earlier)).0, p);
      SyncedStep(ExpiringRun(Absent, p, earlier).0, Run(Absent, Calls(p, earlier)).0, p, evs[n - 1]);
    }
  }

  lemma {:induction false} SyncedImpliesSameLast(kx: Key, kn: Key, p: Params)
    ensures Synced(kx, kn, p) ==> kx.Present? && kn.Present? && kx.hash.last == kn.hash.last
  {
    hide Gain;
  }

  lemma {:induction false} AbsentCannotDrop(p: Params, evs: seq<Event>)
    requires Legal(p, evs)
    ensures |evs| == 1 ==> !evs[0].dropped
  {
    hide Script;
    if |evs| == 1 {
      assert evs[..0] == [];
    }
  }

  // ---------------------------------------------------------------- expiry is visible

  /** Calls at one instant share out what is there: admitted plus left is exactly the level they found. */
  lemma {:induction false} OneInstant(k: Key, p: Params, t: int, n: nat)
    requires p.rate > 0.0 && p.burst >= 1 && Solvent(k) && n >= 1
    ensures var (k', rs) := Run(k, Polls(p, Repeat(t, n)));
            && k'.Present? && k'.hash.last == t && k'.hash.tokens >= 0.0
            && Admitted(rs) as real + k'.hash.tokens == Level(k, p, t)
            && (n as real <= Level(k, p, t) ==> Admitted(rs) == n)
            && (k.Present? && !NeedsExpire(k, p, t) ==> k'.expireAt == k.expireAt && k'.hash.lastExpire == k.hash.lastExpire)
            && (NeedsExpire(k, p, t) && p.ttl >= 0 ==> k'.expireAt == Some(t / 1_000_000 + p.ttl) && k'.hash.lastExpire == t)
  {
    hide Script, Level, Ceil;
    var calls := Polls(p, Repeat(t, n));
    var earlier := Polls(p, Repeat(t, n - 1));
    assert calls == earlier + [Call(p, t)];
    RunAppend(k, earlier, Call(p, t));
    var (k1, rs) := Run(k, earlier);
    var r := Script(k1, p, t).1;
    assert (rs + [r])[..n - 1] == rs;
    StepEffect(k1, p, t);
    ExpiryEffect(k1, p, t);
    LevelInRange(k, p, t);
    if n > 1 {
      OneInstant(k, p, t, n - 1);
      SameInstantLevel(k, k1, p, t);
    } else {
      assert earlier == [];
      assert rs == [];
    }
  }

  lemma {:induction false} SameInstantLevel(k: Key, k1: Key, p: Params, t: int)
    requires p.rate > 0.0 && k1.Present? && k1.hash.last == t && k1.hash.tokens <= p.burst as real
    ensures Level(k1, p, t) == k1.hash.tokens
  {
    LevelIs(k1, p, t);
  }

  function Undropped(nows: seq<int>): (evs: seq<Event>)
    ensures |evs| == |nows|
    ensures forall i :: 0 <= i < |nows| ==> evs[i] == Event(nows[i], false)
  {
    seq(|nows|, i requires 0 <= i < |nows| => Event(nows[i], false))
  }

  lemma {:induction false} UndroppedRun(k: Key, p: Params, nows: seq<int>)
    ensures ExpiringRun(k, p, Undropped(nows)) == Run(k, Polls(p, nows))
  {
    hide Script;
    var n := |nows|;
    if n > 0 {
      UndroppedRun(k, p, nows[..n - 1]);
      assert Undropped(nows)[..n - 1] == Undropped(nows[..n - 1]);
      assert Polls(p, nows)[..n - 1] == Polls(p, nows[..n - 1]);
    }
  }

  lemma {:induction false} ExpiringAppend(k: Key, p: Params, evs: seq<Event>, e: Event)
    ensures var (k1, rs) := ExpiringRun(k, p, evs);
            var (k2, r) := Script(Survivor(k1, e), p, e.now);
            ExpiringRun(k, p, evs + [e]) == (k2, rs + [r])
  {
    hide Script;
    assert (evs + [e])[..|evs|] == evs;
  }

  /** A run in which the key is lost just before the first of `n` calls at `t`. */
  function Dropping(pre: seq<int>, t: int, n: nat): seq<Event>
    requires n >= 1
  {
    if n == 1 then Undropped(pre) + [Event(t, true)] else Dropping(pre, t, n - 1) + [Event(t, false)]
  }

  /** After the drop the run goes on as from a fresh key. */
  lemma {:induction false} DroppedRun(p: Params, pre: seq<int>, t: int, n: nat)
    requires n >= 1
    ensures ExpiringRun(Absent, p, Dropping(pre, t, n)).1
            == Run(Absent, Polls(p, pre)).1 + Run(Absent, Polls(p, Repeat(t, n))).1
    ensures ExpiringRun(Absent, p, Dropping(pre, t, n)).0 == Run(Absent, Polls(p, Repeat(t, n))).0
  {
    hide Script, Run, ExpiringRun;
    var fresh_ := Polls(p, Repeat(t, n - 1));
    assert Polls(p, Repeat(t, n)) == fresh_ + [Call(p, t)];
    RunAppend(Absent, fresh_, Call(p, t));
    var before := Run(Absent, Polls(p, pre)).1;
    if n == 1 {
      ExpiringAppend(Absent, p, Undropped(pre), Event(t, true));
      UndroppedRun(Absent, p, pre);
      EmptyRun(Absent);
      assert fresh_ == [];
    } else {
      ExpiringAppend(Absent, p, Dropping(pre, t, n - 1), Event(t, false));
      DroppedRun(p, pre, t, n - 1);
      var (k1, rs) := Run(Absent, fresh_);
      assert before + rs + [Script(k1, p, t).1] == before + (rs + [Script(k1, p, t).1]);
    }
  }

  lemma {:induction false} EmptyRun(k: Key)
    ensures Run(k, []) == (k, [])
  {
  }

  lemma {:induction false} DroppingShape(pre: seq<int>, t: int, n: nat)
    requires n >= 1
    ensures var evs := Dropping(pre, t, n);
            && |evs| == |pre| + n && evs[..|pre|] == Undropped(pre)
            && (forall i :: 0 <= i < |pre| ==> evs[i].now == pre[i])
            && (forall i :: |pre| <= i < |evs| ==> evs[i].now == t)
            && (forall i :: 0 <= i < |evs| ==> (evs[i].dropped <==> i == |pre|))
  {
    if n > 1 {
      DroppingShape(pre, t, n - 1);
    }
  }

  /** A history that leaves the bucket short of full when its key expires exposes the expiry. */
  lemma {:induction false} Exposed(p: Params, pre: seq<int>)
    requires Sane(p) && |pre| > 0
    requires (forall i :: 0 <= i < |pre| ==> pre[i] > HalfTtl(p)) && (forall i, j :: 0 <= i < j < |pre| ==> pre[i] <= pre[j])
    requires var k := Run(Absent, Polls(p, pre)).0;
             && k.Present? && k.hash.last == pre[|pre| - 1] && k.expireAt.Some? && k.hash.tokens >= 0.0
             && k.expireAt.value * 1_000_000 >= k.hash.last
             && Level(k, p, k.expireAt.value * 1_000_000) < p.burst as real
    ensures !Invisible(p)
  {
    hide Script, Level, Ceil, Run, ExpiringRun, SameReplies;
    var k := Run(Absent, Polls(p, pre)).0;
    var t := k.expireAt.value * 1_000_000;
    var evs := Dropping(pre, t, p.burst);
    DroppingShape(pre, t, p.burst);
    UndroppedRun(Absent, p, pre);
    assert DropsAreDue(p, evs);
    assert Legal(p, evs);
    RepliesDiffer(p, pre, t);
  }

  lemma {:induction false} RepliesDiffer(p: Params, pre: seq<int>, t: int)
    requires Sane(p)
    requires var k := Run(Absent, Polls(p, pre)).0;
             Solvent(k) && Level(k, p, t) < p.burst as real
    ensures !SameReplies(p, Dropping(pre, t, p.burst))
  {
    hide Script, Level, Ceil, Run, ExpiringRun;
    var k := Run(Absent, Polls(p, pre)).0;
    var evs := Dropping(pre, t, p.burst);
    var post := Polls(p, Repeat(t, p.burst));
    DroppingShape(pre, t, p.burst);
    DroppedRun(p, pre, t, p.burst);
    OneInstant(Absent, p, t, p.burst);
    LevelIs(Absent, p, t);
    OneInstant(k, p, t, p.burst);
    RunSplit(Absent, Calls(p, evs), |pre|);
    assert Calls(p, evs)[..|pre|] == Polls(p, pre) && Calls(p, evs)[|pre|..] == post;
    var common := Run(Absent, Polls(p, pre)).1;
    assert (common + Run(Absent, post).1)[|pre|..] == Run(Absent, post).1;
    assert (common + Run(k, post).1)[|pre|..] == Run(k, post).1;
  }

  /** A first call time just short of a full second, so that rounding down costs the key 999999 microseconds. */
  function Start(p: Params): int {
    p.ttl * 1_000_000 - 1
  }

  lemma {:induction false} StartExpires(p: Params)
    ensures (Start(p) / 1_000_000 + p.ttl) * 1_000_000 == Start(p) + HalfTtl(p) + Gap(p)
  {
  }

  /** Empty the bucket in one instant and stay away until the key expires. */
  lemma {:induction false} ExposedByIdling(p: Params)
    requires Sane(p) && Gain(p, HalfTtl(p) + Gap(p)) < p.burst as real
    ensures !Invisible(p)
  {
    hide Run, Level, Gain;
    var pre := Repeat(Start(p), p.burst);
    var k := Run(Absent, Polls(p, pre)).0;
    OneInstant(Absent, p, Start(p), p.burst);
    LevelIs(Absent, p, Start(p));
    StartExpires(p);
    LevelIs(k, p, Start(p) + HalfTtl(p) + Gap(p));
    Exposed(p, pre);
  }

  lemma {:induction false} OneMore(k: Key, p: Params, t: int)
    ensures Run(k, Polls(p, [t])).0 == Script(k, p, t).0
  {
    hide Script;
    RunAppend(k, [], Call(p, t));
    assert [] + [Call(p, t)] == Polls(p, [t]);
  }

  lemma {:induction false} ThenMore(p: Params, a: seq<int>, b: seq<int>)
    ensures Run(Absent, Polls(p, a + b)).0 == Run(Run(Absent, Polls(p, a)).0, Polls(p, b)).0
  {
    hide Run;
    RunSplit(Absent, Polls(p, a + b), |a|);
    assert Polls(p, a + b)[..|a|] == Polls(p, a) && Polls(p, a + b)[|a|..] == Polls(p, b);
  }

  /** Refresh the expiry, empty the bucket half a TTL later without refreshing it, and stay away. */
  lemma {:induction false} ExposedByLateBurst(p: Params)
    requires Sane(p) && Gain(p, HalfTtl(p)) >= 1.0 && Gain(p, Gap(p)) < p.burst as real
    ensures !Invisible(p)
  {
    hide Run, Level, Gain, Script, Ceil;
    var t0 := Start(p);
    var t1 := t0 + HalfTtl(p);
    var k0 := Script(Absent, p, t0).0;
    StepEffect(Absent, p, t0);
    ExpiryEffect(Absent, p, t0);
    LevelIs(Absent, p, t0);
    LevelIs(k0, p, t1);
    var pre := [t0] + Repeat(t1, p.burst);
    OneMore(Absent, p, t0);
    ThenMore(p, [t0], Repeat(t1, p.burst));
    OneInstant(k0, p, t1, p.burst);
    var k := Run(Absent, Polls(p, pre)).0;
    StartExpires(p);
    LevelIs(k, p, t1 + Gap(p));
    Exposed(p, pre);
  }

  /** Capacity 1: a denied call refreshes the expiry, and the token is taken half a TTL after that. */
  lemma {:induction false} ExposedByDeniedRefresh(p: Params)
    requires Sane(p) && p.burst == 1 && Gain(p, HalfTtl(p) + 1) < 1.0 <= Gain(p, HalfTtl(p) + Gap(p))
    ensures !Invisible(p)
  {
    hide Run, Level, Gain, Script, Ceil;
    var t1 := Start(p) + p.ttl * 1_000_000;
    var t0 := t1 - HalfTtl(p) - 1;
    var t2 := t1 + HalfTtl(p);
    var k0 := Script(Absent, p, t0).0;
    var k1 := Script(k0, p, t1).0;
    var k2 := Script(k1, p, t2).0;
    StepEffect(Absent, p, t0);  ExpiryEffect(Absent, p, t0);  LevelIs(Absent, p, t0);
    StepEffect(k0, p, t1);      ExpiryEffect(k0, p, t1);      LevelIs(k0, p, t1);
    StepEffect(k1, p, t2);      ExpiryEffect(k1, p, t2);      LevelIs(k1, p, t2);
    GainAdds(p, HalfTtl(p) + 1, HalfTtl(p));
    GainOrder(p, HalfTtl(p) + Gap(p), HalfTtl(p) + 1 + HalfTtl(p));
    GainOrder(p, HalfTtl(p) + 1, Gap(p));
    OneMore(Absent, p, t0);
    ThenMore(p, [t0], [t1]);
    ThenMore(p, [t0, t1], [t2]);
    OneMore(k0, p, t1);
    OneMore(k1, p, t2);
    assert [t0] + [t1] == [t0, t1] && [t0, t1] + [t2] == [t0, t1, t2];
    LevelIs(k2, p, t2 + Gap(p));
    Exposed(p, [t0, t1, t2]);
  }

  /**
   The expiring bucket replies on every run exactly like one that never expires, if and only if the bucket
   refills within the shortest idle time that can lose the key (or runs in lockstep with its refreshes).
   */
  lemma {:induction false} InvisibleIff(p: Params)
    requires Sane(p)
    ensures Invisible(p) <==> Refills(p) || Lockstep(p)
  {
    if Refills(p) || Lockstep(p) {
      forall evs | Legal(p, evs)
        ensures SameReplies(p, evs)
      {
        InvisibleRun(p, evs);
      }
    } else {
      Visible(p);
    }
  }

  lemma {:induction false} Visible(p: Params)
    requires Sane(p) && !Refills(p) && !Lockstep(p)
    ensures !Invisible(p)
  {
    hide Gain, Invisible;
    if Gain(p, HalfTtl(p) + Gap(p)) < p.burst as real {
      ExposedByIdling(p);
    } else if Gain(p, HalfTtl(p)) >= 1.0 {
      ExposedByLateBurst(p);
    } else {
      GainAdds(p, HalfTtl(p), Gap(p));
      GainOrder(p, HalfTtl(p), Gap(p));
      assert p.burst == 1;
      ExposedByDeniedRefresh(p);
    }
  }
}
