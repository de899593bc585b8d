/**
 The capped map of per-tenant breakers (internal/ratelimit/external.go): any number of goroutines look up and create
 breakers while one evictor removes stale ones.

 The lookup, the cap check, LoadOrStore and the counter update of a creation are separate steps, as are the evictor's
 staleness test, its Delete and its floored decrement.  A disabled action leaves the state alone.
 */
module BreakerMap {
  import opened Options

  type Key = nat

  /** Where a goroutine is in getOrCreateCB. */
  datatype Pc = Idle | Missed(key: Key) | Passed(key: Key) | Stored

  /**
   `count` is breakerCount; `deleted` says the evictor has deleted a breaker and not yet decremented; `skips` counts the
   decrements that were floored at zero; `idle` are the breakers that have not been used for two reset timeouts, and
   `judged` is the one that the evictor has found stale and not yet deleted, whatever has happened to it since.
   */
  datatype State = State(keys: set<Key>, count: int, pcs: seq<Pc>, deleted: bool, skips: nat, idle: set<Key>,
                         judged: Option<Key>)

  datatype Action =
    | Load(g: nat, k: Key) | CheckCap(g: nat) | LoadOrStore(g: nat) | AddOne(g: nat)
    | GoIdle(k: Key) | Judge(k: Key) | Delete | Decrement

  function Init(n: nat): State {
    State({}, 0, seq(n, i => Idle), false, 0, {}, None)
  }

  predicate Enabled(s: State, a: Action) {
    match a
    case Load(g, k) => g < |s.pcs| && s.pcs[g].Idle?
    case CheckCap(g) => g < |s.pcs| && s.pcs[g].Missed?
    case LoadOrStore(g) => g < |s.pcs| && s.pcs[g].Passed?
    case AddOne(g) => g < |s.pcs| && s.pcs[g].Stored?
    case GoIdle(k) => k in s.keys
    case Judge(k) => !s.deleted && s.judged.None? && k in s.keys && k in s.idle
    case Delete => s.judged.Some?
    case Decrement => s.deleted
  }

  function Apply(s: State, a: Action, cap: nat): State {
    if !Enabled(s, a) then s
    else match a
      case Load(g, k) => if k in s.keys then s.(idle := s.idle - {k}) else s.(pcs := s.pcs[g := Missed(k)])
      case CheckCap(g) => s.(pcs := s.pcs[g := if s.count >= cap then Idle else Passed(s.pcs[g].key)])
      case LoadOrStore(g) =>
        if s.pcs[g].key in s.keys then s.(pcs := s.pcs[g := Idle])
        else s.(keys := s.keys + {s.pcs[g].key}, pcs := s.pcs[g := Stored], idle := s.idle - {s.pcs[g].key})
      case AddOne(g) => s.(count := s.count + 1, pcs := s.pcs[g := Idle])
      case GoIdle(k) => s.(idle := s.idle + {k})
      case Judge(k) => s.(judged := Some(k))
      case Delete => s.(keys := s.keys - {s.judged.value}, deleted := true, idle := s.idle - {s.judged.value}, judged := None)
      case Decrement =>
        if s.count <= 0 then s.(deleted := false, skips := s.skips + 1)
        else s.(deleted := false, count := s.count - 1)
  }

  function Exec(s: State, acts: seq<Action>, cap: nat): State {
    if |acts| == 0 then s else Apply(Exec(s, acts[..|acts| - 1], cap), acts[|acts| - 1], cap)
  }

  /** How many goroutines have stored a breaker and not counted it, or are between the cap check and the store. */
  function Uncounted(pcs: seq<Pc>): nat {
    if |pcs| == 0 then 0
    else Uncounted(pcs[..|pcs| - 1]) + if pcs[|pcs| - 1].Stored? then 1 else 0
  }

  function Past(pcs: seq<Pc>): (n: nat)
    ensures n <= |pcs|
  {
    if |pcs| == 0 then 0
    else Past(pcs[..|pcs| - 1]) + if pcs[|pcs| - 1].Stored? || pcs[|pcs| - 1].Passed? then 1 else 0
  }

  lemma {:induction false} CountsAfter(pcs: seq<Pc>, g: nat, pc: Pc)
    requires g < |pcs|
    ensures Uncounted(pcs[g := pc]) == Uncounted(pcs) - (if pcs[g].Stored? then 1 else 0) + (if pc.Stored? then 1 else 0)
    ensures Past(pcs[g := pc]) == Past(pcs) - (if pcs[g].Stored? || pcs[g].Passed? then 1 else 0)
                                  + (if pc.Stored? || pc.Passed? then 1 else 0)
  {
    var n := |pcs| - 1;
    if g == n {
      assert pcs[g := pc][..n] == pcs[..n];
    } else {
      CountsAfter(pcs[..n], g, pc);
      assert pcs[g := pc][..n] == pcs[..n][g := pc];
    }
  }

  lemma {:induction false} CountsOfIdle(n: nat)
    ensures Uncounted(seq(n, i => Idle)) == 0 && Past(seq(n, i => Idle)) == 0
  {
    if n > 0 {
      CountsOfIdle(n - 1);
      assert seq(n, i => Idle)[..n - 1] == seq(n - 1, i => Idle);
    }
  }

  function Pending(s: State): int {
    if s.deleted then 1 else 0
  }

  /**
   The books: the counter plus the breakers stored and not yet counted is the size of the map plus the pending
   decrement plus the decrements that were lost to the floor.  The cap is overshot by at most the goroutines past the
   test of it.
   */
  ghost predicate Inv(s: State, cap: nat, n: nat) {
    && |s.pcs| == n
    && s.count >= 0
    && s.count + Uncounted(s.pcs) == |s.keys| + Pending(s) + s.skips
    && s.count + Past(s.pcs) <= cap + n - 1
    && s.skips <= n
    && (s.judged.Some? ==> s.judged.value in s.keys && !s.deleted)
  }

  lemma {:induction false} StepInv(s: State, a: Action, cap: nat, n: nat)
    requires n >= 1 && cap >= 1 && Inv(s, cap, n)
    ensures Inv(Apply(s, a, cap), cap, n)
  {
    hide Uncounted, Past;
    UncountedPast(s.pcs);
    if Enabled(s, a) && !a.GoIdle? && !a.Judge? && !a.Delete? && !a.Decrement? {
      var pc := s.pcs[a.g];
      CountsAfter(s.pcs, a.g, Apply(s, a, cap).pcs[a.g]);
      if pc.Missed? {
        PastRoom(s.pcs, a.g);
      }
      assert s.pcs[a.g := pc] == s.pcs;
    }
  }

  lemma {:induction false} PastRoom(pcs: seq<Pc>, g: nat)
    requires g < |pcs| && !pcs[g].Stored? && !pcs[g].Passed?
    ensures Past(pcs) <= |pcs| - 1
  {
    var n := |pcs| - 1;
    if g < n {
      PastRoom(pcs[..n], g);
    }
  }

  lemma {:induction false} InvHolds(acts: seq<Action>, cap: nat, n: nat)
    requires n >= 1 && cap >= 1
    ensures Inv(Exec(Init(n), acts, cap), cap, n)
  {
    hide Inv, Apply;
    if |acts| == 0 {
      CountsOfIdle(n);
      InitInv(cap, n);
    } else {
      InvHolds(acts[..|acts| - 1], cap, n);
      StepInv(Exec(Init(n), acts[..|acts| - 1], cap), acts[|acts| - 1], cap, n);
    }
  }

  lemma {:induction false} InitInv(cap: nat, n: nat)
    requires n >= 1 && cap >= 1
    ensures Inv(Init(n), cap, n)
  {
    CountsOfIdle(n);
  }

  lemma {:induction false} UncountedPast(pcs: seq<Pc>)
    ensures Uncounted(pcs) <= Past(pcs)
  {
    if |pcs| == 0 {
    } else {
      UncountedPast(pcs[..|pcs| - 1]);
    }
  }

  /**
   In every interleaving of n goroutines and the evictor: the counter is never negative and the map holds at most
   cap + n - 1 breakers.
   */
  lemma {:induction false} CapHolds(acts: seq<Action>, cap: nat, n: nat)
    requires n >= 1 && cap >= 1
    ensures var s := Exec(Init(n), acts, cap);
            0 <= s.count <= cap + n - 1 && |s.keys| <= cap + n - 1
  {
    hide Exec, Apply;
    InvHolds(acts, cap, n);
    UncountedPast(Exec(Init(n), acts, cap).pcs);
  }

  /**
   When nothing is in progress the counter is the size of the map plus the floored decrements, so it is exact iff none
   was floored; it never undercounts.
   */
  lemma {:induction false} CounterDrift(acts: seq<Action>, cap: nat, n: nat)
    requires n >= 1 && cap >= 1
    ensures var s := Exec(Init(n), acts, cap);
            (forall g :: 0 <= g < n ==> |s.pcs| == n && !s.pcs[g].Stored?) && !s.deleted ==>
              s.count == |s.keys| + s.skips && (s.count == |s.keys| <==> s.skips == 0)
  {
    hide Exec, Apply;
    InvHolds(acts, cap, n);
    var s := Exec(Init(n), acts, cap);
    if forall g :: 0 <= g < n ==> !s.pcs[g].Stored? {
      NoneUncounted(s.pcs);
    }
  }

  lemma {:induction false} NoneUncounted(pcs: seq<Pc>)
    requires forall g :: 0 <= g < |pcs| ==> !pcs[g].Stored?
    ensures Uncounted(pcs) == 0
  {
    if |pcs| == 0 {
    } else {
      NoneUncounted(pcs[..|pcs| - 1]);
    }
  }

  lemma {:induction false} Three(s: State, a: Action, b: Action, c: Action, cap: nat) returns (acts: seq<Action>)
    ensures acts == [a, b, c]
    ensures Exec(s, acts, cap) == Apply(Apply(Apply(s, a, cap), b, cap), c, cap)
  {
    hide Apply;
    ExecStep(s, [], a, cap);
    ExecStep(s, [a], b, cap);
    ExecStep(s, [a, b], c, cap);
    assert [] + [a] == [a] && [a] + [b] == [a, b] && [a, b] + [c] == [a, b, c];
    acts := [a, b, c];
  }

  lemma {:induction false} ExecStep(s: State, acts: seq<Action>, a: Action, cap: nat)
    ensures Exec(s, acts + [a], cap) == Apply(Exec(s, acts, cap), a, cap)
  {
    hide Apply;
    assert (acts + [a])[..|acts|] == acts;
  }

  lemma {:induction false} ExecMore(s: State, a: seq<Action>, b: seq<Action>, cap: nat)
    ensures Exec(s, a + b, cap) == Exec(Exec(s, a, cap), b, cap)
    decreases |b|
  {
    hide Apply;
    if b == [] {
      assert a + b == a;
    } else {
      var m := |b| - 1;
      ExecMore(s, a, b[..m], cap);
      assert (a + b)[..|a + b| - 1] == a + b[..m];
    }
  }

  // ---------------------------------------------------------------- how far the counter drifts

  /** No goroutine is creating a breaker and the evictor is evicting none. */
  ghost predicate AtRest(s: State) {
    !s.deleted && s.judged.None? && forall g :: 0 <= g < |s.pcs| ==> s.pcs[g].Idle?
  }

  /** The counter is never ahead of the map by more than the number of goroutines. */
  lemma {:induction false} DriftIsBounded(acts: seq<Action>, cap: nat, n: nat)
    requires n >= 1 && cap >= 1
    ensures var s := Exec(Init(n), acts, cap);
            s.skips <= n && (AtRest(s) ==> |s.keys| <= s.count <= |s.keys| + n)
  {
    hide Exec, Apply;
    InvHolds(acts, cap, n);
    var s := Exec(Init(n), acts, cap);
    if AtRest(s) {
      NoneUncounted(s.pcs);
    }
  }

  function HeldUp(j: nat, n: nat): (pcs: seq<Pc>)
    ensures |pcs| == n && forall i :: 0 <= i < n ==> pcs[i] == if i < j then Stored else Idle
  {
    seq(n, i requires 0 <= i < n => if i < j then Stored else Idle)
  }

  /** A creator is held up until its breaker has gone idle and been evicted, and the decrement is lost to the floor. */
  lemma {:induction false} HoldOne(s: State, g: nat, cap: nat) returns (acts: seq<Action>)
    requires cap >= 1 && g < |s.pcs| && s.pcs[g].Idle? && s.keys == {} && s.count == 0 && s.idle == {}
    requires !s.deleted && s.judged.None?
    ensures Exec(s, acts, cap) == s.(pcs := s.pcs[g := Stored], skips := s.skips + 1)
  {
    hide Exec;
    var a := Three(s, Load(g, 0), CheckCap(g), LoadOrStore(g), cap);
    var t := Exec(s, a, cap);
    assert t == s.(keys := {0}, pcs := s.pcs[g := Stored]) by {
      assert s.pcs[g := Missed(0)][g := Passed(0)][g := Stored] == s.pcs[g := Stored];
      assert {} + {0} == {0} && s.idle - {0} == s.idle;
    }
    var b := Three(t, GoIdle(0), Judge(0), Delete, cap);
    var u := Exec(t, b, cap);
    assert u == t.(keys := {}, deleted := true) by {
      assert {0} - {0} == {} && {} + {0} - {0} == {};
    }
    ExecMore(s, a, b, cap);
    ExecStep(s, a + b, Decrement, cap);
    acts := a + b + [Decrement];
  }

  lemma {:induction false} HoldMany(j: nat, cap: nat, n: nat) returns (acts: seq<Action>)
    requires cap >= 1 && j <= n
    ensures Exec(Init(n), acts, cap) == Init(n).(pcs := HeldUp(j, n), skips := j)
  {
    hide Exec, Apply;
    if j == 0 {
      acts := [];
      ExecNothing(Init(n), cap);
      assert HeldUp(0, n) == Init(n).pcs;
    } else {
      var before := HoldMany(j - 1, cap, n);
      var s := Exec(Init(n), before, cap);
      var more := HoldOne(s, j - 1, cap);
      ExecMore(Init(n), before, more, cap);
      acts := before + more;
      assert HeldUp(j - 1, n)[j - 1 := Stored] == HeldUp(j, n);
    }
  }

  /** The last `j` of the first `m` count after all. */
  lemma {:induction false} CountLate(j: nat, m: nat, cap: nat, n: nat) returns (acts: seq<Action>)
    requires j <= m <= n
    ensures var s := Init(n).(pcs := HeldUp(m, n), skips := m);
            Exec(s, acts, cap) == s.(pcs := HeldUp(m - j, n), count := j)
  {
    hide Exec, Apply;
    var s := Init(n).(pcs := HeldUp(m, n), skips := m);
    if j == 0 {
      acts := [];
      ExecNothing(s, cap);
    } else {
      var before := CountLate(j - 1, m, cap, n);
      var g := m - j;
      ExecStep(s, before, AddOne(g), cap);
      DoesCount(Exec(s, before, cap), g, cap);
      acts := before + [AddOne(g)];
      assert HeldUp(m - j + 1, n)[g := Idle] == HeldUp(m - j, n);
    }
  }

  lemma {:induction false} DoesCount(s: State, g: nat, cap: nat)
    requires g < |s.pcs| && s.pcs[g].Stored?
    ensures Apply(s, AddOne(g), cap) == s.(count := s.count + 1, pcs := s.pcs[g := Idle])
  {
  }

  ghost predicate CapFilledByDrift(acts: seq<Action>, cap: nat, n: nat) {
    var s := Exec(Init(n), acts, cap);
    AtRest(s) && s.keys == {} && s.count == cap
  }

  /**
   For every cap and every number of goroutines: some run ends at rest with an empty map and the counter at the cap, so that
   no breaker will be created any more, if and only if there are as many goroutines as the cap.
   */
  lemma {:induction false} DriftFillsTheCapIff(cap: nat, n: nat)
    requires cap >= 1 && n >= 1
    ensures (exists acts :: CapFilledByDrift(acts, cap, n)) <==> n >= cap
  {
    hide Exec, Apply;
    if acts :| CapFilledByDrift(acts, cap, n) {
      DriftIsBounded(acts, cap, n);
    }
    if n >= cap {
      var a := HoldMany(cap, cap, n);
      var b := CountLate(cap, cap, cap, n);
      ExecMore(Init(n), a, b, cap);
      assert HeldUp(0, n) == Init(n).pcs;
      assert CapFilledByDrift(a + b, cap, n);
    }
  }

  // ---------------------------------------------------------------- the cap is overshot by n - 1

  function Range(lo: nat, hi: nat): (r: set<Key>)
    requires lo <= hi
    ensures forall k :: k in r <==> lo <= k < hi
  {
    if lo == hi then {} else Range(lo, hi - 1) + {hi - 1}
  }

  lemma {:induction false} RangeSize(lo: nat, hi: nat)
    requires lo <= hi
    ensures |Range(lo, hi)| == hi - lo
  {
    if lo < hi {
      RangeSize(lo, hi - 1);
      var r := Range(lo, hi - 1);
      hide Range;
      assert hi - 1 !in r && |r + {hi - 1}| == |r| + 1;
    }
  }

  lemma {:induction false} TwoRanges(a: nat, b: nat, c: nat)
    requires a <= b <= c
    ensures |Range(0, a) + Range(b, c)| == a + (c - b)
  {
    hide Range;
    RangeSize(0, a);
    RangeSize(b, c);
    assert Range(0, a) !! Range(b, c);
  }

  /** One goroutine creating breakers 0 .. m - 1 one after the other. */
  lemma {:induction false} FillUp(m: nat, cap: nat, n: nat) returns (acts: seq<Action>)
    requires n >= 1 && m < cap
    ensures Exec(Init(n), acts, cap) == Init(n).(keys := Range(0, m), count := m)
  {
    acts := [];
    if m > 0 {
      var before := FillUp(m - 1, cap, n);
      var s := Exec(Init(n), before, cap);
      var more := Create(s, m - 1, cap);
      ExecMore(Init(n), before, more, cap);
      acts := before + more;
    }
  }

  lemma {:induction false} Create(s: State, k: Key, cap: nat) returns (acts: seq<Action>)
    requires |s.pcs| >= 1 && s.pcs[0].Idle? && k !in s.keys && k !in s.idle && s.count < cap
    ensures Exec(s, acts, cap) == s.(keys := s.keys + {k}, count := s.count + 1)
  {
    hide Exec;
    acts := Three(s, Load(0, k), CheckCap(0), LoadOrStore(0), cap);
    ExecStep(s, acts, AddOne(0), cap);
    acts := acts + [AddOne(0)];
    assert s.pcs[0 := Missed(k)][0 := Passed(k)][0 := Stored][0 := Idle] == s.pcs && s.idle - {k} == s.idle;
  }

  function PassedUpTo(j: nat, base: nat, n: nat): seq<Pc> {
    seq(n, i requires 0 <= i < n => if i < j then Passed(base + i) else Idle)
  }

  function StoredUpTo(j: nat, base: nat, n: nat): seq<Pc> {
    seq(n, i requires 0 <= i < n => if i < j then Stored else Passed(base + i))
  }

  /** All goroutines pass the cap check while the counter is still one below the cap. */
  lemma {:induction false} AllPass(j: nat, cap: nat, n: nat) returns (acts: seq<Action>)
    requires cap >= 1 && j <= n
    ensures var s := Init(n).(keys := Range(0, cap - 1), count := cap - 1);
            Exec(s, acts, cap) == s.(pcs := PassedUpTo(j, cap, n))
  {
    var s := Init(n).(keys := Range(0, cap - 1), count := cap - 1);
    acts := [];
    if j == 0 {
      assert PassedUpTo(0, cap, n) == Init(n).pcs;
    } else {
      var before := AllPass(j - 1, cap, n);
      var t := s.(pcs := PassedUpTo(j - 1, cap, n));
      ExecStep(t, [], Load(j - 1, cap + j - 1), cap);
      ExecStep(t, [Load(j - 1, cap + j - 1)], CheckCap(j - 1), cap);
      var more := [Load(j - 1, cap + j - 1), CheckCap(j - 1)];
      assert Exec(t, more, cap).pcs == PassedUpTo(j, cap, n);
      ExecMore(s, before, more, cap);
      acts := before + more;
    }
  }

  lemma {:induction false} StoreOne(s: State, g: nat, cap: nat)
    requires g < |s.pcs| && s.pcs[g].Passed? && s.pcs[g].key !in s.keys && s.idle == {}
    ensures Exec(s, [LoadOrStore(g)], cap) == s.(keys := s.keys + {s.pcs[g].key}, pcs := s.pcs[g := Stored])
  {
    ExecStep(s, [], LoadOrStore(g), cap);
    assert [] + [LoadOrStore(g)] == [LoadOrStore(g)] && s.idle - {s.pcs[g].key} == {};
  }

  /** They all store before any of them counts. */
  lemma {:induction false} AllStore(s: State, j: nat, base: nat, n: nat, cap: nat) returns (acts: seq<Action>)
    requires j <= n && s.pcs == PassedUpTo(n, base, n) && s.idle == {} && forall k :: k in s.keys ==> k < base
    ensures Exec(s, acts, cap) == s.(keys := s.keys + Range(base, base + j), pcs := StoredUpTo(j, base, n))
  {
    hide Exec, Apply, Range;
    acts := [];
    if j == 0 {
      assert StoredUpTo(0, base, n) == PassedUpTo(n, base, n);
      assert s.keys + Range(base, base + 0) == s.keys;
      assert Exec(s, acts, cap) == s by { ExecNothing(s, cap); }
    } else {
      var before := AllStore(s, j - 1, base, n, cap);
      var t := Exec(s, before, cap);
      StoreOne(t, j - 1, cap);
      ExecMore(s, before, [LoadOrStore(j - 1)], cap);
      acts := before + [LoadOrStore(j - 1)];
      NextStored(s.keys, j, base, n);
    }
  }

  lemma {:induction false} NextStored(keys: set<Key>, j: nat, base: nat, n: nat)
    requires 1 <= j <= n
    ensures StoredUpTo(j - 1, base, n)[j - 1 := Stored] == StoredUpTo(j, base, n)
    ensures keys + Range(base, base + (j - 1)) + {base + j - 1} == keys + Range(base, base + j)
  {
  }

  lemma {:induction false} ExecNothing(s: State, cap: nat)
    ensures Exec(s, [], cap) == s
  {
  }

  /** The bound is tight: for every cap and every n some interleaving leaves exactly cap + n - 1 breakers in the map. */
  lemma {:induction false} CapIsTight(cap: nat, n: nat) returns (acts: seq<Action>)
    requires cap >= 1 && n >= 1
    ensures |Exec(Init(n), acts, cap).keys| == cap + n - 1
  {
    hide Exec, Apply, Range;
    var a := FillUp(cap - 1, cap, n);
    var b := AllPass(n, cap, n);
    ExecMore(Init(n), a, b, cap);
    var c := AllStore(Exec(Init(n), a + b, cap), n, cap, n, cap);
    ExecMore(Init(n), a + b, c, cap);
    acts := a + b + c;
    TwoRanges(cap - 1, cap, cap + n);
  }

  // ---------------------------------------------------------------- what is evicted

  /** The breaker of the key has gone idle and has not been handed out or made anew since. */
  ghost predicate UnusedSince(acts: seq<Action>, cap: nat, n: nat, k: Key)
    decreases |acts|
  {
    |acts| > 0 &&
    var init, a := acts[..|acts| - 1], acts[|acts| - 1];
    var s := Exec(Init(n), init, cap);
    if a == GoIdle(k) && k in s.keys then true
    else if a.Load? && a.k == k && Enabled(s, a) && k in s.keys then false
    else if a.LoadOrStore? && Enabled(s, a) && s.pcs[a.g] == Passed(k) && k !in s.keys then false
    else UnusedSince(init, cap, n, k)
  }

  /** Only a breaker that has not been used since it went idle is found stale; between that and its Delete it may be. */
  lemma {:induction false} JudgedIsUnused(acts: seq<Action>, cap: nat, n: nat, k: Key)
    ensures k in Exec(Init(n), acts, cap).idle ==> UnusedSince(acts, cap, n, k)
    ensures Enabled(Exec(Init(n), acts, cap), Judge(k)) ==> UnusedSince(acts, cap, n, k)
  {
    if |acts| == 0 {
    } else {
      JudgedIsUnused(acts[..|acts| - 1], cap, n, k);
    }
  }
}
