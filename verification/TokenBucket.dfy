/**
 The token bucket that the Redis script keeps in one hash (internal/ratelimit/limiter.go).

 Numbers are reals, timestamps are whole microseconds, TTLs are whole seconds.
 `Script` is one atomic evaluation; `BucketKey.Eval` is the same evaluation
 in the script's own reassign-and-write form.
 */
module TokenBucket {
  import opened Arithmetic
  import opened Options

  /** ARGV[1..3]: tokens per microsecond, capacity, TTL in seconds. */
  datatype Params = Params(rate: real, burst: int, ttl: int)

  /** The hash fields; a missing `last_expire` reads as 0 and so is stored as 0. */
  datatype Hash = Hash(last: int, tokens: real, lastExpire: int)

  /** A Redis key: absent, or a hash with an optional absolute expiry in seconds. */
  datatype Key = Absent | Present(hash: Hash, expireAt: Option<int>)

  datatype Reply = Reply(allowed: bool, retryAfter: int, remaining: int, limit: int, resetAfter: int)

  datatype Call = Call(p: Params, now: int)

  function Last(k: Key): int {
    if k.Present? then k.hash.last else 0
  }

  function Tokens(k: Key, p: Params): real {
    if k.Present? then k.hash.tokens else p.burst as real
  }

  function LastExpire(k: Key): int {
    if k.Present? then k.hash.lastExpire else 0
  }

  function Elapsed(k: Key, now: int): (e: int)
    ensures e >= 0
  {
    if now < Last(k) then 0 else now - Last(k)
  }

  /** The level a call at `now` sees, after refilling and before consuming. */
  function Level(k: Key, p: Params, now: int): real {
    MinReal(p.burst as real, Tokens(k, p) + p.rate * (Elapsed(k, now) as real))
  }

  function HalfTtl(p: Params): int {
    p.ttl * 500_000
  }

  predicate NeedsExpire(k: Key, p: Params, now: int) {
    now - LastExpire(k) > HalfTtl(p)
  }

  function Written(k: Key, p: Params, now: int, tokens: real): Key {
    if NeedsExpire(k, p, now)
    then Present(Hash(now, tokens, now), Some(now / 1_000_000 + p.ttl))
    else Present(Hash(now, tokens, LastExpire(k)), if k.Present? then k.expireAt else None)
  }

  function ResetAfter(level: real, p: Params): int
    requires p.rate > 0.0
  {
    if level < p.burst as real then Ceil((p.burst as real - level) / p.rate) else 0
  }

  /** One evaluation of the script: the key afterwards and the reply. */
  function Script(k: Key, p: Params, now: int): (Key, Reply) {
    if p.rate <= 0.0 then
      (k, Reply(true, 0, p.burst, p.burst, 0))
    else
      var level := Level(k, p, now);
      var reset := ResetAfter(level, p);
      if level >= 1.0 then
        (Written(k, p, now, level - 1.0), Reply(true, 0, (level - 1.0).Floor, p.burst, reset))
      else
        (Written(k, p, now, level), Reply(false, Ceil((1.0 - level) / p.rate), 0, p.burst, reset))
  }

  /** The script as written: locals are reassigned, then the hash and its expiry are updated in place. */
  class BucketKey {
    var present: bool
    var last: int
    var tokens: real
    var lastExpire: int
    var expireAt: Option<int>

    constructor ()
      ensures State() == Absent
    {
      present, last, tokens, lastExpire, expireAt := false, 0, 0.0, 0, None;
    }

    ghost function State(): Key
      reads this
    {
      if present then Present(Hash(last, tokens, lastExpire), expireAt) else Absent
    }

    method Eval(p: Params, now: int) returns (r: Reply)
      modifies this
      ensures (State(), r) == Script(old(State()), p, now)
    {
      hide Ceil;
      if p.rate <= 0.0 {
        return Reply(true, 0, p.burst, p.burst, 0);
      }
      var last0, tokens0, lastExpire0 := 0, p.burst as real, 0;
      if present {
        last0, tokens0, lastExpire0 := last, tokens, lastExpire;
      }
      if now < last0 {
        last0 := now;
      }
      var elapsed := now - last0;
      tokens0 := MinReal(p.burst as real, tokens0 + p.rate * (elapsed as real));
      assert tokens0 == Level(old(State()), p, now);
      var reset := 0;
      if tokens0 < p.burst as real {
        reset := Ceil((p.burst as real - tokens0) / p.rate);
      }
      var needsExpire := now - lastExpire0 > p.ttl * 500_000;
      var at := now / 1_000_000 + p.ttl;
      var allowed := tokens0 >= 1.0;
      if allowed {
        tokens0 := tokens0 - 1.0;
        r := Reply(true, 0, tokens0.Floor, p.burst, reset);
      } else {
        r := Reply(false, Ceil((1.0 - tokens0) / p.rate), 0, p.burst, reset);
      }
      if !present {
        lastExpire, expireAt := 0, None;
      }
      present, last, tokens := true, now, tokens0;
      if needsExpire {
        lastExpire, expireAt := now, Some(at);
      }
    }
  }

  // ---------------------------------------------------------------- runs

  /** All calls of a run on one key that nothing else touches and that never expires. */
  function Run(k: Key, calls: seq<Call>): (res: (Key, seq<Reply>))
    ensures |res.1| == |calls|
  {
    if |calls| == 0 then (k, [])
    else
      var (k1, rs) := Run(k, calls[..|calls| - 1]);
      var c := calls[|calls| - 1];
      var (k2, r) := Script(k1, c.p, c.now);
      (k2, rs + [r])
  }

  function Admitted(rs: seq<Reply>): nat {
    if |rs| == 0 then 0
    else Admitted(rs[..|rs| - 1]) + if rs[|rs| - 1].allowed then 1 else 0
  }

  /** Every call meters (rate > 0) a bucket of non-negative size. */
  ghost predicate Metered(calls: seq<Call>) {
    forall i :: 0 <= i < |calls| ==> calls[i].p.rate > 0.0 && calls[i].p.burst >= 0
  }

  ghost predicate Solvent(k: Key) {
    k.Present? ==> k.hash.tokens >= 0.0
  }

  function Forward(a: int, b: int): int {
    if b > a then b - a else 0
  }

  /**
   What a stretch of calls may admit: the first call's capacity plus, for each later call,
   its rate times how far the clock moved forward since the call before it.
   */
  function Budget(calls: seq<Call>): real
    requires |calls| > 0
  {
    if |calls| == 1 then calls[0].p.burst as real
    else
      var n := |calls|;
      Budget(calls[..n - 1]) + calls[n - 1].p.rate * (Forward(calls[n - 2].now, calls[n - 1].now) as real)
  }

  /** What a metered call does to the bucket, without the reply's arithmetic. */
  lemma {:induction false} StepEffect(k: Key, p: Params, now: int)
    requires p.rate > 0.0
    ensures var (k', r) := Script(k, p, now);
            && k'.Present? && k'.hash.last == now
            && (r.allowed <==> Level(k, p, now) >= 1.0)
            && k'.hash.tokens == Level(k, p, now) - (if r.allowed then 1.0 else 0.0)
            && r.resetAfter == ResetAfter(Level(k, p, now), p)
            && (!r.allowed ==> r.retryAfter == Ceil((1.0 - Level(k, p, now)) / p.rate))
  {
  }

  lemma {:induction false} LevelCaps(k: Key, p: Params, now: int)
    ensures Level(k, p, now) <= p.burst as real
    ensures Level(k, p, now) <= Tokens(k, p) + p.rate * (Elapsed(k, now) as real)
  {
  }

  lemma {:induction false} AbsentIsFull(p: Params, now: int)
    requires p.rate > 0.0
    ensures Level(Absent, p, now) == p.burst as real
  {
    MulMono(p.rate, 0.0, Elapsed(Absent, now) as real);
  }

  lemma {:induction false} LevelInRange(k: Key, p: Params, now: int)
    requires p.rate > 0.0 && p.burst >= 0 && Solvent(k)
    ensures 0.0 <= Level(k, p, now) <= p.burst as real
  {
    MulMono(p.rate, 0.0, Elapsed(k, now) as real);
  }

  /** Tokens stay between zero and the capacity of the last call, whatever order the timestamps come in. */
  lemma {:induction false} TokensInRange(k: Key, calls: seq<Call>)
    requires Metered(calls) && Solvent(k) && |calls| > 0
    ensures var k' := Run(k, calls).0;
            var c := calls[|calls| - 1];
            k'.Present? && k'.hash.last == c.now && 0.0 <= k'.hash.tokens <= c.p.burst as real
  {
    hide Script, Level;
    var n := |calls|;
    var k1 := Run(k, calls[..n - 1]).0;
    if n > 1 {
      TokensInRange(k, calls[..n - 1]);
    }
    StepEffect(k1, calls[n - 1].p, calls[n - 1].now);
    LevelInRange(k1, calls[n - 1].p, calls[n - 1].now);
  }

  /** Accounting: what was admitted plus what is left never exceeds the budget. */
  lemma {:induction false} AdmittedPlusLeft(k: Key, calls: seq<Call>)
    requires Metered(calls) && Solvent(k) && |calls| > 0
    ensures var (k', rs) := Run(k, calls);
            k'.Present? && Admitted(rs) as real + k'.hash.tokens <= Budget(calls)
  {
    hide Script, Level, Ceil, ResetAfter;
    var n := |calls|;
    var c := calls[n - 1];
    var (k1, rs) := Run(k, calls[..n - 1]);
    var (k2, r) := Script(k1, c.p, c.now);
    assert Run(k, calls) == (k2, rs + [r]);
    assert (rs + [r])[..n - 1] == rs;
    StepEffect(k1, c.p, c.now);
    LevelCaps(k1, c.p, c.now);
    if n > 1 {
      AdmittedPlusLeft(k, calls[..n - 1]);
      TokensInRange(k, calls[..n - 1]);
      assert Elapsed(k1, c.now) == Forward(calls[n - 2].now, c.now);
    }
  }

  lemma {:induction false} RunAppend(k: Key, calls: seq<Call>, c: Call)
    ensures var (k1, rs) := Run(k, calls);
            var (k2, r) := Script(k1, c.p, c.now);
            Run(k, calls + [c]) == (k2, rs + [r])
  {
    hide Script;
    assert (calls + [c])[..|calls|] == calls;
  }

  /** A run splits anywhere: the later calls start from the key the earlier ones left. */
  lemma {:induction false} RunSplit(k: Key, calls: seq<Call>, i: nat)
    requires i <= |calls|
    ensures var (k1, rs1) := Run(k, calls[..i]);
            var (k2, rs2) := Run(k1, calls[i..]);
            Run(k, calls) == (k2, rs1 + rs2)
    decreases |calls|
  {
    hide Script;
    var n := |calls|;
    if i == n {
      assert calls[..i] == calls;
      assert calls[i..] == [];
      var (k1, rs1) := Run(k, calls[..i]);
      assert rs1 + [] == rs1;
    } else {
      RunSplit(k, calls[..n - 1], i);
      assert calls[..n - 1][..i] == calls[..i];
      assert calls[..n - 1][i..] == calls[i..][..n - i - 1];
      assert calls[i..][n - i - 1] == calls[n - 1];
      var (k1, rs1) := Run(k, calls[..i]);
      var (k2, rs2) := Run(k1, calls[i..][..n - i - 1]);
      var (k3, r) := Script(k2, calls[n - 1].p, calls[n - 1].now);
      assert rs1 + rs2 + [r] == rs1 + (rs2 + [r]);
    }
  }

  /** The reply to call `i` is the script's reply to the key the earlier calls left. */
  lemma {:induction false} ReplyAt(k: Key, calls: seq<Call>, i: nat)
    requires i < |calls|
    ensures Run(k, calls).1[i] == Script(Run(k, calls[..i]).0, calls[i].p, calls[i].now).1
  {
    hide Script;
    RunSplit(k, calls, i + 1);
    assert calls[..i + 1] == calls[..i] + [calls[i]];
    RunAppend(k, calls[..i], calls[i]);
  }

  /**
   In any contiguous stretch of a run, with timestamps in any order and with per-call overrides
   of rate and capacity, no more is admitted than the budget of that stretch.
   */
  lemma {:induction false} StretchBound(k: Key, calls: seq<Call>, i: nat, j: nat)
    requires Metered(calls) && Solvent(k) && i < j <= |calls|
    ensures Admitted(Run(k, calls).1[i..j]) as real <= Budget(calls[i..j])
  {
    hide Script, Budget;
    RunSplit(k, calls, j);
    RunSplit(k, calls[..j], i);
    assert calls[..j][..i] == calls[..i];
    assert calls[..j][i..] == calls[i..j];
    var (k1, rs1) := Run(k, calls[..i]);
    var (k2, rs2) := Run(k1, calls[i..j]);
    assert Run(k, calls).1[..j] == rs1 + rs2;
    assert Run(k, calls).1[i..j] == (rs1 + rs2)[i..] == rs2;
    if i > 0 {
      TokensInRange(k, calls[..i]);
    }
    AdmittedPlusLeft(k1, calls[i..j]);
    TokensInRange(k1, calls[i..j]);
  }

  ghost predicate SameParams(calls: seq<Call>, p: Params) {
    forall i :: 0 <= i < |calls| ==> calls[i].p == p
  }

  ghost predicate Monotone(calls: seq<Call>) {
    forall i, j :: 0 <= i < j < |calls| ==> calls[i].now <= calls[j].now
  }

  lemma {:induction false} MonotoneBudget(calls: seq<Call>, p: Params)
    requires |calls| > 0 && SameParams(calls, p) && Monotone(calls)
    ensures Budget(calls) == p.burst as real + p.rate * ((calls[|calls| - 1].now - calls[0].now) as real)
  {
    var n := |calls|;
    if n > 1 {
      MonotoneBudget(calls[..n - 1], p);
      var a, b := calls[n - 2].now - calls[0].now, calls[n - 1].now - calls[n - 2].now;
      Distribute(p.rate, a as real, b as real);
      assert (a + b) as real == a as real + b as real;
    }
  }

  /** With a clock that never goes back: at most burst + rate * window in any window. */
  lemma {:induction false} WindowBound(k: Key, p: Params, calls: seq<Call>, i: nat, j: nat)
    requires p.rate > 0.0 && p.burst >= 0 && Solvent(k)
    requires SameParams(calls, p) && Monotone(calls) && i < j <= |calls|
    ensures Admitted(Run(k, calls).1[i..j]) as real
            <= p.burst as real + p.rate * ((calls[j - 1].now - calls[i].now) as real)
  {
    hide Run, Admitted, Budget;
    assert Metered(calls);
    StretchBound(k, calls, i, j);
    MonotoneBudget(calls[i..j], p);
  }

  lemma {:induction false} AdmittedNext(rs: seq<Reply>, r: Reply)
    ensures Admitted([]) == 0 && Admitted(rs + [r]) == Admitted(rs) + if r.allowed then 1 else 0
  {
    assert (rs + [r])[..|rs|] == rs;
  }

  // ---------------------------------------------------------------- retry and reset

  /** The calls one client makes while polling with fixed parameters. */
  function Polls(p: Params, nows: seq<int>): (calls: seq<Call>)
    ensures |calls| == |nows|
    ensures forall i :: 0 <= i < |nows| ==> calls[i] == Call(p, nows[i])
  {
    seq(|nows|, i requires 0 <= i < |nows| => Call(p, nows[i]))
  }

  function Repeat(now: int, n: nat): (nows: seq<int>)
    ensures |nows| == n && forall i :: 0 <= i < n ==> nows[i] == now
  {
    seq(n, i => now)
  }

  /** Polls at or after `n`, on a clock that never goes back. */
  ghost predicate Follow(n: int, polls: seq<int>) {
    && (forall i :: 0 <= i < |polls| ==> n <= polls[i])
    && (forall i, j :: 0 <= i < j < |polls| ==> polls[i] <= polls[j])
  }

  /** The key holds less than one token, and the level line through it is the one through (n, level). */
  ghost predicate OnLine(k: Key, p: Params, n: int, level: real) {
    k.Present? && k.hash.last >= n && k.hash.tokens == level + p.rate * ((k.hash.last - n) as real) < 1.0
  }

  lemma {:induction false} LineLevel(k: Key, p: Params, n: int, level: real, t: int)
    requires OnLine(k, p, n, level) && t >= k.hash.last
    ensures Level(k, p, t) == MinReal(p.burst as real, level + p.rate * ((t - n) as real))
  {
    var a, b := k.hash.last - n, t - k.hash.last;
    assert (a + b) as real == a as real + b as real;
    Distribute(p.rate, a as real, b as real);
  }

  lemma {:induction false} PollStep(k: Key, p: Params, n: int, level: real, t: int)
    requires p.rate > 0.0 && p.burst >= 1 && 0.0 <= level < 1.0
    requires OnLine(k, p, n, level) && t >= k.hash.last
    ensures var due := n + Ceil((1.0 - level) / p.rate);
            var (k', r) := Script(k, p, t);
            && (r.allowed <==> t >= due)
            && (!r.allowed ==> OnLine(k', p, n, level) && k'.hash.last == t && t + r.retryAfter == due)
  {
    hide Script, Ceil, ResetAfter, Level;
    StepEffect(k, p, t);
    LineLevel(k, p, n, level, t);
    CeilQuotient(1.0 - level, p.rate, t - n);
    var here := level + p.rate * ((t - n) as real);
    if Level(k, p, t) < 1.0 {
      assert Level(k, p, t) == here;
      RetryShift(1.0 - level, 1.0 - Level(k, p, t), p.rate, t - n);
    }
  }

  /** Moving `e` whole steps towards a target shortens the rounded-up wait by exactly `e`. */
  lemma {:induction false} RetryShift(need: real, rest: real, rate: real, e: int)
    requires rate > 0.0 && rest == need - rate * (e as real)
    ensures Ceil(rest / rate) == Ceil(need / rate) - e
  {
    var c, c' := Ceil(need / rate), Ceil(rest / rate);
    CeilQuotient(need, rate, c);
    CeilQuotient(need, rate, c' + e);
    CeilQuotient(rest, rate, c');
    CeilQuotient(rest, rate, c - e);
    assert rate * ((c' + e) as real) == rate * (c' as real) + rate * (e as real);
    assert rate * ((c - e) as real) == rate * (c as real) - rate * (e as real);
  }

  /** While every poll comes before the quoted instant, all are denied and the level line is kept. */
  lemma {:induction false} PollInvariant(k: Key, p: Params, n: int, polls: seq<int>)
    requires p.rate > 0.0 && p.burst >= 1 && Solvent(k) && Level(k, p, n) < 1.0
    requires Follow(n, polls) && forall i :: 0 <= i < |polls| ==> polls[i] < Due(k, p, n)
    ensures var k' := Run(Script(k, p, n).0, Polls(p, polls)).0;
            OnLine(k', p, n, Level(k, p, n)) && k'.hash.last == (if polls == [] then n else polls[|polls| - 1])
  {
    hide Script, Level, Ceil, ResetAfter;
    var k1 := Script(k, p, n).0;
    StepEffect(k, p, n);
    LevelInRange(k, p, n);
    var m := |polls|;
    if m == 0 {
      assert p.rate * ((k1.hash.last - n) as real) == 0.0;
      assert Run(k1, Polls(p, polls)).0 == k1;
    } else {
      var earlier := polls[..m - 1];
      PollInvariant(k, p, n, earlier);
      assert Polls(p, polls)[..m - 1] == Polls(p, earlier);
      PollStep(Run(k1, Polls(p, earlier)).0, p, n, Level(k, p, n), polls[m - 1]);
    }
  }

  /** The instant at which a bucket short of one token at `n` holds one again. */
  function Due(k: Key, p: Params, n: int): int
    requires p.rate > 0.0
  {
    n + Ceil((1.0 - Level(k, p, n)) / p.rate)
  }

  /** If no poll before poll `i` has reached `due`, poll `i` is admitted iff it has, and else quotes `due`. */
  ghost predicate ExactReply(polls: seq<int>, rs: seq<Reply>, due: int, i: nat)
    requires i < |polls| == |rs|
  {
    i == 0 || polls[i - 1] < due ==>
      (rs[i].allowed <==> polls[i] >= due) && (!rs[i].allowed ==> polls[i] + rs[i].retryAfter == due)
  }

  lemma {:induction false} DenialQuotesDue(k: Key, p: Params, n: int)
    requires p.rate > 0.0 && Level(k, p, n) < 1.0
    ensures var r := Script(k, p, n).1;
            !r.allowed && r.retryAfter >= 1 && n + r.retryAfter == Due(k, p, n)
  {
    hide Script, Ceil, Level;
    StepEffect(k, p, n);
    CeilQuotient(1.0 - Level(k, p, n), p.rate, 0);
  }

  /**
   Retry-After is exact under polling.  A call at `n` that finds less than one token is denied with a
   positive retry r.  From then on every poll before n + r is denied, however many there are, and quotes the
   same instant n + r again; the first poll at or after n + r is admitted.
   */
  lemma {:induction false} RetryExact(k: Key, p: Params, n: int, polls: seq<int>)
    requires p.rate > 0.0 && p.burst >= 1 && Solvent(k) && Level(k, p, n) < 1.0
    requires Follow(n, polls)
    ensures var (k1, denial) := Script(k, p, n);
            var rs := Run(k1, Polls(p, polls)).1;
            var due := n + denial.retryAfter;
            && !denial.allowed && denial.retryAfter >= 1
            && forall i :: 0 <= i < |polls| ==> ExactReply(polls, rs, due, i)
  {
    hide Script, Level, Due;
    var (k1, denial) := Script(k, p, n);
    DenialQuotesDue(k, p, n);
    var rs := Run(k1, Polls(p, polls)).1;
    var due := n + denial.retryAfter;
    forall i | 0 <= i < |polls|
      ensures ExactReply(polls, rs, due, i)
    {
      if i == 0 || polls[i - 1] < due {
        PollReply(k, p, n, polls, i);
      }
    }
  }

  lemma {:induction false} PollReply(k: Key, p: Params, n: int, polls: seq<int>, i: nat)
    requires p.rate > 0.0 && p.burst >= 1 && Solvent(k) && Level(k, p, n) < 1.0
    requires Follow(n, polls) && i < |polls| && (i > 0 ==> polls[i - 1] < Due(k, p, n))
    ensures var r := Run(Script(k, p, n).0, Polls(p, polls)).1[i];
            (r.allowed <==> polls[i] >= Due(k, p, n)) && (!r.allowed ==> polls[i] + r.retryAfter == Due(k, p, n))
  {
    hide Script, Level, Ceil, ResetAfter;
    var k1 := Script(k, p, n).0;
    var calls := Polls(p, polls);
    var earlier := polls[..i];
    assert forall j :: 0 <= j < i ==> polls[j] <= polls[i - 1];
    PollInvariant(k, p, n, earlier);
    LevelInRange(k, p, n);
    var k2 := Run(k1, Polls(p, earlier)).0;
    PollStep(k2, p, n, Level(k, p, n), polls[i]);
    assert calls[..i] == Polls(p, earlier);
    ReplyAt(k1, calls, i);
  }

  /**
   `reset_after` is documented as the time until the bucket is full again, but is computed before the token
   is taken.  A later call at t finds a full bucket iff t is at least reset_after past a denial; past an
   admission it must also wait for the token that was taken.
   */
  lemma {:induction false} ResetExact(k: Key, p: Params, n: int, t: int)
    requires p.rate > 0.0 && p.burst >= 1 && Solvent(k) && t >= n
    ensures var (k', r) := Script(k, p, n);
            var taken := if r.allowed then 1.0 else 0.0;
            && (Level(k', p, t) == p.burst as real
                <==> t >= n + Ceil((p.burst as real - Level(k, p, n) + taken) / p.rate))
            && (!r.allowed ==> (Level(k', p, t) == p.burst as real <==> t >= n + r.resetAfter))
  {
    hide Script, Ceil;
    StepEffect(k, p, n);
    LevelInRange(k, p, n);
    var (k', r) := Script(k, p, n);
    var taken := if r.allowed then 1.0 else 0.0;
    CeilQuotient(p.burst as real - Level(k, p, n) + taken, p.rate, t - n);
    assert Elapsed(k', t) == t - n;
  }

  /**
   So the documented meaning holds iff the call finds less than a token, and is denied, or rounding up hides the token
   taken.  For rates up to one token per microsecond it never does.
   */
  lemma {:induction false} ResetHonestIff(k: Key, p: Params, n: int)
    requires p.rate > 0.0 && p.burst >= 1 && Solvent(k)
    ensures var (k', r) := Script(k, p, n);
            var full := Level(k', p, n + r.resetAfter) == p.burst as real;
            var level := Level(k, p, n);
            && (full <==> level < 1.0 || p.rate * (ResetAfter(level, p) as real) >= p.burst as real - level + 1.0)
            && (p.rate <= 1.0 ==> (full <==> level < 1.0))
  {
    hide Script, Level, Ceil;
    StepEffect(k, p, n);
    LevelInRange(k, p, n);
    var r := Script(k, p, n).1;
    var need := p.burst as real - Level(k, p, n);
    var e := r.resetAfter;
    CeilQuotient(need, p.rate, 0);
    assert e >= 0;
    ResetExact(k, p, n, n + e);
    if r.allowed {
      CeilQuotient(need + 1.0, p.rate, e);
      if p.rate <= 1.0 {
        // one microsecond less than reset_after is short of `need`, so reset_after is short of need + 1
        ShortOfOneMore(need, p.rate, e);
      }
    }
  }

  lemma {:induction false} ShortOfOneMore(need: real, rate: real, e: int)
    requires 0.0 < rate <= 1.0 && need >= 0.0 && e == (if need > 0.0 then Ceil(need / rate) else 0)
    ensures e < Ceil((need + 1.0) / rate)
  {
    hide Ceil;
    CeilQuotient(need, rate, e - 1);
    CeilQuotient(need + 1.0, rate, e);
    assert rate * (e as real) == rate * ((e - 1) as real) + rate;
  }

  // ---------------------------------------------------------------- what is left

  /** The key was written at `t` and holds `tokens`, no more than the capacity. */
  ghost predicate HoldsAt(k: Key, p: Params, t: int, tokens: real) {
    k.Present? && k.hash.last == t && k.hash.tokens == tokens <= p.burst as real
  }

  lemma {:induction false} CallAgain(k: Key, p: Params, t: int, tokens: real)
    requires p.rate > 0.0 && HoldsAt(k, p, t, tokens)
    ensures var (k', r) := Script(k, p, t);
            && (r.allowed <==> tokens >= 1.0)
            && HoldsAt(k', p, t, if r.allowed then tokens - 1.0 else tokens)
  {
    hide Ceil, ResetAfter;
    assert p.rate * (Elapsed(k, t) as real) == 0.0;
  }

  /** Calls at the instant of the last write admit one for each whole token. */
  lemma {:induction false} WholeTokens(k: Key, p: Params, t: int, tokens: real, left: nat, m: nat)
    requires p.rate > 0.0 && HoldsAt(k, p, t, tokens)
    requires tokens < left as real + 1.0 && (left > 0 ==> left as real <= tokens)
    ensures var (k', rs) := Run(k, Polls(p, Repeat(t, m)));
            Admitted(rs) == MinInt(m, left) && HoldsAt(k', p, t, tokens - MinInt(m, left) as real)
  {
    hide Script, HoldsAt, Admitted, Run;
    if m == 0 {
      NoCalls(k, p, t);
      assert tokens - 0 as real == tokens;
    } else {
      WholeTokens(k, p, t, tokens, left, m - 1);
      var earlier := Polls(p, Repeat(t, m - 1));
      assert Polls(p, Repeat(t, m)) == earlier + [Call(p, t)];
      RunAppend(k, earlier, Call(p, t));
      var (k1, rs) := Run(k, earlier);
      CallAgain(k1, p, t, tokens - MinInt(m - 1, left) as real);
      AdmittedNext(rs, Script(k1, p, t).1);
    }
  }

  lemma {:induction false} NoCalls(k: Key, p: Params, t: int)
    ensures Run(k, Polls(p, Repeat(t, 0))) == (k, []) && Admitted([]) == 0
  {
  }

  /**
   `remaining` is exact, for every key, parameters and instant: of any number of further calls at the same instant, that
   many are admitted and the others are denied.
   */
  lemma {:induction false} RemainingExact(k: Key, p: Params, t: int, m: nat)
    requires p.rate > 0.0
    ensures var (k', r) := Script(k, p, t);
            && Admitted(Run(k', Polls(p, Repeat(t, m))).1) == MinInt(m, r.remaining)
            && r.limit == p.burst && 0 <= r.remaining
            && (if r.allowed then r.remaining < r.limit else r.remaining == 0)
  {
    hide Ceil, ResetAfter, Level, Run, Polls, Repeat, Admitted;
    LevelCaps(k, p, t);
    var (k', r) := Script(k, p, t);
    WholeTokens(k', p, t, k'.hash.tokens, r.remaining, m);
  }

  /** Without a rate every call is admitted with a full bucket to spare, and the key is left alone. */
  lemma {:induction false} UnmeteredRun(k: Key, p: Params, nows: seq<int>)
    requires p.rate <= 0.0
    ensures var (k', rs) := Run(k, Polls(p, nows));
            k' == k && forall i :: 0 <= i < |rs| ==> rs[i] == Reply(true, 0, p.burst, p.burst, 0)
  {
    hide Level, Written;
    var n := |nows|;
    if n == 0 {
    } else {
      UnmeteredRun(k, p, nows[..n - 1]);
      assert Polls(p, nows)[..n - 1] == Polls(p, nows[..n - 1]);
    }
  }
}
