/**
 Who may close which Redis client (internal/middleware/chain.go): limiter errors, the recovery loop, reloads, the cache
 client and shutdown, each cut at its lock regions.

 Clients are numbered as they are created.  Between taking a client out of the shared fields under the lock and closing
 it outside the lock, a goroutine holds it in a `closing` bag: one for the limiter side, one for the cache side.
 A disabled action leaves the state alone, so every sequence of actions is a run and every run is one.
 */
module RedisOwnership {
  import opened Options

  type Client = nat

  /** How many goroutines hold each client, or how often it has been closed. */
  type Bag = map<Client, nat>

  function Count(b: Bag, c: Client): nat {
    if c in b then b[c] else 0
  }

  function Plus(b: Bag, c: Client): Bag {
    b[c := Count(b, c) + 1]
  }

  function Minus(b: Bag, c: Client): Bag
    requires Count(b, c) > 0
  {
    b[c := Count(b, c) - 1]
  }

  function PlusOpt(b: Bag, o: Option<Client>): Bag {
    if o.Some? then Plus(b, o.value) else b
  }

  /** All that the accounts below use of bags. */
  lemma {:induction false} BagCounts(c: Client)
    ensures forall b: Bag, x: Client :: Count(Plus(b, x), c) == Count(b, c) + (if x == c then 1 else 0)
    ensures forall b: Bag, x: Client :: Count(b, x) > 0 ==> Count(Minus(b, x), c) == Count(b, c) - (if x == c then 1 else 0)
    ensures forall b: Bag, o: Option<Client> :: Count(PlusOpt(b, o), c) == Count(b, c) + Holds(o, c)
  {
  }

  function Holds(o: Option<Client>, c: Client): nat {
    if o == Some(c) then 1 else 0
  }

  /**
   The recovery loop: connecting, before or in its ping, past it, just installed and about to re-point borrowed aliases,
   or returned.
   */
  datatype Loop = Creating | Trying(client: Client) | Pinged(client: Client) | Rebinding(client: Client) | Ended

  /** c.limiter's client and the generation of the limiter object, which reload replaces; and the recovery loops. */
  datatype Main = Main(limiter: Option<Client>, generation: nat, reconnecting: bool, loops: seq<Loop>, closing: Bag)

  /**
   c.cacheRedis and cacheRedisOwned; the resolves in progress, those still deciding and the dedicated clients the others
   have connected; and the owned clients lost by being overwritten.
   */
  datatype Cache = Cache(client: Option<Client>, owned: bool, resolving: nat, deciding: nat, connecting: Bag,
                         closing: Bag, leaked: Bag)

  /** How far Close has come: the context canceled, the limiter swapped out, the cache client released. */
  datatype Shut = Open | Canceled | Swapped | Released

  /**
   What Close met and what came after it: a loop past its ping at the swap, and whether that loop then installed its client
   or found it unneeded, and whether a limiter error has since taken it out; a resolve in progress at the release or started
   later, and whether a dedicated client was stored after the release and has been released since.
   */
  datatype History = History(pingedAtSwap: bool, installed: bool, unneeded: bool, erroredSince: bool,
                             resolvingAtRelease: bool, resolvedAfter: bool, storedLate: bool, releasedSince: bool)

  datatype State = State(next: nat, main: Main, cache: Cache, dedicated: set<Client>, closed: Bag, shut: Shut,
                         hist: History)

  datatype Action =
    | LimiterError | StartRecovery | LoopEnd | ReloadLimiter | Cancel | SwapOut
    | LoopCreate(ok: bool) | LoopGiveUp | LoopReconfigured | LoopPing | LoopInstall(needed: bool) | LoopRebind
    | ResolveStart | ResolveConnect | ResolveStore(c: Client) | ResolveFallback | ReleaseCache | CloseRelease
    | DoClose(c: Client) | DoCloseCache(c: Client)

  function Init(withLimiter: bool): State {
    State(if withLimiter then 1 else 0, Main(if withLimiter then Some(0) else None, 0, false, [], map[]),
          Cache(None, false, 0, 0, map[], map[], map[]), {}, map[], Open,
          History(false, false, false, false, false, false, false, false))
  }

  predicate InLoop(m: Main, a: Action) {
    |m.loops| > 0 && match a
      case LoopCreate(_) => m.loops[0].Creating?
      case LoopRebind => m.loops[0].Rebinding?
      case LoopEnd => m.loops[0].Ended?
      case LoopInstall(_) => m.loops[0].Pinged?
      case _ => m.loops[0].Trying?
  }

  predicate Enabled(s: State, a: Action) {
    match a
    case StartRecovery => !s.main.reconnecting
    case Cancel => s.shut == Open
    case SwapOut => s.shut == Canceled
    case CloseRelease => s.shut == Swapped
    case LoopPing => InLoop(s.main, a) && s.shut == Open
    case LoopCreate(_) => InLoop(s.main, a)
    case LoopGiveUp => InLoop(s.main, a)
    case LoopReconfigured => InLoop(s.main, a)
    case LoopInstall(_) => InLoop(s.main, a)
    case LoopRebind => InLoop(s.main, a)
    case LoopEnd => InLoop(s.main, a)
    case ReloadLimiter => s.main.limiter.Some?
    case ResolveStart => s.cache.client.None?
    case ResolveConnect => s.cache.deciding > 0 && s.cache.resolving > 0
    case ResolveStore(c) => Count(s.cache.connecting, c) > 0 && s.cache.resolving > 0
    case ResolveFallback => s.cache.deciding > 0 && s.cache.resolving > 0
    case DoClose(c) => Count(s.main.closing, c) > 0
    case DoCloseCache(c) => Count(s.cache.closing, c) > 0
    case _ => true
  }

  /** swapLimiterLocked: install a client and hand the old one to the goroutine that will close it. */
  function Swap(m: Main, l: Option<Client>): Main {
    m.(limiter := l, closing := PlusOpt(m.closing, m.limiter))
  }

  function WithLoop(m: Main, l: Loop): Main
    requires |m.loops| > 0
  {
    m.(loops := m.loops[0 := l])
  }

  /** The client that c.cacheRedis owns; a borrowed alias is owned by the limiter. */
  function Owned(k: Cache): Option<Client> {
    if k.owned then k.client else None
  }

  predicate AfterSwap(s: State) {
    s.shut == Swapped || s.shut == Released
  }

  /** A loop may be started at any time, also by a request that looked at the context before it was canceled. */
  function ApplyMain(s: State, a: Action): State
    requires Enabled(s, a) && MainAction(a)
  {
    match a
    case StartRecovery => s.(main := s.main.(reconnecting := true, loops := s.main.loops + [Creating]))
    case LoopEnd => s.(main := s.main.(reconnecting := false, loops := s.main.loops[1..]))
    case ReloadLimiter => s.(main := s.main.(generation := s.main.generation + 1))
    case Cancel => s.(shut := Canceled)
    case SwapOut =>
      s.(main := Swap(s.main, None), shut := Swapped,
         hist := s.hist.(pingedAtSwap := |s.main.loops| > 0 && s.main.loops[0].Pinged?))
    case _ =>
      s.(main := Swap(s.main, None), hist := s.hist.(erroredSince := s.hist.erroredSince || s.hist.installed))
  }

  function ApplyLoop(s: State, a: Action): State
    requires Enabled(s, a) && LoopAction(a)
  {
    var m := s.main;
    match a
    case LoopCreate(ok) =>
      if ok then s.(main := WithLoop(m, Trying(s.next)), next := s.next + 1) else s.(main := WithLoop(m, Ended))
    case LoopGiveUp => s.(main := WithLoop(m, Ended), closed := Plus(s.closed, m.loops[0].client))
    case LoopReconfigured => s.(main := WithLoop(m, Creating), closed := Plus(s.closed, m.loops[0].client))
    case LoopPing => s.(main := WithLoop(m, Pinged(m.loops[0].client)))
    case LoopInstall(needed) =>
      var c, late := m.loops[0].client, AfterSwap(s);
      if needed then
        s.(main := Swap(WithLoop(m, Rebinding(c)), Some(c)), hist := s.hist.(installed := late))
      else
        var m' := Swap(WithLoop(m, Ended), None);
        s.(main := m'.(closing := Plus(m'.closing, c)), hist := s.hist.(unneeded := late))
    case LoopRebind =>
      s.(main := WithLoop(m, Ended),
         cache := if s.cache.owned then s.cache else s.cache.(client := Some(m.loops[0].client)))
  }

  function ApplyCache(s: State, a: Action): State
    requires Enabled(s, a) && CacheAction(a)
  {
    var k, h := s.cache, s.hist;
    match a
    case ResolveStart =>
      s.(cache := k.(resolving := k.resolving + 1, deciding := k.deciding + 1),
         hist := h.(resolvedAfter := h.resolvedAfter || s.shut == Released))
    case ResolveConnect =>
      s.(cache := k.(deciding := k.deciding - 1, connecting := Plus(k.connecting, s.next)),
         dedicated := s.dedicated + {s.next}, next := s.next + 1)
    case ResolveStore(c) =>
      s.(cache := k.(resolving := k.resolving - 1, connecting := Minus(k.connecting, c),
                     leaked := PlusOpt(k.leaked, Owned(k)), client := Some(c), owned := true),
         hist := if s.shut == Released then h.(storedLate := true, releasedSince := false) else h)
    case ResolveFallback =>
      var k' := k.(resolving := k.resolving - 1, deciding := k.deciding - 1);
      if s.main.limiter.Some?
      then s.(cache := k'.(leaked := PlusOpt(k.leaked, Owned(k)), client := s.main.limiter, owned := false))
      else s.(cache := k')
    case ReleaseCache => s.(cache := Freed(k), hist := h.(releasedSince := h.storedLate))
    case CloseRelease => s.(cache := Freed(k), shut := Released, hist := h.(resolvingAtRelease := k.resolving > 0))
  }

  /** releaseCacheRedis: clear the pointer, and hand an owned client to the goroutine that will close it. */
  function Freed(k: Cache): Cache {
    k.(client := None, owned := false, closing := PlusOpt(k.closing, Owned(k)))
  }

  predicate MainAction(a: Action) {
    a.LimiterError? || a.StartRecovery? || a.LoopEnd? || a.ReloadLimiter? || a.Cancel? || a.SwapOut?
  }

  predicate LoopAction(a: Action) {
    a.LoopCreate? || a.LoopGiveUp? || a.LoopReconfigured? || a.LoopPing? || a.LoopInstall? || a.LoopRebind?
  }

  predicate CacheAction(a: Action) {
    || a.ResolveStart? || a.ResolveConnect? || a.ResolveStore? || a.ResolveFallback? || a.ReleaseCache? || a.CloseRelease?
  }

  function Apply(s: State, a: Action): State {
    if !Enabled(s, a) then s
    else if MainAction(a) then ApplyMain(s, a)
    else if LoopAction(a) then ApplyLoop(s, a)
    else if CacheAction(a) then ApplyCache(s, a)
    else match a
      case DoClose(c) => s.(main := s.main.(closing := Minus(s.main.closing, c)), closed := Plus(s.closed, c))
      case DoCloseCache(c) => s.(cache := s.cache.(closing := Minus(s.cache.closing, c)), closed := Plus(s.closed, c))
  }

  function Exec(s: State, acts: seq<Action>): State {
    if |acts| == 0 then s else Apply(Exec(s, acts[..|acts| - 1]), acts[|acts| - 1])
  }

  // ---------------------------------------------------------------- every client in one place

  function LoopClient(m: Main): Option<Client> {
    if |m.loops| > 0 && (m.loops[0].Trying? || m.loops[0].Pinged?) then Some(m.loops[0].client) else None
  }

  /** How often `c` occurs among the holders of limiter clients, of cache clients, and anywhere at all. */
  function MainSide(m: Main, c: Client): nat {
    Holds(m.limiter, c) + Holds(LoopClient(m), c) + Count(m.closing, c)
  }

  function CacheSide(k: Cache, c: Client): nat {
    Holds(Owned(k), c) + Count(k.connecting, c) + Count(k.closing, c) + Count(k.leaked, c)
  }

  function Places(s: State, c: Client): nat {
    MainSide(s.main, c) + CacheSide(s.cache, c) + Count(s.closed, c)
  }

  /** Each client created is in exactly one place, once: dedicated ones on the cache side, all others on the main side. */
  predicate Accounted(s: State, c: Client) {
    && Places(s, c) == (if c < s.next then 1 else 0)
    && (CacheSide(s.cache, c) > 0 ==> c in s.dedicated)
    && (MainSide(s.main, c) > 0 ==> c !in s.dedicated)
    && (c in s.dedicated ==> c < s.next)
  }

  predicate LoopInv(s: State) {
    && |s.main.loops| <= 1
    && (s.main.reconnecting <==> |s.main.loops| == 1)
    && (s.cache.owned ==> s.cache.client.Some?)
  }

  ghost predicate Inv(s: State) {
    LoopInv(s) && forall c: Client :: Accounted(s, c)
  }

  lemma {:induction false} LoopStep(s: State, a: Action)
    requires LoopInv(s)
    ensures LoopInv(Apply(s, a))
  {
    hide Plus, Minus, PlusOpt;
  }

  lemma {:induction false} MainAccounts(s: State, a: Action, c: Client)
    requires LoopInv(s) && Accounted(s, c) && Enabled(s, a) && MainAction(a)
    ensures Accounted(ApplyMain(s, a), c)
  {
    hide CacheSide, Plus, Minus, PlusOpt, Count;
    BagCounts(c);
  }

  lemma {:induction false} RebindAccounts(s: State, c: Client)
    requires LoopInv(s) && Accounted(s, c) && Enabled(s, LoopRebind)
    ensures Accounted(ApplyLoop(s, LoopRebind), c)
  {
    hide Count;
  }

  lemma {:induction false} InstallAccounts(s: State, needed: bool, c: Client)
    requires LoopInv(s) && Accounted(s, c) && Enabled(s, LoopInstall(needed))
    ensures Accounted(ApplyLoop(s, LoopInstall(needed)), c)
  {
    hide CacheSide, Plus, Minus, PlusOpt, Count;
    BagCounts(c);
  }

  lemma {:induction false} LoopAccounts(s: State, a: Action, c: Client)
    requires LoopInv(s) && Accounted(s, c) && Enabled(s, a)
    requires a.LoopCreate? || a.LoopGiveUp? || a.LoopReconfigured? || a.LoopPing?
    ensures Accounted(ApplyLoop(s, a), c)
  {
    hide CacheSide, Plus, Minus, PlusOpt, Count;
    BagCounts(c);
  }

  lemma {:induction false} CacheAccounts(s: State, a: Action, c: Client)
    requires LoopInv(s) && Accounted(s, c) && Enabled(s, a) && CacheAction(a)
    ensures Accounted(ApplyCache(s, a), c)
  {
    hide MainSide, Plus, Minus, PlusOpt, Count;
    BagCounts(c);
  }

  lemma {:induction false} CloseAccounts(s: State, a: Action, c: Client)
    requires LoopInv(s) && Accounted(s, c) && (a.DoClose? || a.DoCloseCache?)
    ensures Accounted(Apply(s, a), c)
  {
    hide Plus, Minus, PlusOpt, Count;
    BagCounts(c);
  }

  lemma {:induction false} StepAccounts(s: State, a: Action, c: Client)
    requires LoopInv(s) && Accounted(s, c)
    ensures Accounted(Apply(s, a), c)
  {
    hide ApplyMain, ApplyLoop, ApplyCache, Accounted, LoopInv, Enabled;
    if Enabled(s, a) {
      if MainAction(a) {
        MainAccounts(s, a, c);
      } else if a.LoopRebind? {
        RebindAccounts(s, c);
      } else if a.LoopInstall? {
        InstallAccounts(s, a.needed, c);
      } else if LoopAction(a) {
        LoopAccounts(s, a, c);
      } else if CacheAction(a) {
        CacheAccounts(s, a, c);
      } else {
        CloseAccounts(s, a, c);
      }
    }
  }

  lemma {:induction false} StepInv(s: State, a: Action)
    requires Inv(s)
    ensures Inv(Apply(s, a))
  {
    hide Apply, Accounted, LoopInv;
    LoopStep(s, a);
    forall c: Client
      ensures Accounted(Apply(s, a), c)
    {
      StepAccounts(s, a, c);
    }
  }

  lemma {:induction false} InvHolds(withLimiter: bool, acts: seq<Action>)
    ensures Inv(Exec(Init(withLimiter), acts))
  {
    hide Apply, Inv;
    if |acts| == 0 {
      InitInv(withLimiter);
    } else {
      InvHolds(withLimiter, acts[..|acts| - 1]);
      StepInv(Exec(Init(withLimiter), acts[..|acts| - 1]), acts[|acts| - 1]);
    }
  }

  lemma {:induction false} InitInv(withLimiter: bool)
    ensures Inv(Init(withLimiter))
  {
    hide Accounted;
    forall c: Client
      ensures Accounted(Init(withLimiter), c)
    {
      InitAccounted(withLimiter, c);
    }
  }

  lemma {:induction false} InitAccounted(withLimiter: bool, c: Client)
    ensures Accounted(Init(withLimiter), c)
  {
    var s := Init(withLimiter);
    var none: Bag := map[];
    assert s.main.closing == none && s.closed == none && s.cache == Cache(None, false, 0, 0, none, none, none);
    assert LoopClient(s.main) == None && Owned(s.cache) == None && s.dedicated == {};
    assert s.next == (if withLimiter then 1 else 0) && s.main.limiter == if withLimiter then Some(0) else None;
    EmptyBag(c);
    hide Count, Init, LoopClient, Owned;
  }

  lemma {:induction false} EmptyBag(c: Client)
    ensures Count(map[], c) == 0
  {
  }

  /**
   Over every interleaving, each client is closed at most once; while one is installed as the limiter's it is neither
   closed nor about to be; and each client created is at every moment in exactly one place.
   */
  lemma {:induction false} ClosedAtMostOnce(withLimiter: bool, acts: seq<Action>, c: Client)
    ensures var s := Exec(Init(withLimiter), acts);
            && Count(s.closed, c) <= 1
            && (s.main.limiter == Some(c) ==>
                  Count(s.closed, c) == Count(s.main.closing, c) == Count(s.cache.closing, c) == 0)
            && Places(s, c) == if c < s.next then 1 else 0
  {
    hide Exec;
    InvHolds(withLimiter, acts);
    assert Accounted(Exec(Init(withLimiter), acts), c);
  }

  /** The cache side closes dedicated clients only, the main side never does, and at most one recovery loop runs. */
  lemma {:induction false} SidesStayApart(withLimiter: bool, acts: seq<Action>, c: Client)
    ensures var s := Exec(Init(withLimiter), acts);
            && (Count(s.cache.closing, c) > 0 ==> c in s.dedicated)
            && (Count(s.main.closing, c) > 0 ==> c !in s.dedicated)
            && |s.main.loops| <= 1 && (s.main.reconnecting <==> |s.main.loops| == 1)
  {
    hide Exec;
    InvHolds(withLimiter, acts);
    assert Accounted(Exec(Init(withLimiter), acts), c);
  }

  // ---------------------------------------------------------------- leaks

  ghost predicate OneResolver(s: State, acts: seq<Action>) {
    forall i :: 0 <= i <= |acts| ==> Exec(s, acts[..i]).cache.resolving <= 1
  }

  /** Nothing leaked, and no owned client is in place while a resolve is in progress. */
  predicate LeakFree(s: State) {
    s.cache.leaked == map[] && (s.cache.resolving > 0 ==> !s.cache.owned)
  }

  lemma {:induction false} LeakFreeStep(s: State, a: Action)
    requires LoopInv(s) && LeakFree(s) && s.cache.resolving <= 1
    requires Apply(s, a).cache.resolving <= 1
    ensures LeakFree(Apply(s, a))
  {
    hide Plus, Minus, Swap;
  }

  lemma {:induction false} OneResolverEarlier(s: State, acts: seq<Action>)
    requires OneResolver(s, acts) && acts != []
    ensures OneResolver(s, acts[..|acts| - 1])
  {
    hide Exec;
    var earlier := acts[..|acts| - 1];
    forall i | 0 <= i <= |earlier| ensures Exec(s, earlier[..i]).cache.resolving <= 1 {
      assert earlier[..i] == acts[..i];
    }
  }

  /** As long as cache resolves do not overlap, none overwrites a client that another stored. */
  lemma {:induction false} NoLeakWithOneResolver(withLimiter: bool, acts: seq<Action>)
    requires OneResolver(Init(withLimiter), acts)
    ensures LeakFree(Exec(Init(withLimiter), acts))
  {
    hide Apply, Accounted;
    var n := |acts|;
    if n > 0 {
      var earlier := acts[..n - 1];
      OneResolverEarlier(Init(withLimiter), acts);
      NoLeakWithOneResolver(withLimiter, earlier);
      InvHolds(withLimiter, earlier);
      assert acts[..n] == acts;
      assert Exec(Init(withLimiter), acts[..n - 1]).cache.resolving <= 1;
      LeakFreeStep(Exec(Init(withLimiter), earlier), acts[n - 1]);
    }
  }

  lemma {:induction false} ExecStep(s: State, acts: seq<Action>, a: Action) returns (acts': seq<Action>)
    ensures acts' == acts + [a] && Exec(s, acts') == Apply(Exec(s, acts), a)
  {
    hide Apply;
    acts' := acts + [a];
    assert acts'[..|acts|] == acts;
  }

  lemma {:induction false} DoesStart(s: State)
    requires s.cache.client.None? && s.shut != Released
    ensures Apply(s, ResolveStart)
            == s.(cache := s.cache.(resolving := s.cache.resolving + 1, deciding := s.cache.deciding + 1))
  {
  }

  lemma {:induction false} DoesConnect(s: State)
    requires s.cache.deciding > 0 && s.cache.resolving > 0
    ensures var k := s.cache;
            Apply(s, ResolveConnect)
            == s.(cache := k.(deciding := k.deciding - 1, connecting := Plus(k.connecting, s.next)),
                  dedicated := s.dedicated + {s.next}, next := s.next + 1)
  {
    hide Plus;
  }

  lemma {:induction false} DoesStore(s: State, c: Client)
    requires Count(s.cache.connecting, c) > 0 && s.cache.resolving > 0
    ensures var k, k' := s.cache, Apply(s, ResolveStore(c)).cache;
            && k'.client == Some(c) && k'.owned && k'.resolving == k.resolving - 1 && k'.deciding == k.deciding
            && k'.connecting == Minus(k.connecting, c) && k'.leaked == PlusOpt(k.leaked, Owned(k)) && k'.closing == k.closing
    ensures var s' := Apply(s, ResolveStore(c));
            s'.main == s.main && s'.closed == s.closed && s'.shut == s.shut
            && s'.hist.resolvingAtRelease == s.hist.resolvingAtRelease
  {
    hide Minus, PlusOpt, Count;
  }

  /**
   That is a condition on callers, which the constructor and the reloads of one goroutine meet.  The resolve itself does not
   see to it: of two at once, the second store would overwrite a dedicated client that nobody closes.
   */
  lemma {:induction false} OverlappingResolvesLeak() returns (acts: seq<Action>)
    ensures Count(Exec(Init(true), acts).cache.leaked, 1) == 1
  {
    var s := Init(true);
    acts := [];
    assert Exec(s, acts) == s;
    hide Exec, Apply;
    DoesStart(s);
    acts := ExecStep(s, acts, ResolveStart);
    DoesStart(Exec(s, acts));
    acts := ExecStep(s, acts, ResolveStart);
    assert Exec(s, acts) == s.(cache := Cache(None, false, 2, 2, map[], map[], map[]));
    DoesConnect(Exec(s, acts));
    acts := ExecStep(s, acts, ResolveConnect);
    DoesConnect(Exec(s, acts));
    acts := ExecStep(s, acts, ResolveConnect);
    assert Exec(s, acts).cache == Cache(None, false, 2, 0, map[1 := 1, 2 := 1], map[], map[]);
    DoesStore(Exec(s, acts), 1);
    acts := ExecStep(s, acts, ResolveStore(1));
    assert Exec(s, acts).cache.connecting == map[1 := 0, 2 := 1];
    DoesStore(Exec(s, acts), 2);
    acts := ExecStep(s, acts, ResolveStore(2));
  }

  // ---------------------------------------------------------------- shutdown

  /** What Close met determines what is installed after it. */
  predicate ShutInv(s: State) {
    var h := s.hist;
    var pinged := |s.main.loops| > 0 && s.main.loops[0].Pinged?;
    && (AfterSwap(s) ==>
          && (s.main.limiter.Some? <==> h.installed && !h.erroredSince)
          && (h.pingedAtSwap <==> h.installed || h.unneeded || pinged)
          && !(h.installed && h.unneeded) && (pinged ==> !h.installed && !h.unneeded)
          && (h.erroredSince ==> h.installed))
    && (!AfterSwap(s) ==> !h.installed && !h.unneeded && !h.erroredSince)
    && (s.shut == Released ==>
          && (s.cache.owned <==> h.storedLate && !h.releasedSince)
          && (h.storedLate || s.cache.resolving > 0 ==> h.resolvingAtRelease || h.resolvedAfter))
    && (s.shut != Released ==> !h.storedLate && !h.releasedSince && !h.resolvedAfter)
  }

  lemma {:induction false} ShutMain(s: State, a: Action)
    requires ShutInv(s) && LoopInv(s) && Enabled(s, a) && MainAction(a)
    ensures ShutInv(ApplyMain(s, a))
  {
    hide PlusOpt;
  }

  lemma {:induction false} ShutLoop(s: State, a: Action)
    requires ShutInv(s) && LoopInv(s) && Enabled(s, a) && LoopAction(a)
    ensures ShutInv(ApplyLoop(s, a))
  {
    hide Plus, PlusOpt;
  }

  lemma {:induction false} ShutCache(s: State, a: Action)
    requires ShutInv(s) && LeakFree(s) && Enabled(s, a) && CacheAction(a)
    ensures ShutInv(ApplyCache(s, a))
  {
    hide Plus, Minus, PlusOpt, Count;
  }

  lemma {:induction false} ShutStep(s: State, a: Action)
    requires ShutInv(s) && LoopInv(s) && LeakFree(s)
    ensures ShutInv(Apply(s, a))
  {
    hide ApplyMain, ApplyLoop, ApplyCache, LoopInv, LeakFree;
    if Enabled(s, a) {
      if MainAction(a) {
        ShutMain(s, a);
      } else if LoopAction(a) {
        ShutLoop(s, a);
      } else if CacheAction(a) {
        ShutCache(s, a);
      }
    }
  }

  lemma {:induction false} ShutHolds(withLimiter: bool, acts: seq<Action>)
    requires OneResolver(Init(withLimiter), acts)
    ensures ShutInv(Exec(Init(withLimiter), acts))
  {
    hide Apply, Accounted;
    var n := |acts|;
    if n == 0 {
      assert Exec(Init(withLimiter), acts) == Init(withLimiter);
    } else {
      hide ShutInv, LeakFree, LoopInv;
      OneResolverEarlier(Init(withLimiter), acts);
      ShutHolds(withLimiter, acts[..n - 1]);
      NoLeakWithOneResolver(withLimiter, acts[..n - 1]);
      InvHolds(withLimiter, acts[..n - 1]);
      ShutStep(Exec(Init(withLimiter), acts[..n - 1]), acts[n - 1]);
    }
  }

  /** Close has returned and no goroutine has anything left to do. */
  ghost predicate Quiescent(s: State) {
    && s.shut == Released && s.main.loops == [] && s.cache.resolving == 0
    && forall c :: Count(s.main.closing, c) == Count(s.cache.closing, c) == Count(s.cache.connecting, c) == 0
  }

  ghost predicate AllClosed(s: State) {
    forall c: Client :: c < s.next ==> Count(s.closed, c) == 1
  }

  lemma {:induction false} OpenOnes(s: State)
    requires Inv(s) && LeakFree(s) && Quiescent(s)
    ensures AllClosed(s) <==> s.main.limiter.None? && !s.cache.owned
  {
    if s.main.limiter.Some? {
      assert Accounted(s, s.main.limiter.value);
    } else if s.cache.owned {
      assert Accounted(s, s.cache.client.value);
    } else {
      forall c: Client | c < s.next ensures Count(s.closed, c) == 1 {
        assert Accounted(s, c);
        assert Count(s.cache.leaked, c) == 0;
      }
    }
  }

  /**
   When all is over after Close, every client ever created is closed if and only if
   - a recovery loop that was past its ping at Close's swap, if any, found its client unneeded, or a later limiter error
     took it out again, and
   - a dedicated cache client stored after Close's release, if any, was released again.
   Such a store comes from a resolve that was in progress at the release or started after it.
   */
  lemma {:induction false} ShutdownIff(withLimiter: bool, acts: seq<Action>)
    requires OneResolver(Init(withLimiter), acts) && Quiescent(Exec(Init(withLimiter), acts))
    ensures var s := Exec(Init(withLimiter), acts);
            var h := s.hist;
            && (AllClosed(s) <==> (h.pingedAtSwap ==> h.unneeded || h.erroredSince) && (h.storedLate ==> h.releasedSince))
            && (h.storedLate ==> h.resolvingAtRelease || h.resolvedAfter)
            && (!h.pingedAtSwap && !h.resolvingAtRelease && !h.resolvedAfter ==> AllClosed(s))
  {
    hide Exec, Accounted, AllClosed;
    InvHolds(withLimiter, acts);
    NoLeakWithOneResolver(withLimiter, acts);
    ShutHolds(withLimiter, acts);
    OpenOnes(Exec(Init(withLimiter), acts));
  }

  lemma {:induction false} DoesCancel(s: State)
    requires s.shut == Open
    ensures Apply(s, Cancel) == s.(shut := Canceled)
  {
  }

  lemma {:induction false} DoesSwap(s: State)
    requires s.shut == Canceled && s.main.limiter.None?
    ensures Apply(s, SwapOut)
            == s.(shut := Swapped, hist := s.hist.(pingedAtSwap := |s.main.loops| > 0 && s.main.loops[0].Pinged?))
  {
  }

  lemma {:induction false} DoesRelease(s: State)
    requires s.shut == Swapped && s.cache.client.None? && !s.cache.owned
    ensures Apply(s, CloseRelease) == s.(shut := Released, hist := s.hist.(resolvingAtRelease := s.cache.resolving > 0))
  {
  }

  /** Close, when no client is installed. */
  lemma {:induction false} CloseAll(s: State, acts: seq<Action>) returns (acts': seq<Action>)
    requires var m := Exec(s, acts); m.shut == Open && m.main.limiter.None? && m.cache.client.None? && !m.cache.owned
    ensures acts' == acts + [Cancel] + [SwapOut] + [CloseRelease]
    ensures var m := Exec(s, acts);
            Exec(s, acts') == m.(shut := Released,
                                 hist := m.hist.(pingedAtSwap := |m.main.loops| > 0 && m.main.loops[0].Pinged?,
                                                 resolvingAtRelease := m.cache.resolving > 0))
  {
    hide Exec, Apply;
    DoesCancel(Exec(s, acts));
    acts' := ExecStep(s, acts, Cancel);
    DoesSwap(Exec(s, acts'));
    acts' := ExecStep(s, acts', SwapOut);
    DoesRelease(Exec(s, acts'));
    acts' := ExecStep(s, acts', CloseRelease);
  }

  lemma {:induction false} DoesRecover(s: State)
    requires !s.main.reconnecting && s.main.loops == []
    ensures Apply(s, StartRecovery) == s.(main := s.main.(reconnecting := true, loops := [Creating]))
  {
  }

  lemma {:induction false} DoesCreate(s: State)
    requires s.main.loops == [Creating]
    ensures Apply(s, LoopCreate(true)) == s.(main := s.main.(loops := [Trying(s.next)]), next := s.next + 1)
  {
  }

  lemma {:induction false} DoesPing(s: State, c: Client)
    requires s.main.loops == [Trying(c)] && s.shut == Open
    ensures Apply(s, LoopPing) == s.(main := s.main.(loops := [Pinged(c)]))
  {
  }

  lemma {:induction false} DoesInstall(s: State, c: Client)
    requires s.main.loops == [Pinged(c)]
    ensures var s' := Apply(s, LoopInstall(true));
            && s'.main.limiter == Some(c) && s'.closed == s.closed && s'.shut == s.shut
            && s'.hist.pingedAtSwap == s.hist.pingedAtSwap
  {
  }

  /** Both can happen: a loop whose ping succeeded just before Close installs its client after the swap. */
  lemma {:induction false} InstallAfterShutdown() returns (acts: seq<Action>)
    ensures var s := Exec(Init(false), acts);
            s.shut == Released && s.hist.pingedAtSwap && s.main.limiter == Some(0) && Count(s.closed, 0) == 0
  {
    var s := Init(false);
    acts := [];
    assert Exec(s, acts) == s;
    hide Exec, Apply;
    DoesRecover(s);
    acts := ExecStep(s, acts, StartRecovery);
    DoesCreate(Exec(s, acts));
    acts := ExecStep(s, acts, LoopCreate(true));
    DoesPing(Exec(s, acts), 0);
    acts := ExecStep(s, acts, LoopPing);
    acts := CloseAll(s, acts);
    DoesInstall(Exec(s, acts), 0);
    acts := ExecStep(s, acts, LoopInstall(true));
  }

  /** And a single resolve that connected before Close's release stores its client after it. */
  lemma {:induction false} StoreAfterShutdown() returns (acts: seq<Action>)
    ensures var s := Exec(Init(false), acts);
            s.shut == Released && s.hist.resolvingAtRelease && s.cache.owned && s.cache.client == Some(0)
            && Count(s.closed, 0) == 0 && Quiescent(s)
  {
    var s := Init(false);
    acts := [];
    assert Exec(s, acts) == s;
    hide Exec, Apply;
    DoesStart(s);
    acts := ExecStep(s, acts, ResolveStart);
    DoesConnect(Exec(s, acts));
    acts := ExecStep(s, acts, ResolveConnect);
    acts := CloseAll(s, acts);
    assert Exec(s, acts).cache.connecting == map[0 := 1];
    DoesStore(Exec(s, acts), 0);
    acts := ExecStep(s, acts, ResolveStore(0));
  }

  // ---------------------------------------------------------------- borrowed clients

  predicate Rebinds(m: Main) {
    |m.loops| > 0 && m.loops[0].Rebinding?
  }

  /** A loop that has installed its client still has it installed, or no client is. */
  predicate RebindsCurrent(s: State) {
    Rebinds(s.main) ==> s.main.limiter == None || s.main.limiter == Some(s.main.loops[0].client)
  }

  /** The cache client, if borrowed, is the limiter's, unless that is gone or just about to be handed on. */
  predicate BorrowsCurrent(s: State) {
    s.cache.client.Some? && !s.cache.owned ==>
      s.main.limiter == None || s.main.limiter == s.cache.client || Rebinds(s.main)
  }

  lemma {:induction false} BorrowStep(s: State, a: Action)
    requires LoopInv(s) && RebindsCurrent(s) && BorrowsCurrent(s)
    ensures RebindsCurrent(Apply(s, a)) && BorrowsCurrent(Apply(s, a))
  {
    hide Plus, Minus, PlusOpt, Count;
  }

  /**
   In every run, a cache client borrowed from the limiter is the one that the limiter has, as soon as no recovery loop is
   about to re-point it; only while there is no limiter may it be an old one.
   */
  lemma {:induction false} BorrowedIsCurrent(withLimiter: bool, acts: seq<Action>)
    ensures var s := Exec(Init(withLimiter), acts);
            && RebindsCurrent(s)
            && (s.cache.client.Some? && !s.cache.owned && s.main.limiter.Some? && !Rebinds(s.main) ==>
                  s.cache.client == s.main.limiter)
  {
    BorrowsInRuns(withLimiter, acts);
  }

  lemma {:induction false} BorrowsInRuns(withLimiter: bool, acts: seq<Action>)
    ensures RebindsCurrent(Exec(Init(withLimiter), acts)) && BorrowsCurrent(Exec(Init(withLimiter), acts))
  {
    hide Apply, LoopInv, Accounted;
    if |acts| == 0 {
    } else {
      BorrowsInRuns(withLimiter, acts[..|acts| - 1]);
      InvHolds(withLimiter, acts[..|acts| - 1]);
      BorrowStep(Exec(Init(withLimiter), acts[..|acts| - 1]), acts[|acts| - 1]);
    }
  }
}
