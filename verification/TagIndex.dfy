/**
 The tag index of the response cache (internal/cache/cache.go): for each tag a Redis set of the keys that carry it,
 whose expiry is only ever raised, and the purge of everything that carries a tag.
 Times are in milliseconds.  A key with an expiry is there before that instant and gone from it on.
 */
module TagIndex {
  import opened Options

  datatype Tagged = Tagged(tags: seq<string>, exp: int)

  datatype TagSet = TagSet(members: set<string>, exp: Option<int>)

  datatype Redis = Redis(now: int, entries: map<string, Tagged>, sets: map<string, TagSet>)

  predicate LiveEntry(r: Redis, key: string) {
    key in r.entries && r.now < r.entries[key].exp
  }

  predicate LiveSet(r: Redis, t: string) {
    t in r.sets && (r.sets[t].exp.None? || r.now < r.sets[t].exp.value)
  }

  function Members(r: Redis, t: string): set<string> {
    if LiveSet(r, t) then r.sets[t].members else {}
  }

  function SetEntry(r: Redis, key: string, tags: seq<string>, ttl: int): Redis {
    r.(entries := r.entries[key := Tagged(tags, r.now + ttl)])
  }

  /** SADD: a set that has lapsed is made anew, without an expiry. */
  function SAdd(r: Redis, t: string, key: string): Redis {
    r.(sets := r.sets[t := TagSet(Members(r, t) + {key}, if LiveSet(r, t) then r.sets[t].exp else None)])
  }

  /** The grow-only script: PTTL is negative for a set without expiry, and PEXPIRE of a missing key does nothing. */
  function Grow(r: Redis, t: string, ttl: int): Redis {
    if LiveSet(r, t) && (r.sets[t].exp.None? || ttl > r.sets[t].exp.value - r.now)
    then r.(sets := r.sets[t := r.sets[t].(exp := Some(r.now + ttl))])
    else r
  }

  function DelEntries(r: Redis, keys: set<string>): Redis {
    r.(entries := r.entries - keys)
  }

  function DelSet(r: Redis, t: string): Redis {
    r.(sets := r.sets - {t})
  }

  function Tick(r: Redis, d: nat): Redis {
    r.(now := r.now + d)
  }

  /** A response that would be served carries the tag. */
  predicate Carries(r: Redis, key: string, t: string) {
    LiveEntry(r, key) && t in r.entries[key].tags
  }

  /** The tag's set holds the key and will do so until then; a set without expiry may yet be given an early one. */
  predicate Holds(r: Redis, t: string, key: string, until: int) {
    key in Members(r, t) && r.sets[t].exp.Some? && r.sets[t].exp.value >= until
  }

  /** A purge of any tag would find every live response that carries it, now and for as long as that lives. */
  ghost predicate Indexed(r: Redis) {
    forall key, t :: Carries(r, key, t) ==> Holds(r, t, key, r.entries[key].exp)
  }

  // ---------------------------------------------------------------- single commands

  lemma {:induction false} EntriesAside(r: Redis, entries: map<string, Tagged>, t: string, key: string, until: int)
    ensures Holds(r.(entries := entries), t, key, until) <==> Holds(r, t, key, until)
  {
  }

  lemma {:induction false} SAddKeeps(r: Redis, t: string, key: string, t': string, key': string, until: int)
    requires Holds(r, t', key', until)
    ensures Holds(SAdd(r, t, key), t', key', until)
  {
  }

  lemma {:induction false} GrowKeeps(r: Redis, t: string, ttl: int, t': string, key': string, until: int)
    requires Holds(r, t', key', until) && ttl > 0
    ensures Holds(Grow(r, t, ttl), t', key', until)
  {
  }

  lemma {:induction false} GrowRaises(r: Redis, t: string, ttl: int, key: string)
    requires key in Members(r, t) && ttl > 0
    ensures Holds(Grow(r, t, ttl), t, key, r.now + ttl)
  {
  }

  lemma {:induction false} GrowMembers(r: Redis, t: string, ttl: int, t': string)
    requires ttl > 0
    ensures Members(Grow(r, t, ttl), t') == Members(r, t')
  {
  }

  lemma {:induction false} TickKeeps(r: Redis, d: nat, t: string, key: string)
    requires Carries(Tick(r, d), key, t)
    ensures Carries(r, key, t)
    ensures Holds(r, t, key, r.entries[key].exp) ==> Holds(Tick(r, d), t, key, r.entries[key].exp)
  {
  }

  /**
   A write with one tag, with time passing before its SADD and before its script: while the response lives, its key is
   in a set that outlives it if and only if the set that the SADD met did not lapse before the script.
   */
  lemma {:induction false} LapseIff(r: Redis, t: string, key: string, ttl: int, d1: nat, d2: nat)
    requires d1 + d2 < ttl
    ensures var met := Tick(SetEntry(r, key, [t], ttl), d1);
            var done := Grow(Tick(SAdd(met, t, key), d2), t, ttl);
            && Carries(done, key, t)
            && (Holds(done, t, key, done.entries[key].exp)
                <==> !(LiveSet(met, t) && met.sets[t].exp.Some? && met.sets[t].exp.value <= done.now))
  {
    var met := Tick(SetEntry(r, key, [t], ttl), d1);
    var added := Tick(SAdd(met, t, key), d2);
    assert t in [t];
    if LiveSet(added, t) {
      GrowRaises(added, t, ttl, key);
    }
  }

  // ---------------------------------------------------------------- the store, one operation at a time

  /** The set of a tag after a write of `key`: the live members and the key, until the later of the two expiries. */
  ghost predicate Extended(before: Redis, after: Redis, t: string, key: string, until: int) {
    && LiveSet(after, t) && after.sets[t].exp.Some? && Members(after, t) == Members(before, t) + {key}
    && after.sets[t].exp.value == (if LiveSet(before, t) && before.sets[t].exp.Some? && before.sets[t].exp.value > until
                                   then before.sets[t].exp.value else until)
  }

  class Store {
    var now: int
    var entries: map<string, Tagged>
    var sets: map<string, TagSet>

    function Db(): Redis
      reads this
    {
      Redis(now, entries, sets)
    }

    constructor ()
      ensures Db() == Redis(0, map[], map[]) && Indexed(Db())
    {
      now, entries, sets := 0, map[], map[];
    }

    /** Time passes between operations; inside one, the clock stands still. */
    method Advance(d: nat)
      requires Indexed(Db())
      modifies `now
      ensures Indexed(Db()) && now == old(now) + d
    {
      ghost var r := Db();
      now := now + d;
      forall key, t | Carries(Db(), key, t) ensures Holds(Db(), t, key, entries[key].exp) {
        TickKeeps(r, d, t, key);
      }
    }

    method Write(key: string, tags: seq<string>, ttl: int) returns (ok: bool)
      requires Indexed(Db())
      modifies `entries, `sets
      ensures Indexed(Db()) && ok == (ttl > 0)
      ensures !ok ==> Db() == old(Db())
      ensures ok ==> entries == old(entries)[key := Tagged(tags, now + ttl)]
      ensures ok ==> forall t :: t in tags ==> Extended(old(Db()), Db(), t, key, now + ttl)
      ensures forall t :: t !in tags ==> Members(Db(), t) == Members(old(Db()), t)
    {
      hide SAdd, Grow, Holds, Extended, Members;
      if ttl <= 0 {
        return false;
      }
      ghost var before := Db();
      entries := entries[key := Tagged(tags, now + ttl)];
      forall k, t | k != key && Carries(before, k, t) ensures Holds(Db(), t, k, before.entries[k].exp) {
        EntriesAside(before, entries, t, k, before.entries[k].exp);
      }
      for i := 0 to |tags|
        invariant entries == before.entries[key := Tagged(tags, now + ttl)]
        invariant forall k, t :: k != key && Carries(before, k, t) ==> Holds(Db(), t, k, before.entries[k].exp)
        invariant forall t :: t in tags[..i] ==> Extended(before, Db(), t, key, now + ttl)
        invariant forall t :: t !in tags[..i] ==> Same(before, Db(), t)
      {
        ghost var db := Db();
        var t := tags[i];
        AddTag(t, key, ttl);
        ghost var seen := tags[..i + 1];
        forall t' | t' in seen ensures Extended(before, Db(), t', key, now + ttl) {
          ExtendedStep(before, db, Db(), tags[..i], t, t', key, ttl);
        }
        forall k, t' | k != key && Carries(before, k, t') ensures Holds(Db(), t', k, before.entries[k].exp) {
          SAddKeeps(db, t, key, t', k, before.entries[k].exp);
          GrowKeeps(SAdd(db, t, key), t, ttl, t', k, before.entries[k].exp);
        }
        forall t' | t' !in tags[..i + 1] ensures Same(before, Db(), t') {
          assert t' !in tags[..i] && tags[..i + 1][i] == t;
          OthersSame(db, t, key, ttl, t');
        }
      }
      assert tags[..|tags|] == tags;
      ok := true;
      forall t | t in tags ensures Holds(Db(), t, key, now + ttl) {
        ExtendedHolds(before, Db(), t, key, now + ttl);
      }
      forall t | t !in tags ensures Members(Db(), t) == Members(before, t) {
        SameMembers(before, Db(), t);
      }
    }

    /** SADD and the grow-only script. */
    method AddTag(t: string, key: string, ttl: int)
      modifies `sets
      ensures Db() == Grow(SAdd(old(Db()), t, key), t, ttl)
    {
      var live, members := LiveSet(Db(), t), Members(Db(), t);
      sets := sets[t := TagSet(members + {key}, if live then sets[t].exp else None)];
      if sets[t].exp.None? || ttl > sets[t].exp.value - now {
        sets := sets[t := sets[t].(exp := Some(now + ttl))];
      }
    }

    method Delete(key: string) returns (found: bool)
      requires Indexed(Db())
      modifies `entries
      ensures Indexed(Db()) && entries == old(entries) - {key} && found == LiveEntry(old(Db()), key)
    {
      hide Holds;
      found := LiveEntry(Db(), key);
      entries := entries - {key};
      DeletedIndexed(old(Db()), {key});
    }

    method DeleteByTag(t: string) returns (n: nat)
      requires Indexed(Db())
      modifies `entries, `sets
      ensures Indexed(Db())
      ensures forall key :: !Carries(Db(), key, t)
      ensures entries == old(entries) - Members(old(Db()), t)
      ensures sets == if Members(old(Db()), t) == {} then old(sets) else old(sets) - {t}
      ensures n == |set key | key in Members(old(Db()), t) && LiveEntry(old(Db()), key)|
    {
      hide Holds;
      ghost var r := Db();
      var members := Members(Db(), t);
      if |members| == 0 {
        NoneFound(r, t);
        assert (set key | key in Members(r, t) && LiveEntry(r, key)) == {};
        return 0;
      }
      n := |set key | key in members && LiveEntry(Db(), key)|;
      entries := entries - members;
      DeletedIndexed(r, members);
      PurgedNone(r, t);
      sets := sets - {t};
      UnsetIndexed(DelEntries(r, members), t);
    }
  }

  predicate Same(a: Redis, b: Redis, t: string) {
    a.now == b.now && (t in a.sets <==> t in b.sets) && (t in a.sets ==> a.sets[t] == b.sets[t])
  }

  lemma {:induction false} SameMembers(a: Redis, b: Redis, t: string)
    requires Same(a, b, t)
    ensures Members(a, t) == Members(b, t)
  {
  }

  lemma {:induction false} OthersSame(r: Redis, t: string, key: string, ttl: int, t': string)
    requires t' != t
    ensures Same(r, Grow(SAdd(r, t, key), t, ttl), t')
  {
  }

  lemma {:induction false} ExtendedHolds(before: Redis, after: Redis, t: string, key: string, until: int)
    requires Extended(before, after, t, key, until)
    ensures Holds(after, t, key, until)
  {
  }

  /** The next tag of the loop, which may be one that was seen before. */
  lemma {:induction false} ExtendedStep(before: Redis, db: Redis, after: Redis, seen: seq<string>, t: string, t': string,
                                        key: string, ttl: int)
    requires before.now == db.now && ttl > 0 && after == Grow(SAdd(db, t, key), t, ttl) && (t' in seen || t' == t)
    requires t' in seen ==> Extended(before, db, t', key, db.now + ttl)
    requires t' !in seen ==> Same(before, db, t')
    ensures Extended(before, after, t', key, db.now + ttl)
  {
    if t' != t {
      OthersSame(db, t, key, ttl, t');
    }
  }

  lemma {:induction false} DeletedIndexed(r: Redis, keys: set<string>)
    requires Indexed(r)
    ensures Indexed(DelEntries(r, keys))
  {
    var d := DelEntries(r, keys);
    forall key, t | Carries(d, key, t) ensures Holds(d, t, key, d.entries[key].exp) {
      assert Carries(r, key, t);
    }
  }

  lemma {:induction false} NoneFound(r: Redis, t: string)
    requires Indexed(r) && Members(r, t) == {}
    ensures forall key :: !Carries(r, key, t)
  {
  }

  lemma {:induction false} PurgedNone(r: Redis, t: string)
    requires Indexed(r)
    ensures forall key :: !Carries(DelEntries(r, Members(r, t)), key, t)
  {
    var d := DelEntries(r, Members(r, t));
    forall key ensures !Carries(d, key, t) {
      if Carries(r, key, t) {
        assert Holds(r, t, key, r.entries[key].exp);
      }
    }
  }

  lemma {:induction false} UnsetIndexed(r: Redis, t: string)
    requires Indexed(r) && forall key :: !Carries(r, key, t)
    ensures Indexed(DelSet(r, t)) && forall key :: !Carries(DelSet(r, t), key, t)
  {
    var d := DelSet(r, t);
    forall key, t' | Carries(d, key, t') ensures Holds(d, t', key, d.entries[key].exp) {
      assert Carries(r, key, t');
    }
    forall key ensures !Carries(d, key, t) {
      assert !Carries(r, key, t);
    }
  }
}
