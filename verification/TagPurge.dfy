/**
 Writes and purges of the tag index interleaved command by command, with time passing between any two
 (internal/cache/cache.go): a write is SET and then SADD and the grow-only script for each tag in turn; a purge is
 SMEMBERS, DEL of the keys found, and DEL of the set.
 */
module TagPurge {
  import opened Options
  import opened TagIndex

  /** A write whose SET is done.  `left` are the tags to go; `growing` is set between the SADD and the script of the first. */
  datatype Writer = Writer(key: string, ttl: int, left: seq<string>, growing: bool)

  /** A purge that has read `members`; `added` are the keys that writes have added to its tag's set since. */
  datatype Purge = Purge(tag: string, members: set<string>, deleted: bool, added: set<string>)

  datatype State = State(db: Redis, writers: map<nat, Writer>, purges: map<nat, Purge>)

  datatype Action =
    | Set(id: nat, key: string, tags: seq<string>, ttl: int)
    | Add(id: nat)
    | Script(id: nat)
    | Delete(key: string)
    | Read(id: nat, tag: string)
    | DropKeys(id: nat)
    | DropSet(id: nat)
    | Wait(d: nat)

  function Init(): State {
    State(Redis(0, map[], map[]), map[], map[])
  }

  predicate Enabled(s: State, a: Action) {
    match a
    case Set(id, key, tags, ttl) => id !in s.writers && ttl > 0
    case Add(id) => id in s.writers && s.writers[id].left != [] && !s.writers[id].growing
    case Script(id) => id in s.writers && s.writers[id].left != [] && s.writers[id].growing
    case Delete(key) => true
    case Read(id, tag) => id !in s.purges && Members(s.db, tag) != {}
    case DropKeys(id) => id in s.purges && !s.purges[id].deleted
    case DropSet(id) => id in s.purges && s.purges[id].deleted
    case Wait(d) => true
  }

  function Seen(p: Purge, tag: string, key: string): Purge {
    if p.tag == tag then p.(added := p.added + {key}) else p
  }

  function AllSeen(purges: map<nat, Purge>, tag: string, key: string): map<nat, Purge> {
    map id | id in purges :: Seen(purges[id], tag, key)
  }

  function Apply(s: State, a: Action): State
    requires Enabled(s, a)
  {
    match a
    case Set(id, key, tags, ttl) =>
      s.(db := SetEntry(s.db, key, tags, ttl), writers := s.writers[id := Writer(key, ttl, tags, false)])
    case Add(id) =>
      var w := s.writers[id];
      State(SAdd(s.db, w.left[0], w.key), s.writers[id := w.(growing := true)], AllSeen(s.purges, w.left[0], w.key))
    case Script(id) =>
      var w := s.writers[id];
      s.(db := Grow(s.db, w.left[0], w.ttl), writers := s.writers[id := w.(left := w.left[1..], growing := false)])
    case Delete(key) => s.(db := DelEntries(s.db, {key}))
    case Read(id, tag) => s.(purges := s.purges[id := Purge(tag, Members(s.db, tag), false, {})])
    case DropKeys(id) =>
      var p := s.purges[id];
      s.(db := DelEntries(s.db, p.members), purges := s.purges[id := p.(deleted := true)])
    case DropSet(id) => s.(db := DelSet(s.db, s.purges[id].tag), purges := s.purges - {id})
    case Wait(d) => s.(db := Tick(s.db, d))
  }

  function Step(s: State, a: Action): State {
    if Enabled(s, a) then Apply(s, a) else s
  }

  function Exec(s: State, acts: seq<Action>): State {
    if acts == [] then s else Step(Exec(s, acts[..|acts| - 1]), acts[|acts| - 1])
  }

  // ---------------------------------------------------------------- the invariant

  /** The tags whose SADD is still ahead. */
  function Ahead(w: Writer): seq<string> {
    if w.growing && w.left != [] then w.left[1..] else w.left
  }

  /** The writer will yet add the key to the tag's set, with an expiry not before that of the response now stored. */
  predicate WillAdd(s: State, id: nat, key: string, t: string) {
    && id in s.writers && key in s.db.entries && s.writers[id].key == key && t in Ahead(s.writers[id])
    && s.db.now + s.writers[id].ttl >= s.db.entries[key].exp
  }

  /** The writer has added the key and will yet raise the set's expiry. */
  predicate WillGrow(s: State, id: nat, key: string, t: string) {
    && id in s.writers && key in s.db.entries && s.writers[id].key == key
    && s.writers[id].growing && s.writers[id].left != [] && s.writers[id].left[0] == t && key in Members(s.db, t)
    && s.db.now + s.writers[id].ttl >= s.db.entries[key].exp
  }

  ghost predicate SomeWillAdd(s: State, key: string, t: string) {
    exists id :: WillAdd(s, id, key, t)
  }

  ghost predicate SomeWillGrow(s: State, key: string, t: string) {
    exists id :: WillGrow(s, id, key, t)
  }

  ghost predicate Covered(s: State, key: string, t: string) {
    || (key in s.db.entries && Holds(s.db, t, key, s.db.entries[key].exp))
    || SomeWillAdd(s, key, t) || SomeWillGrow(s, key, t)
  }

  ghost predicate AllCovered(s: State) {
    forall key, t :: Carries(s.db, key, t) ==> Covered(s, key, t)
  }

  /** The set holds no more than the purge read or saw added, and what else it deleted has not been indexed again. */
  ghost predicate PurgeSound(s: State, p: Purge) {
    && Members(s.db, p.tag) <= p.members + p.added
    && (p.deleted ==>
          forall key :: key in p.members && key !in p.added && Carries(s.db, key, p.tag) ==> SomeWillAdd(s, key, p.tag))
  }

  ghost predicate AllSound(s: State) {
    forall id :: id in s.purges ==> PurgeSound(s, s.purges[id])
  }

  predicate WriterOk(w: Writer) {
    w.ttl > 0
  }

  ghost predicate Inv(s: State) {
    AllCovered(s) && AllSound(s) && forall id :: id in s.writers ==> WriterOk(s.writers[id])
  }

  // ---------------------------------------------------------------- the two races

  /**
   Two steps may break what a write relies on.  A wait may let a set lapse between the write's SADD and its script; it is
   harmless if a write has yet to add the key.  And a purge may delete a set that a live response's key was added to since
   the purge read it; it is harmless on the same terms.
   */
  ghost predicate Calm(s: State, a: Action) {
    match a
    case Wait(d) =>
      var s' := Apply(s, a);
      forall key, t :: Carries(s'.db, key, t) && SomeWillGrow(s, key, t) ==> LiveSet(s'.db, t) || SomeWillAdd(s', key, t)
    case DropSet(id) =>
      Enabled(s, a) ==>
        var p := s.purges[id];
        forall key :: key in p.added && Carries(s.db, key, p.tag) ==> SomeWillAdd(s, key, p.tag)
    case _ => true
  }

  ghost predicate CalmRun(s: State, acts: seq<Action>) {
    acts == [] || (CalmRun(s, acts[..|acts| - 1]) && Calm(Exec(s, acts[..|acts| - 1]), acts[|acts| - 1]))
  }

  // ---------------------------------------------------------------- the steps that only move entries or time

  /** What a step leaves alone: no writer is changed, no set gains or loses anything, and time may pass. */
  predicate Quiet(s: State, s': State) {
    && s'.db.now >= s.db.now && s'.db.sets == s.db.sets
    && forall id :: id in s.writers ==> id in s'.writers && s'.writers[id] == s.writers[id]
  }

  lemma {:induction false} QuietWillAdd(s: State, s': State, key: string, t: string)
    requires Quiet(s, s') && SomeWillAdd(s, key, t)
    requires key in s'.db.entries && key in s.db.entries && s'.db.entries[key] == s.db.entries[key]
    ensures SomeWillAdd(s', key, t)
  {
    var id :| WillAdd(s, id, key, t);
    assert WillAdd(s', id, key, t);
  }

  lemma {:induction false} GrowingIsLive(s: State, key: string, t: string)
    requires SomeWillGrow(s, key, t)
    ensures LiveSet(s.db, t)
  {
  }

  lemma {:induction false} QuietCovered(s: State, s': State, key: string, t: string)
    requires Quiet(s, s') && Carries(s.db, key, t) && Covered(s, key, t) && Carries(s'.db, key, t)
    requires s'.db.entries[key] == s.db.entries[key]
    requires SomeWillGrow(s, key, t) ==> LiveSet(s'.db, t) || SomeWillAdd(s', key, t)
    ensures Covered(s', key, t)
  {
    if SomeWillAdd(s, key, t) {
      QuietWillAdd(s, s', key, t);
    } else if SomeWillGrow(s, key, t) {
      if LiveSet(s'.db, t) {
        var id :| WillGrow(s, id, key, t);
        assert WillGrow(s', id, key, t);
      }
    } else {
      assert Holds(s'.db, t, key, s'.db.entries[key].exp);
    }
  }

  lemma {:induction false} QuietSound(s: State, s': State, p: Purge)
    requires Quiet(s, s') && PurgeSound(s, p)
    requires forall key :: Carries(s'.db, key, p.tag) && key in p.members
               ==> SomeWillAdd(s', key, p.tag) || (Carries(s.db, key, p.tag) && s'.db.entries[key] == s.db.entries[key])
    ensures PurgeSound(s', p)
  {
    hide SomeWillAdd;
    assert Members(s'.db, p.tag) <= Members(s.db, p.tag);
    if p.deleted {
      forall key | key in p.members && key !in p.added && Carries(s'.db, key, p.tag) ensures SomeWillAdd(s', key, p.tag) {
        if Carries(s.db, key, p.tag) && s'.db.entries[key] == s.db.entries[key] {
          QuietWillAdd(s, s', key, p.tag);
        }
      }
    }
  }

  lemma {:induction false} SetStep(s: State, a: Action)
    requires Inv(s) && a.Set? && Enabled(s, a)
    ensures Inv(Apply(s, a))
  {
    hide PurgeSound, SomeWillAdd, SomeWillGrow, Holds;
    var s' := Apply(s, a);
    forall key, t | Carries(s'.db, key, t)
      ensures Covered(s', key, t)
      ensures SomeWillAdd(s', key, t) || (Carries(s.db, key, t) && s'.db.entries[key] == s.db.entries[key])
    {
      if key == a.key {
        NewWriterAdds(s, a, t);
      } else {
        if SomeWillGrow(s, key, t) {
          GrowingIsLive(s, key, t);
        }
        QuietCovered(s, s', key, t);
      }
    }
    forall id | id in s'.purges ensures PurgeSound(s', s'.purges[id]) {
      QuietSound(s, s', s.purges[id]);
    }
  }

  lemma {:induction false} NewWriterAdds(s: State, a: Action, t: string)
    requires a.Set? && Enabled(s, a) && t in a.tags
    ensures SomeWillAdd(Apply(s, a), a.key, t)
  {
    assert WillAdd(Apply(s, a), a.id, a.key, t);
  }

  lemma {:induction false} DeletedKeys(s: State, s': State, keys: set<string>)
    requires AllCovered(s) && s'.db == DelEntries(s.db, keys) && s'.writers == s.writers
    ensures AllCovered(s') && Quiet(s, s')
    ensures forall key, t :: Carries(s'.db, key, t) ==> Carries(s.db, key, t) && s'.db.entries[key] == s.db.entries[key]
  {
    hide Holds;
    forall key, t | Carries(s'.db, key, t) ensures Covered(s', key, t) {
      assert Carries(s.db, key, t);
      QuietCovered(s, s', key, t);
    }
  }

  lemma {:induction false} DeleteStep(s: State, a: Action)
    requires Inv(s) && a.Delete?
    ensures Inv(Apply(s, a))
  {
    hide PurgeSound, SomeWillAdd, SomeWillGrow, Holds, Carries, AllCovered;
    var s' := Apply(s, a);
    DeletedKeys(s, s', {a.key});
    forall id | id in s'.purges ensures PurgeSound(s', s'.purges[id]) {
      QuietSound(s, s', s.purges[id]);
    }
  }

  lemma {:induction false} DropKeysStep(s: State, a: Action)
    requires Inv(s) && a.DropKeys? && Enabled(s, a)
    ensures Inv(Apply(s, a))
  {
    hide SomeWillAdd, SomeWillGrow, Holds, AllCovered;
    var s', p := Apply(s, a), s.purges[a.id];
    DeletedKeys(s, s', p.members);
    forall id | id in s'.purges ensures PurgeSound(s', s'.purges[id]) {
      QuietSound(s, s', s.purges[id]);
    }
  }

  lemma {:induction false} ReadStep(s: State, a: Action)
    requires Inv(s) && a.Read? && Enabled(s, a)
    ensures Inv(Apply(s, a))
  {
    hide SomeWillAdd, SomeWillGrow, Holds, Carries, AllCovered;
    var s' := Apply(s, a);
    DeletedKeys(s, s', {});
    forall id | id in s'.purges ensures PurgeSound(s', s'.purges[id]) {
      if id != a.id {
        QuietSound(s, s', s.purges[id]);
      }
    }
  }

  /** A wait leaves every live response covered if and only if it is calm. */
  lemma {:induction false} WaitIff(s: State, a: Action)
    requires AllCovered(s) && a.Wait?
    ensures AllCovered(Apply(s, a)) <==> Calm(s, a)
  {
    var s' := Apply(s, a);
    if Calm(s, a) {
      hide Holds, SomeWillAdd, SomeWillGrow;
      forall key, t | Carries(s'.db, key, t) ensures Covered(s', key, t) {
        assert Carries(s.db, key, t);
        QuietCovered(s, s', key, t);
      }
    }
    if AllCovered(s') {
      forall key, t | Carries(s'.db, key, t) && SomeWillGrow(s, key, t)
        ensures LiveSet(s'.db, t) || SomeWillAdd(s', key, t)
      {
        assert Covered(s', key, t);
      }
    }
  }

  lemma {:induction false} WaitStep(s: State, a: Action)
    requires Inv(s) && a.Wait? && Calm(s, a)
    ensures Inv(Apply(s, a))
  {
    hide PurgeSound, Covered, AllCovered, Calm;
    var s' := Apply(s, a);
    WaitIff(s, a);
    forall id | id in s'.purges ensures PurgeSound(s', s'.purges[id]) {
      QuietSound(s, s', s.purges[id]);
    }
  }

  // ---------------------------------------------------------------- the steps that change a tag set

  lemma {:induction false} AddStep(s: State, a: Action)
    requires Inv(s) && a.Add? && Enabled(s, a)
    ensures Inv(Apply(s, a))
  {
    hide PurgeSound, Covered;
    var s' := Apply(s, a);
    forall key, t | Carries(s'.db, key, t) ensures Covered(s', key, t) {
      assert Carries(s.db, key, t);
      AddCovers(s, a, key, t);
    }
    forall id | id in s'.purges ensures PurgeSound(s', s'.purges[id]) {
      AddSound(s, a, s.purges[id]);
    }
  }

  lemma {:induction false} AddCovers(s: State, a: Action, key: string, t: string)
    requires a.Add? && Enabled(s, a) && Carries(s.db, key, t) && Covered(s, key, t)
    ensures Covered(Apply(s, a), key, t)
  {
    hide Holds;
    var s', w := Apply(s, a), s.writers[a.id];
    if SomeWillAdd(s, key, t) {
      var id :| WillAdd(s, id, key, t);
      if id == a.id && t == w.left[0] {
        assert WillGrow(s', id, key, t);
      } else {
        assert WillAdd(s', id, key, t);
      }
    } else if SomeWillGrow(s, key, t) {
      var id :| WillGrow(s, id, key, t);
      assert WillGrow(s', id, key, t);
    } else {
      SAddKeeps(s.db, w.left[0], w.key, t, key, s.db.entries[key].exp);
    }
  }

  lemma {:induction false} AddSound(s: State, a: Action, p: Purge)
    requires a.Add? && Enabled(s, a) && PurgeSound(s, p)
    ensures PurgeSound(Apply(s, a), Seen(p, s.writers[a.id].left[0], s.writers[a.id].key))
  {
    var s', w := Apply(s, a), s.writers[a.id];
    var p' := Seen(p, w.left[0], w.key);
    if p.deleted {
      forall key | key in p'.members && key !in p'.added && Carries(s'.db, key, p.tag) ensures SomeWillAdd(s', key, p.tag) {
        assert Carries(s.db, key, p.tag);
        var id :| WillAdd(s, id, key, p.tag);
        assert WillAdd(s', id, key, p.tag);
      }
    }
  }

  lemma {:induction false} ScriptStep(s: State, a: Action)
    requires Inv(s) && a.Script? && Enabled(s, a)
    ensures Inv(Apply(s, a))
  {
    hide PurgeSound, Covered, Grow;
    var s', w := Apply(s, a), s.writers[a.id];
    assert WriterOk(w);
    GrowEntries(s.db, w.left[0], w.ttl);
    forall key, t | Carries(s'.db, key, t) ensures Covered(s', key, t) {
      assert Carries(s.db, key, t);
      ScriptCovers(s, a, key, t);
    }
    forall id | id in s'.purges ensures PurgeSound(s', s'.purges[id]) {
      ScriptSound(s, a, s.purges[id]);
    }
  }

  lemma {:induction false} GrowEntries(r: Redis, t: string, ttl: int)
    ensures Grow(r, t, ttl).entries == r.entries && Grow(r, t, ttl).now == r.now
  {
  }

  lemma {:induction false} ScriptCovers(s: State, a: Action, key: string, t: string)
    requires a.Script? && Enabled(s, a) && WriterOk(s.writers[a.id]) && Carries(s.db, key, t) && Covered(s, key, t)
    ensures Covered(Apply(s, a), key, t)
  {
    hide Holds, Grow;
    var s', w := Apply(s, a), s.writers[a.id];
    GrowEntries(s.db, w.left[0], w.ttl);
    if SomeWillAdd(s, key, t) {
      var id :| WillAdd(s, id, key, t);
      assert WillAdd(s', id, key, t);
    } else if SomeWillGrow(s, key, t) {
      var id :| WillGrow(s, id, key, t);
      if id == a.id {
        GrowRaises(s.db, t, w.ttl, key);
        HoldsEarlier(s'.db, t, key, s.db.now + w.ttl, s.db.entries[key].exp);
      } else {
        GrowMembers(s.db, w.left[0], w.ttl, t);
        assert WillGrow(s', id, key, t);
      }
    } else {
      GrowKeeps(s.db, w.left[0], w.ttl, t, key, s.db.entries[key].exp);
    }
  }

  lemma {:induction false} HoldsEarlier(r: Redis, t: string, key: string, until: int, sooner: int)
    requires Holds(r, t, key, until) && sooner <= until
    ensures Holds(r, t, key, sooner)
  {
  }

  lemma {:induction false} ScriptSound(s: State, a: Action, p: Purge)
    requires a.Script? && Enabled(s, a) && WriterOk(s.writers[a.id]) && PurgeSound(s, p)
    ensures PurgeSound(Apply(s, a), p)
  {
    hide Grow;
    var s', w := Apply(s, a), s.writers[a.id];
    GrowEntries(s.db, w.left[0], w.ttl);
    GrowMembers(s.db, w.left[0], w.ttl, p.tag);
    if p.deleted {
      forall key | key in p.members && key !in p.added && Carries(s'.db, key, p.tag) ensures SomeWillAdd(s', key, p.tag) {
        assert Carries(s.db, key, p.tag);
        var id :| WillAdd(s, id, key, p.tag);
        assert WillAdd(s', id, key, p.tag);
      }
    }
  }

  /** Of the live responses with its tag, a purge that has deleted the keys has missed only some that it saw added. */
  lemma {:induction false} AddedOrAhead(s: State, p: Purge, key: string)
    requires PurgeSound(s, p) && p.deleted && Carries(s.db, key, p.tag) && Covered(s, key, p.tag)
    ensures key in p.added || SomeWillAdd(s, key, p.tag)
  {
    assert SomeWillGrow(s, key, p.tag) ==> key in Members(s.db, p.tag);
  }

  /** Deleting the set leaves every live response covered if and only if that is calm. */
  lemma {:induction false} DropSetIff(s: State, a: Action)
    requires AllCovered(s) && AllSound(s) && a.DropSet? && Enabled(s, a)
    ensures AllCovered(Apply(s, a)) <==> Calm(s, a)
  {
    hide PurgeSound, Covered, SomeWillAdd;
    var s', p := Apply(s, a), s.purges[a.id];
    if Calm(s, a) {
      forall key, t | Carries(s'.db, key, t) ensures Covered(s', key, t) {
        assert Carries(s.db, key, t);
        if t == p.tag {
          AddedOrAhead(s, p, key);
        }
        DropSetCovers(s, a, key, t);
      }
    }
    if AllCovered(s') {
      forall key | key in p.added && Carries(s.db, key, p.tag) ensures SomeWillAdd(s, key, p.tag) {
        assert Carries(s'.db, key, p.tag);
        OnlyAhead(s, a, key);
      }
    }
  }

  lemma {:induction false} OnlyAhead(s: State, a: Action, key: string)
    requires a.DropSet? && Enabled(s, a) && Covered(Apply(s, a), key, s.purges[a.id].tag)
    ensures SomeWillAdd(s, key, s.purges[a.id].tag)
  {
    var s', t := Apply(s, a), s.purges[a.id].tag;
    assert Members(s'.db, t) == {};
    var id :| WillAdd(s', id, key, t);
    assert WillAdd(s, id, key, t);
  }

  lemma {:induction false} DropSetCovers(s: State, a: Action, key: string, t: string)
    requires a.DropSet? && Enabled(s, a) && Carries(s.db, key, t) && Covered(s, key, t)
    requires t == s.purges[a.id].tag ==> SomeWillAdd(s, key, t)
    ensures Covered(Apply(s, a), key, t)
  {
    var s' := Apply(s, a);
    if SomeWillAdd(s, key, t) {
      var id :| WillAdd(s, id, key, t);
      assert WillAdd(s', id, key, t);
    } else if SomeWillGrow(s, key, t) {
      var id :| WillGrow(s, id, key, t);
      assert WillGrow(s', id, key, t);
    }
  }

  lemma {:induction false} DropSetStep(s: State, a: Action)
    requires Inv(s) && a.DropSet? && Enabled(s, a) && Calm(s, a)
    ensures Inv(Apply(s, a))
  {
    hide PurgeSound, AllCovered, Calm;
    var s' := Apply(s, a);
    DropSetIff(s, a);
    forall id | id in s'.purges ensures PurgeSound(s', s'.purges[id]) {
      DropSetSound(s, a, s.purges[id]);
    }
  }

  lemma {:induction false} DropSetSound(s: State, a: Action, p: Purge)
    requires a.DropSet? && Enabled(s, a) && PurgeSound(s, p)
    ensures PurgeSound(Apply(s, a), p)
  {
    var s' := Apply(s, a);
    if p.deleted {
      forall key | key in p.members && key !in p.added && Carries(s'.db, key, p.tag) ensures SomeWillAdd(s', key, p.tag) {
        assert Carries(s.db, key, p.tag);
        var id :| WillAdd(s, id, key, p.tag);
        assert WillAdd(s', id, key, p.tag);
      }
    }
  }

  // ---------------------------------------------------------------- every run

  lemma {:induction false} StepInv(s: State, a: Action)
    requires Inv(s) && Calm(s, a)
    ensures Inv(Step(s, a))
  {
    hide Inv, Calm, Enabled, Apply;
    if Enabled(s, a) {
      match a {
        case Set(_, _, _, _) => SetStep(s, a);
        case Add(_) => AddStep(s, a);
        case Script(_) => ScriptStep(s, a);
        case Delete(_) => DeleteStep(s, a);
        case Read(_, _) => ReadStep(s, a);
        case DropKeys(_) => DropKeysStep(s, a);
        case DropSet(_) => DropSetStep(s, a);
        case Wait(_) => WaitStep(s, a);
      }
    }
  }

  lemma {:induction false} InvHolds(acts: seq<Action>)
    requires CalmRun(Init(), acts)
    ensures Inv(Exec(Init(), acts))
  {
    hide Calm, Step;
    if acts == [] {
      assert Exec(Init(), acts) == Init();
    } else {
      hide Inv;
      InvHolds(acts[..|acts| - 1]);
      StepInv(Exec(Init(), acts[..|acts| - 1]), acts[|acts| - 1]);
    }
  }

  /** Once no write is under way, every live response is in the set of each of its tags, and each such set outlives it. */
  lemma {:induction false} IndexIsComplete(acts: seq<Action>)
    requires CalmRun(Init(), acts)
    requires var s := Exec(Init(), acts); forall id :: id in s.writers ==> s.writers[id].left == []
    ensures Indexed(Exec(Init(), acts).db)
  {
    hide Exec, CalmRun, Holds;
    InvHolds(acts);
    var s := Exec(Init(), acts);
    forall key, t | Carries(s.db, key, t) ensures Holds(s.db, t, key, s.db.entries[key].exp) {
      assert Covered(s, key, t);
    }
  }

  /**
   Once a purge has deleted the keys it read, every live response with the tag is one whose key was added to the set since
   the purge read it, or one whose write has yet to add it.
   */
  lemma {:induction false} PurgeIsComplete(acts: seq<Action>, id: nat)
    requires CalmRun(Init(), acts)
    requires var s := Exec(Init(), acts); id in s.purges && s.purges[id].deleted
    ensures var s := Exec(Init(), acts);
            var p := s.purges[id];
            forall key :: Carries(s.db, key, p.tag) ==> key in p.added || SomeWillAdd(s, key, p.tag)
  {
    hide Exec, CalmRun, Covered, PurgeSound;
    InvHolds(acts);
    var s := Exec(Init(), acts);
    var p := s.purges[id];
    forall key | Carries(s.db, key, p.tag) ensures key in p.added || SomeWillAdd(s, key, p.tag) {
      AddedOrAhead(s, p, key);
    }
  }

  /** Every live response is indexed or in hand throughout a run if and only if all steps of the run are calm. */
  lemma {:induction false} CalmIff(acts: seq<Action>)
    ensures (forall k :: 0 <= k <= |acts| ==> AllCovered(Exec(Init(), acts[..k]))) <==> CalmRun(Init(), acts)
  {
    hide Calm, Step, AllCovered;
    var n := |acts|;
    assert acts[..n] == acts;
    if n == 0 {
      InvHolds([]);
    } else {
      var init := acts[..n - 1];
      CalmIff(init);
      assert forall k :: 0 <= k <= n - 1 ==> init[..k] == acts[..k];
      if CalmRun(Init(), acts) {
        InvHolds(acts);
      }
      if forall k :: 0 <= k <= n ==> AllCovered(Exec(Init(), acts[..k])) {
        assert forall k :: 0 <= k <= n - 1 ==> AllCovered(Exec(Init(), init[..k]));
        InvHolds(init);
        assert AllCovered(Exec(Init(), acts[..n]));
        CoveredIsCalm(Exec(Init(), init), acts[n - 1]);
      }
    }
  }

  lemma {:induction false} CoveredIsCalm(s: State, a: Action)
    requires Inv(s) && AllCovered(Step(s, a))
    ensures Calm(s, a)
  {
    hide AllCovered, PurgeSound;
    if a.Wait? {
      WaitIff(s, a);
    } else if a.DropSet? && Enabled(s, a) {
      DropSetIff(s, a);
    }
  }

  // ---------------------------------------------------------------- both conditions are needed

  /** A live response that no purge of its tag will find, with no write under way. */
  ghost predicate Orphaned(s: State, key: string, t: string) {
    && Carries(s.db, key, t) && key !in Members(s.db, t)
    && forall id :: id in s.writers ==> s.writers[id].left == []
  }

  lemma {:induction false} ExecStep(s: State, acts: seq<Action>, a: Action) returns (acts': seq<Action>)
    ensures acts' == acts + [a] && Exec(s, acts') == Step(Exec(s, acts), a)
  {
    hide Step;
    acts' := acts + [a];
    assert acts'[..|acts|] == acts;
  }

  /** One write with one tag, start to end, from a state in which nothing else is under way. */
  lemma {:induction false} WholeWrite(t: string, key: string, ttl: int) returns (acts: seq<Action>)
    requires ttl > 0
    ensures acts == [Set(0, key, [t], ttl), Add(0), Script(0)]
    ensures Exec(Init(), acts) == State(Redis(0, map[key := Tagged([t], ttl)], map[t := TagSet({key}, Some(ttl))]),
                                        map[0 := Writer(key, ttl, [], false)], map[])
  {
    var s := Init();
    acts := [];
    assert Exec(s, acts) == s;
    hide Exec;
    acts := ExecStep(s, acts, Set(0, key, [t], ttl));
    acts := ExecStep(s, acts, Add(0));
    assert {} + {key} == {key};
    assert Exec(s, acts).db.sets[t] == TagSet({key}, None);
    acts := ExecStep(s, acts, Script(0));
    assert [t][1..] == [];
    var end := Exec(s, acts);
    assert end.db.entries == map[key := Tagged([t], ttl)] && end.db.sets == map[t := TagSet({key}, Some(ttl))];
    assert end.writers == map[0 := Writer(key, ttl, [], false)] && end.purges == map[];
  }

  /** For any tag and TTLs, a set that lapses between a write's SADD and its script takes the new key with it. */
  lemma {:induction false} LapseOrphans(t: string, a: string, b: string, short: int, long: int) returns (acts: seq<Action>)
    requires short >= 1 && long >= 2
    ensures Orphaned(Exec(Init(), acts), b, t)
  {
    var s := Init();
    acts := WholeWrite(t, a, short);
    hide Exec;
    assert [t][1..] == [];
    acts := ExecStep(s, acts, Wait(short - 1));
    acts := ExecStep(s, acts, Set(1, b, [t], long));
    acts := ExecStep(s, acts, Add(1));
    assert Exec(s, acts).db.sets[t] == TagSet({a, b}, Some(short));
    acts := ExecStep(s, acts, Wait(1));
    acts := ExecStep(s, acts, Script(1));
    assert t in [t];
  }

  lemma {:induction false} WriteAfterRead(t: string, a: string, b: string, ttl: int) returns (acts: seq<Action>)
    requires ttl >= 1 && a != b
    ensures var s := Exec(Init(), acts);
            && s.db == Redis(0, map[a := Tagged([t], ttl), b := Tagged([t], ttl)], map[t := TagSet({a, b}, Some(ttl))])
            && s.purges == map[0 := Purge(t, {a}, false, {b})]
            && s.writers == map[0 := Writer(a, ttl, [], false), 1 := Writer(b, ttl, [], false)]
  {
    var s := Init();
    acts := WholeWrite(t, a, ttl);
    hide Exec;
    assert [t][1..] == [] && {} + {b} == {b} && {a} + {b} == {a, b};
    acts := ExecStep(s, acts, Read(0, t));
    assert Exec(s, acts).purges == map[0 := Purge(t, {a}, false, {})];
    acts := ExecStep(s, acts, Set(1, b, [t], ttl));
    acts := ExecStep(s, acts, Add(1));
    var mid := Exec(s, acts);
    assert mid.purges == map[0 := Purge(t, {a}, false, {b})];
    assert mid.db.sets == map[t := TagSet({a, b}, Some(ttl))];
    acts := ExecStep(s, acts, Script(1));
    assert Exec(s, acts).writers == map[0 := Writer(a, ttl, [], false), 1 := Writer(b, ttl, [], false)];
    assert Exec(s, acts).db.entries == map[a := Tagged([t], ttl), b := Tagged([t], ttl)];
  }

  /** For any tag and TTL, a write indexed between a purge's SMEMBERS and its DEL of the set is lost from the index. */
  lemma {:induction false} PurgeOrphans(t: string, a: string, b: string, ttl: int) returns (acts: seq<Action>)
    requires ttl >= 1 && a != b
    ensures Orphaned(Exec(Init(), acts), b, t)
  {
    var s := Init();
    acts := WriteAfterRead(t, a, b, ttl);
    hide Exec;
    acts := ExecStep(s, acts, DropKeys(0));
    acts := ExecStep(s, acts, DropSet(0));
    assert t in [t];
  }
}
