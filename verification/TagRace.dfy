/**
 One write with one tag against one purge of that tag, in every order of their commands and with any waits between them
 (internal/cache/cache.go), from any state of the store.
 */
module TagRace {
  import opened TagIndex
  import opened TagPurge

  datatype Write = Write(key: string, tag: string, ttl: int)

  function WriteAction(w: Write, i: nat): Action
    requires i < 3
  {
    if i == 0 then Set(1, w.key, [w.tag], w.ttl) else if i == 1 then Add(1) else Script(1)
  }

  function PurgeAction(w: Write, i: nat): Action
    requires i < 3
  {
    if i == 0 then Read(0, w.tag) else if i == 1 then DropKeys(0) else DropSet(0)
  }

  datatype Turn = Writes | Purges | Waits(d: nat)

  /**
   How far the two are, and what the commands met: whether the key was read, whether the SET was done when the keys were
   deleted, whether the SADD was done when the set was, and whether the set lapsed with the key in it before the script.
   `until` is when the response expires.  A purge that reads no member ends there.
   */
  datatype Race = Race(s: State, written: nat, purged: nat, until: int,
                       keyRead: bool, setBeforeDrop: bool, addBeforeUnset: bool, lapsed: bool)

  function Next(r: Race, w: Write, turn: Turn): Race {
    match turn
    case Writes =>
      if r.written >= 3 then r
      else r.(s := Step(r.s, WriteAction(w, r.written)), written := r.written + 1,
              until := if r.written == 0 then r.s.db.now + w.ttl else r.until)
    case Purges =>
      if r.purged >= 3 then r
      else
        var a := PurgeAction(w, r.purged);
        var does := Enabled(r.s, a);
        r.(s := Step(r.s, a), purged := r.purged + 1,
           keyRead := r.keyRead || (does && r.purged == 0 && w.key in Members(r.s.db, w.tag)),
           setBeforeDrop := r.setBeforeDrop || (does && r.purged == 1 && r.written >= 1),
           addBeforeUnset := r.addBeforeUnset || (does && r.purged == 2 && r.written >= 2))
    case Waits(d) =>
      var s' := Step(r.s, Wait(d));
      r.(s := s', lapsed := r.lapsed || (r.written == 2 && LiveSet(r.s.db, w.tag) && !LiveSet(s'.db, w.tag)))
  }

  function Play(s: State, w: Write, turns: seq<Turn>): Race {
    if turns == [] then Race(s, 0, 0, 0, false, false, false, false)
    else Next(Play(s, w, turns[..|turns| - 1]), w, turns[|turns| - 1])
  }

  predicate WriterAt(r: Race, w: Write) {
    if r.written == 0 then 1 !in r.s.writers
    else 1 in r.s.writers
         && r.s.writers[1] == Writer(w.key, w.ttl, if r.written < 3 then [w.tag] else [], r.written == 2)
  }

  predicate PurgeAt(r: Race, w: Write) {
    && (0 in r.s.purges ==>
          && 1 <= r.purged <= 2
          && (var p := r.s.purges[0];
              p.tag == w.tag && p.deleted == (r.purged == 2) && (w.key in p.members <==> r.keyRead)))
    && (0 !in r.s.purges && r.purged < 3 ==> !r.keyRead)
  }

  predicate FlagsAt(r: Race) {
    && r.written <= 3 && r.purged <= 3
    && (r.keyRead ==> r.purged >= 1) && (r.setBeforeDrop ==> r.purged >= 2 && r.written >= 1)
    && (r.addBeforeUnset ==> r.purged >= 3 && r.written >= 2) && (r.lapsed ==> r.written >= 2)
  }

  /** The response as long as it has not expired, and its key in the set as long as nothing took it out. */
  predicate EntryAt(r: Race, w: Write) {
    r.written >= 1 ==>
      && r.until <= r.s.db.now + w.ttl
      && (Carries(r.s.db, w.key, w.tag) <==> r.s.db.now < r.until && !(r.keyRead && r.setBeforeDrop))
      && (Carries(r.s.db, w.key, w.tag) ==> r.s.db.entries[w.key].exp == r.until)
  }

  predicate SetAt(r: Race, w: Write) {
    var kept := !r.addBeforeUnset && !r.lapsed;
    && (r.written >= 2 && !kept ==> w.key !in Members(r.s.db, w.tag))
    && (r.written == 2 && kept ==> w.key in Members(r.s.db, w.tag))
    && (r.written == 3 && kept && r.s.db.now < r.until ==> Holds(r.s.db, w.tag, w.key, r.until))
  }

  predicate Tracks(r: Race, w: Write) {
    WriterAt(r, w) && PurgeAt(r, w) && FlagsAt(r) && EntryAt(r, w) && SetAt(r, w)
  }

  lemma {:induction false} WriteKeeps(r: Race, w: Write)
    requires Tracks(r, w) && r.written < 3 && w.ttl > 0
    ensures Tracks(Next(r, w, Writes), w)
  {
    assert w.tag in [w.tag] && [w.tag][1..] == [];
    if r.written == 2 {
      hide Grow;
      GrowMembers(r.s.db, w.tag, w.ttl, w.tag);
      GrowEntries(r.s.db, w.tag, w.ttl);
      if w.key in Members(r.s.db, w.tag) {
        GrowRaises(r.s.db, w.tag, w.ttl, w.key);
        HoldsEarlier(Grow(r.s.db, w.tag, w.ttl), w.tag, w.key, r.s.db.now + w.ttl, r.until);
      }
    }
  }

  lemma {:induction false} PurgeKeeps(r: Race, w: Write)
    requires Tracks(r, w) && r.purged < 3
    ensures Tracks(Next(r, w, Purges), w)
  {
  }

  lemma {:induction false} WaitKeeps(r: Race, w: Write, d: nat)
    requires Tracks(r, w)
    ensures Tracks(Next(r, w, Waits(d)), w)
  {
  }

  lemma {:induction false} NextKeeps(r: Race, w: Write, turn: Turn)
    requires Tracks(r, w) && w.ttl > 0
    ensures Tracks(Next(r, w, turn), w)
  {
    if turn.Waits? {
      WaitKeeps(r, w, turn.d);
    } else if turn.Writes? && r.written < 3 {
      WriteKeeps(r, w);
    } else if turn.Purges? && r.purged < 3 {
      PurgeKeeps(r, w);
    }
  }

  lemma {:induction false} Start(s: State, w: Write)
    requires 1 !in s.writers && 0 !in s.purges
    ensures Tracks(Play(s, w, []), w)
  {
  }

  lemma {:induction false} PlayTracks(s: State, w: Write, turns: seq<Turn>)
    requires 1 !in s.writers && 0 !in s.purges && w.ttl > 0
    ensures Tracks(Play(s, w, turns), w)
  {
    hide Tracks, Next;
    if turns == [] {
      Start(s, w);
    } else {
      var r := Play(s, w, turns[..|turns| - 1]);
      PlayTracks(s, w, turns[..|turns| - 1]);
      NextKeeps(r, w, turns[|turns| - 1]);
    }
  }

  /**
   In every order, with any waits and from any state: when both are done, the response is live and missing from its tag's
   set if and only if it has not expired, its key was not read or its SET came after the keys were deleted, and its SADD
   came before the purge deleted the set or the set lapsed between the SADD and the script.
   */
  lemma {:induction false} RaceIff(s: State, w: Write, turns: seq<Turn>)
    requires 1 !in s.writers && 0 !in s.purges && w.ttl > 0
    requires var r := Play(s, w, turns); r.written == 3 && r.purged == 3
    ensures var r := Play(s, w, turns);
            Carries(r.s.db, w.key, w.tag) && w.key !in Members(r.s.db, w.tag)
            <==> r.s.db.now < r.until && !(r.keyRead && r.setBeforeDrop) && (r.addBeforeUnset || r.lapsed)
  {
    hide Play;
    PlayTracks(s, w, turns);
  }
}
