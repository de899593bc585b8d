/** Exactly which responses may be stored, and for how long, on the text of their header fields (internal/cache/cache.go). */
module StoringRules {
  import opened CacheControl
  import opened Directives
  import opened FieldText
  import opened Options
  import opened Text

  // ---------------------------------------------------------------- Set-Cookie

  /** Set-Cookie in any case, or that after the prefix of unannounced trailers. */
  ghost predicate CookieName(name: string) {
    EqualFold(name, "Set-Cookie") || exists t :: name == "Trailer:" + t && EqualFold(t, "Set-Cookie")
  }

  lemma {:induction false} CookieIff(h: Header)
    ensures HasSetCookie(h) <==> exists name :: name in h && CookieName(name)
  {
    hide Canonical, EqualFold;
    forall name ensures Canonical(StripTrailer(name)) == "Set-Cookie" <==> CookieName(name) {
      CookieNameIff(name);
    }
  }

  lemma {:induction false} CookieNameIff(name: string)
    ensures Canonical(StripTrailer(name)) == "Set-Cookie" <==> CookieName(name)
  {
    hide Canonical;
    assert AllTokens("Set-Cookie") && Capitalised("Set-Cookie") by { SetCookieIsCanonical(); }
    SameCanonicalIff(StripTrailer(name), "Set-Cookie");
    if TRAILER_PREFIX <= name {
      assert name == "Trailer:" + name[8..];
      assert name[0] == 'T';
      assert "Set-Cookie"[0] == 'S';
      assert !EqualFold(name, "Set-Cookie");
      forall t | name == "Trailer:" + t ensures t == name[8..] {
      }
    } else {
      forall t ensures name != "Trailer:" + t {
        assert TRAILER_PREFIX <= "Trailer:" + t;
      }
    }
  }

  lemma {:induction false} SetCookieIsCanonical()
    ensures AllTokens("Set-Cookie") && Capitalised("Set-Cookie")
  {
    var s := "Set-Cookie";
    assert |s| == 10 && s[0] == 'S' && s[1] == 'e' && s[2] == 't' && s[3] == '-' && s[4] == 'C';
    assert s[5] == 'o' && s[6] == 'o' && s[7] == 'k' && s[8] == 'i' && s[9] == 'e';
  }

  // ---------------------------------------------------------------- the time to live

  ghost predicate LastAgeIsText(ds: seq<string>, name: string, floor: int, ttl: int) {
    exists i: nat, n :: LastReads(ds, name, floor, i, n) && ttl == Seconds(n)
  }

  /** s-maxage counts before max-age, also if it is zero. */
  ghost predicate LivesFor(ds: seq<string>, ttl: int) {
    LastAgeIsText(ds, "s-maxage", 0, ttl) || (NoneReads(ds, "s-maxage", 0) && LastAgeIsText(ds, "max-age", 1, ttl))
  }

  lemma {:induction false} SomeLast(ds: seq<string>, name: string, floor: int) returns (i: nat, n: int)
    requires !NoneReads(ds, name, floor)
    ensures LastReads(ds, name, floor, i, n)
  {
    hide ReadsAge;
    var k := |ds| - 1;
    if ReadsAtLeast(ds[k], name, floor) {
      var m :| m >= floor && ReadsAge(ds[k], name, m);
      i, n := k, m;
    } else {
      i, n := SomeLast(ds[..k], name, floor);
    }
  }

  lemma {:induction false} LivesForIff(ds: seq<string>, ttl: int)
    requires ttl > 0
    ensures (var c := Absorbed(ds); ttl == if c.hasSMaxAge then c.sMaxAge else c.maxAge) <==> LivesFor(ds, ttl)
  {
    hide Absorbed, ReadsAge, Seconds, LastReads, NoneReads;
    AgesAreText(ds);
    if !NoneReads(ds, "s-maxage", 0) {
      var i, n := SomeLast(ds, "s-maxage", 0);
    } else {
      assert !LastAgeIsText(ds, "s-maxage", 0, ttl) by { NoneIsLast(ds, "s-maxage", 0); }
      if !NoneReads(ds, "max-age", 1) {
        var i, n := SomeLast(ds, "max-age", 1);
      } else {
        NoneIsLast(ds, "max-age", 1);
      }
    }
  }

  lemma {:induction false} NoneIsLast(ds: seq<string>, name: string, floor: int)
    requires NoneReads(ds, name, floor)
    ensures forall i: nat, n :: !LastReads(ds, name, floor, i, n)
  {
    hide ReadsAge;
    forall i: nat, n | i < |ds| && n >= floor ensures !ReadsAge(ds[i], name, n) {
      assert !ReadsAtLeast(ds[i], name, floor);
    }
  }

  // ---------------------------------------------------------------- the decision

  ghost predicate MayShare(cc: string) {
    Stated(cc, "public") || Stated(cc, "must-revalidate") || !NoneReads(Split(cc), "s-maxage", 0)
  }

  ghost predicate MustNotStore(cc: string) {
    Stated(cc, "no-store") || Stated(cc, "no-cache") || Stated(cc, "private")
  }

  /**
   A response may be stored for a time if and only if it is a 200 or 301, no field or trailer of it is a Set-Cookie, its
   Cache-Control lines joined name no restriction and give that positive time, and name a permission to share if the request
   was authorized (section 3.5 of RFC 9111).
   */
  lemma {:induction false} CacheableIff(authorized: bool, status: int, h: Header, ttl: int)
    ensures Cacheable(authorized, status, h) == Some(ttl) <==>
            && (status == 200 || status == 301)
            && (forall name :: name in h ==> !CookieName(name))
            && Values(h, "Cache-Control") != []
            && (var cc := Join(Values(h, "Cache-Control"));
                !MustNotStore(cc) && (authorized ==> MayShare(cc)) && ttl > 0 && LivesFor(Split(cc), ttl))
  {
    hide HasSetCookie, CookieName, Absorbed, Split, Join, Stated, NoneReads, LivesFor;
    CookieIff(h);
    var lines := Values(h, "Cache-Control");
    if lines != [] {
      var ds := Split(Join(lines));
      FlagsIff(Join(lines));
      AgesAreText(ds);
      if ttl > 0 {
        LivesForIff(ds, ttl);
      }
    }
  }

  /** A line that forbids storing is one whose text says so. */
  lemma {:induction false} RestrictiveIff(line: string)
    ensures Restrictive(line) <==> MustNotStore(line)
  {
    hide Split, Absorbed, Mentions, Stated;
    FlagsAreMentions(Split(line));
    FlagsIff(line);
  }
}
