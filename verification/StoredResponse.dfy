/**
 What the capturing writer stores, over every sequence of calls, in terms of the calls and of the text of the header fields
 (internal/cache/writer.go, internal/cache/cache.go).
 */
module StoredResponse {
  import opened CacheControl
  import opened CacheKey
  import opened CachingWriter
  import opened Directives
  import opened FieldText
  import opened Options
  import opened StoringRules
  import opened Text
  import opened VaryText

  // ---------------------------------------------------------------- the call that fixes the status

  /** A Write, or a WriteHeader with another status than 100 to 199. */
  predicate IsFinal(c: Call) {
    c.Write? || (c.WriteHeader? && (c.code < 100 || c.code > 199))
  }

  ghost predicate Fixes(calls: seq<Call>, i: nat) {
    i < |calls| && IsFinal(calls[i]) && forall j :: 0 <= j < i ==> !IsFinal(calls[j])
  }

  function StatusOf(c: Call): int {
    if c.Write? then 200 else if c.WriteHeader? then c.code else 0
  }

  /** The headers as the handler last set them. */
  function LastSet(h0: Header, calls: seq<Call>): Header {
    if calls == [] then h0
    else if calls[|calls| - 1].SetHeaders? then calls[|calls| - 1].h
    else LastSet(h0, calls[..|calls| - 1])
  }

  ghost predicate SetsAfter(calls: seq<Call>, i: nat) {
    exists j :: i < j < |calls| && calls[j].SetHeaders?
  }

  /** The headers in the end: a MISS is added when the status is fixed. */
  ghost function FinalHeaders(h0: Header, calls: seq<Call>, i: nat): Header {
    if SetsAfter(calls, i) then LastSet(h0, calls) else LastSet(h0, calls)["X-Cache" := ["MISS"]]
  }

  lemma {:induction false} NotFixed(h0: Header, calls: seq<Call>)
    requires forall j :: 0 <= j < |calls| ==> !IsFinal(calls[j])
    ensures LatchOf(h0, calls) == NoLatch && HeadersAfter(h0, calls) == LastSet(h0, calls)
  {
    hide Missed;
    if calls == [] {
    } else {
      NotFixed(h0, calls[..|calls| - 1]);
      hide LatchOf, HeadersAfter;
      SnocHead(h0, calls);
    }
  }

  lemma {:induction false} FixedBy(h0: Header, calls: seq<Call>, i: nat)
    requires Fixes(calls, i)
    ensures LatchOf(h0, calls) == At(StatusOf(calls[i]), LastSet(h0, calls[..i]))
    ensures HeadersAfter(h0, calls) == FinalHeaders(h0, calls, i)
  {
    hide LatchOf, HeadersAfter;
    var n := |calls| - 1;
    var init := calls[..n];
    SnocHead(h0, calls);
    if i == n {
      NotFixed(h0, init);
      assert calls[..i] == init;
    } else {
      assert Fixes(init, i) && init[..i] == calls[..i];
      FixedBy(h0, init, i);
      assert SetsAfter(calls, i) <==> SetsAfter(init, i) || calls[n].SetHeaders? by { SetsLater(calls, i); }
    }
  }

  lemma {:induction false} SetsLater(calls: seq<Call>, i: nat)
    requires i < |calls| - 1
    ensures SetsAfter(calls, i) <==> SetsAfter(calls[..|calls| - 1], i) || calls[|calls| - 1].SetHeaders?
  {
    var init := calls[..|calls| - 1];
    if j :| i < j < |init| && init[j].SetHeaders? {
      assert calls[j].SetHeaders?;
    }
  }

  lemma {:induction false} LatchIff(h0: Header, calls: seq<Call>) returns (i: nat)
    requires LatchOf(h0, calls).At?
    ensures Fixes(calls, i)
  {
    hide LatchOf;
    i := 0;
    while i < |calls| && !IsFinal(calls[i])
      invariant i <= |calls| && forall j :: 0 <= j < i ==> !IsFinal(calls[j])
    {
      i := i + 1;
    }
    if i == |calls| {
      NotFixed(h0, calls);
    }
  }

  // ---------------------------------------------------------------- tags

  /** The line that tags are read from: the first Surrogate-Key, or the first Cache-Tag if that is empty or missing. */
  ghost predicate TagLine(h: Header, line: string) {
    (line != "" && FirstIs(h, "Surrogate-Key", line)) || (FirstIs(h, "Surrogate-Key", "") && FirstIs(h, "Cache-Tag", line))
  }

  /** A word of the line: it stands between blanks, and has no white space at its ends. */
  ghost predicate Word(line: string, t: string) {
    t != "" && exists u, w :: WordIn(line, u, t, w)
  }

  ghost predicate WordIn(line: string, u: string, t: string, w: string) {
    Blank(u) && Blank(w) && Trimmed(t, IsSpace) && IsItem(line, u + t + w, ' ')
  }

  lemma {:induction false} NonEmptyIff(items: seq<string>, t: string)
    ensures t in NonEmpty(items) <==> t != "" && exists i :: 0 <= i < |items| && TrimSpace(items[i]) == t
  {
    hide TrimSpace;
    if items == [] {
    } else {
      var n := |items| - 1;
      NonEmptyIff(items[..n], t);
      if i :| 0 <= i < n && TrimSpace(items[..n][i]) == t {
        assert TrimSpace(items[i]) == t;
      }
      if i :| 0 <= i < |items| && TrimSpace(items[i]) == t {
        assert i < n ==> TrimSpace(items[..n][i]) == t;
      }
    }
  }

  lemma {:induction false} WordIff(line: string, t: string)
    ensures t in NonEmpty(SplitOn(line, ' ')) <==> Word(line, t)
  {
    hide IsItem, SplitOn, TrimLeft, TrimRight, IsSpace;
    var items := SplitOn(line, ' ');
    NonEmptyIff(items, t);
    if i :| 0 <= i < |items| && TrimSpace(items[i]) == t {
      var u, w := TrimParts(items[i], IsSpace);
      PiecesAreItems(line, items[i], ' ');
      assert WordIn(line, u, t, w);
    }
    if u, w :| WordIn(line, u, t, w) {
      PiecesAreItems(line, u + t + w, ' ');
      TrimPadded(u, t, w, IsSpace);
      var i :| 0 <= i < |items| && items[i] == u + t + w;
    }
  }

  lemma {:induction false} HeaderFirst(h: Header, name: string, v: string)
    ensures HeaderGet(h, name) == v <==> FirstIs(h, name, v)
  {
    if name in h && h[name] != [] {
      assert h[name] == [h[name][0]] + h[name][1..];
    }
  }

  /** The tags are the words of that line. */
  lemma {:induction false} TagsAreWords(h: Header, t: string)
    ensures t in Tags(h) <==> exists line :: TagLine(h, line) && Word(line, t)
  {
    hide FirstIs, HeaderGet, SplitOn, NonEmpty, Word;
    var a, b := HeaderGet(h, "Surrogate-Key"), HeaderGet(h, "Cache-Tag");
    var sk := if a == "" then b else a;
    forall v ensures (FirstIs(h, "Surrogate-Key", v) <==> v == a) && (FirstIs(h, "Cache-Tag", v) <==> v == b) {
      HeaderFirst(h, "Surrogate-Key", v);
      HeaderFirst(h, "Cache-Tag", v);
    }
    assert forall line :: TagLine(h, line) <==> line == sk;
    WordIff(sk, t);
    if sk == "" {
      NoWords(t);
    }
  }

  lemma {:induction false} NoWords(t: string)
    ensures !Word("", t)
  {
    hide IsSpace;
  }

  // ---------------------------------------------------------------- what may be captured

  ghost predicate IsAuthorized(req: Request) {
    !FirstIs(req.headers, "Authorization", "")
  }

  /** A response with this status and these headers may be stored for that time. */
  ghost predicate MayStore(req: Request, status: int, h: Header, ttl: int) {
    && (status == 200 || status == 301)
    && (forall name :: name in h ==> !CookieName(name))
    && Values(h, "Cache-Control") != [] && !Listed(Values(h, "Vary"), "*")
    && (var cc := Join(Values(h, "Cache-Control"));
        !MustNotStore(cc) && (IsAuthorized(req) ==> MayShare(cc)) && ttl > 0 && LivesFor(Split(cc), ttl))
  }

  lemma {:induction false} AuthorizedIff(req: Request)
    ensures Authorized(req) <==> IsAuthorized(req)
  {
    hide FirstIs, Get;
    assert Canonical("Authorization") == "Authorization" by { AuthorizationIsCanonical(); }
    GetIsFirst(req, "Authorization", "");
  }

  lemma {:induction false} AuthorizationIsCanonical()
    ensures Canonical("Authorization") == "Authorization"
  {
    var s := "Authorization";
    assert |s| == 13 && s[0] == 'A' && s[1] == 'u' && s[2] == 't' && s[3] == 'h' && s[4] == 'o' && s[5] == 'r' && s[6] == 'i';
    assert s[7] == 'z' && s[8] == 'a' && s[9] == 't' && s[10] == 'i' && s[11] == 'o' && s[12] == 'n';
    assert AllTokens(s) && Capitalised(s);
    hide Canonical;
    SameCanonicalIff(s, s);
  }

  /** What the writer decides at the final status. */
  lemma {:induction false} JudgeIff(req: Request, status: int, h: Header, ttl: int)
    ensures (Judge(req, status, h).Capture? && Judge(req, status, h).ttl == ttl) <==> MayStore(req, status, h, ttl)
    ensures var v := Judge(req, status, h);
            v.Capture? ==>
              && (forall n :: n in v.vary <==> exists t :: t != "" && Listed(Values(h, "Vary"), t) && n == Canonical(t))
              && (forall t :: t in v.tags <==> exists line :: TagLine(h, line) && Word(line, t))
  {
    hide Judge, Cacheable, VaryOf, Tags, Authorized, IsAuthorized, CookieName, MustNotStore, MayShare, LivesFor, Split, Join;
    hide Listed, TagLine, Word, Canonical;
    Judged(req, status, h);
    AuthorizedIff(req);
    CacheableIff(Authorized(req), status, h, ttl);
    VaryIff(h);
    forall t ensures t in Tags(h) <==> exists line :: TagLine(h, line) && Word(line, t) {
      TagsAreWords(h, t);
    }
  }

  // ---------------------------------------------------------------- what is stored

  ghost predicate NoCookies(h: Header) {
    forall name :: name in h ==> !CookieName(name)
  }

  /** Some call fixes a status that may be stored, the response was marked complete and fits, and in the end has no cookie. */
  ghost predicate IsStored(req: Request, max: int, h0: Header, calls: seq<Call>)
    requires AllLegal(calls)
  {
    && Completed(calls) && CachingWriter.Fits(calls, max)
    && exists i: nat, ttl :: Fixes(calls, i) && MayStore(req, StatusOf(calls[i]), LastSet(h0, calls[..i]), ttl)
                             && NoCookies(FinalHeaders(h0, calls, i))
  }

  /** The writes: the response, under its own key; and before it, if that is another than the base key, a pointer under that. */
  ghost predicate Writes(req: Request, h0: Header, calls: seq<Call>, cacheKey: string, i: nat, offers: seq<Offer>)
    requires AllLegal(calls) && Fixes(calls, i)
  {
    && 1 <= |offers| <= 2
    && var o, h := offers[|offers| - 1], LastSet(h0, calls[..i]);
       && MayStore(req, StatusOf(calls[i]), h, o.ttl)
       && o.entry.status == StatusOf(calls[i]) && o.entry.body == Relayed(calls)
       && o.entry.headers == FinalHeaders(h0, calls, i) - {"Surrogate-Key", "Cache-Tag"}
       && (forall n :: n in o.entry.vary <==> exists t :: t != "" && Listed(Values(h, "Vary"), t) && n == Canonical(t))
       && (forall t :: t in o.entry.tags <==> exists line :: TagLine(h, line) && Word(line, t))
       && o.key == (if o.entry.vary == [] then cacheKey else Key(req, o.entry.vary))
       && (|offers| == 2 <==> o.key != cacheKey)
       && (|offers| == 2 ==> offers[0] == Offer(cacheKey, Entry(o.entry.status, map[], [], o.entry.vary, []), o.ttl))
  }

  lemma {:induction false} OffersAre(req: Request, cacheKey: string, status: int, h: Header, body: seq<Byte>, v: Verdict)
    requires v.Capture?
    ensures var os := Offers(req, cacheKey, status, h, body, v);
            && 1 <= |os| <= 2
            && (var o := os[|os| - 1];
                && o.ttl == v.ttl && o.entry == Entry(status, h - {"Surrogate-Key", "Cache-Tag"}, body, v.vary, v.tags)
                && o.key == (if v.vary == [] then cacheKey else Key(req, v.vary))
                && (|os| == 2 <==> o.key != cacheKey)
                && (|os| == 2 ==> os[0] == Offer(cacheKey, Entry(status, map[], [], v.vary, []), v.ttl)))
  {
    hide Key;
  }

  /** The verdict that a fixed status leads to, and the writes that a captured one leads to. */
  lemma {:induction false} WritesAre(req: Request, h0: Header, calls: seq<Call>, cacheKey: string, i: nat)
    requires AllLegal(calls) && Fixes(calls, i)
    ensures var v, h := VerdictOf(req, LatchOf(h0, calls)), LastSet(h0, calls[..i]);
            && (v.Capture? <==> exists ttl :: MayStore(req, StatusOf(calls[i]), h, ttl))
            && (v.Capture? ==>
                  Writes(req, h0, calls, cacheKey, i,
                         Offers(req, cacheKey, StatusOf(calls[i]), HeadersAfter(h0, calls), Relayed(calls), v)))
  {
    hide Judge, LatchOf, HeadersAfter, LastSet, FinalHeaders, MayStore, Offers, IsFinal, Key, Canonical, Listed, TagLine, Word;
    FixedBy(h0, calls, i);
    var h, status := LastSet(h0, calls[..i]), StatusOf(calls[i]);
    var v := Judge(req, status, h);
    if v.Capture? {
      JudgeIff(req, status, h, v.ttl);
      OffersAre(req, cacheKey, status, FinalHeaders(h0, calls, i), Relayed(calls), v);
    }
    if ttl :| MayStore(req, status, h, ttl) {
      JudgeIff(req, status, h, ttl);
    }
  }

  /**
   For every sequence of calls: exactly when a response is stored, under which keys, for how long, and with what in it, on the
   text of its header fields.
   */
  lemma {:induction false} StoredExactly(req: Request, max: int, h0: Header, calls: seq<Call>, cacheKey: string)
    requires AllLegal(calls)
    ensures var offers := FinishOf(Run(req, max, h0, calls), req, cacheKey).offers;
            && (offers != [] <==> IsStored(req, max, h0, calls))
            && (offers != [] ==> exists i: nat :: Fixes(calls, i) && Writes(req, h0, calls, cacheKey, i, offers))
  {
    hide FinishOf, Run, HasSetCookie, CookieName, LatchOf, HeadersAfter, LastSet, FinalHeaders, Completed, CachingWriter.Fits;
    hide MayStore, Offers, IsFinal, Writes, Judge;
    StoredIff(req, max, h0, calls, cacheKey);
    var offers := FinishOf(Run(req, max, h0, calls), req, cacheKey).offers;
    CookieIff(HeadersAfter(h0, calls));
    if offers != [] {
      var i := LatchIff(h0, calls);
      FixedBy(h0, calls, i);
      WritesAre(req, h0, calls, cacheKey, i);
    }
    if IsStored(req, max, h0, calls) {
      var i: nat, ttl :| Fixes(calls, i) && MayStore(req, StatusOf(calls[i]), LastSet(h0, calls[..i]), ttl)
                         && NoCookies(FinalHeaders(h0, calls, i));
      FixedBy(h0, calls, i);
      WritesAre(req, h0, calls, cacheKey, i);
    }
  }
}
