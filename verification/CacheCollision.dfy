/**
 What equal keys of different requests do to a run of the response cache (internal/cache/cache.go, internal/proxy/proxy.go):
 every such pair of keys is one that some run serves an unfit response by.
 */
module CacheCollision {
  import opened CacheControl
  import opened CacheKey
  import opened CacheRun
  import opened CachingWriter
  import opened Directives
  import opened KeyCollision
  import opened Options
  import opened Text

  /** A response with that status, one second of shared freshness, and that Vary list, a name to a line. */
  function PlainHeaders(names: seq<string>): Header {
    map["Cache-Control" := ["s-maxage=1"], "Vary" := names]
  }

  function PlainExchange(req: Request, code: int, names: seq<string>): Exchange {
    Exchange(req, 0, PlainHeaders(names), [WriteHeader(code), MarkComplete])
  }

  lemma {:induction false} NamesAreItems(names: seq<string>)
    requires AllSimple(names)
    ensures Items(names) == names && VaryNames(names) == Some(names)
  {
    hide TrimSpace, Canonical;
    if names == [] {
    } else {
      var n := |names| - 1;
      NamesAreItems(names[..n]);
      SplitPlain(names[n], ',');
      assert names == names[..n] + [names[n]];
    }
  }

  lemma {:induction false} ShortNames(h: Header)
    requires h.Keys <= {"Cache-Control", "Vary", "X-Cache"}
    ensures !HasSetCookie(h)
  {
    hide Canonical;
    forall name | name in h.Keys ensures StripTrailer(name) == name && |name| != 10 {
      assert TRAILER_PREFIX[0] == 'T';
      assert name == "Cache-Control" || name == "Vary" || name == "X-Cache";
    }
    assert |"Set-Cookie"| == 10;
    forall name | name in h.Keys ensures Canonical(StripTrailer(name)) != "Set-Cookie" {
      CanonicalLength(name);
    }
  }

  lemma {:induction false} CanonicalLength(s: string)
    ensures |Canonical(s)| == |s|
  {
  }

  lemma {:induction false} SharedSecond(d: string)
    requires d == "s-maxage=1"
    ensures Split(Join([d])) == [d] && Absorbed([d]) == NOTHING.(sMaxAge := SECOND, hasSMaxAge := true)
  {
    hide Seconds, Scanned, Name, Value;
    assert d == "s-maxage" + "=" + "1" && d == "s-maxage" + ['='] + "1";
    NoCommaSplit(d);
    PlainName("s-maxage", "1");
    SecondsOf(d);
    assert [d][..0] == [];
    assert Absorbed([d]) == Absorb(NOTHING, d);
  }

  lemma {:induction false} SecondsOf(d: string)
    requires d == "s-maxage" + ['='] + "1"
    ensures Value(d) == Some(1) && Seconds(1) == SECOND
  {
    hide Seconds;
    CutJoined("s-maxage", "1", '=');
    TrimOne("1");
    AtoiOne("1");
    SecondsExactIff(1);
  }

  lemma {:induction false} PlainIsStorable(req: Request, code: int, names: seq<string>)
    requires code in {200, 301} && AllSimple(names)
    ensures var v := Judge(req, code, PlainHeaders(names)); v.Capture? && v.vary == names
  {
    hide Absorbed, Split, Join, HasSetCookie, VaryNames, Items, Tags, Authorized;
    var h := PlainHeaders(names);
    SharedSecond(h["Cache-Control"][0]);
    ShortNames(h);
    NamesAreItems(names);
    assert Values(h, "Vary") == names && Values(h, "Cache-Control") == ["s-maxage=1"];
  }

  lemma {:induction false} TwoCalls(h0: Header, code: int)
    requires !Informational(code)
    ensures var calls := [WriteHeader(code), MarkComplete];
            && AllLegal(calls) && LatchOf(h0, calls) == At(code, h0) && HeadersAfter(h0, calls) == Missed(h0)
            && Completed(calls) && Fits(calls, 0)
  {
    hide Missed, Informational;
    var calls, first := [WriteHeader(code), MarkComplete], [WriteHeader(code)];
    assert calls[..1] == first && first[..0] == [];
    assert LatchOf(h0, []) == NoLatch && HeadersAfter(h0, []) == h0;
    hide LatchOf, HeadersAfter;
    SnocHead(h0, first);
    SnocHead(h0, calls);
    assert calls[1] == MarkComplete;
  }

  lemma {:induction false} PlainOffers(req: Request, code: int, names: seq<string>)
    requires code in {200, 301} && AllSimple(names)
    ensures var x := PlainExchange(req, code, names);
            && LegalExchange(x) && OffersOf(x) != []
            && VerdictIn(x).Capture? && VerdictIn(x).vary == names && LatchOf(x.h0, x.calls) == At(code, x.h0)
  {
    hide Run, FinishOf, Judge, HasSetCookie, LatchOf, HeadersAfter, Completed, Fits, AllLegal, BaseKey, PlainHeaders;
    var x := PlainExchange(req, code, names);
    TwoCalls(x.h0, code);
    PlainIsStorable(req, code, names);
    StoredIff(req, 0, x.h0, x.calls, BaseKey(req));
    PlainKeys(names);
  }

  lemma {:induction false} PlainKeys(names: seq<string>)
    ensures !HasSetCookie(Missed(PlainHeaders(names)))
  {
    hide HasSetCookie;
    ShortNames(Missed(PlainHeaders(names)));
  }

  // ---------------------------------------------------------------- one longer value, one other key

  lemma {:induction false} LongerKey(r: Request, r': Request, names: seq<string>, n: string)
    requires SameTarget(r, r') && n in names
    requires forall m :: m in names ==> |Get(r', m)| >= |Get(r, m)|
    requires |Get(r', n)| > |Get(r, n)|
    ensures |KeyOver(r', names)| > |KeyOver(r, names)|
  {
    hide Get, BaseKey;
    var k := |names| - 1;
    var init := names[..k];
    assert names == init + [names[k]];
    assert |Get(r', names[k])| >= |Get(r, names[k])|;
    NotShorter(r, r', init);
    if n in init {
      LongerKey(r, r', init, n);
    }
  }

  lemma {:induction false} NotShorter(r: Request, r': Request, names: seq<string>)
    requires SameTarget(r, r') && forall m :: m in names ==> |Get(r', m)| >= |Get(r, m)|
    ensures |KeyOver(r', names)| >= |KeyOver(r, names)|
  {
    hide Get;
    if names == [] {
      SameBase(r, r');
    } else {
      var k := |names| - 1;
      assert names == names[..k] + [names[k]];
      NotShorter(r, r', names[..k]);
    }
  }

  /** The same target with another value of the header. */
  lemma {:induction false} OtherVariant(r: Request, names: seq<string>) returns (r': Request)
    requires names != []
    ensures SameTarget(r, r') && Key(r', names) != Key(r, names)
  {
    var n := names[0];
    r' := r.(headers := r.headers[Canonical(n) := [Get(r, n) + "x"]]);
    assert Get(r', n) == Get(r, n) + "x";
    forall m | m in names ensures |Get(r', m)| >= |Get(r, m)| {
      if Canonical(m) == Canonical(n) {
        SameHeader(r, m, n);
        SameHeader(r', m, n);
      }
    }
    hide Get;
    SortSorts(names);
    SortedMembers(names);
    SortedCovers(names);
    assert n in Sort(names);
    LongerKey(r, r', Sort(names), n);
  }

  // ---------------------------------------------------------------- every collision is served

  /** The request is looked up by that Vary list, and what it is served is a fit answer from no exchange of the run. */
  ghost predicate Misled(acts: seq<Action>, r: Request, names: seq<string>)
    requires LegalRun(acts)
  {
    && Key(r, []) in Exec(acts) && Exec(acts)[Key(r, [])].vary == names
    && Serve(Exec(acts), Exec(acts), r).Some?
    && forall k: nat :: !Fit(acts, k, r, Serve(Exec(acts), Exec(acts), r).value)
  }

  /** The exchange is for that target and its response varies on these names. */
  ghost predicate Answers(x: Exchange, r: Request, names: seq<string>) {
    SameTarget(x.req, r) && VerdictIn(x).Capture? && VerdictIn(x).vary == names
  }

  /**
   If the key of a request over a Vary list is that of another request over its own, some run serves the first the
   response of the second; and if that is not a fit answer, no exchange of the run is one that could have given it.
   */
  lemma {:induction false} CollisionIsServed(r: Request, names: seq<string>, q: Request, names': seq<string>)
    returns (acts: seq<Action>)
    requires names != [] && AllSimple(names) && AllSimple(names') && Key(q, names') == Key(r, names)
    requires !(SameTarget(q, r) && Agree(q, r, names'))
    ensures LegalRun(acts) && Misled(acts, r, names)
    ensures forall k :: 0 <= k < |acts| && acts[k].Put? ==> Answers(acts[k].x, q, names') || Answers(acts[k].x, r, names)
  {
    hide Exec, Key, BaseKey, Completed, HasSetCookie, Relayed, HeadersAfter, LatchOf, OffersOf, VerdictIn, LegalExchange;
    hide AllSimple, Agree;
    var r' := OtherVariant(r, names);
    var x, x' := PlainExchange(r', 200, names), PlainExchange(q, 301, names');
    PlainOffers(r', 200, names);
    PlainOffers(q, 301, names');
    hide PlainExchange;
    PutsEffect(x', []);
    assert [] + Puts(x') == Puts(x');
    PutsEffect(x, Puts(x'));
    acts := Puts(x') + Puts(x);
    SameBase(r, r');
    KeyOfNone(r);
    VaryKeyDiffers(r, names);
    var e := Exec(acts)[Key(r, names)];
    assert Serve(Exec(acts), Exec(acts), r) == Some(e);
    assert e.status == 301 && e.vary == names';
    forall k: nat ensures !Fit(acts, k, r, e) {
      OnlyTheOther(x, x', acts, k, r, e);
    }
    forall k | 0 <= k < |acts| ensures Answers(acts[k].x, q, names') || Answers(acts[k].x, r, names) {
      assert acts[k].x == (if k < |Puts(x')| then x' else x);
    }
  }

  lemma {:induction false} OnlyTheOther(x: Exchange, x': Exchange, acts: seq<Action>, k: nat, r: Request, e: Entry)
    requires LegalExchange(x) && LegalExchange(x') && acts == Puts(x') + Puts(x) && LegalRun(acts)
    requires LatchOf(x.h0, x.calls).At? && LatchOf(x.h0, x.calls).code != e.status
    requires !(SameTarget(x'.req, r) && Agree(x'.req, r, e.vary))
    ensures !Fit(acts, k, r, e)
  {
    hide Exec, Key, Completed, HasSetCookie, Relayed, HeadersAfter, LatchOf, OffersOf, VerdictIn, LegalExchange;
    if k < |acts| {
      assert acts[k].x == (if k < |Puts(x')| then x' else x);
    }
  }

  /** So without the demand on queries an unfit response can be served for every request with a query and every Vary list. */
  lemma {:induction false} QueryPipeMatters(r: Request, names: seq<string>) returns (acts: seq<Action>)
    requires r.query != "" && names != [] && AllSimple(names)
    ensures LegalRun(acts) && Misled(acts, r, names)
  {
    var q := QueryTwin(r, names);
    acts := CollisionIsServed(r, names, q, []);
  }

  /** And without the demand on values, for every target and Vary list, to a request with such a value. */
  lemma {:induction false} ValuePipeMatters(q: Request, n: string, names: seq<string>) returns (r: Request, acts: seq<Action>)
    requires names != [] && Ascending([n] + names) && AllSimple([n] + names)
    ensures SameTarget(q, r) && LegalRun(acts) && Misled(acts, r, [n])
  {
    hide Exec, Key, Misled, Simple, StringLe;
    r := ValueTwin(q, n, names);
    assert [n][0] == ([n] + names)[0] == n;
    assert AllSimple([n]);
    assert !Agree(q, r, [n] + names);
    acts := CollisionIsServed(r, [n], q, [n] + names);
  }

  // ---------------------------------------------------------------- exactly when

  /** Every exchange of the run is one that the code can make, with names free of delimiters. */
  ghost predicate MadeRun(acts: seq<Action>) {
    forall i :: 0 <= i < |acts| && acts[i].Put? && VerdictIn(acts[i].x).Capture? ==> Made(acts[i].x.req, VerdictIn(acts[i].x).vary)
  }

  /** Two lists of one request with the same text are the same. */
  lemma {:induction false} SameTails(r: Request, a: seq<string>, b: seq<string>)
    requires AllListed(a) && AllListed(b) && Tail(r, a) == Tail(r, b)
    ensures a == b
  {
    hide Tail, Get, Simple;
    TailStarts(r, a);
    TailStarts(r, b);
    if a == [] {
    } else {
      HeadRest(a);
      HeadRest(b);
      var n, m := a[0], b[0];
      TailFront(r, n, a[1..]);
      TailFront(r, m, b[1..]);
      var x, y := Get(r, n) + Tail(r, a[1..]), Get(r, m) + Tail(r, b[1..]);
      assert "|" + (n + "=" + Get(r, n)) + Tail(r, a[1..]) == "|" + (n + ['='] + x);
      assert "|" + (m + "=" + Get(r, m)) + Tail(r, b[1..]) == "|" + (m + ['='] + y);
      SamePrefix("|", n + ['='] + x, m + ['='] + y);
      FirstCut(n, x, m, y, '=');
      SamePrefix(Get(r, n), Tail(r, a[1..]), Tail(r, b[1..]));
      SameTails(r, a[1..], b[1..]);
    }
  }

  lemma {:induction false} SamePrefix(p: string, x: string, y: string)
    requires p + x == p + y
    ensures x == y
  {
    assert x == (p + x)[|p|..] && y == (p + y)[|p|..];
  }

  /** A request with other content and the same key is never a fit source. */
  lemma {:induction false} OtherIsUnfit(q: Request, names': seq<string>, r: Request, names: seq<string>)
    requires Collides(q, names', r, names) && Made(r, names)
    ensures !(SameTarget(q, r) && Agree(q, r, names'))
  {
    hide Get, Sort, Tail, KeyOver, Listed;
    if SameTarget(q, r) && Agree(q, r, names') {
      KeyAgrees(q, r, names');
      KeyHasTail(r, Sort(names'));
      KeyHasTail(r, Sort(names));
      SamePrefix(BaseKey(r), Tail(r, Sort(names')), Tail(r, Sort(names)));
      SortedListed(names);
      SortedListed(names');
      SameTails(r, Sort(names'), Sort(names));
      SortSorts(names);
      SortSorts(names');
      forall i | 0 <= i < |names| ensures Get(q, names[i]) == Get(r, names[i]) {
        assert names[i] in multiset(names);
        var k :| 0 <= k < |names'| && names'[k] == names[i];
      }
    }
  }

  /** An unfit answer was found under a key that is also that of other content. */
  lemma {:induction false} UnfitCollides(acts: seq<Action>, r: Request, names: seq<string>)
    requires LegalRun(acts) && MadeRun(acts) && names != [] && Misled(acts, r, names)
    ensures exists q, names' :: Collides(q, names', r, names)
  {
    hide Exec, Key, BaseKey, Completed, HasSetCookie, Relayed, HeadersAfter, LatchOf, OffersOf, VerdictIn, LegalExchange;
    hide SameContent;
    VaryKeyDiffers(r, names);
    KeyOfNone(r);
    var e := Serve(Exec(acts), Exec(acts), r).value;
    assert e == Exec(acts)[Key(r, names)];
    var k := StoredWasOffered(acts, Key(r, names));
    var x := acts[k].x;
    assert LegalAction(acts[k]);
    OfferShape(x, acts[k].i);
    if IsPointer(x, Key(r, names), e) {
      KeyOfNone(x.req);
      OtherSize(x.req, [], r, names);
      assert Collides(x.req, [], r, names);
    } else {
      var own := VerdictIn(x).vary;
      if SameContent(x.req, own, r, names) {
        FitSource(acts, k, own, r, names, e);
      }
      assert Collides(x.req, own, r, names);
    }
  }

  lemma {:induction false} FitSource(acts: seq<Action>, k: nat, own: seq<string>, r: Request, names: seq<string>, e: Entry)
    requires LegalRun(acts) && k < |acts| && acts[k].Put? && LegalAction(acts[k])
    requires SameContent(acts[k].x.req, own, r, names) && e.vary == own && IsResponse(acts[k].x, Key(acts[k].x.req, own), e)
    ensures Fit(acts, k, r, e)
  {
    hide Get, Key, IsResponse;
    var q := acts[k].x.req;
    forall i | 0 <= i < |own| ensures Get(q, own[i]) == Get(r, own[i]) {
      assert own[i] in multiset(own);
      var m :| 0 <= m < |names| && names[m] == own[i];
    }
  }

  /**
   For every request and non-empty Vary list: some run in which the request is looked up by that list serves it an unfit
   response if and only if the key over the list is ambiguous.
   */
  lemma {:induction false} UnfitIff(r: Request, names: seq<string>)
    requires Made(r, names) && names != []
    ensures (exists acts :: LegalRun(acts) && MadeRun(acts) && Misled(acts, r, names)) <==> Ambiguous(r, names)
  {
    hide Misled, Ambiguous, Key, Exec, LegalRun;
    KeyCollides(r, names);
    if acts :| LegalRun(acts) && MadeRun(acts) && Misled(acts, r, names) {
      UnfitCollides(acts, r, names);
    }
    if Ambiguous(r, names) {
      var q, names' := Partner(r, names);
      OtherIsUnfit(q, names', r, names);
      hide SameContent;
      var acts := CollisionIsServed(r, names, q, names');
      assert MadeRun(acts) by { AnswersAreMade(acts, q, names', r, names); }
    }
  }

  lemma {:induction false} AnswersAreMade(acts: seq<Action>, q: Request, names': seq<string>, r: Request, names: seq<string>)
    requires Made(q, names') && Made(r, names)
    requires forall k :: 0 <= k < |acts| && acts[k].Put? ==> Answers(acts[k].x, q, names') || Answers(acts[k].x, r, names)
    ensures MadeRun(acts)
  {
    hide VerdictIn, AllListed;
  }
}
