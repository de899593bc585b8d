/**
 The response cache over whole runs: exchanges that pass through the caching writer and write what it offers
 (internal/cache/writer.go), entries that disappear at any time, and lookups that read the store twice
 (internal/proxy/proxy.go).
 */
module CacheRun {
  import opened CacheControl
  import opened CacheKey
  import opened CachingWriter
  import opened Options
  import opened Text

  /** One proxied request: what the handler did with the writer made for it. */
  datatype Exchange = Exchange(req: Request, max: int, h0: Header, calls: seq<Call>)

  ghost predicate LegalExchange(x: Exchange) {
    AllLegal(x.calls)
  }

  function OffersOf(x: Exchange): seq<Offer>
    requires LegalExchange(x)
  {
    FinishOf(Run(x.req, x.max, x.h0, x.calls), x.req, BaseKey(x.req)).offers
  }

  function VerdictIn(x: Exchange): Verdict {
    VerdictOf(x.req, LatchOf(x.h0, x.calls))
  }

  type Store = map<string, Entry>

  /** The i-th write of an exchange reaches Redis; or a key goes: it expires, is purged or is evicted. */
  datatype Action = Put(x: Exchange, i: nat) | Drop(key: string)

  ghost predicate LegalAction(a: Action) {
    a.Put? ==> LegalExchange(a.x) && a.i < |OffersOf(a.x)|
  }

  ghost predicate LegalRun(acts: seq<Action>) {
    forall i :: 0 <= i < |acts| ==> LegalAction(acts[i])
  }

  function Apply(s: Store, a: Action): Store
    requires LegalAction(a)
  {
    match a
    case Put(x, i) => var o := OffersOf(x)[i]; s[o.key := o.entry]
    case Drop(key) => s - {key}
  }

  /** Writes of concurrent exchanges interleave freely; a write that fails is one that does not occur. */
  function Exec(acts: seq<Action>): Store
    requires LegalRun(acts)
  {
    if acts == [] then map[] else Apply(Exec(acts[..|acts| - 1]), acts[|acts| - 1])
  }

  /** A lookup: the base key is read in one state, and the key over the listed headers in a later one. */
  function Serve(first: Store, second: Store, r: Request): Option<Entry> {
    var key := Key(r, []);
    if key !in first then None
    else
      var e := first[key];
      var varyKey := Key(r, e.vary);
      if e.vary == [] || varyKey == key then Some(e)
      else if varyKey in second then Some(second[varyKey]) else None
  }

  // ---------------------------------------------------------------- what is stored

  ghost predicate Wrote(acts: seq<Action>, k: nat, key: string, e: Entry)
    requires LegalRun(acts)
  {
    k < |acts| && acts[k].Put?
    && (var a := acts[k]; assert LegalAction(a); var o := OffersOf(a.x)[a.i]; o.key == key && o.entry == e)
  }

  lemma {:induction false} StoredWasOffered(acts: seq<Action>, key: string) returns (k: nat)
    requires LegalRun(acts) && key in Exec(acts)
    ensures Wrote(acts, k, key, Exec(acts)[key])
  {
    hide OffersOf;
    var init, a := acts[..|acts| - 1], acts[|acts| - 1];
    if a.Put? && OffersOf(a.x)[a.i].key == key {
      k := |acts| - 1;
    } else {
      assert LegalAction(a);
      assert Exec(acts) == Apply(Exec(init), a);
      assert key in Exec(init) && Exec(init)[key] == Exec(acts)[key];
      k := StoredWasOffered(init, key);
      assert acts[k] == init[k];
    }
  }

  ghost predicate IsPointer(x: Exchange, key: string, e: Entry) {
    var v := VerdictIn(x);
    && v.Capture? && v.vary != [] && key == BaseKey(x.req)
    && e.vary == v.vary && e.body == [] && e.tags == [] && e.headers == map[]
  }

  /** `e` is the response of `x`: its status, exactly the bytes relayed, its headers less two, its Vary list and tags. */
  ghost predicate IsResponse(x: Exchange, key: string, e: Entry)
    requires LegalExchange(x)
  {
    var v, l := VerdictIn(x), LatchOf(x.h0, x.calls);
    && v.Capture? && Completed(x.calls) && !HasSetCookie(HeadersAfter(x.h0, x.calls))
    && key == Key(x.req, v.vary) && e.vary == v.vary && e.tags == v.tags
    && e.status == l.code && e.body == Relayed(x.calls)
    && e.headers == HeadersAfter(x.h0, x.calls) - {"Surrogate-Key", "Cache-Tag"}
  }

  lemma {:induction false} OfferShape(x: Exchange, i: nat)
    requires LegalExchange(x) && i < |OffersOf(x)|
    ensures var o := OffersOf(x)[i]; IsPointer(x, o.key, o.entry) || IsResponse(x, o.key, o.entry)
  {
    hide Run, FinishOf, Judge, HasSetCookie, Completed, Key, BaseKey, LatchOf, Relayed, HeadersAfter, AllLegal;
    StoredIff(x.req, x.max, x.h0, x.calls, BaseKey(x.req));
    KeyOfNone(x.req);
  }

  lemma {:induction false} KeyOfNone(r: Request)
    ensures Key(r, []) == BaseKey(r)
  {
    SortSorts([]);
  }

  // ---------------------------------------------------------------- what is served

  ghost predicate CleanExchange(x: Exchange) {
    var v := VerdictIn(x);
    CleanTarget(x.req) && (v.Capture? ==> CleanNames(v.vary) && CleanValues(x.req, v.vary))
  }

  ghost predicate CleanRun(acts: seq<Action>) {
    forall i :: 0 <= i < |acts| && acts[i].Put? ==> CleanExchange(acts[i].x)
  }

  /** The request has no pipe in the values that it will be looked up by, if the store has a Vary list for it. */
  ghost predicate CleanLookup(s: Store, r: Request) {
    Key(r, []) in s ==> CleanValues(r, s[Key(r, [])].vary)
  }

  /** A pointer can not be found under a key over headers: such a key has more pipes than any base key. */
  lemma {:induction false} PointerNotUnderVaryKey(q: Request, r: Request, vary: seq<string>)
    requires CleanTarget(q) && CleanTarget(r) && vary != [] && CleanNames(vary) && CleanValues(r, vary)
    ensures BaseKey(q) != Key(r, vary)
  {
    hide BaseKey, Get, CleanName;
    SortSorts(vary);
    SortedMembers(vary);
    var sorted := Sort(vary);
    assert CleanNames(sorted) && CleanValues(r, sorted) by {
      forall i | 0 <= i < |sorted| ensures CleanName(sorted[i]) && '|' !in Get(r, sorted[i]) {
        var k :| 0 <= k < |vary| && vary[k] == sorted[i];
      }
    }
    PipesCountNames(r, sorted);
    PipesCountNames(q, []);
    assert KeyOver(q, []) == BaseKey(q);
  }

  /** The exchange at `k` is the origin of what is served to `r`, and would have been a fit answer to it. */
  ghost predicate Fit(acts: seq<Action>, k: nat, r: Request, e: Entry)
    requires LegalRun(acts)
  {
    && k < |acts| && acts[k].Put? && LegalAction(acts[k])
    && (var x := acts[k].x;
        && SameTarget(x.req, r) && Agree(x.req, r, e.vary)
        && IsResponse(x, Key(x.req, e.vary), e))
  }

  /**
   In every run, whatever is served to a request is the whole response of an exchange with the same method, path and
   query whose request had the same value of every header that the response varies on (section 4.1 of RFC 9111).
   */
  lemma {:induction false} ServedIsFit(acts: seq<Action>, i: nat, j: nat, r: Request) returns (k: nat)
    requires LegalRun(acts) && CleanRun(acts) && i <= j <= |acts| && CleanTarget(r) && CleanLookup(Exec(acts[..i]), r)
    requires Serve(Exec(acts[..i]), Exec(acts[..j]), r).Some?
    ensures k < j && Fit(acts, k, r, Serve(Exec(acts[..i]), Exec(acts[..j]), r).value)
  {
    hide Exec, OffersOf, Key, BaseKey, CleanTarget, IsResponse, LegalExchange;
    hide CleanNames, CleanValues, VerdictIn, SameTarget;
    var key := Key(r, []);
    KeyOfNone(r);
    var k1 := StoredWasOffered(acts[..i], key);
    var a1, e := acts[k1], Exec(acts[..i])[key];
    assert acts[..i][k1] == a1 && LegalAction(a1);
    OfferShape(a1.x, a1.i);
    assert CleanExchange(a1.x);
    if e.vary == [] {
      k := k1;
      CleanIsParsed(r);
      CleanIsParsed(a1.x.req);
      FromPlain(a1.x, r, e);
    } else {
      var vary := e.vary;
      VaryListIs(a1.x, key, e);
      VaryKeyDiffers(r, vary);
      k := StoredWasOffered(acts[..j], Key(r, vary));
      var a2, e2 := acts[k], Exec(acts[..j])[Key(r, vary)];
      assert acts[..j][k] == a2 && LegalAction(a2);
      OfferShape(a2.x, a2.i);
      assert CleanExchange(a2.x);
      FromVaried(a2.x, r, vary, e2);
    }
  }

  lemma {:induction false} CleanIsParsed(r: Request)
    requires CleanTarget(r)
    ensures CacheKey.Parsed(r)
  {
  }

  ghost predicate ParsedRun(acts: seq<Action>) {
    forall i :: 0 <= i < |acts| && acts[i].Put? ==> CacheKey.Parsed(acts[i].x.req)
  }

  /** An entry without a Vary list is a fit answer in every run, whatever characters the queries and headers hold. */
  lemma {:induction false} PlainIsFit(acts: seq<Action>, r: Request) returns (k: nat)
    requires LegalRun(acts) && ParsedRun(acts) && CacheKey.Parsed(r)
    requires Key(r, []) in Exec(acts) && Exec(acts)[Key(r, [])].vary == []
    ensures Fit(acts, k, r, Exec(acts)[Key(r, [])])
  {
    hide Exec, OffersOf, Key, BaseKey, IsResponse, LegalExchange, VerdictIn, SameTarget, CacheKey.Parsed;
    KeyOfNone(r);
    k := StoredWasOffered(acts, Key(r, []));
    assert LegalAction(acts[k]);
    OfferShape(acts[k].x, acts[k].i);
    FromPlain(acts[k].x, r, Exec(acts)[Key(r, [])]);
  }

  lemma {:induction false} VaryListIs(x: Exchange, key: string, e: Entry)
    requires LegalExchange(x) && (IsPointer(x, key, e) || IsResponse(x, key, e))
    ensures VerdictIn(x).Capture? && e.vary == VerdictIn(x).vary
  {
    hide VerdictIn, Key, BaseKey, Completed, HasSetCookie, LatchOf, HeadersAfter, Relayed, LegalExchange, AllLegal;
  }

  /** Found under the base key without a Vary list: the same target, whatever characters the queries hold. */
  lemma {:induction false} FromPlain(x: Exchange, r: Request, e: Entry)
    requires LegalExchange(x) && CacheKey.Parsed(x.req) && CacheKey.Parsed(r) && e.vary == []
    requires IsPointer(x, BaseKey(r), e) || IsResponse(x, BaseKey(r), e)
    ensures SameTarget(x.req, r) && Agree(x.req, r, e.vary) && IsResponse(x, Key(x.req, e.vary), e)
  {
    hide VerdictIn, Key, BaseKey, Completed, HasSetCookie, LatchOf, HeadersAfter, Relayed, LegalExchange, AllLegal;
    KeyOfNone(x.req);
    BaseKeyInjective(x.req, r);
  }

  lemma {:induction false} FromVaried(x: Exchange, r: Request, vary: seq<string>, e: Entry)
    requires LegalExchange(x) && CleanExchange(x) && CleanTarget(r)
    requires vary != [] && CleanNames(vary) && CleanValues(r, vary)
    requires IsPointer(x, Key(r, vary), e) || IsResponse(x, Key(r, vary), e)
    ensures SameTarget(x.req, r) && Agree(x.req, r, e.vary) && IsResponse(x, Key(x.req, e.vary), e)
  {
    hide VerdictIn, Key, BaseKey, Completed, HasSetCookie, LatchOf, HeadersAfter, Relayed, LegalExchange, AllLegal;
    hide CleanTarget, CleanNames, CleanValues, Get;
    PointerNotUnderVaryKey(x.req, r, vary);
    var own := VerdictIn(x).vary;
    KeyInjective(r, vary, x.req, own);
  }

  /** The writes of one exchange, in order. */
  ghost function Puts(x: Exchange): seq<Action>
    requires LegalExchange(x)
  {
    seq(|OffersOf(x)|, i requires i >= 0 => Put(x, i))
  }

  /** What the writes of an exchange leave: its response, its pointer if it varies, and everything else as it was. */
  lemma {:induction false} PutsEffect(x: Exchange, before: seq<Action>)
    requires LegalExchange(x) && OffersOf(x) != [] && LegalRun(before)
    ensures LegalRun(before + Puts(x)) && VerdictIn(x).Capture?
    ensures var s, s', key, base := Exec(before), Exec(before + Puts(x)), Key(x.req, VerdictIn(x).vary), BaseKey(x.req);
            && key in s' && IsResponse(x, key, s'[key])
            && (VerdictIn(x).vary != [] ==> base in s' && IsPointer(x, base, s'[base]))
            && forall k :: k != key && k != base ==> (k in s' <==> k in s) && (k in s ==> s'[k] == s[k])
  {
    hide Run, FinishOf, Judge, HasSetCookie, Completed, Key, BaseKey, LatchOf, Relayed, HeadersAfter, AllLegal, VerdictIn;
    OffersAre(x);
    var v, acts := VerdictIn(x), before + Puts(x);
    KeyOfNone(x.req);
    if v.vary != [] {
      VaryKeyDiffers(x.req, v.vary);
      assert acts[..|acts| - 1] == before + [Put(x, 0)];
      assert (before + [Put(x, 0)])[..|before|] == before;
    } else {
      assert acts[..|acts| - 1] == before;
    }
  }

  /** What an exchange offers is served, right then, to every request that it fits, whatever was stored before. */
  lemma {:induction false} StoredIsServed(x: Exchange, before: seq<Action>, r: Request)
    requires LegalExchange(x) && OffersOf(x) != [] && LegalRun(before)
    requires SameTarget(x.req, r) && (VerdictIn(x).Capture? ==> Agree(x.req, r, VerdictIn(x).vary))
    ensures var acts := before + Puts(x);
            && LegalRun(acts) && VerdictIn(x).Capture?
            && (var served := Serve(Exec(acts), Exec(acts), r);
                served.Some? && IsResponse(x, Key(x.req, VerdictIn(x).vary), served.value))
  {
    hide Exec, Puts, Completed, HasSetCookie, Key, BaseKey, LatchOf, Relayed, HeadersAfter, LegalExchange, VerdictIn;
    PutsEffect(x, before);
    KeyOfNone(r);
    KeyOfNone(x.req);
    KeyAgrees(x.req, r, []);
    KeyAgrees(x.req, r, VerdictIn(x).vary);
    if VerdictIn(x).vary != [] {
      VaryKeyDiffers(x.req, VerdictIn(x).vary);
    }
  }

  lemma {:induction false} OffersAre(x: Exchange)
    requires LegalExchange(x) && OffersOf(x) != []
    ensures var v, os := VerdictIn(x), OffersOf(x);
            && v.Capture?
            && (v.vary == [] ==> |os| == 1 && IsResponse(x, os[0].key, os[0].entry))
            && (v.vary != [] ==> |os| == 2 && IsPointer(x, os[0].key, os[0].entry) && IsResponse(x, os[1].key, os[1].entry))
  {
    hide Run, FinishOf, Judge, HasSetCookie, Completed, Key, BaseKey, LatchOf, Relayed, HeadersAfter, AllLegal;
    StoredIff(x.req, x.max, x.h0, x.calls, BaseKey(x.req));
    KeyOfNone(x.req);
    var v := VerdictIn(x);
    if v.vary != [] {
      VaryKeyDiffers(x.req, v.vary);
    }
  }

  lemma {:induction false} KeyAgrees(q: Request, r: Request, vary: seq<string>)
    requires SameTarget(q, r) && Agree(q, r, vary)
    ensures Key(q, vary) == Key(r, vary)
  {
    hide Get;
    SortSorts(vary);
    SortedMembers(vary);
    SameKey(q, r, Sort(vary));
  }
}
