/**
 The response-capturing writer (internal/cache/writer.go): it relays a response, decides at its first final status whether
 it may be cached, buffers the body up to a limit, and at the end offers the response to the store.
 */
module CachingWriter {
  import opened CacheControl
  import opened CacheKey
  import opened Options
  import opened Text

  type Byte = bv8

  datatype Entry = Entry(status: int, headers: Header, body: seq<Byte>, vary: seq<string>, tags: seq<string>)

  /** A write handed to the store. */
  datatype Offer = Offer(key: string, entry: Entry, ttl: int)

  function HeaderGet(h: Header, name: string): string {
    if name in h && |h[name]| > 0 then h[name][0] else ""
  }

  function NonEmpty(items: seq<string>): seq<string> {
    if items == [] then []
    else
      var t := TrimSpace(items[|items| - 1]);
      NonEmpty(items[..|items| - 1]) + if t == "" then [] else [t]
  }

  function Tags(h: Header): seq<string> {
    var sk := if HeaderGet(h, "Surrogate-Key") == "" then HeaderGet(h, "Cache-Tag") else HeaderGet(h, "Surrogate-Key");
    if sk == "" then [] else NonEmpty(SplitOn(sk, ' '))
  }

  /** What the writer decided when it saw the final status: not storable, or for how long, under which names and tags. */
  datatype Verdict = Pass | Capture(ttl: int, vary: seq<string>, tags: seq<string>)

  predicate Authorized(req: Request) {
    Get(req, "Authorization") != ""
  }

  function Missed(h: Header): Header {
    h["X-Cache" := ["MISS"]]
  }

  function Judge(req: Request, code: int, h: Header): Verdict {
    match Cacheable(Authorized(req), code, h)
    case None => Pass
    case Some(ttl) =>
      match VaryOf(h)
      case None => Pass
      case Some(names) => Capture(ttl, names, Tags(h))
  }

  lemma {:induction false} Judged(req: Request, code: int, h: Header)
    ensures var c, n := Cacheable(Authorized(req), code, h), VaryOf(h);
            Judge(req, code, h) == if c.Some? && n.Some? then Capture(c.value, n.value, Tags(h)) else Pass
  {
    hide Cacheable, VaryOf, Tags, Authorized;
  }

  datatype Buffer = Nil | Buf(bytes: seq<Byte>)

  /** The writer's fields, the headers of the writer it wraps, and what that one has been given. */
  datatype View = View(header: Header, status: int, buf: Buffer, verdict: Verdict, overflow: bool, headerSent: bool,
                       complete: bool, codes: seq<int>, relayed: seq<Byte>)

  function Fresh(h: Header): View {
    View(h, 200, Nil, Pass, false, false, false, [], [])
  }

  predicate Informational(code: int) {
    100 <= code < 200
  }

  function WriteHeaderTo(w: View, req: Request, code: int): View {
    if Informational(code) then w.(codes := w.codes + [code])
    else if w.headerSent then w
    else
      var v := Judge(req, code, w.header);
      w.(headerSent := true, status := code, verdict := v, buf := if v.Capture? then Buf([]) else Nil,
         header := Missed(w.header), codes := w.codes + [code])
  }

  /** `b` is handed on and the wrapped writer takes its first `n` bytes. */
  function WriteTo(w: View, req: Request, max: int, b: seq<Byte>, n: nat): View
    requires n <= |b|
  {
    var w1 := if w.headerSent then w else WriteHeaderTo(w, req, 200);
    var w2 := w1.(relayed := w1.relayed + b[..n]);
    if w2.verdict.Capture? && !w2.overflow && w2.buf.Buf? then
      var bytes := w2.buf.bytes + b[..n];
      if |bytes| > max then w2.(overflow := true, buf := Nil) else w2.(buf := Buf(bytes))
    else w2
  }

  function Pointer(req: Request, cacheKey: string, status: int, v: Verdict): seq<Offer>
    requires v.Capture?
  {
    if v.vary != [] && Key(req, v.vary) != cacheKey
    then [Offer(cacheKey, Entry(status, map[], [], v.vary, []), v.ttl)]
    else []
  }

  /** The pointer under the base key, if the response varies, and then the response itself. */
  function Offers(req: Request, cacheKey: string, status: int, h: Header, body: seq<Byte>, v: Verdict): seq<Offer>
    requires v.Capture?
  {
    var storeKey := if v.vary != [] then Key(req, v.vary) else cacheKey;
    Pointer(req, cacheKey, status, v)
    + [Offer(storeKey, Entry(status, h - {"Surrogate-Key", "Cache-Tag"}, body, v.vary, v.tags), v.ttl)]
  }

  /** What Finish does: the writes it offers and the outcome it counts. */
  datatype Finished = Finished(offers: seq<Offer>, misses: nat, uncacheable: nat, skips: nat)

  function FinishOf(w: View, req: Request, cacheKey: string): Finished {
    if !w.headerSent then Finished([], 0, 0, 0)
    else if w.verdict.Pass? then Finished([], 0, 1, 0)
    else if !w.complete then Finished([], 1, 0, 0)
    else if w.overflow || w.buf.Nil? then Finished([], 1, 0, if w.overflow then 1 else 0)
    else if HasSetCookie(w.header) then Finished([], 1, 0, 0)
    else Finished(Offers(req, cacheKey, w.status, w.header, w.buf.bytes, w.verdict), 1, 0, 0)
  }

  class Writer {
    const req: Request
    const maxBody: int
    var header: Header
    var statusCode: int
    var buf: Buffer
    var cacheable: bool
    var ttl: int
    var vary: seq<string>
    var tags: seq<string>
    var overflow: bool
    var headerSent: bool
    var complete: bool
    var codes: seq<int>
    var relayed: seq<Byte>
    var misses: nat
    var uncacheable: nat
    var skips: nat

    constructor (req: Request, maxBody: int, header: Header)
      ensures this.req == req && this.maxBody == maxBody && Valid() && Shows() == Fresh(header)
      ensures misses == 0 && uncacheable == 0 && skips == 0
    {
      this.req, this.maxBody, this.header := req, maxBody, header;
      statusCode, buf, cacheable, ttl, vary, tags := 200, Nil, false, 0, [], [];
      overflow, headerSent, complete, codes, relayed := false, false, false, [], [];
      misses, uncacheable, skips := 0, 0, 0;
    }

    /** Nothing is captured before the status is fixed. */
    ghost predicate Valid()
      reads this
    {
      !headerSent ==> !cacheable && buf.Nil?
    }

    ghost function Shows(): View
      reads this
    {
      View(header, statusCode, buf, if cacheable then Capture(ttl, vary, tags) else Pass, overflow, headerSent, complete,
           codes, relayed)
    }

    method WriteHeader(code: int)
      requires Valid()
      modifies `header, `statusCode, `buf, `cacheable, `ttl, `vary, `tags, `headerSent, `codes
      ensures Valid() && Shows() == WriteHeaderTo(old(Shows()), req, code)
      ensures old(headerSent) || !Informational(code) ==> headerSent
    {
      hide Judge, Missed;
      if 100 <= code < 200 {
        codes := codes + [code];
        return;
      }
      if headerSent {
        return;
      }
      Decide(code);
      header := Missed(header);
      codes := codes + [code];
    }

    /** Fixes the status and judges the response. */
    method Decide(code: int)
      requires Valid() && !headerSent
      modifies `statusCode, `buf, `cacheable, `ttl, `vary, `tags, `headerSent
      ensures headerSent && statusCode == code
      ensures var v := Judge(req, code, header);
              && cacheable == v.Capture? && (cacheable ==> Capture(ttl, vary, tags) == v)
              && buf == if v.Capture? then Buf([]) else Nil
    {
      hide Judge, Cacheable, VaryOf, Tags, Authorized;
      Judged(req, code, header);
      headerSent := true;
      statusCode := code;
      var t, ok := IsCacheable(Authorized(req), code, header);
      if !ok {
        return;
      }
      var names, varyOk := ParseVary(header);
      if !varyOk {
        return;
      }
      cacheable := true;
      ttl, vary, tags := t, names, Tags(header);
      buf := Buf([]);
    }

    method Write(b: seq<Byte>, n: nat)
      requires Valid() && n <= |b|
      modifies `header, `statusCode, `buf, `cacheable, `ttl, `vary, `tags, `headerSent, `codes, `overflow, `relayed
      ensures Valid() && Shows() == WriteTo(old(Shows()), req, maxBody, b, n)
    {
      hide WriteHeaderTo;
      if !headerSent {
        WriteHeader(200);
      }
      relayed := relayed + b[..n];
      if cacheable && !overflow && buf.Buf? {
        var bytes := buf.bytes + b[..n];
        if |bytes| > maxBody {
          overflow := true;
          buf := Nil;
        } else {
          buf := Buf(bytes);
        }
      }
    }

    method MarkComplete()
      requires Valid()
      modifies `complete
      ensures Valid() && Shows() == old(Shows()).(complete := true)
    {
      complete := true;
    }

    method Finish(cacheKey: string) returns (offers: seq<Offer>)
      modifies `misses, `uncacheable, `skips
      ensures var f := FinishOf(Shows(), req, cacheKey);
              && offers == f.offers && misses == old(misses) + f.misses
              && uncacheable == old(uncacheable) + f.uncacheable && skips == old(skips) + f.skips
    {
      hide HasSetCookie, Key;
      offers := [];
      if !headerSent {
        return;
      }
      if !cacheable {
        uncacheable := uncacheable + 1;
        return;
      }
      misses := misses + 1;
      if !complete {
        return;
      }
      if overflow || buf.Nil? {
        if overflow {
          skips := skips + 1;
        }
        return;
      }
      if HasSetCookie(header) {
        return;
      }
      var storeKey := cacheKey;
      if |vary| > 0 {
        storeKey := KeyFromRequest(req, vary);
        if storeKey != cacheKey {
          offers := [Offer(cacheKey, Entry(statusCode, map[], [], vary, []), ttl)];
        }
      }
      var kept := header - {"Surrogate-Key", "Cache-Tag"};
      offers := offers + [Offer(storeKey, Entry(statusCode, kept, buf.bytes, vary, tags), ttl)];
    }
  }

  // ---------------------------------------------------------------- every call sequence

  /** What the handler does between the creation of the writer and Finish; SetHeaders is any change to the header map. */
  datatype Call = SetHeaders(h: Header) | WriteHeader(code: int) | Write(b: seq<Byte>, n: nat) | MarkComplete

  predicate Legal(c: Call) {
    c.Write? ==> c.n <= |c.b|
  }

  ghost predicate AllLegal(calls: seq<Call>) {
    forall i :: 0 <= i < |calls| ==> Legal(calls[i])
  }

  function Do(w: View, req: Request, max: int, c: Call): View
    requires Legal(c)
  {
    match c
    case SetHeaders(h) => w.(header := h)
    case WriteHeader(code) => WriteHeaderTo(w, req, code)
    case Write(b, n) => WriteTo(w, req, max, b, n)
    case MarkComplete => w.(complete := true)
  }

  function Run(req: Request, max: int, h0: Header, calls: seq<Call>): View
    requires AllLegal(calls)
  {
    if calls == [] then Fresh(h0)
    else Do(Run(req, max, h0, calls[..|calls| - 1]), req, max, calls[|calls| - 1])
  }

  /** The call that fixes the status, if any: the first final WriteHeader or the first Write. */
  predicate Final(c: Call) {
    c.Write? || (c.WriteHeader? && !Informational(c.code))
  }

  function CodeOf(c: Call): int {
    if c.WriteHeader? then c.code else 200
  }

  datatype Latch = NoLatch | At(code: int, h: Header)

  /** The headers as the handler left them, and the status with the headers it was sent with. */
  function HeadersAfter(h0: Header, calls: seq<Call>): Header {
    if calls == [] then h0
    else
      var init, c := calls[..|calls| - 1], calls[|calls| - 1];
      var h := HeadersAfter(h0, init);
      if c.SetHeaders? then c.h
      else if Final(c) && LatchOf(h0, init).NoLatch? then Missed(h)
      else h
  }

  function LatchOf(h0: Header, calls: seq<Call>): Latch {
    if calls == [] then NoLatch
    else
      var init, c := calls[..|calls| - 1], calls[|calls| - 1];
      var l := LatchOf(h0, init);
      if l.NoLatch? && Final(c) then At(CodeOf(c), HeadersAfter(h0, init)) else l
  }

  /** All bytes the client was sent, in order. */
  function Relayed(calls: seq<Call>): seq<Byte>
    requires AllLegal(calls)
  {
    if calls == [] then []
    else Relayed(calls[..|calls| - 1])
         + (var c := calls[|calls| - 1]; if c.Write? then c.b[..c.n] else [])
  }

  /** The status codes the client is sent: every informational one, and one final one. */
  function Codes(h0: Header, calls: seq<Call>): seq<int> {
    if calls == [] then []
    else
      var init, c := calls[..|calls| - 1], calls[|calls| - 1];
      Codes(h0, init)
      + if c.WriteHeader? && Informational(c.code) then [c.code]
        else if Final(c) && LatchOf(h0, init).NoLatch? then [CodeOf(c)] else []
  }

  ghost predicate Wrote(calls: seq<Call>) {
    exists i :: 0 <= i < |calls| && calls[i].Write?
  }

  ghost predicate Completed(calls: seq<Call>) {
    exists i :: 0 <= i < |calls| && calls[i].MarkComplete?
  }

  /** The body fits; a response without a single Write fits whatever the limit. */
  ghost predicate Fits(calls: seq<Call>, max: int)
    requires AllLegal(calls)
  {
    Wrote(calls) ==> |Relayed(calls)| <= max
  }

  function VerdictOf(req: Request, l: Latch): Verdict {
    match l case NoLatch => Pass case At(code, h) => Judge(req, code, h)
  }

  lemma {:induction false} SnocFacts(calls: seq<Call>)
    requires calls != []
    ensures var init, c := calls[..|calls| - 1], calls[|calls| - 1];
            (Wrote(calls) <==> Wrote(init) || c.Write?) && (Completed(calls) <==> Completed(init) || c.MarkComplete?)
  {
    var init, c := calls[..|calls| - 1], calls[|calls| - 1];
    assert calls == init + [c];
    if Wrote(init) {
      var i :| 0 <= i < |init| && init[i].Write?;
      assert calls[i].Write?;
    }
    if Completed(init) {
      var i :| 0 <= i < |init| && init[i].MarkComplete?;
      assert calls[i].MarkComplete?;
    }
  }

  /** The writer's state after any calls, in terms of the calls: the head of the response and its body. */
  ghost predicate TracksHead(w: View, req: Request, h0: Header, calls: seq<Call>) {
    var l := LatchOf(h0, calls);
    && w.header == HeadersAfter(h0, calls)
    && w.headerSent == l.At? && (l.At? ==> w.status == l.code)
    && w.verdict == VerdictOf(req, l)
    && w.codes == Codes(h0, calls)
    && w.complete == Completed(calls)
  }

  ghost predicate TracksBody(w: View, max: int, calls: seq<Call>)
    requires AllLegal(calls)
  {
    && w.relayed == Relayed(calls)
    && (!w.headerSent ==> !Wrote(calls) && Relayed(calls) == [] && w.verdict.Pass?)
    && (w.verdict.Capture? ==> w.buf == if Fits(calls, max) then Buf(Relayed(calls)) else Nil)
    && (w.overflow <==> w.verdict.Capture? && !Fits(calls, max))
  }

  lemma {:induction false} RunTracks(req: Request, max: int, h0: Header, calls: seq<Call>)
    requires AllLegal(calls)
    ensures TracksHead(Run(req, max, h0, calls), req, h0, calls)
    ensures TracksBody(Run(req, max, h0, calls), max, calls)
  {
    hide Judge, Do, Fits;
    if calls == [] {
      assert Fits(calls, max) by { FitsWithout(calls, max); }
    } else {
      hide TracksHead, TracksBody;
      var init, c := calls[..|calls| - 1], calls[|calls| - 1];
      RunTracks(req, max, h0, init);
      HeadStep(Run(req, max, h0, init), req, max, h0, calls);
      BodyStep(Run(req, max, h0, init), req, max, calls);
    }
  }

  lemma {:induction false} FitsWithout(calls: seq<Call>, max: int)
    requires AllLegal(calls) && !Wrote(calls)
    ensures Fits(calls, max)
  {
  }

  lemma {:induction false} SnocHead(h0: Header, calls: seq<Call>)
    requires calls != []
    ensures var init, c := calls[..|calls| - 1], calls[|calls| - 1];
            var latches := Final(c) && LatchOf(h0, init).NoLatch?;
            && LatchOf(h0, calls) == (if latches then At(CodeOf(c), HeadersAfter(h0, init)) else LatchOf(h0, init))
            && HeadersAfter(h0, calls) == (if c.SetHeaders? then c.h
                                           else if latches then Missed(HeadersAfter(h0, init)) else HeadersAfter(h0, init))
            && Codes(h0, calls) == Codes(h0, init) + (if c.WriteHeader? && Informational(c.code) then [c.code]
                                                      else if latches then [CodeOf(c)] else [])
  {
    hide Missed;
  }

  lemma {:induction false} HeadStep(w: View, req: Request, max: int, h0: Header, calls: seq<Call>)
    requires AllLegal(calls) && calls != [] && TracksHead(w, req, h0, calls[..|calls| - 1])
    ensures TracksHead(Do(w, req, max, calls[|calls| - 1]), req, h0, calls)
  {
    hide Judge, Wrote, Completed, Missed, LatchOf, HeadersAfter, Codes;
    SnocFacts(calls);
    SnocHead(h0, calls);
  }

  lemma {:induction false} BodyStep(w: View, req: Request, max: int, calls: seq<Call>)
    requires AllLegal(calls) && calls != [] && TracksBody(w, max, calls[..|calls| - 1])
    ensures TracksBody(Do(w, req, max, calls[|calls| - 1]), max, calls)
  {
    hide Judge, Wrote, Completed, Missed;
    SnocFacts(calls);
  }

  /**
   For every sequence of calls: a response is offered to the store iff its first final status was cacheable with a usable
   Vary, it was marked complete, its body fits, and its final headers carry no Set-Cookie in header or trailer form.
   What is offered is then the status sent, the exact bytes relayed, and the TTL, Vary list and tags judged at that status.
   */
  lemma {:induction false} StoredIff(req: Request, max: int, h0: Header, calls: seq<Call>, cacheKey: string)
    requires AllLegal(calls)
    ensures var f := FinishOf(Run(req, max, h0, calls), req, cacheKey);
            var l := LatchOf(h0, calls);
            var v := VerdictOf(req, l);
            && (f.offers != [] <==> v.Capture? && Completed(calls) && Fits(calls, max)
                                    && !HasSetCookie(HeadersAfter(h0, calls)))
            && (f.offers != [] ==> f.offers == Offers(req, cacheKey, l.code, HeadersAfter(h0, calls), Relayed(calls), v))
  {
    hide Judge, HasSetCookie, Run, Offers, Fits, Completed;
    RunTracks(req, max, h0, calls);
    var w := Run(req, max, h0, calls);
    if w.verdict.Capture? {
      OffersSome(req, cacheKey, w.status, w.header, Relayed(calls), w.verdict);
    }
  }

  lemma {:induction false} OffersSome(req: Request, cacheKey: string, status: int, h: Header, body: seq<Byte>, v: Verdict)
    requires v.Capture?
    ensures Offers(req, cacheKey, status, h, body, v) != []
  {
  }

  /**
   Every response is counted once: a miss iff judged storable, uncacheable iff it had a final status and was not; and a skip
   iff only its length kept it from the store.
   */
  lemma {:induction false} CountedOnce(req: Request, max: int, h0: Header, calls: seq<Call>, cacheKey: string)
    requires AllLegal(calls)
    ensures var f := FinishOf(Run(req, max, h0, calls), req, cacheKey);
            var l := LatchOf(h0, calls);
            var v := VerdictOf(req, l);
            && f.misses == (if v.Capture? then 1 else 0)
            && f.uncacheable == (if l.At? && v.Pass? then 1 else 0)
            && f.misses + f.uncacheable <= 1
            && f.skips == (if v.Capture? && Completed(calls) && !Fits(calls, max) then 1 else 0)
  {
    hide Judge, HasSetCookie, Run, Offers, Fits, Completed;
    RunTracks(req, max, h0, calls);
  }

  function Finals(codes: seq<int>): seq<int> {
    if codes == [] then []
    else Finals(codes[..|codes| - 1]) + if Informational(codes[|codes| - 1]) then [] else [codes[|codes| - 1]]
  }

  lemma {:induction false} FinalsSnoc(codes: seq<int>, code: int)
    ensures Finals(codes + [code]) == Finals(codes) + if Informational(code) then [] else [code]
  {
    assert (codes + [code])[..|codes|] == codes;
  }

  lemma {:induction false} OneFinal(h0: Header, calls: seq<Call>)
    ensures var l := LatchOf(h0, calls); Finals(Codes(h0, calls)) == if l.At? then [l.code] else []
  {
    hide Missed, LatchOf, HeadersAfter, Codes;
    if calls == [] {
      NoCalls(h0);
    } else {
      var init, c := calls[..|calls| - 1], calls[|calls| - 1];
      OneFinal(h0, init);
      SnocHead(h0, calls);
      var codes := Codes(h0, init);
      assert codes + [] == codes;
      FinalsSnoc(codes, CodeOf(c));
    }
  }

  lemma {:induction false} NoCalls(h0: Header)
    ensures LatchOf(h0, []) == NoLatch && Codes(h0, []) == []
  {
  }

  /**
   The client sees the response unchanged, whatever is cached: the bytes written, every informational status, and of the
   others exactly the first.
   */
  lemma {:induction false} RelayIsTransparent(req: Request, max: int, h0: Header, calls: seq<Call>)
    requires AllLegal(calls)
    ensures var w, l := Run(req, max, h0, calls), LatchOf(h0, calls);
            && w.relayed == Relayed(calls) && w.codes == Codes(h0, calls)
            && Finals(w.codes) == if l.At? then [l.code] else []
  {
    hide Judge, Run, Fits, Completed, LatchOf, Codes;
    RunTracks(req, max, h0, calls);
    OneFinal(h0, calls);
  }
}
