/** Which responses the shared cache may store, and for how long (internal/cache/cache.go). */
module CacheControl {
  import opened Text
  import opened Directives
  import opened Options

  // ---------------------------------------------------------------- library pieces

  /** unicode.IsSpace. */
  predicate IsSpace(c: char) {
    || c in " \t\n\r" || c == '\U{0B}' || c == '\U{0C}' || c == '\U{85}' || c == '\U{A0}' || c == '\U{1680}'
    || '\U{2000}' <= c <= '\U{200A}' || c in ['\U{2028}', '\U{2029}', '\U{202F}', '\U{205F}', '\U{3000}']
  }

  function TrimLeft(s: string, cut: char -> bool): string {
    if s != "" && cut(s[0]) then TrimLeft(s[1..], cut) else s
  }

  function TrimRight(s: string, cut: char -> bool): string {
    if s != "" && cut(s[|s| - 1]) then TrimRight(s[..|s| - 1], cut) else s
  }

  function TrimSpace(s: string): string {
    TrimRight(TrimLeft(s, IsSpace), IsSpace)
  }

  predicate IsQuote(c: char) {
    c == '\"'
  }

  function TrimQuotes(s: string): string {
    TrimRight(TrimLeft(s, IsQuote), IsQuote)
  }

  /** Letters whose lower case is an ASCII letter; no other rune can turn into part of a directive name. */
  function Lower(c: char): char {
    if c == '\U{130}' then 'i' else if c == '\U{212A}' then 'k' else LowerOf(c)
  }

  function ToLower(s: string): (r: string)
    ensures |r| == |s|
  {
    seq(|s|, i requires 0 <= i < |s| => Lower(s[i]))
  }

  predicate AllDigits(s: string) {
    forall i :: 0 <= i < |s| ==> '0' <= s[i] <= '9'
  }

  function Digits(s: string): nat
    requires AllDigits(s)
  {
    if s == "" then 0 else Digits(s[..|s| - 1]) * 10 + (s[|s| - 1] - '0') as int
  }

  const MAX_INT := 0x7fff_ffff_ffff_ffff

  /** strconv.Atoi with 64-bit integers. */
  function Atoi(s: string): Option<int> {
    var digits := if s != "" && (s[0] == '-' || s[0] == '+') then s[1..] else s;
    if digits == "" || !AllDigits(digits) then None
    else
      var n := if s[0] == '-' then 0 - Digits(digits) else Digits(digits);
      if -MAX_INT - 1 <= n <= MAX_INT then Some(n) else None
  }

  const SECOND := 1_000_000_000

  /** time.Duration(seconds) * time.Second in 64 bits, wrapping round. */
  function Seconds(n: int): int {
    (n * SECOND + MAX_INT + 1) % (2 * (MAX_INT + 1)) - (MAX_INT + 1)
  }

  // ---------------------------------------------------------------- ParseCacheControl

  /** Durations in nanoseconds. */
  datatype Parsed = Parsed(maxAge: int, sMaxAge: int, hasSMaxAge: bool,
                           noStore: bool, noCache: bool, priv: bool, pub: bool, mustRevalidate: bool)

  const NOTHING := Parsed(0, 0, false, false, false, false, false, false)

  function Name(d: string): string {
    ToLower(TrimSpace(Before(d, '=')))
  }

  function Value(d: string): Option<int> {
    Atoi(TrimQuotes(TrimSpace(After(d, '='))))
  }

  datatype Kind = MaxAge | SMaxAge | NoStore | NoCache | Private | Public | MustRevalidate | Other

  function KindOf(name: string): Kind {
    if name == "max-age" then MaxAge
    else if name == "s-maxage" then SMaxAge
    else if name == "no-store" then NoStore
    else if name == "no-cache" then NoCache
    else if name == "private" then Private
    else if name == "public" then Public
    else if name == "must-revalidate" then MustRevalidate
    else Other
  }

  function AbsorbKind(c: Parsed, kind: Kind, value: Option<int>): Parsed {
    match kind
    case MaxAge => if value.Some? && value.value > 0 then c.(maxAge := Seconds(value.value)) else c
    case SMaxAge =>
      if value.Some? && value.value >= 0 then c.(sMaxAge := Seconds(value.value), hasSMaxAge := true) else c
    case NoStore => c.(noStore := true)
    case NoCache => c.(noCache := true)
    case Private => c.(priv := true)
    case Public => c.(pub := true)
    case MustRevalidate => c.(mustRevalidate := true)
    case Other => c
  }

  function Absorb(c: Parsed, d: string): Parsed {
    AbsorbKind(c, KindOf(Name(d)), Value(d))
  }

  lemma {:induction false} FlagsByKind(c: Parsed, kind: Kind, value: Option<int>)
    ensures var c' := AbsorbKind(c, kind, value);
            && (c'.noStore <==> c.noStore || kind.NoStore?) && (c'.noCache <==> c.noCache || kind.NoCache?)
            && (c'.priv <==> c.priv || kind.Private?) && (c'.pub <==> c.pub || kind.Public?)
            && (c'.mustRevalidate <==> c.mustRevalidate || kind.MustRevalidate?)
  {
    hide Seconds;
    match kind {
      case NoStore => case NoCache => case Private => case Public => case MustRevalidate => case _ =>
    }
  }

  /** The names are pairwise different, so each flag's name selects its own case. */
  lemma {:induction false} KindsByName(name: string)
    ensures (KindOf(name).NoStore? <==> name == "no-store") && (KindOf(name).NoCache? <==> name == "no-cache")
    ensures (KindOf(name).Private? <==> name == "private") && (KindOf(name).Public? <==> name == "public")
    ensures KindOf(name).MustRevalidate? <==> name == "must-revalidate"
    ensures (KindOf(name).MaxAge? <==> name == "max-age") && (KindOf(name).SMaxAge? <==> name == "s-maxage")
  {
    assert |"max-age"| == 7 && |"private"| == 7 && "max-age"[0] != "private"[0];
    assert |"s-maxage"| == 8 && |"no-store"| == 8 && |"no-cache"| == 8;
    assert "s-maxage"[0] != "no-store"[0] && "s-maxage"[0] != "no-cache"[0] && "no-store"[3] != "no-cache"[3];
    assert |"public"| == 6 && |"must-revalidate"| == 15;
  }

  function Absorbed(ds: seq<string>): Parsed {
    if ds == [] then NOTHING else Absorb(Absorbed(ds[..|ds| - 1]), ds[|ds| - 1])
  }

  method ParseCacheControl(cc: string) returns (c: Parsed)
    ensures c == Absorbed(Split(cc))
  {
    hide Absorb;
    c := NOTHING;
    var ds := SplitDirectives(cc);
    for i := 0 to |ds|
      invariant c == Absorbed(ds[..i])
    {
      assert ds[..i + 1][..i] == ds[..i];
      c := Absorb(c, ds[i]);
    }
    assert ds[..|ds|] == ds;
  }

  ghost predicate Mentions(ds: seq<string>, name: string) {
    exists i :: 0 <= i < |ds| && Name(ds[i]) == name
  }

  lemma {:induction false} MentionsSnoc(ds: seq<string>, d: string, name: string)
    ensures Mentions(ds + [d], name) <==> Mentions(ds, name) || Name(d) == name
  {
    hide Name;
    if i :| 0 <= i < |ds| && Name(ds[i]) == name {
      assert Name((ds + [d])[i]) == name;
    }
    assert (ds + [d])[|ds|] == d;
    if i :| 0 <= i < |ds + [d]| && Name((ds + [d])[i]) == name {
      assert i < |ds| ==> (ds + [d])[i] == ds[i];
    }
  }

  /** A flag is set iff some directive has its name, with or without an argument and wherever it stands. */
  lemma {:induction false} FlagsAreMentions(ds: seq<string>)
    ensures var c := Absorbed(ds);
            && (c.noStore <==> Mentions(ds, "no-store")) && (c.noCache <==> Mentions(ds, "no-cache"))
            && (c.priv <==> Mentions(ds, "private")) && (c.pub <==> Mentions(ds, "public"))
            && (c.mustRevalidate <==> Mentions(ds, "must-revalidate"))
  {
    hide Name, Value, Mentions;
    if ds == [] {
      assert forall n :: !Mentions([], n) by { NoMention(); }
    } else {
      var ds', d := ds[..|ds| - 1], ds[|ds| - 1];
      FlagsAreMentions(ds');
      assert ds == ds' + [d];
      MentionsSnoc(ds', d, "no-store");
      MentionsSnoc(ds', d, "no-cache");
      MentionsSnoc(ds', d, "private");
      MentionsSnoc(ds', d, "public");
      MentionsSnoc(ds', d, "must-revalidate");
      FlagsStep(Absorbed(ds'), d);
    }
  }

  lemma {:induction false} NoMention()
    ensures forall n :: !Mentions([], n)
  {
  }

  lemma {:induction false} FlagsStep(c: Parsed, d: string)
    ensures var c' := Absorb(c, d);
            && (c'.noStore <==> c.noStore || Name(d) == "no-store") && (c'.noCache <==> c.noCache || Name(d) == "no-cache")
            && (c'.priv <==> c.priv || Name(d) == "private") && (c'.pub <==> c.pub || Name(d) == "public")
            && (c'.mustRevalidate <==> c.mustRevalidate || Name(d) == "must-revalidate")
  {
    hide Name, Value, KindOf, AbsorbKind;
    KindsByName(Name(d));
    FlagsByKind(c, KindOf(Name(d)), Value(d));
  }

  /** A directive of that name whose argument is a number of at least `floor`. */
  predicate GivesAge(d: string, kind: Kind, floor: int) {
    KindOf(Name(d)) == kind && Value(d).Some? && Value(d).value >= floor
  }

  /** The age that the last such directive gives. */
  function LastAge(ds: seq<string>, kind: Kind, floor: int): Option<int> {
    if ds == [] then None
    else
      var d := ds[|ds| - 1];
      if GivesAge(d, kind, floor) then Some(Seconds(Value(d).value)) else LastAge(ds[..|ds| - 1], kind, floor)
  }

  /** The last positive max-age counts, and the last s-maxage that is a number, zero included. */
  lemma {:induction false} AgesAreLast(ds: seq<string>)
    ensures var c := Absorbed(ds);
            var m, s := LastAge(ds, MaxAge, 1), LastAge(ds, SMaxAge, 0);
            && c.maxAge == (if m.Some? then m.value else 0)
            && (c.hasSMaxAge <==> s.Some?) && (s.Some? ==> c.sMaxAge == s.value)
  {
    hide Name, Value, KindOf, Seconds, AbsorbKind;
    if ds == [] {
    } else {
      AgesAreLast(ds[..|ds| - 1]);
      var d := ds[|ds| - 1];
      AgesByKind(Absorbed(ds[..|ds| - 1]), KindOf(Name(d)), Value(d));
    }
  }

  lemma {:induction false} AgesByKind(c: Parsed, kind: Kind, v: Option<int>)
    ensures var c' := AbsorbKind(c, kind, v);
            && c'.maxAge == (if kind.MaxAge? && v.Some? && v.value >= 1 then Seconds(v.value) else c.maxAge)
            && c'.sMaxAge == (if kind.SMaxAge? && v.Some? && v.value >= 0 then Seconds(v.value) else c.sMaxAge)
            && c'.hasSMaxAge == (c.hasSMaxAge || (kind.SMaxAge? && v.Some? && v.value >= 0))
  {
    hide Seconds;
  }

  /** The product with a second fits 64 bits, and the TTL is the delta-seconds, iff these are at most 9223372036. */
  lemma {:induction false} SecondsExactIff(n: int)
    requires 0 <= n <= MAX_INT
    ensures Seconds(n) == n * SECOND <==> n <= 9_223_372_036
  {
    var x := n * SECOND + MAX_INT + 1;
    if n <= 9_223_372_036 {
      assert 0 <= x < 2 * (MAX_INT + 1);
    } else {
      assert Seconds(n) <= MAX_INT;
    }
  }

  /** Otherwise it wraps round: a duration of 64 bits that differs by a multiple of 2 to the 64. */
  lemma {:induction false} SecondsWraps(n: int)
    ensures -MAX_INT - 1 <= Seconds(n) <= MAX_INT
    ensures (n * SECOND - Seconds(n)) % (2 * (MAX_INT + 1)) == 0
  {
    var x, m := n * SECOND + MAX_INT + 1, 2 * (MAX_INT + 1);
    assert n * SECOND - Seconds(n) == x / m * m;
  }

  // ---------------------------------------------------------------- IsCacheable

  type Header = map<string, seq<string>>

  const TRAILER_PREFIX := "Trailer:"

  function StripTrailer(name: string): string {
    if TRAILER_PREFIX <= name then name[|TRAILER_PREFIX|..] else name
  }

  /** A Set-Cookie under its own name in any case, or as an unannounced trailer. */
  predicate HasSetCookie(h: Header) {
    exists name :: name in h && Canonical(StripTrailer(name)) == "Set-Cookie"
  }

  function Values(h: Header, name: string): seq<string> {
    if name in h then h[name] else []
  }

  /** The TTL in nanoseconds, or None if the response must not be stored. */
  function Cacheable(authorized: bool, status: int, h: Header): (r: Option<int>)
    ensures r.Some? ==> r.value > 0
  {
    var lines := Values(h, "Cache-Control");
    if status != 200 && status != 301 then None
    else if HasSetCookie(h) then None
    else if lines == [] then None
    else
      var c := Absorbed(Split(Join(lines)));
      var ttl := if c.hasSMaxAge then c.sMaxAge else c.maxAge;
      if c.noStore || c.noCache || c.priv then None
      else if authorized && !c.pub && !c.hasSMaxAge && !c.mustRevalidate then None
      else if ttl <= 0 then None
      else Some(ttl)
  }

  method IsCacheable(authorized: bool, status: int, h: Header) returns (ttl: int, ok: bool)
    ensures Cacheable(authorized, status, h) == if ok then Some(ttl) else None
  {
    hide Absorbed, HasSetCookie, Split;
    ttl, ok := 0, false;
    if status != 200 && status != 301 {
      return;
    }
    if HasSetCookie(h) {
      return;
    }
    var lines := Values(h, "Cache-Control");
    if |lines| == 0 {
      return;
    }
    var cc := ParseCacheControl(Join(lines));
    if cc.noStore || cc.noCache || cc.priv {
      return;
    }
    if authorized && !cc.pub && !cc.hasSMaxAge && !cc.mustRevalidate {
      return;
    }
    ttl := cc.maxAge;
    if cc.hasSMaxAge {
      ttl := cc.sMaxAge;
    }
    ok := ttl > 0;
    if !ok {
      ttl := 0;
    }
  }

  /** A directive that forbids a shared cache to store, on this field line. */
  ghost predicate Restrictive(line: string) {
    Mentions(Split(line), "no-store") || Mentions(Split(line), "no-cache") || Mentions(Split(line), "private")
  }

  predicate Forbids(name: string) {
    name == "no-store" || name == "no-cache" || name == "private"
  }

  lemma {:induction false} RestrictiveIs(line: string)
    ensures Restrictive(line) <==> exists k :: 0 <= k < |Split(line)| && Forbids(Name(Split(line)[k]))
  {
    hide Split, Name;
  }

  lemma {:induction false} ForbiddingNamesArePlain(name: string)
    requires Forbids(name)
    ensures '\"' !in name && ',' !in name
  {
  }

  lemma {:induction false} TrimKeeps(s: string, c: char)
    requires c in s && !IsSpace(c)
    ensures c in TrimSpace(s)
  {
    hide IsSpace;
    TrimLeftKeeps(s, c);
    TrimRightKeeps(TrimLeft(s, IsSpace), c);
  }

  lemma {:induction false} TrimLeftKeeps(s: string, c: char)
    requires c in s && !IsSpace(c)
    ensures c in TrimLeft(s, IsSpace)
  {
    hide IsSpace;
    if IsSpace(s[0]) {
      assert s == [s[0]] + s[1..];
      TrimLeftKeeps(s[1..], c);
    }
  }

  lemma {:induction false} TrimRightKeeps(s: string, c: char)
    requires c in s && !IsSpace(c)
    ensures c in TrimRight(s, IsSpace)
  {
    hide IsSpace;
    if IsSpace(s[|s| - 1]) {
      assert s == s[..|s| - 1] + [s[|s| - 1]];
      TrimRightKeeps(s[..|s| - 1], c);
    }
  }

  lemma {:induction false} LowerKeeps(s: string, c: char)
    requires c in s && Lower(c) == c
    ensures c in ToLower(s)
  {
    hide Lower;
    var i :| 0 <= i < |s| && s[i] == c;
    assert ToLower(s)[i] == c;
  }

  /** A directive without argument has in its name every quote and comma that it holds. */
  lemma {:induction false} BareNameKeeps(d: string, c: char)
    requires '=' !in d && c in d && (c == '\"' || c == ',')
    ensures c in Name(d)
  {
    hide TrimSpace, ToLower;
    CutWhole(d, '=');
    assert !IsSpace(c) && Lower(c) == c;
    TrimKeeps(d, c);
    LowerKeeps(TrimSpace(d), c);
  }

  /** More text after the argument has begun does not change the name. */
  lemma {:induction false} LongerSameName(d: string, d': string)
    requires d <= d' && '=' in d
    ensures Name(d') == Name(d)
  {
    CutWhole(d, '=');
    var n, v := Before(d, '='), After(d, '=') + d'[|d|..];
    assert d' == d + d'[|d|..];
    assert d' == n + ['='] + v;
    CutJoined(n, v, '=');
  }

  lemma {:induction false} NoQuoteIsClosed(s: string)
    requires '\"' !in s
    ensures Closed(s)
  {
    hide Scanned;
    if s == "" {
      ScanEmpty();
    } else {
      var t, c := s[..|s| - 1], s[|s| - 1];
      assert s == t + [c] && '\"' !in t && c != '\"';
      NoQuoteIsClosed(t);
      ScanSnoc(t, c);
    }
  }

  /** The last directive of a value that does not close its quotes holds a quote. */
  lemma {:induction false} OpenHoldsQuote(a: string)
    requires !Closed(a)
    ensures '\"' in Scanned(a).cur && Scanned(a).lex.inQuotes
  {
    hide Scanned;
    EscapedIsQuoted(a);
    ScanIsWhole(a);
    if '\"' !in Scanned(a).cur {
      NoQuoteIsClosed(Scanned(a).cur);
    }
  }

  /** A restrictive value stays restrictive whatever is joined to it. */
  lemma {:induction false} StaysRestrictive(a: string, b: string)
    requires Restrictive(a)
    ensures Restrictive(a + "," + b)
  {
    hide Scanned, Name, Forbids;
    RestrictiveIs(a);
    RestrictiveIs(a + "," + b);
    var k :| 0 <= k < |Split(a)| && Forbids(Name(Split(a)[k]));
    if Closed(a) {
      SplitTwo(a, b);
      assert (Split(a) + Split(b))[k] == Split(a)[k];
    } else {
      ScanExtends(a, "," + b);
      assert a + ("," + b) == a + "," + b;
      var d, d' := Split(a)[k], Split(a + "," + b)[k];
      if k < |Scanned(a).out| {
        assert d == d';
      } else {
        OpenHoldsQuote(a);
        ForbiddingNamesArePlain(Name(d));
        assert '=' in d by { if '=' !in d { BareNameKeeps(d, '\"'); } }
        LongerSameName(d, d');
      }
    }
  }

  /** A line without quotes that follows an open quote only lengthens the last directive. */
  lemma {:induction false} Swallowed(a: string, b: string)
    requires !Closed(a) && '\"' !in b && '\\' !in b
    ensures var s := Scanned(a); var t := Scanned(a + b); t.out == s.out && t.cur == s.cur + b && t.lex.inQuotes
  {
    hide Scanned;
    if b == "" {
      assert a + b == a && Scanned(a).cur + b == Scanned(a).cur;
      EscapedIsQuoted(a);
    } else {
      var t, c := b[..|b| - 1], b[|b| - 1];
      assert b == t + [c] && '\"' !in t && '\\' !in t && c != '\"' && c != '\\';
      Swallowed(a, t);
      assert a + b == a + t + [c];
      ScanSnoc(a + t, c);
      assert Scanned(a).cur + b == Scanned(a).cur + t + [c];
    }
  }

  lemma {:induction false} SwallowedIsLost(a: string, b: string)
    requires !Closed(a) && !Restrictive(a) && '\"' !in b && '\\' !in b
    ensures !Restrictive(a + "," + b)
  {
    hide Scanned, Name, Forbids;
    RestrictiveIs(a);
    RestrictiveIs(a + "," + b);
    assert a + "," + b == a + ("," + b);
    Swallowed(a, "," + b);
    var cur, n := Scanned(a).cur, |Scanned(a).out|;
    var last := cur + ("," + b);
    forall k | 0 <= k < |Split(a + "," + b)| ensures !Forbids(Name(Split(a + "," + b)[k])) {
      if k < n {
        assert Split(a + "," + b)[k] == Split(a)[k];
      } else {
        assert Split(a + "," + b)[k] == last && Split(a)[n] == cur;
        if '=' in cur {
          LongerSameName(cur, last);
        } else {
          CommaInName(cur, b);
        }
      }
    }
  }

  lemma {:induction false} CommaInName(cur: string, b: string)
    requires '=' !in cur
    ensures !Forbids(Name(cur + ("," + b)))
  {
    hide Name, Forbids;
    var d := cur + ("," + b);
    var e := Before(d, '=');
    CutWhole(d, '=');
    assert d[|cur|] == ',';
    assert ',' in e by {
      if '=' in d {
        assert d == e + ['='] + After(d, '=') && d[|e|] == '=';
        assert |e| > |cur|;
        assert e[|cur|] == ',';
      }
    }
    NameOfCut(d);
    CutWhole(e, '=');
    BareNameKeeps(e, ',');
    if Forbids(Name(d)) {
      ForbiddingNamesArePlain(Name(d));
    }
  }

  lemma {:induction false} NameOfCut(d: string)
    ensures Name(Before(d, '=')) == Name(d)
  {
    CutWhole(d, '=');
    CutWhole(Before(d, '='), '=');
  }

  /**
   Exactly when later field lines are obeyed: every restrictive line joined to a value makes the whole restrictive if and
   only if the value closes its quotes or is restrictive already.
   */
  lemma {:induction false} LaterLinesObeyedIff(a: string)
    ensures (forall b :: Restrictive(b) ==> Restrictive(a + "," + b)) <==> Closed(a) || Restrictive(a)
  {
    hide Restrictive, Closed;
    if Restrictive(a) {
      forall b | Restrictive(b) ensures Restrictive(a + "," + b) {
        StaysRestrictive(a, b);
      }
    } else if Closed(a) {
      forall b | Restrictive(b) ensures Restrictive(a + "," + b) {
        JoinedIsRestrictive(a, b);
      }
    } else {
      var b := "no-store";
      BareNoStore(b);
      SwallowedIsLost(a, b);
    }
  }

  lemma {:induction false} JoinedIsRestrictive(a: string, b: string)
    requires Closed(a) && Restrictive(b)
    ensures Restrictive(a + "," + b)
  {
    hide Scanned, Name, Forbids;
    RestrictiveIs(b);
    RestrictiveIs(a + "," + b);
    SplitTwo(a, b);
    var k :| 0 <= k < |Split(b)| && Forbids(Name(Split(b)[k]));
    assert (Split(a) + Split(b))[|Split(a)| + k] == Split(b)[k];
  }

  /** Over any number of lines: a restrictive line whose predecessors, joined, close their quotes makes the whole restrictive. */
  lemma {:induction false} LinesObeyed(lines: seq<string>, i: nat)
    requires i < |lines| && Restrictive(lines[i]) && (i == 0 || Closed(Join(lines[..i])))
    ensures Restrictive(Join(lines))
  {
    hide Restrictive, Closed, JoinOn;
    var n := |lines| - 1;
    if i == n {
      if n == 0 {
        JoinOne(lines[0], ',');
        assert lines == [lines[0]];
      } else {
        JoinedIsRestrictive(Join(lines[..n]), lines[n]);
        JoinLast(lines);
      }
    } else {
      assert lines[..n][..i] == lines[..i];
      LinesObeyed(lines[..n], i);
      StaysRestrictive(Join(lines[..n]), lines[n]);
      JoinLast(lines);
    }
  }

  lemma {:induction false} JoinLast(lines: seq<string>)
    requires |lines| >= 2
    ensures Join(lines) == Join(lines[..|lines| - 1]) + "," + lines[|lines| - 1]
  {
  }

  /**
   A response judged cacheable is a 200 or 301 without Set-Cookie, and no line whose predecessors, joined, close their
   quotes holds no-store, no-cache or private; if the request was authorized, some directive allows sharing (section 3.5 of
   RFC 9111).
   */
  lemma {:induction false} CacheableIsPermitted(authorized: bool, status: int, h: Header)
    requires Cacheable(authorized, status, h).Some?
    ensures var lines := Values(h, "Cache-Control");
            && status in {200, 301} && !HasSetCookie(h) && |lines| >= 1 && !Restrictive(Join(lines))
            && (forall i :: 0 <= i < |lines| && (i == 0 || Closed(Join(lines[..i]))) ==> !Restrictive(lines[i]))
            && (authorized ==> Absorbed(Split(Join(lines))).hasSMaxAge
                               || Mentions(Split(Join(lines)), "public") || Mentions(Split(Join(lines)), "must-revalidate"))
  {
    hide Absorbed, HasSetCookie, Split, Mentions, Join, Closed;
    var lines := Values(h, "Cache-Control");
    FlagsAreMentions(Split(Join(lines)));
    assert !Restrictive(Join(lines));
    hide Restrictive;
    forall i | 0 <= i < |lines| && (i == 0 || Closed(Join(lines[..i]))) ensures !Restrictive(lines[i]) {
      if Restrictive(lines[i]) {
        LinesObeyed(lines, i);
      }
    }
  }

  /** Text that trimming and lower-casing leave as it is and that has no argument. */
  predicate Plain(n: string) {
    && n != "" && '=' !in n && !IsSpace(n[0]) && !IsSpace(n[|n| - 1])
    && forall i :: 0 <= i < |n| ==> Lower(n[i]) == n[i]
  }

  lemma {:induction false} PlainName(n: string, v: string)
    requires Plain(n)
    ensures Name(n + "=" + v) == n && Name(n) == n
  {
    hide IsSpace, Lower;
    CutJoined(n, v, '=');
    assert n + "=" + v == n + ['='] + v;
    assert TrimLeft(n, IsSpace) == n && TrimRight(n, IsSpace) == n;
    assert ToLower(n) == n;
  }

  lemma {:induction false} NoCommaSplit(s: string)
    requires ',' !in s
    ensures Split(s) == [s] && Scanned(s).out == [] && Scanned(s).cur == s
  {
    hide Scanned;
    if s == "" {
      ScanEmpty();
    } else {
      var t, c := s[..|s| - 1], s[|s| - 1];
      assert s == t + [c] && ',' !in t && c != ',';
      NoCommaSplit(t);
      ScanSnoc(t, c);
    }
  }

  lemma {:induction false} QuotedSplit(s: string)
    requires |s| >= 1 && s[0] == '\"' && '\"' !in s[1..] && '\\' !in s
    ensures Scanned(s) == Scan([], s, Lex(true, false))
  {
    var n := |s| - 1;
    if n == 0 {
      assert s[..0] == "";
    } else {
      assert s[..n][1..] == s[1..][..n - 1];
      QuotedSplit(s[..n]);
      assert s == s[..n] + [s[n]];
      assert s[n] == s[1..][n - 1];
    }
  }

  /** An instance: a no-store on the second line is swallowed and the response stored. */
  lemma {:induction false} UnclosedLineSwallows(h: Header)
    requires h == map["Cache-Control" := ["max-age=1,\"", "no-store"]]
    ensures Cacheable(false, 200, h) == Some(SECOND) && Restrictive(h["Cache-Control"][1])
  {
    hide Split, Absorbed, Name, Value, Cacheable;
    var a, b := "max-age=1", "\",no-store";
    var lines := h["Cache-Control"];
    SwallowedSplit(a, b, lines);
    SwallowedParse(a, b);
    NoCookie(h);
    hide HasSetCookie, Mentions, Join, Restrictive;
    StoreFromSplit(h, a, b);
    BareNoStore(lines[1]);
  }

  lemma {:induction false} BareNoStore(line: string)
    requires line == "no-store"
    ensures Restrictive(line)
  {
    hide Name, Scanned;
    PlainName(line, "");
    NoCommaSplit(line);
    assert Split(line)[0] == line;
  }

  lemma {:induction false} SwallowedSplit(a: string, b: string, lines: seq<string>)
    requires a == "max-age=1" && b == "\",no-store" && lines == ["max-age=1,\"", "no-store"]
    ensures Join(lines) == a + "," + b && Split(a + "," + b) == [a, b]
  {
    assert lines[..1] == ["max-age=1,\""];
    JoinOne(lines[0], ',');
    assert Join(lines) == JoinOn(lines[..1], ',') + [','] + lines[1];
    assert Join(lines) == "max-age=1,\"" + "," + "no-store";
    assert "max-age=1,\"" + "," + "no-store" == a + "," + b;
    hide Scanned;
    NoQuoteIsClosed(a);
    NoCommaSplit(a);
    QuotedSplit(b);
    SplitTwo(a, b);
  }

  lemma {:induction false} SwallowedParse(a: string, b: string)
    requires a == "max-age=1" && b == "\",no-store"
    ensures Absorbed([a, b]) == NOTHING.(maxAge := SECOND)
  {
    hide Name, Value;
    assert a == "max-age" + "=" + "1";
    PlainName("max-age", "1");
    PlainName(b, "");
    OneSecond(a);
    assert KindOf(b) == Other;
    assert [a, b][..1] == [a] && [a][..0] == [];
    assert Absorbed([a]) == Absorb(NOTHING, a);
  }

  lemma {:induction false} OneSecond(a: string)
    requires a == "max-age" + "=" + "1"
    ensures Value(a) == Some(1) && Seconds(1) == SECOND
  {
    hide Seconds;
    CutJoined("max-age", "1", '=');
    assert a == "max-age" + ['='] + "1";
    TrimOne("1");
    AtoiOne("1");
    SecondsExactIff(1);
  }

  lemma {:induction false} TrimOne(s: string)
    requires s == "1"
    ensures TrimSpace(s) == s && TrimQuotes(s) == s
  {
  }

  lemma {:induction false} AtoiOne(s: string)
    requires s == "1"
    ensures Atoi(s) == Some(1)
  {
    assert s[..0] == "" && AllDigits(s);
    assert Digits(s) == Digits(s[..0]) * 10 + (s[0] - '0') as int == 1;
  }

  lemma {:induction false} NoCookie(h: Header)
    requires h.Keys == {"Cache-Control"}
    ensures !HasSetCookie(h)
  {
    var name := "Cache-Control";
    assert !(TRAILER_PREFIX <= name) by { assert TRAILER_PREFIX[0] != name[0]; }
    assert StripTrailer(name) == name;
    assert |Canonical(name)| == |name| == 13 && |"Set-Cookie"| == 10;
  }

  lemma {:induction false} StoreFromSplit(h: Header, a: string, b: string)
    requires !HasSetCookie(h) && Values(h, "Cache-Control") != [] && Split(Join(Values(h, "Cache-Control"))) == [a, b]
    requires Absorbed([a, b]) == NOTHING.(maxAge := SECOND)
    ensures Cacheable(false, 200, h) == Some(SECOND)
  {
    hide HasSetCookie, Split, Absorbed, Join;
  }

  // ---------------------------------------------------------------- ParseVary

  function Items(lines: seq<string>): seq<string> {
    if lines == [] then [] else Items(lines[..|lines| - 1]) + SplitOn(lines[|lines| - 1], ',')
  }

  /** The names listed, in order, or None if some item is a star. */
  function VaryNames(items: seq<string>): Option<seq<string>> {
    if items == [] then Some([])
    else match VaryNames(items[..|items| - 1])
      case None => None
      case Some(names) =>
        var h := TrimSpace(items[|items| - 1]);
        if h == "" then Some(names) else if h == "*" then None else Some(names + [Canonical(h)])
  }

  lemma {:induction false} StarIsFinal(items: seq<string>, k: nat)
    requires k <= |items| && VaryNames(items[..k]).None?
    ensures VaryNames(items).None?
  {
    hide TrimSpace, Canonical;
    if k < |items| {
      assert items[..|items| - 1][..k] == items[..k];
      StarIsFinal(items[..|items| - 1], k);
    } else {
      assert items[..k] == items;
    }
  }

  lemma {:induction false} VarySnoc(items: seq<string>, x: string)
    requires VaryNames(items).Some?
    ensures var h := TrimSpace(x);
            VaryNames(items + [x])
            == if h == "" then VaryNames(items) else if h == "*" then None else Some(VaryNames(items).value + [Canonical(h)])
  {
    hide TrimSpace, Canonical;
    assert (items + [x])[..|items|] == items;
  }

  lemma {:induction false} NextItem(before: seq<string>, parts: seq<string>, j: nat)
    requires j < |parts| && VaryNames(before + parts[..j]).Some?
    ensures var h, names := TrimSpace(parts[j]), VaryNames(before + parts[..j]);
            VaryNames(before + parts[..j + 1])
            == if h == "" then names else if h == "*" then None else Some(names.value + [Canonical(h)])
    ensures VaryNames(before + parts[..j + 1]).None? ==> VaryNames(before + parts).None?
  {
    hide TrimSpace, Canonical, VaryNames;
    var upTo := before + parts[..j + 1];
    assert upTo == (before + parts[..j]) + [parts[j]];
    VarySnoc(before + parts[..j], parts[j]);
    assert (before + parts)[..|upTo|] == upTo;
    if VaryNames(upTo).None? {
      StarIsFinal(before + parts, |upTo|);
    }
  }

  /** The inner loop: one field line. */
  method AddLine(line: string, names: seq<string>, ghost before: seq<string>) returns (names': seq<string>, ok: bool)
    requires VaryNames(before) == Some(names)
    ensures VaryNames(before + SplitOn(line, ',')) == if ok then Some(names') else None
  {
    hide TrimSpace, Canonical, SplitOn, VaryNames;
    names', ok := names, true;
    var parts := SplitOn(line, ',');
    assert before + parts[..0] == before;
    for j := 0 to |parts|
      invariant VaryNames(before + parts[..j]) == Some(names') && ok
    {
      NextItem(before, parts, j);
      var name := TrimSpace(parts[j]);
      if name == "" {
        continue;
      }
      if name == "*" {
        return [], false;
      }
      names' := names' + [Canonical(name)];
    }
    assert parts[..|parts|] == parts;
  }

  /** Names as ParseVary leaves them. */
  predicate Simple(name: string) {
    name != "" && name != "*" && ',' !in name && TrimSpace(name) == name && Canonical(name) == name
  }

  ghost predicate AllSimple(names: seq<string>) {
    forall i :: 0 <= i < |names| ==> Simple(names[i])
  }

  function VaryOf(h: Header): Option<seq<string>> {
    VaryNames(Items(Values(h, "Vary")))
  }

  method ParseVary(h: Header) returns (names: seq<string>, ok: bool)
    ensures VaryOf(h) == if ok then Some(names) else None
  {
    hide VaryNames, SplitOn;
    names, ok := [], true;
    var lines := Values(h, "Vary");
    assert VaryNames(Items(lines[..0])) == Some([]) by { NoItems(); }
    for i := 0 to |lines|
      invariant VaryNames(Items(lines[..i])) == Some(names) && ok
    {
      assert lines[..i + 1][..i] == lines[..i];
      names, ok := AddLine(lines[i], names, Items(lines[..i]));
      if !ok {
        ItemsPrefix(lines, i + 1);
        StarIsFinal(Items(lines), |Items(lines[..i + 1])|);
        return;
      }
    }
    assert lines[..|lines|] == lines;
  }

  lemma {:induction false} NoItems()
    ensures VaryNames([]) == Some([])
  {
  }

  lemma {:induction false} ItemsPrefix(lines: seq<string>, k: nat)
    requires k <= |lines|
    ensures |Items(lines[..k])| <= |Items(lines)| && Items(lines)[..|Items(lines[..k])|] == Items(lines[..k])
  {
    hide SplitOn;
    var n := |lines|;
    if k < n {
      ItemsPrefix(lines[..n - 1], k);
      assert lines[..n - 1][..k] == lines[..k];
    } else {
      assert lines[..k] == lines;
    }
  }

  ghost predicate ListsName(items: seq<string>, n: string) {
    exists i :: 0 <= i < |items| && TrimSpace(items[i]) != "" && n == Canonical(TrimSpace(items[i]))
  }

  lemma {:induction false} ListsSnoc(items: seq<string>, n: string)
    requires items != []
    ensures var init, h := items[..|items| - 1], TrimSpace(items[|items| - 1]);
            ListsName(items, n) <==> ListsName(init, n) || (h != "" && n == Canonical(h))
  {
    hide TrimSpace, Canonical;
    var init := items[..|items| - 1];
    if ListsName(init, n) {
      var i :| 0 <= i < |init| && TrimSpace(init[i]) != "" && n == Canonical(TrimSpace(init[i]));
      assert items[i] == init[i];
    }
  }

  /**
   Vary is usable iff no item on any line is a star, and then names exactly the non-empty items, in the canonical form that
   headers are kept under.
   */
  lemma {:induction false} VaryUsableIff(items: seq<string>)
    ensures VaryNames(items).Some? <==> forall i :: 0 <= i < |items| ==> TrimSpace(items[i]) != "*"
    ensures VaryNames(items).Some? ==> forall n :: n in VaryNames(items).value <==> ListsName(items, n)
    ensures VaryNames(items).Some? ==> forall n :: n in VaryNames(items).value ==> Canonical(n) == n
  {
    hide TrimSpace, Canonical;
    if items == [] {
    } else {
      VaryUsableIff(items[..|items| - 1]);
      if VaryNames(items).Some? {
        hide ListsName;
        forall n ensures n in VaryNames(items).value <==> ListsName(items, n) {
          ListsSnoc(items, n);
        }
        CanonicalTwice(TrimSpace(items[|items| - 1]));
      }
    }
  }
}
