/**
 Under which key the limits of the external service are cached (internal/ratelimit/external.go): method, path and the
 request headers that do not differ from one request to the next, in sorted order.  Nothing is escaped.
 */
module LookupKey {
  import opened Text
  import opened CacheControl
  import opened FieldText

  datatype Query = Query(verb: string, path: string, headers: map<string, string>)

  /** The headers that take part: those whose lower-cased name is not excluded. */
  function Kept(q: Query, exclude: set<string>): set<string> {
    set k | k in q.headers && ToLower(k) !in exclude
  }

  function Value(q: Query, name: string): string {
    if name in q.headers then q.headers[name] else ""
  }

  function KeyWith(q: Query, names: seq<string>): string {
    if names == [] then q.verb + "|" + q.path
    else
      var n := names[|names| - 1];
      KeyWith(q, names[..|names| - 1]) + "|" + (n + "=" + Value(q, n))
  }

  ghost predicate Lists(names: seq<string>, all: set<string>) {
    Ascending(names) && multiset(names) == multiset(all)
  }

  lemma {:induction false} ListExists(all: set<string>) returns (names: seq<string>)
    ensures Lists(names, all)
    decreases |all|
  {
    if all == {} {
      names := [];
    } else {
      var x :| x in all;
      var rest := ListExists(all - {x});
      InsertAscends(x, rest);
      InsertKeepsAll(x, rest);
      assert multiset(all) == multiset{x} + multiset(all - {x});
      names := Insert(x, rest);
    }
  }

  /** Whatever order the map is walked in, sorting gives one list. */
  ghost function Names(all: set<string>): (names: seq<string>)
    ensures Lists(names, all)
  {
    assert exists names :: Lists(names, all) by { var names := ListExists(all); }
    var names :| Lists(names, all);
    names
  }

  ghost function Key(q: Query, exclude: set<string>): string {
    KeyWith(q, Names(Kept(q, exclude)))
  }

  method ComputeKey(q: Query, exclude: set<string>) returns (key: string)
    ensures key == Key(q, exclude)
  {
    hide Lists, Sort, ToLower;
    key := q.verb + "|" + q.path;
    var keys := KeptNames(q, exclude);
    var sorted := Sort(keys);
    assert sorted == Names(Kept(q, exclude)) by { SortedIs(keys, Kept(q, exclude)); }
    for i := 0 to |sorted|
      invariant key == KeyWith(q, sorted[..i])
    {
      NextName(q, sorted, i);
      key := key + "|" + sorted[i] + "=" + Value(q, sorted[i]);
    }
    assert sorted[..|sorted|] == sorted;
  }

  /** The first loop: the map is walked in any order. */
  method KeptNames(q: Query, exclude: set<string>) returns (keys: seq<string>)
    ensures multiset(keys) == multiset(Kept(q, exclude))
  {
    hide ToLower;
    keys := [];
    var left := q.headers.Keys;
    while left != {}
      invariant left <= q.headers.Keys
      invariant multiset(keys) == multiset(Kept(q, exclude) - left)
      decreases |left|
    {
      var k :| k in left;
      left := left - {k};
      if ToLower(k) in exclude {
        assert Kept(q, exclude) - left == Kept(q, exclude) - (left + {k});
        continue;
      }
      assert Kept(q, exclude) - left == Kept(q, exclude) - (left + {k}) + {k};
      keys := keys + [k];
    }
    assert Kept(q, exclude) - left == Kept(q, exclude);
  }

  lemma {:induction false} SortedIs(keys: seq<string>, all: set<string>)
    requires multiset(keys) == multiset(all)
    ensures Sort(keys) == Names(all)
  {
    SortSorts(keys);
    SameAscending(Sort(keys), Names(all));
  }

  lemma {:induction false} NextName(q: Query, names: seq<string>, i: nat)
    requires i < |names|
    ensures KeyWith(q, names[..i + 1]) == KeyWith(q, names[..i]) + "|" + names[i] + "=" + Value(q, names[i])
  {
    hide Value;
    assert names[..i + 1][..i] == names[..i];
    var k := KeyWith(q, names[..i]) + "|";
    assert k + (names[i] + "=" + Value(q, names[i])) == k + names[i] + "=" + Value(q, names[i]);
  }

  // ---------------------------------------------------------------- what a key identifies

  ghost predicate SameKept(q: Query, r: Query, exclude: set<string>) {
    && q.verb == r.verb && q.path == r.path && Kept(q, exclude) == Kept(r, exclude)
    && forall k :: k in Kept(q, exclude) ==> q.headers[k] == r.headers[k]
  }

  /** A header takes part unless its name, in some case, is one of the excluded names. */
  lemma {:induction false} KeptIff(q: Query, exclude: set<string>, k: string)
    ensures k in Kept(q, exclude) <==> k in q.headers && forall x :: x in exclude && Lowered(x) ==> !Spelling(k, x)
  {
    hide ToLower, Spelling, Lowered;
    ToLowerIsLowered(k);
    forall x | Lowered(x) ensures ToLower(k) == x <==> Spelling(k, x) {
      LowerIff(k, x);
    }
  }

  predicate CleanHeader(name: string, value: string) {
    '|' !in name && '=' !in name && '|' !in value
  }

  /** No pipe in method, path or any header that takes part, and no equals sign in such a header's name. */
  ghost predicate Clean(q: Query, exclude: set<string>) {
    '|' !in q.verb && '|' !in q.path && forall k :: k in Kept(q, exclude) ==> CleanHeader(k, q.headers[k])
  }

  ghost predicate CleanList(q: Query, names: seq<string>) {
    forall i :: 0 <= i < |names| ==> names[i] in q.headers && CleanHeader(names[i], q.headers[names[i]])
  }

  lemma {:induction false} Listed(q: Query, exclude: set<string>)
    ensures forall n :: n in Names(Kept(q, exclude)) <==> n in Kept(q, exclude)
    ensures Clean(q, exclude) ==> CleanList(q, Names(Kept(q, exclude)))
  {
    hide ToLower, CleanHeader;
    var names := Names(Kept(q, exclude));
    forall n ensures n in names <==> n in Kept(q, exclude) {
      assert n in names <==> n in multiset(names);
    }
    if Clean(q, exclude) {
      forall i | 0 <= i < |names| ensures names[i] in q.headers && CleanHeader(names[i], q.headers[names[i]]) {
        assert names[i] in Kept(q, exclude);
      }
    }
  }

  lemma {:induction false} PipesCount(q: Query, names: seq<string>)
    requires '|' !in q.verb && '|' !in q.path && CleanList(q, names)
    ensures CountOf(KeyWith(q, names), '|') == 1 + |names|
  {
    hide CountOf;
    if names == [] {
      OnePipe(q.verb, q.path);
    } else {
      var n := names[|names| - 1];
      PipesCount(q, names[..|names| - 1]);
      assert '|' !in n + "=" + Value(q, n);
      OnePipe(KeyWith(q, names[..|names| - 1]), n + "=" + Value(q, n));
    }
  }

  lemma {:induction false} OnePipe(a: string, b: string)
    requires '|' !in b
    ensures CountOf(a + "|" + b, '|') == CountOf(a, '|') + 1
    ensures '|' !in a ==> CountOf(a, '|') == 0
  {
    CountAppend(a + "|", b, '|');
    CountAppend(a, "|", '|');
    CountNone(a, '|');
    CountNone(b, '|');
    assert "|"[..0] == "";
  }

  lemma {:induction false} KeyWithInjective(q: Query, names: seq<string>, r: Query, names': seq<string>)
    requires '|' !in q.verb && '|' !in q.path && '|' !in r.verb && '|' !in r.path
    requires CleanList(q, names) && CleanList(r, names') && |names| == |names'| && KeyWith(q, names) == KeyWith(r, names')
    ensures q.verb == r.verb && q.path == r.path && names == names'
    ensures forall i :: 0 <= i < |names| ==> Value(q, names[i]) == Value(r, names[i])
  {
    if names == [] {
      FirstCut(q.verb, q.path, r.verb, r.path, '|');
    } else {
      var n := |names| - 1;
      var h, h' := names[n], names'[n];
      var p, p' := h + "=" + Value(q, h), h' + "=" + Value(r, h');
      LastCut(KeyWith(q, names[..n]), p, KeyWith(r, names'[..n]), p', '|');
      FirstCut(h, Value(q, h), h', Value(r, h'), '=');
      KeyWithInjective(q, names[..n], r, names'[..n]);
      assert names == names[..n] + [h] && names' == names'[..n] + [h'];
      forall i | 0 <= i < |names| ensures Value(q, names[i]) == Value(r, names[i]) {
        assert i < n ==> names[i] == names[..n][i];
      }
    }
  }

  lemma {:induction false} KeyWithSame(q: Query, r: Query, names: seq<string>)
    requires q.verb == r.verb && q.path == r.path
    requires forall i :: 0 <= i < |names| ==> Value(q, names[i]) == Value(r, names[i])
    ensures KeyWith(q, names) == KeyWith(r, names)
  {
    hide Value;
    if names == [] {
    } else {
      var n := |names| - 1;
      forall i | 0 <= i < n ensures Value(q, names[..n][i]) == Value(r, names[..n][i]) {
        assert names[..n][i] == names[i];
      }
      KeyWithSame(q, r, names[..n]);
    }
  }

  lemma {:induction false} KeptValues(q: Query, exclude: set<string>)
    ensures forall k :: k in Kept(q, exclude) ==> k in q.headers && Value(q, k) == q.headers[k]
  {
    hide ToLower;
  }

  /** Requests that differ only in excluded headers share a key, whatever characters they hold. */
  lemma {:induction false} ExcludedDoNotCount(q: Query, r: Query, exclude: set<string>)
    requires SameKept(q, r, exclude)
    ensures Key(q, exclude) == Key(r, exclude)
  {
    hide ToLower, Value, Kept, KeyWith;
    var names := Names(Kept(q, exclude));
    Listed(q, exclude);
    KeptValues(q, exclude);
    KeptValues(r, exclude);
    KeyWithSame(q, r, names);
  }

  /** Among clean requests a key identifies the method, the path and every header that takes part. */
  lemma {:induction false} KeyIdentifies(q: Query, r: Query, exclude: set<string>)
    requires Clean(q, exclude) && Clean(r, exclude)
    ensures Key(q, exclude) == Key(r, exclude) <==> SameKept(q, r, exclude)
  {
    hide ToLower, Value, KeyWith, Lists, CleanHeader;
    Listed(q, exclude);
    Listed(r, exclude);
    KeptValues(q, exclude);
    KeptValues(r, exclude);
    hide Kept;
    var names, names' := Names(Kept(q, exclude)), Names(Kept(r, exclude));
    if Key(q, exclude) == Key(r, exclude) {
      PipesCount(q, names);
      PipesCount(r, names');
      KeyWithInjective(q, names, r, names');
      assert Kept(q, exclude) == Kept(r, exclude);
      forall k | k in Kept(q, exclude) ensures q.headers[k] == r.headers[k] {
        assert k in names && Value(q, k) == Value(r, k);
      }
    }
    if SameKept(q, r, exclude) {
      ExcludedDoNotCount(q, r, exclude);
    }
  }

  // ---------------------------------------------------------------- what the demand on the delimiters shuts out

  /** A header name as the server leaves it, without the delimiters of keys. */
  predicate HeaderName(n: string) {
    n != "" && '|' !in n && '=' !in n && (forall i :: 0 <= i < |n| ==> IsToken(n[i])) && Canonical(n) == n
  }

  /** A method without pipe, a decoded path that starts with a slash, and such names; path and values may hold anything else. */
  ghost predicate Made(q: Query, exclude: set<string>) {
    '|' !in q.verb && q.path != "" && q.path[0] == '/' && forall k :: k in Kept(q, exclude) ==> HeaderName(k)
  }

  ghost predicate Collides(r: Query, q: Query, exclude: set<string>) {
    Made(r, exclude) && Key(r, exclude) == Key(q, exclude) && !SameKept(r, q, exclude)
  }

  /** The path holds a pipe, the name of a header that takes part, and an equals sign. */
  predicate ReadsAsHeader(path: string, exclude: set<string>, i: nat, j: nat) {
    && 0 < i < j < |path| && path[i] == '|' && path[j] == '='
    && HeaderName(path[i + 1..j]) && ToLower(path[i + 1..j]) !in exclude
  }

  ghost predicate Ambiguous(q: Query, exclude: set<string>) {
    Kept(q, exclude) != {} || exists i: nat, j: nat :: ReadsAsHeader(q.path, exclude, i, j)
  }

  /** What follows the path in a key. */
  function Tail(q: Query, names: seq<string>): string {
    if names == [] then "" else Tail(q, names[..|names| - 1]) + "|" + (names[|names| - 1] + "=" + Value(q, names[|names| - 1]))
  }

  lemma {:induction false} KeyHasTail(q: Query, names: seq<string>)
    ensures KeyWith(q, names) == q.verb + ['|'] + (q.path + Tail(q, names))
  {
    hide Value;
    if names == [] {
      assert q.path + "" == q.path;
    } else {
      var k := |names| - 1;
      KeyHasTail(q, names[..k]);
      var t, p := Tail(q, names[..k]), names[k] + "=" + Value(q, names[k]);
      assert q.verb + ['|'] + (q.path + t) + "|" + p == q.verb + ['|'] + (q.path + (t + "|" + p));
    }
  }

  lemma {:induction false} TailFront(q: Query, n: string, names: seq<string>)
    ensures Tail(q, [n] + names) == "|" + (n + "=" + Value(q, n)) + Tail(q, names)
  {
    hide Value;
    if names == [] {
      assert [n] + names == [n] && [n][..0] == [];
      assert Tail(q, [n]) == "" + "|" + (n + "=" + Value(q, n));
    } else {
      var k := |names| - 1;
      assert ([n] + names)[..k + 1] == [n] + names[..k];
      TailFront(q, n, names[..k]);
    }
  }

  lemma {:induction false} NoNames(q: Query, exclude: set<string>)
    ensures Names(Kept(q, exclude)) == [] <==> Kept(q, exclude) == {}
    ensures forall n :: n in Names(Kept(q, exclude)) <==> n in Kept(q, exclude)
  {
    hide Kept;
    var all := Kept(q, exclude);
    forall n ensures n in Names(all) <==> n in all {
      assert n in Names(all) <==> n in multiset(Names(all));
    }
    assert |multiset(Names(all))| == |Names(all)| && |multiset(all)| == |all|;
  }

  /** The path that holds all headers as well: the same key, and no headers. */
  lemma {:induction false} WholeInPath(q: Query, exclude: set<string>) returns (r: Query)
    requires Made(q, exclude) && Kept(q, exclude) != {}
    ensures Collides(r, q, exclude)
  {
    hide ToLower, Tail, KeyWith, HeaderName, Value;
    var names := Names(Kept(q, exclude));
    r := Query(q.verb, q.path + Tail(q, names), map[]);
    assert Kept(r, exclude) == {};
    NoNames(r, exclude);
    NoNames(q, exclude);
    KeyHasTail(q, names);
    KeyHasTail(r, []);
    NoTail(r);
    assert r.path + "" == r.path;
  }

  lemma {:induction false} NoTail(q: Query)
    ensures Tail(q, []) == ""
  {
  }

  /** A header taken out of the path. */
  lemma {:induction false} OutOfPath(q: Query, exclude: set<string>, i: nat, j: nat) returns (r: Query)
    requires Made(q, exclude) && Kept(q, exclude) == {} && ReadsAsHeader(q.path, exclude, i, j)
    ensures Collides(r, q, exclude)
  {
    hide ToLower, KeyWith, HeaderName, Tail;
    var n, v := q.path[i + 1..j], q.path[j + 1..];
    r := Query(q.verb, q.path[..i], map[n := v]);
    assert Kept(r, exclude) == {n};
    SameAscending(Names({n}), [n]);
    NoNames(q, exclude);
    KeyHasTail(r, [n]);
    KeyHasTail(q, []);
    assert [n] + [] == [n];
    TailFront(r, n, []);
    NoTail(r);
    NoTail(q);
    assert q.path == q.path[..i] + ("|" + (n + "=" + v) + "");
    assert q.path + "" == q.path;
  }

  lemma {:induction false} EqualKeys(r: Query, q: Query, exclude: set<string>)
    requires '|' !in q.verb && '|' !in r.verb && Key(r, exclude) == Key(q, exclude)
    ensures r.verb == q.verb
    ensures r.path + Tail(r, Names(Kept(r, exclude))) == q.path + Tail(q, Names(Kept(q, exclude)))
  {
    hide Tail, Kept, KeyWith;
    var a, b := Names(Kept(r, exclude)), Names(Kept(q, exclude));
    KeyHasTail(r, a);
    KeyHasTail(q, b);
    FirstCut(r.verb, r.path + Tail(r, a), q.verb, q.path + Tail(q, b), '|');
  }

  lemma {:induction false} PathReads(r: Query, q: Query, exclude: set<string>)
    requires Made(q, exclude) && Kept(q, exclude) == {} && Collides(r, q, exclude)
    ensures exists i: nat, j: nat :: ReadsAsHeader(q.path, exclude, i, j)
  {
    hide ToLower, Tail, KeyWith, HeaderName;
    EqualKeys(r, q, exclude);
    NoNames(q, exclude);
    NoNames(r, exclude);
    NoTail(q);
    NoTail(r);
    assert q.path + "" == q.path && r.path + "" == r.path;
    var names := Names(Kept(r, exclude));
    assert names != [];
    var n := names[0];
    assert n in Kept(r, exclude);
    assert names == [n] + names[1..];
    TailFront(r, n, names[1..]);
    PairAt(r.path, n, Value(r, n), Tail(r, names[1..]));
    assert ReadsAsHeader(q.path, exclude, |r.path|, |r.path| + 1 + |n|);
  }

  lemma {:induction false} PairAt(x: string, n: string, v: string, t: string)
    ensures var s := x + ("|" + (n + "=" + v) + t);
            var i, j := |x|, |x| + 1 + |n|;
            j < |s| && s[i] == '|' && s[i + 1..j] == n && s[j] == '='
  {
    var s := x + ("|" + (n + "=" + v) + t);
    assert s == x + "|" + n + "=" + (v + t);
  }

  /**
   For every request: some other content has the same lookup key if and only if some header takes part, or the path holds
   the pair of one.
   */
  lemma {:induction false} KeyCollides(q: Query, exclude: set<string>)
    requires Made(q, exclude)
    ensures (exists r: Query :: Collides(r, q, exclude)) <==> Ambiguous(q, exclude)
  {
    hide Key, SameKept, ReadsAsHeader, Made;
    if r: Query :| Collides(r, q, exclude) {
      if Kept(q, exclude) == {} {
        PathReads(r, q, exclude);
      }
    }
    if Kept(q, exclude) != {} {
      var r := WholeInPath(q, exclude);
    } else if i: nat, j: nat :| ReadsAsHeader(q.path, exclude, i, j) {
      var r := OutOfPath(q, exclude, i, j);
    }
  }

  /** An instance: a value that holds a pair reads as two headers. */
  lemma {:induction false} DelimitersCollide(verb: string, path: string, a: string, v: string, b: string, w: string)
    requires StringLe(a, b) && a != b
    ensures var q, r := Query(verb, path, map[a := v + "|" + b + "=" + w]), Query(verb, path, map[a := v, b := w]);
            Key(q, {}) == Key(r, {}) && !SameKept(q, r, {})
  {
    hide ToLower, StringLe, KeyWith;
    var q, r := Query(verb, path, map[a := v + "|" + b + "=" + w]), Query(verb, path, map[a := v, b := w]);
    assert Kept(q, {}) == {a} && Kept(r, {}) == {a, b};
    SameAscending(Names({a}), [a]);
    assert multiset({a, b}) == multiset([a, b]);
    SameAscending(Names({a, b}), [a, b]);
    NextName(q, [a], 0);
    NextName(r, [a, b], 0);
    NextName(r, [a, b], 1);
    assert [a][..1] == [a] && [a, b][..1] == [a] && [a, b][..2] == [a, b] && [a][..0] == [a, b][..0] == [];
    Bare(q);
    Bare(r);
    var k := verb + "|" + path;
    assert k + "|" + a + "=" + (v + "|" + b + "=" + w) == k + "|" + a + "=" + v + "|" + b + "=" + w;
  }

  lemma {:induction false} Bare(q: Query)
    ensures KeyWith(q, []) == q.verb + "|" + q.path
  {
  }

  // ---------------------------------------------------------------- Redis keys

  function FreshKey(key: string): string {
    "rl:extcache:" + key
  }

  function StaleKey(key: string): string {
    "rl:extcache:stale:" + key
  }

  /** A stale key is never a fresh key, because a method has no colon: no lookup key starts with `stale:`. */
  lemma {:induction false} KeySpacesApart(q: Query, exclude: set<string>, key: string)
    requires ':' !in q.verb
    ensures FreshKey(Key(q, exclude)) != StaleKey(key)
  {
    hide KeyWith, FreshKey, StaleKey, Names;
    StartsWithVerb(q, Names(Kept(q, exclude)));
    TailOf(Key(q, exclude), key);
    var stale := "stale:" + key;
    assert stale[5] == ':' && forall i :: 0 <= i <= 5 ==> stale[i] != '|';
  }

  lemma {:induction false} TailOf(k: string, key: string)
    ensures FreshKey(k) == StaleKey(key) ==> k == "stale:" + key
  {
    assert FreshKey(k)[12..] == k;
    assert StaleKey(key)[12..] == "stale:" + key;
  }

  lemma {:induction false} RedisKeysInjective(k: string, k': string)
    ensures FreshKey(k) == FreshKey(k') ==> k == k'
    ensures StaleKey(k) == StaleKey(k') ==> k == k'
  {
    assert FreshKey(k)[12..] == k && FreshKey(k')[12..] == k';
    assert StaleKey(k)[18..] == k && StaleKey(k')[18..] == k';
  }

  lemma {:induction false} StartsWithVerb(q: Query, names: seq<string>)
    ensures var k := KeyWith(q, names); |k| > |q.verb| && k[..|q.verb|] == q.verb && k[|q.verb|] == '|'
  {
    if names == [] {
    } else {
      StartsWithVerb(q, names[..|names| - 1]);
    }
  }
}
