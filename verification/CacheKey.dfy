/**
 Keys of the response cache (internal/cache/cache.go): method|path?query, and for a Vary'd response a
 |name=value pair for each listed header, in sorted order.  Nothing is escaped.
 */
module CacheKey {
  import opened Text

  /**
   `path` is the escaped path and `query` the raw query; headers are kept under canonical names, with all the
   values of each.
   */
  datatype Request = Request(verb: string, path: string, query: string, headers: map<string, seq<string>>)

  /** The first value of a header, or the empty string (http.Header.Get). */
  function Get(r: Request, name: string): string {
    var h := Canonical(name);
    if h in r.headers && |r.headers[h]| > 0 then r.headers[h][0] else ""
  }

  function BaseKey(r: Request): string {
    r.verb + "|" + r.path + (if r.query != "" then "?" + r.query else "")
  }

  function Pair(r: Request, name: string): string {
    name + "=" + Get(r, name)
  }

  /** The base key followed by the pairs for `names`, in the order given. */
  function KeyOver(r: Request, names: seq<string>): string {
    if names == [] then BaseKey(r)
    else KeyOver(r, names[..|names| - 1]) + "|" + Pair(r, names[|names| - 1])
  }

  function Key(r: Request, vary: seq<string>): string {
    KeyOver(r, Sort(vary))
  }

  method KeyFromRequest(r: Request, vary: seq<string>) returns (key: string)
    ensures key == Key(r, vary)
  {
    hide Get, Sort;
    key := r.verb + "|" + r.path;
    if r.query != "" {
      key := key + "?" + r.query;
    }
    assert key == BaseKey(r);
    hide BaseKey;
    SortSorts(vary);
    if |vary| == 0 {
      return;
    }
    var sorted := Sort(vary);
    for i := 0 to |sorted|
      invariant key == KeyOver(r, sorted[..i])
    {
      NextPair(r, sorted, i);
      key := key + "|" + sorted[i] + "=" + Get(r, sorted[i]);
    }
    assert sorted[..|sorted|] == sorted;
  }

  lemma {:induction false} NextPair(r: Request, names: seq<string>, i: nat)
    requires i < |names|
    ensures KeyOver(r, names[..i + 1]) == KeyOver(r, names[..i]) + "|" + names[i] + "=" + Get(r, names[i])
  {
    hide Get, BaseKey;
    assert names[..i + 1][..i] == names[..i];
    var k := KeyOver(r, names[..i]) + "|";
    assert k + Pair(r, names[i]) == k + names[i] + "=" + Get(r, names[i]);
  }

  // ---------------------------------------------------------------- injectivity

  /** True of every cached request: the method is GET, and an escaped path has no question mark. */
  predicate Parsed(r: Request) {
    '|' !in r.verb && '?' !in r.path
  }

  /** What the method and the escaped path of any request satisfy, and the one demand on the query: no pipe. */
  predicate CleanTarget(r: Request) {
    '|' !in r.verb && '|' !in r.path && '?' !in r.path && '|' !in r.query
  }

  predicate CleanName(name: string) {
    '|' !in name && '=' !in name
  }

  ghost predicate CleanNames(names: seq<string>) {
    forall i :: 0 <= i < |names| ==> CleanName(names[i])
  }

  /** The values that the request has for the named headers contain no pipe. */
  ghost predicate CleanValues(r: Request, names: seq<string>) {
    forall i :: 0 <= i < |names| ==> '|' !in Get(r, names[i])
  }

  predicate SameTarget(r: Request, q: Request) {
    r.verb == q.verb && r.path == q.path && r.query == q.query
  }

  ghost predicate Agree(r: Request, q: Request, names: seq<string>) {
    forall i :: 0 <= i < |names| ==> Get(r, names[i]) == Get(q, names[i])
  }

  /** The value that counts: the first of the header's, or the empty string if it has none. */
  ghost predicate FirstIs(headers: map<string, seq<string>>, name: string, v: string) {
    if name in headers && headers[name] != [] then exists rest :: headers[name] == [v] + rest else v == ""
  }

  lemma {:induction false} GetIsFirst(r: Request, name: string, v: string)
    requires Canonical(name) == name
    ensures Get(r, name) == v <==> FirstIs(r.headers, name, v)
  {
    hide Canonical;
    if name in r.headers && r.headers[name] != [] {
      assert r.headers[name] == [r.headers[name][0]] + r.headers[name][1..];
    }
  }

  ghost predicate SameFirst(r: Request, q: Request, name: string) {
    exists v :: FirstIs(r.headers, name, v) && FirstIs(q.headers, name, v)
  }

  lemma {:induction false} SameFirstIff(r: Request, q: Request, name: string)
    requires Canonical(name) == name
    ensures Get(r, name) == Get(q, name) <==> SameFirst(r, q, name)
  {
    hide Canonical, Get, FirstIs;
    GetIsFirst(r, name, Get(r, name));
    GetIsFirst(q, name, Get(r, name));
    if v :| FirstIs(r.headers, name, v) && FirstIs(q.headers, name, v) {
      GetIsFirst(r, name, v);
      GetIsFirst(q, name, v);
    }
  }

  /** Two requests agree on canonical names exactly if the first values of each do. */
  lemma {:induction false} AgreeIff(r: Request, q: Request, names: seq<string>)
    requires forall i :: 0 <= i < |names| ==> Canonical(names[i]) == names[i]
    ensures Agree(r, q, names) <==> forall i :: 0 <= i < |names| ==> SameFirst(r, q, names[i])
  {
    hide Canonical, Get, SameFirst;
    forall i | 0 <= i < |names| ensures Get(r, names[i]) == Get(q, names[i]) <==> SameFirst(r, q, names[i]) {
      SameFirstIff(r, q, names[i]);
    }
  }

  function Rest(r: Request): string {
    r.path + (if r.query != "" then "?" + r.query else "")
  }

  lemma {:induction false} BaseKeyInjective(r: Request, q: Request)
    requires Parsed(r) && Parsed(q) && BaseKey(r) == BaseKey(q)
    ensures SameTarget(r, q)
  {
    assert BaseKey(r) == r.verb + ['|'] + Rest(r) && BaseKey(q) == q.verb + ['|'] + Rest(q);
    FirstCut(r.verb, Rest(r), q.verb, Rest(q), '|');
    RestInjective(r, q);
  }

  lemma {:induction false} RestHasMark(r: Request)
    requires '?' !in r.path
    ensures '?' in Rest(r) <==> r.query != ""
    ensures Rest(r) == if r.query != "" then r.path + ['?'] + r.query else r.path
  {
    if r.query != "" {
      assert (r.path + ['?'] + r.query)[|r.path|] == '?';
      assert Rest(r) == r.path + ['?'] + r.query;
    }
  }

  lemma {:induction false} RestInjective(r: Request, q: Request)
    requires '?' !in r.path && '?' !in q.path && Rest(r) == Rest(q)
    ensures r.path == q.path && r.query == q.query
  {
    RestHasMark(r);
    RestHasMark(q);
    if r.query != "" {
      FirstCut(r.path, r.query, q.path, q.query, '?');
    }
  }

  /** One pipe after the method and one before each pair: pipes count the names. */
  lemma {:induction false} PipesCountNames(r: Request, names: seq<string>)
    requires CleanTarget(r) && CleanNames(names) && CleanValues(r, names)
    ensures CountOf(KeyOver(r, names), '|') == 1 + |names|
  {
    if names == [] {
      CountAppend(r.verb + "|" + r.path, if r.query != "" then "?" + r.query else "", '|');
      CountAppend(r.verb + "|", r.path, '|');
      CountAppend(r.verb, "|", '|');
      CountNone(r.verb, '|');
      CountNone(r.path, '|');
      CountNone(if r.query != "" then "?" + r.query else "", '|');
      PipeIsOne();
    } else {
      var n := |names| - 1;
      PipesCountNames(r, names[..n]);
      CountAppend(KeyOver(r, names[..n]) + "|", Pair(r, names[n]), '|');
      CountAppend(KeyOver(r, names[..n]), "|", '|');
      CountNone(Pair(r, names[n]), '|');
      PipeIsOne();
    }
  }

  lemma {:induction false} PipeIsOne()
    ensures CountOf("|", '|') == 1
  {
    assert "|"[..0] == "";
  }

  lemma {:induction false} KeyOverInjective(r: Request, names: seq<string>, q: Request, names': seq<string>)
    requires CleanTarget(r) && CleanNames(names) && CleanValues(r, names)
    requires CleanTarget(q) && CleanNames(names') && CleanValues(q, names')
    requires |names| == |names'| && KeyOver(r, names) == KeyOver(q, names')
    ensures SameTarget(r, q) && names == names' && Agree(r, q, names)
  {
    hide BaseKey, Get;
    if names == [] {
      BaseKeyInjective(r, q);
    } else {
      var n := |names| - 1;
      var h, h' := names[n], names'[n];
      LastCut(KeyOver(r, names[..n]), Pair(r, h), KeyOver(q, names'[..n]), Pair(q, h'), '|');
      FirstCut(h, Get(r, h), h', Get(q, h'), '=');
      KeyOverInjective(r, names[..n], q, names'[..n]);
      assert names == names[..n] + [h] && names' == names'[..n] + [h'];
      AgreeAppend(r, q, names[..n], h);
    }
  }

  lemma {:induction false} AgreeAppend(r: Request, q: Request, names: seq<string>, h: string)
    requires Agree(r, q, names) && Get(r, h) == Get(q, h)
    ensures Agree(r, q, names + [h])
  {
    hide Get;
  }

  /**
   Equal keys mean the same method, path and query, Vary lists with the same content, and agreement on the first
   value of every listed header; and conversely.
   */
  lemma {:induction false} KeyInjective(r: Request, vary: seq<string>, q: Request, vary': seq<string>)
    requires CleanTarget(r) && CleanNames(vary) && CleanValues(r, vary)
    requires CleanTarget(q) && CleanNames(vary') && CleanValues(q, vary')
    ensures Key(r, vary) == Key(q, vary')
            <==> SameTarget(r, q) && multiset(vary) == multiset(vary') && Agree(r, q, vary')
  {
    hide KeyOver, Get;
    SortSorts(vary);
    SortSorts(vary');
    SortedMembers(vary);
    SortedMembers(vary');
    if Key(r, vary) == Key(q, vary') {
      PipesCountNames(r, Sort(vary));
      PipesCountNames(q, Sort(vary'));
      KeyOverInjective(r, Sort(vary), q, Sort(vary'));
      SortedCovers(vary');
    }
    if SameTarget(r, q) && multiset(vary) == multiset(vary') && Agree(r, q, vary') {
      SortOfPermutation(vary, vary');
      SameKey(r, q, Sort(vary'));
    }
  }

  lemma {:induction false} SortedMembers(vary: seq<string>)
    ensures forall i :: 0 <= i < |Sort(vary)| ==> Sort(vary)[i] in vary
  {
    SortSorts(vary);
    forall i | 0 <= i < |Sort(vary)|
      ensures Sort(vary)[i] in vary
    {
      assert Sort(vary)[i] in multiset(Sort(vary));
    }
  }

  lemma {:induction false} SortedCovers(vary: seq<string>)
    ensures forall i :: 0 <= i < |vary| ==> vary[i] in Sort(vary)
  {
    SortSorts(vary);
    forall i | 0 <= i < |vary|
      ensures vary[i] in Sort(vary)
    {
      assert vary[i] in multiset(vary);
    }
  }

  lemma {:induction false} SameKey(r: Request, q: Request, names: seq<string>)
    requires SameTarget(r, q) && Agree(r, q, names)
    ensures KeyOver(r, names) == KeyOver(q, names)
  {
    hide Get;
    if names == [] {
    } else {
      SameKey(r, q, names[..|names| - 1]);
    }
  }

  /** A key with pairs is longer than the base key, so it is never the key the pair-less lookup uses. */
  lemma {:induction false} VaryKeyDiffers(r: Request, vary: seq<string>)
    requires vary != []
    ensures Key(r, vary) != BaseKey(r) && |Key(r, vary)| > |BaseKey(r)|
  {
    hide BaseKey, Get;
    SortSorts(vary);
    LongerWithPairs(r, Sort(vary));
  }

  lemma {:induction false} LongerWithPairs(r: Request, names: seq<string>)
    ensures |KeyOver(r, names)| >= |BaseKey(r)| + |names|
  {
    hide BaseKey, Get;
    if names == [] {
    } else {
      LongerWithPairs(r, names[..|names| - 1]);
    }
  }

  // ---------------------------------------------------------------- what the demands on the characters shut out

  lemma {:induction false} SameHeader(q: Request, a: string, b: string)
    requires Canonical(a) == Canonical(b)
    ensures Get(q, a) == Get(q, b)
  {
  }

  lemma {:induction false} SortsToItself(names: seq<string>)
    requires Ascending(names)
    ensures Sort(names) == names
  {
    SortSorts(names);
    SameAscending(Sort(names), names);
  }

  function Tail(r: Request, names: seq<string>): string {
    if names == [] then "" else Tail(r, names[..|names| - 1]) + "|" + Pair(r, names[|names| - 1])
  }

  lemma {:induction false} KeyHasTail(r: Request, names: seq<string>)
    ensures KeyOver(r, names) == BaseKey(r) + Tail(r, names)
  {
    hide Pair, BaseKey;
    if names == [] {
    } else {
      KeyHasTail(r, names[..|names| - 1]);
      var t, p := Tail(r, names[..|names| - 1]), Pair(r, names[|names| - 1]);
      assert BaseKey(r) + t + "|" + p == BaseKey(r) + (t + "|" + p);
    }
  }

  /** With a pipe allowed in queries: every request with a query has, for every Vary list, another with the same key. */
  lemma {:induction false} QueryTwin(r: Request, names: seq<string>) returns (q: Request)
    requires r.query != "" && names != []
    ensures Key(q, []) == Key(r, names) && !SameTarget(q, r) && q.verb == r.verb && q.path == r.path
  {
    hide Get;
    var t := Tail(r, Sort(names));
    q := r.(query := r.query + t);
    SortSorts(names);
    SortSorts([]);
    KeyHasTail(r, Sort(names));
    assert BaseKey(q) == BaseKey(r) + t;
    assert t != "" by { assert Sort(names) != []; }
    assert KeyOver(q, Sort([])) == BaseKey(q);
  }

  lemma {:induction false} TailFront(r: Request, n: string, names: seq<string>)
    ensures Tail(r, [n] + names) == "|" + Pair(r, n) + Tail(r, names)
  {
    hide Pair;
    if names == [] {
      assert [n] + names == [n] && [n][..0] == [];
      assert Tail(r, [n]) == "" + "|" + Pair(r, n);
    } else {
      var k := |names| - 1;
      assert ([n] + names)[..k + 1] == [n] + names[..k];
      TailFront(r, n, names[..k]);
    }
  }

  /**
   With a pipe allowed in values: for every request and every Vary list of two names or more there is a request that
   differs in the first header and has the same key for that name alone.
   */
  lemma {:induction false} ValueTwin(q: Request, n: string, names: seq<string>) returns (r: Request)
    requires names != [] && Ascending([n] + names)
    ensures Key(r, [n]) == Key(q, [n] + names) && SameTarget(q, r) && Get(r, n) != Get(q, n)
  {
    var t := Tail(q, names);
    r := q.(headers := map[Canonical(n) := [Get(q, n) + t]]);
    assert Get(r, n) == Get(q, n) + t && t != "";
    hide Get, Tail, BaseKey, KeyOver, Sort, StringLe;
    SortsToItself([n] + names);
    SortsToItself([n]);
    SameBase(r, q);
    KeyHasTail(q, [n] + names);
    TailFront(q, n, names);
    KeyHasTail(r, [n]);
    assert [n] + [] == [n];
    TailFront(r, n, []);
    EmptyTail(r);
    Glue(n, Get(q, n), t);
  }

  lemma {:induction false} EmptyTail(r: Request)
    ensures Tail(r, []) == ""
  {
  }

  lemma {:induction false} Glue(n: string, v: string, t: string)
    ensures "|" + (n + "=" + (v + t)) + "" == "|" + (n + "=" + v) + t
  {
  }

  lemma {:induction false} SameBase(r: Request, q: Request)
    requires SameTarget(r, q)
    ensures BaseKey(r) == BaseKey(q)
  {
  }
}
