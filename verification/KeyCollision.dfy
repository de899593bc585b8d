/**
 Exactly which response-cache keys are ambiguous (internal/cache/cache.go): nothing in a key is escaped, so a query or a
 header value that holds a pipe can read as more than itself.
 */
module KeyCollision {
  import opened CacheControl
  import opened CacheKey
  import opened Text

  /** A name that Vary can list, without the delimiters of keys. */
  predicate Listed(name: string) {
    Simple(name) && CleanName(name)
  }

  ghost predicate AllListed(names: seq<string>) {
    forall i :: 0 <= i < |names| ==> Listed(names[i])
  }

  /** No delimiter in method and escaped path, and a Vary list of such names; query and values are arbitrary. */
  ghost predicate Made(r: Request, names: seq<string>) {
    '|' !in r.verb && '|' !in r.path && '?' !in r.path && AllListed(names)
  }

  ghost predicate SameContent(q: Request, names: seq<string>, r: Request, vary: seq<string>) {
    SameTarget(q, r) && multiset(names) == multiset(vary) && Agree(q, r, vary)
  }

  ghost predicate Collides(q: Request, names: seq<string>, r: Request, vary: seq<string>) {
    Made(q, names) && Key(q, names) == Key(r, vary) && !SameContent(q, names, r, vary)
  }

  /** Text, a pipe, a name, an equals sign, text. */
  predicate ReadsAsPair(s: string, i: nat, j: nat) {
    i < j < |s| && s[i] == '|' && s[j] == '=' && Listed(s[i + 1..j])
  }

  ghost predicate QueryReads(query: string) {
    exists i: nat, j: nat :: 0 < i && ReadsAsPair(query, i, j)
  }

  /** The value holds a pair whose name comes after the listed one. */
  ghost predicate ReadsAbove(v: string, n: string) {
    exists i: nat, j: nat :: ReadsAsPair(v, i, j) && StringLe(n, v[i + 1..j]) && v[i + 1..j] != n
  }

  function Repeated(w: string, n: string, k: nat): string {
    if k == 0 then w else Repeated(w, n, k - 1) + "|" + (n + "=" + w)
  }

  /** The value is one value again and again, with the listed name between. */
  ghost predicate Repeats(v: string, n: string) {
    exists w: string, k: nat :: k >= 1 && v == Repeated(w, n, k)
  }

  ghost predicate Ambiguous(r: Request, vary: seq<string>) {
    if r.query != "" then vary != [] || QueryReads(r.query)
    else |vary| >= 2 || (|vary| == 1 && (ReadsAbove(Get(r, vary[0]), vary[0]) || Repeats(Get(r, vary[0]), vary[0])))
  }

  // ---------------------------------------------------------------- keys cut at their first delimiters

  predicate Special(c: char) {
    c == '|' || c == '?'
  }

  lemma {:induction false} FirstSpecial(p: string, x: string, p': string, y: string)
    requires p + x == p' + y
    requires (forall i :: 0 <= i < |p| ==> !Special(p[i])) && (forall i :: 0 <= i < |p'| ==> !Special(p'[i]))
    requires (x != "" ==> Special(x[0])) && (y != "" ==> Special(y[0]))
    ensures p == p' && x == y
  {
    var s, s' := p + x, p' + y;
    assert forall i :: 0 <= i < |p| ==> s[i] == p[i];
    assert forall i :: 0 <= i < |p'| ==> s'[i] == p'[i];
    assert x != "" ==> s[|p|] == x[0];
    assert y != "" ==> s'[|p'|] == y[0];
    assert |p| == |p'|;
    assert p == s[..|p|] && p' == s'[..|p|] && x == s[|p|..] && y == s'[|p|..];
  }

  /** What follows the path in a key. */
  function Trail(r: Request, names: seq<string>): string {
    (if r.query != "" then "?" + r.query else "") + Tail(r, names)
  }

  lemma {:induction false} KeyIsParts(r: Request, names: seq<string>)
    ensures KeyOver(r, names) == r.verb + ['|'] + (r.path + Trail(r, names))
  {
    hide Tail, KeyOver;
    KeyHasTail(r, names);
    Regroup(r.verb, r.path, if r.query != "" then "?" + r.query else "", Tail(r, names));
  }

  lemma {:induction false} Regroup(a: string, b: string, c: string, d: string)
    ensures a + "|" + b + c + d == a + ['|'] + (b + (c + d))
  {
  }

  lemma {:induction false} TailStarts(r: Request, names: seq<string>)
    ensures Tail(r, names) == "" <==> names == []
    ensures names != [] ==> Tail(r, names)[0] == '|'
  {
    hide Pair;
    if names == [] {
    } else {
      TailStarts(r, names[..|names| - 1]);
    }
  }

  lemma {:induction false} TrailStarts(r: Request, names: seq<string>)
    ensures Trail(r, names) != "" ==> Special(Trail(r, names)[0])
    ensures r.query != "" ==> Trail(r, names) != "" && Trail(r, names)[0] == '?' && Trail(r, names)[1..] == r.query + Tail(r, names)
    ensures r.query == "" ==> Trail(r, names) == Tail(r, names) && (names != [] ==> Tail(r, names)[0] == '|')
  {
    hide Tail;
    TailStarts(r, names);
    if r.query != "" {
      assert Trail(r, names) == "?" + (r.query + Tail(r, names));
    } else {
      assert "" + Tail(r, names) == Tail(r, names);
    }
  }

  /** Equal keys have the same method and path, and the same text after it. */
  lemma {:induction false} EqualKeys(q: Request, names: seq<string>, r: Request, vary: seq<string>)
    requires Made(q, names) && Made(r, vary) && Key(q, names) == Key(r, vary)
    ensures q.verb == r.verb && q.path == r.path && (q.query == "" <==> r.query == "")
    ensures q.query + Tail(q, Sort(names)) == r.query + Tail(r, Sort(vary))
  {
    hide Tail, Sort, KeyOver, AllListed, Trail;
    var S, S' := Sort(vary), Sort(names);
    KeyIsParts(q, S');
    KeyIsParts(r, S);
    FirstCut(q.verb, q.path + Trail(q, S'), r.verb, r.path + Trail(r, S), '|');
    TrailStarts(q, S');
    TrailStarts(r, S);
    FirstSpecial(q.path, Trail(q, S'), r.path, Trail(r, S));
    SortedEmpty(names);
    SortedEmpty(vary);
    TailStarts(q, S');
    TailStarts(r, S);
    assert "" + Tail(q, S') == Tail(q, S') && "" + Tail(r, S) == Tail(r, S);
  }

  lemma {:induction false} SortedEmpty(names: seq<string>)
    ensures |Sort(names)| == |names|
  {
    SortSorts(names);
  }

  lemma {:induction false} TailAppend(r: Request, a: seq<string>, b: seq<string>)
    ensures Tail(r, a + b) == Tail(r, a) + Tail(r, b)
    decreases |b|
  {
    hide Pair;
    if b == [] {
      assert a + b == a;
    } else {
      var k := |b| - 1;
      assert (a + b)[..|a + b| - 1] == a + b[..k];
      TailAppend(r, a, b[..k]);
      var t, u, p := Tail(r, a), Tail(r, b[..k]), Pair(r, b[k]);
      assert t + u + "|" + p == t + (u + "|" + p);
    }
  }

  lemma {:induction false} SortedListed(names: seq<string>)
    requires AllListed(names)
    ensures AllListed(Sort(names)) && Ascending(Sort(names)) && |Sort(names)| == |names|
  {
    hide Listed, StringLe;
    SortSorts(names);
    SortedMembers(names);
    forall i | 0 <= i < |Sort(names)| ensures Listed(Sort(names)[i]) {
      var k :| 0 <= k < |names| && names[k] == Sort(names)[i];
    }
  }

  // ---------------------------------------------------------------- every collision has one of the forms

  /** Text that ends in pairs reads as text and a pair. */
  lemma {:induction false} ReadsFirst(x: string, q: Request, n: string, rest: seq<string>)
    requires Listed(n)
    ensures var s := x + Tail(q, [n] + rest); ReadsAsPair(s, |x|, |x| + 1 + |n|) && s[|x| + 1..|x| + 1 + |n|] == n
  {
    hide Tail, Get, Listed;
    TailFront(q, n, rest);
    var s, t := x + Tail(q, [n] + rest), Get(q, n) + Tail(q, rest);
    assert s == x + ("|" + (n + "=" + Get(q, n)) + Tail(q, rest));
    assert "|" + (n + "=" + Get(q, n)) + Tail(q, rest) == "|" + n + "=" + t;
    assert s[|x|] == '|';
    assert s[|x| + 1..|x| + 1 + |n|] == n;
    assert s[|x| + 1 + |n|] == '=';
  }

  lemma {:induction false} HeadRest(names: seq<string>)
    requires names != []
    ensures names == [names[0]] + names[1..]
  {
  }

  lemma {:induction false} QueryCase(q: Request, names: seq<string>, r: Request)
    requires Made(q, names) && Made(r, []) && r.query != "" && Key(q, names) == Key(r, []) && !SameContent(q, names, r, [])
    ensures QueryReads(r.query)
  {
    hide Tail, Sort, Listed, KeyOver;
    EqualKeys(q, names, r, []);
    SortedEmpty([]);
    TailStarts(r, Sort([]));
    SortedListed(names);
    var S' := Sort(names);
    assert r.query + "" == r.query && q.query + "" == q.query;
    TailStarts(q, S');
    if names != [] {
      HeadRest(S');
      ReadsFirst(q.query, q, S'[0], S'[1..]);
      assert ReadsAsPair(r.query, |q.query|, |q.query| + 1 + |S'[0]|);
    }
  }

  lemma {:induction false} EmptyCase(q: Request, names: seq<string>, r: Request)
    requires Made(q, names) && Made(r, []) && r.query == "" && Key(q, names) == Key(r, [])
    ensures SameContent(q, names, r, [])
  {
    hide Tail, Sort, Listed, KeyOver;
    EqualKeys(q, names, r, []);
    SortedEmpty([]);
    SortedEmpty(names);
    TailStarts(r, Sort([]));
    TailStarts(q, Sort(names));
    assert "" + Tail(q, Sort(names)) == Tail(q, Sort(names));
  }

  /** The one listed name is the partner's first, and its value the partner's value and further pairs. */
  lemma {:induction false} OneName(q: Request, names: seq<string>, r: Request, n: string)
    requires Made(q, names) && Made(r, [n]) && r.query == "" && Key(q, names) == Key(r, [n])
    ensures names != [] && Sort(names)[0] == n && Get(r, n) == Get(q, n) + Tail(q, Sort(names)[1..])
    ensures SameTarget(q, r)
  {
    hide Tail, Sort, KeyOver, Get, Simple;
    assert CleanName(n) by { assert Listed([n][0]); }
    EqualKeys(q, names, r, [n]);
    SortsToItself([n]);
    SortedListed(names);
    var S' := Sort(names);
    TailStarts(q, S');
    TailStarts(r, [n]);
    assert "" + Tail(q, S') == Tail(q, S') && "" + Tail(r, [n]) == Tail(r, [n]);
    HeadRest(S');
    var m, rest := S'[0], S'[1..];
    TailFront(q, m, rest);
    assert [n] + [] == [n];
    TailFront(r, n, []);
    EmptyTail(r);
    var w, v, t := Get(q, m), Get(r, n), Tail(q, rest);
    assert "|" + (m + "=" + w) + t == "" + ['|'] + (m + ['='] + (w + t));
    assert "|" + (n + "=" + v) + "" == "" + ['|'] + (n + ['='] + v);
    FirstCut("", m + ['='] + (w + t), "", n + ['='] + v, '|');
    FirstCut(m, w + t, n, v, '=');
  }

  lemma {:induction false} AllSame(q: Request, n: string, rest: seq<string>)
    requires forall i :: 0 <= i < |rest| ==> rest[i] == n
    ensures Get(q, n) + Tail(q, rest) == Repeated(Get(q, n), n, |rest|)
  {
    hide Get;
    if rest == [] {
    } else {
      var k := |rest| - 1;
      AllSame(q, n, rest[..k]);
      var w, t, p := Get(q, n), Tail(q, rest[..k]), Pair(q, n);
      assert w + (t + "|" + p) == w + t + "|" + p;
    }
  }

  lemma {:induction false} FirstOther(rest: seq<string>, n: string) returns (m: nat)
    requires exists i :: 0 <= i < |rest| && rest[i] != n
    ensures m < |rest| && rest[m] != n && forall i :: 0 <= i < m ==> rest[i] == n
  {
    m := 0;
    while rest[m] == n
      invariant m < |rest| && forall i :: 0 <= i < m ==> rest[i] == n
      decreases |rest| - m
    {
      m := m + 1;
    }
  }

  lemma {:induction false} ValueCase(q: Request, names: seq<string>, r: Request, n: string)
    requires Made(q, names) && Made(r, [n]) && r.query == "" && Key(q, names) == Key(r, [n])
    requires !SameContent(q, names, r, [n])
    ensures ReadsAbove(Get(r, n), n) || Repeats(Get(r, n), n)
  {
    hide Tail, Sort, KeyOver, Get, Listed, StringLe, Repeated;
    OneName(q, names, r, n);
    SortedListed(names);
    var S' := Sort(names);
    var rest := S'[1..];
    if rest == [] {
      OneIsSame(q, names, r, n);
    } else if forall i :: 0 <= i < |rest| ==> rest[i] == n {
      AllSame(q, n, rest);
    } else {
      var m := FirstOther(rest, n);
      assert S'[m + 1] == rest[m] && StringLe(S'[0], S'[m + 1]);
      OtherAbove(q, n, rest, m);
    }
  }

  lemma {:induction false} OtherAbove(q: Request, n: string, rest: seq<string>, m: nat)
    requires m < |rest| && Listed(rest[m]) && StringLe(n, rest[m]) && rest[m] != n
    ensures ReadsAbove(Get(q, n) + Tail(q, rest), n)
  {
    hide Tail, Get, Listed, StringLe;
    var x, N, after := Get(q, n) + Tail(q, rest[..m]), rest[m], rest[m + 1..];
    assert rest == rest[..m] + ([N] + after);
    TailAppend(q, rest[..m], [N] + after);
    ReadsFirst(x, q, N, after);
    var v := Get(q, n) + Tail(q, rest);
    assert v == x + Tail(q, [N] + after);
    assert ReadsAsPair(v, |x|, |x| + 1 + |N|);
  }

  lemma {:induction false} OneIsSame(q: Request, names: seq<string>, r: Request, n: string)
    requires |Sort(names)| == 1 && Sort(names)[0] == n && SameTarget(q, r)
    requires Get(r, n) == Get(q, n) + Tail(q, [])
    ensures SameContent(q, names, r, [n])
  {
    hide Get, Tail, Sort;
    SortSorts(names);
    EmptyTail(q);
    assert Sort(names) == [n];
    assert multiset(names) == multiset([n]);
  }

  // ---------------------------------------------------------------- every form gives a collision

  lemma {:induction false} FromQuery(r: Request, i: nat, j: nat) returns (q: Request, n: string)
    requires Made(r, []) && 0 < i && ReadsAsPair(r.query, i, j)
    ensures Collides(q, [n], r, [])
  {
    hide Simple, Canonical, KeyOver;
    n := r.query[i + 1..j];
    var v := r.query[j + 1..];
    q := Request(r.verb, r.path, r.query[..i], map[Canonical(n) := [v]]);
    assert Get(q, n) == v;
    hide Get;
    CutAt(r.query, i, j);
    SortsToItself([n]);
    SortedEmpty([]);
    KeyHasTail(q, [n]);
    KeyHasTail(r, []);
    assert [n] + [] == [n];
    TailFront(q, n, []);
    EmptyTail(q);
    EmptyTail(r);
    assert BaseKey(r) == BaseKey(q) + ("|" + (n + "=" + v));
    assert |q.query| < |r.query|;
  }

  lemma {:induction false} FromTwo(r: Request, vary: seq<string>) returns (q: Request, n: string)
    requires Made(r, vary) && |vary| >= 2
    ensures Collides(q, [n], r, vary)
  {
    hide Listed, StringLe, KeyOver, Get, Sort;
    SortedListed(vary);
    SortSorts(vary);
    var S := Sort(vary);
    HeadRest(S);
    n := S[0];
    q := ValueTwin(r, n, S[1..]);
    SortsToItself(S);
    OtherSize(q, [n], r, vary);
  }

  lemma {:induction false} FromAbove(r: Request, n: string, i: nat, j: nat) returns (q: Request, m: string)
    requires Made(r, [n]) && ReadsAsPair(Get(r, n), i, j)
    requires StringLe(n, Get(r, n)[i + 1..j]) && Get(r, n)[i + 1..j] != n
    ensures Collides(q, [n, m], r, [n])
  {
    hide KeyOver, BaseKey, StringLe, CleanName, TrimSpace, Sort, Tail, Canonical;
    var v := Get(r, n);
    m := v[i + 1..j];
    assert Canonical(n) == n && Canonical(m) == m by { assert Listed([n][0]) && Listed(m); }
    q := r.(headers := map[n := [v[..i]], m := [v[j + 1..]]]);
    assert Get(q, n) == v[..i] && Get(q, m) == v[j + 1..];
    hide Get, Simple;
    CutAt(v, i, j);
    assert Ascending([n, m]);
    SortsToItself([n, m]);
    SortsToItself([n]);
    KeyHasTail(q, [n, m]);
    KeyHasTail(r, [n]);
    SameBase(q, r);
    assert [n, m] == [n] + [m] && [m] == [m] + [] && [n] == [n] + [];
    TailFront(q, n, [m]);
    TailFront(q, m, []);
    TailFront(r, n, []);
    EmptyTail(q);
    EmptyTail(r);
    Glued(n, v[..i], m, v[j + 1..]);
    assert AllListed([n, m]) by { assert Listed([n][0]); }
    OtherSize(q, [n, m], r, [n]);
  }

  lemma {:induction false} CutAt(v: string, i: nat, j: nat)
    requires i < j < |v| && v[i] == '|' && v[j] == '='
    ensures v == v[..i] + ("|" + (v[i + 1..j] + "=" + v[j + 1..]))
  {
  }

  lemma {:induction false} Glued(n: string, x: string, m: string, y: string)
    ensures "|" + (n + "=" + x) + ("|" + (m + "=" + y) + "") == "|" + (n + "=" + (x + ("|" + (m + "=" + y)))) + ""
  {
  }

  function Copies(n: string, k: nat): (names: seq<string>)
    ensures |names| == k && forall i :: 0 <= i < k ==> names[i] == n
  {
    seq(k, i => n)
  }

  lemma {:induction false} FromRepeats(r: Request, n: string, w: string, k: nat) returns (q: Request)
    requires Made(r, [n]) && k >= 1 && Get(r, n) == Repeated(w, n, k)
    ensures Collides(q, Copies(n, k + 1), r, [n])
  {
    q := r.(headers := map[Canonical(n) := [w]]);
    assert Get(q, n) == w;
    hide KeyOver, BaseKey, StringLe, Listed, Repeated, Get, Canonical, Sort, Tail;
    var names, rest := Copies(n, k + 1), Copies(n, k);
    AllSame(q, n, rest);
    assert names == [n] + rest && [n] == [n] + [];
    CopiesAscend(n, k + 1);
    SortsToItself(names);
    SortsToItself([n]);
    KeyHasTail(q, names);
    KeyHasTail(r, [n]);
    SameBase(q, r);
    TailFront(q, n, rest);
    TailFront(r, n, []);
    EmptyTail(r);
    Glue(n, w, Tail(q, rest));
    OtherSize(q, names, r, [n]);
    assert AllListed(names) by { assert Listed([n][0]); }
  }

  lemma {:induction false} OtherSize(q: Request, names: seq<string>, r: Request, vary: seq<string>)
    requires |names| != |vary|
    ensures !SameContent(q, names, r, vary)
  {
    assert |multiset(names)| == |names| && |multiset(vary)| == |vary|;
  }

  lemma {:induction false} CopiesAscend(n: string, k: nat)
    ensures Ascending(Copies(n, k))
  {
    LeReflexive(n);
  }

  /**
   For every request and Vary list: some other content has the same key if and only if
   - there is a query, and a Vary list, or a pair inside the query; or
   - there is no query, and two names or more, or one whose value holds a pair with a later name or repeats its own pair.
   */
  lemma {:induction false} KeyCollides(r: Request, vary: seq<string>)
    requires Made(r, vary)
    ensures (exists q: Request, names: seq<string> :: Collides(q, names, r, vary)) <==> Ambiguous(r, vary)
  {
    hide Key, Get, Listed, StringLe, Repeated, ReadsAsPair, SameContent;
    if q: Request, names: seq<string> :| Collides(q, names, r, vary) {
      OneName1(r, vary);
      if r.query != "" && vary == [] {
        QueryCase(q, names, r);
      } else if r.query == "" && vary == [] {
        EmptyCase(q, names, r);
      } else if r.query == "" && |vary| == 1 {
        ValueCase(q, names, r, vary[0]);
      }
    }
    if Ambiguous(r, vary) {
      var q, names := Partner(r, vary);
    }
  }

  lemma {:induction false} OneName1(r: Request, vary: seq<string>)
    ensures |vary| == 1 ==> vary == [vary[0]]
  {
  }

  lemma {:induction false} Partner(r: Request, vary: seq<string>) returns (q: Request, names: seq<string>)
    requires Made(r, vary) && Ambiguous(r, vary)
    ensures Collides(q, names, r, vary)
  {
    hide Key, Get, Listed, StringLe, Repeated;
    OneName1(r, vary);
    names := [];
    if r.query != "" && vary != [] {
      q := QueryTwin(r, vary);
    } else if r.query != "" {
      var i: nat, j: nat :| 0 < i && ReadsAsPair(r.query, i, j);
      var n;
      q, n := FromQuery(r, i, j);
      names := [n];
    } else if |vary| >= 2 {
      var n;
      q, n := FromTwo(r, vary);
      names := [n];
    } else if ReadsAbove(Get(r, vary[0]), vary[0]) {
      var v := Get(r, vary[0]);
      var i: nat, j: nat :| ReadsAsPair(v, i, j) && StringLe(vary[0], v[i + 1..j]) && v[i + 1..j] != vary[0];
      var m;
      q, m := FromAbove(r, vary[0], i, j);
      names := [vary[0], m];
    } else {
      var w: string, k: nat :| k >= 1 && Get(r, vary[0]) == Repeated(w, vary[0], k);
      q := FromRepeats(r, vary[0], w, k);
      names := Copies(vary[0], k + 1);
    }
  }
}
