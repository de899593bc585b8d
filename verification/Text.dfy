/** The string operations that the cache code takes from Go's library, and what its proofs use of them. */
module Text {

  function CountOf(s: string, c: char): nat {
    if |s| == 0 then 0 else CountOf(s[..|s| - 1], c) + if s[|s| - 1] == c then 1 else 0
  }

  lemma {:induction false} CountAppend(a: string, b: string, c: char)
    ensures CountOf(a + b, c) == CountOf(a, c) + CountOf(b, c)
    decreases |b|
  {
    if b == [] {
      assert a + b == a;
    } else {
      CountAppend(a, b[..|b| - 1], c);
      assert (a + b)[..|a + b| - 1] == a + b[..|b| - 1];
    }
  }

  lemma {:induction false} CountNone(s: string, c: char)
    ensures CountOf(s, c) == 0 <==> c !in s
  {
    if |s| == 0 {
    } else {
      CountNone(s[..|s| - 1], c);
      assert s == s[..|s| - 1] + [s[|s| - 1]];
    }
  }

  /** Text up to the first `c` and after it is determined by the whole. */
  lemma {:induction false} FirstCut(a: string, b: string, a': string, b': string, c: char)
    requires c !in a && c !in a' && a + [c] + b == a' + [c] + b'
    ensures a == a' && b == b'
  {
    var s, s' := a + [c] + b, a' + [c] + b';
    assert s[|a|] == c && s'[|a'|] == c;
    assert forall i :: 0 <= i < |a| ==> s[i] == a[i];
    assert forall i :: 0 <= i < |a'| ==> s'[i] == a'[i];
    assert |a| == |a'|;
    assert a == s[..|a|] && a' == s'[..|a|];
    assert b == s[|a| + 1..] && b' == s'[|a| + 1..];
  }

  /** Text up to the last `c` and after it is determined by the whole. */
  lemma {:induction false} LastCut(a: string, b: string, a': string, b': string, c: char)
    requires c !in b && c !in b' && a + [c] + b == a' + [c] + b'
    ensures a == a' && b == b'
  {
    var s, s' := a + [c] + b, a' + [c] + b';
    assert s[|a|] == c && s'[|a'|] == c;
    assert forall i :: |a| < i < |s| ==> s[i] == b[i - |a| - 1];
    assert forall i :: |a'| < i < |s| ==> s'[i] == b'[i - |a'| - 1];
    assert |a| == |a'|;
    assert a == s[..|a|] && a' == s'[..|a|];
    assert b == s[|a| + 1..] && b' == s'[|a| + 1..];
  }

  // ---------------------------------------------------------------- cutting (strings.Cut, strings.Split, strings.Join)

  /** The text before the first `c`, or all of it; and the text after. */
  function Before(s: string, c: char): string {
    if s == "" || s[0] == c then "" else [s[0]] + Before(s[1..], c)
  }

  function After(s: string, c: char): string {
    if s == "" then "" else if s[0] == c then s[1..] else After(s[1..], c)
  }

  lemma {:induction false} CutWhole(s: string, c: char)
    ensures c !in Before(s, c)
    ensures if c in s then s == Before(s, c) + [c] + After(s, c) else s == Before(s, c)
  {
    if s == "" {
    } else if s[0] == c {
      assert s == "" + [c] + s[1..];
    } else {
      CutWhole(s[1..], c);
      assert s == [s[0]] + s[1..];
      assert c in s <==> c in s[1..];
    }
  }

  lemma {:induction false} CutJoined(a: string, b: string, c: char)
    requires c !in a
    ensures Before(a + [c] + b, c) == a && After(a + [c] + b, c) == b && Before(a, c) == a
  {
    CutWhole(a, c);
    CutWhole(a + [c] + b, c);
    assert (a + [c] + b)[|a|] == c;
    FirstCut(a, b, Before(a + [c] + b, c), After(a + [c] + b, c), c);
  }

  function SplitOn(s: string, c: char): (ps: seq<string>)
    ensures |ps| >= 1
  {
    if s == "" then [""]
    else
      var rest := SplitOn(s[1..], c);
      if s[0] == c then [""] + rest else [[s[0]] + rest[0]] + rest[1..]
  }

  function JoinOn(ps: seq<string>, c: char): string
    requires |ps| >= 1
  {
    if |ps| == 1 then ps[0] else JoinOn(ps[..|ps| - 1], c) + [c] + ps[|ps| - 1]
  }

  lemma {:induction false} JoinOne(s: string, c: char)
    ensures JoinOn([s], c) == s
  {
  }

  lemma {:induction false} SplitPlain(p: string, c: char)
    requires c !in p
    ensures SplitOn(p, c) == [p]
  {
    if p == "" {
    } else {
      SplitPlain(p[1..], c);
      assert p == [p[0]] + p[1..];
    }
  }

  lemma {:induction false} SplitFront(p: string, s: string, c: char)
    requires c !in p
    ensures SplitOn(p + [c] + s, c) == [p] + SplitOn(s, c)
  {
    var t := p + [c] + s;
    if p == "" {
      assert t[1..] == s;
    } else {
      SplitFront(p[1..], s, c);
      assert t[1..] == p[1..] + [c] + s;
      assert p == [p[0]] + p[1..];
    }
  }

  lemma {:induction false} JoinFront(p: string, ps: seq<string>, c: char)
    requires |ps| >= 1
    ensures JoinOn([p] + ps, c) == p + [c] + JoinOn(ps, c)
  {
    var n := |ps|;
    if n == 1 {
      assert ([p] + ps)[..1] == [p];
    } else {
      JoinFront(p, ps[..n - 1], c);
      assert ([p] + ps)[..n] == [p] + ps[..n - 1];
    }
  }

  /** Splitting loses nothing and leaves no separator in a piece; by `SplitOfJoinOn` nothing else does that. */
  lemma {:induction false} JoinOfSplitOn(s: string, c: char)
    ensures JoinOn(SplitOn(s, c), c) == s
    ensures forall i :: 0 <= i < |SplitOn(s, c)| ==> c !in SplitOn(s, c)[i]
    decreases |s|
  {
    hide JoinOn, SplitOn;
    CutWhole(s, c);
    if c !in s {
      SplitPlain(s, c);
      JoinOne(s, c);
    } else {
      var p, rest := Before(s, c), After(s, c);
      JoinOfSplitOn(rest, c);
      SplitFront(p, rest, c);
      JoinFront(p, SplitOn(rest, c), c);
    }
  }

  lemma {:induction false} SplitOfJoinOn(ps: seq<string>, c: char)
    requires |ps| >= 1 && forall i :: 0 <= i < |ps| ==> c !in ps[i]
    ensures SplitOn(JoinOn(ps, c), c) == ps
  {
    if |ps| == 1 {
      SplitPlain(ps[0], c);
    } else {
      SplitOfJoinOn(ps[1..], c);
      JoinFront(ps[0], ps[1..], c);
      assert ps == [ps[0]] + ps[1..];
      SplitFront(ps[0], JoinOn(ps[1..], c), c);
    }
  }

  /** The text reads as `item` with nothing or a separator on either side. */
  ghost predicate Between(s: string, a: string, item: string, b: string, c: char) {
    && s == a + item + b && c !in item
    && (a == "" || a[|a| - 1] == c) && (b == "" || b[0] == c)
  }

  ghost predicate IsItem(s: string, item: string, c: char) {
    exists a, b :: Between(s, a, item, b, c)
  }

  lemma {:induction false} SplitAppend(x: string, y: string, c: char)
    ensures SplitOn(x + [c] + y, c) == SplitOn(x, c) + SplitOn(y, c)
    decreases |x|
  {
    hide SplitOn;
    CutWhole(x, c);
    if c !in x {
      SplitPlain(x, c);
      SplitFront(x, y, c);
    } else {
      var p, rest := Before(x, c), After(x, c);
      SplitAppend(rest, y, c);
      SplitFront(p, rest, c);
      assert x + [c] + y == p + [c] + (rest + [c] + y);
      SplitFront(p, rest + [c] + y, c);
      assert [p] + (SplitOn(rest, c) + SplitOn(y, c)) == [p] + SplitOn(rest, c) + SplitOn(y, c);
    }
  }

  /** The pieces are exactly the texts that stand between separators. */
  lemma {:induction false} PiecesAreItems(s: string, item: string, c: char)
    ensures item in SplitOn(s, c) <==> IsItem(s, item, c)
  {
    if item in SplitOn(s, c) {
      PieceIsItem(s, item, c);
    }
    if a, b :| Between(s, a, item, b, c) {
      hide SplitOn;
      SplitPlain(item, c);
      assert item in SplitOn(item + b, c) by {
        if b == "" {
          assert item + b == item;
        } else {
          assert item + b == item + [c] + b[1..];
          SplitAppend(item, b[1..], c);
        }
      }
      if a == "" {
        assert s == item + b;
      } else {
        assert s == a[..|a| - 1] + [c] + (item + b);
        SplitAppend(a[..|a| - 1], item + b, c);
      }
    }
  }

  lemma {:induction false} LaterItem(p: string, rest: string, a: string, item: string, b: string, c: char)
    requires Between(rest, a, item, b, c)
    ensures Between(p + [c] + rest, p + [c] + a, item, b, c)
  {
    assert p + [c] + (a + item + b) == (p + [c] + a) + item + b;
    assert a == "" ==> p + [c] + a == p + [c];
  }

  lemma {:induction false} PieceIsItem(s: string, item: string, c: char)
    requires item in SplitOn(s, c)
    ensures IsItem(s, item, c)
    decreases |s|
  {
    hide SplitOn;
    CutWhole(s, c);
    if c !in s {
      SplitPlain(s, c);
      assert s == "" + s + "";
      assert Between(s, "", s, "", c);
    } else {
      var p, rest := Before(s, c), After(s, c);
      SplitFront(p, rest, c);
      if item == p {
        assert s == "" + p + ([c] + rest);
        assert Between(s, "", p, [c] + rest, c);
      } else {
        PieceIsItem(rest, item, c);
        var a, b :| Between(rest, a, item, b, c);
        LaterItem(p, rest, a, item, b, c);
      }
    }
  }

  // ---------------------------------------------------------------- order and sorting (sort.Strings)

  /** Lexicographic order on characters. */
  predicate StringLe(a: string, b: string) {
    if a == "" then true
    else if b == "" then false
    else if a[0] != b[0] then a[0] < b[0]
    else StringLe(a[1..], b[1..])
  }

  lemma {:induction false} LeTotal(a: string, b: string)
    ensures StringLe(a, b) || StringLe(b, a)
  {
    if a != "" && b != "" && a[0] == b[0] {
      LeTotal(a[1..], b[1..]);
    }
  }

  lemma {:induction false} LeAntisymmetric(a: string, b: string)
    requires StringLe(a, b) && StringLe(b, a)
    ensures a == b
  {
    if a != "" && b != "" {
      LeAntisymmetric(a[1..], b[1..]);
      assert a == [a[0]] + a[1..] && b == [b[0]] + b[1..];
    }
  }

  lemma {:induction false} LeTransitive(a: string, b: string, c: string)
    requires StringLe(a, b) && StringLe(b, c)
    ensures StringLe(a, c)
  {
    if a != "" && b != "" && c != "" && a[0] == b[0] == c[0] {
      LeTransitive(a[1..], b[1..], c[1..]);
    }
  }

  ghost predicate Ascending(xs: seq<string>) {
    forall i, j :: 0 <= i < j < |xs| ==> StringLe(xs[i], xs[j])
  }

  function Insert(x: string, xs: seq<string>): seq<string> {
    if xs == [] then [x]
    else if StringLe(x, xs[0]) then [x] + xs
    else [xs[0]] + Insert(x, xs[1..])
  }

  function Sort(xs: seq<string>): seq<string> {
    if xs == [] then [] else Insert(xs[0], Sort(xs[1..]))
  }

  lemma {:induction false} ConsBag(x: string, xs: seq<string>)
    ensures multiset([x] + xs) == multiset{x} + multiset(xs)
  {
  }

  lemma {:induction false} HeadTail(xs: seq<string>)
    requires xs != []
    ensures xs == [xs[0]] + xs[1..] && multiset(xs) == multiset{xs[0]} + multiset(xs[1..])
  {
    assert xs == [xs[0]] + xs[1..];
    ConsBag(xs[0], xs[1..]);
  }

  lemma {:induction false} InsertKeepsAll(x: string, xs: seq<string>)
    ensures multiset(Insert(x, xs)) == multiset{x} + multiset(xs) && |Insert(x, xs)| == |xs| + 1
    ensures forall y :: y in Insert(x, xs) ==> y == x || y in xs
  {
    if xs == [] {
    } else {
      HeadTail(xs);
      if StringLe(x, xs[0]) {
        ConsBag(x, xs);
      } else {
        InsertKeepsAll(x, xs[1..]);
        ConsBag(xs[0], Insert(x, xs[1..]));
      }
    }
  }

  lemma {:induction false} InsertAscends(x: string, xs: seq<string>)
    requires Ascending(xs)
    ensures Ascending(Insert(x, xs))
  {
    if xs == [] {
    } else {
      if StringLe(x, xs[0]) {
        forall j | 0 <= j < |xs|
          ensures StringLe(x, xs[j])
        {
          if j > 0 { LeTransitive(x, xs[0], xs[j]); }
        }
      } else {
        LeTotal(x, xs[0]);
        InsertAscends(x, xs[1..]);
        InsertKeepsAll(x, xs[1..]);
        var rest := Insert(x, xs[1..]);
        hide StringLe;
        forall j | 0 <= j < |rest| ensures StringLe(xs[0], rest[j]) {
          assert rest[j] in rest;
          if rest[j] != x {
            var k :| 0 <= k < |xs[1..]| && xs[1..][k] == rest[j];
            assert rest[j] == xs[k + 1];
          }
        }
      }
    }
  }

  /** Sorting gives an ascending rearrangement. */
  lemma {:induction false} SortSorts(xs: seq<string>)
    ensures Ascending(Sort(xs)) && multiset(Sort(xs)) == multiset(xs) && |Sort(xs)| == |xs|
  {
    if xs == [] {
    } else {
      SortSorts(xs[1..]);
      InsertKeepsAll(xs[0], Sort(xs[1..]));
      InsertAscends(xs[0], Sort(xs[1..]));
      HeadTail(xs);
    }
  }

  /** The first of an ascending list is below anything in a list with the same content. */
  lemma {:induction false} FirstIsLeast(xs: seq<string>, ys: seq<string>, y: string)
    requires Ascending(xs) && multiset(xs) == multiset(ys) && y in ys
    ensures xs != [] && StringLe(xs[0], y)
  {
    assert y in multiset(ys);
    assert y in xs;
    LeReflexive(y);
  }

  lemma {:induction false} SameAscending(xs: seq<string>, ys: seq<string>)
    requires Ascending(xs) && Ascending(ys) && multiset(xs) == multiset(ys)
    ensures xs == ys
  {
    if xs == [] || ys == [] {
      assert |multiset(xs)| == |xs| && |multiset(ys)| == |ys|;
    } else {
      FirstIsLeast(xs, ys, ys[0]);
      FirstIsLeast(ys, xs, xs[0]);
      LeAntisymmetric(xs[0], ys[0]);
      HeadTail(xs);
      HeadTail(ys);
      assert multiset(xs[1..]) == multiset(xs) - multiset{xs[0]};
      assert multiset(ys[1..]) == multiset(ys) - multiset{xs[0]};
      SameAscending(xs[1..], ys[1..]);
    }
  }

  lemma {:induction false} LeReflexive(a: string)
    ensures StringLe(a, a)
  {
    LeTotal(a, a);
  }

  /** Rearranging a list does not change how it sorts. */
  lemma {:induction false} SortOfPermutation(xs: seq<string>, ys: seq<string>)
    requires multiset(xs) == multiset(ys)
    ensures Sort(xs) == Sort(ys)
  {
    SortSorts(xs);
    SortSorts(ys);
    SameAscending(Sort(xs), Sort(ys));
  }

  // ---------------------------------------------------------------- header names (textproto.CanonicalMIMEHeaderKey)

  predicate IsLower(c: char) { 'a' <= c <= 'z' }
  predicate IsUpper(c: char) { 'A' <= c <= 'Z' }

  predicate IsToken(c: char) {
    IsLower(c) || IsUpper(c) || '0' <= c <= '9' || c in "!#$%&'*+-.^_`|~"
  }

  function UpperOf(c: char): char { if IsLower(c) then c - ' ' else c }
  function LowerOf(c: char): char { if IsUpper(c) then c + ' ' else c }

  function CanonicalFrom(s: string, upper: bool): (r: string)
    ensures |r| == |s|
  {
    if s == "" then ""
    else
      var c := if upper then UpperOf(s[0]) else LowerOf(s[0]);
      [c] + CanonicalFrom(s[1..], c == '-')
  }

  /** Upper case after the start and after each hyphen, lower case elsewhere; other than tokens are left alone. */
  function Canonical(s: string): string {
    if forall i :: 0 <= i < |s| ==> IsToken(s[i]) then CanonicalFrom(s, true) else s
  }

  lemma {:induction false} CanonicalFromTwice(s: string, upper: bool)
    ensures CanonicalFrom(CanonicalFrom(s, upper), upper) == CanonicalFrom(s, upper)
    ensures (forall i :: 0 <= i < |s| ==> IsToken(s[i])) ==>
              forall i :: 0 <= i < |s| ==> IsToken(CanonicalFrom(s, upper)[i])
  {
    if s == "" {
    } else {
      var c := if upper then UpperOf(s[0]) else LowerOf(s[0]);
      CanonicalFromTwice(s[1..], c == '-');
      assert CanonicalFrom(s, upper)[1..] == CanonicalFrom(s[1..], c == '-');
    }
  }

  /** Canonicalising a canonical name changes nothing. */
  lemma {:induction false} CanonicalTwice(s: string)
    ensures Canonical(Canonical(s)) == Canonical(s)
  {
    CanonicalFromTwice(s, true);
  }

  predicate SameLetter(a: char, b: char) {
    a == b || (IsUpper(a) && b == a + ' ') || (IsUpper(b) && a == b + ' ')
  }

  /** The same but for the case of ASCII letters. */
  ghost predicate EqualFold(a: string, b: string) {
    |a| == |b| && forall i :: 0 <= i < |a| ==> SameLetter(a[i], b[i])
  }

  ghost predicate AllTokens(s: string) {
    forall i :: 0 <= i < |s| ==> IsToken(s[i])
  }

  /** Capitals at the start and after hyphens, and nowhere else. */
  ghost predicate Capitalised(s: string) {
    && (forall i :: 0 <= i < |s| && IsLower(s[i]) ==> i > 0 && s[i - 1] != '-')
    && (forall i :: 0 <= i < |s| && IsUpper(s[i]) ==> i == 0 || s[i - 1] == '-')
  }

  /** The canonical form of a name changes nothing but case, and capitalises; other text than tokens is left alone. */
  lemma {:induction false} CanonicalIs(s: string)
    ensures EqualFold(Canonical(s), s)
    ensures if AllTokens(s) then AllTokens(Canonical(s)) && Capitalised(Canonical(s)) else Canonical(s) == s
  {
    CanonicalFromIs(s, true);
    CanonicalFromTwice(s, true);
  }

  lemma {:induction false} CanonicalFromIs(s: string, upper: bool)
    ensures var r := CanonicalFrom(s, upper);
            && EqualFold(r, s)
            && (forall i :: 1 <= i < |r| && IsLower(r[i]) ==> r[i - 1] != '-')
            && (forall i :: 1 <= i < |r| && IsUpper(r[i]) ==> r[i - 1] == '-')
            && (r != "" && IsLower(r[0]) ==> !upper) && (r != "" && IsUpper(r[0]) ==> upper)
  {
    if s == "" {
    } else {
      var c := if upper then UpperOf(s[0]) else LowerOf(s[0]);
      CanonicalFromIs(s[1..], c == '-');
      var r, rest := CanonicalFrom(s, upper), CanonicalFrom(s[1..], c == '-');
      assert r == [c] + rest;
      assert forall i :: 1 <= i < |r| ==> r[i] == rest[i - 1];
    }
  }

  /** So two spellings have one canonical form exactly if they differ in case alone. */
  lemma {:induction false} SameCanonicalIff(s: string, n: string)
    requires AllTokens(n) && Capitalised(n)
    ensures Canonical(s) == n <==> EqualFold(s, n)
  {
    CanonicalIs(s);
    hide Canonical;
    if EqualFold(s, n) {
      assert AllTokens(s) by {
        forall i | 0 <= i < |s| ensures IsToken(s[i]) {
          assert SameLetter(s[i], n[i]) && IsToken(n[i]);
        }
      }
      var r := Canonical(s);
      assert EqualFold(r, n);
      CapitalsFixed(r, n, |r|);
    }
  }

  lemma {:induction false} CapitalsFixed(r: string, n: string, k: nat)
    requires EqualFold(r, n) && Capitalised(r) && Capitalised(n) && k <= |r|
    ensures r[..k] == n[..k]
  {
    if k == 0 {
    } else {
      CapitalsFixed(r, n, k - 1);
      var i := k - 1;
      assert i > 0 ==> r[i - 1] == r[..i][i - 1] && n[i - 1] == n[..i][i - 1];
      assert SameLetter(r[i], n[i]);
      assert r[i] == n[i];
      assert r[..k] == r[..i] + [r[i]] && n[..k] == n[..i] + [n[i]];
    }
  }
}
