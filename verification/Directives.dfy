/**
 Splitting a Cache-Control value into directives (internal/cache/cache.go): on commas that are not inside a
 quoted-string, section 5.6.4 of RFC 9110.  A value is its sequence of runes.
 */
module Directives {
  import opened Text

  datatype Lex = Lex(inQuotes: bool, escaped: bool)

  const START := Lex(false, false)

  function Next(l: Lex, c: char): Lex {
    if l.escaped then l.(escaped := false)
    else if c == '\\' && l.inQuotes then l.(escaped := true)
    else if c == '\"' then l.(inQuotes := !l.inQuotes)
    else l
  }

  predicate Separates(l: Lex, c: char) {
    c == ',' && l == START
  }

  /** The loop's state: directives completed, the one being built, and the quoting state. */
  datatype Scan = Scan(out: seq<string>, cur: string, lex: Lex)

  function StepScan(s: Scan, c: char): Scan {
    if Separates(s.lex, c) then Scan(s.out + [s.cur], "", s.lex) else Scan(s.out, s.cur + [c], Next(s.lex, c))
  }

  function Scanned(s: string): Scan {
    if s == "" then Scan([], "", START) else StepScan(Scanned(s[..|s| - 1]), s[|s| - 1])
  }

  function Split(s: string): (ds: seq<string>)
    ensures |ds| >= 1
  {
    Scanned(s).out + [Scanned(s).cur]
  }

  /** The value closes its quotes. */
  predicate Closed(s: string) {
    Scanned(s).lex == START
  }

  /** An escape only ever happens inside quotes, so a value that is not closed ends inside them. */
  lemma {:induction false} EscapedIsQuoted(s: string)
    ensures Scanned(s).lex.escaped ==> Scanned(s).lex.inQuotes
  {
    if s == "" {
    } else {
      EscapedIsQuoted(s[..|s| - 1]);
    }
  }

  method SplitDirectives(cc: string) returns (out: seq<string>)
    ensures out == Split(cc)
  {
    out := [];
    var b := "";
    var inQuotes, escaped := false, false;
    for i := 0 to |cc|
      invariant Scanned(cc[..i]) == Scan(out, b, Lex(inQuotes, escaped))
    {
      assert cc[..i + 1][..i] == cc[..i];
      EscapedIsQuoted(cc[..i]);
      var r := cc[i];
      if escaped {
        b := b + [r];
        escaped := false;
      } else if r == '\\' && inQuotes {
        b := b + [r];
        escaped := true;
      } else if r == '\"' {
        inQuotes := !inQuotes;
        b := b + [r];
      } else if r == ',' && !inQuotes {
        out := out + [b];
        b := "";
      } else {
        b := b + [r];
      }
    }
    assert cc[..|cc|] == cc;
    out := out + [b];
  }

  // ---------------------------------------------------------------- joining gives the value back

  function Join(ps: seq<string>): string
    requires |ps| >= 1
  {
    JoinOn(ps, ',')
  }

  lemma {:induction false} JoinSnoc(ps: seq<string>, p: string)
    requires |ps| >= 1
    ensures Join(ps + [p]) == Join(ps) + "," + p
  {
    assert (ps + [p])[..|ps|] == ps;
  }

  lemma {:induction false} JoinGrows(ps: seq<string>, p: string, c: char)
    ensures Join(ps + [p + [c]]) == Join(ps + [p]) + [c]
  {
    if |ps| >= 1 {
      JoinSnoc(ps, p);
      JoinSnoc(ps, p + [c]);
      assert Join(ps) + "," + (p + [c]) == Join(ps) + "," + p + [c];
    }
  }

  /** Joining the directives with commas gives back the value, for every value. */
  lemma {:induction false} JoinOfSplit(s: string)
    ensures Join(Split(s)) == s
  {
    if s == "" {
    } else {
      var t, c := s[..|s| - 1], s[|s| - 1];
      JoinOfSplit(t);
      assert s == t + [c];
      var sc := Scanned(t);
      if Separates(sc.lex, c) {
        JoinSnoc(sc.out + [sc.cur], "");
      } else {
        JoinGrows(sc.out, sc.cur, c);
      }
    }
  }

  // ---------------------------------------------------------------- several field lines

  lemma {:induction false} ScanSnoc(s: string, c: char)
    ensures Scanned(s + [c]) == StepScan(Scanned(s), c)
  {
    assert (s + [c])[..|s|] == s;
  }

  /** After a closed value and a comma the scan goes on as from the start. */
  lemma {:induction false} ScanAfterClosed(a: string, b: string)
    requires Closed(a)
    ensures Scanned(a + "," + b) == Scan(Split(a) + Scanned(b).out, Scanned(b).cur, Scanned(b).lex)
    decreases |b|
  {
    hide Scanned;
    if b == "" {
      ScanSnoc(a, ',');
      assert a + "," + b == a + [','];
      assert Scanned("") == Scan([], "", START) by { ScanEmpty(); }
      assert Split(a) + [] == Split(a);
    } else {
      var b', c := b[..|b| - 1], b[|b| - 1];
      ScanAfterClosed(a, b');
      ScanSnoc(b', c);
      assert b == b' + [c];
      ScanSnoc(a + "," + b', c);
      assert a + "," + b == a + "," + b' + [c];
      var sc := Scanned(b');
      assert Split(a) + (sc.out + [sc.cur]) == Split(a) + sc.out + [sc.cur];
    }
  }

  lemma {:induction false} ScanEmpty()
    ensures Scanned("") == Scan([], "", START)
  {
  }

  /** Reading on never takes back a completed directive and only extends the current one. */
  lemma {:induction false} ScanExtends(a: string, b: string)
    ensures var s, t := Scanned(a), Scanned(a + b);
            && |t.out| >= |s.out| && t.out[..|s.out|] == s.out
            && s.cur <= (t.out + [t.cur])[|s.out|]
    decreases |b|
  {
    hide Scanned;
    if b == "" {
      assert a + b == a;
    } else {
      var b', c := b[..|b| - 1], b[|b| - 1];
      ScanExtends(a, b');
      assert a + b == a + b' + [c];
      ScanSnoc(a + b', c);
    }
  }

  /** Two lines joined by a comma split into the directives of both if and only if the first closes its quotes. */
  lemma {:induction false} SplitTwo(a: string, b: string)
    ensures Split(a + "," + b) == Split(a) + Split(b) <==> Closed(a)
  {
    hide Scanned;
    if Closed(a) {
      ScanAfterClosed(a, b);
      var sc := Scanned(b);
      assert Split(a) + sc.out + [sc.cur] == Split(a) + (sc.out + [sc.cur]);
    } else {
      Unclosed(a, b, Split(b));
    }
  }

  /** The comma after an unclosed line is swallowed: the line's last directive grows by it. */
  lemma {:induction false} Unclosed(a: string, b: string, more: seq<string>)
    requires !Closed(a)
    ensures Split(a + "," + b) != Split(a) + more
  {
    hide Scanned;
    ScanSnoc(a, ',');
    ScanExtends(a + [','], b);
    assert a + [','] + b == a + "," + b;
    var s, n := Scanned(a), |Scanned(a).out|;
    assert (Split(a) + more)[n] == s.cur;
    assert |Split(a + "," + b)[n]| >= |s.cur| + 1;
  }

  function SplitAll(lines: seq<string>): seq<string> {
    if lines == [] then [] else SplitAll(lines[..|lines| - 1]) + Split(lines[|lines| - 1])
  }

  ghost predicate AllClosed(lines: seq<string>) {
    forall i :: 0 <= i < |lines| ==> Closed(lines[i])
  }

  lemma {:induction false} JoinClosed(lines: seq<string>)
    requires |lines| >= 1 && AllClosed(lines)
    ensures Closed(Join(lines))
  {
    hide Scanned;
    var n := |lines| - 1;
    if n > 0 {
      JoinClosed(lines[..n]);
      ScanAfterClosed(Join(lines[..n]), lines[n]);
    }
  }

  lemma {:induction false} SplitJoined(lines: seq<string>)
    requires |lines| >= 1 && AllClosed(lines[..|lines| - 1])
    ensures Split(Join(lines)) == SplitAll(lines)
  {
    hide Scanned, Split;
    var n := |lines| - 1;
    if n > 0 {
      var init := lines[..n];
      assert AllClosed(init[..n - 1]);
      SplitJoined(init);
      JoinClosed(init);
      SplitTwo(Join(init), lines[n]);
    } else {
      assert lines[..0] == [];
      assert [] + Split(lines[0]) == Split(lines[0]);
    }
  }

  lemma {:induction false} JoinTwoParts(a: seq<string>, b: seq<string>)
    requires |a| >= 1 && |b| >= 1
    ensures Join(a + b) == Join(a) + "," + Join(b)
    decreases |b|
  {
    var n := |b| - 1;
    if n == 0 {
      assert a + b == a + [b[0]];
      JoinSnoc(a, b[0]);
    } else {
      JoinTwoParts(a, b[..n]);
      assert (a + b)[..|a + b| - 1] == a + b[..n];
      assert Join(a) + "," + Join(b[..n]) + "," + b[n] == Join(a) + "," + (Join(b[..n]) + "," + b[n]);
    }
  }

  lemma {:induction false} SplitAllPrefix(lines: seq<string>, k: nat)
    requires k <= |lines|
    ensures |SplitAll(lines[..k])| <= |SplitAll(lines)| && SplitAll(lines)[..|SplitAll(lines[..k])|] == SplitAll(lines[..k])
  {
    hide Split;
    var n := |lines|;
    if k < n {
      SplitAllPrefix(lines[..n - 1], k);
      assert lines[..n - 1][..k] == lines[..k];
    } else {
      assert lines[..k] == lines;
    }
  }

  lemma {:induction false} AnUnclosedLine(lines: seq<string>, k: nat)
    requires k < |lines| - 1 && AllClosed(lines[..k]) && !Closed(lines[k])
    ensures Split(Join(lines)) != SplitAll(lines)
  {
    hide Scanned, Split;
    var head, tail := lines[..k + 1], lines[k + 1..];
    assert head[..k] == lines[..k];
    SplitJoined(head);
    assert !Closed(Join(head)) by { JoinUnclosed(head); }
    assert lines == head + tail;
    JoinTwoParts(head, tail);
    SplitAllPrefix(lines, k + 1);
    var m := |SplitAll(head)|;
    var rest := SplitAll(lines)[m..];
    assert SplitAll(lines) == SplitAll(head) + rest;
    Unclosed(Join(head), Join(tail), rest);
  }

  lemma {:induction false} JoinUnclosed(lines: seq<string>)
    requires |lines| >= 1 && AllClosed(lines[..|lines| - 1]) && !Closed(lines[|lines| - 1])
    ensures !Closed(Join(lines))
  {
    hide Scanned;
    var n := |lines| - 1;
    if n > 0 {
      JoinClosed(lines[..n]);
      ScanAfterClosed(Join(lines[..n]), lines[n]);
    }
  }

  /**
   Splitting the field lines joined by commas is the same as splitting each line, if and only if every line but the
   last closes its quotes.
   */
  lemma {:induction false} SplitJoinedIff(lines: seq<string>)
    requires |lines| >= 1
    ensures Split(Join(lines)) == SplitAll(lines) <==> AllClosed(lines[..|lines| - 1])
  {
    hide Split, Join, Closed;
    var init := lines[..|lines| - 1];
    if AllClosed(init) {
      SplitJoined(lines);
    } else {
      var k := FirstUnclosed(init);
      assert lines[..k] == init[..k];
      AnUnclosedLine(lines, k);
    }
  }

  lemma {:induction false} FirstUnclosed(lines: seq<string>) returns (k: nat)
    requires !AllClosed(lines)
    ensures k < |lines| && AllClosed(lines[..k]) && !Closed(lines[k])
  {
    hide Closed;
    k := 0;
    while k < |lines| && Closed(lines[k])
      invariant k <= |lines| && AllClosed(lines[..k])
    {
      k := k + 1;
    }
  }

  /** A scan of a directive finds just that directive, with its quotes closed or not as given. */
  ghost predicate Whole(d: string, lex: Lex) {
    Scanned(d) == Scan([], d, lex)
  }

  lemma {:induction false} ScanIsWhole(s: string)
    ensures var sc := Scanned(s);
            Whole(sc.cur, sc.lex) && forall i :: 0 <= i < |sc.out| ==> Whole(sc.out[i], START)
  {
    if s == "" {
    } else {
      var t, c := s[..|s| - 1], s[|s| - 1];
      ScanIsWhole(t);
      var sc := Scanned(t);
      assert Scanned(s) == StepScan(sc, c);
      ScanSnoc(sc.cur, c);
      assert Scanned("") == Scan([], "", START);
      hide Scanned;
    }
  }

  /** No directive contains a comma outside quotes: splitting one again gives it back whole. */
  lemma {:induction false} DirectivesAreWhole(s: string)
    ensures forall i :: 0 <= i < |Split(s)| ==> Split(Split(s)[i]) == [Split(s)[i]]
    ensures forall i :: 0 <= i < |Split(s)| - 1 ==> Closed(Split(s)[i])
  {
    hide Scanned;
    ScanIsWhole(s);
  }

  // ---------------------------------------------------------------- the grammar of quoted strings

  /** What stands between quotes: a character other than quote and backslash, or a backslash and any character. */
  datatype Piece = Text(c: char) | Pair(c: char)

  /** Text outside quotes, or a quoted string. */
  datatype Element = Bare(c: char) | Quoted(ps: seq<Piece>)

  function PieceText(p: Piece): string {
    if p.Text? then [p.c] else ['\\', p.c]
  }

  function Body(ps: seq<Piece>): string {
    if ps == [] then "" else Body(ps[..|ps| - 1]) + PieceText(ps[|ps| - 1])
  }

  function ElementText(e: Element): string {
    if e.Bare? then [e.c] else "\"" + Body(e.ps) + "\""
  }

  function Render(es: seq<Element>): string {
    if es == [] then "" else Render(es[..|es| - 1]) + ElementText(es[|es| - 1])
  }

  ghost predicate LegalPieces(ps: seq<Piece>) {
    forall i :: 0 <= i < |ps| ==> ps[i].Text? ==> ps[i].c != '\"' && ps[i].c != '\\'
  }

  ghost predicate LegalElement(e: Element) {
    if e.Bare? then e.c != '\"' else LegalPieces(e.ps)
  }

  ghost predicate Legal(es: seq<Element>) {
    forall i :: 0 <= i < |es| ==> LegalElement(es[i])
  }

  lemma {:induction false} BodySnoc(ps: seq<Piece>, p: Piece)
    ensures Body(ps + [p]) == Body(ps) + PieceText(p)
    ensures LegalPieces(ps) && (p.Text? ==> p.c != '\"' && p.c != '\\') ==> LegalPieces(ps + [p])
  {
    assert (ps + [p])[..|ps|] == ps;
  }

  lemma {:induction false} RenderSnoc(es: seq<Element>, e: Element)
    ensures Render(es + [e]) == Render(es) + ElementText(e)
    ensures Legal(es) && LegalElement(e) ==> Legal(es + [e])
  {
    assert (es + [e])[..|es|] == es;
  }

  /** Inside a quoted string nothing separates, and the string ends at the first quote that is not escaped. */
  lemma {:induction false} InsideQuotes(a: string, ps: seq<Piece>)
    requires Closed(a) && LegalPieces(ps)
    ensures Scanned(a + "\"" + Body(ps)) == Scan(Scanned(a).out, Scanned(a).cur + "\"" + Body(ps), Lex(true, false))
  {
    hide Scanned;
    var s := Scanned(a);
    if ps == [] {
      ScanSnoc(a, '\"');
      assert a + "\"" + Body(ps) == a + ['\"'] && s.cur + "\"" + Body(ps) == s.cur + ['\"'];
    } else {
      var init, p := ps[..|ps| - 1], ps[|ps| - 1];
      InsideQuotes(a, init);
      var t, cur := a + "\"" + Body(init), s.cur + "\"" + Body(init);
      assert a + "\"" + Body(ps) == t + PieceText(p);
      assert s.cur + "\"" + Body(ps) == cur + PieceText(p);
      PieceStep(t, s.out, cur, p);
    }
  }

  lemma {:induction false} PieceStep(t: string, out: seq<string>, cur: string, p: Piece)
    requires Scanned(t) == Scan(out, cur, Lex(true, false)) && (p.Text? ==> p.c != '\"' && p.c != '\\')
    ensures Scanned(t + PieceText(p)) == Scan(out, cur + PieceText(p), Lex(true, false))
  {
    hide Scanned;
    if p.Text? {
      ScanSnoc(t, p.c);
    } else {
      ScanSnoc(t, '\\');
      ScanSnoc(t + ['\\'], p.c);
      assert t + PieceText(p) == t + ['\\'] + [p.c];
      assert cur + PieceText(p) == cur + ['\\'] + [p.c];
    }
  }

  /** An element other than a comma goes to the current directive whole. */
  lemma {:induction false} ElementStaysWhole(a: string, e: Element)
    requires Closed(a) && LegalElement(e) && e != Bare(',')
    ensures Scanned(a + ElementText(e)) == Scan(Scanned(a).out, Scanned(a).cur + ElementText(e), START)
  {
    hide Scanned;
    if e.Bare? {
      ScanSnoc(a, e.c);
    } else {
      InsideQuotes(a, e.ps);
      var s, x := Scanned(a), "\"" + Body(e.ps);
      assert a + x == a + "\"" + Body(e.ps) && s.cur + x == s.cur + "\"" + Body(e.ps);
      ScanSnoc(a + x, '\"');
      assert a + ElementText(e) == a + x + ['\"'] && s.cur + ElementText(e) == s.cur + x + ['\"'];
    }
  }

  /** Elements grouped at their bare commas. */
  function Grouped(es: seq<Element>): (gs: seq<seq<Element>>)
    ensures |gs| >= 1
  {
    if es == [] then [[]]
    else
      var init, e := Grouped(es[..|es| - 1]), es[|es| - 1];
      if e == Bare(',') then init + [[]] else init[..|init| - 1] + [init[|init| - 1] + [e]]
  }

  function RenderAll(gs: seq<seq<Element>>): (ds: seq<string>)
    ensures |ds| == |gs| && forall i :: 0 <= i < |gs| ==> ds[i] == Render(gs[i])
  {
    seq(|gs|, i requires 0 <= i < |gs| => Render(gs[i]))
  }

  /** A value built by the grammar closes its quotes, and splits at its bare commas and nowhere else. */
  lemma {:induction false} SplitIsGrouping(es: seq<Element>)
    requires Legal(es)
    ensures Closed(Render(es)) && Split(Render(es)) == RenderAll(Grouped(es))
  {
    hide Scanned, Render, RenderAll, ElementText, LegalElement;
    if es == [] {
      ScanEmpty();
      RenderNone();
      assert RenderAll([[]]) == [""];
    } else {
      var init, e := es[..|es| - 1], es[|es| - 1];
      SplitIsGrouping(init);
      assert es == init + [e];
      RenderSnoc(init, e);
      if e == Bare(',') {
        CommaGroup(init);
      } else {
        ElementStaysWhole(Render(init), e);
        LastGroup(Scanned(Render(init)), Grouped(init), e);
      }
    }
  }

  lemma {:induction false} CommaGroup(init: seq<Element>)
    requires Closed(Render(init)) && Split(Render(init)) == RenderAll(Grouped(init))
    ensures Closed(Render(init) + ElementText(Bare(','))) && ElementText(Bare(',')) == [',']
    ensures Split(Render(init) + [',']) == RenderAll(Grouped(init) + [[]])
  {
    hide Scanned, Render;
    ScanSnoc(Render(init), ',');
    RenderNone();
    assert RenderAll(Grouped(init) + [[]]) == RenderAll(Grouped(init)) + [""];
  }

  lemma {:induction false} RenderNone()
    ensures Render([]) == ""
  {
  }

  lemma {:induction false} LastGroup(s: Scan, gs: seq<seq<Element>>, e: Element)
    requires |gs| >= 1 && s.out + [s.cur] == RenderAll(gs)
    ensures var last := gs[|gs| - 1];
            Render(last + [e]) == Render(last) + ElementText(e)
            && s.out + [s.cur + ElementText(e)] == RenderAll(gs[..|gs| - 1] + [last + [e]])
  {
    hide Render;
    var n := |gs| - 1;
    RenderSnoc(gs[n], e);
    var whole := s.out + [s.cur];
    assert |whole| == n + 1 && s.cur == whole[n] && s.out == whole[..n];
    assert s.cur == Render(gs[n]);
  }

  /** What has been read, cut before a quoted string that is still open. */
  ghost predicate ReadAs(s: string, es: seq<Element>, ps: seq<Piece>) {
    && Legal(es) && LegalPieces(ps)
    && s == (match Scanned(s).lex
             case Lex(false, _) => Render(es)
             case Lex(true, false) => Render(es) + "\"" + Body(ps)
             case Lex(true, true) => Render(es) + "\"" + Body(ps) + "\\")
  }

  lemma {:induction false} ReadsSome(s: string) returns (es: seq<Element>, ps: seq<Piece>)
    ensures ReadAs(s, es, ps)
  {
    hide Scanned, Render, Body, ReadAs;
    if s == "" {
      es, ps := [], [];
      ReadsNothing();
    } else {
      var t, c := s[..|s| - 1], s[|s| - 1];
      es, ps := ReadsSome(t);
      assert s == t + [c];
      if Scanned(t).lex.inQuotes {
        es, ps := ReadsInside(t, c, es, ps);
      } else {
        es, ps := ReadsOutside(t, c, es, ps);
      }
    }
  }

  lemma {:induction false} ReadsNothing()
    ensures ReadAs("", [], [])
  {
  }

  lemma {:induction false} ReadsOutside(t: string, c: char, es: seq<Element>, ps: seq<Piece>)
    returns (es': seq<Element>, ps': seq<Piece>)
    requires ReadAs(t, es, ps) && !Scanned(t).lex.inQuotes
    ensures ReadAs(t + [c], es', ps')
  {
    hide Scanned, Render, Body;
    EscapedIsQuoted(t);
    ScanSnoc(t, c);
    BodyNone();
    es', ps' := es, [];
    if c != '\"' {
      RenderSnoc(es, Bare(c));
      es' := es + [Bare(c)];
    } else {
      assert t + [c] == Render(es) + "\"" + "";
    }
  }

  lemma {:induction false} ReadsInside(t: string, c: char, es: seq<Element>, ps: seq<Piece>)
    returns (es': seq<Element>, ps': seq<Piece>)
    requires ReadAs(t, es, ps) && Scanned(t).lex.inQuotes
    ensures ReadAs(t + [c], es', ps')
  {
    hide Scanned, Render, Body;
    ScanSnoc(t, c);
    es', ps' := es, ps;
    if Scanned(t).lex.escaped {
      BodySnoc(ps, Pair(c));
      assert t + [c] == Render(es) + "\"" + (Body(ps) + ['\\', c]);
      ps' := ps + [Pair(c)];
    } else if c == '\"' {
      RenderSnoc(es, Quoted(ps));
      assert t + [c] == Render(es) + ("\"" + Body(ps) + "\"");
      es' := es + [Quoted(ps)];
    } else if c != '\\' {
      BodySnoc(ps, Text(c));
      assert t + [c] == Render(es) + "\"" + (Body(ps) + [c]);
      ps' := ps + [Text(c)];
    }
  }

  lemma {:induction false} BodyNone()
    ensures Body([]) == ""
  {
  }

  /** A value closes its quotes exactly if it is characters other than quotes and quoted strings, section 5.6.4 of RFC 9110. */
  lemma {:induction false} ClosedIff(s: string)
    ensures Closed(s) <==> exists es :: Legal(es) && s == Render(es)
  {
    hide Render, Legal;
    if Closed(s) {
      var es, ps := ReadsSome(s);
      assert s == Render(es);
    }
    if es :| Legal(es) && s == Render(es) {
      SplitIsGrouping(es);
    }
  }
}
