/**
 What Cache-Control parsing means on the text of a directive (internal/cache/cache.go), without the functions that do the
 cutting, trimming and lower-casing.
 */
module FieldText {
  import opened CacheControl
  import opened Directives
  import opened Options
  import opened Text

  // ---------------------------------------------------------------- trimming

  ghost predicate Only(s: string, cut: char -> bool) {
    forall i :: 0 <= i < |s| ==> cut(s[i])
  }

  ghost predicate Trimmed(t: string, cut: char -> bool) {
    t == "" || (!cut(t[0]) && !cut(t[|t| - 1]))
  }

  lemma {:induction false} LeftPart(u: string, t: string, cut: char -> bool)
    requires Only(u, cut) && (t == "" || !cut(t[0]))
    ensures TrimLeft(u + t, cut) == t
  {
    if u == "" {
      assert u + t == t;
    } else {
      LeftPart(u[1..], t, cut);
      assert (u + t)[1..] == u[1..] + t;
    }
  }

  lemma {:induction false} RightPart(t: string, w: string, cut: char -> bool)
    requires Only(w, cut) && (t == "" || !cut(t[|t| - 1]))
    ensures TrimRight(t + w, cut) == t
  {
    var n := |w| - 1;
    if w == "" {
      assert t + w == t;
    } else {
      RightPart(t, w[..n], cut);
      assert (t + w)[..|t + w| - 1] == t + w[..n];
    }
  }

  lemma {:induction false} TrimPadded(u: string, t: string, w: string, cut: char -> bool)
    requires Only(u, cut) && Only(w, cut) && Trimmed(t, cut)
    ensures TrimRight(TrimLeft(u + t + w, cut), cut) == t
  {
    if t == "" {
      assert u + t + w == (u + w) + "";
      LeftPart(u + w, "", cut);
    } else {
      assert u + t + w == u + (t + w);
      LeftPart(u, t + w, cut);
      RightPart(t, w, cut);
    }
  }

  lemma {:induction false} LeftOff(s: string, cut: char -> bool) returns (u: string)
    ensures var t := TrimLeft(s, cut); s == u + t && Only(u, cut) && (t == "" || !cut(t[0]))
  {
    u := "";
    if s != "" && cut(s[0]) {
      u := LeftOff(s[1..], cut);
      u := [s[0]] + u;
    }
  }

  lemma {:induction false} RightOff(s: string, cut: char -> bool) returns (w: string)
    ensures var t := TrimRight(s, cut); s == t + w && Only(w, cut) && (t == "" || !cut(t[|t| - 1]))
  {
    w := "";
    if s != "" && cut(s[|s| - 1]) {
      w := RightOff(s[..|s| - 1], cut);
      w := w + [s[|s| - 1]];
    }
  }

  /** Trimming takes such characters off both ends, all of them, and nothing else. */
  lemma {:induction false} TrimParts(s: string, cut: char -> bool) returns (u: string, w: string)
    ensures var t := TrimRight(TrimLeft(s, cut), cut);
            s == u + t + w && Only(u, cut) && Only(w, cut) && Trimmed(t, cut)
  {
    u := LeftOff(s, cut);
    var l := TrimLeft(s, cut);
    w := RightOff(l, cut);
    var t := TrimRight(l, cut);
    assert t != "" ==> t[0] == l[0];
  }

  ghost predicate Blank(s: string) {
    Only(s, IsSpace)
  }

  // ---------------------------------------------------------------- directive names

  /** The letter itself or its capital; two further runes have an ASCII letter for lower case. */
  predicate Spells(c: char, lower: char) {
    c == lower || (IsUpper(c) && lower == c + ' ') || (c == '\U{130}' && lower == 'i') || (c == '\U{212A}' && lower == 'k')
  }

  ghost predicate Spelling(s: string, n: string) {
    |s| == |n| && forall i :: 0 <= i < |s| ==> Spells(s[i], n[i])
  }

  /** A name in lower-case letters and hyphens. */
  predicate LowerName(n: string) {
    n != "" && forall i :: 0 <= i < |n| ==> IsLower(n[i]) || n[i] == '-'
  }

  /** The name in any case, in white space, with or without an argument. */
  ghost predicate Reads(d: string, u: string, s: string, w: string, n: string) {
    && Blank(u) && Blank(w) && Spelling(s, n)
    && (d == u + s + w || exists v :: d == u + s + w + "=" + v)
  }

  ghost predicate Named(d: string, n: string) {
    exists u, s, w :: Reads(d, u, s, w, n)
  }

  /** Text that lower-casing would leave alone. */
  predicate Lowered(n: string) {
    forall i :: 0 <= i < |n| ==> !IsUpper(n[i]) && n[i] != '\U{130}' && n[i] != '\U{212A}'
  }

  lemma {:induction false} ToLowerIsLowered(s: string)
    ensures Lowered(ToLower(s))
  {
    forall i | 0 <= i < |s| ensures !IsUpper(ToLower(s)[i]) && ToLower(s)[i] != '\U{130}' && ToLower(s)[i] != '\U{212A}' {
      assert ToLower(s)[i] == Lower(s[i]);
    }
  }

  lemma {:induction false} LowerIff(s: string, n: string)
    requires Lowered(n)
    ensures ToLower(s) == n <==> Spelling(s, n)
  {
    if ToLower(s) == n {
      forall i | 0 <= i < |s| ensures Spells(s[i], n[i]) {
        assert ToLower(s)[i] == Lower(s[i]);
      }
    }
    if Spelling(s, n) {
      forall i | 0 <= i < |s| ensures Lower(s[i]) == n[i] {
        assert Spells(s[i], n[i]);
      }
      assert ToLower(s) == n;
    }
  }

  lemma {:induction false} SpellingIsTrimmed(s: string, n: string)
    requires LowerName(n) && Spelling(s, n)
    ensures Trimmed(s, IsSpace) && '=' !in s
  {
    assert forall i :: 0 <= i < |s| ==> Spells(s[i], n[i]);
    forall i | 0 <= i < |s| ensures !IsSpace(s[i]) && s[i] != '=' {
      LetterIsSolid(s[i], n[i]);
    }
  }

  lemma {:induction false} LetterIsSolid(c: char, l: char)
    requires Spells(c, l) && (IsLower(l) || l == '-')
    ensures !IsSpace(c) && c != '='
  {
  }

  lemma {:induction false} BlankHasNoEquals(u: string)
    requires Blank(u)
    ensures '=' !in u
  {
    assert !IsSpace('=');
  }

  /** A directive has a name exactly if its text reads so. */
  lemma {:induction false} NameIff(d: string, n: string)
    requires LowerName(n)
    ensures Name(d) == n <==> Named(d, n)
  {
    hide IsSpace, ToLower, Spelling, TrimLeft, TrimRight;
    if Name(d) == n {
      var b := Before(d, '=');
      CutWhole(d, '=');
      var u, w := TrimParts(b, IsSpace);
      LowerIff(TrimSpace(b), n);
      assert Reads(d, u, TrimSpace(b), w, n) by {
        if '=' in d {
          assert d == u + TrimSpace(b) + w + "=" + After(d, '=');
        }
      }
    }
    if u, s, w :| Reads(d, u, s, w, n) {
      var b := u + s + w;
      SpellingIsTrimmed(s, n);
      BlankHasNoEquals(u);
      BlankHasNoEquals(w);
      assert Before(d, '=') == b by {
        CutJoined(b, "", '=');
        if d != b {
          var v :| d == b + "=" + v;
          CutJoined(b, v, '=');
          assert d == b + ['='] + v;
        }
      }
      TrimPadded(u, s, w, IsSpace);
      LowerIff(s, n);
    }
  }

  ghost predicate NamedIn(ds: seq<string>, n: string) {
    exists i :: 0 <= i < |ds| && Named(ds[i], n)
  }

  lemma {:induction false} MentionsIff(ds: seq<string>, n: string)
    requires LowerName(n)
    ensures Mentions(ds, n) <==> NamedIn(ds, n)
  {
    hide Name, Named;
    forall i | 0 <= i < |ds| ensures Name(ds[i]) == n <==> Named(ds[i], n) {
      NameIff(ds[i], n);
    }
  }

  lemma {:induction false} FlagNames()
    ensures LowerName("no-store") && LowerName("no-cache") && LowerName("private") && LowerName("public")
    ensures LowerName("must-revalidate") && LowerName("max-age") && LowerName("s-maxage")
  {
  }

  /** Each flag is set exactly if the text of some directive reads as its name. */
  lemma {:induction false} FlagsAreText(ds: seq<string>)
    ensures var c := Absorbed(ds);
            && (c.noStore <==> NamedIn(ds, "no-store")) && (c.noCache <==> NamedIn(ds, "no-cache"))
            && (c.priv <==> NamedIn(ds, "private")) && (c.pub <==> NamedIn(ds, "public"))
            && (c.mustRevalidate <==> NamedIn(ds, "must-revalidate"))
  {
    hide LowerName, Mentions, NamedIn, Absorbed;
    FlagNames();
    FlagsAreMentions(ds);
    MentionsIff(ds, "no-store");
    MentionsIff(ds, "no-cache");
    MentionsIff(ds, "private");
    MentionsIff(ds, "public");
    MentionsIff(ds, "must-revalidate");
  }

  // ---------------------------------------------------------------- numbers

  function Digit(n: nat): char
    requires n < 10
  {
    '0' + n as char
  }

  /** Decimal notation. */
  function Numeral(n: nat): (s: string)
    ensures s != "" && AllDigits(s)
  {
    if n < 10 then [Digit(n)] else Numeral(n / 10) + [Digit(n % 10)]
  }

  ghost predicate Zeros(z: string) {
    forall i :: 0 <= i < |z| ==> z[i] == '0'
  }

  lemma {:induction false} DigitsSnoc(s: string, c: char)
    requires AllDigits(s) && '0' <= c <= '9'
    ensures AllDigits(s + [c]) && Digits(s + [c]) == Digits(s) * 10 + (c - '0') as int
  {
    assert (s + [c])[..|s|] == s;
  }

  lemma {:induction false} DigitsOfNumeral(z: string, n: nat)
    requires Zeros(z)
    ensures AllDigits(z + Numeral(n)) && Digits(z + Numeral(n)) == n
  {
    hide Digits;
    if n < 10 {
      DigitsOfZeros(z);
      DigitsSnoc(z, Digit(n));
    } else {
      DigitsOfNumeral(z, n / 10);
      DigitsSnoc(z + Numeral(n / 10), Digit(n % 10));
      assert z + Numeral(n) == z + Numeral(n / 10) + [Digit(n % 10)];
    }
  }

  lemma {:induction false} DigitsOfZeros(z: string)
    requires Zeros(z)
    ensures AllDigits(z) && Digits(z) == 0
  {
    if z == "" {
    } else {
      DigitsOfZeros(z[..|z| - 1]);
    }
  }

  lemma {:induction false} NumeralSnoc(n: nat, c: char)
    requires '0' <= c <= '9'
    ensures var d := (c - '0') as int;
            Numeral(d) == [c] && (n > 0 ==> Numeral(n * 10 + d) == Numeral(n) + [c])
  {
    var d := (c - '0') as int;
    assert Digit(d) == c;
    assert (n * 10 + d) / 10 == n && (n * 10 + d) % 10 == d;
  }

  /** One more digit after zeros and a numeral. */
  lemma {:induction false} NextDigit(z: string, n: nat, c: char) returns (z': string)
    requires Zeros(z) && '0' <= c <= '9'
    ensures Zeros(z') && z + Numeral(n) + [c] == z' + Numeral(n * 10 + (c - '0') as int)
  {
    hide Numeral;
    NumeralSnoc(n, c);
    z' := z;
    if n == 0 {
      NumeralSnoc(0, '0');
      z' := z + "0";
    } else {
      assert z + Numeral(n) + [c] == z + (Numeral(n) + [c]);
    }
  }

  /** Digits are the numeral of their number after some zeros. */
  lemma {:induction false} NumeralOfDigits(s: string) returns (z: string)
    requires s != "" && AllDigits(s)
    ensures Zeros(z) && s == z + Numeral(Digits(s))
  {
    hide Digits, Numeral;
    var t, c := s[..|s| - 1], s[|s| - 1];
    assert s == t + [c];
    DigitsSnoc(t, c);
    if t == "" {
      z := "";
      DigitsOfZeros(t);
      NumeralSnoc(0, c);
    } else {
      z := NumeralOfDigits(t);
      z := NextDigit(z, Digits(t), c);
    }
  }

  function Abs(n: int): nat {
    if n < 0 then -n else n
  }

  /** A sign or none, zeros, and the numeral. */
  ghost predicate Written(s: string, sign: string, z: string, n: int) {
    && s == sign + (z + Numeral(Abs(n))) && Zeros(z)
    && (if sign == "-" then n <= 0 else (sign == "" || sign == "+") && n >= 0)
  }

  ghost predicate IsInteger(s: string, n: int) {
    -MAX_INT - 1 <= n <= MAX_INT && exists sign, z :: Written(s, sign, z, n)
  }

  lemma {:induction false} AtoiIff(s: string, n: int)
    ensures Atoi(s) == Some(n) <==> IsInteger(s, n)
  {
    hide Atoi, Written;
    if Atoi(s) == Some(n) {
      AtoiReads(s, n);
    }
    if IsInteger(s, n) {
      var sign, z :| Written(s, sign, z, n);
      AtoiOfWritten(s, sign, z, n);
    }
  }

  lemma {:induction false} AtoiReads(s: string, n: int)
    requires Atoi(s) == Some(n)
    ensures IsInteger(s, n)
  {
    hide Digits, Numeral;
    var signed := s[0] == '-' || s[0] == '+';
    var sign, digits := if signed then [s[0]] else "", if signed then s[1..] else s;
    var z := NumeralOfDigits(digits);
    assert s == sign + digits;
    assert Written(s, sign, z, n);
  }

  lemma {:induction false} AtoiOfWritten(s: string, sign: string, z: string, n: int)
    requires -MAX_INT - 1 <= n <= MAX_INT && Written(s, sign, z, n)
    ensures Atoi(s) == Some(n)
  {
    hide Digits, Numeral;
    DigitsOfNumeral(z, Abs(n));
    var digits := z + Numeral(Abs(n));
    if sign == "" {
      assert s == digits && '0' <= s[0] <= '9';
    } else {
      assert s[0] == sign[0] && s[1..] == digits;
    }
  }

  /** An integer, bare or in quotes, in white space. */
  ghost predicate Padded(v: string, x: string, q: string, s: string, q': string, y: string, n: int) {
    v == x + (q + s + q') + y && Blank(x) && Blank(y) && Only(q, IsQuote) && Only(q', IsQuote) && IsInteger(s, n)
  }

  ghost predicate ArgumentIs(v: string, n: int) {
    exists x, q, s, q', y :: Padded(v, x, q, s, q', y, n)
  }

  lemma {:induction false} IntegerIsSolid(s: string, n: int)
    requires IsInteger(s, n)
    ensures s != "" && Trimmed(s, IsQuote) && forall i :: 0 <= i < |s| ==> !IsSpace(s[i])
  {
    hide Numeral;
    var sign, z :| Written(s, sign, z, n);
    assert forall i :: 0 <= i < |s| ==> s[i] == '-' || s[i] == '+' || '0' <= s[i] <= '9';
  }

  lemma {:induction false} ArgumentIff(v: string, n: int)
    ensures Atoi(TrimQuotes(TrimSpace(v))) == Some(n) <==> ArgumentIs(v, n)
  {
    hide IsSpace, TrimLeft, TrimRight, Atoi, IsInteger;
    if Atoi(TrimQuotes(TrimSpace(v))) == Some(n) {
      var x, y := TrimParts(v, IsSpace);
      var q, q' := TrimParts(TrimSpace(v), IsQuote);
      AtoiIff(TrimQuotes(TrimSpace(v)), n);
      assert Padded(v, x, q, TrimQuotes(TrimSpace(v)), q', y, n);
    }
    if x, q, s, q', y :| Padded(v, x, q, s, q', y, n) {
      IntegerIsSolid(s, n);
      QuotedIsSolid(q, s, q');
      TrimPadded(x, q + s + q', y, IsSpace);
      TrimPadded(q, s, q', IsQuote);
      AtoiIff(s, n);
    }
  }

  lemma {:induction false} QuotedIsSolid(q: string, s: string, q': string)
    requires Only(q, IsQuote) && Only(q', IsQuote) && forall i :: 0 <= i < |s| ==> !IsSpace(s[i])
    ensures Trimmed(q + s + q', IsSpace)
  {
    assert !IsSpace('\"');
    hide IsSpace;
    assert forall i :: 0 <= i < |q + s + q'| ==> !IsSpace((q + s + q')[i]);
  }

  // ---------------------------------------------------------------- ages

  /** `name = n`, with white space around both and quotes around the number. */
  ghost predicate Assigns(d: string, u: string, s: string, w: string, v: string, name: string, n: int) {
    d == u + s + w + "=" + v && Blank(u) && Blank(w) && Spelling(s, name) && ArgumentIs(v, n)
  }

  ghost predicate ReadsAge(d: string, name: string, n: int) {
    exists u, s, w, v :: Assigns(d, u, s, w, v, name, n)
  }

  lemma {:induction false} AgeIff(d: string, name: string, n: int)
    requires LowerName(name)
    ensures Name(d) == name && Value(d) == Some(n) <==> ReadsAge(d, name, n)
  {
    hide Name, Spelling, LowerName, Blank, Atoi, TrimSpace, TrimQuotes, ArgumentIs;
    if Name(d) == name && Value(d) == Some(n) {
      ArgumentIff(After(d, '='), n);
      NameIff(d, name);
      var u, s, w :| Reads(d, u, s, w, name);
      assert '=' !in u + s + w by { NoEquals(u, s, w, name); }
      if d == u + s + w {
        NoArgument(d);
      } else {
        var v :| d == u + s + w + "=" + v;
        CutJoined(u + s + w, v, '=');
        assert d == u + s + w + ['='] + v;
        assert Assigns(d, u, s, w, v, name, n);
      }
    }
    if u, s, w, v :| Assigns(d, u, s, w, v, name, n) {
      assert Reads(d, u, s, w, name);
      NameIff(d, name);
      NoEquals(u, s, w, name);
      CutJoined(u + s + w, v, '=');
      assert d == u + s + w + ['='] + v;
      ArgumentIff(v, n);
    }
  }

  lemma {:induction false} NoEquals(u: string, s: string, w: string, name: string)
    requires Blank(u) && Blank(w) && LowerName(name) && Spelling(s, name)
    ensures '=' !in u + s + w
  {
    hide Blank, LowerName, Spelling;
    SpellingIsTrimmed(s, name);
    BlankHasNoEquals(u);
    BlankHasNoEquals(w);
  }

  lemma {:induction false} NoArgument(d: string)
    requires '=' !in d
    ensures Value(d) == None
  {
    AfterNone(d, '=');
  }

  lemma {:induction false} AfterNone(d: string, c: char)
    requires c !in d
    ensures After(d, c) == ""
  {
    if d == "" {
    } else {
      AfterNone(d[1..], c);
    }
  }

  ghost predicate ReadsAtLeast(d: string, name: string, floor: int) {
    exists n :: n >= floor && ReadsAge(d, name, n)
  }

  /** The directive at `i` is the last with that name and a number of at least `floor`, and its number is `n`. */
  ghost predicate LastReads(ds: seq<string>, name: string, floor: int, i: nat, n: int) {
    && i < |ds| && n >= floor && ReadsAge(ds[i], name, n)
    && forall j :: i < j < |ds| ==> !ReadsAtLeast(ds[j], name, floor)
  }

  ghost predicate NoneReads(ds: seq<string>, name: string, floor: int) {
    forall j :: 0 <= j < |ds| ==> !ReadsAtLeast(ds[j], name, floor)
  }

  lemma {:induction false} GivesIff(d: string, kind: Kind, name: string, floor: int)
    requires LowerName(name) && (KindOf(Name(d)) == kind <==> Name(d) == name)
    ensures GivesAge(d, kind, floor) <==> ReadsAtLeast(d, name, floor)
    ensures forall n :: GivesAge(d, kind, floor) && ReadsAge(d, name, n) ==> Value(d) == Some(n)
  {
    hide Name, Value, KindOf, LowerName, ReadsAge;
    forall n ensures Name(d) == name && Value(d) == Some(n) <==> ReadsAge(d, name, n) {
      AgeIff(d, name, n);
    }
    if GivesAge(d, kind, floor) {
      assert ReadsAge(d, name, Value(d).value);
    }
  }

  lemma {:induction false} LastAgeIs(ds: seq<string>, kind: Kind, name: string, floor: int)
    requires LowerName(name) && forall s :: KindOf(s) == kind <==> s == name
    ensures LastAge(ds, kind, floor).None? <==> NoneReads(ds, name, floor)
    ensures forall i: nat, n :: LastReads(ds, name, floor, i, n) ==> LastAge(ds, kind, floor) == Some(Seconds(n))
  {
    hide Name, Value, KindOf, LowerName, ReadsAge, ReadsAtLeast, GivesAge, Seconds;
    if ds == [] {
    } else {
      var init, d := ds[..|ds| - 1], ds[|ds| - 1];
      LastAgeIs(init, kind, name, floor);
      GivesIff(d, kind, name, floor);
      forall i: nat, n | LastReads(ds, name, floor, i, n) ensures LastAge(ds, kind, floor) == Some(Seconds(n)) {
        if i == |ds| - 1 {
          assert ReadsAtLeast(d, name, floor) by { AtLeast(d, name, floor, n); }
        } else {
          assert LastReads(init, name, floor, i, n);
        }
      }
    }
  }

  lemma {:induction false} AtLeast(d: string, name: string, floor: int, n: int)
    requires n >= floor && ReadsAge(d, name, n)
    ensures ReadsAtLeast(d, name, floor)
  {
  }

  /** The ages are those of the last max-age with a positive number and of the last s-maxage with a number, read off the text. */
  lemma {:induction false} AgesAreText(ds: seq<string>)
    ensures var c := Absorbed(ds);
            && (NoneReads(ds, "max-age", 1) ==> c.maxAge == 0)
            && (forall i: nat, n :: LastReads(ds, "max-age", 1, i, n) ==> c.maxAge == Seconds(n))
            && (c.hasSMaxAge <==> !NoneReads(ds, "s-maxage", 0))
            && (forall i: nat, n :: LastReads(ds, "s-maxage", 0, i, n) ==> c.sMaxAge == Seconds(n))
  {
    hide KindOf, LowerName, Seconds, Absorbed, LastAge, NoneReads, LastReads;
    FlagNames();
    AgesAreLast(ds);
    forall s ensures (KindOf(s) == MaxAge <==> s == "max-age") && (KindOf(s) == SMaxAge <==> s == "s-maxage") {
      KindsByName(s);
    }
    LastAgeIs(ds, MaxAge, "max-age", 1);
    LastAgeIs(ds, SMaxAge, "s-maxage", 0);
  }

  // ---------------------------------------------------------------- directives in a value

  /** The text before is empty, or closes its quotes and then has a comma. */
  ghost predicate Starts(a: string) {
    a == "" || (a[|a| - 1] == ',' && Closed(a[..|a| - 1]))
  }

  /** Somewhere the value reads as the name, in any case and white space, up to its end, a comma or an equals sign. */
  ghost predicate Says(cc: string, a: string, u: string, s: string, w: string, rest: string, n: string) {
    && cc == a + (u + s + w) + rest && Starts(a) && Blank(u) && Blank(w) && Spelling(s, n)
    && (rest == "" || rest[0] == ',' || rest[0] == '=')
  }

  ghost predicate Stated(cc: string, n: string) {
    exists a, u, s, w, rest :: Says(cc, a, u, s, w, rest, n)
  }

  lemma {:induction false} NameIsPlain(u: string, s: string, w: string, n: string)
    requires Blank(u) && Blank(w) && LowerName(n) && Spelling(s, n)
    ensures var d := u + s + w; ',' !in d && '\"' !in d && '=' !in d
  {
    assert !IsSpace(',') && !IsSpace('\"') && !IsSpace('=');
    hide IsSpace;
    forall i | 0 <= i < |s| ensures s[i] != ',' && s[i] != '\"' && s[i] != '=' {
      assert Spells(s[i], n[i]);
    }
  }

  /** The directive that begins where `d` does begins with `d`, and is `d` if a comma or the end follows. */
  lemma {:induction false} BeginsWith(d: string, b: string)
    requires ',' !in d && '\"' !in d
    ensures d <= Split(d + b)[0]
    ensures b == "" || b[0] == ',' ==> Split(d + b)[0] == d
  {
    hide Scanned;
    NoCommaSplit(d);
    NoQuoteIsClosed(d);
    ScanExtends(d, b);
    if b == "" {
      assert d + b == d;
    } else if b[0] == ',' {
      assert d + b == d + "," + b[1..];
      SplitTwo(d, b[1..]);
    }
  }

  lemma {:induction false} StandsAt(a: string, d: string, b: string) returns (k: nat)
    requires Starts(a) && ',' !in d && '\"' !in d
    ensures var ds := Split(a + d + b); k < |ds| && d <= ds[k] && (b == "" || b[0] == ',' ==> ds[k] == d)
  {
    hide Split, Closed;
    BeginsWith(d, b);
    k := 0;
    if a == "" {
      assert a + d + b == d + b;
    } else {
      var a' := a[..|a| - 1];
      assert a + d + b == a' + "," + (d + b);
      SplitTwo(a', d + b);
      k := |Split(a')|;
    }
  }

  lemma {:induction false} StatedIsNamed(cc: string, a: string, u: string, s: string, w: string, rest: string, n: string)
    requires LowerName(n) && Says(cc, a, u, s, w, rest, n)
    ensures NamedIn(Split(cc), n)
  {
    hide Starts, LowerName, Split, Blank, Spelling, Name;
    var d := u + s + w;
    NameIsPlain(u, s, w, n);
    assert Reads(d, u, s, w, n);
    NameIff(d, n);
    if rest == "" || rest[0] == ',' {
      var k := StandsAt(a, d, rest);
    } else {
      var d' := d + "=";
      assert cc == a + d' + rest[1..];
      var k := StandsAt(a, d', rest[1..]);
      assert d' == d + "=" + "";
      assert Reads(d', u, s, w, n);
      NameIff(d', n);
      LongerSameName(d', Split(cc)[k]);
      NameIff(Split(cc)[k], n);
    }
  }

  /** A directive of a value stands in it: closed text and a comma before it, a comma after it. */
  lemma {:induction false} StandsIn(cc: string, k: nat) returns (a: string, b: string)
    requires k < |Split(cc)|
    ensures cc == a + Split(cc)[k] + b && Starts(a) && (b == "" || b[0] == ',')
  {
    hide Split, Closed, Join;
    var ds := Split(cc);
    JoinOfSplit(cc);
    DirectivesAreWhole(cc);
    var head, tail := ds[..k], ds[k + 1..];
    assert ds == head + ([ds[k]] + tail);
    a, b := "", "";
    assert Join([ds[k]]) == ds[k] by { JoinOne(ds[k], ','); JoinIs([ds[k]]); }
    if tail != [] {
      JoinTwoParts([ds[k]], tail);
      b := "," + Join(tail);
      assert Join([ds[k]] + tail) == ds[k] + b;
    } else {
      assert [ds[k]] + tail == [ds[k]];
    }
    if head != [] {
      JoinTwoParts(head, [ds[k]] + tail);
      JoinClosed(head);
      a := Join(head) + ",";
      assert a[..|a| - 1] == Join(head);
    } else {
      assert ds == [ds[k]] + tail;
    }
  }

  lemma {:induction false} JoinIs(ps: seq<string>)
    requires |ps| >= 1
    ensures Join(ps) == JoinOn(ps, ',')
  {
  }

  lemma {:induction false} NamedIsStated(cc: string, n: string)
    requires NamedIn(Split(cc), n)
    ensures Stated(cc, n)
  {
    hide Starts, Split, Blank, Spelling;
    var k :| 0 <= k < |Split(cc)| && Named(Split(cc)[k], n);
    var u, s, w :| Reads(Split(cc)[k], u, s, w, n);
    var a, b := StandsIn(cc, k);
    if Split(cc)[k] == u + s + w {
      assert Says(cc, a, u, s, w, b, n);
    } else {
      var v :| Split(cc)[k] == u + s + w + "=" + v;
      assert a + (u + s + w + "=" + v) + b == a + (u + s + w) + ("=" + v + b);
      assert Says(cc, a, u, s, w, "=" + v + b, n);
    }
  }

  lemma {:induction false} StatedIff(cc: string, n: string)
    requires LowerName(n)
    ensures Stated(cc, n) <==> NamedIn(Split(cc), n)
  {
    hide Says, LowerName, NamedIn, Split;
    if NamedIn(Split(cc), n) {
      NamedIsStated(cc, n);
    }
    if a, u, s, w, rest :| Says(cc, a, u, s, w, rest, n) {
      StatedIsNamed(cc, a, u, s, w, rest, n);
    }
  }

  /**
   On the text of a whole value: each flag is set if and only if the value somewhere, outside quotes, reads as its name, in any
   case and white space, with any argument or none.
   */
  lemma {:induction false} FlagsIff(cc: string)
    ensures var c := Absorbed(Split(cc));
            && (c.noStore <==> Stated(cc, "no-store")) && (c.noCache <==> Stated(cc, "no-cache"))
            && (c.priv <==> Stated(cc, "private")) && (c.pub <==> Stated(cc, "public"))
            && (c.mustRevalidate <==> Stated(cc, "must-revalidate"))
  {
    hide LowerName, Split, Absorbed, NamedIn, Stated;
    FlagNames();
    FlagsAreText(Split(cc));
    StatedIff(cc, "no-store");
    StatedIff(cc, "no-cache");
    StatedIff(cc, "private");
    StatedIff(cc, "public");
    StatedIff(cc, "must-revalidate");
  }

  /** A max-age of n seconds gives n seconds, in any case and white space, bare or quoted, up to the range of durations. */
  lemma {:induction false} MaxAgeRoundTrip(u: string, s: string, w: string, x: string, q: string, q': string, y: string, n: nat)
    requires Blank(u) && Blank(w) && Blank(x) && Blank(y) && Spelling(s, "max-age")
    requires Only(q, IsQuote) && Only(q', IsQuote) && 1 <= n <= 9_223_372_036
    ensures Absorbed(Split(u + s + w + "=" + (x + (q + Numeral(n) + q') + y))).maxAge == n * SECOND
  {
    hide Blank, Only, Spelling, Numeral, Absorbed, Seconds, Split;
    var v := x + (q + Numeral(n) + q') + y;
    var d := u + s + w + "=" + v;
    NumeralIsInteger(n);
    assert Padded(v, x, q, Numeral(n), q', y, n);
    assert Assigns(d, u, s, w, v, "max-age", n);
    AgesAreText([d]);
    assert LastReads([d], "max-age", 1, 0, n);
    SecondsExactIff(n);
    assert ',' !in d by {
      FlagNames();
      NameIsPlain(u, s, w, "max-age");
      NoComma(x, q, n, q', y);
    }
    NoCommaSplit(d);
  }

  lemma {:induction false} NoComma(x: string, q: string, n: nat, q': string, y: string)
    requires Blank(x) && Blank(y) && Only(q, IsQuote) && Only(q', IsQuote)
    ensures ',' !in x + (q + Numeral(n) + q') + y
  {
    assert !IsSpace(',');
    hide IsSpace, Numeral;
  }

  lemma {:induction false} NumeralIsInteger(n: nat)
    requires n <= MAX_INT
    ensures IsInteger(Numeral(n), n)
  {
    hide Numeral;
    assert Numeral(n) == "" + ("" + Numeral(Abs(n)));
    assert Written(Numeral(n), "", "", n);
  }
}
