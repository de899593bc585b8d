/** What ParseVary reads, on the text of the field lines (internal/cache/cache.go). */
module VaryText {
  import opened CacheControl
  import opened FieldText
  import opened Options
  import opened Text

  /** An item of some line reads as `t` in white space; items stand between commas. */
  ghost predicate Holds(lines: seq<string>, k: nat, u: string, t: string, w: string) {
    k < |lines| && Blank(u) && Blank(w) && Trimmed(t, IsSpace) && IsItem(lines[k], u + t + w, ',')
  }

  ghost predicate Listed(lines: seq<string>, t: string) {
    exists k: nat, u, w :: Holds(lines, k, u, t, w)
  }

  lemma {:induction false} ItemsIff(lines: seq<string>, item: string)
    ensures item in Items(lines) <==> exists k :: 0 <= k < |lines| && IsItem(lines[k], item, ',')
  {
    hide SplitOn, IsItem;
    if lines == [] {
    } else {
      var init, last := lines[..|lines| - 1], lines[|lines| - 1];
      ItemsIff(init, item);
      PiecesAreItems(last, item, ',');
      if k :| 0 <= k < |init| && IsItem(init[k], item, ',') {
        assert IsItem(lines[k], item, ',');
      }
      if k :| 0 <= k < |lines| && IsItem(lines[k], item, ',') {
        assert k < |init| ==> IsItem(init[k], item, ',');
      }
    }
  }

  lemma {:induction false} ItemIsListed(lines: seq<string>, i: nat)
    requires i < |Items(lines)|
    ensures Listed(lines, TrimSpace(Items(lines)[i]))
  {
    hide IsItem, Items, TrimLeft, TrimRight, IsSpace;
    var item := Items(lines)[i];
    var u, w := TrimParts(item, IsSpace);
    ItemsIff(lines, item);
    var k :| 0 <= k < |lines| && IsItem(lines[k], item, ',');
    assert Holds(lines, k, u, TrimSpace(item), w);
  }

  lemma {:induction false} ListedIsItem(lines: seq<string>, t: string) returns (i: nat)
    requires Listed(lines, t)
    ensures i < |Items(lines)| && TrimSpace(Items(lines)[i]) == t
  {
    hide IsItem, Items, TrimLeft, TrimRight, IsSpace;
    var k: nat, u, w :| Holds(lines, k, u, t, w);
    ItemsIff(lines, u + t + w);
    TrimPadded(u, t, w, IsSpace);
    i :| 0 <= i < |Items(lines)| && Items(lines)[i] == u + t + w;
  }

  /**
   From the text of the header: Vary is usable if and only if no item on any line is a star, and then it names exactly the
   canonical forms of the items that are not empty.
   */
  lemma {:induction false} VaryIff(h: Header)
    ensures VaryOf(h).Some? <==> !Listed(Values(h, "Vary"), "*")
    ensures VaryOf(h).Some? ==>
              forall n :: n in VaryOf(h).value <==> exists t :: t != "" && Listed(Values(h, "Vary"), t) && n == Canonical(t)
  {
    hide TrimSpace, Canonical, VaryNames, Listed;
    var lines := Values(h, "Vary");
    var items := Items(lines);
    VaryUsableIff(items);
    forall i | 0 <= i < |items| ensures Listed(lines, TrimSpace(items[i])) {
      ItemIsListed(lines, i);
    }
    if Listed(lines, "*") {
      var i := ListedIsItem(lines, "*");
    }
    forall n ensures ListsName(items, n) <==> exists t :: t != "" && Listed(lines, t) && n == Canonical(t) {
      if t :| t != "" && Listed(lines, t) && n == Canonical(t) {
        var i := ListedIsItem(lines, t);
      }
    }
  }

  // ---------------------------------------------------------------- lists are read back in order

  ghost predicate Reads(item: string, u: string, name: string, w: string) {
    item == u + name + w && Blank(u) && Blank(w)
  }

  ghost predicate PadsOne(item: string, name: string) {
    ',' !in item && exists u, w :: Reads(item, u, name, w)
  }

  /** The items are the names in white space, without commas. */
  ghost predicate Pads(items: seq<string>, names: seq<string>) {
    && |items| == |names|
    && forall i :: 0 <= i < |items| ==> PadsOne(items[i], names[i])
  }

  function Concat(groups: seq<seq<string>>): seq<string> {
    if groups == [] then [] else Concat(groups[..|groups| - 1]) + groups[|groups| - 1]
  }

  /** Each line is its group of items joined by commas. */
  ghost predicate Joined(lines: seq<string>, groups: seq<seq<string>>) {
    && |lines| == |groups|
    && forall k :: 0 <= k < |lines| ==> |groups[k]| >= 1 && lines[k] == JoinOn(groups[k], ',')
  }

  ghost predicate NoCommas(items: seq<string>) {
    forall i :: 0 <= i < |items| ==> ',' !in items[i]
  }

  lemma {:induction false} ItemsOfJoined(lines: seq<string>, groups: seq<seq<string>>)
    requires Joined(lines, groups) && NoCommas(Concat(groups))
    ensures Items(lines) == Concat(groups)
  {
    hide SplitOn, JoinOn;
    if lines == [] {
    } else {
      var n := |lines| - 1;
      var init, last := Concat(groups[..n]), groups[n];
      assert Concat(groups) == init + last;
      assert NoCommas(init) && NoCommas(last) by {
        assert forall i :: 0 <= i < |init| ==> init[i] == Concat(groups)[i];
        assert forall i :: 0 <= i < |last| ==> last[i] == Concat(groups)[|init| + i];
      }
      ItemsOfJoined(lines[..n], groups[..n]);
      SplitOfJoinOn(last, ',');
    }
  }

  lemma {:induction false} NamesOfPadded(items: seq<string>, names: seq<string>)
    requires Pads(items, names) && AllSimple(names)
    ensures VaryNames(items) == Some(names)
  {
    hide TrimSpace, Canonical;
    if items == [] {
    } else {
      var n := |items| - 1;
      NamesOfPadded(items[..n], names[..n]);
      assert PadsOne(items[n], names[n]);
      var u, w :| Reads(items[n], u, names[n], w);
      TrimReads(items[n], u, names[n], w);
      assert names == names[..n] + [names[n]];
    }
  }

  lemma {:induction false} TrimReads(item: string, u: string, name: string, w: string)
    requires Reads(item, u, name, w) && TrimSpace(name) == name
    ensures TrimSpace(item) == name
  {
    hide TrimLeft, TrimRight, IsSpace;
    var u', w' := TrimParts(name, IsSpace);
    TrimPadded(u, name, w, IsSpace);
  }

  /**
   A list of names, spread over any number of lines in any grouping, joined by commas with white space around the names, is
   read back as it is, in order.
   */
  lemma {:induction false} VaryRoundTrip(h: Header, groups: seq<seq<string>>, names: seq<string>)
    requires Joined(Values(h, "Vary"), groups) && Pads(Concat(groups), names) && AllSimple(names)
    ensures VaryOf(h) == Some(names)
  {
    hide Items, VaryNames, Simple;
    ItemsOfJoined(Values(h, "Vary"), groups);
    NamesOfPadded(Concat(groups), names);
  }
}
