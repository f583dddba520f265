/** grep.c's backtracking matcher against the meaning of its patterns. */
module Grep {

  /** A pattern character, or one followed by '*'. */
  datatype Item = One(c: char) | Many(c: char)

  /** The items of a pattern after any '^', and whether a final '$' ends it. */
  datatype Pattern = Pattern(items: seq<Item>, atEnd: bool)

  function Parse(re: string): (p: Pattern) {
    if |re| == 0 then Pattern([], false)
    else if |re| > 1 && re[1] == '*' then
      var rest := Parse(re[2..]);
      Pattern([Many(re[0])] + rest.items, rest.atEnd)
    else if re == "$" then Pattern([], true)
    else
      var rest := Parse(re[1..]);
      Pattern([One(re[0])] + rest.items, rest.atEnd)
  }

  function RenderItem(item: Item): (s: string) {
    match item
    case One(c) => [c]
    case Many(c) => [c, '*']
  }

  /** A pattern written out. */
  function Render(items: seq<Item>, atEnd: bool): (s: string) {
    if |items| == 0 then if atEnd then "$" else ""
    else RenderItem(items[0]) + Render(items[1..], atEnd)
  }

  /** Reading a pattern loses nothing: written out again it is the same text. */
  lemma {:induction false} RenderParse(re: string)
    ensures Render(Parse(re).items, Parse(re).atEnd) == re
  {
    if |re| > 0 && re != "$" {
      var n := if |re| > 1 && re[1] == '*' then 2 else 1;
      var first := if n == 2 then Many(re[0]) else One(re[0]);
      var rest := Parse(re[n..]);
      RenderParse(re[n..]);
      assert ([first] + rest.items)[1..] == rest.items;
      assert re == re[..n] + re[n..] && re[..n] == RenderItem(first);
    }
  }

  predicate Fits(c: char, x: char) {
    c == '.' || c == x
  }

  /** The texts one item stands for. */
  predicate Covers(item: Item, s: string) {
    match item
    case One(c) => |s| == 1 && Fits(c, s[0])
    case Many(c) => forall i :: 0 <= i < |s| ==> Fits(c, s[i])
  }

  function Concat(pieces: seq<string>): (s: string) {
    if |pieces| == 0 then "" else pieces[0] + Concat(pieces[1..])
  }

  /** `pieces` gives every item a text of its own. */
  ghost predicate Assigns(items: seq<Item>, pieces: seq<string>) {
    |pieces| == |items| && forall i :: 0 <= i < |items| ==> Covers(items[i], pieces[i])
  }

  /** `s` is one text per item, end to end. */
  ghost predicate Spells(items: seq<Item>, s: string) {
    exists pieces :: Assigns(items, pieces) && Concat(pieces) == s
  }

  /** Some beginning of the text, all of it under '$', is spelled by the items. */
  ghost predicate MatchesHere(p: Pattern, text: string) {
    exists k :: 0 <= k <= |text| && Spells(p.items, text[..k]) && (p.atEnd ==> k == |text|)
  }

  /** The meaning of a whole pattern: anchored by a leading '^', otherwise anywhere. */
  ghost predicate Matches(re: string, text: string) {
    if |re| > 0 && re[0] == '^' then MatchesHere(Parse(re[1..]), text)
    else exists j :: 0 <= j <= |text| && MatchesHere(Parse(re), text[j..])
  }

  /** The first item takes `text[..j]` and the others match what follows. */
  ghost predicate FirstTakes(item: Item, rest: Pattern, text: string, j: nat) {
    j <= |text| && Covers(item, text[..j]) && MatchesHere(rest, text[j..])
  }

  ghost predicate Leads(item: Item, rest: Pattern, text: string) {
    exists j :: FirstTakes(item, rest, text, j)
  }

  lemma EmptyHere(atEnd: bool, text: string)
    ensures MatchesHere(Pattern([], atEnd), text) <==> (atEnd ==> text == "")
  {
    assert Assigns([], []) && Concat([]) == text[..0];
    forall pieces | Assigns([], pieces)
      ensures Concat(pieces) == ""
    {
    }
  }

  lemma SpellsSplit(item: Item, items: seq<Item>, s: string)
    requires Spells([item] + items, s)
    ensures exists j :: 0 <= j <= |s| && Covers(item, s[..j]) && Spells(items, s[j..])
  {
    var pieces :| Assigns([item] + items, pieces) && Concat(pieces) == s;
    var j := |pieces[0]|;
    assert s[..j] == pieces[0] && s[j..] == Concat(pieces[1..]);
    assert ([item] + items)[0] == item;
    assert Assigns(items, pieces[1..]) by {
      forall i | 0 <= i < |items|
        ensures Covers(items[i], pieces[1..][i])
      {
        assert ([item] + items)[i+1] == items[i];
      }
    }
  }

  lemma SpellsJoin(item: Item, items: seq<Item>, a: string, b: string)
    requires Covers(item, a) && Spells(items, b)
    ensures Spells([item] + items, a + b)
  {
    var pieces :| Assigns(items, pieces) && Concat(pieces) == b;
    var all := [a] + pieces;
    assert all[1..] == pieces;
    assert Assigns([item] + items, all);
  }

  lemma FirstOf(item: Item, rest: Pattern, text: string) returns (j: nat)
    requires MatchesHere(Pattern([item] + rest.items, rest.atEnd), text)
    ensures FirstTakes(item, rest, text, j)
  {
    var k :| 0 <= k <= |text| && Spells([item] + rest.items, text[..k]) && (rest.atEnd ==> k == |text|);
    var s := text[..k];
    SpellsSplit(item, rest.items, s);
    j :| 0 <= j <= |s| && Covers(item, s[..j]) && Spells(rest.items, s[j..]);
    assert s[..j] == text[..j] && s[j..] == text[j..][..k-j];
  }

  lemma ThenRest(item: Item, rest: Pattern, text: string, j: nat)
    requires FirstTakes(item, rest, text, j)
    ensures MatchesHere(Pattern([item] + rest.items, rest.atEnd), text)
  {
    var t := text[j..];
    var k :| 0 <= k <= |t| && Spells(rest.items, t[..k]) && (rest.atEnd ==> k == |t|);
    SpellsJoin(item, rest.items, text[..j], t[..k]);
    assert text[..j] + t[..k] == text[..j+k];
  }

  /** A pattern with a first item matches here exactly when that item takes some beginning. */
  lemma FirstItem(item: Item, rest: Pattern, text: string)
    ensures MatchesHere(Pattern([item] + rest.items, rest.atEnd), text) <==> Leads(item, rest, text)
  {
    if MatchesHere(Pattern([item] + rest.items, rest.atEnd), text) {
      var j := FirstOf(item, rest, text);
    }
    if j :| FirstTakes(item, rest, text, j) {
      ThenRest(item, rest, text, j);
    }
  }

  method Match(re: string, text: string) returns (b: bool)
    ensures b <==> Matches(re, text)
  {
    if |re| > 0 && re[0] == '^' {
      b := MatchHere(re[1..], text);
      return;
    }
    var i := 0;
    while true
      invariant 0 <= i <= |text|
      invariant forall j :: 0 <= j < i ==> !MatchesHere(Parse(re), text[j..])
      decreases |text| - i
    {
      b := MatchHere(re, text[i..]);
      if b {
        return;
      }
      if i == |text| {
        return false;
      }
      i := i + 1;
    }
  }

  method MatchHere(re: string, text: string) returns (b: bool)
    ensures b <==> MatchesHere(Parse(re), text)
    decreases |re|, 1
  {
    if |re| == 0 {
      EmptyHere(false, text);
      return true;
    }
    if |re| > 1 && re[1] == '*' {
      b := MatchStar(re[0], re[2..], text);
      var rest := Parse(re[2..]);
      assert Parse(re) == Pattern([Many(re[0])] + rest.items, rest.atEnd);
      FirstItem(Many(re[0]), rest, text);
      return;
    }
    if re == "$" {
      EmptyHere(true, text);
      return text == "";
    }
    FirstItem(One(re[0]), Parse(re[1..]), text);
    assert forall j :: FirstTakes(One(re[0]), Parse(re[1..]), text, j) ==> j == 1;
    if |text| > 0 && Fits(re[0], text[0]) {
      b := MatchHere(re[1..], text[1..]);
      assert b <==> FirstTakes(One(re[0]), Parse(re[1..]), text, 1);
      return;
    }
    return false;
  }

  method MatchStar(c: char, re: string, text: string) returns (b: bool)
    ensures b <==> Leads(Many(c), Parse(re), text)
    decreases |re|, 2
  {
    var i := 0;
    while true
      invariant 0 <= i <= |text|
      invariant Covers(Many(c), text[..i])
      invariant forall j :: 0 <= j < i ==> !FirstTakes(Many(c), Parse(re), text, j)
      decreases |text| - i
    {
      b := MatchHere(re, text[i..]);
      assert b <==> FirstTakes(Many(c), Parse(re), text, i);
      if b {
        return;
      }
      if i == |text| || !Fits(c, text[i]) {
        break;
      }
      i := i + 1;
    }
    forall j | i < j <= |text|
      ensures !Covers(Many(c), text[..j])
    {
      assert text[..j][i] == text[i];
    }
    return false;
  }
}
