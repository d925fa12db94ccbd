/**
 * The matcher of user/grep.c.  A `string` is the characters of a C string
 * before its NUL.
 */
module Grep {

  /** One pattern element: a single character or c*.  '.' stands for any character in both. */
  datatype Item = One(c: char) | Star(c: char)

  /** `end`: the pattern closes with $, which ties the match to the end of the text. */
  datatype Pattern = Pattern(items: seq<Item>, end: bool)

  predicate Fits(c: char, x: char) {
    c == '.' || c == x
  }

  predicate AllFit(c: char, s: string) {
    forall x :: x in s ==> Fits(c, x)
  }

  /** The strings an element stands for. */
  predicate Denotes(item: Item, s: string) {
    match item
    case One(c) => |s| == 1 && Fits(c, s[0])
    case Star(c) => AllFit(c, s)
  }

  function Concat(parts: seq<string>): string {
    if parts == [] then "" else parts[0] + Concat(parts[1..])
  }

  /** The text starts with one part per element, each denoted by it; all of the text if `end`. */
  ghost predicate Splits(p: Pattern, text: string, parts: seq<string>) {
    && |parts| == |p.items|
    && (forall i :: 0 <= i < |parts| ==> Denotes(p.items[i], parts[i]))
    && (if p.end then Concat(parts) == text else Concat(parts) <= text)
  }

  ghost predicate Matches(p: Pattern, text: string) {
    exists parts: seq<string> :: Splits(p, text, parts)
  }

  /** How grep reads a pattern without a leading ^: c*, a final $, and single characters. */
  function Read(re: string): Pattern {
    if re == "" then Pattern([], false)
    else if |re| > 1 && re[1] == '*' then More(Star(re[0]), Read(re[2..]))
    else if re == "$" then Pattern([], true)
    else More(One(re[0]), Read(re[1..]))
  }

  function More(item: Item, p: Pattern): Pattern {
    p.(items := [item] + p.items)
  }

  /** The pattern text of a list of elements. */
  function Show(p: Pattern): string
    decreases |p.items|
  {
    if p.items == [] then (if p.end then "$" else "")
    else ShowItem(p.items[0]) + Show(p.(items := p.items[1..]))
  }

  function ShowItem(item: Item): string {
    if item.One? then [item.c] else [item.c, '*']
  }

  /** Reading forgets nothing: every pattern text is the text of what was read from it. */
  lemma {:induction false} ShowRead(re: string)
    ensures Show(Read(re)) == re
  {
    if re == "" || re == "$" {
    } else if |re| > 1 && re[1] == '*' {
      ShowRead(re[2..]);
      assert Read(re) == More(Star(re[0]), Read(re[2..]));
      ShowMore(Star(re[0]), Read(re[2..]));
    } else {
      ShowRead(re[1..]);
      ShowMore(One(re[0]), Read(re[1..]));
    }
  }

  lemma ShowMore(item: Item, p: Pattern)
    ensures Show(More(item, p)) == ShowItem(item) + Show(p)
  {
    assert More(item, p).items[1..] == p.items;
  }

  /** A single character is not followed by an element of '*', and no plain '$' comes last. */
  predicate Writable(p: Pattern)
    decreases |p.items|
  {
    p.items != [] ==>
      && (p.items[0].One? && |p.items| > 1 ==> p.items[1].c != '*')
      && (|p.items| == 1 && !p.end ==> p.items[0] != One('$'))
      && Writable(p.(items := p.items[1..]))
  }

  /** Exactly the writable patterns are read back from their text; ^ and * and $ are literal elsewhere. */
  lemma {:induction false} ReadShow(p: Pattern)
    ensures Read(Show(p)) == p <==> Writable(p)
    decreases |p.items|
  {
    if p.items != [] {
      var item, rest := p.items[0], p.(items := p.items[1..]);
      ReadShow(rest);
      assert p == More(item, rest);
      var re := Show(p);
      assert re == ShowItem(item) + Show(rest);
      if item.Star? {
        assert re[2..] == Show(rest);
      } else {
        assert re[1..] == Show(rest);
      }
    }
  }

  /** The meaning of a whole pattern: ^ ties it to the start of the text. */
  ghost predicate Found(re: string, text: string) {
    if re != "" && re[0] == '^' then Matches(Read(re[1..]), text)
    else exists i | 0 <= i <= |text| :: Matches(Read(re), text[i..])
  }

  lemma SplitTail(item: Item, p: Pattern, text: string, parts: seq<string>)
    requires Splits(More(item, p), text, parts)
    ensures |parts| > 0 && Denotes(item, parts[0]) && parts[0] <= text
    ensures Splits(p, text[|parts[0]|..], parts[1..])
  {
    var q := More(item, p);
    assert q.items[0] == item;
    assert forall i :: 0 <= i < |parts| - 1 ==> parts[1..][i] == parts[i + 1] && p.items[i] == q.items[i + 1];
    assert Concat(parts) == parts[0] + Concat(parts[1..]);
    assert Concat(parts)[|parts[0]|..] == Concat(parts[1..]);
  }

  lemma SplitCons(item: Item, p: Pattern, text: string, part: string, parts: seq<string>)
    requires part <= text && Denotes(item, part) && Splits(p, text[|part|..], parts)
    ensures Splits(More(item, p), text, [part] + parts)
  {
    assert ([part] + parts)[1..] == parts;
    assert text == part + text[|part|..];
  }

  lemma EndMatches(text: string)
    ensures Matches(Pattern([], false), text)
    ensures Matches(Pattern([], true), text) <==> text == ""
  {
    assert Splits(Pattern([], false), text, []);
    assert Splits(Pattern([], true), text, []) <==> text == "";
  }

  lemma OneMatches(c: char, p: Pattern, text: string)
    ensures Matches(More(One(c), p), text)
      <==> text != "" && Fits(c, text[0]) && Matches(p, text[1..])
  {
    if Matches(More(One(c), p), text) {
      var parts :| Splits(More(One(c), p), text, parts);
      SplitTail(One(c), p, text, parts);
    }
    if text != "" && Fits(c, text[0]) && Matches(p, text[1..]) {
      var parts :| Splits(p, text[1..], parts);
      SplitCons(One(c), p, text, text[..1], parts);
    }
  }

  /** c* takes some j fitting characters, and the rest of the pattern matches what follows. */
  ghost predicate StarTakes(c: char, p: Pattern, text: string, j: nat) {
    j <= |text| && AllFit(c, text[..j]) && Matches(p, text[j..])
  }

  ghost predicate StarFits(c: char, p: Pattern, text: string) {
    exists j: nat :: StarTakes(c, p, text, j)
  }

  lemma StarMatches(c: char, p: Pattern, text: string)
    ensures Matches(More(Star(c), p), text) <==> StarFits(c, p, text)
  {
    if Matches(More(Star(c), p), text) {
      var parts :| Splits(More(Star(c), p), text, parts);
      SplitTail(Star(c), p, text, parts);
      assert text[..|parts[0]|] == parts[0];
      assert StarTakes(c, p, text, |parts[0]|);
    }
    if j: nat :| StarTakes(c, p, text, j) {
      var parts :| Splits(p, text[j..], parts);
      SplitCons(Star(c), p, text, text[..j], parts);
    }
  }

  /** matchhere */
  method MatchHere(re: string, text: string) returns (yes: bool)
    ensures yes <==> Matches(Read(re), text)
    decreases |re|, 0
  {
    EndMatches(text);
    if re == "" { return true; }
    if |re| > 1 && re[1] == '*' {
      StarMatches(re[0], Read(re[2..]), text);
      yes := MatchStar(re[0], re[2..], text);
      return;
    }
    if re == "$" { return text == ""; }
    OneMatches(re[0], Read(re[1..]), text);
    if text != "" && (re[0] == '.' || re[0] == text[0]) {
      yes := MatchHere(re[1..], text[1..]);
      return;
    }
    yes := false;
  }

  /** matchstar: the first stretch of c that lets the rest match; none if a character does not fit. */
  method MatchStar(c: char, re: string, text: string) returns (yes: bool)
    ensures yes <==> StarFits(c, Read(re), text)
    decreases |re|, 1
  {
    var i := 0;
    while true
      invariant 0 <= i <= |text| && AllFit(c, text[..i])
      invariant forall j: nat :: j < i ==> !StarTakes(c, Read(re), text, j)
      decreases |text| - i
    {
      yes := MatchHere(re, text[i..]);
      assert yes <==> StarTakes(c, Read(re), text, i);
      if yes { return; }
      if i == |text| || !(text[i] == c || c == '.') { break; }
      i := i + 1;
    }
    forall j: nat ensures !StarTakes(c, Read(re), text, j) {
      if i < j <= |text| { assert text[..j][i] in text[..j]; }
    }
  }

  /** match: grep's answer is exactly the pattern's meaning. */
  method Match(re: string, text: string) returns (yes: bool)
    ensures yes <==> Found(re, text)
  {
    if re != "" && re[0] == '^' {
      yes := MatchHere(re[1..], text);
      return;
    }
    var i := 0;
    while true
      invariant 0 <= i <= |text|
      invariant forall j :: 0 <= j < i ==> !Matches(Read(re), text[j..])
      decreases |text| - i
    {
      yes := MatchHere(re, text[i..]);
      if yes || i == |text| { return; }
      i := i + 1;
    }
  }
}
