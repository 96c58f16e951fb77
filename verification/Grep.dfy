/** The regular expression matcher of grep.c.

The meaning of a pattern is given apart from the matcher: a pattern is a list of
items, an item is a set of strings, and a list is their concatenation. C strings are
Dafny strings without their terminating NUL. */
module Grep {

  // ------------------------------------------------------------ meaning

  datatype Atom = Literal(c: char) | AnyChar

  datatype Item = One(a: Atom) | Star(a: Atom)

  /** A pattern: an optional leading '^', items, an optional final '$'. */
  datatype Pattern = Pattern(fromStart: bool, items: seq<Item>, toEnd: bool)

  predicate AtomMatches(a: Atom, c: char) {
    a.AnyChar? || a.c == c
  }

  /** `s` is one of the strings of the item. */
  predicate InItem(it: Item, s: string) {
    match it
    case One(a) => |s| == 1 && AtomMatches(a, s[0])
    case Star(a) => forall i :: 0 <= i < |s| ==> AtomMatches(a, s[i])
  }

  /** `s` is a string of the first item followed by strings of the others. */
  ghost predicate InItems(items: seq<Item>, s: string) {
    if items == [] then s == ""
    else exists k :: 0 <= k <= |s| && InItem(items[0], s[..k]) && InItems(items[1..], s[k..])
  }

  /** The pattern occurs in `text` at `start`. */
  ghost predicate OccursAt(items: seq<Item>, toEnd: bool, text: string, start: nat) {
    start <= |text| &&
    exists end :: start <= end <= |text| && (toEnd ==> end == |text|) && InItems(items, text[start..end])
  }

  ghost predicate Occurs(p: Pattern, text: string) {
    exists start :: 0 <= start <= |text| && (p.fromStart ==> start == 0) && OccursAt(p.items, p.toEnd, text, start)
  }

  // ------------------------------------------------------------ syntax

  function ToAtom(c: char): Atom {
    if c == '.' then AnyChar else Literal(c)
  }

  /** How the C string `re` denotes items: a character before '*' is starred whatever
      it is, a '$' counts as end of text only as the very last character. */
  function Items(re: string): seq<Item> {
    if re == "" || re == "$" then []
    else if |re| > 1 && re[1] == '*' then [Star(ToAtom(re[0]))] + Items(re[2..])
    else [One(ToAtom(re[0]))] + Items(re[1..])
  }

  predicate ToEnd(re: string) {
    if re == "" then false
    else if re == "$" then true
    else if |re| > 1 && re[1] == '*' then ToEnd(re[2..])
    else ToEnd(re[1..])
  }

  function Denote(re: string): Pattern {
    if re != "" && re[0] == '^' then Pattern(true, Items(re[1..]), ToEnd(re[1..]))
    else Pattern(false, Items(re), ToEnd(re))
  }

  // ------------------------------------------------------------ the matcher

  ghost predicate Here(re: string, text: string) {
    OccursAt(Items(re), ToEnd(re), text, 0)
  }

  /** matchhere: search for re at beginning of text. */
  method MatchHere(re: string, text: string) returns (b: bool)
    ensures b <==> Here(re, text)
    decreases |re|, 0
  {
    if re == "" {
      HereEmpty(text);
      return true;
    }
    if |re| > 1 && re[1] == '*' {
      b := MatchStar(re[0], re[2..], text);
      HereStar(re, text);
      return;
    }
    if re[0] == '$' && |re| == 1 {
      HereDollar(text);
      return text == "";
    }
    if text != "" && (re[0] == '.' || re[0] == text[0]) {
      b := MatchHere(re[1..], text[1..]);
      HereOne(re, text);
      return;
    }
    HereOne(re, text);
    return false;
  }

  /** matchstar: search for c*re at beginning of text. */
  method MatchStar(c: char, re: string, text: string) returns (b: bool)
    ensures b <==> StarThen(c, re, text)
    decreases |re|, 1
  {
    var i := 0;
    while true
      invariant 0 <= i <= |text|
      invariant forall k :: 0 <= k < i ==> AtomMatches(ToAtom(c), text[k]) && !Here(re, text[k..])
      decreases |text| - i
    {
      b := MatchHere(re, text[i..]);
      if b {
        return;
      }
      if i == |text| || !(text[i] == c || c == '.') {
        return;
      }
      i := i + 1;
    }
  }

  /** `re` matches here after a run of characters that `c` stands for. */
  ghost predicate StarThen(c: char, re: string, text: string) {
    exists i :: 0 <= i <= |text| && Here(re, text[i..]) &&
      forall k :: 0 <= k < i ==> AtomMatches(ToAtom(c), text[k])
  }

  /** match: the pattern occurs somewhere in the text, as its parts require. */
  method Match(re: string, text: string) returns (b: bool)
    ensures b <==> Occurs(Denote(re), text)
  {
    if re != "" && re[0] == '^' {
      b := MatchHere(re[1..], text);
      return;
    }
    var i := 0;
    while true
      invariant 0 <= i <= |text|
      invariant forall k :: 0 <= k < i ==> !Here(re, text[k..])
      decreases |text| - i
    {
      b := MatchHere(re, text[i..]);
      if b {
        OccursSuffix(re, text, i);
        return;
      }
      if i == |text| {
        break;
      }
      i := i + 1;
    }
    forall k | 0 <= k <= |text| ensures !OccursAt(Items(re), ToEnd(re), text, k) {
      OccursSuffix(re, text, k);
    }
  }

  // ------------------------------------------------------------ proofs

  lemma HereEmpty(text: string)
    ensures Here("", text)
  {
    assert InItems([], text[0..0]);
  }

  lemma HereDollar(text: string)
    ensures Here("$", text) <==> text == ""
  {
    assert text[0..|text|] == text;
  }

  lemma OccursSuffix(re: string, text: string, i: nat)
    requires i <= |text|
    ensures Here(re, text[i..]) <==> OccursAt(Items(re), ToEnd(re), text, i)
  {
    var t := text[i..];
    if Here(re, t) {
      var e :| 0 <= e <= |t| && (ToEnd(re) ==> e == |t|) && InItems(Items(re), t[0..e]);
      assert t[0..e] == text[i..i + e];
    }
    if OccursAt(Items(re), ToEnd(re), text, i) {
      var e :| i <= e <= |text| && (ToEnd(re) ==> e == |text|) && InItems(Items(re), text[i..e]);
      assert text[i..e] == t[0..e - i];
    }
  }

  lemma HereOne(re: string, text: string)
    requires re != "" && re != "$" && !(|re| > 1 && re[1] == '*')
    ensures Here(re, text) <==> text != "" && AtomMatches(ToAtom(re[0]), text[0]) && Here(re[1..], text[1..])
  {
    var its, rest := Items(re), Items(re[1..]);
    assert its[1..] == rest;
    if Here(re, text) {
      var e :| 0 <= e <= |text| && (ToEnd(re) ==> e == |text|) && InItems(its, text[0..e]);
      var k :| 0 <= k <= e && InItem(its[0], text[0..e][..k]) && InItems(rest, text[0..e][k..]);
      assert k == 1 && text[0..e][..k] == text[..1];
      assert text[0..e][1..] == text[1..][0..e - 1];
    }
    if text != "" && AtomMatches(ToAtom(re[0]), text[0]) && Here(re[1..], text[1..]) {
      var e :| 0 <= e <= |text| - 1 && (ToEnd(re) ==> e == |text| - 1) && InItems(rest, text[1..][0..e]);
      var s := text[0..e + 1];
      assert s[1..] == text[1..][0..e] && InItem(its[0], s[..1]);
      assert InItems(its, s);
    }
  }

  lemma HereStar(re: string, text: string)
    requires |re| > 1 && re[1] == '*'
    ensures Here(re, text) <==> StarThen(re[0], re[2..], text)
  {
    var its, rest := Items(re), Items(re[2..]);
    assert its[1..] == rest;
    if Here(re, text) {
      var e :| 0 <= e <= |text| && (ToEnd(re) ==> e == |text|) && InItems(its, text[0..e]);
      var k :| 0 <= k <= e && InItem(its[0], text[0..e][..k]) && InItems(rest, text[0..e][k..]);
      assert text[0..e][k..] == text[k..][0..e - k];
      assert Here(re[2..], text[k..]);
      assert forall j :: 0 <= j < k ==> text[j] == text[0..e][..k][j];
    }
    if StarThen(re[0], re[2..], text) {
      var i :| 0 <= i <= |text| && Here(re[2..], text[i..]) &&
               forall k :: 0 <= k < i ==> AtomMatches(ToAtom(re[0]), text[k]);
      var t := text[i..];
      var e :| 0 <= e <= |t| && (ToEnd(re) ==> e == |t|) && InItems(rest, t[0..e]);
      var s := text[0..i + e];
      assert s[i..] == t[0..e] && s[..i] == text[..i];
      assert InItem(its[0], s[..i]);
      assert InItems(its, s);
    }
  }
}
