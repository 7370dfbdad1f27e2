/** The regular-expression matcher of grep, against a declarative reading of its patterns. */
module Grep {
  /** A pattern is a sequence of items: one character, or any number of it; `.` stands for all. */
  datatype Item = One(c: char) | Star(c: char)

  predicate Fits(c: char, x: char) {
    c == '.' || c == x
  }

  /** Reading a pattern (without its leading ^) from the left; a final $ is not an item. */
  function Items(re: string): seq<Item> {
    if re == [] then []
    else if |re| > 1 && re[1] == '*' then [Star(re[0])] + Items(re[2..])
    else if re == "$" then []
    else [One(re[0])] + Items(re[1..])
  }

  /** The pattern ends in a $ that is an anchor. */
  predicate Anchored(re: string) {
    if re == [] then false
    else if |re| > 1 && re[1] == '*' then Anchored(re[2..])
    else if re == "$" then true
    else Anchored(re[1..])
  }

  // ----- the language

  function Concat(pieces: seq<string>): string {
    if pieces == [] then [] else pieces[0] + Concat(pieces[1..])
  }

  predicate PieceOk(item: Item, s: string) {
    match item
    case One(c) => |s| == 1 && Fits(c, s[0])
    case Star(c) => forall i :: 0 <= i < |s| ==> Fits(c, s[i])
  }

  predicate Splits(items: seq<Item>, pieces: seq<string>, s: string) {
    |pieces| == |items| && Concat(pieces) == s && forall i :: 0 <= i < |items| ==> PieceOk(items[i], pieces[i])
  }

  /** s belongs to the language of the items: it splits into one piece for each. */
  ghost predicate Belongs(items: seq<Item>, s: string) {
    exists pieces :: Splits(items, pieces, s)
  }

  /** Some prefix of the text belongs to the pattern's language; all of it, if the pattern is anchored. */
  ghost predicate Here(re: string, text: string) {
    exists j :: Upto(re, text, j)
  }

  ghost predicate Upto(re: string, text: string, j: int) {
    0 <= j <= |text| && (Anchored(re) ==> j == |text|) && Belongs(Items(re), text[..j])
  }

  /** What grep promises: some substring belongs to the language, at the start of the text for ^ and
      at its end for $. */
  ghost predicate Matches(re: string, text: string) {
    if re != [] && re[0] == '^' then Here(re[1..], text)
    else exists i :: 0 <= i <= |text| && Here(re, text[i..])
  }

  lemma BelongsCons(item: Item, items: seq<Item>, s: string, k: nat)
    requires k <= |s| && PieceOk(item, s[..k]) && Belongs(items, s[k..])
    ensures Belongs([item] + items, s)
  {
    var pieces :| Splits(items, pieces, s[k..]);
    var all := [s[..k]] + pieces;
    assert all[1..] == pieces;
    assert Splits([item] + items, all, s);
  }

  lemma BelongsFirst(item: Item, items: seq<Item>, s: string) returns (k: nat)
    requires Belongs([item] + items, s)
    ensures k <= |s| && PieceOk(item, s[..k]) && Belongs(items, s[k..])
  {
    var pieces :| Splits([item] + items, pieces, s);
    k := |pieces[0]|;
    assert s == pieces[0] + Concat(pieces[1..]);
    assert s[..k] == pieces[0] && s[k..] == Concat(pieces[1..]);
    assert Splits(items, pieces[1..], s[k..]) by {
      forall i | 0 <= i < |items| ensures PieceOk(items[i], pieces[1..][i]) {
        assert ([item] + items)[i + 1] == items[i];
      }
    }
  }

  lemma BelongsNothing(s: string)
    ensures Belongs([], s) <==> s == []
  {
    if s == [] {
      assert Splits([], [], s);
    }
  }

  // ----- the cases of matchhere

  lemma HereEmpty(text: string)
    ensures Here([], text)
  {
    BelongsNothing([]);
    assert Upto([], text, 0);
  }

  lemma HereEnd(text: string)
    ensures Here("$", text) <==> text == []
  {
    BelongsNothing(text);
    assert text[..|text|] == text;
    if text == [] {
      assert Upto("$", text, 0);
    }
  }

  /** A first item and the rest of the pattern. */
  lemma HereItem(re: string, item: Item, rest: string, text: string, k: nat)
    requires Items(re) == [item] + Items(rest) && Anchored(re) == Anchored(rest)
    requires k <= |text| && PieceOk(item, text[..k]) && Here(rest, text[k..])
    ensures Here(re, text)
  {
    var j :| Upto(rest, text[k..], j);
    assert text[..k + j][..k] == text[..k] && text[..k + j][k..] == text[k..][..j];
    BelongsCons(item, Items(rest), text[..k + j], k);
    assert Upto(re, text, k + j);
  }

  lemma HereItemOnly(re: string, item: Item, rest: string, text: string) returns (k: nat)
    requires Items(re) == [item] + Items(rest) && Anchored(re) == Anchored(rest) && Here(re, text)
    ensures k <= |text| && PieceOk(item, text[..k]) && Here(rest, text[k..])
  {
    var j :| Upto(re, text, j);
    k := BelongsFirst(item, Items(rest), text[..j]);
    assert text[..j][..k] == text[..k] && text[..j][k..] == text[k..][..j - k];
    assert Upto(rest, text[k..], j - k);
  }

  // ----- the code

  /** match */
  method Match(re: string, text: string) returns (b: bool)
    ensures b <==> Matches(re, text)
  {
    if re != [] && re[0] == '^' {
      b := MatchHere(re[1..], text);
      return;
    }
    var t := text;
    ghost var i := 0;
    while true
      invariant 0 <= i <= |text| && t == text[i..]
      invariant forall k :: 0 <= k < i ==> !Here(re, text[k..])
      decreases |t|
    {
      b := MatchHere(re, t);
      if b {
        return;
      }
      if t == [] {
        return;
      }
      t := t[1..];
      i := i + 1;
    }
  }

  /** matchhere */
  method MatchHere(re: string, text: string) returns (b: bool)
    ensures b <==> Here(re, text)
    decreases |re|, |text|, 0
  {
    if re == [] {
      HereEmpty(text);
      return true;
    }
    if |re| > 1 && re[1] == '*' {
      b := MatchStar(re[0], re[2..], text);
      StarCase(re, text);
      return;
    }
    if re[0] == '$' && |re| == 1 {
      HereEnd(text);
      return text == [];
    }
    OneCase(re, text);
    if text != [] && (re[0] == '.' || re[0] == text[0]) {
      b := MatchHere(re[1..], text[1..]);
      return;
    }
    return false;
  }

  /** Some run of characters that fit c is followed by a match of re. */
  ghost predicate AfterRun(c: char, re: string, text: string) {
    exists k :: 0 <= k <= |text| && PieceOk(Star(c), text[..k]) && Here(re, text[k..])
  }

  lemma StarCase(re: string, text: string)
    requires |re| > 1 && re[1] == '*'
    ensures Here(re, text) <==> AfterRun(re[0], re[2..], text)
  {
    if AfterRun(re[0], re[2..], text) {
      var k :| 0 <= k <= |text| && PieceOk(Star(re[0]), text[..k]) && Here(re[2..], text[k..]);
      HereItem(re, Star(re[0]), re[2..], text, k);
    } else if Here(re, text) {
      var k := HereItemOnly(re, Star(re[0]), re[2..], text);
    }
  }

  lemma OneCase(re: string, text: string)
    requires re != [] && !(|re| > 1 && re[1] == '*') && re != "$"
    ensures Here(re, text) <==> text != [] && Fits(re[0], text[0]) && Here(re[1..], text[1..])
  {
    if text != [] && Fits(re[0], text[0]) && Here(re[1..], text[1..]) {
      HereItem(re, One(re[0]), re[1..], text, 1);
    } else if Here(re, text) {
      var k := HereItemOnly(re, One(re[0]), re[1..], text);
    }
  }

  lemma LongerRun(c: char, text: string, i: nat, k: nat)
    requires k < i <= |text| && PieceOk(Star(c), text[..i])
    ensures Fits(c, text[k])
  {
    assert text[..i][k] == text[k];
  }

  /** matchstar */
  method MatchStar(c: char, re: string, text: string) returns (b: bool)
    ensures b <==> AfterRun(c, re, text)
    decreases |re|, |text|, 1
  {
    var t := text;
    ghost var k := 0;
    while true
      invariant 0 <= k <= |text| && t == text[k..] && PieceOk(Star(c), text[..k])
      invariant forall i :: 0 <= i < k ==> !Here(re, text[i..])
      decreases |t|
    {
      b := MatchHere(re, t);
      if b {
        return;
      }
      forall i | k < i <= |text| && PieceOk(Star(c), text[..i]) ensures Fits(c, t[0]) {
        LongerRun(c, text, i, k);
      }
      if t == [] || !(t[0] == c || c == '.') {
        return;
      }
      t := t[1..];
      k := k + 1;
    }
  }
}
