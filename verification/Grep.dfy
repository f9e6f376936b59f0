/**
  * The regular-expression matcher of grep (user/grep.c:72-106), against the language that a
  * pattern denotes.  Strings are without their terminating NUL.
  */
module Grep {
  // ---- what a pattern means

  datatype Piece = One(c: char) | Star(c: char)

  /** The pieces of a pattern, and whether it ends in the anchor $. */
  datatype Pattern = Pattern(pieces: seq<Piece>, dollar: bool)

  function Parse(re: string): Pattern {
    if re == "" then Pattern([], false)
    else if |re| > 1 && re[1] == '*' then
      var rest := Parse(re[2..]);
      Pattern([Star(re[0])] + rest.pieces, rest.dollar)
    else if re == "$" then Pattern([], true)
    else
      var rest := Parse(re[1..]);
      Pattern([One(re[0])] + rest.pieces, rest.dollar)
  }

  /** c matches the character x. */
  predicate Accepts(c: char, x: char) {
    c == '.' || c == x
  }

  predicate AllAccepted(c: char, word: string) {
    forall k :: 0 <= k < |word| ==> Accepts(c, word[k])
  }

  /** word is in the language of the pieces: it splits into one part for each. */
  predicate In(word: string, pieces: seq<Piece>)
    decreases |pieces|
  {
    if pieces == [] then word == ""
    else
      match pieces[0]
      case One(c) => word != "" && Accepts(c, word[0]) && In(word[1..], pieces[1..])
      case Star(c) => exists j :: 0 <= j <= |word| && AllAccepted(c, word[..j]) && In(word[j..], pieces[1..])
  }

  /** Some prefix of text, all of it under $, is in the language. */
  predicate Here(p: Pattern, text: string) {
    exists k :: 0 <= k <= |text| && In(text[..k], p.pieces) && (p.dollar ==> k == |text|)
  }

  /** Some substring of text, a prefix under ^ and a suffix under a final $, is in the language. */
  predicate Matches(re: string, text: string) {
    if re != "" && re[0] == '^' then Occurs(Parse(re[1..]), text, true) else Occurs(Parse(re), text, false)
  }

  predicate Occurs(p: Pattern, text: string, caret: bool) {
    exists i, k :: 0 <= i <= k <= |text| && In(text[i..k], p.pieces) && (caret ==> i == 0) && (p.dollar ==> k == |text|)
  }

  // ---- laws of the language

  lemma HereEmpty(text: string)
    ensures Here(Parse(""), text)
  {
    assert In(text[..0], []);
  }

  lemma HereDollar(text: string)
    ensures Here(Parse("$"), text) <==> text == ""
  {
    if text == "" {
      assert In(text[..0], []);
    }
  }

  lemma ParseOne(re: string)
    requires re != "" && !(|re| > 1 && re[1] == '*') && re != "$"
    ensures var p, q := Parse(re), Parse(re[1..]); p.pieces == [One(re[0])] + q.pieces && p.dollar == q.dollar
  {
  }

  lemma InOne(word: string, c: char, rest: seq<Piece>)
    ensures In(word, [One(c)] + rest) <==> word != "" && Accepts(c, word[0]) && In(word[1..], rest)
  {
  }

  lemma HereOne(re: string, text: string)
    requires re != "" && !(|re| > 1 && re[1] == '*') && re != "$"
    ensures Here(Parse(re), text) <==> text != "" && Accepts(re[0], text[0]) && Here(Parse(re[1..]), text[1..])
  {
    hide In, Parse;
    ParseOne(re);
    var p, q := Parse(re), Parse(re[1..]);
    if Here(p, text) {
      var k :| 0 <= k <= |text| && In(text[..k], p.pieces) && (p.dollar ==> k == |text|);
      InOne(text[..k], re[0], q.pieces);
      assert text[..k][1..] == text[1..][..k - 1];
    }
    if text != "" && Accepts(re[0], text[0]) && Here(q, text[1..]) {
      var k :| 0 <= k <= |text[1..]| && In(text[1..][..k], q.pieces) && (q.dollar ==> k == |text[1..]|);
      InOne(text[..k + 1], re[0], q.pieces);
      assert text[..k + 1][1..] == text[1..][..k];
    }
  }

  lemma ParseStar(re: string)
    requires |re| > 1 && re[1] == '*'
    ensures var p, q := Parse(re), Parse(re[2..]); p.pieces == [Star(re[0])] + q.pieces && p.dollar == q.dollar
  {
  }

  lemma InStar(word: string, c: char, rest: seq<Piece>)
    ensures In(word, [Star(c)] + rest) <==>
              exists j :: 0 <= j <= |word| && AllAccepted(c, word[..j]) && In(word[j..], rest)
  {
  }

  /** A star is a choice of how much of the text it covers. */
  lemma HereStar(re: string, text: string)
    requires |re| > 1 && re[1] == '*'
    ensures Here(Parse(re), text) <==>
              exists j :: 0 <= j <= |text| && AllAccepted(re[0], text[..j]) && Here(Parse(re[2..]), text[j..])
  {
    hide In, Parse, AllAccepted;
    ParseStar(re);
    var p, q := Parse(re), Parse(re[2..]);
    if Here(p, text) {
      var k :| 0 <= k <= |text| && In(text[..k], p.pieces) && (p.dollar ==> k == |text|);
      InStar(text[..k], re[0], q.pieces);
      var j :| 0 <= j <= k && AllAccepted(re[0], text[..k][..j]) && In(text[..k][j..], q.pieces);
      assert text[..k][..j] == text[..j] && text[..k][j..] == text[j..][..k - j];
      assert Here(q, text[j..]);
    }
    if j :| 0 <= j <= |text| && AllAccepted(re[0], text[..j]) && Here(q, text[j..]) {
      var k :| 0 <= k <= |text[j..]| && In(text[j..][..k], q.pieces) && (q.dollar ==> k == |text[j..]|);
      assert text[..j + k][..j] == text[..j] && text[..j + k][j..] == text[j..][..k];
      InStar(text[..j + k], re[0], q.pieces);
    }
  }

  /** A match at the beginning of some suffix is an occurrence. */
  lemma HereIsOccurrence(p: Pattern, text: string)
    ensures Occurs(p, text, true) <==> Here(p, text)
    ensures Occurs(p, text, false) <==> exists i :: 0 <= i <= |text| && Here(p, text[i..])
  {
    if Here(p, text) {
      var k :| 0 <= k <= |text| && In(text[..k], p.pieces) && (p.dollar ==> k == |text|);
      assert In(text[0..k], p.pieces);
    }
    if i :| 0 <= i <= |text| && Here(p, text[i..]) {
      var k :| 0 <= k <= |text[i..]| && In(text[i..][..k], p.pieces) && (p.dollar ==> k == |text[i..]|);
      assert text[i..][..k] == text[i..i + k];
    }
    if i, k :| 0 <= i <= k <= |text| && In(text[i..k], p.pieces) && (p.dollar ==> k == |text|) {
      assert text[i..][..k - i] == text[i..k];
      assert Here(p, text[i..]);
      assert i == 0 ==> text[i..] == text;
    }
  }

  // ---- the matcher

  /** match: the pattern anywhere in the text. */
  method Match(re: string, text: string) returns (found: bool)
    ensures found <==> Matches(re, text)
  {
    hide Here, Occurs, Parse;
    if re != "" && re[0] == '^' {
      HereIsOccurrence(Parse(re[1..]), text);
      found := MatchHere(re[1..], text);
      return;
    }
    HereIsOccurrence(Parse(re), text);
    var i := 0;
    while true
      invariant 0 <= i <= |text|
      invariant forall j :: 0 <= j < i ==> !Here(Parse(re), text[j..])
      decreases |text| - i
    {
      found := MatchHere(re, text[i..]);
      if found { return true; }
      if i == |text| { return false; }
      i := i + 1;
    }
  }

  /** matchhere: the pattern at the beginning of the text. */
  method MatchHere(re: string, text: string) returns (found: bool)
    ensures found <==> Here(Parse(re), text)
    decreases |re|, 0
  {
    hide Here, Parse;
    if re == "" {
      HereEmpty(text);
      return true;
    }
    if |re| > 1 && re[1] == '*' {
      HereStar(re, text);
      found := MatchStar(re[0], re[2..], text);
      return;
    }
    if re[0] == '$' && |re| == 1 {
      HereDollar(text);
      assert re == "$";
      return text == "";
    }
    HereOne(re, text);
    if text != "" && (re[0] == '.' || re[0] == text[0]) {
      found := MatchHere(re[1..], text[1..]);
      return;
    }
    return false;
  }

  /** matchstar: zero or more of c, then the pattern. */
  method MatchStar(c: char, re: string, text: string) returns (found: bool)
    ensures found <==> exists j :: 0 <= j <= |text| && AllAccepted(c, text[..j]) && Here(Parse(re), text[j..])
    decreases |re|, 1
  {
    hide Here, Parse;
    var i := 0;
    while true
      invariant 0 <= i <= |text| && AllAccepted(c, text[..i])
      invariant forall j :: 0 <= j < i ==> !Here(Parse(re), text[j..])
      decreases |text| - i
    {
      found := MatchHere(re, text[i..]);
      if found { return true; }
      if i == |text| || !(text[i] == c || c == '.') {
        assert forall j :: i < j <= |text| ==> text[..j][i] == text[i];
        return false;
      }
      assert text[..i + 1] == text[..i] + [text[i]];
      i := i + 1;
    }
  }
}
