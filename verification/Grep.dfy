/** The regular-expression matcher of grep.c, after chapter 9 of Kernighan and Pike, The Practice
    of Programming. Strings are the characters before the terminating NUL. */
module Grep {
  // ---------------------------------------------------------------- the language of a pattern

  /** One character or any, repetitions of it, or the end of the text. */
  datatype Item = One(c: char) | Star(c: char) | End

  /** A pattern without its leading ^, read from the left: a character followed by * is a
      repetition, a final $ is the end of the text, anything else stands for itself or, if it
      is a dot, for any character. */
  function Items(re: string): seq<Item> {
    if re == [] then []
    else if |re| >= 2 && re[1] == '*' then [Star(re[0])] + Items(re[2..])
    else if re == "$" then [End]
    else [One(re[0])] + Items(re[1..])
  }

  predicate Matches(c: char, x: char) { c == '.' || c == x }

  /** The strings an item stands for. */
  predicate Piece(it: Item, p: string) {
    match it
    case One(c) => |p| == 1 && Matches(c, p[0])
    case Star(c) => forall k :: 0 <= k < |p| ==> Matches(c, p[k])
    case End => p == []
  }

  function Concat(pieces: seq<string>): string {
    if pieces == [] then [] else pieces[0] + Concat(pieces[1..])
  }

  /** The text is made of one piece for each item and a rest, which is empty if the pattern
      demands the end of the text. */
  ghost predicate Splits(items: seq<Item>, text: string, pieces: seq<string>, rest: string) {
    && |pieces| == |items| && (forall k :: 0 <= k < |items| ==> Piece(items[k], pieces[k]))
    && text == Concat(pieces) + rest && (End in items ==> rest == [])
  }

  /** Some prefix of the text is in the language of the items. */
  ghost predicate Denotes(items: seq<Item>, text: string) {
    exists pieces, rest :: Splits(items, text, pieces, rest)
  }

  // ---------------------------------------------------------------- how the language unfolds

  lemma SplitCons(it: Item, items: seq<Item>, text: string, p: string, pieces: seq<string>, rest: string)
    requires Splits(items, text, pieces, rest) && Piece(it, p) && (it == End ==> p + text == [])
    ensures Splits([it] + items, p + text, [p] + pieces, rest)
  {
    var all := [p] + pieces;
    assert all[1..] == pieces;
    assert Concat(all) + rest == p + (Concat(pieces) + rest);
  }

  lemma SplitTail(items: seq<Item>, text: string, pieces: seq<string>, rest: string)
    requires items != [] && Splits(items, text, pieces, rest)
    ensures Piece(items[0], pieces[0]) && pieces[0] <= text && Splits(items[1..], text[|pieces[0]|..], pieces[1..], rest)
  {
    assert text == pieces[0] + (Concat(pieces[1..]) + rest);
    assert forall x :: x in items[1..] ==> x in items;
  }

  lemma DenotesNothing(text: string)
    ensures Denotes([], text)
  {
    var none: seq<string> := [];
    assert Splits([], text, none, text);
  }

  lemma DenotesEnd(text: string)
    ensures Denotes([End], text) <==> text == []
  {
    if text == [] {
      var one: seq<string> := [""];
      assert Concat(one) == "" + Concat(one[1..]);
      assert Splits([End], text, one, "");
    }
    if Denotes([End], text) {
      var pieces, rest :| Splits([End], text, pieces, rest);
      SplitTail([End], text, pieces, rest);
      assert pieces[1..] == [];
    }
  }

  lemma DenotesOne(c: char, items: seq<Item>, text: string)
    ensures Denotes([One(c)] + items, text) <==> text != [] && Matches(c, text[0]) && Denotes(items, text[1..])
  {
    var all := [One(c)] + items;
    assert all[1..] == items;
    if Denotes(all, text) {
      var pieces, rest :| Splits(all, text, pieces, rest);
      SplitTail(all, text, pieces, rest);
      assert text[|pieces[0]|..] == text[1..];
    }
    if text != [] && Matches(c, text[0]) && Denotes(items, text[1..]) {
      var pieces, rest :| Splits(items, text[1..], pieces, rest);
      SplitCons(One(c), items, text[1..], text[..1], pieces, rest);
      assert text[..1] + text[1..] == text;
    }
  }

  /** The first j characters of the text are instances of c. */
  predicate Repeats(c: char, text: string, j: nat) {
    j <= |text| && forall k :: 0 <= k < j ==> Matches(c, text[k])
  }

  lemma DenotesStar(c: char, items: seq<Item>, text: string)
    ensures Denotes([Star(c)] + items, text) <==> exists j :: 0 <= j <= |text| && Repeats(c, text, j) && Denotes(items, text[j..])
  {
    var all := [Star(c)] + items;
    assert all[1..] == items;
    if Denotes(all, text) {
      var pieces, rest :| Splits(all, text, pieces, rest);
      SplitTail(all, text, pieces, rest);
      var j := |pieces[0]|;
      assert Repeats(c, text, j) && Denotes(items, text[j..]);
    }
    if exists j :: 0 <= j <= |text| && Repeats(c, text, j) && Denotes(items, text[j..]) {
      var j :| 0 <= j <= |text| && Repeats(c, text, j) && Denotes(items, text[j..]);
      var pieces, rest :| Splits(items, text[j..], pieces, rest);
      SplitCons(Star(c), items, text[j..], text[..j], pieces, rest);
      assert text[..j] + text[j..] == text;
    }
  }

  // ---------------------------------------------------------------- the matcher

  /** matchhere: whether a prefix of the text is in the language. */
  method MatchHere(re: string, text: string) returns (r: bool)
    ensures r <==> Denotes(Items(re), text)
    decreases |re|, 0
  {
    if re == [] {
      DenotesNothing(text);
      return true;
    }
    if |re| >= 2 && re[1] == '*' {
      DenotesStar(re[0], Items(re[2..]), text);
      r := MatchStar(re[0], re[2..], text);
      return;
    }
    if re == "$" {
      DenotesEnd(text);
      return text == [];
    }
    DenotesOne(re[0], Items(re[1..]), text);
    if text != [] && (re[0] == '.' || re[0] == text[0]) {
      r := MatchHere(re[1..], text[1..]);
      return;
    }
    return false;
  }

  /** matchstar: tries the rest of the pattern after zero, one, two, ... instances of c. */
  method MatchStar(c: char, re: string, text: string) returns (r: bool)
    ensures r <==> exists j :: 0 <= j <= |text| && Repeats(c, text, j) && Denotes(Items(re), text[j..])
    decreases |re|, 1
  {
    var i := 0;
    while true
      invariant 0 <= i <= |text| && Repeats(c, text, i)
      invariant forall j :: 0 <= j < i ==> !Denotes(Items(re), text[j..])
      decreases |text| - i
    {
      r := MatchHere(re, text[i..]);
      if r {
        return true;
      }
      if i == |text| || !(text[i] == c || c == '.') {
        return false;
      }
      i := i + 1;
    }
  }

  /** match: anywhere in the text, the empty suffix included, or only at its start after ^. */
  method Match(re: string, text: string) returns (r: bool)
    ensures re != [] && re[0] == '^' ==> (r <==> Denotes(Items(re[1..]), text))
    ensures re == [] || re[0] != '^' ==> (r <==> exists i :: 0 <= i <= |text| && Denotes(Items(re), text[i..]))
  {
    if re != [] && re[0] == '^' {
      r := MatchHere(re[1..], text);
      return;
    }
    var i := 0;
    while true
      invariant 0 <= i <= |text| && forall j :: 0 <= j < i ==> !Denotes(Items(re), text[j..])
      decreases |text| - i
    {
      r := MatchHere(re, text[i..]);
      if r {
        return true;
      }
      if i == |text| {
        return false;
      }
      i := i + 1;
    }
  }
}
