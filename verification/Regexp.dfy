/** The matcher of grep.c, from chapter 9 of The Practice of Programming,
    against what its patterns denote. */
module Regexp {

  /** One element of a pattern. End is a $ in last place. */
  datatype Item = One(c: char) | Many(c: char) | End

  /** A pattern read as its elements. */
  function Parse(re: string): seq<Item> {
    if re == "" then []
    else if |re| > 1 && re[1] == '*' then [Many(re[0])] + Parse(re[2..])
    else if re == "$" then [End]
    else [One(re[0])] + Parse(re[1..])
  }

  // ----- A pattern and its elements

  function Write(items: seq<Item>): string {
    if items == [] then ""
    else
      (match items[0]
       case One(c) => [c]
       case Many(c) => [c, '*']
       case End => "$") + Write(items[1..])
  }

  /** Nothing in the list would be read as something else: a character before a star, a $ in last place,
      a $ that is meant as the end before that. */
  predicate Plain(items: seq<Item>) {
    items != [] ==>
      && (items[0].One? && |items| > 1 && !items[1].End? ==> items[1].c != '*')
      && (items[0] == One('$') ==> |items| > 1)
      && (items[0] == End ==> |items| == 1)
      && Plain(items[1..])
  }

  /** Every pattern reads as a list of elements that is written as that pattern. */
  lemma {:induction false} ParseWrites(re: string)
    ensures Write(Parse(re)) == re && Plain(Parse(re))
  {
    if re != "" {
      var n := if |re| > 1 && re[1] == '*' then 2 else 1;
      ParseWrites(re[n..]);
      assert re == re[..n] + re[n..];
      if re != "$" || n == 2 { assert Parse(re)[1..] == Parse(re[n..]); }
    }
  }

  /** Reading what was written gives the same elements exactly when none of them would be read as another. */
  lemma {:induction false} WriteParses(items: seq<Item>)
    ensures Parse(Write(items)) == items <==> Plain(items)
  {
    if Parse(Write(items)) == items {
      ParseWrites(Write(items));
    } else if Plain(items) {
      PlainParses(items);
      assert false;
    }
  }

  lemma {:induction false} PlainParses(items: seq<Item>)
    requires Plain(items)
    ensures Parse(Write(items)) == items
  {
    if items != [] {
      var re, more := Write(items), Write(items[1..]);
      PlainParses(items[1..]);
      assert items == [items[0]] + items[1..];
      match items[0]
      case One(c) =>
        assert re == [c] + more && re[1..] == more;
        StartsWith(items[1..]);
      case Many(c) => assert re == [c, '*'] + more && re[2..] == more;
      case End => assert items[1..] == [];
    }
  }

  lemma StartsWith(items: seq<Item>)
    ensures items == [] <==> Write(items) == ""
    ensures items != [] ==> Write(items)[0] == if items[0].End? then '$' else items[0].c
  {}

  // ----- What a pattern denotes

  predicate Fits(c: char, x: char) { c == '.' || c == x }

  /** The words an element stands for. */
  ghost predicate Stands(item: Item, w: string) {
    match item
    case One(c) => |w| == 1 && Fits(c, w[0])
    case Many(c) => forall i :: 0 <= i < |w| ==> Fits(c, w[i])
    case End => w == ""
  }

  function Flatten(pieces: seq<string>): string {
    if pieces == [] then "" else pieces[0] + Flatten(pieces[1..])
  }

  ghost predicate Pieces(items: seq<Item>, pieces: seq<string>) {
    |pieces| == |items| && forall i :: 0 <= i < |items| ==> Stands(items[i], pieces[i])
  }

  /** The language of a pattern: words that fall into one piece for each element. */
  ghost predicate Denotes(items: seq<Item>, w: string) {
    exists pieces: seq<string> :: Pieces(items, pieces) && Flatten(pieces) == w
  }

  ghost predicate Anchored(items: seq<Item>) { items != [] && items[|items| - 1] == End }

  ghost predicate Ends(items: seq<Item>, text: string, k: nat) {
    k <= |text| && Denotes(items, text[..k]) && (Anchored(items) ==> k == |text|)
  }

  /** Some prefix of the text is in the language; all of it, if the pattern ends in $. */
  ghost predicate Prefixed(items: seq<Item>, text: string) { exists k: nat :: Ends(items, text, k) }

  // ----- One element at a time

  lemma DenotesCons(item: Item, items: seq<Item>, x: string, w: string)
    requires Stands(item, x) && Denotes(items, w)
    ensures Denotes([item] + items, x + w)
  {
    var pieces: seq<string> :| Pieces(items, pieces) && Flatten(pieces) == w;
    assert ([x] + pieces)[1..] == pieces;
    assert Pieces([item] + items, [x] + pieces) && Flatten([x] + pieces) == x + w;
  }

  lemma DenotesSplit(item: Item, items: seq<Item>, w: string) returns (x: string)
    requires Denotes([item] + items, w)
    ensures x <= w && Stands(item, x) && Denotes(items, w[|x|..])
  {
    var pieces: seq<string> :| Pieces([item] + items, pieces) && Flatten(pieces) == w;
    x := pieces[0];
    assert ([item] + items)[0] == item;
    forall i | 0 <= i < |items| ensures Stands(items[i], pieces[1..][i]) { assert ([item] + items)[i + 1] == items[i]; }
    assert Pieces(items, pieces[1..]);
    assert w[|x|..] == Flatten(pieces[1..]);
  }

  lemma AnchoredCons(item: Item, items: seq<Item>)
    requires !item.End?
    ensures Anchored([item] + items) <==> Anchored(items)
  {
    if items != [] { assert ([item] + items)[|items|] == items[|items| - 1]; }
  }

  /** The first element takes a piece of the text and the rest goes on from there. */
  lemma PrefixedCons(item: Item, items: seq<Item>, text: string, x: string)
    requires !item.End? && x <= text && Stands(item, x) && Prefixed(items, text[|x|..])
    ensures Prefixed([item] + items, text)
  {
    var k: nat :| Ends(items, text[|x|..], k);
    DenotesCons(item, items, x, text[|x|..][..k]);
    AnchoredCons(item, items);
    assert x + text[|x|..][..k] == text[..|x| + k];
    assert Ends([item] + items, text, |x| + k);
  }

  lemma PrefixedSplit(item: Item, items: seq<Item>, text: string) returns (x: string)
    requires !item.End? && Prefixed([item] + items, text)
    ensures x <= text && Stands(item, x) && Prefixed(items, text[|x|..])
  {
    var k: nat :| Ends([item] + items, text, k);
    x := DenotesSplit(item, items, text[..k]);
    AnchoredCons(item, items);
    assert text[..k][|x|..] == text[|x|..][..k - |x|];
    assert Ends(items, text[|x|..], k - |x|);
  }

  lemma PrefixedNone(text: string)
    ensures Prefixed([], text)
  {
    assert Pieces([], []) && Flatten([]) == text[..0];
    assert Ends([], text, 0);
  }

  lemma PrefixedEnd(text: string)
    ensures Prefixed([End], text) <==> text == ""
  {
    if text == "" {
      assert Pieces([End], [""]) && Flatten([""]) == text[..0];
      assert Ends([End], text, 0);
    }
    if Prefixed([End], text) {
      var k: nat :| Ends([End], text, k);
      var x := DenotesSplit(End, [], text[..k]);
      assert [End] == [End] + [];
      var pieces: seq<string> :| Pieces([], pieces) && Flatten(pieces) == text[..k][|x|..];
    }
  }

  lemma PrefixedOne(c: char, items: seq<Item>, text: string)
    ensures Prefixed([One(c)] + items, text) <==> text != "" && Fits(c, text[0]) && Prefixed(items, text[1..])
  {
    if Prefixed([One(c)] + items, text) {
      var x := PrefixedSplit(One(c), items, text);
      assert x[0] == text[0];
    }
    if text != "" && Fits(c, text[0]) && Prefixed(items, text[1..]) {
      PrefixedCons(One(c), items, text, text[..1]);
    }
  }

  /** c* can take any number of fitting characters. */
  ghost predicate Skips(c: char, items: seq<Item>, text: string, j: nat) {
    j <= |text| && Stands(Many(c), text[..j]) && Prefixed(items, text[j..])
  }

  ghost predicate SkipsSome(c: char, items: seq<Item>, text: string) { exists j: nat :: Skips(c, items, text, j) }

  lemma PrefixedMany(c: char, items: seq<Item>, text: string)
    ensures Prefixed([Many(c)] + items, text) <==> SkipsSome(c, items, text)
  {
    if Prefixed([Many(c)] + items, text) {
      var x := PrefixedSplit(Many(c), items, text);
      assert text[..|x|] == x;
      assert Skips(c, items, text, |x|);
    }
    if SkipsSome(c, items, text) {
      var j: nat :| Skips(c, items, text, j);
      PrefixedCons(Many(c), items, text, text[..j]);
    }
  }

  /** A pattern without stars and without $ at its end: as many characters, each a dot or the same. */
  lemma {:induction false} PrefixedPlain(re: string, text: string)
    requires '*' !in re && (re != "" ==> re[|re| - 1] != '$')
    ensures Prefixed(Parse(re), text) <==>
      |re| <= |text| && forall i :: 0 <= i < |re| ==> re[i] == '.' || re[i] == text[i]
    decreases |re|
  {
    hide Prefixed;
    if re == "" {
      PrefixedNone(text);
    } else {
      PrefixedOne(re[0], Parse(re[1..]), text);
      if text != "" {
        PrefixedPlain(re[1..], text[1..]);
        assert forall i :: 1 <= i < |re| && i < |text| ==> re[i] == re[1..][i - 1] && text[i] == text[1..][i - 1];
      }
    }
  }

  // ----- The three functions

  /** matchhere: the pattern matches at the beginning of the text. */
  method MatchHere(re: string, text: string) returns (r: bool)
    ensures r <==> Prefixed(Parse(re), text)
    decreases |re|, 0
  {
    hide Prefixed, SkipsSome;
    if re == "" {
      assert Parse(re) == [];
      PrefixedNone(text);
      return true;
    }
    if |re| > 1 && re[1] == '*' {
      ghost var items := Parse(re[2..]);
      assert Parse(re) == [Many(re[0])] + items;
      PrefixedMany(re[0], items, text);
      r := MatchStar(re[0], re[2..], text);
      return;
    }
    if re == "$" {
      assert Parse(re) == [End];
      PrefixedEnd(text);
      return text == "";
    }
    PrefixedOne(re[0], Parse(re[1..]), text);
    if text != "" && (re[0] == '.' || re[0] == text[0]) {
      r := MatchHere(re[1..], text[1..]);
      return;
    }
    return false;
  }

  /** matchstar: c* and then the pattern match at the beginning of the text. */
  method MatchStar(c: char, re: string, text: string) returns (r: bool)
    ensures r <==> SkipsSome(c, Parse(re), text)
    decreases |re|, 1
  {
    hide Prefixed;
    var t := 0;
    while true
      invariant 0 <= t <= |text| && forall i :: 0 <= i < t ==> Fits(c, text[i])
      invariant forall j: nat :: j < t ==> !Prefixed(Parse(re), text[j..])
      decreases |text| - t
    {
      r := MatchHere(re, text[t..]);
      if r {
        assert Skips(c, Parse(re), text, t);
        return;
      }
      if t == |text| || !(text[t] == c || c == '.') { break; }
      t := t + 1;
    }
    forall j: nat ensures !Skips(c, Parse(re), text, j) {
      if t < j <= |text| { assert text[..j][t] == text[t]; }
    }
    return false;
  }

  ghost predicate MatchesAt(re: string, text: string, s: nat) { s <= |text| && Prefixed(Parse(re), text[s..]) }

  /** match: anywhere in the text, or only at its start when the pattern begins with ^. */
  method Match(re: string, text: string) returns (r: bool)
    ensures r <==> if re != "" && re[0] == '^' then MatchesAt(re[1..], text, 0)
                   else exists s: nat :: MatchesAt(re, text, s)
  {
    hide Prefixed;
    if re != "" && re[0] == '^' {
      assert text[0..] == text;
      r := MatchHere(re[1..], text);
      return;
    }
    var t := 0;
    while true
      invariant 0 <= t <= |text| && forall s: nat :: s < t ==> !MatchesAt(re, text, s)
      decreases |text| - t
    {
      r := MatchHere(re, text[t..]);
      if r {
        assert MatchesAt(re, text, t);
        return;
      }
      if t == |text| { break; }
      t := t + 1;
    }
    return false;
  }
}
