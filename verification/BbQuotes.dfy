/** The check of a user page: no content that is all quotes, and no tag errors. */
module BbQuotes {
  import opened Wrappers
  import opened BbCode

  const QUOTE := "[quote"
  const QUOTE_END := BbText(true, "quote")

  /** The length of `\[quote(?:=[^\]]+)?\]` at the start of the text. */
  function OpeningLength(text: string): (n: Option<nat>)
    ensures n.Some? ==> 0 < n.value <= |text|
  {
    if !Matches(text, QUOTE) || |text| == |QUOTE| then None
    else if text[|QUOTE|] == ']' then Some(|QUOTE| + 1)
    else if text[|QUOTE|] != '=' then None
    else
      var begin := |QUOTE| + 1;
      var close := begin + BracketAt(text[begin..]);
      if close == begin || close == |text| then None else Some(close + 1)
  }

  /** Where the first closing quote tag ends. */
  function ClosingEnd(text: string): (n: Option<nat>)
    ensures n.Some? ==> 0 < n.value <= |text|
    decreases |text|
  {
    if Matches(text, QUOTE_END) then Some(|QUOTE_END|)
    else if text == "" || ClosingEnd(text[1..]).None? then None
    else Some(1 + ClosingEnd(text[1..]).value)
  }

  /** The length of the quote block that starts here. */
  function QuoteLength(text: string): (n: Option<nat>)
    ensures n.Some? ==> 0 < n.value <= |text|
  {
    var opening := OpeningLength(text);
    if opening.None? then None
    else
      var end := ClosingEnd(text[opening.value..]);
      if end.None? then None else Some(opening.value + end.value)
  }

  function WithoutQuotes(text: string): string
    decreases |text|
  {
    if text == "" then ""
    else
      var n := QuoteLength(text);
      if n.Some? then WithoutQuotes(text[n.value..]) else [text[0]] + WithoutQuotes(text[1..])
  }

  predicate Blank(text: string) { forall i :: 0 <= i < |text| ==> IsSpace(text[i]) }

  predicate AllQuotes(content: string) { !Blank(content) && Blank(WithoutQuotes(content)) }

  datatype ContentError = OnlyQuotes | InTags(error: TagError)

  function InContent(errors: seq<TagError>): (r: seq<ContentError>)
    ensures |r| == |errors|
  {
    seq(|errors|, i requires 0 <= i < |errors| => InTags(errors[i]))
  }

  method ValidateBbcode(content: string) returns (errors: seq<ContentError>)
    ensures errors == (if AllQuotes(content) then [OnlyQuotes] else []) + InContent(StackPass(Tags(content), []))
  {
    errors := [];
    if AllQuotes(content) { errors := [OnlyQuotes]; }
    var inTags := ValidateTags(content);
    errors := errors + InContent(inTags);
  }

  // ----- what the check accepts -----

  /** One quote block: an opening tag, text without a closing quote tag, and that tag. */
  ghost predicate IsQuote(text: string) { QuoteLength(text) == Some(|text|) }

  datatype Piece = Space(c: char) | Quote(text: string)

  ghost predicate Proper(piece: Piece) {
    match piece
    case Space(c) => IsSpace(c)
    case Quote(text) => IsQuote(text)
  }

  function PieceText(piece: Piece): string {
    match piece
    case Space(c) => [c]
    case Quote(text) => text
  }

  function Joined(pieces: seq<Piece>): string {
    if pieces == [] then "" else PieceText(pieces[0]) + Joined(pieces[1..])
  }

  /** White space and quote blocks, at least one of these. */
  ghost predicate QuotesAndSpace(content: string, pieces: seq<Piece>) {
    && Joined(pieces) == content
    && (forall k :: 0 <= k < |pieces| ==> Proper(pieces[k]))
    && exists k :: 0 <= k < |pieces| && pieces[k].Quote?
  }

  lemma {:induction false} BracketStays(text: string, more: string)
    requires BracketAt(text) < |text|
    ensures BracketAt(text + more) == BracketAt(text)
  {
    if text[0] != ']' {
      assert (text + more)[1..] == text[1..] + more;
      BracketStays(text[1..], more);
    }
  }

  lemma MatchStays(text: string, more: string, pattern: string)
    requires |text| >= |pattern|
    ensures Matches(text + more, pattern) <==> Matches(text, pattern)
  {
    assert (text + more)[..|pattern|] == text[..|pattern|];
  }

  lemma OpeningStays(text: string, more: string)
    requires OpeningLength(text).Some?
    ensures OpeningLength(text + more) == OpeningLength(text)
  {
    hide BracketAt, Matches;
    MatchStays(text, more, QUOTE);
    LongEnough(text);
    var begin := |QUOTE| + 1;
    assert (text + more)[|QUOTE|] == text[|QUOTE|];
    if text[|QUOTE|] == '=' {
      assert (text + more)[begin..] == text[begin..] + more;
      BracketStays(text[begin..], more);
    }
  }

  lemma LongEnough(text: string)
    ensures Matches(text, QUOTE) ==> |text| >= |QUOTE|
  {}

  lemma {:induction false} ClosingStays(text: string, more: string)
    requires ClosingEnd(text).Some?
    ensures ClosingEnd(text + more) == ClosingEnd(text)
    decreases |text|
  {
    hide Matches;
    EndIsWithin(text);
    MatchStays(text, more, QUOTE_END);
    if !Matches(text, QUOTE_END) {
      assert (text + more)[1..] == text[1..] + more;
      ClosingStays(text[1..], more);
    }
  }

  lemma {:induction false} EndIsWithin(text: string)
    requires ClosingEnd(text).Some?
    ensures |QUOTE_END| <= ClosingEnd(text).value <= |text|
    decreases |text|
  {
    if !Matches(text, QUOTE_END) { EndIsWithin(text[1..]); }
  }

  lemma QuoteStays(text: string, more: string)
    requires QuoteLength(text).Some?
    ensures QuoteLength(text + more) == QuoteLength(text)
  {
    hide OpeningLength, ClosingEnd;
    OpeningStays(text, more);
    var n := OpeningLength(text).value;
    assert (text + more)[n..] == text[n..] + more;
    ClosingStays(text[n..], more);
  }

  lemma {:induction false} QuoteEndsItself(text: string)
    requires QuoteLength(text).Some?
    ensures IsQuote(text[..QuoteLength(text).value])
  {
    hide OpeningLength, ClosingEnd;
    var n := OpeningLength(text).value;
    var e := ClosingEnd(text[n..]).value;
    OpeningFits(text, n + e);
    ClosingFits(text[n..], e);
    assert text[..n + e][n..] == text[n..][..e];
  }

  lemma OpeningFits(text: string, k: nat)
    requires OpeningLength(text).Some? && OpeningLength(text).value <= k <= |text|
    ensures OpeningLength(text[..k]) == OpeningLength(text)
  {
    hide BracketAt, Matches;
    LongEnough(text);
    var short := text[..k];
    assert short + text[k..] == text;
    MatchStays(short, text[k..], QUOTE);
    assert short[|QUOTE|] == text[|QUOTE|];
    var begin := |QUOTE| + 1;
    if text[|QUOTE|] == '=' {
      assert short[begin..] == text[begin..][..k - begin];
      BracketFits(text[begin..], k - begin);
    }
  }

  lemma {:induction false} BracketFits(text: string, k: nat)
    requires BracketAt(text) < k <= |text|
    ensures BracketAt(text[..k]) == BracketAt(text)
  {
    if text[0] != ']' {
      assert text[..k][1..] == text[1..][..k - 1];
      BracketFits(text[1..], k - 1);
    }
  }

  lemma {:induction false} ClosingFits(text: string, k: nat)
    requires ClosingEnd(text) == Some(k)
    ensures ClosingEnd(text[..k]) == Some(k)
    decreases |text|
  {
    hide Matches;
    EndIsWithin(text);
    assert text[..k] + text[k..] == text;
    MatchStays(text[..k], text[k..], QUOTE_END);
    if !Matches(text, QUOTE_END) {
      assert text[..k][1..] == text[1..][..k - 1];
      ClosingFits(text[1..], k - 1);
    }
  }

  lemma SpaceStartsNoQuote(text: string)
    requires text != "" && IsSpace(text[0])
    ensures QuoteLength(text).None?
  {
    if Matches(text, QUOTE) { PatternBeginsWithBracket(text, QUOTE); }
  }

  /** What remains of proper pieces is their white space. */
  lemma {:induction false} OnlySpaceRemains(pieces: seq<Piece>)
    requires forall k :: 0 <= k < |pieces| ==> Proper(pieces[k])
    ensures Blank(WithoutQuotes(Joined(pieces)))
    ensures (exists k :: 0 <= k < |pieces| && pieces[k].Quote?) ==> !Blank(Joined(pieces))
  {
    hide QuoteLength;
    if pieces != [] {
      var rest := Joined(pieces[1..]);
      assert Proper(pieces[0]);
      OnlySpaceRemains(pieces[1..]);
      match pieces[0] {
        case Space(c) =>
          SpaceStartsNoQuote([c] + rest);
          assert ([c] + rest)[1..] == rest;
        case Quote(text) =>
          QuoteStays(text, rest);
          QuoteIsNotBlank(text, rest);
          assert (text + rest)[|text|..] == rest;
      }
    }
  }

  lemma QuoteIsNotBlank(text: string, more: string)
    requires IsQuote(text)
    ensures text != "" && !Blank(text + more)
  {
    if IsSpace((text + more)[0]) { SpaceStartsNoQuote(text); }
  }

  /** Text of which only white space remains consists of proper pieces. */
  lemma {:induction false} PiecesOf(text: string) returns (pieces: seq<Piece>)
    requires Blank(WithoutQuotes(text))
    ensures Joined(pieces) == text && forall k :: 0 <= k < |pieces| ==> Proper(pieces[k])
    ensures Blank(text) || exists k :: 0 <= k < |pieces| && pieces[k].Quote?
    decreases |text|
  {
    hide QuoteLength;
    if text == "" {
      pieces := [];
    } else if QuoteLength(text).Some? {
      var n := QuoteLength(text).value;
      var rest := PiecesOf(text[n..]);
      QuoteEndsItself(text);
      pieces := [Quote(text[..n])] + rest;
      assert pieces[1..] == rest && text == text[..n] + text[n..] && pieces[0].Quote?;
    } else {
      var left := WithoutQuotes(text);
      assert left == [text[0]] + WithoutQuotes(text[1..]);
      assert left[0] == text[0] && left[1..] == WithoutQuotes(text[1..]);
      var rest := PiecesOf(text[1..]);
      pieces := [Space(text[0])] + rest;
      assert pieces[1..] == rest && text == [text[0]] + text[1..];
      if exists k :: 0 <= k < |rest| && rest[k].Quote? {
        var k :| 0 <= k < |rest| && rest[k].Quote?;
        assert pieces[k + 1].Quote?;
      }
    }
  }

  /** The first error is reported exactly for white space and quote blocks. */
  lemma AllQuotesIff(content: string)
    ensures AllQuotes(content) <==> exists pieces :: QuotesAndSpace(content, pieces)
  {
    hide WithoutQuotes, Joined, Proper;
    if AllQuotes(content) {
      var pieces := PiecesOf(content);
      assert QuotesAndSpace(content, pieces);
    }
    if exists pieces :: QuotesAndSpace(content, pieces) {
      var pieces :| QuotesAndSpace(content, pieces);
      OnlySpaceRemains(pieces);
    }
  }
}
