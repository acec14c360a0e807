/** What the patterns of the content check and of the list items match, told on the characters of the text. */
module BbShapes {
  import opened Wrappers
  import opened BbCode
  import opened BbQuotes
  import opened BbLists

  // ----- one tag -----

  /** The letter in lower case. */
  predicate IsLowerOf(low: char, c: char) {
    if 'A' <= c <= 'Z' then 'a' <= low <= 'z' && low as int - 'a' as int == c as int - 'A' as int else low == c
  }

  predicate IsNameChar(c: char) { 'a' <= c <= 'z' || 'A' <= c <= 'Z' || '0' <= c <= '9' || c == '_' }

  /** An equals sign, at least one character and no closing bracket. */
  ghost predicate IsAttribute(text: string, from: nat, to: nat) {
    && from + 1 < to <= |text| && text[from] == '=' && forall i :: from < i < to ==> text[i] != ']'
  }

  /**
   * The first `n` characters are a tag whose name ends at `end`: a bracket, a slash if it closes, a word, perhaps an
   * attribute, and a bracket. The tag has the word in lower case.
   */
  ghost predicate IsTagText(text: string, n: nat, tag: Tag, end: nat) {
    var start := if tag.closing then 2 else 1;
    && start < end < n <= |text| && text[0] == '[' && (tag.closing ==> text[1] == '/') && text[n - 1] == ']'
    && (forall i :: start <= i < end ==> IsNameChar(text[i]))
    && (end == n - 1 || IsAttribute(text, end, n - 1))
    && |tag.name| == end - start && forall i :: 0 <= i < |tag.name| ==> IsLowerOf(tag.name[i], text[start + i])
  }

  lemma {:induction false} BracketIsFirst(text: string, n: nat)
    ensures BracketAt(text) == n <==>
      n <= |text| && (forall i :: 0 <= i < n ==> text[i] != ']') && (n < |text| ==> text[n] == ']')
  {
    if text != "" && text[0] != ']' {
      if n > 0 { BracketIsFirst(text[1..], n - 1); }
      if n > 0 && n <= |text| && forall i :: 0 <= i < n ==> text[i] != ']' {
        assert forall i :: 0 <= i < n - 1 ==> text[1..][i] == text[i + 1];
      }
      if n > 0 && BracketAt(text) == n {
        forall i | 0 <= i < n ensures text[i] != ']' {
          if i > 0 { assert text[i] == text[1..][i - 1]; }
        }
      }
    }
  }

  lemma LowerLetters(text: string, low: string)
    ensures low == Lower(text) <==> |low| == |text| && forall i :: 0 <= i < |text| ==> IsLowerOf(low[i], text[i])
  {
  }

  lemma ScannedIsTag(text: string)
    requires MatchTag(text).Some?
    ensures exists end: nat :: IsTagText(text, MatchTag(text).value.length, MatchTag(text).value.tag, end)
  {
    hide WordLength, BracketAt, Lower, IsAttribute;
    var m := MatchTag(text).value;
    var start := if m.tag.closing then 2 else 1;
    var end := start + WordLength(text[start..]);
    assert start < end < |text| && m.tag.name == Lower(text[start..end]);
    WordIsName(text, start, end, m.tag.name);
    if text[end] != ']' {
      assert m.length == end + 2 + BracketAt(text[end + 1..]);
      BracketIsFirst(text[end + 1..], BracketAt(text[end + 1..]));
      AttributeIs(text, end, m.length - 1, text[end + 1..]);
    }
    assert IsTagText(text, m.length, m.tag, end);
  }

  lemma WordIsName(text: string, start: nat, end: nat, name: string)
    requires start < end < |text| && end == start + WordLength(text[start..]) && name == Lower(text[start..end])
    ensures forall i :: start <= i < end ==> IsNameChar(text[i])
    ensures |name| == end - start && forall i :: 0 <= i < |name| ==> IsLowerOf(name[i], text[start + i])
  {
    LowerLetters(text[start..end], name);
    hide WordLength, Lower;
    forall i | start <= i < end ensures IsNameChar(text[i]) { assert text[i] == text[start..][i - start]; }
    forall i | 0 <= i < |name| ensures IsLowerOf(name[i], text[start + i]) {
      assert text[start..end][i] == text[start + i];
    }
  }

  lemma AttributeIs(text: string, from: nat, to: nat, rest: string)
    requires from + 1 < to < |text| && text[from] == '=' && rest == text[from + 1..]
    requires forall i :: 0 <= i < to - from - 1 ==> rest[i] != ']'
    ensures IsAttribute(text, from, to)
  {
    forall i | from < i < to ensures text[i] != ']' { assert text[i] == rest[i - from - 1]; }
  }

  lemma TagIsScanned(text: string, n: nat, tag: Tag, end: nat)
    requires IsTagText(text, n, tag, end)
    ensures MatchTag(text) == Some(Match(n, tag))
  {
    hide WordLength, BracketAt, Lower, IsLowerOf, IsAttribute;
    var start := if tag.closing then 2 else 1;
    NameEndsAt(text, start, end, n);
    NameIsLower(text, start, end, tag.name);
    if end < n - 1 { AttributeEnds(text, end, n - 1); }
  }

  lemma NameEndsAt(text: string, start: nat, end: nat, n: nat)
    requires start < end < n <= |text| && (forall i :: start <= i < end ==> IsNameChar(text[i]))
    requires text[n - 1] == ']' && (end == n - 1 || IsAttribute(text, end, n - 1))
    ensures WordLength(text[start..]) == end - start && text[start] != '/'
  {
    var rest := text[start..];
    forall i | 0 <= i < end - start ensures IsNameChar(rest[i]) { assert rest[i] == text[start + i]; }
    WordEndsAt(rest, end - start);
  }

  lemma NameIsLower(text: string, start: nat, end: nat, name: string)
    requires start <= end <= |text| && |name| == end - start
    requires forall i :: 0 <= i < |name| ==> IsLowerOf(name[i], text[start + i])
    ensures name == Lower(text[start..end])
  {
    hide IsLowerOf, Lower;
    forall i | 0 <= i < |name| ensures IsLowerOf(name[i], text[start..end][i]) {
      assert text[start..end][i] == text[start + i];
    }
    LowerLetters(text[start..end], name);
  }

  lemma WordEndsAt(text: string, n: nat)
    requires n < |text| && (forall i :: 0 <= i < n ==> IsNameChar(text[i])) && !IsNameChar(text[n])
    ensures WordLength(text) == n
  {
  }

  /** The scanner finds a tag at the start of the text exactly when one is there. */
  lemma ScannerFindsTagsIff(text: string, n: nat, tag: Tag)
    ensures MatchTag(text) == Some(Match(n, tag)) <==> exists end: nat :: IsTagText(text, n, tag, end)
  {
    hide MatchTag, IsTagText;
    if MatchTag(text) == Some(Match(n, tag)) { ScannedIsTag(text); }
    if end: nat :| IsTagText(text, n, tag, end) { TagIsScanned(text, n, tag, end); }
  }

  ghost predicate StartsTag(text: string) { exists n: nat, tag, end: nat :: IsTagText(text, n, tag, end) }

  lemma StartsTagIff(text: string)
    ensures MatchTag(text).Some? <==> StartsTag(text)
  {
    hide MatchTag, IsTagText;
    if MatchTag(text).Some? { ScannedIsTag(text); }
    if n: nat, tag, end: nat :| IsTagText(text, n, tag, end) { TagIsScanned(text, n, tag, end); }
  }

  /** The tags are found left to right: the first is the one at the first place where a tag starts. */
  lemma {:induction false} TagsGoOn(text: string, k: nat)
    requires k <= |text| && forall i :: 0 <= i < k ==> !StartsTag(text[i..])
    ensures k == |text| ==> Tags(text) == []
    ensures forall n: nat, tag, end: nat :: IsTagText(text[k..], n, tag, end) ==>
      Tags(text) == [tag] + Tags(text[k..][n..])
    decreases k
  {
    hide MatchTag, StartsTag;
    if k == 0 {
      forall n: nat, tag, end: nat | IsTagText(text[k..], n, tag, end)
        ensures Tags(text) == [tag] + Tags(text[k..][n..])
      {
        assert text[k..] == text;
        TagIsScanned(text, n, tag, end);
        TagTextNotEmpty(text, n, tag, end);
      }
    } else {
      assert text[0..] == text;
      StartsTagIff(text);
      assert forall i :: 0 <= i < k - 1 ==> text[1..][i..] == text[i + 1..];
      TagsGoOn(text[1..], k - 1);
      assert text[1..][k - 1..] == text[k..];
    }
  }

  lemma TagTextNotEmpty(text: string, n: nat, tag: Tag, end: nat)
    requires IsTagText(text, n, tag, end)
    ensures text != ""
  {
  }

  // ----- one quote block -----

  /** The pattern stands at position `at` in any mix of cases. */
  ghost predicate StandsAt(text: string, at: nat, pattern: string) {
    at + |pattern| <= |text| && forall i :: 0 <= i < |pattern| ==> IsLowerOf(pattern[i], text[at + i])
  }

  lemma MatchesIff(text: string, at: nat, pattern: string)
    requires at <= |text|
    ensures Matches(text[at..], pattern) <==> StandsAt(text, at, pattern)
  {
    var here := text[at..];
    if |here| >= |pattern| {
      LowerLetters(here[..|pattern|], pattern);
      assert forall i :: 0 <= i < |pattern| ==> here[..|pattern|][i] == text[at + i];
    }
    hide Lower;
  }

  /** The first `a` characters open a quote. */
  ghost predicate OpensQuote(text: string, a: nat) {
    && StandsAt(text, 0, "[quote") && 7 <= a <= |text| && text[a - 1] == ']'
    && (a == 7 || IsAttribute(text, 6, a - 1))
  }

  lemma OpeningIff(text: string, a: nat)
    ensures OpeningLength(text) == Some(a) <==> OpensQuote(text, a)
  {
    hide OpeningLength, OpensQuote;
    if OpensQuote(text, a) { OpeningIsFound(text, a); }
    if OpeningLength(text) == Some(a) { FoundOpens(text, a); }
  }

  lemma OpeningIsFound(text: string, a: nat)
    requires OpensQuote(text, a)
    ensures OpeningLength(text) == Some(a)
  {
    assert text[0..] == text;
    MatchesIff(text, 0, "[quote");
    hide Matches, StandsAt, BracketAt, IsAttribute;
    if a > 7 { AttributeEnds(text, 6, a - 1); }
  }

  lemma FoundOpens(text: string, a: nat)
    requires OpeningLength(text) == Some(a)
    ensures OpensQuote(text, a)
  {
    assert text[0..] == text;
    MatchesIff(text, 0, "[quote");
    hide Matches, StandsAt, BracketAt;
    StandsWithin(text, 0, "[quote");
    if a > 7 {
      BracketIsFirst(text[7..], BracketAt(text[7..]));
      AttributeIs(text, 6, a - 1, text[7..]);
    }
  }

  lemma StandsWithin(text: string, at: nat, pattern: string)
    requires StandsAt(text, at, pattern)
    ensures at + |pattern| <= |text|
  {
  }

  lemma AttributeEnds(text: string, from: nat, to: nat)
    requires IsAttribute(text, from, to) && to < |text| && text[to] == ']'
    ensures from + 1 < to && text[from] == '=' && BracketAt(text[from + 1..]) == to - from - 1
  {
    var rest := text[from + 1..];
    assert forall i :: 0 <= i < to - from - 1 ==> rest[i] == text[from + 1 + i];
    BracketIsFirst(rest, to - from - 1);
  }

  /** The first closing quote tag from `a` on stands at `b`. */
  ghost predicate ClosesFirstAt(text: string, a: nat, b: nat) {
    a <= b && StandsAt(text, b, "[/quote]") && forall i :: a <= i < b ==> !StandsAt(text, i, "[/quote]")
  }

  lemma {:induction false} ClosingIff(text: string, a: nat, b: nat)
    requires a <= b && b + 8 <= |text|
    ensures ClosingEnd(text[a..]) == Some(b - a + 8) <==> ClosesFirstAt(text, a, b)
    decreases |text| - a
  {
    hide Matches, StandsAt;
    assert QUOTE_END == "[/quote]";
    MatchesIff(text, a, QUOTE_END);
    if !Matches(text[a..], QUOTE_END) {
      assert text[a..][1..] == text[a + 1..];
      if a < b {
        ClosingIff(text, a + 1, b);
      } else if ClosingEnd(text[a..]) == Some(8) {
        EndIsWithin(text[a + 1..]);
      }
    }
  }

  /**
   * A quote block is an opening tag, text without a closing quote tag, and the closing tag it ends with; the names in
   * any mix of cases.
   */
  lemma QuoteIff(text: string)
    ensures IsQuote(text) <==>
      |text| >= 8 && exists a: nat :: OpensQuote(text, a) && ClosesFirstAt(text, a, |text| - 8)
  {
    hide OpeningLength, ClosingEnd, OpensQuote, StandsAt, ClosesFirstAt;
    if IsQuote(text) {
      var a := OpeningLength(text).value;
      OpeningIff(text, a);
      EndIsWithin(text[a..]);
      ClosingIff(text, a, |text| - 8);
    }
    if |text| >= 8 {
      if a: nat :| OpensQuote(text, a) && ClosesFirstAt(text, a, |text| - 8) {
        OpeningIff(text, a);
        InOrder(text, a, |text| - 8);
        ClosingIff(text, a, |text| - 8);
      }
    }
  }

  lemma InOrder(text: string, a: nat, b: nat)
    requires ClosesFirstAt(text, a, b)
    ensures a <= b
  {
  }

  // ----- one list item -----

  predicate IsBlank(c: char) { c in " \t\n\r" || c == 11 as char || c == 12 as char || 28 as char <= c <= 31 as char }

  predicate StarsAt(text: string, i: nat) {
    i + 3 <= |text| && text[i] == '[' && text[i + 1] == '*' && text[i + 2] == ']'
  }

  /** An item ends here: the text does, but for a line break, or another item or the end of a list begins. */
  ghost predicate ItemStops(text: string, i: nat) {
    i == |text| || (i + 1 == |text| && text[i] == '\n') || StarsAt(text, i) || StandsAt(text, i, "[/list]")
  }

  function ItemOf(content: string): string { "<li>" + content + "</li>" }

  lemma {:induction false} PassSkipsTo(text: string, k: nat)
    requires k <= |text| && forall i :: 0 <= i < k ==> !StarsAt(text, i)
    ensures ItemPass(text) == text[..k] + ItemPass(text[k..])
    decreases k
  {
    hide ItemPass, StarsAt;
    if k > 0 {
      PassCopies(text);
      forall i | 0 <= i < k - 1 ensures !StarsAt(text[1..], i) { StarsMove(text, i); }
      PassSkipsTo(text[1..], k - 1);
      assert text[1..][k - 1..] == text[k..];
      Regrouped([text[0]], text[1..][..k - 1], ItemPass(text[k..]));
      assert text[..k] == [text[0]] + text[1..][..k - 1];
    } else {
      assert text[..0] == "" && text[0..] == text && "" + ItemPass(text) == ItemPass(text);
    }
  }

  lemma StarsMove(text: string, i: nat)
    requires text != "" && !StarsAt(text, i + 1)
    ensures !StarsAt(text[1..], i)
  {
  }

  lemma PassCopies(text: string)
    requires text != "" && !StarsAt(text, 0)
    ensures ItemPass(text) == [text[0]] + ItemPass(text[1..])
  {
    hide SkipSpaces, ItemEnd;
  }

  lemma {:induction false} SpacesSkippedTo(text: string, k: nat)
    requires k <= |text| && (forall i :: 0 <= i < k ==> IsBlank(text[i])) && (k < |text| ==> !IsBlank(text[k]))
    ensures SkipSpaces(text) == text[k..]
    decreases k
  {
    if k > 0 {
      forall i | 0 <= i < k - 1 ensures IsBlank(text[1..][i]) { assert text[1..][i] == text[i + 1]; }
      SpacesSkippedTo(text[1..], k - 1);
      assert text[1..][k - 1..] == text[k..];
    }
  }

  lemma {:induction false} ItemEndsAt(text: string, from: nat, n: nat)
    requires from + n <= |text| && ItemStops(text, from + n)
    requires forall i :: from <= i < from + n ==> !ItemStops(text, i)
    ensures ItemEnd(text[from..]) == n
    decreases n
  {
    StopsIff(text, from);
    hide ItemStops, ItemEnd;
    if n > 0 { ItemEndsAt(text, from + 1, n - 1); }
  }

  lemma StopsIff(text: string, from: nat)
    requires from <= |text|
    ensures ItemStops(text, from) ==> ItemEnd(text[from..]) == 0
    ensures !ItemStops(text, from) ==> from < |text| && ItemEnd(text[from..]) == 1 + ItemEnd(text[from + 1..])
  {
    hide StandsAt, Matches;
    assert LIST_END == "[/list]";
    MatchesIff(text, from, LIST_END);
    var here := text[from..];
    assert StartsItem(here) <==> StarsAt(text, from);
    assert here == "\n" <==> from + 1 == |text| && text[from] == '\n';
    if here != "" { assert here[1..] == text[from + 1..]; }
  }

  /**
   * The item pass leaves the text before the first `[*]`, at `k`, drops that and the white space behind it, up to `i`,
   * and puts an item around what stands from there to where the item first stops, at `j`.
   */
  lemma FirstItemIsWritten(text: string, k: nat, i: nat, j: nat)
    requires k + 3 <= i <= j <= |text|
    requires StarsAt(text, k) && forall p :: 0 <= p < k ==> !StarsAt(text, p)
    requires (forall p :: k + 3 <= p < i ==> IsBlank(text[p])) && (i < |text| ==> !IsBlank(text[i]))
    requires ItemStops(text, j) && forall p :: i <= p < j ==> !ItemStops(text, p)
    ensures ItemPass(text) == text[..k] + ItemOf(text[i..j]) + ItemPass(text[j..])
  {
    hide ItemStops, ItemPass, SkipSpaces, ItemEnd, IsBlank, StarsAt, StartsItem, ItemOf;
    PassSkipsTo(text, k);
    StartsHere(text, k);
    SpacesBehind(text, k, i);
    ItemEndsAt(text, i, j - i);
    ItemAtStart(text[k..], text[i..], j - i);
    PutTogether(text, k, i, j);
  }

  lemma PutTogether(text: string, k: nat, i: nat, j: nat)
    requires k <= i <= j <= |text|
    requires ItemPass(text) == text[..k] + ItemPass(text[k..])
    requires ItemPass(text[k..]) == ItemOf(text[i..][..j - i]) + ItemPass(text[i..][j - i..])
    ensures ItemPass(text) == text[..k] + ItemOf(text[i..j]) + ItemPass(text[j..])
  {
    hide ItemPass, ItemOf;
    assert text[i..][..j - i] == text[i..j] && text[i..][j - i..] == text[j..];
    Regrouped(text[..k], ItemOf(text[i..j]), ItemPass(text[j..]));
  }

  lemma StartsHere(text: string, k: nat)
    requires StarsAt(text, k)
    ensures StartsItem(text[k..])
  {
  }

  lemma SpacesBehind(text: string, k: nat, i: nat)
    requires k + 3 <= i <= |text|
    requires (forall p :: k + 3 <= p < i ==> IsBlank(text[p])) && (i < |text| ==> !IsBlank(text[i]))
    ensures SkipSpaces(text[k..][3..]) == text[i..]
  {
    hide SkipSpaces, IsBlank;
    var rest := text[k + 3..];
    assert text[k..][3..] == rest;
    forall p | 0 <= p < i - k - 3 ensures IsBlank(rest[p]) { assert rest[p] == text[k + 3 + p]; }
    SpacesSkippedTo(rest, i - k - 3);
    assert rest[i - k - 3..] == text[i..];
  }

  lemma ItemAtStart(text: string, rest: string, n: nat)
    requires StartsItem(text) && SkipSpaces(text[3..]) == rest && ItemEnd(rest) == n
    ensures ItemPass(text) == ItemOf(rest[..n]) + ItemPass(rest[n..])
  {
    hide SkipSpaces, ItemEnd;
    assert HtmlText(false, "li") == "<li>" && HtmlText(true, "li") == "</li>";
  }

  // ----- the elements -----

  /** The HTML tags of the simple tags. */
  lemma ElementsOfTags(closing: bool)
    ensures forall name :: name in SIMPLE <==> name in {"b", "i", "u", "s", "strike", "c", "centre", "center"}
    ensures var end := if closing then "</" else "<";
      && HtmlText(closing, ElementOf("b")) == end + "strong>" && HtmlText(closing, ElementOf("i")) == end + "em>"
      && HtmlText(closing, ElementOf("u")) == end + "u>" && HtmlText(closing, ElementOf("c")) == end + "code>"
      && HtmlText(closing, ElementOf("s")) == HtmlText(closing, ElementOf("strike")) == end + "del>"
      && HtmlText(closing, ElementOf("centre")) == HtmlText(closing, ElementOf("center")) == end + "center>"
  {
    assert "<" + "/" == "</" && "<" + "" == "<";
  }
}
