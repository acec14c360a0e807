/** The list items of a text, and the HTML that all passes write. */
module BbLists {
  import opened Wrappers
  import opened BbCode

  // ----- the pass for list items -----

  predicate StartsItem(text: string) { |text| >= 3 && text[0] == '[' && text[1] == '*' && text[2] == ']' }

  const LIST_END := BbText(true, "list")

  function SkipSpaces(text: string): (r: string)
    ensures |r| <= |text|
  {
    if text != "" && IsSpace(text[0]) then SkipSpaces(text[1..]) else text
  }

  /** An item ends before the next one, before the end of a list, or at the end of the text or of its last line. */
  function ItemEnd(text: string): (n: nat)
    ensures n <= |text|
  {
    if text == "" || text == "\n" || StartsItem(text) || Matches(text, LIST_END) then 0 else 1 + ItemEnd(text[1..])
  }

  /** The pattern `\[\*\]\s*(.*?)(?=\[\*\]|\[/list\]|$)`, wherever it occurs. */
  function ItemPass(text: string): string
    decreases |text|
  {
    if text == "" then ""
    else if StartsItem(text) then
      var rest := SkipSpaces(text[3..]);
      var n := ItemEnd(rest);
      HtmlText(false, "li") + rest[..n] + HtmlText(true, "li") + ItemPass(rest[n..])
    else [text[0]] + ItemPass(text[1..])
  }

  // ----- items on chunks -----

  predicate StarAt(chunks: seq<Chunk>) {
    |chunks| >= 3 && chunks[0] == Char('[') && chunks[1] == Char('*') && chunks[2] == Char(']')
  }

  function AfterSpaces(chunks: seq<Chunk>): (r: seq<Chunk>)
    ensures |r| <= |chunks|
  {
    if chunks != [] && chunks[0].Char? && IsSpace(chunks[0].c) then AfterSpaces(chunks[1..]) else chunks
  }

  function ItemEndAt(chunks: seq<Chunk>): (n: nat)
    ensures n <= |chunks|
  {
    if chunks == [] || chunks == [Char('\n')] || StarAt(chunks) then 0 else 1 + ItemEndAt(chunks[1..])
  }

  /** The content of the item at the start of the chunks, and what follows it. */
  function Content(chunks: seq<Chunk>): (r: seq<Chunk>)
    requires StarAt(chunks)
  {
    var rest := AfterSpaces(chunks[3..]);
    rest[..ItemEndAt(rest)]
  }

  function Following(chunks: seq<Chunk>): (r: seq<Chunk>)
    requires StarAt(chunks)
    ensures |r| < |chunks|
  {
    var rest := AfterSpaces(chunks[3..]);
    rest[ItemEndAt(rest)..]
  }

  function WithItems(chunks: seq<Chunk>): seq<Chunk>
    decreases |chunks|
  {
    if chunks == [] then []
    else if StarAt(chunks) then [Item(false)] + Content(chunks) + [Item(true)] + WithItems(Following(chunks))
    else [chunks[0]] + WithItems(chunks[1..])
  }

  /** What stands in no item. */
  function Outside(chunks: seq<Chunk>): seq<Chunk>
    decreases |chunks|
  {
    if chunks == [] then []
    else if StarAt(chunks) then Outside(Following(chunks))
    else [chunks[0]] + Outside(chunks[1..])
  }

  function Items(chunks: seq<Chunk>): seq<seq<Chunk>>
    decreases |chunks|
  {
    if chunks == [] then []
    else if StarAt(chunks) then [Content(chunks)] + Items(Following(chunks))
    else Items(chunks[1..])
  }

  // ----- the pass on text is the pass on chunks -----

  predicate Entity(text: string) {
    text != "" && text[0] == '&' && forall i :: 0 <= i < |text| ==> text[i] != '[' && text[i] != ']' && text[i] != '\n'
  }

  /** Escaped text before the passes: simple tags, entities and single characters. */
  predicate Source(chunk: Chunk) {
    match chunk
    case Bracket(_, name) => Name(name) && Lower(name) in SIMPLE
    case Char(_) => true
    case Written(text) => Entity(text)
    case Item(_) => false
  }

  ghost predicate Sources(chunks: seq<Chunk>) { forall k :: 0 <= k < |chunks| ==> Source(chunks[k]) }

  lemma {:induction false} TextOfConcat(a: seq<Chunk>, b: seq<Chunk>)
    ensures TextOf(a + b) == TextOf(a) + TextOf(b)
  {
    hide ChunkText;
    if a == [] {
      assert a + b == b;
    } else {
      assert (a + b)[1..] == a[1..] + b;
      TextOfConcat(a[1..], b);
    }
  }

  lemma CutText(chunks: seq<Chunk>, n: nat)
    requires n <= |chunks|
    ensures TextOf(chunks) == TextOf(chunks[..n]) + TextOf(chunks[n..])
  {
    assert chunks == chunks[..n] + chunks[n..];
    TextOfConcat(chunks[..n], chunks[n..]);
  }

  lemma {:induction false} TidySuffix(chunks: seq<Chunk>, n: nat)
    requires Tidy(chunks) && n <= |chunks|
    ensures Tidy(chunks[n..])
  {
    if n == 0 {
      assert chunks[n..] == chunks;
    } else {
      TidySuffix(chunks[1..], n - 1);
      assert chunks[1..][n - 1..] == chunks[n..];
    }
  }

  /** Only a single character begins with anything but an opening bracket or an ampersand. */
  lemma FirstOfChunk(chunks: seq<Chunk>)
    requires Sources(chunks) && chunks != []
    ensures TextOf(chunks) != ""
    ensures !chunks[0].Char? ==> TextOf(chunks)[0] == '[' || TextOf(chunks)[0] == '&'
    ensures chunks[0].Char? ==> TextOf(chunks) == [chunks[0].c] + TextOf(chunks[1..])
  {
    assert Source(chunks[0]);
  }

  lemma FirstIs(chunks: seq<Chunk>, c: char)
    requires Sources(chunks) && c != '[' && c != '&'
    ensures TextOf(chunks) != "" && TextOf(chunks)[0] == c <==> chunks != [] && chunks[0] == Char(c)
  {
    if chunks != [] { FirstOfChunk(chunks); }
  }

  lemma StarText(chunks: seq<Chunk>)
    requires Sources(chunks)
    ensures StartsItem(TextOf(chunks)) <==> StarAt(chunks)
    ensures StarAt(chunks) ==> TextOf(chunks)[3..] == TextOf(chunks[3..])
  {
    hide TextOf, Source;
    if chunks == [] {
      NothingSpelled();
    } else if !chunks[0].Char? {
      TagIsNoStar(chunks);
    } else {
      FirstOfChunk(chunks);
      StarTail(chunks[1..]);
      assert TextOf(chunks)[1..] == TextOf(chunks[1..]);
      assert StarAt(chunks) ==> chunks[1..][2..] == chunks[3..];
    }
  }

  lemma StarTail(chunks: seq<Chunk>)
    requires Sources(chunks)
    ensures var text := TextOf(chunks);
      && (|text| >= 2 && text[0] == '*' && text[1] == ']' <==>
            |chunks| >= 2 && chunks[0] == Char('*') && chunks[1] == Char(']'))
      && (|chunks| >= 2 && chunks[0] == Char('*') && chunks[1] == Char(']') ==> text[2..] == TextOf(chunks[2..]))
  {
    hide TextOf, Source;
    FirstIs(chunks, '*');
    if chunks != [] && chunks[0] == Char('*') {
      FirstOfChunk(chunks);
      var rest := chunks[1..];
      FirstIs(rest, ']');
      assert TextOf(chunks)[1..] == TextOf(rest);
      if rest != [] && rest[0] == Char(']') {
        FirstOfChunk(rest);
        assert rest[1..] == chunks[2..];
      }
    }
  }

  lemma NothingSpelled()
    ensures TextOf([]) == ""
  {}

  lemma TagIsNoStar(chunks: seq<Chunk>)
    requires Sources(chunks) && chunks != [] && !chunks[0].Char?
    ensures !StartsItem(TextOf(chunks))
  {
    assert Source(chunks[0]);
    if chunks[0].Bracket? {
      var tag := BbText(chunks[0].closing, chunks[0].name);
      assert TextOf(chunks)[1] == tag[1];
    }
  }

  lemma {:induction false} SpacesOnChunks(chunks: seq<Chunk>)
    requires Sources(chunks)
    ensures SkipSpaces(TextOf(chunks)) == TextOf(AfterSpaces(chunks))
  {
    if chunks != [] {
      FirstOfChunk(chunks);
      if chunks[0].Char? && IsSpace(chunks[0].c) { SpacesOnChunks(chunks[1..]); }
    }
  }

  predicate OnOneLine(text: string) { forall i :: 0 <= i < |text| ==> text[i] != '[' && text[i] != '\n' }

  lemma {:induction false} PlainIsSkipped(text: string, tail: string)
    requires OnOneLine(text)
    ensures ItemEnd(text + tail) == |text| + ItemEnd(tail)
    ensures ItemPass(text + tail) == text + ItemPass(tail)
  {
    if text == "" {
      assert text + tail == tail;
    } else {
      var all := text + tail;
      assert all[1..] == text[1..] + tail;
      PlainIsSkipped(text[1..], tail);
      if Matches(all, LIST_END) { PatternBeginsWithBracket(all, LIST_END); }
      assert all[0] == text[0] && !StartsItem(all);
      FirstThenRest(text, ItemPass(tail));
    }
  }

  /** A simple tag is neither an item nor the end of a list, so both scans step over it. */
  lemma TagIsSkipped(closing: bool, name: string, tail: string)
    requires Name(name) && Lower(name) in SIMPLE
    ensures var tag := BbText(closing, name);
      ItemEnd(tag + tail) == |tag| + ItemEnd(tail) && ItemPass(tag + tail) == tag + ItemPass(tail)
  {
    hide Lower, BbText, Matches;
    var tag := BbText(closing, name);
    TagIsWord(closing, name, tail);
    PlainIsSkipped(tag[1..], tail);
    assert (tag + tail)[1..] == tag[1..] + tail;
    FirstThenRest(tag, ItemPass(tail));
  }

  lemma TagIsWord(closing: bool, name: string, tail: string)
    requires Name(name) && Lower(name) in SIMPLE
    ensures var tag := BbText(closing, name);
      && OnOneLine(tag[1..]) && !StartsItem(tag + tail) && tag + tail != "\n" && !Matches(tag + tail, LIST_END)
  {
    hide Lower, Matches;
    var tag := BbText(closing, name);
    assert (tag + tail)[1] == tag[1];
    PatternMatchesTag(closing, name, tail, true, "list");
  }

  lemma {:induction false} ItemEndOnChunks(chunks: seq<Chunk>)
    requires Tidy(chunks) && Sources(chunks)
    ensures ItemEnd(TextOf(chunks)) == |TextOf(chunks[..ItemEndAt(chunks)])|
  {
    StarText(chunks);
    if chunks != [] && !StarAt(chunks) && chunks != [Char('\n')] {
      hide Tidy, Source, ChunkText, StarAt;
      TidySuffix(chunks, 1);
      ItemEndOnChunks(chunks[1..]);
      ItemGoesOn(chunks);
      assert chunks[..ItemEndAt(chunks)][1..] == chunks[1..][..ItemEndAt(chunks[1..])];
    }
  }

  lemma ItemGoesOn(chunks: seq<Chunk>)
    requires Tidy(chunks) && Sources(chunks) && chunks != [] && !StarAt(chunks) && chunks != [Char('\n')]
    ensures ItemEnd(TextOf(chunks)) == |ChunkText(chunks[0])| + ItemEnd(TextOf(chunks[1..]))
  {
    hide ItemEnd, Lower, BbText, StarAt;
    StarText(chunks);
    var tail := TextOf(chunks[1..]);
    assert Source(chunks[0]);
    match chunks[0] {
      case Bracket(closing, name) => TagIsSkipped(closing, name, tail);
      case Char(c) =>
        if chunks[1..] != [] { FirstOfChunk(chunks[1..]); }
        if Matches(TextOf(chunks), LIST_END) { NoListEnd(chunks); }
        hide TextOf, Tidy, Matches;
        assert chunks == [Char(c)] + chunks[1..];
        if [c] + tail == "\n" { LoneNewline(c, tail); }
        CharGoesOn(c, tail);
      case Written(text) => PlainIsSkipped(text, tail);
      case _ =>
    }
  }

  lemma NoListEnd(chunks: seq<Chunk>)
    requires Matches(TextOf(chunks), LIST_END)
    ensures MatchTag(TextOf(chunks)).Some? && TextOf(chunks) != "" && TextOf(chunks)[0] == '['
  {
    hide TextOf;
    PatternBeginsWithBracket(TextOf(chunks), LIST_END);
    MatchStartsTag(TextOf(chunks), true, "list");
    StartedTagIsMatched(TextOf(chunks));
  }

  lemma LoneNewline(c: char, tail: string)
    requires [c] + tail == "\n"
    ensures c == '\n' && tail == ""
  {
    assert ([c] + tail)[0] == c && |[c] + tail| == 1 + |tail|;
  }

  lemma CharGoesOn(c: char, tail: string)
    requires !StartsItem([c] + tail) && [c] + tail != "\n" && !Matches([c] + tail, LIST_END)
    ensures ItemEnd([c] + tail) == 1 + ItemEnd(tail)
  {
    assert ([c] + tail)[1..] == tail;
  }

  /** The item pass on the text is the item pass on its chunks. */
  lemma {:induction false} ItemPassOnChunks(chunks: seq<Chunk>)
    requires Tidy(chunks) && Sources(chunks)
    ensures ItemPass(TextOf(chunks)) == TextOf(WithItems(chunks))
    decreases |chunks|
  {
    hide Tidy, Source, ChunkText, StarAt;
    StarText(chunks);
    if chunks == [] {
    } else if StarAt(chunks) {
      var after := Following(chunks);
      hide ItemPass, WithItems, TextOf, Content, Following;
      StarIsRewritten(chunks);
      FollowingIsTidy(chunks);
      ItemPassOnChunks(after);
      StarWithItems(chunks);
      ItemText(Content(chunks), WithItems(after));
    } else {
      TidySuffix(chunks, 1);
      ItemPassOnChunks(chunks[1..]);
      OutsideIsKept(chunks);
    }
  }

  lemma StarIsRewritten(chunks: seq<Chunk>)
    requires Tidy(chunks) && Sources(chunks) && StarAt(chunks)
    ensures ItemPass(TextOf(chunks)) ==
      HtmlText(false, "li") + TextOf(Content(chunks)) + HtmlText(true, "li") + ItemPass(TextOf(Following(chunks)))
  {
    hide Tidy, Source, ChunkText, TextOf;
    StarText(chunks);
    var rest := AfterSpaces(chunks[3..]);
    SpacesOnChunks(chunks[3..]);
    TidySuffix(chunks, |chunks| - |rest|);
    SpacesAreInFront(chunks[3..]);
    SuffixOfSuffix(chunks, 3, |chunks[3..]| - |rest|);
    ItemEndOnChunks(rest);
    CutText(rest, ItemEndAt(rest));
  }

  lemma ItemText(content: seq<Chunk>, after: seq<Chunk>)
    ensures TextOf([Item(false)] + content + [Item(true)] + after) ==
      HtmlText(false, "li") + TextOf(content) + HtmlText(true, "li") + TextOf(after)
  {
    hide HtmlText;
    TextOfConcat([Item(false)] + content + [Item(true)], after);
    TextOfConcat([Item(false)] + content, [Item(true)]);
    TextOfConcat([Item(false)], content);
    assert TextOf([Item(false)]) == HtmlText(false, "li") && TextOf([Item(true)]) == HtmlText(true, "li");
  }

  lemma OutsideIsKept(chunks: seq<Chunk>)
    requires Tidy(chunks) && Sources(chunks) && chunks != [] && !StarAt(chunks)
    ensures ItemPass(TextOf(chunks)) == ChunkText(chunks[0]) + ItemPass(TextOf(chunks[1..]))
  {
    StarText(chunks);
    var tail := TextOf(chunks[1..]);
    assert Source(chunks[0]);
    match chunks[0] {
      case Bracket(closing, name) => TagIsSkipped(closing, name, tail);
      case Char(c) => assert TextOf(chunks)[1..] == tail;
      case Written(text) => PlainIsSkipped(text, tail);
      case _ =>
    }
  }

  // ----- items and tags do not disturb each other -----

  lemma NextCharacter(p: string, x: string, y: string)
    requires p <= x + y && |x| < |p| && y != ""
    ensures p[|x|] == y[0]
  {
    assert (x + y)[|x|] == y[0];
  }

  lemma InsideEndsBefore(p: string, x: string, y: string)
    requires Inside(p) && p <= x + y && y != "" && y[0] == '<'
    ensures p <= x
  {
    if |p| > |x| { NextCharacter(p, x, y); }
    assert p <= x;
  }

  lemma CutCarries(p: string, x: string, y: string, z: string)
    requires Inside(p) && p <= x + y && y != "" && y[0] == '<'
    requires (']' in y ==> ']' in z) && (z != "" ==> z[0] != ']')
    requires ']' in (x + y)[|p|..]
    ensures p <= x + z && Carries((x + z)[|p|..], (x + y)[|p|..])
  {
    InsideEndsBefore(p, x, y);
    assert (x + y)[|p|..] == x[|p|..] + y && (x + z)[|p|..] == x[|p|..] + z;
  }

  /** A tag that starts before the cut is a tag with what was cut off, if that offers an attribute as much. */
  lemma TagEndsBefore(x: string, y: string, z: string)
    requires MatchTag("[" + (x + y)).Some? && y != "" && y[0] == '<'
    requires (']' in y ==> ']' in z) && (z != "" ==> z[0] != ']')
    ensures MatchTag("[" + (x + z)).Some?
  {
    hide MatchTag, Inside;
    var closing, name, attribute := MatchedTagBegins(x + y);
    var begin := TagBegin(closing, name, attribute);
    InsideEndsBefore(begin, x, y);
    if attribute { CutCarries(begin, x, y, z); }
    BegunTagMatches(closing, name, attribute, x + z);
  }

  /** Cutting tidy chunks off and going on with an item's end leaves them tidy. */
  lemma {:induction false} TidyCut(a: seq<Chunk>, c: seq<Chunk>, d: seq<Chunk>)
    requires Tidy(a + c) && Tidy(d) && d != [] && d[0].Item?
    requires (']' in TextOf(d) ==> ']' in TextOf(c)) && (TextOf(c) != "" ==> TextOf(c)[0] != ']')
    ensures Tidy(a + d)
  {
    hide MatchTag, TextOf;
    if a == [] {
      assert a + d == d;
    } else {
      assert (a + c)[1..] == a[1..] + c && (a + d)[1..] == a[1..] + d;
      TidyCut(a[1..], c, d);
      if a[0] == Char('[') && MatchTag(TextOf(a + d)).Some? {
        hide Tidy;
        SpelledFrom(a, d);
        SpelledFrom(a, c);
        ItemBeginsWithAngle(d);
        TagEndsBefore(TextOf(a[1..]), TextOf(d), TextOf(c));
      }
    }
  }

  lemma SpelledFrom(a: seq<Chunk>, d: seq<Chunk>)
    requires a != [] && a[0] == Char('[')
    ensures TextOf(a + d) == "[" + (TextOf(a[1..]) + TextOf(d))
  {
    assert ChunkText(a[0]) == "[";
    hide TextOf, ChunkText;
    TextOfConcat(a, d);
    TextOfFirst(a);
    Regrouped(ChunkText(a[0]), TextOf(a[1..]), TextOf(d));
  }

  lemma Regrouped(a: string, b: string, c: string)
    ensures a + b + c == a + (b + c)
  {}

  lemma ItemBeginsWithAngle(chunks: seq<Chunk>)
    requires chunks != [] && chunks[0].Item?
    ensures TextOf(chunks) != "" && TextOf(chunks)[0] == '<'
  {}

  lemma ItemsBeginWithAngle(chunks: seq<Chunk>)
    requires StarAt(chunks)
    ensures TextOf(WithItems(chunks)) != "" && TextOf(WithItems(chunks))[0] == '<'
  {
    hide StarAt, WithItems;
    StarWithItems(chunks);
    ItemBeginsWithAngle(WithItems(chunks));
  }

  lemma OutsideBegins(chunks: seq<Chunk>)
    requires chunks != [] && !StarAt(chunks)
    ensures WithItems(chunks) == [chunks[0]] + WithItems(chunks[1..])
    ensures Items(chunks) == Items(chunks[1..])
  {
    hide StarAt;
  }

  lemma NothingRewritten()
    ensures TextOf(WithItems([])) == ""
  {}

  lemma {:induction false} BracketInText(chunks: seq<Chunk>)
    ensures ']' in TextOf(chunks) <==> exists x :: x in chunks && ']' in ChunkText(x)
  {
    hide ChunkText;
    if chunks != [] {
      BracketInText(chunks[1..]);
      assert forall x :: x in chunks <==> x == chunks[0] || x in chunks[1..];
    }
  }

  /** The item pass adds no closing bracket. */
  lemma NoBracketAdded(chunks: seq<Chunk>)
    ensures ']' in TextOf(WithItems(chunks)) ==> ']' in TextOf(chunks)
  {
    BracketInText(WithItems(chunks));
    BracketInText(chunks);
    WithItemsAdds(chunks);
    hide WithItems, TextOf;
  }

  lemma ItemsCarry(chunks: seq<Chunk>)
    requires Sources(chunks)
    ensures Carries(TextOf(chunks), TextOf(WithItems(chunks)))
  {
    NoBracketAdded(chunks);
    hide WithItems, TextOf, Source;
    if chunks == [] {
      NothingRewritten();
    } else if StarAt(chunks) {
      FirstOfChunk(chunks);
    } else {
      FirstOfChunk(chunks);
      OutsideBegins(chunks);
      SameFirst(chunks[0], chunks[1..], WithItems(chunks[1..]));
      assert chunks == [chunks[0]] + chunks[1..];
    }
  }

  lemma SameFirst(chunk: Chunk, rest: seq<Chunk>, other: seq<Chunk>)
    requires Source(chunk)
    ensures TextOf([chunk] + rest) != "" && TextOf([chunk] + other) != ""
    ensures TextOf([chunk] + rest)[0] == TextOf([chunk] + other)[0]
  {
    TextOfFirst([chunk] + rest);
    TextOfFirst([chunk] + other);
  }

  /** What could complete a tag after the item pass was there before it. */
  lemma {:induction false} InsideOfTagWasBeforeItems(p: string, chunks: seq<Chunk>)
    requires Sources(chunks) && Inside(p) && p <= TextOf(WithItems(chunks))
    ensures p <= TextOf(chunks) && Carries(TextOf(chunks)[|p|..], TextOf(WithItems(chunks))[|p|..])
  {
    hide WithItems, TextOf, StarAt, Source, Carries;
    if p == "" {
      ItemsCarry(chunks);
    } else if chunks == [] {
      NothingRewritten();
    } else {
      assert TagChar(p[0]) || p[0] == '=';
      assert p[0] == TextOf(WithItems(chunks))[0];
      if StarAt(chunks) {
        ItemsBeginWithAngle(chunks);
      } else {
        var rest := chunks[1..];
        assert Source(chunks[0]);
        OutsideBegins(chunks);
        NextInTag(p, chunks, WithItems(rest));
        InsideOfTagWasBeforeItems(p[1..], rest);
        assert p == [p[0]] + p[1..];
        assert TextOf(chunks)[|p|..] == TextOf(rest)[|p| - 1..];
        assert TextOf(WithItems(chunks))[|p|..] == TextOf(WithItems(rest))[|p| - 1..];
      }
    }
  }

  lemma NextInTag(p: string, chunks: seq<Chunk>, after: seq<Chunk>)
    requires chunks != [] && Source(chunks[0]) && Inside(p) && p != "" && p <= TextOf([chunks[0]] + after)
    ensures chunks[0] == Char(p[0]) && p[1..] <= TextOf(after)
    ensures TextOf(chunks) == [p[0]] + TextOf(chunks[1..])
    ensures TextOf([chunks[0]] + after) == [p[0]] + TextOf(after)
  {
    assert ([chunks[0]] + after)[1..] == after;
    TextOfFirst([chunks[0]] + after);
    TextOfFirst(chunks);
    hide TextOf;
    EntityIsForeign(chunks[0]);
    FirstCharacter(p, chunks[0], TextOf(after));
  }

  lemma EntityIsForeign(chunk: Chunk)
    requires Source(chunk)
    ensures chunk.Written? ==> Foreign(chunk.text)
  {}

  lemma {:induction false} WithItemsIsTidy(chunks: seq<Chunk>)
    requires Tidy(chunks) && Sources(chunks)
    ensures Tidy(WithItems(chunks))
    decreases |chunks|
  {
    hide Source, MatchTag;
    if chunks == [] {
    } else if StarAt(chunks) {
      hide Tidy;
      var after := Following(chunks);
      FollowingIsTidy(chunks);
      WithItemsIsTidy(after);
      NoBracketAdded(after);
      FollowingBegins(chunks);
      ItemIsTidy(Content(chunks), after, WithItems(after));
    } else {
      WithItemsIsTidy(chunks[1..]);
      assert WithItems(chunks)[1..] == WithItems(chunks[1..]);
      if chunks[0] == Char('[') && MatchTag(TextOf(WithItems(chunks))).Some? { NoTagFromItems(chunks); }
    }
  }

  lemma {:induction false} SpacesAreInFront(chunks: seq<Chunk>)
    ensures AfterSpaces(chunks) == chunks[|chunks| - |AfterSpaces(chunks)|..]
  {
    if chunks != [] && chunks[0].Char? && IsSpace(chunks[0].c) { SpacesAreInFront(chunks[1..]); }
  }

  lemma ItemIsCut(chunks: seq<Chunk>) returns (i: nat, n: nat)
    requires StarAt(chunks)
    ensures i <= |chunks| && n <= |chunks| - i
    ensures Content(chunks) == chunks[i..][..n] && Following(chunks) == chunks[i..][n..]
  {
    var after := chunks[3..];
    var rest := AfterSpaces(after);
    i, n := |chunks| - |rest|, ItemEndAt(rest);
    SpacesAreInFront(after);
    hide StarAt, AfterSpaces, ItemEndAt;
    SuffixOfSuffix(chunks, 3, |after| - |rest|);
  }

  lemma SuffixOfSuffix<T>(s: seq<T>, a: nat, b: nat)
    requires a + b <= |s|
    ensures s[a..][b..] == s[a + b..]
  {}

  lemma FollowingIsTidy(chunks: seq<Chunk>)
    requires Tidy(chunks) && StarAt(chunks)
    ensures Tidy(Content(chunks) + Following(chunks)) && Tidy(Following(chunks))
    ensures Following(chunks) == chunks[|chunks| - |Following(chunks)|..]
  {
    hide Tidy, StarAt, Content, Following;
    var i, n := ItemIsCut(chunks);
    TidySuffix(chunks, i);
    TidySuffix(chunks[i..], n);
    assert Content(chunks) + Following(chunks) == chunks[i..];
  }

  lemma ItemThenTidy(closing: bool, rest: seq<Chunk>)
    requires Tidy(rest)
    ensures Tidy([Item(closing)] + rest)
  {
    assert ([Item(closing)] + rest)[1..] == rest;
  }

  lemma ItemIsTidy(content: seq<Chunk>, after: seq<Chunk>, rewritten: seq<Chunk>)
    requires Tidy(content + after) && Tidy(rewritten)
    requires ']' in TextOf(rewritten) ==> ']' in TextOf(after)
    requires TextOf(after) != "" ==> TextOf(after)[0] != ']'
    ensures Tidy([Item(false)] + content + [Item(true)] + rewritten)
  {
    hide Tidy, TextOf;
    var rest := [Item(true)] + rewritten;
    ItemThenTidy(true, rewritten);
    ItemAddsNoBracket(rewritten);
    TidyCut(content, after, rest);
    ItemThenTidy(false, content + rest);
    ItemsRegrouped([Item(false)], content, [Item(true)], rewritten);
  }

  lemma ItemAddsNoBracket(rewritten: seq<Chunk>)
    ensures ']' in TextOf([Item(true)] + rewritten) ==> ']' in TextOf(rewritten)
  {
    var rest := [Item(true)] + rewritten;
    assert rest[1..] == rewritten;
    TextOfFirst(rest);
    hide TextOf;
  }

  lemma ItemsRegrouped(a: seq<Chunk>, b: seq<Chunk>, c: seq<Chunk>, d: seq<Chunk>)
    ensures a + b + c + d == a + (b + (c + d))
  {}

  lemma NoTagFromItems(chunks: seq<Chunk>)
    requires Sources(chunks) && chunks != [] && chunks[0] == Char('[') && !StarAt(chunks)
    requires MatchTag(TextOf(WithItems(chunks))).Some?
    ensures MatchTag(TextOf(chunks)).Some?
  {
    hide Source, StarAt, WithItems, MatchTag, Inside, Carries;
    OutsideBegins(chunks);
    BracketThen(chunks);
    BracketThen([chunks[0]] + WithItems(chunks[1..]));
    assert ([chunks[0]] + WithItems(chunks[1..]))[1..] == WithItems(chunks[1..]);
    hide TextOf;
    var text, after := TextOf(chunks[1..]), TextOf(WithItems(chunks[1..]));
    forall p | Inside(p) && p <= after ensures p <= text && Carries(text[|p|..], after[|p|..]) {
      InsideOfTagWasBeforeItems(p, chunks[1..]);
    }
    CarriedTag(text, after);
  }

  /** An item ends at the end, before the last newline or before another item. */
  lemma {:induction false} ItemEndStops(rest: seq<Chunk>)
    ensures var after := rest[ItemEndAt(rest)..];
      after == [] || after == [Char('\n')] || StarAt(after)
  {
    hide StarAt;
    if rest != [] && rest != [Char('\n')] && !StarAt(rest) {
      ItemEndStops(rest[1..]);
      assert rest[ItemEndAt(rest)..] == rest[1..][ItemEndAt(rest[1..])..];
    } else {
      assert rest[0..] == rest;
    }
  }

  lemma FollowingBegins(chunks: seq<Chunk>)
    requires StarAt(chunks)
    ensures var text := TextOf(Following(chunks)); text != "" ==> text[0] != ']'
  {
    ItemEndStops(AfterSpaces(chunks[3..]));
    var after := Following(chunks);
    hide Following, AfterSpaces, ItemEndAt;
    if after != [] { TextOfFirst(after); }
  }

  lemma BracketThen(chunks: seq<Chunk>)
    requires chunks != [] && chunks[0] == Char('[')
    ensures TextOf(chunks) == "[" + TextOf(chunks[1..])
  {}

  // ----- escaping and items -----

  lemma EscapedSources(chunks: seq<Chunk>)
    requires Tidy(chunks) && OnlySimpleTags(chunks) && NothingWritten(chunks) && NoItems(chunks)
    ensures Sources(EscapedChunks(chunks))
  {
    hide EscapeChar, Lower;
    forall k | 0 <= k < |chunks| ensures Source(EscapedChunks(chunks)[k]) {
      if chunks[k].Bracket? { TidySuffix(chunks, k); }
      if chunks[k].Char? { EscapesAreEntities(chunks[k].c); }
    }
  }

  lemma EscapesAreEntities(c: char)
    ensures EscapeChar(c) != [c] ==> Entity(EscapeChar(c))
    ensures IsSpace(c) || c == '[' || c == '*' || c == ']' ==> EscapeChar(c) == [c]
  {}

  lemma EscapedSuffix(chunks: seq<Chunk>, n: nat)
    requires n <= |chunks|
    ensures EscapedChunks(chunks)[n..] == EscapedChunks(chunks[n..])
    ensures EscapedChunks(chunks)[..n] == EscapedChunks(chunks[..n])
  {
    hide EscapedChunk, EscapedChunks;
  }

  lemma EscapedStar(chunks: seq<Chunk>)
    ensures StarAt(EscapedChunks(chunks)) <==> StarAt(chunks)
  {
    EscapesAreEntities('[');
    EscapesAreEntities('*');
    EscapesAreEntities(']');
  }

  lemma {:induction false} EscapedSpaces(chunks: seq<Chunk>)
    ensures AfterSpaces(EscapedChunks(chunks)) == EscapedChunks(AfterSpaces(chunks))
  {
    hide EscapeChar, IsSpace, EscapedChunks;
    if chunks != [] {
      EscapedSuffix(chunks, 1);
      EscapedSpaces(chunks[1..]);
      if chunks[0].Char? { EscapesAreEntities(chunks[0].c); }
    }
  }

  lemma {:induction false} EscapedItemEnd(chunks: seq<Chunk>)
    ensures ItemEndAt(EscapedChunks(chunks)) == ItemEndAt(chunks)
  {
    hide StarAt;
    EscapedStar(chunks);
    if chunks != [] {
      EscapedSuffix(chunks, 1);
      EscapedItemEnd(chunks[1..]);
      EscapesAreEntities('\n');
      assert EscapedChunks(chunks) == [Char('\n')] <==> chunks == [Char('\n')];
    }
  }

  /** Items are the same before and after escaping. */
  lemma {:induction false} EscapedItems(chunks: seq<Chunk>)
    ensures WithItems(EscapedChunks(chunks)) == EscapedChunks(WithItems(chunks))
    decreases |chunks|
  {
    hide EscapeChar, AfterSpaces, ItemEndAt;
    EscapedStar(chunks);
    if chunks == [] {
    } else if StarAt(chunks) {
      var rest := AfterSpaces(chunks[3..]);
      EscapedSuffix(chunks, 3);
      EscapedSpaces(chunks[3..]);
      EscapedItemEnd(rest);
      EscapedSuffix(rest, ItemEndAt(rest));
      EscapedItems(Following(chunks));
      hide EscapedChunk;
      EscapedItem(Content(chunks), WithItems(Following(chunks)));
    } else {
      EscapedSuffix(chunks, 1);
      EscapedItems(chunks[1..]);
      assert EscapedChunks(chunks)[0] == EscapedChunk(chunks[0]);
      assert EscapedChunks([chunks[0]] + WithItems(chunks[1..]))[1..] == EscapedChunks(WithItems(chunks[1..]));
    }
  }

  lemma EscapedConcat(a: seq<Chunk>, b: seq<Chunk>)
    ensures EscapedChunks(a + b) == EscapedChunks(a) + EscapedChunks(b)
  {
    hide EscapedChunk, EscapedChunks;
  }

  lemma EscapedItem(content: seq<Chunk>, after: seq<Chunk>)
    ensures EscapedChunks([Item(false)] + content + [Item(true)] + after) ==
      [Item(false)] + EscapedChunks(content) + [Item(true)] + EscapedChunks(after)
  {
    assert EscapedChunks([Item(false)]) == [Item(false)] && EscapedChunks([Item(true)]) == [Item(true)];
    hide EscapedChunks, EscapedChunk;
    EscapedConcat([Item(false)] + content + [Item(true)], after);
    EscapedConcat([Item(false)] + content, [Item(true)]);
    EscapedConcat([Item(false)], content);
  }

  lemma {:induction false} WithItemsAdds(chunks: seq<Chunk>)
    ensures forall x :: x in WithItems(chunks) ==> x.Item? || x in chunks
    decreases |chunks|
  {
    hide StarAt, Content, Following, WithItems;
    if chunks == [] {
      NothingAdded();
    } else if StarAt(chunks) {
      WithItemsAdds(Following(chunks));
      ItemsArePart(chunks);
      StarWithItems(chunks);
    } else {
      WithItemsAdds(chunks[1..]);
      OutsideBegins(chunks);
    }
  }

  lemma ItemsKeepSimple(chunks: seq<Chunk>)
    requires OnlySimpleTags(chunks) && NothingWritten(chunks) && NoItems(chunks)
    ensures OnlySimpleTags(WithItems(chunks)) && NothingWritten(WithItems(chunks))
  {
    hide WithItems, Lower;
    WithItemsAdds(chunks);
    forall k | 0 <= k < |WithItems(chunks)|
      ensures !WithItems(chunks)[k].Written?
      ensures WithItems(chunks)[k].Bracket? ==> Lower(WithItems(chunks)[k].name) in SIMPLE
    {
      assert WithItems(chunks)[k] in WithItems(chunks);
    }
  }

  lemma OthersStay(chunks: seq<Chunk>, names: seq<string>, side: bool, wanted: string, replacement: string)
    requires OnlySimpleTags(chunks) && wanted !in SIMPLE
    ensures var done := TranslateAll(EscapedChunks(chunks), names);
      SubChunks(done, side, wanted, replacement) == done
  {
    hide Lower, HtmlText, ElementOf, EscapeChar;
    var done := TranslateAll(EscapedChunks(chunks), names);
    forall k | 0 <= k < |chunks| ensures SubChunk(done[k], side, wanted, replacement) == done[k] {
      if done[k].Bracket? { assert done[k] == chunks[k]; }
    }
  }

  lemma NothingAdded()
    ensures WithItems([]) == [] && Items([]) == []
  {}

  lemma StarWithItems(chunks: seq<Chunk>)
    requires StarAt(chunks)
    ensures WithItems(chunks) == [Item(false)] + Content(chunks) + [Item(true)] + WithItems(Following(chunks))
    ensures Items(chunks) == [Content(chunks)] + Items(Following(chunks))
  {
    hide StarAt, Content, Following;
  }

  lemma ItemsArePart(chunks: seq<Chunk>)
    requires StarAt(chunks)
    ensures forall x :: x in Content(chunks) || x in Following(chunks) ==> x in chunks
  {
    hide StarAt, Content, Following;
    var i, n := ItemIsCut(chunks);
  }

  // ----- the HTML of all passes -----

  /** Everything the passes do to a text in which the scanner finds only simple tags. */
  function AllPasses(text: string): string { SimplePasses(ItemPass(Escape(text))) }

  function HtmlFor(text: string): seq<Html> { ToHtml(WithItems(Split(text))) }

  /**
   * On any text in which the scanner finds only simple tags, the item pass and the passes for tags, run on the escaped
   * text, write the HTML of each item and tag and leave everything else without angle brackets.
   */
  lemma PassesWriteHtml(text: string)
    requires SimpleText(text)
    ensures AllPasses(text) == HtmlString(HtmlFor(text)) && DataHasNoAngles(HtmlFor(text))
  {
    hide SubAll, Escape, TextOf, Lower, HtmlString, ToHtml, AllNames, Tidy, Split, Tags, TagsOf, SimpleText, Rewrites,
      DataHasNoAngles, ItemPass, WithItems;
    var chunks := Split(text);
    SplitSpellsText(text);
    EscapeOnChunks(chunks);
    EscapingRewrites(chunks);
    EscapedSources(chunks);
    ItemPassOnChunks(EscapedChunks(chunks));
    WithItemsIsTidy(EscapedChunks(chunks));
    EscapedItems(chunks);
    ItemsKeepSimple(chunks);
    SimpleTagsAreNames();
    PassesOnChunks(EscapedChunks(WithItems(chunks)), SIMPLE);
    TranslatedIsHtml(WithItems(chunks));
    EscapedDataHasNoAngles(WithItems(chunks));
  }

  /** No tag of another name occurs before, between or after these passes, so a substitution for one does nothing. */
  lemma OtherTagsNeverMatch(text: string, names: seq<string>, side: bool, wanted: string, replacement: string)
    requires SimpleText(text) && AllNames(names) && Name(wanted) && wanted !in SIMPLE
    ensures Sub(Escape(text), BbText(side, wanted), replacement) == Escape(text)
    ensures var done := SubAll(ItemPass(Escape(text)), names); Sub(done, BbText(side, wanted), replacement) == done
  {
    hide Sub, SubAll, Escape, TextOf, Lower, AllNames, Tidy, Split, Tags, TagsOf, SimpleText, Rewrites, Name, BbText,
      HtmlText, ElementOf, EscapeChar, ItemPass, WithItems;
    var chunks := Split(text);
    SplitSpellsText(text);
    EscapeOnChunks(chunks);
    EscapingRewrites(chunks);
    EscapedSources(chunks);
    ItemPassOnChunks(EscapedChunks(chunks));
    WithItemsIsTidy(EscapedChunks(chunks));
    EscapedItems(chunks);
    ItemsKeepSimple(chunks);
    var items := EscapedChunks(WithItems(chunks));
    PassesOnChunks(items, names);
    OthersStay(chunks, [], side, wanted, replacement);
    OthersStay(WithItems(chunks), names, side, wanted, replacement);
    SubOnChunks(EscapedChunks(chunks), side, wanted, replacement);
    SubOnChunks(TranslateAll(items, names), side, wanted, replacement);
    assert TranslateAll(EscapedChunks(chunks), []) == EscapedChunks(chunks);
  }

  lemma {:induction false} PlainKeepsSimple(text: string, tail: string)
    requires NoBracket(text)
    ensures SimpleText(text + tail) <==> SimpleText(tail)
  {
    if text == "" {
      assert text + tail == tail;
    } else {
      assert (text + tail)[1..] == text[1..] + tail;
      PlainKeepsSimple(text[1..], tail);
    }
  }

  lemma {:induction false} TidyIsSimple(chunks: seq<Chunk>)
    requires Tidy(chunks) && OnlySimpleTags(chunks)
    ensures SimpleText(TextOf(chunks))
  {
    hide MatchTag, Lower, SimpleText, TextOf, BbText, RawName;
    if chunks == [] {
      NothingIsSimple();
    } else {
      var tail := TextOf(chunks[1..]);
      TidyIsSimple(chunks[1..]);
      TextOfFirst(chunks);
      match chunks[0] {
        case Bracket(closing, name) => TagKeepsSimple(closing, name, tail);
        case Char(c) => CharKeepsSimple(c, tail);
        case Written(text) =>
          ForeignHasNoBracket(text);
          PlainKeepsSimple(text, tail);
        case Item(end) => PlainKeepsSimple(HtmlText(end, "li"), tail);
      }
    }
  }

  lemma NothingIsSimple()
    ensures SimpleText(TextOf([]))
  {}

  lemma TagKeepsSimple(closing: bool, name: string, tail: string)
    requires Name(name) && Lower(name) in SIMPLE && SimpleText(tail)
    ensures SimpleText(BbText(closing, name) + tail)
  {
    hide MatchTag, Lower, RawName, SimpleText;
    var text := BbText(closing, name) + tail;
    TagIsMatched(closing, name, tail);
    NameOfTag(closing, name, tail);
    hide BbText, Split;
    SplitAtTag(text);
  }

  lemma NameOfTag(closing: bool, name: string, tail: string)
    ensures RawName(BbText(closing, name) + tail, Match(|BbText(closing, name)|, Tag(closing, Lower(name)))) == name
  {
    hide Lower;
    var text, start := BbText(closing, name) + tail, if closing then 2 else 1;
    assert text[start..|BbText(closing, name)| - 1] == name;
  }

  lemma CharKeepsSimple(c: char, tail: string)
    requires SimpleText(tail) && (c == '[' ==> MatchTag([c] + tail).None?)
    ensures SimpleText([c] + tail)
  {
    assert ([c] + tail)[1..] == tail;
  }

  /**
   * At every stage, before the item pass, after it and between the passes for tags, the scanner's pattern finds simple
   * tags only, so no tag of another name or with an attribute ever occurs for another pass to match.
   */
  lemma EveryStageIsSimple(text: string, names: seq<string>)
    requires SimpleText(text) && AllNames(names)
    ensures SimpleText(Escape(text)) && SimpleText(SubAll(ItemPass(Escape(text)), names))
  {
    hide SubAll, Escape, TextOf, Lower, AllNames, Tidy, Split, Tags, TagsOf, SimpleText, Rewrites, Name, BbText,
      HtmlText, ElementOf, EscapeChar, ItemPass, WithItems;
    var chunks := Split(text);
    SplitSpellsText(text);
    EscapeOnChunks(chunks);
    EscapingRewrites(chunks);
    EscapedSources(chunks);
    ItemPassOnChunks(EscapedChunks(chunks));
    WithItemsIsTidy(EscapedChunks(chunks));
    EscapedItems(chunks);
    ItemsKeepSimple(chunks);
    var items := EscapedChunks(WithItems(chunks));
    PassesOnChunks(items, names);
    TidyIsSimple(EscapedChunks(chunks));
    TidyIsSimple(TranslateAll(items, names));
  }

  // ----- nesting -----

  function TagsIn(chunks: seq<Chunk>): seq<Tag> { HtmlTags(ToHtml(chunks)) }

  lemma {:induction false} TagsInConcat(a: seq<Chunk>, b: seq<Chunk>)
    ensures TagsIn(a + b) == TagsIn(a) + TagsIn(b)
  {
    hide HtmlOf;
    if a == [] {
      assert a + b == b;
    } else {
      assert (a + b)[1..] == a[1..] + b;
      TagsInConcat(a[1..], b);
    }
  }

  lemma {:induction false} TagsOfConcat(a: seq<Chunk>, b: seq<Chunk>)
    ensures TagsOf(a + b) == TagsOf(a) + TagsOf(b)
  {
    hide Lower;
    if a == [] {
      assert a + b == b;
    } else {
      assert (a + b)[1..] == a[1..] + b;
      TagsOfConcat(a[1..], b);
    }
  }

  ghost predicate NoListItems(tags: seq<Tag>) { forall tag :: tag in tags ==> tag.name != "li" && tag.name != "*" }

  ghost predicate NotOpen(stack: seq<string>) { forall i :: 0 <= i < |stack| ==> stack[i] != "li" }

  /** Inside an open item the check is as good as alone: nothing closes what was open before. */
  lemma {:induction false} ItemIsCheckedAlone(
      inside: seq<Tag>, tail: seq<Tag>, outer: seq<string>, inner: seq<string>)
    requires NoListItems(inside) && NotOpen(inner)
    ensures StackPass(inside + [Tag(true, "li")] + tail, outer + ["li"] + inner) == [] <==>
      StackPass(inside, inner) == [] && StackPass(tail, outer) == []
  {
    var all, stack, n := inside + [Tag(true, "li")] + tail, outer + ["li"] + inner, |inner| - 1;
    if inside == [] {
      assert all[0] == Tag(true, "li") && all[1..] == tail;
      if inner == [] {
        assert stack[..|stack| - 1] == outer;
      } else {
        assert stack[|stack| - 1] == inner[n];
      }
    } else {
      var tag := inside[0];
      assert tag in inside;
      assert all[0] == tag && all[1..] == inside[1..] + [Tag(true, "li")] + tail;
      if tag.closing {
        if inner != [] {
          assert stack[|stack| - 1] == inner[n] && stack[..|stack| - 1] == outer + ["li"] + inner[..n];
          ItemIsCheckedAlone(inside[1..], tail, outer, inner[..n]);
        } else {
          assert stack[|stack| - 1] == "li";
        }
      } else {
        assert stack + [tag.name] == outer + ["li"] + (inner + [tag.name]);
        ItemIsCheckedAlone(inside[1..], tail, outer, inner + [tag.name]);
      }
    }
  }

  ghost predicate ItemsClean(chunks: seq<Chunk>) {
    forall item :: item in Items(chunks) ==> StackPass(TagsIn(item), []) == []
  }

  lemma AcceptedStep(tag: Tag, rest: seq<Tag>, stack: seq<string>)
    ensures StackPass([tag] + rest, stack) == [] <==>
      ErrorsAt(tag, stack) == [] && StackPass(rest, OpenAfter(tag, stack)) == []
  {
    hide StackPass;
    PassStep(tag, rest, stack);
  }

  /** The tags of the HTML are clean exactly when those of every item and those outside are. */
  lemma {:induction false} ItemsAreCheckedAlone(chunks: seq<Chunk>, stack: seq<string>)
    requires OnlySimpleTags(chunks) && NoItems(chunks)
    ensures StackPass(TagsIn(WithItems(chunks)), stack) == [] <==>
      StackPass(TagsIn(Outside(chunks)), stack) == [] && ItemsClean(chunks)
    decreases |chunks|
  {
    hide StackPass, TagsIn, OnlySimpleTags, NoItems, ItemsClean, StarAt, Content, Following;
    if chunks == [] {
      NoItemsClean();
    } else if StarAt(chunks) {
      var content, after := Content(chunks), Following(chunks);
      PartsAreSimple(chunks);
      ItemsAreCheckedAlone(after, stack);
      TagsOfItem(content, WithItems(after));
      SimpleTagsAreNoItems(content);
      ItemIsCheckedAlone(TagsIn(content), TagsIn(WithItems(after)), stack, []);
      AcceptedStep(Tag(false, "li"), TagsIn(content) + [Tag(true, "li")] + TagsIn(WithItems(after)), stack);
      assert stack + ["li"] == stack + ["li"] + [];
      FirstItemClean(chunks);
    } else {
      var rest := chunks[1..];
      PartsAreSimple(chunks);
      TagsInFirst(chunks[0], WithItems(rest));
      TagsInFirst(chunks[0], Outside(rest));
      SameItems(chunks);
      if chunks[0].Bracket? {
        var tag := HtmlOf(chunks[0]).tag;
        AcceptedStep(tag, TagsIn(WithItems(rest)), stack);
        AcceptedStep(tag, TagsIn(Outside(rest)), stack);
        ItemsAreCheckedAlone(rest, OpenAfter(tag, stack));
      } else {
        ItemsAreCheckedAlone(rest, stack);
      }
    }
  }

  lemma NoItemsClean()
    ensures ItemsClean([])
  {}

  lemma PartsAreSimple(chunks: seq<Chunk>)
    requires OnlySimpleTags(chunks) && NoItems(chunks) && chunks != []
    ensures OnlySimpleTags(chunks[1..]) && NoItems(chunks[1..]) && !chunks[0].Item?
    ensures StarAt(chunks) ==>
      && OnlySimpleTags(Content(chunks)) && NoItems(Content(chunks))
      && OnlySimpleTags(Following(chunks)) && NoItems(Following(chunks))
  {
    hide StarAt, Content, Following, OnlySimpleTags, NoItems;
    PartIsSimple(chunks[1..], chunks);
    FirstIsNoItem(chunks);
    if StarAt(chunks) {
      ItemsArePart(chunks);
      PartIsSimple(Content(chunks), chunks);
      PartIsSimple(Following(chunks), chunks);
    }
  }

  lemma PartIsSimple(part: seq<Chunk>, chunks: seq<Chunk>)
    requires forall x :: x in part ==> x in chunks
    ensures OnlySimpleTags(chunks) ==> OnlySimpleTags(part)
    ensures NoItems(chunks) ==> NoItems(part)
  {
    hide Lower;
    forall k | 0 <= k < |part| ensures exists i :: 0 <= i < |chunks| && chunks[i] == part[k] {
      assert part[k] in chunks;
    }
  }

  lemma FirstIsNoItem(chunks: seq<Chunk>)
    requires NoItems(chunks) && chunks != []
    ensures !chunks[0].Item?
  {}

  lemma TagsInFirst(chunk: Chunk, rest: seq<Chunk>)
    requires !chunk.Item?
    ensures TagsIn([chunk] + rest) == if chunk.Bracket? then [HtmlOf(chunk).tag] + TagsIn(rest) else TagsIn(rest)
  {
    assert ([chunk] + rest)[1..] == rest;
  }

  lemma TagsOfItem(content: seq<Chunk>, after: seq<Chunk>)
    ensures TagsIn([Item(false)] + content + [Item(true)] + after) ==
      [Tag(false, "li")] + (TagsIn(content) + [Tag(true, "li")] + TagsIn(after))
  {
    assert TagsIn([Item(false)]) == [Tag(false, "li")] && TagsIn([Item(true)]) == [Tag(true, "li")];
    hide TagsIn;
    TagsInConcat([Item(false)] + content + [Item(true)], after);
    TagsInConcat([Item(false)] + content, [Item(true)]);
    TagsInConcat([Item(false)], content);
  }

  lemma {:induction false} SimpleTagsAreNoItems(chunks: seq<Chunk>)
    requires OnlySimpleTags(chunks) && NoItems(chunks)
    ensures NoListItems(TagsIn(chunks))
  {
    hide Lower, ElementOf, EscapeChar;
    if chunks != [] {
      SimpleTagsAreNoItems(chunks[1..]);
      if chunks[0].Bracket? { SimpleElementIsNoItem(Lower(chunks[0].name)); }
    }
  }

  lemma SimpleElementIsNoItem(name: string)
    requires name in SIMPLE
    ensures ElementOf(name) != "li" && ElementOf(name) != "*"
  {}

  lemma FirstItemClean(chunks: seq<Chunk>)
    requires StarAt(chunks)
    ensures ItemsClean(chunks) <==> StackPass(TagsIn(Content(chunks)), []) == [] && ItemsClean(Following(chunks))
  {
    hide StackPass, TagsIn, Content, Following, StarAt;
    assert Items(chunks) == [Content(chunks)] + Items(Following(chunks));
  }

  lemma SameItems(chunks: seq<Chunk>)
    requires chunks != [] && !StarAt(chunks)
    ensures ItemsClean(chunks) <==> ItemsClean(chunks[1..])
  {
    hide StackPass, TagsIn, StarAt;
    assert Items(chunks) == Items(chunks[1..]);
  }

  // ----- when the HTML is well nested -----

  /** The check accepts every item alone. */
  ghost predicate EachAccepted(chunks: seq<Chunk>) {
    forall item :: item in Items(chunks) ==> StackPass(TagsOf(item), []) == []
  }

  /** The check accepts every item alone, with tags renamed to their elements. */
  ghost predicate EachRenamedAccepted(chunks: seq<Chunk>) {
    forall item :: item in Items(chunks) ==> StackPass(RenameTags(TagsOf(item)), []) == []
  }

  /**
   * Whatever the check says, the HTML is well nested exactly when it accepts, with tags renamed to their elements,
   * every item alone and the rest of the text alone.
   */
  lemma HtmlIsWellNestedIff(text: string)
    requires SimpleText(text)
    ensures AllPasses(text) == HtmlString(HtmlFor(text))
    ensures var chunks := Split(text);
      Balanced(HtmlTags(HtmlFor(text))) <==>
        StackPass(RenameTags(TagsOf(Outside(chunks))), []) == [] && EachRenamedAccepted(chunks)
  {
    hide AllPasses, HtmlString, Split, SimpleText, WithItems, StackPass, Balanced, Outside, Items, TagsOf, RenameTags,
      OnlySimpleTags, NoItems, NothingWritten, Tidy, Tags;
    var chunks := Split(text);
    PassesWriteHtml(text);
    SplitSpellsText(text);
    ItemsAreCheckedAlone(chunks, []);
    CleanIffBalanced(TagsIn(WithItems(chunks)));
    PiecesHaveNoItems(chunks);
    assert TagsIn(WithItems(chunks)) == HtmlTags(HtmlFor(text));
    hide TagsIn, HtmlFor;
    RenamedTags(Outside(chunks));
    RenamedItems(chunks);
  }

  lemma RenamedItems(chunks: seq<Chunk>)
    requires forall item :: item in Items(chunks) ==> NoItems(item)
    ensures ItemsClean(chunks) <==> EachRenamedAccepted(chunks)
  {
    forall item | item in Items(chunks) ensures TagsIn(item) == RenameTags(TagsOf(item)) { RenamedTags(item); }
  }

  lemma RenamedTags(chunks: seq<Chunk>)
    requires NoItems(chunks)
    ensures TagsIn(chunks) == RenameTags(TagsOf(chunks))
  {
    hide ToHtml, HtmlTags, RenameTags, TagsOf, NoItems;
    HtmlTagsAreRenamed(chunks);
  }

  lemma {:induction false} PiecesHaveNoItems(chunks: seq<Chunk>)
    requires NoItems(chunks)
    ensures NoItems(Outside(chunks)) && forall item :: item in Items(chunks) ==> NoItems(item)
    decreases |chunks|
  {
    hide StarAt, Content, Following;
    if chunks == [] {
    } else if StarAt(chunks) {
      ItemsArePart(chunks);
      PartIsSimple(Content(chunks), chunks);
      PartIsSimple(Following(chunks), chunks);
      PiecesHaveNoItems(Following(chunks));
      assert Items(chunks) == [Content(chunks)] + Items(Following(chunks));
    } else {
      PartIsSimple(chunks[1..], chunks);
      PiecesHaveNoItems(chunks[1..]);
    }
  }

  /** The same sides, under other names. */
  ghost predicate SameSides(a: seq<Tag>, b: seq<Tag>) {
    |a| == |b| && forall i :: 0 <= i < |a| ==> a[i].closing == b[i].closing && (a[i].name == "*" <==> b[i].name == "*")
  }

  lemma {:induction false} RenamingKeepsSides(tags: seq<Tag>)
    ensures SameSides(tags, RenameTags(tags))
  {
    if tags != [] {
      RenamingKeepsSides(tags[1..]);
      StarKeepsItsName(tags[0].name);
    }
  }

  /**
   * A part of accepted tags that is clean alone under other names is clean alone under its own: it never reaches below
   * the tags that were open before it.
   */
  lemma {:induction false} PartIsCleanAlone(
      part: seq<Tag>, renamed: seq<Tag>, tail: seq<Tag>, outer: seq<string>, inner: seq<string>, open: seq<string>)
    requires SameSides(part, renamed) && |inner| == |open|
    requires StackPass(part + tail, outer + inner) == [] && StackPass(renamed, open) == []
    ensures StackPass(part, inner) == [] && StackPass(tail, outer) == []
  {
    if part == [] {
      assert inner == [] && outer + inner == outer && part + tail == tail;
    } else {
      var tag, stack := part[0], outer + inner;
      assert part + tail == [tag] + (part[1..] + tail) && part == [tag] + part[1..];
      assert renamed == [renamed[0]] + renamed[1..];
      AcceptedStep(tag, part[1..] + tail, stack);
      AcceptedStep(renamed[0], renamed[1..], open);
      AcceptedStep(tag, part[1..], inner);
      hide StackPass;
      if tag.closing {
        assert inner != [] && stack[|stack| - 1] == inner[|inner| - 1];
        assert stack[..|stack| - 1] == outer + inner[..|inner| - 1];
        PartIsCleanAlone(part[1..], renamed[1..], tail, outer, inner[..|inner| - 1], open[..|open| - 1]);
      } else if tag.name == "*" {
        PartIsCleanAlone(part[1..], renamed[1..], tail, outer, inner, open);
      } else {
        assert stack + [tag.name] == outer + (inner + [tag.name]);
        PartIsCleanAlone(part[1..], renamed[1..], tail, outer, inner + [tag.name], open + [renamed[0].name]);
      }
    }
  }

  lemma {:induction false} NoTagsInSpaces(chunks: seq<Chunk>)
    ensures TagsOf(AfterSpaces(chunks)) == TagsOf(chunks)
  {
    if chunks != [] && chunks[0].Char? && IsSpace(chunks[0].c) { NoTagsInSpaces(chunks[1..]); }
  }

  lemma TagsOfStar(chunks: seq<Chunk>)
    requires StarAt(chunks)
    ensures TagsOf(chunks) == TagsOf(Content(chunks)) + TagsOf(Following(chunks))
  {
    hide Lower, AfterSpaces, ItemEndAt;
    var rest := AfterSpaces(chunks[3..]);
    var tail, last := chunks[1..], chunks[2..];
    assert tail[0] == Char('*') && tail[1..] == last && last[0] == Char(']') && last[1..] == chunks[3..];
    assert TagsOf(chunks) == TagsOf(tail) == TagsOf(last) == TagsOf(chunks[3..]);
    NoTagsInSpaces(chunks[3..]);
    assert rest == Content(chunks) + Following(chunks);
    TagsOfConcat(Content(chunks), Following(chunks));
  }

  lemma TagsOfFirst(chunks: seq<Chunk>, rest: seq<Chunk>)
    requires chunks != []
    ensures TagsOf([chunks[0]] + rest) ==
      if chunks[0].Bracket? then [Tag(chunks[0].closing, Lower(chunks[0].name))] + TagsOf(rest) else TagsOf(rest)
  {
    assert ([chunks[0]] + rest)[1..] == rest;
  }

  /** In accepted text an item that is clean under the names of its elements is clean. */
  lemma {:induction false} ItemsKeepTheirNames(chunks: seq<Chunk>, stack: seq<string>)
    requires StackPass(TagsOf(chunks), stack) == []
    requires EachRenamedAccepted(chunks)
    ensures EachAccepted(chunks)
    decreases |chunks|
  {
    hide StackPass, TagsOf, StarAt, Content, Following, RenameTags, Lower;
    if chunks == [] {
    } else if StarAt(chunks) {
      var tags := TagsOf(Content(chunks));
      assert Items(chunks) == [Content(chunks)] + Items(Following(chunks));
      TagsOfStar(chunks);
      RenamingKeepsSides(tags);
      assert stack + [] == stack && Content(chunks) in Items(chunks);
      PartIsCleanAlone(tags, RenameTags(tags), TagsOf(Following(chunks)), stack, [], []);
      ItemsKeepTheirNames(Following(chunks), stack);
    } else {
      assert Items(chunks) == Items(chunks[1..]);
      FirstAccepted(chunks, stack);
      ItemsKeepTheirNames(chunks[1..], AfterFirst(chunks[0], stack));
    }
  }

  /** The open tags behind a chunk. */
  function AfterFirst(chunk: Chunk, stack: seq<string>): seq<string> {
    if chunk.Bracket? then OpenAfter(Tag(chunk.closing, Lower(chunk.name)), stack) else stack
  }

  lemma FirstAccepted(chunks: seq<Chunk>, stack: seq<string>)
    requires chunks != [] && StackPass(TagsOf(chunks), stack) == []
    ensures StackPass(TagsOf(chunks[1..]), AfterFirst(chunks[0], stack)) == []
    ensures forall rest :: StackPass(TagsOf(rest), AfterFirst(chunks[0], stack)) == [] ==>
      StackPass(TagsOf([chunks[0]] + rest), stack) == []
  {
    hide StackPass, Lower, TagsOf;
    assert chunks == [chunks[0]] + chunks[1..];
    TagsOfFirst(chunks, chunks[1..]);
    var tag := if chunks[0].Bracket? then Tag(chunks[0].closing, Lower(chunks[0].name)) else Tag(false, "");
    if chunks[0].Bracket? { AcceptedStep(tag, TagsOf(chunks[1..]), stack); }
    forall rest | StackPass(TagsOf(rest), AfterFirst(chunks[0], stack)) == []
      ensures StackPass(TagsOf([chunks[0]] + rest), stack) == []
    {
      TagsOfFirst(chunks, rest);
      if chunks[0].Bracket? { AcceptedStep(tag, TagsOf(rest), stack); }
    }
  }

  /** What is left of accepted text without its items, each accepted alone, is accepted. */
  lemma {:induction false} OutsideIsClean(chunks: seq<Chunk>, stack: seq<string>)
    requires StackPass(TagsOf(chunks), stack) == []
    requires EachAccepted(chunks)
    ensures StackPass(TagsOf(Outside(chunks)), stack) == []
    decreases |chunks|
  {
    hide StackPass, TagsOf, StarAt, Content, Following, Lower;
    if chunks == [] {
    } else if StarAt(chunks) {
      var tags := TagsOf(Content(chunks));
      assert Items(chunks) == [Content(chunks)] + Items(Following(chunks));
      TagsOfStar(chunks);
      assert stack + [] == stack && Content(chunks) in Items(chunks);
      PartIsCleanAlone(tags, tags, TagsOf(Following(chunks)), stack, [], []);
      OutsideIsClean(Following(chunks), stack);
    } else {
      assert Items(chunks) == Items(chunks[1..]);
      FirstAccepted(chunks, stack);
      OutsideIsClean(chunks[1..], AfterFirst(chunks[0], stack));
    }
  }

  lemma CleanStaysCleanRenamed(tags: seq<Tag>)
    requires StackPass(tags, []) == []
    ensures StackPass(RenameTags(tags), []) == []
  {
    hide StackPass, RenameTags;
    CleanIffBalanced(tags);
    var f :| WellNamed(f) && Yield(f) == tags;
    RenameKeepsShape(f);
    CleanIffBalanced(RenameTags(tags));
  }

  /** The HTML of accepted text is well nested exactly when the check accepts each of its list items alone. */
  lemma AcceptedHtmlIsWellNestedIff(text: string)
    requires SimpleText(text) && StackPass(Tags(text), []) == []
    ensures AllPasses(text) == HtmlString(HtmlFor(text))
    ensures Balanced(HtmlTags(HtmlFor(text))) <==> EachAccepted(Split(text))
  {
    hide AllPasses, HtmlString, Split, SimpleText, StackPass, Balanced, Outside, Items, TagsOf, RenameTags, HtmlTags,
      HtmlFor, OnlySimpleTags, NoItems, NothingWritten, Tidy, Tags;
    var chunks := Split(text);
    HtmlIsWellNestedIff(text);
    SplitSpellsText(text);
    if EachAccepted(chunks) {
      OutsideIsClean(chunks, []);
      CleanStaysCleanRenamed(TagsOf(Outside(chunks)));
      forall item | item in Items(chunks) ensures StackPass(RenameTags(TagsOf(item)), []) == [] {
        CleanStaysCleanRenamed(TagsOf(item));
      }
    }
    if EachRenamedAccepted(chunks) { ItemsKeepTheirNames(chunks, []); }
  }

  // ----- an accepted text with misnested HTML -----

  /** The item is no tag to the check, so it accepts `[b][*][/b]`, for which the passes write misnested HTML. */
  lemma ItemBreaksNesting()
    ensures var text := "[b][*][/b]";
      && SimpleText(text) && StackPass(Tags(text), []) == []
      && AllPasses(text) == "<strong><li></strong></li>"
      && !Balanced(HtmlTags(HtmlFor(text)))
  {
    var text, chunks := "[b][*][/b]", [Bracket(false, "b"), Char('['), Char('*'), Char(']'), Bracket(true, "b")];
    BoldItemIsScanned();
    BoldItemIsWritten();
    hide AllPasses, SimpleText, StackPass, Tags, Split, HtmlString, WithItems, Balanced, EachAccepted;
    PassesWriteHtml(text);
    AcceptedHtmlIsWellNestedIff(text);
    BoldItemIsOpen();
  }

  lemma BoldItemIsScanned()
    ensures var text := "[b][*][/b]";
      && SimpleText(text) && StackPass(Tags(text), []) == []
      && Split(text) == [Bracket(false, "b"), Char('['), Char('*'), Char(']'), Bracket(true, "b")]
  {
    var text, star, last := "[b][*][/b]", "[*][/b]", "[/b]";
    BoldItemMatches();
    LowerOfB();
    hide MatchTag, Lower, RawName, StackPass, Split, SimpleText, Tags;
    assert text[3..] == star && last[4..] == "" && star[1..][1..][1..] == last;
    NothingToSplit();
    SplitAtTag(last);
    SplitAtChar(star[1..][1..]);
    SplitAtChar(star[1..]);
    SplitAtChar(star);
    SplitAtTag(text);
    SplitSpellsText(text);
    assert Split(star) == [Char('['), Char('*'), Char(']'), Bracket(true, "b")];
    BoldIsAccepted();
  }

  lemma NothingToSplit()
    ensures SimpleText("") && Split("") == []
  {}

  lemma SplitAtChar(text: string)
    requires text != "" && MatchTag(text).None?
    ensures SimpleText(text) <==> SimpleText(text[1..])
    ensures Split(text) == [Char(text[0])] + Split(text[1..])
  {}

  lemma SplitAtTag(text: string)
    requires text != "" && MatchTag(text).Some?
    requires Lower(RawName(text, MatchTag(text).value)) == MatchTag(text).value.tag.name
    ensures var m := MatchTag(text).value;
      && (SimpleText(text) <==> m.tag.name in SIMPLE && SimpleText(text[m.length..]))
      && Split(text) == [Bracket(m.tag.closing, RawName(text, m))] + Split(text[m.length..])
  {}

  lemma BoldIsAccepted()
    ensures StackPass(TagsOf([Bracket(false, "b"), Char('['), Char('*'), Char(']'), Bracket(true, "b")]), []) == []
  {
    LowerOfB();
    hide Lower;
    assert TagsOf([Bracket(false, "b"), Char('['), Char('*'), Char(']'), Bracket(true, "b")]) ==
      [Tag(false, "b"), Tag(true, "b")];
  }

  lemma LowerOfB()
    ensures Lower("b") == "b"
  {}

  /** What the scanner finds at each place of the text. */
  lemma BoldItemMatches()
    ensures MatchTag("[b][*][/b]") == Some(Match(3, Tag(false, "b")))
    ensures RawName("[b][*][/b]", Match(3, Tag(false, "b"))) == "b"
    ensures MatchTag("[*][/b]") == MatchTag("[*][/b]"[1..]) == MatchTag("[*][/b]"[1..][1..]) == None
    ensures MatchTag("[/b]") == Some(Match(4, Tag(true, "b"))) && RawName("[/b]", Match(4, Tag(true, "b"))) == "b"
  {
    LowerOfB();
    BoldSpelled();
    NoTagAt("[*][/b]");
    NoTagAt("[*][/b]"[1..]);
    NoTagAt("[*][/b]"[1..][1..]);
    hide Lower, MatchTag, RawName;
    TagIsMatched(false, "b", "[*][/b]");
    TagIsMatched(true, "b", "");
    NameOfTag(false, "b", "[*][/b]");
    NameOfTag(true, "b", "");
  }

  lemma BoldSpelled()
    ensures BbText(false, "b") + "[*][/b]" == "[b][*][/b]" && BbText(true, "b") + "" == "[/b]"
    ensures |BbText(false, "b")| == 3 && |BbText(true, "b")| == 4
  {}

  lemma NoTagAt(text: string)
    requires |text| >= 2 && (text[0] == '[' ==> !IsWord(text[1]) && text[1] != '/')
    ensures MatchTag(text) == None
  {}

  lemma OneItem(chunks: seq<Chunk>)
    requires |chunks| == 5 && !chunks[0].Char? && StarAt(chunks[1..]) && !chunks[4].Char?
    ensures WithItems(chunks) == [chunks[0], Item(false), chunks[4], Item(true)] && Items(chunks) == [[chunks[4]]]
  {
    hide StarAt, Content, Following, WithItems, Items;
    var item := chunks[1..];
    ItemOf(item);
    assert item[3..] == [chunks[4]];
    FirstIsNoStar(chunks);
    OutsideBegins(chunks);
    StarWithItems(item);
    NothingAdded();
    assert Items(item) == [[chunks[4]]] + [];
    assert WithItems(item) == [Item(false)] + [chunks[4]] + [Item(true)] + [];
  }

  lemma FirstIsNoStar(chunks: seq<Chunk>)
    requires chunks != [] && !chunks[0].Char?
    ensures !StarAt(chunks)
  {}

  lemma ItemOf(item: seq<Chunk>)
    requires |item| == 4 && StarAt(item) && !item[3].Char?
    ensures Content(item) == item[3..] && Following(item) == []
  {
    LoneChunk(item[3..]);
    hide AfterSpaces, ItemEndAt, StarAt;
  }

  lemma LoneChunk(rest: seq<Chunk>)
    requires |rest| == 1 && !rest[0].Char?
    ensures AfterSpaces(rest) == rest && ItemEndAt(rest) == 1
  {
    assert rest[1..] == [];
  }

  lemma BoldItemIsWritten()
    ensures var chunks := [Bracket(false, "b"), Char('['), Char('*'), Char(']'), Bracket(true, "b")];
      && WithItems(chunks) == [Bracket(false, "b"), Item(false), Bracket(true, "b"), Item(true)]
      && Items(chunks) == [[Bracket(true, "b")]]
      && HtmlString(ToHtml(WithItems(chunks))) == "<strong><li></strong></li>"
  {
    var chunks := [Bracket(false, "b"), Char('['), Char('*'), Char(']'), Bracket(true, "b")];
    assert StarAt(chunks[1..]);
    hide ToHtml, HtmlString, WithItems, Items;
    OneItem(chunks);
    WrittenBoldItem();
  }

  lemma WrittenBoldItem()
    ensures HtmlString(ToHtml([Bracket(false, "b"), Item(false), Bracket(true, "b"), Item(true)])) ==
      "<strong><li></strong></li>"
  {
    LowerOfB();
    hide Lower;
  }

  lemma BoldItemIsOpen()
    ensures !EachAccepted([Bracket(false, "b"), Char('['), Char('*'), Char(']'), Bracket(true, "b")])
  {
    BoldItemIsWritten();
    LowerOfB();
    hide Lower, WithItems, Items;
    assert StackPass(TagsOf([Bracket(true, "b")]), []) != [];
  }


  // ----- escaping loses nothing -----

  /** html.unescape, for the five entities that escaping writes. */
  function Unescape(text: string): string
    decreases |text|
  {
    if text == "" then ""
    else if Begins(text, "&amp;") then "&" + Unescape(text[5..])
    else if Begins(text, "&lt;") then "<" + Unescape(text[4..])
    else if Begins(text, "&gt;") then ">" + Unescape(text[4..])
    else if Begins(text, "&quot;") then "\"" + Unescape(text[6..])
    else if Begins(text, "&#x27;") then "'" + Unescape(text[6..])
    else [text[0]] + Unescape(text[1..])
  }

  predicate Begins(text: string, entity: string) {
    |text| >= |entity| && forall i :: 0 <= i < |entity| ==> text[i] == entity[i]
  }

  lemma UnescapesOne(c: char, tail: string)
    ensures Unescape(EscapeChar(c) + tail) == [c] + Unescape(tail)
  {
    var escaped := EscapeChar(c);
    var all := escaped + tail;
    assert all[|escaped|..] == tail && all[0] == escaped[0];
    assert |escaped| > 1 ==> all[1] == escaped[1];
    EscapedBegins(escaped, tail);
    hide Begins;
    if |escaped| > 1 { OnlyOneBegins(all, escaped); } else { NoEntityBegins(all); }
  }

  lemma EscapedBegins(escaped: string, tail: string)
    ensures Begins(escaped + tail, escaped)
  {
  }

  lemma NoEntityBegins(text: string)
    requires text != "" && text[0] != '&'
    ensures !Begins(text, "&amp;") && !Begins(text, "&lt;") && !Begins(text, "&gt;")
    ensures !Begins(text, "&quot;") && !Begins(text, "&#x27;")
  {
  }

  /** The second character tells the entities apart. */
  lemma OnlyOneBegins(text: string, entity: string)
    requires |text| > 1 && |entity| > 1 && text[1] == entity[1]
    ensures entity[1] != 'a' ==> !Begins(text, "&amp;")
    ensures entity[1] != 'l' ==> !Begins(text, "&lt;")
    ensures entity[1] != 'g' ==> !Begins(text, "&gt;")
    ensures entity[1] != 'q' ==> !Begins(text, "&quot;")
  {
  }

  lemma {:induction false} EscapeRoundTrip(text: string)
    ensures Unescape(Escape(text)) == text
  {
    if text != "" {
      EscapeRoundTrip(text[1..]);
      UnescapesOne(text[0], Escape(text[1..]));
      assert text == [text[0]] + text[1..];
    }
  }
}
