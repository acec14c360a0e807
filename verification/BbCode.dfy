/** The tag check of user pages, and the passes that turn simple tags into HTML. */
module BbCode {
  import opened Wrappers

  predicate IsWord(c: char) { 'a' <= c <= 'z' || 'A' <= c <= 'Z' || '0' <= c <= '9' || c == '_' }

  predicate IsSpace(c: char) { c == ' ' || 9 as char <= c <= 13 as char || 28 as char <= c <= 31 as char }

  function LowerChar(c: char): char { if 'A' <= c <= 'Z' then c + 32 as char else c }

  function Lower(s: string): (r: string)
    ensures |r| == |s| && forall i :: 0 <= i < |s| ==> r[i] == LowerChar(s[i])
  {
    seq(|s|, i requires 0 <= i < |s| => LowerChar(s[i]))
  }

  datatype Tag = Tag(closing: bool, name: string)

  // ----- the tag scanner -----

  /** `\w*` at the start of the text. */
  function WordLength(text: string): (n: nat)
    ensures n <= |text|
    ensures forall i :: 0 <= i < n ==> IsWord(text[i])
    ensures n < |text| ==> !IsWord(text[n])
  {
    if text != "" && IsWord(text[0]) then 1 + WordLength(text[1..]) else 0
  }

  /** The first closing bracket, or the length of the text. */
  function BracketAt(text: string): (n: nat)
    ensures n <= |text|
    ensures n < |text| <==> ']' in text
    ensures n == 0 <==> text == "" || text[0] == ']'
  {
    if text == "" || text[0] == ']' then 0 else 1 + BracketAt(text[1..])
  }

  datatype Match = Match(length: nat, tag: Tag)

  /** The pattern `\[(/?)(\w+)(?:=[^\]]+)?\]` at the start of the text. */
  function MatchTag(text: string): (m: Option<Match>)
    ensures m.Some? ==> 0 < m.value.length <= |text|
  {
    if text == "" || text[0] != '[' then None
    else
      var start := if |text| > 1 && text[1] == '/' then 2 else 1;
      var end := start + WordLength(text[start..]);
      var tag := Tag(start == 2, Lower(text[start..end]));
      if end == start || end == |text| then None
      else if text[end] == ']' then Some(Match(end + 1, tag))
      else if text[end] != '=' then None
      else
        var close := end + 1 + BracketAt(text[end + 1..]);
        if close == end + 1 || close == |text| then None else Some(Match(close + 1, tag))
  }

  /** All tags, left to right, without overlap. */
  function Tags(text: string): seq<Tag> {
    if text == "" then []
    else match MatchTag(text)
      case Some(m) => [m.tag] + Tags(text[m.length..])
      case None => Tags(text[1..])
  }

  // ----- the check -----

  datatype TagError =
    | ClosingWithoutOpening(name: string)
    | Mismatched(name: string, expected: string)
    | Unclosed(name: string)

  function UnclosedErrors(stack: seq<string>): (r: seq<TagError>)
    ensures |r| == |stack|
  {
    seq(|stack|, i requires 0 <= i < |stack| => Unclosed(stack[i]))
  }

  /** The errors of the remaining tags; the innermost open tag is the last of the stack. */
  function StackPass(tags: seq<Tag>, stack: seq<string>): seq<TagError> {
    if tags == [] then UnclosedErrors(stack)
    else
      var tag, rest := tags[0], tags[1..];
      if tag.closing then
        if stack == [] then [ClosingWithoutOpening(tag.name)] + StackPass(rest, stack)
        else if stack[|stack| - 1] != tag.name then [Mismatched(tag.name, stack[|stack| - 1])] + StackPass(rest, stack)
        else StackPass(rest, stack[..|stack| - 1])
      else if tag.name == "*" then StackPass(rest, stack)
      else StackPass(rest, stack + [tag.name])
  }

  /** The errors at one tag, and the open tags behind it. */
  function ErrorsAt(tag: Tag, stack: seq<string>): seq<TagError> {
    if !tag.closing then []
    else if stack == [] then [ClosingWithoutOpening(tag.name)]
    else if stack[|stack| - 1] != tag.name then [Mismatched(tag.name, stack[|stack| - 1])]
    else []
  }

  function OpenAfter(tag: Tag, stack: seq<string>): seq<string> {
    if tag.closing then
      if stack != [] && stack[|stack| - 1] == tag.name then stack[..|stack| - 1] else stack
    else if tag.name == "*" then stack
    else stack + [tag.name]
  }

  lemma PassStep(tag: Tag, rest: seq<Tag>, stack: seq<string>)
    ensures StackPass([tag] + rest, stack) == ErrorsAt(tag, stack) + StackPass(rest, OpenAfter(tag, stack))
  {
    assert ([tag] + rest)[1..] == rest;
  }

  lemma ScanStep(text: string)
    requires text != ""
    ensures var found := MatchTag(text);
      Tags(text) == if found.Some? then [found.value.tag] + Tags(text[found.value.length..]) else Tags(text[1..])
  {
    hide MatchTag;
  }

  lemma PassEnds(stack: seq<string>)
    ensures StackPass(Tags(""), stack) == StackPass([], stack) == UnclosedErrors(stack)
  {}

  lemma UnclosedStep(errors: seq<TagError>, stack: seq<string>, k: nat)
    requires k < |stack|
    ensures errors + UnclosedErrors(stack)[k..] == errors + [Unclosed(stack[k])] + UnclosedErrors(stack)[k + 1..]
  {}

  /** One round of the check reports the errors at the tag and leaves the open tags behind it. */
  ghost predicate Checked(
      before: seq<TagError>, tag: Tag, open: seq<string>, errors: seq<TagError>, stack: seq<string>)
  {
    errors == before + ErrorsAt(tag, open) && stack == OpenAfter(tag, open)
  }

  /** What is reported and what is still to be checked make up the errors. */
  lemma TagChecked(
      before: seq<TagError>, tag: Tag, open: seq<string>, errors: seq<TagError>, stack: seq<string>, rest: seq<Tag>)
    requires Checked(before, tag, open, errors, stack)
    ensures before + StackPass([tag] + rest, open) == errors + StackPass(rest, stack)
  {
    hide StackPass, ErrorsAt, OpenAfter;
    PassStep(tag, rest, open);
  }

  method ValidateTags(content: string) returns (errors: seq<TagError>)
    ensures errors == StackPass(Tags(content), [])
  {
    hide MatchTag, StackPass, Tags, UnclosedErrors;
    errors := [];
    var tagStack: seq<string> := [];
    var rest := content;
    while rest != ""
      invariant StackPass(Tags(content), []) == errors + StackPass(Tags(rest), tagStack)
      decreases |rest|
    {
      var found := MatchTag(rest);
      ScanStep(rest);
      if found.None? {
        rest := rest[1..];
      } else {
        var tag := found.value.tag;
        ghost var before, open := errors, tagStack;
        rest := rest[found.value.length..];
        if tag.closing {
          if tagStack == [] {
            errors := errors + [ClosingWithoutOpening(tag.name)];
          } else if tagStack[|tagStack| - 1] != tag.name {
            errors := errors + [Mismatched(tag.name, tagStack[|tagStack| - 1])];
          } else {
            tagStack := tagStack[..|tagStack| - 1];
          }
        } else if tag.name != "*" {
          tagStack := tagStack + [tag.name];
        }
        assert Checked(before, tag, open, errors, tagStack);
        TagChecked(before, tag, open, errors, tagStack, Tags(rest));
      }
    }
    PassEnds(tagStack);
    for k := 0 to |tagStack|
      invariant StackPass(Tags(content), []) == errors + UnclosedErrors(tagStack)[k..]
    {
      UnclosedStep(errors, tagStack, k);
      errors := errors + [Unclosed(tagStack[k])];
    }
  }

  // ----- the grammar -----

  /** Balanced text: a lone list item, or an element around balanced text, then more balanced text. */
  datatype Forest = Nil | Star(rest: Forest) | Element(name: string, children: Forest, rest: Forest)

  predicate WellNamed(f: Forest) {
    match f
    case Nil => true
    case Star(rest) => WellNamed(rest)
    case Element(name, children, rest) => name != "*" && WellNamed(children) && WellNamed(rest)
  }

  function Yield(f: Forest): seq<Tag> {
    match f
    case Nil => []
    case Star(rest) => [Tag(false, "*")] + Yield(rest)
    case Element(name, children, rest) => [Tag(false, name)] + Yield(children) + [Tag(true, name)] + Yield(rest)
  }

  ghost predicate Balanced(tags: seq<Tag>) { exists f :: WellNamed(f) && Yield(f) == tags }

  /** What is still to come for open tags: each one's closing tag, innermost first, and the text behind it. */
  function Below(forests: seq<Forest>, stack: seq<string>): seq<Tag>
    requires |forests| == |stack|
  {
    if stack == [] then []
    else
      var n := |stack| - 1;
      [Tag(true, stack[n])] + Yield(forests[0]) + Below(forests[1..], stack[..n])
  }

  lemma {:induction false} YieldPasses(f: Forest, tail: seq<Tag>, stack: seq<string>)
    requires WellNamed(f)
    ensures StackPass(Yield(f) + tail, stack) == StackPass(tail, stack)
  {
    match f {
      case Nil => assert Yield(f) + tail == tail;
      case Star(rest) =>
        YieldPasses(rest, tail, stack);
        assert (Yield(f) + tail)[1..] == Yield(rest) + tail;
      case Element(name, children, rest) =>
        var after := Yield(rest) + tail;
        var closed := [Tag(true, name)] + after;
        assert (Yield(f) + tail)[0] == Tag(false, name) && (Yield(f) + tail)[1..] == Yield(children) + closed;
        YieldPasses(children, closed, stack + [name]);
        assert closed[1..] == after && (stack + [name])[..|stack|] == stack;
        YieldPasses(rest, tail, stack);
    }
  }

  ghost predicate AllWellNamed(forests: seq<Forest>) {
    forall i :: 0 <= i < |forests| ==> WellNamed(forests[i])
  }

  lemma NamedTogether(first: Forest, rest: seq<Forest>)
    ensures WellNamed(first) && AllWellNamed(rest) <==> AllWellNamed([first] + rest)
  {
    hide WellNamed;
    var all := [first] + rest;
    assert all[0] == first && forall i :: 0 <= i < |rest| ==> all[i + 1] == rest[i];
  }

  lemma {:induction false} CleanPassParses(
      tags: seq<Tag>, stack: seq<string>) returns (first: Forest, below: seq<Forest>)
    requires StackPass(tags, stack) == []
    ensures WellNamed(first) && |below| == |stack| && AllWellNamed(below)
    ensures tags == Yield(first) + Below(below, stack)
  {
    if tags == [] {
      PassEnds(stack);
      return Nil, [];
    }
    var tag, rest, n := tags[0], tags[1..], |stack| - 1;
    assert tags == [tag] + rest;
    PassStep(tag, rest, stack);
    assert tag.closing ==> stack != [] && stack[n] == tag.name && OpenAfter(tag, stack) == stack[..n];
    assert !tag.closing ==> OpenAfter(tag, stack) == if tag.name == "*" then stack else stack + [tag.name];
    hide StackPass, Yield, Below, AllWellNamed, WellNamed, ErrorsAt, OpenAfter;
    if tag.closing {
      var next, outer := CleanPassParses(rest, stack[..n]);
      first, below := Nil, [next] + outer;
      NamedTogether(next, outer);
      CloseStep(next, outer, stack);
    } else if tag.name == "*" {
      var inner;
      inner, below := CleanPassParses(rest, stack);
      first := Star(inner);
      StarStep(inner, Below(below, stack));
    } else {
      var inner, outer := CleanPassParses(rest, stack + [tag.name]);
      assert outer == [outer[0]] + outer[1..];
      NamedTogether(outer[0], outer[1..]);
      first, below := Element(tag.name, inner, outer[0]), outer[1..];
      OpenStep(inner, outer, stack, tag.name);
    }
  }

  lemma CloseStep(next: Forest, outer: seq<Forest>, stack: seq<string>)
    requires |outer| + 1 == |stack|
    ensures WellNamed(Nil)
    ensures var n := |stack| - 1;
      Yield(Nil) + Below([next] + outer, stack) == [Tag(true, stack[n])] + (Yield(next) + Below(outer, stack[..n]))
  {
    assert ([next] + outer)[1..] == outer;
  }

  lemma StarStep(inner: Forest, after: seq<Tag>)
    ensures WellNamed(Star(inner)) <==> WellNamed(inner)
    ensures Yield(Star(inner)) + after == [Tag(false, "*")] + (Yield(inner) + after)
  {}

  lemma OpenStep(inner: Forest, outer: seq<Forest>, stack: seq<string>, name: string)
    requires |outer| == |stack| + 1
    ensures WellNamed(Element(name, inner, outer[0])) <==> name != "*" && WellNamed(inner) && WellNamed(outer[0])
    ensures Yield(Element(name, inner, outer[0])) + Below(outer[1..], stack) ==
      [Tag(false, name)] + (Yield(inner) + Below(outer, stack + [name]))
  {
    BelowOfPush(outer, stack, name);
    hide Below;
    Regroup([Tag(false, name)], Yield(inner), [Tag(true, name)], Yield(outer[0]), Below(outer[1..], stack));
  }

  lemma Regroup<T>(a: seq<T>, b: seq<T>, c: seq<T>, d: seq<T>, e: seq<T>)
    ensures a + b + c + d + e == a + (b + (c + d + e))
  {}

  lemma BelowOfPush(outer: seq<Forest>, stack: seq<string>, name: string)
    requires |outer| == |stack| + 1
    ensures Below(outer, stack + [name]) == [Tag(true, name)] + Yield(outer[0]) + Below(outer[1..], stack)
  {
    hide Yield;
    assert (stack + [name])[..|stack|] == stack;
  }

  /** No tag error is reported exactly for tag sequences of the grammar. */
  lemma CleanIffBalanced(tags: seq<Tag>)
    ensures StackPass(tags, []) == [] <==> Balanced(tags)
  {
    if StackPass(tags, []) == [] {
      var f, _ := CleanPassParses(tags, []);
      assert Yield(f) == tags;
    }
    if Balanced(tags) {
      var f :| WellNamed(f) && Yield(f) == tags;
      YieldPasses(f, [], []);
      assert Yield(f) + [] == tags;
    }
  }

  // ----- the passes for simple tags -----

  /** re.sub of a literal pattern with IGNORECASE; `pattern` is in lower case. */
  function Sub(text: string, pattern: string, replacement: string): string
    requires pattern != ""
    decreases |text|
  {
    if |text| < |pattern| then text
    else if Matches(text, pattern) then replacement + Sub(text[|pattern|..], pattern, replacement)
    else [text[0]] + Sub(text[1..], pattern, replacement)
  }

  /** The simple tags in the order in which their passes run. */
  const SIMPLE := ["b", "centre", "center", "c", "i", "s", "strike", "u"]

  function ElementOf(name: string): string {
    if name == "b" then "strong"
    else if name == "centre" || name == "center" then "center"
    else if name == "c" then "code"
    else if name == "i" then "em"
    else if name == "s" || name == "strike" then "del"
    else name
  }

  function BbText(closing: bool, name: string): (r: string)
    ensures r != "" && r[0] == '['
  {
    "[" + (if closing then "/" else "") + name + "]"
  }

  function HtmlText(closing: bool, element: string): string { "<" + (if closing then "/" else "") + element + ">" }

  /** One tag's two substitutions. */
  function SubTag(text: string, name: string): string {
    var halfway := Sub(text, BbText(false, name), HtmlText(false, ElementOf(name)));
    Sub(halfway, BbText(true, name), HtmlText(true, ElementOf(name)))
  }

  function SubAll(text: string, names: seq<string>): string
    decreases |names|
  {
    if names == [] then text else SubAll(SubTag(text, names[0]), names[1..])
  }

  function SimplePasses(text: string): string { SubAll(text, SIMPLE) }

  // ----- text as tags and characters -----

  /** A tag, any other character, text that a pass or the escaping has written, or one end of a list item. */
  datatype Chunk = Bracket(closing: bool, name: string) | Char(c: char) | Written(text: string) | Item(closing: bool)

  function ChunkText(chunk: Chunk): string {
    match chunk
    case Bracket(closing, name) => BbText(closing, name)
    case Char(c) => [c]
    case Written(text) => text
    case Item(closing) => HtmlText(closing, "li")
  }

  function TextOf(chunks: seq<Chunk>): string {
    if chunks == [] then "" else ChunkText(chunks[0]) + TextOf(chunks[1..])
  }

  predicate Name(s: string) { s != "" && forall i :: 0 <= i < |s| ==> IsWord(s[i]) }

  predicate NoBracket(s: string) { forall i :: 0 <= i < |s| ==> s[i] != '[' }

  /** What a tag is made of behind its opening bracket. */
  predicate TagChar(c: char) { IsWord(c) || c == '/' || c == ']' }

  /** Text that a pass writes: it begins like HTML and holds no brackets. */
  predicate Foreign(text: string) {
    text != "" && (text[0] == '<' || text[0] == '&') && NoBracket(text) && ']' !in text
  }

  /** The text begins with a tag without attribute. */
  ghost predicate StartsTag(text: string) { exists closing, name :: Name(name) && BbText(closing, name) <= text }

  /**
   * Tags are named by words, at a single opening bracket the scanner finds no tag, with or without attribute, and
   * written text cannot become part of one.
   */
  ghost predicate Tidy(chunks: seq<Chunk>) {
    chunks != [] ==>
      && Tidy(chunks[1..])
      && match chunks[0]
         case Bracket(_, name) => Name(name)
         case Char(c) => c == '[' ==> MatchTag(TextOf(chunks)).None?
         case Written(text) => Foreign(text)
         case Item(_) => true
  }

  /** The chunks in which the scanner reads the text. */
  function Split(text: string): seq<Chunk> {
    if text == "" then []
    else match MatchTag(text)
      case Some(m) => [Bracket(m.tag.closing, RawName(text, m))] + Split(text[m.length..])
      case None => [Char(text[0])] + Split(text[1..])
  }

  function RawName(text: string, m: Match): string {
    var start := if m.tag.closing then 2 else 1;
    if start <= m.length - 1 <= |text| then text[start..m.length - 1] else ""
  }

  /** Every tag the scanner finds is a simple one without attribute; anything else may stand between them. */
  predicate SimpleText(text: string) {
    text != "" ==>
      match MatchTag(text)
      case Some(m) => Lower(RawName(text, m)) == m.tag.name && m.tag.name in SIMPLE && SimpleText(text[m.length..])
      case None => SimpleText(text[1..])
  }

  /** The tags, with names in lower case. */
  function TagsOf(chunks: seq<Chunk>): seq<Tag> {
    if chunks == [] then []
    else if chunks[0].Bracket? then [Tag(chunks[0].closing, Lower(chunks[0].name))] + TagsOf(chunks[1..])
    else TagsOf(chunks[1..])
  }

  // ----- the scanner and the chunks -----

  lemma {:induction false} WordThenBracket(name: string, tail: string)
    requires forall i :: 0 <= i < |name| ==> IsWord(name[i])
    ensures WordLength(name + "]" + tail) == |name|
  {
    if name == "" {
      assert name + "]" + tail == "]" + tail;
    } else {
      assert (name + "]" + tail)[1..] == name[1..] + "]" + tail;
      WordThenBracket(name[1..], tail);
    }
  }

  lemma TagIsMatched(closing: bool, name: string, tail: string)
    requires Name(name)
    ensures MatchTag(BbText(closing, name) + tail) == Some(Match(|BbText(closing, name)|, Tag(closing, Lower(name))))
    ensures (BbText(closing, name) + tail)[|BbText(closing, name)|..] == tail
  {
    hide WordLength, Lower;
    var text := BbText(closing, name) + tail;
    var start := if closing then 2 else 1;
    WordThenBracket(name, tail);
    assert text[start..] == name + "]" + tail;
    assert text[start..start + |name|] == name;
    assert text[start + |name|] == ']';
    assert !closing ==> text[1] == name[0];
  }

  lemma StartedTagIsMatched(text: string)
    requires StartsTag(text)
    ensures MatchTag(text).Some?
  {
    var closing, name :| Name(name) && BbText(closing, name) <= text;
    var tag := BbText(closing, name);
    assert text == tag + text[|tag|..];
    TagIsMatched(closing, name, text[|tag|..]);
  }

  /** Scanned names are words, so the exemption of `*` never applies to scanned text. */
  lemma {:induction false} ScannedNamesAreWords(text: string)
    ensures forall tag :: tag in Tags(text) ==> Name(tag.name) && tag.name != "*"
    decreases |text|
  {
    if text != "" {
      match MatchTag(text) {
        case Some(m) =>
          ScannedNamesAreWords(text[m.length..]);
          MatchedName(text);
          WordsAreNotStars(m.tag.name);
        case None => ScannedNamesAreWords(text[1..]);
      }
    }
  }

  lemma MatchedName(text: string)
    requires MatchTag(text).Some?
    ensures Name(MatchTag(text).value.tag.name)
  {
    hide WordLength, BracketAt;
    var start := if |text| > 1 && text[1] == '/' then 2 else 1;
    var n := WordLength(text[start..]);
    var name := text[start..start + n];
    forall i | 0 <= i < n ensures IsWord(name[i]) { assert name[i] == text[start..][i]; }
  }

  lemma WordsAreNotStars(name: string)
    requires Name(name)
    ensures name != "*"
  {
    assert IsWord(name[0]);
  }

  /** A match whose whole inside is its name has no attribute. */
  lemma MatchWithoutAttribute(text: string)
    requires MatchTag(text).Some? && Lower(RawName(text, MatchTag(text).value)) == MatchTag(text).value.tag.name
    ensures var m := MatchTag(text).value;
      Name(RawName(text, m)) && text[..m.length] == BbText(m.tag.closing, RawName(text, m))
  {
    hide WordLength;
    var m := MatchTag(text).value;
    var raw, start := RawName(text, m), if m.tag.closing then 2 else 1;
    var end := start + WordLength(text[start..]);
    assert |raw| == end - start && m.length == end + 1;
    forall i | 0 <= i < |raw| ensures IsWord(raw[i]) { assert raw[i] == text[start..][i]; }
  }

  /** The scanner's tags are those of the chunks, and the chunks spell the text. */
  lemma {:induction false} SplitSpellsText(text: string)
    requires SimpleText(text)
    ensures TextOf(Split(text)) == text && Tidy(Split(text)) && TagsOf(Split(text)) == Tags(text)
    ensures OnlySimpleTags(Split(text)) && NothingWritten(Split(text)) && NoItems(Split(text))
    decreases |text|
  {
    SplitIsSimple(text);
    hide MatchTag, Lower, RawName, Tags, TextOf, Tidy, TagsOf, OnlySimpleTags, NothingWritten, NoItems;
    if text == "" {
      NothingSplit();
    } else {
      match MatchTag(text) {
        case Some(m) =>
          SplitSpellsText(text[m.length..]);
          TagSpelled(text, Split(text[m.length..]));
        case None =>
          SplitSpellsText(text[1..]);
          CharSpelled(text, Split(text[1..]));
      }
    }
  }

  lemma NothingSplit()
    ensures TextOf(Split("")) == "" && Tidy(Split("")) && TagsOf(Split("")) == Tags("")
  {}

  lemma TagSpelled(text: string, chunks: seq<Chunk>)
    requires MatchTag(text).Some? && Lower(RawName(text, MatchTag(text).value)) == MatchTag(text).value.tag.name
    requires var rest := text[MatchTag(text).value.length..];
      TextOf(chunks) == rest && Tidy(chunks) && TagsOf(chunks) == Tags(rest)
    ensures var m := MatchTag(text).value;
      var all := [Bracket(m.tag.closing, RawName(text, m))] + chunks;
      TextOf(all) == text && Tidy(all) && TagsOf(all) == Tags(text)
  {
    hide MatchTag, Lower, RawName, Tags, TextOf, Tidy, TagsOf, BbText, Name;
    var m := MatchTag(text).value;
    ScanStep(text);
    MatchWithoutAttribute(text);
    FirstChunk(Bracket(m.tag.closing, RawName(text, m)), chunks);
    assert text == text[..m.length] + text[m.length..];
  }

  lemma CharSpelled(text: string, chunks: seq<Chunk>)
    requires text != "" && MatchTag(text).None?
    requires TextOf(chunks) == text[1..] && Tidy(chunks) && TagsOf(chunks) == Tags(text[1..])
    ensures var all := [Char(text[0])] + chunks;
      TextOf(all) == text && Tidy(all) && TagsOf(all) == Tags(text)
  {
    hide MatchTag, Lower, Tags, TextOf, Tidy, TagsOf;
    ScanStep(text);
    assert text == [text[0]] + text[1..];
    FirstChunk(Char(text[0]), chunks);
  }

  predicate Fits(chunk: Chunk, tail: string) {
    && (chunk.Bracket? ==> Name(chunk.name))
    && (chunk.Char? ==> MatchTag(ChunkText(chunk) + tail).None?)
  }

  lemma FirstChunk(chunk: Chunk, rest: seq<Chunk>)
    requires chunk.Bracket? || chunk.Char?
    ensures TextOf([chunk] + rest) == ChunkText(chunk) + TextOf(rest)
    ensures TagsOf([chunk] + rest) ==
      if chunk.Bracket? then [Tag(chunk.closing, Lower(chunk.name))] + TagsOf(rest) else TagsOf(rest)
    ensures Tidy(rest) && Fits(chunk, TextOf(rest)) ==> Tidy([chunk] + rest)
  {
    hide Lower, BbText, MatchTag, Name;
    assert ([chunk] + rest)[1..] == rest;
  }

  lemma {:induction false} SplitIsSimple(text: string)
    requires SimpleText(text)
    ensures OnlySimpleTags(Split(text)) && NothingWritten(Split(text)) && NoItems(Split(text))
    decreases |text|
  {
    hide MatchTag, Lower, RawName;
    if text != "" {
      match MatchTag(text) {
        case Some(m) => SplitIsSimple(text[m.length..]);
        case None => SplitIsSimple(text[1..]);
      }
    }
  }

  ghost predicate OnlySimpleTags(chunks: seq<Chunk>) {
    forall k :: 0 <= k < |chunks| && chunks[k].Bracket? ==> Lower(chunks[k].name) in SIMPLE
  }

  ghost predicate NothingWritten(chunks: seq<Chunk>) { forall k :: 0 <= k < |chunks| ==> !chunks[k].Written? }

  ghost predicate NoItems(chunks: seq<Chunk>) { forall k :: 0 <= k < |chunks| ==> !chunks[k].Item? }

  // ----- rewriting keeps other characters from forming tags -----

  /** Each chunk stays or is written over; only tags and characters that no tag is made of may be written over. */
  ghost predicate Rewrites(a: seq<Chunk>, b: seq<Chunk>) {
    |a| == |b| && forall k :: 0 <= k < |a| ==> Becomes(a[k], b[k])
  }

  predicate Becomes(x: Chunk, y: Chunk) {
    y == x || (y.Written? && Foreign(y.text) && (x.Bracket? || (x.Char? && !TagChar(x.c) && x.c != '[')))
  }

  /** What a tag is made of up to its attribute. */
  predicate Inside(p: string) { forall i :: 0 <= i < |p| ==> TagChar(p[i]) || p[i] == '=' }

  predicate Attribute(rest: string) { rest != "" && rest[0] != ']' && ']' in rest }

  /** Behind its opening bracket a tag is a name and a bracket, or a name, an equals sign and an attribute. */
  function TagBegin(closing: bool, name: string, attribute: bool): string {
    (if closing then "/" else "") + name + (if attribute then "=" else "]")
  }

  lemma MatchedTagBegins(text: string) returns (closing: bool, name: string, attribute: bool)
    requires MatchTag("[" + text).Some?
    ensures Name(name) && TagBegin(closing, name, attribute) <= text && Inside(TagBegin(closing, name, attribute))
    ensures attribute ==> Attribute(text[|TagBegin(closing, name, attribute)|..])
  {
    var full := "[" + text;
    var begin;
    begin, closing, name, attribute := MatchParts(full);
    hide MatchTag, Name, Inside, Attribute, TagBegin;
    assert text == full[1..];
    assert text == begin + full[|begin| + 1..];
    assert text[|begin|..] == full[|begin| + 1..];
  }

  lemma MatchParts(full: string) returns (begin: string, closing: bool, name: string, attribute: bool)
    requires MatchTag(full).Some?
    ensures Name(name) && begin == TagBegin(closing, name, attribute) && Inside(begin)
    ensures |begin| < |full| && full[1..] == begin + full[|begin| + 1..]
    ensures attribute ==> Attribute(full[|begin| + 1..])
  {
    hide WordLength, BracketAt;
    closing := |full| > 1 && full[1] == '/';
    var start := if closing then 2 else 1;
    var end := start + WordLength(full[start..]);
    name, attribute, begin := full[start..end], full[end] == '=', full[1..end + 1];
    forall i | 0 <= i < |name| ensures IsWord(name[i]) { assert name[i] == full[start..][i]; }
    assert begin == full[1..start] + name + [full[end]];
    assert closing ==> full[1..start] == "/";
    assert !closing ==> full[1..start] == "";
  }

  lemma BegunTagMatches(closing: bool, name: string, attribute: bool, text: string)
    requires Name(name) && TagBegin(closing, name, attribute) <= text
    requires attribute ==> Attribute(text[|TagBegin(closing, name, attribute)|..])
    ensures MatchTag("[" + text).Some?
  {
    var rest := text[|TagBegin(closing, name, attribute)|..];
    var side, end := if closing then "/" else "", if attribute then "=" else "]";
    assert text == side + name + end + rest;
    hide TagBegin, MatchTag;
    Spelled(side, name, end, rest);
    assert "[" + text == "[" + (side + name + end + rest);
    NameEnds("[" + text, 1 + |side|, name, attribute, rest);
  }

  lemma Spelled(side: string, name: string, end: string, rest: string)
    requires |side| <= 1 && (side != "" ==> side[0] == '/') && Name(name) && |end| == 1
    ensures var full := "[" + (side + name + end + rest);
      && 1 + |side| + |name| < |full| && full[0] == '[' && (full[1] == '/' <==> |side| == 1)
      && full[1 + |side|..] == name + end + rest && full[1 + |side| + |name| + 1..] == rest
  {
    var full := "[" + (side + name + end + rest);
    assert full[1..] == side + name + end + rest;
    assert full[1] == if |side| == 1 then side[0] else name[0];
  }

  lemma NameEnds(full: string, start: nat, name: string, attribute: bool, rest: string)
    requires Name(name) && 1 <= start <= 2 && start < |full| && full[0] == '[' && (full[1] == '/' <==> start == 2)
    requires full[start..] == name + (if attribute then "=" else "]") + rest
    requires start + |name| < |full| && full[start + |name| + 1..] == rest
    requires attribute ==> Attribute(rest)
    ensures MatchTag(full).Some?
  {
    hide WordLength, BracketAt;
    var word := full[start..];
    forall i | 0 <= i < |name| ensures IsWord(word[i]) { assert word[i] == name[i]; }
    assert word[|name|] == full[start + |name|] == if attribute then '=' else ']';
    WordLengthIs(word, |name|);
  }

  /** What an attribute needs is there before if it is there after. */
  ghost predicate Carries(before: string, after: string) {
    && (']' in after ==> ']' in before)
    && (after != "" && after[0] != ']' ==> before != "" && before[0] != ']')
  }

  lemma CarriedTag(text: string, after: string)
    requires MatchTag("[" + after).Some?
    requires forall p :: Inside(p) && p <= after ==> p <= text && Carries(text[|p|..], after[|p|..])
    ensures MatchTag("[" + text).Some?
  {
    hide MatchTag, Inside;
    var closing, name, attribute := MatchedTagBegins(after);
    BegunTagMatches(closing, name, attribute, text);
  }

  lemma {:induction false} RewritingCarries(a: seq<Chunk>, b: seq<Chunk>)
    requires Rewrites(a, b) && Tidy(a)
    ensures Carries(TextOf(a), TextOf(b))
  {
    if b != [] {
      RewritingCarries(a[1..], b[1..]);
      assert Becomes(a[0], b[0]);
    }
  }

  /** What could complete a tag after the rewriting was there before. */
  lemma {:induction false} InsideOfTagWasThere(p: string, a: seq<Chunk>, b: seq<Chunk>)
    requires Rewrites(a, b) && Tidy(a) && Inside(p) && p <= TextOf(b)
    ensures p <= TextOf(a) && Carries(TextOf(a)[|p|..], TextOf(b)[|p|..])
  {
    hide Tidy, TextOf, Carries;
    if p == "" {
      RewritingCarries(a, b);
    } else {
      FirstInside(p, a, b);
      TailIsTidy(a);
      InsideOfTagWasThere(p[1..], a[1..], b[1..]);
      assert p == [p[0]] + p[1..];
      assert TextOf(a)[|p|..] == TextOf(a[1..])[|p| - 1..] && TextOf(b)[|p|..] == TextOf(b[1..])[|p| - 1..];
    }
  }

  lemma TailIsTidy(chunks: seq<Chunk>)
    requires Tidy(chunks) && chunks != []
    ensures Tidy(chunks[1..])
  {}

  lemma FirstInside(p: string, a: seq<Chunk>, b: seq<Chunk>)
    requires Rewrites(a, b) && Tidy(a) && Inside(p) && p != "" && p <= TextOf(b)
    ensures b != [] && a != [] && a[0] == b[0] == Char(p[0])
    ensures TextOf(b) == [p[0]] + TextOf(b[1..]) && TextOf(a) == [p[0]] + TextOf(a[1..])
    ensures p[1..] <= TextOf(b[1..])
  {
    assert b != [];
    FirstIsForeign(a);
    assert Becomes(a[0], b[0]);
    hide TextOf, Tidy;
    TextOfFirst(b);
    TextOfFirst(a);
    FirstCharacter(p, b[0], TextOf(b[1..]));
  }

  lemma FirstIsForeign(chunks: seq<Chunk>)
    requires Tidy(chunks) && chunks != []
    ensures chunks[0].Written? ==> Foreign(chunks[0].text)
  {}

  lemma TextOfFirst(chunks: seq<Chunk>)
    requires chunks != []
    ensures TextOf(chunks) == ChunkText(chunks[0]) + TextOf(chunks[1..])
  {}

  lemma FirstCharacter(p: string, chunk: Chunk, tail: string)
    requires Inside(p) && p != "" && p <= ChunkText(chunk) + tail
    requires chunk.Written? ==> Foreign(chunk.text)
    ensures chunk == Char(p[0]) && p[1..] <= tail
  {
    assert TagChar(p[0]) || p[0] == '=';
    assert ChunkText(chunk) != "" && ChunkText(chunk)[0] == p[0];
  }

  lemma {:induction false} RewritesStayTidy(a: seq<Chunk>, b: seq<Chunk>)
    requires Tidy(a) && Rewrites(a, b)
    ensures Tidy(b)
  {
    hide MatchTag;
    if a != [] {
      RewritesStayTidy(a[1..], b[1..]);
      assert Becomes(a[0], b[0]);
      if b[0] == Char('[') && MatchTag(TextOf(b)).Some? { NoNewTag(a, b); }
    }
  }

  lemma NoNewTag(a: seq<Chunk>, b: seq<Chunk>)
    requires a != [] && b != [] && a[0] == b[0] == Char('[') && Tidy(a[1..]) && Rewrites(a, b)
    requires MatchTag(TextOf(b)).Some?
    ensures MatchTag(TextOf(a)).Some?
  {
    assert TextOf(b) == "[" + TextOf(b[1..]) && TextOf(a) == "[" + TextOf(a[1..]);
    hide MatchTag, TextOf, Tidy, Inside, Carries;
    var text, after := TextOf(a[1..]), TextOf(b[1..]);
    forall p | Inside(p) && p <= after ensures p <= text && Carries(text[|p|..], after[|p|..]) {
      InsideOfTagWasThere(p, a[1..], b[1..]);
    }
    CarriedTag(text, after);
  }

  // ----- the passes on chunks -----

  lemma {:induction false} SubSkipsPlain(text: string, tail: string, pattern: string, replacement: string)
    requires NoBracket(text) && pattern != "" && pattern[0] == '['
    ensures Sub(text + tail, pattern, replacement) == text + Sub(tail, pattern, replacement)
  {
    var all := text + tail;
    if text == "" {
      assert all == tail && text + Sub(tail, pattern, replacement) == Sub(tail, pattern, replacement);
    } else if |all| < |pattern| {
    } else {
      assert all[1..] == text[1..] + tail;
      assert Lower(all[..|pattern|])[0] == LowerChar(text[0]) != '[';
      SubSkipsPlain(text[1..], tail, pattern, replacement);
    }
  }

  lemma WordLengthIs(text: string, n: nat)
    requires n < |text| && !IsWord(text[n]) && forall i :: 0 <= i < n ==> IsWord(text[i])
    ensures WordLength(text) == n
  {
    var m := WordLength(text);
    assert m <= n;
  }

  /** A word and its bracket are determined by any text they start. */
  lemma SameWord(text: string, n: nat, wanted: string)
    requires n < |text| && text[n] == ']' && forall i :: 0 <= i < n ==> IsWord(text[i])
    requires |wanted| < |text| && Lower(text[..|wanted| + 1]) == wanted + "]"
    requires forall i :: 0 <= i < |wanted| ==> IsWord(wanted[i])
    ensures Lower(text[..n]) == wanted
  {
    var low, m := Lower(text[..|wanted| + 1]), |wanted|;
    assert low[m] == LowerChar(text[m]) == ']';
    forall i | 0 <= i < m ensures IsWord(text[i]) {
      assert low[i] == LowerChar(text[i]) == wanted[i];
    }
    WordLengthIs(text, n);
    WordLengthIs(text, m);
    assert Lower(text[..m]) == low[..m] == wanted;
  }

  predicate Matches(text: string, pattern: string) {
    |text| >= |pattern| && Lower(text[..|pattern|]) == pattern
  }

  /** A tag pattern matches a tag exactly when side and name agree, whatever follows. */
  lemma PatternMatchesTag(closing: bool, name: string, tail: string, side: bool, wanted: string)
    requires Name(name) && Name(wanted)
    ensures Matches(BbText(closing, name) + tail, BbText(side, wanted)) <==> closing == side && Lower(name) == wanted
  {
    var text, pattern := BbText(closing, name) + tail, BbText(side, wanted);
    if closing == side && Lower(name) == wanted {
      assert text[..|pattern|] == BbText(closing, name);
      LowerOfBbText(closing, name);
    }
    if Matches(text, pattern) { MatchedTag(closing, name, tail, side, wanted); }
  }

  lemma MatchedTag(closing: bool, name: string, tail: string, side: bool, wanted: string)
    requires Name(name) && Name(wanted)
    requires Matches(BbText(closing, name) + tail, BbText(side, wanted))
    ensures closing == side && Lower(name) == wanted
  {
    hide Lower;
    var text, pattern := BbText(closing, name) + tail, BbText(side, wanted);
    var low, e := Lower(text[..|pattern|]), if side then 2 else 1;
    assert low[1] == LowerChar(text[1]) == pattern[1];
    assert text[1] == (if closing then '/' else name[0]) && pattern[1] == if side then '/' else wanted[0];
    assert closing == side;
    assert text[e..][..|wanted| + 1] == text[..|pattern|][e..];
    assert Lower(text[e..][..|wanted| + 1]) == low[e..] == wanted + "]";
    assert text[e..] == name + "]" + tail;
    SameWord(text[e..], |name|, wanted);
    assert text[e..][..|name|] == name;
  }

  lemma LowerOfBbText(closing: bool, name: string)
    ensures Lower(BbText(closing, name)) == BbText(closing, Lower(name))
  {}

  lemma SubReadsBracket(closing: bool, name: string, tail: string, side: bool, wanted: string, replacement: string)
    requires Name(name) && Name(wanted)
    ensures Sub(BbText(closing, name) + tail, BbText(side, wanted), replacement) ==
      (if closing == side && Lower(name) == wanted then replacement else BbText(closing, name)) +
      Sub(tail, BbText(side, wanted), replacement)
  {
    var text, pattern := BbText(closing, name) + tail, BbText(side, wanted);
    hide Matches, Sub, Lower, BbText;
    var tag := BbText(closing, name);
    PatternMatchesTag(closing, name, tail, side, wanted);
    SubStep(text, pattern, replacement);
    if closing == side && Lower(name) == wanted {
      SameLength(closing, name, wanted);
      assert text[|pattern|..] == tail;
    } else {
      NoInnerBracket(closing, name);
      SubSkipsPlain(tag[1..], tail, pattern, replacement);
      assert text[1..] == tag[1..] + tail;
      FirstThenRest(tag, Sub(tail, pattern, replacement));
    }
  }

  lemma SameLength(closing: bool, name: string, wanted: string)
    requires Lower(name) == wanted
    ensures |BbText(closing, name)| == |BbText(closing, wanted)|
  {}

  lemma NoInnerBracket(closing: bool, name: string)
    requires Name(name)
    ensures NoBracket(BbText(closing, name)[1..])
  {}

  lemma FirstThenRest(text: string, after: string)
    requires text != ""
    ensures [text[0]] + (text[1..] + after) == text + after
  {}

  /** Where the pattern does not match, the first character stays. */
  lemma SubStep(text: string, pattern: string, replacement: string)
    requires pattern != "" && text != ""
    ensures Sub(text, pattern, replacement) ==
      if Matches(text, pattern) then replacement + Sub(text[|pattern|..], pattern, replacement)
      else [text[0]] + Sub(text[1..], pattern, replacement)
  {}

  lemma MatchStartsTag(text: string, side: bool, wanted: string)
    requires Name(wanted) && Matches(text, BbText(side, wanted))
    ensures StartsTag(text)
  {
    var q := text[..|BbText(side, wanted)|];
    LowersToTag(q, side, wanted);
    var name := q[(if side then 2 else 1)..|q| - 1];
    assert BbText(side, name) <= text;
  }

  lemma LowersToTag(q: string, side: bool, wanted: string)
    requires Name(wanted) && Lower(q) == BbText(side, wanted)
    ensures var e := if side then 2 else 1;
      e <= |q| - 1 && Name(q[e..|q| - 1]) && q == BbText(side, q[e..|q| - 1])
  {
    hide Lower;
    var low, e, n := Lower(q), if side then 2 else 1, |q| - 1;
    assert low[0] == LowerChar(q[0]) && low[n] == LowerChar(q[n]) && low[e - 1] == LowerChar(q[e - 1]);
    assert q[0] == '[' && q[n] == ']' && (side ==> q[1] == '/');
    forall i | 0 <= i < n - e ensures IsWord(q[e..n][i]) {
      assert low[e + i] == LowerChar(q[e + i]) && low[e + i] == wanted[i];
    }
  }

  function SubChunk(chunk: Chunk, side: bool, wanted: string, replacement: string): Chunk {
    if chunk.Bracket? && chunk.closing == side && Lower(chunk.name) == wanted then Written(replacement) else chunk
  }

  function SubChunks(chunks: seq<Chunk>, side: bool, wanted: string, replacement: string): (r: seq<Chunk>)
    ensures |r| == |chunks|
    ensures forall k :: 0 <= k < |chunks| ==> r[k] == SubChunk(chunks[k], side, wanted, replacement)
  {
    if chunks == [] then []
    else [SubChunk(chunks[0], side, wanted, replacement)] + SubChunks(chunks[1..], side, wanted, replacement)
  }

  /** Substituting in the text is substituting in its tags. */
  lemma {:induction false} SubOnChunks(chunks: seq<Chunk>, side: bool, wanted: string, replacement: string)
    requires Tidy(chunks) && Name(wanted)
    ensures Sub(TextOf(chunks), BbText(side, wanted), replacement) ==
      TextOf(SubChunks(chunks, side, wanted, replacement))
  {
    hide Sub, BbText, Lower, Matches, StartsTag, Foreign, MatchTag;
    var pattern := BbText(side, wanted);
    if chunks == [] {
      SubOfNothing(pattern, replacement);
    } else {
      var tail := TextOf(chunks[1..]);
      SubOnChunks(chunks[1..], side, wanted, replacement);
      match chunks[0] {
        case Bracket(closing, name) => SubReadsBracket(closing, name, tail, side, wanted, replacement);
        case Char(c) =>
          if Matches([c] + tail, pattern) {
            PatternBeginsWithBracket([c] + tail, pattern);
            MatchStartsTag([c] + tail, side, wanted);
            StartedTagIsMatched([c] + tail);
          }
          SubStep([c] + tail, pattern, replacement);
        case Written(text) =>
          ForeignHasNoBracket(text);
          SubSkipsPlain(text, tail, pattern, replacement);
        case Item(end) => SubSkipsPlain(HtmlText(end, "li"), tail, pattern, replacement);
      }
    }
  }

  lemma PatternBeginsWithBracket(text: string, pattern: string)
    requires Matches(text, pattern) && pattern != "" && pattern[0] == '['
    ensures text != "" && text[0] == '['
  {
    assert Lower(text[..|pattern|])[0] == LowerChar(text[0]);
  }

  lemma ForeignHasNoBracket(text: string)
    requires Foreign(text)
    ensures NoBracket(text)
  {}

  lemma SubOfNothing(pattern: string, replacement: string)
    requires pattern != ""
    ensures Sub("", pattern, replacement) == ""
  {}

  /** The chunk after the passes for `names`. */
  function Translate(chunk: Chunk, names: seq<string>): Chunk {
    if chunk.Bracket? && Lower(chunk.name) in names
    then Written(HtmlText(chunk.closing, ElementOf(Lower(chunk.name)))) else chunk
  }

  function TranslateAll(chunks: seq<Chunk>, names: seq<string>): (r: seq<Chunk>)
    ensures |r| == |chunks| && forall k :: 0 <= k < |chunks| ==> r[k] == Translate(chunks[k], names)
  {
    if chunks == [] then [] else [Translate(chunks[0], names)] + TranslateAll(chunks[1..], names)
  }

  ghost predicate AllNames(names: seq<string>) { forall k :: 0 <= k < |names| ==> Name(names[k]) }

  lemma HtmlIsForeign(closing: bool, name: string)
    requires Name(name)
    ensures Foreign(HtmlText(closing, ElementOf(name)))
  {}

  /** Both substitutions of one tag, on the chunks. */
  lemma SubTagOnChunks(chunks: seq<Chunk>, name: string)
    requires Tidy(chunks) && Name(name)
    ensures SubTag(TextOf(chunks), name) == TextOf(TranslateAll(chunks, [name]))
    ensures Tidy(TranslateAll(chunks, [name]))
  {
    hide Sub, TextOf, Lower, BbText, HtmlText, ElementOf, Tidy, Foreign;
    var begin, end := HtmlText(false, ElementOf(name)), HtmlText(true, ElementOf(name));
    HtmlIsForeign(false, name);
    HtmlIsForeign(true, name);
    var halfway := SubChunks(chunks, false, name, begin);
    RewritesStayTidy(chunks, halfway);
    SubOnChunks(chunks, false, name, begin);
    SubOnChunks(halfway, true, name, end);
    BothSides(chunks, name);
    RewritesStayTidy(halfway, SubChunks(halfway, true, name, end));
  }

  lemma BothSides(chunks: seq<Chunk>, name: string)
    ensures var begin, end := HtmlText(false, ElementOf(name)), HtmlText(true, ElementOf(name));
      SubChunks(SubChunks(chunks, false, name, begin), true, name, end) == TranslateAll(chunks, [name])
  {
    hide SubChunks, TranslateAll, Lower, HtmlText, ElementOf;
  }

  lemma {:induction false} PassesOnChunks(chunks: seq<Chunk>, names: seq<string>)
    requires Tidy(chunks) && AllNames(names)
    ensures SubAll(TextOf(chunks), names) == TextOf(TranslateAll(chunks, names)) && Tidy(TranslateAll(chunks, names))
    decreases |names|
  {
    hide SubTag, TextOf, Lower, HtmlText, ElementOf, Tidy, Name;
    if names == [] {
      assert TranslateAll(chunks, names) == chunks;
    } else {
      var next := TranslateAll(chunks, [names[0]]);
      SubTagOnChunks(chunks, names[0]);
      PassesOnChunks(next, names[1..]);
      assert names == [names[0]] + names[1..];
      assert TranslateAll(next, names[1..]) == TranslateAll(chunks, names);
    }
  }

  // ----- escaping -----

  function EscapeChar(c: char): string {
    match c
    case '&' => "&amp;"
    case '<' => "&lt;"
    case '>' => "&gt;"
    case '"' => "&quot;"
    case '\'' => "&#x27;"
    case _ => [c]
  }

  /** html.escape. */
  function Escape(text: string): string {
    if text == "" then "" else EscapeChar(text[0]) + Escape(text[1..])
  }

  function EscapedChunk(chunk: Chunk): Chunk {
    if chunk.Char? && EscapeChar(chunk.c) != [chunk.c] then Written(EscapeChar(chunk.c)) else chunk
  }

  function EscapedChunks(chunks: seq<Chunk>): (r: seq<Chunk>)
    ensures |r| == |chunks| && forall k :: 0 <= k < |chunks| ==> r[k] == EscapedChunk(chunks[k])
  {
    if chunks == [] then [] else [EscapedChunk(chunks[0])] + EscapedChunks(chunks[1..])
  }

  lemma EscapedIsForeign(c: char)
    ensures EscapeChar(c) != [c] ==> Foreign(EscapeChar(c)) && !TagChar(c) && c != '['
    ensures NoAngle(EscapeChar(c))
  {}

  predicate NoAngle(text: string) { forall i :: 0 <= i < |text| ==> text[i] != '<' && text[i] != '>' }

  lemma FirstEscaped(p: string, tail: string)
    requires p != ""
    ensures Escape(p + tail) == EscapeChar(p[0]) + Escape(p[1..] + tail)
  {
    assert (p + tail)[1..] == p[1..] + tail;
  }

  lemma {:induction false} EscapeSkipsTags(p: string, tail: string)
    requires forall i :: 0 <= i < |p| ==> TagChar(p[i]) || p[i] == '['
    ensures Escape(p + tail) == p + Escape(tail)
  {
    if p == "" {
      assert p + tail == tail;
    } else {
      EscapeSkipsTags(p[1..], tail);
      EscapedIsForeign(p[0]);
      hide EscapeChar;
      FirstEscaped(p, tail);
      FirstThenRest(p, Escape(tail));
    }
  }

  lemma {:induction false} EscapeOnChunks(chunks: seq<Chunk>)
    requires Tidy(chunks) && NothingWritten(chunks) && NoItems(chunks)
    ensures Escape(TextOf(chunks)) == TextOf(EscapedChunks(chunks))
  {
    if chunks != [] {
      var tail := TextOf(chunks[1..]);
      EscapeOnChunks(chunks[1..]);
      assert EscapedChunks(chunks)[1..] == EscapedChunks(chunks[1..]);
      hide EscapeChar, BbText;
      match chunks[0] {
        case Bracket(closing, name) =>
          TagsAreTagChars(closing, name);
          EscapeSkipsTags(BbText(closing, name), tail);
        case Char(c) => assert ([c] + tail)[1..] == tail;
        case _ =>
      }
    }
  }

  lemma TagsAreTagChars(closing: bool, name: string)
    requires Name(name)
    ensures var tag := BbText(closing, name); forall i :: 0 <= i < |tag| ==> TagChar(tag[i]) || tag[i] == '['
  {}

  lemma EscapingRewrites(chunks: seq<Chunk>)
    requires Tidy(chunks)
    ensures Rewrites(chunks, EscapedChunks(chunks)) && Tidy(EscapedChunks(chunks))
  {
    hide EscapeChar, Foreign, Tidy;
    forall k | 0 <= k < |chunks| ensures Becomes(chunks[k], EscapedChunks(chunks)[k]) {
      if chunks[k].Char? { EscapedIsForeign(chunks[k].c); }
    }
    RewritesStayTidy(chunks, EscapedChunks(chunks));
  }

  // ----- the HTML -----

  /** Text as HTML tags and text without angle brackets. */
  datatype Html = HtmlTag(tag: Tag) | HtmlData(text: string)

  function HtmlOf(chunk: Chunk): Html {
    match chunk
    case Bracket(closing, name) => HtmlTag(Tag(closing, ElementOf(Lower(name))))
    case Char(c) => HtmlData(EscapeChar(c))
    case Written(text) => HtmlData(text)
    case Item(closing) => HtmlTag(Tag(closing, "li"))
  }

  function HtmlString(html: seq<Html>): string {
    if html == [] then ""
    else
      var head := match html[0] case HtmlTag(tag) => HtmlText(tag.closing, tag.name) case HtmlData(text) => text;
      head + HtmlString(html[1..])
  }

  function HtmlTags(html: seq<Html>): seq<Tag> {
    if html == [] then []
    else if html[0].HtmlTag? then [html[0].tag] + HtmlTags(html[1..])
    else HtmlTags(html[1..])
  }

  function ToHtml(chunks: seq<Chunk>): seq<Html> {
    if chunks == [] then [] else [HtmlOf(chunks[0])] + ToHtml(chunks[1..])
  }

  function RenameTags(tags: seq<Tag>): seq<Tag> {
    if tags == [] then [] else [Tag(tags[0].closing, ElementOf(tags[0].name))] + RenameTags(tags[1..])
  }

  function RenameForest(f: Forest): Forest {
    match f
    case Nil => Nil
    case Star(rest) => Star(RenameForest(rest))
    case Element(name, children, rest) => Element(ElementOf(name), RenameForest(children), RenameForest(rest))
  }

  lemma {:induction false} RenameConcat(a: seq<Tag>, b: seq<Tag>)
    ensures RenameTags(a + b) == RenameTags(a) + RenameTags(b)
  {
    hide ElementOf;
    if a == [] {
      assert a + b == b;
    } else {
      RenameConcat(a[1..], b);
      hide RenameTags;
      RenameOne(a[0], a[1..] + b);
      RenameOne(a[0], a[1..]);
      assert a + b == [a[0]] + (a[1..] + b) && a == [a[0]] + a[1..];
    }
  }

  lemma {:induction false} RenameKeepsShape(f: Forest)
    requires WellNamed(f)
    ensures WellNamed(RenameForest(f)) && Yield(RenameForest(f)) == RenameTags(Yield(f))
  {
    hide ElementOf, RenameTags;
    match f {
      case Nil => RenameNone();
      case Star(rest) =>
        RenameKeepsShape(rest);
        RenameOne(Tag(false, "*"), Yield(rest));
        StarKeepsItsName("*");
      case Element(name, children, rest) =>
        RenameKeepsShape(children);
        RenameKeepsShape(rest);
        StarKeepsItsName(name);
        var inner, end := Yield(children), [Tag(true, name)] + Yield(rest);
        assert Yield(f) == [Tag(false, name)] + (inner + end);
        RenameOne(Tag(false, name), inner + end);
        RenameConcat(inner, end);
        RenameOne(Tag(true, name), Yield(rest));
    }
  }

  lemma StarKeepsItsName(name: string)
    ensures ElementOf(name) == "*" <==> name == "*"
  {}

  lemma RenameNone()
    ensures RenameTags([]) == []
  {}

  lemma RenameOne(tag: Tag, rest: seq<Tag>)
    ensures RenameTags([tag] + rest) == [Tag(tag.closing, ElementOf(tag.name))] + RenameTags(rest)
  {
    assert ([tag] + rest)[1..] == rest;
  }

  lemma {:induction false} HtmlTagsAreRenamed(chunks: seq<Chunk>)
    requires NoItems(chunks)
    ensures HtmlTags(ToHtml(chunks)) == RenameTags(TagsOf(chunks))
  {
    hide ElementOf, Lower, EscapeChar;
    if chunks != [] {
      HtmlTagsAreRenamed(chunks[1..]);
      if chunks[0].Bracket? { RenameOne(Tag(chunks[0].closing, Lower(chunks[0].name)), TagsOf(chunks[1..])); }
    }
  }

  lemma {:induction false} TranslatedIsHtml(chunks: seq<Chunk>)
    requires OnlySimpleTags(chunks) && NothingWritten(chunks)
    ensures TextOf(TranslateAll(EscapedChunks(chunks), SIMPLE)) == HtmlString(ToHtml(chunks))
  {
    hide Lower, EscapeChar, HtmlText, ElementOf;
    if chunks != [] {
      TranslatedIsHtml(chunks[1..]);
      assert EscapedChunks(chunks)[1..] == EscapedChunks(chunks[1..]);
      assert TranslateAll(EscapedChunks(chunks), SIMPLE)[1..] == TranslateAll(EscapedChunks(chunks[1..]), SIMPLE);
    }
  }

  lemma SimpleTagsAreNames()
    ensures AllNames(SIMPLE)
  {}

  ghost predicate DataHasNoAngles(html: seq<Html>) {
    forall k :: 0 <= k < |html| && html[k].HtmlData? ==> NoAngle(html[k].text)
  }

  lemma {:induction false} EscapedDataHasNoAngles(chunks: seq<Chunk>)
    requires NothingWritten(chunks)
    ensures DataHasNoAngles(ToHtml(chunks))
  {
    hide EscapeChar, NoAngle;
    if chunks != [] {
      EscapedDataHasNoAngles(chunks[1..]);
      if chunks[0].Char? { EscapedIsForeign(chunks[0].c); }
    }
  }
}
