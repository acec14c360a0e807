/** What the errors of the tag check say, in terms of the grammar. */
module BbErrors {
  import opened BbCode

  /** One forest, then the other. */
  function Then(f: Forest, g: Forest): Forest {
    match f
    case Nil => g
    case Star(rest) => Star(Then(rest, g))
    case Element(name, children, rest) => Element(name, children, Then(rest, g))
  }

  lemma {:induction false} ThenYields(f: Forest, g: Forest)
    ensures Yield(Then(f, g)) == Yield(f) + Yield(g)
    ensures WellNamed(f) && WellNamed(g) ==> WellNamed(Then(f, g))
  {
    match f {
      case Nil => assert Yield(f) + Yield(g) == Yield(g);
      case Star(rest) => ThenYields(rest, g);
      case Element(name, children, rest) =>
        ThenYields(rest, g);
        var element := [Tag(false, name)] + Yield(children) + [Tag(true, name)];
        assert element + Yield(rest) + Yield(g) == element + (Yield(rest) + Yield(g));
    }
  }

  /** Balanced text, the first open tag, balanced text, the next one, and so on. */
  function Spelled(forests: seq<Forest>, open: seq<string>): seq<Tag>
    requires |forests| == |open| + 1
  {
    if open == [] then Yield(forests[0])
    else
      var n := |open| - 1;
      Spelled(forests[..n + 1], open[..n]) + [Tag(false, open[n])] + Yield(forests[n + 1])
  }

  ghost predicate SpelledBy(tags: seq<Tag>, forests: seq<Forest>, open: seq<string>) {
    && |forests| == |open| + 1 && AllWellNamed(forests) && Spelled(forests, open) == tags
    && forall i :: 0 <= i < |open| ==> open[i] != "*"
  }

  /** The tags are balanced but for the given open ones, outermost first. */
  ghost predicate LeavesOpen(tags: seq<Tag>, open: seq<string>) { exists forests :: SpelledBy(tags, forests, open) }

  lemma NothingOpen()
    ensures LeavesOpen([], [])
  {
    assert Spelled([Nil], []) == [];
    assert SpelledBy([], [Nil], []);
  }

  /** Another opening tag. */
  lemma OpensOne(tags: seq<Tag>, open: seq<string>, name: string)
    requires LeavesOpen(tags, open) && name != "*"
    ensures LeavesOpen(tags + [Tag(false, name)], open + [name])
  {
    var forests :| SpelledBy(tags, forests, open);
    var more, all := forests + [Nil], open + [name];
    SpelledOnce(forests, open, name);
    hide Spelled, WellNamed;
    assert AllWellNamed(more) by { NilIsWellNamed(); }
    assert SpelledBy(tags + [Tag(false, name)], more, all);
  }

  lemma NilIsWellNamed()
    ensures WellNamed(Nil)
  {
  }

  lemma SpelledOnce(forests: seq<Forest>, open: seq<string>, name: string)
    requires |forests| == |open| + 1
    ensures Spelled(forests + [Nil], open + [name]) == Spelled(forests, open) + [Tag(false, name)]
  {
    var more, all := forests + [Nil], open + [name];
    assert more[..|open| + 1] == forests && all[..|open|] == open && more[|open| + 1] == Nil;
  }

  /** What stands behind the last open tag grows by a balanced piece. */
  lemma GrowsBy(tags: seq<Tag>, forests: seq<Forest>, open: seq<string>, f: Forest)
    requires SpelledBy(tags, forests, open) && WellNamed(f)
    ensures SpelledBy(tags + Yield(f), forests[|open| := Then(forests[|open|], f)], open)
  {
    hide Yield, WellNamed;
    var n := |open|;
    var more := forests[n := Then(forests[n], f)];
    ThenYields(forests[n], f);
    if n > 0 {
      assert more[..n] == forests[..n];
      var front := Spelled(forests[..n], open[..n - 1]) + [Tag(false, open[n - 1])];
      assert front + (Yield(forests[n]) + Yield(f)) == front + Yield(forests[n]) + Yield(f);
    }
  }

  lemma StarStays(tags: seq<Tag>, open: seq<string>)
    requires LeavesOpen(tags, open)
    ensures LeavesOpen(tags + [Tag(false, "*")], open)
  {
    var forests :| SpelledBy(tags, forests, open);
    GrowsBy(tags, forests, open, Star(Nil));
    assert Yield(Star(Nil)) == [Tag(false, "*")];
  }

  /** The closing tag of the last open one makes an element of it. */
  lemma ClosesOne(tags: seq<Tag>, open: seq<string>)
    requires LeavesOpen(tags, open) && open != []
    ensures LeavesOpen(tags + [Tag(true, open[|open| - 1])], open[..|open| - 1])
  {
    var forests :| SpelledBy(tags, forests, open);
    var n := |open| - 1;
    var outer, element := forests[..n + 1], Element(open[n], forests[n + 1], Nil);
    var before, inner := Spelled(outer, open[..n]), Yield(forests[n + 1]);
    assert SpelledBy(before, outer, open[..n]);
    GrowsBy(before, outer, open[..n], element);
    assert tags == before + [Tag(false, open[n])] + inner;
    ElementYields(open[n], forests[n + 1]);
    assert tags + [Tag(true, open[n])] == before + Yield(element);
    assert SpelledBy(tags + [Tag(true, open[n])], outer[n := Then(outer[n], element)], open[..n]);
  }

  lemma ElementYields(name: string, children: Forest)
    ensures Yield(Element(name, children, Nil)) == [Tag(false, name)] + Yield(children) + [Tag(true, name)]
  {
  }

  /** A closing tag that is not that of the last open one. */
  predicate Misplaced(tag: Tag, open: seq<string>) {
    tag.closing && (open == [] || open[|open| - 1] != tag.name)
  }

  lemma PropertiesOfStep(tag: Tag, open: seq<string>)
    ensures !Misplaced(tag, open) ==> ErrorsAt(tag, open) == []
    ensures Misplaced(tag, open) ==>
      ErrorsAt(tag, open) == [if open == [] then ClosingWithoutOpening(tag.name)
                              else Mismatched(tag.name, open[|open| - 1])]
    ensures !Misplaced(tag, open) ==>
      OpenAfter(tag, open) ==
        if tag.closing then open[..|open| - 1] else if tag.name == "*" then open else open + [tag.name]
  {
  }

  lemma OneMore(tags: seq<Tag>, tag: Tag, open: seq<string>)
    requires LeavesOpen(tags, open) && !Misplaced(tag, open)
    ensures LeavesOpen(tags + [tag], OpenAfter(tag, open))
  {
    hide LeavesOpen;
    PropertiesOfStep(tag, open);
    if tag.closing {
      assert tag == Tag(true, open[|open| - 1]);
      ClosesOne(tags, open);
    } else if tag.name == "*" {
      assert tag == Tag(false, "*");
      StarStays(tags, open);
    } else {
      assert tag == Tag(false, tag.name);
      OpensOne(tags, open, tag.name);
    }
  }

  /**
   * The first error names the first closing tag that is not that of the innermost open tag, and that open tag if there
   * is one; without such a closing tag the errors name all open tags, outermost first.
   */
  lemma FirstErrorNames(tags: seq<Tag>) returns (cut: nat, open: seq<string>)
    ensures cut <= |tags| && LeavesOpen(tags[..cut], open)
    ensures cut == |tags| ==>
      |StackPass(tags, [])| == |open| && forall i :: 0 <= i < |open| ==> StackPass(tags, [])[i] == Unclosed(open[i])
    ensures cut < |tags| ==>
      && Misplaced(tags[cut], open) && StackPass(tags, []) != []
      && StackPass(tags, [])[0] ==
        if open == [] then ClosingWithoutOpening(tags[cut].name)
        else Mismatched(tags[cut].name, open[|open| - 1])
  {
    hide StackPass, LeavesOpen, OpenAfter, ErrorsAt;
    cut, open := 0, [];
    NothingOpen();
    assert tags[..0] == [] && tags[0..] == tags;
    while cut < |tags| && !Misplaced(tags[cut], open)
      invariant cut <= |tags| && LeavesOpen(tags[..cut], open)
      invariant StackPass(tags, []) == StackPass(tags[cut..], open)
    {
      var tag := tags[cut];
      assert tags[cut..] == [tag] + tags[cut + 1..] && tags[..cut + 1] == tags[..cut] + [tag];
      PassStep(tag, tags[cut + 1..], open);
      PropertiesOfStep(tag, open);
      OneMore(tags[..cut], tag, open);
      cut, open := cut + 1, OpenAfter(tag, open);
    }
    if cut < |tags| {
      assert tags[cut..] == [tags[cut]] + tags[cut + 1..];
      PassStep(tags[cut], tags[cut + 1..], open);
      PropertiesOfStep(tags[cut], open);
    } else {
      assert tags[cut..] == [];
      PassEnds(open);
    }
  }
}
