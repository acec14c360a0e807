/** The paging loop that turns a beatmap's rows into its best row per user. */
module Leaderboard {
  import opened Wrappers
  import opened Ordering

  datatype Row = Row(user: int, total: int, scoreId: int)

  /** sys.maxsize. */
  const MAX_SIZE := 0x7FFF_FFFF_FFFF_FFFF

  const DESC: (Row, Row) -> bool := (x: Row, y: Row) => x.total >= y.total

  ghost predicate Descending(rows: seq<Row>) {
    forall i, j :: 0 <= i < j < |rows| ==> rows[i].total >= rows[j].total
  }

  /** Each user's first row, in order. */
  function FirstPerUser(rows: seq<Row>): (r: seq<Row>)
    ensures |r| <= |rows|
  {
    if rows == [] then []
    else
      var n := |rows| - 1;
      var firsts := FirstPerUser(rows[..n]);
      if HasUser(rows[..n], rows[n].user) then firsts else firsts + [rows[n]]
  }

  predicate HasUser(rows: seq<Row>, user: int) { exists i :: 0 <= i < |rows| && rows[i].user == user }

  /** WHERE total_score < bound. */
  function Where(board: seq<Row>, bound: int): seq<Row> {
    if board == [] then []
    else (if board[0].total < bound then [board[0]] else []) + Where(board[1..], bound)
  }

  /** The first row after position `q` that does not share the total of the row before `q`. */
  function TieEnd(board: seq<Row>, q: nat): (e: nat)
    requires 0 < q <= |board|
    ensures q <= e <= |board|
    ensures forall j :: q <= j < e ==> board[j].total == board[q - 1].total
    ensures e < |board| ==> board[e].total != board[q - 1].total
    decreases |board| - q
  {
    if q < |board| && board[q].total == board[q - 1].total then TieEnd(board, q + 1) else q
  }

  datatype Pages = Pages(found: seq<Row>, repeats: nat)

  /** What the loop collects from position `p` on: after each page it asks for as many rows as repeated a user. */
  function Paging(board: seq<Row>, p: nat, limit: int, found: seq<Row>): Pages
    requires p <= |board|
    decreases |board| - p
  {
    if limit <= 0 || p == |board| then Pages(found, 0)
    else
      var q := Min(p + limit, |board|);
      var next := FirstPerUser(found + board[p..q]);
      var repeats := |found| + (q - p) - |next|;
      var rest := Paging(board, TieEnd(board, q), repeats, next);
      Pages(rest.found, repeats + rest.repeats)
  }

  // ----- the filter on an ordered table -----

  lemma {:induction false} WhereSplit(board: seq<Row>, bound: int, i: nat)
    requires i <= |board|
    requires forall j :: 0 <= j < i ==> board[j].total >= bound
    requires forall j :: i <= j < |board| ==> board[j].total < bound
    ensures Where(board, bound) == board[i..]
  {
    if board != [] {
      WhereSplit(board[1..], bound, if i == 0 then 0 else i - 1);
      assert i == 0 ==> board == [board[0]] + board[1..];
      assert i > 0 ==> board[1..][i - 1..] == board[i..];
    }
  }

  lemma {:induction false} WhereIsSuffix(board: seq<Row>, bound: int)
    requires Descending(board)
    ensures |Where(board, bound)| <= |board|
    ensures Where(board, bound) == board[|board| - |Where(board, bound)|..]
    ensures forall j :: 0 <= j < |board| - |Where(board, bound)| ==> board[j].total >= bound
  {
    if board != [] {
      WhereIsSuffix(board[1..], bound);
      if board[0].total < bound { WhereSplit(board, bound, 0); }
    }
  }

  /** After a page the strict bound also skips the rest of the page's last tie. */
  lemma WhereAfterPage(board: seq<Row>, visible: seq<Row>, q: nat, bound: int)
    requires Descending(board) && visible == Where(board, MAX_SIZE)
    requires 0 < q <= |visible| && bound == visible[q - 1].total
    ensures Where(board, bound) == visible[TieEnd(visible, q)..]
  {
    hide Where, TieEnd;
    WhereIsSuffix(board, MAX_SIZE);
    var m, e := |board| - |visible|, TieEnd(visible, q);
    assert visible == board[m..];
    assert board[m + q - 1] == visible[q - 1];
    forall j | 0 <= j < m + e ensures board[j].total >= bound {
      if j >= m + q { assert board[j] == visible[j - m]; }
    }
    if e < |visible| { assert board[m + e] == visible[e]; }
    WhereSplit(board, bound, m + e);
    assert board[m..][e..] == board[m + e..];
  }

  // ----- first rows per user -----

  lemma {:induction false} SameUsers(rows: seq<Row>, user: int)
    ensures HasUser(FirstPerUser(rows), user) <==> HasUser(rows, user)
  {
    if rows != [] {
      var n := |rows| - 1;
      SameUsers(rows[..n], user);
      assert rows == rows[..n] + [rows[n]];
      HasUserOfSnoc(rows[..n], rows[n], user);
      HasUserOfSnoc(FirstPerUser(rows[..n]), rows[n], user);
    }
  }

  lemma HasUserOfSnoc(a: seq<Row>, x: Row, user: int)
    ensures HasUser(a + [x], user) <==> HasUser(a, user) || x.user == user
  {
    HasUserOfConcat(a, [x], user);
    assert HasUser([x], user) <==> x.user == user by { assert [x][0] == x; }
  }

  lemma HasUserOfConcat(a: seq<Row>, b: seq<Row>, user: int)
    ensures HasUser(a + b, user) <==> HasUser(a, user) || HasUser(b, user)
  {
    if i :| 0 <= i < |a| && a[i].user == user { assert (a + b)[i].user == user; }
    if i :| 0 <= i < |b| && b[i].user == user { assert (a + b)[|a| + i].user == user; }
  }

  /** Starting over from the first rows of a prefix changes nothing. */
  lemma {:induction false} FirstsAbsorb(a: seq<Row>, b: seq<Row>)
    ensures FirstPerUser(FirstPerUser(a) + b) == FirstPerUser(a + b)
  {
    var f := FirstPerUser(a);
    if b == [] {
      FirstsIdempotent(a);
      assert a + b == a && f + b == f;
    } else {
      var n := |b| - 1;
      FirstsAbsorb(a, b[..n]);
      assert (f + b)[..|f + b| - 1] == f + b[..n];
      assert (a + b)[..|a + b| - 1] == a + b[..n];
      SameUsers(a, b[n].user);
      HasUserOfConcat(f, b[..n], b[n].user);
      HasUserOfConcat(a, b[..n], b[n].user);
    }
  }

  lemma FirstsOfNone()
    ensures FirstPerUser([]) == []
  {}

  lemma FirstsOfSnoc(a: seq<Row>, x: Row)
    ensures FirstPerUser(a + [x]) == if HasUser(a, x.user) then FirstPerUser(a) else FirstPerUser(a) + [x]
  {
    assert (a + [x])[..|a|] == a;
  }

  lemma {:induction false} FirstsIdempotent(a: seq<Row>)
    ensures FirstPerUser(FirstPerUser(a)) == FirstPerUser(a)
  {
    if a != [] {
      var n := |a| - 1;
      FirstsIdempotent(a[..n]);
      if !HasUser(a[..n], a[n].user) {
        var init, f := FirstPerUser(a[..n]), FirstPerUser(a);
        SameUsers(a[..n], a[n].user);
        assert f[..|f| - 1] == init;
      }
    }
  }

  /** More rows only add to the end, and only rows from the addition. */
  lemma {:induction false} FirstsExtend(a: seq<Row>, b: seq<Row>)
    ensures FirstPerUser(a) <= FirstPerUser(a + b)
    ensures forall k :: |FirstPerUser(a)| <= k < |FirstPerUser(a + b)| ==> FirstPerUser(a + b)[k] in b
    ensures |FirstPerUser(a + b)| <= |FirstPerUser(a)| + |b|
  {
    if b == [] {
      assert a + b == a;
    } else {
      var n := |b| - 1;
      FirstsExtend(a, b[..n]);
      assert (a + b)[..|a + b| - 1] == a + b[..n];
    }
  }

  /** The place in the insertion-ordered dictionary, or its size. */
  function IndexOf(scores: seq<Row>, user: int): (i: nat)
    ensures i <= |scores|
    ensures i < |scores| ==> scores[i].user == user
    ensures i < |scores| <==> HasUser(scores, user)
  {
    if scores == [] then 0
    else if scores[0].user == user then 0
    else
      assert forall j :: 1 <= j < |scores| ==> scores[j] == scores[1..][j - 1];
      1 + IndexOf(scores[1..], user)
  }

  lemma DescendingSnoc(rows: seq<Row>, x: Row)
    requires Descending(rows) && forall r :: r in rows ==> r.total >= x.total
    ensures Descending(rows + [x])
  {
    forall i | 0 <= i < |rows| ensures rows[i].total >= x.total { assert rows[i] in rows; }
  }

  lemma NextTotal(page: seq<Row>, bound: int, k: nat)
    requires Descending(page) && k < |page| && forall r :: r in page ==> r.total < bound
    ensures page[k].total <= if k == 0 then bound else page[k - 1].total
  {
    assert page[k] in page;
  }

  /** One page: a user who already has a row is counted again instead of replaced. */
  method AddPage(found: seq<Row>, page: seq<Row>, bound: int) returns (scores: seq<Row>, extraNeed: nat, maxScore: int)
    requires FirstPerUser(found) == found && Descending(found) && Descending(page)
    requires forall r :: r in found ==> r.total >= bound
    requires forall r :: r in page ==> r.total < bound
    ensures scores == FirstPerUser(found + page) && FirstPerUser(scores) == scores && Descending(scores)
    ensures extraNeed == |found| + |page| - |scores|
    ensures maxScore == if page == [] then bound else page[|page| - 1].total
    ensures forall r :: r in scores ==> r.total >= maxScore
  {
    hide HasUser, IndexOf, FirstPerUser, Descending;
    scores, extraNeed, maxScore := found, 0, bound;
    assert found + [] == found;
    for k := 0 to |page|
      invariant scores == FirstPerUser(found + page[..k]) && Descending(scores)
      invariant extraNeed == |found| + k - |scores|
      invariant maxScore == if k == 0 then bound else page[k - 1].total
      invariant forall r :: r in scores ==> r.total >= maxScore
    {
      var s := page[k];
      assert found + page[..k + 1] == (found + page[..k]) + [s];
      FirstsOfSnoc(found + page[..k], s);
      NextTotal(page, bound, k);
      SameUsers(found + page[..k], s.user);
      DescendingSnoc(scores, s);
      var i := IndexOf(scores, s.user);
      if i < |scores| {
        extraNeed := extraNeed + 1;
        assert scores[i] in scores;
        if s.total > scores[i].total { scores := scores[i := s]; }
      } else {
        scores := scores + [s];
      }
      if maxScore > s.total { maxScore := s.total; }
    }
    FirstsIdempotent(found + page);
    assert page[..|page|] == page;
  }

  /** `board` is the filtered table in the order in which the database lists it, ties in any order. */
  method GetLeaderboard(board: seq<Row>, limit: int) returns (result: seq<Row>, count: int)
    requires Descending(board)
    ensures var pages := Paging(Where(board, MAX_SIZE), 0, limit, []);
      result == pages.found && count == |board| - pages.repeats
  {
    hide FirstPerUser, TieEnd, Paging, Where;
    count := |board|;
    var scores: seq<Row> := [];
    var maxScore, limit := MAX_SIZE, limit;
    ghost var visible, p, repeats := Where(board, MAX_SIZE), 0, 0;
    ghost var target := Paging(visible, 0, limit, []);
    while limit > 0
      invariant p <= |visible|
      invariant Where(board, maxScore) == visible[p..]
      invariant FirstPerUser(scores) == scores && Descending(scores)
      invariant forall r :: r in scores ==> r.total >= maxScore
      invariant count == |board| - repeats
      invariant SamePages(target, repeats, Paging(visible, p, limit, scores))
      decreases |visible| - p, limit
    {
      var rows := Where(board, maxScore);
      var page := rows[..Min(limit, |rows|)];
      VisibleRows(board, visible, p, maxScore);
      var next, extraNeed, lowest := AddPage(scores, page, maxScore);
      PagingStep(visible, p, limit, scores, page, next, extraNeed);
      if page != [] {
        ghost var q := p + |page|;
        assert lowest == visible[q - 1].total;
        WhereAfterPage(board, visible, q, lowest);
        p := TieEnd(visible, q);
      }
      scores, maxScore, limit, count, repeats := next, lowest, extraNeed, count - extraNeed, repeats + extraNeed;
    }
    PagingDone(visible, p, limit, scores);
    SortByOfSorted(scores, DESC);
    result := SortBy(scores, DESC);
  }

  ghost predicate SamePages(target: Pages, repeats: nat, rest: Pages) {
    target.found == rest.found && target.repeats == repeats + rest.repeats
  }

  lemma VisibleRows(board: seq<Row>, visible: seq<Row>, p: nat, bound: int)
    requires Descending(board) && p <= |visible| && Where(board, bound) == visible[p..]
    ensures Descending(visible[p..])
    ensures forall r :: r in visible[p..] ==> r.total < bound
  {
    WhereIsSuffix(board, bound);
    WhereFilters(board, bound);
  }

  lemma {:induction false} WhereFilters(board: seq<Row>, bound: int)
    ensures forall r :: r in Where(board, bound) <==> r in board && r.total < bound
  {
    if board != [] {
      WhereFilters(board[1..], bound);
      assert board == [board[0]] + board[1..];
    }
  }

  lemma PagingDone(visible: seq<Row>, p: nat, limit: int, scores: seq<Row>)
    requires p <= |visible| && (limit <= 0 || p == |visible|)
    ensures Paging(visible, p, limit, scores) == Pages(scores, 0)
  {}

  lemma PagingStep(visible: seq<Row>, p: nat, limit: int, scores: seq<Row>, page: seq<Row>, next: seq<Row>, extra: nat)
    requires p <= |visible| && limit > 0
    requires page == visible[p..][..Min(limit, |visible| - p)]
    requires FirstPerUser(scores) == scores
    requires next == FirstPerUser(scores + page) && extra == |scores| + |page| - |next|
    ensures page == [] ==>
      next == scores && extra == 0 &&
      Paging(visible, p, limit, scores) == Paging(visible, p, extra, next) == Pages(scores, 0)
    ensures page != [] ==>
      SamePages(Paging(visible, p, limit, scores), extra, Paging(visible, TieEnd(visible, p + |page|), extra, next))
  {
    hide FirstPerUser, TieEnd, HasUser;
    assert page == visible[p..p + |page|];
    if page == [] { assert scores + page == scores; }
  }

  lemma PagingUnfolds(board: seq<Row>, p: nat, q: nat, limit: int, found: seq<Row>)
    requires p < |board| && limit > 0 && q == Min(p + limit, |board|)
    ensures var next := FirstPerUser(found + board[p..q]);
      SamePages(Paging(board, p, limit, found), |found| + (q - p) - |next|,
        Paging(board, TieEnd(board, q), |found| + (q - p) - |next|, next))
  {
    hide FirstPerUser, TieEnd;
  }

  // ----- what the loop yields -----

  ghost predicate Repeats(board: seq<Row>, n: nat)
    requires n <= |board|
  {
    exists i, j :: 0 <= i < j < n && board[i].user == board[j].user
  }

  /** Where a prefix that repeats a user ends inside a tie, the rest of the tie holds no new user. */
  ghost predicate TieSafe(board: seq<Row>) {
    forall n :: 0 < n < |board| && Repeats(board, n) ==> KnownUsers(board, n)
  }

  ghost predicate KnownUsers(board: seq<Row>, n: nat)
    requires 0 < n <= |board|
  {
    forall j :: n <= j < TieEnd(board, n) ==> HasUser(board[..n], board[j].user)
  }

  /** The best rows of the first `limit` distinct users, or of all of them. */
  function Top(board: seq<Row>, limit: int): seq<Row> {
    var firsts := FirstPerUser(board);
    if limit <= 0 then [] else firsts[..Min(limit, |firsts|)]
  }

  lemma {:induction false} FewerFirstsIffRepeats(board: seq<Row>, n: nat)
    requires n <= |board|
    ensures |FirstPerUser(board[..n])| < n <==> Repeats(board, n)
  {
    if n > 0 {
      FewerFirstsIffRepeats(board, n - 1);
      assert board[..n][..n - 1] == board[..n - 1];
      var user := board[n - 1].user;
      if HasUser(board[..n - 1], user) {
        var i :| 0 <= i < n - 1 && board[..n - 1][i].user == user;
        assert board[i].user == board[n - 1].user;
      } else {
        forall i | 0 <= i < n - 1 ensures board[i].user != user { assert board[..n - 1][i] == board[i]; }
      }
    }
  }

  lemma {:induction false} NoNewFirsts(board: seq<Row>, n: nat, e: nat)
    requires n <= e <= |board|
    requires forall j :: n <= j < e ==> HasUser(board[..n], board[j].user)
    ensures FirstPerUser(board[..e]) == FirstPerUser(board[..n])
  {
    if n < e {
      NoNewFirsts(board, n, e - 1);
      assert board[..e][..e - 1] == board[..e - 1];
      HasUserOfConcat(board[..n], board[n..e - 1], board[e - 1].user);
      assert board[..n] + board[n..e - 1] == board[..e - 1];
    }
  }

  /** A page read after a whole prefix extends it. */
  lemma PageExtendsPrefix(board: seq<Row>, p: nat, q: nat)
    requires p <= q <= |board|
    ensures FirstPerUser(FirstPerUser(board[..p]) + board[p..q]) == FirstPerUser(board[..q])
  {
    FirstsAbsorb(board[..p], board[p..q]);
    assert board[..p] + board[p..q] == board[..q];
  }

  lemma PrefixFirsts(board: seq<Row>, p: nat)
    requires p <= |board|
    ensures FirstPerUser(board[..p]) <= FirstPerUser(board)
    ensures p == |board| ==> FirstPerUser(board[..p]) == FirstPerUser(board)
  {
    hide FirstPerUser;
    FirstsExtend(board[..p], board[p..]);
    assert board[..p] + board[p..] == board;
    assert p == |board| ==> board[..p] == board;
  }

  lemma {:induction false} SafePagingYieldsTop(board: seq<Row>, p: nat, limit: int, wanted: nat)
    requires TieSafe(board) && p <= |board| && limit >= 0
    requires var n := |FirstPerUser(board[..p])|; n + limit == wanted || (p == |board| && n <= wanted)
    ensures Paging(board, p, limit, FirstPerUser(board[..p])).found == Top(board, wanted)
    decreases |board| - p
  {
    hide TieSafe, FirstPerUser, TieEnd, Repeats, Paging;
    PrefixFirsts(board, p);
    if limit == 0 || p == |board| {
      PagingDone(board, p, limit, FirstPerUser(board[..p]));
    } else {
      var q, found := Min(p + limit, |board|), FirstPerUser(board[..p]);
      PageExtendsPrefix(board, p, q);
      var next := FirstPerUser(board[..q]);
      var repeats := |found| + (q - p) - |next|;
      NextLimit(board, p, q);
      PagingUnfolds(board, p, q, limit, found);
      if repeats == 0 {
        PagingDone(board, TieEnd(board, q), repeats, next);
        PrefixFirsts(board, q);
      } else {
        FewerFirstsIffRepeats(board, q);
        SafeSkip(board, q);
        SafePagingYieldsTop(board, TieEnd(board, q), repeats, wanted);
      }
    }
  }

  lemma NextLimit(board: seq<Row>, p: nat, q: nat)
    requires p <= q <= |board|
    ensures |FirstPerUser(board[..p])| <= p
    ensures |FirstPerUser(board[..q])| <= |FirstPerUser(board[..p])| + (q - p)
  {
    FirstsExtend(board[..p], board[p..q]);
    assert board[..p] + board[p..q] == board[..q];
  }

  lemma SafeSkip(board: seq<Row>, q: nat)
    requires TieSafe(board) && 0 < q <= |board| && Repeats(board, q)
    ensures FirstPerUser(board[..TieEnd(board, q)]) == FirstPerUser(board[..q])
  {
    if q < |board| { assert KnownUsers(board, q); }
    NoNewFirsts(board, q, TieEnd(board, q));
  }

  /** Whatever is collected later comes from later rows and goes behind. */
  lemma {:induction false} PagingAppends(board: seq<Row>, p: nat, limit: int, found: seq<Row>)
    requires p <= |board| && FirstPerUser(found) == found
    ensures var all := Paging(board, p, limit, found).found;
      found <= all && forall k :: |found| <= k < |all| ==> all[k] in board[p..]
    decreases |board| - p
  {
    hide FirstPerUser, TieEnd, HasUser;
    if limit > 0 && p < |board| {
      var q := Min(p + limit, |board|);
      var next := FirstPerUser(found + board[p..q]);
      var e := TieEnd(board, q);
      FirstsExtend(found, board[p..q]);
      FirstsIdempotent(found + board[p..q]);
      PagingAppends(board, e, |found| + (q - p) - |next|, next);
      assert forall r :: r in board[p..q] ==> r in board[p..];
      assert forall r :: r in board[e..] ==> r in board[p..];
    }
  }

  lemma FirstPage(board: seq<Row>, n: nat)
    requires 0 < n <= |board|
    ensures var found := FirstPerUser(board[..n]);
      Paging(board, 0, n, []).found == Paging(board, TieEnd(board, n), n - |found|, found).found
  {
    hide FirstPerUser, TieEnd, Paging;
    assert [] + board[0..n] == board[..n];
    PagingUnfolds(board, 0, n, n, []);
  }

  /** An unsafe tie loses a user for the limit at which a page ends inside it. */
  lemma UnsafeTieLosesAUser(board: seq<Row>, n: nat)
    requires Descending(board) && 0 < n < |board| && Repeats(board, n) && !KnownUsers(board, n)
    ensures Paging(board, 0, n, []).found != Top(board, n)
  {
    var j := FirstNewUser(board, n, TieEnd(board, n));
    NextFirst(board, n, j);
    FewerFirstsIffRepeats(board, n);
    FirstPage(board, n);
    LostUser(board, n, j, FirstPerUser(board[..n]));
  }

  lemma LostUser(board: seq<Row>, n: nat, j: nat, found: seq<Row>)
    requires Descending(board) && 0 < n <= |board| && n <= j < TieEnd(board, n) && |found| < n
    requires FirstPerUser(board[..n]) == found && FirstPerUser(board[..j + 1]) == found + [board[j]]
    requires Paging(board, 0, n, []).found == Paging(board, TieEnd(board, n), n - |found|, found).found
    ensures Paging(board, 0, n, []).found != Top(board, n)
  {
    hide FirstPerUser, TieEnd, Descending, Paging;
    PrefixFirsts(board, j + 1);
    FirstsIdempotent(board[..n]);
    PagingAppends(board, TieEnd(board, n), n - |found|, found);
    var all := Paging(board, 0, n, []).found;
    if all == Top(board, n) {
      assert all[|found|] == board[j];
      LaterRowsDiffer(board, j, TieEnd(board, n), all[|found|]);
    }
  }

  lemma NextFirst(board: seq<Row>, n: nat, j: nat)
    requires n <= j < |board| && !HasUser(board[..n], board[j].user)
    requires forall i :: n <= i < j ==> HasUser(board[..n], board[i].user)
    ensures FirstPerUser(board[..j + 1]) == FirstPerUser(board[..n]) + [board[j]]
  {
    NoNewFirsts(board, n, j);
    HasUserWithin(board, n, j, board[j].user);
    assert board[..j] + [board[j]] == board[..j + 1];
    FirstsOfSnoc(board[..j], board[j]);
  }

  /** The first row of the tie whose user the prefix lacks. */
  ghost function FirstNewUser(board: seq<Row>, n: nat, e: nat): (j: nat)
    requires n <= e <= |board|
    requires exists j :: n <= j < e && !HasUser(board[..n], board[j].user)
    ensures n <= j < e && !HasUser(board[..n], board[j].user)
    ensures forall i :: n <= i < j ==> HasUser(board[..n], board[i].user)
  {
    if exists j :: n <= j < e - 1 && !HasUser(board[..n], board[j].user) then FirstNewUser(board, n, e - 1) else e - 1
  }

  lemma HasUserWithin(board: seq<Row>, n: nat, j: nat, user: int)
    requires n <= j <= |board| && !HasUser(board[..n], user)
    requires forall i :: n <= i < j ==> HasUser(board[..n], board[i].user)
    ensures !HasUser(board[..j], user)
  {
    forall i | 0 <= i < j ensures board[..j][i].user != user {
      if i < n { assert board[..n][i] == board[i]; }
    }
  }

  lemma LaterRowsDiffer(board: seq<Row>, j: nat, e: nat, r: Row)
    requires Descending(board) && j < e <= |board| && r in board[e..]
    requires e < |board| ==> board[e].total != board[j].total
    ensures r != board[j]
  {
    var k :| 0 <= k < |board[e..]| && board[e..][k] == r;
    assert board[e + k] == r;
  }

  /** The loop is right for every limit exactly when no tie hides a user from a prefix that repeats one. */
  lemma PagingIsExactIffTieSafe(board: seq<Row>)
    requires Descending(board)
    ensures (forall limit: int :: Paging(board, 0, limit, []).found == Top(board, limit)) <==> TieSafe(board)
  {
    assert board[..0] == [];
    if TieSafe(board) {
      forall limit: int ensures Paging(board, 0, limit, []).found == Top(board, limit) {
        if limit > 0 { SafePagingYieldsTop(board, 0, limit, limit); }
      }
    } else {
      var n :| 0 < n < |board| && Repeats(board, n) && !KnownUsers(board, n);
      UnsafeTieLosesAUser(board, n);
    }
  }

  ghost predicate DistinctTotals(board: seq<Row>) {
    forall i, j :: 0 <= i < j < |board| ==> board[i].total != board[j].total
  }

  lemma DistinctTotalsAreTieSafe(board: seq<Row>)
    requires DistinctTotals(board)
    ensures TieSafe(board)
  {
    forall n | 0 < n < |board| ensures TieEnd(board, n) == n {
      assert board[n - 1].total != board[n].total;
    }
  }

  lemma {:induction false} FirstsInOrder(board: seq<Row>)
    requires Descending(board)
    ensures Descending(FirstPerUser(board)) && OnePerUser(FirstPerUser(board))
    ensures forall r :: r in FirstPerUser(board) ==> r in board
  {
    if board != [] {
      var n := |board| - 1;
      var init, last := FirstPerUser(board[..n]), board[n];
      FirstsInOrder(board[..n]);
      SameUsers(board[..n], last.user);
      assert board == board[..n] + [last];
      FirstsOfSnoc(board[..n], last);
      hide FirstPerUser, HasUser;
      forall r | r in init ensures r in board && r.total >= last.total {
        InPrefix(board, n, r);
      }
      if !HasUser(init, last.user) { SnocInOrder(init, last); }
    }
  }

  lemma InPrefix(board: seq<Row>, n: nat, r: Row)
    requires Descending(board) && n < |board| && r in board[..n]
    ensures r in board && r.total >= board[n].total
  {
    var i :| 0 <= i < n && board[..n][i] == r;
    assert board[i] == r;
  }

  lemma SnocInOrder(init: seq<Row>, last: Row)
    requires Descending(init) && OnePerUser(init) && !HasUser(init, last.user)
    requires forall r :: r in init ==> r.total >= last.total
    ensures Descending(init + [last]) && OnePerUser(init + [last])
  {
    assert forall i :: 0 <= i < |init| ==> init[i] in init;
  }

  ghost predicate OnePerUser(rows: seq<Row>) {
    forall i, j :: 0 <= i < j < |rows| ==> rows[i].user != rows[j].user
  }

  lemma {:induction false} FirstsCover(board: seq<Row>, k: nat)
    requires Descending(board) && k < |board|
    ensures HasBetter(FirstPerUser(board), board[k])
  {
    var n := |board| - 1;
    var init, last := FirstPerUser(board[..n]), board[n];
    assert board == board[..n] + [last];
    FirstsOfSnoc(board[..n], last);
    SameUsers(board[..n], last.user);
    if k < n {
      FirstsCover(board[..n], k);
      hide FirstPerUser;
      var i :| 0 <= i < |init| && init[i].user == board[k].user && init[i].total >= board[k].total;
      assert FirstPerUser(board)[i] == init[i];
    } else if HasUser(board[..n], last.user) {
      hide FirstPerUser;
      var i :| 0 <= i < n && board[..n][i].user == last.user;
      FirstsCover(board[..n], i);
      assert board[i].total >= last.total;
    } else {
      assert FirstPerUser(board)[|init|] == last;
    }
  }

  ghost predicate HasBetter(rows: seq<Row>, r: Row) {
    exists i :: 0 <= i < |rows| && rows[i].user == r.user && rows[i].total >= r.total
  }

  /**
   * With pairwise distinct totals the loop yields the best rows of the top users: one row per user, descending,
   * `limit` of them or all, each the best of its user, and every other row is its user's second best or lower.
   */
  lemma LoopYieldsTopUsers(board: seq<Row>, limit: int)
    requires Descending(board) && DistinctTotals(board)
    ensures var r := Paging(board, 0, limit, []).found;
      && |r| == Min(if limit <= 0 then 0 else limit, |FirstPerUser(board)|)
      && Descending(r)
      && OnePerUser(r)
      && (forall x :: x in r ==> x in board)
      && (forall x :: x in board ==> HasBetter(r, x) || (forall i :: 0 <= i < |r| ==> r[i].total > x.total))
  {
    DistinctTotalsAreTieSafe(board);
    PagingIsExactIffTieSafe(board);
    FirstsInOrder(board);
    var f, r := FirstPerUser(board), Top(board, limit);
    assert r == Paging(board, 0, limit, []).found && r <= f;
    hide FirstPerUser, Paging, Top, TieSafe;
    forall x | x in board && !HasBetter(r, x) ensures forall i :: 0 <= i < |r| ==> r[i].total > x.total {
      var m :| 0 <= m < |board| && board[m] == x;
      FirstsCover(board, m);
      OutsideTop(board, f, r, x);
    }
  }

  lemma BetterBeyond(f: seq<Row>, r: seq<Row>, x: Row) returns (k: nat)
    requires r <= f && HasBetter(f, x) && !HasBetter(r, x)
    ensures |r| <= k < |f| && f[k].user == x.user && f[k].total >= x.total
  {
    k :| k < |f| && f[k].user == x.user && f[k].total >= x.total;
    assert f[k] in f && f == r + f[|r|..];
    assert f[k] !in r;
  }

  lemma OutsideTop(board: seq<Row>, f: seq<Row>, r: seq<Row>, x: Row)
    requires DistinctTotals(board) && Descending(f) && OnePerUser(f) && r <= f
    requires forall y :: y in f ==> y in board
    requires HasBetter(f, x) && !HasBetter(r, x)
    ensures forall i :: 0 <= i < |r| ==> r[i].total > x.total
  {
    var k := BetterBeyond(f, r, x);
    forall i | 0 <= i < |r| ensures r[i].total > x.total {
      assert r[i] == f[i] && f[i].user != f[k].user;
      DistinctRows(board, f[i], f[k]);
    }
  }

  lemma DistinctRows(board: seq<Row>, x: Row, y: Row)
    requires DistinctTotals(board) && x in board && y in board && x != y
    ensures x.total != y.total
  {
    var i, j :| 0 <= i < |board| && 0 <= j < |board| && board[i] == x && board[j] == y;
    if i < j { assert board[i].total != board[j].total; } else { assert board[j].total != board[i].total; }
  }

  /** The row that ended the reading, or the whole table. */
  ghost predicate ReadUpTo(board: seq<Row>, r: seq<Row>, limit: int, e: nat) {
    && e <= |board|
    && (limit <= 0 ==> e == 0)
    && (|r| < limit ==> e == |board|)
    && (0 < limit <= |r| ==> 0 < e && board[e - 1] == r[|r| - 1])
  }

  /** The last row of a page without repeats is new. */
  lemma FullPageEndsOnNewUser(board: seq<Row>, p: nat, q: nat)
    requires p < q <= |board| && |FirstPerUser(board[..q])| == |FirstPerUser(board[..p])| + (q - p)
    ensures var next := FirstPerUser(board[..q]); next[|next| - 1] == board[q - 1]
  {
    NextLimit(board, p, q - 1);
    assert board[..q] == board[..q - 1] + [board[q - 1]];
    FirstsOfSnoc(board[..q - 1], board[q - 1]);
  }

  lemma NoTies(board: seq<Row>, q: nat)
    requires DistinctTotals(board) && 0 < q <= |board|
    ensures TieEnd(board, q) == q
  {
    if q < |board| { assert board[q - 1].total != board[q].total; }
  }

  lemma {:induction false} RowsRead(board: seq<Row>, p: nat, limit: nat, wanted: nat) returns (e: nat)
    requires DistinctTotals(board) && p <= |board|
    requires var n := |FirstPerUser(board[..p])|; n + limit <= wanted && (p < |board| ==> n + limit == wanted)
    ensures p <= e <= |board|
    ensures var n, all := |FirstPerUser(board[..p])|, Paging(board, p, limit, FirstPerUser(board[..p]));
      && e - p == |all.found| - n + all.repeats
      && (limit == 0 ==> e == p)
      && (limit > 0 && |all.found| < wanted ==> e == |board|)
      && (limit > 0 && |all.found| >= wanted ==> e > 0 && board[e - 1] == all.found[|all.found| - 1])
    decreases |board| - p
  {
    hide FirstPerUser, TieEnd, DistinctTotals, Paging;
    e := p;
    if limit <= 0 || p == |board| {
      PagingDone(board, p, limit, FirstPerUser(board[..p]));
    } else {
      var q, found := Min(p + limit, |board|), FirstPerUser(board[..p]);
      PageExtendsPrefix(board, p, q);
      NextLimit(board, p, q);
      var next := FirstPerUser(board[..q]);
      var repeats := |found| + (q - p) - |next|;
      NoTies(board, q);
      PagingUnfolds(board, p, q, limit, found);
      if repeats == 0 {
        FullPageEndsOnNewUser(board, p, q);
        PagingDone(board, q, 0, next);
      }
      e := RowsRead(board, q, repeats, wanted);
    }
  }

  /** The third result: the rows returned plus the rows never read. It counts users only if those repeat nobody. */
  lemma CountIsFoundPlusUnread(board: seq<Row>, limit: int)
    requires Descending(board) && DistinctTotals(board)
    ensures var pages := Paging(board, 0, limit, []);
      exists e :: ReadUpTo(board, pages.found, limit, e) && |board| - pages.repeats == |pages.found| + (|board| - e)
  {
    assert board[..0] == [];
    if limit > 0 {
      var e := RowsRead(board, 0, limit, limit);
      assert ReadUpTo(board, Paging(board, 0, limit, []).found, limit, e);
    } else {
      assert ReadUpTo(board, [], limit, 0);
    }
  }

  /** Two mods of one player and a third row, all tied: the second player never appears among the top two. */
  lemma TieHidesAUser()
    ensures var board := [Row(1, 10, 1), Row(1, 10, 2), Row(2, 10, 3)];
      Descending(board) && FirstPerUser(board) == [board[0], board[2]] && Paging(board, 0, 2, []).found == [board[0]]
  {
    var a, b, c := Row(1, 10, 1), Row(1, 10, 2), Row(2, 10, 3);
    var board := [a, b, c];
    assert TieEnd(board, 2) == 3;
    hide FirstPerUser, Paging, TieEnd, HasUser;
    assert board[..2] == [a, b] && board == [a, b] + [c];
    FirstsOfPair(a, b);
    FirstsOfSnoc([a, b], c);
    OtherUserOfPair(a, b, 2);
    FirstPage(board, 2);
    PagingDone(board, 3, 1, [a]);
  }

  lemma FirstsOfPair(a: Row, b: Row)
    requires a.user == b.user
    ensures FirstPerUser([a, b]) == [a]
  {
    hide FirstPerUser, HasUser;
    FirstsOfNone();
    assert [a, b] == [a] + [b];
    FirstsOfSnoc([a], b);
    FirstsOfOne(a);
  }

  lemma FirstsOfOne(a: Row)
    ensures FirstPerUser([a]) == [a] && HasUser([a], a.user)
  {
    assert [a][0].user == a.user && [a][..0] == [];
  }

  lemma OtherUserOfPair(a: Row, b: Row, user: int)
    requires a.user != user && b.user != user
    ensures !HasUser([a, b], user)
  {}
}
