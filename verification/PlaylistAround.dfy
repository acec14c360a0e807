/** The scores around one score of a playlist item, and that score's position. */
module PlaylistAround {
  import opened Wrappers
  import opened Ordering

  datatype BestScore = BestScore(userId: int, scoreId: int, totalScore: int)

  datatype Partition = Partition(
    higher: seq<BestScore>, lower: seq<BestScore>, moreHigher: bool, moreLower: bool)

  datatype ValueError = LimitMustBePositive

  /** The key (-total_score, score_id), compared with `<`. */
  predicate Before(x: BestScore, y: BestScore) {
    x.totalScore > y.totalScore || (x.totalScore == y.totalScore && x.scoreId < y.scoreId)
  }

  const BY_KEY: (BestScore, BestScore) -> bool := (x: BestScore, y: BestScore) => !Before(y, x)

  function Find(scores: seq<BestScore>, scoreId: int): (r: Option<BestScore>)
    ensures r.Some? ==> r.value in scores && r.value.scoreId == scoreId
    ensures r.None? ==> forall s :: s in scores ==> s.scoreId != scoreId
  {
    if scores == [] then None
    else if scores[0].scoreId == scoreId then Some(scores[0])
    else Find(scores[1..], scoreId)
  }

  function Filter(scores: seq<BestScore>, keep: BestScore -> bool): (r: seq<BestScore>)
    ensures forall s :: s in r <==> s in scores && keep(s)
    ensures |r| <= |scores|
  {
    if scores == [] then []
    else
      var rest := Filter(scores[1..], keep);
      if keep(scores[0]) then [scores[0]] + rest else rest
  }

  function OtherUsers(scores: seq<BestScore>, userId: int): seq<BestScore> {
    Filter(scores, (s: BestScore) => s.userId != userId)
  }

  function Above(scores: seq<BestScore>, pivot: BestScore): seq<BestScore> {
    Filter(scores, (s: BestScore) => Before(s, pivot))
  }

  function Below(scores: seq<BestScore>, pivot: BestScore): seq<BestScore> {
    Filter(scores, (s: BestScore) => Before(pivot, s))
  }

  function Reverse(s: seq<BestScore>): (r: seq<BestScore>)
    ensures |r| == |s| && forall k :: 0 <= k < |s| ==> r[k] == s[|s| - 1 - k]
  {
    seq(|s|, k requires 0 <= k < |s| => s[|s| - 1 - k])
  }

  function PartitionScoresAround(scores: seq<BestScore>, pivotScoreId: int, limit: int):
      (r: Result<Partition, ValueError>)
    ensures r.Failure? <==> limit <= 0
    ensures limit > 0 && (forall s :: s in scores ==> s.scoreId != pivotScoreId) ==>
      r == Success(Partition([], [], false, false))
  {
    if limit < 1 then Failure(LimitMustBePositive)
    else match Find(scores, pivotScoreId)
      case None => Success(Partition([], [], false, false))
      case Some(pivot) =>
        var ordered := SortBy(OtherUsers(scores, pivot.userId), BY_KEY);
        var higherAll := Above(ordered, pivot);
        var lowerAll := Below(ordered, pivot);
        var higher := Reverse(higherAll[|higherAll| - Min(limit, |higherAll|)..]);
        var lower := lowerAll[..Min(limit, |lowerAll|)];
        Success(Partition(higher, lower, |higherAll| > limit, |lowerAll| > limit))
  }

  /** The board: total descending, score id ascending. */
  function Board(scores: seq<BestScore>): seq<BestScore> { SortBy(scores, BY_KEY) }

  function IndexOfId(scores: seq<BestScore>, scoreId: int): (i: nat)
    ensures i <= |scores|
    ensures i < |scores| ==> scores[i].scoreId == scoreId
    ensures forall j :: 0 <= j < i ==> scores[j].scoreId != scoreId
  {
    if scores == [] then 0
    else if scores[0].scoreId == scoreId then 0
    else 1 + IndexOfId(scores[1..], scoreId)
  }

  /** The row number on the board, from one; zero for a score that is not on it. */
  function Position(scores: seq<BestScore>, scoreId: int): nat {
    var i := IndexOfId(Board(scores), scoreId);
    if i < |scores| then i + 1 else 0
  }

  /** The primary key of the table. */
  const SCORE_ID: BestScore -> int := (s: BestScore) => s.scoreId

  ghost predicate OneRowPerUser(scores: seq<BestScore>) {
    forall i, j :: 0 <= i < j < |scores| ==> scores[i].userId != scores[j].userId
  }

  /** The table without the pivot user's other rows. */
  function Rivals(scores: seq<BestScore>, pivot: BestScore): seq<BestScore> {
    Filter(scores, (s: BestScore) => s.userId != pivot.userId || s.scoreId == pivot.scoreId)
  }

  function OwnOthers(scores: seq<BestScore>, pivot: BestScore): seq<BestScore> {
    Filter(scores, (s: BestScore) => s.userId == pivot.userId && s.scoreId != pivot.scoreId)
  }

  function CountBefore(scores: seq<BestScore>, pivot: BestScore): nat {
    if scores == [] then 0
    else (if Before(scores[0], pivot) then 1 else 0) + CountBefore(scores[1..], pivot)
  }

  // ----- the order -----

  lemma KeyIsTotal()
    ensures TotalPreorder(BY_KEY)
  {}

  lemma {:induction false} FilterKeepsIds(scores: seq<BestScore>, keep: BestScore -> bool)
    requires DistinctBy(scores, SCORE_ID)
    ensures DistinctBy(Filter(scores, keep), SCORE_ID)
  {
    if scores != [] {
      FilterKeepsIds(scores[1..], keep);
      forall s | s in Filter(scores[1..], keep) ensures s.scoreId != scores[0].scoreId {
        assert s in scores[1..];
      }
    }
  }

  lemma {:induction false} InsertKeepsIds(x: BestScore, s: seq<BestScore>)
    requires DistinctBy(s, SCORE_ID) && forall y :: y in s ==> y.scoreId != x.scoreId
    ensures DistinctBy(Insert(x, s, BY_KEY), SCORE_ID)
  {
    if s != [] && !BY_KEY(x, s[0]) {
      InsertKeepsIds(x, s[1..]);
      InsertMembers(x, s[1..], BY_KEY);
      forall y | y in Insert(x, s[1..], BY_KEY) ensures y.scoreId != s[0].scoreId {
        assert y == x || y in s[1..];
      }
    }
  }

  lemma {:induction false} BoardKeepsIds(scores: seq<BestScore>)
    requires DistinctBy(scores, SCORE_ID)
    ensures DistinctBy(Board(scores), SCORE_ID)
  {
    if scores != [] {
      BoardKeepsIds(scores[1..]);
      MultisetMembers(Board(scores[1..]), scores[1..]);
      InsertKeepsIds(scores[0], Board(scores[1..]));
    }
  }

  /** Different ids never tie, so the board is strictly ordered. */
  lemma BoardIsStrict(scores: seq<BestScore>)
    requires DistinctBy(scores, SCORE_ID)
    ensures StrictlySorted(Board(scores), BY_KEY) && SortedBy(Board(scores), BY_KEY)
    ensures multiset(Board(scores)) == multiset(scores) && |Board(scores)| == |scores|
  {
    KeyIsTotal();
    SortByIsSorted(scores, BY_KEY);
    BoardKeepsIds(scores);
    MultisetMembers(Board(scores), scores);
  }

  // ----- cutting the board at the pivot -----

  lemma {:induction false} OrderSplitsAtPivot(ordered: seq<BestScore>, pivot: BestScore)
    requires SortedBy(ordered, BY_KEY) && forall s :: s in ordered ==> s.scoreId != pivot.scoreId
    ensures ordered == Above(ordered, pivot) + Below(ordered, pivot)
  {
    if ordered != [] {
      OrderSplitsAtPivot(ordered[1..], pivot);
      assert ordered == [ordered[0]] + ordered[1..];
      if !Before(ordered[0], pivot) {
        forall s | s in ordered[1..] ensures !Before(s, pivot) {
          assert BY_KEY(ordered[0], s);
        }
        assert Above(ordered[1..], pivot) == [];
      }
    }
  }

  lemma {:induction false} RivalsArePivotAndOthers(scores: seq<BestScore>, pivot: BestScore)
    requires DistinctBy(scores, SCORE_ID) && forall s :: s in scores && s.scoreId == pivot.scoreId ==> s == pivot
    ensures multiset(Rivals(scores, pivot)) ==
      multiset(OtherUsers(scores, pivot.userId)) + if pivot in scores then multiset{pivot} else multiset{}
  {
    if scores != [] {
      RivalsArePivotAndOthers(scores[1..], pivot);
      assert scores == [scores[0]] + scores[1..];
      assert scores[0] !in scores[1..];
    }
  }

  lemma TheIdIsThePivot(scores: seq<BestScore>, pivot: BestScore)
    requires DistinctBy(scores, SCORE_ID) && pivot in scores
    ensures Find(scores, pivot.scoreId) == Some(pivot)
    ensures forall s :: s in scores && s.scoreId == pivot.scoreId ==> s == pivot
  {
    var i :| 0 <= i < |scores| && scores[i] == pivot;
    forall s | s in scores && s.scoreId == pivot.scoreId ensures s == pivot {
      var j :| 0 <= j < |scores| && scores[j] == s;
      assert scores[i].scoreId == scores[j].scoreId;
    }
  }

  /** The board of the pivot and the other users, cut at the pivot. */
  lemma RivalBoard(scores: seq<BestScore>, pivot: BestScore)
    requires DistinctBy(scores, SCORE_ID) && pivot in scores
    ensures var ordered := SortBy(OtherUsers(scores, pivot.userId), BY_KEY);
      Board(Rivals(scores, pivot)) == Above(ordered, pivot) + [pivot] + Below(ordered, pivot)
  {
    hide Above, Below, SortBy, Filter, Find;
    var others, rivals := OtherUsers(scores, pivot.userId), Rivals(scores, pivot);
    var ordered := SortBy(others, BY_KEY);
    KeyIsTotal();
    SortByIsSorted(others, BY_KEY);
    MultisetMembers(ordered, others);
    TheIdIsThePivot(scores, pivot);
    assert forall s :: s in others ==> s.userId != pivot.userId;
    OrderSplitsAtPivot(ordered, pivot);
    RivalsArePivotAndOthers(scores, pivot);
    FilterKeepsIds(scores, (s: BestScore) => s.userId != pivot.userId || s.scoreId == pivot.scoreId);
    BoardIsStrict(rivals);
    var whole := Above(ordered, pivot) + [pivot] + Below(ordered, pivot);
    SortedWhole(ordered, pivot);
    SortedIsUnique(Board(rivals), whole, BY_KEY);
  }

  lemma SortedWhole(ordered: seq<BestScore>, pivot: BestScore)
    requires SortedBy(ordered, BY_KEY) && ordered == Above(ordered, pivot) + Below(ordered, pivot)
    ensures SortedBy(Above(ordered, pivot) + [pivot] + Below(ordered, pivot), BY_KEY)
  {
    var hi, lo := Above(ordered, pivot), Below(ordered, pivot);
    forall i, j | 0 <= i < j < |hi| + 1 + |lo| ensures BY_KEY((hi + [pivot] + lo)[i], (hi + [pivot] + lo)[j]) {
      if i < |hi| { assert hi[i] in hi; assert ordered[i] == hi[i]; }
      if j < |hi| { assert ordered[j] == hi[j]; }
      if i > |hi| { assert ordered[i - 1] == lo[i - |hi| - 1]; }
      if j > |hi| { assert lo[j - |hi| - 1] in lo; assert ordered[j - 1] == lo[j - |hi| - 1]; }
    }
  }

  // ----- positions -----

  lemma {:induction false} CountInsert(x: BestScore, s: seq<BestScore>, pivot: BestScore)
    ensures CountBefore(Insert(x, s, BY_KEY), pivot) == CountBefore(s, pivot) + if Before(x, pivot) then 1 else 0
  {
    if s != [] && !BY_KEY(x, s[0]) { CountInsert(x, s[1..], pivot); }
  }

  lemma {:induction false} CountOnBoard(scores: seq<BestScore>, pivot: BestScore)
    ensures CountBefore(Board(scores), pivot) == CountBefore(scores, pivot)
  {
    if scores != [] {
      CountOnBoard(scores[1..], pivot);
      CountInsert(scores[0], Board(scores[1..]), pivot);
    }
  }

  lemma {:induction false} CountIsIndex(board: seq<BestScore>, k: nat, pivot: BestScore)
    requires k <= |board|
    requires forall i :: 0 <= i < k ==> Before(board[i], pivot)
    requires forall i :: k <= i < |board| ==> !Before(board[i], pivot)
    ensures CountBefore(board, pivot) == k
  {
    if board != [] { CountIsIndex(board[1..], if k == 0 then 0 else k - 1, pivot); }
  }

  lemma {:induction false} CountSplits(scores: seq<BestScore>, pivot: BestScore)
    ensures CountBefore(scores, pivot) ==
      CountBefore(Rivals(scores, pivot), pivot) + CountBefore(OwnOthers(scores, pivot), pivot)
  {
    if scores != [] {
      CountSplits(scores[1..], pivot);
      CountCons(scores[0], Rivals(scores[1..], pivot), pivot);
      CountCons(scores[0], OwnOthers(scores[1..], pivot), pivot);
    }
  }

  lemma CountCons(x: BestScore, rest: seq<BestScore>, pivot: BestScore)
    ensures CountBefore([x] + rest, pivot) == (if Before(x, pivot) then 1 else 0) + CountBefore(rest, pivot)
  {
    assert ([x] + rest)[1..] == rest;
  }

  /** The position is one more than the number of rows in front, and the score stands there. */
  lemma PositionIsRank(scores: seq<BestScore>, pivot: BestScore)
    requires DistinctBy(scores, SCORE_ID) && pivot in scores
    ensures Position(scores, pivot.scoreId) == 1 + CountBefore(scores, pivot)
    ensures Position(scores, pivot.scoreId) <= |scores| == |Board(scores)|
    ensures Board(scores)[Position(scores, pivot.scoreId) - 1] == pivot
  {
    var board := Board(scores);
    BoardIsStrict(scores);
    BoardKeepsIds(scores);
    MultisetMembers(board, scores);
    CountOnBoard(scores, pivot);
    hide Board, SortBy, CountBefore;
    RankOnBoard(board, pivot);
  }

  lemma RankOnBoard(board: seq<BestScore>, pivot: BestScore)
    requires DistinctBy(board, SCORE_ID) && StrictlySorted(board, BY_KEY) && pivot in board
    ensures var i := IndexOfId(board, pivot.scoreId);
      i < |board| && board[i] == pivot && CountBefore(board, pivot) == i
  {
    hide IndexOfId, CountBefore;
    var k :| 0 <= k < |board| && board[k] == pivot;
    var i := IndexOfId(board, pivot.scoreId);
    assert i <= k;
    assert board[i].scoreId == board[k].scoreId;
    CountIsIndex(board, k, pivot);
  }

  lemma UnknownScoreHasNoPosition(scores: seq<BestScore>, scoreId: int)
    requires forall s :: s in scores ==> s.scoreId != scoreId
    ensures Position(scores, scoreId) == 0
  {
    MultisetMembers(Board(scores), scores);
    assert forall s :: s in Board(scores) ==> s.scoreId != scoreId;
  }

  // ----- the two pages -----

  ghost predicate SliceAround(board: seq<BestScore>, position: nat, limit: int, pivot: BestScore, part: Partition)
    requires 1 <= position <= |board|
  {
    && |part.higher| == Min(limit, position - 1)
    && |part.lower| == Min(limit, |board| - position)
    && Reverse(part.higher) + [pivot] + part.lower == board[position - 1 - |part.higher|..position + |part.lower|]
    && (part.moreHigher <==> position - 1 > limit)
    && (part.moreLower <==> |board| - position > limit)
  }

  lemma PartitionOf(scores: seq<BestScore>, pivot: BestScore, limit: int, hi: seq<BestScore>, lo: seq<BestScore>)
    requires limit >= 1 && Find(scores, pivot.scoreId) == Some(pivot)
    requires var ordered := SortBy(OtherUsers(scores, pivot.userId), BY_KEY);
      hi == Above(ordered, pivot) && lo == Below(ordered, pivot)
    ensures PartitionScoresAround(scores, pivot.scoreId, limit) == Success(Partition(
      Reverse(hi[|hi| - Min(limit, |hi|)..]), lo[..Min(limit, |lo|)], |hi| > limit, |lo| > limit))
  {
    hide Above, Below, SortBy, OtherUsers, Find, Reverse;
  }

  /** The pages are a slice of the board on which the pivot's user has no other row. */
  lemma AroundPivotIsASlice(scores: seq<BestScore>, pivot: BestScore, limit: int)
    requires DistinctBy(scores, SCORE_ID) && pivot in scores && limit >= 1
    ensures PartitionScoresAround(scores, pivot.scoreId, limit).Success?
    ensures var rivals := Rivals(scores, pivot);
      var position := Position(rivals, pivot.scoreId);
      && 1 <= position <= |Board(rivals)|
      && SliceAround(Board(rivals), position, limit, pivot, PartitionScoresAround(scores, pivot.scoreId, limit).value)
  {
    hide PartitionScoresAround, SortBy, Above, Below, Find, Board, DistinctBy, Position, OtherUsers;
    var rivals := Rivals(scores, pivot);
    TheIdIsThePivot(scores, pivot);
    RivalIds(scores, pivot);
    hide Rivals;
    PositionIsRank(rivals, pivot);
    RivalBoard(scores, pivot);
    var ordered := SortBy(OtherUsers(scores, pivot.userId), BY_KEY);
    var hi, lo := Above(ordered, pivot), Below(ordered, pivot);
    assert Board(rivals)[|hi|] == pivot;
    OnePlace(rivals, pivot, |hi|);
    PartitionOf(scores, pivot, limit, hi, lo);
    PagesAreASlice(hi, pivot, lo, limit);
  }

  lemma RivalIds(scores: seq<BestScore>, pivot: BestScore)
    requires DistinctBy(scores, SCORE_ID)
    ensures DistinctBy(Rivals(scores, pivot), SCORE_ID)
    ensures pivot in scores ==> pivot in Rivals(scores, pivot)
  {
    FilterKeepsIds(scores, (s: BestScore) => s.userId != pivot.userId || s.scoreId == pivot.scoreId);
  }

  lemma OnePlace(scores: seq<BestScore>, pivot: BestScore, k: nat)
    requires DistinctBy(scores, SCORE_ID) && pivot in scores && k < |Board(scores)| && Board(scores)[k] == pivot
    ensures Position(scores, pivot.scoreId) == k + 1
  {
    hide Board, SortBy, Position;
    PositionIsRank(scores, pivot);
    BoardKeepsIds(scores);
  }

  lemma PagesAreASlice(hi: seq<BestScore>, pivot: BestScore, lo: seq<BestScore>, limit: int)
    requires limit >= 1
    ensures var higher, lower := Reverse(hi[|hi| - Min(limit, |hi|)..]), lo[..Min(limit, |lo|)];
      Reverse(higher) + [pivot] + lower == (hi + [pivot] + lo)[|hi| - |higher|..|hi| + 1 + |lower|]
  {
    var near := hi[|hi| - Min(limit, |hi|)..];
    assert Reverse(Reverse(near)) == near;
  }

  /** The position on the whole board counts the user's own better rows, which the pages leave out. */
  lemma PositionCountsOwnRows(scores: seq<BestScore>, pivot: BestScore)
    requires DistinctBy(scores, SCORE_ID) && pivot in scores
    ensures Position(scores, pivot.scoreId) ==
      Position(Rivals(scores, pivot), pivot.scoreId) + CountBefore(OwnOthers(scores, pivot), pivot)
  {
    PositionIsRank(scores, pivot);
    FilterKeepsIds(scores, (s: BestScore) => s.userId != pivot.userId || s.scoreId == pivot.scoreId);
    PositionIsRank(Rivals(scores, pivot), pivot);
    CountSplits(scores, pivot);
  }

  lemma HigherPageLength(scores: seq<BestScore>, pivot: BestScore, limit: int)
    requires DistinctBy(scores, SCORE_ID) && pivot in scores && limit >= 1
    ensures HigherPageFits(scores, pivot, limit) <==>
      Min(limit, Position(scores, pivot.scoreId) - 1) == Min(limit, Position(Rivals(scores, pivot), pivot.scoreId) - 1)
  {
    hide Position, Rivals, PartitionScoresAround, Board, DistinctBy;
    AroundPivotIsASlice(scores, pivot, limit);
  }

  /** The higher page fits the reported position for every limit exactly when no better row is the user's own. */
  lemma HigherPageFitsPositionIff(scores: seq<BestScore>, pivot: BestScore)
    requires DistinctBy(scores, SCORE_ID) && pivot in scores
    ensures (forall limit: int :: limit >= 1 ==> HigherPageFits(scores, pivot, limit)) <==>
      CountBefore(OwnOthers(scores, pivot), pivot) == 0
  {
    hide Position, Rivals, PartitionScoresAround, Board, DistinctBy, CountBefore, OwnOthers, HigherPageFits;
    PositionCountsOwnRows(scores, pivot);
    PositionIsRank(scores, pivot);
    AroundPivotIsASlice(scores, pivot, 1);
    var position := Position(scores, pivot.scoreId);
    forall limit: int | limit >= 1
      ensures HigherPageFits(scores, pivot, limit) <==>
        Min(limit, position - 1) == Min(limit, Position(Rivals(scores, pivot), pivot.scoreId) - 1)
    {
      HigherPageLength(scores, pivot, limit);
    }
    if position > 1 {
      var deepest := position - 1;
      assert HigherPageFits(scores, pivot, deepest) ==> Position(Rivals(scores, pivot), pivot.scoreId) == position;
    }
  }

  ghost predicate HigherPageFits(scores: seq<BestScore>, pivot: BestScore, limit: int) {
    var r := PartitionScoresAround(scores, pivot.scoreId, limit);
    r.Success? && |r.value.higher| == Min(limit, Position(scores, pivot.scoreId) - 1)
  }

  /** With one row per user the pages are a slice of the whole board around the reported position. */
  lemma OneRowPerUserSlice(scores: seq<BestScore>, pivot: BestScore, limit: int)
    requires DistinctBy(scores, SCORE_ID) && OneRowPerUser(scores) && pivot in scores && limit >= 1
    ensures var position := Position(scores, pivot.scoreId);
      && PartitionScoresAround(scores, pivot.scoreId, limit).Success?
      && 1 <= position <= |Board(scores)|
      && SliceAround(Board(scores), position, limit, pivot, PartitionScoresAround(scores, pivot.scoreId, limit).value)
  {
    AroundPivotIsASlice(scores, pivot, limit);
    var p :| 0 <= p < |scores| && scores[p] == pivot;
    NobodyLeftOut(scores, pivot);
  }

  lemma {:induction false} NobodyLeftOut(scores: seq<BestScore>, pivot: BestScore)
    requires OneRowPerUser(scores) && pivot in scores
    ensures Rivals(scores, pivot) == scores
  {
    var p :| 0 <= p < |scores| && scores[p] == pivot;
    forall s | s in scores ensures s.userId != pivot.userId || s.scoreId == pivot.scoreId {
      var i :| 0 <= i < |scores| && scores[i] == s;
      assert scores[p].userId == pivot.userId;
    }
    AllKept(scores, (s: BestScore) => s.userId != pivot.userId || s.scoreId == pivot.scoreId);
  }

  lemma {:induction false} AllKept(scores: seq<BestScore>, keep: BestScore -> bool)
    requires forall s :: s in scores ==> keep(s)
    ensures Filter(scores, keep) == scores
  {
    if scores != [] { AllKept(scores[1..], keep); }
  }


  // ----- the position, told by the columns -----

  ghost function BetterRows(scores: seq<BestScore>, pivot: BestScore): set<int> {
    set i | 0 <= i < |scores| &&
      (scores[i].totalScore > pivot.totalScore ||
       (scores[i].totalScore == pivot.totalScore && scores[i].scoreId < pivot.scoreId))
  }

  lemma {:induction false} CountBeforeLast(scores: seq<BestScore>, pivot: BestScore)
    requires scores != []
    ensures var n := |scores| - 1;
      CountBefore(scores, pivot) == CountBefore(scores[..n], pivot) + if Before(scores[n], pivot) then 1 else 0
  {
    var n := |scores| - 1;
    if n > 0 {
      CountBeforeLast(scores[1..], pivot);
      assert scores[1..][..n - 1] == scores[..n][1..];
    }
  }

  lemma {:induction false} CountIsBetterRows(scores: seq<BestScore>, pivot: BestScore)
    ensures CountBefore(scores, pivot) == |BetterRows(scores, pivot)|
  {
    if scores == [] {
      assert BetterRows(scores, pivot) == {};
    } else {
      var n := |scores| - 1;
      CountIsBetterRows(scores[..n], pivot);
      CountBeforeLast(scores, pivot);
      BetterRowsGrow(scores, pivot);
      hide BetterRows, CountBefore;
    }
  }

  lemma BetterRowsGrow(scores: seq<BestScore>, pivot: BestScore)
    requires scores != []
    ensures var n := |scores| - 1;
      && n !in BetterRows(scores[..n], pivot)
      && BetterRows(scores, pivot) == BetterRows(scores[..n], pivot) + if Before(scores[n], pivot) then {n} else {}
  {
  }

  /** The position is one more than the number of rows with a higher total, or the same total and a lower score id. */
  lemma PositionCountsBetterRows(scores: seq<BestScore>, pivot: BestScore)
    requires DistinctBy(scores, SCORE_ID) && pivot in scores
    ensures Position(scores, pivot.scoreId) == 1 + |BetterRows(scores, pivot)|
  {
    hide Position, BetterRows, CountBefore;
    PositionIsRank(scores, pivot);
    CountIsBetterRows(scores, pivot);
  }
}
