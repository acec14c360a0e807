/** Weighted performance points and hit accuracy, over the reals. */
module PpArithmetic {
  import opened ScoreModel
  import opened Ordering

  const BEST_PP_LIMIT := 1000

  function PpWeight(index: nat): (w: real)
    ensures 0.0 < w <= 1.0
  {
    if index == 0 then 1.0 else 0.95 * PpWeight(index - 1)
  }

  function WeightedPp(pp: real, index: nat): real { if pp > 0.0 then PpWeight(index) * pp else 0.0 }

  function WeightedAcc(acc: real, index: nat): real { if acc > 0.0 then PpWeight(index) * acc else 0.0 }

  function Clamp(n: real, low: real, high: real): real {
    if n < low then low else if n > high then high else n
  }

  /** What row `i` adds: its weighted pp, counted against the player on a negative map. */
  function PpTerm(row: PpRow, index: nat, negative: set<int>): real {
    if row.key.beatmap in negative then -WeightedPp(row.pp, index) else WeightedPp(row.pp, index)
  }

  /** Signed weighted pp of the rows in the order given. */
  function PpSum(rows: seq<PpRow>, negative: set<int>): real {
    if rows == [] then 0.0
    else
      var i := |rows| - 1;
      PpSum(rows[..i], negative) + PpTerm(rows[i], i, negative)
  }

  function AccSum(rows: seq<PpRow>): real {
    if rows == [] then 0.0
    else
      var i := |rows| - 1;
      AccSum(rows[..i]) + WeightedAcc(rows[i].acc, i)
  }

  function WeightSum(n: nat): (w: real)
    ensures n > 0 ==> w > 0.0
  {
    if n == 0 then 0.0 else WeightSum(n - 1) + PpWeight(n - 1)
  }

  /** What `calculate_user_pp` reports as accuracy before it clamps. */
  function NormalisedAcc(rows: seq<PpRow>): real {
    if rows == [] then 0.0 else AccSum(rows) * AccFactor(|rows|)
  }

  function AccFactor(n: nat): real
    requires n > 0
  {
    PowerBelowOne(n);
    100.0 / (20.0 * (1.0 - PpWeight(n)))
  }

  function HitAccuracy(rows: seq<PpRow>): real { Clamp(NormalisedAcc(rows), 0.0, 100.0) }

  lemma {:induction false} PowerBelowOne(n: nat)
    requires n > 0
    ensures PpWeight(n) < 1.0
  {
    if n > 1 { PowerBelowOne(n - 1); }
  }

  /** The loop of `calculate_user_pp` over the rows its query returned. */
  method CalculateUserPp(rows: seq<PpRow>, negative: set<int>) returns (pp: real, acc: real)
    ensures pp == PpSum(rows, negative)
    ensures acc == HitAccuracy(rows)
  {
    pp, acc := 0.0, 0.0;
    for i := 0 to |rows|
      invariant pp == PpSum(rows[..i], negative)
      invariant acc == AccSum(rows[..i])
    {
      assert rows[..i + 1][..i] == rows[..i];
      if rows[i].key.beatmap in negative {
        pp := pp - WeightedPp(rows[i].pp, i);
      } else {
        pp := pp + WeightedPp(rows[i].pp, i);
      }
      acc := acc + WeightedAcc(rows[i].acc, i);
    }
    assert rows[..|rows|] == rows;
    if |rows| > 0 {
      acc := acc * AccFactor(|rows|);
    }
    acc := Clamp(acc, 0.0, 100.0);
  }

  // ----- accuracy is a weighted mean -----

  /** The geometric series behind the normalisation. */
  lemma {:induction false} WeightsSumToSeries(n: nat)
    ensures WeightSum(n) == 20.0 * (1.0 - PpWeight(n))
  {
    if n > 0 { WeightsSumToSeries(n - 1); }
  }

  lemma ZeroWeights(top: real)
    ensures top * WeightSum(0) == 0.0
  {
    assert WeightSum(0) == 0.0;
  }

  lemma AddScaled(
      low: real, high: real, weights: real, sum: real, w: real, term: real, allWeights: real, all: real)
    requires low * weights <= sum <= high * weights && low * w <= term <= high * w
    requires allWeights == weights + w && all == sum + term
    ensures low * allWeights <= all <= high * allWeights
  {
    assert low * allWeights == low * weights + low * w;
    assert high * allWeights == high * weights + high * w;
  }

  lemma AccTermBounds(low: real, high: real, acc: real, i: nat)
    requires 0.0 <= low <= acc <= high
    ensures low * PpWeight(i) <= WeightedAcc(acc, i) <= high * PpWeight(i)
  {
    ScaledBetween(low, acc, high, PpWeight(i));
  }

  lemma ScaledBetween(low: real, x: real, high: real, w: real)
    requires low <= x <= high && w > 0.0
    ensures low * w <= w * x <= high * w
  {
  }

  lemma MeanBounds(sum: real, total: real, factor: real, mean: real, low: real, high: real)
    requires factor > 0.0 && factor * total == 100.0 && mean == sum * factor
    requires low * total <= sum <= high * total
    ensures 100.0 * low <= mean <= 100.0 * high
  {
    assert factor * (low * total) == low * (factor * total);
    assert factor * (high * total) == high * (factor * total);
    assert factor * (low * total) <= factor * sum <= factor * (high * total);
  }

  lemma MeanTimesWeights(sum: real, total: real, factor: real, mean: real)
    requires factor * total == 100.0 && mean == sum * factor
    ensures mean * total == 100.0 * sum
  {
    assert (sum * factor) * total == sum * (factor * total);
  }

  lemma FactorTimesWeights(n: nat)
    requires n > 0
    ensures AccFactor(n) > 0.0 && AccFactor(n) * WeightSum(n) == 100.0
  {
    WeightsSumToSeries(n);
    PowerBelowOne(n);
  }

  lemma {:induction false} AccSumBounds(rows: seq<PpRow>, low: real, high: real)
    requires 0.0 <= low <= high
    requires forall i :: 0 <= i < |rows| ==> low <= rows[i].acc <= high
    ensures low * WeightSum(|rows|) <= AccSum(rows) <= high * WeightSum(|rows|)
  {
    hide PpWeight, WeightedAcc;
    if rows == [] {
      ZeroWeights(low);
      ZeroWeights(high);
    } else {
      var i := |rows| - 1;
      AccSumBounds(rows[..i], low, high);
      AccTermBounds(low, high, rows[i].acc, i);
      AddScaled(low, high, WeightSum(i), AccSum(rows[..i]), PpWeight(i), WeightedAcc(rows[i].acc, i),
                WeightSum(|rows|), AccSum(rows));
    }
  }

  lemma NormalisedBounds(rows: seq<PpRow>, low: real, high: real)
    requires rows != [] && 0.0 <= low <= high
    requires forall i :: 0 <= i < |rows| ==> low <= rows[i].acc <= high
    ensures 100.0 * low <= NormalisedAcc(rows) <= 100.0 * high
  {
    hide AccSum, WeightSum, AccFactor;
    AccSumBounds(rows, low, high);
    FactorTimesWeights(|rows|);
    MeanBounds(AccSum(rows), WeightSum(|rows|), AccFactor(|rows|), NormalisedAcc(rows), low, high);
  }

  lemma NormalisedIsMean(rows: seq<PpRow>)
    requires rows != []
    ensures NormalisedAcc(rows) * WeightSum(|rows|) == 100.0 * AccSum(rows)
  {
    hide AccSum, WeightSum, AccFactor;
    FactorTimesWeights(|rows|);
    MeanTimesWeights(AccSum(rows), WeightSum(|rows|), AccFactor(|rows|), NormalisedAcc(rows));
  }

  /**
   * With accuracies between `low` and `high` inside [0, 1], the reported accuracy is 100 times their weighted
   * mean: it stays between 100 * low and 100 * high, and the clamp changes nothing.
   */
  lemma HitAccuracyIsWeightedMean(rows: seq<PpRow>, low: real, high: real)
    requires rows != [] && 0.0 <= low <= high <= 1.0
    requires forall i :: 0 <= i < |rows| ==> low <= rows[i].acc <= high
    ensures HitAccuracy(rows) == NormalisedAcc(rows)
    ensures HitAccuracy(rows) * WeightSum(|rows|) == 100.0 * AccSum(rows)
    ensures 100.0 * low <= HitAccuracy(rows) <= 100.0 * high
  {
    hide NormalisedAcc, AccSum, WeightSum;
    NormalisedBounds(rows, low, high);
    NormalisedIsMean(rows);
    ClampInside(NormalisedAcc(rows), low, high);
  }

  lemma ClampInside(x: real, low: real, high: real)
    requires 0.0 <= low <= high <= 1.0 && 100.0 * low <= x <= 100.0 * high
    ensures Clamp(x, 0.0, 100.0) == x
  {
    assert 0.0 <= 100.0 * low && 100.0 * high <= 100.0;
  }

  // ----- pp totals -----

  /** The positive pp at the weight of its place, of the rows that are on one of the maps, or of those that are not. */
  function WeightedOn(rows: seq<PpRow>, maps: set<int>, on: bool): (total: real)
    ensures total >= 0.0
  {
    if rows == [] then 0.0
    else
      var i := |rows| - 1;
      var row := rows[i];
      assert row.pp > 0.0 ==> PpWeight(i) * row.pp >= 0.0;
      WeightedOn(rows[..i], maps, on) +
      if (row.key.beatmap in maps) == on && row.pp > 0.0 then PpWeight(i) * row.pp else 0.0
  }

  /** Rows on negative maps keep their place and weight, and count against the player. */
  lemma {:induction false} NegativeMapsCountAgainst(rows: seq<PpRow>, negative: set<int>)
    ensures PpSum(rows, negative) == WeightedOn(rows, negative, false) - WeightedOn(rows, negative, true)
  {
    hide PpWeight;
    if rows != [] { NegativeMapsCountAgainst(rows[..|rows| - 1], negative); }
  }

  function Gain(pp: real): real { if pp > 0.0 then pp else 0.0 }

  ghost predicate NoneNegative(rows: seq<PpRow>, negative: set<int>) {
    forall i :: 0 <= i < |rows| ==> rows[i].key.beatmap !in negative
  }

  /** Horner form: everything after the first row counts 95 percent. */
  lemma {:induction false} PpSumCons(row: PpRow, rows: seq<PpRow>, negative: set<int>)
    requires row.key.beatmap !in negative && NoneNegative(rows, negative)
    ensures PpSum([row] + rows, negative) == Gain(row.pp) + 0.95 * PpSum(rows, negative)
  {
    var all := [row] + rows;
    if rows == [] {
      assert all[..0] == [];
    } else {
      var i := |rows| - 1;
      PpSumCons(row, rows[..i], negative);
      assert all[..|rows|] == [row] + rows[..i];
    }
  }

  /** One exchange: the better row first, whatever follows. */
  lemma ExchangeGains(first: PpRow, best: PpRow, others: seq<PpRow>, tail: seq<PpRow>, negative: set<int>)
    requires first.pp <= best.pp && first.key.beatmap !in negative && best.key.beatmap !in negative
    requires NoneNegative(others, negative) && NoneNegative(tail, negative)
    requires PpSum(tail, negative) <= PpSum([best] + others, negative)
    ensures PpSum([first] + tail, negative) <= PpSum([best] + ([first] + others), negative)
  {
    hide PpSum;
    PpSumCons(first, tail, negative);
    PpSumCons(best, others, negative);
    PpSumCons(first, others, negative);
    PpSumCons(best, [first] + others, negative);
  }

  lemma {:induction false} MoveToFront(rows: seq<PpRow>, j: nat, negative: set<int>)
    requires j < |rows| && NoneNegative(rows, negative)
    requires forall i :: 0 <= i < j ==> rows[i].pp <= rows[j].pp
    ensures PpSum(rows, negative) <= PpSum([rows[j]] + (rows[..j] + rows[j + 1..]), negative)
  {
    hide PpSum;
    if j == 0 {
      assert [rows[0]] + (rows[..0] + rows[1..]) == rows;
    } else {
      var tail := rows[1..];
      var others := tail[..j - 1] + tail[j..];
      MoveToFront(tail, j - 1, negative);
      ExchangeGains(rows[0], rows[j], others, tail, negative);
      assert rows == [rows[0]] + tail;
      assert rows[..j] + rows[j + 1..] == [rows[0]] + others;
    }
  }

  lemma ConsKeepsOrder(row: PpRow, better: seq<PpRow>, worse: seq<PpRow>, negative: set<int>)
    requires row.key.beatmap !in negative && NoneNegative(better, negative) && NoneNegative(worse, negative)
    requires PpSum(worse, negative) <= PpSum(better, negative)
    ensures PpSum([row] + worse, negative) <= PpSum([row] + better, negative)
  {
    hide PpSum;
    PpSumCons(row, better, negative);
    PpSumCons(row, worse, negative);
  }

  lemma SameNoneNegative(s: seq<PpRow>, t: seq<PpRow>, negative: set<int>)
    requires multiset(s) == multiset(t) && NoneNegative(s, negative)
    ensures NoneNegative(t, negative)
  {
    MultisetMembers(s, t);
    forall i | 0 <= i < |t| ensures t[i].key.beatmap !in negative {
      assert t[i] in s;
    }
  }

  /** Highest pp first is the ordering with the largest total. */
  lemma {:induction false} DescendingOrderIsBest(sorted: seq<PpRow>, other: seq<PpRow>, negative: set<int>)
    requires NoneNegative(sorted, negative)
    requires forall i, j :: 0 <= i < j < |sorted| ==> sorted[i].pp >= sorted[j].pp
    requires multiset(sorted) == multiset(other)
    ensures PpSum(other, negative) <= PpSum(sorted, negative)
  {
    hide PpSum;
    MultisetMembers(sorted, other);
    if sorted == [] {
      assert other == sorted;
    } else {
      var best, tail := sorted[0], sorted[1..];
      assert best in other;
      var j :| 0 <= j < |other| && other[j] == best;
      var rest := other[..j] + other[j + 1..];
      forall i | 0 <= i < j ensures other[i].pp <= other[j].pp {
        assert other[i] in sorted;
      }
      SameNoneNegative(sorted, other, negative);
      MoveToFront(other, j, negative);
      SameAfterRemoval(sorted, other, j);
      DescendingOrderIsBest(tail, rest, negative);
      SameNoneNegative(tail, rest, negative);
      ConsKeepsOrder(best, tail, rest, negative);
      assert sorted == [best] + tail;
    }
  }

  lemma HigherTerm(low: real, high: real, w: real)
    requires low <= high && w > 0.0
    ensures (if low > 0.0 then w * low else 0.0) <= (if high > 0.0 then w * high else 0.0)
  {
    if low > 0.0 { assert w * low <= w * high; }
  }

  lemma AddTop(top: real, weights: real, sum: real, w: real, term: real, allWeights: real, all: real)
    requires -(top * weights) <= sum <= top * weights
    requires -(top * w) <= term <= top * w
    requires allWeights == weights + w && all == sum + term
    ensures -(top * allWeights) <= all <= top * allWeights
  {
    assert top * allWeights == top * weights + top * w;
  }

  lemma TermBounds(top: real, row: PpRow, i: nat, negative: set<int>)
    requires top > 0.0 && row.pp <= top
    ensures -(top * PpWeight(i)) <= PpTerm(row, i, negative) <= top * PpWeight(i)
  {
    HigherTerm(row.pp, top, PpWeight(i));
    assert top * PpWeight(i) > 0.0;
  }

  lemma BelowTwenty(sum: real, top: real, w: real, weights: real)
    requires top > 0.0 && w > 0.0 && weights == 20.0 * (1.0 - w)
    requires -(top * weights) <= sum <= top * weights
    ensures -(20.0 * top) < sum < 20.0 * top
  {
    assert top * w > 0.0;
    assert top * weights == 20.0 * top - 20.0 * (top * w);
  }

  lemma {:induction false} TotalWithinWeights(rows: seq<PpRow>, negative: set<int>, top: real)
    requires top > 0.0 && forall i :: 0 <= i < |rows| ==> rows[i].pp <= top
    ensures -(top * WeightSum(|rows|)) <= PpSum(rows, negative) <= top * WeightSum(|rows|)
  {
    hide PpTerm, PpWeight;
    if rows == [] {
      ZeroWeights(top);
    } else {
      var i := |rows| - 1;
      TotalWithinWeights(rows[..i], negative, top);
      TermBounds(top, rows[i], i, negative);
      AddTop(top, WeightSum(i), PpSum(rows[..i], negative), PpWeight(i), PpTerm(rows[i], i, negative),
             WeightSum(|rows|), PpSum(rows, negative));
    }
  }

  /** The weighted total stays strictly below 20 times the best play, whatever maps are negative. */
  lemma TotalBelowTwentyTimesTop(rows: seq<PpRow>, negative: set<int>, top: real)
    requires top > 0.0 && forall i :: 0 <= i < |rows| ==> rows[i].pp <= top
    ensures -(20.0 * top) < PpSum(rows, negative) < 20.0 * top
  {
    hide *;
    TotalWithinWeights(rows, negative, top);
    WeightsSumToSeries(|rows|);
    BelowTwenty(PpSum(rows, negative), top, PpWeight(|rows|), WeightSum(|rows|));
  }

  // ----- the query of get_user_best_pp -----

  /** ORDER BY pp DESC, score_id DESC. */
  const PP_ORDER: (PpRow, PpRow) -> bool :=
    (x: PpRow, y: PpRow) => x.pp > y.pp || (x.pp == y.pp && x.scoreId >= y.scoreId)

  ghost predicate DistinctScores(rows: set<PpRow>) {
    forall x, y :: x in rows && y in rows && x != y ==> x.scoreId != y.scoreId
  }

  ghost function RowsOfUser(table: set<PpRow>, user: int, mode: GameMode): set<PpRow> {
    set r | r in table && r.key.user == user && r.key.mode == mode
  }

  function Limited(rows: seq<PpRow>): seq<PpRow> {
    if |rows| > BEST_PP_LIMIT then rows[..BEST_PP_LIMIT] else rows
  }

  /** The rows `calculate_user_pp` sees: the best 1000, highest pp first. */
  ghost function BestPpRows(table: set<PpRow>, user: int, mode: GameMode): seq<PpRow> {
    Limited(OrderedRows(RowsOfUser(table, user, mode), PP_ORDER))
  }

  /**
   * The query's rows: at most 1000, all of the user's if they have no more, by pp and then by score id, both
   * descending, and none that is left out stands before one of them.
   */
  lemma BestPpRowsAreTheTop(table: set<PpRow>, user: int, mode: GameMode)
    ensures var rows, all := BestPpRows(table, user, mode), RowsOfUser(table, user, mode);
      && |rows| == (if |all| < 1000 then |all| else 1000)
      && (forall i :: 0 <= i < |rows| ==> rows[i] in table && rows[i].key.user == user && rows[i].key.mode == mode)
      && (forall i, j :: 0 <= i < j < |rows| ==> ByPpThenId(rows[i], rows[j]))
      && (forall i, r :: 0 <= i < |rows| && r in all && r !in rows ==> ByPpThenId(rows[i], r))
  {
    var rows, all := BestPpRows(table, user, mode), RowsOfUser(table, user, mode);
    var ordered := OrderedRows(all, PP_ORDER);
    OrderedIsSorted(all);
    OrderedMembers(ordered, all);
    assert |multiset(ordered)| == |ordered| && |multiset(all)| == |all|;
    hide OrderedRows;
    forall i, j | 0 <= i < j < |ordered| ensures ByPpThenId(ordered[i], ordered[j]) {
      assert PP_ORDER(ordered[i], ordered[j]);
    }
    forall i | 0 <= i < |rows| ensures rows[i] == ordered[i] && rows[i] in all { assert ordered[i] in ordered; }
    forall i, r | 0 <= i < |rows| && r in all && r !in rows ensures ByPpThenId(rows[i], r) {
      var k :| 0 <= k < |ordered| && ordered[k] == r;
      assert k >= |rows|;
    }
  }

  ghost predicate ByPpThenId(x: PpRow, y: PpRow) { x.pp > y.pp || (x.pp == y.pp && x.scoreId >= y.scoreId) }

  method GetUserBestPp(table: set<PpRow>, user: int, mode: GameMode) returns (rows: seq<PpRow>)
    requires DistinctScores(table)
    ensures rows == BestPpRows(table, user, mode)
  {
    var all := SelectOrdered((set r | r in table && r.key.user == user && r.key.mode == mode), PP_ORDER);
    rows := Limited(all);
  }

  /** `s` is at least as good as `t` at every position. */
  ghost predicate Dominates(s: seq<PpRow>, t: seq<PpRow>) {
    |t| <= |s| && forall i :: 0 <= i < |t| ==> t[i].pp <= s[i].pp
  }

  lemma {:induction false} DominatingTotal(s: seq<PpRow>, t: seq<PpRow>, negative: set<int>)
    requires Dominates(s, t) && NoneNegative(s, negative) && NoneNegative(t, negative)
    ensures PpSum(t, negative) <= PpSum(s, negative)
  {
    if s != [] {
      var i := |s| - 1;
      if |t| <= i {
        DominatingTotal(s[..i], t, negative);
        assert PpTerm(s[i], i, negative) >= 0.0;
        hide PpTerm, PpWeight;
      } else {
        DominatingTotal(s[..i], t[..i], negative);
        HigherTerm(t[i].pp, s[i].pp, PpWeight(i));
        assert |s| == |t|;
        assert PpSum(s, negative) == PpSum(s[..i], negative) + PpTerm(s[i], i, negative);
        assert PpSum(t, negative) == PpSum(t[..i], negative) + PpTerm(t[i], i, negative);
        assert PpTerm(t[i], i, negative) <= PpTerm(s[i], i, negative);
        hide *;
      }
    }
  }

  lemma ConsDominates(a: PpRow, s: seq<PpRow>, b: PpRow, t: seq<PpRow>)
    requires b.pp <= a.pp && Dominates(s, t)
    ensures Dominates([a] + s, [b] + t)
  {
  }

  /** A higher row in front pushes every later row down to a place it is good enough for. */
  lemma ShiftDominates(high: PpRow, rows: seq<PpRow>)
    requires SortedBy(rows, PP_ORDER) && (rows != [] ==> rows[0].pp <= high.pp)
    ensures Dominates([high] + rows, rows)
  {
    forall i | 0 <= i < |rows| ensures rows[i].pp <= ([high] + rows)[i].pp {
      assert i > 0 ==> PP_ORDER(rows[i - 1], rows[i]);
    }
  }

  lemma {:induction false} InsertDominatesRest(high: PpRow, rows: seq<PpRow>)
    requires SortedBy(rows, PP_ORDER)
    ensures Dominates(Insert(high, rows, PP_ORDER), rows)
  {
    if rows == [] || PP_ORDER(high, rows[0]) {
      ShiftDominates(high, rows);
    } else {
      InsertDominatesRest(high, rows[1..]);
      ConsDominates(rows[0], Insert(high, rows[1..], PP_ORDER), rows[0], rows[1..]);
      assert rows == [rows[0]] + rows[1..];
    }
  }

  lemma InsertUnfolds(x: PpRow, first: PpRow, tail: seq<PpRow>)
    ensures Insert(x, [first] + tail, PP_ORDER) ==
            if PP_ORDER(x, first) then [x] + ([first] + tail) else [first] + Insert(x, tail, PP_ORDER)
  {
    assert ([first] + tail)[1..] == tail;
  }

  lemma InsertBeforeSorted(first: PpRow, tail: seq<PpRow>)
    requires SortedBy([first] + tail, PP_ORDER)
    ensures Insert(first, tail, PP_ORDER) == [first] + tail && SortedBy(tail, PP_ORDER)
  {
    var all := [first] + tail;
    assert forall i :: 0 <= i < |tail| ==> tail[i] == all[i + 1];
    assert tail != [] ==> PP_ORDER(all[0], all[1]);
  }

  lemma {:induction false} InsertDominates(high: PpRow, low: PpRow, rows: seq<PpRow>)
    requires low.pp <= high.pp && SortedBy(rows, PP_ORDER)
    ensures Dominates(Insert(high, rows, PP_ORDER), Insert(low, rows, PP_ORDER))
    decreases |rows|
  {
    if rows != [] {
      var first, tail := rows[0], rows[1..];
      assert rows == [first] + tail;
      InsertUnfolds(high, first, tail);
      InsertUnfolds(low, first, tail);
      InsertBeforeSorted(first, tail);
      hide Insert, SortedBy, Dominates;
      if PP_ORDER(high, first) && PP_ORDER(low, first) {
        SelfDominates(rows);
        ConsDominates(high, rows, low, rows);
      } else if PP_ORDER(high, first) {
        InsertDominates(first, low, tail);
        ConsDominates(high, rows, first, Insert(low, tail, PP_ORDER));
      } else if PP_ORDER(low, first) {
        InsertDominates(high, first, tail);
        ConsDominates(first, Insert(high, tail, PP_ORDER), low, rows);
      } else {
        InsertDominates(high, low, tail);
        ConsDominates(first, Insert(high, tail, PP_ORDER), first, Insert(low, tail, PP_ORDER));
      }
    }
  }

  lemma SelfDominates(rows: seq<PpRow>)
    ensures Dominates(rows, rows)
  {
  }

  lemma PpOrderIsTotal()
    ensures TotalPreorder(PP_ORDER)
  {
  }

  lemma OrderedIsSorted(rows: set<PpRow>)
    ensures SortedBy(OrderedRows(rows, PP_ORDER), PP_ORDER)
  {
    PpOrderIsTotal();
  }

  lemma OrderedIsStrict(rows: set<PpRow>)
    requires DistinctScores(rows)
    ensures StrictlySorted(OrderedRows(rows, PP_ORDER), PP_ORDER)
  {
    var r := OrderedRows(rows, PP_ORDER);
    OrderedMembers(r, rows);
    OrderedIsSorted(rows);
    forall i, j | 0 <= i < j < |r| ensures !PP_ORDER(r[j], r[i]) {
      assert r[i] in rows && r[j] in rows && PP_ORDER(r[i], r[j]);
    }
  }

  lemma OrderedInsert(rows: set<PpRow>, row: PpRow)
    requires row !in rows && DistinctScores(rows + {row})
    ensures OrderedRows(rows + {row}, PP_ORDER) == Insert(row, OrderedRows(rows, PP_ORDER), PP_ORDER)
  {
    var part, whole := OrderedRows(rows, PP_ORDER), OrderedRows(rows + {row}, PP_ORDER);
    assert multiset(rows + {row}) == multiset(rows) + multiset{row};
    OrderedIsSorted(rows);
    OrderedIsStrict(rows + {row});
    PpOrderIsTotal();
    hide *;
    InsertSorted(row, part, PP_ORDER);
    SortedIsUnique(whole, Insert(row, part, PP_ORDER), PP_ORDER);
  }

  /** pp reported by `calculate_user_pp` for the current table. */
  ghost function UserPp(table: set<PpRow>, user: int, mode: GameMode, negative: set<int>): real {
    PpSum(BestPpRows(table, user, mode), negative)
  }

  ghost function UserAccuracy(table: set<PpRow>, user: int, mode: GameMode): real {
    HitAccuracy(BestPpRows(table, user, mode))
  }

  lemma LimitedDominates(s: seq<PpRow>, t: seq<PpRow>, negative: set<int>)
    requires Dominates(s, t) && NoneNegative(s, negative) && NoneNegative(t, negative)
    ensures PpSum(Limited(t), negative) <= PpSum(Limited(s), negative)
  {
    DominatingTotal(Limited(s), Limited(t), negative);
  }

  lemma OrderedNoneNegative(rows: set<PpRow>, negative: set<int>)
    requires forall r :: r in rows ==> r.key.beatmap !in negative
    ensures NoneNegative(OrderedRows(rows, PP_ORDER), negative)
  {
    OrderedMembers(OrderedRows(rows, PP_ORDER), rows);
  }

  /**
   * A new best row, or one that replaces a lower row, never lowers the total, even when the 1000-row cut pushes
   * another row out. `replaced` is the row the new one takes the place of, if any.
   */
  lemma BetterPlayNeverLowersTotal(
      table: set<PpRow>, row: PpRow, replaced: set<PpRow>, user: int, mode: GameMode, negative: set<int>)
    requires row !in table && DistinctScores(table + {row}) && row.key.user == user && row.key.mode == mode
    requires replaced <= table && |replaced| <= 1
    requires forall r :: r in replaced ==> r.key == row.key && r.pp <= row.pp
    requires forall r :: r in RowsOfUser(table, user, mode) + {row} ==> r.key.beatmap !in negative
    ensures UserPp(table, user, mode, negative) <= UserPp(table - replaced + {row}, user, mode, negative)
  {
    var before, after := RowsOfUser(table, user, mode), RowsOfUser(table - replaced + {row}, user, mode);
    var kept := before - replaced;
    assert after == kept + {row};
    BetterRowDominates(kept, row, before, replaced);
    OrderedNoneNegative(before, negative);
    OrderedNoneNegative(after, negative);
    LimitedDominates(OrderedRows(after, PP_ORDER), OrderedRows(before, PP_ORDER), negative);
  }

  lemma BetterRowDominates(kept: set<PpRow>, row: PpRow, before: set<PpRow>, replaced: set<PpRow>)
    requires row !in before && DistinctScores(before + {row})
    requires replaced <= before && |replaced| <= 1 && kept == before - replaced
    requires forall r :: r in replaced ==> r.pp <= row.pp
    ensures Dominates(OrderedRows(kept + {row}, PP_ORDER), OrderedRows(before, PP_ORDER))
  {
    if replaced == {} {
      assert before == kept;
      AddedRowDominates(kept, row);
    } else {
      var lower :| lower in replaced;
      OnlyElement(replaced, lower);
      assert before == kept + {lower};
      RaisedRowDominates(kept, row, lower);
    }
  }

  lemma AddedRowDominates(kept: set<PpRow>, row: PpRow)
    requires row !in kept && DistinctScores(kept + {row})
    ensures Dominates(OrderedRows(kept + {row}, PP_ORDER), OrderedRows(kept, PP_ORDER))
  {
    OrderedInsert(kept, row);
    OrderedIsSorted(kept);
    InsertDominatesRest(row, OrderedRows(kept, PP_ORDER));
  }

  lemma RaisedRowDominates(kept: set<PpRow>, row: PpRow, lower: PpRow)
    requires row !in kept && DistinctScores(kept + {row})
    requires lower !in kept && DistinctScores(kept + {lower}) && lower.pp <= row.pp
    ensures Dominates(OrderedRows(kept + {row}, PP_ORDER), OrderedRows(kept + {lower}, PP_ORDER))
  {
    OrderedInsert(kept, row);
    OrderedInsert(kept, lower);
    OrderedIsSorted(kept);
    InsertDominates(row, lower, OrderedRows(kept, PP_ORDER));
  }

  lemma OnlyElement<T>(s: set<T>, x: T)
    requires x in s && |s| <= 1
    ensures s == {x}
  {
    assert s == {x} + (s - {x});
    assert |s| == 1 + |s - {x}|;
  }
}
