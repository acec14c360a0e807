/** The level curve: total score to level and back. */
module LevelCurve {
  import opened Wrappers
  import opened ScoreModel

  /** Score needed to pass from each whole level to the next, ten levels to a row. */
  const TO_NEXT_LEVEL: seq<seq<int>> := [
    [30000, 100000, 210000, 360000, 550000, 780000, 1050000, 1360000, 1710000, 2100000],
    [2530000, 3000000, 3510000, 4060000, 4650000, 5280000, 5950000, 6660000, 7410000, 8200000],
    [9030000, 9900000, 10810000, 11760000, 12750000, 13780000, 14850000, 15960000, 17110000, 18300000],
    [19530000, 20800000, 22110000, 23460000, 24850000, 26280000, 27750000, 29260000, 30810000, 32400000],
    [34030000, 35700000, 37410000, 39160000, 40950000, 42780000, 44650000, 46560000, 48510000, 50500000],
    [52530000, 54600000, 56710000, 58860000, 61050000, 63280000, 65550000, 67860000, 70210001, 72600001],
    [75030002, 77500003, 80010006, 82560010, 85150019, 87780034, 90450061, 93160110, 95910198, 98700357],
    [101530643, 104401157, 107312082, 110263748, 113256747, 116292144, 119371859, 122499346, 125680824, 128927482],
    [132259468, 135713043, 139353477, 143298259, 147758866, 153115959, 160054726, 169808506, 184597311, 208417160],
    [248460887, 317675597, 439366075, 655480935, 1041527682,
     1733419828, 2975801691, 5209033044, 9225761479, 99999999999],
    [99999999999, 99999999999, 99999999999, 99999999999, 99999999999,
     99999999999, 99999999999, 99999999999, 99999999999, 99999999999],
    [99999999999, 99999999999, 99999999999, 99999999999, 99999999999]
  ]

  const TABLE_LENGTH := 115

  function TableEntry(i: nat): (need: int)
    requires i < TABLE_LENGTH
    ensures need >= 30000
    ensures i >= 99 ==> need == CAP_STEP
  {
    TO_NEXT_LEVEL[i / 10][i % 10]
  }

  /** The requirement at a whole level; the last entry repeats for ever. */
  function Requirement(level: nat): (need: int)
    ensures need >= 30000
    ensures level >= 99 ==> need == CAP_STEP
  {
    TableEntry(Min(TABLE_LENGTH - 1, level))
  }

  /** Score that pays for the first `n` levels. */
  function Cost(n: nat): int { if n == 0 then 0 else Cost(n - 1) + Requirement(n - 1) }

  // ----- score to level -----

  /** The part of one level that `remaining` pays for. */
  function Share(remaining: real, need: real): (s: real)
    requires remaining > 0.0 && need > 0.0
    ensures 0.0 < s <= 1.0
    ensures remaining >= need ==> s == 1.0
    ensures remaining <= need ==> s * need == remaining
    ensures remaining < need ==> s < 1.0
  {
    var part := remaining / need;
    QuotientFacts(remaining, need, part);
    if part < 1.0 then part else 1.0
  }

  lemma QuotientFacts(x: real, d: real, q: real)
    requires d > 0.0 && q == x / d
    ensures q * d == x
    ensures x > 0.0 ==> q > 0.0
    ensures x < d <==> q < 1.0
    ensures x == d ==> q == 1.0
  {
    assert q * d == x;
    CancelFactor(q, 1.0, d);
    CancelFactor(1.0, q, d);
    CancelFactor(0.0, q, d);
  }

  /** Levels gained from `remaining` score when `level` levels are already paid. */
  function Gained(level: nat, remaining: real): (r: real)
    ensures r >= 0.0
    decreases if remaining <= 0.0 then 0 else remaining.Floor + 1
  {
    if remaining <= 0.0 then 0.0
    else
      var need := Requirement(level) as real;
      Share(remaining, need) + Gained(level + 1, remaining - need)
  }

  function ScoreToLevel(total: real): real { 1.0 + Gained(0, total) }

  /** `level` is a whole number at every table lookup, so Python's rounding never decides anything. */
  method CalculateScoreToLevel(total: real) returns (result: real)
    ensures result == ScoreToLevel(total)
  {
    hide Share, Requirement, RoundHalfEven;
    var remaining, level := total, 0.0;
    ghost var paid := 0;
    while remaining > 0.0
      invariant remaining > 0.0 ==> level == paid as real
      invariant level + Gained(paid, remaining) == Gained(0, total)
      decreases if remaining <= 0.0 then 0 else remaining.Floor + 1
    {
      assert RoundHalfEven(level) == paid;
      var need := Requirement(RoundHalfEven(level)) as real;
      level := level + Share(remaining, need);
      remaining := remaining - need;
      paid := paid + 1;
    }
    result := level + 1.0;
  }

  lemma {:induction false} CostMonotone(m: nat, n: nat)
    requires m <= n
    ensures Cost(m) + 30000 * (n - m) <= Cost(n)
  {
    hide Requirement;
    if m < n { CostMonotone(m, n - 1); }
  }

  /** Paying levels off the front moves the count up by exactly their number. */
  lemma {:induction false} GainedSkips(k: nat, n: nat, total: real)
    requires k <= n && Cost(n) as real <= total
    ensures Gained(k, total - Cost(k) as real) == (n - k) as real + Gained(n, total - Cost(n) as real)
    decreases n - k
  {
    hide Requirement, Share;
    if k < n {
      CostMonotone(k + 1, n);
      assert Cost(k + 1) == Cost(k) + Requirement(k);
      GainedSkips(k + 1, n, total);
      assert total - Cost(k) as real - Requirement(k) as real == total - Cost(k + 1) as real;
    }
  }

  /** `part` of a level costing `need` is worth `paid`. */
  ghost predicate Proportional(part: real, need: real, paid: real) { part * need == paid }

  lemma ProportionalOrder(p: real, q: real, need: real, x: real, y: real)
    requires need > 0.0 && Proportional(p, need, x) && Proportional(q, need, y)
    ensures x <= y ==> p <= q
    ensures x < y ==> p < q
  {
    CancelFactor(p, q, need);
  }

  /** With at most one level's worth left, one share is gained. */
  lemma GainedOnce(n: nat, remaining: real)
    requires 0.0 <= remaining <= Requirement(n) as real
    ensures Proportional(Gained(n, remaining), Requirement(n) as real, remaining)
    ensures 0.0 <= Gained(n, remaining) <= 1.0
    ensures Gained(n, remaining) == 1.0 <==> remaining == Requirement(n) as real
  {
    hide Requirement, Share;
    var need := Requirement(n) as real;
    assert Gained(n + 1, remaining - need) == 0.0;
  }

  /** On the segment above n paid levels the curve is the straight line between its two end points. */
  lemma LevelOnSegment(n: nat, total: real)
    requires Cost(n) as real <= total <= Cost(n + 1) as real
    ensures Proportional(ScoreToLevel(total) - (n + 1) as real, Requirement(n) as real, total - Cost(n) as real)
    ensures (n + 1) as real <= ScoreToLevel(total) <= (n + 2) as real
    ensures ScoreToLevel(total) == (n + 2) as real <==> total == Cost(n + 1) as real
  {
    LevelAboveCost(n, total);
    assert Cost(n + 1) == Cost(n) + Requirement(n);
    hide *;
    GainedOnce(n, total - Cost(n) as real);
  }

  lemma LevelAboveCost(n: nat, total: real)
    requires Cost(n) as real <= total <= Cost(n + 1) as real
    ensures ScoreToLevel(total) == (n + 1) as real + Gained(n, total - Cost(n) as real)
  {
    hide Requirement;
    GainedSkips(0, n, total);
  }

  /** How many levels a total pays for. */
  lemma PaidLevels(total: real) returns (n: nat)
    requires total >= 0.0
    ensures Cost(n) as real <= total < Cost(n + 1) as real
  {
    hide Requirement;
    n := 0;
    while Cost(n + 1) <= total.Floor
      invariant Cost(n) <= total.Floor
      decreases total.Floor - Cost(n)
    {
      CostMonotone(n, n + 1);
      n := n + 1;
    }
  }

  lemma SegmentsApart(m: nat, n: nat)
    ensures m < n ==> Cost(m + 1) <= Cost(n)
    ensures n < m ==> Cost(n + 1) <= Cost(m)
  {
    hide *;
    if m < n { CostMonotone(m + 1, n); }
    if n < m { CostMonotone(n + 1, m); }
  }

  /** The whole part of the level counts the fully paid levels, no more and no fewer. */
  lemma WholePartCountsPaidLevels(total: real, n: nat)
    requires total >= 0.0
    ensures ScoreToLevel(total).Floor == n + 1 <==> Cost(n) as real <= total < Cost(n + 1) as real
  {
    var m := PaidLevels(total);
    hide *;
    LevelOnSegment(m, total);
    WholePart(ScoreToLevel(total), m + 1);
    SegmentsApart(m, n);
    SameSegment(total, m, n);
  }

  lemma WholePart(level: real, k: int)
    requires k as real <= level < (k + 1) as real
    ensures level.Floor == k
  {
  }

  lemma SameSegment(total: real, m: nat, n: nat)
    requires Cost(m) as real <= total < Cost(m + 1) as real
    requires (m < n ==> Cost(m + 1) <= Cost(n)) && (n < m ==> Cost(n + 1) <= Cost(m))
    ensures Cost(n) as real <= total < Cost(n + 1) as real <==> n == m
  {
    hide Cost;
  }

  /** More score never lowers the level, and from 0 up it always raises it. */
  lemma LevelIsMonotone(a: real, b: real)
    requires a <= b
    ensures ScoreToLevel(a) <= ScoreToLevel(b)
    ensures b > a >= 0.0 ==> ScoreToLevel(a) < ScoreToLevel(b)
  {
    if a >= 0.0 {
      var m := PaidLevels(a);
      var n := PaidLevels(b);
      hide *;
      SegmentsApart(m, n);
      if m == n { SameSegmentOrder(a, b, m); } else { LevelOrder(a, b, m, n); }
    }
  }

  lemma SameSegmentOrder(a: real, b: real, m: nat)
    requires Cost(m) as real <= a <= b <= Cost(m + 1) as real
    ensures ScoreToLevel(a) <= ScoreToLevel(b)
    ensures a < b ==> ScoreToLevel(a) < ScoreToLevel(b)
  {
    hide *;
    LevelOnSegment(m, a);
    LevelOnSegment(m, b);
    ProportionalOrder(ScoreToLevel(a) - (m + 1) as real, ScoreToLevel(b) - (m + 1) as real,
                      Requirement(m) as real, a - Cost(m) as real, b - Cost(m) as real);
  }

  lemma LevelOrder(a: real, b: real, m: nat, n: nat)
    requires Cost(m) as real <= a <= b < Cost(n + 1) as real && Cost(n) as real <= b && a < Cost(m + 1) as real
    requires m != n
    ensures ScoreToLevel(a) < ScoreToLevel(b)
  {
    hide *;
    SegmentsApart(m, n);
    LevelOnSegment(m, a);
    LevelOnSegment(n, b);
  }

  lemma CancelFactor(x: real, y: real, d: real)
    requires d > 0.0
    ensures x * d <= y * d ==> x <= y
    ensures x * d < y * d ==> x < y
  {
  }

  // ----- level to score -----

  function Power(base: real, n: int): real
    requires base > 0.0
    decreases if n < 0 then -n else n
  {
    if n == 0 then 1.0 else if n > 0 then base * Power(base, n - 1) else Power(base, n + 1) / base
  }

  const CAP_TOTAL := 26931190827
  const CAP_STEP := 99999999999

  function LevelToScore(n: int): real {
    if n <= 100 then
      var x := n as real;
      5000.0 / 3.0 * (4.0 * x * x * x - 3.0 * x * x - x) + 1.25 * Power(1.8, n - 60)
    else (CAP_TOTAL + CAP_STEP * (n - 100)) as real
  }

  lemma TenMore(n: nat)
    ensures Cost(n + 10) == Cost(n) +
      Requirement(n) + Requirement(n + 1) + Requirement(n + 2) + Requirement(n + 3) + Requirement(n + 4) +
      Requirement(n + 5) + Requirement(n + 6) + Requirement(n + 7) + Requirement(n + 8) + Requirement(n + 9)
  {
    hide Requirement;
    assert Cost(n + 2) == Cost(n) + Requirement(n) + Requirement(n + 1);
    assert Cost(n + 4) == Cost(n + 2) + Requirement(n + 2) + Requirement(n + 3);
    assert Cost(n + 6) == Cost(n + 4) + Requirement(n + 4) + Requirement(n + 5);
    assert Cost(n + 8) == Cost(n + 6) + Requirement(n + 6) + Requirement(n + 7);
  }

  lemma RowEntry(r: nat, i: nat)
    requires r < 10 && i < 10
    ensures |TO_NEXT_LEVEL[r]| == 10
    ensures Requirement(10 * r + i) == TO_NEXT_LEVEL[r][i]
  {
    assert (10 * r + i) / 10 == r && (10 * r + i) % 10 == i;
  }

  lemma RowCost(r: nat)
    requires r < 10
    ensures |TO_NEXT_LEVEL[r]| == 10
    ensures var row := TO_NEXT_LEVEL[r];
      Cost(10 * r + 10) == Cost(10 * r) +
        row[0] + row[1] + row[2] + row[3] + row[4] + row[5] + row[6] + row[7] + row[8] + row[9]
  {
    hide Requirement, Cost;
    TenMore(10 * r);
    RowEntry(r, 0); RowEntry(r, 1); RowEntry(r, 2); RowEntry(r, 3); RowEntry(r, 4);
    RowEntry(r, 5); RowEntry(r, 6); RowEntry(r, 7); RowEntry(r, 8); RowEntry(r, 9);
  }

  lemma TableSumTo50()
    ensures Cost(50) == 871250000
  {
    RowCost(0); RowCost(1); RowCost(2); RowCost(3); RowCost(4);
    hide Requirement;
  }

  /** The constant of the linear part is the exact sum of the first 99 table entries. */
  lemma CapTotalIsTheTableSum()
    ensures Cost(99) == CAP_TOTAL
  {
    TableSumTo50();
    RowCost(5); RowCost(6); RowCost(7); RowCost(8); RowCost(9);
    assert Cost(100) == Cost(99) + CAP_STEP;
    hide Requirement, Cost;
  }

  lemma {:induction false} CostPastCap(m: nat)
    ensures Cost(99 + m) == CAP_TOTAL + CAP_STEP * m
  {
    hide Requirement;
    if m == 0 {
      CapTotalIsTheTableSum();
    } else {
      CostPastCap(m - 1);
      assert Cost(99 + m) == Cost(98 + m) + Requirement(98 + m);
    }
  }

  /** Above level 100 the two directions are exact inverses. */
  lemma LevelRoundTrip(n: nat)
    requires n > 100
    ensures ScoreToLevel(LevelToScore(n)) == n as real
  {
    CostPastCap(n - 100);
    CostMonotone(n - 2, n - 1);
    assert LevelToScore(n) == Cost(n - 1) as real;
    hide *;
    LevelOnSegment(n - 2, LevelToScore(n));
  }
}
