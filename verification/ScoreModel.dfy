/** The records and settings the score engine works on. */
module ScoreModel {
  datatype Rank = X | XH | S | SH | A | B | C | D | F

  datatype GameMode =
    | Osu | Taiko | Fruits | Mania
    | OsuRx | OsuAp | TaikoRx | FruitsRx
    | Sentakki | Tau | Rush | Hishigata | Soyokaze
  {
    function RulesetId(): int {
      match this
      case Osu => 0 case OsuRx => 0 case OsuAp => 0
      case Taiko => 1 case TaikoRx => 1
      case Fruits => 2 case FruitsRx => 2
      case Mania => 3
      case Sentakki => 10 case Tau => 11 case Rush => 12 case Hishigata => 13 case Soyokaze => 14
    }
  }

  datatype ScoringMode = Standardised | Classic

  datatype Settings = Settings(scoringMode: ScoringMode, allBeatmapLeaderboard: bool, allBeatmapPp: bool) {
    /** The start-up validator refuses any other combination. */
    predicate Valid() { allBeatmapPp ==> allBeatmapLeaderboard }
  }

  datatype Policy = Policy(statusRanked: bool, leaderboardEnabled: bool, ppEnabled: bool)

  datatype Month = Month(year: int, month: int)

  /** Hit counts; an absent tick count is 0. */
  datatype Hits = Hits(
    n300: nat, n100: nat, n50: nat, nmiss: nat, ngeki: nat, nkatu: nat,
    largeTickHit: nat, largeTickMiss: nat, smallTickHit: nat, sliderTailHit: nat)

  /**
   * A row of the scores table, without its pp column (which processing rewrites). `mods` is the acronym set
   * that `mod_to_save` stores; `basicTotal` and `scorableTotal` sum the maximum statistics by kind.
   */
  datatype Score = Score(
    id: int, user: int, beatmap: int, mode: GameMode,
    endedAt: int, playMonth: Month, elapsed: real, speedRate: real,
    totalScore: int, rank: Rank, mods: set<string>, accuracy: real, maxCombo: int, passed: bool,
    hits: Hits, basicTotal: nat, scorableTotal: nat,
    ranked: bool, leaderboardEligible: bool, rankedScoreEligible: bool)

  datatype Key = Key(user: int, beatmap: int, mode: GameMode)

  function KeyOf(s: Score): Key { Key(s.user, s.beatmap, s.mode) }

  /** One leaderboard row: the best total of a user on a beatmap in a mode with one mod set. */
  datatype TotalRow = TotalRow(key: Key, scoreId: int, totalScore: int, rank: Rank, mods: set<string>)

  function TotalRowFor(s: Score): TotalRow { TotalRow(KeyOf(s), s.id, s.totalScore, s.rank, s.mods) }

  /** One pp row: the best pp of a user on a beatmap in a mode. */
  datatype PpRow = PpRow(key: Key, scoreId: int, pp: real, acc: real)

  function PpRowFor(s: Score, pp: real): PpRow { PpRow(KeyOf(s), s.id, pp, s.accuracy) }

  /** Python's `round`: to nearest, ties to the even neighbour. */
  function RoundHalfEven(x: real): (n: int)
    ensures -0.5 <= x - n as real <= 0.5
    ensures x == x.Floor as real ==> n == x.Floor
    ensures x - n as real == 0.5 || x - n as real == -0.5 ==> n % 2 == 0
  {
    var low := x.Floor;
    var fraction := x - low as real;
    if fraction < 0.5 then low
    else if fraction > 0.5 then low + 1
    else if low % 2 == 0 then low else low + 1
  }

  const MAX_SCORE := 1000000.0

  function Linear(perMillion: real, total: real): real { perMillion * total / MAX_SCORE }

  function Quadratic(objects: real, total: real): real {
    var scaled := total / MAX_SCORE * objects;
    scaled * scaled * 21.62 + total / 10.0
  }

  /** The maximum in classic scoring, by a fit over all beatmaps. */
  function ClassicMaximum(rulesetId: int, objects: real): (m: real)
    requires objects >= 0.0
    ensures m >= 0.0
  {
    if rulesetId == 0 then
      assert objects * objects >= 0.0;
      objects * objects * 32.57 + 100000.0
    else objects * 1109.0 + 100000.0
  }

  function StandardisedToClassic(rulesetId: int, total: int, objects: nat): int {
    var n, t := objects as real, total as real;
    if rulesetId == 0 || rulesetId == 1 then RoundHalfEven(Linear(ClassicMaximum(rulesetId, n), t))
    else if rulesetId == 2 then RoundHalfEven(Quadratic(n, t))
    else total
  }

  function DisplayScore(mode: ScoringMode, s: Score): int {
    if mode == Standardised then s.totalScore
    else StandardisedToClassic(s.mode.RulesetId(), s.totalScore, s.basicTotal)
  }

  lemma RoundingIsMonotone(x: real, y: real)
    requires x <= y
    ensures RoundHalfEven(x) <= RoundHalfEven(y)
  {
  }

  lemma RoundingKeepsOrder(x: real, y: real)
    requires 0.0 <= x <= y
    ensures 0 <= RoundHalfEven(x) <= RoundHalfEven(y)
  {
    RoundingIsMonotone(0.0, x);
    RoundingIsMonotone(x, y);
  }

  /** For one object count the classic score never falls as the standardised total rises. */
  lemma ClassicIsMonotone(rulesetId: int, total: int, more: int, objects: nat)
    requires 0 <= total <= more
    ensures 0 <= StandardisedToClassic(rulesetId, total, objects) <= StandardisedToClassic(rulesetId, more, objects)
  {
    hide RoundHalfEven, Linear, Quadratic, ClassicMaximum;
    var n, t, u := objects as real, total as real, more as real;
    if rulesetId == 0 || rulesetId == 1 {
      var maximum := ClassicMaximum(rulesetId, n);
      LinearKeepsOrder(maximum, t, u);
      RoundingKeepsOrder(Linear(maximum, t), Linear(maximum, u));
    } else if rulesetId == 2 {
      QuadraticKeepsOrder(n, t, u);
      RoundingKeepsOrder(Quadratic(n, t), Quadratic(n, u));
    }
  }

  lemma ProductKeepsOrder(a: real, b: real, x: real, y: real)
    requires 0.0 <= a <= b && 0.0 <= x <= y
    ensures 0.0 <= a * x <= b * y
  {
    assert a * x <= a * y <= b * y;
  }

  lemma LinearKeepsOrder(perMillion: real, t: real, u: real)
    requires perMillion >= 0.0 && 0.0 <= t <= u
    ensures 0.0 <= Linear(perMillion, t) <= Linear(perMillion, u)
  {
    ProductKeepsOrder(perMillion, perMillion, t, u);
  }

  lemma QuadraticKeepsOrder(n: real, t: real, u: real)
    requires n >= 0.0 && 0.0 <= t <= u
    ensures 0.0 <= Quadratic(n, t) <= Quadratic(n, u)
  {
    var x, y := t / MAX_SCORE * n, u / MAX_SCORE * n;
    ProductKeepsOrder(t / MAX_SCORE, u / MAX_SCORE, n, n);
    ProductKeepsOrder(x, y, x, y);
  }

  /** `n` is the integer nearest to the fraction, the even one of two. */
  predicate Nearest(n: int, numerator: int, denominator: int) {
    Halves(n, numerator - n * denominator, denominator)
  }

  /** What is left over is at most half of the denominator, and half only if `n` is even. */
  predicate Halves(n: int, left: int, denominator: int) {
    && -denominator <= 2 * left <= denominator
    && (2 * left == denominator || 2 * left == -denominator ==> n % 2 == 0)
  }

  lemma RoundsToNearest(x: real, numerator: int, denominator: int)
    requires denominator > 0 && x * denominator as real == numerator as real
    ensures Nearest(RoundHalfEven(x), numerator, denominator)
  {
    var n := RoundHalfEven(x);
    RoundHalfEvenIsClose(x, n);
    hide RoundHalfEven, Halves;
    var off, scale, left := x - n as real, denominator as real, numerator - n * denominator;
    var product := off * scale;
    LeftOver(x, n, numerator, denominator);
    ScaledHalf(off, scale, product);
    HalvesOnReals(off, n, left, denominator, scale, product);
  }

  lemma RoundHalfEvenIsClose(x: real, n: int)
    requires n == RoundHalfEven(x)
    ensures -0.5 <= x - n as real <= 0.5
    ensures x - n as real == 0.5 || x - n as real == -0.5 ==> n % 2 == 0
  {
  }

  lemma LeftOver(x: real, n: int, numerator: int, denominator: int)
    requires x * denominator as real == numerator as real
    ensures (x - n as real) * denominator as real == (numerator - n * denominator) as real
  {
    assert (n * denominator) as real == n as real * denominator as real;
  }

  lemma HalvesOnReals(off: real, n: int, left: int, denominator: int, scale: real, product: real)
    requires scale == denominator as real && left as real == product
    requires -scale <= product + product <= scale
    requires off == 0.5 || off == -0.5 ==> n % 2 == 0
    requires product + product == scale ==> off == 0.5
    requires product + product == -scale ==> off == -0.5
    ensures Halves(n, left, denominator)
  {
    assert (left + left) as real == product + product;
  }

  lemma ScaledHalf(off: real, scale: real, product: real)
    requires -0.5 <= off <= 0.5 && scale > 0.0 && product == off * scale
    ensures -scale <= product + product <= scale
    ensures product + product == scale ==> off == 0.5
    ensures product + product == -scale ==> off == -0.5
  {
    assert (off - 0.5) * scale <= 0.0 && (off + 0.5) * scale >= 0.0;
    assert off != 0.5 ==> (off - 0.5) * scale < 0.0;
    assert off != -0.5 ==> (off + 0.5) * scale > 0.0;
  }

  /**
   * The display score on the score's fields: the total itself in standardised mode, and in classic mode the nearest
   * integer to the fit of osu!, taiko and catch, with relax and autopilot or not, and the total in all other modes.
   */
  lemma DisplayOnFields(s: Score)
    ensures DisplayScore(Standardised, s) == s.totalScore
    ensures var total, objects, shown := s.totalScore, s.basicTotal, DisplayScore(Classic, s);
      if s.mode in {Osu, OsuRx, OsuAp} then
        Nearest(shown, total * (3257 * (objects * objects) + 10000000), 100000000)
      else if s.mode in {Taiko, TaikoRx} then Nearest(shown, total * (1109 * objects + 100000), 1000000)
      else if s.mode in {Fruits, FruitsRx} then
        Nearest(shown, 2162 * ((total * objects) * (total * objects)) + 10000000000000 * total, 100000000000000)
      else shown == total
  {
    hide RoundHalfEven, Nearest, Linear, Quadratic, ClassicMaximum;
    var total, objects := s.totalScore, s.basicTotal;
    var n, t, id := objects as real, total as real, s.mode.RulesetId();
    if id == 0 {
      OsuFit(objects, total);
      RoundsToNearest(Linear(ClassicMaximum(0, n), t), total * (3257 * (objects * objects) + 10000000), 100000000);
    } else if id == 1 {
      TaikoFit(objects, total);
      RoundsToNearest(Linear(ClassicMaximum(1, n), t), total * (1109 * objects + 100000), 1000000);
    } else if id == 2 {
      CatchFit(objects, total);
      RoundsToNearest(Quadratic(n, t),
        2162 * ((total * objects) * (total * objects)) + 10000000000000 * total, 100000000000000);
    }
  }

  lemma OsuFit(objects: nat, total: int)
    ensures Linear(ClassicMaximum(0, objects as real), total as real) * 100000000.0 ==
      (total * (3257 * (objects * objects) + 10000000)) as real
  {
    var n, t := objects as real, total as real;
    assert Linear(ClassicMaximum(0, n), t) * 100000000.0 == t * (3257.0 * (n * n) + 10000000.0);
    ProductIsReal(objects, objects);
    ProductIsReal(total, 3257 * (objects * objects) + 10000000);
  }

  lemma TaikoFit(objects: nat, total: int)
    ensures Linear(ClassicMaximum(1, objects as real), total as real) * 1000000.0 ==
      (total * (1109 * objects + 100000)) as real
  {
    var n, t := objects as real, total as real;
    assert Linear(ClassicMaximum(1, n), t) * 1000000.0 == t * (1109.0 * n + 100000.0);
    ProductIsReal(total, 1109 * objects + 100000);
  }

  lemma CatchFit(objects: nat, total: int)
    ensures Quadratic(objects as real, total as real) * 100000000000000.0 ==
      (2162 * ((total * objects) * (total * objects)) + 10000000000000 * total) as real
  {
    var n, t := objects as real, total as real;
    assert t / MAX_SCORE * n * 1000000.0 == t * n;
    assert Quadratic(n, t) * 100000000000000.0 == 2162.0 * ((t * n) * (t * n)) + 10000000000000.0 * t;
    ProductIsReal(total, objects);
    ProductIsReal(total * objects, total * objects);
  }

  lemma ProductIsReal(a: int, b: int)
    ensures (a * b) as real == a as real * b as real
  {
  }
}
