/** The per-mod leaderboard rows against the full history of processed scores. */
module LeaderboardIndex {
  import opened Wrappers
  import opened ScoreModel
  import opened ScoreEngine

  /** One processed score. Policies and the database's tie choices may differ from step to step. */
  datatype Step = Step(env: Env, score: Score)

  predicate Counts(step: Step, key: Key) {
    KeyOf(step.score) == key && step.score.passed && HasLeaderboard(step.env, step.score)
  }

  /** The passed, leaderboard-eligible scores of one user, beatmap and mode, in processing order. */
  function Plays(steps: seq<Step>, key: Key): seq<Score> {
    if steps == [] then []
    else
      var n := |steps| - 1;
      Plays(steps[..n], key) + (if Counts(steps[n], key) then [steps[n].score] else [])
  }

  function TotalsRun(scores: map<int, Score>, start: set<TotalRow>, steps: seq<Step>): set<TotalRow> {
    if steps == [] then start
    else
      var n := |steps| - 1;
      TotalsAfter(steps[n].env, scores, TotalsRun(scores, start, steps[..n]), steps[n].score)
  }

  // ----- what the rows say about the history -----

  /** `row` copies the id, total, rank and mods of one of the plays. */
  ghost predicate Copies(row: TotalRow, plays: seq<Score>) {
    exists i :: 0 <= i < |plays| && row == TotalRowFor(plays[i])
  }

  ghost predicate Reached(total: int, rows: set<TotalRow>) {
    exists r :: r in rows && total <= r.totalScore
  }

  ghost predicate OneRowPerModSet(rows: set<TotalRow>) {
    forall r, q :: r in rows && q in rows && r.mods == q.mods ==> r == q
  }

  /**
   * There are rows iff there are plays, every row copies a play, no play beats every row (so the highest row
   * total is the highest play total), and each mod set has at most one row.
   */
  ghost predicate Indexes(rows: set<TotalRow>, plays: seq<Score>) {
    && (rows == {} <==> plays == [])
    && (forall r :: r in rows ==> Copies(r, plays))
    && (forall i :: 0 <= i < |plays| ==> Reached(plays[i].totalScore, rows))
    && OneRowPerModSet(rows)
  }

  const SCORE_ID: Score -> int := (s: Score) => s.id

  ghost predicate DistinctRowIds(rows: set<TotalRow>) {
    forall r, q :: r in rows && q in rows && r.scoreId == q.scoreId ==> r == q
  }

  lemma CopiesHaveDistinctIds(rows: set<TotalRow>, plays: seq<Score>)
    requires (forall r :: r in rows ==> Copies(r, plays)) && DistinctBy(plays, SCORE_ID)
    ensures DistinctRowIds(rows)
  {
    hide Reached, OneRowPerModSet;
    forall r, q | r in rows && q in rows && r.scoreId == q.scoreId ensures r == q {
      assert Copies(r, plays) && Copies(q, plays);
      var i :| 0 <= i < |plays| && r == TotalRowFor(plays[i]);
      var j :| 0 <= j < |plays| && q == TotalRowFor(plays[j]);
      assert i == j;
    }
  }

  // ----- one step -----

  ghost predicate Maximal(row: TotalRow, rows: set<TotalRow>) {
    row in rows && forall r :: r in rows ==> r.totalScore <= row.totalScore
  }

  lemma CopiesExtend(row: TotalRow, plays: seq<Score>, s: Score)
    ensures Copies(row, plays) ==> Copies(row, plays + [s])
    ensures Copies(TotalRowFor(s), plays + [s])
  {
    assert (plays + [s])[|plays|] == s;
    if Copies(row, plays) {
      var i :| 0 <= i < |plays| && row == TotalRowFor(plays[i]);
      assert (plays + [s])[i] == plays[i];
    }
  }

  lemma ReachedExtend(rows: set<TotalRow>, plays: seq<Score>, s: Score, after: set<TotalRow>, i: nat)
    requires forall r :: r in rows ==> Reached(r.totalScore, after)
    requires i < |plays| ==> Reached(plays[i].totalScore, rows)
    requires Reached(s.totalScore, after) && i <= |plays|
    ensures Reached((plays + [s])[i].totalScore, after)
  {
    if i < |plays| {
      var r :| r in rows && plays[i].totalScore <= r.totalScore;
      assert Reached(r.totalScore, after);
      var q :| q in after && r.totalScore <= q.totalScore;
      assert plays[i].totalScore <= q.totalScore;
    }
  }

  /** Whatever replaces the rows keeps the index, if it keeps old rows or the new one and loses no total. */
  lemma IndexesExtend(rows: set<TotalRow>, plays: seq<Score>, s: Score, after: set<TotalRow>)
    requires Indexes(rows, plays)
    requires forall r :: r in after ==> r in rows || r == TotalRowFor(s)
    requires forall r :: r in rows ==> Reached(r.totalScore, after)
    requires Reached(s.totalScore, after) && OneRowPerModSet(after)
    ensures Indexes(after, plays + [s])
  {
    hide Reached, Copies, OneRowPerModSet;
    ReachedNonEmpty(s.totalScore, after);
    forall r | r in after ensures Copies(r, plays + [s]) {
      CopiesExtend(r, plays, s);
    }
    forall i | 0 <= i < |plays + [s]| ensures Reached((plays + [s])[i].totalScore, after) {
      ReachedExtend(rows, plays, s, after, i);
    }
  }

  lemma ReachedNonEmpty(total: int, rows: set<TotalRow>)
    requires Reached(total, rows)
    ensures rows != {}
  {
  }

  lemma ReachedByMember(row: TotalRow, total: int, rows: set<TotalRow>)
    requires row in rows && total <= row.totalScore
    ensures Reached(total, rows)
  {
  }

  /** Cases 1 and 2: the new row joins the others. */
  lemma AddedRow(rows: set<TotalRow>, plays: seq<Score>, s: Score)
    requires Indexes(rows, plays) && WithMods(rows, s.mods) == {}
    ensures Indexes(rows + {TotalRowFor(s)}, plays + [s])
  {
    hide Reached, Copies, OneRowPerModSet;
    var after := rows + {TotalRowFor(s)};
    AddedModSet(rows, s);
    forall r | r in rows ensures Reached(r.totalScore, after) { ReachedByMember(r, r.totalScore, after); }
    ReachedByMember(TotalRowFor(s), s.totalScore, after);
    IndexesExtend(rows, plays, s, after);
  }

  lemma AddedModSet(rows: set<TotalRow>, s: Score)
    requires OneRowPerModSet(rows) && WithMods(rows, s.mods) == {}
    ensures OneRowPerModSet(rows + {TotalRowFor(s)})
  {
    assert forall r :: r in rows && r.mods == s.mods ==> r in WithMods(rows, s.mods);
  }

  lemma ReplacedModSet(rows: set<TotalRow>, s: Score, gone: set<TotalRow>, m: TotalRow)
    requires OneRowPerModSet(rows) && m in gone && gone <= rows && m.mods == s.mods
    ensures OneRowPerModSet(rows - gone + {TotalRowFor(s)})
  {
  }

  lemma RowKeepsKeyAndMods(row: TotalRow, s: Score)
    requires row.key == KeyOf(s) && row.mods == s.mods
    ensures row.(totalScore := s.totalScore, rank := s.rank, scoreId := s.id) == TotalRowFor(s)
  {
  }

  /** A row at least as good as the old best and the new play keeps the index. */
  lemma TopKeepsIndex(
      rows: set<TotalRow>, plays: seq<Score>, s: Score, after: set<TotalRow>, best: TotalRow, top: TotalRow)
    requires Indexes(rows, plays) && Maximal(best, rows) && OneRowPerModSet(after)
    requires forall r :: r in after ==> r in rows || r == TotalRowFor(s)
    requires top in after && best.totalScore <= top.totalScore && s.totalScore <= top.totalScore
    ensures Indexes(after, plays + [s])
  {
    hide Reached, Copies, OneRowPerModSet;
    forall r | r in rows ensures Reached(r.totalScore, after) { ReachedByMember(top, r.totalScore, after); }
    ReachedByMember(top, s.totalScore, after);
    IndexesExtend(rows, plays, s, after);
  }

  /** The queries' answers: the best row and the best row of the play's mods, any of them on a tie. */
  ghost predicate Answers(rows: set<TotalRow>, s: Score, best: Option<TotalRow>, bestMod: Option<TotalRow>) {
    && (if rows == {} then best.None? else best.Some? && Maximal(best.value, rows))
    && (if WithMods(rows, s.mods) == {} then bestMod.None?
        else bestMod.Some? && Maximal(bestMod.value, WithMods(rows, s.mods)))
  }

  /**
   * Whether the update keeps the largest total: a best row that goes although it is not beaten has an equal beside
   * it, and a best row that stays alone for its mods is not beaten.
   */
  ghost predicate StepSafe(
      rows: set<TotalRow>, best: Option<TotalRow>, bestMod: Option<TotalRow>, difference: int, s: Score)
  {
    best.Some? && bestMod.Some? ==>
      && (difference > 0 && s.totalScore < best.value.totalScore ==> HasEqual(rows, best.value))
      && (best == bestMod && difference <= 0 ==> s.totalScore <= best.value.totalScore)
  }

  ghost predicate HasEqual(rows: set<TotalRow>, best: TotalRow) {
    exists r :: r in rows && r != best && r.totalScore == best.totalScore
  }

  lemma RowsAfterModSets(
      rows: set<TotalRow>, s: Score, best: Option<TotalRow>, bestMod: Option<TotalRow>, difference: int)
    requires OneRowPerModSet(rows) && DistinctRowIds(rows) && Answers(rows, s, best, bestMod)
    requires forall r :: r in rows ==> r.key == KeyOf(s)
    ensures var after := RowsAfter(rows, best, bestMod, difference, s);
      OneRowPerModSet(after) && forall r :: r in after ==> r in rows || r == TotalRowFor(s)
  {
    if best.None? || bestMod.None? {
      AddedModSet(rows, s);
    } else {
      var b, m := best.value, bestMod.value;
      RowKeepsKeyAndMods(m, s);
      if b.scoreId == m.scoreId {
        assert b == m;
        ReplacedModSet(rows, s, {b}, b);
      } else {
        assert rows - {b} - {m} == rows - {b, m};
        ReplacedModSet(rows, s, {b, m}, m);
        ReplacedModSet(rows, s, {m}, m);
      }
    }
  }

  /** A row that is at least as good as everything before and the new play, if the step is safe. */
  lemma SafeStepHasTop(
      rows: set<TotalRow>, s: Score, b: TotalRow, m: TotalRow, difference: int) returns (top: TotalRow)
    requires DistinctRowIds(rows) && Answers(rows, s, Some(b), Some(m))
    requires StepSafe(rows, Some(b), Some(m), difference, s)
    requires forall r :: r in rows ==> r.key == KeyOf(s)
    ensures top in RowsAfter(rows, Some(b), Some(m), difference, s)
    ensures b.totalScore <= top.totalScore && s.totalScore <= top.totalScore
  {
    RowKeepsKeyAndMods(m, s);
    assert b.scoreId == m.scoreId ==> b == m;
    if difference > 0 && s.totalScore < b.totalScore {
      top :| top in rows && top != b && top.totalScore == b.totalScore;
    } else if difference > 0 {
      top := if b != m && s.totalScore <= m.totalScore then m else TotalRowFor(s);
    } else {
      top := if s.totalScore <= b.totalScore then b else TotalRowFor(s);
    }
  }

  lemma UnsafeStepLosesTotal(
      rows: set<TotalRow>, plays: seq<Score>, s: Score, b: TotalRow, m: TotalRow, difference: int)
    requires Indexes(rows, plays) && DistinctRowIds(rows) && Answers(rows, s, Some(b), Some(m))
    requires !StepSafe(rows, Some(b), Some(m), difference, s)
    ensures !Indexes(RowsAfter(rows, Some(b), Some(m), difference, s), plays + [s])
  {
    hide OneRowPerModSet, DistinctBy, Indexes;
    var after, all := RowsAfter(rows, Some(b), Some(m), difference, s), plays + [s];
    assert b.scoreId == m.scoreId ==> b == m;
    if difference > 0 && s.totalScore < b.totalScore && !HasEqual(rows, b) {
      var i := IndexedRowHasPlay(rows, plays, b);
      assert all[i] == plays[i];
      UnreachedPlay(after, all, i);
    } else {
      assert all[|plays|] == s && after == rows;
      UnreachedPlay(after, all, |plays|);
    }
  }

  lemma IndexedRowHasPlay(rows: set<TotalRow>, plays: seq<Score>, row: TotalRow) returns (i: nat)
    requires Indexes(rows, plays) && row in rows
    ensures i < |plays| && row == TotalRowFor(plays[i])
  {
    assert Copies(row, plays);
    i :| i < |plays| && row == TotalRowFor(plays[i]);
  }

  lemma UnreachedPlay(rows: set<TotalRow>, plays: seq<Score>, i: nat)
    requires i < |plays| && forall r :: r in rows ==> r.totalScore < plays[i].totalScore
    ensures !Indexes(rows, plays)
  {
    assert !Reached(plays[i].totalScore, rows);
  }

  /** All four cases, for any row the database picks among tied ones: the index survives exactly a safe step. */
  lemma RowsAfterIndexesIff(
      rows: set<TotalRow>, plays: seq<Score>, s: Score,
      best: Option<TotalRow>, bestMod: Option<TotalRow>, difference: int)
    requires Indexes(rows, plays) && DistinctBy(plays, SCORE_ID) && forall r :: r in rows ==> r.key == KeyOf(s)
    requires Answers(rows, s, best, bestMod)
    ensures Indexes(RowsAfter(rows, best, bestMod, difference, s), plays + [s]) <==>
      StepSafe(rows, best, bestMod, difference, s)
  {
    CopiesHaveDistinctIds(rows, plays);
    IndexedModSets(rows, plays);
    RowsAfterModSets(rows, s, best, bestMod, difference);
    hide Indexes, OneRowPerModSet, DistinctRowIds;
    if best.None? || bestMod.None? {
      AddedRow(rows, plays, s);
    } else if StepSafe(rows, best, bestMod, difference, s) {
      var top := SafeStepHasTop(rows, s, best.value, bestMod.value, difference);
      hide RowsAfter, StepSafe;
      TopKeepsIndex(rows, plays, s, RowsAfter(rows, best, bestMod, difference, s), best.value, top);
    } else {
      UnsafeStepLosesTotal(rows, plays, s, best.value, bestMod.value, difference);
    }
  }

  lemma IndexedModSets(rows: set<TotalRow>, plays: seq<Score>)
    requires Indexes(rows, plays)
    ensures OneRowPerModSet(rows)
  {}

  // ----- whole runs -----

  /** A higher total never displays as less. */
  ghost predicate NeverShowsLess(mode: ScoringMode, plays: seq<Score>) {
    forall i, j :: 0 <= i < |plays| && 0 <= j < |plays| && plays[i].totalScore <= plays[j].totalScore ==>
      DisplayScore(mode, plays[i]) <= DisplayScore(mode, plays[j])
  }

  /** No play before `i` beats play `j`. */
  ghost predicate UnbeatenBefore(plays: seq<Score>, j: nat, i: nat)
    requires j < |plays| && i <= |plays|
  {
    forall k :: 0 <= k < i ==> plays[k].totalScore <= plays[j].totalScore
  }

  /** A play that beats the highest total before it, with the mods of a play that has it, displays as more. */
  ghost predicate RecordsShow(mode: ScoringMode, plays: seq<Score>) {
    forall i, j :: 0 <= j < i < |plays| && UnbeatenBefore(plays, j, i) ==>
      (plays[j].mods == plays[i].mods && plays[j].totalScore < plays[i].totalScore ==>
         DisplayScore(mode, plays[j]) < DisplayScore(mode, plays[i]))
  }

  ghost predicate TotalsTellMods(plays: seq<Score>) {
    forall i, j :: 0 <= i < |plays| && 0 <= j < |plays| && plays[i].totalScore == plays[j].totalScore ==>
      plays[i].mods == plays[j].mods
  }

  lemma ConditionsOfPrefix(mode: ScoringMode, plays: seq<Score>, more: seq<Score>)
    ensures NeverShowsLess(mode, plays + more) ==> NeverShowsLess(mode, plays)
    ensures RecordsShow(mode, plays + more) ==> RecordsShow(mode, plays)
    ensures TotalsTellMods(plays + more) ==> TotalsTellMods(plays)
  {
    hide DisplayScore;
    var all := plays + more;
    assert forall i :: 0 <= i < |plays| ==> all[i] == plays[i];
    if RecordsShow(mode, all) {
      forall i, j | 0 <= j < i < |plays| && UnbeatenBefore(plays, j, i) && plays[j].mods == plays[i].mods &&
          plays[j].totalScore < plays[i].totalScore
        ensures DisplayScore(mode, plays[j]) < DisplayScore(mode, plays[i])
      {
        assert UnbeatenBefore(all, j, i);
      }
    }
  }

  ghost predicate WellFormedRun(scores: map<int, Score>, steps: seq<Step>) {
    && (forall i :: 0 <= i < |steps| ==> PicksMember(steps[i].env.tie))
    && (forall i :: 0 <= i < |steps| ==>
          steps[i].score.id in scores && scores[steps[i].score.id] == steps[i].score)
    && (forall i, j :: 0 <= i < j < |steps| ==> steps[i].score.id != steps[j].score.id)
  }

  ghost predicate Processed(s: Score, steps: seq<Step>) {
    exists j :: 0 <= j < |steps| && steps[j].score == s
  }

  lemma {:induction false} PlaysAreSteps(steps: seq<Step>, key: Key)
    ensures forall i :: 0 <= i < |Plays(steps, key)| ==>
      KeyOf(Plays(steps, key)[i]) == key && Processed(Plays(steps, key)[i], steps)
  {
    if steps != [] {
      var n := |steps| - 1;
      PlaysAreSteps(steps[..n], key);
      forall s | Processed(s, steps[..n]) ensures Processed(s, steps) {
        var j :| 0 <= j < |steps[..n]| && steps[..n][j].score == s;
        assert steps[j].score == s;
      }
      assert Processed(steps[n].score, steps);
    }
  }

  lemma {:induction false} PlaysHaveDistinctIds(scores: map<int, Score>, steps: seq<Step>, key: Key)
    requires WellFormedRun(scores, steps)
    ensures DistinctBy(Plays(steps, key), SCORE_ID)
  {
    if steps != [] {
      var n := |steps| - 1;
      PlaysHaveDistinctIds(scores, steps[..n], key);
      PlaysAreSteps(steps[..n], key);
    }
  }

  lemma OtherKeysUnchanged(env: Env, scores: map<int, Score>, totals: set<TotalRow>, s: Score, key: Key)
    requires PicksMember(env.tie)
    ensures !Counts(Step(env, s), key) ==> RowsOf(TotalsAfter(env, scores, totals, s), key) == RowsOf(totals, key)
    ensures s.passed && HasLeaderboard(env, s) ==>
      var rows := RowsOf(totals, KeyOf(s));
      RowsOf(TotalsAfter(env, scores, totals, s), KeyOf(s)) ==
      RowsAfter(rows, BestRow(env.tie, rows), BestRow(env.tie, WithMods(rows, s.mods)),
                Improvement(env, scores, totals, s), s)
  {
    var rows := RowsOf(totals, KeyOf(s));
    var best, bestMod := BestRow(env.tie, rows), BestRow(env.tie, WithMods(rows, s.mods));
    if rows != {} { BestRowIsMaximal(env.tie, rows); }
    if WithMods(rows, s.mods) != {} { BestRowIsMaximal(env.tie, WithMods(rows, s.mods)); }
    hide BestRow;
    assert forall r ::
      r in RowsAfter(rows, best, bestMod, Improvement(env, scores, totals, s), s) ==> r.key == KeyOf(s);
  }

  /** The rows of `key` after `k` scores index the plays among them. */
  ghost predicate IndexedAt(scores: map<int, Score>, start: set<TotalRow>, steps: seq<Step>, k: nat, key: Key)
    requires k <= |steps|
  {
    Indexes(RowsOf(TotalsRun(scores, start, steps[..k]), key), Plays(steps[..k], key))
  }

  /** The update that score `k` makes to the rows of `key` is safe. */
  ghost predicate SafeAt(scores: map<int, Score>, start: set<TotalRow>, steps: seq<Step>, k: nat, key: Key)
    requires k < |steps|
  {
    Counts(steps[k], key) ==> SafeUpdate(steps[k].env, scores, TotalsRun(scores, start, steps[..k]), steps[k].score)
  }

  ghost predicate SafeUpdate(env: Env, scores: map<int, Score>, totals: set<TotalRow>, s: Score) {
    var rows := RowsOf(totals, KeyOf(s));
    StepSafe(rows, BestRow(env.tie, rows), BestRow(env.tie, WithMods(rows, s.mods)),
             Improvement(env, scores, totals, s), s)
  }

  /** One more score keeps the index exactly when its update is safe. */
  lemma StepKeepsIndexIff(scores: map<int, Score>, start: set<TotalRow>, steps: seq<Step>, k: nat, key: Key)
    requires WellFormedRun(scores, steps) && k < |steps| && IndexedAt(scores, start, steps, k, key)
    ensures IndexedAt(scores, start, steps, k + 1, key) <==> SafeAt(scores, start, steps, k, key)
  {
    hide Indexes, StepSafe;
    var before, more := steps[..k], steps[..k + 1];
    assert more[..k] == before && more[k] == steps[k];
    var step, totals := steps[k], TotalsRun(scores, start, before);
    OtherKeysUnchanged(step.env, scores, totals, step.score, key);
    assert Plays(before, key) + [] == Plays(before, key);
    if Counts(step, key) {
      StepIndexesIff(step.env, scores, totals, before, step.score);
    }
  }

  /**
   * From a table without rows for `key`, whatever tied row each query returned: the rows index the plays all along
   * the run exactly when every update was safe.
   */
  lemma {:induction false} IndexAlongRunIff(scores: map<int, Score>, start: set<TotalRow>, steps: seq<Step>, key: Key)
    requires WellFormedRun(scores, steps) && RowsOf(start, key) == {}
    ensures (forall k :: 0 <= k <= |steps| ==> IndexedAt(scores, start, steps, k, key)) <==>
      (forall k :: 0 <= k < |steps| ==> SafeAt(scores, start, steps, k, key))
  {
    hide SafeAt, IndexedAt;
    NothingIndexedAt(scores, start, steps, key);
    if forall k :: 0 <= k < |steps| ==> SafeAt(scores, start, steps, k, key) {
      for n := 0 to |steps|
        invariant forall k :: 0 <= k <= n ==> IndexedAt(scores, start, steps, k, key)
      {
        StepKeepsIndexIff(scores, start, steps, n, key);
      }
    }
    if forall k :: 0 <= k <= |steps| ==> IndexedAt(scores, start, steps, k, key) {
      forall k | 0 <= k < |steps| ensures SafeAt(scores, start, steps, k, key) {
        var next := k + 1;
        assert IndexedAt(scores, start, steps, next, key);
        StepKeepsIndexIff(scores, start, steps, k, key);
      }
    }
  }

  lemma NothingIndexedAt(scores: map<int, Score>, start: set<TotalRow>, steps: seq<Step>, key: Key)
    requires RowsOf(start, key) == {}
    ensures IndexedAt(scores, start, steps, 0, key)
  {
    assert steps[..0] == [];
    NothingIndexesNothing();
  }

  /**
   * While a higher total never displays as less, and a record displays as more than the play of its mods that it
   * beats, every update is safe: after any run the rows of `key` index exactly its plays and no two share a score id.
   */
  lemma {:induction false} IndexRefinesHistory(
      scores: map<int, Score>, start: set<TotalRow>, steps: seq<Step>, key: Key)
    requires WellFormedRun(scores, steps) && RowsOf(start, key) == {}
    requires forall i :: 0 <= i < |steps| ==> NeverShowsLess(steps[i].env.settings.scoringMode, Plays(steps, key))
    requires forall i :: 0 <= i < |steps| ==> RecordsShow(steps[i].env.settings.scoringMode, Plays(steps, key))
    ensures Indexes(RowsOf(TotalsRun(scores, start, steps), key), Plays(steps, key))
    ensures DistinctRowIds(RowsOf(TotalsRun(scores, start, steps), key))
  {
    hide Indexes, NeverShowsLess, RecordsShow, DistinctRowIds, StepSafe;
    if steps == [] {
      NothingIndexesNothing();
    } else {
      var n := |steps| - 1;
      var step, totals := steps[n], TotalsRun(scores, start, steps[..n]);
      forall i | 0 <= i < n
        ensures NeverShowsLess(steps[i].env.settings.scoringMode, Plays(steps[..n], key))
        ensures RecordsShow(steps[i].env.settings.scoringMode, Plays(steps[..n], key))
      {
        ConditionsBefore(steps[i].env.settings.scoringMode, steps, key);
      }
      IndexRefinesHistory(scores, start, steps[..n], key);
      OtherKeysUnchanged(step.env, scores, totals, step.score, key);
      assert Plays(steps[..n], key) + [] == Plays(steps[..n], key);
      if Counts(step, key) {
        StepIndexesIff(step.env, scores, totals, steps[..n], step.score);
        ShowingRecordsIsSafe(step.env, scores, totals, steps[..n], step.score);
      }
    }
    PlaysHaveDistinctIds(scores, steps, key);
    IndexCopies(RowsOf(TotalsRun(scores, start, steps), key), Plays(steps, key));
    CopiesHaveDistinctIds(RowsOf(TotalsRun(scores, start, steps), key), Plays(steps, key));
  }

  lemma IndexCopies(rows: set<TotalRow>, plays: seq<Score>)
    requires Indexes(rows, plays)
    ensures forall r :: r in rows ==> Copies(r, plays)
  {}

  /**
   * In a fixed mode in which a higher total never displays as less, when equal totals have equal mods: the rows index
   * the plays all along the run exactly when records show, a condition on the plays alone.
   */
  lemma {:induction false} IndexAlongRunIffRecordsShow(
      scores: map<int, Score>, start: set<TotalRow>, steps: seq<Step>, key: Key, mode: ScoringMode)
    requires WellFormedRun(scores, steps) && RowsOf(start, key) == {}
    requires forall i :: 0 <= i < |steps| ==> steps[i].env.settings.scoringMode == mode
    requires NeverShowsLess(mode, Plays(steps, key)) && TotalsTellMods(Plays(steps, key))
    ensures (forall k :: 0 <= k <= |steps| ==> IndexedAt(scores, start, steps, k, key)) <==>
      RecordsShow(mode, Plays(steps, key))
  {
    hide NeverShowsLess, RecordsShow, TotalsTellMods, StepSafe, Indexes;
    assert steps[..|steps|] == steps;
    if RecordsShow(mode, Plays(steps, key)) {
      forall k | 0 <= k <= |steps| ensures IndexedAt(scores, start, steps, k, key) {
        ConditionsAt(mode, steps, key, k);
        IndexRefinesHistory(scores, start, steps[..k], key);
      }
    } else if forall k :: 0 <= k <= |steps| ==> IndexedAt(scores, start, steps, k, key) {
      NothingRecorded(mode);
      for n := 0 to |steps|
        invariant RecordsShow(mode, Plays(steps[..n], key))
      {
        var next := n + 1;
        assert IndexedAt(scores, start, steps, n, key) && IndexedAt(scores, start, steps, next, key);
        StepKeepsIndexIff(scores, start, steps, n, key);
        ConditionsAt(mode, steps, key, n);
        ConditionsAt(mode, steps, key, n + 1);
        SafeStepShowsRecord(scores, start, steps, n, key);
      }
    }
  }

  lemma NothingRecorded(mode: ScoringMode)
    ensures RecordsShow(mode, [])
  {}

  lemma {:induction false} ConditionsAt(mode: ScoringMode, steps: seq<Step>, key: Key, k: nat)
    requires k <= |steps|
    ensures NeverShowsLess(mode, Plays(steps, key)) ==> NeverShowsLess(mode, Plays(steps[..k], key))
    ensures RecordsShow(mode, Plays(steps, key)) ==> RecordsShow(mode, Plays(steps[..k], key))
    ensures TotalsTellMods(Plays(steps, key)) ==> TotalsTellMods(Plays(steps[..k], key))
    decreases |steps|
  {
    hide NeverShowsLess, RecordsShow, TotalsTellMods;
    if k == |steps| {
      assert steps[..k] == steps;
    } else {
      ConditionsBefore(mode, steps, key);
      ConditionsAt(mode, steps[..|steps| - 1], key, k);
      assert steps[..|steps| - 1][..k] == steps[..k];
    }
  }

  lemma ConditionsBefore(mode: ScoringMode, steps: seq<Step>, key: Key)
    requires steps != []
    ensures var before := Plays(steps[..|steps| - 1], key);
      && (NeverShowsLess(mode, Plays(steps, key)) ==> NeverShowsLess(mode, before))
      && (RecordsShow(mode, Plays(steps, key)) ==> RecordsShow(mode, before))
      && (TotalsTellMods(Plays(steps, key)) ==> TotalsTellMods(before))
  {
    hide NeverShowsLess, RecordsShow, TotalsTellMods;
    var n := |steps| - 1;
    ConditionsOfPrefix(mode, Plays(steps[..n], key), if Counts(steps[n], key) then [steps[n].score] else []);
  }

  /** A safe update of an index, when equal totals have equal mods: the play, if it is a record, displays as more. */
  lemma SafeStepShowsRecord(scores: map<int, Score>, start: set<TotalRow>, steps: seq<Step>, n: nat, key: Key)
    requires WellFormedRun(scores, steps) && n < |steps| && IndexedAt(scores, start, steps, n, key)
    requires SafeAt(scores, start, steps, n, key)
    requires TotalsTellMods(Plays(steps[..n + 1], key))
    requires NeverShowsLess(steps[n].env.settings.scoringMode, Plays(steps[..n], key))
    requires RecordsShow(steps[n].env.settings.scoringMode, Plays(steps[..n], key))
    ensures RecordsShow(steps[n].env.settings.scoringMode, Plays(steps[..n + 1], key))
  {
    hide NeverShowsLess, RecordsShow, TotalsTellMods, StepSafe, Indexes, WellFormedRun;
    var before, step := steps[..n], steps[n];
    assert steps[..n + 1][..n] == before;
    assert Plays(before, key) + [] == Plays(before, key);
    if Counts(step, key) {
      var totals := TotalsRun(scores, start, before);
      PrefixIsWellFormed(scores, steps, n);
      PlaysAreStored(scores, before, key);
      AnswersOfQueries(step.env, totals, step.score);
      SafeRecordShows(step.env, scores, totals, Plays(before, key), step.score);
    }
  }

  lemma PrefixIsWellFormed(scores: map<int, Score>, steps: seq<Step>, n: nat)
    requires WellFormedRun(scores, steps) && n < |steps|
    ensures WellFormedRun(scores, steps[..n]) && PicksMember(steps[n].env.tie)
  {}

  lemma SafeRecordShows(env: Env, scores: map<int, Score>, totals: set<TotalRow>, before: seq<Score>, s: Score)
    requires var rows := RowsOf(totals, KeyOf(s));
      && Indexes(rows, before)
      && Answers(rows, s, BestRow(env.tie, rows), BestRow(env.tie, WithMods(rows, s.mods)))
    requires SafeUpdate(env, scores, totals, s) && TotalsTellMods(before + [s])
    requires forall i :: 0 <= i < |before| ==> before[i].id in scores && scores[before[i].id] == before[i]
    requires NeverShowsLess(env.settings.scoringMode, before) && RecordsShow(env.settings.scoringMode, before)
    ensures RecordsShow(env.settings.scoringMode, before + [s])
  {
    hide BestRow, DisplayScore, Indexes, StepSafe, Improvement, WithMods, NeverShowsLess, RecordsShow;
    var mode, rows := env.settings.scoringMode, RowsOf(totals, KeyOf(s));
    if before == [] {
      OnePlayShows(mode, s);
    } else {
      IndexedIsNonEmpty(rows, before);
      var b := BestRow(env.tie, rows).value;
      var p := BestCopiesUnbeaten(rows, before, b);
      SafeRecordImproves(env, scores, totals, s);
      ImprovementOver(env, scores, totals, s, before, p);
      BeatenBestShows(mode, before, s, p);
    }
  }

  lemma OnePlayShows(mode: ScoringMode, s: Score)
    ensures RecordsShow(mode, [] + [s])
  {}

  lemma IndexedIsNonEmpty(rows: set<TotalRow>, plays: seq<Score>)
    requires Indexes(rows, plays)
    ensures OneRowPerModSet(rows) && (rows == {} <==> plays == [])
  {}

  lemma SafeRecordImproves(env: Env, scores: map<int, Score>, totals: set<TotalRow>, s: Score)
    requires var rows := RowsOf(totals, KeyOf(s));
      && OneRowPerModSet(rows)
      && Answers(rows, s, BestRow(env.tie, rows), BestRow(env.tie, WithMods(rows, s.mods)))
    requires SafeUpdate(env, scores, totals, s)
    ensures var best := BestRow(env.tie, RowsOf(totals, KeyOf(s)));
      best.Some? && best.value.mods == s.mods && best.value.totalScore < s.totalScore ==>
      Improvement(env, scores, totals, s) > 0
  {
    hide BestRow, Improvement;
    var rows := RowsOf(totals, KeyOf(s));
    var best := BestRow(env.tie, rows);
    if best.Some? && best.value.mods == s.mods {
      assert best.value in WithMods(rows, s.mods);
    }
  }

  /** If play `p` has the highest total and beating it with its own mods shows, records show. */
  lemma BeatenBestShows(mode: ScoringMode, before: seq<Score>, s: Score, p: nat)
    requires NeverShowsLess(mode, before) && RecordsShow(mode, before) && TotalsTellMods(before + [s])
    requires p < |before| && UnbeatenBefore(before, p, |before|)
    requires before[p].mods == s.mods && before[p].totalScore < s.totalScore ==>
      DisplayScore(mode, before[p]) < DisplayScore(mode, s)
    ensures RecordsShow(mode, before + [s])
  {
    hide DisplayScore;
    var all := before + [s];
    assert forall i :: 0 <= i < |before| ==> all[i] == before[i];
    assert all[|before|] == s;
    forall i, j | 0 <= j < i < |all| && UnbeatenBefore(all, j, i)
      ensures all[j].mods == all[i].mods && all[j].totalScore < all[i].totalScore ==>
        DisplayScore(mode, all[j]) < DisplayScore(mode, all[i])
    {
      if i < |before| {
        assert UnbeatenBefore(before, j, i);
      } else {
        assert all[p].totalScore <= all[j].totalScore && before[j].totalScore <= before[p].totalScore;
        assert all[p].mods == all[j].mods;
      }
    }
  }

  lemma BestCopiesUnbeaten(rows: set<TotalRow>, plays: seq<Score>, b: TotalRow) returns (p: nat)
    requires Indexes(rows, plays) && Maximal(b, rows)
    ensures p < |plays| && b == TotalRowFor(plays[p]) && UnbeatenBefore(plays, p, |plays|)
  {
    assert Copies(b, plays);
    p :| p < |plays| && b == TotalRowFor(plays[p]);
    forall k | 0 <= k < |plays| ensures plays[k].totalScore <= plays[p].totalScore {
      assert Reached(plays[k].totalScore, rows);
    }
  }

  lemma NothingIndexesNothing()
    ensures Indexes({}, [])
  {
  }

  lemma PlaysAreStored(scores: map<int, Score>, steps: seq<Step>, key: Key)
    requires WellFormedRun(scores, steps)
    ensures forall i :: 0 <= i < |Plays(steps, key)| ==>
      Plays(steps, key)[i].id in scores && scores[Plays(steps, key)[i].id] == Plays(steps, key)[i]
  {
    PlaysAreSteps(steps, key);
    forall i | 0 <= i < |Plays(steps, key)|
      ensures Plays(steps, key)[i].id in scores && scores[Plays(steps, key)[i].id] == Plays(steps, key)[i]
    {
      assert Processed(Plays(steps, key)[i], steps);
    }
  }

  lemma AnswersOfQueries(env: Env, totals: set<TotalRow>, s: Score)
    requires PicksMember(env.tie)
    ensures var rows := RowsOf(totals, KeyOf(s));
      Answers(rows, s, BestRow(env.tie, rows), BestRow(env.tie, WithMods(rows, s.mods)))
  {
    var rows := RowsOf(totals, KeyOf(s));
    if rows != {} { BestRowIsMaximal(env.tie, rows); }
    if WithMods(rows, s.mods) != {} { BestRowIsMaximal(env.tie, WithMods(rows, s.mods)); }
  }

  lemma StepIndexesIff(env: Env, scores: map<int, Score>, totals: set<TotalRow>, steps: seq<Step>, s: Score)
    requires WellFormedRun(scores, steps) && PicksMember(env.tie) && s.passed && HasLeaderboard(env, s)
    requires Indexes(RowsOf(totals, KeyOf(s)), Plays(steps, KeyOf(s)))
    ensures Indexes(RowsOf(TotalsAfter(env, scores, totals, s), KeyOf(s)), Plays(steps, KeyOf(s)) + [s]) <==>
      SafeUpdate(env, scores, totals, s)
  {
    hide Indexes, StepSafe, WellFormedRun, BestRow, Improvement, RowsAfter, Plays;
    var rows := RowsOf(totals, KeyOf(s));
    var best, bestMod := BestRow(env.tie, rows), BestRow(env.tie, WithMods(rows, s.mods));
    AnswersOfQueries(env, totals, s);
    PlaysHaveDistinctIds(scores, steps, KeyOf(s));
    OtherKeysUnchanged(env, scores, totals, s, KeyOf(s));
    RowsAfterIndexesIff(rows, Plays(steps, KeyOf(s)), s, best, bestMod, Improvement(env, scores, totals, s));
  }

  lemma ShowingRecordsIsSafe(env: Env, scores: map<int, Score>, totals: set<TotalRow>, steps: seq<Step>, s: Score)
    requires WellFormedRun(scores, steps) && PicksMember(env.tie)
    requires Indexes(RowsOf(totals, KeyOf(s)), Plays(steps, KeyOf(s)))
    requires NeverShowsLess(env.settings.scoringMode, Plays(steps, KeyOf(s)) + [s])
    requires RecordsShow(env.settings.scoringMode, Plays(steps, KeyOf(s)) + [s])
    ensures SafeUpdate(env, scores, totals, s)
  {
    hide WellFormedRun, Improvement, Plays, NeverShowsLess, RecordsShow, Indexes, BestRow;
    var rows := RowsOf(totals, KeyOf(s));
    var best := BestRow(env.tie, rows);
    AnswersOfQueries(env, totals, s);
    PlaysAreStored(scores, steps, KeyOf(s));
    if best.Some? {
      var before := Plays(steps, KeyOf(s));
      var p := BestCopiesUnbeaten(rows, before, best.value);
      ImprovementOver(env, scores, totals, s, before, p);
      RecordImproves(env.settings.scoringMode, before, s, p);
    }
  }

  lemma ImprovementOver(
      env: Env, scores: map<int, Score>, totals: set<TotalRow>, s: Score, before: seq<Score>, p: nat)
    requires p < |before| && BestRow(env.tie, RowsOf(totals, KeyOf(s))) == Some(TotalRowFor(before[p]))
    requires before[p].id in scores && scores[before[p].id] == before[p]
    ensures Improvement(env, scores, totals, s) ==
      DisplayScore(env.settings.scoringMode, s) - DisplayScore(env.settings.scoringMode, before[p])
  {}

  lemma RecordImproves(mode: ScoringMode, before: seq<Score>, s: Score, p: nat)
    requires NeverShowsLess(mode, before + [s]) && RecordsShow(mode, before + [s])
    requires p < |before| && UnbeatenBefore(before, p, |before|)
    ensures DisplayScore(mode, before[p]) < DisplayScore(mode, s) ==> before[p].totalScore < s.totalScore
    ensures before[p].totalScore < s.totalScore && before[p].mods == s.mods ==>
      DisplayScore(mode, before[p]) < DisplayScore(mode, s)
  {
    hide DisplayScore;
    var all := before + [s];
    assert all[p] == before[p] && all[|before|] == s;
    assert UnbeatenBefore(all, p, |before|);
  }

  /** In standardised mode the display score is the total, so the theorem needs no condition on the scores. */
  lemma StandardisedIndex(scores: map<int, Score>, start: set<TotalRow>, steps: seq<Step>, key: Key)
    requires WellFormedRun(scores, steps) && RowsOf(start, key) == {}
    requires forall i :: 0 <= i < |steps| ==> steps[i].env.settings.scoringMode == Standardised
    ensures Indexes(RowsOf(TotalsRun(scores, start, steps), key), Plays(steps, key))
    ensures DistinctRowIds(RowsOf(TotalsRun(scores, start, steps), key))
  {
    IndexRefinesHistory(scores, start, steps, key);
  }

  // ----- classic mode -----

  /** A passed play of an osu! map of a hundred objects. */
  function HundredCircles(id: int, total: int): Score {
    Score(id, 1, 1, Osu, id, Month(2026, 1), 90.0, 1.0, total, D, {}, 0.8, 60, true,
          Hits(70, 20, 5, 5, 0, 0, 0, 0, 0, 0), 100, 100, true, true, true)
  }

  /**
   * Classic mode rounds: on a hundred objects the totals 600000 and 600001 both display as 255420, so the better
   * play improves nothing and its total is lost.
   */
  lemma ClassicRoundingLosesATotal(env: Env)
    requires PicksMember(env.tie) && env.settings.scoringMode == Classic && env.policy(1).leaderboardEnabled
    ensures var first, second := HundredCircles(1, 600000), HundredCircles(2, 600001);
      var scores := map[1 := first, 2 := second];
      var steps := [Step(env, first), Step(env, second)];
      && WellFormedRun(scores, steps)
      && !IndexedAt(scores, {}, steps, 2, KeyOf(first))
  {
    var first, second := HundredCircles(1, 600000), HundredCircles(2, 600001);
    var scores, steps := map[1 := first, 2 := second], [Step(env, first), Step(env, second)];
    assert WellFormedRun(scores, steps);
    FirstClassicPlay(env, scores);
    SecondClassicPlayIsUnsafe(env, scores);
    hide WellFormedRun, SafeUpdate, TotalsAfter, IndexedAt;
    UnsafeSecondPlay(env, scores, first, second);
  }

  lemma UnsafeSecondPlay(env: Env, scores: map<int, Score>, first: Score, second: Score)
    requires WellFormedRun(scores, [Step(env, first), Step(env, second)]) && PicksMember(env.tie)
    requires KeyOf(second) == KeyOf(first) && first.passed && second.passed
    requires HasLeaderboard(env, first) && HasLeaderboard(env, second)
    requires TotalsAfter(env, scores, {}, first) == {TotalRowFor(first)}
    requires RowsOf({TotalRowFor(first)}, KeyOf(first)) == {TotalRowFor(first)}
    requires !SafeUpdate(env, scores, {TotalRowFor(first)}, second)
    ensures !IndexedAt(scores, {}, [Step(env, first), Step(env, second)], 2, KeyOf(first))
  {
    hide Indexes, TotalsAfter, SafeUpdate, WellFormedRun, HasLeaderboard, KeyOf, RowsOf, TotalRowFor;
    var key, row, steps := KeyOf(first), TotalRowFor(first), [Step(env, first), Step(env, second)];
    assert steps[..1] == [Step(env, first)] && steps[..1][..0] == [] && steps[..2] == steps;
    assert TotalsRun(scores, {}, steps[..1]) == {row};
    assert Plays(steps[..1], key) == [] + [first] == [first];
    SingleRowIndexes(row, first);
    PrefixIsWellFormed(scores, steps, 1);
    StepIndexesIff(env, scores, {row}, steps[..1], second);
    assert Plays(steps, key) == [first] + [second];
    assert TotalsRun(scores, {}, steps) == TotalsAfter(env, scores, {row}, second);
  }

  lemma FirstClassicPlay(env: Env, scores: map<int, Score>)
    requires env.policy(1).leaderboardEnabled
    ensures var first := HundredCircles(1, 600000); var row := TotalRowFor(first);
      TotalsAfter(env, scores, {}, first) == {row} && RowsOf({row}, KeyOf(first)) == {row}
  {
    assert RowsOf({}, KeyOf(HundredCircles(1, 600000))) == {};
  }

  lemma SecondClassicPlayIsUnsafe(env: Env, scores: map<int, Score>)
    requires PicksMember(env.tie) && env.settings.scoringMode == Classic
    requires scores == map[1 := HundredCircles(1, 600000), 2 := HundredCircles(2, 600001)]
    ensures !SafeUpdate(env, scores, {TotalRowFor(HundredCircles(1, 600000))}, HundredCircles(2, 600001))
  {
    var first, second := HundredCircles(1, 600000), HundredCircles(2, 600001);
    var row := TotalRowFor(first);
    assert DisplayScore(Classic, first) == 255420 == DisplayScore(Classic, second) by { ClassicOfHundred(); }
    assert RowsOf({row}, KeyOf(first)) == {row} && WithMods({row}, {}) == {row};
    BestRowIsMaximal(env.tie, {row});
    hide BestRow, DisplayScore;
    assert Improvement(env, scores, {row}, second) == 0;
  }

  lemma ClassicOfHundred()
    ensures StandardisedToClassic(0, 600000, 100) == 255420 && StandardisedToClassic(0, 600001, 100) == 255420
  {}

  lemma SingleRowIndexes(row: TotalRow, s: Score)
    requires row == TotalRowFor(s)
    ensures Indexes({row}, [s])
  {
    assert [s][0] == s;
    assert Reached(s.totalScore, {row});
  }
}
