/** The administrative operations on the stored tables. */
module AdminService {
  import opened Wrappers
  import opened ScoreModel
  import opened Ordering
  import opened PpArithmetic
  import opened ScoreEngine
  import opened EngineRuns
  import opened PpCache
  import opened AdminRebuild

  /** Foreign key of the pp table: a row belongs to the user, beatmap and mode of its score. */
  ghost predicate RowsReferToScores(db: Db) {
    forall r :: r in db.bests && r.scoreId in db.scores ==> KeyOf(db.scores[r.scoreId]) == r.key
  }

  /** The loop that fills `pp_best`: one score per beatmap and mode, the first to reach the highest pp. */
  method BuildPpBest(award: Score -> Option<real>, list: seq<Score>) returns (best: map<Key, Score>)
    ensures best == PpBest(award, list)
    ensures forall key :: (key in best <==> FirstMaxPp(list, award, key).Some?) &&
                          (key in best ==> FirstMaxPp(list, award, key) == Some(best[key]))
  {
    best := map[];
    for i := 0 to |list|
      invariant best == PpBest(award, list[..i])
    {
      assert list[..i + 1][..i] == list[..i];
      var s := list[i];
      if award(s).Some? {
        if KeyOf(s) !in best || award(best[KeyOf(s)]).None? || award(s).value > award(best[KeyOf(s)]).value {
          best := best[KeyOf(s) := s];
        }
      }
    }
    assert list[..|list|] == list;
    forall key
      ensures (key in best <==> FirstMaxPp(list, award, key).Some?) &&
              (key in best ==> FirstMaxPp(list, award, key) == Some(best[key]))
    {
      PpBestIsFirstMax(award, list, key);
    }
  }

  lemma BatchRowFacts(env: Env, db: Db, user: int)
    requires KeyedById(db)
    ensures var award := RebuildAward(env, db.storedPp);
      forall r :: r in BatchRows(award, PpBest(award, Survivors(db, user))) ==>
        r.scoreId in db.scores && KeyOf(db.scores[r.scoreId]) == r.key && r.key.user == user &&
        RowOfBest(Survivors(db, user), award, r.key) == {r}
  {
    hide Survivors, ProcessedScores, RebuildAward, PpBest;
    var award, list := RebuildAward(env, db.storedPp), Survivors(db, user);
    var best := PpBest(award, list);
    SurvivorsAreTheProcessedScores(db, user);
    ScoresKeyedById(db, user);
    forall r | r in BatchRows(award, best)
      ensures r.scoreId in db.scores && KeyOf(db.scores[r.scoreId]) == r.key && r.key.user == user
      ensures RowOfBest(list, award, r.key) == {r}
    {
      var k :| k in best && award(best[k]).Some? && r == PpRowFor(best[k], award(best[k]).value);
      PpBestIsFirstMax(award, list, k);
      FirstMaxIsAwarded(list, award, k);
      var i := FirstMaxPpIsFirstBest(list, award, k);
      assert list[i] in ProcessedScores(db, user);
    }
  }

  /** The batch keeps the keys of the pp table. */
  lemma BatchKeepsKeys(env: Env, db: Db, user: int)
    requires KeyedById(db) && RowsReferToScores(db) && DistinctScores(db.bests) && OnePpRowPerKey(db.bests)
    ensures DistinctScores(WithBatch(env, db, user).bests) && OnePpRowPerKey(WithBatch(env, db, user).bests)
    ensures RowsReferToScores(WithBatch(env, db, user))
  {
    hide Survivors, RebuildAward, PpBest, BatchRows, RowOfBest;
    BatchRowFacts(env, db, user);
    var award := RebuildAward(env, db.storedPp);
    var batch := BatchRows(award, PpBest(award, Survivors(db, user)));
    forall r, q | r in batch && q in batch && (r.scoreId == q.scoreId || r.key == q.key) ensures r == q {
      assert r.key == q.key;
      assert RowOfBest(Survivors(db, user), award, r.key) == {r} == {q};
      assert r in {q};
    }
  }

  lemma SurvivorsQuery(db: Db, user: int, list: seq<Score>)
    requires KeyedById(db)
    requires NoTies(ProcessedScores(db, user), SCORE_ORDER) ==>
      list == OrderedRows(ProcessedScores(db, user), SCORE_ORDER)
    ensures list == Survivors(db, user)
  {
    ScoresKeyedById(db, user);
  }

  lemma StatRowsInOrder(db: Db, user: int)
    ensures HasStatRows(db, user) <==>
      forall i :: 0 <= i < |Survivors(db, user)| ==> StatKeyOf(Survivors(db, user)[i]) in db.stats
  {
    hide ProcessedScores, Survivors;
    var list := Survivors(db, user);
    SurvivorsAreTheProcessedScores(db, user);
    assert forall i :: 0 <= i < |list| ==> list[i] in ProcessedScores(db, user);
  }

  lemma ClearKeepsKeys(db: Db, user: int)
    requires DistinctScores(db.bests) && OnePpRowPerKey(db.bests)
    ensures DistinctScores(ClearUser(db, user).bests) && OnePpRowPerKey(ClearUser(db, user).bests)
  {
  }

  /** The deletes on the four modelled tables, and the reset. */
  method ClearTables(store: GameplayStore, user: int)
    requires store.Valid()
    modifies store
    ensures store.Valid() && store.Snapshot() == ClearUser(old(store.Snapshot()), user)
  {
    hide OnePpRowPerKey, DistinctScores, PicksMember, ClearStats;
    ClearKeepsKeys(store.Snapshot(), user);
    store.bests := set r | r in store.bests && r.key.user != user;
    store.totals := set r | r in store.totals && r.key.user != user;
    store.monthly := map k | k in store.monthly && k.user != user :: store.monthly[k];
    store.plays := map k | k in store.plays && k.user != user :: store.plays[k];
    store.stats := ClearStats(store.stats, user);
  }

  method ClearAndRefill(store: GameplayStore, user: int, list: seq<Score>)
    requires store.Valid() && KeyedById(store.Snapshot()) && RowsReferToScores(store.Snapshot())
    requires list == Survivors(store.Snapshot(), user)
    modifies store
    ensures store.Valid() && store.Snapshot() == WithBatch(store.env, old(store.Snapshot()), user)
  {
    hide Survivors, PpBest, OnePpRowPerKey, DistinctScores, PicksMember, BatchRows, RebuildAward, ClearUser,
      FirstMaxPp, KeyedById, RowsReferToScores;
    BatchKeepsKeys(store.env, store.Snapshot(), user);
    var award := RebuildAward(store.env, store.storedPp);
    ClearTables(store, user);
    var best := BuildPpBest(award, list);
    store.bests := store.bests + BatchRows(award, best);
  }

  /** The user's processed scores in (ended_at, id) order. */
  method SelectSurvivors(store: GameplayStore, user: int) returns (list: seq<Score>)
    requires KeyedById(store.Snapshot())
    ensures list == Survivors(store.Snapshot(), user)
  {
    hide Survivors, SortedBy, NoTies, OrderedRows, TotalPreorder;
    var rows := set id | id in store.scores && id in store.processed && store.scores[id].user == user ::
      store.scores[id];
    ProcessedRows(store.Snapshot(), user, rows);
    ScoreOrderIsTotal();
    list := SelectOrdered(rows, SCORE_ORDER);
    SurvivorsQuery(store.Snapshot(), user, list);
  }

  /** Rebuilds every aggregate of the user, or fails and leaves the tables as they were. */
  method RebuildUserGameplayAggregates(store: GameplayStore, user: int) returns (ok: bool)
    requires store.Valid() && KeyedById(store.Snapshot()) && RowsReferToScores(store.Snapshot())
    modifies store
    ensures store.Valid() && ok == HasStatRows(old(store.Snapshot()), user)
    ensures store.Snapshot() == Rebuild(store.env, old(store.Snapshot()), user)
  {
    hide Survivors, WithBatch, StatisticsStep, ProcessedScores, OnePpRowPerKey, DistinctScores, PicksMember,
      HasStatRows, KeyedById, RowsReferToScores;
    ghost var before := store.Snapshot();
    var totals, bests, stats, monthly, plays := store.totals, store.bests, store.stats, store.monthly, store.plays;
    StatRowsInOrder(before, user);
    var list := SelectSurvivors(store, user);
    ClearAndRefill(store, user, list);
    WithBatchKeys(store.env, before, user);
    for i := 0 to |list|
      invariant store.Valid()
      invariant store.Snapshot() == FoldStatistics(store.env, WithBatch(store.env, before, user), list[..i])
      invariant store.stats.Keys == before.stats.Keys
      invariant forall j :: 0 <= j < i ==> StatKeyOf(list[j]) in before.stats
    {
      assert list[..i + 1][..i] == list[..i];
      StatisticsStepKeys(store.env, store.Snapshot(), list[i], store.env.hitLength(list[i].beatmap));
      var done := store.ProcessStatistics(list[i], store.env.hitLength(list[i].beatmap));
      if !done {
        store.totals, store.bests, store.stats, store.monthly, store.plays := totals, bests, stats, monthly, plays;
        FoldKeepsColumns(store.env, before, user, list[..i + 1]);
        return false;
      }
    }
    assert list[..|list|] == list;
    ok := true;
  }

  lemma ProcessedRows(db: Db, user: int, rows: set<Score>)
    requires rows == set id | id in db.scores && id in db.processed && db.scores[id].user == user :: db.scores[id]
    ensures rows == ProcessedScores(db, user)
  {
  }

  lemma WithBatchKeys(env: Env, db: Db, user: int)
    ensures WithBatch(env, db, user).stats.Keys == db.stats.Keys
  {
  }

  lemma StatisticsStepKeys(env: Env, db: Db, s: Score, length: int)
    ensures StatisticsStep(env, db, s, length).stats.Keys == db.stats.Keys
  {
    hide StatsAfter, TotalsAfter, MonthlyAfter, PlaysAfter, PlayCredit;
  }

  lemma {:induction false} FoldKeepsColumns(env: Env, db: Db, user: int, list: seq<Score>)
    ensures var after := FoldStatistics(env, WithBatch(env, db, user), list);
      after.scores == db.scores && after.storedPp == db.storedPp && after.processed == db.processed
  {
    hide StatsAfter, TotalsAfter, MonthlyAfter, PlaysAfter, PlayCredit, Survivors, PpBest, BatchRows;
    if list != [] { FoldKeepsColumns(env, db, user, list[..|list| - 1]); }
  }

  lemma RemovalKeepsTables(db: Db, id: int)
    requires KeyedById(db) && RowsReferToScores(db) && DistinctScores(db.bests) && OnePpRowPerKey(db.bests)
    ensures KeyedById(RemoveScore(db, id)) && RowsReferToScores(RemoveScore(db, id))
    ensures DistinctScores(RemoveScore(db, id).bests) && OnePpRowPerKey(RemoveScore(db, id).bests)
  {
  }

  /** Deletes one score of the user and rebuilds; a score that is not the user's is not found. */
  method DeleteUserScore(store: GameplayStore, user: int, id: int) returns (deleted: bool)
    requires store.Valid() && KeyedById(store.Snapshot()) && RowsReferToScores(store.Snapshot())
    modifies store
    ensures store.Valid()
    ensures deleted == (OwnsScore(old(store.Snapshot()), user, id) &&
                        HasStatRows(RemoveScore(old(store.Snapshot()), id), user))
    ensures store.Snapshot() == DeleteScore(store.env, old(store.Snapshot()), user, id)
    ensures id !in old(store.scores) || old(store.scores)[id].user != user ==>
      !deleted && store.Snapshot() == old(store.Snapshot())
    ensures store.scores == if deleted then old(store.scores) - {id} else old(store.scores)
  {
    hide Rebuild, HasStatRows;
    if id !in store.scores || store.scores[id].user != user { return false; }
    var scores, storedPp, processed, totals, bests :=
      store.scores, store.storedPp, store.processed, store.totals, store.bests;
    RemovalKeepsTables(store.Snapshot(), id);
    store.totals := set r | r in store.totals && r.scoreId != id;
    store.bests := set r | r in store.bests && r.scoreId != id;
    store.scores, store.storedPp, store.processed :=
      store.scores - {id}, store.storedPp - {id}, store.processed - {id};
    deleted := RebuildUserGameplayAggregates(store, user);
    RebuildKeepsScores(store.env, RemoveScore(old(store.Snapshot()), id), user);
    if !deleted {
      RebuildFailureChangesNothing(store.env, RemoveScore(old(store.Snapshot()), id), user);
      store.scores, store.storedPp, store.processed, store.totals, store.bests :=
        scores, storedPp, processed, totals, bests;
    }
  }

  lemma RebuildKeepsScores(env: Env, db: Db, user: int)
    ensures Rebuild(env, db, user).scores == db.scores
  {
    hide WithBatch, FoldStatistics, Survivors;
    FoldKeepsColumns(env, db, user, Survivors(db, user));
  }

  lemma RebuildFailureChangesNothing(env: Env, db: Db, user: int)
    requires !HasStatRows(db, user)
    ensures Rebuild(env, db, user) == db
  {
  }
}
