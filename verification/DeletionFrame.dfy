/** What deleting a score touches, told by the columns of the tables. */
module DeletionFrame {
  import opened Wrappers
  import opened ScoreModel
  import opened ScoreEngine
  import opened EngineRuns
  import opened PpCache
  import opened AdminRebuild
  import opened DeletionRuns

  /** Foreign keys: a row that refers to a score belongs to the score's user. */
  ghost predicate RowsOfOwners(db: Db) {
    && (forall r :: r in db.totals && r.scoreId in db.scores ==> r.key.user == db.scores[r.scoreId].user)
    && (forall r :: r in db.bests && r.scoreId in db.scores ==> r.key.user == db.scores[r.scoreId].user)
  }

  /** A score of somebody else, or none, is not found, and nothing changes. */
  lemma ForeignScoreStays(env: Env, db: Db, user: int, id: int)
    requires id in db.scores ==> db.scores[id].user != user
    ensures DeleteScore(env, db, user, id) == db
  {
    hide Rebuild, HasStatRows;
  }

  // ----- other users -----

  /** Every score, row, statistics record and counter of the other users is the same in both. */
  ghost predicate OthersSame(a: Db, b: Db, user: int) {
    && (forall i :: i in a.scores && a.scores[i].user != user <==> i in b.scores && b.scores[i].user != user)
    && (forall i :: i in a.scores && a.scores[i].user != user ==>
          && a.scores[i] == b.scores[i]
          && (i in a.processed <==> i in b.processed)
          && (i in a.storedPp <==> i in b.storedPp)
          && (i in a.storedPp ==> a.storedPp[i] == b.storedPp[i]))
    && (forall r: TotalRow :: r.key.user != user ==> (r in a.totals <==> r in b.totals))
    && (forall r: PpRow :: r.key.user != user ==> (r in a.bests <==> r in b.bests))
    && (forall k: StatKey :: k.user != user ==> (k in a.stats <==> k in b.stats))
    && (forall k: StatKey :: k.user != user && k in a.stats ==> a.stats[k] == b.stats[k])
    && (forall k: MonthKey :: k.user != user ==> (k in a.monthly <==> k in b.monthly))
    && (forall k: MonthKey :: k.user != user && k in a.monthly ==> a.monthly[k] == b.monthly[k])
    && (forall k: PlayKey :: k.user != user ==> (k in a.plays <==> k in b.plays))
    && (forall k: PlayKey :: k.user != user && k in a.plays ==> a.plays[k] == b.plays[k])
  }

  lemma SameThrough(a: Db, b: Db, c: Db, user: int)
    requires OthersSame(a, b, user) && OthersSame(b, c, user)
    ensures OthersSame(a, c, user)
  {
  }

  lemma RemovalSparesOthers(db: Db, user: int, id: int)
    requires RowsOfOwners(db) && id in db.scores && db.scores[id].user == user
    ensures OthersSame(db, RemoveScore(db, id), user)
  {
  }

  lemma ClearingSparesOthers(db: Db, user: int)
    ensures OthersSame(db, ClearUser(db, user), user)
  {
  }

  lemma BatchSparesOthers(env: Env, db: Db, user: int)
    requires KeyedById(db)
    ensures OthersSame(ClearUser(db, user), WithBatch(env, db, user), user)
  {
    hide Survivors, RebuildAward, ClearUser;
    BatchIsOfUser(env, db, user);
    hide PpBest, BatchRows;
  }

  /** The batch holds rows of the user's surviving scores only. */
  lemma BatchIsOfUser(env: Env, db: Db, user: int)
    requires KeyedById(db)
    ensures var award := RebuildAward(env, db.storedPp);
      forall r :: r in BatchRows(award, PpBest(award, Survivors(db, user))) ==>
        r.key.user == user && r.scoreId in db.scores
  {
    hide Survivors, ProcessedScores, RebuildAward, PpBest;
    var award, list := RebuildAward(env, db.storedPp), Survivors(db, user);
    var best := PpBest(award, list);
    SurvivorsAreTheProcessedScores(db, user);
    ScoresKeyedById(db, user);
    forall r | r in BatchRows(award, best) ensures r.key.user == user && r.scoreId in db.scores {
      var k :| k in best && award(best[k]).Some? && r == PpRowFor(best[k], award(best[k]).value);
      PpBestIsFirstMax(award, list, k);
      var i := FirstMaxPpIsFirstBest(list, award, k);
      assert list[i] in list;
    }
  }

  lemma StatisticsSpareOthers(env: Env, db: Db, s: Score, length: int)
    requires PicksMember(env.tie)
    ensures OthersSame(db, StatisticsStep(env, db, s, length), s.user)
  {
    RowsOfOthersKept(env, db, s);
    hide StatsAfter, TotalsAfter, PlayCredit;
  }

  lemma RowsOfOthersKept(env: Env, db: Db, s: Score)
    requires PicksMember(env.tie)
    ensures forall r: TotalRow :: r.key.user != s.user ==>
      (r in db.totals <==> r in TotalsAfter(env, db.scores, db.totals, s))
  {
    RowsOfOthers(env, db.scores, db.totals, s);
    hide TotalsAfter;
    var after := TotalsAfter(env, db.scores, db.totals, s);
    var theirs, theirsAfter :=
      (set r | r in db.totals && r.key.user != s.user), (set r | r in after && r.key.user != s.user);
    assert theirs == theirsAfter;
    forall r: TotalRow | r.key.user != s.user ensures r in db.totals <==> r in after {
      assert (r in db.totals <==> r in theirs) && (r in after <==> r in theirsAfter);
    }
  }

  lemma {:induction false} FoldSparesOthers(env: Env, start: Db, list: seq<Score>, user: int)
    requires PicksMember(env.tie) && forall i :: 0 <= i < |list| ==> list[i].user == user
    ensures OthersSame(start, FoldStatistics(env, start, list), user)
  {
    hide StatisticsStep, OthersSame, PicksMember;
    if list == [] {
      NothingDiffers(start, user);
    } else {
      var n := |list| - 1;
      var before := FoldStatistics(env, start, list[..n]);
      FoldSparesOthers(env, start, list[..n], user);
      StatisticsSpareOthers(env, before, list[n], env.hitLength(list[n].beatmap));
      SameThrough(start, before, FoldStatistics(env, start, list), user);
    }
  }

  lemma NothingDiffers(db: Db, user: int)
    ensures OthersSame(db, db, user)
  {
  }

  lemma RebuildSparesOthers(env: Env, db: Db, user: int)
    requires KeyedById(db) && PicksMember(env.tie)
    ensures OthersSame(db, Rebuild(env, db, user), user)
  {
    hide OthersSame, KeyedById, PicksMember, Survivors, WithBatch, ClearUser, FoldStatistics, HasStatRows;
    if HasStatRows(db, user) {
      var cleared, batch := ClearUser(db, user), WithBatch(env, db, user);
      SurvivorsAreARun(db, user);
      ClearingSparesOthers(db, user);
      BatchSparesOthers(env, db, user);
      FoldSparesOthers(env, batch, Survivors(db, user), user);
      SameThrough(db, cleared, batch, user);
      SameThrough(db, batch, Rebuild(env, db, user), user);
    } else {
      NothingDiffers(db, user);
    }
  }

  lemma RemovalKeepsKeys(db: Db, id: int)
    requires KeyedById(db)
    ensures KeyedById(RemoveScore(db, id))
  {
  }

  /** Whoever's score it is, deleting it for a user leaves everything of every other user as it was. */
  lemma DeletionSparesOthers(env: Env, db: Db, user: int, id: int)
    requires KeyedById(db) && RowsOfOwners(db) && PicksMember(env.tie)
    ensures OthersSame(db, DeleteScore(env, db, user, id), user)
  {
    hide OthersSame, KeyedById, RowsOfOwners, PicksMember, Rebuild, RemoveScore, HasStatRows;
    if id in db.scores && db.scores[id].user == user && HasStatRows(RemoveScore(db, id), user) {
      RemovalKeepsKeys(db, id);
      RemovalSparesOthers(db, user, id);
      RebuildSparesOthers(env, RemoveScore(db, id), user);
      SameThrough(db, RemoveScore(db, id), DeleteScore(env, db, user, id), user);
    } else {
      NothingDiffers(db, user);
    }
  }

  // ----- the deleted score -----

  /** Each processed score of the user that stays has a statistics row for its mode. */
  ghost predicate StayingHaveStats(db: Db, user: int, id: int) {
    forall i :: i in db.scores && i in db.processed && i != id && db.scores[i].user == user ==>
      StatKey(user, db.scores[i].mode) in db.stats
  }

  lemma StayingIffStatRows(db: Db, user: int, id: int)
    ensures HasStatRows(RemoveScore(db, id), user) <==> StayingHaveStats(db, user, id)
  {
    var left := RemoveScore(db, id);
    if StayingHaveStats(db, user, id) {
      forall s | s in ProcessedScores(left, user) ensures StatKeyOf(s) in left.stats {
      }
    }
    if HasStatRows(left, user) {
      forall i | i in db.scores && i in db.processed && i != id && db.scores[i].user == user
        ensures StatKey(user, db.scores[i].mode) in db.stats
      {
        assert i in left.scores && i in left.processed && left.scores[i] == db.scores[i];
        assert left.scores[i] in ProcessedScores(left, user);
      }
    }
  }

  lemma {:induction false} FoldRefersToList(env: Env, start: Db, list: seq<Score>)
    requires PicksMember(env.tie)
    ensures var after := FoldStatistics(env, start, list);
      && (forall r :: r in after.totals ==> r in start.totals || exists i :: 0 <= i < |list| && r.scoreId == list[i].id)
      && after.bests == start.bests && after.scores == start.scores && after.storedPp == start.storedPp
      && after.processed == start.processed
  {
    hide StatsAfter, TotalsAfter, MonthlyAfter, PlaysAfter, PlayCredit, PicksMember;
    if list != [] {
      var n := |list| - 1;
      var before := FoldStatistics(env, start, list[..n]);
      FoldRefersToList(env, start, list[..n]);
      RowsOfOthers(env, before.scores, before.totals, list[n]);
      forall r | r in FoldStatistics(env, start, list).totals && r !in start.totals
        ensures exists i :: 0 <= i < |list| && r.scoreId == list[i].id
      {
        if r in before.totals {
          var i :| 0 <= i < n && r.scoreId == list[..n][i].id;
          assert list[i] == list[..n][i];
        } else {
          assert r.scoreId == list[n].id;
        }
      }
    }
  }

  /**
   * Deleting an owned score: if each processed score of the user that stays has a statistics row, the score is gone
   * afterwards with every row that refers to it; all other scores, their stored pp and their processed marks stay, and
   * the user's rows refer to scores that are still there. Otherwise the rebuild fails, and nothing changes.
   */
  lemma OwnedScoreGoes(env: Env, db: Db, user: int, id: int)
    requires id in db.scores && db.scores[id].user == user
    requires KeyedById(db) && PicksMember(env.tie)
    ensures var after := DeleteScore(env, db, user, id);
      if !StayingHaveStats(db, user, id) then after == db
      else
        && after.scores == db.scores - {id} && after.processed == db.processed - {id}
        && after.storedPp == db.storedPp - {id}
        && (forall r :: r in after.totals ==> r.scoreId != id)
        && (forall r :: r in after.bests ==> r.scoreId != id)
        && (forall r :: r in after.totals && r.key.user == user ==> r.scoreId in after.scores)
        && (forall r :: r in after.bests && r.key.user == user ==> r.scoreId in after.scores)
  {
    hide StayingHaveStats, HasStatRows, Survivors, KeyedById, PicksMember, BatchRows, PpBest, RebuildAward,
      FoldStatistics, Rebuild;
    StayingIffStatRows(db, user, id);
    if StayingHaveStats(db, user, id) {
      RemovalKeepsKeys(db, id);
      RebuiltFromSurvivors(env, RemoveScore(db, id), user);
    }
  }

  lemma RebuiltFromSurvivors(env: Env, left: Db, user: int)
    requires KeyedById(left) && PicksMember(env.tie) && HasStatRows(left, user)
    ensures var after := Rebuild(env, left, user);
      && after.scores == left.scores && after.processed == left.processed && after.storedPp == left.storedPp
      && (forall r :: r in after.totals ==> r in left.totals || r.scoreId in left.scores)
      && (forall r :: r in after.bests ==> r in left.bests || r.scoreId in left.scores)
      && (forall r :: r in after.totals && r.key.user == user ==> r.scoreId in left.scores)
      && (forall r :: r in after.bests && r.key.user == user ==> r.scoreId in left.scores)
  {
    hide HasStatRows, Survivors, KeyedById, PicksMember, BatchRows, PpBest, RebuildAward, FoldStatistics;
    var batch, list := WithBatch(env, left, user), Survivors(left, user);
    SurvivorsAreARun(left, user);
    BatchIsOfUser(env, left, user);
    FoldRefersToList(env, batch, list);
    assert forall i :: 0 <= i < |list| ==> list[i].id in left.scores;
  }


  // ----- clearing and the order of the rebuild -----

  /** Clearing zeroes every column of the user's statistics, with level 1, and leaves the user no row and no counter. */
  lemma ClearedColumns(db: Db, user: int)
    ensures var after := ClearUser(db, user);
      && after.stats.Keys == db.stats.Keys
      && (forall k :: k in after.stats && k.user == user ==> Zeroed(after.stats[k]))
      && (forall r :: r in after.totals ==> r.key.user != user) && (forall r :: r in after.bests ==> r.key.user != user)
      && (forall k :: k in after.monthly ==> k.user != user) && (forall k :: k in after.plays ==> k.user != user)
      && after.scores == db.scores && after.storedPp == db.storedPp && after.processed == db.processed
  {
  }

  ghost predicate Zeroed(st: Stats) {
    && st.count300 == st.count100 == st.count50 == st.countMiss == st.totalHits == 0
    && st.pp == st.hitAccuracy == 0.0 && st.rankedScore == st.totalScore == 0 && st.levelCurrent == 1.0
    && st.maximumCombo == st.playCount == st.playTime == st.replaysWatched == 0
    && st.grades.Keys == {XH, X, SH, S, A, B, C, D} && forall g :: g in st.grades ==> st.grades[g] == 0
  }

  /** The rebuild replays every processed score of the user once, by end time and then by id. */
  lemma ReplayedInOrder(db: Db, user: int)
    requires KeyedById(db)
    ensures var list := Survivors(db, user);
      && (forall i :: 0 <= i < |list| ==> list[i].user == user && list[i].id in db.processed)
      && (forall i :: 0 <= i < |list| ==> list[i].id in db.scores && db.scores[list[i].id] == list[i])
      && (forall id :: id in db.scores && id in db.processed && db.scores[id].user == user ==> db.scores[id] in list)
      && (forall i, j :: 0 <= i < j < |list| ==>
            list[i].endedAt < list[j].endedAt ||
            (list[i].endedAt == list[j].endedAt && list[i].id < list[j].id))
  {
    hide Survivors;
    var list := Survivors(db, user);
    SurvivorsAreTheProcessedScores(db, user);
    forall i | 0 <= i < |list| ensures list[i].user == user && list[i].id in db.processed &&
      list[i].id in db.scores && db.scores[list[i].id] == list[i]
    {
      assert list[i] in list;
    }
    forall i, j | 0 <= i < j < |list|
      ensures list[i].endedAt < list[j].endedAt ||
              (list[i].endedAt == list[j].endedAt && list[i].id < list[j].id)
    {
      assert SCORE_ORDER(list[i], list[j]) && list[i] != list[j];
    }
  }
}
