/** The pp rows and the cached pp and accuracy, against the history of awarded plays. */
module PpCache {
  import opened Wrappers
  import opened ScoreModel
  import opened PpArithmetic
  import opened ScoreEngine
  import opened EngineRuns

  // ----- the best awarded play of a key -----

  /** The first play of `key` to reach the highest awarded pp. */
  function FirstMaxPp(list: seq<Score>, award: Score -> Option<real>, key: Key): Option<Score> {
    if list == [] then None
    else
      var n := |list| - 1;
      var before := FirstMaxPp(list[..n], award, key);
      if KeyOf(list[n]) != key || award(list[n]).None? then before
      else if before.None? || award(before.value).None? || award(list[n]).value > award(before.value).value
      then Some(list[n])
      else before
  }

  ghost predicate Awarded(s: Score, award: Score -> Option<real>, key: Key) { KeyOf(s) == key && award(s).Some? }

  ghost predicate FirstBest(list: seq<Score>, award: Score -> Option<real>, key: Key, i: nat) {
    && i < |list| && Awarded(list[i], award, key)
    && (forall j :: 0 <= j < |list| && Awarded(list[j], award, key) ==> award(list[j]).value <= award(list[i]).value)
    && (forall j :: 0 <= j < i && Awarded(list[j], award, key) ==> award(list[j]).value < award(list[i]).value)
  }

  /** FirstMaxPp finds a play exactly when there is an awarded one, and it is the first of the best. */
  lemma {:induction false} FirstMaxPpIsFirstBest(list: seq<Score>, award: Score -> Option<real>, key: Key)
      returns (i: nat)
    ensures FirstMaxPp(list, award, key).None? <==> forall j :: 0 <= j < |list| ==> !Awarded(list[j], award, key)
    ensures FirstMaxPp(list, award, key).Some? ==>
      FirstBest(list, award, key, i) && FirstMaxPp(list, award, key) == Some(list[i])
  {
    i := 0;
    if list != [] {
      var n := |list| - 1;
      i := FirstMaxPpIsFirstBest(list[..n], award, key);
      assert forall j :: 0 <= j < n ==> list[..n][j] == list[j];
      if FirstMaxPp(list, award, key) == Some(list[n]) && FirstMaxPp(list[..n], award, key) != Some(list[n]) { i := n; }
    }
  }

  /** The one row a key should have. */
  ghost function RowOfBest(list: seq<Score>, award: Score -> Option<real>, key: Key): set<PpRow> {
    var best := FirstMaxPp(list, award, key);
    if best.Some? && award(best.value).Some? then {PpRowFor(best.value, award(best.value).value)} else {}
  }

  // ----- live runs -----

  /** What each score of a run is awarded: its stored pp if it has one, else a fresh calculation. */
  function LiveAward(env: Env, start: Db): Score -> Option<real> {
    (s: Score) => AwardedPp(env, StoredPp(start.storedPp, s.id), s)
  }

  lemma PpStepRows(env: Env, db: Db, s: Score, key: Key)
    ensures PpRowsOf(ScorePpStep(env, db, s).bests, key) ==
      if KeyOf(s) == key then PpRowsOf(BestsAfter(db.bests, s, AwardedPp(env, StoredPp(db.storedPp, s.id), s)), key)
      else PpRowsOf(db.bests, key)
    ensures ProcessUserStep(env, db, s).bests ==
      if StatKeyOf(s) in db.stats then ScorePpStep(env, db, s).bests else db.bests
  {
    hide StatsAfter, TotalsAfter, MonthlyAfter, PlaysAfter, PlayCredit;
  }

  lemma {:induction false} StoredPpUntouched(env: Env, start: Db, list: seq<Score>, id: int)
    requires forall i :: 0 <= i < |list| ==> list[i].id != id
    ensures StoredPp(LiveRun(env, start, list).storedPp, id) == StoredPp(start.storedPp, id)
  {
    hide StatsAfter, TotalsAfter, MonthlyAfter, PlaysAfter, PlayCredit, BestsAfter, AwardedPp;
    if list != [] { StoredPpUntouched(env, start, list[..|list| - 1], id); }
  }

  lemma BestRowReplaced(rows: set<PpRow>, s: Score, awarded: Option<real>, old_: set<PpRow>, pp: real)
    requires rows == old_ && (old_ == {} || exists r :: old_ == {r} && r.pp == pp)
    requires forall r :: r in rows ==> r.key == KeyOf(s)
    ensures PpRowsOf(BestsAfter(rows, s, awarded), KeyOf(s)) ==
      if awarded.Some? && (old_ == {} || awarded.value > pp) then {PpRowFor(s, awarded.value)} else old_
  {
    assert PpRowsOf(rows, KeyOf(s)) == rows;
  }

  /** BestsAfter looks only at the rows of the score's key. */
  lemma BestsAfterIsLocal(bests: set<PpRow>, s: Score, awarded: Option<real>)
    ensures PpRowsOf(BestsAfter(bests, s, awarded), KeyOf(s)) ==
            PpRowsOf(BestsAfter(PpRowsOf(bests, KeyOf(s)), s, awarded), KeyOf(s))
  {
    var rows := PpRowsOf(bests, KeyOf(s));
    assert PpRowsOf(rows, KeyOf(s)) == rows;
  }

  /** After any run from a table without rows for `key`: exactly one row if a play was awarded pp, the first best. */
  lemma {:induction false} LiveBests(env: Env, start: Db, list: seq<Score>, key: Key)
    requires Runnable(start, list) && PpRowsOf(start.bests, key) == {}
    ensures PpRowsOf(LiveRun(env, start, list).bests, key) == RowOfBest(list, LiveAward(env, start), key)
  {
    hide ProcessUserStep, AwardedPp, BestsAfter, ScorePpStep;
    if list != [] {
      var n := |list| - 1;
      var s, before, award := list[n], LiveRun(env, start, list[..n]), LiveAward(env, start);
      LiveBests(env, start, list[..n], key);
      LiveRunTables(env, start, list[..n]);
      StoredPpUntouched(env, start, list[..n], s.id);
      PpStepRows(env, before, s, key);
      if KeyOf(s) == key {
        var rows := PpRowsOf(before.bests, key);
        BestsAfterIsLocal(before.bests, s, award(s));
        FirstMaxIsAwarded(list[..n], award, key);
        var best := FirstMaxPp(list[..n], award, key);
        if best.Some? {
          assert rows == {PpRowFor(best.value, award(best.value).value)};
          BestRowReplaced(rows, s, award(s), rows, award(best.value).value);
        } else {
          BestRowReplaced(rows, s, award(s), rows, 0.0);
        }
      }
    }
  }

  lemma {:induction false} FirstMaxIsAwarded(list: seq<Score>, award: Score -> Option<real>, key: Key)
    ensures FirstMaxPp(list, award, key).Some? ==> Awarded(FirstMaxPp(list, award, key).value, award, key)
  {
    var i := FirstMaxPpIsFirstBest(list, award, key);
  }

  // ----- the cache -----

  /** The statistics row carries the pp and accuracy computed from the current pp rows. */
  ghost predicate CacheAgrees(env: Env, db: Db, k: StatKey) {
    k in db.stats ==>
      db.stats[k].pp == UserPp(db.bests, k.user, k.mode, env.negative) &&
      db.stats[k].hitAccuracy == UserAccuracy(db.bests, k.user, k.mode)
  }

  lemma UserRowsLocal(bests: set<PpRow>, s: Score, awarded: Option<real>, k: StatKey)
    requires k != StatKeyOf(s)
    ensures RowsOfUser(BestsAfter(bests, s, awarded), k.user, k.mode) == RowsOfUser(bests, k.user, k.mode)
  {
  }

  lemma PpStepLocal(env: Env, db: Db, s: Score, k: StatKey)
    requires k != StatKeyOf(s) || !s.passed || !HasPp(env, s)
    ensures RowsOfUser(ScorePpStep(env, db, s).bests, k.user, k.mode) == RowsOfUser(db.bests, k.user, k.mode)
  {
    hide BestsAfter, AwardedPp;
    if k != StatKeyOf(s) { UserRowsLocal(db.bests, s, AwardedPp(env, StoredPp(db.storedPp, s.id), s), k); }
  }

  lemma StepStats(env: Env, db: Db, s: Score, k: StatKey)
    requires StatKeyOf(s) in db.stats && k in db.stats
    ensures var after, bests := ProcessUserStep(env, db, s).stats, ScorePpStep(env, db, s).bests;
      && after.Keys == db.stats.Keys
      && if k == StatKeyOf(s) && s.passed && HasPp(env, s) then
           after[k].pp == UserPp(bests, k.user, k.mode, env.negative) &&
           after[k].hitAccuracy == UserAccuracy(bests, k.user, k.mode)
         else after[k].pp == db.stats[k].pp && after[k].hitAccuracy == db.stats[k].hitAccuracy
  {
    hide Improvement, IsRanked, TotalsAfter, MonthlyAfter, PlaysAfter, PlayCredit, BestsAfter, AwardedPp, UserPp,
      UserAccuracy;
  }

  /** No transaction leaves a cached value behind the table. */
  lemma StepKeepsCache(env: Env, db: Db, s: Score, k: StatKey)
    requires CacheAgrees(env, db, k)
    ensures CacheAgrees(env, ProcessUserStep(env, db, s), k)
  {
    hide ScorePpStep, HasPp, StatsAfter, TotalsAfter, MonthlyAfter, PlaysAfter, PlayCredit;
    if StatKeyOf(s) in db.stats {
      PpStepRows(env, db, s, KeyOf(s));
      if k in db.stats {
        StepStats(env, db, s, k);
        if k != StatKeyOf(s) || !s.passed || !HasPp(env, s) { PpStepLocal(env, db, s, k); }
      } else {
        StepStats(env, db, s, StatKeyOf(s));
      }
    }
  }

  /** Over a whole run: one row per awarded key, namely the first best play, and a cache that never goes stale. */
  lemma {:induction false} PpCacheAgreement(env: Env, start: Db, list: seq<Score>, key: Key)
    requires Runnable(start, list) && PpRowsOf(start.bests, key) == {}
    requires CacheAgrees(env, start, StatKey(key.user, key.mode))
    ensures CacheAgrees(env, LiveRun(env, start, list), StatKey(key.user, key.mode))
    ensures PpRowsOf(LiveRun(env, start, list).bests, key) == RowOfBest(list, LiveAward(env, start), key)
  {
    hide ProcessUserStep, CacheAgrees, PpRowsOf;
    LiveBests(env, start, list, key);
    if list != [] {
      PpCacheAgreement(env, start, list[..|list| - 1], key);
      StepKeepsCache(env, LiveRun(env, start, list[..|list| - 1]), list[|list| - 1], StatKey(key.user, key.mode));
    }
  }

  /** A user without pp rows has 0 pp and 0 accuracy, so a fresh or reset record starts out agreeing. */
  lemma NoRowsNoPp(bests: set<PpRow>, user: int, mode: GameMode, negative: set<int>)
    requires RowsOfUser(bests, user, mode) == {}
    ensures UserPp(bests, user, mode, negative) == 0.0 && UserAccuracy(bests, user, mode) == 0.0
  {
  }
}
