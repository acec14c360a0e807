/** The sliding-window limiter: one run of the Redis script is one atomic step. Times are whole milliseconds. */
module RateLimit {
  import opened Wrappers
  import opened Ordering

  datatype Rate = Rate(limit: int, interval: nat)

  const BY_INTERVAL: (Rate, Rate) -> bool := (x: Rate, y: Rate) => x.interval <= y.interval

  /** The sorted set of one key, as the time of each member, and the time at which Redis drops the key. */
  datatype Bucket = Bucket(entries: seq<int>, expiresAt: Option<int>)

  const EMPTY := Bucket([], None)
  const EXPIRY_MARGIN := 10000

  /** ZCOUNT. */
  function Count(entries: seq<int>, low: int, high: int): nat {
    if entries == [] then 0
    else
      var n := |entries| - 1;
      Count(entries[..n], low, high) + (if low <= entries[n] <= high then 1 else 0)
  }

  /** ZREMRANGEBYSCORE from 0. */
  function Prune(entries: seq<int>, upTo: int): seq<int> {
    if entries == [] then []
    else
      var n := |entries| - 1;
      Prune(entries[..n], upTo) + (if 0 <= entries[n] <= upTo then [] else [entries[n]])
  }

  function Live(b: Bucket, now: int): Bucket {
    if b.expiresAt.Some? && b.expiresAt.value <= now then EMPTY else b
  }

  function Repeat(now: int, weight: nat): seq<int> { seq(weight, _ => now) }

  predicate Fits(rate: Rate, count: nat, weight: nat) { count + weight <= rate.limit }

  /** Every rate has room, counting both ends of its window in what pruning left. */
  predicate Admits(rates: seq<Rate>, weight: nat, entries: seq<int>, now: int) {
    forall i :: 0 <= i < |rates| ==> Fits(rates[i], Count(entries, now - rates[i].interval, now), weight)
  }

  function Pruned(rates: seq<Rate>, b: Bucket, now: int): Bucket
    requires rates != []
  {
    var live := Live(b, now);
    live.(entries := Prune(live.entries, now - rates[|rates| - 1].interval))
  }

  /** The script. */
  function ScriptStep(rates: seq<Rate>, weight: nat, b: Bucket, now: int): (Bucket, bool)
    requires rates != []
  {
    var pruned := Pruned(rates, b, now);
    if Admits(rates, weight, pruned.entries, now)
    then (Bucket(pruned.entries + Repeat(now, weight), Some(now + rates[|rates| - 1].interval + EXPIRY_MARGIN)), true)
    else (pruned, false)
  }

  class RedisRateLimiter {
    const rates: seq<Rate>
    const weight: nat
    var bucket: Bucket

    constructor (rates: seq<Rate>, weight: nat)
      ensures this.rates == SortBy(rates, BY_INTERVAL) && this.weight == weight && bucket == EMPTY
      ensures SortedBy(this.rates, BY_INTERVAL) && multiset(this.rates) == multiset(rates)
    {
      this.rates, this.weight, bucket := SortBy(rates, BY_INTERVAL), weight, EMPTY;
      SortByIsSorted(rates, BY_INTERVAL);
    }

    /** Without rates there is no longest interval, and the call raises. */
    method TryAcquire(now: int) returns (decision: Option<bool>)
      modifies this
      ensures decision.None? <==> rates == []
      ensures rates == [] ==> bucket == old(bucket)
      ensures rates != [] ==> (bucket, decision.value) == ScriptStep(rates, weight, old(bucket), now)
      ensures decision == Some(true) ==> bucket.expiresAt == Some(now + rates[|rates| - 1].interval + 10000)
    {
      hide Prune, Live, SortedBy;
      if rates == [] { return None; }
      var maxInterval := rates[|rates| - 1].interval;
      bucket := Live(bucket, now);
      bucket := bucket.(entries := Prune(bucket.entries, now - maxInterval));
      ghost var pruned := bucket.entries;
      for i := 0 to |rates|
        invariant bucket == Pruned(rates, old(bucket), now)
        invariant forall j :: 0 <= j < i ==> Fits(rates[j], Count(pruned, now - rates[j].interval, now), weight)
      {
        var count := Count(bucket.entries, now - rates[i].interval, now);
        if count + weight > rates[i].limit {
          assert !Fits(rates[i], Count(pruned, now - rates[i].interval, now), weight);
          return Some(false);
        }
      }
      for i := 0 to weight
        invariant bucket == Pruned(rates, old(bucket), now).(entries := pruned + Repeat(now, i))
      {
        assert Repeat(now, i + 1) == Repeat(now, i) + [now];
        bucket := bucket.(entries := bucket.entries + [now]);
      }
      bucket := bucket.(expiresAt := Some(now + maxInterval + EXPIRY_MARGIN));
      decision := Some(true);
    }
  }

  // ----- the full history -----

  /** Decision on everything ever accepted: the longest window is open at its old end, shorter ones are closed. */
  predicate AdmitsOnHistory(rates: seq<Rate>, weight: nat, history: seq<int>, now: int)
    requires rates != []
  {
    forall i :: 0 <= i < |rates| ==>
      Fits(rates[i], Count(history, WindowStart(rates, rates[i], now), now), weight)
  }

  function WindowStart(rates: seq<Rate>, rate: Rate, now: int): int
    requires rates != []
  {
    if rate.interval == rates[|rates| - 1].interval then now - rate.interval + 1 else now - rate.interval
  }

  /** The times of everything accepted over calls at the given times. */
  function History(rates: seq<Rate>, weight: nat, clock: seq<int>): seq<int>
    requires rates != []
  {
    if clock == [] then []
    else
      var n := |clock| - 1;
      var before := History(rates, weight, clock[..n]);
      if AdmitsOnHistory(rates, weight, before, clock[n]) then before + Repeat(clock[n], weight) else before
  }

  function BucketAfter(rates: seq<Rate>, weight: nat, clock: seq<int>): Bucket
    requires rates != []
  {
    if clock == [] then EMPTY
    else ScriptStep(rates, weight, BucketAfter(rates, weight, clock[..|clock| - 1]), clock[|clock| - 1]).0
  }

  ghost predicate Clock(clock: seq<int>) {
    && (forall i :: 0 <= i < |clock| ==> clock[i] >= 0)
    && (forall i, j :: 0 <= i < j < |clock| ==> clock[i] <= clock[j])
  }

  // ----- counting -----

  lemma {:induction false} CountAppend(s: seq<int>, t: seq<int>, low: int, high: int)
    ensures Count(s + t, low, high) == Count(s, low, high) + Count(t, low, high)
  {
    if t == [] {
      assert s + t == s;
    } else {
      var n := |t| - 1;
      assert (s + t)[..|s + t| - 1] == s + t[..n];
      CountAppend(s, t[..n], low, high);
    }
  }

  lemma {:induction false} CountRepeat(now: int, weight: nat, low: int, high: int)
    ensures Count(Repeat(now, weight), low, high) == if low <= now <= high then weight else 0
  {
    if weight > 0 {
      assert Repeat(now, weight)[..weight - 1] == Repeat(now, weight - 1);
      CountRepeat(now, weight - 1, low, high);
    }
  }

  lemma {:induction false} CountNarrower(s: seq<int>, low: int, high: int, low': int, high': int)
    requires low' <= low && high <= high'
    ensures Count(s, low, high) <= Count(s, low', high')
  {
    if s != [] { CountNarrower(s[..|s| - 1], low, high, low', high'); }
  }

  /** Times beyond the newest entry do not matter. */
  lemma {:induction false} CountUpTo(s: seq<int>, low: int, high: int, newest: int)
    requires newest <= high && forall i :: 0 <= i < |s| ==> s[i] <= newest
    ensures Count(s, low, high) == Count(s, low, newest)
  {
    if s != [] { CountUpTo(s[..|s| - 1], low, high, newest); }
  }

  lemma CountSnoc(s: seq<int>, x: int, low: int, high: int)
    ensures Count(s + [x], low, high) == Count(s, low, high) + (if low <= x <= high then 1 else 0)
  {
    assert (s + [x])[..|s|] == s;
  }

  lemma {:induction false} CountPruned(s: seq<int>, upTo: int, low: int, high: int)
    requires forall i :: 0 <= i < |s| ==> s[i] >= 0
    ensures Count(Prune(s, upTo), low, high) == Count(s, if low <= upTo then upTo + 1 else low, high)
  {
    if s != [] {
      var n := |s| - 1;
      CountPruned(s[..n], upTo, low, high);
      var rest := Prune(s[..n], upTo);
      CountSnoc(rest, s[n], low, high);
      assert rest + [] == rest;
    }
  }

  lemma {:induction false} PrunedWithin(s: seq<int>, upTo: int, newest: int)
    requires Within(s, newest)
    ensures Within(Prune(s, upTo), newest)
  {
    if s != [] { PrunedWithin(s[..|s| - 1], upTo, newest); }
  }

  lemma {:induction false} CountNone(s: seq<int>, low: int, high: int)
    requires forall i :: 0 <= i < |s| ==> s[i] < low
    ensures Count(s, low, high) == 0
  {
    if s != [] { CountNone(s[..|s| - 1], low, high); }
  }

  // ----- pruning and expiry lose nothing that counts -----

  ghost predicate Within(s: seq<int>, newest: int) { forall i :: 0 <= i < |s| ==> 0 <= s[i] <= newest }

  /** At `time`, bucket and history count alike in every window that pruning has not reached. */
  ghost predicate Mirrors(b: Bucket, history: seq<int>, longest: nat, time: int) {
    && Within(b.entries, time) && Within(history, time)
    && (forall low, high :: low > time - longest ==> Count(b.entries, low, high) == Count(history, low, high))
    && (b.expiresAt.Some? ==> Within(history, b.expiresAt.value - longest - EXPIRY_MARGIN))
  }

  lemma LiveMirrors(b: Bucket, history: seq<int>, longest: nat, time: int, now: int)
    requires Mirrors(b, history, longest, time) && time <= now
    ensures Mirrors(Live(b, now), history, longest, now)
  {
    hide Count;
    var live := Live(b, now);
    if live != b {
      forall low, high | low > now - longest ensures Count(live.entries, low, high) == Count(history, low, high) {
        CountNone(history, low, high);
        CountNone([], low, high);
      }
    }
  }

  lemma PrunedCounts(live: Bucket, history: seq<int>, longest: nat, now: int, low: int, high: int)
    requires Mirrors(live, history, longest, now) && low >= now - longest
    ensures Count(Prune(live.entries, now - longest), low, high) ==
            Count(history, if low == now - longest then low + 1 else low, high)
    ensures Within(Prune(live.entries, now - longest), now)
  {
    hide Count;
    CountPruned(live.entries, now - longest, low, high);
    PrunedWithin(live.entries, now - longest, now);
  }

  /** One script run and one decision on the history agree, and bucket and history keep counting alike. */
  lemma StepMirrors(rates: seq<Rate>, weight: nat, b: Bucket, history: seq<int>, time: int, now: int)
    requires rates != [] && SortedBy(rates, BY_INTERVAL) && 0 <= time <= now
    requires Mirrors(b, history, rates[|rates| - 1].interval, time)
    ensures var (after, admitted) := ScriptStep(rates, weight, b, now);
      && admitted == AdmitsOnHistory(rates, weight, history, now)
      && Mirrors(after, if admitted then history + Repeat(now, weight) else history, rates[|rates| - 1].interval, now)
  {
    hide Count, Prune;
    var longest := rates[|rates| - 1].interval;
    var live, pruned := Live(b, now), Pruned(rates, b, now);
    LiveMirrors(b, history, longest, time, now);
    forall i | 0 <= i < |rates|
      ensures Count(pruned.entries, now - rates[i].interval, now) ==
              Count(history, WindowStart(rates, rates[i], now), now)
    {
      assert i < |rates| - 1 ==> BY_INTERVAL(rates[i], rates[|rates| - 1]);
      PrunedCounts(live, history, longest, now, now - rates[i].interval, now);
    }
    forall low, high | low > now - longest
      ensures Count(pruned.entries, low, high) == Count(history, low, high)
    {
      PrunedCounts(live, history, longest, now, low, high);
    }
    PrunedCounts(live, history, longest, now, now - longest, now);
    if Admits(rates, weight, pruned.entries, now) {
      AcceptedMirrors(pruned.entries, history, longest, now, weight);
    }
  }

  lemma AcceptedMirrors(entries: seq<int>, history: seq<int>, longest: nat, now: int, weight: nat)
    requires 0 <= now && Within(entries, now) && Within(history, now)
    requires forall low, high :: low > now - longest ==> Count(entries, low, high) == Count(history, low, high)
    ensures Mirrors(Bucket(entries + Repeat(now, weight), Some(now + longest + EXPIRY_MARGIN)),
                    history + Repeat(now, weight), longest, now)
  {
    hide Count;
    forall low, high | low > now - longest
      ensures Count(entries + Repeat(now, weight), low, high) == Count(history + Repeat(now, weight), low, high)
    {
      CountAppend(entries, Repeat(now, weight), low, high);
      CountAppend(history, Repeat(now, weight), low, high);
    }
  }

  lemma {:induction false} RunMirrors(rates: seq<Rate>, weight: nat, clock: seq<int>)
    requires rates != [] && SortedBy(rates, BY_INTERVAL) && Clock(clock)
    ensures Mirrors(BucketAfter(rates, weight, clock), History(rates, weight, clock), rates[|rates| - 1].interval,
                    if clock == [] then 0 else clock[|clock| - 1])
  {
    hide AdmitsOnHistory, ScriptStep, Count;
    if clock != [] {
      var n := |clock| - 1;
      RunMirrors(rates, weight, clock[..n]);
      StepMirrors(rates, weight, BucketAfter(rates, weight, clock[..n]), History(rates, weight, clock[..n]),
                  if n == 0 then 0 else clock[n - 1], clock[n]);
    }
  }

  /** Over any run with a non-decreasing clock, the next decision is the decision on the full accepted history. */
  lemma DecisionsMatchHistory(rates: seq<Rate>, weight: nat, clock: seq<int>, now: int)
    requires rates != [] && SortedBy(rates, BY_INTERVAL) && Clock(clock + [now])
    ensures ScriptStep(rates, weight, BucketAfter(rates, weight, clock), now).1 ==
            AdmitsOnHistory(rates, weight, History(rates, weight, clock), now)
  {
    hide AdmitsOnHistory, ScriptStep, Count, History, BucketAfter, Mirrors;
    assert forall i :: 0 <= i < |clock| ==> clock[i] == (clock + [now])[i];
    assert (clock + [now])[|clock|] == now;
    assert Clock(clock);
    RunMirrors(rates, weight, clock);
    StepMirrors(rates, weight, BucketAfter(rates, weight, clock), History(rates, weight, clock),
                if clock == [] then 0 else clock[|clock| - 1], now);
  }

  // ----- safety -----

  /** Decisions on the full history keep every window (t - interval, t] of every rate within its limit, if not empty. */
  lemma {:induction false} WindowsStayWithinLimits(
      rates: seq<Rate>, weight: nat, clock: seq<int>, rate: Rate, t: int)
    requires rates != [] && Clock(clock) && rate in rates
    ensures var accepted := Count(History(rates, weight, clock), t - rate.interval + 1, t);
      accepted == 0 || accepted <= rate.limit
    ensures Within(History(rates, weight, clock), if clock == [] then 0 else clock[|clock| - 1])
  {
    hide Count, AdmitsOnHistory;
    if clock == [] {
      CountNone([], t - rate.interval + 1, t);
    } else {
      var n := |clock| - 1;
      var now, before := clock[n], History(rates, weight, clock[..n]);
      WindowsStayWithinLimits(rates, weight, clock[..n], rate, t);
      if AdmitsOnHistory(rates, weight, before, now) {
        AdmittedStaysWithinLimit(rates, weight, before, now, rate, t);
      }
    }
  }

  lemma AdmittedStaysWithinLimit(
      rates: seq<Rate>, weight: nat, before: seq<int>, now: int, rate: Rate, t: int)
    requires rates != [] && rate in rates && Within(before, now) && AdmitsOnHistory(rates, weight, before, now)
    requires var accepted := Count(before, t - rate.interval + 1, t); accepted == 0 || accepted <= rate.limit
    ensures var accepted := Count(before + Repeat(now, weight), t - rate.interval + 1, t);
      accepted == 0 || accepted <= rate.limit
  {
    hide Count;
    CountAppend(before, Repeat(now, weight), t - rate.interval + 1, t);
    CountRepeat(now, weight, t - rate.interval + 1, t);
    if t - rate.interval + 1 <= now <= t {
      var i :| 0 <= i < |rates| && rates[i] == rate;
      CountUpTo(before, t - rate.interval + 1, t, now);
      CountNarrower(before, t - rate.interval + 1, now, WindowStart(rates, rate, now), now);
      assert Fits(rates[i], Count(before, WindowStart(rates, rates[i], now), now), weight);
    }
  }

  // ----- the log of the script itself -----

  /** What the script, deciding on its own pruned and expiring set, has accepted. */
  function Accepted(rates: seq<Rate>, weight: nat, clock: seq<int>): seq<int>
    requires rates != []
  {
    if clock == [] then []
    else
      var n := |clock| - 1;
      Accepted(rates, weight, clock[..n]) +
      if ScriptStep(rates, weight, BucketAfter(rates, weight, clock[..n]), clock[n]).1
      then Repeat(clock[n], weight) else []
  }

  lemma {:induction false} AcceptedIsHistory(rates: seq<Rate>, weight: nat, clock: seq<int>)
    requires rates != [] && SortedBy(rates, BY_INTERVAL) && Clock(clock)
    ensures Accepted(rates, weight, clock) == History(rates, weight, clock)
  {
    hide ScriptStep, AdmitsOnHistory, BucketAfter;
    if clock != [] {
      var n := |clock| - 1;
      AcceptedIsHistory(rates, weight, clock[..n]);
      assert clock[..n] + [clock[n]] == clock;
      DecisionsMatchHistory(rates, weight, clock[..n], clock[n]);
    }
  }

  /**
   * For every set of rates, every weight and every run with a non-decreasing clock: what the script accepted in any
   * window (t - interval, t] of any rate is within that rate's limit (or nothing was accepted there).
   */
  lemma AcceptedStaysWithinLimits(rates: seq<Rate>, weight: nat, clock: seq<int>, rate: Rate, t: int)
    requires rates != [] && SortedBy(rates, BY_INTERVAL) && Clock(clock) && rate in rates
    ensures var accepted := Count(Accepted(rates, weight, clock), t - rate.interval + 1, t);
      accepted == 0 || accepted <= rate.limit
  {
    hide Count, Accepted, History;
    AcceptedIsHistory(rates, weight, clock);
    WindowsStayWithinLimits(rates, weight, clock, rate, t);
  }

  // ----- nothing that fits is rejected -----

  /** What counts is how many of the times lie between the two, both included. */
  lemma {:induction false} CountIsCardinality(s: seq<int>, low: int, high: int)
    ensures Count(s, low, high) == |set i | 0 <= i < |s| && low <= s[i] <= high|
  {
    var all := set i | 0 <= i < |s| && low <= s[i] <= high;
    if s == [] {
      assert all == {};
    } else {
      var n := |s| - 1;
      CountIsCardinality(s[..n], low, high);
      var before := set i | 0 <= i < n && low <= s[..n][i] <= high;
      assert all == before + if low <= s[n] <= high then {n} else {};
    }
  }

  /** The accepted requests of a rate's window: the longest interval is open at its old end, the others are closed. */
  function InWindow(rates: seq<Rate>, accepted: seq<int>, rate: Rate, now: int): nat {
    if forall q :: q in rates ==> q.interval <= rate.interval then Count(accepted, now - rate.interval + 1, now)
    else Count(accepted, now - rate.interval, now)
  }

  /** After any run with a non-decreasing clock, a call is admitted exactly when no rate's window would overflow. */
  lemma AdmittedIffFits(rates: seq<Rate>, weight: nat, clock: seq<int>, now: int)
    requires rates != [] && SortedBy(rates, BY_INTERVAL) && Clock(clock + [now])
    ensures ScriptStep(rates, weight, BucketAfter(rates, weight, clock), now).1 <==>
      forall rate :: rate in rates ==>
        InWindow(rates, Accepted(rates, weight, clock), rate, now) + weight <= rate.limit
  {
    hide ScriptStep, Count, History, BucketAfter, Accepted;
    assert forall i :: 0 <= i < |clock| ==> clock[i] == (clock + [now])[i];
    AcceptedIsHistory(rates, weight, clock);
    DecisionsMatchHistory(rates, weight, clock, now);
    var accepted := Accepted(rates, weight, clock);
    forall rate | rate in rates
      ensures InWindow(rates, accepted, rate, now) == Count(accepted, WindowStart(rates, rate, now), now)
    {
      LongestIsLast(rates, rate);
    }
  }

  lemma LongestIsLast(rates: seq<Rate>, rate: Rate)
    requires SortedBy(rates, BY_INTERVAL) && rate in rates
    ensures (forall q :: q in rates ==> q.interval <= rate.interval) <==>
      rate.interval == rates[|rates| - 1].interval
  {
    var last := rates[|rates| - 1];
    assert last in rates;
    forall q | q in rates ensures q.interval <= last.interval {
      var i :| 0 <= i < |rates| && rates[i] == q;
      assert i < |rates| - 1 ==> BY_INTERVAL(rates[i], last);
    }
  }

  /** A rejection names its reason: some rate's window holds too many accepted requests for this one. */
  lemma RejectedOnlyWhenFull(rates: seq<Rate>, weight: nat, clock: seq<int>, now: int) returns (rate: Rate)
    requires rates != [] && SortedBy(rates, BY_INTERVAL) && Clock(clock + [now])
    requires !ScriptStep(rates, weight, BucketAfter(rates, weight, clock), now).1
    ensures rate in rates && InWindow(rates, Accepted(rates, weight, clock), rate, now) + weight > rate.limit
  {
    hide ScriptStep, BucketAfter, Accepted, InWindow;
    AdmittedIffFits(rates, weight, clock, now);
    rate :| rate in rates && InWindow(rates, Accepted(rates, weight, clock), rate, now) + weight > rate.limit;
  }

  /** What an admitted call adds to the log, and a rejected one does not. */
  lemma LogGrowsBy(rates: seq<Rate>, weight: nat, clock: seq<int>, now: int)
    requires rates != [] && SortedBy(rates, BY_INTERVAL) && Clock(clock + [now])
    ensures var accepted := Accepted(rates, weight, clock);
      Accepted(rates, weight, clock + [now]) == accepted +
        if forall rate :: rate in rates ==> InWindow(rates, accepted, rate, now) + weight <= rate.limit
        then seq(weight, _ => now) else []
  {
    hide ScriptStep, BucketAfter, InWindow;
    assert (clock + [now])[..|clock|] == clock;
    AdmittedIffFits(rates, weight, clock, now);
  }
}
