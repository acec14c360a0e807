/** What every caller of the fetcher ends with, and why. */
module FetchCauses {
  import opened Wrappers
  import opened BeatmapFetch

  // ----- one step -----

  /** Awaiting a request that was served gives its text, on the first wait and on the one that holds the lock. */
  lemma WaiterGetsTheText(md5: Digest, s: State, c: nat, f: nat, text: string)
    requires Enabled(md5, s, c, Resume) && (s.pcs[c] == WaitFirst(f) || s.pcs[c] == WaitHolding(f))
    requires f < |s.futures| && s.futures[f].state == Done(Text(text))
    ensures var t := Step(md5, s, c, Resume);
      && c < |t.pcs| && t.pcs[c] == Finished(Text(text)) && t.futures == s.futures && t.pending == s.pending
      && t.lock == if s.pcs[c].WaitHolding? then None else s.lock
  {
  }

  /** So does a look at a request that has been served already. */
  lemma LookGetsTheText(md5: Digest, s: State, c: nat, text: string)
    requires Enabled(md5, s, c, Resume) && c < |s.keys|
    requires (s.pcs[c].Ready? && Free(s)) || s.pcs[c].WantLook? || s.pcs[c].WantCreate?
    requires s.keys[c] in s.pending && s.pending[s.keys[c]] < |s.futures|
    requires s.futures[s.pending[s.keys[c]]].state == Done(Text(text))
    ensures var t := Step(md5, s, c, Resume);
      c < |t.pcs| && t.pcs[c] == Finished(Text(text)) && t.futures == s.futures && t.pending == s.pending
  {
    hide Remove;
  }

  /** A download that is served completes its request, and its owner keeps the text while it queues to clean up. */
  lemma OwnerKeepsItsText(md5: Digest, s: State, c: nat, f: nat, text: string)
    requires Enabled(md5, s, c, Fetched(text)) && s.pcs[c] == Fetching(f)
    ensures var t := Step(md5, s, c, Fetched(text));
      && c < |t.pcs| && (t.pcs[c] == Finished(Text(text)) || t.pcs[c] == Cleanup(f, Text(text)))
      && (t.pcs[c].Finished? <==> s.lock.None? && s.queue == [])
      && (if t.pcs[c].Finished? then s.keys[c] !in t.pending && t.queue == [] else t.queue == s.queue + [c])
      && (f < |s.futures| && s.futures[f].state.Pending? ==>
            f < |t.futures| && t.futures[f].state == Done(Text(text)))
  {
  }

  /** And a failed one fails its request, so that those who wait for it try themselves. */
  lemma FailureReachesTheRequest(md5: Digest, s: State, c: nat, f: nat)
    requires Enabled(md5, s, c, FetchFailed) && s.pcs[c] == Fetching(f)
    requires f < |s.futures| && s.futures[f].state.Pending?
    ensures var t := Step(md5, s, c, FetchFailed);
      && c < |t.pcs| && f < |t.futures| && t.futures[f].state == Done(Raised)
      && (t.pcs[c] == Finished(Raised) || t.pcs[c] == Cleanup(f, Raised))
  {
  }

  /** Cancelling a caller that awaits an open request cancels the request, and only later the caller with it. */
  lemma CancelReachesTheRequest(md5: Digest, s: State, c: nat, f: nat)
    requires Enabled(md5, s, c, Cancel) && f < |s.futures| && s.futures[f].state.Pending?
    requires s.pcs[c] == WaitFirst(f) || s.pcs[c] == WaitHolding(f) || s.pcs[c] == Fetching(f)
    ensures var t := Step(md5, s, c, Cancel);
      && c < |t.pcs| && f < |t.futures| && t.futures[f].state == Done(Cancelled)
      && (if s.pcs[c] == Fetching(f) then t.pcs[c] == Finished(Cancelled) || t.pcs[c] == Cleanup(f, Cancelled)
          else t.pcs == s.pcs)
  {
  }

  /** Everybody who awaits a cancelled request ends cancelled. */
  lemma WaitersShareTheCancellation(md5: Digest, s: State, c: nat, f: nat)
    requires Enabled(md5, s, c, Resume) && (s.pcs[c] == WaitFirst(f) || s.pcs[c] == WaitHolding(f))
    requires f < |s.futures| && s.futures[f].state == Done(Cancelled)
    ensures var t := Step(md5, s, c, Resume);
      && c < |t.pcs| && t.pcs[c] == Finished(Cancelled) && t.futures == s.futures && t.pending == s.pending
      && t.lock == if s.pcs[c].WaitHolding? then None else s.lock
  {
  }

  lemma CleanupKeepsTheOutcome(md5: Digest, s: State, c: nat, f: nat, o: Outcome)
    requires Enabled(md5, s, c, Resume) && s.pcs[c] == Cleanup(f, o) && c < |s.keys|
    ensures var t := Step(md5, s, c, Resume);
      c < |t.pcs| && t.pcs[c] == Finished(o) && s.keys[c] !in t.pending
  {
    hide Remove;
  }

  // ----- causes -----

  /** Some caller of the key was served this text. */
  ghost predicate Served(keys: seq<Key>, moves: seq<Move>, key: Key, text: string) {
    exists i :: 0 <= i < |moves| && moves[i].coroutine < |keys| && keys[moves[i].coroutine] == key &&
      moves[i].event == Fetched(text)
  }

  /** Some caller of the key was cancelled. */
  ghost predicate SomeCancelled(keys: seq<Key>, moves: seq<Move>, key: Key) {
    exists i :: 0 <= i < |moves| && moves[i].coroutine < |keys| && keys[moves[i].coroutine] == key &&
      moves[i].event == Cancel
  }

  /** A download of this caller's own failed. */
  ghost predicate OwnFailed(moves: seq<Move>, c: nat) {
    exists i :: 0 <= i < |moves| && moves[i].coroutine == c && moves[i].event == FetchFailed
  }

  /** Some download of the key failed. */
  ghost predicate SomeFailed(keys: seq<Key>, moves: seq<Move>, key: Key) {
    exists i :: 0 <= i < |moves| && moves[i].coroutine < |keys| && keys[moves[i].coroutine] == key &&
      moves[i].event == FetchFailed
  }

  /** A caller ends with a text somebody was served, with its own failure, or because somebody was cancelled. */
  ghost predicate CallerCause(keys: seq<Key>, moves: seq<Move>, c: nat, o: Outcome)
    requires c < |keys|
  {
    match o
    case Text(text) => Served(keys, moves, keys[c], text)
    case Raised => OwnFailed(moves, c)
    case Cancelled => SomeCancelled(keys, moves, keys[c])
  }

  ghost predicate FutureCause(keys: seq<Key>, moves: seq<Move>, key: Key, o: Outcome) {
    match o
    case Text(text) => Served(keys, moves, key, text)
    case Raised => SomeFailed(keys, moves, key)
    case Cancelled => SomeCancelled(keys, moves, key)
  }

  ghost predicate Caused(keys: seq<Key>, moves: seq<Move>, s: State) {
    && s.keys == keys && |s.pcs| == |keys|
    && (forall c :: 0 <= c < |keys| && s.pcs[c].Finished? ==> CallerCause(keys, moves, c, s.pcs[c].outcome))
    && (forall c :: 0 <= c < |keys| && s.pcs[c].Cleanup? ==> CallerCause(keys, moves, c, s.pcs[c].outcome))
    && (forall f :: 0 <= f < |s.futures| && s.futures[f].state.Done? ==>
          FutureCause(keys, moves, s.futures[f].key, s.futures[f].state.outcome))
  }

  /** A move more takes no cause away, and is one. */
  lemma CausesGrow(keys: seq<Key>, moves: seq<Move>, m: Move)
    requires m.coroutine < |keys|
    ensures forall key, text :: Served(keys, moves, key, text) ==> Served(keys, moves + [m], key, text)
    ensures forall key :: SomeCancelled(keys, moves, key) ==> SomeCancelled(keys, moves + [m], key)
    ensures forall key :: SomeFailed(keys, moves, key) ==> SomeFailed(keys, moves + [m], key)
    ensures forall c: nat :: OwnFailed(moves, c) ==> OwnFailed(moves + [m], c)
    ensures m.event.Fetched? ==> Served(keys, moves + [m], keys[m.coroutine], m.event.text)
    ensures m.event == Cancel ==> SomeCancelled(keys, moves + [m], keys[m.coroutine])
    ensures m.event == FetchFailed ==>
      SomeFailed(keys, moves + [m], keys[m.coroutine]) && OwnFailed(moves + [m], m.coroutine)
  {
    var more := moves + [m];
    assert more[|moves|] == m && forall i :: 0 <= i < |moves| ==> more[i] == moves[i];
  }

  /** Every outcome that stood before still has its cause. */
  lemma CausesStay(keys: seq<Key>, moves: seq<Move>, m: Move, s: State)
    requires m.coroutine < |keys| && Caused(keys, moves, s)
    ensures Caused(keys, moves + [m], s)
  {
    CausesGrow(keys, moves, m);
    hide Served, SomeCancelled, SomeFailed, OwnFailed;
  }

  // ----- the outcome of a step -----

  /** A resumed caller can end with what its cleanup carries, or with a served or cancelled request of its key. */
  lemma ResumedOutcome(md5: Digest, s: State, c: nat)
    requires Inv(md5, s) && Enabled(md5, s, c, Resume)
    ensures var t := StepResume(s, c);
      && |t.pcs| == |s.pcs| && t.keys == s.keys
      && (forall d :: 0 <= d < |s.pcs| && d != c ==> t.pcs[d] == s.pcs[d])
      && !t.pcs[c].Cleanup?
      && (t.pcs[c].Finished? ==> Inherited(s, c, t.pcs[c].outcome))
  {
    ResumeShape(md5, s, c);
    ResumeKeepsOthers(md5, s, c);
    FlightOnly(s, c);
    Facts(md5, s, c);
    hide Accepts, Inv, QueueOk, FutureOk, Remove, LookAgain, Look, SecondLook, OutcomeOk;
    match s.pcs[c] {
      case Ready => LookOutcome(s, c);
      case WantLook => LookOutcome(Dequeue(s, c), c);
      case WaitFirst(f) => SecondLookOutcome(Goto(s, c, Ready), c);
      case WantCreate => LookAgainOutcome(Dequeue(s, c), c);
      case _ =>
    }
  }

  /** The outcome was the caller's own already, or is that of a request of its key and not a failure. */
  ghost predicate Inherited(s: State, c: nat, o: Outcome)
    requires c < |s.pcs|
  {
    || (s.pcs[c].Cleanup? && o == s.pcs[c].outcome)
    || (c < |s.keys| && !o.Raised? && Given(s, s.keys[c], o))
  }

  ghost predicate Given(s: State, key: Key, o: Outcome) {
    exists f :: 0 <= f < |s.futures| && s.futures[f].key == key && s.futures[f].state == Done(o)
  }

  ghost predicate FromTable(s: State, c: nat, t: State)
    requires c < |s.keys|
  {
    c < |t.pcs| && t.pcs[c].Finished? ==>
      !t.pcs[c].outcome.Raised? && s.keys[c] in s.pending && IsDone(s, s.pending[s.keys[c]]) &&
      s.futures[s.pending[s.keys[c]]].state.outcome == t.pcs[c].outcome
  }

  lemma LookAgainOutcome(s: State, c: nat)
    requires c < |s.pcs| && c < |s.keys|
    ensures FromTable(s, c, LookAgain(s, c))
  {
  }

  lemma SecondLookOutcome(s: State, c: nat)
    requires c < |s.pcs| && c < |s.keys|
    ensures FromTable(s, c, SecondLook(s, c))
  {
    hide LookAgain;
    LookAgainOutcome(s, c);
  }

  lemma LookOutcome(s: State, c: nat)
    requires c < |s.pcs| && c < |s.keys|
    ensures FromTable(s, c, Look(s, c))
  {
    hide SecondLook;
    SecondLookOutcome(s, c);
  }

  // ----- whole runs -----

  lemma ResumeIsCaused(md5: Digest, keys: seq<Key>, moves: seq<Move>, s: State, c: nat)
    requires Inv(md5, s) && Enabled(md5, s, c, Resume) && Caused(keys, moves, s)
    ensures Caused(keys, moves, StepResume(s, c))
  {
    ResumedOutcome(md5, s, c);
    ResumeShape(md5, s, c);
    hide Inv, Enabled, StepResume, Served, SomeCancelled, SomeFailed, OwnFailed;
  }

  lemma FetchIsCaused(
      md5: Digest, keys: seq<Key>, moves: seq<Move>, s: State, c: nat, f: nat, e: Event)
    requires Inv(md5, s) && c < |s.pcs| && s.pcs[c] == Fetching(f) && Caused(keys, moves, s)
    requires e.Fetched? ==> Served(keys, moves, keys[c], e.text)
    requires e == Cancel ==> SomeCancelled(keys, moves, keys[c])
    requires e == FetchFailed ==> SomeFailed(keys, moves, keys[c]) && OwnFailed(moves, c)
    requires e != Resume
    ensures Caused(keys, moves, StepFetch(s, c, f, e))
  {
    OwnRequestOf(md5, s, c, f);
    FetchShape(s, c, f, e);
    hide StepFetch, Inv, Served, SomeCancelled, SomeFailed, OwnFailed;
  }

  function OwnOutcome(e: Event): Outcome {
    if e.Fetched? then Text(e.text) else if e == FetchFailed then Raised else Cancelled
  }

  /** The owner ends with its own outcome, or with the cancellation that its request has seen; others stay. */
  lemma FetchShape(s: State, c: nat, f: nat, e: Event)
    requires c < |s.pcs| && c < |s.keys| && f < |s.futures| && e != Resume
    requires s.futures[f].state.Pending? || s.futures[f].state.outcome.Cancelled?
    ensures var t := StepFetch(s, c, f, e);
      && t.keys == s.keys && |t.pcs| == |s.pcs| && |t.futures| == |s.futures|
      && (forall d :: 0 <= d < |s.pcs| && d != c ==> t.pcs[d] == s.pcs[d])
      && (t.pcs[c].Finished? || t.pcs[c].Cleanup?)
      && (t.pcs[c].outcome == OwnOutcome(e) ||
          (t.pcs[c].outcome == Cancelled && s.futures[f].state == Done(Cancelled)))
      && t.futures ==
        if s.futures[f].state.Pending? then s.futures[f := s.futures[f].(state := Done(OwnOutcome(e)))] else s.futures
  {
  }

  lemma OwnRequestOf(md5: Digest, s: State, c: nat, f: nat)
    requires Inv(md5, s) && c < |s.pcs| && s.pcs[c] == Fetching(f)
    ensures c < |s.keys| && f < |s.futures| && s.futures[f].key == s.keys[c]
    ensures s.futures[f].state.Pending? || s.futures[f].state.outcome.Cancelled?
  {
    hide Accepts;
    assert PcOk(md5, s, c);
  }

  /** A cancelled caller ends cancelled at once, or its request is cancelled; nothing else changes. */
  lemma CancelShape(md5: Digest, s: State, c: nat)
    requires Inv(md5, s) && Enabled(md5, s, c, Cancel) && !s.pcs[c].Fetching?
    ensures c < |s.keys|
    ensures var t := StepCancel(s, c);
      && t.keys == s.keys && |t.pcs| == |s.pcs| && |t.futures| == |s.futures|
      && (forall d :: 0 <= d < |s.pcs| ==> t.pcs[d] == s.pcs[d] || (d == c && t.pcs[d] == Finished(Cancelled)))
      && (forall f :: 0 <= f < |s.futures| ==>
            t.futures[f] == s.futures[f] ||
            (t.futures[f].state == Done(Cancelled) && t.futures[f].key == s.keys[c]))
  {
    Facts(md5, s, c);
    hide Inv, Remove, Accepts, OutcomeOk, QueueOk;
  }

  lemma CancelIsCaused(md5: Digest, keys: seq<Key>, moves: seq<Move>, s: State, c: nat)
    requires Inv(md5, s) && Enabled(md5, s, c, Cancel) && Caused(keys, moves, s) && !s.pcs[c].Fetching?
    requires SomeCancelled(keys, moves, keys[c])
    ensures Caused(keys, moves, StepCancel(s, c))
  {
    CancelShape(md5, s, c);
    hide Inv, Enabled, Served, SomeCancelled, SomeFailed, OwnFailed, StepCancel;
  }

  lemma StepIsCaused(md5: Digest, keys: seq<Key>, moves: seq<Move>, s: State, m: Move)
    requires Inv(md5, s) && Enabled(md5, s, m.coroutine, m.event) && Caused(keys, moves, s)
    ensures Caused(keys, moves + [m], Step(md5, s, m.coroutine, m.event))
  {
    CausesGrow(keys, moves, m);
    CausesStay(keys, moves, m, s);
    hide Caused, Served, SomeCancelled, SomeFailed, OwnFailed, Inv, StepResume, StepFetch, StepCancel, Accepts;
    var c, e := m.coroutine, m.event;
    if e == Resume {
      ResumeIsCaused(md5, keys, moves + [m], s, c);
    } else if s.pcs[c].Fetching? {
      FetchingStep(md5, s, c, e);
      FetchIsCaused(md5, keys, moves + [m], s, c, s.pcs[c].future, e);
    } else {
      CancelIsCaused(md5, keys, moves + [m], s, c);
    }
  }

  lemma {:induction false} RunIsCaused(md5: Digest, keys: seq<Key>, moves: seq<Move>)
    requires IsRun(md5, Initial(keys), moves)
    ensures Caused(keys, moves, After(md5, Initial(keys), moves))
  {
    hide Inv, Enabled, Step, Caused;
    if moves == [] {
      NothingCaused(keys);
    } else {
      var n := |moves| - 1;
      RunIsCaused(md5, keys, moves[..n]);
      RunKeepsInv(md5, keys, moves[..n]);
      StepIsCaused(md5, keys, moves[..n], After(md5, Initial(keys), moves[..n]), moves[n]);
      assert moves[..n] + [moves[n]] == moves;
    }
  }

  lemma NothingCaused(keys: seq<Key>)
    ensures Caused(keys, [], Initial(keys))
  {
  }

  /**
   * In every interleaving, failures and cancellations included: who ends with a text got one that a caller of the same
   * key was served; who ends with an error had a download of its own fail; and who ends cancelled shares the key with
   * a caller that was cancelled.
   */
  lemma EveryOutcomeHasACause(md5: Digest, keys: seq<Key>, moves: seq<Move>, c: nat)
    requires IsRun(md5, Initial(keys), moves) && c < |keys|
    requires c < |After(md5, Initial(keys), moves).pcs| && After(md5, Initial(keys), moves).pcs[c].Finished?
    ensures match After(md5, Initial(keys), moves).pcs[c].outcome
      case Text(text) => Served(keys, moves, keys[c], text)
      case Raised => OwnFailed(moves, c)
      case Cancelled => SomeCancelled(keys, moves, keys[c])
  {
    hide IsRun, After;
    RunIsCaused(md5, keys, moves);
  }

  /** Without failures and cancellations of a key, each caller of it that ends has a text one of them was served. */
  lemma UndisturbedCallersGetAText(md5: Digest, keys: seq<Key>, moves: seq<Move>, c: nat)
    requires IsRun(md5, Initial(keys), moves) && c < |keys|
    requires forall i :: 0 <= i < |moves| && moves[i].coroutine < |keys| && keys[moves[i].coroutine] == keys[c] ==>
      moves[i].event != FetchFailed && moves[i].event != Cancel
    requires c < |After(md5, Initial(keys), moves).pcs| && After(md5, Initial(keys), moves).pcs[c].Finished?
    ensures var o := After(md5, Initial(keys), moves).pcs[c].outcome; o.Text? && Served(keys, moves, keys[c], o.text)
  {
    hide IsRun, After;
    EveryOutcomeHasACause(md5, keys, moves, c);
  }

  /** And when such a run can only go on by cancellations, all of its callers have one. */
  lemma UndisturbedRunServesAll(md5: Digest, keys: seq<Key>, moves: seq<Move>, c: nat)
    requires IsRun(md5, Initial(keys), moves) && c < |keys|
    requires forall i :: 0 <= i < |moves| && moves[i].coroutine < |keys| && keys[moves[i].coroutine] == keys[c] ==>
      moves[i].event != FetchFailed && moves[i].event != Cancel
    requires forall d, e :: Enabled(md5, After(md5, Initial(keys), moves), d, e) ==> e == Cancel
    ensures c < |After(md5, Initial(keys), moves).pcs|
    ensures var pc := After(md5, Initial(keys), moves).pcs[c];
      pc.Finished? && pc.outcome.Text? && Served(keys, moves, keys[c], pc.outcome.text)
  {
    hide IsRun, After, Enabled, Inv;
    RunKeepsInv(md5, keys, moves);
    StuckMeansFinished(md5, keys, moves);
    UndisturbedCallersGetAText(md5, keys, moves, c);
  }

  // ----- the owner along a run -----

  ghost predicate HasOwn(s: State, c: nat, text: string) {
    c < |s.pcs| &&
    (s.pcs[c] == Finished(Text(text)) || (s.pcs[c].Cleanup? && s.pcs[c].outcome == Text(text)))
  }

  lemma OwnStays(md5: Digest, s: State, c: nat, text: string, d: nat, e: Event)
    requires Inv(md5, s) && Enabled(md5, s, d, e) && HasOwn(s, c, text) && (d == c ==> e != Cancel)
    ensures HasOwn(Step(md5, s, d, e), c, text)
  {
    if e == Resume {
      ResumedOutcome(md5, s, d);
      hide StepResume;
      if d == c { CleanupKeepsTheOutcome(md5, s, c, s.pcs[c].future, s.pcs[c].outcome); }
    } else {
      OthersStand(md5, s, d, e);
    }
    hide Inv, Step;
  }

  lemma OthersStand(md5: Digest, s: State, d: nat, e: Event)
    requires Enabled(md5, s, d, e) && e != Resume
    ensures var t := Step(md5, s, d, e);
      |t.pcs| == |s.pcs| && forall c :: 0 <= c < |s.pcs| && c != d ==> t.pcs[c] == s.pcs[c]
  {
    hide StepFetch, StepCancel, Accepts;
    if s.pcs[d].Fetching? {
      FetchingStep(md5, s, d, e);
      FetchOthers(s, d, s.pcs[d].future, e);
    } else {
      CancelOthers(s, d);
    }
  }

  lemma FetchOthers(s: State, d: nat, f: nat, e: Event)
    requires d < |s.pcs| && d < |s.keys|
    ensures var t := StepFetch(s, d, f, e);
      |t.pcs| == |s.pcs| && forall c :: 0 <= c < |s.pcs| && c != d ==> t.pcs[c] == s.pcs[c]
  {
  }

  lemma CancelOthers(s: State, d: nat)
    requires d < |s.pcs| && d < |s.keys| && !s.pcs[d].Fetching?
    ensures var t := StepCancel(s, d);
      |t.pcs| == |s.pcs| && forall c :: 0 <= c < |s.pcs| && c != d ==> t.pcs[c] == s.pcs[c]
  {
    hide Remove;
  }

  /** A caller whose download is served ends with that text, unless it is cancelled while it queues to clean up. */
  lemma {:induction false} OwnerEndsWithItsText(md5: Digest, keys: seq<Key>, moves: seq<Move>, i: nat, text: string)
    requires IsRun(md5, Initial(keys), moves) && i < |moves| && moves[i].event == Fetched(text)
    requires forall j :: i < j < |moves| && moves[j].coroutine == moves[i].coroutine ==> moves[j].event != Cancel
    ensures HasOwn(After(md5, Initial(keys), moves), moves[i].coroutine, text)
  {
    hide Inv, Enabled, Step, HasOwn;
    var n := |moves| - 1;
    var before := After(md5, Initial(keys), moves[..n]);
    RunKeepsInv(md5, keys, moves[..n]);
    if i == n {
      ServedHasOwn(md5, before, moves[n].coroutine, text);
    } else {
      OwnerEndsWithItsText(md5, keys, moves[..n], i, text);
      OwnStays(md5, before, moves[i].coroutine, text, moves[n].coroutine, moves[n].event);
    }
  }

  lemma ServedHasOwn(md5: Digest, s: State, c: nat, text: string)
    requires Enabled(md5, s, c, Fetched(text))
    ensures HasOwn(Step(md5, s, c, Fetched(text)), c, text)
  {
    OwnerKeepsItsText(md5, s, c, s.pcs[c].future, text);
    hide Step;
  }

  // ----- a request that is done -----

  /** The caller awaits this request, which is done with the outcome, or it has ended with it. */
  ghost predicate Arriving(s: State, c: nat, f: nat, o: Outcome) {
    c < |s.pcs| &&
    (s.pcs[c] == Finished(o) ||
     ((s.pcs[c] == WaitFirst(f) || s.pcs[c] == WaitHolding(f)) && f < |s.futures| && s.futures[f].state == Done(o)))
  }

  /** Any outcome but a failure: the awaiting caller ends with it, also if it is cancelled on top of a cancellation. */
  lemma AwaiterEnds(md5: Digest, s: State, c: nat, f: nat, o: Outcome, e: Event)
    requires Enabled(md5, s, c, e) && Arriving(s, c, f, o) && !o.Raised? && (e == Cancel ==> o == Cancelled)
    ensures Arriving(Step(md5, s, c, e), c, f, o)
  {
  }

  lemma ArrivalGoesOn(md5: Digest, s: State, c: nat, f: nat, o: Outcome, d: nat, e: Event)
    requires Inv(md5, s) && Enabled(md5, s, d, e) && Arriving(s, c, f, o) && !o.Raised?
    requires d == c && e == Cancel ==> o == Cancelled
    ensures Arriving(Step(md5, s, d, e), c, f, o)
  {
    if d == c {
      AwaiterEnds(md5, s, c, f, o, e);
    } else {
      if e == Resume { ResumedOutcome(md5, s, d); } else { OthersStand(md5, s, d, e); }
      if IsDone(s, f) { CompletedOnce(md5, s, d, e, f); }
    }
    hide Inv, Step, StepResume;
  }

  /**
   * Over any run: whoever awaits a request that is done with a text ends with that text unless it is cancelled itself,
   * and whoever awaits a cancelled one ends cancelled.
   */
  lemma {:induction false} AwaitedOutcomeArrives(
      md5: Digest, keys: seq<Key>, moves: seq<Move>, k: nat, c: nat, f: nat, o: Outcome)
    requires IsRun(md5, Initial(keys), moves) && k <= |moves| && !o.Raised?
    requires Arriving(After(md5, Initial(keys), moves[..k]), c, f, o)
    requires forall j :: k <= j < |moves| && moves[j] == Move(c, Cancel) ==> o == Cancelled
    ensures Arriving(After(md5, Initial(keys), moves), c, f, o)
  {
    hide Inv, Enabled, Step, Arriving;
    if k == |moves| {
      assert moves[..k] == moves;
    } else {
      var n := |moves| - 1;
      assert moves[..n][..k] == moves[..k];
      RunKeepsInv(md5, keys, moves[..n]);
      AwaitedOutcomeArrives(md5, keys, moves[..n], k, c, f, o);
      var m := moves[n];
      ArrivalGoesOn(md5, After(md5, Initial(keys), moves[..n]), c, f, o, m.coroutine, m.event);
    }
  }

  // ----- the lock is fair -----

  /** Whoever queues for the lock runs only when it is free, and in the order of the queue. */
  lemma OnlyTheFirstRuns(md5: Digest, s: State, c: nat)
    requires Enabled(md5, s, c, Resume) && (s.pcs[c].WantLook? || s.pcs[c].WantCreate? || s.pcs[c].Cleanup?)
    ensures s.lock.None? && s.queue != [] && s.queue[0] == c
  {
  }

  /** A caller that comes while the lock is held, or while others queue, goes to the end of the queue. */
  lemma NewcomersQueue(md5: Digest, s: State, c: nat)
    requires Enabled(md5, s, c, Resume) && s.pcs[c].Ready? && c < |s.keys| && (s.lock.Some? || s.queue != [])
    ensures Step(md5, s, c, Resume) == s.(pcs := s.pcs[c := WantLook], queue := s.queue + [c])
  {
  }

  /** So does one that has to look again. */
  lemma RetriesQueue(md5: Digest, s: State, c: nat, f: nat)
    requires Enabled(md5, s, c, Resume) && s.pcs[c] == WaitFirst(f) && c < |s.keys| && f < |s.futures|
    requires s.futures[f].state == Done(Raised) && (s.lock.Some? || s.queue != [])
    ensures Step(md5, s, c, Resume) == s.(pcs := s.pcs[c := WantCreate], queue := s.queue + [c])
  {
  }

  /** With the lock, a caller whose key has no request, or a failed one, makes its own. */
  lemma WhoFindsNoneDownloads(md5: Digest, s: State, c: nat)
    requires Enabled(md5, s, c, Resume) && c < |s.keys|
    requires s.pcs[c].WantCreate? || (s.pcs[c].Ready? && s.lock.None? && s.queue == [])
    requires s.keys[c] !in s.pending
    ensures var t, f := Step(md5, s, c, Resume), |s.futures|;
      && c < |t.pcs| && t.pcs[c] == Fetching(f) && t.pending == s.pending[s.keys[c] := f]
      && t.futures == s.futures + [Future(s.keys[c], c, Pending)] && t.lock == s.lock
  {
    hide Remove;
  }
}
