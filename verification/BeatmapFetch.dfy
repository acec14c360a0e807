/**
 * Request coalescing. Each call of `get_beatmap_raw` is a coroutine that runs, in one atomic step, until it really
 * suspends: at its own download, at a future that is not done, or at a lock that is held or queued for. Awaiting a
 * done future or taking a free lock does not suspend. The scheduler and the network choose which coroutine steps and
 * how a download or a wait ends.
 */
module BeatmapFetch {
  import opened Wrappers

  datatype Key = Key(beatmapId: int, checksum: Option<string>)

  /** How a future, or a whole call, ends. */
  datatype Outcome = Text(text: string) | Raised | Cancelled

  datatype FutureState = Pending | Done(outcome: Outcome)

  /** A future remembers for which key and by which coroutine it was made. */
  datatype Future = Future(key: Key, owner: nat, state: FutureState)

  /** Where a coroutine is suspended. */
  datatype Pc =
    | Ready                                   // not started, or running right now
    | WantLook                                // in the queue of the lock, for the first look
    | WaitFirst(future: nat)                  // awaits a future without the lock
    | WantCreate                              // in the queue of the lock, for the second look
    | WaitHolding(future: nat)                // awaits a future while it holds the lock
    | Fetching(future: nat)                   // awaits its own download
    | Cleanup(future: nat, outcome: Outcome)  // in the queue of the lock, to forget the key
    | Finished(outcome: Outcome)

  /** `queue` holds the waiters of the lock in order; while the lock is free its head has been woken. */
  datatype State = State(
    keys: seq<Key>, pcs: seq<Pc>, lock: Option<nat>, queue: seq<nat>, futures: seq<Future>, pending: map<Key, nat>)

  datatype Event = Resume | Fetched(text: string) | FetchFailed | Cancel

  type Digest = string -> string

  /** Checksum acceptance; any text will do when no revision was asked for. */
  predicate Accepts(md5: Digest, key: Key, text: string) {
    text != "" && (key.checksum.Some? ==> md5(text) == key.checksum.value)
  }

  function Initial(keys: seq<Key>): State { State(keys, seq(|keys|, _ => Ready), None, [], [], map[]) }

  // ----- steps -----

  predicate IsDone(s: State, f: nat) { f < |s.futures| && s.futures[f].state.Done? }

  predicate Queued(pc: Pc) { pc.WantLook? || pc.WantCreate? || pc.Cleanup? }

  /** A newcomer takes the lock at once only when it is free and nobody queues for it. */
  predicate Free(s: State) { s.lock.None? && s.queue == [] }

  predicate Woken(s: State, c: nat) { s.lock.None? && s.queue != [] && s.queue[0] == c }

  predicate Enabled(md5: Digest, s: State, c: nat, e: Event) {
    c < |s.pcs| && |s.keys| == |s.pcs| &&
    match s.pcs[c]
    case Ready => e == Cancel || e == Resume
    case WantLook => e == Cancel || (e == Resume && Woken(s, c))
    case WantCreate => e == Cancel || (e == Resume && Woken(s, c))
    case Cleanup(_, _) => e == Cancel || (e == Resume && Woken(s, c))
    case WaitFirst(f) => e == Cancel || (e == Resume && IsDone(s, f))
    case WaitHolding(f) => e == Cancel || (e == Resume && IsDone(s, f))
    case Fetching(_) => e == Cancel || e == FetchFailed || (e.Fetched? && Accepts(md5, s.keys[c], e.text))
    case Finished(_) => false
  }

  function Goto(s: State, c: nat, pc: Pc): State
    requires c < |s.pcs|
  {
    s.(pcs := s.pcs[c := pc])
  }

  function Remove(queue: seq<nat>, c: nat): (r: seq<nat>)
    ensures forall d :: d in r <==> d in queue && d != c
  {
    if queue == [] then []
    else if queue[0] == c then Remove(queue[1..], c)
    else [queue[0]] + Remove(queue[1..], c)
  }

  function Enqueue(s: State, c: nat, pc: Pc): State
    requires c < |s.pcs|
  {
    Goto(s, c, pc).(queue := s.queue + [c])
  }

  /** A woken waiter leaves the queue and runs. */
  function Dequeue(s: State, c: nat): State
    requires c < |s.pcs|
  {
    Goto(s, c, Ready).(queue := Remove(s.queue, c))
  }

  /** `if not future.done(): ...` */
  function Complete(s: State, f: nat, outcome: Outcome): State {
    if f < |s.futures| && s.futures[f].state.Pending?
    then s.(futures := s.futures[f := s.futures[f].(state := Done(outcome))]) else s
  }

  function OutcomeOf(s: State, f: nat): Outcome { if IsDone(s, f) then s.futures[f].state.outcome else Cancelled }

  function CreateRequest(s: State, c: nat): State
    requires c < |s.pcs| && c < |s.keys|
  {
    var f := |s.futures|;
    Goto(s, c, Fetching(f)).(
      futures := s.futures + [Future(s.keys[c], c, Pending)], pending := s.pending[s.keys[c] := f])
  }

  /** The first look: the lock is taken and given back without suspending in between. */
  function Look(s: State, c: nat): State
    requires c < |s.pcs| && c < |s.keys|
  {
    if s.keys[c] !in s.pending then SecondLook(s, c)
    else
      var f := s.pending[s.keys[c]];
      if IsDone(s, f) then AfterFirst(s, c, OutcomeOf(s, f)) else Goto(s, c, WaitFirst(f))
  }

  function AfterFirst(s: State, c: nat, o: Outcome): State
    requires c < |s.pcs| && c < |s.keys|
  {
    if o.Raised? then SecondLook(s, c) else Goto(s, c, Finished(o))
  }

  function SecondLook(s: State, c: nat): State
    requires c < |s.pcs| && c < |s.keys|
  {
    if Free(s) then LookAgain(s, c) else Enqueue(s, c, WantCreate)
  }

  /** The second look, with the lock: kept while it awaits a request that is not done. */
  function LookAgain(s: State, c: nat): State
    requires c < |s.pcs| && c < |s.keys|
  {
    if s.keys[c] !in s.pending then CreateRequest(s, c)
    else
      var f := s.pending[s.keys[c]];
      if IsDone(s, f) then AfterSecond(s, c, OutcomeOf(s, f)) else Goto(s, c, WaitHolding(f)).(lock := Some(c))
  }

  function AfterSecond(s: State, c: nat, o: Outcome): State
    requires c < |s.pcs| && c < |s.keys|
  {
    if o.Raised? then CreateRequest(s, c) else Goto(s, c, Finished(o))
  }

  /** The cleanup, with the lock: whatever request the key has is forgotten. */
  function Forget(s: State, c: nat, o: Outcome): State
    requires c < |s.pcs| && c < |s.keys|
  {
    Goto(s, c, Finished(o)).(pending := s.pending - {s.keys[c]})
  }

  function StepResume(s: State, c: nat): State
    requires c < |s.pcs| && c < |s.keys|
  {
    match s.pcs[c]
    case Ready => if Free(s) then Look(s, c) else Enqueue(s, c, WantLook)
    case WantLook => Look(Dequeue(s, c), c)
    case WaitFirst(f) => AfterFirst(Goto(s, c, Ready), c, OutcomeOf(s, f))
    case WantCreate => LookAgain(Dequeue(s, c), c)
    case WaitHolding(f) => AfterSecond(Goto(s, c, Ready).(lock := None), c, OutcomeOf(s, f))
    case Cleanup(f, o) => Forget(Dequeue(s, c), c, o)
    case _ => s
  }

  /** A download ends: its future is completed, and the key forgotten at once when the lock is free. */
  function StepFetch(s: State, c: nat, f: nat, e: Event): State
    requires c < |s.pcs| && c < |s.keys|
  {
    var own := if e.Fetched? then Text(e.text) else if e == FetchFailed then Raised else Cancelled;
    var done := Complete(s, f, own);
    var o := if e == FetchFailed then OutcomeOf(done, f) else own;
    if Free(s) then Forget(Goto(done, c, Ready), c, o) else Enqueue(Goto(done, c, Ready), c, Cleanup(f, o))
  }

  /** Awaiting a bare future: cancelling the waiter cancels the future; the waiter then sees the cancellation. */
  function CancelWait(s: State, c: nat, f: nat, holding: bool): State
    requires c < |s.pcs|
  {
    if f < |s.futures| && s.futures[f].state.Pending? then Complete(s, f, Cancelled)
    else
      var gone := Goto(s, c, Finished(Cancelled));
      if holding then gone.(lock := None) else gone
  }

  function StepCancel(s: State, c: nat): State
    requires c < |s.pcs| && c < |s.keys|
  {
    match s.pcs[c]
    case WaitFirst(f) => CancelWait(s, c, f, false)
    case WaitHolding(f) => CancelWait(s, c, f, true)
    case Fetching(f) => StepFetch(s, c, f, Cancel)
    case Ready => Goto(s, c, Finished(Cancelled))
    case _ => Goto(Dequeue(s, c), c, Finished(Cancelled))
  }

  function Step(md5: Digest, s: State, c: nat, e: Event): State
    requires Enabled(md5, s, c, e)
  {
    if e == Resume then StepResume(s, c)
    else if e == Cancel then StepCancel(s, c)
    else StepFetch(s, c, s.pcs[c].future, e)
  }

  // ----- runs -----

  datatype Move = Move(coroutine: nat, event: Event)

  ghost predicate IsRun(md5: Digest, start: State, moves: seq<Move>) {
    moves != [] ==>
      var n := |moves| - 1;
      IsRun(md5, start, moves[..n]) &&
      Enabled(md5, After(md5, start, moves[..n]), moves[n].coroutine, moves[n].event)
  }

  ghost function After(md5: Digest, start: State, moves: seq<Move>): State {
    if moves == [] then start
    else
      var n := |moves| - 1;
      var before := After(md5, start, moves[..n]);
      if Enabled(md5, before, moves[n].coroutine, moves[n].event)
      then Step(md5, before, moves[n].coroutine, moves[n].event) else before
  }

  // ----- the invariant -----

  /** References are in range and futures are used only for the key they were made for. */
  ghost predicate PcOk(md5: Digest, s: State, c: nat)
    requires c < |s.pcs| && c < |s.keys|
  {
    match s.pcs[c]
    case WaitFirst(f) => f < |s.futures| && s.futures[f].key == s.keys[c]
    case WaitHolding(f) =>
      f < |s.futures| && s.lock == Some(c) && s.keys[c] in s.pending && s.pending[s.keys[c]] == f
    case Fetching(f) => OwnRequest(s, c, f) && (s.futures[f].state.Pending? || s.futures[f].state.outcome.Cancelled?)
    case Cleanup(f, o) => OwnRequest(s, c, f) && s.futures[f].state.Done? && OutcomeOk(md5, s.keys[c], o)
    case Finished(o) => OutcomeOk(md5, s.keys[c], o)
    case _ => true
  }

  ghost predicate OwnRequest(s: State, c: nat, f: nat)
    requires c < |s.keys|
  {
    f < |s.futures| && s.futures[f].key == s.keys[c] && s.futures[f].owner == c
  }

  ghost predicate OutcomeOk(md5: Digest, key: Key, o: Outcome) { o.Text? ==> Accepts(md5, key, o.text) }

  /** An uncompleted future is being fetched by the coroutine that made it. */
  ghost predicate FutureOk(md5: Digest, s: State, f: nat)
    requires f < |s.futures|
  {
    match s.futures[f].state
    case Pending => s.futures[f].owner < |s.pcs| && s.pcs[s.futures[f].owner] == Fetching(f)
    case Done(o) => OutcomeOk(md5, s.futures[f].key, o)
  }

  /** The queue lists, once each, the coroutines that wait for the lock. */
  ghost predicate QueueOk(s: State) {
    && (forall c: nat :: c < |s.pcs| ==> (Queued(s.pcs[c]) <==> c in s.queue))
    && (forall c :: c in s.queue ==> c < |s.pcs|)
    && (forall i, j :: 0 <= i < j < |s.queue| ==> s.queue[i] != s.queue[j])
  }

  ghost predicate Inv(md5: Digest, s: State) {
    && |s.keys| == |s.pcs| && QueueOk(s)
    && (forall c :: 0 <= c < |s.pcs| ==> PcOk(md5, s, c))
    && (forall f :: 0 <= f < |s.futures| ==> FutureOk(md5, s, f))
    && (forall k :: k in s.pending ==> s.pending[k] < |s.futures| && s.futures[s.pending[k]].key == k)
    && (s.lock.Some? ==> s.lock.value < |s.pcs| && s.pcs[s.lock.value].WaitHolding?)
  }

  /** A waiter's cancellation completes the future under its owner's feet. */
  lemma CancelFutureKeeps(md5: Digest, s: State, f: nat)
    requires Inv(md5, s) && f < |s.futures|
    ensures Inv(md5, Complete(s, f, Cancelled))
  {
    hide Accepts, QueueOk;
    var after := Complete(s, f, Cancelled);
    SameQueue(s, after);
    forall c | 0 <= c < |s.pcs| ensures PcOk(md5, after, c) { assert PcOk(md5, s, c); }
    forall g | 0 <= g < |after.futures| ensures FutureOk(md5, after, g) { assert FutureOk(md5, s, g); }
  }

  lemma SameQueue(s: State, t: State)
    requires QueueOk(s) && t.queue == s.queue && |t.pcs| == |s.pcs|
    requires forall c: nat :: c < |s.pcs| ==> (Queued(t.pcs[c]) <==> Queued(s.pcs[c]))
    ensures QueueOk(t)
  {}

  lemma EndFetchKeeps(md5: Digest, s: State, c: nat, f: nat, own: Outcome)
    requires Inv(md5, s) && c < |s.pcs| && s.pcs[c] == Fetching(f) && OutcomeOk(md5, s.keys[c], own)
    ensures Inv(md5, Goto(Complete(s, f, own), c, Ready))
    ensures OwnRequest(Complete(s, f, own), c, f) && IsDone(Complete(s, f, own), f)
    ensures OutcomeOk(md5, s.keys[c], OutcomeOf(Complete(s, f, own), f))
  {
    hide Accepts, QueueOk, OutcomeOk;
    var after := Goto(Complete(s, f, own), c, Ready);
    assert PcOk(md5, s, c) && FutureOk(md5, s, f);
    SameQueue(s, after);
    forall d | 0 <= d < |s.pcs| ensures PcOk(md5, after, d) { assert PcOk(md5, s, d); }
    forall g | 0 <= g < |after.futures| ensures FutureOk(md5, after, g) { assert FutureOk(md5, s, g); }
  }

  /** A waiter that stops waiting gives back the lock if it had it. */
  lemma LeaveKeeps(md5: Digest, s: State, c: nat)
    requires Inv(md5, s) && c < |s.pcs| && !Queued(s.pcs[c]) && !s.pcs[c].Fetching?
    ensures Inv(md5, Goto(s, c, Ready).(lock := if s.pcs[c].WaitHolding? then None else s.lock))
  {
    hide Accepts, QueueOk, OutcomeOk;
    var after := Goto(s, c, Ready).(lock := if s.pcs[c].WaitHolding? then None else s.lock);
    SameQueue(s, after);
    assert PcOk(md5, s, c);
    forall d | 0 <= d < |s.pcs| ensures PcOk(md5, after, d) { assert PcOk(md5, s, d); }
    forall g | 0 <= g < |after.futures| ensures FutureOk(md5, after, g) { assert FutureOk(md5, s, g); }
  }

  lemma {:induction false} RemoveKeepsDistinct(queue: seq<nat>, c: nat)
    requires forall i, j :: 0 <= i < j < |queue| ==> queue[i] != queue[j]
    ensures forall i, j :: 0 <= i < j < |Remove(queue, c)| ==> Remove(queue, c)[i] != Remove(queue, c)[j]
  {
    if queue != [] {
      RemoveKeepsDistinct(queue[1..], c);
      assert queue[0] !in queue[1..];
    }
  }

  lemma DequeueKeeps(md5: Digest, s: State, c: nat)
    requires Inv(md5, s) && c < |s.pcs| && Queued(s.pcs[c])
    ensures Inv(md5, Dequeue(s, c))
  {
    hide Accepts, OutcomeOk, Remove;
    var after := Dequeue(s, c);
    RemoveKeepsDistinct(s.queue, c);
    forall d | 0 <= d < |s.pcs| ensures PcOk(md5, after, d) { assert PcOk(md5, s, d); }
    forall g | 0 <= g < |after.futures| ensures FutureOk(md5, after, g) { assert FutureOk(md5, s, g); }
  }

  lemma SettleKeeps(md5: Digest, s: State, c: nat, pc: Pc, lock: Option<nat>)
    requires Inv(md5, s) && c < |s.pcs| && s.pcs[c].Ready? && !Queued(pc)
    requires lock == s.lock || (s.lock.None? && lock == Some(c) && pc.WaitHolding?)
    requires PcOk(md5, Goto(s, c, pc).(lock := lock), c)
    ensures Inv(md5, Goto(s, c, pc).(lock := lock))
  {
    hide Accepts, QueueOk, OutcomeOk;
    var after := Goto(s, c, pc).(lock := lock);
    SameQueue(s, after);
    forall d | 0 <= d < |s.pcs| ensures PcOk(md5, after, d) { assert PcOk(md5, s, d); }
    forall g | 0 <= g < |after.futures| ensures FutureOk(md5, after, g) { assert FutureOk(md5, s, g); }
  }

  lemma EnqueueKeeps(md5: Digest, s: State, c: nat, pc: Pc)
    requires Inv(md5, s) && c < |s.pcs| && s.pcs[c].Ready? && Queued(pc) && PcOk(md5, Enqueue(s, c, pc), c)
    ensures Inv(md5, Enqueue(s, c, pc))
  {
    hide Accepts, OutcomeOk;
    var after := Enqueue(s, c, pc);
    assert c !in s.queue;
    forall d | 0 <= d < |s.pcs| ensures PcOk(md5, after, d) { assert PcOk(md5, s, d); }
    forall g | 0 <= g < |after.futures| ensures FutureOk(md5, after, g) { assert FutureOk(md5, s, g); }
  }

  lemma CreateKeeps(md5: Digest, s: State, c: nat)
    requires Inv(md5, s) && c < |s.pcs| && s.pcs[c].Ready? && s.lock.None?
    ensures Inv(md5, CreateRequest(s, c))
  {
    hide Accepts, QueueOk, OutcomeOk;
    var after := CreateRequest(s, c);
    SameQueue(s, after);
    forall d | 0 <= d < |s.pcs| ensures PcOk(md5, after, d) { assert PcOk(md5, s, d); }
    forall g | 0 <= g < |after.futures| ensures FutureOk(md5, after, g) {
      if g < |s.futures| { assert FutureOk(md5, s, g); }
    }
  }

  lemma ForgetKeeps(md5: Digest, s: State, c: nat, o: Outcome)
    requires Inv(md5, s) && c < |s.pcs| && s.pcs[c].Ready? && s.lock.None? && OutcomeOk(md5, s.keys[c], o)
    ensures Inv(md5, Forget(s, c, o))
  {
    hide Accepts, QueueOk, OutcomeOk;
    var after := Forget(s, c, o);
    SameQueue(s, after);
    forall d | 0 <= d < |s.pcs| ensures PcOk(md5, after, d) { assert PcOk(md5, s, d); }
    forall g | 0 <= g < |after.futures| ensures FutureOk(md5, after, g) { assert FutureOk(md5, s, g); }
  }

  lemma Facts(md5: Digest, s: State, c: nat)
    requires Inv(md5, s) && c < |s.pcs|
    ensures |s.keys| == |s.pcs| && PcOk(md5, s, c)
    ensures s.keys[c] in s.pending ==>
      s.pending[s.keys[c]] < |s.futures| && s.futures[s.pending[s.keys[c]]].key == s.keys[c]
    ensures forall f :: 0 <= f < |s.futures| ==> OutcomeOk(md5, s.futures[f].key, OutcomeOf(s, f))
  {
    hide Accepts, QueueOk;
    forall f | 0 <= f < |s.futures| ensures OutcomeOk(md5, s.futures[f].key, OutcomeOf(s, f)) {
      assert FutureOk(md5, s, f);
    }
  }

  lemma LookAgainKeeps(md5: Digest, s: State, c: nat)
    requires Inv(md5, s) && c < |s.pcs| && s.pcs[c].Ready? && s.lock.None? && |s.keys| == |s.pcs|
    ensures Inv(md5, LookAgain(s, c))
  {
    hide Accepts, Inv, QueueOk, OutcomeOk, FutureOk;
    Facts(md5, s, c);
    if s.keys[c] !in s.pending {
      CreateKeeps(md5, s, c);
    } else {
      var f := s.pending[s.keys[c]];
      if IsDone(s, f) {
        AfterSecondKeeps(md5, s, c, OutcomeOf(s, f));
      } else {
        SettleKeeps(md5, s, c, WaitHolding(f), Some(c));
      }
    }
  }

  lemma AfterSecondKeeps(md5: Digest, s: State, c: nat, o: Outcome)
    requires Inv(md5, s) && c < |s.pcs| && s.pcs[c].Ready? && s.lock.None? && |s.keys| == |s.pcs|
    requires OutcomeOk(md5, s.keys[c], o)
    ensures Inv(md5, AfterSecond(s, c, o))
  {
    hide Accepts, Inv, QueueOk, OutcomeOk, FutureOk;
    if o.Raised? { CreateKeeps(md5, s, c); } else { SettleKeeps(md5, s, c, Finished(o), s.lock); }
  }

  lemma SecondLookKeeps(md5: Digest, s: State, c: nat)
    requires Inv(md5, s) && c < |s.pcs| && s.pcs[c].Ready? && |s.keys| == |s.pcs|
    ensures Inv(md5, SecondLook(s, c))
  {
    hide Accepts, Inv, QueueOk, OutcomeOk, FutureOk;
    if Free(s) { LookAgainKeeps(md5, s, c); } else { EnqueueKeeps(md5, s, c, WantCreate); }
  }

  lemma AfterFirstKeeps(md5: Digest, s: State, c: nat, o: Outcome)
    requires Inv(md5, s) && c < |s.pcs| && s.pcs[c].Ready? && |s.keys| == |s.pcs| && OutcomeOk(md5, s.keys[c], o)
    ensures Inv(md5, AfterFirst(s, c, o))
  {
    hide Accepts, Inv, QueueOk, OutcomeOk, FutureOk;
    if o.Raised? { SecondLookKeeps(md5, s, c); } else { SettleKeeps(md5, s, c, Finished(o), s.lock); }
  }

  lemma LookKeeps(md5: Digest, s: State, c: nat)
    requires Inv(md5, s) && c < |s.pcs| && s.pcs[c].Ready? && |s.keys| == |s.pcs|
    ensures Inv(md5, Look(s, c))
  {
    hide Accepts, Inv, QueueOk, OutcomeOk, FutureOk;
    Facts(md5, s, c);
    if s.keys[c] !in s.pending {
      SecondLookKeeps(md5, s, c);
    } else {
      var f := s.pending[s.keys[c]];
      if IsDone(s, f) {
        AfterFirstKeeps(md5, s, c, OutcomeOf(s, f));
      } else {
        SettleKeeps(md5, s, c, WaitFirst(f), s.lock);
      }
    }
  }

  lemma ResumeKeeps(md5: Digest, s: State, c: nat)
    requires Inv(md5, s) && Enabled(md5, s, c, Resume)
    ensures Inv(md5, StepResume(s, c))
  {
    hide Accepts, Inv, QueueOk, OutcomeOk, FutureOk, Look, LookAgain, AfterFirst, AfterSecond, Remove;
    Facts(md5, s, c);
    match s.pcs[c] {
      case Ready => if Free(s) { LookKeeps(md5, s, c); } else { EnqueueKeeps(md5, s, c, WantLook); }
      case WantLook =>
        DequeueKeeps(md5, s, c);
        LookKeeps(md5, Dequeue(s, c), c);
      case WaitFirst(f) =>
        LeaveKeeps(md5, s, c);
        AfterFirstKeeps(md5, Goto(s, c, Ready), c, OutcomeOf(s, f));
      case WantCreate =>
        DequeueKeeps(md5, s, c);
        LookAgainKeeps(md5, Dequeue(s, c), c);
      case WaitHolding(f) =>
        LeaveKeeps(md5, s, c);
        AfterSecondKeeps(md5, Goto(s, c, Ready).(lock := None), c, OutcomeOf(s, f));
      case Cleanup(f, o) =>
        DequeueKeeps(md5, s, c);
        ForgetKeeps(md5, Dequeue(s, c), c, o);
      case _ =>
    }
  }

  lemma FetchKeeps(md5: Digest, s: State, c: nat, f: nat, e: Event)
    requires Inv(md5, s) && c < |s.pcs| && s.pcs[c] == Fetching(f) && |s.keys| == |s.pcs|
    requires e.Fetched? ==> Accepts(md5, s.keys[c], e.text)
    ensures Inv(md5, StepFetch(s, c, f, e))
  {
    hide Accepts, Inv, QueueOk, FutureOk;
    var own := if e.Fetched? then Text(e.text) else if e == FetchFailed then Raised else Cancelled;
    EndFetchKeeps(md5, s, c, f, own);
    var done := Complete(s, f, own);
    var o := if e == FetchFailed then OutcomeOf(done, f) else own;
    if Free(s) {
      ForgetKeeps(md5, Goto(done, c, Ready), c, o);
    } else {
      EnqueueKeeps(md5, Goto(done, c, Ready), c, Cleanup(f, o));
    }
  }

  lemma CancelKeeps(md5: Digest, s: State, c: nat)
    requires Inv(md5, s) && Enabled(md5, s, c, Cancel)
    ensures Inv(md5, StepCancel(s, c))
  {
    hide Accepts, Inv, QueueOk, FutureOk, StepFetch, Remove;
    Facts(md5, s, c);
    match s.pcs[c] {
      case WaitFirst(f) => CancelWaitKeeps(md5, s, c, f, false);
      case WaitHolding(f) => CancelWaitKeeps(md5, s, c, f, true);
      case Fetching(f) => FetchKeeps(md5, s, c, f, Cancel);
      case Ready => SettleKeeps(md5, s, c, Finished(Cancelled), s.lock);
      case WantLook => CancelQueuedKeeps(md5, s, c);
      case WantCreate => CancelQueuedKeeps(md5, s, c);
      case Cleanup(_, _) => CancelQueuedKeeps(md5, s, c);
      case Finished(_) =>
    }
  }

  lemma CancelQueuedKeeps(md5: Digest, s: State, c: nat)
    requires Inv(md5, s) && c < |s.pcs| && |s.keys| == |s.pcs| && Queued(s.pcs[c])
    ensures Inv(md5, Goto(Dequeue(s, c), c, Finished(Cancelled)))
  {
    hide Accepts, Inv, QueueOk, FutureOk, Remove;
    DequeueKeeps(md5, s, c);
    SettleKeeps(md5, Dequeue(s, c), c, Finished(Cancelled), s.lock);
  }

  lemma CancelWaitKeeps(md5: Digest, s: State, c: nat, f: nat, holding: bool)
    requires Inv(md5, s) && c < |s.pcs| && |s.keys| == |s.pcs|
    requires s.pcs[c] == if holding then WaitHolding(f) else WaitFirst(f)
    ensures Inv(md5, CancelWait(s, c, f, holding))
  {
    hide Accepts, Inv, QueueOk, FutureOk;
    Facts(md5, s, c);
    if s.futures[f].state.Pending? {
      CancelFutureKeeps(md5, s, f);
    } else {
      LeaveKeeps(md5, s, c);
      var ready := Goto(s, c, Ready).(lock := if holding then None else s.lock);
      SettleKeeps(md5, ready, c, Finished(Cancelled), ready.lock);
      assert ready.pcs[c := Finished(Cancelled)] == s.pcs[c := Finished(Cancelled)];
    }
  }

  lemma StepKeepsInv(md5: Digest, s: State, c: nat, e: Event)
    requires Inv(md5, s) && Enabled(md5, s, c, e)
    ensures Inv(md5, Step(md5, s, c, e))
  {
    hide Accepts, Inv, StepResume, StepCancel, StepFetch;
    if e == Resume {
      ResumeKeeps(md5, s, c);
    } else if e == Cancel {
      CancelKeeps(md5, s, c);
    } else {
      FetchKeeps(md5, s, c, s.pcs[c].future, e);
    }
  }

  // ----- the shapes of a step -----

  /** The coroutine moved on without touching the table or the futures. */
  ghost predicate Settled(s: State, t: State, c: nat)
    requires c < |s.pcs|
  {
    && t.keys == s.keys && |t.pcs| == |s.pcs| && t.pcs == s.pcs[c := t.pcs[c]] && !t.pcs[c].Fetching?
    && t.futures == s.futures && t.pending == s.pending
  }

  /** It registered a request where there was none or a failed one. */
  ghost predicate Created(s: State, t: State, c: nat)
    requires c < |s.pcs| && c < |s.keys|
  {
    var n := |s.futures|;
    && t.keys == s.keys && t.pcs == s.pcs[c := Fetching(n)]
    && t.futures == s.futures + [Future(s.keys[c], c, Pending)] && t.pending == s.pending[s.keys[c] := n]
    && (s.keys[c] in s.pending ==> OutcomeOf(s, s.pending[s.keys[c]]).Raised?)
  }

  ghost predicate Forgotten(s: State, t: State, c: nat)
    requires c < |s.pcs| && c < |s.keys|
  {
    && t.keys == s.keys && |t.pcs| == |s.pcs| && t.pcs == s.pcs[c := t.pcs[c]] && t.pcs[c].Finished?
    && t.futures == s.futures && t.pending == s.pending - {s.keys[c]}
  }

  function Steps(pc: Pc): nat {
    match pc
    case Ready => 7
    case WantLook => 6
    case WaitFirst(_) => 5
    case WantCreate => 4
    case WaitHolding(_) => 3
    case Fetching(_) => 2
    case Cleanup(_, _) => 1
    case Finished(_) => 0
  }

  lemma LookAgainShape(s: State, c: nat)
    requires c < |s.pcs| && c < |s.keys|
    ensures var t := LookAgain(s, c);
      (Settled(s, t, c) || Created(s, t, c)) && Steps(t.pcs[c]) <= 3
  {}

  lemma SecondLookShape(s: State, c: nat)
    requires c < |s.pcs| && c < |s.keys|
    ensures var t := SecondLook(s, c);
      (Settled(s, t, c) || Created(s, t, c)) && Steps(t.pcs[c]) <= 4
  {
    hide LookAgain;
    LookAgainShape(s, c);
  }

  lemma LookShape(s: State, c: nat)
    requires c < |s.pcs| && c < |s.keys|
    ensures var t := Look(s, c);
      (Settled(s, t, c) || Created(s, t, c)) && Steps(t.pcs[c]) <= 5
  {
    hide SecondLook;
    SecondLookShape(s, c);
  }

  /** The coroutine's own position before it ran does not matter. */
  lemma ShapeFrom(s: State, ready: State, t: State, c: nat)
    requires c < |s.pcs| && c < |s.keys| && ready.keys == s.keys && ready.pcs == s.pcs[c := Ready]
    requires ready.futures == s.futures && ready.pending == s.pending
    requires Settled(ready, t, c) || Created(ready, t, c)
    ensures Settled(s, t, c) || Created(s, t, c)
  {
    if Created(ready, t, c) {
      assert ready.pcs[c := Fetching(|s.futures|)] == s.pcs[c := Fetching(|s.futures|)];
    } else {
      assert ready.pcs[c := t.pcs[c]] == s.pcs[c := t.pcs[c]];
    }
  }

  lemma ResumeKeepsOthers(md5: Digest, s: State, c: nat)
    requires Enabled(md5, s, c, Resume)
    ensures var t := StepResume(s, c);
      |t.pcs| == |s.pcs| && t.keys == s.keys && s.futures <= t.futures
  {
    hide Accepts, Remove, Look, LookAgain, SecondLook;
    match s.pcs[c] {
      case Ready => LookShape(s, c);
      case WantLook => LookShape(Dequeue(s, c), c);
      case WaitFirst(f) => SecondLookShape(Goto(s, c, Ready), c);
      case WantCreate => LookAgainShape(Dequeue(s, c), c);
      case _ =>
    }
  }

  lemma StepKeepsCoroutines(md5: Digest, s: State, c: nat, e: Event)
    requires Enabled(md5, s, c, e)
    ensures |Step(md5, s, c, e).pcs| == |s.pcs| && Step(md5, s, c, e).keys == s.keys
  {
    hide Accepts, Remove, StepResume;
    if e == Resume { ResumeKeepsOthers(md5, s, c); }
  }

  // ----- runs keep the invariant -----

  lemma {:induction false} RunKeepsInv(md5: Digest, keys: seq<Key>, moves: seq<Move>)
    requires IsRun(md5, Initial(keys), moves)
    ensures Inv(md5, After(md5, Initial(keys), moves))
    ensures |After(md5, Initial(keys), moves).pcs| == |keys|
  {
    hide Inv, Enabled, Step;
    if moves == [] {
      InitialInv(md5, keys);
    } else {
      var n := |moves| - 1;
      RunKeepsInv(md5, keys, moves[..n]);
      RunKeepsKeys(md5, Initial(keys), moves);
      StepKeepsInv(md5, After(md5, Initial(keys), moves[..n]), moves[n].coroutine, moves[n].event);
    }
  }

  lemma InitialInv(md5: Digest, keys: seq<Key>)
    ensures Inv(md5, Initial(keys))
  {
  }

  // ----- what every run guarantees -----

  /** No call ever returns a text that its requested checksum does not accept. */
  lemma ReturnedTextsMatch(md5: Digest, keys: seq<Key>, moves: seq<Move>, c: nat, text: string)
    requires IsRun(md5, Initial(keys), moves)
    requires c < |After(md5, Initial(keys), moves).pcs|
    requires After(md5, Initial(keys), moves).pcs[c] == Finished(Text(text))
    ensures c < |keys| && text != "" && (keys[c].checksum.Some? ==> md5(text) == keys[c].checksum.value)
  {
    hide Inv, Accepts, IsRun, After;
    RunKeepsInv(md5, keys, moves);
    RunKeepsKeys(md5, Initial(keys), moves);
    Facts(md5, After(md5, Initial(keys), moves), c);
    AcceptedTexts(md5, keys[c], text);
  }

  lemma AcceptedTexts(md5: Digest, key: Key, text: string)
    requires Accepts(md5, key, text)
    ensures text != "" && (key.checksum.Some? ==> md5(text) == key.checksum.value)
  {
  }

  lemma {:induction false} RunKeepsKeys(md5: Digest, start: State, moves: seq<Move>)
    ensures After(md5, start, moves).keys == start.keys && |After(md5, start, moves).pcs| == |start.pcs|
  {
    hide Enabled, Step;
    if moves != [] {
      var n := |moves| - 1;
      RunKeepsKeys(md5, start, moves[..n]);
      var before := After(md5, start, moves[..n]);
      if Enabled(md5, before, moves[n].coroutine, moves[n].event) {
        StepKeepsCoroutines(md5, before, moves[n].coroutine, moves[n].event);
      }
    }
  }

  /** A completed future never changes again. */
  lemma CompletedOnce(md5: Digest, s: State, c: nat, e: Event, f: nat)
    requires Enabled(md5, s, c, e) && IsDone(s, f)
    ensures IsDone(Step(md5, s, c, e), f) && Step(md5, s, c, e).futures[f] == s.futures[f]
  {
    hide Accepts, Remove, StepResume;
    if e == Resume { ResumeKeepsOthers(md5, s, c); }
  }

  /** Whatever the lock holder waits for, some coroutine can go on without being cancelled. */
  lemma NoDeadlock(md5: Digest, s: State, c: nat) returns (d: nat, e: Event)
    requires Inv(md5, s) && c < |s.pcs| && !s.pcs[c].Finished?
    ensures Enabled(md5, s, d, e) && e != Cancel
  {
    hide Accepts, OutcomeOk;
    d, e := c, Resume;
    if Queued(s.pcs[c]) {
      assert c in s.queue;
      d := if s.lock.Some? then s.lock.value else s.queue[0];
      assert s.lock.None? ==> d in s.queue;
    }
    assert PcOk(md5, s, d);
    match s.pcs[d] {
      case Fetching(_) => e := FetchFailed;
      case WaitFirst(f) => if !IsDone(s, f) { d, e := OwnerFetches(md5, s, f); }
      case WaitHolding(f) =>
        if !IsDone(s, f) {
          assert f < |s.futures|;
          d, e := OwnerFetches(md5, s, f);
        }
      case _ =>
    }
  }

  lemma OwnerFetches(md5: Digest, s: State, f: nat) returns (d: nat, e: Event)
    requires Inv(md5, s) && f < |s.futures| && s.futures[f].state.Pending?
    ensures Enabled(md5, s, d, e) && e == FetchFailed
  {
    assert FutureOk(md5, s, f);
    d, e := s.futures[f].owner, FetchFailed;
  }

  lemma ResumeShape(md5: Digest, s: State, c: nat)
    requires Inv(md5, s) && Enabled(md5, s, c, Resume)
    ensures var t := StepResume(s, c);
      && |t.pcs| == |s.pcs| && Steps(t.pcs[c]) < Steps(s.pcs[c])
      && (if s.pcs[c].Cleanup? then Forgotten(s, t, c) else Settled(s, t, c) || Created(s, t, c))
  {
    hide Accepts, Inv, QueueOk, FutureOk, Look, LookAgain, SecondLook, Remove;
    Facts(md5, s, c);
    var t := StepResume(s, c);
    match s.pcs[c] {
      case Ready => LookShape(s, c);
      case WantLook =>
        LookShape(Dequeue(s, c), c);
        ShapeFrom(s, Dequeue(s, c), t, c);
      case WaitFirst(f) =>
        SecondLookShape(Goto(s, c, Ready), c);
        ShapeFrom(s, Goto(s, c, Ready), t, c);
      case WantCreate =>
        LookAgainShape(Dequeue(s, c), c);
        ShapeFrom(s, Dequeue(s, c), t, c);
      case WaitHolding(f) => ShapeFrom(s, Goto(s, c, Ready).(lock := None), t, c);
      case Cleanup(f, o) => assert t.pcs == s.pcs[c := Finished(o)];
      case _ =>
    }
  }

  // ----- every run ends -----

  function TotalSteps(pcs: seq<Pc>): nat {
    if pcs == [] then 0 else TotalSteps(pcs[..|pcs| - 1]) + Steps(pcs[|pcs| - 1])
  }

  function Open(futures: seq<Future>): nat {
    if futures == [] then 0
    else Open(futures[..|futures| - 1]) + (if futures[|futures| - 1].state.Pending? then 1 else 0)
  }

  /** Steps still possible, with a little room for futures that can still be completed. */
  function Budget(s: State): nat { 2 * TotalSteps(s.pcs) + Open(s.futures) }

  lemma {:induction false} TotalStepsAt(pcs: seq<Pc>, c: nat, pc: Pc)
    requires c < |pcs|
    ensures TotalSteps(pcs[c := pc]) == TotalSteps(pcs) + Steps(pc) - Steps(pcs[c])
  {
    var n := |pcs| - 1;
    if c < n {
      TotalStepsAt(pcs[..n], c, pc);
      assert pcs[c := pc][..n] == pcs[..n][c := pc];
    } else {
      assert pcs[c := pc][..n] == pcs[..n];
    }
  }

  lemma {:induction false} OpenAt(futures: seq<Future>, f: nat, g: Future)
    requires f < |futures|
    ensures Open(futures[f := g]) ==
      Open(futures) + (if g.state.Pending? then 1 else 0) - (if futures[f].state.Pending? then 1 else 0)
  {
    var n := |futures| - 1;
    if f < n {
      OpenAt(futures[..n], f, g);
      assert futures[f := g][..n] == futures[..n][f := g];
    } else {
      assert futures[f := g][..n] == futures[..n];
    }
  }

  lemma OpenGrows(futures: seq<Future>, g: Future)
    ensures Open(futures + [g]) == Open(futures) + (if g.state.Pending? then 1 else 0)
  {
    assert (futures + [g])[..|futures|] == futures;
  }

  lemma CompleteSpends(s: State, f: nat, o: Outcome)
    ensures Complete(s, f, o).pcs == s.pcs
    ensures Open(Complete(s, f, o).futures) ==
      Open(s.futures) - (if f < |s.futures| && s.futures[f].state.Pending? then 1 else 0)
  {
    if f < |s.futures| { OpenAt(s.futures, f, s.futures[f].(state := Done(o))); }
  }

  lemma StepSpendsBudget(md5: Digest, s: State, c: nat, e: Event)
    requires Inv(md5, s) && Enabled(md5, s, c, e)
    ensures Budget(Step(md5, s, c, e)) < Budget(s)
  {
    hide Accepts, Inv, TotalSteps, Open, Complete, StepResume, Remove;
    Facts(md5, s, c);
    var after := Step(md5, s, c, e);
    if e == Resume {
      ResumeShape(md5, s, c);
      OpenGrows(s.futures, Future(s.keys[c], c, Pending));
      TotalStepsAt(s.pcs, c, after.pcs[c]);
    } else {
      match s.pcs[c] {
        case WaitFirst(f) => CompleteSpends(s, f, Cancelled);
        case WaitHolding(f) => CompleteSpends(s, f, Cancelled);
        case Fetching(f) => FetchSpends(s, c, f, e);
        case _ =>
      }
      if !s.pcs[c].Fetching? {
        assert after.pcs == s.pcs || after.pcs == s.pcs[c := after.pcs[c]];
        TotalStepsAt(s.pcs, c, after.pcs[c]);
      }
    }
  }

  lemma FetchSpends(s: State, c: nat, f: nat, e: Event)
    requires c < |s.pcs| && c < |s.keys| && s.pcs[c] == Fetching(f)
    ensures Budget(StepFetch(s, c, f, e)) < Budget(s)
  {
    hide TotalSteps, Open, Complete;
    var own := if e.Fetched? then Text(e.text) else if e == FetchFailed then Raised else Cancelled;
    CompleteSpends(s, f, own);
    var after := StepFetch(s, c, f, e);
    assert after.pcs == s.pcs[c := after.pcs[c]];
    TotalStepsAt(s.pcs, c, after.pcs[c]);
  }

  /** Under any scheduling a run of n calls takes at most 14 n steps. */
  lemma {:induction false} RunsAreShort(md5: Digest, keys: seq<Key>, moves: seq<Move>)
    requires IsRun(md5, Initial(keys), moves)
    ensures |moves| + Budget(After(md5, Initial(keys), moves)) <= 14 * |keys|
  {
    hide Budget, Enabled, Step, Inv;
    if moves == [] {
      InitialBudget(keys);
    } else {
      var n := |moves| - 1;
      RunsAreShort(md5, keys, moves[..n]);
      RunKeepsInv(md5, keys, moves[..n]);
      StepSpendsBudget(md5, After(md5, Initial(keys), moves[..n]), moves[n].coroutine, moves[n].event);
    }
  }

  lemma InitialBudget(keys: seq<Key>)
    ensures Budget(Initial(keys)) == 14 * |keys|
  {
    StartSteps(|keys|);
  }

  lemma {:induction false} StartSteps(n: nat)
    ensures TotalSteps(seq(n, _ => Ready)) == 7 * n
  {
    if n > 0 {
      assert seq(n, _ => Ready)[..n - 1] == seq(n - 1, _ => Ready);
      StartSteps(n - 1);
    }
  }

  /** A run that cannot go on has answered every call. */
  lemma StuckMeansFinished(md5: Digest, keys: seq<Key>, moves: seq<Move>)
    requires IsRun(md5, Initial(keys), moves)
    requires forall c, e :: Enabled(md5, After(md5, Initial(keys), moves), c, e) ==> e == Cancel
    ensures forall c :: 0 <= c < |After(md5, Initial(keys), moves).pcs| ==>
      After(md5, Initial(keys), moves).pcs[c].Finished?
  {
    hide Inv, Enabled, IsRun, After;
    RunKeepsInv(md5, keys, moves);
    var end := After(md5, Initial(keys), moves);
    forall c | 0 <= c < |end.pcs| ensures end.pcs[c].Finished? {
      if !end.pcs[c].Finished? { var d, e := NoDeadlock(md5, end, c); }
    }
  }

  // ----- one fetch per key -----

  /** Every download of the key is the request that the table has for it, so there is at most one. */
  ghost predicate Tracked(s: State, key: Key) {
    |s.keys| == |s.pcs| && forall c :: 0 <= c < |s.pcs| && s.keys[c] == key && s.pcs[c].Fetching? ==>
      key in s.pending && s.pending[key] == s.pcs[c].future
  }

  /** A cleanup is about to forget a request of somebody else who is still downloading. */
  ghost predicate Stray(s: State, c: nat, e: Event, key: Key) {
    && e == Resume && c < |s.pcs| && |s.keys| == |s.pcs| && s.keys[c] == key && s.pcs[c].Cleanup?
    && key in s.pending && s.pending[key] != s.pcs[c].future
    && exists d :: 0 <= d < |s.pcs| && s.keys[d] == key && s.pcs[d] == Fetching(s.pending[key])
  }

  lemma OneTracked(md5: Digest, s: State, key: Key, c: nat, d: nat)
    requires Inv(md5, s) && Tracked(s, key) && c < |s.pcs| && d < |s.pcs| && |s.keys| == |s.pcs|
    requires s.keys[c] == s.keys[d] == key && s.pcs[c].Fetching? && s.pcs[d].Fetching?
    ensures c == d
  {
    assert PcOk(md5, s, c) && PcOk(md5, s, d);
  }

  /** Where a failed request or none is registered nobody is downloading. */
  lemma NobodyFetches(md5: Digest, s: State, key: Key, d: nat)
    requires Inv(md5, s) && Tracked(s, key) && d < |s.pcs| && |s.keys| == |s.pcs| && s.keys[d] == key
    requires key in s.pending ==> OutcomeOf(s, s.pending[key]).Raised?
    ensures !s.pcs[d].Fetching?
  {
    assert PcOk(md5, s, d);
  }

  /** A step breaks the tracking of a key exactly when it is a stray cleanup. */
  lemma TrackingBreaksIff(md5: Digest, s: State, c: nat, e: Event, key: Key)
    requires Inv(md5, s) && Enabled(md5, s, c, e) && Tracked(s, key)
    ensures !Tracked(Step(md5, s, c, e), key) <==> Stray(s, c, e, key)
  {
    hide Accepts, Inv, OutcomeOf, StepResume, StepFetch, StepCancel;
    Facts(md5, s, c);
    if e == Resume {
      ResumeTracks(md5, s, c, key);
    } else if s.pcs[c].Fetching? {
      FetchingStep(md5, s, c, e);
      FetchTracks(md5, s, c, s.pcs[c].future, e, key);
    } else {
      CancelTracks(md5, s, c, key);
    }
  }

  lemma FetchingStep(md5: Digest, s: State, c: nat, e: Event)
    requires Enabled(md5, s, c, e) && s.pcs[c].Fetching?
    ensures Step(md5, s, c, e) == StepFetch(s, c, s.pcs[c].future, e)
  {
    hide StepFetch;
  }

  lemma ResumeTracks(md5: Digest, s: State, c: nat, key: Key)
    requires Inv(md5, s) && Enabled(md5, s, c, Resume) && Tracked(s, key)
    ensures !Tracked(StepResume(s, c), key) <==> Stray(s, c, Resume, key)
  {
    ResumeShape(md5, s, c);
    Facts(md5, s, c);
    hide Accepts, Inv, OutcomeOf, StepResume, Enabled;
    var t := StepResume(s, c);
    if Created(s, t, c) && s.keys[c] == key {
      forall d: nat | d < |s.pcs| && s.keys[d] == key ensures !s.pcs[d].Fetching? { NobodyFetches(md5, s, key, d); }
    }
    if s.pcs[c].Cleanup? && s.keys[c] == key {
      forall d: nat | d < |s.pcs| && s.keys[d] == key && s.pcs[d].Fetching? ensures s.pcs[d].future != s.pcs[c].future {
        Facts(md5, s, d);
      }
    }
  }

  lemma FetchTracks(md5: Digest, s: State, c: nat, f: nat, e: Event, key: Key)
    requires Inv(md5, s) && c < |s.pcs| && |s.keys| == |s.pcs| && s.pcs[c] == Fetching(f) && Tracked(s, key)
    ensures Tracked(StepFetch(s, c, f, e), key)
  {
    hide Accepts, Inv, OutcomeOf;
    forall d: nat | d < |s.pcs| && s.keys[d] == s.keys[c] == key && s.pcs[d].Fetching? ensures d == c {
      OneTracked(md5, s, key, c, d);
    }
  }

  lemma CancelTracks(md5: Digest, s: State, c: nat, key: Key)
    requires Enabled(md5, s, c, Cancel) && Tracked(s, key) && !s.pcs[c].Fetching?
    ensures Tracked(StepCancel(s, c), key)
  {
    hide Remove;
  }

  /**
   * And a stray cleanup does matter: if the lock is free behind it, the next caller of the key that runs starts a
   * second download beside the one that was forgotten.
   */
  lemma StrayAllowsSecondFetch(md5: Digest, s: State, c: nat, r: nat, key: Key) returns (d: nat)
    requires Inv(md5, s) && Enabled(md5, s, c, Resume) && Stray(s, c, Resume, key)
    requires Free(Step(md5, s, c, Resume)) && r < |s.pcs| && s.keys[r] == key && s.pcs[r].Ready?
    ensures Enabled(md5, Step(md5, s, c, Resume), r, Resume)
    ensures var end := Step(md5, Step(md5, s, c, Resume), r, Resume);
      && |end.keys| == |end.pcs| && d < |end.pcs| && r < |end.pcs| && d != r
      && end.keys[d] == end.keys[r] == key && end.pcs[d].Fetching? && end.pcs[r].Fetching?
  {
    hide Inv, Accepts, Remove;
    d :| d < |s.pcs| && s.keys[d] == key && s.pcs[d] == Fetching(s.pending[key]);
  }

  ghost predicate StrayFree(md5: Digest, start: State, moves: seq<Move>, key: Key) {
    moves != [] ==>
      var n := |moves| - 1;
      StrayFree(md5, start, moves[..n], key) &&
      !Stray(After(md5, start, moves[..n]), moves[n].coroutine, moves[n].event, key)
  }

  lemma {:induction false} RunTracks(md5: Digest, keys: seq<Key>, moves: seq<Move>, key: Key)
    requires IsRun(md5, Initial(keys), moves) && StrayFree(md5, Initial(keys), moves, key)
    ensures Tracked(After(md5, Initial(keys), moves), key)
  {
    hide Inv, Enabled, Step, Stray;
    if moves != [] {
      var n := |moves| - 1;
      RunTracks(md5, keys, moves[..n], key);
      RunKeepsInv(md5, keys, moves[..n]);
      TrackingBreaksIff(md5, After(md5, Initial(keys), moves[..n]), moves[n].coroutine, moves[n].event, key);
    }
  }

  /** Failures and cancellations included: without a stray cleanup a key is never downloaded twice at once. */
  lemma OneFetchWithoutStrays(md5: Digest, keys: seq<Key>, moves: seq<Move>, c: nat, d: nat)
    requires IsRun(md5, Initial(keys), moves) && c < |keys| && d < |keys| && keys[c] == keys[d]
    requires StrayFree(md5, Initial(keys), moves, keys[c])
    requires c < |After(md5, Initial(keys), moves).pcs| && d < |After(md5, Initial(keys), moves).pcs|
    requires After(md5, Initial(keys), moves).pcs[c].Fetching? && After(md5, Initial(keys), moves).pcs[d].Fetching?
    ensures c == d
  {
    hide Inv, IsRun, After, StrayFree;
    RunTracks(md5, keys, moves, keys[c]);
    RunKeepsInv(md5, keys, moves);
    RunKeepsKeys(md5, Initial(keys), moves);
    OneTracked(md5, After(md5, Initial(keys), moves), keys[c], c, d);
  }

  ghost predicate InFlight(s: State, c: nat) { c < |s.pcs| && (s.pcs[c].Fetching? || s.pcs[c].Cleanup?) }

  /** Until its owner has cleaned up, a request of this key is the pending one, and none of its futures failed. */
  ghost predicate SingleFlight(s: State, key: Key) {
    && |s.keys| == |s.pcs|
    && (forall c :: 0 <= c < |s.pcs| && s.keys[c] == key && InFlight(s, c) ==>
          key in s.pending && s.pending[key] == s.pcs[c].future)
    && (forall f :: 0 <= f < |s.futures| && s.futures[f].key == key && s.futures[f].state.Done? ==>
          s.futures[f].state.outcome.Text?)
  }

  /** A move by a call for this key that neither fails nor is cancelled; other keys may do as they like. */
  ghost predicate Smooth(s: State, c: nat, e: Event, key: Key) {
    c < |s.keys| && s.keys[c] == key ==> e == Resume || e.Fetched?
  }

  lemma OwnersDiffer(md5: Digest, s: State, c: nat, d: nat)
    requires Inv(md5, s) && InFlight(s, c) && InFlight(s, d) && s.pcs[c].future == s.pcs[d].future
    ensures c == d
  {
    assert PcOk(md5, s, c) && PcOk(md5, s, d);
  }

  lemma StepStaysSingle(md5: Digest, s: State, c: nat, e: Event, key: Key)
    requires Inv(md5, s) && Enabled(md5, s, c, e) && SingleFlight(s, key) && Smooth(s, c, e, key)
    ensures SingleFlight(Step(md5, s, c, e), key)
  {
    hide Accepts, OutcomeOk, FutureOk, QueueOk, Inv, StepResume, StepFetch, StepCancel, OutcomeOf;
    Facts(md5, s, c);
    if e == Resume {
      ResumeStaysSingle(md5, s, c, key);
    } else if s.pcs[c].Fetching? {
      FetchingStep(md5, s, c, e);
      FetchStaysSingle(md5, s, c, s.pcs[c].future, e, key);
    } else {
      CancelElsewhere(md5, s, c, key);
    }
  }

  lemma ResumeStaysSingle(md5: Digest, s: State, c: nat, key: Key)
    requires Inv(md5, s) && Enabled(md5, s, c, Resume) && SingleFlight(s, key)
    ensures SingleFlight(StepResume(s, c), key)
  {
    ResumeShape(md5, s, c);
    Facts(md5, s, c);
    FlightOnly(s, c);
    hide Accepts, Inv, StepResume, Enabled;
    if InFlight(s, c) {
      forall d: nat | InFlight(s, d) && s.pcs[d].future == s.pcs[c].future ensures d == c {
        OwnersDiffer(md5, s, d, c);
      }
    }
  }

  /** Running on, a coroutine gets into flight only by creating a request. */
  lemma FlightOnly(s: State, c: nat)
    requires c < |s.pcs| && c < |s.keys|
    ensures StepResume(s, c).pcs[c].Cleanup? ==> s.pcs[c].Finished? || s.pcs[c].Fetching? || s.pcs[c].Cleanup?
  {
    hide Remove;
  }

  lemma FetchStaysSingle(md5: Digest, s: State, c: nat, f: nat, e: Event, key: Key)
    requires Inv(md5, s) && c < |s.pcs| && |s.keys| == |s.pcs| && s.pcs[c] == Fetching(f) && SingleFlight(s, key)
    requires s.keys[c] == key ==> e.Fetched?
    ensures SingleFlight(StepFetch(s, c, f, e), key)
  {
    hide Accepts, Inv;
    Facts(md5, s, c);
    forall d: nat | InFlight(s, d) && s.pcs[d].future == f ensures d == c { OwnersDiffer(md5, s, d, c); }
    EndsInFlightOrDone(s, c, f, e, key);
  }

  lemma EndsInFlightOrDone(s: State, c: nat, f: nat, e: Event, key: Key)
    requires c < |s.pcs| && |s.keys| == |s.pcs| && s.pcs[c] == Fetching(f)
    requires SingleFlight(s, key) && OwnRequest(s, c, f)
    requires s.keys[c] == key ==> e.Fetched?
    requires forall d: nat :: InFlight(s, d) && s.pcs[d].future == f ==> d == c
    ensures SingleFlight(StepFetch(s, c, f, e), key)
  {
    var t := StepFetch(s, c, f, e);
    forall g | 0 <= g < |t.futures| && t.futures[g].key == key && t.futures[g].state.Done?
      ensures t.futures[g].state.outcome.Text?
    {
      assert g != f ==> t.futures[g] == s.futures[g];
    }
  }

  lemma CancelElsewhere(md5: Digest, s: State, c: nat, key: Key)
    requires Inv(md5, s) && Enabled(md5, s, c, Cancel) && SingleFlight(s, key)
    requires s.keys[c] != key && !s.pcs[c].Fetching?
    ensures SingleFlight(StepCancel(s, c), key)
  {
    hide Accepts, Inv, QueueOk, FutureOk, Remove;
    Facts(md5, s, c);
  }

  ghost predicate SmoothRun(md5: Digest, start: State, moves: seq<Move>, key: Key) {
    moves != [] ==>
      var n := |moves| - 1;
      SmoothRun(md5, start, moves[..n], key) &&
      Smooth(After(md5, start, moves[..n]), moves[n].coroutine, moves[n].event, key)
  }

  lemma {:induction false} RunStaysSingle(md5: Digest, keys: seq<Key>, moves: seq<Move>, key: Key)
    requires IsRun(md5, Initial(keys), moves) && SmoothRun(md5, Initial(keys), moves, key)
    ensures SingleFlight(After(md5, Initial(keys), moves), key)
  {
    hide Inv, Enabled, Step, SingleFlight, Smooth;
    if moves == [] {
      InitialSingle(keys, key);
    } else {
      var n := |moves| - 1;
      RunStaysSingle(md5, keys, moves[..n], key);
      RunKeepsInv(md5, keys, moves[..n]);
      StepStaysSingle(md5, After(md5, Initial(keys), moves[..n]), moves[n].coroutine, moves[n].event, key);
    }
  }

  lemma InitialSingle(keys: seq<Key>, key: Key)
    ensures SingleFlight(Initial(keys), key)
  {
  }

  /**
   * In every interleaving in which no fetch of the key fails and no call for it is cancelled, at most one call
   * is fetching it at any time.
   */
  lemma AtMostOneFetch(md5: Digest, keys: seq<Key>, moves: seq<Move>, c: nat, d: nat)
    requires IsRun(md5, Initial(keys), moves) && c < |keys| && d < |keys| && keys[c] == keys[d]
    requires SmoothRun(md5, Initial(keys), moves, keys[c])
    requires InFlight(After(md5, Initial(keys), moves), c) && InFlight(After(md5, Initial(keys), moves), d)
    ensures c == d
  {
    hide Inv, IsRun, After, SmoothRun;
    RunStaysSingle(md5, keys, moves, keys[c]);
    RunKeepsInv(md5, keys, moves);
    RunKeepsKeys(md5, Initial(keys), moves);
    OwnersDiffer(md5, After(md5, Initial(keys), moves), c, d);
  }

  // ----- failures -----

  lemma RunGrows(md5: Digest, start: State, moves: seq<Move>, c: nat, e: Event)
    requires IsRun(md5, start, moves) && Enabled(md5, After(md5, start, moves), c, e)
    ensures IsRun(md5, start, moves + [Move(c, e)])
    ensures After(md5, start, moves + [Move(c, e)]) == Step(md5, After(md5, start, moves), c, e)
  {
    assert (moves + [Move(c, e)])[..|moves|] == moves;
  }

  lemma EmptyRun(md5: Digest, s: State)
    ensures IsRun(md5, s, []) && After(md5, s, []) == s
  {
  }

  /** Two callers wait for a first one, which fails and, the lock being free, cleans up at once. */
  lemma FirstFailure(md5: Digest, k: Key) returns (moves: seq<Move>)
    ensures IsRun(md5, Initial([k, k, k, k]), moves)
    ensures After(md5, Initial([k, k, k, k]), moves) ==
      State([k, k, k, k], [Finished(Raised), WaitFirst(0), WaitFirst(0), Ready], None, [],
            [Future(k, 0, Done(Raised))], map[])
  {
    var s := Initial([k, k, k, k]);
    hide IsRun, Accepts, After;
    moves := [];
    EmptyRun(md5, s);
    RunGrows(md5, s, moves, 0, Resume); moves := moves + [Move(0, Resume)];
    assert After(md5, s, moves) ==
      State([k, k, k, k], [Fetching(0), Ready, Ready, Ready], None, [], [Future(k, 0, Pending)], map[k := 0]);
    RunGrows(md5, s, moves, 1, Resume); moves := moves + [Move(1, Resume)];
    RunGrows(md5, s, moves, 2, Resume); moves := moves + [Move(2, Resume)];
    RunGrows(md5, s, moves, 0, FetchFailed); moves := moves + [Move(0, FetchFailed)];
  }

  /** One of the two tries again while the other holds the lock to wait for it. */
  lemma SecondTry(md5: Digest, k: Key) returns (moves: seq<Move>)
    ensures IsRun(md5, Initial([k, k, k, k]), moves)
    ensures After(md5, Initial([k, k, k, k]), moves) ==
      State([k, k, k, k], [Finished(Raised), Fetching(1), WaitHolding(1), Ready], Some(2), [],
            [Future(k, 0, Done(Raised)), Future(k, 1, Pending)], map[k := 1])
  {
    var s := Initial([k, k, k, k]);
    hide IsRun, Accepts, After;
    moves := FirstFailure(md5, k);
    RunGrows(md5, s, moves, 1, Resume); moves := moves + [Move(1, Resume)];
    RunGrows(md5, s, moves, 2, Resume); moves := moves + [Move(2, Resume)];
  }

  /**
   * Two failures break the promise: the second one's owner has to queue for its cleanup, the waiter that held the
   * lock registers its own request first, and the cleanup forgets that one, so a later call downloads beside it.
   */
  lemma FailuresAllowTwoFetches(md5: Digest, k: Key) returns (moves: seq<Move>)
    ensures IsRun(md5, Initial([k, k, k, k]), moves)
    ensures var end := After(md5, Initial([k, k, k, k]), moves);
      end.keys == [k, k, k, k] && end.pcs == [Finished(Raised), Finished(Raised), Fetching(2), Fetching(3)]
  {
    hide IsRun, Accepts, After;
    var s := Initial([k, k, k, k]);
    moves := SecondFailure(md5, k);
    RunGrows(md5, s, moves, 1, Resume); moves := moves + [Move(1, Resume)];
    assert Remove([1], 1) == [];
    assert After(md5, s, moves) ==
      State([k, k, k, k], [Finished(Raised), Finished(Raised), Fetching(2), Ready], None, [],
            [Future(k, 0, Done(Raised)), Future(k, 1, Done(Raised)), Future(k, 2, Pending)], map[]);
    RunGrows(md5, s, moves, 3, Resume); moves := moves + [Move(3, Resume)];
  }

  lemma SecondFailure(md5: Digest, k: Key) returns (moves: seq<Move>)
    ensures IsRun(md5, Initial([k, k, k, k]), moves)
    ensures After(md5, Initial([k, k, k, k]), moves) ==
      State([k, k, k, k], [Finished(Raised), Cleanup(1, Raised), Fetching(2), Ready], None, [1],
            [Future(k, 0, Done(Raised)), Future(k, 1, Done(Raised)), Future(k, 2, Pending)], map[k := 2])
  {
    hide IsRun, Accepts, After;
    var s := Initial([k, k, k, k]);
    moves := SecondTry(md5, k);
    RunGrows(md5, s, moves, 1, FetchFailed); moves := moves + [Move(1, FetchFailed)];
    assert After(md5, s, moves) ==
      State([k, k, k, k], [Finished(Raised), Cleanup(1, Raised), WaitHolding(1), Ready], Some(2), [1],
            [Future(k, 0, Done(Raised)), Future(k, 1, Done(Raised))], map[k := 1]);
    RunGrows(md5, s, moves, 2, Resume); moves := moves + [Move(2, Resume)];
  }

  // ----- the fetcher object -----

  class BeatmapRawFetcher {
    const keys: seq<Key>
    var pcs: seq<Pc>
    var requestLock: Option<nat>
    var waiters: seq<nat>
    var futures: seq<Future>
    var pendingRequests: map<Key, nat>

    constructor (keys: seq<Key>)
      ensures Snapshot() == Initial(keys)
    {
      this.keys := keys;
      pcs := seq(|keys|, _ => Ready);
      requestLock, waiters, futures, pendingRequests := None, [], [], map[];
    }

    function Snapshot(): State
      reads this
    {
      State(keys, pcs, requestLock, waiters, futures, pendingRequests)
    }

    /** One coroutine runs from its await until it suspends again or ends. */
    method Advance(ghost md5: Digest, c: nat, e: Event)
      requires Enabled(md5, Snapshot(), c, e)
      modifies this
      ensures Snapshot() == Step(md5, old(Snapshot()), c, e)
    {
      hide Accepts, Look, LookAgain, SecondLook, Remove, Complete;
      match pcs[c] {
        case Ready =>
          if e == Cancel { Return(c, Cancelled); }
          else if requestLock.None? && waiters == [] { FirstLook(c); }
          else { Queue(c, WantLook); }
        case WantLook =>
          LeaveQueue(c);
          if e == Cancel { Return(c, Cancelled); } else { FirstLook(c); }
        case WaitFirst(f) =>
          if e == Cancel { CancelAwait(c, f); }
          else {
            pcs := pcs[c := Ready];
            AfterAwait(c, futures[f].state.outcome);
          }
        case WantCreate =>
          LeaveQueue(c);
          if e == Cancel { Return(c, Cancelled); } else { LookWithLock(c); }
        case WaitHolding(f) =>
          if e == Cancel { CancelAwait(c, f); }
          else {
            pcs, requestLock := pcs[c := Ready], None;
            if futures[f].state.outcome.Raised? { Create(c); } else { Return(c, futures[f].state.outcome); }
          }
        case Fetching(f) =>
          var own := if e.Fetched? then Text(e.text) else if e == FetchFailed then Raised else Cancelled;
          SetIfOpen(f, own);
          pcs := pcs[c := Ready];
          if e == FetchFailed { own := OutcomeOf(Snapshot(), f); }
          CleanUp(c, f, own);
        case Cleanup(_, outcome) =>
          LeaveQueue(c);
          if e == Cancel {
            Return(c, Cancelled);
          } else {
            pendingRequests := pendingRequests - {keys[c]};
            Return(c, outcome);
          }
      }
    }

    /** The first look for a request in progress, and the await of one. */
    method FirstLook(c: nat)
      requires c < |pcs| && c < |keys|
      modifies this
      ensures Snapshot() == Look(old(Snapshot()), c)
    {
      hide SecondLook;
      if keys[c] !in pendingRequests { TryToCreate(c); return; }
      var future := pendingRequests[keys[c]];
      if IsDone(Snapshot(), future) {
        AfterAwait(c, futures[future].state.outcome);
      } else {
        pcs := pcs[c := WaitFirst(future)];
      }
    }

    /** A failed wait goes on to an own request. */
    method AfterAwait(c: nat, outcome: Outcome)
      requires c < |pcs| && c < |keys|
      modifies this
      ensures Snapshot() == AfterFirst(old(Snapshot()), c, outcome)
    {
      hide SecondLook;
      if outcome.Raised? { TryToCreate(c); } else { Return(c, outcome); }
    }

    method TryToCreate(c: nat)
      requires c < |pcs| && c < |keys|
      modifies this
      ensures Snapshot() == SecondLook(old(Snapshot()), c)
    {
      hide LookAgain;
      if requestLock.None? && waiters == [] { LookWithLock(c); } else { Queue(c, WantCreate); }
    }

    /** The double check under the lock. */
    method LookWithLock(c: nat)
      requires c < |pcs| && c < |keys|
      modifies this
      ensures Snapshot() == LookAgain(old(Snapshot()), c)
    {
      if keys[c] !in pendingRequests { Create(c); return; }
      var future := pendingRequests[keys[c]];
      if !IsDone(Snapshot(), future) {
        requestLock, pcs := Some(c), pcs[c := WaitHolding(future)];
      } else if futures[future].state.outcome.Raised? {
        Create(c);
      } else {
        Return(c, futures[future].state.outcome);
      }
    }

    method Create(c: nat)
      requires c < |pcs| && c < |keys|
      modifies this
      ensures Snapshot() == CreateRequest(old(Snapshot()), c)
    {
      var f := |futures|;
      futures := futures + [Future(keys[c], c, Pending)];
      pendingRequests := pendingRequests[keys[c] := f];
      pcs := pcs[c := Fetching(f)];
    }

    /** The `finally` block. */
    method CleanUp(c: nat, f: nat, outcome: Outcome)
      requires c < |pcs| && c < |keys|
      modifies this
      ensures Snapshot() == var s := old(Snapshot());
        if Free(s) then Forget(s, c, outcome) else Enqueue(s, c, Cleanup(f, outcome))
    {
      if requestLock.None? && waiters == [] {
        pendingRequests := pendingRequests - {keys[c]};
        Return(c, outcome);
      } else {
        Queue(c, Cleanup(f, outcome));
      }
    }

    method Return(c: nat, outcome: Outcome)
      requires c < |pcs|
      modifies this`pcs
      ensures pcs == old(pcs)[c := Finished(outcome)]
    {
      pcs := pcs[c := Finished(outcome)];
    }

    method Queue(c: nat, pc: Pc)
      requires c < |pcs|
      modifies this`pcs, this`waiters
      ensures Snapshot() == Enqueue(old(Snapshot()), c, pc)
    {
      pcs, waiters := pcs[c := pc], waiters + [c];
    }

    method LeaveQueue(c: nat)
      requires c < |pcs|
      modifies this`pcs, this`waiters
      ensures Snapshot() == Dequeue(old(Snapshot()), c)
    {
      pcs, waiters := pcs[c := Ready], Remove(waiters, c);
    }

    method SetIfOpen(f: nat, outcome: Outcome)
      modifies this`futures
      ensures Snapshot() == Complete(old(Snapshot()), f, outcome)
    {
      if f < |futures| && futures[f].state.Pending? {
        futures := futures[f := futures[f].(state := Done(outcome))];
      }
    }

    method CancelAwait(c: nat, f: nat)
      requires c < |pcs|
      modifies this
      ensures Snapshot() == CancelWait(old(Snapshot()), c, f, old(pcs[c]).WaitHolding?)
    {
      if f < |futures| && futures[f].state.Pending? {
        SetIfOpen(f, Cancelled);
      } else {
        if pcs[c].WaitHolding? { requestLock := None; }
        Return(c, Cancelled);
      }
    }
  }

  // ----- one fetch over the sources -----

  /** What one source answers: a reply with a status and a body, or an exception. */
  datatype Reply = Reply(status: int, body: string) | Broken

  datatype FetchError = NoBeatmap | ChecksumMismatch | HttpError

  predicate Missing(r: Reply) { r.Reply? && (r.status >= 400 || r.body == "") }

  predicate Usable(md5: Digest, key: Key, r: Reply) { r.Reply? && r.status < 400 && Accepts(md5, key, r.body) }

  predicate WrongRevision(md5: Digest, key: Key, r: Reply) {
    r.Reply? && r.status < 400 && r.body != "" && !Accepts(md5, key, r.body)
  }

  ghost predicate FirstUsable(md5: Digest, key: Key, replies: seq<Reply>, i: nat)
    requires i < |replies|
  {
    Usable(md5, key, replies[i]) && forall j :: 0 <= j < i ==> !Usable(md5, key, replies[j])
  }

  /** A status below 400 and a body. */
  predicate Answered(r: Reply) { r.Reply? && r.status < 400 && r.body != "" }

  predicate Serves(r: Reply, text: string) { r.Reply? && r.status < 400 && r.body == text }

  /**
   * The sources are asked in order. The first usable reply wins; without one, any reply for another revision
   * makes the error a mismatch, and otherwise the last answer decides.
   */
  method FetchBeatmapRaw(md5: Digest, key: Key, replies: seq<Reply>) returns (r: Result<string, FetchError>)
    ensures r.Success? <==> exists i :: 0 <= i < |replies| && Usable(md5, key, replies[i])
    ensures r.Success? ==> exists i ::
      0 <= i < |replies| && FirstUsable(md5, key, replies, i) && replies[i].body == r.value
    ensures r.Success? ==> r.value != "" && (key.checksum.Some? ==> md5(r.value) == key.checksum.value)
    ensures r.Success? ==> exists i :: 0 <= i < |replies| && Serves(replies[i], r.value)
    ensures r.Failure? ==>
      (r.error == ChecksumMismatch <==> exists i :: 0 <= i < |replies| && WrongRevision(md5, key, replies[i]))
    ensures r.Failure? && r.error != ChecksumMismatch ==>
      (r.error == NoBeatmap <==> replies != [] && Missing(replies[|replies| - 1]))
    ensures r.Success? <==> exists i ::
      0 <= i < |replies| && Answered(replies[i]) &&
      (key.checksum.Some? ==> md5(replies[i].body) == key.checksum.value)
    ensures r.Failure? ==>
      r.error ==
        if exists i :: 0 <= i < |replies| && Answered(replies[i]) then ChecksumMismatch
        else if replies != [] && replies[|replies| - 1].Reply? then NoBeatmap
        else HttpError
  {
    var lastError: Option<FetchError>, mismatch := None, false;
    for i := 0 to |replies|
      invariant forall j :: 0 <= j < i ==> !Usable(md5, key, replies[j])
      invariant mismatch <==> exists j :: 0 <= j < i && WrongRevision(md5, key, replies[j])
      invariant lastError == Some(NoBeatmap) <==> i > 0 && Missing(replies[i - 1])
    {
      var reply := replies[i];
      if reply.Broken? {
        lastError := Some(HttpError);
      } else if reply.status >= 400 || reply.body == "" {
        lastError := Some(NoBeatmap);
      } else if key.checksum.Some? && md5(reply.body) != key.checksum.value {
        assert WrongRevision(md5, key, replies[i]);
        mismatch, lastError := true, Some(ChecksumMismatch);
      } else {
        return Success(reply.body);
      }
    }
    if mismatch { return Failure(ChecksumMismatch); }
    if lastError == Some(NoBeatmap) { return Failure(NoBeatmap); }
    r := Failure(HttpError);
  }
}
