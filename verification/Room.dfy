/** A realtime multiplayer room: joining, leaving, handing the room over and ending it. */
module Room {
  import opened Wrappers

  type UserId = int

  /** One row of the participation table; an active row has not been left. */
  datatype Participation = Participation(user: UserId, joinedAt: int, leftAt: Option<int>)

  /** An empty password is the source's missing one: both are falsy. */
  datatype RoomState = RoomState(
    hostId: UserId, endsAt: Option<int>, participantCount: nat, tournament: bool, password: string,
    records: seq<Participation>)

  datatype RoomError = EndedCannotAcceptNew | PasswordRequired | InvalidPassword

  predicate ActiveFor(r: Participation, user: UserId) { r.leftAt.None? && r.user == user }

  predicate Present(records: seq<Participation>, user: UserId) {
    exists i :: 0 <= i < |records| && ActiveFor(records[i], user)
  }

  ghost predicate OneActiveEach(records: seq<Participation>) {
    forall i, j :: 0 <= i < j < |records| && ActiveFor(records[i], records[j].user) ==> records[j].leftAt.Some?
  }

  function ActiveCount(records: seq<Participation>): nat {
    if records == [] then 0
    else
      var n := |records| - 1;
      ActiveCount(records[..n]) + (if records[n].leftAt.None? then 1 else 0)
  }

  predicate Ended(s: RoomState, now: int) { s.endsAt.Some? && s.endsAt.value <= now }

  // ----- one transaction as a change of state -----

  /** Every active row of `user` is left at `now`. */
  function MarkLeft(records: seq<Participation>, user: UserId, now: int): (r: seq<Participation>)
    ensures |r| == |records|
    ensures forall i :: 0 <= i < |records| ==>
      r[i] == if ActiveFor(records[i], user) then records[i].(leftAt := Some(now)) else records[i]
  {
    seq(|records|, i requires 0 <= i < |records| =>
      if ActiveFor(records[i], user) then records[i].(leftAt := Some(now)) else records[i])
  }

  /** The first active row of `user`, or the number of rows. */
  function FirstActive(records: seq<Participation>, user: UserId): (i: nat)
    ensures i <= |records|
    ensures i < |records| ==> ActiveFor(records[i], user)
    ensures forall j :: 0 <= j < i ==> !ActiveFor(records[j], user)
  {
    if records == [] then 0
    else if ActiveFor(records[0], user) then 0
    else 1 + FirstActive(records[1..], user)
  }

  /** One active row remains for `user`, joined at `now`: the first of those there were, or a new one. */
  function Rejoined(records: seq<Participation>, user: UserId, now: int): seq<Participation> {
    var i := FirstActive(records, user);
    if i == |records| then records + [Participation(user, now, None)]
    else MarkLeft(records, user, now)[i := records[i].(joinedAt := now)]
  }

  function PasswordVerdict(s: RoomState, provided: string): Option<RoomError> {
    if s.password != "" && provided == "" then Some(PasswordRequired)
    else if s.password != "" && provided != s.password then Some(InvalidPassword)
    else None
  }

  function JoinOutcome(s: RoomState, user: UserId, provided: string, now: int): Result<RoomState, RoomError> {
    if Ended(s, now) then Failure(EndedCannotAcceptNew)
    else if PasswordVerdict(s, provided).Some? then Failure(PasswordVerdict(s, provided).value)
    else
      var records := Rejoined(s.records, user, now);
      Success(s.(records := records, participantCount := ActiveCount(records)))
  }

  function Recounted(s: RoomState): RoomState { s.(participantCount := ActiveCount(s.records)) }

  function EndedIfEmpty(s: RoomState, now: int): (RoomState, bool) {
    if ActiveCount(s.records) == 0 && !s.tournament
    then (Recounted(s).(endsAt := Some(now)), true)
    else (Recounted(s), false)
  }

  /** `heir` is active and nobody active joined earlier. Equal times are left to the database. */
  ghost predicate EarliestActive(records: seq<Participation>, heir: UserId) {
    exists i :: 0 <= i < |records| && ActiveFor(records[i], heir) && NobodyEarlier(records, records[i].joinedAt)
  }

  ghost predicate NobodyEarlier(records: seq<Participation>, time: int) {
    forall j :: 0 <= j < |records| && records[j].leftAt.None? ==> time <= records[j].joinedAt
  }

  /** The host is leaving and somebody else remains. */
  predicate HandsOver(s: RoomState, user: UserId, now: int) {
    && !Ended(s, now) && user == s.hostId && Present(s.records, user)
    && exists i :: 0 <= i < |s.records| && s.records[i].leftAt.None? && s.records[i].user != user
  }

  ghost predicate LeaveStep(s: RoomState, user: UserId, now: int, ended: bool, t: RoomState) {
    if Ended(s, now) then t == s && ended
    else if HandsOver(s, user, now) then
      var left := MarkLeft(s.records, user, now);
      !ended && EarliestActive(left, t.hostId) && t == s.(records := left, hostId := t.hostId)
    else if Present(s.records, user) then (t, ended) == EndedIfEmpty(s.(records := MarkLeft(s.records, user, now)), now)
    else (t, ended) == EndedIfEmpty(s, now)
  }

  /** `existing` lists the active rows of `user` in order. */
  ghost predicate ActiveRowsOf(records: seq<Participation>, user: UserId, existing: seq<nat>) {
    && (forall k :: 0 <= k < |existing| ==> existing[k] < |records| && ActiveFor(records[existing[k]], user))
    && (forall k, l :: 0 <= k < l < |existing| ==> existing[k] < existing[l])
    && (forall j :: 0 <= j < |records| && ActiveFor(records[j], user) ==> j in existing)
  }

  // ----- the room -----

  class MultiplayerRoom {
    var hostId: UserId
    var endsAt: Option<int>
    var participantCount: nat
    const tournament: bool
    const password: string
    var records: seq<Participation>

    function View(): RoomState
      reads this
    {
      RoomState(hostId, endsAt, participantCount, tournament, password, records)
    }

    /** A new room counts its host, who has no row until the join that follows. */
    constructor (hostId: UserId, password: string)
      ensures View() == Created(hostId, password)
    {
      this.hostId, endsAt, participantCount, tournament, this.password, records := hostId, None, 1, false, password, [];
    }

    method VerifyRoomPassword(provided: string) returns (error: Option<RoomError>)
      ensures error == PasswordVerdict(View(), provided)
    {
      error := None;
      if password != "" && provided == "" { return Some(PasswordRequired); }
      if password != "" && provided != "" && provided != password { return Some(InvalidPassword); }
    }

    method ActiveRows(user: UserId) returns (existing: seq<nat>)
      ensures ActiveRowsOf(records, user, existing)
    {
      existing := [];
      for i := 0 to |records|
        invariant ActiveRowsOf(records[..i], user, existing)
      {
        if ActiveFor(records[i], user) { existing := existing + [i]; }
      }
      assert records[..|records|] == records;
    }

    method AddOrUpdateParticipant(user: UserId, now: int)
      modifies this`records
      ensures records == Rejoined(old(records), user, now)
    {
      var existing := ActiveRows(user);
      FirstOfActiveRows(records, user, existing);
      if existing != [] {
        if |existing| > 1 { MarkExtrasLeft(user, existing, now); }
        assert records == MarkLeft(old(records), user, now)[existing[0] := old(records)[existing[0]]];
        records := records[existing[0] := records[existing[0]].(joinedAt := now)];
      } else {
        records := records + [Participation(user, now, None)];
      }
    }

    /** Duplicates are left; the first row found stays. */
    method MarkExtrasLeft(user: UserId, existing: seq<nat>, now: int)
      requires ActiveRowsOf(records, user, existing) && existing != []
      modifies this`records
      ensures records == MarkLeft(old(records), user, now)[existing[0] := old(records)[existing[0]]]
    {
      ghost var before := records;
      for k := 1 to |existing|
        invariant |records| == |before|
        invariant forall j :: 0 <= j < |before| ==>
          records[j] ==
            if ActiveFor(before[j], user) && existing[0] < j < (if k < |existing| then existing[k] else |before|)
                        then before[j].(leftAt := Some(now)) else before[j]
      {
        records := records[existing[k] := records[existing[k]].(leftAt := Some(now))];
      }
    }

    method UpdateRoomParticipantCount() returns (count: nat)
      modifies this`participantCount
      ensures count == participantCount == ActiveCount(records)
    {
      count := 0;
      for i := 0 to |records|
        invariant count == ActiveCount(records[..i])
      {
        assert records[..i + 1][..i] == records[..i];
        if records[i].leftAt.None? { count := count + 1; }
      }
      assert records[..|records|] == records;
      participantCount := count;
    }

    method EndRoomIfEmpty(now: int) returns (ended: bool)
      modifies this`participantCount, this`endsAt
      ensures (View(), ended) == EndedIfEmpty(old(View()), now)
    {
      var count := UpdateRoomParticipantCount();
      ended := false;
      if count == 0 {
        if tournament { return false; }
        endsAt, participantCount, ended := Some(now), 0, true;
      }
    }

    /** The caller has already marked the host's rows as left. */
    method TransferOwnershipOrEndRoom(leaving: UserId, now: int) returns (ended: bool)
      requires !Present(records, leaving)
      modifies this`hostId, this`participantCount, this`endsAt
      ensures ActiveCount(records) == 0 ==> (View(), ended) == EndedIfEmpty(old(View()), now)
      ensures ActiveCount(records) > 0 ==>
        !ended && EarliestActive(records, hostId) && View() == old(View()).(hostId := hostId)
    {
      var remaining := set i | 0 <= i < |records| && records[i].user != leaving && records[i].leftAt.None?;
      CountsPresent(records);
      assert ActiveCount(records) > 0 ==> remaining != {} by {
        if i :| 0 <= i < |records| && records[i].leftAt.None? {
          assert !ActiveFor(records[i], leaving);
          assert i in remaining;
        }
      }
      if remaining != {} {
        var earliest :| earliest in remaining;
        var rest := remaining;
        while rest != {}
          invariant rest <= remaining && earliest in remaining
          invariant forall i :: i in remaining - rest ==> records[earliest].joinedAt <= records[i].joinedAt
          decreases rest
        {
          var i :| i in rest;
          if records[i].joinedAt < records[earliest].joinedAt {
            earliest := i;
          } else if records[i].joinedAt == records[earliest].joinedAt {
            if * { earliest := i; }
          }
          rest := rest - {i};
        }
        EarliestWitness(records, remaining, earliest, leaving);
        hostId := records[earliest].user;
        return false;
      }
      ended := EndRoomIfEmpty(now);
    }

    method RemoveUser(user: UserId, now: int) returns (ended: bool)
      modifies this
      ensures LeaveStep(old(View()), user, now, ended, View())
    {
      if endsAt.Some? && endsAt.value <= now { return true; }
      var query := FirstActive(records, user);
      if query == |records| {
        ended := EndRoomIfEmpty(now);
        return;
      }
      assert Present(records, user);
      var owner := hostId;
      label marked:
      records := MarkLeft(records, user, now);
      LeftBehind(old(records), user, now);
      if user == owner {
        ended := TransferOwnershipOrEndRoom(user, now);
      } else {
        ended := EndRoomIfEmpty(now);
      }
    }

    method AddUser(user: UserId, provided: string, now: int) returns (error: Option<RoomError>)
      modifies this
      ensures var outcome := JoinOutcome(old(View()), user, provided, now);
        if outcome.Success? then error == None && View() == outcome.value
        else error == Some(outcome.error) && View() == old(View())
    {
      if endsAt.Some? && endsAt.value <= now { return Some(EndedCannotAcceptNew); }
      error := VerifyRoomPassword(provided);
      if error.Some? { return; }
      AddOrUpdateParticipant(user, now);
      var _ := UpdateRoomParticipantCount();
    }
  }

  function Created(hostId: UserId, password: string): RoomState {
    RoomState(hostId, None, 1, false, password, [])
  }

  // ----- facts about rows -----

  lemma {:induction false} CountsPresent(records: seq<Participation>)
    ensures ActiveCount(records) > 0 <==> exists i :: 0 <= i < |records| && records[i].leftAt.None?
  {
    if records != [] {
      var n := |records| - 1;
      CountsPresent(records[..n]);
      if ActiveCount(records[..n]) > 0 {
        var i :| 0 <= i < n && records[..n][i].leftAt.None?;
        assert records[i].leftAt.None?;
      }
      forall i | 0 <= i < n && records[i].leftAt.None? ensures ActiveCount(records[..n]) > 0 {
        assert records[..n][i].leftAt.None?;
      }
    }
  }

  lemma FirstOfActiveRows(records: seq<Participation>, user: UserId, existing: seq<nat>)
    requires ActiveRowsOf(records, user, existing)
    ensures existing == [] ==> FirstActive(records, user) == |records|
    ensures existing != [] ==> FirstActive(records, user) == existing[0]
  {
    var i := FirstActive(records, user);
    if i < |records| {
      var k :| 0 <= k < |existing| && existing[k] == i;
      assert existing[0] <= existing[k];
    }
  }

  lemma EarliestWitness(records: seq<Participation>, remaining: set<int>, earliest: nat, leaving: UserId)
    requires !Present(records, leaving)
    requires remaining == set i | 0 <= i < |records| && records[i].user != leaving && records[i].leftAt.None?
    requires earliest in remaining
    requires forall i :: i in remaining ==> records[earliest].joinedAt <= records[i].joinedAt
    ensures EarliestActive(records, records[earliest].user)
  {
    forall j | 0 <= j < |records| && records[j].leftAt.None? ensures records[earliest].joinedAt <= records[j].joinedAt {
      assert !ActiveFor(records[j], leaving);
      assert j in remaining;
    }
    assert ActiveFor(records[earliest], records[earliest].user);
  }

  /** After a user leaves, rows are active exactly where somebody else's were. */
  lemma LeftBehind(records: seq<Participation>, user: UserId, now: int)
    ensures !Present(MarkLeft(records, user, now), user)
    ensures ActiveCount(MarkLeft(records, user, now)) > 0 <==>
      exists i :: 0 <= i < |records| && records[i].leftAt.None? && records[i].user != user
  {
    var left := MarkLeft(records, user, now);
    CountsPresent(left);
    if i :| 0 <= i < |records| && records[i].leftAt.None? && records[i].user != user {
      assert left[i].leftAt.None?;
    }
    if i :| 0 <= i < |left| && left[i].leftAt.None? {
      assert records[i].leftAt.None? && records[i].user != user;
    }
  }

  // ----- one step -----

  datatype Event = Join(user: UserId, provided: string, now: int) | Leave(user: UserId, now: int)

  ghost predicate Step(s: RoomState, e: Event, t: RoomState) {
    match e
    case Join(user, provided, now) =>
      var outcome := JoinOutcome(s, user, provided, now);
      t == if outcome.Success? then outcome.value else s
    case Leave(user, now) => exists ended :: LeaveStep(s, user, now, ended, t)
  }

  /** When the user's active row says they joined. */
  function Seat(records: seq<Participation>, user: UserId): Option<int> {
    var i := FirstActive(records, user);
    if i < |records| then Some(records[i].joinedAt) else None
  }

  /** Whatever duplicates there were, one active row is left for the user, and nobody else's rows change. */
  lemma RejoinedLeavesOne(records: seq<Participation>, user: UserId, now: int)
    ensures var r := Rejoined(records, user, now);
      exists i :: 0 <= i < |r| && r[i] == Participation(user, now, None) &&
        forall j :: 0 <= j < |r| && ActiveFor(r[j], user) ==> j == i
    ensures var r := Rejoined(records, user, now);
      forall v :: v != user ==> Seat(r, v) == Seat(records, v)
    ensures Seat(Rejoined(records, user, now), user) == Some(now)
    ensures OneActiveEach(records) ==> OneActiveEach(Rejoined(records, user, now))
  {
    var r, i := Rejoined(records, user, now), FirstActive(records, user);
    assert r[i] == Participation(user, now, None);
    forall v | v != user ensures Seat(r, v) == Seat(records, v) {
      SameSeat(records, r, v);
    }
  }

  lemma SameSeat(records: seq<Participation>, r: seq<Participation>, v: UserId)
    requires |records| <= |r|
    requires forall j :: 0 <= j < |records| ==> (ActiveFor(records[j], v) <==> ActiveFor(r[j], v))
    requires forall j :: 0 <= j < |records| && ActiveFor(records[j], v) ==> r[j] == records[j]
    requires forall j :: |records| <= j < |r| ==> !ActiveFor(r[j], v)
    ensures Seat(records, v) == Seat(r, v)
  {
    var i, k := FirstActive(records, v), FirstActive(r, v);
    assert i < |records| ==> ActiveFor(r[i], v);
    assert k < |r| ==> ActiveFor(records[k], v);
  }

  lemma MarkLeftSeats(records: seq<Participation>, user: UserId, now: int, v: UserId)
    ensures Seat(MarkLeft(records, user, now), v) == if v == user then None else Seat(records, v)
    ensures OneActiveEach(records) ==> OneActiveEach(MarkLeft(records, user, now))
  {
    if v != user { SameSeat(records, MarkLeft(records, user, now), v); }
  }

  /** What a step does to one user's seat, in terms of the call that was made. */
  function SeatAfter(s: RoomState, e: Event, user: UserId, seat: Option<int>): Option<int> {
    if e.user != user || Ended(s, e.now) then seat
    else if e.Leave? then None
    else if PasswordVerdict(s, e.provided).Some? then seat
    else Some(e.now)
  }

  lemma LeaveRecords(s: RoomState, e: Event, t: RoomState)
    requires e.Leave? && Step(s, e, t)
    ensures t.records == if Ended(s, e.now) then s.records else MarkLeft(s.records, e.user, e.now)
    ensures t.tournament == s.tournament && t.password == s.password
  {
    var ended :| LeaveStep(s, e.user, e.now, ended, t);
    if !Present(s.records, e.user) { assert MarkLeft(s.records, e.user, e.now) == s.records; }
  }

  lemma StepSeats(s: RoomState, e: Event, t: RoomState, user: UserId)
    requires Step(s, e, t)
    ensures Seat(t.records, user) == SeatAfter(s, e, user, Seat(s.records, user))
    ensures OneActiveEach(s.records) ==> OneActiveEach(t.records)
  {
    hide Seat, MarkLeft, Rejoined, LeaveStep, OneActiveEach;
    match e {
      case Join(u, provided, now) => RejoinedLeavesOne(s.records, u, now);
      case Leave(u, now) =>
        LeaveRecords(s, e, t);
        MarkLeftSeats(s.records, u, now, user);
    }
  }

  // ----- joining, told by the columns -----

  /** A missing or wrong password seats nobody in an open room, and changes nothing. */
  lemma WrongPasswordSeatsNobody(s: RoomState, user: UserId, provided: string, now: int, t: RoomState)
    requires s.endsAt.Some? ==> now < s.endsAt.value
    requires s.password != "" && provided != s.password
    ensures JoinOutcome(s, user, provided, now) == Failure(if provided == "" then PasswordRequired else InvalidPassword)
    ensures Step(s, Join(user, provided, now), t) ==> t == s
  {
  }

  /** Nobody joins a room whose time is over. */
  lemma EndedRoomsAcceptNobody(s: RoomState, user: UserId, provided: string, now: int, t: RoomState)
    requires s.endsAt.Some? && s.endsAt.value <= now
    ensures JoinOutcome(s, user, provided, now) == Failure(EndedCannotAcceptNew)
    ensures Step(s, Join(user, provided, now), t) ==> t == s
  {
  }

  /** Row `i` is the user's one active row, joined at `now`. */
  ghost predicate OnlySeat(records: seq<Participation>, i: nat, user: UserId, now: int) {
    && i < |records| && records[i] == Participation(user, now, None)
    && forall j :: 0 <= j < |records| && records[j].leftAt.None? && records[j].user == user ==> j == i
  }

  /**
   * Into an open room the right password, or any without one, seats the user: one active row of theirs with the time
   * of this call, everybody else's active rows as before, and as many counted as have one.
   */
  lemma RightPasswordSeats(s: RoomState, user: UserId, provided: string, now: int, t: RoomState)
    requires s.endsAt.Some? ==> now < s.endsAt.value
    requires s.password == "" || provided == s.password
    requires Step(s, Join(user, provided, now), t)
    ensures exists i: nat :: OnlySeat(t.records, i, user, now)
    ensures |s.records| <= |t.records|
    ensures forall j :: 0 <= j < |s.records| && s.records[j].user != user ==> t.records[j] == s.records[j]
    ensures forall j :: |s.records| <= j < |t.records| ==> t.records[j].user == user
    ensures t.participantCount == |ActiveRows(t.records)|
    ensures t.hostId == s.hostId && t.endsAt == s.endsAt && t.password == s.password && t.tournament == s.tournament
  {
    RejoinedLeavesOne(s.records, user, now);
    ActiveCountIsCardinality(t.records);
    hide Seat, OneActiveEach, ActiveCount;
    var i :| 0 <= i < |t.records| && t.records[i] == Participation(user, now, None) &&
      forall j :: 0 <= j < |t.records| && ActiveFor(t.records[j], user) ==> j == i;
    assert OnlySeat(t.records, i, user, now);
  }

  ghost predicate SomebodyActive(records: seq<Participation>) {
    exists i :: 0 <= i < |records| && records[i].leftAt.None?
  }

  /**
   * A call to leave an open room closes the user's active rows at the time of the call and no other row. The room ends
   * at that time exactly when nobody is active any more and it is no tournament; the active rows are counted unless
   * the host has just handed the room over.
   */
  lemma LeavingOnFields(s: RoomState, user: UserId, now: int, t: RoomState)
    requires s.endsAt.Some? ==> now < s.endsAt.value
    requires Step(s, Leave(user, now), t)
    ensures |t.records| == |s.records|
    ensures forall j :: 0 <= j < |s.records| ==>
      t.records[j] ==
        if s.records[j].user == user && s.records[j].leftAt.None?
        then Participation(user, s.records[j].joinedAt, Some(now)) else s.records[j]
    ensures t.endsAt == if SomebodyActive(t.records) || s.tournament then s.endsAt else Some(now)
    ensures t.tournament == s.tournament && t.password == s.password
    ensures t.participantCount ==
      if user == s.hostId && Present(s.records, user) && SomebodyActive(t.records) then s.participantCount
      else |ActiveRows(t.records)|
  {
    LeaveRecords(s, Leave(user, now), t);
    RemainsIff(s, user, now);
    CountsPresent(t.records);
    ActiveCountIsCardinality(t.records);
    hide ActiveCount, EarliestActive;
    assert !Present(s.records, user) ==> MarkLeft(s.records, user, now) == s.records;
  }

  lemma RemainsIff(s: RoomState, user: UserId, now: int)
    requires !Ended(s, now)
    ensures HandsOver(s, user, now) <==>
      user == s.hostId && Present(s.records, user) && SomebodyActive(MarkLeft(s.records, user, now))
  {
    var left := MarkLeft(s.records, user, now);
    if i :| 0 <= i < |left| && left[i].leftAt.None? {
      assert s.records[i].leftAt.None? && s.records[i].user != user;
    }
    if i :| 0 <= i < |s.records| && s.records[i].leftAt.None? && s.records[i].user != user {
      assert left[i].leftAt.None?;
    }
  }

  ghost function ActiveRows(records: seq<Participation>): set<int> {
    set i | 0 <= i < |records| && records[i].leftAt.None?
  }

  lemma {:induction false} ActiveCountIsCardinality(records: seq<Participation>)
    ensures ActiveCount(records) == |ActiveRows(records)|
  {
    if records == [] {
      assert ActiveRows(records) == {};
    } else {
      var n := |records| - 1;
      ActiveCountIsCardinality(records[..n]);
      ActiveRowsGrow(records);
      hide ActiveRows;
    }
  }

  lemma ActiveRowsGrow(records: seq<Participation>)
    requires records != []
    ensures var n := |records| - 1;
      && n !in ActiveRows(records[..n])
      && ActiveRows(records) == ActiveRows(records[..n]) + if records[n].leftAt.None? then {n} else {}
  {
  }

  // ----- hand-over and ending -----

  ghost predicate HostSeated(s: RoomState) { Seat(s.records, s.hostId).Some? }

  ghost predicate Vacant(s: RoomState) { ActiveCount(s.records) == 0 && s.participantCount == 0 }

  lemma SeatedIsPresent(records: seq<Participation>, user: UserId)
    ensures Seat(records, user).Some? <==> Present(records, user)
  {
    if i :| 0 <= i < |records| && ActiveFor(records[i], user) { assert FirstActive(records, user) <= i; }
  }

  /** The host of an open room loses the seat exactly by leaving it empty. */
  lemma HostLosesSeatIff(s: RoomState, e: Event, t: RoomState)
    requires Step(s, e, t) && HostSeated(s)
    ensures !HostSeated(t) <==>
      e.Leave? && !Ended(s, e.now) && e.user == s.hostId && !HandsOver(s, e.user, e.now)
  {
    hide Seat, MarkLeft, Rejoined, OneActiveEach, ActiveCount;
    SeatedIsPresent(s.records, s.hostId);
    SeatedIsPresent(t.records, t.hostId);
    StepSeats(s, e, t, s.hostId);
    if e.Leave? {
      LeaveRecords(s, e, t);
      if HandsOver(s, e.user, e.now) {
        var ended :| LeaveStep(s, e.user, e.now, ended, t);
        assert EarliestActive(t.records, t.hostId);
      }
    }
  }

  /** An open room is ended by a step exactly when a call to leave finds nobody active afterwards. */
  lemma EndsExactlyWhenVacated(s: RoomState, e: Event, t: RoomState)
    requires Step(s, e, t) && !Ended(s, e.now)
    ensures Ended(t, e.now) <==> e.Leave? && ActiveCount(t.records) == 0 && !s.tournament
    ensures Ended(t, e.now) ==> Vacant(t)
  {
    if e.Leave? {
      LeaveRecords(s, e, t);
      LeftBehind(s.records, e.user, e.now);
      var ended :| LeaveStep(s, e.user, e.now, ended, t);
      if !Present(s.records, e.user) { assert MarkLeft(s.records, e.user, e.now) == s.records; }
    }
  }

  lemma HandOverPicksEarliest(s: RoomState, e: Event, t: RoomState)
    requires Step(s, e, t)
    ensures t.hostId != s.hostId <==> e.Leave? && HandsOver(s, e.user, e.now)
    ensures t.hostId != s.hostId ==> Present(t.records, t.hostId) && EarliestActive(t.records, t.hostId)
  {
    if e.Leave? {
      var ended :| LeaveStep(s, e.user, e.now, ended, t);
      if HandsOver(s, e.user, e.now) {
        assert !Present(t.records, s.hostId);
      }
    }
  }

  lemma EndedRoomsAreFrozen(s: RoomState, e: Event, t: RoomState)
    requires Step(s, e, t) && Ended(s, e.now)
    ensures t == s
  {
    if e.Leave? { var ended :| LeaveStep(s, e.user, e.now, ended, t); }
  }

  // ----- whole runs -----

  ghost predicate Run(states: seq<RoomState>, events: seq<Event>) {
    && |states| == |events| + 1
    && (forall i :: 0 <= i < |events| ==> Step(states[i], events[i], states[i + 1]))
    && (forall i, j :: 0 <= i < j < |events| ==> events[i].now <= events[j].now)
  }

  /** From an orderly start no user ever holds two active rows. */
  lemma {:induction false} OneActiveAlways(states: seq<RoomState>, events: seq<Event>, k: nat)
    requires Run(states, events) && OneActiveEach(states[0].records) && k <= |events|
    ensures OneActiveEach(states[k].records)
  {
    hide OneActiveEach, Step, SeatAfter, Seat;
    if k > 0 {
      OneActiveAlways(states, events, k - 1);
      StepSeats(states[k - 1], events[k - 1], states[k], 0);
    }
  }

  /** The seat the calls alone give a user after `k` of them. */
  ghost function SeatFromLog(states: seq<RoomState>, events: seq<Event>, k: nat, user: UserId): Option<int>
    requires |states| == |events| + 1 && k <= |events|
  {
    if k == 0 then Seat(states[0].records, user)
    else SeatAfter(states[k - 1], events[k - 1], user, SeatFromLog(states, events, k - 1, user))
  }

  lemma {:induction false} SeatsFollowTheLog(states: seq<RoomState>, events: seq<Event>, k: nat, user: UserId)
    requires Run(states, events) && k <= |events|
    ensures Seat(states[k].records, user) == SeatFromLog(states, events, k, user)
  {
    hide Seat, SeatAfter, Step;
    if k > 0 {
      SeatsFollowTheLog(states, events, k - 1, user);
      StepSeats(states[k - 1], events[k - 1], states[k], user);
    }
  }

  /** The new host's last join is no later than that of anybody else still in the room. */
  lemma HandOverPicksEarliestJoin(states: seq<RoomState>, events: seq<Event>, k: nat, other: UserId)
    requires Run(states, events) && OneActiveEach(states[0].records) && k < |events|
    requires states[k + 1].hostId != states[k].hostId
    ensures SeatFromLog(states, events, k + 1, states[k + 1].hostId).Some?
    ensures var heir := SeatFromLog(states, events, k + 1, states[k + 1].hostId);
      var theirs := SeatFromLog(states, events, k + 1, other);
      theirs.Some? ==> heir.value <= theirs.value
  {
    var t := states[k + 1];
    HandOverPicksEarliest(states[k], events[k], t);
    SeatsFollowTheLog(states, events, k + 1, t.hostId);
    SeatsFollowTheLog(states, events, k + 1, other);
    OneActiveAlways(states, events, k + 1);
    var i :| 0 <= i < |t.records| && ActiveFor(t.records[i], t.hostId) &&
      NobodyEarlier(t.records, t.records[i].joinedAt);
    assert FirstActive(t.records, t.hostId) == i;
  }

  /** Once a room has ended, by its scheduled time or by emptiness, it never changes again. */
  lemma {:induction false} EndedForever(states: seq<RoomState>, events: seq<Event>, i: nat, j: nat)
    requires Run(states, events) && i <= j <= |events|
    requires i < |events| ==> Ended(states[i], events[i].now)
    ensures states[j] == states[i]
  {
    if i < j {
      EndedForever(states, events, i, j - 1);
      EndedRoomsAreFrozen(states[j - 1], events[j - 1], states[j]);
    }
  }

  lemma SeatedHostStep(s: RoomState, e: Event, t: RoomState)
    requires Step(s, e, t) && HostSeated(s) && !s.tournament
    ensures !t.tournament && (HostSeated(t) || (Vacant(t) && Ended(t, e.now)))
  {
    SameKind(s, e, t);
    hide Step, HostSeated, Vacant;
    HostLosesSeatIff(s, e, t);
    if !HostSeated(t) {
      LeaveRecords(s, e, t);
      EndsExactlyWhenVacated(s, e, t);
      LeftBehind(s.records, e.user, e.now);
    }
  }

  lemma SameKind(s: RoomState, e: Event, t: RoomState)
    requires Step(s, e, t)
    ensures t.tournament == s.tournament
  {
    if e.Leave? { LeaveRecords(s, e, t); }
  }

  /** While it is open, a room whose host has taken a seat always has a seated host. */
  lemma {:induction false} HostStaysSeated(states: seq<RoomState>, events: seq<Event>, i: nat, j: nat)
    requires Run(states, events) && i <= j <= |events|
    requires !states[i].tournament && HostSeated(states[i])
    ensures !states[j].tournament
    ensures HostSeated(states[j]) || (Vacant(states[j]) && j > i && Ended(states[j], events[j - 1].now))
  {
    if i < j {
      RunStep(states, events, j);
      hide Run, Step, HostSeated, Vacant, Ended;
      HostStaysSeated(states, events, i, j - 1);
      var s, e, t := states[j - 1], events[j - 1], states[j];
      if HostSeated(s) {
        SeatedHostStep(s, e, t);
      } else {
        EndedStays(s, events[j - 2].now, e.now);
        EndedRoomsAreFrozen(s, e, t);
      }
    }
  }

  lemma RunStep(states: seq<RoomState>, events: seq<Event>, j: nat)
    requires Run(states, events) && 0 < j <= |events|
    ensures |states| == |events| + 1 && Step(states[j - 1], events[j - 1], states[j])
    ensures j > 1 ==> events[j - 2].now <= events[j - 1].now
  {
    hide Step;
  }

  lemma EndedStays(s: RoomState, now: int, later: int)
    requires Ended(s, now) && now <= later
    ensures Ended(s, later)
  {
  }

  // ----- the participant counter -----

  /** How far the stored count is ahead: hand-overs since the rows were last counted. */
  ghost function Drift(states: seq<RoomState>, events: seq<Event>, k: nat): int
    requires |states| == |events| + 1 && k <= |events|
  {
    if k == 0 then states[0].participantCount - ActiveCount(states[0].records)
    else
      var s, e := states[k - 1], events[k - 1];
      if Ended(s, e.now) || (e.Join? && PasswordVerdict(s, e.provided).Some?) then Drift(states, events, k - 1)
      else if e.Leave? && HandsOver(s, e.user, e.now) then Drift(states, events, k - 1) + 1
      else 0
  }

  lemma {:induction false} LeavingCountsOne(records: seq<Participation>, user: UserId, now: int)
    requires OneActiveEach(records)
    ensures ActiveCount(MarkLeft(records, user, now)) ==
      ActiveCount(records) - (if Present(records, user) then 1 else 0)
  {
    if records != [] {
      var n := |records| - 1;
      var init := records[..n];
      assert MarkLeft(records, user, now)[..n] == MarkLeft(init, user, now);
      LeavingCountsOne(init, user, now);
      if ActiveFor(records[n], user) {
        assert !Present(init, user) by {
          forall i | 0 <= i < n ensures !ActiveFor(init[i], user) { assert init[i] == records[i]; }
        }
      } else {
        assert Present(records, user) <==> Present(init, user) by {
          if i :| 0 <= i < |records| && ActiveFor(records[i], user) { assert init[i] == records[i]; }
          if i :| 0 <= i < n && ActiveFor(init[i], user) { assert init[i] == records[i]; }
        }
      }
    }
  }

  /** The stored count is the number of people in the room plus the drift, so it is right exactly at drift zero. */
  lemma {:induction false} CountIsActivePlusDrift(states: seq<RoomState>, events: seq<Event>, k: nat)
    requires Run(states, events) && OneActiveEach(states[0].records) && k <= |events|
    ensures states[k].participantCount == ActiveCount(states[k].records) + Drift(states, events, k)
  {
    hide OneActiveEach, MarkLeft, Rejoined, ActiveCount;
    if k > 0 {
      CountIsActivePlusDrift(states, events, k - 1);
      OneActiveAlways(states, events, k - 1);
      var s, e, t := states[k - 1], events[k - 1], states[k];
      assert Step(s, e, t);
      if e.Leave? {
        var ended :| LeaveStep(s, e.user, e.now, ended, t);
        LeavingCountsOne(s.records, e.user, e.now);
      }
    }
  }

  /** Before the host's own join arrives, a call to leave by anybody ends a new room. */
  lemma NewRoomEndsOnAnyLeave(hostId: UserId, password: string, user: UserId, now: int, t: RoomState)
    requires Step(Created(hostId, password), Leave(user, now), t)
    ensures Ended(t, now)
  {
    var ended :| LeaveStep(Created(hostId, password), user, now, ended, t);
  }

  /** A tournament room stays open without its host. */
  lemma TournamentLosesItsHost(s: RoomState, e: Event, t: RoomState)
    requires s.tournament && HostSeated(s) && Step(s, e, t) && !HostSeated(t)
    ensures !Ended(t, e.now) && t.hostId == s.hostId && Vacant(t)
  {
    HostLosesSeatIff(s, e, t);
    EndsExactlyWhenVacated(s, e, t);
    HandOverPicksEarliest(s, e, t);
    LeftBehind(s.records, e.user, e.now);
    LeaveRecords(s, e, t);
  }
}
