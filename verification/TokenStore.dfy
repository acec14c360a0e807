/** Storing an access token: what is deleted to make room for it. */
module TokenStore {
  import opened Ordering

  datatype Secret = Secret(text: string)

  /** A row of oauth_tokens. */
  datatype Token = Token(id: nat, userId: int, clientId: int, access: Secret, createdAt: int, expiresAt: int)

  datatype Request = Request(userId: int, clientId: int, access: Secret, expiresIn: int, multipleDevices: bool)

  const NEWEST_FIRST: (Token, Token) -> bool := (x: Token, y: Token) => x.createdAt >= y.createdAt

  predicate Owns(t: Token, userId: int, clientId: int) { t.userId == userId && t.clientId == clientId }

  function Rows(tokens: set<Token>, userId: int, clientId: int): set<Token> {
    set t | t in tokens && Owns(t, userId, clientId)
  }

  function Elements(s: seq<Token>): set<Token> { set t | t in s }

  function Unexpired(tokens: set<Token>, now: int): set<Token> { set t | t in tokens && t.expiresAt > now }

  function Expired(tokens: set<Token>, now: int): set<Token> { set t | t in tokens && t.expiresAt <= now }

  function Without(tokens: set<Token>, access: Secret): set<Token> { set t | t in tokens && t.access != access }

  function Issued(r: Request, id: nat, now: int): Token {
    Token(id, r.userId, r.clientId, r.access, now, now + r.expiresIn)
  }

  /** Where a Python slice that starts at `start` begins. */
  function SliceStart(length: nat, start: int): (i: nat)
    ensures i <= length
  {
    if start >= length then length
    else if start >= 0 then start
    else if length + start >= 0 then length + start
    else 0
  }

  /** How many of `length` unexpired tokens stay. */
  function KeptCount(length: nat, maximum: int): (n: nat)
    ensures n <= length
  {
    if length >= maximum then SliceStart(length, maximum - 1) else length
  }

  /** `kept` are newest ones of `active`; tokens of the same age are left to the database. */
  ghost predicate Newest(active: set<Token>, kept: set<Token>) {
    kept <= active && forall x, y :: x in kept && y in active - kept ==> x.createdAt >= y.createdAt
  }

  ghost predicate StoreStep(s: set<Token>, r: Request, id: nat, maximum: int, now: int, t: set<Token>) {
    exists kept :: Survivors(s, r, maximum, now, kept) &&
      t == Without(s - Rows(s, r.userId, r.clientId) + kept, r.access) + {Issued(r, id, now)}
  }

  ghost predicate Survivors(s: set<Token>, r: Request, maximum: int, now: int, kept: set<Token>) {
    if r.multipleDevices then LimitedTo(s, r, maximum, now, kept) else kept == {}
  }

  /** The table's key and its unique column. */
  ghost predicate WellKeyed(tokens: set<Token>, nextId: nat) {
    && (forall t :: t in tokens ==> t.id < nextId)
    && (forall x, y :: x in tokens && y in tokens && x != y ==> x.id != y.id && x.access != y.access)
  }

  class TokenTable {
    const maximum: int
    var tokens: set<Token>
    var nextId: nat

    constructor (maximum: int)
      ensures this.maximum == maximum && tokens == {} && WellKeyed(tokens, nextId)
    {
      this.maximum, tokens, nextId := maximum, {}, 0;
    }

    method DeleteAll(doomed: set<Token>)
      modifies this`tokens
      ensures tokens == old(tokens) - doomed
    {
      var rest := doomed;
      while rest != {}
        invariant rest <= doomed
        invariant tokens == old(tokens) - (doomed - rest)
        decreases rest
      {
        var t :| t in rest;
        tokens, rest := tokens - {t}, rest - {t};
      }
    }

    /** Only the newest unexpired tokens of the user and client stay. */
    method LimitActive(r: Request, now: int) returns (ghost kept: set<Token>)
      modifies this`tokens
      ensures LimitedTo(old(tokens), r, maximum, now, kept)
      ensures tokens == old(tokens) - Unexpired(Rows(old(tokens), r.userId, r.clientId), now) + kept
    {
      hide Rows, Owns, Newest, SliceStart, Unexpired, SortedBy, NoTies, OrderedRows, TotalPreorder, Elements;
      NewestFirstIsTotal();
      var rows := Unexpired(Rows(tokens, r.userId, r.clientId), now);
      RowsAreStored(tokens, r.userId, r.clientId, now);
      var active := SelectOrdered(rows, NEWEST_FIRST);
      if |active| >= maximum {
        var start := SliceStart(|active|, maximum - 1);
        ghost var dropped;
        kept, dropped := PrefixIsNewest(active, rows, start);
        DeleteAll(Elements(active[start..]));
        DroppingTheRest(old(tokens), rows, kept, dropped);
      } else {
        kept := rows;
        AllAreNewest(rows);
        OrderedMembers(active, rows);
        DroppingTheRest(tokens, rows, kept, {});
      }
    }

    method StoreToken(r: Request, now: int) returns (record: Token)
      requires WellKeyed(tokens, nextId)
      modifies this
      ensures record == Issued(r, old(nextId), now) && nextId == old(nextId) + 1
      ensures StoreStep(old(tokens), r, old(nextId), maximum, now, tokens)
      ensures WellKeyed(tokens, nextId)
    {
      hide Rows, Unexpired, Expired, LimitedTo, Issued, Without, WellKeyed;
      ghost var before, kept := tokens, {};
      if !r.multipleDevices {
        DeleteAll(Rows(tokens, r.userId, r.clientId));
        assert tokens == before - Rows(before, r.userId, r.clientId) + kept;
      } else {
        DeleteAll(Expired(Rows(tokens, r.userId, r.clientId), now));
        ghost var unexpired := tokens;
        kept := LimitActive(r, now);
        ExpiredAside(before, unexpired, tokens, r, maximum, now, kept);
      }
      StoredRowsAreWellKeyed(before, nextId, r, maximum, now, kept);
      DeleteDuplicate(r.access, before);
      record := Issued(r, nextId, now);
      tokens, nextId := tokens + {record}, nextId + 1;
    }

    method DeleteDuplicate(access: Secret, ghost stored: set<Token>)
      requires WellKeyed(stored, nextId) && tokens <= stored
      modifies this`tokens
      ensures tokens == Without(old(tokens), access)
    {
      var duplicates := set t | t in tokens && t.access == access;
      if duplicates != {} {
        var duplicate :| duplicate in duplicates;
        assert duplicates == {duplicate};
        tokens := tokens - {duplicate};
      }
      assert tokens == old(tokens) - duplicates;
    }
  }

  lemma RowsAreStored(tokens: set<Token>, userId: int, clientId: int, now: int)
    ensures Unexpired(Rows(tokens, userId, clientId), now) <= tokens
  {}

  lemma DroppingTheRest(tokens: set<Token>, rows: set<Token>, kept: set<Token>, dropped: set<Token>)
    requires rows <= tokens && kept + dropped == rows && kept !! dropped
    ensures tokens - dropped == tokens - rows + kept
  {}

  lemma NewestFirstIsTotal()
    ensures TotalPreorder(NEWEST_FIRST)
  {}

  lemma AllAreNewest(rows: set<Token>)
    ensures Newest(rows, rows)
  {}

  lemma StoredRowsAreWellKeyed(s: set<Token>, nextId: nat, r: Request, maximum: int, now: int, kept: set<Token>)
    requires WellKeyed(s, nextId)
    requires if r.multipleDevices then LimitedTo(s, r, maximum, now, kept) else kept == {}
    ensures Survivors(s, r, maximum, now, kept)
    ensures s - Rows(s, r.userId, r.clientId) + kept <= s
    ensures WellKeyed(
      Without(s - Rows(s, r.userId, r.clientId) + kept, r.access) + {Issued(r, nextId, now)}, nextId + 1)
  {}

  ghost predicate LimitedTo(s: set<Token>, r: Request, maximum: int, now: int, kept: set<Token>) {
    var active := Unexpired(Rows(s, r.userId, r.clientId), now);
    Newest(active, kept) && |kept| == KeptCount(|active|, maximum)
  }

  lemma PrefixIsNewest(active: seq<Token>, rows: set<Token>, start: nat) returns (kept: set<Token>, dropped: set<Token>)
    requires SortedBy(active, NEWEST_FIRST) && start <= |active| && multiset(active) == multiset(rows)
    ensures kept == Elements(active[..start]) && dropped == Elements(active[start..])
    ensures Newest(rows, kept) && |kept| == start && |active| == |rows|
    ensures kept + dropped == rows && kept !! dropped
  {
    OrderedMembers(active, rows);
    kept, dropped := Elements(active[..start]), Elements(active[start..]);
    assert active == active[..start] + active[start..];
    assert kept + dropped == rows;
    EarlierIsNewer(active, start);
    assert rows - kept == dropped;
    DistinctCount(active[..start]);
  }

  lemma EarlierIsNewer(active: seq<Token>, start: nat)
    requires SortedBy(active, NEWEST_FIRST) && start <= |active|
    requires forall i, j :: 0 <= i < j < |active| ==> active[i] != active[j]
    ensures forall x, y :: x in active[..start] && y in active[start..] ==> x.createdAt >= y.createdAt && x != y
  {
    forall x, y | x in active[..start] && y in active[start..] ensures x.createdAt >= y.createdAt && x != y {
      var i :| 0 <= i < start && active[i] == x;
      var j :| 0 <= j < |active[start..]| && active[start..][j] == y;
      assert NEWEST_FIRST(active[i], active[start + j]);
    }
  }

  lemma {:induction false} DistinctCount(s: seq<Token>)
    requires forall i, j :: 0 <= i < j < |s| ==> s[i] != s[j]
    ensures |Elements(s)| == |s|
  {
    if s != [] {
      var n := |s| - 1;
      DistinctCount(s[..n]);
      assert Elements(s) == Elements(s[..n]) + {s[n]};
    }
  }

  /** Deleting the expired rows first is deleting all rows that are not kept. */
  lemma ExpiredAside(
      s: set<Token>, unexpired: set<Token>, t: set<Token>, r: Request, maximum: int, now: int, kept: set<Token>)
    requires unexpired == s - Expired(Rows(s, r.userId, r.clientId), now)
    requires LimitedTo(unexpired, r, maximum, now, kept)
    requires t == unexpired - Unexpired(Rows(unexpired, r.userId, r.clientId), now) + kept
    ensures LimitedTo(s, r, maximum, now, kept)
    ensures t == s - Rows(s, r.userId, r.clientId) + kept
  {
    assert Unexpired(Rows(unexpired, r.userId, r.clientId), now) == Unexpired(Rows(s, r.userId, r.clientId), now);
  }

  // ----- one step -----

  lemma StepRows(s: set<Token>, r: Request, id: nat, maximum: int, now: int, t: set<Token>, kept: set<Token>)
    requires Survivors(s, r, maximum, now, kept)
    requires t == Without(s - Rows(s, r.userId, r.clientId) + kept, r.access) + {Issued(r, id, now)}
    ensures Rows(t, r.userId, r.clientId) == Without(kept, r.access) + {Issued(r, id, now)}
    ensures forall u, c :: (u, c) != (r.userId, r.clientId) ==> Rows(t, u, c) == Without(Rows(s, u, c), r.access)
  {}

  lemma KeptCardinality(s: set<Token>, r: Request, maximum: int, now: int, kept: set<Token>)
    requires Survivors(s, r, maximum, now, kept) && maximum >= 1
    ensures |kept| <= maximum - 1
  {}

  lemma SubsetCount(a: set<Token>, b: set<Token>)
    requires a <= b
    ensures |a| <= |b|
  {
    assert b == a + (b - a);
  }

  /** Storing a token leaves the pair within the limit, whatever the table held before, and adds to no other pair. */
  lemma StoringLimitsThePair(s: set<Token>, r: Request, id: nat, maximum: int, now: int, t: set<Token>)
    requires StoreStep(s, r, id, maximum, now, t) && maximum >= 1
    ensures Issued(r, id, now) in Rows(t, r.userId, r.clientId)
    ensures 1 <= |Rows(t, r.userId, r.clientId)| <= maximum
    ensures !r.multipleDevices ==> Rows(t, r.userId, r.clientId) == {Issued(r, id, now)}
    ensures forall u, c :: (u, c) != (r.userId, r.clientId) ==> Rows(t, u, c) <= Rows(s, u, c)
  {
    var kept :| Survivors(s, r, maximum, now, kept) &&
      t == Without(s - Rows(s, r.userId, r.clientId) + kept, r.access) + {Issued(r, id, now)};
    StepRows(s, r, id, maximum, now, t, kept);
    KeptCardinality(s, r, maximum, now, kept);
    SubsetCount(Without(kept, r.access), kept);
    var rows := Rows(t, r.userId, r.clientId);
    SubsetCount({Issued(r, id, now)}, rows);
    assert |rows| <= |Without(kept, r.access)| + 1;
  }

  lemma StepKeepsKeys(s: set<Token>, r: Request, id: nat, maximum: int, now: int, t: set<Token>)
    requires StoreStep(s, r, id, maximum, now, t) && WellKeyed(s, id)
    ensures WellKeyed(t, id + 1)
  {
    var kept :| Survivors(s, r, maximum, now, kept) &&
      t == Without(s - Rows(s, r.userId, r.clientId) + kept, r.access) + {Issued(r, id, now)};
    StoredRowsAreWellKeyed(s, id, r, maximum, now, kept);
  }

  // ----- runs -----

  datatype Event = Event(request: Request, now: int)

  /** The ids are handed out in order from `first`. */
  ghost predicate Run(states: seq<set<Token>>, events: seq<Event>, first: nat, maximum: int) {
    && |states| == |events| + 1 && WellKeyed(states[0], first)
    && (forall i :: 0 <= i < |events| ==> Stored(states[i], events[i], first + i, maximum, states[i + 1]))
    && (forall i, j :: 0 <= i < j < |events| ==> events[i].now <= events[j].now)
  }

  ghost predicate Stored(s: set<Token>, e: Event, id: nat, maximum: int, t: set<Token>) {
    StoreStep(s, e.request, id, maximum, e.now, t)
  }

  lemma {:induction false} AccessTokensStayUnique(
      states: seq<set<Token>>, events: seq<Event>, first: nat, maximum: int, k: nat)
    requires Run(states, events, first, maximum) && k <= |events|
    ensures WellKeyed(states[k], first + k)
  {
    hide WellKeyed, StoreStep;
    if k > 0 {
      AccessTokensStayUnique(states, events, first, maximum, k - 1);
      var i := k - 1;
      assert Stored(states[i], events[i], first + i, maximum, states[i + 1]);
      StepKeepsKeys(states[i], events[i].request, first + i, maximum, events[i].now, states[k]);
    }
  }

  /** Once a pair has been stored for, it never holds more than the maximum again, expired tokens included. */
  lemma {:induction false} PairsStayLimited(
      states: seq<set<Token>>, events: seq<Event>, first: nat, maximum: int, i: nat, k: nat)
    requires Run(states, events, first, maximum) && maximum >= 1 && i < k <= |events|
    ensures |Rows(states[k], events[i].request.userId, events[i].request.clientId)| <= maximum
  {
    hide WellKeyed, StoreStep, Rows;
    var u, c := events[i].request.userId, events[i].request.clientId;
    var j := k - 1;
    assert Stored(states[j], events[j], first + j, maximum, states[j + 1]);
    StoringLimitsThePair(states[j], events[j].request, first + j, maximum, events[j].now, states[k]);
    if j > i {
      PairsStayLimited(states, events, first, maximum, i, j);
      if (u, c) != (events[j].request.userId, events[j].request.clientId) {
        SubsetCount(Rows(states[k], u, c), Rows(states[j], u, c));
      }
    }
  }

  ghost function TokenAt(events: seq<Event>, first: nat, i: nat): Token
    requires i < |events|
  {
    Issued(events[i].request, first + i, events[i].now)
  }

  /** Every token known after `k` calls, stored or deleted since. */
  ghost function Known(states: seq<set<Token>>, events: seq<Event>, first: nat, k: nat): set<Token>
    requires |states| > 0 && k <= |events|
  {
    if k == 0 then states[0] else Known(states, events, first, k - 1) + {TokenAt(events, first, k - 1)}
  }

  /** The other tokens of the same user and client that are no older. */
  ghost function NoOlder(tokens: set<Token>, b: Token): set<Token> {
    set x | x in tokens && Owns(x, b.userId, b.clientId) && x != b && x.createdAt >= b.createdAt
  }

  lemma {:induction false} StoredIsKnown(states: seq<set<Token>>, events: seq<Event>, first: nat, maximum: int, k: nat)
    requires Run(states, events, first, maximum) && k <= |events|
    ensures states[k] <= Known(states, events, first, k)
  {
    hide WellKeyed, StoreStep, Issued;
    if k > 0 {
      var i := k - 1;
      StoredIsKnown(states, events, first, maximum, i);
      assert Stored(states[i], events[i], first + i, maximum, states[i + 1]);
      StepAddsOne(states[i], events[i].request, first + i, maximum, events[i].now, states[k]);
    }
  }

  lemma StepAddsOne(s: set<Token>, r: Request, id: nat, maximum: int, now: int, t: set<Token>)
    requires StoreStep(s, r, id, maximum, now, t)
    ensures t <= s + {Issued(r, id, now)} && Issued(r, id, now) in t
  {
    var kept :| Survivors(s, r, maximum, now, kept) &&
      t == Without(s - Rows(s, r.userId, r.clientId) + kept, r.access) + {Issued(r, id, now)};
  }

  /** What a step deletes although unexpired and not reissued, it deletes for newer tokens of the same pair. */
  lemma DisplacedInStep(s: set<Token>, r: Request, id: nat, maximum: int, now: int, t: set<Token>, b: Token)
    requires StoreStep(s, r, id, maximum, now, t) && WellKeyed(s, id) && maximum >= 1
    requires b in s && b !in t && b.expiresAt > now && b.access != r.access && b.createdAt <= now && r.multipleDevices
    ensures |NoOlder(s + {Issued(r, id, now)}, b)| >= maximum
  {
    var kept :| Survivors(s, r, maximum, now, kept) &&
      t == Without(s - Rows(s, r.userId, r.clientId) + kept, r.access) + {Issued(r, id, now)};
    assert b in Unexpired(Rows(s, r.userId, r.clientId), now) - kept;
    SurvivorsAreNoOlder(s, r, id, maximum, now, kept, b);
  }

  lemma SurvivorsAreNoOlder(s: set<Token>, r: Request, id: nat, maximum: int, now: int, kept: set<Token>, b: Token)
    requires WellKeyed(s, id) && LimitedTo(s, r, maximum, now, kept) && r.multipleDevices && maximum >= 1
    requires b in Unexpired(Rows(s, r.userId, r.clientId), now) - kept && b.createdAt <= now
    ensures |NoOlder(s + {Issued(r, id, now)}, b)| >= maximum
  {
    hide WellKeyed, Unexpired, Rows, NoOlder, Issued;
    RoomIsFull(Unexpired(Rows(s, r.userId, r.clientId), now), kept, b, maximum);
    KeptAreNoOlder(s, r, id, maximum, now, kept, b);
    assert |kept + {Issued(r, id, now)}| == maximum;
    SubsetCount(kept + {Issued(r, id, now)}, NoOlder(s + {Issued(r, id, now)}, b));
  }

  lemma RoomIsFull(active: set<Token>, kept: set<Token>, b: Token, maximum: int)
    requires kept <= active && b in active - kept && |kept| == KeptCount(|active|, maximum) && maximum >= 1
    ensures |kept| == maximum - 1
  {
    SubsetCount(kept + {b}, active);
  }

  lemma KeptAreNoOlder(s: set<Token>, r: Request, id: nat, maximum: int, now: int, kept: set<Token>, b: Token)
    requires WellKeyed(s, id) && Survivors(s, r, maximum, now, kept) && r.multipleDevices
    requires b in Unexpired(Rows(s, r.userId, r.clientId), now) - kept && b.createdAt <= now
    ensures kept + {Issued(r, id, now)} <= NoOlder(s + {Issued(r, id, now)}, b)
    ensures Issued(r, id, now) !in kept
  {}

  /**
   * With several devices allowed, a token is gone before it expires only if its access token was issued again or at
   * least `maximum` tokens that are no older were known for the same user and client.
   */
  lemma {:induction false} DisplacedOnlyByNewer(
      states: seq<set<Token>>, events: seq<Event>, first: nat, maximum: int, i: nat, k: nat)
    requires Run(states, events, first, maximum) && maximum >= 1 && i < k <= |events|
    requires forall j :: i < j < k ==>
      events[j].request.multipleDevices && events[j].request.access != events[i].request.access
    requires TokenAt(events, first, i) !in states[k] && TokenAt(events, first, i).expiresAt > events[k - 1].now
    ensures |NoOlder(Known(states, events, first, k), TokenAt(events, first, i))| >= maximum
  {
    hide WellKeyed, StoreStep, NoOlder;
    var b, j := TokenAt(events, first, i), k - 1;
    assert Stored(states[j], events[j], first + j, maximum, states[j + 1]);
    StepAddsOne(states[j], events[j].request, first + j, maximum, events[j].now, states[k]);
    assert j > i;
    StoredIsKnown(states, events, first, maximum, j);
    if b !in states[j] {
      DisplacedOnlyByNewer(states, events, first, maximum, i, j);
      NoOlderGrows(Known(states, events, first, j), Known(states, events, first, k), b);
    } else {
      AccessTokensStayUnique(states, events, first, maximum, j);
      DisplacedInStep(states[j], events[j].request, first + j, maximum, events[j].now, states[k], b);
      NoOlderGrows(states[j] + {TokenAt(events, first, j)}, Known(states, events, first, k), b);
    }
  }

  lemma NoOlderGrows(a: set<Token>, b: set<Token>, x: Token)
    requires a <= b
    ensures |NoOlder(a, x)| <= |NoOlder(b, x)|
  {
    SubsetCount(NoOlder(a, x), NoOlder(b, x));
  }

  /** The limit is kept exactly by a positive maximum: the new token alone exceeds any other. */
  lemma LimitNeedsPositiveMaximum(maximum: int)
    ensures (forall s, r, id, now, t :: StoreStep(s, r, id, maximum, now, t) ==> Within(t, r, maximum)) <==>
      maximum >= 1
  {
    if maximum >= 1 {
      forall s, r, id, now, t | StoreStep(s, r, id, maximum, now, t) ensures Within(t, r, maximum) {
        StoringLimitsThePair(s, r, id, maximum, now, t);
      }
    } else {
      var r := Request(0, 0, Secret(""), 0, false);
      var s, t: set<Token> := {}, {Issued(r, 0, 0)};
      assert Survivors(s, r, maximum, 0, {});
      assert Without(s - Rows(s, 0, 0) + {}, r.access) + {Issued(r, 0, 0)} == t;
      assert StoreStep(s, r, 0, maximum, 0, t);
      assert !Within(t, r, maximum);
    }
  }

  ghost predicate Within(t: set<Token>, r: Request, maximum: int) {
    |Rows(t, r.userId, r.clientId)| <= maximum
  }


  // ----- the new token and the others, told by the columns -----

  lemma SurvivorsColumns(s: set<Token>, r: Request, maximum: int, now: int, kept: set<Token>)
    requires Survivors(s, r, maximum, now, kept)
    ensures forall x :: x in kept ==>
      x in s && x.userId == r.userId && x.clientId == r.clientId && r.multipleDevices && x.expiresAt > now
  {}

  /**
   * After a call exactly one stored token has the access token of the request: a new one of the user and client,
   * created now and expiring as asked. Every other token was stored before; those of other users and clients with
   * another access token all stay; those of the pair stay only if unexpired, and none in single-device mode.
   */
  lemma StoredTokenColumns(s: set<Token>, r: Request, id: nat, maximum: int, now: int, t: set<Token>)
    requires StoreStep(s, r, id, maximum, now, t)
    ensures exists x :: x in t && x.access == r.access && forall y :: y in t && y.access == r.access ==> y == x
    ensures forall x :: x in t && x.access == r.access ==>
      && x.id == id && x.userId == r.userId && x.clientId == r.clientId
      && x.createdAt == now && x.expiresAt == now + r.expiresIn
    ensures forall x :: x in t && x.access != r.access ==> x in s
    ensures forall x :: x in s && x.access != r.access && (x.userId != r.userId || x.clientId != r.clientId) ==> x in t
    ensures forall x :: x in t && x.access != r.access && x.userId == r.userId && x.clientId == r.clientId ==>
      r.multipleDevices && x.expiresAt > now
  {
    hide Survivors;
    var kept :| Survivors(s, r, maximum, now, kept) &&
      t == Without(s - Rows(s, r.userId, r.clientId) + kept, r.access) + {Issued(r, id, now)};
    SurvivorsColumns(s, r, maximum, now, kept);
    assert Issued(r, id, now) in t;
  }
}
