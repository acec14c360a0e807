/** Python's stable `sorted` and SQL's `ORDER BY`, over an arbitrary "at or before" relation. */
module Ordering {
  ghost predicate TotalPreorder<T(!new)>(le: (T, T) -> bool) {
    && (forall x, y :: le(x, y) || le(y, x))
    && (forall x, y, z :: le(x, y) && le(y, z) ==> le(x, z))
  }

  ghost predicate SortedBy<T>(s: seq<T>, le: (T, T) -> bool) {
    forall i, j :: 0 <= i < j < |s| ==> le(s[i], s[j])
  }

  /** The elements of `s` in front of which `x` does not sort stay in front of it. */
  function Insert<T>(x: T, s: seq<T>, le: (T, T) -> bool): (r: seq<T>)
    ensures multiset(r) == multiset(s) + multiset{x}
  {
    if s == [] then [x]
    else if le(x, s[0]) then [x] + s
    else
      assert s == [s[0]] + s[1..];
      [s[0]] + Insert(x, s[1..], le)
  }

  /** `sorted(s, key=...)`: equal keys keep their order. */
  function SortBy<T>(s: seq<T>, le: (T, T) -> bool): (r: seq<T>)
    ensures multiset(r) == multiset(s)
  {
    if s == [] then []
    else
      assert s == [s[0]] + s[1..];
      Insert(s[0], SortBy(s[1..], le), le)
  }

  lemma MultisetMembers<T>(s: seq<T>, t: seq<T>)
    requires multiset(s) == multiset(t)
    ensures |s| == |t|
    ensures forall x :: x in s <==> x in t
  {
    assert |multiset(s)| == |s| && |multiset(t)| == |t|;
    forall x ensures x in s <==> x in t {
      assert x in s <==> x in multiset(s);
      assert x in t <==> x in multiset(t);
    }
  }

  lemma InsertMembers<T>(x: T, s: seq<T>, le: (T, T) -> bool)
    ensures forall y :: y in Insert(x, s, le) <==> y == x || y in s
  {
    var r := Insert(x, s, le);
    forall y ensures y in r <==> y == x || y in s {
      assert y in r <==> y in multiset(r);
      assert y in s <==> y in multiset(s);
    }
  }

  lemma {:induction false} InsertSorted<T(!new)>(x: T, s: seq<T>, le: (T, T) -> bool)
    requires TotalPreorder(le) && SortedBy(s, le)
    ensures SortedBy(Insert(x, s, le), le)
  {
    if s == [] {
    } else if le(x, s[0]) {
      forall j | 0 <= j < |s| ensures le(x, s[j]) {
        assert j == 0 || le(s[0], s[j]);
      }
    } else {
      var tail := Insert(x, s[1..], le);
      InsertSorted(x, s[1..], le);
      InsertMembers(x, s[1..], le);
      forall j | 0 <= j < |tail| ensures le(s[0], tail[j]) {
        assert tail[j] in tail;
      }
    }
  }

  lemma {:induction false} SortByIsSorted<T(!new)>(s: seq<T>, le: (T, T) -> bool)
    requires TotalPreorder(le)
    ensures SortedBy(SortBy(s, le), le)
  {
    if s != [] {
      SortByIsSorted(s[1..], le);
      InsertSorted(s[0], SortBy(s[1..], le), le);
    }
  }

  predicate Tied<T>(y: T, x: T, le: (T, T) -> bool) { le(x, y) && le(y, x) }

  /** The elements that sort neither before nor after `x`, in order. */
  function Ties<T>(s: seq<T>, x: T, le: (T, T) -> bool): seq<T> {
    if s == [] then [] else (if Tied(s[0], x, le) then [s[0]] else []) + Ties(s[1..], x, le)
  }

  lemma TiesOfCons<T>(y: T, s: seq<T>, x: T, le: (T, T) -> bool)
    ensures Ties([y] + s, x, le) == if Tied(y, x, le) then [y] + Ties(s, x, le) else Ties(s, x, le)
  {
    assert ([y] + s)[1..] == s;
  }

  /** Elements that are tied are not in order one way only. */
  lemma TiedAreInOrder<T(!new)>(y: T, z: T, x: T, le: (T, T) -> bool)
    requires TotalPreorder(le) && !le(y, z)
    ensures !Tied(y, x, le) || !Tied(z, x, le)
  {
  }

  lemma {:induction false} InsertKeepsTies<T(!new)>(y: T, s: seq<T>, x: T, le: (T, T) -> bool)
    requires TotalPreorder(le)
    ensures Ties(Insert(y, s, le), x, le) == if Tied(y, x, le) then [y] + Ties(s, x, le) else Ties(s, x, le)
  {
    TiesOfCons(y, s, x, le);
    hide Ties, TotalPreorder, Tied;
    if s == [] {
      assert [y] + s == [y];
    } else if !le(y, s[0]) {
      InsertKeepsTies(y, s[1..], x, le);
      TiesOfCons(s[0], Insert(y, s[1..], le), x, le);
      TiesOfCons(s[0], s[1..], x, le);
      assert [s[0]] + s[1..] == s;
      TiedAreInOrder(y, s[0], x, le);
    }
  }

  lemma {:induction false} SortByIsStable<T(!new)>(s: seq<T>, x: T, le: (T, T) -> bool)
    requires TotalPreorder(le)
    ensures Ties(SortBy(s, le), x, le) == Ties(s, x, le)
  {
    hide TotalPreorder, Insert, Ties, Tied;
    if s != [] {
      SortByIsStable(s[1..], x, le);
      InsertKeepsTies(s[0], SortBy(s[1..], le), x, le);
      TiesOfCons(s[0], s[1..], x, le);
      assert [s[0]] + s[1..] == s;
    }
  }

  /** `sorted` leaves what is in order as it is. */
  lemma {:induction false} SortByOfSorted<T>(s: seq<T>, le: (T, T) -> bool)
    requires SortedBy(s, le)
    ensures SortBy(s, le) == s
  {
    if s != [] {
      SortByOfSorted(s[1..], le);
      assert s == [s[0]] + s[1..];
    }
  }

  /** No two different elements share a sort key. */
  ghost predicate NoTies<T(!new)>(rows: set<T>, le: (T, T) -> bool) {
    forall x, y :: x in rows && y in rows && x != y ==> !le(x, y) || !le(y, x)
  }

  ghost predicate StrictlySorted<T>(s: seq<T>, le: (T, T) -> bool) {
    forall i, j :: 0 <= i < j < |s| ==> !le(s[j], s[i])
  }

  /** When ties are impossible an ordered result is determined by its contents. */
  lemma {:induction false} SortedIsUnique<T>(s: seq<T>, t: seq<T>, le: (T, T) -> bool)
    requires StrictlySorted(s, le) && SortedBy(t, le) && multiset(s) == multiset(t)
    ensures s == t
  {
    MultisetMembers(s, t);
    if s != [] {
      SameHead(s, t, le);
      SameTailContents(s, t);
      SortedIsUnique(s[1..], t[1..], le);
    }
  }

  lemma SameHead<T>(s: seq<T>, t: seq<T>, le: (T, T) -> bool)
    requires StrictlySorted(s, le) && SortedBy(t, le) && s != [] && t != []
    requires s[0] in t && t[0] in s
    ensures s[0] == t[0]
  {
    var i :| 0 <= i < |t| && t[i] == s[0];
    var j :| 0 <= j < |s| && s[j] == t[0];
    assert i > 0 ==> le(t[0], t[i]);
  }

  lemma SameTailContents<T>(s: seq<T>, t: seq<T>)
    requires s != [] && t != [] && s[0] == t[0] && multiset(s) == multiset(t)
    ensures multiset(s[1..]) == multiset(t[1..])
  {
    assert s == [s[0]] + s[1..] && t == [t[0]] + t[1..];
    assert multiset(s[1..]) == multiset(s) - multiset{s[0]};
    assert multiset(t[1..]) == multiset(t) - multiset{t[0]};
  }

  /** The rows of a table, each once, in no promised order. */
  ghost function Enumerate<T(!new)>(rows: set<T>): (r: seq<T>)
    ensures multiset(r) == multiset(rows)
    ensures forall x :: x in r <==> x in rows
  {
    if rows == {} then []
    else
      var x :| x in rows;
      var rest := Enumerate(rows - {x});
      assert multiset(rows) == multiset{x} + multiset(rows - {x});
      [x] + rest
  }

  /** `SELECT ... ORDER BY`: the table's rows in order. */
  ghost function OrderedRows<T(!new)>(rows: set<T>, le: (T, T) -> bool): (r: seq<T>)
    ensures multiset(r) == multiset(rows)
    ensures TotalPreorder(le) ==> SortedBy(r, le)
  {
    var r := SortBy(Enumerate(rows), le);
    assert TotalPreorder(le) ==> SortedBy(r, le) by {
      if TotalPreorder(le) { SortByIsSorted(Enumerate(rows), le); }
    }
    r
  }

  /** A database that answers `ORDER BY`; where ties are impossible the answer is OrderedRows. */
  method SelectOrdered<T(!new,==)>(rows: set<T>, le: (T, T) -> bool) returns (r: seq<T>)
    requires TotalPreorder(le)
    ensures multiset(r) == multiset(rows) && SortedBy(r, le)
    ensures NoTies(rows, le) ==> r == OrderedRows(rows, le)
  {
    hide SortBy, Insert, NoTies, SortedBy, OrderedRows;
    r := [];
    NoRowsAreSorted(le);
    var rest := rows;
    while rest != {}
      invariant rest <= rows
      invariant multiset(r) + multiset(rest) == multiset(rows)
      invariant SortedBy(r, le)
      decreases |rest|
    {
      var x :| x in rest;
      assert multiset(rest) == multiset{x} + multiset(rest - {x});
      InsertSorted(x, r, le);
      r, rest := Insert(x, r, le), rest - {x};
    }
    if NoTies(rows, le) { UntiedOrderIsUnique(r, rows, le); }
  }

  lemma NoRowsAreSorted<T>(le: (T, T) -> bool)
    ensures SortedBy([], le)
  {}

  lemma UntiedOrderIsUnique<T(!new)>(r: seq<T>, rows: set<T>, le: (T, T) -> bool)
    requires TotalPreorder(le) && NoTies(rows, le) && SortedBy(r, le) && multiset(r) == multiset(rows)
    ensures r == OrderedRows(rows, le)
  {
    OrderedMembers(r, rows);
    SortedIsUnique(r, OrderedRows(rows, le), le);
  }

  lemma RemoveAt<T>(s: seq<T>, j: nat)
    requires j < |s|
    ensures multiset(s[..j] + s[j + 1..]) == multiset(s) - multiset{s[j]}
  {
    assert s == s[..j] + [s[j]] + s[j + 1..];
  }

  /** Taking the first element out of both leaves the same contents. */
  lemma SameAfterRemoval<T>(s: seq<T>, t: seq<T>, j: nat)
    requires s != [] && j < |t| && t[j] == s[0] && multiset(s) == multiset(t)
    ensures multiset(s[1..]) == multiset(t[..j] + t[j + 1..])
  {
    RemoveAt(t, j);
    RemoveAt(s, 0);
    assert s[..0] + s[1..] == s[1..];
  }

  lemma OrderedMembers<T>(r: seq<T>, rows: set<T>)
    requires multiset(r) == multiset(rows)
    ensures |r| == |rows|
    ensures forall x :: x in r <==> x in rows
    ensures forall i, j :: 0 <= i < j < |r| ==> r[i] != r[j]
  {
    assert |multiset(r)| == |multiset(rows)| == |rows|;
    forall x ensures x in r <==> x in rows {
      assert x in r <==> x in multiset(r);
      assert x in rows <==> x in multiset(rows);
    }
    forall i, j | 0 <= i < j < |r| ensures r[i] != r[j] {
      if r[i] == r[j] { RepeatCounts(r, i, j); }
    }
  }

  lemma RepeatCounts<T>(r: seq<T>, i: nat, j: nat)
    requires i < j < |r| && r[i] == r[j]
    ensures multiset(r)[r[i]] >= 2
  {
    assert r == r[..j] + [r[j]] + r[j + 1..];
    assert r[..j][i] == r[j];
    assert r[i] in multiset(r[..j]);
  }
}
