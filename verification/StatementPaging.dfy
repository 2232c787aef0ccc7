/** Following the cursors of a statement, over a table that stands still and over one that does not. */
module StatementPaging {
  import opened LedgerTypes
  import opened Reconciler
  import opened Sequences
  import opened Statement

  function At(r: Row): Position {
    Position(r.date, r.id)
  }

  /** Ids are the table's primary key. */
  ghost predicate DistinctIds(table: seq<Row>) {
    forall i, j | 0 <= i < j < |table| :: table[i].id != table[j].id
  }

  ghost predicate Descending(rows: seq<Row>) {
    forall i, j | 0 <= i < j < |rows| :: Precedes(At(rows[i]), At(rows[j]))
  }

  // ----- One page -----

  /** What a query finds: exactly the matching rows beyond the cursor, in strictly descending order. */
  lemma FoundSpec(table: seq<Row>, query: Query, cursor: Option<Position>)
    requires DistinctIds(table)
    ensures Descending(Found(table, query, cursor))
    ensures forall r :: r in Found(table, query, cursor) <==> r in table && Matches(query, r) && Beyond(cursor, r)
  {
    var p := Wanted(query, cursor);
    var kept := Filter(table, |table|, p);
    var found := Found(table, query, cursor);
    FilterAll(table, p);
    SortMembers(kept, InOrder());
    assert TotalPreorder(InOrder());
    SortSorted(kept, |kept|, InOrder());
    assert DistinctBy(table, PositionOf());
    SortFilterDistinct(table, p, InOrder(), PositionOf());
    forall i, j | 0 <= i < j < |found| ensures Precedes(At(found[i]), At(found[j])) {
      assert InOrder()(found[i], found[j]);
      assert PositionOf()(found[i]) != PositionOf()(found[j]);
    }
  }

  /** A page is the start of what is found, and names its last row exactly when there is more. */
  lemma PageSpec(table: seq<Row>, query: Query, cursor: Option<Position>, limit: nat)
    requires limit > 0
    ensures var found := Found(table, query, cursor);
            var page := ReadPage(table, query, cursor, limit);
            if |found| > limit
            then page.rows == found[..limit] && page.next == Some(At(found[limit - 1]))
            else page.rows == found && page.next == None
  {
    hide Found;
    var found := Found(table, query, cursor);
    if |found| > limit {
      assert found[..limit + 1][..limit] == found[..limit];
    }
  }

  /** With a limit of zero the first page is empty and is the last, whatever the table holds. */
  lemma ZeroLimitEnds(table: seq<Row>, query: Query, cursor: Option<Position>)
    ensures ReadPage(table, query, cursor, 0) == Page([], None)
  {
  }

  /** The cursor a walk carries: none at first, then the position of the last row received. */
  ghost predicate CursorIs(codec: Codec, request: Request, rows: seq<Row>, cursor: string) {
    if rows == [] then cursor == ""
    else cursor == EncodeCursor(codec, KeysetCursor(At(rows[|rows| - 1]), request.filters))
  }

  function LastPosition(rows: seq<Row>): Option<Position> {
    if rows == [] then None else Some(At(rows[|rows| - 1]))
  }

  /** Through the signed cursor, the service asks the repository for what lies beyond the last row received. */
  lemma ListContinues(codec: Codec, table: seq<Row>, request: Request, rows: seq<Row>, cursor: string, limit: nat)
    requires CodecOk(codec) && CursorIs(codec, request, rows, cursor)
    ensures List(codec, true, table, request, cursor, limit) == ListPage(codec, table, request, LastPosition(rows), limit)
  {
    hide CodecOk, EncodeCursor, DecodeCursor, ReadPage;
    if rows != [] {
      var c := KeysetCursor(At(rows[|rows| - 1]), request.filters);
      CursorRoundTrip(codec, c, request.filters);
      CursorNotEmpty(codec, c);
    }
  }

  lemma CursorNotEmpty(codec: Codec, c: KeysetCursor)
    ensures EncodeCursor(codec, c) != ""
  {
    assert '.' in EncodeCursor(codec, c);
  }

  // ----- Tables that change -----

  ghost predicate Shows(table: seq<Row>, query: Query, p: Position) {
    exists r :: r in table && At(r) == p && Matches(query, r)
  }

  /** A row at `p` matches the query each time a page is read. */
  ghost predicate ShowsThroughout(tables: seq<seq<Row>>, query: Query, p: Position, n: nat)
    requires n <= |tables|
  {
    forall i | 0 <= i < n :: Shows(tables[i], query, p)
  }

  ghost predicate Returned(rows: seq<Row>, p: Position) {
    exists i :: 0 <= i < |rows| && At(rows[i]) == p
  }

  /** Every row that matches throughout and comes no later than `until` has been returned. */
  ghost predicate CompleteUpTo(rows: seq<Row>, tables: seq<seq<Row>>, query: Query, n: nat, until: Option<Position>)
    requires n <= |tables|
  {
    forall p | ShowsThroughout(tables, query, p, n) && (until.None? || !Precedes(until.value, p)) :: Returned(rows, p)
  }

  /** Every row received matched the query in the table its page was read from. */
  ghost predicate Sourced(rows: seq<Row>, tables: seq<seq<Row>>, query: Query, n: nat)
    requires n <= |tables|
  {
    forall r | r in rows :: Matches(query, r) && exists i :: 0 <= i < n && r in tables[i]
  }

  lemma SourcedAppend(rows: seq<Row>, more: seq<Row>, tables: seq<seq<Row>>, query: Query, n: nat)
    requires n < |tables| && Sourced(rows, tables, query, n) && forall r | r in more :: r in tables[n] && Matches(query, r)
    ensures Sourced(rows + more, tables, query, n + 1)
  {
  }

  /** What a walk has achieved after `n` pages. */
  ghost predicate Achieved(codec: Codec, tables: seq<seq<Row>>, request: Request, n: nat, w: Walk)
    requires n <= |tables|
  {
    && !w.Broken?
    && Descending(w.rows)
    && Sourced(w.rows, tables, QueryOf(request), n)
    && (w.Walking? ==>
          && CursorIs(codec, request, w.rows, w.cursor)
          && (w.rows == [] ==> n == 0)
          && (w.rows != [] ==> CompleteUpTo(w.rows, tables, QueryOf(request), n, LastPosition(w.rows))))
    && (w.Finished? ==> CompleteUpTo(w.rows, tables, QueryOf(request), n, None))
  }

  lemma DescendingAppend(a: seq<Row>, b: seq<Row>)
    requires Descending(a) && Descending(b) && forall r | r in b :: Beyond(LastPosition(a), r)
    ensures Descending(a + b)
  {
    var c := a + b;
    forall i, j | 0 <= i < j < |c| ensures Precedes(At(c[i]), At(c[j])) {
      if i < |a| <= j {
        assert b[j - |a|] in b;
        assert i < |a| - 1 ==> Precedes(At(a[i]), At(a[|a| - 1]));
      }
    }
  }

  lemma ReturnedAppend(a: seq<Row>, b: seq<Row>, p: Position)
    ensures Returned(a + b, p) <==> Returned(a, p) || Returned(b, p)
  {
    if Returned(a, p) {
      var i :| 0 <= i < |a| && At(a[i]) == p;
      assert (a + b)[i] == a[i];
    }
    if Returned(b, p) {
      var i :| 0 <= i < |b| && At(b[i]) == p;
      assert (a + b)[|a| + i] == b[i];
    }
  }

  /** A row of the query that lies beyond what was received is found, and is on the page unless it comes after it. */
  lemma OnPage(table: seq<Row>, query: Query, last: Option<Position>, limit: nat, p: Position)
    requires DistinctIds(table) && limit > 0 && Shows(table, query, p) && (last.None? || Precedes(last.value, p))
    ensures var page := ReadPage(table, query, last, limit);
            page.next.None? || !Precedes(page.next.value, p) ==> Returned(page.rows, p)
  {
    hide Found, ReadPage;
    var found, page := Found(table, query, last), ReadPage(table, query, last, limit);
    FoundSpec(table, query, last);
    PageSpec(table, query, last, limit);
    var r :| r in table && At(r) == p && Matches(query, r);
    assert r in found;
    var i :| 0 <= i < |found| && found[i] == r;
    if page.next.None? {
      assert At(page.rows[i]) == p;
    } else if i < limit {
      assert At(page.rows[i]) == p;
    }
  }

  lemma PageRows(table: seq<Row>, query: Query, last: Option<Position>, limit: nat)
    requires DistinctIds(table) && limit > 0
    ensures var page := ReadPage(table, query, last, limit);
            && Descending(page.rows)
            && (forall r | r in page.rows :: r in table && Matches(query, r) && Beyond(last, r))
            && (page.next.Some? ==> page.rows != [] && page.next == LastPosition(page.rows))
  {
    hide Found, ReadPage;
    var found := Found(table, query, last);
    FoundSpec(table, query, last);
    PageSpec(table, query, last, limit);
    assert forall r | r in found[..if |found| > limit then limit else |found|] :: r in found;
  }

  lemma StepComplete(rows: seq<Row>, tables: seq<seq<Row>>, query: Query, n: nat, limit: nat)
    requires n < |tables| && DistinctIds(tables[n]) && limit > 0
    requires rows != [] ==> CompleteUpTo(rows, tables, query, n, LastPosition(rows))
    ensures var page := ReadPage(tables[n], query, LastPosition(rows), limit);
            CompleteUpTo(rows + page.rows, tables, query, n + 1, page.next)
  {
    hide ReadPage, Shows, Returned;
    var last := LastPosition(rows);
    var page := ReadPage(tables[n], query, last, limit);
    forall p | ShowsThroughout(tables, query, p, n + 1) && (page.next.None? || !Precedes(page.next.value, p))
      ensures Returned(rows + page.rows, p)
    {
      ReturnedAppend(rows, page.rows, p);
      assert Shows(tables[n], query, p);
      if last.None? || Precedes(last.value, p) {
        OnPage(tables[n], query, last, limit, p);
      } else {
        assert ShowsThroughout(tables, query, p, n);
      }
    }
  }

  lemma StepAchieved(codec: Codec, tables: seq<seq<Row>>, request: Request, limits: seq<nat>, n: nat)
    requires CodecOk(codec) && n < |tables| && n < |limits| && DistinctIds(tables[n]) && limits[n] > 0
    requires Achieved(codec, tables, request, n, Follow(codec, tables, request, limits, n))
    requires Follow(codec, tables, request, limits, n).Walking?
    ensures Achieved(codec, tables, request, n + 1, Follow(codec, tables, request, limits, n + 1))
  {
    hide CodecOk, EncodeCursor, ReadPage, CompleteUpTo, List, Descending, Sourced, Matches;
    var w := Follow(codec, tables, request, limits, n);
    var query, last := QueryOf(request), LastPosition(w.rows);
    var page := ReadPage(tables[n], query, last, limits[n]);
    ListContinues(codec, tables[n], request, w.rows, w.cursor, limits[n]);
    PageRows(tables[n], query, last, limits[n]);
    DescendingAppend(w.rows, page.rows);
    SourcedAppend(w.rows, page.rows, tables, query, n);
    StepComplete(w.rows, tables, query, n, limits[n]);
    var rows := w.rows + page.rows;
    if page.next.Some? {
      assert rows[|rows| - 1] == page.rows[|page.rows| - 1];
    }
  }

  lemma FinishedStays(codec: Codec, tables: seq<seq<Row>>, request: Request, n: nat, w: Walk)
    requires n < |tables| && w.Finished? && Achieved(codec, tables, request, n, w)
    ensures Achieved(codec, tables, request, n + 1, w)
  {
    hide Shows, Returned, Descending;
    forall p | ShowsThroughout(tables, QueryOf(request), p, n + 1) ensures Returned(w.rows, p) {
      assert ShowsThroughout(tables, QueryOf(request), p, n);
    }
  }

  /**
   Whatever is inserted, changed or removed between pages: the rows received are in strictly descending
   order, so none is received twice; each matched when its page was read; and once the walk has
   finished, every row that matched each time has been received.
   */
  lemma {:induction false} PagingOverChangingTables(codec: Codec, tables: seq<seq<Row>>, request: Request, limits: seq<nat>, n: nat)
    requires CodecOk(codec) && n <= |tables| && n <= |limits|
    requires (forall i | 0 <= i < |tables| :: DistinctIds(tables[i])) && (forall i | 0 <= i < |limits| :: limits[i] > 0)
    ensures Achieved(codec, tables, request, n, Follow(codec, tables, request, limits, n))
  {
    hide CodecOk, DistinctIds, Achieved;
    if n == 0 {
      StartAchieved(codec, tables, request, limits);
    } else {
      PagingOverChangingTables(codec, tables, request, limits, n - 1);
      var w := Follow(codec, tables, request, limits, n - 1);
      NotBroken(codec, tables, request, n - 1, w);
      if w.Walking? {
        StepAchieved(codec, tables, request, limits, n - 1);
      } else {
        FinishedStays(codec, tables, request, n - 1, w);
      }
    }
  }

  lemma StartAchieved(codec: Codec, tables: seq<seq<Row>>, request: Request, limits: seq<nat>)
    ensures Achieved(codec, tables, request, 0, Follow(codec, tables, request, limits, 0))
  {
  }

  lemma NotBroken(codec: Codec, tables: seq<seq<Row>>, request: Request, n: nat, w: Walk)
    requires n <= |tables| && Achieved(codec, tables, request, n, w)
    ensures !w.Broken?
  {
  }

  // ----- A table that stands still -----

  /** A descending list that agrees with `b` on its first `m` rows has row `m` of `b` at `m` or later. */
  lemma NotEarlier(a: seq<Row>, b: seq<Row>, m: nat, i: int)
    requires Descending(a) && Descending(b) && m <= |a| && m < |b| && (forall k | 0 <= k < m :: a[k] == b[k])
    requires 0 <= i < |a| && a[i] == b[m]
    ensures i >= m
  {
  }

  lemma {:induction false} DescendingAlign(a: seq<Row>, b: seq<Row>, n: nat)
    requires Descending(a) && Descending(b) && n <= |a| && n <= |b| && forall r :: r in a <==> r in b
    ensures forall i | 0 <= i < n :: a[i] == b[i]
  {
    if n > 0 {
      DescendingAlign(a, b, n - 1);
      var m := n - 1;
      assert a[m] in b && b[m] in a;
      var j :| 0 <= j < |b| && b[j] == a[m];
      var i :| 0 <= i < |a| && a[i] == b[m];
      NotEarlier(a, b, m, i);
      NotEarlier(b, a, m, j);
    }
  }

  lemma DescendingNoLonger(a: seq<Row>, b: seq<Row>)
    requires Descending(a) && Descending(b) && forall r :: r in a <==> r in b
    ensures |b| <= |a|
  {
    if |a| < |b| {
      DescendingAlign(a, b, |a|);
      assert b[|a|] in a;
      var i :| 0 <= i < |a| && a[i] == b[|a|];
      NotEarlier(a, b, |a|, i);
    }
  }

  /** Two strictly descending lists of the same rows are the same list. */
  lemma DescendingUnique(a: seq<Row>, b: seq<Row>)
    requires Descending(a) && Descending(b) && forall r :: r in a <==> r in b
    ensures a == b
  {
    DescendingNoLonger(a, b);
    DescendingNoLonger(b, a);
    DescendingAlign(a, b, |a|);
  }

  /** What lies beyond a row of the statement is the rest of the statement. */
  lemma RestOfStatement(table: seq<Row>, query: Query, k: nat)
    requires DistinctIds(table) && k <= |Found(table, query, None)|
    ensures var all := Found(table, query, None); Found(table, query, LastPosition(all[..k])) == all[k..]
  {
    hide Found, Matches, DistinctIds;
    var all := Found(table, query, None);
    FoundSpec(table, query, None);
    if k == 0 {
      assert all[0..] == all;
    } else {
      var last := LastPosition(all[..k]);
      FoundSpec(table, query, last);
      forall r ensures r in all[k..] <==> r in Found(table, query, last) {
        BeyondIsRest(all, k, r);
      }
      DescendingUnique(Found(table, query, last), all[k..]);
    }
  }

  lemma BeyondIsRest(all: seq<Row>, k: nat, r: Row)
    requires Descending(all) && 0 < k <= |all|
    ensures r in all[k..] <==> r in all && Beyond(LastPosition(all[..k]), r)
  {
    if r in all[k..] {
      var i :| 0 <= i < |all[k..]| && all[k..][i] == r;
      assert all[k + i] == r;
    }
    if r in all && Beyond(LastPosition(all[..k]), r) {
      var i :| 0 <= i < |all| && all[i] == r;
      assert i >= k;
      assert all[k..][i - k] == r;
    }
  }

  function Total(limits: seq<nat>, n: nat): nat
    requires n <= |limits|
  {
    if n == 0 then 0 else Total(limits, n - 1) + limits[n - 1]
  }

  function Min(a: nat, b: nat): nat {
    if a < b then a else b
  }

  /** After pages worth `total` rows: that much of the statement, and finished exactly when that is all of it. */
  ghost predicate Progress(codec: Codec, request: Request, all: seq<Row>, total: nat, n: nat, w: Walk) {
    && w.rows == all[..Min(total, |all|)]
    && (w.Finished? <==> n > 0 && total >= |all|)
    && (!w.Finished? ==> w.Walking? && CursorIs(codec, request, w.rows, w.cursor))
  }

  lemma StepProgress(codec: Codec, table: seq<Row>, tables: seq<seq<Row>>, request: Request, limits: seq<nat>, n: nat)
    requires CodecOk(codec) && n < |tables| && n < |limits| && DistinctIds(table) && tables[n] == table && limits[n] > 0
    requires Progress(codec, request, Found(table, QueryOf(request), None), Total(limits, n), n,
                      Follow(codec, tables, request, limits, n))
    ensures Progress(codec, request, Found(table, QueryOf(request), None), Total(limits, n + 1), n + 1,
                     Follow(codec, tables, request, limits, n + 1))
  {
    hide CodecOk, EncodeCursor, ReadPage, Found, List, DistinctIds;
    var w := Follow(codec, tables, request, limits, n);
    var query := QueryOf(request);
    var all, total, limit := Found(table, query, None), Total(limits, n), limits[n];
    if w.Walking? {
      var k := Min(total, |all|);
      assert n == 0 || total < |all|;
      ListContinues(codec, table, request, w.rows, w.cursor, limit);
      RestOfStatement(table, query, k);
      PageSpec(table, query, LastPosition(w.rows), limit);
      var rest := all[k..];
      if |rest| > limit {
        assert all[..k] + rest[..limit] == all[..k + limit];
      } else {
        assert all[..k] + rest == all;
      }
    }
  }

  /**
   On a table that stands still, for any positive limits: the pages put together are the statement's rows
   from the top, each exactly once, and paging ends exactly when the limits add up to all of them.
   */
  lemma {:induction false} PagingOverFixedTable(codec: Codec, table: seq<Row>, tables: seq<seq<Row>>, request: Request,
                                                limits: seq<nat>, n: nat)
    requires CodecOk(codec) && n <= |tables| && n <= |limits| && DistinctIds(table)
    requires (forall i | 0 <= i < |tables| :: tables[i] == table) && (forall i | 0 <= i < |limits| :: limits[i] > 0)
    ensures Progress(codec, request, Found(table, QueryOf(request), None), Total(limits, n), n,
                     Follow(codec, tables, request, limits, n))
  {
    hide CodecOk, Found, DistinctIds, List;
    if n > 0 {
      PagingOverFixedTable(codec, table, tables, request, limits, n - 1);
      StepProgress(codec, table, tables, request, limits, n - 1);
    }
  }

  lemma {:induction false} TotalAtLeast(limits: seq<nat>, n: nat)
    requires n <= |limits| && forall i | 0 <= i < |limits| :: limits[i] > 0
    ensures Total(limits, n) >= n
  {
    if n > 0 {
      TotalAtLeast(limits, n - 1);
    }
  }

  /** Paging a table that stands still ends, after no more pages than there are rows, with all of them. */
  lemma PagingEnds(codec: Codec, table: seq<Row>, tables: seq<seq<Row>>, request: Request, limits: seq<nat>, n: nat)
    requires CodecOk(codec) && n <= |tables| && n <= |limits| && DistinctIds(table)
    requires (forall i | 0 <= i < |tables| :: tables[i] == table) && (forall i | 0 <= i < |limits| :: limits[i] > 0)
    requires n > 0 && n >= |Found(table, QueryOf(request), None)|
    ensures Follow(codec, tables, request, limits, n) == Finished(Found(table, QueryOf(request), None))
  {
    hide CodecOk, Found, DistinctIds, Follow;
    PagingOverFixedTable(codec, table, tables, request, limits, n);
    TotalAtLeast(limits, n);
    var all := Found(table, QueryOf(request), None);
    assert all[..|all|] == all;
  }
}
