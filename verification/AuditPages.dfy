/** Keyset pagination of the audit log (backend/app/routers/platform.py:225-233, 1301-1341). A cursor is
    the pair its text encodes. */
module AuditPages {
  import opened Options
  import opened Arithmetic

  type Instant = int

  // Identifiers are compared as the database compares them.
  datatype Row = Row(id: nat, createdAt: Instant, actor: Option<nat>, action: string)

  datatype Cursor = Cursor(createdAt: Instant, id: nat)

  datatype Query = Query(actor: Option<nat>, action: Option<string>, dateFrom: Option<Instant>, dateTo: Option<Instant>)

  datatype Page = Page(entries: seq<Row>, next: Option<Cursor>)

  predicate Wanted(q: Query, r: Row) {
    && (q.actor.Some? ==> r.actor == q.actor)
    && (q.action.Some? && q.action.value != "" ==> r.action == q.action.value)
    && (q.dateFrom.Some? ==> r.createdAt >= q.dateFrom.value)
    && (q.dateTo.Some? ==> r.createdAt <= q.dateTo.value)
  }

  predicate Past(cursor: Option<Cursor>, r: Row) {
    cursor.Some? ==>
      || r.createdAt < cursor.value.createdAt
      || (r.createdAt == cursor.value.createdAt && r.id < cursor.value.id)
  }

  // ORDER BY created_at DESC, id DESC
  predicate Precedes(a: Row, b: Row) {
    a.createdAt > b.createdAt || (a.createdAt == b.createdAt && a.id > b.id)
  }

  function Selected(log: seq<Row>, q: Query, cursor: Option<Cursor>): (r: seq<Row>)
    ensures forall x :: x in r <==> x in log && Wanted(q, x) && Past(cursor, x)
  {
    if log == [] then []
    else
      var last := log[|log| - 1];
      assert log == log[..|log| - 1] + [last];
      Selected(log[..|log| - 1], q, cursor) + (if Wanted(q, last) && Past(cursor, last) then [last] else [])
  }

  function Insert(sorted: seq<Row>, r: Row): (s: seq<Row>)
    ensures |s| == |sorted| + 1
    ensures forall x :: x in s <==> x in sorted || x == r
  {
    if sorted == [] then [r]
    else if Precedes(r, sorted[0]) then [r] + sorted
    else
      assert sorted == [sorted[0]] + sorted[1..];
      [sorted[0]] + Insert(sorted[1..], r)
  }

  function Sort(rows: seq<Row>): (s: seq<Row>)
    ensures |s| == |rows|
    ensures forall x :: x in s <==> x in rows
  {
    if rows == [] then []
    else
      assert rows == [rows[0]] + rows[1..];
      Insert(Sort(rows[1..]), rows[0])
  }

  // What the query with its ORDER BY would return without a LIMIT.
  function Rows(log: seq<Row>, q: Query, cursor: Option<Cursor>): seq<Row> {
    Sort(Selected(log, q, cursor))
  }

  function Clamp(limit: int): (n: int)
    ensures 1 <= n <= 200
  {
    if limit < 1 then 1 else if limit > 200 then 200 else limit
  }

  function CursorAt(r: Row): Cursor {
    Cursor(r.createdAt, r.id)
  }

  function Take(s: seq<Row>, n: nat): seq<Row> {
    if |s| <= n then s else s[..n]
  }

  // list_audit
  function ListAudit(log: seq<Row>, q: Query, limit: int, cursor: Option<Cursor>): Page {
    var n := Clamp(limit);
    var fetched := Take(Rows(log, q, cursor), n + 1);
    if |fetched| > n then Page(fetched[..n], Some(CursorAt(fetched[n - 1]))) else Page(fetched, None)
  }

  // ---------------------------------------------------------------- the order

  ghost predicate DistinctIds(log: seq<Row>) {
    forall i, j | 0 <= i < j < |log| :: log[i].id != log[j].id
  }

  ghost predicate Descending(s: seq<Row>) {
    forall i, j | 0 <= i < j < |s| :: Precedes(s[i], s[j])
  }

  lemma {:induction false} InsertDescends(sorted: seq<Row>, r: Row)
    requires Descending(sorted) && forall x | x in sorted :: x.id != r.id
    ensures Descending(Insert(sorted, r))
  {
    if sorted != [] && !Precedes(r, sorted[0]) {
      InsertDescends(sorted[1..], r);
      var rest := Insert(sorted[1..], r);
      assert sorted[0] in sorted;
      forall k | 0 <= k < |rest| ensures Precedes(sorted[0], rest[k]) {
        assert rest[k] in rest;
        if rest[k] != r {
          var m :| 0 <= m < |sorted| - 1 && sorted[1..][m] == rest[k];
          assert Precedes(sorted[0], sorted[m + 1]);
        }
      }
    }
  }

  lemma {:induction false} SortDescends(rows: seq<Row>)
    requires DistinctIds(rows)
    ensures Descending(Sort(rows))
  {
    if rows != [] {
      SortDescends(rows[1..]);
      forall x | x in Sort(rows[1..]) ensures x.id != rows[0].id {
        var m :| 0 <= m < |rows| - 1 && rows[1..][m] == x;
        assert rows[m + 1] == x;
      }
      InsertDescends(Sort(rows[1..]), rows[0]);
    }
  }

  lemma {:induction false} SelectedDistinct(log: seq<Row>, q: Query, cursor: Option<Cursor>)
    requires DistinctIds(log)
    ensures DistinctIds(Selected(log, q, cursor))
  {
    hide Wanted, Past;
    if log != [] {
      var front := log[..|log| - 1];
      SelectedDistinct(front, q, cursor);
      var some := Selected(front, q, cursor);
      forall i | 0 <= i < |some| ensures some[i].id != log[|log| - 1].id {
        assert some[i] in some;
        var m :| 0 <= m < |front| && front[m] == some[i];
      }
    }
  }

  // A descending list is determined by its members.
  lemma {:induction false} SameMembers(a: seq<Row>, b: seq<Row>)
    requires Descending(a) && Descending(b) && forall x :: x in a <==> x in b
    ensures a == b
  {
    assert a != [] ==> a[0] in b;
    assert b != [] ==> b[0] in a;
    if a != [] {
      var i :| 0 <= i < |b| && b[i] == a[0];
      var j :| 0 <= j < |a| && a[j] == b[0];
      assert i == 0;
      forall x ensures x in a[1..] <==> x in b[1..] {
        Rest(a, x);
        Rest(b, x);
      }
      SameMembers(a[1..], b[1..]);
    }
  }

  lemma Rest(s: seq<Row>, x: Row)
    requires Descending(s) && s != []
    ensures x in s[1..] <==> x in s && x != s[0]
  {
    assert s == [s[0]] + s[1..];
    if x in s[1..] {
      var k :| 0 <= k < |s| - 1 && s[1..][k] == x;
      assert Precedes(s[0], s[k + 1]);
    }
  }

  // In a descending list, what comes after a row is what it precedes.
  lemma Tail(s: seq<Row>, k: nat, x: Row)
    requires Descending(s) && 0 < k <= |s|
    ensures x in s[k..] <==> x in s && Precedes(s[k - 1], x)
  {
    if x in s[k..] {
      var m :| 0 <= m < |s| - k && s[k..][m] == x;
      assert s[k + m] == x;
    }
    if x in s && Precedes(s[k - 1], x) {
      var m :| 0 <= m < |s| && s[m] == x;
      assert m >= k;
      assert s[k..][m - k] == x;
    }
  }

  lemma RowsDescend(log: seq<Row>, q: Query, cursor: Option<Cursor>)
    requires DistinctIds(log)
    ensures Descending(Rows(log, q, cursor))
    ensures forall x :: x in Rows(log, q, cursor) <==> x in log && Wanted(q, x) && Past(cursor, x)
  {
    hide Wanted, Past;
    SelectedDistinct(log, q, cursor);
    SortDescends(Selected(log, q, cursor));
  }

  // Asking past the k-th row of the whole list returns the list from there on, ties included.
  lemma RowsPastCursor(log: seq<Row>, q: Query, cursor: Option<Cursor>, k: nat)
    requires DistinctIds(log) && 0 < k <= |Rows(log, q, cursor)|
    ensures Rows(log, q, Some(CursorAt(Rows(log, q, cursor)[k - 1]))) == Rows(log, q, cursor)[k..]
  {
    hide Rows, Wanted, DistinctIds, Descending;
    var all := Rows(log, q, cursor);
    var at := Some(CursorAt(all[k - 1]));
    var past := Rows(log, q, at);
    RowsDescend(log, q, cursor);
    RowsDescend(log, q, at);
    TailDescends(all, k);
    assert all[k - 1] in all;
    forall x ensures x in past <==> x in all[k..] {
      Tail(all, k, x);
    }
    SameMembers(past, all[k..]);
  }

  lemma TailDescends(s: seq<Row>, k: nat)
    requires Descending(s) && k <= |s|
    ensures Descending(s[k..])
  {}

  // ---------------------------------------------------------------- following next_cursor

  // The pages a reader gets from `cursor` on.
  ghost function Follow(log: seq<Row>, q: Query, limit: int, cursor: Option<Cursor>): seq<Page>
    requires DistinctIds(log)
    decreases |Rows(log, q, cursor)|
  {
    var page := ListAudit(log, q, limit, cursor);
    if page.next.None? then [page]
    else
      RowsPastCursor(log, q, cursor, Clamp(limit));
      [page] + Follow(log, q, limit, page.next)
  }

  function Entries(pages: seq<Page>): seq<Row> {
    if pages == [] then [] else pages[0].entries + Entries(pages[1..])
  }

  // max(1, ceil(n / limit)).
  function PageCount(n: nat, limit: int): int
    requires limit >= 1
  {
    if n == 0 then 1 else (n + limit - 1) / limit
  }

  lemma PageShape(log: seq<Row>, q: Query, limit: int, cursor: Option<Cursor>)
    ensures var (page, all, n) := (ListAudit(log, q, limit, cursor), Rows(log, q, cursor), Clamp(limit));
            if |all| <= n then page == Page(all, None) else page == Page(all[..n], Some(CursorAt(all[n - 1])))
  {
    hide Rows;
  }

  lemma PageCountStep(m: nat, n: int)
    requires n >= 1
    ensures m <= n ==> PageCount(m, n) == 1
    ensures m > n ==> PageCount(m, n) == 1 + PageCount(m - n, n)
  {
    if m > n {
      QuotientStep(m - n + n - 1, n);
    } else if m > 0 {
      QuotientIs(m + n - 1, n, 1);
    }
  }

  lemma FollowUnfolds(log: seq<Row>, q: Query, limit: int, cursor: Option<Cursor>)
    requires DistinctIds(log)
    ensures var page := ListAudit(log, q, limit, cursor);
            Follow(log, q, limit, cursor) == if page.next.None? then [page]
              else [page] + Follow(log, q, limit, page.next)
  {
    hide ListAudit, Rows;
  }

  lemma {:induction false} FollowReadsAll(log: seq<Row>, q: Query, limit: int, cursor: Option<Cursor>)
    requires DistinctIds(log)
    ensures var pages := Follow(log, q, limit, cursor);
            && Entries(pages) == Rows(log, q, cursor)
            && |pages| == PageCount(|Rows(log, q, cursor)|, Clamp(limit))
    decreases |Rows(log, q, cursor)|
  {
    hide Rows, ListAudit, Clamp, PageCount, DistinctIds, Follow;
    var n := Clamp(limit);
    var all := Rows(log, q, cursor);
    var page := ListAudit(log, q, limit, cursor);
    PageShape(log, q, limit, cursor);
    PageCountStep(|all|, n);
    FollowUnfolds(log, q, limit, cursor);
    if page.next.None? {
      assert [page][1..] == [];
    } else {
      RowsPastCursor(log, q, cursor, n);
      FollowReadsAll(log, q, limit, page.next);
      EntriesCons(page, Follow(log, q, limit, page.next));
      assert all[..n] + all[n..] == all;
    }
  }

  lemma EntriesCons(page: Page, rest: seq<Page>)
    ensures Entries([page] + rest) == page.entries + Entries(rest)
  {
    assert ([page] + rest)[1..] == rest;
  }

  // Every page but the last is full and says where to go on; the last one says there is no more.
  lemma {:induction false} PagesAreFull(log: seq<Row>, q: Query, limit: int, cursor: Option<Cursor>)
    requires DistinctIds(log)
    ensures var pages := Follow(log, q, limit, cursor);
            && pages != [] && pages[|pages| - 1].next == None && |pages[|pages| - 1].entries| <= Clamp(limit)
            && forall i | 0 <= i < |pages| - 1 :: |pages[i].entries| == Clamp(limit) && pages[i].next.Some?
    decreases |Rows(log, q, cursor)|
  {
    hide Rows, ListAudit, Clamp, DistinctIds, Follow;
    var page := ListAudit(log, q, limit, cursor);
    PageShape(log, q, limit, cursor);
    FollowUnfolds(log, q, limit, cursor);
    if page.next.Some? {
      RowsPastCursor(log, q, cursor, Clamp(limit));
      PagesAreFull(log, q, limit, page.next);
      var rest := Follow(log, q, limit, page.next);
      assert forall i | 1 <= i < |rest| + 1 :: ([page] + rest)[i] == rest[i - 1];
    }
  }

  // Following next_cursor from the start on a fixed log yields every row that meets the filters given, an
  // empty action being none, exactly once, newest first with ties by id; each page but the last holds the
  // limit, at least 1 and at most 200, and there are max(1, ceil(n / limit)) of them.
  lemma PagesCoverTheLog(log: seq<Row>, q: Query, limit: int)
    requires DistinctIds(log)
    ensures var pages := Follow(log, q, limit, None);
            var read := Entries(pages);
            var size := if limit > 200 then 200 else if limit >= 1 then limit else 1;
            && Descending(read)
            && (forall r :: r in read <==>
                  && r in log
                  && (q.actor == None || r.actor == q.actor)
                  && (q.action == None || q.action == Some("") || q.action == Some(r.action))
                  && (q.dateFrom == None || q.dateFrom.value <= r.createdAt)
                  && (q.dateTo == None || r.createdAt <= q.dateTo.value))
            && |pages| == PageCount(|read|, size)
            && forall i | 0 <= i < |pages| - 1 :: |pages[i].entries| == size
  {
    FollowReadsAll(log, q, limit, None);
    PagesAreFull(log, q, limit, None);
    RowsDescend(log, q, None);
    hide Follow, Rows, Descending, PageCount;
  }
}
