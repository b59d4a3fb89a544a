/** Conversations newest first, a page at a time, each page asked for by the time and identifier
    of the last row before it. `cut` is what becomes of a time on its way through the cursor. */
module ConversationPaging {
  import opened Wrappers
  import opened ChatReducer

  datatype Row = Row(createdAt: nat, id: string)
  datatype Cursor = Cursor(createdAt: nat, id: string)

  /** Descending order by time, then by identifier. */
  predicate Follows(a: Row, b: Row) {
    b.createdAt < a.createdAt || (b.createdAt == a.createdAt && IdBefore(b.id, a.id))
  }

  predicate IsDescending(rows: seq<Row>) { forall i, j :: 0 <= i < j < |rows| ==> Follows(rows[i], rows[j]) }

  /** The WHERE clause for the rows after a cursor. */
  predicate Selected(cursor: Cursor, row: Row) {
    row.createdAt < cursor.createdAt || (row.createdAt == cursor.createdAt && IdBefore(row.id, cursor.id))
  }

  function After(rows: seq<Row>, cursor: Option<Cursor>): (r: seq<Row>)
    ensures |r| <= |rows|
  {
    if cursor.None? || rows == [] then rows
    else if Selected(cursor.value, rows[0]) then [rows[0]] + After(rows[1..], cursor)
    else After(rows[1..], cursor)
  }

  datatype Page = Page(data: seq<Row>, next: Option<Cursor>)

  /** One request: a row more than the limit tells whether there is another page. */
  function List(rows: seq<Row>, cursor: Option<Cursor>, limit: nat, cut: nat -> nat): Page {
    var found := After(rows, cursor);
    if |found| > limit && limit > 0
      then Page(found[..limit], Some(Cursor(cut(found[limit - 1].createdAt), found[limit - 1].id)))
      else Page(if |found| > limit then [] else found, None)
  }

  ghost predicate RoundsDown(cut: nat -> nat) { forall t: nat :: cut(t) <= t }

  // ---------------------------------------------------------------- what a cursor selects

  lemma {:induction false} AfterIs(rows: seq<Row>, cursor: Cursor)
    ensures forall r :: r in After(rows, Some(cursor)) <==> r in rows && Selected(cursor, r)
  {
    if rows != [] {
      AfterIs(rows[1..], cursor);
    }
  }

  lemma FollowsChain(a: Row, b: Row, c: Row)
    requires Follows(a, b) && Follows(b, c)
    ensures Follows(a, c)
  {
    if a.createdAt == b.createdAt == c.createdAt {
      IdOrderChains(c.id, b.id, a.id);
    }
  }

  /** Once a row is selected, so is every row after it. */
  lemma SelectedFromThere(cursor: Cursor, a: Row, b: Row)
    requires Selected(cursor, a) && Follows(a, b)
    ensures Selected(cursor, b)
  {
    if a.createdAt == b.createdAt == cursor.createdAt {
      IdOrderChains(b.id, a.id, cursor.id);
    }
  }

  /** The tail row's own cursor never selects it or a row before it. */
  lemma NothingTwice(tail: Row, row: Row, cut: nat -> nat)
    requires RoundsDown(cut) && (row == tail || Follows(row, tail))
    ensures !Selected(Cursor(cut(tail.createdAt), tail.id), row)
  {
    IdsAreOrdered(row.id, tail.id);
  }

  lemma {:induction false} AllSelected(rows: seq<Row>, cursor: Cursor)
    requires forall r <- rows :: Selected(cursor, r)
    ensures After(rows, Some(cursor)) == rows
  {
    if rows != [] {
      assert rows[0] in rows;
      AllSelected(rows[1..], cursor);
    }
  }

  lemma {:induction false} NoneSelected(before: seq<Row>, rows: seq<Row>, cursor: Cursor)
    requires forall r <- before :: !Selected(cursor, r)
    ensures After(before + rows, Some(cursor)) == After(rows, Some(cursor))
  {
    if before == [] {
      assert before + rows == rows;
    } else {
      assert before[0] in before && (before + rows)[1..] == before[1..] + rows;
      NoneSelected(before[1..], rows, cursor);
    }
  }

  function TailCursor(rows: seq<Row>, k: nat, cut: nat -> nat): Cursor
    requires 0 < k <= |rows|
  {
    Cursor(cut(rows[k - 1].createdAt), rows[k - 1].id)
  }

  /** A page that ends at row `k - 1` is followed by one that starts at row `k` exactly when the
      cursor selects row `k`; when it does not, that row is lost. */
  lemma NextPageStarts(rows: seq<Row>, k: nat, cut: nat -> nat)
    requires IsDescending(rows) && 0 < k < |rows| && RoundsDown(cut)
    ensures var rest := After(rows, Some(TailCursor(rows, k, cut)));
      if Selected(TailCursor(rows, k, cut), rows[k]) then rest == rows[k..]
      else |rest| < |rows| - k && forall r <- rest :: r in rows[k + 1..]
  {
    var tail := rows[k - 1];
    var cursor := Cursor(cut(tail.createdAt), tail.id);
    assert rows == rows[..k] + rows[k..];
    forall r | r in rows[..k] ensures !Selected(cursor, r) {
      NothingTwice(tail, r, cut);
    }
    NoneSelected(rows[..k], rows[k..], cursor);
    if Selected(cursor, rows[k]) {
      forall r | r in rows[k..] ensures Selected(cursor, r) {
        if r != rows[k] { SelectedFromThere(cursor, rows[k], r); }
      }
      AllSelected(rows[k..], cursor);
    } else {
      assert rows[k..][1..] == rows[k + 1..];
      AfterIs(rows[k + 1..], cursor);
    }
  }

  // ---------------------------------------------------------------- all the pages

  /** What a client that follows every cursor gets from a table that does not change. */
  function AllPages(rows: seq<Row>, cursor: Option<Cursor>, limit: nat, cut: nat -> nat, requests: nat): seq<Row>
    decreases requests
  {
    if requests == 0 then []
    else
      var page := List(rows, cursor, limit, cut);
      page.data + if page.next.None? then [] else AllPages(rows, page.next, limit, cut, requests - 1)
  }

  /** At every boundary between pages from row `from` on, the cursor selects the next row. */
  predicate BoundariesHold(rows: seq<Row>, from: nat, limit: nat, cut: nat -> nat)
    requires limit > 0 && from <= |rows|
    decreases |rows| - from
  {
    from + limit < |rows| ==>
      && Selected(TailCursor(rows, from + limit, cut), rows[from + limit])
      && BoundariesHold(rows, from + limit, limit, cut)
  }

  /** No cursor leads to more rows than it selects. */
  lemma {:induction false} PagesHoldNoMore(rows: seq<Row>, cursor: Option<Cursor>, limit: nat, cut: nat -> nat, requests: nat)
    requires IsDescending(rows) && RoundsDown(cut) && limit > 0
    ensures |AllPages(rows, cursor, limit, cut, requests)| <= |After(rows, cursor)|
    decreases requests
  {
    if requests > 0 {
      var page := List(rows, cursor, limit, cut);
      if page.next.Some? {
        PagesHoldNoMore(rows, page.next, limit, cut, requests - 1);
        NextIsShorter(rows, cursor, limit, cut);
      }
    }
  }

  lemma {:induction false} AfterDescends(rows: seq<Row>, cursor: Option<Cursor>)
    requires IsDescending(rows)
    ensures IsDescending(After(rows, cursor))
  {
    if cursor.Some? && rows != [] {
      AfterDescends(rows[1..], cursor);
      AfterIs(rows[1..], cursor.value);
      var rest := After(rows[1..], cursor);
      forall j | 0 <= j < |rest| ensures Follows(rows[0], rest[j]) {
        assert rest[j] in rows[1..];
      }
    }
  }

  lemma {:induction false} AfterTwice(rows: seq<Row>, first: Option<Cursor>, second: Cursor)
    requires forall r <- rows :: Selected(second, r) ==> first.None? || Selected(first.value, r)
    ensures After(rows, Some(second)) == After(After(rows, first), Some(second))
  {
    if rows != [] && first.Some? {
      assert rows[0] in rows;
      AfterTwice(rows[1..], first, second);
    }
  }

  lemma NextIsShorter(rows: seq<Row>, cursor: Option<Cursor>, limit: nat, cut: nat -> nat)
    requires IsDescending(rows) && RoundsDown(cut) && limit > 0 && List(rows, cursor, limit, cut).next.Some?
    ensures |After(rows, List(rows, cursor, limit, cut).next)| <= |After(rows, cursor)| - limit
  {
    var found := After(rows, cursor);
    var next := List(rows, cursor, limit, cut).next.value;
    AfterDescends(rows, cursor);
    forall r | r in rows && Selected(next, r) ensures cursor.None? || Selected(cursor.value, r) {
      if cursor.Some? {
        AfterIs(rows, cursor.value);
        assert found[limit - 1] in found;
        SelectedEarlier(cursor.value, found[limit - 1], r, cut);
      }
    }
    AfterTwice(rows, cursor, next);
    NextPageStarts(found, limit, cut);
  }

  lemma SelectedEarlier(cursor: Cursor, tail: Row, r: Row, cut: nat -> nat)
    requires Selected(cursor, tail) && RoundsDown(cut) && Selected(Cursor(cut(tail.createdAt), tail.id), r)
    ensures Selected(cursor, r)
  {
    if r.createdAt == tail.createdAt == cursor.createdAt {
      IdOrderChains(r.id, tail.id, cursor.id);
    }
  }

  lemma PageThenRest(rows: seq<Row>, cursor: Option<Cursor>, from: nat, limit: nat, cut: nat -> nat, requests: nat)
    requires limit > 0 && from + limit < |rows| && requests > 0 && After(rows, cursor) == rows[from..]
    ensures AllPages(rows, cursor, limit, cut, requests)
      == rows[from..from + limit] + AllPages(rows, Some(TailCursor(rows, from + limit, cut)), limit, cut, requests - 1)
  {
    assert rows[from..][limit - 1] == rows[from + limit - 1];
    assert rows[from..][..limit] == rows[from..from + limit];
    assert List(rows, cursor, limit, cut) == Page(rows[from..from + limit], Some(TailCursor(rows, from + limit, cut)));
  }

  lemma SameRest(rows: seq<Row>, from: nat, k: nat, rest: seq<Row>)
    requires from <= k <= |rows|
    ensures rows[from..k] + rest == rows[from..] <==> rest == rows[k..]
  {
    assert rows[from..] == rows[from..k] + rows[k..];
    assert (rows[from..k] + rest)[k - from..] == rest;
    assert (rows[from..k] + rows[k..])[k - from..] == rows[k..];
  }

  lemma LastPage(rows: seq<Row>, cursor: Option<Cursor>, from: nat, limit: nat, cut: nat -> nat, requests: nat)
    requires limit > 0 && from <= |rows| <= from + limit && requests > 0 && After(rows, cursor) == rows[from..]
    ensures AllPages(rows, cursor, limit, cut, requests) == rows[from..]
  {}

  /** Paging from row `from` on gives the rest of the table exactly when every boundary holds. */
  lemma {:induction false} PagesFrom(rows: seq<Row>, cursor: Option<Cursor>, from: nat, limit: nat, cut: nat -> nat, requests: nat)
    requires IsDescending(rows) && RoundsDown(cut) && limit > 0 && from <= |rows| && requests > |rows| - from
    requires After(rows, cursor) == rows[from..]
    ensures AllPages(rows, cursor, limit, cut, requests) == rows[from..] <==> BoundariesHold(rows, from, limit, cut)
    decreases |rows| - from
  {
    hide AllPages, Selected, After;
    var k := from + limit;
    if k >= |rows| {
      LastPage(rows, cursor, from, limit, cut, requests);
    } else {
      var next := TailCursor(rows, k, cut);
      PageThenRest(rows, cursor, from, limit, cut, requests);
      SameRest(rows, from, k, AllPages(rows, Some(next), limit, cut, requests - 1));
      NextPageStarts(rows, k, cut);
      if Selected(next, rows[k]) {
        PagesFrom(rows, Some(next), k, limit, cut, requests - 1);
      } else {
        PagesHoldNoMore(rows, Some(next), limit, cut, requests - 1);
      }
    }
  }

  /** For a table that does not change, the pages put together are the table if and only if at
      every page boundary the cursor selects the next row. */
  lemma PagesAreExactIff(rows: seq<Row>, limit: nat, cut: nat -> nat)
    requires IsDescending(rows) && RoundsDown(cut) && limit > 0
    ensures AllPages(rows, None, limit, cut, |rows| + 1) == rows <==> BoundariesHold(rows, 0, limit, cut)
  {
    assert rows[0..] == rows;
    PagesFrom(rows, None, 0, limit, cut, |rows| + 1);
  }

  lemma {:induction false} BoundariesHoldIf(rows: seq<Row>, from: nat, limit: nat, cut: nat -> nat)
    requires IsDescending(rows) && RoundsDown(cut) && limit > 0 && from <= |rows|
    requires forall k :: 0 < k < |rows| ==> rows[k].createdAt < cut(rows[k - 1].createdAt) || cut(rows[k - 1].createdAt) == rows[k - 1].createdAt
    ensures BoundariesHold(rows, from, limit, cut)
    decreases |rows| - from
  {
    var k := from + limit;
    if k < |rows| {
      assert Follows(rows[k - 1], rows[k]);
      BoundariesHoldIf(rows, k, limit, cut);
    }
  }

  /** With a cursor as precise as the column, paging is exact whatever the table and the page size. */
  lemma SamePrecisionIsExact(rows: seq<Row>, limit: nat)
    requires IsDescending(rows) && limit > 0
    ensures AllPages(rows, None, limit, t => t, |rows| + 1) == rows
  {
    BoundariesHoldIf(rows, 0, limit, t => t);
    PagesAreExactIff(rows, limit, t => t);
  }

  /** The program's cursor keeps milliseconds of a column that keeps microseconds. */
  function ToMilliseconds(t: nat): nat { t / 1000 * 1000 }

  /** It is enough that neighbouring rows are never of one millisecond. */
  lemma MillisecondsApartIsExact(rows: seq<Row>, limit: nat)
    requires IsDescending(rows) && limit > 0
    requires forall k :: 0 < k < |rows| ==> ToMilliseconds(rows[k].createdAt) != ToMilliseconds(rows[k - 1].createdAt)
    ensures AllPages(rows, None, limit, ToMilliseconds, |rows| + 1) == rows
  {
    forall k | 0 < k < |rows| ensures rows[k].createdAt < ToMilliseconds(rows[k - 1].createdAt) {
      assert Follows(rows[k - 1], rows[k]);
    }
    BoundariesHoldIf(rows, 0, limit, ToMilliseconds);
    PagesAreExactIff(rows, limit, ToMilliseconds);
  }

  /** Two conversations of the same millisecond, one to a page: the second is never listed. */
  lemma SameMillisecondIsLost(a: string, b: string)
    ensures var rows := [Row(1999, a), Row(1001, b)];
      IsDescending(rows) && AllPages(rows, None, 1, ToMilliseconds, |rows| + 1) != rows
  {
    var rows := [Row(1999, a), Row(1001, b)];
    assert !Selected(Cursor(ToMilliseconds(1999), a), rows[1]);
    PagesAreExactIff(rows, 1, ToMilliseconds);
  }
}
