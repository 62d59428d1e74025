/**
 The listing of a user's active companies, newest first, read page by page with a cursor.

 A cursor is what its text decodes to; a text that does not decode is the same as none. Creation
 times and ids are ordered as the database orders them; ids are unique.
 */
module CompanyListing {
  import opened Prelude

  datatype Row = Row(createdAt: int, id: nat, role: string)

  datatype Cursor = Start | At(createdAt: int, id: nat)

  /** `rows` are those of the page, `next` the cursor that comes with them. */
  datatype Page = Page(rows: seq<Row>, next: Option<Cursor>, total: nat)

  predicate Below(row: Row, createdAt: int, id: nat) {
    row.createdAt < createdAt || (row.createdAt == createdAt && row.id < id)
  }

  predicate Passed(row: Row, cursor: Cursor) {
    cursor.Start? || Below(row, cursor.createdAt, cursor.id)
  }

  /** The order of the query: newest first, then the larger id; no two rows are equal in it. */
  ghost predicate Descending(listing: seq<Row>) {
    forall i, j | 0 <= i < j < |listing| :: Below(listing[j], listing[i].createdAt, listing[i].id)
  }

  /** The rows beyond the cursor, in order. */
  function Rest(listing: seq<Row>, cursor: Cursor): (rest: seq<Row>)
    ensures |rest| <= |listing|
    ensures forall i | 0 <= i < |rest| :: Passed(rest[i], cursor)
  {
    if listing == [] then []
    else (if Passed(listing[0], cursor) then [listing[0]] else []) + Rest(listing[1..], cursor)
  }

  function CursorOf(row: Row): Cursor {
    At(row.createdAt, row.id)
  }

  /** One call: the filter, the limit, and a next cursor if the page is full and not everything fits on one. */
  function ListForUser(listing: seq<Row>, limit: nat, cursor: Cursor): Page
    requires limit >= 1
  {
    var rest := Rest(listing, cursor);
    var rows := if |rest| <= limit then rest else rest[..limit];
    Page(rows, if |rows| == limit && |listing| > limit then Some(CursorOf(rows[|rows| - 1])) else None, |listing|)
  }

  /** The rows of an ordered listing that are beyond a cursor are its end. */
  lemma {:induction false} RestIsSuffix(listing: seq<Row>, cursor: Cursor)
    requires Descending(listing)
    ensures Rest(listing, cursor) == listing[|listing| - |Rest(listing, cursor)|..]
    ensures forall i | 0 <= i < |listing| :: Passed(listing[i], cursor) <==> i >= |listing| - |Rest(listing, cursor)|
  {
    if listing != [] {
      RestIsSuffix(listing[1..], cursor);
      if Passed(listing[0], cursor) {
        AllPassed(listing, cursor);
      }
    }
  }

  lemma {:induction false} AllPassed(listing: seq<Row>, cursor: Cursor)
    requires forall i | 0 <= i < |listing| :: Passed(listing[i], cursor)
    ensures Rest(listing, cursor) == listing
  {
    if listing != [] {
      AllPassed(listing[1..], cursor);
    }
  }

  /** A cursor made of a row leaves exactly the rows after it. */
  lemma {:induction false} RestAfterRow(listing: seq<Row>, k: nat)
    requires Descending(listing) && k < |listing|
    ensures Rest(listing, CursorOf(listing[k])) == listing[k + 1..]
  {
    var cursor := CursorOf(listing[k]);
    RestIsSuffix(listing, cursor);
    assert !Passed(listing[k], cursor) && (k + 1 < |listing| ==> Passed(listing[k + 1], cursor));
  }

  /** A cursor made of a row of what is left leaves what comes after it. */
  lemma {:induction false} RestAfterPage(listing: seq<Row>, cursor: Cursor, n: nat)
    requires Descending(listing) && 1 <= n <= |Rest(listing, cursor)|
    ensures Rest(listing, CursorOf(Rest(listing, cursor)[n - 1])) == Rest(listing, cursor)[n..]
  {
    var k := |listing| - |Rest(listing, cursor)| + n - 1;
    RestIsSuffix(listing, cursor);
    assert Rest(listing, cursor)[n - 1] == listing[k];
    RestAfterRow(listing, k);
  }

  /** A page takes the next rows off what is left, and its cursor leaves the others. */
  lemma {:induction false} PageAdvances(listing: seq<Row>, limit: nat, cursor: Cursor)
    requires limit >= 1 && Descending(listing)
    ensures
      var page, rest := ListForUser(listing, limit, cursor), Rest(listing, cursor);
      && page.total == |listing| && page.rows == (if |rest| <= limit then rest else rest[..limit])
      && (page.next.Some? <==> |rest| >= limit && |listing| > limit)
      && (page.next.Some? ==> page.rows == rest[..limit] && Rest(listing, page.next.value) == rest[limit..])
      && (page.next.None? ==> page.rows == rest)
  {
    if |Rest(listing, cursor)| >= limit {
      RestAfterPage(listing, cursor, limit);
    }
    RestIsSuffix(listing, cursor);
  }

  /** All the pages from a cursor on, following each next cursor. */
  ghost function Follow(listing: seq<Row>, limit: nat, cursor: Cursor): seq<seq<Row>>
    requires limit >= 1 && Descending(listing)
    decreases |Rest(listing, cursor)|
  {
    var page := ListForUser(listing, limit, cursor);
    PageAdvances(listing, limit, cursor);
    if page.next.None? then [page.rows] else [page.rows] + Follow(listing, limit, page.next.value)
  }

  /** How many pages a number of rows takes when there are more companies than fit on one. */
  function PageCount(rows: nat, limit: nat): nat
    requires limit >= 1
  {
    if rows < limit then 1 else 1 + PageCount(rows - limit, limit)
  }

  lemma {:induction false} PageCountIs(rows: nat, limit: nat, q: nat, r: nat)
    requires r < limit && rows == q * limit + r
    ensures PageCount(rows, limit) == q + 1
    decreases q
  {
    if q > 0 {
      assert q * limit == (q - 1) * limit + limit;
      PageCountIs(rows - limit, limit, q - 1, r);
    }
  }

  lemma {:induction false} ConcatOne<T>(only: seq<T>)
    ensures Concat([only]) == only
  {
    assert ConcatTo([only], 0) == [];
    assert ConcatTo([only], 1) == [] + only;
  }

  lemma {:induction false} ConcatFirst<T>(first: seq<T>, rest: seq<seq<T>>, n: nat)
    requires n <= |rest|
    ensures ConcatTo([first] + rest, n + 1) == first + ConcatTo(rest, n)
  {
    if n > 0 {
      ConcatFirst(first, rest, n - 1);
    }
  }

  lemma {:induction false} JoinPages<T>(first: seq<T>, tail: seq<seq<T>>, all: seq<T>)
    requires |first| <= |all| && first == all[..|first|] && Concat(tail) == all[|first|..]
    ensures Concat([first] + tail) == all
  {
    ConcatFirst(first, tail, |tail|);
    assert all[..|first|] + all[|first|..] == all;
  }

  /**
   Following the cursors from any cursor ends, and the pages together are the rows beyond it, each
   once and in order.
   */
  lemma {:induction false} PagesCoverTheRest(listing: seq<Row>, limit: nat, cursor: Cursor)
    requires limit >= 1 && Descending(listing)
    ensures Concat(Follow(listing, limit, cursor)) == Rest(listing, cursor)
    decreases |Rest(listing, cursor)|
  {
    var page := ListForUser(listing, limit, cursor);
    PageAdvances(listing, limit, cursor);
    if page.next.Some? {
      PagesCoverTheRest(listing, limit, page.next.value);
      JoinPages(page.rows, Follow(listing, limit, page.next.value), Rest(listing, cursor));
    } else {
      ConcatOne(page.rows);
    }
  }

  lemma {:induction false} PagesOfTheRest(listing: seq<Row>, limit: nat, cursor: Cursor)
    requires limit >= 1 && Descending(listing)
    ensures |Follow(listing, limit, cursor)| ==
            if |listing| <= limit then 1 else PageCount(|Rest(listing, cursor)|, limit)
    decreases |Rest(listing, cursor)|
  {
    var page := ListForUser(listing, limit, cursor);
    PageAdvances(listing, limit, cursor);
    if page.next.Some? {
      PagesOfTheRest(listing, limit, page.next.value);
    }
  }

  /**
   From the start the pages are the whole listing; `q` full pages and a last one with the other `r`
   rows, or a single page if everything fits on it.
   */
  lemma {:induction false} PagesCoverTheListing(listing: seq<Row>, limit: nat, q: nat, r: nat)
    requires limit >= 1 && Descending(listing)
    requires r < limit && |listing| == q * limit + r
    ensures Concat(Follow(listing, limit, Start)) == listing
    ensures |Follow(listing, limit, Start)| == if |listing| <= limit then 1 else q + 1
  {
    AllPassed(listing, Start);
    PagesCoverTheRest(listing, limit, Start);
    PagesOfTheRest(listing, limit, Start);
    PageCountIs(|listing|, limit, q, r);
  }

  /** The last row of a page is below the others. */
  lemma {:induction false} LastIsLowest(listing: seq<Row>, limit: nat, cursor: Cursor, i: nat)
    requires limit >= 1 && Descending(listing)
    requires i + 1 < |ListForUser(listing, limit, cursor).rows|
    ensures
      var rows := ListForUser(listing, limit, cursor).rows;
      Below(rows[|rows| - 1], rows[i].createdAt, rows[i].id)
  {
    var rows, d := ListForUser(listing, limit, cursor).rows, |listing| - |Rest(listing, cursor)|;
    RestIsSuffix(listing, cursor);
    assert rows[i] == listing[d + i] && rows[|rows| - 1] == listing[d + |rows| - 1];
  }

  lemma {:induction false} Transitive(a: Row, b: Row, c: Row)
    requires Below(a, b.createdAt, b.id) && (b == c || Below(b, c.createdAt, c.id))
    ensures Below(a, c.createdAt, c.id)
  {
  }

  /**
   Even when companies come and go between two calls: every row of the second page is older than
   every row of the first, or as old with a smaller id; so no company is shown twice.
   */
  lemma {:induction false} NoRepeatsAcrossChanges(
      before: seq<Row>, after: seq<Row>, limit: nat, cursor: Cursor, i: nat, j: nat)
    requires limit >= 1 && Descending(before)
    requires ListForUser(before, limit, cursor).next.Some?
    requires i < |ListForUser(before, limit, cursor).rows|
    requires j < |ListForUser(after, limit, ListForUser(before, limit, cursor).next.value).rows|
    ensures
      var first := ListForUser(before, limit, cursor);
      var second := ListForUser(after, limit, first.next.value);
      && second.rows[j].createdAt <= first.rows[i].createdAt
      && (second.rows[j].createdAt == first.rows[i].createdAt ==> second.rows[j].id < first.rows[i].id)
  {
    var first := ListForUser(before, limit, cursor);
    var second := ListForUser(after, limit, first.next.value);
    var last := first.rows[|first.rows| - 1];
    assert Passed(second.rows[j], first.next.value);
    if i + 1 < |first.rows| {
      LastIsLowest(before, limit, cursor, i);
    }
    Transitive(second.rows[j], last, first.rows[i]);
  }
}
