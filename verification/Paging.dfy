/**
 Keyset pagination of the transaction list: pages in descending (date, id) order, each starting below the
 last row of the page before, while other requests may post to the table in between.
 */
module Paging {
  import opened Prelude
  import opened Ledger
  import Calendar
  import Cursor

  /** A listed row: its date, its random 128-bit identifier and the transaction. */
  datatype Row = Row(day: Day, id: nat, transaction: Transaction)

  datatype Filter = Filter(from: Option<Day>, to: Option<Day>, account: Option<nat>, category: Option<nat>,
                           kind: Option<Kind>)

  predicate Matches(filter: Filter, row: Row) {
    var t := row.transaction;
    && (filter.from.None? || filter.from.value <= row.day)
    && (filter.to.None? || row.day <= filter.to.value)
    && (filter.account.None? || exists i :: 0 <= i < |t.entries| && t.entries[i].account == filter.account.value)
    && (filter.category.None? || exists i :: 0 <= i < |t.entries| && t.entries[i].category == filter.category)
    && (filter.kind.None? || t.kind == filter.kind.value)
  }

  datatype Position = Position(day: Day, id: nat)

  /** The row comparison (event_date, id) < (day, id). */
  predicate Below(row: Row, p: Position) {
    row.day < p.day || (row.day == p.day && row.id < p.id)
  }

  function At(row: Row): Position {
    Position(row.day, row.id)
  }

  // ----- the query

  ghost function Candidates(table: set<Row>, filter: Filter, below: Option<Position>): set<Row> {
    set row | row in table && Matches(filter, row) && (below.None? || Below(row, below.value))
  }

  lemma {:induction false} TopExists(rows: set<Row>)
    requires rows != {}
    ensures exists top :: top in rows && forall row :: row in rows ==> !Below(top, At(row))
  {
    var first :| first in rows;
    if rows != {first} {
      TopExists(rows - {first});
      var top :| top in rows - {first} && forall row :: row in rows - {first} ==> !Below(top, At(row));
      var best := if Below(top, At(first)) then first else top;
      assert forall row :: row in rows ==> !Below(best, At(row));
    } else {
      assert forall row :: row in rows ==> !Below(first, At(row));
    }
  }

  ghost function Top(rows: set<Row>): (top: Row)
    requires rows != {}
    ensures top in rows && forall row :: row in rows ==> !Below(top, At(row))
  {
    TopExists(rows);
    var top :| top in rows && forall row :: row in rows ==> !Below(top, At(row));
    top
  }

  /** `ORDER BY event_date DESC, id DESC LIMIT n` over the matching rows below the cursor. */
  ghost function Select(table: set<Row>, filter: Filter, below: Option<Position>, n: nat): seq<Row>
    decreases n
  {
    var rows := Candidates(table, filter, below);
    if n == 0 || rows == {} then []
    else [Top(rows)] + Select(table, filter, Some(At(Top(rows))), n - 1)
  }

  // ----- the handler

  datatype Page = Page(rows: seq<Row>, next: Option<string>)
  datatype ListError = InvalidLimit | InvalidPageCursor

  function CursorAt(row: Row): string {
    Cursor.EncodeLedgerCursor(Calendar.FromDayNumber(row.day), row.id)
  }

  function DecodePosition(cursor: Option<string>): Result<Option<Position>, ListError> {
    if cursor.None? then Ok(None)
    else
      match Cursor.DecodeLedgerCursor(cursor.value)
      case Ok(at) => Ok(Some(Position(Calendar.DayNumber(at.0), at.1)))
      case Err(_) => Err(InvalidPageCursor)
  }

  /** One row more than the limit is fetched, to know whether another page follows. */
  function Cut(fetched: seq<Row>, limit: nat): Page {
    if |fetched| > limit then
      var page := fetched[..limit];
      Page(page, if |page| > 0 then Some(CursorAt(page[|page| - 1])) else None)
    else Page(fetched, None)
  }

  method BuildPage(fetched: seq<Row>, limit: nat) returns (response: Page)
    ensures response == Cut(fetched, limit)
  {
    hide CursorAt;
    var page: seq<Row> := [];
    for i := 0 to |fetched|
      invariant page == fetched[..i]
    {
      assert fetched[..i + 1] == fetched[..i] + [fetched[i]];
      page := page + [fetched[i]];
    }
    assert page == fetched;
    var hasMore := |page| > limit;
    if hasMore {
      page := page[..limit];
    }
    var next: Option<string> := None;
    if hasMore && |page| > 0 {
      next := Some(CursorAt(page[|page| - 1]));
    }
    return Page(page, next);
  }

  ghost function ListTransactions(
      table: set<Row>, filter: Filter, cursor: Option<string>, limit: Option<int>): Result<Page, ListError>
  {
    var size := if limit.Some? then limit.value else 25;
    if size < 1 || size > 100 then Err(InvalidLimit)
    else
      var below :- DecodePosition(cursor);
      Ok(Cut(Select(table, filter, below, size + 1), size))
  }

  // ----- the tables a client pages through

  /** Identifiers are distinct, 128 bits wide, and dates print with four-digit years. */
  ghost predicate Listable(table: set<Row>) {
    && (forall a, b :: a in table && b in table && At(a) == At(b) ==> a == b)
    && (forall row :: row in table ==> Cursor.IsUuid(row.id) && 0 <= Calendar.FromDayNumber(row.day).year < 10000)
  }

  /** The table over a ledger's log; `ids` gives each position its random identifier. */
  ghost function Table(log: seq<Transaction>, ids: nat -> nat): set<Row> {
    set i | 0 <= i < |log| :: Row(log[i].day, ids(i), log[i])
  }

  /** A longer log only adds rows. */
  lemma TableGrows(log: seq<Transaction>, longer: seq<Transaction>, ids: nat -> nat)
    requires log <= longer
    ensures Table(log, ids) <= Table(longer, ids)
  {
    forall row | row in Table(log, ids)
      ensures row in Table(longer, ids)
    {
      var i :| 0 <= i < |log| && row == Row(log[i].day, ids(i), log[i]);
      assert longer[i] == log[i];
    }
  }

  // ----- one page

  ghost predicate Descending(rows: seq<Row>) {
    forall i, j :: 0 <= i < j < |rows| ==> Below(rows[j], At(rows[i]))
  }

  /** The cursor of a row is accepted exactly when its date has a four-digit year, and then names the row. */
  lemma {:induction false} CursorNamesRow(row: Row)
    requires Cursor.IsUuid(row.id)
    ensures DecodePosition(Some(CursorAt(row))) ==
            if 0 <= Calendar.FromDayNumber(row.day).year < 10000 then Ok(Some(At(row))) else Err(InvalidPageCursor)
  {
    hide Cursor.EncodeLedgerCursor, Cursor.DecodeLedgerCursor, Calendar.FromDayNumber, Calendar.DayNumber;
    Cursor.CursorRoundTrip(Calendar.FromDayNumber(row.day), row.id);
    Calendar.NumberToDateAndBack(row.day);
  }

  /** The rows are candidates in descending order, and only rows below a full result are left out. */
  ghost predicate Takes(table: set<Row>, filter: Filter, below: Option<Position>, n: nat, rows: seq<Row>) {
    && |rows| <= n && Descending(rows)
    && (forall i :: 0 <= i < |rows| ==> rows[i] in Candidates(table, filter, below))
    && (forall row :: row in Candidates(table, filter, below) ==>
          row in rows || (|rows| == n && (n > 0 ==> Below(row, At(rows[n - 1])))))
  }

  lemma CandidateBelow(table: set<Row>, filter: Filter, below: Option<Position>, top: Row, row: Row)
    requires top in Candidates(table, filter, below)
    ensures row in Candidates(table, filter, Some(At(top)))
            <==> row in Candidates(table, filter, below) && Below(row, At(top))
  {
    hide Matches;
  }

  lemma {:induction false} TakeTop(
      table: set<Row>, filter: Filter, below: Option<Position>, n: nat, top: Row, rest: seq<Row>)
    requires forall a, b :: a in table && b in table && At(a) == At(b) ==> a == b
    requires n > 0 && top in Candidates(table, filter, below)
    requires forall row :: row in Candidates(table, filter, below) ==> row in table && !Below(top, At(row))
    requires Takes(table, filter, Some(At(top)), n - 1, rest)
    ensures Takes(table, filter, below, n, [top] + rest)
  {
    hide Candidates;
    var rows := [top] + rest;
    forall i | 0 <= i < |rest|
      ensures rest[i] in Candidates(table, filter, below) && Below(rest[i], At(top))
    {
      CandidateBelow(table, filter, below, top, rest[i]);
    }
    forall row | row in Candidates(table, filter, below)
      ensures row in rows || (|rows| == n && Below(row, At(rows[n - 1])))
    {
      if row != top {
        assert At(row) != At(top);
        CandidateBelow(table, filter, below, top, row);
        assert row in rest ==> row in rows;
      }
    }
  }

  /** A query returns the largest candidates in order, and leaves out only rows below a full result. */
  lemma {:induction false} SelectTakesTheLargest(table: set<Row>, filter: Filter, below: Option<Position>, n: nat)
    requires forall a, b :: a in table && b in table && At(a) == At(b) ==> a == b
    ensures Takes(table, filter, below, n, Select(table, filter, below, n))
    decreases n
  {
    hide Matches;
    var candidates := Candidates(table, filter, below);
    if n > 0 && candidates != {} {
      var top := Top(candidates);
      SelectTakesTheLargest(table, filter, Some(At(top)), n - 1);
      TakeTop(table, filter, below, n, top, Select(table, filter, Some(At(top)), n - 1));
    }
  }

  lemma BelowTransitively(a: Row, b: Row, c: Row)
    requires Below(a, At(b)) && Below(b, At(c))
    ensures Below(a, At(c))
  {
  }

  lemma {:induction false} PageIsComplete(table: set<Row>, filter: Filter, below: Option<Position>, limit: nat)
    requires forall a, b :: a in table && b in table && At(a) == At(b) ==> a == b
    requires limit >= 1
    ensures var page := Cut(Select(table, filter, below, limit + 1), limit);
            && Descending(page.rows)
            && (forall i :: 0 <= i < |page.rows| ==> page.rows[i] in Candidates(table, filter, below))
            && (page.next.None? ==> forall row :: row in Candidates(table, filter, below) ==> row in page.rows)
            && (page.next.Some? ==>
                  && |page.rows| == limit && page.next.value == CursorAt(page.rows[limit - 1])
                  && forall row :: row in Candidates(table, filter, below) ==>
                       row in page.rows || Below(row, At(page.rows[limit - 1])))
  {
    hide CursorAt, Candidates, Select, Below;
    var fetched := Select(table, filter, below, limit + 1);
    SelectTakesTheLargest(table, filter, below, limit + 1);
    forall row | row in Candidates(table, filter, below) && |fetched| > limit
      ensures row in fetched[..limit] || Below(row, At(fetched[limit - 1]))
    {
      assert Below(fetched[limit], At(fetched[limit - 1]));
      if row in fetched {
        var i :| 0 <= i < |fetched| && fetched[i] == row;
        assert i < limit ==> fetched[..limit][i] == row;
      } else {
        BelowTransitively(row, fetched[limit], fetched[limit - 1]);
      }
    }
  }

  // ----- following cursors

  ghost function Shown(pages: seq<Page>): seq<Row> {
    if pages == [] then [] else pages[0].rows + Shown(pages[1..])
  }

  /** A client follows cursors until none is returned; `tables[i]` is the table when page i is read. */
  ghost predicate IsWalk(
      tables: seq<set<Row>>, filter: Filter, cursor: Option<string>, limit: Option<int>, pages: seq<Page>)
  {
    && |tables| == |pages| && pages != []
    && ListTransactions(tables[0], filter, cursor, limit) == Ok(pages[0])
    && if pages[0].next.None? then |pages| == 1
       else IsWalk(tables[1..], filter, pages[0].next, limit, pages[1..])
  }

  ghost predicate Growing(tables: seq<set<Row>>) {
    forall i, j :: 0 <= i <= j < |tables| ==> tables[i] <= tables[j]
  }

  /**
   However much is posted between the pages, the rows shown are strictly descending, so none repeats; every one
   matches; and every matching row of the table the first page was read from is among them.
   */
  lemma {:induction false} WalkIsComplete(
      tables: seq<set<Row>>, filter: Filter, cursor: Option<string>, limit: Option<int>, pages: seq<Page>)
    requires IsWalk(tables, filter, cursor, limit, pages)
    requires Growing(tables) && Listable(tables[|tables| - 1])
    ensures DecodePosition(cursor).Ok?
    ensures var below := DecodePosition(cursor).value;
            && Descending(Shown(pages))
            && (forall row :: row in Candidates(tables[0], filter, below) ==> row in Shown(pages))
            && (forall row :: row in Shown(pages) ==> row in Candidates(tables[|tables| - 1], filter, below))
    decreases |pages|
  {
    hide DecodePosition, CursorAt, Select, Candidates, Descending, Listable, Below;
    var below := DecodePosition(cursor).value;
    var size := if limit.Some? then limit.value else 25;
    var table, last := tables[0], tables[|tables| - 1];
    assert table <= last;
    ListableSubset(table, last);
    PageIsComplete(table, filter, below, size);
    var page := pages[0];
    assert pages[..1] == [page];
    if page.next.None? {
      assert Shown(pages) == page.rows + [] == page.rows;
      CandidatesGrow(table, last, filter, below);
    } else {
      var end := page.rows[size - 1];
      CandidatesGrow(table, last, filter, below);
      InCandidates(last, filter, below, end);
      CursorOfListed(last, end);
      assert tables[1..][|tables[1..]| - 1] == last;
      WalkIsComplete(tables[1..], filter, page.next, limit, pages[1..]);
      JoinPages(page.rows, Shown(pages[1..]), last, filter, below);
      forall row | row in Candidates(table, filter, below)
        ensures row in Shown(pages)
      {
        if row !in page.rows {
          StillCandidate(table, tables[1], filter, below, end, row);
        }
      }
    }
  }

  lemma ListableSubset(table: set<Row>, larger: set<Row>)
    requires table <= larger && Listable(larger)
    ensures forall a, b :: a in table && b in table && At(a) == At(b) ==> a == b
  {
  }

  lemma CursorOfListed(table: set<Row>, row: Row)
    requires Listable(table) && row in table
    ensures DecodePosition(Some(CursorAt(row))) == Ok(Some(At(row)))
  {
    hide DecodePosition, CursorAt;
    CursorNamesRow(row);
  }

  lemma CandidatesGrow(table: set<Row>, larger: set<Row>, filter: Filter, below: Option<Position>)
    requires table <= larger
    ensures Candidates(table, filter, below) <= Candidates(larger, filter, below)
  {
    hide Matches;
  }

  lemma InCandidates(table: set<Row>, filter: Filter, below: Option<Position>, row: Row)
    requires row in Candidates(table, filter, below)
    ensures row in table
  {
  }

  lemma StillCandidate(table: set<Row>, larger: set<Row>, filter: Filter, below: Option<Position>, end: Row, row: Row)
    requires table <= larger && row in Candidates(table, filter, below) && Below(row, At(end))
    ensures row in Candidates(larger, filter, Some(At(end)))
  {
    hide Matches;
  }

  lemma {:induction false} JoinPages(
      page: seq<Row>, rest: seq<Row>, table: set<Row>, filter: Filter, below: Option<Position>)
    requires page != [] && Descending(page) && Descending(rest)
    requires forall row :: row in page ==> row in Candidates(table, filter, below)
    requires forall row :: row in rest ==> row in Candidates(table, filter, Some(At(page[|page| - 1])))
    ensures Descending(page + rest)
    ensures forall row :: row in page + rest ==> row in Candidates(table, filter, below)
  {
    hide Matches;
    var end := page[|page| - 1];
    assert end in page;
    forall row | row in rest
      ensures Below(row, At(end)) && row in Candidates(table, filter, below)
    {
      assert row in Candidates(table, filter, Some(At(end)));
    }
    forall i, j | 0 <= i < j < |page + rest|
      ensures Below((page + rest)[j], At((page + rest)[i]))
    {
      if |page| <= j {
        assert (page + rest)[j] in rest;
      }
    }
  }
}
