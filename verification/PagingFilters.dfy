/** What a filtered list shows: which transactions, in terms of their own dates, accounts, categories and types. */
module PagingFilters {
  import opened Prelude
  import opened Ledger
  import opened LedgerLaws
  import opened LedgerAcceptance
  import opened Paging
  import opened UserRuns
  import UserPromises

  // ----- any transaction

  /** Some entry of the transaction is on the account. */
  predicate Touches(t: Transaction, account: nat) {
    exists e :: e in t.entries && e.account == account
  }

  predicate HasCategory(t: Transaction, category: nat) {
    exists e :: e in t.entries && e.category == Some(category)
  }

  lemma {:induction false} TouchesByIndex(t: Transaction, account: nat)
    ensures Touches(t, account) <==> exists i :: 0 <= i < |t.entries| && t.entries[i].account == account
  {
    if exists i :: 0 <= i < |t.entries| && t.entries[i].account == account {
      var i :| 0 <= i < |t.entries| && t.entries[i].account == account;
      assert t.entries[i] in t.entries;
    }
  }

  lemma {:induction false} CategoryByIndex(t: Transaction, category: nat)
    ensures HasCategory(t, category) <==> exists i :: 0 <= i < |t.entries| && t.entries[i].category == Some(category)
  {
    if exists i :: 0 <= i < |t.entries| && t.entries[i].category == Some(category) {
      var i :| 0 <= i < |t.entries| && t.entries[i].category == Some(category);
      assert t.entries[i] in t.entries;
    }
  }

  /**
   A client that follows cursors to the end, from the start, is shown a transaction of its first table exactly when it
   is dated from the first to the last day asked for, both included, and has the account, the category and the type
   asked for; whatever is posted in between.
   */
  lemma {:induction false} ShownExactlyWhen(
      tables: seq<set<Row>>, filter: Filter, limit: Option<int>, pages: seq<Page>, row: Row)
    requires IsWalk(tables, filter, None, limit, pages)
    requires Growing(tables) && Listable(tables[|tables| - 1]) && row in tables[0]
    ensures row in Shown(pages) <==>
              && (filter.from.Some? ==> filter.from.value <= row.day)
              && (filter.to.Some? ==> row.day <= filter.to.value)
              && (filter.account.Some? ==> Touches(row.transaction, filter.account.value))
              && (filter.category.Some? ==> HasCategory(row.transaction, filter.category.value))
              && (filter.kind.Some? ==> row.transaction.kind == filter.kind.value)
  {
    hide IsWalk, Listable, Descending, Shown, Touches, HasCategory;
    WalkIsComplete(tables, filter, None, limit, pages);
    if filter.account.Some? {
      TouchesByIndex(row.transaction, filter.account.value);
    }
    if filter.category.Some? {
      CategoryByIndex(row.transaction, filter.category.value);
    }
  }

  /** A completed list shows the newest first: by date, and by identifier within a date, so nothing twice. */
  lemma {:induction false} NewestFirst(
      tables: seq<set<Row>>, filter: Filter, cursor: Option<string>, limit: Option<int>, pages: seq<Page>, i: nat,
      j: nat)
    requires IsWalk(tables, filter, cursor, limit, pages)
    requires Growing(tables) && Listable(tables[|tables| - 1]) && i < j < |Shown(pages)|
    ensures var first, second := Shown(pages)[i], Shown(pages)[j];
            first.day > second.day || (first.day == second.day && first.id > second.id)
  {
    hide IsWalk, Listable, Shown, Candidates, DecodePosition;
    WalkIsComplete(tables, filter, cursor, limit, pages);
  }

  /** The pages a client is shown, with nothing posted in between. */
  ghost predicate QuietWalk(table: set<Row>, filter: Filter, limit: Option<int>, pages: seq<Page>) {
    IsWalk(seq(|pages|, i => table), filter, None, limit, pages)
  }

  lemma {:induction false} QuietlyShown(table: set<Row>, filter: Filter, limit: Option<int>, pages: seq<Page>)
    requires QuietWalk(table, filter, limit, pages) && Listable(table)
    ensures forall row :: row in Shown(pages) ==> row in table
  {
    hide Listable, Matches, Descending, Shown;
    var tables := seq(|pages|, i => table);
    assert |tables| > 0;
    WalkIsComplete(tables, filter, None, limit, pages);
  }

  /**
   For any day, the list ending on it and the list starting on the day after split the list without dates into two
   disjoint parts, whatever else is asked for.
   */
  lemma {:induction false} DaysSplitTheList(
      table: set<Row>, filter: Filter, day: Day, limit: Option<int>, all: seq<Page>, until: seq<Page>,
      since: seq<Page>, row: Row)
    requires Listable(table) && filter.from.None? && filter.to.None?
    requires QuietWalk(table, filter, limit, all)
    requires QuietWalk(table, filter.(to := Some(day)), limit, until)
    requires QuietWalk(table, filter.(from := Some(day + 1)), limit, since)
    ensures row in Shown(all) <==> row in Shown(until) || row in Shown(since)
    ensures !(row in Shown(until) && row in Shown(since))
    ensures row in Shown(until) ==> row.day <= day
    ensures row in Shown(since) ==> row.day > day
  {
    hide Listable, Matches, Descending, Shown, IsWalk, Touches, HasCategory;
    QuietlyShown(table, filter, limit, all);
    QuietlyShown(table, filter.(to := Some(day)), limit, until);
    QuietlyShown(table, filter.(from := Some(day + 1)), limit, since);
    if row in table {
      QuietPages(table, filter, limit, all);
      QuietPages(table, filter.(to := Some(day)), limit, until);
      QuietPages(table, filter.(from := Some(day + 1)), limit, since);
      ShownExactlyWhen(seq(|all|, i => table), filter, limit, all, row);
      ShownExactlyWhen(seq(|until|, i => table), filter.(to := Some(day)), limit, until, row);
      ShownExactlyWhen(seq(|since|, i => table), filter.(from := Some(day + 1)), limit, since, row);
    }
  }

  lemma QuietPages(table: set<Row>, filter: Filter, limit: Option<int>, pages: seq<Page>)
    requires QuietWalk(table, filter, limit, pages)
    ensures |pages| > 0
  {
  }

  // ----- a posted operation

  /** The type asked for is the operation's own. */
  predicate IsType(kind: OperationKind, asked: Kind) {
    match kind
    case OpenAccount => asked == OpeningBalance
    case Earn => asked == IncomeKind
    case Spend => asked == ExpenseKind
    case Move => asked == Transfer
    case Buy => asked == AssetPurchase
  }

  lemma {:induction false} PostedTouches(book: Book, op: Operation, account: nat, category: nat)
    requires Sound(book) && PostTypedOperation(book, op, None).Ok? && !HasKey(book, op.key)
    ensures var posted := PostTypedOperation(book, op, None).value;
            && posted.id < |posted.book.log|
            && var t := posted.book.log[posted.id];
            && t.day == op.day && (forall asked :: t.kind == asked <==> IsType(op.kind, asked))
            && (Touches(t, account) <==> Giver(book, op) == Some(account) || Receiver(book, op) == Some(account))
            && (HasCategory(t, category) <==> (op.kind.Earn? || op.kind.Spend?) && op.category == Some(category))
  {
    hide Sound, Money.Parse, FindKey, HeaderAccepted, EntriesAccepted;
    TypedOperationIsSound(book, op, None);
    StoredAsRequested(book, op, None);
    PostedPair(book, op);
    var posted := PostTypedOperation(book, op, None).value;
    var t := posted.book.log[posted.id];
    assert t.entries[0] in t.entries && t.entries[1] in t.entries;
    TouchesByIndex(t, account);
    CategoryByIndex(t, category);
  }

  /**
   The two entries of a posted operation: one on its giver, one on its receiver, and the category on the other side.
   */
  lemma {:induction false} PostedPair(book: Book, op: Operation)
    requires PostTypedOperation(book, op, None).Ok? && !HasKey(book, op.key)
    ensures var posted := PostTypedOperation(book, op, None).value;
            && posted.id < |posted.book.log|
            && var entries := posted.book.log[posted.id].entries;
            && |entries| == 2 && Giver(book, op).Some? && Receiver(book, op).Some?
            && {entries[0].account, entries[1].account} == {Giver(book, op).value, Receiver(book, op).value}
            && entries[0].category.None?
            && entries[1].category == (if op.kind.Earn? || op.kind.Spend? then op.category else None)
  {
    hide Money.Parse, FindKey, HeaderAccepted, EntriesAccepted;
  }

  /**
   A client that lists transactions from the start after an operation was posted, whatever is requested between its
   pages, is shown the operation exactly when its date lies within the days asked for, both included, the account
   asked for is one of the two it moves money between, the category is its own, and the type is its own.
   */
  lemma {:induction false} PostedIsListedExactlyWhen(
      s: UserState, op: Operation, batches: seq<seq<Action>>, ids: nat -> nat, filter: Filter, limit: Option<int>,
      pages: seq<Page>)
    requires Sound(s.desk.book) && PostTypedOperation(s.desk.book, op, None).Ok? && !HasKey(s.desk.book, op.key)
    requires var tables := UserPromises.Tables(Perform(s, Post(op)), batches, ids);
             && IsWalk(tables, filter, None, limit, pages)
             && |tables| > 0 && Listable(tables[|tables| - 1])
    ensures var posted := PostTypedOperation(s.desk.book, op, None).value;
            && posted.id < |posted.book.log|
            && (Row(op.day, ids(posted.id), posted.book.log[posted.id]) in Shown(pages) <==>
                  && (filter.from.Some? ==> filter.from.value <= op.day)
                  && (filter.to.Some? ==> op.day <= filter.to.value)
                  && (filter.account.Some? ==>
                        filter.account == Giver(s.desk.book, op) || filter.account == Receiver(s.desk.book, op))
                  && (filter.category.Some? ==>
                        (op.kind.Earn? || op.kind.Spend?) && op.category == filter.category)
                  && (filter.kind.Some? ==> IsType(op.kind, filter.kind.value)))
  {
    hide Sound, PostTypedOperation, FindKey, IsWalk, Listable, Shown, Touches, HasCategory, Giver, Receiver, IsType;
    var book := s.desk.book;
    var account := if filter.account.Some? then filter.account.value else 0;
    var category := if filter.category.Some? then filter.category.value else 0;
    PostedTouches(book, op, account, category);
    TypedOperationIsSound(book, op, None);
    var posted := PostTypedOperation(book, op, None).value;
    var after := Perform(s, Post(op));
    assert after.desk.book == posted.book;
    UserPromises.EveryRunGrowsTheTable(after, batches, ids);
    var tables := UserPromises.Tables(after, batches, ids);
    var row := Row(op.day, ids(posted.id), posted.book.log[posted.id]);
    assert tables[0] == Table(posted.book.log, ids);
    assert row in tables[0];
    ShownExactlyWhen(tables, filter, limit, pages, row);
  }

  // ----- page sizes

  /** A page is refused exactly for a limit outside 1 to 100 or a bad cursor; 25 rows are the default. */
  lemma {:induction false} PageSize(table: set<Row>, filter: Filter, cursor: Option<string>, limit: Option<int>)
    requires forall a, b :: a in table && b in table && At(a) == At(b) ==> a == b
    ensures var page := ListTransactions(table, filter, cursor, limit);
            var size := if limit.None? then 25 else limit.value;
            && (page.Ok? <==> 1 <= size <= 100 && DecodePosition(cursor).Ok?)
            && (page.Err? ==> page.error == if 1 <= size <= 100 then InvalidPageCursor else InvalidLimit)
            && (page.Ok? ==> |page.value.rows| <= size && (page.value.next.Some? ==> |page.value.rows| == size))
  {
    hide CursorAt, Select, Candidates;
    var size := if limit.None? then 25 else limit.value;
    if 1 <= size <= 100 && DecodePosition(cursor).Ok? {
      SelectTakesTheLargest(table, filter, DecodePosition(cursor).value, size + 1);
    }
  }
}
