/**
 The ledger as the Go code drives it: two tables of rows, changed statement by statement inside a database
 transaction that either commits or is rolled back. Every method is proved against its counterpart in Ledger.
 */
module LedgerTables {
  import opened Prelude
  import opened Ledger
  import Money

  datatype HeaderRow = HeaderRow(kind: Kind, day: Day, key: Key, reversalOf: Option<nat>, replacementOf: Option<nat>)
  datatype EntryRow = EntryRow(transaction: nat, entry: Entry)

  function Header(t: Transaction): HeaderRow {
    HeaderRow(t.kind, t.day, t.key, t.reversalOf, t.replacementOf)
  }

  function Headers(log: seq<Transaction>): seq<HeaderRow> {
    seq(|log|, i requires 0 <= i < |log| => Header(log[i]))
  }

  function Tagged(id: nat, entries: seq<Entry>): seq<EntryRow> {
    seq(|entries|, i requires 0 <= i < |entries| => EntryRow(id, entries[i]))
  }

  function EntryRows(log: seq<Transaction>): (rows: seq<EntryRow>)
    ensures forall i :: 0 <= i < |rows| ==> rows[i].transaction < |log|
  {
    if log == [] then []
    else EntryRows(log[..|log| - 1]) + Tagged(|log| - 1, log[|log| - 1].entries)
  }

  // ----- what a query over the joined tables sees

  function Matching(headers: seq<HeaderRow>, rows: seq<EntryRow>, account: nat, day: Day): int
    requires forall i :: 0 <= i < |rows| ==> rows[i].transaction < |headers|
  {
    if rows == [] then 0
    else
      var last := rows[|rows| - 1];
      Matching(headers, rows[..|rows| - 1], account, day)
      + (if last.entry.account == account && headers[last.transaction].day <= day then last.entry.amount else 0)
  }

  lemma {:induction false} MatchingTagged(
      headers: seq<HeaderRow>, rows: seq<EntryRow>, id: nat, entries: seq<Entry>, account: nat, day: Day)
    requires id < |headers| && forall i :: 0 <= i < |rows| ==> rows[i].transaction < |headers|
    ensures Matching(headers, rows + Tagged(id, entries), account, day)
            == Matching(headers, rows, account, day) + (if headers[id].day <= day then Net(entries, account) else 0)
  {
    var all := rows + Tagged(id, entries);
    if entries == [] {
      assert all == rows;
    } else {
      var rest := entries[..|entries| - 1];
      assert all[..|all| - 1] == rows + Tagged(id, rest);
      MatchingTagged(headers, rows, id, rest, account, day);
    }
  }

  lemma {:induction false} MatchingIgnoresLaterHeaders(
      headers: seq<HeaderRow>, more: seq<HeaderRow>, rows: seq<EntryRow>, account: nat, day: Day)
    requires forall i :: 0 <= i < |rows| ==> rows[i].transaction < |headers|
    ensures Matching(headers + more, rows, account, day) == Matching(headers, rows, account, day)
  {
    if rows != [] {
      MatchingIgnoresLaterHeaders(headers, more, rows[..|rows| - 1], account, day);
    }
  }

  /** Summing the joined rows is the balance of the log. */
  lemma {:induction false} MatchingIsBalance(log: seq<Transaction>, account: nat, day: Day)
    ensures Matching(Headers(log), EntryRows(log), account, day) == BalanceAt(log, account, day)
  {
    if log != [] {
      var rest, last := log[..|log| - 1], log[|log| - 1];
      MatchingIsBalance(rest, account, day);
      assert Headers(log) == Headers(rest) + [Header(last)];
      MatchingIgnoresLaterHeaders(Headers(rest), [Header(last)], EntryRows(rest), account, day);
      MatchingTagged(Headers(log), EntryRows(rest), |rest|, last.entries, account, day);
    }
  }

  /** The entries of one transaction, opposite in sign, in the order of the rows. */
  function NegatedRows(rows: seq<EntryRow>, id: nat): seq<Entry> {
    if rows == [] then []
    else
      var last := rows[|rows| - 1];
      NegatedRows(rows[..|rows| - 1], id)
      + (if last.transaction == id then [last.entry.(amount := -last.entry.amount)] else [])
  }

  lemma {:induction false} NegatedTagged(rows: seq<EntryRow>, tag: nat, entries: seq<Entry>, id: nat)
    ensures NegatedRows(rows + Tagged(tag, entries), id)
            == NegatedRows(rows, id) + (if tag == id then Negated(entries) else [])
  {
    var all := rows + Tagged(tag, entries);
    if entries == [] {
      assert all == rows;
    } else {
      var rest := entries[..|entries| - 1];
      assert all[..|all| - 1] == rows + Tagged(tag, rest);
      NegatedTagged(rows, tag, rest, id);
    }
  }

  lemma {:induction false} NegatedRowsOf(log: seq<Transaction>, id: nat)
    ensures NegatedRows(EntryRows(log), id) == if id < |log| then Negated(log[id].entries) else []
  {
    if log != [] {
      NegatedRowsOf(log[..|log| - 1], id);
      NegatedTagged(EntryRows(log[..|log| - 1]), |log| - 1, log[|log| - 1].entries, id);
    }
  }

  /** The entries of an operation depend on the account and category rows alone. */
  lemma JournalIgnoresLog(book: Book, op: Operation, amount: int, equity: nat)
    ensures OperationEntries(book.(log := []), op, amount, equity) == OperationEntries(book, op, amount, equity)
  {
  }

  class Tables {
    var accounts: map<nat, Account>
    var categories: map<nat, Category>
    var systems: map<SystemCode, nat>
    var currency: nat
    var headers: seq<HeaderRow>
    var entries: seq<EntryRow>
    ghost var log: seq<Transaction>

    ghost predicate Valid()
      reads this
    {
      headers == Headers(log) && entries == EntryRows(log)
    }

    ghost function Contents(): Book
      reads this
    {
      Book(accounts, categories, systems, currency, log)
    }

    constructor (
        accounts: map<nat, Account>, categories: map<nat, Category>, systems: map<SystemCode, nat>, currency: nat)
      ensures Valid()
      ensures Contents() == Book(accounts, categories, systems, currency, [])
    {
      this.accounts, this.categories, this.systems, this.currency := accounts, categories, systems, currency;
      headers, entries, log := [], [], [];
    }

    method AccountBalanceAt(account: nat, day: Day) returns (result: Result<int, LedgerError>)
      requires Valid()
      ensures result == Ledger.AccountBalanceAt(Contents(), account, day)
    {
      var sum := 0;
      for i := 0 to |entries|
        invariant sum == Matching(headers, entries[..i], account, day)
      {
        assert entries[..i + 1][..i] == entries[..i];
        if entries[i].entry.account == account && headers[entries[i].transaction].day <= day {
          sum := sum + entries[i].entry.amount;
        }
      }
      assert entries[..|entries|] == entries;
      MatchingIsBalance(log, account, day);
      var parsed := Money.ParseAmount(Money.NumericText(sum));
      match parsed {
        case Ok(balance) => result := Ok(balance);
        case Err(_) => result := Err(Rejected);
      }
    }

    method KeyRow(key: Key) returns (found: Option<nat>)
      requires Valid()
      ensures found == FindKey(log, key)
    {
      var i := |headers|;
      assert log[..i] == log;
      while i > 0
        invariant 0 <= i <= |headers|
        invariant FindKey(log[..i], key) == FindKey(log, key)
      {
        assert log[..i][..i - 1] == log[..i - 1];
        i := i - 1;
        if headers[i].key == key {
          return Some(i);
        }
      }
      return None;
    }

    method HasReversal(id: nat) returns (found: bool)
      requires Valid()
      ensures found <==> IsReversed(log, id)
    {
      for i := 0 to |headers|
        invariant forall j :: 0 <= j < i ==> log[j].reversalOf != Some(id)
      {
        if headers[i].reversalOf == Some(id) {
          assert log[i].reversalOf == Some(id);
          return true;
        }
      }
      return false;
    }

    method HasReplacement(id: nat) returns (found: bool)
      requires Valid()
      ensures found <==> IsReplaced(log, id)
    {
      for i := 0 to |headers|
        invariant forall j :: 0 <= j < i ==> log[j].replacementOf != Some(id)
      {
        if headers[i].replacementOf == Some(id) {
          assert log[i].replacementOf == Some(id);
          return true;
        }
      }
      return false;
    }

    method AcceptHeader(header: HeaderRow, ghost t: Transaction) returns (ok: bool)
      requires Valid() && header == Header(t)
      ensures ok <==> HeaderAccepted(Contents(), t)
    {
      if (header.kind == Reversal) != header.reversalOf.Some? {
        return false;
      }
      if header.reversalOf.Some? {
        var reversed := HasReversal(header.reversalOf.value);
        if header.reversalOf.value >= |headers| || reversed {
          return false;
        }
      }
      if header.replacementOf.Some? {
        var replaced := HasReplacement(header.replacementOf.value);
        if header.replacementOf.value >= |headers| || replaced {
          return false;
        }
      }
      return true;
    }

    /** Inserts entry rows one by one and stops at the first that is refused. */
    method InsertEntries(id: nat, kind: Kind, journal: seq<Entry>) returns (ok: bool)
      modifies `entries
      ensures ok <==> forall j :: 0 <= j < |journal| ==> EntryAccepted(accounts, categories, kind, journal[j])
      ensures ok ==> entries == old(entries) + Tagged(id, journal)
    {
      hide EntryAccepted;
      for i := 0 to |journal|
        invariant entries == old(entries) + Tagged(id, journal[..i])
        invariant forall j :: 0 <= j < i ==> EntryAccepted(accounts, categories, kind, journal[j])
      {
        if !EntryAccepted(accounts, categories, kind, journal[i]) {
          return false;
        }
        assert Tagged(id, journal[..i + 1]) == Tagged(id, journal[..i]) + [EntryRow(id, journal[i])];
        entries := entries + [EntryRow(id, journal[i])];
      }
      assert journal[..|journal|] == journal;
      return true;
    }

    /** Inserts the header, then each entry, and undoes everything if a row is refused. */
    method PostJournal(header: HeaderRow, journal: seq<Entry>) returns (result: Result<(nat, bool), LedgerError>)
      requires Valid()
      modifies `headers, `entries, `log
      ensures Valid()
      ensures var t := Transaction(header.kind, header.day, header.key, header.reversalOf, header.replacementOf,
                                   journal);
              match Ledger.PostJournal(old(Contents()), t)
              case Ok(posted) => Contents() == posted.book && result == Ok((posted.id, posted.replayed))
              case Err(e) => Contents() == old(Contents()) && result == Err(e)
    {
      hide HeaderAccepted, EntryAccepted;
      ghost var t := Transaction(header.kind, header.day, header.key, header.reversalOf, header.replacementOf, journal);
      var id := |headers|;
      var found := KeyRow(header.key);
      if found.Some? {
        return Ok((found.value, true));
      }
      var accepted := AcceptHeader(header, t);
      if !accepted {
        return Err(Rejected);
      }
      var savedHeaders, savedEntries := headers, entries;
      headers := headers + [header];
      if |journal| < 2 {
        headers := savedHeaders;
        return Err(Validation);
      }
      var inserted := InsertEntries(id, header.kind, journal);
      if !inserted {
        headers, entries := savedHeaders, savedEntries;
        return Err(Rejected);
      }
      log := log + [t];
      assert log[..|log| - 1] == old(log);
      assert Headers(log) == Headers(old(log)) + [header];
      return Ok((id, false));
    }

    method PostTypedOperation(op: Operation, replacing: Option<nat>) returns (result: Result<(nat, bool), LedgerError>)
      requires Valid()
      modifies `headers, `entries, `log
      ensures Valid()
      ensures match Ledger.PostTypedOperation(old(Contents()), op, replacing)
              case Ok(posted) => Contents() == posted.book && result == Ok((posted.id, posted.replayed))
              case Err(e) => Contents() == old(Contents()) && result == Err(e)
    {
      hide Money.Parse, OperationEntries, EntriesAccepted, HeaderAccepted, FindKey, Ledger.PostJournal;
      var parsed := Money.ParseAmount(op.amount);
      if parsed.Err? || parsed.value <= 0 {
        return Err(Validation);
      }
      if OpeningEquity !in systems {
        return Err(Rejected);
      }
      var journal := OperationEntries(Book(accounts, categories, systems, currency, []), op, parsed.value,
                                      systems[OpeningEquity]);
      JournalIgnoresLog(Contents(), op, parsed.value, systems[OpeningEquity]);
      if journal.Err? {
        return Err(journal.error);
      }
      result := PostJournal(HeaderRow(KindOf(op.kind), op.day, op.key, None, replacing), journal.value);
    }

    method PostReversal(original: nat, key: Key) returns (result: Result<(nat, bool), LedgerError>)
      requires Valid()
      modifies `headers, `entries, `log
      ensures Valid()
      ensures match Ledger.PostReversal(old(Contents()), original, key)
              case Ok(posted) => Contents() == posted.book && result == Ok((posted.id, posted.replayed))
              case Err(e) => Contents() == old(Contents()) && result == Err(e)
    {
      if original >= |headers| {
        return Err(NotFound);
      }
      if headers[original].kind == Reversal {
        return Err(Conflict);
      }
      var alreadyReversed := HasReversal(original);
      if alreadyReversed {
        return Err(Conflict);
      }
      var journal: seq<Entry> := [];
      for i := 0 to |entries|
        invariant journal == NegatedRows(entries[..i], original)
      {
        assert entries[..i + 1][..i] == entries[..i];
        if entries[i].transaction == original {
          journal := journal + [entries[i].entry.(amount := -entries[i].entry.amount)];
        }
      }
      assert entries[..|entries|] == entries;
      NegatedRowsOf(log, original);
      result := PostJournal(HeaderRow(Reversal, headers[original].day, key, Some(original), None), journal);
    }

    /** One database transaction: if the corrected operation fails, the reversal is rolled back too. */
    method ReplaceTransaction(
        original: nat, reversalKey: Key, op: Operation) returns (result: Result<(nat, nat), LedgerError>)
      requires Valid()
      modifies `headers, `entries, `log
      ensures Valid()
      ensures match Ledger.ReplaceTransaction(old(Contents()), original, reversalKey, op)
              case Ok(replaced) => Contents() == replaced.book
                && result == Ok((replaced.reversal, replaced.replacement))
              case Err(e) => Contents() == old(Contents()) && result == Err(e)
    {
      var savedHeaders, savedEntries := headers, entries;
      var reversed := PostReversal(original, reversalKey);
      if reversed.Err? {
        return Err(reversed.error);
      }
      var posted := PostTypedOperation(op, Some(original));
      if posted.Err? {
        headers, entries, log := savedHeaders, savedEntries, old(log);
        return Err(posted.error);
      }
      return Ok((reversed.value.0, posted.value.0));
    }
  }
}
