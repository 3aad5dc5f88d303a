/**
 What the ledger accepts: exactly when an operation, a reversal and a correction succeed, and with which error they
 are refused otherwise.
 */
module LedgerAcceptance {
  import opened Prelude
  import opened Ledger
  import opened LedgerLaws
  import Money

  // ----- entries that can be undone

  /** A posted entry: not zero, within the column, and in the currency and category of the account it names. */
  predicate EntryHolds(accounts: map<nat, Account>, categories: map<nat, Category>, e: Entry) {
    && e.amount != 0 && Money.InRange(e.amount)
    && e.account in accounts && accounts[e.account].currency == e.currency
    && (e.category.Some? ==> e.category.value in categories && categories[e.category.value].account == e.account)
  }

  predicate AllHold(accounts: map<nat, Account>, categories: map<nat, Category>, entries: seq<Entry>) {
    forall i :: 0 <= i < |entries| ==> EntryHolds(accounts, categories, entries[i])
  }

  /** Every posted entry still holds, whatever has been archived since. */
  ghost predicate EntriesHold(book: Book) {
    forall i :: 0 <= i < |book.log| ==> AllHold(book.accounts, book.categories, book.log[i].entries)
  }

  lemma {:induction false} PostKeepsHolding(book: Book, t: Transaction)
    requires EntriesHold(book) && PostJournal(book, t).Ok?
    ensures EntriesHold(PostJournal(book, t).value.book)
  {
    hide FindKey, HeaderAccepted, Money.InRange;
    if EntriesAccepted(book, t) {
      forall i | 0 <= i < |t.entries|
        ensures EntryHolds(book.accounts, book.categories, t.entries[i])
      {
        assert EntryAccepted(book.accounts, book.categories, t.kind, t.entries[i]);
      }
    }
  }

  lemma OppositeInRange(amount: int)
    ensures Money.InRange(-amount) <==> Money.InRange(amount)
  {
  }

  /** The opposite of a posted entry passes the constraints and the trigger, which exempts reversals. */
  lemma {:induction false} OppositeIsAccepted(book: Book, original: nat, key: Key)
    requires EntriesHold(book) && original < |book.log|
    ensures EntriesAccepted(book, ReversalFor(book.log, original, key))
  {
    hide Money.InRange, Negated;
    var entries, reversal := book.log[original].entries, ReversalFor(book.log, original, key);
    assert AllHold(book.accounts, book.categories, entries);
    forall i | 0 <= i < |reversal.entries|
      ensures EntryAccepted(book.accounts, book.categories, Reversal, reversal.entries[i])
    {
      assert EntryHolds(book.accounts, book.categories, entries[i]);
      OppositeInRange(entries[i].amount);
    }
  }

  // ----- reversals

  /**
   A reversal succeeds exactly for a posted transaction that is no reversal and not reversed yet, of any type,
   whatever its accounts and categories have become, with any key; a missing original is not found, and the rest
   conflict.
   */
  lemma {:induction false} ReversedExactlyWhen(book: Book, original: nat, key: Key)
    requires Sound(book) && EntriesHold(book)
    ensures var reversed := PostReversal(book, original, key);
            && (reversed.Ok? <==>
                  original < |book.log| && book.log[original].kind != Reversal && !IsReversed(book.log, original))
            && (reversed.Err? ==> reversed.error == if original < |book.log| then Conflict else NotFound)
  {
    hide Negated, FindKey, IsReversed, EntriesAccepted, EntriesHold, Total, Undoes;
    if original < |book.log| && book.log[original].kind != Reversal && !IsReversed(book.log, original) {
      OppositeIsAccepted(book, original, key);
      assert Fits(book.accounts, book.log[..original], book.log[original]);
    }
  }

  // ----- operations

  /** An account row that takes new entries: in the functional currency and in use. */
  ghost predicate TakesEntries(book: Book, id: Option<nat>) {
    id.Some? && id.value in book.accounts
    && book.accounts[id.value].currency == book.currency && !book.accounts[id.value].archived
  }

  /** A key that replays, or two account rows that take the entries and an original not replaced yet. */
  ghost predicate CanPost(book: Book, op: Operation, replacing: Option<nat>) {
    || HasKey(book, op.key)
    || (&& TakesEntries(book, Giver(book, op)) && TakesEntries(book, Receiver(book, op))
        && (replacing.Some? ==> replacing.value < |book.log| && !IsReplaced(book.log, replacing.value)))
  }

  lemma {:induction false} TwoEntries(book: Book, t: Transaction)
    requires |t.entries| == 2
    ensures EntriesAccepted(book, t) <==> EntryAccepted(book.accounts, book.categories, t.kind, t.entries[0])
                                          && EntryAccepted(book.accounts, book.categories, t.kind, t.entries[1])
  {
    hide EntryAccepted;
  }

  /** The table accepts a usable operation's entries exactly when both account rows take them. */
  lemma {:induction false} EntriesAcceptedExactlyWhen(book: Book, op: Operation, amount: int, replacing: Option<nat>)
    requires Usable(book, op) && OpeningEquity in book.systems && amount > 0 && Money.InRange(amount)
    ensures match OperationEntries(book, op, amount, book.systems[OpeningEquity])
            case Ok(entries) =>
              && |entries| == 2
              && (EntriesAccepted(book, Transaction(KindOf(op.kind), op.day, op.key, None, replacing, entries))
                  <==> TakesEntries(book, Giver(book, op)) && TakesEntries(book, Receiver(book, op)))
            case Err(_) => false
  {
    hide EntriesAccepted, Money.InRange;
    OppositeInRange(amount);
    match OperationEntries(book, op, amount, book.systems[OpeningEquity]) {
      case Err(_) =>
      case Ok(entries) => TwoEntries(book, Transaction(KindOf(op.kind), op.day, op.key, None, replacing, entries));
    }
  }

  /**
   An operation is accepted exactly for a positive amount and usable accounts and category, if its key replays or the
   account rows of both sides take entries in the functional currency.
   */
  lemma {:induction false} PostedExactlyWhen(book: Book, op: Operation, replacing: Option<nat>)
    ensures PostTypedOperation(book, op, replacing).Ok? <==>
              && Money.Parse(op.amount).Ok? && Money.Parse(op.amount).value > 0 && OpeningEquity in book.systems
              && Usable(book, op) && CanPost(book, op, replacing)
  {
    hide Money.Parse, Money.InRange, Usable, OperationEntries, FindKey, EntriesAccepted, TakesEntries, Giver,
      Receiver, IsReplaced, IsReversed;
    var parsed := Money.Parse(op.amount);
    if parsed.Ok? && parsed.value > 0 && OpeningEquity in book.systems {
      Money.ParseInRange(op.amount);
      EntriesExactlyWhenUsable(book, op, parsed.value, book.systems[OpeningEquity]);
      if Usable(book, op) {
        EntriesAcceptedExactlyWhen(book, op, parsed.value, replacing);
      }
    }
  }

  /** The account is named and missing, or not a user's account. */
  ghost predicate NoSuchAccount(book: Book, id: Option<nat>) {
    id.Some? && (id.value !in book.accounts || book.accounts[id.value].role != User)
  }

  ghost predicate ArchivedAccount(book: Book, id: Option<nat>) {
    id.Some? && id.value in book.accounts && book.accounts[id.value].archived
  }

  ghost predicate ForeignAccount(book: Book, id: Option<nat>) {
    id.Some? && id.value in book.accounts && book.accounts[id.value].currency != book.currency
  }

  ghost predicate NoAssetAccount(book: Book, id: Option<nat>) {
    id.Some? && id.value in book.accounts && book.accounts[id.value].accountClass != Asset
  }

  /** An account or category that the type needs is not named, is no asset, or is named twice. */
  ghost predicate IllFormed(book: Book, op: Operation) {
    match op.kind
    case OpenAccount => op.account.None?
    case Earn => op.account.None? || op.category.None? || NoAssetAccount(book, op.account)
    case Spend => op.account.None? || op.category.None? || NoAssetAccount(book, op.account)
    case _ =>
      || op.source.None? || op.destination.None? || op.source == op.destination
      || NoAssetAccount(book, op.source) || NoAssetAccount(book, op.destination)
  }

  /** Each error says what it should: the reasons an operation is refused, by error. */
  lemma {:induction false} RefusalsAreReasons(book: Book, op: Operation, replacing: Option<nat>)
    requires PostTypedOperation(book, op, replacing).Err?
    ensures match PostTypedOperation(book, op, replacing).error
            case NotFound =>
              || NoSuchAccount(book, op.account) || NoSuchAccount(book, op.source)
                   || NoSuchAccount(book, op.destination)
              || (op.category.Some? && !(op.category.value in book.categories
                                         && (book.categories[op.category.value].direction.Incoming?
                                             <==> op.kind.Earn?)))
            case Conflict =>
              || ArchivedAccount(book, op.account) || ArchivedAccount(book, op.source)
              || ArchivedAccount(book, op.destination)
              || (op.category.Some? && op.category.value in book.categories
                  && book.categories[op.category.value].archived)
            case FxUnavailable =>
              ForeignAccount(book, op.account) || ForeignAccount(book, op.source)
                || ForeignAccount(book, op.destination)
            case Validation => Money.Parse(op.amount).Err? || Money.Parse(op.amount).value <= 0 || IllFormed(book, op)
            case Rejected => OpeningEquity !in book.systems || !CanPost(book, op, replacing)
  {
    hide Money.Parse, FindKey, EntriesAccepted, HeaderAccepted, Money.InRange, TakesEntries, Giver, Receiver,
      IsReplaced;
    PostedExactlyWhen(book, op, replacing);
  }

  // ----- corrections

  /**
   A correction succeeds exactly when its original can be reversed and its operation is accepted after that: posting
   the reversal changes neither accounts nor what is usable, and no key but the reversal's.
   */
  lemma {:induction false} ReplacedExactlyWhen(book: Book, original: nat, reversalKey: Key, op: Operation)
    requires Sound(book) && EntriesHold(book)
    ensures ReplaceTransaction(book, original, reversalKey, op).Ok? <==>
              && original < |book.log| && book.log[original].kind != Reversal && !IsReversed(book.log, original)
              && Money.Parse(op.amount).Ok? && Money.Parse(op.amount).value > 0 && OpeningEquity in book.systems
              && Usable(book, op)
              && (|| HasKey(book, op.key) || op.key == reversalKey
                  || (&& TakesEntries(book, Giver(book, op)) && TakesEntries(book, Receiver(book, op))
                      && !IsReplaced(book.log, original)))
  {
    hide Sound, EntriesHold, Money.Parse, PostReversal, PostTypedOperation, IsReversed, IsReplaced, FindKey;
    ReversedExactlyWhen(book, original, reversalKey);
    if PostReversal(book, original, reversalKey).Ok? {
      var reversed := PostReversal(book, original, reversalKey).value.book;
      ReversalIsSound(book, original, reversalKey);
      KeysAfterReversal(book, original, reversalKey, op.key);
      ReplacedAfterAppend(book.log, reversed.log, original);
      PostedExactlyWhen(reversed, op, Some(original));
    }
  }

  /** The type stored for an operation is the requested one. */
  lemma {:induction false} StoredAsRequested(book: Book, op: Operation, replacing: Option<nat>)
    requires Sound(book) && PostTypedOperation(book, op, replacing).Ok? && !HasKey(book, op.key)
    ensures var posted := PostTypedOperation(book, op, replacing).value;
            && posted.id < |posted.book.log|
            && match op.kind
               case OpenAccount => posted.book.log[posted.id].kind == OpeningBalance
               case Earn => posted.book.log[posted.id].kind == IncomeKind
               case Spend => posted.book.log[posted.id].kind == ExpenseKind
               case Move => posted.book.log[posted.id].kind == Transfer
               case Buy => posted.book.log[posted.id].kind == AssetPurchase
  {
    hide Sound, PostTypedOperation, FindKey;
    TypedOperationIsSound(book, op, replacing);
  }
}
