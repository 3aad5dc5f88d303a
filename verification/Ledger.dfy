/**
 The double-entry ledger of one user: the rows of ledger_accounts, categories, ledger_transactions and
 ledger_entries, and the operations that append to them.

 A transaction's identity is its position in the log. An operation returns the book its database
 transaction commits, or an error and no book: the rollback.
 */
module Ledger {
  import opened Prelude
  import Money

  /** A date as its day number; Calendar.OrderIsLexicographic says that this orders dates. */
  type Day = int

  datatype Class = Asset | Liability | Equity | Income | Expense
  datatype Subtype = Bank | Cash | OtherSubtype
  datatype Role = User | System | CategoryRole
  datatype Account = Account(accountClass: Class, subtype: Subtype, role: Role, currency: nat, archived: bool)

  datatype Direction = Incoming | Outgoing
  datatype Category = Category(direction: Direction, account: nat, archived: bool)

  datatype SystemCode = OpeningEquity | UnrealizedGainLoss | OtherIncome | OtherExpense

  /** Idempotency keys. A name-based identifier is injective in its name; callers may supply any key. */
  datatype Key =
    | Supplied(number: nat)
    | Occurrence(template: nat, day: Day)
    | ReconciliationReversal(reconciliation: nat, request: Key)
    | AssetRevaluation(asset: nat, request: Key)
    | PurchaseOf(asset: nat)

  datatype Kind =
    | OpeningBalance | IncomeKind | ExpenseKind | Transfer | AssetPurchase
    | Reconciliation | Revaluation | Reversal

  datatype Entry = Entry(account: nat, category: Option<nat>, amount: int, currency: nat)

  datatype Transaction = Transaction(
    kind: Kind,
    day: Day,
    key: Key,
    reversalOf: Option<nat>,
    replacementOf: Option<nat>,
    entries: seq<Entry>)

  datatype Book = Book(
    accounts: map<nat, Account>,
    categories: map<nat, Category>,
    systems: map<SystemCode, nat>,
    currency: nat,
    log: seq<Transaction>)

  /** Rejected stands for a table constraint or trigger that refuses the row. */
  datatype LedgerError = Validation | NotFound | Conflict | FxUnavailable | Rejected

  datatype Posted = Posted(book: Book, id: nat, replayed: bool)

  // ----- balances

  function Total(entries: seq<Entry>): int {
    if entries == [] then 0 else Total(entries[..|entries| - 1]) + entries[|entries| - 1].amount
  }

  function Net(entries: seq<Entry>, account: nat): int {
    if entries == [] then 0
    else
      var last := entries[|entries| - 1];
      Net(entries[..|entries| - 1], account) + (if last.account == account then last.amount else 0)
  }

  function Contribution(t: Transaction, account: nat, day: Day): int {
    if t.day <= day then Net(t.entries, account) else 0
  }

  /** The sum of an account's entries dated on or before the day. */
  function BalanceAt(log: seq<Transaction>, account: nat, day: Day): int {
    if log == [] then 0
    else BalanceAt(log[..|log| - 1], account, day) + Contribution(log[|log| - 1], account, day)
  }

  /** The sum as read back: its text must parse. */
  function AccountBalanceAt(book: Book, account: nat, day: Day): Result<int, LedgerError> {
    match Money.Parse(Money.NumericText(BalanceAt(book.log, account, day)))
    case Ok(balance) => Ok(balance)
    case Err(_) => Err(Rejected)
  }

  // ----- postJournal

  function FindKey(log: seq<Transaction>, key: Key): (found: Option<nat>)
    ensures found.Some? ==> found.value < |log| && log[found.value].key == key
    ensures found.None? ==> forall i :: 0 <= i < |log| ==> log[i].key != key
  {
    if log == [] then None
    else if log[|log| - 1].key == key then Some(|log| - 1)
    else FindKey(log[..|log| - 1], key)
  }

  predicate HasKey(book: Book, key: Key) {
    FindKey(book.log, key).Some?
  }

  predicate IsReversed(log: seq<Transaction>, id: nat) {
    exists i :: 0 <= i < |log| && log[i].reversalOf == Some(id)
  }

  predicate IsReplaced(log: seq<Transaction>, id: nat) {
    exists i :: 0 <= i < |log| && log[i].replacementOf == Some(id)
  }

  /** The constraints on a ledger_transactions row: shape, foreign keys and the two unique references. */
  predicate HeaderAccepted(book: Book, t: Transaction) {
    && (t.kind == Reversal <==> t.reversalOf.Some?)
    && (t.reversalOf.Some? ==> t.reversalOf.value < |book.log| && !IsReversed(book.log, t.reversalOf.value))
    && (t.replacementOf.Some? ==> t.replacementOf.value < |book.log| && !IsReplaced(book.log, t.replacementOf.value))
  }

  /** The constraints on a ledger_entries row, and the trigger against archived accounts and categories. */
  predicate EntryAccepted(accounts: map<nat, Account>, categories: map<nat, Category>, kind: Kind, e: Entry) {
    && e.amount != 0 && Money.InRange(e.amount)
    && e.account in accounts && accounts[e.account].currency == e.currency
    && (kind != Reversal ==> !accounts[e.account].archived)
    && (e.category.Some? ==>
          && e.category.value in categories
          && categories[e.category.value].account == e.account
          && (kind != Reversal ==> !categories[e.category.value].archived))
  }

  predicate EntriesAccepted(book: Book, t: Transaction) {
    forall i :: 0 <= i < |t.entries| ==> EntryAccepted(book.accounts, book.categories, t.kind, t.entries[i])
  }

  /** A key already posted returns its transaction and posts nothing. */
  function PostJournal(book: Book, t: Transaction): Result<Posted, LedgerError> {
    var found := FindKey(book.log, t.key);
    if found.Some? then Ok(Posted(book, found.value, true))
    else if !HeaderAccepted(book, t) then Err(Rejected)
    else if |t.entries| < 2 then Err(Validation)
    else if !EntriesAccepted(book, t) then Err(Rejected)
    else Ok(Posted(book.(log := book.log + [t]), |book.log|, false))
  }

  // ----- typed operations

  datatype OperationKind = OpenAccount | Earn | Spend | Move | Buy

  function KindOf(kind: OperationKind): Kind {
    match kind
    case OpenAccount => OpeningBalance
    case Earn => IncomeKind
    case Spend => ExpenseKind
    case Move => Transfer
    case Buy => AssetPurchase
  }

  datatype Operation = Operation(
    kind: OperationKind,
    day: Day,
    amount: string,
    key: Key,
    account: Option<nat>,
    category: Option<nat>,
    source: Option<nat>,
    destination: Option<nat>)

  function LoadAccount(book: Book, id: Option<nat>): (loaded: Result<nat, LedgerError>)
    ensures loaded.Ok? ==>
              && id == Some(loaded.value) && loaded.value in book.accounts
              && book.accounts[loaded.value].role == User
              && book.accounts[loaded.value].currency == book.currency
  {
    if id.None? then Err(Validation)
    else if id.value !in book.accounts || book.accounts[id.value].role != User then Err(NotFound)
    else if book.accounts[id.value].archived then Err(Conflict)
    else if book.accounts[id.value].currency != book.currency then Err(FxUnavailable)
    else Ok(id.value)
  }

  function LoadCategory(book: Book, id: Option<nat>, direction: Direction): (loaded: Result<nat, LedgerError>)
    ensures loaded.Ok? ==>
              && id.Some? && id.value in book.categories
              && book.categories[id.value] == Category(direction, loaded.value, false)
  {
    if id.None? then Err(Validation)
    else if id.value !in book.categories || book.categories[id.value].direction != direction then Err(NotFound)
    else if book.categories[id.value].archived then Err(Conflict)
    else Ok(book.categories[id.value].account)
  }

  function Pair(book: Book, first: nat, amount: int, second: nat, category: Option<nat>): seq<Entry> {
    [Entry(first, None, amount, book.currency), Entry(second, category, -amount, book.currency)]
  }

  function OperationEntries(book: Book, op: Operation, amount: int, equity: nat): Result<seq<Entry>, LedgerError> {
    match op.kind
    case OpenAccount =>
      var account :- LoadAccount(book, op.account);
      var signed := if book.accounts[account].accountClass == Liability then -amount else amount;
      Ok(Pair(book, account, signed, equity, None))
    case Earn =>
      var account :- LoadAccount(book, op.account);
      if book.accounts[account].accountClass != Asset then Err(Validation)
      else
        var category :- LoadCategory(book, op.category, Incoming);
        Ok(Pair(book, account, amount, category, op.category))
    case Spend =>
      var account :- LoadAccount(book, op.account);
      if book.accounts[account].accountClass != Asset then Err(Validation)
      else
        var category :- LoadCategory(book, op.category, Outgoing);
        Ok(Pair(book, account, -amount, category, op.category))
    case _ =>
      var source :- LoadAccount(book, op.source);
      var destination :- LoadAccount(book, op.destination);
      if source == destination then Err(Validation)
      else if book.accounts[source].accountClass != Asset || book.accounts[destination].accountClass != Asset
        then Err(Validation)
      else Ok(Pair(book, source, -amount, destination, None))
  }

  function PostTypedOperation(book: Book, op: Operation, replacing: Option<nat>): Result<Posted, LedgerError> {
    var parsed := Money.Parse(op.amount);
    if parsed.Err? || parsed.value <= 0 then Err(Validation)
    else if OpeningEquity !in book.systems then Err(Rejected)
    else
      var entries :- OperationEntries(book, op, parsed.value, book.systems[OpeningEquity]);
      PostJournal(book, Transaction(KindOf(op.kind), op.day, op.key, None, replacing, entries))
  }

  /** The opening balance of a newly created account, in the account's own currency. */
  function PostOpeningBalance(book: Book, account: nat, amount: int, day: Day, key: Key): Result<Posted, LedgerError> {
    if account !in book.accounts || OpeningEquity !in book.systems then Err(Rejected)
    else
      var signed := if book.accounts[account].accountClass == Liability then -amount else amount;
      var currency := book.accounts[account].currency;
      PostJournal(book, Transaction(OpeningBalance, day, key, None, None,
        [Entry(account, None, signed, currency), Entry(book.systems[OpeningEquity], None, -signed, currency)]))
  }

  // ----- corrections

  function Negated(entries: seq<Entry>): (negated: seq<Entry>)
    ensures |negated| == |entries|
    ensures forall i :: 0 <= i < |entries| ==> negated[i] == entries[i].(amount := -entries[i].amount)
  {
    if entries == [] then []
    else
      var last := entries[|entries| - 1];
      Negated(entries[..|entries| - 1]) + [last.(amount := -last.amount)]
  }

  function ReversalFor(log: seq<Transaction>, original: nat, key: Key): Transaction
    requires original < |log|
  {
    Transaction(Reversal, log[original].day, key, Some(original), None, Negated(log[original].entries))
  }

  function PostReversal(book: Book, original: nat, key: Key): Result<Posted, LedgerError> {
    if original >= |book.log| then Err(NotFound)
    else if book.log[original].kind == Reversal then Err(Conflict)
    else if IsReversed(book.log, original) then Err(Conflict)
    else PostJournal(book, ReversalFor(book.log, original, key))
  }

  datatype Replaced = Replaced(book: Book, reversal: nat, replacement: nat)

  /** Both postings commit together or not at all. */
  function ReplaceTransaction(
      book: Book, original: nat, reversalKey: Key, op: Operation): Result<Replaced, LedgerError>
  {
    var reversed :- PostReversal(book, original, reversalKey);
    var posted :- PostTypedOperation(reversed.book, op, Some(original));
    Ok(Replaced(posted.book, reversed.id, posted.id))
  }

  // ----- the status shown for a transaction

  datatype Status = PostedStatus | ReversedStatus | ReplacedStatus | ReversalStatus

  function StatusOf(log: seq<Transaction>, id: nat): Status
    requires id < |log|
  {
    if log[id].kind == Reversal then ReversalStatus
    else if IsReplaced(log, id) then ReplacedStatus
    else if IsReversed(log, id) then ReversedStatus
    else PostedStatus
  }
}
