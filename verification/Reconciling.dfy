/**
 Month-end reconciliation: prepare a reported balance, confirm the preview, and post the difference. A
 reconciliation of the same account and period supersedes the one before by reversing its adjustment.
 */
module Reconciling {
  import opened Prelude
  import opened Ledger
  import Calendar
  import Windows
  import Money

  datatype Reconciled = Reconciled(
    account: nat,
    period: Day,
    reported: int,
    ledgerBefore: int,
    difference: int,
    adjustment: int,
    adjustmentId: Option<nat>,
    reversalId: Option<nat>,
    supersedes: Option<nat>,
    key: Key,
    superseded: bool)

  datatype Snapshot = Snapshot(account: nat, reconciliation: nat, period: Day, reported: int)

  /** A preview's identity is its position; the worker deletes expired ones that were never confirmed. */
  datatype Preview = Preview(
    account: nat,
    period: Day,
    reported: int,
    ledger: int,
    difference: int,
    key: Key,
    current: Option<nat>,
    confirmed: Option<nat>,
    expiresAt: int,
    deleted: bool)

  /** The rows a reconciliation request reads and writes. */
  datatype Desk = Desk(
    book: Book,
    reconciliations: seq<Reconciled>,
    snapshots: seq<Snapshot>,
    previews: seq<Preview>)

  datatype DeskError = Failed(error: LedgerError) | InvalidPeriod(period: Windows.PeriodError) | Stale | Expired

  function Lift<T>(result: Result<T, LedgerError>): Result<T, DeskError> {
    match result
    case Ok(value) => Ok(value)
    case Err(e) => Err(Failed(e))
  }

  // ----- queries

  function FindReconciliation(rows: seq<Reconciled>, key: Key): (found: Option<nat>)
    ensures found.Some? ==> found.value < |rows| && rows[found.value].key == key
    ensures found.None? ==> forall i :: 0 <= i < |rows| ==> rows[i].key != key
  {
    if rows == [] then None
    else if rows[|rows| - 1].key == key then Some(|rows| - 1)
    else FindReconciliation(rows[..|rows| - 1], key)
  }

  predicate IsActive(row: Reconciled, account: nat, period: Day) {
    row.account == account && row.period == period && !row.superseded
  }

  function ActiveReconciliationId(rows: seq<Reconciled>, account: nat, period: Day): (found: Option<nat>)
    ensures found.Some? ==> found.value < |rows| && IsActive(rows[found.value], account, period)
    ensures found.None? ==> forall i :: 0 <= i < |rows| ==> !IsActive(rows[i], account, period)
  {
    if rows == [] then None
    else if IsActive(rows[|rows| - 1], account, period) then Some(|rows| - 1)
    else ActiveReconciliationId(rows[..|rows| - 1], account, period)
  }

  function FindPreview(previews: seq<Preview>, key: Key): (found: Option<nat>)
    ensures found.Some? ==>
              found.value < |previews| && previews[found.value].key == key && !previews[found.value].deleted
    ensures found.None? ==> forall i :: 0 <= i < |previews| && !previews[i].deleted ==> previews[i].key != key
  {
    if previews == [] then None
    else if previews[|previews| - 1].key == key && !previews[|previews| - 1].deleted then Some(|previews| - 1)
    else FindPreview(previews[..|previews| - 1], key)
  }

  function LockAccount(book: Book, account: nat): Result<Account, DeskError> {
    if account !in book.accounts then Err(Failed(NotFound))
    else
      var row := book.accounts[account];
      if row.role == User && row.accountClass == Asset && row.subtype != OtherSubtype && !row.archived then Ok(row)
      else Err(Failed(NotFound))
  }

  // ----- applyReconciliation

  datatype Cleared = Cleared(book: Book, rows: seq<Reconciled>, reversal: Option<nat>, base: int)

  /** Reverse and supersede the active reconciliation, and read the balance again. */
  function Supersede(
      book: Book, rows: seq<Reconciled>, account: nat, period: Day, balance: int, current: Option<nat>, key: Key)
    : Result<Cleared, DeskError>
  {
    if current.None? then Ok(Cleared(book, rows, None, balance))
    else if current.value >= |rows| || rows[current.value].superseded then Err(Stale)
    else
      var row := rows[current.value];
      var marked := rows[current.value := row.(superseded := true)];
      if row.adjustmentId.None? then Ok(Cleared(book, marked, None, balance))
      else
        var posted :- Lift(PostReversal(book, row.adjustmentId.value, ReconciliationReversal(current.value, key)));
        var base :- Lift(AccountBalanceAt(posted.book, account, period));
        Ok(Cleared(posted.book, marked, Some(posted.id), base))
  }

  datatype Adjusted = Adjusted(book: Book, id: Option<nat>)

  function AdjustmentEntries(account: nat, system: nat, adjustment: int, currency: nat): seq<Entry> {
    [Entry(account, None, adjustment, currency), Entry(system, None, -adjustment, currency)]
  }

  /** Post the difference as other income or other expense, unless there is none. */
  function Adjust(
      book: Book, account: nat, currency: nat, period: Day, adjustment: int, key: Key): Result<Adjusted, DeskError>
  {
    if adjustment == 0 then Ok(Adjusted(book, None))
    else
      var code := if adjustment > 0 then OtherIncome else OtherExpense;
      if code !in book.systems then Err(Failed(Rejected))
      else
        var posted :- Lift(PostJournal(book, Transaction(Reconciliation, period, key, None, None,
                                                         AdjustmentEntries(account, book.systems[code], adjustment,
                                                                           currency))));
        Ok(Adjusted(posted.book, Some(posted.id)))
  }

  datatype Applied = Applied(desk: Desk, id: nat)

  /** The constraints on a reconciliations row: column ranges and one active row per account and period. */
  predicate RowAccepted(rows: seq<Reconciled>, row: Reconciled) {
    && Money.InRange(row.reported) && Money.InRange(row.ledgerBefore)
    && Money.InRange(row.difference) && Money.InRange(row.adjustment)
    && ActiveReconciliationId(rows, row.account, row.period).None?
  }

  function ApplyReconciliation(
      desk: Desk, account: nat, currency: nat, period: Day, reported: int, balance: int, current: Option<nat>,
      key: Key)
    : (applied: Result<Applied, DeskError>)
    ensures applied.Ok? ==>
              && applied.value.desk.previews == desk.previews
              && applied.value.id < |applied.value.desk.reconciliations|
  {
    var existing := FindReconciliation(desk.reconciliations, key);
    if existing.Some? then Ok(Applied(desk, existing.value))
    else
      var cleared :- Supersede(desk.book, desk.reconciliations, account, period, balance, current, key);
      var adjustment := reported - cleared.base;
      var adjusted :- Adjust(cleared.book, account, currency, period, adjustment, key);
      var row := Reconciled(account, period, reported, balance, reported - balance, adjustment, adjusted.id,
                            cleared.reversal, current, key, false);
      if !RowAccepted(cleared.rows, row) then Err(Failed(Rejected))
      else
        var id := |cleared.rows|;
        Ok(Applied(Desk(adjusted.book, cleared.rows + [row],
                        desk.snapshots + [Snapshot(account, id, period, reported)], desk.previews), id))
  }

  // ----- prepare and confirm

  datatype Request = Request(account: nat, period: Calendar.Date, reported: string, key: Key)
  datatype Outcome = AppliedOutcome(reconciliation: nat) | PreviewOutcome(preview: nat)
  datatype Prepared = Prepared(desk: Desk, outcome: Outcome)

  const PREVIEW_SECONDS: int := 15 * 60

  function PrepareReconciliation(
      desk: Desk, auto: bool, today: Calendar.Date, now: int, request: Request): Result<Prepared, DeskError>
  {
    var reported := Money.Parse(request.reported);
    var valid := Windows.ValidateReconciliationPeriod(today, request.period);
    var existing := FindReconciliation(desk.reconciliations, request.key);
    var pending := FindPreview(desk.previews, request.key);
    if reported.Err? then Err(Failed(Validation))
    else if valid.Err? then Err(InvalidPeriod(valid.error))
    else if existing.Some? then Ok(Prepared(desk, AppliedOutcome(existing.value)))
    else if pending.Some? then Ok(Prepared(desk, PreviewOutcome(pending.value)))
    else
      var period := Calendar.DayNumber(request.period);
      var account :- LockAccount(desk.book, request.account);
      if account.currency != desk.book.currency then Err(Failed(FxUnavailable))
      else
        var balance :- Lift(AccountBalanceAt(desk.book, request.account, period));
        var current := ActiveReconciliationId(desk.reconciliations, request.account, period);
        if auto then
          var applied :- ApplyReconciliation(desk, request.account, account.currency, period, reported.value, balance,
                                             current, request.key);
          Ok(Prepared(applied.desk, AppliedOutcome(applied.id)))
        else if !Money.InRange(reported.value - balance) then Err(Failed(Rejected))
        else
          var preview := Preview(request.account, period, reported.value, balance, reported.value - balance,
                                 request.key, current, None, now + PREVIEW_SECONDS, false);
          Ok(Prepared(desk.(previews := desk.previews + [preview]), PreviewOutcome(|desk.previews|)))
  }

  /** The staleness test compares the balance's text with the text of the preview's column. */
  predicate IsFresh(preview: Preview, balance: int, current: Option<nat>) {
    && Money.AmountStringsEqual(Money.String(balance), Money.NumericText(preview.ledger))
    && current == preview.current
  }

  /** The reported balance as read back from the preview; an unreadable text counts as zero. */
  function ReportedBalance(preview: Preview): int {
    match Money.Parse(Money.NumericText(preview.reported))
    case Ok(reported) => reported
    case Err(_) => 0
  }

  function ConfirmReconciliation(desk: Desk, id: nat, now: int): Result<Applied, DeskError> {
    if id >= |desk.previews| || desk.previews[id].deleted then Err(Failed(NotFound))
    else
      var preview := desk.previews[id];
      if preview.confirmed.Some? then
        if preview.confirmed.value < |desk.reconciliations| then Ok(Applied(desk, preview.confirmed.value))
        else Err(Failed(NotFound))
      else if now > preview.expiresAt then Err(Expired)
      else
        var account :- LockAccount(desk.book, preview.account);
        var balance :- Lift(AccountBalanceAt(desk.book, preview.account, preview.period));
        var current := ActiveReconciliationId(desk.reconciliations, preview.account, preview.period);
        if !IsFresh(preview, balance, current) then Err(Stale)
        else
          var applied :- ApplyReconciliation(desk, preview.account, account.currency, preview.period,
                                             ReportedBalance(preview), balance, current, preview.key);
          var marked := applied.desk.previews[id := preview.(confirmed := Some(applied.id))];
          Ok(Applied(applied.desk.(previews := marked), applied.id))
  }

  /** The worker's cleanup. */
  function DeleteExpired(previews: seq<Preview>, now: int): seq<Preview> {
    seq(|previews|, i requires 0 <= i < |previews| =>
      if previews[i].expiresAt < now && previews[i].confirmed.None? then previews[i].(deleted := true) else previews[i])
  }
}
