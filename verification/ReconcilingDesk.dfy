/**
 The reconciliation handlers as they change the tables step by step, each inside one database transaction: their own
 three tables, and the ledger's two through the operations that post to them.
 */
module ReconcilingDesk {
  import opened Prelude
  import opened Ledger
  import opened Reconciling
  import LedgerTables
  import Calendar
  import Windows
  import Money

  class ReconciliationDesk {
    const tables: LedgerTables.Tables
    var reconciliations: seq<Reconciled>
    var snapshots: seq<Snapshot>
    var previews: seq<Preview>

    ghost predicate Valid()
      reads this, tables
    {
      tables.Valid()
    }

    ghost function Contents(): Desk
      reads this, tables
    {
      Desk(tables.Contents(), reconciliations, snapshots, previews)
    }

    constructor (tables: LedgerTables.Tables)
      requires tables.Valid()
      ensures Valid() && this.tables == tables && Contents() == Desk(tables.Contents(), [], [], [])
    {
      this.tables := tables;
      reconciliations, snapshots, previews := [], [], [];
    }

    /** Reads the account's row alone, whatever the ledger holds. */
    method LockAccount(account: nat) returns (result: Result<Account, DeskError>)
      ensures result == Reconciling.LockAccount(tables.Contents(), account)
    {
      return Reconciling.LockAccount(Book(tables.accounts, map[], map[], tables.currency, []), account);
    }

    /** Reverses and supersedes the active reconciliation, if there is one, and reads the balance again. */
    method Supersede(account: nat, period: Day, currentBalance: int, currentId: Option<nat>, key: Key)
      returns (result: Result<(Option<nat>, int), DeskError>)
      requires Valid()
      modifies `reconciliations, tables`headers, tables`entries, tables`log
      ensures Valid()
      ensures match Reconciling.Supersede(old(tables.Contents()), old(reconciliations), account, period, currentBalance,
                                          currentId, key)
              case Ok(cleared) =>
                tables.Contents() == cleared.book && reconciliations == cleared.rows
                  && result == Ok((cleared.reversal, cleared.base))
              case Err(e) => result == Err(e)
    {
      hide PostReversal, AccountBalanceAt, LedgerTables.Headers, LedgerTables.EntryRows;
      var reversalId: Option<nat> := None;
      var baseBalance := currentBalance;
      if currentId.Some? {
        if currentId.value >= |reconciliations| || reconciliations[currentId.value].superseded {
          return Err(Stale);
        }
        var adjustmentId := reconciliations[currentId.value].adjustmentId;
        if adjustmentId.Some? {
          var posted := tables.PostReversal(adjustmentId.value, ReconciliationReversal(currentId.value, key));
          if posted.Err? {
            return Err(Failed(posted.error));
          }
          reversalId := Some(posted.value.0);
          var read := tables.AccountBalanceAt(account, period);
          if read.Err? {
            return Err(Failed(read.error));
          }
          baseBalance := read.value;
        }
        reconciliations := reconciliations[currentId.value := reconciliations[currentId.value].(superseded := true)];
      }
      return Ok((reversalId, baseBalance));
    }

    /** Posts the adjustment as other income or other expense, unless it is zero. */
    method Adjust(
        account: nat, currency: nat, period: Day, adjustment: int, key: Key)
      returns (result: Result<Option<nat>, DeskError>)
      requires Valid()
      modifies tables`headers, tables`entries, tables`log
      ensures Valid()
      ensures match Reconciling.Adjust(old(tables.Contents()), account, currency, period, adjustment, key)
              case Ok(adjusted) => tables.Contents() == adjusted.book && result == Ok(adjusted.id)
              case Err(e) => result == Err(e)
    {
      hide PostJournal, LedgerTables.Headers, LedgerTables.EntryRows;
      if adjustment == 0 {
        return Ok(None);
      }
      var systemCode := OtherIncome;
      if adjustment < 0 {
        systemCode := OtherExpense;
      }
      if systemCode !in tables.systems {
        return Err(Failed(Rejected));
      }
      var posted := tables.PostJournal(LedgerTables.HeaderRow(Reconciliation, period, key, None, None),
                                       AdjustmentEntries(account, tables.systems[systemCode], adjustment, currency));
      if posted.Err? {
        return Err(Failed(posted.error));
      }
      return Ok(Some(posted.value.0));
    }

    /** On an error the rows written so far are left for the caller to roll back. */
    method ApplyReconciliation(
        account: nat, currency: nat, period: Day, reported: int, currentBalance: int, currentId: Option<nat>, key: Key)
      returns (result: Result<nat, DeskError>)
      requires Valid()
      modifies `reconciliations, `snapshots, tables`headers, tables`entries, tables`log
      ensures Valid()
      ensures match Reconciling.ApplyReconciliation(old(Contents()), account, currency, period, reported,
                                                    currentBalance, currentId, key)
              case Ok(applied) => Contents() == applied.desk && result == Ok(applied.id)
              case Err(e) => result == Err(e)
    {
      hide Reconciling.Supersede, Reconciling.Adjust, RowAccepted, LedgerTables.Headers, LedgerTables.EntryRows;
      var existing := FindReconciliation(reconciliations, key);
      if existing.Some? {
        return Ok(existing.value);
      }
      var cleared := Supersede(account, period, currentBalance, currentId, key);
      if cleared.Err? {
        return Err(cleared.error);
      }
      var adjustment := reported - cleared.value.1;
      var netDifference := reported - currentBalance;
      var adjusted := Adjust(account, currency, period, adjustment, key);
      if adjusted.Err? {
        return Err(adjusted.error);
      }
      var row := Reconciled(account, period, reported, currentBalance, netDifference, adjustment, adjusted.value,
                            cleared.value.0, currentId, key, false);
      if !RowAccepted(reconciliations, row) {
        return Err(Failed(Rejected));
      }
      var id := |reconciliations|;
      reconciliations := reconciliations + [row];
      snapshots := snapshots + [Snapshot(account, id, period, reported)];
      return Ok(id);
    }

    method PrepareReconciliation(auto: bool, today: Calendar.Date, now: int, request: Request)
      returns (result: Result<Outcome, DeskError>)
      requires Valid()
      modifies this, tables`headers, tables`entries, tables`log
      ensures Valid()
      ensures match Reconciling.PrepareReconciliation(old(Contents()), auto, today, now, request)
              case Ok(prepared) => Contents() == prepared.desk && result == Ok(prepared.outcome)
              case Err(e) => Contents() == old(Contents()) && result == Err(e)
    {
      hide Reconciling.ApplyReconciliation, AccountBalanceAt, Reconciling.LockAccount, Money.Parse,
        Windows.ValidateReconciliationPeriod, Calendar.DayNumber;
      var reported := Money.ParseAmount(request.reported);
      if reported.Err? {
        return Err(Failed(Validation));
      }
      var valid := Windows.ValidateReconciliationPeriod(today, request.period);
      if valid.Err? {
        return Err(InvalidPeriod(valid.error));
      }
      var existing := FindReconciliation(reconciliations, request.key);
      if existing.Some? {
        return Ok(AppliedOutcome(existing.value));
      }
      var pending := FindPreview(previews, request.key);
      if pending.Some? {
        return Ok(PreviewOutcome(pending.value));
      }
      var period := Calendar.DayNumber(request.period);
      var account := LockAccount(request.account);
      if account.Err? {
        return Err(account.error);
      }
      if account.value.currency != tables.currency {
        return Err(Failed(FxUnavailable));
      }
      var balance := tables.AccountBalanceAt(request.account, period);
      if balance.Err? {
        return Err(Failed(balance.error));
      }
      var current := ActiveReconciliationId(reconciliations, request.account, period);
      if auto {
        var savedHeaders, savedEntries, savedRows, savedSnapshots := tables.headers, tables.entries, reconciliations,
          snapshots;
        var applied := ApplyReconciliation(request.account, account.value.currency, period, reported.value,
                                           balance.value, current, request.key);
        if applied.Err? {
          tables.headers, tables.entries, tables.log := savedHeaders, savedEntries, old(tables.log);
          reconciliations, snapshots := savedRows, savedSnapshots;
          return Err(applied.error);
        }
        return Ok(AppliedOutcome(applied.value));
      }
      var difference := reported.value - balance.value;
      if !Money.InRange(difference) {
        return Err(Failed(Rejected));
      }
      var id := |previews|;
      previews := previews + [Preview(request.account, period, reported.value, balance.value, difference, request.key,
                                      current, None, now + PREVIEW_SECONDS, false)];
      return Ok(PreviewOutcome(id));
    }

    method ConfirmReconciliation(id: nat, now: int) returns (result: Result<nat, DeskError>)
      requires Valid()
      modifies this, tables`headers, tables`entries, tables`log
      ensures Valid()
      ensures match Reconciling.ConfirmReconciliation(old(Contents()), id, now)
              case Ok(applied) => Contents() == applied.desk && result == Ok(applied.id)
              case Err(e) => Contents() == old(Contents()) && result == Err(e)
    {
      hide Reconciling.ApplyReconciliation, AccountBalanceAt, Reconciling.LockAccount, IsFresh, ReportedBalance;
      if id >= |previews| || previews[id].deleted {
        return Err(Failed(NotFound));
      }
      var preview := previews[id];
      if preview.confirmed.Some? {
        if preview.confirmed.value < |reconciliations| {
          return Ok(preview.confirmed.value);
        }
        return Err(Failed(NotFound));
      }
      if now > preview.expiresAt {
        return Err(Expired);
      }
      var account := LockAccount(preview.account);
      if account.Err? {
        return Err(account.error);
      }
      var balance := tables.AccountBalanceAt(preview.account, preview.period);
      if balance.Err? {
        return Err(Failed(balance.error));
      }
      var current := ActiveReconciliationId(reconciliations, preview.account, preview.period);
      if !IsFresh(preview, balance.value, current) {
        return Err(Stale);
      }
      var savedHeaders, savedEntries, savedRows, savedSnapshots := tables.headers, tables.entries, reconciliations,
        snapshots;
      var applied := ApplyReconciliation(preview.account, account.value.currency, preview.period,
                                         ReportedBalance(preview), balance.value, current, preview.key);
      if applied.Err? {
        tables.headers, tables.entries, tables.log := savedHeaders, savedEntries, old(tables.log);
        reconciliations, snapshots := savedRows, savedSnapshots;
        return Err(applied.error);
      }
      previews := previews[id := preview.(confirmed := Some(applied.value))];
      return Ok(applied.value);
    }
  }
}
