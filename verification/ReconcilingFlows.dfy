/** Where the money of a reconciliation goes, what it records, and exactly when one is accepted. */
module ReconcilingFlows {
  import opened Prelude
  import opened Ledger
  import opened LedgerLaws
  import opened LedgerAcceptance
  import opened Reconciling
  import opened ReconcilingLaws
  import Calendar
  import Money
  import Windows

  // ----- every account's balance

  /** A surplus comes from other income, a shortfall goes to other expense. */
  ghost function AdjustmentFlow(book: Book, account: nat, adjustment: int, period: Day, other: nat, at: Day): int {
    if adjustment > 0 then Flow(SystemAccount(book, OtherIncome), Some(account), adjustment, period, other, at)
    else if adjustment < 0 then Flow(Some(account), SystemAccount(book, OtherExpense), -adjustment, period, other, at)
    else 0
  }

  lemma {:induction false} AdjustMoves(
      book: Book, account: nat, currency: nat, period: Day, adjustment: int, key: Key, other: nat, at: Day)
    requires Sound(book) && Adjust(book, account, currency, period, adjustment, key).Ok?
    ensures var adjusted := Adjust(book, account, currency, period, adjustment, key).value;
            BalanceAt(adjusted.book.log, other, at) == BalanceAt(book.log, other, at)
              + (if HasKey(book, key) then 0 else AdjustmentFlow(book, account, adjustment, period, other, at))
  {
    hide Sound, BalanceAt, HeaderAccepted, EntriesAccepted;
    if adjustment != 0 && !HasKey(book, key) {
      var system := book.systems[if adjustment > 0 then OtherIncome else OtherExpense];
      var entries := AdjustmentEntries(account, system, adjustment, currency);
      var t := Transaction(Reconciliation, period, key, None, None, entries);
      BalanceAfterPost(book, book.(log := book.log + [t]), t, other, at);
      TotalOfTwo(entries[0], entries[1]);
      assert entries == [entries[0], entries[1]];
    }
  }

  /** Superseding takes out, for every account and day, what the earlier adjustment put in, if its key is unused. */
  lemma {:induction false} SupersedeMoves(
      book: Book, rows: seq<Reconciled>, account: nat, period: Day, balance: int, current: Option<nat>, key: Key,
      other: nat, at: Day)
    requires Sound(book) && Supersede(book, rows, account, period, balance, current, key).Ok?
    ensures var cleared := Supersede(book, rows, account, period, balance, current, key).value;
            && Sound(cleared.book) && Grows(book, cleared.book) && (HasKey(cleared.book, key) <==> HasKey(book, key))
            && BalanceAt(cleared.book.log, other, at)
               == BalanceAt(book.log, other, at) - Removable(book, rows, other, at, current, key)
  {
    hide Sound, BalanceAt, HasKey, Contribution, PostReversal, AccountBalanceAt;
    if current.Some? && rows[current.value].adjustmentId.Some? {
      var original, derived := rows[current.value].adjustmentId.value, ReconciliationReversal(current.value, key);
      ReversalFindsOriginal(book, original, derived);
      DerivedKeyDiffers(current.value, key);
      ReversedBalance(book, original, derived, key, other, at);
    }
  }

  /**
   After an applied reconciliation every account has on every day the balance it had, less what the removable
   adjustment had put there, plus the new adjustment's flow: from other income to the account, or from the account to
   other expense.
   */
  lemma {:induction false} AppliedFlows(
      desk: Desk, account: nat, currency: nat, period: Day, reported: int, current: Option<nat>, key: Key, other: nat,
      at: Day)
    requires Sound(desk.book) && FindReconciliation(desk.reconciliations, key).None?
    requires ApplyReconciliation(desk, account, currency, period, reported, BalanceAt(desk.book.log, account, period),
                                 current, key).Ok?
    ensures var balance := BalanceAt(desk.book.log, account, period);
            var after := ApplyReconciliation(desk, account, currency, period, reported, balance, current, key).value;
            var adjustment := reported - balance
                              + Removable(desk.book, desk.reconciliations, account, period, current, key);
            BalanceAt(after.desk.book.log, other, at)
            == BalanceAt(desk.book.log, other, at)
               - Removable(desk.book, desk.reconciliations, other, at, current, key)
               + (if HasKey(desk.book, key) then 0
                  else AdjustmentFlow(desk.book, account, adjustment, period, other, at))
  {
    hide Sound, BalanceAt, FindKey, Supersede, Adjust, RowAccepted, Removable, Flow;
    var balance := BalanceAt(desk.book.log, account, period);
    SupersedeReadsBalance(desk.book, desk.reconciliations, account, period, current, key);
    SupersedeMoves(desk.book, desk.reconciliations, account, period, balance, current, key, other, at);
    var cleared := Supersede(desk.book, desk.reconciliations, account, period, balance, current, key).value;
    AdjustMoves(cleared.book, account, currency, period, reported - cleared.base, key, other, at);
  }

  // ----- what is recorded

  /**
   The rows written: who is superseded and by which reversal, the snapshot of the report, and nothing else changes.
   */
  lemma {:induction false} AppliedRecord(
      desk: Desk, account: nat, currency: nat, period: Day, reported: int, balance: int, current: Option<nat>,
      key: Key)
    requires Sound(desk.book) && FindReconciliation(desk.reconciliations, key).None?
    requires ApplyReconciliation(desk, account, currency, period, reported, balance, current, key).Ok?
    ensures var after := ApplyReconciliation(desk, account, currency, period, reported, balance, current, key).value;
            var rows, n := after.desk.reconciliations, |desk.reconciliations|;
            && after.id == n == |rows| - 1
            && (forall i :: 0 <= i < n ==>
                  rows[i] == if current == Some(i) then desk.reconciliations[i].(superseded := true)
                             else desk.reconciliations[i])
            && var row := rows[n];
            && row.account == account && row.period == period && row.reported == reported && row.key == key
            && row.ledgerBefore == balance && row.difference == reported - balance && !row.superseded
            && row.supersedes == current
            && (row.adjustmentId.None? <==> row.adjustment == 0)
            && (row.adjustmentId.Some? ==>
                  row.adjustmentId.value < |after.desk.book.log|
                    && after.desk.book.log[row.adjustmentId.value].key == key)
            && (row.reversalId.Some? <==> current.Some? && desk.reconciliations[current.value].adjustmentId.Some?)
            && (row.reversalId.Some? ==>
                  && row.reversalId.value < |after.desk.book.log|
                  && after.desk.book.log[row.reversalId.value].key == ReconciliationReversal(current.value, key))
            && after.desk.snapshots == desk.snapshots + [Snapshot(account, n, period, reported)]
            && after.desk.previews == desk.previews
  {
    hide Sound, PostReversal, PostJournal, AccountBalanceAt, RowAccepted, FindReconciliation, FindKey;
    var cleared := Supersede(desk.book, desk.reconciliations, account, period, balance, current, key).value;
    if current.Some? && desk.reconciliations[current.value].adjustmentId.Some? {
      ReversalIsSound(desk.book, desk.reconciliations[current.value].adjustmentId.value,
                      ReconciliationReversal(current.value, key));
    }
    AdjustNames(cleared.book, account, currency, period, reported - cleared.base, key);
    var after := ApplyReconciliation(desk, account, currency, period, reported, balance, current, key).value;
    if cleared.reversal.Some? {
      assert cleared.book.log <= after.desk.book.log;
      assert after.desk.book.log[cleared.reversal.value] == cleared.book.log[cleared.reversal.value];
    }
  }

  lemma {:induction false} AdjustNames(
      book: Book, account: nat, currency: nat, period: Day, adjustment: int, key: Key)
    requires Sound(book) && Adjust(book, account, currency, period, adjustment, key).Ok?
    ensures var adjusted := Adjust(book, account, currency, period, adjustment, key).value;
            && (adjusted.id.None? <==> adjustment == 0)
            && book.log <= adjusted.book.log
            && (adjusted.id.Some? ==>
                  adjusted.id.value < |adjusted.book.log| && adjusted.book.log[adjusted.id.value].key == key)
  {
    hide Sound;
    if adjustment != 0 {
      var system := book.systems[if adjustment > 0 then OtherIncome else OtherExpense];
      var entries := AdjustmentEntries(account, system, adjustment, currency);
      TotalOfTwo(entries[0], entries[1]);
      PostJournalIsSound(book, Transaction(Reconciliation, period, key, None, None, entries));
    }
  }

  // ----- when it is accepted

  /** Bank and cash accounts in use can be reconciled, and no others. */
  lemma LockedExactlyWhen(book: Book, account: nat)
    ensures LockAccount(book, account).Ok? <==>
              && account in book.accounts && book.accounts[account].role == User
              && book.accounts[account].accountClass == Asset && !book.accounts[account].archived
              && (book.accounts[account].subtype == Bank || book.accounts[account].subtype == Cash)
    ensures LockAccount(book, account)
            == if LockAccount(book, account).Ok? then Ok(book.accounts[account]) else Err(Failed(NotFound))
  {
  }

  lemma {:induction false} ReadExactlyWhen(book: Book, account: nat, day: Day)
    ensures AccountBalanceAt(book, account, day)
            == if Money.InRange(BalanceAt(book.log, account, day)) then Ok(BalanceAt(book.log, account, day))
               else Err(Rejected)
  {
    hide BalanceAt, Money.NumericText, Money.Parse, Money.InRange;
    Money.ParseOfNumericText(BalanceAt(book.log, account, day));
  }

  /** The system account of an adjustment exists and takes entries in the account's currency. */
  ghost predicate CanAdjust(book: Book, account: nat, adjustment: int, key: Key) {
    adjustment == 0 ||
    var code := if adjustment > 0 then OtherIncome else OtherExpense;
    && code in book.systems
    && (|| HasKey(book, key)
        || (&& book.systems[code] in book.accounts && !book.accounts[book.systems[code]].archived
            && account in book.accounts && book.accounts[book.systems[code]].currency == book.accounts[account].currency
            && Money.InRange(adjustment)))
  }

  lemma {:induction false} AdjustedExactlyWhen(book: Book, account: nat, period: Day, adjustment: int, key: Key)
    requires LockAccount(book, account).Ok?
    ensures Adjust(book, account, book.accounts[account].currency, period, adjustment, key).Ok?
            <==> CanAdjust(book, account, adjustment, key)
  {
    hide Money.InRange, FindKey;
    if adjustment != 0 && (if adjustment > 0 then OtherIncome else OtherExpense) in book.systems {
      var system := book.systems[if adjustment > 0 then OtherIncome else OtherExpense];
      var currency := book.accounts[account].currency;
      var t := Transaction(Reconciliation, period, key, None, None,
                           AdjustmentEntries(account, system, adjustment, currency));
      TwoEntries(book, t);
      OppositeInRange(adjustment);
    }
  }

  /**
   On a sound desk, a reconciliation on top of the active one is accepted exactly when the active adjustment was not
   reversed by hand, every amount to be stored or read is in range, and the adjustment's system account takes it.
   */
  lemma {:induction false} AppliedExactlyWhen(desk: Desk, account: nat, period: Day, reported: int, key: Key)
    requires DeskSound(desk) && EntriesHold(desk.book) && LockAccount(desk.book, account).Ok?
    requires FindReconciliation(desk.reconciliations, key).None?
    ensures var rows := desk.reconciliations;
            var current := ActiveReconciliationId(rows, account, period);
            var balance := BalanceAt(desk.book.log, account, period);
            var base := balance - Removable(desk.book, rows, account, period, current, key);
            ApplyReconciliation(desk, account, desk.book.accounts[account].currency, period, reported, balance, current,
                                key).Ok? <==>
              && !BlockedPeriod(desk, account, period)
              && Money.InRange(reported) && Money.InRange(balance) && Money.InRange(reported - balance)
              && Money.InRange(reported - base)
              && (current.Some? && rows[current.value].adjustmentId.Some? ==> Money.InRange(base))
              && CanAdjust(desk.book, account, reported - base, key)
  {
    hide DeskSound, EntriesHold, BalanceAt, Money.InRange, Removable, FindKey, CanAdjust, Supersede,
      ApplyReconciliation, LockAccount, BlockedPeriod, ActiveReconciliationId;
    var rows := desk.reconciliations;
    var current := ActiveReconciliationId(rows, account, period);
    var balance := BalanceAt(desk.book.log, account, period);
    ClearedExactlyWhen(desk, account, period, key);
    LockedExactlyWhen(desk.book, account);
    var cleared := Supersede(desk.book, rows, account, period, balance, current, key);
    if cleared.Ok? {
      DeskParts(desk);
      SupersedeReadsBalance(desk.book, rows, account, period, current, key);
      SameAdjusting(desk.book, cleared.value.book, account, reported - cleared.value.base, key);
      AdjustedExactlyWhen(cleared.value.book, account, period, reported - cleared.value.base, key);
      NoneActiveAfter(rows, cleared.value.rows, current, account, period);
      AppliedOnceCleared(desk, account, period, reported, balance, current, key);
    } else {
      NotCleared(desk, account, period, reported, balance, current, key);
    }
  }

  lemma DeskParts(desk: Desk)
    requires DeskSound(desk)
    ensures Sound(desk.book) && Infrastructure(desk.book) && OneActive(desk.reconciliations)
  {
    hide Sound, Infrastructure, OneActive;
  }

  lemma NotCleared(
      desk: Desk, account: nat, period: Day, reported: int, balance: int, current: Option<nat>, key: Key)
    requires account in desk.book.accounts && FindReconciliation(desk.reconciliations, key).None?
    requires Supersede(desk.book, desk.reconciliations, account, period, balance, current, key).Err?
    ensures ApplyReconciliation(desk, account, desk.book.accounts[account].currency, period, reported, balance, current,
                                key).Err?
  {
    hide Supersede, Adjust, RowAccepted, FindReconciliation;
  }

  lemma {:induction false} AppliedOnceCleared(
      desk: Desk, account: nat, period: Day, reported: int, balance: int, current: Option<nat>, key: Key)
    requires account in desk.book.accounts && FindReconciliation(desk.reconciliations, key).None?
    requires var cleared := Supersede(desk.book, desk.reconciliations, account, period, balance, current, key);
             cleared.Ok? && ActiveReconciliationId(cleared.value.rows, account, period).None?
    ensures var cleared := Supersede(desk.book, desk.reconciliations, account, period, balance, current, key).value;
            var currency := desk.book.accounts[account].currency;
            ApplyReconciliation(desk, account, currency, period, reported, balance, current, key).Ok? <==>
              && Adjust(cleared.book, account, currency, period, reported - cleared.base, key).Ok?
              && Money.InRange(reported) && Money.InRange(balance) && Money.InRange(reported - balance)
              && Money.InRange(reported - cleared.base)
  {
    hide Supersede, Adjust, FindReconciliation, ActiveReconciliationId, Money.InRange;
  }

  lemma SameAdjusting(before: Book, after: Book, account: nat, adjustment: int, key: Key)
    requires Grows(before, after) && (HasKey(after, key) <==> HasKey(before, key))
    ensures CanAdjust(after, account, adjustment, key) <==> CanAdjust(before, account, adjustment, key)
    ensures LockAccount(after, account) == LockAccount(before, account)
  {
    hide Money.InRange, FindKey;
  }

  lemma {:induction false} NoneActiveAfter(
      rows: seq<Reconciled>, marked: seq<Reconciled>, current: Option<nat>, account: nat, period: Day)
    requires OneActive(rows) && Unmarked(rows, marked, current)
    requires current == ActiveReconciliationId(rows, account, period)
    ensures ActiveReconciliationId(marked, account, period).None?
  {
    forall i | 0 <= i < |rows| && current != Some(i)
      ensures !IsActive(rows[i], account, period)
    {
    }
  }

  lemma {:induction false} ClearedExactlyWhen(desk: Desk, account: nat, period: Day, key: Key)
    requires DeskSound(desk) && EntriesHold(desk.book)
    ensures var rows := desk.reconciliations;
            var current := ActiveReconciliationId(rows, account, period);
            var balance := BalanceAt(desk.book.log, account, period);
            Supersede(desk.book, rows, account, period, balance, current, key).Ok? <==>
              && !BlockedPeriod(desk, account, period)
              && (current.Some? && rows[current.value].adjustmentId.Some? ==>
                    Money.InRange(balance - Removable(desk.book, rows, account, period, current, key)))
  {
    hide Sound, Infrastructure, EntriesHold, BalanceAt, Contribution, Money.InRange, PostReversal, FindKey,
      IsReversed, AccountBalanceAt, KeysDistinct, PreviewsSound, OneActive;
    var rows := desk.reconciliations;
    var current := ActiveReconciliationId(rows, account, period);
    if current.Some? && rows[current.value].adjustmentId.Some? {
      assert RowLinked(desk.book.log, rows[current.value]);
      var original, derived := rows[current.value].adjustmentId.value, ReconciliationReversal(current.value, key);
      ReversedExactlyWhen(desk.book, original, derived);
      if PostReversal(desk.book, original, derived).Ok? {
        DerivedKeyDiffers(current.value, key);
        ReversedBalance(desk.book, original, derived, key, account, period);
        ReadExactlyWhen(PostReversal(desk.book, original, derived).value.book, account, period);
      }
    }
  }

  // ----- preparing

  /** The request names a parseable report of an acceptable period. */
  predicate WellFormedRequest(today: Calendar.Date, request: Request) {
    Money.Parse(request.reported).Ok? && Windows.ValidateReconciliationPeriod(today, request.period).Ok?
  }

  /**
   A preview is prepared exactly for a well-formed request whose key is known, or whose account can be reconciled in
   the functional currency with balance and difference in range; a key already applied or previewed returns that.
   */
  lemma {:induction false} PreviewedExactlyWhen(desk: Desk, today: Calendar.Date, now: int, request: Request)
    ensures var prepared := PrepareReconciliation(desk, false, today, now, request);
            var applied := FindReconciliation(desk.reconciliations, request.key);
            var pending := FindPreview(desk.previews, request.key);
            var period := Calendar.DayNumber(request.period);
            var balance := BalanceAt(desk.book.log, request.account, period);
            && (prepared.Ok? <==>
                  && WellFormedRequest(today, request)
                  && (|| applied.Some? || pending.Some?
                      || (&& LockAccount(desk.book, request.account).Ok?
                          && desk.book.accounts[request.account].currency == desk.book.currency
                          && Money.InRange(balance)
                          && Money.InRange(Money.Parse(request.reported).value - balance))))
            && (prepared.Ok? ==>
                  match prepared.value.outcome
                  case AppliedOutcome(id) => applied == Some(id) && prepared.value.desk == desk
                  case PreviewOutcome(id) =>
                    applied.None? && (pending.Some? ==> pending == Some(id) && prepared.value.desk == desk))
  {
    hide BalanceAt, AccountBalanceAt, Money.Parse, Money.InRange, Windows.ValidateReconciliationPeriod,
      Calendar.DayNumber, LockAccount;
    ReadExactlyWhen(desk.book, request.account, Calendar.DayNumber(request.period));
    LockedExactlyWhen(desk.book, request.account);
  }

  /** A new preview shows balance, report, difference and active row, and can be confirmed for exactly 15 minutes. */
  lemma {:induction false} PreviewShows(desk: Desk, today: Calendar.Date, now: int, request: Request, later: int)
    requires PrepareReconciliation(desk, false, today, now, request).Ok?
    requires FindReconciliation(desk.reconciliations, request.key).None?
             && FindPreview(desk.previews, request.key).None?
    ensures var after := PrepareReconciliation(desk, false, today, now, request).value;
            var period := Calendar.DayNumber(request.period);
            && after.outcome == PreviewOutcome(|desk.previews|) && |after.desk.previews| == |desk.previews| + 1
            && after.desk == desk.(previews := desk.previews + [after.desk.previews[|desk.previews|]])
            && var p := after.desk.previews[|desk.previews|];
            && p.account == request.account && p.period == period && p.key == request.key
            && Money.Parse(request.reported) == Ok(p.reported)
            && p.ledger == BalanceAt(desk.book.log, request.account, period) && p.difference == p.reported - p.ledger
            && p.current == ActiveReconciliationId(desk.reconciliations, request.account, period)
            && p.confirmed.None? && !p.deleted
            && (ConfirmReconciliation(after.desk, |desk.previews|, later) == Err(Expired) <==> later > now + 900)
  {
    hide BalanceAt, AccountBalanceAt, Money.Parse, Money.InRange, Windows.ValidateReconciliationPeriod,
      Calendar.DayNumber, LockAccount, ConfirmReconciliation, ActiveReconciliationId;
    ReadExactlyWhen(desk.book, request.account, Calendar.DayNumber(request.period));
    var after := PrepareReconciliation(desk, false, today, now, request).value;
    ExpiredExactlyWhen(after.desk, |desk.previews|, later);
  }

  /** The cleanup deletes exactly the previews that expired before it unconfirmed, and changes nothing else of any. */
  lemma CleanedExactlyWhen(previews: seq<Preview>, cutoff: int, i: nat)
    requires i < |previews|
    ensures |DeleteExpired(previews, cutoff)| == |previews|
    ensures var after := DeleteExpired(previews, cutoff)[i];
            && after == previews[i].(deleted := after.deleted)
            && (after.deleted <==>
                  previews[i].deleted || (previews[i].expiresAt < cutoff && previews[i].confirmed.None?))
  {
  }

  // ----- refusals

  /** Each error of a request, previewed or applied at once, has its reason. */
  lemma {:induction false} RequestRefusals(
      desk: Desk, auto: bool, today: Calendar.Date, now: int, request: Request)
    requires PrepareReconciliation(desk, auto, today, now, request).Err?
    ensures var period := Calendar.DayNumber(request.period);
            var current := ActiveReconciliationId(desk.reconciliations, request.account, period);
            match PrepareReconciliation(desk, auto, today, now, request).error
            case InvalidPeriod(e) => Windows.ValidateReconciliationPeriod(today, request.period) == Err(e)
            case Failed(Validation) => Money.Parse(request.reported).Err? || auto
            case Failed(NotFound) => LockAccount(desk.book, request.account).Err? || auto
            case Failed(FxUnavailable) =>
              && request.account in desk.book.accounts
              && desk.book.accounts[request.account].currency != desk.book.currency
            case Failed(Conflict) => auto && current.Some?
            case Failed(Rejected) =>
              auto || !Money.InRange(BalanceAt(desk.book.log, request.account, period))
              || (Money.Parse(request.reported).Ok?
                  && !Money.InRange(Money.Parse(request.reported).value
                                    - BalanceAt(desk.book.log, request.account, period)))
            case Stale => false
            case Expired => false
  {
    hide BalanceAt, AccountBalanceAt, Money.Parse, Money.InRange, Windows.ValidateReconciliationPeriod,
      Calendar.DayNumber, LockAccount, ApplyReconciliation;
    var period := Calendar.DayNumber(request.period);
    ReadExactlyWhen(desk.book, request.account, period);
    LockedExactlyWhen(desk.book, request.account);
    if auto && LockAccount(desk.book, request.account).Ok? && Money.Parse(request.reported).Ok?
       && Money.InRange(BalanceAt(desk.book.log, request.account, period)) {
      ApplyIsNeverStale(desk, request.account, desk.book.accounts[request.account].currency, period,
                        Money.Parse(request.reported).value, BalanceAt(desk.book.log, request.account, period),
                        request.key);
      ApplyErrors(desk, request.account, desk.book.accounts[request.account].currency, period,
                  Money.Parse(request.reported).value, BalanceAt(desk.book.log, request.account, period),
                  ActiveReconciliationId(desk.reconciliations, request.account, period), request.key);
    }
  }

  lemma {:induction false} ApplyErrors(
      desk: Desk, account: nat, currency: nat, period: Day, reported: int, balance: int, current: Option<nat>,
      key: Key)
    ensures var applied := ApplyReconciliation(desk, account, currency, period, reported, balance, current, key);
            && (applied.Err? ==> applied.error.Failed? || applied.error.Stale?)
            && (applied.Err? && applied.error.Failed? ==> applied.error.error != FxUnavailable)
            && (applied == Err(Failed(Conflict)) ==> current.Some?)
  {
    hide FindReconciliation, FindKey, HeaderAccepted, EntriesAccepted, IsReversed, Money.Parse, Money.NumericText,
      BalanceAt, RowAccepted;
  }

  /**
   Applied at once or not, a well-formed request whose key was applied or previewed before is answered with that and
   changes nothing; otherwise applying at once succeeds exactly when the account can be reconciled and applying does.
   */
  lemma {:induction false} AutoExactlyWhen(desk: Desk, today: Calendar.Date, now: int, request: Request)
    ensures var prepared := PrepareReconciliation(desk, true, today, now, request);
            var applied := FindReconciliation(desk.reconciliations, request.key);
            var pending := FindPreview(desk.previews, request.key);
            var period := Calendar.DayNumber(request.period);
            var balance := BalanceAt(desk.book.log, request.account, period);
            if !WellFormedRequest(today, request) then prepared.Err?
            else if applied.Some? then prepared == Ok(Prepared(desk, AppliedOutcome(applied.value)))
            else if pending.Some? then prepared == Ok(Prepared(desk, PreviewOutcome(pending.value)))
            else if LockAccount(desk.book, request.account).Err? then prepared.Err?
            else
              var currency := desk.book.accounts[request.account].currency;
              if currency != desk.book.currency || !Money.InRange(balance) then prepared.Err?
              else
                match ApplyReconciliation(desk, request.account, currency, period,
                                          Money.Parse(request.reported).value, balance,
                                          ActiveReconciliationId(desk.reconciliations, request.account, period),
                                          request.key)
                case Ok(done) => prepared == Ok(Prepared(done.desk, AppliedOutcome(done.id)))
                case Err(e) => prepared == Err(e)
  {
    hide BalanceAt, AccountBalanceAt, Money.Parse, Money.InRange, Windows.ValidateReconciliationPeriod,
      Calendar.DayNumber, LockAccount, ApplyReconciliation;
    ReadExactlyWhen(desk.book, request.account, Calendar.DayNumber(request.period));
    LockedExactlyWhen(desk.book, request.account);
  }
}
