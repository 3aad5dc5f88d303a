/** What a request promises for later: kept over every sequence of requests that may follow it. */
module UserPromises {
  import opened Prelude
  import opened Ledger
  import opened LedgerLaws
  import opened Accounts
  import opened UserRuns
  import UserStates
  import Reconciling
  import ReconcilingLaws
  import Valuation
  import Paging
  import Calendar
  import Money
  import Windows

  // ----- a confirmation stands

  ghost predicate Confirmed(desk: Reconciling.Desk, id: nat, reconciliation: nat) {
    && id < |desk.previews| && !desk.previews[id].deleted
    && desk.previews[id].confirmed == Some(reconciliation) && reconciliation < |desk.reconciliations|
  }

  lemma {:induction false} ApplyOnlyAddsRows(
      desk: Reconciling.Desk, account: nat, currency: nat, period: Day, reported: int, balance: int,
      current: Option<nat>, key: Key)
    ensures var applied := Reconciling.ApplyReconciliation(desk, account, currency, period, reported, balance, current,
                                                           key);
            applied.Ok? ==>
              && |desk.reconciliations| <= |applied.value.desk.reconciliations|
              && applied.value.desk.previews == desk.previews
  {
    hide PostReversal, Reconciling.Adjust, AccountBalanceAt, Reconciling.RowAccepted, Reconciling.FindReconciliation;
  }

  lemma {:induction false} PrepareKeepsConfirmed(
      desk: Reconciling.Desk, auto: bool, today: Calendar.Date, now: int, request: Reconciling.Request, id: nat,
      reconciliation: nat)
    requires Confirmed(desk, id, reconciliation)
             && Reconciling.PrepareReconciliation(desk, auto, today, now, request).Ok?
    ensures Confirmed(Reconciling.PrepareReconciliation(desk, auto, today, now, request).value.desk, id, reconciliation)
  {
    hide Reconciling.ApplyReconciliation, AccountBalanceAt, Reconciling.LockAccount, Money.Parse, Money.InRange,
      Windows.ValidateReconciliationPeriod, Calendar.DayNumber, Reconciling.FindReconciliation,
      Reconciling.FindPreview, Reconciling.ActiveReconciliationId;
    var read := AccountBalanceAt(desk.book, request.account, Calendar.DayNumber(request.period));
    if auto && read.Ok? && Money.Parse(request.reported).Ok?
       && Reconciling.LockAccount(desk.book, request.account).Ok? {
      var period := Calendar.DayNumber(request.period);
      ApplyOnlyAddsRows(desk, request.account, Reconciling.LockAccount(desk.book, request.account).value.currency,
                        period, Money.Parse(request.reported).value, read.value,
                        Reconciling.ActiveReconciliationId(desk.reconciliations, request.account, period), request.key);
    }
  }

  lemma {:induction false} ConfirmKeepsConfirmed(
      desk: Reconciling.Desk, other: nat, now: int, id: nat, reconciliation: nat)
    requires Confirmed(desk, id, reconciliation) && Reconciling.ConfirmReconciliation(desk, other, now).Ok?
    ensures Confirmed(Reconciling.ConfirmReconciliation(desk, other, now).value.desk, id, reconciliation)
  {
    hide Reconciling.ApplyReconciliation, AccountBalanceAt, Reconciling.LockAccount, Reconciling.IsFresh,
      Reconciling.ReportedBalance, Reconciling.ActiveReconciliationId;
    var p := desk.previews[other];
    var read, account := AccountBalanceAt(desk.book, p.account, p.period),
      Reconciling.LockAccount(desk.book, p.account);
    if read.Ok? && account.Ok? {
      ApplyOnlyAddsRows(desk, p.account, account.value.currency, p.period, Reconciling.ReportedBalance(p), read.value,
                        Reconciling.ActiveReconciliationId(desk.reconciliations, p.account, p.period), p.key);
    }
  }

  lemma OtherDeskRowsStay(s: UserState, action: Action)
    requires !action.Prepare? && !action.Confirm? && !action.Cleanup?
    ensures var desk := Perform(s, action).desk;
            && desk.reconciliations == s.desk.reconciliations && desk.snapshots == s.desk.snapshots
            && desk.previews == s.desk.previews
  {
    hide CreateAccount, UpdateAccount, CreateCategory, ArchiveCategory, EnsureSystem, HasSnapshot, PostTypedOperation,
      PostReversal, ReplaceTransaction, Valuation.CreateAsset, Valuation.ArchiveAsset, Valuation.CreateValuation;
  }

  lemma {:induction false} ActionKeepsConfirmed(s: UserState, action: Action, id: nat, reconciliation: nat)
    requires Confirmed(s.desk, id, reconciliation)
    ensures Confirmed(Perform(s, action).desk, id, reconciliation)
  {
    hide Reconciling.PrepareReconciliation, Reconciling.ConfirmReconciliation;
    match action {
      case Prepare(auto, today, now, request) =>
        if Reconciling.PrepareReconciliation(s.desk, auto, today, now, request).Ok? {
          PrepareKeepsConfirmed(s.desk, auto, today, now, request, id, reconciliation);
        }
      case Confirm(preview, at) =>
        if Reconciling.ConfirmReconciliation(s.desk, preview, at).Ok? {
          ConfirmKeepsConfirmed(s.desk, preview, at, id, reconciliation);
        }
      case Cleanup(_) =>
      case _ => OtherDeskRowsStay(s, action);
    }
  }

  lemma {:induction false} RunKeepsConfirmed(s: UserState, actions: seq<Action>, id: nat, reconciliation: nat)
    requires Confirmed(s.desk, id, reconciliation)
    ensures Confirmed(PerformAll(s, actions).desk, id, reconciliation)
    decreases |actions|
  {
    hide Perform, Confirmed;
    if actions != [] {
      ActionKeepsConfirmed(s, actions[0], id, reconciliation);
      RunKeepsConfirmed(Perform(s, actions[0]), actions[1..], id, reconciliation);
    }
  }

  /**
   A preview yields one reconciliation for good: after a successful confirmation, and after any requests and
   cleanups that follow, confirming again at any time returns the same reconciliation and changes nothing.
   */
  lemma {:induction false} EveryConfirmationStands(s: UserState, id: nat, at: int, actions: seq<Action>, again: int)
    requires Reconciling.ConfirmReconciliation(s.desk, id, at).Ok?
    ensures var later := PerformAll(Perform(s, Confirm(id, at)), actions).desk;
            Reconciling.ConfirmReconciliation(later, id, again)
            == Ok(Reconciling.Applied(later, Reconciling.ConfirmReconciliation(s.desk, id, at).value.id))
  {
    hide PerformAll, Reconciling.ConfirmReconciliation;
    var first := Reconciling.ConfirmReconciliation(s.desk, id, at).value;
    ReconcilingLaws.ConfirmLinksThePreview(s.desk, id, at);
    assert Perform(s, Confirm(id, at)).desk == first.desk;
    RunKeepsConfirmed(Perform(s, Confirm(id, at)), actions, id, first.id);
    ReconcilingLaws.ConfirmedIsAnswered(PerformAll(Perform(s, Confirm(id, at)), actions).desk, id, again);
  }

  // ----- a blocked period stays blocked

  /** Row `c` is the one active reconciliation of the period, and its adjustment is reversed. */
  ghost predicate BlockedBy(desk: Reconciling.Desk, c: nat, account: nat, period: Day) {
    && ReconcilingLaws.OneActive(desk.reconciliations)
    && c < |desk.reconciliations| && Reconciling.IsActive(desk.reconciliations[c], account, period)
    && desk.reconciliations[c].adjustmentId.Some?
    && desk.reconciliations[c].adjustmentId.value < |desk.book.log|
    && IsReversed(desk.book.log, desk.reconciliations[c].adjustmentId.value)
  }

  ghost predicate NoneAdded(
      before: seq<Reconciling.Reconciled>, after: seq<Reconciling.Reconciled>, account: nat, period: Day)
  {
    && |before| <= |after|
    && forall i :: |before| <= i < |after| ==> after[i].account != account || after[i].period != period
  }

  lemma ActiveIsTheOne(rows: seq<Reconciling.Reconciled>, c: nat, account: nat, period: Day)
    requires ReconcilingLaws.OneActive(rows) && c < |rows| && Reconciling.IsActive(rows[c], account, period)
    ensures Reconciling.ActiveReconciliationId(rows, account, period) == Some(c)
  {
    var found := Reconciling.ActiveReconciliationId(rows, account, period);
    assert found.Some?;
    assert Reconciling.IsActive(rows[found.value], account, period);
  }

  lemma ReversedStays(before: Book, after: Book, id: nat)
    requires before.log <= after.log && IsReversed(before.log, id)
    ensures IsReversed(after.log, id)
  {
    assert after.log == before.log + after.log[|before.log|..];
    IsReversedGrows(before.log, after.log[|before.log|..], id);
  }

  lemma BlockedSupersedeFails(desk: Reconciling.Desk, c: nat, account: nat, period: Day, balance: int, key: Key)
    requires BlockedBy(desk, c, account, period)
    ensures Reconciling.Supersede(desk.book, desk.reconciliations, account, period, balance, Some(c), key)
            == Err(Reconciling.Failed(Conflict))
  {
    hide PostJournal, IsReversed, AccountBalanceAt, ReconcilingLaws.OneActive;
  }

  /** The rows after an applied reconciliation: one marked as superseded at most, and one added. */
  lemma {:induction false} AppliedRows(
      desk: Reconciling.Desk, account: nat, currency: nat, period: Day, reported: int, balance: int,
      current: Option<nat>, key: Key)
    requires Reconciling.FindReconciliation(desk.reconciliations, key).None?
    requires Reconciling.ApplyReconciliation(desk, account, currency, period, reported, balance, current, key).Ok?
    ensures var before, after := desk.reconciliations,
              Reconciling.ApplyReconciliation(desk, account, currency, period, reported, balance, current,
                                              key).value.desk.reconciliations;
            && |after| == |before| + 1 && (current.Some? ==> current.value < |before|)
            && (forall i :: 0 <= i < |before| ==> after[i] == if current == Some(i) then before[i].(superseded := true)
                else before[i])
            && Reconciling.IsActive(after[|before|], account, period) && after[|before|].key == key
            && Reconciling.ActiveReconciliationId(after[..|before|], account, period).None?
            && Reconciling.Supersede(desk.book, before, account, period, balance, current, key).Ok?
  {
    hide PostReversal, Reconciling.Adjust, AccountBalanceAt, Reconciling.FindReconciliation,
      Reconciling.ActiveReconciliationId, Money.InRange;
    var after := Reconciling.ApplyReconciliation(desk, account, currency, period, reported, balance, current,
                                                 key).value.desk.reconciliations;
    var cleared := Reconciling.Supersede(desk.book, desk.reconciliations, account, period, balance, current, key).value;
    assert after[..|desk.reconciliations|] == cleared.rows;
  }

  lemma {:induction false} ApplyKeepsBlocked(
      desk: Reconciling.Desk, account: nat, currency: nat, period: Day, reported: int, balance: int, key: Key, c: nat,
      blocked: nat, end: Day)
    requires Sound(desk.book) && BlockedBy(desk, c, blocked, end)
    requires Reconciling.ApplyReconciliation(desk, account, currency, period, reported, balance,
               Reconciling.ActiveReconciliationId(desk.reconciliations, account, period), key).Ok?
    ensures var after := Reconciling.ApplyReconciliation(desk, account, currency, period, reported, balance,
                           Reconciling.ActiveReconciliationId(desk.reconciliations, account, period), key).value.desk;
            BlockedBy(after, c, blocked, end) && NoneAdded(desk.reconciliations, after.reconciliations, blocked, end)
  {
    hide Sound, IsReversed, Reconciling.ApplyReconciliation, Reconciling.Supersede;
    var rows := desk.reconciliations;
    var current := Reconciling.ActiveReconciliationId(rows, account, period);
    var applied := Reconciling.ApplyReconciliation(desk, account, currency, period, reported, balance, current,
                                                   key).value;
    ApplyKeepsTheLedger(desk, account, currency, period, reported, balance, current, key);
    assert applied.desk.book.log[..|desk.book.log|] == desk.book.log;
    ReversedStays(desk.book, applied.desk.book, rows[c].adjustmentId.value);
    if Reconciling.FindReconciliation(rows, key).None? {
      AppliedRows(desk, account, currency, period, reported, balance, current, key);
      if account == blocked && period == end {
        ActiveIsTheOne(rows, c, account, period);
        BlockedSupersedeFails(desk, c, account, period, balance, key);
      } else {
        AppendedStayOneActive(rows, applied.desk.reconciliations, account, period);
      }
    } else {
      KnownKeyApplies(desk, account, currency, period, reported, balance, current, key);
    }
  }

  lemma KnownKeyApplies(
      desk: Reconciling.Desk, account: nat, currency: nat, period: Day, reported: int, balance: int,
      current: Option<nat>, key: Key)
    requires Reconciling.FindReconciliation(desk.reconciliations, key).Some?
    ensures Reconciling.ApplyReconciliation(desk, account, currency, period, reported, balance, current, key)
            == Ok(Reconciling.Applied(desk, Reconciling.FindReconciliation(desk.reconciliations, key).value))
  {
    hide Reconciling.Supersede, Reconciling.Adjust, Reconciling.FindReconciliation, Reconciling.RowAccepted;
  }

  lemma {:induction false} AppendedStayOneActive(
      rows: seq<Reconciling.Reconciled>, after: seq<Reconciling.Reconciled>, account: nat, period: Day)
    requires ReconcilingLaws.OneActive(rows) && |after| == |rows| + 1
    requires forall i :: 0 <= i < |rows| ==> after[i].account == rows[i].account && after[i].period == rows[i].period
                                             && (rows[i].superseded ==> after[i].superseded)
    requires Reconciling.IsActive(after[|rows|], account, period)
    requires Reconciling.ActiveReconciliationId(after[..|rows|], account, period).None?
    ensures ReconcilingLaws.OneActive(after)
  {
    hide Reconciling.ActiveReconciliationId;
    forall i | 0 <= i < |rows|
      ensures !Reconciling.IsActive(after[i], account, period)
    {
      assert after[..|rows|][i] == after[i];
    }
  }

  lemma NoneAddedSelf(rows: seq<Reconciling.Reconciled>, account: nat, period: Day)
    ensures NoneAdded(rows, rows, account, period)
  {
  }

  lemma {:induction false} PrepareKeepsBlocked(
      desk: Reconciling.Desk, auto: bool, today: Calendar.Date, now: int, request: Reconciling.Request, c: nat,
      blocked: nat, end: Day)
    requires Sound(desk.book) && BlockedBy(desk, c, blocked, end)
    requires Reconciling.PrepareReconciliation(desk, auto, today, now, request).Ok?
    ensures var after := Reconciling.PrepareReconciliation(desk, auto, today, now, request).value.desk;
            BlockedBy(after, c, blocked, end) && NoneAdded(desk.reconciliations, after.reconciliations, blocked, end)
  {
    hide Sound, IsReversed, Reconciling.ApplyReconciliation, AccountBalanceAt, Reconciling.LockAccount, Money.Parse,
      Money.InRange, Windows.ValidateReconciliationPeriod, Calendar.DayNumber, Reconciling.FindReconciliation,
      Reconciling.FindPreview, Reconciling.ActiveReconciliationId, ReconcilingLaws.OneActive, NoneAdded;
    NoneAddedSelf(desk.reconciliations, blocked, end);
    var period := Calendar.DayNumber(request.period);
    var read, parsed, account := AccountBalanceAt(desk.book, request.account, period), Money.Parse(request.reported),
      Reconciling.LockAccount(desk.book, request.account);
    if auto && read.Ok? && parsed.Ok? && account.Ok?
       && Reconciling.ApplyReconciliation(desk, request.account, account.value.currency, period, parsed.value,
            read.value, Reconciling.ActiveReconciliationId(desk.reconciliations, request.account, period),
            request.key).Ok? {
      ApplyKeepsBlocked(desk, request.account, account.value.currency, period, parsed.value, read.value, request.key, c,
                        blocked, end);
    }
  }

  lemma {:induction false} ConfirmKeepsBlocked(
      desk: Reconciling.Desk, id: nat, now: int, c: nat, blocked: nat, end: Day)
    requires Sound(desk.book) && BlockedBy(desk, c, blocked, end)
    requires Reconciling.ConfirmReconciliation(desk, id, now).Ok?
    ensures var after := Reconciling.ConfirmReconciliation(desk, id, now).value.desk;
            BlockedBy(after, c, blocked, end) && NoneAdded(desk.reconciliations, after.reconciliations, blocked, end)
  {
    hide Sound, IsReversed, Reconciling.ApplyReconciliation, AccountBalanceAt, Reconciling.LockAccount,
      Reconciling.IsFresh, Reconciling.ReportedBalance, Reconciling.ActiveReconciliationId, ReconcilingLaws.OneActive,
      NoneAdded;
    NoneAddedSelf(desk.reconciliations, blocked, end);
    var p := desk.previews[id];
    var read, account := AccountBalanceAt(desk.book, p.account, p.period),
      Reconciling.LockAccount(desk.book, p.account);
    if read.Ok? && account.Ok?
       && Reconciling.ApplyReconciliation(desk, p.account, account.value.currency, p.period,
                                          Reconciling.ReportedBalance(p), read.value,
            Reconciling.ActiveReconciliationId(desk.reconciliations, p.account, p.period), p.key).Ok? {
      ApplyKeepsBlocked(desk, p.account, account.value.currency, p.period, Reconciling.ReportedBalance(p), read.value,
                        p.key, c, blocked, end);
    }
  }

  lemma {:induction false} ActionKeepsBlocked(s: UserState, action: Action, c: nat, account: nat, period: Day)
    requires Sound(s.desk.book) && BlockedBy(s.desk, c, account, period)
    ensures var after := Perform(s, action).desk;
            && BlockedBy(after, c, account, period)
            && NoneAdded(s.desk.reconciliations, after.reconciliations, account, period)
  {
    hide Sound, IsReversed, Extends, Infrastructure, AppendsPlainly, NoneAdded, Reconciling.PrepareReconciliation,
      Reconciling.ConfirmReconciliation, ReconcilingLaws.OneActive;
    NoneAddedSelf(s.desk.reconciliations, account, period);
    match action {
      case Prepare(auto, today, now, request) =>
        if Reconciling.PrepareReconciliation(s.desk, auto, today, now, request).Ok? {
          PrepareKeepsBlocked(s.desk, auto, today, now, request, c, account, period);
        }
      case Confirm(preview, at) =>
        if Reconciling.ConfirmReconciliation(s.desk, preview, at).Ok? {
          ConfirmKeepsBlocked(s.desk, preview, at, c, account, period);
        }
      case Cleanup(_) =>
      case _ =>
        OtherDeskRowsStay(s, action);
        LogOnlyGrows(s, action);
        ReversedStays(s.desk.book, Perform(s, action).desk.book, s.desk.reconciliations[c].adjustmentId.value);
    }
  }

  lemma LogOnlyGrows(s: UserState, action: Action)
    requires Sound(s.desk.book)
    ensures s.desk.book.log <= Perform(s, action).desk.book.log
  {
    hide Sound, Perform, Infrastructure, AppendsPlainly;
    ActionKeepsTheLedger(s, action);
  }

  /** Reversing the active adjustment by hand, with a fresh key, is what blocks a period. */
  lemma {:induction false} HandReversalBlocks(s: UserState, c: nat, account: nat, period: Day, key: Key)
    requires ReconcilingLaws.DeskSound(s.desk) && c < |s.desk.reconciliations|
    requires Reconciling.IsActive(s.desk.reconciliations[c], account, period)
             && s.desk.reconciliations[c].adjustmentId.Some?
    requires PostReversal(s.desk.book, s.desk.reconciliations[c].adjustmentId.value, key).Ok?
             && !HasKey(s.desk.book, key)
    ensures BlockedBy(Perform(s, Reverse(s.desk.reconciliations[c].adjustmentId.value, key)).desk, c, account, period)
  {
    hide Sound, Infrastructure, PostReversal, FindKey, ReconcilingLaws.OneActive, ReconcilingLaws.KeysDistinct,
      ReconcilingLaws.PreviewsSound;
    var original := s.desk.reconciliations[c].adjustmentId.value;
    ReversalIsSound(s.desk.book, original, key);
    ReversedExactlyWhenKeyFresh(s.desk.book, original, key);
  }

  lemma {:induction false} RunKeepsBlocked(s: UserState, actions: seq<Action>, c: nat, account: nat, period: Day)
    requires Sound(s.desk.book) && BlockedBy(s.desk, c, account, period)
    ensures Sound(PerformAll(s, actions).desk.book) && BlockedBy(PerformAll(s, actions).desk, c, account, period)
    decreases |actions|
  {
    hide Sound, Perform, BlockedBy, NoneAdded, Extends, Infrastructure, AppendsPlainly;
    if actions != [] {
      ActionKeepsBlocked(s, actions[0], c, account, period);
      ActionKeepsTheLedger(s, actions[0]);
      RunKeepsBlocked(Perform(s, actions[0]), actions[1..], c, account, period);
    }
  }

  /**
   A period whose active adjustment was reversed by hand can never be reconciled again: after any requests, with
   any keys, its reconciliation is still the same row, and any further one is a conflict and no request adds one.
   */
  lemma {:induction false} EveryBlockedPeriodStaysBlocked(
      s: UserState, actions: seq<Action>, c: nat, account: nat, period: Day, last: Action, currency: nat,
      reported: int, balance: int, key: Key)
    requires Sound(s.desk.book) && BlockedBy(s.desk, c, account, period)
    ensures var later := PerformAll(s, actions);
            && Reconciling.ActiveReconciliationId(later.desk.reconciliations, account, period) == Some(c)
            && (Reconciling.FindReconciliation(later.desk.reconciliations, key).None? ==>
                  Reconciling.ApplyReconciliation(later.desk, account, currency, period, reported, balance, Some(c),
                                                  key)
                  == Err(Reconciling.Failed(Conflict)))
            && NoneAdded(later.desk.reconciliations, Perform(later, last).desk.reconciliations, account, period)
  {
    hide Sound, Perform, PerformAll, NoneAdded, Reconciling.Supersede, Reconciling.Adjust, Reconciling.RowAccepted,
      Reconciling.FindReconciliation, Reconciling.ActiveReconciliationId, IsReversed;
    RunKeepsBlocked(s, actions, c, account, period);
    var later := PerformAll(s, actions);
    ActionKeepsBlocked(later, last, c, account, period);
    ActiveIsTheOne(later.desk.reconciliations, c, account, period);
    BlockedSupersedeFails(later.desk, c, account, period, balance, key);
  }

  // ----- a repeated request

  /**
   Whatever happens after an operation was accepted, repeating it returns the same transaction and changes nothing
   exactly when its accounts and category are still usable.
   */
  lemma {:induction false} EveryRetryReplaysExactlyWhenUsable(s: UserState, op: Operation, actions: seq<Action>)
    requires Sound(s.desk.book) && PostTypedOperation(s.desk.book, op, None).Ok?
    ensures var later := PerformAll(Perform(s, Post(op)), actions).desk.book;
            var id := PostTypedOperation(s.desk.book, op, None).value.id;
            PostTypedOperation(later, op, None) == Ok(Posted(later, id, true)) <==> Usable(later, op)
  {
    hide Sound, PostTypedOperation, PerformAll, Usable, Money.Parse;
    var first := PostTypedOperation(s.desk.book, op, None).value;
    TypedOperationIsSound(s.desk.book, op, None);
    AcceptedParses(s.desk.book, op);
    var posted := Perform(s, Post(op));
    assert posted.desk.book == first.book;
    RunKeepsTheLedger(posted, actions);
    RetryReplaysExactlyWhenUsable(PerformAll(posted, actions).desk.book, op, None, first.id);
  }

  lemma AcceptedParses(book: Book, op: Operation)
    requires PostTypedOperation(book, op, None).Ok?
    ensures Money.Parse(op.amount).Ok? && Money.Parse(op.amount).value > 0 && OpeningEquity in book.systems
  {
    hide Money.Parse, OperationEntries, PostJournal;
  }

  lemma ActionKeepsValuations(s: UserState, action: Action)
    ensures s.valuations <= Perform(s, action).valuations
  {
    hide CreateAccount, UpdateAccount, CreateCategory, ArchiveCategory, EnsureSystem, HasSnapshot, PostTypedOperation,
      PostReversal, ReplaceTransaction, Reconciling.PrepareReconciliation, Reconciling.ConfirmReconciliation,
      Valuation.PlaceAsset, Valuation.PostPurchase, Valuation.KeyTaken, Valuation.AccountTaken, AccountBalanceAt,
      Valuation.Revalue, Money.Parse, Valuation.OwnedValue, Valuation.FindValuation, Valuation.LatestDay;
  }

  lemma {:induction false} RunKeepsValuations(s: UserState, actions: seq<Action>)
    ensures s.valuations <= PerformAll(s, actions).valuations
    decreases |actions|
  {
    hide Perform;
    if actions != [] {
      ActionKeepsValuations(s, actions[0]);
      RunKeepsValuations(Perform(s, actions[0]), actions[1..]);
    }
  }

  lemma {:induction false} ValuedRow(h: Valuation.Holdings, asset: nat, market: string, day: Day, key: Key)
    requires Valuation.HoldingsSound(h) && Valuation.CreateValuation(h, asset, market, day, key).Ok?
    ensures var created := Valuation.CreateValuation(h, asset, market, day, key).value;
            && created.id < |created.holdings.valuations| && created.holdings.valuations[created.id].key == key
            && Valuation.HoldingsSound(created.holdings)
  {
    hide Valuation.HoldingsSound, Valuation.RecordValuation, Money.Parse, Valuation.LatestDay;
    if Valuation.FindValuation(h.valuations, key).None? {
      Valuation.ValuationSetsTheBalance(h, asset, market, day, key);
    }
  }

  /**
   Whatever happens after a valuation was accepted, its key returns it and changes nothing exactly when the repeated
   request names an active asset in the functional currency and an acceptable market value.
   */
  lemma {:induction false} EveryValuationRetryReplaysExactlyWhenActive(
      s: UserState, asset: nat, market: string, day: Day, key: Key, actions: seq<Action>, again: nat, value: string,
      on: Day)
    requires Valuation.HoldingsSound(Holdings(s)) && Valuation.CreateValuation(Holdings(s), asset, market, day, key).Ok?
    ensures var later := Holdings(PerformAll(Perform(s, Value(asset, market, day, key)), actions));
            var id := Valuation.CreateValuation(Holdings(s), asset, market, day, key).value.id;
            Valuation.CreateValuation(later, again, value, on, key) == Ok(Valuation.Created(later, id)) <==>
              && Money.Parse(value).Ok? && Money.Parse(value).value >= 0
              && again in later.assets && !later.assets[again].archived
              && later.assets[again].currency == later.book.currency
  {
    hide PerformAll, Valuation.CreateValuation, Money.Parse, Sound, Infrastructure, Valuation.AssetsSound;
    var created := Valuation.CreateValuation(Holdings(s), asset, market, day, key).value;
    ValuedRow(Holdings(s), asset, market, day, key);
    var valued := Perform(s, Value(asset, market, day, key));
    assert Holdings(valued) == created.holdings;
    UserStates.EveryRunKeepsHoldings(valued, actions);
    RunKeepsValuations(valued, actions);
    var later := Holdings(PerformAll(valued, actions));
    assert later.valuations[created.id] == valued.valuations[created.id];
    Valuation.RetryReplaysExactlyWhenActive(later, created.id, again, value, on, key);
  }

  // ----- paging while requests run

  /** The table at the start and after each batch of requests. */
  ghost function Tables(s: UserState, batches: seq<seq<Action>>, ids: nat -> nat): seq<set<Paging.Row>>
    decreases |batches|
  {
    [Paging.Table(s.desk.book.log, ids)]
      + (if batches == [] then [] else Tables(PerformAll(s, batches[0]), batches[1..], ids))
  }

  /** Requests only ever add rows to the table a client pages through. */
  lemma {:induction false} EveryRunGrowsTheTable(s: UserState, batches: seq<seq<Action>>, ids: nat -> nat)
    requires Sound(s.desk.book)
    ensures |Tables(s, batches, ids)| == |batches| + 1 && Paging.Growing(Tables(s, batches, ids))
    decreases |batches|
  {
    hide Sound, PerformAll;
    var tables := Tables(s, batches, ids);
    if batches != [] {
      var next := PerformAll(s, batches[0]);
      var rest := Tables(next, batches[1..], ids);
      RunKeepsTheLedger(s, batches[0]);
      EveryRunGrowsTheTable(next, batches[1..], ids);
      Paging.TableGrows(s.desk.book.log, next.desk.book.log, ids);
      assert rest[0] == Paging.Table(next.desk.book.log, ids);
      forall i, j | 0 <= i <= j < |tables|
        ensures tables[i] <= tables[j]
      {
        if i == 0 && j > 0 {
          assert tables[0] <= rest[0] <= rest[j - 1];
        } else if i > 0 {
          assert rest[i - 1] <= rest[j - 1];
        }
      }
    }
  }

  /**
   A client that follows cursors while any requests run between its pages sees a strictly descending list that
   holds every matching transaction posted before its first page.
   */
  lemma {:induction false} EveryWalkIsComplete(
      s: UserState, batches: seq<seq<Action>>, ids: nat -> nat, filter: Paging.Filter, cursor: Option<string>,
      limit: Option<int>, pages: seq<Paging.Page>)
    requires Sound(s.desk.book)
    requires Paging.IsWalk(Tables(s, batches, ids), filter, cursor, limit, pages)
    requires |Tables(s, batches, ids)| > 0 && Paging.Listable(Tables(s, batches, ids)[|Tables(s, batches, ids)| - 1])
    ensures Paging.DecodePosition(cursor).Ok?
    ensures var below := Paging.DecodePosition(cursor).value;
            && Paging.Descending(Paging.Shown(pages))
            && (forall row :: row in Paging.Candidates(Paging.Table(s.desk.book.log, ids), filter, below) ==>
                row in Paging.Shown(pages))
            && (forall row :: row in Paging.Shown(pages) ==>
                  row in Paging.Candidates(Tables(s, batches, ids)[|Tables(s, batches, ids)| - 1], filter, below))
  {
    hide Sound, Paging.IsWalk, Paging.Listable, Paging.DecodePosition, Paging.Descending, Paging.Candidates, PerformAll;
    EveryRunGrowsTheTable(s, batches, ids);
    Paging.WalkIsComplete(Tables(s, batches, ids), filter, cursor, limit, pages);
  }
}
