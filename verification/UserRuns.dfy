/** Whole runs of one user's requests, in any order: what every sequence of them keeps in the ledger. */
module UserRuns {
  import opened Prelude
  import opened Ledger
  import opened LedgerLaws
  import opened Accounts
  import Reconciling
  import Valuation
  import Calendar
  import Money
  import Windows

  datatype UserState = UserState(desk: Reconciling.Desk, assets: map<nat, Valuation.Asset>,
                                 valuations: seq<Valuation.Valued>)

  /** Every request that writes; identifiers of new rows are chosen by the server and may be any. */
  datatype Action =
    | AddAccount(id: nat, details: Account, balance: Option<Opening>)
    | EditAccount(id: nat, newCurrency: Option<nat>, archiving: Option<bool>)
    | AddCategory(id: nat, account: nat, direction: Direction)
    | SetCategoryArchived(id: nat, archived: bool)
    | AddSystem(code: SystemCode, id: nat)
    | ChangeSettings(functional: nat)
    | Post(operation: Operation)
    | Reverse(original: nat, key: Key)
    | Correct(original: nat, reversalKey: Key, operation: Operation)
    | Prepare(auto: bool, today: Calendar.Date, now: int, request: Reconciling.Request)
    | Confirm(preview: nat, at: int)
    | Cleanup(cutoff: int)
    | AddAsset(id: nat, newAsset: Valuation.NewAsset)
    | SetAssetArchived(id: nat, archived: bool)
    | Value(asset: nat, market: string, valuedOn: Day, valuationKey: Key)

  /** A user who has just registered: no accounts, no postings. */
  function NewUser(currency: nat): UserState {
    UserState(Reconciling.Desk(Book(map[], map[], map[], currency, []), [], [], []), map[], [])
  }

  function WithBook(s: UserState, book: Book): UserState {
    s.(desk := s.desk.(book := book))
  }

  function Holdings(s: UserState): Valuation.Holdings {
    Valuation.Holdings(s.desk.book, s.assets, s.valuations)
  }

  function WithHoldings(s: UserState, h: Valuation.Holdings): UserState {
    UserState(s.desk.(book := h.book), h.assets, h.valuations)
  }

  predicate HasSnapshot(desk: Reconciling.Desk, account: nat) {
    exists i :: 0 <= i < |desk.snapshots| && desk.snapshots[i].account == account
  }

  function Commit(s: UserState, result: Result<Book, LedgerError>): UserState {
    match result
    case Ok(book) => WithBook(s, book)
    case Err(_) => s
  }

  function CommitHoldings(s: UserState, result: Result<Valuation.Holdings, LedgerError>): UserState {
    match result
    case Ok(h) => WithHoldings(s, h)
    case Err(_) => s
  }

  function BookOf(posted: Result<Posted, LedgerError>): Result<Book, LedgerError> {
    match posted
    case Ok(value) => Ok(value.book)
    case Err(e) => Err(e)
  }

  /** A request that fails leaves the state as it was. */
  function Perform(s: UserState, action: Action): UserState {
    var book := s.desk.book;
    match action
    case AddAccount(id, details, balance) => Commit(s, CreateAccount(book, id, details, balance))
    case EditAccount(id, newCurrency, archiving) =>
      Commit(s, UpdateAccount(book, id, newCurrency, archiving, HasSnapshot(s.desk, id)))
    case AddCategory(id, account, direction) => Commit(s, CreateCategory(book, id, account, direction))
    case SetCategoryArchived(id, archived) => Commit(s, ArchiveCategory(book, id, archived))
    case AddSystem(code, id) => Commit(s, EnsureSystem(book, code, id))
    case ChangeSettings(functional) => Commit(s, ChangeCurrency(book, functional))
    case Post(operation) => Commit(s, BookOf(PostTypedOperation(book, operation, None)))
    case Reverse(original, key) => Commit(s, BookOf(PostReversal(book, original, key)))
    case Correct(original, reversalKey, operation) =>
      (match ReplaceTransaction(book, original, reversalKey, operation) case Ok(replaced) => WithBook(s, replaced.book)
       case Err(_) => s)
    case Prepare(auto, today, now, request) =>
      (match Reconciling.PrepareReconciliation(s.desk, auto, today, now, request)
       case Ok(prepared) => s.(desk := prepared.desk) case Err(_) => s)
    case Confirm(preview, at) =>
      (match Reconciling.ConfirmReconciliation(s.desk, preview, at) case Ok(applied) => s.(desk := applied.desk)
       case Err(_) => s)
    case Cleanup(cutoff) => s.(desk := s.desk.(previews := Reconciling.DeleteExpired(s.desk.previews, cutoff)))
    case AddAsset(id, newAsset) => CommitHoldings(s, Valuation.CreateAsset(Holdings(s), id, newAsset))
    case SetAssetArchived(id, archived) => CommitHoldings(s, Valuation.ArchiveAsset(Holdings(s), id, archived))
    case Value(asset, market, valuedOn, valuationKey) =>
      (match Valuation.CreateValuation(Holdings(s), asset, market, valuedOn, valuationKey)
       case Ok(created) => WithHoldings(s, created.holdings) case Err(_) => s)
  }

  function PerformAll(s: UserState, actions: seq<Action>): UserState
    decreases |actions|
  {
    if actions == [] then s else PerformAll(Perform(s, actions[0]), actions[1..])
  }

  // ----- any run at all: the ledger

  /** What one request does to a sound book: it stays sound, rows are only added and postings only appended. */
  ghost predicate Kept(before: Book, after: Book, plain: bool) {
    && Sound(after) && Extends(before, after)
    && (Infrastructure(before) ==> Infrastructure(after))
    && (plain ==> AppendsPlainly(before.log, after.log))
  }

  lemma {:induction false} GrowthIsKept(before: Book, after: Book, plain: bool)
    requires Sound(after) && Grows(before, after) && (plain ==> AppendsPlainly(before.log, after.log))
    ensures Kept(before, after, plain)
  {
    hide Sound, AppendsPlainly, Extends;
    GrowthExtends(before, after);
  }

  lemma KeptSelf(book: Book)
    requires Sound(book)
    ensures Kept(book, book, true)
  {
    hide Sound;
  }

  /** applyReconciliation keeps the ledger sound whatever its arguments and keys. */
  lemma {:induction false} ApplyKeepsTheLedger(
      desk: Reconciling.Desk, account: nat, currency: nat, period: Day, reported: int, balance: int,
      current: Option<nat>, key: Key)
    requires Sound(desk.book)
    ensures var applied := Reconciling.ApplyReconciliation(desk, account, currency, period, reported, balance, current,
                                                           key);
            applied.Ok? ==> Sound(applied.value.desk.book) && GrowsPlainly(desk.book, applied.value.desk.book)
  {
    hide Sound, PostReversal, PostJournal, AccountBalanceAt, Reconciling.RowAccepted;
    var applied := Reconciling.ApplyReconciliation(desk, account, currency, period, reported, balance, current, key);
    if applied.Ok? && Reconciling.FindReconciliation(desk.reconciliations, key).None? {
      var cleared := Reconciling.Supersede(desk.book, desk.reconciliations, account, period, balance, current,
                                           key).value;
      if current.Some? && desk.reconciliations[current.value].adjustmentId.Some? {
        ReversalIsSound(desk.book, desk.reconciliations[current.value].adjustmentId.value,
                        ReconciliationReversal(current.value, key));
      }
      assert Sound(cleared.book) && GrowsPlainly(desk.book, cleared.book);
      var adjustment := reported - cleared.base;
      if adjustment != 0 {
        var system := cleared.book.systems[if adjustment > 0 then OtherIncome else OtherExpense];
        var entries := Reconciling.AdjustmentEntries(account, system, adjustment, currency);
        TotalOfTwo(entries[0], entries[1]);
        PostJournalGrowsPlainly(cleared.book, Transaction(Reconciliation, period, key, None, None, entries));
      }
      GrowsPlainlyTransitively(desk.book, cleared.book, applied.value.desk.book);
    }
  }

  lemma {:induction false} PrepareKeepsTheLedger(
      desk: Reconciling.Desk, auto: bool, today: Calendar.Date, now: int, request: Reconciling.Request)
    requires Sound(desk.book)
    ensures var prepared := Reconciling.PrepareReconciliation(desk, auto, today, now, request);
            prepared.Ok? ==> Sound(prepared.value.desk.book) && GrowsPlainly(desk.book, prepared.value.desk.book)
  {
    hide Sound, Reconciling.ApplyReconciliation, AccountBalanceAt, Money.Parse, Money.InRange,
      Windows.ValidateReconciliationPeriod, Calendar.DayNumber, Reconciling.FindPreview,
      Reconciling.FindReconciliation, Reconciling.ActiveReconciliationId, GrowsPlainly;
    var period := Calendar.DayNumber(request.period);
    if auto && Reconciling.PrepareReconciliation(desk, auto, today, now, request).Ok? {
      if Reconciling.FindReconciliation(desk.reconciliations, request.key).None?
        && Reconciling.FindPreview(desk.previews, request.key).None? {
        ApplyKeepsTheLedger(desk, request.account, desk.book.accounts[request.account].currency, period,
                            Money.Parse(request.reported).value,
                            AccountBalanceAt(desk.book, request.account, period).value,
                            Reconciling.ActiveReconciliationId(desk.reconciliations, request.account, period),
                            request.key);
      }
    }
    GrowsSelf(desk.book);
  }

  lemma GrowsSelf(book: Book)
    ensures GrowsPlainly(book, book)
  {
  }

  lemma {:induction false} ConfirmKeepsTheLedger(desk: Reconciling.Desk, id: nat, now: int)
    requires Sound(desk.book)
    ensures var applied := Reconciling.ConfirmReconciliation(desk, id, now);
            applied.Ok? ==> Sound(applied.value.desk.book) && GrowsPlainly(desk.book, applied.value.desk.book)
  {
    hide Sound, Reconciling.ApplyReconciliation, Reconciling.IsFresh, Reconciling.ReportedBalance, AccountBalanceAt;
    if id < |desk.previews| {
      var p := desk.previews[id];
      var read := AccountBalanceAt(desk.book, p.account, p.period);
      if read.Ok? && p.account in desk.book.accounts {
        ApplyKeepsTheLedger(desk, p.account, desk.book.accounts[p.account].currency, p.period,
                            Reconciling.ReportedBalance(p), read.value,
                            Reconciling.ActiveReconciliationId(desk.reconciliations, p.account, p.period), p.key);
      }
    }
  }

  lemma {:induction false} ValuingKeepsTheLedger(h: Valuation.Holdings, asset: nat, market: string, day: Day, key: Key)
    requires Sound(h.book) && Valuation.CreateValuation(h, asset, market, day, key).Ok?
    ensures var after := Valuation.CreateValuation(h, asset, market, day, key).value.holdings;
            Sound(after.book) && GrowsPlainly(h.book, after.book) && after.assets == h.assets
  {
    hide Sound, Valuation.RecordValuation, Valuation.Revalue, Money.Parse, Valuation.FindValuation,
      Valuation.LatestDay, GrowsPlainly;
    GrowsSelf(h.book);
    if Valuation.FindValuation(h.valuations, key).None? {
      var market' := Money.Parse(market).value;
      Valuation.RecordedValuation(h, asset, market', day, key);
      RevaluingKeepsTheLedger(h.book, h.assets[asset].account, day,
        Valuation.OwnedValue(market', h.assets[asset].share) - BalanceAt(h.book.log, h.assets[asset].account, day),
        AssetRevaluation(asset, key));
    }
  }

  lemma {:induction false} RevaluingKeepsTheLedger(book: Book, account: nat, day: Day, adjustment: int, key: Key)
    requires Sound(book) && Valuation.Revalue(book, account, day, adjustment, key).Ok?
    ensures var after := Valuation.Revalue(book, account, day, adjustment, key).value.book;
            Sound(after) && GrowsPlainly(book, after)
  {
    hide Sound, PostJournal;
    if adjustment != 0 {
      var entries := Valuation.RevaluationEntries(account, book.systems[UnrealizedGainLoss], adjustment, book.currency);
      TotalOfTwo(entries[0], entries[1]);
      PostJournalGrowsPlainly(book, Transaction(Revaluation, day, key, None, None, entries));
    }
  }

  predicate IsProfileAction(action: Action) {
    action.AddAccount? || action.EditAccount? || action.AddCategory? || action.SetCategoryArchived? || action.AddSystem?
    || action.ChangeSettings? || action.AddAsset? || action.SetAssetArchived?
  }

  lemma {:induction false} ProfileActionKeepsTheLedger(s: UserState, action: Action)
    requires Sound(s.desk.book) && IsProfileAction(action)
    ensures Kept(s.desk.book, Perform(s, action).desk.book, true)
  {
    hide Sound, Extends, Infrastructure, CreateAccount, UpdateAccount, CreateCategory, ArchiveCategory, EnsureSystem,
      ChangeCurrency, HasSnapshot, Valuation.CreateAsset, Valuation.ArchiveAsset;
    var book := s.desk.book;
    KeptSelf(book);
    match action {
      case AddAccount(id, details, balance) =>
        if CreateAccount(book, id, details, balance).Ok? { CreateAccountIsSound(book, id, details, balance); }
      case EditAccount(id, newCurrency, archiving) =>
        if UpdateAccount(book, id, newCurrency, archiving, HasSnapshot(s.desk, id)).Ok? {
          UpdateAccountIsSound(book, id, newCurrency, archiving, HasSnapshot(s.desk, id));
        }
      case AddCategory(id, account, direction) =>
        if CreateCategory(book, id, account, direction).Ok? { CreateCategoryIsSound(book, id, account, direction); }
      case SetCategoryArchived(id, archived) =>
        if ArchiveCategory(book, id, archived).Ok? { ArchiveCategoryIsSound(book, id, archived); }
      case AddSystem(code, id) =>
        if EnsureSystem(book, code, id).Ok? { EnsureSystemIsSound(book, code, id); }
      case ChangeSettings(functional) =>
        if ChangeCurrency(book, functional).Ok? { ChangeCurrencyIsSound(book, functional); }
      case AddAsset(id, newAsset) =>
        if Valuation.CreateAsset(Holdings(s), id, newAsset).Ok? {
          Valuation.CreateAssetKeepsTheLedger(Holdings(s), id, newAsset);
        }
      case SetAssetArchived(id, archived) =>
        if Valuation.ArchiveAsset(Holdings(s), id, archived).Ok? {
          Valuation.ArchiveAssetKeepsTheLedger(Holdings(s), id, archived);
        }
    }
  }

  lemma {:induction false} PostingActionKeepsTheLedger(s: UserState, action: Action)
    requires Sound(s.desk.book) && !IsProfileAction(action)
    ensures Kept(s.desk.book, Perform(s, action).desk.book, !action.Correct?)
  {
    hide Sound, Kept, PostTypedOperation, PostReversal, ReplaceTransaction, Reconciling.PrepareReconciliation,
      Reconciling.ConfirmReconciliation, Valuation.CreateValuation;
    var book, after := s.desk.book, Perform(s, action).desk.book;
    GrowsSelf(book);
    match action {
      case Post(operation) => TypedOperationIsSound(book, operation, None);
      case Reverse(original, key) => ReversalIsSound(book, original, key);
      case Correct(original, reversalKey, operation) => ReplacementIsSound(book, original, reversalKey, operation);
      case Prepare(auto, today, now, request) => PrepareKeepsTheLedger(s.desk, auto, today, now, request);
      case Confirm(preview, at) => ConfirmKeepsTheLedger(s.desk, preview, at);
      case Value(asset, market, day, key) =>
        if Valuation.CreateValuation(Holdings(s), asset, market, day, key).Ok? {
          ValuingKeepsTheLedger(Holdings(s), asset, market, day, key);
        }
      case _ =>
    }
    GrowthIsKept(book, after, !action.Correct?);
  }

  lemma {:induction false} ActionKeepsTheLedger(s: UserState, action: Action)
    requires Sound(s.desk.book)
    ensures Kept(s.desk.book, Perform(s, action).desk.book, !action.Correct?)
  {
    hide Sound, Perform, Kept;
    if IsProfileAction(action) {
      ProfileActionKeepsTheLedger(s, action);
    } else {
      PostingActionKeepsTheLedger(s, action);
    }
  }

  lemma {:induction false} RunKeepsTheLedger(s: UserState, actions: seq<Action>)
    requires Sound(s.desk.book)
    ensures Sound(PerformAll(s, actions).desk.book) && Extends(s.desk.book, PerformAll(s, actions).desk.book)
    decreases |actions|
  {
    hide Sound, Perform, Extends;
    if actions == [] {
      GrowsSelf(s.desk.book);
      GrowthExtends(s.desk.book, s.desk.book);
    } else {
      ActionKeepsTheLedger(s, actions[0]);
      RunKeepsTheLedger(Perform(s, actions[0]), actions[1..]);
      ExtendsTransitively(s.desk.book, Perform(s, actions[0]).desk.book, PerformAll(s, actions).desk.book);
    }
  }

  /**
   Over every sequence of requests with any keys, posted transactions never change and on every day the
   balances of all the user's accounts add up to zero.
   */
  lemma {:induction false} EveryRunBalances(s: UserState, actions: seq<Action>, day: Day)
    requires Sound(s.desk.book)
    ensures var after := PerformAll(s, actions).desk.book;
            && Sound(after)
            && s.desk.book.log <= after.log
            && TrialBalance(after.accounts.Keys, after.log, day) == 0
  {
    hide Sound, Perform;
    RunKeepsTheLedger(s, actions);
    var after := PerformAll(s, actions).desk.book;
    SoundLogOf(after);
    TrialBalanceIsZero(after.accounts, after.log, day);
  }

  lemma SoundLogOf(book: Book)
    requires Sound(book)
    ensures SoundLog(book.accounts, book.log)
  {
  }

  // ----- runs with fresh correction keys: what is replaced is reversed

  predicate CorrectsFreshly(s: UserState, action: Action) {
    action.Correct? ==> !HasKey(s.desk.book, action.reversalKey)
  }

  ghost predicate FreshCorrections(s: UserState, actions: seq<Action>)
    decreases |actions|
  {
    actions == [] || (CorrectsFreshly(s, actions[0]) && FreshCorrections(Perform(s, actions[0]), actions[1..]))
  }

  lemma CorrectingChangesTheBook(s: UserState, action: Action)
    requires action.Correct?
    ensures Perform(s, action).desk.book ==
            match ReplaceTransaction(s.desk.book, action.original, action.reversalKey, action.operation)
            case Ok(replaced) => replaced.book
            case Err(_) => s.desk.book
  {
    hide ReplaceTransaction;
  }

  lemma {:induction false} ActionKeepsReplaced(s: UserState, action: Action)
    requires Sound(s.desk.book) && ReplacedAreReversed(s.desk.book.log) && CorrectsFreshly(s, action)
    ensures ReplacedAreReversed(Perform(s, action).desk.book.log)
  {
    hide Sound, ReplacedAreReversed, AppendsPlainly, Extends, Infrastructure, Perform, ReplaceTransaction;
    var book := s.desk.book;
    if action.Correct? {
      CorrectingChangesTheBook(s, action);
      if ReplaceTransaction(book, action.original, action.reversalKey, action.operation).Ok? {
        ReplacementReversesExactlyWhenKeyFresh(book, action.original, action.reversalKey, action.operation);
      }
    } else {
      ActionKeepsTheLedger(s, action);
      PlainGrowthKeepsReplaced(book.log, Perform(s, action).desk.book.log);
    }
  }

  /**
   Over every sequence of requests whose corrections use fresh reversal keys, every replaced transaction is
   reversed, and none is replaced or reversed twice.
   */
  lemma {:induction false} EveryReplacedIsReversedOnce(s: UserState, actions: seq<Action>)
    requires Sound(s.desk.book) && ReplacedAreReversed(s.desk.book.log) && FreshCorrections(s, actions)
    ensures var log := PerformAll(s, actions).desk.book.log;
            && ReplacedAreReversed(log)
            && (forall i, j :: 0 <= i < j < |log| && log[i].replacementOf.Some? ==>
                log[i].replacementOf != log[j].replacementOf)
            && (forall i, j :: 0 <= i < j < |log| && log[i].reversalOf.Some? ==> log[i].reversalOf != log[j].reversalOf)
    decreases |actions|
  {
    hide ReplacedAreReversed, Perform, CorrectsFreshly, Extends, Infrastructure, AppendsPlainly;
    if actions != [] {
      ActionKeepsReplaced(s, actions[0]);
      ActionKeepsTheLedger(s, actions[0]);
      EveryReplacedIsReversedOnce(Perform(s, actions[0]), actions[1..]);
    }
  }
}
