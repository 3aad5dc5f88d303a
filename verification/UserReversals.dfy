/** Over every run of requests, with any keys: exactly which transactions can be reversed and corrected. */
module UserReversals {
  import opened Prelude
  import opened Ledger
  import opened LedgerLaws
  import opened LedgerAcceptance
  import opened Accounts
  import opened UserRuns
  import Calendar
  import Money
  import Reconciling
  import UserStates
  import Valuation
  import Windows

  /** System and category accounts stay in use: no request archives them. */
  ghost predicate InfrastructureActive(book: Book) {
    forall a :: a in book.accounts && book.accounts[a].role != User ==> !book.accounts[a].archived
  }

  /** What every run keeps. */
  ghost predicate Undoable(book: Book) {
    EntriesHold(book) && InfrastructureActive(book)
  }

  // ----- rows

  /** Rows are added and edited, but an account with postings keeps its currency. */
  ghost predicate KeepsPosted(before: Book, after: Book) {
    && before.accounts.Keys <= after.accounts.Keys
    && (forall a :: a in before.accounts && HasPostings(before, a) ==>
          after.accounts[a].currency == before.accounts[a].currency)
    && before.categories.Keys <= after.categories.Keys
    && (forall c :: c in before.categories ==> after.categories[c].account == before.categories[c].account)
  }

  lemma {:induction false} RowsKeepHolding(before: Book, after: Book)
    requires EntriesHold(before) && after.log == before.log && KeepsPosted(before, after)
    ensures EntriesHold(after)
  {
    hide Money.InRange;
    forall i | 0 <= i < |after.log|
      ensures AllHold(after.accounts, after.categories, after.log[i].entries)
    {
      var entries := before.log[i].entries;
      assert AllHold(before.accounts, before.categories, entries);
      forall j | 0 <= j < |entries|
        ensures EntryHolds(after.accounts, after.categories, entries[j])
      {
        assert EntryHolds(before.accounts, before.categories, entries[j]);
        assert HasPostings(before, entries[j].account);
      }
    }
  }

  lemma {:induction false} PostKeepsUndoable(book: Book, t: Transaction)
    requires Undoable(book) && PostJournal(book, t).Ok?
    ensures Undoable(PostJournal(book, t).value.book)
  {
    hide EntriesHold, FindKey, HeaderAccepted, EntriesAccepted;
    PostKeepsHolding(book, t);
  }

  // ----- each request

  lemma {:induction false} OpeningKeepsUndoable(book: Book, account: nat, opening: Opening)
    requires Undoable(book) && PostOpeningBalance(book, account, opening.amount, opening.day, opening.key).Ok?
    ensures Undoable(PostOpeningBalance(book, account, opening.amount, opening.day, opening.key).value.book)
  {
    hide Undoable, PostJournal;
    var signed := if book.accounts[account].accountClass == Liability then -opening.amount else opening.amount;
    var currency := book.accounts[account].currency;
    PostKeepsUndoable(book, Transaction(OpeningBalance, opening.day, opening.key, None, None,
      [Entry(account, None, signed, currency), Entry(book.systems[OpeningEquity], None, -signed, currency)]));
  }

  lemma {:induction false} CreatingKeepsUndoable(book: Book, id: nat, details: Account, opening: Option<Opening>)
    requires Undoable(book) && CreateAccount(book, id, details, opening).Ok?
    ensures Undoable(CreateAccount(book, id, details, opening).value)
  {
    hide EntriesHold, PostOpeningBalance;
    var bare := book.(accounts := book.accounts[id := details]);
    RowsKeepHolding(book, bare);
    if opening.Some? && opening.value.amount != 0 {
      OpeningKeepsUndoable(bare, id, opening.value);
    }
  }

  lemma {:induction false} PostingKeepsUndoable(book: Book, op: Operation, replacing: Option<nat>)
    requires Undoable(book) && PostTypedOperation(book, op, replacing).Ok?
    ensures Undoable(PostTypedOperation(book, op, replacing).value.book)
  {
    hide Money.Parse, PostJournal, Undoable, OperationEntries;
    var entries := OperationEntries(book, op, Money.Parse(op.amount).value, book.systems[OpeningEquity]).value;
    PostKeepsUndoable(book, Transaction(KindOf(op.kind), op.day, op.key, None, replacing, entries));
  }

  lemma {:induction false} ReversingKeepsUndoable(book: Book, original: nat, key: Key)
    requires Undoable(book) && PostReversal(book, original, key).Ok?
    ensures Undoable(PostReversal(book, original, key).value.book)
  {
    hide PostJournal, Undoable, IsReversed;
    PostKeepsUndoable(book, ReversalFor(book.log, original, key));
  }

  lemma {:induction false} CorrectingKeepsUndoable(book: Book, original: nat, reversalKey: Key, op: Operation)
    requires Undoable(book) && ReplaceTransaction(book, original, reversalKey, op).Ok?
    ensures Undoable(ReplaceTransaction(book, original, reversalKey, op).value.book)
  {
    hide Undoable, PostTypedOperation, PostReversal;
    ReversingKeepsUndoable(book, original, reversalKey);
    PostingKeepsUndoable(PostReversal(book, original, reversalKey).value.book, op, Some(original));
  }

  lemma {:induction false} AdjustingKeepsUndoable(
      book: Book, account: nat, currency: nat, period: Day, adjustment: int, key: Key)
    requires Undoable(book) && Reconciling.Adjust(book, account, currency, period, adjustment, key).Ok?
    ensures Undoable(Reconciling.Adjust(book, account, currency, period, adjustment, key).value.book)
  {
    hide PostJournal, Undoable;
    if adjustment != 0 {
      var system := book.systems[if adjustment > 0 then OtherIncome else OtherExpense];
      PostKeepsUndoable(book, Transaction(Reconciliation, period, key, None, None,
                                          Reconciling.AdjustmentEntries(account, system, adjustment, currency)));
    }
  }

  lemma {:induction false} ApplyingKeepsUndoable(
      desk: Reconciling.Desk, account: nat, currency: nat, period: Day, reported: int, balance: int,
      current: Option<nat>, key: Key)
    requires Undoable(desk.book)
    ensures var applied := Reconciling.ApplyReconciliation(desk, account, currency, period, reported, balance, current,
                                                           key);
            applied.Ok? ==> Undoable(applied.value.desk.book)
  {
    hide Undoable, PostReversal, Reconciling.Adjust, AccountBalanceAt, Reconciling.RowAccepted;
    var applied := Reconciling.ApplyReconciliation(desk, account, currency, period, reported, balance, current, key);
    if applied.Ok? && Reconciling.FindReconciliation(desk.reconciliations, key).None? {
      var cleared := Reconciling.Supersede(desk.book, desk.reconciliations, account, period, balance, current,
                                           key).value;
      if current.Some? && desk.reconciliations[current.value].adjustmentId.Some? {
        ReversingKeepsUndoable(desk.book, desk.reconciliations[current.value].adjustmentId.value,
                               ReconciliationReversal(current.value, key));
      }
      AdjustingKeepsUndoable(cleared.book, account, currency, period, reported - cleared.base, key);
    }
  }

  lemma {:induction false} PreparingKeepsUndoable(
      desk: Reconciling.Desk, auto: bool, today: Calendar.Date, now: int, request: Reconciling.Request)
    requires Undoable(desk.book) && Reconciling.PrepareReconciliation(desk, auto, today, now, request).Ok?
    ensures Undoable(Reconciling.PrepareReconciliation(desk, auto, today, now, request).value.desk.book)
  {
    hide Undoable, Reconciling.ApplyReconciliation, AccountBalanceAt, Reconciling.LockAccount, Money.Parse,
      Money.InRange, Windows.ValidateReconciliationPeriod, Calendar.DayNumber, Reconciling.FindReconciliation,
      Reconciling.FindPreview, Reconciling.ActiveReconciliationId;
    var period := Calendar.DayNumber(request.period);
    var read, parsed, account := AccountBalanceAt(desk.book, request.account, period), Money.Parse(request.reported),
      Reconciling.LockAccount(desk.book, request.account);
    if auto && read.Ok? && parsed.Ok? && account.Ok? {
      ApplyingKeepsUndoable(desk, request.account, account.value.currency, period, parsed.value, read.value,
                            Reconciling.ActiveReconciliationId(desk.reconciliations, request.account, period),
                            request.key);
    }
  }

  lemma {:induction false} ConfirmingKeepsUndoable(desk: Reconciling.Desk, id: nat, now: int)
    requires Undoable(desk.book) && Reconciling.ConfirmReconciliation(desk, id, now).Ok?
    ensures Undoable(Reconciling.ConfirmReconciliation(desk, id, now).value.desk.book)
  {
    hide Undoable, Reconciling.ApplyReconciliation, AccountBalanceAt, Reconciling.LockAccount, Reconciling.IsFresh,
      Reconciling.ReportedBalance, Reconciling.ActiveReconciliationId;
    var p := desk.previews[id];
    var read, account := AccountBalanceAt(desk.book, p.account, p.period),
      Reconciling.LockAccount(desk.book, p.account);
    if read.Ok? && account.Ok? {
      ApplyingKeepsUndoable(desk, p.account, account.value.currency, p.period, Reconciling.ReportedBalance(p),
                            read.value, Reconciling.ActiveReconciliationId(desk.reconciliations, p.account, p.period),
                            p.key);
    }
  }

  lemma {:induction false} PlacingKeepsUndoable(book: Book, request: Valuation.NewAsset)
    requires Undoable(book) && Valuation.PlaceAsset(book, request).Ok?
    ensures Undoable(Valuation.PlaceAsset(book, request).value.book)
  {
    hide EntriesHold;
    RowsKeepHolding(book, Valuation.PlaceAsset(book, request).value.book);
  }

  lemma {:induction false} PurchaseKeepsUndoable(book: Book, id: nat, account: nat, purchase: Valuation.Purchase)
    requires Undoable(book) && Valuation.PostPurchase(book, id, account, purchase).Ok?
    ensures Undoable(Valuation.PostPurchase(book, id, account, purchase).value.book)
  {
    hide PostJournal, Undoable, Money.Parse;
    PostKeepsUndoable(book, Transaction(AssetPurchase, purchase.day, PurchaseOf(id), None, None,
      Valuation.PurchaseEntries(purchase.source, account, Money.Parse(purchase.amount).value, book.currency)));
  }

  lemma {:induction false} BuyingKeepsUndoable(h: Valuation.Holdings, id: nat, request: Valuation.NewAsset)
    requires Undoable(h.book) && Valuation.CreateAsset(h, id, request).Ok?
    ensures Undoable(Valuation.CreateAsset(h, id, request).value.book)
  {
    hide Undoable, Valuation.PlaceAsset, Valuation.PostPurchase, Valuation.KeyTaken, Valuation.AccountTaken;
    if !Valuation.KeyTaken(h.assets, request.key) {
      PlacingKeepsUndoable(h.book, request);
      var placed := Valuation.PlaceAsset(h.book, request).value;
      if request.purchase.Some? {
        PurchaseKeepsUndoable(placed.book, id, placed.account, request.purchase.value);
      }
    }
  }

  lemma {:induction false} RevaluingKeepsUndoable(book: Book, account: nat, day: Day, adjustment: int, key: Key)
    requires Undoable(book) && Valuation.Revalue(book, account, day, adjustment, key).Ok?
    ensures Undoable(Valuation.Revalue(book, account, day, adjustment, key).value.book)
  {
    hide PostJournal, Undoable;
    if adjustment != 0 {
      PostKeepsUndoable(book, Transaction(Revaluation, day, key, None, None,
        Valuation.RevaluationEntries(account, book.systems[UnrealizedGainLoss], adjustment, book.currency)));
    }
  }

  lemma {:induction false} ValuingKeepsUndoable(h: Valuation.Holdings, asset: nat, market: string, day: Day, key: Key)
    requires Undoable(h.book) && Valuation.CreateValuation(h, asset, market, day, key).Ok?
    ensures Undoable(Valuation.CreateValuation(h, asset, market, day, key).value.holdings.book)
  {
    hide Undoable, Valuation.RecordValuation, Valuation.Revalue, Money.Parse, Valuation.FindValuation,
      Valuation.LatestDay;
    if Valuation.FindValuation(h.valuations, key).None? {
      var worth := Money.Parse(market).value;
      Valuation.RecordedValuation(h, asset, worth, day, key);
      RevaluingKeepsUndoable(h.book, h.assets[asset].account, day,
        Valuation.OwnedValue(worth, h.assets[asset].share) - BalanceAt(h.book.log, h.assets[asset].account, day),
        AssetRevaluation(asset, key));
    }
  }

  /** Rows edited around the same postings, only user accounts archived. */
  ghost predicate RowsEdited(before: Book, after: Book) {
    after.log == before.log && KeepsPosted(before, after)
    && (InfrastructureActive(before) ==> InfrastructureActive(after))
  }

  lemma {:induction false} AccountEdited(
      book: Book, id: nat, currency: Option<nat>, archived: Option<bool>, hasSnapshot: bool)
    requires UpdateAccount(book, id, currency, archived, hasSnapshot).Ok?
    ensures RowsEdited(book, UpdateAccount(book, id, currency, archived, hasSnapshot).value)
  {
    hide HasPostings;
  }

  lemma {:induction false} AssetEdited(h: Valuation.Holdings, id: nat, archived: bool)
    requires Valuation.AssetsSound(h.book, h.assets) && Valuation.ArchiveAsset(h, id, archived).Ok?
    ensures RowsEdited(h.book, Valuation.ArchiveAsset(h, id, archived).value.book)
  {
    hide HasPostings;
  }

  lemma RowsEditedSelf(book: Book)
    ensures RowsEdited(book, book)
  {
    hide HasPostings;
  }

  /** Editing rows: no account with postings changes its currency, and only user accounts are archived. */
  lemma {:induction false} RowEditKeepsUndoable(s: UserState, action: Action)
    requires Undoable(s.desk.book) && Valuation.AssetsSound(s.desk.book, s.assets)
    requires IsProfileAction(action) && !action.AddAccount? && !action.AddAsset?
    ensures Undoable(Perform(s, action).desk.book)
  {
    hide EntriesHold, HasSnapshot, HasPostings, Valuation.AssetsSound, UpdateAccount, Valuation.ArchiveAsset;
    var book, after := s.desk.book, Perform(s, action).desk.book;
    RowsEditedSelf(book);
    match action {
      case EditAccount(id, newCurrency, archiving) =>
        if UpdateAccount(book, id, newCurrency, archiving, HasSnapshot(s.desk, id)).Ok? {
          AccountEdited(book, id, newCurrency, archiving, HasSnapshot(s.desk, id));
        }
      case SetAssetArchived(id, archived) =>
        if Valuation.ArchiveAsset(Holdings(s), id, archived).Ok? {
          AssetEdited(Holdings(s), id, archived);
        }
      case _ =>
    }
    assert RowsEdited(book, after);
    RowsKeepHolding(book, after);
  }

  lemma {:induction false} ActionKeepsUndoable(s: UserState, action: Action)
    requires Undoable(s.desk.book) && Valuation.AssetsSound(s.desk.book, s.assets)
    ensures Undoable(Perform(s, action).desk.book)
  {
    hide Undoable, CreateAccount, UpdateAccount, CreateCategory, ArchiveCategory, EnsureSystem, HasSnapshot,
      PostTypedOperation, PostReversal, ReplaceTransaction, Reconciling.PrepareReconciliation,
      Reconciling.ConfirmReconciliation, Valuation.CreateAsset, Valuation.ArchiveAsset, Valuation.CreateValuation,
      Valuation.AssetsSound;
    var book := s.desk.book;
    match action {
      case AddAccount(id, details, balance) =>
        if CreateAccount(book, id, details, balance).Ok? {
          CreatingKeepsUndoable(book, id, details, balance);
        }
      case Post(operation) =>
        if PostTypedOperation(book, operation, None).Ok? {
          PostingKeepsUndoable(book, operation, None);
        }
      case Reverse(original, key) =>
        if PostReversal(book, original, key).Ok? {
          ReversingKeepsUndoable(book, original, key);
        }
      case Correct(original, reversalKey, operation) =>
        if ReplaceTransaction(book, original, reversalKey, operation).Ok? {
          CorrectingKeepsUndoable(book, original, reversalKey, operation);
        }
      case Prepare(auto, today, now, request) =>
        if Reconciling.PrepareReconciliation(s.desk, auto, today, now, request).Ok? {
          PreparingKeepsUndoable(s.desk, auto, today, now, request);
        }
      case Confirm(preview, at) =>
        if Reconciling.ConfirmReconciliation(s.desk, preview, at).Ok? {
          ConfirmingKeepsUndoable(s.desk, preview, at);
        }
      case AddAsset(id, newAsset) =>
        if Valuation.CreateAsset(Holdings(s), id, newAsset).Ok? {
          BuyingKeepsUndoable(Holdings(s), id, newAsset);
        }
      case Value(asset, market, day, key) =>
        if Valuation.CreateValuation(Holdings(s), asset, market, day, key).Ok? {
          ValuingKeepsUndoable(Holdings(s), asset, market, day, key);
        }
      case Cleanup(_) =>
      case _ => RowEditKeepsUndoable(s, action);
    }
  }

  lemma {:induction false} RunKeepsUndoable(s: UserState, actions: seq<Action>)
    requires Valuation.HoldingsSound(Holdings(s)) && Undoable(s.desk.book)
    ensures Undoable(PerformAll(s, actions).desk.book)
    decreases |actions|
  {
    hide Sound, Infrastructure, Valuation.AssetsSound, Valuation.ValuationsSound, Undoable, Perform;
    if actions != [] {
      ActionKeepsUndoable(s, actions[0]);
      UserStates.EveryRunKeepsHoldings(s, [actions[0]]);
      assert PerformAll(s, [actions[0]]) == Perform(s, actions[0]) by {
        assert [actions[0]][1..] == [];
      }
      RunKeepsUndoable(Perform(s, actions[0]), actions[1..]);
    }
  }

  /** What a new user's run of requests, with any keys, has made of the ledger. */
  ghost function BookAfter(currency: nat, actions: seq<Action>): Book {
    PerformAll(NewUser(currency), actions).desk.book
  }

  lemma {:induction false} EveryBookIsUndoable(currency: nat, actions: seq<Action>)
    ensures Sound(BookAfter(currency, actions)) && Infrastructure(BookAfter(currency, actions))
    ensures Undoable(BookAfter(currency, actions))
  {
    hide PerformAll, Valuation.AssetsSound, Valuation.ValuationsSound, Sound, Infrastructure;
    UserStates.NewUserIsSound(currency);
    UserStates.EveryRunKeepsHoldings(NewUser(currency), actions);
    RunKeepsUndoable(NewUser(currency), actions);
  }

  /**
   From a new user on, after any requests with any keys: exactly the posted transactions that are no reversals and not
   reversed yet can be reversed, with any key, also after their accounts and categories were archived.
   */
  lemma {:induction false} EveryTransactionCanBeReversed(currency: nat, actions: seq<Action>, original: nat, key: Key)
    ensures var book := BookAfter(currency, actions);
            PostReversal(book, original, key).Ok? <==>
              original < |book.log| && book.log[original].kind != Reversal && !IsReversed(book.log, original)
  {
    hide BookAfter, Sound, EntriesHold, InfrastructureActive, PostReversal;
    EveryBookIsUndoable(currency, actions);
    ReversedExactlyWhen(BookAfter(currency, actions), original, key);
  }

  /** Both account rows of an operation are in the functional currency. */
  ghost predicate BothInCurrency(book: Book, op: Operation) {
    var giver, receiver := Giver(book, op), Receiver(book, op);
    && giver.Some? && giver.value in book.accounts && book.accounts[giver.value].currency == book.currency
    && receiver.Some? && receiver.value in book.accounts && book.accounts[receiver.value].currency == book.currency
  }

  lemma {:induction false} OnlyCurrenciesRemain(book: Book, op: Operation)
    requires Usable(book, op) && Infrastructure(book) && InfrastructureActive(book) && OpeningEquity in book.systems
    ensures TakesEntries(book, Giver(book, op)) && TakesEntries(book, Receiver(book, op)) <==> BothInCurrency(book, op)
  {
  }

  /** After any requests: exactly which operations are accepted. */
  lemma {:induction false} EveryOperationIsAcceptedExactlyWhen(currency: nat, actions: seq<Action>, op: Operation)
    ensures var book := BookAfter(currency, actions);
            PostTypedOperation(book, op, None).Ok? <==>
              && Money.Parse(op.amount).Ok? && Money.Parse(op.amount).value > 0 && OpeningEquity in book.systems
              && Usable(book, op) && (HasKey(book, op.key) || BothInCurrency(book, op))
  {
    hide BookAfter, Sound, EntriesHold, Money.Parse, PostTypedOperation, Usable, FindKey, BothInCurrency,
      TakesEntries, Infrastructure, InfrastructureActive, Giver, Receiver;
    var book := BookAfter(currency, actions);
    EveryBookIsUndoable(currency, actions);
    PostedExactlyWhen(book, op, None);
    if Usable(book, op) && OpeningEquity in book.systems {
      OnlyCurrenciesRemain(book, op);
    }
  }

  /**
   After any requests: exactly which corrections are accepted: of a transaction that can be reversed, by an operation
   that is usable and whose key replays or whose accounts are in the functional currency, and not for the second time.
   */
  lemma {:induction false} EveryCorrectionIsAcceptedExactlyWhen(
      currency: nat, actions: seq<Action>, original: nat, reversalKey: Key, op: Operation)
    ensures var book := BookAfter(currency, actions);
            ReplaceTransaction(book, original, reversalKey, op).Ok? <==>
              && original < |book.log| && book.log[original].kind != Reversal && !IsReversed(book.log, original)
              && Money.Parse(op.amount).Ok? && Money.Parse(op.amount).value > 0 && OpeningEquity in book.systems
              && Usable(book, op)
              && (|| HasKey(book, op.key) || op.key == reversalKey
                  || (BothInCurrency(book, op) && !IsReplaced(book.log, original)))
  {
    hide BookAfter, Sound, EntriesHold, Money.Parse, ReplaceTransaction, Usable, FindKey, BothInCurrency,
      TakesEntries, Infrastructure, InfrastructureActive, IsReversed, IsReplaced, Giver, Receiver;
    var book := BookAfter(currency, actions);
    EveryBookIsUndoable(currency, actions);
    ReplacedExactlyWhen(book, original, reversalKey, op);
    if Usable(book, op) && OpeningEquity in book.systems {
      OnlyCurrenciesRemain(book, op);
    }
  }
}
