/** Every transaction that any sequence of requests posts can be shown. */
module UserViews {
  import opened Prelude
  import opened Ledger
  import opened LedgerLaws
  import opened Accounts
  import opened UserRuns
  import opened View
  import UserStates
  import Reconciling
  import Valuation
  import Calendar
  import Money
  import Windows

  /** Every posting but a reversal is ordinary. */
  ghost predicate Showable(book: Book) {
    forall i :: 0 <= i < |book.log| && book.log[i].kind != Reversal ==> Ordinary(book.accounts, book.log[i])
  }

  lemma OrdinaryStays(before: Book, after: Book, t: Transaction)
    requires Extends(before, after) && Known(before.accounts, t.entries)
    ensures Ordinary(after.accounts, t) <==> Ordinary(before.accounts, t)
  {
    hide Money.InRange;
    if |t.entries| == 2 {
      assert t.entries[0].account in before.accounts && t.entries[1].account in before.accounts;
    }
  }

  /** Rows added and edited around the same postings. */
  lemma {:induction false} RowsKeepShowable(before: Book, after: Book)
    requires Sound(before) && Extends(before, after) && after.log == before.log && Showable(before)
    ensures Showable(after)
  {
    hide Extends, Ordinary, Total, Undoes;
    forall i | 0 <= i < |after.log| && after.log[i].kind != Reversal
      ensures Ordinary(after.accounts, after.log[i])
    {
      assert Fits(before.accounts, before.log[..i], before.log[i]);
      OrdinaryStays(before, after, before.log[i]);
    }
  }

  /** What makes a journal's posting ordinary; the range of its amounts is the table's to check. */
  ghost predicate WellFormed(accounts: map<nat, Account>, t: Transaction) {
    && |t.entries| == 2
    && var a, b := t.entries[0], t.entries[1];
    && IsUserEntry(accounts, a) && a.category == None && a.amount == -b.amount
    && (IsUserEntry(accounts, b) ==> WantsNegative(t.kind) && a.amount < 0 && b.category == None)
  }

  lemma {:induction false} PostKeepsShowable(book: Book, t: Transaction)
    requires Showable(book) && (t.kind == Reversal || WellFormed(book.accounts, t)) && PostJournal(book, t).Ok?
    ensures Showable(PostJournal(book, t).value.book)
  {
    hide FindKey, HeaderAccepted, Money.InRange, IsUserEntry, WantsNegative;
    var posted := PostJournal(book, t).value;
    if !posted.replayed && t.kind != Reversal {
      assert EntryAccepted(book.accounts, book.categories, t.kind, t.entries[0]);
      assert Ordinary(book.accounts, t);
    }
  }

  // ----- each request

  lemma {:induction false} PostingKeepsShowable(book: Book, op: Operation, replacing: Option<nat>)
    requires Infrastructure(book) && Showable(book) && PostTypedOperation(book, op, replacing).Ok?
    ensures Showable(PostTypedOperation(book, op, replacing).value.book)
  {
    hide Money.Parse, PostJournal, Showable;
    var amount := Money.Parse(op.amount).value;
    var entries := OperationEntries(book, op, amount, book.systems[OpeningEquity]).value;
    PostKeepsShowable(book, Transaction(KindOf(op.kind), op.day, op.key, None, replacing, entries));
  }

  lemma {:induction false} ReversingKeepsShowable(book: Book, original: nat, key: Key)
    requires Showable(book) && PostReversal(book, original, key).Ok?
    ensures Showable(PostReversal(book, original, key).value.book)
  {
    hide PostJournal, Showable, IsReversed;
    PostKeepsShowable(book, ReversalFor(book.log, original, key));
  }

  lemma {:induction false} OpeningKeepsShowable(book: Book, account: nat, opening: Opening)
    requires Infrastructure(book) && Showable(book) && account in book.accounts && book.accounts[account].role == User
    requires PostOpeningBalance(book, account, opening.amount, opening.day, opening.key).Ok?
    ensures Showable(PostOpeningBalance(book, account, opening.amount, opening.day, opening.key).value.book)
  {
    hide PostJournal, Showable;
    var signed := if book.accounts[account].accountClass == Liability then -opening.amount else opening.amount;
    var currency := book.accounts[account].currency;
    PostKeepsShowable(book, Transaction(OpeningBalance, opening.day, opening.key, None, None,
      [Entry(account, None, signed, currency), Entry(book.systems[OpeningEquity], None, -signed, currency)]));
  }

  lemma {:induction false} CreatingKeepsShowable(book: Book, id: nat, details: Account, opening: Option<Opening>)
    requires Sound(book) && Infrastructure(book) && Showable(book) && CreateAccount(book, id, details, opening).Ok?
    ensures Showable(CreateAccount(book, id, details, opening).value)
  {
    hide Sound, Showable, PostOpeningBalance;
    var bare := book.(accounts := book.accounts[id := details]);
    CreateAccountIsSound(book, id, details, None);
    RowsKeepShowable(book, bare);
    if opening.Some? && opening.value.amount != 0 {
      OpeningKeepsShowable(bare, id, opening.value);
    }
  }

  lemma {:induction false} AdjustingKeepsShowable(
      book: Book, account: nat, currency: nat, period: Day, adjustment: int, key: Key)
    requires Infrastructure(book) && Showable(book) && account in book.accounts && book.accounts[account].role == User
    requires Reconciling.Adjust(book, account, currency, period, adjustment, key).Ok?
    ensures Showable(Reconciling.Adjust(book, account, currency, period, adjustment, key).value.book)
  {
    hide PostJournal, Showable;
    if adjustment != 0 {
      var system := book.systems[if adjustment > 0 then OtherIncome else OtherExpense];
      PostKeepsShowable(book, Transaction(Reconciliation, period, key, None, None,
                                          Reconciling.AdjustmentEntries(account, system, adjustment, currency)));
    }
  }

  lemma {:induction false} ApplyingKeepsShowable(
      desk: Reconciling.Desk, account: nat, currency: nat, period: Day, reported: int, balance: int,
      current: Option<nat>, key: Key)
    requires Sound(desk.book) && Infrastructure(desk.book) && Showable(desk.book)
    requires account in desk.book.accounts && desk.book.accounts[account].role == User
    requires Reconciling.ApplyReconciliation(desk, account, currency, period, reported, balance, current, key).Ok?
    ensures Showable(Reconciling.ApplyReconciliation(desk, account, currency, period, reported, balance, current,
                                                     key).value.desk.book)
  {
    hide Sound, Showable, PostReversal, Reconciling.Adjust, AccountBalanceAt, Reconciling.RowAccepted;
    if Reconciling.FindReconciliation(desk.reconciliations, key).None? {
      var cleared := Reconciling.Supersede(desk.book, desk.reconciliations, account, period, balance, current,
                                           key).value;
      if current.Some? && desk.reconciliations[current.value].adjustmentId.Some? {
        var original, derived := desk.reconciliations[current.value].adjustmentId.value,
          ReconciliationReversal(current.value, key);
        ReversalIsSound(desk.book, original, derived);
        ReversingKeepsShowable(desk.book, original, derived);
      }
      assert Infrastructure(cleared.book) && account in cleared.book.accounts
        && cleared.book.accounts[account].role == User;
      AdjustingKeepsShowable(cleared.book, account, currency, period, reported - cleared.base, key);
    }
  }

  lemma LockedIsUser(book: Book, account: nat)
    requires Reconciling.LockAccount(book, account).Ok?
    ensures account in book.accounts && book.accounts[account].role == User
    ensures Reconciling.LockAccount(book, account).value == book.accounts[account]
  {
  }

  lemma {:induction false} PreparingKeepsShowable(
      desk: Reconciling.Desk, auto: bool, today: Calendar.Date, now: int, request: Reconciling.Request)
    requires Sound(desk.book) && Infrastructure(desk.book) && Showable(desk.book)
    requires Reconciling.PrepareReconciliation(desk, auto, today, now, request).Ok?
    ensures Showable(Reconciling.PrepareReconciliation(desk, auto, today, now, request).value.desk.book)
  {
    hide Sound, Infrastructure, Showable, Reconciling.ApplyReconciliation, AccountBalanceAt, Reconciling.LockAccount,
      Money.Parse, Money.InRange, Windows.ValidateReconciliationPeriod, Calendar.DayNumber,
      Reconciling.FindReconciliation, Reconciling.FindPreview, Reconciling.ActiveReconciliationId;
    var period := Calendar.DayNumber(request.period);
    var read, parsed, account := AccountBalanceAt(desk.book, request.account, period), Money.Parse(request.reported),
      Reconciling.LockAccount(desk.book, request.account);
    if auto && read.Ok? && parsed.Ok? && account.Ok?
       && Reconciling.ApplyReconciliation(desk, request.account, account.value.currency, period, parsed.value,
            read.value, Reconciling.ActiveReconciliationId(desk.reconciliations, request.account, period),
            request.key).Ok? {
      LockedIsUser(desk.book, request.account);
      ApplyingKeepsShowable(desk, request.account, account.value.currency, period, parsed.value, read.value,
                            Reconciling.ActiveReconciliationId(desk.reconciliations, request.account, period),
                            request.key);
    }
  }

  lemma {:induction false} ConfirmingKeepsShowable(desk: Reconciling.Desk, id: nat, now: int)
    requires Sound(desk.book) && Infrastructure(desk.book) && Showable(desk.book)
    requires Reconciling.ConfirmReconciliation(desk, id, now).Ok?
    ensures Showable(Reconciling.ConfirmReconciliation(desk, id, now).value.desk.book)
  {
    hide Sound, Infrastructure, Showable, Reconciling.ApplyReconciliation, AccountBalanceAt, Reconciling.LockAccount,
      Reconciling.IsFresh, Reconciling.ReportedBalance, Reconciling.ActiveReconciliationId;
    var p := desk.previews[id];
    var read, account := AccountBalanceAt(desk.book, p.account, p.period),
      Reconciling.LockAccount(desk.book, p.account);
    if read.Ok? && account.Ok?
       && Reconciling.ApplyReconciliation(desk, p.account, account.value.currency, p.period,
            Reconciling.ReportedBalance(p), read.value,
            Reconciling.ActiveReconciliationId(desk.reconciliations, p.account, p.period), p.key).Ok? {
      LockedIsUser(desk.book, p.account);
      ApplyingKeepsShowable(desk, p.account, account.value.currency, p.period, Reconciling.ReportedBalance(p),
                            read.value,
                            Reconciling.ActiveReconciliationId(desk.reconciliations, p.account, p.period), p.key);
    }
  }

  lemma {:induction false} BuyingKeepsShowable(h: Valuation.Holdings, id: nat, request: Valuation.NewAsset)
    requires Sound(h.book) && Infrastructure(h.book) && Showable(h.book) && Valuation.CreateAsset(h, id, request).Ok?
    ensures Showable(Valuation.CreateAsset(h, id, request).value.book)
  {
    hide Sound, Showable, Infrastructure, Extends, Valuation.PlaceAsset, Valuation.PostPurchase, Valuation.KeyTaken,
      Valuation.AccountTaken;
    if !Valuation.KeyTaken(h.assets, request.key) {
      Valuation.PlacedAsset(h.book, request);
      var placed := Valuation.PlaceAsset(h.book, request).value;
      RowsKeepShowable(h.book, placed.book);
      if request.purchase.Some? {
        PurchaseKeepsShowable(placed.book, id, placed.account, request.purchase.value);
      }
    }
  }

  lemma {:induction false} PurchaseKeepsShowable(book: Book, id: nat, account: nat, purchase: Valuation.Purchase)
    requires Showable(book) && account in book.accounts && book.accounts[account].role == User
    requires Valuation.PostPurchase(book, id, account, purchase).Ok?
    ensures Showable(Valuation.PostPurchase(book, id, account, purchase).value.book)
  {
    hide PostJournal, Showable, Money.Parse;
    PostKeepsShowable(book, Transaction(AssetPurchase, purchase.day, PurchaseOf(id), None, None,
      Valuation.PurchaseEntries(purchase.source, account, Money.Parse(purchase.amount).value, book.currency)));
  }

  lemma {:induction false} ValuingKeepsShowable(h: Valuation.Holdings, asset: nat, market: string, day: Day, key: Key)
    requires Infrastructure(h.book) && Valuation.AssetsSound(h.book, h.assets) && Showable(h.book)
    requires Valuation.CreateValuation(h, asset, market, day, key).Ok?
    ensures Showable(Valuation.CreateValuation(h, asset, market, day, key).value.holdings.book)
  {
    hide Infrastructure, Showable, Valuation.RecordValuation, Valuation.Revalue, Money.Parse, Valuation.FindValuation,
      Valuation.LatestDay;
    if Valuation.FindValuation(h.valuations, key).None? {
      var worth := Money.Parse(market).value;
      Valuation.RecordedValuation(h, asset, worth, day, key);
      RevaluingKeepsShowable(h.book, h.assets[asset].account, day,
        Valuation.OwnedValue(worth, h.assets[asset].share) - BalanceAt(h.book.log, h.assets[asset].account, day),
        AssetRevaluation(asset, key));
    }
  }

  lemma {:induction false} RevaluingKeepsShowable(book: Book, account: nat, day: Day, adjustment: int, key: Key)
    requires Infrastructure(book) && Showable(book) && account in book.accounts && book.accounts[account].role == User
    requires Valuation.Revalue(book, account, day, adjustment, key).Ok?
    ensures Showable(Valuation.Revalue(book, account, day, adjustment, key).value.book)
  {
    hide PostJournal, Showable;
    if adjustment != 0 {
      PostKeepsShowable(book, Transaction(Revaluation, day, key, None, None,
        Valuation.RevaluationEntries(account, book.systems[UnrealizedGainLoss], adjustment, book.currency)));
    }
  }

  lemma {:induction false} OtherProfilesKeepTheLog(s: UserState, action: Action)
    requires IsProfileAction(action) && !action.AddAccount? && !action.AddAsset?
    ensures Perform(s, action).desk.book.log == s.desk.book.log
  {
    hide HasPostings, HasSnapshot;
  }

  lemma {:induction false} ActionKeepsShowable(s: UserState, action: Action)
    requires Valuation.HoldingsSound(Holdings(s)) && Showable(s.desk.book)
    ensures Showable(Perform(s, action).desk.book)
  {
    hide Sound, Showable, Infrastructure, Extends, AppendsPlainly, Valuation.AssetsSound, Valuation.ValuationsSound,
      CreateAccount, UpdateAccount, CreateCategory, ArchiveCategory, EnsureSystem, HasSnapshot, PostTypedOperation,
      PostReversal, ReplaceTransaction, Reconciling.PrepareReconciliation, Reconciling.ConfirmReconciliation,
      Valuation.CreateAsset, Valuation.ArchiveAsset, Valuation.CreateValuation;
    var book := s.desk.book;
    match action {
      case AddAccount(id, details, balance) =>
        if CreateAccount(book, id, details, balance).Ok? {
          CreatingKeepsShowable(book, id, details, balance);
        }
      case Post(operation) =>
        if PostTypedOperation(book, operation, None).Ok? {
          PostingKeepsShowable(book, operation, None);
        }
      case Reverse(original, key) =>
        if PostReversal(book, original, key).Ok? {
          ReversingKeepsShowable(book, original, key);
        }
      case Correct(original, reversalKey, operation) => CorrectingKeepsShowable(book, original, reversalKey, operation);
      case Prepare(auto, today, now, request) =>
        if Reconciling.PrepareReconciliation(s.desk, auto, today, now, request).Ok? {
          PreparingKeepsShowable(s.desk, auto, today, now, request);
        }
      case Confirm(preview, at) =>
        if Reconciling.ConfirmReconciliation(s.desk, preview, at).Ok? {
          ConfirmingKeepsShowable(s.desk, preview, at);
        }
      case AddAsset(id, newAsset) =>
        if Valuation.CreateAsset(Holdings(s), id, newAsset).Ok? {
          BuyingKeepsShowable(Holdings(s), id, newAsset);
        }
      case Value(asset, market, day, key) =>
        if Valuation.CreateValuation(Holdings(s), asset, market, day, key).Ok? {
          ValuingKeepsShowable(Holdings(s), asset, market, day, key);
        }
      case Cleanup(_) =>
      case _ =>
        OtherProfilesKeepTheLog(s, action);
        ActionKeepsTheLedger(s, action);
        RowsKeepShowable(book, Perform(s, action).desk.book);
    }
  }

  lemma {:induction false} CorrectingKeepsShowable(book: Book, original: nat, reversalKey: Key, op: Operation)
    requires Sound(book) && Infrastructure(book) && Showable(book)
    ensures var replaced := ReplaceTransaction(book, original, reversalKey, op);
            replaced.Ok? ==> Showable(replaced.value.book)
  {
    hide Sound, Showable, PostTypedOperation, PostReversal;
    if ReplaceTransaction(book, original, reversalKey, op).Ok? {
      ReversalIsSound(book, original, reversalKey);
      ReversingKeepsShowable(book, original, reversalKey);
      PostingKeepsShowable(PostReversal(book, original, reversalKey).value.book, op, Some(original));
    }
  }

  lemma {:induction false} RunKeepsShowable(s: UserState, actions: seq<Action>)
    requires Valuation.HoldingsSound(Holdings(s)) && Showable(s.desk.book)
    ensures Showable(PerformAll(s, actions).desk.book)
    decreases |actions|
  {
    hide Valuation.HoldingsSound, Showable, Perform;
    if actions != [] {
      ActionKeepsShowable(s, actions[0]);
      UserStates.EveryRunKeepsHoldings(s, [actions[0]]);
      assert PerformAll(s, [actions[0]]) == Perform(s, actions[0]) by {
        assert [actions[0]][1..] == [];
      }
      RunKeepsShowable(Perform(s, actions[0]), actions[1..]);
    }
  }

  /**
   From a new user on, after any requests with any keys, every transaction has a view whatever order its entries are
   read in, so a page of transactions never fails as a whole; and a reversal's view is its original's but for type and
   status.
   */
  lemma {:induction false} EveryTransactionHasAView(
      currency: nat, actions: seq<Action>, id: nat, rows: seq<Entry>, originalRows: seq<Entry>)
    requires var book := PerformAll(NewUser(currency), actions).desk.book;
             && id < |book.log| && ReadOrder(book.accounts, book.log[id].entries, rows)
             && (book.log[id].reversalOf.Some? && book.log[id].reversalOf.value < |book.log| ==>
                   ReadOrder(book.accounts, book.log[book.log[id].reversalOf.value].entries, originalRows))
    ensures var book := PerformAll(NewUser(currency), actions).desk.book;
            && Show(book, id, rows).Ok?
            && (book.log[id].reversalOf.Some? ==>
                  match (Show(book, id, rows), Show(book, book.log[id].reversalOf.value, originalRows))
                  case (Ok(view), Ok(original)) => view == original.(kind := Reversal, status := ReversalStatus)
                  case _ => false)
  {
    hide PerformAll, Show, ReadOrder, Ordinary, Infrastructure, Valuation.AssetsSound, Valuation.ValuationsSound;
    var start := NewUser(currency);
    NewUserIsShowable(currency);
    UserStates.EveryRunKeepsHoldings(start, actions);
    RunKeepsShowable(start, actions);
    var book := PerformAll(start, actions).desk.book;
    if book.log[id].reversalOf.Some? {
      ReversalMirrors(book, id);
      ReversalShowsOriginal(book, id, rows, originalRows);
    } else {
      PlainKind(book, id);
      OrdinaryShows(book, id, rows);
    }
  }

  lemma NewUserIsShowable(currency: nat)
    ensures Valuation.HoldingsSound(Holdings(NewUser(currency))) && Showable(NewUser(currency).desk.book)
  {
  }

  lemma PlainKind(book: Book, id: nat)
    requires Sound(book) && id < |book.log| && book.log[id].reversalOf.None?
    ensures book.log[id].kind != Reversal
  {
    hide Total;
    assert Fits(book.accounts, book.log[..id], book.log[id]);
  }
}
