/** Whole runs with fresh reconciliation keys: every invariant of the desk and of the assets, from a new user on. */
module UserStates {
  import opened Ledger
  import opened LedgerLaws
  import opened Accounts
  import opened UserRuns
  import Reconciling
  import ReconcilingLaws
  import Valuation
  import Calendar
  import Money

  ghost predicate StateSound(s: UserState) {
    ReconcilingLaws.DeskSound(s.desk) && Valuation.HoldingsSound(Holdings(s))
  }

  /** Every history starts sound. */
  lemma NewUserIsSound(currency: nat)
    ensures StateSound(NewUser(currency)) && ReplacedAreReversed(NewUser(currency).desk.book.log)
  {
  }

  /**
   The only assumption on keys: when a reconciliation is about to be recorded, its key and the reversal key
   derived from it have not been posted with. Every other request may use any key.
   */
  predicate FreshlyKeyed(s: UserState, action: Action) {
    match action
    case Prepare(auto, _, _, request) =>
      auto && Reconciling.FindReconciliation(s.desk.reconciliations, request.key).None? ==>
        ReconcilingLaws.FreshKeys(s.desk.book,
          Reconciling.ActiveReconciliationId(s.desk.reconciliations, request.account,
                                             Calendar.DayNumber(request.period)), request.key)
    case Confirm(preview, _) =>
      preview < |s.desk.previews|
      && Reconciling.FindReconciliation(s.desk.reconciliations, s.desk.previews[preview].key).None? ==>
        ReconcilingLaws.FreshKeys(s.desk.book, s.desk.previews[preview].current, s.desk.previews[preview].key)
    case _ => true
  }

  ghost predicate FreshRun(s: UserState, actions: seq<Action>)
    decreases |actions|
  {
    actions == [] || (FreshlyKeyed(s, actions[0]) && FreshRun(Perform(s, actions[0]), actions[1..]))
  }

  /** Rows and postings added beside the desk and the valuations. */
  lemma {:induction false} KeptBookKeepsState(s: UserState, book: Book)
    requires StateSound(s) && Sound(book) && Extends(s.desk.book, book) && Infrastructure(book)
    ensures StateSound(WithBook(s, book))
  {
    hide Sound, Infrastructure, ReconcilingLaws.PreviewsSound, ReconcilingLaws.RowLinked, Valuation.ValuationsSound;
    forall i | 0 <= i < |s.desk.reconciliations|
      ensures ReconcilingLaws.RowLinked(book.log, s.desk.reconciliations[i])
    {
      assert ReconcilingLaws.RowLinked(s.desk.book.log, s.desk.reconciliations[i]);
      LinkedInLonger(s.desk.book.log, book.log, s.desk.reconciliations[i]);
    }
  }

  lemma {:induction false} LinkedInLonger(log: seq<Transaction>, longer: seq<Transaction>, row: Reconciling.Reconciled)
    requires log <= longer && ReconcilingLaws.RowLinked(log, row)
    ensures ReconcilingLaws.RowLinked(longer, row)
  {
    hide IsReversed;
    if row.adjustmentId.Some? {
      assert longer[row.adjustmentId.value] == log[row.adjustmentId.value];
      if row.superseded {
        assert longer == log + longer[|log|..];
        IsReversedGrows(log, longer[|log|..], row.adjustmentId.value);
      }
    }
  }

  lemma {:induction false} HoldingsFollow(s: UserState, desk: Reconciling.Desk)
    requires StateSound(s) && Sound(desk.book) && Extends(s.desk.book, desk.book) && Infrastructure(desk.book)
    ensures Valuation.HoldingsSound(Valuation.Holdings(desk.book, s.assets, s.valuations))
  {
    hide Sound, Infrastructure, ReconcilingLaws.DeskSound, Valuation.ValuationsSound;
  }

  lemma {:induction false} PrepareKeepsDesk(
      desk: Reconciling.Desk, auto: bool, today: Calendar.Date, now: int, request: Reconciling.Request)
    requires ReconcilingLaws.DeskSound(desk)
    requires auto && Reconciling.FindReconciliation(desk.reconciliations, request.key).None? ==>
               ReconcilingLaws.FreshKeys(desk.book,
                 Reconciling.ActiveReconciliationId(desk.reconciliations, request.account,
                                                    Calendar.DayNumber(request.period)), request.key)
    ensures var prepared := Reconciling.PrepareReconciliation(desk, auto, today, now, request);
            prepared.Ok? ==> ReconcilingLaws.DeskSound(prepared.value.desk)
  {
    hide ReconcilingLaws.DeskSound, Reconciling.ApplyReconciliation, AccountBalanceAt, Money.Parse, Money.InRange;
    var prepared := Reconciling.PrepareReconciliation(desk, auto, today, now, request);
    if prepared.Ok? {
      if !auto {
        ReconcilingLaws.PreviewIsSound(desk, today, now, request);
      } else if Reconciling.FindReconciliation(desk.reconciliations, request.key).None?
                && Reconciling.FindPreview(desk.previews, request.key).None? {
        ReconcilingLaws.AutoKeepsTheDesk(desk, today, now, request);
      }
    }
  }

  lemma {:induction false} ConfirmKeepsDesk(desk: Reconciling.Desk, id: nat, now: int)
    requires ReconcilingLaws.DeskSound(desk)
    requires id < |desk.previews| && Reconciling.FindReconciliation(desk.reconciliations,
                                                                    desk.previews[id].key).None? ==>
               ReconcilingLaws.FreshKeys(desk.book, desk.previews[id].current, desk.previews[id].key)
    ensures var applied := Reconciling.ConfirmReconciliation(desk, id, now);
            applied.Ok? ==> ReconcilingLaws.DeskSound(applied.value.desk)
  {
    hide ReconcilingLaws.DeskSound, Reconciling.ApplyReconciliation, AccountBalanceAt, Reconciling.IsFresh,
      Reconciling.ReportedBalance;
    var applied := Reconciling.ConfirmReconciliation(desk, id, now);
    if applied.Ok? && desk.previews[id].confirmed.None? {
      if Reconciling.FindReconciliation(desk.reconciliations, desk.previews[id].key).None? {
        ReconcilingLaws.ConfirmRecordsThePreview(desk, id, now);
      } else {
        ReconcilingLaws.ConfirmOfAppliedKey(desk, id, now);
      }
    }
  }

  lemma SoundParts(s: UserState)
    requires StateSound(s)
    ensures Sound(s.desk.book) && Infrastructure(s.desk.book)
    ensures ReconcilingLaws.DeskSound(s.desk) && Valuation.HoldingsSound(Holdings(s))
  {
  }

  lemma SoundHoldings(s: UserState, h: Valuation.Holdings)
    requires StateSound(s.(desk := s.desk.(book := h.book))) && Valuation.HoldingsSound(h)
    ensures StateSound(WithHoldings(s, h))
  {
    hide Valuation.HoldingsSound, Sound, Infrastructure;
  }

  lemma {:induction false} HoldingsActionKeepsHoldings(s: UserState, action: Action)
    requires Valuation.HoldingsSound(Holdings(s)) && (action.AddAsset? || action.SetAssetArchived? || action.Value?)
    ensures Valuation.HoldingsSound(Holdings(Perform(s, action)))
  {
    hide Valuation.HoldingsSound, Valuation.CreateAsset, Valuation.ArchiveAsset, Valuation.CreateValuation,
      Valuation.KeyTaken;
    var h := Holdings(s);
    match action {
      case AddAsset(id, newAsset) =>
        if Valuation.CreateAsset(h, id, newAsset).Ok? {
          if Valuation.KeyTaken(h.assets, newAsset.key) {
            KnownKeyChangesNothing(h, id, newAsset);
          } else {
            Valuation.CreateAssetIsSound(h, id, newAsset, 0, 0);
          }
        }
      case SetAssetArchived(id, archived) =>
        if Valuation.ArchiveAsset(h, id, archived).Ok? {
          Valuation.ArchiveAssetIsSound(h, id, archived);
        }
      case Value(asset, market, day, key) =>
        if Valuation.CreateValuation(h, asset, market, day, key).Ok? {
          ValueKeepsHoldings(h, asset, market, day, key);
        }
    }
  }

  lemma KnownKeyChangesNothing(h: Valuation.Holdings, id: nat, request: Valuation.NewAsset)
    requires Valuation.KeyTaken(h.assets, request.key) && Valuation.CreateAsset(h, id, request).Ok?
    ensures Valuation.CreateAsset(h, id, request).value == h
  {
    hide Valuation.PlaceAsset, Valuation.PostPurchase, Valuation.KeyTaken, Valuation.AccountTaken;
  }

  lemma {:induction false} ValueKeepsHoldings(h: Valuation.Holdings, asset: nat, market: string, day: Day, key: Key)
    requires Valuation.HoldingsSound(h) && Valuation.CreateValuation(h, asset, market, day, key).Ok?
    ensures Valuation.HoldingsSound(Valuation.CreateValuation(h, asset, market, day, key).value.holdings)
  {
    hide Valuation.HoldingsSound, Valuation.RecordValuation, Money.Parse, Valuation.LatestDay;
    if Valuation.FindValuation(h.valuations, key).None? {
      Valuation.ValuationSetsTheBalance(h, asset, market, day, key);
    }
  }

  /** One request keeps every invariant of the desk, the assets and the valuations. */
  lemma {:induction false} ActionKeepsState(s: UserState, action: Action)
    requires StateSound(s) && FreshlyKeyed(s, action)
    ensures StateSound(Perform(s, action))
  {
    hide StateSound, Sound, Infrastructure, Extends, ReconcilingLaws.DeskSound, Valuation.HoldingsSound,
      AppendsPlainly, Perform;
    var after := Perform(s, action);
    SoundParts(s);
    ActionKeepsTheLedger(s, action);
    KeptBookKeepsState(s, after.desk.book);
    if action.Prepare? || action.Confirm? || action.Cleanup? {
      DeskActionKeepsState(s, action);
    } else if action.AddAsset? || action.SetAssetArchived? || action.Value? {
      HoldingsActionKeepsHoldings(s, action);
      OnlyHoldingsChange(s, action);
      SoundHoldings(s, Holdings(after));
    } else {
      OnlyTheBookChanges(s, action);
    }
  }

  lemma OnlyHoldingsChange(s: UserState, action: Action)
    requires action.AddAsset? || action.SetAssetArchived? || action.Value?
    ensures Perform(s, action) == WithHoldings(s, Holdings(Perform(s, action)))
    ensures WithBook(s, Perform(s, action).desk.book) == s.(desk := s.desk.(book := Holdings(Perform(s, action)).book))
  {
    hide Valuation.CreateAsset, Valuation.ArchiveAsset, Valuation.CreateValuation;
  }

  lemma OnlyTheBookChanges(s: UserState, action: Action)
    requires !action.Prepare? && !action.Confirm? && !action.Cleanup? && !action.AddAsset? && !action.SetAssetArchived?
             && !action.Value?
    ensures Perform(s, action) == WithBook(s, Perform(s, action).desk.book)
  {
    hide CreateAccount, UpdateAccount, CreateCategory, ArchiveCategory, EnsureSystem, HasSnapshot, PostTypedOperation,
      PostReversal, ReplaceTransaction;
  }

  lemma {:induction false} DeskActionKeepsState(s: UserState, action: Action)
    requires StateSound(s) && FreshlyKeyed(s, action) && (action.Prepare? || action.Confirm? || action.Cleanup?)
    requires var book := Perform(s, action).desk.book; Sound(book) && Extends(s.desk.book, book) && Infrastructure(book)
    ensures StateSound(Perform(s, action))
  {
    hide Sound, Infrastructure, Extends, Reconciling.PrepareReconciliation, Reconciling.ConfirmReconciliation,
      ReconcilingLaws.DeskSound, Valuation.HoldingsSound, ReconcilingLaws.FreshKeys;
    match action {
      case Prepare(auto, today, now, request) => PrepareKeepsDesk(s.desk, auto, today, now, request);
      case Confirm(preview, at) => ConfirmKeepsDesk(s.desk, preview, at);
      case Cleanup(cutoff) => ReconcilingLaws.CleanupKeepsTheDesk(s.desk, cutoff);
    }
    HoldingsFollow(s, Perform(s, action).desk);
  }

  lemma HoldingsWithBook(h: Valuation.Holdings, book: Book)
    requires Valuation.HoldingsSound(h) && Sound(book) && Extends(h.book, book) && Infrastructure(book)
    ensures Valuation.HoldingsSound(h.(book := book))
  {
    hide Sound, Infrastructure, Valuation.ValuationsSound;
  }

  /** The assets and valuations stay sound over every sequence of requests, with any keys. */
  lemma {:induction false} EveryRunKeepsHoldings(s: UserState, actions: seq<Action>)
    requires Valuation.HoldingsSound(Holdings(s))
    ensures Valuation.HoldingsSound(Holdings(PerformAll(s, actions)))
    decreases |actions|
  {
    hide Perform, Extends, Infrastructure, AppendsPlainly, Valuation.AssetsSound, Valuation.ValuationsSound;
    if actions != [] {
      var after := Perform(s, actions[0]);
      if actions[0].AddAsset? || actions[0].SetAssetArchived? || actions[0].Value? {
        HoldingsActionKeepsHoldings(s, actions[0]);
      } else {
        ActionKeepsTheLedger(s, actions[0]);
        HoldingsWithBook(Holdings(s), after.desk.book);
        OtherHoldingsStay(s, actions[0]);
      }
      EveryRunKeepsHoldings(after, actions[1..]);
    }
  }

  lemma OtherHoldingsStay(s: UserState, action: Action)
    requires !action.AddAsset? && !action.SetAssetArchived? && !action.Value?
    ensures Perform(s, action).assets == s.assets && Perform(s, action).valuations == s.valuations
  {
    hide CreateAccount, UpdateAccount, CreateCategory, ArchiveCategory, EnsureSystem, HasSnapshot, PostTypedOperation,
      PostReversal, ReplaceTransaction, Reconciling.PrepareReconciliation, Reconciling.ConfirmReconciliation;
  }

  /**
   In every state reached by requests whose reconciliation keys are fresh: every row linked to an adjustment of its
   own account, date and amount, every superseded adjustment reversed, and valuations in date order within their
   market values. What UserDesks keeps of the rows needs no fresh keys.
   */
  lemma {:induction false} EveryRunKeepsState(s: UserState, actions: seq<Action>)
    requires StateSound(s) && FreshRun(s, actions)
    ensures StateSound(PerformAll(s, actions))
    decreases |actions|
  {
    hide StateSound, Perform, FreshlyKeyed;
    if actions != [] {
      ActionKeepsState(s, actions[0]);
      EveryRunKeepsState(Perform(s, actions[0]), actions[1..]);
    }
  }
}
