/** Where the money of a revaluation and a purchase goes, and exactly when assets and valuations are accepted. */
module ValuationFlows {
  import opened Prelude
  import opened Ledger
  import opened LedgerLaws
  import opened LedgerAcceptance
  import opened Valuation
  import Money
  import ReconcilingFlows

  // ----- revaluations

  /** A gain comes from the unrealized gain and loss account, and a loss goes there. */
  ghost function RevaluationFlow(book: Book, account: nat, adjustment: int, day: Day, other: nat, at: Day): int {
    if adjustment >= 0 then Flow(SystemAccount(book, UnrealizedGainLoss), Some(account), adjustment, day, other, at)
    else Flow(Some(account), SystemAccount(book, UnrealizedGainLoss), -adjustment, day, other, at)
  }

  lemma {:induction false} RevalueMoves(
      book: Book, account: nat, day: Day, adjustment: int, key: Key, other: nat, at: Day)
    requires Sound(book) && Revalue(book, account, day, adjustment, key).Ok?
    ensures var revalued := Revalue(book, account, day, adjustment, key).value;
            && BalanceAt(revalued.book.log, other, at) == BalanceAt(book.log, other, at)
                 + (if HasKey(book, key) then 0 else RevaluationFlow(book, account, adjustment, day, other, at))
            && (revalued.posting.None? <==> adjustment == 0)
            && (revalued.posting.Some? ==>
                  && revalued.posting.value < |revalued.book.log|
                  && revalued.book.log[revalued.posting.value].key == key
                  && (!HasKey(book, key) ==>
                        && revalued.book.log[revalued.posting.value].kind == Kind.Revaluation
                        && revalued.book.log[revalued.posting.value].day == day))
  {
    hide Sound, BalanceAt;
    if adjustment != 0 {
      var entries := RevaluationEntries(account, book.systems[UnrealizedGainLoss], adjustment, book.currency);
      var t := Transaction(Kind.Revaluation, day, key, None, None, entries);
      TotalOfTwo(entries[0], entries[1]);
      assert entries == [entries[0], entries[1]];
      PostJournalIsSound(book, t);
      BalanceOfAppend(book.log, [t], other, at);
      BalanceOfOne(t, other, at);
    }
  }

  /**
   After a new valuation every account has on every day the balance it had, plus what the asset gained or lost since,
   against the unrealized gain and loss account alone, if the derived key was unused.
   */
  lemma {:induction false} ValuedFlows(
      h: Holdings, asset: nat, market: string, day: Day, key: Key, other: nat, at: Day)
    requires Sound(h.book) && FindValuation(h.valuations, key).None?
    requires CreateValuation(h, asset, market, day, key).Ok?
    ensures asset in h.assets && Money.Parse(market).Ok?
    ensures var after := CreateValuation(h, asset, market, day, key).value.holdings;
            var account := h.assets[asset].account;
            var gain := OwnedValue(Money.Parse(market).value, h.assets[asset].share)
                        - BalanceAt(h.book.log, account, day);
            && BalanceAt(after.book.log, other, at) == BalanceAt(h.book.log, other, at)
                 + (if HasKey(h.book, AssetRevaluation(asset, key)) then 0
                    else RevaluationFlow(h.book, account, gain, day, other, at))
            && |after.valuations| == |h.valuations| + 1
            && var posting := after.valuations[|h.valuations|].posting;
            && (posting.None? <==> gain == 0)
            && (posting.Some? ==>
                  && posting.value < |after.book.log|
                  && after.book.log[posting.value].key == AssetRevaluation(asset, key)
                  && (!HasKey(h.book, AssetRevaluation(asset, key)) ==>
                        && after.book.log[posting.value].kind == Kind.Revaluation
                        && after.book.log[posting.value].day == day))
  {
    hide Sound, BalanceAt, FindKey, Money.Parse, OwnedValue, Revalue, RecordValuation, FindValuation, LatestDay, Flow;
    var value := Money.Parse(market).value;
    RecordedValuation(h, asset, value, day, key);
    var account := h.assets[asset].account;
    RevalueMoves(h.book, account, day, OwnedValue(value, h.assets[asset].share) - BalanceAt(h.book.log, account, day),
                 AssetRevaluation(asset, key), other, at);
  }

  /** The unrealized gain and loss account exists, and both rows take the entries unless the key replays. */
  ghost predicate CanRevalue(book: Book, account: nat, adjustment: int, key: Key) {
    adjustment == 0 ||
    (&& UnrealizedGainLoss in book.systems
     && (|| HasKey(book, key)
         || (TakesEntries(book, Some(account)) && TakesEntries(book, SystemAccount(book, UnrealizedGainLoss)))))
  }

  lemma {:induction false} RevaluedExactlyWhen(book: Book, account: nat, day: Day, adjustment: int, key: Key)
    requires Money.InRange(adjustment)
    ensures Revalue(book, account, day, adjustment, key).Ok? <==> CanRevalue(book, account, adjustment, key)
  {
    hide Money.InRange, FindKey;
    if adjustment != 0 && UnrealizedGainLoss in book.systems {
      var t := Transaction(Kind.Revaluation, day, key, None, None,
                           RevaluationEntries(account, book.systems[UnrealizedGainLoss], adjustment, book.currency));
      TwoEntries(book, t);
      OppositeInRange(adjustment);
    }
  }

  /**
   A valuation is accepted exactly for an acceptable market value of an active asset in the functional currency, if
   its key is known, or no valuation of the asset is dated later, what is read and stored is in range, and the
   revaluation can be posted.
   */
  lemma {:induction false} ValuedExactlyWhen(h: Holdings, asset: nat, market: string, day: Day, key: Key)
    ensures CreateValuation(h, asset, market, day, key).Ok? <==>
              && Money.Parse(market).Ok? && Money.Parse(market).value >= 0
              && asset in h.assets && !h.assets[asset].archived && h.assets[asset].currency == h.book.currency
              && (|| (exists i :: 0 <= i < |h.valuations| && h.valuations[i].key == key)
                  || (var owned := OwnedValue(Money.Parse(market).value, h.assets[asset].share);
                      var balance := BalanceAt(h.book.log, h.assets[asset].account, day);
                      && (forall i :: 0 <= i < |h.valuations| && h.valuations[i].asset == asset ==>
                            h.valuations[i].day <= day)
                      && Money.InRange(owned) && Money.InRange(balance) && Money.InRange(owned - balance)
                      && CanRevalue(h.book, h.assets[asset].account, owned - balance, AssetRevaluation(asset, key))))
  {
    hide Money.Parse, Money.NumericText, OwnedValue, Money.InRange, BalanceAt, Revalue, CanRevalue, AccountBalanceAt,
      FindValuation, LatestDay;
    if Money.Parse(market).Ok? && asset in h.assets {
      var owned := OwnedValue(Money.Parse(market).value, h.assets[asset].share);
      var balance := BalanceAt(h.book.log, h.assets[asset].account, day);
      Money.ParseOfNumericText(owned);
      ReconcilingFlows.ReadExactlyWhen(h.book, h.assets[asset].account, day);
      if Money.InRange(owned - balance) {
        RevaluedExactlyWhen(h.book, h.assets[asset].account, day, owned - balance, AssetRevaluation(asset, key));
      }
    }
  }

  // ----- assets

  /** The asset's account: a new one, or an active asset account of the user in the functional currency. */
  ghost predicate CanPlace(book: Book, request: NewAsset) {
    match request.existing
    case None => request.created !in book.accounts
    case Some(id) => UsableAccount(book, Some(id), true)
  }

  /** A purchase pays a positive amount from another active asset account, unless its key replays. */
  ghost predicate CanBuy(book: Book, id: nat, account: nat, purchase: Purchase) {
    && Money.Parse(purchase.amount).Ok? && Money.Parse(purchase.amount).value > 0
    && purchase.source != account && UsableAccount(book, Some(purchase.source), true)
    && (HasKey(book, PurchaseOf(id)) || TakesEntries(book, Some(account)))
  }

  lemma {:induction false} BoughtExactlyWhen(book: Book, id: nat, account: nat, purchase: Purchase)
    ensures PostPurchase(book, id, account, purchase).Ok? <==> CanBuy(book, id, account, purchase)
  {
    hide Money.Parse, Money.InRange, FindKey;
    if CanBuy(book, id, account, purchase) || PostPurchase(book, id, account, purchase).Ok? {
      var amount := Money.Parse(purchase.amount).value;
      Money.ParseInRange(purchase.amount);
      OppositeInRange(amount);
      TwoEntries(book, Transaction(AssetPurchase, purchase.day, PurchaseOf(id), None, None,
                                   PurchaseEntries(purchase.source, account, amount, book.currency)));
    }
  }

  /** The account an asset is given. */
  function AccountOf(request: NewAsset): nat {
    match request.existing case None => request.created case Some(id) => id
  }

  /**
   An asset is accepted exactly with a share of (0, 100] percent in the functional currency, if its key is known, or
   its account can be used and no other asset has it, and its purchase can be paid.
   */
  lemma {:induction false} AssetExactlyWhen(h: Holdings, id: nat, request: NewAsset)
    ensures CreateAsset(h, id, request).Ok? <==>
              && 1 <= request.share <= 10000 && request.currency == h.book.currency
              && (|| KeyTaken(h.assets, request.key)
                  || (&& CanPlace(h.book, request) && id !in h.assets && !AccountTaken(h.assets, AccountOf(request))
                      && (request.purchase.Some? ==>
                            CanBuy(PlaceAsset(h.book, request).value.book, id, AccountOf(request),
                                   request.purchase.value))))
  {
    hide PostPurchase, CanBuy, KeyTaken, AccountTaken;
    if PlaceAsset(h.book, request).Ok? && request.purchase.Some? {
      BoughtExactlyWhen(PlaceAsset(h.book, request).value.book, id, AccountOf(request), request.purchase.value);
    }
  }

  /** What an accepted asset with a new key stores: its own row, and the account as it was or as a new active one. */
  lemma {:induction false} AssetStored(h: Holdings, id: nat, request: NewAsset)
    requires CreateAsset(h, id, request).Ok? && !KeyTaken(h.assets, request.key)
    ensures var after := CreateAsset(h, id, request).value;
            && after.assets == h.assets[id := Asset.Asset(AccountOf(request), request.share, request.currency, false,
                                                          request.key)]
            && after.book.accounts == (if request.existing.Some? then h.book.accounts
                                       else h.book.accounts[request.created := Account(Class.Asset, OtherSubtype, User,
                                                                                       h.book.currency, false)])
            && after.book.(log := h.book.log, accounts := h.book.accounts) == h.book
            && (forall i :: |h.book.log| <= i < |after.book.log| ==> after.book.log[i].kind == AssetPurchase)
  {
    hide KeyTaken, AccountTaken, Money.Parse, FindKey, HeaderAccepted, EntriesAccepted;
  }

  /** Archiving an asset, or taking it back, sets the asset and its account alike and nothing else. */
  lemma ArchivedTogether(h: Holdings, id: nat, archived: bool)
    requires HoldingsSound(h)
    ensures ArchiveAsset(h, id, archived).Ok? <==> id in h.assets
    ensures id in h.assets ==>
              var after := ArchiveAsset(h, id, archived).value;
              var account := h.assets[id].account;
              && after.assets == h.assets[id := after.assets[id]] && after.valuations == h.valuations
              && after.assets[id].archived == archived == after.book.accounts[account].archived
              && after.assets[id] == h.assets[id].(archived := archived)
              && after.book.accounts[account] == h.book.accounts[account].(archived := archived)
              && after.book == h.book.(accounts := h.book.accounts[account := after.book.accounts[account]])
  {
    hide Sound, Infrastructure, ValuationsSound;
  }

  // ----- refusals

  /** Each error of a valuation has its reason. */
  lemma {:induction false} ValuationRefusals(h: Holdings, asset: nat, market: string, day: Day, key: Key)
    requires CreateValuation(h, asset, market, day, key).Err?
    ensures match CreateValuation(h, asset, market, day, key).error
            case Validation => Money.Parse(market).Err? || Money.Parse(market).value < 0
            case NotFound => asset !in h.assets
            case Conflict =>
              && asset in h.assets
              && (h.assets[asset].archived
                  || exists i :: 0 <= i < |h.valuations| && h.valuations[i].asset == asset && day < h.valuations[i].day)
            case FxUnavailable => asset in h.assets && h.assets[asset].currency != h.book.currency
            case Rejected =>
              && Money.Parse(market).Ok? && asset in h.assets
              && var owned := OwnedValue(Money.Parse(market).value, h.assets[asset].share);
              && var balance := BalanceAt(h.book.log, h.assets[asset].account, day);
              && (|| !Money.InRange(owned) || !Money.InRange(balance) || !Money.InRange(owned - balance)
                  || !CanRevalue(h.book, h.assets[asset].account, owned - balance, AssetRevaluation(asset, key)))
  {
    hide Money.Parse, Money.NumericText, OwnedValue, Money.InRange, BalanceAt, CanRevalue, AccountBalanceAt, FindKey,
      HeaderAccepted, EntriesAccepted;
    ValuedExactlyWhen(h, asset, market, day, key);
    if Money.Parse(market).Ok? && asset in h.assets {
      ReconcilingFlows.ReadExactlyWhen(h.book, h.assets[asset].account, day);
      if LatestDay(h.valuations, asset).Some? && day < LatestDay(h.valuations, asset).value {
        var i :| 0 <= i < |h.valuations| && h.valuations[i].asset == asset
                 && h.valuations[i].day == LatestDay(h.valuations, asset).value;
        assert day < h.valuations[i].day;
      }
    }
  }

  /** Each error of an asset's creation has its reason. */
  lemma {:induction false} AssetRefusals(h: Holdings, id: nat, request: NewAsset)
    requires CreateAsset(h, id, request).Err?
    ensures var account := AccountOf(request);
            match CreateAsset(h, id, request).error
            case Validation =>
              || !(1 <= request.share <= 10000)
              || (request.existing.Some? && account in h.book.accounts
                  && (h.book.accounts[account].accountClass != Class.Asset || h.book.accounts[account].archived))
              || (request.purchase.Some? && !CanBuy(PlacedBook(h.book, request), id, account, request.purchase.value))
            case NotFound =>
              || (request.existing.Some? && NoSuchAccount(h.book, request.existing))
              || (request.purchase.Some? && NoSuchAccount(PlacedBook(h.book, request),
                                                          Some(request.purchase.value.source)))
            case FxUnavailable =>
              || request.currency != h.book.currency
              || (request.existing.Some? && ForeignAccount(h.book, request.existing))
              || (request.purchase.Some?
                  && ForeignAccount(PlacedBook(h.book, request), Some(request.purchase.value.source)))
            case Rejected =>
              || id in h.assets || AccountTaken(h.assets, account)
              || (request.existing.None? && account in h.book.accounts)
              || (request.purchase.Some? && !CanBuy(PlacedBook(h.book, request), id, account, request.purchase.value))
            case Conflict => false
  {
    hide Money.Parse, FindKey, HeaderAccepted, EntriesAccepted, KeyTaken, AccountTaken, CanBuy;
    if PlaceAsset(h.book, request).Ok? && request.purchase.Some? {
      BoughtExactlyWhen(PlaceAsset(h.book, request).value.book, id, AccountOf(request), request.purchase.value);
    }
  }

  /** The book with the asset's account, if it is a new one. */
  ghost function PlacedBook(book: Book, request: NewAsset): Book {
    match PlaceAsset(book, request) case Ok(placed) => placed.book case Err(_) => book
  }
}
