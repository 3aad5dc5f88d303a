/** Manual asset valuations: each posts the difference between the owned share and the ledger balance. */
module Valuation {
  import opened Prelude
  import opened Ledger
  import opened LedgerLaws
  import Accounts
  import Money
  import Fx

  /** An ownership share is in hundredths of a percent: 1 to 10000. */
  datatype Asset = Asset(account: nat, share: int, currency: nat, archived: bool, key: Key)

  datatype Valued = Valued(
    asset: nat,
    day: Day,
    market: int,
    owned: int,
    ledgerBefore: int,
    adjustment: int,
    key: Key,
    posting: Option<nat>)

  datatype Holdings = Holdings(book: Book, assets: map<nat, Asset>, valuations: seq<Valued>)

  // ----- assets

  datatype Purchase = Purchase(source: nat, amount: string, day: Day)

  /** The asset uses an existing account or, without one, a new account with the given identifier. */
  datatype NewAsset = NewAsset(existing: Option<nat>, created: nat, share: int, currency: nat, key: Key,
                               purchase: Option<Purchase>)

  datatype Placed = Placed(book: Book, account: nat)

  function PlaceAsset(book: Book, request: NewAsset): Result<Placed, LedgerError> {
    match request.existing
    case None =>
      if request.created in book.accounts then Err(Rejected)
      else
        Ok(Placed(book.(accounts := book.accounts[request.created :=
                                                  Account(Class.Asset, OtherSubtype, User, book.currency, false)]),
                  request.created))
    case Some(id) =>
      if id !in book.accounts || book.accounts[id].role != User then Err(NotFound)
      else if book.accounts[id].accountClass != Class.Asset || book.accounts[id].archived then Err(Validation)
      else if book.accounts[id].currency != book.currency then Err(FxUnavailable)
      else Ok(Placed(book, id))
  }

  function PurchaseEntries(source: nat, account: nat, amount: int, currency: nat): seq<Entry> {
    [Entry(source, None, -amount, currency), Entry(account, None, amount, currency)]
  }

  function PostPurchase(book: Book, id: nat, account: nat, purchase: Purchase): Result<Posted, LedgerError> {
    var amount := Money.Parse(purchase.amount);
    if amount.Err? || amount.value <= 0 then Err(Validation)
    else if purchase.source !in book.accounts || book.accounts[purchase.source].role != User then Err(NotFound)
    else if purchase.source == account || book.accounts[purchase.source].accountClass != Class.Asset
            || book.accounts[purchase.source].archived then Err(Validation)
    else if book.accounts[purchase.source].currency != book.currency then Err(FxUnavailable)
    else
      PostJournal(book, Transaction(AssetPurchase, purchase.day, PurchaseOf(id), None, None,
                                    PurchaseEntries(purchase.source, account, amount.value, book.currency)))
  }

  predicate KeyTaken(assets: map<nat, Asset>, key: Key) {
    exists a :: a in assets && assets[a].key == key
  }

  predicate AccountTaken(assets: map<nat, Asset>, account: nat) {
    exists a :: a in assets && assets[a].account == account
  }

  /** A creation key already used changes nothing. */
  function CreateAsset(h: Holdings, id: nat, request: NewAsset): Result<Holdings, LedgerError> {
    if !(1 <= request.share <= 10000) then Err(Validation)
    else if request.currency != h.book.currency then Err(FxUnavailable)
    else if KeyTaken(h.assets, request.key) then Ok(h)
    else
      var placed :- PlaceAsset(h.book, request);
      if id in h.assets || AccountTaken(h.assets, placed.account) then Err(Rejected)
      else
        var assets := h.assets[id := Asset.Asset(placed.account, request.share, request.currency, false, request.key)];
        if request.purchase.None? then Ok(Holdings(placed.book, assets, h.valuations))
        else
          var posted :- PostPurchase(placed.book, id, placed.account, request.purchase.value);
          Ok(Holdings(posted.book, assets, h.valuations))
  }

  /** Archiving an asset archives its account with it. */
  function ArchiveAsset(h: Holdings, id: nat, archived: bool): Result<Holdings, LedgerError> {
    if id !in h.assets then Err(NotFound)
    else
      var account := h.assets[id].account;
      if account !in h.book.accounts then Err(Rejected)
      else
        Ok(h.(assets := h.assets[id := h.assets[id].(archived := archived)],
              book := h.book.(accounts := h.book.accounts[account := h.book.accounts[account].(archived := archived)])))
  }

  // ----- valuations

  function FindValuation(rows: seq<Valued>, key: Key): (found: Option<nat>)
    ensures found.Some? ==> found.value < |rows| && rows[found.value].key == key
    ensures found.None? ==> forall i :: 0 <= i < |rows| ==> rows[i].key != key
  {
    if rows == [] then None
    else if rows[|rows| - 1].key == key then Some(|rows| - 1)
    else FindValuation(rows[..|rows| - 1], key)
  }

  /** The latest valuation date of an asset. */
  function LatestDay(rows: seq<Valued>, asset: nat): (latest: Option<Day>)
    ensures latest.None? <==> forall i :: 0 <= i < |rows| ==> rows[i].asset != asset
    ensures latest.Some? ==> forall i :: 0 <= i < |rows| && rows[i].asset == asset ==> rows[i].day <= latest.value
    ensures latest.Some? ==> exists i :: 0 <= i < |rows| && rows[i].asset == asset && rows[i].day == latest.value
  {
    if rows == [] then None
    else
      var last, rest := rows[|rows| - 1], LatestDay(rows[..|rows| - 1], asset);
      if last.asset == asset && (rest.None? || rest.value <= last.day) then Some(last.day) else rest
  }

  /** The owned part of a market value, to eight decimals. */
  function OwnedValue(market: int, share: int): int {
    Fx.Round(market * share, 10000)
  }

  function RevaluationEntries(account: nat, unrealized: nat, adjustment: int, currency: nat): seq<Entry> {
    [Entry(account, None, adjustment, currency), Entry(unrealized, None, -adjustment, currency)]
  }

  datatype Revalued = Revalued(book: Book, posting: Option<nat>)

  function Revalue(book: Book, account: nat, day: Day, adjustment: int, key: Key): Result<Revalued, LedgerError> {
    if adjustment == 0 then Ok(Revalued(book, None))
    else if UnrealizedGainLoss !in book.systems then Err(Rejected)
    else
      var posted :- PostJournal(book, Transaction(Revaluation, day, key, None, None,
                                                  RevaluationEntries(account, book.systems[UnrealizedGainLoss],
                                                                     adjustment, book.currency)));
      Ok(Revalued(posted.book, Some(posted.id)))
  }

  datatype Created = Created(holdings: Holdings, id: nat)

  /** Read the owned value and the balance, post the difference and insert the row. */
  function RecordValuation(h: Holdings, asset: nat, market: int, day: Day, key: Key): Result<Created, LedgerError>
    requires asset in h.assets
  {
    match Money.Parse(Money.NumericText(OwnedValue(market, h.assets[asset].share)))
    case Err(_) => Err(Rejected)
    case Ok(owned) =>
      var balance :- AccountBalanceAt(h.book, h.assets[asset].account, day);
      var adjustment := owned - balance;
      var revalued :- Revalue(h.book, h.assets[asset].account, day, adjustment, AssetRevaluation(asset, key));
      if !Money.InRange(adjustment) then Err(Rejected)
      else Ok(Created(Holdings(revalued.book, h.assets,
                               h.valuations + [Valued(asset, day, market, owned, balance, adjustment, key,
                                                      revalued.posting)]),
                      |h.valuations|))
  }

  function CreateValuation(h: Holdings, asset: nat, market: string, day: Day, key: Key): Result<Created, LedgerError> {
    var parsed := Money.Parse(market);
    if parsed.Err? || parsed.value < 0 then Err(Validation)
    else if asset !in h.assets then Err(NotFound)
    else if h.assets[asset].archived then Err(Conflict)
    else if h.assets[asset].currency != h.book.currency then Err(FxUnavailable)
    else
      var existing, latest := FindValuation(h.valuations, key), LatestDay(h.valuations, asset);
      if existing.Some? then Ok(Created(h, existing.value))
      else if latest.Some? && day < latest.value then Err(Conflict)
      else RecordValuation(h, asset, parsed.value, day, key)
  }

  class AssetRegister {
    var book: Book
    var assets: map<nat, Asset>
    var valuations: seq<Valued>

    ghost function Contents(): Holdings
      reads this
    {
      Holdings(book, assets, valuations)
    }

    constructor (book: Book, assets: map<nat, Asset>)
      ensures Contents() == Holdings(book, assets, [])
    {
      this.book, this.assets, valuations := book, assets, [];
    }

    method LatestDate(asset: nat) returns (latest: Option<Day>)
      ensures latest == LatestDay(valuations, asset)
    {
      latest := None;
      for i := 0 to |valuations|
        invariant latest == LatestDay(valuations[..i], asset)
      {
        assert valuations[..i + 1][..i] == valuations[..i];
        if valuations[i].asset == asset && (latest.None? || latest.value <= valuations[i].day) {
          latest := Some(valuations[i].day);
        }
      }
      assert valuations[..|valuations|] == valuations;
    }

    /** A zero adjustment posts nothing. */
    method PostRevaluation(
        account: nat, day: Day, adjustment: int, key: Key) returns (result: Result<Option<nat>, LedgerError>)
      modifies `book
      ensures match Revalue(old(book), account, day, adjustment, key)
              case Ok(revalued) => book == revalued.book && result == Ok(revalued.posting)
              case Err(e) => book == old(book) && result == Err(e)
    {
      hide PostJournal;
      if adjustment == 0 {
        return Ok(None);
      }
      if UnrealizedGainLoss !in book.systems {
        return Err(Rejected);
      }
      var posted := PostJournal(book, Transaction(Revaluation, day, key, None, None,
                                                  RevaluationEntries(account, book.systems[UnrealizedGainLoss],
                                                                     adjustment, book.currency)));
      if posted.Err? {
        return Err(posted.error);
      }
      book := posted.value.book;
      return Ok(Some(posted.value.id));
    }

    method CreateAssetValuation(
        asset: nat, market: string, day: Day, key: Key) returns (result: Result<nat, LedgerError>)
      modifies `book, `valuations
      ensures match CreateValuation(old(Contents()), asset, market, day, key)
              case Ok(created) => Contents() == created.holdings && result == Ok(created.id)
              case Err(e) => Contents() == old(Contents()) && result == Err(e)
    {
      hide Revalue, AccountBalanceAt, Money.Parse, OwnedValue, Money.NumericText, Money.InRange;
      var marketValue := Money.ParseAmount(market);
      if marketValue.Err? || marketValue.value < 0 {
        return Err(Validation);
      }
      if asset !in assets {
        return Err(NotFound);
      }
      var row := assets[asset];
      if row.archived {
        return Err(Conflict);
      }
      if row.currency != book.currency {
        return Err(FxUnavailable);
      }
      var existing := FindValuation(valuations, key);
      if existing.Some? {
        return Ok(existing.value);
      }
      var latestDate := LatestDate(asset);
      if latestDate.Some? && day < latestDate.value {
        return Err(Conflict);
      }
      var owned := Money.ParseAmount(Money.NumericText(OwnedValue(marketValue.value, row.share)));
      if owned.Err? {
        return Err(Rejected);
      }
      var balance := AccountBalanceAt(book, row.account, day);
      if balance.Err? {
        return Err(balance.error);
      }
      var adjustment := owned.value - balance.value;
      var saved := book;
      var posting := PostRevaluation(row.account, day, adjustment, AssetRevaluation(asset, key));
      if posting.Err? {
        return Err(posting.error);
      }
      if !Money.InRange(adjustment) {
        book := saved;
        return Err(Rejected);
      }
      var id := |valuations|;
      valuations := valuations + [Valued(asset, day, marketValue.value, owned.value, balance.value, adjustment, key,
                                         posting.value)];
      return Ok(id);
    }
  }

  // ----- what a valuation records

  /** Shares of (0, 100] percent never exceed the market value. */
  lemma {:induction false} OwnedWithinMarket(market: int, share: int)
    requires 0 <= market && 1 <= share <= 10000
    ensures 0 <= OwnedValue(market, share) <= market
    ensures Fx.Nearest(market * share, 10000, OwnedValue(market, share))
  {
    hide Fx.Round;
    Fx.ScaleOrder(10000, 0, market);
    assert 0 * 10000 <= market * share <= market * 10000 by {
      assert market * (10000 - share) >= 0;
      assert market * share >= 0;
    }
    Fx.RoundIsMonotone(0 * 10000, market * share, 10000);
    Fx.RoundIsMonotone(market * share, market * 10000, 10000);
    Fx.RoundOfMultiple(0, 10000);
    Fx.RoundOfMultiple(market, 10000);
    Fx.RoundIsNearest(market * share, 10000);
  }

  ghost predicate AssetsSound(book: Book, assets: map<nat, Asset>) {
    && (forall a :: a in assets ==>
          && 1 <= assets[a].share <= 10000
          && assets[a].account in book.accounts && book.accounts[assets[a].account].role == User)
    && (forall a, b :: a in assets && b in assets && a != b ==>
        assets[a].account != assets[b].account && assets[a].key != assets[b].key)
  }

  ghost predicate ValuationsSound(assets: map<nat, Asset>, valuations: seq<Valued>) {
    && (forall i :: 0 <= i < |valuations| ==>
        valuations[i].asset in assets && 0 <= valuations[i].owned <= valuations[i].market)
    && (forall i, j :: 0 <= i < j < |valuations| ==> valuations[i].key != valuations[j].key)
    && (forall i, j :: 0 <= i < j < |valuations| && valuations[i].asset == valuations[j].asset ==>
          valuations[i].day <= valuations[j].day)
  }

  ghost predicate HoldingsSound(h: Holdings) {
    Sound(h.book) && Infrastructure(h.book) && AssetsSound(h.book, h.assets) && ValuationsSound(h.assets, h.valuations)
  }

  lemma {:induction false} RevaluePosts(book: Book, account: nat, day: Day, adjustment: int, key: Key)
    requires Sound(book) && Infrastructure(book)
    requires account in book.accounts && book.accounts[account].role == User
    requires Revalue(book, account, day, adjustment, key).Ok?
    ensures var after := Revalue(book, account, day, adjustment, key).value.book;
            && Sound(after) && Infrastructure(after) && Grows(book, after)
            && BalanceAt(after.log, account, day)
                 == BalanceAt(book.log, account, day) + (if HasKey(book, key) then 0 else adjustment)
  {
    hide Sound, BalanceAt;
    if adjustment != 0 {
      var unrealized := book.systems[UnrealizedGainLoss];
      var entries := RevaluationEntries(account, unrealized, adjustment, book.currency);
      var t := Transaction(Revaluation, day, key, None, None, entries);
      TotalOfTwo(entries[0], entries[1]);
      PostJournalIsSound(book, t);
      if !HasKey(book, key) {
        BalanceOfAppend(book.log, [t], account, day);
        BalanceOfOne(t, account, day);
      }
    }
  }

  /** The row a request with a new key appends, in terms of the holdings before it. */
  lemma {:induction false} RecordedValuation(h: Holdings, asset: nat, market: int, day: Day, key: Key)
    requires asset in h.assets && RecordValuation(h, asset, market, day, key).Ok?
    ensures var account := h.assets[asset].account;
            var owned := OwnedValue(market, h.assets[asset].share);
            var before := BalanceAt(h.book.log, account, day);
            match Revalue(h.book, account, day, owned - before, AssetRevaluation(asset, key))
            case Ok(revalued) =>
              RecordValuation(h, asset, market, day, key) ==
              Ok(Created(Holdings(revalued.book, h.assets,
                                  h.valuations + [Valued(asset, day, market, owned, before, owned - before, key,
                                                         revalued.posting)]),
                         |h.valuations|))
            case Err(_) => false
  {
    hide Money.Parse, Money.NumericText, Money.InRange, OwnedValue, BalanceAt, AccountBalanceAt, Revalue;
    Money.ParseOfNumericText(OwnedValue(market, h.assets[asset].share));
    BalanceReadBack(h.book, h.assets[asset].account, day);
  }

  lemma {:induction false} AppendedValuation(assets: map<nat, Asset>, valuations: seq<Valued>, row: Valued)
    requires ValuationsSound(assets, valuations) && row.asset in assets && 0 <= row.owned <= row.market
    requires FindValuation(valuations, row.key).None?
    requires LatestDay(valuations, row.asset).Some? ==> LatestDay(valuations, row.asset).value <= row.day
    ensures ValuationsSound(assets, valuations + [row])
  {
    hide FindValuation, LatestDay;
  }

  /**
   Valuations stay sound: dates never decrease and the owned value is at most the market value. The ledger balance
   on the valuation's date becomes the owned value exactly when it was that already or the revaluation key was fresh.
   */
  lemma {:induction false} ValuationSetsTheBalance(h: Holdings, asset: nat, market: string, day: Day, key: Key)
    requires HoldingsSound(h) && FindValuation(h.valuations, key).None?
    requires CreateValuation(h, asset, market, day, key).Ok?
    ensures asset in h.assets && Money.Parse(market).Ok?
    ensures var after := CreateValuation(h, asset, market, day, key).value;
            var owned := OwnedValue(Money.Parse(market).value, h.assets[asset].share);
            var before := BalanceAt(h.book.log, h.assets[asset].account, day);
            && HoldingsSound(after.holdings) && Grows(h.book, after.holdings.book) && after.holdings.assets == h.assets
            && after.id == |h.valuations| == |after.holdings.valuations| - 1
            && after.holdings.valuations[..after.id] == h.valuations
            && var row := after.holdings.valuations[after.id];
            && row.asset == asset && row.day == day && row.key == key
            && row.market == Money.Parse(market).value && row.owned == owned
            && row.ledgerBefore == before && row.adjustment == owned - before
            && (BalanceAt(after.holdings.book.log, h.assets[asset].account, day) == owned
                <==> before == owned || !HasKey(h.book, AssetRevaluation(asset, key)))
  {
    hide RecordValuation, Money.Parse, OwnedValue, Sound, Infrastructure, BalanceAt, Revalue, HasKey, ValuationsSound,
      FindValuation, LatestDay;
    RecordedValuation(h, asset, Money.Parse(market).value, day, key);
    var row := CreateValuation(h, asset, market, day, key).value.holdings.valuations[|h.valuations|];
    OwnedWithinMarket(row.market, h.assets[asset].share);
    AppendedValuation(h.assets, h.valuations, row);
    RevaluePosts(h.book, h.assets[asset].account, day, row.adjustment, AssetRevaluation(asset, key));
  }

  // ----- assets are created and archived

  lemma {:induction false} PlacedAsset(book: Book, request: NewAsset)
    requires Sound(book) && PlaceAsset(book, request).Ok?
    ensures var placed := PlaceAsset(book, request).value;
            && Sound(placed.book) && Accounts.Extends(book, placed.book) && placed.book.log == book.log
            && (Infrastructure(book) ==> Infrastructure(placed.book))
            && placed.account in placed.book.accounts && placed.book.accounts[placed.account].role == User
  {
    hide Sound;
    Accounts.RowsStaySound(book, PlaceAsset(book, request).value.book);
  }

  lemma {:induction false} PostedPurchase(book: Book, id: nat, account: nat, purchase: Purchase)
    requires Sound(book) && PostPurchase(book, id, account, purchase).Ok?
    ensures var after := PostPurchase(book, id, account, purchase).value.book;
            && Sound(after) && GrowsPlainly(book, after)
            && (after.log == book.log <==> HasKey(book, PurchaseOf(id)))
            && (!HasKey(book, PurchaseOf(id)) ==>
                  forall other: nat, at: Day ::
                    BalanceAt(after.log, other, at) == BalanceAt(book.log, other, at)
                      + Flow(Some(purchase.source), Some(account), Money.Parse(purchase.amount).value, purchase.day,
                             other, at))
  {
    hide Sound, Money.Parse, PostJournal, BalanceAt, Net, Total, Grows;
    var amount := Money.Parse(purchase.amount).value;
    var entries := PurchaseEntries(purchase.source, account, amount, book.currency);
    var t := Transaction(AssetPurchase, purchase.day, PurchaseOf(id), None, None, entries);
    TotalOfTwo(entries[0], entries[1]);
    assert entries == [entries[0], entries[1]];
    PostJournalIsSound(book, t);
    PostJournalGrowsPlainly(book, t);
    if !HasKey(book, PurchaseOf(id)) {
      forall other: nat, at: Day
        ensures BalanceAt(book.log + [t], other, at) == BalanceAt(book.log, other, at)
                  + Flow(Some(purchase.source), Some(account), amount, purchase.day, other, at)
      {
        BalanceOfAppend(book.log, [t], other, at);
        BalanceOfOne(t, other, at);
      }
    }
  }

  /** A created asset keeps the ledger sound, whatever rows and keys exist. */
  lemma {:induction false} CreateAssetKeepsTheLedger(h: Holdings, id: nat, request: NewAsset)
    requires Sound(h.book) && CreateAsset(h, id, request).Ok?
    ensures var after := CreateAsset(h, id, request).value;
            && Sound(after.book) && Accounts.Extends(h.book, after.book) && AppendsPlainly(h.book.log, after.book.log)
            && (Infrastructure(h.book) ==> Infrastructure(after.book))
  {
    hide Sound, PlaceAsset, PostPurchase, KeyTaken, AccountTaken;
    if !KeyTaken(h.assets, request.key) {
      PlacedAsset(h.book, request);
      var placed := PlaceAsset(h.book, request).value;
      if request.purchase.Some? {
        PostedPurchase(placed.book, id, placed.account, request.purchase.value);
        Accounts.GrowthExtends(placed.book, CreateAsset(h, id, request).value.book);
      }
    }
  }

  /**
   A created asset has an account and a key of its own; its purchase moves the price from the source to that account
   exactly when the key derived for the asset was unused, and otherwise nothing is posted.
   */
  lemma {:induction false} CreateAssetIsSound(h: Holdings, id: nat, request: NewAsset, other: nat, at: Day)
    requires HoldingsSound(h) && CreateAsset(h, id, request).Ok? && !KeyTaken(h.assets, request.key)
    ensures var after := CreateAsset(h, id, request).value;
            && HoldingsSound(after) && after.valuations == h.valuations
            && id !in h.assets && id in after.assets && after.assets == h.assets[id := after.assets[id]]
            && !AccountTaken(h.assets, after.assets[id].account) && after.assets[id].share == request.share
            && (after.book.log == h.book.log <==> request.purchase.None? || HasKey(h.book, PurchaseOf(id)))
            && (after.book.log != h.book.log ==>
                  BalanceAt(after.book.log, other, at) == BalanceAt(h.book.log, other, at)
                    + Flow(Some(request.purchase.value.source), Some(after.assets[id].account),
                           Money.Parse(request.purchase.value.amount).value, request.purchase.value.day, other, at))
  {
    hide Sound, Infrastructure, PlaceAsset, PostPurchase, BalanceAt, Flow, Money.Parse;
    CreateAssetKeepsTheLedger(h, id, request);
    PlacedAsset(h.book, request);
    var placed := PlaceAsset(h.book, request).value;
    if request.purchase.Some? {
      PostedPurchase(placed.book, id, placed.account, request.purchase.value);
    }
  }

  lemma {:induction false} ArchiveAssetKeepsTheLedger(h: Holdings, id: nat, archived: bool)
    requires Sound(h.book) && ArchiveAsset(h, id, archived).Ok?
    ensures var after := ArchiveAsset(h, id, archived).value;
            && Sound(after.book) && Accounts.Extends(h.book, after.book) && after.book.log == h.book.log
            && (Infrastructure(h.book) ==> Infrastructure(after.book))
  {
    hide Sound;
    Accounts.RowsStaySound(h.book, ArchiveAsset(h, id, archived).value.book);
  }

  lemma {:induction false} ArchiveAssetIsSound(h: Holdings, id: nat, archived: bool)
    requires HoldingsSound(h) && ArchiveAsset(h, id, archived).Ok?
    ensures HoldingsSound(ArchiveAsset(h, id, archived).value)
  {
    hide Sound, Infrastructure, Accounts.Extends;
    ArchiveAssetKeepsTheLedger(h, id, archived);
  }

  // ----- repeated requests

  /**
   On any later holdings a used key returns the valuation it made and changes nothing exactly when the market value
   is acceptable and the asset is still active in the functional currency: those are checked before the key.
   */
  lemma {:induction false} RetryReplaysExactlyWhenActive(
      later: Holdings, id: nat, asset: nat, market: string, day: Day, key: Key)
    requires ValuationsSound(later.assets, later.valuations)
    requires id < |later.valuations| && later.valuations[id].key == key
    ensures CreateValuation(later, asset, market, day, key) == Ok(Created(later, id)) <==>
              && Money.Parse(market).Ok? && Money.Parse(market).value >= 0
              && asset in later.assets && !later.assets[asset].archived
              && later.assets[asset].currency == later.book.currency
  {
    hide Money.Parse, FindValuation, LatestDay, RecordValuation;
    SameKeySameRow(later, key, id);
  }

  lemma SameKeySameRow(h: Holdings, key: Key, id: nat)
    requires ValuationsSound(h.assets, h.valuations) && id < |h.valuations| && h.valuations[id].key == key
    ensures FindValuation(h.valuations, key) == Some(id)
  {
    var found := FindValuation(h.valuations, key);
    assert found.Some? && h.valuations[found.value].key == h.valuations[id].key;
  }

  /** An acceptable request is a conflict exactly when a valuation of the asset is dated later. */
  lemma {:induction false} OutOfOrderExactlyWhen(h: Holdings, asset: nat, market: string, day: Day, key: Key)
    requires Money.Parse(market).Ok? && Money.Parse(market).value >= 0
    requires asset in h.assets && !h.assets[asset].archived && h.assets[asset].currency == h.book.currency
    requires FindValuation(h.valuations, key).None?
    ensures CreateValuation(h, asset, market, day, key) == Err(Conflict)
            <==> exists i :: 0 <= i < |h.valuations| && h.valuations[i].asset == asset && day < h.valuations[i].day
  {
    hide Money.Parse, Money.NumericText, OwnedValue, Money.InRange;
  }
}
