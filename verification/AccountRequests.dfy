/** Exactly which requests about accounts, categories and settings are accepted, and what they then store. */
module AccountRequests {
  import opened Prelude
  import opened Ledger
  import opened LedgerLaws
  import opened LedgerAcceptance
  import opened Accounts
  import Money

  /** The opening balance is in range, and opening equity takes it in the account's currency, unless its key replays. */
  ghost predicate CanOpen(book: Book, details: Account, opening: Opening) {
    && details.currency == book.currency && OpeningEquity in book.systems
    && (|| HasKey(book, opening.key)
        || (Money.InRange(opening.amount) && TakesEntries(book, SystemAccount(book, OpeningEquity))))
  }

  /**
   An account is created exactly as an active asset or liability of the user with an unused identifier, without an
   opening balance or with one that can be posted, and its row is as requested.
   */
  lemma {:induction false} CreatedExactlyWhen(book: Book, id: nat, details: Account, opening: Option<Opening>)
    requires Infrastructure(book)
    ensures CreateAccount(book, id, details, opening).Ok? <==>
              && details.role == User && !details.archived
              && (details.accountClass == Asset || details.accountClass == Liability)
              && id !in book.accounts
              && (opening.Some? && opening.value.amount != 0 ==> CanOpen(book, details, opening.value))
    ensures CreateAccount(book, id, details, opening).Ok? ==>
              var after := CreateAccount(book, id, details, opening).value;
              && after == book.(accounts := book.accounts[id := details], log := after.log) && book.log <= after.log
              && (forall i :: |book.log| <= i < |after.log| ==>
                    after.log[i].kind == OpeningBalance && after.log[i].day == opening.value.day)
  {
    hide Money.InRange, FindKey;
    if opening.Some? && opening.value.amount != 0 && id !in book.accounts && OpeningEquity in book.systems {
      var bare := book.(accounts := book.accounts[id := details]);
      var amount := opening.value.amount;
      var signed := if details.accountClass == Liability then -amount else amount;
      OppositeInRange(amount);
      TwoEntries(bare, Transaction(OpeningBalance, opening.value.day, opening.value.key, None, None,
        [Entry(id, None, signed, details.currency),
         Entry(book.systems[OpeningEquity], None, -signed, details.currency)]));
    }
  }

  /**
   An account's currency can be changed exactly until the first posting and the first snapshot; archiving and taking
   back always work. Only what is asked for changes.
   */
  lemma {:induction false} EditedExactlyWhen(
      book: Book, id: nat, currency: Option<nat>, archived: Option<bool>, hasSnapshot: bool)
    ensures UpdateAccount(book, id, currency, archived, hasSnapshot).Ok? <==>
              && id in book.accounts && book.accounts[id].role == User
              && (currency.Some? && currency.value != book.accounts[id].currency ==>
                    !HasPostings(book, id) && !hasSnapshot)
    ensures UpdateAccount(book, id, currency, archived, hasSnapshot).Ok? ==>
              var after := UpdateAccount(book, id, currency, archived, hasSnapshot).value;
              && after.accounts.Keys == book.accounts.Keys
              && (forall a :: a in book.accounts && a != id ==> after.accounts[a] == book.accounts[a])
              && after.accounts[id] == book.accounts[id].(currency := after.accounts[id].currency,
                                                          archived := after.accounts[id].archived)
              && (currency.Some? ==> after.accounts[id].currency == currency.value)
              && (currency.None? ==> after.accounts[id].currency == book.accounts[id].currency)
              && (archived.Some? ==> after.accounts[id].archived == archived.value)
              && (archived.None? ==> after.accounts[id].archived == book.accounts[id].archived)
              && after == book.(accounts := after.accounts)
    ensures UpdateAccount(book, id, currency, archived, hasSnapshot).Err? ==>
              UpdateAccount(book, id, currency, archived, hasSnapshot).error
              == if id !in book.accounts || book.accounts[id].role != User then NotFound
                 else if HasPostings(book, id) then Conflict else Rejected
  {
    hide HasPostings;
  }

  /** A category gets an account of its own: of income for what comes in, of expense for what goes out. */
  lemma {:induction false} CategoryStored(book: Book, id: nat, account: nat, direction: Direction)
    ensures CreateCategory(book, id, account, direction).Ok? <==> id !in book.categories && account !in book.accounts
    ensures CreateCategory(book, id, account, direction).Ok? ==>
              var after := CreateCategory(book, id, account, direction).value;
              && after.categories == book.categories[id := after.categories[id]]
              && after.accounts == book.accounts[account := after.accounts[account]]
              && after == book.(categories := after.categories, accounts := after.accounts)
              && after.categories[id].account == account && after.categories[id].direction == direction
              && !after.categories[id].archived && !after.accounts[account].archived
              && after.accounts[account].role == CategoryRole && after.accounts[account].currency == book.currency
              && (direction == Incoming ==> after.accounts[account].accountClass == Income)
              && (direction == Outgoing ==> after.accounts[account].accountClass == Expense)
  {
  }

  /** A category can be archived and taken back at any time, and nothing else of it changes. */
  lemma CategoryArchived(book: Book, id: nat, archived: bool)
    ensures ArchiveCategory(book, id, archived).Ok? <==> id in book.categories
    ensures id in book.categories ==>
              var after := ArchiveCategory(book, id, archived).value;
              && after.categories.Keys == book.categories.Keys && after == book.(categories := after.categories)
              && after.categories[id].archived == archived
              && after.categories[id] == book.categories[id].(archived := archived)
              && (forall c :: c in book.categories && c != id ==> after.categories[c] == book.categories[c])
  {
  }

  /** A system account is created once, of its class and in the functional currency, and found from then on. */
  lemma {:induction false} SystemStored(book: Book, code: SystemCode, id: nat)
    ensures code in book.systems ==> EnsureSystem(book, code, id) == Ok(book)
    ensures code !in book.systems ==> (EnsureSystem(book, code, id).Ok? <==> id !in book.accounts)
    ensures code !in book.systems && id !in book.accounts ==>
              var after := EnsureSystem(book, code, id).value;
              && after.systems == book.systems[code := id] && after.accounts == book.accounts[id := after.accounts[id]]
              && after == book.(systems := after.systems, accounts := after.accounts)
              && after.accounts[id].role == System && !after.accounts[id].archived
              && after.accounts[id].currency == book.currency
              && match code
                 case OpeningEquity => after.accounts[id].accountClass == Equity
                 case UnrealizedGainLoss => after.accounts[id].accountClass == Equity
                 case OtherIncome => after.accounts[id].accountClass == Income
                 case OtherExpense => after.accounts[id].accountClass == Expense
  {
  }

  /** The functional currency can be changed exactly until the first posting. */
  lemma CurrencyExactlyWhen(book: Book, currency: nat)
    ensures ChangeCurrency(book, currency).Ok? <==> book.log == [] || currency == book.currency
    ensures ChangeCurrency(book, currency).Ok? ==> ChangeCurrency(book, currency).value == book.(currency := currency)
    ensures ChangeCurrency(book, currency).Err? ==> ChangeCurrency(book, currency).error == Conflict
  {
  }

  /** Each error of an account's creation has its reason. */
  lemma {:induction false} CreationRefusals(book: Book, id: nat, details: Account, opening: Option<Opening>)
    requires Infrastructure(book) && CreateAccount(book, id, details, opening).Err?
    ensures match CreateAccount(book, id, details, opening).error
            case Validation =>
              details.role != User || details.archived
              || (details.accountClass != Asset && details.accountClass != Liability)
            case FxUnavailable => details.currency != book.currency
            case Rejected => id in book.accounts || (opening.Some? && !CanOpen(book, details, opening.value))
            case NotFound => false
            case Conflict => false
  {
    hide Money.InRange, FindKey, HeaderAccepted, EntriesAccepted, TakesEntries, CanOpen;
    CreatedExactlyWhen(book, id, details, opening);
  }
}
