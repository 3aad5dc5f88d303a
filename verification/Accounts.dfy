/**
 Account, category and system rows: created and edited beside the ledger, never removed, and never changing what
 posted transactions refer to.
 */
module Accounts {
  import opened Prelude
  import opened Ledger
  import opened LedgerLaws

  datatype Opening = Opening(amount: int, day: Day, key: Key)

  /** Inserts the account and posts its opening balance, unless that is zero, in one step. */
  function CreateAccount(book: Book, id: nat, details: Account, opening: Option<Opening>): Result<Book, LedgerError> {
    if details.role != User || details.archived || (details.accountClass != Asset && details.accountClass != Liability)
      then Err(Validation)
    else if id in book.accounts then Err(Rejected)
    else
      var extended := book.(accounts := book.accounts[id := details]);
      if opening.None? || opening.value.amount == 0 then Ok(extended)
      else if details.currency != book.currency then Err(FxUnavailable)
      else
        var posted :- PostOpeningBalance(extended, id, opening.value.amount, opening.value.day, opening.value.key);
        Ok(posted.book)
  }

  predicate HasPostings(book: Book, account: nat) {
    exists i :: 0 <= i < |book.log|
      && exists j :: 0 <= j < |book.log[i].entries| && book.log[i].entries[j].account == account
  }

  /** The currency is locked by the first posting, and by a balance snapshot that refers to it. */
  function UpdateAccount(
      book: Book, id: nat, currency: Option<nat>, archived: Option<bool>, hasSnapshot: bool): Result<Book, LedgerError>
  {
    if id !in book.accounts || book.accounts[id].role != User then Err(NotFound)
    else
      var row := book.accounts[id];
      var changes := currency.Some? && currency.value != row.currency;
      if changes && HasPostings(book, id) then Err(Conflict)
      else if changes && hasSnapshot then Err(Rejected)
      else
        var edited := row.(currency := if currency.Some? then currency.value else row.currency,
                           archived := if archived.Some? then archived.value else row.archived);
        Ok(book.(accounts := book.accounts[id := edited]))
  }

  function CreateCategory(book: Book, id: nat, account: nat, direction: Direction): Result<Book, LedgerError> {
    if id in book.categories || account in book.accounts then Err(Rejected)
    else
      var kindOfAccount := if direction == Incoming then Income else Expense;
      var row := Account(kindOfAccount, OtherSubtype, CategoryRole, book.currency, false);
      Ok(book.(accounts := book.accounts[account := row],
               categories := book.categories[id := Category(direction, account, false)]))
  }

  function ArchiveCategory(book: Book, id: nat, archived: bool): Result<Book, LedgerError> {
    if id !in book.categories then Err(NotFound)
    else Ok(book.(categories := book.categories[id := book.categories[id].(archived := archived)]))
  }

  function ClassOf(code: SystemCode): Class {
    match code
    case OpeningEquity => Equity
    case UnrealizedGainLoss => Equity
    case OtherIncome => Income
    case OtherExpense => Expense
  }

  /** A system account is created once; later requests find it. */
  function EnsureSystem(book: Book, code: SystemCode, id: nat): Result<Book, LedgerError> {
    if code in book.systems then Ok(book)
    else if id in book.accounts then Err(Rejected)
    else
      Ok(book.(accounts := book.accounts[id := Account(ClassOf(code), OtherSubtype, System, book.currency, false)],
               systems := book.systems[code := id]))
  }

  /** The functional currency is locked by the user's first posting; rows that exist keep their own currency. */
  function ChangeCurrency(book: Book, currency: nat): Result<Book, LedgerError> {
    if book.log != [] && currency != book.currency then Err(Conflict) else Ok(book.(currency := currency))
  }

  // ----- what these keep

  /** Rows are added and edited in place; what identifies them, and every posting, stays. */
  ghost predicate Extends(before: Book, after: Book) {
    && before.log <= after.log && (before.log != [] ==> after.currency == before.currency)
    && before.accounts.Keys <= after.accounts.Keys
    && (forall a :: a in before.accounts ==>
          after.accounts[a].role == before.accounts[a].role
            && after.accounts[a].accountClass == before.accounts[a].accountClass)
    && before.systems.Keys <= after.systems.Keys
    && (forall code :: code in before.systems ==> after.systems[code] == before.systems[code])
    && before.categories.Keys <= after.categories.Keys
    && (forall c :: c in before.categories ==>
        after.categories[c] == before.categories[c].(archived := after.categories[c].archived))
  }

  lemma ExtendsTransitively(a: Book, b: Book, c: Book)
    requires Extends(a, b) && Extends(b, c)
    ensures Extends(a, c)
  {
  }

  lemma GrowthExtends(before: Book, after: Book)
    requires Grows(before, after)
    ensures Extends(before, after)
  {
    assert after.log[..|before.log|] == before.log;
  }

  lemma {:induction false} RowsStaySound(before: Book, after: Book)
    requires Sound(before) && Extends(before, after) && after.log == before.log
    ensures Sound(after)
  {
    hide Total, Undoes;
    forall i | 0 <= i < |after.log|
      ensures Fits(after.accounts, after.log[..i], after.log[i])
    {
      assert Fits(before.accounts, before.log[..i], before.log[i]);
    }
  }

  /** A new account keeps the ledger sound and its infrastructure apart from user accounts. */
  lemma {:induction false} CreateAccountIsSound(book: Book, id: nat, details: Account, opening: Option<Opening>)
    requires Sound(book) && CreateAccount(book, id, details, opening).Ok?
    ensures var after := CreateAccount(book, id, details, opening).value;
            && Sound(after) && Extends(book, after) && AppendsPlainly(book.log, after.log)
            && (Infrastructure(book) ==> Infrastructure(after))
            && id !in book.accounts && id in after.accounts && after.accounts[id] == details
  {
    hide Sound, PostOpeningBalance;
    var extended := book.(accounts := book.accounts[id := details]);
    RowsStaySound(book, extended);
    if opening.Some? && opening.value.amount != 0 {
      OpeningBalanceIsSound(extended, id, opening.value.amount, opening.value.day, opening.value.key);
      GrowthExtends(extended, CreateAccount(book, id, details, opening).value);
    }
  }

  /** The opening balance is posted exactly when it is not zero and its key was unused; no other balance moves. */
  lemma {:induction false} CreateAccountPostsExactlyWhenKeyFresh(
      book: Book, id: nat, details: Account, opening: Opening, other: nat, at: Day)
    requires Sound(book) && opening.amount != 0 && CreateAccount(book, id, details, Some(opening)).Ok?
    ensures var after := CreateAccount(book, id, details, Some(opening)).value;
            && (after.log == book.log <==> HasKey(book, opening.key))
            && (!HasKey(book, opening.key) ==>
                  var equity := SystemAccount(book, OpeningEquity);
                  BalanceAt(after.log, other, at) == BalanceAt(book.log, other, at)
                    + (if details.accountClass == Liability
                       then Flow(Some(id), equity, opening.amount, opening.day, other, at)
                       else Flow(equity, Some(id), opening.amount, opening.day, other, at)))
  {
    hide Sound, Flow, Extends, PostOpeningBalance;
    var extended := book.(accounts := book.accounts[id := details]);
    assert Extends(book, extended) by {
      RowAddedExtends(book, id, details);
    }
    RowsStaySound(book, extended);
    OpeningPostsExactly(extended, id, opening);
    if !HasKey(book, opening.key) {
      OpeningBalanceMovesAmount(extended, id, opening.amount, opening.day, opening.key, other, at);
    }
  }

  lemma RowAddedExtends(book: Book, id: nat, details: Account)
    requires id !in book.accounts
    ensures Extends(book, book.(accounts := book.accounts[id := details]))
  {
  }

  lemma OpeningPostsExactly(book: Book, id: nat, opening: Opening)
    requires PostOpeningBalance(book, id, opening.amount, opening.day, opening.key).Ok?
    ensures PostOpeningBalance(book, id, opening.amount, opening.day, opening.key).value.book.log == book.log
            <==> HasKey(book, opening.key)
  {
    hide HeaderAccepted, EntriesAccepted;
  }

  lemma {:induction false} UpdateAccountIsSound(
      book: Book, id: nat, currency: Option<nat>, archived: Option<bool>, hasSnapshot: bool)
    requires Sound(book) && UpdateAccount(book, id, currency, archived, hasSnapshot).Ok?
    ensures var after := UpdateAccount(book, id, currency, archived, hasSnapshot).value;
            && Sound(after) && Extends(book, after) && after.log == book.log
            && (Infrastructure(book) ==> Infrastructure(after))
  {
    hide Sound, HasPostings;
    RowsStaySound(book, UpdateAccount(book, id, currency, archived, hasSnapshot).value);
  }

  lemma {:induction false} CreateCategoryIsSound(book: Book, id: nat, account: nat, direction: Direction)
    requires Sound(book) && CreateCategory(book, id, account, direction).Ok?
    ensures var after := CreateCategory(book, id, account, direction).value;
            && Sound(after) && Extends(book, after) && after.log == book.log
            && (Infrastructure(book) ==> Infrastructure(after))
  {
    hide Sound;
    RowsStaySound(book, CreateCategory(book, id, account, direction).value);
  }

  lemma {:induction false} ArchiveCategoryIsSound(book: Book, id: nat, archived: bool)
    requires Sound(book) && ArchiveCategory(book, id, archived).Ok?
    ensures var after := ArchiveCategory(book, id, archived).value;
            && Sound(after) && Extends(book, after) && after.log == book.log
            && (Infrastructure(book) ==> Infrastructure(after))
  {
    hide Sound;
    RowsStaySound(book, ArchiveCategory(book, id, archived).value);
  }

  lemma {:induction false} EnsureSystemIsSound(book: Book, code: SystemCode, id: nat)
    requires Sound(book) && EnsureSystem(book, code, id).Ok?
    ensures var after := EnsureSystem(book, code, id).value;
            && Sound(after) && Extends(book, after) && after.log == book.log
            && (Infrastructure(book) ==> Infrastructure(after))
            && code in after.systems
  {
    hide Sound;
    RowsStaySound(book, EnsureSystem(book, code, id).value);
  }

  lemma {:induction false} ChangeCurrencyIsSound(book: Book, currency: nat)
    requires Sound(book) && ChangeCurrency(book, currency).Ok?
    ensures var after := ChangeCurrency(book, currency).value;
            && Sound(after) && Extends(book, after) && after.log == book.log
            && (Infrastructure(book) ==> Infrastructure(after))
  {
    hide Sound;
    RowsStaySound(book, ChangeCurrency(book, currency).value);
  }
}
