/**
 One concrete state for each promise that holds only under a condition: the request is accepted and the promise fails.
 */
module Witnesses {
  import opened Prelude
  import opened Ledger
  import opened LedgerLaws
  import Calendar
  import Cursor
  import Digits
  import Fx
  import Money
  import Rates
  import Reconciling
  import ReconcilingLaws
  import Recurring
  import RecurringLaws
  import Rows = Accounts
  import Schedule
  import Valuation
  import Windows

  const EQUITY: nat := 0
  const BANK: nat := 1
  const INCOME: nat := 2
  const EXPENSE: nat := 3
  const GAINS: nat := 4
  const HOUSE: nat := 5
  const PERIOD: Day := 30

  function Accounts(): map<nat, Account> {
    map[EQUITY := Account(Class.Equity, OtherSubtype, System, 0, false),
        BANK := Account(Class.Asset, Bank, User, 0, false),
        INCOME := Account(Class.Income, OtherSubtype, System, 0, false),
        EXPENSE := Account(Class.Expense, OtherSubtype, System, 0, false),
        GAINS := Account(Class.Equity, OtherSubtype, System, 0, false),
        HOUSE := Account(Class.Asset, OtherSubtype, User, 0, false)]
  }

  function Systems(): map<SystemCode, nat> {
    map[OpeningEquity := EQUITY, OtherIncome := INCOME, OtherExpense := EXPENSE, UnrealizedGainLoss := GAINS]
  }

  /** Five units in the bank account since the period's end, posted with the given key. */
  function Opened(key: Key): Transaction {
    Transaction(OpeningBalance, PERIOD, key, None, None, [Entry(BANK, None, 5, 0), Entry(EQUITY, None, -5, 0)])
  }

  function ExampleBook(key: Key): Book {
    Book(Accounts(), map[], Systems(), 0, [Opened(key)])
  }

  lemma ExampleIsSound(key: Key)
    ensures Sound(ExampleBook(key)) && Infrastructure(ExampleBook(key))
    ensures FindKey(ExampleBook(key).log, key) == Some(0) && HasKey(ExampleBook(key), key)
    ensures !IsReversed(ExampleBook(key).log, 0) && !IsReplaced(ExampleBook(key).log, 0)
    ensures BalanceAt(ExampleBook(key).log, BANK, PERIOD) == 5 && BalanceAt(ExampleBook(key).log, HOUSE, PERIOD) == 0
  {
    hide Money.InRange;
    var t := Opened(key);
    TotalOfTwo(t.entries[0], t.entries[1]);
    BalanceOfOne(t, BANK, PERIOD);
    BalanceOfOne(t, HOUSE, PERIOD);
    assert Fits(Accounts(), [t][..0], t);
  }

  lemma {:induction false} SmallAmount(n: int)
    requires -100 < n < 100
    ensures Money.InRange(n) && Money.Parse(Money.String(n)) == Ok(n) && Money.Parse(Money.NumericText(n)) == Ok(n)
  {
    hide Money.Parse, Money.String, Money.NumericText, Digits.Pow;
    HundredIsSmall();
    Money.ParseOfString(n);
    Money.ParseOfNumericText(n);
  }

  lemma {:induction false} HundredIsSmall()
    ensures 100 <= Digits.Pow(10, 24)
  {
    assert Digits.Pow(10, 0) == 1 && Digits.Pow(10, 1) == 10;
    assert Digits.Pow(10, 2) == 100;
    Digits.PowGrows(10, 2, 24);
  }

  /** A reversal with a used key is accepted and reverses nothing. */
  lemma {:induction false} UsedReversalKey()
    ensures var book := ExampleBook(Supplied(0));
            && Sound(book) && |book.log| == 1
            && PostReversal(book, 0, Supplied(0)) == Ok(Posted(book, 0, true)) && !IsReversed(book.log, 0)
  {
    ExampleIsSound(Supplied(0));
  }

  function MoreMoney(key: Key): Operation {
    Operation(OpenAccount, PERIOD, Money.String(7), key, Some(BANK), None, None, None)
  }

  lemma {:induction false} MoreMoneyIsAccepted(replacing: Option<nat>)
    requires replacing.None? || replacing == Some(0)
    ensures var book := ExampleBook(Supplied(0));
            PostTypedOperation(book, MoreMoney(Supplied(1)), replacing)
            == Ok(Posted(book.(log := book.log + [Transaction(OpeningBalance, PERIOD, Supplied(1), None, replacing,
                                                              [Entry(BANK, None, 7, 0), Entry(EQUITY, None, -7, 0)])]),
                                                              1, false))
  {
    hide Money.Parse, Money.String, Money.InRange;
    ExampleIsSound(Supplied(0));
    SmallAmount(7);
    SmallAmount(-7);
    assert FindKey(ExampleBook(Supplied(0)).log, Supplied(1)).None? by {
      assert FindKey(ExampleBook(Supplied(0)).log[..0], Supplied(1)).None?;
    }
  }

  /** A correction with a used reversal key posts the replacement and leaves the original standing. */
  lemma {:induction false} UsedCorrectionKey()
    ensures var book := ExampleBook(Supplied(0));
            && Sound(book)
            && match ReplaceTransaction(book, 0, Supplied(0), MoreMoney(Supplied(1)))
               case Ok(replaced) => IsReplaced(replaced.book.log, 0) && !IsReversed(replaced.book.log, 0)
               case Err(_) => false
  {
    hide Money.Parse, Money.String, PostTypedOperation, Sound;
    ExampleIsSound(Supplied(0));
    UsedReversalKey();
    MoreMoneyIsAccepted(Some(0));
    var replaced := ReplaceTransaction(ExampleBook(Supplied(0)), 0, Supplied(0), MoreMoney(Supplied(1))).value;
    assert replaced.book.log[1].replacementOf == Some(0);
  }

  /** An operation that is not repeatable any more once its account is archived. */
  lemma {:induction false} RetryAfterArchiving()
    ensures var book := PostTypedOperation(ExampleBook(Supplied(0)), MoreMoney(Supplied(1)), None);
            && book.Ok?
            && var later := book.value.book.(accounts := Accounts()[BANK := Accounts()[BANK].(archived := true)]);
            && HasKey(later, Supplied(1))
            && PostTypedOperation(later, MoreMoney(Supplied(1)), None) == Err(Conflict)
  {
    hide Money.Parse, Money.String, HeaderAccepted, EntriesAccepted;
    MoreMoneyIsAccepted(None);
    SmallAmount(7);
  }

  lemma {:induction false} AdjustmentWithUsedKey()
    ensures Reconciling.Adjust(ExampleBook(Supplied(0)), BANK, 0, PERIOD, 4, Supplied(0))
            == Ok(Reconciling.Adjusted(ExampleBook(Supplied(0)), Some(0)))
  {
    hide FindKey, HeaderAccepted, EntriesAccepted;
    ExampleIsSound(Supplied(0));
  }

  function BareDesk(book: Book): Reconciling.Desk {
    Reconciling.Desk(book, [], [], [])
  }

  lemma BareDeskIsSound(book: Book)
    requires Sound(book) && Infrastructure(book)
    ensures ReconcilingLaws.DeskSound(BareDesk(book))
  {
    hide Sound, Infrastructure;
  }

  lemma {:induction false} FirstReconciliation(
      book: Book, account: nat, period: Day, reported: int, balance: int, key: Key, id: Option<nat>)
    requires Reconciling.Adjust(book, account, 0, period, reported - balance, key) == Ok(Reconciling.Adjusted(book, id))
    requires Money.InRange(reported) && Money.InRange(balance) && Money.InRange(reported - balance)
    ensures match Reconciling.ApplyReconciliation(BareDesk(book), account, 0, period, reported, balance, None, key)
            case Ok(applied) => |applied.desk.reconciliations| == 1 && applied.desk.book == book
            case Err(_) => false
  {
    hide Money.InRange, Reconciling.Adjust;
  }

  /** A reconciliation with a key used in the ledger is recorded and leaves the balance as it was. */
  lemma {:induction false} UsedReconciliationKey()
    ensures ReconcilingLaws.DeskSound(BareDesk(ExampleBook(Supplied(0))))
    ensures match Reconciling.ApplyReconciliation(BareDesk(ExampleBook(Supplied(0))), BANK, 0, PERIOD, 9, 5, None,
                                                  Supplied(0))
            case Ok(applied) => |applied.desk.reconciliations| == 1
              && BalanceAt(applied.desk.book.log, BANK, PERIOD) == 5
            case Err(_) => false
  {
    hide Sound, Infrastructure, BalanceAt, HasKey, ExampleBook, Money.InRange, Reconciling.Adjust,
      ReconcilingLaws.DeskSound, Reconciling.ApplyReconciliation;
    ExampleIsSound(Supplied(0));
    BareDeskIsSound(ExampleBook(Supplied(0)));
    AdjustmentWithUsedKey();
    SmallAmount(9);
    SmallAmount(5);
    SmallAmount(4);
    FirstReconciliation(ExampleBook(Supplied(0)), BANK, PERIOD, 9, 5, Supplied(0), Some(0));
  }

  /** A valuation whose derived key is used is recorded and leaves the asset's balance as it was. */
  lemma {:induction false} UsedValuationKey()
    ensures var asset := Valuation.Asset.Asset(HOUSE, 10000, 0, false, Supplied(7));
            var h := Valuation.Holdings(ExampleBook(AssetRevaluation(0, Supplied(1))), map[0 := asset], []);
            && Valuation.HoldingsSound(h)
            && match Valuation.CreateValuation(h, 0, Money.String(9), PERIOD, Supplied(1))
               case Ok(created) =>
                 && |created.holdings.valuations| == 1 && created.holdings.valuations[0].owned == 9
                 && BalanceAt(created.holdings.book.log, HOUSE, PERIOD) == 0
               case Err(_) => false
  {
    hide Sound, Infrastructure, BalanceAt, FindKey, Money.InRange, Money.Parse, Money.String, Money.NumericText,
      Fx.Round;
    ExampleIsSound(AssetRevaluation(0, Supplied(1)));
    SmallAmount(9);
    SmallAmount(0);
    Fx.RoundOfMultiple(9, 10000);
  }

  /** A reconciliation of four units, later reversed by hand. */
  function ReversedDesk(): Reconciling.Desk {
    var entries := Reconciling.AdjustmentEntries(BANK, INCOME, 4, 0);
    var adjustment := Transaction(Kind.Reconciliation, PERIOD, Supplied(0), None, None, entries);
    Reconciling.Desk(
      Book(Accounts(), map[], Systems(), 0, [adjustment, ReversalFor([adjustment], 0, Supplied(1))]),
      [Reconciling.Reconciled(BANK, PERIOD, 4, 0, 4, 4, Some(0), None, None, Supplied(0), false)], [], [])
  }

  lemma {:induction false} AdjustedBookIsSound()
    ensures Sound(ReversedDesk().book.(log := ReversedDesk().book.log[..1]))
  {
    hide Money.InRange, Negated;
    var t := ReversedDesk().book.log[0];
    assert ReversedDesk().book.log[..1] == [t];
    TotalOfTwo(t.entries[0], t.entries[1]);
    assert t.entries == [t.entries[0], t.entries[1]];
    assert Fits(Accounts(), [t][..0], t);
  }

  lemma {:induction false} ReversedBookIsSound()
    ensures Sound(ReversedDesk().book) && Infrastructure(ReversedDesk().book) && IsReversed(ReversedDesk().book.log, 0)
  {
    hide Money.InRange, Sound;
    var book := ReversedDesk().book;
    var bare := book.(log := book.log[..1]);
    AdjustedBookIsSound();
    NegatedSums(book.log[0].entries, BANK);
    TotalOfTwo(book.log[0].entries[0], book.log[0].entries[1]);
    assert book.log[0].entries == [book.log[0].entries[0], book.log[0].entries[1]];
    assert bare.log[..0] == [];
    AppendIsSound(bare, book.log[1]);
    assert book == bare.(log := bare.log + [book.log[1]]);
    assert book.log[1].reversalOf == Some(0);
  }

  /** On a sound desk whose active adjustment was reversed by hand, the next reconciliation is refused. */
  lemma {:induction false} HandReversedPeriod()
    ensures ReconcilingLaws.DeskSound(ReversedDesk())
    ensures ReconcilingLaws.BlockedPeriod(ReversedDesk(), BANK, PERIOD)
    ensures Reconciling.ApplyReconciliation(ReversedDesk(), BANK, 0, PERIOD, 4, 0, Some(0), Supplied(2))
            == Err(Reconciling.Failed(Conflict))
  {
    hide Sound, Infrastructure, IsReversed, Negated, Reconciling.ApplyReconciliation;
    var desk := ReversedDesk();
    ReversedBookIsSound();
    assert ReconcilingLaws.RowLinked(desk.book.log, desk.reconciliations[0]);
    assert Reconciling.ActiveReconciliationId(desk.reconciliations, BANK, PERIOD) == Some(0);
    ReconcilingLaws.ConflictExactlyWhenBlocked(desk, BANK, 0, PERIOD, 4, 0, Supplied(2));
  }

  /** A loan overpaid by five counts for the net worth and for neither assets nor liabilities. */
  lemma {:induction false} OverpaidLoan()
    ensures Rates.TotalsOf([], [Rates.Balance(Rates.Liability, false, 0, 5)], 0, 0) == Rates.Totals(5, 0, 0, 0, map[])
  {
    var loan := [Rates.Balance(Rates.Liability, false, 0, 5)];
    assert loan[..0] == [];
  }

  /** A monthly transfer whose first date's key somebody has used. */
  function Standing(start: Calendar.Date): Recurring.Template {
    Recurring.Template(0, Move, Money.String(7), None, None, Some(BANK), Some(HOUSE), Schedule.Months, 1, start, start,
                       None, true, None, false)
  }

  function TakenWorld(start: Calendar.Date): Recurring.World {
    Recurring.World(map[0 := ExampleBook(Occurrence(0, Calendar.DayNumber(start)))], map[0 := Standing(start)], map[])
  }

  lemma {:induction false} TakenWorldIsSound(start: Calendar.Date)
    ensures RecurringLaws.WorldSound(TakenWorld(start))
  {
    hide Calendar.DayNumber, Schedule.Slot, Sound, Infrastructure;
    ExampleIsSound(Occurrence(0, Calendar.DayNumber(start)));
    Schedule.SlotZero(start, Schedule.Months, 1);
    var world := TakenWorld(start);
    assert RecurringLaws.OnSlot(world.occurrences, 0, world.templates[0], 0);
  }

  lemma TransferIsUsable(key: Key, day: Day, amount: string)
    ensures Usable(ExampleBook(key), Operation(Move, day, amount, key, None, None, Some(BANK), Some(HOUSE)))
  {
  }

  lemma {:induction false} TakenKeyReplays(start: Calendar.Date)
    ensures var book := ExampleBook(Occurrence(0, Calendar.DayNumber(start)));
            PostTypedOperation(book, Recurring.OperationFor(0, Standing(start)), None) == Ok(Posted(book, 0, true))
  {
    hide Money.Parse, Money.String, Calendar.DayNumber, Sound, PostTypedOperation, Usable, Infrastructure, BalanceAt,
      IsReversed, IsReplaced, HasKey, FindKey;
    var key := Occurrence(0, Calendar.DayNumber(start));
    ExampleIsSound(key);
    SmallAmount(7);
    TransferIsUsable(key, Calendar.DayNumber(start), Money.String(7));
    RetryReplaysExactlyWhenUsable(ExampleBook(key), Recurring.OperationFor(0, Standing(start)), None, 0);
  }

  /** The worker claims the date, moves on and posts nothing. */
  lemma {:induction false} UsedOccurrenceKey(start: Calendar.Date)
    ensures RecurringLaws.WorldSound(TakenWorld(start))
    ensures match Recurring.PostOccurrence(TakenWorld(start), 0)
            case Ok(after) => after.books == TakenWorld(start).books
              && (0, Calendar.DayNumber(start)) in after.occurrences
            case Err(_) => false
  {
    hide Calendar.DayNumber, Schedule.Next, RecurringLaws.WorldSound, PostTypedOperation, Recurring.OperationFor;
    TakenWorldIsSound(start);
    TakenKeyReplays(start);
    assert TakenWorld(start).books[0 := TakenWorld(start).books[0]] == TakenWorld(start).books;
  }

  /**
   A correction that reverses its original and posts nothing in its place: its operation's key is used, or both are
   the same.
   */
  lemma {:induction false} CorrectionWithoutReplacement(reversalKey: Key, key: Key)
    requires reversalKey != Supplied(0) && (key == Supplied(0) || key == reversalKey)
    ensures var book := ExampleBook(Supplied(0));
            && Sound(book)
            && match ReplaceTransaction(book, 0, reversalKey, MoreMoney(key))
               case Ok(replaced) =>
                 && replaced.replacement < |replaced.book.log| == 2
                 && !IsReplaced(replaced.book.log, 0) && StatusOf(replaced.book.log, 0) == ReversedStatus
               case Err(_) => false
  {
    hide Money.Parse, Money.String, Money.InRange, Sound, PostJournal, PostReversal, FindKey, IsReversed, IsReplaced,
      BalanceAt;
    var book := ExampleBook(Supplied(0));
    ExampleIsSound(Supplied(0));
    SmallAmount(7);
    ReversalOfExample(reversalKey);
    var reversed := PostReversal(book, 0, reversalKey).value.book;
    ReversalIsSound(book, 0, reversalKey);
    KeysAfterReversal(book, 0, reversalKey, key);
    UsedKeyReplays(reversed, key, Some(0));
    ReplacementShowsExactlyWhen(book, 0, reversalKey, MoreMoney(key));
  }

  lemma {:induction false} ReversalOfExample(reversalKey: Key)
    requires reversalKey != Supplied(0)
    ensures var book := ExampleBook(Supplied(0));
            && !HasKey(book, reversalKey)
            && PostReversal(book, 0, reversalKey)
               == Ok(Posted(book.(log := book.log + [ReversalFor(book.log, 0, reversalKey)]), 1, false))
  {
    hide Negated, HeaderAccepted, EntriesAccepted, FindKey, IsReversed, Sound, Infrastructure, BalanceAt;
    ExampleIsSound(Supplied(0));
    OtherKeyIsUnused(reversalKey);
    ReversalIsAccepted(reversalKey);
  }

  lemma OtherKeyIsUnused(key: Key)
    requires key != Supplied(0)
    ensures FindKey(ExampleBook(Supplied(0)).log, key).None?
  {
    assert FindKey(ExampleBook(Supplied(0)).log[..0], key).None?;
  }

  lemma ReversalEntries(reversalKey: Key)
    ensures ReversalFor([Opened(Supplied(0))], 0, reversalKey).entries
            == [Entry(BANK, None, -5, 0), Entry(EQUITY, None, 5, 0)]
  {
    hide Negated;
  }

  lemma {:induction false} FiveIsAccepted(kind: Kind)
    ensures EntryAccepted(Accounts(), map[], kind, Entry(BANK, None, -5, 0))
    ensures EntryAccepted(Accounts(), map[], kind, Entry(EQUITY, None, 5, 0))
  {
    hide Money.InRange, Money.Parse, Money.String, Money.NumericText;
    SmallAmount(5);
    SmallAmount(-5);
  }

  lemma {:induction false} ReversalIsAccepted(reversalKey: Key)
    ensures var book := ExampleBook(Supplied(0));
            var reversal := ReversalFor(book.log, 0, reversalKey);
            HeaderAccepted(book, reversal) && EntriesAccepted(book, reversal) && |reversal.entries| == 2
  {
    hide Negated, IsReversed, IsReplaced, FindKey, Sound, Infrastructure, BalanceAt, EntryAccepted;
    ExampleIsSound(Supplied(0));
    ReversalEntries(reversalKey);
    FiveIsAccepted(Reversal);
  }

  lemma {:induction false} UsedKeyReplays(book: Book, key: Key, replacing: Option<nat>)
    requires book.accounts == Accounts() && book.systems == Systems() && book.currency == 0 && HasKey(book, key)
    ensures PostTypedOperation(book, MoreMoney(key), replacing)
            == Ok(Posted(book, FindKey(book.log, key).value, true))
  {
    hide Money.Parse, Money.String, FindKey, HeaderAccepted, EntriesAccepted;
    SmallAmount(7);
  }

  /** An account created with a used opening key has no opening balance. */
  lemma {:induction false} UsedOpeningKey(id: nat)
    requires id > HOUSE
    ensures var account := Account(Class.Asset, Bank, User, 0, false);
            match Rows.CreateAccount(ExampleBook(Supplied(0)), id, account, Some(Rows.Opening(7, PERIOD, Supplied(0))))
            case Ok(book) => id in book.accounts && BalanceAt(book.log, id, PERIOD) == 0
            case Err(_) => false
  {
    hide FindKey, HeaderAccepted, EntriesAccepted, BalanceAt;
    ExampleIsSound(Supplied(0));
    var t := Opened(Supplied(0));
    TotalOfTwo(t.entries[0], t.entries[1]);
    BalanceOfOne(t, id, PERIOD);
  }

  /** A valuation that is not repeatable any more once its asset is archived. */
  lemma {:induction false} ValuationAfterArchiving()
    ensures var asset := Valuation.Asset.Asset(HOUSE, 10000, 0, false, Supplied(7));
            var h := Valuation.Holdings(ExampleBook(AssetRevaluation(0, Supplied(1))), map[0 := asset], []);
            match Valuation.CreateValuation(h, 0, Money.String(9), PERIOD, Supplied(1))
            case Ok(created) =>
              && Valuation.FindValuation(created.holdings.valuations, Supplied(1)) == Some(created.id)
              && (match Valuation.ArchiveAsset(created.holdings, 0, true)
                  case Ok(later) => Valuation.CreateValuation(later, 0, Money.String(9), PERIOD, Supplied(1))
                    == Err(Conflict)
                  case Err(_) => false)
            case Err(_) => false
  {
    hide Sound, Infrastructure, BalanceAt, FindKey, Money.InRange, Money.Parse, Money.String, Money.NumericText,
      Fx.Round;
    ExampleIsSound(AssetRevaluation(0, Supplied(1)));
    SmallAmount(9);
    SmallAmount(0);
    Fx.RoundOfMultiple(9, 10000);
  }

  /** A month back from 31 March is still in March. */
  lemma {:induction false} MonthBackFromMarch()
    ensures Calendar.Index(Windows.MonthBack(Calendar.Civil(2027, 3, 31)))
            == Calendar.Index(Calendar.Civil(2027, 3, 31))
  {
    hide Windows.MonthBack, Calendar.DaysIn, Calendar.MonthStart, Windows.ReconciliationWindow, Windows.MonthEnd;
    Calendar.DaysInMonth(2027, 2);
    Windows.MonthBackOverflowsExactlyWhen(Calendar.Civil(2027, 3, 31));
  }

  /** A cursor for a date in the year 10000 is refused. */
  lemma {:induction false} FiveDigitYear(id: nat)
    requires Cursor.IsUuid(id)
    ensures Cursor.DecodeLedgerCursor(Cursor.EncodeLedgerCursor(Calendar.Civil(10000, 1, 1), id))
            == Err(Cursor.InvalidCursor)
  {
    Cursor.CursorRoundTrip(Calendar.Civil(10000, 1, 1), id);
  }

  /** A reconciliation of four units, and a later posting that uses the key its superseding will derive. */
  function HeldDesk(): Reconciling.Desk {
    ReversedDesk().(book := ReversedDesk().book.(
      log := [ReversedDesk().book.log[0], Opened(ReconciliationReversal(0, Supplied(2)))]))
  }

  lemma {:induction false} HeldBookIsSound()
    ensures Sound(HeldDesk().book) && Infrastructure(HeldDesk().book) && !IsReversed(HeldDesk().book.log, 0)
    ensures BalanceAt(HeldDesk().book.log, BANK, PERIOD) == 9
  {
    hide Money.InRange, Sound, Negated, BalanceAt;
    var book := HeldDesk().book;
    var bare := book.(log := book.log[..1]);
    AdjustedBookIsSound();
    assert book.log[..1] == ReversedDesk().book.log[..1];
    TotalOfTwo(book.log[0].entries[0], book.log[0].entries[1]);
    TotalOfTwo(book.log[1].entries[0], book.log[1].entries[1]);
    assert bare.log[..0] == [];
    AppendIsSound(bare, book.log[1]);
    assert book == bare.(log := bare.log + [book.log[1]]);
    BalanceOfAppend([book.log[0]], [book.log[1]], BANK, PERIOD);
    assert book.log == [book.log[0]] + [book.log[1]];
    BalanceOfOne(book.log[0], BANK, PERIOD);
    BalanceOfOne(book.log[1], BANK, PERIOD);
  }

  lemma {:induction false} HeldDeskIsSound()
    ensures ReconcilingLaws.DeskSound(HeldDesk())
  {
    hide Sound, Infrastructure, IsReversed, Negated;
    HeldBookIsSound();
    assert ReconcilingLaws.RowLinked(HeldDesk().book.log, HeldDesk().reconciliations[0]);
  }

  /** On a sound desk: superseding with a used derived key marks the row and leaves its adjustment unreversed. */
  lemma {:induction false} UsedSupersedingKey()
    ensures ReconcilingLaws.DeskSound(HeldDesk())
    ensures match Reconciling.ApplyReconciliation(HeldDesk(), BANK, 0, PERIOD, 9, 9, Some(0), Supplied(2))
            case Ok(applied) =>
              && |applied.desk.reconciliations| == 2 && applied.desk.reconciliations[0].superseded
              && !IsReversed(applied.desk.book.log, 0)
            case Err(_) => false
  {
    hide Sound, Infrastructure, IsReversed, Negated, BalanceAt, Money.Parse, Money.NumericText, Money.InRange,
      ReconcilingLaws.DeskSound, FindKey;
    HeldDeskIsSound();
    HeldBookIsSound();
    var book := HeldDesk().book;
    SmallAmount(9);
    SmallAmount(0);
    DerivedKeyIsUsed();
    assert PostReversal(book, 0, ReconciliationReversal(0, Supplied(2))) == Ok(Posted(book, 1, true));
  }

  lemma DerivedKeyIsUsed()
    ensures FindKey(HeldDesk().book.log, ReconciliationReversal(0, Supplied(2))) == Some(1)
  {
  }

  /** The user's other account is given another currency: a legal edit, as it has no postings. */
  lemma {:induction false} HouseTakesAnotherCurrency()
    ensures var book := ExampleBook(Supplied(0));
            Rows.UpdateAccount(book, HOUSE, Some(1), None, false)
            == Ok(book.(accounts := book.accounts[HOUSE := Account(Class.Asset, OtherSubtype, User, 1, false)]))
  {
    assert forall i :: 0 <= i < |ExampleBook(Supplied(0)).log| ==>
      ExampleBook(Supplied(0)).log[i] == Opened(Supplied(0));
  }

  /**
   One user's edit of an account stops the generation for everybody: the transfer's accounts passed their check and
   its template stays active, and every run that comes to it fails, whatever else is due.
   */
  lemma {:induction false} CurrencyEditBlocksTheRun(
      others: Recurring.World, start: Calendar.Date, clock: nat -> Calendar.Date, batchSize: int, rest: seq<nat>)
    requires !Calendar.After(start, clock(0))
    ensures var book := ExampleBook(Supplied(0));
            && Recurring.Dependencies(book, Standing(start)) == Ok(())
            && match Rows.UpdateAccount(book, HOUSE, Some(1), None, false)
               case Ok(edited) =>
                 && Recurring.PauseFor(book, edited, Standing(start)).active
                 && var world := Recurring.World(others.books[0 := edited], others.templates[0 := Standing(start)],
                                                 others.occurrences);
                    Recurring.GenerateRecurring(world, clock, batchSize, true, [0] + rest) == Err(FxUnavailable)
               case Err(_) => false
  {
    hide Calendar.After, Calendar.DayNumber, Money.Parse, Money.String, PostTypedOperation, Rows.UpdateAccount,
      Recurring.RunTemplate, ExampleBook;
    HouseTakesAnotherCurrency();
    StandingIsDependable(start);
    var book := ExampleBook(Supplied(0));
    var edited := book.(accounts := book.accounts[HOUSE := Account(Class.Asset, OtherSubtype, User, 1, false)]);
    var world := Recurring.World(others.books[0 := edited], others.templates[0 := Standing(start)], others.occurrences);
    StandingFails(world, start, clock(0), Recurring.BatchOf(batchSize));
  }

  lemma StandingIsDependable(start: Calendar.Date)
    ensures var book := ExampleBook(Supplied(0));
            && Recurring.Dependencies(book, Standing(start)) == Ok(())
            && BANK in book.accounts && HOUSE in book.accounts && !book.accounts[BANK].archived
  {
    hide Money.String;
  }

  lemma {:induction false} StandingIsRefused(book: Book, start: Calendar.Date)
    requires var before := ExampleBook(Supplied(0));
             book
             == before.(accounts := before.accounts[HOUSE := Account(Class.Asset, OtherSubtype, User, 1, false)])
    ensures PostTypedOperation(book, Recurring.OperationFor(0, Standing(start)), None) == Err(FxUnavailable)
  {
    hide Calendar.DayNumber, Money.Parse, Money.String, Money.InRange, Money.NumericText, PostJournal;
    SmallAmount(7);
  }

  lemma {:induction false} StandingFails(
      world: Recurring.World, start: Calendar.Date, today: Calendar.Date, budget: nat)
    requires 0 in world.templates && world.templates[0] == Standing(start) && 0 in world.books
    requires var book := ExampleBook(Supplied(0));
             world.books[0]
             == book.(accounts := book.accounts[HOUSE := Account(Class.Asset, OtherSubtype, User, 1, false)])
    requires !Calendar.After(start, today) && budget >= 1
    ensures Recurring.RunTemplate(world, 0, today, budget) == Err(FxUnavailable)
  {
    hide Calendar.After, Calendar.DayNumber, Money.String, Schedule.Next, PostTypedOperation, Recurring.OperationFor,
      ExampleBook;
    StandingIsRefused(world.books[0], start);
  }
}
