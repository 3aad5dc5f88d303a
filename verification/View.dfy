/** Reading a posted transaction back as the operation a user entered. */
module View {
  import opened Prelude
  import opened Ledger
  import LedgerLaws
  import Money

  datatype TransactionView = TransactionView(
    kind: Kind,
    day: Day,
    status: Status,
    primary: nat,
    currency: nat,
    amount: string,
    counterparty: Option<nat>,
    category: Option<nat>)

  predicate IsUserEntry(accounts: map<nat, Account>, e: Entry) {
    e.account in accounts && accounts[e.account].role == User
  }

  /** The rows of a transaction as the query may return them: user accounts first, otherwise in any order. */
  ghost predicate ReadOrder(accounts: map<nat, Account>, entries: seq<Entry>, rows: seq<Entry>) {
    && multiset(rows) == multiset(entries)
    && forall i, j :: 0 <= i < j < |rows| && IsUserEntry(accounts, rows[j]) ==> IsUserEntry(accounts, rows[i])
  }

  function UserEntries(accounts: map<nat, Account>, rows: seq<Entry>): seq<Entry> {
    if rows == [] then []
    else
      var last := rows[|rows| - 1];
      UserEntries(accounts, rows[..|rows| - 1]) + (if IsUserEntry(accounts, last) then [last] else [])
  }

  function LastCategory(rows: seq<Entry>): Option<nat> {
    if rows == [] then None
    else if rows[|rows| - 1].category.Some? then rows[|rows| - 1].category
    else LastCategory(rows[..|rows| - 1])
  }

  predicate HasMinus(amount: int) {
    var text := Money.NumericText(amount);
    text != "" && text[0] == '-'
  }

  predicate WantsNegative(kind: Kind) {
    kind == ExpenseKind || kind == Transfer || kind == AssetPurchase
  }

  /** The first entry with the wanted sign, or the first entry of all. */
  function PrimaryIndex(users: seq<Entry>, wantNegative: bool, from: nat): (index: nat)
    requires from <= |users|
    ensures users != [] ==> index < |users|
    decreases |users| - from
  {
    if from == |users| then 0
    else if HasMinus(users[from].amount) == wantNegative then from
    else PrimaryIndex(users, wantNegative, from + 1)
  }

  /** The amount text of the primary entry without its sign. */
  function DisplayAmount(amount: int): Result<string, LedgerError> {
    match Money.Parse(Money.NumericText(amount))
    case Err(_) => Err(Rejected)
    case Ok(parsed) => Ok(Money.String(if parsed > 0 then parsed else -parsed))
  }

  function Show(book: Book, id: nat, rows: seq<Entry>): Result<TransactionView, LedgerError> {
    if id >= |book.log| then Err(NotFound)
    else
      var users := UserEntries(book.accounts, rows);
      if users == [] then Err(Rejected)
      else
        var kind := book.log[id].kind;
        var index := PrimaryIndex(users, WantsNegative(kind), 0);
        var amount :- DisplayAmount(users[index].amount);
        Ok(TransactionView(kind, book.log[id].day, StatusOf(book.log, id), users[index].account, users[index].currency,
                           amount, if |users| == 1 then None else Some(users[if index == 0 then 1 else 0].account),
                           LastCategory(rows)))
  }

  method GetTransaction(book: Book, id: nat, rows: seq<Entry>) returns (result: Result<TransactionView, LedgerError>)
    ensures result == Show(book, id, rows)
  {
    hide HasMinus, DisplayAmount, StatusOf, IsUserEntry;
    if id >= |book.log| {
      return Err(NotFound);
    }
    var kind := book.log[id].kind;
    var category: Option<nat> := None;
    var userEntries: seq<Entry> := [];
    for i := 0 to |rows|
      invariant userEntries == UserEntries(book.accounts, rows[..i])
      invariant category == LastCategory(rows[..i])
    {
      assert rows[..i + 1][..i] == rows[..i];
      if rows[i].category.Some? {
        category := rows[i].category;
      }
      if IsUserEntry(book.accounts, rows[i]) {
        userEntries := userEntries + [rows[i]];
      }
    }
    assert rows[..|rows|] == rows;
    if |userEntries| == 0 {
      return Err(Rejected);
    }
    var primaryIndex := 0;
    var wantNegative := kind == ExpenseKind || kind == Transfer || kind == AssetPurchase;
    var index := 0;
    while index < |userEntries|
      invariant 0 <= index <= |userEntries| && primaryIndex == 0
      invariant PrimaryIndex(userEntries, wantNegative, index) == PrimaryIndex(userEntries, wantNegative, 0)
    {
      if HasMinus(userEntries[index].amount) == wantNegative {
        primaryIndex := index;
        break;
      }
      index := index + 1;
    }
    assert primaryIndex == PrimaryIndex(userEntries, wantNegative, 0);
    var primary := userEntries[primaryIndex];
    var amount := DisplayAmount(primary.amount);
    if amount.Err? {
      return Err(amount.error);
    }
    var counterparty: Option<nat> := None;
    for i := 0 to |userEntries|
      invariant counterparty.None? && i <= 1 && (i == 1 ==> primaryIndex == 0)
    {
      if i != primaryIndex {
        counterparty := Some(userEntries[i].account);
        break;
      }
    }
    return Ok(TransactionView(kind, book.log[id].day, StatusOf(book.log, id), primary.account, primary.currency,
                              amount.value, counterparty, category));
  }

  // ----- posting and viewing

  lemma {:induction false} MinusIsNegative(amount: int)
    ensures HasMinus(amount) <==> amount < 0
  {
    Money.PadKeepsValue(Money.Abs(amount));
  }

  lemma {:induction false} TwoRows(a: Entry, b: Entry, rows: seq<Entry>)
    requires multiset(rows) == multiset([a, b])
    ensures rows == [a, b] || rows == [b, a]
  {
    assert |rows| == |multiset(rows)| == 2;
    assert rows == [rows[0], rows[1]];
    assert multiset(rows) == multiset{rows[0], rows[1]} && multiset([a, b]) == multiset{a, b};
    assert rows[0] in multiset{a, b} && rows[1] in multiset{a, b};
    if rows[0] == a {
      assert multiset(rows) - multiset{a} == multiset{rows[1]};
      assert multiset([a, b]) - multiset{a} == multiset{b};
      assert rows[1] in multiset{b};
    } else {
      assert rows[0] == b;
      assert multiset(rows) - multiset{b} == multiset{rows[1]};
      assert multiset([a, b]) - multiset{b} == multiset{a};
      assert rows[1] in multiset{a};
    }
  }

  lemma {:induction false} UserEntriesOfTwo(accounts: map<nat, Account>, a: Entry, b: Entry)
    ensures UserEntries(accounts, [a, b])
            == (if IsUserEntry(accounts, a) then [a] else []) + (if IsUserEntry(accounts, b) then [b] else [])
    ensures LastCategory([a, b]) == if b.category.Some? then b.category else a.category
  {
    assert [a][..0] == [] && [a, b][..1] == [a];
    assert UserEntries(accounts, [a]) == if IsUserEntry(accounts, a) then [a] else [];
    assert LastCategory([a]) == a.category;
  }

  /** The signed entries of an accepted operation: the user's side first. */
  lemma {:induction false} PostedPair(book: Book, op: Operation, replacing: Option<nat>)
    requires LedgerLaws.Sound(book) && LedgerLaws.Infrastructure(book)
    requires PostTypedOperation(book, op, replacing).Ok? && !HasKey(book, op.key)
    ensures var after := PostTypedOperation(book, op, replacing).value.book;
            var amount := Money.Parse(op.amount);
            && amount.Ok? && amount.value > 0 && Money.InRange(amount.value)
            && |after.log| == |book.log| + 1 && after == book.(log := after.log)
            && after.log[..|book.log|] == book.log
            && var t := after.log[|book.log|];
            && t.kind == KindOf(op.kind) && t.day == op.day && |t.entries| == 2
            && var a, b := t.entries[0], t.entries[1];
            && t.entries == [a, b]
            && a.category == None && a.amount == -b.amount && a.currency == book.currency
            && IsUserEntry(book.accounts, a)
            && (op.kind.Move? || op.kind.Buy? ==>
                  && Some(a.account) == op.source && Some(b.account) == op.destination && b.category == None
                  && IsUserEntry(book.accounts, b) && a.amount == -amount.value)
            && (op.kind.OpenAccount? || op.kind.Earn? || op.kind.Spend? ==>
                  && Some(a.account) == op.account && !IsUserEntry(book.accounts, b)
                  && b.category == (if op.kind.OpenAccount? then None else op.category)
                  && Money.Abs(a.amount) == amount.value)
  {
    hide LedgerLaws.Sound, Money.Parse, Money.InRange, PostJournal, FindKey;
    LedgerLaws.TypedOperationIsSound(book, op, replacing);
    Money.ParseInRange(op.amount);
    var amount := Money.Parse(op.amount).value;
    var entries := OperationEntries(book, op, amount, book.systems[OpeningEquity]);
    PostedEntries(book, Transaction(KindOf(op.kind), op.day, op.key, None, replacing, entries.value));
  }

  lemma PostedEntries(book: Book, t: Transaction)
    requires PostJournal(book, t).Ok? && !HasKey(book, t.key)
    ensures PostJournal(book, t).value.book == book.(log := book.log + [t])
  {
  }

  /**
   Posting and viewing undo each other: whatever order the entries are read in, the view shows the operation's
   type, date, canonical amount, accounts and category.
   */
  lemma {:induction false} ViewShowsOperation(book: Book, op: Operation, replacing: Option<nat>, rows: seq<Entry>)
    requires LedgerLaws.Sound(book) && LedgerLaws.Infrastructure(book)
    requires PostTypedOperation(book, op, replacing).Ok? && !HasKey(book, op.key)
    requires var after := PostTypedOperation(book, op, replacing).value.book;
             |after.log| > |book.log| && ReadOrder(book.accounts, after.log[|book.log|].entries, rows)
    ensures var after := PostTypedOperation(book, op, replacing).value.book;
            var view := Show(after, |book.log|, rows);
            var between := op.kind.Move? || op.kind.Buy?;
            && view.Ok? && Money.Parse(op.amount).Ok?
            && view.value.kind == KindOf(op.kind) && view.value.day == op.day
            && view.value.amount == Money.String(Money.Parse(op.amount).value)
            && view.value.currency == book.currency
            && Some(view.value.primary) == (if between then op.source else op.account)
            && view.value.counterparty == (if between then op.destination else None)
            && view.value.category == (if op.kind.Earn? || op.kind.Spend? then op.category else None)
  {
    hide PostTypedOperation, LedgerLaws.Sound, Money.Parse, Money.InRange, Money.String, Show, IsUserEntry;
    PostedPair(book, op, replacing);
    var after := PostTypedOperation(book, op, replacing).value.book;
    var t := after.log[|book.log|];
    var a, b := t.entries[0], t.entries[1];
    var amount := Money.Parse(op.amount).value;
    InRangeIsSymmetric(a.amount, amount);
    if op.kind.Move? || op.kind.Buy? {
      ShowBetween(after, |book.log|, a, b, rows);
    } else {
      ShowSingle(after, |book.log|, a, b, rows);
    }
  }

  lemma {:induction false} Displayed(amount: int)
    requires Money.InRange(amount)
    ensures DisplayAmount(amount) == Ok(Money.String(Money.Abs(amount)))
  {
    hide Money.Parse, Money.NumericText, Money.String, Money.InRange;
    Money.ParseOfNumericText(amount);
  }

  /** One user account: it is the primary account whatever the sign. */
  lemma {:induction false} ShowSingle(book: Book, id: nat, a: Entry, b: Entry, rows: seq<Entry>)
    requires id < |book.log| && ReadOrder(book.accounts, [a, b], rows)
    requires IsUserEntry(book.accounts, a) && !IsUserEntry(book.accounts, b)
    requires a.category == None && Money.InRange(a.amount)
    ensures Show(book, id, rows) ==
            Ok(TransactionView(book.log[id].kind, book.log[id].day, StatusOf(book.log, id), a.account, a.currency,
                               Money.String(Money.Abs(a.amount)), None, b.category))
  {
    hide DisplayAmount, StatusOf, HasMinus, Money.InRange, IsUserEntry;
    TwoRows(a, b, rows);
    UserEntriesOfTwo(book.accounts, a, b);
    UserEntriesOfTwo(book.accounts, b, a);
    Displayed(a.amount);
    assert UserEntries(book.accounts, rows) == [a];
  }

  /** The sides of a posting between two user accounts: the first has the sign its type shows first. */
  ghost predicate OppositeSides(wantNegative: bool, a: Entry, b: Entry) {
    if wantNegative then a.amount < 0 < b.amount else b.amount < 0 < a.amount
  }

  lemma {:induction false} PrimaryOfTwo(wantNegative: bool, a: Entry, b: Entry, rows: seq<Entry>)
    requires OppositeSides(wantNegative, a, b) && (rows == [a, b] || rows == [b, a])
    ensures var index := PrimaryIndex(rows, wantNegative, 0);
            index < 2 && rows[index] == a && rows[if index == 0 then 1 else 0] == b
  {
    hide HasMinus;
    MinusIsNegative(a.amount);
    MinusIsNegative(b.amount);
    assert HasMinus(rows[0].amount) == wantNegative <==> rows == [a, b];
    assert PrimaryIndex(rows, wantNegative, 0) == if rows == [a, b] then 0 else PrimaryIndex(rows, wantNegative, 1);
  }

  /** Two user accounts: the side with the wanted sign is the primary one, and the other is the counterparty. */
  lemma {:induction false} ShowBetween(book: Book, id: nat, a: Entry, b: Entry, rows: seq<Entry>)
    requires id < |book.log| && OppositeSides(WantsNegative(book.log[id].kind), a, b)
             && ReadOrder(book.accounts, [a, b], rows)
    requires IsUserEntry(book.accounts, a) && IsUserEntry(book.accounts, b)
    requires a.category == None && b.category == None && Money.InRange(a.amount)
    ensures Show(book, id, rows) ==
            Ok(TransactionView(book.log[id].kind, book.log[id].day, StatusOf(book.log, id), a.account, a.currency,
                               Money.String(Money.Abs(a.amount)), Some(b.account), None))
  {
    hide DisplayAmount, StatusOf, HasMinus, Money.InRange, IsUserEntry, WantsNegative, OppositeSides, PrimaryIndex;
    TwoRows(a, b, rows);
    UserEntriesOfTwo(book.accounts, a, b);
    UserEntriesOfTwo(book.accounts, b, a);
    Displayed(a.amount);
    PrimaryOfTwo(WantsNegative(book.log[id].kind), a, b, rows);
    assert UserEntries(book.accounts, rows) == rows;
  }

  /**
   What every posting but a reversal looks like: two opposite entries, a user's account first, and a second user
   account only where money moves between the two.
   */
  ghost predicate Ordinary(accounts: map<nat, Account>, t: Transaction) {
    && |t.entries| == 2
    && var a, b := t.entries[0], t.entries[1];
    && IsUserEntry(accounts, a) && a.category == None && Money.InRange(a.amount) && a.amount == -b.amount
    && (IsUserEntry(accounts, b) ==> WantsNegative(t.kind) && a.amount < 0 && b.category == None)
  }

  /** An ordinary posting has a view, whatever order its entries are read in. */
  lemma {:induction false} OrdinaryShows(book: Book, id: nat, rows: seq<Entry>)
    requires id < |book.log| && Ordinary(book.accounts, book.log[id])
    requires ReadOrder(book.accounts, book.log[id].entries, rows)
    ensures var t := book.log[id]; var a, b := t.entries[0], t.entries[1];
            Show(book, id, rows) ==
            Ok(TransactionView(t.kind, t.day, StatusOf(book.log, id), a.account, a.currency,
                               Money.String(Money.Abs(a.amount)),
                               if IsUserEntry(book.accounts, b) then Some(b.account) else None, b.category))
  {
    hide Show, ReadOrder, StatusOf, Money.InRange, IsUserEntry, WantsNegative;
    var t := book.log[id];
    var a, b := t.entries[0], t.entries[1];
    assert t.entries == [a, b];
    if IsUserEntry(book.accounts, b) {
      ShowBetween(book, id, a, b, rows);
    } else {
      ShowSingle(book, id, a, b, rows);
    }
  }

  /**
   A reversal shows its original: the same primary account, counterparty, amount, currency, category and date, under
   the type and status of a reversal, for any two read orders.
   */
  lemma {:induction false} ReversalShowsOriginal(book: Book, id: nat, rows: seq<Entry>, originalRows: seq<Entry>)
    requires LedgerLaws.Sound(book) && id < |book.log| && book.log[id].reversalOf.Some?
    requires ReadOrder(book.accounts, book.log[id].entries, rows)
    requires book.log[id].reversalOf.value < |book.log|
    requires var original := book.log[id].reversalOf.value;
             Ordinary(book.accounts, book.log[original])
               && ReadOrder(book.accounts, book.log[original].entries, originalRows)
    ensures match (Show(book, id, rows), Show(book, book.log[id].reversalOf.value, originalRows))
            case (Ok(view), Ok(original)) =>
              view == original.(kind := Reversal, status := ReversalStatus)
            case _ => false
  {
    hide Show, ReadOrder, Money.InRange, IsUserEntry, IsReplaced, IsReversed;
    var t, original := book.log[id], book.log[id].reversalOf.value;
    var first, second := book.log[original].entries[0], book.log[original].entries[1];
    LedgerLaws.ReversalMirrors(book, id);
    var a, b := t.entries[0], t.entries[1];
    assert t.entries == [a, b];
    OrdinaryShows(book, original, originalRows);
    InRangeIsSymmetric(a.amount, first.amount);
    SameUserEntry(book.accounts, a, first);
    SameUserEntry(book.accounts, b, second);
    if IsUserEntry(book.accounts, b) {
      ShowBetween(book, id, a, b, rows);
    } else {
      ShowSingle(book, id, a, b, rows);
    }
  }

  lemma SameUserEntry(accounts: map<nat, Account>, a: Entry, b: Entry)
    requires a.account == b.account
    ensures IsUserEntry(accounts, a) <==> IsUserEntry(accounts, b)
  {
  }

  lemma InRangeIsSymmetric(a: int, b: int)
    requires Money.Abs(a) == Money.Abs(b)
    ensures Money.InRange(a) == Money.InRange(b)
  {
  }
}
