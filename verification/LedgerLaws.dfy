/** What every operation of the ledger keeps, and what a correction does to every balance. */
module LedgerLaws {
  import opened Prelude
  import opened Ledger
  import opened Sums
  import Money

  // ----- soundness of a book

  ghost predicate Known(accounts: map<nat, Account>, entries: seq<Entry>) {
    forall i :: 0 <= i < |entries| ==> entries[i].account in accounts
  }

  /** A reversal undoes an earlier transaction that is not itself a reversal: same day, opposite entries. */
  ghost predicate Undoes(log: seq<Transaction>, t: Transaction) {
    match t.reversalOf
    case None => t.kind != Reversal
    case Some(original) =>
      && t.kind == Reversal
      && original < |log|
      && log[original].kind != Reversal
      && t.day == log[original].day
      && t.entries == Negated(log[original].entries)
  }

  ghost predicate Fits(accounts: map<nat, Account>, log: seq<Transaction>, t: Transaction) {
    && |t.entries| >= 2 && Total(t.entries) == 0 && Known(accounts, t.entries)
    && Undoes(log, t)
    && (t.replacementOf.Some? ==> t.replacementOf.value < |log|)
  }

  ghost predicate AllFit(accounts: map<nat, Account>, log: seq<Transaction>) {
    forall i :: 0 <= i < |log| ==> Fits(accounts, log[..i], log[i])
  }

  ghost predicate UniqueKeys(log: seq<Transaction>) {
    forall i, j :: 0 <= i < j < |log| ==> log[i].key != log[j].key
  }

  ghost predicate UniqueReferences(log: seq<Transaction>) {
    && (forall i, j :: 0 <= i < j < |log| && log[i].reversalOf.Some? ==> log[i].reversalOf != log[j].reversalOf)
    && (forall i, j :: 0 <= i < j < |log| && log[i].replacementOf.Some? ==>
        log[i].replacementOf != log[j].replacementOf)
  }

  ghost predicate SoundLog(accounts: map<nat, Account>, log: seq<Transaction>) {
    AllFit(accounts, log) && UniqueKeys(log) && UniqueReferences(log)
  }

  ghost predicate Sound(book: Book) {
    SoundLog(book.accounts, book.log)
  }

  /** Nothing posted is changed or removed. */
  ghost predicate Grows(before: Book, after: Book) {
    && |before.log| <= |after.log|
    && after.log[..|before.log|] == before.log
    && after == before.(log := after.log)
  }

  /** Transactions appended, none of which replaces another. */
  ghost predicate AppendsPlainly(before: seq<Transaction>, after: seq<Transaction>) {
    before <= after && forall i :: |before| <= i < |after| ==> after[i].replacementOf.None?
  }

  ghost predicate GrowsPlainly(before: Book, after: Book) {
    Grows(before, after) && AppendsPlainly(before.log, after.log)
  }

  /** System and category accounts are not user accounts, as their creation and foreign keys arrange. */
  ghost predicate Infrastructure(book: Book) {
    && (forall code :: code in book.systems ==>
          book.systems[code] in book.accounts && book.accounts[book.systems[code]].role == System)
    && (forall c :: c in book.categories ==>
          book.categories[c].account in book.accounts && book.accounts[book.categories[c].account].role == CategoryRole)
  }

  lemma GrowsTransitively(a: Book, b: Book, c: Book)
    requires Grows(a, b) && Grows(b, c)
    ensures Grows(a, c)
  {
    assert c.log[..|a.log|] == c.log[..|b.log|][..|a.log|];
  }

  lemma AppendFits(accounts: map<nat, Account>, log: seq<Transaction>, t: Transaction)
    requires AllFit(accounts, log) && Fits(accounts, log, t)
    ensures AllFit(accounts, log + [t])
  {
    hide Fits;
    forall i | 0 <= i < |log + [t]|
      ensures Fits(accounts, (log + [t])[..i], (log + [t])[i])
    {
      assert (log + [t])[..i] == log[..i];
      assert log[..|log|] == log;
    }
  }

  lemma AppendKeepsUnique(book: Book, t: Transaction)
    requires UniqueKeys(book.log) && UniqueReferences(book.log)
    requires FindKey(book.log, t.key).None? && HeaderAccepted(book, t)
    ensures UniqueKeys(book.log + [t]) && UniqueReferences(book.log + [t])
  {
  }

  lemma AppendIsSound(book: Book, t: Transaction)
    requires Sound(book) && Fits(book.accounts, book.log, t)
    requires FindKey(book.log, t.key).None? && HeaderAccepted(book, t)
    ensures Sound(book.(log := book.log + [t])) && Grows(book, book.(log := book.log + [t]))
  {
    hide Fits, HeaderAccepted, FindKey, AllFit, UniqueKeys, UniqueReferences;
    AppendFits(book.accounts, book.log, t);
    AppendKeepsUnique(book, t);
  }

  /** postJournal keeps a book sound whenever its journal balances and, for a reversal, undoes its original. */
  lemma {:induction false} PostJournalIsSound(book: Book, t: Transaction)
    requires Sound(book)
    requires Total(t.entries) == 0 && Undoes(book.log, t)
    ensures var posted := PostJournal(book, t);
            posted.Ok? ==>
              && Sound(posted.value.book) && Grows(book, posted.value.book)
              && posted.value.id < |posted.value.book.log|
              && posted.value.book.log[posted.value.id].key == t.key
              && (posted.value.replayed <==> HasKey(book, t.key))
              && (posted.value.replayed ==> posted.value.book == book)
              && (!posted.value.replayed ==> posted.value.book.log == book.log + [t] && posted.value.id == |book.log|)
  {
    var posted := PostJournal(book, t);
    if posted.Ok? && !posted.value.replayed {
      assert Known(book.accounts, t.entries) by {
        forall i | 0 <= i < |t.entries|
          ensures t.entries[i].account in book.accounts
        {
          assert EntryAccepted(book.accounts, book.categories, t.kind, t.entries[i]);
        }
      }
      AppendIsSound(book, t);
    }
  }

  lemma {:induction false} PostJournalGrowsPlainly(book: Book, t: Transaction)
    requires Sound(book) && Total(t.entries) == 0 && Undoes(book.log, t) && t.replacementOf.None?
    ensures var posted := PostJournal(book, t);
            posted.Ok? ==> Sound(posted.value.book) && GrowsPlainly(book, posted.value.book)
  {
    hide Sound, Total, Undoes, PostJournal;
    PostJournalIsSound(book, t);
  }

  lemma GrowsPlainlyTransitively(a: Book, b: Book, c: Book)
    requires GrowsPlainly(a, b) && GrowsPlainly(b, c)
    ensures GrowsPlainly(a, c)
  {
    GrowsTransitively(a, b, c);
  }

  // ----- the journals of each operation balance

  lemma {:induction false} TotalOfTwo(a: Entry, b: Entry)
    ensures Total([a, b]) == a.amount + b.amount
    ensures forall account: nat ::
              Net([a, b], account)
              == (if a.account == account then a.amount else 0) + (if b.account == account then b.amount else 0)
  {
    assert [a][..0] == [] && Total([a]) == a.amount;
    assert [a, b][..1] == [a];
    forall account: nat
      ensures Net([a], account) == if a.account == account then a.amount else 0
    {
      assert Net([], account) == 0;
    }
  }

  lemma {:induction false} OperationBalances(book: Book, op: Operation, amount: int, equity: nat)
    ensures var entries := OperationEntries(book, op, amount, equity);
            entries.Ok? ==> |entries.value| == 2 && Total(entries.value) == 0
  {
    var entries := OperationEntries(book, op, amount, equity);
    if entries.Ok? {
      TotalOfTwo(entries.value[0], entries.value[1]);
    }
  }

  lemma {:induction false} TypedOperationIsSound(book: Book, op: Operation, replacing: Option<nat>)
    requires Sound(book)
    ensures var posted := PostTypedOperation(book, op, replacing);
            posted.Ok? ==>
              && Sound(posted.value.book) && Grows(book, posted.value.book)
              && posted.value.id < |posted.value.book.log|
              && posted.value.book.log[posted.value.id].key == op.key
              && (posted.value.replayed <==> HasKey(book, op.key))
              && (posted.value.replayed ==> posted.value.book == book)
              && (!posted.value.replayed ==>
                    var t := posted.value.book.log[posted.value.id];
                    && posted.value.id == |book.log|
                    && posted.value.book.log == book.log + [t]
                    && t.kind == KindOf(op.kind) && t.day == op.day
                    && t.reversalOf == None && t.replacementOf == replacing)
  {
    var parsed := Money.Parse(op.amount);
    if PostTypedOperation(book, op, replacing).Ok? {
      var equity := book.systems[OpeningEquity];
      OperationBalances(book, op, parsed.value, equity);
      var entries := OperationEntries(book, op, parsed.value, equity).value;
      PostJournalIsSound(book, Transaction(KindOf(op.kind), op.day, op.key, None, replacing, entries));
    }
  }

  /**
   A new posting's entries: the operation's own account or its source first, the category on the other, opposite
   signs.
   */
  lemma {:induction false} PostedEntries(book: Book, op: Operation, replacing: Option<nat>)
    requires PostTypedOperation(book, op, replacing).Ok? && !HasKey(book, op.key) && !op.kind.OpenAccount?
    ensures var log := PostTypedOperation(book, op, replacing).value.book.log;
            && |log| == |book.log| + 1
            && var entries := log[|book.log|].entries;
            && |entries| == 2
            && Some(entries[0].account) == (if op.kind.Move? || op.kind.Buy? then op.source else op.account)
            && (op.kind.Move? || op.kind.Buy? ==> Some(entries[1].account) == op.destination)
            && entries[0].category == None
            && entries[1].category == (if op.kind.Earn? || op.kind.Spend? then op.category else None)
            && entries[0].amount == -entries[1].amount
            && (if op.kind.Earn? then entries[0].amount > 0 else entries[0].amount < 0)
  {
    hide Money.Parse, HeaderAccepted, EntriesAccepted;
  }

  lemma {:induction false} OpeningBalanceIsSound(book: Book, account: nat, amount: int, day: Day, key: Key)
    requires Sound(book)
    ensures var posted := PostOpeningBalance(book, account, amount, day, key);
            posted.Ok? ==> Sound(posted.value.book) && GrowsPlainly(book, posted.value.book)
  {
    hide Sound, Grows, PostJournal, Total;
    if account in book.accounts && OpeningEquity in book.systems {
      var signed := if book.accounts[account].accountClass == Liability then -amount else amount;
      var currency := book.accounts[account].currency;
      var a, b := Entry(account, None, signed, currency), Entry(book.systems[OpeningEquity], None, -signed, currency);
      TotalOfTwo(a, b);
      PostJournalGrowsPlainly(book, Transaction(OpeningBalance, day, key, None, None, [a, b]));
    }
  }

  lemma {:induction false} NegatedSums(entries: seq<Entry>, account: nat)
    ensures Total(Negated(entries)) == -Total(entries)
    ensures Net(Negated(entries), account) == -Net(entries, account)
  {
    if entries != [] {
      NegatedSums(entries[..|entries| - 1], account);
      assert Negated(entries)[..|entries| - 1] == Negated(entries[..|entries| - 1]);
    }
  }

  lemma {:induction false} ReversalIsSound(book: Book, original: nat, key: Key)
    requires Sound(book)
    ensures var posted := PostReversal(book, original, key);
            posted.Ok? ==>
              && original < |book.log| && book.log[original].kind != Reversal && !IsReversed(book.log, original)
              && Sound(posted.value.book) && Grows(book, posted.value.book)
              && posted.value.id < |posted.value.book.log| && posted.value.book.log[posted.value.id].key == key
              && (posted.value.replayed <==> HasKey(book, key))
              && (posted.value.replayed ==> posted.value.book == book)
              && (!posted.value.replayed ==>
                    posted.value.book.log == book.log + [ReversalFor(book.log, original, key)]
                      && posted.value.id == |book.log|)
  {
    if PostReversal(book, original, key).Ok? {
      NegatedSums(book.log[original].entries, 0);
      assert Fits(book.accounts, book.log[..original], book.log[original]);
      PostJournalIsSound(book, ReversalFor(book.log, original, key));
    }
  }

  lemma {:induction false} ReplacementIsSound(book: Book, original: nat, reversalKey: Key, op: Operation)
    requires Sound(book)
    ensures var replaced := ReplaceTransaction(book, original, reversalKey, op);
            replaced.Ok? ==> Sound(replaced.value.book) && Grows(book, replaced.value.book)
  {
    ReversalIsSound(book, original, reversalKey);
    var reversed := PostReversal(book, original, reversalKey);
    if reversed.Ok? {
      TypedOperationIsSound(reversed.value.book, op, Some(original));
      if ReplaceTransaction(book, original, reversalKey, op).Ok? {
        GrowsTransitively(book, reversed.value.book, ReplaceTransaction(book, original, reversalKey, op).value.book);
      }
    }
  }

  // ----- the trial balance

  /** The sum over the accounts of their balances on a day. */
  ghost function TrialBalance(accounts: set<nat>, log: seq<Transaction>, day: Day): int {
    SumOver(accounts, (account: nat) => BalanceAt(log, account, day))
  }

  lemma {:induction false} NetsSumToTotal(accounts: set<nat>, entries: seq<Entry>)
    requires forall i :: 0 <= i < |entries| ==> entries[i].account in accounts
    ensures SumOver(accounts, (account: nat) => Net(entries, account)) == Total(entries)
  {
    if entries == [] {
      SumOfZeros(accounts, (account: nat) => Net(entries, account));
    } else {
      var rest, last := entries[..|entries| - 1], entries[|entries| - 1];
      var single := (account: nat) => if last.account == account then last.amount else 0;
      NetsSumToTotal(accounts, rest);
      SumSplits(accounts, (account: nat) => Net(entries, account), (account: nat) => Net(rest, account), single);
      SumOfOne(accounts, last.account, single);
    }
  }

  lemma {:induction false} SoundPrefix(accounts: map<nat, Account>, log: seq<Transaction>)
    requires SoundLog(accounts, log) && log != []
    ensures SoundLog(accounts, log[..|log| - 1]) && Fits(accounts, log[..|log| - 1], log[|log| - 1])
  {
    hide Fits;
    var rest := log[..|log| - 1];
    forall i | 0 <= i < |rest|
      ensures Fits(accounts, rest[..i], rest[i])
    {
      assert rest[..i] == log[..i];
      assert Fits(accounts, log[..i], log[i]);
    }
  }

  lemma {:induction false} ContributionsSumToZero(accounts: set<nat>, t: Transaction, day: Day)
    requires (forall i :: 0 <= i < |t.entries| ==> t.entries[i].account in accounts) && Total(t.entries) == 0
    ensures SumOver(accounts, (account: nat) => Contribution(t, account, day)) == 0
  {
    if t.day <= day {
      NetsSumToTotal(accounts, t.entries);
      SumSplits(accounts, (account: nat) => Contribution(t, account, day), (account: nat) => Net(t.entries, account),
                (account: nat) => 0);
      SumOfZeros(accounts, (account: nat) => 0);
    } else {
      SumOfZeros(accounts, (account: nat) => Contribution(t, account, day));
    }
  }

  /** On every day, the balances of all accounts add up to zero. */
  lemma {:induction false} TrialBalanceIsZero(accounts: map<nat, Account>, log: seq<Transaction>, day: Day)
    requires SoundLog(accounts, log)
    ensures TrialBalance(accounts.Keys, log, day) == 0
  {
    hide SoundLog;
    if log == [] {
      SumOfZeros(accounts.Keys, (account: nat) => BalanceAt(log, account, day));
    } else {
      var rest, last := log[..|log| - 1], log[|log| - 1];
      SoundPrefix(accounts, log);
      TrialBalanceIsZero(accounts, rest, day);
      SumSplits(accounts.Keys, (account: nat) => BalanceAt(log, account, day),
                (account: nat) => BalanceAt(rest, account, day), (account: nat) => Contribution(last, account, day));
      ContributionsSumToZero(accounts.Keys, last, day);
    }
  }

  // ----- corrections

  lemma {:induction false} BalanceOfAppend(log: seq<Transaction>, more: seq<Transaction>, account: nat, day: Day)
    ensures BalanceAt(log + more, account, day) == BalanceAt(log, account, day) + BalanceAt(more, account, day)
  {
    if more == [] {
      assert log + more == log;
    } else {
      BalanceOfAppend(log, more[..|more| - 1], account, day);
      assert (log + more)[..|log + more| - 1] == log + more[..|more| - 1];
    }
  }

  lemma {:induction false} BalanceOfOne(t: Transaction, account: nat, day: Day)
    ensures BalanceAt([t], account, day) == Contribution(t, account, day)
  {
    assert [t][..0] == [];
  }

  /** A balance reads back as itself when its text parses. */
  lemma {:induction false} BalanceReadBack(book: Book, account: nat, day: Day)
    requires AccountBalanceAt(book, account, day).Ok?
    ensures AccountBalanceAt(book, account, day).value == BalanceAt(book.log, account, day)
    ensures Money.InRange(BalanceAt(book.log, account, day))
  {
    hide BalanceAt, Money.NumericText, Money.Parse, Money.InRange;
    Money.ParseOfNumericText(BalanceAt(book.log, account, day));
  }

  // ----- what an operation does to the balances

  /** The account money leaves: the source, the paying account, or the category or equity account behind it. */
  ghost function Giver(book: Book, op: Operation): Option<nat> {
    match op.kind
    case OpenAccount => if IsLiability(book, op.account) then op.account else SystemAccount(book, OpeningEquity)
    case Earn => CategoryAccount(book, op.category)
    case Spend => op.account
    case _ => op.source
  }

  /** The account money reaches. */
  ghost function Receiver(book: Book, op: Operation): Option<nat> {
    match op.kind
    case OpenAccount => if IsLiability(book, op.account) then SystemAccount(book, OpeningEquity) else op.account
    case Earn => op.account
    case Spend => CategoryAccount(book, op.category)
    case _ => op.destination
  }

  ghost predicate IsLiability(book: Book, account: Option<nat>) {
    account.Some? && account.value in book.accounts && book.accounts[account.value].accountClass == Liability
  }

  ghost function SystemAccount(book: Book, code: SystemCode): Option<nat> {
    if code in book.systems then Some(book.systems[code]) else None
  }

  ghost function CategoryAccount(book: Book, category: Option<nat>): Option<nat> {
    if category.Some? && category.value in book.categories then Some(book.categories[category.value].account) else None
  }

  /** What moving an amount from one account to another on a day adds to a balance on a later or earlier day. */
  ghost function Flow(from: Option<nat>, to: Option<nat>, amount: int, day: Day, account: nat, at: Day): int {
    if at < day then 0
    else (if to == Some(account) then amount else 0) - (if from == Some(account) then amount else 0)
  }

  /**
   A newly posted operation moves exactly its amount from its giver to its receiver, from its date on, and
   leaves every other account and every earlier day alone.
   */
  lemma {:induction false} OperationMovesAmount(
      book: Book, op: Operation, replacing: Option<nat>, account: nat, day: Day)
    requires Sound(book) && PostTypedOperation(book, op, replacing).Ok? && !HasKey(book, op.key)
    ensures var after := PostTypedOperation(book, op, replacing).value.book;
            var amount := Money.Parse(op.amount);
            && amount.Ok? && amount.value > 0
            && Giver(book, op).Some? && Receiver(book, op).Some?
            && BalanceAt(after.log, account, day)
               == BalanceAt(book.log, account, day)
                 + Flow(Giver(book, op), Receiver(book, op), amount.value, op.day, account, day)
  {
    hide Sound, Grows, BalanceAt, Total, Net, Money.Parse, PostJournal;
    var amount := Money.Parse(op.amount).value;
    var equity := book.systems[OpeningEquity];
    var entries := OperationEntries(book, op, amount, equity).value;
    OperationBalances(book, op, amount, equity);
    var t := Transaction(KindOf(op.kind), op.day, op.key, None, replacing, entries);
    PostJournalIsSound(book, t);
    TotalOfTwo(entries[0], entries[1]);
    assert entries == [entries[0], entries[1]];
    BalanceOfAppend(book.log, [t], account, day);
    BalanceOfOne(t, account, day);
  }

  /** The opening balance of a new account: an asset receives it from opening equity, a liability owes it there. */
  lemma {:induction false} OpeningBalanceMovesAmount(
      book: Book, account: nat, amount: int, day: Day, key: Key, other: nat, at: Day)
    requires Sound(book) && PostOpeningBalance(book, account, amount, day, key).Ok? && !HasKey(book, key)
    ensures var after := PostOpeningBalance(book, account, amount, day, key).value.book;
            var equity := SystemAccount(book, OpeningEquity);
            && account in book.accounts
            && BalanceAt(after.log, other, at) == BalanceAt(book.log, other, at)
               + (if book.accounts[account].accountClass == Liability
                  then Flow(Some(account), equity, amount, day, other, at)
                  else Flow(equity, Some(account), amount, day, other, at))
  {
    hide Sound, Grows, BalanceAt, Total, Net, PostJournal;
    var signed := if book.accounts[account].accountClass == Liability then -amount else amount;
    var currency := book.accounts[account].currency;
    var a, b := Entry(account, None, signed, currency), Entry(book.systems[OpeningEquity], None, -signed, currency);
    var t := Transaction(OpeningBalance, day, key, None, None, [a, b]);
    TotalOfTwo(a, b);
    PostJournalIsSound(book, t);
    BalanceOfAppend(book.log, [t], other, at);
    BalanceOfOne(t, other, at);
  }

  function Without(log: seq<Transaction>, id: nat): seq<Transaction>
    requires id < |log|
  {
    log[..id] + log[id + 1..]
  }

  lemma {:induction false} BalanceWithout(log: seq<Transaction>, id: nat, account: nat, day: Day)
    requires id < |log|
    ensures BalanceAt(log, account, day)
            == BalanceAt(Without(log, id), account, day) + Contribution(log[id], account, day)
  {
    assert log == log[..id] + ([log[id]] + log[id + 1..]);
    BalanceOfAppend(log[..id], [log[id]] + log[id + 1..], account, day);
    BalanceOfAppend([log[id]], log[id + 1..], account, day);
    BalanceOfOne(log[id], account, day);
    BalanceOfAppend(log[..id], log[id + 1..], account, day);
  }

  /** An original and its reversal add nothing to any account on any day. */
  lemma {:induction false} ReversalCancels(log: seq<Transaction>, original: nat, key: Key, account: nat, day: Day)
    requires original < |log|
    ensures Contribution(log[original], account, day) + Contribution(ReversalFor(log, original, key), account, day) == 0
  {
    NegatedSums(log[original].entries, account);
  }

  /**
   After a reversal with a fresh key every account has, on every day, the balance it would have had without the
   original; with a key already used nothing is posted at all.
   */
  lemma {:induction false} ReversalErasesOriginal(book: Book, original: nat, key: Key, account: nat, day: Day)
    requires Sound(book) && PostReversal(book, original, key).Ok?
    ensures var after := PostReversal(book, original, key).value.book;
            if HasKey(book, key) then after == book
            else BalanceAt(after.log, account, day) == BalanceAt(Without(book.log, original), account, day)
  {
    hide PostReversal, Sound, BalanceAt, HasKey;
    ReversalIsSound(book, original, key);
    if !HasKey(book, key) {
      var reversal := ReversalFor(book.log, original, key);
      BalanceOfAppend(book.log, [reversal], account, day);
      BalanceOfOne(reversal, account, day);
      BalanceWithout(book.log, original, account, day);
      ReversalCancels(book.log, original, key, account, day);
    }
  }

  /** Any posting by another transaction with the key makes the reversal a silent no-op: the exact condition. */
  lemma {:induction false} ReversedExactlyWhenKeyFresh(book: Book, original: nat, key: Key)
    requires Sound(book) && PostReversal(book, original, key).Ok?
    ensures IsReversed(PostReversal(book, original, key).value.book.log, original) <==> !HasKey(book, key)
  {
    ReversalIsSound(book, original, key);
    var after := PostReversal(book, original, key).value.book;
    if !HasKey(book, key) {
      assert after.log[|book.log|].reversalOf == Some(original);
    }
  }

  /** The same reversal requested again is a conflict, whatever the key: no double reversal. */
  lemma {:induction false} SecondReversalConflicts(book: Book, original: nat, first: Key, second: Key)
    requires Sound(book) && PostReversal(book, original, first).Ok? && !HasKey(book, first)
    ensures PostReversal(PostReversal(book, original, first).value.book, original, second) == Err(Conflict)
  {
    ReversedExactlyWhenKeyFresh(book, original, first);
    ReversalIsSound(book, original, first);
  }

  /** The references from reversals to their originals are an injection into transactions that are not reversals. */
  lemma {:induction false} ReversesIsAnInjection(book: Book, i: nat, j: nat)
    requires Sound(book) && i < |book.log| && j < |book.log|
    requires book.log[i].kind == Reversal && book.log[j].kind == Reversal
    ensures book.log[i].reversalOf.Some? && book.log[i].reversalOf.value < i
    ensures book.log[book.log[i].reversalOf.value].kind != Reversal
    ensures book.log[i].reversalOf == book.log[j].reversalOf ==> i == j
  {
    assert Fits(book.accounts, book.log[..i], book.log[i]);
    assert Fits(book.accounts, book.log[..j], book.log[j]);
  }

  /** A reversal has its original's day and entries, opposite in sign. */
  lemma {:induction false} ReversalMirrors(book: Book, k: nat)
    requires Sound(book) && k < |book.log| && book.log[k].reversalOf.Some?
    ensures book.log[k].kind == Reversal
    ensures var original := book.log[k].reversalOf.value;
            && original < k && book.log[original].kind != Reversal && book.log[k].day == book.log[original].day
            && book.log[k].entries == Negated(book.log[original].entries)
  {
    hide Total, Negated;
    assert Fits(book.accounts, book.log[..k], book.log[k]);
  }

  /** In any sound book a reversal and the transaction it refers to add nothing, to any account on any day. */
  lemma {:induction false} ReversedPairsCancel(book: Book, k: nat, account: nat, day: Day)
    requires Sound(book) && k < |book.log| && book.log[k].reversalOf.Some?
    ensures var original := book.log[k].reversalOf.value;
            && original < k
            && Contribution(book.log[original], account, day) + Contribution(book.log[k], account, day) == 0
  {
    hide Total, Net, Negated, Known;
    assert Fits(book.accounts, book.log[..k], book.log[k]);
    var original := book.log[k].reversalOf.value;
    NegatedSums(book.log[original].entries, account);
  }

  /** Every transaction that was replaced was also reversed. */
  ghost predicate ReplacedAreReversed(log: seq<Transaction>) {
    forall i :: 0 <= i < |log| && log[i].replacementOf.Some? ==> IsReversed(log, log[i].replacementOf.value)
  }

  lemma IsReversedGrows(log: seq<Transaction>, more: seq<Transaction>, id: nat)
    requires IsReversed(log, id)
    ensures IsReversed(log + more, id)
  {
    var i :| 0 <= i < |log| && log[i].reversalOf == Some(id);
    assert (log + more)[i] == log[i];
  }

  lemma ReplacedAreReversedGrows(log: seq<Transaction>, t: Transaction)
    requires ReplacedAreReversed(log)
    requires t.replacementOf.Some? ==> IsReversed(log, t.replacementOf.value)
    ensures ReplacedAreReversed(log + [t])
  {
    forall i | 0 <= i < |log + [t]| && (log + [t])[i].replacementOf.Some?
      ensures IsReversed(log + [t], (log + [t])[i].replacementOf.value)
    {
      IsReversedGrows(log, [t], (log + [t])[i].replacementOf.value);
    }
  }

  lemma {:induction false} PlainGrowthKeepsReplaced(before: seq<Transaction>, after: seq<Transaction>)
    requires AppendsPlainly(before, after) && ReplacedAreReversed(before)
    ensures ReplacedAreReversed(after)
  {
    hide IsReversed;
    forall i | 0 <= i < |after| && after[i].replacementOf.Some?
      ensures IsReversed(after, after[i].replacementOf.value)
    {
      assert after[i] == before[i];
      assert after == before + after[|before|..];
      IsReversedGrows(before, after[|before|..], before[i].replacementOf.value);
    }
  }

  lemma {:induction false} AppendedReplacement(log: seq<Transaction>, after: seq<Transaction>, original: nat)
    requires IsReversed(log, original)
    requires after == log || (|after| == |log| + 1 && after[..|log|] == log
                              && after[|log|].replacementOf == Some(original))
    ensures IsReversed(after, original)
    ensures ReplacedAreReversed(log) ==> ReplacedAreReversed(after)
  {
    if after != log {
      assert after == log + [after[|log|]];
      IsReversedGrows(log, [after[|log|]], original);
      if ReplacedAreReversed(log) {
        ReplacedAreReversedGrows(log, after[|log|]);
      }
    }
  }

  /**
   ReplaceTransaction reverses what it replaces exactly when its reversal key was fresh, and then keeps
   "replaced implies reversed".
   */
  lemma {:induction false} ReplacementReversesExactlyWhenKeyFresh(
      book: Book, original: nat, reversalKey: Key, op: Operation)
    requires Sound(book) && ReplaceTransaction(book, original, reversalKey, op).Ok?
    ensures var after := ReplaceTransaction(book, original, reversalKey, op).value.book.log;
            && (IsReversed(after, original) <==> !HasKey(book, reversalKey))
            && (!HasKey(book, reversalKey) && ReplacedAreReversed(book.log) ==> ReplacedAreReversed(after))
  {
    hide PostReversal, PostTypedOperation, Sound, IsReversed, ReplacedAreReversed;
    ReversalIsSound(book, original, reversalKey);
    ReversedExactlyWhenKeyFresh(book, original, reversalKey);
    var reversed := PostReversal(book, original, reversalKey).value.book;
    TypedOperationIsSound(reversed, op, Some(original));
    var after := ReplaceTransaction(book, original, reversalKey, op).value.book;
    if HasKey(book, reversalKey) {
      NotReversedGrows(book.log, after.log, original);
    } else {
      if ReplacedAreReversed(book.log) {
        ReplacedAreReversedGrows(book.log, ReversalFor(book.log, original, reversalKey));
      }
      AppendedReplacement(reversed.log, after.log, original);
    }
  }

  lemma NotReversedGrows(log: seq<Transaction>, after: seq<Transaction>, original: nat)
    requires !IsReversed(log, original)
    requires after == log || (|after| == |log| + 1 && after[..|log|] == log && after[|log|].reversalOf == None)
    ensures !IsReversed(after, original)
  {
    forall i | 0 <= i < |after|
      ensures after[i].reversalOf != Some(original)
    {
      if i < |log| {
        assert after[i] == after[..|log|][i];
      }
    }
  }

  /** Whether one more transaction makes something replaced. */
  lemma ReplacedAfterAppend(log: seq<Transaction>, after: seq<Transaction>, id: nat)
    requires after == log || (|after| == |log| + 1 && after[..|log|] == log)
    ensures IsReplaced(after, id) <==> IsReplaced(log, id) || (after != log && after[|log|].replacementOf == Some(id))
  {
    assert forall i :: 0 <= i < |log| ==> after[i] == after[..|log|][i] == log[i];
    if IsReplaced(log, id) {
      var i :| 0 <= i < |log| && log[i].replacementOf == Some(id);
      assert after[i].replacementOf == Some(id);
    }
  }

  /** The keys in use after a reversal. */
  lemma {:induction false} KeysAfterReversal(book: Book, original: nat, reversalKey: Key, key: Key)
    requires Sound(book) && PostReversal(book, original, reversalKey).Ok?
    ensures HasKey(PostReversal(book, original, reversalKey).value.book, key)
            <==> HasKey(book, key) || key == reversalKey
  {
    hide Sound, PostReversal, Grows, IsReversed;
    ReversalIsSound(book, original, reversalKey);
    var after := PostReversal(book, original, reversalKey).value.book;
    if !HasKey(book, reversalKey) {
      assert after.log[..|after.log| - 1] == book.log;
    }
  }

  /**
   A successful correction shows its original as replaced exactly when it was replaced already or the operation's key
   was unused and differs from the reversal's; otherwise nothing is posted in the original's place. Without a
   replacement the original shows as reversed exactly when the reversal's key was unused.
   */
  lemma {:induction false} ReplacementShowsExactlyWhen(book: Book, original: nat, reversalKey: Key, op: Operation)
    requires Sound(book) && ReplaceTransaction(book, original, reversalKey, op).Ok?
    ensures var after := ReplaceTransaction(book, original, reversalKey, op).value.book.log;
            var replaced := IsReplaced(book.log, original) || (!HasKey(book, op.key) && op.key != reversalKey);
            && original < |after|
            && (IsReplaced(after, original) <==> replaced)
            && StatusOf(after, original) ==
               if replaced then ReplacedStatus else if !HasKey(book, reversalKey) then ReversedStatus else PostedStatus
  {
    hide Sound, PostReversal, PostTypedOperation, FindKey, IsReversed, IsReplaced, Grows;
    ReversalIsSound(book, original, reversalKey);
    KeysAfterReversal(book, original, reversalKey, op.key);
    var reversed := PostReversal(book, original, reversalKey).value.book;
    TypedOperationIsSound(reversed, op, Some(original));
    var after := ReplaceTransaction(book, original, reversalKey, op).value.book;
    ReplacementReversesExactlyWhenKeyFresh(book, original, reversalKey, op);
    ReplacementIsSound(book, original, reversalKey, op);
    ReplacedAfterAppend(book.log, reversed.log, original);
    ReplacedAfterAppend(reversed.log, after.log, original);
    SamePosition(book, after, original);
  }

  lemma SamePosition(before: Book, after: Book, id: nat)
    requires Grows(before, after) && id < |before.log|
    ensures id < |after.log| && after.log[id] == before.log[id]
  {
    assert after.log[..|before.log|][id] == before.log[id];
  }

  // ----- repeated requests

  ghost predicate UsableAccount(book: Book, id: Option<nat>, asset: bool) {
    && id.Some? && id.value in book.accounts
    && var account := book.accounts[id.value];
    && account.role == User && !account.archived && account.currency == book.currency
    && (asset ==> account.accountClass == Asset)
  }

  ghost predicate UsableCategory(book: Book, id: Option<nat>, direction: Direction) {
    && id.Some? && id.value in book.categories
    && book.categories[id.value].direction == direction && !book.categories[id.value].archived
  }

  /** The accounts and category of an operation exist, are in use, and fit its type. */
  ghost predicate Usable(book: Book, op: Operation) {
    match op.kind
    case OpenAccount => UsableAccount(book, op.account, false)
    case Earn => UsableAccount(book, op.account, true) && UsableCategory(book, op.category, Incoming)
    case Spend => UsableAccount(book, op.account, true) && UsableCategory(book, op.category, Outgoing)
    case _ =>
      UsableAccount(book, op.source, true) && UsableAccount(book, op.destination, true) && op.source != op.destination
  }

  lemma EntriesExactlyWhenUsable(book: Book, op: Operation, amount: int, equity: nat)
    ensures OperationEntries(book, op, amount, equity).Ok? <==> Usable(book, op)
  {
  }

  /**
   On any later book that holds the key, the request returns the transaction posted with it and changes nothing
   exactly when it would also be accepted afresh: the accounts are checked before the key. In particular an
   archived account turns a retry into an error.
   */
  lemma {:induction false} RetryReplaysExactlyWhenUsable(later: Book, op: Operation, replacing: Option<nat>, id: nat)
    requires Sound(later) && id < |later.log| && later.log[id].key == op.key
    ensures PostTypedOperation(later, op, replacing) == Ok(Posted(later, id, true))
            <==> && Money.Parse(op.amount).Ok? && Money.Parse(op.amount).value > 0
                 && OpeningEquity in later.systems && Usable(later, op)
  {
    hide Sound, Money.Parse, Usable, OperationEntries, FindKey;
    KeyIsUnique(later, op.key, id);
    if Money.Parse(op.amount).Ok? && OpeningEquity in later.systems {
      EntriesExactlyWhenUsable(later, op, Money.Parse(op.amount).value, later.systems[OpeningEquity]);
    }
  }

  lemma {:induction false} KeyIsUnique(book: Book, key: Key, id: nat)
    requires Sound(book) && id < |book.log| && book.log[id].key == key
    ensures FindKey(book.log, key) == Some(id)
  {
    var found := FindKey(book.log, key);
    assert found.Some? && book.log[found.value].key == book.log[id].key;
  }
}
