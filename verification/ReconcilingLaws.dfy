/** What reconciliation promises over every run: the last report wins, and a preview binds its confirmation. */
module ReconcilingLaws {
  import opened Prelude
  import opened Ledger
  import opened LedgerLaws
  import opened Reconciling
  import Calendar
  import Windows
  import Money

  // ----- the invariant

  /** A reconciliation's adjustment is its own posting on the period end; once superseded it is reversed. */
  ghost predicate RowLinked(log: seq<Transaction>, row: Reconciled) {
    && row.difference == row.reported - row.ledgerBefore
    && (row.adjustmentId.None? <==> row.adjustment == 0)
    && (row.adjustmentId.Some? ==>
          && row.adjustmentId.value < |log|
          && var t := log[row.adjustmentId.value];
          && t.kind == Reconciliation && t.day == row.period && |t.entries| == 2
          && t.entries[0].account == row.account && t.entries[0].amount == row.adjustment
          && t.entries[1].account != row.account
          && (row.superseded ==> IsReversed(log, row.adjustmentId.value)))
  }

  ghost predicate RowsLinked(log: seq<Transaction>, rows: seq<Reconciled>) {
    forall i :: 0 <= i < |rows| ==> RowLinked(log, rows[i])
  }

  ghost predicate OneActive(rows: seq<Reconciled>) {
    forall i, j :: 0 <= i < j < |rows| && !rows[i].superseded && !rows[j].superseded ==>
      rows[i].account != rows[j].account || rows[i].period != rows[j].period
  }

  ghost predicate KeysDistinct(rows: seq<Reconciled>) {
    forall i, j :: 0 <= i < j < |rows| ==> rows[i].key != rows[j].key
  }

  ghost predicate PreviewSound(rows: seq<Reconciled>, p: Preview) {
    && p.difference == p.reported - p.ledger
    && Money.InRange(p.reported) && Money.InRange(p.ledger)
    && (p.confirmed.Some? ==> p.confirmed.value < |rows| && rows[p.confirmed.value].key == p.key)
  }

  ghost predicate PreviewsSound(rows: seq<Reconciled>, previews: seq<Preview>) {
    forall i :: 0 <= i < |previews| ==> PreviewSound(rows, previews[i])
  }

  ghost predicate DeskSound(desk: Desk) {
    && Sound(desk.book) && Infrastructure(desk.book)
    && RowsLinked(desk.book.log, desk.reconciliations)
    && OneActive(desk.reconciliations) && KeysDistinct(desk.reconciliations)
    && PreviewsSound(desk.reconciliations, desk.previews)
  }

  /** Neither the request's key nor the reversal key derived from it has been posted with. */
  predicate FreshKeys(book: Book, current: Option<nat>, key: Key) {
    !HasKey(book, key) && (current.Some? ==> !HasKey(book, ReconciliationReversal(current.value, key)))
  }

  // ----- growth of the ledger keeps it

  lemma {:induction false} RowsStayLinked(before: Book, after: Book, rows: seq<Reconciled>)
    requires Grows(before, after) && RowsLinked(before.log, rows)
    ensures RowsLinked(after.log, rows)
  {
    hide IsReversed;
    forall i | 0 <= i < |rows|
      ensures RowLinked(after.log, rows[i])
    {
      assert RowLinked(before.log, rows[i]);
      if rows[i].adjustmentId.Some? {
        var a := rows[i].adjustmentId.value;
        assert after.log[a] == after.log[..|before.log|][a];
        if rows[i].superseded {
          assert after.log == before.log + after.log[|before.log|..];
          IsReversedGrows(before.log, after.log[|before.log|..], a);
        }
      }
    }
  }

  /** Any other posting between the steps of a reconciliation leaves the desk sound. */
  lemma {:induction false} OtherPostingsKeepTheDesk(desk: Desk, after: Book)
    requires DeskSound(desk) && Sound(after) && Grows(desk.book, after)
    ensures DeskSound(desk.(book := after))
  {
    RowsStayLinked(desk.book, after, desk.reconciliations);
  }

  // ----- balances around a reconciliation

  lemma {:induction false} NetOfTwo(t: Transaction, account: nat)
    requires |t.entries| == 2 && t.entries[0].account == account && t.entries[1].account != account
    ensures Net(t.entries, account) == t.entries[0].amount
  {
    TotalOfTwo(t.entries[0], t.entries[1]);
    assert t.entries == [t.entries[0], t.entries[1]];
  }

  lemma {:induction false} BalanceAfterPost(before: Book, after: Book, t: Transaction, account: nat, day: Day)
    requires after.log == before.log + [t]
    ensures BalanceAt(after.log, account, day) == BalanceAt(before.log, account, day) + Contribution(t, account, day)
  {
    BalanceOfAppend(before.log, [t], account, day);
    BalanceOfOne(t, account, day);
  }

  /** Adjust posts exactly the adjustment when its key is fresh, and nothing otherwise. */
  lemma {:induction false} AdjustPosts(book: Book, account: nat, currency: nat, period: Day, adjustment: int, key: Key)
    requires Sound(book) && Infrastructure(book)
    requires account in book.accounts && book.accounts[account].role == User
    requires Adjust(book, account, currency, period, adjustment, key).Ok?
    ensures var adjusted := Adjust(book, account, currency, period, adjustment, key).value;
            && Sound(adjusted.book) && Grows(book, adjusted.book)
            && (adjusted.id.None? <==> adjustment == 0)
            && (adjustment == 0 || HasKey(book, key) ==> adjusted.book == book)
            && (adjustment != 0 && !HasKey(book, key) ==>
                  && adjusted.id == Some(|book.log|) && |adjusted.book.log| == |book.log| + 1
                  && var t := adjusted.book.log[|book.log|];
                  && adjusted.book.log == book.log + [t]
                  && t.kind == Reconciliation && t.day == period && |t.entries| == 2
                  && t.entries[0].account == account && t.entries[0].amount == adjustment
                  && t.entries[1].account != account)
  {
    hide Sound;
    if adjustment != 0 {
      var code := if adjustment > 0 then OtherIncome else OtherExpense;
      var system := book.systems[code];
      var entries := AdjustmentEntries(account, system, adjustment, currency);
      TotalOfTwo(entries[0], entries[1]);
      PostJournalIsSound(book, Transaction(Reconciliation, period, key, None, None, entries));
    }
  }

  // ----- superseding

  ghost predicate Unmarked(rows: seq<Reconciled>, marked: seq<Reconciled>, current: Option<nat>) {
    && |marked| == |rows|
    && forall i :: 0 <= i < |rows| ==> marked[i] == if current == Some(i) then rows[i].(superseded := true) else rows[i]
  }

  /**
   What the active adjustment puts into the balance and a reconciliation will take out: nothing if its reversal's key
   is used.
   */
  ghost function Removable(
      book: Book, rows: seq<Reconciled>, account: nat, period: Day, current: Option<nat>, key: Key): int
  {
    if current.None? || current.value >= |rows| || rows[current.value].adjustmentId.None? then 0
    else
      var original := rows[current.value].adjustmentId.value;
      if original >= |book.log| || HasKey(book, ReconciliationReversal(current.value, key)) then 0
      else Contribution(book.log[original], account, period)
  }

  /** What reversing a transaction does to one balance and to the keys in use. */
  lemma {:induction false} ReversedBalance(book: Book, original: nat, derived: Key, key: Key, account: nat, period: Day)
    requires Sound(book) && PostReversal(book, original, derived).Ok? && derived != key && original < |book.log|
    ensures var after := PostReversal(book, original, derived).value.book;
            && Sound(after) && Grows(book, after) && (HasKey(after, key) <==> HasKey(book, key))
            && BalanceAt(after.log, account, period) == BalanceAt(book.log, account, period)
                 - (if HasKey(book, derived) then 0 else Contribution(book.log[original], account, period))
  {
    hide Sound, BalanceAt, FindKey, Contribution, PostReversal, Grows;
    ReversalIsSound(book, original, derived);
    var posted := PostReversal(book, original, derived).value;
    if !posted.replayed {
      KeyAfterPost(book, posted.book, ReversalFor(book.log, original, derived), key);
      BalanceAfterPost(book, posted.book, ReversalFor(book.log, original, derived), account, period);
      ReversalCancels(book.log, original, derived, account, period);
    }
  }

  /** Whatever the keys, superseding keeps the ledger sound and ends with the balance it read. */
  lemma {:induction false} SupersedeReadsBalance(
      book: Book, rows: seq<Reconciled>, account: nat, period: Day, current: Option<nat>, key: Key)
    requires Sound(book)
    requires Supersede(book, rows, account, period, BalanceAt(book.log, account, period), current, key).Ok?
    ensures var cleared := Supersede(book, rows, account, period, BalanceAt(book.log, account, period), current,
                                     key).value;
            && Sound(cleared.book) && Grows(book, cleared.book)
            && Unmarked(rows, cleared.rows, current)
            && cleared.base == BalanceAt(cleared.book.log, account, period)
            && cleared.base == BalanceAt(book.log, account, period) - Removable(book, rows, account, period, current,
                                                                                key)
            && (HasKey(cleared.book, key) <==> HasKey(book, key))
  {
    hide Sound, BalanceAt, HasKey, Contribution, PostReversal, AccountBalanceAt;
    if current.Some? && rows[current.value].adjustmentId.Some? {
      var original, derived := rows[current.value].adjustmentId.value, ReconciliationReversal(current.value, key);
      ReversalFindsOriginal(book, original, derived);
      DerivedKeyDiffers(current.value, key);
      ReversedBalance(book, original, derived, key, account, period);
      BalanceReadBack(PostReversal(book, original, derived).value.book, account, period);
    }
  }

  /** A derived key contains the key it is derived from. */
  lemma {:induction false} DerivedKeyDiffers(reconciliation: nat, key: Key)
    ensures ReconciliationReversal(reconciliation, key) != key
    decreases key
  {
    if key.ReconciliationReversal? {
      DerivedKeyDiffers(key.reconciliation, key.request);
    }
  }

  lemma ReversalFindsOriginal(book: Book, original: nat, key: Key)
    requires PostReversal(book, original, key).Ok?
    ensures original < |book.log|
  {
  }

  lemma {:induction false} KeyAfterPost(before: Book, after: Book, t: Transaction, key: Key)
    requires after.log == before.log + [t] && t.key != key
    ensures HasKey(after, key) <==> HasKey(before, key)
  {
    assert after.log[..|after.log| - 1] == before.log;
  }

  /**
   Last write wins, stated exactly: after an applied reconciliation the account's balance at the period end is the
   reported amount if and only if the balance without the removable adjustment was the reported amount already or
   the request's key was fresh in the ledger. Earlier reconciliations and every other posting are arbitrary.
   */
  lemma {:induction false} LastReportWins(
      desk: Desk, account: nat, currency: nat, period: Day, reported: int, current: Option<nat>, key: Key)
    requires Sound(desk.book) && Infrastructure(desk.book)
    requires LockAccount(desk.book, account).Ok?
    requires FindReconciliation(desk.reconciliations, key).None?
    requires ApplyReconciliation(desk, account, currency, period, reported, BalanceAt(desk.book.log, account, period),
                                 current, key).Ok?
    ensures var after := ApplyReconciliation(desk, account, currency, period, reported,
                                             BalanceAt(desk.book.log, account, period), current, key).value;
            var base := BalanceAt(desk.book.log, account, period)
                        - Removable(desk.book, desk.reconciliations, account, period, current, key);
            && after.desk.reconciliations[after.id].reported == reported
            && after.desk.reconciliations[after.id].adjustment == reported - base
            && (BalanceAt(after.desk.book.log, account, period) == reported
                <==> reported == base || !HasKey(desk.book, key))
  {
    hide Sound, Infrastructure, BalanceAt, FindKey, Supersede, Adjust, RowAccepted, Removable;
    var balance := BalanceAt(desk.book.log, account, period);
    SupersedeReadsBalance(desk.book, desk.reconciliations, account, period, current, key);
    var cleared := Supersede(desk.book, desk.reconciliations, account, period, balance, current, key).value;
    var adjustment := reported - cleared.base;
    InfrastructureStays(desk.book, cleared.book);
    AdjustPosts(cleared.book, account, currency, period, adjustment, key);
    var adjusted := Adjust(cleared.book, account, currency, period, adjustment, key).value;
    if adjustment != 0 && !HasKey(desk.book, key) {
      var t := adjusted.book.log[|cleared.book.log|];
      BalanceAfterPost(cleared.book, adjusted.book, t, account, period);
      NetOfTwo(t, account);
    }
  }

  lemma InfrastructureStays(before: Book, after: Book)
    requires Infrastructure(before) && Grows(before, after)
    ensures Infrastructure(after)
  {
  }

  // ----- a sound desk

  /** On a sound desk with fresh keys, superseding takes exactly the old adjustment out of the balance. */
  lemma {:induction false} SupersedeRemovesAdjustment(desk: Desk, account: nat, period: Day, key: Key)
    requires DeskSound(desk)
    requires var current := ActiveReconciliationId(desk.reconciliations, account, period);
             && FreshKeys(desk.book, current, key)
             && Supersede(desk.book, desk.reconciliations, account, period, BalanceAt(desk.book.log, account, period),
                          current, key).Ok?
    ensures var current := ActiveReconciliationId(desk.reconciliations, account, period);
            var balance := BalanceAt(desk.book.log, account, period);
            var cleared := Supersede(desk.book, desk.reconciliations, account, period, balance, current, key).value;
            && cleared.base == balance - (if current.Some? then desk.reconciliations[current.value].adjustment else 0)
            && RowsLinked(cleared.book.log, cleared.rows)
  {
    hide Sound, Infrastructure, BalanceAt, FindKey, HeaderAccepted, EntriesAccepted;
    var rows := desk.reconciliations;
    var current := ActiveReconciliationId(rows, account, period);
    var balance := BalanceAt(desk.book.log, account, period);
    var cleared := Supersede(desk.book, rows, account, period, balance, current, key).value;
    SupersedeReadsBalance(desk.book, rows, account, period, current, key);
    RowsStayLinked(desk.book, cleared.book, rows);
    if current.Some? {
      var row := rows[current.value];
      assert RowLinked(desk.book.log, row);
      if row.adjustmentId.Some? {
        var original, derived := row.adjustmentId.value, ReconciliationReversal(current.value, key);
        ReversalIsSound(desk.book, original, derived);
        var reversal := ReversalFor(desk.book.log, original, derived);
        BalanceAfterPost(desk.book, cleared.book, reversal, account, period);
        NegatedSums(desk.book.log[original].entries, account);
        NetOfTwo(desk.book.log[original], account);
        assert cleared.book.log[|desk.book.log|].reversalOf == Some(original);
        assert IsReversed(cleared.book.log, original);
      }
    }
    MarkedStayLinked(cleared.book.log, rows, cleared.rows, current);
  }

  lemma MarkedStayLinked(log: seq<Transaction>, rows: seq<Reconciled>, marked: seq<Reconciled>, current: Option<nat>)
    requires RowsLinked(log, rows) && Unmarked(rows, marked, current)
    requires current.Some? ==> current.value < |rows|
    requires current.Some? && rows[current.value].adjustmentId.Some? ==>
               IsReversed(log, rows[current.value].adjustmentId.value)
    ensures RowsLinked(log, marked)
  {
    hide IsReversed;
    forall i | 0 <= i < |marked|
      ensures RowLinked(log, marked[i])
    {
      assert RowLinked(log, rows[i]);
    }
  }

  /**
   An applied reconciliation keeps the desk sound, and its adjustment is the difference plus the superseded
   adjustment.
   */
  lemma {:induction false} ApplyKeepsTheDesk(
      desk: Desk, account: nat, currency: nat, period: Day, reported: int, key: Key)
    requires DeskSound(desk) && LockAccount(desk.book, account).Ok?
    requires FindReconciliation(desk.reconciliations, key).None?
    requires FreshKeys(desk.book, ActiveReconciliationId(desk.reconciliations, account, period), key)
    requires ApplyReconciliation(desk, account, currency, period, reported, BalanceAt(desk.book.log, account, period),
                                 ActiveReconciliationId(desk.reconciliations, account, period), key).Ok?
    ensures var current := ActiveReconciliationId(desk.reconciliations, account, period);
            var balance := BalanceAt(desk.book.log, account, period);
            var after := ApplyReconciliation(desk, account, currency, period, reported, balance, current, key).value;
            && DeskSound(after.desk) && Grows(desk.book, after.desk.book)
            && after.id == |desk.reconciliations| == |after.desk.reconciliations| - 1
            && var row := after.desk.reconciliations[after.id];
            && row.account == account && row.period == period && row.key == key && !row.superseded
            && row.reported == reported && row.ledgerBefore == balance && row.difference == reported - balance
            && row.adjustment == row.difference
                 + (if current.Some? then desk.reconciliations[current.value].adjustment else 0)
            && BalanceAt(after.desk.book.log, account, period) == reported
            && ActiveReconciliationId(after.desk.reconciliations, account, period) == Some(after.id)
  {
    hide Sound, Infrastructure, BalanceAt, FindKey, Supersede, Adjust, Money.InRange, PreviewSound;
    var rows := desk.reconciliations;
    var current := ActiveReconciliationId(rows, account, period);
    var balance := BalanceAt(desk.book.log, account, period);
    LastReportWins(desk, account, currency, period, reported, current, key);
    SupersedeReadsBalance(desk.book, rows, account, period, current, key);
    SupersedeRemovesAdjustment(desk, account, period, key);
    var cleared := Supersede(desk.book, rows, account, period, balance, current, key).value;
    var adjustment := reported - cleared.base;
    InfrastructureStays(desk.book, cleared.book);
    AdjustPosts(cleared.book, account, currency, period, adjustment, key);
    var adjusted := Adjust(cleared.book, account, currency, period, adjustment, key).value;
    InfrastructureStays(cleared.book, adjusted.book);
    GrowsTransitively(desk.book, cleared.book, adjusted.book);
    RowsStayLinked(cleared.book, adjusted.book, cleared.rows);
    var after := ApplyReconciliation(desk, account, currency, period, reported, balance, current, key).value;
    var row := after.desk.reconciliations[after.id];
    assert RowLinked(adjusted.book.log, row);
    AppendRow(adjusted.book.log, rows, cleared.rows, current, row, account, period);
    PreviewsStaySound(rows, after.desk.reconciliations, desk.previews);
  }

  lemma {:induction false} AppendRow(
      log: seq<Transaction>, rows: seq<Reconciled>, marked: seq<Reconciled>, current: Option<nat>, row: Reconciled,
      account: nat, period: Day)
    requires OneActive(rows) && KeysDistinct(rows) && RowsLinked(log, marked) && RowLinked(log, row)
    requires Unmarked(rows, marked, current) && FindReconciliation(rows, row.key).None?
    requires row.account == account && row.period == period && !row.superseded
    requires ActiveReconciliationId(marked, account, period).None?
    ensures RowsLinked(log, marked + [row]) && OneActive(marked + [row]) && KeysDistinct(marked + [row])
    ensures ActiveReconciliationId(marked + [row], account, period) == Some(|rows|)
  {
    hide RowLinked;
    forall i | 0 <= i < |marked| && !marked[i].superseded
      ensures marked[i].account != account || marked[i].period != period
    {
      assert !IsActive(marked[i], account, period);
    }
  }

  lemma PreviewsStaySound(rows: seq<Reconciled>, after: seq<Reconciled>, previews: seq<Preview>)
    requires PreviewsSound(rows, previews) && |rows| <= |after|
    requires forall i :: 0 <= i < |rows| ==> after[i].key == rows[i].key
    ensures PreviewsSound(after, previews)
  {
    hide Money.InRange;
    forall i | 0 <= i < |previews|
      ensures PreviewSound(after, previews[i])
    {
      assert PreviewSound(rows, previews[i]);
    }
  }

  /** A superseded adjustment and its reversal together contribute nothing, to any account on any day. */
  lemma {:induction false} SupersededVanishes(desk: Desk, i: nat, account: nat, day: Day)
    requires DeskSound(desk) && i < |desk.reconciliations|
    requires desk.reconciliations[i].superseded && desk.reconciliations[i].adjustmentId.Some?
    ensures exists k: nat :: k < |desk.book.log|
                             && desk.book.log[k].reversalOf == desk.reconciliations[i].adjustmentId
                             && Contribution(desk.book.log[desk.reconciliations[i].adjustmentId.value], account, day)
                                + Contribution(desk.book.log[k], account, day) == 0
  {
    hide Sound, Infrastructure, Contribution, PreviewSound, OneActive, KeysDistinct;
    var log := desk.book.log;
    assert RowLinked(log, desk.reconciliations[i]);
    var k :| 0 <= k < |log| && log[k].reversalOf == desk.reconciliations[i].adjustmentId;
    ReversedPairsCancel(desk.book, k, account, day);
  }

  lemma {:induction false} AdjustKeepsReversed(
      book: Book, account: nat, currency: nat, period: Day, adjustment: int, key: Key, id: nat)
    requires Adjust(book, account, currency, period, adjustment, key).Ok?
    ensures IsReversed(Adjust(book, account, currency, period, adjustment, key).value.book.log, id)
            <==> IsReversed(book.log, id)
  {
    hide HeaderAccepted, EntriesAccepted, FindKey;
    var after := Adjust(book, account, currency, period, adjustment, key).value.book.log;
    if after != book.log {
      assert after[|book.log|].reversalOf == None;
      if IsReversed(book.log, id) {
        IsReversedGrows(book.log, [after[|book.log|]], id);
      }
    }
  }

  /** A superseded adjustment is really reversed exactly when the reversal's derived key was unused in the ledger. */
  lemma {:induction false} SupersededIsReversedExactlyWhen(
      desk: Desk, account: nat, currency: nat, period: Day, reported: int, balance: int, c: nat, key: Key)
    requires Sound(desk.book) && FindReconciliation(desk.reconciliations, key).None?
    requires c < |desk.reconciliations| && desk.reconciliations[c].adjustmentId.Some?
    requires ApplyReconciliation(desk, account, currency, period, reported, balance, Some(c), key).Ok?
    ensures var after := ApplyReconciliation(desk, account, currency, period, reported, balance, Some(c),
                                             key).value.desk;
            && c < |after.reconciliations| && after.reconciliations[c].superseded
            && (IsReversed(after.book.log, desk.reconciliations[c].adjustmentId.value)
                <==> !HasKey(desk.book, ReconciliationReversal(c, key)))
  {
    hide Sound, PostReversal, Adjust, AccountBalanceAt, RowAccepted, FindKey, IsReversed;
    var original := desk.reconciliations[c].adjustmentId.value;
    ReversedExactlyWhenKeyFresh(desk.book, original, ReconciliationReversal(c, key));
    var cleared := Supersede(desk.book, desk.reconciliations, account, period, balance, Some(c), key).value;
    AdjustKeepsReversed(cleared.book, account, currency, period, reported - cleared.base, key, original);
  }

  /** The period's active reconciliation has an adjustment that was reversed by hand. */
  ghost predicate BlockedPeriod(desk: Desk, account: nat, period: Day) {
    var current := ActiveReconciliationId(desk.reconciliations, account, period);
    && current.Some? && desk.reconciliations[current.value].adjustmentId.Some?
    && IsReversed(desk.book.log, desk.reconciliations[current.value].adjustmentId.value)
  }

  lemma PostJournalNeverConflicts(book: Book, t: Transaction)
    ensures PostJournal(book, t) != Err(Conflict)
  {
    hide HeaderAccepted, EntriesAccepted, FindKey;
  }

  lemma ReversalConflictsExactlyWhen(book: Book, original: nat, key: Key)
    requires original < |book.log| && book.log[original].kind != Reversal
    ensures PostReversal(book, original, key) == Err(Conflict) <==> IsReversed(book.log, original)
  {
    hide PostJournal, IsReversed;
    PostJournalNeverConflicts(book, ReversalFor(book.log, original, key));
  }

  lemma AdjustNeverConflicts(book: Book, account: nat, currency: nat, period: Day, adjustment: int, key: Key)
    ensures Adjust(book, account, currency, period, adjustment, key) != Err(Failed(Conflict))
  {
    hide PostJournal;
    if adjustment != 0 {
      var code := if adjustment > 0 then OtherIncome else OtherExpense;
      if code in book.systems {
        PostJournalNeverConflicts(book, Transaction(Reconciliation, period, key, None, None,
                                                    AdjustmentEntries(account, book.systems[code], adjustment,
                                                                      currency)));
      }
    }
  }

  lemma {:induction false} SupersedeConflictsExactlyWhen(desk: Desk, account: nat, period: Day, balance: int, key: Key)
    requires RowsLinked(desk.book.log, desk.reconciliations)
    ensures Supersede(desk.book, desk.reconciliations, account, period, balance,
                      ActiveReconciliationId(desk.reconciliations, account, period), key) == Err(Failed(Conflict))
            <==> BlockedPeriod(desk, account, period)
  {
    hide PostReversal, IsReversed, AccountBalanceAt, RowsLinked;
    var current := ActiveReconciliationId(desk.reconciliations, account, period);
    if current.Some? && desk.reconciliations[current.value].adjustmentId.Some? {
      LinkedAdjustment(desk.book.log, desk.reconciliations, current.value);
      var original := desk.reconciliations[current.value].adjustmentId.value;
      ReversalConflictsExactlyWhen(desk.book, original, ReconciliationReversal(current.value, key));
      if PostReversal(desk.book, original, ReconciliationReversal(current.value, key)).Ok? {
        ReadNeverConflicts(PostReversal(desk.book, original, ReconciliationReversal(current.value, key)).value.book,
                           account, period);
      }
    }
  }

  lemma ReadNeverConflicts(book: Book, account: nat, day: Day)
    ensures AccountBalanceAt(book, account, day) != Err(Conflict)
  {
    hide Money.Parse, Money.NumericText, BalanceAt;
  }

  lemma LinkedAdjustment(log: seq<Transaction>, rows: seq<Reconciled>, i: nat)
    requires RowsLinked(log, rows) && i < |rows| && rows[i].adjustmentId.Some?
    ensures rows[i].adjustmentId.value < |log| && log[rows[i].adjustmentId.value].kind == Reconciliation
  {
    assert RowLinked(log, rows[i]);
  }

  /**
   A reconciliation with a new key is a conflict exactly when the period is blocked; UserPromises carries this over
   runs.
   */
  lemma {:induction false} ConflictExactlyWhenBlocked(
      desk: Desk, account: nat, currency: nat, period: Day, reported: int, balance: int, key: Key)
    requires DeskSound(desk) && FindReconciliation(desk.reconciliations, key).None?
    ensures ApplyReconciliation(desk, account, currency, period, reported, balance,
                                ActiveReconciliationId(desk.reconciliations, account, period),
                                key) == Err(Failed(Conflict))
            <==> BlockedPeriod(desk, account, period)
  {
    hide Sound, Infrastructure, RowsLinked, OneActive, KeysDistinct, PreviewsSound, BlockedPeriod, Supersede, Adjust,
      RowAccepted;
    var current := ActiveReconciliationId(desk.reconciliations, account, period);
    SupersedeConflictsExactlyWhen(desk, account, period, balance, key);
    var cleared := Supersede(desk.book, desk.reconciliations, account, period, balance, current, key);
    if cleared.Ok? {
      AdjustNeverConflicts(cleared.value.book, account, currency, period, reported - cleared.value.base, key);
    }
  }

  // ----- previews

  lemma {:induction false} FreshExactly(preview: Preview, balance: int, current: Option<nat>)
    requires Money.InRange(preview.ledger) && Money.InRange(balance)
    ensures IsFresh(preview, balance, current) <==> balance == preview.ledger && current == preview.current
  {
    hide Money.Parse, Money.String, Money.NumericText, Money.InRange;
    Money.EqualStringsExactly(Money.String(balance), Money.NumericText(preview.ledger));
    Money.ParseOfString(balance);
    Money.ParseOfNumericText(preview.ledger);
  }

  /** The report is read back as it was stored; a stored value the parser does not accept would count as zero. */
  lemma {:induction false} ReportedReadBack(preview: Preview)
    ensures ReportedBalance(preview) == if Money.InRange(preview.reported) then preview.reported else 0
  {
    Money.ParseOfNumericText(preview.reported);
  }

  /** A pending confirmation on a readable account gets as far as applying exactly when nothing relevant changed. */
  lemma {:induction false} ConfirmReachesApply(desk: Desk, id: nat, now: int)
    requires DeskSound(desk) && id < |desk.previews| && !desk.previews[id].deleted
    requires desk.previews[id].confirmed.None? && now <= desk.previews[id].expiresAt
    requires LockAccount(desk.book, desk.previews[id].account).Ok?
    requires AccountBalanceAt(desk.book, desk.previews[id].account, desk.previews[id].period).Ok?
    ensures var p := desk.previews[id];
            var balance := BalanceAt(desk.book.log, p.account, p.period);
            var current := ActiveReconciliationId(desk.reconciliations, p.account, p.period);
            var currency := desk.book.accounts[p.account].currency;
            var applied := ApplyReconciliation(desk, p.account, currency, p.period, p.reported, balance, current,
                                               p.key);
            ConfirmReconciliation(desk, id, now) ==
            if balance != p.ledger || current != p.current then Err(Stale)
            else if applied.Err? then Err(applied.error)
            else
              var marked := desk.previews[id := p.(confirmed := Some(applied.value.id))];
              Ok(Applied(applied.value.desk.(previews := marked), applied.value.id))
  {
    hide Sound, Infrastructure, BalanceAt, AccountBalanceAt, ApplyReconciliation, IsFresh, ReportedBalance,
      Money.InRange;
    var p := desk.previews[id];
    assert PreviewSound(desk.reconciliations, p);
    BalanceReadBack(desk.book, p.account, p.period);
    FreshExactly(p, BalanceAt(desk.book.log, p.account, p.period),
                 ActiveReconciliationId(desk.reconciliations, p.account, p.period));
    ReportedReadBack(p);
  }

  /** A pending confirmation is refused as expired exactly when it is late, whatever its account and the ledger hold. */
  lemma {:induction false} ExpiredExactlyWhen(desk: Desk, id: nat, now: int)
    requires id < |desk.previews| && !desk.previews[id].deleted && desk.previews[id].confirmed.None?
    ensures ConfirmReconciliation(desk, id, now) == Err(Expired) <==> now > desk.previews[id].expiresAt
  {
    hide LockAccount, AccountBalanceAt, ApplyReconciliation, IsFresh, ReportedBalance, ActiveReconciliationId;
    var p := desk.previews[id];
    var read, account := AccountBalanceAt(desk.book, p.account, p.period), LockAccount(desk.book, p.account);
    NeverExpires(desk.book, p.account);
    if read.Ok? && account.Ok? {
      ApplyIsNeverStale(desk, p.account, account.value.currency, p.period, ReportedBalance(p), read.value, p.key);
    }
  }

  lemma NeverExpires(book: Book, account: nat)
    ensures LockAccount(book, account) != Err(Expired)
  {
  }

  /**
   A timely confirmation on a readable account is refused as stale exactly when the balance or the active row moved.
   */
  lemma {:induction false} StaleExactlyWhen(desk: Desk, id: nat, now: int)
    requires DeskSound(desk) && id < |desk.previews| && !desk.previews[id].deleted && desk.previews[id].confirmed.None?
    requires LockAccount(desk.book, desk.previews[id].account).Ok?
    requires AccountBalanceAt(desk.book, desk.previews[id].account, desk.previews[id].period).Ok?
    ensures var p := desk.previews[id];
            ConfirmReconciliation(desk, id, now) == Err(Stale) <==>
              && now <= p.expiresAt
              && (BalanceAt(desk.book.log, p.account, p.period) != p.ledger
                  || ActiveReconciliationId(desk.reconciliations, p.account, p.period) != p.current)
  {
    hide DeskSound, BalanceAt, ApplyReconciliation, AccountBalanceAt, ActiveReconciliationId, IsFresh;
    var p := desk.previews[id];
    if now <= p.expiresAt {
      ConfirmReachesApply(desk, id, now);
      var currency := desk.book.accounts[p.account].currency;
      ApplyIsNeverStale(desk, p.account, currency, p.period, p.reported, BalanceAt(desk.book.log, p.account, p.period),
                        p.key);
    }
  }

  lemma {:induction false} ApplyIsNeverStale(
      desk: Desk, account: nat, currency: nat, period: Day, reported: int, balance: int, key: Key)
    ensures var applied := ApplyReconciliation(desk, account, currency, period, reported, balance,
                                               ActiveReconciliationId(desk.reconciliations, account, period), key);
            applied != Err(Stale) && applied != Err(Expired)
  {
    hide PostReversal, PostJournal, AccountBalanceAt, RowAccepted;
  }

  /**
   A confirmation that records anything records what was previewed: the reported and ledger balances, the
   difference, and the adjustment that follows from the reconciliation active at preview time, whatever was
   posted in between and cancelled out.
   */
  lemma {:induction false} ConfirmRecordsThePreview(desk: Desk, id: nat, now: int)
    requires DeskSound(desk) && id < |desk.previews| && desk.previews[id].confirmed.None?
    requires FindReconciliation(desk.reconciliations, desk.previews[id].key).None?
    requires FreshKeys(desk.book, desk.previews[id].current, desk.previews[id].key)
    requires ConfirmReconciliation(desk, id, now).Ok?
    ensures var p := desk.previews[id];
            var after := ConfirmReconciliation(desk, id, now).value;
            && DeskSound(after.desk) && Grows(desk.book, after.desk.book)
            && |after.desk.reconciliations| == |desk.reconciliations| + 1
            && after.id == |desk.reconciliations|
            && after.desk.previews == desk.previews[id := p.(confirmed := Some(after.id))]
            && var row := after.desk.reconciliations[after.id];
            && row.reported == p.reported && row.ledgerBefore == p.ledger && row.difference == p.difference
            && row.adjustment == p.difference + (if p.current.Some?
                                                 then desk.reconciliations[p.current.value].adjustment else 0)
            && row.supersedes == p.current
            && BalanceAt(after.desk.book.log, p.account, p.period) == p.reported
  {
    hide Sound, Infrastructure, BalanceAt, AccountBalanceAt, ApplyReconciliation, RowLinked, Money.InRange;
    var p := desk.previews[id];
    assert PreviewSound(desk.reconciliations, p);
    var currency := desk.book.accounts[p.account].currency;
    ConfirmReachesApply(desk, id, now);
    ApplyKeepsTheDesk(desk, p.account, currency, p.period, p.reported, p.key);
    AppliedSupersedes(desk, p.account, currency, p.period, p.reported, BalanceAt(desk.book.log, p.account, p.period),
                      p.current, p.key);
    var after := ConfirmReconciliation(desk, id, now).value;
    forall i | 0 <= i < |after.desk.previews|
      ensures PreviewSound(after.desk.reconciliations, after.desk.previews[i])
    {
      var applied := ApplyReconciliation(desk, p.account, currency, p.period, p.reported,
                                         BalanceAt(desk.book.log, p.account, p.period), p.current, p.key);
      assert PreviewSound(applied.value.desk.reconciliations, desk.previews[i]);
    }
  }

  lemma {:induction false} AppliedSupersedes(
      desk: Desk, account: nat, currency: nat, period: Day, reported: int, balance: int, current: Option<nat>,
      key: Key)
    requires FindReconciliation(desk.reconciliations, key).None?
    requires ApplyReconciliation(desk, account, currency, period, reported, balance, current, key).Ok?
    ensures var after := ApplyReconciliation(desk, account, currency, period, reported, balance, current, key).value;
            after.desk.reconciliations[after.id].supersedes == current
  {
    hide Supersede, Adjust, RowAccepted;
  }

  /** A preview whose key was applied meanwhile is marked with that reconciliation and posts nothing. */
  lemma {:induction false} ConfirmOfAppliedKey(desk: Desk, id: nat, now: int)
    requires DeskSound(desk) && id < |desk.previews| && desk.previews[id].confirmed.None?
    requires FindReconciliation(desk.reconciliations, desk.previews[id].key).Some?
    requires ConfirmReconciliation(desk, id, now).Ok?
    ensures var found := FindReconciliation(desk.reconciliations, desk.previews[id].key).value;
            var after := ConfirmReconciliation(desk, id, now).value;
            && after.id == found
            && after.desk == desk.(previews := desk.previews[id := desk.previews[id].(confirmed := Some(found))])
            && DeskSound(after.desk)
  {
    hide Sound, Infrastructure, AccountBalanceAt, IsFresh, ReportedBalance, Supersede, Adjust, RowsLinked,
      Money.InRange;
    var after := ConfirmReconciliation(desk, id, now).value.desk;
    forall i | 0 <= i < |after.previews|
      ensures PreviewSound(after.reconciliations, after.previews[i])
    {
      assert PreviewSound(desk.reconciliations, desk.previews[i]);
    }
  }

  /** A confirmed preview, as long as it and its reconciliation are there, is answered without changing anything. */
  lemma ConfirmedIsAnswered(desk: Desk, id: nat, now: int)
    requires id < |desk.previews| && !desk.previews[id].deleted && desk.previews[id].confirmed.Some?
    requires desk.previews[id].confirmed.value < |desk.reconciliations|
    ensures ConfirmReconciliation(desk, id, now) == Ok(Applied(desk, desk.previews[id].confirmed.value))
  {
  }

  /** After a successful confirmation the preview names the reconciliation that was returned. */
  lemma {:induction false} ConfirmLinksThePreview(desk: Desk, id: nat, now: int)
    requires ConfirmReconciliation(desk, id, now).Ok?
    ensures var after := ConfirmReconciliation(desk, id, now).value;
            && id < |after.desk.previews| && !after.desk.previews[id].deleted
            && after.desk.previews[id].confirmed == Some(after.id) && after.id < |after.desk.reconciliations|
  {
    hide ApplyReconciliation, AccountBalanceAt, LockAccount, IsFresh, ReportedBalance, ActiveReconciliationId;
  }

  /** A preview confirmed with nothing in between leaves the ledger, reconciliations and snapshots that AUTO would. */
  lemma {:induction false} PreviewThenConfirmIsAuto(
      desk: Desk, today: Calendar.Date, now: int, later: int, request: Request)
    requires DeskSound(desk) && now <= later <= now + PREVIEW_SECONDS
    requires PrepareReconciliation(desk, false, today, now, request).Ok?
    requires FindReconciliation(desk.reconciliations, request.key).None?
             && FindPreview(desk.previews, request.key).None?
    ensures var prepared := PrepareReconciliation(desk, false, today, now, request).value;
            && prepared.outcome == PreviewOutcome(|desk.previews|)
            && prepared.desk.book == desk.book && prepared.desk.reconciliations == desk.reconciliations
            && match (ConfirmReconciliation(prepared.desk, |desk.previews|, later),
                      PrepareReconciliation(desk, true, today, now, request))
               case (Ok(confirmed), Ok(auto)) =>
                 && auto.outcome == AppliedOutcome(confirmed.id)
                 && auto.desk == confirmed.desk.(previews := desk.previews)
               case (Err(e), Err(f)) => e == f
               case _ => false
  {
    hide Sound, Infrastructure, BalanceAt, AccountBalanceAt, ApplyReconciliation, IsFresh, ReportedBalance,
      Money.Parse, Money.InRange;
    PreviewIsSound(desk, today, now, request);
    var prepared := PrepareReconciliation(desk, false, today, now, request).value;
    var period := Calendar.DayNumber(request.period);
    BalanceReadBack(desk.book, request.account, period);
    ConfirmReachesApply(prepared.desk, |desk.previews|, later);
    var p := prepared.desk.previews[|desk.previews|];
    ApplyIgnoresPreviews(desk, prepared.desk.previews, p.account, desk.book.accounts[p.account].currency, period,
                         p.reported, p.ledger, p.current, p.key);
  }

  lemma {:induction false} ApplyIgnoresPreviews(
      desk: Desk, previews: seq<Preview>, account: nat, currency: nat, period: Day, reported: int, balance: int,
      current: Option<nat>, key: Key)
    ensures var one := ApplyReconciliation(desk, account, currency, period, reported, balance, current, key);
            var two := ApplyReconciliation(desk.(previews := previews), account, currency, period, reported, balance,
                                           current, key);
            match one
            case Ok(applied) => two == Ok(Applied(applied.desk.(previews := previews), applied.id))
            case Err(e) => two == Err(e)
  {
    hide Supersede, Adjust, RowAccepted;
  }

  lemma {:induction false} PreparedPreview(desk: Desk, today: Calendar.Date, now: int, request: Request)
    requires PreviewsSound(desk.reconciliations, desk.previews)
    requires PrepareReconciliation(desk, false, today, now, request).Ok?
    ensures var after := PrepareReconciliation(desk, false, today, now, request).value.desk;
            && after == desk.(previews := after.previews)
            && |desk.previews| <= |after.previews| && after.previews[..|desk.previews|] == desk.previews
            && PreviewsSound(after.reconciliations, after.previews)
  {
    hide BalanceAt, AccountBalanceAt, ApplyReconciliation, Money.InRange, Money.Parse, Calendar.DayNumber,
      Windows.ValidateReconciliationPeriod, LockAccount;
    Money.ParseInRange(request.reported);
    var after := PrepareReconciliation(desk, false, today, now, request).value.desk;
    if after.previews != desk.previews {
      BalanceReadBack(desk.book, request.account, Calendar.DayNumber(request.period));
      forall i | 0 <= i < |after.previews|
        ensures PreviewSound(after.reconciliations, after.previews[i])
      {
        if i < |desk.previews| {
          assert PreviewSound(desk.reconciliations, desk.previews[i]);
        }
      }
    }
  }

  /** Preparing a preview changes nothing but the previews. */
  lemma {:induction false} PreviewIsSound(desk: Desk, today: Calendar.Date, now: int, request: Request)
    requires DeskSound(desk) && PrepareReconciliation(desk, false, today, now, request).Ok?
    ensures var after := PrepareReconciliation(desk, false, today, now, request).value.desk;
            && DeskSound(after)
            && after == desk.(previews := after.previews)
            && |desk.previews| <= |after.previews| && after.previews[..|desk.previews|] == desk.previews
  {
    hide Sound, Infrastructure, RowsLinked, OneActive, KeysDistinct, PreviewsSound, PrepareReconciliation;
    PreparedPreview(desk, today, now, request);
  }

  lemma CleanupKeepsPreviews(rows: seq<Reconciled>, previews: seq<Preview>, now: int)
    requires PreviewsSound(rows, previews)
    ensures PreviewsSound(rows, DeleteExpired(previews, now))
  {
    hide Money.InRange;
    forall i | 0 <= i < |previews|
      ensures PreviewSound(rows, DeleteExpired(previews, now)[i])
    {
      assert PreviewSound(rows, previews[i]);
    }
  }

  /** AUTO applies at once: with fresh keys the desk stays sound and the balance at the period end is the report. */
  lemma {:induction false} AutoKeepsTheDesk(desk: Desk, today: Calendar.Date, now: int, request: Request)
    requires DeskSound(desk) && PrepareReconciliation(desk, true, today, now, request).Ok?
    requires FindReconciliation(desk.reconciliations, request.key).None?
             && FindPreview(desk.previews, request.key).None?
    requires FreshKeys(desk.book, ActiveReconciliationId(desk.reconciliations, request.account,
                                                         Calendar.DayNumber(request.period)), request.key)
    ensures var after := PrepareReconciliation(desk, true, today, now, request).value.desk;
            && DeskSound(after) && Grows(desk.book, after.book)
            && Some(BalanceAt(after.book.log, request.account, Calendar.DayNumber(request.period))) ==
               (match Money.Parse(request.reported) case Ok(reported) => Some(reported) case Err(_) => None)
  {
    hide DeskSound, BalanceAt, AccountBalanceAt, ApplyReconciliation, Money.Parse, Money.InRange, FindReconciliation,
      FindPreview, ActiveReconciliationId, FreshKeys, Grows, Calendar.DayNumber, Windows.ValidateReconciliationPeriod;
    var period := Calendar.DayNumber(request.period);
    BalanceReadBack(desk.book, request.account, period);
    ApplyKeepsTheDesk(desk, request.account, desk.book.accounts[request.account].currency, period,
                      Money.Parse(request.reported).value, request.key);
  }

  lemma {:induction false} CleanupKeepsTheDesk(desk: Desk, now: int)
    requires DeskSound(desk)
    ensures DeskSound(desk.(previews := DeleteExpired(desk.previews, now)))
  {
    hide Sound, Infrastructure, PreviewsSound;
    CleanupKeepsPreviews(desk.reconciliations, desk.previews, now);
  }
}
