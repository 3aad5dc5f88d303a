/** The reconciliation rows of one user over every run of requests, whatever keys the requests use. */
module UserDesks {
  import opened Prelude
  import opened Ledger
  import opened UserRuns
  import opened UserPromises
  import Accounts
  import Calendar
  import Money
  import Reconciling
  import ReconcilingLaws
  import Windows

  /** One active reconciliation per account and period, one per key, and previews that say what was confirmed. */
  ghost predicate Ordered(desk: Reconciling.Desk) {
    && ReconcilingLaws.OneActive(desk.reconciliations) && ReconcilingLaws.KeysDistinct(desk.reconciliations)
    && ReconcilingLaws.PreviewsSound(desk.reconciliations, desk.previews)
  }

  /** Rows keep their keys and their places. */
  ghost predicate KeysStay(before: seq<Reconciling.Reconciled>, after: seq<Reconciling.Reconciled>) {
    |before| <= |after| && forall i :: 0 <= i < |before| ==> after[i].key == before[i].key
  }

  lemma PreviewsFollow(
      before: seq<Reconciling.Reconciled>, after: seq<Reconciling.Reconciled>, previews: seq<Reconciling.Preview>)
    requires ReconcilingLaws.PreviewsSound(before, previews) && KeysStay(before, after)
    ensures ReconcilingLaws.PreviewsSound(after, previews)
  {
    hide Money.InRange;
    forall i | 0 <= i < |previews|
      ensures ReconcilingLaws.PreviewSound(after, previews[i])
    {
      assert ReconcilingLaws.PreviewSound(before, previews[i]);
    }
  }

  /** Applying a reconciliation on top of the active one keeps the rows in order, whether or not its keys are fresh. */
  lemma {:induction false} ApplyKeepsOrder(
      desk: Reconciling.Desk, account: nat, currency: nat, period: Day, reported: int, balance: int, key: Key)
    requires ReconcilingLaws.OneActive(desk.reconciliations) && ReconcilingLaws.KeysDistinct(desk.reconciliations)
    requires Reconciling.ApplyReconciliation(desk, account, currency, period, reported, balance,
               Reconciling.ActiveReconciliationId(desk.reconciliations, account, period), key).Ok?
    ensures var applied := Reconciling.ApplyReconciliation(desk, account, currency, period, reported, balance,
                             Reconciling.ActiveReconciliationId(desk.reconciliations, account, period), key).value;
            var rows := applied.desk.reconciliations;
            && ReconcilingLaws.OneActive(rows) && ReconcilingLaws.KeysDistinct(rows)
            && KeysStay(desk.reconciliations, rows) && rows[applied.id].key == key
  {
    hide Reconciling.ApplyReconciliation, Reconciling.Supersede, Reconciling.IsActive;
    var rows := desk.reconciliations;
    var current := Reconciling.ActiveReconciliationId(rows, account, period);
    var applied := Reconciling.ApplyReconciliation(desk, account, currency, period, reported, balance, current,
                                                   key).value;
    if Reconciling.FindReconciliation(rows, key).None? {
      AppliedRows(desk, account, currency, period, reported, balance, current, key);
      AppliedIsLast(desk, account, currency, period, reported, balance, current, key);
      AppendedStayOneActive(rows, applied.desk.reconciliations, account, period);
    } else {
      KnownKeyApplies(desk, account, currency, period, reported, balance, current, key);
    }
  }

  lemma AppliedIsLast(
      desk: Reconciling.Desk, account: nat, currency: nat, period: Day, reported: int, balance: int,
      current: Option<nat>, key: Key)
    requires Reconciling.FindReconciliation(desk.reconciliations, key).None?
    requires Reconciling.ApplyReconciliation(desk, account, currency, period, reported, balance, current, key).Ok?
    ensures var applied := Reconciling.ApplyReconciliation(desk, account, currency, period, reported, balance, current,
                                                           key);
            applied.value.id == |applied.value.desk.reconciliations| - 1
  {
    hide Reconciling.Supersede, Reconciling.Adjust, Reconciling.RowAccepted, Reconciling.FindReconciliation;
  }

  lemma {:induction false} PrepareKeepsOrder(
      desk: Reconciling.Desk, auto: bool, today: Calendar.Date, now: int, request: Reconciling.Request)
    requires Ordered(desk) && Reconciling.PrepareReconciliation(desk, auto, today, now, request).Ok?
    ensures Ordered(Reconciling.PrepareReconciliation(desk, auto, today, now, request).value.desk)
  {
    hide Reconciling.ApplyReconciliation, AccountBalanceAt, Reconciling.LockAccount, Money.Parse, Money.InRange,
      KeysStay, Windows.ValidateReconciliationPeriod, Calendar.DayNumber, Reconciling.FindReconciliation,
      Reconciling.FindPreview, Reconciling.ActiveReconciliationId, ReconcilingLaws.OneActive,
      ReconcilingLaws.KeysDistinct, ReconcilingLaws.PreviewsSound;
    var period := Calendar.DayNumber(request.period);
    var read, parsed, account := AccountBalanceAt(desk.book, request.account, period), Money.Parse(request.reported),
      Reconciling.LockAccount(desk.book, request.account);
    if !auto {
      ReconcilingLaws.PreparedPreview(desk, today, now, request);
    } else if read.Ok? && parsed.Ok? && account.Ok? {
      var current := Reconciling.ActiveReconciliationId(desk.reconciliations, request.account, period);
      var applied := Reconciling.ApplyReconciliation(desk, request.account, account.value.currency, period,
                                                     parsed.value, read.value, current, request.key);
      if applied.Ok? {
        ApplyKeepsOrder(desk, request.account, account.value.currency, period, parsed.value, read.value, request.key);
        PreviewsFollow(desk.reconciliations, applied.value.desk.reconciliations, desk.previews);
      }
    }
  }

  lemma {:induction false} ConfirmKeepsOrder(desk: Reconciling.Desk, id: nat, now: int)
    requires Ordered(desk) && Reconciling.ConfirmReconciliation(desk, id, now).Ok?
    ensures Ordered(Reconciling.ConfirmReconciliation(desk, id, now).value.desk)
  {
    hide Reconciling.ApplyReconciliation, AccountBalanceAt, Reconciling.LockAccount, Reconciling.IsFresh, KeysStay,
      Reconciling.ReportedBalance, Reconciling.ActiveReconciliationId, ReconcilingLaws.OneActive,
      ReconcilingLaws.KeysDistinct, ReconcilingLaws.PreviewsSound;
    var p := desk.previews[id];
    var read, account := AccountBalanceAt(desk.book, p.account, p.period),
      Reconciling.LockAccount(desk.book, p.account);
    if p.confirmed.None? && read.Ok? && account.Ok? {
      var current := Reconciling.ActiveReconciliationId(desk.reconciliations, p.account, p.period);
      var applied := Reconciling.ApplyReconciliation(desk, p.account, account.value.currency, p.period,
                                                     Reconciling.ReportedBalance(p), read.value, current, p.key);
      ApplyKeepsOrder(desk, p.account, account.value.currency, p.period, Reconciling.ReportedBalance(p), read.value,
                      p.key);
      PreviewsFollow(desk.reconciliations, applied.value.desk.reconciliations, desk.previews);
      MarkingKeepsPreviews(applied.value.desk.reconciliations, desk.previews, id, applied.value.id);
    }
  }

  lemma MarkingKeepsPreviews(rows: seq<Reconciling.Reconciled>, previews: seq<Reconciling.Preview>, id: nat, row: nat)
    requires ReconcilingLaws.PreviewsSound(rows, previews) && id < |previews|
    requires row < |rows| && rows[row].key == previews[id].key
    ensures ReconcilingLaws.PreviewsSound(rows, previews[id := previews[id].(confirmed := Some(row))])
  {
    hide Money.InRange;
    var marked := previews[id := previews[id].(confirmed := Some(row))];
    forall i | 0 <= i < |marked|
      ensures ReconcilingLaws.PreviewSound(rows, marked[i])
    {
      assert ReconcilingLaws.PreviewSound(rows, previews[i]);
    }
  }

  lemma {:induction false} ActionKeepsOrder(s: UserState, action: Action)
    requires Ordered(s.desk)
    ensures Ordered(Perform(s, action).desk)
  {
    hide Reconciling.PrepareReconciliation, Reconciling.ConfirmReconciliation, ReconcilingLaws.OneActive,
      ReconcilingLaws.KeysDistinct, ReconcilingLaws.PreviewsSound;
    match action {
      case Prepare(auto, today, now, request) =>
        if Reconciling.PrepareReconciliation(s.desk, auto, today, now, request).Ok? {
          PrepareKeepsOrder(s.desk, auto, today, now, request);
        }
      case Confirm(preview, at) =>
        if Reconciling.ConfirmReconciliation(s.desk, preview, at).Ok? {
          ConfirmKeepsOrder(s.desk, preview, at);
        }
      case Cleanup(cutoff) => ReconcilingLaws.CleanupKeepsPreviews(s.desk.reconciliations, s.desk.previews, cutoff);
      case _ => OtherDeskRowsStay(s, action);
    }
  }

  /**
   Over every sequence of requests with any keys: at most one active reconciliation per account and period, one per
   key, and each confirmed preview names the reconciliation with its key. Only the link from a row to its adjustment
   needs fresh keys.
   */
  lemma {:induction false} EveryRunKeepsOrder(s: UserState, actions: seq<Action>)
    requires Ordered(s.desk)
    ensures Ordered(PerformAll(s, actions).desk)
    decreases |actions|
  {
    hide Perform, Ordered;
    if actions != [] {
      ActionKeepsOrder(s, actions[0]);
      EveryRunKeepsOrder(Perform(s, actions[0]), actions[1..]);
    }
  }

  /**
   An account that was ever reconciled keeps its currency: an edit that would change it changes nothing. Without
   postings and snapshots the edit takes effect.
   */
  lemma {:induction false} SnapshotsLockTheCurrency(s: UserState, id: nat, currency: nat)
    requires id in s.desk.book.accounts && s.desk.book.accounts[id].role == User
    requires currency != s.desk.book.accounts[id].currency && !Accounts.HasPostings(s.desk.book, id)
    ensures var after := Perform(s, EditAccount(id, Some(currency), None));
            && after.desk.reconciliations == s.desk.reconciliations && after.desk.snapshots == s.desk.snapshots
            && id in after.desk.book.accounts
            && (after.desk.book.accounts[id].currency == currency
                <==> forall row :: row in s.desk.snapshots ==> row.account != id)
            && (after.desk.book.accounts[id].currency != currency ==> after == s)
  {
    hide Accounts.HasPostings;
    if HasSnapshot(s.desk, id) {
      var i :| 0 <= i < |s.desk.snapshots| && s.desk.snapshots[i].account == id;
      assert s.desk.snapshots[i] in s.desk.snapshots;
    }
  }

  /** The reconciliation that counts for a period is therefore the same however the rows are searched. */
  lemma {:induction false} EveryActiveReconciliationIsTheOne(
      s: UserState, actions: seq<Action>, c: nat, account: nat, period: Day)
    requires Ordered(s.desk) && c < |PerformAll(s, actions).desk.reconciliations|
    requires Reconciling.IsActive(PerformAll(s, actions).desk.reconciliations[c], account, period)
    ensures Reconciling.ActiveReconciliationId(PerformAll(s, actions).desk.reconciliations, account, period) == Some(c)
  {
    hide PerformAll;
    EveryRunKeepsOrder(s, actions);
    ActiveIsTheOne(PerformAll(s, actions).desk.reconciliations, c, account, period);
  }
}
