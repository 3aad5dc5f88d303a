/**
 What a user asks for and what the worker will then do: the dates of a template as requested, what an edit changes and
 what it leaves, and why a template pauses.
 */
module RecurringRequests {
  import opened Prelude
  import opened Calendar
  import opened Schedule
  import opened Recurring
  import opened RecurringLaws
  import opened RecurringRuns
  import Ledger
  import LedgerAcceptance
  import LedgerLaws
  import Money

  // ----- the dates a template asks for

  /** The date is so many months after the anchor, on the anchor's day or the last day of a shorter month. */
  predicate MonthsOn(anchor: Date, date: Date, months: int) {
    && Index(date) == Index(anchor) + months
    && (date.day == anchor.day || (date.day == DaysIn(Index(date)) && date.day < anchor.day))
  }

  /** The k-th date a request asks for, counted from its start date. */
  predicate AskedFor(request: NewTemplate, k: nat, date: Date) {
    match request.frequency
    case Weekly => DayNumber(date) == DayNumber(request.start) + 7 * k
    case Monthly => MonthsOn(request.start, date, k)
    case Quarterly => MonthsOn(request.start, date, 3 * k)
    case Yearly => MonthsOn(request.start, date, 12 * k)
    case Custom =>
      && request.count.Some? && request.unit.Some?
      && match request.unit.value
         case Days => DayNumber(date) == DayNumber(request.start) + k * request.count.value
         case Weeks => DayNumber(date) == DayNumber(request.start) + 7 * (k * request.count.value)
         case Months => MonthsOn(request.start, date, k * request.count.value)
         case Years => MonthsOn(request.start, date, 12 * (k * request.count.value))
  }

  lemma {:induction false} SlotInMonths(anchor: Date, months: int)
    ensures MonthsOn(anchor, AddMonthsClamped(anchor, months), months)
  {
    hide AddMonthsClamped, DaysIn;
    AddMonthsClampedLands(anchor, months);
  }

  /** Every date of a created template's schedule is the date the request asked for: week by week, month by month. */
  lemma {:induction false} CreatedDates(book: Ledger.Book, user: nat, request: NewTemplate, k: nat)
    requires CreateTemplate(book, user, request).Ok?
    ensures var t := CreateTemplate(book, user, request).value;
            && t.start == t.next == request.start && t.count >= 1
            && AskedFor(request, k, Slot(t.start, t.unit, t.count, k))
            && (k == 0 ==> Slot(t.start, t.unit, t.count, k) == request.start)
  {
    hide DayNumber, AddMonthsClamped, AddDays, MonthsOn, ValidateDependencies, Money.Parse, Money.String, Before;
    var t := CreateTemplate(book, user, request).value;
    SlotZero(t.start, t.unit, t.count);
    if t.unit.Days? {
      AddDaysShifts(t.start, k * t.count);
    } else if t.unit.Weeks? {
      AddDaysShifts(t.start, k * (7 * t.count));
      assert k * (7 * t.count) == 7 * (k * t.count);
    } else {
      SlotInMonths(t.start, k * StepMonths(t.unit, t.count));
      assert t.unit.Years? ==> k * (t.count * 12) == 12 * (k * t.count);
    }
  }

  /** A creation request is accepted exactly for a well-formed schedule, a positive amount and usable rows. */
  lemma {:induction false} CreatedExactlyWhen(book: Ledger.Book, id: nat, user: nat, request: NewTemplate)
    ensures CreateTemplate(book, user, request).Ok? <==>
              && (request.frequency == Custom ==>
                    request.unit.Some? && request.count.Some? && 1 <= request.count.value <= 365)
              && (request.end.Some? ==> !LexicographicallyBefore(request.end.value, request.start))
              && Money.Parse(request.amount).Ok? && Money.Parse(request.amount).value > 0
              && Ledger.OpeningEquity in book.systems
              && request.kind != Ledger.OpenAccount
              && LedgerLaws.Usable(book, Ledger.Operation(request.kind, 0, request.amount, Ledger.Occurrence(id, 0),
                                                          request.account, request.category, request.source,
                                                          request.destination))
    ensures CreateTemplate(book, user, request).Ok? ==>
              var t := CreateTemplate(book, user, request).value;
              && t.account == request.account && t.category == request.category
              && t.source == request.source && t.destination == request.destination
              && t.user == user && t.kind == request.kind && t.end == request.end
              && t.active && !t.archived && t.reason.None?
  {
    hide DayNumber, Money.Parse, Money.String, NormalizeSchedule;
    NormalizedSchedules(request.frequency, request.unit, request.count, request.start, request.end);
  }

  // ----- edits

  /** What an edit must bring: a positive amount, an end not before the start. */
  predicate EditWellFormed(t: Template, patch: Patch) {
    && (patch.amount.Some? ==> Money.Parse(patch.amount.value).Ok? && Money.Parse(patch.amount.value).value > 0)
    && (patch.end.Some? ==> !LexicographicallyBefore(patch.end.value, t.start))
  }

  /** Resuming also needs the template unarchived, its next date within a new end, and its rows usable. */
  ghost predicate CanResume(book: Ledger.Book, id: nat, t: Template, patch: Patch) {
    && patch.archived != Some(true) && (t.archived ==> patch.archived == Some(false))
    && (patch.end.Some? ==> !LexicographicallyBefore(patch.end.value, t.next))
    && t.kind != Ledger.OpenAccount && LedgerLaws.Usable(book, OperationFor(id, t))
  }

  lemma {:induction false} EditedExactlyWhen(book: Ledger.Book, id: nat, t: Template, patch: Patch)
    ensures UpdateTemplate(book, t, patch).Ok?
            <==> EditWellFormed(t, patch) && (patch.active == Some(true) ==> CanResume(book, id, t, patch))
  {
    hide DayNumber, Money.Parse, Money.String, Dependencies, LedgerLaws.Usable;
    DependenciesExactlyWhenUsable(book, id, t);
    if patch.end.Some? {
      OrderIsLexicographic(patch.end.value, t.start);
      OrderIsLexicographic(patch.end.value, t.next);
    }
  }

  /**
   Every accepted edit, resuming or not: a new amount is the amount posted from now on, a new end is in force, and
   what is not asked for stays. The template is active exactly if it was asked to be, or was before and is neither
   asked to pause nor to be archived, and the stored reason says which of these it was.
   */
  lemma {:induction false} EditTakesEffect(book: Ledger.Book, t: Template, patch: Patch)
    requires UpdateTemplate(book, t, patch).Ok?
    ensures var after := UpdateTemplate(book, t, patch).value;
            && (patch.amount.Some? ==> Money.Parse(after.amount) == Money.Parse(patch.amount.value))
            && (patch.amount.None? ==> after.amount == t.amount)
            && (patch.end.Some? ==> after.end == patch.end) && (patch.end.None? ==> after.end == t.end)
            && (patch.archived.Some? ==> after.archived == patch.archived.value)
            && (patch.archived.None? ==> after.archived == t.archived)
            && (after.active <==> patch.active == Some(true)
                                  || (t.active && patch.active.None? && patch.archived != Some(true)))
            && (patch.archived == Some(true) ==> after.reason == Some(PausedByArchiving))
            && (patch.archived != Some(true) && patch.active == Some(false) ==> after.reason == Some(PausedByUser))
            && (patch.active == Some(true) ==> after.reason.None?)
            && (patch.archived != Some(true) && patch.active.None? ==> after.reason == t.reason)
            && after == t.(amount := after.amount, end := after.end, active := after.active, reason := after.reason,
                           archived := after.archived)
  {
    hide DayNumber, Money.Parse, Money.String, Dependencies;
    if patch.amount.Some? {
      Money.ParseInRange(patch.amount.value);
      Money.ParseOfString(Money.Parse(patch.amount.value).value);
    }
  }

  // ----- why a template pauses

  /** A run pauses a template exactly when its next date lies past its end, and stores that it is completed. */
  lemma {:induction false} RunPausesCompleted(t: Template, today: Date, budget: nat)
    requires t.count >= 1
    ensures var after := Fire(t, today, budget).template;
            && after == t.(next := after.next, active := after.active, reason := after.reason)
            && if after.end.Some? && LexicographicallyBefore(after.end.value, after.next)
               then !after.active && after.reason == Some(Completed)
               else after.active == t.active && after.reason == t.reason
    decreases budget
  {
    hide DayNumber, Next;
    if After(t.next, today) || budget == 0 || PastEnd(t) {
      if t.end.Some? {
        OrderIsLexicographic(t.end.value, t.next);
      }
    } else {
      RunPausesCompleted(Step(t), today, budget - 1);
    }
  }

  /** The template uses the account or the category. */
  predicate UsesAccount(t: Template, account: nat) {
    t.account == Some(account) || t.source == Some(account) || t.destination == Some(account)
  }

  /**
   Archiving an account or a category pauses exactly the owner's active templates that use it, with that reason, and
   touches nothing else of them.
   */
  lemma {:induction false} ArchivingPauses(world: World, user: nat, book: Ledger.Book, id: nat)
    requires user in world.books && id in world.templates
    ensures var t, after := world.templates[id], Happen(world, BookChanged(user, book)).templates[id];
            var before := world.books[user];
            var hit :=
              || (exists a :: a in before.accounts && a in book.accounts && UsesAccount(t, a)
                              && !before.accounts[a].archived && book.accounts[a].archived)
              || (t.category.Some? && t.category.value in before.categories && t.category.value in book.categories
                  && !before.categories[t.category.value].archived && book.categories[t.category.value].archived);
            after == if t.user == user && t.active && !t.archived && hit
                     then t.(active := false, reason := Some(DependencyArchived)) else t
  {
  }

  // ----- refusals

  /** Each error of the check of a template's accounts and category has its reason. */
  lemma {:induction false} DependencyRefusals(book: Ledger.Book, t: Template)
    requires Dependencies(book, t).Err?
    ensures match Dependencies(book, t).error
            case Validation =>
              || t.kind == Ledger.OpenAccount
              || (if t.kind.Move? || t.kind.Buy? then t.source.None? || t.destination.None? || t.source == t.destination
                  else t.account.None? || t.category.None?)
            case NotFound =>
              || LedgerAcceptance.NoSuchAccount(book, t.account) || LedgerAcceptance.NoSuchAccount(book, t.source)
              || LedgerAcceptance.NoSuchAccount(book, t.destination)
              || (t.category.Some? && t.category.value !in book.categories)
            case Conflict =>
              || NoAsset(book, t.account) || NoAsset(book, t.source) || NoAsset(book, t.destination)
              || (t.category.Some? && t.category.value in book.categories
                  && (book.categories[t.category.value].archived
                      || !(book.categories[t.category.value].direction.Incoming? <==> t.kind.Earn?)))
            case FxUnavailable =>
              || LedgerAcceptance.ForeignAccount(book, t.account) || LedgerAcceptance.ForeignAccount(book, t.source)
              || LedgerAcceptance.ForeignAccount(book, t.destination)
            case Rejected => false
  {
  }

  /** The account is archived or no asset. */
  ghost predicate NoAsset(book: Ledger.Book, id: Option<nat>) {
    id.Some? && id.value in book.accounts
    && (book.accounts[id.value].archived || book.accounts[id.value].accountClass != Ledger.Asset)
  }

  /** Each error of a creation has its reason. */
  lemma {:induction false} CreationRefusals(book: Ledger.Book, id: nat, user: nat, request: NewTemplate)
    requires CreateTemplate(book, user, request).Err?
    ensures match CreateTemplate(book, user, request).error
            case InvalidSchedule =>
              || (request.frequency == Custom
                  && !(request.unit.Some? && request.count.Some? && 1 <= request.count.value <= 365))
              || (request.end.Some? && LexicographicallyBefore(request.end.value, request.start))
            case InvalidAmount => Money.Parse(request.amount).Err? || Money.Parse(request.amount).value <= 0
            case InvalidType => request.kind == Ledger.OpenAccount
            case Dependency(e) =>
              || Ledger.OpeningEquity !in book.systems
              || ValidateDependencies(book, request.kind, request.account, request.category, request.source,
                                      request.destination) == Err(e)
            case _ => false
  {
    hide DayNumber, Money.Parse, Money.String, NormalizeSchedule, ValidateDependencies;
    NormalizedSchedules(request.frequency, request.unit, request.count, request.start, request.end);
    if NormalizeSchedule(request.frequency, request.unit, request.count, request.start, request.end).Err? {
      ScheduleRefusal(request.frequency, request.unit, request.count, request.start, request.end);
    }
  }

  lemma ScheduleRefusal(
      frequency: Frequency, unit: Option<IntervalUnit>, count: Option<int>, start: Date, end: Option<Date>)
    requires NormalizeSchedule(frequency, unit, count, start, end).Err?
    ensures NormalizeSchedule(frequency, unit, count, start, end).error == InvalidSchedule
  {
    hide DayNumber;
  }

  /** Each error of an edit has its reason. */
  lemma {:induction false} EditRefusals(book: Ledger.Book, t: Template, patch: Patch)
    requires UpdateTemplate(book, t, patch).Err?
    ensures match UpdateTemplate(book, t, patch).error
            case InvalidAmount =>
              patch.amount.Some? && (Money.Parse(patch.amount.value).Err? || Money.Parse(patch.amount.value).value <= 0)
            case InvalidEnd => patch.end.Some? && LexicographicallyBefore(patch.end.value, t.start)
            case TemplateArchived =>
              && patch.active == Some(true)
              && (patch.archived == Some(true) || (t.archived && patch.archived.None?))
            case TemplateCompleted =>
              && patch.active == Some(true)
              && patch.end.Some? && LexicographicallyBefore(patch.end.value, t.next)
            case Dependency(e) => patch.active == Some(true) && Dependencies(book, t) == Err(e)
            case _ => false
  {
    hide DayNumber, Money.Parse, Money.String, Dependencies;
    if patch.end.Some? {
      OrderIsLexicographic(patch.end.value, t.start);
      OrderIsLexicographic(patch.end.value, t.next);
    }
  }
}
