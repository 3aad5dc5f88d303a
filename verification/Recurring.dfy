/**
 Recurring templates and the worker that turns due dates into ledger postings, in bounded batches.
 */
module Recurring {
  import opened Prelude
  import opened Calendar
  import opened Schedule
  import Ledger
  import Money

  // ----- schedules as entered

  datatype Frequency = Weekly | Monthly | Quarterly | Yearly | Custom
  datatype RecurringSchedule = RecurringSchedule(unit: IntervalUnit, count: int, start: Date, end: Option<Date>)
  datatype TemplateError =
    | InvalidSchedule | InvalidAmount | InvalidType | InvalidEnd
    | TemplateArchived | TemplateCompleted | Dependency(error: Ledger.LedgerError)

  function NormalizeSchedule(
      frequency: Frequency, unit: Option<IntervalUnit>, count: Option<int>, start: Date, end: Option<Date>)
    : Result<RecurringSchedule, TemplateError>
  {
    if frequency == Custom && (unit.None? || count.None? || count.value < 1 || count.value > 365)
      then Err(InvalidSchedule)
    else if end.Some? && Before(end.value, start) then Err(InvalidSchedule)
    else
      match frequency
      case Weekly => Ok(RecurringSchedule(Weeks, 1, start, end))
      case Monthly => Ok(RecurringSchedule(Months, 1, start, end))
      case Quarterly => Ok(RecurringSchedule(Months, 3, start, end))
      case Yearly => Ok(RecurringSchedule(Years, 1, start, end))
      case Custom => Ok(RecurringSchedule(unit.value, count.value, start, end))
  }

  // ----- templates

  datatype PauseReason = PausedByUser | PausedByArchiving | Completed | DependencyArchived

  datatype Template = Template(
    user: nat,
    kind: Ledger.OperationKind,
    amount: string,
    account: Option<nat>,
    category: Option<nat>,
    source: Option<nat>,
    destination: Option<nat>,
    unit: IntervalUnit,
    count: int,
    start: Date,
    next: Date,
    end: Option<Date>,
    active: bool,
    reason: Option<PauseReason>,
    archived: bool)

  datatype Patch = Patch(amount: Option<string>, end: Option<Date>, active: Option<bool>, archived: Option<bool>)

  datatype NewTemplate = NewTemplate(
    kind: Ledger.OperationKind,
    amount: string,
    account: Option<nat>,
    category: Option<nat>,
    source: Option<nat>,
    destination: Option<nat>,
    frequency: Frequency,
    unit: Option<IntervalUnit>,
    count: Option<int>,
    start: Date,
    end: Option<Date>)

  /** An account a recurring operation may use: the user's own, active, an asset. */
  function LoadDependency(book: Ledger.Book, id: Option<nat>): (loaded: Result<nat, Ledger.LedgerError>)
    ensures loaded.Ok? ==> id == Some(loaded.value) && loaded.value in book.accounts
  {
    if id.None? then Err(Ledger.Validation)
    else if id.value !in book.accounts || book.accounts[id.value].role != Ledger.User then Err(Ledger.NotFound)
    else if book.accounts[id.value].archived || book.accounts[id.value].accountClass != Ledger.Asset
      then Err(Ledger.Conflict)
    else Ok(id.value)
  }

  /** The check of a template's accounts and category when it is created and when it is resumed. */
  function ValidateDependencies(
      book: Ledger.Book, kind: Ledger.OperationKind, account: Option<nat>, category: Option<nat>, source: Option<nat>,
      destination: Option<nat>)
    : Result<(), Ledger.LedgerError>
  {
    match kind
    case OpenAccount => Err(Ledger.Validation)
    case Earn => ValidateFlow(book, account, category, Ledger.Incoming)
    case Spend => ValidateFlow(book, account, category, Ledger.Outgoing)
    case _ =>
      var from :- LoadDependency(book, source);
      var to :- LoadDependency(book, destination);
      if from == to then Err(Ledger.Validation)
      else if book.accounts[from].currency != book.accounts[to].currency
        || book.accounts[from].currency != book.currency
      then Err(Ledger.FxUnavailable)
      else Ok(())
  }

  function ValidateFlow(book: Ledger.Book, account: Option<nat>, category: Option<nat>, direction: Ledger.Direction)
    : Result<(), Ledger.LedgerError>
  {
    var loaded :- LoadDependency(book, account);
    if category.None? then Err(Ledger.Validation)
    else if category.value !in book.categories then Err(Ledger.NotFound)
    else if book.categories[category.value].archived || book.categories[category.value].direction != direction
    then Err(Ledger.Conflict)
    else if book.accounts[loaded].currency != book.currency then Err(Ledger.FxUnavailable)
    else Ok(())
  }

  /** The row a creation request inserts, into tables whose system accounts the request has ensured before. */
  function CreateTemplate(book: Ledger.Book, user: nat, request: NewTemplate): Result<Template, TemplateError> {
    var schedule :- NormalizeSchedule(request.frequency, request.unit, request.count, request.start, request.end);
    match Money.Parse(request.amount)
    case Err(_) => Err(InvalidAmount)
    case Ok(amount) =>
      if amount <= 0 then Err(InvalidAmount)
      else if request.kind == Ledger.OpenAccount then Err(InvalidType)
      else if Ledger.OpeningEquity !in book.systems then Err(Dependency(Ledger.Rejected))
      else
        match ValidateDependencies(book, request.kind, request.account, request.category, request.source,
                                   request.destination)
        case Err(e) => Err(Dependency(e))
        case Ok(_) =>
          Ok(Template(user, request.kind, Money.String(amount), request.account, request.category, request.source,
                      request.destination, schedule.unit, schedule.count, schedule.start, schedule.start, schedule.end,
                      true, None, false))
  }

  function Dependencies(book: Ledger.Book, t: Template): Result<(), Ledger.LedgerError> {
    ValidateDependencies(book, t.kind, t.account, t.category, t.source, t.destination)
  }

  /** The stored effects of an accepted edit; the schedule itself is never edited. */
  function UpdateTemplate(book: Ledger.Book, t: Template, patch: Patch): Result<Template, TemplateError> {
    var amount := if patch.amount.Some? then Money.Parse(patch.amount.value) else Ok(1);
    var resuming := patch.active == Some(true);
    if amount.Err? || amount.value <= 0 then Err(InvalidAmount)
    else if patch.end.Some? && Before(patch.end.value, t.start) then Err(InvalidEnd)
    else if resuming && (patch.archived == Some(true) || (t.archived && patch.archived.None?))
      then Err(TemplateArchived)
    else if resuming && patch.end.Some? && After(t.next, patch.end.value) then Err(TemplateCompleted)
    else if resuming && Dependencies(book, t).Err? then Err(Dependency(Dependencies(book, t).error))
    else
      var archiving := patch.archived == Some(true);
      Ok(t.(amount := if patch.amount.Some? then Money.String(amount.value) else t.amount,
            end := if patch.end.Some? then patch.end else t.end,
            active := if archiving then false else if patch.active.Some? then patch.active.value else t.active,
            reason := if archiving then Some(PausedByArchiving)
                      else if patch.active == Some(true) then None
                      else if patch.active == Some(false) then Some(PausedByUser)
                      else t.reason,
            archived := if patch.archived.Some? then patch.archived.value else t.archived))
  }

  // ----- the triggers on archived accounts and categories

  predicate NewlyArchivedAccount(before: Ledger.Book, after: Ledger.Book, id: Option<nat>) {
    && id.Some? && id.value in before.accounts && !before.accounts[id.value].archived
    && id.value in after.accounts && after.accounts[id.value].archived
  }

  predicate NewlyArchivedCategory(before: Ledger.Book, after: Ledger.Book, id: Option<nat>) {
    && id.Some? && id.value in before.categories && !before.categories[id.value].archived
    && id.value in after.categories && after.categories[id.value].archived
  }

  /** An active template that uses a row archived by the change is paused with it. */
  function PauseFor(before: Ledger.Book, after: Ledger.Book, t: Template): Template {
    if t.active && !t.archived
       && (NewlyArchivedAccount(before, after, t.account) || NewlyArchivedAccount(before, after, t.source)
           || NewlyArchivedAccount(before, after, t.destination) || NewlyArchivedCategory(before, after, t.category))
    then t.(active := false, reason := Some(DependencyArchived))
    else t
  }

  // ----- one template's loop, rows only

  predicate Due(t: Template, today: Date) {
    t.active && !t.archived && !After(t.next, today)
  }

  predicate PastEnd(t: Template) {
    t.end.Some? && After(t.next, t.end.value)
  }

  /** A template whose next date lies past its end is paused as completed. */
  function Settle(t: Template): Template {
    if PastEnd(t) then t.(active := false, reason := Some(Completed)) else t
  }

  function Step(t: Template): Template
    requires t.count >= 1
  {
    t.(next := Next(t.start, t.next, t.unit, t.count))
  }

  datatype Fired = Fired(template: Template, dates: seq<Date>)

  /** What the inner loop does to a template row and which dates it generates, with `budget` postings left. */
  function Fire(t: Template, today: Date, budget: nat): Fired
    requires t.count >= 1
    decreases budget
  {
    if After(t.next, today) || budget == 0 || PastEnd(t) then Fired(Settle(t), [])
    else
      var rest := Fire(Step(t), today, budget - 1);
      Fired(rest.template, [t.next] + rest.dates)
  }

  // ----- the world of the worker

  datatype World = World(
    books: map<nat, Ledger.Book>,
    templates: map<nat, Template>,
    occurrences: map<(nat, Ledger.Day), nat>)

  function OperationFor(id: nat, t: Template): Ledger.Operation {
    Ledger.Operation(t.kind, DayNumber(t.next), t.amount, Ledger.Occurrence(id, DayNumber(t.next)),
                     t.account, t.category, t.source, t.destination)
  }

  function Claim(id: nat, t: Template): (nat, Ledger.Day) {
    (id, DayNumber(t.next))
  }

  /** Post one occurrence, claim its date unless it is claimed already, and move to the next date. */
  function PostOccurrence(world: World, id: nat): Result<World, Ledger.LedgerError>
    requires id in world.templates && world.templates[id].count >= 1
  {
    var t := world.templates[id];
    if t.user !in world.books then Err(Ledger.Rejected)
    else
      var posted :- Ledger.PostTypedOperation(world.books[t.user], OperationFor(id, t), None);
      Ok(World(world.books[t.user := posted.book], world.templates[id := Step(t)],
               if Claim(id, t) in world.occurrences then world.occurrences
               else world.occurrences[Claim(id, t) := posted.id]))
  }

  datatype Progress = Progress(world: World, left: nat)

  lemma {:induction false} StepMovesOn(t: Template)
    requires t.count >= 1
    ensures After(Step(t).next, t.next)
  {
    hide AddMonthsClamped, AddDate, DayNumber;
    match t.unit {
      case Days => AddDaysShifts(t.next, t.count);
      case Weeks => AddDaysShifts(t.next, 7 * t.count);
      case _ => CorrectionLoopIdle(t.start, t.next, StepMonths(t.unit, t.count));
    }
  }

  function RunTemplate(world: World, id: nat, today: Date, budget: nat): Result<Progress, Ledger.LedgerError>
    requires id in world.templates && world.templates[id].count >= 1
    decreases DayNumber(today) - DayNumber(world.templates[id].next) + 1
  {
    var t := world.templates[id];
    if After(t.next, today) || budget == 0 || PastEnd(t) then
      Ok(Progress(world.(templates := world.templates[id := Settle(t)]), budget))
    else
      StepMovesOn(t);
      var posted :- PostOccurrence(world, id);
      RunTemplate(posted, id, today, if Claim(id, t) in world.occurrences then budget else budget - 1)
  }

  /** The outer loop stops once the batch is spent. `clock` gives each user's local date. */
  function RunAll(world: World, ids: seq<nat>, clock: nat -> Date, budget: nat): Result<Progress, Ledger.LedgerError>
    decreases |ids|
  {
    if ids == [] then Ok(Progress(world, budget))
    else if ids[0] !in world.templates || world.templates[ids[0]].count < 1 then Err(Ledger.Rejected)
    else
      var ran :- RunTemplate(world, ids[0], clock(world.templates[ids[0]].user), budget);
      if ran.left == 0 then Ok(ran) else RunAll(ran.world, ids[1..], clock, ran.left)
  }

  function BatchOf(batchSize: int): nat {
    if batchSize < 1 then 100 else batchSize
  }

  /** A row's place in the order (next_scheduled_date, id). */
  predicate Earlier(templates: map<nat, Template>, a: nat, b: nat)
    requires a in templates && b in templates
  {
    var x, y := DayNumber(templates[a].next), DayNumber(templates[b].next);
    x < y || (x == y && a < b)
  }

  ghost function DueSet(templates: map<nat, Template>, clock: nat -> Date, locked: set<nat>): set<nat> {
    set id | id in templates && Due(templates[id], clock(templates[id].user)) && id !in locked
  }

  /**
   The ids the query returns: due templates not locked by another transaction, earliest first, at most `limit`,
   and none left out that is earlier than one returned.
   */
  ghost predicate IsDueList(
      ids: seq<nat>, templates: map<nat, Template>, clock: nat -> Date, locked: set<nat>, limit: nat)
  {
    var due := DueSet(templates, clock, locked);
    && (forall i :: 0 <= i < |ids| ==> ids[i] in due)
    && (forall i, j :: 0 <= i < j < |ids| ==> Earlier(templates, ids[i], ids[j]))
    && |ids| <= limit
    && (forall id :: id in due && id !in ids ==> |ids| == limit && forall i :: 0 <= i < |ids| ==>
        Earlier(templates, ids[i], id))
  }

  /** A run without the worker lock does nothing; a run that fails is rolled back. */
  function GenerateRecurring(
      world: World, clock: nat -> Date, batchSize: int, gotLock: bool, ids: seq<nat>): Result<World, Ledger.LedgerError>
  {
    if !gotLock then Ok(world)
    else
      var ran :- RunAll(world, ids, clock, BatchOf(batchSize));
      Ok(ran.world)
  }
}
