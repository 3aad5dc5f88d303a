/**
 The accounts and the category of a template, over every run: what creation and resuming check, the triggers on
 archived rows keep.
 */
module RecurringDependencies {
  import opened Prelude
  import opened Calendar
  import opened Recurring
  import opened RecurringLaws
  import opened RecurringRuns
  import opened RecurringExact
  import Accounts
  import Ledger
  import LedgerLaws
  import Money

  // ----- what a template depends on

  ghost predicate ActiveAsset(book: Ledger.Book, id: Option<nat>) {
    && id.Some? && id.value in book.accounts
    && var account := book.accounts[id.value];
    && account.role == Ledger.User && !account.archived && account.accountClass == Ledger.Asset
  }

  /** Active asset accounts, and an active category of the template's direction. */
  ghost predicate Dependable(book: Ledger.Book, t: Template) {
    match t.kind
    case OpenAccount => false
    case Earn => ActiveAsset(book, t.account) && LedgerLaws.UsableCategory(book, t.category, Ledger.Incoming)
    case Spend => ActiveAsset(book, t.account) && LedgerLaws.UsableCategory(book, t.category, Ledger.Outgoing)
    case _ => ActiveAsset(book, t.source) && ActiveAsset(book, t.destination) && t.source != t.destination
  }

  ghost predicate InFunctional(book: Ledger.Book, id: Option<nat>) {
    id.Some? && id.value in book.accounts && book.accounts[id.value].currency == book.currency
  }

  /** The account rows behind a template are in the functional currency, and a category's row takes entries. */
  ghost predicate Chargeable(book: Ledger.Book, t: Template) {
    if t.kind.Move? || t.kind.Buy? then InFunctional(book, t.source) && InFunctional(book, t.destination)
    else
      var account := LedgerLaws.CategoryAccount(book, t.category);
      InFunctional(book, t.account) && InFunctional(book, account) && !book.accounts[account.value].archived
  }

  /** Nothing but the dates: what stays the same of a row while it generates. */
  ghost predicate Kin(t: Template, s: Template) {
    && SamePosting(t, s) && t.amount == s.amount && t.archived == s.archived && (s.active ==> t.active)
  }

  /** What a template's operation needs besides its dependencies. */
  ghost predicate Sized(book: Ledger.Book, t: Template) {
    && Money.Parse(t.amount).Ok? && Money.Parse(t.amount).value > 0
    && Ledger.OpeningEquity in book.systems && t.kind != Ledger.OpenAccount
  }

  /** The worker can post the template's next occurrence. */
  ghost predicate Postable(world: World, t: Template) {
    && t.user in world.books
    && Sized(world.books[t.user], t) && Dependable(world.books[t.user], t) && Chargeable(world.books[t.user], t)
  }

  lemma UsableExactlyWhen(book: Ledger.Book, id: nat, t: Template)
    requires t.kind != Ledger.OpenAccount
    ensures LedgerLaws.Usable(book, OperationFor(id, t)) <==>
              && Dependable(book, t)
              && (if t.kind.Move? || t.kind.Buy? then InFunctional(book, t.source) && InFunctional(book, t.destination)
                  else InFunctional(book, t.account))
    ensures Dependable(book, t) && Chargeable(book, t) ==> LedgerLaws.Usable(book, OperationFor(id, t))
  {
    hide DayNumber;
  }

  lemma KinOfStep(t: Template)
    requires t.count >= 1
    ensures Kin(t, Step(t))
  {
  }

  lemma KinOfSettle(t: Template)
    ensures Kin(t, Settle(t))
  {
    hide DayNumber;
  }

  // ----- every reachable world: dependencies

  /** An active template has active asset accounts and an active category of its type, and can be sized. */
  ghost predicate TemplateDependable(world: World, t: Template) {
    && t.user in world.books && Sized(world.books[t.user], t) && StatusConsistent(t)
    && (t.active ==> Dependable(world.books[t.user], t))
  }

  ghost predicate WorldDependable(world: World) {
    forall id :: id in world.templates ==> TemplateDependable(world, world.templates[id])
  }

  lemma {:induction false} BooksKeepSized(before: Ledger.Book, after: Ledger.Book, t: Template)
    requires Accounts.Extends(before, after) && Sized(before, t)
    ensures Sized(after, t)
  {
    hide Money.Parse;
  }

  /** An active template that is not paused by a change of its user's rows keeps its dependencies. */
  lemma {:induction false} UnpausedStaysDependable(before: Ledger.Book, after: Ledger.Book, t: Template)
    requires Accounts.Extends(before, after) && StatusConsistent(t) && t.active && Dependable(before, t)
    requires PauseFor(before, after, t).active
    ensures Dependable(after, t)
  {
  }

  lemma {:induction false} TriggerKeepsDependable(world: World, user: nat, book: Ledger.Book, t: Template)
    requires TemplateDependable(world, t) && t.user == user && Accounts.Extends(world.books[user], book)
    ensures TemplateDependable(world.(books := world.books[user := book]), PauseFor(world.books[user], book, t))
  {
    hide Accounts.Extends, Dependable, Sized, NewlyArchivedAccount, NewlyArchivedCategory;
    BooksKeepSized(world.books[user], book, t);
    SizedKin(book, t, PauseFor(world.books[user], book, t));
    PauseKeepsStatus(world.books[user], book, t);
    if PauseFor(world.books[user], book, t).active {
      UnpausedStaysDependable(world.books[user], book, t);
    }
  }

  lemma SizedKin(book: Ledger.Book, t: Template, s: Template)
    requires t.kind == s.kind && t.amount == s.amount
    ensures Sized(book, t) <==> Sized(book, s)
  {
  }

  lemma {:induction false} ChangeKeepsDependable(world: World, user: nat, book: Ledger.Book)
    requires WorldDependable(world) && Possible(world, BookChanged(user, book))
    ensures WorldDependable(Happen(world, BookChanged(user, book)))
  {
    hide TemplateDependable, PauseFor, Accounts.Extends, LedgerLaws.Sound;
    var after := Happen(world, BookChanged(user, book));
    forall id | id in after.templates
      ensures TemplateDependable(after, after.templates[id])
    {
      var t := world.templates[id];
      HasBook(world, t);
      if t.user == user {
        TriggerKeepsDependable(world, user, book, t);
        OtherTemplatesDoNotMatter(world.(books := world.books[user := book]), after,
                                  PauseFor(world.books[user], book, t));
      } else {
        OtherTemplatesDoNotMatter(world, after, t);
      }
    }
  }

  lemma HasBook(world: World, t: Template)
    requires TemplateDependable(world, t)
    ensures t.user in world.books
  {
    hide Dependable, Sized;
  }

  lemma OtherTemplatesDoNotMatter(world: World, after: World, t: Template)
    requires TemplateDependable(world, t)
    requires t.user in world.books ==> t.user in after.books && after.books[t.user] == world.books[t.user]
    ensures TemplateDependable(after, t)
  {
    hide Dependable, Sized;
  }

  lemma {:induction false} EditKeepsDependable(world: World, t: Template, patch: Patch)
    requires TemplateDependable(world, t) && UpdateTemplate(world.books[t.user], t, patch).Ok?
    ensures TemplateDependable(world, UpdateTemplate(world.books[t.user], t, patch).value)
  {
    hide DayNumber, Money.Parse, Money.String, Dependencies, Dependable, LedgerLaws.Usable;
    var book := world.books[t.user];
    EditKeepsStatus(book, t, patch);
    DependenciesExactlyWhenUsable(book, 0, t);
    if t.kind != Ledger.OpenAccount {
      UsableExactlyWhen(book, 0, t);
    }
    SameDependencies(book, t, UpdateTemplate(book, t, patch).value);
    if patch.amount.Some? {
      Money.ParseInRange(patch.amount.value);
      Money.ParseOfString(Money.Parse(patch.amount.value).value);
    }
  }

  lemma SameDependencies(book: Ledger.Book, t: Template, s: Template)
    requires t.kind == s.kind && t.account == s.account && t.category == s.category && t.source == s.source
    requires t.destination == s.destination
    ensures Dependable(book, t) <==> Dependable(book, s)
  {
  }

  // ----- runs keep rows akin

  lemma {:induction false} FireKeepsKin(t: Template, today: Date, budget: nat)
    requires t.count >= 1
    ensures Kin(t, Fire(t, today, budget).template)
    decreases budget
  {
    hide DayNumber, Step;
    if After(t.next, today) || budget == 0 || PastEnd(t) {
      KinOfSettle(t);
    } else {
      KinOfStep(t);
      CountStays(t);
      FireKeepsKin(Step(t), today, budget - 1);
    }
  }

  ghost predicate AllKin(templates: map<nat, Template>, after: map<nat, Template>) {
    after.Keys == templates.Keys && forall id :: id in templates ==> Kin(templates[id], after[id])
  }

  lemma {:induction false} PlanKeepsKin(templates: map<nat, Template>, ids: seq<nat>, clock: nat -> Date, budget: nat)
    ensures AllKin(templates, PlanOf(templates, ids, clock, budget).templates)
    decreases |ids|
  {
    hide Fire, DayNumber, Claims;
    if ids != [] && ids[0] in templates && templates[ids[0]].count >= 1 {
      var t := templates[ids[0]];
      var fired := Fire(t, clock(t.user), budget);
      FireKeepsKin(t, clock(t.user), budget);
      FiredDatesAllowed(t, clock(t.user), budget);
      if budget - |fired.dates| != 0 {
        PlanKeepsKin(templates[ids[0] := fired.template], ids[1..], clock, budget - |fired.dates|);
      }
    }
  }

  lemma {:induction false} RunKeepsKin(world: World, clock: nat -> Date, batchSize: int, gotLock: bool, ids: seq<nat>)
    requires WorldSound(world) && GenerateRecurring(world, clock, batchSize, gotLock, ids).Ok?
    ensures var after := GenerateRecurring(world, clock, batchSize, gotLock, ids).value;
            AllKin(world.templates, after.templates) && BooksGrow(world, after)
  {
    hide WorldSound, PlanOf, RunAll, Kin;
    if gotLock {
      RunAllFollowsPlan(world, ids, clock, BatchOf(batchSize));
      PlanKeepsKin(world.templates, ids, clock, BatchOf(batchSize));
    } else {
      BooksGrowSelf(world, world.templates);
      forall id | id in world.templates
        ensures Kin(world.templates[id], world.templates[id])
      {
        KinSelf(world.templates[id]);
      }
    }
  }

  lemma KinSelf(t: Template)
    ensures Kin(t, t)
  {
  }

  lemma {:induction false} KinStaysDependable(world: World, after: World, t: Template, s: Template)
    requires TemplateDependable(world, t) && BooksGrow(world, after) && Kin(t, s) && StatusConsistent(s)
    ensures TemplateDependable(after, s)
  {
    hide Money.Parse;
  }

  lemma {:induction false} RunKeepsDependable(
      world: World, clock: nat -> Date, batchSize: int, gotLock: bool, ids: seq<nat>)
    requires WorldSound(world) && WorldDependable(world)
    requires GenerateRecurring(world, clock, batchSize, gotLock, ids).Ok?
    ensures WorldDependable(GenerateRecurring(world, clock, batchSize, gotLock, ids).value)
  {
    hide WorldSound, TemplateDependable, Kin, BooksGrow, GenerateRecurring, StatusConsistent;
    var after := GenerateRecurring(world, clock, batchSize, gotLock, ids).value;
    StatusesOf(world);
    RunKeepsKin(world, clock, batchSize, gotLock, ids);
    RunKeepsStatuses(world, clock, batchSize, gotLock, ids);
    forall id | id in after.templates
      ensures TemplateDependable(after, after.templates[id])
    {
      KinStaysDependable(world, after, world.templates[id], after.templates[id]);
    }
  }

  lemma StatusesOf(world: World)
    requires WorldDependable(world)
    ensures StatusesConsistent(world.templates)
  {
    hide Dependable, Sized, StatusConsistent;
  }

  lemma {:induction false} CreatedIsDependable(world: World, id: nat, user: nat, request: NewTemplate)
    requires user in world.books && CreateTemplate(world.books[user], user, request).Ok?
    ensures TemplateDependable(world, CreateTemplate(world.books[user], user, request).value)
  {
    hide CreateTemplate, Dependable, LedgerLaws.Usable, Money.Parse;
    var book := world.books[user];
    CreatedRow(book, id, user, request);
    UsableExactlyWhen(book, id, CreateTemplate(book, user, request).value);
  }

  lemma {:induction false} EventKeepsDependable(world: World, event: Event)
    requires WorldSound(world) && WorldDependable(world) && Possible(world, event)
    ensures WorldDependable(Happen(world, event))
  {
    hide WorldSound, UpdateTemplate, CreateTemplate, GenerateRecurring, TemplateDependable, Triggered,
      LedgerLaws.Sound, Accounts.Extends;
    match event {
      case WorkerRan(clock, batchSize, gotLock, ids) =>
        if GenerateRecurring(world, clock, batchSize, gotLock, ids).Ok? {
          RunKeepsDependable(world, clock, batchSize, gotLock, ids);
        }
      case TemplateCreated(id, user, request) =>
        if user in world.books && CreateTemplate(world.books[user], user, request).Ok? {
          CreatedIsDependable(world, id, user, request);
          RowsKeepDependable(world, Happen(world, event), id);
        }
      case TemplateEdited(id, patch) =>
        if id in world.templates && world.templates[id].user in world.books
           && UpdateTemplate(world.books[world.templates[id].user], world.templates[id], patch).Ok? {
          EditKeepsDependable(world, world.templates[id], patch);
          RowsKeepDependable(world, Happen(world, event), id);
        }
      case BookChanged(user, book) =>
        ChangeKeepsDependable(world, user, book);
    }
  }

  lemma RowsKeepDependable(world: World, after: World, id: nat)
    requires WorldDependable(world) && after.books == world.books && after.templates.Keys <= world.templates.Keys + {id}
    requires forall other :: other in after.templates && other != id ==>
               after.templates[other] == world.templates[other]
    requires id in after.templates ==> TemplateDependable(world, after.templates[id])
    ensures WorldDependable(after)
  {
    hide TemplateDependable;
    forall other | other in after.templates
      ensures TemplateDependable(after, after.templates[other])
    {
      SameBooks(world, after, after.templates[other]);
    }
  }

  lemma SameBooks(world: World, after: World, t: Template)
    requires after.books == world.books && TemplateDependable(world, t)
    ensures TemplateDependable(after, t)
  {
    hide Dependable, Sized;
  }

  /**
   In every reachable world an active template has active asset accounts and an active category of its type: rows it
   needs pause it when they are archived, and it is resumed only when they are all there.
   */
  lemma {:induction false} EveryActiveTemplateIsDependable(world: World, events: seq<Event>)
    requires WorldSound(world) && WorldDependable(world) && PossibleRun(world, events)
    ensures WorldDependable(HappenAll(world, events))
    decreases |events|
  {
    hide WorldSound, WorldDependable, Happen, Possible;
    if events != [] {
      EventKeepsSound(world, events[0]);
      EventKeepsDependable(world, events[0]);
      EveryActiveTemplateIsDependable(Happen(world, events[0]), events[1..]);
    }
  }
}
