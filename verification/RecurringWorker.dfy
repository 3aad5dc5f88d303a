/** The worker's two loops over template rows, inside one database transaction. */
module RecurringWorker {
  import opened Prelude
  import opened Calendar
  import opened Schedule
  import opened Recurring
  import Ledger
  import RecurringLaws
  import RecurringRuns
  import Money

  datatype Generation = Generation(generated: nat, locked: bool)

  /** The checks of a creation request, and the row its INSERT statement writes. */
  method BuildRow(book: Ledger.Book, user: nat, request: NewTemplate) returns (result: Result<Template, TemplateError>)
    ensures result == Recurring.CreateTemplate(book, user, request)
  {
    hide Money.Parse, Money.String, NormalizeSchedule, ValidateDependencies;
    var schedule := NormalizeSchedule(request.frequency, request.unit, request.count, request.start, request.end);
    if schedule.Err? {
      return Err(schedule.error);
    }
    var amount := Money.ParseAmount(request.amount);
    if amount.Err? || amount.value <= 0 {
      return Err(InvalidAmount);
    }
    if request.kind == Ledger.OpenAccount {
      return Err(InvalidType);
    }
    if Ledger.OpeningEquity !in book.systems {
      return Err(Dependency(Ledger.Rejected));
    }
    var dependencies :=
      ValidateDependencies(book, request.kind, request.account, request.category, request.source, request.destination);
    if dependencies.Err? {
      return Err(Dependency(dependencies.error));
    }
    var text := Money.FormatAmount(amount.value);
    return Ok(Template(user, request.kind, text, request.account, request.category, request.source, request.destination,
                       schedule.value.unit, schedule.value.count, schedule.value.start, schedule.value.start,
                       schedule.value.end, true, None, false));
  }

  /** The checks of an edit, and the columns its UPDATE statement sets. */
  method EditRow(book: Ledger.Book, t: Template, patch: Patch) returns (result: Result<Template, TemplateError>)
    ensures result == Recurring.UpdateTemplate(book, t, patch)
  {
    hide Money.Parse, Money.String, DayNumber, Dependencies;
    var row := t;
    if patch.amount.Some? {
      var parsed := Money.ParseAmount(patch.amount.value);
      if parsed.Err? || parsed.value <= 0 {
        return Err(InvalidAmount);
      }
      var text := Money.FormatAmount(parsed.value);
      row := row.(amount := text);
    }
    if patch.end.Some? && Before(patch.end.value, t.start) {
      return Err(InvalidEnd);
    }
    if patch.active == Some(true) {
      if patch.archived == Some(true) || (t.archived && patch.archived.None?) {
        return Err(TemplateArchived);
      }
      if patch.end.Some? && After(t.next, patch.end.value) {
        return Err(TemplateCompleted);
      }
      var dependencies := Dependencies(book, t);
      if dependencies.Err? {
        return Err(Dependency(dependencies.error));
      }
      row := row.(active := true, reason := None);
    }
    if patch.active == Some(false) {
      row := row.(active := false, reason := Some(PausedByUser));
    }
    if patch.end.Some? {
      row := row.(end := patch.end);
    }
    if patch.archived.Some? {
      row := row.(archived := patch.archived.value);
    }
    if patch.archived == Some(true) {
      row := row.(active := false, reason := Some(PausedByArchiving));
    }
    return Ok(row);
  }

  class Worker {
    var books: map<nat, Ledger.Book>
    var templates: map<nat, Template>
    var occurrences: map<(nat, Ledger.Day), nat>

    ghost function Contents(): World
      reads this
    {
      World(books, templates, occurrences)
    }

    ghost predicate Valid()
      reads this
    {
      RecurringLaws.WorldSound(Contents())
    }

    /** The tables as they are found, in any world a history can reach. */
    constructor (world: World)
      requires RecurringLaws.WorldSound(world)
      ensures Valid() && Contents() == world
    {
      books, templates, occurrences := world.books, world.templates, world.occurrences;
    }

    /** Inserts a template under a new identifier. */
    method CreateTemplate(id: nat, user: nat, request: NewTemplate) returns (result: Result<(), TemplateError>)
      requires Valid() && id !in templates && user in books
      modifies `templates
      ensures Valid()
      ensures Contents() == RecurringRuns.Happen(old(Contents()), RecurringRuns.TemplateCreated(id, user, request))
      ensures match Recurring.CreateTemplate(books[user], user, request)
              case Ok(row) => result.Ok? && templates == old(templates)[id := row]
              case Err(e) => result == Err(e) && templates == old(templates)
    {
      hide RecurringLaws.WorldSound, Recurring.CreateTemplate;
      RecurringRuns.EventKeepsSound(Contents(), RecurringRuns.TemplateCreated(id, user, request));
      var created := BuildRow(books[user], user, request);
      if created.Err? {
        return Err(created.error);
      }
      templates := templates[id := created.value];
      return Ok(());
    }

    /** Edits a row in place, or leaves it on an error. */
    method UpdateTemplate(id: nat, patch: Patch) returns (result: Result<(), TemplateError>)
      requires Valid() && id in templates && templates[id].user in books
      modifies `templates
      ensures Valid()
      ensures Contents() == RecurringRuns.Happen(old(Contents()), RecurringRuns.TemplateEdited(id, patch))
      ensures match Recurring.UpdateTemplate(books[old(templates)[id].user], old(templates)[id], patch)
              case Ok(row) => result.Ok? && templates == old(templates)[id := row]
              case Err(e) => result == Err(e) && templates == old(templates)
    {
      hide RecurringLaws.WorldSound, Recurring.UpdateTemplate;
      RecurringRuns.EventKeepsSound(Contents(), RecurringRuns.TemplateEdited(id, patch));
      var edited := EditRow(books[templates[id].user], templates[id], patch);
      if edited.Err? {
        return Err(edited.error);
      }
      templates := templates[id := edited.value];
      return Ok(());
    }

    /** The inner loop and the row update after it. On an error the caller rolls back. */
    method RunOne(id: nat, today: Date, batchSize: nat, already: nat) returns (result: Result<nat, Ledger.LedgerError>)
      requires id in templates && templates[id].count >= 1 && already <= batchSize
      modifies this
      ensures match RunTemplate(old(Contents()), id, today, batchSize - already)
              case Ok(ran) => Contents() == ran.world && result == Ok(batchSize - ran.left) && ran.left <= batchSize
              case Err(e) => result == Err(e)
    {
      hide DayNumber, Next, Ledger.PostTypedOperation, OperationFor, RunTemplate, PostOccurrence;
      var template := templates[id];
      var next := template.next;
      var generated := already;
      assert templates[id := template.(next := next)] == templates;
      while !After(next, today) && generated < batchSize
        invariant already <= generated <= batchSize && templates == old(templates)
        invariant RunTemplate(World(books, templates[id := template.(next := next)], occurrences), id, today,
                              batchSize - generated)
                  == RunTemplate(old(Contents()), id, today, batchSize - already)
        decreases DayNumber(today) - DayNumber(next) + 1
      {
        if template.end.Some? && After(next, template.end.value) {
          break;
        }
        ghost var before := World(books, templates[id := template.(next := next)], occurrences);
        StepMovesOn(template.(next := next));
        TurnUnfolds(before, id, today, batchSize - generated);
        OccurrenceWrites(books, templates, occurrences, id, template.(next := next));
        if template.user !in books {
          return Err(Ledger.Rejected);
        }
        var day := DayNumber(next);
        var operation := OperationFor(id, template.(next := next));
        var posted := Ledger.PostTypedOperation(books[template.user], operation, None);
        if posted.Err? {
          return Err(posted.error);
        }
        books := books[template.user := posted.value.book];
        if (id, day) !in occurrences {
          occurrences := occurrences[(id, day) := posted.value.id];
          generated := generated + 1;
        }
        next := NextRecurringDate(template.start, next, template.unit, template.count);
      }
      StopUnfolds(World(books, templates[id := template.(next := next)], occurrences), id, today,
                  batchSize - generated);
      var completed := template.end.Some? && After(next, template.end.value);
      var row := template.(next := next);
      if completed {
        row := row.(active := false, reason := Some(Completed));
      }
      ghost var unsettled := templates[id := template.(next := next)];
      templates := templates[id := row];
      assert unsettled[id := row] == templates;
      return Ok(generated);
    }

    /** The outer loop: one template after another until the batch is spent. */
    method RunBatch(clock: nat -> Date, batch: nat, ids: seq<nat>) returns (result: Result<nat, Ledger.LedgerError>)
      requires batch >= 1 && RecurringLaws.Positive(templates) && forall i :: 0 <= i < |ids| ==> ids[i] in templates
      modifies this
      ensures match RunAll(old(Contents()), ids, clock, batch)
              case Ok(ran) => Contents() == ran.world && ran.left <= batch && result == Ok(batch - ran.left)
              case Err(e) => result == Err(e)
    {
      hide RunTemplate;
      ghost var start := Contents();
      var generated: nat := 0;
      var i := 0;
      while i < |ids| && generated < batch
        invariant 0 <= i <= |ids| && generated <= batch
        invariant templates.Keys == start.templates.Keys && RecurringLaws.Positive(templates)
        invariant if generated == batch
                  then RunAll(start, ids, clock, batch) == Ok(Progress(Contents(), 0))
                  else RunAll(Contents(), ids[i..], clock, batch - generated) == RunAll(start, ids, clock, batch)
      {
        var today := clock(templates[ids[i]].user);
        RunKeepsCounts(Contents(), ids[i], today, batch - generated);
        var ran := RunOne(ids[i], today, batch, generated);
        assert ids[i..][1..] == ids[i + 1..];
        if ran.Err? {
          return Err(ran.error);
        }
        generated := ran.value;
        i := i + 1;
      }
      return Ok(generated);
    }

    /** `ids` are the rows the due query returned. A failed run is rolled back. */
    method GenerateRecurring(clock: nat -> Date, batchSize: int, gotLock: bool, ids: seq<nat>)
      returns (result: Result<Generation, Ledger.LedgerError>)
      requires Valid() && forall i :: 0 <= i < |ids| ==> ids[i] in templates
      modifies this
      ensures Valid()
      ensures match Recurring.GenerateRecurring(old(Contents()), clock, batchSize, gotLock, ids)
              case Ok(world) => Contents() == world && result.Ok?
              case Err(e) => Contents() == old(Contents()) && result == Err(e)
      ensures result.Ok? ==> result.value.locked == gotLock
      ensures result.Ok? ==> result.value.generated == |occurrences.Keys - old(occurrences).Keys|
    {
      hide RecurringLaws.WorldSound, RunAll;
      if !gotLock {
        assert occurrences.Keys - old(occurrences).Keys == {};
        return Ok(Generation(0, false));
      }
      var savedBooks, savedTemplates, savedOccurrences := books, templates, occurrences;
      RecurringLaws.WorldCountsPositive(Contents());
      var batch := if batchSize < 1 then 100 else batchSize;
      var ran := RunBatch(clock, batch, ids);
      if ran.Err? {
        books, templates, occurrences := savedBooks, savedTemplates, savedOccurrences;
        return Err(ran.error);
      }
      RecurringLaws.RunAllCounts(old(Contents()), ids, clock, batch);
      return Ok(Generation(ran.value, true));
    }
  }

  /** What one occurrence writes, table by table. */
  lemma OccurrenceWrites(
      books: map<nat, Ledger.Book>, templates: map<nat, Template>, occurrences: map<(nat, Ledger.Day), nat>, id: nat,
      row: Template)
    requires row.count >= 1
    ensures var before := World(books, templates[id := row], occurrences);
            if row.user !in books then PostOccurrence(before, id) == Err(Ledger.Rejected)
            else
              match Ledger.PostTypedOperation(books[row.user], OperationFor(id, row), None)
              case Err(e) => PostOccurrence(before, id) == Err(e)
              case Ok(posted) =>
                PostOccurrence(before, id) ==
                Ok(World(books[row.user := posted.book],
                         templates[id := row.(next := Next(row.start, row.next, row.unit, row.count))],
                         if (id, DayNumber(row.next)) in occurrences then occurrences
                         else occurrences[(id, DayNumber(row.next)) := posted.id]))
  {
    hide DayNumber, Next, Ledger.PostTypedOperation, OperationFor;
    assert templates[id := row][id := Step(row)] == templates[id := Step(row)];
  }

  /** One turn of the inner loop, seen from the whole run over a template. */
  lemma {:induction false} TurnUnfolds(world: World, id: nat, today: Date, budget: nat)
    requires id in world.templates && world.templates[id].count >= 1
    requires !(After(world.templates[id].next, today) || budget == 0 || PastEnd(world.templates[id]))
    ensures match PostOccurrence(world, id)
            case Ok(posted) =>
              && id in posted.templates && posted.templates[id].count >= 1
              && RunTemplate(world, id, today, budget)
                 == RunTemplate(posted, id, today, if Claim(id, world.templates[id]) in world.occurrences then budget
                                else budget - 1)
            case Err(e) => RunTemplate(world, id, today, budget) == Err(e)
  {
    hide DayNumber, Next, Ledger.PostTypedOperation;
  }

  lemma StopUnfolds(world: World, id: nat, today: Date, budget: nat)
    requires id in world.templates && world.templates[id].count >= 1
    requires After(world.templates[id].next, today) || budget == 0 || PastEnd(world.templates[id])
    ensures RunTemplate(world, id, today, budget)
            == Ok(Progress(world.(templates := world.templates[id := Settle(world.templates[id])]), budget))
  {
    hide DayNumber, Next;
  }

  lemma {:induction false} RunKeepsCounts(world: World, id: nat, today: Date, budget: nat)
    requires RecurringLaws.Positive(world.templates) && id in world.templates
    ensures var ran := RunTemplate(world, id, today, budget);
            ran.Ok? ==>
              && ran.value.world.templates.Keys == world.templates.Keys
              && RecurringLaws.Positive(ran.value.world.templates)
              && ran.value.left <= budget
    decreases DayNumber(today) - DayNumber(world.templates[id].next) + 1
  {
    hide DayNumber, Next, Ledger.PostTypedOperation;
    var t := world.templates[id];
    if !(After(t.next, today) || budget == 0 || PastEnd(t)) && PostOccurrence(world, id).Ok? {
      StepMovesOn(t);
      RunKeepsCounts(PostOccurrence(world, id).value, id, today,
                     if Claim(id, t) in world.occurrences then budget else budget - 1);
    }
  }
}
