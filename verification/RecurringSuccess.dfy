/**
 When the worker's run succeeds: its one database transaction covers every user's templates, so a single template
 whose operation is refused stops the generation for everybody.
 */
module RecurringSuccess {
  import opened Prelude
  import opened Calendar
  import opened Recurring
  import opened RecurringLaws
  import opened RecurringRuns
  import opened RecurringExact
  import opened RecurringDependencies
  import Ledger
  import LedgerAcceptance
  import LedgerLaws
  import Money

  // ----- one occurrence

  lemma ChargeableExactlyWhen(book: Ledger.Book, id: nat, t: Template)
    requires t.kind != Ledger.OpenAccount && LedgerLaws.Usable(book, OperationFor(id, t))
    ensures var op := OperationFor(id, t);
            Chargeable(book, t)
            <==> LedgerAcceptance.TakesEntries(book, LedgerLaws.Giver(book, op))
                 && LedgerAcceptance.TakesEntries(book, LedgerLaws.Receiver(book, op))
  {
    hide DayNumber;
  }

  /** With a fresh key an operation is posted exactly when its accounts are usable and its entries accepted. */
  lemma {:induction false} PostsExactlyWhen(book: Ledger.Book, id: nat, t: Template)
    requires !Ledger.HasKey(book, Ledger.Occurrence(id, DayNumber(t.next))) && t.kind != Ledger.OpenAccount
    ensures Ledger.PostTypedOperation(book, OperationFor(id, t), None).Ok?
            <==> Sized(book, t) && Dependable(book, t) && Chargeable(book, t)
  {
    hide DayNumber, Money.Parse, Dependable, Chargeable, LedgerLaws.Usable, Ledger.FindKey, Ledger.PostTypedOperation,
      LedgerAcceptance.TakesEntries, LedgerLaws.Giver, LedgerLaws.Receiver;
    LedgerAcceptance.PostedExactlyWhen(book, OperationFor(id, t), None);
    UsableExactlyWhen(book, id, t);
    if LedgerLaws.Usable(book, OperationFor(id, t)) {
      ChargeableExactlyWhen(book, id, t);
    }
  }

  lemma {:induction false} OccurrenceExactlyWhenPostable(world: World, id: nat)
    requires WorldExact(world) && id in world.templates && world.templates[id].count >= 1
    ensures PostOccurrence(world, id).Ok? <==> Postable(world, world.templates[id])
  {
    hide WorldSound, ClaimsExact, KeysClaimed, DayNumber, Step, Ledger.PostTypedOperation, Ledger.HasKey, Sized,
      Dependable, Chargeable, OperationFor;
    var t := world.templates[id];
    if t.user in world.books {
      NextKeyIsFresh(world, id);
      PostsExactlyWhen(world.books[t.user], id, t);
    }
  }

  // ----- a run over one template

  lemma KinPostable(world: World, after: World, t: Template, s: Template)
    requires BooksGrow(world, after) && SamePosting(t, s) && t.amount == s.amount
    ensures Postable(after, s) <==> Postable(world, t)
  {
    hide Money.Parse;
  }

  /** A run over one template succeeds exactly when it owes nothing now or can post. */
  lemma {:induction false} RunTemplateExactlyWhen(world: World, id: nat, today: Date, budget: nat)
    requires WorldExact(world) && id in world.templates && world.templates[id].count >= 1
    ensures RunTemplate(world, id, today, budget).Ok?
            <==> Fire(world.templates[id], today, budget).dates == [] || Postable(world, world.templates[id])
    decreases DayNumber(today) - DayNumber(world.templates[id].next) + 1
  {
    hide WorldExact, PostOccurrence, Step, DayNumber, Postable, Kin, BooksGrow, WorldSound;
    var t := world.templates[id];
    if !(After(t.next, today) || budget == 0 || PastEnd(t)) {
      StepMovesOn(t);
      OccurrenceExactlyWhenPostable(world, id);
      NextIsUnclaimed(world, id);
      CountStays(t);
      if PostOccurrence(world, id).Ok? {
        var posted := PostOccurrence(world, id).value;
        PostedOnce(world, id);
        RunTemplateExactlyWhen(posted, id, today, budget - 1);
        StepKeepsPostable(world, posted, t);
      }
    }
  }

  lemma NextIsUnclaimed(world: World, id: nat)
    requires WorldExact(world) && id in world.templates
    ensures Claim(id, world.templates[id]) !in world.occurrences
  {
    hide WorldExact, WorldSound, DayNumber;
    ExactParts(world);
    NextDateIsUnclaimed(world, id);
  }

  lemma {:induction false} PostedOnce(world: World, id: nat)
    requires WorldExact(world) && id in world.templates && world.templates[id].count >= 1
    requires PostOccurrence(world, id).Ok?
    ensures var posted := PostOccurrence(world, id).value;
            && WorldExact(posted) && BooksGrow(world, posted)
            && posted.templates == world.templates[id := Step(world.templates[id])]
  {
    hide WorldExact, WorldSound, Step, DayNumber, BooksGrow;
    ExactParts(world);
    PostOccurrenceIsSound(world, id);
    PostOccurrenceIsExact(world, id);
  }

  lemma ExactParts(world: World)
    requires WorldExact(world)
    ensures WorldSound(world)
  {
    hide WorldSound, ClaimsExact, KeysClaimed, KindsAllowed;
  }

  lemma StepKeepsPostable(world: World, after: World, t: Template)
    requires BooksGrow(world, after) && t.count >= 1
    ensures Postable(after, Step(t)) <==> Postable(world, t)
  {
    hide BooksGrow, Postable, SamePosting;
    StepKeepsAmount(t);
    KinPostable(world, after, t, Step(t));
  }

  lemma StepKeepsAmount(t: Template)
    requires t.count >= 1
    ensures SamePosting(t, Step(t)) && Step(t).amount == t.amount
  {
  }

  // ----- a whole run

  /** The templates of these claims can all post. */
  ghost predicate AllPostable(world: World, claims: set<(nat, Ledger.Day)>) {
    forall claim :: claim in claims ==> claim.0 in world.templates && Postable(world, world.templates[claim.0])
  }

  /** Dates generated meanwhile, by these templates or by others, do not matter to who can post. */
  lemma {:induction false} PostableLater(world: World, after: World, claims: set<(nat, Ledger.Day)>)
    requires BooksGrow(world, after) && AllKin(world.templates, after.templates)
    ensures AllPostable(after, claims) <==> AllPostable(world, claims)
  {
    hide Postable, BooksGrow, SamePosting;
    forall claim | claim in claims && claim.0 in world.templates
      ensures Postable(after, after.templates[claim.0]) <==> Postable(world, world.templates[claim.0])
    {
      KinPostable(world, after, world.templates[claim.0], after.templates[claim.0]);
    }
  }

  lemma ClaimsPostable(world: World, id: nat, dates: seq<Date>)
    requires id in world.templates
    ensures AllPostable(world, Claims(id, dates)) <==> dates == [] || Postable(world, world.templates[id])
  {
    hide Postable, DayNumber;
    if dates != [] {
      assert (id, DayNumber(dates[0])) in Claims(id, dates);
    }
  }

  lemma PostableTogether(world: World, a: set<(nat, Ledger.Day)>, b: set<(nat, Ledger.Day)>)
    ensures AllPostable(world, a + b) <==> AllPostable(world, a) && AllPostable(world, b)
  {
    hide Postable;
  }

  /** A run over a list of templates succeeds exactly when the template of each date it is to claim can post. */
  lemma {:induction false} RunAllExactlyWhen(world: World, ids: seq<nat>, clock: nat -> Date, budget: nat)
    requires WorldExact(world) && forall id :: id in ids ==> id in world.templates
    ensures RunAll(world, ids, clock, budget).Ok?
            <==> AllPostable(world, PlanOf(world.templates, ids, clock, budget).claims)
    decreases |ids|
  {
    hide WorldExact, RunTemplate, AllPostable, Fire, BooksGrow, WorldSound, Claims, PlanOf, Postable;
    if ids == [] {
      PlanOfNone(world, clock, budget);
    } else {
      var id := ids[0];
      var today := clock(world.templates[id].user);
      ExactParts(world);
      WorldCountsPositive(world);
      RunTemplateExactlyWhen(world, id, today, budget);
      FirstIsPlanned(world, ids, clock, budget);
      if RunTemplate(world, id, today, budget).Ok? {
        RunTemplateFires(world, id, today, budget);
        RunTemplateIsExact(world, id, today, budget);
        var ran := RunTemplate(world, id, today, budget).value;
        RestIsPlanned(world, ran, ids, clock, budget);
        if ran.left != 0 {
          assert forall other :: other in ids[1..] ==> other in ids;
          RunAllExactlyWhen(ran.world, ids[1..], clock, ran.left);
        }
      }
    }
  }

  lemma PlanOfNone(world: World, clock: nat -> Date, budget: nat)
    ensures AllPostable(world, {}) && PlanOf(world.templates, [], clock, budget).claims == {}
  {
  }

  lemma {:induction false} FirstIsPlanned(world: World, ids: seq<nat>, clock: nat -> Date, budget: nat)
    requires ids != [] && ids[0] in world.templates && world.templates[ids[0]].count >= 1
    ensures AllPostable(world, PlanOf(world.templates, ids, clock, budget).claims) ==>
              Fire(world.templates[ids[0]], clock(world.templates[ids[0]].user), budget).dates == []
              || Postable(world, world.templates[ids[0]])
  {
    hide Fire, Claims, AllPostable, Postable;
    var claims := PlanOf(world.templates, ids, clock, budget).claims;
    var dates := Fire(world.templates[ids[0]], clock(world.templates[ids[0]].user), budget).dates;
    assert claims == Claims(ids[0], dates) + claims;
    PostableTogether(world, Claims(ids[0], dates), claims);
    ClaimsPostable(world, ids[0], dates);
  }

  /** After the first template has run, what is left of the plan is the plan of the rest. */
  lemma {:induction false} RestIsPlanned(world: World, ran: Progress, ids: seq<nat>, clock: nat -> Date, budget: nat)
    requires ids != [] && ids[0] in world.templates && world.templates[ids[0]].count >= 1
    requires RanTemplate(world, ids[0], clock(world.templates[ids[0]].user), budget, ran)
    requires var t := world.templates[ids[0]];
             Fire(t, clock(t.user), budget).dates == [] || Postable(world, t)
    ensures AllPostable(world, PlanOf(world.templates, ids, clock, budget).claims)
            <==> ran.left == 0 || AllPostable(ran.world, PlanOf(ran.world.templates, ids[1..], clock, ran.left).claims)
  {
    hide Fire, Claims, AllPostable, Postable, AllKin, WorldSound, BooksGrow;
    var t := world.templates[ids[0]];
    var dates := Fire(t, clock(t.user), budget).dates;
    ClaimsPostable(world, ids[0], dates);
    if ran.left != 0 {
      var rest := PlanOf(ran.world.templates, ids[1..], clock, ran.left).claims;
      PostableTogether(world, Claims(ids[0], dates), rest);
      OneFiredIsKin(world.templates, ids[0], clock(t.user), budget);
      PostableLater(world, ran.world, rest);
    }
  }

  lemma OneFiredIsKin(templates: map<nat, Template>, id: nat, today: Date, budget: nat)
    requires id in templates && templates[id].count >= 1
    ensures AllKin(templates, templates[id := Fire(templates[id], today, budget).template])
  {
    hide Fire, Kin;
    FireKeepsKin(templates[id], today, budget);
    forall other | other in templates
      ensures Kin(templates[other], templates[other])
    {
      KinSelf(templates[other]);
    }
  }

  /** Every date of the plan is a pending one. */
  lemma {:induction false} PlanIsPending(world: World, clock: nat -> Date, run: Run)
    requires WorldSound(world)
    requires IsDueList(run.ids, world.templates, clock, run.locked, BatchOf(run.batchSize))
    ensures Positive(world.templates) && (forall id :: id in run.ids ==> id in world.templates)
    ensures var plan := PlanOf(world.templates, run.ids, clock, BatchOf(run.batchSize));
            && Positive(plan.templates)
            && PendingSet(world.templates, clock) == PendingSet(plan.templates, clock) + plan.claims
  {
    hide WorldSound, PendingSet, PlanOf, Due, IsDueList, SameTargets;
    WorldCountsPositive(world);
    DueListIsListed(run.ids, world.templates, clock, run.locked, BatchOf(run.batchSize));
    PlanKeepsTargets(world.templates, run.ids, clock, BatchOf(run.batchSize));
  }

  /**
   A run succeeds exactly when the template of each date it is to claim can post: its amount, accounts and category
   are as they should be, and their rows are in its user's functional currency.
   */
  lemma {:induction false} RunSucceedsExactlyWhen(world: World, clock: nat -> Date, run: Run)
    requires WorldExact(world)
    requires IsDueList(run.ids, world.templates, clock, run.locked, BatchOf(run.batchSize))
    ensures GenerateRecurring(world, clock, run.batchSize, true, run.ids).Ok?
            <==> AllPostable(world, PlanOf(world.templates, run.ids, clock, BatchOf(run.batchSize)).claims)
  {
    hide WorldExact, IsDueList, RunAll, AllPostable, PlanOf, PendingSet;
    ExactParts(world);
    PlanIsPending(world, clock, run);
    RunAllExactlyWhen(world, run.ids, clock, BatchOf(run.batchSize));
  }

  // ----- every reachable world

  /** The rows behind the templates of these claims take their postings. */
  ghost predicate AllChargeable(world: World, claims: set<(nat, Ledger.Day)>) {
    forall claim :: claim in claims ==>
      && claim.0 in world.templates && world.templates[claim.0].user in world.books
      && Chargeable(world.books[world.templates[claim.0].user], world.templates[claim.0])
  }

  lemma PostableExactlyWhenChargeable(world: World, t: Template)
    requires TemplateDependable(world, t) && t.active
    ensures Postable(world, t) <==> Chargeable(world.books[t.user], t)
  {
    hide Dependable, Sized, Chargeable;
  }

  lemma PendingIsActive(templates: map<nat, Template>, clock: nat -> Date, claim: (nat, Ledger.Day))
    requires Positive(templates) && claim in PendingSet(templates, clock)
    ensures claim.0 in templates && templates[claim.0].active
  {
    hide DueDates, DayNumber;
  }

  /** Where every active template has what it depends on, only the currencies of the rows behind it remain. */
  lemma {:induction false} DependableCanPostExactlyWhen(
      world: World, clock: nat -> Date, claims: set<(nat, Ledger.Day)>)
    requires WorldDependable(world) && Positive(world.templates) && claims <= PendingSet(world.templates, clock)
    ensures AllPostable(world, claims) <==> AllChargeable(world, claims)
  {
    hide TemplateDependable, Postable, Chargeable, PendingSet;
    forall claim | claim in claims
      ensures && claim.0 in world.templates && world.templates[claim.0].user in world.books
              && (Postable(world, world.templates[claim.0])
                  <==> Chargeable(world.books[world.templates[claim.0].user], world.templates[claim.0]))
    {
      PendingIsActive(world.templates, clock, claim);
      HasBook(world, world.templates[claim.0]);
      PostableExactlyWhenChargeable(world, world.templates[claim.0]);
    }
  }

  /**
   In every reachable world whose worker's keys others leave alone, a run succeeds exactly when the account rows
   behind every template that is to generate a date in it are in their user's functional currency. One user's edit
   of an account can therefore stop the generation for all.
   */
  lemma {:induction false} ReachableRunSucceedsExactlyWhen(
      world: World, events: seq<Event>, clock: nat -> Date, run: Run)
    requires WorldExact(world) && WorldDependable(world)
    requires PossibleRun(world, events) && KeysAloneThroughout(world, events)
    requires IsDueList(run.ids, HappenAll(world, events).templates, clock, run.locked, BatchOf(run.batchSize))
    ensures var later := HappenAll(world, events);
            GenerateRecurring(later, clock, run.batchSize, true, run.ids).Ok?
            <==> AllChargeable(later, PlanOf(later.templates, run.ids, clock, BatchOf(run.batchSize)).claims)
  {
    hide WorldExact, WorldDependable, HappenAll, PossibleRun, KeysAloneThroughout, IsDueList, GenerateRecurring,
      AllPostable, AllChargeable, PlanOf, PendingSet;
    var later := HappenAll(world, events);
    ExactParts(world);
    EveryRunIsExact(world, events);
    EveryActiveTemplateIsDependable(world, events);
    RunSucceedsExactlyWhen(later, clock, run);
    ExactParts(later);
    PlanIsPending(later, clock, run);
    DependableCanPostExactlyWhen(later, clock, PlanOf(later.templates, run.ids, clock, BatchOf(run.batchSize)).claims);
  }

  // ----- repeated runs

  ghost predicate PendingPostable(world: World, clock: nat -> Date) {
    Positive(world.templates) && AllPostable(world, PendingSet(world.templates, clock))
  }

  /** A run that succeeds posts what could post and leaves the rest as able as before. */
  lemma {:induction false} NextRunKeepsPostable(world: World, clock: nat -> Date, run: Run)
    requires WorldExact(world) && IsDueList(run.ids, world.templates, clock, run.locked, BatchOf(run.batchSize))
    ensures var next := GenerateRecurring(world, clock, run.batchSize, true, run.ids);
            if next.Ok? then WorldExact(next.value)
              && (PendingPostable(next.value, clock) <==> PendingPostable(world, clock))
            else !PendingPostable(world, clock)
  {
    hide WorldExact, IsDueList, AllPostable, RunAll, PlanOf, WorldSound, BooksGrow, AllKin, PendingSet;
    var limit := BatchOf(run.batchSize);
    var plan := PlanOf(world.templates, run.ids, clock, limit);
    ExactParts(world);
    PlanIsPending(world, clock, run);
    RunSucceedsExactlyWhen(world, clock, run);
    PostableTogether(world, PendingSet(plan.templates, clock), plan.claims);
    if GenerateRecurring(world, clock, run.batchSize, true, run.ids).Ok? {
      var next := GenerateRecurring(world, clock, run.batchSize, true, run.ids).value;
      RunAllIsExact(world, run.ids, clock, limit);
      RunAllFollowsPlan(world, run.ids, clock, limit);
      RunKeepsKin(world, clock, run.batchSize, true, run.ids);
      PostableLater(world, next, PendingSet(plan.templates, clock));
    }
  }

  /** Runs of any batch sizes all succeed if every template with a pending date can post. */
  lemma {:induction false} EveryRunSucceeds(world: World, clock: nat -> Date, runs: seq<Run>)
    requires WorldExact(world) && RunsOnDueLists(world, clock, runs) && PendingPostable(world, clock)
    ensures Repeat(world, clock, runs).Ok? && WorldExact(Repeat(world, clock, runs).value)
    decreases |runs|
  {
    hide WorldExact, GenerateRecurring, IsDueList, PendingPostable;
    if runs != [] {
      NextRunKeepsPostable(world, clock, runs[0]);
      EveryRunSucceeds(GenerateRecurring(world, clock, runs[0].batchSize, true, runs[0].ids).value, clock, runs[1..]);
    }
  }

  /** Runs that leave nothing due needed every template with a pending date to be able to post. */
  lemma {:induction false} CompleteRunsPostAll(world: World, clock: nat -> Date, runs: seq<Run>)
    requires WorldExact(world) && RunsOnDueLists(world, clock, runs)
    requires Repeat(world, clock, runs).Ok? && Quiet(Repeat(world, clock, runs).value.templates, clock)
    ensures PendingPostable(world, clock)
    decreases |runs|
  {
    hide WorldExact, GenerateRecurring, IsDueList, AllPostable, Quiet, PendingSet;
    if runs == [] {
      ExactParts(world);
      WorldCountsPositive(world);
      QuietHasNothingPending(world.templates, clock);
      PlanOfNone(world, clock, 0);
    } else {
      NextRunKeepsPostable(world, clock, runs[0]);
      CompleteRunsPostAll(GenerateRecurring(world, clock, runs[0].batchSize, true, runs[0].ids).value, clock,
                          runs[1..]);
    }
  }

  /**
   As many unlocked runs as the work weighs all succeed, and leave nothing due, exactly when every template with a
   pending date can post.
   */
  lemma {:induction false} EnoughRunsSucceedExactlyWhen(world: World, clock: nat -> Date, runs: seq<Run>)
    requires WorldExact(world) && RunsOnDueLists(world, clock, runs)
    requires forall i :: 0 <= i < |runs| ==> runs[i].locked == {}
    requires TotalWeight(world.templates, clock) <= |runs|
    ensures Repeat(world, clock, runs).Ok? <==> PendingPostable(world, clock)
    ensures Repeat(world, clock, runs).Ok? ==> Quiet(Repeat(world, clock, runs).value.templates, clock)
  {
    hide WorldExact, RunsOnDueLists, PendingPostable, TotalWeight, Repeat, Quiet;
    ExactParts(world);
    if Repeat(world, clock, runs).Ok? {
      EnoughRunsAreQuiet(world, clock, runs);
      CompleteRunsPostAll(world, clock, runs);
    }
    if PendingPostable(world, clock) {
      EveryRunSucceeds(world, clock, runs);
    }
  }
}
