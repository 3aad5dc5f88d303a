/** Runs of the worker: every reachable world is sound, and any batching reaches the same end. */
module RecurringRuns {
  import opened Prelude
  import opened Calendar
  import opened Schedule
  import opened Recurring
  import opened RecurringLaws
  import opened Sums
  import Ledger
  import Accounts
  import LedgerLaws
  import Money

  // ----- the due dates of a template

  /** Every date the template owes by `today` and within its end date. */
  function DueDates(t: Template, today: Date): seq<Date>
    requires t.count >= 1
    decreases DayNumber(today) - DayNumber(t.next) + 1
  {
    if After(t.next, today) || PastEnd(t) then []
    else
      StepMovesOn(t);
      [t.next] + DueDates(Step(t), today)
  }

  /** The row after its last due date. */
  function Last(t: Template, today: Date): Template
    requires t.count >= 1
    decreases DayNumber(today) - DayNumber(t.next) + 1
  {
    if After(t.next, today) || PastEnd(t) then t
    else
      StepMovesOn(t);
      Last(Step(t), today)
  }

  function Pending(t: Template, today: Date): seq<Date>
    requires t.count >= 1
  {
    if Due(t, today) then DueDates(t, today) else []
  }

  /** The row once nothing is due: advanced past every due date, and paused as completed if past its end. */
  function Drained(t: Template, today: Date): Template
    requires t.count >= 1
  {
    if Due(t, today) then Settle(Last(t, today)) else t
  }

  function Weight(t: Template, today: Date): nat {
    if t.count >= 1 && Due(t, today) then 1 + |DueDates(t, today)| else 0
  }

  ghost predicate SameOwner(t: Template, s: Template) {
    s.user == t.user && s.count == t.count && s.active == t.active && s.archived == t.archived && s.end == t.end
  }

  /** Firing with a budget takes a prefix of the due dates and leaves the rest for later. */
  lemma {:induction false} FireTakesAPrefix(t: Template, today: Date, budget: nat)
    requires t.count >= 1
    ensures var fired := Fire(t, today, budget);
            var due := DueDates(t, today);
            && fired.template.count == t.count
            && if |due| <= budget then fired == Fired(Settle(Last(t, today)), due)
               else
                 && fired.dates == due[..budget] && SameOwner(t, fired.template)
                 && !After(fired.template.next, today)
                 && DueDates(fired.template, today) == due[budget..]
                 && Last(fired.template, today) == Last(t, today)
    decreases budget
  {
    hide DayNumber, Next;
    LastKeepsOwner(t, today);
    if !(After(t.next, today) || PastEnd(t)) && budget > 0 {
      StepMovesOn(t);
      FireTakesAPrefix(Step(t), today, budget - 1);
    }
  }

  lemma {:induction false} LastKeepsOwner(t: Template, today: Date)
    requires t.count >= 1
    ensures SameOwner(t, Last(t, today))
    ensures After(Last(t, today).next, today) || PastEnd(Last(t, today))
    decreases DayNumber(today) - DayNumber(t.next) + 1
  {
    hide DayNumber, Next;
    if !(After(t.next, today) || PastEnd(t)) {
      StepMovesOn(t);
      LastKeepsOwner(Step(t), today);
    }
  }

  /** One visit to a due template moves pending dates to generated ones and keeps where the row is heading. */
  lemma {:induction false} FireKeepsTarget(t: Template, today: Date, budget: nat)
    requires t.count >= 1 && Due(t, today) && budget >= 1
    ensures var fired := Fire(t, today, budget);
            && fired.template.count == t.count && fired.template.user == t.user
            && Pending(t, today) == fired.dates + Pending(fired.template, today)
            && Drained(fired.template, today) == Drained(t, today)
            && Weight(fired.template, today) < Weight(t, today)
            && (budget >= |DueDates(t, today)| ==> !Due(fired.template, today))
  {
    hide DayNumber, DueDates, Last, Fire;
    FireTakesAPrefix(t, today, budget);
    LastKeepsOwner(t, today);
  }

  // ----- a plan over many templates

  ghost function PendingSet(templates: map<nat, Template>, clock: nat -> Date): set<(nat, Ledger.Day)>
    requires Positive(templates)
  {
    set id, i | id in templates && 0 <= i < |Pending(templates[id], clock(templates[id].user))|
      :: (id, DayNumber(Pending(templates[id], clock(templates[id].user))[i]))
  }

  ghost predicate SameTargets(templates: map<nat, Template>, after: map<nat, Template>, clock: nat -> Date)
    requires Positive(templates) && Positive(after)
  {
    && after.Keys == templates.Keys
    && forall id :: id in templates ==>
         && after[id].user == templates[id].user
         && Drained(after[id], clock(templates[id].user)) == Drained(templates[id], clock(templates[id].user))
  }

  ghost function WeightIn(templates: map<nat, Template>, clock: nat -> Date): nat -> int {
    (id: nat) => if id in templates then Weight(templates[id], clock(templates[id].user)) else 0
  }

  ghost function TotalWeight(templates: map<nat, Template>, clock: nat -> Date): int {
    SumOver(templates.Keys, WeightIn(templates, clock))
  }

  lemma WeightsNotNegative(templates: map<nat, Template>, clock: nat -> Date)
    ensures forall id: nat :: 0 <= WeightIn(templates, clock)(id)
  {
    hide Weight;
    forall id: nat
      ensures 0 <= WeightIn(templates, clock)(id)
    {
      assert id in templates ==> 0 <= Weight(templates[id], clock(templates[id].user));
    }
  }

  ghost predicate Listed(ids: seq<nat>, templates: map<nat, Template>, clock: nat -> Date) {
    && (forall i, j :: 0 <= i < j < |ids| ==> ids[i] != ids[j])
    && forall i :: 0 <= i < |ids| ==> ids[i] in templates && Due(templates[ids[i]], clock(templates[ids[i]].user))
  }

  /** Visiting one template: the rest stay as they are, and the sum of weights falls by what this one lost. */
  lemma {:induction false} VisitOne(templates: map<nat, Template>, id: nat, clock: nat -> Date, budget: nat)
    requires Positive(templates) && id in templates && Due(templates[id], clock(templates[id].user)) && budget >= 1
    ensures var t := templates[id];
            var fired := Fire(t, clock(t.user), budget);
            var after := templates[id := fired.template];
            && Positive(after) && SameTargets(templates, after, clock)
            && PendingSet(templates, clock) == PendingSet(after, clock) + Claims(id, fired.dates)
            && TotalWeight(after, clock) < TotalWeight(templates, clock)
            && (TotalWeight(templates, clock) < budget ==> !Due(fired.template, clock(t.user)))
            && (TotalWeight(templates, clock) < budget ==> TotalWeight(after, clock) < budget - |fired.dates|)
  {
    hide Fire, DueDates, DayNumber, Due, Drained, PendingSet, TotalWeight, WeightIn, Claims;
    var t := templates[id];
    var today := clock(t.user);
    var fired := Fire(t, today, budget);
    var after := templates[id := fired.template];
    FireKeepsTarget(t, today, budget);
    FiredDatesAllowed(t, today, budget);
    PendingMoves(templates, id, clock, fired);
    WeightMoves(templates, id, clock, fired.template);
    WeightWithin(templates, id, clock);
    FireTakesAPrefix(t, today, budget);
  }

  lemma {:induction false} WeightWithin(templates: map<nat, Template>, id: nat, clock: nat -> Date)
    requires id in templates
    ensures Weight(templates[id], clock(templates[id].user)) <= TotalWeight(templates, clock)
  {
    SumSplitsOff(templates.Keys, id, WeightIn(templates, clock));
    WeightsNotNegative(templates, clock);
    SumNotNegative(templates.Keys - {id}, WeightIn(templates, clock));
  }

  lemma {:induction false} WeightMoves(templates: map<nat, Template>, id: nat, clock: nat -> Date, t: Template)
    requires id in templates && t.user == templates[id].user
    ensures TotalWeight(templates[id := t], clock)
            == TotalWeight(templates, clock) - Weight(templates[id], clock(t.user)) + Weight(t, clock(t.user))
  {
    hide Weight;
    var after := templates[id := t];
    var f, g := WeightIn(templates, clock), WeightIn(after, clock);
    assert after.Keys == templates.Keys;
    SumSplitsOff(templates.Keys, id, f);
    SumSplitsOff(templates.Keys, id, g);
    SumSame(templates.Keys - {id}, f, g);
  }

  lemma InPending(templates: map<nat, Template>, clock: nat -> Date, id: nat, date: Date)
    requires Positive(templates) && id in templates && date in Pending(templates[id], clock(templates[id].user))
    ensures (id, DayNumber(date)) in PendingSet(templates, clock)
  {
  }

  lemma PendingDate(templates: map<nat, Template>, clock: nat -> Date, claim: (nat, Ledger.Day)) returns (date: Date)
    requires Positive(templates) && claim in PendingSet(templates, clock)
    ensures claim.0 in templates && date in Pending(templates[claim.0], clock(templates[claim.0].user))
    ensures claim.1 == DayNumber(date)
  {
    hide Pending, DayNumber;
    var i :| 0 <= i < |Pending(templates[claim.0], clock(templates[claim.0].user))|
             && claim.1 == DayNumber(Pending(templates[claim.0], clock(templates[claim.0].user))[i]);
    date := Pending(templates[claim.0], clock(templates[claim.0].user))[i];
  }

  lemma ClaimedDate(id: nat, dates: seq<Date>, claim: (nat, Ledger.Day)) returns (date: Date)
    requires claim in Claims(id, dates)
    ensures date in dates && claim == (id, DayNumber(date))
  {
    hide DayNumber;
    var i :| 0 <= i < |dates| && claim == (id, DayNumber(dates[i]));
    date := dates[i];
  }

  lemma InClaims(id: nat, dates: seq<Date>, date: Date)
    requires date in dates
    ensures (id, DayNumber(date)) in Claims(id, dates)
  {
  }

  lemma {:induction false} PendingMoves(templates: map<nat, Template>, id: nat, clock: nat -> Date, fired: Fired)
    requires Positive(templates) && id in templates
    requires fired.template.count >= 1 && fired.template.user == templates[id].user
    requires var today := clock(templates[id].user);
             Pending(templates[id], today) == fired.dates + Pending(fired.template, today)
    ensures PendingSet(templates, clock)
            == PendingSet(templates[id := fired.template], clock) + Claims(id, fired.dates)
  {
    hide Pending, DayNumber, PendingSet, Claims;
    var after := templates[id := fired.template];
    forall claim | claim in PendingSet(templates, clock)
      ensures claim in PendingSet(after, clock) + Claims(id, fired.dates)
    {
      var date := PendingDate(templates, clock, claim);
      if claim.0 == id && date in fired.dates {
        InClaims(id, fired.dates, date);
      } else {
        InPending(after, clock, claim.0, date);
      }
    }
    forall claim | claim in Claims(id, fired.dates)
      ensures claim in PendingSet(templates, clock)
    {
      var date := ClaimedDate(id, fired.dates, claim);
      InPending(templates, clock, id, date);
    }
    forall claim | claim in PendingSet(after, clock)
      ensures claim in PendingSet(templates, clock)
    {
      var date := PendingDate(after, clock, claim);
      InPending(templates, clock, claim.0, date);
    }
  }

  /**
   A run keeps every template's target, turns pending dates into claims, and lowers the weight if anything was due.
   */
  lemma {:induction false} PlanKeepsTargets(
      templates: map<nat, Template>, ids: seq<nat>, clock: nat -> Date, budget: nat)
    requires Positive(templates) && Listed(ids, templates, clock) && budget >= 1
    ensures var plan := PlanOf(templates, ids, clock, budget);
            && Positive(plan.templates) && SameTargets(templates, plan.templates, clock)
            && PendingSet(templates, clock) == PendingSet(plan.templates, clock) + plan.claims
            && (ids != [] ==> TotalWeight(plan.templates, clock) < TotalWeight(templates, clock))
            && plan.left <= budget
    decreases |ids|
  {
    hide Fire, Weight, Drained, PendingSet, Claims, Due, TotalWeight, SameTargets;
    TargetsSelf(templates, clock);
    if ids != [] {
      var id := ids[0];
      var t := templates[id];
      var fired := Fire(t, clock(t.user), budget);
      var after := templates[id := fired.template];
      VisitOne(templates, id, clock, budget);
      FiredDatesAllowed(t, clock(t.user), budget);
      if budget - |fired.dates| != 0 {
        assert Listed(ids[1..], after, clock);
        PlanKeepsTargets(after, ids[1..], clock, budget - |fired.dates|);
        TargetsCompose(templates, after, PlanOf(templates, ids, clock, budget).templates, clock);
      }
    }
  }

  lemma TargetsSelf(templates: map<nat, Template>, clock: nat -> Date)
    requires Positive(templates)
    ensures SameTargets(templates, templates, clock)
  {
    hide Drained;
  }

  lemma TargetsCompose(a: map<nat, Template>, b: map<nat, Template>, c: map<nat, Template>, clock: nat -> Date)
    requires Positive(a) && Positive(b) && Positive(c)
    requires SameTargets(a, b, clock) && SameTargets(b, c, clock)
    ensures SameTargets(a, c, clock)
  {
    hide Drained;
  }

  /** With a budget above the whole weight, every listed template ends with nothing due. */
  lemma {:induction false} PlanDrains(templates: map<nat, Template>, ids: seq<nat>, clock: nat -> Date, budget: nat)
    requires Positive(templates) && Listed(ids, templates, clock) && TotalWeight(templates, clock) < budget
    ensures var plan := PlanOf(templates, ids, clock, budget);
            && plan.templates.Keys == templates.Keys
            && forall id :: id in templates ==>
                 if id in ids then !Due(plan.templates[id], clock(templates[id].user))
                 else plan.templates[id] == templates[id]
    decreases |ids|
  {
    hide Fire, Weight, Drained, PendingSet, Claims, Due, TotalWeight;
    if ids != [] {
      var id := ids[0];
      var t := templates[id];
      var fired := Fire(t, clock(t.user), budget);
      var after := templates[id := fired.template];
      TotalIsNatural(templates, clock);
      VisitOne(templates, id, clock, budget);
      FiredDatesAllowed(t, clock(t.user), budget);
      TotalIsNatural(after, clock);
      assert Listed(ids[1..], after, clock);
      PlanDrains(after, ids[1..], clock, budget - |fired.dates|);
      assert id !in ids[1..];
    }
  }

  lemma {:induction false} TotalIsNatural(templates: map<nat, Template>, clock: nat -> Date)
    ensures TotalWeight(templates, clock) >= 0
  {
    WeightsNotNegative(templates, clock);
    SumNotNegative(templates.Keys, WeightIn(templates, clock));
  }

  // ----- repeated runs

  datatype Run = Run(batchSize: int, locked: set<nat>, ids: seq<nat>)

  ghost function Repeat(world: World, clock: nat -> Date, runs: seq<Run>): Result<World, Ledger.LedgerError>
    decreases |runs|
  {
    if runs == [] then Ok(world)
    else
      var next :- GenerateRecurring(world, clock, runs[0].batchSize, true, runs[0].ids);
      Repeat(next, clock, runs[1..])
  }

  /** Every run works on the ids its own query returned. */
  ghost predicate RunsOnDueLists(world: World, clock: nat -> Date, runs: seq<Run>)
    decreases |runs|
  {
    runs == [] ||
    (&& IsDueList(runs[0].ids, world.templates, clock, runs[0].locked, BatchOf(runs[0].batchSize))
     && var next := GenerateRecurring(world, clock, runs[0].batchSize, true, runs[0].ids);
        next.Ok? ==> RunsOnDueLists(next.value, clock, runs[1..]))
  }

  predicate Quiet(templates: map<nat, Template>, clock: nat -> Date) {
    forall id :: id in templates ==> !Due(templates[id], clock(templates[id].user))
  }

  lemma {:induction false} DueListIsListed(
      ids: seq<nat>, templates: map<nat, Template>, clock: nat -> Date, locked: set<nat>, limit: nat)
    requires IsDueList(ids, templates, clock, locked, limit)
    ensures Listed(ids, templates, clock)
  {
    hide Due;
    forall i, j | 0 <= i < j < |ids|
      ensures ids[i] != ids[j]
    {
      assert Earlier(templates, ids[i], ids[j]);
    }
  }

  /** One successful run: sound, at most a batch of postings, and strictly less left to do if it found anything. */
  lemma {:induction false} RunMakesProgress(world: World, clock: nat -> Date, run: Run)
    requires WorldSound(world)
    requires IsDueList(run.ids, world.templates, clock, run.locked, BatchOf(run.batchSize))
    requires GenerateRecurring(world, clock, run.batchSize, true, run.ids).Ok?
    ensures Positive(world.templates)
    ensures var after := GenerateRecurring(world, clock, run.batchSize, true, run.ids).value;
            && WorldSound(after) && BooksGrow(world, after)
            && Positive(after.templates) && SameTargets(world.templates, after.templates, clock)
            && world.occurrences.Keys <= after.occurrences.Keys
            && after.occurrences.Keys + PendingSet(after.templates, clock)
               == world.occurrences.Keys + PendingSet(world.templates, clock)
            && (DueSet(world.templates, clock, run.locked) != {} ==>
                TotalWeight(after.templates, clock) < TotalWeight(world.templates, clock))
  {
    hide WorldSound, PendingSet, TotalWeight, Due, Earlier, Drained, RunAll, PlanOf;
    WorldCountsPositive(world);
    DueListIsListed(run.ids, world.templates, clock, run.locked, BatchOf(run.batchSize));
    RunAllFollowsPlan(world, run.ids, clock, BatchOf(run.batchSize));
    PlanKeepsTargets(world.templates, run.ids, clock, BatchOf(run.batchSize));
    if id :| id in DueSet(world.templates, clock, run.locked) {
      assert id in run.ids || |run.ids| == BatchOf(run.batchSize);
    }
  }

  /**
   Batching is confluent: however the runs are cut into batches, once nothing is due every template row is its
   drained row and the claimed dates are the old ones and exactly the pending ones.
   */
  lemma {:induction false} BatchingIsConfluent(world: World, clock: nat -> Date, runs: seq<Run>)
    requires WorldSound(world) && RunsOnDueLists(world, clock, runs)
    requires Repeat(world, clock, runs).Ok? && Quiet(Repeat(world, clock, runs).value.templates, clock)
    ensures Positive(world.templates)
    ensures var final := Repeat(world, clock, runs).value;
            && WorldSound(final)
            && final.templates.Keys == world.templates.Keys
            && (forall id :: id in world.templates ==>
                  final.templates[id] == Drained(world.templates[id], clock(world.templates[id].user)))
            && final.occurrences.Keys == world.occurrences.Keys + PendingSet(world.templates, clock)
    decreases |runs|
  {
    hide WorldSound, TotalWeight, Due, IsDueList, GenerateRecurring, DueDates, Last, PendingSet;
    WorldCountsPositive(world);
    if runs == [] {
      QuietHasNothingPending(world.templates, clock);
    } else {
      RunMakesProgress(world, clock, runs[0]);
      var next := GenerateRecurring(world, clock, runs[0].batchSize, true, runs[0].ids).value;
      BatchingIsConfluent(next, clock, runs[1..]);
    }
  }

  lemma {:induction false} QuietHasNothingPending(templates: map<nat, Template>, clock: nat -> Date)
    requires Positive(templates) && Quiet(templates, clock)
    ensures PendingSet(templates, clock) == {}
    ensures forall id :: id in templates ==> Drained(templates[id], clock(templates[id].user)) == templates[id]
  {
    hide Due, DueDates, Last;
  }

  lemma {:induction false} DueDatesComeLater(t: Template, today: Date, i: nat)
    requires t.count >= 1 && i < |DueDates(t, today)|
    ensures DayNumber(DueDates(t, today)[i]) >= DayNumber(t.next)
    decreases i
  {
    hide DayNumber, Next;
    StepMovesOn(t);
    if i > 0 {
      DueDatesComeLater(Step(t), today, i - 1);
    }
  }

  lemma {:induction false} ClaimedEarlier(world: World, claim: (nat, Ledger.Day))
    requires WorldSound(world) && claim in world.occurrences
    ensures claim.0 in world.templates && claim.1 < DayNumber(world.templates[claim.0].next)
  {
    hide Slot, DayNumber, LedgerLaws.Sound;
    assert ClaimPosted(world, claim);
    var t := world.templates[claim.0];
    var k: nat :| OnSlot(world.occurrences, claim.0, t, k);
    assert IsEarlierSlot(t, k, claim.1);
    var j: nat :| j < k && claim.1 == DayNumber(Slot(t.start, t.unit, t.count, j));
    SlotsIncrease(t.start, t.unit, t.count, j, k);
  }

  /** No pending date is claimed already. */
  lemma {:induction false} PendingIsUnclaimed(world: World, clock: nat -> Date)
    requires WorldSound(world) && Positive(world.templates)
    ensures PendingSet(world.templates, clock) !! world.occurrences.Keys
  {
    hide WorldSound, DayNumber, Due, DueDates;
    forall claim | claim in PendingSet(world.templates, clock)
      ensures claim !in world.occurrences
    {
      var t := world.templates[claim.0];
      var i :| 0 <= i < |Pending(t, clock(t.user))| && claim.1 == DayNumber(Pending(t, clock(t.user))[i]);
      DueDatesComeLater(t, clock(t.user), i);
      if claim in world.occurrences {
        ClaimedEarlier(world, claim);
      }
    }
  }

  /** One run with a large enough batch and no row locked leaves nothing due: it is a quiet run of its own. */
  lemma {:induction false} LargeBatchDrains(world: World, clock: nat -> Date, batchSize: int, ids: seq<nat>)
    requires WorldSound(world)
    requires IsDueList(ids, world.templates, clock, {}, BatchOf(batchSize))
    requires TotalWeight(world.templates, clock) < BatchOf(batchSize)
    requires GenerateRecurring(world, clock, batchSize, true, ids).Ok?
    ensures Quiet(GenerateRecurring(world, clock, batchSize, true, ids).value.templates, clock)
  {
    hide WorldSound, Due, Earlier, PlanOf, RunAll, TotalWeight, Drained;
    var templates := world.templates;
    WorldCountsPositive(world);
    DueListIsListed(ids, templates, clock, {}, BatchOf(batchSize));
    RunAllFollowsPlan(world, ids, clock, BatchOf(batchSize));
    TotalIsNatural(templates, clock);
    PlanDrains(templates, ids, clock, BatchOf(batchSize));
    PlanKeepsTargets(templates, ids, clock, BatchOf(batchSize));
    ListedWeigh(templates, ids, clock);
    var plan := PlanOf(templates, ids, clock, BatchOf(batchSize));
    forall id | id in templates
      ensures !Due(plan.templates[id], clock(plan.templates[id].user))
    {
      if id !in ids {
        assert id !in DueSet(templates, clock, {});
      }
    }
  }

  /**
   Nothing due means nothing owed: every date of an active, unarchived template's schedule that has come by its
   owner's local date is claimed.
   */
  lemma {:induction false} QuietClaimsEveryDate(world: World, clock: nat -> Date, id: nat, k: nat)
    requires WorldSound(world) && Quiet(world.templates, clock) && id in world.templates
    requires world.templates[id].active && !world.templates[id].archived && world.templates[id].count >= 1
    requires var t := world.templates[id];
             !LexicographicallyBefore(clock(t.user), Slot(t.start, t.unit, t.count, k))
    ensures var t := world.templates[id];
            (id, DayNumber(Slot(t.start, t.unit, t.count, k))) in world.occurrences
  {
    hide Slot, DayNumber, LedgerLaws.Sound, ClaimPosted;
    var t := world.templates[id];
    OrderIsLexicographic(clock(t.user), Slot(t.start, t.unit, t.count, k));
    assert HasSlot(world.occurrences, id, t);
    var n: nat :| OnSlot(world.occurrences, id, t, n);
    assert !Due(t, clock(t.user));
    if n <= k {
      NextNotAfterSlot(t, n, k);
    } else {
      assert IsEarlierSlot(t, n, DayNumber(Slot(t.start, t.unit, t.count, k)));
    }
  }

  lemma {:induction false} NextNotAfterSlot(t: Template, n: nat, k: nat)
    requires t.count >= 1 && n <= k && t.next == Slot(t.start, t.unit, t.count, n)
    ensures DayNumber(t.next) <= DayNumber(Slot(t.start, t.unit, t.count, k))
  {
    hide Slot, DayNumber;
    if n < k {
      SlotsIncrease(t.start, t.unit, t.count, n, k);
    }
  }

  /** A completed template owes nothing either: every date up to its end is claimed. */
  lemma {:induction false} CompletedClaimsEveryDate(world: World, id: nat, k: nat)
    requires WorldSound(world) && id in world.templates && world.templates[id].count >= 1
    requires world.templates[id].end.Some?
             && LexicographicallyBefore(world.templates[id].end.value, world.templates[id].next)
    requires var t := world.templates[id];
             !LexicographicallyBefore(t.end.value, Slot(t.start, t.unit, t.count, k))
    ensures var t := world.templates[id];
            (id, DayNumber(Slot(t.start, t.unit, t.count, k))) in world.occurrences
  {
    hide Slot, DayNumber, LedgerLaws.Sound, ClaimPosted;
    var t := world.templates[id];
    OrderIsLexicographic(t.end.value, t.next);
    OrderIsLexicographic(t.end.value, Slot(t.start, t.unit, t.count, k));
    assert HasSlot(world.occurrences, id, t);
    var n: nat :| OnSlot(world.occurrences, id, t, n);
    if n <= k {
      NextNotAfterSlot(t, n, k);
    } else {
      assert IsEarlierSlot(t, n, DayNumber(Slot(t.start, t.unit, t.count, k)));
    }
  }

  /** The list takes active, unarchived templates whose date has come, by date and then by identifier. */
  lemma {:induction false} ListedEarliestFirst(
      ids: seq<nat>, templates: map<nat, Template>, clock: nat -> Date, locked: set<nat>, limit: nat, i: nat, j: nat)
    requires IsDueList(ids, templates, clock, locked, limit) && i < j < |ids|
    ensures ids[i] in templates && ids[j] in templates
    ensures var first, second := templates[ids[i]], templates[ids[j]];
            && first.active && !first.archived && ids[i] !in locked
            && !LexicographicallyBefore(clock(first.user), first.next)
            && !LexicographicallyBefore(second.next, first.next)
            && (first.next == second.next ==> ids[i] < ids[j])
  {
    hide DayNumber;
    assert ids[i] in DueSet(templates, clock, locked) && ids[j] in DueSet(templates, clock, locked);
    assert Earlier(templates, ids[i], ids[j]);
    var first, second := templates[ids[i]], templates[ids[j]];
    OrderIsLexicographic(clock(first.user), first.next);
    OrderIsLexicographic(second.next, first.next);
  }

  /** No template that has come is left out for a later one: only those behind a full list are. */
  lemma {:induction false} LeftOutComeLater(
      ids: seq<nat>, templates: map<nat, Template>, clock: nat -> Date, locked: set<nat>, limit: nat, id: nat, i: nat)
    requires IsDueList(ids, templates, clock, locked, limit) && id in templates && id !in locked && id !in ids
    requires templates[id].active && !templates[id].archived
    requires !LexicographicallyBefore(clock(templates[id].user), templates[id].next)
    ensures |ids| == limit
    ensures i < |ids| ==>
              && ids[i] in templates && !LexicographicallyBefore(templates[id].next, templates[ids[i]].next)
              && (templates[id].next == templates[ids[i]].next ==> ids[i] < id)
  {
    hide DayNumber;
    OrderIsLexicographic(clock(templates[id].user), templates[id].next);
    assert id in DueSet(templates, clock, locked);
    if i < |ids| {
      assert ids[i] in DueSet(templates, clock, locked);
      assert Earlier(templates, ids[i], id);
      OrderIsLexicographic(templates[id].next, templates[ids[i]].next);
    }
  }

  /** A run without the lock does nothing; a batch size below one means one hundred. */
  lemma RunSettings(world: World, clock: nat -> Date, batchSize: int, ids: seq<nat>)
    ensures GenerateRecurring(world, clock, batchSize, false, ids) == Ok(world)
    ensures batchSize < 1 ==>
              GenerateRecurring(world, clock, batchSize, true, ids) == GenerateRecurring(world, clock, 100, true, ids)
  {
    hide RunAll;
  }

  lemma {:induction false} QuietWeighsNothing(templates: map<nat, Template>, clock: nat -> Date)
    requires Positive(templates)
    ensures Quiet(templates, clock) <==> TotalWeight(templates, clock) == 0
  {
    hide DayNumber, DueDates, Due;
    if Quiet(templates, clock) {
      SumOfZeros(templates.Keys, WeightIn(templates, clock));
    } else {
      var id :| id in templates && Due(templates[id], clock(templates[id].user));
      WeightWithin(templates, id, clock);
    }
  }

  lemma EmptyRunChangesNothing(world: World, clock: nat -> Date, run: Run)
    requires run.ids == []
    ensures GenerateRecurring(world, clock, run.batchSize, true, run.ids) == Ok(world)
  {
  }

  /** Batching terminates: as many successful runs as the work weighs, with no row locked, leave nothing due. */
  lemma {:induction false} EnoughRunsAreQuiet(world: World, clock: nat -> Date, runs: seq<Run>)
    requires WorldSound(world) && RunsOnDueLists(world, clock, runs)
    requires forall i :: 0 <= i < |runs| ==> runs[i].locked == {}
    requires Repeat(world, clock, runs).Ok? && TotalWeight(world.templates, clock) <= |runs|
    ensures Quiet(Repeat(world, clock, runs).value.templates, clock)
    decreases |runs|
  {
    hide WorldSound, GenerateRecurring, BooksGrow, SameTargets, PendingSet, Due, Quiet, TotalWeight;
    WorldCountsPositive(world);
    QuietWeighsNothing(world.templates, clock);
    TotalIsNatural(world.templates, clock);
    if runs != [] {
      RunMakesProgress(world, clock, runs[0]);
      var next := GenerateRecurring(world, clock, runs[0].batchSize, true, runs[0].ids).value;
      if runs[0].ids == [] {
        EmptyRunChangesNothing(world, clock, runs[0]);
        NothingListedIsQuiet(world.templates, clock, BatchOf(runs[0].batchSize));
      } else {
        assert runs[0].ids[0] in DueSet(world.templates, clock, {});
      }
      EnoughRunsAreQuiet(next, clock, runs[1..]);
    }
  }

  lemma NothingListedIsQuiet(templates: map<nat, Template>, clock: nat -> Date, limit: nat)
    requires IsDueList([], templates, clock, {}, limit) && limit >= 1
    ensures Quiet(templates, clock)
  {
    hide Due;
    forall id | id in templates
      ensures !Due(templates[id], clock(templates[id].user))
    {
      assert id !in DueSet(templates, clock, {});
    }
  }

  lemma {:induction false} ListedWeigh(templates: map<nat, Template>, ids: seq<nat>, clock: nat -> Date)
    requires Positive(templates) && Listed(ids, templates, clock)
    ensures |ids| <= TotalWeight(templates, clock)
  {
    hide Due, Weight;
    ListedWeighIn(templates, templates.Keys, ids, clock);
  }

  lemma {:induction false} ListedWeighIn(
      templates: map<nat, Template>, keys: set<nat>, ids: seq<nat>, clock: nat -> Date)
    requires Positive(templates) && Listed(ids, templates, clock)
    requires forall i :: 0 <= i < |ids| ==> ids[i] in keys
    ensures |ids| <= SumOver(keys, WeightIn(templates, clock))
    decreases |ids|
  {
    hide Due, DueDates;
    if ids == [] {
      WeightsNotNegative(templates, clock);
      SumNotNegative(keys, WeightIn(templates, clock));
    } else {
      SumSplitsOff(keys, ids[0], WeightIn(templates, clock));
      ListedWeighIn(templates, keys - {ids[0]}, ids[1..], clock);
    }
  }

  // ----- statuses

  /** Paused exactly when there is a reason, and never active while archived. */
  ghost predicate StatusConsistent(t: Template) {
    (t.active <==> t.reason.None?) && (t.archived ==> !t.active)
  }

  ghost predicate StatusesConsistent(templates: map<nat, Template>) {
    forall id :: id in templates ==> StatusConsistent(templates[id])
  }

  lemma {:induction false} FireKeepsStatus(t: Template, today: Date, budget: nat)
    requires t.count >= 1 && StatusConsistent(t)
    ensures StatusConsistent(Fire(t, today, budget).template)
    decreases budget
  {
    hide DayNumber, Next;
    if !(After(t.next, today) || budget == 0 || PastEnd(t)) {
      FireKeepsStatus(Step(t), today, budget - 1);
    }
  }

  lemma {:induction false} PlanKeepsStatuses(
      templates: map<nat, Template>, ids: seq<nat>, clock: nat -> Date, budget: nat)
    requires StatusesConsistent(templates)
    ensures StatusesConsistent(PlanOf(templates, ids, clock, budget).templates)
    decreases |ids|
  {
    hide Fire, DayNumber, Claims, StatusConsistent;
    if ids != [] && ids[0] in templates && templates[ids[0]].count >= 1 {
      var t := templates[ids[0]];
      var fired := Fire(t, clock(t.user), budget);
      FireKeepsStatus(t, clock(t.user), budget);
      FiredDatesAllowed(t, clock(t.user), budget);
      if budget - |fired.dates| != 0 {
        PlanKeepsStatuses(templates[ids[0] := fired.template], ids[1..], clock, budget - |fired.dates|);
      }
    }
  }

  lemma {:induction false} EditKeepsStatus(book: Ledger.Book, t: Template, patch: Patch)
    requires StatusConsistent(t) && UpdateTemplate(book, t, patch).Ok?
    ensures StatusConsistent(UpdateTemplate(book, t, patch).value)
  {
    hide DayNumber, Money.Parse, Money.String, Dependencies;
  }

  // ----- every reachable world

  /**
   What can happen to the worker's tables: its own runs, template requests, and everything else users do to their
   books.
   */
  datatype Event =
    | WorkerRan(clock: nat -> Date, batchSize: int, gotLock: bool, ids: seq<nat>)
    | TemplateCreated(id: nat, user: nat, request: NewTemplate)
    | TemplateEdited(id: nat, patch: Patch)
    | BookChanged(user: nat, book: Ledger.Book)

  /** The templates after a user's book changed: those that use a row it archives are paused. */
  function Triggered(world: World, user: nat, book: Ledger.Book): map<nat, Template> {
    if user !in world.books then world.templates
    else
      map id | id in world.templates ::
        if world.templates[id].user == user then PauseFor(world.books[user], book, world.templates[id])
        else world.templates[id]
  }

  /** Failed requests and failed runs leave the world as it was. */
  function Happen(world: World, event: Event): World {
    match event
    case WorkerRan(clock, batchSize, gotLock, ids) =>
      var ran := GenerateRecurring(world, clock, batchSize, gotLock, ids);
      if ran.Ok? then ran.value else world
    case TemplateCreated(id, user, request) =>
      if id in world.templates || user !in world.books then world
      else
        (match CreateTemplate(world.books[user], user, request)
         case Ok(row) => world.(templates := world.templates[id := row])
         case Err(_) => world)
    case TemplateEdited(id, patch) =>
      if id !in world.templates || world.templates[id].user !in world.books then world
      else
        (match UpdateTemplate(world.books[world.templates[id].user], world.templates[id], patch)
         case Ok(row) => world.(templates := world.templates[id := row])
         case Err(_) => world)
    case BookChanged(user, book) =>
      world.(books := world.books[user := book], templates := Triggered(world, user, book))
  }

  /** Other requests add rows and postings, with any keys, and never change what they are about. */
  ghost predicate Possible(world: World, event: Event) {
    match event
    case BookChanged(user, book) =>
      LedgerLaws.Sound(book) && (user in world.books ==> Accounts.Extends(world.books[user], book))
    case _ => true
  }

  ghost predicate PossibleRun(world: World, events: seq<Event>)
    decreases |events|
  {
    events == [] || (Possible(world, events[0]) && PossibleRun(Happen(world, events[0]), events[1..]))
  }

  function HappenAll(world: World, events: seq<Event>): World
    decreases |events|
  {
    if events == [] then world else HappenAll(Happen(world, events[0]), events[1..])
  }

  lemma {:induction false} EditKeepsSchedule(book: Ledger.Book, t: Template, patch: Patch)
    ensures var edited := UpdateTemplate(book, t, patch); edited.Ok? ==> SameSchedule(t, edited.value)
  {
    hide DayNumber, Dependencies;
  }

  lemma PauseKeepsSchedule(before: Ledger.Book, after: Ledger.Book, t: Template)
    ensures SameSchedule(t, PauseFor(before, after, t))
  {
    hide NewlyArchivedAccount, NewlyArchivedCategory;
  }

  /**
   A stored template starts on its anchor, active, with a positive amount in canonical form, a schedule within its
   bounds, and accounts and a category that its operation can use.
   */
  lemma {:induction false} CreatedRow(book: Ledger.Book, id: nat, user: nat, request: NewTemplate)
    ensures var created := CreateTemplate(book, user, request);
            created.Ok? ==>
              var t := created.value;
              && t.user == user && t.next == t.start == request.start && t.end == request.end
              && 1 <= t.count <= 365 && (t.end.Some? ==> !LexicographicallyBefore(t.end.value, t.start))
              && StatusConsistent(t) && t.active && t.kind == request.kind != Ledger.OpenAccount
              && Money.Parse(t.amount) == Money.Parse(request.amount) && Money.Parse(t.amount).Ok?
              && Money.Parse(t.amount).value > 0
              && LedgerLaws.Usable(book, OperationFor(id, t)) && Ledger.OpeningEquity in book.systems
  {
    hide DayNumber, Money.Parse, Money.String, ValidateDependencies, LedgerLaws.Usable;
    NormalizedSchedules(request.frequency, request.unit, request.count, request.start, request.end);
    if CreateTemplate(book, user, request).Ok? {
      Money.ParseInRange(request.amount);
      Money.ParseOfString(Money.Parse(request.amount).value);
      DependenciesExactlyWhenUsable(book, id, CreateTemplate(book, user, request).value);
    }
  }

  lemma {:induction false} CreationIsSound(world: World, id: nat, template: Template)
    requires WorldSound(world) && id !in world.templates && template.count >= 1 && template.next == template.start
    ensures WorldSound(world.(templates := world.templates[id := template]))
  {
    hide LedgerLaws.Sound, Slot, DayNumber;
    var after := world.(templates := world.templates[id := template]);
    SlotZero(template.start, template.unit, template.count);
    forall day: Ledger.Day
      ensures (id, day) !in world.occurrences
    {
      assert (id, day) in world.occurrences ==> ClaimPosted(world, (id, day));
    }
    assert OnSlot(after.occurrences, id, template, 0);
    forall other | other in after.templates
      ensures HasSlot(after.occurrences, other, after.templates[other])
    {
      if other != id {
        assert HasSlot(world.occurrences, other, world.templates[other]);
      }
    }
    forall claim | claim in after.occurrences
      ensures ClaimPosted(after, claim)
    {
      assert ClaimPosted(world, claim);
    }
  }

  lemma {:induction false} OtherBooksKeepSound(world: World, user: nat, book: Ledger.Book)
    requires WorldSound(world) && LedgerLaws.Sound(book) && (user in world.books ==> world.books[user].log <= book.log)
    ensures WorldSound(world.(books := world.books[user := book]))
  {
    hide LedgerLaws.Sound, HasSlot;
    var after := world.(books := world.books[user := book]);
    forall claim | claim in after.occurrences
      ensures ClaimPosted(after, claim)
    {
      assert ClaimPosted(world, claim);
    }
  }

  lemma {:induction false} TriggersKeepSchedules(world: World, user: nat, book: Ledger.Book)
    ensures Triggered(world, user, book).Keys == world.templates.Keys
    ensures forall id :: id in world.templates ==> SameSchedule(world.templates[id], Triggered(world, user, book)[id])
  {
    hide PauseFor, SameSchedule;
    forall id | id in world.templates
      ensures SameSchedule(world.templates[id], Triggered(world, user, book)[id])
    {
      SameScheduleSelf(world.templates[id]);
      if user in world.books {
        PauseKeepsSchedule(world.books[user], book, world.templates[id]);
      }
    }
  }

  lemma SameScheduleSelf(t: Template)
    ensures SameSchedule(t, t)
  {
  }

  lemma {:induction false} EventKeepsSound(world: World, event: Event)
    requires WorldSound(world) && Possible(world, event)
    ensures WorldSound(Happen(world, event))
  {
    hide WorldSound, SameSchedule, UpdateTemplate, CreateTemplate, PlanOf, RunAll, Triggered, LedgerLaws.Sound;
    match event {
      case WorkerRan(clock, batchSize, gotLock, ids) =>
        if GenerateRecurring(world, clock, batchSize, gotLock, ids).Ok? && gotLock {
          RunAllFollowsPlan(world, ids, clock, BatchOf(batchSize));
        }
      case TemplateCreated(id, user, request) =>
        if id !in world.templates && user in world.books {
          CreatedRow(world.books[user], id, user, request);
          var created := CreateTemplate(world.books[user], user, request);
          if created.Ok? {
            CreationIsSound(world, id, created.value);
          }
        }
      case TemplateEdited(id, patch) =>
        if id in world.templates && world.templates[id].user in world.books {
          EditedRowStaysSound(world, id, patch);
        }
      case BookChanged(user, book) =>
        TriggersKeepSchedules(world, user, book);
        SameSchedulesStaySound(world, Triggered(world, user, book));
        OtherBooksKeepSound(world.(templates := Triggered(world, user, book)), user, book);
    }
  }

  lemma {:induction false} EditedRowStaysSound(world: World, id: nat, patch: Patch)
    requires WorldSound(world) && id in world.templates && world.templates[id].user in world.books
    ensures WorldSound(Happen(world, TemplateEdited(id, patch)))
  {
    hide WorldSound, SameSchedule, UpdateTemplate;
    var book := world.books[world.templates[id].user];
    var edited := UpdateTemplate(book, world.templates[id], patch);
    EditKeepsSchedule(book, world.templates[id], patch);
    if edited.Ok? {
      forall other | other in world.templates
        ensures SameSchedule(world.templates[other], world.templates[id := edited.value][other])
      {
        SameScheduleSelf(world.templates[other]);
      }
      SameSchedulesStaySound(world, world.templates[id := edited.value]);
    }
  }

  /**
   Exactly once, in every reachable world: after any run of events a template's claimed dates are the dates
   s(0) to s(k - 1) of its schedule and its next date is s(k), and every claim names a transaction with its key.
   */
  lemma {:induction false} EveryReachableWorldIsSound(world: World, events: seq<Event>)
    requires WorldSound(world) && PossibleRun(world, events)
    ensures WorldSound(HappenAll(world, events))
    decreases |events|
  {
    hide WorldSound, Happen, Possible;
    if events != [] {
      EventKeepsSound(world, events[0]);
      EveryReachableWorldIsSound(Happen(world, events[0]), events[1..]);
    }
  }

  lemma {:induction false} EventKeepsStatuses(world: World, event: Event)
    requires WorldSound(world) && Possible(world, event) && StatusesConsistent(world.templates)
    ensures StatusesConsistent(Happen(world, event).templates)
  {
    hide WorldSound, StatusConsistent, UpdateTemplate, CreateTemplate, GenerateRecurring, PlanOf, PauseFor;
    match event {
      case WorkerRan(clock, batchSize, gotLock, ids) =>
        RunKeepsStatuses(world, clock, batchSize, gotLock, ids);
      case TemplateCreated(id, user, request) =>
        if user in world.books {
          CreatedRow(world.books[user], id, user, request);
        }
      case TemplateEdited(id, patch) =>
        if id in world.templates && world.templates[id].user in world.books {
          var book := world.books[world.templates[id].user];
          if UpdateTemplate(book, world.templates[id], patch).Ok? {
            EditKeepsStatus(book, world.templates[id], patch);
          }
        }
      case BookChanged(user, book) =>
        if user in world.books {
          forall id | id in world.templates
            ensures StatusConsistent(PauseFor(world.books[user], book, world.templates[id]))
          {
            PauseKeepsStatus(world.books[user], book, world.templates[id]);
          }
        }
    }
  }

  lemma PauseKeepsStatus(before: Ledger.Book, after: Ledger.Book, t: Template)
    requires StatusConsistent(t)
    ensures StatusConsistent(PauseFor(before, after, t))
  {
    hide NewlyArchivedAccount, NewlyArchivedCategory;
  }

  lemma {:induction false} RunKeepsStatuses(
      world: World, clock: nat -> Date, batchSize: int, gotLock: bool, ids: seq<nat>)
    requires WorldSound(world) && StatusesConsistent(world.templates)
    ensures var ran := GenerateRecurring(world, clock, batchSize, gotLock, ids);
            ran.Ok? ==> StatusesConsistent(ran.value.templates)
  {
    hide WorldSound, StatusConsistent, PlanOf, RunAll;
    if gotLock && RunAll(world, ids, clock, BatchOf(batchSize)).Ok? {
      RunAllFollowsPlan(world, ids, clock, BatchOf(batchSize));
      PlanKeepsStatuses(world.templates, ids, clock, BatchOf(batchSize));
    }
  }

  /** In every reachable world a template is paused exactly when a reason is stored, and archived ones are paused. */
  lemma {:induction false} EveryReachableStatusIsConsistent(world: World, events: seq<Event>)
    requires WorldSound(world) && StatusesConsistent(world.templates) && PossibleRun(world, events)
    ensures StatusesConsistent(HappenAll(world, events).templates)
    decreases |events|
  {
    hide WorldSound, StatusesConsistent, Happen, Possible;
    if events != [] {
      EventKeepsSound(world, events[0]);
      EventKeepsStatuses(world, events[0]);
      EveryReachableStatusIsConsistent(Happen(world, events[0]), events[1..]);
    }
  }
}
