/** Exactly-once generation in every reachable world, and the confluence of batching. */
module RecurringLaws {
  import opened Prelude
  import opened Calendar
  import opened Schedule
  import opened Recurring
  import Ledger
  import LedgerLaws
  import Money

  // ----- the invariant

  /** The first k dates of the template's schedule are exactly its claimed dates, and the next date is the k-th. */
  ghost predicate OnSlot(occurrences: map<(nat, Ledger.Day), nat>, id: nat, t: Template, k: nat) {
    && t.count >= 1
    && t.next == Slot(t.start, t.unit, t.count, k)
    && forall day: Ledger.Day :: (id, day) in occurrences <==> IsEarlierSlot(t, k, day)
  }

  ghost predicate HasSlot(occurrences: map<(nat, Ledger.Day), nat>, id: nat, t: Template) {
    exists k: nat :: OnSlot(occurrences, id, t, k)
  }

  ghost predicate IsEarlierSlot(t: Template, k: nat, day: Ledger.Day) {
    exists j: nat :: j < k && day == DayNumber(Slot(t.start, t.unit, t.count, j))
  }

  /** A claimed date has a posting: the one transaction of its user's ledger with the claim's key. */
  ghost predicate ClaimPosted(world: World, claim: (nat, Ledger.Day)) {
    && claim in world.occurrences
    && claim.0 in world.templates
    && var user := world.templates[claim.0].user;
    && user in world.books
    && world.occurrences[claim] < |world.books[user].log|
    && world.books[user].log[world.occurrences[claim]].key == Ledger.Occurrence(claim.0, claim.1)
  }

  ghost predicate WorldSound(world: World) {
    && (forall u :: u in world.books ==> LedgerLaws.Sound(world.books[u]))
    && (forall id :: id in world.templates ==> HasSlot(world.occurrences, id, world.templates[id]))
    && (forall claim :: claim in world.occurrences ==> ClaimPosted(world, claim))
  }

  ghost predicate BooksGrow(before: World, after: World) {
    && before.books.Keys == after.books.Keys
    && forall u :: u in before.books ==> LedgerLaws.Grows(before.books[u], after.books[u])
  }

  // ----- one occurrence

  lemma {:induction false} NextSlotUnclaimed(t: Template, k: nat)
    requires t.count >= 1 && t.next == Slot(t.start, t.unit, t.count, k)
    ensures !IsEarlierSlot(t, k, DayNumber(t.next))
    ensures Step(t).next == Slot(t.start, t.unit, t.count, k + 1)
    ensures forall day: Ledger.Day ::
              IsEarlierSlot(t, k + 1, day) <==> IsEarlierSlot(t, k, day) || day == DayNumber(t.next)
  {
    hide Slot, DayNumber, Next;
    NextOfSlot(t.start, t.unit, t.count, k);
    forall j: nat | j < k
      ensures DayNumber(Slot(t.start, t.unit, t.count, j)) != DayNumber(t.next)
    {
      SlotsIncrease(t.start, t.unit, t.count, j, k);
    }
    forall day: Ledger.Day
      ensures IsEarlierSlot(t, k + 1, day) <==> IsEarlierSlot(t, k, day) || day == DayNumber(t.next)
    {
      if IsEarlierSlot(t, k + 1, day) {
        var j: nat :| j < k + 1 && day == DayNumber(Slot(t.start, t.unit, t.count, j));
        assert j < k ==> IsEarlierSlot(t, k, day);
      }
      if IsEarlierSlot(t, k, day) {
        var j: nat :| j < k && day == DayNumber(Slot(t.start, t.unit, t.count, j));
        assert j < k + 1;
      }
      if day == DayNumber(t.next) {
        assert k < k + 1 && day == DayNumber(Slot(t.start, t.unit, t.count, k));
      }
    }
  }

  /** In a sound world the next date of a template is never claimed already, so nothing is generated twice. */
  lemma {:induction false} NextDateIsUnclaimed(world: World, id: nat)
    requires WorldSound(world) && id in world.templates
    ensures Claim(id, world.templates[id]) !in world.occurrences
    ensures world.templates[id].count >= 1
  {
    hide Slot, DayNumber, LedgerLaws.Sound;
    var t := world.templates[id];
    var k: nat :| OnSlot(world.occurrences, id, t, k);
    NextSlotUnclaimed(t, k);
  }

  /** One occurrence as the books see it: they only grow, stay sound, and hold a posting for the new claim. */
  lemma {:induction false} OccurrenceIsPosted(world: World, id: nat)
    requires forall u :: u in world.books ==> LedgerLaws.Sound(world.books[u])
    requires id in world.templates && world.templates[id].count >= 1
    requires PostOccurrence(world, id).Ok? && Claim(id, world.templates[id]) !in world.occurrences
    ensures var after := PostOccurrence(world, id).value;
            var t := world.templates[id];
            && (forall u :: u in after.books ==> LedgerLaws.Sound(after.books[u]))
            && BooksGrow(world, after)
            && after.templates == world.templates[id := Step(t)]
            && Claim(id, t) in after.occurrences
            && after.occurrences == world.occurrences[Claim(id, t) := after.occurrences[Claim(id, t)]]
            && ClaimPosted(after, Claim(id, t))
  {
    hide LedgerLaws.Sound, DayNumber, Next, Ledger.PostTypedOperation, Ledger.FindKey;
    var t := world.templates[id];
    LedgerLaws.TypedOperationIsSound(world.books[t.user], OperationFor(id, t), None);
  }

  /** Posting one occurrence keeps the world sound, claims exactly the next date, and posts by the date's own key. */
  lemma {:induction false} PostOccurrenceIsSound(world: World, id: nat)
    requires WorldSound(world) && id in world.templates && world.templates[id].count >= 1
    requires PostOccurrence(world, id).Ok?
    ensures var after := PostOccurrence(world, id).value;
            var t := world.templates[id];
            && WorldSound(after) && BooksGrow(world, after)
            && Claim(id, t) !in world.occurrences
            && after.templates == world.templates[id := Step(t)]
            && after.occurrences.Keys == world.occurrences.Keys + {Claim(id, t)}
            && (forall claim :: claim in world.occurrences ==> after.occurrences[claim] == world.occurrences[claim])
  {
    hide LedgerLaws.Sound, HasSlot, ClaimPosted, BooksGrow, PostOccurrence, DayNumber, Step;
    var t := world.templates[id];
    var after := PostOccurrence(world, id).value;
    NextDateIsUnclaimed(world, id);
    OccurrenceIsPosted(world, id);
    StepKeepsOwner(t);
    SlotsAdvance(world, id, after.occurrences);
    ClaimsStayPosted(world, after, id);
  }

  /**
   The claim's posting is new, of the template's type and dated the claimed date, exactly when the date's key was
   unused; with a used key the date is claimed and the books stay as they are. A new posting moves the template's
   amount between the template's accounts and nothing else.
   */
  lemma {:induction false} OccurrencePostsExactlyWhenKeyFresh(world: World, id: nat, account: nat, day: Ledger.Day)
    requires WorldSound(world) && id in world.templates && world.templates[id].count >= 1
    requires PostOccurrence(world, id).Ok?
    ensures var after := PostOccurrence(world, id).value;
            var t := world.templates[id];
            var book, log := world.books[t.user], after.books[t.user].log;
            var op := OperationFor(id, t);
            && Claim(id, t) in after.occurrences && after.occurrences[Claim(id, t)] < |log|
            && (Ledger.HasKey(book, op.key) ==> after.books == world.books)
            && (!Ledger.HasKey(book, op.key) <==>
                  && after.occurrences[Claim(id, t)] == |book.log| == |log| - 1
                  && log[|book.log|].kind == Ledger.KindOf(t.kind) && log[|book.log|].day == DayNumber(t.next)
                  && log[|book.log|].key == Ledger.Occurrence(id, DayNumber(t.next)))
            && (!Ledger.HasKey(book, op.key) ==>
                  && Money.Parse(t.amount).Ok? && Money.Parse(t.amount).value > 0
                  && Ledger.BalanceAt(log, account, day)
                     == Ledger.BalanceAt(book.log, account, day)
                        + LedgerLaws.Flow(LedgerLaws.Giver(book, op), LedgerLaws.Receiver(book, op),
                                          Money.Parse(t.amount).value, DayNumber(t.next), account, day))
  {
    hide LedgerLaws.Sound, HasSlot, ClaimPosted, DayNumber, Step, Ledger.PostTypedOperation, Ledger.FindKey,
      LedgerLaws.Flow, LedgerLaws.Giver, LedgerLaws.Receiver;
    var t := world.templates[id];
    NextDateIsUnclaimed(world, id);
    LedgerLaws.TypedOperationIsSound(world.books[t.user], OperationFor(id, t), None);
    if !Ledger.HasKey(world.books[t.user], OperationFor(id, t).key) {
      LedgerLaws.OperationMovesAmount(world.books[t.user], OperationFor(id, t), None, account, day);
    }
  }

  lemma StepKeepsOwner(t: Template)
    requires t.count >= 1
    ensures Step(t).user == t.user && Step(t).count == t.count
    ensures Step(t).start == t.start && Step(t).unit == t.unit
  {
  }

  /** Claiming the next date and stepping moves one template to its next slot and no other. */
  lemma {:induction false} SlotsAdvance(world: World, id: nat, occurrences: map<(nat, Ledger.Day), nat>)
    requires forall other :: other in world.templates ==> HasSlot(world.occurrences, other, world.templates[other])
    requires id in world.templates && world.templates[id].count >= 1
    requires occurrences.Keys == world.occurrences.Keys + {Claim(id, world.templates[id])}
    ensures forall other :: other in world.templates ==>
              HasSlot(occurrences, other, world.templates[id := Step(world.templates[id])][other])
  {
    hide Slot, DayNumber, Step, IsEarlierSlot;
    var t := world.templates[id];
    forall other | other in world.templates
      ensures HasSlot(occurrences, other, world.templates[id := Step(t)][other])
    {
      var k: nat :| OnSlot(world.occurrences, other, world.templates[other], k);
      if other == id {
        NextSlotUnclaimed(t, k);
        StepKeepsOwner(t);
        SameSlots(t, Step(t), k + 1);
        assert OnSlot(occurrences, id, Step(t), k + 1);
      } else {
        assert OnSlot(occurrences, other, world.templates[other], k);
      }
    }
  }

  lemma SameSlots(t: Template, s: Template, k: nat)
    requires t.start == s.start && t.unit == s.unit && t.count == s.count
    ensures forall day: Ledger.Day :: IsEarlierSlot(s, k, day) <==> IsEarlierSlot(t, k, day)
  {
  }

  lemma {:induction false} ClaimsStayPosted(world: World, after: World, id: nat)
    requires forall claim :: claim in world.occurrences ==> ClaimPosted(world, claim)
    requires BooksGrow(world, after)
    requires id in world.templates && after.templates.Keys == world.templates.Keys
    requires forall other :: other in world.templates ==> after.templates[other].user == world.templates[other].user
    requires Claim(id, world.templates[id]) in after.occurrences && ClaimPosted(after, Claim(id, world.templates[id]))
    requires forall claim :: claim in after.occurrences ==>
               claim == Claim(id, world.templates[id])
               || (claim in world.occurrences && after.occurrences[claim] == world.occurrences[claim])
    ensures forall claim :: claim in after.occurrences ==> ClaimPosted(after, claim)
  {
    hide DayNumber;
    forall claim | claim in after.occurrences
      ensures ClaimPosted(after, claim)
    {
      if claim != Claim(id, world.templates[id]) {
        assert ClaimPosted(world, claim);
        var user := world.templates[claim.0].user;
        assert LedgerLaws.Grows(world.books[user], after.books[user]);
        assert after.books[user].log[world.occurrences[claim]]
          == after.books[user].log[..|world.books[user].log|][world.occurrences[claim]];
      }
    }
  }

  /** Distinct dates of a template are posted by distinct transactions. */
  lemma {:induction false} ClaimsHaveOwnPostings(world: World, a: (nat, Ledger.Day), b: (nat, Ledger.Day))
    requires WorldSound(world) && a in world.occurrences && b in world.occurrences && a != b
    requires world.templates[a.0].user == world.templates[b.0].user
    ensures world.occurrences[a] != world.occurrences[b]
  {
    hide LedgerLaws.Sound, OnSlot;
    assert ClaimPosted(world, a) && ClaimPosted(world, b);
  }

  // ----- one template

  ghost function Claims(id: nat, dates: seq<Date>): set<(nat, Ledger.Day)> {
    set i | 0 <= i < |dates| :: (id, DayNumber(dates[i]))
  }

  lemma {:induction false} ClaimsCons(id: nat, first: Date, rest: seq<Date>)
    ensures Claims(id, [first] + rest) == {(id, DayNumber(first))} + Claims(id, rest)
  {
    hide DayNumber;
    var dates := [first] + rest;
    assert dates[0] == first;
    forall claim | claim in Claims(id, rest)
      ensures claim in Claims(id, dates)
    {
      var i :| 0 <= i < |rest| && claim == (id, DayNumber(rest[i]));
      assert dates[i + 1] == rest[i];
    }
  }

  lemma BooksGrowTransitively(a: World, b: World, c: World)
    requires BooksGrow(a, b) && BooksGrow(b, c)
    ensures BooksGrow(a, c)
  {
    forall u | u in a.books
      ensures LedgerLaws.Grows(a.books[u], c.books[u])
    {
      LedgerLaws.GrowsTransitively(a.books[u], b.books[u], c.books[u]);
    }
  }

  lemma BooksGrowSelf(world: World, templates: map<nat, Template>)
    ensures BooksGrow(world, world.(templates := templates))
  {
  }

  /** Editing rows without touching schedules or owners keeps the world sound. */
  lemma {:induction false} SameSchedulesStaySound(world: World, templates: map<nat, Template>)
    requires WorldSound(world) && templates.Keys == world.templates.Keys
    requires forall id :: id in templates ==> SameSchedule(world.templates[id], templates[id])
    ensures WorldSound(world.(templates := templates))
  {
    hide LedgerLaws.Sound, Slot, DayNumber, IsEarlierSlot;
    var after := world.(templates := templates);
    forall id | id in templates
      ensures HasSlot(world.occurrences, id, templates[id])
    {
      var k: nat :| OnSlot(world.occurrences, id, world.templates[id], k);
      SameSlots(world.templates[id], templates[id], k);
      assert OnSlot(world.occurrences, id, templates[id], k);
    }
    forall claim | claim in world.occurrences
      ensures ClaimPosted(after, claim)
    {
      assert ClaimPosted(world, claim);
      assert SameSchedule(world.templates[claim.0], templates[claim.0]);
    }
  }

  ghost predicate SameSchedule(t: Template, s: Template) {
    t.user == s.user && t.start == s.start && t.unit == s.unit && t.count == s.count && t.next == s.next
  }

  /** What a successful run over one template did, in terms of its row alone. */
  ghost predicate RanTemplate(world: World, id: nat, today: Date, budget: nat, ran: Progress)
    requires id in world.templates && world.templates[id].count >= 1
  {
    var fired := Fire(world.templates[id], today, budget);
    && WorldSound(ran.world) && BooksGrow(world, ran.world)
    && ran.world.templates == world.templates[id := fired.template]
    && ran.world.occurrences.Keys == world.occurrences.Keys + Claims(id, fired.dates)
    && (forall claim :: claim in world.occurrences ==> ran.world.occurrences[claim] == world.occurrences[claim])
    && |fired.dates| + ran.left == budget
  }

  lemma {:induction false} RunTemplateFires(world: World, id: nat, today: Date, budget: nat)
    requires WorldSound(world) && id in world.templates && world.templates[id].count >= 1
    requires RunTemplate(world, id, today, budget).Ok?
    ensures RanTemplate(world, id, today, budget, RunTemplate(world, id, today, budget).value)
    decreases DayNumber(today) - DayNumber(world.templates[id].next) + 1
  {
    hide PostOccurrence, WorldSound, Step, DayNumber, BooksGrow, Claims, Settle;
    var t := world.templates[id];
    if After(t.next, today) || budget == 0 || PastEnd(t) {
      SettleKeepsSchedule(t);
      NoClaims(id);
      SameSchedulesStaySound(world, world.templates[id := Settle(t)]);
      BooksGrowSelf(world, world.templates[id := Settle(t)]);
    } else {
      StepMovesOn(t);
      PostOccurrenceIsSound(world, id);
      var posted := PostOccurrence(world, id).value;
      CountStays(t);
      RunTemplateFires(posted, id, today, budget - 1);
      var ran := RunTemplate(world, id, today, budget).value;
      var fired := Fire(Step(t), today, budget - 1);
      ClaimsCons(id, t.next, fired.dates);
      BooksGrowTransitively(world, posted, ran.world);
    }
  }

  lemma SettleKeepsSchedule(t: Template)
    ensures SameSchedule(t, Settle(t))
  {
    hide DayNumber;
  }

  lemma NoClaims(id: nat)
    ensures Claims(id, []) == {}
  {
  }

  lemma CountStays(t: Template)
    requires t.count >= 1
    ensures Step(t).count == t.count
  {
  }

  /** Everything generated lies on or before the local today and the end date in force. */
  lemma {:induction false} FiredDatesAllowed(t: Template, today: Date, budget: nat)
    requires t.count >= 1
    ensures var fired := Fire(t, today, budget);
            && |fired.dates| <= budget
            && (forall i :: 0 <= i < |fired.dates| ==>
                  !After(fired.dates[i], today) && (t.end.Some? ==> !After(fired.dates[i], t.end.value)))
            && fired.template.user == t.user && fired.template.count == t.count && fired.template.end == t.end
    decreases budget
  {
    hide DayNumber, Next;
    if !(After(t.next, today) || budget == 0 || PastEnd(t)) {
      FiredDatesAllowed(Step(t), today, budget - 1);
    }
  }

  // ----- a whole run

  datatype Plan = Plan(templates: map<nat, Template>, claims: set<(nat, Ledger.Day)>, left: nat)

  ghost predicate Positive(templates: map<nat, Template>) {
    forall id :: id in templates ==> templates[id].count >= 1
  }

  /** A run in terms of template rows alone: which rows change and which dates are claimed. */
  ghost function PlanOf(templates: map<nat, Template>, ids: seq<nat>, clock: nat -> Date, budget: nat): Plan
    decreases |ids|
  {
    if ids == [] || ids[0] !in templates || templates[ids[0]].count < 1 then Plan(templates, {}, budget)
    else
      var t := templates[ids[0]];
      var fired := Fire(t, clock(t.user), budget);
      FiredDatesAllowed(t, clock(t.user), budget);
      var after := templates[ids[0] := fired.template];
      var left := budget - |fired.dates|;
      if left == 0 then Plan(after, Claims(ids[0], fired.dates), 0)
      else
        var rest := PlanOf(after, ids[1..], clock, left);
        Plan(rest.templates, Claims(ids[0], fired.dates) + rest.claims, rest.left)
  }

  lemma {:induction false} WorldCountsPositive(world: World)
    requires WorldSound(world)
    ensures Positive(world.templates)
  {
    hide Slot, DayNumber, LedgerLaws.Sound;
    forall id | id in world.templates
      ensures world.templates[id].count >= 1
    {
      var k: nat :| OnSlot(world.occurrences, id, world.templates[id], k);
    }
  }

  lemma {:induction false} RunAllFollowsPlan(world: World, ids: seq<nat>, clock: nat -> Date, budget: nat)
    requires WorldSound(world) && RunAll(world, ids, clock, budget).Ok?
    ensures var ran := RunAll(world, ids, clock, budget).value;
            var plan := PlanOf(world.templates, ids, clock, budget);
            && WorldSound(ran.world) && BooksGrow(world, ran.world)
            && ran.world.templates == plan.templates
            && ran.world.occurrences.Keys == world.occurrences.Keys + plan.claims
            && (forall claim :: claim in world.occurrences ==> ran.world.occurrences[claim] == world.occurrences[claim])
            && ran.left == plan.left
    decreases |ids|
  {
    hide WorldSound, Fire, RunTemplate, DayNumber;
    if ids == [] {
      BooksGrowSelf(world, world.templates);
    } else {
      var t := world.templates[ids[0]];
      var today := clock(t.user);
      RunTemplateFires(world, ids[0], today, budget);
      FiredDatesAllowed(t, today, budget);
      var ran := RunTemplate(world, ids[0], today, budget).value;
      if ran.left != 0 {
        RunAllFollowsPlan(ran.world, ids[1..], clock, ran.left);
        BooksGrowTransitively(world, ran.world, RunAll(world, ids, clock, budget).value.world);
      }
    }
  }

  /** The claimed date is on or before its owner's local date and within the template's end date. */
  ghost predicate ClaimAllowed(templates: map<nat, Template>, clock: nat -> Date, claim: (nat, Ledger.Day)) {
    && claim.0 in templates
    && claim.1 <= DayNumber(clock(templates[claim.0].user))
    && (templates[claim.0].end.Some? ==> claim.1 <= DayNumber(templates[claim.0].end.value))
  }

  lemma {:induction false} FiredClaimsAllowed(templates: map<nat, Template>, id: nat, clock: nat -> Date, budget: nat)
    requires id in templates && templates[id].count >= 1
    ensures var fired := Fire(templates[id], clock(templates[id].user), budget);
            && |Claims(id, fired.dates)| + (budget - |fired.dates|) <= budget
            && forall claim :: claim in Claims(id, fired.dates) ==> ClaimAllowed(templates, clock, claim)
  {
    hide Fire, DayNumber;
    var today := clock(templates[id].user);
    var fired := Fire(templates[id], today, budget);
    FiredDatesAllowed(templates[id], today, budget);
    ClaimsAtMost(id, fired.dates);
    forall claim | claim in Claims(id, fired.dates)
      ensures ClaimAllowed(templates, clock, claim)
    {
      var i :| 0 <= i < |fired.dates| && claim == (id, DayNumber(fired.dates[i]));
      assert !After(fired.dates[i], today);
    }
  }

  lemma {:induction false} PlannedClaimsAllowed(
      templates: map<nat, Template>, ids: seq<nat>, clock: nat -> Date, budget: nat)
    ensures var plan := PlanOf(templates, ids, clock, budget);
            && |plan.claims| + plan.left <= budget
            && forall claim :: claim in plan.claims ==> ClaimAllowed(templates, clock, claim)
    decreases |ids|
  {
    hide Fire, DayNumber, Claims;
    if ids != [] && ids[0] in templates && templates[ids[0]].count >= 1 {
      var t := templates[ids[0]];
      var fired := Fire(t, clock(t.user), budget);
      var after := templates[ids[0] := fired.template];
      FiredDatesAllowed(t, clock(t.user), budget);
      FiredClaimsAllowed(templates, ids[0], clock, budget);
      var left := budget - |fired.dates|;
      if left != 0 {
        PlannedClaimsAllowed(after, ids[1..], clock, left);
        var rest := PlanOf(after, ids[1..], clock, left);
        UnionSize(Claims(ids[0], fired.dates), rest.claims);
        forall claim | claim in rest.claims
          ensures ClaimAllowed(templates, clock, claim)
        {
          assert ClaimAllowed(after, clock, claim);
        }
      }
    }
  }

  lemma UnionSize<T>(a: set<T>, b: set<T>)
    ensures |a + b| <= |a| + |b|
  {
    assert a + b == a + (b - a);
    SubsetSize(b - a, b);
  }

  lemma {:induction false} ClaimsAtMost(id: nat, dates: seq<Date>)
    ensures |Claims(id, dates)| <= |dates|
    ensures forall claim :: claim in Claims(id, dates) ==>
              exists i :: 0 <= i < |dates| && claim == (id, DayNumber(dates[i]))
  {
    hide DayNumber;
    if dates == [] {
      assert Claims(id, dates) == {};
    } else {
      ClaimsCons(id, dates[0], dates[1..]);
      assert dates == [dates[0]] + dates[1..];
      ClaimsAtMost(id, dates[1..]);
    }
  }

  /** A run claims at most a batch of dates, each on or before the local today and the end date in force. */
  lemma {:induction false} RunClaimsOnlyDueDates(world: World, clock: nat -> Date, batchSize: int, ids: seq<nat>)
    requires WorldSound(world) && GenerateRecurring(world, clock, batchSize, true, ids).Ok?
    ensures var after := GenerateRecurring(world, clock, batchSize, true, ids).value;
            var claimed := after.occurrences.Keys - world.occurrences.Keys;
            && |claimed| <= BatchOf(batchSize)
            && forall claim :: claim in claimed ==> ClaimAllowed(world.templates, clock, claim)
  {
    hide WorldSound, PlanOf, RunAll, DayNumber;
    RunAllFollowsPlan(world, ids, clock, BatchOf(batchSize));
    PlannedClaimsAllowed(world.templates, ids, clock, BatchOf(batchSize));
    var plan := PlanOf(world.templates, ids, clock, BatchOf(batchSize));
    var claimed := GenerateRecurring(world, clock, batchSize, true,
                                     ids).value.occurrences.Keys - world.occurrences.Keys;
    assert claimed <= plan.claims;
    SubsetSize(claimed, plan.claims);
  }

  lemma SubsetSize<T>(a: set<T>, b: set<T>)
    requires a <= b
    ensures |a| <= |b|
  {
    assert b == a + (b - a);
  }

  // ----- the query has an answer

  /** The due rows can always be listed: earliest first, up to the limit. */
  lemma {:induction false} DueListExists(
      templates: map<nat, Template>, clock: nat -> Date, locked: set<nat>, limit: nat)
    ensures exists ids :: IsDueList(ids, templates, clock, locked, limit)
  {
    hide Due, Earlier;
    var due := DueSet(templates, clock, locked);
    if limit == 0 {
      assert IsDueList([], templates, clock, locked, 0);
    } else {
      DueListExists(templates, clock, locked, limit - 1);
      var ids :| IsDueList(ids, templates, clock, locked, limit - 1);
      var rest := set id | id in due && id !in ids;
      assert forall id :: id in due && id !in ids ==> id in rest;
      if rest == {} {
        assert IsDueList(ids, templates, clock, locked, limit);
      } else {
        var first := EarliestExists(templates, rest);
        assert IsDueList(ids + [first], templates, clock, locked, limit);
      }
    }
  }

  lemma {:induction false} EarliestExists(templates: map<nat, Template>, ids: set<nat>) returns (first: nat)
    requires ids != {} && forall id :: id in ids ==> id in templates
    ensures first in ids && forall id :: id in ids && id != first ==> Earlier(templates, first, id)
  {
    hide Earlier;
    var one :| one in ids;
    first := one;
    if ids != {one} {
      var other := EarliestExists(templates, ids - {one});
      EarlierIsTotal(templates, one, other);
      first := if Earlier(templates, one, other) then one else other;
      forall id | id in ids && id != first
        ensures Earlier(templates, first, id)
      {
        if id != one && id != other {
          assert id in ids - {one};
          if first == one {
            EarlierIsTransitive(templates, one, other, id);
          }
        }
      }
    }
  }

  lemma EarlierIsTotal(templates: map<nat, Template>, a: nat, b: nat)
    requires a in templates && b in templates && a != b
    ensures Earlier(templates, a, b) || Earlier(templates, b, a)
  {
    hide DayNumber;
  }

  lemma EarlierIsTransitive(templates: map<nat, Template>, a: nat, b: nat, c: nat)
    requires a in templates && b in templates && c in templates
    requires Earlier(templates, a, b) && Earlier(templates, b, c)
    ensures Earlier(templates, a, c)
  {
    hide DayNumber;
  }

  // ----- schedules as stored

  /**
   A schedule is refused exactly for a bad custom interval or an end before the start, and what is stored passes the
   table's checks.
   */
  lemma {:induction false} NormalizedSchedules(
      frequency: Frequency, unit: Option<IntervalUnit>, count: Option<int>, start: Date, end: Option<Date>)
    ensures var schedule := NormalizeSchedule(frequency, unit, count, start, end);
            && (schedule.Err? <==>
                  || (frequency == Custom && !(unit.Some? && count.Some? && 1 <= count.value <= 365))
                  || (end.Some? && LexicographicallyBefore(end.value, start)))
            && (schedule.Ok? ==>
                  && 1 <= schedule.value.count <= 365
                  && (end.Some? ==> !LexicographicallyBefore(end.value, schedule.value.start))
                  && schedule.value.start == start && schedule.value.end == end
                  && (frequency == Weekly ==> schedule.value.unit == Weeks && schedule.value.count == 1)
                  && (frequency == Monthly ==> schedule.value.unit == Months && schedule.value.count == 1)
                  && (frequency == Quarterly ==> schedule.value.unit == Months && schedule.value.count == 3)
                  && (frequency == Yearly ==> schedule.value.unit == Years && schedule.value.count == 1)
                  && (frequency == Custom ==> Some(schedule.value.unit) == unit && Some(schedule.value.count) == count))
  {
    hide DayNumber;
    if end.Some? {
      OrderIsLexicographic(end.value, start);
    }
  }

  /** A template's accounts and category pass their check exactly when its operation could use them. */
  lemma DependenciesExactlyWhenUsable(book: Ledger.Book, id: nat, t: Template)
    ensures Dependencies(book, t).Ok? <==> t.kind != Ledger.OpenAccount && LedgerLaws.Usable(book, OperationFor(id, t))
  {
    hide DayNumber;
  }

  /**
   An edit resumes a template exactly when it is not archived, a new end date is neither before the start nor
   already past, a new amount is positive, and its accounts and category are usable in the user's book; it then
   owes its next date within a new end and posts the new amount from now on.
   */
  lemma {:induction false} ResumeExactlyWhen(book: Ledger.Book, id: nat, t: Template, patch: Patch)
    requires patch.active == Some(true)
    ensures var edited := UpdateTemplate(book, t, patch);
            && (edited.Ok? <==>
                  && patch.archived != Some(true) && (t.archived ==> patch.archived == Some(false))
                  && (patch.end.Some? ==>
                        !LexicographicallyBefore(patch.end.value, t.start)
                          && !LexicographicallyBefore(patch.end.value, t.next))
                  && (patch.amount.Some? ==>
                        Money.Parse(patch.amount.value).Ok? && Money.Parse(patch.amount.value).value > 0)
                  && t.kind != Ledger.OpenAccount && LedgerLaws.Usable(book, OperationFor(id, t)))
            && (edited.Ok? ==>
                  && edited.value.active && !edited.value.archived && edited.value.reason.None?
                  && (patch.end.Some? ==> edited.value.end == patch.end && !PastEnd(edited.value))
                  && (patch.amount.Some? ==> Money.Parse(edited.value.amount) == Money.Parse(patch.amount.value)))
  {
    hide DayNumber, Money.Parse, Money.String, Dependencies, LedgerLaws.Usable;
    DependenciesExactlyWhenUsable(book, id, t);
    if patch.end.Some? {
      OrderIsLexicographic(patch.end.value, t.start);
      OrderIsLexicographic(patch.end.value, t.next);
    }
    if patch.amount.Some? && Money.Parse(patch.amount.value).Ok? {
      Money.ParseInRange(patch.amount.value);
      Money.ParseOfString(Money.Parse(patch.amount.value).value);
    }
  }

  // ----- counting what a run generated

  lemma {:induction false} ClaimsDistinct(world: World, id: nat, today: Date, budget: nat)
    requires WorldSound(world) && id in world.templates && world.templates[id].count >= 1
    requires RunTemplate(world, id, today, budget).Ok?
    ensures var ran := RunTemplate(world, id, today, budget).value;
            && WorldSound(ran.world)
            && world.occurrences.Keys <= ran.world.occurrences.Keys
            && |ran.world.occurrences.Keys| + ran.left == |world.occurrences.Keys| + budget
    decreases DayNumber(today) - DayNumber(world.templates[id].next) + 1
  {
    hide PostOccurrence, WorldSound, Step, DayNumber;
    var t := world.templates[id];
    if After(t.next, today) || budget == 0 || PastEnd(t) {
      SettleKeepsSchedule(t);
      SameSchedulesStaySound(world, world.templates[id := Settle(t)]);
    } else {
      StepMovesOn(t);
      PostOccurrenceIsSound(world, id);
      CountStays(t);
      ClaimsDistinct(PostOccurrence(world, id).value, id, today, budget - 1);
    }
  }

  /** What a run spends of its batch is the number of new claims. */
  lemma {:induction false} RunAllCounts(world: World, ids: seq<nat>, clock: nat -> Date, budget: nat)
    requires WorldSound(world) && RunAll(world, ids, clock, budget).Ok?
    ensures var ran := RunAll(world, ids, clock, budget).value;
            && WorldSound(ran.world) && ran.left <= budget
            && world.occurrences.Keys <= ran.world.occurrences.Keys
            && |ran.world.occurrences.Keys - world.occurrences.Keys| == budget - ran.left
    decreases |ids|
  {
    hide WorldSound, RunTemplate, DayNumber;
    if ids != [] {
      var t := world.templates[ids[0]];
      ClaimsDistinct(world, ids[0], clock(t.user), budget);
      var ran := RunTemplate(world, ids[0], clock(t.user), budget).value;
      DifferenceSize(world.occurrences.Keys, ran.world.occurrences.Keys);
      if ran.left != 0 {
        RunAllCounts(ran.world, ids[1..], clock, ran.left);
        var final := RunAll(world, ids, clock, budget).value.world.occurrences.Keys;
        DifferenceSize(ran.world.occurrences.Keys, final);
        DifferenceSize(world.occurrences.Keys, final);
      }
    } else {
      assert world.occurrences.Keys - world.occurrences.Keys == {};
    }
  }

  lemma DifferenceSize<T>(a: set<T>, b: set<T>)
    requires a <= b
    ensures |b - a| == |b| - |a|
  {
    assert b == a + (b - a);
  }
}
