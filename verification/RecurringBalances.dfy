/**
 What the worker does to balances: a run moves every template's amount once for each date it claims, so however the
 runs are cut into batches the balances end the same.
 */
module RecurringBalances {
  import opened Calendar
  import opened Recurring
  import opened RecurringLaws
  import opened RecurringRuns
  import opened RecurringExact
  import opened RecurringDependencies
  import opened RecurringSuccess
  import opened Sums
  import Ledger
  import LedgerLaws
  import Money

  /** Which balance to look at: a user's account on a day. */
  datatype Place = Place(user: nat, account: nat, day: Ledger.Day)

  function BalanceIn(world: World, place: Place): int {
    if place.user in world.books then Ledger.BalanceAt(world.books[place.user].log, place.account, place.day) else 0
  }

  /** What a template's posting on a day moves at a place: its amount, from its giver to its receiver. */
  ghost function FlowOf(books: map<nat, Ledger.Book>, id: nat, t: Template, on: Ledger.Day, place: Place): int {
    if t.user != place.user || t.user !in books || Money.Parse(t.amount).Err? then 0
    else
      var book, op := books[t.user], OperationFor(id, t);
      LedgerLaws.Flow(LedgerLaws.Giver(book, op), LedgerLaws.Receiver(book, op), Money.Parse(t.amount).value, on,
                      place.account, place.day)
  }

  ghost function ClaimFlow(world: World, place: Place): ((nat, Ledger.Day)) -> int {
    (claim: (nat, Ledger.Day)) =>
      if claim.0 in world.templates then FlowOf(world.books, claim.0, world.templates[claim.0], claim.1, place) else 0
  }

  ghost function NewClaims(before: World, after: World): set<(nat, Ledger.Day)> {
    after.occurrences.Keys - before.occurrences.Keys
  }

  /** The balance moved by the flows of the dates claimed in between. */
  ghost predicate Moved(before: World, after: World, place: Place) {
    && before.occurrences.Keys <= after.occurrences.Keys
    && BooksGrow(before, after) && AllKin(before.templates, after.templates)
    && BalanceIn(after, place) == BalanceIn(before, place) + SumOver(NewClaims(before, after), ClaimFlow(before, place))
  }

  lemma {:induction false} KinFlows(before: World, after: World, place: Place, claim: (nat, Ledger.Day))
    requires BooksGrow(before, after) && AllKin(before.templates, after.templates)
    ensures ClaimFlow(after, place)(claim) == ClaimFlow(before, place)(claim)
  {
    hide Money.Parse, DayNumber, LedgerLaws.Flow;
    if claim.0 in before.templates && before.templates[claim.0].user in before.books {
      assert Kin(before.templates[claim.0], after.templates[claim.0]);
      assert LedgerLaws.Grows(before.books[before.templates[claim.0].user],
                              after.books[before.templates[claim.0].user]);
    }
  }

  lemma KinTransitively(a: map<nat, Template>, b: map<nat, Template>, c: map<nat, Template>)
    requires AllKin(a, b) && AllKin(b, c)
    ensures AllKin(a, c)
  {
  }

  lemma {:induction false} MovedTransitively(a: World, b: World, c: World, place: Place)
    requires Moved(a, b, place) && Moved(b, c, place)
    ensures Moved(a, c, place)
  {
    hide BooksGrow, AllKin, BalanceIn, ClaimFlow;
    BooksGrowTransitively(a, b, c);
    KinTransitively(a.templates, b.templates, c.templates);
    forall claim | claim in NewClaims(b, c)
      ensures ClaimFlow(b, place)(claim) == ClaimFlow(a, place)(claim)
    {
      KinFlows(a, b, place, claim);
    }
    SumSame(NewClaims(b, c), ClaimFlow(b, place), ClaimFlow(a, place));
    SumOfUnion(NewClaims(a, b), NewClaims(b, c), ClaimFlow(a, place));
    assert NewClaims(a, c) == NewClaims(a, b) + NewClaims(b, c);
  }

  /** Changing rows alone moves nothing. */
  lemma {:induction false} RowsMoveNothing(world: World, templates: map<nat, Template>, place: Place)
    requires AllKin(world.templates, templates)
    ensures Moved(world, world.(templates := templates), place)
  {
    hide AllKin, ClaimFlow, Ledger.BalanceAt;
    BooksGrowSelf(world, templates);
    assert NewClaims(world, world.(templates := templates)) == {};
  }

  lemma OneKin(templates: map<nat, Template>, id: nat, t: Template)
    requires id in templates && Kin(templates[id], t)
    ensures AllKin(templates, templates[id := t])
  {
    hide Kin;
    forall other | other in templates
      ensures Kin(templates[other], templates[other])
    {
      KinSelf(templates[other]);
    }
  }

  /** One occurrence moves its template's amount on its date. */
  lemma {:induction false} OccurrenceMoves(world: World, id: nat, place: Place)
    requires WorldExact(world) && id in world.templates && world.templates[id].count >= 1
    requires PostOccurrence(world, id).Ok?
    ensures Moved(world, PostOccurrence(world, id).value, place)
  {
    hide WorldExact, WorldSound, PostOccurrence, Step, DayNumber, Kin, AllKin, BooksGrow, LedgerLaws.Flow,
      LedgerLaws.Giver, LedgerLaws.Receiver, Ledger.BalanceAt, Ledger.HasKey, Money.Parse;
    var t := world.templates[id];
    var after := PostOccurrence(world, id).value;
    PostedOnce(world, id);
    OnlyClaimIsNew(world, id);
    KinOfStep(t);
    OneKin(world.templates, id, Step(t));
    SumOfOne({Claim(id, t)}, Claim(id, t), ClaimFlow(world, place));
    if place.user == t.user {
      ExactParts(world);
      NextKeyIsFresh(world, id);
      OccurrencePostsExactlyWhenKeyFresh(world, id, place.account, place.day);
    }
  }

  lemma {:induction false} OnlyClaimIsNew(world: World, id: nat)
    requires WorldExact(world) && id in world.templates && world.templates[id].count >= 1
    requires PostOccurrence(world, id).Ok?
    ensures var t := world.templates[id];
            var after := PostOccurrence(world, id).value;
            && t.user in world.books && after.books == world.books[t.user := after.books[t.user]]
            && world.occurrences.Keys <= after.occurrences.Keys && NewClaims(world, after) == {Claim(id, t)}
  {
    hide WorldExact, PostOccurrence, DayNumber, IsPostingOf;
    PostedOccurrence(world, id);
    NextIsUnclaimed(world, id);
  }

  lemma {:induction false} RunTemplateMoves(world: World, id: nat, today: Date, budget: nat, place: Place)
    requires WorldExact(world) && id in world.templates && world.templates[id].count >= 1
    requires RunTemplate(world, id, today, budget).Ok?
    ensures Moved(world, RunTemplate(world, id, today, budget).value.world, place)
    decreases DayNumber(today) - DayNumber(world.templates[id].next) + 1
  {
    hide WorldExact, PostOccurrence, Step, DayNumber, Settle, Moved, BooksGrow;
    var t := world.templates[id];
    if After(t.next, today) || budget == 0 || PastEnd(t) {
      KinOfSettle(t);
      OneKin(world.templates, id, Settle(t));
      RowsMoveNothing(world, world.templates[id := Settle(t)], place);
    } else {
      StepMovesOn(t);
      PostedOnce(world, id);
      OccurrenceMoves(world, id, place);
      NextIsUnclaimed(world, id);
      CountStays(t);
      var posted := PostOccurrence(world, id).value;
      RunTemplateMoves(posted, id, today, budget - 1, place);
      MovedTransitively(world, posted, RunTemplate(world, id, today, budget).value.world, place);
    }
  }

  lemma {:induction false} RunAllMoves(world: World, ids: seq<nat>, clock: nat -> Date, budget: nat, place: Place)
    requires WorldExact(world) && RunAll(world, ids, clock, budget).Ok?
    ensures Moved(world, RunAll(world, ids, clock, budget).value.world, place)
    decreases |ids|
  {
    hide WorldExact, RunTemplate, Moved;
    if ids == [] {
      NothingMoves(world, place);
    } else {
      var today := clock(world.templates[ids[0]].user);
      RunTemplateMoves(world, ids[0], today, budget, place);
      RunTemplateIsExact(world, ids[0], today, budget);
      var ran := RunTemplate(world, ids[0], today, budget).value;
      if ran.left != 0 {
        RunAllMoves(ran.world, ids[1..], clock, ran.left, place);
        MovedTransitively(world, ran.world, RunAll(world, ids, clock, budget).value.world, place);
      }
    }
  }

  lemma NothingMoves(world: World, place: Place)
    ensures Moved(world, world, place)
  {
    hide Kin, ClaimFlow, Ledger.BalanceAt;
    forall id | id in world.templates
      ensures Kin(world.templates[id], world.templates[id])
    {
      KinSelf(world.templates[id]);
    }
    RowsMoveNothing(world, world.templates, place);
    assert world.(templates := world.templates) == world;
  }

  /** A sequence of runs moves each balance by the flows of the dates they claim. */
  lemma {:induction false} RunsMove(world: World, clock: nat -> Date, runs: seq<Run>, place: Place)
    requires WorldExact(world) && Repeat(world, clock, runs).Ok?
    ensures Moved(world, Repeat(world, clock, runs).value, place)
    decreases |runs|
  {
    hide WorldExact, RunAll, Moved;
    if runs == [] {
      NothingMoves(world, place);
    } else {
      var next := GenerateRecurring(world, clock, runs[0].batchSize, true, runs[0].ids).value;
      RunAllMoves(world, runs[0].ids, clock, BatchOf(runs[0].batchSize), place);
      RunAllIsExact(world, runs[0].ids, clock, BatchOf(runs[0].batchSize));
      RunsMove(next, clock, runs[1..], place);
      MovedTransitively(world, next, Repeat(world, clock, runs).value, place);
    }
  }

  /**
   Batching is confluent down to the money: two sequences of runs that both leave nothing due end with the same rows
   and claims, and with the same balance of every account on every day: the flows of exactly the pending dates.
   */
  lemma {:induction false} BalancesAreConfluent(
      world: World, clock: nat -> Date, runs: seq<Run>, others: seq<Run>, place: Place)
    requires WorldExact(world) && RunsOnDueLists(world, clock, runs) && RunsOnDueLists(world, clock, others)
    requires Repeat(world, clock, runs).Ok? && Quiet(Repeat(world, clock, runs).value.templates, clock)
    requires Repeat(world, clock, others).Ok? && Quiet(Repeat(world, clock, others).value.templates, clock)
    ensures Positive(world.templates)
    ensures var final, other := Repeat(world, clock, runs).value, Repeat(world, clock, others).value;
            && final.templates == other.templates && final.occurrences.Keys == other.occurrences.Keys
            && BalanceIn(final, place) == BalanceIn(other, place)
            && BalanceIn(final, place)
               == BalanceIn(world, place)
                  + SumOver(PendingSet(world.templates, clock), ClaimFlow(world, place))
  {
    hide WorldExact, RunsOnDueLists, Repeat, Quiet, PendingSet, Drained, ClaimFlow, BalanceIn, BooksGrow, AllKin,
      WorldSound;
    ExactParts(world);
    BatchingIsConfluent(world, clock, runs);
    BatchingIsConfluent(world, clock, others);
    RunsMove(world, clock, runs, place);
    RunsMove(world, clock, others, place);
    var final, other := Repeat(world, clock, runs).value, Repeat(world, clock, others).value;
    var pending := PendingSet(world.templates, clock);
    PendingIsUnclaimed(world, clock);
    assert NewClaims(world, final) == pending && NewClaims(world, other) == pending;
    assert final.templates == other.templates;
  }
}
