/**
 Exactly once, down to the posting: in every run whose other requests leave the worker's own keys alone, each
 claimed date has one transaction of its own, dated that date and of the template's type and accounts, and no
 transaction carries a worker's key without being such a posting.
 */
module RecurringExact {
  import opened Prelude
  import opened Calendar
  import opened Recurring
  import opened RecurringLaws
  import opened RecurringRuns
  import Ledger
  import Accounts
  import LedgerLaws

  /**
   The entries of a template's postings: its own account or its source first, the category on the other one, and
   opposite amounts that leave the first account unless the template is an income.
   */
  ghost predicate EntriesOf(t: Template, entries: seq<Ledger.Entry>) {
    var between := t.kind.Move? || t.kind.Buy?;
    && |entries| == 2
    && Some(entries[0].account) == (if between then t.source else t.account)
    && (between ==> Some(entries[1].account) == t.destination)
    && entries[0].category == None && entries[1].category == (if between then None else t.category)
    && entries[0].amount == -entries[1].amount
    && (if t.kind.Earn? then entries[0].amount > 0 else entries[0].amount < 0)
  }

  ghost predicate IsPostingOf(t: Template, day: Ledger.Day, posting: Ledger.Transaction) {
    && posting.day == day && posting.kind == Ledger.KindOf(t.kind)
    && posting.reversalOf.None? && posting.replacementOf.None?
    && EntriesOf(t, posting.entries)
  }

  ghost predicate ClaimExact(world: World, claim: (nat, Ledger.Day))
    requires ClaimPosted(world, claim)
  {
    var t := world.templates[claim.0];
    IsPostingOf(t, claim.1, world.books[t.user].log[world.occurrences[claim]])
  }

  /** A transaction with a worker's key is the posting of the claim the key names. */
  ghost predicate KeyClaimed(world: World, user: nat, i: nat)
    requires user in world.books && i < |world.books[user].log|
  {
    var key := world.books[user].log[i].key;
    key.Occurrence? ==>
      && (key.template, key.day) in world.occurrences
      && key.template in world.templates && world.templates[key.template].user == user
      && world.occurrences[(key.template, key.day)] == i
  }

  ghost predicate ClaimsExact(world: World)
    requires forall claim :: claim in world.occurrences ==> ClaimPosted(world, claim)
  {
    forall claim :: claim in world.occurrences ==> ClaimExact(world, claim)
  }

  ghost predicate KeysClaimed(world: World) {
    forall user, i: nat :: user in world.books && i < |world.books[user].log| ==> KeyClaimed(world, user, i)
  }

  /** Opening balances are not posted by templates. */
  ghost predicate KindsAllowed(templates: map<nat, Template>) {
    forall id :: id in templates ==> templates[id].kind != Ledger.OpenAccount
  }

  ghost predicate WorldExact(world: World) {
    WorldSound(world) && ClaimsExact(world) && KeysClaimed(world) && KindsAllowed(world.templates)
  }

  /** Books without worker's keys and no templates: where every history starts. */
  lemma EmptyWorldIsExact(books: map<nat, Ledger.Book>)
    requires forall u :: u in books ==> LedgerLaws.Sound(books[u])
    requires forall u, i :: u in books && 0 <= i < |books[u].log| ==> !books[u].log[i].key.Occurrence?
    ensures WorldExact(World(books, map[], map[]))
  {
    hide LedgerLaws.Sound;
  }

  // ----- one occurrence

  /** In an exact world the key of a template's next date is unused, so the worker's posting is always new. */
  lemma {:induction false} NextKeyIsFresh(world: World, id: nat)
    requires WorldExact(world) && id in world.templates && world.templates[id].user in world.books
    ensures !Ledger.HasKey(world.books[world.templates[id].user],
                           Ledger.Occurrence(id, DayNumber(world.templates[id].next)))
  {
    hide WorldSound, ClaimsExact, KeysClaimed, Ledger.HasKey, DayNumber;
    var t := world.templates[id];
    NextDateIsUnclaimed(world, id);
    if Ledger.HasKey(world.books[t.user], Ledger.Occurrence(id, DayNumber(t.next))) {
      UsedKeyIsClaimed(world, t.user, id, DayNumber(t.next));
    }
  }

  lemma UsedKeyIsClaimed(world: World, user: nat, id: nat, day: Ledger.Day)
    requires KeysClaimed(world) && user in world.books && Ledger.HasKey(world.books[user], Ledger.Occurrence(id, day))
    ensures (id, day) in world.occurrences
  {
    var found := Ledger.FindKey(world.books[user].log, Ledger.Occurrence(id, day));
    assert KeyClaimed(world, user, found.value);
  }

  /** What one posting appends. */
  lemma {:induction false} PostedOccurrence(world: World, id: nat)
    requires WorldExact(world) && id in world.templates && world.templates[id].count >= 1
    requires PostOccurrence(world, id).Ok?
    ensures var after := PostOccurrence(world, id).value;
            var t := world.templates[id];
            var log := after.books[t.user].log;
            && t.user in world.books
            && after.books == world.books[t.user := after.books[t.user]]
            && after.occurrences == world.occurrences[Claim(id, t) := |world.books[t.user].log|]
            && |log| == |world.books[t.user].log| + 1 && log[..|log| - 1] == world.books[t.user].log
            && log[|log| - 1].key == Ledger.Occurrence(id, DayNumber(t.next))
            && IsPostingOf(t, DayNumber(t.next), log[|log| - 1])
  {
    hide WorldSound, ClaimsExact, KeysClaimed, DayNumber, Step, Ledger.FindKey, LedgerLaws.Sound,
      Ledger.PostTypedOperation;
    var t := world.templates[id];
    var book, op := world.books[t.user], OperationFor(id, t);
    NextKeyIsFresh(world, id);
    NextDateIsUnclaimed(world, id);
    SoundBook(world, t.user);
    LedgerLaws.TypedOperationIsSound(book, op, None);
    LedgerLaws.PostedEntries(book, op, None);
  }

  lemma SoundBook(world: World, user: nat)
    requires WorldSound(world) && user in world.books
    ensures LedgerLaws.Sound(world.books[user])
  {
  }

  lemma {:induction false} PostOccurrenceIsExact(world: World, id: nat)
    requires WorldExact(world) && id in world.templates && world.templates[id].count >= 1
    requires PostOccurrence(world, id).Ok?
    ensures WorldExact(PostOccurrence(world, id).value)
  {
    hide WorldSound, PostOccurrence, DayNumber, Step, IsPostingOf, ClaimPosted;
    var t := world.templates[id];
    var after := PostOccurrence(world, id).value;
    PostOccurrenceIsSound(world, id);
    PostedOccurrence(world, id);
    StepKeepsPosting(t);
    SoundClaims(world);
    SoundClaims(after);
    forall claim | claim in after.occurrences
      ensures ClaimExact(after, claim)
    {
      if claim == Claim(id, t) {
        SamePostingOf(t, Step(t), claim.1, after.books[t.user].log[after.occurrences[claim]]);
      } else {
        assert ClaimExact(world, claim);
        ClaimExactLater(world, after, claim);
      }
    }
    forall user, i: nat | user in after.books && i < |after.books[user].log|
      ensures KeyClaimed(after, user, i)
    {
      if user != t.user || i < |world.books[user].log| {
        assert KeyClaimed(world, user, i);
        assert user == t.user ==> after.books[user].log[i] == after.books[user].log[..|world.books[user].log|][i];
        FreshClaimElsewhere(world, id, user, i);
      }
    }
  }

  lemma {:induction false} FreshClaimElsewhere(world: World, id: nat, user: nat, i: nat)
    requires WorldSound(world) && id in world.templates
    requires user in world.books && i < |world.books[user].log| && KeyClaimed(world, user, i)
    ensures var key := world.books[user].log[i].key;
            key.Occurrence? ==> (key.template, key.day) != Claim(id, world.templates[id])
  {
    hide WorldSound, DayNumber;
    NextDateIsUnclaimed(world, id);
  }

  lemma SoundClaims(world: World)
    requires WorldSound(world)
    ensures forall claim :: claim in world.occurrences ==> ClaimPosted(world, claim)
  {
    hide ClaimPosted;
  }

  ghost predicate SamePosting(t: Template, s: Template) {
    && t.user == s.user && t.kind == s.kind
    && t.account == s.account && t.category == s.category && t.source == s.source && t.destination == s.destination
  }

  lemma StepKeepsPosting(t: Template)
    requires t.count >= 1
    ensures SamePosting(t, Step(t))
  {
  }

  lemma SamePostingOf(t: Template, s: Template, day: Ledger.Day, posting: Ledger.Transaction)
    requires SamePosting(t, s)
    ensures IsPostingOf(t, day, posting) <==> IsPostingOf(s, day, posting)
  {
  }

  /** A claim stays exact while its book grows and its template keeps what it posts. */
  lemma {:induction false} ClaimExactLater(world: World, after: World, claim: (nat, Ledger.Day))
    requires ClaimPosted(world, claim) && ClaimPosted(after, claim) && ClaimExact(world, claim)
    requires after.occurrences[claim] == world.occurrences[claim]
    requires SamePosting(world.templates[claim.0], after.templates[claim.0])
    requires var user := world.templates[claim.0].user; world.books[user].log <= after.books[user].log
    ensures ClaimExact(after, claim)
  {
    hide IsPostingOf;
    var t := world.templates[claim.0];
    SamePostingOf(t, after.templates[claim.0], claim.1, world.books[t.user].log[world.occurrences[claim]]);
    assert after.books[t.user].log[world.occurrences[claim]] == world.books[t.user].log[world.occurrences[claim]];
  }

  // ----- rows and other people's postings

  lemma {:induction false} RowsKeepExact(world: World, templates: map<nat, Template>)
    requires WorldExact(world) && templates.Keys == world.templates.Keys
    requires WorldSound(world.(templates := templates))
    requires forall id :: id in templates ==> SamePosting(world.templates[id], templates[id])
    ensures WorldExact(world.(templates := templates))
  {
    hide WorldSound, ClaimPosted, IsPostingOf;
    var after := world.(templates := templates);
    SoundClaims(world);
    SoundClaims(after);
    forall claim | claim in after.occurrences
      ensures ClaimExact(after, claim)
    {
      ClaimHasTemplate(world, claim);
      assert ClaimExact(world, claim);
      ClaimExactLater(world, after, claim);
    }
    forall user, i: nat | user in after.books && i < |after.books[user].log|
      ensures KeyClaimed(after, user, i)
    {
      assert KeyClaimed(world, user, i);
    }
  }

  lemma ClaimHasTemplate(world: World, claim: (nat, Ledger.Day))
    requires ClaimPosted(world, claim)
    ensures claim.0 in world.templates && world.templates[claim.0].user in world.books
  {
  }

  lemma {:induction false} CreationKeepsExact(world: World, id: nat, template: Template)
    requires WorldExact(world) && id !in world.templates && template.kind != Ledger.OpenAccount
    requires WorldSound(world.(templates := world.templates[id := template]))
    ensures WorldExact(world.(templates := world.templates[id := template]))
  {
    hide WorldSound, ClaimPosted, IsPostingOf;
    var after := world.(templates := world.templates[id := template]);
    SoundClaims(world);
    SoundClaims(after);
    forall claim | claim in after.occurrences
      ensures ClaimExact(after, claim)
    {
      ClaimHasTemplate(world, claim);
      assert ClaimExact(world, claim);
      ClaimExactLater(world, after, claim);
    }
    forall user, i: nat | user in after.books && i < |after.books[user].log|
      ensures KeyClaimed(after, user, i)
    {
      assert KeyClaimed(world, user, i);
    }
  }

  ghost predicate LeavesKeysAlone(world: World, event: Event) {
    match event
    case BookChanged(user, book) =>
      var posted := if user in world.books then |world.books[user].log| else 0;
      forall i :: posted <= i < |book.log| ==> !book.log[i].key.Occurrence?
    case _ => true
  }

  lemma {:induction false} OtherBooksKeepExact(world: World, user: nat, book: Ledger.Book)
    requires WorldExact(world) && WorldSound(world.(books := world.books[user := book]))
    requires user in world.books ==> world.books[user].log <= book.log
    requires LeavesKeysAlone(world, BookChanged(user, book))
    ensures WorldExact(world.(books := world.books[user := book]))
  {
    hide WorldSound, ClaimPosted, IsPostingOf;
    var after := world.(books := world.books[user := book]);
    SoundClaims(world);
    SoundClaims(after);
    forall claim | claim in after.occurrences
      ensures ClaimExact(after, claim)
    {
      ClaimHasTemplate(world, claim);
      assert ClaimExact(world, claim);
      ClaimExactLater(world, after, claim);
    }
    forall other, i: nat | other in after.books && i < |after.books[other].log|
      ensures KeyClaimed(after, other, i)
    {
      if other != user || (user in world.books && i < |world.books[user].log|) {
        assert KeyClaimed(world, other, i);
        assert after.books[other].log[i] == world.books[other].log[i];
      }
    }
  }

  // ----- runs of the worker

  lemma {:induction false} RunTemplateIsExact(world: World, id: nat, today: Date, budget: nat)
    requires WorldExact(world) && id in world.templates && world.templates[id].count >= 1
    requires RunTemplate(world, id, today, budget).Ok?
    ensures WorldExact(RunTemplate(world, id, today, budget).value.world)
    decreases DayNumber(today) - DayNumber(world.templates[id].next) + 1
  {
    hide PostOccurrence, ClaimsExact, KeysClaimed, WorldSound, Step, DayNumber, Settle;
    var t := world.templates[id];
    if After(t.next, today) || budget == 0 || PastEnd(t) {
      SettleKeepsSchedule(t);
      SettleKeepsPosting(t);
      SameSchedulesStaySound(world, world.templates[id := Settle(t)]);
      RowsKeepExact(world, world.templates[id := Settle(t)]);
    } else {
      StepMovesOn(t);
      PostOccurrenceIsSound(world, id);
      PostOccurrenceIsExact(world, id);
      CountStays(t);
      RunTemplateIsExact(PostOccurrence(world, id).value, id, today, budget - 1);
    }
  }

  lemma SettleKeepsPosting(t: Template)
    ensures SamePosting(t, Settle(t))
  {
    hide DayNumber;
  }

  lemma {:induction false} RunAllIsExact(world: World, ids: seq<nat>, clock: nat -> Date, budget: nat)
    requires WorldExact(world) && RunAll(world, ids, clock, budget).Ok?
    ensures WorldExact(RunAll(world, ids, clock, budget).value.world)
    decreases |ids|
  {
    hide WorldExact, RunTemplate, DayNumber;
    if ids != [] {
      var t := world.templates[ids[0]];
      RunTemplateIsExact(world, ids[0], clock(t.user), budget);
      var ran := RunTemplate(world, ids[0], clock(t.user), budget).value;
      if ran.left != 0 {
        RunAllIsExact(ran.world, ids[1..], clock, ran.left);
      }
    }
  }

  // ----- every reachable world

  lemma EditKeepsPosting(book: Ledger.Book, t: Template, patch: Patch)
    ensures var edited := UpdateTemplate(book, t, patch); edited.Ok? ==> SamePosting(t, edited.value)
  {
    hide DayNumber, Dependencies;
  }

  lemma PauseKeepsPosting(before: Ledger.Book, after: Ledger.Book, t: Template)
    ensures SamePosting(t, PauseFor(before, after, t))
  {
    hide NewlyArchivedAccount, NewlyArchivedCategory;
  }

  lemma {:induction false} EventKeepsExact(world: World, event: Event)
    requires WorldExact(world) && Possible(world, event) && LeavesKeysAlone(world, event)
    ensures WorldExact(Happen(world, event))
  {
    hide WorldSound, ClaimsExact, KeysClaimed, KindsAllowed, SamePosting, UpdateTemplate, CreateTemplate, RunAll,
      Triggered, LedgerLaws.Sound, Accounts.Extends;
    EventKeepsSound(world, event);
    match event {
      case WorkerRan(clock, batchSize, gotLock, ids) =>
        if GenerateRecurring(world, clock, batchSize, gotLock, ids).Ok? && gotLock {
          RunAllIsExact(world, ids, clock, BatchOf(batchSize));
        }
      case TemplateCreated(id, user, request) =>
        if id !in world.templates && user in world.books {
          CreatedRow(world.books[user], id, user, request);
          var created := CreateTemplate(world.books[user], user, request);
          if created.Ok? {
            CreationKeepsExact(world, id, created.value);
          }
        }
      case TemplateEdited(id, patch) =>
        if id in world.templates && world.templates[id].user in world.books {
          RowChangeKeepsExact(world, id, patch);
        }
      case BookChanged(user, book) =>
        ChangeKeepsExact(world, user, book);
    }
  }

  lemma SamePostingSelf(t: Template)
    ensures SamePosting(t, t)
  {
  }

  lemma {:induction false} RowChangeKeepsExact(world: World, id: nat, patch: Patch)
    requires WorldExact(world) && id in world.templates && world.templates[id].user in world.books
    requires WorldSound(Happen(world, TemplateEdited(id, patch)))
    ensures WorldExact(Happen(world, TemplateEdited(id, patch)))
  {
    hide WorldSound, ClaimsExact, KeysClaimed, KindsAllowed, SamePosting, UpdateTemplate;
    var book := world.books[world.templates[id].user];
    var edited := UpdateTemplate(book, world.templates[id], patch);
    EditKeepsPosting(book, world.templates[id], patch);
    if edited.Ok? {
      var templates := world.templates[id := edited.value];
      forall other | other in templates
        ensures SamePosting(world.templates[other], templates[other])
      {
        SamePostingSelf(world.templates[other]);
      }
      RowsKeepExact(world, templates);
    }
  }

  lemma {:induction false} TriggersKeepPostings(world: World, user: nat, book: Ledger.Book)
    ensures Triggered(world, user, book).Keys == world.templates.Keys
    ensures forall id :: id in world.templates ==> SamePosting(world.templates[id], Triggered(world, user, book)[id])
  {
    hide SamePosting, PauseFor;
    forall id | id in world.templates
      ensures SamePosting(world.templates[id], Triggered(world, user, book)[id])
    {
      SamePostingSelf(world.templates[id]);
      if user in world.books {
        PauseKeepsPosting(world.books[user], book, world.templates[id]);
      }
    }
  }

  lemma {:induction false} ChangeKeepsExact(world: World, user: nat, book: Ledger.Book)
    requires WorldExact(world) && Possible(world, BookChanged(user, book))
             && LeavesKeysAlone(world, BookChanged(user, book))
    ensures WorldExact(Happen(world, BookChanged(user, book)))
  {
    hide WorldSound, ClaimsExact, KeysClaimed, KindsAllowed, SamePosting, Triggered, LedgerLaws.Sound;
    var templates := Triggered(world, user, book);
    var paused := world.(templates := templates);
    TriggersKeepSchedules(world, user, book);
    TriggersKeepPostings(world, user, book);
    SameSchedulesStaySound(world, templates);
    RowsKeepExact(world, templates);
    OtherBooksKeepSound(paused, user, book);
    OtherBooksKeepExact(paused, user, book);
  }

  ghost predicate KeysAloneThroughout(world: World, events: seq<Event>)
    decreases |events|
  {
    events == [] || (LeavesKeysAlone(world, events[0]) && KeysAloneThroughout(Happen(world, events[0]), events[1..]))
  }

  lemma {:induction false} EveryRunIsExact(world: World, events: seq<Event>)
    requires WorldExact(world) && PossibleRun(world, events) && KeysAloneThroughout(world, events)
    ensures WorldExact(HappenAll(world, events))
    decreases |events|
  {
    hide WorldExact, Happen, Possible, LeavesKeysAlone;
    if events != [] {
      EventKeepsExact(world, events[0]);
      EveryRunIsExact(Happen(world, events[0]), events[1..]);
    }
  }

  /**
   One posting per occurrence, in every reachable world: each claim's transaction is dated the claimed date, of the
   template's type and accounts, and a transaction carries a worker's key if and only if it is the posting of the
   one claim that the key names.
   */
  lemma {:induction false} EveryOccurrenceHasItsPosting(
      world: World, events: seq<Event>, user: nat, i: nat, claim: (nat, Ledger.Day))
    requires WorldExact(world) && PossibleRun(world, events) && KeysAloneThroughout(world, events)
    requires var after := HappenAll(world, events);
             claim in after.occurrences && user in after.books && i < |after.books[user].log|
    ensures var after := HappenAll(world, events);
            && claim.0 in after.templates
            && var t := after.templates[claim.0];
            && t.user in after.books && after.occurrences[claim] < |after.books[t.user].log|
            && IsPostingOf(t, claim.1, after.books[t.user].log[after.occurrences[claim]])
            && (after.books[user].log[i].key == Ledger.Occurrence(claim.0, claim.1)
                <==> user == t.user && i == after.occurrences[claim])
            && (after.books[user].log[i].key.Occurrence? ==>
                  (after.books[user].log[i].key.template, after.books[user].log[i].key.day) in after.occurrences)
  {
    hide HappenAll, IsPostingOf, LedgerLaws.Sound, HasSlot;
    EveryRunIsExact(world, events);
    var after := HappenAll(world, events);
    assert ClaimPosted(after, claim) && ClaimExact(after, claim);
    assert KeyClaimed(after, user, i);
  }
}
