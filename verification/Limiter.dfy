/** The in-memory failure limiter, refined to a specification over the history of its events. */
module Limiter {
  import opened Prelude

  datatype Entry = Entry(failures: nat, resetAt: int)

  /** What the limiter was told, oldest first. */
  datatype Event = Failed(key: string, at: int) | Succeeded(key: string)

  const EVICTION_THRESHOLD: nat := 1024

  /**
   The key's open window according to the whole history: a failure opens one or counts in the open one, and a
   success closes it. No event of another key matters.
   */
  function Window(history: seq<Event>, key: string, length: int): Option<Entry> {
    if history == [] then None
    else
      var before := Window(history[..|history| - 1], key, length);
      match history[|history| - 1]
      case Succeeded(k) => if k == key then None else before
      case Failed(k, at) =>
        if k != key then before
        else if before.None? || at >= before.value.resetAt then Some(Entry(1, at + length))
        else Some(Entry(before.value.failures + 1, before.value.resetAt))
  }

  /** Blocked by the history: at least `maximum` failures in a window that is still open. */
  predicate Blocked(history: seq<Event>, key: string, length: int, maximum: int, now: int) {
    var window := Window(history, key, length);
    window.Some? && now < window.value.resetAt && window.value.failures >= maximum
  }

  function Failures(history: seq<Event>, key: string): nat {
    if history == [] then 0
    else
      Failures(history[..|history| - 1], key)
      + (match history[|history| - 1] case Failed(k, _) => (if k == key then 1 else 0) case Succeeded(_) => 0)
  }

  predicate MentionsSuccess(history: seq<Event>, key: string) {
    exists i :: 0 <= i < |history| && history[i] == Succeeded(key)
  }

  /** Where the key's current window began: the failure that opened it. */
  function Opening(history: seq<Event>, key: string, length: int): (index: nat)
    requires Window(history, key, length).Some?
    ensures index < |history|
  {
    var rest := history[..|history| - 1];
    var before := Window(rest, key, length);
    match history[|history| - 1]
    case Succeeded(_) => Opening(rest, key, length)
    case Failed(k, at) =>
      if k == key && (before.None? || at >= before.value.resetAt) then |history| - 1
      else Opening(rest, key, length)
  }

  /** The event at `i` is a failure of the key that no success of the key follows. */
  predicate OpenFailure(history: seq<Event>, key: string, i: int) {
    && 0 <= i < |history| && history[i].Failed? && history[i].key == key
    && forall j :: i < j < |history| ==> history[j] != Succeeded(key)
  }

  lemma OpenFailureOfLonger(rest: seq<Event>, last: Event, key: string, i: int)
    requires i < |rest|
    ensures OpenFailure(rest + [last], key, i) <==> OpenFailure(rest, key, i) && last != Succeeded(key)
  {
    var history := rest + [last];
    assert history[|rest|] == last;
    assert forall j :: 0 <= j < |rest| ==> history[j] == rest[j];
  }

  /** A key has a window exactly when it has failed since its last success. */
  lemma {:induction false} WindowExactlyWhenFailed(history: seq<Event>, key: string, length: int)
    ensures Window(history, key, length).Some? <==> exists i :: OpenFailure(history, key, i)
  {
    if history != [] {
      var rest, last := history[..|history| - 1], history[|history| - 1];
      assert history == rest + [last];
      WindowExactlyWhenFailed(rest, key, length);
      forall i | i < |rest|
        ensures OpenFailure(history, key, i) <==> OpenFailure(rest, key, i) && last != Succeeded(key)
      {
        OpenFailureOfLonger(rest, last, key, i);
      }
      if last.Failed? && last.key == key {
        assert OpenFailure(history, key, |rest|);
      }
    }
  }

  /** The failure at `opening` starts a window: no earlier window of the key is still running then. */
  ghost predicate StartsWindow(history: seq<Event>, opening: nat, key: string, length: int) {
    && opening < |history| && history[opening].Failed? && history[opening].key == key
    && var before := Window(history[..opening], key, length);
    && (before.None? || before.value.resetAt <= history[opening].at)
  }

  /**
   The window starts at a failure that no earlier window covers and fixes when the window ends; every failure of the
   key since then falls before that end and is counted, and no success of the key lies in between.
   */
  lemma {:induction false} WindowCounts(history: seq<Event>, key: string, length: int)
    requires Window(history, key, length).Some?
    ensures var window := Window(history, key, length).value;
            var opening := Opening(history, key, length);
            && StartsWindow(history, opening, key, length) && window.resetAt == history[opening].at + length
            && window.failures == Failures(history[opening..], key)
            && !MentionsSuccess(history[opening..], key)
            && (forall i :: opening < i < |history| && history[i].Failed? && history[i].key == key ==>
                history[i].at < window.resetAt)
  {
    var rest, last := history[..|history| - 1], history[|history| - 1];
    var opening := Opening(history, key, length);
    if opening == |history| - 1 && last.Failed? && last.key == key
       && (Window(rest, key, length).None? || last.at >= Window(rest, key, length).value.resetAt) {
      assert history[opening..] == [last];
      assert Failures([last][..0], key) == 0;
    } else {
      WindowCounts(rest, key, length);
      assert history[..opening] == rest[..opening];
      assert history[opening..][..|history[opening..]| - 1] == rest[opening..];
      assert history[opening..] == rest[opening..] + [last];
    }
  }

  /** A window that a failure opened, that no success has closed and that no later failure has outrun. */
  ghost predicate Runs(history: seq<Event>, opening: nat, key: string, length: int) {
    && StartsWindow(history, opening, key, length)
    && !MentionsSuccess(history[opening..], key)
    && forall i :: opening < i < |history| && history[i].Failed? && history[i].key == key ==>
         history[i].at < history[opening].at + length
  }

  /**
   A key is refused exactly while a window runs that one of its failures opened, that no success has closed, and in
   which it has failed at least `maximum` times.
   */
  lemma {:induction false} BlockedExactlyWhen(history: seq<Event>, key: string, length: int, maximum: int, now: int)
    ensures Blocked(history, key, length, maximum, now) <==>
              exists opening: nat ::
                && Runs(history, opening, key, length)
                && now < history[opening].at + length && Failures(history[opening..], key) >= maximum
  {
    if Window(history, key, length).Some? {
      WindowCounts(history, key, length);
      assert Runs(history, Opening(history, key, length), key, length);
    }
    forall opening: nat | Runs(history, opening, key, length)
      ensures Window(history, key, length)
              == Some(Entry(Failures(history[opening..], key), history[opening].at + length))
    {
      WindowFrom(history, key, length, opening);
    }
  }

  /** A running window is the one the limiter keeps. */
  lemma {:induction false} WindowFrom(history: seq<Event>, key: string, length: int, opening: nat)
    requires Runs(history, opening, key, length)
    ensures Window(history, key, length)
            == Some(Entry(Failures(history[opening..], key), history[opening].at + length))
  {
    var rest, last := history[..|history| - 1], history[|history| - 1];
    if opening == |history| - 1 {
      assert history[opening..] == [last] && history[..opening] == rest;
      assert Failures([last][..0], key) == 0;
    } else {
      assert rest[..opening] == history[..opening] && rest[opening] == history[opening];
      assert history[opening..][..|history[opening..]| - 1] == rest[opening..];
      assert history[opening..][|history[opening..]| - 1] == last;
      forall i | 0 <= i < |rest[opening..]|
        ensures rest[opening..][i] != Succeeded(key)
      {
        assert history[opening..][i] == rest[opening..][i];
      }
      WindowFrom(rest, key, length, opening);
    }
  }

  /** From a clean start, a key that fails at one moment is refused from exactly its `maximum`-th failure on. */
  lemma {:induction false} RefusedFromTheMaximum(
      history: seq<Event>, key: string, length: int, maximum: int, at: int, n: nat)
    requires Window(history, key, length).None? && length > 0 && maximum >= 1
    ensures Blocked(history + seq(n, i => Failed(key, at)), key, length, maximum, at) <==> n >= maximum
  {
    CountsUp(history, key, length, at, n);
  }

  lemma {:induction false} CountsUp(history: seq<Event>, key: string, length: int, at: int, n: nat)
    requires Window(history, key, length).None? && length > 0
    ensures Window(history + seq(n, i => Failed(key, at)), key, length)
            == if n == 0 then None else Some(Entry(n, at + length))
  {
    var failures := seq(n, i => Failed(key, at));
    if n == 0 {
      assert history + failures == history;
    } else {
      var fewer := seq(n - 1, i => Failed(key, at));
      CountsUp(history, key, length, at, n - 1);
      assert history + failures == (history + fewer) + [Failed(key, at)];
      WindowOfFailure(history + fewer, key, length, at);
    }
  }

  lemma WindowOfFailure(history: seq<Event>, key: string, length: int, at: int)
    ensures var before := Window(history, key, length);
            Window(history + [Failed(key, at)], key, length)
            == Some(if before.None? || at >= before.value.resetAt then Entry(1, at + length)
                    else Entry(before.value.failures + 1, before.value.resetAt))
  {
    var longer := history + [Failed(key, at)];
    assert longer[..|longer| - 1] == history && longer[|longer| - 1] == Failed(key, at);
  }

  class LoginLimiter {
    var entries: map<string, Entry>
    const maximum: int
    const window: int
    ghost var history: seq<Event>
    ghost var clock: int

    /** The table agrees with the history wherever the history can still answer "blocked". */
    ghost predicate Valid()
      reads this
    {
      && (forall key :: key in entries ==> Window(history, key, window) == Some(entries[key]))
      && (forall key: string ::
            Window(history, key, window).Some? && clock < Window(history, key, window).value.resetAt ==> key in entries)
    }

    constructor (maximum: int, window: int, now: int)
      ensures Valid() && history == [] && clock == now && this.maximum == maximum && this.window == window
    {
      this.maximum, this.window, entries := maximum, window, map[];
      history, clock := [], now;
    }

    /** With a clock that does not run backwards, a key is refused exactly when the history blocks it. */
    method Allowed(key: string, now: int) returns (ok: bool)
      requires Valid() && clock <= now
      modifies this
      ensures Valid() && history == old(history) && clock == now
      ensures ok <==> !Blocked(history, key, window, maximum, now)
    {
      clock := now;
      if key !in entries || now >= entries[key].resetAt {
        entries := map k | k in entries && k != key :: entries[k];
        return true;
      }
      return entries[key].failures < maximum;
    }

    /** Deletes every expired entry, in whatever order the map is visited. */
    method Evict(now: int)
      modifies `entries
      ensures entries == map k | k in old(entries) && now < old(entries)[k].resetAt :: old(entries)[k]
    {
      var candidates := entries.Keys;
      while candidates != {}
        invariant candidates <= old(entries).Keys
        invariant forall k :: k in entries <==>
                    k in old(entries) && (k in candidates || now < old(entries)[k].resetAt)
        invariant forall k :: k in entries ==> entries[k] == old(entries)[k]
        decreases |candidates|
      {
        var candidate :| candidate in candidates;
        if now >= entries[candidate].resetAt {
          entries := map k | k in entries && k != candidate :: entries[k];
        }
        candidates := candidates - {candidate};
      }
    }

    /** A failure is added to the history; eviction never shows in any later answer, because Valid() holds. */
    method Failed(key: string, now: int)
      requires Valid() && clock <= now
      modifies this
      ensures Valid() && history == old(history) + [Event.Failed(key, now)] && clock == now
      ensures |entries| <= 1024 || forall k :: k in entries ==> now < entries[k].resetAt
    {
      clock := now;
      history := history + [Event.Failed(key, now)];
      assert history[..|history| - 1] == old(history);
      var entry: Entry;
      if key !in entries || now >= entries[key].resetAt {
        entry := Entry(0, now + window);
      } else {
        entry := entries[key];
      }
      entry := entry.(failures := entry.failures + 1);
      entries := entries[key := entry];
      assert forall k :: k in entries ==> Window(history, k, this.window) == Some(entries[k]);
      if |entries| > EVICTION_THRESHOLD {
        Evict(now);
      }
    }

    method Succeeded(key: string)
      requires Valid()
      modifies this
      ensures Valid() && history == old(history) + [Event.Succeeded(key)] && clock == old(clock)
    {
      history := history + [Event.Succeeded(key)];
      assert history[..|history| - 1] == old(history);
      entries := map k | k in entries && k != key :: entries[k];
    }
  }
}
