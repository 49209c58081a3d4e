/** The log page's module-level state: the shared log cache (`cachedLogs`),
    the pending buffer (`logBuffer`) and its throttled flush, and the
    filter the page applies before display. */
module LogsPage {
  import opened Json

  /** Capacity rule: an entry that brings the cache to this length evicts the
      oldest one, so the cache holds at most `Capacity - 1` entries. */
  const Capacity := 500

  /** A controller log entry (`ControllerLog`); its `time` stamp is left out. */
  datatype Log = Log(kind: string, payload: string)

  /** One call of the registered trigger, with the cache it was given. */
  datatype Notification = Notification(trigger: nat, snapshot: seq<Log>)

  /** One step of the flush loop: append, then drop the oldest entry when the
      cache has reached the capacity. */
  function Push(cache: seq<Log>, entry: Log): (r: seq<Log>)
    ensures |r| > 0 && r[|r| - 1] == entry
    ensures |cache| < Capacity ==> |r| == Min(Capacity - 1, |cache| + 1)
  {
    var grown := cache + [entry];
    if |grown| >= Capacity then grown[1..] else grown
  }

  /** The cache after pushing `entries` one by one, in order: it stays under
      500 entries and ends with the last entry pushed. */
  function Appended(cache: seq<Log>, entries: seq<Log>): (r: seq<Log>)
    ensures |cache| < Capacity ==> |r| < Capacity
    ensures entries != [] ==> |r| > 0 && r[|r| - 1] == entries[|entries| - 1]
    decreases |entries|
  {
    if entries == [] then cache
    else Push(Appended(cache, entries[..|entries| - 1]), entries[|entries| - 1])
  }

  function Min(a: int, b: int): int { if a <= b then a else b }

  /** The last `n` elements of `s`. */
  function Newest(s: seq<Log>, n: nat): seq<Log>
    requires n <= |s|
  {
    s[|s| - n..]
  }

  /** Flushing into a cache of at most 499 entries keeps exactly the newest
      `min(499, |cache| + |entries|)` entries of `cache + entries`, in order:
      nothing is reordered, duplicated or lost except the oldest. */
  lemma {:induction false} AppendedKeepsNewest(cache: seq<Log>, entries: seq<Log>)
    requires |cache| < Capacity
    ensures |Appended(cache, entries)| == Min(Capacity - 1, |cache| + |entries|)
    ensures Appended(cache, entries) == Newest(cache + entries, Min(Capacity - 1, |cache| + |entries|))
    decreases |entries|
  {
    if entries == [] {
      assert cache + entries == cache;
    } else {
      var front, last := entries[..|entries| - 1], entries[|entries| - 1];
      assert Appended(cache, entries) == Push(Appended(cache, front), last);
      AppendedKeepsNewest(cache, front);
      assert cache + entries == (cache + front) + [last];
      PushKeepsNewest(cache + front, last);
    }
  }

  /** One push onto the newest entries of `all` gives the newest entries of
      `all` followed by the pushed one. */
  lemma PushKeepsNewest(all: seq<Log>, last: Log)
    ensures var m := Min(Capacity - 1, |all|);
      Push(Newest(all, m), last) == Newest(all + [last], Min(Capacity - 1, |all| + 1))
  {
    var m := Min(Capacity - 1, |all|);
    if m == Capacity - 1 {
      assert (all[|all| - m..] + [last])[1..] == (all + [last])[|all| + 1 - m..];
    } else {
      assert all[|all| - m..] == all;
    }
  }

  class LogCache {
    /** `cachedLogs.log` */
    var log: seq<Log>
    /** `cachedLogs.trigger`: the registered callback, by identity. */
    var trigger: Option<nat>
    /** Every call of the trigger so far, in order. */
    var notified: seq<Notification>
    /** `logBuffer` */
    var buffer: seq<Log>
    /** `logFlushTimer !== null` */
    var flushTimerArmed: bool
    /** Flush timeouts scheduled and not yet fired. */
    var pendingFlushes: nat

    ghost predicate Valid()
      reads this
    {
      && |log| < Capacity
      && pendingFlushes == (if flushTimerArmed then 1 else 0)
    }

    constructor ()
      ensures Valid()
      ensures log == [] && trigger == None && notified == [] && buffer == []
      ensures !flushTimerArmed && pendingFlushes == 0
    {
      log := [];
      trigger := None;
      notified := [];
      buffer := [];
      flushTimerArmed := false;
      pendingFlushes := 0;
    }

    /** `cachedLogs.clean`: empty the cache and hand the empty cache to a
        registered trigger. */
    method Clean()
      requires Valid()
      modifies this`log, this`notified
      ensures Valid()
      ensures log == []
      ensures notified == old(notified) + (if trigger.Some? then [Notification(trigger.value, [])] else [])
    {
      log := [];
      if trigger.Some? {
        notified := notified + [Notification(trigger.value, log)];
      }
    }

    /** `flushLogs`: nothing at all on an empty buffer; otherwise push every
        buffered entry in order (evicting the oldest at capacity), empty the
        buffer and hand the cache to a registered trigger once. */
    method FlushLogs()
      requires Valid()
      modifies this`log, this`buffer, this`notified
      ensures Valid()
      ensures old(buffer) == [] ==> log == old(log) && buffer == [] && notified == old(notified)
      ensures old(buffer) != [] ==>
        && log == Appended(old(log), old(buffer))
        && buffer == []
        && notified == old(notified) + (if trigger.Some? then [Notification(trigger.value, log)] else [])
    {
      if |buffer| == 0 {
        return;
      }
      for i := 0 to |buffer|
        invariant buffer == old(buffer) && notified == old(notified)
        invariant log == Appended(old(log), buffer[..i])
        invariant |log| < Capacity
      {
        assert buffer[..i + 1][..i] == buffer[..i];
        log := log + [buffer[i]];
        if |log| >= Capacity {
          log := log[1..];
        }
      }
      assert buffer[..|buffer|] == buffer;
      buffer := [];
      if trigger.Some? {
        notified := notified + [Notification(trigger.value, log)];
      }
    }

    /** `handleLogs`: always buffer the entry; arm the 100 ms flush timer only
        when none is armed, so at most one flush is ever pending. */
    method HandleLog(entry: Log)
      requires Valid()
      modifies this`buffer, this`flushTimerArmed, this`pendingFlushes
      ensures Valid() && pendingFlushes <= 1
      ensures buffer == old(buffer) + [entry]
      ensures flushTimerArmed
      ensures pendingFlushes == 1
      ensures old(flushTimerArmed) ==> pendingFlushes == old(pendingFlushes)
    {
      buffer := buffer + [entry];
      if !flushTimerArmed {
        flushTimerArmed := true;
        pendingFlushes := pendingFlushes + 1;
      }
    }

    /** The armed timeout fires: flush, then disarm. */
    method FireFlushTimer()
      requires Valid() && pendingFlushes > 0
      modifies this`log, this`buffer, this`notified, this`flushTimerArmed, this`pendingFlushes
      ensures Valid()
      ensures !flushTimerArmed && pendingFlushes == 0
      ensures buffer == []
      ensures log == Appended(old(log), old(buffer))
      ensures old(buffer) != [] ==>
        notified == old(notified) + (if trigger.Some? then [Notification(trigger.value, log)] else [])
      ensures old(buffer) == [] ==> notified == old(notified)
    {
      FlushLogs();
      flushTimerArmed := false;
      pendingFlushes := pendingFlushes - 1;
    }

    /** A page mounts: install its trigger and remember the one it replaces. */
    method RegisterTrigger(id: nat) returns (previous: Option<nat>)
      modifies this`trigger
      ensures previous == old(trigger) && trigger == Some(id)
    {
      previous := trigger;
      trigger := Some(id);
    }

    /** A page unmounts: put back the trigger it replaced. */
    method UnregisterTrigger(previous: Option<nat>)
      modifies this`trigger
      ensures trigger == previous
    {
      trigger := previous;
    }

    /** A mount followed by its unmount, with buffered entries flushed in
        between: the flush reaches the page's trigger, and afterwards the
        original trigger is back. */
    method MountFlushUnmount(id: nat)
      requires Valid() && buffer != []
      modifies this`trigger, this`log, this`buffer, this`notified
      ensures Valid()
      ensures trigger == old(trigger)
      ensures log == Appended(old(log), old(buffer))
      ensures notified == old(notified) + [Notification(id, log)]
    {
      var previous := RegisterTrigger(id);
      FlushLogs();
      UnregisterTrigger(previous);
    }
  }

  // ---------------------------------------------------------------------------
  // filteredLogs
  // ---------------------------------------------------------------------------

  /** A case-insensitive substring test (`includesIgnoreCase`), as a parameter. */
  type Includes = (string, string) -> bool

  predicate Matches(entry: Log, filter: string, includes: Includes) {
    includes(entry.payload, filter) || includes(entry.kind, filter)
  }

  /** `logs.filter(...)`: the entries whose payload or type matches. */
  function Select(logs: seq<Log>, filter: string, includes: Includes): (r: seq<Log>)
    ensures |r| <= |logs|
    ensures forall e :: e in r <==> e in logs && Matches(e, filter, includes)
    decreases |logs|
  {
    if logs == [] then []
    else
      var front := Select(logs[..|logs| - 1], filter, includes);
      var last := logs[|logs| - 1];
      assert logs == logs[..|logs| - 1] + [last];
      if Matches(last, filter, includes) then front + [last] else front
  }

  /** The selection is order-preserving: it distributes over concatenation. */
  lemma {:induction false} SelectAppend(a: seq<Log>, b: seq<Log>, filter: string, includes: Includes)
    ensures Select(a + b, filter, includes) == Select(a, filter, includes) + Select(b, filter, includes)
    decreases |b|
  {
    if b == [] {
      assert a + b == a;
    } else {
      var front := b[..|b| - 1];
      assert (a + b)[..|a + b| - 1] == a + front;
      SelectAppend(a, front, filter, includes);
    }
  }

  /** The page's `filteredLogs`: all logs for an empty filter, the selection
      otherwise. */
  function FilteredLogs(logs: seq<Log>, filter: string, includes: Includes): (r: seq<Log>)
    ensures filter == "" ==> r == logs
    ensures forall e :: e in r <==> e in logs && (filter == "" || Matches(e, filter, includes))
  {
    if filter == "" then logs else Select(logs, filter, includes)
  }

  /** Every entry matches the empty pattern under a substring test, so the
      empty-filter shortcut agrees with filtering. */
  lemma {:induction false} EmptyFilterSelectsAll(logs: seq<Log>, includes: Includes)
    requires forall s: string :: includes(s, "")
    ensures Select(logs, "", includes) == logs
    ensures FilteredLogs(logs, "", includes) == Select(logs, "", includes)
    decreases |logs|
  {
    if logs != [] {
      EmptyFilterSelectsAll(logs[..|logs| - 1], includes);
      assert logs == logs[..|logs| - 1] + [logs[|logs| - 1]];
    }
  }
}
