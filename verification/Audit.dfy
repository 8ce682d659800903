/** The bounded audit log (crates/entangle-broker/src/audit.rs). */
module Audit {
  import opened Common
  import opened Capability
  import PluginIds

  type PluginId = PluginIds.PluginId

  type GrantId = nat

  /** Every event the broker records; wall-clock times are left out. */
  datatype AuditEvent =
    | PluginRegistered(plugin: PluginId, declared: Tier, implied: Tier, effective: Tier)
    | PluginUnregistered(plugin: PluginId)
    | CapabilityGranted(plugin: PluginId, capability: string, grantId: GrantId)
    | CapabilityDenied(plugin: PluginId, capability: string, reason: string)
    | CapabilityReleased(plugin: PluginId, capability: string, grantId: GrantId)

  /** What the log keeps: the retained events, oldest first, and the eviction counter (an `AtomicU64`). */
  datatype Log = Log(maxEvents: nat, retained: seq<AuditEvent>, dropped: nat)

  function EmptyLog(maxEvents: nat): Log { Log(if maxEvents < 1 then 1 else maxEvents, [], 0) }

  function Evict(l: Log): Log
    requires |l.retained| >= 1
  {
    l.(retained := l.retained[1..], dropped := (l.dropped + 1) % U64_LIMIT)
  }

  /** `AuditLog::record`: evict from the front while full, then append. */
  function Record(l: Log, e: AuditEvent): Log
    requires l.maxEvents >= 1
    decreases |l.retained|
  {
    if |l.retained| >= l.maxEvents then Record(Evict(l), e)
    else l.(retained := l.retained + [e])
  }

  /** The log after recording a whole history. */
  function LogOf(maxEvents: nat, history: seq<AuditEvent>): (l: Log)
    ensures l.maxEvents == if maxEvents < 1 then 1 else maxEvents
  {
    if history == [] then EmptyLog(maxEvents)
    else
      var before := LogOf(maxEvents, history[..|history| - 1]);
      RecordKeepsMax(before, history[|history| - 1]);
      Record(before, history[|history| - 1])
  }

  lemma {:induction false} RecordKeepsMax(l: Log, e: AuditEvent)
    requires l.maxEvents >= 1
    ensures Record(l, e).maxEvents == l.maxEvents
    decreases |l.retained|
  {
    if |l.retained| >= l.maxEvents { RecordKeepsMax(Evict(l), e); }
  }

  function LastOf(history: seq<AuditEvent>, n: nat): seq<AuditEvent> {
    if |history| <= n then history else history[|history| - n..]
  }

  lemma {:induction false} LastOfSnoc(history: seq<AuditEvent>, e: AuditEvent, n: nat)
    requires n >= 1
    ensures var last := LastOf(history, n);
            LastOf(history + [e], n) == (if |last| >= n then last[1..] else last) + [e]
  {
  }

  lemma {:induction false} RecordFull(l: Log, e: AuditEvent)
    requires 1 <= l.maxEvents == |l.retained|
    ensures Record(l, e) == l.(retained := l.retained[1..] + [e], dropped := (l.dropped + 1) % U64_LIMIT)
  {
    assert Record(l, e) == Record(Evict(l), e);
  }

  lemma WrapNext(n: nat)
    ensures (n % U64_LIMIT + 1) % U64_LIMIT == (n + 1) % U64_LIMIT
  {
  }

  /** The log retains exactly the last `max_events` events of the history, and
      the counter is the number of the others, modulo the counter's width. */
  predicate Retains(l: Log, history: seq<AuditEvent>) {
    && l.retained == LastOf(history, l.maxEvents)
    && l.dropped == (|history| - |l.retained|) % U64_LIMIT
  }

  lemma {:induction false} RecordRetains(l: Log, history: seq<AuditEvent>, e: AuditEvent)
    requires l.maxEvents >= 1 && Retains(l, history)
    ensures Retains(Record(l, e), history + [e])
  {
    LastOfSnoc(history, e, l.maxEvents);
    if |l.retained| == l.maxEvents {
      RecordFull(l, e);
      WrapNext(|history| - |l.retained|);
    }
  }

  lemma {:induction false} LogOfSnoc(maxEvents: nat, history: seq<AuditEvent>, e: AuditEvent)
    ensures LogOf(maxEvents, history + [e]) == Record(LogOf(maxEvents, history), e)
  {
    assert (history + [e])[..|history|] == history;
  }

  /** After any history the log retains its last events and counts the others. */
  lemma {:induction false} RetainsLast(maxEvents: nat, history: seq<AuditEvent>)
    ensures Retains(LogOf(maxEvents, history), history)
  {
    if history != [] {
      var init, e := history[..|history| - 1], history[|history| - 1];
      assert history == init + [e];
      RetainsLast(maxEvents, init);
      RecordRetains(LogOf(maxEvents, init), init, e);
      LogOfSnoc(maxEvents, init, e);
    }
  }

  /** The log behind its mutex. */
  class AuditLog {
    const maxEvents: nat
    var events: seq<AuditEvent>
    var dropped: nat

    ghost predicate Valid()
      reads this
    {
      maxEvents >= 1
    }

    function View(): Log
      reads this
    {
      Log(maxEvents, events, dropped)
    }

    constructor (capacity: nat)
      ensures Valid() && View() == EmptyLog(capacity)
    {
      maxEvents := if capacity < 1 then 1 else capacity;
      events := [];
      dropped := 0;
    }

    method RecordEvent(e: AuditEvent)
      requires Valid()
      modifies this
      ensures Valid() && View() == Record(old(View()), e)
    {
      while |events| >= maxEvents
        invariant Record(View(), e) == Record(old(View()), e)
        decreases |events|
      {
        events := events[1..];
        dropped := (dropped + 1) % U64_LIMIT;
      }
      events := events + [e];
    }
  }
}
