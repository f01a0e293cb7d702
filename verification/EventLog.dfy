/** Core's bounded event log. */
module EventLogs {
  import opened Bytes

  type EventId = nat
  type InstanceId = nat

  datatype IpcError = SessionOrder | Protocol | AuthenticationRejected

  datatype Body = Replayed(first: u64, through: u64) | Gap(first: u64) | Other(payload: nat)

  datatype Event = Event(sequence: u64, id: EventId, body: Body)

  datatype RetainedWindow = RetainedWindow(first: u64, through: u64)

  datatype ReplayPlan = Replay(events: seq<Event>) | GapFrom(firstMissing: u64) | UpToDate

  // ---- the log as a value ----

  datatype Log = Log(events: seq<Event>, capacity: nat, nextSequence: u64)

  /** `None` is the sequence overflow; the log is then unchanged. */
  function Appended(log: Log, id: EventId, body: Body): Option<(Event, Log)> {
    if log.nextSequence == U64_MAX then None
    else
      var e := Event(log.nextSequence, id, body);
      var kept := if |log.events| == log.capacity && log.events != [] then log.events[1..] else log.events;
      Some((e, Log(kept + [e], log.capacity, log.nextSequence + 1)))
  }

  function Retained(log: Log): Option<RetainedWindow> {
    if log.events == [] then None
    else Some(RetainedWindow(log.events[0].sequence, log.events[|log.events| - 1].sequence))
  }

  function After(events: seq<Event>, since: u64): seq<Event> {
    if events == [] then []
    else (if events[0].sequence > since then [events[0]] else []) + After(events[1..], since)
  }

  function ReplayAfter(log: Log, since: Option<u64>): ReplayPlan {
    if since.None? || Retained(log).None? then UpToDate
    else
      var retained := Retained(log).value;
      if since.value >= retained.through then UpToDate
      else if since.value + 1 < retained.first then GapFrom(since.value + 1)
      else Replay(After(log.events, since.value))
  }

  // ---- the log as a view of the whole history ----

  /** Event number `i` of the history carries sequence `i + 1`. */
  predicate Numbered(history: seq<Event>) {
    |history| < U64_MAX && forall i | 0 <= i < |history| :: history[i].sequence == i + 1
  }

  /** How many events the log has forgotten. */
  function Evicted(history: seq<Event>, capacity: nat): nat {
    if |history| <= capacity then 0 else |history| - capacity
  }

  /** The log is the newest `capacity` events of the history. */
  predicate Holds(log: Log, history: seq<Event>) {
    log.capacity >= 1 && Numbered(history) && log.nextSequence == |history| + 1
    && log.events == history[Evicted(history, log.capacity)..]
  }

  lemma AppendHolds(log: Log, history: seq<Event>, id: EventId, body: Body)
    requires Holds(log, history)
    ensures Appended(log, id, body).None? <==> |history| == U64_MAX - 1
    ensures Appended(log, id, body).Some? ==>
              var (e, log') := Appended(log, id, body).value;
              e == Event(|history| + 1, id, body) && Holds(log', history + [e])
  {
    if Appended(log, id, body).Some? {
      var (e, log') := Appended(log, id, body).value;
      var h := history + [e];
      assert log'.events == h[Evicted(h, log.capacity)..];
    }
  }

  /** The window a greeting reports runs from the oldest kept event to the newest of the history. */
  lemma RetainedIsTheWindow(log: Log, history: seq<Event>)
    requires Holds(log, history)
    ensures Retained(log) == if history == [] then None
                             else Some(RetainedWindow(Evicted(history, log.capacity) + 1, |history|))
  {
    if history != [] {
      assert log.events[0] == history[Evicted(history, log.capacity)];
      assert log.events[|log.events| - 1] == history[|history| - 1];
    }
  }

  lemma AfterNone(since: u64)
    ensures After([], since) == []
  {
  }

  lemma AfterStep(events: seq<Event>, i: nat, since: u64)
    requires i < |events|
    ensures After(events[i..], since) ==
            if events[i].sequence > since then [events[i]] + After(events[i + 1..], since) else After(events[i + 1..], since)
  {
    assert events[i..][1..] == events[i + 1..];
  }

  lemma {:induction false} AfterOfNumbered(history: seq<Event>, k: nat, since: nat)
    requires Numbered(history) && k <= |history| && since <= |history|
    ensures After(history[k..], since) == history[if k < since then since else k..]
    decreases |history| - k
  {
    hide After;
    if k == |history| {
      AfterNone(since);
    } else {
      AfterStep(history, k, since);
      AfterOfNumbered(history, k + 1, since);
      assert history[k..] == [history[k]] + history[k + 1..];
    }
  }

  /** The plan is exactly what the unbounded history would say, given which events are still there. */
  lemma ReplayAgreesWithHistory(log: Log, history: seq<Event>, since: Option<u64>)
    requires Holds(log, history)
    ensures ReplayAfter(log, since) ==
            (if since.None? || since.value >= |history| then UpToDate
             else if since.value < Evicted(history, log.capacity) then GapFrom(since.value + 1)
             else Replay(history[since.value..]))
    ensures ReplayAfter(log, since).Replay? ==> ReplayAfter(log, since).events != []
  {
    if since.Some? && since.value < |history| {
      AfterOfNumbered(history, Evicted(history, log.capacity), since.value);
    }
  }

  method LaterThan(events: seq<Event>, since: u64) returns (later: seq<Event>)
    ensures later == After(events, since)
  {
    later := [];
    var i := 0;
    hide After;
    AfterNone(since);
    while i < |events|
      invariant 0 <= i <= |events|
      invariant later + After(events[i..], since) == After(events, since)
    {
      AfterStep(events, i, since);
      Regroup(later, [events[i]], After(events[i + 1..], since));
      if events[i].sequence > since {
        later := later + [events[i]];
      }
      i := i + 1;
    }
    assert events[i..] == [] && later + [] == later;
  }

  class EventLog {
    var events: seq<Event>
    const capacity: nat
    var nextSequence: u64
    ghost var history: seq<Event>

    ghost function State(): Log
      reads this
    {
      Log(events, capacity, nextSequence)
    }

    ghost predicate Valid()
      reads this
    {
      Holds(State(), history)
    }

    constructor (capacity: nat)
      requires capacity >= 1
      ensures Valid() && history == [] && this.capacity == capacity
    {
      events, this.capacity, nextSequence, history := [], capacity, 1, [];
    }

    method Append(id: EventId, body: Body) returns (r: Option<Event>)
      requires Valid()
      modifies this
      ensures Valid()
      ensures r.None? <==> old(|history|) == U64_MAX - 1
      ensures r.None? ==> history == old(history)
      ensures r.Some? ==> r.value == Event(old(|history|) + 1, id, body) && history == old(history) + [r.value]
      ensures match Appended(old(State()), id, body)
              case None => r.None? && State() == old(State())
              case Some((e, log)) => r == Some(e) && State() == log
    {
      AppendHolds(State(), history, id, body);
      var sequence := nextSequence;
      if sequence == U64_MAX {
        return None;
      }
      nextSequence := sequence + 1;
      var event := Event(sequence, id, body);
      if |events| == capacity {
        events := events[1..];
      }
      events := events + [event];
      history := history + [event];
      return Some(event);
    }

    method PlanReplay(since: Option<u64>) returns (plan: ReplayPlan)
      requires Valid()
      ensures plan == ReplayAfter(State(), since)
      ensures plan.UpToDate? <==> since.None? || since.value >= |history|
      ensures plan.GapFrom? <==> since.Some? && since.value < |history| && since.value < Evicted(history, capacity)
      ensures plan.GapFrom? ==> plan.firstMissing == since.value + 1
      ensures plan.Replay? ==> plan.events == history[since.value..]
    {
      ReplayAgreesWithHistory(State(), history, since);
      if since.None? || events == [] {
        return UpToDate;
      }
      if since.value >= events[|events| - 1].sequence {
        return UpToDate;
      }
      if since.value + 1 < events[0].sequence {
        return GapFrom(since.value + 1);
      }
      var later := LaterThan(events, since.value);
      return Replay(later);
    }
  }

  /** A log without room for one event is refused. */
  method NewEventLog(capacity: nat) returns (r: Result<EventLog, IpcError>)
    ensures if capacity == 0 then r == Err(SessionOrder) else r.Ok?
    ensures r.Ok? ==> fresh(r.value) && r.value.Valid() && r.value.history == [] && r.value.capacity == capacity
  {
    if capacity == 0 {
      return Err(SessionOrder);
    }
    var log := new EventLog(capacity);
    return Ok(log);
  }
}
