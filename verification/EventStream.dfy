/** The Desktop/Core event stream: server and client sessions, and runs of both over dropping connections. */
module EventStreams {
  import opened Bytes
  import opened EventLogs
  import opened Handshakes

  // ---- the server side ----

  datatype CatchUpDelivery =
    | CatchUpReplay(events: seq<Event>, boundary: Event)
    | CatchUpGap(boundary: Event)
    | CatchUpNone
  {
    /** What the transport sends, in order. */
    function Events(): seq<Event> {
      match this
      case CatchUpReplay(events, boundary) => events + [boundary]
      case CatchUpGap(boundary) => [boundary]
      case CatchUpNone => []
    }
  }

  /** `None` is the overflow while sequencing the boundary. */
  function CatchUp(log: Log, since: Option<u64>, boundaryId: EventId): Option<(CatchUpDelivery, Log)> {
    match ReplayAfter(log, since)
    case UpToDate => Some((CatchUpNone, log))
    case GapFrom(firstMissing) =>
      (match Appended(log, boundaryId, Gap(firstMissing))
       case None => None
       case Some((boundary, log')) => Some((CatchUpGap(boundary), log')))
    case Replay(events) =>
      if events == [] then None
      else
        (match Appended(log, boundaryId, Replayed(events[0].sequence, events[|events| - 1].sequence))
         case None => None
         case Some((boundary, log')) => Some((CatchUpReplay(events, boundary), log')))
  }

  /** `e` is what comes right after `last`, or it announces that everything from there on is gone. */
  predicate Follows(last: u64, e: Event) {
    e.sequence > last && (e.sequence == last + 1 || e.body == Gap(last + 1))
  }

  predicate Suffix(tail: seq<Event>, history: seq<Event>) {
    |tail| <= |history| && tail == history[|history| - |tail|..]
  }

  lemma SuffixFrom(history: seq<Event>, k: nat)
    requires k <= |history|
    ensures Suffix(history[k..], history)
  {
  }

  lemma SuffixGrows(tail: seq<Event>, history: seq<Event>, e: Event)
    requires Suffix(tail, history)
    ensures Suffix(tail + [e], history + [e])
  {
  }

  lemma SuffixShrinks(tail: seq<Event>, history: seq<Event>)
    requires Suffix(tail, history) && tail != []
    ensures |tail| <= |history| && tail[0] == history[|history| - |tail|] && tail[0] in history
    ensures Suffix(tail[1..], history)
  {
  }

  lemma HoldsNumbered(log: Log, history: seq<Event>)
    requires Holds(log, history)
    ensures Numbered(history)
  {
  }

  /** The delivery `d` for a subscription from `since`, and what the history and the log are then. */
  predicate CaughtUp(d: CatchUpDelivery, log': Log, history: seq<Event>, since: Option<u64>, boundaryId: EventId) {
    var history' := if d.CatchUpNone? then history else history + [d.boundary];
    && Holds(log', history')
    && (d.CatchUpNone? ==> since.None? || since.value >= |history|)
    && (!d.CatchUpNone? ==> d.boundary.id == boundaryId && since.Some? && since.value < |history|)
    && Suffix(d.Events(), history')
    && (!d.CatchUpNone? ==> d.Events() != [] && Follows(since.value, d.Events()[0]))
    && (d.CatchUpReplay? ==> d.boundary.body == Replayed(since.value + 1, |history|)
                             && |d.events| == |history| - since.value)
    && (d.CatchUpGap? ==> d.boundary.body == Gap(since.value + 1))
  }

  lemma ReplayCatchesUp(log': Log, history: seq<Event>, since: u64, boundary: Event)
    requires Numbered(history) && since < |history| && Holds(log', history + [boundary])
    requires boundary.body == Replayed(history[since].sequence, history[|history| - 1].sequence)
    ensures CaughtUp(CatchUpReplay(history[since..], boundary), log', history, Some(since), boundary.id)
  {
    hide Holds, Suffix;
    var events := history[since..];
    SuffixFrom(history, since);
    SuffixGrows(events, history, boundary);
    assert (events + [boundary])[0] == history[since];
  }

  lemma GapCatchesUp(log': Log, history: seq<Event>, since: u64, boundary: Event)
    requires Numbered(history) && since < |history| && Holds(log', history + [boundary])
    requires boundary.sequence == |history| + 1 && boundary.body == Gap(since + 1)
    ensures CaughtUp(CatchUpGap(boundary), log', history, Some(since), boundary.id)
  {
    hide Holds, Suffix;
    SuffixFrom(history, |history|);
    SuffixGrows([], history, boundary);
    assert [] + [boundary] == [boundary];
  }

  /** The delivery brings the subscriber to the end of the history, or announces the gap it could not fill. */
  lemma CatchUpReachesTheEnd(log: Log, history: seq<Event>, since: Option<u64>, boundaryId: EventId)
    requires Holds(log, history)
    ensures CatchUp(log, since, boundaryId).None? ==> |history| == U64_MAX - 1
    ensures CatchUp(log, since, boundaryId).Some? ==>
              var (d, log') := CatchUp(log, since, boundaryId).value;
              CaughtUp(d, log', history, since, boundaryId)
  {
    ReplayAgreesWithHistory(log, history, since);
    HoldsNumbered(log, history);
    match ReplayAfter(log, since)
    case UpToDate =>
      hide Holds, Suffix, ReplayAfter, Numbered;
      SuffixFrom(history, |history|);
    case GapFrom(firstMissing) =>
      hide Holds, ReplayAfter, CaughtUp, Appended, Numbered;
      AppendHolds(log, history, boundaryId, Gap(firstMissing));
      if CatchUp(log, since, boundaryId).Some? {
        var (d, log') := CatchUp(log, since, boundaryId).value;
        GapCatchesUp(log', history, since.value, d.boundary);
      }
    case Replay(events) =>
      assert events[0] == history[since.value] && events[|events| - 1] == history[|history| - 1];
      hide Holds, ReplayAfter, CaughtUp, Appended, Numbered;
      AppendHolds(log, history, boundaryId, Replayed(events[0].sequence, events[|events| - 1].sequence));
      if CatchUp(log, since, boundaryId).Some? {
        var (d, log') := CatchUp(log, since, boundaryId).value;
        ReplayCatchesUp(log', history, since.value, d.boundary);
      }
  }

  /** What a hello is answered with; `None` is an accepted one. */
  function HelloRefusal(expected: seq<bv8>, supported: VersionRange, token: seq<bv8>, versions: VersionRange): Option<IpcError> {
    if token != expected then Some(AuthenticationRejected)
    else if Negotiated(versions, supported).None? then Some(Protocol)
    else None
  }

  class ServerSession {
    const launchToken: seq<bv8>
    const supported: VersionRange
    var selectedVersion: Option<u32>
    var subscribed: bool
    const log: EventLog

    constructor (launchToken: seq<bv8>, supported: VersionRange, log: EventLog)
      ensures selectedVersion == None && !subscribed
      ensures this.launchToken == launchToken && this.supported == supported && this.log == log
    {
      this.launchToken, this.supported := launchToken, supported;
      selectedVersion, subscribed, this.log := None, false, log;
    }

    method AcceptHello(token: seq<bv8>, versions: VersionRange) returns (r: Result<Option<RetainedWindow>, IpcError>)
      modifies this
      ensures subscribed == old(subscribed)
      ensures if old(selectedVersion).Some? then r == Err(SessionOrder) && selectedVersion == old(selectedVersion)
              else match HelloRefusal(launchToken, supported, token, versions)
                   case Some(e) => r == Err(e) && selectedVersion.None?
                   case None => r == Ok(Retained(log.State())) && selectedVersion == Negotiated(versions, supported)
      ensures r.Ok? <==> old(selectedVersion).None? && token == launchToken
                         && exists v: u32 :: Common(versions, supported, v)
      ensures r.Err? && old(selectedVersion).None? ==> (r.error == AuthenticationRejected <==> token != launchToken)
    {
      NegotiatesHighestCommon(versions, supported);
      if selectedVersion.Some? {
        return Err(SessionOrder);
      }
      var authentic := ConstantTimeEq(token, launchToken);
      if !authentic {
        return Err(AuthenticationRejected);
      }
      var negotiated := Negotiated(versions, supported);
      if negotiated.None? {
        return Err(Protocol);
      }
      selectedVersion := negotiated;
      var events := log.events;
      return Ok(if events == [] then None
                else Some(RetainedWindow(events[0].sequence, events[|events| - 1].sequence)));
    }

    /** `command` carries the point to catch up from; `None` is not a well-formed subscribe. */
    method AcceptSubscribe(command: Option<Option<u64>>, boundaryId: EventId) returns (r: Result<CatchUpDelivery, IpcError>)
      requires log.Valid()
      modifies this, log
      ensures log.Valid() && selectedVersion == old(selectedVersion)
      ensures if old(selectedVersion.None? || subscribed)
              then r == Err(SessionOrder) && subscribed == old(subscribed) && log.State() == old(log.State())
              else if command.None?
              then r == Err(Protocol) && !subscribed && log.State() == old(log.State())
              else subscribed
                   && match CatchUp(old(log.State()), command.value, boundaryId)
                      case None => r == Err(Protocol) && log.State() == old(log.State())
                      case Some((d, log')) => r == Ok(d) && log.State() == log'
    {
      if selectedVersion.None? || subscribed {
        return Err(SessionOrder);
      }
      if command.None? {
        return Err(Protocol);
      }
      subscribed := true;
      var plan := log.PlanReplay(command.value);
      match plan
      case Replay(events) =>
        var boundary := Publish(boundaryId, Replayed(events[0].sequence, events[|events| - 1].sequence));
        if boundary.Err? {
          return Err(boundary.error);
        }
        return Ok(CatchUpReplay(events, boundary.value));
      case GapFrom(firstMissing) =>
        var boundary := Publish(boundaryId, Gap(firstMissing));
        if boundary.Err? {
          return Err(boundary.error);
        }
        return Ok(CatchUpGap(boundary.value));
      case UpToDate =>
        return Ok(CatchUpNone);
    }

    method Publish(id: EventId, body: Body) returns (r: Result<Event, IpcError>)
      requires log.Valid()
      modifies log
      ensures log.Valid()
      ensures if selectedVersion.None? then r == Err(SessionOrder) && log.State() == old(log.State())
              else match Appended(old(log.State()), id, body)
                   case None => r == Err(Protocol) && log.State() == old(log.State())
                   case Some((e, log')) => r == Ok(e) && log.State() == log'
    {
      if selectedVersion.None? {
        return Err(SessionOrder);
      }
      var event := log.Append(id, body);
      if event.None? {
        return Err(Protocol);
      }
      return Ok(event.value);
    }
  }

  // ---- the client side ----

  datatype EventDelivery = Applied(sequence: u64) | Duplicate
  datatype GreetingOutcome = Resumed | Restarted

  datatype Client = Client(instance: Option<InstanceId>, last: Option<u64>, seen: set<EventId>)

  function Greeted(c: Client, instance: InstanceId): (GreetingOutcome, Client) {
    if c.instance == Some(instance) then (Resumed, c)
    else (Restarted, Client(Some(instance), None, {}))
  }

  function Accepted(c: Client, e: Event): (EventDelivery, Client) {
    if e.id in c.seen then (Duplicate, c)
    else
      var last := if c.last.None? || e.sequence > c.last.value then Some(e.sequence) else c.last;
      (Applied(e.sequence), c.(seen := c.seen + {e.id}, last := last))
  }

  datatype Greeting = Greeting(version: u32, instance: InstanceId, retained: Option<RetainedWindow>)

  /** The version is one this client speaks and the one negotiated, and the retained window is in order. */
  predicate GreetingValid(g: Greeting, negotiated: u32) {
    SUPPORTED.Contains(g.version) && (g.retained.Some? ==> g.retained.value.first <= g.retained.value.through)
    && g.version == negotiated
  }

  /** What a server with a sound log greets with after an accepted hello, a client of a supported range accepts. */
  lemma GreetingsAreValid(log: Log, history: seq<Event>, versions: VersionRange, instance: InstanceId)
    requires Holds(log, history) && Negotiated(versions, SUPPORTED).Some?
    ensures var v := Negotiated(versions, SUPPORTED).value;
            GreetingValid(Greeting(v, instance, Retained(log)), v)
  {
    NegotiatesHighestCommon(versions, SUPPORTED);
  }

  class ClientSession {
    var instance: Option<InstanceId>
    var lastSequence: Option<u64>
    var seenEventIds: set<EventId>

    ghost function State(): Client
      reads this
    {
      Client(instance, lastSequence, seenEventIds)
    }

    constructor ()
      ensures State() == Client(None, None, {})
    {
      instance, lastSequence, seenEventIds := None, None, {};
    }

    method AcceptGreeting(greeting: Greeting, negotiated: u32) returns (r: Result<GreetingOutcome, IpcError>)
      modifies this
      ensures if GreetingValid(greeting, negotiated)
              then r == Ok(Greeted(old(State()), greeting.instance).0) && State() == Greeted(old(State()), greeting.instance).1
              else r == Err(Protocol) && State() == old(State())
      ensures r.Ok? <==> greeting.version == negotiated == 1
                         && (greeting.retained.None? || greeting.retained.value.first <= greeting.retained.value.through)
      ensures r.Ok? ==> instance == Some(greeting.instance)
      ensures r.Ok? && old(instance) == Some(greeting.instance) ==>
                r.value == Resumed && lastSequence == old(lastSequence) && seenEventIds == old(seenEventIds)
      ensures r.Ok? && old(instance) != Some(greeting.instance) ==>
                r.value == Restarted && lastSequence == None && seenEventIds == {}
    {
      if !SUPPORTED.Contains(greeting.version) {
        return Err(Protocol);
      }
      if greeting.retained.Some? && greeting.retained.value.first > greeting.retained.value.through {
        return Err(Protocol);
      }
      if greeting.version != negotiated {
        return Err(Protocol);
      }
      var outcome := Resumed;
      if instance != Some(greeting.instance) {
        lastSequence := None;
        seenEventIds := {};
        outcome := Restarted;
      }
      instance := Some(greeting.instance);
      return Ok(outcome);
    }

    method AcceptEvent(e: Event) returns (r: Result<EventDelivery, IpcError>)
      modifies this
      ensures if old(instance).None? then r == Err(SessionOrder) && State() == old(State())
              else (r == Ok(Accepted(old(State()), e).0) && State() == Accepted(old(State()), e).1)
    {
      if instance.None? {
        return Err(SessionOrder);
      }
      if e.id in seenEventIds {
        return Ok(Duplicate);
      }
      seenEventIds := seenEventIds + {e.id};
      if lastSequence.None? || e.sequence > lastSequence.value {
        lastSequence := Some(e.sequence);
      }
      return Ok(Applied(e.sequence));
    }
  }

  // ---- runs ----

  datatype World = World(
    instance: InstanceId,
    log: Log,
    history: seq<Event>,          // everything this Core instance ever sequenced
    connected: bool,
    subscribed: bool,
    queue: seq<Event>,            // in flight on the connection, in order
    client: Client,
    applied: seq<Event>,          // what the client applied since Core last restarted, over all connections
    usedIds: set<EventId>,
    usedInstances: set<InstanceId>)

  datatype Step =
    | Emit(id: EventId, body: Body)      // any connection or component sequences an event
    | Connect
    | Subscribe(boundaryId: EventId)
    | Deliver
    | Redeliver(index: nat)              // the transport repeats something the client already applied
    | Drop
    | Restart(newInstance: InstanceId)

  function Initial(instance: InstanceId, capacity: nat): World {
    World(instance, Log([], capacity, 1), [], false, false, [], Client(None, None, {}), [], {}, {instance})
  }

  /** Event ids and Core instances are never reused. */
  predicate Enabled(w: World, step: Step) {
    match step
    case Emit(id, _) => id !in w.usedIds
    case Connect => !w.connected
    case Subscribe(id) => w.connected && !w.subscribed && id !in w.usedIds
    case Deliver => w.connected && w.queue != []
    case Redeliver(i) => w.connected && i < |w.applied|
    case Drop => w.connected
    case Restart(i) => i !in w.usedInstances
  }

  /** The client takes one event off the connection. */
  function Taken(w: World, e: Event): World {
    var (d, c) := Accepted(w.client, e);
    w.(client := c, applied := if d.Applied? then w.applied + [e] else w.applied)
  }

  function Apply(w: World, step: Step): World {
    if !Enabled(w, step) then w
    else
      match step
      case Emit(id, body) =>
        var w' := w.(usedIds := w.usedIds + {id});
        (match Appended(w.log, id, body)
         case None => w'
         case Some((e, log)) =>
           w'.(log := log, history := w.history + [e], queue := if w.subscribed then w.queue + [e] else w.queue))
      case Connect =>
        w.(connected := true, subscribed := false, queue := [], client := Greeted(w.client, w.instance).1)
      case Subscribe(id) =>
        var w' := w.(usedIds := w.usedIds + {id}, subscribed := true);
        (match CatchUp(w.log, w.client.last, id)
         case None => w'
         case Some((d, log)) =>
           w'.(log := log, queue := d.Events(),
               history := if d.CatchUpNone? then w.history else w.history + [d.boundary]))
      case Deliver => Taken(w.(queue := w.queue[1..]), w.queue[0])
      case Redeliver(i) => Taken(w, w.applied[i])
      case Drop => w.(connected := false, subscribed := false, queue := [])
      case Restart(i) =>
        w.(instance := i, log := Log([], w.log.capacity, 1), history := [], connected := false,
           subscribed := false, queue := [], applied := [], usedInstances := w.usedInstances + {i})
  }

  function Exec(w: World, steps: seq<Step>): World
    decreases |steps|
  {
    if steps == [] then w else Exec(Apply(w, steps[0]), steps[1..])
  }

  // ---- the invariant ----

  predicate Linked(applied: seq<Event>) {
    forall i | 0 <= i < |applied| - 1 :: Follows(applied[i].sequence, applied[i + 1])
  }

  predicate DistinctIds(history: seq<Event>) {
    forall i, j | 0 <= i < j < |history| :: history[i].id != history[j].id
  }

  function IdsOf(events: seq<Event>): set<EventId> { set e | e in events :: e.id }

  function LastOf(applied: seq<Event>): Option<u64> {
    if applied == [] then None else Some(applied[|applied| - 1].sequence)
  }

  predicate CoreOk(w: World) {
    && Holds(w.log, w.history) && DistinctIds(w.history) && IdsOf(w.history) <= w.usedIds
    && w.instance in w.usedInstances
  }

  predicate ClientOk(w: World) {
    && Linked(w.applied) && (forall e | e in w.applied :: e in w.history)
    && (w.client.instance.Some? ==> w.client.instance.value in w.usedInstances)
    && (if w.client.instance == Some(w.instance) then w.client.seen == IdsOf(w.applied) && w.client.last == LastOf(w.applied)
        else w.applied == [])
  }

  predicate ConnectionOk(w: World) {
    && (w.connected ==> w.client.instance == Some(w.instance))
    && (w.subscribed ==> w.connected)
    && (!w.subscribed ==> w.queue == [])
    && Suffix(w.queue, w.history)
    && (w.subscribed && w.client.last.Some? ==>
          if w.queue == [] then w.client.last.value == |w.history| || |w.history| == U64_MAX - 1
          else Follows(w.client.last.value, w.queue[0]))
  }

  predicate Inv(w: World) { CoreOk(w) && ClientOk(w) && ConnectionOk(w) }

  // ---- every step keeps the invariant ----

  lemma {:induction false} LinkedRises(applied: seq<Event>, i: nat, j: nat)
    requires Linked(applied) && i < j < |applied|
    ensures applied[i].sequence < applied[j].sequence
    decreases j
  {
    assert Follows(applied[j - 1].sequence, applied[j]);
    if i < j - 1 {
      LinkedRises(applied, i, j - 1);
    }
  }

  lemma EmitKeepsInv(w: World, id: EventId, body: Body)
    requires Inv(w) && id !in w.usedIds
    ensures Inv(Apply(w, Emit(id, body)))
  {
    hide Holds, Suffix;
    AppendHolds(w.log, w.history, id, body);
    var w' := Apply(w, Emit(id, body));
    if Appended(w.log, id, body).Some? {
      var e := Appended(w.log, id, body).value.0;
      AppendIdOk(w.history, e, w.usedIds);
      SuffixGrows(w.queue, w.history, e);
      SuffixFrom(w'.history, |w'.history|);
    }
  }

  lemma AppendIdOk(history: seq<Event>, e: Event, used: set<EventId>)
    requires DistinctIds(history) && IdsOf(history) <= used && e.id !in used
    ensures DistinctIds(history + [e]) && IdsOf(history + [e]) <= used + {e.id}
  {
    forall i | 0 <= i < |history| ensures history[i].id != e.id {
      assert history[i].id in IdsOf(history);
    }
  }

  lemma ConnectKeepsInv(w: World)
    requires Inv(w) && !w.connected
    ensures Inv(Apply(w, Connect))
  {
    hide Holds, Suffix;
  }

  lemma SubscribeKeepsCore(w: World, id: EventId)
    requires Inv(w) && Enabled(w, Subscribe(id))
    ensures CoreOk(Apply(w, Subscribe(id)))
  {
    hide Holds, CatchUp, Linked, DistinctIds, IdsOf, ClientOk, ConnectionOk;
    CatchUpReachesTheEnd(w.log, w.history, w.client.last, id);
    if CatchUp(w.log, w.client.last, id).Some? {
      var d := CatchUp(w.log, w.client.last, id).value.0;
      if !d.CatchUpNone? {
        AppendIdOk(w.history, d.boundary, w.usedIds);
      }
    }
  }

  lemma SubscribeKeepsClient(w: World, id: EventId)
    requires Inv(w) && Enabled(w, Subscribe(id))
    ensures ClientOk(Apply(w, Subscribe(id)))
  {
    hide CoreOk, CatchUp, Linked, IdsOf;
  }

  lemma SubscribeKeepsConnection(w: World, id: EventId)
    requires Inv(w) && Enabled(w, Subscribe(id))
    ensures ConnectionOk(Apply(w, Subscribe(id)))
  {
    hide Holds, CatchUp, Linked, Follows, DistinctIds, IdsOf, Suffix;
    LastIsInHistory(w);
    hide ClientOk;
    CatchUpReachesTheEnd(w.log, w.history, w.client.last, id);
    SuffixFrom(w.history, |w.history|);
  }

  /** The last applied sequence is one this Core instance has sequenced. */
  lemma LastIsInHistory(w: World)
    requires Inv(w) && w.client.instance == Some(w.instance)
    ensures w.client.last.Some? ==> 1 <= w.client.last.value <= |w.history|
  {
    if w.applied != [] {
      assert w.applied[|w.applied| - 1] in w.history;
    }
  }

  lemma SameIdSameEvent(history: seq<Event>, a: Event, b: Event)
    requires DistinctIds(history) && a in history && b in history && a.id == b.id
    ensures a == b
  {
  }

  lemma AppliedUpToLast(applied: seq<Event>, a: Event)
    requires Linked(applied) && a in applied
    ensures a.sequence <= LastOf(applied).value
  {
    hide Linked;
    var i :| 0 <= i < |applied| && applied[i] == a;
    if i < |applied| - 1 {
      LinkedRises(applied, i, |applied| - 1);
    }
  }

  /** What is at the front of the connection has not been applied yet. */
  lemma NextIsNew(w: World)
    requires Inv(w) && Enabled(w, Deliver)
    ensures w.queue[0].id !in w.client.seen
    ensures w.client.last.Some? ==> Follows(w.client.last.value, w.queue[0])
  {
    hide Holds, Suffix, DistinctIds, Linked;
    var e := w.queue[0];
    SuffixShrinks(w.queue, w.history);
    if e.id in w.client.seen {
      var a :| a in w.applied && a.id == e.id;
      SameIdSameEvent(w.history, a, e);
      AppliedUpToLast(w.applied, a);
    }
  }

  /** Once the front has been taken, the next event in flight follows it. */
  lemma RestFollows(w: World)
    requires Inv(w) && Enabled(w, Deliver)
    ensures var rest := w.queue[1..];
            Suffix(rest, w.history)
            && if rest == [] then w.queue[0].sequence == |w.history| else Follows(w.queue[0].sequence, rest[0])
  {
    hide Holds, Suffix, DistinctIds, Linked, ClientOk;
    SuffixShrinks(w.queue, w.history);
    HoldsNumbered(w.log, w.history);
    if w.queue[1..] != [] {
      SuffixShrinks(w.queue[1..], w.history);
    }
  }

  lemma LinkedGrows(applied: seq<Event>, e: Event)
    requires Linked(applied) && (applied != [] ==> Follows(LastOf(applied).value, e))
    ensures Linked(applied + [e])
    ensures IdsOf(applied + [e]) == IdsOf(applied) + {e.id}
  {
  }

  lemma DeliverKeepsInv(w: World)
    requires Inv(w) && Enabled(w, Deliver)
    ensures Inv(Apply(w, Deliver))
  {
    NextIsNew(w);
    RestFollows(w);
    SuffixShrinks(w.queue, w.history);
    LinkedGrows(w.applied, w.queue[0]);
    hide Holds, Suffix, DistinctIds, Linked, IdsOf;
  }

  lemma RestartKeepsInv(w: World, i: InstanceId)
    requires Inv(w) && Enabled(w, Restart(i))
    ensures Inv(Apply(w, Restart(i)))
  {
    hide CatchUp, Appended;
    var w' := Apply(w, Restart(i));
    EmptyLogHolds(w.log.capacity);
    assert IdsOf([]) == {};
    SuffixFrom([], 0);
    assert w'.client.instance != Some(i);
    hide Holds, Suffix, DistinctIds, IdsOf;
  }

  lemma EmptyLogHolds(capacity: nat)
    requires capacity >= 1
    ensures Holds(Log([], capacity, 1), []) && DistinctIds([]) && Linked([])
  {
  }

  lemma DropKeepsInv(w: World)
    requires Inv(w) && Enabled(w, Drop)
    ensures Inv(Apply(w, Drop))
  {
    hide Holds, DistinctIds, Linked, IdsOf;
  }

  lemma RedeliverChangesNothing(w: World, i: nat)
    requires Inv(w) && Enabled(w, Redeliver(i))
    ensures Apply(w, Redeliver(i)) == w
  {
    assert w.applied[i].id in IdsOf(w.applied);
  }

  lemma StepKeepsInv(w: World, step: Step)
    requires Inv(w)
    ensures Inv(Apply(w, step))
  {
    hide CoreOk, ClientOk, ConnectionOk, CatchUp;
    if Enabled(w, step) {
      match step
      case Emit(id, body) => EmitKeepsInv(w, id, body);
      case Connect => ConnectKeepsInv(w);
      case Subscribe(id) =>
        SubscribeKeepsCore(w, id);
        SubscribeKeepsClient(w, id);
        SubscribeKeepsConnection(w, id);
      case Deliver => DeliverKeepsInv(w);
      case Redeliver(i) => RedeliverChangesNothing(w, i);
      case Drop => DropKeepsInv(w);
      case Restart(i) => RestartKeepsInv(w, i);
    }
  }

  lemma {:induction false} RunKeepsInv(w: World, steps: seq<Step>)
    requires Inv(w)
    ensures Inv(Exec(w, steps))
    decreases |steps|
  {
    hide Inv, Apply;
    if steps != [] {
      StepKeepsInv(w, steps[0]);
      RunKeepsInv(Apply(w, steps[0]), steps[1..]);
    }
  }

  lemma InitialInv(instance: InstanceId, capacity: nat)
    requires capacity >= 1
    ensures Inv(Initial(instance, capacity))
  {
  }

  /** What was applied is forgotten by a restart of Core and by nothing else. */
  lemma OnlyRestartForgets(w: World, step: Step)
    ensures w.applied <= Apply(w, step).applied || (step.Restart? && Enabled(w, step))
  {
    hide CatchUp, Appended;
  }

  // ---- what every run guarantees ----

  /** Sequence `s` was applied, and by one event only. */
  ghost predicate AppliedOnce(applied: seq<Event>, s: nat) {
    exists i | 0 <= i < |applied| ::
      applied[i].sequence == s && (forall j | 0 <= j < |applied| && applied[j].sequence == s :: j == i)
  }

  /** Some applied `stream.gap` announces that `s` was lost. */
  ghost predicate Announced(applied: seq<Event>, s: nat) {
    exists i | 0 <= i < |applied| :: applied[i].body.Gap? && applied[i].body.first <= s < applied[i].sequence
  }

  lemma AppliedIsOnce(applied: seq<Event>, i: nat)
    requires Linked(applied) && i < |applied|
    ensures AppliedOnce(applied, applied[i].sequence)
  {
    hide Linked;
    forall j | 0 <= j < |applied| && applied[j].sequence == applied[i].sequence ensures j == i {
      if j < i {
        LinkedRises(applied, j, i);
      } else if i < j {
        LinkedRises(applied, i, j);
      }
    }
  }

  /** Everything between the first and the last applied event was applied exactly once or announced as lost. */
  lemma {:induction false} LinkedCovers(applied: seq<Event>, k: nat, s: nat)
    requires Linked(applied) && k < |applied|
    requires applied[0].sequence <= s <= applied[k].sequence
    ensures AppliedOnce(applied, s) || Announced(applied, s)
    decreases k
  {
    if s == applied[k].sequence {
      AppliedIsOnce(applied, k);
    } else if s <= applied[k - 1].sequence {
      LinkedCovers(applied, k - 1, s);
    } else {
      assert Follows(applied[k - 1].sequence, applied[k]);
      assert applied[k].body.Gap? && applied[k].body.first <= s < applied[k].sequence;
    }
  }

  /**
   Over any number of connections, everything between the first and the last event applied since Core last
   restarted was applied exactly once or announced as lost, and the client's cursor is that last event.
   */
  lemma NothingIsLostSilently(instance: InstanceId, capacity: nat, steps: seq<Step>, s: nat)
    requires capacity >= 1
    ensures var w := Exec(Initial(instance, capacity), steps);
            && (w.client.instance == Some(w.instance) ==> w.client.last == LastOf(w.applied) && w.client.seen == IdsOf(w.applied))
            && (w.client.instance != Some(w.instance) ==> w.applied == [])
            && (w.applied != [] && w.applied[0].sequence <= s <= LastOf(w.applied).value ==>
                  AppliedOnce(w.applied, s) || Announced(w.applied, s))
  {
    hide Exec, Initial, Holds, Suffix, DistinctIds, Linked, IdsOf, Follows;
    InitialInv(instance, capacity);
    RunKeepsInv(Initial(instance, capacity), steps);
    var w := Exec(Initial(instance, capacity), steps);
    if w.applied != [] && w.applied[0].sequence <= s <= LastOf(w.applied).value {
      LinkedCovers(w.applied, |w.applied| - 1, s);
    }
  }

  /** A reconnect to the same Core keeps the client's place; a reconnect to another one starts it afresh. */
  lemma ReconnectKeepsThePlace(w: World)
    requires Inv(w) && !w.connected
    ensures var w' := Apply(w, Connect);
            && w'.applied == w.applied && w'.client.instance == Some(w.instance)
            && (w.client.instance == Some(w.instance) ==> w'.client.last == w.client.last && w'.client.seen == w.client.seen)
            && (w.client.instance != Some(w.instance) ==> w'.client.last == None && w'.client.seen == {})
  {
    ConnectKeepsInv(w);
    hide Holds, Suffix, Linked, DistinctIds;
    var w' := Apply(w, Connect);
    assert w'.applied == w.applied && ClientOk(w');
  }

  /** In every run each event taken off the connection is new to the client and is applied. */
  lemma DeliveryIsApplied(instance: InstanceId, capacity: nat, steps: seq<Step>)
    requires capacity >= 1
    ensures var w := Exec(Initial(instance, capacity), steps);
            Enabled(w, Deliver) ==>
              var w' := Apply(w, Deliver);
              && w'.applied == w.applied + [w.queue[0]] && w'.client.last == Some(w.queue[0].sequence)
              && w'.client.seen == w.client.seen + {w.queue[0].id} && w'.queue == w.queue[1..]
  {
    hide Exec, Initial, Holds, Suffix, DistinctIds, Linked, IdsOf;
    InitialInv(instance, capacity);
    RunKeepsInv(Initial(instance, capacity), steps);
    var w := Exec(Initial(instance, capacity), steps);
    if Enabled(w, Deliver) {
      NextIsNew(w);
    }
  }

  /** A subscribed client whose connection has drained has seen the newest event Core sequenced. */
  lemma DrainedClientIsCurrent(instance: InstanceId, capacity: nat, steps: seq<Step>)
    requires capacity >= 1
    ensures var w := Exec(Initial(instance, capacity), steps);
            w.subscribed && w.queue == [] && w.client.last.Some? && |w.history| < U64_MAX - 1 ==>
              w.client.last.value == |w.history|
  {
    hide Exec, Initial, Holds, Suffix, DistinctIds, Linked, IdsOf, Follows;
    InitialInv(instance, capacity);
    RunKeepsInv(Initial(instance, capacity), steps);
  }
}
