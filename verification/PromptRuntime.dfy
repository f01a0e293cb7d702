/** How one prompt attempt is classified. */
module PromptDeliveries {
  import opened Bytes

  datatype DeliveryState = Absent | Confirmed | Indeterminate | Rejected
  datatype DeliveryCause = ProcessExited | IdleTimeout
  datatype DeliveryError = NothingOutstanding | AlreadyOutstanding

  datatype Delivery = Delivery(state: DeliveryState, outstanding: bool, cause: Option<DeliveryCause>) {
    predicate MayResend() { state == Absent || state == Rejected }
  }

  const NOT_SENT: Delivery := Delivery(Absent, false, None)

  function Written(d: Delivery): Result<Delivery, DeliveryError> {
    if d.outstanding then Err(AlreadyOutstanding) else Ok(d.(outstanding := true, state := Indeterminate))
  }

  function Settled(d: Delivery, verdict: DeliveryState): Result<Delivery, DeliveryError> {
    if !d.outstanding then Err(NothingOutstanding) else Ok(d.(outstanding := false, state := verdict))
  }

  function Lost(d: Delivery, cause: DeliveryCause): Result<Delivery, DeliveryError> {
    if !d.outstanding then Err(NothingOutstanding)
    else Ok(Delivery(Indeterminate, false, Some(cause)))
  }

  class PromptDelivery {
    var state: DeliveryState
    var outstanding: bool
    var cause: Option<DeliveryCause>

    ghost function Value(): Delivery
      reads this
    {
      Delivery(state, outstanding, cause)
    }

    constructor NotSent()
      ensures Value() == NOT_SENT
    {
      state, outstanding, cause := Absent, false, None;
    }

    method MarkWritten() returns (r: Result<(), DeliveryError>)
      modifies this
      ensures match Written(old(Value()))
              case Ok(d) => r == Ok(()) && Value() == d
              case Err(e) => r == Err(e) && Value() == old(Value())
    {
      if outstanding {
        return Err(AlreadyOutstanding);
      }
      outstanding := true;
      state := Indeterminate;
      return Ok(());
    }

    method Settle(verdict: DeliveryState) returns (r: Result<(), DeliveryError>)
      modifies this
      ensures match Settled(old(Value()), verdict)
              case Ok(d) => r == Ok(()) && Value() == d
              case Err(e) => r == Err(e) && Value() == old(Value())
    {
      if !outstanding {
        return Err(NothingOutstanding);
      }
      outstanding := false;
      state := verdict;
      return Ok(());
    }

    method OnConnectionLost(cause: DeliveryCause) returns (r: Result<(), DeliveryError>)
      modifies this
      ensures match Lost(old(Value()), cause)
              case Ok(d) => r == Ok(()) && Value() == d
              case Err(e) => r == Err(e) && Value() == old(Value())
    {
      if !outstanding {
        return Err(NothingOutstanding);
      }
      this.cause := Some(cause);
      r := Settle(Indeterminate);
    }
  }

  // ---- runs of reports ----

  datatype Report = Wrote | Judged(verdict: DeliveryState) | LostWith(reason: DeliveryCause)

  function Reported(d: Delivery, report: Report): Result<Delivery, DeliveryError> {
    match report
    case Wrote => Written(d)
    case Judged(v) => Settled(d, v)
    case LostWith(c) => Lost(d, c)
  }

  /** Which reports are accepted, in order. */
  function Acceptances(d: Delivery, reports: seq<Report>): (a: seq<bool>)
    ensures |a| == |reports|
    decreases |reports|
  {
    if reports == [] then []
    else
      var r := Reported(d, reports[0]);
      [r.Ok?] + Acceptances(if r.Ok? then r.value else d, reports[1..])
  }

  function AfterReports(d: Delivery, reports: seq<Report>): Delivery
    decreases |reports|
  {
    if reports == [] then d
    else
      var r := Reported(d, reports[0]);
      AfterReports(if r.Ok? then r.value else d, reports[1..])
  }

  /** The latest accepted report, `latest` being the one from before. */
  function LatestReport(latest: Option<Report>, reports: seq<Report>, accepted: seq<bool>): Option<Report>
    requires |reports| == |accepted|
    decreases |reports|
  {
    if reports == [] then latest
    else LatestReport(if accepted[0] then Some(reports[0]) else latest, reports[1..], accepted[1..])
  }

  /** The attempt shows the latest accepted report. */
  predicate Shows(d: Delivery, latest: Option<Report>) {
    match latest
    case None => d == NOT_SENT
    case Some(Wrote) => d.outstanding && d.state == Indeterminate
    case Some(Judged(v)) => !d.outstanding && d.state == v
    case Some(LostWith(c)) => !d.outstanding && d.state == Indeterminate && d.cause == Some(c)
  }

  /**
   Over any reports: a write is accepted unless one is outstanding, a verdict or a loss only for an
   outstanding write, and the attempt always shows the latest accepted report.
   */
  lemma {:induction false} ReportsAreExact(d: Delivery, latest: Option<Report>, reports: seq<Report>, j: nat)
    requires Shows(d, latest) && j <= |reports|
    ensures var accepted := Acceptances(d, reports);
            && Shows(AfterReports(d, reports), LatestReport(latest, reports, accepted))
            && (j < |reports| ==>
                  (accepted[j] <==> reports[j].Wrote? != (LatestReport(latest, reports[..j], accepted[..j]) == Some(Wrote))))
    decreases |reports|
  {
    if reports != [] {
      var r := Reported(d, reports[0]);
      var d' := if r.Ok? then r.value else d;
      var latest' := if r.Ok? then Some(reports[0]) else latest;
      var accepted := Acceptances(d, reports);
      assert accepted[1..] == Acceptances(d', reports[1..]);
      ReportsAreExact(d', latest', reports[1..], if j > 0 then j - 1 else 0);
      if 0 < j < |reports| {
        assert reports[..j][1..] == reports[1..][..j - 1] && accepted[..j][1..] == accepted[1..][..j - 1];
      }
    }
  }
}

/** The prompt loop: one prompt, read to its end, driving the lifecycle and the delivery tracker. */
module PromptRuntimes {
  import opened Bytes
  import opened AgentLifecycles
  import opened PromptDeliveries

  /** What the host writes to the agent. */
  datatype Line =
    | PromptLine(id: RpcId)
    | CancelLine
    | PermissionReply(id: RpcId, granted: bool)
    | RefusalLine(id: RpcId)

  datatype Message =
    | Response(id: RpcId, wellFormed: bool)          // whether the result parses as a prompt result
    | ErrorResponse(id: RpcId)
    | PermissionRequest(id: RpcId, wellFormed: bool) // whether the params match the v1 shape
    | OtherRequest(id: RpcId)
    | Notification(wellFormed: bool)

  datatype Read = ReadError | TimedOut | EndOfStream | Garbled | Received(message: Message)

  datatype PermissionVerdict = HandlerError | Granted | NoOutcome

  /** Everything one loop iteration takes from outside. */
  datatype LoopInput = LoopInput(signal: bool, read: Read, handlerCancels: bool, verdict: PermissionVerdict)

  datatype Exit =
    | NoActiveSession
    | WriteFailed
    | CancelFailed
    | ReadFailed
    | UnexpectedEof
    | MalformedLine
    | MalformedMessage
    | RefusedOrder
    | PermissionHandlerFailed
    | ResultMalformed
    | Completed
    | RpcFailed

  /** `lines` are the writes attempted and `inbox` the reads made, in order. */
  datatype Runtime = Runtime(delivery: Delivery, phase: Phase, awaiting: set<RpcId>, lines: seq<Line>, inbox: seq<Read>)

  /** Whether the k-th write of this transport succeeds. */
  type WriteOracle = nat -> bool

  predicate Normalizes(m: Message) {
    match m
    case PermissionRequest(_, wellFormed) => wellFormed
    case Notification(wellFormed) => wellFormed
    case _ => true
  }

  function Write(ok: WriteOracle, rt: Runtime, line: Line): (bool, Runtime) {
    (ok(|rt.lines|), rt.(lines := rt.lines + [line]))
  }

  /** Host actions a cancel or a late permission can produce, as writes; the first failure stops. */
  function Execute(ok: WriteOracle, rt: Runtime, actions: seq<HostAction>): (bool, Runtime)
    decreases |actions|
  {
    if actions == [] then (true, rt)
    else
      match actions[0]
      case SendCancelNotification =>
        var (done, rt') := Write(ok, rt, CancelLine);
        if done then Execute(ok, rt', actions[1..]) else (false, rt')
      case AnswerPermissionCancelled(id) =>
        var (done, rt') := Write(ok, rt, PermissionReply(id, false));
        if done then Execute(ok, rt', actions[1..]) else (false, rt')
      case _ => Execute(ok, rt, actions[1..])
  }

  function TriggerCancel(ok: WriteOracle, rt: Runtime): (bool, Runtime) {
    var (phase, r) := Step(rt.phase, CancelRequested);
    if r.Err? then (false, rt) else Execute(ok, rt.(phase := phase), r.value)
  }

  /** Both machines are told that the agent is gone. */
  function ConnectionLost(rt: Runtime): Runtime {
    var d := Lost(rt.delivery, ProcessExited);
    rt.(delivery := if d.Ok? then d.value else rt.delivery, phase := Step(rt.phase, ProcessLost).0)
  }

  /** A verdict for the prompt itself: `last` is the exit when both machines agree a turn was open. */
  function SettleWith(rt: Runtime, id: RpcId, verdict: DeliveryState, last: Exit): (Option<Exit>, Runtime) {
    var rt := rt.(awaiting := rt.awaiting - {id});
    match Settled(rt.delivery, verdict)
    case Err(_) => (Some(RefusedOrder), rt)
    case Ok(d) =>
      var rt := rt.(delivery := d);
      var (phase, r) := Step(rt.phase, PromptSettled);
      (Some(if r.Err? then RefusedOrder else last), rt.(phase := phase))
  }

  function HandlePermission(ok: WriteOracle, rt: Runtime, id: RpcId, verdict: PermissionVerdict): (Option<Exit>, Runtime) {
    var (phase, r) := Step(rt.phase, PermissionRequested(id));
    if r.Err? then (Some(RefusedOrder), rt)
    else
      var rt := rt.(phase := phase);
      if r.value == [AnswerPermissionCancelled(id)] then
        var (done, rt') := Write(ok, rt, PermissionReply(id, false));
        (if done then None else Some(WriteFailed), rt')
      else if verdict.HandlerError? then (Some(PermissionHandlerFailed), rt)
      else
        var (done, rt') := Write(ok, rt, PermissionReply(id, verdict.Granted?));
        (if done then None else Some(WriteFailed), rt')
  }

  /** `None` means the loop goes round again. */
  function Handle(ok: WriteOracle, prompt: RpcId, rt: Runtime, m: Message, verdict: PermissionVerdict): (Option<Exit>, Runtime) {
    match m
    case Response(id, wellFormed) =>
      if id == prompt then SettleWith(rt, id, Confirmed, if wellFormed then Completed else ResultMalformed) else (None, rt)
    case ErrorResponse(id) =>
      if id == prompt then SettleWith(rt, id, Rejected, RpcFailed) else (None, rt)
    case PermissionRequest(id, _) => HandlePermission(ok, rt, id, verdict)
    case OtherRequest(id) =>
      var (done, rt') := Write(ok, rt, RefusalLine(id));
      (if done then None else Some(WriteFailed), rt')
    case Notification(_) => (None, rt)
  }

  /** The iteration from a received message on; the event handler may ask for a cancel. */
  function Process(ok: WriteOracle, prompt: RpcId, rt: Runtime, cancelSent: bool, m: Message, input: LoopInput)
    : (Option<Exit>, Runtime, bool)
  {
    if !Normalizes(m) then (Some(MalformedMessage), rt, cancelSent)
    else
      var asks := input.handlerCancels && !cancelSent;
      var (done, rt') := if asks then TriggerCancel(ok, rt) else (true, rt);
      if !done then (Some(CancelFailed), rt', cancelSent)
      else
        var (exit, rt'') := Handle(ok, prompt, rt', m, input.verdict);
        (exit, rt'', cancelSent || asks)
  }

  function Iterate(ok: WriteOracle, prompt: RpcId, rt: Runtime, cancelSent: bool, input: LoopInput)
    : (Option<Exit>, Runtime, bool)
  {
    var asks := input.signal && !cancelSent;
    var (done, rt) := if asks then TriggerCancel(ok, rt) else (true, rt);
    if !done then (Some(CancelFailed), rt, cancelSent)
    else
      var sent := cancelSent || asks;
      var rt := rt.(inbox := rt.inbox + [input.read]);
      match input.read
      case ReadError => (Some(ReadFailed), ConnectionLost(rt), sent)
      case TimedOut => (None, rt, sent)
      case EndOfStream => (Some(UnexpectedEof), ConnectionLost(rt), sent)
      case Garbled => (Some(MalformedLine), ConnectionLost(rt), sent)
      case Received(m) => Process(ok, prompt, rt, sent, m, input)
  }

  /** The loop over as many iterations as the environment provides; `None` is a loop still waiting. */
  function Loop(ok: WriteOracle, prompt: RpcId, rt: Runtime, cancelSent: bool, inputs: seq<LoopInput>): (Option<Exit>, Runtime)
    decreases |inputs|
  {
    if inputs == [] then (None, rt)
    else
      var (exit, rt', sent) := Iterate(ok, prompt, rt, cancelSent, inputs[0]);
      if exit.Some? then (exit, rt') else Loop(ok, prompt, rt', sent, inputs[1..])
  }

  /** The state when the prompt line goes to the transport: it already counts as written. */
  function Begun(rt: Runtime, prompt: RpcId): Runtime {
    rt.(awaiting := rt.awaiting + {prompt}, delivery := NOT_SENT.(outstanding := true, state := Indeterminate),
        phase := Step(rt.phase, PromptWritten).0)
  }

  function Prompt(ok: WriteOracle, rt: Runtime, prompt: RpcId, inputs: seq<LoopInput>): (Option<Exit>, Runtime) {
    var (done, rt') := Write(ok, Begun(rt, prompt), PromptLine(prompt));
    if !done then (Some(WriteFailed), rt') else Loop(ok, prompt, rt', false, inputs)
  }

  // ---- the object ----

  class AcpRuntime {
    const ok: WriteOracle
    const lifecycle: AgentLifecycle
    const sessionActive: bool
    var delivery: PromptDelivery
    var awaiting: set<RpcId>
    var lines: seq<Line>
    var inbox: seq<Read>

    ghost function State(): Runtime
      reads this, lifecycle, delivery
    {
      Runtime(delivery.Value(), lifecycle.phase, awaiting, lines, inbox)
    }

    constructor (ok: WriteOracle, sessionActive: bool)
      ensures State() == Runtime(NOT_SENT, Ready, {}, [], [])
      ensures fresh(lifecycle) && fresh(delivery) && this.ok == ok && this.sessionActive == sessionActive
    {
      this.ok := ok;
      lifecycle := new AgentLifecycle.Spawned();
      delivery := new PromptDelivery.NotSent();
      awaiting, lines, inbox, this.sessionActive := {}, [], [], sessionActive;
    }

    method WriteLine(line: Line) returns (done: bool)
      modifies this`lines
      ensures (done, State()) == Write(ok, old(State()), line)
    {
      done := ok(|lines|);
      lines := lines + [line];
    }

    method Cancel() returns (done: bool)
      modifies this`lines, lifecycle
      ensures (done, State()) == TriggerCancel(ok, old(State()))
    {
      var r := lifecycle.OnCancelRequested();
      if r.Err? {
        return false;
      }
      var i := 0;
      ghost var start := State();
      while i < |r.value|
        invariant 0 <= i <= |r.value|
        invariant Execute(ok, start, r.value) == Execute(ok, State(), r.value[i..])
        invariant State() == start.(lines := lines)
      {
        assert r.value[i..][1..] == r.value[i + 1..];
        done := true;
        match r.value[i] {
          case SendCancelNotification => done := WriteLine(CancelLine);
          case AnswerPermissionCancelled(id) => done := WriteLine(PermissionReply(id, false));
          case _ =>
        }
        if !done {
          return false;
        }
        i := i + 1;
      }
      return true;
    }

    method MarkConnectionLost()
      modifies lifecycle, delivery
      ensures State() == ConnectionLost(old(State()))
    {
      var _ := delivery.OnConnectionLost(ProcessExited);
      var _ := lifecycle.OnProcessLost();
    }

    method SettlePrompt(id: RpcId, verdict: DeliveryState, last: Exit) returns (exit: Option<Exit>)
      modifies this`awaiting, lifecycle, delivery
      ensures (exit, State()) == SettleWith(old(State()), id, verdict, last)
    {
      hide Answers;
      awaiting := awaiting - {id};
      ghost var rt := State();
      var r := delivery.Settle(verdict);
      if r.Err? {
        assert State() == rt;
        return Some(RefusedOrder);
      }
      assert State() == rt.(delivery := delivery.Value());
      var settled := lifecycle.OnPromptSettled();
      assert State() == rt.(delivery := delivery.Value(), phase := lifecycle.phase);
      return Some(if settled.Err? then RefusedOrder else last);
    }

    method AnswerPermission(id: RpcId, verdict: PermissionVerdict) returns (exit: Option<Exit>)
      modifies this`lines, lifecycle
      ensures (exit, State()) == HandlePermission(ok, old(State()), id, verdict)
    {
      var actions := lifecycle.OnPermissionRequested(id);
      if actions.Err? {
        return Some(RefusedOrder);
      }
      var done;
      if actions.value == [AnswerPermissionCancelled(id)] {
        done := WriteLine(PermissionReply(id, false));
      } else if verdict.HandlerError? {
        return Some(PermissionHandlerFailed);
      } else {
        done := WriteLine(PermissionReply(id, verdict.Granted?));
      }
      return if done then None else Some(WriteFailed);
    }

    method HandleMessage(prompt: RpcId, m: Message, verdict: PermissionVerdict) returns (exit: Option<Exit>)
      modifies this`awaiting, this`lines, lifecycle, delivery
      ensures (exit, State()) == Handle(ok, prompt, old(State()), m, verdict)
    {
      exit := None;
      match m {
        case Response(id, wellFormed) =>
          if id == prompt {
            exit := SettlePrompt(id, Confirmed, if wellFormed then Completed else ResultMalformed);
          }
        case ErrorResponse(id) =>
          if id == prompt {
            exit := SettlePrompt(id, Rejected, RpcFailed);
          }
        case PermissionRequest(id, _) =>
          exit := AnswerPermission(id, verdict);
        case OtherRequest(id) =>
          var done := WriteLine(RefusalLine(id));
          exit := if done then None else Some(WriteFailed);
        case Notification(_) =>
      }
    }

    /** One turn of the read loop. */
    method LoopBody(prompt: RpcId, cancelSent: bool, input: LoopInput) returns (exit: Option<Exit>, sent: bool)
      modifies this`awaiting, this`lines, this`inbox, lifecycle, delivery
      ensures (exit, State(), sent) == Iterate(ok, prompt, old(State()), cancelSent, input)
    {
      hide Answers, TriggerCancel, Handle;
      sent := cancelSent;
      if !sent && input.signal {
        var done := Cancel();
        if !done {
          return Some(CancelFailed), sent;
        }
        sent := true;
      }
      inbox := inbox + [input.read];
      match input.read {
        case ReadError =>
          MarkConnectionLost();
          return Some(ReadFailed), sent;
        case TimedOut =>
          return None, sent;
        case EndOfStream =>
          MarkConnectionLost();
          return Some(UnexpectedEof), sent;
        case Garbled =>
          MarkConnectionLost();
          return Some(MalformedLine), sent;
        case Received(m) =>
          if !Normalizes(m) {
            return Some(MalformedMessage), sent;
          }
          if input.handlerCancels && !sent {
            var done := Cancel();
            if !done {
              return Some(CancelFailed), sent;
            }
            sent := true;
          }
          exit := HandleMessage(prompt, m, input.verdict);
      }
    }

    method PromptWithHandlers(prompt: RpcId, inputs: seq<LoopInput>) returns (exit: Option<Exit>)
      modifies this, lifecycle
      ensures if sessionActive then (exit, State()) == Prompt(ok, old(State()), prompt, inputs) && fresh(delivery)
              else exit == Some(NoActiveSession) && State() == old(State())
    {
      if !sessionActive {
        return Some(NoActiveSession);
      }
      awaiting := awaiting + {prompt};
      delivery := new PromptDelivery.NotSent();
      var _ := delivery.MarkWritten();
      lifecycle.OnPromptWritten();
      assert State() == Begun(old(State()), prompt);
      var done := WriteLine(PromptLine(prompt));
      if !done {
        return Some(WriteFailed);
      }
      var cancelSent, i := false, 0;
      ghost var start := State();
      while i < |inputs|
        invariant 0 <= i <= |inputs| && fresh(delivery)
        invariant Loop(ok, prompt, start, false, inputs) == Loop(ok, prompt, State(), cancelSent, inputs[i..])
      {
        assert inputs[i..][1..] == inputs[i + 1..];
        exit, cancelSent := LoopBody(prompt, cancelSent, inputs[i]);
        if exit.Some? {
          return exit;
        }
        i := i + 1;
      }
      return None;
    }
  }
}
