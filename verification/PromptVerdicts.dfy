/** Which permissions a prompt call grants, and how it ends, in terms of what it read and what the handlers said. */
module PromptVerdicts {
  import opened Bytes
  import opened AgentLifecycles
  import opened PromptRuntimes
  import opened PromptRuns
  import opened PromptReplies

  // ---- grants ----

  function GrantTo(id: RpcId): Line -> bool { (line: Line) => line.PermissionReply? && line.id == id && line.granted }

  /** The iteration reads a request for `id` and the handler grants it. */
  function GrantedBy(input: LoopInput, id: RpcId): nat {
    if input.read == Received(PermissionRequest(id, true)) && input.verdict == Granted then 1 else 0
  }

  /** Such iterations among the first `m`, up to the first that asks for a cancel. */
  function GrantsDue(inputs: seq<LoopInput>, m: nat, id: RpcId): nat
    requires m <= |inputs|
  {
    if m == 0 || AsksCancel(inputs[0]) then 0 else GrantedBy(inputs[0], id) + GrantsDue(inputs[1..], m - 1, id)
  }

  /** Lines that a cancel never writes. */
  ghost predicate NotByCancel(what: Line -> bool) {
    !what(CancelLine) && forall x :: !what(PermissionReply(x, false))
  }

  lemma {:induction false} ExecuteWritesNo(ok: WriteOracle, rt: Runtime, actions: seq<HostAction>, what: Line -> bool)
    requires NotByCancel(what)
    ensures Count(Execute(ok, rt, actions).1.lines, what) == Count(rt.lines, what)
    decreases |actions|
  {
    hide Count;
    if actions != [] {
      match actions[0]
      case SendCancelNotification =>
        CountAppend(rt.lines, CancelLine, what);
        ExecuteWritesNo(ok, Write(ok, rt, CancelLine).1, actions[1..], what);
      case AnswerPermissionCancelled(x) =>
        CountAppend(rt.lines, PermissionReply(x, false), what);
        ExecuteWritesNo(ok, Write(ok, rt, PermissionReply(x, false)).1, actions[1..], what);
      case _ =>
        ExecuteWritesNo(ok, rt, actions[1..], what);
    }
  }

  lemma CancelWritesNo(ok: WriteOracle, rt: Runtime, what: Line -> bool)
    requires NotByCancel(what)
    ensures Count(TriggerCancel(ok, rt).1.lines, what) == Count(rt.lines, what)
  {
    hide Count, Answers, Execute;
    if rt.phase.Prompting? {
      ExecuteWritesNo(ok, rt.(phase := Cancelling([])), [SendCancelNotification] + Answers(rt.phase.pending), what);
    }
  }

  lemma CancelGrantsNothing(ok: WriteOracle, rt: Runtime, id: RpcId)
    ensures Count(TriggerCancel(ok, rt).1.lines, GrantTo(id)) == Count(rt.lines, GrantTo(id))
    ensures TriggerCancel(ok, rt).0 ==> !TriggerCancel(ok, rt).1.phase.Prompting?
  {
    hide Count, TriggerCancel;
    CancelReplies(ok, rt, id);
    CancelWritesNo(ok, rt, GrantTo(id));
  }

  lemma PermissionGrants(ok: WriteOracle, rt: Runtime, x: RpcId, verdict: PermissionVerdict, id: RpcId)
    ensures var (exit, rt') := HandlePermission(ok, rt, x, verdict);
            Count(rt'.lines, GrantTo(id)) == Count(rt.lines, GrantTo(id))
                                             + if rt.phase.Prompting? && x == id && verdict == Granted then 1 else 0
  {
    hide Count, Answers;
    CountAppend(rt.lines, PermissionReply(x, false), GrantTo(id));
    CountAppend(rt.lines, PermissionReply(x, true), GrantTo(id));
  }

  lemma HandleGrants(ok: WriteOracle, prompt: RpcId, rt: Runtime, m: Message, input: LoopInput, id: RpcId)
    requires Normalizes(m) && input.read == Received(m)
    ensures var (exit, rt') := Handle(ok, prompt, rt, m, input.verdict);
            && Count(rt'.lines, GrantTo(id)) == Count(rt.lines, GrantTo(id))
                                                + (if rt.phase.Prompting? then GrantedBy(input, id) else 0)
            && (exit.None? ==> rt'.phase.Prompting? == rt.phase.Prompting?)
  {
    HandleReplies(ok, prompt, rt, m, input.verdict, id);
    hide Count, HandlePermission;
    match m
    case PermissionRequest(x, _) => PermissionGrants(ok, rt, x, input.verdict, id);
    case OtherRequest(x) => CountAppend(rt.lines, RefusalLine(x), GrantTo(id));
    case _ =>
  }

  predicate IterationGrants(rt: Runtime, sent: bool, input: LoopInput, exit: Option<Exit>, rt': Runtime, id: RpcId) {
    && Count(rt'.lines, GrantTo(id)) == Count(rt.lines, GrantTo(id))
         + (if rt.phase.Prompting? && (sent || !AsksCancel(input)) then GrantedBy(input, id) else 0)
    && (exit.None? && (sent || !AsksCancel(input)) ==> rt'.phase.Prompting? == rt.phase.Prompting?)
    && (exit.None? && !sent && AsksCancel(input) ==> !rt'.phase.Prompting?)
    && (exit.None? ==> rt'.inbox == rt.inbox + [input.read])
    && (rt'.inbox == rt.inbox + [input.read] || (rt'.inbox == rt.inbox && !sent && AsksCancel(input)))
  }

  lemma ProcessGrants(ok: WriteOracle, prompt: RpcId, rt: Runtime, sent: bool, m: Message, input: LoopInput, id: RpcId)
    requires input.read == Received(m) && (sent || !input.signal)
    ensures var (exit, rt', _) := Process(ok, prompt, rt.(inbox := rt.inbox + [input.read]), sent, m, input);
            IterationGrants(rt, sent, input, exit, rt', id)
  {
    hide TriggerCancel, Handle, Count;
    if Normalizes(m) {
      var rt0 := rt.(inbox := rt.inbox + [input.read]);
      CancelGrantsNothing(ok, rt0, id);
      TriggerCancelFrame(ok, rt0);
      var (done, rt1) := if input.handlerCancels && !sent then TriggerCancel(ok, rt0) else (true, rt0);
      if done {
        HandleGrants(ok, prompt, rt1, m, input, id);
        HandleFrame(ok, prompt, rt1, m, input.verdict);
      }
    }
  }

  /** One iteration grants exactly when the handler does, on a request, in a turn that nobody asked to cancel. */
  lemma IterateGrants(ok: WriteOracle, prompt: RpcId, rt: Runtime, sent: bool, input: LoopInput, id: RpcId)
    ensures var (exit, rt', _) := Iterate(ok, prompt, rt, sent, input);
            IterationGrants(rt, sent, input, exit, rt', id)
  {
    hide TriggerCancel, Process, Count;
    CancelGrantsNothing(ok, rt, id);
    TriggerCancelFrame(ok, rt);
    var asks := input.signal && !sent;
    var (done, rt1) := if asks then TriggerCancel(ok, rt) else (true, rt);
    if done && input.read.Received? {
      ProcessGrants(ok, prompt, rt1, sent || asks, input.read.message, input, id);
    }
  }

  predicate LoopGrants(rt: Runtime, inputs: seq<LoopInput>, rt': Runtime, id: RpcId) {
    var m := |rt'.inbox| - |rt.inbox|;
    && 0 <= m <= |inputs|
    && Count(rt'.lines, GrantTo(id)) == Count(rt.lines, GrantTo(id))
         + if rt.phase.Prompting? then GrantsDue(inputs, m, id) else 0
  }

  /** Once the turn is not open for requests any more, nothing is granted. */
  lemma {:induction false} ClosedLoopGrantsNothing(ok: WriteOracle, prompt: RpcId, rt: Runtime, sent: bool, inputs: seq<LoopInput>, id: RpcId)
    requires !rt.phase.Prompting?
    ensures var rt' := Loop(ok, prompt, rt, sent, inputs).1;
            && Count(rt'.lines, GrantTo(id)) == Count(rt.lines, GrantTo(id))
            && 0 <= |rt'.inbox| - |rt.inbox| <= |inputs|
    decreases |inputs|
  {
    hide Iterate, Count, AsksCancel, GrantedBy;
    if inputs != [] {
      IterateGrants(ok, prompt, rt, sent, inputs[0], id);
      var (exit, rt', sent') := Iterate(ok, prompt, rt, sent, inputs[0]);
      if exit.None? {
        ClosedLoopGrantsNothing(ok, prompt, rt', sent', inputs[1..], id);
      }
    }
  }

  lemma {:induction false} LoopGrantsOk(ok: WriteOracle, prompt: RpcId, rt: Runtime, inputs: seq<LoopInput>, id: RpcId)
    ensures LoopGrants(rt, inputs, Loop(ok, prompt, rt, false, inputs).1, id)
    decreases |inputs|
  {
    hide Count, Iterate, AsksCancel, GrantedBy;
    if !rt.phase.Prompting? {
      ClosedLoopGrantsNothing(ok, prompt, rt, false, inputs, id);
    } else if inputs != [] {
      IterateGrants(ok, prompt, rt, false, inputs[0], id);
      IterateSends(ok, prompt, rt, inputs[0], id);
      var (exit, rt', sent') := Iterate(ok, prompt, rt, false, inputs[0]);
      if exit.None? && AsksCancel(inputs[0]) {
        ClosedLoopGrantsNothing(ok, prompt, rt', sent', inputs[1..], id);
      } else if exit.None? {
        LoopGrantsOk(ok, prompt, rt', inputs[1..], id);
      } else {
        assert GrantsDue(inputs[1..], 0, id) == 0;
      }
    }
  }

  lemma IterateSends(ok: WriteOracle, prompt: RpcId, rt: Runtime, input: LoopInput, id: RpcId)
    ensures var (exit, _, sent') := Iterate(ok, prompt, rt, false, input);
            exit.None? ==> sent' == AsksCancel(input)
  {
    hide Iterate;
    IterateReplies(ok, prompt, rt, false, input, id);
  }

  /**
   On every transport and trace, and for every id: the call writes one granting reply for each request read
   before the first cancel request whose handler verdict was a grant, and no other.
   */
  lemma GrantsAreTheHandlers(ok: WriteOracle, rt: Runtime, prompt: RpcId, inputs: seq<LoopInput>, id: RpcId)
    ensures var rt' := Prompt(ok, rt, prompt, inputs).1;
            var m := |rt'.inbox| - |rt.inbox|;
            && 0 <= m <= |inputs|
            && Count(rt'.lines, GrantTo(id)) - Count(rt.lines, GrantTo(id))
               == if CancellableStart(rt.phase) then GrantsDue(inputs, m, id) else 0
  {
    hide Loop, Count;
    var (done, rt1) := Write(ok, Begun(rt, prompt), PromptLine(prompt));
    CountAppend(rt.lines, PromptLine(prompt), GrantTo(id));
    if done {
      LoopGrantsOk(ok, prompt, rt1, inputs, id);
    }
  }

  // ---- refusals of other requests ----

  function RefusalTo(id: RpcId): Line -> bool { (line: Line) => line == RefusalLine(id) }

  /** The requests for something the host does not offer, among the first `m` reads. */
  function OthersIn(inputs: seq<LoopInput>, m: nat, id: RpcId): nat
    requires m <= |inputs|
  {
    if m == 0 then 0
    else (if inputs[0].read == Received(OtherRequest(id)) then 1 else 0) + OthersIn(inputs[1..], m - 1, id)
  }

  lemma HandleRefuses(ok: WriteOracle, prompt: RpcId, rt: Runtime, m: Message, verdict: PermissionVerdict, id: RpcId)
    ensures Count(Handle(ok, prompt, rt, m, verdict).1.lines, RefusalTo(id))
            == Count(rt.lines, RefusalTo(id)) + if m == OtherRequest(id) then 1 else 0
  {
    hide Count, Answers;
    match m
    case PermissionRequest(x, _) =>
      CountAppend(rt.lines, PermissionReply(x, false), RefusalTo(id));
      CountAppend(rt.lines, PermissionReply(x, verdict.Granted?), RefusalTo(id));
    case OtherRequest(x) => CountAppend(rt.lines, RefusalLine(x), RefusalTo(id));
    case _ =>
  }

  lemma IterateRefuses(ok: WriteOracle, prompt: RpcId, rt: Runtime, sent: bool, input: LoopInput, id: RpcId)
    ensures var (exit, rt', _) := Iterate(ok, prompt, rt, sent, input);
            exit != Some(CancelFailed) ==>
              && rt'.inbox == rt.inbox + [input.read]
              && Count(rt'.lines, RefusalTo(id))
                 == Count(rt.lines, RefusalTo(id)) + if input.read == Received(OtherRequest(id)) then 1 else 0
  {
    hide TriggerCancel, Handle, Count;
    CancelWritesNo(ok, rt, RefusalTo(id));
    TriggerCancelFrame(ok, rt);
    var asks := input.signal && !sent;
    var (done, rt1) := if asks then TriggerCancel(ok, rt) else (true, rt);
    if done && input.read.Received? && Normalizes(input.read.message) {
      var rt2 := rt1.(inbox := rt1.inbox + [input.read]);
      CancelWritesNo(ok, rt2, RefusalTo(id));
      TriggerCancelFrame(ok, rt2);
      var (done', rt3) := if input.handlerCancels && !(sent || asks) then TriggerCancel(ok, rt2) else (true, rt2);
      if done' {
        HandleRefuses(ok, prompt, rt3, input.read.message, input.verdict, id);
        HandleFrame(ok, prompt, rt3, input.read.message, input.verdict);
      }
    }
  }

  lemma {:induction false} LoopRefuses(ok: WriteOracle, prompt: RpcId, rt: Runtime, sent: bool, inputs: seq<LoopInput>, id: RpcId)
    ensures var (exit, rt') := Loop(ok, prompt, rt, sent, inputs);
            exit != Some(CancelFailed) ==>
              && 0 <= |rt'.inbox| - |rt.inbox| <= |inputs|
              && Count(rt'.lines, RefusalTo(id))
                 == Count(rt.lines, RefusalTo(id)) + OthersIn(inputs, |rt'.inbox| - |rt.inbox|, id)
    decreases |inputs|
  {
    hide Iterate, Count;
    if inputs != [] {
      IterateRefuses(ok, prompt, rt, sent, inputs[0], id);
      var (exit, rt', sent') := Iterate(ok, prompt, rt, sent, inputs[0]);
      if exit.None? {
        LoopRefuses(ok, prompt, rt', sent', inputs[1..], id);
      } else {
        assert OthersIn(inputs[1..], 0, id) == 0;
      }
    }
  }

  /** Every request the host does not offer is refused with one line, unless a cancel failed first. */
  lemma OthersAreRefused(ok: WriteOracle, rt: Runtime, prompt: RpcId, inputs: seq<LoopInput>, id: RpcId)
    ensures var (exit, rt') := Prompt(ok, rt, prompt, inputs);
            exit != Some(CancelFailed) ==>
              && 0 <= |rt'.inbox| - |rt.inbox| <= |inputs|
              && Count(rt'.lines, RefusalTo(id)) - Count(rt.lines, RefusalTo(id))
                 == OthersIn(inputs, |rt'.inbox| - |rt.inbox|, id)
  {
    hide Loop, Count;
    var (done, rt1) := Write(ok, Begun(rt, prompt), PromptLine(prompt));
    CountAppend(rt.lines, PromptLine(prompt), RefusalTo(id));
    if done {
      LoopRefuses(ok, prompt, rt1, false, inputs, id);
    }
  }

  // ---- how a call ends ----

  /** What a read means for the call by itself; `None` is a read that leaves it waiting. */
  function Verdict(prompt: RpcId, read: Read): Option<Exit> {
    match read
    case TimedOut => None
    case ReadError => Some(ReadFailed)
    case EndOfStream => Some(UnexpectedEof)
    case Garbled => Some(MalformedLine)
    case Received(m) =>
      if !Normalizes(m) then Some(MalformedMessage)
      else if m == Response(prompt, true) then Some(Completed)
      else if m == Response(prompt, false) then Some(ResultMalformed)
      else if m == ErrorResponse(prompt) then Some(RpcFailed)
      else None
  }

  /** The first read that decides, as a number of reads made, and its verdict. */
  function FirstVerdict(prompt: RpcId, inputs: seq<LoopInput>): (nat, Option<Exit>) {
    if inputs == [] then (0, None)
    else if Verdict(prompt, inputs[0].read).Some? then (1, Verdict(prompt, inputs[0].read))
    else
      var (n, verdict) := FirstVerdict(prompt, inputs[1..]);
      (n + 1, verdict)
  }

  /** The phase each end leaves the lifecycle in. */
  predicate Leaves(exit: Option<Exit>, phase: Phase) {
    match exit
    case None => Running(phase)
    case Some(MalformedMessage) => Running(phase)
    case Some(ReadFailed) => phase.Dead?
    case Some(UnexpectedEof) => phase.Dead?
    case Some(MalformedLine) => phase.Dead?
    case _ => phase.Ready?
  }

  /** No permission handler fails. */
  predicate HandlersAnswer(inputs: seq<LoopInput>) {
    forall i | 0 <= i < |inputs| :: inputs[i].verdict != HandlerError
  }

  lemma HandleSoundly(ok: WriteOracle, prompt: RpcId, rt: Runtime, m: Message, verdict: PermissionVerdict)
    requires SoundFrom(ok, |rt.lines|) && Running(rt.phase) && Undecided(rt.delivery) && Normalizes(m)
    requires verdict != HandlerError
    ensures var (exit, rt') := Handle(ok, prompt, rt, m, verdict);
            && exit == Verdict(prompt, Received(m)) && Leaves(exit, rt'.phase)
            && (exit.None? ==> Undecided(rt'.delivery))
  {
    hide Answers;
  }

  predicate SoundState(rt: Runtime, sent: bool) {
    Running(rt.phase) && Undecided(rt.delivery) && (sent || rt.phase.Prompting?)
  }

  lemma ProcessSoundly(ok: WriteOracle, prompt: RpcId, rt: Runtime, sent: bool, m: Message, input: LoopInput)
    requires SoundFrom(ok, |rt.lines|) && SoundState(rt, sent) && input.verdict != HandlerError
    ensures var (exit, rt', _) := Process(ok, prompt, rt, sent, m, input);
            && exit == Verdict(prompt, Received(m)) && Leaves(exit, rt'.phase) && rt'.inbox == rt.inbox
            && (exit.None? ==> Undecided(rt'.delivery))
  {
    hide TriggerCancel, Handle, Count, Verdict;
    OtherReads(prompt, Received(m));
    if Normalizes(m) {
      CancelKeepsRunning(ok, rt);
      TriggerCancelFrame(ok, rt);
      var rt1 := if input.handlerCancels && !sent then TriggerCancel(ok, rt).1 else rt;
      HandleSoundly(ok, prompt, rt1, m, input.verdict);
      HandleFrame(ok, prompt, rt1, m, input.verdict);
    }
  }

  lemma IterateVerdict(ok: WriteOracle, prompt: RpcId, rt: Runtime, sent: bool, input: LoopInput)
    requires SoundFrom(ok, |rt.lines|) && SoundState(rt, sent) && input.verdict != HandlerError
    ensures var (exit, rt', _) := Iterate(ok, prompt, rt, sent, input);
            && exit == Verdict(prompt, input.read) && Leaves(exit, rt'.phase)
            && rt'.inbox == rt.inbox + [input.read] && (exit.None? ==> Undecided(rt'.delivery))
  {
    hide TriggerCancel, Process, Count, Verdict;
    CancelKeepsRunning(ok, rt);
    TriggerCancelFrame(ok, rt);
    var asks := input.signal && !sent;
    var rt1 := if asks then TriggerCancel(ok, rt).1 else rt;
    OtherReads(prompt, input.read);
    if input.read.Received? {
      ProcessSoundly(ok, prompt, rt1.(inbox := rt1.inbox + [input.read]), sent || asks, input.read.message, input);
    }
  }

  lemma IterateSoundly(ok: WriteOracle, prompt: RpcId, rt: Runtime, sent: bool, input: LoopInput)
    requires SoundFrom(ok, |rt.lines|) && SoundState(rt, sent) && input.verdict != HandlerError
    ensures var (exit, rt', sent') := Iterate(ok, prompt, rt, sent, input);
            && exit == Verdict(prompt, input.read) && Leaves(exit, rt'.phase)
            && rt'.inbox == rt.inbox + [input.read] && |rt.lines| <= |rt'.lines|
            && (exit.None? ==> SoundState(rt', sent'))
  {
    hide Iterate, Verdict;
    SoundIteration(ok, prompt, rt, sent, input);
    IterateVerdict(ok, prompt, rt, sent, input);
  }

  lemma CancelKeepsRunning(ok: WriteOracle, rt: Runtime)
    requires Running(rt.phase)
    ensures Running(TriggerCancel(ok, rt).1.phase)
  {
    hide Answers, Execute, OnlyWrote;
    if rt.phase.Prompting? {
      var actions := [SendCancelNotification] + Answers(rt.phase.pending);
      CancelledPhase(ok, rt.(phase := Cancelling([])), actions);
    }
  }

  lemma CancelledPhase(ok: WriteOracle, rt: Runtime, actions: seq<HostAction>)
    ensures Execute(ok, rt, actions).1.phase == rt.phase
  {
    ExecuteOnlyWrites(ok, rt, actions);
  }

  /** The verdicts of everything but a well-formed message. */
  lemma OtherReads(prompt: RpcId, read: Read)
    ensures Verdict(prompt, TimedOut).None?
    ensures Verdict(prompt, ReadError) == Some(ReadFailed)
    ensures Verdict(prompt, EndOfStream) == Some(UnexpectedEof)
    ensures Verdict(prompt, Garbled) == Some(MalformedLine)
    ensures read.Received? && !Normalizes(read.message) ==> Verdict(prompt, read) == Some(MalformedMessage)
  {
  }

  lemma {:induction false} LoopEndsAtFirstVerdict(ok: WriteOracle, prompt: RpcId, rt: Runtime, sent: bool, inputs: seq<LoopInput>)
    requires SoundFrom(ok, |rt.lines|) && SoundState(rt, sent)
    requires HandlersAnswer(inputs)
    ensures var (exit, rt') := Loop(ok, prompt, rt, sent, inputs);
            (|rt'.inbox| - |rt.inbox|, exit) == FirstVerdict(prompt, inputs) && Leaves(exit, rt'.phase)
    decreases |inputs|
  {
    hide Iterate, Verdict, SoundState, Leaves;
    if inputs == [] {
      assert Leaves(None, rt.phase) by { StillRunning(rt, sent); }
    } else {
      IterateSoundly(ok, prompt, rt, sent, inputs[0]);
      var (exit, rt', sent') := Iterate(ok, prompt, rt, sent, inputs[0]);
      if exit.None? {
        LoopEndsAtFirstVerdict(ok, prompt, rt', sent', inputs[1..]);
      }
    }
  }

  lemma StillRunning(rt: Runtime, sent: bool)
    requires SoundState(rt, sent)
    ensures Leaves(None, rt.phase)
  {
  }

  /**
   On a sound transport with answering handlers, whatever is cancelled on the way, the call reads up to the
   first deciding read and ends with its verdict: completed exactly on a well-formed response to the prompt.
   */
  lemma CallEndsAtFirstVerdict(ok: WriteOracle, rt: Runtime, prompt: RpcId, inputs: seq<LoopInput>)
    requires CancellableStart(rt.phase) && SoundFrom(ok, |rt.lines|) && HandlersAnswer(inputs)
    ensures var (exit, rt') := Prompt(ok, rt, prompt, inputs);
            (|rt'.inbox| - |rt.inbox|, exit) == FirstVerdict(prompt, inputs) && Leaves(exit, rt'.phase)
  {
    hide Loop, FirstVerdict;
    var rt1 := Write(ok, Begun(rt, prompt), PromptLine(prompt)).1;
    LoopEndsAtFirstVerdict(ok, prompt, rt1, false, inputs);
  }

  /** On any transport a verdict is only ever reported on the read that carries it. */
  lemma IterationVerdict(ok: WriteOracle, prompt: RpcId, rt: Runtime, sent: bool, input: LoopInput)
    ensures var (exit, rt', _) := Iterate(ok, prompt, rt, sent, input);
            exit.Some? && (exit.value.Completed? || exit.value.ResultMalformed? || exit.value.RpcFailed?) ==>
              exit == Verdict(prompt, input.read) && rt'.inbox == rt.inbox + [input.read]
  {
    hide TriggerCancel, Count;
    TriggerCancelFrame(ok, rt);
    var asks := input.signal && !sent;
    var (done, rt1) := if asks then TriggerCancel(ok, rt) else (true, rt);
    if done && input.read.Received? {
      var rt2 := rt1.(inbox := rt1.inbox + [input.read]);
      TriggerCancelFrame(ok, rt2);
      var rt3 := if input.handlerCancels && !(sent || asks) then TriggerCancel(ok, rt2).1 else rt2;
      HandleFrame(ok, prompt, rt3, input.read.message, input.verdict);
      HandleVerdict(ok, prompt, rt3, input.read.message, input.verdict);
      hide Handle;
    }
  }

  lemma HandleVerdict(ok: WriteOracle, prompt: RpcId, rt: Runtime, m: Message, verdict: PermissionVerdict)
    ensures var (exit, _) := Handle(ok, prompt, rt, m, verdict);
            exit.Some? && (exit.value.Completed? || exit.value.ResultMalformed? || exit.value.RpcFailed?) ==>
              (Normalizes(m) ==> exit == Verdict(prompt, Received(m)))
  {
    hide Answers;
  }

  lemma {:induction false} LoopVerdict(ok: WriteOracle, prompt: RpcId, rt: Runtime, sent: bool, inputs: seq<LoopInput>)
    ensures var (exit, rt') := Loop(ok, prompt, rt, sent, inputs);
            exit.Some? && (exit.value.Completed? || exit.value.ResultMalformed? || exit.value.RpcFailed?) ==>
              |rt'.inbox| > 0 && exit == Verdict(prompt, rt'.inbox[|rt'.inbox| - 1])
    decreases |inputs|
  {
    hide Iterate, Verdict;
    if inputs != [] {
      IterationVerdict(ok, prompt, rt, sent, inputs[0]);
      var (exit, rt', sent') := Iterate(ok, prompt, rt, sent, inputs[0]);
      if exit.None? {
        LoopVerdict(ok, prompt, rt', sent', inputs[1..]);
      }
    }
  }

  /** Whatever the transport does, a call that reports an answer has just read that very answer. */
  lemma ReportedAnswerWasRead(ok: WriteOracle, rt: Runtime, prompt: RpcId, inputs: seq<LoopInput>)
    ensures var (exit, rt') := Prompt(ok, rt, prompt, inputs);
            exit.Some? && (exit.value.Completed? || exit.value.ResultMalformed? || exit.value.RpcFailed?) ==>
              |rt'.inbox| > 0 && exit == Verdict(prompt, rt'.inbox[|rt'.inbox| - 1])
  {
    hide Loop, Verdict;
    var (done, rt1) := Write(ok, Begun(rt, prompt), PromptLine(prompt));
    if done {
      LoopVerdict(ok, prompt, rt1, false, inputs);
    }
  }
}
