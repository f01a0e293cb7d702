/** What a prompt call never does once it has asked the agent to stop. */
module PromptGrants {
  import opened Bytes
  import opened AgentLifecycles
  import opened PromptRuntimes
  import opened PromptRuns

  predicate Grants(line: Line) { line.PermissionReply? && line.granted }

  /** A cancel was written from write number `start` on. */
  ghost predicate Cancels(lines: seq<Line>, start: nat) {
    exists i | start <= i < |lines| :: lines[i].CancelLine?
  }

  /** Behind a cancel no permission is granted. */
  ghost predicate Quiet(lines: seq<Line>, start: nat) {
    && start <= |lines|
    && (forall i, j | start <= i < j < |lines| && lines[i].CancelLine? :: !Grants(lines[j]))
  }

  /** The loop may go round again: a written cancel shows in the lifecycle. */
  ghost predicate Guarded(rt: Runtime, start: nat) {
    Quiet(rt.lines, start) && (Cancels(rt.lines, start) ==> rt.phase.Cancelling?)
  }

  lemma QuietAppend(lines: seq<Line>, line: Line, start: nat)
    requires Quiet(lines, start) && (Grants(line) ==> !Cancels(lines, start))
    ensures Quiet(lines + [line], start)
    ensures Cancels(lines + [line], start) <==> Cancels(lines, start) || line.CancelLine?
  {
    var longer := lines + [line];
    assert longer[|lines|] == line;
    if Cancels(lines, start) {
      var i :| start <= i < |lines| && lines[i].CancelLine?;
      assert longer[i].CancelLine?;
    }
  }

  lemma {:induction false} ExecuteIsQuiet(ok: WriteOracle, rt: Runtime, actions: seq<HostAction>, start: nat)
    requires Quiet(rt.lines, start)
    ensures Quiet(Execute(ok, rt, actions).1.lines, start)
    decreases |actions|
  {
    hide Quiet, Cancels;
    if actions != [] {
      match actions[0]
      case SendCancelNotification =>
        QuietAppend(rt.lines, CancelLine, start);
        ExecuteIsQuiet(ok, Write(ok, rt, CancelLine).1, actions[1..], start);
      case AnswerPermissionCancelled(id) =>
        QuietAppend(rt.lines, PermissionReply(id, false), start);
        ExecuteIsQuiet(ok, Write(ok, rt, PermissionReply(id, false)).1, actions[1..], start);
      case _ =>
        ExecuteIsQuiet(ok, rt, actions[1..], start);
    }
  }

  lemma CancelIsQuiet(ok: WriteOracle, rt: Runtime, start: nat)
    requires Quiet(rt.lines, start)
    ensures var (done, rt') := TriggerCancel(ok, rt);
            Quiet(rt'.lines, start) && (done ==> rt'.phase.Cancelling?)
  {
    hide Quiet, OnlyWrote, Execute, Answers;
    if rt.phase.Prompting? {
      var actions := [SendCancelNotification] + Answers(rt.phase.pending);
      ExecuteIsQuiet(ok, rt.(phase := Cancelling([])), actions, start);
      ExecuteKeepsPhase(ok, rt.(phase := Cancelling([])), actions);
    }
  }

  lemma ExecuteKeepsPhase(ok: WriteOracle, rt: Runtime, actions: seq<HostAction>)
    ensures Execute(ok, rt, actions).1.phase == rt.phase
  {
    ExecuteOnlyWrites(ok, rt, actions);
  }

  lemma HandleIsQuiet(ok: WriteOracle, prompt: RpcId, rt: Runtime, m: Message, verdict: PermissionVerdict, start: nat)
    requires Guarded(rt, start)
    ensures var (exit, rt') := Handle(ok, prompt, rt, m, verdict);
            Quiet(rt'.lines, start) && (exit.None? ==> Guarded(rt', start))
  {
    hide Quiet, Cancels, Answers;
    match m
    case PermissionRequest(id, _) =>
      QuietAppend(rt.lines, PermissionReply(id, false), start);
      if !rt.phase.Cancelling? {
        QuietAppend(rt.lines, PermissionReply(id, verdict.Granted?), start);
      }
    case OtherRequest(id) =>
      QuietAppend(rt.lines, RefusalLine(id), start);
    case _ =>
  }

  lemma IterateIsQuiet(ok: WriteOracle, prompt: RpcId, rt: Runtime, sent: bool, input: LoopInput, start: nat)
    requires Guarded(rt, start)
    ensures var (exit, rt', _) := Iterate(ok, prompt, rt, sent, input);
            Quiet(rt'.lines, start) && (exit.None? ==> Guarded(rt', start))
  {
    hide Quiet, Cancels, TriggerCancel, Handle;
    CancelIsQuiet(ok, rt, start);
    var asks := input.signal && !sent;
    var (done, rt1) := if asks then TriggerCancel(ok, rt) else (true, rt);
    if done && input.read.Received? {
      var rt2 := rt1.(inbox := rt1.inbox + [input.read]);
      CancelIsQuiet(ok, rt2, start);
      var (done', rt3) := if input.handlerCancels && !(sent || asks) then TriggerCancel(ok, rt2) else (true, rt2);
      if done' {
        HandleIsQuiet(ok, prompt, rt3, input.read.message, input.verdict, start);
      }
    }
  }

  lemma {:induction false} LoopIsQuiet(ok: WriteOracle, prompt: RpcId, rt: Runtime, sent: bool, inputs: seq<LoopInput>, start: nat)
    requires Guarded(rt, start)
    ensures Quiet(Loop(ok, prompt, rt, sent, inputs).1.lines, start)
    decreases |inputs|
  {
    hide Quiet, Cancels, Iterate;
    if inputs != [] {
      IterateIsQuiet(ok, prompt, rt, sent, inputs[0], start);
      var (exit, rt', sent') := Iterate(ok, prompt, rt, sent, inputs[0]);
      if exit.None? {
        LoopIsQuiet(ok, prompt, rt', sent', inputs[1..], start);
      }
    }
  }

  /** On every trace, once the call has written `session/cancel` it grants no permission any more. */
  lemma NoGrantAfterCancel(ok: WriteOracle, rt: Runtime, prompt: RpcId, inputs: seq<LoopInput>)
    ensures Quiet(Prompt(ok, rt, prompt, inputs).1.lines, |rt.lines|)
  {
    var (done, rt1) := Write(ok, Begun(rt, prompt), PromptLine(prompt));
    assert Guarded(rt1, |rt.lines|);
    if done {
      LoopIsQuiet(ok, prompt, rt1, false, inputs, |rt.lines|);
    }
  }

  // ---- which prompts are still waited for ----

  predicate AnswersPrompt(read: Read, prompt: RpcId) {
    read.Received? && (read.message.Response? || read.message.ErrorResponse?) && read.message.id == prompt
  }

  /** A response or an error response to the prompt is among the reads made since read number `start`. */
  predicate AnswerReadSince(prompt: RpcId, start: nat, inbox: seq<Read>) {
    exists i | start <= i < |inbox| :: AnswersPrompt(inbox[i], prompt)
  }

  lemma AnswerStep(prompt: RpcId, start: nat, inbox: seq<Read>, read: Read)
    requires start <= |inbox| && !AnswerReadSince(prompt, start, inbox)
    ensures AnswerReadSince(prompt, start, inbox + [read]) <==> AnswersPrompt(read, prompt)
  {
    if AnswersPrompt(read, prompt) {
      assert (inbox + [read])[|inbox|] == read;
    }
  }

  lemma HandleAwaits(ok: WriteOracle, prompt: RpcId, rt: Runtime, m: Message, verdict: PermissionVerdict)
    ensures var (exit, rt') := Handle(ok, prompt, rt, m, verdict);
            && rt'.awaiting == (if AnswersPrompt(Received(m), prompt) then rt.awaiting - {prompt} else rt.awaiting)
            && (AnswersPrompt(Received(m), prompt) ==> exit.Some?)
  {
    hide Answers;
  }

  lemma IterateAwaits(ok: WriteOracle, prompt: RpcId, rt: Runtime, sent: bool, input: LoopInput)
    ensures var (exit, rt', _) := Iterate(ok, prompt, rt, sent, input);
            && rt'.awaiting == (if AnswersPrompt(input.read, prompt) && exit != Some(CancelFailed)
                                then rt.awaiting - {prompt} else rt.awaiting)
            && (exit.None? ==> !AnswersPrompt(input.read, prompt))
            && (rt'.inbox == rt.inbox + [input.read] || (rt'.inbox == rt.inbox && exit == Some(CancelFailed)))
  {
    hide TriggerCancel, Handle, Count;
    TriggerCancelFrame(ok, rt);
    var asks := input.signal && !sent;
    var rt1 := if asks then TriggerCancel(ok, rt).1 else rt;
    var rt2 := rt1.(inbox := rt1.inbox + [input.read]);
    TriggerCancelFrame(ok, rt2);
    if input.read.Received? {
      var rt3 := if input.handlerCancels && !(sent || asks) then TriggerCancel(ok, rt2).1 else rt2;
      HandleFrame(ok, prompt, rt3, input.read.message, input.verdict);
      HandleAwaits(ok, prompt, rt3, input.read.message, input.verdict);
    }
  }

  lemma {:induction false} LoopAwaits(ok: WriteOracle, prompt: RpcId, rt: Runtime, sent: bool, inputs: seq<LoopInput>, start: nat)
    requires start <= |rt.inbox| && !AnswerReadSince(prompt, start, rt.inbox)
    ensures var (exit, rt') := Loop(ok, prompt, rt, sent, inputs);
            rt'.awaiting == if AnswerReadSince(prompt, start, rt'.inbox) && exit != Some(CancelFailed)
                            then rt.awaiting - {prompt} else rt.awaiting
    decreases |inputs|
  {
    hide Iterate, AnswerReadSince, AnswersPrompt;
    if inputs != [] {
      IterateAwaits(ok, prompt, rt, sent, inputs[0]);
      AnswerStep(prompt, start, rt.inbox, inputs[0].read);
      var (exit, rt', sent') := Iterate(ok, prompt, rt, sent, inputs[0]);
      if exit.None? {
        LoopAwaits(ok, prompt, rt', sent', inputs[1..], start);
      }
    }
  }

  /** On every trace the prompt stops being waited for exactly when its answer was read and no cancel failed on it. */
  lemma AnsweredPromptIsForgotten(ok: WriteOracle, rt: Runtime, prompt: RpcId, inputs: seq<LoopInput>)
    ensures var (exit, rt') := Prompt(ok, rt, prompt, inputs);
            rt'.awaiting == if AnswerReadSince(prompt, |rt.inbox|, rt'.inbox) && exit != Some(CancelFailed)
                            then rt.awaiting - {prompt} else rt.awaiting + {prompt}
  {
    hide Loop;
    var (done, rt1) := Write(ok, Begun(rt, prompt), PromptLine(prompt));
    if done {
      LoopAwaits(ok, prompt, rt1, false, inputs, |rt.inbox|);
    }
  }
}
