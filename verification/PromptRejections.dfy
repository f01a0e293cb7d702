/** When reading the prompt's error response does not make the prompt re-sendable, trace by trace. */
module PromptRejections {
  import opened Bytes
  import opened AgentLifecycles
  import opened PromptRuntimes
  import opened PromptRuns

  /** The iteration reads the error response, and its only cancel request is the handler's, on that message, and fails. */
  predicate ClashAt(ok: WriteOracle, prompt: RpcId, rt: Runtime, sent: bool, input: LoopInput) {
    && input.read == Received(ErrorResponse(prompt))
    && !sent && !input.signal && input.handlerCancels
    && !TriggerCancel(ok, rt.(inbox := rt.inbox + [input.read])).0
  }

  /** The loop reaches such an iteration. */
  predicate Clashes(ok: WriteOracle, prompt: RpcId, rt: Runtime, sent: bool, inputs: seq<LoopInput>)
    decreases |inputs|
  {
    && inputs != []
    && (ClashAt(ok, prompt, rt, sent, inputs[0])
        || (var (exit, rt', sent') := Iterate(ok, prompt, rt, sent, inputs[0]);
            exit.None? && Clashes(ok, prompt, rt', sent', inputs[1..])))
  }

  lemma ClashIsCancelFailedOnError(ok: WriteOracle, prompt: RpcId, rt: Runtime, sent: bool, input: LoopInput)
    ensures var (exit, rt', _) := Iterate(ok, prompt, rt, sent, input);
            ClashAt(ok, prompt, rt, sent, input) <==>
              exit == Some(CancelFailed) && input.read == Received(ErrorResponse(prompt)) && rt'.inbox == rt.inbox + [input.read]
  {
    hide TriggerCancel, Handle, Count;
    TriggerCancelFrame(ok, rt);
    var asks := input.signal && !sent;
    var rt1 := if asks then TriggerCancel(ok, rt).1 else rt;
    var rt2 := rt1.(inbox := rt1.inbox + [input.read]);
    TriggerCancelFrame(ok, rt2);
    if input.read.Received? {
      var rt3 := if input.handlerCancels && !(sent || asks) then TriggerCancel(ok, rt2).1 else rt2;
      HandleFrame(ok, prompt, rt3, input.read.message, input.verdict);
    }
  }

  lemma {:induction false} LoopClashes(ok: WriteOracle, prompt: RpcId, rt: Runtime, sent: bool, inputs: seq<LoopInput>, start: nat)
    requires Undecided(rt.delivery) && start <= |rt.inbox| && !ErrorReadSince(prompt, start, rt.inbox)
    ensures var (exit, rt') := Loop(ok, prompt, rt, sent, inputs);
            Clashes(ok, prompt, rt, sent, inputs) <==>
              exit == Some(CancelFailed) && ErrorReadSince(prompt, start, rt'.inbox)
    decreases |inputs|
  {
    hide Iterate, Count, ClashAt;
    if inputs != [] {
      IterateIsOk(ok, prompt, rt, sent, inputs[0]);
      ClashIsCancelFailedOnError(ok, prompt, rt, sent, inputs[0]);
      InboxStep(prompt, start, rt.inbox, inputs[0].read);
      var (exit, rt', sent') := Iterate(ok, prompt, rt, sent, inputs[0]);
      if exit.None? {
        LoopClashes(ok, prompt, rt', sent', inputs[1..], start);
      }
    }
  }

  /** The state the loop starts from. */
  function Started(ok: WriteOracle, rt: Runtime, prompt: RpcId): Runtime {
    Write(ok, Begun(rt, prompt), PromptLine(prompt)).1
  }

  /** Exact on each transport and trace: the rule fails when, and only when, the loop runs into a clash. */
  lemma RejectionRuleFailsIff(ok: WriteOracle, rt: Runtime, prompt: RpcId, inputs: seq<LoopInput>)
    ensures !RejectionRule(ok, rt, prompt, inputs) <==>
              ok(|rt.lines|) && Clashes(ok, prompt, Started(ok, rt, prompt), false, inputs)
  {
    hide Loop, Clashes, Count;
    PromptIsClassified(ok, rt, prompt, inputs);
    if ok(|rt.lines|) {
      LoopClashes(ok, prompt, Started(ok, rt, prompt), false, inputs, |rt.inbox|);
    }
  }

  /** Whether the event handler asks for a cancel when it is shown the prompt's own error response. */
  predicate HandlerOnError(prompt: RpcId, asks: bool, inputs: seq<LoopInput>) {
    forall n | 0 <= n < |inputs| && inputs[n].read == Received(ErrorResponse(prompt)) :: inputs[n].handlerCancels == asks
  }

  lemma {:induction false} SparingHandlerNeverClashes(ok: WriteOracle, prompt: RpcId, rt: Runtime, sent: bool, inputs: seq<LoopInput>)
    requires HandlerOnError(prompt, false, inputs)
    ensures !Clashes(ok, prompt, rt, sent, inputs)
    decreases |inputs|
  {
    hide Iterate;
    if inputs != [] {
      var (exit, rt', sent') := Iterate(ok, prompt, rt, sent, inputs[0]);
      SparingHandlerNeverClashes(ok, prompt, rt', sent', inputs[1..]);
    }
  }

  /** The prompt line is written and every later write fails. */
  function DeadAfter(n: nat): WriteOracle { k => k <= n }

  /**
   The caller's own guard: over every transport and every trace, "re-sendable exactly when the error response
   was read" holds if and only if the event handler does not ask for a cancel on that response.
   */
  lemma RejectionRuleIffHandlerSpares(rt: Runtime, prompt: RpcId, asks: bool)
    ensures (forall ok, inputs | HandlerOnError(prompt, asks, inputs) :: RejectionRule(ok, rt, prompt, inputs)) <==> !asks
  {
    hide RejectionRule, Clashes;
    if asks {
      var ok := DeadAfter(|rt.lines|);
      var inputs := [Clash(prompt)];
      assert HandlerOnError(prompt, asks, inputs);
      ClashBreaksTheRule(rt, prompt);
      assert !RejectionRule(ok, rt, prompt, inputs);
    } else {
      forall ok, inputs | HandlerOnError(prompt, asks, inputs) ensures RejectionRule(ok, rt, prompt, inputs) {
        SparingHandlerNeverClashes(ok, prompt, Started(ok, rt, prompt), false, inputs);
        RejectionRuleFailsIff(ok, rt, prompt, inputs);
      }
    }
  }

  lemma ClashBreaksTheRule(rt: Runtime, prompt: RpcId)
    ensures !RejectionRule(DeadAfter(|rt.lines|), rt, prompt, [Clash(prompt)])
  {
    hide RejectionRule, TriggerCancel;
    var ok := DeadAfter(|rt.lines|);
    var begun := Started(ok, rt, prompt);
    RejectionRuleFailsIff(ok, rt, prompt, [Clash(prompt)]);
    CancelMeetsBadWrite(ok, begun.(inbox := begun.inbox + [Clash(prompt).read]));
    assert ClashAt(ok, prompt, begun, false, Clash(prompt));
  }
}
