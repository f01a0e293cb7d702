/** How often one permission request is answered over a prompt call. */
module PromptReplies {
  import opened Bytes
  import opened AgentLifecycles
  import opened PromptRuntimes
  import opened PromptRuns

  function ReplyTo(id: RpcId): Line -> bool { (line: Line) => line.PermissionReply? && line.id == id }

  /** How often the id is waiting for an answer by the lifecycle's account, which forgets nothing before a cancel. */
  function Pending(phase: Phase, id: RpcId): nat {
    if phase.Prompting? then multiset(phase.pending)[id] else 0
  }

  function Requests(read: Read, id: RpcId): nat {
    if read == Received(PermissionRequest(id, true)) then 1 else 0
  }

  /** The requests for `id` among the first `m` reads. */
  function AskedIn(inputs: seq<LoopInput>, m: nat, id: RpcId): nat
    requires m <= |inputs|
  {
    if m == 0 then 0 else Requests(inputs[0].read, id) + AskedIn(inputs[1..], m - 1, id)
  }

  /** The signal or the event handler asks for a cancel in this iteration. */
  predicate AsksCancel(input: LoopInput) {
    input.signal || (input.read.Received? && Normalizes(input.read.message) && input.handlerCancels)
  }

  /** The first iteration that asks for a cancel. */
  function FirstAsk(inputs: seq<LoopInput>): (n: nat)
    ensures n <= |inputs|
  {
    if inputs == [] || AsksCancel(inputs[0]) then 0 else 1 + FirstAsk(inputs[1..])
  }

  /** The exits that do not cut a reply short. */
  predicate Smooth(exit: Option<Exit>) {
    exit != Some(CancelFailed) && exit != Some(PermissionHandlerFailed) && exit != Some(RefusedOrder)
  }

  // ---- one cancel, one message ----

  function RepliesIn(actions: seq<HostAction>, id: RpcId): nat {
    if actions == [] then 0
    else (if actions[0] == AnswerPermissionCancelled(id) then 1 else 0) + RepliesIn(actions[1..], id)
  }

  lemma {:induction false} RepliesInAnswers(ids: seq<RpcId>, id: RpcId)
    ensures RepliesIn(Answers(ids), id) == multiset(ids)[id]
  {
    if ids != [] {
      RepliesInAnswers(ids[1..], id);
      assert Answers(ids)[1..] == Answers(ids[1..]);
      assert ids == [ids[0]] + ids[1..];
    }
  }

  lemma {:induction false} ExecuteReplies(ok: WriteOracle, rt: Runtime, actions: seq<HostAction>, id: RpcId)
    ensures var (done, rt') := Execute(ok, rt, actions);
            done ==> Count(rt'.lines, ReplyTo(id)) == Count(rt.lines, ReplyTo(id)) + RepliesIn(actions, id)
    decreases |actions|
  {
    hide Count;
    if actions != [] {
      match actions[0]
      case SendCancelNotification =>
        CountAppend(rt.lines, CancelLine, ReplyTo(id));
        ExecuteReplies(ok, Write(ok, rt, CancelLine).1, actions[1..], id);
      case AnswerPermissionCancelled(x) =>
        CountAppend(rt.lines, PermissionReply(x, false), ReplyTo(id));
        ExecuteReplies(ok, Write(ok, rt, PermissionReply(x, false)).1, actions[1..], id);
      case _ =>
        ExecuteReplies(ok, rt, actions[1..], id);
    }
  }

  /** A cancel that goes through answers everything pending, answered before or not. */
  lemma CancelReplies(ok: WriteOracle, rt: Runtime, id: RpcId)
    ensures var (done, rt') := TriggerCancel(ok, rt);
            && (done ==> rt.phase.Prompting? && !rt'.phase.Prompting?)
            && (done ==> Count(rt'.lines, ReplyTo(id)) == Count(rt.lines, ReplyTo(id)) + Pending(rt.phase, id))
  {
    hide Count, Answers;
    if rt.phase.Prompting? {
      var actions := [SendCancelNotification] + Answers(rt.phase.pending);
      assert actions[1..] == Answers(rt.phase.pending);
      RepliesInAnswers(rt.phase.pending, id);
      ExecuteReplies(ok, rt.(phase := Cancelling([])), actions, id);
      hide Execute;
      ExecuteOnlyWrites(ok, rt.(phase := Cancelling([])), actions);
    }
  }

  lemma PermissionReplies(ok: WriteOracle, rt: Runtime, x: RpcId, verdict: PermissionVerdict, id: RpcId)
    ensures var (exit, rt') := HandlePermission(ok, rt, x, verdict);
            && (Smooth(exit) ==>
                  Count(rt'.lines, ReplyTo(id)) == Count(rt.lines, ReplyTo(id)) + if x == id then 1 else 0)
            && (exit.None? ==> rt'.phase.Prompting? == rt.phase.Prompting?)
            && (exit.None? && rt.phase.Prompting? ==>
                  Pending(rt'.phase, id) == Pending(rt.phase, id) + if x == id then 1 else 0)
  {
    hide Count, Answers;
    CountAppend(rt.lines, PermissionReply(x, false), ReplyTo(id));
    CountAppend(rt.lines, PermissionReply(x, verdict.Granted?), ReplyTo(id));
  }

  /** Every request that reaches the dispatch is answered there once. */
  lemma HandleReplies(ok: WriteOracle, prompt: RpcId, rt: Runtime, m: Message, verdict: PermissionVerdict, id: RpcId)
    requires Normalizes(m)
    ensures var (exit, rt') := Handle(ok, prompt, rt, m, verdict);
            && (Smooth(exit) ==>
                  Count(rt'.lines, ReplyTo(id)) == Count(rt.lines, ReplyTo(id)) + Requests(Received(m), id))
            && (exit.None? ==> rt'.phase.Prompting? == rt.phase.Prompting?)
            && (exit.None? && rt.phase.Prompting? ==>
                  Pending(rt'.phase, id) == Pending(rt.phase, id) + Requests(Received(m), id))
  {
    hide Count, Answers, HandlePermission, Pending;
    match m
    case PermissionRequest(x, _) =>
      PermissionReplies(ok, rt, x, verdict, id);
    case OtherRequest(x) =>
      CountAppend(rt.lines, RefusalLine(x), ReplyTo(id));
    case _ =>
  }

  // ---- one iteration ----

  predicate IterationReplies(rt: Runtime, sent: bool, input: LoopInput, exit: Option<Exit>, rt': Runtime, sent': bool, id: RpcId) {
    && (Smooth(exit) ==>
          && rt'.inbox == rt.inbox + [input.read]
          && (!sent && AsksCancel(input) ==> rt.phase.Prompting?)
          && Count(rt'.lines, ReplyTo(id)) == Count(rt.lines, ReplyTo(id)) + Requests(input.read, id)
                                              + (if !sent && AsksCancel(input) then Pending(rt.phase, id) else 0))
    && (exit.None? ==>
          && sent' == (sent || AsksCancel(input))
          && (!rt.phase.Prompting? ==> !rt'.phase.Prompting?)
          && (!sent' && rt.phase.Prompting? ==>
                rt'.phase.Prompting? && Pending(rt'.phase, id) == Pending(rt.phase, id) + Requests(input.read, id)))
  }

  lemma ProcessReplies(ok: WriteOracle, prompt: RpcId, rt: Runtime, sent: bool, m: Message, input: LoopInput, id: RpcId)
    requires input.read == Received(m) && (sent || !input.signal)
    ensures var (exit, rt', sent') := Process(ok, prompt, rt.(inbox := rt.inbox + [input.read]), sent, m, input);
            IterationReplies(rt, sent, input, exit, rt', sent', id)
  {
    hide TriggerCancel, Handle, Count;
    if Normalizes(m) {
      var rt0 := rt.(inbox := rt.inbox + [input.read]);
      CancelReplies(ok, rt0, id);
      TriggerCancelFrame(ok, rt0);
      var (done, rt1) := if input.handlerCancels && !sent then TriggerCancel(ok, rt0) else (true, rt0);
      if done {
        HandleReplies(ok, prompt, rt1, m, input.verdict, id);
        HandleFrame(ok, prompt, rt1, m, input.verdict);
      }
    }
  }

  lemma IterateReplies(ok: WriteOracle, prompt: RpcId, rt: Runtime, sent: bool, input: LoopInput, id: RpcId)
    ensures var (exit, rt', sent') := Iterate(ok, prompt, rt, sent, input);
            IterationReplies(rt, sent, input, exit, rt', sent', id)
  {
    hide TriggerCancel, Process, Count, Pending;
    CancelReplies(ok, rt, id);
    TriggerCancelFrame(ok, rt);
    var asks := input.signal && !sent;
    var (done, rt1) := if asks then TriggerCancel(ok, rt) else (true, rt);
    if done && input.read.Received? {
      ProcessReplies(ok, prompt, rt1, sent || asks, input.read.message, input, id);
    }
  }

  // ---- the whole call ----

  /** What the cancel of this run of the loop answers once more. */
  function Again(phase: Phase, inputs: seq<LoopInput>, m: nat, id: RpcId): nat
    requires m <= |inputs|
  {
    if FirstAsk(inputs) < m then Pending(phase, id) + AskedIn(inputs, FirstAsk(inputs), id) else 0
  }

  predicate LoopReplies(rt: Runtime, sent: bool, inputs: seq<LoopInput>, exit: Option<Exit>, rt': Runtime, id: RpcId) {
    Smooth(exit) ==>
      var m := |rt'.inbox| - |rt.inbox|;
      && 0 <= m <= |inputs|
      && (!sent && FirstAsk(inputs) < m ==> rt.phase.Prompting?)
      && Count(rt'.lines, ReplyTo(id)) == Count(rt.lines, ReplyTo(id)) + AskedIn(inputs, m, id)
                                          + (if sent then 0 else Again(rt.phase, inputs, m, id))
  }

  lemma {:induction false} LoopRepliesOk(ok: WriteOracle, prompt: RpcId, rt: Runtime, sent: bool, inputs: seq<LoopInput>, id: RpcId)
    ensures var (exit, rt') := Loop(ok, prompt, rt, sent, inputs);
            LoopReplies(rt, sent, inputs, exit, rt', id)
    decreases |inputs|
  {
    hide Iterate, Count, AsksCancel, Requests, Pending;
    if inputs != [] {
      IterateReplies(ok, prompt, rt, sent, inputs[0], id);
      var (exit, rt', sent') := Iterate(ok, prompt, rt, sent, inputs[0]);
      if exit.None? {
        LoopRepliesOk(ok, prompt, rt', sent', inputs[1..], id);
      } else {
        assert AskedIn(inputs, 1, id) == Requests(inputs[0].read, id) + AskedIn(inputs[1..], 0, id);
      }
    }
  }

  /**
   On every trace and for every id: one reply per request read, and one more for each request that came
   before the first cancel, because answered requests stay pending.
   */
  lemma RepliesAreCounted(ok: WriteOracle, rt: Runtime, prompt: RpcId, inputs: seq<LoopInput>, id: RpcId)
    ensures var (exit, rt') := Prompt(ok, rt, prompt, inputs);
            Smooth(exit) ==>
              var m := |rt'.inbox| - |rt.inbox|;
              && 0 <= m <= |inputs|
              && Count(rt'.lines, ReplyTo(id)) - Count(rt.lines, ReplyTo(id))
                 == AskedIn(inputs, m, id) + Again(rt.phase, inputs, m, id)
  {
    hide Loop, Count, AskedIn, FirstAsk;
    var (done, rt1) := Write(ok, Begun(rt, prompt), PromptLine(prompt));
    CountAppend(rt.lines, PromptLine(prompt), ReplyTo(id));
    assert Pending(rt1.phase, id) == Pending(rt.phase, id);
    if done {
      LoopRepliesOk(ok, prompt, rt1, false, inputs, id);
    } else {
      assert AskedIn(inputs, 0, id) == 0 by { NothingAsked(inputs, id); }
    }
  }

  lemma NothingAsked(inputs: seq<LoopInput>, id: RpcId)
    ensures AskedIn(inputs, 0, id) == 0
  {
  }

  lemma {:induction false} AskedGrows(inputs: seq<LoopInput>, n: nat, m: nat, id: RpcId)
    requires n <= m <= |inputs|
    ensures AskedIn(inputs, n, id) <= AskedIn(inputs, m, id)
    decreases n
  {
    if n > 0 {
      AskedGrows(inputs[1..], n - 1, m - 1, id);
    }
  }

  /** With nothing left over, an id is answered more than once exactly when it was asked twice, or before a cancel. */
  lemma AnsweredTwiceIff(ok: WriteOracle, rt: Runtime, prompt: RpcId, inputs: seq<LoopInput>, id: RpcId)
    requires Pending(rt.phase, id) == 0 && Smooth(Prompt(ok, rt, prompt, inputs).0)
    ensures var rt' := Prompt(ok, rt, prompt, inputs).1;
            var m := |rt'.inbox| - |rt.inbox|;
            && 0 <= m <= |inputs|
            && (Count(rt'.lines, ReplyTo(id)) - Count(rt.lines, ReplyTo(id)) > 1 <==>
                  AskedIn(inputs, m, id) > 1 || (FirstAsk(inputs) < m && AskedIn(inputs, FirstAsk(inputs), id) > 0))
  {
    hide Prompt, Count, AskedIn, FirstAsk;
    RepliesAreCounted(ok, rt, prompt, inputs, id);
    var m := |Prompt(ok, rt, prompt, inputs).1.inbox| - |rt.inbox|;
    if FirstAsk(inputs) < m {
      AskedGrows(inputs, FirstAsk(inputs), m, id);
    }
  }

  /** The agent asks, the handler grants, and then the cancel signal is raised. */
  function GrantThenCancel(id: RpcId): seq<LoopInput> {
    [LoopInput(false, Received(PermissionRequest(id, true)), false, Granted), LoopInput(true, TimedOut, false, NoOutcome)]
  }

  /** On a sound transport that request is granted and then answered again as cancelled. */
  lemma GrantedThenCancelledTwice(ok: WriteOracle, rt: Runtime, prompt: RpcId, id: RpcId)
    requires rt.phase.Ready? && SoundFrom(ok, |rt.lines|)
    ensures var (exit, rt') := Prompt(ok, rt, prompt, GrantThenCancel(id));
            exit.None? && rt'.lines == rt.lines + [PromptLine(prompt)] + [PermissionReply(id, true)]
                                       + [CancelLine] + [PermissionReply(id, false)]
  {
    var inputs := GrantThenCancel(id);
    assert inputs[1..] == [inputs[1]] && inputs[1..][1..] == [];
    var rt1 := Write(ok, Begun(rt, prompt), PromptLine(prompt)).1;
    var (exit2, rt2, sent2) := Iterate(ok, prompt, rt1, false, inputs[0]);
    assert exit2.None? && !sent2 && rt2.phase == Prompting([id]) && rt2.lines == rt1.lines + [PermissionReply(id, true)];
    OneAnswer(ok, rt2.(phase := Cancelling([])), id);
    assert [SendCancelNotification] + Answers([id]) == [SendCancelNotification, AnswerPermissionCancelled(id)];
    var (exit3, rt3, _) := Iterate(ok, prompt, rt2, false, inputs[1]);
    assert exit3.None?;
    assert Loop(ok, prompt, rt2, false, inputs[1..]) == (None, rt3);
  }

  lemma OneAnswer(ok: WriteOracle, rt: Runtime, id: RpcId)
    requires SoundFrom(ok, |rt.lines|)
    ensures Execute(ok, rt, [SendCancelNotification, AnswerPermissionCancelled(id)])
            == (true, rt.(lines := rt.lines + [CancelLine] + [PermissionReply(id, false)]))
  {
    var actions := [SendCancelNotification, AnswerPermissionCancelled(id)];
    assert actions[1..] == [AnswerPermissionCancelled(id)] && actions[1..][1..] == [];
    var rt1 := rt.(lines := rt.lines + [CancelLine]);
    assert Execute(ok, rt1, actions[1..]) == (true, rt1.(lines := rt1.lines + [PermissionReply(id, false)]));
  }
}
