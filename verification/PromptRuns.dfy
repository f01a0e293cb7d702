/** What one prompt call guarantees on every input trace. */
module PromptRuns {
  import opened Bytes
  import opened AgentLifecycles
  import opened PromptDeliveries
  import opened PromptRuntimes

  /** An error response carrying the prompt's id is among the reads made since read number `start`. */
  predicate ErrorReadSince(prompt: RpcId, start: nat, inbox: seq<Read>) {
    exists i | start <= i < |inbox| :: inbox[i] == Received(ErrorResponse(prompt))
  }

  /** The attempt is on the wire and nothing has classified it yet. */
  predicate Undecided(d: Delivery) { d == Delivery(Indeterminate, true, None) }

  /** Every write from number `first` on succeeds. */
  ghost predicate SoundFrom(ok: WriteOracle, first: nat) {
    forall k | k >= first :: ok(k)
  }

  // ---- writes change nothing but the line log ----

  predicate IsCancel(line: Line) { line.CancelLine? }
  predicate IsPrompt(line: Line) { line.PromptLine? }

  function Count(lines: seq<Line>, what: Line -> bool): nat {
    if lines == [] then 0
    else Count(lines[..|lines| - 1], what) + (if what(lines[|lines| - 1]) then 1 else 0)
  }

  lemma CountAppend(lines: seq<Line>, line: Line, what: Line -> bool)
    ensures Count(lines + [line], what) == Count(lines, what) + (if what(line) then 1 else 0)
  {
    assert (lines + [line])[..|lines|] == lines;
  }

  /** From `rt` to `rt'` only lines were written: no prompt, at most `notices` cancels, all of them when done. */
  ghost predicate OnlyWrote(ok: WriteOracle, rt: Runtime, notices: nat, done: bool, rt': Runtime) {
    && rt' == rt.(lines := rt'.lines)
    && Count(rt'.lines, IsCancel) <= Count(rt.lines, IsCancel) + notices
    && (done ==> Count(rt'.lines, IsCancel) == Count(rt.lines, IsCancel) + notices)
    && Count(rt'.lines, IsPrompt) == Count(rt.lines, IsPrompt)
    && |rt.lines| <= |rt'.lines| && (SoundFrom(ok, |rt.lines|) ==> done)
  }

  lemma WroteOne(ok: WriteOracle, rt: Runtime, line: Line)
    requires !line.PromptLine?
    ensures var (done, rt') := Write(ok, rt, line);
            OnlyWrote(ok, rt, if line.CancelLine? then 1 else 0, done, rt')
  {
    CountAppend(rt.lines, line, IsCancel);
    CountAppend(rt.lines, line, IsPrompt);
  }

  lemma WroteMore(ok: WriteOracle, rt: Runtime, n: nat, rt1: Runtime, n': nat, done: bool, rt2: Runtime)
    requires OnlyWrote(ok, rt, n, true, rt1) && OnlyWrote(ok, rt1, n', done, rt2)
    ensures OnlyWrote(ok, rt, n + n', done, rt2)
  {
  }

  lemma {:induction false} ExecuteOnlyWrites(ok: WriteOracle, rt: Runtime, actions: seq<HostAction>)
    ensures var (done, rt') := Execute(ok, rt, actions);
            OnlyWrote(ok, rt, NoticesIn(actions), done, rt')
    decreases |actions|
  {
    if actions != [] {
      var line := match actions[0]
                  case SendCancelNotification => Some(CancelLine)
                  case AnswerPermissionCancelled(id) => Some(PermissionReply(id, false))
                  case _ => None;
      var more := NoticesIn(actions[1..]);
      if line.Some? {
        WroteOne(ok, rt, line.value);
        var (written, rt1) := Write(ok, rt, line.value);
        ExecuteOnlyWrites(ok, rt1, actions[1..]);
        if written {
          var (done, rt2) := Execute(ok, rt1, actions[1..]);
          WroteMore(ok, rt, if line.value.CancelLine? then 1 else 0, rt1, more, done, rt2);
        }
      } else {
        ExecuteOnlyWrites(ok, rt, actions[1..]);
      }
    }
  }

  lemma TriggerCancelFrame(ok: WriteOracle, rt: Runtime)
    ensures var (done, rt') := TriggerCancel(ok, rt);
            && rt' == rt.(lines := rt'.lines, phase := rt'.phase)
            && Count(rt'.lines, IsCancel) <= Count(rt.lines, IsCancel) + 1
            && (done ==> Count(rt'.lines, IsCancel) == Count(rt.lines, IsCancel) + 1)
            && Count(rt'.lines, IsPrompt) == Count(rt.lines, IsPrompt)
            && |rt.lines| <= |rt'.lines|
            && (rt.phase.Prompting? && SoundFrom(ok, |rt.lines|) ==> done)
            && (!rt.phase.Prompting? ==> !done && rt' == rt)
  {
    if rt.phase.Prompting? {
      var actions := [SendCancelNotification] + Answers(rt.phase.pending);
      assert actions[1..] == Answers(rt.phase.pending);
      AnsweredInAnswers(rt.phase.pending);
      ExecuteOnlyWrites(ok, rt.(phase := Cancelling([])), actions);
    }
  }

  // ---- one message ----

  lemma HandleFrame(ok: WriteOracle, prompt: RpcId, rt: Runtime, m: Message, verdict: PermissionVerdict)
    ensures var (exit, rt') := Handle(ok, prompt, rt, m, verdict);
            && rt'.inbox == rt.inbox && |rt.lines| <= |rt'.lines|
            && Count(rt'.lines, IsCancel) == Count(rt.lines, IsCancel)
            && Count(rt'.lines, IsPrompt) == Count(rt.lines, IsPrompt)
            && exit != Some(CancelFailed)
  {
    hide Count, Answers;
    match m
    case PermissionRequest(id, _) =>
      CountAppend(rt.lines, PermissionReply(id, false), IsCancel);
      CountAppend(rt.lines, PermissionReply(id, false), IsPrompt);
      CountAppend(rt.lines, PermissionReply(id, verdict.Granted?), IsCancel);
      CountAppend(rt.lines, PermissionReply(id, verdict.Granted?), IsPrompt);
    case OtherRequest(id) =>
      CountAppend(rt.lines, RefusalLine(id), IsCancel);
      CountAppend(rt.lines, RefusalLine(id), IsPrompt);
    case _ =>
  }

  /** How an exit leaves the attempt classified. */
  predicate Classified(exit: Exit, d: Delivery, prompt: RpcId, m: Read) {
    match exit
    case Completed => d == Delivery(Confirmed, false, None)
    case ResultMalformed => d == Delivery(Confirmed, false, None)
    case RpcFailed => d == Delivery(Rejected, false, None)
    case ReadFailed => d == Delivery(Indeterminate, false, Some(ProcessExited))
    case UnexpectedEof => d == Delivery(Indeterminate, false, Some(ProcessExited))
    case MalformedLine => d == Delivery(Indeterminate, false, Some(ProcessExited))
    case RefusedOrder =>
      if m == Received(ErrorResponse(prompt)) then d == Delivery(Rejected, false, None)
      else Undecided(d) || d == Delivery(Confirmed, false, None)
    case _ => Undecided(d)
  }

  lemma HandleClassifies(ok: WriteOracle, prompt: RpcId, rt: Runtime, m: Message, verdict: PermissionVerdict)
    requires Undecided(rt.delivery)
    ensures var (exit, rt') := Handle(ok, prompt, rt, m, verdict);
            && (exit.None? ==> Undecided(rt'.delivery) && m != ErrorResponse(prompt))
            && (exit.Some? ==> Classified(exit.value, rt'.delivery, prompt, Received(m)))
            && (m == ErrorResponse(prompt) ==> exit == Some(RpcFailed) || exit == Some(RefusedOrder))
            && (exit == Some(RpcFailed) ==> m == ErrorResponse(prompt))
  {
  }

  // ---- one iteration ----

  /** The iteration's effect on classification, reads and cancel writes. */
  predicate IterationOk(prompt: RpcId, rt: Runtime, sent: bool, input: LoopInput, exit: Option<Exit>, rt': Runtime, sent': bool) {
    && (rt'.inbox == rt.inbox + [input.read] || (rt'.inbox == rt.inbox && exit == Some(CancelFailed)))
    && (exit.None? ==> Undecided(rt'.delivery) && input.read != Received(ErrorResponse(prompt)))
    && (exit.Some? ==> Classified(exit.value, rt'.delivery, prompt, input.read))
    && (rt'.inbox != rt.inbox && input.read == Received(ErrorResponse(prompt)) ==>
          exit == Some(CancelFailed) || exit == Some(RpcFailed) || exit == Some(RefusedOrder))
    && (exit == Some(RpcFailed) ==> input.read == Received(ErrorResponse(prompt)))
    && Count(rt'.lines, IsCancel) <= Count(rt.lines, IsCancel) + (if sent then 0 else 1)
    && (exit.None? ==> Count(rt'.lines, IsCancel) == Count(rt.lines, IsCancel) + (if sent' && !sent then 1 else 0))
    && Count(rt'.lines, IsPrompt) == Count(rt.lines, IsPrompt)
    && (sent ==> sent')
  }

  lemma ProcessIsOk(ok: WriteOracle, prompt: RpcId, rt: Runtime, sent: bool, m: Message, input: LoopInput)
    requires Undecided(rt.delivery) && input.read == Received(m)
    ensures var (exit, rt', sent') := Process(ok, prompt, rt.(inbox := rt.inbox + [input.read]), sent, m, input);
            IterationOk(prompt, rt, sent, input, exit, rt', sent')
  {
    hide TriggerCancel, Handle, Count;
    var rt0 := rt.(inbox := rt.inbox + [input.read]);
    TriggerCancelFrame(ok, rt0);
    var rt1 := if input.handlerCancels && !sent then TriggerCancel(ok, rt0).1 else rt0;
    HandleFrame(ok, prompt, rt1, m, input.verdict);
    HandleClassifies(ok, prompt, rt1, m, input.verdict);
  }

  lemma IterateIsOk(ok: WriteOracle, prompt: RpcId, rt: Runtime, sent: bool, input: LoopInput)
    requires Undecided(rt.delivery)
    ensures var (exit, rt', sent') := Iterate(ok, prompt, rt, sent, input);
            IterationOk(prompt, rt, sent, input, exit, rt', sent')
  {
    hide TriggerCancel, Process, Count;
    TriggerCancelFrame(ok, rt);
    var asks := input.signal && !sent;
    var (done, rt1) := if asks then TriggerCancel(ok, rt) else (true, rt);
    if done && input.read.Received? {
      ProcessIsOk(ok, prompt, rt1, sent || asks, input.read.message, input);
    }
  }

  // ---- the whole loop ----

  /** How a call that made its reads from number `start` on may end. */
  predicate LoopOk(prompt: RpcId, start: nat, exit: Option<Exit>, rt: Runtime) {
    && (exit.None? ==> Undecided(rt.delivery))
    && rt.delivery.state != Absent
    && (rt.delivery.MayResend() <==> ErrorReadSince(prompt, start, rt.inbox) && exit != Some(CancelFailed))
  }

  lemma {:induction false} LoopIsOk(ok: WriteOracle, prompt: RpcId, rt: Runtime, sent: bool, inputs: seq<LoopInput>, start: nat)
    requires Undecided(rt.delivery) && start <= |rt.inbox| && !ErrorReadSince(prompt, start, rt.inbox)
    ensures var (exit, rt') := Loop(ok, prompt, rt, sent, inputs);
            && LoopOk(prompt, start, exit, rt')
            && Count(rt'.lines, IsCancel) <= Count(rt.lines, IsCancel) + (if sent then 0 else 1)
            && Count(rt'.lines, IsPrompt) == Count(rt.lines, IsPrompt)
    decreases |inputs|
  {
    hide Iterate, Count;
    if inputs != [] {
      IterateIsOk(ok, prompt, rt, sent, inputs[0]);
      var (exit, rt', sent') := Iterate(ok, prompt, rt, sent, inputs[0]);
      InboxStep(prompt, start, rt.inbox, inputs[0].read);
      if exit.None? {
        LoopIsOk(ok, prompt, rt', sent', inputs[1..], start);
      }
    }
  }

  lemma InboxStep(prompt: RpcId, start: nat, inbox: seq<Read>, read: Read)
    requires start <= |inbox| && !ErrorReadSince(prompt, start, inbox)
    ensures ErrorReadSince(prompt, start, inbox + [read]) <==> read == Received(ErrorResponse(prompt))
  {
    if read == Received(ErrorResponse(prompt)) {
      assert (inbox + [read])[|inbox|] == read;
    }
  }

  /**
   On every trace: the prompt line is written once and a cancel at most once, the attempt never ends
   `Absent`, and it may be re-sent exactly when its error response was read and no cancel failed on it.
   */
  lemma PromptIsClassified(ok: WriteOracle, rt: Runtime, prompt: RpcId, inputs: seq<LoopInput>)
    ensures var (exit, rt') := Prompt(ok, rt, prompt, inputs);
            && LoopOk(prompt, |rt.inbox|, exit, rt')
            && Count(rt'.lines, IsCancel) <= Count(rt.lines, IsCancel) + 1
            && Count(rt'.lines, IsPrompt) == Count(rt.lines, IsPrompt) + 1
  {
    hide Loop, Count;
    var (done, rt1) := Write(ok, Begun(rt, prompt), PromptLine(prompt));
    CountAppend(rt.lines, PromptLine(prompt), IsCancel);
    CountAppend(rt.lines, PromptLine(prompt), IsPrompt);
    if done {
      LoopIsOk(ok, prompt, rt1, false, inputs, |rt.inbox|);
    }
  }

  /** A prompt whose very write fails still ends indeterminate, so it is never re-sent automatically. */
  lemma FailedPromptWriteIsIndeterminate(ok: WriteOracle, rt: Runtime, prompt: RpcId, inputs: seq<LoopInput>)
    requires !ok(|rt.lines|)
    ensures var (exit, rt') := Prompt(ok, rt, prompt, inputs);
            exit == Some(WriteFailed) && rt'.delivery.state == Indeterminate && !rt'.delivery.MayResend()
  {
  }

  // ---- when "an error response makes the prompt re-sendable" holds ----

  /** The rule for one call: re-sendable exactly when the error response was read. */
  predicate RejectionRule(ok: WriteOracle, rt: Runtime, prompt: RpcId, inputs: seq<LoopInput>) {
    var rt' := Prompt(ok, rt, prompt, inputs).1;
    rt'.delivery.MayResend() <==> ErrorReadSince(prompt, |rt.inbox|, rt'.inbox)
  }

  /** The error response arrives while the event handler asks for a cancel. */
  function Clash(prompt: RpcId): LoopInput {
    LoopInput(false, Received(ErrorResponse(prompt)), true, NoOutcome)
  }

  /** A request the host refuses with one line. */
  function Chatter(prompt: RpcId): LoopInput {
    LoopInput(false, Received(OtherRequest(prompt)), false, NoOutcome)
  }

  /** While no cancel was sent the turn stays open, so on a sound transport a cancel cannot fail. */
  lemma {:induction false} SoundLoopNeverFailsToCancel(ok: WriteOracle, prompt: RpcId, rt: Runtime, sent: bool, inputs: seq<LoopInput>)
    requires SoundFrom(ok, |rt.lines|)
    requires sent || rt.phase.Prompting?
    ensures Loop(ok, prompt, rt, sent, inputs).0 != Some(CancelFailed)
    decreases |inputs|
  {
    if inputs != [] {
      SoundIteration(ok, prompt, rt, sent, inputs[0]);
      hide Iterate;
      var (exit, rt', sent') := Iterate(ok, prompt, rt, sent, inputs[0]);
      if exit.None? {
        SoundLoopNeverFailsToCancel(ok, prompt, rt', sent', inputs[1..]);
      }
    }
  }

  lemma SoundIteration(ok: WriteOracle, prompt: RpcId, rt: Runtime, sent: bool, input: LoopInput)
    requires SoundFrom(ok, |rt.lines|)
    requires sent || rt.phase.Prompting?
    ensures var (exit, rt', sent') := Iterate(ok, prompt, rt, sent, input);
            |rt.lines| <= |rt'.lines| && exit != Some(CancelFailed) && (exit.None? ==> sent' || rt'.phase.Prompting?)
  {
    hide TriggerCancel, Handle, Count;
    TriggerCancelFrame(ok, rt);
    var asks := input.signal && !sent;
    var rt1 := if asks then TriggerCancel(ok, rt).1 else rt;
    var rt2 := rt1.(inbox := rt1.inbox + [input.read]);
    TriggerCancelFrame(ok, rt2);
    if input.read.Received? {
      var rt3 := if input.handlerCancels && !(sent || asks) then TriggerCancel(ok, rt2).1 else rt2;
      HandleFrame(ok, prompt, rt3, input.read.message, input.verdict);
      if rt3.phase.Prompting? {
        HandleKeepsPrompting(ok, prompt, rt3, input.read.message, input.verdict);
      }
    }
  }

  lemma HandleKeepsPrompting(ok: WriteOracle, prompt: RpcId, rt: Runtime, m: Message, verdict: PermissionVerdict)
    requires rt.phase.Prompting?
    ensures var (exit, rt') := Handle(ok, prompt, rt, m, verdict);
            exit.None? ==> rt'.phase.Prompting?
  {
    hide Answers;
  }

  /** A run of chatter uses up sound writes and then the cancel meets the first bad one. */
  lemma {:induction false} ChatterThenClash(ok: WriteOracle, prompt: RpcId, rt: Runtime, n: nat, start: nat)
    requires Undecided(rt.delivery) && start <= |rt.inbox| && !ErrorReadSince(prompt, start, rt.inbox)
    requires forall k | |rt.lines| <= k < |rt.lines| + n :: ok(k)
    requires !rt.phase.Prompting? || !ok(|rt.lines| + n)
    ensures var inputs := seq(n, i => Chatter(prompt)) + [Clash(prompt)];
            var (exit, rt') := Loop(ok, prompt, rt, false, inputs);
            exit == Some(CancelFailed) && ErrorReadSince(prompt, start, rt'.inbox)
    decreases n
  {
    var inputs := seq(n, i => Chatter(prompt)) + [Clash(prompt)];
    if n == 0 {
      assert inputs[0] == Clash(prompt);
      CancelMeetsBadWrite(ok, rt.(inbox := rt.inbox + [Clash(prompt).read]));
      InboxStep(prompt, start, rt.inbox, Clash(prompt).read);
    } else {
      assert inputs[0] == Chatter(prompt);
      assert inputs[1..] == seq(n - 1, i => Chatter(prompt)) + [Clash(prompt)];
      var rt' := Iterate(ok, prompt, rt, false, Chatter(prompt)).1;
      InboxStep(prompt, start, rt.inbox, Chatter(prompt).read);
      ChatterThenClash(ok, prompt, rt', n - 1, start);
    }
  }

  lemma CancelMeetsBadWrite(ok: WriteOracle, rt: Runtime)
    requires !rt.phase.Prompting? || !ok(|rt.lines|)
    ensures !TriggerCancel(ok, rt).0 && TriggerCancel(ok, rt).1.inbox == rt.inbox
  {
    TriggerCancelFrame(ok, rt);
  }

  /** The first write number from `start` on that fails. */
  lemma FirstBadWrite(ok: WriteOracle, start: nat, bad: nat) returns (n: nat)
    requires start <= bad && !ok(bad)
    ensures !ok(start + n) && forall k | start <= k < start + n :: ok(k)
  {
    n := 0;
    while ok(start + n)
      invariant start + n <= bad
      invariant forall k | start <= k < start + n :: ok(k)
      decreases bad - (start + n)
    {
      n := n + 1;
    }
  }

  /** The call starts with a turn that can be cancelled. */
  predicate CancellableStart(phase: Phase) { phase.Ready? || phase.Prompting? }

  /**
   The rule holds on every input trace exactly when the prompt write itself fails, or the lifecycle was
   ready (or still prompting) and every later write succeeds.
   */
  lemma RejectionRuleHoldsIff(ok: WriteOracle, rt: Runtime, prompt: RpcId)
    ensures (forall inputs :: RejectionRule(ok, rt, prompt, inputs))
            <==> !ok(|rt.lines|) || (CancellableStart(rt.phase) && SoundFrom(ok, |rt.lines| + 1))
  {
    var n := |rt.lines|;
    var begun := Write(ok, Begun(rt, prompt), PromptLine(prompt)).1;
    if !ok(n) || (CancellableStart(rt.phase) && SoundFrom(ok, n + 1)) {
      forall inputs ensures RejectionRule(ok, rt, prompt, inputs) {
        PromptIsClassified(ok, rt, prompt, inputs);
        if ok(n) {
          SoundLoopNeverFailsToCancel(ok, prompt, begun, false, inputs);
        }
      }
    } else {
      var k := 0;
      if CancellableStart(rt.phase) {
        var bad :| bad >= n + 1 && !ok(bad);
        k := FirstBadWrite(ok, n + 1, bad);
      }
      ChatterThenClash(ok, prompt, begun, k, |rt.inbox|);
      var inputs := seq(k, i => Chatter(prompt)) + [Clash(prompt)];
      PromptIsClassified(ok, rt, prompt, inputs);
      assert !RejectionRule(ok, rt, prompt, inputs);
    }
  }
}
