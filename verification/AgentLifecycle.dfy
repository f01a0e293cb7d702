/** The agent-process decision machine and its cancellation contract. */
module AgentLifecycles {
  import opened Bytes

  datatype RpcId = Number(value: u64) | Text(text: string)

  datatype Phase =
    | Ready
    | Prompting(pending: seq<RpcId>)
    | Cancelling(pending: seq<RpcId>)
    | Killing
    | Dead

  datatype HostAction =
    | Continue
    | SendCancelNotification
    | AnswerPermissionCancelled(id: RpcId)
    | TurnSettled
    | KillAndReap

  datatype LifecycleError = OutOfOrder

  // ---- the machine as a function ----

  datatype Input =
    | PromptWritten
    | PermissionRequested(id: RpcId)
    | CancelRequested
    | PromptSettled
    | ProcessLost
    | IdleElapsed
    | Reaped

  function Answers(ids: seq<RpcId>): (actions: seq<HostAction>)
    ensures |actions| == |ids|
    ensures forall i | 0 <= i < |ids| :: actions[i] == AnswerPermissionCancelled(ids[i])
  {
    seq(|ids|, i requires 0 <= i < |ids| => AnswerPermissionCancelled(ids[i]))
  }

  /** The next phase, and the actions or the refusal. A refused input changes nothing. */
  function Step(phase: Phase, input: Input): (Phase, Result<seq<HostAction>, LifecycleError>) {
    match input
    case PromptWritten =>
      (if phase.Ready? then Prompting([]) else phase, Ok([]))
    case PermissionRequested(id) =>
      if phase.Prompting? then (Prompting(phase.pending + [id]), Ok([Continue]))
      else if phase.Cancelling? then (phase, Ok([AnswerPermissionCancelled(id)]))
      else (phase, Err(OutOfOrder))
    case CancelRequested =>
      if phase.Prompting? then (Cancelling([]), Ok([SendCancelNotification] + Answers(phase.pending)))
      else (phase, Err(OutOfOrder))
    case PromptSettled =>
      if phase.Prompting? || phase.Cancelling? then (Ready, Ok([TurnSettled])) else (phase, Err(OutOfOrder))
    case ProcessLost => (Dead, Ok([KillAndReap]))
    case IdleElapsed => (Killing, Ok([KillAndReap]))
    case Reaped => (if phase.Killing? then Dead else phase, Ok([]))
  }

  class AgentLifecycle {
    var phase: Phase

    constructor Spawned()
      ensures phase == Ready
    {
      phase := Ready;
    }

    method OnPromptWritten()
      modifies this
      ensures phase == Step(old(phase), PromptWritten).0
    {
      if phase.Ready? {
        phase := Prompting([]);
      }
    }

    method OnPermissionRequested(id: RpcId) returns (r: Result<seq<HostAction>, LifecycleError>)
      modifies this
      ensures (phase, r) == Step(old(phase), PermissionRequested(id))
    {
      match phase {
        case Prompting(pending) =>
          phase := Prompting(pending + [id]);
          return Ok([Continue]);
        case Cancelling(_) =>
          return Ok([AnswerPermissionCancelled(id)]);
        case _ =>
          return Err(OutOfOrder);
      }
    }

    method OnCancelRequested() returns (r: Result<seq<HostAction>, LifecycleError>)
      modifies this
      ensures (phase, r) == Step(old(phase), CancelRequested)
    {
      if !phase.Prompting? {
        return Err(OutOfOrder);
      }
      var actions := [SendCancelNotification] + Answers(phase.pending);
      phase := Cancelling([]);
      return Ok(actions);
    }

    method OnPromptSettled() returns (r: Result<seq<HostAction>, LifecycleError>)
      modifies this
      ensures (phase, r) == Step(old(phase), PromptSettled)
    {
      match phase {
        case Prompting(_) => phase := Ready; return Ok([TurnSettled]);
        case Cancelling(_) => phase := Ready; return Ok([TurnSettled]);
        case _ => return Err(OutOfOrder);
      }
    }

    method OnProcessLost() returns (actions: seq<HostAction>)
      modifies this
      ensures (phase, Ok(actions)) == Step(old(phase), ProcessLost)
    {
      phase := Dead;
      return [KillAndReap];
    }

    method OnIdleElapsed() returns (actions: seq<HostAction>)
      modifies this
      ensures (phase, Ok(actions)) == Step(old(phase), IdleElapsed)
    {
      phase := Killing;
      return [KillAndReap];
    }

    method OnReaped()
      modifies this
      ensures phase == Step(old(phase), Reaped).0
    {
      if phase.Killing? {
        phase := Dead;
      }
    }
  }

  // ---- runs ----

  /** The actions one input emits; a refusal emits none. */
  function Emitted(phase: Phase, input: Input): seq<HostAction> {
    var r := Step(phase, input).1;
    if r.Ok? then r.value else []
  }

  function RunPhase(phase: Phase, inputs: seq<Input>): Phase
    decreases |inputs|
  {
    if inputs == [] then phase else RunPhase(Step(phase, inputs[0]).0, inputs[1..])
  }

  function RunActions(phase: Phase, inputs: seq<Input>): seq<HostAction>
    decreases |inputs|
  {
    if inputs == [] then [] else Emitted(phase, inputs[0]) + RunActions(Step(phase, inputs[0]).0, inputs[1..])
  }

  // ---- the cancellation contract ----

  /** What happened since the running turn began. */
  datatype Turn = Turn(requested: multiset<RpcId>, answered: multiset<RpcId>, notices: nat, cancelled: bool)

  const NEW_TURN: Turn := Turn(multiset{}, multiset{}, 0, false)

  function AnsweredIn(actions: seq<HostAction>): multiset<RpcId> {
    if actions == [] then multiset{}
    else
      (if actions[0].AnswerPermissionCancelled? then multiset{actions[0].id} else multiset{})
      + AnsweredIn(actions[1..])
  }

  function NoticesIn(actions: seq<HostAction>): nat {
    if actions == [] then 0 else (if actions[0].SendCancelNotification? then 1 else 0) + NoticesIn(actions[1..])
  }

  predicate Running(phase: Phase) { phase.Prompting? || phase.Cancelling? }

  /** The record of the running turn: it restarts when a turn begins and stands still between turns. */
  function Noted(turn: Turn, phase: Phase, input: Input): Turn {
    var phase' := Step(phase, input).0;
    if !Running(phase) && Running(phase') then NEW_TURN
    else if !Running(phase) || !Running(phase') then turn
    else
      var requested :=
        if input.PermissionRequested? then turn.requested + multiset{input.id} else turn.requested;
      Turn(requested, turn.answered + AnsweredIn(Emitted(phase, input)),
           turn.notices + NoticesIn(Emitted(phase, input)),
           turn.cancelled || (input.CancelRequested? && phase.Prompting?))
  }

  function RunTurn(turn: Turn, phase: Phase, inputs: seq<Input>): Turn
    decreases |inputs|
  {
    if inputs == [] then turn else RunTurn(Noted(turn, phase, inputs[0]), Step(phase, inputs[0]).0, inputs[1..])
  }

  /** Until a cancel nothing is answered and every request is pending; from then on all requests are answered. */
  ghost predicate Accounted(turn: Turn, phase: Phase) {
    && (phase.Prompting? ==>
          !turn.cancelled && turn.notices == 0 && turn.answered == multiset{} && turn.requested == multiset(phase.pending))
    && (phase.Cancelling? ==>
          turn.cancelled && turn.notices == 1 && turn.answered == turn.requested && phase.pending == [])
  }

  lemma {:induction false} AnsweredInAnswers(ids: seq<RpcId>)
    ensures AnsweredIn(Answers(ids)) == multiset(ids)
    ensures NoticesIn(Answers(ids)) == 0
  {
    if ids != [] {
      AnsweredInAnswers(ids[1..]);
      assert Answers(ids)[1..] == Answers(ids[1..]);
      assert ids == [ids[0]] + ids[1..];
    }
  }

  lemma CancelAnswersPending(turn: Turn, phase: Phase)
    requires Accounted(turn, phase) && phase.Prompting?
    ensures Accounted(Noted(turn, phase, CancelRequested), Step(phase, CancelRequested).0)
  {
    var actions := Emitted(phase, CancelRequested);
    assert actions == [SendCancelNotification] + Answers(phase.pending);
    assert actions[1..] == Answers(phase.pending);
    AnsweredInAnswers(phase.pending);
    hide Answers;
  }

  lemma RequestIsAccounted(turn: Turn, phase: Phase, id: RpcId)
    requires Accounted(turn, phase) && Running(phase)
    ensures Accounted(Noted(turn, phase, PermissionRequested(id)), Step(phase, PermissionRequested(id)).0)
  {
    hide Answers;
    assert AnsweredIn([Continue]) == multiset{} && NoticesIn([Continue]) == 0;
    assert AnsweredIn([AnswerPermissionCancelled(id)]) == multiset{id};
    assert NoticesIn([AnswerPermissionCancelled(id)]) == 0;
  }

  lemma StepKeepsAccounted(turn: Turn, phase: Phase, input: Input)
    requires Accounted(turn, phase)
    ensures Accounted(Noted(turn, phase, input), Step(phase, input).0)
  {
    hide Answers;
    if phase.Prompting? && input.CancelRequested? {
      CancelAnswersPending(turn, phase);
    } else if Running(phase) && input.PermissionRequested? {
      RequestIsAccounted(turn, phase, input.id);
    } else {
      assert AnsweredIn([]) == multiset{} && NoticesIn([]) == 0;
    }
  }

  /** In every run, a cancelled turn has sent one cancel and answered exactly the requests it received. */
  lemma {:induction false} CancelledTurnAnswersEveryRequest(turn: Turn, phase: Phase, inputs: seq<Input>)
    requires Accounted(turn, phase)
    ensures var turn' := RunTurn(turn, phase, inputs);
            var phase' := RunPhase(phase, inputs);
            && Accounted(turn', phase')
            && (Running(phase') && turn'.cancelled ==> turn'.answered == turn'.requested && turn'.notices == 1)
    decreases |inputs|
  {
    if inputs != [] {
      StepKeepsAccounted(turn, phase, inputs[0]);
      CancelledTurnAnswersEveryRequest(Noted(turn, phase, inputs[0]), Step(phase, inputs[0]).0, inputs[1..]);
    }
  }

  /** The record kept at the moment a turn ends is that of the ended turn. */
  lemma EndOfTurnIsAccounted(turn: Turn, phase: Phase, input: Input)
    requires Accounted(turn, phase) && Running(phase) && !Running(Step(phase, input).0)
    ensures Noted(turn, phase, input) == turn
    ensures turn.cancelled ==> turn.answered == turn.requested && turn.notices == 1
    ensures !turn.cancelled ==> turn.answered == multiset{} && turn.notices == 0
    ensures Emitted(phase, input) == if input.PromptSettled? then [TurnSettled] else [KillAndReap]
  {
  }

  // ---- the child does not come back ----

  /** After the first kill order the machine emits nothing but kill orders and never runs a turn again. */
  lemma {:induction false} KillIsFinal(phase: Phase, before: seq<Input>, after: seq<Input>)
    requires KillAndReap in RunActions(phase, before)
    ensures !Running(RunPhase(phase, before + after)) && !RunPhase(phase, before + after).Ready?
    ensures forall a | a in RunActions(RunPhase(phase, before), after) :: a == KillAndReap
  {
    KillLeadsDown(phase, before);
    RunPhaseSplits(phase, before, after);
    DownStaysDown(RunPhase(phase, before), after);
  }

  predicate Down(phase: Phase) { phase.Killing? || phase.Dead? }

  lemma {:induction false} DownStaysDown(phase: Phase, inputs: seq<Input>)
    requires Down(phase)
    ensures Down(RunPhase(phase, inputs))
    ensures forall a | a in RunActions(phase, inputs) :: a == KillAndReap
    decreases |inputs|
  {
    if inputs != [] {
      DownStaysDown(Step(phase, inputs[0]).0, inputs[1..]);
    }
  }

  lemma {:induction false} KillLeadsDown(phase: Phase, inputs: seq<Input>)
    requires KillAndReap in RunActions(phase, inputs)
    ensures Down(RunPhase(phase, inputs))
    decreases |inputs|
  {
    var phase' := Step(phase, inputs[0]).0;
    if KillAndReap in Emitted(phase, inputs[0]) {
      DownStaysDown(phase', inputs[1..]);
    } else {
      KillLeadsDown(phase', inputs[1..]);
    }
  }

  lemma {:induction false} RunPhaseSplits(phase: Phase, first: seq<Input>, second: seq<Input>)
    ensures RunPhase(phase, first + second) == RunPhase(RunPhase(phase, first), second)
    decreases |first|
  {
    if first == [] {
      assert first + second == second;
    } else {
      assert (first + second)[1..] == first[1..] + second;
      RunPhaseSplits(Step(phase, first[0]).0, first[1..], second);
    }
  }

  // ---- the phase, told from the inputs alone ----

  predicate Gone(past: seq<Input>) { ProcessLost in past || IdleElapsed in past }

  /** The child was last given an idle kill and neither reaped nor lost since. */
  ghost predicate BeingKilled(past: seq<Input>) {
    exists i | 0 <= i < |past| :: past[i] == IdleElapsed && ProcessLost !in past[i..] && Reaped !in past[i..]
  }

  /** A prompt was written and has not settled since. */
  ghost predicate InTurn(past: seq<Input>) {
    !Gone(past) && exists i | 0 <= i < |past| :: past[i] == PromptWritten && PromptSettled !in past[i..]
  }

  /** A cancel was requested in the running turn. */
  ghost predicate IsCancelled(past: seq<Input>) {
    !Gone(past) && exists i | 0 <= i < |past| :: CancelledAt(past, i)
  }

  ghost predicate CancelledAt(past: seq<Input>, i: nat)
    requires i < |past|
  {
    past[i] == CancelRequested && InTurn(past[..i]) && PromptSettled !in past[i..]
  }

  ghost predicate Told(phase: Phase, past: seq<Input>) {
    && (phase.Prompting? <==> InTurn(past) && !IsCancelled(past))
    && (phase.Cancelling? <==> IsCancelled(past))
    && (phase.Killing? <==> BeingKilled(past))
    && (Down(phase) <==> Gone(past))
    && (IsCancelled(past) ==> InTurn(past))
  }

  lemma SinceGrows(past: seq<Input>, x: Input, i: nat, y: Input)
    requires i <= |past|
    ensures y in (past + [x])[i..] <==> y in past[i..] || y == x
  {
    assert (past + [x])[i..] == past[i..] + [x];
  }

  lemma GoneGrows(past: seq<Input>, x: Input)
    ensures Gone(past + [x]) <==> Gone(past) || x == ProcessLost || x == IdleElapsed
  {
  }

  lemma BeingKilledGrows(past: seq<Input>, x: Input)
    ensures BeingKilled(past + [x]) <==> x == IdleElapsed || (BeingKilled(past) && x != ProcessLost && x != Reaped)
  {
    var longer := past + [x];
    if i :| 0 <= i < |past| && past[i] == IdleElapsed && ProcessLost !in past[i..] && Reaped !in past[i..] {
      SinceGrows(past, x, i, ProcessLost);
      SinceGrows(past, x, i, Reaped);
      assert longer[i] == IdleElapsed;
    }
    if i :| 0 <= i < |longer| && longer[i] == IdleElapsed && ProcessLost !in longer[i..] && Reaped !in longer[i..] {
      SinceGrows(past, x, i, ProcessLost);
      SinceGrows(past, x, i, Reaped);
      assert i < |past| ==> past[i] == IdleElapsed;
    }
    assert longer[|past|] == x && longer[|past|..] == [x];
  }

  lemma InTurnGrows(past: seq<Input>, x: Input)
    ensures InTurn(past + [x]) <==>
              !Gone(past + [x]) && x != PromptSettled && (x == PromptWritten || InTurn(past))
  {
    var longer := past + [x];
    GoneGrows(past, x);
    if i :| 0 <= i < |past| && past[i] == PromptWritten && PromptSettled !in past[i..] {
      SinceGrows(past, x, i, PromptSettled);
      assert longer[i] == PromptWritten;
    }
    if i :| 0 <= i < |longer| && longer[i] == PromptWritten && PromptSettled !in longer[i..] {
      SinceGrows(past, x, i, PromptSettled);
      assert i < |past| ==> past[i] == PromptWritten;
    }
    assert longer[|past|] == x && longer[|past|..] == [x];
  }

  lemma IsCancelledGrows(past: seq<Input>, x: Input)
    ensures IsCancelled(past + [x]) <==>
              !Gone(past + [x]) && x != PromptSettled && (IsCancelled(past) || (x == CancelRequested && InTurn(past)))
  {
    hide InTurn;
    var longer := past + [x];
    GoneGrows(past, x);
    if i :| 0 <= i < |past| && CancelledAt(past, i) {
      SinceGrows(past, x, i, PromptSettled);
      assert longer[..i] == past[..i] && longer[i] == past[i];
      assert x != PromptSettled ==> CancelledAt(longer, i);
    }
    if i :| 0 <= i < |longer| && CancelledAt(longer, i) {
      SinceGrows(past, x, i, PromptSettled);
      assert longer[..i] == past[..i];
      assert i < |past| ==> CancelledAt(past, i);
    }
    assert longer[|past|] == x && longer[|past|..] == [x] && longer[..|past|] == past;
    assert x == CancelRequested && InTurn(past) ==> CancelledAt(longer, |past|);
  }

  lemma StepTold(phase: Phase, past: seq<Input>, x: Input)
    requires Told(phase, past)
    ensures Told(Step(phase, x).0, past + [x])
  {
    hide Gone, InTurn, IsCancelled, BeingKilled, Answers;
    GoneGrows(past, x);
    BeingKilledGrows(past, x);
    InTurnGrows(past, x);
    IsCancelledGrows(past, x);
    GoneMeansNoTurn(past);
  }

  lemma GoneMeansNoTurn(past: seq<Input>)
    ensures Gone(past) ==> !InTurn(past) && !IsCancelled(past)
    ensures BeingKilled(past) ==> Gone(past)
  {
  }

  lemma RunPhaseAppend(phase: Phase, inputs: seq<Input>, x: Input)
    ensures RunPhase(phase, inputs + [x]) == Step(RunPhase(phase, inputs), x).0
  {
    hide Step;
    RunPhaseSplits(phase, inputs, [x]);
    assert [x][1..] == [];
  }

  /** In every run the phase is what the inputs say: in a turn, cancelled, being killed, gone. */
  lemma {:induction false} PhaseIsTold(past: seq<Input>)
    ensures Told(RunPhase(Ready, past), past)
  {
    if past != [] {
      hide Told, Step, RunPhase;
      var front, x := past[..|past| - 1], past[|past| - 1];
      PhaseIsTold(front);
      StepTold(RunPhase(Ready, front), front, x);
      assert past == front + [x];
      RunPhaseAppend(Ready, front, x);
    }
  }

  /** And so is every answer: what is refused, and what each accepted input makes the host do. */
  lemma AnswersAreTold(past: seq<Input>, input: Input)
    ensures var r := Step(RunPhase(Ready, past), input).1;
            && (r.Err? <==> (input.PermissionRequested? && !InTurn(past))
                            || (input.CancelRequested? && (!InTurn(past) || IsCancelled(past)))
                            || (input.PromptSettled? && !InTurn(past)))
            && (input.PermissionRequested? && r.Ok? ==>
                  r.value == [if IsCancelled(past) then AnswerPermissionCancelled(input.id) else Continue])
            && (input.PromptSettled? && r.Ok? ==> r.value == [TurnSettled])
            && (input.ProcessLost? || input.IdleElapsed? ==> r == Ok([KillAndReap]))
            && (input.PromptWritten? || input.Reaped? ==> r == Ok([]))
  {
    PhaseIsTold(past);
    hide RunPhase, InTurn, IsCancelled, Gone, BeingKilled, Answers;
  }
}
