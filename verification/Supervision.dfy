/** The supervisor of one Core endpoint and its escalating reconnect attempts. */
module Supervision {
  import opened Bytes

  datatype ProbeOutcome = Live | Unavailable | Stale
  datatype Policy = Policy(firstAttempt: u32, maxAttempts: u32)

  datatype SupervisionState =
    | Initial
    | Probing
    | Starting(attempt: u32)
    | Attached
    | Reconnecting(attempt: u32)
    | Stopped

  datatype Decision = Probe | Attach | Spawn | BackoffThenProbe(attempt: u32)
  datatype OrderError = SessionOrder

  function Max(a: u32, b: u32): u32 { if a < b then b else a }

  function NextAttempt(p: Policy, previous: u32): u32 {
    if previous >= p.maxAttempts then p.maxAttempts else previous + 1
  }

  datatype Machine = Machine(policy: Policy, state: SupervisionState, reconnectAttempt: u32)

  datatype Input = Start | OnProbe(outcome: ProbeOutcome) | OnSpawned | OnDisconnected | RetryProbe | Stop

  /** `Ok(None)` is `stop`, which decides nothing; an error changes nothing. */
  function Step(m: Machine, input: Input): (Result<Option<Decision>, OrderError>, Machine) {
    match input
    case Start => (Ok(Some(Probe)), m.(state := Probing))
    case OnProbe(outcome) =>
      if !m.state.Probing? then (Err(SessionOrder), m)
      else if outcome.Live? then (Ok(Some(Attach)), m.(state := Attached))
      else (Ok(Some(Spawn)), m.(state := Starting(Max(m.reconnectAttempt, m.policy.firstAttempt))))
    case OnSpawned =>
      if m.state.Starting? then (Ok(Some(Attach)), m.(state := Attached)) else (Err(SessionOrder), m)
    case OnDisconnected =>
      var attempt := Max(NextAttempt(m.policy, m.reconnectAttempt), m.policy.firstAttempt);
      (Ok(Some(BackoffThenProbe(attempt))), m.(state := Reconnecting(attempt), reconnectAttempt := attempt))
    case RetryProbe =>
      if m.state.Reconnecting? then (Ok(Some(Probe)), m.(state := Probing)) else (Err(SessionOrder), m)
    case Stop => (Ok(None), m.(state := Stopped))
  }

  class Supervisor {
    const policy: Policy
    var state: SupervisionState
    var reconnectAttempt: u32

    ghost function Value(): Machine
      reads this
    {
      Machine(policy, state, reconnectAttempt)
    }

    constructor (policy: Policy)
      ensures Value() == Machine(policy, Initial, 0)
    {
      this.policy, state, reconnectAttempt := policy, Initial, 0;
    }

    method Start() returns (d: Decision)
      modifies this
      ensures (Ok(Some(d)), Value()) == Step(old(Value()), Input.Start)
    {
      state := Probing;
      return Probe;
    }

    method OnProbe(outcome: ProbeOutcome) returns (r: Result<Option<Decision>, OrderError>)
      modifies this
      ensures (r, Value()) == Step(old(Value()), Input.OnProbe(outcome))
    {
      if state != Probing {
        return Err(SessionOrder);
      }
      match outcome {
        case Live =>
          state := Attached;
          return Ok(Some(Attach));
        case Unavailable =>
          state := Starting(Max(reconnectAttempt, policy.firstAttempt));
          return Ok(Some(Spawn));
        case Stale =>
          state := Starting(Max(reconnectAttempt, policy.firstAttempt));
          return Ok(Some(Spawn));
      }
    }

    method OnSpawned() returns (r: Result<Option<Decision>, OrderError>)
      modifies this
      ensures (r, Value()) == Step(old(Value()), Input.OnSpawned)
    {
      if !state.Starting? {
        return Err(SessionOrder);
      }
      state := Attached;
      return Ok(Some(Attach));
    }

    method OnDisconnected() returns (d: Decision)
      modifies this
      ensures (Ok(Some(d)), Value()) == Step(old(Value()), Input.OnDisconnected)
    {
      var attempt := Max(NextAttempt(policy, reconnectAttempt), policy.firstAttempt);
      reconnectAttempt := attempt;
      state := Reconnecting(attempt);
      return BackoffThenProbe(attempt);
    }

    method RetryProbe() returns (r: Result<Option<Decision>, OrderError>)
      modifies this
      ensures (r, Value()) == Step(old(Value()), Input.RetryProbe)
    {
      if !state.Reconnecting? {
        return Err(SessionOrder);
      }
      state := Probing;
      return Ok(Some(Probe));
    }

    method Stop()
      modifies this
      ensures Value() == Step(old(Value()), Input.Stop).1
    {
      state := Stopped;
    }
  }

  // ---- runs ----

  function After(m: Machine, inputs: seq<Input>): Machine
    decreases |inputs|
  {
    if inputs == [] then m else After(Step(m, inputs[0]).1, inputs[1..])
  }

  /** The decisions taken, in order; refusals and `stop` take none. */
  function Decisions(m: Machine, inputs: seq<Input>): seq<Decision>
    decreases |inputs|
  {
    if inputs == [] then []
    else
      var (r, m') := Step(m, inputs[0]);
      (if r.Ok? && r.value.Some? then [r.value.value] else []) + Decisions(m', inputs[1..])
  }

  /** The attempt numbers of the backoffs, in order. */
  function Attempts(ds: seq<Decision>): seq<u32> {
    if ds == [] then []
    else (if ds[0].BackoffThenProbe? then [ds[0].attempt] else []) + Attempts(ds[1..])
  }

  /** The attempt the k-th disconnect (from 1) must issue. */
  function Expected(p: Policy, k: nat): nat
    requires k >= 1
  {
    var raw := Max(p.firstAttempt, 1) + k - 1;
    var capped := if raw < p.maxAttempts then raw else p.maxAttempts;
    if capped < p.firstAttempt then p.firstAttempt else capped
  }

  lemma NextIsExpected(p: Policy, k: nat, previous: u32)
    requires if k == 0 then previous == 0 else previous == Expected(p, k)
    ensures Max(NextAttempt(p, previous), p.firstAttempt) == Expected(p, k + 1)
  {
  }

  function Disconnects(inputs: seq<Input>): nat {
    if inputs == [] then 0
    else (if inputs[0].OnDisconnected? then 1 else 0) + Disconnects(inputs[1..])
  }

  /** The attempts are the expected ones, numbered on from the k-th. */
  ghost predicate Escalating(p: Policy, k: nat, attempts: seq<u32>) {
    forall i | 0 <= i < |attempts| :: attempts[i] == Expected(p, k + 1 + i)
  }

  lemma AttemptsCons(d: Decision, ds: seq<Decision>)
    ensures Attempts([d] + ds) == (if d.BackoffThenProbe? then [d.attempt] else []) + Attempts(ds)
  {
    assert ([d] + ds)[1..] == ds;
  }

  lemma EscalatingCons(p: Policy, k: nat, attempt: u32, later: seq<u32>)
    requires attempt == Expected(p, k + 1) && Escalating(p, k + 1, later)
    ensures Escalating(p, k, [attempt] + later)
  {
    var all := [attempt] + later;
    forall i | 0 <= i < |all| ensures all[i] == Expected(p, k + 1 + i) {
      if i > 0 {
        assert later[i - 1] == Expected(p, k + 1 + 1 + (i - 1));
      }
    }
  }

  /** Only a disconnect issues an attempt or moves the attempt counter. */
  lemma OnlyDisconnectsEscalate(m: Machine, input: Input, later: seq<Decision>)
    ensures var (r, m') := Step(m, input);
            var ds := (if r.Ok? && r.value.Some? then [r.value.value] else []) + later;
            && m'.policy == m.policy
            && (input.OnDisconnected? ==> Attempts(ds) == [m'.reconnectAttempt] + Attempts(later))
            && (!input.OnDisconnected? ==> Attempts(ds) == Attempts(later))
            && m'.reconnectAttempt ==
               if !input.OnDisconnected? then m.reconnectAttempt
               else Max(NextAttempt(m.policy, m.reconnectAttempt), m.policy.firstAttempt)
  {
    var (r, m') := Step(m, input);
    if r.Ok? && r.value.Some? {
      AttemptsCons(r.value.value, later);
    } else {
      assert [] + later == later;
    }
  }

  /** Whatever happens in between, the k-th disconnect escalates to exactly the k-th attempt. */
  lemma {:induction false} AttemptsEscalate(m: Machine, inputs: seq<Input>, k: nat)
    requires if k == 0 then m.reconnectAttempt == 0 else m.reconnectAttempt == Expected(m.policy, k)
    ensures |Attempts(Decisions(m, inputs))| == Disconnects(inputs)
    ensures Escalating(m.policy, k, Attempts(Decisions(m, inputs)))
    decreases |inputs|
  {
    if inputs != [] {
      hide Escalating, Step, Expected, Max, NextAttempt, Attempts;
      var m' := Step(m, inputs[0]).1;
      var later := Decisions(m', inputs[1..]);
      OnlyDisconnectsEscalate(m, inputs[0], later);
      if inputs[0].OnDisconnected? {
        NextIsExpected(m.policy, k, m.reconnectAttempt);
        AttemptsEscalate(m', inputs[1..], k + 1);
        EscalatingCons(m.policy, k, m'.reconnectAttempt, Attempts(later));
      } else {
        AttemptsEscalate(m', inputs[1..], k);
      }
    }
  }

  /** The attempt counter after `k` disconnects. */
  function Issued(p: Policy, k: nat): nat { if k == 0 then 0 else Expected(p, k) }

  /** The state never shows any attempt but the one last issued. */
  ghost predicate ShowsAttempt(m: Machine, k: nat) {
    && m.reconnectAttempt == Issued(m.policy, k)
    && (m.state.Starting? ==> m.state.attempt == if k == 0 then m.policy.firstAttempt else Expected(m.policy, k))
    && (m.state.Reconnecting? ==> k >= 1 && m.state.attempt == Expected(m.policy, k))
  }

  lemma StepShowsAttempt(m: Machine, input: Input, k: nat)
    requires ShowsAttempt(m, k)
    ensures ShowsAttempt(Step(m, input).1, k + if input.OnDisconnected? then 1 else 0)
    ensures Step(m, input).1.policy == m.policy
  {
    NextIsExpected(m.policy, k, m.reconnectAttempt);
  }

  /** In every run, a start or a backoff reports the attempt of the latest disconnect. */
  lemma {:induction false} RunShowsAttempt(m: Machine, inputs: seq<Input>, k: nat)
    requires ShowsAttempt(m, k)
    ensures ShowsAttempt(After(m, inputs), k + Disconnects(inputs)) && After(m, inputs).policy == m.policy
    decreases |inputs|
  {
    hide ShowsAttempt, Step;
    if inputs != [] {
      StepShowsAttempt(m, inputs[0], k);
      RunShowsAttempt(Step(m, inputs[0]).1, inputs[1..], k + if inputs[0].OnDisconnected? then 1 else 0);
    }
  }

  /** Some decision strictly between `i` and `j` is a probe. */
  ghost predicate ProbeWithin(ds: seq<Decision>, i: int, j: int)
    requires j <= |ds|
  {
    exists k | 0 <= k < j && i < k :: ds[k].Probe?
  }

  predicate Drops(d: Decision) { d.Attach? || d.BackoffThenProbe? }

  /** Between two attaches, and between a disconnect and the next attach, there is a probe. */
  ghost predicate ProbeBetween(ds: seq<Decision>) {
    forall i, j | 0 <= i < j < |ds| && Drops(ds[i]) && ds[j].Attach? :: ProbeWithin(ds, i, j)
  }

  /** A machine that is not on the way up has to probe before it can attach. */
  ghost predicate ProbeFirst(ds: seq<Decision>) {
    forall j | 0 <= j < |ds| && ds[j].Attach? :: ProbeWithin(ds, -1, j)
  }

  predicate OnTheWayUp(m: Machine) { m.state.Probing? || m.state.Starting? }

  lemma WithinShifts(d: Decision, ds: seq<Decision>, i: int, j: nat)
    requires -1 <= i && j <= |ds| && ProbeWithin(ds, i, j)
    ensures ProbeWithin([d] + ds, i + 1, j + 1)
  {
    var k :| 0 <= k < j && i < k && ds[k].Probe?;
    assert ([d] + ds)[k + 1].Probe?;
  }

  lemma ProbeFirstCons(d: Decision, ds: seq<Decision>)
    requires d.Probe? || (!d.Attach? && ProbeFirst(ds))
    ensures ProbeFirst([d] + ds)
  {
    var all := [d] + ds;
    forall j | 0 <= j < |all| && all[j].Attach? ensures ProbeWithin(all, -1, j) {
      if d.Probe? {
        assert all[0].Probe?;
      } else {
        assert all[j] == ds[j - 1];
        WithinShifts(d, ds, -1, j - 1);
        WithinWidens(all, 0, -1, j);
      }
    }
  }

  lemma WithinWidens(ds: seq<Decision>, i: int, i': int, j: nat)
    requires j <= |ds| && i' <= i && ProbeWithin(ds, i, j)
    ensures ProbeWithin(ds, i', j)
  {
  }

  lemma ProbeBetweenCons(d: Decision, ds: seq<Decision>)
    requires ProbeBetween(ds) && ((d.Attach? || d.BackoffThenProbe?) ==> ProbeFirst(ds))
    ensures ProbeBetween([d] + ds)
  {
    var all := [d] + ds;
    hide ProbeWithin;
    forall i, j | 0 <= i < j < |all| && Drops(all[i]) && all[j].Attach? ensures ProbeWithin(all, i, j) {
      assert all[j] == ds[j - 1];
      if i > 0 {
        assert all[i] == ds[i - 1];
      }
      WithinShifts(d, ds, i - 1, j - 1);
    }
  }

  /** Attaches and disconnects leave the way up; only a probe starts it. */
  lemma OnlyProbesLeadUp(m: Machine, input: Input)
    ensures var (r, m') := Step(m, input);
            var decided := r.Ok? && r.value.Some?;
            && (decided && (r.value.value.Attach? || r.value.value.BackoffThenProbe?) ==> !OnTheWayUp(m'))
            && (decided && r.value.value.Attach? ==> OnTheWayUp(m))
            && (!OnTheWayUp(m) && !(decided && r.value.value.Probe?) ==> !OnTheWayUp(m'))
  {
  }

  /** In every run no attach trusts an endpoint that was not probed since the last attach or disconnect. */
  lemma {:induction false} AttachIsProbed(m: Machine, inputs: seq<Input>)
    ensures ProbeBetween(Decisions(m, inputs))
    ensures !OnTheWayUp(m) ==> ProbeFirst(Decisions(m, inputs))
    decreases |inputs|
  {
    if inputs != [] {
      hide ProbeBetween, ProbeFirst, OnTheWayUp, Step;
      var (r, m') := Step(m, inputs[0]);
      OnlyProbesLeadUp(m, inputs[0]);
      AttachIsProbed(m', inputs[1..]);
      var later := Decisions(m', inputs[1..]);
      if r.Ok? && r.value.Some? {
        var d := r.value.value;
        ProbeBetweenCons(d, later);
        if !OnTheWayUp(m) {
          ProbeFirstCons(d, later);
        }
        assert Decisions(m, inputs) == [d] + later;
      } else {
        assert Decisions(m, inputs) == later;
      }
    }
  }

  // ---- every answer, from the answers before it ----

  datatype Answer = Decided(decision: Decision) | StoodDown | Refused

  function AnswerOf(r: Result<Option<Decision>, OrderError>): Answer {
    match r
    case Err(_) => Refused
    case Ok(None) => StoodDown
    case Ok(Some(d)) => Decided(d)
  }

  /** The answers to all inputs, in order. */
  function AnswersTo(m: Machine, inputs: seq<Input>): (answers: seq<Answer>)
    ensures |answers| == |inputs|
    decreases |inputs|
  {
    if inputs == [] then []
    else
      var (r, m') := Step(m, inputs[0]);
      [AnswerOf(r)] + AnswersTo(m', inputs[1..])
  }

  function Later(latest: Option<Answer>, answer: Answer): Option<Answer> {
    if answer.Refused? then latest else Some(answer)
  }

  /** The latest answer that was not a refusal, `latest` being the one from before. */
  function Latest(latest: Option<Answer>, answers: seq<Answer>): Option<Answer>
    decreases |answers|
  {
    if answers == [] then latest else Latest(Later(latest, answers[0]), answers[1..])
  }

  /** The kind of answer an input gets, given the latest one; the attempt of a backoff is left open. */
  predicate Fitting(latest: Option<Answer>, input: Input, answer: Answer) {
    match input
    case Start => answer == Decided(Probe)
    case OnProbe(outcome) =>
      if latest == Some(Decided(Probe)) then answer == Decided(if outcome == Live then Attach else Spawn) else answer == Refused
    case OnSpawned => answer == if latest == Some(Decided(Spawn)) then Decided(Attach) else Refused
    case OnDisconnected => answer.Decided? && answer.decision.BackoffThenProbe?
    case RetryProbe =>
      answer == if latest.Some? && latest.value.Decided? && latest.value.decision.BackoffThenProbe? then Decided(Probe) else Refused
    case Stop => answer == StoodDown
  }

  /** The state remembers exactly the latest answer. */
  ghost predicate Remembers(state: SupervisionState, latest: Option<Answer>) {
    match latest
    case None => state.Initial?
    case Some(Refused) => false
    case Some(StoodDown) => state.Stopped?
    case Some(Decided(Probe)) => state.Probing?
    case Some(Decided(Attach)) => state.Attached?
    case Some(Decided(Spawn)) => state.Starting?
    case Some(Decided(BackoffThenProbe(attempt))) => state == Reconnecting(attempt)
  }

  lemma StepFits(m: Machine, input: Input, latest: Option<Answer>)
    requires Remembers(m.state, latest)
    ensures var (r, m') := Step(m, input);
            Fitting(latest, input, AnswerOf(r)) && Remembers(m'.state, Later(latest, AnswerOf(r)))
  {
  }

  /**
   In every run each input is answered as the latest answer demands: a live probe attaches and any other
   spawns, an attach without a probe comes only after a spawn, a probe is retried only after a backoff, and
   everything out of order is refused.
   */
  lemma {:induction false} EveryAnswerFits(m: Machine, inputs: seq<Input>, latest: Option<Answer>, j: nat)
    requires Remembers(m.state, latest) && j < |inputs|
    ensures var answers := AnswersTo(m, inputs);
            Fitting(Latest(latest, answers[..j]), inputs[j], answers[j])
    decreases |inputs|
  {
    hide Remembers, Fitting, Step, AnswerOf, Later;
    StepFits(m, inputs[0], latest);
    if j > 0 {
      var (r, m') := Step(m, inputs[0]);
      EveryAnswerFits(m', inputs[1..], Later(latest, AnswerOf(r)), j - 1);
      var answers := AnswersTo(m, inputs);
      assert answers[..j][1..] == AnswersTo(m', inputs[1..])[..j - 1];
    }
  }

  /**
   So in every run of a new supervisor an attach is made on a live probe, or on a spawn that came up; and a
   spawn on a probe that was not live.
   */
  lemma AttachesAndSpawnsAreFounded(p: Policy, inputs: seq<Input>, j: nat)
    requires j < |inputs|
    ensures var answers := AnswersTo(Machine(p, Initial, 0), inputs);
            var latest := Latest(None, answers[..j]);
            && (answers[j] == Decided(Attach) ==>
                  (inputs[j] == OnProbe(Live) && latest == Some(Decided(Probe)))
                  || (inputs[j] == OnSpawned && latest == Some(Decided(Spawn))))
            && (answers[j] == Decided(Spawn) ==>
                  inputs[j].OnProbe? && inputs[j].outcome != Live && latest == Some(Decided(Probe)))
  {
    hide AnswersTo, Latest;
    EveryAnswerFits(Machine(p, Initial, 0), inputs, None, j);
  }
}
