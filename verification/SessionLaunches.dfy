/** Exactly which stale snapshots a sender may be brought up from. */
module SessionLaunches {
  import opened Bytes
  import opened Encodings
  import opened SymbolicCrypto
  import opened ReplayWindows
  import opened SessionV2s
  import opened InboundRuns
  import opened SessionRuns
  import opened SessionChains

  /** Later launches resume where the sender stopped, and no turn repeats the ephemeral of an abandoned one. */
  ghost predicate SteadyStep(p: Pairing, w: World, step: Step) {
    match step
    case Start(_) => w.tip.turn == 0
    case Resume(snapshot, _) => snapshot == w.tip
    case NewTurn(seed) => Enabled(p, w, step) && TurnOpened(w.sender.value, seed).Ok? ==>
                            !Held(w, TurnOpened(w.sender.value, seed).value.chain)
    case _ => true
  }

  ghost predicate Steady(p: Pairing, w: World, steps: seq<Step>)
    decreases |steps|
  {
    steps != [] ==> SteadyStep(p, w, steps[0]) && Steady(p, Apply(p, w, steps[0]), steps[1..])
  }

  /** Agreement now and in every later run of that kind. */
  ghost predicate AgreedForGood(p: Pairing, w: World) {
    forall later :: Steady(p, w, later) ==> Agreed(Exec(p, w, later))
  }

  /** Every message a receiver can be walked up to lies on the way to `c`. */
  ghost predicate CoversEarned(c: Chain, records: seq<Record>) {
    forall i | 0 <= i < |records| && Earned(records, records[i].chain) :: Ancestor(records[i].chain, c)
  }

  // ---- enough ----

  /** A sender past turn 0 that may seal has no older message above its chain. */
  ghost predicate NothingAbove(w: World) {
    w.sender.Some? && !w.sender.value.needsFreshTurn && w.tip.turn > 0 ==>
      forall i | 0 <= i < |w.records| && Ancestor(w.tip.chain, w.records[i].chain) :: w.records[i].chain == w.tip.chain
  }

  ghost predicate SteadyInv(p: Pairing, w: World) {
    && Inv(p, w) && TipOk(p, w) && ReceiversEarned(w) && WellBuilt(p, w)
    && CoversEarned(w.tip.chain, w.records) && NothingAbove(w)
  }

  lemma SealKeepsCoversEarned(p: Pairing, w: World, plaintext: bytes)
    requires p.Honest() && SteadyInv(p, w)
    ensures CoversEarned(Apply(p, w, SealMessage(plaintext)).tip.chain, Apply(p, w, SealMessage(plaintext)).records)
    ensures NothingAbove(Apply(p, w, SealMessage(plaintext)))
  {
    hide Apply, Inv, ReceiversEarned, WellBuilt, Earned, CoversEarned;
    var w' := Apply(p, w, SealMessage(plaintext));
    TipAfter(p, w, SealMessage(plaintext));
    SealNeedsATurn(p, w, plaintext);
    if w'.records != w.records {
      var r := w'.records[|w.records|];
      assert w'.records == w.records + [r];
      CoversOneMore(w.records, r, w.tip.chain);
    }
  }

  /** A message sealed at `c`, with nothing older above it unless `c` is a root. */
  lemma CoversOneMore(records: seq<Record>, r: Record, c: Chain)
    requires CoversEarned(c, records) && r.chain == c
    requires c.Link? ==> forall i | 0 <= i < |records| && Ancestor(c, records[i].chain) :: records[i].chain == c
    ensures CoversEarned(c, records + [r])
  {
    hide Earned;
    var longer := records + [r];
    forall i | 0 <= i < |longer| && Earned(longer, longer[i].chain) ensures Ancestor(longer[i].chain, c) {
      EarnedGrows(records, r, longer[i].chain);
      if i < |records| {
        assert longer[i] == records[i];
      }
    }
  }

  lemma SealNeedsATurn(p: Pairing, w: World, plaintext: bytes)
    ensures var w' := Apply(p, w, SealMessage(plaintext));
            w'.records != w.records ==> w.sender.Some? && !w.sender.value.needsFreshTurn
    ensures var w' := Apply(p, w, SealMessage(plaintext));
            && w'.sender.Some? == w.sender.Some?
            && (w.sender.Some? ==> w'.sender.value.needsFreshTurn == w.sender.value.needsFreshTurn)
  {
    hide EnvelopeOf, CanSend;
  }

  lemma NewTurnKeepsCoversEarned(p: Pairing, w: World, seed: Secret)
    requires p.Honest() && SteadyInv(p, w) && SteadyStep(p, w, NewTurn(seed))
    ensures CoversEarned(Apply(p, w, NewTurn(seed)).tip.chain, Apply(p, w, NewTurn(seed)).records)
    ensures NothingAbove(Apply(p, w, NewTurn(seed)))
  {
    hide CanSend, Consistent, Earned, Held;
    var w' := Apply(p, w, NewTurn(seed));
    TipAfter(p, w, NewTurn(seed));
    if w' != w {
      assert w'.tip.chain.previous == w.tip.chain && !Held(w, w'.tip.chain);
      forall i | 0 <= i < |w'.records| ensures !Ancestor(w'.tip.chain, w'.records[i].chain) {
        RecordIsHeld(p, w, i);
        if Ancestor(w'.tip.chain, w'.records[i].chain) {
          AncestorIsHeld(p, w, w'.tip.chain, w.records[i].chain);
        }
      }
    }
  }

  lemma RecordIsHeld(p: Pairing, w: World, i: nat)
    requires Inv(p, w) && i < |w.records|
    ensures Held(w, w.records[i].chain)
  {
    hide Consistent, ChainsOk;
    assert ChainSnapshot(w.records[i].chain, w.records[i].turn) in w.chains;
  }

  lemma OtherStepKeepsCoversEarned(p: Pairing, w: World, step: Step)
    requires p.Honest() && SteadyInv(p, w) && SteadyStep(p, w, step) && !step.SealMessage? && !step.NewTurn?
    ensures CoversEarned(Apply(p, w, step).tip.chain, Apply(p, w, step).records)
    ensures NothingAbove(Apply(p, w, step))
  {
    var w' := Apply(p, w, step);
    TipAfter(p, w, step);
    NeedsTurnAfter(p, w, step);
    assert Launches(p, w, step) ==> w'.tip.chain == w.tip.chain by {
      if step.Start? {
        assert w.tip.chain == Root(Origin(w.tip.chain));
      }
    }
    hide Apply, Inv, Earned, Launches;
  }

  /** A sender that was just brought up past turn 0 may not seal; other steps leave that alone. */
  lemma NeedsTurnAfter(p: Pairing, w: World, step: Step)
    requires !step.SealMessage? && !step.NewTurn?
    ensures var w' := Apply(p, w, step);
            && (Launches(p, w, step) && w'.sender.Some? && w'.tip.turn > 0 ==> w'.sender.value.needsFreshTurn)
            && (!Launches(p, w, step) && w'.sender.Some? ==>
                  w.sender.Some? && w'.sender.value.needsFreshTurn == w.sender.value.needsFreshTurn)
  {
    hide CanSend, After, Sealing, TurnOpened, RestoreInbound;
  }

  lemma StepKeepsSteadyInv(p: Pairing, w: World, step: Step)
    requires p.Honest() && SteadyInv(p, w) && SteadyStep(p, w, step)
    ensures SteadyInv(p, Apply(p, w, step))
  {
    hide Apply, Inv, TipOk, ReceiversEarned, WellBuilt, CoversEarned, NothingAbove, SteadyStep;
    StepKeepsInv(p, w, step);
    TipAfter(p, w, step);
    StepKeepsEarned(p, w, step);
    StepKeepsWellBuilt(p, w, step);
    match step
    case SealMessage(plaintext) => SealKeepsCoversEarned(p, w, plaintext);
    case NewTurn(seed) => NewTurnKeepsCoversEarned(p, w, seed);
    case _ => OtherStepKeepsCoversEarned(p, w, step);
  }

  lemma {:induction false} SteadyRunAgrees(p: Pairing, w: World, steps: seq<Step>)
    requires p.Honest() && SteadyInv(p, w) && Steady(p, w, steps)
    ensures Agreed(Exec(p, w, steps))
    decreases |steps|
  {
    if steps == [] {
      hide Consistent, RecordsOk, WellBuilt;
      assert Rooted(p, SnapshotOf(w.receiver));
      EarnedIsRootOrRecorded(p, w, w.receiver.chain, w.tip.chain);
    } else {
      hide Apply, SteadyInv, SteadyStep, Agreed;
      StepKeepsSteadyInv(p, w, steps[0]);
      SteadyRunAgrees(p, Apply(p, w, steps[0]), steps[1..]);
    }
  }

  // ---- necessary ----

  /** A message of the receiver's next turn, offered with a matching header and ephemeral. */
  lemma WalkUpOne(p: Pairing, w: World, c: Chain) returns (wire: Wire)
    requires p.Honest() && Inv(p, w) && WellBuilt(p, w)
    requires HasRecord(w.records, c) && c.Link? && c.previous == w.receiver.chain
    ensures var w' := Apply(p, w, Arrive(wire));
            w'.receiver.chain == c && w'.records == w.records && w'.tip == w.tip && w'.chains == w.chains
  {
    hide CanSend, Opening, Inv, WellBuilt, HeadV2, AssociatedData, TurnKeyInfo, Nonce, Apply;
    var i :| 0 <= i < |w.records| && w.records[i].chain == c;
    var r := w.records[i];
    var q := NextTurnFacts(p, w, i);
    wire := Full(HeadV2(ClaimsOf(p, r.turn, r.counter)), Public(q), Nonce(r.counter), r.wire.body);
    OpensNextTurn(p, w.receiver, r, q, wire);
    RecordedBodyIsOffered(p, w, i, wire);
    AfterArrival(p, w, wire);
  }

  lemma RecordedBodyIsOffered(p: Pairing, w: World, i: nat, wire: Wire)
    requires i < |w.records| && w.records[i].wire.Full? && wire.Full? && wire.body == w.records[i].wire.body
    ensures CanSend(p, w, wire)
  {
  }

  lemma NextTurnFacts(p: Pairing, w: World, i: nat) returns (q: Secret)
    requires Inv(p, w) && WellBuilt(p, w) && i < |w.records|
    requires w.records[i].chain.Link? && w.records[i].chain.previous == w.receiver.chain
    ensures RecordOk(p, w.records[i]) && w.records[i].turn == w.receiver.turn + 1
    ensures DiffieHellman(p.receiverSecret, Public(q)) == Some(w.records[i].chain.shared) && ReceiverOk(p, w.receiver)
  {
    hide Consistent, RecordOk;
    var c := ChainSnapshot(w.records[i].chain, w.records[i].turn);
    assert c in w.chains;
    assert Rooted(p, c) && Rooted(p, SnapshotOf(w.receiver));
    q :| DiffieHellman(p.receiverSecret, Public(q)) == Some(c.chain.shared);
  }

  lemma OpensNextTurn(p: Pairing, s: Session, r: Record, q: Secret, wire: Wire)
    requires RecordOk(p, r) && ReceiverOk(p, s) && r.turn == s.turn + 1
    requires r.chain == Link(s.chain, DiffieHellman(p.receiverSecret, Public(q)).value)
    requires wire == Full(HeadV2(ClaimsOf(p, r.turn, r.counter)), Public(q), Nonce(r.counter), r.wire.body)
    ensures Opening(s, wire).0 == Ok(r.plaintext)
    ensures Opening(s, wire).1.chain == r.chain && Opening(s, wire).1.turn == r.turn
  {
    hide AssociatedData, TurnKeyInfo, HeadV2, Recorded, Nonce, ReadU32, ReadU64;
    HeaderRoundTrip(ClaimsOf(p, r.turn, r.counter));
  }

  predicate AllArrivals(steps: seq<Step>) { forall i | 0 <= i < |steps| :: steps[i].Arrive? }

  lemma {:induction false} ArrivalsAreSteady(p: Pairing, w: World, steps: seq<Step>)
    requires AllArrivals(steps)
    ensures Steady(p, w, steps)
    decreases |steps|
  {
    hide Apply;
    if steps != [] {
      ArrivalsAreSteady(p, Apply(p, w, steps[0]), steps[1..]);
    }
  }

  /** Old messages walk the receiver up to any earned chain above it. */
  lemma {:induction false} WalkUp(p: Pairing, w: World, c: Chain) returns (steps: seq<Step>)
    requires p.Honest() && Inv(p, w) && WellBuilt(p, w) && Earned(w.records, c) && Ancestor(w.receiver.chain, c)
    ensures AllArrivals(steps)
    ensures var w' := Exec(p, w, steps);
            w'.receiver.chain == c && w'.records == w.records && w'.tip == w.tip && w'.chains == w.chains
    decreases c
  {
    hide Apply, Inv, HasRecord;
    if c == w.receiver.chain {
      steps := [];
    } else {
      var below := WalkUp(p, w, c.previous);
      var w1 := Exec(p, w, below);
      RunKeepsInv(p, w, below);
      assert WellBuilt(p, w1) by { SameChainsWellBuilt(p, w, w1); }
      var wire := WalkUpOne(p, w1, c);
      ExecAppend(p, w, below, Arrive(wire));
      steps := below + [Arrive(wire)];
    }
  }

  lemma SameChainsWellBuilt(p: Pairing, w: World, w': World)
    requires WellBuilt(p, w) && w'.chains == w.chains
    ensures WellBuilt(p, w')
  {
    forall c | c in w'.chains && c.chain.Link? ensures Held(w', c.chain.previous) {
      var s :| s in w.chains && s.chain == c.chain.previous;
      assert s in w'.chains;
    }
  }

  /** A launch off an earned message can always be led into disagreement by old messages alone. */
  lemma OffPathDisagrees(p: Pairing, w: World, w': World, i: nat) returns (later: seq<Step>)
    requires p.Honest() && PathInv(p, w) && Inv(p, w') && WellBuilt(p, w')
    requires w'.records == w.records && w'.receiver == w.receiver
    requires i < |w.records| && Earned(w.records, w.records[i].chain) && !Ancestor(w.records[i].chain, w'.tip.chain)
    ensures Steady(p, w', later) && !Agreed(Exec(p, w', later))
  {
    var c, r := w.records[i].chain, w.receiver.chain;
    PathMeansAgreed(p, w);
    assert Ancestor(c, w.tip.chain) && Ancestor(r, w.tip.chain);
    hide Inv, WellBuilt, PathInv, Earned;
    if Depth(c) <= Depth(r) {
      AncestorsLineUp(c, r, w.tip.chain);
      if Ancestor(r, w'.tip.chain) {
        AncestorTrans(c, r, w'.tip.chain);
      }
      later := [];
    } else {
      AncestorsLineUp(r, c, w.tip.chain);
      later := WalkUp(p, w', c);
      ArrivalsAreSteady(p, w', later);
    }
  }

  // ---- the exact condition ----

  lemma LaunchFacts(p: Pairing, w: World, launch: Step)
    requires p.Honest() && PathInv(p, w) && Launches(p, w, launch)
    ensures var w' := Apply(p, w, launch);
            && Inv(p, w') && TipOk(p, w') && WellBuilt(p, w') && ReceiversEarned(w') && NothingAbove(w')
            && w'.tip.chain == LaunchChain(p, launch) && w'.records == w.records && w'.receiver == w.receiver
  {
    StepKeepsInv(p, w, launch);
    TipAfter(p, w, launch);
    StepKeepsEarned(p, w, launch);
    StepKeepsWellBuilt(p, w, launch);
    NeedsTurnAfter(p, w, launch);
    LaunchLeavesReceiver(p, w, launch);
    hide Apply, Inv, Launches, WellBuilt, ReceiversEarned;
  }

  lemma LaunchLeavesReceiver(p: Pairing, w: World, launch: Step)
    requires launch.Start? || launch.Resume?
    ensures Apply(p, w, launch).receiver == w.receiver
  {
    hide CanSend, NewOutbound, RestoreOutbound;
  }

  /**
   A launch keeps sender and receiver on one chain in every later run, whatever the network replays, exactly
   when every message a receiver can be walked up to lies on the way to the chain it launches from.
   */
  lemma LaunchIsHarmlessIff(p: Pairing, before: seq<Step>, launch: Step)
    requires p.Honest() && CoveringLaunches(p, Initial(p), before)
    requires Launches(p, Exec(p, Initial(p), before), launch)
    ensures var w := Exec(p, Initial(p), before);
            AgreedForGood(p, Apply(p, w, launch)) <==> CoversEarned(LaunchChain(p, launch), w.records)
  {
    assert launch.Start? || launch.Resume?;
    hide Initial, Exec, Apply, Launches, PathInv, Inv, TipOk, WellBuilt, ReceiversEarned, NothingAbove, Earned, Agreed;
    InitialPath(p);
    RunKeepsPath(p, Initial(p), before);
    var w := Exec(p, Initial(p), before);
    var w' := Apply(p, w, launch);
    LaunchFacts(p, w, launch);
    if CoversEarned(LaunchChain(p, launch), w.records) {
      assert SteadyInv(p, w');
      forall later | Steady(p, w', later) ensures Agreed(Exec(p, w', later)) {
        SteadyRunAgrees(p, w', later);
      }
    } else {
      var i :| 0 <= i < |w.records| && Earned(w.records, w.records[i].chain)
               && !Ancestor(w.records[i].chain, LaunchChain(p, launch));
      PathHasInv(p, w);
      var later := OffPathDisagrees(p, w, w', i);
    }
  }

  lemma PathHasInv(p: Pairing, w: World)
    requires PathInv(p, w)
    ensures Inv(p, w) && WellBuilt(p, w)
  {
  }

  // ---- the condition in turn numbers ----

  predicate SealedUnder(records: seq<Record>, turn: nat) {
    exists i | 0 <= i < |records| :: records[i].turn == turn
  }

  /** With all records on one path, a chain is earned when all its turns were sealed under. */
  lemma {:induction false} EarnedByTurns(p: Pairing, w: World, c: Chain)
    requires PathInv(p, w) && Ancestor(c, w.tip.chain)
    requires forall t | 1 <= t <= Depth(c) :: SealedUnder(w.records, t)
    ensures Earned(w.records, c)
    decreases c
  {
    hide Inv, WellBuilt, ReceiversEarned, SealedUnder;
    if c.Link? {
      AncestorTrans(c.previous, c, w.tip.chain);
      EarnedByTurns(p, w, c.previous);
      var i := SomeRecordAt(w.records, Depth(c));
      RecordDepth(p, w, i);
      AncestorAtTurn(c, w.tip.chain);
      AncestorAtTurn(w.records[i].chain, w.tip.chain);
    }
  }

  lemma RecordDepth(p: Pairing, w: World, i: nat)
    requires Inv(p, w) && i < |w.records|
    ensures Depth(w.records[i].chain) == w.records[i].turn
  {
    hide Consistent;
    assert Rooted(p, ChainSnapshot(w.records[i].chain, w.records[i].turn));
  }

  /** Some ancestor stands at every depth. */
  lemma {:induction false} EarnedTurn(p: Pairing, w: World, c: Chain, t: nat)
    requires Inv(p, w) && Earned(w.records, c) && 1 <= t <= Depth(c)
    ensures SealedUnder(w.records, t)
    decreases c
  {
    hide Inv;
    if Depth(c) == t {
      var i :| 0 <= i < |w.records| && w.records[i].chain == c;
      RecordDepth(p, w, i);
    } else {
      EarnedTurn(p, w, c.previous, t);
    }
  }

  /** An earlier point of the path covers what is earned exactly when some turn up to the next one was never sealed under. */
  lemma CoversEarnedIffGap(p: Pairing, w: World, c: Chain)
    requires PathInv(p, w) && Ancestor(c, w.tip.chain)
    ensures CoversEarned(c, w.records) <==> exists t | 1 <= t <= Depth(c) + 1 :: !SealedUnder(w.records, t)
  {
    hide Inv, WellBuilt, ReceiversEarned, SealedUnder;
    if t :| 1 <= t <= Depth(c) + 1 && !SealedUnder(w.records, t) {
      forall i | 0 <= i < |w.records| && Earned(w.records, w.records[i].chain)
        ensures Ancestor(w.records[i].chain, c)
      {
        if Depth(w.records[i].chain) <= Depth(c) {
          AncestorsLineUp(w.records[i].chain, c, w.tip.chain);
        } else {
          EarnedTurn(p, w, w.records[i].chain, t);
        }
      }
    } else {
      var i := SomeRecordAt(w.records, Depth(c) + 1);
      RecordDepth(p, w, i);
      EarnedByTurns(p, w, w.records[i].chain);
      if Ancestor(w.records[i].chain, c) {
        AncestorAtTurn(w.records[i].chain, c);
      }
    }
  }

  /**
   Coming up from an earlier point of its path, a sender stays on one chain with the receiver in every later
   run exactly when some turn up to the next one was never sealed under.
   */
  lemma EarlierPointIsHarmlessIff(p: Pairing, before: seq<Step>, launch: Step)
    requires p.Honest() && CoveringLaunches(p, Initial(p), before)
    requires var w := Exec(p, Initial(p), before);
             Launches(p, w, launch) && Ancestor(LaunchChain(p, launch), w.tip.chain)
    ensures var w := Exec(p, Initial(p), before);
            AgreedForGood(p, Apply(p, w, launch)) <==>
              exists t | 1 <= t <= Depth(LaunchChain(p, launch)) + 1 :: !SealedUnder(w.records, t)
  {
    assert launch.Start? || launch.Resume?;
    hide Initial, Exec, Apply, Launches, PathInv, AgreedForGood, CoversEarned, SealedUnder;
    InitialPath(p);
    RunKeepsPath(p, Initial(p), before);
    LaunchIsHarmlessIff(p, before, launch);
    CoversEarnedIffGap(p, Exec(p, Initial(p), before), LaunchChain(p, launch));
  }

  lemma SomeRecordAt(records: seq<Record>, turn: nat) returns (i: nat)
    requires SealedUnder(records, turn)
    ensures i < |records| && records[i].turn == turn
  {
    i :| 0 <= i < |records| && records[i].turn == turn;
  }
}
