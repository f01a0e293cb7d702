/** What a receiver can deliver again once it has been restored from a snapshot. */
module SessionRestores {
  import opened Bytes
  import opened Encodings
  import opened SymbolicCrypto
  import opened ReplayWindows
  import opened SessionV2s
  import opened InboundRuns
  import opened SessionRuns
  import opened SessionChains
  import opened SessionLaunches

  /** What the receiving side shows: a delivery, or a restore at some turn. */
  datatype Shown = Got(delivery: Delivery) | Back(turn: u64)

  predicate Same(x: Shown, turn: u64, counter: u64) {
    x.Got? && x.delivery.turn == turn && x.delivery.counter == counter
  }

  predicate Rewinds(x: Shown, turn: u64) { x.Back? && x.turn <= turn }

  ghost function StepTrace(p: Pairing, w: World, step: Step): seq<Shown> {
    if !Enabled(p, w, step) then []
    else
      match step
      case Arrive(wire) =>
        var (r, s') := Opening(w.receiver, wire);
        if r.Ok? && wire.Full? then [Got(Delivery(s'.turn, HeaderCounter(wire.header), r.value))] else []
      case ResumeReceiver(snapshot) =>
        if RestoreInbound(p.ReceiverKeys(), p.SenderIdentity(), p.epoch, p.epochSeq, snapshot).Ok?
        then [Back(snapshot.turn)] else []
      case _ => []
  }

  /** Everything delivered by every receiver object of the run, with the restores in between. */
  ghost function Trace(p: Pairing, w: World, steps: seq<Step>): seq<Shown>
    decreases |steps|
  {
    if steps == [] then [] else StepTrace(p, w, steps[0]) + Trace(p, Apply(p, w, steps[0]), steps[1..])
  }

  /** The receiver will not deliver this pair as it stands. */
  ghost predicate Blocked(w: World, turn: u64, counter: u64) {
    w.receiver.turn > turn || (w.receiver.turn == turn && counter in CountersOf(w.delivered, turn))
  }

  lemma NewIsNotCounted(delivered: seq<Delivery>, d: Delivery)
    requires NoRepeats(delivered + [d])
    ensures d.counter !in CountersOf(delivered, d.turn)
  {
    forall e | e in delivered ensures e.turn != d.turn || e.counter != d.counter {
      var i :| 0 <= i < |delivered| && delivered[i] == e;
      assert (delivered + [d])[i] == e && (delivered + [d])[|delivered|] == d;
    }
  }

  lemma ArrivalBlocked(p: Pairing, w: World, wire: Wire, turn: u64, counter: u64)
    requires p.Honest() && Inv(p, w) && Enabled(p, w, Arrive(wire))
    ensures var w' := Apply(p, w, Arrive(wire));
            var shown := StepTrace(p, w, Arrive(wire));
            && |shown| <= 1
            && (Blocked(w, turn, counter) ==> Blocked(w', turn, counter))
            && (shown != [] && Same(shown[0], turn, counter) ==> !Blocked(w, turn, counter) && Blocked(w', turn, counter))
  {
    hide Opening, CanSend, ChainsOk, RecordsOk, Refines, Sent;
    OpenKeepsConsistent(w.receiver, w.delivered, wire);
    var (s', d') := After(w.receiver, w.delivered, wire);
    if |d'| > |w.delivered| {
      var d := d'[|w.delivered|];
      CountersOfAppend(w.delivered, d, turn);
      NewIsNotCounted(w.delivered, d);
    }
  }

  lemma StepBlocked(p: Pairing, w: World, step: Step, turn: u64, counter: u64)
    requires p.Honest() && Inv(p, w)
    ensures var w' := Apply(p, w, step);
            var shown := StepTrace(p, w, step);
            && |shown| <= 1
            && (Blocked(w, turn, counter) ==> Blocked(w', turn, counter) || (shown != [] && Rewinds(shown[0], turn)))
            && (shown != [] && Same(shown[0], turn, counter) ==> !Blocked(w, turn, counter) && Blocked(w', turn, counter))
  {
    hide Blocked, Inv, CanSend, Opening, After, Sealing, TurnOpened, InstallBlock, NewOutbound, RestoreOutbound;
    if Enabled(p, w, step) && step.Arrive? {
      ArrivalBlocked(p, w, step.wire, turn, counter);
    } else if Enabled(p, w, step) && step.ResumeReceiver? {
      RestoreBlocked(p, w, step.snapshot, turn, counter);
    } else {
      var w' := Apply(p, w, step);
      assert w'.receiver == w.receiver && w'.delivered == w.delivered;
      SameReceiverBlocked(w, w', turn, counter);
    }
  }

  lemma SameReceiverBlocked(w: World, w': World, turn: u64, counter: u64)
    requires w'.receiver == w.receiver && w'.delivered == w.delivered
    ensures Blocked(w', turn, counter) <==> Blocked(w, turn, counter)
  {
  }

  lemma RestoreBlocked(p: Pairing, w: World, snapshot: ChainSnapshot, turn: u64, counter: u64)
    requires Enabled(p, w, ResumeReceiver(snapshot))
    ensures var w' := Apply(p, w, ResumeReceiver(snapshot));
            Blocked(w, turn, counter) ==>
              Blocked(w', turn, counter)
              || (StepTrace(p, w, ResumeReceiver(snapshot)) == [Back(snapshot.turn)] && snapshot.turn <= turn)
  {
    hide CanSend, Opening, After;
  }

  lemma {:induction false} BlockedUntilRewound(p: Pairing, w: World, steps: seq<Step>, j: nat, turn: u64, counter: u64) returns (k: nat)
    requires p.Honest() && Inv(p, w) && Blocked(w, turn, counter)
    requires j < |Trace(p, w, steps)| && Same(Trace(p, w, steps)[j], turn, counter)
    ensures k < j && Rewinds(Trace(p, w, steps)[k], turn)
    decreases |steps|
  {
    hide Apply, Inv, Blocked, StepTrace;
    StepBlocked(p, w, steps[0], turn, counter);
    StepKeepsInv(p, w, steps[0]);
    var shown := StepTrace(p, w, steps[0]);
    if shown != [] && Rewinds(shown[0], turn) {
      k := 0;
    } else {
      k := BlockedUntilRewound(p, Apply(p, w, steps[0]), steps[1..], j - |shown|, turn, counter);
      k := k + |shown|;
    }
  }

  /** A (turn, counter) pair comes twice only with a restore at or below its turn in between. */
  lemma {:induction false} RepeatNeedsARestore(p: Pairing, w: World, steps: seq<Step>, i: nat, j: nat, turn: u64, counter: u64) returns (k: nat)
    requires p.Honest() && Inv(p, w) && i < j < |Trace(p, w, steps)|
    requires Same(Trace(p, w, steps)[i], turn, counter) && Same(Trace(p, w, steps)[j], turn, counter)
    ensures i < k < j && Rewinds(Trace(p, w, steps)[k], turn)
    decreases |steps|
  {
    hide Apply, Inv, Blocked, StepTrace;
    StepBlocked(p, w, steps[0], turn, counter);
    StepKeepsInv(p, w, steps[0]);
    var shown := StepTrace(p, w, steps[0]);
    var w' := Apply(p, w, steps[0]);
    if i < |shown| {
      k := BlockedUntilRewound(p, w', steps[1..], j - 1, turn, counter);
      k := k + 1;
    } else {
      k := RepeatNeedsARestore(p, w', steps[1..], i - |shown|, j - |shown|, turn, counter);
      k := k + |shown|;
    }
  }

  // ---- and then it does come again ----

  /** The restored receiver: the same session with an empty window. */
  lemma RestoredOpensAgain(p: Pairing, s: Session, wire: Wire)
    requires p.Honest() && ReceiverOk(p, s) && s.turn < U64_MAX && Opening(s, wire).0.Ok?
    ensures RestoreInbound(p.ReceiverKeys(), p.SenderIdentity(), p.epoch, p.epochSeq, SnapshotOf(s)).Ok?
    ensures var s' := RestoreInbound(p.ReceiverKeys(), p.SenderIdentity(), p.epoch, p.epochSeq, SnapshotOf(s)).value;
            && ReceiverOk(p, s') && s'.turn == s.turn
            && Opening(s', wire).0 == Opening(s, wire).0 && Opening(s', wire).1.turn == Opening(s, wire).1.turn
  {
    hide AssociatedData, TurnKeyInfo, HeadV2, Recorded, ReadU32, ReadU64;
  }

  lemma SaveStep(p: Pairing, w: World)
    ensures StepTrace(p, w, SaveReceiver) == []
    ensures Apply(p, w, SaveReceiver) == w.(receiverSaved := w.receiverSaved + {SnapshotOf(w.receiver)})
  {
    hide CanSend;
  }

  lemma ArriveStep(p: Pairing, w: World, wire: Wire)
    requires ReceiverOk(p, w.receiver) && w.receiver.turn < U64_MAX && CanSend(p, w, wire)
    requires wire.Full? && Opening(w.receiver, wire).0.Ok?
    ensures var (r, s') := Opening(w.receiver, wire);
            StepTrace(p, w, Arrive(wire)) == [Got(Delivery(s'.turn, HeaderCounter(wire.header), r.value))]
    ensures Apply(p, w, Arrive(wire)).records == w.records && Apply(p, w, Arrive(wire)).receiverSaved == w.receiverSaved
  {
    hide CanSend, Opening, HeaderCounter;
  }

  lemma BackStep(p: Pairing, w: World, snapshot: ChainSnapshot)
    requires p.Honest() && snapshot in w.receiverSaved
    requires RestoreInbound(p.ReceiverKeys(), p.SenderIdentity(), p.epoch, p.epochSeq, snapshot).Ok?
    ensures StepTrace(p, w, ResumeReceiver(snapshot)) == [Back(snapshot.turn)]
    ensures var w' := Apply(p, w, ResumeReceiver(snapshot));
            && w'.records == w.records
            && w'.receiver == RestoreInbound(p.ReceiverKeys(), p.SenderIdentity(), p.epoch, p.epochSeq, snapshot).value
  {
    hide CanSend, RestoreInbound;
  }

  /** Whatever a receiver delivers, it delivers again when it is restored at the snapshot it had before. */
  lemma RestoreDeliversAgain(p: Pairing, w: World, wire: Wire) returns (d: Delivery)
    requires p.Honest() && Inv(p, w) && w.receiver.turn < U64_MAX && CanSend(p, w, wire) && wire.Full?
    requires Opening(w.receiver, wire).0.Ok?
    ensures Trace(p, w, [SaveReceiver, Arrive(wire), ResumeReceiver(SnapshotOf(w.receiver)), Arrive(wire)])
            == [Got(d), Back(w.receiver.turn), Got(d)]
  {
    RestoredOpensAgain(p, w.receiver, wire);
    var (r, s') := Opening(w.receiver, wire);
    d := Delivery(s'.turn, HeaderCounter(wire.header), r.value);
    hide CanSend, Opening, ChainsOk, RecordsOk, Consistent, Apply, StepTrace, RestoreInbound, HeaderCounter, Trace;
    var back := ResumeReceiver(SnapshotOf(w.receiver));
    SaveStep(p, w);
    var w1 := Apply(p, w, SaveReceiver);
    SameOffer(p, w, w1, wire);
    ArriveStep(p, w1, wire);
    var w2 := Apply(p, w1, Arrive(wire));
    BackStep(p, w2, SnapshotOf(w.receiver));
    var w3 := Apply(p, w2, back);
    SameOffer(p, w, w3, wire);
    ArriveStep(p, w3, wire);
    FourSteps(p, w, SaveReceiver, Arrive(wire), back, Arrive(wire));
  }

  lemma SameOffer(p: Pairing, w: World, w': World, wire: Wire)
    requires w'.records == w.records && CanSend(p, w, wire)
    ensures CanSend(p, w', wire)
  {
  }

  lemma FourSteps(p: Pairing, w: World, a: Step, b: Step, c: Step, d: Step)
    ensures var w1 := Apply(p, w, a);
            var w2 := Apply(p, w1, b);
            var w3 := Apply(p, w2, c);
            Trace(p, w, [a, b, c, d]) == StepTrace(p, w, a) + (StepTrace(p, w1, b) + (StepTrace(p, w2, c) + (StepTrace(p, w3, d) + [])))
  {
    hide Apply, StepTrace, Trace;
    var w1 := Apply(p, w, a);
    var w2 := Apply(p, w1, b);
    var w3 := Apply(p, w2, c);
    TraceCons(p, w, a, [b, c, d]);
    TraceCons(p, w1, b, [c, d]);
    TraceCons(p, w2, c, [d]);
    TraceCons(p, w3, d, []);
    TraceNil(p, Apply(p, w3, d));
    assert [a] + [b, c, d] == [a, b, c, d] && [b] + [c, d] == [b, c, d] && [c] + [d] == [c, d] && [d] + [] == [d];
  }

  lemma TraceNil(p: Pairing, w: World)
    ensures Trace(p, w, []) == []
  {
  }

  lemma TraceCons(p: Pairing, w: World, step: Step, rest: seq<Step>)
    ensures Trace(p, w, [step] + rest) == StepTrace(p, w, step) + Trace(p, Apply(p, w, step), rest)
  {
    hide Apply, StepTrace;
    assert ([step] + rest)[1..] == rest;
  }

  // ---- every earlier snapshot on the path brings a delivery back ----

  function DeliveryOf(r: Record): Delivery { Delivery(r.turn, r.counter, r.plaintext) }

  /** What a restored receiver at the message's own turn makes of it. */
  lemma OpensCurrentTurn(p: Pairing, s: Session, r: Record, wire: Wire)
    requires RecordOk(p, r) && ReceiverOk(p, s) && r.turn == s.turn < U64_MAX && r.chain == s.chain && s.replay == EMPTY
    requires wire == Full(HeadV2(ClaimsOf(p, r.turn, r.counter)), LowOrder, Nonce(r.counter), r.wire.body)
    ensures Opening(s, wire).0 == Ok(r.plaintext) && Opening(s, wire).1.turn == r.turn
  {
    hide AssociatedData, TurnKeyInfo, HeadV2, Recorded, Nonce, ReadU32, ReadU64;
    HeaderRoundTrip(ClaimsOf(p, r.turn, r.counter));
  }

  lemma RecordFacts(p: Pairing, w: World, i: nat)
    requires Inv(p, w) && i < |w.records|
    ensures RecordOk(p, w.records[i]) && ReceiverOk(p, w.receiver)
    ensures Depth(w.records[i].chain) == w.records[i].turn && Depth(w.receiver.chain) == w.receiver.turn
  {
    hide Consistent, RecordOk;
    assert Rooted(p, ChainSnapshot(w.records[i].chain, w.records[i].turn));
    assert Rooted(p, SnapshotOf(w.receiver));
  }

  /** The network offers one sealed message to a receiver that stands right below it, or at it with an empty window. */
  lemma DeliverRecord(p: Pairing, w: World, i: nat) returns (wire: Wire)
    requires p.Honest() && Inv(p, w) && WellBuilt(p, w) && i < |w.records| && w.receiver.turn < U64_MAX
    requires var c := w.records[i].chain;
             (c.Link? && c.previous == w.receiver.chain) || (c == w.receiver.chain && w.receiver.replay == EMPTY)
    ensures StepTrace(p, w, Arrive(wire)) == [Got(DeliveryOf(w.records[i]))]
  {
    hide CanSend, Opening, Inv, WellBuilt, HeadV2, AssociatedData, TurnKeyInfo, Nonce, Apply, StepTrace;
    var r := w.records[i];
    RecordFacts(p, w, i);
    if r.chain == w.receiver.chain {
      wire := Full(HeadV2(ClaimsOf(p, r.turn, r.counter)), LowOrder, Nonce(r.counter), r.wire.body);
      OpensCurrentTurn(p, w.receiver, r, wire);
    } else {
      var q := NextTurnFacts(p, w, i);
      wire := Full(HeadV2(ClaimsOf(p, r.turn, r.counter)), Public(q), Nonce(r.counter), r.wire.body);
      OpensNextTurn(p, w.receiver, r, q, wire);
    }
    RecordedBodyIsOffered(p, w, i, wire);
    HeaderRoundTrip(ClaimsOf(p, r.turn, r.counter));
    ArriveStep(p, w, wire);
  }

  lemma {:induction false} TraceAppend(p: Pairing, w: World, steps: seq<Step>, step: Step)
    ensures Trace(p, w, steps + [step]) == Trace(p, w, steps) + StepTrace(p, Exec(p, w, steps), step)
    decreases |steps|
  {
    hide Apply, StepTrace;
    if steps == [] {
      assert [step] == [step] + [] && [] + [step] == [step];
      TraceCons(p, w, step, []);
    } else {
      var w' := Apply(p, w, steps[0]);
      assert steps + [step] == [steps[0]] + (steps[1..] + [step]);
      TraceCons(p, w, steps[0], steps[1..] + [step]);
      TraceAppend(p, w', steps[1..], step);
      Regroup(StepTrace(p, w, steps[0]), Trace(p, w', steps[1..]), StepTrace(p, Exec(p, w', steps[1..]), step));
    }
  }

  /** The world a receiver restore leaves. */
  lemma RestoredWorld(p: Pairing, w: World, snapshot: ChainSnapshot)
    requires p.Honest() && Inv(p, w) && WellBuilt(p, w) && snapshot in w.receiverSaved
    ensures var w' := Apply(p, w, ResumeReceiver(snapshot));
            && Inv(p, w') && WellBuilt(p, w') && w'.records == w.records
            && SnapshotOf(w'.receiver) == snapshot && w'.receiver.replay == EMPTY
  {
    hide Apply, StepTrace, RestoreInbound, Inv, WellBuilt;
    StepKeepsInv(p, w, ResumeReceiver(snapshot));
    StepKeepsWellBuilt(p, w, ResumeReceiver(snapshot));
    RestoredStartsEmpty(p, snapshot);
    BackStep(p, w, snapshot);
  }

  lemma RestoredStartsEmpty(p: Pairing, snapshot: ChainSnapshot)
    requires p.Honest()
    ensures var r := RestoreInbound(p.ReceiverKeys(), p.SenderIdentity(), p.epoch, p.epochSeq, snapshot);
            r.Ok? && SnapshotOf(r.value) == snapshot && r.value.replay == EMPTY
  {
  }

  /** After a restore below a message that can be walked up to, old messages alone deliver it. */
  lemma RestoreReaches(p: Pairing, w: World, snapshot: ChainSnapshot, i: nat) returns (steps: seq<Step>)
    requires p.Honest() && Inv(p, w) && WellBuilt(p, w) && snapshot in w.receiverSaved && snapshot.turn < U64_MAX
    requires i < |w.records| && Earned(w.records, w.records[i].chain) && Ancestor(snapshot.chain, w.records[i].chain)
    ensures AllArrivals(steps)
    ensures Got(DeliveryOf(w.records[i])) in Trace(p, Apply(p, w, ResumeReceiver(snapshot)), steps)
  {
    hide Inv, WellBuilt, Apply, StepTrace, Trace, HasRecord, Exec, Ancestor, Earned, Depth, RecordOk, ReceiverOk;
    RestoredWorld(p, w, snapshot);
    var w' := Apply(p, w, ResumeReceiver(snapshot));
    var c := w.records[i].chain;
    var climb: seq<Step> := [];
    if c != snapshot.chain {
      OneBelow(w.records, snapshot.chain, c);
      climb := WalkUp(p, w', c.previous);
    } else {
      assert Exec(p, w', climb) == w' by { ExecNil(p, w'); }
    }
    var w2 := Exec(p, w', climb);
    RunKeepsInv(p, w', climb);
    SameChainsWellBuilt(p, w', w2);
    assert w2.receiver.turn < U64_MAX by { BelowIsNotLast(p, w2, i, snapshot); }
    var wire := DeliverRecord(p, w2, i);
    TraceAppend(p, w', climb, Arrive(wire));
    steps := climb + [Arrive(wire)];
    assert Got(DeliveryOf(w.records[i])) in StepTrace(p, w2, Arrive(wire));
  }

  lemma OneBelow(records: seq<Record>, a: Chain, c: Chain)
    requires Earned(records, c) && Ancestor(a, c) && a != c
    ensures c.Link? && Earned(records, c.previous) && Ancestor(a, c.previous)
  {
  }

  /** The receiver stands below the message, or at a snapshot below the last turn. */
  lemma BelowIsNotLast(p: Pairing, w: World, i: nat, snapshot: ChainSnapshot)
    requires Inv(p, w) && i < |w.records| && snapshot.turn < U64_MAX
    requires SnapshotOf(w.receiver) == snapshot
             || (w.records[i].chain.Link? && w.records[i].chain.previous == w.receiver.chain)
    ensures w.receiver.turn < U64_MAX
  {
    hide Inv;
    RecordFacts(p, w, i);
  }

  lemma ExecNil(p: Pairing, w: World)
    ensures Exec(p, w, []) == w
  {
  }

  // ---- where the current receiver's deliveries stand ----

  ghost predicate SentBelow(w: World, d: Delivery) {
    exists i | 0 <= i < |w.records| :: Matches(w.records[i], d) && Ancestor(w.records[i].chain, w.receiver.chain)
  }

  /** Each was sealed on the way to where the receiver is now. */
  ghost predicate DeliveredOnPath(w: World) { forall k | 0 <= k < |w.delivered| :: SentBelow(w, w.delivered[k]) }

  lemma ArriveKeepsOnPath(p: Pairing, w: World, wire: Wire)
    requires p.Honest() && Inv(p, w) && DeliveredOnPath(w) && Enabled(p, w, Arrive(wire))
    ensures DeliveredOnPath(Apply(p, w, Arrive(wire)))
  {
    hide Opening, Consistent, CanSend, ChainsOk, RecordsOk;
    var w' := Apply(p, w, Arrive(wire));
    OpenLinksAtMostOnce(w.receiver, wire);
    if Opening(w.receiver, wire).0.Ok? {
      var i := SuccessfulArrivalIsAuthentic(p, w, wire);
      assert SentBelow(w', w'.delivered[|w.delivered|]);
    }
    forall k | 0 <= k < |w.delivered| ensures SentBelow(w', w'.delivered[k]) {
      assert SentBelow(w, w.delivered[k]);
      var i :| 0 <= i < |w.records| && Matches(w.records[i], w.delivered[k]) && Ancestor(w.records[i].chain, w.receiver.chain);
      assert Matches(w'.records[i], w'.delivered[k]) && Ancestor(w'.records[i].chain, w'.receiver.chain);
    }
  }

  lemma OtherKeepsOnPath(p: Pairing, w: World, step: Step)
    requires DeliveredOnPath(w) && !step.Arrive?
    ensures DeliveredOnPath(Apply(p, w, step))
  {
    hide CanSend, EnvelopeOf, After, TurnOpened, InstallBlock, NewOutbound, RestoreOutbound;
    var w' := Apply(p, w, step);
    assert w'.delivered == [] || (w'.delivered == w.delivered && w'.receiver == w.receiver);
    assert w.records <= w'.records;
    if w'.delivered != [] {
      forall k | 0 <= k < |w'.delivered| ensures SentBelow(w', w'.delivered[k]) {
        assert SentBelow(w, w.delivered[k]);
        var i :| 0 <= i < |w.records| && Matches(w.records[i], w.delivered[k]) && Ancestor(w.records[i].chain, w.receiver.chain);
        assert w'.records[i] == w.records[i];
      }
    }
  }

  lemma {:induction false} RunKeepsOnPath(p: Pairing, w: World, steps: seq<Step>)
    requires p.Honest() && Inv(p, w) && WellBuilt(p, w) && ReceiversEarned(w) && DeliveredOnPath(w)
    ensures var w' := Exec(p, w, steps);
            Inv(p, w') && WellBuilt(p, w') && ReceiversEarned(w') && DeliveredOnPath(w')
    decreases |steps|
  {
    hide Inv, WellBuilt, ReceiversEarned, DeliveredOnPath, Apply;
    if steps != [] {
      StepKeepsInv(p, w, steps[0]);
      StepKeepsWellBuilt(p, w, steps[0]);
      StepKeepsEarned(p, w, steps[0]);
      if !steps[0].Arrive? {
        OtherKeepsOnPath(p, w, steps[0]);
      } else if Enabled(p, w, steps[0]) {
        ArriveKeepsOnPath(p, w, steps[0].wire);
      } else {
        DisabledDoesNothing(p, w, steps[0]);
      }
      RunKeepsOnPath(p, Apply(p, w, steps[0]), steps[1..]);
    }
  }

  /**
   In every run: whatever the receiver has delivered, a restore at any saved snapshot of its path at or below
   that turn lets old messages deliver it again.
   */
  lemma RestoreBringsItBack(p: Pairing, before: seq<Step>, snapshot: ChainSnapshot, k: nat) returns (later: seq<Step>)
    requires p.Honest()
    requires var w := Exec(p, Initial(p), before);
             && k < |w.delivered| && snapshot in w.receiverSaved && Ancestor(snapshot.chain, w.receiver.chain)
             && snapshot.turn <= w.delivered[k].turn && snapshot.turn < U64_MAX
    ensures AllArrivals(later)
    ensures var w := Exec(p, Initial(p), before);
            Got(w.delivered[k]) in Trace(p, Apply(p, w, ResumeReceiver(snapshot)), later)
  {
    hide Exec, Initial, Apply, Trace, Inv, WellBuilt, ReceiversEarned, Earned, Ancestor, Depth, RecordOk, ReceiverOk,
         CoveringLaunches;
    InitialPath(p);
    NothingDeliveredYet(p);
    RunKeepsOnPath(p, Initial(p), before);
    var w := Exec(p, Initial(p), before);
    assert SentBelow(w, w.delivered[k]);
    var i :| 0 <= i < |w.records| && Matches(w.records[i], w.delivered[k]) && Ancestor(w.records[i].chain, w.receiver.chain);
    ReceiverIsEarned(w);
    EarnedBelow(w.records, w.records[i].chain, w.receiver.chain);
    RecordFacts(p, w, i);
    SavedDepth(p, w, snapshot);
    AncestorsLineUp(snapshot.chain, w.records[i].chain, w.receiver.chain);
    later := RestoreReaches(p, w, snapshot, i);
  }

  lemma ReceiverIsEarned(w: World)
    requires ReceiversEarned(w)
    ensures Earned(w.records, w.receiver.chain)
  {
  }

  lemma SavedDepth(p: Pairing, w: World, snapshot: ChainSnapshot)
    requires Inv(p, w) && snapshot in w.receiverSaved
    ensures Depth(snapshot.chain) == snapshot.turn
  {
    hide Consistent, RecordsOk;
    assert Rooted(p, snapshot);
  }

  lemma NothingDeliveredYet(p: Pairing)
    requires p.Honest()
    ensures Initial(p).delivered == []
  {
  }
}
