/** When sender and receiver share their chain, over crashes and restores of the sender. */
module SessionChains {
  import opened Bytes
  import opened Encodings
  import opened SymbolicCrypto
  import opened ReplayWindows
  import opened SessionV2s
  import opened InboundRuns
  import opened SessionRuns

  /** The receiver's chain is one the sender's present chain passed through. */
  predicate Agreed(w: World) { Ancestor(w.receiver.chain, w.tip.chain) }

  // ---- how far a receiver can climb ----

  ghost predicate HasRecord(records: seq<Record>, c: Chain) {
    exists i | 0 <= i < |records| :: records[i].chain == c
  }

  /** Every turn up to `c` has a sealed message, so a receiver can be walked up to it. */
  ghost predicate Earned(records: seq<Record>, c: Chain) {
    c.Root? || (HasRecord(records, c) && Earned(records, c.previous))
  }

  /** Receivers, live or saved, stand only where sealed messages took them. */
  ghost predicate ReceiversEarned(w: World) {
    Earned(w.records, w.receiver.chain) && forall c | c in w.receiverSaved :: Earned(w.records, c.chain)
  }

  ghost predicate Held(w: World, c: Chain) {
    exists s :: s in w.chains && s.chain == c
  }

  /** Every chain the sender held was linked onto an earlier one with a key the receiver can match. */
  ghost predicate WellBuilt(p: Pairing, w: World) {
    forall c | c in w.chains && c.chain.Link? ::
      Held(w, c.chain.previous) && Matchable(p, c.chain.shared)
  }

  ghost predicate Matchable(p: Pairing, shared: Shared) {
    exists q: Secret :: DiffieHellman(p.receiverSecret, Public(q)) == Some(shared)
  }

  lemma {:induction false} EarnedGrows(records: seq<Record>, r: Record, c: Chain)
    ensures Earned(records, c) ==> Earned(records + [r], c)
    ensures Earned(records + [r], c) ==> Earned(records, c) || (r.chain.Link? && Ancestor(r.chain, c))
  {
    HasRecordGrows(records, r, c);
    hide HasRecord;
    if c.Link? {
      EarnedGrows(records, r, c.previous);
    }
  }

  lemma HasRecordGrows(records: seq<Record>, r: Record, c: Chain)
    ensures HasRecord(records + [r], c) <==> HasRecord(records, c) || r.chain == c
  {
    var longer := records + [r];
    assert longer[|records|] == r;
    if HasRecord(records, c) {
      var i :| 0 <= i < |records| && records[i].chain == c;
      assert longer[i].chain == c;
    }
  }

  lemma {:induction false} EarnedBelow(records: seq<Record>, a: Chain, c: Chain)
    requires Earned(records, c) && Ancestor(a, c)
    ensures Earned(records, a)
  {
    if a != c {
      EarnedBelow(records, a, c.previous);
    }
  }

  lemma {:induction false} AncestorIsHeld(p: Pairing, w: World, a: Chain, c: Chain)
    requires WellBuilt(p, w) && Held(w, c) && Ancestor(a, c)
    ensures Held(w, a)
    decreases c
  {
    if a != c {
      AncestorIsHeld(p, w, a, c.previous);
    }
  }

  // ---- two facts of every run ----

  /** What one arrival does to the receiver's chain. */
  lemma OpenLinksAtMostOnce(s: Session, wire: Wire)
    requires s.localStatic.Some? && s.turn < U64_MAX
    ensures var c := Opening(s, wire).1.chain;
            c == s.chain || (c.Link? && c.previous == s.chain)
  {
    hide AssociatedData, TurnKeyInfo, ReadU32, ReadU64, Acceptable, Recorded;
  }

  lemma ArriveKeepsEarned(p: Pairing, w: World, wire: Wire)
    requires p.Honest() && Inv(p, w) && ReceiversEarned(w) && Enabled(p, w, Arrive(wire))
    ensures ReceiversEarned(Apply(p, w, Arrive(wire)))
  {
    hide Opening, Consistent, CanSend, ChainsOk, RecordsOk;
    OpenLinksAtMostOnce(w.receiver, wire);
    if Opening(w.receiver, wire).0.Ok? {
      var i := SuccessfulArrivalIsAuthentic(p, w, wire);
      assert HasRecord(w.records, w.records[i].chain);
    } else {
      FailedArrivalIsHarmless(p, w, wire);
    }
  }

  lemma SealKeepsEarned(p: Pairing, w: World, plaintext: bytes)
    requires ReceiversEarned(w)
    ensures ReceiversEarned(Apply(p, w, SealMessage(plaintext)))
  {
    hide Earned, EnvelopeOf, CanSend, After, TurnOpened, InstallBlock, RestoreOutbound, RestoreInbound, NewOutbound;
    var w' := Apply(p, w, SealMessage(plaintext));
    if w' != w {
      var r := w'.records[|w.records|];
      EarnedGrows(w.records, r, w.receiver.chain);
      forall c | c in w.receiverSaved ensures Earned(w'.records, c.chain) {
        EarnedGrows(w.records, r, c.chain);
      }
    }
  }

  lemma StepKeepsEarned(p: Pairing, w: World, step: Step)
    requires p.Honest() && Inv(p, w) && ReceiversEarned(w)
    ensures ReceiversEarned(Apply(p, w, step))
  {
    hide Earned, CanSend, Consistent, ChainsOk, RecordsOk, Sealing, After, TurnOpened, NewOutbound, InstallBlock;
    if step.SealMessage? {
      SealKeepsEarned(p, w, step.plaintext);
    } else if step.Arrive? && Enabled(p, w, step) {
      ArriveKeepsEarned(p, w, step.wire);
    }
  }

  lemma StepKeepsWellBuilt(p: Pairing, w: World, step: Step)
    requires p.Honest() && Inv(p, w) && WellBuilt(p, w)
    ensures WellBuilt(p, Apply(p, w, step))
  {
    hide CanSend, Consistent, RecordsOk, Sealing, After, NewOutbound, InstallBlock, RestoreInbound, Matchable;
    var w' := Apply(p, w, step);
    if step.NewTurn? && Enabled(p, w, step) && TurnOpened(w.sender.value, step.seed).Ok? {
      var c := TurnOpened(w.sender.value, step.seed).value.chain;
      DiffieHellmanSymmetric(step.seed, p.receiverSecret);
      assert Matchable(p, c.shared) by { MatchableBy(p, step.seed, c.shared); }
      assert SnapshotOf(w.sender.value) in w'.chains;
      forall x | x in w'.chains && x.chain.Link? ensures Held(w', x.chain.previous) && Matchable(p, x.chain.shared) {
        if x in w.chains {
          var y :| y in w.chains && y.chain == x.chain.previous;
          assert y in w'.chains;
        }
      }
    } else {
      assert w'.chains == w.chains;
    }
  }

  lemma MatchableBy(p: Pairing, q: Secret, shared: Shared)
    requires DiffieHellman(p.receiverSecret, Public(q)) == Some(shared)
    ensures Matchable(p, shared)
  {
  }

  // ---- agreement while every launch covers what was sealed ----

  /** The chain a launch continues from. */
  function LaunchChain(p: Pairing, step: Step): Chain
    requires step.Start? || step.Resume?
  {
    if step.Start? then Root(p.RootShared()) else step.snapshot.chain
  }

  /** A launch that brings a sender up. */
  ghost predicate Launches(p: Pairing, w: World, step: Step) {
    (step.Start? || step.Resume?) && Enabled(p, w, step) && step.block.start != 0
  }

  /** Everything sealed so far lies on the way to `c`. */
  ghost predicate Covers(c: Chain, records: seq<Record>) {
    forall i | 0 <= i < |records| :: Ancestor(records[i].chain, c)
  }

  /** No launch starts below, or off, anything that was sealed; turns without a message may be lost. */
  ghost predicate CoveringLaunches(p: Pairing, w: World, steps: seq<Step>)
    decreases |steps|
  {
    steps != [] ==>
      (Launches(p, w, steps[0]) ==> Covers(LaunchChain(p, steps[0]), w.records))
      && CoveringLaunches(p, Apply(p, w, steps[0]), steps[1..])
  }

  ghost predicate TipOk(p: Pairing, w: World) {
    Rooted(p, w.tip) && (w.sender.Some? ==> SnapshotOf(w.sender.value) == w.tip)
  }

  /** What a step makes of the sender's present chain. */
  lemma TipAfter(p: Pairing, w: World, step: Step)
    requires p.Honest() && Inv(p, w) && TipOk(p, w)
    ensures var w' := Apply(p, w, step);
            && TipOk(p, w')
            && (if Launches(p, w, step) then w'.tip.chain == LaunchChain(p, step)
                else w'.tip == w.tip || (step.NewTurn? && w'.tip.chain.Link? && w'.tip.chain.previous == w.tip.chain))
            && (w'.records == w.records
                || (step.SealMessage? && |w'.records| == |w.records| + 1 && w'.records[..|w.records|] == w.records
                    && w'.records[|w.records|].chain == w.tip.chain && w'.tip == w.tip))
  {
    hide CanSend, Consistent, RecordsOk, After, RestoreInbound, EnvelopeOf;
    var w' := Apply(p, w, step);
    assert step.Resume? && Enabled(p, w, step) ==> Rooted(p, step.snapshot);
    assert step.NewTurn? && w.sender.Some? ==> Rooted(p, SnapshotOf(w.sender.value));
  }

  lemma CoversAfter(p: Pairing, w: World, step: Step)
    requires p.Honest() && Inv(p, w) && TipOk(p, w) && Covers(w.tip.chain, w.records)
    requires Launches(p, w, step) ==> Covers(LaunchChain(p, step), w.records)
    ensures Covers(Apply(p, w, step).tip.chain, Apply(p, w, step).records)
  {
    hide Apply, Launches, Inv, TipOk;
    TipAfter(p, w, step);
    var w' := Apply(p, w, step);
    forall i | 0 <= i < |w'.records| ensures Ancestor(w'.records[i].chain, w'.tip.chain) {
      if i < |w.records| {
        assert w'.records[..|w.records|][i] == w.records[i];
        assert Ancestor(w.records[i].chain, w.tip.chain);
      }
    }
  }

  /** Sender and receiver stay on one path. */
  ghost predicate PathInv(p: Pairing, w: World) {
    Inv(p, w) && TipOk(p, w) && Covers(w.tip.chain, w.records) && ReceiversEarned(w) && WellBuilt(p, w)
  }

  lemma InitialPath(p: Pairing)
    requires p.Honest()
    ensures PathInv(p, Initial(p))
  {
    hide Consistent;
    InitialInv(p);
    DiffieHellmanSymmetric(p.senderSecret, p.receiverSecret);
  }

  lemma {:induction false} RunKeepsPath(p: Pairing, w: World, steps: seq<Step>)
    requires p.Honest() && PathInv(p, w) && CoveringLaunches(p, w, steps)
    ensures PathInv(p, Exec(p, w, steps))
    decreases |steps|
  {
    hide Apply, Launches, Inv, TipOk, Covers, ReceiversEarned, WellBuilt;
    if steps != [] {
      StepKeepsInv(p, w, steps[0]);
      TipAfter(p, w, steps[0]);
      CoversAfter(p, w, steps[0]);
      StepKeepsEarned(p, w, steps[0]);
      StepKeepsWellBuilt(p, w, steps[0]);
      RunKeepsPath(p, Apply(p, w, steps[0]), steps[1..]);
    }
  }

  /** An earned chain of this pairing is the root or carries a message. */
  lemma EarnedIsRootOrRecorded(p: Pairing, w: World, c: Chain, tip: Chain)
    requires Origin(c) == Origin(tip) && Earned(w.records, c)
    requires forall i | 0 <= i < |w.records| && Earned(w.records, w.records[i].chain) :: Ancestor(w.records[i].chain, tip)
    ensures Ancestor(c, tip)
  {
    if c.Root? {
      RootIsAncestor(tip);
    } else {
      var i :| 0 <= i < |w.records| && w.records[i].chain == c;
    }
  }

  lemma PathMeansAgreed(p: Pairing, w: World)
    requires PathInv(p, w)
    ensures Agreed(w)
  {
    hide Consistent, RecordsOk, WellBuilt;
    assert Rooted(p, SnapshotOf(w.receiver));
    EarnedIsRootOrRecorded(p, w, w.receiver.chain, w.tip.chain);
  }

  /**
   As long as every launch covers what was sealed before it, the receiver's chain at its turn is the chain
   the sender passed through at that turn.
   */
  lemma ChainsAgree(p: Pairing, steps: seq<Step>)
    requires p.Honest() && CoveringLaunches(p, Initial(p), steps)
    ensures var w := Exec(p, Initial(p), steps);
            && Depth(w.tip.chain) == w.tip.turn
            && w.receiver.turn <= w.tip.turn
            && w.receiver.chain == AtTurn(w.tip.chain, w.receiver.turn)
  {
    hide Initial, Exec, Consistent, RecordsOk, WellBuilt, Earned;
    InitialPath(p);
    RunKeepsPath(p, Initial(p), steps);
    var w := Exec(p, Initial(p), steps);
    PathMeansAgreed(p, w);
    AncestorAtTurn(w.receiver.chain, w.tip.chain);
    assert Rooted(p, SnapshotOf(w.receiver));
  }

  lemma {:induction false} ExecAppend(p: Pairing, w: World, steps: seq<Step>, step: Step)
    ensures Exec(p, w, steps + [step]) == Apply(p, Exec(p, w, steps), step)
    decreases |steps|
  {
    hide Apply;
    if steps == [] {
      assert Exec(p, Apply(p, w, step), []) == Apply(p, w, step);
    } else {
      assert (steps + [step])[1..] == steps[1..] + [step];
      ExecAppend(p, Apply(p, w, steps[0]), steps[1..], step);
    }
  }

  lemma AfterArrival(p: Pairing, w: World, wire: Wire)
    requires w.receiver.Valid() && w.receiver.direction == Inbound && w.receiver.turn < U64_MAX && CanSend(p, w, wire)
    ensures var w' := Apply(p, w, Arrive(wire));
            w'.receiver == Opening(w.receiver, wire).1 && w'.leaseEnd == w.leaseEnd
            && w'.records == w.records && w'.tip == w.tip && w'.chains == w.chains
  {
    hide CanSend, Opening, InstallBlock, RestoreOutbound, RestoreInbound, NewOutbound, TurnOpened, Sealing;
  }
}
