/** Why the sender has to resume where it stopped: a run in which it does not, and the chains part. */
module SessionRollback {
  import opened Bytes
  import opened SymbolicCrypto
  import opened SessionV2s
  import opened InboundRuns
  import opened SessionRuns
  import opened SessionChains

  /** A sender without history, and the same sender one turn on. */
  function Starting(p: Pairing, b: CounterBlock): Session
    requires p.Honest() && b.start != 0
  {
    NewOutbound(p.SenderKeys(), p.ReceiverIdentity(), p.epoch, p.epochSeq, Some(b)).value
  }

  function FirstTurn(p: Pairing, b: CounterBlock, seed: Secret): Session
    requires p.Honest() && b.start != 0 && seed != 0
  {
    TurnOpened(Starting(p, b), seed).value
  }

  lemma StartAndOpen(p: Pairing, w: World, b: CounterBlock, seed: Secret)
    requires p.Honest() && b.start != 0 && seed != 0 && w.sender.None? && w.leaseEnd <= b.start
    ensures var w' := Apply(p, Apply(p, w, Start(b)), NewTurn(seed));
            && w'.sender == Some(FirstTurn(p, b, seed)) && w'.tip == SnapshotOf(FirstTurn(p, b, seed))
            && w'.receiver == w.receiver && w'.leaseEnd == Max(w.leaseEnd, b.end) && w'.records == w.records
    ensures SnapshotOf(FirstTurn(p, b, seed)) ==
            ChainSnapshot(Link(Root(p.RootShared()), DiffieHellman(seed, Public(p.receiverSecret)).value), 1)
  {
    hide CanSend, RestoreOutbound, RestoreInbound, After, Sealing, InstallBlock;
    var w1 := Apply(p, w, Start(b));
    assert w1.sender == Some(Starting(p, b)) && w1.receiver == w.receiver && w1.records == w.records;
  }

  lemma AfterSeal(p: Pairing, w: World)
    requires w.sender.Some? && Sealing(w.sender.value, []).Ok?
    ensures var w' := Apply(p, w, SealMessage([]));
            && |w'.records| == |w.records| + 1
            && w'.records[|w.records|].wire == Sealing(w.sender.value, []).value.0
            && w'.records[..|w.records|] == w.records && w'.records[|w.records|].chain == w.sender.value.chain
            && w'.receiver == w.receiver && w'.leaseEnd == w.leaseEnd && w'.tip == w.tip
  {
    hide CanSend, After, InstallBlock, RestoreOutbound, RestoreInbound, NewOutbound, TurnOpened, EnvelopeOf;
  }

  /** A sender one turn ahead seals a message and it arrives. */
  lemma SealAndArrive(p: Pairing, w: World)
    requires w.sender.Some? && InStep(p, w.sender.value, w.receiver) && w.receiver.turn + 1 == w.sender.value.turn
    requires Sealing(w.sender.value, []).Ok?
    ensures var w' := Apply(p, Apply(p, w, SealMessage([])), Arrive(Sealing(w.sender.value, []).value.0));
            && w'.receiver.turn == w.sender.value.turn && w'.receiver.chain == w.sender.value.chain
            && w'.leaseEnd == w.leaseEnd
  {
    hide CanSend, Opening, Sealing, Apply;
    SealedThenOpened(p, w.sender.value, w.receiver, []);
    AfterSeal(p, w);
    var w1 := Apply(p, w, SealMessage([]));
    Replayable(p, w1, |w.records|);
    AfterArrival(p, w1, w1.records[|w.records|].wire);
  }

  lemma Replayable(p: Pairing, w: World, i: nat)
    requires i < |w.records|
    ensures CanSend(p, w, w.records[i].wire)
  {
  }

  lemma InStepAtFirstTurn(p: Pairing, b: CounterBlock, seed: Secret)
    requires p.Honest() && 0 < b.start < b.end && seed != 0
    ensures InStep(p, FirstTurn(p, b, seed), Initial(p).receiver) && Initial(p).receiver.turn == 0
    ensures Sealing(FirstTurn(p, b, seed), []).Ok?
  {
    hide EnvelopeOf;
    DiffieHellmanSymmetric(p.senderSecret, p.receiverSecret);
    OpenedTurnIsInStep(p, Starting(p, b), Initial(p).receiver, seed);
  }

  lemma AfterCrash(p: Pairing, w: World)
    ensures Apply(p, w, Crash) == w.(sender := None)
  {
  }

  lemma RunOf(p: Pairing, w: World, a: Step, b: Step, c: Step, d: Step)
    ensures Exec(p, w, [a, b, c, d]) == Apply(p, Apply(p, Apply(p, Apply(p, w, a), b), c), d)
  {
    hide Apply;
    RunOfMore(p, w, [a], b, c, d);
    assert [a, b, c, d] == [a] + [b] + [c] + [d];
    assert Exec(p, Apply(p, w, a), []) == Apply(p, w, a);
  }

  lemma RunOfMore(p: Pairing, w: World, steps: seq<Step>, a: Step, b: Step, c: Step)
    ensures Exec(p, w, steps + [a] + [b] + [c]) == Apply(p, Apply(p, Apply(p, Exec(p, w, steps), a), b), c)
  {
    hide Apply;
    ExecAppend(p, w, steps, a);
    ExecAppend(p, w, steps + [a], b);
    ExecAppend(p, w, steps + [a] + [b], c);
  }

  /** The chain of turn 1 under an ephemeral. */
  function TurnOne(p: Pairing, seed: Secret): Chain {
    Link(Root(p.RootShared()), DiffieHellman(seed, Public(p.receiverSecret)).value)
  }

  lemma OneTurnDelivered(p: Pairing) returns (steps: seq<Step>)
    requires p.Honest()
    ensures var w := Exec(p, Initial(p), steps);
            w.leaseEnd == 10 && w.receiver.turn == 1 && w.receiver.chain == TurnOne(p, 1)
  {
    hide Apply, InStep, Sealing, Exec, FirstTurn, Starting;
    var b := CounterBlock(1, 10);
    var (w0, s) := (Initial(p), FirstTurn(p, b, 1));
    assert w0.sender.None? && w0.leaseEnd == 0;
    hide Initial;
    StartAndOpen(p, w0, b, 1);
    InStepAtFirstTurn(p, b, 1);
    var wire := Sealing(s, []).value.0;
    SealAndArrive(p, Apply(p, Apply(p, w0, Start(b)), NewTurn(1)));
    RunOf(p, w0, Start(b), NewTurn(1), SealMessage([]), Arrive(wire));
    steps := [Start(b), NewTurn(1), SealMessage([]), Arrive(wire)];
  }

  /**
   A sender that comes up again without its chain opens a turn 1 of its own: sender and receiver are then
   both at turn 1, on different chains.
   */
  lemma RollbackSplitsTheChains(p: Pairing) returns (steps: seq<Step>)
    requires p.Honest()
    ensures var w := Exec(p, Initial(p), steps);
            w.receiver.turn == 1 == w.tip.turn && w.receiver.chain != w.tip.chain
  {
    hide Apply, Initial, Exec, FirstTurn, Starting;
    var before := OneTurnDelivered(p);
    var w := Exec(p, Initial(p), before);
    var b := CounterBlock(10, 20);
    AfterCrash(p, w);
    StartAndOpen(p, Apply(p, w, Crash), b, 2);
    RunOfMore(p, Initial(p), before, Crash, Start(b), NewTurn(2));
    steps := before + [Crash] + [Start(b)] + [NewTurn(2)];
  }
}
