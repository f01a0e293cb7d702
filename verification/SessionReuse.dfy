/** Why a turn must not repeat the ephemeral of an abandoned one: a run in which a harmless launch turns harmful. */
module SessionReuse {
  import opened Bytes
  import opened SymbolicCrypto
  import opened ReplayWindows
  import opened SessionV2s
  import opened InboundRuns
  import opened SessionRuns
  import opened SessionChains
  import opened SessionLaunches
  import opened SessionRollback

  const FIRST: CounterBlock := CounterBlock(1, 10)
  const SECOND: CounterBlock := CounterBlock(10, 20)

  /** The chain of turn 2 behind the first one. */
  function TurnTwo(p: Pairing): Chain {
    Link(TurnOne(p, 1), DiffieHellman(2, Public(p.receiverSecret)).value)
  }

  /** Turn 1 is opened and left without a message; turn 2 carries one; the sender crashes. */
  function Abandoned(): seq<Step> { [Start(FIRST), NewTurn(1), NewTurn(2)] + [SealMessage([])] + [Crash] }

  lemma SecondTurn(p: Pairing, w: World)
    requires p.Honest() && w.sender == Some(FirstTurn(p, FIRST, 1))
    requires SnapshotOf(FirstTurn(p, FIRST, 1)) == ChainSnapshot(TurnOne(p, 1), 1)
    ensures var w' := Apply(p, w, NewTurn(2));
            && w'.sender.Some? && w'.sender.value.chain == TurnTwo(p) && Sealing(w'.sender.value, []).Ok?
            && w'.receiver == w.receiver && w'.leaseEnd == w.leaseEnd && w'.records == w.records
  {
    hide CanSend, RestoreOutbound, RestoreInbound, After, InstallBlock, EnvelopeOf;
  }

  lemma AbandonedWorld(p: Pairing)
    requires p.Honest()
    ensures var w := Exec(p, Initial(p), Abandoned());
            && w.sender.None? && w.leaseEnd == 10 && w.receiver == Initial(p).receiver
            && |w.records| == 1 && w.records[0].chain == TurnTwo(p)
  {
    hide Apply, Exec, FirstTurn, Starting, Sealing;
    var w0 := Initial(p);
    assert w0.sender.None? && w0.leaseEnd == 0 && w0.records == [];
    hide Initial;
    StartAndOpen(p, w0, FIRST, 1);
    var w2 := Apply(p, Apply(p, w0, Start(FIRST)), NewTurn(1));
    SecondTurn(p, w2);
    var w3 := Apply(p, w2, NewTurn(2));
    AfterSeal(p, w3);
    var w4 := Apply(p, w3, SealMessage([]));
    AfterCrash(p, w4);
    ThreeSteps(p, w0, Start(FIRST), NewTurn(1), NewTurn(2));
    ExecAppend(p, w0, [Start(FIRST), NewTurn(1), NewTurn(2)], SealMessage([]));
    ExecAppend(p, w0, [Start(FIRST), NewTurn(1), NewTurn(2)] + [SealMessage([])], Crash);
  }

  lemma ThreeSteps(p: Pairing, w: World, a: Step, b: Step, c: Step)
    ensures Exec(p, w, [a, b, c]) == Apply(p, Apply(p, Apply(p, w, a), b), c)
  {
    hide Apply;
    RunOfMore(p, w, [], a, b, c);
    assert [a, b, c] == [] + [a] + [b] + [c];
  }

  lemma {:induction false} NoLaunchCovers(p: Pairing, w: World, steps: seq<Step>)
    requires forall i | 0 <= i < |steps| :: !steps[i].Start? && !steps[i].Resume?
    ensures CoveringLaunches(p, w, steps)
    decreases |steps|
  {
    hide Apply;
    if steps != [] {
      NoLaunchCovers(p, Apply(p, w, steps[0]), steps[1..]);
    }
  }

  lemma AbandonedCovers(p: Pairing)
    requires p.Honest()
    ensures CoveringLaunches(p, Initial(p), Abandoned())
  {
    hide Apply;
    var steps := Abandoned();
    assert Initial(p).records == [];
    hide Initial;
    NoLaunchCovers(p, Apply(p, Initial(p), steps[0]), steps[1..]);
  }

  /** One more sender from the root, which opens turn 1 with the old ephemeral and seals under it. */
  lemma Reopened(p: Pairing, w: World)
    requires p.Honest() && w.sender.None? && w.leaseEnd == 10 && |w.records| == 1 && w.records[0].chain == TurnTwo(p)
    ensures var w' := Apply(p, Apply(p, Apply(p, w, Start(SECOND)), NewTurn(1)), SealMessage([]));
            && w'.tip.chain == TurnOne(p, 1) && w'.receiver == w.receiver
            && HasRecord(w'.records, TurnOne(p, 1)) && HasRecord(w'.records, TurnTwo(p))
  {
    hide Apply, Sealing, FirstTurn, Starting;
    StartAndOpen(p, w, SECOND, 1);
    InStepAtFirstTurn(p, SECOND, 1);
    var w2 := Apply(p, Apply(p, w, Start(SECOND)), NewTurn(1));
    AfterSeal(p, w2);
    var w3 := Apply(p, w2, SealMessage([]));
    assert w3.records[..1][0] == w3.records[0];
    assert w3.records[0].chain == TurnTwo(p) && w3.records[1].chain == TurnOne(p, 1);
  }

  /** The launch meets the exact condition, and a reused ephemeral still walks the receiver past the sender. */
  lemma ReusedEphemeralIsHarmful(p: Pairing) returns (later: seq<Step>)
    requires p.Honest()
    ensures CoveringLaunches(p, Initial(p), Abandoned())
    ensures var w := Exec(p, Initial(p), Abandoned());
            && Launches(p, w, Start(SECOND)) && CoversEarned(Root(p.RootShared()), w.records)
            && !Agreed(Exec(p, Apply(p, w, Start(SECOND)), later))
  {
    hide Apply, Exec, Initial, Inv, WellBuilt, HasRecord, Earned, Launches, CoversEarned, CoveringLaunches, Agreed,
         TurnTwo, TurnOne, Ancestor, Abandoned;
    AbandonedCovers(p);
    AbandonedWorld(p);
    var w := Exec(p, Initial(p), Abandoned());
    CanStart(p, w);
    NothingEarned(p, w);
    var w1 := Apply(p, w, Start(SECOND));
    var w3 := Apply(p, Apply(p, w1, NewTurn(1)), SealMessage([]));
    Reopened(p, w);
    InitialReceiver(p);
    ReachedFrom(p, w, Start(SECOND), NewTurn(1), SealMessage([]));
    TwoIsEarned(p, w3.records);
    var climb := WalkUp(p, w3, TurnTwo(p));
    later := [NewTurn(1)] + [SealMessage([])] + climb;
    TwoThen(p, w1, NewTurn(1), SealMessage([]), climb);
    PastTheSender(p, Exec(p, w1, later));
  }

  lemma TwoIsEarned(p: Pairing, records: seq<Record>)
    requires HasRecord(records, TurnOne(p, 1)) && HasRecord(records, TurnTwo(p))
    ensures Earned(records, TurnTwo(p)) && Ancestor(Root(p.RootShared()), TurnTwo(p))
  {
    hide HasRecord;
    assert Earned(records, TurnOne(p, 1)) && Ancestor(Root(p.RootShared()), TurnOne(p, 1));
  }

  lemma PastTheSender(p: Pairing, w: World)
    requires w.receiver.chain == TurnTwo(p) && w.tip.chain == TurnOne(p, 1)
    ensures !Agreed(w)
  {
    if Agreed(w) {
      AncestorAtTurn(w.receiver.chain, w.tip.chain);
    }
  }

  lemma CanStart(p: Pairing, w: World)
    requires w.sender.None? && w.leaseEnd == 10
    ensures Launches(p, w, Start(SECOND))
  {
    hide CanSend;
  }

  lemma InitialReceiver(p: Pairing)
    requires p.Honest()
    ensures Initial(p).receiver.chain == Root(p.RootShared())
  {
    DiffieHellmanSymmetric(p.senderSecret, p.receiverSecret);
  }

  lemma NothingEarned(p: Pairing, w: World)
    requires |w.records| == 1 && w.records[0].chain == TurnTwo(p)
    ensures CoversEarned(Root(p.RootShared()), w.records)
  {
    assert !HasRecord(w.records, TurnOne(p, 1));
    assert !Earned(w.records, TurnTwo(p).previous);
  }

  /** Reachable worlds keep the two invariants that walking up needs. */
  lemma ReachedFrom(p: Pairing, w: World, a: Step, b: Step, c: Step)
    requires p.Honest() && w == Exec(p, Initial(p), Abandoned()) && CoveringLaunches(p, Initial(p), Abandoned())
    ensures var w3 := Apply(p, Apply(p, Apply(p, w, a), b), c);
            Inv(p, w3) && WellBuilt(p, w3)
  {
    hide Apply, Exec, Initial, Inv, WellBuilt, TipOk, Covers, ReceiversEarned;
    InitialPath(p);
    RunKeepsPath(p, Initial(p), Abandoned());
    StepKeepsInv(p, w, a);
    StepKeepsWellBuilt(p, w, a);
    var w1 := Apply(p, w, a);
    StepKeepsInv(p, w1, b);
    StepKeepsWellBuilt(p, w1, b);
    var w2 := Apply(p, w1, b);
    StepKeepsInv(p, w2, c);
    StepKeepsWellBuilt(p, w2, c);
  }

  lemma TwoThen(p: Pairing, w: World, a: Step, b: Step, rest: seq<Step>)
    ensures Exec(p, w, [a] + [b] + rest) == Exec(p, Apply(p, Apply(p, w, a), b), rest)
  {
    hide Apply;
    var steps := [a] + [b] + rest;
    assert steps[1..] == [b] + rest && ([b] + rest)[1..] == rest;
    assert Exec(p, Apply(p, w, a), [b] + rest) == Exec(p, Apply(p, Apply(p, w, a), b), rest);
  }
}
