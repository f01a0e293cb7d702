/** Which secrets let an outsider compute a chain of the channel, turn by turn. */
module SessionSecrecy {
  import opened SymbolicCrypto
  import opened SessionV2s
  import opened SessionRuns
  import opened SessionChains

  /** The other party to an exchange with the receiver's static secret. */
  function EphemeralOf(p: Pairing, shared: Shared): Secret {
    if shared.low == p.receiverSecret then shared.high else shared.low
  }

  /** The ephemerals of all turns of a chain. */
  function Ephemerals(p: Pairing, c: Chain): set<Secret> {
    if c.Root? then {} else Ephemerals(p, c.previous) + {EphemeralOf(p, c.shared)}
  }

  lemma {:induction false} RunKeepsWellBuilt(p: Pairing, w: World, steps: seq<Step>)
    requires p.Honest() && Inv(p, w) && WellBuilt(p, w)
    ensures Inv(p, Exec(p, w, steps)) && WellBuilt(p, Exec(p, w, steps))
    decreases |steps|
  {
    hide Inv, WellBuilt, Apply;
    if steps != [] {
      StepKeepsInv(p, w, steps[0]);
      StepKeepsWellBuilt(p, w, steps[0]);
      RunKeepsWellBuilt(p, Apply(p, w, steps[0]), steps[1..]);
    }
  }

  /** One exchange with the receiver is known to whoever knows either side of it. */
  lemma ExchangeDerivableIff(p: Pairing, shared: Shared, known: set<Secret>)
    requires Matchable(p, shared)
    ensures SharedDerivable(shared, known) <==> p.receiverSecret in known || EphemeralOf(p, shared) in known
  {
  }

  lemma {:induction false} ChainDerivableIff(p: Pairing, w: World, c: Chain, known: set<Secret>)
    requires WellBuilt(p, w) && Held(w, c) && Origin(c) == p.RootShared()
    ensures ChainDerivable(c, known) <==>
              p.receiverSecret in known || (p.senderSecret in known && Ephemerals(p, c) <= known)
    decreases c
  {
    if c.Link? {
      hide Matchable;
      ExchangeDerivableIff(p, c.shared, known);
      ChainDerivableIff(p, w, c.previous, known);
    }
  }

  /**
   In every run, the chain of any turn can be computed exactly by who knows the receiver's static secret, or
   the sender's together with the ephemeral of every turn up to it.
   */
  lemma ChainIsKnownIff(p: Pairing, steps: seq<Step>, snapshot: ChainSnapshot, known: set<Secret>)
    requires p.Honest() && snapshot in Exec(p, Initial(p), steps).chains
    ensures ChainDerivable(snapshot.chain, known) <==>
              p.receiverSecret in known || (p.senderSecret in known && Ephemerals(p, snapshot.chain) <= known)
  {
    hide Exec, Initial, RecordsOk, ChainDerivable, Ephemerals;
    InitialPath(p);
    RunKeepsWellBuilt(p, Initial(p), steps);
    var w := Exec(p, Initial(p), steps);
    assert Rooted(p, snapshot);
    assert Held(w, snapshot.chain);
    ChainDerivableIff(p, w, snapshot.chain, known);
  }

  /** The sender's static secret alone reveals turn 0 and no turn with an ephemeral of its own. */
  lemma SenderSecretAlone(p: Pairing, steps: seq<Step>, snapshot: ChainSnapshot)
    requires p.Honest() && snapshot in Exec(p, Initial(p), steps).chains
    requires p.senderSecret !in Ephemerals(p, snapshot.chain) && p.senderSecret != p.receiverSecret
    ensures ChainDerivable(snapshot.chain, {p.senderSecret}) <==> snapshot.chain.Root?
  {
    ChainIsKnownIff(p, steps, snapshot, {p.senderSecret});
    if snapshot.chain.Link? {
      assert EphemeralOf(p, snapshot.chain.shared) in Ephemerals(p, snapshot.chain);
    }
  }

  /** The receiver's static secret alone reveals every turn. */
  lemma ReceiverSecretAlone(p: Pairing, steps: seq<Step>, snapshot: ChainSnapshot)
    requires p.Honest() && snapshot in Exec(p, Initial(p), steps).chains
    ensures ChainDerivable(snapshot.chain, {p.receiverSecret})
  {
    ChainIsKnownIff(p, steps, snapshot, {p.receiverSecret});
  }
}
