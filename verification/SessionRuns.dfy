/**
 Whole runs of the two-device channel: a sender that leases counters, opens turns, seals, crashes and
 is restored; a network that drops, duplicates, reorders, rewrites and forges; and a receiver.
 */
module SessionRuns {
  import opened Bytes
  import opened Encodings
  import opened SymbolicCrypto
  import opened ReplayWindows
  import opened SessionV2s
  import opened InboundRuns

  /** One pairing, and the secrets an outsider holds (its own, leaked ephemerals, ...). */
  datatype Pairing = Pairing(senderId: DeviceId, receiverId: DeviceId, senderSecret: Secret, receiverSecret: Secret,
                             epoch: Epoch, epochSeq: u32, compromised: set<Secret>)
  {
    predicate Honest() {
      senderId != receiverId && senderSecret !in compromised && receiverSecret !in compromised
    }

    function SenderKeys(): DeviceKeys { DeviceKeys(senderId, senderSecret) }
    function ReceiverKeys(): DeviceKeys { DeviceKeys(receiverId, receiverSecret) }
    function SenderIdentity(): DeviceIdentity { DeviceIdentity(senderId, Public(senderSecret)) }
    function ReceiverIdentity(): DeviceIdentity { DeviceIdentity(receiverId, Public(receiverSecret)) }

    function RootShared(): Shared { DiffieHellman(senderSecret, Public(receiverSecret)).value }
  }

  /** One sealed message, as the sender knows it. */
  datatype Record = Record(chain: Chain, turn: u64, counter: u64, plaintext: bytes, wire: Wire)

  datatype World = World(
    sender: Option<Session>,
    receiver: Session,
    leaseEnd: u64,                       // no leased block reaches beyond it
    tip: ChainSnapshot,                  // where the sending chain stands, or stood before a crash
    senderSaved: set<ChainSnapshot>,
    receiverSaved: set<ChainSnapshot>,
    chains: set<ChainSnapshot>,          // every chain the sender ever sealed or could seal under
    records: seq<Record>,                // everything ever sealed, in order
    delivered: seq<Delivery>)            // what the current receiving object delivered, in order

  datatype Step =
    | Start(block: CounterBlock)
    | Resume(snapshot: ChainSnapshot, block: CounterBlock)
    | Crash
    | SaveSender
    | Install(block: CounterBlock)
    | NewTurn(seed: Secret)
    | SealMessage(plaintext: bytes)
    | Arrive(wire: Wire)
    | SaveReceiver
    | ResumeReceiver(snapshot: ChainSnapshot)

  function Initial(p: Pairing): World
    requires p.Honest()
  {
    var root := ChainSnapshot(Root(p.RootShared()), 0);
    World(None, NewInbound(p.ReceiverKeys(), p.SenderIdentity(), p.epoch, p.epochSeq).value,
          0, root, {}, {}, {root}, [], [])
  }

  /** The key belongs to another epoch, epoch sequence or direction than this pairing's. */
  ghost predicate ForeignKey(p: Pairing, key: Key) {
    exists c: Claims :: Foreign(p, c) && key.info == TurnKeyInfo(c.epoch, c.epochSeq, c.turn, c.sender, c.receiver)
  }

  predicate Foreign(p: Pairing, c: Claims) {
    c.epoch != p.epoch || c.epochSeq != p.epochSeq || c.sender != p.senderId || c.receiver != p.receiverId
  }

  /**
   The network can deliver any noise and, behind any header, ephemeral and nonce of its choice, every body
   sealed in this run, every body sealed under a key of another epoch or of the reverse direction whatever
   its chain (the static root is the same there), and every body whose key it can compute.
   */
  ghost predicate CanSend(p: Pairing, w: World, wire: Wire) {
    wire.Short? || wire.body.Noise?
    || (exists i | 0 <= i < |w.records| :: w.records[i].wire.Full? && w.records[i].wire.body == wire.body)
    || ForeignKey(p, wire.body.key)
    || ChainDerivable(wire.body.key.chain, p.compromised)
  }

  function Max(a: u64, b: u64): u64 { if a < b then b else a }

  /** One live sender at a time; blocks start at or above every earlier block's end. */
  ghost predicate Enabled(p: Pairing, w: World, step: Step) {
    match step
    case Start(b) => w.sender.None? && w.leaseEnd <= b.start
    case Resume(s, b) => w.sender.None? && s in w.senderSaved && w.leaseEnd <= b.start
    case Crash => true
    case SaveSender => w.sender.Some?
    case Install(b) => w.sender.Some? && w.leaseEnd <= b.start
    case NewTurn(_) => w.sender.Some? && w.sender.value.Valid() && w.sender.value.turn < U64_MAX
    case SealMessage(_) => w.sender.Some?
    case Arrive(wire) =>
      w.receiver.Valid() && w.receiver.direction == Inbound && w.receiver.turn < U64_MAX && CanSend(p, w, wire)
    case SaveReceiver => true
    case ResumeReceiver(s) => s in w.receiverSaved
  }

  function SnapshotOf(s: Session): ChainSnapshot { ChainSnapshot(s.chain, s.turn) }

  /** A sender that just came up, from the lease's answer. */
  function Launched(w: World, r: Result<Session, CryptoError>, b: CounterBlock): World {
    var w' := w.(leaseEnd := Max(w.leaseEnd, b.end));
    match r
    case Err(_) => w'
    case Ok(s) => w'.(sender := Some(s), tip := SnapshotOf(s))
  }

  /** The effect of one step; a step that is not enabled does nothing. */
  ghost function Apply(p: Pairing, w: World, step: Step): World {
    if !Enabled(p, w, step) then w
    else
      match step
      case Start(b) =>
        Launched(w, NewOutbound(p.SenderKeys(), p.ReceiverIdentity(), p.epoch, p.epochSeq, Some(b)), b)
      case Resume(snapshot, b) =>
        Launched(w, RestoreOutbound(p.SenderKeys(), p.ReceiverIdentity(), p.epoch, p.epochSeq, snapshot, Some(b)), b)
      case Crash => w.(sender := None)
      case SaveSender => w.(senderSaved := w.senderSaved + {SnapshotOf(w.sender.value)})
      case Install(b) =>
        var w' := w.(leaseEnd := Max(w.leaseEnd, b.end));
        (match InstallBlock(w.sender.value, b)
         case Err(_) => w'
         case Ok(s) => w'.(sender := Some(s)))
      case NewTurn(seed) =>
        (match TurnOpened(w.sender.value, seed)
         case Err(_) => w
         case Ok(s) => w.(sender := Some(s), tip := SnapshotOf(s), chains := w.chains + {SnapshotOf(s)}))
      case SealMessage(plaintext) =>
        (match Sealing(w.sender.value, plaintext)
         case Err(_) => w
         case Ok((wire, s)) =>
           var before := w.sender.value;
           w.(sender := Some(s),
              records := w.records + [Record(before.chain, before.turn, before.nextCounter, plaintext, wire)]))
      case Arrive(wire) =>
        var (s, d) := After(w.receiver, w.delivered, wire);
        w.(receiver := s, delivered := d)
      case SaveReceiver => w.(receiverSaved := w.receiverSaved + {SnapshotOf(w.receiver)})
      case ResumeReceiver(snapshot) =>
        (match RestoreInbound(p.ReceiverKeys(), p.SenderIdentity(), p.epoch, p.epochSeq, snapshot)
         case Err(_) => w
         case Ok(s) => w.(receiver := s, delivered := []))
  }

  /** The world after a list of steps. */
  ghost function Exec(p: Pairing, w: World, steps: seq<Step>): World
    decreases |steps|
  {
    if steps == [] then w else Exec(p, Apply(p, w, steps[0]), steps[1..])
  }

  // ---- the invariant ----

  /** A chain rooted in this pairing and as deep as its turn number. */
  predicate Rooted(p: Pairing, c: ChainSnapshot) {
    Origin(c.chain) == p.RootShared() && Depth(c.chain) == c.turn
  }

  predicate SenderOk(p: Pairing, s: Session) {
    && s.direction == Outbound && s.sender == p.senderId && s.receiver == p.receiverId
    && s.epoch == p.epoch && s.epochSeq == p.epochSeq && s.peerX25519 == Some(Public(p.receiverSecret))
    && s.nextCounter >= 1
  }

  predicate ReceiverOk(p: Pairing, s: Session) {
    && s.direction == Inbound && s.sender == p.senderId && s.receiver == p.receiverId
    && s.epoch == p.epoch && s.epochSeq == p.epochSeq && s.localStatic == Some(p.receiverSecret)
  }

  function ClaimsOf(p: Pairing, turn: u64, counter: u64): Claims {
    Claims(p.epochSeq, p.epoch, turn, counter, p.senderId, p.receiverId)
  }

  function KeyOf(p: Pairing, chain: Chain, turn: u64): Key {
    Key(chain, TurnKeyInfo(p.epoch, p.epochSeq, turn, p.senderId, p.receiverId))
  }

  predicate RecordOk(p: Pairing, r: Record) {
    r.counter >= 1 && r.wire.Full?
    && r.wire.body == Sealed(KeyOf(p, r.chain, r.turn), Nonce(r.counter), AssociatedData(ClaimsOf(p, r.turn, r.counter)), r.plaintext)
  }

  /** The counters the records carry increase strictly and stay below `bound`. */
  ghost predicate CountersRise(records: seq<Record>, bound: nat) {
    && (forall i | 0 <= i < |records| :: records[i].counter < bound)
    && (forall i, j | 0 <= i < j < |records| :: records[i].counter < records[j].counter)
  }

  predicate Matches(r: Record, d: Delivery) {
    r.turn == d.turn && r.counter == d.counter && r.plaintext == d.plaintext
  }

  ghost predicate Sent(records: seq<Record>, d: Delivery) {
    exists i | 0 <= i < |records| :: Matches(records[i], d)
  }

  ghost predicate ChainsOk(p: Pairing, w: World) {
    && (forall c | c in w.chains :: Rooted(p, c))
    && w.senderSaved <= w.chains && w.receiverSaved <= w.chains
    && ChainSnapshot(Root(p.RootShared()), 0) in w.chains
    && SnapshotOf(w.receiver) in w.chains
    && (w.sender.Some? ==> SnapshotOf(w.sender.value) in w.chains)
  }

  ghost predicate RecordsOk(p: Pairing, w: World) {
    && (forall i | 0 <= i < |w.records| ::
          RecordOk(p, w.records[i]) && ChainSnapshot(w.records[i].chain, w.records[i].turn) in w.chains)
    && CountersRise(w.records, w.leaseEnd)
    && (w.sender.Some? ==> CountersRise(w.records, w.sender.value.nextCounter))
    && (w.sender.Some? && w.sender.value.counterBlock.Some? ==> w.sender.value.counterBlock.value.end <= w.leaseEnd)
  }

  ghost predicate Inv(p: Pairing, w: World) {
    && ChainsOk(p, w) && RecordsOk(p, w)
    && (w.sender.Some? ==> SenderOk(p, w.sender.value))
    && ReceiverOk(p, w.receiver)
    && Consistent(w.receiver, w.delivered)
    && (forall i | 0 <= i < |w.delivered| :: Sent(w.records, w.delivered[i]))
  }

  // ---- what an accepted envelope proves ----

  /** The key info binds epoch, sequence and direction: no key of this pairing is one of another. */
  lemma OwnKeyIsNotForeign(p: Pairing, chain: Chain, turn: u64)
    ensures !ForeignKey(p, KeyOf(p, chain, turn))
  {
    hide TurnKeyInfo;
    if ForeignKey(p, KeyOf(p, chain, turn)) {
      var c: Claims :|
        Foreign(p, c)
        && KeyOf(p, chain, turn).info == TurnKeyInfo(c.epoch, c.epochSeq, c.turn, c.sender, c.receiver);
      TurnKeyInfoInjective(p.epoch, p.epochSeq, turn, p.senderId, p.receiverId,
                           c.epoch, c.epochSeq, c.turn, c.sender, c.receiver);
    }
  }

  /** So whatever any other session seals, on whatever chain, is at the network's disposal with every field rewritten. */
  lemma OtherSessionsAreOffered(p: Pairing, w: World, s: Session, plaintext: bytes, header: Header, eph: PublicKey, nonce: bytes)
    requires Sealing(s, plaintext).Ok? && Foreign(p, s.Claims(s.turn, s.nextCounter))
    ensures var wire := Sealing(s, plaintext).value.0;
            wire.Full? && CanSend(p, w, Full(header, eph, nonce, wire.body))
  {
    hide TurnKeyInfo, AssociatedData, HeadV2;
    var c := s.Claims(s.turn, s.nextCounter);
    var key := Sealing(s, plaintext).value.0.body.key;
    assert Foreign(p, c) && key.info == TurnKeyInfo(c.epoch, c.epochSeq, c.turn, c.sender, c.receiver);
    assert ForeignKey(p, key);
  }

  /** Once the AEAD accepts, the sender sealed exactly this plaintext under this chain, turn and counter. */
  lemma AcceptedMeansSealed(p: Pairing, w: World, wire: Wire, chain: Chain, turn: u64, counter: u64) returns (i: nat)
    requires p.Honest() && Inv(p, w) && CanSend(p, w, wire)
    requires Origin(chain) == p.RootShared()
    requires wire.Full?
    requires Decrypt(KeyOf(p, chain, turn), wire.nonce, AssociatedData(ClaimsOf(p, turn, counter)), wire.body).Some?
    ensures i < |w.records|
    ensures w.records[i].chain == chain && w.records[i].turn == turn && w.records[i].counter == counter
    ensures wire.body.Sealed? && w.records[i].plaintext == wire.body.plaintext
  {
    hide AssociatedData, TurnKeyInfo, Consistent;
    RootProtectsChain(chain, p.compromised);
    OwnKeyIsNotForeign(p, chain, turn);
    i :| 0 <= i < |w.records| && w.records[i].wire.Full? && w.records[i].wire.body == wire.body;
    var r := w.records[i];
    assert RecordOk(p, r);
    AssociatedDataInjective(ClaimsOf(p, turn, counter), ClaimsOf(p, r.turn, r.counter));
  }

  lemma CandidateIsRooted(p: Pairing, w: World, turn: u64, eph: PublicKey)
    requires Inv(p, w)
    ensures CandidateChain(w.receiver, turn, eph).Some? ==>
              Origin(CandidateChain(w.receiver, turn, eph).value) == p.RootShared()
  {
    hide Consistent, RecordsOk;
    assert Rooted(p, SnapshotOf(w.receiver));
  }

  /** In a reachable world every open that fails leaves the receiver exactly as it was. */
  lemma FailedArrivalIsHarmless(p: Pairing, w: World, wire: Wire)
    requires p.Honest() && Inv(p, w) && CanSend(p, w, wire) && w.receiver.turn < U64_MAX
    requires Opening(w.receiver, wire).0.Err?
    ensures Opening(w.receiver, wire).1 == w.receiver
  {
    hide AssociatedData, TurnKeyInfo, Consistent, Opening;
    var s := w.receiver;
    FailedOpenChangesNothing(s, wire);
    if AuthenticNextTurn(s, wire) {
      var turn: u64 := s.turn + 1;
      CandidateIsRooted(p, w, turn, wire.eph);
      var chain := CandidateChain(s, turn, wire.eph).value;
      var i := AcceptedMeansSealed(p, w, wire, chain, turn, HeaderCounter(wire.header));
      assert RecordOk(p, w.records[i]);
    }
  }

  /** What a successful open returns was sealed by the sender under the same turn and counter. */
  lemma SuccessfulArrivalIsAuthentic(p: Pairing, w: World, wire: Wire) returns (i: nat)
    requires p.Honest() && Inv(p, w) && CanSend(p, w, wire) && w.receiver.turn < U64_MAX
    requires Opening(w.receiver, wire).0.Ok?
    ensures wire.Full? && i < |w.records|
    ensures var (r, s') := Opening(w.receiver, wire);
            Matches(w.records[i], Delivery(s'.turn, HeaderCounter(wire.header), r.value))
            && s'.chain == w.records[i].chain
  {
    hide AssociatedData, TurnKeyInfo, Consistent, RecordsOk, ChainsOk, ReadU32, ReadU64, Acceptable, Recorded,
           CanSend;
    var s := w.receiver;
    var turn := HeaderTurn(wire.header);
    CandidateIsRooted(p, w, turn, wire.eph);
    i := AcceptedMeansSealed(p, w, wire, CandidateChain(s, turn, wire.eph).value, turn, HeaderCounter(wire.header));
  }

  // ---- every step keeps the invariant ----

  lemma InitialInv(p: Pairing)
    requires p.Honest()
    ensures Inv(p, Initial(p))
  {
    DiffieHellmanSymmetric(p.senderSecret, p.receiverSecret);
    FreshSessionConsistent(Initial(p).receiver);
  }

  lemma CountersRiseMore(records: seq<Record>, bound: nat, bound': nat)
    requires CountersRise(records, bound) && bound <= bound'
    ensures CountersRise(records, bound')
  {
  }

  lemma LaunchKeepsInv(p: Pairing, w: World, step: Step)
    requires p.Honest() && Inv(p, w) && Enabled(p, w, step) && (step.Start? || step.Resume?)
    ensures Inv(p, Apply(p, w, step))
  {
    hide RecordOk, Sent, Rooted, TurnOpened, Sealing, After, InstallBlock, RestoreInbound, Consistent, CanSend;
    CountersRiseMore(w.records, w.leaseEnd, step.block.start);
    CountersRiseMore(w.records, w.leaseEnd, Max(w.leaseEnd, step.block.end));
    hide CountersRise;
  }

  lemma InstallKeepsInv(p: Pairing, w: World, b: CounterBlock)
    requires p.Honest() && Inv(p, w) && Enabled(p, w, Install(b))
    ensures Inv(p, Apply(p, w, Install(b)))
  {
    hide RecordOk, Sent, Rooted, TurnOpened, Sealing, After, RestoreOutbound, RestoreInbound, NewOutbound,
           Consistent, CanSend;
    CountersRiseMore(w.records, w.leaseEnd, Max(w.leaseEnd, b.end));
    hide CountersRise;
  }

  lemma NewTurnKeepsInv(p: Pairing, w: World, seed: Secret)
    requires p.Honest() && Inv(p, w) && Enabled(p, w, NewTurn(seed))
    ensures Inv(p, Apply(p, w, NewTurn(seed)))
  {
    hide RecordOk, Sent, Sealing, After, InstallBlock, RestoreOutbound, RestoreInbound, NewOutbound,
           Consistent, CanSend, CountersRise;
  }

  lemma RecordGrows(records: seq<Record>, r: Record, d: Delivery)
    requires Sent(records, d)
    ensures Sent(records + [r], d)
  {
    var i :| 0 <= i < |records| && Matches(records[i], d);
    assert Matches((records + [r])[i], d);
  }

  lemma SealKeepsInv(p: Pairing, w: World, plaintext: bytes)
    requires p.Honest() && Inv(p, w) && Enabled(p, w, SealMessage(plaintext))
    ensures Inv(p, Apply(p, w, SealMessage(plaintext)))
  {
    hide TurnOpened, After, InstallBlock, RestoreOutbound, RestoreInbound, NewOutbound, Rooted, Consistent,
           CanSend, AssociatedData, TurnKeyInfo, HeadV2, Nonce, Sent;
    var w' := Apply(p, w, SealMessage(plaintext));
    if w' != w {
      forall i | 0 <= i < |w.delivered|
        ensures Sent(w'.records, w'.delivered[i])
      {
        RecordGrows(w.records, w'.records[|w.records|], w.delivered[i]);
      }
    }
  }

  lemma ArriveKeepsInv(p: Pairing, w: World, wire: Wire)
    requires p.Honest() && Inv(p, w) && Enabled(p, w, Arrive(wire))
    ensures Inv(p, Apply(p, w, Arrive(wire)))
  {
    hide RecordOk, Rooted, TurnOpened, Sealing, InstallBlock, RestoreOutbound, RestoreInbound, NewOutbound,
           Consistent, CanSend, Opening, CountersRise, Origin, Depth;
    OpenKeepsConsistent(w.receiver, w.delivered, wire);
    var (r, s') := Opening(w.receiver, wire);
    OpenKeepsIdentity(w.receiver, wire);
    if r.Ok? {
      var i := SuccessfulArrivalIsAuthentic(p, w, wire);
      assert ChainSnapshot(w.records[i].chain, w.records[i].turn) in w.chains;
      assert Sent(w.records, Delivery(s'.turn, HeaderCounter(wire.header), r.value));
    } else {
      FailedArrivalIsHarmless(p, w, wire);
    }
  }

  lemma OpenKeepsIdentity(s: Session, wire: Wire)
    requires s.Valid() && s.direction == Inbound && s.turn < U64_MAX
    ensures var s' := Opening(s, wire).1;
            s' == s.(chain := s'.chain, turn := s'.turn, replay := s'.replay)
  {
    hide AssociatedData, TurnKeyInfo, ReadU32, ReadU64, Acceptable, Recorded;
  }

  lemma ResumeReceiverKeepsInv(p: Pairing, w: World, snapshot: ChainSnapshot)
    requires p.Honest() && Inv(p, w) && Enabled(p, w, ResumeReceiver(snapshot))
    ensures Inv(p, Apply(p, w, ResumeReceiver(snapshot)))
  {
    hide RecordOk, Sent, TurnOpened, Sealing, After, InstallBlock, RestoreOutbound, NewOutbound, Consistent,
           CanSend, CountersRise;
    FreshSessionConsistent(Apply(p, w, ResumeReceiver(snapshot)).receiver);
  }

  lemma BookkeepingKeepsInv(p: Pairing, w: World, step: Step)
    requires p.Honest() && Inv(p, w) && (step.Crash? || step.SaveSender? || step.SaveReceiver?)
    ensures Inv(p, Apply(p, w, step))
  {
    hide RecordOk, Sent, Rooted, TurnOpened, Sealing, After, InstallBlock, RestoreOutbound, RestoreInbound,
           NewOutbound, Consistent, CanSend, CountersRise;
  }

  lemma StepKeepsInv(p: Pairing, w: World, step: Step)
    requires p.Honest() && Inv(p, w)
    ensures Inv(p, Apply(p, w, step))
  {
    hide Inv, Enabled;
    if Enabled(p, w, step) {
      match step
      case Start(_) => LaunchKeepsInv(p, w, step);
      case Resume(_, _) => LaunchKeepsInv(p, w, step);
      case Crash => BookkeepingKeepsInv(p, w, step);
      case SaveSender => BookkeepingKeepsInv(p, w, step);
      case Install(b) => InstallKeepsInv(p, w, b);
      case NewTurn(seed) => NewTurnKeepsInv(p, w, seed);
      case SealMessage(plaintext) => SealKeepsInv(p, w, plaintext);
      case Arrive(wire) => ArriveKeepsInv(p, w, wire);
      case SaveReceiver => BookkeepingKeepsInv(p, w, step);
      case ResumeReceiver(snapshot) => ResumeReceiverKeepsInv(p, w, snapshot);
    } else {
      DisabledDoesNothing(p, w, step);
    }
  }

  lemma DisabledDoesNothing(p: Pairing, w: World, step: Step)
    requires !Enabled(p, w, step)
    ensures Apply(p, w, step) == w
  {
  }

  lemma {:induction false} RunKeepsInv(p: Pairing, w: World, steps: seq<Step>)
    requires p.Honest() && Inv(p, w)
    ensures Inv(p, Exec(p, w, steps))
    decreases |steps|
  {
    hide Inv;
    if steps != [] {
      StepKeepsInv(p, w, steps[0]);
      RunKeepsInv(p, Apply(p, w, steps[0]), steps[1..]);
    }
  }

  // ---- what every run guarantees ----

  /** Every delivery is a message the sender sealed in this epoch under that turn and counter, and none comes twice. */
  lemma DeliveriesAreAuthentic(p: Pairing, steps: seq<Step>)
    requires p.Honest()
    ensures var w := Exec(p, Initial(p), steps);
            && (forall i | 0 <= i < |w.delivered| :: Sent(w.records, w.delivered[i]))
            && (forall i | 0 <= i < |w.records| :: RecordOk(p, w.records[i]))
            && NoRepeats(w.delivered)
            && (forall i, j | 0 <= i < j < |w.delivered| :: w.delivered[i].turn <= w.delivered[j].turn)
  {
    hide Exec, Initial, ChainsOk, Sent, RecordOk;
    InitialInv(p);
    RunKeepsInv(p, Initial(p), steps);
  }

  /** Counters start above 0, rise strictly over crashes and restores, and no key ever meets a nonce twice. */
  lemma CountersNeverRepeat(p: Pairing, steps: seq<Step>)
    requires p.Honest()
    ensures var records := Exec(p, Initial(p), steps).records;
            && (forall i | 0 <= i < |records| :: 1 <= records[i].counter < U64_MAX && RecordOk(p, records[i]))
            && (forall i, j | 0 <= i < j < |records| ::
                  records[i].counter < records[j].counter
                  && records[i].wire.body.nonce != records[j].wire.body.nonce)
  {
    hide Exec, AssociatedData, TurnKeyInfo, Nonce, Consistent, ChainsOk, Initial;
    InitialInv(p);
    RunKeepsInv(p, Initial(p), steps);
    var records := Exec(p, Initial(p), steps).records;
    forall i, j | 0 <= i < j < |records|
      ensures records[i].wire.body.nonce != records[j].wire.body.nonce
    {
      assert RecordOk(p, records[i]) && RecordOk(p, records[j]);
      NonceInjective(records[i].counter, records[j].counter);
    }
  }

  /** A counter names one message for good: a delivery carries the plaintext of the only record with its counter. */
  lemma CounterNamesTheMessage(p: Pairing, steps: seq<Step>, k: nat, i: nat)
    requires p.Honest()
    requires var w := Exec(p, Initial(p), steps);
             k < |w.delivered| && i < |w.records| && w.records[i].counter == w.delivered[k].counter
    ensures var w := Exec(p, Initial(p), steps);
            Matches(w.records[i], w.delivered[k])
  {
    hide Exec, Consistent, ChainsOk, Initial, RecordOk;
    InitialInv(p);
    RunKeepsInv(p, Initial(p), steps);
    var w := Exec(p, Initial(p), steps);
    assert Sent(w.records, w.delivered[k]);
    var j :| 0 <= j < |w.records| && Matches(w.records[j], w.delivered[k]);
    assert i == j;
  }

  /** Even where stale snapshots are restored, the receiver holds a chain the sender itself held at that turn. */
  lemma ReceiverFollowsTheSender(p: Pairing, steps: seq<Step>)
    requires p.Honest()
    ensures var w := Exec(p, Initial(p), steps);
            SnapshotOf(w.receiver) in w.chains && Rooted(p, SnapshotOf(w.receiver))
  {
    hide Exec, Initial, RecordsOk, Consistent;
    InitialInv(p);
    RunKeepsInv(p, Initial(p), steps);
  }

  // ---- nothing sound is refused ----

  /** Receiver and sender hold the same chain, or the receiver is the one turn behind the sender just opened. */
  predicate InStep(p: Pairing, s: Session, r: Session) {
    && SenderOk(p, s) && ReceiverOk(p, r)
    && ((r.turn == s.turn && r.chain == s.chain)
        || (r.turn + 1 == s.turn && s.turnEphPub.Public?
            && Some(s.chain) == CandidateChain(r, s.turn, s.turnEphPub)))
  }

  /** Opening what the sender seals gives back the plaintext, unless the window already has that counter. */
  lemma SealedThenOpened(p: Pairing, s: Session, r: Session, plaintext: bytes)
    requires InStep(p, s, r) && r.turn < U64_MAX && Sealing(s, plaintext).Ok?
    ensures var (wire, _) := Sealing(s, plaintext).value;
            var (result, r') := Opening(r, wire);
            && (result == Ok(plaintext) <==> r.turn != s.turn || Acceptable(r.replay, s.nextCounter))
            && (result.Ok? ==> r'.turn == s.turn && r'.chain == s.chain)
  {
    hide AssociatedData, TurnKeyInfo, HeadV2, Recorded, Nonce, ReadU32, ReadU64;
    HeaderRoundTrip(s.Claims(s.turn, s.nextCounter));
  }

  /** The two ends of a pairing, constructed apart, hold the same root and are in step. */
  lemma FreshEndpointsMeet(p: Pairing, b: CounterBlock)
    requires p.Honest() && b.start != 0
    ensures var s := NewOutbound(p.SenderKeys(), p.ReceiverIdentity(), p.epoch, p.epochSeq, Some(b));
            var r := NewInbound(p.ReceiverKeys(), p.SenderIdentity(), p.epoch, p.epochSeq);
            && s.Ok? && r.Ok? && InStep(p, s.value, r.value)
            && s.value.chain == r.value.chain && s.value.TurnKey(s.value.chain, 0) == r.value.TurnKey(r.value.chain, 0)
  {
    DiffieHellmanSymmetric(p.senderSecret, p.receiverSecret);
  }

  /** `open` does not look at the direction: a session opens what it has just sealed, as its own window allows. */
  lemma SealerOpensItsOwn(s: Session, plaintext: bytes)
    requires s.turn < U64_MAX && Sealing(s, plaintext).Ok?
    ensures var (wire, s') := Sealing(s, plaintext).value; !ClaimsNextTurn(s', wire)
    ensures var (wire, s') := Sealing(s, plaintext).value;
            Opening(s', wire).0 == Ok(plaintext) <==> Acceptable(s.replay, s.nextCounter)
  {
    hide AssociatedData, TurnKeyInfo, HeadV2, Recorded, Nonce, ReadU32, ReadU64;
    HeaderRoundTrip(s.Claims(s.turn, s.nextCounter));
  }

  /** A receiver that holds the sender's previous chain is in step with the turn the sender opens next. */
  lemma OpenedTurnIsInStep(p: Pairing, s: Session, r: Session, seed: Secret)
    requires SenderOk(p, s) && ReceiverOk(p, r) && s.turn < U64_MAX
    requires r.turn == s.turn && r.chain == s.chain && TurnOpened(s, seed).Ok?
    ensures InStep(p, TurnOpened(s, seed).value, r)
  {
    DiffieHellmanSymmetric(seed, p.receiverSecret);
  }

  /** The sender a snapshot is restored into. */
  function Restored(p: Pairing, snapshot: ChainSnapshot, b: CounterBlock): Result<Session, CryptoError> {
    RestoreOutbound(p.SenderKeys(), p.ReceiverIdentity(), p.epoch, p.epochSeq, snapshot, Some(b))
  }

  /** Past turn 0 a restored sender seals nothing until it opens a turn; then it can use its block. */
  lemma RestoredNeedsATurn(p: Pairing, snapshot: ChainSnapshot, b: CounterBlock, seed: Secret, plaintext: bytes)
    requires p.Honest() && b.start != 0 && snapshot.turn < U64_MAX && seed != 0
    ensures Restored(p, snapshot, b).Ok?
    ensures var s := Restored(p, snapshot, b).value;
            && (Sealing(s, plaintext).Ok? <==> snapshot.turn == 0 && b.start < b.end)
            && TurnOpened(s, seed).Ok?
            && (Sealing(TurnOpened(s, seed).value, plaintext).Ok? <==> b.start < b.end)
  {
    hide EnvelopeOf;
  }

  /** The channel survives a crash: a receiver at the snapshot opens the first message of the turn that follows. */
  lemma RestoredChannelWorks(p: Pairing, r: Session, b: CounterBlock, seed: Secret, plaintext: bytes)
    requires p.Honest() && ReceiverOk(p, r) && r.turn < U64_MAX
    requires 0 < b.start < b.end && seed != 0
    ensures Restored(p, SnapshotOf(r), b).Ok?
    ensures var s := Restored(p, SnapshotOf(r), b).value;
            && TurnOpened(s, seed).Ok?
            && var sealed := Sealing(TurnOpened(s, seed).value, plaintext);
            && sealed.Ok? && Opening(r, sealed.value.0).0 == Ok(plaintext)
  {
    RestoredNeedsATurn(p, SnapshotOf(r), b, seed, plaintext);
    var s := Restored(p, SnapshotOf(r), b).value;
    OpenedTurnIsInStep(p, s, r, seed);
    hide Opening, Sealing, InStep, ReceiverOk;
    SealedThenOpened(p, TurnOpened(s, seed).value, r, plaintext);
  }
}
