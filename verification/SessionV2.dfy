/** One direction of the v2 encrypted channel: turn ratchet, leased counters, replay window. */
module SessionV2s {
  import opened Bytes
  import opened Encodings
  import opened SymbolicCrypto
  import opened ReplayWindows

  datatype CryptoError =
    | DeviceIdCollision
    | CounterLeaseFailed
    | CounterBlockRewind(blockStart: u64, nextCounter: u64)
    | DegenerateSharedSecret
    | TurnNotOpen
    | EphemeralSeedAllZero
    | CounterBlockExhausted
    | EnvelopeTruncated(size: nat)
    | EnvelopeVersion(version: byte)
    | EpochMismatch(expectedSeq: u32, foundSeq: u32)
    | TurnMismatch(current: u64, found: u64)
    | EnvelopeOpen
    | ReplayRejected(counter: u64)

  /** A reservation of the counters `start <= c < end`. */
  datatype CounterBlock = CounterBlock(start: u64, end: u64)

  datatype ChainSnapshot = ChainSnapshot(chain: Chain, turn: u64)

  datatype DeviceKeys = DeviceKeys(id: DeviceId, secret: Secret)
  datatype DeviceIdentity = DeviceIdentity(id: DeviceId, x25519: PublicKey)

  type Header = s: bytes | |s| == 37 witness seq(37, i => 0)

  /** An envelope as the receiver finds it: too short to parse, or split at its fixed offsets. */
  datatype Wire =
    | Short(size: nat)
    | Full(header: Header, eph: PublicKey, nonce: bytes, body: Ciphertext<Key, bytes, bytes>)

  function ReadU32(s: bytes): u32
    requires |s| == 4
  {
    WordSizes();
    FromBE(s)
  }

  function ReadU64(s: bytes): u64
    requires |s| == 8
  {
    WordSizes();
    FromBE(s)
  }

  function HeaderEpochSeq(h: Header): u32 { ReadU32(h[1..5]) }
  function HeaderEpoch(h: Header): Epoch { h[5..21] }
  function HeaderTurn(h: Header): u64 { ReadU64(h[21..29]) }
  function HeaderCounter(h: Header): u64 { ReadU64(h[29..37]) }

  /** The header a sealer writes is the header an opener reads. */
  lemma HeaderRoundTrip(c: Claims)
    ensures var h := HeadV2(c);
            h[0] == V2_VERSION && HeaderEpochSeq(h) == c.epochSeq && HeaderEpoch(h) == c.epoch
            && HeaderTurn(h) == c.turn && HeaderCounter(h) == c.counter
  {
    HeadV2Fields(c);
  }

  // ---- the session as a value ----

  datatype Direction = Outbound | Inbound

  datatype Session = Session(
    direction: Direction,
    sender: DeviceId,
    receiver: DeviceId,
    epoch: Epoch,
    epochSeq: u32,
    counterBlock: Option<CounterBlock>,
    nextCounter: u64,
    turnEphPub: PublicKey,
    peerX25519: Option<PublicKey>,
    localStatic: Option<Secret>,
    chain: Chain,
    turn: u64,
    needsFreshTurn: bool,
    replay: Window)
  {
    predicate Valid() {
      (direction == Outbound ==> peerX25519.Some?) && (direction == Inbound ==> localStatic.Some?)
    }

    function Claims(turn: u64, counter: u64): Claims {
      Encodings.Claims(epochSeq, epoch, turn, counter, sender, receiver)
    }

    function TurnKey(chain: Chain, turn: u64): Key {
      Key(chain, TurnKeyInfo(epoch, epochSeq, turn, sender, receiver))
    }
  }

  /** `reserved` is what the lease answered: a committed block, or an I/O failure. */
  function NewOutbound(local: DeviceKeys, peer: DeviceIdentity, epoch: Epoch, epochSeq: u32,
                       reserved: Option<CounterBlock>): (r: Result<Session, CryptoError>)
    ensures r.Ok? <==> local.id != peer.id && reserved.Some? && reserved.value.start != 0 && peer.x25519.Public?
    ensures r.Ok? ==> r.value.Valid() && r.value.nextCounter == reserved.value.start >= 1
    ensures r.Ok? ==> r.value.turn == 0 && Depth(r.value.chain) == 0 && !r.value.needsFreshTurn
  {
    if local.id == peer.id then Err(DeviceIdCollision)
    else if reserved.None? then Err(CounterLeaseFailed)
    else if reserved.value.start == 0 then Err(CounterBlockRewind(0, 0))
    else
      match DiffieHellman(local.secret, peer.x25519)
      case None => Err(DegenerateSharedSecret)
      case Some(shared) =>
        Ok(Session(Outbound, local.id, peer.id, epoch, epochSeq, reserved, reserved.value.start,
                   LowOrder, Some(peer.x25519), None, Root(shared), 0, false, EMPTY))
  }

  function NewInbound(local: DeviceKeys, peer: DeviceIdentity, epoch: Epoch, epochSeq: u32)
    : (r: Result<Session, CryptoError>)
    ensures r.Ok? <==> local.id != peer.id && peer.x25519.Public?
    ensures r.Ok? ==> r.value.Valid() && r.value.turn == 0 && Depth(r.value.chain) == 0 && r.value.replay == EMPTY
  {
    if local.id == peer.id then Err(DeviceIdCollision)
    else
      match DiffieHellman(local.secret, peer.x25519)
      case None => Err(DegenerateSharedSecret)
      case Some(shared) =>
        Ok(Session(Inbound, peer.id, local.id, epoch, epochSeq, None, 0,
                   LowOrder, None, Some(local.secret), Root(shared), 0, false, EMPTY))
  }

  function RestoreOutbound(local: DeviceKeys, peer: DeviceIdentity, epoch: Epoch, epochSeq: u32,
                           snapshot: ChainSnapshot, reserved: Option<CounterBlock>): Result<Session, CryptoError>
  {
    match NewOutbound(local, peer, epoch, epochSeq, reserved)
    case Err(e) => Err(e)
    case Ok(s) => Ok(s.(chain := snapshot.chain, turn := snapshot.turn, needsFreshTurn := snapshot.turn > 0))
  }

  function RestoreInbound(local: DeviceKeys, peer: DeviceIdentity, epoch: Epoch, epochSeq: u32,
                          snapshot: ChainSnapshot): Result<Session, CryptoError>
  {
    match NewInbound(local, peer, epoch, epochSeq)
    case Err(e) => Err(e)
    case Ok(s) => Ok(s.(chain := snapshot.chain, turn := snapshot.turn))
  }

  function InstallBlock(s: Session, b: CounterBlock): (r: Result<Session, CryptoError>)
    ensures r.Ok? <==> 0 < b.start < b.end && s.nextCounter <= b.start
  {
    if b.end <= b.start || b.start == 0 || b.start < s.nextCounter then
      Err(CounterBlockRewind(b.start, s.nextCounter))
    else
      Ok(s.(counterBlock := Some(b)))
  }

  function TurnOpened(s: Session, seed: Secret): (r: Result<Session, CryptoError>)
    requires s.Valid() && s.turn < U64_MAX
    ensures r.Ok? <==> s.direction == Outbound && seed != 0 && s.peerX25519.value.Public?
  {
    if s.direction != Outbound then Err(TurnNotOpen)
    else if seed == 0 then Err(EphemeralSeedAllZero)
    else
      match DiffieHellman(seed, s.peerX25519.value)
      case None => Err(DegenerateSharedSecret)
      case Some(shared) =>
        Ok(s.(chain := Link(s.chain, shared), turnEphPub := Public(seed), turn := s.turn + 1, needsFreshTurn := false))
  }

  /** The envelope sealing emits for the session's current turn and next counter. */
  function EnvelopeOf(s: Session, plaintext: bytes): Wire {
    var claims := s.Claims(s.turn, s.nextCounter);
    var nonce := Nonce(s.nextCounter);
    Full(HeadV2(claims), s.turnEphPub, nonce,
         Sealed(s.TurnKey(s.chain, s.turn), nonce, AssociatedData(claims), plaintext))
  }

  function Sealing(s: Session, plaintext: bytes): Result<(Wire, Session), CryptoError> {
    if s.needsFreshTurn then Err(TurnNotOpen)
    else if s.counterBlock.None? || s.nextCounter >= s.counterBlock.value.end then Err(CounterBlockExhausted)
    else
      var next: u64 := s.nextCounter + 1;
      var block := if next >= s.counterBlock.value.end then None else s.counterBlock;
      Ok((EnvelopeOf(s, plaintext), s.(nextCounter := next, counterBlock := block)))
  }

  /** The chain an envelope of turn `turn` must have been sealed under, or `None` for a low-order ephemeral. */
  function CandidateChain(s: Session, turn: u64, eph: PublicKey): Option<Chain>
    requires turn == s.turn + 1 ==> s.localStatic.Some?
  {
    if turn == s.turn + 1 then
      match DiffieHellman(s.localStatic.value, eph)
      case None => None
      case Some(shared) => Some(Link(s.chain, shared))
    else Some(s.chain)
  }

  /** The state once the AEAD has accepted an envelope of `turn`: a new turn starts a fresh window. */
  function Committed(s: Session, turn: u64, chain: Chain): Session {
    if turn == s.turn then s else s.(chain := chain, turn := turn, replay := EMPTY)
  }

  /** The envelope gets as far as the next turn's key exchange, which needs the receiver's static secret. */
  predicate ClaimsNextTurn(s: Session, w: Wire) {
    w.Full? && w.header[0] == V2_VERSION
    && HeaderEpochSeq(w.header) == s.epochSeq && HeaderEpoch(w.header) == s.epoch
    && HeaderTurn(w.header) == s.turn + 1
  }

  /** The direction is not looked at: any session can open envelopes of its current turn. */
  function Opening(s: Session, w: Wire): (Result<bytes, CryptoError>, Session)
    requires s.turn < U64_MAX && (ClaimsNextTurn(s, w) ==> s.localStatic.Some?)
  {
    if w.Short? then (Err(EnvelopeTruncated(w.size)), s)
    else if w.header[0] != V2_VERSION then (Err(EnvelopeVersion(w.header[0])), s)
    else if HeaderEpochSeq(w.header) != s.epochSeq || HeaderEpoch(w.header) != s.epoch then
      (Err(EpochMismatch(s.epochSeq, HeaderEpochSeq(w.header))), s)
    else
      var turn, counter := HeaderTurn(w.header), HeaderCounter(w.header);
      if turn != s.turn && turn != s.turn + 1 then (Err(TurnMismatch(s.turn, turn)), s)
      else
        match CandidateChain(s, turn, w.eph)
        case None => (Err(DegenerateSharedSecret), s)
        case Some(chain) =>
          match Decrypt(s.TurnKey(chain, turn), w.nonce, AssociatedData(s.Claims(turn, counter)), w.body)
          case None => (Err(EnvelopeOpen), s)
          case Some(plaintext) =>
            var s' := Committed(s, turn, chain);
            if Acceptable(s'.replay, counter)
            then (Ok(plaintext), s'.(replay := Recorded(s'.replay, counter)))
            else (Err(ReplayRejected(counter)), s')
  }

  // ---- the object ----

  class SessionV2 {
    const direction: Direction
    const sender: DeviceId
    const receiver: DeviceId
    const epoch: Epoch
    const epochSeq: u32
    const peerX25519: Option<PublicKey>
    const localStatic: Option<Secret>
    var counterBlock: Option<CounterBlock>
    var nextCounter: u64
    var turnEphPub: PublicKey
    var chainIkm: Chain
    var turnNo: u64
    var needsFreshTurn: bool
    var replay: ReplayWindow

    ghost function State(): Session
      reads this, replay
    {
      Session(direction, sender, receiver, epoch, epochSeq, counterBlock, nextCounter, turnEphPub,
              peerX25519, localStatic, chainIkm, turnNo, needsFreshTurn, replay.State())
    }

    constructor FromState(s: Session)
      requires s.replay == EMPTY
      ensures State() == s && fresh(replay)
    {
      direction, sender, receiver, epoch, epochSeq := s.direction, s.sender, s.receiver, s.epoch, s.epochSeq;
      peerX25519, localStatic := s.peerX25519, s.localStatic;
      counterBlock, nextCounter, turnEphPub := s.counterBlock, s.nextCounter, s.turnEphPub;
      chainIkm, turnNo, needsFreshTurn := s.chain, s.turn, s.needsFreshTurn;
      replay := new ReplayWindow();
    }

    method SetCounterBlock(block: CounterBlock) returns (r: Result<(), CryptoError>)
      modifies this`counterBlock
      ensures match InstallBlock(old(State()), block)
              case Ok(s) => r == Ok(()) && State() == s
              case Err(e) => r == Err(e) && State() == old(State())
    {
      if block.end <= block.start || block.start == 0 || block.start < nextCounter {
        return Err(CounterBlockRewind(block.start, nextCounter));
      }
      counterBlock := Some(block);
      return Ok(());
    }

    method OpenTurn(seed: Secret) returns (r: Result<(), CryptoError>)
      requires State().Valid() && turnNo < U64_MAX
      modifies this`chainIkm, this`turnEphPub, this`turnNo, this`needsFreshTurn
      ensures match TurnOpened(old(State()), seed)
              case Ok(s) => r == Ok(()) && State() == s
              case Err(e) => r == Err(e) && State() == old(State())
    {
      if direction != Outbound {
        return Err(TurnNotOpen);
      }
      if seed == 0 {
        return Err(EphemeralSeedAllZero);
      }
      var shared := DiffieHellman(seed, peerX25519.value);
      if shared.None? {
        return Err(DegenerateSharedSecret);
      }
      chainIkm := Link(chainIkm, shared.value);
      turnEphPub := Public(seed);
      turnNo := turnNo + 1;
      needsFreshTurn := false;
      return Ok(());
    }

    method Seal(plaintext: bytes) returns (r: Result<Wire, CryptoError>)
      modifies this`nextCounter, this`counterBlock
      ensures match Sealing(old(State()), plaintext)
              case Ok((wire, s)) => r == Ok(wire) && State() == s
              case Err(e) => r == Err(e) && State() == old(State())
    {
      if needsFreshTurn {
        return Err(TurnNotOpen);
      }
      if counterBlock.None? {
        return Err(CounterBlockExhausted);
      }
      var block := counterBlock.value;
      var counter := nextCounter;
      if counter >= block.end {
        return Err(CounterBlockExhausted);
      }
      nextCounter := nextCounter + 1;
      if nextCounter >= block.end {
        counterBlock := None;
      }
      var key := Key(chainIkm, TurnKeyInfo(epoch, epochSeq, turnNo, sender, receiver));
      var nonce := Nonce(counter);
      var claims := Claims(epochSeq, epoch, turnNo, counter, sender, receiver);
      var ciphertext := Sealed(key, nonce, AssociatedData(claims), plaintext);
      return Ok(Full(HeadV2(claims), turnEphPub, nonce, ciphertext));
    }

    method Open(wire: Wire) returns (r: Result<bytes, CryptoError>)
      requires turnNo < U64_MAX && (ClaimsNextTurn(State(), wire) ==> localStatic.Some?)
      modifies this`chainIkm, this`turnNo, this`replay, replay
      ensures (r, State()) == Opening(old(State()), wire)
      ensures replay == old(replay) || fresh(replay)
    {
      hide AssociatedData, TurnKeyInfo, Acceptable, Recorded, ReadU32, ReadU64;
      if wire.Short? {
        return Err(EnvelopeTruncated(wire.size));
      }
      if wire.header[0] != V2_VERSION {
        return Err(EnvelopeVersion(wire.header[0]));
      }
      var wireEpochSeq := HeaderEpochSeq(wire.header);
      var turn := HeaderTurn(wire.header);
      var counter := HeaderCounter(wire.header);
      if wireEpochSeq != epochSeq || HeaderEpoch(wire.header) != epoch {
        return Err(EpochMismatch(epochSeq, wireEpochSeq));
      }
      if turn != turnNo && turn != turnNo + 1 {
        return Err(TurnMismatch(turnNo, turn));
      }
      var chain := chainIkm;
      if turn == turnNo + 1 {
        var shared := DiffieHellman(localStatic.value, wire.eph);
        if shared.None? {
          return Err(DegenerateSharedSecret);
        }
        chain := Link(chainIkm, shared.value);
      }
      var key := Key(chain, TurnKeyInfo(epoch, epochSeq, turn, sender, receiver));
      var claims := Claims(epochSeq, epoch, turn, counter, sender, receiver);
      var plaintext := Decrypt(key, wire.nonce, AssociatedData(claims), wire.body);
      if plaintext.None? {
        return Err(EnvelopeOpen);
      }
      // The tag was accepted, so the header's turn number can be believed.
      if turn == turnNo + 1 {
        chainIkm := chain;
        turnNo := turn;
        replay := new ReplayWindow();
      }
      var accepted := replay.Accept(counter);
      if !accepted {
        return Err(ReplayRejected(counter));
      }
      return Ok(plaintext.value);
    }
  }
}
