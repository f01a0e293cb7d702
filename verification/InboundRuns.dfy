/** What one receiving session delivers over its whole life, whatever arrives. */
module InboundRuns {
  import opened Bytes
  import opened Encodings
  import opened SymbolicCrypto
  import opened ReplayWindows
  import opened SessionV2s

  datatype Delivery = Delivery(turn: u64, counter: u64, plaintext: bytes)

  /** The counters delivered under `turn`. */
  ghost function CountersOf(delivered: seq<Delivery>, turn: u64): set<u64> {
    set d | d in delivered && d.turn == turn :: d.counter
  }

  /** The session's window is exactly the current turn's deliveries, and nothing was delivered twice. */
  ghost predicate Consistent(s: Session, delivered: seq<Delivery>) {
    && Refines(s.replay, CountersOf(delivered, s.turn))
    && (forall i | 0 <= i < |delivered| :: delivered[i].turn <= s.turn)
    && (forall i, j | 0 <= i < j < |delivered| :: delivered[i].turn <= delivered[j].turn)
    && NoRepeats(delivered)
  }

  ghost predicate NoRepeats(delivered: seq<Delivery>) {
    forall i, j | 0 <= i < j < |delivered| ::
      delivered[i].turn != delivered[j].turn || delivered[i].counter != delivered[j].counter
  }

  /** The delivery an `Ok` result stands for. */
  function After(s: Session, delivered: seq<Delivery>, w: Wire): (Session, seq<Delivery>)
    requires s.Valid() && s.direction == Inbound && s.turn < U64_MAX
  {
    var (r, s') := Opening(s, w);
    (s', if r.Ok? && w.Full? then delivered + [Delivery(s'.turn, HeaderCounter(w.header), r.value)] else delivered)
  }

  lemma CountersOfAppend(delivered: seq<Delivery>, d: Delivery, turn: u64)
    ensures CountersOf(delivered + [d], turn)
            == CountersOf(delivered, turn) + (if d.turn == turn then {d.counter} else {})
  {
  }

  lemma FreshTurnIsConsistent(s: Session, delivered: seq<Delivery>, turn: u64, chain: Chain)
    requires Consistent(s, delivered) && turn > s.turn
    ensures Consistent(s.(chain := chain, turn := turn, replay := EMPTY), delivered)
    ensures CountersOf(delivered, turn) == {}
  {
    EmptyRefines();
    assert CountersOf(delivered, turn) == {};
  }

  lemma AcceptKeepsConsistent(s: Session, delivered: seq<Delivery>, counter: u64, plaintext: bytes)
    requires Consistent(s, delivered) && Acceptable(s.replay, counter)
    ensures Consistent(s.(replay := Recorded(s.replay, counter)), delivered + [Delivery(s.turn, counter, plaintext)])
  {
    hide Acceptable, Recorded, Refines;
    var d := Delivery(s.turn, counter, plaintext);
    AcceptableIsFresh(s.replay, CountersOf(delivered, s.turn), counter);
    RecordedRefines(s.replay, CountersOf(delivered, s.turn), counter);
    CountersOfAppend(delivered, d, s.turn);
    forall i | 0 <= i < |delivered| && delivered[i].turn == s.turn
      ensures delivered[i].counter != counter
    {
      assert delivered[i].counter in CountersOf(delivered, s.turn);
    }
  }

  lemma CommitKeepsConsistent(s: Session, delivered: seq<Delivery>, turn: u64, chain: Chain)
    requires Consistent(s, delivered) && s.turn <= turn
    ensures Consistent(Committed(s, turn, chain), delivered)
  {
    if turn != s.turn {
      FreshTurnIsConsistent(s, delivered, turn, chain);
    }
  }

  lemma OpenKeepsConsistent(s: Session, delivered: seq<Delivery>, w: Wire)
    requires s.Valid() && s.direction == Inbound && s.turn < U64_MAX
    requires Consistent(s, delivered)
    ensures var (s', d') := After(s, delivered, w);
            s'.Valid() && s'.direction == Inbound && s.turn <= s'.turn && Consistent(s', d') && delivered <= d'
  {
    hide Consistent, Acceptable, Recorded, AssociatedData, TurnKeyInfo, ReadU32, ReadU64;
    var (r, s') := Opening(s, w);
    if w.Full? && (r.Ok? || r.error.ReplayRejected?) {
      var turn, counter := HeaderTurn(w.header), HeaderCounter(w.header);
      var chain := CandidateChain(s, turn, w.eph).value;
      CommitKeepsConsistent(s, delivered, turn, chain);
      if r.Ok? {
        AcceptKeepsConsistent(Committed(s, turn, chain), delivered, counter, r.value);
      }
    }
  }

  /** The session and its deliveries after any list of arrivals; it stops at the last representable turn. */
  function Run(s: Session, delivered: seq<Delivery>, arrivals: seq<Wire>): (Session, seq<Delivery>)
    requires s.Valid() && s.direction == Inbound && Consistent(s, delivered)
    decreases |arrivals|
  {
    if arrivals == [] || s.turn == U64_MAX then (s, delivered)
    else
      OpenKeepsConsistent(s, delivered, arrivals[0]);
      var (s', d') := After(s, delivered, arrivals[0]);
      Run(s', d', arrivals[1..])
  }

  /** No (turn, counter) pair is delivered twice and turns never decrease, on every list of arrivals. */
  lemma {:induction false} DeliversAtMostOnce(s: Session, delivered: seq<Delivery>, arrivals: seq<Wire>)
    requires s.Valid() && s.direction == Inbound && Consistent(s, delivered)
    ensures var (s', d') := Run(s, delivered, arrivals);
            s.turn <= s'.turn && Consistent(s', d') && delivered <= d'
    decreases |arrivals|
  {
    hide Consistent, After;
    if arrivals != [] && s.turn != U64_MAX {
      OpenKeepsConsistent(s, delivered, arrivals[0]);
      var (s', d') := After(s, delivered, arrivals[0]);
      DeliversAtMostOnce(s', d', arrivals[1..]);
    }
  }

  /** A freshly constructed or restored session starts consistent, with nothing delivered yet. */
  lemma FreshSessionConsistent(s: Session)
    requires s.replay == EMPTY
    ensures Consistent(s, [])
  {
    EmptyRefines();
    assert CountersOf([], s.turn) == {};
  }

  // ---- failed opens ----

  /** The envelope authenticates and belongs to the next turn. */
  predicate AuthenticNextTurn(s: Session, w: Wire)
    requires s.Valid() && s.direction == Inbound && s.turn < U64_MAX
  {
    w.Full? && w.header[0] == V2_VERSION
    && HeaderEpochSeq(w.header) == s.epochSeq && HeaderEpoch(w.header) == s.epoch
    && HeaderTurn(w.header) == s.turn + 1
    && match CandidateChain(s, s.turn + 1, w.eph)
       case None => false
       case Some(chain) =>
         Decrypt(s.TurnKey(chain, s.turn + 1), w.nonce,
                 AssociatedData(s.Claims(s.turn + 1, HeaderCounter(w.header))), w.body).Some?
  }

  /** The envelope that does change it: counter 0, sealed under the turn the receiver expects next. */
  function CounterZeroEnvelope(s: Session, seed: Secret, plaintext: bytes): Wire
    requires s.localStatic.Some? && s.turn < U64_MAX
  {
    var turn: u64 := s.turn + 1;
    var chain := Link(s.chain, DiffieHellman(s.localStatic.value, Public(seed)).value);
    Full(HeadV2(s.Claims(turn, 0)), Public(seed), Nonce(0),
         Sealed(s.TurnKey(chain, turn), Nonce(0), AssociatedData(s.Claims(turn, 0)), plaintext))
  }

  /** For every session it is refused as a replay and still moves the session to the next turn. */
  lemma CounterZeroMovesTheTurn(s: Session, seed: Secret, plaintext: bytes)
    requires s.localStatic.Some? && s.turn < U64_MAX
    ensures var (r, s') := Opening(s, CounterZeroEnvelope(s, seed, plaintext));
            r == Err(ReplayRejected(0)) && s'.turn == s.turn + 1 && s'.replay == EMPTY && s' != s
  {
    hide AssociatedData, TurnKeyInfo, HeadV2, Nonce, ReadU32, ReadU64, Recorded;
    HeaderRoundTrip(s.Claims(s.turn + 1, 0));
  }

  /** A failed open changes the session in exactly one case: counter 0 sealed under the next turn's key. */
  lemma FailedOpenChangesNothing(s: Session, w: Wire)
    requires s.Valid() && s.direction == Inbound && s.turn < U64_MAX
    requires Opening(s, w).0.Err?
    ensures Opening(s, w).1 == s <==> !(AuthenticNextTurn(s, w) && HeaderCounter(w.header) == 0)
  {
    hide AssociatedData, TurnKeyInfo, ReadU32, ReadU64, Recorded;
  }
}
