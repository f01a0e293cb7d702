/** Exactly which envelopes a session opens, and what it answers to what any other session sealed. */
module SessionOpens {
  import opened Bytes
  import opened Encodings
  import opened SymbolicCrypto
  import opened ReplayWindows
  import opened SessionV2s

  // ---- headers ----

  lemma HeaderParts(h: Header)
    ensures h == [h[0]] + h[1..5] + h[5..21] + h[21..29] + h[29..37]
  {
  }

  /** A header of this version is the encoding of the fields read off it. */
  lemma HeaderIsItsFields(h: Header, sender: DeviceId, receiver: DeviceId)
    requires h[0] == V2_VERSION
    ensures h == HeadV2(Claims(HeaderEpochSeq(h), HeaderEpoch(h), HeaderTurn(h), HeaderCounter(h), sender, receiver))
  {
    BEOfFromBE(h[1..5]);
    BEOfFromBE(h[21..29]);
    BEOfFromBE(h[29..37]);
    HeaderParts(h);
    assert BE32(HeaderEpochSeq(h)) == h[1..5] && BE64(HeaderTurn(h)) == h[21..29] && BE64(HeaderCounter(h)) == h[29..37];
    hide BE32, BE64;
  }

  // ---- exactly what opens ----

  /** The envelope claims this session's epoch and parties, and its body is a seal under `chain` for those very claims. */
  ghost predicate Genuine(s: Session, w: Wire, turn: u64, counter: u64, chain: Chain, plaintext: bytes) {
    && w.Full?
    && w.header == HeadV2(s.Claims(turn, counter))
    && w.body == Sealed(s.TurnKey(chain, turn), w.nonce, AssociatedData(s.Claims(turn, counter)), plaintext)
  }

  /** Of the current turn, with a counter the window has not seen. */
  ghost predicate GenuineNow(s: Session, w: Wire, counter: u64, plaintext: bytes) {
    Genuine(s, w, s.turn, counter, s.chain, plaintext) && Acceptable(s.replay, counter)
  }

  /** Of the next turn, on the chain its ephemeral leads to, with any counter but 0. */
  ghost predicate GenuineNext(s: Session, w: Wire, counter: u64, plaintext: bytes)
    requires s.localStatic.Some? && s.turn < U64_MAX
  {
    && w.Full? && w.eph.Public? && counter != 0
    && Genuine(s, w, s.turn + 1, counter, Link(s.chain, DiffieHellman(s.localStatic.value, w.eph).value), plaintext)
  }

  /** A session opens an envelope exactly when it is genuine for the current or the next turn and not a replay. */
  lemma OpensIff(s: Session, w: Wire, plaintext: bytes)
    requires s.localStatic.Some? && s.turn < U64_MAX
    ensures Opening(s, w).0 == Ok(plaintext) <==>
              exists counter: u64 :: GenuineNow(s, w, counter, plaintext) || GenuineNext(s, w, counter, plaintext)
  {
    hide Opening, Genuine, Acceptable;
    if Opening(s, w).0 == Ok(plaintext) {
      var counter := OpenedIsGenuine(s, w, plaintext);
    }
    if counter: u64 :| GenuineNow(s, w, counter, plaintext) || GenuineNext(s, w, counter, plaintext) {
      if GenuineNow(s, w, counter, plaintext) {
        GenuineOpens(s, w, s.turn, counter, s.chain, plaintext);
      } else {
        GenuineOpens(s, w, s.turn + 1, counter, Link(s.chain, DiffieHellman(s.localStatic.value, w.eph).value), plaintext);
      }
    }
  }

  lemma OpenedIsGenuine(s: Session, w: Wire, plaintext: bytes) returns (counter: u64)
    requires s.localStatic.Some? && s.turn < U64_MAX && Opening(s, w).0 == Ok(plaintext)
    ensures GenuineNow(s, w, counter, plaintext) || GenuineNext(s, w, counter, plaintext)
  {
    hide AssociatedData, TurnKeyInfo, HeadV2, Recorded, ReadU32, ReadU64;
    HeaderIsItsFields(w.header, s.sender, s.receiver);
    var turn := HeaderTurn(w.header);
    counter := HeaderCounter(w.header);
    assert Genuine(s, w, turn, counter, CandidateChain(s, turn, w.eph).value, plaintext);
  }

  lemma GenuineOpens(s: Session, w: Wire, turn: u64, counter: u64, chain: Chain, plaintext: bytes)
    requires s.localStatic.Some? && s.turn < U64_MAX && Genuine(s, w, turn, counter, chain, plaintext)
    requires (turn == s.turn && chain == s.chain && Acceptable(s.replay, counter))
             || (turn == s.turn + 1 && w.eph.Public? && counter != 0
                 && chain == Link(s.chain, DiffieHellman(s.localStatic.value, w.eph).value))
    ensures Opening(s, w).0 == Ok(plaintext)
  {
    hide AssociatedData, TurnKeyInfo, HeadV2, Recorded, ReadU32, ReadU64;
    HeaderRoundTrip(s.Claims(turn, counter));
  }

  // ---- what is answered to a seal ----

  /** The two sessions are about the same parties, and the receiver's chain for this turn is the sender's. */
  predicate SameChannel(s: Session, t: Session)
    requires t.turn == s.turn + 1 ==> s.localStatic.Some?
  {
    t.sender == s.sender && t.receiver == s.receiver && CandidateChain(s, t.turn, t.turnEphPub) == Some(t.chain)
  }

  /** What `s` answers to a message of `t`, in terms of the two sessions. */
  ghost function Reply(s: Session, t: Session, plaintext: bytes): Result<bytes, CryptoError>
    requires s.localStatic.Some? && s.turn < U64_MAX
  {
    if t.epoch != s.epoch || t.epochSeq != s.epochSeq then Err(EpochMismatch(s.epochSeq, t.epochSeq))
    else if t.turn < s.turn || t.turn > s.turn + 1 then Err(TurnMismatch(s.turn, t.turn))
    else if t.turn > s.turn && t.turnEphPub.LowOrder? then Err(DegenerateSharedSecret)
    else if !SameChannel(s, t) then Err(EnvelopeOpen)
    else if t.nextCounter == 0 || (t.turn == s.turn && !Acceptable(s.replay, t.nextCounter)) then
      Err(ReplayRejected(t.nextCounter))
    else Ok(plaintext)
  }

  /** For any two sessions whatever: the answer to a sealed message is decided by epoch, turn, chain and window. */
  lemma AnswerToASeal(s: Session, t: Session, plaintext: bytes)
    requires s.localStatic.Some? && s.turn < U64_MAX
    ensures Opening(s, EnvelopeOf(t, plaintext)).0 == Reply(s, t, plaintext)
  {
    var w := EnvelopeOf(t, plaintext);
    hide AssociatedData, TurnKeyInfo, HeadV2, Recorded, Nonce, ReadU32, ReadU64;
    HeaderRoundTrip(t.Claims(t.turn, t.nextCounter));
    AssociatedDataInjective(s.Claims(t.turn, t.nextCounter), t.Claims(t.turn, t.nextCounter));
  }

  /** Another version, or too few bytes, and nothing else is looked at. */
  lemma ForeignFormatIsRefused(s: Session, w: Wire)
    requires s.localStatic.Some? && s.turn < U64_MAX && (w.Short? || w.header[0] != 2)
    ensures Opening(s, w) == (Err(if w.Short? then EnvelopeTruncated(w.size) else EnvelopeVersion(w.header[0])), s)
  {
  }
}
