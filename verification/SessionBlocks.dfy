/** Which counters a sender hands out from an installed counter block. */
module SessionBlocks {
  import opened Bytes
  import opened Encodings
  import opened SymbolicCrypto
  import opened SessionV2s
  import opened SessionRuns

  /** What a caller can do with a sender between two installs. */
  datatype Use = Turn(seed: Secret) | Message(plaintext: bytes)

  /** Whether the next turn can be opened at all. */
  predicate CanOpenTurn(s: Session) {
    s.direction == Outbound && s.turn < U64_MAX && s.peerX25519.Some? && s.peerX25519.value.Public?
  }

  /** One use; a refused one changes nothing. At the last turn number no further turn is opened. */
  function Used(s: Session, use: Use): Session {
    match use
    case Turn(seed) =>
      if s.Valid() && s.turn < U64_MAX && TurnOpened(s, seed).Ok? then TurnOpened(s, seed).value else s
    case Message(plaintext) =>
      (match Sealing(s, plaintext)
       case Err(_) => s
       case Ok((_, s')) => s')
  }

  /** The counters the envelopes of these uses carry, in order. */
  function HandedOut(s: Session, uses: seq<Use>): seq<u64>
    decreases |uses|
  {
    if uses == [] then []
    else
      (if uses[0].Message? && Sealing(s, uses[0].plaintext).Ok? then [s.nextCounter] else [])
      + HandedOut(Used(s, uses[0]), uses[1..])
  }

  lemma {:induction false} WithoutABlockNothing(s: Session, uses: seq<Use>)
    requires s.counterBlock.None?
    ensures HandedOut(s, uses) == []
    decreases |uses|
  {
    hide EnvelopeOf;
    if uses != [] {
      WithoutABlockNothing(Used(s, uses[0]), uses[1..]);
    }
  }

  /** Whatever a caller does, the counters start at the session's next one and stay below the block's end. */
  lemma {:induction false} HandedOutUpToEnd(s: Session, uses: seq<Use>)
    requires s.counterBlock.Some?
    ensures forall c | c in HandedOut(s, uses) :: s.nextCounter <= c < s.counterBlock.value.end
    decreases |uses|
  {
    hide EnvelopeOf;
    if uses != [] {
      var s' := Used(s, uses[0]);
      if s'.counterBlock.Some? {
        HandedOutUpToEnd(s', uses[1..]);
      } else {
        WithoutABlockNothing(s', uses[1..]);
      }
    }
  }

  function MessagesIn(uses: seq<Use>): nat {
    if uses == [] then 0 else (if uses[0].Message? then 1 else 0) + MessagesIn(uses[1..])
  }

  function UsedAll(s: Session, uses: seq<Use>): Session
    decreases |uses|
  {
    if uses == [] then s else UsedAll(Used(s, uses[0]), uses[1..])
  }

  /** How many counters the session still has. */
  function Left(s: Session): nat {
    if s.counterBlock.None? || s.nextCounter >= s.counterBlock.value.end then 0
    else s.counterBlock.value.end - s.nextCounter
  }

  function Min(a: nat, b: nat): nat { if a < b then a else b }

  /** `first, first + 1, ...`, `n` of them. */
  ghost predicate Consecutive(counters: seq<u64>, first: nat, n: nat) {
    |counters| == n && forall k | 0 <= k < n :: counters[k] == first + k
  }

  lemma ConsecutiveCons(first: u64, later: seq<u64>, n: nat)
    requires Consecutive(later, first + 1, n)
    ensures Consecutive([first] + later, first, n + 1)
  {
    var all := [first] + later;
    forall k | 0 <= k < n + 1 ensures all[k] == first + k {
      if k > 0 {
        assert all[k] == later[k - 1];
      }
    }
  }

  /** What one use takes from the block. */
  lemma UsedLeaves(s: Session, use: Use)
    requires !s.needsFreshTurn
    ensures !Used(s, use).needsFreshTurn
    ensures if use.Message? && Left(s) > 0
            then Used(s, use).nextCounter == s.nextCounter + 1 && Left(Used(s, use)) == Left(s) - 1
            else Used(s, use).nextCounter == s.nextCounter && Left(Used(s, use)) == Left(s)
    ensures use.Message? ==> (Sealing(s, use.plaintext).Ok? <==> Left(s) > 0)
  {
    hide EnvelopeOf;
  }

  /**
   A session that may seal hands out exactly its next counters in a row, one per message, until its block is
   used up; from then on every seal is refused.
   */
  lemma {:induction false} HandedOutExactly(s: Session, uses: seq<Use>)
    requires !s.needsFreshTurn
    ensures Consecutive(HandedOut(s, uses), s.nextCounter, Min(MessagesIn(uses), Left(s)))
    ensures !UsedAll(s, uses).needsFreshTurn
    ensures Left(UsedAll(s, uses)) == Left(s) - Min(MessagesIn(uses), Left(s))
    decreases |uses|
  {
    hide EnvelopeOf, Left, Used, Sealing;
    if uses != [] {
      UsedLeaves(s, uses[0]);
      var s' := Used(s, uses[0]);
      HandedOutExactly(s', uses[1..]);
      if uses[0].Message? && Left(s) > 0 {
        ConsecutiveCons(s.nextCounter, HandedOut(s', uses[1..]), Min(MessagesIn(uses[1..]), Left(s')));
      }
    }
  }

  /** So the next message is sealed exactly while fewer messages went before it than the block had counters. */
  lemma SealsWhileTheBlockLasts(s: Session, uses: seq<Use>, plaintext: bytes)
    requires !s.needsFreshTurn
    ensures Sealing(UsedAll(s, uses), plaintext).Ok? <==> MessagesIn(uses) < Left(s)
  {
    hide EnvelopeOf, Left, Sealing;
    HandedOutExactly(s, uses);
    UsedLeaves(UsedAll(s, uses), Message(plaintext));
  }

  /** The two refusals of a seal: a restored session without a turn, and a block that is used up or missing. */
  lemma SealRefusals(s: Session, plaintext: bytes)
    ensures Sealing(s, plaintext) == Err(TurnNotOpen) <==> s.needsFreshTurn
    ensures Sealing(s, plaintext) == Err(CounterBlockExhausted) <==> !s.needsFreshTurn && Left(s) == 0
    ensures s.needsFreshTurn || Left(s) == 0 <==> Sealing(s, plaintext).Err?
  {
    hide EnvelopeOf;
  }

  /** A restored session that can open no further turn. */
  predicate Stuck(s: Session) { s.needsFreshTurn && !CanOpenTurn(s) }

  /** It never seals again. */
  lemma {:induction false} StuckSealsNothing(s: Session, uses: seq<Use>)
    requires Stuck(s)
    ensures HandedOut(s, uses) == []
    decreases |uses|
  {
    hide EnvelopeOf;
    if uses != [] {
      assert Used(s, uses[0]) == s;
      StuckSealsNothing(s, uses[1..]);
    }
  }

  /** Every counter handed out from now on lies in the block. */
  ghost predicate Respects(s: Session, b: CounterBlock) {
    forall uses, c | c in HandedOut(s, uses) :: b.start <= c < b.end
  }

  /** The first message goes out under the session's next counter. */
  lemma FirstMessage(s: Session, b: CounterBlock)
    requires s.counterBlock == Some(b) && s.nextCounter < b.end && !Stuck(s)
    ensures s.nextCounter in HandedOut(s, [Turn(1), Message([])]) || s.nextCounter in HandedOut(s, [Message([])])
  {
    hide EnvelopeOf;
    if s.needsFreshTurn {
      var s1 := Used(s, Turn(1));
      var uses := [Turn(1), Message([])];
      assert uses[1..] == [Message([])];
      assert Sealing(s1, []).Ok?;
      assert HandedOut(s1, [Message([])])[0] == s.nextCounter;
    } else {
      assert HandedOut(s, [Message([])])[0] == s.nextCounter;
    }
  }

  /**
   Over everything a caller can do next, an installed block hands out only its own counters exactly when it
   starts at the session's next counter.
   */
  lemma BlockIsRespectedIff(s: Session, b: CounterBlock)
    requires InstallBlock(s, b).Ok? && !Stuck(s)
    ensures Respects(InstallBlock(s, b).value, b) <==> b.start == s.nextCounter
  {
    var s' := InstallBlock(s, b).value;
    hide HandedOut;
    if b.start == s.nextCounter {
      forall uses, c | c in HandedOut(s', uses) ensures b.start <= c < b.end {
        HandedOutUpToEnd(s', uses);
      }
    } else {
      FirstMessage(s', b);
    }
  }

  /** Senders of a pairing are never stuck below the last turn number. */
  lemma SendersAreNotStuck(p: Pairing, s: Session)
    requires SenderOk(p, s) && s.turn < U64_MAX
    ensures !Stuck(s)
  {
  }

  /** With the next counter at 3, installing the block from 100 to 200 makes the session hand out 3. */
  lemma BlockGapExample(s: Session)
    requires s.nextCounter == 3 && !s.needsFreshTurn
    ensures InstallBlock(s, CounterBlock(100, 200)).Ok?
    ensures HandedOut(InstallBlock(s, CounterBlock(100, 200)).value, [Message([])]) == [3]
  {
    hide EnvelopeOf;
    var s' := InstallBlock(s, CounterBlock(100, 200)).value;
    assert Sealing(s', []).Ok?;
  }

  /** A sender restored with 1 to 10 that installs 100 to 200 before its first turn seals with 1. */
  lemma RestoredGapExample(p: Pairing, snapshot: ChainSnapshot)
    requires p.Honest() && 0 < snapshot.turn < U64_MAX
    ensures var s := Restored(p, snapshot, CounterBlock(1, 10));
            && s.Ok? && InstallBlock(s.value, CounterBlock(100, 200)).Ok?
            && HandedOut(InstallBlock(s.value, CounterBlock(100, 200)).value, [Turn(1), Message([])]) == [1]
  {
    hide EnvelopeOf;
    var s := InstallBlock(Restored(p, snapshot, CounterBlock(1, 10)).value, CounterBlock(100, 200)).value;
    var s1 := Used(s, Turn(1));
    var uses := [Turn(1), Message([])];
    assert uses[1..] == [Message([])];
    assert Sealing(s1, []).Ok? && s1.nextCounter == 1;
    assert HandedOut(s1, [Message([])]) == [1];
  }
}
