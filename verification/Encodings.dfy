/** The length-prefixed byte strings that keys, tags and signatures are computed over. */
module Encodings {
  import opened Bytes

  /** The UTF-8 bytes of a device label. */
  type DeviceId = s: bytes | 1 <= |s| <= 128 witness [65]

  /** A 128-bit session epoch; the all-zero value is reserved. */
  type Epoch = s: bytes | |s| == 16 witness seq(16, i => 1)

  const V1_VERSION: byte := 1
  const V2_VERSION: byte := 2

  /** "altior/crypto/v2-turn-key" */
  const TURN_KEY_DOMAIN: bytes :=
    [97, 108, 116, 105, 111, 114, 47, 99, 114, 121, 112, 116, 111, 47,
     118, 50, 45, 116, 117, 114, 110, 45, 107, 101, 121]

  /** "altior/crypto/v1/pairing" */
  const PAIRING_DOMAIN: bytes :=
    [97, 108, 116, 105, 111, 114, 47, 99, 114, 121, 112, 116, 111, 47,
     118, 49, 47, 112, 97, 105, 114, 105, 110, 103]

  function PushId(buffer: bytes, id: bytes): bytes
    requires |id| < TWO_64
  {
    buffer + BE64(|id|) + id
  }

  /** A length-prefixed string can be read back off the front of any byte string. */
  lemma PrefixedEqual(a: bytes, x: bytes, b: bytes, y: bytes)
    requires |a| < TWO_64 && |b| < TWO_64
    requires BE64(|a|) + a + x == BE64(|b|) + b + y
    ensures a == b && x == y
  {
    hide BE64;
    Regroup(BE64(|a|), a, x);
    Regroup(BE64(|b|), b, y);
    SplitEqual(BE64(|a|), a + x, BE64(|b|), b + y);
    SplitEqual(a, x, b, y);
  }

  lemma TwoIdsShape(head: bytes, s: bytes, r: bytes, tail: bytes)
    requires |s| < TWO_64 && |r| < TWO_64
    ensures PushId(PushId(head, s), r) + tail == head + (BE64(|s|) + s + (BE64(|r|) + r + tail))
  {
    hide BE64;
    var front := PushId(head, s);
    Regroup4(front, BE64(|r|), r, tail);
    Regroup(head, BE64(|s|), s);
    Regroup(head, BE64(|s|) + s, BE64(|r|) + r + tail);
  }

  /** Two length-prefixed strings after a fixed-size head are all recoverable. */
  lemma TwoIdsEqual(head: bytes, s: bytes, r: bytes, tail: bytes, head': bytes, s': bytes, r': bytes, tail': bytes)
    requires |head| == |head'|
    requires |s| < TWO_64 && |r| < TWO_64 && |s'| < TWO_64 && |r'| < TWO_64
    requires PushId(PushId(head, s), r) + tail == PushId(PushId(head', s'), r') + tail'
    ensures head == head' && s == s' && r == r' && tail == tail'
  {
    var rest := BE64(|r|) + r + tail;
    var rest' := BE64(|r'|) + r' + tail';
    TwoIdsShape(head, s, r, tail);
    TwoIdsShape(head', s', r', tail');
    SplitEqual(head, BE64(|s|) + s + rest, head', BE64(|s'|) + s' + rest');
    PrefixedEqual(s, rest, s', rest');
    PrefixedEqual(r, tail, r', tail');
  }

  // ---- v1 ----

  function AssociatedDataV1(sender: DeviceId, receiver: DeviceId, counter: u64): bytes {
    PushId(PushId([V1_VERSION], sender), receiver) + BE64(counter)
  }

  lemma AssociatedDataV1Injective(s: DeviceId, r: DeviceId, c: u64, s': DeviceId, r': DeviceId, c': u64)
    ensures AssociatedDataV1(s, r, c) == AssociatedDataV1(s', r', c') <==> s == s' && r == r' && c == c'
  {
    if AssociatedDataV1(s, r, c) == AssociatedDataV1(s', r', c') {
      TwoIdsEqual([V1_VERSION], s, r, BE64(c), [V1_VERSION], s', r', BE64(c'));
    }
  }

  // ---- v2 ----

  /** Everything the tag of a v2 envelope authenticates. */
  datatype Claims = Claims(epochSeq: u32, epoch: Epoch, turn: u64, counter: u64, sender: DeviceId, receiver: DeviceId)

  function HeadV2(c: Claims): (s: bytes)
    ensures |s| == 37
  {
    [V2_VERSION] + BE32(c.epochSeq) + c.epoch + BE64(c.turn) + BE64(c.counter)
  }

  function AssociatedData(c: Claims): bytes {
    PushId(PushId(HeadV2(c), c.sender), c.receiver)
  }

  lemma HeadV2Fields(c: Claims)
    ensures var h := HeadV2(c);
            h[0] == V2_VERSION && h[1..5] == BE32(c.epochSeq) && h[5..21] == c.epoch
            && h[21..29] == BE64(c.turn) && h[29..37] == BE64(c.counter)
  {
    var a, b, d, e := BE32(c.epochSeq), c.epoch, BE64(c.turn), BE64(c.counter);
    var h := HeadV2(c);
    assert h == [V2_VERSION] + a + b + d + e;
    assert h[1..5] == a;
    assert h[5..21] == b;
    assert h[21..29] == d;
    assert h[29..37] == e;
  }

  lemma HeadV2Injective(c: Claims, c': Claims)
    requires HeadV2(c) == HeadV2(c')
    ensures c.epochSeq == c'.epochSeq && c.epoch == c'.epoch && c.turn == c'.turn && c.counter == c'.counter
  {
    HeadV2Fields(c);
    HeadV2Fields(c');
  }

  /** Equal associated data means equal claims: no routing field can alias another. */
  lemma AssociatedDataInjective(c: Claims, c': Claims)
    ensures AssociatedData(c) == AssociatedData(c') <==> c == c'
  {
    if AssociatedData(c) == AssociatedData(c') {
      assert AssociatedData(c) + [] == AssociatedData(c);
      assert AssociatedData(c') + [] == AssociatedData(c');
      TwoIdsEqual(HeadV2(c), c.sender, c.receiver, [], HeadV2(c'), c'.sender, c'.receiver, []);
      HeadV2Injective(c, c');
    }
  }

  function TurnKeyHead(epoch: Epoch, epochSeq: u32, turn: u64): (s: bytes)
    ensures |s| == |TURN_KEY_DOMAIN| + 29
  {
    TURN_KEY_DOMAIN + [V2_VERSION] + epoch + BE32(epochSeq) + BE64(turn)
  }

  /** The HKDF info of a turn key. */
  function TurnKeyInfo(epoch: Epoch, epochSeq: u32, turn: u64, sender: DeviceId, receiver: DeviceId): bytes {
    PushId(PushId(TurnKeyHead(epoch, epochSeq, turn), sender), receiver)
  }

  lemma TurnKeyInfoInjective(e: Epoch, q: u32, t: u64, s: DeviceId, r: DeviceId,
                             e': Epoch, q': u32, t': u64, s': DeviceId, r': DeviceId)
    ensures TurnKeyInfo(e, q, t, s, r) == TurnKeyInfo(e', q', t', s', r')
            <==> e == e' && q == q' && t == t' && s == s' && r == r'
  {
    if TurnKeyInfo(e, q, t, s, r) == TurnKeyInfo(e', q', t', s', r') {
      assert TurnKeyInfo(e, q, t, s, r) + [] == TurnKeyInfo(e, q, t, s, r);
      assert TurnKeyInfo(e', q', t', s', r') + [] == TurnKeyInfo(e', q', t', s', r');
      TwoIdsEqual(TurnKeyHead(e, q, t), s, r, [], TurnKeyHead(e', q', t'), s', r', []);
      var d := TURN_KEY_DOMAIN + [V2_VERSION];
      SplitEqual(d + e + BE32(q), BE64(t), d + e' + BE32(q'), BE64(t'));
      SplitEqual(d + e, BE32(q), d + e', BE32(q'));
      SplitEqual(d, e, d, e');
    }
  }

  // ---- the counter nonce ----

  function Nonce(counter: u64): (s: bytes)
    ensures |s| == 12
  {
    [0, 0, 0, 0] + BE64(counter)
  }

  lemma NonceInjective(c: u64, c': u64)
    ensures Nonce(c) == Nonce(c') <==> c == c'
  {
    if Nonce(c) == Nonce(c') {
      SplitEqual([0, 0, 0, 0], BE64(c), [0, 0, 0, 0], BE64(c'));
    }
  }

  // ---- the pairing transcript ----

  /** A device's public identity as the transcript binds it. */
  datatype Identity = Identity(id: DeviceId, x25519: bytes, ed25519: bytes) {
    predicate Valid() { |x25519| == 32 && |ed25519| == 32 }
  }

  /** The byte-wise order device labels compare by. */
  predicate Below(a: bytes, b: bytes) {
    b != [] && (a == [] || a[0] < b[0] || (a[0] == b[0] && Below(a[1..], b[1..])))
  }

  lemma {:induction false} BelowIsTotal(a: bytes, b: bytes)
    ensures a != b ==> Below(a, b) != Below(b, a)
    ensures !(Below(a, b) && Below(b, a))
  {
    if a != [] && b != [] && a[0] == b[0] {
      BelowIsTotal(a[1..], b[1..]);
      if a != b {
        assert a == [a[0]] + a[1..] && b == [b[0]] + b[1..];
      }
    }
  }

  function PushIdentity(buffer: bytes, i: Identity): bytes {
    PushId(buffer, i.id) + i.x25519 + i.ed25519
  }

  /** `None` is the device-id collision. */
  function Transcript(a: Identity, b: Identity): Option<bytes> {
    if a.id == b.id then None
    else if Below(a.id, b.id) then Some(PushIdentity(PushIdentity(PAIRING_DOMAIN, a), b))
    else Some(PushIdentity(PushIdentity(PAIRING_DOMAIN, b), a))
  }

  lemma IdentityShape(i: Identity, x: bytes)
    ensures PushIdentity([], i) + x == BE64(|i.id|) + i.id + (i.x25519 + (i.ed25519 + x))
  {
    hide BE64;
    var front := BE64(|i.id|) + i.id;
    assert [] + BE64(|i.id|) == BE64(|i.id|);
    Regroup4(front, i.x25519, i.ed25519, x);
    Regroup(i.x25519, i.ed25519, x);
  }

  lemma IdentitiesEqual(a: Identity, x: bytes, b: Identity, y: bytes)
    requires a.Valid() && b.Valid()
    requires PushIdentity([], a) + x == PushIdentity([], b) + y
    ensures a == b && x == y
  {
    IdentityShape(a, x);
    IdentityShape(b, y);
    hide PushIdentity;
    hide BE64;
    PrefixedEqual(a.id, a.x25519 + (a.ed25519 + x), b.id, b.x25519 + (b.ed25519 + y));
    SplitEqual(a.x25519, a.ed25519 + x, b.x25519, b.ed25519 + y);
    SplitEqual(a.ed25519, x, b.ed25519, y);
  }

  lemma PushIdentityShape(buffer: bytes, i: Identity)
    ensures PushIdentity(buffer, i) == buffer + PushIdentity([], i)
  {
    hide BE64;
    var n := BE64(|i.id|);
    assert [] + n == n;
    Regroup(buffer, n, i.id);
    Regroup4(buffer, n + i.id, i.x25519, i.ed25519);
  }

  lemma TranscriptShape(domain: bytes, a: Identity, b: Identity)
    ensures PushIdentity(PushIdentity(domain, a), b) == domain + (PushIdentity([], a) + PushIdentity([], b))
  {
    PushIdentityShape(domain, a);
    PushIdentityShape(PushIdentity(domain, a), b);
    hide PushIdentity;
    Regroup(domain, PushIdentity([], a), PushIdentity([], b));
  }

  lemma OrderedTranscriptInjective(domain: bytes, a: Identity, b: Identity, c: Identity, d: Identity)
    requires a.Valid() && b.Valid() && c.Valid() && d.Valid()
    requires PushIdentity(PushIdentity(domain, a), b) == PushIdentity(PushIdentity(domain, c), d)
    ensures a == c && b == d
  {
    hide PushIdentity;
    TranscriptShape(domain, a, b);
    TranscriptShape(domain, c, d);
    SplitEqual(domain, PushIdentity([], a) + PushIdentity([], b), domain, PushIdentity([], c) + PushIdentity([], d));
    IdentitiesEqual(a, PushIdentity([], b), c, PushIdentity([], d));
    assert PushIdentity([], b) + [] == PushIdentity([], b);
    assert PushIdentity([], d) + [] == PushIdentity([], d);
    IdentitiesEqual(b, [], d, []);
  }

  /** A transcript names exactly one unordered pair of identities; it does not depend on who builds it. */
  lemma TranscriptIffSamePair(a: Identity, b: Identity, c: Identity, d: Identity)
    requires a.Valid() && b.Valid() && c.Valid() && d.Valid()
    requires a.id != b.id && c.id != d.id
    ensures Transcript(a, b).Some? && Transcript(c, d).Some?
    ensures Transcript(a, b) == Transcript(c, d) <==> (a == c && b == d) || (a == d && b == c)
  {
    hide PushIdentity;
    hide Below;
    BelowIsTotal(a.id, b.id);
    BelowIsTotal(c.id, d.id);
    if Transcript(a, b) == Transcript(c, d) {
      var (lo, hi) := if Below(a.id, b.id) then (a, b) else (b, a);
      var (lo', hi') := if Below(c.id, d.id) then (c, d) else (d, c);
      OrderedTranscriptInjective(PAIRING_DOMAIN, lo, hi, lo', hi');
    }
  }

  /** The device with the smaller label comes first, whoever builds the transcript. */
  lemma LowerLabelComesFirst(a: Identity, b: Identity)
    requires Below(a.id, b.id)
    ensures Transcript(a, b) == Transcript(b, a)
    ensures Transcript(a, b).Some? && PushIdentity(PAIRING_DOMAIN, a) <= Transcript(a, b).value
  {
    BelowIsTotal(a.id, b.id);
    hide Below;
    PushIdentityShape(PushIdentity(PAIRING_DOMAIN, a), b);
  }
}
