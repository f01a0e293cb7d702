/** The framing of exported CRDT state and the storage names of schema fields. */
module CrdtState {
  import opened Bytes

  const MAX_STATE_BYTES: nat := 8 * 1024 * 1024
  const HEADER_LEN: nat := 22

  /** "ALTC" */
  const MAGIC: bytes := [65, 76, 84, 67]
  const VERSION: byte := 1

  datatype CrdtError =
    | StateTooLarge(size: nat)
    | MalformedState
    | UnsupportedStateVersion(version: byte)
    | EngineMismatch(engine: byte)
    | SchemaMismatch

  function FrameState(engine: byte, digest: u64, payload: bytes): bytes
    requires |payload| < TWO_64
  {
    MAGIC + [VERSION] + [engine] + BE64(digest) + BE64(|payload|) + payload
  }

  function ParseState(state: bytes, engine: byte, digest: u64): Result<bytes, CrdtError> {
    if |state| > MAX_STATE_BYTES then Err(StateTooLarge(|state|))
    else if |state| < HEADER_LEN || state[..4] != MAGIC then Err(MalformedState)
    else if state[4] != VERSION then Err(UnsupportedStateVersion(state[4]))
    else if state[5] != engine then Err(EngineMismatch(state[5]))
    else if FromBE(state[6..14]) != digest then Err(SchemaMismatch)
    else if FromBE(state[14..22]) != |state| - HEADER_LEN then Err(MalformedState)
    else Ok(state[22..])
  }

  lemma FrameFields(engine: byte, digest: u64, payload: bytes)
    requires |payload| < TWO_64
    ensures var s := FrameState(engine, digest, payload);
            && |s| == HEADER_LEN + |payload|
            && s[..4] == MAGIC && s[4] == VERSION && s[5] == engine
            && s[6..14] == BE64(digest) && s[14..22] == BE64(|payload|) && s[22..] == payload
  {
    hide BE64;
    var d, n := BE64(digest), BE64(|payload|);
    var head := MAGIC + [VERSION] + [engine];
    assert |head| == 6;
    assert FrameState(engine, digest, payload) == head + d + n + payload;
    FieldsOf(head, d, n, payload);
    var s := head + d + n + payload;
    assert s[..4] == head[..4];
    assert s[4] == head[4] && s[5] == head[5];
  }

  lemma FieldsOf(head: bytes, d: bytes, n: bytes, payload: bytes)
    requires |head| == 6 && |d| == 8 && |n| == 8
    ensures var s := head + d + n + payload;
            s[..6] == head && s[6..14] == d && s[14..22] == n && s[22..] == payload
  {
  }

  /** A state is accepted exactly when it is the framing of the payload it yields, and not too large. */
  lemma ParseAcceptsExactlyFrames(state: bytes, engine: byte, digest: u64, payload: bytes)
    requires |payload| < TWO_64
    ensures ParseState(state, engine, digest) == Ok(payload)
            <==> state == FrameState(engine, digest, payload) && |state| <= MAX_STATE_BYTES
  {
    FrameFields(engine, digest, payload);
    if ParseState(state, engine, digest) == Ok(payload) {
      AcceptedIsFramed(state, engine, digest);
    }
  }

  lemma AcceptedIsFramed(state: bytes, engine: byte, digest: u64)
    requires ParseState(state, engine, digest).Ok?
    ensures state == FrameState(engine, digest, state[22..])
  {
    BEOfFromBE(state[6..14]);
    BEOfFromBE(state[14..22]);
    WordSizes();
    assert state[6..14] == BE64(digest);
    assert state[14..22] == BE64(|state[22..]|);
    hide BE64;
    FrameFields(engine, digest, state[22..]);
    var framed := FrameState(engine, digest, state[22..]);
    hide FrameState;
    SameFields(state, framed);
  }

  /** Strings that agree on every field of the layout are equal. */
  lemma SameFields(a: bytes, b: bytes)
    requires |a| >= HEADER_LEN && |b| >= HEADER_LEN
    requires a[..4] == b[..4] && a[4] == b[4] && a[5] == b[5]
    requires a[6..14] == b[6..14] && a[14..22] == b[14..22] && a[22..] == b[22..]
    ensures a == b
  {
    assert a == a[..4] + [a[4]] + [a[5]] + a[6..14] + a[14..22] + a[22..];
    assert b == b[..4] + [b[4]] + [b[5]] + b[6..14] + b[14..22] + b[22..];
  }

  /** What is wrong with a frame that is not this document's: its engine, its schema, a cut tail, its size. */
  lemma FrameRefusals(engine: byte, digest: u64, engine': byte, digest': u64, payload: bytes, cut: nat)
    requires |payload| < TWO_64 && cut < HEADER_LEN + |payload|
    ensures var frame := FrameState(engine', digest', payload);
            && |frame| == HEADER_LEN + |payload|
            && (|frame| > MAX_STATE_BYTES ==> ParseState(frame, engine, digest) == Err(StateTooLarge(|frame|)))
            && (|frame| <= MAX_STATE_BYTES && engine' != engine ==> ParseState(frame, engine, digest) == Err(EngineMismatch(engine')))
            && (|frame| <= MAX_STATE_BYTES && engine' == engine && digest' != digest ==>
                  ParseState(frame, engine, digest) == Err(SchemaMismatch))
            && (cut <= MAX_STATE_BYTES ==> ParseState(frame[..cut], engine', digest') == Err(MalformedState))
  {
    FrameFields(engine', digest', payload);
    hide FrameState, BE64;
    var frame := FrameState(engine', digest', payload);
    if HEADER_LEN <= cut {
      var short := frame[..cut];
      assert short[..4] == frame[..4] && short[4] == frame[4] && short[5] == frame[5];
      assert short[6..14] == frame[6..14] && short[14..22] == frame[14..22];
    }
  }

  /** A frame of another version is refused for its version, whatever else it carries. */
  lemma OtherVersionIsRefused(state: bytes, engine: byte, digest: u64)
    requires HEADER_LEN <= |state| <= MAX_STATE_BYTES && state[..4] == MAGIC && state[4] != 1
    ensures ParseState(state, engine, digest) == Err(UnsupportedStateVersion(state[4]))
  {
  }

  // ---- storage names ----

  const TEXT_PREFIX: string := "__altior_crdt_v1_text_"
  const SCALAR_PREFIX: string := "__altior_crdt_v1_scalar_"
  const DIGITS: string := "0123456789abcdef"

  datatype FieldKind = Text | Scalar

  function HexOf(logical: bytes): (s: string)
    ensures |s| == 2 * |logical|
  {
    if logical == [] then ""
    else HexOf(logical[..|logical| - 1]) + [DIGITS[logical[|logical| - 1] / 16], DIGITS[logical[|logical| - 1] % 16]]
  }

  method StorageName(prefix: string, logical: bytes) returns (out: string)
    ensures out == prefix + HexOf(logical)
  {
    out := prefix;
    for i := 0 to |logical|
      invariant out == prefix + HexOf(logical[..i])
    {
      assert logical[..i + 1][..i] == logical[..i];
      out := out + [DIGITS[logical[i] / 16], DIGITS[logical[i] % 16]];
    }
    assert logical[..|logical|] == logical;
  }

  lemma DigitsDistinct(a: nat, b: nat)
    requires a < 16 && b < 16 && DIGITS[a] == DIGITS[b]
    ensures a == b
  {
    assert DIGITS == ['0', '1', '2', '3', '4', '5', '6', '7', '8', '9', 'a', 'b', 'c', 'd', 'e', 'f'];
  }

  lemma {:induction false} HexInjective(a: bytes, b: bytes)
    requires HexOf(a) == HexOf(b)
    ensures a == b
  {
    if a != [] {
      var (x, y) := (a[|a| - 1], b[|b| - 1]);
      SplitEqual(HexOf(a[..|a| - 1]), [DIGITS[x / 16], DIGITS[x % 16]], HexOf(b[..|b| - 1]), [DIGITS[y / 16], DIGITS[y % 16]]);
      HexInjective(a[..|a| - 1], b[..|b| - 1]);
      assert [DIGITS[x / 16], DIGITS[x % 16]][0] == [DIGITS[y / 16], DIGITS[y % 16]][0];
      assert [DIGITS[x / 16], DIGITS[x % 16]][1] == [DIGITS[y / 16], DIGITS[y % 16]][1];
      DigitsDistinct(x / 16, y / 16);
      DigitsDistinct(x % 16, y % 16);
      assert a == a[..|a| - 1] + [x] && b == b[..|b| - 1] + [y];
    }
  }

  function StoredName(kind: FieldKind, logical: bytes): string {
    (if kind.Text? then TEXT_PREFIX else SCALAR_PREFIX) + HexOf(logical)
  }

  lemma PrefixLetter(k: FieldKind, logical: bytes)
    ensures |StoredName(k, logical)| > 17
    ensures StoredName(k, logical)[17] == (if k.Text? then 't' else 's')
  {
    assert TEXT_PREFIX[17] == 't' && SCALAR_PREFIX[17] == 's';
  }

  /** Stored names collide neither between fields nor between the text and the scalar prefix. */
  lemma NamesInjective(k: FieldKind, a: bytes, k': FieldKind, b: bytes)
    ensures StoredName(k, a) == StoredName(k', b) <==> k == k' && a == b
  {
    if StoredName(k, a) == StoredName(k', b) {
      PrefixLetter(k, a);
      PrefixLetter(k', b);
      var prefix := if k.Text? then TEXT_PREFIX else SCALAR_PREFIX;
      SplitEqual(prefix, HexOf(a), prefix, HexOf(b));
      HexInjective(a, b);
    }
  }

  // ---- the import validation ----

  datatype RootValue = TextObject | StringScalar | OtherValue

  /** The field is stored under this key. */
  predicate Names(schema: map<bytes, FieldKind>, key: string, field: bytes) {
    field in schema && StoredName(schema[field], field) == key
  }

  predicate Fits(kind: FieldKind, value: RootValue) {
    if kind.Text? then value.TextObject? else value.StringScalar?
  }

  /** Some declared field is stored under the key and holds that type of value. */
  predicate Accepts(schema: map<bytes, FieldKind>, key: string, value: RootValue) {
    exists field | field in schema :: Names(schema, key, field) && Fits(schema[field], value)
  }

  /** A document's root entries; a key without a readable value is passed over. */
  method ValidateState(roots: seq<(string, Option<RootValue>)>, schema: map<bytes, FieldKind>) returns (valid: bool)
    ensures valid <==> forall i | 0 <= i < |roots| && roots[i].1.Some? :: Accepts(schema, roots[i].0, roots[i].1.value)
  {
    for i := 0 to |roots|
      invariant forall j | 0 <= j < i && roots[j].1.Some? :: Accepts(schema, roots[j].0, roots[j].1.value)
    {
      var (key, value) := roots[i];
      if value.Some? && !Accepts(schema, key, value.value) {
        return false;
      }
    }
    return true;
  }

  /** A root key names at most one declared field, so it is accepted exactly with that field's type of value. */
  lemma KeyNamesOneField(schema: map<bytes, FieldKind>, key: string, a: bytes, value: RootValue)
    requires Names(schema, key, a)
    ensures forall b | Names(schema, key, b) :: b == a
    ensures Accepts(schema, key, value) <==> Fits(schema[a], value)
  {
    hide StoredName;
    forall b | Names(schema, key, b) ensures b == a {
      NamesInjective(schema[a], a, schema[b], b);
    }
  }
}
