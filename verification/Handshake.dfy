/** How a Desktop and a Core agree to talk: the launch token and the protocol version. */
module Handshakes {
  import opened Bytes

  // ---- the launch token ----

  lemma DiffKeepsTrack(diff: bv8, x: bv8, y: bv8)
    ensures diff | (x ^ y) == 0 <==> diff == 0 && x == y
  {
  }

  /** Compares without stopping at the first difference. */
  method ConstantTimeEq(a: seq<bv8>, b: seq<bv8>) returns (equal: bool)
    ensures equal <==> a == b
  {
    if |a| != |b| {
      return false;
    }
    var diff: bv8 := 0;
    for i := 0 to |a|
      invariant diff == 0 <==> a[..i] == b[..i]
    {
      DiffKeepsTrack(diff, a[i], b[i]);
      assert a[..i + 1] == a[..i] + [a[i]] && b[..i + 1] == b[..i] + [b[i]];
      diff := diff | (a[i] ^ b[i]);
    }
    assert a[..|a|] == a && b[..|b|] == b;
    return diff == 0;
  }

  // ---- the protocol version ----

  datatype VersionRange = VersionRange(min: u32, max: u32) {
    predicate Contains(version: u32) { min <= version <= max }
  }

  const SUPPORTED: VersionRange := VersionRange(1, 1)

  function Negotiated(a: VersionRange, b: VersionRange): Option<u32> {
    var min := if a.min < b.min then b.min else a.min;
    var max := if a.max < b.max then a.max else b.max;
    if min <= max then Some(max) else None
  }

  predicate Common(a: VersionRange, b: VersionRange, version: u32) { a.Contains(version) && b.Contains(version) }

  /** The highest version both sides speak, and none exactly when they share none. */
  lemma NegotiatesHighestCommon(a: VersionRange, b: VersionRange)
    ensures Negotiated(a, b).None? <==> forall v: u32 :: !Common(a, b, v)
    ensures Negotiated(a, b).Some? ==>
              Common(a, b, Negotiated(a, b).value) && forall v: u32 :: Common(a, b, v) ==> v <= Negotiated(a, b).value
    ensures Negotiated(a, b) == Negotiated(b, a)
  {
    if Negotiated(a, b).Some? {
      assert Common(a, b, Negotiated(a, b).value);
    }
  }
}
