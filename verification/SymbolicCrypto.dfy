/**
 The cryptographic primitives as free terms: two terms are equal only when they were built the same
 way. X25519 is the one exception; its shared secret depends on the unordered pair of secrets.
 */
module SymbolicCrypto {
  import opened Bytes

  /** An X25519 secret, named by its seed; seed 0 stands for the reserved all-zero seed. */
  type Secret = nat

  /** A public key on the wire. All low-order points behave alike: every exchange with one is all-zero. */
  datatype PublicKey = Public(secret: Secret) | LowOrder

  /** A Diffie-Hellman result, in canonical order. */
  datatype Shared = Shared(low: Secret, high: Secret)

  /** `None` is the all-zero result that the contributory check rejects. */
  function DiffieHellman(own: Secret, peer: PublicKey): Option<Shared> {
    match peer
    case LowOrder => None
    case Public(other) => Some(if own <= other then Shared(own, other) else Shared(other, own))
  }

  lemma DiffieHellmanSymmetric(a: Secret, b: Secret)
    ensures DiffieHellman(a, Public(b)) == DiffieHellman(b, Public(a))
  {
  }

  /** The chained intermediate: the static-static root, or one turn extracted onto the previous turn. */
  datatype Chain = Root(shared: Shared) | Link(previous: Chain, shared: Shared)

  /** A key expanded from a chain under an HKDF info string. */
  datatype Key = Key(chain: Chain, info: bytes)

  /** What travels as ciphertext and tag: a genuine seal, or bytes no seal produced. */
  datatype Ciphertext<+K, +N, +A> = Sealed(key: K, nonce: N, aad: A, plaintext: bytes) | Noise(content: bytes)

  function Decrypt<K(==), N(==), A(==)>(key: K, nonce: N, aad: A, c: Ciphertext<K, N, A>): Option<bytes> {
    if c.Sealed? && c.key == key && c.nonce == nonce && c.aad == aad then Some(c.plaintext) else None
  }

  // ---- the shape of chains ----

  function Depth(c: Chain): nat {
    if c.Root? then 0 else Depth(c.previous) + 1
  }

  function Origin(c: Chain): Shared {
    if c.Root? then c.shared else Origin(c.previous)
  }

  /** The intermediate `c` passed through at turn `turn`. */
  function AtTurn(c: Chain, turn: nat): (a: Chain)
    requires turn <= Depth(c)
    ensures Depth(a) == turn && Origin(a) == Origin(c)
  {
    if Depth(c) == turn then c else AtTurn(c.previous, turn)
  }

  /** `c` was ratcheted on from `a`. */
  predicate Ancestor(a: Chain, c: Chain) {
    a == c || (c.Link? && Ancestor(a, c.previous))
  }

  lemma {:induction false} AncestorAtTurn(a: Chain, c: Chain)
    requires Ancestor(a, c)
    ensures Depth(a) <= Depth(c) && AtTurn(c, Depth(a)) == a && Origin(a) == Origin(c)
  {
    if a != c {
      AncestorAtTurn(a, c.previous);
    }
  }

  lemma {:induction false} AncestorTrans(a: Chain, b: Chain, c: Chain)
    requires Ancestor(a, b) && Ancestor(b, c)
    ensures Ancestor(a, c)
  {
    if b != c {
      AncestorTrans(a, b, c.previous);
    }
  }

  /** The ancestors of one chain form a line. */
  lemma {:induction false} AncestorsLineUp(a: Chain, b: Chain, c: Chain)
    requires Ancestor(a, c) && Ancestor(b, c) && Depth(a) <= Depth(b)
    ensures Ancestor(a, b)
  {
    AncestorAtTurn(a, c);
    AncestorAtTurn(b, c);
    if b != c {
      if a != c {
        AncestorsLineUp(a, b, c.previous);
      }
    }
  }

  lemma {:induction false} RootIsAncestor(c: Chain)
    ensures Ancestor(Root(Origin(c)), c)
  {
    if c.Link? {
      RootIsAncestor(c.previous);
    }
  }

  // ---- what an outsider can compute ----

  predicate SharedDerivable(s: Shared, compromised: set<Secret>) {
    s.low in compromised || s.high in compromised
  }

  /** Extraction mixes both inputs, so an outsider needs both. */
  predicate ChainDerivable(c: Chain, compromised: set<Secret>) {
    SharedDerivable(c.shared, compromised)
    && (c.Link? ==> ChainDerivable(c.previous, compromised))
  }

  /** A chain is beyond reach as soon as its root is, whatever ephemerals were fed into it later. */
  lemma {:induction false} RootProtectsChain(c: Chain, compromised: set<Secret>)
    requires !SharedDerivable(Origin(c), compromised)
    ensures !ChainDerivable(c, compromised)
  {
    if c.Link? {
      RootProtectsChain(c.previous, compromised);
    }
  }
}
