/**
 Symbolic cryptography: the boundary of crates/upm-crypto.

 Keys are terms. A key-derivation call builds a new term from its inputs, so
 two derivations agree exactly when all their inputs agree. Key agreement is
 commutative, and a low-order public key makes it fail (the non-contributory
 branch). An AEAD ciphertext opens only under the key and the associated data
 it was sealed with.
 */
module Crypto {
  import opened Wrappers

  type Bytes = seq<bv8>

  // ---- X25519 ----------------------------------------------------------

  type Secret = nat

  datatype Public = Pub(secret: Secret) | LowOrder

  datatype Shared = Shared(low: Secret, high: Secret)

  function PublicKey(s: Secret): Public {
    Pub(s)
  }

  function Dh(a: Secret, b: Secret): Shared {
    if a <= b then Shared(a, b) else Shared(b, a)
  }

  function Agree(s: Secret, p: Public): Option<Shared> {
    match p
    case Pub(b) => Some(Dh(s, b))
    case LowOrder => None
  }

  // ---- HKDF-SHA-256, one constructor per domain-separation label ---------

  datatype Key =
    | Atom(bytes: Bytes)                           // a key from outside the session
    | HandshakeRoot(ikm: seq<Shared>)              // upm/v4/x3dh/root-key
    | HandshakeChain(ikm: seq<Shared>, aToB: bool) // upm/v4/x3dh/chain-a-to-b, chain-b-to-a
    | RootStep(root: Key, dh: Shared)              // upm/v4/ratchet/root-step, bytes 0..32
    | ChainStart(root: Key, dh: Shared)            // upm/v4/ratchet/root-step, bytes 32..64
    | NextChain(chain: Key)                        // upm/v4/ratchet/chain-key
    | MessageKey(chain: Key)                       // upm/v4/ratchet/message-key

  /** The handshake secret a key was derived from, if it was derived from one. */
  function IkmOf(k: Key): Option<seq<Shared>> {
    match k
    case Atom(_) => None
    case HandshakeRoot(ikm) => Some(ikm)
    case HandshakeChain(ikm, _) => Some(ikm)
    case RootStep(r, _) => IkmOf(r)
    case ChainStart(r, _) => IkmOf(r)
    case NextChain(c) => IkmOf(c)
    case MessageKey(c) => IkmOf(c)
  }

  /** How many root-key steps a key has behind it. */
  function RootDepth(k: Key): nat {
    match k
    case RootStep(r, _) => 1 + RootDepth(r)
    case _ => 0
  }

  /** A chain key moved `n` steps forward. */
  function Advance(c: Key, n: nat): Key {
    if n == 0 then c else NextChain(Advance(c, n - 1))
  }

  lemma {:induction false} AdvanceStep(c: Key, n: nat)
    ensures Advance(NextChain(c), n) == NextChain(Advance(c, n))
  {
    if n > 0 {
      AdvanceStep(c, n - 1);
    }
  }

  lemma {:induction false} AdvanceAdd(c: Key, m: nat, n: nat)
    ensures Advance(Advance(c, m), n) == Advance(c, m + n)
  {
    if n > 0 {
      AdvanceAdd(c, m, n - 1);
    }
  }

  lemma {:induction false} AdvanceIkm(c: Key, n: nat)
    ensures IkmOf(Advance(c, n)) == IkmOf(c)
  {
    if n > 0 {
      AdvanceIkm(c, n - 1);
    }
  }

  /** Two chains that start from different keys never meet, and one chain never repeats. */
  lemma {:induction false} AdvanceInjective(c: Key, m: nat, d: Key, n: nat)
    requires !c.NextChain? && !d.NextChain?
    requires Advance(c, m) == Advance(d, n)
    ensures c == d && m == n
  {
    if m > 0 && n > 0 {
      AdvanceInjective(c, m - 1, d, n - 1);
    }
  }

  // ---- Ed25519 -----------------------------------------------------------

  type SigningKey = nat

  datatype Signature<M> = Signature(signer: SigningKey, message: M)

  predicate Verifies<M(==)>(signer: SigningKey, message: M, s: Signature<M>) {
    s == Signature(signer, message)
  }
}
