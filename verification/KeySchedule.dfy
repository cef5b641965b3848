/**
 The global key schedule of one conversation, which neither party holds.

 Epoch 0 is the responder's signed prekey. Every later epoch i belongs to one
 party (odd: the initiator, even: the responder), has that party's i-th ratchet
 key pair, and mixes the agreement between the key pairs of epochs i-1 and i
 into root key i-1, which gives root key i and the epoch's sending chain.
 */
module KeySchedule {
  import opened Wrappers
  import opened Crypto
  import opened Ratchet

  /** A position of a sending chain. */
  datatype Place = Place(epoch: nat, n: nat)

  datatype Sealing = Sealing(place: Place, text: Bytes)

  /**
   `used` counts the positions the owner of each epoch has moved past. `sealed` is every text that
   was sealed at a position: none if the seal failed and the key was burned, several if a message
   was sealed and its sender did not move on. `done` maps each position read to the text read.
   */
  datatype Schedule = Schedule(ikm: seq<Shared>, keys: seq<Secret>, used: seq<nat>, sealed: set<Sealing>,
                               done: map<Place, Bytes>)

  function Root(ikm: seq<Shared>, keys: seq<Secret>, i: nat): Key
    requires i < |keys|
  {
    if i == 0 then HandshakeRoot(ikm) else RootStep(Root(ikm, keys, i - 1), Dh(keys[i], keys[i - 1]))
  }

  function Chain(ikm: seq<Shared>, keys: seq<Secret>, i: nat): Key
    requires 0 < i < |keys|
  {
    ChainStart(Root(ikm, keys, i - 1), Dh(keys[i], keys[i - 1]))
  }

  predicate WellFormed(c: Schedule) {
    && |c.keys| == |c.used| >= 2
    && c.used[0] == 0
    && (forall i, j :: 0 <= i < j < |c.keys| ==> c.keys[i] != c.keys[j])
    && (forall i :: 0 <= i < |c.used| ==> c.used[i] < U32_LIMIT)
  }

  /** A position up to the one the epoch's owner stands at, which may have been sealed at without moving on. */
  predicate IsPlace(c: Schedule, p: Place) {
    && 0 < p.epoch < |c.keys| == |c.used|
    && p.n <= c.used[p.epoch] && p.n + 1 < U32_LIMIT
  }

  predicate IsSealed(c: Schedule, p: Place, text: Bytes) {
    IsPlace(c, p) && Sealing(p, text) in c.sealed
  }

  function KeyAt(c: Schedule, p: Place): Key
    requires 0 < p.epoch < |c.keys|
  {
    MessageKey(Advance(Chain(c.ikm, c.keys, p.epoch), p.n))
  }

  function SlotAt(c: Schedule, p: Place): Slot
    requires p.epoch < |c.keys|
  {
    Slot(PublicKey(c.keys[p.epoch]), p.n)
  }

  /** How many positions the owner of `epoch` used in its previous epoch. */
  function LengthBefore(c: Schedule, epoch: nat): nat
    requires epoch < |c.used|
  {
    if epoch < 2 then 0 else c.used[epoch - 2]
  }

  function HeaderAt(c: Schedule, p: Place): Header
    requires p.epoch < |c.keys| == |c.used|
  {
    Header(PublicKey(c.keys[p.epoch]), LengthBefore(c, p.epoch), p.n)
  }

  function WireAt(c: Schedule, p: Place, text: Bytes): Wire
    requires 0 < p.epoch < |c.keys| == |c.used|
  {
    Framed(HeaderAt(c, p), Sealed(KeyAt(c, p), HeaderAt(c, p), text))
  }

  // ---- the schedule only grows --------------------------------------------------

  lemma {:induction false} RootStable(ikm: seq<Shared>, keys: seq<Secret>, more: seq<Secret>, i: nat)
    requires i < |keys|
    ensures Root(ikm, keys + more, i) == Root(ikm, keys, i)
  {
    if i > 0 {
      RootStable(ikm, keys, more, i - 1);
    }
  }

  lemma ChainStable(ikm: seq<Shared>, keys: seq<Secret>, more: seq<Secret>, i: nat)
    requires 0 < i < |keys|
    ensures Chain(ikm, keys + more, i) == Chain(ikm, keys, i)
  {
    RootStable(ikm, keys, more, i - 1);
  }

  // ---- no key occurs twice ---------------------------------------------------------

  lemma {:induction false} RootFacts(ikm: seq<Shared>, keys: seq<Secret>, i: nat)
    requires i < |keys|
    ensures RootDepth(Root(ikm, keys, i)) == i
    ensures IkmOf(Root(ikm, keys, i)) == Some(ikm)
  {
    if i > 0 {
      RootFacts(ikm, keys, i - 1);
    }
  }

  lemma KeyAtIkm(c: Schedule, p: Place)
    requires 0 < p.epoch < |c.keys|
    ensures IkmOf(KeyAt(c, p)) == Some(c.ikm)
  {
    RootFacts(c.ikm, c.keys, p.epoch - 1);
    AdvanceIkm(Chain(c.ikm, c.keys, p.epoch), p.n);
  }

  /** Message keys are pairwise different over the whole conversation, since root keys get deeper. */
  lemma KeyAtInjective(c: Schedule, p: Place, q: Place)
    requires 0 < p.epoch < |c.keys| && 0 < q.epoch < |c.keys|
    requires KeyAt(c, p) == KeyAt(c, q)
    ensures p == q
  {
    AdvanceInjective(Chain(c.ikm, c.keys, p.epoch), p.n, Chain(c.ikm, c.keys, q.epoch), q.n);
    RootFacts(c.ikm, c.keys, p.epoch - 1);
    RootFacts(c.ikm, c.keys, q.epoch - 1);
  }

  /**
   A ratchet turn taken at epoch `e` towards any public key yields an honest message key only
   when that public key is the one of epoch `e + 1`.
   */
  lemma TurnKey(c: Schedule, e: nat, remote: Secret, n: nat, p: Place)
    requires e < |c.keys| && 0 < p.epoch < |c.keys|
    requires MessageKey(Advance(ChainStart(Root(c.ikm, c.keys, e), Dh(c.keys[e], remote)), n)) == KeyAt(c, p)
    ensures p == Place(e + 1, n) && remote == c.keys[e + 1]
  {
    var start := ChainStart(Root(c.ikm, c.keys, e), Dh(c.keys[e], remote));
    AdvanceInjective(start, n, Chain(c.ikm, c.keys, p.epoch), p.n);
    RootFacts(c.ikm, c.keys, e);
    RootFacts(c.ikm, c.keys, p.epoch - 1);
  }

  // ---- what one party's state must be ---------------------------------------------------

  /** Positions whose keys a party at epoch `e`, with its receiving chain at `recv`, must hold. */
  predicate Stashed(c: Schedule, e: nat, recv: nat, p: Place) {
    && 0 < p.epoch < e && p.epoch < |c.keys| == |c.used|
    && (e - p.epoch) % 2 == 1
    && p.n < (if p.epoch == e - 1 then recv else c.used[p.epoch])
    && p !in c.done
  }

  ghost predicate StashMatches(c: Schedule, m: SkippedKeys, e: nat, recv: nat) {
    && (forall p :: Stashed(c, e, recv, p) ==> SlotAt(c, p) in m && m[SlotAt(c, p)] == KeyAt(c, p))
    && (forall k :: k in m ==> exists p :: Stashed(c, e, recv, p) && k == SlotAt(c, p))
  }

  /**
   What the peer sent and this party read lies behind this party's receiving position, and the
   last position it moved past is one it read.
   */
  ghost predicate DoneMatches(c: Schedule, e: nat, recv: nat) {
    && (forall p :: p in c.done && (p.epoch + e) % 2 == 1 ==>
                      p.epoch < e && (p.epoch == e - 1 ==> p.n < recv))
    && (e >= 2 && recv > 0 ==> Place(e - 1, recv - 1) in c.done)
  }

  predicate ReceiverMatches(c: Schedule, s: State, e: nat)
    requires e < |c.keys| == |c.used|
  {
    if e < 2 then
      && s.recvCount == 0
      && s.receivingChain.Some? && s.receivingChain.value.HandshakeChain?
      && s.receivingChain.value.ikm == c.ikm
    else
      && s.recvCount <= c.used[e - 1] + 1
      && s.receivingChain == Some(Advance(Chain(c.ikm, c.keys, e - 1), s.recvCount))
  }

  predicate SenderMatches(c: Schedule, s: State, e: nat)
    requires e < |c.keys| == |c.used|
  {
    && s.version == CURRENT_VERSION
    && s.dhSelf == c.keys[e]
    && s.rootKey == Root(c.ikm, c.keys, e)
    && s.sendCount == c.used[e]
    && s.prevChainLen == LengthBefore(c, e)
    && s.sendingChain == (if e == 0 then None else Some(Advance(Chain(c.ikm, c.keys, e), c.used[e])))
    && s.dhRemote == (if e == 0 then None else Some(PublicKey(c.keys[e - 1])))
  }

  /** `s` is the state of a party whose own latest epoch is `e`. */
  ghost predicate Refines(c: Schedule, s: State, e: nat) {
    && WellFormed(c)
    && e < |c.keys|
    && SenderMatches(c, s, e)
    && ReceiverMatches(c, s, e)
    && StashMatches(c, s.skipped, e, s.recvCount)
    && DoneMatches(c, e, s.recvCount)
  }
}
