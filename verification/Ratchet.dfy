/**
 The Double Ratchet session of crates/upm-core/src/ratchet.rs.

 `State` is the value of a session and the functions on it are the
 specification; `DoubleRatchetSession` is the mutable object, whose methods
 assign the fields one after another and are proved to compute those functions.
 Randomness (the key pair made in a ratchet step) and the one failure the AEAD
 seal can report are parameters.
 */
module Ratchet {
  import opened Wrappers
  import opened Crypto

  const MAX_SKIP: nat := 1000
  const U32_LIMIT: nat := 0x1_0000_0000
  const CURRENT_VERSION: nat := 4

  type DeviceId = nat

  datatype Header = Header(dhPub: Public, pn: nat, n: nat)

  datatype Ciphertext = Sealed(key: Key, aad: Header, plaintext: Bytes) | Noise(bytes: Bytes)

  datatype Wire = Framed(header: Header, ciphertext: Ciphertext) | Unframed(bytes: Bytes)

  datatype SessionError =
    | NonContributory | AeadFailure | Encoding | Replay | NotEstablished | TooManySkipped

  /** The key of the skipped-key map: a ratchet public key and a position in its chain. */
  datatype Slot = Slot(dhPub: Public, n: nat)

  type SkippedKeys = map<Slot, Key>

  datatype State = State(
    version: nat,
    peer: DeviceId,
    rootKey: Key,
    dhSelf: Secret,
    dhRemote: Option<Public>,
    sendingChain: Option<Key>,
    receivingChain: Option<Key>,
    sendCount: nat,
    recvCount: nat,
    prevChainLen: nat,
    skipped: SkippedKeys)

  // ---- the primitives as the session sees them ---------------------------

  function KdfRk(root: Key, dh: Shared): (Key, Key) {
    (RootStep(root, dh), ChainStart(root, dh))
  }

  function KdfCk(chain: Key): (Key, Key) {
    (NextChain(chain), MessageKey(chain))
  }

  function Open(key: Key, aad: Header, c: Ciphertext): Option<Bytes> {
    if c.Sealed? && c.key == key && c.aad == aad then Some(c.plaintext) else None
  }

  /** Unsigned 32-bit increment as the release build performs it. */
  function Increment32(n: nat): (r: nat)
    ensures n < U32_LIMIT ==> r == (n + 1) % U32_LIMIT
  {
    if n + 1 == U32_LIMIT then 0 else n + 1
  }

  function SaturatingSub(a: nat, b: nat): nat {
    if a <= b then 0 else a - b
  }

  /** JSON and base64 framing; a counter outside u32 is a decoding error. */
  function Parse(w: Wire): Result<(Header, Ciphertext), SessionError> {
    if w.Framed? && w.header.pn < U32_LIMIT && w.header.n < U32_LIMIT
    then Success((w.header, w.ciphertext))
    else Failure(Encoding)
  }

  // ---- initialisation ------------------------------------------------------

  datatype HandshakeResult = HandshakeResult(rootKey: Key, sendingChainKey: Key, receivingChainKey: Key)

  function InitInitiator(peer: DeviceId, hs: HandshakeResult, bobRatchet: Public, newKey: Secret)
    : Result<State, SessionError>
  {
    match Agree(newKey, bobRatchet)
    case None => Failure(NonContributory)
    case Some(dh) =>
      var (root, chain) := KdfRk(hs.rootKey, dh);
      Success(State(CURRENT_VERSION, peer, root, newKey, Some(bobRatchet), Some(chain),
                    Some(hs.receivingChainKey), 0, 0, 0, map[]))
  }

  function InitResponder(peer: DeviceId, hs: HandshakeResult, signedPrekey: Secret): State {
    State(CURRENT_VERSION, peer, hs.rootKey, signedPrekey, None, None,
          Some(hs.receivingChainKey), 0, 0, 0, map[])
  }

  // ---- sending ---------------------------------------------------------------

  function Encrypt(s: State, text: Bytes, sealOk: bool): (State, Result<Wire, SessionError>) {
    match s.sendingChain
    case None => (s, Failure(NotEstablished))
    case Some(chain) =>
      var (next, key) := KdfCk(chain);
      var header := Header(PublicKey(s.dhSelf), s.prevChainLen, s.sendCount);
      var s' := s.(sendingChain := Some(next), sendCount := Increment32(s.sendCount));
      if sealOk then (s', Success(Framed(header, Sealed(key, header, text))))
      else (s', Failure(AeadFailure))
  }

  // ---- receiving ---------------------------------------------------------------

  function DhRatchetStep(s: State, remote: Public, newKey: Secret): Result<State, SessionError> {
    match (Agree(s.dhSelf, remote), Agree(newKey, remote))
    case (Some(dhRecv), Some(dhSend)) =>
      var (rootMid, recvChain) := KdfRk(s.rootKey, dhRecv);
      var (rootEnd, sendChain) := KdfRk(rootMid, dhSend);
      Success(s.(prevChainLen := s.sendCount, sendCount := 0, recvCount := 0,
              dhRemote := Some(remote), rootKey := rootEnd, dhSelf := newKey,
              receivingChain := Some(recvChain), sendingChain := Some(sendChain)))
    case _ => Failure(NonContributory)
  }

  /** The skipping loop: one stashed key per step. */
  function SkipTo(s: State, pub: Public, until: nat): State
    requires s.receivingChain.Some?
    decreases until - s.recvCount
  {
    if until <= s.recvCount then s
    else
      var (next, key) := KdfCk(s.receivingChain.value);
      SkipTo(s.(receivingChain := Some(next), recvCount := s.recvCount + 1,
             skipped := s.skipped[Slot(pub, s.recvCount) := key]), pub, until)
  }

  function SkipReceivingKeys(s: State, pub: Public, until: nat): Result<State, SessionError> {
    if SaturatingSub(until, s.recvCount) > MAX_SKIP then Failure(TooManySkipped)
    else if s.recvCount >= until then Success(s)
    else if s.receivingChain.None? then Failure(NotEstablished)
    else Success(SkipTo(s, pub, until))
  }

  /** The key a header selects, and the state to commit if that key opens the message. */
  datatype Attempt = Attempt(key: Key, next: State)

  /** The part of decryption after a new remote key, if any, has been ratcheted in. */
  function LocateInChain(s: State, h: Header): Result<Attempt, SessionError> {
    if h.n < s.recvCount then Failure(Replay)
    else
      var t :- SkipReceivingKeys(s, h.dhPub, h.n);
      if t.receivingChain.None? then Failure(NotEstablished)
      else
        var (next, key) := KdfCk(t.receivingChain.value);
        Success(Attempt(key, t.(receivingChain := Some(next), recvCount := Increment32(t.recvCount))))
  }

  /** Before a turn, what is still outstanding of the old chain is stashed. */
  function StashOldChain(s: State, h: Header): Result<State, SessionError> {
    if s.receivingChain.None? then Success(s)
    else SkipReceivingKeys(s, if s.dhRemote.Some? then s.dhRemote.value else h.dhPub, h.pn)
  }

  function TurnRatchet(s: State, h: Header, newKey: Secret): Result<State, SessionError> {
    var stashed :- StashOldChain(s, h);
    DhRatchetStep(stashed, h.dhPub, newKey)
  }

  function Locate(s: State, h: Header, newKey: Secret): Result<Attempt, SessionError> {
    if Slot(h.dhPub, h.n) in s.skipped then
      Success(Attempt(s.skipped[Slot(h.dhPub, h.n)], s.(skipped := s.skipped - {Slot(h.dhPub, h.n)})))
    else if s.dhRemote == Some(h.dhPub) then LocateInChain(s, h)
    else
      var t :- TurnRatchet(s, h, newKey);
      LocateInChain(t, h)
  }

  function DecryptInner(s: State, w: Wire, newKey: Secret): Result<(State, Bytes), SessionError> {
    var (h, c) :- Parse(w);
    var a :- Locate(s, h, newKey);
    match Open(a.key, h, c)
    case None => Failure(AeadFailure)
    case Some(text) => Success((a.next, text))
  }

  /** Transactional decryption: a failure leaves the state as it was. */
  function Decrypt(s: State, w: Wire, newKey: Secret): (State, Result<Bytes, SessionError>) {
    match DecryptInner(s, w, newKey)
    case Success((s', text)) => (s', Success(text))
    case Failure(e) => (s, Failure(e))
  }

  // ---- the mutable session --------------------------------------------------------

  class DoubleRatchetSession {
    var protocolVersion: nat
    var peerDevice: DeviceId
    var rootKey: Key
    var dhSelf: Secret
    var dhSelfPublic: Public
    var dhRemotePublic: Option<Public>
    var sendingChainKey: Option<Key>
    var receivingChainKey: Option<Key>
    var sendCount: nat
    var recvCount: nat
    var prevChainLen: nat
    var skipped: SkippedKeys

    ghost predicate Valid()
      reads this
    {
      dhSelfPublic == PublicKey(dhSelf)
    }

    ghost function View(): State
      reads this
    {
      State(protocolVersion, peerDevice, rootKey, dhSelf, dhRemotePublic, sendingChainKey,
            receivingChainKey, sendCount, recvCount, prevChainLen, skipped)
    }

    constructor FromState(s: State)
      ensures Valid() && View() == s
    {
      protocolVersion, peerDevice := s.version, s.peer;
      rootKey, dhSelf, dhSelfPublic := s.rootKey, s.dhSelf, PublicKey(s.dhSelf);
      dhRemotePublic, sendingChainKey, receivingChainKey := s.dhRemote, s.sendingChain, s.receivingChain;
      sendCount, recvCount, prevChainLen, skipped := s.sendCount, s.recvCount, s.prevChainLen, s.skipped;
    }

    constructor Clone(other: DoubleRatchetSession)
      requires other.Valid()
      ensures Valid() && View() == other.View()
    {
      protocolVersion, peerDevice := other.protocolVersion, other.peerDevice;
      rootKey, dhSelf, dhSelfPublic := other.rootKey, other.dhSelf, other.dhSelfPublic;
      dhRemotePublic := other.dhRemotePublic;
      sendingChainKey, receivingChainKey := other.sendingChainKey, other.receivingChainKey;
      sendCount, recvCount, prevChainLen := other.sendCount, other.recvCount, other.prevChainLen;
      skipped := other.skipped;
    }

    method AssignFrom(other: DoubleRatchetSession)
      requires other != this && other.Valid()
      modifies this
      ensures Valid() && View() == other.View()
    {
      protocolVersion := other.protocolVersion;
      peerDevice := other.peerDevice;
      rootKey := other.rootKey;
      dhSelf := other.dhSelf;
      dhSelfPublic := other.dhSelfPublic;
      dhRemotePublic := other.dhRemotePublic;
      sendingChainKey := other.sendingChainKey;
      receivingChainKey := other.receivingChainKey;
      sendCount := other.sendCount;
      recvCount := other.recvCount;
      prevChainLen := other.prevChainLen;
      skipped := other.skipped;
    }

    method EncryptMessage(plaintext: Bytes, sealOk: bool) returns (r: Result<Wire, SessionError>)
      requires Valid()
      modifies this
      ensures Valid()
      ensures (View(), r) == Encrypt(old(View()), plaintext, sealOk)
    {
      if sendingChainKey.None? {
        return Failure(NotEstablished);
      }
      var (nextChainKey, messageKey) := KdfCk(sendingChainKey.value);
      sendingChainKey := Some(nextChainKey);
      var header := Header(dhSelfPublic, prevChainLen, sendCount);
      sendCount := Increment32(sendCount);
      if !sealOk {
        return Failure(AeadFailure);
      }
      r := Success(Framed(header, Sealed(messageKey, header, plaintext)));
    }

    /** On failure the object is left half updated; callers drop it. */
    method RatchetStep(newRemote: Public, newKey: Secret) returns (r: Result<(), SessionError>)
      requires Valid()
      modifies this
      ensures Valid()
      ensures r.Success? ==> DhRatchetStep(old(View()), newRemote, newKey) == Success(View())
      ensures r.Failure? ==> DhRatchetStep(old(View()), newRemote, newKey) == Failure(r.error)
    {
      prevChainLen := sendCount;
      sendCount := 0;
      recvCount := 0;
      dhRemotePublic := Some(newRemote);

      var dhOutRecv := Agree(dhSelf, newRemote);
      if dhOutRecv.None? {
        return Failure(NonContributory);
      }
      var (rootAfterRecv, receiving) := KdfRk(rootKey, dhOutRecv.value);
      rootKey := rootAfterRecv;
      receivingChainKey := Some(receiving);

      dhSelf := newKey;
      dhSelfPublic := PublicKey(dhSelf);
      var dhOutSend := Agree(dhSelf, newRemote);
      if dhOutSend.None? {
        return Failure(NonContributory);
      }
      var (rootAfterSend, sending) := KdfRk(rootKey, dhOutSend.value);
      rootKey := rootAfterSend;
      sendingChainKey := Some(sending);
      r := Success(());
    }

    method Skip(dhPub: Public, until: nat) returns (r: Result<(), SessionError>)
      requires Valid()
      modifies this`receivingChainKey, this`recvCount, this`skipped
      ensures Valid()
      ensures r.Success? ==> SkipReceivingKeys(old(View()), dhPub, until) == Success(View())
      ensures r.Failure? ==> SkipReceivingKeys(old(View()), dhPub, until) == Failure(r.error)
    {
      if SaturatingSub(until, recvCount) > MAX_SKIP {
        return Failure(TooManySkipped);
      }
      while recvCount < until
        invariant Valid()
        invariant old(View()).recvCount < until && old(View()).receivingChain.None? ==> View() == old(View())
        invariant old(View()).recvCount >= until ==> View() == old(View())
        invariant old(View()).recvCount < until && old(View()).receivingChain.Some? ==>
                    && receivingChainKey.Some?
                    && SkipTo(View(), dhPub, until) == SkipTo(old(View()), dhPub, until)
        decreases until - recvCount
      {
        if receivingChainKey.None? {
          return Failure(NotEstablished);
        }
        var (nextChainKey, messageKey) := KdfCk(receivingChainKey.value);
        receivingChainKey := Some(nextChainKey);
        skipped := skipped[Slot(dhPub, recvCount) := messageKey];
        recvCount := recvCount + 1;
      }
      r := Success(());
    }

    method DecryptCandidate(wire: Wire, newKey: Secret) returns (r: Result<Bytes, SessionError>)
      requires Valid()
      modifies this
      ensures Valid()
      ensures r.Success? ==> DecryptInner(old(View()), wire, newKey) == Success((View(), r.value))
      ensures r.Failure? ==> DecryptInner(old(View()), wire, newKey) == Failure(r.error)
    {
      var parsed := Parse(wire);
      if parsed.Failure? {
        return Failure(parsed.error);
      }
      var (header, ciphertext) := parsed.value;

      if Slot(header.dhPub, header.n) in skipped {
        var unsealed := Open(skipped[Slot(header.dhPub, header.n)], header, ciphertext);
        if unsealed.None? {
          return Failure(AeadFailure);
        }
        skipped := skipped - {Slot(header.dhPub, header.n)};
        return Success(unsealed.value);
      }

      if dhRemotePublic != Some(header.dhPub) {
        if receivingChainKey.Some? {
          var previous := if dhRemotePublic.Some? then dhRemotePublic.value else header.dhPub;
          var stashed := Skip(previous, header.pn);
          if stashed.Failure? {
            return Failure(stashed.error);
          }
        }
        var turned := RatchetStep(header.dhPub, newKey);
        if turned.Failure? {
          return Failure(turned.error);
        }
      }

      if recvCount < header.n {
        var skippedTo := Skip(header.dhPub, header.n);
        if skippedTo.Failure? {
          return Failure(skippedTo.error);
        }
      } else if header.n < recvCount {
        return Failure(Replay);
      }

      if receivingChainKey.None? {
        return Failure(NotEstablished);
      }
      var (nextChainKey, messageKey) := KdfCk(receivingChainKey.value);
      var unsealed := Open(messageKey, header, ciphertext);
      if unsealed.None? {
        return Failure(AeadFailure);
      }
      receivingChainKey := Some(nextChainKey);
      recvCount := Increment32(recvCount);
      r := Success(unsealed.value);
    }

    /** Works on a clone and copies it back only when the message authenticated. */
    method DecryptMessage(wire: Wire, newKey: Secret) returns (r: Result<Bytes, SessionError>)
      requires Valid()
      modifies this
      ensures Valid()
      ensures (View(), r) == Decrypt(old(View()), wire, newKey)
    {
      var candidate := new DoubleRatchetSession.Clone(this);
      r := candidate.DecryptCandidate(wire, newKey);
      if r.Success? {
        AssignFrom(candidate);
      }
    }
  }
}
