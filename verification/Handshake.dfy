/** The X3DH-style session establishment of crates/upm-core/src/handshake.rs. */
module Handshake {
  import opened Wrappers
  import opened Crypto
  import opened Ratchet

  type PreKeyId = nat

  /** The signed byte strings, told apart by their domain-separation prefixes. */
  datatype SignedText =
    | SignedPrekeyText(exchange: Public, prekey: Public)
    | OneTimePrekeyText(id: PreKeyId, key: Public)

  datatype HandshakeError =
    | InvalidPrekeySignature | InvalidOneTimePrekeySignature | InvalidOneTimePrekeyBundle | DegenerateAgreement

  datatype PreKeyBundle = PreKeyBundle(
    identitySigning: SigningKey,
    identityExchange: Public,
    signedPrekey: Public,
    signedPrekeySignature: Signature<SignedText>,
    oneTimeId: Option<PreKeyId>,
    oneTimePublic: Option<Public>,
    oneTimeSignature: Option<Signature<SignedText>>)

  datatype InitiatorHandshake = InitiatorHandshake(
    identityExchangePublic: Public,
    ephemeralPublic: Public,
    result: HandshakeResult,
    bobInitialRatchetPublic: Public,
    oneTimeId: Option<PreKeyId>)

  function VerifyBundle(b: PreKeyBundle): Result<(), HandshakeError> {
    if !Verifies(b.identitySigning, SignedPrekeyText(b.identityExchange, b.signedPrekey), b.signedPrekeySignature) then
      Failure(InvalidPrekeySignature)
    else
      match (b.oneTimeId, b.oneTimePublic, b.oneTimeSignature)
      case (None, None, None) => Success(())
      case (Some(id), Some(key), Some(sig)) =>
        if Verifies(b.identitySigning, OneTimePrekeyText(id, key), sig) then Success(())
        else Failure(InvalidOneTimePrekeySignature)
      case _ => Failure(InvalidOneTimePrekeyBundle)
  }

  function AgreeOrFail(s: Secret, p: Public): Result<Shared, HandshakeError> {
    match Agree(s, p)
    case None => Failure(DegenerateAgreement)
    case Some(d) => Success(d)
  }

  function Initiate(myIdentity: Secret, bundle: PreKeyBundle, ephemeral: Secret)
    : Result<InitiatorHandshake, HandshakeError>
  {
    var _ :- VerifyBundle(bundle);
    var dh1 :- AgreeOrFail(myIdentity, bundle.signedPrekey);
    var dh2 :- AgreeOrFail(ephemeral, bundle.identityExchange);
    var dh3 :- AgreeOrFail(ephemeral, bundle.signedPrekey);
    var dh4 :- if bundle.oneTimePublic.None? then Success([])
               else var d :- AgreeOrFail(ephemeral, bundle.oneTimePublic.value); Success([d]);
    var ikm := [dh1, dh2, dh3] + dh4;
    Success(InitiatorHandshake(
              PublicKey(myIdentity), PublicKey(ephemeral),
              HandshakeResult(HandshakeRoot(ikm), HandshakeChain(ikm, true), HandshakeChain(ikm, false)),
              bundle.signedPrekey, bundle.oneTimeId))
  }

  function Respond(myIdentity: Secret, mySignedPrekey: Secret, theirIdentity: Public, theirEphemeral: Public,
                   oneTime: Option<Secret>): Result<HandshakeResult, HandshakeError>
  {
    var dh1 :- AgreeOrFail(mySignedPrekey, theirIdentity);
    var dh2 :- AgreeOrFail(myIdentity, theirEphemeral);
    var dh3 :- AgreeOrFail(mySignedPrekey, theirEphemeral);
    var dh4 :- if oneTime.None? then Success([])
               else var d :- AgreeOrFail(oneTime.value, theirEphemeral); Success([d]);
    var ikm := [dh1, dh2, dh3] + dh4;
    Success(HandshakeResult(HandshakeRoot(ikm), HandshakeChain(ikm, false), HandshakeChain(ikm, true)))
  }

  function PublicOf(s: Option<Secret>): Option<Public> {
    if s.None? then None else Some(PublicKey(s.value))
  }

  /** `bundle` advertises the public halves of these responder secrets. */
  predicate Advertises(bundle: PreKeyBundle, identity: Secret, signedPrekey: Secret, oneTime: Option<Secret>) {
    && bundle.identityExchange == PublicKey(identity)
    && bundle.signedPrekey == PublicKey(signedPrekey)
    && bundle.oneTimePublic == PublicOf(oneTime)
  }

  /**
   The responder reaches the initiator's root key, and the crossed chain keys, exactly when it
   answers with the one-time prekey the bundle advertised, or with none if there was none.
   */
  lemma SidesAgreeIff(aliceIdentity: Secret, bundle: PreKeyBundle, ephemeral: Secret, bobIdentity: Secret,
                      signedPrekey: Secret, advertised: Option<Secret>, used: Option<Secret>)
    requires Advertises(bundle, bobIdentity, signedPrekey, advertised)
    requires Initiate(aliceIdentity, bundle, ephemeral).Success?
    ensures var a := Initiate(aliceIdentity, bundle, ephemeral).value;
            var b := Respond(bobIdentity, signedPrekey, a.identityExchangePublic, a.ephemeralPublic, used);
            && b.Success?
            && (b.value.rootKey == a.result.rootKey <==> used == advertised)
            && (used == advertised ==>
                  && b.value.receivingChainKey == a.result.sendingChainKey
                  && b.value.sendingChainKey == a.result.receivingChainKey)
  {
    var a := Initiate(aliceIdentity, bundle, ephemeral).value;
    var b := Respond(bobIdentity, signedPrekey, a.identityExchangePublic, a.ephemeralPublic, used).value;
    if used.Some? && advertised.Some? {
      assert a.result.rootKey.ikm[3] == Dh(ephemeral, advertised.value);
      assert b.rootKey.ikm[3] == Dh(used.value, ephemeral);
    } else if used != advertised {
      assert |a.result.rootKey.ikm| != |b.rootKey.ikm|;
    }
  }

  /**
   The responder reaches the initiator's root key for no other identity, ephemeral or one-time key than the
   initiator's own and the advertised one: the handshake authenticates both.
   */
  lemma AgreesOnlyWithInitiator(aliceIdentity: Secret, bundle: PreKeyBundle, ephemeral: Secret, bobIdentity: Secret,
                                signedPrekey: Secret, advertised: Option<Secret>, named: Public, sent: Public,
                                used: Option<Secret>)
    requires Advertises(bundle, bobIdentity, signedPrekey, advertised)
    requires Initiate(aliceIdentity, bundle, ephemeral).Success?
    ensures var a := Initiate(aliceIdentity, bundle, ephemeral).value;
            var b := Respond(bobIdentity, signedPrekey, named, sent, used);
            b.Success? && b.value.rootKey == a.result.rootKey
            <==> named == PublicKey(aliceIdentity) && sent == PublicKey(ephemeral) && used == advertised
  {
    SidesAgreeIff(aliceIdentity, bundle, ephemeral, bobIdentity, signedPrekey, advertised, used);
    var a := Initiate(aliceIdentity, bundle, ephemeral).value;
    var b := Respond(bobIdentity, signedPrekey, named, sent, used);
    if b.Success? && b.value.rootKey == a.result.rootKey {
      assert b.value.rootKey.ikm[0] == Dh(signedPrekey, named.secret);
      assert a.result.rootKey.ikm[0] == Dh(aliceIdentity, signedPrekey);
      assert b.value.rootKey.ikm[1] == Dh(bobIdentity, sent.secret);
      assert a.result.rootKey.ikm[1] == Dh(ephemeral, bobIdentity);
    }
  }

  /** A responder with another identity or signed prekey does not reach it either. */
  lemma AgreesOnlyWithResponder(aliceIdentity: Secret, bundle: PreKeyBundle, ephemeral: Secret, bobIdentity: Secret,
                                signedPrekey: Secret, advertised: Option<Secret>, other: Secret, otherPrekey: Secret,
                                used: Option<Secret>)
    requires Advertises(bundle, bobIdentity, signedPrekey, advertised)
    requires Initiate(aliceIdentity, bundle, ephemeral).Success?
    ensures var a := Initiate(aliceIdentity, bundle, ephemeral).value;
            var b := Respond(other, otherPrekey, a.identityExchangePublic, a.ephemeralPublic, used);
            b.Success? && (b.value.rootKey == a.result.rootKey
                           <==> other == bobIdentity && otherPrekey == signedPrekey && used == advertised)
  {
    SidesAgreeIff(aliceIdentity, bundle, ephemeral, bobIdentity, signedPrekey, advertised, used);
    var a := Initiate(aliceIdentity, bundle, ephemeral).value;
    var b := Respond(other, otherPrekey, a.identityExchangePublic, a.ephemeralPublic, used);
    if b.value.rootKey == a.result.rootKey {
      assert b.value.rootKey.ikm[1] == Dh(other, ephemeral);
      assert a.result.rootKey.ikm[1] == Dh(ephemeral, bobIdentity);
      assert b.value.rootKey.ikm[2] == Dh(otherPrekey, ephemeral);
      assert a.result.rootKey.ikm[2] == Dh(ephemeral, signedPrekey);
    }
  }

  /** Initiation is refused exactly for a bad signature, a partial one-time prekey or a degenerate key. */
  lemma InitiationSucceedsIff(myIdentity: Secret, b: PreKeyBundle, ephemeral: Secret)
    ensures Initiate(myIdentity, b, ephemeral).Success? <==>
              && b.signedPrekeySignature
                 == Signature(b.identitySigning, SignedPrekeyText(b.identityExchange, b.signedPrekey))
              && b.signedPrekey != LowOrder && b.identityExchange != LowOrder
              && b.oneTimeId.Some? == b.oneTimePublic.Some? == b.oneTimeSignature.Some?
              && (b.oneTimeId.Some? ==>
                    && b.oneTimePublic.value != LowOrder
                    && b.oneTimeSignature.value
                       == Signature(b.identitySigning, OneTimePrekeyText(b.oneTimeId.value, b.oneTimePublic.value)))
  {
  }
}
