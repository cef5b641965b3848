/**
 Device authentication (server/upm-server/src/auth.rs:142-253): a challenge, a signature
 over it, and the bearer session it buys.
 */
module Auth {
  import opened Wrappers
  import opened ServerTables
  import Crypto

  const CHALLENGE_TTL_SECONDS: nat := 120
  const SESSION_TTL_SECONDS: nat := 30 * 24 * 3600

  datatype AuthError =
    | UnknownDevice | NoChallenge | ChallengeExpired | InvalidSignature | MalformedText | InvalidSession | Conflict

  datatype Grant = Grant(token: Token, expiresAt: Time)

  function IssueChallenge(t: Tables, d: DeviceId, nonce: Nonce, now: Time): (r: (Tables, Result<Nonce, AuthError>))
    ensures r.0 == t.(challenges := r.0.challenges)
  {
    if d !in t.devices then (t, Failure(UnknownDevice))
    else (t.(challenges := t.challenges[d := Challenge(nonce, now + CHALLENGE_TTL_SECONDS)]), Success(nonce))
  }

  /** Why a signature over `c` by device `d` is refused at `now`, if it is. */
  function Objection(t: Tables, d: DeviceId, c: Challenge, s: SignatureText, now: Time): Option<AuthError> {
    if now > c.expiresAt then Some(ChallengeExpired)
    else if d !in t.devices then Some(UnknownDevice)
    else if t.devices[d].identityKey.Malformed? || s.Malformed? then Some(MalformedText)
    else if !Crypto.Verifies(t.devices[d].identityKey.value, c.nonce, s.value) then Some(InvalidSignature)
    else None
  }

  /** The challenge is spent whatever the outcome. */
  function Verify(t: Tables, d: DeviceId, s: SignatureText, token: Token, now: Time)
    : (r: (Tables, Result<Grant, AuthError>))
    ensures r.0 == t.(challenges := r.0.challenges, sessions := r.0.sessions)
  {
    if d !in t.challenges then (t, Failure(NoChallenge))
    else
      var spent := t.(challenges := t.challenges - {d});
      match Objection(t, d, t.challenges[d], s, now)
      case Some(e) => (spent, Failure(e))
      case None =>
        if Digest(token) in t.sessions then (spent, Failure(Conflict))
        else
          (spent.(sessions := t.sessions[Digest(token) := Login(d, now, now + SESSION_TTL_SECONDS)]),
           Success(Grant(token, now + SESSION_TTL_SECONDS)))
  }

  function Authenticate(t: Tables, token: Text<Token>, now: Time): (r: (Tables, Result<DeviceId, AuthError>))
    ensures r.0 == t.(sessions := r.0.sessions)
  {
    if token.Malformed? || Digest(token.value) !in t.sessions then (t, Failure(InvalidSession))
    else
      var row := t.sessions[Digest(token.value)];
      if now > row.expiresAt then (t.(sessions := t.sessions - {Digest(token.value)}), Failure(InvalidSession))
      else (t, Success(row.device))
  }

  function Revoke(t: Tables, token: Text<Token>): (r: (Tables, Result<(), AuthError>))
    ensures r.0 == t.(sessions := r.0.sessions)
  {
    if token.Malformed? then (t, Failure(InvalidSession))
    else (t.(sessions := t.sessions - {Digest(token.value)}), Success(()))
  }

  /** One challenge buys at most one session, whatever is tried with it afterwards. */
  lemma ChallengeIsSpent(t: Tables, d: DeviceId, s: SignatureText, s': SignatureText, token: Token, token': Token,
                         now: Time, later: Time)
    ensures Verify(Verify(t, d, s, token, now).0, d, s', token', later).1 == Failure(NoChallenge)
  {
  }

  /**
   A session is granted exactly to the holder of the registered key who signs the open
   challenge in time.
   */
  lemma GrantedExactlyToKeyHolder(t: Tables, d: DeviceId, s: SignatureText, token: Token, now: Time)
    requires Digest(token) !in t.sessions
    ensures Verify(t, d, s, token, now).1.Success?
            <==> && d in t.challenges && now <= t.challenges[d].expiresAt
                 && d in t.devices && t.devices[d].identityKey.Encoded?
                 && s == Encoded(Crypto.Signature(t.devices[d].identityKey.value, t.challenges[d].nonce))
  {
  }

  /**
   The nonce answered is the one stored, and a signature over it by the device's registered key is granted until the
   challenge runs out, and refused as expired from then on.
   */
  lemma AnsweredNonceIsGranted(t: Tables, d: DeviceId, nonce: Nonce, token: Token, now: Time, later: Time)
    requires d in t.devices && t.devices[d].identityKey.Encoded? && Digest(token) !in t.sessions
    ensures var (t', r) := IssueChallenge(t, d, nonce, now);
            && r.Success? && d in t'.challenges && t'.challenges[d].nonce == r.value == nonce
            && var signature := Encoded(Crypto.Signature(t.devices[d].identityKey.value, r.value));
               (if later <= now + CHALLENGE_TTL_SECONDS then Verify(t', d, signature, token, later).1.Success?
                else Verify(t', d, signature, token, later).1 == Failure(ChallengeExpired))
  {
    GrantedExactlyToKeyHolder(IssueChallenge(t, d, nonce, now).0, d,
                              Encoded(Crypto.Signature(t.devices[d].identityKey.value, nonce)), token, later);
  }

  /** What a grant is good for: the token is its device's until thirty days are over. */
  lemma GrantedTokenAuthenticates(t: Tables, d: DeviceId, s: SignatureText, token: Token, now: Time, later: Time)
    requires Verify(t, d, s, token, now).1.Success?
    ensures var (t', r) := Verify(t, d, s, token, now);
            && r.value == Grant(token, now + SESSION_TTL_SECONDS)
            && Authenticate(t', Encoded(token), later).1
               == (if later <= r.value.expiresAt then Success(d) else Failure(InvalidSession))
            && (Digest(token) in Authenticate(t', Encoded(token), later).0.sessions <==> later <= r.value.expiresAt)
  {
  }

  /** Why an open challenge is answered with a refusal, for a device that is known and a text that decodes. */
  lemma RefusalReasons(t: Tables, d: DeviceId, s: SignatureText, token: Token, now: Time)
    requires d in t.challenges && d in t.devices && t.devices[d].identityKey.Encoded? && s.Encoded?
    ensures Verify(t, d, s, token, now).1 == Failure(ChallengeExpired) <==> now > t.challenges[d].expiresAt
    ensures Verify(t, d, s, token, now).1 == Failure(InvalidSignature)
            <==> && now <= t.challenges[d].expiresAt
                 && s.value != Crypto.Signature(t.devices[d].identityKey.value, t.challenges[d].nonce)
    ensures d !in Verify(t, d, s, token, now).0.challenges
  {
  }
}
