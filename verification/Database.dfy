/**
 The connection to the server's database: the tables as fields, and the statements of
 server/upm-server/src/db.rs and auth.rs as methods that update them in place, each
 proved to compute the corresponding function on the tables.
 */
module Database {
  import opened Wrappers
  import opened ServerTables
  import Accounts
  import Attachments
  import Auth
  import Crypto
  import MessageQueue
  import Prekeys

  class Connection {
    var users: map<UserId, User>
    var devices: map<DeviceId, Device>
    var prekeys: map<PrekeyId, Prekey>
    var envelopes: map<MessageId, Envelope>
    var attachments: seq<Attachment>
    var challenges: map<DeviceId, Challenge>
    var sessions: map<TokenHash, Login>

    ghost function View(): Tables
      reads this
    {
      Tables(users, devices, prekeys, envelopes, attachments, challenges, sessions)
    }

    constructor ()
      ensures View() == EMPTY
    {
      users, devices, prekeys, envelopes := map[], map[], map[], map[];
      attachments, challenges, sessions := [], map[], map[];
    }

    // ---- accounts ----------------------------------------------------------------------

    /** A transaction of two inserts; a failing insert rolls the first one back. */
    method RegisterAccount(username: string, key: IdentityKey, ids: Accounts.NewIds, now: Time)
      returns (r: Result<Accounts.NewIds, DbError>)
      modifies this
      ensures (View(), r) == Accounts.Register(old(View()), username, key, ids, now)
    {
      var normalized := Lower(username);
      if exists u :: u in users && users[u].normalized == normalized {
        return Failure(UsernameTaken);
      }
      if ids.user in users || exists u :: u in users && (users[u].upmId == ids.upm || users[u].username == username) {
        return Failure(ConstraintViolation);
      }
      var begin := users;
      users := users[ids.user := User(ids.upm, username, normalized, now)];
      if ids.device in devices {
        users := begin;
        return Failure(ConstraintViolation);
      }
      devices := devices[ids.device := Device(ids.user, key)];
      r := Success(ids);
    }

    /** The statements executed for one device of a deleted account. */
    method DeleteRowsOf(d: DeviceId) returns (keys: seq<StorageKey>)
      modifies this
      ensures View() == Accounts.WithoutRowsOf(old(View()), {d})
      ensures keys == KeysOf(Select(old(attachments), OwnerIn({d})))
    {
      keys := KeysOf(Select(attachments, OwnerIn({d})));
      attachments := Select(attachments, Not(OwnerIn({d})));
      prekeys := map p | p in prekeys && prekeys[p].device != d :: prekeys[p];
      envelopes := map m | m in envelopes && envelopes[m].sender != d && envelopes[m].recipient != d :: envelopes[m];
      sessions := map h | h in sessions && sessions[h].device != d :: sessions[h];
      challenges := challenges - {d};
      Accounts.OneDevice(old(View()), d, View());
    }

    /** Fails only if nobody has the name; otherwise deletes the account of one who has it. */
    method AdminDeleteAccount(username: string) returns (r: Result<seq<StorageKey>, DbError>)
      modifies this
      ensures r.Failure? <==> !Accounts.NameTaken(old(users), Lower(username))
      ensures r.Failure? ==> View() == old(View()) && r.error == UserNotFound
      ensures r.Success? ==>
                exists u :: u in old(users) && old(users)[u].normalized == Lower(username)
                            && View() == Accounts.AdminDelete(old(View()), u)
                            && multiset(r.value)
                               == multiset(Accounts.KeysOwnedBy(old(View()), Accounts.DevicesOf(old(View()), u)))
    {
      var normalized := Lower(username);
      if !exists u :: u in users && users[u].normalized == normalized {
        return Failure(UserNotFound);
      }
      var user :| user in users && users[user].normalized == normalized;
      var deviceIds := set d | d in devices && devices[d].user == user;
      ghost var begin := View();
      ghost var done: set<DeviceId> := {};
      var remaining, storageKeys := deviceIds, [];
      Accounts.NoDevices(begin);
      while remaining != {}
        invariant remaining !! done && remaining + done == deviceIds
        invariant View() == Accounts.WithoutRowsOf(begin, done)
        invariant multiset(storageKeys) == multiset(Accounts.KeysOwnedBy(begin, done))
      {
        var d :| d in remaining;
        Accounts.NextDeviceKeys(begin.attachments, done, d);
        Accounts.NextDeviceRows(begin, done, d);
        var keys := DeleteRowsOf(d);
        storageKeys := storageKeys + keys;
        remaining, done := remaining - {d}, done + {d};
      }
      assert done == deviceIds == Accounts.DevicesOf(begin, user);
      devices := devices - deviceIds;
      users := users - {user};
      r := Success(storageKeys);
    }

    // ---- one-time prekeys -----------------------------------------------------------------

    method PublishOneTimePrekeys(d: DeviceId, entries: seq<Prekeys.Entry>, now: Time) returns (r: Result<int, DbError>)
      modifies this
      ensures (View(), r) == Prekeys.Publish(old(View()), d, entries, now)
    {
      if d !in devices {
        return Failure(DeviceNotFound);
      }
      var count := 0;
      for i := 0 to |entries|
        invariant devices == old(devices) && users == old(users) && envelopes == old(envelopes)
        invariant attachments == old(attachments) && challenges == old(challenges) && sessions == old(sessions)
        invariant Prekeys.InsertAll(prekeys, d, entries[i..], now) == Prekeys.InsertAll(old(prekeys), d, entries, now)
        invariant count == |prekeys| - |old(prekeys)|
      {
        var e := entries[i];
        assert entries[i..][0] == e && entries[i..][1..] == entries[i + 1..];
        if e.id !in prekeys {
          prekeys := prekeys[e.id := Prekey(d, e.publicKey, e.signature, now, None)];
          count := count + 1;
        }
      }
      r := Success(count);
    }

    method ClaimOneTimePrekey(d: DeviceId, now: Time) returns (r: Option<Prekeys.Entry>)
      modifies this
      ensures var choice := if r.Some? then Some(r.value.id) else None;
              Prekeys.MayClaim(old(prekeys), d, choice) && View() == Prekeys.Claim(old(View()), choice, now)
      ensures r.Some? ==> r.value.publicKey == old(prekeys)[r.value.id].publicKey
                          && r.value.signature == old(prekeys)[r.value.id].signature
    {
      var open := set p | p in prekeys && prekeys[p].device == d && prekeys[p].claimedAt.None?;
      if open == {} {
        assert forall p :: Prekeys.Unclaimed(prekeys, d, p) ==> p in open;
        return None;
      }
      var p :| p in open;
      var rest := open - {p};
      while rest != {}
        invariant p in open && rest <= open
        invariant forall q :: q in open && q !in rest ==> prekeys[p].createdAt <= prekeys[q].createdAt
      {
        var q :| q in rest;
        if prekeys[q].createdAt < prekeys[p].createdAt {
          p := q;
        }
        rest := rest - {q};
      }
      var row := prekeys[p];
      assert forall q :: Prekeys.Unclaimed(prekeys, d, q) ==> q in open;
      prekeys := prekeys[p := row.(claimedAt := Some(now))];
      r := Some(Prekeys.Entry(p, row.publicKey, row.signature));
    }

    // ---- messages ---------------------------------------------------------------------------

    method EnqueueMessage(id: MessageId, e: Envelope) returns (r: Result<MessageId, DbError>)
      modifies this`envelopes
      ensures (View(), r) == MessageQueue.Enqueue(old(View()), id, e)
    {
      if e.expiresAt <= e.createdAt {
        return Failure(InvalidEnvelope);
      }
      if e.recipient !in devices {
        return Failure(DeviceNotFound);
      }
      if e.sender !in devices {
        return Failure(DeviceNotFound);
      }
      if id in envelopes {
        var existing := envelopes[id];
        if existing.sender == e.sender && existing.recipient == e.recipient
           && existing.version == e.version && existing.ciphertext == e.ciphertext {
          return Success(id);
        }
        return Failure(InvalidEnvelope);
      }
      var waiting := set m | m in envelopes && envelopes[m].recipient == e.recipient;
      assert waiting == MessageQueue.AddressedTo(envelopes, e.recipient);
      var deviceQueue := |waiting|;
      var globalQueue := |envelopes|;
      if deviceQueue >= MessageQueue.DEVICE_QUEUE_LIMIT || globalQueue >= MessageQueue.GLOBAL_QUEUE_LIMIT {
        return Failure(QueueQuotaExceeded);
      }
      envelopes := envelopes[id := e];
      r := Success(id);
    }

    method HandleSend(sender: DeviceId, req: MessageQueue.SendRequest, now: Time)
      returns (r: Result<MessageId, MessageQueue.SendError>)
      modifies this`envelopes
      ensures (View(), r) == MessageQueue.Send(old(View()), sender, req, now)
    {
      if req.version != MessageQueue.CURRENT_VERSION {
        return Failure(MessageQueue.UnsupportedProtocol);
      }
      var ttl: int := if req.ttl.Some? then req.ttl.value else MessageQueue.DEFAULT_MESSAGE_TTL_SECONDS;
      if ttl <= 0 || ttl > MessageQueue.DEFAULT_MESSAGE_TTL_SECONDS {
        return Failure(MessageQueue.InvalidTtl);
      }
      var senderActive := sender in devices && devices[sender].user in users;
      if !senderActive {
        return Failure(MessageQueue.Forbidden);
      }
      var envelope := Envelope(sender, req.recipient, req.version, req.ciphertext, now, now + ttl);
      var enqueued := EnqueueMessage(req.id, envelope);
      r := if enqueued.Success? then Success(enqueued.value) else Failure(MessageQueue.Refused(enqueued.error));
    }

    /** The device's queue after the expired rows of every device have been deleted. */
    method PullMessages(d: DeviceId, now: Time) returns (out: seq<MessageId>)
      modifies this`envelopes
      ensures View() == MessageQueue.PullSweep(old(View()), now)
      ensures MessageQueue.IsDelivery(envelopes, d, out)
    {
      var expired := set m | m in envelopes && envelopes[m].expiresAt < now;
      assert expired == MessageQueue.Expired(envelopes, now);
      envelopes := envelopes - expired;
      var rows := set m | m in envelopes && envelopes[m].recipient == d;
      assert rows == MessageQueue.AddressedTo(envelopes, d);
      out := OrderByCreatedAt(rows);
    }

    method OrderByCreatedAt(rows: set<MessageId>) returns (out: seq<MessageId>)
      requires rows <= envelopes.Keys
      ensures forall m :: m in out <==> m in rows
      ensures forall i, j :: 0 <= i < j < |out| ==> out[i] != out[j]
      ensures forall i, j :: 0 <= i < j < |out| && out[i] in envelopes && out[j] in envelopes ==>
                envelopes[out[i]].createdAt <= envelopes[out[j]].createdAt
    {
      out := [];
      var rest := rows;
      while rest != {}
        invariant rest <= rows
        invariant forall m :: m in rows <==> m in rest || m in out
        invariant forall m :: m in out ==> m in rows && m !in rest
        invariant forall i, j :: 0 <= i < j < |out| ==> out[i] != out[j]
        invariant forall i, j :: 0 <= i < j < |out| && out[i] in envelopes && out[j] in envelopes ==>
                    envelopes[out[i]].createdAt <= envelopes[out[j]].createdAt
        invariant forall m, n :: m in out && n in rest ==> envelopes[m].createdAt <= envelopes[n].createdAt
      {
        var oldest := Oldest(rest);
        assert forall i :: 0 <= i < |out| ==> out[i] in out;
        out := out + [oldest];
        rest := rest - {oldest};
      }
    }

    method Oldest(rows: set<MessageId>) returns (p: MessageId)
      requires rows != {} && rows <= envelopes.Keys
      ensures p in rows && forall q :: q in rows ==> envelopes[p].createdAt <= envelopes[q].createdAt
    {
      p :| p in rows;
      var rest := rows - {p};
      while rest != {}
        invariant p in rows && rest <= rows
        invariant forall q :: q in rows && q !in rest ==> envelopes[p].createdAt <= envelopes[q].createdAt
      {
        var q :| q in rest;
        if envelopes[q].createdAt < envelopes[p].createdAt {
          p := q;
        }
        rest := rest - {q};
      }
    }

    method AckMessages(d: DeviceId, ids: seq<MessageId>) returns (count: nat)
      modifies this`envelopes
      ensures (View(), count) == MessageQueue.Ack(old(View()), d, ids)
    {
      count := 0;
      for i := 0 to |ids|
        invariant envelopes == old(envelopes) - MessageQueue.Acknowledged(old(envelopes), d, ids[..i])
        invariant count == |MessageQueue.Acknowledged(old(envelopes), d, ids[..i])|
      {
        ghost var before := MessageQueue.Acknowledged(old(envelopes), d, ids[..i]);
        ghost var after := MessageQueue.Acknowledged(old(envelopes), d, ids[..i + 1]);
        assert ids[..i + 1] == ids[..i] + [ids[i]];
        if ids[i] in envelopes && envelopes[ids[i]].recipient == d {
          assert after == before + {ids[i]};
          envelopes := envelopes - {ids[i]};
          count := count + 1;
        } else {
          assert after == before;
        }
      }
      assert ids[..|ids|] == ids;
    }

    // ---- attachments ----------------------------------------------------------------------------

    method CreateAttachment(d: DeviceId, size: int, id: AttachmentId, key: StorageKey, now: Time)
      returns (r: Result<Attachment, DbError>)
      modifies this`attachments
      ensures (View(), r) == Attachments.Create(old(View()), d, size, id, key, now)
    {
      if d !in devices {
        return Failure(DeviceNotFound);
      }
      var committed := TotalSize(Select(attachments, Reserved(d, now)));
      if committed + size > Attachments.MAX_DEVICE_ATTACHMENT_BYTES {
        return Failure(AttachmentQuotaExceeded);
      }
      if exists a :: a in attachments && a.id == id {
        return Failure(ConstraintViolation);
      }
      var row := Attachment(id, d, size, key, now + Attachments.DEFAULT_ATTACHMENT_TTL_SECONDS, None);
      attachments := attachments + [row];
      r := Success(row);
    }

    method GetAttachment(id: AttachmentId) returns (r: Option<Attachment>)
      ensures r.Some? ==> r.value in attachments && r.value.id == id
      ensures r.None? ==> !Attachments.HasId(attachments, id)
    {
      if a :| a in attachments && a.id == id {
        return Some(a);
      }
      r := None;
    }

    method MarkAttachmentUploaded(id: AttachmentId, owner: DeviceId, now: Time) returns (changed: bool)
      modifies this`attachments
      ensures (View(), changed) == Attachments.MarkUploaded(old(View()), id, owner, now)
    {
      changed := false;
      var out := [];
      for i := 0 to |attachments|
        invariant attachments == old(attachments)
        invariant out + Attachments.MarkRows(attachments[i..], id, owner, now)
               == Attachments.MarkRows(attachments, id, owner, now)
        invariant changed <==> exists a :: a in attachments[..i] && a.id == id && a.owner == owner && a.uploadedAt.None?
      {
        var a := attachments[i];
        assert attachments[i..][0] == a && attachments[i..][1..] == attachments[i + 1..];
        assert attachments[..i + 1] == attachments[..i] + [a];
        if a.id == id && a.owner == owner && a.uploadedAt.None? {
          changed := true;
          a := a.(uploadedAt := Some(now));
        }
        out := out + [a];
      }
      assert attachments[|attachments|..] == [] && attachments[..|attachments|] == attachments;
      assert out == Attachments.MarkRows(attachments, id, owner, now);
      assert changed == Attachments.MarkUploaded(View(), id, owner, now).1;
      attachments := out;
    }

    method DeleteAttachment(owner: DeviceId, id: AttachmentId) returns (affected: bool)
      modifies this`attachments
      ensures (View(), affected) == Attachments.Delete(old(View()), owner, id)
    {
      affected := exists a :: a in attachments && a.id == id && a.owner == owner;
      attachments := Select(attachments, Not(IsRow(id, owner)));
    }

    method ReapExpired(now: Time) returns (keys: seq<StorageKey>)
      modifies this
      ensures (View(), keys) == Attachments.Reap(old(View()), now)
    {
      keys := KeysOf(Select(attachments, Not(LiveAt(now))));
      envelopes := envelopes - (set m | m in envelopes && envelopes[m].expiresAt <= now);
      attachments := Select(attachments, LiveAt(now));
      challenges := challenges - (set d | d in challenges && challenges[d].expiresAt <= now);
      sessions := sessions - (set h | h in sessions && sessions[h].expiresAt <= now);
    }

    // ---- authentication --------------------------------------------------------------------------

    method IssueChallenge(d: DeviceId, nonce: Nonce, now: Time) returns (r: Result<Nonce, Auth.AuthError>)
      modifies this`challenges
      ensures (View(), r) == Auth.IssueChallenge(old(View()), d, nonce, now)
    {
      if d !in devices {
        return Failure(Auth.UnknownDevice);
      }
      challenges := challenges[d := Challenge(nonce, now + Auth.CHALLENGE_TTL_SECONDS)];
      r := Success(nonce);
    }

    method VerifyAndIssueSession(d: DeviceId, s: SignatureText, token: Token, now: Time)
      returns (r: Result<Auth.Grant, Auth.AuthError>)
      modifies this`challenges, this`sessions
      ensures (View(), r) == Auth.Verify(old(View()), d, s, token, now)
    {
      if d !in challenges {
        return Failure(Auth.NoChallenge);
      }
      var challenge := challenges[d];
      challenges := challenges - {d};
      if now > challenge.expiresAt {
        return Failure(Auth.ChallengeExpired);
      }
      if d !in devices {
        return Failure(Auth.UnknownDevice);
      }
      var key := devices[d].identityKey;
      if key.Malformed? {
        return Failure(Auth.MalformedText);
      }
      if s.Malformed? {
        return Failure(Auth.MalformedText);
      }
      if !Crypto.Verifies(key.value, challenge.nonce, s.value) {
        return Failure(Auth.InvalidSignature);
      }
      var expiresAt := now + Auth.SESSION_TTL_SECONDS;
      if Digest(token) in sessions {
        return Failure(Auth.Conflict);
      }
      sessions := sessions[Digest(token) := Login(d, now, expiresAt)];
      r := Success(Auth.Grant(token, expiresAt));
    }

    method Authenticate(token: Text<Token>, now: Time) returns (r: Result<DeviceId, Auth.AuthError>)
      modifies this`sessions
      ensures (View(), r) == Auth.Authenticate(old(View()), token, now)
    {
      if token.Malformed? {
        return Failure(Auth.InvalidSession);
      }
      var hash := Digest(token.value);
      if hash !in sessions {
        return Failure(Auth.InvalidSession);
      }
      var row := sessions[hash];
      if now > row.expiresAt {
        sessions := sessions - {hash};
        return Failure(Auth.InvalidSession);
      }
      r := Success(row.device);
    }

    method RevokeSession(token: Text<Token>) returns (r: Result<(), Auth.AuthError>)
      modifies this`sessions
      ensures (View(), r) == Auth.Revoke(old(View()), token)
    {
      if token.Malformed? {
        return Failure(Auth.InvalidSession);
      }
      sessions := sessions - {Digest(token.value)};
      r := Success(());
    }
  }
}
