/**
 The server's tables (server/upm-server/src/db.rs:43-118, auth.rs:57-110).

 A table with a text primary key is a map from that key; the attachments, whose sizes
 are summed, are a sequence of rows. Every operation runs under one mutex and reads the
 clock once, so an operation is a function from tables to tables.
 */
module ServerTables {
  import opened Wrappers
  import Crypto

  type Time = nat
  type UserId = nat
  type DeviceId = nat
  type MessageId = nat
  type PrekeyId = nat
  type AttachmentId = nat
  type StorageKey = nat
  type Nonce = nat
  type Token = nat

  /** A stored or received base64 field: a value, or text that does not decode to one. */
  datatype Text<T> = Encoded(value: T) | Malformed

  type IdentityKey = Text<Crypto.SigningKey>
  type SignatureText = Text<Crypto.Signature<Nonce>>

  /** SHA-256 of a bearer token; injective as a term. */
  datatype TokenHash = Digest(token: Token)

  datatype User = User(upmId: string, username: string, normalized: string, createdAt: Time)
  datatype Device = Device(user: UserId, identityKey: IdentityKey)
  datatype Prekey = Prekey(device: DeviceId, publicKey: string, signature: string, createdAt: Time,
                           claimedAt: Option<Time>)
  datatype Envelope = Envelope(sender: DeviceId, recipient: DeviceId, version: nat, ciphertext: Crypto.Bytes,
                               createdAt: Time, expiresAt: Time)
  datatype Attachment = Attachment(id: AttachmentId, owner: DeviceId, size: int, storageKey: StorageKey,
                                   expiresAt: Time, uploadedAt: Option<Time>)
  datatype Challenge = Challenge(nonce: Nonce, expiresAt: Time)
  datatype Login = Login(device: DeviceId, createdAt: Time, expiresAt: Time)

  datatype Tables = Tables(
    users: map<UserId, User>,
    devices: map<DeviceId, Device>,
    prekeys: map<PrekeyId, Prekey>,
    envelopes: map<MessageId, Envelope>,
    attachments: seq<Attachment>,
    challenges: map<DeviceId, Challenge>,
    sessions: map<TokenHash, Login>)

  const EMPTY: Tables := Tables(map[], map[], map[], map[], [], map[], map[])

  datatype DbError =
    | UsernameTaken | UserNotFound | DeviceNotFound | InvalidEnvelope
    | QueueQuotaExceeded | AttachmentQuotaExceeded | ConstraintViolation

  // ---- rows of a sequence table ------------------------------------------------

  /** The `WHERE` clauses used on the attachments. */
  datatype Where =
    | OwnerIn(devices: set<DeviceId>)
    | LiveAt(now: Time)
    | Reserved(device: DeviceId, now: Time)
    | IsRow(id: AttachmentId, owner: DeviceId)
    | Not(w: Where)
    | Both(v: Where, w: Where)

  predicate Matches(w: Where, a: Attachment) {
    match w
    case OwnerIn(ds) => a.owner in ds
    case LiveAt(now) => a.expiresAt > now
    case Reserved(d, now) => a.owner == d && a.expiresAt > now
    case IsRow(id, owner) => a.id == id && a.owner == owner
    case Not(v) => !Matches(v, a)
    case Both(v, v') => Matches(v, a) && Matches(v', a)
  }

  /** `SELECT` of the matching rows; `DELETE` leaves `Select(rows, Not(w))`. */
  function Select(rows: seq<Attachment>, w: Where): seq<Attachment> {
    if rows == [] then []
    else if Matches(w, rows[0]) then [rows[0]] + Select(rows[1..], w)
    else Select(rows[1..], w)
  }

  function KeysOf(rows: seq<Attachment>): seq<StorageKey> {
    if rows == [] then [] else [rows[0].storageKey] + KeysOf(rows[1..])
  }

  function TotalSize(rows: seq<Attachment>): int {
    if rows == [] then 0 else rows[0].size + TotalSize(rows[1..])
  }

  lemma {:induction false} SelectMembers(rows: seq<Attachment>, w: Where)
    ensures forall a :: a in Select(rows, w) <==> a in rows && Matches(w, a)
  {
    if rows != [] {
      SelectMembers(rows[1..], w);
      assert rows == [rows[0]] + rows[1..];
    }
  }

  lemma {:induction false} SelectSame(rows: seq<Attachment>, v: Where, w: Where)
    requires forall a :: a in rows ==> Matches(v, a) == Matches(w, a)
    ensures Select(rows, v) == Select(rows, w)
  {
    if rows != [] {
      SelectSame(rows[1..], v, w);
    }
  }

  lemma {:induction false} SelectAll(rows: seq<Attachment>, w: Where)
    requires forall a :: a in rows ==> Matches(w, a)
    ensures Select(rows, w) == rows
  {
    if rows != [] {
      SelectAll(rows[1..], w);
      assert rows == [rows[0]] + rows[1..];
    }
  }

  lemma {:induction false} SelectNone(rows: seq<Attachment>, w: Where)
    requires forall a :: a in rows ==> !Matches(w, a)
    ensures Select(rows, w) == []
  {
    if rows != [] {
      SelectNone(rows[1..], w);
    }
  }

  lemma {:induction false} SelectTwice(rows: seq<Attachment>, v: Where, w: Where)
    ensures Select(Select(rows, v), w) == Select(rows, Both(v, w))
  {
    if rows != [] {
      SelectTwice(rows[1..], v, w);
    }
  }

  lemma {:induction false} SelectAppend(rows: seq<Attachment>, row: Attachment, w: Where)
    ensures Select(rows + [row], w) == Select(rows, w) + if Matches(w, row) then [row] else []
  {
    if rows != [] {
      SelectAppend(rows[1..], row, w);
      assert (rows + [row])[1..] == rows[1..] + [row];
    }
  }

  lemma {:induction false} SelectDistinct(rows: seq<Attachment>, w: Where)
    requires DistinctRows(rows)
    ensures DistinctRows(Select(rows, w))
  {
    if rows != [] {
      SelectDistinct(rows[1..], w);
      SelectMembers(rows[1..], w);
      var rest := Select(rows[1..], w);
      forall j | 0 <= j < |rest|
        ensures rest[j].id != rows[0].id && rest[j].storageKey != rows[0].storageKey
      {
        assert rest[j] in rest;
      }
    }
  }

  lemma {:induction false} KeysMembers(rows: seq<Attachment>)
    ensures forall k :: k in KeysOf(rows) <==> exists a :: a in rows && a.storageKey == k
  {
    if rows != [] {
      KeysMembers(rows[1..]);
      assert rows == [rows[0]] + rows[1..];
    }
  }

  /** What matches and what does not match make up the table, blob name by blob name. */
  lemma {:induction false} KeysSplit(rows: seq<Attachment>, w: Where)
    ensures multiset(KeysOf(rows)) == multiset(KeysOf(Select(rows, Not(w)))) + multiset(KeysOf(Select(rows, w)))
  {
    if rows != [] {
      KeysSplit(rows[1..], w);
    }
  }

  lemma {:induction false} SelectSmaller(rows: seq<Attachment>, v: Where, w: Where)
    requires forall a :: a in rows ==> 0 <= a.size && (Matches(v, a) ==> Matches(w, a))
    ensures TotalSize(Select(rows, v)) <= TotalSize(Select(rows, w))
  {
    if rows != [] {
      SelectSmaller(rows[1..], v, w);
    }
  }

  lemma {:induction false} TotalAppend(xs: seq<Attachment>, ys: seq<Attachment>)
    ensures TotalSize(xs + ys) == TotalSize(xs) + TotalSize(ys)
  {
    if xs == [] {
      assert xs + ys == ys;
    } else {
      TotalAppend(xs[1..], ys);
      assert (xs + ys)[1..] == xs[1..] + ys;
    }
  }

  // ---- the schema's constraints -------------------------------------------------

  /** Primary keys of the sequence table, and one blob file per row. */
  ghost predicate DistinctRows(rows: seq<Attachment>) {
    forall i, j :: 0 <= i < j < |rows| ==> rows[i].id != rows[j].id && rows[i].storageKey != rows[j].storageKey
  }

  /** ASCII part of `str::to_lowercase`. */
  function Lower(s: string): (r: string)
    ensures |r| == |s|
  {
    seq(|s|, i requires 0 <= i < |s| => if 'A' <= s[i] <= 'Z' then s[i] + 32 as char else s[i])
  }

  predicate SameLetter(a: char, b: char) {
    a == b || ('A' <= a <= 'Z' && b == a + 32 as char) || ('A' <= b <= 'Z' && a == b + 32 as char)
  }

  /** Equal but for the case of ASCII letters. */
  predicate SameSpelling(a: string, b: string) {
    |a| == |b| && forall i :: 0 <= i < |a| ==> SameLetter(a[i], b[i])
  }

  lemma LowerAlike(a: string, b: string)
    ensures Lower(a) == Lower(b) <==> SameSpelling(a, b)
  {
    if Lower(a) == Lower(b) {
      forall i | 0 <= i < |a|
        ensures SameLetter(a[i], b[i])
      {
        assert Lower(a)[i] == Lower(b)[i];
      }
    }
    if SameSpelling(a, b) {
      assert forall i :: 0 <= i < |a| ==> SameLetter(a[i], b[i]);
      assert Lower(a) == Lower(b);
    }
  }

  ghost predicate UniqueNames(users: map<UserId, User>) {
    && (forall u :: u in users ==> users[u].normalized == Lower(users[u].username))
    && (forall u, v :: u in users && v in users && u != v ==>
          users[u].normalized != users[v].normalized && users[u].upmId != users[v].upmId)
  }

  /** Every row refers to a device or user that exists. */
  ghost predicate References(t: Tables) {
    && (forall d :: d in t.devices ==> t.devices[d].user in t.users)
    && (forall p :: p in t.prekeys ==> t.prekeys[p].device in t.devices)
    && (forall m :: m in t.envelopes ==> t.envelopes[m].sender in t.devices && t.envelopes[m].recipient in t.devices)
    && (forall a :: a in t.attachments ==> a.owner in t.devices)
    && (forall d :: d in t.challenges ==> d in t.devices)
    && (forall h :: h in t.sessions ==> t.sessions[h].device in t.devices)
  }

  ghost predicate Integrity(t: Tables) {
    UniqueNames(t.users) && References(t)
  }
}
