/**
 The store-and-forward queue (server/upm-server/src/db.rs:715-849, api.rs:905-1071).
 */
module MessageQueue {
  import opened Wrappers
  import opened ServerTables
  import opened Crypto

  const DEVICE_QUEUE_LIMIT: nat := 10_000
  const GLOBAL_QUEUE_LIMIT: nat := 100_000
  const DEFAULT_MESSAGE_TTL_SECONDS: nat := 14 * 24 * 3600
  const CURRENT_VERSION: nat := 4

  type Queue = map<MessageId, Envelope>

  function AddressedTo(q: Queue, d: DeviceId): set<MessageId> {
    set m | m in q && q[m].recipient == d
  }

  /** The columns compared when an identifier is already queued; not the time stamps. */
  predicate SameContent(a: Envelope, b: Envelope) {
    a.sender == b.sender && a.recipient == b.recipient && a.version == b.version && a.ciphertext == b.ciphertext
  }

  function Enqueue(t: Tables, id: MessageId, e: Envelope): (r: (Tables, Result<MessageId, DbError>))
    ensures r.0 == t.(envelopes := r.0.envelopes)
  {
    if e.expiresAt <= e.createdAt then (t, Failure(InvalidEnvelope))
    else if e.recipient !in t.devices || e.sender !in t.devices then (t, Failure(DeviceNotFound))
    else if id in t.envelopes then
      (t, if SameContent(t.envelopes[id], e) then Success(id) else Failure(InvalidEnvelope))
    else if |AddressedTo(t.envelopes, e.recipient)| >= DEVICE_QUEUE_LIMIT || |t.envelopes| >= GLOBAL_QUEUE_LIMIT then
      (t, Failure(QueueQuotaExceeded))
    else (t.(envelopes := t.envelopes[id := e]), Success(id))
  }

  /** The request of POST /v1/messages/send, once its identifiers and base64 are decoded. */
  datatype SendRequest = SendRequest(version: nat, id: MessageId, recipient: DeviceId, ciphertext: Bytes,
                                     ttl: Option<int>)

  datatype SendError = UnsupportedProtocol | InvalidTtl | Forbidden | Refused(error: DbError)

  function Send(t: Tables, sender: DeviceId, r: SendRequest, now: Time): (out: (Tables, Result<MessageId, SendError>))
    ensures out.0 == t.(envelopes := out.0.envelopes)
  {
    var ttl := if r.ttl.Some? then r.ttl.value else DEFAULT_MESSAGE_TTL_SECONDS;
    if r.version != CURRENT_VERSION then (t, Failure(UnsupportedProtocol))
    else if ttl <= 0 || ttl > DEFAULT_MESSAGE_TTL_SECONDS then (t, Failure(InvalidTtl))
    else if !(sender in t.devices && t.devices[sender].user in t.users) then (t, Failure(Forbidden))
    else
      var (t', r) := Enqueue(t, r.id, Envelope(sender, r.recipient, r.version, r.ciphertext, now, now + ttl));
      (t', if r.Success? then Success(r.value) else Failure(Refused(r.error)))
  }

  function Expired(q: Queue, now: Time): set<MessageId> {
    set m | m in q && q[m].expiresAt < now
  }

  /** `pull_messages` first deletes every expired row, whoever it is addressed to. */
  function PullSweep(t: Tables, now: Time): (r: Tables)
    ensures r == t.(envelopes := r.envelopes)
  {
    t.(envelopes := t.envelopes - Expired(t.envelopes, now))
  }

  /** `ids` is the device's whole queue, oldest first. */
  ghost predicate IsDelivery(q: Queue, d: DeviceId, ids: seq<MessageId>) {
    && (forall m :: m in ids <==> m in AddressedTo(q, d))
    && (forall i, j :: 0 <= i < j < |ids| ==> ids[i] != ids[j])
    && (forall i, j :: 0 <= i < j < |ids| && ids[i] in q && ids[j] in q ==> q[ids[i]].createdAt <= q[ids[j]].createdAt)
  }

  function Acknowledged(q: Queue, d: DeviceId, ids: seq<MessageId>): set<MessageId> {
    set m | m in q && q[m].recipient == d && m in ids
  }

  function Ack(t: Tables, d: DeviceId, ids: seq<MessageId>): (r: (Tables, nat))
    ensures r.0 == t.(envelopes := r.0.envelopes)
  {
    var gone := Acknowledged(t.envelopes, d, ids);
    (t.(envelopes := t.envelopes - gone), |gone|)
  }

  // ---- idempotence --------------------------------------------------------------------

  /** A retry of an accepted envelope is accepted again and changes nothing, whatever its time stamps. */
  lemma RetryChangesNothing(t: Tables, id: MessageId, e: Envelope, created: Time, expires: Time)
    requires Enqueue(t, id, e).1.Success? && created < expires
    ensures var t' := Enqueue(t, id, e).0;
            Enqueue(t', id, e.(createdAt := created, expiresAt := expires)) == (t', Success(id))
  {
  }

  /** A queued identifier is never overwritten: any other content is refused. */
  lemma QueuedContentIsFixed(t: Tables, id: MessageId, e: Envelope)
    requires id in t.envelopes
    ensures Enqueue(t, id, e).0 == t
    ensures Enqueue(t, id, e).1.Success? ==> SameContent(t.envelopes[id], e)
  {
  }

  /** The table takes no envelope that would be expired when it comes. */
  lemma BornExpiredIsRefused(t: Tables, id: MessageId, e: Envelope)
    ensures e.expiresAt <= e.createdAt ==> Enqueue(t, id, e) == (t, Failure(InvalidEnvelope))
    ensures Enqueue(t, id, e).1.Success? ==> e.createdAt < e.expiresAt
  {
  }

  lemma AckByAnotherDevice(t: Tables, d: DeviceId, ids: seq<MessageId>)
    requires forall m :: m in ids && m in t.envelopes ==> t.envelopes[m].recipient != d
    ensures Ack(t, d, ids) == (t, 0)
  {
    assert Acknowledged(t.envelopes, d, ids) == {};
    assert t.envelopes - {} == t.envelopes;
  }

  /** Exactly the listed rows addressed to the device go, and the answer is how many they were. */
  lemma AcknowledgedExactly(t: Tables, d: DeviceId, ids: seq<MessageId>)
    ensures var (t', count) := Ack(t, d, ids);
            && t' == t.(envelopes := t'.envelopes)
            && (forall m :: m in t'.envelopes <==> m in t.envelopes && !(m in ids && t.envelopes[m].recipient == d))
            && (forall m :: m in t'.envelopes ==> t'.envelopes[m] == t.envelopes[m])
            && count == |t.envelopes| - |t'.envelopes|
  {
    SizeWithout(t.envelopes, Acknowledged(t.envelopes, d, ids));
  }

  /** Acknowledging twice is acknowledging once. */
  lemma AckTwice(t: Tables, d: DeviceId, ids: seq<MessageId>)
    ensures Ack(Ack(t, d, ids).0, d, ids) == (Ack(t, d, ids).0, 0)
  {
    AckByAnotherDevice(Ack(t, d, ids).0, d, ids);
  }

  /**
   Between registered devices a new, well-formed message is refused exactly when the recipient's
   queue or the server's is full.
   */
  lemma RefusedExactlyWhenFull(t: Tables, sender: DeviceId, r: SendRequest, now: Time)
    requires References(t) && sender in t.devices && r.recipient in t.devices && r.id !in t.envelopes
    requires r.version == CURRENT_VERSION && (r.ttl.Some? ==> 0 < r.ttl.value <= DEFAULT_MESSAGE_TTL_SECONDS)
    ensures Send(t, sender, r, now).1.Failure?
            <==> |AddressedTo(t.envelopes, r.recipient)| >= DEVICE_QUEUE_LIMIT || |t.envelopes| >= GLOBAL_QUEUE_LIMIT
    ensures Send(t, sender, r, now).1.Success? ==>
              var q, q' := t.envelopes, Send(t, sender, r, now).0.envelopes;
              && q' == q[r.id := q'[r.id]] && q'[r.id].sender == sender && q'[r.id].recipient == r.recipient
              && q'[r.id].ciphertext == r.ciphertext && q'[r.id].version == r.version && q'[r.id].createdAt == now
              && q'[r.id].expiresAt == now + if r.ttl.Some? then r.ttl.value else DEFAULT_MESSAGE_TTL_SECONDS
  {
  }

  /** The time to live asked for, or the default. */
  function Ttl(r: SendRequest): int {
    if r.ttl.Some? then r.ttl.value else DEFAULT_MESSAGE_TTL_SECONDS
  }

  /**
   Every request: it is accepted exactly with the current version, an allowed time to live, registered sender and
   recipient, and, if the identifier is queued, the very same content, else room for it; and a refusal changes nothing.
   */
  lemma AcceptedIff(t: Tables, sender: DeviceId, r: SendRequest, now: Time)
    requires References(t)
    ensures var (t', out) := Send(t, sender, r, now);
            && (out.Success? <==>
                  && r.version == CURRENT_VERSION && 0 < Ttl(r) <= DEFAULT_MESSAGE_TTL_SECONDS
                  && sender in t.devices && r.recipient in t.devices
                  && (if r.id in t.envelopes then
                        var e := t.envelopes[r.id];
                        e.sender == sender && e.recipient == r.recipient && e.version == r.version
                        && e.ciphertext == r.ciphertext
                      else |AddressedTo(t.envelopes, r.recipient)| < DEVICE_QUEUE_LIMIT
                           && |t.envelopes| < GLOBAL_QUEUE_LIMIT))
            && (out.Success? ==> out.value == r.id)
            && (out.Failure? ==> t' == t)
            && (out == Failure(UnsupportedProtocol) <==> r.version != CURRENT_VERSION)
            && (out == Failure(InvalidTtl) <==>
                  r.version == CURRENT_VERSION && !(0 < Ttl(r) <= DEFAULT_MESSAGE_TTL_SECONDS))
            && (out == Failure(Forbidden) <==>
                  && r.version == CURRENT_VERSION && 0 < Ttl(r) <= DEFAULT_MESSAGE_TTL_SECONDS
                  && sender !in t.devices)
  {
  }

  /** A new message accepted is queued, stays through pulls until it expires, and goes when acknowledged. */
  lemma AcceptedIsQueued(t: Tables, d: DeviceId, r: SendRequest, sent: Time, pulled: Time)
    requires Send(t, d, r, sent).1.Success? && r.id !in t.envelopes && pulled <= sent + Ttl(r)
    ensures var t1 := Send(t, d, r, sent).0;
            var t2 := PullSweep(t1, pulled);
            && r.id in t1.envelopes && r.id in t2.envelopes
            && t2.envelopes[r.id] == Envelope(d, r.recipient, r.version, r.ciphertext, sent, sent + Ttl(r))
            && r.id !in Ack(t2, r.recipient, [r.id]).0.envelopes
  {
    hide Send;
    Inserted(t, d, r, sent);
  }

  lemma Inserted(t: Tables, d: DeviceId, r: SendRequest, now: Time)
    requires Send(t, d, r, now).1.Success? && r.id !in t.envelopes
    ensures Ttl(r) > 0 && Send(t, d, r, now).0.envelopes
         == t.envelopes[r.id := Envelope(d, r.recipient, r.version, r.ciphertext, now, now + Ttl(r))]
  {
  }

  // ---- bounds ----------------------------------------------------------------------------

  ghost predicate Bounded(q: Queue) {
    && |q| <= GLOBAL_QUEUE_LIMIT
    && forall d :: |AddressedTo(q, d)| <= DEVICE_QUEUE_LIMIT
  }

  /** No envelope is kept longer than the retention window, and none arrives expired. */
  ghost predicate Retained(q: Queue) {
    forall m :: m in q ==> q[m].createdAt < q[m].expiresAt <= q[m].createdAt + DEFAULT_MESSAGE_TTL_SECONDS
  }

  lemma InsertKeepsBounds(q: Queue, id: MessageId, e: Envelope)
    requires Bounded(q) && id !in q && |q| < GLOBAL_QUEUE_LIMIT && |AddressedTo(q, e.recipient)| < DEVICE_QUEUE_LIMIT
    ensures Bounded(q[id := e])
  {
    hide AddressedTo;
    var q' := q[id := e];
    forall d
      ensures |AddressedTo(q', d)| <= DEVICE_QUEUE_LIMIT
    {
      QueueOfDevice(q, id, e, d);
    }
  }

  lemma QueueOfDevice(q: Queue, id: MessageId, e: Envelope, d: DeviceId)
    requires id !in q
    ensures |AddressedTo(q[id := e], d)| == |AddressedTo(q, d)| + if d == e.recipient then 1 else 0
  {
    var before := AddressedTo(q, d);
    assert AddressedTo(q[id := e], d) == if d == e.recipient then before + {id} else before;
  }

  lemma SendKeepsBounds(t: Tables, sender: DeviceId, r: SendRequest, now: Time)
    requires Bounded(t.envelopes) && Retained(t.envelopes)
    ensures Bounded(Send(t, sender, r, now).0.envelopes) && Retained(Send(t, sender, r, now).0.envelopes)
  {
    hide Bounded;
    var t' := Send(t, sender, r, now).0;
    if t'.envelopes != t.envelopes {
      InsertKeepsBounds(t.envelopes, r.id, t'.envelopes[r.id]);
    }
  }

  lemma RemovalKeepsBounds(q: Queue, gone: set<MessageId>)
    requires Bounded(q) && Retained(q)
    ensures Bounded(q - gone) && Retained(q - gone)
  {
    SubsetSize((q - gone).Keys, q.Keys);
    forall d
      ensures |AddressedTo(q - gone, d)| <= DEVICE_QUEUE_LIMIT
    {
      SubsetSize(AddressedTo(q - gone, d), AddressedTo(q, d));
    }
  }

  /** What is still queued after a pull was sent less than the retention window ago. */
  lemma PullDropsOldMail(t: Tables, now: Time, m: MessageId)
    requires Retained(t.envelopes) && m in PullSweep(t, now).envelopes
    ensures now <= t.envelopes[m].createdAt + DEFAULT_MESSAGE_TTL_SECONDS
  {
  }

  // ---- every envelope is accounted for -------------------------------------------------------

  lemma SizeWithout(q: Queue, gone: set<MessageId>)
    requires gone <= q.Keys
    ensures |q - gone| + |gone| == |q|
  {
  }
}
