/**
 The client's local store (clients/upm-windows/src/local_store.rs): message history, stored
 sessions, pinned identities, the outbox and the log of processed messages.

 The history table has no message id; `origin` is the message a row came from, kept here so
 that statements about the history can name it.
 */
module LocalStore {
  import opened Wrappers
  import Crypto
  import Ratchet
  import opened Snapshot

  type DeviceId = nat
  type MessageId = nat
  type Time = nat

  datatype HistoryRow = HistoryRow(peer: DeviceId, incoming: bool, text: string, createdAt: Time, origin: MessageId)

  datatype OutgoingEnvelope = OutgoingEnvelope(id: MessageId, version: nat, sender: DeviceId, recipient: DeviceId,
                                               ciphertext: Crypto.Bytes)

  datatype OutboxItem = OutboxItem(id: MessageId, peer: DeviceId, envelope: OutgoingEnvelope,
                                   sessionAfter: SessionSnapshot, text: string)

  datatype OutboxRow = OutboxRow(item: OutboxItem, createdAt: Time)

  datatype Store = Store(
    messages: seq<HistoryRow>,
    sessions: map<DeviceId, SessionSnapshot>,
    pins: map<DeviceId, Crypto.SigningKey>,
    outbox: map<MessageId, OutboxRow>,
    processed: map<MessageId, DeviceId>)

  const EMPTY_STORE: Store := Store([], map[], map[], map[], map[])

  function SaveOutbox(s: Store, item: OutboxItem, now: Time): Store {
    s.(outbox := s.outbox[item.id := OutboxRow(item, now)])
  }

  predicate IsProcessed(s: Store, id: MessageId, peer: DeviceId) {
    id in s.processed && s.processed[id] == peer
  }

  /** One transaction: the text, the session after it, and the fact that it was processed. */
  function CommitIncoming(s: Store, peer: DeviceId, id: MessageId, text: string, session: SessionSnapshot, now: Time)
    : Store
  {
    s.(messages := s.messages + [HistoryRow(peer, true, text, now, id)],
       sessions := s.sessions[peer := session],
       processed := if id in s.processed then s.processed else s.processed[id := peer])
  }

  /** One transaction: the text, the session after it, and the end of the outbox entry. */
  function CommitOutgoing(s: Store, item: OutboxItem, session: SessionSnapshot, now: Time): Store {
    s.(messages := s.messages + [HistoryRow(item.peer, false, item.text, now, item.id)],
       sessions := s.sessions[item.peer := session],
       outbox := s.outbox - {item.id})
  }

  /** Trust on first use: the first key seen for a peer is the only one accepted later. */
  function PinOrVerify(s: Store, peer: DeviceId, key: Crypto.SigningKey): (Store, bool) {
    if peer in s.pins then (s, s.pins[peer] == key)
    else (s.(pins := s.pins[peer := key]), true)
  }

  /** A stored session that `from_snapshot` refuses counts as no session. */
  function LoadSession(s: Store, peer: DeviceId): Option<Ratchet.State> {
    if peer !in s.sessions then None
    else
      match FromSnapshot(s.sessions[peer])
      case Success(session) => Some(session)
      case Failure(_) => None
  }

  /** `ids` enumerates the whole outbox once, oldest first. */
  ghost predicate IsOutboxOrder(outbox: map<MessageId, OutboxRow>, ids: seq<MessageId>) {
    && (forall id :: id in ids <==> id in outbox)
    && (forall i, j :: 0 <= i < j < |ids| ==> ids[i] != ids[j])
    && (forall i, j :: 0 <= i < j < |ids| && ids[i] in outbox && ids[j] in outbox ==>
          outbox[ids[i]].createdAt <= outbox[ids[j]].createdAt)
  }

  /** The outbox as a list, oldest first. */
  ghost predicate IsOutboxListing(outbox: map<MessageId, OutboxRow>, items: seq<OutboxItem>) {
    exists ids ::
      && IsOutboxOrder(outbox, ids)
      && |ids| == |items| && forall i :: 0 <= i < |ids| ==> ids[i] in outbox && items[i] == outbox[ids[i]].item
  }

  class LocalStore {
    var messages: seq<HistoryRow>
    var sessions: map<DeviceId, SessionSnapshot>
    var peerIdentities: map<DeviceId, Crypto.SigningKey>
    var outbox: map<MessageId, OutboxRow>
    var processedMessages: map<MessageId, DeviceId>

    ghost function View(): Store
      reads this
    {
      Store(messages, sessions, peerIdentities, outbox, processedMessages)
    }

    constructor Open()
      ensures View() == EMPTY_STORE
    {
      messages, sessions, peerIdentities, outbox, processedMessages := [], map[], map[], map[], map[];
    }

    method LoadMessages(peer: DeviceId) returns (lines: seq<HistoryRow>)
      ensures lines == RowsOf(messages, peer)
    {
      lines := [];
      for i := 0 to |messages|
        invariant lines + RowsOf(messages[i..], peer) == RowsOf(messages, peer)
      {
        assert messages[i..][0] == messages[i] && messages[i..][1..] == messages[i + 1..];
        if messages[i].peer == peer {
          lines := lines + [messages[i]];
        }
      }
    }

    method PinOrVerifyPeer(peer: DeviceId, key: Crypto.SigningKey) returns (ok: bool)
      modifies this`peerIdentities
      ensures (View(), ok) == PinOrVerify(old(View()), peer, key)
    {
      if peer !in peerIdentities {
        peerIdentities := peerIdentities[peer := key];
        return true;
      }
      return peerIdentities[peer] == key;
    }

    method SaveOutboxItem(item: OutboxItem, now: Time)
      modifies this`outbox
      ensures View() == SaveOutbox(old(View()), item, now)
    {
      outbox := outbox[item.id := OutboxRow(item, now)];
    }

    method LoadOutbox() returns (items: seq<OutboxItem>)
      ensures IsOutboxListing(outbox, items)
    {
      ghost var ids: seq<MessageId>;
      items, ids := [], [];
      var rest := outbox.Keys;
      while rest != {}
        invariant rest <= outbox.Keys && |ids| == |items|
        invariant forall id :: id in outbox <==> id in rest || id in ids
        invariant forall id :: id in ids ==> id !in rest
        invariant forall i :: 0 <= i < |ids| ==> ids[i] in outbox && items[i] == outbox[ids[i]].item
        invariant forall i, j :: 0 <= i < j < |ids| ==> ids[i] != ids[j]
        invariant forall i, j :: 0 <= i < j < |ids| ==> outbox[ids[i]].createdAt <= outbox[ids[j]].createdAt
        invariant forall a, b :: a in ids && b in rest ==> outbox[a].createdAt <= outbox[b].createdAt
      {
        var next := OldestItem(rest);
        assert forall i :: 0 <= i < |ids| ==> ids[i] in ids;
        items, ids, rest := items + [outbox[next].item], ids + [next], rest - {next};
      }
      assert IsOutboxOrder(outbox, ids);
    }

    method OldestItem(ids: set<MessageId>) returns (id: MessageId)
      requires ids != {} && ids <= outbox.Keys
      ensures id in ids && forall other :: other in ids ==> outbox[id].createdAt <= outbox[other].createdAt
    {
      id :| id in ids;
      var rest := ids - {id};
      while rest != {}
        invariant id in ids && rest <= ids
        invariant forall other :: other in ids && other !in rest ==> outbox[id].createdAt <= outbox[other].createdAt
      {
        var other :| other in rest;
        if outbox[other].createdAt < outbox[id].createdAt {
          id := other;
        }
        rest := rest - {other};
      }
    }

    method IsMessageProcessed(id: MessageId, peer: DeviceId) returns (found: bool)
      ensures found == IsProcessed(View(), id, peer)
    {
      found := id in processedMessages && processedMessages[id] == peer;
    }

    method CommitIncomingMessage(peer: DeviceId, id: MessageId, text: string, session: Ratchet.State, now: Time)
      returns (ghost snapshot: SessionSnapshot)
      modifies this`messages, this`sessions, this`processedMessages
      ensures IsSnapshotOf(snapshot, session)
      ensures View() == CommitIncoming(old(View()), peer, id, text, snapshot, now)
    {
      var state := TakeSnapshot(session);
      messages := messages + [HistoryRow(peer, true, text, now, id)];
      sessions := sessions[peer := state];
      if id !in processedMessages {
        processedMessages := processedMessages[id := peer];
      }
      snapshot := state;
    }

    method CommitOutgoingDelivery(item: OutboxItem, session: Ratchet.State, now: Time)
      returns (ghost snapshot: SessionSnapshot)
      modifies this`messages, this`sessions, this`outbox
      ensures IsSnapshotOf(snapshot, session)
      ensures View() == CommitOutgoing(old(View()), item, snapshot, now)
    {
      var state := TakeSnapshot(session);
      messages := messages + [HistoryRow(item.peer, false, item.text, now, item.id)];
      sessions := sessions[item.peer := state];
      outbox := outbox - {item.id};
      snapshot := state;
    }

    method LoadPeerSession(peer: DeviceId) returns (r: Option<Ratchet.State>)
      ensures r == LoadSession(View(), peer)
    {
      if peer !in sessions {
        return None;
      }
      var restored := FromSnapshot(sessions[peer]);
      r := if restored.Success? then Some(restored.value) else None;
    }
  }

  function RowsOf(rows: seq<HistoryRow>, peer: DeviceId): seq<HistoryRow> {
    if rows == [] then []
    else if rows[0].peer == peer then [rows[0]] + RowsOf(rows[1..], peer)
    else RowsOf(rows[1..], peer)
  }

  // ---- what a commit guarantees ------------------------------------------------------------

  /**
   The session that is reloaded after a commit is the one committed, exactly if it is small
   enough to be restored; otherwise the peer has no session at all.
   */
  lemma CommittedSessionReloads(s: Store, peer: DeviceId, id: MessageId, text: string, session: Ratchet.State,
                                snapshot: SessionSnapshot, now: Time)
    requires IsSnapshotOf(snapshot, session) && session.version == Ratchet.CURRENT_VERSION
    ensures LoadSession(CommitIncoming(s, peer, id, text, snapshot, now), peer)
         == if |session.skipped| <= Ratchet.MAX_SKIP then Some(session) else None
  {
    SnapshotRoundTrip(session, snapshot);
  }

  /** So it is after a send: the session committed with a delivered message is the one reloaded. */
  lemma DeliveredSessionReloads(s: Store, item: OutboxItem, session: Ratchet.State, snapshot: SessionSnapshot,
                                now: Time)
    requires IsSnapshotOf(snapshot, session) && session.version == Ratchet.CURRENT_VERSION
    ensures LoadSession(CommitOutgoing(s, item, snapshot, now), item.peer)
         == if |session.skipped| <= Ratchet.MAX_SKIP then Some(session) else None
  {
    SnapshotRoundTrip(session, snapshot);
  }

  /** Neither commit changes the session of another peer. */
  lemma OtherSessionsStay(s: Store, item: OutboxItem, peer: DeviceId, id: MessageId, text: string,
                          snapshot: SessionSnapshot, now: Time, other: DeviceId)
    ensures other != item.peer ==> LoadSession(CommitOutgoing(s, item, snapshot, now), other) == LoadSession(s, other)
    ensures other != peer ==>
              LoadSession(CommitIncoming(s, peer, id, text, snapshot, now), other) == LoadSession(s, other)
  {
  }

  // ---- the history as it is shown ------------------------------------------------------------

  /** A row committed later is shown after those of the same peer, and to no other peer. */
  lemma {:induction false} ShownInOrder(rows: seq<HistoryRow>, row: HistoryRow, peer: DeviceId)
    ensures RowsOf(rows + [row], peer) == RowsOf(rows, peer) + if row.peer == peer then [row] else []
  {
    if rows == [] {
      assert [] + [row] == [row];
    } else {
      ShownInOrder(rows[1..], row, peer);
      assert (rows + [row])[1..] == rows[1..] + [row];
    }
  }

  /** Exactly the peer's rows are shown. */
  lemma {:induction false} ShownRows(rows: seq<HistoryRow>, peer: DeviceId, row: HistoryRow)
    ensures row in RowsOf(rows, peer) <==> row in rows && row.peer == peer
  {
    if rows != [] {
      ShownRows(rows[1..], peer, row);
      assert rows == [rows[0]] + rows[1..];
    }
  }

  // ---- how often a message is kept -----------------------------------------------------------

  function Copies(rows: seq<HistoryRow>, id: MessageId, peer: DeviceId): nat {
    if rows == [] then 0
    else
      (if rows[0].incoming && rows[0].origin == id && rows[0].peer == peer then 1 else 0)
      + Copies(rows[1..], id, peer)
  }

  lemma {:induction false} CopiesAppend(a: seq<HistoryRow>, b: seq<HistoryRow>, id: MessageId, peer: DeviceId)
    ensures Copies(a + b, id, peer) == Copies(a, id, peer) + Copies(b, id, peer)
  {
    if a == [] {
      assert a + b == b;
    } else {
      CopiesAppend(a[1..], b, id, peer);
      assert (a + b)[1..] == a[1..] + b;
    }
  }

  /** What the poll loop does with a decrypted message: commit it unless it was processed. */
  function Deliver(s: Store, peer: DeviceId, id: MessageId, text: string, session: SessionSnapshot, now: Time): Store {
    if IsProcessed(s, id, peer) then s else CommitIncoming(s, peer, id, text, session, now)
  }

  /** Every message in the history is in the log of processed ones. */
  ghost predicate Logged(s: Store) {
    forall id, peer :: Copies(s.messages, id, peer) > 0 ==> id in s.processed
  }

  lemma DeliverKeepsLog(s: Store, peer: DeviceId, id: MessageId, text: string, session: SessionSnapshot, now: Time)
    requires Logged(s)
    ensures Logged(Deliver(s, peer, id, text, session, now))
  {
    var row := HistoryRow(peer, true, text, now, id);
    forall i, p | Copies(s.messages + [row], i, p) > 0
      ensures i in s.processed || i == id
    {
      CopiesAppend(s.messages, [row], i, p);
    }
  }

  /**
   A message already in the history is stored a second time exactly if the log holds its id for
   another peer: the log's key is the id alone.
   */
  lemma DuplicateIff(s: Store, peer: DeviceId, id: MessageId, text: string, session: SessionSnapshot, now: Time)
    requires Logged(s) && Copies(s.messages, id, peer) > 0
    ensures Copies(Deliver(s, peer, id, text, session, now).messages, id, peer) > Copies(s.messages, id, peer)
            <==> s.processed[id] != peer
  {
    CopiesAppend(s.messages, [HistoryRow(peer, true, text, now, id)], id, peer);
  }

  /** What the client does to its store. */
  datatype Op =
    | Incoming(peer: DeviceId, id: MessageId, text: string, session: SessionSnapshot, at: Time)
    | Outgoing(item: OutboxItem, session: SessionSnapshot, at: Time)
    | Queue(item: OutboxItem, at: Time)
    | Pin(peer: DeviceId, key: Crypto.SigningKey)

  function Apply(s: Store, op: Op): Store {
    match op
    case Incoming(peer, id, text, session, at) => Deliver(s, peer, id, text, session, at)
    case Outgoing(item, session, at) => CommitOutgoing(s, item, session, at)
    case Queue(item, at) => SaveOutbox(s, item, at)
    case Pin(peer, key) => PinOrVerify(s, peer, key).0
  }

  function Run(ops: seq<Op>): Store {
    if ops == [] then EMPTY_STORE else Apply(Run(ops[..|ops| - 1]), ops[|ops| - 1])
  }

  /** How often `peer` delivered the message. */
  function Deliveries(ops: seq<Op>, id: MessageId, peer: DeviceId): nat {
    if ops == [] then 0
    else
      var last := ops[|ops| - 1];
      Deliveries(ops[..|ops| - 1], id, peer) + if last.Incoming? && last.id == id && last.peer == peer then 1 else 0
  }

  /** Who was the first to deliver a message with this id. */
  function FirstPeer(ops: seq<Op>, id: MessageId): Option<DeviceId> {
    if ops == [] then None
    else
      var before, last := FirstPeer(ops[..|ops| - 1], id), ops[|ops| - 1];
      if before.None? && last.Incoming? && last.id == id then Some(last.peer) else before
  }

  /** The first key seen for a peer. */
  function FirstKey(ops: seq<Op>, peer: DeviceId): Option<Crypto.SigningKey> {
    if ops == [] then None
    else
      var before, last := FirstKey(ops[..|ops| - 1], peer), ops[|ops| - 1];
      if before.None? && last.Pin? && last.peer == peer then Some(last.key) else before
  }

  lemma {:induction false} PinsAreFirstKeys(ops: seq<Op>, peer: DeviceId)
    ensures FirstKey(ops, peer) == if peer in Run(ops).pins then Some(Run(ops).pins[peer]) else None
  {
    if ops != [] {
      PinsAreFirstKeys(ops[..|ops| - 1], peer);
    }
  }

  /** Trust on first use: after any run a peer's key is accepted exactly if no other was seen for it first. */
  lemma TrustedIffFirst(ops: seq<Op>, peer: DeviceId, key: Crypto.SigningKey)
    ensures PinOrVerify(Run(ops), peer, key).1 <==> FirstKey(ops, peer) == None || FirstKey(ops, peer) == Some(key)
  {
    PinsAreFirstKeys(ops, peer);
  }

  /** An item saved later than the rest of the outbox is the last to be retried. */
  lemma SavedLastIsListedLast(s: Store, item: OutboxItem, now: Time, ids: seq<MessageId>)
    requires item.id !in s.outbox && forall id :: id in s.outbox ==> s.outbox[id].createdAt < now
    requires IsOutboxOrder(SaveOutbox(s, item, now).outbox, ids)
    ensures |ids| > 0 && ids[|ids| - 1] == item.id && SaveOutbox(s, item, now).outbox[item.id].item == item
  {
    var outbox := SaveOutbox(s, item, now).outbox;
    assert item.id in outbox && item.id in ids;
    var last := ids[|ids| - 1];
    assert last in ids && last in outbox;
    var i :| 0 <= i < |ids| && ids[i] == item.id;
    if i < |ids| - 1 {
      assert false;
    }
  }

  lemma {:induction false} LoggedAlways(ops: seq<Op>)
    ensures Logged(Run(ops))
  {
    if ops != [] {
      var before, last := ops[..|ops| - 1], ops[|ops| - 1];
      LoggedAlways(before);
      match last
      case Incoming(peer, id, text, session, at) => DeliverKeepsLog(Run(before), peer, id, text, session, at);
      case Outgoing(item, session, at) =>
        var s := Run(before);
        forall i, p | Copies(Apply(s, last).messages, i, p) > 0
          ensures i in s.processed
        {
          CopiesAppend(s.messages, [HistoryRow(item.peer, false, item.text, at, item.id)], i, p);
        }
      case Queue(_, _) =>
      case Pin(_, _) =>
    }
  }

  /**
   How many copies of a peer's message any run of the store leaves: one, if that peer was the first
   to use its id, and otherwise as many as were delivered.
   */
  lemma {:induction false} CopiesAfterRun(ops: seq<Op>, id: MessageId, peer: DeviceId)
    ensures Copies(Run(ops).messages, id, peer)
         == if FirstPeer(ops, id) == Some(peer) then 1 else Deliveries(ops, id, peer)
    ensures FirstPeer(ops, id) == if id in Run(ops).processed then Some(Run(ops).processed[id]) else None
    ensures FirstPeer(ops, id) == Some(peer) ==> Deliveries(ops, id, peer) > 0
    ensures Deliveries(ops, id, peer) > 0 ==> FirstPeer(ops, id).Some?
  {
    if ops != [] {
      var before, last := ops[..|ops| - 1], ops[|ops| - 1];
      CopiesAfterRun(before, id, peer);
      match last
      case Incoming(p, i, text, _, at) =>
        CopiesAppend(Run(before).messages, [HistoryRow(p, true, text, at, i)], id, peer);
      case Outgoing(item, _, at) =>
        CopiesAppend(Run(before).messages, [HistoryRow(item.peer, false, item.text, at, item.id)], id, peer);
      case Queue(_, _) =>
      case Pin(_, _) =>
    }
  }

  /** A run stores a message twice exactly if it is delivered twice and another peer used its id first. */
  lemma StoredTwiceIff(ops: seq<Op>, id: MessageId, peer: DeviceId)
    ensures Copies(Run(ops).messages, id, peer) > 1
            <==> Deliveries(ops, id, peer) > 1 && FirstPeer(ops, id) != Some(peer)
  {
    CopiesAfterRun(ops, id, peer);
  }

  /** In any run, the next delivery adds a second copy exactly if another peer used the id first. */
  lemma DuplicateInRunIff(ops: seq<Op>, peer: DeviceId, id: MessageId, text: string, session: SessionSnapshot, at: Time)
    requires Copies(Run(ops).messages, id, peer) > 0
    ensures Copies(Apply(Run(ops), Incoming(peer, id, text, session, at)).messages, id, peer)
            > Copies(Run(ops).messages, id, peer)
            <==> FirstPeer(ops, id) != Some(peer)
  {
    LoggedAlways(ops);
    DuplicateIff(Run(ops), peer, id, text, session, at);
    CopiesAfterRun(ops, id, peer);
  }

  /** And it does happen when two peers use one id: the second peer's message is stored on every delivery. */
  lemma SharedIdIsStoredTwice(alice: DeviceId, bob: DeviceId, id: MessageId, text: string, session: SessionSnapshot)
    requires alice != bob
    ensures var s1 := Deliver(EMPTY_STORE, alice, id, text, session, 0);
            var s2 := Deliver(s1, bob, id, text, session, 1);
            Copies(Deliver(s2, bob, id, text, session, 2).messages, id, bob) == 2
  {
    var s1 := Deliver(EMPTY_STORE, alice, id, text, session, 0);
    var s2 := Deliver(s1, bob, id, text, session, 1);
    CopiesAppend(s1.messages, [HistoryRow(bob, true, text, 1, id)], id, bob);
    CopiesAppend(s2.messages, [HistoryRow(bob, true, text, 2, id)], id, bob);
  }
}
