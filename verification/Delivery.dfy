/**
 Store-and-forward delivery from end to end: the clients' stores, the server's queue, and the
 steps of clients/upm-windows/src/app.rs (send_payload 702-760, retry_outbox 880-896,
 poll 898-1134) with a crash possible between any two of them.

 Cryptography is a free choice here: whether an envelope decrypts, and to what, is decided by
 the step, so what is proved holds whatever the sessions do.
 */
module Delivery {
  import opened Wrappers
  import opened ServerTables
  import LS = LocalStore
  import MQ = MessageQueue
  import SR = ServerRuns
  import Snapshot
  import Crypto

  datatype Pulled = Pulled(id: MessageId, sender: DeviceId)

  /** `confirmed`, `inbox` and `acks` are local variables of running calls: a crash loses them. */
  datatype Client = Client(store: LS.Store, confirmed: set<MessageId>, inbox: seq<Pulled>, acks: seq<MessageId>)

  datatype Sent = Sent(from: DeviceId, to: DeviceId)

  /** What has happened, for stating the theorems; no step reads it except to draw new ids. */
  datatype Log = Log(sent: map<MessageId, Sent>, accepted: set<MessageId>, expired: set<MessageId>,
                     removed: set<MessageId>)

  datatype World = World(t: Tables, clients: map<DeviceId, Client>, log: Log)

  datatype Outcome =
    | Skip(pins: map<DeviceId, Crypto.SigningKey>)                // could not be read or not be committed
    | Accept(text: string, session: Snapshot.SessionSnapshot, pins: map<DeviceId, Crypto.SigningKey>)

  datatype Step =
    | Compose(d: DeviceId, id: MessageId, to: DeviceId, ciphertext: Crypto.Bytes, text: string,
              session: Snapshot.SessionSnapshot)
    | Post(d: DeviceId, id: MessageId, answerSeen: bool)          // first attempt or retry
    | CommitSent(d: DeviceId, id: MessageId, session: Snapshot.SessionSnapshot)
    | Pull(d: DeviceId, ids: seq<MessageId>)
    | Handle(d: DeviceId, outcome: Outcome)                       // one turn of the poll loop
    | Acknowledge(d: DeviceId)
    | Crash(d: DeviceId)
    | Sweep
    | DeleteAccount(user: UserId)
    | Other(op: SR.Op)                                            // any operation that leaves the queue alone

  const CURRENT_VERSION: nat := MQ.CURRENT_VERSION

  function Request(item: LS.OutboxItem): MQ.SendRequest {
    MQ.SendRequest(item.envelope.version, item.envelope.id, item.envelope.recipient, item.envelope.ciphertext, None)
  }

  ghost predicate Possible(w: World, s: Step, at: Time) {
    match s
    case Compose(d, id, _, _, _, _) => d in w.clients && id !in w.log.sent
    case Post(d, id, _) => d in w.clients && id in w.clients[d].store.outbox
    case CommitSent(d, id, _) => d in w.clients && id in w.clients[d].confirmed && id in w.clients[d].store.outbox
    case Pull(d, ids) => d in w.clients && MQ.IsDelivery(MQ.PullSweep(w.t, at).envelopes, d, ids)
    case Handle(d, _) => d in w.clients && w.clients[d].inbox != []
    case Acknowledge(d) => d in w.clients && w.clients[d].inbox == []
    case Crash(d) => d in w.clients
    case Sweep => true
    case DeleteAccount(u) => u in w.t.users
    case Other(op) => !SR.TouchesQueue(op) && SR.Enabled(w.t, op)
  }

  function HandleItem(c: Client, o: Outcome, at: Time): Client
    requires c.inbox != []
  {
    var item, c' := c.inbox[0], c.(inbox := c.inbox[1..]);
    if LS.IsProcessed(c.store, item.id, item.sender) then c'.(acks := c.acks + [item.id])
    else
      match o
      case Skip(pins) => c'.(store := c.store.(pins := pins))
      case Accept(text, session, pins) =>
        c'.(store := LS.CommitIncoming(c.store, item.sender, item.id, text, session, at).(pins := pins),
            acks := c.acks + [item.id])
  }

  ghost function Take(w: World, s: Step, at: Time): World
    requires Possible(w, s, at)
  {
    match s
    case Compose(d, id, to, ciphertext, text, session) =>
      var item := LS.OutboxItem(id, to, LS.OutgoingEnvelope(id, CURRENT_VERSION, d, to, ciphertext), session, text);
      w.(clients := w.clients[d := w.clients[d].(store := LS.SaveOutbox(w.clients[d].store, item, at))],
         log := w.log.(sent := w.log.sent[id := Sent(d, to)]))
    case Post(d, id, seen) =>
      var c := w.clients[d];
      var (t', r) := MQ.Send(w.t, d, Request(c.store.outbox[id].item), at);
      w.(t := t',
         clients := w.clients[d := if r.Success? && seen then c.(confirmed := c.confirmed + {id}) else c],
         log := if r.Success? then w.log.(accepted := w.log.accepted + {id}) else w.log)
    case CommitSent(d, id, session) =>
      var c := w.clients[d];
      w.(clients := w.clients[d := c.(store := LS.CommitOutgoing(c.store, c.store.outbox[id].item, session, at),
                                      confirmed := c.confirmed - {id})])
    case Pull(d, ids) =>
      var t' := MQ.PullSweep(w.t, at);
      w.(t := t',
         clients := w.clients[d := w.clients[d].(inbox := Items(t'.envelopes, ids), acks := [])],
         log := w.log.(expired := w.log.expired + MQ.Expired(w.t.envelopes, at)))
    case Handle(d, o) => w.(clients := w.clients[d := HandleItem(w.clients[d], o, at)])
    case Acknowledge(d) =>
      w.(t := MQ.Ack(w.t, d, w.clients[d].acks).0, clients := w.clients[d := w.clients[d].(acks := [])])
    case Crash(d) =>
      w.(clients := w.clients[d := w.clients[d].(confirmed := {}, inbox := [], acks := [])])
    case Sweep =>
      w.(t := SR.Apply(w.t, SR.Event(at, SR.Reap)),
         log := w.log.(expired := w.log.expired + SR.Dropped(w.t, SR.Event(at, SR.Reap))))
    case DeleteAccount(u) =>
      w.(t := SR.Apply(w.t, SR.Event(at, SR.AdminDelete(u))),
         log := w.log.(removed := w.log.removed + SR.Dropped(w.t, SR.Event(at, SR.AdminDelete(u)))))
    case Other(op) => w.(t := SR.Apply(w.t, SR.Event(at, op)))
  }

  function Items(q: MQ.Queue, ids: seq<MessageId>): seq<Pulled> {
    seq(|ids|, i requires 0 <= i < |ids| => Pulled(ids[i], if ids[i] in q then q[ids[i]].sender else 0))
  }

  /** What a step is for the server, if it is anything for it. */
  function ServerOp(w: World, s: Step): Option<SR.Op> {
    match s
    case Post(d, id, _) =>
      if d in w.clients && id in w.clients[d].store.outbox then
        Some(SR.Send(d, Request(w.clients[d].store.outbox[id].item)))
      else None
    case Pull(d, _) => Some(SR.Pull(d))
    case Acknowledge(d) => if d in w.clients then Some(SR.Ack(d, w.clients[d].acks)) else None
    case Sweep => Some(SR.Reap)
    case DeleteAccount(u) => Some(SR.AdminDelete(u))
    case Other(op) => Some(op)
    case _ => None
  }

  /** Seen from the server the protocol is a run of its operations; all other steps leave the tables alone. */
  lemma StepIsServerOp(w: World, s: Step, at: Time)
    requires Possible(w, s, at)
    ensures var op := ServerOp(w, s);
            Take(w, s, at).t == if op.Some? then SR.Apply(w.t, SR.Event(at, op.value)) else w.t
    ensures ServerOp(w, s).Some? ==> SR.Enabled(w.t, ServerOp(w, s).value)
  {
  }

  /** A crash loses what a client had in hand, and nothing that is stored; an acknowledgement is sent once. */
  lemma CrashLosesWhatIsInHand(w: World, d: DeviceId, at: Time)
    requires d in w.clients
    ensures Take(w, Crash(d), at) == w.(clients := w.clients[d := Client(w.clients[d].store, {}, [], [])])
    ensures w.clients[d].inbox == [] ==> Take(w, Acknowledge(d), at).clients[d] == w.clients[d].(acks := [])
  {
  }

  // ---- invariants -------------------------------------------------------------------------------

  predicate WasSent(l: Log, id: MessageId, from: DeviceId, to: DeviceId) {
    id in l.sent && l.sent[id] == Sent(from, to)
  }

  ghost predicate QueueGenuine(l: Log, q: MQ.Queue) {
    forall m :: m in q ==> WasSent(l, m, q[m].sender, q[m].recipient)
  }

  function OutCopies(rows: seq<LS.HistoryRow>, id: MessageId): nat {
    if rows == [] then 0
    else (if !rows[0].incoming && rows[0].origin == id then 1 else 0) + OutCopies(rows[1..], id)
  }

  lemma {:induction false} OutCopiesAppend(a: seq<LS.HistoryRow>, b: seq<LS.HistoryRow>, id: MessageId)
    ensures OutCopies(a + b, id) == OutCopies(a, id) + OutCopies(b, id)
  {
    if a == [] {
      assert a + b == b;
    } else {
      OutCopiesAppend(a[1..], b, id);
      assert (a + b)[1..] == a[1..] + b;
    }
  }

  /** The history holds exactly the processed messages, once each, and all were sent to `d`. */
  ghost predicate InboundOnce(l: Log, d: DeviceId, s: LS.Store) {
    && (forall id :: id in s.processed ==> WasSent(l, id, s.processed[id], d))
    && (forall id, peer :: LS.Copies(s.messages, id, peer) == if LS.IsProcessed(s, id, peer) then 1 else 0)
  }

  /** A message of `d` is in its outbox or in its history, in one place and once. */
  ghost predicate OutboundOnce(l: Log, d: DeviceId, s: LS.Store) {
    forall id ::
      OutCopies(s.messages, id) + (if id in s.outbox then 1 else 0)
      == if id in l.sent && l.sent[id].from == d then 1 else 0
  }

  ghost predicate OutboxGenuine(l: Log, d: DeviceId, s: LS.Store) {
    forall id :: id in s.outbox ==>
      var item := s.outbox[id].item;
      item.id == id && item.envelope.id == id && WasSent(l, id, d, item.envelope.recipient)
  }

  ghost predicate ShownAreAccepted(l: Log, c: Client) {
    && c.confirmed <= l.accepted
    && forall id :: OutCopies(c.store.messages, id) > 0 ==> id in l.accepted
  }

  ghost predicate VolatileGenuine(l: Log, d: DeviceId, c: Client) {
    && (forall i :: 0 <= i < |c.inbox| ==> WasSent(l, c.inbox[i].id, c.inbox[i].sender, d))
    && (forall id :: id in c.acks ==> id in c.store.processed)
  }

  ghost predicate ClientInv(l: Log, d: DeviceId, c: Client) {
    && InboundOnce(l, d, c.store)
    && OutboundOnce(l, d, c.store)
    && OutboxGenuine(l, d, c.store)
    && ShownAreAccepted(l, c)
    && VolatileGenuine(l, d, c)
  }

  predicate Committed(w: World, id: MessageId) {
    && id in w.log.sent && w.log.sent[id].to in w.clients
    && id in w.clients[w.log.sent[id].to].store.processed
  }

  predicate AccountedFor(w: World, id: MessageId) {
    id in w.t.envelopes || Committed(w, id) || id in w.log.expired || id in w.log.removed
  }

  ghost predicate Inv(w: World) {
    && QueueGenuine(w.log, w.t.envelopes)
    && (forall d :: d in w.clients ==> ClientInv(w.log, d, w.clients[d]))
    && (forall id :: id in w.log.accepted ==> AccountedFor(w, id))
  }

  // ---- what each step keeps ------------------------------------------------------------------------

  /** A client that is not touched keeps its invariant while the log grows. */
  lemma LogGrows(l: Log, l': Log, d: DeviceId, c: Client)
    requires ClientInv(l, d, c)
    requires forall id :: id in l.sent ==> id in l'.sent && l'.sent[id] == l.sent[id]
    requires forall id :: id in l'.sent && id !in l.sent ==> l'.sent[id].from != d
    requires l.accepted <= l'.accepted
    ensures ClientInv(l', d, c)
  {
  }

  lemma ComposeKeeps(w: World, s: Step, at: Time)
    requires Inv(w) && Possible(w, s, at) && s.Compose?
    ensures Inv(Take(w, s, at))
  {
    hide ClientInv;
    var w' := Take(w, s, at);
    forall d | d in w'.clients
      ensures ClientInv(w'.log, d, w'.clients[d])
    {
      if d == s.d {
        var item := LS.OutboxItem(s.id, s.to, LS.OutgoingEnvelope(s.id, CURRENT_VERSION, s.d, s.to, s.ciphertext),
                                  s.session, s.text);
        ComposedClient(w.log, s.d, w.clients[s.d], item, at);
      } else {
        LogGrows(w.log, w'.log, d, w.clients[d]);
      }
    }
    forall id | id in w'.log.accepted
      ensures AccountedFor(w', id)
    {
      assert AccountedFor(w, id);
    }
  }

  lemma ComposedClient(l: Log, d: DeviceId, c: Client, item: LS.OutboxItem, at: Time)
    requires ClientInv(l, d, c) && item.id !in l.sent && item.envelope.id == item.id
    ensures ClientInv(l.(sent := l.sent[item.id := Sent(d, item.envelope.recipient)]), d,
                      c.(store := LS.SaveOutbox(c.store, item, at)))
  {
  }

  lemma PostKeeps(w: World, s: Step, at: Time)
    requires Inv(w) && Possible(w, s, at) && s.Post?
    ensures Inv(Take(w, s, at))
  {
    hide ClientInv, MQ.Send, QueueGenuine;
    var w' := Take(w, s, at);
    assert ClientInv(w.log, s.d, w.clients[s.d]);
    Genuine(w.log, s.d, w.clients[s.d], s.id);
    SendKeepsGenuine(w.log, w'.log, w.t, s.d, Request(w.clients[s.d].store.outbox[s.id].item), at);
    forall d | d in w'.clients
      ensures ClientInv(w'.log, d, w'.clients[d])
    {
      LogGrows(w.log, w'.log, d, w.clients[d]);
      if d == s.d {
        Confirmed(w'.log, d, w.clients[d], s.id);
      }
    }
    forall id | id in w'.log.accepted
      ensures AccountedFor(w', id)
    {
      if id in w.log.accepted {
        assert AccountedFor(w, id);
      }
    }
  }

  lemma Confirmed(l: Log, d: DeviceId, c: Client, id: MessageId)
    requires ClientInv(l, d, c)
    ensures id in l.accepted ==> ClientInv(l, d, c.(confirmed := c.confirmed + {id}))
  {
  }

  lemma Genuine(l: Log, d: DeviceId, c: Client, id: MessageId)
    requires ClientInv(l, d, c) && id in c.store.outbox
    ensures var r := Request(c.store.outbox[id].item); r.id == id && WasSent(l, id, d, r.recipient)
  {
  }

  lemma SendKeepsGenuine(l: Log, l': Log, t: Tables, d: DeviceId, r: MQ.SendRequest, at: Time)
    requires QueueGenuine(l, t.envelopes) && WasSent(l, r.id, d, r.recipient) && l'.sent == l.sent
    ensures QueueGenuine(l', MQ.Send(t, d, r, at).0.envelopes)
    ensures forall m :: m in t.envelopes ==> m in MQ.Send(t, d, r, at).0.envelopes
    ensures MQ.Send(t, d, r, at).1.Success? ==> r.id in MQ.Send(t, d, r, at).0.envelopes
  {
  }

  lemma CommitSentKeeps(w: World, s: Step, at: Time)
    requires Inv(w) && Possible(w, s, at) && s.CommitSent?
    ensures Inv(Take(w, s, at))
  {
    hide ClientInv;
    var w' := Take(w, s, at);
    SentClient(w.log, s.d, w.clients[s.d], s.id, s.session, at);
    StoreStepKeeps(w, w', s.d);
  }

  lemma SentClient(l: Log, d: DeviceId, c: Client, id: MessageId, session: Snapshot.SessionSnapshot, at: Time)
    requires ClientInv(l, d, c) && id in c.confirmed && id in c.store.outbox
    ensures ClientInv(l, d, c.(store := LS.CommitOutgoing(c.store, c.store.outbox[id].item, session, at),
                               confirmed := c.confirmed - {id}))
  {
    var item := c.store.outbox[id].item;
    var s' := LS.CommitOutgoing(c.store, item, session, at);
    var row := LS.HistoryRow(item.peer, false, item.text, at, id);
    assert s'.messages == c.store.messages + [row];
    forall i
      ensures OutCopies(s'.messages, i) == OutCopies(c.store.messages, i) + if i == id then 1 else 0
    {
      OutCopiesAppend(c.store.messages, [row], i);
    }
    forall i, peer
      ensures LS.Copies(s'.messages, i, peer) == LS.Copies(c.store.messages, i, peer)
    {
      LS.CopiesAppend(c.store.messages, [row], i, peer);
    }
    assert InboundOnce(l, d, s') && OutboundOnce(l, d, s') && OutboxGenuine(l, d, s');
  }

  /** A step of one client alone that forgets no processed message keeps what concerns the others. */
  lemma StoreStepKeeps(w: World, w': World, d: DeviceId)
    requires Inv(w) && d in w.clients && d in w'.clients && w'.t == w.t && w'.log == w.log
    requires w'.clients == w.clients[d := w'.clients[d]] && ClientInv(w.log, d, w'.clients[d])
    requires w.clients[d].store.processed.Keys <= w'.clients[d].store.processed.Keys
    ensures Inv(w')
  {
    hide ClientInv, QueueGenuine;
    forall id | id in w'.log.accepted
      ensures AccountedFor(w', id)
    {
      assert AccountedFor(w, id);
    }
  }

  lemma HandleKeeps(w: World, s: Step, at: Time)
    requires Inv(w) && Possible(w, s, at) && s.Handle?
    ensures Inv(Take(w, s, at))
  {
    var w' := Take(w, s, at);
    HandledClient(w.log, s.d, w.clients[s.d], s.outcome, at);
    StoreStepKeeps(w, w', s.d);
  }

  lemma HandledClient(l: Log, d: DeviceId, c: Client, o: Outcome, at: Time)
    requires ClientInv(l, d, c) && c.inbox != []
    ensures ClientInv(l, d, HandleItem(c, o, at))
    ensures c.store.processed.Keys <= HandleItem(c, o, at).store.processed.Keys
  {
    var item, c' := c.inbox[0], HandleItem(c, o, at);
    assert WasSent(l, item.id, item.sender, d);
    assert forall i :: 0 <= i < |c'.inbox| ==> c'.inbox[i] == c.inbox[i + 1];
    if c'.store.messages != c.store.messages {
      AcceptedClient(l, d, c, o, at);
    }
  }

  lemma AcceptedClient(l: Log, d: DeviceId, c: Client, o: Outcome, at: Time)
    requires ClientInv(l, d, c) && c.inbox != [] && o.Accept?
    requires WasSent(l, c.inbox[0].id, c.inbox[0].sender, d)
    requires !LS.IsProcessed(c.store, c.inbox[0].id, c.inbox[0].sender)
    ensures InboundOnce(l, d, HandleItem(c, o, at).store)
    ensures OutboundOnce(l, d, HandleItem(c, o, at).store)
    ensures forall id :: OutCopies(HandleItem(c, o, at).store.messages, id) == OutCopies(c.store.messages, id)
  {
    var item, c' := c.inbox[0], HandleItem(c, o, at);
    var row := LS.HistoryRow(item.sender, true, o.text, at, item.id);
    assert c'.store.messages == c.store.messages + [row];
    assert item.id !in c.store.processed;
    forall id
      ensures OutCopies(c'.store.messages, id) == OutCopies(c.store.messages, id)
    {
      OutCopiesAppend(c.store.messages, [row], id);
    }
    forall id, peer
      ensures LS.Copies(c'.store.messages, id, peer) == if LS.IsProcessed(c'.store, id, peer) then 1 else 0
    {
      LS.CopiesAppend(c.store.messages, [row], id, peer);
    }
  }

  lemma PullKeeps(w: World, s: Step, at: Time)
    requires Inv(w) && Possible(w, s, at) && s.Pull?
    ensures Inv(Take(w, s, at))
  {
    var w' := Take(w, s, at);
    var c := w'.clients[s.d];
    assert ClientInv(w.log, s.d, w.clients[s.d]);
    forall i | 0 <= i < |c.inbox|
      ensures WasSent(w'.log, c.inbox[i].id, c.inbox[i].sender, s.d)
    {
      assert s.ids[i] in s.ids;
      assert s.ids[i] in MQ.AddressedTo(w'.t.envelopes, s.d);
      assert w'.t.envelopes[s.ids[i]] == w.t.envelopes[s.ids[i]];
    }
    forall d | d in w'.clients
      ensures ClientInv(w'.log, d, w'.clients[d])
    {
      LogGrows(w.log, w'.log, d, w.clients[d]);
    }
    QueueShrinks(w, w');
  }

  /** Rows may leave the queue if the log says why. */
  lemma QueueShrinks(w: World, w': World)
    requires Inv(w)
    requires forall m :: m in w'.t.envelopes ==> m in w.t.envelopes && w'.t.envelopes[m] == w.t.envelopes[m]
    requires w'.log.sent == w.log.sent && w'.log.accepted == w.log.accepted
    requires w.log.expired <= w'.log.expired && w.log.removed <= w'.log.removed
    requires forall m :: m in w.t.envelopes && m !in w'.t.envelopes ==>
               m in w'.log.expired || m in w'.log.removed || Committed(w', m)
    requires forall d :: d in w.clients ==> d in w'.clients && w'.clients[d].store == w.clients[d].store
    ensures QueueGenuine(w'.log, w'.t.envelopes)
    ensures forall id :: id in w'.log.accepted ==> AccountedFor(w', id)
  {
  }

  lemma AcknowledgeKeeps(w: World, s: Step, at: Time)
    requires Inv(w) && Possible(w, s, at) && s.Acknowledge?
    ensures Inv(Take(w, s, at))
  {
  }

  lemma CrashKeeps(w: World, s: Step, at: Time)
    requires Inv(w) && Possible(w, s, at) && s.Crash?
    ensures Inv(Take(w, s, at))
  {
    assert ClientInv(w.log, s.d, w.clients[s.d]);
    StoreStepKeeps(w, Take(w, s, at), s.d);
  }

  lemma ServerKeeps(w: World, s: Step, at: Time)
    requires Inv(w) && Possible(w, s, at) && (s.Sweep? || s.DeleteAccount? || s.Other?)
    ensures Inv(Take(w, s, at))
  {
    hide SR.Apply;
    var w' := Take(w, s, at);
    var e := SR.Event(at, if s.Sweep? then SR.Reap else if s.DeleteAccount? then SR.AdminDelete(s.user) else s.op);
    if s.Other? {
      SR.Frame(w.t, e);
    } else {
      SR.Departures(w.t, e);
    }
    forall d | d in w'.clients
      ensures ClientInv(w'.log, d, w'.clients[d])
    {
      LogGrows(w.log, w'.log, d, w.clients[d]);
    }
    QueueShrinks(w, w');
  }

  lemma StepKeepsInv(w: World, s: Step, at: Time)
    requires Inv(w) && Possible(w, s, at)
    ensures Inv(Take(w, s, at))
  {
    hide Inv, Take;
    match s
    case Compose(_, _, _, _, _, _) => ComposeKeeps(w, s, at);
    case Post(_, _, _) => PostKeeps(w, s, at);
    case CommitSent(_, _, _) => CommitSentKeeps(w, s, at);
    case Pull(_, _) => PullKeeps(w, s, at);
    case Handle(_, _) => HandleKeeps(w, s, at);
    case Acknowledge(_) => AcknowledgeKeeps(w, s, at);
    case Crash(_) => CrashKeeps(w, s, at);
    case Sweep => ServerKeeps(w, s, at);
    case DeleteAccount(_) => ServerKeeps(w, s, at);
    case Other(_) => ServerKeeps(w, s, at);
  }

  // ---- runs -------------------------------------------------------------------------------------------

  datatype Move = Move(at: Time, step: Step)

  /** A server without mail, and clients with empty stores and no calls under way. */
  ghost predicate Initial(w: World) {
    && w.t.envelopes == map[] && w.log == Log(map[], {}, {}, {})
    && forall d :: d in w.clients ==> w.clients[d] == Client(LS.EMPTY_STORE, {}, [], [])
  }

  ghost predicate Reaches(moves: seq<Move>, w: World)
    decreases |moves|
  {
    if moves == [] then Initial(w)
    else
      var last := moves[|moves| - 1];
      exists v ::
        Reaches(moves[..|moves| - 1], v) && Possible(v, last.step, last.at) && w == Take(v, last.step, last.at)
  }

  lemma {:induction false} InvAlways(moves: seq<Move>, w: World)
    requires Reaches(moves, w)
    ensures Inv(w)
    decreases |moves|
  {
    if moves != [] {
      hide Inv, Possible, Take;
      var last := moves[|moves| - 1];
      var v :| Reaches(moves[..|moves| - 1], v) && Possible(v, last.step, last.at) && w == Take(v, last.step, last.at);
      InvAlways(moves[..|moves| - 1], v);
      StepKeepsInv(v, last.step, last.at);
    }
  }

  /**
   Whatever is resent, redelivered or lost in a crash, a message enters its recipient's history
   at most once, and only the recipient's, and only as coming from its sender.
   */
  lemma StoredAtMostOnce(moves: seq<Move>, w: World, d: DeviceId, id: MessageId, peer: DeviceId)
    requires Reaches(moves, w) && d in w.clients
    ensures LS.Copies(w.clients[d].store.messages, id, peer) <= 1
    ensures LS.Copies(w.clients[d].store.messages, id, peer) == 1 ==> WasSent(w.log, id, peer, d)
  {
    InvAlways(moves, w);
    assert ClientInv(w.log, d, w.clients[d]);
  }

  /** The server gives an accepted envelope up only once it is committed, expired, or an account was deleted. */
  lemma ServerKeepsUntilCommitted(moves: seq<Move>, w: World, id: MessageId)
    requires Reaches(moves, w) && id in w.log.accepted && id !in w.t.envelopes
    requires id !in w.log.expired && id !in w.log.removed
    ensures id in w.log.sent && w.log.sent[id].to in w.clients
    ensures var s := w.log.sent[id]; LS.Copies(w.clients[s.to].store.messages, id, s.from) == 1
  {
    InvAlways(moves, w);
    assert AccountedFor(w, id);
    var s := w.log.sent[id];
    assert ClientInv(w.log, s.to, w.clients[s.to]);
  }

  /**
   The sender's side: a composed message is either still in the outbox or, once, in the history;
   and it is shown as sent only after the server accepted it.
   */
  lemma ComposedIsKept(moves: seq<Move>, w: World, d: DeviceId, id: MessageId)
    requires Reaches(moves, w) && d in w.clients && id in w.log.sent && w.log.sent[id].from == d
    ensures id in w.clients[d].store.outbox <==> OutCopies(w.clients[d].store.messages, id) == 0
    ensures OutCopies(w.clients[d].store.messages, id) <= 1
    ensures OutCopies(w.clients[d].store.messages, id) == 1 ==> id in w.log.accepted
  {
    InvAlways(moves, w);
    assert ClientInv(w.log, d, w.clients[d]);
  }

  // ---- it does arrive ------------------------------------------------------------------------------------

  /** What the steps of others leave alone: the outboxes and the logs of processed messages, and who wrote what. */
  ghost predicate SameStores(w: World, w': World) {
    && w'.clients.Keys == w.clients.Keys && w'.log.sent == w.log.sent
    && forall x :: x in w.clients ==>
         && w'.clients[x].store.processed == w.clients[x].store.processed
         && w'.clients[x].store.outbox == w.clients[x].store.outbox
  }

  lemma ComposeEffect(w: World, s: Step, at: Time)
    requires s.Compose? && Possible(w, s, at)
    ensures var w' := Take(w, s, at);
            && w'.t == w.t && w'.clients.Keys == w.clients.Keys && WasSent(w'.log, s.id, s.d, s.to)
            && s.id in w'.clients[s.d].store.outbox
            && Request(w'.clients[s.d].store.outbox[s.id].item)
               == MQ.SendRequest(CURRENT_VERSION, s.id, s.to, s.ciphertext, None)
            && forall x :: x in w.clients ==> w'.clients[x].store.processed == w.clients[x].store.processed
  {
  }

  /** The message is on the server for `to` and has not expired. */
  predicate Waiting(w: World, d: DeviceId, to: DeviceId, id: MessageId, at: Time) {
    && id in w.t.envelopes && w.t.envelopes[id].sender == d && w.t.envelopes[id].recipient == to
    && w.t.envelopes[id].expiresAt > at
  }

  ghost predicate HasRoom(t: Tables, to: DeviceId) {
    |t.envelopes| < MQ.GLOBAL_QUEUE_LIMIT && |MQ.AddressedTo(t.envelopes, to)| < MQ.DEVICE_QUEUE_LIMIT
  }

  lemma PostEffect(w: World, d: DeviceId, id: MessageId, at: Time)
    requires Possible(w, Post(d, id, true), at) && References(w.t) && d in w.t.devices
    requires var r := Request(w.clients[d].store.outbox[id].item);
             && r.id == id && r.version == CURRENT_VERSION && r.ttl == None && r.recipient in w.t.devices
             && id !in w.t.envelopes && HasRoom(w.t, r.recipient)
    ensures var w' := Take(w, Post(d, id, true), at);
            && SameStores(w, w') && id in w'.clients[d].confirmed
            && Waiting(w', d, Request(w.clients[d].store.outbox[id].item).recipient, id, at)
            && w'.t.envelopes[id].ciphertext == Request(w.clients[d].store.outbox[id].item).ciphertext
  {
    hide MQ.Send, MQ.AddressedTo;
    MQ.RefusedExactlyWhenFull(w.t, d, Request(w.clients[d].store.outbox[id].item), at);
  }

  lemma CommitEffect(w: World, d: DeviceId, id: MessageId, session: Snapshot.SessionSnapshot, at: Time)
    requires Possible(w, CommitSent(d, id, session), at) && w.clients[d].store.outbox[id].item.id == id
    ensures var w' := Take(w, CommitSent(d, id, session), at);
            && w'.t == w.t && w'.log == w.log && w'.clients.Keys == w.clients.Keys
            && id !in w'.clients[d].store.outbox
            && forall x :: x in w.clients ==> w'.clients[x].store.processed == w.clients[x].store.processed
  {
  }

  lemma ItemIsItsId(w: World, d: DeviceId, id: MessageId)
    requires Inv(w) && d in w.clients && id in w.clients[d].store.outbox
    ensures w.clients[d].store.outbox[id].item.id == id
  {
    assert ClientInv(w.log, d, w.clients[d]);
  }

  lemma PullEffect(w: World, d: DeviceId, to: DeviceId, id: MessageId, ids: seq<MessageId>, outcomes: seq<Outcome>,
                   at: Time)
    requires Possible(w, Pull(to, ids), at) && Waiting(w, d, to, id, at) && IsAccepted(id, ids, outcomes)
    requires WasSent(w.log, id, d, to) && d in w.clients && id !in w.clients[d].store.outbox
    ensures var w' := Take(w, Pull(to, ids), at);
            && Waiting(w', d, to, id, at) && WasSent(w'.log, id, d, to)
            && d in w'.clients && id !in w'.clients[d].store.outbox
            && WillAcknowledge(w', d, to, id, outcomes)
  {
    var q, w' := MQ.PullSweep(w.t, at).envelopes, Take(w, Pull(to, ids), at);
    assert id in MQ.AddressedTo(q, to) && id in ids;
    var i :| 0 <= i < |ids| && ids[i] == id;
    assert w'.clients[to].inbox[i] == Pulled(id, d) && outcomes[i].Accept?;
  }

  function Handles(to: DeviceId, outcomes: seq<Outcome>): seq<Step> {
    seq(|outcomes|, i requires 0 <= i < |outcomes| => Handle(to, outcomes[i]))
  }

  /** `to` has the message in its history and is about to acknowledge it, or will accept it later in its inbox. */
  ghost predicate WillAcknowledge(w: World, d: DeviceId, to: DeviceId, id: MessageId, outcomes: seq<Outcome>) {
    && to in w.clients && |w.clients[to].inbox| == |outcomes|
    && var c := w.clients[to];
       || (id in c.store.processed && id in c.acks)
       || exists i :: 0 <= i < |outcomes| && c.inbox[i] == Pulled(id, d) && outcomes[i].Accept?
  }

  lemma HandleEffect(w: World, d: DeviceId, to: DeviceId, id: MessageId, outcomes: seq<Outcome>, at: Time)
    requires outcomes != [] && WillAcknowledge(w, d, to, id, outcomes)
    requires d in w.clients && id !in w.clients[d].store.outbox
    ensures Possible(w, Handle(to, outcomes[0]), at)
    ensures var w' := Take(w, Handle(to, outcomes[0]), at);
            && w'.t == w.t && w'.log == w.log && WillAcknowledge(w', d, to, id, outcomes[1..])
            && d in w'.clients && id !in w'.clients[d].store.outbox
  {
    var c, c' := w.clients[to], Take(w, Handle(to, outcomes[0]), at).clients[to];
    if !(id in c.store.processed && id in c.acks) {
      var i :| 0 <= i < |outcomes| && c.inbox[i] == Pulled(id, d) && outcomes[i].Accept?;
      if i > 0 {
        assert c'.inbox[i - 1] == Pulled(id, d) && outcomes[1..][i - 1] == outcomes[i];
      }
    }
  }

  /** The poll loop reads its whole inbox, whatever becomes of the other items. */
  lemma {:induction false} HandlesEffect(w: World, steps: seq<Step>, v: World, d: DeviceId, to: DeviceId, id: MessageId,
                                         outcomes: seq<Outcome>, at: Time) returns (w': World)
    requires RunFrom(w, steps, at, v) && Inv(v) && WillAcknowledge(v, d, to, id, outcomes)
    requires d in v.clients && id !in v.clients[d].store.outbox
    ensures RunFrom(w, steps + Handles(to, outcomes), at, w') && Inv(w')
    ensures w'.t == v.t && w'.log == v.log && WillAcknowledge(w', d, to, id, [])
    ensures d in w'.clients && id !in w'.clients[d].store.outbox
    decreases |outcomes|
  {
    hide *;
    if outcomes == [] {
      NoHandles(steps, to);
      w' := v;
    } else {
      var step := Handle(to, outcomes[0]);
      HandleEffect(v, d, to, id, outcomes, at);
      HandleKeeps(v, step, at);
      RunOn(w, steps, at, v, step);
      w' := HandlesEffect(w, steps + [step], Take(v, step, at), d, to, id, outcomes[1..], at);
      FirstHandle(steps, to, outcomes);
    }
  }

  lemma NoHandles(steps: seq<Step>, to: DeviceId)
    ensures steps + Handles(to, []) == steps
  {
  }

  lemma FirstHandle(steps: seq<Step>, to: DeviceId, outcomes: seq<Outcome>)
    requires outcomes != []
    ensures steps + [Handle(to, outcomes[0])] + Handles(to, outcomes[1..]) == steps + Handles(to, outcomes)
  {
  }

  lemma AckEffect(w: World, d: DeviceId, to: DeviceId, id: MessageId, at: Time)
    requires WillAcknowledge(w, d, to, id, []) && Waiting(w, d, to, id, at)
    requires d in w.clients && id !in w.clients[d].store.outbox
    ensures Possible(w, Acknowledge(to), at)
    ensures var w' := Take(w, Acknowledge(to), at);
            && id !in w'.t.envelopes && w'.log == w.log && d in w'.clients && to in w'.clients
            && id !in w'.clients[d].store.outbox && id in w'.clients[to].store.processed
  {
  }

  /** In a consistent world an item that left the outbox and was processed is in both histories, once. */
  lemma BothHistories(w: World, d: DeviceId, to: DeviceId, id: MessageId)
    requires Inv(w) && WasSent(w.log, id, d, to) && d in w.clients && to in w.clients
    requires id !in w.clients[d].store.outbox && id in w.clients[to].store.processed
    ensures OutCopies(w.clients[d].store.messages, id) == 1
    ensures LS.Copies(w.clients[to].store.messages, id, d) == 1
  {
    assert ClientInv(w.log, d, w.clients[d]) && ClientInv(w.log, to, w.clients[to]);
  }

  /** A new id is nowhere yet. */
  lemma NewIdIsNowhere(w: World, to: DeviceId, id: MessageId)
    requires Inv(w) && to in w.clients && id !in w.log.sent
    ensures id !in w.t.envelopes && id !in w.clients[to].store.processed
  {
    assert ClientInv(w.log, to, w.clients[to]);
  }

  ghost predicate RunFrom(w: World, steps: seq<Step>, at: Time, w': World)
    decreases |steps|
  {
    if steps == [] then w' == w
    else Possible(w, steps[0], at) && RunFrom(Take(w, steps[0], at), steps[1..], at, w')
  }

  lemma NoSteps(w: World, at: Time)
    ensures RunFrom(w, [], at, w)
  {
  }

  /** One step more. */
  lemma {:induction false} RunOn(w: World, steps: seq<Step>, at: Time, v: World, s: Step)
    requires RunFrom(w, steps, at, v) && Possible(v, s, at)
    ensures RunFrom(w, steps + [s], at, Take(v, s, at))
    decreases |steps|
  {
    if steps == [] {
      assert ([] + [s])[1..] == [];
    } else {
      RunOn(Take(w, steps[0], at), steps[1..], at, v, s);
      assert (steps + [s])[1..] == steps[1..] + [s];
    }
  }

  /** `s` composes a message for `s.to`, and the server has room for it. */
  ghost predicate Ready(w: World, s: Step, at: Time) {
    && s.Compose? && Possible(w, s, at) && Inv(w) && References(w.t)
    && s.to in w.clients && s.d in w.t.devices && s.to in w.t.devices && HasRoom(w.t, s.to)
  }

  lemma ComposeAndPost(w: World, s: Step, at: Time) returns (w': World)
    requires s.Compose? && Ready(w, s, at)
    ensures RunFrom(w, [] + [s] + [Post(s.d, s.id, true)], at, w') && Inv(w')
    ensures WasSent(w'.log, s.id, s.d, s.to) && s.d in w'.clients && s.to in w'.clients
    ensures s.id in w'.clients[s.d].confirmed && s.id in w'.clients[s.d].store.outbox
    ensures Waiting(w', s.d, s.to, s.id, at) && s.id !in w'.clients[s.to].store.processed
    ensures w'.t.envelopes[s.id].ciphertext == s.ciphertext
  {
    hide Inv, Take, RunFrom, HasRoom, References;
    NewIdIsNowhere(w, s.to, s.id);
    ComposeEffect(w, s, at);
    ComposeKeeps(w, s, at);
    var w1 := Take(w, s, at);
    PostEffect(w1, s.d, s.id, at);
    PostKeeps(w1, Post(s.d, s.id, true), at);
    w' := Take(w1, Post(s.d, s.id, true), at);
    NoSteps(w, at);
    RunOn(w, [], at, w, s);
    RunOn(w, [] + [s], at, w1, Post(s.d, s.id, true));
  }

  function Sending(s: Step, session: Snapshot.SessionSnapshot): seq<Step>
    requires s.Compose?
  {
    [s, Post(s.d, s.id, true), CommitSent(s.d, s.id, session)]
  }

  /** Composed, posted and committed: the message waits on the server and has left the outbox. */
  lemma SendHalf(w: World, s: Step, session: Snapshot.SessionSnapshot, at: Time) returns (w': World)
    requires s.Compose? && Ready(w, s, at)
    ensures RunFrom(w, Sending(s, session), at, w') && Inv(w')
    ensures WasSent(w'.log, s.id, s.d, s.to) && s.d in w'.clients && s.to in w'.clients
    ensures s.id !in w'.clients[s.d].store.outbox && s.id !in w'.clients[s.to].store.processed
    ensures Waiting(w', s.d, s.to, s.id, at) && w'.t.envelopes[s.id].ciphertext == s.ciphertext
  {
    hide Inv, Ready, RunFrom, Take;
    var w2 := ComposeAndPost(w, s, at);
    ItemIsItsId(w2, s.d, s.id);
    CommitEffect(w2, s.d, s.id, session, at);
    CommitSentKeeps(w2, CommitSent(s.d, s.id, session), at);
    w' := Take(w2, CommitSent(s.d, s.id, session), at);
    RunOn(w, [] + [s] + [Post(s.d, s.id, true)], at, w2, CommitSent(s.d, s.id, session));
    assert [] + [s] + [Post(s.d, s.id, true)] + [CommitSent(s.d, s.id, session)] == Sending(s, session);
  }

  /**
   If nothing interferes, a message composed while the server has room is, once its recipient has
   pulled and read its whole queue, in both histories once, off the outbox and off the server:
   in whatever order the queue comes and whatever becomes of the other items in it.
   */
  lemma UndisturbedDelivery(w: World, s: Step, session: Snapshot.SessionSnapshot, at: Time) returns (sent: World)
    requires s.Compose? && Ready(w, s, at)
    ensures RunFrom(w, Sending(s, session), at, sent) && Inv(sent)
    ensures WasSent(sent.log, s.id, s.d, s.to) && s.d in sent.clients && s.to in sent.clients
    ensures Waiting(sent, s.d, s.to, s.id, at) && s.id !in sent.clients[s.to].store.processed
    ensures sent.t.envelopes[s.id].ciphertext == s.ciphertext
    ensures forall ids, outcomes: seq<Outcome> ::
              Possible(sent, Pull(s.to, ids), at) && IsAccepted(s.id, ids, outcomes) ==>
                exists w' :: RunFrom(w, Sending(s, session) + Polling(s.to, ids, outcomes), at, w')
                             && IsDelivered(w', s.d, s.to, s.id)
  {
    sent := SendHalf(w, s, session, at);
    forall ids, outcomes: seq<Outcome> | Possible(sent, Pull(s.to, ids), at) && IsAccepted(s.id, ids, outcomes)
      ensures exists w' :: RunFrom(w, Sending(s, session) + Polling(s.to, ids, outcomes), at, w')
                           && IsDelivered(w', s.d, s.to, s.id)
    {
      hide Inv, Ready, RunFrom, Take, Possible, IsDelivered, Waiting;
      var w' := ReceiveHalf(w, Sending(s, session), sent, s.d, s.to, s.id, ids, outcomes, at);
    }
  }

  /** The recipient can read the message; nothing is said of the others. */
  predicate IsAccepted(id: MessageId, ids: seq<MessageId>, outcomes: seq<Outcome>) {
    |outcomes| == |ids| && forall i :: 0 <= i < |ids| && ids[i] == id ==> outcomes[i].Accept?
  }

  function Polling(to: DeviceId, ids: seq<MessageId>, outcomes: seq<Outcome>): seq<Step> {
    [Pull(to, ids)] + Handles(to, outcomes) + [Acknowledge(to)]
  }

  ghost predicate IsDelivered(w: World, d: DeviceId, to: DeviceId, id: MessageId) {
    && d in w.clients && to in w.clients && id !in w.t.envelopes && id !in w.clients[d].store.outbox
    && OutCopies(w.clients[d].store.messages, id) == 1 && LS.Copies(w.clients[to].store.messages, id, d) == 1
  }

  lemma ReceiveHalf(w: World, steps: seq<Step>, w3: World, d: DeviceId, to: DeviceId, id: MessageId,
                    ids: seq<MessageId>, outcomes: seq<Outcome>, at: Time) returns (w': World)
    requires RunFrom(w, steps, at, w3) && Inv(w3) && Possible(w3, Pull(to, ids), at) && IsAccepted(id, ids, outcomes)
    requires WasSent(w3.log, id, d, to) && d in w3.clients && id !in w3.clients[d].store.outbox
    requires Waiting(w3, d, to, id, at)
    ensures RunFrom(w, steps + Polling(to, ids, outcomes), at, w') && IsDelivered(w', d, to, id)
  {
    hide *;
    PullEffect(w3, d, to, id, ids, outcomes, at);
    PullKeeps(w3, Pull(to, ids), at);
    RunOn(w, steps, at, w3, Pull(to, ids));
    var w4 := Take(w3, Pull(to, ids), at);
    var w5 := HandlesEffect(w, steps + [Pull(to, ids)], w4, d, to, id, outcomes, at);
    SameTables(w4, w5, d, to, id, at);
    AckEffect(w5, d, to, id, at);
    AcknowledgeKeeps(w5, Acknowledge(to), at);
    RunOn(w, steps + [Pull(to, ids)] + Handles(to, outcomes), at, w5, Acknowledge(to));
    w' := Take(w5, Acknowledge(to), at);
    ArrivedInBoth(w', d, to, id);
    PollingIs(steps, to, ids, outcomes);
  }

  lemma SameTables(w: World, w': World, d: DeviceId, to: DeviceId, id: MessageId, at: Time)
    requires Waiting(w, d, to, id, at) && w'.t == w.t
    ensures Waiting(w', d, to, id, at)
  {
  }

  lemma ArrivedInBoth(w: World, d: DeviceId, to: DeviceId, id: MessageId)
    requires Inv(w) && WasSent(w.log, id, d, to) && d in w.clients && to in w.clients && id !in w.t.envelopes
    requires id !in w.clients[d].store.outbox && id in w.clients[to].store.processed
    ensures IsDelivered(w, d, to, id)
  {
    hide Inv;
    BothHistories(w, d, to, id);
  }

  lemma PollingIs(steps: seq<Step>, to: DeviceId, ids: seq<MessageId>, outcomes: seq<Outcome>)
    ensures steps + [Pull(to, ids)] + Handles(to, outcomes) + [Acknowledge(to)] == steps + Polling(to, ids, outcomes)
  {
  }
}
