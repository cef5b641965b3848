/**
 The client's protocol steps (clients/upm-windows/src/app.rs): reading one queued item, the
 poll loop, sending, and retrying the outbox. What the network and the disk answer, and what
 is drawn at random, are parameters; the display of a decrypted payload is one too.
 */
module ClientApp {
  import opened Wrappers
  import opened Crypto
  import opened Ratchet
  import opened Handshake
  import opened Identity
  import LS = LocalStore
  import opened Snapshot

  type MessageId = nat
  type Time = nat

  datatype Entry = Entry(device: DeviceId, identityKey: SigningKey)

  datatype BootstrapText = BootstrapText(recipient: DeviceId, exchange: Public, ephemeral: Public,
                                         oneTimeId: Option<PreKeyId>)

  /** `signature` is `None` if the text does not decode to 64 bytes. */
  datatype Bootstrap = Bootstrap(signer: SigningKey, exchange: Public, ephemeral: Public,
                                 oneTimeId: Option<PreKeyId>, signature: Option<Signature<BootstrapText>>)

  datatype Packet = Packet(version: nat, bootstrap: Option<Bootstrap>, wire: Wire)

  /** A pulled envelope; `packet` is `None` if the ciphertext is not base64 of a packet. */
  datatype Item = Item(id: MessageId, sender: DeviceId, packet: Option<Packet>)

  datatype Conversation = Conversation(peer: Entry, session: Option<State>)

  datatype App = App(
    device: DeviceId,
    signing: SigningKey,
    exchange: Secret,
    signedPrekey: Secret,
    pool: Pool,
    directory: Option<Entry>,
    conversation: Option<Conversation>,
    store: LS.Store)

  /** Everything outside the client that decides how reading one item goes. */
  datatype Luck = Luck(newKey: Secret, display: Option<string>, commitOk: bool, snapshot: SessionSnapshot,
                       drawn: Pool, now: Time)

  const POOL_TARGET: nat := 12

  // ---- receiving -----------------------------------------------------------------------------

  datatype GreetError = PeerIdentityMismatch | InvalidBootstrap | MissingOneTimePrekey | Refused(error: HandshakeError)

  function BootstrapMessage(recipient: DeviceId, b: Bootstrap): BootstrapText {
    BootstrapText(recipient, b.exchange, b.ephemeral, b.oneTimeId)
  }

  predicate VerifyBootstrap(b: Bootstrap, recipient: DeviceId) {
    b.signature.Some? && Verifies(b.signer, BootstrapMessage(recipient, b), b.signature.value)
  }

  function EstablishResponder(a: App, sender: DeviceId, b: Bootstrap): Result<State, GreetError> {
    if a.directory.None? || a.directory.value.device != sender then Failure(PeerIdentityMismatch)
    else if a.directory.value.identityKey != b.signer then Failure(PeerIdentityMismatch)
    else if !VerifyBootstrap(b, a.device) then Failure(InvalidBootstrap)
    else
      var opk := if b.oneTimeId.Some? then Find(a.pool, b.oneTimeId.value) else None;
      if b.oneTimeId.Some? && opk.None? then Failure(MissingOneTimePrekey)
      else
        match Respond(a.exchange, a.signedPrekey, b.exchange, b.ephemeral, opk)
        case Failure(e) => Failure(Refused(e))
        case Success(hs) => Success(InitResponder(sender, hs, a.signedPrekey))
  }

  /** An unknown sender is let in by its bootstrap; the answer says whether it was. */
  function Greet(a: App, sender: DeviceId, p: Packet): (App, bool) {
    match p.bootstrap
    case None => (a, false)
    case Some(b) =>
      var (store, trusted) := LS.PinOrVerify(a.store, sender, b.signer);
      var a1 := a.(store := store);
      if !trusted then (a1, false)
      else
        var entry := if a.directory.Some? && a.directory.value.device == sender then a.directory.value
                     else Entry(sender, b.signer);
        var a2 := a1.(directory := Some(entry));
        match EstablishResponder(a2, sender, b)
        case Failure(_) => (a2, false)
        case Success(session) => (a2.(conversation := Some(Conversation(entry, Some(session)))), true)
  }

  predicate Knows(a: App, sender: DeviceId) {
    a.conversation.Some? && a.conversation.value.peer.device == sender
  }

  function UsePrekey(pool: Pool, p: Packet, drawn: Pool): Pool
    requires |drawn| >= POOL_TARGET
  {
    if p.bootstrap.Some? && p.bootstrap.value.oneTimeId.Some? then
      Ensure(Remove(pool, p.bootstrap.value.oneTimeId.value), POOL_TARGET, drawn)
    else pool
  }

  /** Decrypts in the open conversation, commits, and only then lets a used prekey go. */
  function ReadItem(a: App, id: MessageId, p: Packet, l: Luck): (App, bool)
    requires |l.drawn| >= POOL_TARGET && a.conversation.Some?
  {
    if a.conversation.value.session.None? then (a, false)
    else
      var peer := a.conversation.value.peer;
      var (session, r) := Decrypt(a.conversation.value.session.value, p.wire, l.newKey);
      if r.Failure? then (a, false)
      else
        var a1 := a.(conversation := Some(Conversation(peer, Some(session))));
        if l.display.None? || !l.commitOk then (a1, false)
        else
          (a1.(store := LS.CommitIncoming(a.store, peer.device, id, l.display.value, l.snapshot, l.now),
               pool := UsePrekey(a.pool, p, l.drawn)),
           true)
  }

  /** One turn of the poll loop; the answer says whether the item will be acknowledged. */
  function Receive(a: App, item: Item, l: Luck): (App, bool)
    requires |l.drawn| >= POOL_TARGET
  {
    if LS.IsProcessed(a.store, item.id, item.sender) then (a, true)
    else if item.packet.None? || item.packet.value.version != CURRENT_VERSION then (a, false)
    else
      var p := item.packet.value;
      var (a1, open) := if Knows(a, item.sender) then (a, true) else Greet(a, item.sender, p);
      if open && Knows(a1, item.sender) then ReadItem(a1, item.id, p, l) else (a1, false)
  }

  /** A commit writes a snapshot of the session that reading the item left open. */
  ghost predicate CommitsItsSession(a: App, item: Item, l: Luck)
    requires |l.drawn| >= POOL_TARGET
  {
    var (a', ack) := Receive(a, item, l);
    ack && !LS.IsProcessed(a.store, item.id, item.sender) ==>
      && a'.conversation.Some? && a'.conversation.value.session.Some?
      && IsSnapshotOf(l.snapshot, a'.conversation.value.session.value)
  }

  // ---- sending ----------------------------------------------------------------------------------

  /** What the first message to a peer needs: its verified bundle and the secrets drawn for it. */
  datatype First = First(bundle: Option<PreKeyBundle>, ephemeral: Secret, ratchet: Secret)

  /** Turns to the contact in the directory, with the session stored for it. */
  function EnsureConversation(a: App): Option<App> {
    if a.directory.None? then None
    else
      var peer := a.directory.value;
      if Knows(a, peer.device) then Some(a)
      else Some(a.(conversation := Some(Conversation(peer, LS.LoadSession(a.store, peer.device)))))
  }

  function MakeInitialPacket(a: App, peer: Entry, text: Bytes, f: First, sealOk: bool): Option<(Packet, State)> {
    if f.bundle.None? || f.bundle.value.identitySigning != peer.identityKey then None
    else
      match Initiate(a.exchange, f.bundle.value, f.ephemeral)
      case Failure(_) => None
      case Success(hs) =>
        match InitInitiator(peer.device, hs.result, hs.bobInitialRatchetPublic, f.ratchet)
        case Failure(_) => None
        case Success(session) =>
          var b := Bootstrap(a.signing, hs.identityExchangePublic, hs.ephemeralPublic, hs.oneTimeId, None);
          var signed := b.(signature := Some(Signature(a.signing, BootstrapMessage(peer.device, b))));
          var (session', r) := Encrypt(session, text, sealOk);
          if r.Failure? then None else Some((Packet(CURRENT_VERSION, Some(signed), r.value), session'))
  }

  /** The packet for the open conversation, and the session to adopt once the server has it. */
  function MakePacket(a: App, text: Bytes, f: First, sealOk: bool): Option<(Packet, State)>
    requires a.conversation.Some?
  {
    match a.conversation.value.session
    case None => MakeInitialPacket(a, a.conversation.value.peer, text, f, sealOk)
    case Some(session) =>
      var (session', r) := Encrypt(session, text, sealOk);
      if r.Failure? then None else Some((Packet(CURRENT_VERSION, None, r.value), session'))
  }

  /** How the steps after the packet is made go. */
  datatype SendLuck = SendLuck(saveOk: bool, sendOk: bool, commitOk: bool, saved: SessionSnapshot,
                               committed: SessionSnapshot, encoded: Bytes, now: Time)

  function OutboxEntry(a: App, id: MessageId, peer: DeviceId, display: string, t: SendLuck): LS.OutboxItem {
    LS.OutboxItem(id, peer, LS.OutgoingEnvelope(id, CURRENT_VERSION, a.device, peer, t.encoded), t.saved, display)
  }

  /** Save to the outbox, send, commit; the session moves on only if the server took the message. */
  function SendPayload(a: App, id: MessageId, text: Bytes, display: string, f: First, sealOk: bool, t: SendLuck): App {
    match EnsureConversation(a)
    case None => a
    case Some(a1) =>
      match MakePacket(a1, text, f, sealOk)
      case None => a1
      case Some((_, session)) =>
        var peer := a1.conversation.value.peer;
        var item := OutboxEntry(a1, id, peer.device, display, t);
        if !t.saveOk then a1
        else
          var saved := LS.SaveOutbox(a1.store, item, t.now);
          if !t.sendOk then a1.(store := saved)
          else
            a1.(store := if t.commitOk then LS.CommitOutgoing(saved, item, t.committed, t.now) else saved,
                conversation := Some(Conversation(peer, Some(session))))
  }

  /** The outbox item and the commit hold snapshots of the session that sealed the packet. */
  ghost predicate SavesItsSession(a: App, text: Bytes, f: First, sealOk: bool, t: SendLuck) {
    match EnsureConversation(a)
    case None => true
    case Some(a1) =>
      match MakePacket(a1, text, f, sealOk)
      case None => true
      case Some((_, session)) =>
        && (t.saveOk ==> IsSnapshotOf(t.saved, session))
        && (t.saveOk && t.sendOk && t.commitOk ==> IsSnapshotOf(t.committed, session))
  }

  /** One retry: only an item the server took, whose saved session can be restored, is finished. */
  function Retry(s: LS.Store, item: LS.OutboxItem, sendOk: bool, committed: SessionSnapshot, now: Time): LS.Store {
    if sendOk && FromSnapshot(item.sessionAfter).Success? then LS.CommitOutgoing(s, item, committed, now) else s
  }

  function RetryAll(s: LS.Store, items: seq<LS.OutboxItem>, taken: set<MessageId>, committed: seq<SessionSnapshot>,
                    now: Time): LS.Store
    requires |items| == |committed|
  {
    if items == [] then s
    else
      var n := |items| - 1;
      Retry(RetryAll(s, items[..n], taken, committed[..n], now), items[n], items[n].id in taken, committed[n], now)
  }

  /** Each finished item is committed with a snapshot of the session saved beside it. */
  ghost predicate RestoresSessions(items: seq<LS.OutboxItem>, taken: set<MessageId>, committed: seq<SessionSnapshot>)
    requires |items| == |committed|
  {
    forall i :: 0 <= i < |items| && items[i].id in taken && FromSnapshot(items[i].sessionAfter).Success? ==>
      IsSnapshotOf(committed[i], FromSnapshot(items[i].sessionAfter).value)
  }

  lemma NoRetries(s: LS.Store, taken: set<MessageId>, now: Time)
    ensures RetryAll(s, [], taken, [], now) == s && RestoresSessions([], taken, [])
  {
  }

  lemma OneMoreRetry(s: LS.Store, items: seq<LS.OutboxItem>, taken: set<MessageId>, committed: seq<SessionSnapshot>,
                     item: LS.OutboxItem, next: SessionSnapshot, now: Time)
    requires |items| == |committed| && RestoresSessions(items, taken, committed)
    requires item.id in taken && FromSnapshot(item.sessionAfter).Success? ==>
               IsSnapshotOf(next, FromSnapshot(item.sessionAfter).value)
    ensures RestoresSessions(items + [item], taken, committed + [next])
    ensures var s' := RetryAll(s, items, taken, committed, now);
            RetryAll(s, items + [item], taken, committed + [next], now)
            == if item.id in taken && FromSnapshot(item.sessionAfter).Success? then
                 LS.CommitOutgoing(s', item, next, now)
               else s'
  {
    hide FromSnapshot, IsSnapshotOf;
    assert (items + [item])[..|items|] == items && (committed + [next])[..|committed|] == committed;
  }

  /** The items read one after another, and the ids to acknowledge. */
  function ReceiveAll(a: App, items: seq<Item>, ls: seq<Luck>): (App, seq<MessageId>)
    requires |items| == |ls| && forall l :: l in ls ==> |l.drawn| >= POOL_TARGET
  {
    if items == [] then (a, [])
    else
      var n := |items| - 1;
      var (a1, acks) := ReceiveAll(a, items[..n], ls[..n]);
      var (a2, ack) := Receive(a1, items[n], ls[n]);
      (a2, if ack then acks + [items[n].id] else acks)
  }

  /** Every commit of the loop is of the session open at that point. */
  ghost predicate CommitsEach(a: App, items: seq<Item>, ls: seq<Luck>)
    requires |items| == |ls| && forall l :: l in ls ==> |l.drawn| >= POOL_TARGET
  {
    items == [] ||
    var n := |items| - 1;
    CommitsEach(a, items[..n], ls[..n]) && CommitsItsSession(ReceiveAll(a, items[..n], ls[..n]).0, items[n], ls[n])
  }

  lemma NoItems(a: App)
    ensures ReceiveAll(a, [], []) == (a, []) && CommitsEach(a, [], [])
  {
  }

  lemma OneMoreItem(a: App, items: seq<Item>, ls: seq<Luck>, item: Item, l: Luck)
    requires |items| == |ls| && |l.drawn| >= POOL_TARGET && forall k :: k in ls ==> |k.drawn| >= POOL_TARGET
    ensures forall k :: k in ls + [l] ==> |k.drawn| >= POOL_TARGET
    ensures var (a1, acks) := ReceiveAll(a, items, ls);
            && ReceiveAll(a, items + [item], ls + [l])
               == (Receive(a1, item, l).0, if Receive(a1, item, l).1 then acks + [item.id] else acks)
            && CommitsEach(a, items + [item], ls + [l]) == (CommitsEach(a, items, ls) && CommitsItsSession(a1, item, l))
  {
    hide Receive, CommitsItsSession;
    assert (items + [item])[..|items|] == items && (ls + [l])[..|ls|] == ls;
  }

  // ---- the application object -----------------------------------------------------------------------

  class UpmApp {
    const device: DeviceId
    const identity: LocalIdentity
    const localStore: LS.LocalStore
    var directory: Option<Entry>
    var conversation: Option<Conversation>

    constructor (device: DeviceId, identity: LocalIdentity, localStore: LS.LocalStore)
      ensures this.device == device && this.identity == identity && this.localStore == localStore
      ensures directory == None && conversation == None
    {
      this.device, this.identity, this.localStore, directory, conversation := device, identity, localStore, None, None;
    }

    ghost function View(): App
      reads this, identity, localStore
    {
      App(device, identity.signing, identity.exchange, identity.signedPrekey, identity.oneTimePrekeys,
          directory, conversation, localStore.View())
    }

    method EstablishResponderSession(sender: DeviceId, b: Bootstrap) returns (r: Result<State, GreetError>)
      ensures r == EstablishResponder(View(), sender, b)
    {
      if directory.None? || directory.value.device != sender {
        return Failure(PeerIdentityMismatch);
      }
      if directory.value.identityKey != b.signer {
        return Failure(PeerIdentityMismatch);
      }
      if !VerifyBootstrap(b, device) {
        return Failure(InvalidBootstrap);
      }
      var opk := None;
      if b.oneTimeId.Some? {
        opk := identity.FindOneTimePrekey(b.oneTimeId.value);
      }
      if b.oneTimeId.Some? && opk.None? {
        return Failure(MissingOneTimePrekey);
      }
      var hs := Respond(identity.exchange, identity.signedPrekey, b.exchange, b.ephemeral, opk);
      if hs.Failure? {
        return Failure(Refused(hs.error));
      }
      r := Success(InitResponder(sender, hs.value, identity.signedPrekey));
    }

    method GreetSender(sender: DeviceId, p: Packet) returns (open: bool)
      modifies this, localStore`peerIdentities
      ensures (View(), open) == Greet(old(View()), sender, p)
    {
      if p.bootstrap.None? {
        return false;
      }
      var b := p.bootstrap.value;
      var trusted := localStore.PinOrVerifyPeer(sender, b.signer);
      if !trusted {
        return false;
      }
      var entry := if directory.Some? && directory.value.device == sender then directory.value
                   else Entry(sender, b.signer);
      directory := Some(entry);
      var session := EstablishResponderSession(sender, b);
      if session.Failure? {
        return false;
      }
      conversation := Some(Conversation(entry, Some(session.value)));
      open := true;
    }

    /** One item; `used` is `l` with the snapshot the commit wrote. */
    method HandleItem(item: Item, l: Luck) returns (ack: bool, ghost used: Luck)
      requires |l.drawn| >= POOL_TARGET
      modifies this, identity, localStore
      ensures used == l.(snapshot := used.snapshot) && CommitsItsSession(old(View()), item, used)
      ensures (View(), ack) == Receive(old(View()), item, used)
    {
      used := l;
      var processed := localStore.IsMessageProcessed(item.id, item.sender);
      if processed {
        return true, used;
      }
      if item.packet.None? {
        return false, used;
      }
      var packet := item.packet.value;
      if packet.version != CURRENT_VERSION {
        return false, used;
      }
      var peerKnown := conversation.Some? && conversation.value.peer.device == item.sender;
      if !peerKnown {
        var open := GreetSender(item.sender, packet);
        if !open {
          return false, used;
        }
      }
      if conversation.None? || conversation.value.peer.device != item.sender || conversation.value.session.None? {
        return false, used;
      }
      ack, used := ReadPacket(item.id, packet, l);
    }

    /** The rest of the loop's body: the item is decrypted in the open conversation and committed. */
    method ReadPacket(id: MessageId, packet: Packet, l: Luck) returns (ack: bool, ghost used: Luck)
      requires |l.drawn| >= POOL_TARGET && conversation.Some? && conversation.value.session.Some?
      modifies this, identity, localStore
      ensures used == l.(snapshot := used.snapshot)
      ensures (View(), ack) == ReadItem(old(View()), id, packet, used)
      ensures ack ==> conversation.Some? && conversation.value.session.Some?
                      && IsSnapshotOf(used.snapshot, conversation.value.session.value)
    {
      used := l;
      var (session, text) := Decrypt(conversation.value.session.value, packet.wire, l.newKey);
      if text.Failure? {
        return false, used;
      }
      var peer := conversation.value.peer;
      conversation := Some(Conversation(peer, Some(session)));
      if l.display.None? || !l.commitOk {
        return false, used;
      }
      ghost var snapshot := localStore.CommitIncomingMessage(peer.device, id, l.display.value, session, l.now);
      used := l.(snapshot := snapshot);
      if packet.bootstrap.Some? && packet.bootstrap.value.oneTimeId.Some? {
        identity.RemoveOneTimePrekey(packet.bootstrap.value.oneTimeId.value);
        identity.EnsureOneTimePrekeyPool(POOL_TARGET, l.drawn);
      }
      ack := true;
    }

    /** The loop of `poll` over what was pulled. */
    method Poll(items: seq<Item>, ls: seq<Luck>) returns (ackIds: seq<MessageId>, ghost used: seq<Luck>)
      requires |items| == |ls| && forall l :: l in ls ==> |l.drawn| >= POOL_TARGET
      modifies this, identity, localStore
      ensures |used| == |ls| && (forall l :: l in used ==> |l.drawn| >= POOL_TARGET)
      ensures forall i :: 0 <= i < |ls| ==> used[i] == ls[i].(snapshot := used[i].snapshot)
      ensures CommitsEach(old(View()), items, used)
      ensures (View(), ackIds) == ReceiveAll(old(View()), items, used)
    {
      hide *;
      ackIds, used := [], [];
      NoItems(View());
      assert items[..0] == [];
      for i := 0 to |items|
        invariant |used| == i && forall l :: l in used ==> |l.drawn| >= POOL_TARGET
        invariant forall j :: 0 <= j < i ==> used[j] == ls[j].(snapshot := used[j].snapshot)
        invariant CommitsEach(old(View()), items[..i], used)
        invariant (View(), ackIds) == ReceiveAll(old(View()), items[..i], used)
      {
        ghost var one;
        var ack;
        ack, one := HandleItem(items[i], ls[i]);
        if ack {
          ackIds := ackIds + [items[i].id];
        }
        OneMoreItem(old(View()), items[..i], used, items[i], one);
        assert items[..i + 1] == items[..i] + [items[i]];
        used := used + [one];
      }
      assert items[..|items|] == items;
    }

    method OpenConversation() returns (ok: bool)
      modifies this`conversation
      ensures ok <==> EnsureConversation(old(View())).Some?
      ensures ok ==> EnsureConversation(old(View())) == Some(View())
      ensures !ok ==> View() == old(View())
    {
      if directory.None? {
        return false;
      }
      var peer := directory.value;
      if conversation.Some? && conversation.value.peer.device == peer.device {
        return true;
      }
      var session := localStore.LoadPeerSession(peer.device);
      conversation := Some(Conversation(peer, session));
      ok := true;
    }

    /** `used` is `t` with the snapshots that were written. */
    method SendChatPayload(id: MessageId, text: Bytes, display: string, f: First, sealOk: bool, t: SendLuck)
      returns (ghost used: SendLuck)
      modifies this`conversation, localStore
      ensures used == t.(saved := used.saved, committed := used.committed)
      ensures SavesItsSession(old(View()), text, f, sealOk, used)
      ensures View() == SendPayload(old(View()), id, text, display, f, sealOk, used)
    {
      used := t;
      var ready := OpenConversation();
      if !ready {
        return;
      }
      ghost var a1 := View();
      var peer := conversation.value.peer;
      var made := match conversation.value.session
        case None =>
          MakeInitialPacket(App(device, identity.signing, identity.exchange, identity.signedPrekey,
                                identity.oneTimePrekeys, directory, conversation, LS.EMPTY_STORE),
                            peer, text, f, sealOk)
        case Some(session) =>
          var (session', r) := Encrypt(session, text, sealOk);
          if r.Failure? then None else Some((Packet(CURRENT_VERSION, None, r.value), session'));
      assert made == MakePacket(a1, text, f, sealOk);
      if made.None? {
        return;
      }
      var (packet, candidate) := made.value;
      var after := TakeSnapshot(candidate);
      used := used.(saved := after);
      var item := LS.OutboxItem(id, peer.device,
                                LS.OutgoingEnvelope(id, CURRENT_VERSION, device, peer.device, t.encoded),
                                after, display);
      if !t.saveOk {
        return;
      }
      localStore.SaveOutboxItem(item, t.now);
      if !t.sendOk {
        return;
      }
      if t.commitOk {
        ghost var snapshot := localStore.CommitOutgoingDelivery(item, candidate, t.now);
        used := used.(committed := snapshot);
      }
      conversation := Some(Conversation(peer, Some(candidate)));
    }

    /** Resends the whole outbox, oldest first; `taken` are the items the server accepts this time. */
    method RetryOutbox(taken: set<MessageId>, now: Time)
      returns (ghost items: seq<LS.OutboxItem>, ghost committed: seq<SessionSnapshot>)
      modifies localStore
      ensures LS.IsOutboxListing(old(localStore.outbox), items) && |items| == |committed|
      ensures RestoresSessions(items, taken, committed)
      ensures localStore.View() == RetryAll(old(localStore.View()), items, taken, committed, now)
    {
      var queue := localStore.LoadOutbox();
      items := queue;
      committed := RetryEach(queue, taken, now);
    }

    method RetryEach(queue: seq<LS.OutboxItem>, taken: set<MessageId>, now: Time)
      returns (ghost committed: seq<SessionSnapshot>)
      modifies localStore
      ensures |committed| == |queue| && RestoresSessions(queue, taken, committed)
      ensures localStore.View() == RetryAll(old(localStore.View()), queue, taken, committed, now)
    {
      hide *;
      committed := [];
      NoRetries(localStore.View(), taken, now);
      assert queue[..0] == [];
      for i := 0 to |queue|
        invariant |committed| == i && RestoresSessions(queue[..i], taken, committed)
        invariant localStore.View() == RetryAll(old(localStore.View()), queue[..i], taken, committed, now)
      {
        ghost var next: SessionSnapshot := queue[i].sessionAfter;
        if queue[i].id in taken {
          var session := FromSnapshot(queue[i].sessionAfter);
          if session.Success? {
            next := localStore.CommitOutgoingDelivery(queue[i], session.value, now);
          }
        }
        OneMoreRetry(old(localStore.View()), queue[..i], taken, committed, queue[i], next, now);
        assert queue[..i + 1] == queue[..i] + [queue[i]];
        committed := committed + [next];
      }
      assert queue[..|queue|] == queue;
    }
  }
}
