/**
 Items that come again. The log of processed messages is asked first, but between it and the local
 store stands the session (clients/upm-windows/src/app.rs:936-1110): what is stored a second
 time is decided by the session that opens the item.
 */
module Redelivery {
  import opened Wrappers
  import opened Crypto
  import opened Ratchet
  import opened Identity
  import opened ClientApp
  import opened TwoParty
  import opened Retries
  import C = Conversations
  import CL = ClientLaws
  import LS = LocalStore
  import Handshake

  type DeviceId = LS.DeviceId
  type MessageId = LS.MessageId
  type PreKeyId = Handshake.PreKeyId

  /** Reading the item adds a row to the history. */
  predicate Stores(b: App, item: Item, l: Luck)
    requires |l.drawn| >= POOL_TARGET
  {
    Receive(b, item, l).0.store.messages != b.store.messages
  }

  lemma StoresIffNewlyAcknowledged(b: App, item: Item, l: Luck)
    requires |l.drawn| >= POOL_TARGET
    ensures Stores(b, item, l) <==> Receive(b, item, l).1 && !LS.IsProcessed(b.store, item.id, item.sender)
  {
  }

  lemma OpenReceive(b: App, item: Item, l: Luck)
    requires |l.drawn| >= POOL_TARGET && Knows(b, item.sender) && b.conversation.value.session.Some?
    requires item.packet.Some?
    ensures Stores(b, item, l)
            <==> && !LS.IsProcessed(b.store, item.id, item.sender) && item.packet.value.version == CURRENT_VERSION
                 && Decrypt(b.conversation.value.session.value, item.packet.value.wire, l.newKey).1.Success?
                 && l.display.Some? && l.commitOk
  {
    hide Decrypt;
  }

  // ---- with the conversation open ------------------------------------------------------------------

  /**
   With a conversation open in any state of it, be that the latest or one reloaded, an item is stored exactly if the
   log does not name it for this peer, its message is deliverable in that state, and the disk works.
   */
  lemma StoredIff(u: C.Setup, events: seq<Event>, who: Party, b: App, peer: DeviceId, item: Item, l: Luck)
    requires C.Conversation(u, events) && Reads(b, C.End(u, events), who, peer)
    requires item.sender == peer && item.packet.Some? && |l.drawn| >= POOL_TARGET
    requires Admissible(C.End(u, events), C.SessionIkm(u), Delivers(who, item.packet.value.wire, l.newKey))
    ensures Stores(b, item, l)
            <==> && !LS.IsProcessed(b.store, item.id, peer) && item.packet.value.version == CURRENT_VERSION
                 && C.Deliverable(C.End(u, events), who, item.packet.value.wire) && l.display.Some? && l.commitOk
  {
    hide C.Deliverable, C.End, C.Honest, Decrypt, Stores, Receive;
    OpenReceive(b, item, l);
    C.DecryptsExactlyUnreadMessages(u, events, who, item.packet.value.wire, l.newKey);
  }

  /** What was read once is never stored again while the conversation goes on, whatever the log says. */
  lemma ReadIsNotStoredAgain(u: C.Setup, events: seq<Event>, more: seq<Event>, who: Party, g: Got, b: App,
                             peer: DeviceId, item: Item, l: Luck)
    requires C.Conversation(u, events) && C.Conversation(u, events + more)
    requires g in C.End(u, events).got && g.reader == who
    requires Reads(b, C.End(u, events + more), who, peer)
    requires item.sender == peer && item.packet.Some? && item.packet.value.wire == g.wire
    requires |l.drawn| >= POOL_TARGET && l.newKey !in C.End(u, events + more).secrets
    ensures Receive(b, item, l) == (b, LS.IsProcessed(b.store, item.id, peer))
  {
    hide C.Lost, C.End, C.Honest, Decrypt;
    C.EveryMessageIsReadAtMostOnce(u, events);
    ReadIsLost(C.End(u, events), who, g);
    if !LS.IsProcessed(b.store, item.id, peer) {
      LostIsNeverAcknowledged(u, events, more, who, Sent(Peer(who), g.wire, g.text), b, peer, item, l);
    }
  }

  lemma ReadIsLost(w: World, who: Party, g: Got)
    requires g in w.got && g.reader == who
    ensures C.Lost(w, who, g.wire)
  {
  }

  // ---- a first packet after the conversation was closed ---------------------------------------------

  /** Logging out closes the conversation and forgets the contact (clients/upm-windows/src/app.rs:456-461). */
  function LoggedOut(a: App): App {
    a.(conversation := None, directory := None)
  }

  /** What reading items leaves as it is. */
  predicate Keeps(a: App, a': App, peer: DeviceId, key: SigningKey, id: MessageId) {
    && a'.device == a.device && a'.exchange == a.exchange && a'.signedPrekey == a.signedPrekey
    && (peer in a.store.pins && a.store.pins[peer] == key ==> peer in a'.store.pins && a'.store.pins[peer] == key)
    && (id in a.store.processed ==> id in a'.store.processed && a'.store.processed[id] == a.store.processed[id])
  }

  lemma ReceiveKeeps(a: App, item: Item, l: Luck, peer: DeviceId, key: SigningKey, id: MessageId)
    requires |l.drawn| >= POOL_TARGET
    ensures Keeps(a, Receive(a, item, l).0, peer, key, id)
  {
    hide Decrypt, UsePrekey, Greet;
    if item.packet.Some? {
      GreetKeeps(a, item.sender, item.packet.value, peer, key, id);
    }
  }

  lemma GreetKeeps(a: App, sender: DeviceId, p: Packet, peer: DeviceId, key: SigningKey, id: MessageId)
    ensures var a' := Greet(a, sender, p).0;
            && Keeps(a, a', peer, key, id) && a'.store == a.store.(pins := a'.store.pins)
            && (Greet(a, sender, p).1 ==>
                  p.bootstrap.Some? && sender in a'.store.pins && a'.store.pins[sender] == p.bootstrap.value.signer)
  {
    hide EstablishResponder;
  }

  lemma {:induction false} PollKeeps(a: App, items: seq<Item>, ls: seq<Luck>, peer: DeviceId, key: SigningKey,
                                     id: MessageId)
    requires |items| == |ls| && forall l :: l in ls ==> |l.drawn| >= POOL_TARGET
    ensures Keeps(a, ReceiveAll(a, items, ls).0, peer, key, id)
  {
    hide Receive;
    if items != [] {
      var n := |items| - 1;
      PollKeeps(a, items[..n], ls[..n], peer, key, id);
      ReceiveKeeps(ReceiveAll(a, items[..n], ls[..n]).0, items[n], ls[n], peer, key, id);
    }
  }

  /** A prekey that is gone does not come back. */
  lemma GoneStaysGone(a: App, item: Item, l: Luck, p: PreKeyId)
    requires |l.drawn| >= POOL_TARGET && Find(a.pool, p).None? && CL.NewDraws(l, p)
    ensures Find(Receive(a, item, l).0.pool, p).None?
  {
    CL.PoolAfter(a, item, l);
    if item.packet.Some? && item.packet.value.bootstrap.Some? && item.packet.value.bootstrap.value.oneTimeId.Some? {
      var used := item.packet.value.bootstrap.value.oneTimeId.value;
      FindAfterRemove(a.pool, used, p);
      var left := Remove(a.pool, used);
      if |left| < POOL_TARGET {
        FindInLonger(left, l.drawn[..POOL_TARGET - |left|], p);
        FindIff(l.drawn[..POOL_TARGET - |left|], p);
      }
    }
  }

  lemma {:induction false} GoneForEver(a: App, items: seq<Item>, ls: seq<Luck>, p: PreKeyId)
    requires |items| == |ls| && forall l :: l in ls ==> |l.drawn| >= POOL_TARGET && CL.NewDraws(l, p)
    requires Find(a.pool, p).None?
    ensures Find(ReceiveAll(a, items, ls).0.pool, p).None?
  {
    hide Receive;
    if items != [] {
      var n := |items| - 1;
      GoneForEver(a, items[..n], ls[..n], p);
      GoneStaysGone(ReceiveAll(a, items[..n], ls[..n]).0, items[n], ls[n], p);
    }
  }

  function FirstItem(u: C.Setup, alice: App, text: Bytes, id: MessageId): Item
    requires CL.FirstPacket(u, alice, text).Some?
  {
    Item(id, alice.device, Some(CL.FirstPacket(u, alice, text).value.0))
  }

  /** Bob has newly read Alice's first packet, has read other items, and has logged out. */
  function LoggedOutAfter(u: C.Setup, alice: App, bob: App, text: Bytes, id: MessageId, l: Luck,
                          items: seq<Item>, ls: seq<Luck>): App
    requires CL.FirstPacket(u, alice, text).Some? && |l.drawn| >= POOL_TARGET
    requires |items| == |ls| && forall x :: x in ls ==> |x.drawn| >= POOL_TARGET
  {
    LoggedOut(ReceiveAll(Receive(bob, FirstItem(u, alice, text, id), l).0, items, ls).0)
  }

  /** The prekey that the first packet names is not drawn again. */
  predicate DrawsOther(u: C.Setup, l: Luck) {
    u.bundle.oneTimeId.Some? ==> CL.NewDraws(l, u.bundle.oneTimeId.value)
  }

  /** What reading the first packet leaves: the signer pinned, the message logged, a named prekey used up. */
  lemma AfterFirstReading(u: C.Setup, alice: App, bob: App, text: Bytes, id: MessageId, l: Luck)
    requires C.Honest(u) && CL.Meets(u, alice, bob) && |l.drawn| >= POOL_TARGET && DrawsOther(u, l)
    requires CL.FirstPacket(u, alice, text).Some?
    requires Stores(bob, FirstItem(u, alice, text, id), l)
    ensures var b := Receive(bob, FirstItem(u, alice, text, id), l).0;
            && b.device == bob.device && b.exchange == bob.exchange && b.signedPrekey == bob.signedPrekey
            && alice.device in b.store.pins && b.store.pins[alice.device] == alice.signing
            && id in b.store.processed
            && (LS.IsProcessed(b.store, id, alice.device) <==> id !in bob.store.processed)
            && (u.bundle.oneTimeId.Some? ==> Find(b.pool, u.bundle.oneTimeId.value).None?)
  {
    hide C.Honest, CL.FirstPacket, Decrypt, Receive, Stores, C.Initiated;
    CL.FirstPacketIsSent(u, alice, bob, text);
    var item := FirstItem(u, alice, text, id);
    FirstReadingPins(bob, item, l);
    if u.bundle.oneTimeId.Some? {
      StoresIffNewlyAcknowledged(bob, item, l);
      CL.PrekeyAfter(bob, item, l, u.bundle.oneTimeId.value);
    }
  }

  lemma FirstReadingPins(b: App, item: Item, l: Luck)
    requires |l.drawn| >= POOL_TARGET && Stores(b, item, l) && !Knows(b, item.sender)
    requires item.packet.Some? && item.packet.value.bootstrap.Some?
    ensures var b' := Receive(b, item, l).0;
            && b'.device == b.device && b'.exchange == b.exchange && b'.signedPrekey == b.signedPrekey
            && item.sender in b'.store.pins && b'.store.pins[item.sender] == item.packet.value.bootstrap.value.signer
            && item.id in b'.store.processed
            && (LS.IsProcessed(b'.store, item.id, item.sender) <==> item.id !in b.store.processed)
  {
    hide Decrypt, UsePrekey, Greet;
    GreetKeeps(b, item.sender, item.packet.value, item.sender, item.packet.value.bootstrap.value.signer, item.id);
  }

  /** After logging out Bob still meets Alice, and a prekey named by the first packet is gone. */
  lemma StillMeets(u: C.Setup, alice: App, bob: App, text: Bytes, id: MessageId, l: Luck, items: seq<Item>,
                   ls: seq<Luck>)
    requires C.Honest(u) && CL.Meets(u, alice, bob) && |l.drawn| >= POOL_TARGET && DrawsOther(u, l)
    requires CL.FirstPacket(u, alice, text).Some?
    requires |items| == |ls| && forall x :: x in ls ==> |x.drawn| >= POOL_TARGET && DrawsOther(u, x)
    requires Stores(bob, FirstItem(u, alice, text, id), l)
    ensures var b := LoggedOutAfter(u, alice, bob, text, id, l, items, ls);
            && CL.Meets(u, alice, b)
            && (CL.PrekeyInPlace(u, b) <==> u.bundle.oneTimeId.None?)
            && (LS.IsProcessed(b.store, id, alice.device) <==> id !in bob.store.processed)
  {
    hide Receive, ReceiveAll, C.Honest, CL.FirstPacket, CL.PrekeyInPlace, Stores;
    AfterFirstReading(u, alice, bob, text, id, l);
    InitiationNames(u);
    CL.InPlaceIffFound(u, LoggedOutAfter(u, alice, bob, text, id, l, items, ls));
    var b1 := Receive(bob, FirstItem(u, alice, text, id), l).0;
    PollKeeps(b1, items, ls, alice.device, alice.signing, id);
    if u.bundle.oneTimeId.Some? {
      GoneForEver(b1, items, ls, u.bundle.oneTimeId.value);
    }
  }

  lemma InitiationNames(u: C.Setup)
    requires C.Honest(u)
    ensures u.bundle.oneTimeId.Some? <==> u.oneTime.Some?
  {
    Handshake.InitiationSucceedsIff(u.aliceIdentity, u.bundle, u.ephemeral);
  }

  /**
   A first packet that was read once is read again after Bob has logged out, under any identifier and whatever came in
   between, if and only if it names no one-time prekey and the log does not name that identifier for
   Alice. The conversation is then begun anew.
   */
  lemma FirstPacketReplaysIff(u: C.Setup, alice: App, bob: App, text: Bytes, id: MessageId, l: Luck,
                              items: seq<Item>, ls: seq<Luck>, id2: MessageId, l2: Luck)
    requires C.Honest(u) && CL.Meets(u, alice, bob) && |l.drawn| >= POOL_TARGET && DrawsOther(u, l)
    requires |l2.drawn| >= POOL_TARGET && DrawsOther(u, l2)
    requires CL.FirstPacket(u, alice, text).Some? && Stores(bob, FirstItem(u, alice, text, id), l)
    requires |items| == |ls| && forall x :: x in ls ==> |x.drawn| >= POOL_TARGET && DrawsOther(u, x)
    requires l2.newKey !in C.SetupSecrets(u) + {u.firstRatchet} && l2.display.Some? && l2.commitOk
    ensures var b := LoggedOutAfter(u, alice, bob, text, id, l, items, ls);
            Stores(b, FirstItem(u, alice, text, id2), l2)
            <==> u.bundle.oneTimeId.None? && !LS.IsProcessed(b.store, id2, alice.device)
  {
    StillMeets(u, alice, bob, text, id, l, items, ls);
    var b := LoggedOutAfter(u, alice, bob, text, id, l, items, ls);
    hide LoggedOutAfter, C.Honest, CL.FirstPacket, Receive, CL.Meets, Stores, CL.PrekeyInPlace;
    StoresIffNewlyAcknowledged(b, FirstItem(u, alice, text, id2), l2);
    if !LS.IsProcessed(b.store, id2, alice.device) {
      CL.FirstMessageIsReadIff(u, alice, b, text, id2, l2);
    }
  }

  /**
   The same item again: after a logout its message is stored a second time if and only if it names no one-time prekey
   and its identifier had been used by another peer before. With the conversation still open it never is
   (ReadIsNotStoredAgain).
   */
  lemma StoredAgainIff(u: C.Setup, alice: App, bob: App, text: Bytes, id: MessageId, l: Luck,
                       items: seq<Item>, ls: seq<Luck>, l2: Luck)
    requires C.Honest(u) && CL.Meets(u, alice, bob) && |l.drawn| >= POOL_TARGET && DrawsOther(u, l)
    requires |l2.drawn| >= POOL_TARGET && DrawsOther(u, l2)
    requires CL.FirstPacket(u, alice, text).Some? && Stores(bob, FirstItem(u, alice, text, id), l)
    requires |items| == |ls| && forall x :: x in ls ==> |x.drawn| >= POOL_TARGET && DrawsOther(u, x)
    requires l2.newKey !in C.SetupSecrets(u) + {u.firstRatchet} && l2.display.Some? && l2.commitOk
    ensures var b := LoggedOutAfter(u, alice, bob, text, id, l, items, ls);
            Stores(b, FirstItem(u, alice, text, id), l2) <==> u.bundle.oneTimeId.None? && id in bob.store.processed
  {
    hide C.Honest, CL.FirstPacket, Receive, CL.Meets, Stores, LoggedOutAfter;
    StillMeets(u, alice, bob, text, id, l, items, ls);
    FirstPacketReplaysIff(u, alice, bob, text, id, l, items, ls, id, l2);
  }

  lemma StoredIsCopied(b: App, item: Item, l: Luck)
    requires |l.drawn| >= POOL_TARGET && Stores(b, item, l)
    ensures LS.Copies(Receive(b, item, l).0.store.messages, item.id, item.sender)
         == LS.Copies(b.store.messages, item.id, item.sender) + 1
  {
    CL.CommittedIn(b, item, l);
    LS.CopiesAppend(b.store.messages, [LS.HistoryRow(item.sender, true, l.display.value, l.now, item.id)],
                    item.id, item.sender);
    hide Receive;
  }

  /** It does happen, for every honest setup without a one-time prekey: two deliveries, a logout between, two rows. */
  lemma FirstMessageStoredTwice(u: C.Setup, alice: App, bob: App, text: Bytes, id: MessageId, l: Luck, l2: Luck)
    requires C.Honest(u) && CL.Meets(u, alice, bob) && u.bundle.oneTimeId.None?
    requires id in bob.store.processed && bob.store.processed[id] != alice.device
    requires Ordinary(u, l, {}) && Ordinary(u, l2, {})
    ensures CL.FirstPacket(u, alice, text).Some?
    ensures var item := FirstItem(u, alice, text, id);
            var b1 := Receive(bob, item, l).0;
            var b2 := Receive(LoggedOut(b1), item, l2).0;
            && Receive(bob, item, l).1 && Receive(LoggedOut(b1), item, l2).1
            && LS.Copies(b2.store.messages, id, alice.device) == LS.Copies(bob.store.messages, id, alice.device) + 2
  {
    hide C.Honest, CL.FirstPacket, CL.Meets, Receive, Stores;
    CL.FirstMessageIsReadIff(u, alice, bob, text, id, l);
    var item := FirstItem(u, alice, text, id);
    StoresIffNewlyAcknowledged(bob, item, l);
    StoredIsCopied(bob, item, l);
    StoredAgainIff(u, alice, bob, text, id, l, [], [], l2);
    var b1 := Receive(bob, item, l).0;
    StoresIffNewlyAcknowledged(LoggedOut(b1), item, l2);
    StoredIsCopied(LoggedOut(b1), item, l2);
  }

  // ---- an item that was decrypted and not committed -------------------------------------------------------

  /** The contact's conversation, opened from the store. */
  function Reopened(a: App, contact: Entry): App {
    EnsureConversation(a.(directory := Some(contact), conversation := None)).value
  }

  /** An item whose message can be read but whose text cannot be shown or stored. */
  ghost predicate FailsToCommit(u: C.Setup, events: seq<Event>, who: Party, b: App, peer: DeviceId, item: Item,
                                l: Luck) {
    && C.Conversation(u, events) && Reads(b, C.End(u, events), who, peer)
    && item.sender == peer && item.packet.Some? && item.packet.value.version == CURRENT_VERSION
    && !LS.IsProcessed(b.store, item.id, peer) && C.Deliverable(C.End(u, events), who, item.packet.value.wire)
    && |l.drawn| >= POOL_TARGET && l.newKey !in C.End(u, events).secrets && (l.display.None? || !l.commitOk)
  }

  /** The session in memory has moved on: as long as it lives, the item is refused each time it comes again. */
  lemma FailedCommitIsRefusedNext(u: C.Setup, events: seq<Event>, who: Party, b: App, peer: DeviceId, item: Item,
                                  l: Luck)
    requires FailsToCommit(u, events, who, b, peer, item, l)
    ensures var (b', ack) := Receive(b, item, l);
            var e := events + [Delivers(who, item.packet.value.wire, l.newKey)];
            && !ack && b'.store == b.store && C.Conversation(u, e) && Reads(b', C.End(u, e), who, peer)
            && (exists text :: Sent(Peer(who), item.packet.value.wire, text) in C.End(u, e).sent)
            && C.Lost(C.End(u, e), who, item.packet.value.wire)
            && NeverAcknowledged(u, e, who, peer, item.id, item.packet.value)
  {
    hide C.Lost, C.End, C.Honest, Decrypt, NeverAcknowledged;
    var wire := item.packet.value.wire;
    var w, ev := C.End(u, events), Delivers(who, wire, l.newKey);
    var text :| Sent(Peer(who), wire, text) in w.sent;
    C.DecryptsExactlyUnreadMessages(u, events, who, wire, l.newKey);
    C.OneMoreEvent(u, events, ev);
    var e := events + [ev];
    var read := Decrypt(StateOf(w, who), wire, l.newKey).1.value;
    assert Sent(Peer(who), wire, text) in C.End(u, e).sent;
    ReadIsLost(C.End(u, e), who, Got(who, wire, read));
    LostIsNeverAcknowledgedAgain(u, e, who, Sent(Peer(who), wire, text), peer, item.id, item.packet.value);
  }

  /**
   If the store held the session as it was before and the conversation is opened from it, the item is
   read after all.
   */
  lemma FailedCommitIsReadAfterReopening(u: C.Setup, events: seq<Event>, who: Party, b: App, contact: Entry, item: Item,
                                         l: Luck, l2: Luck)
    requires FailsToCommit(u, events, who, b, contact.device, item, l)
    requires LS.LoadSession(b.store, contact.device) == Some(StateOf(C.End(u, events), who))
    requires |l2.drawn| >= POOL_TARGET && l2.newKey !in C.End(u, events).secrets && l2.display.Some? && l2.commitOk
    ensures Stores(Reopened(Receive(b, item, l).0, contact), item, l2)
  {
    FailedCommitIsRefusedNext(u, events, who, b, contact.device, item, l);
    hide C.Deliverable, C.End, C.Honest, Receive, Stores, NeverAcknowledged, C.Lost, FailsToCommit, LS.LoadSession;
    assert FailsToCommit(u, events, who, b, contact.device, item, l);
    Unpack(u, events, who, b, contact.device, item, l);
    StoredIff(u, events, who, Reopened(Receive(b, item, l).0, contact), contact.device, item, l2);
  }

  lemma Unpack(u: C.Setup, events: seq<Event>, who: Party, b: App, peer: DeviceId, item: Item, l: Luck)
    requires FailsToCommit(u, events, who, b, peer, item, l)
    ensures C.Conversation(u, events) && item.sender == peer && item.packet.Some? && |l.drawn| >= POOL_TARGET
    ensures item.packet.value.version == CURRENT_VERSION && !LS.IsProcessed(b.store, item.id, peer)
    ensures C.Deliverable(C.End(u, events), who, item.packet.value.wire)
    ensures !Forged(C.End(u, events), C.SessionIkm(u), item.packet.value.wire)
  {
  }

  /**
   But once a later item has been committed the store holds a session that has read it, and the item is refused
   for good: by the session in memory, and by the one the store gives back, if it gives one back.
   */
  lemma FailedCommitIsLostByTheNext(u: C.Setup, events: seq<Event>, who: Party, b: App, contact: Entry, item: Item,
                                    l: Luck, next: Item, l1: Luck, l2: Luck)
    requires FailsToCommit(u, events, who, b, contact.device, item, l) && CL.CurrentSession(b)
    requires next.sender == contact.device && next.packet.Some? && |l1.drawn| >= POOL_TARGET
    requires |l2.drawn| >= POOL_TARGET
    requires var b1, e := Receive(b, item, l).0, events + [Delivers(who, item.packet.value.wire, l.newKey)];
             && C.Conversation(u, e) && l1.newKey !in C.End(u, e).secrets
             && (exists x :: x in C.End(u, e).sent && x.wire == next.packet.value.wire)
             && Stores(b1, next, l1) && CommitsItsSession(b1, next, l1)
             && !LS.IsProcessed(Receive(b1, next, l1).0.store, item.id, contact.device)
             && l2.newKey !in C.End(u, e).secrets + {l1.newKey}
    ensures var b2 := Reopened(Receive(Receive(b, item, l).0, next, l1).0, contact);
            Receive(b2, item, l2) == (b2, false)
  {
    var peer := contact.device;
    var b1, e := Receive(b, item, l).0, events + [Delivers(who, item.packet.value.wire, l.newKey)];
    hide C.Deliverable, C.End, C.Honest, Receive, Stores, C.Lost, LS.LoadSession, NeverAcknowledged, CommitsItsSession,
         CL.CurrentSession;
    FailedCommitIsRefusedNext(u, events, who, b, peer, item, l);
    StoresIffNewlyAcknowledged(b1, next, l1);
    AcknowledgedIsRead(u, e, who, b1, peer, next, l1);
    CL.ReceiveKeepsCurrent(b, item, l);
    CL.AcknowledgedSessionReloads(b1, next, l1);
    var b2 := Reopened(Receive(b1, next, l1).0, contact);
    if b2.conversation.value.session.Some? {
      C.OneMoreEvent(u, e, Delivers(who, next.packet.value.wire, l1.newKey));
      RefusedLater(u, e, [Delivers(who, next.packet.value.wire, l1.newKey)], who, peer, item, b2, l2);
    } else {
      NoSessionRefuses(b2, item, l2);
    }
  }

  lemma RefusedLater(u: C.Setup, events: seq<Event>, more: seq<Event>, who: Party, peer: DeviceId, item: Item, b: App,
                     l: Luck)
    requires item.packet.Some? && item.sender == peer
    requires NeverAcknowledged(u, events, who, peer, item.id, item.packet.value)
    requires C.Conversation(u, events + more) && Reads(b, C.End(u, events + more), who, peer)
    requires |l.drawn| >= POOL_TARGET && l.newKey !in C.End(u, events + more).secrets
    requires !LS.IsProcessed(b.store, item.id, peer)
    ensures Receive(b, item, l) == (b, false)
  {
    hide Receive, Reads;
    assert item == Item(item.id, peer, Some(item.packet.value));
  }

  lemma NoSessionRefuses(b: App, item: Item, l: Luck)
    requires |l.drawn| >= POOL_TARGET && Knows(b, item.sender) && b.conversation.value.session.None?
    requires !LS.IsProcessed(b.store, item.id, item.sender)
    ensures Receive(b, item, l) == (b, false)
  {
  }
}
