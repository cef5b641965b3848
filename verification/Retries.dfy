/**
 What a failed send does to the messages around it (clients/upm-windows/src/app.rs:543-760,
 880-896). The client seals on a copy of the session and adopts the copy only when the server has
 the message; the sealed message stays in the outbox and is sent later all the same. Of the
 messages that share a header and key in this way the recipient reads one.
 */
module Retries {
  import opened Wrappers
  import opened Crypto
  import opened Ratchet
  import opened Snapshot
  import opened ClientApp
  import opened TwoParty
  import C = Conversations
  import CL = ClientLaws
  import D = Delivery
  import LS = LocalStore
  import RatchetLaws

  // ---- the next packet -------------------------------------------------------------------------

  predicate Sends(a: App, text: Bytes, f: First, sealOk: bool) {
    EnsureConversation(a).Some? && MakePacket(EnsureConversation(a).value, text, f, sealOk).Some?
  }

  function PacketOf(a: App, text: Bytes, f: First, sealOk: bool): Packet
    requires Sends(a, text, f, sealOk)
  {
    MakePacket(EnsureConversation(a).value, text, f, sealOk).value.0
  }

  function SessionOf(a: App): Option<State>
    requires EnsureConversation(a).Some?
  {
    EnsureConversation(a).value.conversation.value.session
  }

  /** The guard under which a client moves on: the message is in the outbox and the server has taken it. */
  predicate MovesOn(t: SendLuck) {
    t.saveOk && t.sendOk
  }

  /**
   In an established conversation the next packet repeats the header, and the message key, of this
   one if and only if the send failed after this packet was made.
   */
  lemma NextPacketRepeatsIff(a: App, id: MessageId, text: Bytes, display: string, f: First, sealOk: bool, t: SendLuck,
                             text2: Bytes, f2: First, sealOk2: bool)
    requires Sends(a, text, f, sealOk) && SessionOf(a).Some?
    requires var a' := SendPayload(a, id, text, display, f, sealOk, t); Sends(a', text2, f2, sealOk2)
    ensures var now, next := PacketOf(a, text, f, sealOk),
                             PacketOf(SendPayload(a, id, text, display, f, sealOk, t), text2, f2, sealOk2);
            && now.wire.Framed? && next.wire.Framed? && now.wire.ciphertext.Sealed? && next.wire.ciphertext.Sealed?
            && (next.wire.header == now.wire.header <==> !MovesOn(t))
            && (next.wire.ciphertext.key == now.wire.ciphertext.key <==> !MovesOn(t))
  {
    var chain := SessionOf(a).value.sendingChain.value;
    NextIsNew(chain);
  }

  lemma {:induction false} NextIsNew(c: Key)
    ensures NextChain(c) != c
  {
    if c.NextChain? {
      NextIsNew(c.chain);
    }
  }

  /** On first contact it is the bootstrap that is repeated: the next packet starts a handshake of its own. */
  lemma NextContactIsFirstIff(a: App, id: MessageId, text: Bytes, display: string, f: First, sealOk: bool, t: SendLuck,
                              text2: Bytes, f2: First, sealOk2: bool)
    requires Sends(a, text, f, sealOk) && SessionOf(a).None?
    requires var a' := SendPayload(a, id, text, display, f, sealOk, t); Sends(a', text2, f2, sealOk2)
    ensures PacketOf(a, text, f, sealOk).bootstrap.Some?
    ensures PacketOf(SendPayload(a, id, text, display, f, sealOk, t), text2, f2, sealOk2).bootstrap.Some?
            <==> !MovesOn(t)
  {
  }

  // ---- sending as a step of the conversation ---------------------------------------------------------

  /** The client is in the conversation `u` as party `who`, its session that of the world `w`. */
  predicate Open(a: App, w: World, who: Party, peer: DeviceId) {
    && a.directory.Some? && a.directory.value.device == peer && Knows(a, peer)
    && a.conversation.value.session == Some(StateOf(w, who))
  }

  /** A send that fails is a sealing without moving on; one that succeeds is an encryption. */
  function SendEvent(who: Party, text: Bytes, t: SendLuck): Event {
    if MovesOn(t) then Encrypts(who, text, true) else SealsOnly(who, text)
  }

  function HeaderOf(s: State): Header {
    Header(PublicKey(s.dhSelf), s.prevChainLen, s.sendCount)
  }

  lemma SendIsEvent(w: World, who: Party, peer: DeviceId, a: App, id: MessageId, text: Bytes, display: string,
                    f: First, t: SendLuck)
    requires Open(a, w, who, peer) && StateOf(w, who).sendingChain.Some?
    ensures Sends(a, text, f, true) && PacketOf(a, text, f, true).version == CURRENT_VERSION
    ensures PacketOf(a, text, f, true).bootstrap.None?
    ensures PacketOf(a, text, f, true).wire.Framed?
            && PacketOf(a, text, f, true).wire.header == HeaderOf(StateOf(w, who))
    ensures var w' := Step(w, SendEvent(who, text, t));
            && Open(SendPayload(a, id, text, display, f, true, t), w', who, peer)
            && w'.sent == w.sent + [Sent(who, PacketOf(a, text, f, true).wire, text)]
            && w'.got == w.got && StateOf(w', Peer(who)) == StateOf(w, Peer(who)) && w'.secrets == w.secrets
            && StateOf(w', who).sendingChain.Some?
            && StateOf(w', who).sendCount == (if MovesOn(t) then Increment32(StateOf(w, who).sendCount)
                                              else StateOf(w, who).sendCount)
  {
  }

  // ---- the recipient's side -----------------------------------------------------------------------------

  /** A message that is lost is never acknowledged, now or in any continuation. */
  lemma LostIsNeverAcknowledged(u: C.Setup, events: seq<Event>, more: seq<Event>, who: Party, x: Sent, a: App,
                                peer: DeviceId, item: Item, l: Luck)
    requires C.Conversation(u, events) && C.Conversation(u, events + more)
    requires x in C.End(u, events).sent && x.from == Peer(who) && C.Lost(C.End(u, events), who, x.wire)
    requires Knows(a, peer) && a.conversation.value.session == Some(StateOf(C.End(u, events + more), who))
    requires item.sender == peer && item.packet.Some? && item.packet.value.wire == x.wire
    requires |l.drawn| >= POOL_TARGET && l.newKey !in C.End(u, events + more).secrets
    requires !LS.IsProcessed(a.store, item.id, peer)
    ensures Receive(a, item, l) == (a, false)
  {
    var w := C.End(u, events + more);
    hide C.Lost, C.Conversation, C.End, Decrypt;
    C.LostForEver(u, events, more, who, x);
    StillSent(u, events, more, x);
    LostIsRefused(u, events + more, who, x, l.newKey);
  }

  lemma StillSent(u: C.Setup, events: seq<Event>, more: seq<Event>, x: Sent)
    requires C.Conversation(u, events) && x in C.End(u, events).sent
    ensures x in C.End(u, events + more).sent
  {
    C.RunOn(C.Start(u), C.SessionIkm(u), events, more);
    C.LogsOnlyGrow(C.End(u, events), more);
  }

  lemma LostIsRefused(u: C.Setup, events: seq<Event>, who: Party, x: Sent, newKey: Secret)
    requires C.Conversation(u, events) && x in C.End(u, events).sent
    requires C.Lost(C.End(u, events), who, x.wire) && newKey !in C.End(u, events).secrets
    ensures var s := StateOf(C.End(u, events), who);
            Decrypt(s, x.wire, newKey).0 == s && Decrypt(s, x.wire, newKey).1.Failure?
  {
    hide C.Lost;
    C.DecryptsExactlyUnreadMessages(u, events, who, x.wire, newKey);
  }

  /**
   Of all the messages sealed under one header the recipient reads the first one delivered within its
   bounds, and no other, ever: from the stash, on the chain, or by a turn of the ratchet.
   */
  lemma SecondUnderOneHeaderIsNeverRead(u: C.Setup, events: seq<Event>, more: seq<Event>, who: Party, first: Got,
                                        second: Sent, newKey: Secret)
    requires C.Conversation(u, events) && C.Conversation(u, events + more)
    requires first in C.End(u, events).got && first.reader == who
    requires second in C.End(u, events).sent && second.from == Peer(who)
    requires RatchetLaws.SlotOf(second.wire) == RatchetLaws.SlotOf(first.wire) && second.wire != first.wire
    requires newKey !in C.End(u, events + more).secrets
    ensures Decrypt(StateOf(C.End(u, events + more), who), second.wire, newKey).1.Failure?
    ensures forall g :: g in C.End(u, events + more).got && g.reader == who ==> g.wire != second.wire
  {
    C.LostForEver(u, events, more, who, second);
    C.EveryMessageIsReadAtMostOnce(u, events);
    StillSent(u, events, more, second);
    hide C.Conversation, C.End, Decrypt, C.Deliverable;
    assert C.Lost(C.End(u, events), who, second.wire);
    LostIsRefused(u, events + more, who, second, newKey);
    forall g | g in C.End(u, events + more).got && g.reader == who
      ensures g.wire != second.wire
    {
      if g.wire == second.wire {
        SameSlotSameReading(C.End(u, events), first, g);
      }
    }
  }

  lemma SameSlotSameReading(w: World, g: Got, h: Got)
    requires g in w.got && h in w.got && RatchetLaws.SlotOf(g.wire) == RatchetLaws.SlotOf(h.wire)
    requires forall i, j :: 0 <= i < j < |w.got| ==>
               RatchetLaws.SlotOf(w.got[i].wire) != RatchetLaws.SlotOf(w.got[j].wire)
    ensures g == h
  {
  }

  // ---- a failed first contact ------------------------------------------------------------------------------

  lemma SentUnderOwnSecret(u: C.Setup, events: seq<Event>, x: Sent)
    requires C.Conversation(u, events) && x in C.End(u, events).sent
    ensures x.wire.Framed? && x.wire.ciphertext.Sealed? && IkmOf(x.wire.ciphertext.key) == Some(C.SessionIkm(u))
  {
    hide Explains;
    var c := C.ConversationExplained(u, events);
    var p := C.PlaceOf(c, C.End(u, events), x);
    C.KeySchedule.KeyAtIkm(c, p);
  }

  /** Two first contacts with new key pairs drawn for each have different handshake secrets. */
  lemma NewEphemeralNewSecret(u: C.Setup, v: C.Setup)
    requires C.Honest(u) && C.Honest(v) && u.bobIdentity == v.bobIdentity && u.ephemeral != v.ephemeral
    ensures C.SessionIkm(u) != C.SessionIkm(v)
  {
    assert C.SessionIkm(u)[1] == Dh(u.ephemeral, u.bobIdentity);
    assert C.SessionIkm(v)[1] == Dh(v.ephemeral, v.bobIdentity);
  }

  /**
   While Bob has a conversation with Alice open, from whichever of her first packets he read, the first
   packet of another handshake is refused; its bootstrap is not even looked at. After a restart, with
   no conversation open, ClientLaws.FirstMessageIsReadIff says when it is read, and then it replaces
   the session.
   */
  lemma OtherFirstContactIsRefused(u: C.Setup, events: seq<Event>, v: C.Setup, alice: App, stranger: App, bob: App,
                                   text: Bytes, id: MessageId, l: Luck)
    requires C.Conversation(u, events) && Reads(bob, C.End(u, events), Bob, alice.device)
    requires C.Honest(v) && CL.Meets(v, alice, stranger) && C.SessionIkm(v) != C.SessionIkm(u)
    requires |l.drawn| >= POOL_TARGET && l.newKey !in C.End(u, events).secrets
    requires !LS.IsProcessed(bob.store, id, alice.device)
    ensures CL.FirstPacket(v, alice, text).Some?
    ensures Receive(bob, Item(id, alice.device, Some(CL.FirstPacket(v, alice, text).value.0)), l) == (bob, false)
  {
    CL.FirstPacketIsSent(v, alice, stranger, text);
    hide C.Honest, Decrypt, MakeInitialPacket, C.End;
    var wire := CL.FirstPacket(v, alice, text).value.0.wire;
    var first := [Encrypts(Alice, text, true)];
    assert Sent(Alice, wire, text) in C.End(v, first).sent;
    SentUnderOwnSecret(v, first, Sent(Alice, wire, text));
    C.DecryptsExactlyUnreadMessages(u, events, Bob, wire, l.newKey);
    if t :| Sent(Alice, wire, t) in C.End(u, events).sent {
      SentUnderOwnSecret(u, events, Sent(Alice, wire, t));
      assert false;
    }
  }

  // ---- an accepted outbox item that is never read ------------------------------------------------------

  /** `a` is in the conversation with `peer`, reading as party `who`. */
  predicate Reads(a: App, w: World, who: Party, peer: DeviceId) {
    Knows(a, peer) && a.conversation.value.session == Some(StateOf(w, who))
  }

  /** The two messages of a failed send and of the next, successful one. */
  lemma TwoSends(u: C.Setup, events: seq<Event>, who: Party, peer: DeviceId, a: App, id1: MessageId, text1: Bytes,
                 display1: string, f: First, t1: SendLuck, id2: MessageId, text2: Bytes, display2: string, t2: SendLuck)
    requires C.Conversation(u, events) && Open(a, C.End(u, events), who, peer)
    requires StateOf(C.End(u, events), who).sendingChain.Some?
    requires StateOf(C.End(u, events), who).sendCount + 1 < U32_LIMIT
    requires !MovesOn(t1) && MovesOn(t2)
    ensures var a1 := SendPayload(a, id1, text1, display1, f, true, t1);
            var e := events + [SealsOnly(who, text1)] + [Encrypts(who, text2, true)];
            && Sends(a, text1, f, true) && Sends(a1, text2, f, true)
            && C.Conversation(u, e)
            && Open(SendPayload(a1, id2, text2, display2, f, true, t2), C.End(u, e), who, peer)
            && Sent(who, PacketOf(a, text1, f, true).wire, text1) in C.End(u, e).sent
            && Sent(who, PacketOf(a1, text2, f, true).wire, text2) in C.End(u, e).sent
            && PacketOf(a, text1, f, true).wire.Framed? && PacketOf(a1, text2, f, true).wire.Framed?
            && PacketOf(a, text1, f, true).wire.header == PacketOf(a1, text2, f, true).wire.header
            && PacketOf(a1, text2, f, true).wire.header == HeaderOf(StateOf(C.End(u, events), who))
            && PacketOf(a1, text2, f, true).version == CURRENT_VERSION
            && StateOf(C.End(u, e), Peer(who)) == StateOf(C.End(u, events), Peer(who))
            && C.End(u, e).got == C.End(u, events).got && C.End(u, e).secrets == C.End(u, events).secrets
  {
    hide C.End, C.Honest, SendPayload;
    var w := C.End(u, events);
    SendIsEvent(w, who, peer, a, id1, text1, display1, f, t1);
    C.OneMoreEvent(u, events, SealsOnly(who, text1));
    var a1 := SendPayload(a, id1, text1, display1, f, true, t1);
    var e1 := events + [SealsOnly(who, text1)];
    var w1 := C.End(u, e1);
    SendIsEvent(w1, who, peer, a1, id2, text2, display2, f, t2);
    C.OneMoreEvent(u, e1, Encrypts(who, text2, true));
    NextPacketRepeatsIff(a, id1, text1, display1, f, true, t1, text2, f, true);
  }

  /** What the recipient's acknowledgement of an item says about the conversation. */
  lemma AcknowledgedIsRead(u: C.Setup, events: seq<Event>, who: Party, b: App, peer: DeviceId, item: Item, l: Luck)
    requires C.Conversation(u, events) && Reads(b, C.End(u, events), who, peer) && item.sender == peer
    requires |l.drawn| >= POOL_TARGET && l.newKey !in C.End(u, events).secrets
    requires item.packet.Some? && exists x :: x in C.End(u, events).sent && x.wire == item.packet.value.wire
    requires Receive(b, item, l).1 && !LS.IsProcessed(b.store, item.id, peer)
    ensures var e := events + [Delivers(who, item.packet.value.wire, l.newKey)];
            && C.Conversation(u, e) && Reads(Receive(b, item, l).0, C.End(u, e), who, peer)
            && exists g :: g in C.End(u, e).got && g.reader == who && g.wire == item.packet.value.wire
  {
    hide C.End, C.Honest, Decrypt;
    var w, ev := C.End(u, events), Delivers(who, item.packet.value.wire, l.newKey);
    C.OneMoreEvent(u, events, ev);
    var (s, r) := Decrypt(StateOf(w, who), ev.wire, ev.newKey);
    assert r.Success?;
    assert Got(who, ev.wire, r.value) in Step(w, ev).got;
  }

  /**
   After a failed send and a successful one, once the recipient has acknowledged the second item, the
   first is not acknowledged in any continuation, though the server takes it when it is retried.
   */
  lemma FailedItemIsNeverRead(u: C.Setup, events: seq<Event>, more: seq<Event>, who: Party, a: App, b: App,
                              id1: MessageId, text1: Bytes, display1: string, f: First, t1: SendLuck,
                              id2: MessageId, text2: Bytes, display2: string, t2: SendLuck, l2: Luck,
                              b': App, id: MessageId, l: Luck)
    requires C.Conversation(u, events) && !MovesOn(t1) && MovesOn(t2)
    requires var w := C.End(u, events);
             && Open(a, w, who, b.device) && Reads(b, w, Peer(who), a.device)
             && StateOf(w, who).sendingChain.Some? && StateOf(w, who).sendCount + 1 < U32_LIMIT
             && |l2.drawn| >= POOL_TARGET && l2.newKey !in w.secrets
    requires var a1 := SendPayload(a, id1, text1, display1, f, true, t1);
             && Sends(a, text1, f, true) && Sends(a1, text2, f, true)
             && !LS.IsProcessed(b.store, id2, a.device)
             && Receive(b, Item(id2, a.device, Some(PacketOf(a1, text2, f, true))), l2).1
    requires var a1 := SendPayload(a, id1, text1, display1, f, true, t1);
             var e := events + [SealsOnly(who, text1)] + [Encrypts(who, text2, true)]
                      + [Delivers(Peer(who), PacketOf(a1, text2, f, true).wire, l2.newKey)] + more;
             && C.Conversation(u, e) && Reads(b', C.End(u, e), Peer(who), a.device)
             && |l.drawn| >= POOL_TARGET && l.newKey !in C.End(u, e).secrets && !LS.IsProcessed(b'.store, id, a.device)
    ensures Receive(b', Item(id, a.device, Some(PacketOf(a, text1, f, true))), l) == (b', false)
  {
    hide C.End, C.Honest, C.Lost, Receive, SendPayload, MakePacket;
    TwoSends(u, events, who, b.device, a, id1, text1, display1, f, t1, id2, text2, display2, t2);
    var a1 := SendPayload(a, id1, text1, display1, f, true, t1);
    var p1, p2 := PacketOf(a, text1, f, true), PacketOf(a1, text2, f, true);
    var e2 := events + [SealsOnly(who, text1)] + [Encrypts(who, text2, true)];
    AcknowledgedIsRead(u, e2, Peer(who), b, a.device, Item(id2, a.device, Some(p2)), l2);
    var e3 := e2 + [Delivers(Peer(who), p2.wire, l2.newKey)];
    var x := Sent(who, p1.wire, text1);
    StillSent(u, e2, [Delivers(Peer(who), p2.wire, l2.newKey)], x);
    ReadHeaderIsLost(C.End(u, e3), Peer(who), p1.wire, p2.wire);
    LostIsNeverAcknowledged(u, e3, more, Peer(who), x, b', a.device, Item(id, a.device, Some(p1)), l);
  }

  lemma ReadHeaderIsLost(w: World, who: Party, wire: Wire, other: Wire)
    requires wire.Framed? && other.Framed? && wire.header == other.header
    requires exists g :: g in w.got && g.reader == who && g.wire == other
    ensures C.Lost(w, who, wire)
  {
  }

  /** The retried item leaves the outbox and is shown as sent. */
  lemma RetriedItemIsShown(s: LS.Store, item: LS.OutboxItem, committed: SessionSnapshot, now: Time)
    requires FromSnapshot(item.sessionAfter).Success?
    ensures var s' := Retry(s, item, true, committed, now);
            && item.id !in s'.outbox && D.OutCopies(s'.messages, item.id) == D.OutCopies(s.messages, item.id) + 1
  {
    var row := LS.HistoryRow(item.peer, false, item.text, now, item.id);
    D.OutCopiesAppend(s.messages, [row], item.id);
  }

  // ---- one such run, from the first contact on ------------------------------------------------------------

  function FirstOf(u: C.Setup): First {
    First(Some(u.bundle), u.ephemeral, u.firstRatchet)
  }

  /** The recipient's luck is ordinary: a new key is drawn, the text can be shown, the disk works. */
  predicate Ordinary(u: C.Setup, l: Luck, drawn: set<Secret>) {
    && |l.drawn| >= POOL_TARGET && l.display.Some? && l.commitOk
    && l.newKey !in C.SetupSecrets(u) + {u.firstRatchet} + drawn
  }

  /** Alice has the contact and no session yet; Bob would accept her. */
  ghost predicate Strangers(u: C.Setup, alice: App, bob: App) {
    && CL.Meets(u, alice, bob) && CL.PrekeyInPlace(u, bob)
    && EnsureConversation(alice).Some?
    && EnsureConversation(alice).value.conversation
       == Some(Conversation(Entry(u.bobDevice, u.bundle.identitySigning), None))
  }

  function ContactEvents(u: C.Setup, alice: App, text: Bytes, l: Luck): seq<Event>
    requires Sends(alice, text, FirstOf(u), true)
  {
    [Encrypts(Alice, text, true), Delivers(Bob, PacketOf(alice, text, FirstOf(u), true).wire, l.newKey)]
  }

  lemma FirstSend(u: C.Setup, alice: App, bob: App, id: MessageId, text: Bytes, display: string, t: SendLuck)
    requires C.Honest(u) && Strangers(u, alice, bob) && MovesOn(t)
    ensures Sends(alice, text, FirstOf(u), true)
    ensures CL.FirstPacket(u, alice, text) == MakePacket(EnsureConversation(alice).value, text, FirstOf(u), true)
    ensures CL.FirstPacket(u, alice, text).Some?
    ensures C.Conversation(u, [Encrypts(Alice, text, true)])
    ensures Open(SendPayload(alice, id, text, display, FirstOf(u), true, t), C.End(u, [Encrypts(Alice, text, true)]),
                 Alice, u.bobDevice)
    ensures var w := C.End(u, [Encrypts(Alice, text, true)]);
            && w.alice.sendingChain.Some? && w.alice.sendCount == 1 && w.alice.dhSelf == u.firstRatchet
            && w.alice.skipped == map[] && w.alice.version == CURRENT_VERSION
            && PacketOf(alice, text, FirstOf(u), true).wire.Framed?
            && PacketOf(alice, text, FirstOf(u), true).wire.header == Header(PublicKey(u.firstRatchet), 0, 0)
  {
    CL.FirstPacketIsSent(u, alice, bob, text);
    var e := Encrypts(Alice, text, true);
    assert [e][1..] == [] && Run(Step(C.Start(u), e), []) == Step(C.Start(u), e);
  }

  /** First contact succeeds, and both are then in one conversation. */
  lemma FirstContact(u: C.Setup, alice: App, bob: App, id: MessageId, text: Bytes, display: string, t: SendLuck,
                     l: Luck)
    requires C.Honest(u) && Strangers(u, alice, bob) && MovesOn(t)
    requires Ordinary(u, l, {}) && !LS.IsProcessed(bob.store, id, alice.device)
    ensures Sends(alice, text, FirstOf(u), true)
    ensures var e := ContactEvents(u, alice, text, l);
            var p := PacketOf(alice, text, FirstOf(u), true);
            && C.Conversation(u, e)
            && Open(SendPayload(alice, id, text, display, FirstOf(u), true, t), C.End(u, e), Alice, u.bobDevice)
            && Receive(bob, Item(id, alice.device, Some(p)), l).1
            && Reads(Receive(bob, Item(id, alice.device, Some(p)), l).0, C.End(u, e), Bob, alice.device)
            && BobHasReadOne(u, C.End(u, e), l)
  {
    hide C.Honest, C.End, Receive, SendPayload, MakePacket, MakeInitialPacket, Decrypt;
    FirstSend(u, alice, bob, id, text, display, t);
    CL.FirstPacketIsSent(u, alice, bob, text);
    BobReads(u, alice, bob, id, text, l);
    var p := PacketOf(alice, text, FirstOf(u), true);
    var e1, ev := [Encrypts(Alice, text, true)], Delivers(Bob, p.wire, l.newKey);
    C.OneMoreEvent(u, e1, ev);
    assert e1 + [ev] == ContactEvents(u, alice, text, l);
    FirstReading(C.Start(u).bob, p.wire, l.newKey);
  }

  /** The first message lets Alice in and is read in the session that the conversation starts from. */
  lemma BobReads(u: C.Setup, alice: App, bob: App, id: MessageId, text: Bytes, l: Luck)
    requires C.Honest(u) && CL.Meets(u, alice, bob) && CL.PrekeyInPlace(u, bob)
    requires Ordinary(u, l, {}) && !LS.IsProcessed(bob.store, id, alice.device)
    ensures CL.FirstPacket(u, alice, text).Some?
    ensures var p := CL.FirstPacket(u, alice, text).value.0;
            var (bob', ack) := Receive(bob, Item(id, alice.device, Some(p)), l);
            && ack && Knows(bob', alice.device)
            && Decrypt(C.Start(u).bob, p.wire, l.newKey).1 == Success(text)
            && bob'.conversation.value.session == Some(Decrypt(C.Start(u).bob, p.wire, l.newKey).0)
  {
    hide C.Honest, C.Start, MakeInitialPacket, EstablishResponder, Decrypt, Greet;
    CL.FirstPacketIsSent(u, alice, bob, text);
    CL.InPlaceIffFound(u, bob);
    CL.BobStartsRight(u, alice, bob, text);
    CL.FirstMessageDecrypts(u, alice, bob, text, l.newKey);
  }

  predicate BobHasReadOne(u: C.Setup, w: World, l: Luck) {
    && w.alice.sendingChain.Some? && w.alice.sendCount == 1 && w.alice.dhSelf == u.firstRatchet
    && w.alice.skipped == map[] && w.alice.version == CURRENT_VERSION
    && w.bob.dhRemote == Some(PublicKey(u.firstRatchet)) && w.bob.recvCount == 1
    && |w.got| == 1 && w.got[0].wire.Framed? && w.got[0].wire.header.n == 0
    && w.secrets == C.SetupSecrets(u) + {u.firstRatchet, l.newKey}
  }

  lemma FirstReading(s: State, w: Wire, newKey: Secret)
    requires Decrypt(s, w, newKey).1.Success? && s.dhRemote.None? && s.skipped == map[] && s.recvCount == 0
    requires s.receivingChain.Some? && w.header.pn == 0 && w.header.n == 0
    ensures var s' := Decrypt(s, w, newKey).0;
            s'.dhRemote == Some(w.header.dhPub) && s'.recvCount == 1
  {
  }

  /** The next message of a chain Bob has read one message of is deliverable to him. */
  lemma NextIsDeliverable(u: C.Setup, events: seq<Event>, wire: Wire, text: Bytes)
    requires C.Conversation(u, events)
    requires var w := C.End(u, events);
             && Sent(Alice, wire, text) in w.sent && wire.Framed? && wire.header.n == 1
             && w.bob.dhRemote == Some(wire.header.dhPub) && w.bob.recvCount == 1
             && |w.got| == 1 && w.got[0].wire.Framed? && w.got[0].wire.header.n == 0
    ensures C.Deliverable(C.End(u, events), Bob, wire)
  {
    hide C.Lost, C.End, C.Conversation;
    C.CurrentChainIsLostOnlyIfRead(u, events, Bob, Sent(Alice, wire, text));
  }

  /** A deliverable message in an unprocessed item is acknowledged. */
  lemma DeliverableIsAcknowledged(u: C.Setup, events: seq<Event>, b: App, peer: DeviceId, item: Item, l: Luck,
                                  drawn: set<Secret>)
    requires C.Conversation(u, events) && Reads(b, C.End(u, events), Bob, peer) && item.sender == peer
    requires item.packet.Some? && item.packet.value.version == CURRENT_VERSION
    requires C.Deliverable(C.End(u, events), Bob, item.packet.value.wire)
    requires Ordinary(u, l, drawn) && C.End(u, events).secrets <= C.SetupSecrets(u) + {u.firstRatchet} + drawn
    requires !LS.IsProcessed(b.store, item.id, peer)
    ensures Receive(b, item, l).1
  {
    hide Decrypt, C.Honest, C.End, C.Lost;
    C.DecryptsExactlyUnreadMessages(u, events, Bob, item.packet.value.wire, l.newKey);
  }

  /** While the conversation stays open, the packet is not acknowledged in any continuation. */
  ghost predicate NeverAcknowledged(u: C.Setup, events: seq<Event>, who: Party, peer: DeviceId, id: MessageId,
                                    p: Packet)
  {
    forall more: seq<Event>, b: App, l: Luck ::
      (&& C.Conversation(u, events + more) && Reads(b, C.End(u, events + more), who, peer)
       && |l.drawn| >= POOL_TARGET && l.newKey !in C.End(u, events + more).secrets
       && !LS.IsProcessed(b.store, id, peer)) ==>
        Receive(b, Item(id, peer, Some(p)), l) == (b, false)
  }

  ghost predicate ServerIsReady(t: D.ServerTables.Tables, from: DeviceId, to: DeviceId, id: MessageId) {
    && D.ServerTables.References(t) && from in t.devices && to in t.devices
    && id !in t.envelopes && D.HasRoom(t, to)
  }

  /** The item is in the outbox; a server with room takes it, and it then leaves the outbox and is shown as sent. */
  ghost predicate WillBeShown(s: LS.Store, from: DeviceId, to: DeviceId, id: MessageId) {
    && id in s.outbox
    && var item := s.outbox[id].item;
    && (forall t, now :: ServerIsReady(t, from, to, id) ==> D.MQ.Send(t, from, D.Request(item), now).1.Success?)
    && forall committed, now ::
         var s' := Retry(s, item, true, committed, now);
         id !in s'.outbox && D.OutCopies(s'.messages, id) == D.OutCopies(s.messages, id) + 1
  }

  lemma SavedSessionRestores(w: World, who: Party, peer: DeviceId, a: App, id: MessageId, text: Bytes, display: string,
                             f: First, t: SendLuck)
    requires Open(a, w, who, peer) && StateOf(w, who).sendingChain.Some? && StateOf(w, who).version == CURRENT_VERSION
    requires |StateOf(w, who).skipped| <= MAX_SKIP && t.saveOk && !t.sendOk && SavesItsSession(a, text, f, true, t)
    ensures var s := SendPayload(a, id, text, display, f, true, t).store;
            id in s.outbox && s.outbox[id].item == OutboxEntry(a, id, peer, display, t)
    ensures FromSnapshot(t.saved).Success?
  {
    SnapshotRoundTrip(Encrypt(StateOf(w, who), text, true).0, t.saved);
  }

  lemma SavedWillBeShown(s: LS.Store, a: App, id: MessageId, peer: DeviceId, display: string, t: SendLuck)
    requires id in s.outbox && s.outbox[id].item == OutboxEntry(a, id, peer, display, t)
    requires FromSnapshot(t.saved).Success?
    ensures WillBeShown(s, a.device, peer, id)
  {
    var item := s.outbox[id].item;
    forall t, now | ServerIsReady(t, a.device, peer, id)
      ensures D.MQ.Send(t, a.device, D.Request(item), now).1.Success?
    {
      D.MQ.RefusedExactlyWhenFull(t, a.device, D.Request(item), now);
    }
    forall committed, now
      ensures var s' := Retry(s, item, true, committed, now);
              id !in s'.outbox && D.OutCopies(s'.messages, id) == D.OutCopies(s.messages, id) + 1
    {
      RetriedItemIsShown(s, item, committed, now);
    }
  }

  lemma LostIsNeverAcknowledgedAgain(u: C.Setup, events: seq<Event>, who: Party, x: Sent, peer: DeviceId,
                                     id: MessageId, p: Packet)
    requires C.Conversation(u, events) && x in C.End(u, events).sent && x.from == Peer(who)
    requires C.Lost(C.End(u, events), who, x.wire) && p.wire == x.wire
    ensures NeverAcknowledged(u, events, who, peer, id, p)
  {
    hide C.Lost, C.End, Receive, C.Honest;
    forall more: seq<Event>, b: App, l: Luck |
        && C.Conversation(u, events + more) && Reads(b, C.End(u, events + more), who, peer)
        && |l.drawn| >= POOL_TARGET && l.newKey !in C.End(u, events + more).secrets
        && !LS.IsProcessed(b.store, id, peer)
      ensures Receive(b, Item(id, peer, Some(p)), l) == (b, false)
    {
      LostIsNeverAcknowledged(u, events, more, who, x, b, peer, Item(id, peer, Some(p)), l);
    }
  }

  /**
   The composed run, for every honest setup. First contact; a message whose send fails; one whose send succeeds and
   which is acknowledged. The failed one is then in Alice's outbox: a server with room takes it when it is
   retried, and it is shown as sent; but nothing under it has been read, and it is not acknowledged in any
   continuation.
   */
  lemma AcceptedItemIsNeverRead(u: C.Setup, alice: App, bob: App, id0: MessageId, text0: Bytes, display0: string,
                                t0: SendLuck, l0: Luck, id1: MessageId, text1: Bytes, display1: string, t1: SendLuck,
                                id2: MessageId, text2: Bytes, display2: string, t2: SendLuck, l2: Luck)
    requires C.Honest(u) && Strangers(u, alice, bob) && MovesOn(t0) && t1.saveOk && !t1.sendOk && MovesOn(t2)
    requires id0 != id1 && id0 != id2 && id1 != id2 && id0 !in bob.store.processed && id2 !in bob.store.processed
    requires Ordinary(u, l0, {}) && Ordinary(u, l2, {l0.newKey}) && text1 != text2
    requires var alice0 := SendPayload(alice, id0, text0, display0, FirstOf(u), true, t0);
             SavesItsSession(alice0, text1, FirstOf(u), true, t1)
    ensures Sends(alice, text0, FirstOf(u), true)
    ensures var f := FirstOf(u);
            var alice0 := SendPayload(alice, id0, text0, display0, f, true, t0);
            var (bob0, ack0) := Receive(bob, Item(id0, alice.device, Some(PacketOf(alice, text0, f, true))), l0);
            var alice1 := SendPayload(alice0, id1, text1, display1, f, true, t1);
            && ack0 && Sends(alice0, text1, f, true) && Sends(alice1, text2, f, true)
            && var alice2 := SendPayload(alice1, id2, text2, display2, f, true, t2);
               var p1, p2 := PacketOf(alice0, text1, f, true), PacketOf(alice1, text2, f, true);
               && Receive(bob0, Item(id2, alice.device, Some(p2)), l2).1
               && WillBeShown(alice2.store, alice.device, u.bobDevice, id1)
               && var e := ContactEvents(u, alice, text0, l0)
                           + [SealsOnly(Alice, text1)] + [Encrypts(Alice, text2, true)]
                           + [Delivers(Bob, p2.wire, l2.newKey)];
                  && C.Conversation(u, e) && Sent(Alice, p1.wire, text1) in C.End(u, e).sent
                  && (forall g :: g in C.End(u, e).got ==> g.wire != p1.wire)
                  && NeverAcknowledged(u, e, Bob, alice.device, id1, p1)
  {
    hide C.Honest, C.End, C.Lost, SendPayload, MakePacket, Receive, Decrypt, SavesItsSession, NeverAcknowledged,
        WillBeShown;
    var f := FirstOf(u);
    FirstContact(u, alice, bob, id0, text0, display0, t0, l0);
    var alice0 := SendPayload(alice, id0, text0, display0, f, true, t0);
    var item0 := Item(id0, alice.device, Some(PacketOf(alice, text0, f, true)));
    var bob0 := Receive(bob, item0, l0).0;
    var e0 := ContactEvents(u, alice, text0, l0);
    TwoSends(u, e0, Alice, u.bobDevice, alice0, id1, text1, display1, f, t1, id2, text2, display2, t2);
    var alice1 := SendPayload(alice0, id1, text1, display1, f, true, t1);
    var alice2 := SendPayload(alice1, id2, text2, display2, f, true, t2);
    var p1, p2 := PacketOf(alice0, text1, f, true), PacketOf(alice1, text2, f, true);
    var e2 := e0 + [SealsOnly(Alice, text1)] + [Encrypts(Alice, text2, true)];
    var item2 := Item(id2, alice.device, Some(p2));
    NextIsDeliverable(u, e2, p2.wire, text2);
    OtherItemsUnprocessed(bob, item0, l0, id2);
    DeliverableIsAcknowledged(u, e2, bob0, alice.device, item2, l2, {l0.newKey});
    AcknowledgedIsRead(u, e2, Bob, bob0, alice.device, item2, l2);
    SavedSessionRestores(C.End(u, e0), Alice, u.bobDevice, alice0, id1, text1, display1, f, t1);
    OutboxKeeps(alice1, id2, text2, display2, f, t2, id1);
    SameDevice(alice, id0, text0, display0, f, t0);
    SavedWillBeShown(alice2.store, alice0, id1, u.bobDevice, display1, t1);
    var e3 := e2 + [Delivers(Bob, p2.wire, l2.newKey)];
    ReadHeaderIsLost(C.End(u, e3), Bob, p1.wire, p2.wire);
    StillSent(u, e2, [Delivers(Bob, p2.wire, l2.newKey)], Sent(Alice, p1.wire, text1));
    StillSent(u, e2, [Delivers(Bob, p2.wire, l2.newKey)], Sent(Alice, p2.wire, text2));
    OneReadingUnderHeader(u, e3, p1.wire, text1, p2.wire, text2);
    LostIsNeverAcknowledgedAgain(u, e3, Bob, Sent(Alice, p1.wire, text1), alice.device, id1, p1);
  }

  lemma SameDevice(a: App, id: MessageId, text: Bytes, display: string, f: First, t: SendLuck)
    ensures SendPayload(a, id, text, display, f, true, t).device == a.device
  {
  }

  lemma OneReadingUnderHeader(u: C.Setup, events: seq<Event>, wire: Wire, text: Bytes, other: Wire, text2: Bytes)
    requires C.Conversation(u, events) && text != text2
    requires Sent(Alice, wire, text) in C.End(u, events).sent && Sent(Alice, other, text2) in C.End(u, events).sent
    requires wire.Framed? && other.Framed? && wire.header == other.header
    requires exists g :: g in C.End(u, events).got && g.wire == other
    ensures forall g :: g in C.End(u, events).got ==> g.wire != wire
  {
    var w := C.End(u, events);
    C.EveryMessageIsReadAtMostOnce(u, events);
    var c := C.ConversationExplained(u, events);
    var p := C.PlaceOf(c, w, Sent(Alice, wire, text));
    var q := C.PlaceOf(c, w, Sent(Alice, other, text2));
    hide C.End, C.Honest, Explains;
    var h :| h in w.got && h.wire == other;
    forall g | g in w.got
      ensures g.wire != wire
    {
      if g.wire == wire {
        SameSlotSameReading(w, g, h);
        assert false;
      }
    }
  }

  lemma OtherItemsUnprocessed(b: App, item: Item, l: Luck, id: MessageId)
    requires |l.drawn| >= POOL_TARGET && id != item.id && id !in b.store.processed
    ensures id !in Receive(b, item, l).0.store.processed
  {
  }

  lemma OutboxKeeps(a: App, id: MessageId, text: Bytes, display: string, f: First, t: SendLuck, other: MessageId)
    requires other in a.store.outbox && other != id
    ensures var s := SendPayload(a, id, text, display, f, true, t).store;
            other in s.outbox && s.outbox[other] == a.store.outbox[other]
  {
  }
}
