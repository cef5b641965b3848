/**
 What the client's steps guarantee: every turn of the poll loop is a delivery step, a one-time
 prekey lives until its first committed use, and an honest first message is read exactly while
 its prekey is there.
 */
module ClientLaws {
  import opened Wrappers
  import opened Crypto
  import opened Ratchet
  import opened Handshake
  import opened Identity
  import opened ClientApp
  import LS = LocalStore
  import D = Delivery
  import opened Snapshot
  import RatchetLaws
  import TwoParty
  import C = Conversations

  // ---- the poll loop refines the delivery protocol -------------------------------------------

  /** What the delivery protocol sees of a turn of the poll loop. */
  function OutcomeOf(a: App, item: Item, l: Luck): D.Outcome
    requires |l.drawn| >= POOL_TARGET
  {
    var (a', ack) := Receive(a, item, l);
    if ack && !LS.IsProcessed(a.store, item.id, item.sender) && l.display.Some? then
      D.Accept(l.display.value, l.snapshot, a'.store.pins)
    else D.Skip(a'.store.pins)
  }

  /** Whatever the packet and the session are, the store and the acknowledgements move as one delivery step. */
  lemma ReceiveIsDeliveryStep(a: App, item: Item, l: Luck, confirmed: set<MessageId>, rest: seq<D.Pulled>,
                              acks: seq<MessageId>)
    requires |l.drawn| >= POOL_TARGET
    ensures var c := D.Client(a.store, confirmed, [D.Pulled(item.id, item.sender)] + rest, acks);
            var (a', ack) := Receive(a, item, l);
            && D.HandleItem(c, OutcomeOf(a, item, l), l.now)
               == D.Client(a'.store, confirmed, rest, if ack then acks + [item.id] else acks)
            && (ack && !LS.IsProcessed(a.store, item.id, item.sender) <==> OutcomeOf(a, item, l).Accept?)
  {
    var inbox := [D.Pulled(item.id, item.sender)] + rest;
    assert inbox[1..] == rest;
  }

  // ---- one-time prekeys ------------------------------------------------------------------------

  /** Reading the item commits a message whose bootstrap names the prekey. */
  predicate Uses(a: App, item: Item, l: Luck, p: PreKeyId)
    requires |l.drawn| >= POOL_TARGET
  {
    && Receive(a, item, l).1 && !LS.IsProcessed(a.store, item.id, item.sender)
    && item.packet.value.bootstrap.Some? && item.packet.value.bootstrap.value.oneTimeId == Some(p)
  }

  predicate NewDraws(l: Luck, p: PreKeyId) {
    forall i :: 0 <= i < |l.drawn| ==> l.drawn[i].id != p
  }

  lemma PoolAfter(a: App, item: Item, l: Luck)
    requires |l.drawn| >= POOL_TARGET
    ensures Receive(a, item, l).0.pool
         == if Receive(a, item, l).1 && !LS.IsProcessed(a.store, item.id, item.sender)
            then UsePrekey(a.pool, item.packet.value, l.drawn) else a.pool
  {
  }

  lemma PrekeyAfter(a: App, item: Item, l: Luck, p: PreKeyId)
    requires |l.drawn| >= POOL_TARGET
    ensures !Uses(a, item, l, p) && Find(a.pool, p).Some? ==> Find(Receive(a, item, l).0.pool, p) == Find(a.pool, p)
    ensures Uses(a, item, l, p) && NewDraws(l, p) ==> Find(Receive(a, item, l).0.pool, p) == None
    ensures Uses(a, item, l, p) ==> |Receive(a, item, l).0.pool| >= POOL_TARGET
  {
    PoolAfter(a, item, l);
    if item.packet.Some? && item.packet.value.bootstrap.Some? && item.packet.value.bootstrap.value.oneTimeId.Some? {
      var used := item.packet.value.bootstrap.value.oneTimeId.value;
      FindAfterRemove(a.pool, used, p);
      var left := Remove(a.pool, used);
      if |left| < POOL_TARGET {
        FindInLonger(left, l.drawn[..POOL_TARGET - |left|], p);
        FindIff(l.drawn[..POOL_TARGET - |left|], p);
      }
    }
  }

  ghost predicate NeverUses(a: App, items: seq<Item>, ls: seq<Luck>, p: PreKeyId)
    requires |items| == |ls| && forall l :: l in ls ==> |l.drawn| >= POOL_TARGET
  {
    items == [] ||
    var n := |items| - 1;
    NeverUses(a, items[..n], ls[..n], p) && !Uses(ReceiveAll(a, items[..n], ls[..n]).0, items[n], ls[n], p)
  }

  /** Over any run of the poll loop a prekey keeps its secret until a message that names it is committed. */
  lemma {:induction false} PrekeyKeptUntilUsed(a: App, items: seq<Item>, ls: seq<Luck>, p: PreKeyId)
    requires |items| == |ls| && forall l :: l in ls ==> |l.drawn| >= POOL_TARGET
    requires Find(a.pool, p).Some? && NeverUses(a, items, ls, p)
    ensures Find(ReceiveAll(a, items, ls).0.pool, p) == Find(a.pool, p)
  {
    if items != [] {
      var n := |items| - 1;
      PrekeyKeptUntilUsed(a, items[..n], ls[..n], p);
      PrekeyAfter(ReceiveAll(a, items[..n], ls[..n]).0, items[n], ls[n], p);
    }
  }

  // ---- who is let in ---------------------------------------------------------------------------------

  /** The text that a bootstrap for `recipient` must carry the signer's signature of. */
  function SignedText(b: Bootstrap, recipient: DeviceId): BootstrapText {
    BootstrapText(recipient, b.exchange, b.ephemeral, b.oneTimeId)
  }

  /** The bootstrap is signed for this device, its prekey is there, and no key is degenerate. */
  predicate IsGenuine(a: App, b: Bootstrap) {
    && b.signature == Some(Signature(b.signer, SignedText(b, a.device)))
    && (b.oneTimeId.Some? ==> exists i :: 0 <= i < |a.pool| && a.pool[i].id == b.oneTimeId.value)
    && b.exchange != LowOrder && b.ephemeral != LowOrder
  }

  /** A session is set up exactly for the looked-up contact with its own identity key and a genuine bootstrap. */
  lemma EstablishedIff(a: App, sender: DeviceId, b: Bootstrap)
    ensures EstablishResponder(a, sender, b).Success?
            <==> && a.directory.Some? && a.directory.value.device == sender && a.directory.value.identityKey == b.signer
                 && IsGenuine(a, b)
    ensures EstablishResponder(a, sender, b) == Failure(InvalidBootstrap)
            <==> && a.directory.Some? && a.directory.value.device == sender && a.directory.value.identityKey == b.signer
                 && b.signature != Some(Signature(b.signer, SignedText(b, a.device)))
  {
    if b.oneTimeId.Some? {
      FindIff(a.pool, b.oneTimeId.value);
    }
  }

  /** Nothing contradicts the signer's claim to be this sender: neither the pinned key nor the looked-up one. */
  predicate IsCredible(a: App, sender: DeviceId, b: Bootstrap) {
    && (sender in a.store.pins ==> a.store.pins[sender] == b.signer)
    && (a.directory.Some? && a.directory.value.device == sender ==> a.directory.value.identityKey == b.signer)
  }

  /** An unknown sender is let in exactly with a credible and genuine bootstrap. */
  lemma GreetedIff(a: App, sender: DeviceId, p: Packet)
    ensures Greet(a, sender, p).1
            <==> p.bootstrap.Some? && IsCredible(a, sender, p.bootstrap.value) && IsGenuine(a, p.bootstrap.value)
  {
    if p.bootstrap.Some? {
      var b := p.bootstrap.value;
      var entry := if a.directory.Some? && a.directory.value.device == sender then a.directory.value
                   else Entry(sender, b.signer);
      var a2 := a.(store := LS.PinOrVerify(a.store, sender, b.signer).0, directory := Some(entry));
      EstablishedIff(a2, sender, b);
      hide EstablishResponder;
    }
  }

  /**
   With no conversation open for the sender, an unprocessed item without a credible and genuine bootstrap is not
   acknowledged, and leaves the conversation, the stored sessions, the history, the log and the prekeys as they were.
   */
  lemma StrangerIsRefused(a: App, item: Item, l: Luck)
    requires |l.drawn| >= POOL_TARGET && !Knows(a, item.sender) && !LS.IsProcessed(a.store, item.id, item.sender)
    requires item.packet.Some? && item.packet.value.bootstrap.Some? ==>
               var b := item.packet.value.bootstrap.value; !(IsCredible(a, item.sender, b) && IsGenuine(a, b))
    ensures var (a', ack) := Receive(a, item, l);
            && !ack && a'.conversation == a.conversation && a'.pool == a.pool
            && a'.store == a.store.(pins := a'.store.pins)
            && forall peer :: peer in a.store.pins ==>
                 peer in a'.store.pins && a'.store.pins[peer] == a.store.pins[peer]
  {
    hide Greet, ReadItem, IsCredible, IsGenuine;
    if item.packet.Some? {
      GreetedIff(a, item.sender, item.packet.value);
      RefusedGreeting(a, item.sender, item.packet.value);
    }
  }

  lemma RefusedGreeting(a: App, sender: DeviceId, p: Packet)
    requires !Greet(a, sender, p).1
    ensures var a' := Greet(a, sender, p).0;
            && a'.conversation == a.conversation && a'.pool == a.pool && a'.store == a.store.(pins := a'.store.pins)
            && forall peer :: peer in a.store.pins ==>
                 peer in a'.store.pins && a'.store.pins[peer] == a.store.pins[peer]
  {
    hide EstablishResponder;
  }

  // ---- the first message of an honest initiator ------------------------------------------------------

  /** Bob runs with the secrets the bundle advertises, and has no reason to distrust the sender. */
  predicate Meets(u: C.Setup, alice: App, bob: App) {
    && alice.exchange == u.aliceIdentity && alice.device == u.aliceDevice
    && bob.exchange == u.bobIdentity && bob.signedPrekey == u.signedPrekey && bob.device == u.bobDevice
    && !Knows(bob, alice.device)
    && (alice.device in bob.store.pins ==> bob.store.pins[alice.device] == alice.signing)
    && (bob.directory.Some? && bob.directory.value.device == alice.device ==>
          bob.directory.value.identityKey == alice.signing)
  }

  /** Bob's first entry under the identifier that the bundle names holds the secret that it advertises. */
  ghost predicate PrekeyInPlace(u: C.Setup, bob: App) {
    u.bundle.oneTimeId.Some? ==> u.oneTime.Some? && Holds(bob.pool, u.bundle.oneTimeId.value, u.oneTime.value)
  }

  predicate FindsPrekey(u: C.Setup, bob: App) {
    u.bundle.oneTimeId.Some? ==> Find(bob.pool, u.bundle.oneTimeId.value) == u.oneTime
  }

  lemma InPlaceIffFound(u: C.Setup, bob: App)
    requires C.Honest(u)
    ensures PrekeyInPlace(u, bob) <==> FindsPrekey(u, bob)
  {
    InitiationSucceedsIff(u.aliceIdentity, u.bundle, u.ephemeral);
    if u.bundle.oneTimeId.Some? {
      FoundIffHeld(bob.pool, u.bundle.oneTimeId.value, u.oneTime.value);
    }
  }

  function FirstPacket(u: C.Setup, alice: App, text: Bytes): Option<(Packet, State)> {
    MakeInitialPacket(alice, Entry(u.bobDevice, u.bundle.identitySigning), text,
                      First(Some(u.bundle), u.ephemeral, u.firstRatchet), true)
  }

  /** The packet carries the first wire message of the conversation set up by `u`. */
  lemma FirstPacketIsSent(u: C.Setup, alice: App, bob: App, text: Bytes)
    requires C.Honest(u) && Meets(u, alice, bob)
    ensures FirstPacket(u, alice, text).Some?
    ensures var p := FirstPacket(u, alice, text).value.0;
            var w := C.End(u, [TwoParty.Encrypts(TwoParty.Alice, text, true)]);
            && w.sent == [TwoParty.Sent(TwoParty.Alice, p.wire, text)] && w.got == [] && w.bob == C.Start(u).bob
            && w.secrets == C.SetupSecrets(u) + {u.firstRatchet}
            && C.Conversation(u, [TwoParty.Encrypts(TwoParty.Alice, text, true)])
            && p.wire.Framed? && p.wire.header.pn == 0 && p.wire.header.n == 0
            && p.version == CURRENT_VERSION && p.bootstrap.Some? && VerifyBootstrap(p.bootstrap.value, u.bobDevice)
            && p.bootstrap.value == Bootstrap(alice.signing, C.Initiated(u).identityExchangePublic,
                                              C.Initiated(u).ephemeralPublic, u.bundle.oneTimeId,
                                              p.bootstrap.value.signature)
  {
    var e := TwoParty.Encrypts(TwoParty.Alice, text, true);
    var w := TwoParty.Step(C.Start(u), e);
    assert [e][1..] == [];
    assert TwoParty.Run(w, []) == w;
    assert TwoParty.Admissible(C.Start(u), C.SessionIkm(u), e);
    assert TwoParty.AdmissibleRun(w, C.SessionIkm(u), []);
  }

  /** With the advertised prekey at hand Bob's new session is the one the conversation starts from. */
  lemma BobStartsRight(u: C.Setup, alice: App, bob: App, text: Bytes)
    requires C.Honest(u) && Meets(u, alice, bob) && FindsPrekey(u, bob)
    ensures FirstPacket(u, alice, text).Some?
    ensures var p := FirstPacket(u, alice, text).value.0;
            var (a, open) := Greet(bob, alice.device, p);
            open && Knows(a, alice.device) && a.conversation.value.session == Some(C.Start(u).bob)
  {
  }

  lemma FirstMessageDecrypts(u: C.Setup, alice: App, bob: App, text: Bytes, newKey: Secret)
    requires C.Honest(u) && Meets(u, alice, bob)
    requires newKey !in C.SetupSecrets(u) + {u.firstRatchet}
    ensures FirstPacket(u, alice, text).Some?
    ensures Decrypt(C.Start(u).bob, FirstPacket(u, alice, text).value.0.wire, newKey).1 == Success(text)
  {
  }

  /** A session rooted in another handshake secret does not open it. */
  lemma WrongRootFails(u: C.Setup, alice: App, bob: App, text: Bytes, newKey: Secret, hs: HandshakeResult,
                       peer: DeviceId)
    requires C.Honest(u) && Meets(u, alice, bob)
    requires hs.rootKey != C.Initiated(u).result.rootKey
    ensures FirstPacket(u, alice, text).Some?
    ensures Decrypt(InitResponder(peer, hs, u.signedPrekey), FirstPacket(u, alice, text).value.0.wire,
                    newKey).1.Failure?
  {
  }

  lemma WrongPrekeyFails(u: C.Setup, alice: App, bob: App, text: Bytes, newKey: Secret)
    requires C.Honest(u) && Meets(u, alice, bob) && !FindsPrekey(u, bob)
    ensures FirstPacket(u, alice, text).Some?
    ensures var p := FirstPacket(u, alice, text).value.0;
            var (a, open) := Greet(bob, alice.device, p);
            open ==> Knows(a, alice.device) && a.conversation.value.session.Some?
                     && Decrypt(a.conversation.value.session.value, p.wire, newKey).1.Failure?
  {
    FirstPacketIsSent(u, alice, bob, text);
    InitiationSucceedsIff(u.aliceIdentity, u.bundle, u.ephemeral);
    var found := Find(bob.pool, u.bundle.oneTimeId.value);
    if found.Some? {
      SidesAgreeIff(u.aliceIdentity, u.bundle, u.ephemeral, u.bobIdentity, u.signedPrekey, u.oneTime, found);
      var b := C.Initiated(u);
      var hs := Respond(u.bobIdentity, u.signedPrekey, b.identityExchangePublic, b.ephemeralPublic, found).value;
      WrongRootFails(u, alice, bob, text, newKey, hs, alice.device);
    }
  }

  /**
   An honest first message, arriving with a new key drawn and the disk working, is read, stored
   and acknowledged exactly if the prekey it names still has its secret (or it names none); and
   then the prekey is used up.
   */
  lemma FirstMessageIsReadIff(u: C.Setup, alice: App, bob: App, text: Bytes, id: MessageId, l: Luck)
    requires C.Honest(u) && Meets(u, alice, bob) && |l.drawn| >= POOL_TARGET
    requires !LS.IsProcessed(bob.store, id, alice.device)
    requires l.newKey !in C.SetupSecrets(u) + {u.firstRatchet} && l.display.Some? && l.commitOk
    ensures FirstPacket(u, alice, text).Some?
    ensures var (bob', ack) := Receive(bob, Item(id, alice.device, Some(FirstPacket(u, alice, text).value.0)), l);
            && (ack <==> PrekeyInPlace(u, bob))
            && (ack ==> id in bob'.store.processed
                        && bob'.store.messages == bob.store.messages
                             + [LS.HistoryRow(alice.device, true, l.display.value, l.now, id)])
            && (ack && u.bundle.oneTimeId.Some? && NewDraws(l, u.bundle.oneTimeId.value) ==>
                  Find(bob'.pool, u.bundle.oneTimeId.value) == None)
  {
    hide EstablishResponder, MakeInitialPacket, Decrypt, C.Honest;
    FirstPacketIsSent(u, alice, bob, text);
    var p := FirstPacket(u, alice, text).value.0;
    InPlaceIffFound(u, bob);
    if FindsPrekey(u, bob) {
      BobStartsRight(u, alice, bob, text);
      FirstMessageDecrypts(u, alice, bob, text, l.newKey);
    } else {
      WrongPrekeyFails(u, alice, bob, text, l.newKey);
    }
    if u.bundle.oneTimeId.Some? {
      PrekeyAfter(bob, Item(id, alice.device, Some(p)), l, u.bundle.oneTimeId.value);
    }
  }

  /**
   From publication to first use: whatever traffic Bob has read since the prekey was in his pool,
   as long as none of it used that prekey, the message of the one who claimed it is read.
   */
  lemma ClaimedPrekeyWorks(u: C.Setup, alice: App, bob: App, items: seq<Item>, ls: seq<Luck>, text: Bytes,
                           id: MessageId, l: Luck)
    requires |items| == |ls| && (forall x :: x in ls ==> |x.drawn| >= POOL_TARGET) && |l.drawn| >= POOL_TARGET
    requires u.oneTime.Some? && u.bundle.oneTimeId.Some?
    requires Holds(bob.pool, u.bundle.oneTimeId.value, u.oneTime.value)
    requires NeverUses(bob, items, ls, u.bundle.oneTimeId.value)
    requires var bob' := ReceiveAll(bob, items, ls).0;
             C.Honest(u) && Meets(u, alice, bob') && !LS.IsProcessed(bob'.store, id, alice.device)
    requires l.newKey !in C.SetupSecrets(u) + {u.firstRatchet} && l.display.Some? && l.commitOk
    ensures FirstPacket(u, alice, text).Some?
    ensures Receive(ReceiveAll(bob, items, ls).0, Item(id, alice.device, Some(FirstPacket(u, alice, text).value.0)),
                    l).1
  {
    hide Receive, MakeInitialPacket, Meets, C.Honest;
    FoundIffHeld(bob.pool, u.bundle.oneTimeId.value, u.oneTime.value);
    PrekeyKeptUntilUsed(bob, items, ls, u.bundle.oneTimeId.value);
    FoundIffHeld(ReceiveAll(bob, items, ls).0.pool, u.bundle.oneTimeId.value, u.oneTime.value);
    FirstMessageIsReadIff(u, alice, ReceiveAll(bob, items, ls).0, text, id, l);
  }

  // ---- what is on disk is what is in memory --------------------------------------------------------------

  /** Sessions are of the current version from their first moment on. */
  predicate CurrentSession(a: App) {
    a.conversation.Some? && a.conversation.value.session.Some? ==>
      a.conversation.value.session.value.version == CURRENT_VERSION
  }

  lemma SkipKeepsVersion(s: State, pub: Public, until: nat)
    ensures SkipReceivingKeys(s, pub, until).Success? ==>
              SkipReceivingKeys(s, pub, until).value.version == s.version
  {
    if s.receivingChain.Some? && s.recvCount < until {
      RatchetLaws.SkipToClosedForm(s, pub, until);
    }
  }

  lemma DecryptKeepsVersion(s: State, w: Wire, newKey: Secret)
    ensures Decrypt(s, w, newKey).0.version == s.version
  {
    if DecryptInner(s, w, newKey).Success? && RatchetLaws.SlotOf(w) !in s.skipped {
      var h := w.header;
      SkipKeepsVersion(s, h.dhPub, h.n);
      if s.dhRemote != Some(h.dhPub) {
        SkipKeepsVersion(s, if s.dhRemote.Some? then s.dhRemote.value else h.dhPub, h.pn);
        SkipKeepsVersion(TurnRatchet(s, h, newKey).value, h.dhPub, h.n);
      }
    }
  }

  lemma ReceiveKeepsCurrent(a: App, item: Item, l: Luck)
    requires CurrentSession(a) && |l.drawn| >= POOL_TARGET
    ensures CurrentSession(Receive(a, item, l).0)
  {
    if item.packet.Some? {
      var p := item.packet.value;
      var a1 := if Knows(a, item.sender) then a else Greet(a, item.sender, p).0;
      if a1.conversation.Some? && a1.conversation.value.session.Some? {
        DecryptKeepsVersion(a1.conversation.value.session.value, p.wire, l.newKey);
      }
      hide Decrypt;
    }
  }

  lemma SendKeepsCurrent(a: App, id: MessageId, text: Bytes, display: string, f: First, sealOk: bool, t: SendLuck)
    requires CurrentSession(a)
    ensures CurrentSession(SendPayload(a, id, text, display, f, sealOk, t))
  {
  }

  /**
   After a newly read item is acknowledged, reloading the stored session gives the session in memory,
   exactly if that holds at most MAX_SKIP skipped keys; otherwise it gives none.
   */
  lemma AcknowledgedSessionReloads(a: App, item: Item, l: Luck)
    requires |l.drawn| >= POOL_TARGET && CurrentSession(a) && CommitsItsSession(a, item, l)
    requires Receive(a, item, l).1 && !LS.IsProcessed(a.store, item.id, item.sender)
    ensures var a' := Receive(a, item, l).0;
            && Knows(a', item.sender) && a'.conversation.value.session.Some?
            && var session := a'.conversation.value.session.value;
               LS.LoadSession(a'.store, item.sender) == if |session.skipped| <= MAX_SKIP then Some(session) else None
  {
    ReceiveKeepsCurrent(a, item, l);
    var a' := Receive(a, item, l).0;
    CommittedIn(a, item, l);
    var session := a'.conversation.value.session.value;
    LS.CommittedSessionReloads(a.store, item.sender, item.id, l.display.value, session, l.snapshot, l.now);
  }

  /** What the commit of a newly read item leaves in the store. */
  lemma CommittedIn(a: App, item: Item, l: Luck)
    requires |l.drawn| >= POOL_TARGET
    requires Receive(a, item, l).1 && !LS.IsProcessed(a.store, item.id, item.sender)
    ensures var a' := Receive(a, item, l).0;
            && Knows(a', item.sender) && l.display.Some?
            && a'.store == LS.CommitIncoming(a.store, item.sender, item.id, l.display.value, l.snapshot, l.now)
                             .(pins := a'.store.pins)
  {
  }

  predicate Sends(a: App, text: Bytes, f: First, sealOk: bool) {
    EnsureConversation(a).Some? && MakePacket(EnsureConversation(a).value, text, f, sealOk).Some?
  }

  lemma PacketKeepsVersion(a: App, text: Bytes, f: First, sealOk: bool)
    requires CurrentSession(a) && Sends(a, text, f, sealOk)
    ensures MakePacket(EnsureConversation(a).value, text, f, sealOk).value.1.version == CURRENT_VERSION
  {
  }

  /**
   After a send that is saved, taken and committed, the session in memory is the one that sealed the packet, and
   the stored one reloads as it, exactly if it holds at most MAX_SKIP skipped keys; the message is shown last.
   */
  lemma SentSessionReloads(a: App, id: MessageId, text: Bytes, display: string, f: First, sealOk: bool, t: SendLuck)
    requires CurrentSession(a) && Sends(a, text, f, sealOk) && SavesItsSession(a, text, f, sealOk, t)
    requires t.saveOk && t.sendOk && t.commitOk
    ensures var a' := SendPayload(a, id, text, display, f, sealOk, t);
            var session := MakePacket(EnsureConversation(a).value, text, f, sealOk).value.1;
            var peer := EnsureConversation(a).value.conversation.value.peer;
            && a'.conversation == Some(Conversation(peer, Some(session)))
            && LS.LoadSession(a'.store, peer.device) == (if |session.skipped| <= MAX_SKIP then Some(session) else None)
            && a'.store.messages == a.store.messages + [LS.HistoryRow(peer.device, false, display, t.now, id)]
            && forall other :: other != peer.device ==>
                 LS.LoadSession(a'.store, other) == LS.LoadSession(a.store, other)
  {
    var a1 := EnsureConversation(a).value;
    var peer := a1.conversation.value.peer;
    var session := MakePacket(a1, text, f, sealOk).value.1;
    PacketKeepsVersion(a, text, f, sealOk);
    hide MakePacket, LS.LoadSession, FromSnapshot;
    var item := OutboxEntry(a1, id, peer.device, display, t);
    var saved := LS.SaveOutbox(a.store, item, t.now);
    LS.DeliveredSessionReloads(saved, item, session, t.committed, t.now);
    forall other | other != peer.device
      ensures LS.LoadSession(LS.CommitOutgoing(saved, item, t.committed, t.now), other)
           == LS.LoadSession(a.store, other)
    {
      LS.OtherSessionsStay(saved, item, 0, 0, "", t.committed, t.now, other);
      SavingKeepsSessions(a.store, item, t.now, other);
    }
  }

  lemma SavingKeepsSessions(s: LS.Store, item: LS.OutboxItem, now: Time, peer: DeviceId)
    ensures LS.LoadSession(LS.SaveOutbox(s, item, now), peer) == LS.LoadSession(s, peer)
  {
  }

  /** After a finished retry the stored session reloads as the one that was saved with the item. */
  lemma RetriedSessionReloads(s: LS.Store, item: LS.OutboxItem, committed: SessionSnapshot, session: State, now: Time)
    requires IsSnapshotOf(item.sessionAfter, session) && FromSnapshot(item.sessionAfter).Success?
    requires IsSnapshotOf(committed, FromSnapshot(item.sessionAfter).value)
    ensures var s' := Retry(s, item, true, committed, now);
            && LS.LoadSession(s', item.peer) == Some(session)
            && s'.messages == s.messages + [LS.HistoryRow(item.peer, false, item.text, now, item.id)]
  {
    SnapshotRoundTrip(session, item.sessionAfter);
    LS.DeliveredSessionReloads(s, item, session, committed, now);
  }

  /** Opening a conversation that is not open takes the stored session. */
  lemma OpenedSessionIsStored(a: App)
    requires a.directory.Some?
    ensures EnsureConversation(a).Some?
    ensures var a', contact := EnsureConversation(a).value, a.directory.value;
            && Knows(a', contact.device) && a'.store == a.store
            && (!Knows(a, contact.device) ==>
                  a'.conversation == Some(Conversation(contact, LS.LoadSession(a.store, contact.device))))
            && (Knows(a, contact.device) ==> a' == a)
  {
  }

  /** A send, a restart, and the conversation opened again: the session is the one that sealed the packet. */
  lemma SentSessionSurvivesRestart(a: App, id: MessageId, text: Bytes, display: string, f: First, sealOk: bool,
                                   t: SendLuck, contact: Entry)
    requires CurrentSession(a) && Sends(a, text, f, sealOk) && SavesItsSession(a, text, f, sealOk, t)
    requires t.saveOk && t.sendOk && t.commitOk
    requires contact.device == EnsureConversation(a).value.conversation.value.peer.device
    requires |MakePacket(EnsureConversation(a).value, text, f, sealOk).value.1.skipped| <= MAX_SKIP
    ensures var sent := SendPayload(a, id, text, display, f, sealOk, t);
            var a' := sent.(directory := Some(contact), conversation := None);
            && EnsureConversation(a').Some?
            && EnsureConversation(a').value.conversation
               == Some(Conversation(contact, Some(MakePacket(EnsureConversation(a).value, text, f, sealOk).value.1)))
  {
    SentSessionReloads(a, id, text, display, f, sealOk, t);
    hide SendPayload, MakePacket, LS.LoadSession;
    var a' := SendPayload(a, id, text, display, f, sealOk, t).(directory := Some(contact), conversation := None);
    OpenedSessionIsStored(a');
  }

  // ---- sending refines the delivery protocol -----------------------------------------------------------------

  /**
   Whatever the server answers and whether the answer comes through, sending moves the store as
   Compose, then Post if the server is reached, then CommitSent.
   */
  lemma SendIsDelivery(w: D.World, a: App, id: MessageId, text: Bytes, display: string, f: First, sealOk: bool,
                       t: SendLuck, reached: bool) returns (steps: seq<D.Step>, w': D.World)
    requires a.device in w.clients && w.clients[a.device].store == a.store && id !in w.log.sent
    requires t.saveOk && t.sendOk ==> reached && Accepts(w, a, id, display, t)
    ensures D.RunFrom(w, steps, t.now, w') && |steps| <= 3
    ensures a.device in w'.clients
    ensures w'.clients[a.device].store == SendPayload(a, id, text, display, f, sealOk, t).store
    ensures forall i :: 0 <= i < |steps| ==>
              || (EnsureConversation(a).Some?
                  && steps[i] == D.Compose(a.device, id, EnsureConversation(a).value.conversation.value.peer.device,
                                           t.encoded, display, t.saved))
              || steps[i] == D.Post(a.device, id, t.sendOk) || steps[i] == D.CommitSent(a.device, id, t.committed)
  {
    hide MakePacket, D.MQ.Send, D.RunFrom;
    steps, w' := [], w;
    D.NoSteps(w, t.now);
    if EnsureConversation(a).None? || !t.saveOk {
      return;
    }
    var a1 := EnsureConversation(a).value;
    if MakePacket(a1, text, f, sealOk).None? {
      return;
    }
    var peer := a1.conversation.value.peer.device;
    var compose := D.Compose(a.device, id, peer, t.encoded, display, t.saved);
    D.RunOn(w, [], t.now, w, compose);
    assert [] + [compose] == [compose];
    steps, w' := [compose], D.Take(w, compose, t.now);
    assert OutboxEntry(a1, id, peer, display, t) == w'.clients[a.device].store.outbox[id].item;
    steps, w' := PostAndCommit(w, steps, w', a.device, id, t, reached);
  }

  lemma PostAndCommit(w: D.World, composed: seq<D.Step>, v: D.World, d: DeviceId, id: MessageId, t: SendLuck,
                      reached: bool)
    returns (steps: seq<D.Step>, w': D.World)
    requires D.RunFrom(w, composed, t.now, v) && d in v.clients && id in v.clients[d].store.outbox
    requires t.sendOk ==>
               reached && D.MQ.Send(v.t, d, D.Request(v.clients[d].store.outbox[id].item), t.now).1.Success?
    ensures D.RunFrom(w, steps, t.now, w') && |steps| <= |composed| + 2 && composed <= steps && d in w'.clients
    ensures var s := v.clients[d].store;
            w'.clients[d].store
            == if t.sendOk && t.commitOk then LS.CommitOutgoing(s, s.outbox[id].item, t.committed, t.now) else s
    ensures forall i :: |composed| <= i < |steps| ==>
              steps[i] == D.Post(d, id, t.sendOk) || steps[i] == D.CommitSent(d, id, t.committed)
  {
    hide D.MQ.Send, D.RunFrom;
    steps, w' := composed, v;
    if reached {
      var post := D.Post(d, id, t.sendOk);
      D.RunOn(w, steps, t.now, w', post);
      steps, w' := steps + [post], D.Take(w', post, t.now);
    }
    if t.sendOk && t.commitOk {
      var commit := D.CommitSent(d, id, t.committed);
      D.RunOn(w, steps, t.now, w', commit);
      steps, w' := steps + [commit], D.Take(w', commit, t.now);
    }
  }

  /** The server takes the envelope that `a` would post. */
  predicate Accepts(w: D.World, a: App, id: MessageId, display: string, t: SendLuck) {
    EnsureConversation(a).Some? ==>
      var peer := EnsureConversation(a).value.conversation.value.peer.device;
      D.MQ.Send(w.t, a.device, D.Request(OutboxEntry(a, id, peer, display, t)), t.now).1.Success?
  }

  // ---- retrying refines it too -----------------------------------------------------------------------------

  ghost predicate AreOutboxItems(s: LS.Store, items: seq<LS.OutboxItem>) {
    && (forall i :: 0 <= i < |items| ==> items[i].id in s.outbox && s.outbox[items[i].id].item == items[i])
    && (forall i, j :: 0 <= i < j < |items| ==> items[i].id != items[j].id)
  }

  /** The outbox of a client in a consistent world, as `load_outbox` lists it. */
  lemma ListedItems(log: D.Log, d: DeviceId, s: LS.Store, items: seq<LS.OutboxItem>)
    requires D.OutboxGenuine(log, d, s) && LS.IsOutboxListing(s.outbox, items)
    ensures AreOutboxItems(s, items)
  {
    var ids :| && LS.IsOutboxOrder(s.outbox, ids)
               && |ids| == |items|
               && forall i :: 0 <= i < |ids| ==> ids[i] in s.outbox && items[i] == s.outbox[ids[i]].item;
    assert forall i :: 0 <= i < |ids| ==> items[i].id == ids[i];
  }

  lemma {:induction false} TakenElsewhere(s: LS.Store, items: seq<LS.OutboxItem>, taken: set<MessageId>, id: MessageId,
                                          committed: seq<SessionSnapshot>, now: Time)
    requires |items| == |committed| && forall i :: 0 <= i < |items| ==> items[i].id != id
    ensures RetryAll(s, items, taken + {id}, committed, now) == RetryAll(s, items, taken, committed, now)
  {
    if items != [] {
      var n := |items| - 1;
      TakenElsewhere(s, items[..n], taken, id, committed[..n], now);
    }
  }

  /** What the store still holds after some of the outbox has been retried. */
  lemma {:induction false} RetryKeepsOthers(s: LS.Store, items: seq<LS.OutboxItem>, taken: set<MessageId>,
                                            committed: seq<SessionSnapshot>, now: Time, id: MessageId)
    requires |items| == |committed| && id in s.outbox && forall i :: 0 <= i < |items| ==> items[i].id != id
    ensures var s' := RetryAll(s, items, taken, committed, now); id in s'.outbox && s'.outbox[id] == s.outbox[id]
  {
    if items != [] {
      var n := |items| - 1;
      RetryKeepsOthers(s, items[..n], taken, committed[..n], now, id);
    }
  }

  /**
   Whatever the server answers, and for any set `seen` of answers that come through, retrying the
   outbox moves the store as one Post for each item, and a CommitSent for each that is finished.
   */
  lemma {:induction false} RetryIsDelivery(w: D.World, d: DeviceId, items: seq<LS.OutboxItem>, seen: set<MessageId>,
                                           committed: seq<SessionSnapshot>, now: Time)
    returns (steps: seq<D.Step>, w': D.World, taken: set<MessageId>)
    requires d in w.clients && |items| == |committed| && AreOutboxItems(w.clients[d].store, items)
    ensures D.RunFrom(w, steps, now, w') && taken <= seen
    ensures taken <= set i | 0 <= i < |items| :: items[i].id
    ensures d in w'.clients
    ensures w'.clients[d].store == RetryAll(w.clients[d].store, items, taken, committed, now)
    ensures forall i :: 0 <= i < |steps| ==> (steps[i].Post? || steps[i].CommitSent?) && steps[i].d == d
    decreases |items|
  {
    hide D.MQ.Send, D.RunFrom, FromSnapshot;
    if items == [] {
      steps, w', taken := [], w, {};
      D.NoSteps(w, now);
    } else {
      var n := |items| - 1;
      var s := w.clients[d].store;
      steps, w', taken := RetryIsDelivery(w, d, items[..n], seen, committed[..n], now);
      var id := items[n].id;
      RetryKeepsOthers(s, items[..n], taken, committed[..n], now, id);
      assert id !in taken;
      var w1, post := w', D.Post(d, id, id in seen);
      var ok := D.MQ.Send(w1.t, d, D.Request(items[n]), now).1.Success?;
      D.RunOn(w, steps, now, w1, post);
      steps, w' := steps + [post], D.Take(w1, post, now);
      if ok && id in seen {
        TakenElsewhere(s, items[..n], taken, id, committed[..n], now);
        taken := taken + {id};
        if FromSnapshot(items[n].sessionAfter).Success? {
          steps, w' := CommitRetried(w, steps, w', d, id, committed[n], now);
        }
      }
    }
  }

  predicate Finishes(item: LS.OutboxItem, taken: set<MessageId>) {
    item.id in taken && FromSnapshot(item.sessionAfter).Success?
  }

  /** After a retry of the outbox exactly the items taken and restorable are gone from it. */
  lemma {:induction false} RetriedItemsAreGone(s: LS.Store, items: seq<LS.OutboxItem>, taken: set<MessageId>,
                                               committed: seq<SessionSnapshot>, now: Time, id: MessageId)
    requires |items| == |committed|
    ensures id in RetryAll(s, items, taken, committed, now).outbox
            <==> id in s.outbox && forall i :: 0 <= i < |items| && items[i].id == id ==> !Finishes(items[i], taken)
  {
    hide FromSnapshot;
    if items != [] {
      var n := |items| - 1;
      RetriedItemsAreGone(s, items[..n], taken, committed[..n], now, id);
      assert forall i :: 0 <= i < n ==> items[..n][i] == items[i];
    }
  }

  lemma CommitRetried(w: D.World, steps: seq<D.Step>, w1: D.World, d: DeviceId, id: MessageId,
                      session: SessionSnapshot, now: Time) returns (steps': seq<D.Step>, w': D.World)
    requires D.RunFrom(w, steps, now, w1) && d in w1.clients
    requires id in w1.clients[d].confirmed && id in w1.clients[d].store.outbox
    ensures steps' == steps + [D.CommitSent(d, id, session)] && D.RunFrom(w, steps', now, w')
    ensures d in w'.clients
    ensures w'.clients[d].store
         == LS.CommitOutgoing(w1.clients[d].store, w1.clients[d].store.outbox[id].item, session, now)
  {
    var commit := D.CommitSent(d, id, session);
    D.RunOn(w, steps, now, w1, commit);
    steps', w' := steps + [commit], D.Take(w1, commit, now);
  }
}
