/**
 What two honest parties can rely on, over every conversation: any handshake, any
 interleaving of sends and deliveries, any admissible interference by the network.
 */
module Conversations {
  import opened Wrappers
  import opened Crypto
  import opened Handshake
  import opened Ratchet
  import opened RatchetLaws
  import opened KeySchedule
  import opened Refinement
  import opened TwoParty

  /** Everything that goes into establishing one session. */
  datatype Setup = Setup(
    aliceIdentity: Secret, bobIdentity: Secret, signedPrekey: Secret, oneTime: Option<Secret>,
    bundle: PreKeyBundle, ephemeral: Secret, firstRatchet: Secret,
    aliceDevice: DeviceId, bobDevice: DeviceId)

  function SetupSecrets(u: Setup): set<Secret> {
    {u.aliceIdentity, u.bobIdentity, u.signedPrekey, u.ephemeral}
    + if u.oneTime.Some? then {u.oneTime.value} else {}
  }

  predicate Honest(u: Setup) {
    && Advertises(u.bundle, u.bobIdentity, u.signedPrekey, u.oneTime)
    && Initiate(u.aliceIdentity, u.bundle, u.ephemeral).Success?
    && u.firstRatchet !in SetupSecrets(u)
  }

  function Initiated(u: Setup): InitiatorHandshake
    requires Honest(u)
  {
    Initiate(u.aliceIdentity, u.bundle, u.ephemeral).value
  }

  function Responded(u: Setup): Result<HandshakeResult, HandshakeError>
    requires Honest(u)
  {
    var a := Initiated(u);
    Respond(u.bobIdentity, u.signedPrekey, a.identityExchangePublic, a.ephemeralPublic, u.oneTime)
  }

  function SessionIkm(u: Setup): seq<Shared>
    requires Honest(u)
  {
    Initiated(u).result.rootKey.ikm
  }

  /** The world in which Alice has initiated and Bob has responded, and nothing was sent. */
  function Start(u: Setup): World
    requires Honest(u)
  {
    SidesAgreeIff(u.aliceIdentity, u.bundle, u.ephemeral, u.bobIdentity, u.signedPrekey, u.oneTime, u.oneTime);
    var a := Initiated(u);
    World(InitInitiator(u.bobDevice, a.result, a.bobInitialRatchetPublic, u.firstRatchet).value,
          InitResponder(u.aliceDevice, Responded(u).value, u.signedPrekey),
          [], [], SetupSecrets(u) + {u.firstRatchet})
  }

  lemma StartExplained(u: Setup) returns (c: Schedule)
    requires Honest(u)
    ensures c.ikm == SessionIkm(u) && Explains(c, Start(u))
  {
    SidesAgreeIff(u.aliceIdentity, u.bundle, u.ephemeral, u.bobIdentity, u.signedPrekey, u.oneTime, u.oneTime);
    c := Schedule(SessionIkm(u), [u.signedPrekey, u.firstRatchet], [0, 0], {}, map[]);
    assert Root(c.ikm, c.keys, 1) == RootStep(HandshakeRoot(c.ikm), Dh(u.firstRatchet, u.signedPrekey));
    assert Refines(c, Start(u).alice, 1);
    assert Refines(c, Start(u).bob, 0);
  }

  /** A conversation: a session set up honestly and any admissible run from there. */
  ghost predicate Conversation(u: Setup, events: seq<Event>) {
    Honest(u) && AdmissibleRun(Start(u), SessionIkm(u), events)
  }

  function End(u: Setup, events: seq<Event>): World
    requires Honest(u)
  {
    Run(Start(u), events)
  }

  lemma ConversationExplained(u: Setup, events: seq<Event>) returns (c: Schedule)
    requires Conversation(u, events)
    ensures c.ikm == SessionIkm(u) && Explains(c, End(u, events))
  {
    var c0 := StartExplained(u);
    c := RunExplained(c0, Start(u), events);
  }

  /** `reader` has read no message under the header of `wire`. */
  ghost predicate Unread(w: World, reader: Party, wire: Wire) {
    forall g :: g in w.got && g.reader == reader ==> SlotOf(g.wire) != SlotOf(wire)
  }

  /** The chain of `sent[j]` is the one its sender started right after that of `sent[i]`. */
  ghost predicate IsFollowedBy(sent: seq<Sent>, i: nat, j: nat) {
    && i < j < |sent| && sent[i].from == sent[j].from && ChainOf(sent[i]) != ChainOf(sent[j])
    && forall k :: i < k < j && sent[k].from == sent[i].from ==>
         ChainOf(sent[k]) == ChainOf(sent[i]) || ChainOf(sent[k]) == ChainOf(sent[j])
  }

  ghost predicate HasReadWire(w: World, reader: Party, wire: Wire) {
    exists g :: g in w.got && g.reader == reader && g.wire == wire
  }

  /** The reader has read something of the peer's next chain, and its header says that the chain before ended sooner. */
  ghost predicate PassedOver(w: World, reader: Party, wire: Wire) {
    exists i: nat, j: nat ::
      && IsFollowedBy(w.sent, i, j) && w.sent[i].from == Peer(reader)
      && wire.Framed? && ChainOf(w.sent[i]) == wire.header.dhPub
      && w.sent[j].wire.Framed? && w.sent[j].wire.header.pn <= wire.header.n
      && HasReadWire(w, reader, w.sent[j].wire)
  }

  /**
   Nothing can make the reader read it any more: another message under its header was read, or the
   peer itself does not count it in the length of its chain and the reader has read on.
   */
  ghost predicate Lost(w: World, reader: Party, wire: Wire) {
    !Unread(w, reader, wire) || PassedOver(w, reader, wire)
  }

  /** The message is the peer's, not lost to `who`, and within the skip bound. */
  ghost predicate Deliverable(w: World, who: Party, wire: Wire) {
    && (exists text :: Sent(Peer(who), wire, text) in w.sent)
    && !Lost(w, who, wire)
    && wire.Framed? && WithinSkip(StateOf(w, who), wire.header)
  }

  // ---- the same in terms of the schedule --------------------------------------------------------

  lemma UnreadIffNotDone(c: Schedule, w: World, who: Party, p: Place, text: Bytes)
    requires Explains(c, w) && IsPlace(c, p) && Owner(p.epoch) == Peer(who)
    ensures Unread(w, who, WireAt(c, p, text)) <==> p !in c.done
  {
    hide Refines, SentMatches, InOrder, Landed;
    if p in c.done {
      assert AllGot(c, w.got);
      var g := GotAt(c, p);
      assert g in w.got && g.reader == who && SlotOf(g.wire) == SlotOf(WireAt(c, p, text));
    } else {
      forall g | g in w.got
        ensures SlotOf(g.wire) != SlotOf(WireAt(c, p, text))
      {
        assert IsGot(c, g);
        GotOnlyOnce(c, p, text, g);
      }
    }
  }

  /** Where a message of an epoch that was read stands among those sent. */
  lemma ChainWasSent(c: Schedule, w: World, epoch: nat) returns (j: nat)
    requires Explains(c, w) && HasRead(c, epoch)
    ensures j < |w.sent| && 0 < epoch < |c.keys| == |c.used| && w.sent[j].from == Owner(epoch)
    ensures ChainOf(w.sent[j]) == PublicKey(c.keys[epoch])
    ensures w.sent[j].wire.Framed? && w.sent[j].wire.header.pn == LengthBefore(c, epoch)
    ensures HasReadWire(w, Peer(Owner(epoch)), w.sent[j].wire)
  {
    hide Refines, InOrder, Landed;
    assert AllGot(c, w.got) && AllSent(c, w.sent);
    hide SentMatches, GotMatches;
    var q :| q in c.done && q.epoch == epoch;
    var x := SentAt(c, q, c.done[q]);
    assert Sealing(q, c.done[q]) in c.sealed;
    j :| 0 <= j < |w.sent| && w.sent[j] == x;
    assert GotAt(c, q) in w.got && GotAt(c, q).wire == x.wire;
  }

  lemma SentSomewhere(c: Schedule, w: World, p: Place, text: Bytes) returns (i: nat)
    requires Explains(c, w) && IsSealed(c, p, text)
    ensures i < |w.sent| && w.sent[i] == SentAt(c, p, text)
  {
    hide Refines, InOrder, Landed, GotMatches;
    assert AllSent(c, w.sent);
    hide SentMatches;
    assert Sealing(p, text) in c.sealed;
    i :| 0 <= i < |w.sent| && w.sent[i] == SentAt(c, p, text);
  }

  lemma EpochOrder(c: Schedule, sent: seq<Sent>, i: nat, j: nat, a: nat, b: nat)
    requires InOrder(c, sent) && i < j < |sent| && a < |c.keys| && b < |c.keys| && a % 2 == b % 2
    requires ChainOf(sent[i]) == PublicKey(c.keys[a]) && ChainOf(sent[j]) == PublicKey(c.keys[b])
    ensures a <= b
  {
  }

  /** The epoch of a message that was sent, told by its chain. */
  lemma EpochOfSent(c: Schedule, w: World, i: nat) returns (p: Place)
    requires Explains(c, w) && i < |w.sent|
    ensures 0 < p.epoch < |c.keys| == |c.used| && Owner(p.epoch) == w.sent[i].from
    ensures w.sent[i].wire.Framed? && w.sent[i].wire.header == HeaderAt(c, p)
    ensures ChainOf(w.sent[i]) == PublicKey(c.keys[p.epoch])
  {
    hide Refines, SentMatches, GotMatches, InOrder, Landed;
    assert w.sent[i] in w.sent;
    p := PlaceOf(c, w, w.sent[i]);
  }

  lemma SameChain(c: Schedule, w: World, a: nat, b: nat)
    requires Explains(c, w) && a < |c.keys| && b < |c.keys| && c.keys[a] == c.keys[b]
    ensures a == b
  {
    hide Refines, SentMatches, GotMatches, InOrder, Landed;
  }

  lemma SentBefore(c: Schedule, w: World, i: nat, j: nat, a: nat, b: nat)
    requires Explains(c, w) && i < |w.sent| && j < |w.sent| && a < b < |c.keys| && a % 2 == b % 2
    requires ChainOf(w.sent[i]) == PublicKey(c.keys[a]) && ChainOf(w.sent[j]) == PublicKey(c.keys[b])
    ensures i < j
  {
    hide Refines, SentMatches, GotMatches, Landed, ChainOf;
    assert InOrder(c, w.sent) && c.keys[a] != c.keys[b];
  }

  /** A chain and the one its owner started two epochs on are next to each other. */
  lemma AdjacentChains(c: Schedule, w: World, i: nat, j: nat, a: nat)
    requires Explains(c, w) && i < |w.sent| && j < |w.sent| && 0 < a && a + 2 < |c.keys|
    requires w.sent[i].from == w.sent[j].from
    requires ChainOf(w.sent[i]) == PublicKey(c.keys[a]) && ChainOf(w.sent[j]) == PublicKey(c.keys[a + 2])
    ensures IsFollowedBy(w.sent, i, j)
  {
    hide Refines, SentMatches, GotMatches, Landed;
    assert InOrder(c, w.sent) && WellFormed(c);
    assert c.keys[a] != c.keys[a + 2];
    var pi := EpochOfSent(c, w, i);
    SameChain(c, w, pi.epoch, a);
    SentBefore(c, w, i, j, a, a + 2);
    forall k | i < k < j && w.sent[k].from == w.sent[i].from
      ensures ChainOf(w.sent[k]) == ChainOf(w.sent[i]) || ChainOf(w.sent[k]) == ChainOf(w.sent[j])
    {
      var q := EpochOfSent(c, w, k);
      EpochOrder(c, w.sent, i, k, a, q.epoch);
      EpochOrder(c, w.sent, k, j, q.epoch, a + 2);
    }
  }

  /** And chains that are next to each other are two epochs apart. */
  lemma AdjacentEpochs(c: Schedule, w: World, i: nat, j: nat) returns (p: Place, q: Place)
    requires Explains(c, w) && IsFollowedBy(w.sent, i, j)
    ensures 0 < p.epoch < |c.keys| == |c.used| && ChainOf(w.sent[i]) == PublicKey(c.keys[p.epoch])
    ensures q.epoch == p.epoch + 2 < |c.keys| && Owner(q.epoch) == w.sent[j].from
    ensures w.sent[j].wire.Framed? && w.sent[j].wire.header == HeaderAt(c, q)
  {
    hide Refines, SentMatches, GotMatches;
    assert InOrder(c, w.sent);
    p := EpochOfSent(c, w, i);
    q := EpochOfSent(c, w, j);
    EpochOrder(c, w.sent, i, j, p.epoch, q.epoch);
    if q.epoch > p.epoch + 2 {
      var k := ChainBetween(c, w, i, j, p.epoch, q.epoch);
      assert false;
    }
  }

  /** If two chains of a party are further apart, something was sent on the one between. */
  lemma ChainBetween(c: Schedule, w: World, i: nat, j: nat, a: nat, b: nat) returns (k: nat)
    requires Explains(c, w) && i < |w.sent| && j < |w.sent| && 0 < a && a + 2 < b < |c.keys| && a % 2 == b % 2
    requires ChainOf(w.sent[i]) == PublicKey(c.keys[a]) && ChainOf(w.sent[j]) == PublicKey(c.keys[b])
    ensures i < k < j && w.sent[k].from == Owner(a)
    ensures ChainOf(w.sent[k]) != ChainOf(w.sent[i]) && ChainOf(w.sent[k]) != ChainOf(w.sent[j])
  {
    hide Refines, SentMatches, GotMatches, InOrder;
    assert HasRead(c, a + 2) && WellFormed(c);
    hide Landed, ChainOf;
    k := ChainWasSent(c, w, a + 2);
    SentBefore(c, w, i, k, a, a + 2);
    SentBefore(c, w, k, j, a + 2, b);
    assert c.keys[a] != c.keys[a + 2] && c.keys[b] != c.keys[a + 2];
  }

  lemma OvertakenIsPassedOver(c: Schedule, w: World, who: Party, p: Place, text: Bytes)
    requires Explains(c, w) && IsSealed(c, p, text) && Owner(p.epoch) == Peer(who)
    requires Overtaken(c, EpochOf(c, who), p)
    ensures PassedOver(w, who, WireAt(c, p, text))
  {
    hide Refines, SentMatches, GotMatches, InOrder;
    assert HasRead(c, p.epoch + 2);
    hide Landed, IsFollowedBy, HasReadWire;
    var j := ChainWasSent(c, w, p.epoch + 2);
    var i := SentSomewhere(c, w, p, text);
    AdjacentChains(c, w, i, j, p.epoch);
  }

  lemma PassedOverIsOvertaken(c: Schedule, w: World, who: Party, p: Place, text: Bytes)
    requires Explains(c, w) && IsPlace(c, p) && Owner(p.epoch) == Peer(who)
    requires PassedOver(w, who, WireAt(c, p, text))
    ensures Overtaken(c, EpochOf(c, who), p)
  {
    hide Refines, SentMatches, GotMatches, InOrder, Landed;
    var i: nat, j: nat :| && IsFollowedBy(w.sent, i, j) && w.sent[i].from == Peer(who)
                && ChainOf(w.sent[i]) == WireAt(c, p, text).header.dhPub
                && w.sent[j].wire.Framed? && w.sent[j].wire.header.pn <= p.n
                && HasReadWire(w, who, w.sent[j].wire);
    var a, b := AdjacentEpochs(c, w, i, j);
    SameChain(c, w, a.epoch, p.epoch);
    ReadIsBehind(c, w, who, b, w.sent[j].wire);
  }

  /** What a party has read belongs to epochs before its own. */
  lemma ReadIsBehind(c: Schedule, w: World, who: Party, q: Place, wire: Wire)
    requires Explains(c, w) && 0 < q.epoch < |c.keys| && Owner(q.epoch) == Peer(who)
    requires wire.Framed? && wire.header == HeaderAt(c, q) && HasReadWire(w, who, wire)
    ensures q.epoch < EpochOf(c, who)
  {
    hide SentMatches, InOrder, Landed, GotMatches, SenderMatches, ReceiverMatches, StashMatches;
    ReadIsDone(c, w, who, q, wire);
    assert DoneMatches(c, EpochOf(c, who), StateOf(w, who).recvCount);
  }

  lemma ReadIsDone(c: Schedule, w: World, who: Party, q: Place, wire: Wire)
    requires Explains(c, w) && 0 < q.epoch < |c.keys| && wire.Framed? && wire.header == HeaderAt(c, q)
    requires HasReadWire(w, who, wire)
    ensures q in c.done
  {
    hide Refines, SentMatches, InOrder, Landed, AllGot;
    var g :| g in w.got && g.reader == who && g.wire == wire;
    assert IsGot(c, g);
    var r :| r in c.done && IsPlace(c, r) && g == GotAt(c, r);
    assert c.keys[q.epoch] == c.keys[r.epoch];
  }

  lemma LostIff(c: Schedule, w: World, who: Party, p: Place, text: Bytes)
    requires Explains(c, w) && IsSealed(c, p, text) && Owner(p.epoch) == Peer(who)
    ensures Lost(w, who, WireAt(c, p, text)) <==> p in c.done || Overtaken(c, EpochOf(c, who), p)
  {
    hide Explains, PassedOver, Unread, Overtaken, WireAt;
    UnreadIffNotDone(c, w, who, p, text);
    if Overtaken(c, EpochOf(c, who), p) {
      OvertakenIsPassedOver(c, w, who, p, text);
    } else if PassedOver(w, who, WireAt(c, p, text)) {
      PassedOverIsOvertaken(c, w, who, p, text);
    }
  }

  lemma PlaceOf(c: Schedule, w: World, x: Sent) returns (p: Place)
    requires Explains(c, w) && x in w.sent
    ensures IsSealed(c, p, x.text) && x.wire == WireAt(c, p, x.text) && Owner(p.epoch) == x.from
  {
    hide Refines, InOrder, Landed, GotMatches, AllSent;
    assert IsSent(c, x);
    p :| IsSealed(c, p, x.text) && x == SentAt(c, p, x.text);
  }

  lemma DecryptedIsDeliverable(c: Schedule, w: World, who: Party, wire: Wire, newKey: Secret)
    requires Explains(c, w) && !Forged(w, c.ikm, wire)
    requires DecryptInner(StateOf(w, who), wire, newKey).Success?
    ensures Deliverable(w, who, wire)
    ensures Sent(Peer(who), wire, DecryptInner(StateOf(w, who), wire, newKey).value.1) in w.sent
  {
    hide Refines, DecryptInner, WithinSkip, Forged, SentMatches, GotMatches, InOrder, Landed, Lost;
    StateRefines(c, w, who);
    NotForgedIsUnforged(c, w, wire);
    var p := OnlyUnreadPeerMessagesOpen(c, StateOf(w, who), EpochOf(c, who), wire, newKey);
    var i := SentSomewhere(c, w, p, wire.ciphertext.plaintext);
    assert w.sent[i] in w.sent;
    LostIff(c, w, who, p, wire.ciphertext.plaintext);
  }

  lemma DeliverableIsDecrypted(c: Schedule, w: World, who: Party, wire: Wire, newKey: Secret)
    requires Explains(c, w) && newKey !in w.secrets
    requires Deliverable(w, who, wire)
    ensures DecryptInner(StateOf(w, who), wire, newKey).Success?
  {
    hide Refines, DecryptInner, WithinSkip, SentMatches, GotMatches, InOrder, Landed, Lost;
    StateRefines(c, w, who);
    var text :| Sent(Peer(who), wire, text) in w.sent;
    var p := PlaceOf(c, w, Sent(Peer(who), wire, text));
    LostIff(c, w, who, p, text);
    assert newKey !in c.keys;
    UnreadPeerMessageOpens(c, StateOf(w, who), EpochOf(c, who), p, text, newKey);
  }

  /**
   Main theorem. At any moment of any conversation, whatever the network delivers, decryption
   succeeds exactly when the wire message is one the peer sent, unchanged, that is not lost to this
   party, and whose gaps are within the skip bound; and it then yields the text sent.
   */
  lemma DecryptsExactlyUnreadMessages(u: Setup, events: seq<Event>, who: Party, wire: Wire, newKey: Secret)
    requires Conversation(u, events)
    requires Admissible(End(u, events), SessionIkm(u), Delivers(who, wire, newKey))
    ensures var w := End(u, events);
            var (s, r) := Decrypt(StateOf(w, who), wire, newKey);
            && (r.Success? <==> Deliverable(w, who, wire))
            && (r.Success? ==> Sent(Peer(who), wire, r.value) in w.sent)
            && (r.Failure? ==> s == StateOf(w, who))
  {
    hide Deliverable, Forged, Explains;
    var w := End(u, events);
    var c := ConversationExplained(u, events);
    if DecryptInner(StateOf(w, who), wire, newKey).Success? {
      DecryptedIsDeliverable(c, w, who, wire, newKey);
    } else if Deliverable(w, who, wire) {
      DeliverableIsDecrypted(c, w, who, wire, newKey);
    }
  }

  /** A message of the peer that is not lost is never refused for any reason but the skip bound. */
  lemma RefusedOnlyBeyondBound(u: Setup, events: seq<Event>, who: Party, x: Sent, newKey: Secret)
    requires Conversation(u, events)
    requires var w := End(u, events);
             newKey !in w.secrets && x in w.sent && x.from == Peer(who) && !Lost(w, who, x.wire)
    ensures var (s, r) := Decrypt(StateOf(End(u, events), who), x.wire, newKey);
            r == Success(x.text) || r == Failure(TooManySkipped)
  {
    hide Refines, WithinSkip, SentMatches, GotMatches, InOrder, Landed, Lost, DecryptInner;
    var w := End(u, events);
    var c := ConversationExplained(u, events);
    StateRefines(c, w, who);
    var p := PlaceOf(c, w, x);
    LostIff(c, w, who, p, x.text);
    if WithinSkip(StateOf(w, who), x.wire.header) {
      assert newKey !in c.keys;
      UnreadPeerMessageOpens(c, StateOf(w, who), EpochOf(c, who), p, x.text, newKey);
    } else {
      UnreadPeerMessageBeyondBound(c, StateOf(w, who), EpochOf(c, who), p, x.text, newKey);
    }
  }

  /** Over a whole run: at most one text is read under each header, and it was sent by the other side. */
  lemma EveryMessageIsReadAtMostOnce(u: Setup, events: seq<Event>)
    requires Conversation(u, events)
    ensures var w := End(u, events);
            && (forall i, j :: 0 <= i < j < |w.got| ==> SlotOf(w.got[i].wire) != SlotOf(w.got[j].wire))
            && (forall g :: g in w.got ==> Sent(Peer(g.reader), g.wire, g.text) in w.sent)
  {
    hide Refines, InOrder, Landed;
    var w := End(u, events);
    var c := ConversationExplained(u, events);
    forall g | g in w.got
      ensures Sent(Peer(g.reader), g.wire, g.text) in w.sent
    {
      assert IsGot(c, g) && AllGot(c, w.got);
      var p :| p in c.done && IsPlace(c, p) && g == GotAt(c, p);
      var i := SentSomewhere(c, w, p, c.done[p]);
      assert w.sent[i] in w.sent;
    }
  }

  // ---- what is lost stays lost --------------------------------------------------------------------

  lemma {:induction false} RunOn(w: World, ikm: seq<Shared>, events: seq<Event>, more: seq<Event>)
    ensures Run(w, events + more) == Run(Run(w, events), more)
    ensures AdmissibleRun(w, ikm, events + more) <==>
            AdmissibleRun(w, ikm, events) && AdmissibleRun(Run(w, events), ikm, more)
    decreases |events|
  {
    if events == [] {
      assert [] + more == more;
    } else {
      assert (events + more)[1..] == events[1..] + more;
      RunOn(Step(w, events[0]), ikm, events[1..], more);
    }
  }

  lemma OneMoreEvent(u: Setup, events: seq<Event>, ev: Event)
    requires Conversation(u, events) && Admissible(End(u, events), SessionIkm(u), ev)
    ensures Conversation(u, events + [ev]) && End(u, events + [ev]) == Step(End(u, events), ev)
  {
    RunOn(Start(u), SessionIkm(u), events, [ev]);
    var w := End(u, events);
    assert [ev][1..] == [];
    assert Run(Step(w, ev), []) == Step(w, ev);
    assert AdmissibleRun(Step(w, ev), SessionIkm(u), []);
  }

  lemma {:induction false} LogsOnlyGrow(w: World, events: seq<Event>)
    ensures w.sent <= Run(w, events).sent && w.got <= Run(w, events).got
    decreases |events|
  {
    if events != [] {
      LogsOnlyGrow(Step(w, events[0]), events[1..]);
    }
  }

  lemma OvertakenStays(c: Schedule, c': Schedule, who: Party, p: Place)
    requires Later(c, c') && |c.keys| >= 2 && p.epoch < |c.keys| && Overtaken(c, EpochOf(c, who), p)
    ensures Overtaken(c', EpochOf(c', who), p)
  {
  }

  lemma LostStaysLost(u: Setup, events: seq<Event>, more: seq<Event>, who: Party, x: Sent)
    requires Conversation(u, events) && Conversation(u, events + more)
    requires x in End(u, events).sent && x.from == Peer(who) && Lost(End(u, events), who, x.wire)
    ensures Lost(End(u, events + more), who, x.wire)
  {
    hide Refines, SentMatches, GotMatches, InOrder, Landed, PassedOver, Overtaken;
    var w, w' := End(u, events), End(u, events + more);
    RunOn(Start(u), SessionIkm(u), events, more);
    LogsOnlyGrow(w, more);
    if Unread(w', who, x.wire) {
      var c := ConversationExplained(u, events);
      var c' := RunExplained(c, w, more);
      var p := PlaceOf(c, w, x);
      var p' := PlaceOf(c', w', x);
      assert c'.keys[p.epoch] == c.keys[p.epoch];
      SlotInjective(c', p, p', x.text, x.text);
      LostIff(c, w, who, p, x.text);
      LostIff(c', w', who, p, x.text);
      UnreadIffNotDone(c, w, who, p, x.text);
      OvertakenStays(c, c', who, p);
    }
  }

  /**
   Both causes are final: in every continuation a lost message stays lost, and it is never read if it
   was not read before.
   */
  lemma {:induction false} LostForEver(u: Setup, events: seq<Event>, more: seq<Event>, who: Party, x: Sent)
    requires Conversation(u, events) && Conversation(u, events + more)
    requires x in End(u, events).sent && x.from == Peer(who) && Lost(End(u, events), who, x.wire)
    ensures Lost(End(u, events + more), who, x.wire)
    ensures forall g :: g in End(u, events + more).got && g.reader == who && g.wire == x.wire ==>
              g in End(u, events).got
    decreases |more|
  {
    hide Lost, DecryptInner, Forged, Start;
    LostStaysLost(u, events, more, who, x);
    if more == [] {
      assert events + more == events;
    } else {
      var init, ev := more[..|more| - 1], more[|more| - 1];
      assert events + more == (events + init) + [ev];
      RunOn(Start(u), SessionIkm(u), events + init, [ev]);
      LostForEver(u, events, init, who, x);
      if ev.Delivers? && ev.who == who && ev.wire == x.wire {
        DecryptsExactlyUnreadMessages(u, events + init, who, x.wire, ev.newKey);
      }
    }
  }

  // ---- what is not lost ------------------------------------------------------------------------------

  /** The sender has gone on from the place of this message. */
  predicate MovedPast(s: State, wire: Wire) {
    wire.Framed? && wire.header.dhPub == PublicKey(s.dhSelf) && wire.header.n < s.sendCount
  }

  lemma MovedPastIsCounted(c: Schedule, w: World, x: Sent, p: Place)
    requires Explains(c, w) && IsPlace(c, p) && x.wire == WireAt(c, p, x.text) && MovedPast(StateOf(w, x.from), x.wire)
    ensures p.n < c.used[p.epoch]
  {
    hide SentMatches, GotMatches, InOrder, Landed, StashMatches, DoneMatches, ReceiverMatches;
    assert SenderMatches(c, StateOf(w, x.from), EpochOf(c, x.from));
    assert c.keys[p.epoch] == c.keys[EpochOf(c, x.from)];
  }

  /**
   Nothing is dropped on the way, not by a turn of the ratchet either: once its sender has gone on from
   its place, a message is lost exactly if a message under its header has been read, at any later moment.
   */
  lemma MovedPastIsLostOnlyIfRead(u: Setup, events: seq<Event>, more: seq<Event>, who: Party, x: Sent)
    requires Conversation(u, events) && Conversation(u, events + more)
    requires x in End(u, events).sent && x.from == Peer(who) && MovedPast(StateOf(End(u, events), x.from), x.wire)
    ensures x in End(u, events + more).sent
    ensures Lost(End(u, events + more), who, x.wire) <==> !Unread(End(u, events + more), who, x.wire)
  {
    hide Refines, SentMatches, GotMatches, InOrder, Landed, PassedOver, MovedPast, Unread;
    var w, w' := End(u, events), End(u, events + more);
    RunOn(Start(u), SessionIkm(u), events, more);
    LogsOnlyGrow(w, more);
    var c := ConversationExplained(u, events);
    var c' := RunExplained(c, w, more);
    var p := PlaceOf(c, w, x);
    var p' := PlaceOf(c', w', x);
    MovedPastIsCounted(c, w, x, p);
    assert c'.keys[p.epoch] == c.keys[p.epoch];
    SlotInjective(c', p, p', x.text, x.text);
    LostIff(c', w', who, p, x.text);
    UnreadIffNotDone(c', w', who, p, x.text);
  }

  /** Nor is anything of the chain that the reader is on passed over. */
  lemma CurrentChainIsLostOnlyIfRead(u: Setup, events: seq<Event>, who: Party, x: Sent)
    requires Conversation(u, events) && x in End(u, events).sent && x.from == Peer(who) && x.wire.Framed?
    requires StateOf(End(u, events), who).dhRemote == Some(x.wire.header.dhPub)
    ensures Lost(End(u, events), who, x.wire) <==> !Unread(End(u, events), who, x.wire)
  {
    hide SentMatches, GotMatches, InOrder, Landed, PassedOver, Unread, StashMatches, DoneMatches, ReceiverMatches;
    var w := End(u, events);
    var c := ConversationExplained(u, events);
    var p := PlaceOf(c, w, x);
    var e := EpochOf(c, who);
    assert SenderMatches(c, StateOf(w, who), e);
    assert c.keys[p.epoch] == c.keys[e - 1];
    LostIff(c, w, who, p, x.text);
    UnreadIffNotDone(c, w, who, p, x.text);
  }

  /** The message that encrypting now would send. */
  function Next(w: World, from: Party, text: Bytes): Sent
    requires StateOf(w, from).sendingChain.Some?
  {
    Sent(from, Encrypt(StateOf(w, from), text, true).1.value, text)
  }

  /** Every message that was encrypted and whose sender moved on is lost only if it has been read. */
  lemma EncryptedIsLostOnlyIfRead(u: Setup, before: seq<Event>, text: Bytes, after: seq<Event>, who: Party)
    requires Conversation(u, before + [Encrypts(Peer(who), text, true)] + after)
    requires Honest(u) && StateOf(End(u, before), Peer(who)).sendingChain.Some?
    ensures var w := End(u, before + [Encrypts(Peer(who), text, true)] + after);
            var x := Next(End(u, before), Peer(who), text);
            x in w.sent && (Lost(w, who, x.wire) <==> !Unread(w, who, x.wire))
  {
    hide Lost, Unread;
    var ev := Encrypts(Peer(who), text, true);
    var events := before + [ev];
    RunOn(Start(u), SessionIkm(u), events, after);
    RunOn(Start(u), SessionIkm(u), before, [ev]);
    var w := End(u, before);
    assert Run(w, [ev]) == Step(w, ev) by {
      assert [ev][1..] == [];
    }
    MovedPastIsLostOnlyIfRead(u, events, after, who, Next(w, Peer(who), text));
  }

  predicate Sends(ev: Event, x: Sent) {
    ev == Encrypts(x.from, x.text, true) || ev == SealsOnly(x.from, x.text)
  }

  /** Whatever was sent was sealed by one of the events. */
  lemma {:induction false} SentByAnEvent(w: World, events: seq<Event>, x: Sent) returns (k: nat)
    requires x in Run(w, events).sent && x !in w.sent
    ensures k < |events| && Sends(events[k], x)
    ensures var v := Run(w, events[..k]); StateOf(v, x.from).sendingChain.Some? && x == Next(v, x.from, x.text)
    decreases |events|
  {
    assert events != [];
    var w1 := Step(w, events[0]);
    if x in w1.sent {
      k := 0;
    } else {
      k := SentByAnEvent(w1, events[1..], x);
      k := k + 1;
      assert events[..k][0] == events[0] && events[..k][1..] == events[1..][..k - 1];
    }
  }

  /**
   Only the message of a failed send can be lost without one of its header having been read, and only as long as
   its sender never goes on from its place.
   */
  lemma LostUnreadWasNeverCounted(u: Setup, events: seq<Event>, who: Party, x: Sent)
    requires Conversation(u, events) && x in End(u, events).sent && x.from == Peer(who)
    requires Lost(End(u, events), who, x.wire) && Unread(End(u, events), who, x.wire)
    ensures SealsOnly(x.from, x.text) in events
    ensures forall k :: 0 <= k <= |events| && x in End(u, events[..k]).sent ==>
              !MovedPast(StateOf(End(u, events[..k]), x.from), x.wire)
  {
    hide Lost, Unread, MovedPast, End;
    forall k | 0 <= k <= |events| && x in End(u, events[..k]).sent
      ensures !MovedPast(StateOf(End(u, events[..k]), x.from), x.wire)
    {
      assert events == events[..k] + events[k..];
      Prefixes(u, events[..k], events[k..]);
      if MovedPast(StateOf(End(u, events[..k]), x.from), x.wire) {
        MovedPastIsLostOnlyIfRead(u, events[..k], events[k..], who, x);
        assert false;
      }
    }
    var k := FoundSend(u, events, x);
    if events[k].Encrypts? {
      assert events == events[..k] + [events[k]] + events[k + 1..];
      EncryptedIsLostOnlyIfRead(u, events[..k], x.text, events[k + 1..], who);
      assert false;
    }
  }

  lemma Prefixes(u: Setup, events: seq<Event>, more: seq<Event>)
    requires Conversation(u, events + more)
    ensures Conversation(u, events)
  {
    RunOn(Start(u), SessionIkm(u), events, more);
  }

  lemma FoundSend(u: Setup, events: seq<Event>, x: Sent) returns (k: nat)
    requires Conversation(u, events) && x in End(u, events).sent
    ensures k < |events| && Sends(events[k], x)
    ensures var v := End(u, events[..k]); StateOf(v, x.from).sendingChain.Some? && x == Next(v, x.from, x.text)
  {
    k := SentByAnEvent(Start(u), events, x);
  }

  /**
   With no failed send the main theorem needs no word about loss: decryption succeeds exactly on the unread
   messages of the peer whose gaps are within the skip bound.
   */
  lemma WithoutFailedSends(u: Setup, events: seq<Event>, who: Party, wire: Wire, newKey: Secret)
    requires Conversation(u, events) && forall ev :: ev in events ==> !ev.SealsOnly?
    requires Admissible(End(u, events), SessionIkm(u), Delivers(who, wire, newKey))
    ensures var w := End(u, events);
            Decrypt(StateOf(w, who), wire, newKey).1.Success?
            <==> && (exists text :: Sent(Peer(who), wire, text) in w.sent) && Unread(w, who, wire)
                 && wire.Framed? && WithinSkip(StateOf(w, who), wire.header)
  {
    hide Lost, Unread, MovedPast, End, Forged, Decrypt, Honest, WithinSkip;
    DecryptsExactlyUnreadMessages(u, events, who, wire, newKey);
    forall text | Sent(Peer(who), wire, text) in End(u, events).sent
      ensures Lost(End(u, events), who, wire) <==> !Unread(End(u, events), who, wire)
    {
      var x := Sent(Peer(who), wire, text);
      if Lost(End(u, events), who, wire) && Unread(End(u, events), who, wire) {
        LostUnreadWasNeverCounted(u, events, who, x);
        assert false;
      }
      if !Unread(End(u, events), who, wire) {
        ReadIsLost(End(u, events), who, wire);
      }
    }
  }

  lemma ReadIsLost(w: World, who: Party, wire: Wire)
    requires !Unread(w, who, wire)
    ensures Lost(w, who, wire)
  {
  }

  /** Both parties' states in a conversation meet the premise of the order-independence theorem. */
  lemma ReachableIsEstablished(u: Setup, events: seq<Event>, who: Party)
    requires Conversation(u, events)
    ensures var s := StateOf(End(u, events), who);
            s.dhRemote.Some? ==> Established(s)
  {
    var w := End(u, events);
    var c := ConversationExplained(u, events);
    StateRefines(c, w, who);
    var s, e := StateOf(w, who), EpochOf(c, who);
    if s.dhRemote.Some? {
      forall k | k in s.skipped && k.dhPub == s.dhRemote.value
        ensures k.n < s.recvCount
      {
        SlotHeld(c, s, e, Place(e - 1, k.n));
      }
    }
  }
}
