/**
 Two parties and a hostile network.

 A run interleaves encryptions with deliveries of arbitrary wire messages, in any
 order, with loss, duplication and alteration. A message may also be sealed without its
 sender moving on, so that several messages go out under one header and key: the client
 does that when a send fails (clients/upm-windows/src/app.rs:738-759). The network may replay or re-head any
 ciphertext it has seen and seal new ones, except under keys of this conversation.
 The world keeps only what happened; the key schedule appears in the proofs alone.
 */
module TwoParty {
  import opened Wrappers
  import opened Crypto
  import opened Ratchet
  import opened RatchetLaws
  import opened KeySchedule
  import opened Refinement

  datatype Party = Alice | Bob

  datatype Sent = Sent(from: Party, wire: Wire, text: Bytes)

  datatype Got = Got(reader: Party, wire: Wire, text: Bytes)

  datatype World = World(alice: State, bob: State, sent: seq<Sent>, got: seq<Got>, secrets: set<Secret>)

  datatype Event =
    | Encrypts(who: Party, text: Bytes, sealOk: bool)
    | SealsOnly(who: Party, text: Bytes)                    // on a copy of the session that is then dropped
    | Delivers(who: Party, wire: Wire, newKey: Secret)

  function Peer(x: Party): Party {
    if x == Alice then Bob else Alice
  }

  function StateOf(w: World, x: Party): State {
    if x == Alice then w.alice else w.bob
  }

  function WithState(w: World, x: Party, s: State): World {
    if x == Alice then w.(alice := s) else w.(bob := s)
  }

  function Step(w: World, ev: Event): World {
    match ev
    case Encrypts(who, text, sealOk) =>
      var (s, r) := Encrypt(StateOf(w, who), text, sealOk);
      var w1 := WithState(w, who, s);
      if r.Success? then w1.(sent := w1.sent + [Sent(who, r.value, text)]) else w1
    case SealsOnly(who, text) =>
      var (_, r) := Encrypt(StateOf(w, who), text, true);
      if r.Success? then w.(sent := w.sent + [Sent(who, r.value, text)]) else w
    case Delivers(who, wire, newKey) =>
      var (s, r) := Decrypt(StateOf(w, who), wire, newKey);
      var w1 := WithState(w, who, s).(secrets := w.secrets + {newKey});
      if r.Success? then w1.(got := w1.got + [Got(who, wire, r.value)]) else w1
  }

  /** A ciphertext under a key of the conversation that neither party made. */
  ghost predicate Forged(w: World, ikm: seq<Shared>, wire: Wire) {
    && wire.Framed? && wire.ciphertext.Sealed?
    && IkmOf(wire.ciphertext.key) == Some(ikm)
    && forall x :: x in w.sent ==> !(x.wire.Framed? && x.wire.ciphertext == wire.ciphertext)
  }

  /** What the environment owes: 32-bit counters do not run out, generated keys are new, no forgery. */
  ghost predicate Admissible(w: World, ikm: seq<Shared>, ev: Event) {
    match ev
    case Encrypts(who, _, _) => StateOf(w, who).sendCount + 1 < U32_LIMIT
    case SealsOnly(who, _) => StateOf(w, who).sendCount + 1 < U32_LIMIT
    case Delivers(_, wire, newKey) => newKey !in w.secrets && !Forged(w, ikm, wire)
  }

  function Run(w: World, events: seq<Event>): World
    decreases |events|
  {
    if events == [] then w else Run(Step(w, events[0]), events[1..])
  }

  ghost predicate AdmissibleRun(w: World, ikm: seq<Shared>, events: seq<Event>)
    decreases |events|
  {
    events == [] || (Admissible(w, ikm, events[0]) && AdmissibleRun(Step(w, events[0]), ikm, events[1..]))
  }

  // ---- the schedule behind a world --------------------------------------------------------

  function Owner(epoch: nat): Party {
    if epoch % 2 == 1 then Alice else Bob
  }

  /** A party's own latest epoch: the last one, or the one before it. */
  function EpochOf(c: Schedule, x: Party): nat
    requires |c.keys| >= 2
  {
    var last := |c.keys| - 1;
    if Owner(last) == x then last else last - 1
  }

  function SentAt(c: Schedule, p: Place, text: Bytes): Sent
    requires 0 < p.epoch < |c.keys| == |c.used|
  {
    Sent(Owner(p.epoch), WireAt(c, p, text), text)
  }

  function GotAt(c: Schedule, p: Place): Got
    requires 0 < p.epoch < |c.keys| == |c.used| && p in c.done
  {
    Got(Peer(Owner(p.epoch)), WireAt(c, p, c.done[p]), c.done[p])
  }

  ghost predicate IsSent(c: Schedule, x: Sent) {
    exists p :: IsSealed(c, p, x.text) && x == SentAt(c, p, x.text)
  }

  ghost predicate IsGot(c: Schedule, x: Got) {
    exists p :: p in c.done && IsPlace(c, p) && x == GotAt(c, p)
  }

  /** What was sent is what was sealed. */
  ghost predicate SentMatches(c: Schedule, sent: seq<Sent>) {
    && (forall x :: x in sent ==> IsSent(c, x))
    && AllSent(c, sent)
  }

  ghost predicate AllSent(c: Schedule, sent: seq<Sent>) {
    forall d :: d in c.sealed ==> IsPlace(c, d.place) && SentAt(c, d.place, d.text) in sent
  }

  /** What was read is what is done, one text at each position. */
  ghost predicate GotMatches(c: Schedule, got: seq<Got>) {
    && (forall x :: x in got ==> IsGot(c, x))
    && AllGot(c, got)
    && (forall i, j :: 0 <= i < j < |got| ==> SlotOf(got[i].wire) != SlotOf(got[j].wire))
  }

  ghost predicate AllGot(c: Schedule, got: seq<Got>) {
    forall p :: p in c.done ==> IsSealed(c, p, c.done[p]) && GotAt(c, p) in got
  }

  function ChainOf(x: Sent): Public {
    if x.wire.Framed? then x.wire.header.dhPub else LowOrder
  }

  /** A party starts its epochs one after another. */
  ghost predicate InOrder(c: Schedule, sent: seq<Sent>) {
    forall i, j, a, b :: 0 <= i < j < |sent| && 0 <= a < |c.keys| && 0 <= b < |c.keys| && a % 2 == b % 2
                         && ChainOf(sent[i]) == PublicKey(c.keys[a]) && ChainOf(sent[j]) == PublicKey(c.keys[b]) ==>
                           a <= b
  }

  ghost predicate HasRead(c: Schedule, epoch: nat) {
    exists p :: p in c.done && p.epoch == epoch
  }

  /** Each epoch but the last was answered: the next one began when something of it was read. */
  ghost predicate Landed(c: Schedule) {
    forall i :: 0 < i && i + 1 < |c.keys| ==> HasRead(c, i)
  }

  /** Simulation: both states, and the record of what was sent and read, are those of the schedule. */
  ghost predicate Explains(c: Schedule, w: World) {
    && WellFormed(c)
    && (forall i :: 0 <= i < |c.keys| ==> c.keys[i] in w.secrets)
    && Refines(c, w.alice, EpochOf(c, Alice))
    && Refines(c, w.bob, EpochOf(c, Bob))
    && SentMatches(c, w.sent)
    && GotMatches(c, w.got)
    && InOrder(c, w.sent)
    && Landed(c)
  }

  lemma StateRefines(c: Schedule, w: World, x: Party)
    requires Explains(c, w)
    ensures Refines(c, StateOf(w, x), EpochOf(c, x))
    ensures EpochOf(c, x) < |c.keys| == |c.used| <= EpochOf(c, x) + 2
    ensures StateOf(w, x).sendCount == c.used[EpochOf(c, x)]
    ensures EpochOf(c, x) == 0 ==> StateOf(w, x).sendingChain.None?
    ensures forall p: Place :: Owner(p.epoch) == Peer(x) <==> (p.epoch + EpochOf(c, x)) % 2 == 1
  {
    hide SentMatches, GotMatches, InOrder, Landed, StashMatches, DoneMatches, ReceiverMatches;
  }

  lemma NotForgedIsUnforged(c: Schedule, w: World, wire: Wire)
    requires Explains(c, w) && !Forged(w, c.ikm, wire)
    ensures Unforged(c, wire)
  {
    hide Refines, GotMatches, InOrder, Landed, AllSent;
    if wire.Framed? && wire.ciphertext.Sealed? && IkmOf(wire.ciphertext.key) == Some(c.ikm) {
      assert SentMatches(c, w.sent);
      var x :| x in w.sent && x.wire.Framed? && x.wire.ciphertext == wire.ciphertext;
      assert IsSent(c, x);
      var p :| IsSealed(c, p, x.text) && x == SentAt(c, p, x.text);
      assert IsSealed(c, p, x.text) && wire.ciphertext == WireAt(c, p, x.text).ciphertext;
    }
  }

  /** Ratchet keys are distinct, so a header tells the position. */
  lemma SlotInjective(c: Schedule, p: Place, q: Place, t: Bytes, u: Bytes)
    requires WellFormed(c) && 0 < p.epoch < |c.keys| && 0 < q.epoch < |c.keys|
    requires SlotOf(WireAt(c, p, t)) == SlotOf(WireAt(c, q, u))
    ensures p == q
  {
  }

  /** `c'` is `c` some steps later: new epochs, and no change to an epoch whose owner has gone on. */
  ghost predicate Later(c: Schedule, c': Schedule) {
    && c'.ikm == c.ikm && c.keys <= c'.keys
    && |c.used| == |c.keys| && |c'.used| == |c'.keys|
    && (forall i :: 0 <= i < |c.keys| ==> c.used[i] <= c'.used[i])
    && (forall i :: 0 <= i && i + 2 < |c.keys| ==> c'.used[i] == c.used[i])
  }

  lemma LaterStill(c: Schedule, c1: Schedule, c2: Schedule)
    requires Later(c, c1) && Later(c1, c2)
    ensures Later(c, c2)
  {
  }

  // ---- every step keeps the simulation -----------------------------------------------------

  /** `c'` keeps every position, wire, text and reading of `c`. */
  ghost predicate Extends(c: Schedule, c': Schedule) {
    && |c.keys| == |c.used| && |c'.keys| == |c'.used|
    && (forall p :: IsPlace(c, p) ==> IsPlace(c', p) && p.epoch < |c'.keys|)
    && (forall p, t :: IsPlace(c, p) ==> p.epoch < |c'.keys| && WireAt(c', p, t) == WireAt(c, p, t))
    && c.sealed <= c'.sealed
    && (forall p :: p in c.done ==> p in c'.done && c'.done[p] == c.done[p])
  }

  lemma StillSent(c: Schedule, c': Schedule, x: Sent)
    requires Extends(c, c') && IsSent(c, x)
    ensures IsSent(c', x)
  {
    var p :| IsSealed(c, p, x.text) && x == SentAt(c, p, x.text);
    assert IsSealed(c', p, x.text) && x == SentAt(c', p, x.text);
  }

  lemma StillGot(c: Schedule, c': Schedule, x: Got)
    requires Extends(c, c') && IsGot(c, x)
    ensures IsGot(c', x)
  {
    var p :| p in c.done && IsPlace(c, p) && x == GotAt(c, p);
    assert p in c'.done && IsPlace(c', p) && x == GotAt(c', p);
  }

  /** The record of what was sent, after `more` was sealed. */
  lemma SentExtends(c: Schedule, c': Schedule, sent: seq<Sent>, more: seq<Sent>)
    requires Extends(c, c') && SentMatches(c, sent)
    requires forall x :: x in more ==> IsSent(c', x)
    requires forall d :: d in c'.sealed && d !in c.sealed ==>
               IsPlace(c', d.place) && SentAt(c', d.place, d.text) in more
    ensures SentMatches(c', sent + more)
  {
    forall x | x in sent
      ensures IsSent(c', x)
    {
      StillSent(c, c', x);
    }
    assert AllSent(c', sent + more) by {
      hide IsSent;
      forall d | d in c'.sealed
        ensures IsPlace(c', d.place) && SentAt(c', d.place, d.text) in sent + more
      {
        if d in c.sealed {
          assert SentAt(c', d.place, d.text) == SentAt(c, d.place, d.text);
        }
      }
    }
    hide IsSent, AllSent;
  }

  /** The record of what was read, when nothing more is. */
  lemma GotExtends(c: Schedule, c': Schedule, got: seq<Got>)
    requires Extends(c, c') && GotMatches(c, got) && c'.done == c.done
    ensures GotMatches(c', got)
  {
    forall x | x in got
      ensures IsGot(c', x)
    {
      StillGot(c, c', x);
    }
    assert AllGot(c', got) by {
      hide IsGot;
      forall p | p in c'.done
        ensures IsSealed(c', p, c'.done[p]) && GotAt(c', p) in got
      {
        assert GotAt(c', p) == GotAt(c, p);
      }
    }
    hide IsGot, AllGot;
  }

  lemma SealExtends(c: Schedule, e: nat, text: Bytes)
    requires WellFormed(c) && e < |c.keys|
    ensures Extends(c, Seal(c, e, text))
  {
  }

  lemma SpeakExtends(c: Schedule, e: nat, text: Bytes, sealOk: bool)
    requires WellFormed(c) && e < |c.keys| <= e + 2
    ensures Extends(c, Speak(c, e, text, sealOk))
  {
    forall p, t | IsPlace(c, p)
      ensures IsPlace(Speak(c, e, text, sealOk), p) && WireAt(Speak(c, e, text, sealOk), p, t) == WireAt(c, p, t)
    {
      SpeakKeepsWires(c, e, text, sealOk, p, t);
    }
  }

  lemma GrowExtends(c: Schedule, k: Secret)
    requires |c.keys| == |c.used|
    ensures Extends(c, Grow(c, k))
  {
    forall p, t | IsPlace(c, p)
      ensures IsPlace(Grow(c, k), p) && WireAt(Grow(c, k), p, t) == WireAt(c, p, t)
    {
      GrowKeepsWires(c, k, p, t);
    }
  }

  lemma ReadExtends(c: Schedule, p: Place, text: Bytes)
    requires |c.keys| == |c.used| && p !in c.done
    ensures Extends(c, Read(c, p, text))
  {
  }

  /** The record of what was sent, after `text` was sealed at the owner's position. */
  lemma SealedIsSent(c: Schedule, c': Schedule, sent: seq<Sent>, e: nat, text: Bytes)
    requires Extends(c, c') && SentMatches(c, sent) && 0 < e < |c.keys| == |c'.keys| && c.used[e] + 1 < U32_LIMIT
    requires c'.sealed == c.sealed + {Sealing(Place(e, c.used[e]), text)}
    ensures SentMatches(c', sent + [SentAt(c, Place(e, c.used[e]), text)])
  {
    var now := Place(e, c.used[e]);
    assert IsPlace(c, now);
    assert IsSealed(c', now, text) && SentAt(c', now, text) == SentAt(c, now, text);
    assert IsSent(c', SentAt(c, now, text));
    SentExtends(c, c', sent, [SentAt(c, now, text)]);
  }

  lemma SealKeepsOrder(c: Schedule, sent: seq<Sent>, e: nat, x: Sent)
    requires WellFormed(c) && InOrder(c, sent) && 0 < e < |c.keys| <= e + 2
    requires ChainOf(x) == PublicKey(c.keys[e])
    ensures InOrder(c, sent + [x])
  {
  }

  /** Sealing at the position where the owner of the newest epoch of its side stands. */
  lemma SealKeepsLogs(c: Schedule, w: World, e: nat, text: Bytes)
    requires Explains(c, w) && 0 < e < |c.keys| <= e + 2 && c.used[e] + 1 < U32_LIMIT
    ensures var c', sent' := Seal(c, e, text), w.sent + [SentAt(c, Place(e, c.used[e]), text)];
            SentMatches(c', sent') && GotMatches(c', w.got) && InOrder(c', sent')
  {
    hide Refines, SentMatches, GotMatches, InOrder, Extends, Landed;
    SealExtends(c, e, text);
    SealedIsSent(c, Seal(c, e, text), w.sent, e, text);
    GotExtends(c, Seal(c, e, text), w.got);
    SealKeepsOrder(c, w.sent, e, SentAt(c, Place(e, c.used[e]), text));
    SameOrder(c, Seal(c, e, text), w.sent + [SentAt(c, Place(e, c.used[e]), text)]);
  }

  lemma SameOrder(c: Schedule, c': Schedule, sent: seq<Sent>)
    requires InOrder(c, sent) && c'.keys == c.keys
    ensures InOrder(c', sent)
  {
  }

  lemma SpeakKeepsLogs(c: Schedule, w: World, e: nat, text: Bytes, sealOk: bool)
    requires Explains(c, w) && 0 < e < |c.keys| <= e + 2 && c.used[e] + 1 < U32_LIMIT
    ensures var c' := Speak(c, e, text, sealOk);
            var sent' := if sealOk then w.sent + [SentAt(c, Place(e, c.used[e]), text)] else w.sent;
            SentMatches(c', sent') && GotMatches(c', w.got) && InOrder(c', sent')
  {
    hide Refines, SentMatches, GotMatches, InOrder, Extends, Landed;
    var c' := Speak(c, e, text, sealOk);
    SpeakExtends(c, e, text, sealOk);
    GotExtends(c, c', w.got);
    if sealOk {
      SealedIsSent(c, c', w.sent, e, text);
      SealKeepsOrder(c, w.sent, e, SentAt(c, Place(e, c.used[e]), text));
      SameOrder(c, c', w.sent + [SentAt(c, Place(e, c.used[e]), text)]);
    } else {
      SentExtends(c, c', w.sent, []);
      assert w.sent + [] == w.sent;
      SameOrder(c, c', w.sent);
    }
  }

  lemma Assembled(c: Schedule, w: World, who: Party)
    requires |c.keys| >= 2 && forall i :: 0 <= i < |c.keys| ==> c.keys[i] in w.secrets
    requires Refines(c, StateOf(w, who), EpochOf(c, who))
    requires Refines(c, StateOf(w, Peer(who)), EpochOf(c, Peer(who)))
    requires SentMatches(c, w.sent) && GotMatches(c, w.got) && InOrder(c, w.sent) && Landed(c)
    ensures Explains(c, w)
  {
  }

  lemma EncryptedWorld(w: World, who: Party, text: Bytes, sealOk: bool)
    ensures var (s, r) := Encrypt(StateOf(w, who), text, sealOk);
            var w' := Step(w, Encrypts(who, text, sealOk));
            && StateOf(w', who) == s && StateOf(w', Peer(who)) == StateOf(w, Peer(who))
            && w'.sent == (if r.Success? then w.sent + [Sent(who, r.value, text)] else w.sent)
            && w'.got == w.got && w'.secrets == w.secrets
  {
  }

  lemma EncryptExplained(c: Schedule, w: World, who: Party, text: Bytes, sealOk: bool) returns (c': Schedule)
    requires Explains(c, w) && Admissible(w, c.ikm, Encrypts(who, text, sealOk))
    ensures Later(c, c') && Explains(c', Step(w, Encrypts(who, text, sealOk)))
  {
    hide Refines, SentMatches, GotMatches, InOrder, Landed, Step;
    EncryptedWorld(w, who, text, sealOk);
    NothingEncrypted(w, who, text, sealOk);
    StateRefines(c, w, who);
    var e := EpochOf(c, who);
    if e == 0 {
      c' := c;
    } else {
      c' := Speak(c, e, text, sealOk);
      SpeakRefines(c, StateOf(w, who), e, text, sealOk);
      PeerHears(c, w, who, text, sealOk);
      SpeakKeepsLogs(c, w, e, text, sealOk);
      SameLanding(c, c');
      Assembled(c', Step(w, Encrypts(who, text, sealOk)), who);
    }
  }

  lemma NothingEncrypted(w: World, who: Party, text: Bytes, sealOk: bool)
    ensures StateOf(w, who).sendingChain.None? ==> Step(w, Encrypts(who, text, sealOk)) == w
  {
  }

  lemma SameLanding(c: Schedule, c': Schedule)
    requires |c.keys| >= 2 && Landed(c) && c'.keys == c.keys && c'.done == c.done
    ensures Landed(c')
  {
    forall i | 0 < i && i + 1 < |c'.keys|
      ensures HasRead(c', i)
    {
      assert HasRead(c, i);
    }
  }

  lemma PeerHears(c: Schedule, w: World, who: Party, text: Bytes, sealOk: bool)
    requires Explains(c, w) && EpochOf(c, who) > 0 && c.used[EpochOf(c, who)] + 1 < U32_LIMIT
    ensures Refines(Speak(c, EpochOf(c, who), text, sealOk), StateOf(w, Peer(who)), EpochOf(c, Peer(who)))
  {
    hide Refines, SentMatches, GotMatches, InOrder, Landed;
    StateRefines(c, w, Peer(who));
    PeerSpoke(c, StateOf(w, Peer(who)), EpochOf(c, Peer(who)), EpochOf(c, who), text, sealOk);
  }

  lemma SealedWorld(w: World, who: Party, text: Bytes)
    ensures var (_, r) := Encrypt(StateOf(w, who), text, true);
            Step(w, SealsOnly(who, text))
            == w.(sent := if r.Success? then w.sent + [Sent(who, r.value, text)] else w.sent)
  {
  }

  /** Sealing without moving on leaves both states as they are; the schedule notes the text. */
  lemma SealExplained(c: Schedule, w: World, who: Party, text: Bytes) returns (c': Schedule)
    requires Explains(c, w) && Admissible(w, c.ikm, SealsOnly(who, text))
    ensures Later(c, c') && Explains(c', Step(w, SealsOnly(who, text)))
  {
    hide Refines, SentMatches, GotMatches, InOrder, Landed, Step;
    StateRefines(c, w, who);
    StateRefines(c, w, Peer(who));
    var e := EpochOf(c, who);
    SealedWorld(w, who, text);
    if e == 0 {
      c' := c;
    } else {
      c' := Seal(c, e, text);
      SpeakRefines(c, StateOf(w, who), e, text, true);
      SealRefines(c, StateOf(w, who), e, e, text);
      SealRefines(c, StateOf(w, Peer(who)), EpochOf(c, Peer(who)), e, text);
      SealKeepsLogs(c, w, e, text);
      SameLanding(c, c');
      hide Encrypt;
      Assembled(c', Step(w, SealsOnly(who, text)), who);
    }
  }

  lemma GotOnlyOnce(c: Schedule, p: Place, text: Bytes, x: Got)
    requires WellFormed(c) && IsGot(c, x) && IsPlace(c, p) && p !in c.done
    ensures SlotOf(x.wire) != SlotOf(WireAt(c, p, text))
  {
    var q :| q in c.done && IsPlace(c, q) && x == GotAt(c, q);
    if SlotOf(x.wire) == SlotOf(WireAt(c, p, text)) {
      SlotInjective(c, p, q, text, c.done[q]);
    }
  }

  lemma ReadAllGot(c: Schedule, got: seq<Got>, p: Place, text: Bytes)
    requires AllGot(c, got) && IsSealed(c, p, text)
    ensures AllGot(Read(c, p, text), got + [GotAt(Read(c, p, text), p)])
  {
    var c' := Read(c, p, text);
    forall q | q in c'.done
      ensures IsSealed(c', q, c'.done[q]) && GotAt(c', q) in got + [GotAt(c', p)]
    {
      if q != p {
        assert GotAt(c', q) == GotAt(c, q);
      }
    }
  }

  lemma ReadKeepsGot(c: Schedule, got: seq<Got>, p: Place, text: Bytes)
    requires WellFormed(c) && GotMatches(c, got) && IsSealed(c, p, text) && p !in c.done
    ensures GotMatches(Read(c, p, text), got + [GotAt(Read(c, p, text), p)])
  {
    hide AllGot;
    var c' := Read(c, p, text);
    ReadExtends(c, p, text);
    ReadAllGot(c, got, p, text);
    assert IsGot(c', GotAt(c', p));
    forall x | x in got
      ensures IsGot(c', x) && SlotOf(x.wire) != SlotOf(GotAt(c', p).wire)
    {
      assert IsGot(c, x);
      StillGot(c, c', x);
      GotOnlyOnce(c, p, text, x);
    }
    hide IsGot;
    assert forall i :: 0 <= i < |got| ==> got[i] in got;
  }

  lemma ReadKeepsSent(c: Schedule, sent: seq<Sent>, p: Place, text: Bytes)
    requires |c.keys| == |c.used| && p !in c.done && SentMatches(c, sent) && InOrder(c, sent)
    ensures SentMatches(Read(c, p, text), sent) && InOrder(Read(c, p, text), sent)
  {
    hide SentMatches, InOrder, Extends;
    ReadExtends(c, p, text);
    SentExtends(c, Read(c, p, text), sent, []);
    assert sent + [] == sent;
    SameOrder(c, Read(c, p, text), sent);
  }

  lemma GrowKeepsLogs(c: Schedule, w: World, k: Secret)
    requires |c.keys| == |c.used| && SentMatches(c, w.sent) && GotMatches(c, w.got)
    ensures SentMatches(Grow(c, k), w.sent) && GotMatches(Grow(c, k), w.got)
  {
    hide SentMatches, GotMatches, Extends;
    GrowExtends(c, k);
    SentExtends(c, Grow(c, k), w.sent, []);
    assert w.sent + [] == w.sent;
    GotExtends(c, Grow(c, k), w.got);
  }

  /** Nothing has been sent in an epoch whose key pair is only just drawn. */
  lemma GrowKeepsOrder(c: Schedule, sent: seq<Sent>, k: Secret)
    requires SentMatches(c, sent) && InOrder(c, sent) && k !in c.keys
    ensures InOrder(Grow(c, k), sent)
  {
    hide AllSent;
    forall i | 0 <= i < |sent|
      ensures ChainOf(sent[i]) != PublicKey(k)
    {
      assert sent[i] in sent && IsSent(c, sent[i]);
      var p :| IsSealed(c, p, sent[i].text) && sent[i] == SentAt(c, p, sent[i].text);
      assert c.keys[p.epoch] in c.keys;
    }
  }

  lemma DeliveredWorld(w: World, who: Party, wire: Wire, newKey: Secret)
    ensures var r := DecryptInner(StateOf(w, who), wire, newKey);
            var w' := Step(w, Delivers(who, wire, newKey));
            && StateOf(w', who) == (if r.Success? then r.value.0 else StateOf(w, who))
            && StateOf(w', Peer(who)) == StateOf(w, Peer(who))
            && w'.got == (if r.Success? then w.got + [Got(who, wire, r.value.1)] else w.got)
            && w'.sent == w.sent && w'.secrets == w.secrets + {newKey}
  {
  }

  /** What the reader's peer still satisfies after place `p` was read, with or without a turn. */
  lemma PeerOfReader(c: Schedule, w: World, who: Party, p: Place, text: Bytes, newKey: Secret)
    requires Explains(c, w) && |c.keys| >= 2 && Owner(p.epoch) == Peer(who) && newKey !in c.keys
    ensures Refines(Read(c, p, text), StateOf(w, Peer(who)), EpochOf(c, Peer(who)))
    ensures Refines(Read(Grow(c, newKey), p, text), StateOf(w, Peer(who)), EpochOf(c, Peer(who)))
  {
    hide *;
    PeersParity(c, who, p);
    StateRefines(c, w, Peer(who));
    ReadByThePeer(c, StateOf(w, Peer(who)), EpochOf(c, Peer(who)), p, text, newKey);
  }

  lemma PeersParity(c: Schedule, who: Party, p: Place)
    requires |c.keys| >= 2 && Owner(p.epoch) == Peer(who)
    ensures (p.epoch + EpochOf(c, Peer(who))) % 2 == 0
  {
  }

  lemma ReadByThePeer(c: Schedule, s: State, e: nat, p: Place, text: Bytes, newKey: Secret)
    requires Refines(c, s, e) && (p.epoch + e) % 2 == 0 && newKey !in c.keys
    ensures Refines(Read(c, p, text), s, e) && Refines(Read(Grow(c, newKey), p, text), s, e)
  {
    hide *;
    PeerRead(c, s, e, p, text);
    PeerTurned(c, s, e, newKey);
    PeerRead(Grow(c, newKey), s, e, p, text);
  }

  lemma LogsOfReader(c: Schedule, w: World, p: Place, text: Bytes, newKey: Secret)
    requires Explains(c, w) && IsSealed(c, p, text) && p !in c.done && newKey !in c.keys
    ensures SentMatches(Read(c, p, text), w.sent) && InOrder(Read(c, p, text), w.sent)
    ensures GotMatches(Read(c, p, text), w.got + [GotAt(Read(c, p, text), p)])
    ensures SentMatches(Read(Grow(c, newKey), p, text), w.sent) && InOrder(Read(Grow(c, newKey), p, text), w.sent)
    ensures GotMatches(Read(Grow(c, newKey), p, text), w.got + [GotAt(Read(c, p, text), p)])
  {
    hide SentMatches, GotMatches, InOrder, Refines;
    ReadKeepsSent(c, w.sent, p, text);
    ReadKeepsGot(c, w.got, p, text);
    GrowKeepsLogs(c, w, newKey);
    GrowKeepsOrder(c, w.sent, newKey);
    GrowKeepsWires(c, newKey, p, text);
    ReadKeepsSent(Grow(c, newKey), w.sent, p, text);
    ReadKeepsGot(Grow(c, newKey), w.got, p, text);
  }

  /** The schedule after the party at epoch `e` has read place `p`. */
  function AfterReading(c: Schedule, e: nat, p: Place, text: Bytes, newKey: Secret): Schedule {
    if p.epoch == e + 1 then Read(Grow(c, newKey), p, text) else Read(c, p, text)
  }

  lemma EpochsAfterReading(c: Schedule, who: Party, p: Place, text: Bytes, newKey: Secret)
    requires |c.keys| >= 2 && p.epoch < |c.keys|
    ensures var e, c' := EpochOf(c, who), AfterReading(c, EpochOf(c, who), p, text, newKey);
            && |c'.keys| >= 2
            && EpochOf(c', who) == (if p.epoch == e + 1 then e + 2 else e)
            && EpochOf(c', Peer(who)) == EpochOf(c, Peer(who))
  {
  }

  lemma ReaderLands(c: Schedule, who: Party, p: Place, text: Bytes, newKey: Secret)
    requires |c.keys| >= 2 && p.epoch < |c.keys| && Landed(c)
    ensures |AfterReading(c, EpochOf(c, who), p, text, newKey).keys| >= 2
    ensures Landed(AfterReading(c, EpochOf(c, who), p, text, newKey))
  {
    var e, c' := EpochOf(c, who), AfterReading(c, EpochOf(c, who), p, text, newKey);
    EpochsAfterReading(c, who, p, text, newKey);
    forall i | 0 < i && i + 1 < |c'.keys|
      ensures HasRead(c', i)
    {
      if i + 1 == |c.keys| {
        assert p in c'.done;
      } else {
        assert HasRead(c, i);
        var q :| q in c.done && q.epoch == i;
        assert q in c'.done;
      }
    }
  }

  lemma ReaderRefines(c: Schedule, w: World, who: Party, p: Place, text: Bytes, newKey: Secret)
    requires Explains(c, w) && newKey !in w.secrets
    requires IsSealed(c, p, text) && p !in c.done && Owner(p.epoch) == Peer(who) && !Overtaken(c, EpochOf(c, who), p)
    requires WithinSkip(StateOf(w, who), HeaderAt(c, p))
    ensures var r := DecryptInner(StateOf(w, who), WireAt(c, p, text), newKey);
            var c' := AfterReading(c, EpochOf(c, who), p, text, newKey);
            && r.Success? && r.value.1 == text
            && |c'.keys| >= 2 && Refines(c', r.value.0, EpochOf(c', who))
  {
    hide Refines, SentMatches, GotMatches, DecryptInner, WithinSkip, InOrder, Landed;
    StateRefines(c, w, who);
    EpochsAfterReading(c, who, p, text, newKey);
    UnreadPeerMessageOpens(c, StateOf(w, who), EpochOf(c, who), p, text, newKey);
  }

  lemma OthersAfterReading(c: Schedule, w: World, who: Party, p: Place, text: Bytes, newKey: Secret)
    requires Explains(c, w) && newKey !in w.secrets
    requires IsSealed(c, p, text) && p !in c.done && Owner(p.epoch) == Peer(who)
    ensures var c' := AfterReading(c, EpochOf(c, who), p, text, newKey);
            && |c'.keys| >= 2 && Refines(c', StateOf(w, Peer(who)), EpochOf(c', Peer(who)))
            && SentMatches(c', w.sent) && GotMatches(c', w.got + [GotAt(Read(c, p, text), p)]) && InOrder(c', w.sent)
            && forall i :: 0 <= i < |c'.keys| ==> c'.keys[i] in w.secrets + {newKey}
  {
    hide Refines, SentMatches, GotMatches, InOrder, Landed;
    EpochsAfterReading(c, who, p, text, newKey);
    PeerOfReader(c, w, who, p, text, newKey);
    LogsOfReader(c, w, p, text, newKey);
  }

  lemma ReadingExplained(c: Schedule, w: World, who: Party, newKey: Secret, p: Place, text: Bytes)
    requires Explains(c, w) && newKey !in w.secrets
    requires IsSealed(c, p, text) && p !in c.done && Owner(p.epoch) == Peer(who) && !Overtaken(c, EpochOf(c, who), p)
    requires WithinSkip(StateOf(w, who), HeaderAt(c, p))
    ensures Explains(AfterReading(c, EpochOf(c, who), p, text, newKey),
                     Step(w, Delivers(who, WireAt(c, p, text), newKey)))
  {
    hide Refines, SentMatches, GotMatches, DecryptInner, WithinSkip, Step, AfterReading, InOrder, Landed;
    ReaderRefines(c, w, who, p, text, newKey);
    OthersAfterReading(c, w, who, p, text, newKey);
    ReaderLands(c, who, p, text, newKey);
    DeliveredWorld(w, who, WireAt(c, p, text), newKey);
    assert Got(who, WireAt(c, p, text), text) == GotAt(Read(c, p, text), p);
    Assembled(AfterReading(c, EpochOf(c, who), p, text, newKey), Step(w, Delivers(who, WireAt(c, p, text), newKey)),
              who);
  }

  lemma DeliveryExplained(c: Schedule, w: World, who: Party, wire: Wire, newKey: Secret) returns (c': Schedule)
    requires Explains(c, w) && Admissible(w, c.ikm, Delivers(who, wire, newKey))
    ensures Later(c, c') && Explains(c', Step(w, Delivers(who, wire, newKey)))
  {
    hide Refines, SentMatches, GotMatches, DecryptInner, Forged, InOrder, Landed;
    StateRefines(c, w, who);
    NotForgedIsUnforged(c, w, wire);
    DeliveredWorld(w, who, wire, newKey);
    if DecryptInner(StateOf(w, who), wire, newKey).Failure? {
      c' := c;
    } else {
      var p := OnlyUnreadPeerMessagesOpen(c, StateOf(w, who), EpochOf(c, who), wire, newKey);
      c' := AfterReading(c, EpochOf(c, who), p, wire.ciphertext.plaintext, newKey);
      ReadingExplained(c, w, who, newKey, p, wire.ciphertext.plaintext);
    }
  }

  lemma StepExplained(c: Schedule, w: World, ev: Event) returns (c': Schedule)
    requires Explains(c, w) && Admissible(w, c.ikm, ev)
    ensures Later(c, c') && Explains(c', Step(w, ev))
  {
    match ev
    case Encrypts(who, text, sealOk) => c' := EncryptExplained(c, w, who, text, sealOk);
    case SealsOnly(who, text) => c' := SealExplained(c, w, who, text);
    case Delivers(who, wire, newKey) => c' := DeliveryExplained(c, w, who, wire, newKey);
  }

  lemma {:induction false} RunExplained(c: Schedule, w: World, events: seq<Event>) returns (c': Schedule)
    requires Explains(c, w) && AdmissibleRun(w, c.ikm, events)
    ensures Later(c, c') && Explains(c', Run(w, events))
    decreases |events|
  {
    if events == [] {
      c' := c;
    } else {
      var c1 := StepExplained(c, w, events[0]);
      c' := RunExplained(c1, Step(w, events[0]), events[1..]);
      LaterStill(c, c1, c');
    }
  }
}
