/**
 A run in which an honest message is lost though nothing under its header was ever read: it was sealed
 by a send that failed, its sender encrypted nothing in its place, and the reader was on the
 sender's next chain when it came (crates/upm-core/src/ratchet.rs:268-361, clients/upm-windows/src/app.rs:738-759).
 */
module LostMessages {
  import opened Wrappers
  import opened Crypto
  import opened Ratchet
  import opened TwoParty
  import opened Conversations

  /** `t` is `s` after a turn on a first message that left nothing outstanding. */
  predicate Turned(s: State, t: State, h: Header, newKey: Secret) {
    && t.dhSelf == newKey && t.prevChainLen == s.sendCount && t.sendCount == 0 && t.sendingChain.Some?
    && t.dhRemote == Some(h.dhPub) && t.recvCount == 1 && t.skipped == map[]
  }

  /** A first message of a new chain, with no gap behind it. */
  predicate StartsChain(s: State, h: Header) {
    s.skipped == map[] && s.dhRemote != Some(h.dhPub) && h.pn <= s.recvCount && h.n == 0
  }

  lemma TurnOn(s: State, w: Wire, newKey: Secret)
    requires DecryptInner(s, w, newKey).Success? && StartsChain(s, w.header)
    ensures Turned(s, DecryptInner(s, w, newKey).value.0, w.header, newKey)
  {
  }

  lemma Delivered(u: Setup, events: seq<Event>, who: Party, x: Sent, newKey: Secret)
    requires Conversation(u, events) && newKey !in End(u, events).secrets
    requires x in End(u, events).sent && x.from == Peer(who) && MovedPast(StateOf(End(u, events), x.from), x.wire)
    requires Unread(End(u, events), who, x.wire) && StartsChain(StateOf(End(u, events), who), x.wire.header)
    ensures var w, w' := End(u, events), End(u, events + [Delivers(who, x.wire, newKey)]);
            && Conversation(u, events + [Delivers(who, x.wire, newKey)])
            && Turned(StateOf(w, who), StateOf(w', who), x.wire.header, newKey)
            && StateOf(w', Peer(who)) == StateOf(w, Peer(who))
            && w'.sent == w.sent && w'.secrets == w.secrets + {newKey}
            && w'.got == w.got + [Got(who, x.wire, x.text)]
  {
    hide DecryptInner, Lost, Unread, Honest, End, Turned;
    var w, ev := End(u, events), Delivers(who, x.wire, newKey);
    assert events + [] == events;
    MovedPastIsLostOnlyIfRead(u, events, [], who, x);
    RefusedOnlyBeyondBound(u, events, who, x, newKey);
    assert Deliverable(w, who, x.wire);
    DecryptsExactlyUnreadMessages(u, events, who, x.wire, newKey);
    OneMoreEvent(u, events, ev);
    DeliveredWorld(w, who, x.wire, newKey);
    TurnOn(StateOf(w, who), x.wire, newKey);
  }

  lemma Encrypted(u: Setup, events: seq<Event>, who: Party, text: Bytes)
    requires Conversation(u, events) && StateOf(End(u, events), who).sendingChain.Some?
    requires StateOf(End(u, events), who).sendCount + 1 < U32_LIMIT
    ensures var w, w' := End(u, events), End(u, events + [Encrypts(who, text, true)]);
            var s, s' := StateOf(w, who), StateOf(w', who);
            && Conversation(u, events + [Encrypts(who, text, true)])
            && s' == s.(sendCount := s.sendCount + 1, sendingChain := s'.sendingChain) && s'.sendingChain.Some?
            && StateOf(w', Peer(who)) == StateOf(w, Peer(who)) && w'.got == w.got && w'.secrets == w.secrets
            && w'.sent == w.sent + [Next(w, who, text)]
  {
    hide End, Conversation, Honest;
    OneMoreEvent(u, events, Encrypts(who, text, true));
  }

  lemma SealedOnly(u: Setup, events: seq<Event>, who: Party, text: Bytes)
    requires Conversation(u, events) && StateOf(End(u, events), who).sendingChain.Some?
    requires StateOf(End(u, events), who).sendCount + 1 < U32_LIMIT
    ensures var w := End(u, events);
            && Conversation(u, events + [SealsOnly(who, text)])
            && End(u, events + [SealsOnly(who, text)]) == w.(sent := w.sent + [Next(w, who, text)])
  {
    hide End, Conversation, Honest;
    OneMoreEvent(u, events, SealsOnly(who, text));
  }

  function Secrets(u: Setup): set<Secret> {
    SetupSecrets(u) + {u.firstRatchet}
  }

  predicate FromChain(x: Sent, from: Party, key: Secret, pn: nat, n: nat) {
    x.from == from && x.wire.Framed? && x.wire.header == Header(PublicKey(key), pn, n)
  }

  /** Alice's first message has been read; her second one is sealed and not counted, and Bob has answered. */
  ghost predicate Answered(u: Setup, events: seq<Event>, k1: Secret) {
    && Conversation(u, events)
    && var w := End(u, events);
    && w.alice.dhSelf == u.firstRatchet && w.alice.sendCount == 1 && w.alice.skipped == map[]
    && w.alice.dhRemote == Some(PublicKey(u.signedPrekey))
    && w.bob.dhSelf == k1 && w.bob.sendCount == 1 && w.bob.recvCount == 1 && w.bob.skipped == map[]
    && w.bob.dhRemote == Some(PublicKey(u.firstRatchet)) && w.secrets == Secrets(u) + {k1}
    && |w.sent| == 3 && FromChain(w.sent[0], Alice, u.firstRatchet, 0, 0)
    && FromChain(w.sent[1], Alice, u.firstRatchet, 0, 1) && FromChain(w.sent[2], Bob, k1, 0, 0)
    && w.got == [Got(Bob, w.sent[0].wire, w.sent[0].text)]
  }

  lemma FirstHalf(u: Setup, text0: Bytes, text1: Bytes, text2: Bytes, k1: Secret) returns (events: seq<Event>)
    requires Honest(u) && k1 !in Secrets(u)
    ensures Answered(u, events, k1)
    ensures |events| == 4 && events[2..] == [SealsOnly(Alice, text1), Encrypts(Bob, text2, true)]
    ensures End(u, events).sent[1].text == text1
  {
    var start := Start(u);
    assert Run(start, []) == start && AdmissibleRun(start, SessionIkm(u), []);
    assert Conversation(u, []) && End(u, []) == start;
    assert start.alice.sendCount == 0 && start.alice.prevChainLen == 0 && start.alice.sendingChain.Some?;
    assert start.bob.sendCount == 0 && start.bob.dhRemote.None? && start.bob.skipped == map[];
    hide End, Start, Honest, Conversation;
    Encrypted(u, [], Alice, text0);
    var first := Next(start, Alice, text0);
    events := [] + [Encrypts(Alice, text0, true)];
    Delivered(u, events, Bob, first, k1);
    events := events + [Delivers(Bob, first.wire, k1)];
    SealedOnly(u, events, Alice, text1);
    events := events + [SealsOnly(Alice, text1)];
    Encrypted(u, events, Bob, text2);
    events := events + [Encrypts(Bob, text2, true)];
  }

  lemma SecondHalf(u: Setup, events: seq<Event>, text3: Bytes, k1: Secret, k2: Secret, k3: Secret)
    returns (more: seq<Event>)
    requires Answered(u, events, k1)
    requires k1 !in Secrets(u) && k2 !in Secrets(u) + {k1} && k3 !in Secrets(u) + {k1, k2}
    ensures Conversation(u, events + more) && |more| == 3
    ensures var w, v := End(u, events + more), End(u, events);
            && |w.sent| == 4 && w.sent[..3] == v.sent && FromChain(w.sent[3], Alice, k2, 1, 0)
            && |w.got| == 3 && w.got[0] == v.got[0] && w.got[1].reader == Alice
            && w.got[2] == Got(Bob, w.sent[3].wire, text3)
  {
    var w := End(u, events);
    hide End, Start, Honest, Conversation;
    var answer := w.sent[2];
    assert u.signedPrekey in Secrets(u);
    Delivered(u, events, Alice, answer, k2);
    var events1 := events + [Delivers(Alice, answer.wire, k2)];
    Encrypted(u, events1, Alice, text3);
    var third := Next(End(u, events1), Alice, text3);
    var events2 := events1 + [Encrypts(Alice, text3, true)];
    Delivered(u, events2, Bob, third, k3);
    more := [Delivers(Alice, answer.wire, k2), Encrypts(Alice, text3, true), Delivers(Bob, third.wire, k3)];
    assert events + more == events2 + [Delivers(Bob, third.wire, k3)];
  }

  /**
   For every honest setup: Alice sends and Bob reads; Alice's next send fails; Bob answers; Alice reads the answer
   and sends on her next chain; Bob reads that. The message of the failed send is then lost to Bob, who
   has read nothing under its header.
   */
  lemma FailedSendCanBePassedOver(u: Setup, text0: Bytes, text1: Bytes, text2: Bytes, text3: Bytes,
                                  k1: Secret, k2: Secret, k3: Secret) returns (events: seq<Event>, x: Sent)
    requires Honest(u)
    requires k1 !in Secrets(u) && k2 !in Secrets(u) + {k1} && k3 !in Secrets(u) + {k1, k2}
    ensures Conversation(u, events) && x in End(u, events).sent && x.from == Alice && x.text == text1
    ensures Unread(End(u, events), Bob, x.wire) && Lost(End(u, events), Bob, x.wire)
  {
    hide End, Start, Honest, Conversation;
    var before := FirstHalf(u, text0, text1, text2, k1);
    var more := SecondHalf(u, before, text3, k1, k2, k3);
    events, x := before + more, End(u, before).sent[1];
    var w := End(u, events);
    assert w.sent[1] == x && w.sent[0] == End(u, before).sent[0];
    assert IsFollowedBy(w.sent, 1, 3);
    assert w.got[2] in w.got;
  }
}
