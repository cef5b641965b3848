/** Persisting a session: snapshot and from_snapshot of crates/upm-core/src/ratchet.rs. */
module Snapshot {
  import opened Wrappers
  import opened Crypto
  import opened Handshake
  import opened Ratchet
  import opened RatchetLaws
  import opened TwoParty
  import opened Conversations

  datatype SkippedMessageKey = SkippedMessageKey(slot: Slot, key: Key)

  datatype SessionSnapshot = SessionSnapshot(
    version: nat,
    peer: DeviceId,
    rootKey: Key,
    dhSelfPrivate: Secret,
    dhRemote: Option<Public>,
    sendingChain: Option<Key>,
    receivingChain: Option<Key>,
    sendCount: nat,
    recvCount: nat,
    prevChainLen: nat,
    skipped: seq<SkippedMessageKey>)

  /** `entries` lists the map `m`, each binding once, in whatever order the hash map yields them. */
  ghost predicate Lists(entries: seq<SkippedMessageKey>, m: SkippedKeys) {
    && |entries| == |m|
    && (forall i :: 0 <= i < |entries| ==> entries[i].slot in m && m[entries[i].slot] == entries[i].key)
    && (forall i, j :: 0 <= i < j < |entries| ==> entries[i].slot != entries[j].slot)
  }

  ghost predicate IsSnapshotOf(p: SessionSnapshot, s: State) {
    && p == SessionSnapshot(s.version, s.peer, s.rootKey, s.dhSelf, s.dhRemote, s.sendingChain, s.receivingChain,
                            s.sendCount, s.recvCount, s.prevChainLen, p.skipped)
    && Lists(p.skipped, s.skipped)
  }

  /** Any enumeration of the skipped keys is a snapshot; the loop fixes one. */
  method TakeSnapshot(s: State) returns (p: SessionSnapshot)
    ensures IsSnapshotOf(p, s)
  {
    var entries: seq<SkippedMessageKey> := [];
    var rest := s.skipped.Keys;
    while rest != {}
      invariant rest <= s.skipped.Keys
      invariant |entries| + |rest| == |s.skipped.Keys|
      invariant forall i :: 0 <= i < |entries| ==>
                  && entries[i].slot in s.skipped && entries[i].slot !in rest
                  && s.skipped[entries[i].slot] == entries[i].key
      invariant forall i, j :: 0 <= i < j < |entries| ==> entries[i].slot != entries[j].slot
      decreases |rest|
    {
      var k :| k in rest;
      entries := entries + [SkippedMessageKey(k, s.skipped[k])];
      rest := rest - {k};
    }
    p := SessionSnapshot(s.version, s.peer, s.rootKey, s.dhSelf, s.dhRemote, s.sendingChain, s.receivingChain,
                         s.sendCount, s.recvCount, s.prevChainLen, entries);
  }

  function Collect(entries: seq<SkippedMessageKey>): SkippedKeys {
    if entries == [] then map[]
    else
      var last := entries[|entries| - 1];
      Collect(entries[..|entries| - 1])[last.slot := last.key]
  }

  function FromSnapshot(p: SessionSnapshot): Result<State, SessionError> {
    if p.version != CURRENT_VERSION then Failure(NotEstablished)
    else
      var skipped := Collect(p.skipped);
      if |skipped| > MAX_SKIP then Failure(TooManySkipped)
      else Success(State(p.version, p.peer, p.rootKey, p.dhSelfPrivate, p.dhRemote, p.sendingChain, p.receivingChain,
                         p.sendCount, p.recvCount, p.prevChainLen, skipped))
  }

  lemma {:induction false} CollectRestores(entries: seq<SkippedMessageKey>, m: SkippedKeys)
    requires Lists(entries, m)
    ensures Collect(entries) == m
  {
    if entries == [] {
      assert m.Keys == {};
    } else {
      var n := |entries| - 1;
      var rest := m - {entries[n].slot};
      assert rest.Keys == m.Keys - {entries[n].slot};
      CollectRestores(entries[..n], rest);
    }
  }

  /**
   A snapshot restores exactly the session it was taken of, in whatever order its keys were
   listed, if and only if the session is of the current version and holds at most MAX_SKIP keys.
   */
  lemma SnapshotRoundTrip(s: State, p: SessionSnapshot)
    requires IsSnapshotOf(p, s)
    ensures FromSnapshot(p).Success? <==> s.version == CURRENT_VERSION && |s.skipped| <= MAX_SKIP
    ensures FromSnapshot(p).Success? ==> FromSnapshot(p).value == s
    ensures s.version == CURRENT_VERSION && |s.skipped| > MAX_SKIP ==> FromSnapshot(p) == Failure(TooManySkipped)
  {
    CollectRestores(p.skipped, s.skipped);
  }

  // ---- the bound is not an invariant: an honest conversation that cannot be restored -------

  function Chatter(m: nat): seq<Event> {
    if m == 0 then [] else Chatter(m - 1) + [Encrypts(Alice, [], true)]
  }

  lemma {:induction false} RunAppend(w: World, ikm: seq<Shared>, events: seq<Event>, ev: Event)
    ensures Run(w, events + [ev]) == Step(Run(w, events), ev)
    ensures AdmissibleRun(w, ikm, events) && Admissible(Run(w, events), ikm, ev) ==>
              AdmissibleRun(w, ikm, events + [ev])
    decreases |events|
  {
    if events == [] {
      assert [] + [ev] == [ev];
    } else {
      RunAppend(Step(w, events[0]), ikm, events[1..], ev);
      assert (events + [ev])[1..] == events[1..] + [ev];
    }
  }

  ghost predicate Chattered(u: Setup, m: nat, w: World)
    requires Honest(u)
  {
    && w.bob == Start(u).bob && w.got == [] && w.secrets == Start(u).secrets
    && w.alice.dhSelf == u.firstRatchet && w.alice.sendCount == m && w.alice.prevChainLen == 0
    && w.alice.sendingChain.Some?
    && |w.sent| == m
    && forall i :: 0 <= i < m ==>
         && w.sent[i].from == Alice && w.sent[i].wire.Framed?
         && w.sent[i].wire.header == Header(PublicKey(u.firstRatchet), 0, i)
  }

  lemma {:induction false} AliceChatters(u: Setup, m: nat)
    requires Honest(u) && m < U32_LIMIT
    ensures Conversation(u, Chatter(m)) && Chattered(u, m, End(u, Chatter(m)))
  {
    if m > 0 {
      AliceChatters(u, m - 1);
      RunAppend(Start(u), SessionIkm(u), Chatter(m - 1), Encrypts(Alice, [], true));
    }
  }

  function Sample(): Setup {
    var bundle := PreKeyBundle(9, Pub(2), Pub(3), Signature(9, SignedPrekeyText(Pub(2), Pub(3))), None, None, None);
    Setup(1, 2, 3, None, bundle, 4, 5, 1, 2)
  }

  /** What a first message read at position `n` leaves stashed: everything before it. */
  lemma FirstReadStash(s: State, w: Wire, newKey: Secret)
    requires DecryptInner(s, w, newKey).Success? && w.header.pn == 0
    requires s.skipped == map[] && s.dhRemote.None? && s.recvCount == 0 && s.receivingChain.Some?
    ensures var t := DecryptInner(s, w, newKey).value.0;
            && t.dhRemote == Some(w.header.dhPub) && t.receivingChain.Some? && t.recvCount == Increment32(w.header.n)
            && forall k :: k in t.skipped <==> k.dhPub == w.header.dhPub && k.n < w.header.n
  {
    var t := TurnRatchet(s, w.header, newKey).value;
    LocateAhead(t, w.header);
    forall k: Slot
      ensures k in t.skipped + Stash(w.header.dhPub, t.receivingChain.value, 0, w.header.n)
              <==> k.dhPub == w.header.dhPub && k.n < w.header.n
    {
      StashContent(w.header.dhPub, t.receivingChain.value, 0, w.header.n, k);
    }
  }

  /** A second gap on the same chain adds its positions to those already stashed. */
  lemma SecondReadStash(s: State, w: Wire, newKey: Secret)
    requires DecryptInner(s, w, newKey).Success? && s.dhRemote == Some(w.header.dhPub) && s.receivingChain.Some?
    requires Slot(w.header.dhPub, 0) in s.skipped && SlotOf(w) !in s.skipped && 0 < s.recvCount <= w.header.n
    ensures |DecryptInner(s, w, newKey).value.0.skipped| > w.header.n - s.recvCount
  {
    ReadAhead(s, w, newKey);
    var pub, c := w.header.dhPub, s.receivingChain.value;
    var stash := Stash(pub, c, s.recvCount, w.header.n);
    StashSize(pub, c, s.recvCount, w.header.n);
    StashContent(pub, c, s.recvCount, w.header.n, Slot(pub, 0));
    SubsetSize(stash.Keys + {Slot(pub, 0)}, (s.skipped + stash).Keys);
  }

  const LAST: nat := 2 * MAX_SKIP + 1

  lemma FirstGap(w0: World)
    requires Conversation(Sample(), Chatter(LAST + 1)) && w0 == End(Sample(), Chatter(LAST + 1))
    requires Chattered(Sample(), LAST + 1, w0)
    ensures var first := w0.sent[MAX_SKIP];
            && Admissible(w0, SessionIkm(Sample()), Delivers(Bob, first.wire, 6))
            && DecryptInner(w0.bob, first.wire, 6).Success?
  {
    var x := w0.sent[MAX_SKIP];
    assert Sent(Alice, x.wire, x.text) == x && x in w0.sent;
    assert Chatter(LAST + 1) + [] == Chatter(LAST + 1);
    MovedPastIsLostOnlyIfRead(Sample(), Chatter(LAST + 1), [], Bob, x);
    assert Deliverable(w0, Bob, x.wire) by {
      hide Lost;
    }
    DecryptsExactlyUnreadMessages(Sample(), Chatter(LAST + 1), Bob, x.wire, 6);
  }

  lemma SecondGap(events: seq<Event>, w1: World, x: Sent)
    requires Conversation(Sample(), events) && w1 == End(Sample(), events)
    requires x in w1.sent && x.from == Alice && Unread(w1, Bob, x.wire) && x.wire.Framed?
    requires w1.bob.dhRemote == Some(x.wire.header.dhPub) && x.wire.header.n <= w1.bob.recvCount + MAX_SKIP
    requires 7 !in w1.secrets
    ensures Admissible(w1, SessionIkm(Sample()), Delivers(Bob, x.wire, 7))
    ensures DecryptInner(w1.bob, x.wire, 7).Success?
  {
    assert Sent(Peer(Bob), x.wire, x.text) == x;
    CurrentChainIsLostOnlyIfRead(Sample(), events, Bob, x);
    assert Deliverable(w1, Bob, x.wire);
    DecryptsExactlyUnreadMessages(Sample(), events, Bob, x.wire, 7);
  }

  /** Bob reads message 1000 of a chain first and message 2001 next: two gaps of exactly MAX_SKIP. */
  lemma OverfullSessionIsReachable() returns (u: Setup, events: seq<Event>)
    ensures Conversation(u, events)
    ensures |End(u, events).bob.skipped| > MAX_SKIP
  {
    u := Sample();
    AliceChatters(u, LAST + 1);
    var w0 := End(u, Chatter(LAST + 1));
    var first, second := w0.sent[MAX_SKIP].wire, w0.sent[LAST].wire;
    FirstGap(w0);
    FirstReadStash(w0.bob, first, 6);
    var ev1 := Delivers(Bob, first, 6);
    RunAppend(Start(u), SessionIkm(u), Chatter(LAST + 1), ev1);
    var events1, w1 := Chatter(LAST + 1) + [ev1], Step(w0, ev1);
    assert w1.got == [Got(Bob, first, DecryptInner(w0.bob, first, 6).value.1)];

    SecondGap(events1, w1, w0.sent[LAST]);
    SecondReadStash(w1.bob, second, 7);
    var ev2 := Delivers(Bob, second, 7);
    RunAppend(Start(u), SessionIkm(u), events1, ev2);
    events := events1 + [ev2];
  }
}
