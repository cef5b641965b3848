/**
 One party against the global key schedule: which wire messages it can open, and
 that every step it takes keeps its state equal to what the schedule prescribes.
 */
module Refinement {
  import opened Wrappers
  import opened Crypto
  import opened Ratchet
  import opened RatchetLaws
  import opened KeySchedule

  /** A ciphertext under a key of this conversation was made by one of the two parties. */
  ghost predicate Unforged(c: Schedule, w: Wire) {
    w.Framed? && w.ciphertext.Sealed? && IkmOf(w.ciphertext.key) == Some(c.ikm) ==>
      exists p, text :: IsSealed(c, p, text) && w.ciphertext == WireAt(c, p, text).ciphertext
  }

  /** The two gaps a header opens, as the receiver can check them before decrypting. */
  predicate WithinSkip(s: State, h: Header) {
    || Slot(h.dhPub, h.n) in s.skipped
    || (s.dhRemote == Some(h.dhPub) && h.n <= s.recvCount + MAX_SKIP)
    || (s.dhRemote != Some(h.dhPub) && h.pn <= s.recvCount + MAX_SKIP && h.n <= MAX_SKIP)
  }

  /** The party at epoch `e` has gone on to a later chain of the peer, which does not count `p` any more. */
  predicate Overtaken(c: Schedule, e: nat, p: Place)
    requires p.epoch < |c.used|
  {
    p.epoch + 1 < e && c.used[p.epoch] <= p.n
  }

  // ---- which message a successful decryption opened --------------------------------

  lemma SentByThePair(c: Schedule, w: Wire, key: Key) returns (p: Place)
    requires Unforged(c, w) && w.Framed?
    requires Open(key, w.header, w.ciphertext).Some? && IkmOf(key) == Some(c.ikm)
    ensures IsSealed(c, p, w.ciphertext.plaintext) && w == WireAt(c, p, w.ciphertext.plaintext) && key == KeyAt(c, p)
  {
    var text;
    p, text :| IsSealed(c, p, text) && w.ciphertext == WireAt(c, p, text).ciphertext;
  }

  lemma DecryptedText(s: State, w: Wire, newKey: Secret)
    requires DecryptInner(s, w, newKey).Success?
    ensures w.Framed? && w.ciphertext.Sealed? && DecryptInner(s, w, newKey).value.1 == w.ciphertext.plaintext
  {
  }

  predicate OpenedAt(c: Schedule, w: Wire, p: Place) {
    w.Framed? && w.ciphertext.Sealed? && IsSealed(c, p, w.ciphertext.plaintext)
    && w == WireAt(c, p, w.ciphertext.plaintext)
  }

  lemma OpenedFromStash(c: Schedule, s: State, e: nat, w: Wire, newKey: Secret) returns (p: Place)
    requires Refines(c, s, e) && Unforged(c, w)
    requires DecryptInner(s, w, newKey).Success? && SlotOf(w) in s.skipped
    ensures OpenedAt(c, w, p) && Stashed(c, e, s.recvCount, p)
    ensures WithinSkip(s, w.header)
  {
    var q :| Stashed(c, e, s.recvCount, q) && SlotOf(w) == SlotAt(c, q);
    KeyAtIkm(c, q);
    p := SentByThePair(c, w, s.skipped[SlotOf(w)]);
    KeyAtInjective(c, p, q);
  }

  lemma OpenedInChain(c: Schedule, s: State, e: nat, w: Wire, newKey: Secret) returns (p: Place)
    requires Refines(c, s, e) && Unforged(c, w)
    requires DecryptInner(s, w, newKey).Success? && SlotOf(w) !in s.skipped && s.dhRemote == Some(w.header.dhPub)
    ensures OpenedAt(c, w, p) && p.epoch + 1 == e && s.recvCount <= p.n
    ensures p !in c.done && WithinSkip(s, w.header)
  {
    hide StashMatches, Stashed;
    ReadAhead(s, w, newKey);
    var n, chain := w.header.n, s.receivingChain.value;
    var key := MessageKey(Advance(chain, n - s.recvCount));
    AdvanceIkm(chain, n - s.recvCount);
    if e < 2 {
      p := SentByThePair(c, w, key);
      assert false;
    } else {
      AdvanceAdd(Chain(c.ikm, c.keys, e - 1), s.recvCount, n - s.recvCount);
      KeyAtIkm(c, Place(e - 1, n));
      p := SentByThePair(c, w, key);
      KeyAtInjective(c, p, Place(e - 1, n));
    }
  }

  lemma OpenedByTurn(c: Schedule, s: State, e: nat, w: Wire, newKey: Secret) returns (p: Place)
    requires Refines(c, s, e) && Unforged(c, w)
    requires DecryptInner(s, w, newKey).Success? && SlotOf(w) !in s.skipped && s.dhRemote != Some(w.header.dhPub)
    ensures OpenedAt(c, w, p) && p.epoch == e + 1
    ensures p !in c.done && WithinSkip(s, w.header)
  {
    var t := TurnRatchet(s, w.header, newKey).value;
    var remote, n := w.header.dhPub.secret, w.header.n;
    var start := ChainStart(Root(c.ikm, c.keys, e), Dh(c.keys[e], remote));
    if s.recvCount < w.header.pn {
      SkipToClosedForm(s, if s.dhRemote.Some? then s.dhRemote.value else w.header.dhPub, w.header.pn);
    }
    assert t.receivingChain == Some(start) && t.recvCount == 0;
    LocateAhead(t, w.header);
    RootFacts(c.ikm, c.keys, e);
    AdvanceIkm(start, n);
    p := SentByThePair(c, w, MessageKey(Advance(start, n)));
    TurnKey(c, e, remote, n, p);
  }

  /**
   Authenticity and at-most-once at the level of one state: whatever arrives, a decryption
   that succeeds opened an honest message of the peer that had not been read, unchanged.
   */
  lemma OnlyUnreadPeerMessagesOpen(c: Schedule, s: State, e: nat, w: Wire, newKey: Secret) returns (p: Place)
    requires Refines(c, s, e) && Unforged(c, w)
    requires DecryptInner(s, w, newKey).Success?
    ensures OpenedAt(c, w, p) && DecryptInner(s, w, newKey).value.1 == w.ciphertext.plaintext
    ensures (p.epoch + e) % 2 == 1 && p !in c.done && WithinSkip(s, w.header) && !Overtaken(c, e, p)
  {
    DecryptedText(s, w, newKey);
    if SlotOf(w) in s.skipped {
      p := OpenedFromStash(c, s, e, w, newKey);
    } else if s.dhRemote == Some(w.header.dhPub) {
      p := OpenedInChain(c, s, e, w, newKey);
    } else {
      p := OpenedByTurn(c, s, e, w, newKey);
    }
  }

  // ---- every unread peer message within the skip bound is opened ------------------------

  function Read(c: Schedule, p: Place, text: Bytes): Schedule {
    c.(done := c.done[p := text])
  }

  /** Distinct ratchet keys keep the slots of distinct places apart. */
  lemma SlotHeld(c: Schedule, s: State, e: nat, p: Place)
    requires Refines(c, s, e) && p.epoch < |c.keys|
    requires SlotAt(c, p) in s.skipped
    ensures Stashed(c, e, s.recvCount, p)
  {
  }

  lemma StashWithout(c: Schedule, m: SkippedKeys, e: nat, recv: nat, p: Place, text: Bytes)
    requires WellFormed(c) && StashMatches(c, m, e, recv) && Stashed(c, e, recv, p)
    ensures StashMatches(Read(c, p, text), m - {SlotAt(c, p)}, e, recv)
  {
    var c', m' := Read(c, p, text), m - {SlotAt(c, p)};
    forall q | Stashed(c', e, recv, q)
      ensures SlotAt(c', q) in m' && m'[SlotAt(c', q)] == KeyAt(c', q)
    {
      HeldUnread(c, m, e, recv, p, text, q);
    }
    forall k | k in m'
      ensures exists q :: Stashed(c', e, recv, q) && k == SlotAt(c', q)
    {
      var q := HeldOnlyUnread(c, m, e, recv, p, text, k);
      assert Stashed(c', e, recv, q) && k == SlotAt(c', q);
    }
  }

  lemma HeldOnlyUnread(c: Schedule, m: SkippedKeys, e: nat, recv: nat, p: Place, text: Bytes, k: Slot)
    returns (q: Place)
    requires StashMatches(c, m, e, recv) && k in m && p.epoch < |c.keys| && k != SlotAt(c, p)
    ensures Stashed(Read(c, p, text), e, recv, q) && k == SlotAt(Read(c, p, text), q)
  {
    q := PlaceHeld(c, m, e, recv, k);
  }

  lemma HeldUnread(c: Schedule, m: SkippedKeys, e: nat, recv: nat, p: Place, text: Bytes, q: Place)
    requires WellFormed(c) && StashMatches(c, m, e, recv) && Stashed(c, e, recv, p)
    requires Stashed(Read(c, p, text), e, recv, q)
    ensures SlotAt(Read(c, p, text), q) in m && SlotAt(Read(c, p, text), q) != SlotAt(c, p)
    ensures m[SlotAt(Read(c, p, text), q)] == KeyAt(Read(c, p, text), q)
  {
    assert Stashed(c, e, recv, q);
    if SlotAt(c, q) == SlotAt(c, p) {
      SameSlotSamePlace(c, p, q);
    }
  }

  lemma PlaceHeld(c: Schedule, m: SkippedKeys, e: nat, recv: nat, k: Slot) returns (q: Place)
    requires StashMatches(c, m, e, recv) && k in m
    ensures Stashed(c, e, recv, q) && k == SlotAt(c, q)
  {
    q :| Stashed(c, e, recv, q) && k == SlotAt(c, q);
  }

  lemma ReadFromStash(c: Schedule, s: State, e: nat, p: Place, text: Bytes, newKey: Secret)
    requires Refines(c, s, e) && IsSealed(c, p, text) && Stashed(c, e, s.recvCount, p)
    ensures DecryptInner(s, WireAt(c, p, text), newKey).Success?
    ensures DecryptInner(s, WireAt(c, p, text), newKey).value.1 == text
    ensures Refines(Read(c, p, text), DecryptInner(s, WireAt(c, p, text), newKey).value.0, e)
  {
    hide *;
    FoundInStash(c, s, e, p, text, newKey);
    OutOfStash(c, s, e, p, text);
  }

  lemma OutOfStash(c: Schedule, s: State, e: nat, p: Place, text: Bytes)
    requires Refines(c, s, e) && IsSealed(c, p, text) && Stashed(c, e, s.recvCount, p)
    ensures Refines(Read(c, p, text), s.(skipped := s.skipped - {SlotAt(c, p)}), e)
  {
    hide StashMatches, SlotAt, KeyAt;
    StashWithout(c, s.skipped, e, s.recvCount, p, text);
  }

  lemma FoundInStash(c: Schedule, s: State, e: nat, p: Place, text: Bytes, newKey: Secret)
    requires Refines(c, s, e) && IsSealed(c, p, text) && Stashed(c, e, s.recvCount, p)
    ensures DecryptInner(s, WireAt(c, p, text), newKey)
         == Success((s.(skipped := s.skipped - {SlotAt(c, p)}), text))
  {
    PriorLengthBound(c, p.epoch);
    assert SlotAt(c, p) in s.skipped && s.skipped[SlotAt(c, p)] == KeyAt(c, p);
  }

  lemma SameSlotSamePlace(c: Schedule, p: Place, q: Place)
    requires WellFormed(c) && p.epoch < |c.keys| && q.epoch < |c.keys|
    requires SlotAt(c, p) == SlotAt(c, q)
    ensures p == q
  {
  }

  /**
   Moving the receiving chain of epoch `i` from `lo` to `hi` stashes what must be stashed,
   whatever epoch `e` the party ends up in.
   */
  lemma StashGrows(c: Schedule, m: SkippedKeys, i: nat, lo: nat, hi: nat, k: Slot)
    requires WellFormed(c) && 0 < i < |c.keys| && lo <= hi
    ensures var start := Chain(c.ikm, c.keys, i);
            var grown := m + Stash(PublicKey(c.keys[i]), Advance(start, lo), lo, hi);
            && (k in grown <==> k in m || (k.dhPub == PublicKey(c.keys[i]) && lo <= k.n < hi))
            && (k in grown ==> grown[k] == if k.dhPub == PublicKey(c.keys[i]) && lo <= k.n < hi
                                           then KeyAt(c, Place(i, k.n)) else m[k])
  {
    var start := Chain(c.ikm, c.keys, i);
    StashContent(PublicKey(c.keys[i]), Advance(start, lo), lo, hi, k);
    if lo <= k.n < hi {
      AdvanceAdd(start, lo, k.n - lo);
    }
  }

  lemma SameSlotOnlyInOwnEpoch(c: Schedule, q: Place, i: nat)
    requires WellFormed(c) && q.epoch < |c.keys| && i < |c.keys| && q.epoch != i
    ensures SlotAt(c, q).dhPub != PublicKey(c.keys[i])
  {
  }

  /** The stash after moving the chain of epoch `i` from `recv` to `hi`. */
  function Moved(c: Schedule, m: SkippedKeys, i: nat, recv: nat, hi: nat): SkippedKeys
    requires 0 < i < |c.keys|
  {
    m + Stash(PublicKey(c.keys[i]), Advance(Chain(c.ikm, c.keys, i), recv), recv, hi)
  }

  lemma MovedHolds(c: Schedule, m: SkippedKeys, e: nat, recv: nat, hi: nat, q: Place)
    requires WellFormed(c) && StashMatches(c, m, e, recv)
    requires 1 < e < |c.keys| && recv <= hi
    requires Stashed(c, e, hi, q)
    ensures SlotAt(c, q) in Moved(c, m, e - 1, recv, hi) && Moved(c, m, e - 1, recv, hi)[SlotAt(c, q)] == KeyAt(c, q)
  {
    StashGrows(c, m, e - 1, recv, hi, SlotAt(c, q));
    if q.epoch == e - 1 {
      assert q.n < recv ==> Stashed(c, e, recv, q);
    } else {
      assert Stashed(c, e, recv, q);
      SameSlotOnlyInOwnEpoch(c, q, e - 1);
    }
  }

  lemma MovedHoldsOnly(c: Schedule, m: SkippedKeys, e: nat, recv: nat, hi: nat, k: Slot) returns (q: Place)
    requires WellFormed(c) && StashMatches(c, m, e, recv) && DoneMatches(c, e, recv)
    requires 1 < e < |c.keys| && recv <= hi
    requires k in Moved(c, m, e - 1, recv, hi)
    ensures Stashed(c, e, hi, q) && k == SlotAt(c, q)
  {
    StashGrows(c, m, e - 1, recv, hi, k);
    if k.dhPub == PublicKey(c.keys[e - 1]) && recv <= k.n < hi {
      q := Place(e - 1, k.n);
    } else {
      q := PlaceHeld(c, m, e, recv, k);
    }
  }

  lemma StashMoved(c: Schedule, m: SkippedKeys, e: nat, recv: nat, hi: nat)
    requires WellFormed(c) && StashMatches(c, m, e, recv) && DoneMatches(c, e, recv)
    requires 1 < e < |c.keys| && recv <= hi
    ensures StashMatches(c, Moved(c, m, e - 1, recv, hi), e, hi)
  {
    var moved := Moved(c, m, e - 1, recv, hi);
    forall q | Stashed(c, e, hi, q)
      ensures SlotAt(c, q) in moved && moved[SlotAt(c, q)] == KeyAt(c, q)
    {
      MovedHolds(c, m, e, recv, hi, q);
    }
    forall k | k in moved
      ensures exists q :: Stashed(c, e, hi, q) && k == SlotAt(c, q)
    {
      var q := MovedHoldsOnly(c, m, e, recv, hi, k);
    }
  }

  /** Two schedules that prescribe the same places and keys prescribe the same stash. */
  lemma SameStash(c: Schedule, e: nat, recv: nat, c': Schedule, e': nat, recv': nat, m: SkippedKeys)
    requires StashMatches(c, m, e, recv)
    requires e <= |c.keys| && e <= |c'.keys| && e' <= |c'.keys|
    requires forall q :: Stashed(c, e, recv, q) <==> Stashed(c', e', recv', q)
    requires forall q: Place :: 0 < q.epoch < e ==> KeyAt(c, q) == KeyAt(c', q) && SlotAt(c, q) == SlotAt(c', q)
    ensures StashMatches(c', m, e', recv')
  {
  }

  /** The receiving chain of `s` at position `n`. */
  lemma ChainPosition(c: Schedule, s: State, e: nat, n: nat)
    requires Refines(c, s, e) && 2 <= e && s.recvCount <= n
    ensures s.receivingChain.Some?
    ensures Advance(s.receivingChain.value, n - s.recvCount) == Advance(Chain(c.ikm, c.keys, e - 1), n)
  {
    AdvanceAdd(Chain(c.ikm, c.keys, e - 1), s.recvCount, n - s.recvCount);
  }

  lemma ChainReadSucceeds(c: Schedule, s: State, e: nat, p: Place, text: Bytes, newKey: Secret)
    requires Refines(c, s, e) && IsSealed(c, p, text)
    requires p.epoch + 1 == e && s.recvCount <= p.n <= s.recvCount + MAX_SKIP
    ensures DecryptInner(s, WireAt(c, p, text), newKey)
         == Success((s.(receivingChain := Some(Advance(Chain(c.ikm, c.keys, e - 1), p.n + 1)),
                        recvCount := p.n + 1,
                        skipped := Moved(c, s.skipped, e - 1, s.recvCount, p.n)),
                     text))
  {
    if SlotAt(c, p) in s.skipped {
      SlotHeld(c, s, e, p);
      assert false;
    }
    PriorLengthBound(c, p.epoch);
    ChainPosition(c, s, e, p.n);
    ChainPosition(c, s, e, p.n + 1);
    ReadAhead(s, WireAt(c, p, text), newKey);
  }

  lemma ReadFromChain(c: Schedule, s: State, e: nat, p: Place, text: Bytes, newKey: Secret)
    requires Refines(c, s, e) && IsSealed(c, p, text)
    requires p.epoch + 1 == e && s.recvCount <= p.n <= s.recvCount + MAX_SKIP
    ensures DecryptInner(s, WireAt(c, p, text), newKey).Success?
    ensures DecryptInner(s, WireAt(c, p, text), newKey).value.1 == text
    ensures Refines(Read(c, p, text), DecryptInner(s, WireAt(c, p, text), newKey).value.0, e)
  {
    ChainReadSucceeds(c, s, e, p, text, newKey);
    StashMoved(c, s.skipped, e, s.recvCount, p.n);
    SameStash(c, e, p.n, Read(c, p, text), e, p.n + 1, Moved(c, s.skipped, e - 1, s.recvCount, p.n));
  }

  lemma PriorLengthBound(c: Schedule, i: nat)
    requires WellFormed(c) && i < |c.keys|
    ensures LengthBefore(c, i) < U32_LIMIT
  {
  }

  // ---- a ratchet turn ------------------------------------------------------------------

  /** A new epoch with key pair `k` and nothing sent in it yet. */
  function Grow(c: Schedule, k: Secret): Schedule {
    c.(keys := c.keys + [k], used := c.used + [0])
  }

  lemma GrowKeepsKeys(c: Schedule, k: Secret, p: Place)
    requires 0 < p.epoch < |c.keys|
    ensures KeyAt(Grow(c, k), p) == KeyAt(c, p) && SlotAt(Grow(c, k), p) == SlotAt(c, p)
  {
    ChainStable(c.ikm, c.keys, [k], p.epoch);
  }

  /** The party that is behind first stashes the rest of the chain it is leaving. */
  lemma LeaveChain(c: Schedule, s: State, e: nat, h: Header)
    requires Refines(c, s, e) && e + 1 < |c.keys|
    requires h.pn == LengthBefore(c, e + 1) <= s.recvCount + MAX_SKIP
    ensures var r := StashOldChain(s, h);
            && r.Success?
            && r.value == s.(receivingChain := r.value.receivingChain, recvCount := r.value.recvCount,
                             skipped := r.value.skipped)
            && StashMatches(c, r.value.skipped, e, h.pn)
  {
    if e >= 2 && s.recvCount <= h.pn {
      SkipAhead(s, PublicKey(c.keys[e - 1]), h.pn);
      StashMoved(c, s.skipped, e, s.recvCount, h.pn);
    } else if e >= 2 {
      LastReadIsDone(c, s, e, h.pn);
    }
  }

  /** The peer's chain ended before the position it was last sealed at, and that message was read. */
  lemma LastReadIsDone(c: Schedule, s: State, e: nat, n: nat)
    requires Refines(c, s, e) && 2 <= e && n == c.used[e - 1] && n < s.recvCount
    ensures StashMatches(c, s.skipped, e, n)
  {
    assert s.recvCount == n + 1;
    SameStash(c, e, s.recvCount, c, e, n, s.skipped);
  }

  lemma TurnStash(c: Schedule, e: nat, m: SkippedKeys, newKey: Secret)
    requires WellFormed(c) && |c.keys| == e + 2 && StashMatches(c, m, e, LengthBefore(c, e + 1))
    ensures StashMatches(Grow(c, newKey), m, e + 2, 0)
  {
    var c' := Grow(c, newKey);
    forall q: Place | 0 < q.epoch < e
      ensures KeyAt(c, q) == KeyAt(c', q) && SlotAt(c, q) == SlotAt(c', q)
    {
      GrowKeepsKeys(c, newKey, q);
    }
    SameStash(c, e, LengthBefore(c, e + 1), c', e + 2, 0, m);
  }

  lemma TurnRefines(c: Schedule, s: State, e: nat, h: Header, newKey: Secret)
    requires Refines(c, s, e) && |c.keys| == e + 2 && newKey !in c.keys
    requires h.dhPub == PublicKey(c.keys[e + 1]) && h.pn == LengthBefore(c, e + 1) <= s.recvCount + MAX_SKIP
    ensures TurnRatchet(s, h, newKey).Success?
    ensures Refines(Grow(c, newKey), TurnRatchet(s, h, newKey).value, e + 2)
  {
    var c' := Grow(c, newKey);
    LeaveChain(c, s, e, h);
    var t := TurnRatchet(s, h, newKey).value;
    TurnStash(c, e, t.skipped, newKey);
    RootStable(c.ikm, c.keys, [newKey], e);
    assert Root(c'.ikm, c'.keys, e + 1) == RootStep(Root(c.ikm, c.keys, e), Dh(c.keys[e + 1], c.keys[e]));
    assert SenderMatches(c', t, e + 2);
    assert ReceiverMatches(c', t, e + 2);
  }

  lemma GrowKeepsWires(c: Schedule, k: Secret, p: Place, text: Bytes)
    requires IsPlace(c, p)
    ensures IsPlace(Grow(c, k), p) && WireAt(Grow(c, k), p, text) == WireAt(c, p, text)
    ensures IsSealed(Grow(c, k), p, text) == IsSealed(c, p, text)
  {
    GrowKeepsKeys(c, k, p);
  }

  /** No key is stashed for the positions a party has not come to. */
  lemma NothingAhead(c: Schedule, s: State, e: nat, p: Place)
    requires Refines(c, s, e) && p.epoch < |c.keys| && e <= p.epoch + 1 && (p.epoch + 1 == e ==> s.recvCount <= p.n)
    ensures SlotAt(c, p) !in s.skipped
  {
    if SlotAt(c, p) in s.skipped {
      SlotHeld(c, s, e, p);
      assert false;
    }
  }

  lemma ReadByTurn(c: Schedule, s: State, e: nat, p: Place, text: Bytes, newKey: Secret)
    requires Refines(c, s, e) && |c.keys| == e + 2 && newKey !in c.keys
    requires IsSealed(c, p, text) && p.epoch == e + 1 && p.n <= MAX_SKIP
    requires LengthBefore(c, e + 1) <= s.recvCount + MAX_SKIP
    ensures DecryptInner(s, WireAt(c, p, text), newKey).Success?
    ensures DecryptInner(s, WireAt(c, p, text), newKey).value.1 == text
    ensures Refines(Read(Grow(c, newKey), p, text), DecryptInner(s, WireAt(c, p, text), newKey).value.0, e + 2)
  {
    var w := WireAt(c, p, text);
    TurnRefines(c, s, e, w.header, newKey);
    var c', t := Grow(c, newKey), TurnRatchet(s, w.header, newKey).value;
    GrowKeepsWires(c, newKey, p, text);
    ReadFromChain(c', t, e + 2, p, text, newKey);
    PriorLengthBound(c, p.epoch);
    NothingAhead(c, s, e, p);
    NothingAhead(c', t, e + 2, p);
    if s.dhRemote == Some(w.header.dhPub) {
      assert false;
    }
  }

  /** Completeness: an unread message of the peer is opened whenever its gaps are within the bound. */
  lemma UnreadPeerMessageOpens(c: Schedule, s: State, e: nat, p: Place, text: Bytes, newKey: Secret)
    requires Refines(c, s, e) && |c.keys| <= e + 2 && newKey !in c.keys
    requires IsSealed(c, p, text) && (p.epoch + e) % 2 == 1 && p !in c.done && !Overtaken(c, e, p)
    requires WithinSkip(s, WireAt(c, p, text).header)
    ensures DecryptInner(s, WireAt(c, p, text), newKey).Success?
    ensures DecryptInner(s, WireAt(c, p, text), newKey).value.1 == text
    ensures if p.epoch == e + 1
            then Refines(Read(Grow(c, newKey), p, text), DecryptInner(s, WireAt(c, p, text), newKey).value.0, e + 2)
            else Refines(Read(c, p, text), DecryptInner(s, WireAt(c, p, text), newKey).value.0, e)
  {
    if Stashed(c, e, s.recvCount, p) {
      ReadFromStash(c, s, e, p, text, newKey);
    } else {
      if SlotAt(c, p) in s.skipped {
        SlotHeld(c, s, e, p);
        assert false;
      }
      if p.epoch + 1 == e {
        ReadFromChain(c, s, e, p, text, newKey);
      } else {
        if s.dhRemote == Some(PublicKey(c.keys[p.epoch])) {
          assert false;
        }
        ReadByTurn(c, s, e, p, text, newKey);
      }
    }
  }

  /** The skip bound is the only reason an unread message of the peer is refused. */
  lemma UnreadPeerMessageBeyondBound(c: Schedule, s: State, e: nat, p: Place, text: Bytes, newKey: Secret)
    requires Refines(c, s, e) && |c.keys| <= e + 2
    requires IsSealed(c, p, text) && (p.epoch + e) % 2 == 1 && p !in c.done && !Overtaken(c, e, p)
    requires !WithinSkip(s, WireAt(c, p, text).header)
    ensures DecryptInner(s, WireAt(c, p, text), newKey) == Failure(TooManySkipped)
  {
  }

  // ---- what the other party's steps do to this one ---------------------------------------

  lemma PeerReadStash(c: Schedule, e: nat, recv: nat, p: Place, text: Bytes, q: Place)
    requires (p.epoch + e) % 2 == 0
    ensures Stashed(Read(c, p, text), e, recv, q) <==> Stashed(c, e, recv, q)
  {
  }

  lemma PeerRead(c: Schedule, s: State, e: nat, p: Place, text: Bytes)
    requires Refines(c, s, e) && (p.epoch + e) % 2 == 0
    ensures Refines(Read(c, p, text), s, e)
  {
    var c' := Read(c, p, text);
    assert StashMatches(c', s.skipped, e, s.recvCount) by {
      hide Stashed;
      forall q
        ensures Stashed(c, e, s.recvCount, q) <==> Stashed(c', e, s.recvCount, q)
      {
        PeerReadStash(c, e, s.recvCount, p, text, q);
      }
      SameStash(c, e, s.recvCount, c', e, s.recvCount, s.skipped);
    }
    hide StashMatches, Stashed;
  }

  lemma PeerTurned(c: Schedule, s: State, e: nat, newKey: Secret)
    requires Refines(c, s, e) && newKey !in c.keys
    ensures Refines(Grow(c, newKey), s, e)
  {
    var c' := Grow(c, newKey);
    forall q: Place | 0 < q.epoch < e
      ensures KeyAt(c, q) == KeyAt(c', q) && SlotAt(c, q) == SlotAt(c', q)
    {
      GrowKeepsKeys(c, newKey, q);
    }
    SameStash(c, e, s.recvCount, c', e, s.recvCount, s.skipped);
    RootStable(c.ikm, c.keys, [newKey], e);
    if e > 0 {
      ChainStable(c.ikm, c.keys, [newKey], e);
    }
    if e > 1 {
      ChainStable(c.ikm, c.keys, [newKey], e - 1);
    }
  }

  // ---- sending ------------------------------------------------------------------------------

  /** `text` is sealed at the position the owner of `e` stands at. */
  function Seal(c: Schedule, e: nat, text: Bytes): Schedule
    requires e < |c.used|
  {
    c.(sealed := c.sealed + {Sealing(Place(e, c.used[e]), text)})
  }

  function MoveOn(c: Schedule, e: nat): Schedule
    requires e < |c.used|
  {
    c.(used := c.used[e := c.used[e] + 1])
  }

  /** One encryption: sealed or not, the position is used up. */
  function Speak(c: Schedule, e: nat, text: Bytes, sealOk: bool): Schedule
    requires e < |c.used|
  {
    MoveOn(if sealOk then Seal(c, e, text) else c, e)
  }

  lemma SpeakKeepsWires(c: Schedule, e: nat, text: Bytes, sealOk: bool, p: Place, t: Bytes)
    requires WellFormed(c) && e < |c.keys| <= e + 2 && IsPlace(c, p)
    ensures IsPlace(Speak(c, e, text, sealOk), p) && WireAt(Speak(c, e, text, sealOk), p, t) == WireAt(c, p, t)
  {
  }

  lemma SealRefines(c: Schedule, s: State, e: nat, i: nat, text: Bytes)
    requires Refines(c, s, e) && i < |c.used|
    ensures Refines(Seal(c, i, text), s, e)
  {
    SameStash(c, e, s.recvCount, Seal(c, i, text), e, s.recvCount, s.skipped);
  }

  lemma SpeakStash(c: Schedule, e: nat, recv: nat, text: Bytes, sealOk: bool, m: SkippedKeys)
    requires StashMatches(c, m, e, recv) && e < |c.keys| == |c.used|
    ensures StashMatches(Speak(c, e, text, sealOk), m, e, recv)
  {
    SameStash(c, e, recv, Speak(c, e, text, sealOk), e, recv, m);
  }

  lemma SpeakSender(c: Schedule, s: State, e: nat, text: Bytes, sealOk: bool)
    requires WellFormed(c) && 0 < e < |c.keys| && SenderMatches(c, s, e) && c.used[e] + 1 < U32_LIMIT
    ensures var (s', r) := Encrypt(s, text, sealOk);
            && WellFormed(Speak(c, e, text, sealOk)) && SenderMatches(Speak(c, e, text, sealOk), s', e)
            && r.Success? == sealOk
            && (sealOk ==> r.value == WireAt(c, Place(e, c.used[e]), text))
  {
  }

  lemma SpeakReceiver(c: Schedule, s: State, e: nat, text: Bytes, sealOk: bool)
    requires e < |c.keys| == |c.used| && ReceiverMatches(c, s, e) && DoneMatches(c, e, s.recvCount)
    ensures var c', s' := Speak(c, e, text, sealOk), Encrypt(s, text, sealOk).0;
            && s'.recvCount == s.recvCount && s'.skipped == s.skipped
            && ReceiverMatches(c', s', e) && DoneMatches(c', e, s'.recvCount)
  {
  }

  /** An encryption takes the next position of the party's own epoch, sealed or not. */
  lemma SpeakRefines(c: Schedule, s: State, e: nat, text: Bytes, sealOk: bool)
    requires Refines(c, s, e) && 0 < e && c.used[e] + 1 < U32_LIMIT
    ensures var p, (s', r) := Place(e, c.used[e]), Encrypt(s, text, sealOk);
            var c' := Speak(c, e, text, sealOk);
            && Refines(c', s', e)
            && r.Success? == sealOk
            && (sealOk ==>
                  IsSealed(Seal(c, e, text), p, text) && IsSealed(c', p, text) && r.value == WireAt(c, p, text))
  {
    SpeakSender(c, s, e, text, sealOk);
    SpeakReceiver(c, s, e, text, sealOk);
    SpeakStash(c, e, s.recvCount, text, sealOk, s.skipped);
    hide StashMatches, SenderMatches, ReceiverMatches, DoneMatches, Encrypt;
  }

  lemma PeerSpoke(c: Schedule, s: State, e: nat, i: nat, text: Bytes, sealOk: bool)
    requires Refines(c, s, e) && 0 < i < |c.keys| && (i + e) % 2 == 1 && e <= i + 1
    requires c.used[i] + 1 < U32_LIMIT
    ensures Refines(Speak(c, i, text, sealOk), s, e)
  {
    SameStash(c, e, s.recvCount, Speak(c, i, text, sealOk), e, s.recvCount, s.skipped);
  }

  // ---- several messages under one header ---------------------------------------------------------

  /**
   Once a position has been read, every other message under its header and key is refused: from the
   stash, on the chain or after a turn, and whatever text was sealed.
   */
  lemma ReadPlaceIsClosed(c: Schedule, s: State, e: nat, p: Place, text: Bytes, newKey: Secret)
    requires Refines(c, s, e) && IsPlace(c, p) && p in c.done
    ensures DecryptInner(s, WireAt(c, p, text), newKey).Failure?
  {
    var c' := c.(sealed := {Sealing(p, text)});
    SameStash(c, e, s.recvCount, c', e, s.recvCount, s.skipped);
    assert IsSealed(c', p, text) && WireAt(c', p, text) == WireAt(c, p, text);
    if DecryptInner(s, WireAt(c, p, text), newKey).Success? {
      var q := OnlyUnreadPeerMessagesOpen(c', s, e, WireAt(c, p, text), newKey);
      KeyAtInjective(c', p, q);
      assert false;
    }
  }
}
