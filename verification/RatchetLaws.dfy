/**
 Laws of one session, over every state and every input: what skipping does,
 how fast the skipped-key map can grow, that rejected input leaves no trace, and
 that the deliveries of one chain may come in any order.
 */
module RatchetLaws {
  import opened Wrappers
  import opened Crypto
  import opened Ratchet

  // ---- the skipping loop in closed form --------------------------------------

  /** The message keys of positions `lo..hi` of a chain whose key at `lo` is `c`. */
  function Stash(pub: Public, c: Key, lo: nat, hi: nat): SkippedKeys
    decreases hi - lo
  {
    if hi <= lo then map[] else Stash(pub, c, lo, hi - 1)[Slot(pub, hi - 1) := MessageKey(Advance(c, hi - 1 - lo))]
  }

  lemma {:induction false} StashContent(pub: Public, c: Key, lo: nat, hi: nat, k: Slot)
    ensures k in Stash(pub, c, lo, hi) <==> k.dhPub == pub && lo <= k.n < hi
    ensures k in Stash(pub, c, lo, hi) ==> Stash(pub, c, lo, hi)[k] == MessageKey(Advance(c, k.n - lo))
    decreases hi - lo
  {
    if lo < hi {
      StashContent(pub, c, lo, hi - 1, k);
    }
  }

  lemma {:induction false} StashSize(pub: Public, c: Key, lo: nat, hi: nat)
    requires lo <= hi
    ensures |Stash(pub, c, lo, hi)| == hi - lo
    decreases hi - lo
  {
    if lo < hi {
      StashSize(pub, c, lo, hi - 1);
      StashContent(pub, c, lo, hi - 1, Slot(pub, hi - 1));
    }
  }

  lemma StashFront(m: SkippedKeys, pub: Public, c: Key, lo: nat, hi: nat)
    requires lo < hi
    ensures m[Slot(pub, lo) := MessageKey(c)] + Stash(pub, NextChain(c), lo + 1, hi) == m + Stash(pub, c, lo, hi)
  {
    var l, r := m[Slot(pub, lo) := MessageKey(c)] + Stash(pub, NextChain(c), lo + 1, hi), m + Stash(pub, c, lo, hi);
    forall k: Slot
      ensures (k in l <==> k in r) && (k in l ==> l[k] == r[k])
    {
      StashContent(pub, c, lo, hi, k);
      StashContent(pub, NextChain(c), lo + 1, hi, k);
      if k.dhPub == pub && lo < k.n < hi {
        AdvanceStep(c, k.n - (lo + 1));
      }
    }
  }

  /** Skipping stores exactly the passed positions, each with the key of its place in the chain. */
  lemma {:induction false} SkipToClosedForm(s: State, pub: Public, until: nat)
    requires s.receivingChain.Some? && s.recvCount <= until
    ensures SkipTo(s, pub, until)
         == s.(receivingChain := Some(Advance(s.receivingChain.value, until - s.recvCount)),
               recvCount := until,
               skipped := s.skipped + Stash(pub, s.receivingChain.value, s.recvCount, until))
    decreases until - s.recvCount
  {
    var c := s.receivingChain.value;
    if s.recvCount == until {
      assert s.skipped + Stash(pub, c, until, until) == s.skipped;
    } else {
      var s1 := s.(receivingChain := Some(NextChain(c)), recvCount := s.recvCount + 1,
                   skipped := s.skipped[Slot(pub, s.recvCount) := MessageKey(c)]);
      SkipToClosedForm(s1, pub, until);
      AdvanceStep(c, until - s1.recvCount);
      StashFront(s.skipped, pub, c, s.recvCount, until);
    }
  }

  lemma UnionSize<K, V>(m: map<K, V>, n: map<K, V>)
    ensures |m + n| <= |m| + |n|
    ensures |m + n| >= |n|
  {
    assert (m + n).Keys == m.Keys + n.Keys;
    assert n.Keys <= (m + n).Keys;
    SubsetSize(n.Keys, (m + n).Keys);
  }

  lemma SkipAhead(s: State, pub: Public, until: nat)
    requires s.receivingChain.Some?
    requires s.recvCount <= until <= s.recvCount + MAX_SKIP
    ensures SkipReceivingKeys(s, pub, until)
         == Success(s.(receivingChain := Some(Advance(s.receivingChain.value, until - s.recvCount)),
                       recvCount := until,
                       skipped := s.skipped + Stash(pub, s.receivingChain.value, s.recvCount, until)))
  {
    if s.recvCount < until {
      SkipToClosedForm(s, pub, until);
    } else {
      assert s.skipped + Stash(pub, s.receivingChain.value, until, until) == s.skipped;
    }
  }

  /** What a header at or ahead of the receiving chain selects, skipped positions included. */
  lemma LocateAhead(s: State, h: Header)
    requires s.receivingChain.Some?
    requires s.recvCount <= h.n <= s.recvCount + MAX_SKIP
    ensures var c := s.receivingChain.value;
            LocateInChain(s, h)
            == Success(Attempt(MessageKey(Advance(c, h.n - s.recvCount)),
                               s.(receivingChain := Some(Advance(c, h.n + 1 - s.recvCount)),
                                  recvCount := Increment32(h.n),
                                  skipped := s.skipped + Stash(h.dhPub, c, s.recvCount, h.n))))
  {
    SkipAhead(s, h.dhPub, h.n);
  }

  /** Reading the current chain at or ahead of its position: when it succeeds, and what it leaves. */
  lemma ReadAhead(s: State, w: Wire, newKey: Secret)
    requires w.Framed? && s.dhRemote == Some(w.header.dhPub) && s.receivingChain.Some?
    requires Slot(w.header.dhPub, w.header.n) !in s.skipped
    ensures var h, c := w.header, s.receivingChain.value;
            var r := DecryptInner(s, w, newKey);
            && (r.Success? <==>
                  && h.pn < U32_LIMIT && h.n < U32_LIMIT && s.recvCount <= h.n <= s.recvCount + MAX_SKIP
                  && Open(MessageKey(Advance(c, h.n - s.recvCount)), h, w.ciphertext).Some?)
            && (r.Success? ==>
                  r.value == (s.(receivingChain := Some(Advance(c, h.n + 1 - s.recvCount)),
                                 recvCount := Increment32(h.n),
                                 skipped := s.skipped + Stash(h.dhPub, c, s.recvCount, h.n)),
                              w.ciphertext.plaintext))
  {
    if s.recvCount <= w.header.n <= s.recvCount + MAX_SKIP {
      LocateAhead(s, w.header);
    }
  }

  lemma SkipGrowth(s: State, pub: Public, until: nat)
    requires SkipReceivingKeys(s, pub, until).Success?
    ensures |SkipReceivingKeys(s, pub, until).value.skipped| <= |s.skipped| + MAX_SKIP
  {
    if s.recvCount < until {
      var c := s.receivingChain.value;
      SkipToClosedForm(s, pub, until);
      StashSize(pub, c, s.recvCount, until);
      UnionSize(s.skipped, Stash(pub, c, s.recvCount, until));
    }
  }

  /**
   One decryption adds at most 2 * MAX_SKIP keys: MAX_SKIP bounds each call of the skipping
   loop, and a new epoch makes two of them. It does not bound the map.
   */
  lemma DecryptGrowth(s: State, w: Wire, newKey: Secret)
    ensures |Decrypt(s, w, newKey).0.skipped| <= |s.skipped| + 2 * MAX_SKIP
  {
    var r := DecryptInner(s, w, newKey);
    if r.Success? {
      var h := w.header;
      if Slot(h.dhPub, h.n) in s.skipped {
        assert (s.skipped - {Slot(h.dhPub, h.n)}).Keys == s.skipped.Keys - {Slot(h.dhPub, h.n)};
      } else if s.dhRemote == Some(h.dhPub) {
        SkipGrowth(s, h.dhPub, h.n);
      } else {
        var previous := if s.dhRemote.Some? then s.dhRemote.value else h.dhPub;
        if s.receivingChain.Some? {
          SkipGrowth(s, previous, h.pn);
        }
        var t := TurnRatchet(s, h, newKey).value;
        SkipGrowth(t, h.dhPub, h.n);
      }
    }
  }

  // ---- rejected input leaves no trace -------------------------------------------

  datatype Input = Send(text: Bytes, sealOk: bool) | Receive(wire: Wire, newKey: Secret)

  datatype Output = Produced(wire: Result<Wire, SessionError>) | Received(text: Result<Bytes, SessionError>)

  function React(s: State, i: Input): (State, Output) {
    match i
    case Send(text, sealOk) =>
      var (s', r) := Encrypt(s, text, sealOk);
      (s', Produced(r))
    case Receive(wire, newKey) =>
      var (s', r) := Decrypt(s, wire, newKey);
      (s', Received(r))
  }

  function Session(s: State, inputs: seq<Input>): (State, seq<Output>)
    decreases |inputs|
  {
    if inputs == [] then (s, [])
    else
      var (s1, o) := React(s, inputs[0]);
      var (s2, os) := Session(s1, inputs[1..]);
      (s2, [o] + os)
  }

  predicate Rejected(o: Output) {
    o.Received? && o.text.Failure?
  }

  function Accepted(os: seq<Output>): seq<Output> {
    if os == [] then []
    else if Rejected(os[0]) then Accepted(os[1..])
    else [os[0]] + Accepted(os[1..])
  }

  /** The same inputs without those whose decryption was rejected when their turn came. */
  function WithoutRejected(inputs: seq<Input>, outputs: seq<Output>): seq<Input>
    requires |inputs| == |outputs|
  {
    if inputs == [] then []
    else if Rejected(outputs[0]) then WithoutRejected(inputs[1..], outputs[1..])
    else [inputs[0]] + WithoutRejected(inputs[1..], outputs[1..])
  }

  lemma {:induction false} OneOutputEach(s: State, inputs: seq<Input>)
    ensures |Session(s, inputs).1| == |inputs|
    decreases |inputs|
  {
    if inputs != [] {
      OneOutputEach(React(s, inputs[0]).0, inputs[1..]);
    }
  }

  /** Malformed, forged, replayed and over-skipping messages are invisible, anywhere in a run. */
  lemma {:induction false} RejectedInputIsInvisible(s: State, inputs: seq<Input>)
    ensures |Session(s, inputs).1| == |inputs|
    ensures Session(s, WithoutRejected(inputs, Session(s, inputs).1))
         == (Session(s, inputs).0, Accepted(Session(s, inputs).1))
    decreases |inputs|
  {
    OneOutputEach(s, inputs);
    if inputs != [] {
      var (s1, o) := React(s, inputs[0]);
      var os := Session(s1, inputs[1..]).1;
      RejectedInputIsInvisible(s1, inputs[1..]);
      assert ([o] + os)[1..] == os;
      var kept := WithoutRejected(inputs[1..], os);
      if !Rejected(o) {
        assert ([inputs[0]] + kept)[1..] == kept;
      }
    }
  }

  // ---- deliveries from one established chain commute ---------------------------------

  /** Holds in every reachable state (see Conversations.ReachableIsEstablished). */
  predicate Established(s: State) {
    && s.dhRemote.Some?
    && s.receivingChain.Some?
    && forall k :: k in s.skipped && k.dhPub == s.dhRemote.value ==> k.n < s.recvCount
  }

  function SlotOf(w: Wire): Slot {
    if w.Framed? then Slot(w.header.dhPub, w.header.n) else Slot(LowOrder, 0)
  }

  /** A message of the current receiving chain, or of an older one whose key was stashed. */
  predicate NeedsNoTurn(s: State, w: Wire) {
    && w.Framed?
    && w.header.n + 1 < U32_LIMIT
    && (SlotOf(w) in s.skipped || s.dhRemote == Some(w.header.dhPub))
  }

  /** What `s` becomes once the messages of the slots `done` were read and the chain stands at `top`. */
  function After(s: State, done: set<Slot>, top: nat): State
    requires Established(s) && s.recvCount <= top
  {
    var c := s.receivingChain.value;
    s.(receivingChain := Some(Advance(c, top - s.recvCount)),
       recvCount := top,
       skipped := (s.skipped + Stash(s.dhRemote.value, c, s.recvCount, top)) - done)
  }

  /** `top` is one past the highest current-chain position in `done`, or where the chain stood. */
  predicate IsTop(s: State, done: set<Slot>, top: nat)
    requires Established(s)
  {
    && s.recvCount <= top
    && (forall k :: k in done && k.dhPub == s.dhRemote.value ==> k.n < top)
    && (top == s.recvCount || Slot(s.dhRemote.value, top - 1) in done)
  }

  lemma TopIsUnique(s: State, done: set<Slot>, t1: nat, t2: nat)
    requires Established(s) && IsTop(s, done, t1) && IsTop(s, done, t2)
    ensures t1 == t2
  {
  }

  function NewTop(s: State, w: Wire, top: nat): nat
    requires Established(s) && w.Framed?
  {
    if w.header.dhPub == s.dhRemote.value && top <= w.header.n then w.header.n + 1 else top
  }

  lemma AfterContent(s: State, done: set<Slot>, top: nat, k: Slot)
    requires Established(s) && s.recvCount <= top
    ensures k in After(s, done, top).skipped <==>
            k !in done && (k in s.skipped || (k.dhPub == s.dhRemote.value && s.recvCount <= k.n < top))
    ensures k in After(s, done, top).skipped ==>
              After(s, done, top).skipped[k]
              == if k.dhPub == s.dhRemote.value && s.recvCount <= k.n < top
                 then MessageKey(Advance(s.receivingChain.value, k.n - s.recvCount))
                 else s.skipped[k]
  {
    StashContent(s.dhRemote.value, s.receivingChain.value, s.recvCount, top, k);
  }

  lemma AfterNothing(s: State)
    requires Established(s)
    ensures After(s, {}, s.recvCount) == s && IsTop(s, {}, s.recvCount)
  {
  }

  lemma ReadStashed(s: State, done: set<Slot>, top: nat, w: Wire, k1: Secret, k2: Secret)
    requires Established(s) && IsTop(s, done, top)
    requires NeedsNoTurn(s, w) && DecryptInner(s, w, k1).Success?
    requires SlotOf(w) in After(s, done, top).skipped
    ensures DecryptInner(After(s, done, top), w, k2)
         == Success((After(s, done + {SlotOf(w)}, top), DecryptInner(s, w, k1).value.1))
  {
    var slot := SlotOf(w);
    AfterContent(s, done, top, slot);
    if slot !in s.skipped {
      ReadAhead(s, w, k1);
    }
    var stash := s.skipped + Stash(s.dhRemote.value, s.receivingChain.value, s.recvCount, top);
    assert (stash - done) - {slot} == stash - (done + {slot});
  }

  lemma StashAfter(m: SkippedKeys, pub: Public, c: Key, lo: nat, top: nat, n: nat, done: set<Slot>)
    requires lo <= top <= n
    requires forall k :: k in done && k.dhPub == pub ==> k.n < top
    requires Slot(pub, n) !in m
    ensures ((m + Stash(pub, c, lo, top)) - done) + Stash(pub, Advance(c, top - lo), top, n)
         == (m + Stash(pub, c, lo, n + 1)) - (done + {Slot(pub, n)})
  {
    var d := Advance(c, top - lo);
    var l := ((m + Stash(pub, c, lo, top)) - done) + Stash(pub, d, top, n);
    var r := (m + Stash(pub, c, lo, n + 1)) - (done + {Slot(pub, n)});
    forall k: Slot
      ensures (k in l <==> k in r) && (k in l ==> l[k] == r[k])
    {
      StashContent(pub, c, lo, top, k);
      StashContent(pub, c, lo, n + 1, k);
      StashContent(pub, d, top, n, k);
      if k.dhPub == pub && top <= k.n < n {
        AdvanceAdd(c, top - lo, k.n - top);
      }
    }
  }

  lemma NextOpens(s: State, done: set<Slot>, top: nat, w: Wire, text: Bytes, newKey: Secret)
    requires Established(s) && IsTop(s, done, top)
    requires w.Framed? && w.header.pn < U32_LIMIT && w.header.n + 1 < U32_LIMIT
    requires s.dhRemote == Some(w.header.dhPub) && SlotOf(w) !in s.skipped
    requires top <= w.header.n <= s.recvCount + MAX_SKIP
    requires w.ciphertext
          == Sealed(MessageKey(Advance(s.receivingChain.value, w.header.n - s.recvCount)), w.header, text)
    ensures var c, n, t := s.receivingChain.value, w.header.n, After(s, done, top);
            DecryptInner(t, w, newKey)
            == Success((t.(receivingChain := Some(Advance(c, n + 1 - s.recvCount)), recvCount := n + 1,
                           skipped := t.skipped + Stash(w.header.dhPub, Advance(c, top - s.recvCount), top, n)),
                        text))
  {
    var n, c := w.header.n, s.receivingChain.value;
    AfterContent(s, done, top, SlotOf(w));
    ReadAhead(After(s, done, top), w, newKey);
    AdvanceAdd(c, top - s.recvCount, n - top);
    AdvanceAdd(c, top - s.recvCount, n + 1 - top);
  }

  lemma ReadNext(s: State, done: set<Slot>, top: nat, w: Wire, text: Bytes, newKey: Secret)
    requires Established(s) && IsTop(s, done, top)
    requires w.Framed? && w.header.pn < U32_LIMIT && w.header.n + 1 < U32_LIMIT
    requires s.dhRemote == Some(w.header.dhPub) && SlotOf(w) !in s.skipped
    requires top <= w.header.n <= s.recvCount + MAX_SKIP
    requires w.ciphertext
          == Sealed(MessageKey(Advance(s.receivingChain.value, w.header.n - s.recvCount)), w.header, text)
    ensures DecryptInner(After(s, done, top), w, newKey)
         == Success((After(s, done + {SlotOf(w)}, w.header.n + 1), text))
  {
    NextOpens(s, done, top, w, text, newKey);
    StashAfter(s.skipped, w.header.dhPub, s.receivingChain.value, s.recvCount, top, w.header.n, done);
  }

  lemma TopAfter(s: State, done: set<Slot>, top: nat, w: Wire)
    requires Established(s) && IsTop(s, done, top) && w.Framed?
    ensures IsTop(s, done + {SlotOf(w)}, NewTop(s, w, top))
  {
  }

  /** What reading a message of the current chain on its own tells about it. */
  lemma AheadOrStashed(s: State, done: set<Slot>, top: nat, w: Wire, k1: Secret)
    requires Established(s) && IsTop(s, done, top)
    requires NeedsNoTurn(s, w) && DecryptInner(s, w, k1).Success?
    requires SlotOf(w) !in done && SlotOf(w) !in After(s, done, top).skipped
    ensures w.header.pn < U32_LIMIT && s.dhRemote == Some(w.header.dhPub) && SlotOf(w) !in s.skipped
    ensures top <= w.header.n <= s.recvCount + MAX_SKIP && w.ciphertext.Sealed?
    ensures w.ciphertext == Sealed(MessageKey(Advance(s.receivingChain.value, w.header.n - s.recvCount)), w.header,
                                   w.ciphertext.plaintext)
    ensures DecryptInner(s, w, k1).value.1 == w.ciphertext.plaintext
  {
    AfterContent(s, done, top, SlotOf(w));
    ReadAhead(s, w, k1);
  }

  /** A message `s` could read is still read, to the same text, after any other messages. */
  lemma ReadAfterOthers(s: State, done: set<Slot>, top: nat, w: Wire, k1: Secret, k2: Secret)
    requires Established(s) && IsTop(s, done, top)
    requires NeedsNoTurn(s, w) && DecryptInner(s, w, k1).Success?
    requires SlotOf(w) !in done
    ensures IsTop(s, done + {SlotOf(w)}, NewTop(s, w, top))
    ensures DecryptInner(After(s, done, top), w, k2)
         == Success((After(s, done + {SlotOf(w)}, NewTop(s, w, top)), DecryptInner(s, w, k1).value.1))
  {
    hide DecryptInner;
    TopAfter(s, done, top, w);
    AfterContent(s, done, top, SlotOf(w));
    if SlotOf(w) in After(s, done, top).skipped {
      ReadStashed(s, done, top, w, k1, k2);
    } else {
      AheadOrStashed(s, done, top, w, k1);
      ReadNext(s, done, top, w, w.ciphertext.plaintext, k2);
    }
  }

  /**
   Delivers a batch in order; `None` as soon as one message is rejected. No key pair is
   drawn on an established chain, so one `newKey` stands for all of them.
   */
  function DeliverAll(s: State, batch: seq<Wire>, newKey: Secret): Option<(State, seq<Bytes>)>
    decreases |batch|
  {
    if batch == [] then Some((s, []))
    else
      match DecryptInner(s, batch[0], newKey)
      case Failure(_) => None
      case Success((s1, text)) =>
        match DeliverAll(s1, batch[1..], newKey)
        case None => None
        case Some((s2, texts)) => Some((s2, [text] + texts))
  }

  /** Readable by `s` itself, without a ratchet turn. */
  predicate Readable(s: State, w: Wire) {
    NeedsNoTurn(s, w) && DecryptInner(s, w, 0).Success?
  }

  ghost predicate DistinctSlots(batch: seq<Wire>) {
    forall i, j :: 0 <= i < j < |batch| ==> SlotOf(batch[i]) != SlotOf(batch[j])
  }

  ghost predicate ReadableBatch(s: State, batch: seq<Wire>) {
    (forall w :: w in batch ==> Readable(s, w)) && DistinctSlots(batch)
  }

  function SlotsOf(batch: seq<Wire>): set<Slot> {
    set w | w in batch :: SlotOf(w)
  }

  ghost predicate BatchOutcome(s: State, done: set<Slot>, top: nat, batch: seq<Wire>, newKey: Secret, end: nat)
    requires Established(s) && s.recvCount <= top
  {
    && IsTop(s, done + SlotsOf(batch), end)
    && var r := DeliverAll(After(s, done, top), batch, newKey);
    && r.Some?
    && r.value.0 == After(s, done + SlotsOf(batch), end)
    && |r.value.1| == |batch|
    && forall i :: 0 <= i < |batch| ==>
         Readable(s, batch[i]) && r.value.1[i] == DecryptInner(s, batch[i], 0).value.1
  }

  lemma RestIsReadable(s: State, batch: seq<Wire>)
    requires batch != [] && ReadableBatch(s, batch)
    ensures ReadableBatch(s, batch[1..])
    ensures forall w :: w in batch[1..] ==> SlotOf(w) != SlotOf(batch[0])
    ensures SlotsOf(batch) == {SlotOf(batch[0])} + SlotsOf(batch[1..])
  {
  }

  lemma {:induction false} DeliverAllFrom(s: State, done: set<Slot>, top: nat, batch: seq<Wire>, newKey: Secret)
    returns (end: nat)
    requires Established(s) && IsTop(s, done, top)
    requires ReadableBatch(s, batch)
    requires forall w :: w in batch ==> SlotOf(w) !in done
    ensures BatchOutcome(s, done, top, batch, newKey, end)
    decreases |batch|
  {
    hide DecryptInner, After, IsTop, Established, NewTop;
    if batch == [] {
      assert done + SlotsOf(batch) == done;
      end := top;
    } else {
      var w := batch[0];
      RestIsReadable(s, batch);
      ReadAfterOthers(s, done, top, w, 0, newKey);
      end := DeliverAllFrom(s, done + {SlotOf(w)}, NewTop(s, w, top), batch[1..], newKey);
      assert done + SlotsOf(batch) == done + {SlotOf(w)} + SlotsOf(batch[1..]);
    }
  }

  /**
   Order independence. Any two orders of the same batch, read from one state, end in the same
   state, and every message yields the text it would have yielded alone.
   */
  lemma DeliveryOrderIsIrrelevant(s: State, batch: seq<Wire>, shuffled: seq<Wire>, k1: Secret, k2: Secret)
    requires Established(s)
    requires ReadableBatch(s, batch)
    requires multiset(batch) == multiset(shuffled)
    ensures DeliverAll(s, batch, k1).Some? && DeliverAll(s, shuffled, k2).Some?
    ensures DeliverAll(s, batch, k1).value.0 == DeliverAll(s, shuffled, k2).value.0
    ensures |DeliverAll(s, shuffled, k2).value.1| == |shuffled|
    ensures forall i :: 0 <= i < |shuffled| ==>
              Readable(s, shuffled[i]) &&
              DeliverAll(s, shuffled, k2).value.1[i] == DecryptInner(s, shuffled[i], 0).value.1
  {
    AfterNothing(s);
    SameMembers(batch, shuffled);
    PermutedBatchIsReadable(s, batch, shuffled);
    var t1 := DeliverAllFrom(s, {}, s.recvCount, batch, k1);
    var t2 := DeliverAllFrom(s, {}, s.recvCount, shuffled, k2);
    assert SlotsOf(batch) == SlotsOf(shuffled);
    TopIsUnique(s, {} + SlotsOf(batch), t1, t2);
  }

  lemma SameMembers<T>(a: seq<T>, b: seq<T>)
    requires multiset(a) == multiset(b)
    ensures |a| == |b|
    ensures forall x :: x in a <==> x in b
  {
    forall x
      ensures x in a <==> x in b
    {
      assert x in a <==> x in multiset(a);
      assert x in b <==> x in multiset(b);
    }
    assert |multiset(a)| == |a| && |multiset(b)| == |b|;
  }

  lemma RepeatedElement<T>(a: seq<T>, i: nat, j: nat)
    requires i < j < |a| && a[i] == a[j]
    ensures multiset(a)[a[i]] >= 2
  {
    assert a == a[..j] + a[j..];
    assert a[i] in a[..j] && a[j] in a[j..];
    assert multiset(a) == multiset(a[..j]) + multiset(a[j..]);
  }

  lemma {:induction false} OccursTwice<T>(a: seq<T>, x: T) returns (i: nat, j: nat)
    requires multiset(a)[x] >= 2
    ensures i < j < |a| && a[i] == a[j] == x
  {
    assert a != [];
    assert a == [a[0]] + a[1..];
    if a[0] == x {
      assert multiset(a) == multiset{x} + multiset(a[1..]);
      assert x in a[1..];
      var k :| 0 <= k < |a[1..]| && a[1..][k] == x;
      i, j := 0, k + 1;
    } else {
      assert multiset(a) == multiset{a[0]} + multiset(a[1..]);
      i, j := OccursTwice(a[1..], x);
      i, j := i + 1, j + 1;
    }
  }

  lemma PermutedBatchIsReadable(s: State, batch: seq<Wire>, shuffled: seq<Wire>)
    requires ReadableBatch(s, batch) && multiset(batch) == multiset(shuffled)
    ensures ReadableBatch(s, shuffled)
  {
    SameMembers(batch, shuffled);
    forall i, j | 0 <= i < j < |shuffled|
      ensures SlotOf(shuffled[i]) != SlotOf(shuffled[j])
    {
      var x, y := shuffled[i], shuffled[j];
      assert x in batch && y in batch;
      if x == y {
        RepeatedElement(shuffled, i, j);
        var p, q := OccursTwice(batch, x);
        assert false;
      }
      var p :| 0 <= p < |batch| && batch[p] == x;
      var q :| 0 <= q < |batch| && batch[q] == y;
      if p < q {
        assert SlotOf(batch[p]) != SlotOf(batch[q]);
      } else {
        assert SlotOf(batch[q]) != SlotOf(batch[p]);
      }
    }
  }

  // ---- why a message is refused --------------------------------------------------------------------

  /** The key is not stashed and the header cannot be reached within the bound, before or after a turn. */
  predicate BeyondBound(s: State, h: Header) {
    && Slot(h.dhPub, h.n) !in s.skipped
    && if s.dhRemote == Some(h.dhPub) then h.n > s.recvCount + MAX_SKIP
       else || (s.receivingChain.Some? && h.pn > s.recvCount + MAX_SKIP)
            || (h.dhPub != LowOrder && h.n > MAX_SKIP)
  }

  /**
   On every state and input: text that does not parse is a framing error; a gap beyond the bound is TooManySkipped;
   a position of the current chain that lies behind and is not stashed is a replay; and each answer means just that.
   */
  lemma RefusalReasons(s: State, w: Wire, newKey: Secret)
    ensures DecryptInner(s, w, newKey) == Failure(Encoding)
            <==> !(w.Framed? && w.header.pn < U32_LIMIT && w.header.n < U32_LIMIT)
    ensures DecryptInner(s, w, newKey) == Failure(TooManySkipped)
            <==> w.Framed? && w.header.pn < U32_LIMIT && w.header.n < U32_LIMIT && BeyondBound(s, w.header)
    ensures DecryptInner(s, w, newKey) == Failure(Replay)
            <==> && w.Framed? && w.header.pn < U32_LIMIT && w.header.n < U32_LIMIT
                 && SlotOf(w) !in s.skipped && s.dhRemote == Some(w.header.dhPub) && w.header.n < s.recvCount
  {
    if w.Framed? && SlotOf(w) !in s.skipped && s.dhRemote != Some(w.header.dhPub) {
      var h := w.header;
      var pub := if s.dhRemote.Some? then s.dhRemote.value else h.dhPub;
      if s.receivingChain.Some? && s.recvCount < h.pn <= s.recvCount + MAX_SKIP {
        SkipToClosedForm(s, pub, h.pn);
      }
    }
  }
}
