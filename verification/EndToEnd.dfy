/**
 A whole poll of a client as steps of the delivery protocol, and the way of an honest first
 message from the sender's call to the recipient's history (clients/upm-windows/src/app.rs).
 */
module EndToEnd {
  import opened Wrappers
  import opened Crypto
  import opened ClientApp
  import opened ClientLaws
  import C = Conversations
  import D = Delivery
  import LS = LocalStore
  import MQ = MessageQueue
  import Snapshot

  type Time = LS.Time
  type DeviceId = LS.DeviceId
  type MessageId = LS.MessageId

  predicate Prepared(ls: seq<Luck>, at: Time) {
    forall l :: l in ls ==> |l.drawn| >= POOL_TARGET && l.now == at
  }

  /** What the delivery protocol sees of each turn of the poll loop. */
  function Outcomes(a: App, items: seq<Item>, ls: seq<Luck>): (out: seq<D.Outcome>)
    requires |items| == |ls| && forall l :: l in ls ==> |l.drawn| >= POOL_TARGET
    ensures |out| == |items|
  {
    if items == [] then []
    else
      var n := |items| - 1;
      Outcomes(a, items[..n], ls[..n]) + [OutcomeOf(ReceiveAll(a, items[..n], ls[..n]).0, items[n], ls[n])]
  }

  lemma {:induction false} OutcomeAt(a: App, items: seq<Item>, ls: seq<Luck>, k: nat)
    requires k < |items| == |ls| && forall l :: l in ls ==> |l.drawn| >= POOL_TARGET
    ensures Outcomes(a, items, ls)[k] == OutcomeOf(ReceiveAll(a, items[..k], ls[..k]).0, items[k], ls[k])
  {
    hide ReceiveAll, OutcomeOf;
    var n := |items| - 1;
    if k < n {
      OutcomeAt(a, items[..n], ls[..n], k);
      assert items[..n][..k] == items[..k] && ls[..n][..k] == ls[..k];
    }
  }

  function Ids(items: seq<Item>): seq<MessageId> {
    seq(|items|, i requires 0 <= i < |items| => items[i].id)
  }

  function Inbox(items: seq<Item>): seq<D.Pulled> {
    seq(|items|, i requires 0 <= i < |items| => D.Pulled(items[i].id, items[i].sender))
  }

  lemma TurnIsHandling(w: D.World, d: DeviceId, o: D.Outcome, at: Time)
    requires d in w.clients && w.clients[d].inbox != []
    ensures D.Possible(w, D.Handle(d, o), at)
    ensures D.Take(w, D.Handle(d, o), at) == w.(clients := w.clients[d := D.HandleItem(w.clients[d], o, at)])
  {
  }

  /** The loop of `poll` is the delivery protocol's turns, one for each item. */
  lemma {:induction false} PollIsDelivery(w: D.World, steps: seq<D.Step>, v: D.World, d: DeviceId, a: App,
                                          items: seq<Item>, ls: seq<Luck>, rest: seq<D.Pulled>, at: Time)
    returns (w': D.World)
    requires |items| == |ls| && Prepared(ls, at)
    requires D.RunFrom(w, steps, at, v) && d in v.clients
    requires v.clients[d] == D.Client(a.store, v.clients[d].confirmed, Inbox(items) + rest, [])
    ensures D.RunFrom(w, steps + D.Handles(d, Outcomes(a, items, ls)), at, w')
    ensures w'.t == v.t && w'.log == v.log && d in w'.clients
    ensures w'.clients[d]
         == D.Client(ReceiveAll(a, items, ls).0.store, v.clients[d].confirmed, rest, ReceiveAll(a, items, ls).1)
  {
    hide D.RunFrom, D.Take, D.Possible, Receive, OutcomeOf, D.HandleItem;
    if items == [] {
      assert steps + D.Handles(d, []) == steps && Inbox([]) + rest == rest;
      w' := v;
    } else {
      var n := |items| - 1;
      var pulled := D.Pulled(items[n].id, items[n].sender);
      assert Inbox(items) + rest == Inbox(items[..n]) + ([pulled] + rest);
      var w1 := PollIsDelivery(w, steps, v, d, a, items[..n], ls[..n], [pulled] + rest, at);
      var (a1, acks) := ReceiveAll(a, items[..n], ls[..n]);
      ReceiveIsDeliveryStep(a1, items[n], ls[n], v.clients[d].confirmed, rest, acks);
      var turn := D.Handle(d, OutcomeOf(a1, items[n], ls[n]));
      var done := steps + D.Handles(d, Outcomes(a, items[..n], ls[..n]));
      TurnIsHandling(w1, d, OutcomeOf(a1, items[n], ls[n]), at);
      D.RunOn(w, done, at, w1, turn);
      w' := D.Take(w1, turn, at);
      assert done + [turn] == steps + D.Handles(d, Outcomes(a, items, ls));
    }
  }

  /** An item is acknowledged exactly if its own turn acknowledged it. */
  lemma {:induction false} AcknowledgedIff(a: App, items: seq<Item>, ls: seq<Luck>, k: nat)
    requires k < |items| == |ls| && forall l :: l in ls ==> |l.drawn| >= POOL_TARGET
    requires forall i, j :: 0 <= i < j < |items| ==> items[i].id != items[j].id
    ensures items[k].id in ReceiveAll(a, items, ls).1
            <==> Receive(ReceiveAll(a, items[..k], ls[..k]).0, items[k], ls[k]).1
  {
    hide Receive;
    var n := |items| - 1;
    AcknowledgedAreItems(a, items[..n], ls[..n]);
    if k < n {
      AcknowledgedIff(a, items[..n], ls[..n], k);
      assert items[..n][..k] == items[..k] && ls[..n][..k] == ls[..k];
    }
  }

  lemma {:induction false} AcknowledgedAreItems(a: App, items: seq<Item>, ls: seq<Luck>)
    requires |items| == |ls| && forall l :: l in ls ==> |l.drawn| >= POOL_TARGET
    ensures forall id :: id in ReceiveAll(a, items, ls).1 ==> exists i :: 0 <= i < |items| && items[i].id == id
  {
    hide Receive;
    if items != [] {
      var n := |items| - 1;
      AcknowledgedAreItems(a, items[..n], ls[..n]);
      forall id | id in ReceiveAll(a, items, ls).1
        ensures exists i :: 0 <= i < |items| && items[i].id == id
      {
        if id in ReceiveAll(a, items[..n], ls[..n]).1 {
          var i :| 0 <= i < n && items[..n][i].id == id;
          assert items[i].id == id;
        }
      }
    }
  }

  /** A run has one end. */
  lemma {:induction false} OneEnd(w: D.World, steps: seq<D.Step>, at: Time, x: D.World, y: D.World)
    requires D.RunFrom(w, steps, at, x) && D.RunFrom(w, steps, at, y)
    ensures x == y
    decreases |steps|
  {
    if steps != [] {
      OneEnd(D.Take(w, steps[0], at), steps[1..], at, x, y);
    }
  }

  /** Reading other items does not put the message into the log of processed ones. */
  lemma {:induction false} OthersLeaveUnprocessed(a: App, items: seq<Item>, ls: seq<Luck>, id: MessageId)
    requires |items| == |ls| && forall l :: l in ls ==> |l.drawn| >= POOL_TARGET
    requires id !in a.store.processed && forall i :: 0 <= i < |items| ==> items[i].id != id
    ensures id !in ReceiveAll(a, items, ls).0.store.processed
  {
    if items != [] {
      var n := |items| - 1;
      OthersLeaveUnprocessed(a, items[..n], ls[..n], id);
      ReceiveMarksItsOwn(ReceiveAll(a, items[..n], ls[..n]).0, items[n], ls[n], id);
    }
  }

  lemma ReceiveMarksItsOwn(a: App, item: Item, l: Luck, id: MessageId)
    requires |l.drawn| >= POOL_TARGET && id !in a.store.processed && item.id != id
    ensures id !in Receive(a, item, l).0.store.processed
  {
  }

  // ---- from the sender's call to the recipient's history ---------------------------------------------------

  /** `items` is what Bob's poll reads: his whole queue, with whatever packets and luck. */
  ghost predicate IsPoll(sent: D.World, bob: App, items: seq<Item>, ls: seq<Luck>, at: Time) {
    && bob.device in sent.clients && sent.clients[bob.device].store == bob.store
    && |items| == |ls| && Prepared(ls, at)
    && D.Possible(sent, D.Pull(bob.device, Ids(items)), at)
    && D.Items(MQ.PullSweep(sent.t, at).envelopes, Ids(items)) == Inbox(items)
  }

  /** Each item's packet is what `decode` makes of the envelope in the queue. */
  ghost predicate AreDecoded(sent: D.World, items: seq<Item>, decode: Bytes -> Option<Packet>) {
    forall i :: 0 <= i < |items| && items[i].id in sent.t.envelopes ==>
      items[i].packet == decode(sent.t.envelopes[items[i].id].ciphertext)
  }

  lemma PolledOnce(sent: D.World, bob: App, items: seq<Item>, ls: seq<Luck>, at: Time)
    requires IsPoll(sent, bob, items, ls, at)
    ensures forall i, j :: 0 <= i < j < |items| ==> items[i].id != items[j].id
  {
    forall i, j | 0 <= i < j < |items|
      ensures items[i].id != items[j].id
    {
      assert Ids(items)[i] != Ids(items)[j];
    }
  }

  lemma PollRun(w: D.World, steps: seq<D.Step>, sent: D.World, alice: DeviceId, id: MessageId, bob: App,
                items: seq<Item>, ls: seq<Luck>, at: Time) returns (w': D.World)
    requires D.RunFrom(w, steps, at, sent) && IsPoll(sent, bob, items, ls, at)
    requires D.Waiting(sent, alice, bob.device, id, at)
    ensures D.RunFrom(w, steps + D.Polling(bob.device, Ids(items), Outcomes(bob, items, ls)), at, w')
    ensures bob.device in w'.clients && w'.clients[bob.device].store == ReceiveAll(bob, items, ls).0.store
    ensures id in w'.t.envelopes <==> id !in ReceiveAll(bob, items, ls).1
  {
    hide D.RunFrom, ReceiveAll, Outcomes;
    var d := bob.device;
    var pull, ack := D.Pull(d, Ids(items)), D.Acknowledge(d);
    D.RunOn(w, steps, at, sent, pull);
    var v := D.Take(sent, pull, at);
    assert Inbox(items) + [] == Inbox(items);
    var w1 := PollIsDelivery(w, steps + [pull], v, d, bob, items, ls, [], at);
    var turns := D.Handles(d, Outcomes(bob, items, ls));
    D.RunOn(w, steps + [pull] + turns, at, w1, ack);
    w' := D.Take(w1, ack, at);
    D.PollingIs(steps, d, Ids(items), Outcomes(bob, items, ls));
  }

  /** The message of the `k`-th item is delivered exactly if its own turn acknowledges it. */
  lemma DeliveredIffAcknowledged(w: D.World, s: D.Step, session: Snapshot.SessionSnapshot, sent: D.World, bob: App,
                                 items: seq<Item>, ls: seq<Luck>, k: nat, at: Time) returns (w': D.World)
    requires s.Compose? && s.to == bob.device && D.Ready(w, s, at)
    requires D.RunFrom(w, D.Sending(s, session), at, sent) && IsPoll(sent, bob, items, ls, at)
    requires k < |items| && items[k].id == s.id && items[k].sender == s.d
    ensures D.RunFrom(w, D.Sending(s, session) + D.Polling(bob.device, Ids(items), Outcomes(bob, items, ls)), at, w')
    ensures bob.device in w'.clients && w'.clients[bob.device].store == ReceiveAll(bob, items, ls).0.store
    ensures !LS.IsProcessed(ReceiveAll(bob, items[..k], ls[..k]).0.store, s.id, s.d)
    ensures D.IsDelivered(w', s.d, bob.device, s.id)
            <==> Receive(ReceiveAll(bob, items[..k], ls[..k]).0, items[k], ls[k]).1
  {
    hide D.RunFrom, D.Ready, D.Inv, D.Possible, D.Take, D.IsDelivered, ReceiveAll, Receive, Outcomes, OutcomeOf, IsPoll;
    PollFacts(sent, bob, items, ls, at);
    PolledOnce(sent, bob, items, ls, at);
    var also := D.UndisturbedDelivery(w, s, session, at);
    OneEnd(w, D.Sending(s, session), at, sent, also);
    w' := PollRun(w, D.Sending(s, session), sent, s.d, s.id, bob, items, ls, at);
    AcknowledgedIff(bob, items, ls, k);
    OthersLeaveUnprocessed(bob, items[..k], ls[..k], s.id);
    var a, outcomes := ReceiveAll(bob, items[..k], ls[..k]).0, Outcomes(bob, items, ls);
    OutcomeAt(bob, items, ls, k);
    ReceiveIsDeliveryStep(a, items[k], ls[k], {}, [], []);
    if Receive(a, items[k], ls[k]).1 {
      assert D.IsAccepted(s.id, Ids(items), outcomes);
      var x :| D.RunFrom(w, D.Sending(s, session) + D.Polling(s.to, Ids(items), outcomes), at, x)
               && D.IsDelivered(x, s.d, s.to, s.id);
      OneEnd(w, D.Sending(s, session) + D.Polling(s.to, Ids(items), outcomes), at, x, w');
    } else {
      StillWaiting(w', s.d, s.to, s.id);
    }
  }

  lemma PollFacts(sent: D.World, bob: App, items: seq<Item>, ls: seq<Luck>, at: Time)
    requires IsPoll(sent, bob, items, ls, at)
    ensures |items| == |ls| && Prepared(ls, at) && bob.device in sent.clients
    ensures sent.clients[bob.device].store == bob.store
    ensures D.Possible(sent, D.Pull(bob.device, Ids(items)), at)
  {
  }

  lemma StillWaiting(w: D.World, d: DeviceId, to: DeviceId, id: MessageId)
    requires id in w.t.envelopes
    ensures !D.IsDelivered(w, d, to, id)
  {
  }

  /** What is in the queue under the message's identifier is what was posted. */
  lemma PolledItem(w: D.World, s: D.Step, session: Snapshot.SessionSnapshot, sent: D.World, bob: App,
                   items: seq<Item>, ls: seq<Luck>, k: nat, decode: Bytes -> Option<Packet>, at: Time)
    requires s.Compose? && s.to == bob.device && D.Ready(w, s, at)
    requires D.RunFrom(w, D.Sending(s, session), at, sent) && IsPoll(sent, bob, items, ls, at)
    requires AreDecoded(sent, items, decode) && k < |items| && items[k].id == s.id
    ensures items[k] == Item(s.id, s.d, decode(s.ciphertext))
  {
    hide D.RunFrom, D.Ready, D.Inv, D.Possible, D.Take, D.IsDelivered;
    var also := D.UndisturbedDelivery(w, s, session, at);
    OneEnd(w, D.Sending(s, session), at, sent, also);
    assert D.Items(MQ.PullSweep(sent.t, at).envelopes, Ids(items))[k] == Inbox(items)[k];
  }

  /**
   From end to end: Alice's first message, composed, accepted by the server and committed, is after
   Bob's next poll in both histories once, off her outbox and off the server, if and only if when its
   turn comes Bob still has the secret of the prekey it names: whatever else is in his queue, in
   whatever order it comes and whatever becomes of it. What she composed is an encoding of the packet
   she made, and Bob decodes what is in the queue.
   */
  lemma FirstMessageArrivesIff(u: C.Setup, alice: App, bob: App, text: Bytes, w: D.World, s: D.Step,
                               session: Snapshot.SessionSnapshot, sent: D.World, items: seq<Item>, ls: seq<Luck>,
                               k: nat, decode: Bytes -> Option<Packet>, at: Time) returns (w': D.World)
    requires s.Compose? && s.d == alice.device && s.to == bob.device && D.Ready(w, s, at)
    requires D.RunFrom(w, D.Sending(s, session), at, sent) && IsPoll(sent, bob, items, ls, at)
    requires k < |items| && C.Honest(u) && Meets(u, alice, ReceiveAll(bob, items[..k], ls[..k]).0)
    requires FirstPacket(u, alice, text).Some? ==> decode(s.ciphertext) == Some(FirstPacket(u, alice, text).value.0)
    requires AreDecoded(sent, items, decode) && items[k].id == s.id
    requires ls[k].newKey !in C.SetupSecrets(u) + {u.firstRatchet} && ls[k].display.Some? && ls[k].commitOk
    ensures FirstPacket(u, alice, text).Some?
    ensures D.RunFrom(w, D.Sending(s, session) + D.Polling(bob.device, Ids(items), Outcomes(bob, items, ls)), at, w')
    ensures bob.device in w'.clients && w'.clients[bob.device].store == ReceiveAll(bob, items, ls).0.store
    ensures D.IsDelivered(w', alice.device, bob.device, s.id)
            <==> PrekeyInPlace(u, ReceiveAll(bob, items[..k], ls[..k]).0)
  {
    hide D.RunFrom, D.Ready, IsPoll, Receive, ReceiveAll, Outcomes, Meets, C.Honest, PrekeyInPlace, FirstPacket;
    PollFacts(sent, bob, items, ls, at);
    var reader := ReceiveAll(bob, items[..k], ls[..k]).0;
    FirstPacketIsSent(u, alice, reader, text);
    PolledItem(w, s, session, sent, bob, items, ls, k, decode, at);
    w' := DeliveredIffAcknowledged(w, s, session, sent, bob, items, ls, k, at);
    FirstMessageIsReadIff(u, alice, reader, text, s.id, ls[k]);
  }
}
