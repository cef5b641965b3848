/**
 Runs of the server: any sequence of operations, by any clients, the administrator and the
 sweep, with a clock that never goes back. What holds in every reachable state.
 */
module ServerRuns {
  import opened Wrappers
  import opened ServerTables
  import Accounts
  import Attachments
  import Auth
  import MessageQueue
  import Prekeys

  datatype Op =
    | Register(username: string, key: IdentityKey, ids: Accounts.NewIds)
    | AdminDelete(user: UserId)
    | Publish(device: DeviceId, entries: seq<Prekeys.Entry>)
    | Claim(device: DeviceId, choice: Option<PrekeyId>)
    | Send(device: DeviceId, request: MessageQueue.SendRequest)
    | Pull(device: DeviceId)
    | Ack(device: DeviceId, messages: seq<MessageId>)
    | Create(device: DeviceId, size: int, attachment: AttachmentId, storageKey: StorageKey)
    | MarkUploaded(device: DeviceId, attachment: AttachmentId)
    | DeleteAttachment(device: DeviceId, attachment: AttachmentId)
    | Reap
    | IssueChallenge(device: DeviceId, nonce: Nonce)
    | Verify(device: DeviceId, signature: SignatureText, token: Token)
    | Authenticate(bearer: Text<Token>)
    | Revoke(bearer: Text<Token>)

  datatype Event = Event(at: Time, op: Op)

  function Apply(t: Tables, e: Event): Tables {
    match e.op
    case Register(name, key, ids) => Accounts.Register(t, name, key, ids, e.at).0
    case AdminDelete(u) => Accounts.AdminDelete(t, u)
    case Publish(d, entries) => Prekeys.Publish(t, d, entries, e.at).0
    case Claim(d, choice) => Prekeys.Claim(t, choice, e.at)
    case Send(d, r) => MessageQueue.Send(t, d, r, e.at).0
    case Pull(d) => MessageQueue.PullSweep(t, e.at)
    case Ack(d, ids) => MessageQueue.Ack(t, d, ids).0
    case Create(d, size, id, key) => Attachments.HandleCreate(t, d, size, id, key, e.at).0
    case MarkUploaded(d, id) => Attachments.MarkUploaded(t, id, d, e.at).0
    case DeleteAttachment(d, id) => Attachments.Delete(t, d, id).0
    case Reap => Attachments.Reap(t, e.at).0
    case IssueChallenge(d, nonce) => Auth.IssueChallenge(t, d, nonce, e.at).0
    case Verify(d, s, token) => Auth.Verify(t, d, s, token, e.at).0
    case Authenticate(token) => Auth.Authenticate(t, token, e.at).0
    case Revoke(token) => Auth.Revoke(t, token).0
  }

  /** A claim answers with one of the rows it may answer with; an account is deleted through a name it has. */
  ghost predicate Enabled(t: Tables, op: Op) {
    match op
    case Claim(d, choice) => Prekeys.MayClaim(t.prekeys, d, choice)
    case AdminDelete(u) => u in t.users
    case _ => true
  }

  type Run = seq<Event>

  /** The tables after a run. */
  function At(run: Run): Tables
    decreases |run|
  {
    if run == [] then EMPTY else Apply(At(run[..|run| - 1]), run[|run| - 1])
  }

  function Clock(run: Run): Time {
    if run == [] then 0 else run[|run| - 1].at
  }

  ghost predicate Admissible(run: Run)
    decreases |run|
  {
    run == [] ||
    var before := run[..|run| - 1];
    var e := run[|run| - 1];
    Admissible(before) && Clock(before) <= e.at && Enabled(At(before), e.op)
  }

  lemma {:induction false} AdmissiblePrefix(run: Run, n: nat)
    requires Admissible(run) && n <= |run|
    ensures Admissible(run[..n])
    ensures forall i :: n <= i < |run| ==> Clock(run[..n]) <= run[i].at
    decreases |run|
  {
    hide At, Apply, Enabled;
    if n == |run| {
      assert run[..n] == run;
    } else {
      var before := run[..|run| - 1];
      AdmissiblePrefix(before, n);
      assert before[..n] == run[..n];
      assert forall i :: n <= i < |before| ==> before[i] == run[i];
      if n < |before| {
        assert before[|before| - 1].at >= Clock(run[..n]);
      }
    }
  }

  /** The state right after step `i`. */
  lemma AtStep(run: Run, i: nat)
    requires i < |run|
    ensures At(run[..i + 1]) == Apply(At(run[..i]), run[i])
  {
    assert run[..i + 1][..i] == run[..i];
  }

  // ---- what each operation can touch ---------------------------------------------------

  predicate TouchesAccounts(op: Op) { op.Register? || op.AdminDelete? }
  predicate TouchesPrekeys(op: Op) { op.Publish? || op.Claim? || op.AdminDelete? }
  predicate TouchesQueue(op: Op) { op.Send? || op.Pull? || op.Ack? || op.Reap? || op.AdminDelete? }
  predicate TouchesAttachments(op: Op) {
    op.Create? || op.MarkUploaded? || op.DeleteAttachment? || op.Reap? || op.AdminDelete?
  }
  predicate TouchesChallenges(op: Op) { op.IssueChallenge? || op.Verify? || op.Reap? || op.AdminDelete? }
  predicate TouchesSessions(op: Op) { op.Verify? || op.Authenticate? || op.Revoke? || op.Reap? || op.AdminDelete? }

  lemma MailFrame(t: Tables, e: Event)
    requires e.op.Send? || e.op.Pull? || e.op.Ack?
    ensures Apply(t, e) == t.(envelopes := Apply(t, e).envelopes)
  {
  }

  lemma PrekeyFrame(t: Tables, e: Event)
    requires e.op.Publish? || e.op.Claim?
    ensures Apply(t, e) == t.(prekeys := Apply(t, e).prekeys)
  {
  }

  lemma AttachmentFrame(t: Tables, e: Event)
    requires e.op.Create? || e.op.MarkUploaded? || e.op.DeleteAttachment?
    ensures Apply(t, e) == t.(attachments := Apply(t, e).attachments)
  {
  }

  lemma AuthFrame(t: Tables, e: Event)
    requires e.op.IssueChallenge? || e.op.Verify? || e.op.Authenticate? || e.op.Revoke?
    ensures Apply(t, e) == t.(challenges := Apply(t, e).challenges, sessions := Apply(t, e).sessions)
    ensures e.op.IssueChallenge? ==> Apply(t, e).sessions == t.sessions
    ensures e.op.Authenticate? || e.op.Revoke? ==> Apply(t, e).challenges == t.challenges
  {
  }

  lemma RegisterFrame(t: Tables, e: Event)
    requires e.op.Register?
    ensures Apply(t, e) == t.(users := Apply(t, e).users, devices := Apply(t, e).devices)
  {
  }

  lemma ReapFrame(t: Tables, e: Event)
    requires e.op.Reap?
    ensures Apply(t, e).users == t.users && Apply(t, e).devices == t.devices && Apply(t, e).prekeys == t.prekeys
  {
  }

  lemma Frame(t: Tables, e: Event)
    ensures !TouchesAccounts(e.op) ==> Apply(t, e).users == t.users && Apply(t, e).devices == t.devices
    ensures !TouchesPrekeys(e.op) ==> Apply(t, e).prekeys == t.prekeys
    ensures !TouchesQueue(e.op) ==> Apply(t, e).envelopes == t.envelopes
    ensures !TouchesAttachments(e.op) ==> Apply(t, e).attachments == t.attachments
    ensures !TouchesChallenges(e.op) ==> Apply(t, e).challenges == t.challenges
    ensures !TouchesSessions(e.op) ==> Apply(t, e).sessions == t.sessions
  {
    hide Apply;
    if e.op.Send? || e.op.Pull? || e.op.Ack? {
      MailFrame(t, e);
    } else if e.op.Publish? || e.op.Claim? {
      PrekeyFrame(t, e);
    } else if e.op.Create? || e.op.MarkUploaded? || e.op.DeleteAttachment? {
      AttachmentFrame(t, e);
    } else if e.op.Register? {
      RegisterFrame(t, e);
    } else if e.op.Reap? {
      ReapFrame(t, e);
    } else if !e.op.AdminDelete? {
      AuthFrame(t, e);
    }
  }

  // ---- integrity ------------------------------------------------------------------------

  lemma {:induction false} PublishedRowsKnowDevice(rows: Prekeys.Rows, d: DeviceId, entries: seq<Prekeys.Entry>,
                                                   now: Time, devices: set<DeviceId>)
    requires d in devices && forall p :: p in rows ==> rows[p].device in devices
    ensures forall p :: p in Prekeys.InsertAll(rows, d, entries, now) ==>
              Prekeys.InsertAll(rows, d, entries, now)[p].device in devices
    decreases |entries|
  {
    if entries != [] {
      var e := entries[0];
      PublishedRowsKnowDevice(if e.id in rows then rows
                              else rows[e.id := Prekey(d, e.publicKey, e.signature, now, None)],
                              d, entries[1..], now, devices);
    }
  }

  lemma AuthKeepsIntegrity(t: Tables, e: Event)
    requires Integrity(t) && (e.op.IssueChallenge? || e.op.Verify? || e.op.Authenticate? || e.op.Revoke?)
    ensures Integrity(Apply(t, e))
  {
    hide UniqueNames;
    AuthFrame(t, e);
  }

  lemma MailKeepsIntegrity(t: Tables, e: Event)
    requires Integrity(t) && (e.op.Send? || e.op.Pull? || e.op.Ack?)
    ensures Integrity(Apply(t, e))
  {
    hide UniqueNames;
    MailFrame(t, e);
  }

  lemma PrekeysKeepIntegrity(t: Tables, e: Event)
    requires Integrity(t) && Enabled(t, e.op) && (e.op.Publish? || e.op.Claim?)
    ensures Integrity(Apply(t, e))
  {
    hide UniqueNames;
    PrekeyFrame(t, e);
    if e.op.Publish? && e.op.device in t.devices {
      PublishedRowsKnowDevice(t.prekeys, e.op.device, e.op.entries, e.at, t.devices.Keys);
    }
  }

  lemma AttachmentsKeepIntegrity(t: Tables, e: Event)
    requires Integrity(t) && (e.op.Create? || e.op.MarkUploaded? || e.op.DeleteAttachment?)
    ensures Integrity(Apply(t, e))
  {
    hide UniqueNames;
    AttachmentFrame(t, e);
    if e.op.DeleteAttachment? {
      SelectMembers(t.attachments, Not(IsRow(e.op.attachment, e.op.device)));
    } else if e.op.MarkUploaded? {
      Attachments.MarkedRow(t.attachments, e.op.attachment, e.op.device, e.at);
    }
  }

  lemma ReapKeepsIntegrity(t: Tables, e: Event)
    requires Integrity(t) && e.op.Reap?
    ensures Integrity(Apply(t, e))
  {
    hide UniqueNames;
    ReapFrame(t, e);
    SelectMembers(t.attachments, LiveAt(e.at));
  }

  lemma StepKeepsIntegrity(t: Tables, e: Event)
    requires Integrity(t) && Enabled(t, e.op)
    ensures Integrity(Apply(t, e))
  {
    hide Integrity;
    match e.op
    case Register(name, key, ids) => Accounts.RegisterKeepsIntegrity(t, name, key, ids, e.at);
    case AdminDelete(u) => Accounts.DeleteKeepsIntegrity(t, u);
    case Publish(_, _) => PrekeysKeepIntegrity(t, e);
    case Claim(_, _) => PrekeysKeepIntegrity(t, e);
    case Send(_, _) => MailKeepsIntegrity(t, e);
    case Pull(_) => MailKeepsIntegrity(t, e);
    case Ack(_, _) => MailKeepsIntegrity(t, e);
    case Create(_, _, _, _) => AttachmentsKeepIntegrity(t, e);
    case MarkUploaded(_, _) => AttachmentsKeepIntegrity(t, e);
    case DeleteAttachment(_, _) => AttachmentsKeepIntegrity(t, e);
    case Reap => ReapKeepsIntegrity(t, e);
    case _ => AuthKeepsIntegrity(t, e);
  }

  /** User names stay unique in every spelling, and no row ever points to a device or user that is gone. */
  lemma {:induction false} IntegrityAlways(run: Run)
    requires Admissible(run)
    ensures Integrity(At(run))
    decreases |run|
  {
    if run != [] {
      IntegrityAlways(run[..|run| - 1]);
      StepKeepsIntegrity(At(run[..|run| - 1]), run[|run| - 1]);
    }
  }

  // ---- queue ----------------------------------------------------------------------------

  lemma StepKeepsQueueBounds(t: Tables, e: Event)
    requires MessageQueue.Bounded(t.envelopes) && MessageQueue.Retained(t.envelopes)
    ensures MessageQueue.Bounded(Apply(t, e).envelopes) && MessageQueue.Retained(Apply(t, e).envelopes)
  {
    match e.op
    case Send(d, r) => MessageQueue.SendKeepsBounds(t, d, r, e.at);
    case _ =>
      var gone := Dropped(t, e);
      Departures(t, e);
      MessageQueue.RemovalKeepsBounds(t.envelopes, gone);
  }

  /** The envelopes a step removes, for whatever reason. */
  function Dropped(t: Tables, e: Event): set<MessageId> {
    match e.op
    case AdminDelete(u) =>
      var ds := Accounts.DevicesOf(t, u);
      set m | m in t.envelopes && (t.envelopes[m].sender in ds || t.envelopes[m].recipient in ds)
    case Pull(d) => MessageQueue.Expired(t.envelopes, e.at)
    case Reap => set m | m in t.envelopes && t.envelopes[m].expiresAt <= e.at
    case Ack(d, ids) => MessageQueue.Acknowledged(t.envelopes, d, ids)
    case _ => {}
  }

  lemma Departures(t: Tables, e: Event)
    requires !e.op.Send?
    ensures Dropped(t, e) <= t.envelopes.Keys
    ensures Apply(t, e).envelopes == t.envelopes - Dropped(t, e)
  {
    if TouchesQueue(e.op) {
      Departed(t, e);
    } else {
      hide Apply;
      Frame(t, e);
    }
  }

  lemma Departed(t: Tables, e: Event)
    requires e.op.Pull? || e.op.Ack? || e.op.Reap? || e.op.AdminDelete?
    ensures Apply(t, e).envelopes == t.envelopes - Dropped(t, e)
  {
  }

  lemma {:induction false} QueueAlwaysBounded(run: Run)
    requires Admissible(run)
    ensures MessageQueue.Bounded(At(run).envelopes) && MessageQueue.Retained(At(run).envelopes)
    decreases |run|
  {
    if run != [] {
      QueueAlwaysBounded(run[..|run| - 1]);
      StepKeepsQueueBounds(At(run[..|run| - 1]), run[|run| - 1]);
    }
  }

  /** How many envelopes a run accepted, and what became of those no longer queued. */
  datatype Ledger = Ledger(accepted: nat, acked: nat, expired: nat, removed: nat)

  function Entry(t: Tables, e: Event, l: Ledger): Ledger {
    match e.op
    case Send(d, r) =>
      if MessageQueue.Send(t, d, r, e.at).1.Success? && r.id !in t.envelopes then l.(accepted := l.accepted + 1) else l
    case Ack(d, ids) => l.(acked := l.acked + MessageQueue.Ack(t, d, ids).1)
    case Pull(_) => l.(expired := l.expired + |Dropped(t, e)|)
    case Reap => l.(expired := l.expired + |Dropped(t, e)|)
    case AdminDelete(_) => l.(removed := l.removed + |Dropped(t, e)|)
    case _ => l
  }

  function Books(run: Run): Ledger
    decreases |run|
  {
    if run == [] then Ledger(0, 0, 0, 0)
    else Entry(At(run[..|run| - 1]), run[|run| - 1], Books(run[..|run| - 1]))
  }

  ghost predicate Balanced(l: Ledger, q: MessageQueue.Queue) {
    l.accepted == |q| + l.acked + l.expired + l.removed
  }

  lemma StepBalances(t: Tables, e: Event, l: Ledger)
    requires Balanced(l, t.envelopes)
    ensures Balanced(Entry(t, e, l), Apply(t, e).envelopes)
  {
    if e.op.Send? {
      AcceptedEnvelope(t, e);
    } else {
      hide Apply;
      Departures(t, e);
      MessageQueue.SizeWithout(t.envelopes, Dropped(t, e));
    }
  }

  lemma AcceptedEnvelope(t: Tables, e: Event)
    requires e.op.Send?
    ensures |Apply(t, e).envelopes| == |t.envelopes|
              + if MessageQueue.Send(t, e.op.device, e.op.request, e.at).1.Success? && e.op.request.id !in t.envelopes
                then 1 else 0
  {
  }

  /** No accepted envelope disappears: it is queued, or was acknowledged, or expired, or an account was deleted. */
  lemma {:induction false} EveryEnvelopeIsAccountedFor(run: Run)
    ensures Balanced(Books(run), At(run).envelopes)
    decreases |run|
  {
    if run != [] {
      EveryEnvelopeIsAccountedFor(run[..|run| - 1]);
      StepBalances(At(run[..|run| - 1]), run[|run| - 1], Books(run[..|run| - 1]));
    }
  }

  /** An unexpired envelope stays as it is until its recipient acknowledges it or an account goes. */
  lemma LiveMailStays(t: Tables, e: Event, m: MessageId)
    requires m in t.envelopes && e.at < t.envelopes[m].expiresAt
    requires e.op.Ack? ==> e.op.device != t.envelopes[m].recipient || m !in e.op.messages
    requires e.op.AdminDelete? ==>
               && t.envelopes[m].sender !in Accounts.DevicesOf(t, e.op.user)
               && t.envelopes[m].recipient !in Accounts.DevicesOf(t, e.op.user)
    ensures m in Apply(t, e).envelopes && Apply(t, e).envelopes[m] == t.envelopes[m]
  {
    if e.op.Send? {
      SendKeepsOthers(t, e, m);
    } else {
      hide Apply;
      Departures(t, e);
    }
  }

  lemma SendKeepsOthers(t: Tables, e: Event, m: MessageId)
    requires e.op.Send? && m in t.envelopes
    ensures m in Apply(t, e).envelopes && Apply(t, e).envelopes[m] == t.envelopes[m]
  {
  }

  // ---- attachment quota --------------------------------------------------------------------

  lemma StepKeepsQuota(t: Tables, e: Event, now: Time)
    requires Attachments.Positive(t.attachments) && Attachments.WithinQuota(t.attachments, now) && now <= e.at
    ensures Attachments.Positive(Apply(t, e).attachments) && Attachments.WithinQuota(Apply(t, e).attachments, e.at)
  {
    assert Attachments.WithinQuota(t.attachments, e.at);
    if TouchesAttachments(e.op) {
      AttachmentStepKeepsQuota(t, e);
    } else {
      hide Apply;
      Frame(t, e);
    }
  }

  lemma AttachmentStepKeepsQuota(t: Tables, e: Event)
    requires Attachments.Positive(t.attachments) && Attachments.WithinQuota(t.attachments, e.at)
    requires TouchesAttachments(e.op)
    ensures Attachments.Positive(Apply(t, e).attachments) && Attachments.WithinQuota(Apply(t, e).attachments, e.at)
  {
    hide Attachments.Positive, Attachments.WithinQuota;
    match e.op
    case AdminDelete(u) => Attachments.SelectionKeepsQuota(t.attachments, Not(OwnerIn(Accounts.DevicesOf(t, u))), e.at);
    case Create(d, size, id, key) => Attachments.CreateKeepsQuota(t, d, size, id, key, e.at);
    case MarkUploaded(d, id) => Attachments.MarkingKeepsQuota(t.attachments, id, d, e.at);
    case DeleteAttachment(d, id) => Attachments.SelectionKeepsQuota(t.attachments, Not(IsRow(id, d)), e.at);
    case Reap => Attachments.SelectionKeepsQuota(t.attachments, LiveAt(e.at), e.at);
  }

  /** No device ever holds more unexpired bytes than its quota, at the last event or later. */
  lemma {:induction false} QuotaAlways(run: Run)
    requires Admissible(run)
    ensures Attachments.Positive(At(run).attachments)
    ensures Attachments.WithinQuota(At(run).attachments, Clock(run))
    decreases |run|
  {
    if run == [] {
      Attachments.QuotaAtOneTime([], 0);
    } else {
      QuotaAlways(run[..|run| - 1]);
      StepKeepsQuota(At(run[..|run| - 1]), run[|run| - 1], Clock(run[..|run| - 1]));
    }
  }

  // ---- one-time prekeys ------------------------------------------------------------------------

  /** Step `k` deletes the account that device `d` belongs to. */
  ghost predicate DeletesDevice(run: Run, k: nat, d: DeviceId)
    requires k < |run|
  {
    run[k].op.AdminDelete? && d in Accounts.DevicesOf(At(run[..k]), run[k].op.user)
  }

  predicate IsClaimed(t: Tables, p: PrekeyId, d: DeviceId) {
    p in t.prekeys && t.prekeys[p].device == d && t.prekeys[p].claimedAt.Some?
  }

  lemma ClaimedStaysClaimed(t: Tables, e: Event, p: PrekeyId, d: DeviceId)
    requires IsClaimed(t, p, d) && Enabled(t, e.op)
    requires !(e.op.AdminDelete? && d in Accounts.DevicesOf(t, e.op.user))
    ensures IsClaimed(Apply(t, e), p, d)
  {
    if TouchesPrekeys(e.op) {
      ClaimedInTable(t, e, p, d);
    } else {
      hide Apply;
      Frame(t, e);
    }
  }

  lemma ClaimedInTable(t: Tables, e: Event, p: PrekeyId, d: DeviceId)
    requires IsClaimed(t, p, d) && TouchesPrekeys(e.op)
    requires !(e.op.AdminDelete? && d in Accounts.DevicesOf(t, e.op.user))
    ensures IsClaimed(Apply(t, e), p, d)
  {
    if e.op.Publish? && e.op.device in t.devices {
      Prekeys.PublishedRow(t.prekeys, e.op.device, e.op.entries, e.at, p);
    }
  }

  lemma ClaimMarks(t: Tables, e: Event, p: PrekeyId, d: DeviceId)
    requires e.op == Claim(d, Some(p)) && Enabled(t, e.op)
    ensures IsClaimed(Apply(t, e), p, d)
  {
  }

  lemma {:induction false} ClaimLasts(run: Run, i: nat, n: nat, p: PrekeyId, d: DeviceId)
    requires Admissible(run) && i < n <= |run|
    requires run[i].op == Claim(d, Some(p))
    requires forall k :: i < k < n ==> !DeletesDevice(run, k, d)
    ensures IsClaimed(At(run[..n]), p, d)
    decreases n
  {
    hide Apply, IsClaimed, Prekeys.MayClaim;
    AdmissiblePrefix(run, n);
    AtStep(run, n - 1);
    assert run[..n][..n - 1] == run[..n - 1];
    if i + 1 < n {
      ClaimLasts(run, i, n - 1, p, d);
      assert !DeletesDevice(run, n - 1, d);
      ClaimedStaysClaimed(At(run[..n - 1]), run[n - 1], p, d);
    } else {
      ClaimMarks(At(run[..i]), run[i], p, d);
    }
  }

  /**
   No prekey is handed out twice, however often the device republishes its pool: between two
   claims of one prekey the account it was published for has been deleted.
   */
  lemma PrekeyHandedOutOnce(run: Run, i: nat, j: nat, p: PrekeyId)
    requires Admissible(run) && i < j < |run|
    requires run[i].op.Claim? && run[j].op.Claim? && run[i].op.choice == run[j].op.choice == Some(p)
    ensures exists k :: i < k < j && DeletesDevice(run, k, run[i].op.device)
  {
    hide Apply, At;
    var d := run[i].op.device;
    AdmissiblePrefix(run, j + 1);
    assert run[..j + 1][..j] == run[..j];
    if forall k :: i < k < j ==> !DeletesDevice(run, k, d) {
      ClaimLasts(run, i, j, p, d);
      assert false;
    }
  }

  // ---- sessions -----------------------------------------------------------------------------------

  /** Step `v` granted the session `h`, and nobody has revoked it or deleted its account since. */
  ghost predicate Granted(run: Run, h: TokenHash, v: nat) {
    && v < |run|
    && run[v].op.Verify? && Digest(run[v].op.token) == h
    && Auth.Verify(At(run[..v]), run[v].op.device, run[v].op.signature, run[v].op.token, run[v].at).1.Success?
    && forall k :: v < k < |run| ==>
         run[k].op != Revoke(Encoded(h.token)) && !DeletesDevice(run, k, run[v].op.device)
  }

  /** Step `c` challenged the device `d`, and the challenge is the last one and still open. */
  ghost predicate Challenged(run: Run, d: DeviceId, c: nat) {
    && c < |run|
    && run[c].op.IssueChallenge? && run[c].op.device == d && d in At(run[..c]).devices
    && forall k :: c < k < |run| ==> !((run[k].op.IssueChallenge? || run[k].op.Verify?) && run[k].op.device == d)
  }

  lemma ChallengeStep(t: Tables, e: Event, d: DeviceId)
    requires d in Apply(t, e).challenges
    ensures if e.op.IssueChallenge? && e.op.device == d && d in t.devices then
              Apply(t, e).challenges[d] == Challenge(e.op.nonce, e.at + Auth.CHALLENGE_TTL_SECONDS)
            else
              !(e.op.Verify? && e.op.device == d) && d in t.challenges && Apply(t, e).challenges[d] == t.challenges[d]
  {
    if TouchesChallenges(e.op) {
      ChallengeTouched(t, e, d);
    } else {
      hide Apply;
      Frame(t, e);
    }
  }

  lemma ChallengeTouched(t: Tables, e: Event, d: DeviceId)
    requires d in Apply(t, e).challenges && TouchesChallenges(e.op)
    ensures if e.op.IssueChallenge? && e.op.device == d && d in t.devices then
              Apply(t, e).challenges[d] == Challenge(e.op.nonce, e.at + Auth.CHALLENGE_TTL_SECONDS)
            else
              !(e.op.Verify? && e.op.device == d) && d in t.challenges && Apply(t, e).challenges[d] == t.challenges[d]
  {
  }

  lemma DeviceOfChallenge(t: Tables, d: DeviceId)
    requires Integrity(t)
    ensures d in t.challenges ==> d in t.devices
  {
  }

  /** Every stored challenge was issued to its device, by the last step that touched it. */
  lemma {:induction false} OpenChallenge(run: Run, d: DeviceId) returns (c: nat)
    requires Admissible(run) && d in At(run).challenges
    ensures Challenged(run, d, c)
    ensures At(run).challenges[d] == Challenge(run[c].op.nonce, run[c].at + Auth.CHALLENGE_TTL_SECONDS)
    decreases |run|
  {
    hide Apply, Enabled, References, UniqueNames;
    var n := |run| - 1;
    IntegrityAlways(run[..n]);
    ChallengeStep(At(run[..n]), run[n], d);
    if run[n].op.IssueChallenge? && run[n].op.device == d {
      DeviceOfChallenge(At(run[..n]), d);
      c := n;
    } else {
      c := OpenChallenge(run[..n], d);
      assert run[..n][..c] == run[..c];
      assert forall k :: 0 <= k < n ==> run[..n][k] == run[k];
    }
  }

  lemma SessionStep(t: Tables, e: Event, h: TokenHash)
    requires h in Apply(t, e).sessions
    ensures h !in t.sessions ==>
              && e.op.Verify? && Digest(e.op.token) == h
              && Auth.Verify(t, e.op.device, e.op.signature, e.op.token, e.at).1.Success?
              && Apply(t, e).sessions[h] == Login(e.op.device, e.at, e.at + Auth.SESSION_TTL_SECONDS)
    ensures h in t.sessions ==>
              && Apply(t, e).sessions[h] == t.sessions[h]
              && e.op != Revoke(Encoded(h.token))
              && !(e.op.AdminDelete? && t.sessions[h].device in Accounts.DevicesOf(t, e.op.user))
  {
    if TouchesSessions(e.op) {
      SessionTouched(t, e, h);
    } else {
      hide Apply;
      Frame(t, e);
    }
  }

  lemma SessionTouched(t: Tables, e: Event, h: TokenHash)
    requires h in Apply(t, e).sessions && TouchesSessions(e.op)
    ensures h !in t.sessions ==>
              && e.op.Verify? && Digest(e.op.token) == h
              && Auth.Verify(t, e.op.device, e.op.signature, e.op.token, e.at).1.Success?
              && Apply(t, e).sessions[h] == Login(e.op.device, e.at, e.at + Auth.SESSION_TTL_SECONDS)
    ensures h in t.sessions ==>
              && Apply(t, e).sessions[h] == t.sessions[h]
              && e.op != Revoke(Encoded(h.token))
              && !(e.op.AdminDelete? && t.sessions[h].device in Accounts.DevicesOf(t, e.op.user))
  {
    hide Apply;
    if e.op.Verify? {
      SessionVerified(t, e, h);
    } else {
      SessionKept(t, e, h);
    }
  }

  lemma SessionVerified(t: Tables, e: Event, h: TokenHash)
    requires h in Apply(t, e).sessions && e.op.Verify?
    ensures if h in t.sessions then Apply(t, e).sessions[h] == t.sessions[h]
            else
              && Digest(e.op.token) == h
              && Auth.Verify(t, e.op.device, e.op.signature, e.op.token, e.at).1.Success?
              && Apply(t, e).sessions[h] == Login(e.op.device, e.at, e.at + Auth.SESSION_TTL_SECONDS)
  {
  }

  lemma SessionKept(t: Tables, e: Event, h: TokenHash)
    requires h in Apply(t, e).sessions
    requires e.op.Authenticate? || e.op.Revoke? || e.op.Reap? || e.op.AdminDelete?
    ensures h in t.sessions && Apply(t, e).sessions[h] == t.sessions[h]
    ensures e.op != Revoke(Encoded(h.token))
    ensures !(e.op.AdminDelete? && t.sessions[h].device in Accounts.DevicesOf(t, e.op.user))
  {
  }

  lemma {:induction false} SessionGrant(run: Run, h: TokenHash) returns (v: nat)
    requires h in At(run).sessions
    ensures Granted(run, h, v)
    ensures At(run).sessions[h] == Login(run[v].op.device, run[v].at, run[v].at + Auth.SESSION_TTL_SECONDS)
    decreases |run|
  {
    hide Apply;
    var n := |run| - 1;
    var before := run[..n];
    SessionStep(At(before), run[n], h);
    if h !in At(before).sessions {
      v := n;
    } else {
      v := SessionGrant(before, h);
      assert before[..v] == run[..v];
      forall k | v < k < |run|
        ensures run[k].op != Revoke(Encoded(h.token)) && !DeletesDevice(run, k, run[v].op.device)
      {
        if k < n {
          assert before[k] == run[k] && before[..k] == run[..k];
          assert !DeletesDevice(before, k, run[v].op.device);
        }
      }
    }
  }

  /**
   A token that authenticates as a device was granted, at most thirty days ago, to a signature
   by the key registered for that device over a challenge issued to it at most two minutes
   before; and it has not been revoked since.
   */
  lemma AuthenticatedProvenance(run: Run, token: Text<Token>, now: Time) returns (c: nat, v: nat)
    requires Admissible(run) && Auth.Authenticate(At(run), token, now).1.Success?
    ensures c < v && token.Encoded? && Granted(run, Digest(token.value), v)
    ensures var d := run[v].op.device;
            && Auth.Authenticate(At(run), token, now).1 == Success(d)
            && Challenged(run[..v], d, c)
            && d in At(run[..v]).devices && At(run[..v]).devices[d].identityKey.Encoded?
            && run[v].op.signature
               == Encoded(Auth.Crypto.Signature(At(run[..v]).devices[d].identityKey.value, run[c].op.nonce))
    ensures run[c].at <= run[v].at <= run[c].at + Auth.CHALLENGE_TTL_SECONDS
    ensures now <= run[v].at + Auth.SESSION_TTL_SECONDS
  {
    v := SessionGrant(run, Digest(token.value));
    AdmissiblePrefix(run, v);
    c := OpenChallenge(run[..v], run[v].op.device);
    AdmissiblePrefix(run, c + 1);
    assert run[..c + 1][c] == run[c] && run[..v][c] == run[c];
  }

  /** Two sessions never come from one challenge. */
  lemma DistinctSessionsDistinctChallenges(run: Run, h1: TokenHash, c1: nat, v1: nat, h2: TokenHash, c2: nat, v2: nat)
    requires Granted(run, h1, v1) && Granted(run, h2, v2) && h1 != h2
    requires Challenged(run[..v1], run[v1].op.device, c1) && Challenged(run[..v2], run[v2].op.device, c2)
    ensures c1 != c2
  {
    hide At, DeletesDevice, Auth.Verify;
    assert run[..v1][c1] == run[c1] && run[..v2][c2] == run[c2];
    if v1 < v2 {
      assert run[..v2][v1] == run[v1];
    } else if v2 < v1 {
      assert run[..v1][v2] == run[v2];
    }
  }

  lemma KeptSession(t: Tables, e: Event, h: TokenHash)
    requires h in t.sessions && e.at < t.sessions[h].expiresAt
    requires e.op != Revoke(Encoded(h.token))
    requires !(e.op.AdminDelete? && t.sessions[h].device in Accounts.DevicesOf(t, e.op.user))
    ensures h in Apply(t, e).sessions && Apply(t, e).sessions[h] == t.sessions[h]
  {
  }

  lemma {:induction false} SessionLasts(run: Run, h: TokenHash, v: nat)
    requires Admissible(run) && Granted(run, h, v)
    requires Clock(run) < run[v].at + Auth.SESSION_TTL_SECONDS
    ensures HasSession(run, h, v)
    decreases |run|
  {
    hide *;
    GrantIsInRun(run, h, v);
    if v == |run| - 1 {
      GrantOpensSession(run, h, v);
    } else {
      EarlierGrant(run, h, v);
      SessionLasts(run[..|run| - 1], h, v);
      SessionStays(run, h, v);
    }
  }

  /** The session that step `v` opened is there, as it was opened. */
  predicate HasSession(run: Run, h: TokenHash, v: nat)
    requires v < |run| && run[v].op.Verify?
  {
    h in At(run).sessions
    && At(run).sessions[h] == Login(run[v].op.device, run[v].at, run[v].at + Auth.SESSION_TTL_SECONDS)
  }

  lemma GrantIsInRun(run: Run, h: TokenHash, v: nat)
    requires Granted(run, h, v)
    ensures v < |run| && run[v].op.Verify?
  {
  }

  lemma GrantOpensSession(run: Run, h: TokenHash, v: nat)
    requires Granted(run, h, v) && v == |run| - 1
    ensures HasSession(run, h, v)
  {
    hide DeletesDevice;
  }

  lemma EarlierGrant(run: Run, h: TokenHash, v: nat)
    requires Admissible(run) && Granted(run, h, v) && v < |run| - 1
    requires Clock(run) < run[v].at + Auth.SESSION_TTL_SECONDS
    ensures var before := run[..|run| - 1];
            && Admissible(before) && Granted(before, h, v) && before[v] == run[v]
            && Clock(before) < run[v].at + Auth.SESSION_TTL_SECONDS
  {
    hide Apply, Auth.Verify, At, Enabled;
    var n := |run| - 1;
    var before := run[..n];
    assert before[..v] == run[..v];
    forall k | v < k < n
      ensures before[k] == run[k] && !DeletesDevice(before, k, run[v].op.device)
    {
      assert before[..k] == run[..k];
      assert !DeletesDevice(run, k, run[v].op.device);
    }
  }

  lemma SessionStays(run: Run, h: TokenHash, v: nat)
    requires Granted(run, h, v) && v < |run| - 1 && Clock(run) < run[v].at + Auth.SESSION_TTL_SECONDS
    requires run[..|run| - 1][v] == run[v] && HasSession(run[..|run| - 1], h, v)
    ensures HasSession(run, h, v)
  {
    hide Apply, Auth.Verify;
    assert !DeletesDevice(run, |run| - 1, run[v].op.device);
    KeptSession(At(run[..|run| - 1]), run[|run| - 1], h);
  }

  /** Before its thirty days are over a token authenticates exactly if it was granted and not taken back. */
  lemma AuthenticatesExactlyWhenGranted(run: Run, token: Token, now: Time)
    requires Admissible(run) && Clock(run) <= now
    requires forall v: nat :: Granted(run, Digest(token), v) ==> now < run[v].at + Auth.SESSION_TTL_SECONDS
    ensures Auth.Authenticate(At(run), Encoded(token), now).1.Success?
            <==> exists v: nat :: Granted(run, Digest(token), v)
  {
    if Digest(token) in At(run).sessions {
      var v := SessionGrant(run, Digest(token));
    }
    if v: nat :| Granted(run, Digest(token), v) {
      SessionLasts(run, Digest(token), v);
    }
  }

  /** Bearer tokens are drawn at random: no two verifications draw the same one. */
  ghost predicate FreshTokens(run: Run) {
    forall i, j :: 0 <= i < j < |run| && run[i].op.Verify? && run[j].op.Verify? ==> run[i].op.token != run[j].op.token
  }

  /** A token that was granted and then revoked never authenticates again. */
  lemma RevokedForEver(run: Run, v: nat, r: nat, token: Token, now: Time)
    requires FreshTokens(run)
    requires v < r < |run| && run[v].op.Verify? && run[v].op.token == token && run[r].op == Revoke(Encoded(token))
    ensures Auth.Authenticate(At(run), Encoded(token), now).1.Failure?
  {
    if Auth.Authenticate(At(run), Encoded(token), now).1.Success? {
      var w := SessionGrant(run, Digest(token));
      assert false;
    }
  }

  // ---- the operations do their work ------------------------------------------------------------------

  lemma AtNext(run: Run, e: Event)
    ensures At(run + [e]) == Apply(At(run), e)
  {
    assert (run + [e])[..|run|] == run;
  }

  /** From any state: an account registered, challenged, and signed in with its key is who its token says. */
  lemma RegisteredDeviceSignsIn(run: Run, username: string, key: Auth.Crypto.SigningKey, ids: Accounts.NewIds,
                                nonce: Nonce, token: Token, registered: Time, challenged: Time, signed: Time, now: Time)
    requires Accounts.Register(At(run), username, Encoded(key), ids, registered).1.Success?
    requires Digest(token) !in At(run).sessions && signed <= challenged + Auth.CHALLENGE_TTL_SECONDS
    requires now <= signed + Auth.SESSION_TTL_SECONDS
    ensures var run' := run + [Event(registered, Register(username, Encoded(key), ids))]
                        + [Event(challenged, IssueChallenge(ids.device, nonce))]
                        + [Event(signed, Verify(ids.device, Encoded(Auth.Crypto.Signature(key, nonce)), token))];
            Auth.Authenticate(At(run'), Encoded(token), now).1 == Success(ids.device)
  {
    hide At;
    var run1 := run + [Event(registered, Register(username, Encoded(key), ids))];
    AtNext(run, Event(registered, Register(username, Encoded(key), ids)));
    Accounts.RegisteredRows(At(run), username, Encoded(key), ids, registered);
    AtNext(run1, Event(challenged, IssueChallenge(ids.device, nonce)));
    var run2 := run1 + [Event(challenged, IssueChallenge(ids.device, nonce))];
    var s := Encoded(Auth.Crypto.Signature(key, nonce));
    AtNext(run2, Event(signed, Verify(ids.device, s, token)));
    Auth.AnsweredNonceIsGranted(At(run1), ids.device, nonce, token, challenged, signed);
    Auth.GrantedTokenAuthenticates(At(run2), ids.device, s, token, signed, now);
  }

  /** A message accepted is queued, stays through pulls until it expires, and goes when acknowledged. */
  lemma AcceptedMailIsQueued(run: Run, d: DeviceId, r: MessageQueue.SendRequest, sent: Time, pulled: Time)
    requires MessageQueue.Send(At(run), d, r, sent).1.Success? && r.id !in At(run).envelopes
    requires pulled <= sent + MessageQueue.Ttl(r)
    ensures var run1 := run + [Event(sent, Send(d, r))];
            var run2 := run1 + [Event(pulled, Pull(r.recipient))];
            && r.id in At(run1).envelopes && r.id in At(run2).envelopes
            && At(run2).envelopes[r.id]
               == Envelope(d, r.recipient, r.version, r.ciphertext, sent, sent + MessageQueue.Ttl(r))
            && r.id !in At(run2 + [Event(pulled, Ack(r.recipient, [r.id]))]).envelopes
  {
    hide At, MessageQueue.Send, MessageQueue.PullSweep, MessageQueue.Ack, MessageQueue.Ttl;
    MessageQueue.AcceptedIsQueued(At(run), d, r, sent, pulled);
    AtNext(run, Event(sent, Send(d, r)));
    var run1 := run + [Event(sent, Send(d, r))];
    AtNext(run1, Event(pulled, Pull(r.recipient)));
    AtNext(run1 + [Event(pulled, Pull(r.recipient))], Event(pulled, Ack(r.recipient, [r.id])));
  }

  /** A prekey published by a device that had none left is what a claim answers, and is then claimed. */
  lemma PublishedPrekeyIsHandedOut(run: Run, d: DeviceId, e: Prekeys.Entry, published: Time, claimed: Time,
                                   choice: Option<PrekeyId>)
    requires d in At(run).devices && e.id !in At(run).prekeys
    requires forall p :: !Prekeys.Unclaimed(At(run).prekeys, d, p)
    requires Enabled(At(run + [Event(published, Publish(d, [e]))]), Claim(d, choice))
    ensures var run1 := run + [Event(published, Publish(d, [e]))];
            && choice == Some(e.id)
            && At(run1).prekeys[e.id] == Prekey(d, e.publicKey, e.signature, published, None)
            && At(run1 + [Event(claimed, Claim(d, choice))]).prekeys[e.id]
               == Prekey(d, e.publicKey, e.signature, published, Some(claimed))
  {
    hide At;
    AtNext(run, Event(published, Publish(d, [e])));
    Prekeys.PublishedIsClaimed(At(run), d, [e], published, choice);
    Prekeys.Published(At(run), d, [e], published);
    assert [e][0].id in Prekeys.NewIds(At(run).prekeys, [e]);
    AtNext(run + [Event(published, Publish(d, [e]))], Event(claimed, Claim(d, choice)));
  }

  /** A slot granted is there, is marked once its file is reported, and goes when its owner deletes it. */
  lemma GrantedSlotIsKept(run: Run, d: DeviceId, size: int, id: AttachmentId, key: StorageKey, created: Time,
                          marked: Time)
    requires Attachments.HandleCreate(At(run), d, size, id, key, created).1.Success?
    ensures var row := Attachment(id, d, size, key, created + Attachments.DEFAULT_ATTACHMENT_TTL_SECONDS, None);
            var run1 := run + [Event(created, Create(d, size, id, key))];
            var run2 := run1 + [Event(marked, MarkUploaded(d, id))];
            && row in At(run1).attachments
            && row.(uploadedAt := Some(marked)) in At(run2).attachments
            && forall a :: a in At(run2 + [Event(marked, DeleteAttachment(d, id))]).attachments
                           <==> a in At(run2).attachments && !(a.id == id && a.owner == d)
  {
    hide At, Attachments.HandleCreate, Attachments.MarkUploaded, Attachments.Delete;
    AtNext(run, Event(created, Create(d, size, id, key)));
    var run1 := run + [Event(created, Create(d, size, id, key))];
    AtNext(run1, Event(marked, MarkUploaded(d, id)));
    AtNext(run1 + [Event(marked, MarkUploaded(d, id))], Event(marked, DeleteAttachment(d, id)));
    Attachments.CreatedSlotExpires(At(run), d, size, id, key, created, created);
    var row := Attachments.HandleCreate(At(run), d, size, id, key, created).1.value;
    assert At(run1).attachments[|At(run).attachments|] == row;
    Attachments.SlotIsMarkedAndDeleted(At(run1), row, marked);
  }
}
