/**
 Attachment slots and their quota (server/upm-server/src/db.rs:870-990, 660-696,
 api.rs:1065-1105).
 */
module Attachments {
  import opened Wrappers
  import opened ServerTables

  const MAX_ATTACHMENT_BYTES: int := 100 * 1024 * 1024
  const MAX_DEVICE_ATTACHMENT_BYTES: int := 500 * 1024 * 1024
  const DEFAULT_ATTACHMENT_TTL_SECONDS: nat := 30 * 24 * 3600

  type Rows = seq<Attachment>

  /** Bytes a device has reserved or uploaded and that have not expired. */
  function Committed(rows: Rows, d: DeviceId, now: Time): int {
    TotalSize(Select(rows, Reserved(d, now)))
  }

  predicate HasId(rows: Rows, id: AttachmentId) {
    exists a :: a in rows && a.id == id
  }

  function Create(t: Tables, d: DeviceId, size: int, id: AttachmentId, key: StorageKey, now: Time)
    : (r: (Tables, Result<Attachment, DbError>))
    ensures r.0 == t.(attachments := r.0.attachments)
  {
    if d !in t.devices then (t, Failure(DeviceNotFound))
    else if Committed(t.attachments, d, now) + size > MAX_DEVICE_ATTACHMENT_BYTES then
      (t, Failure(AttachmentQuotaExceeded))
    else if HasId(t.attachments, id) then (t, Failure(ConstraintViolation))
    else
      var row := Attachment(id, d, size, key, now + DEFAULT_ATTACHMENT_TTL_SECONDS, None);
      (t.(attachments := t.attachments + [row]), Success(row))
  }

  datatype CreateError = TooLarge | Refused(error: DbError)

  /** POST /v1/attachments/create bounds a single request before the table is touched. */
  function HandleCreate(t: Tables, d: DeviceId, size: int, id: AttachmentId, key: StorageKey, now: Time)
    : (r: (Tables, Result<Attachment, CreateError>))
    ensures r.0 == t.(attachments := r.0.attachments)
  {
    if size <= 0 || size > MAX_ATTACHMENT_BYTES then (t, Failure(TooLarge))
    else
      var (t', r) := Create(t, d, size, id, key, now);
      (t', if r.Success? then Success(r.value) else Failure(Refused(r.error)))
  }

  function Marked(a: Attachment, id: AttachmentId, owner: DeviceId, now: Time): Attachment {
    if a.id == id && a.owner == owner && a.uploadedAt.None? then a.(uploadedAt := Some(now)) else a
  }

  function MarkRows(rows: Rows, id: AttachmentId, owner: DeviceId, now: Time): Rows {
    if rows == [] then [] else [Marked(rows[0], id, owner, now)] + MarkRows(rows[1..], id, owner, now)
  }

  function MarkUploaded(t: Tables, id: AttachmentId, owner: DeviceId, now: Time): (r: (Tables, bool))
    ensures r.0 == t.(attachments := r.0.attachments)
  {
    (t.(attachments := MarkRows(t.attachments, id, owner, now)),
     exists a :: a in t.attachments && a.id == id && a.owner == owner && a.uploadedAt.None?)
  }

  function Delete(t: Tables, owner: DeviceId, id: AttachmentId): (r: (Tables, bool))
    ensures r.0 == t.(attachments := r.0.attachments)
  {
    (t.(attachments := Select(t.attachments, Not(IsRow(id, owner)))),
     exists a :: a in t.attachments && a.id == id && a.owner == owner)
  }

  /** The sweep over all four tables with an expiry, and the blob names of the rows it deletes. */
  function Reap(t: Tables, now: Time): (r: (Tables, seq<StorageKey>))
    ensures r.0.users == t.users && r.0.devices == t.devices && r.0.prekeys == t.prekeys
  {
    (t.(envelopes := t.envelopes - (set m | m in t.envelopes && t.envelopes[m].expiresAt <= now),
        attachments := Select(t.attachments, LiveAt(now)),
        challenges := t.challenges - (set d | d in t.challenges && t.challenges[d].expiresAt <= now),
        sessions := t.sessions - (set h | h in t.sessions && t.sessions[h].expiresAt <= now)),
     KeysOf(Select(t.attachments, Not(LiveAt(now)))))
  }

  // ---- the quota -----------------------------------------------------------------------

  ghost predicate Positive(rows: Rows) {
    forall a :: a in rows ==> 0 < a.size
  }

  /** No device exceeds its quota now, nor at any later time if nothing else happens. */
  ghost predicate WithinQuota(rows: Rows, now: Time) {
    forall d, at :: now <= at ==> Committed(rows, d, at) <= MAX_DEVICE_ATTACHMENT_BYTES
  }

  lemma QuotaAtOneTime(rows: Rows, now: Time)
    requires Positive(rows)
    requires forall d :: Committed(rows, d, now) <= MAX_DEVICE_ATTACHMENT_BYTES
    ensures WithinQuota(rows, now)
  {
    forall d, at | now <= at
      ensures Committed(rows, d, at) <= MAX_DEVICE_ATTACHMENT_BYTES
    {
      SelectSmaller(rows, Reserved(d, at), Reserved(d, now));
      assert Committed(rows, d, now) <= MAX_DEVICE_ATTACHMENT_BYTES;
    }
  }

  /** Deleting rows, by whatever clause, frees quota and never takes any. */
  lemma SelectionKeepsQuota(rows: Rows, w: Where, now: Time)
    requires Positive(rows) && WithinQuota(rows, now)
    ensures Positive(Select(rows, w)) && WithinQuota(Select(rows, w), now)
  {
    SelectMembers(rows, w);
    forall d, at | now <= at
      ensures Committed(Select(rows, w), d, at) <= MAX_DEVICE_ATTACHMENT_BYTES
    {
      SelectTwice(rows, w, Reserved(d, at));
      SelectSmaller(rows, Both(w, Reserved(d, at)), Reserved(d, at));
      assert Committed(rows, d, at) <= MAX_DEVICE_ATTACHMENT_BYTES;
    }
  }

  lemma CreateKeepsQuota(t: Tables, d: DeviceId, size: int, id: AttachmentId, key: StorageKey, now: Time)
    requires Positive(t.attachments) && WithinQuota(t.attachments, now)
    ensures var rows := HandleCreate(t, d, size, id, key, now).0.attachments;
            Positive(rows) && WithinQuota(rows, now)
  {
    var rows, rows' := t.attachments, HandleCreate(t, d, size, id, key, now).0.attachments;
    if rows' != rows {
      var row := Attachment(id, d, size, key, now + DEFAULT_ATTACHMENT_TTL_SECONDS, None);
      forall e
        ensures Committed(rows', e, now) <= MAX_DEVICE_ATTACHMENT_BYTES
      {
        var before := Select(rows, Reserved(e, now));
        SelectAppend(rows, row, Reserved(e, now));
        if e == d {
          TotalAppend(before, [row]);
        } else {
          assert before + [] == before;
        }
        assert Committed(rows, e, now) <= MAX_DEVICE_ATTACHMENT_BYTES;
      }
      QuotaAtOneTime(rows', now);
    }
  }

  /** A slot of an allowed size is refused for quota exactly when the device's live bytes leave no room for it. */
  lemma CreatedExactlyWithinQuota(t: Tables, d: DeviceId, size: int, id: AttachmentId, key: StorageKey, now: Time)
    requires d in t.devices && !HasId(t.attachments, id) && 0 < size <= MAX_ATTACHMENT_BYTES
    ensures var (t', r) := HandleCreate(t, d, size, id, key, now);
            && (r.Success? <==> Committed(t.attachments, d, now) + size <= MAX_DEVICE_ATTACHMENT_BYTES)
            && (r.Success? ==> Committed(t'.attachments, d, now) == Committed(t.attachments, d, now) + size)
            && (r.Failure? ==> t' == t && r.error == Refused(AttachmentQuotaExceeded))
  {
    var row := Attachment(id, d, size, key, now + DEFAULT_ATTACHMENT_TTL_SECONDS, None);
    SelectAppend(t.attachments, row, Reserved(d, now));
    TotalAppend(Select(t.attachments, Reserved(d, now)), [row]);
    assert TotalSize([row]) == size;
  }

  /** What counts against a device: the sizes of its own rows that have not expired. */
  lemma CommittedCounts(rows: Rows, row: Attachment, d: DeviceId, now: Time)
    ensures Committed([], d, now) == 0
    ensures Committed(rows + [row], d, now)
         == Committed(rows, d, now) + if row.owner == d && now < row.expiresAt then row.size else 0
  {
    SelectAppend(rows, row, Reserved(d, now));
    TotalAppend(Select(rows, Reserved(d, now)), [row]);
    assert TotalSize([row]) == row.size;
    assert Select(rows, Reserved(d, now)) + [] == Select(rows, Reserved(d, now));
  }

  /** A slot granted counts against its device until its thirty days are over, and not from then on. */
  lemma CreatedSlotExpires(t: Tables, d: DeviceId, size: int, id: AttachmentId, key: StorageKey, now: Time, at: Time)
    requires HandleCreate(t, d, size, id, key, now).1.Success?
    ensures var (t', r) := HandleCreate(t, d, size, id, key, now);
            && r.value == Attachment(id, d, size, key, now + DEFAULT_ATTACHMENT_TTL_SECONDS, None)
            && t'.attachments == t.attachments + [r.value]
            && Committed(t'.attachments, d, at)
               == Committed(t.attachments, d, at) + if at < now + DEFAULT_ATTACHMENT_TTL_SECONDS then size else 0
  {
    var row := HandleCreate(t, d, size, id, key, now).1.value;
    SelectAppend(t.attachments, row, Reserved(d, at));
    TotalAppend(Select(t.attachments, Reserved(d, at)), [row]);
    assert TotalSize([row]) == size;
    assert Select(t.attachments, Reserved(d, at)) + [] == Select(t.attachments, Reserved(d, at));
  }

  /** The sweep removes exactly what has expired, and names exactly the files of the attachments it removed. */
  lemma ReapedExactlyExpired(t: Tables, now: Time)
    ensures var (t', keys) := Reap(t, now);
            && (forall a :: a in t'.attachments <==> a in t.attachments && a.expiresAt > now)
            && (forall k :: k in keys <==> exists a :: a in t.attachments && a.expiresAt <= now && a.storageKey == k)
            && |keys| + |t'.attachments| == |t.attachments|
            && (forall m :: m in t'.envelopes <==> m in t.envelopes && t.envelopes[m].expiresAt > now)
            && (forall m :: m in t'.envelopes ==> t'.envelopes[m] == t.envelopes[m])
            && (forall d :: d in t'.challenges <==> d in t.challenges && t.challenges[d].expiresAt > now)
            && (forall h :: h in t'.sessions <==> h in t.sessions && t.sessions[h].expiresAt > now)
  {
    SelectMembers(t.attachments, LiveAt(now));
    SelectMembers(t.attachments, Not(LiveAt(now)));
    KeysMembers(Select(t.attachments, Not(LiveAt(now))));
    SplitSizes(t.attachments, LiveAt(now));
  }

  lemma {:induction false} SplitSizes(rows: Rows, w: Where)
    ensures |KeysOf(Select(rows, Not(w)))| + |Select(rows, w)| == |rows|
  {
    if rows != [] {
      SplitSizes(rows[1..], w);
    }
  }

  /** A slot granted is there, is marked once its file is reported, and goes when its owner deletes it. */
  lemma SlotIsMarkedAndDeleted(t: Tables, row: Attachment, marked: Time)
    requires row in t.attachments && row.uploadedAt.None?
    ensures var t1 := MarkUploaded(t, row.id, row.owner, marked).0;
            && row.(uploadedAt := Some(marked)) in t1.attachments
            && forall a :: a in Delete(t1, row.owner, row.id).0.attachments
                           <==> a in t1.attachments && !(a.id == row.id && a.owner == row.owner)
  {
    MarkedRow(t.attachments, row.id, row.owner, marked);
    var rows := MarkRows(t.attachments, row.id, row.owner, marked);
    var i :| 0 <= i < |t.attachments| && t.attachments[i] == row;
    assert rows[i] == row.(uploadedAt := Some(marked));
    SelectMembers(rows, Not(IsRow(row.id, row.owner)));
    assert forall a :: Matches(Not(IsRow(row.id, row.owner)), a) == !Matches(IsRow(row.id, row.owner), a);
  }

  lemma {:induction false} MarkingKeepsSizes(rows: Rows, id: AttachmentId, owner: DeviceId, at: Time, w: Where)
    requires w.Reserved?
    ensures TotalSize(Select(MarkRows(rows, id, owner, at), w)) == TotalSize(Select(rows, w))
  {
    if rows != [] {
      MarkingKeepsSizes(rows[1..], id, owner, at, w);
    }
  }

  /** The row at each position keeps everything but, perhaps, its upload time. */
  lemma {:induction false} MarkedRow(rows: Rows, id: AttachmentId, owner: DeviceId, now: Time)
    ensures |MarkRows(rows, id, owner, now)| == |rows|
    ensures forall i :: 0 <= i < |rows| ==> MarkRows(rows, id, owner, now)[i] == Marked(rows[i], id, owner, now)
  {
    if rows != [] {
      MarkedRow(rows[1..], id, owner, now);
    }
  }

  lemma MarkingKeepsQuota(rows: Rows, id: AttachmentId, owner: DeviceId, now: Time)
    requires Positive(rows) && WithinQuota(rows, now)
    ensures Positive(MarkRows(rows, id, owner, now)) && WithinQuota(MarkRows(rows, id, owner, now), now)
  {
    MarkedRow(rows, id, owner, now);
    forall d, at | now <= at
      ensures Committed(MarkRows(rows, id, owner, now), d, at) <= MAX_DEVICE_ATTACHMENT_BYTES
    {
      MarkingKeepsSizes(rows, id, owner, now, Reserved(d, at));
      assert Committed(rows, d, at) <= MAX_DEVICE_ATTACHMENT_BYTES;
    }
  }

  /** A slot can be marked uploaded once: the second report of the same slot is refused. */
  lemma MarkedOnlyOnce(t: Tables, id: AttachmentId, owner: DeviceId, now: Time, later: Time)
    ensures !MarkUploaded(MarkUploaded(t, id, owner, now).0, id, owner, later).1
  {
    MarkedRow(t.attachments, id, owner, now);
  }
}
