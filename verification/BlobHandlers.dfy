/**
 The attachment handlers as code: each runs its lock-held statements and its file steps one
 after another, and is proved to be exactly the steps of BlobProtocol taken in that order
 (server/upm-server/src/api.rs:1107-1205, main.rs:238-256, admin.rs:105-119).
 */
module BlobHandlers {
  import opened ServerTables
  import Accounts
  import Attachments
  import BP = BlobProtocol
  import Database

  datatype UploadStatus =
    | UploadNotFound | UploadForbidden | AttachmentExpired | SizeMismatch | StorageFailed | Uploaded | StateChanged

  datatype DeleteStatus = Deleted | DeleteNotFound | DeleteForbidden

  /** The removals a handler still has to do, with nothing in between. */
  ghost function UnlinkAll(w: BP.World, x: BP.HandlerId): BP.World
    requires x in w.running && w.running[x].Unlinking?
    decreases |w.running[x].keys|
  {
    var v := BP.Take(w, BP.UnlinkNext(x), 0);
    if w.running[x].keys == [] then v else UnlinkAll(v, x)
  }

  ghost function UploadSteps(w: BP.World, row: Attachment, at: Time): BP.World
    requires w.running == map[] && row in w.t.attachments && row.expiresAt > at
  {
    var marked := BP.Take(BP.Take(BP.Take(w, BP.BeginUpload(0, row), at), BP.WriteBlob(0), at), BP.MarkUploaded(0), at);
    if 0 in marked.running then UnlinkAll(marked, 0) else marked
  }

  ghost function DeleteSteps(w: BP.World, row: Attachment, at: Time): BP.World
    requires w.running == map[] && row in w.t.attachments
  {
    var gone := BP.Take(BP.Take(w, BP.BeginDelete(0, row), at), BP.DeleteRow(0), at);
    if 0 in gone.running then UnlinkAll(gone, 0) else gone
  }

  ghost function SweepSteps(w: BP.World, at: Time): BP.World
    requires w.running == map[]
  {
    UnlinkAll(BP.Take(w, BP.Sweep(0), at), 0)
  }

  ghost function AsSet(keys: seq<StorageKey>): set<StorageKey> {
    set k | k in keys
  }

  lemma {:induction false} UnlinkAllRemoves(w: BP.World, x: BP.HandlerId)
    requires x in w.running && w.running[x].Unlinking?
    ensures UnlinkAll(w, x) == w.(blobs := w.blobs - AsSet(w.running[x].keys), running := w.running - {x})
    decreases |w.running[x].keys|
  {
    var keys := w.running[x].keys;
    var v := BP.Take(w, BP.UnlinkNext(x), 0);
    if keys != [] {
      UnlinkAllRemoves(v, x);
      assert keys == [keys[0]] + keys[1..];
      assert w.blobs - AsSet(keys) == w.blobs - {keys[0]} - AsSet(keys[1..]);
      assert v.running - {x} == w.running - {x};
    }
  }

  /** What the upload's steps amount to. */
  lemma UploadStepsAre(w: BP.World, row: Attachment, at: Time)
    requires w.running == map[] && row in w.t.attachments && row.expiresAt > at
    ensures var (t, marked) := Attachments.MarkUploaded(w.t, row.id, row.owner, at);
            UploadSteps(w, row, at)
            == BP.World(t, if marked then w.blobs + {row.storageKey} else w.blobs - {row.storageKey}, map[])
  {
    var last := BP.Take(BP.Take(BP.Take(w, BP.BeginUpload(0, row), at), BP.WriteBlob(0), at), BP.MarkUploaded(0), at);
    if 0 in last.running {
      UnlinkAllRemoves(last, 0);
      assert last.running - {0} == map[];
      assert AsSet([row.storageKey]) == {row.storageKey};
    } else {
      assert last.running == map[];
    }
  }

  lemma OneRowOnly(t: Tables, row: Attachment, at: Time)
    requires DistinctRows(t.attachments) && row in t.attachments
    ensures forall other :: other in t.attachments && other.id == row.id ==> other == row
    ensures Attachments.MarkUploaded(t, row.id, row.owner, at).1 <==> row.uploadedAt.None?
  {
  }

  /** When an upload into the slot `row` ends with which status. */
  predicate IsUploadStatus(status: UploadStatus, row: Attachment, device: DeviceId, bodySize: nat, write: bool,
                           now: Time)
  {
    var mine := row.owner == device;
    var live := now < row.expiresAt;
    var accepted := mine && live && bodySize == row.size && write;
    && (status == UploadForbidden <==> !mine)
    && (status == AttachmentExpired <==> mine && !live)
    && (status == SizeMismatch <==> mine && live && bodySize != row.size)
    && (status == StorageFailed <==> mine && live && bodySize == row.size && !write)
    && (status == Uploaded <==> accepted && row.uploadedAt.None?)
    && (status == StateChanged <==> accepted && row.uploadedAt.Some?)
  }

  class Server {
    const db: Database.Connection
    var blobs: set<StorageKey>

    constructor ()
      ensures View() == BP.START && fresh(db)
    {
      db := new Database.Connection();
      blobs := {};
    }

    ghost function View(): BP.World
      reads this, db
    {
      BP.World(db.View(), blobs, map[])
    }

    /** `write` tells whether writing and renaming the file succeeds. */
    method HandleAttachmentUpload(id: AttachmentId, device: DeviceId, bodySize: nat, write: bool, now: Time)
      returns (status: UploadStatus)
      modifies this, db
      ensures status == UploadNotFound <==> !Attachments.HasId(old(db.attachments), id)
      ensures DistinctRows(old(db.attachments)) ==>
                forall row :: row in old(db.attachments) && row.id == id ==>
                  IsUploadStatus(status, row, device, bodySize, write, now)
      ensures status in {UploadNotFound, UploadForbidden, AttachmentExpired, SizeMismatch, StorageFailed} ==>
                View() == old(View())
      ensures status in {Uploaded, StateChanged} ==>
                exists row :: row in old(db.attachments) && row.id == id && row.owner == device
                              && row.expiresAt > now && row.size == bodySize && write
                              && View() == UploadSteps(old(View()), row, now)
                              && (status == Uploaded <==> row.storageKey in blobs)
    {
      hide UploadSteps, DistinctRows, Attachments.MarkUploaded;
      var found := db.GetAttachment(id);
      if found.None? {
        return UploadNotFound;
      }
      var record := found.value;
      if DistinctRows(db.attachments) {
        OneRowOnly(db.View(), record, now);
      }
      if record.owner != device {
        return UploadForbidden;
      }
      if record.expiresAt <= now {
        return AttachmentExpired;
      }
      if bodySize != record.size {
        return SizeMismatch;
      }
      if !write {
        return StorageFailed;
      }
      UploadStepsAre(View(), record, now);
      blobs := blobs + {record.storageKey};
      var marked := db.MarkAttachmentUploaded(id, device, now);
      if marked {
        return Uploaded;
      }
      blobs := blobs - {record.storageKey};
      return StateChanged;
    }

    method HandleAttachmentDelete(id: AttachmentId, device: DeviceId, now: Time) returns (status: DeleteStatus)
      modifies this, db
      ensures status == DeleteNotFound <==> !Attachments.HasId(old(db.attachments), id)
      ensures DistinctRows(old(db.attachments)) ==>
                forall row :: row in old(db.attachments) && row.id == id ==>
                  && (status == Deleted <==> row.owner == device)
                  && (status == DeleteForbidden <==> row.owner != device)
      ensures status != Deleted ==> View() == old(View())
      ensures status == Deleted ==>
                exists row :: row in old(db.attachments) && row.id == id && row.owner == device
                              && View() == DeleteSteps(old(View()), row, now)
                              && row.storageKey !in blobs
    {
      var found := db.GetAttachment(id);
      if found.None? {
        return DeleteNotFound;
      }
      var record := found.value;
      if DistinctRows(db.attachments) {
        OneRowOnly(db.View(), record, now);
      }
      if record.owner != device {
        return DeleteForbidden;
      }
      ghost var begin := View();
      var deleted := db.DeleteAttachment(device, id);
      assert deleted;
      blobs := blobs - {record.storageKey};
      ghost var gone := BP.Take(BP.Take(begin, BP.BeginDelete(0, record), now), BP.DeleteRow(0), now);
      UnlinkAllRemoves(gone, 0);
      assert gone.running - {0} == map[];
      assert AsSet([record.storageKey]) == {record.storageKey};
      return Deleted;
    }

    method UnlinkEach(keys: seq<StorageKey>)
      modifies this`blobs
      ensures blobs == old(blobs) - AsSet(keys)
    {
      for i := 0 to |keys|
        invariant blobs == old(blobs) - AsSet(keys[..i])
      {
        assert keys[..i + 1] == keys[..i] + [keys[i]];
        assert AsSet(keys[..i + 1]) == AsSet(keys[..i]) + {keys[i]};
        blobs := blobs - {keys[i]};
      }
      assert keys[..|keys|] == keys;
    }

    method RunSweep(now: Time)
      modifies this, db
      ensures View() == SweepSteps(old(View()), now)
    {
      ghost var begin := View();
      var keys := db.ReapExpired(now);
      UnlinkEach(keys);
      ghost var swept := BP.Take(begin, BP.Sweep(0), now);
      UnlinkAllRemoves(swept, 0);
      assert swept.running - {0} == map[];
    }

    /** Deletes the account of one who has the name, and exactly the files of its rows. */
    method AdminDeleteAccountJson(username: string) returns (found: bool)
      modifies this, db
      ensures found <==> Accounts.NameTaken(old(db.users), Lower(username))
      ensures !found ==> View() == old(View())
      ensures found ==>
                exists u :: u in old(db.users) && old(db.users)[u].normalized == Lower(username)
                            && db.View() == Accounts.AdminDelete(old(db.View()), u)
                            && forall k :: k in blobs <==>
                                 k in old(blobs)
                                 && k !in Accounts.KeysOwnedBy(old(db.View()), Accounts.DevicesOf(old(db.View()), u))
    {
      var r := db.AdminDeleteAccount(username);
      if r.Failure? {
        return false;
      }
      UnlinkEach(r.value);
      ghost var u :| u in old(db.users) && old(db.users)[u].normalized == Lower(username)
                     && db.View() == Accounts.AdminDelete(old(db.View()), u)
                     && multiset(r.value)
                        == multiset(Accounts.KeysOwnedBy(old(db.View()), Accounts.DevicesOf(old(db.View()), u)));
      SameElements(r.value, Accounts.KeysOwnedBy(old(db.View()), Accounts.DevicesOf(old(db.View()), u)));
      return true;
    }
  }

  lemma SameElements(a: seq<StorageKey>, b: seq<StorageKey>)
    requires multiset(a) == multiset(b)
    ensures forall k :: k in a <==> k in b
  {
    forall k
      ensures k in a <==> k in b
    {
      assert k in a <==> k in multiset(a);
    }
  }
}
