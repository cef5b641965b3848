/**
 Attachment rows and blob files under concurrent workers (server/upm-server/src/api.rs:1107-1205,
 main.rs:238-256, admin.rs:105-119).

 A handler is split into its lock-held database steps and its file steps; between two steps
 of one handler any step of any other may run. `Handler` is one that is under way.
 */
module BlobProtocol {
  import opened Wrappers
  import opened ServerTables
  import Accounts
  import Attachments
  import SR = ServerRuns

  type HandlerId = nat

  datatype Handler =
    | Uploading(id: AttachmentId, key: StorageKey, owner: DeviceId)  // has read the row, has not written the file
    | Written(id: AttachmentId, key: StorageKey, owner: DeviceId)    // the file is in place, the row not yet marked
    | Deleting(id: AttachmentId, key: StorageKey, owner: DeviceId)   // has read the row, has not deleted it
    | Unlinking(keys: seq<StorageKey>)                               // still has files to remove

  datatype World = World(t: Tables, blobs: set<StorageKey>, running: map<HandlerId, Handler>)

  const START: World := World(EMPTY, {}, map[])

  datatype Step =
    | Serve(op: SR.Op)                                      // any operation on the tables alone
    | BeginUpload(handler: HandlerId, row: Attachment)
    | AbandonUpload(handler: HandlerId)                           // wrong size, unreadable body or failed write
    | WriteBlob(handler: HandlerId)
    | MarkUploaded(handler: HandlerId)
    | BeginDelete(handler: HandlerId, row: Attachment)
    | DeleteRow(handler: HandlerId)
    | Sweep(handler: HandlerId)
    | AdminDelete(handler: HandlerId, user: UserId)
    | UnlinkNext(handler: HandlerId)

  ghost predicate Possible(w: World, s: Step, at: Time) {
    match s
    case Serve(op) =>
      && !(op.MarkUploaded? || op.DeleteAttachment? || op.Reap? || op.AdminDelete?)
      && SR.Enabled(w.t, op)
      && (op.Create? ==> NewNames(w, op.attachment, op.storageKey))
    case BeginUpload(x, row) => x !in w.running && row in w.t.attachments && row.expiresAt > at
    case AbandonUpload(x) => x in w.running && w.running[x].Uploading?
    case WriteBlob(x) => x in w.running && w.running[x].Uploading?
    case MarkUploaded(x) => x in w.running && w.running[x].Written?
    case BeginDelete(x, row) => x !in w.running && row in w.t.attachments
    case DeleteRow(x) => x in w.running && w.running[x].Deleting?
    case Sweep(x) => x !in w.running
    case AdminDelete(x, u) => x !in w.running && u in w.t.users
    case UnlinkNext(x) => x in w.running && w.running[x].Unlinking?
  }

  predicate IsAbout(k: Handler, id: AttachmentId, key: StorageKey) {
    if k.Unlinking? then key in k.keys else k.id == id || k.key == key
  }

  /** Random identifiers collide with nothing the server still refers to. */
  ghost predicate NewNames(w: World, id: AttachmentId, key: StorageKey) {
    && (forall a :: a in w.t.attachments ==> a.id != id && a.storageKey != key)
    && key !in w.blobs
    && forall x :: x in w.running ==> !IsAbout(w.running[x], id, key)
  }

  function Take(w: World, s: Step, at: Time): World
    requires Possible(w, s, at)
  {
    match s
    case Serve(op) => w.(t := SR.Apply(w.t, SR.Event(at, op)))
    case BeginUpload(x, row) => w.(running := w.running[x := Uploading(row.id, row.storageKey, row.owner)])
    case AbandonUpload(x) => w.(running := w.running - {x})
    case WriteBlob(x) =>
      var k := w.running[x];
      w.(blobs := w.blobs + {k.key}, running := w.running[x := Written(k.id, k.key, k.owner)])
    case MarkUploaded(x) =>
      var k := w.running[x];
      var (t', changed) := Attachments.MarkUploaded(w.t, k.id, k.owner, at);
      w.(t := t', running := if changed then w.running - {x} else w.running[x := Unlinking([k.key])])
    case BeginDelete(x, row) => w.(running := w.running[x := Deleting(row.id, row.storageKey, row.owner)])
    case DeleteRow(x) =>
      var k := w.running[x];
      var (t', affected) := Attachments.Delete(w.t, k.owner, k.id);
      w.(t := t', running := if affected then w.running[x := Unlinking([k.key])] else w.running - {x})
    case Sweep(x) =>
      var (t', keys) := Attachments.Reap(w.t, at);
      w.(t := t', running := w.running[x := Unlinking(keys)])
    case AdminDelete(x, u) =>
      w.(t := Accounts.AdminDelete(w.t, u),
         running := w.running[x := Unlinking(Accounts.KeysOwnedBy(w.t, Accounts.DevicesOf(w.t, u)))])
    case UnlinkNext(x) =>
      var keys := w.running[x].keys;
      if keys == [] then w.(running := w.running - {x})
      else w.(blobs := w.blobs - {keys[0]}, running := w.running[x := Unlinking(keys[1..])])
  }

  datatype Move = Move(at: Time, step: Step)

  /** The world after some moves. */
  ghost function End(moves: seq<Move>): World
    decreases |moves|
  {
    if moves == [] then START
    else
      var v, last := End(moves[..|moves| - 1]), moves[|moves| - 1];
      if Possible(v, last.step, last.at) then Take(v, last.step, last.at) else v
  }

  ghost predicate Legal(moves: seq<Move>)
    decreases |moves|
  {
    moves == [] ||
    var last := moves[|moves| - 1];
    Legal(moves[..|moves| - 1]) && Possible(End(moves[..|moves| - 1]), last.step, last.at)
  }

  ghost predicate Reaches(moves: seq<Move>, w: World) {
    Legal(moves) && w == End(moves)
  }

  // ---- rows and handlers agree ---------------------------------------------------------------

  /** What a handler remembers of a row is what the row says, as long as the row exists. */
  ghost predicate Remembers(rows: seq<Attachment>, k: Handler) {
    k.Unlinking? ||
    forall a :: a in rows && (a.id == k.id || a.storageKey == k.key) ==>
      a.id == k.id && a.storageKey == k.key && a.owner == k.owner
  }

  ghost predicate Consistent(w: World) {
    && DistinctRows(w.t.attachments)
    && forall x :: x in w.running ==> Remembers(w.t.attachments, w.running[x])
  }

  ghost predicate HasRow(rows: seq<Attachment>, key: StorageKey) {
    exists a :: a in rows && a.storageKey == key
  }

  /** The handler will mark or remove the file of this name. */
  predicate Answers(k: Handler, key: StorageKey) {
    (k.Written? && k.key == key) || (k.Unlinking? && key in k.keys)
  }

  ghost predicate Accounted(w: World, key: StorageKey) {
    HasRow(w.t.attachments, key) || exists x :: x in w.running && Answers(w.running[x], key)
  }

  ghost predicate Inv(w: World) {
    Consistent(w) && forall key :: key in w.blobs ==> Accounted(w, key)
  }

  lemma OneRowPerId(rows: seq<Attachment>, a: Attachment, b: Attachment)
    requires DistinctRows(rows) && a in rows && b in rows && (a.id == b.id || a.storageKey == b.storageKey)
    ensures a == b
  {
  }

  // ---- steps that keep the rows -------------------------------------------------------------

  lemma ServeKeeps(w: World, op: SR.Op, at: Time)
    requires Inv(w) && Possible(w, Serve(op), at)
    ensures Inv(Take(w, Serve(op), at))
  {
  }

  lemma BeginKeeps(w: World, s: Step, at: Time)
    requires Inv(w) && Possible(w, s, at) && (s.BeginUpload? || s.BeginDelete? || s.AbandonUpload?)
    ensures Inv(Take(w, s, at))
  {
    var w' := Take(w, s, at);
    if !s.AbandonUpload? {
      forall a | a in w.t.attachments && (a.id == s.row.id || a.storageKey == s.row.storageKey)
        ensures a == s.row
      {
        OneRowPerId(w.t.attachments, a, s.row);
      }
    }
    forall key | key in w'.blobs
      ensures Accounted(w', key)
    {
      OthersStillAnswer(w, w', s.handler, key);
    }
  }

  /** A file accounted for by another handler, or by a row that stays, is still accounted for. */
  lemma OthersStillAnswer(w: World, w': World, x: HandlerId, key: StorageKey)
    requires Accounted(w, key)
    requires HasRow(w.t.attachments, key) ==> Accounted(w', key)
    requires x in w.running && Answers(w.running[x], key) ==> Accounted(w', key)
    requires forall y :: y in w.running && y != x ==> y in w'.running && w'.running[y] == w.running[y]
    ensures Accounted(w', key)
  {
  }

  lemma WriteKeeps(w: World, x: HandlerId, at: Time)
    requires Inv(w) && Possible(w, WriteBlob(x), at)
    ensures Inv(Take(w, WriteBlob(x), at))
  {
    var w' := Take(w, WriteBlob(x), at);
    forall key | key in w'.blobs
      ensures Accounted(w', key)
    {
      if key == w.running[x].key {
        assert x in w'.running && Answers(w'.running[x], key);
      } else {
        OthersStillAnswer(w, w', x, key);
      }
    }
  }

  lemma UnlinkKeeps(w: World, x: HandlerId, at: Time)
    requires Inv(w) && Possible(w, UnlinkNext(x), at)
    ensures Inv(Take(w, UnlinkNext(x), at))
  {
    var w' := Take(w, UnlinkNext(x), at);
    forall key | key in w'.blobs
      ensures Accounted(w', key)
    {
      if Answers(w.running[x], key) {
        assert x in w'.running && Answers(w'.running[x], key);
      }
      OthersStillAnswer(w, w', x, key);
    }
  }

  // ---- steps that change the rows --------------------------------------------------------------

  lemma MarkKeeps(w: World, x: HandlerId, at: Time)
    requires Inv(w) && Possible(w, MarkUploaded(x), at)
    ensures Inv(Take(w, MarkUploaded(x), at))
  {
    var k, w' := w.running[x], Take(w, MarkUploaded(x), at);
    var rows, rows' := w.t.attachments, w'.t.attachments;
    MarkedRows(rows, k.id, k.owner, at);
    forall y | y in w'.running
      ensures Remembers(rows', w'.running[y])
    {
      if !w'.running[y].Unlinking? {
        assert Remembers(rows, w.running[y]);
      }
    }
    forall key | key in w'.blobs
      ensures Accounted(w', key)
    {
      if HasRow(rows, key) {
        assert HasRow(rows', key);
      }
      if Answers(w.running[x], key) {
        if Attachments.MarkUploaded(w.t, k.id, k.owner, at).1 {
          var a :| a in rows && a.id == k.id;
          assert HasRow(rows, key);
        } else {
          assert x in w'.running && Answers(w'.running[x], key);
        }
      }
      OthersStillAnswer(w, w', x, key);
    }
  }

  /** Marking changes no name of any row. */
  lemma MarkedRows(rows: seq<Attachment>, id: AttachmentId, owner: DeviceId, at: Time)
    ensures DistinctRows(rows) ==> DistinctRows(Attachments.MarkRows(rows, id, owner, at))
    ensures forall b :: b in Attachments.MarkRows(rows, id, owner, at) ==>
              exists a :: a in rows && b == Attachments.Marked(a, id, owner, at)
    ensures forall a :: a in rows ==> Attachments.Marked(a, id, owner, at) in Attachments.MarkRows(rows, id, owner, at)
    ensures forall key :: HasRow(rows, key) <==> HasRow(Attachments.MarkRows(rows, id, owner, at), key)
  {
    MarkedMembers(rows, id, owner, at);
    Attachments.MarkedRow(rows, id, owner, at);
    var rows' := Attachments.MarkRows(rows, id, owner, at);
    forall key
      ensures HasRow(rows, key) <==> HasRow(rows', key)
    {
      if HasRow(rows, key) {
        var a :| a in rows && a.storageKey == key;
        assert Attachments.Marked(a, id, owner, at) in rows';
      }
    }
  }

  lemma MarkedMembers(rows: seq<Attachment>, id: AttachmentId, owner: DeviceId, at: Time)
    ensures forall b :: b in Attachments.MarkRows(rows, id, owner, at) ==>
              exists a :: a in rows && b == Attachments.Marked(a, id, owner, at)
    ensures forall a :: a in rows ==> Attachments.Marked(a, id, owner, at) in Attachments.MarkRows(rows, id, owner, at)
  {
    hide Attachments.Marked;
    var rows' := Attachments.MarkRows(rows, id, owner, at);
    Attachments.MarkedRow(rows, id, owner, at);
    forall a | a in rows
      ensures Attachments.Marked(a, id, owner, at) in rows'
    {
      var i :| 0 <= i < |rows| && rows[i] == a;
      assert rows'[i] in rows';
    }
    forall b | b in rows'
      ensures exists a :: a in rows && b == Attachments.Marked(a, id, owner, at)
    {
      var i :| 0 <= i < |rows'| && rows'[i] == b;
      assert rows[i] in rows;
    }
  }

  /** Removing rows is safe if the handler takes on the names of the rows it removed. */
  lemma RemovalKeeps(w: World, w': World, x: HandlerId, doomed: Where)
    requires Inv(w) && w'.blobs == w.blobs
    requires || w'.t.attachments == Select(w.t.attachments, doomed)
             || w'.t.attachments == Select(w.t.attachments, Not(doomed))
    requires forall a :: a in w.t.attachments && a !in w'.t.attachments ==>
               x in w'.running && Answers(w'.running[x], a.storageKey)
    requires x in w.running ==> w.running[x].Deleting?
    requires x in w'.running ==> w'.running[x].Unlinking?
    requires forall y :: y != x ==>
               (y in w'.running <==> y in w.running) && (y in w.running ==> w'.running[y] == w.running[y])
    ensures Inv(w')
  {
    var rows, rows' := w.t.attachments, w'.t.attachments;
    SelectDistinct(rows, doomed);
    SelectDistinct(rows, Not(doomed));
    SelectMembers(rows, doomed);
    SelectMembers(rows, Not(doomed));
    forall y | y in w'.running
      ensures Remembers(rows', w'.running[y])
    {
      if y != x {
        assert Remembers(rows, w.running[y]);
      }
    }
    forall key | key in w'.blobs
      ensures Accounted(w', key)
    {
      if HasRow(rows, key) {
        var a :| a in rows && a.storageKey == key;
        if a in rows' {
          assert HasRow(rows', key);
        } else {
          assert x in w'.running && Answers(w'.running[x], key);
        }
      }
      OthersStillAnswer(w, w', x, key);
    }
  }

  lemma DeleteKeeps(w: World, x: HandlerId, at: Time)
    requires Inv(w) && Possible(w, DeleteRow(x), at)
    ensures Inv(Take(w, DeleteRow(x), at))
  {
    var k, w' := w.running[x], Take(w, DeleteRow(x), at);
    assert Remembers(w.t.attachments, k);
    SelectMembers(w.t.attachments, Not(IsRow(k.id, k.owner)));
    forall a: Attachment
      ensures Matches(Not(IsRow(k.id, k.owner)), a) <==> !(a.id == k.id && a.owner == k.owner)
    {
      assert Matches(Not(IsRow(k.id, k.owner)), a) == !Matches(IsRow(k.id, k.owner), a);
    }
    RemovalKeeps(w, w', x, IsRow(k.id, k.owner));
  }

  lemma SweepKeeps(w: World, x: HandlerId, at: Time)
    requires Inv(w) && Possible(w, Sweep(x), at)
    ensures Inv(Take(w, Sweep(x), at))
  {
    var w' := Take(w, Sweep(x), at);
    SelectMembers(w.t.attachments, LiveAt(at));
    SelectMembers(w.t.attachments, Not(LiveAt(at)));
    KeysMembers(Select(w.t.attachments, Not(LiveAt(at))));
    RemovalKeeps(w, w', x, LiveAt(at));
  }

  lemma AdminDeleteKeeps(w: World, x: HandlerId, u: UserId, at: Time)
    requires Inv(w) && Possible(w, AdminDelete(x, u), at)
    ensures Inv(Take(w, AdminDelete(x, u), at))
  {
    var w' := Take(w, AdminDelete(x, u), at);
    var ds := Accounts.DevicesOf(w.t, u);
    Accounts.RemainingRows(w.t.attachments, ds);
    SelectMembers(w.t.attachments, OwnerIn(ds));
    KeysMembers(Select(w.t.attachments, OwnerIn(ds)));
    RemovalKeeps(w, w', x, OwnerIn(ds));
  }

  lemma StepKeepsInv(w: World, s: Step, at: Time)
    requires Inv(w) && Possible(w, s, at)
    ensures Inv(Take(w, s, at))
  {
    hide Inv, Take;
    match s
    case Serve(op) => ServeKeeps(w, op, at);
    case BeginUpload(_, _) => BeginKeeps(w, s, at);
    case AbandonUpload(_) => BeginKeeps(w, s, at);
    case WriteBlob(x) => WriteKeeps(w, x, at);
    case MarkUploaded(x) => MarkKeeps(w, x, at);
    case BeginDelete(_, _) => BeginKeeps(w, s, at);
    case DeleteRow(x) => DeleteKeeps(w, x, at);
    case Sweep(x) => SweepKeeps(w, x, at);
    case AdminDelete(x, u) => AdminDeleteKeeps(w, x, u, at);
    case UnlinkNext(x) => UnlinkKeeps(w, x, at);
  }

  lemma {:induction false} InvAlways(moves: seq<Move>, w: World)
    requires Reaches(moves, w)
    ensures Inv(w)
    decreases |moves|
  {
    if moves != [] {
      var v, last := End(moves[..|moves| - 1]), moves[|moves| - 1];
      InvAlways(moves[..|moves| - 1], v);
      StepKeepsInv(v, last.step, last.at);
    }
  }

  /** Under every interleaving, once no handler is under way, every blob file belongs to a row. */
  lemma NoOrphanBlobs(moves: seq<Move>, w: World)
    requires Reaches(moves, w) && w.running == map[]
    ensures forall key :: key in w.blobs ==> exists a :: a in w.t.attachments && a.storageKey == key
  {
    InvAlways(moves, w);
    forall key | key in w.blobs
      ensures exists a :: a in w.t.attachments && a.storageKey == key
    {
      assert Accounted(w, key);
    }
  }

  // ---- uploaded rows and their files ----------------------------------------------------------------

  /** The ids whose row a mark step finds marked already: that step fails, and removes the file. */
  ghost function FoundBy(w: World, s: Step): set<AttachmentId> {
    set a | a in w.t.attachments && s.MarkUploaded? && s.handler in w.running && w.running[s.handler].Written?
            && a.id == w.running[s.handler].id && a.uploadedAt.Some? :: a.id
  }

  ghost function StillThere(rows: seq<Attachment>, found: set<AttachmentId>): set<AttachmentId> {
    set id | id in found && Attachments.HasId(rows, id)
  }

  /** The rows that some mark step of the run has found marked already, since they were created. */
  ghost function Found(moves: seq<Move>): set<AttachmentId>
    decreases |moves|
  {
    if moves == [] then {}
    else
      var before := moves[..|moves| - 1];
      StillThere(End(moves).t.attachments, Found(before) + FoundBy(End(before), moves[|moves| - 1].step))
  }

  ghost predicate WillGo(w: World, key: StorageKey) {
    exists x :: x in w.running && Answers(w.running[x], key)
  }

  /**
   A row never found marked has its file as soon as it is marked, or while its upload waits to be marked,
   and its file is on nobody's removal list. The file of a row found marked, if there, will be removed.
   */
  ghost predicate RowStory(w: World, a: Attachment, found: bool) {
    if found then
      a.uploadedAt.Some? && (a.storageKey in w.blobs ==> WillGo(w, a.storageKey))
    else
      && (a.uploadedAt.Some? ==> a.storageKey in w.blobs)
      && forall x :: x in w.running ==>
           && (w.running[x].Written? && w.running[x].id == a.id ==> a.storageKey in w.blobs)
           && (w.running[x].Unlinking? ==> a.storageKey !in w.running[x].keys)
  }

  ghost predicate Story(w: World, found: set<AttachmentId>) {
    && Inv(w)
    && (forall id :: id in found ==> Attachments.HasId(w.t.attachments, id))
    && forall a :: a in w.t.attachments ==> RowStory(w, a, a.id in found)
  }

  ghost function Next(w: World, s: Step, at: Time, found: set<AttachmentId>): set<AttachmentId>
    requires Possible(w, s, at)
  {
    StillThere(Take(w, s, at).t.attachments, found + FoundBy(w, s))
  }

  /** A story told row by row, when the step finds nothing marked. */
  lemma RowByRow(w: World, s: Step, at: Time, found: set<AttachmentId>)
    requires Possible(w, s, at) && Story(w, found) && Inv(Take(w, s, at)) && !s.MarkUploaded?
    requires forall a :: a in Take(w, s, at).t.attachments && a !in w.t.attachments ==>
               a.id !in found && RowStory(Take(w, s, at), a, false)
    requires forall a :: a in Take(w, s, at).t.attachments && a in w.t.attachments ==>
               RowStory(Take(w, s, at), a, a.id in found)
    ensures Story(Take(w, s, at), Next(w, s, at, found))
  {
    hide RowStory, Inv, Take;
    var rows := Take(w, s, at).t.attachments;
    assert FoundBy(w, s) == {};
    forall a | a in rows
      ensures RowStory(Take(w, s, at), a, a.id in Next(w, s, at, found))
    {
      assert Attachments.HasId(rows, a.id);
    }
  }

  /** A file that another handler will remove is still to be removed. */
  lemma StillToGo(w: World, w': World, x: HandlerId, key: StorageKey)
    requires WillGo(w, key) && (x in w.running ==> !Answers(w.running[x], key))
    requires forall y :: y in w.running && y != x ==> y in w'.running && w'.running[y] == w.running[y]
    ensures WillGo(w', key)
  {
    var y :| y in w.running && Answers(w.running[y], key);
    assert y in w'.running && Answers(w'.running[y], key);
  }

  lemma ServeTells(w: World, op: SR.Op, at: Time, found: set<AttachmentId>)
    requires Story(w, found) && Possible(w, Serve(op), at)
    ensures Story(Take(w, Serve(op), at), Next(w, Serve(op), at, found))
  {
    ServeKeeps(w, op, at);
    var w' := Take(w, Serve(op), at);
    if op.Create? {
      assert forall a :: a in w'.t.attachments && a !in w.t.attachments ==>
               a.id == op.attachment && a.storageKey == op.storageKey && a.uploadedAt.None?;
    } else {
      hide SR.Apply;
      SR.Frame(w.t, SR.Event(at, op));
    }
    forall a | a in w'.t.attachments && a in w.t.attachments
      ensures RowStory(w', a, a.id in found)
    {
      assert RowStory(w, a, a.id in found);
    }
    RowByRow(w, Serve(op), at, found);
  }

  lemma BeginTells(w: World, s: Step, at: Time, found: set<AttachmentId>)
    requires Story(w, found) && Possible(w, s, at) && (s.BeginUpload? || s.BeginDelete? || s.AbandonUpload?)
    ensures Story(Take(w, s, at), Next(w, s, at, found))
  {
    BeginKeeps(w, s, at);
    var w' := Take(w, s, at);
    forall a | a in w'.t.attachments
      ensures RowStory(w', a, a.id in found)
    {
      assert RowStory(w, a, a.id in found);
      if WillGo(w, a.storageKey) {
        StillToGo(w, w', s.handler, a.storageKey);
      }
    }
    RowByRow(w, s, at, found);
  }

  lemma WriteTells(w: World, x: HandlerId, at: Time, found: set<AttachmentId>)
    requires Story(w, found) && Possible(w, WriteBlob(x), at)
    ensures Story(Take(w, WriteBlob(x), at), Next(w, WriteBlob(x), at, found))
  {
    WriteKeeps(w, x, at);
    var w' := Take(w, WriteBlob(x), at);
    forall a | a in w'.t.attachments
      ensures RowStory(w', a, a.id in found)
    {
      assert RowStory(w, a, a.id in found) && Remembers(w.t.attachments, w.running[x]);
      if WillGo(w, a.storageKey) {
        StillToGo(w, w', x, a.storageKey);
      }
      if a.storageKey == w.running[x].key {
        assert x in w'.running && Answers(w'.running[x], a.storageKey);
      }
    }
    RowByRow(w, WriteBlob(x), at, found);
  }

  lemma UnlinkTells(w: World, x: HandlerId, at: Time, found: set<AttachmentId>)
    requires Story(w, found) && Possible(w, UnlinkNext(x), at)
    ensures Story(Take(w, UnlinkNext(x), at), Next(w, UnlinkNext(x), at, found))
  {
    UnlinkKeeps(w, x, at);
    var w' := Take(w, UnlinkNext(x), at);
    forall a | a in w'.t.attachments
      ensures RowStory(w', a, a.id in found)
    {
      assert RowStory(w, a, a.id in found);
      if a.storageKey in w'.blobs && Answers(w.running[x], a.storageKey) {
        assert x in w'.running && Answers(w'.running[x], a.storageKey);
      } else if WillGo(w, a.storageKey) && !Answers(w.running[x], a.storageKey) {
        StillToGo(w, w', x, a.storageKey);
      }
    }
    RowByRow(w, UnlinkNext(x), at, found);
  }

  /** The mark step lists the file of its row for removal if and only if the row is marked already. */
  lemma MarkListsIff(w: World, x: HandlerId, at: Time, a: Attachment)
    requires Inv(w) && Possible(w, MarkUploaded(x), at) && a in w.t.attachments && a.id == w.running[x].id
    ensures var w' := Take(w, MarkUploaded(x), at);
            && a.storageKey == w.running[x].key && a.owner == w.running[x].owner
            && (x in w'.running <==> a.uploadedAt.Some?)
            && (x in w'.running ==> w'.running[x] == Unlinking([a.storageKey]))
            && (a.id in FoundBy(w, MarkUploaded(x)) <==> a.uploadedAt.Some?)
  {
    assert Remembers(w.t.attachments, w.running[x]);
    forall b | b in w.t.attachments && b.id == a.id
      ensures b == a
    {
      OneRowPerId(w.t.attachments, a, b);
    }
  }

  lemma OwnRowTells(w: World, x: HandlerId, at: Time, found: set<AttachmentId>, a: Attachment)
    requires Story(w, found) && Possible(w, MarkUploaded(x), at) && a in w.t.attachments && a.id == w.running[x].id
    ensures var k := w.running[x];
            RowStory(Take(w, MarkUploaded(x), at), Attachments.Marked(a, k.id, k.owner, at),
                     a.id in found + FoundBy(w, MarkUploaded(x)))
  {
    assert RowStory(w, a, a.id in found);
    MarkListsIff(w, x, at, a);
    var w' := Take(w, MarkUploaded(x), at);
    if a.uploadedAt.Some? {
      assert x in w'.running && Answers(w'.running[x], a.storageKey);
    }
  }

  lemma OtherRowTells(w: World, x: HandlerId, at: Time, found: set<AttachmentId>, a: Attachment)
    requires Story(w, found) && Possible(w, MarkUploaded(x), at) && a in w.t.attachments && a.id != w.running[x].id
    ensures RowStory(Take(w, MarkUploaded(x), at), a, a.id in found)
  {
    assert RowStory(w, a, a.id in found) && Remembers(w.t.attachments, w.running[x]);
    assert a.storageKey != w.running[x].key;
    if WillGo(w, a.storageKey) {
      StillToGo(w, Take(w, MarkUploaded(x), at), x, a.storageKey);
    }
  }

  lemma MarkTells(w: World, x: HandlerId, at: Time, found: set<AttachmentId>)
    requires Story(w, found) && Possible(w, MarkUploaded(x), at)
    ensures Story(Take(w, MarkUploaded(x), at), Next(w, MarkUploaded(x), at, found))
  {
    MarkKeeps(w, x, at);
    hide Inv, RowStory, Answers;
    var k, w' := w.running[x], Take(w, MarkUploaded(x), at);
    var after := Next(w, MarkUploaded(x), at, found);
    MarkedRows(w.t.attachments, k.id, k.owner, at);
    forall b | b in w'.t.attachments
      ensures RowStory(w', b, b.id in after)
    {
      assert Attachments.HasId(w'.t.attachments, b.id);
      var a :| a in w.t.attachments && b == Attachments.Marked(a, k.id, k.owner, at);
      if a.id == k.id {
        OwnRowTells(w, x, at, found, a);
      } else {
        OtherRowTells(w, x, at, found, a);
      }
    }
  }

  /** Every name on the list belonged to a removed row. */
  ghost predicate NamesOf(keys: seq<StorageKey>, rows: seq<Attachment>, removed: Where) {
    forall key :: key in keys ==> exists a :: a in rows && Matches(removed, a) && a.storageKey == key
  }

  lemma RemovalTells(w: World, s: Step, at: Time, x: HandlerId, removed: Where, found: set<AttachmentId>)
    requires Possible(w, s, at) && !s.MarkUploaded? && Story(w, found)
    requires var w' := Take(w, s, at);
             && Inv(w') && w'.blobs == w.blobs
             && (forall a :: a in w'.t.attachments ==> a in w.t.attachments && !Matches(removed, a))
             && (x in w.running ==> w.running[x].Deleting?)
             && (x in w'.running ==> w'.running[x].Unlinking? && NamesOf(w'.running[x].keys, w.t.attachments, removed))
             && forall y :: y != x ==>
                  (y in w'.running <==> y in w.running) && (y in w.running ==> w'.running[y] == w.running[y])
    ensures Story(Take(w, s, at), Next(w, s, at, found))
  {
    var w' := Take(w, s, at);
    forall a | a in w'.t.attachments
      ensures RowStory(w', a, a.id in found)
    {
      assert RowStory(w, a, a.id in found);
      if WillGo(w, a.storageKey) {
        StillToGo(w, w', x, a.storageKey);
      }
      forall b | b in w.t.attachments && b.storageKey == a.storageKey
        ensures b == a
      {
        OneRowPerId(w.t.attachments, a, b);
      }
    }
    RowByRow(w, s, at, found);
  }

  lemma DeleteTells(w: World, x: HandlerId, at: Time, found: set<AttachmentId>)
    requires Story(w, found) && Possible(w, DeleteRow(x), at)
    ensures Story(Take(w, DeleteRow(x), at), Next(w, DeleteRow(x), at, found))
  {
    DeleteKeeps(w, x, at);
    var k := w.running[x];
    SelectMembers(w.t.attachments, Not(IsRow(k.id, k.owner)));
    assert forall a :: Matches(Not(IsRow(k.id, k.owner)), a) == !Matches(IsRow(k.id, k.owner), a);
    assert Remembers(w.t.attachments, k);
    hide Story, Next;
    RemovalTells(w, DeleteRow(x), at, x, IsRow(k.id, k.owner), found);
  }

  lemma SweepTells(w: World, x: HandlerId, at: Time, found: set<AttachmentId>)
    requires Story(w, found) && Possible(w, Sweep(x), at)
    ensures Story(Take(w, Sweep(x), at), Next(w, Sweep(x), at, found))
  {
    SweepKeeps(w, x, at);
    SelectMembers(w.t.attachments, LiveAt(at));
    SelectMembers(w.t.attachments, Not(LiveAt(at)));
    KeysMembers(Select(w.t.attachments, Not(LiveAt(at))));
    hide Story, Next;
    RemovalTells(w, Sweep(x), at, x, Not(LiveAt(at)), found);
  }

  lemma AdminDeleteTells(w: World, x: HandlerId, u: UserId, at: Time, found: set<AttachmentId>)
    requires Story(w, found) && Possible(w, AdminDelete(x, u), at)
    ensures Story(Take(w, AdminDelete(x, u), at), Next(w, AdminDelete(x, u), at, found))
  {
    AdminDeleteKeeps(w, x, u, at);
    var ds := Accounts.DevicesOf(w.t, u);
    Accounts.RemainingRows(w.t.attachments, ds);
    SelectMembers(w.t.attachments, OwnerIn(ds));
    KeysMembers(Select(w.t.attachments, OwnerIn(ds)));
    hide Story, Next;
    RemovalTells(w, AdminDelete(x, u), at, x, OwnerIn(ds), found);
  }

  lemma StepTells(w: World, s: Step, at: Time, found: set<AttachmentId>)
    requires Story(w, found) && Possible(w, s, at)
    ensures Story(Take(w, s, at), Next(w, s, at, found))
  {
    hide Story, Take, Next;
    match s
    case Serve(op) => ServeTells(w, op, at, found);
    case BeginUpload(_, _) => BeginTells(w, s, at, found);
    case AbandonUpload(_) => BeginTells(w, s, at, found);
    case WriteBlob(x) => WriteTells(w, x, at, found);
    case MarkUploaded(x) => MarkTells(w, x, at, found);
    case BeginDelete(_, _) => BeginTells(w, s, at, found);
    case DeleteRow(x) => DeleteTells(w, x, at, found);
    case Sweep(x) => SweepTells(w, x, at, found);
    case AdminDelete(x, u) => AdminDeleteTells(w, x, u, at, found);
    case UnlinkNext(x) => UnlinkTells(w, x, at, found);
  }

  lemma {:induction false} StoryAlways(moves: seq<Move>)
    requires Legal(moves)
    ensures Story(End(moves), Found(moves))
    decreases |moves|
  {
    if moves != [] {
      var before, last := moves[..|moves| - 1], moves[|moves| - 1];
      StoryAlways(before);
      hide Story;
      StepTells(End(before), last.step, last.at, Found(before));
    }
  }

  /**
   A marked row that no mark step has found marked has its file at every moment; and at rest a marked
   row has its file if and only if no mark step has found it marked.
   */
  lemma MarkedRowHasFileIff(moves: seq<Move>, w: World, a: Attachment)
    requires Reaches(moves, w) && a in w.t.attachments && a.uploadedAt.Some?
    ensures a.id !in Found(moves) ==> a.storageKey in w.blobs
    ensures w.running == map[] ==> (a.storageKey in w.blobs <==> a.id !in Found(moves))
  {
    StoryAlways(moves);
    assert RowStory(w, a, a.id in Found(moves));
  }

  /** The step that does it: an upload that finds its row marked removes the file, and the row stays marked. */
  lemma ReuploadRemovesTheFile(w: World, x: HandlerId, a: Attachment, at: Time)
    requires Inv(w) && Possible(w, MarkUploaded(x), at) && a in w.t.attachments && a.id == w.running[x].id
    requires a.uploadedAt.Some?
    ensures var v := Take(w, MarkUploaded(x), at);
            && Possible(v, UnlinkNext(x), at)
            && a in Take(v, UnlinkNext(x), at).t.attachments && a.storageKey !in Take(v, UnlinkNext(x), at).blobs
  {
    MarkListsIff(w, x, at, a);
    MarkedRows(w.t.attachments, w.running[x].id, w.running[x].owner, at);
    assert Attachments.Marked(a, w.running[x].id, w.running[x].owner, at) == a;
  }

  // ---- a way to avoid it --------------------------------------------------------------------------------

  predicate Uploads(k: Handler, id: AttachmentId) {
    (k.Uploading? || k.Written?) && k.id == id
  }

  /** Nobody starts an upload of a slot that is uploaded already or being uploaded. */
  ghost predicate StartsAlone(w: World, s: Step) {
    s.BeginUpload? ==> s.row.uploadedAt.None? && forall x :: x in w.running ==> !Uploads(w.running[x], s.row.id)
  }

  ghost predicate AllStartAlone(moves: seq<Move>)
    decreases |moves|
  {
    moves == [] ||
    (AllStartAlone(moves[..|moves| - 1]) && StartsAlone(End(moves[..|moves| - 1]), moves[|moves| - 1].step))
  }

  /** A slot has one upload under way at most, and none once it is marked. */
  ghost predicate OneUploadEach(w: World) {
    && (forall x, y, id :: x in w.running && y in w.running
                           && Uploads(w.running[x], id) && Uploads(w.running[y], id) ==>
          x == y)
    && forall a, x :: a in w.t.attachments && x in w.running && Uploads(w.running[x], a.id) ==> a.uploadedAt.None?
  }

  /** Where the rows after a step come from. */
  lemma RowsAfter(w: World, s: Step, at: Time, b: Attachment)
    requires Possible(w, s, at) && b in Take(w, s, at).t.attachments && !s.MarkUploaded?
    ensures b in w.t.attachments || (b.uploadedAt.None? && forall x :: x in w.running ==> !Uploads(w.running[x], b.id))
  {
    match s
    case Serve(op) =>
      if !op.Create? {
        hide SR.Apply;
        SR.Frame(w.t, SR.Event(at, op));
      }
    case DeleteRow(x) => SelectMembers(w.t.attachments, Not(IsRow(w.running[x].id, w.running[x].owner)));
    case Sweep(x) => SelectMembers(w.t.attachments, LiveAt(at));
    case AdminDelete(x, u) => Accounts.RemainingRows(w.t.attachments, Accounts.DevicesOf(w.t, u));
    case _ =>
  }

  lemma AloneStep(w: World, s: Step, at: Time)
    requires Inv(w) && Possible(w, s, at) && OneUploadEach(w) && StartsAlone(w, s) && !s.MarkUploaded?
    ensures OneUploadEach(Take(w, s, at))
  {
    var w' := Take(w, s, at);
    forall a, x | a in w'.t.attachments && x in w'.running && Uploads(w'.running[x], a.id)
      ensures a.uploadedAt.None?
    {
      RowsAfter(w, s, at, a);
      if s.BeginUpload? && a.id == s.row.id {
        OneRowPerId(w.t.attachments, a, s.row);
      }
    }
  }

  lemma AloneMark(w: World, x: HandlerId, at: Time)
    requires Possible(w, MarkUploaded(x), at) && OneUploadEach(w)
    ensures OneUploadEach(Take(w, MarkUploaded(x), at)) && FoundBy(w, MarkUploaded(x)) == {}
  {
    assert Uploads(w.running[x], w.running[x].id);
    MarkedRows(w.t.attachments, w.running[x].id, w.running[x].owner, at);
  }

  lemma {:induction false} StartedAloneNothingFound(moves: seq<Move>)
    requires Legal(moves) && AllStartAlone(moves)
    ensures OneUploadEach(End(moves)) && Found(moves) == {}
    decreases |moves|
  {
    if moves != [] {
      var before, last := moves[..|moves| - 1], moves[|moves| - 1];
      StartedAloneNothingFound(before);
      InvAlways(before, End(before));
      hide OneUploadEach, Inv;
      if last.step.MarkUploaded? {
        AloneMark(End(before), last.step.handler, last.at);
      } else {
        AloneStep(End(before), last.step, last.at);
        assert FoundBy(End(before), last.step) == {};
      }
    }
  }

  /** If no slot is uploaded a second time, every row marked uploaded has its file, at every moment. */
  lemma UploadedRowHasBlob(moves: seq<Move>, w: World)
    requires Reaches(moves, w) && AllStartAlone(moves)
    ensures forall a :: a in w.t.attachments && a.uploadedAt.Some? ==> a.storageKey in w.blobs
  {
    StartedAloneNothingFound(moves);
    forall a | a in w.t.attachments && a.uploadedAt.Some?
      ensures a.storageKey in w.blobs
    {
      MarkedRowHasFileIff(moves, w, a);
    }
  }

  lemma Extended(moves: seq<Move>, v: World, m: Move)
    requires Reaches(moves, v) && Possible(v, m.step, m.at)
    ensures Reaches(moves + [m], Take(v, m.step, m.at))
  {
    var longer := moves + [m];
    assert longer[..|longer| - 1] == moves && longer[|longer| - 1] == m;
  }

  lemma OneAccount() returns (move: Move, w: World)
    ensures Reaches([move], w) && w.running == map[] && w.blobs == {} && w.t.attachments == [] && 0 in w.t.devices
  {
    move := Move(0, Serve(SR.Register("alice", Malformed, Accounts.NewIds(0, "UPM", 0))));
    Extended([], START, move);
    assert [] + [move] == [move];
    w := Take(START, move.step, 0);
  }

  lemma FirstSlot(t: Tables)
    requires t.attachments == [] && 0 in t.devices
    ensures Attachments.HandleCreate(t, 0, 1, 0, 0, 0).0
         == t.(attachments := [Attachment(0, 0, 1, 0, Attachments.DEFAULT_ATTACHMENT_TTL_SECONDS, None)])
  {
  }

  lemma OneSlot() returns (moves: seq<Move>, w: World, row: Attachment)
    ensures Reaches(moves, w) && w.running == map[] && w.blobs == {} && w.t.attachments == [row]
    ensures row == Attachment(0, 0, 1, 0, Attachments.DEFAULT_ATTACHMENT_TTL_SECONDS, None)
  {
    hide Reaches, Attachments.HandleCreate;
    var first, v := OneAccount();
    var create := Move(0, Serve(SR.Create(0, 1, 0, 0)));
    Extended([first], v, create);
    FirstSlot(v.t);
    moves, w := [first] + [create], Take(v, create.step, 0);
    row := Attachment(0, 0, 1, 0, Attachments.DEFAULT_ATTACHMENT_TTL_SECONDS, None);
  }

  /** The failure is real: a run in which an uploaded row has lost its file. */
  lemma UploadedRowCanLoseItsFile() returns (moves: seq<Move>, w: World, a: Attachment)
    ensures Reaches(moves, w)
    ensures a in w.t.attachments && a.uploadedAt.Some? && a.storageKey !in w.blobs
  {
    var m0, w0, row := OneSlot();
    var m1, w1 := UploadTwice(m0, w0, row);
    a := row.(uploadedAt := Some(0));
    InvAlways(m1, w1);
    ReuploadRemovesTheFile(w1, 1, a, 0);
    Extended(m1, w1, Move(0, MarkUploaded(1)));
    var w2 := Take(w1, MarkUploaded(1), 0);
    Extended(m1 + [Move(0, MarkUploaded(1))], w2, Move(0, UnlinkNext(1)));
    moves, w := m1 + [Move(0, MarkUploaded(1))] + [Move(0, UnlinkNext(1))], Take(w2, UnlinkNext(1), 0);
  }

  /** Two uploads of one slot start together; the first is already marked, the second has written. */
  lemma UploadTwice(moves: seq<Move>, w: World, row: Attachment) returns (moves': seq<Move>, w': World)
    requires Reaches(moves, w) && w.running == map[] && w.t.attachments == [row]
    requires row.expiresAt > 0 && row.uploadedAt.None?
    ensures Reaches(moves', w') && w'.running == map[1 := Written(row.id, row.storageKey, row.owner)]
    ensures w'.t.attachments == [row.(uploadedAt := Some(0))]
  {
    hide Reaches;
    moves', w' := moves, w;
    var steps := [BeginUpload(0, row), BeginUpload(1, row), WriteBlob(0), WriteBlob(1), MarkUploaded(0)];
    Extended(moves', w', Move(0, steps[0]));
    moves', w' := moves' + [Move(0, steps[0])], Take(w', steps[0], 0);
    Extended(moves', w', Move(0, steps[1]));
    moves', w' := moves' + [Move(0, steps[1])], Take(w', steps[1], 0);
    Extended(moves', w', Move(0, steps[2]));
    moves', w' := moves' + [Move(0, steps[2])], Take(w', steps[2], 0);
    Extended(moves', w', Move(0, steps[3]));
    moves', w' := moves' + [Move(0, steps[3])], Take(w', steps[3], 0);
    Extended(moves', w', Move(0, steps[4]));
    moves', w' := moves' + [Move(0, steps[4])], Take(w', steps[4], 0);
    assert Attachments.MarkRows([row], row.id, row.owner, 0) == [Attachments.Marked(row, row.id, row.owner, 0)];
    assert row in [row];
  }
}
