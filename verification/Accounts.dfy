/**
 Account creation and deletion (server/upm-server/src/db.rs:223-263, 345-416), as functions
 on the tables, and what they keep, return and undo.
 */
module Accounts {
  import opened Wrappers
  import opened ServerTables

  /** The three random identifiers drawn for an account. */
  datatype NewIds = NewIds(user: UserId, upm: string, device: DeviceId)

  predicate NameTaken(users: map<UserId, User>, normalized: string) {
    exists u :: u in users && users[u].normalized == normalized
  }

  /** The inserts would break a key constraint: an identifier is not new. */
  predicate IdsCollide(t: Tables, username: string, ids: NewIds) {
    || ids.user in t.users
    || ids.device in t.devices
    || exists u :: u in t.users && (t.users[u].upmId == ids.upm || t.users[u].username == username)
  }

  function Register(t: Tables, username: string, key: IdentityKey, ids: NewIds, now: Time)
    : (r: (Tables, Result<NewIds, DbError>))
    ensures r.0 == t.(users := r.0.users, devices := r.0.devices)
  {
    if NameTaken(t.users, Lower(username)) then (t, Failure(UsernameTaken))
    else if IdsCollide(t, username, ids) then (t, Failure(ConstraintViolation))
    else
      (t.(users := t.users[ids.user := User(ids.upm, username, Lower(username), now)],
          devices := t.devices[ids.device := Device(ids.user, key)]),
       Success(ids))
  }

  function DevicesOf(t: Tables, u: UserId): set<DeviceId> {
    set d | d in t.devices && t.devices[d].user == u
  }

  /** The tables without the rows of a set of devices, whose own rows stay. */
  function WithoutRowsOf(t: Tables, ds: set<DeviceId>): Tables {
    t.(prekeys := map p | p in t.prekeys && t.prekeys[p].device !in ds :: t.prekeys[p],
       envelopes := map m | m in t.envelopes && t.envelopes[m].sender !in ds && t.envelopes[m].recipient !in ds
                      :: t.envelopes[m],
       attachments := Select(t.attachments, Not(OwnerIn(ds))),
       challenges := t.challenges - ds,
       sessions := map h | h in t.sessions && t.sessions[h].device !in ds :: t.sessions[h])
  }

  function AdminDelete(t: Tables, u: UserId): Tables {
    var ds := DevicesOf(t, u);
    WithoutRowsOf(t, ds).(devices := t.devices - ds, users := t.users - {u})
  }

  /** Blob names of the attachment rows that deleting `u` removes. */
  function KeysOwnedBy(t: Tables, ds: set<DeviceId>): seq<StorageKey> {
    KeysOf(Select(t.attachments, OwnerIn(ds)))
  }

  // ---- one device after another ------------------------------------------------------------

  lemma NoDevices(t: Tables)
    ensures WithoutRowsOf(t, {}) == t && KeysOwnedBy(t, {}) == []
  {
    SelectAll(t.attachments, Not(OwnerIn({})));
    SelectNone(t.attachments, OwnerIn({}));
    var w := WithoutRowsOf(t, {});
    assert w.prekeys == t.prekeys && w.envelopes == t.envelopes && w.sessions == t.sessions;
    assert w.challenges == t.challenges;
  }

  lemma OneDevice(t: Tables, d: DeviceId, after: Tables)
    requires after.users == t.users && after.devices == t.devices
    requires after.prekeys == map p | p in t.prekeys && t.prekeys[p].device != d :: t.prekeys[p]
    requires after.envelopes
          == map m | m in t.envelopes && t.envelopes[m].sender != d && t.envelopes[m].recipient != d :: t.envelopes[m]
    requires after.sessions == map h | h in t.sessions && t.sessions[h].device != d :: t.sessions[h]
    requires after.challenges == t.challenges - {d}
    requires after.attachments == Select(t.attachments, Not(OwnerIn({d})))
    ensures after == WithoutRowsOf(t, {d})
  {
  }

  lemma NextDeviceRows(t: Tables, done: set<DeviceId>, d: DeviceId)
    ensures WithoutRowsOf(WithoutRowsOf(t, done), {d}) == WithoutRowsOf(t, done + {d})
  {
    var one, both := WithoutRowsOf(WithoutRowsOf(t, done), {d}), WithoutRowsOf(t, done + {d});
    SelectTwice(t.attachments, Not(OwnerIn(done)), Not(OwnerIn({d})));
    forall a: Attachment
      ensures Matches(Both(Not(OwnerIn(done)), Not(OwnerIn({d}))), a) == Matches(Not(OwnerIn(done + {d})), a)
    {
      assert Matches(Not(OwnerIn(done)), a) == (a.owner !in done);
      assert Matches(Not(OwnerIn({d})), a) == (a.owner != d);
      assert Matches(OwnerIn(done + {d}), a) == (a.owner in done || a.owner == d);
    }
    SelectSame(t.attachments, Both(Not(OwnerIn(done)), Not(OwnerIn({d}))), Not(OwnerIn(done + {d})));
    assert one.prekeys == both.prekeys;
    assert one.envelopes == both.envelopes;
    assert one.challenges == both.challenges;
    assert one.sessions == both.sessions;
  }

  lemma {:induction false} NextDeviceKeys(rows: seq<Attachment>, done: set<DeviceId>, d: DeviceId)
    requires d !in done
    ensures multiset(KeysOf(Select(rows, OwnerIn(done + {d}))))
         == multiset(KeysOf(Select(rows, OwnerIn(done))))
          + multiset(KeysOf(Select(Select(rows, Not(OwnerIn(done))), OwnerIn({d}))))
  {
    if rows != [] {
      NextDeviceKeys(rows[1..], done, d);
      assert Matches(Not(OwnerIn(done)), rows[0]) == (rows[0].owner !in done);
    }
  }

  // ---- what registration and deletion promise -------------------------------------------

  /** With the constraints in force a name can be registered exactly when nobody has it in any spelling. */
  lemma RegistersExactlyFreeNames(t: Tables, username: string, key: IdentityKey, ids: NewIds, now: Time)
    requires Integrity(t)
    requires ids.user !in t.users && ids.device !in t.devices
    requires forall u :: u in t.users ==> t.users[u].upmId != ids.upm
    ensures Register(t, username, key, ids, now).1.Success?
            <==> forall u :: u in t.users ==> !SameSpelling(t.users[u].username, username)
    ensures Register(t, username, key, ids, now).1.Failure? ==>
              Register(t, username, key, ids, now) == (t, Failure(UsernameTaken))
  {
    forall u | u in t.users
      ensures Lower(t.users[u].username) == Lower(username) <==> SameSpelling(t.users[u].username, username)
    {
      LowerAlike(t.users[u].username, username);
    }
  }

  /** A registered account has the name as given, its own identifiers, and a device with the key it registered. */
  lemma RegisteredRows(t: Tables, username: string, key: IdentityKey, ids: NewIds, now: Time)
    requires Register(t, username, key, ids, now).1.Success?
    ensures var (t', r) := Register(t, username, key, ids, now);
            && r.value == ids && t' == t.(users := t'.users, devices := t'.devices)
            && t'.users.Keys == t.users.Keys + {ids.user} && t'.devices.Keys == t.devices.Keys + {ids.device}
            && (forall u :: u in t.users ==> t'.users[u] == t.users[u])
            && (forall d :: d in t.devices ==> t'.devices[d] == t.devices[d])
            && var user, device := t'.users[ids.user], t'.devices[ids.device];
               && user.username == username && user.upmId == ids.upm && user.createdAt == now
               && NameTaken(t'.users, Lower(username))
               && device.user == ids.user && device.identityKey == key
  {
  }

  lemma RegisterKeepsNames(t: Tables, username: string, key: IdentityKey, ids: NewIds, now: Time)
    requires UniqueNames(t.users)
    ensures UniqueNames(Register(t, username, key, ids, now).0.users)
  {
  }

  lemma RegisterKeepsReferences(t: Tables, username: string, key: IdentityKey, ids: NewIds, now: Time)
    requires References(t)
    ensures References(Register(t, username, key, ids, now).0)
  {
  }

  lemma RegisterKeepsIntegrity(t: Tables, username: string, key: IdentityKey, ids: NewIds, now: Time)
    requires Integrity(t)
    ensures Integrity(Register(t, username, key, ids, now).0)
  {
    hide UniqueNames, References, Register;
    RegisterKeepsNames(t, username, key, ids, now);
    RegisterKeepsReferences(t, username, key, ids, now);
  }

  lemma RemainingRows(rows: seq<Attachment>, ds: set<DeviceId>)
    ensures forall a :: a in Select(rows, Not(OwnerIn(ds))) <==> a in rows && a.owner !in ds
  {
    SelectMembers(rows, Not(OwnerIn(ds)));
    assert forall a :: Matches(Not(OwnerIn(ds)), a) <==> !Matches(OwnerIn(ds), a);
  }

  lemma DeleteKeepsIntegrity(t: Tables, u: UserId)
    requires Integrity(t)
    ensures Integrity(AdminDelete(t, u))
  {
    RemainingRows(t.attachments, DevicesOf(t, u));
  }

  /** Deletion makes the name, in any spelling, registrable by anyone with new identifiers. */
  lemma DeleteFreesName(t: Tables, u: UserId, username: string, key: IdentityKey, ids: NewIds, now: Time)
    requires Integrity(t) && u in t.users && Lower(username) == t.users[u].normalized
    requires ids.user !in t.users && ids.device !in t.devices
    requires forall v :: v in t.users ==> t.users[v].upmId != ids.upm
    ensures Register(t, username, key, ids, now).1 == Failure(UsernameTaken)
    ensures Register(AdminDelete(t, u), username, key, ids, now).1 == Success(ids)
  {
  }

  /** The returned keys are, with multiplicity, the blobs that lost their row: none missing, none extra. */
  lemma DeleteReturnsRemovedKeys(t: Tables, u: UserId)
    ensures multiset(KeysOf(t.attachments))
         == multiset(KeysOf(AdminDelete(t, u).attachments)) + multiset(KeysOwnedBy(t, DevicesOf(t, u)))
  {
    KeysSplit(t.attachments, OwnerIn(DevicesOf(t, u)));
  }

  lemma NoRowsOfStrangers(t: Tables, ds: set<DeviceId>)
    requires References(t) && ds !! t.devices.Keys
    ensures WithoutRowsOf(t, ds) == t
  {
    SelectAll(t.attachments, Not(OwnerIn(ds)));
    var w := WithoutRowsOf(t, ds);
    assert w.prekeys == t.prekeys;
    assert w.envelopes == t.envelopes;
    assert w.sessions == t.sessions;
    assert w.challenges == t.challenges;
  }

  /** Deleting an account just registered restores every table. */
  lemma DeleteUndoesRegister(t: Tables, username: string, key: IdentityKey, ids: NewIds, now: Time)
    requires Integrity(t) && Register(t, username, key, ids, now).1.Success?
    ensures AdminDelete(Register(t, username, key, ids, now).0, ids.user) == t
  {
    hide WithoutRowsOf, Register, Integrity;
    var user, device := User(ids.upm, username, Lower(username), now), Device(ids.user, key);
    Registered(t, username, key, ids, now);
    var t' := t.(users := t.users[ids.user := user], devices := t.devices[ids.device := device]);
    assert DevicesOf(t', ids.user) == {ids.device};
    NoRowsOfStrangers(t, {ids.device});
    WithoutRowsKeeps(t, t'.users, t'.devices, {ids.device});
    assert t'.devices - {ids.device} == t.devices;
    assert t'.users - {ids.user} == t.users;
  }

  lemma Registered(t: Tables, username: string, key: IdentityKey, ids: NewIds, now: Time)
    requires Integrity(t) && Register(t, username, key, ids, now).1.Success?
    ensures Register(t, username, key, ids, now).0
         == t.(users := t.users[ids.user := User(ids.upm, username, Lower(username), now)],
               devices := t.devices[ids.device := Device(ids.user, key)])
    ensures References(t) && ids.user !in t.users && ids.device !in t.devices
    ensures forall d :: d in t.devices ==> t.devices[d].user != ids.user
  {
  }

  lemma WithoutRowsKeeps(t: Tables, users: map<UserId, User>, devices: map<DeviceId, Device>, ds: set<DeviceId>)
    ensures WithoutRowsOf(t.(users := users, devices := devices), ds)
         == WithoutRowsOf(t, ds).(users := users, devices := devices)
  {
  }
}
