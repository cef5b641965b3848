/**
 The server's one-time prekey table (server/upm-server/src/db.rs:592-658): publication
 ignores known identifiers, a claim marks one row and hands it out.
 */
module Prekeys {
  import opened Wrappers
  import opened ServerTables

  datatype Entry = Entry(id: PrekeyId, publicKey: string, signature: string)

  type Rows = map<PrekeyId, Prekey>

  /** `INSERT OR IGNORE`, entry by entry. */
  function InsertAll(rows: Rows, d: DeviceId, entries: seq<Entry>, now: Time): Rows
    decreases |entries|
  {
    if entries == [] then rows
    else
      var e := entries[0];
      InsertAll(if e.id in rows then rows else rows[e.id := Prekey(d, e.publicKey, e.signature, now, None)],
                d, entries[1..], now)
  }

  function Publish(t: Tables, d: DeviceId, entries: seq<Entry>, now: Time): (r: (Tables, Result<int, DbError>))
    ensures r.0 == t.(prekeys := r.0.prekeys)
  {
    if d !in t.devices then (t, Failure(DeviceNotFound))
    else
      var rows := InsertAll(t.prekeys, d, entries, now);
      (t.(prekeys := rows), Success(|rows| - |t.prekeys|))
  }

  predicate Unclaimed(rows: Rows, d: DeviceId, p: PrekeyId) {
    p in rows && rows[p].device == d && rows[p].claimedAt.None?
  }

  /** The rows `ORDER BY created_at ASC LIMIT 1` may return; among equals any one. */
  ghost predicate IsOldest(rows: Rows, d: DeviceId, p: PrekeyId) {
    && Unclaimed(rows, d, p)
    && forall q :: Unclaimed(rows, d, q) ==> rows[p].createdAt <= rows[q].createdAt
  }

  /** What a claim may answer. */
  ghost predicate MayClaim(rows: Rows, d: DeviceId, choice: Option<PrekeyId>) {
    match choice
    case Some(p) => IsOldest(rows, d, p)
    case None => forall p :: !Unclaimed(rows, d, p)
  }

  function Claim(t: Tables, choice: Option<PrekeyId>, now: Time): (r: Tables)
    ensures r == t.(prekeys := r.prekeys)
  {
    if choice.Some? && choice.value in t.prekeys then
      t.(prekeys := t.prekeys[choice.value := t.prekeys[choice.value].(claimedAt := Some(now))])
    else t
  }

  /** A published batch leaves every known row as it was, claimed or not, and adds the first entry of each new id. */
  lemma {:induction false} PublishedRow(rows: Rows, d: DeviceId, entries: seq<Entry>, now: Time, p: PrekeyId)
    ensures var after := InsertAll(rows, d, entries, now);
            && (p in after <==> p in rows || exists i :: 0 <= i < |entries| && entries[i].id == p)
            && (p in rows ==> after[p] == rows[p])
            && (p in after && p !in rows ==>
                  exists i :: 0 <= i < |entries| && entries[i].id == p
                              && (forall j :: 0 <= j < i ==> entries[j].id != p)
                              && after[p] == Prekey(d, entries[i].publicKey, entries[i].signature, now, None))
    decreases |entries|
  {
    if entries != [] {
      var e := entries[0];
      var next := if e.id in rows then rows else rows[e.id := Prekey(d, e.publicKey, e.signature, now, None)];
      PublishedRow(next, d, entries[1..], now, p);
      assert forall i :: 0 < i < |entries| ==> entries[i] == entries[1..][i - 1];
      if p in InsertAll(rows, d, entries, now) && p !in rows {
        if e.id == p {
          assert entries[0].id == p;
        } else {
          var i :| 0 <= i < |entries| - 1 && entries[1..][i].id == p
                   && (forall j :: 0 <= j < i ==> entries[1..][j].id != p)
                   && InsertAll(rows, d, entries, now)[p]
                      == Prekey(d, entries[1..][i].publicKey, entries[1..][i].signature, now, None);
          assert entries[i + 1].id == p;
          assert forall j :: 0 < j < i + 1 ==> entries[j].id == entries[1..][j - 1].id;
        }
      }
    }
  }

  /** Publishing the same batch again does nothing, even after some of it has been claimed. */
  lemma {:induction false} RepublishAddsNothing(rows: Rows, d: DeviceId, entries: seq<Entry>, now: Time)
    requires forall i :: 0 <= i < |entries| ==> entries[i].id in rows
    ensures InsertAll(rows, d, entries, now) == rows
    decreases |entries|
  {
    if entries != [] {
      assert entries[0].id in rows;
      assert forall i :: 0 <= i < |entries[1..]| ==> entries[1..][i] == entries[i + 1];
      RepublishAddsNothing(rows, d, entries[1..], now);
    }
  }

  // ---- what publication promises ------------------------------------------------------------

  /** The identifiers of a batch that the table does not know. */
  function NewIds(rows: Rows, entries: seq<Entry>): set<PrekeyId> {
    set i | 0 <= i < |entries| && entries[i].id !in rows :: entries[i].id
  }

  lemma InsertedKeys(rows: Rows, d: DeviceId, entries: seq<Entry>, now: Time)
    ensures var after := InsertAll(rows, d, entries, now);
            && after.Keys == rows.Keys + NewIds(rows, entries) && |after| == |rows| + |NewIds(rows, entries)|
  {
    var after := InsertAll(rows, d, entries, now);
    forall p
      ensures p in after.Keys <==> p in rows.Keys + NewIds(rows, entries)
    {
      PublishedRow(rows, d, entries, now, p);
    }
    assert rows.Keys !! NewIds(rows, entries);
  }

  /** An unclaimed row for the first entry with its identifier. */
  ghost predicate IsNewRow(row: Prekey, d: DeviceId, entries: seq<Entry>, now: Time, p: PrekeyId) {
    exists i ::
      && 0 <= i < |entries| && entries[i].id == p && (forall j :: 0 <= j < i ==> entries[j].id != p)
      && row == Prekey(d, entries[i].publicKey, entries[i].signature, now, None)
  }

  /**
   A known device's batch: rows are there that were there, unchanged, and one for each new identifier; the answer
   is how many identifiers were new. An unknown device is refused and changes nothing.
   */
  lemma Published(t: Tables, d: DeviceId, entries: seq<Entry>, now: Time)
    ensures var (t', r) := Publish(t, d, entries, now);
            && t' == t.(prekeys := t'.prekeys)
            && (d !in t.devices ==> t' == t && r == Failure(DeviceNotFound))
            && (d in t.devices ==>
                  && r == Success(|NewIds(t.prekeys, entries)|)
                  && (forall p :: p in t'.prekeys <==> p in t.prekeys || p in NewIds(t.prekeys, entries))
                  && (forall p :: p in t.prekeys ==> t'.prekeys[p] == t.prekeys[p])
                  && (forall p :: p in NewIds(t.prekeys, entries) ==> IsNewRow(t'.prekeys[p], d, entries, now, p)))
  {
    if d in t.devices {
      var after := InsertAll(t.prekeys, d, entries, now);
      InsertedKeys(t.prekeys, d, entries, now);
      forall p | p in after
        ensures p in t.prekeys ==> after[p] == t.prekeys[p]
        ensures p !in t.prekeys ==> IsNewRow(after[p], d, entries, now, p)
      {
        PublishedRow(t.prekeys, d, entries, now, p);
      }
    }
  }

  /** What a device publishes when it has nothing left is what the next claim hands out. */
  lemma PublishedIsClaimed(t: Tables, d: DeviceId, entries: seq<Entry>, now: Time, choice: Option<PrekeyId>)
    requires d in t.devices && forall p :: !Unclaimed(t.prekeys, d, p)
    requires MayClaim(Publish(t, d, entries, now).0.prekeys, d, choice)
    ensures if NewIds(t.prekeys, entries) == {} then choice == None
            else choice.Some? && choice.value in NewIds(t.prekeys, entries)
  {
    var rows := Publish(t, d, entries, now).0.prekeys;
    Published(t, d, entries, now);
    hide Publish;
    forall p
      ensures Unclaimed(rows, d, p) <==> p in NewIds(t.prekeys, entries)
    {
      assert !Unclaimed(t.prekeys, d, p);
    }
    if p :| p in NewIds(t.prekeys, entries) {
      assert Unclaimed(rows, d, p);
    }
  }

  /** What was published earlier is handed out first. */
  lemma EarlierIsClaimedFirst(t: Tables, d: DeviceId, entries: seq<Entry>, now: Time, choice: Option<PrekeyId>)
    requires d in t.devices && forall p :: Unclaimed(t.prekeys, d, p) ==> t.prekeys[p].createdAt < now
    requires exists p :: Unclaimed(t.prekeys, d, p)
    requires MayClaim(Publish(t, d, entries, now).0.prekeys, d, choice)
    ensures choice.Some? && Unclaimed(t.prekeys, d, choice.value)
  {
    var rows := Publish(t, d, entries, now).0.prekeys;
    Published(t, d, entries, now);
    hide Publish;
    var p :| Unclaimed(t.prekeys, d, p);
    assert Unclaimed(rows, d, p);
    if choice.Some? && choice.value in NewIds(t.prekeys, entries) {
      assert false;
    }
  }
}
