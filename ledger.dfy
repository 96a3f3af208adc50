/** The tenancy ledger: the `pg_assignments` history with its `isActive` flag, and
    the roomId/pgId fields kept on each tenant. Each write the three assignment handlers
    perform is one function here, so that the handlers' contracts and the lemmas
    about sequences of handler calls speak about the same values. */
module Ledger {
  import opened Base
  import opened Calendar
  import opened Tables
  import opened Records

  predicate ActiveFor(a: Assignment, tenantId: Id)
  {
    a.tenantId == tenantId && a.isActive
  }

  /** How many records of the tenant are marked active. */
  function ActiveCount(s: seq<Assignment>, tenantId: Id): nat
  {
    if s == [] then 0
    else ActiveCount(s[..|s| - 1], tenantId) + (if ActiveFor(s[|s| - 1], tenantId) then 1 else 0)
  }

  lemma {:induction false} ActiveCountAppend(s: seq<Assignment>, t: seq<Assignment>, tenantId: Id)
    ensures ActiveCount(s + t, tenantId) == ActiveCount(s, tenantId) + ActiveCount(t, tenantId)
  {
    if t == [] {
      assert s + t == s;
    } else {
      assert (s + t)[..|s + t| - 1] == s + t[..|t| - 1];
      ActiveCountAppend(s, t[..|t| - 1], tenantId);
    }
  }

  lemma {:induction false} NoActiveMeansZero(s: seq<Assignment>, tenantId: Id)
    requires forall i :: 0 <= i < |s| ==> !ActiveFor(s[i], tenantId)
    ensures ActiveCount(s, tenantId) == 0
  {
    if s != [] {
      NoActiveMeansZero(s[..|s| - 1], tenantId);
    }
  }

  /** The `$set: { isActive: false, endDate: now }` of the deactivating `updateMany`, on one record. */
  function Closed(a: Assignment, tenantId: Id, now: Date): (r: Assignment)
    ensures r.tenantId == a.tenantId && r.roomId == a.roomId && r.pgId == a.pgId
    ensures r.rent == a.rent && r.startDate == a.startDate
    ensures !ActiveFor(r, tenantId)
    ensures ActiveFor(a, tenantId) ==> r.endDate == Some(now)
    ensures !ActiveFor(a, tenantId) ==> r == a
  {
    if ActiveFor(a, tenantId) then a.(isActive := false, endDate := Some(now)) else a
  }

  /** `updateMany({ tenantId, isActive: true }, { $set: { isActive: false, endDate: now } })`. */
  function DeactivateAll(s: seq<Assignment>, tenantId: Id, now: Date): (r: seq<Assignment>)
    ensures |r| == |s| && forall i :: 0 <= i < |s| ==> r[i] == Closed(s[i], tenantId, now)
  {
    Map(s, (a: Assignment) => Closed(a, tenantId, now))
  }

  /** The record the handlers insert: active from `now`, rent `Number(rent)`, no end date. */
  function Opened(tenantId: Id, roomId: Id, pgId: Id, rent: JsonValue, now: Date): (a: Assignment)
    ensures ActiveFor(a, tenantId) && a.endDate == None && a.startDate == now
    ensures a.roomId == roomId && a.pgId == pgId && a.rent == ToNumber(rent)
  {
    Assignment(tenantId, roomId, pgId, ToNumber(rent), now, true, None)
  }

  /** The ledger after a room upgrade: every active record of the tenant closed, then one new active record. */
  function Upgraded(s: seq<Assignment>, tenantId: Id, roomId: Id, pgId: Id, rent: JsonValue, now: Date): (r: seq<Assignment>)
    ensures |r| == |s| + 1
    ensures forall i :: 0 <= i < |s| ==> !ActiveFor(r[i], tenantId)
    ensures forall i :: 0 <= i < |s| && r[i] != s[i] ==> ActiveFor(s[i], tenantId) && r[i].endDate == Some(now)
    ensures ActiveFor(r[|s|], tenantId) && r[|s|].roomId == roomId && r[|s|].pgId == pgId && r[|s|].startDate == now
  {
    DeactivateAll(s, tenantId, now) + [Opened(tenantId, roomId, pgId, rent, now)]
  }

  /** The `$set: { roomId, pgId }` of the tenant `updateOne`, on one tenant. */
  function PointedAt(t: Tenant, roomId: Id, pgId: Id): (r: Tenant)
    ensures r.roomId == Some(roomId) && r.pgId == pgId
    ensures r.id == t.id && r.name == t.name && r.mobile == t.mobile && r.address == t.address
    ensures r.password == t.password && r.createdAt == t.createdAt
  {
    t.(roomId := Some(roomId), pgId := pgId)
  }

  /** The tenants after `updateOne({ _id: tenantId }, { $set: { roomId, pgId } })`. */
  function Repointed(tenants: seq<Tenant>, tenantId: Id, roomId: Id, pgId: Id): (r: seq<Tenant>)
    ensures |r| == |tenants|
    ensures KeyAbsent(tenants, TenantKey, tenantId) ==> r == tenants
    ensures forall i :: 0 <= i < |r| ==> r[i].id == tenants[i].id
    ensures forall i :: 0 <= i < |r| && r[i] != tenants[i] ==>
      tenants[i].id == tenantId && r[i] == tenants[i].(roomId := Some(roomId), pgId := pgId)
  {
    UpdateFirst(tenants, TenantKey, tenantId, (t: Tenant) => PointedAt(t, roomId, pgId))
  }

  /** Repointing changes exactly the tenant with that id, and only its room and PG fields;
      it keeps tenant ids unique. */
  lemma RepointedOnly(tenants: seq<Tenant>, tenantId: Id, roomId: Id, pgId: Id)
    requires UniqueKeys(tenants, TenantKey)
    ensures |Repointed(tenants, tenantId, roomId, pgId)| == |tenants|
    ensures forall j :: 0 <= j < |tenants| ==>
      Repointed(tenants, tenantId, roomId, pgId)[j] == if tenants[j].id == tenantId then PointedAt(tenants[j], roomId, pgId) else tenants[j]
    ensures UniqueKeys(Repointed(tenants, tenantId, roomId, pgId), TenantKey)
  {
    UpdateOnly(tenants, TenantKey, tenantId, (t: Tenant) => PointedAt(t, roomId, pgId));
    UpdateKeepsUnique(tenants, TenantKey, tenantId, (t: Tenant) => PointedAt(t, roomId, pgId));
  }

  // ---- What the writes do to the ledger ----

  /** After the deactivating `updateMany` the tenant has no active record. Only `isActive`
      and `endDate` change, and records of other tenants are untouched. */
  lemma DeactivateAllCloses(s: seq<Assignment>, tenantId: Id, now: Date)
    ensures ActiveCount(DeactivateAll(s, tenantId, now), tenantId) == 0
    ensures forall i :: 0 <= i < |s| && s[i].tenantId != tenantId ==> DeactivateAll(s, tenantId, now)[i] == s[i]
    ensures forall i :: 0 <= i < |s| && ActiveFor(s[i], tenantId) ==>
      DeactivateAll(s, tenantId, now)[i] == s[i].(isActive := false, endDate := Some(now))
  {
    NoActiveMeansZero(DeactivateAll(s, tenantId, now), tenantId);
  }

  /** After an upgrade the tenant has exactly one active record, the last one, and it points
      at the new room and PG. */
  lemma UpgradeLeavesOneActive(s: seq<Assignment>, tenantId: Id, roomId: Id, pgId: Id, rent: JsonValue, now: Date)
    ensures ActiveCount(Upgraded(s, tenantId, roomId, pgId, rent, now), tenantId) == 1
    ensures forall i :: 0 <= i < |s| ==> !ActiveFor(Upgraded(s, tenantId, roomId, pgId, rent, now)[i], tenantId)
    ensures Upgraded(s, tenantId, roomId, pgId, rent, now)[|s|] == Opened(tenantId, roomId, pgId, rent, now)
  {
    var d := DeactivateAll(s, tenantId, now);
    var o := Opened(tenantId, roomId, pgId, rent, now);
    DeactivateAllCloses(s, tenantId, now);
    ActiveCountAppend(d, [o], tenantId);
    assert [o][..0] == [];
  }

  /** An upgrade does not change any other tenant's number of active records. */
  lemma {:induction false} UpgradeLeavesOthers(s: seq<Assignment>, tenantId: Id, other: Id, roomId: Id, pgId: Id,
                                               rent: JsonValue, now: Date)
    requires other != tenantId
    ensures ActiveCount(DeactivateAll(s, tenantId, now), other) == ActiveCount(s, other)
    ensures ActiveCount(Upgraded(s, tenantId, roomId, pgId, rent, now), other) == ActiveCount(s, other)
  {
    var d := DeactivateAll(s, tenantId, now);
    if s != [] {
      UpgradeLeavesOthers(s[..|s| - 1], tenantId, other, roomId, pgId, rent, now);
      assert d[..|d| - 1] == DeactivateAll(s[..|s| - 1], tenantId, now);
    }
    var o := Opened(tenantId, roomId, pgId, rent, now);
    ActiveCountAppend(d, [o], other);
    assert [o][..0] == [];
  }

  /** Upgrading again keeps the count at one: the invariant survives any number of upgrades. */
  lemma UpgradeTwice(s: seq<Assignment>, tenantId: Id, room1: Id, pg1: Id, rent1: JsonValue, now1: Date,
                     room2: Id, pg2: Id, rent2: JsonValue, now2: Date)
    ensures ActiveCount(Upgraded(Upgraded(s, tenantId, room1, pg1, rent1, now1), tenantId, room2, pg2, rent2, now2), tenantId) == 1
  {
    UpgradeLeavesOneActive(Upgraded(s, tenantId, room1, pg1, rent1, now1), tenantId, room2, pg2, rent2, now2);
  }

  /** The assigning path only appends: it adds one active record and closes none. */
  lemma AssignAddsActive(s: seq<Assignment>, tenantId: Id, roomId: Id, pgId: Id, rent: JsonValue, now: Date)
    ensures ActiveCount(s + [Opened(tenantId, roomId, pgId, rent, now)], tenantId) == ActiveCount(s, tenantId) + 1
  {
    var o := Opened(tenantId, roomId, pgId, rent, now);
    ActiveCountAppend(s, [o], tenantId);
    assert [o][..0] == [];
  }

  /** An assignment after an upgrade leaves the tenant with two active records: the
      one-active invariant of the upgrade path does not hold across the assigning path. */
  lemma AssignAfterUpgradeBreaksInvariant(s: seq<Assignment>, tenantId: Id, room1: Id, pg1: Id, rent1: JsonValue, now1: Date,
                                          room2: Id, pg2: Id, rent2: JsonValue, now2: Date)
    ensures ActiveCount(Upgraded(s, tenantId, room1, pg1, rent1, now1) + [Opened(tenantId, room2, pg2, rent2, now2)], tenantId) == 2
  {
    UpgradeLeavesOneActive(s, tenantId, room1, pg1, rent1, now1);
    AssignAddsActive(Upgraded(s, tenantId, room1, pg1, rent1, now1), tenantId, room2, pg2, rent2, now2);
  }
}
