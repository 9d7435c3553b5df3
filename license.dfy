/** Rows of the `licenses` table and the pure effect of each store operation
    on the table, seen as a map from the auto-increment id to its row.
    Dates are day numbers (days since any fixed epoch). */
module Licenses {

  datatype Option<+T> = None | Some(value: T)

  /** One row of the `licenses` table, with its seven columns in schema order.
      `active` is the SQLite INTEGER column: 1 while the license is active,
      0 once it is deactivated. */
  datatype License = License(
    id: int,
    userName: string,
    ipAddress: string,
    startDate: int,
    expireDate: int,
    active: int,
    changeIpCount: int)

  /** The row `add_license` inserts on day `today`: `active` written as 1,
      `change_ip_count` left to its column default 0, and the expiry
      `duration` days after the start. */
  function NewLicense(id: int, userName: string, ipAddress: string, today: int, duration: int): (r: License)
    ensures r.id == id && r.userName == userName && r.ipAddress == ipAddress
    ensures r.startDate == today && r.active == 1 && r.changeIpCount == 0
    ensures DaysLeft(r, today) == duration
  {
    License(id, userName, ipAddress, today, today + duration, 1, 0)
  }

  /** Signed whole days from `today` to the expiry: negative once expired,
      zero on the expiry day, never clamped. */
  function DaysLeft(l: License, today: int): (r: int)
    ensures r < 0 <==> l.expireDate < today
    ensures r == 0 <==> l.expireDate == today
    ensures today + r == l.expireDate
  {
    l.expireDate - today
  }

  /** The table invariant: every stored row sits under its own id, ids start
      at 1, lie below the next id to hand out, and none is ever missing
      (rows are never deleted). */
  ghost predicate ValidTable(m: map<int, License>, nextId: int)
  {
    && 1 <= nextId
    && (forall id :: id in m ==> 1 <= id < nextId && m[id].id == id)
    && (forall id :: 1 <= id < nextId ==> id in m)
  }

  /** `update_license_expire`: moves the expiry of row `id` by `extraDays`,
      whatever its `active` flag; an unknown id leaves the table as it is. */
  function Extended(m: map<int, License>, id: int, extraDays: int): (r: map<int, License>)
    ensures r.Keys == m.Keys
    ensures forall k :: k in m && k != id ==> r[k] == m[k]
    ensures id in m ==> r[id] == m[id].(expireDate := m[id].expireDate + extraDays)
    ensures id !in m ==> r == m
  {
    if id in m then m[id := m[id].(expireDate := m[id].expireDate + extraDays)] else m
  }

  /** `deactivate_license`: sets `active` of row `id` to 0; an unknown id
      leaves the table as it is. */
  function Deactivated(m: map<int, License>, id: int): (r: map<int, License>)
    ensures r.Keys == m.Keys
    ensures forall k :: k in m && k != id ==> r[k] == m[k]
    ensures id in m ==> r[id] == m[id].(active := 0)
    ensures id !in m ==> r == m
  {
    if id in m then m[id := m[id].(active := 0)] else m
  }

  /** `increment_ip_change`: adds one to `change_ip_count` of row `id`,
      leaving its address, dates and flag alone; an unknown id leaves the
      table as it is. */
  function IpChangeIncremented(m: map<int, License>, id: int): (r: map<int, License>)
    ensures r.Keys == m.Keys
    ensures forall k :: k in m && k != id ==> r[k] == m[k]
    ensures id in m ==> r[id] == m[id].(changeIpCount := m[id].changeIpCount + 1)
    ensures id !in m ==> r == m
  {
    if id in m then m[id := m[id].(changeIpCount := m[id].changeIpCount + 1)] else m
  }

  /** The rows with ids 1 .. hi - 1 in ascending id order: the order
      SQLite's full scan of a rowid table produces (the queries themselves
      have no `ORDER BY`). */
  function TableRows(m: map<int, License>, hi: int): seq<License>
    decreases hi
  {
    if hi <= 1 then [] else TableRows(m, hi - 1) + (if hi - 1 in m then [m[hi - 1]] else [])
  }

  /** On a valid table the full scan holds each row once, row k being the
      one with id k + 1. */
  lemma {:induction false} TableRowsInIdOrder(m: map<int, License>, nextId: int)
    requires ValidTable(m, nextId)
    ensures |TableRows(m, nextId)| == nextId - 1
    ensures forall k :: 0 <= k < nextId - 1 ==> TableRows(m, nextId)[k] == m[k + 1]
  {
    if nextId > 1 {
      var sub := m - {nextId - 1};
      assert ValidTable(sub, nextId - 1);
      TableRowsInIdOrder(sub, nextId - 1);
      TableRowsIgnoresHigherIds(m, sub, nextId - 1);
    }
  }

  /** The scan below `hi` only looks at ids below `hi`. */
  lemma {:induction false} TableRowsIgnoresHigherIds(m: map<int, License>, m': map<int, License>, hi: int)
    requires forall id :: id < hi ==> (id in m <==> id in m')
    requires forall id :: id < hi && id in m ==> m[id] == m'[id]
    ensures TableRows(m, hi) == TableRows(m', hi)
    decreases hi
  {
    if hi > 1 {
      TableRowsIgnoresHigherIds(m, m', hi - 1);
    }
  }

  /** Running every extension in `ds` one after another on row `id`. */
  function ExtendedBy(m: map<int, License>, id: int, ds: seq<int>): map<int, License>
    decreases |ds|
  {
    if ds == [] then m else ExtendedBy(Extended(m, id, ds[0]), id, ds[1..])
  }

  function Sum(ds: seq<int>): int
    decreases |ds|
  {
    if ds == [] then 0 else ds[0] + Sum(ds[1..])
  }

  /** Extensions are additive: two in a row equal one by the sum. */
  lemma ExtendTwice(m: map<int, License>, id: int, a: int, b: int)
    ensures Extended(Extended(m, id, a), id, b) == Extended(m, id, a + b)
  {
  }

  /** Any sequence of extensions equals one extension by their total. */
  lemma {:induction false} ExtendedBySum(m: map<int, License>, id: int, ds: seq<int>)
    ensures ExtendedBy(m, id, ds) == Extended(m, id, Sum(ds))
    decreases |ds|
  {
    if ds != [] {
      ExtendedBySum(Extended(m, id, ds[0]), id, ds[1..]);
      ExtendTwice(m, id, ds[0], Sum(ds[1..]));
    } else {
      assert Extended(m, id, 0) == m;
    }
  }

  /** Deactivating twice leaves the same table as deactivating once. */
  lemma DeactivateIdempotent(m: map<int, License>, id: int)
    ensures Deactivated(Deactivated(m, id), id) == Deactivated(m, id)
  {
  }

  /** After any extensions the days left on any day moved by exactly their
      total, and a deactivated license can still be extended. */
  lemma {:induction false} DaysLeftAfterExtensions(m: map<int, License>, id: int, ds: seq<int>, today: int)
    requires id in m
    ensures id in ExtendedBy(m, id, ds)
    ensures DaysLeft(ExtendedBy(m, id, ds)[id], today) == DaysLeft(m[id], today) + Sum(ds)
    ensures ExtendedBy(m, id, ds)[id].active == m[id].active
  {
    ExtendedBySum(m, id, ds);
  }

  /** The table operations keep the table invariant. */
  lemma OperationsKeepValid(m: map<int, License>, nextId: int, id: int, d: int)
    requires ValidTable(m, nextId)
    ensures ValidTable(Extended(m, id, d), nextId)
    ensures ValidTable(Deactivated(m, id), nextId)
    ensures ValidTable(IpChangeIncremented(m, id), nextId)
  {
  }
}
