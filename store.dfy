/** The `licenses` table as an object updated in place: its rows keyed by
    id and the AUTOINCREMENT counter that hands out the next id. */
module Store {
  import opened Licenses

  /** A row as `get_all_licenses` selects it: id, user name, address,
      expiry and active flag. */
  datatype Listing = Listing(id: int, userName: string, ipAddress: string, expireDate: int, active: int)

  function ListingOf(l: License): Listing
  {
    Listing(l.id, l.userName, l.ipAddress, l.expireDate, l.active)
  }

  class LicenseTable {
    var rows: map<int, License>
    var nextId: int

    ghost predicate Valid()
      reads this
    {
      ValidTable(rows, nextId)
    }

    /** `init_db` on a fresh database: the table exists and is empty. */
    constructor ()
      ensures Valid()
      ensures rows == map[] && nextId == 1
    {
      rows := map[];
      nextId := 1;
    }

    /** `add_license`: inserts one row under an id never used before, issued
        `today`, active, with no IP changes, expiring `durationDays` later.
        Every row already there is unchanged. */
    method Add(userName: string, ipAddress: string, today: int, durationDays: int) returns (id: int)
      requires Valid()
      modifies this
      ensures Valid()
      ensures id == old(nextId) && id !in old(rows) && nextId == old(nextId) + 1
      ensures rows == old(rows)[id := NewLicense(id, userName, ipAddress, today, durationDays)]
      ensures forall k :: k in old(rows) ==> k in rows && rows[k] == old(rows)[k]
      ensures |rows| == |old(rows)| + 1
    {
      id := nextId;
      rows := rows[id := NewLicense(id, userName, ipAddress, today, durationDays)];
      nextId := nextId + 1;
    }

    /** `get_license_by_id`: the stored row for a known id, None otherwise. */
    function Get(id: int): (r: Option<License>)
      reads this
      requires Valid()
      ensures r.Some? <==> 1 <= id < nextId
      ensures r.Some? ==> r.value.id == id && r.value == rows[id]
    {
      if id in rows then Some(rows[id]) else None
    }

    /** All rows in id order, one per license, active or not. */
    function Rows(): (r: seq<License>)
      reads this
      requires Valid()
      ensures |r| == nextId - 1
      ensures forall k :: 0 <= k < |r| ==> r[k] == rows[k + 1] && r[k].id == k + 1
    {
      TableRowsInIdOrder(rows, nextId);
      TableRows(rows, nextId)
    }

    /** `get_all_licenses`: one listing per license, in id order. */
    function AllLicenses(): (r: seq<Listing>)
      reads this
      requires Valid()
      ensures |r| == nextId - 1
      ensures forall id :: id in rows ==> r[id - 1] == ListingOf(rows[id])
    {
      var all := Rows();
      seq(|all|, k requires 0 <= k < |all| => ListingOf(all[k]))
    }

    /** `update_license_expire`: an existing license's expiry moves by
        exactly `extraDays`, active or not; an unknown id changes nothing. */
    method Extend(id: int, extraDays: int)
      requires Valid()
      modifies this
      ensures Valid() && nextId == old(nextId)
      ensures rows == Extended(old(rows), id, extraDays)
    {
      var row := Get(id);
      if row.Some? {
        rows := rows[id := row.value.(expireDate := row.value.expireDate + extraDays)];
      }
    }

    /** `deactivate_license`: sets that license's flag to 0; an unknown id
        changes nothing. */
    method Deactivate(id: int)
      requires Valid()
      modifies this
      ensures Valid() && nextId == old(nextId)
      ensures rows == Deactivated(old(rows), id)
    {
      if id in rows {
        rows := rows[id := rows[id].(active := 0)];
      }
    }

    /** `increment_ip_change`: raises that license's IP-change counter by
        one; an unknown id changes nothing. */
    method IncrementIpChange(id: int)
      requires Valid()
      modifies this
      ensures Valid() && nextId == old(nextId)
      ensures rows == IpChangeIncremented(old(rows), id)
    {
      if id in rows {
        rows := rows[id := rows[id].(changeIpCount := rows[id].changeIpCount + 1)];
      }
    }
  }

  /** What callers can conclude from the contracts alone: a new license is
      found by its id with its full term left on the day of issue; after two
      extensions and a deactivation it is still there, inactive, with both
      extensions counted; deactivating again changes nothing. */
  method LicenseLifecycle(today: int)
  {
    var table := new LicenseTable();
    var first := table.Add("alice", "1.2.3.4", today, 30);
    var id := table.Add("bob", "5.6.7.8", today, 10);
    assert id != first;
    var got := table.Get(id);
    assert got.Some? && got.value.active == 1 && DaysLeft(got.value, today) == 10;
    table.Extend(id, 5);
    table.Deactivate(id);
    table.Extend(id, 7);
    var before := table.rows;
    table.Deactivate(id);
    assert table.rows == before;
    table.IncrementIpChange(id);
    got := table.Get(id);
    assert got.Some? && got.value.active == 0 && got.value.changeIpCount == 1;
    assert DaysLeft(got.value, today) == 22 && DaysLeft(got.value, today + 23) == -1;
    assert table.Get(first) == Some(NewLicense(first, "alice", "1.2.3.4", today, 30));
    assert table.Get(table.nextId) == None;
  }
}
