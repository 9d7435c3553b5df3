/** The two periodic reports. Each runs one SELECT over the table and then
    walks its rows, adding one line per row. Here both loops take every row
    of the table (what `LicenseTable.Rows` gives); the IP-change report's
    `WHERE active=1` becomes a test inside its loop. The lines are kept as
    entries instead of formatted text. */
module Reports {
  import opened Licenses

  /** One line of the IP-change report: user, address, change counter. */
  datatype IpChangeEntry = IpChangeEntry(userName: string, ipAddress: string, changeIpCount: int)

  /** One line of the status report: user, address, days left. */
  datatype StatusEntry = StatusEntry(userName: string, ipAddress: string, daysLeft: int)

  function IpChangeEntryOf(l: License): IpChangeEntry
  {
    IpChangeEntry(l.userName, l.ipAddress, l.changeIpCount)
  }

  /** The number of rows whose `active` is 1. */
  function ActiveCount(rows: seq<License>): nat
    decreases |rows|
  {
    if rows == [] then 0
    else ActiveCount(rows[..|rows| - 1]) + (if rows[|rows| - 1].active == 1 then 1 else 0)
  }

  /** The IP-change report's lines: the rows whose `active` is 1, each with
      its counter (their exact count and order are `IpChangeLinesExact`). */
  function IpChangeLines(rows: seq<License>): (r: seq<IpChangeEntry>)
    ensures |r| <= |rows|
    ensures forall k :: 0 <= k < |rows| && rows[k].active == 1 ==> IpChangeEntryOf(rows[k]) in r
    ensures forall e :: e in r ==> exists k :: 0 <= k < |rows| && rows[k].active == 1 && e == IpChangeEntryOf(rows[k])
    ensures (forall k :: 0 <= k < |rows| ==> rows[k].active == 1) ==> |r| == |rows|
    decreases |rows|
  {
    if rows == [] then []
    else
      var init, last := rows[..|rows| - 1], rows[|rows| - 1];
      var r := IpChangeLines(init) + (if last.active == 1 then [IpChangeEntryOf(last)] else []);
      assert forall k :: 0 <= k < |init| ==> init[k] == rows[k];
      r
  }

  /** The IP-change report has one line per active row and no other: the
      active row at position k is line number `ActiveCount(rows[..k])`, so
      the lines follow the rows' order. */
  lemma {:induction false} IpChangeLinesExact(rows: seq<License>)
    ensures |IpChangeLines(rows)| == ActiveCount(rows)
    ensures forall k :: 0 <= k < |rows| && rows[k].active == 1 ==>
      ActiveCount(rows[..k]) < |IpChangeLines(rows)| &&
      IpChangeLines(rows)[ActiveCount(rows[..k])] == IpChangeEntryOf(rows[k])
    decreases |rows|
  {
    if rows != [] {
      var init, last := rows[..|rows| - 1], rows[|rows| - 1];
      IpChangeLinesExact(init);
      var r := IpChangeLines(rows);
      assert r == IpChangeLines(init) + (if last.active == 1 then [IpChangeEntryOf(last)] else []);
      forall k | 0 <= k < |rows| && rows[k].active == 1
        ensures ActiveCount(rows[..k]) < |r| && r[ActiveCount(rows[..k])] == IpChangeEntryOf(rows[k])
      {
        if k < |init| {
          assert rows[..k] == init[..k];
          assert init[k] == rows[k];
        } else {
          assert rows[..k] == init;
        }
      }
    }
  }

  /** The status report's lines: one per row, active or not, with the signed
      days from `today` to its expiry (not clamped at zero). */
  function StatusLines(rows: seq<License>, today: int): (r: seq<StatusEntry>)
    ensures |r| == |rows|
    ensures forall k :: 0 <= k < |rows| ==>
      r[k].userName == rows[k].userName && r[k].ipAddress == rows[k].ipAddress &&
      r[k].daysLeft == DaysLeft(rows[k], today)
    decreases |rows|
  {
    if rows == [] then []
    else
      var init, last := rows[..|rows| - 1], rows[|rows| - 1];
      StatusLines(init, today) + [StatusEntry(last.userName, last.ipAddress, DaysLeft(last, today))]
  }

  /** `report_ip_changes_last_24h`: the selection of active rows and the
      loop over them, folded into one loop over all rows. */
  method ReportIpChanges(rows: seq<License>) returns (entries: seq<IpChangeEntry>)
    ensures entries == IpChangeLines(rows)
  {
    entries := [];
    var i := 0;
    while i < |rows|
      invariant 0 <= i <= |rows|
      invariant entries == IpChangeLines(rows[..i])
    {
      assert rows[..i + 1][..i] == rows[..i];
      if rows[i].active == 1 {
        entries := entries + [IpChangeEntryOf(rows[i])];
      }
      i := i + 1;
    }
    assert rows[..i] == rows;
  }

  /** `report_licenses_status`: the loop over the selected rows. */
  method ReportLicensesStatus(rows: seq<License>, today: int) returns (entries: seq<StatusEntry>)
    ensures entries == StatusLines(rows, today)
  {
    entries := [];
    var i := 0;
    while i < |rows|
      invariant 0 <= i <= |rows|
      invariant entries == StatusLines(rows[..i], today)
    {
      assert rows[..i + 1][..i] == rows[..i];
      var row := rows[i];
      entries := entries + [StatusEntry(row.userName, row.ipAddress, row.expireDate - today)];
      i := i + 1;
    }
    assert rows[..i] == rows;
  }

  /** A license reported on its day of issue shows its whole duration; one
      reported `duration + 1` days later shows -1, whether active or not. */
  lemma StatusOfNewLicense(id: int, userName: string, ipAddress: string, today: int, duration: int)
    ensures StatusLines([NewLicense(id, userName, ipAddress, today, duration)], today)[0].daysLeft == duration
    ensures StatusLines([NewLicense(id, userName, ipAddress, today, duration)], today + duration + 1)[0].daysLeft == -1
  {
  }
}
