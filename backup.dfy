/** The JSON backup: every row of both tables becomes a record pairing the
    table's column names, in schema order, with the row's values. Records
    are kept as ordered key/value lists, the order in which the JSON
    objects are written. */
module Backup {
  import opened Licenses

  /** A column value: SQLite NULL, INTEGER, TEXT, or a date column (a day
      number here, ISO text in the file). The `licenses` columns are never
      NULL; the nullable `cloudflare_services` columns may be. */
  datatype Value = Null | Int(i: int) | Text(s: string) | Date(day: int)

  type Record = seq<(string, Value)>

  datatype BackupDoc = BackupDoc(licenses: seq<Record>, cloudflareServices: seq<Record>)

  const LicenseColumns: seq<string> :=
    ["id", "user_name", "ip_address", "start_date", "expire_date", "active", "change_ip_count"]

  const ServiceColumns: seq<string> := ["id", "license_id", "api_token", "domain", "zone_id"]

  /** Pairs keys with values position by position, stopping at the shorter. */
  function Zip<K, V>(ks: seq<K>, vs: seq<V>): (r: seq<(K, V)>)
    ensures |r| == if |ks| <= |vs| then |ks| else |vs|
    ensures forall k :: 0 <= k < |r| ==> r[k] == (ks[k], vs[k])
    decreases |ks|
  {
    if ks == [] || vs == [] then [] else [(ks[0], vs[0])] + Zip(ks[1..], vs[1..])
  }

  /** A `licenses` row as `SELECT *` returns it, in column order. */
  function RowValues(l: License): seq<Value>
  {
    [Int(l.id), Text(l.userName), Text(l.ipAddress), Date(l.startDate), Date(l.expireDate),
     Int(l.active), Int(l.changeIpCount)]
  }

  /** The record written for one license: all seven columns, keyed by name,
      in the schema's order. */
  function EncodeLicense(l: License): (r: Record)
    ensures |r| == |LicenseColumns|
    ensures forall k :: 0 <= k < |r| ==> r[k].0 == LicenseColumns[k]
  {
    Zip(LicenseColumns, RowValues(l))
  }

  /** Reads a license record back: the seven keys in schema order, each with
      a value of its column's kind; anything else is rejected. */
  function DecodeLicense(rec: Record): Option<License>
  {
    if |rec| == 7
       && rec[0] == ("id", rec[0].1) && rec[0].1.Int?
       && rec[1] == ("user_name", rec[1].1) && rec[1].1.Text?
       && rec[2] == ("ip_address", rec[2].1) && rec[2].1.Text?
       && rec[3] == ("start_date", rec[3].1) && rec[3].1.Date?
       && rec[4] == ("expire_date", rec[4].1) && rec[4].1.Date?
       && rec[5] == ("active", rec[5].1) && rec[5].1.Int?
       && rec[6] == ("change_ip_count", rec[6].1) && rec[6].1.Int?
    then Some(License(rec[0].1.i, rec[1].1.s, rec[2].1.s, rec[3].1.day, rec[4].1.day,
                      rec[5].1.i, rec[6].1.i))
    else None
  }

  /** A record decodes to a license exactly when it is that license's
      encoding: decoding reproduces the row field for field, and nothing
      but an encoding decodes. */
  lemma DecodeIffEncode(rec: Record, l: License)
    ensures DecodeLicense(rec) == Some(l) <==> rec == EncodeLicense(l)
  {
  }

  /** The `licenses` part of the backup: one record per row, in row order. */
  function BackupLicenses(rows: seq<License>): (r: seq<Record>)
    ensures |r| == |rows|
    ensures forall k :: 0 <= k < |rows| ==> DecodeLicense(r[k]) == Some(rows[k])
  {
    var r := seq(|rows|, k requires 0 <= k < |rows| => EncodeLicense(rows[k]));
    forall k | 0 <= k < |rows| ensures DecodeLicense(r[k]) == Some(rows[k]) {
      DecodeIffEncode(r[k], rows[k]);
    }
    r
  }

  /** `backup_to_json`'s document: both tables, row by row, each row zipped
      with its table's column names. */
  function BackupDocument(licenses: seq<License>, services: seq<seq<Value>>): (d: BackupDoc)
    ensures d.licenses == BackupLicenses(licenses)
    ensures |d.cloudflareServices| == |services|
    ensures forall k :: 0 <= k < |services| && |services[k]| == |ServiceColumns| ==>
      |d.cloudflareServices[k]| == |ServiceColumns| &&
      forall j :: 0 <= j < |ServiceColumns| ==> d.cloudflareServices[k][j] == (ServiceColumns[j], services[k][j])
  {
    BackupDoc(BackupLicenses(licenses),
              seq(|services|, k requires 0 <= k < |services| => Zip(ServiceColumns, services[k])))
  }

  /** Reads the `licenses` records back, failing if any record is not a
      license. */
  function RestoreLicenses(recs: seq<Record>): Option<seq<License>>
    decreases |recs|
  {
    if recs == [] then Some([])
    else match (DecodeLicense(recs[0]), RestoreLicenses(recs[1..]))
      case (Some(l), Some(ls)) => Some([l] + ls)
      case _ => None
  }

  /** Backup round trip: restoring the backup of a table gives back its rows,
      in order and field for field. */
  lemma {:induction false} RestoreBackup(rows: seq<License>)
    ensures RestoreLicenses(BackupLicenses(rows)) == Some(rows)
    decreases |rows|
  {
    if rows != [] {
      var recs := BackupLicenses(rows);
      assert recs[1..] == BackupLicenses(rows[1..]);
      RestoreBackup(rows[1..]);
      assert DecodeLicense(recs[0]) == Some(rows[0]);
      assert RestoreLicenses(recs) == Some([rows[0]] + rows[1..]);
      assert [rows[0]] + rows[1..] == rows;
    }
  }
}
