# License table of the IpManager bot, in Dafny

IpManager is a Telegram bot that issues, extends and revokes time-bounded
licenses (user name, IP address, validity window), and periodically sends
the administrator an IP-change report, a license-status report and a JSON
backup. Its state is two SQLite tables: `licenses`
(`id, user_name, ip_address, start_date, expire_date, active, change_ip_count`),
which every operation works on, and `cloudflare_services`, which is only
created and dumped into the backup. This project models the `licenses`
table and everything computed from it:

- `license.dfy`, module `Licenses`: the row type, the row `add_license`
  inserts, days left, the table invariant, and the effect of each UPDATE as a
  pure function on the table (a map from id to row), with the lemmas about
  them (additive extensions, idempotent deactivation, the full scan in id
  order).
- `store.dfy`, module `Store`: class `LicenseTable`, the table updated in
  place, holding `rows: map<int, License>` and the AUTOINCREMENT counter
  `nextId`. Its methods are `add_license`, `get_license_by_id`,
  `get_all_licenses`, `update_license_expire`, `deactivate_license` and
  `increment_ip_change`; each mutating method is specified by the pure
  function of `Licenses` it applies. `LicenseLifecycle` is a client that
  shows what the contracts let a caller conclude.
- `reports.dfy`, module `Reports`: the loops of `report_ip_changes_last_24h`
  and `report_licenses_status`, proved against specification functions.
  Both take every row of the table (`LicenseTable.Rows()`) as a parameter,
  and the status report also takes `today`. The IP-change report's
  `WHERE active=1` filter is a test inside its loop. Both produce the report
  lines as entries, not text.
- `backup.dfy`, module `Backup`: the `dict(zip(columns, row))` records of
  `backup_to_json`, a decoder for them, and the round trip.

Dates are whole day numbers. `datetime.date.today()` becomes the parameter
`today`. `active` stays an integer as in the schema (1 active, 0 inactive),
because the IP-change report selects `active=1`.

Behaviour of the code worth knowing:
- `add_license` validates nothing: any duration is accepted, zero or
  negative included.
- IP changes are a counter on the row, not a time-stamped event log. The
  "last 24 hours" report lists the counters of all active licenses,
  whatever their age. `increment_ip_change` does not change `ip_address`.
- Deactivation is not enforced as terminal. Extension and IP-change counting
  still apply to an inactive license.
- Days left are signed and never clamped at zero, and expiry does not clear
  `active`.
- Updating an unknown id is a silent no-op, not a "not found" error.

`LicenseTable.Add` returns the new id (SQLite's last row id) so that
callers can name the row. `add_license` itself returns nothing.

## Model

| member | source | states |
|---|---|---|
| Licenses.NewLicense | main.py:69-79 | the inserted row carries the given name, address and id, starts today, has active 1 and change counter 0, and on its issue day has exactly `duration_days` left |
| Licenses.Extended | main.py:100-109 | only row `id` changes, and only its expiry, by exactly `extra_days` whatever its active flag; the id set is kept; an unknown id leaves the table equal |
| Licenses.Deactivated | main.py:112-117 | only row `id` changes, and only its flag, to 0; the id set is kept; an unknown id leaves the table equal |
| Licenses.IpChangeIncremented | main.py:120-125 | only row `id` changes, its counter up by exactly one with address, dates and flag kept; an unknown id leaves the table equal |
| Licenses.DaysLeft | main.py:151 | days left are signed and never clamped: negative exactly when the expiry has passed, zero exactly on the expiry day, and today plus days left is the expiry |
| Licenses.ExtendTwice | main.py:100-109 | two successive extensions by a and b equal one extension by a + b |
| Licenses.ExtendedBySum | main.py:100-109 | any sequence of extensions equals one extension by their sum |
| Licenses.DaysLeftAfterExtensions | main.py:105-107 | after any extensions the days left on any day grow by exactly their sum, and the active flag is untouched |
| Licenses.DeactivateIdempotent | main.py:112-117 | deactivating twice gives the same table as deactivating once |
| Licenses.OperationsKeepValid | main.py:45-53 | extend, deactivate and increment keep every row under its own id and ids dense from 1 |
| Licenses.TableRowsInIdOrder | main.py:82-88 | on a valid table the full scan returns each row once, row k being the license with id k + 1 |
| Store.LicenseTable.constructor | main.py:44-54 | a freshly created table is empty and the first id to hand out is 1 |
| Store.LicenseTable.Add | main.py:69-79 | exactly one row is added, under an id never used before, equal to `NewLicense`; every existing row is unchanged |
| Store.LicenseTable.Get | main.py:91-97 | a row is found exactly for the ids handed out so far, and it is the stored row with that id; other ids give None |
| Store.LicenseTable.Rows | main.py:159-160 | every row once, in id order, active or not |
| Store.LicenseTable.AllLicenses | main.py:82-88 | one listing per license, the one for id k at position k - 1, with id, name, address, expiry and flag |
| Store.LicenseTable.Extend | main.py:100-109 | the table becomes `Extended(old table, id, extra_days)`; the id counter is unchanged |
| Store.LicenseTable.Deactivate | main.py:112-117 | the table becomes `Deactivated(old table, id)`; the id counter is unchanged |
| Store.LicenseTable.IncrementIpChange | main.py:120-125 | the table becomes `IpChangeIncremented(old table, id)`; the id counter is unchanged |
| Reports.IpChangeLines | main.py:133-138 | every active row (`active` = 1) contributes its name, address and counter, every line comes from an active row, and with all rows active there is one line per row |
| Reports.IpChangeLinesExact | main.py:133-138 | the report has exactly as many lines as there are active rows, and the active row at position k is line `ActiveCount(rows[..k])`, so each active row appears once and in table order |
| Reports.ReportIpChanges | main.py:128-139 | the report loop produces exactly `IpChangeLines` of the selected rows |
| Reports.StatusLines | main.py:144-152 | one line per row, active or not, with its name, address and the signed `expire - today` |
| Reports.ReportLicensesStatus | main.py:141-153 | the report loop produces exactly `StatusLines` of the selected rows |
| Reports.StatusOfNewLicense | main.py:148-152 | a license reported on its issue day shows its whole duration, and one day past expiry shows -1 |
| Backup.Zip | main.py:165 | pairs key k with value k for every position up to the shorter list |
| Backup.EncodeLicense | main.py:165 | a license record has the seven column names as keys, in schema order |
| Backup.DecodeIffEncode | main.py:165 | a record decodes to a license if and only if it is that license's record |
| Backup.BackupLicenses | main.py:159-165 | one record per row, in order, each decoding to its row field for field |
| Backup.BackupDocument | main.py:159-167 | the document holds the license records and one `cloudflare_services` record per service row, keyed by that table's five column names |
| Backup.RestoreBackup | main.py:164-165 | restoring the license records of a backup gives back exactly the rows |

## Left out

- Telegram handlers, menus and the Persian report text (main.py:195-217,
  136-152): user interface over an external chat SDK. Reports are modelled
  as lists of (name, address, value) entries.
- The `BackgroundScheduler` jobs and the async send functions
  (main.py:175-192): timers, threads and the network.
- SQLite connections, commits and closes, the backup file write and
  `send_document`: I/O. The table is held in memory, and each operation is one
  atomic step.
- ISO date parsing and formatting: dates are day numbers. So the model
  has no date range. Python's `date` fails outside years 1 to 9999, and the
  model does not.
- The `cloudflare_services` table has no operations. It appears only as the
  list of service rows handed to `Backup.BackupDocument`. Its nullable
  columns may hold `Null`.
- Row order: the SELECTs at main.py:85, 133, 144 and 159 have no
  `ORDER BY`, so SQL promises no order. The model assumes ascending id, the
  order SQLite's full scan of a rowid table produces.
- Reading a backup back is not in the source. `Backup.DecodeLicense` and
  `Backup.RestoreLicenses` exist only to state the round trip.
- Start-up configuration from the command line and the unused Flask and
  requests imports (main.py:225-241, 8, 17).
