# Process Tracker — a Dafny model of the scan state machine

The Process Tracker is a bar-code station for a duct workshop. An operator
scans QR labels into one entry field. Each scan is one line of
comma-separated fields ending in a two-character category suffix:

- " K", " I", " S" and " L" are production categories;
- " T" means into storage;
- " D" means delivered out of storage.

The `DataProcessor` sends every scan to a handler chosen by two flags:
`awaiting_cage_code` and `awaiting_allocation`. With neither flag set, the
suffix picks the handler. The handlers do the following:

- append the row to the day file of a production folder;
- start a cage allocation or reset a storage location;
- hold a storage row until its cage code is scanned;
- collect duct rows for a cage and commit them to the storage ledger
  (Storage.csv) and its log (Log.csv);
- remove a delivered row from the ledger and log it as delivered.

A second program, `CSVProcessor`, converts a day file or a summary file into
per-operation export files with ISO dates.

The model is a pure state machine. `Tracker.Step(state, line, today)` returns
the next state and an `Outcome`: done with a status and an optional shown
label, refused, failed with the error text `handle_error` shows, or crashed.

The state holds:

- the two mode flags;
- `received_data` (the last scan) and `t_data` (the pending storage row);
- `cage_No` and `Storage_Rows` (the rows collected for a cage);
- the ledger (Storage.csv rows and Log.csv lines);
- the location table (Location.csv);
- the day files, keyed by file name.

The date is a parameter. All file contents are values in the state.

The model is organised in these modules:

- `Text`: the Python string operations the code relies on. These are
  `strip`, `[:-2]`, `split`/`join`, the substring test `in`, and
  `str.strip(chars)`.
- `Scan`: the payload grammar. This covers the two regular expressions, the
  exit word, and the normalisations of a storage row, a category row and a
  deletion key.
- `Storage`: the ledger. It covers the duplicate-refusing store, the
  first-match delivery, the allocation commit, and the balance between
  ledger rows and log tags.
- `Locations`: the location table and its assignment.
- `Router`: `path_finder` and the per-day category files of `data_write`.
- `Tracker`: the state, the handlers and the dispatch.
- `Session`: what a step keeps and, by induction, what a session of scans
  from a fresh start keeps.
- `SqlTable`: `operation_select`, `SQL_operation` and `SQL_operation2`.
  Each returns the rows it appends, with their output file names, plus an
  optional failure. `strptime`/`strftime` are modelled on `Date` values.

The model follows the code as written, including these behaviours:

- A cage code is read as the input minus its last two characters. So a bare
  "45" is refused; "45 T" names cage 45.
- Slicing away the fields of a category row never raises. So a short
  category payload is written as it is; there is no malformed-payload
  failure.
- "exit t" with no collected rows ends the allocation but leaves `cage_No`
  as it was.
- A location scan during an allocation gives the location the cage and ends
  the allocation. The collected rows are neither committed nor dropped.
- The duplicate-scan guard exists only when the tracker is in neither mode.
  Deliveries (" D") have no guard at all.
- The duplicate test of `data_write` looks for `row + "\n"` in the file text.
  So a row whose text ends an existing line is refused: "1,5" is refused when
  the ledger holds "21,5" (`Storage.SubstringRefusesOtherRow`).
- The delivery search runs over every row of Storage.csv, the header row
  included. A " D" scan whose first three fields are "Ref", "Item No." and
  "NC#" deletes the header (`Session.HeaderDeliverable`).
- A category scan never reaches the Storage branch of `data_write`. Only
  " T" and " D" route to Storage in `path_finder`, and scans with those
  suffixes are dispatched to their own handlers first
  (`Session.CategoryScanKeepsLedger`). The model keeps that branch of
  `process_regular_data` as written.
- A " L" scan reads the undefined attribute `Laser_Cutter_path`. The
  resulting AttributeError escapes `process_data_ui` without `handle_error`,
  so the scan stays recorded as the last one (`Crashed`).

## Model

| member | source | states |
|---|---|---|
| Tracker.Step | Process_Tracker.py:77-143 | The dispatcher routes each scan by mode and suffix; no scan changes the day-file header. What a scan keeps is stated by `Session.StepKeeps` and `Session.LastScanRule`. |
| Tracker.Run | Process_Tracker.py:77-143 | A session of scans keeps the day-file header; `Session.RunKeeps` states the rest. |
| Tracker.HandleError | Process_Tracker.py:406-410 | The error is reported. The last scan is forgotten unless the error is the duplicate-scan message, and nothing else in the state changes. |
| Tracker.ProcessCageCode | Process_Tracker.py:312-336 | "exit t" abandons the pending row. Other non-numeric input is refused with the state unchanged. A numeric code stores `pending,cage,date` in the ledger and logs it as Storaged. If that text is already in Storage.csv, the store is refused with "Data already exists" and the tracker keeps awaiting a cage code. The day files and their header are never touched. |
| Tracker.WriteRowsToStorage | Process_Tracker.py:193-229 | Collected row i becomes ledger row `|old rows| + i`: its fields followed by the cage and the date. Its log line is `row,cage,date,Storaged`, in the same order. Earlier rows and log lines are kept. The allocation then ends with the cage reset to "0" and no collected rows. The cage-code mode, the pending row, the locations, the day files, their header and the last scan are untouched. |
| Tracker.ProcessAllocation | Process_Tracker.py:145-191 | Exit with no rows: only the mode ends. Exit with rows: the result is exactly that of committing the collected rows (`WriteRowsToStorage`). Known location scan: that location gets the current cage, nothing is committed, and the allocation ends. Unknown location: fails with "Location '…' not found". Any other scan is normalised: fewer than ten fields fails "Invalid QR code", a new row is collected, and a collected row fails as already scanned. The day files and their header are never touched. |
| Tracker.ProcessStorageScan | Process_Tracker.py:85-134 | A repeat of the last scan is refused with nothing changed. A cage label starts an allocation for that cage. A known location label resets that location to "0"; an unknown one fails. Any other payload is normalised and becomes the pending row awaiting a cage code; a short payload fails "Invalid QR code". The ledger is never touched. |
| Tracker.ProcessDeletion | Process_Tracker.py:231-281 | The first ledger row whose leading fields (stripped) equal the scan's first three stripped fields is removed. The log gains that row with its date replaced by today, tagged Delivered. The call fails with "Data not found in Storage" exactly when no row matches, and then only the last scan is forgotten. |
| Tracker.ProcessRegularData | Process_Tracker.py:283-310 | A repeat scan is refused with nothing changed. An unknown suffix fails "Invalid data category". " L" crashes. Otherwise the row with fields 6 to 8 removed goes to the suffix's folder, and it is refused exactly when its text already occurs there. For Storage the ledger gains its fields as a row and the log gains `strip(row),Storaged`; the day files are untouched. For other folders the day file `folder+date+.csv` (created with the header) gains the row, every other day file is unchanged, and the ledger is untouched. Only a success keeps the scan as the last one. The modes, pending row, cage, collected rows, locations and header never change. |
| Router.PathFinder | Process_Tracker.py:338-350 | The destination for each suffix, as an if-and-only-if: " L" is the missing laser path, " K", " I" and " S" are their folders, " T" and " D" are Storage, and anything else has no category. |
| Router.WriteDayFile | Process_Tracker.py:383-396 | The day file is created with the header when absent. The text is appended exactly when it does not already occur in the file. No other file changes. |
| Tracker.StoreCategoryRow | Process_Tracker.py:303-310 | A Storage category row is stored exactly when `row+"\n"` does not occur in Storage.csv. Then the ledger gains the row and the log `strip(row),Storaged`, and "Data processed" shows the label. Otherwise the ledger is kept, the last scan is cleared and "Data already exists" is reported. Nothing else changes. |
| Tracker.WriteCategoryRow | Process_Tracker.py:303-310 | A production category row is appended to today's day file exactly when its text does not occur in that file. Every other day file is unchanged. A refusal clears the last scan and reports "Data already exists". Nothing outside the day files and the last scan changes. |
| Router.DayFileRefusesRepeat | Process_Tracker.py:388-391 | A row written to a day file is refused when written again, and the refusal leaves the files as they were. |
| Storage.Store | Process_Tracker.py:353-378 | The store fails exactly when `line+"\n"` already occurs in the Storage.csv text. Otherwise the line's fields become a new last row and the log gains `strip(line),Storaged`. |
| Storage.StoreTwiceRefused | Process_Tracker.py:366-370 | Storing the same line twice is refused the second time. |
| Storage.SubstringRefusesOtherRow | Process_Tracker.py:369-370 | The duplicate test is on text, not rows: "1,5" is refused when the ledger holds only "21,5". |
| Storage.FirstMatch | Process_Tracker.py:250-253 | Returns the index of the first row whose stripped leading fields equal the key, and none exactly when no row matches. |
| Storage.RemoveFirstMatch | Process_Tracker.py:259 | `list.remove` of the first matching row removes exactly that position. |
| Storage.Delete | Process_Tracker.py:248-277 | Fails exactly when no row matches. Otherwise the first match leaves the ledger and the log gains one Delivered line made from it and today's date. |
| Storage.DeleteCounts | Process_Tracker.py:259-277 | A delivery removes one row (as a multiset, exactly the matched one) and adds one log line. |
| Storage.StoreThenDeleteRestores | Process_Tracker.py:231-281 | Storing a row and then delivering it by a key only it matches restores the ledger rows exactly. The log ends with the Storaged line followed by the Delivered line. |
| Storage.CommitRows | Process_Tracker.py:214-221 | The allocation commit appends one ledger row and one Storaged log line per collected row, in order, keeping what was there. |
| Storage.CommittedRowFields | Process_Tracker.py:218-219 | Each committed ledger row is the collected row's fields followed by the cage and the date. |
| Storage.StoreKeepsBalance | Process_Tracker.py:366-378 | A store keeps rows held + Delivered lines − Storaged lines unchanged. |
| Storage.DeleteKeepsBalance | Process_Tracker.py:258-277 | A delivery keeps the same balance. |
| Storage.CommitKeepsBalance | Process_Tracker.py:214-221 | An allocation commit keeps the same balance. |
| Storage.TallyAppend | Process_Tracker.py:373-378 | Counting tagged log lines distributes over appending. |
| Scan.CageStartIff | Process_Tracker.py:91 | `^\d+ T` matches exactly when the scan starts with one or more digits followed by " T". |
| Scan.LocationScanIsNotCageStart | Process_Tracker.py:91-99 | A location label `^\d+-[A-Z]-[A-Z] T$` never matches the cage pattern, so it reaches the location branch. |
| Scan.NormalizeStorageRow | Process_Tracker.py:123-131 | Fails "Invalid QR code" exactly when the payload has fewer than ten fields. Otherwise it joins the stripped fields left after deleting field 6 and the last two. |
| Scan.DropScanFields | Process_Tracker.py:129 | The three `del`s, done one after another on the shrinking list, keep exactly fields 0-5 and fields 7 to the third-from-last. |
| Scan.NormalizedShape | Process_Tracker.py:174-182 | A normalised storage row of n fields splits back into n−3 stripped fields. |
| Scan.NormalizeExample | Process_Tracker.py:123-131 | A concrete ten-field label normalises to the seven expected fields. |
| Scan.DelSliceNoSep | Process_Tracker.py:297 | `del s[6:9]` keeps at least one field and introduces no comma into any field. |
| Scan.CategoryRow | Process_Tracker.py:295-298 | The category row is the payload fields with positions 6 to 8 removed, joined by commas. |
| Scan.DeletionKey | Process_Tracker.py:238 | The deletion key is the first three fields of the stripped scan, each stripped. |
| Locations.Assign | Process_Tracker.py:161-164 | Every row of the named location gets the cage; every other row is unchanged. |
| Locations.AssignThenLookup | Process_Tracker.py:161-164 | After an assignment the location holds the assigned cage. |
| Locations.AssignKeepsOthers | Process_Tracker.py:161-164 | An assignment leaves every other location's cage as it was. |
| Session.StepKeeps | Process_Tracker.py:77-143 | Every scan keeps these things. The log only grows. The ledger balance is unchanged. The location table keeps its locations. The two-mode exclusion and the distinctness of collected rows persist. The day-file header stays; day files are only appended to, and one a scan creates starts with the header. On top of that, every failure except the duplicate-scan one clears the last scan, and the duplicate-scan failure changes nothing. |
| Session.RunKeeps | Process_Tracker.py:77-143 | The same facts hold across any sequence of scans: the log only grows, the balance and the locations are kept, the invariant persists, the header stays, and the day files only grow. |
| Session.SessionFromStart | Process_Tracker.py:77-143 | From a fresh start, the ledger rows plus the Delivered lines always equal one plus the Storaged lines, and the state invariant holds. Every day file created in the session starts with the program's day-file header (lines 389-391). |
| Session.IdleRepeatRefused | Process_Tracker.py:85-89 | In neither mode, scanning the last scan again (other than a delivery) is refused, and nothing changes. |
| Session.CategoryRepeatRefused | Process_Tracker.py:283-286 | A category scan that went through is refused when scanned again. |
| Session.LastScanRule | Process_Tracker.py:77-143 | The last scan changes in only two ways. It is set to the scan by a category scan or a plain storage scan in neither mode. Or it is cleared, and a previously set last scan is cleared only by a failure or by "exit t" abandoning a pending row. |
| Session.CategoryScanKeepsLedger | Process_Tracker.py:140-143 | In neither mode, a scan ending in neither " T" nor " D" is never routed to Storage, and it leaves the ledger as it was. |
| Session.HeaderDeliverable | Process_Tracker.py:248-253 | From a fresh start, a delivery scan whose key is the header's first three fields succeeds and leaves Storage.csv with no rows at all. |
| Session.AllocationExitCommits | Process_Tracker.py:156-158 | "exit t" during an allocation with collected rows writes each row with the cage and date into the ledger. |
| Session.AllocationAssignsLocation | Process_Tracker.py:159-170 | A known location scanned during an allocation holds the current cage afterwards. Every other location keeps its cage. |
| Session.IdleResetsLocation | Process_Tracker.py:99-108 | A known location scanned in neither mode holds "0" afterwards. Every other location keeps its cage. |
| SqlTable.ParseDate | SQL_Table.py:19 | `strptime(stem, '%d-%m-%Y')` succeeds only on a real calendar date. |
| SqlTable.IsoDate | SQL_Table.py:20 | `strftime('%Y-%m-%d')` is ten characters with dashes at positions 4 and 7, and no comma. |
| SqlTable.ParseDayFileDate | SQL_Table.py:19 | Parsing a formatted `dd-mm-yyyy` date gives back the same date. |
| SqlTable.OutputDateOfDayFile | SQL_Table.py:17-20 | The base name `dd-mm-yyyy.csv` of a day file converts to the ISO form of its date. |
| SqlTable.StripCsvOfDate | SQL_Table.py:17 | `str.strip(".csv")` strips a set of characters, and it gives back a date stem that starts and ends with a digit. |
| SqlTable.Summary | SQL_Table.py:15-29 | Each ten-field row binds the file's date. A data row before any date row fails (DateUnbound). A data row with at most eight fields fails. On success, each data row yields one write to `SQL_<date>_<operation>.csv` holding its stripped fields plus the date. |
| SqlTable.SummaryConvertsIff | SQL_Table.py:15-29 | The summary loop succeeds if and only if three things hold. Every data row names an operation. The base name parses as a date when any date row exists. A date is bound before the first data row. |
| SqlTable.SqlOperation | SQL_Table.py:12-29 | The summary conversion succeeds exactly when every data row names an operation, the base name parses as a date when any date row exists, and the first line is a date row or there are no data rows. A leading data row that names an operation fails DateUnbound. On success it writes exactly one row per data row. |
| SqlTable.SqlOperation2 | SQL_Table.py:31-48 | The day-file conversion fails exactly when the base name is not a date. Otherwise every line after the header yields one row (stripped fields, the parent folder as operation, the ISO date) in the single file `SQL_<date>_<folder>.csv`. |
| SqlTable.OperationSelect | SQL_Table.py:50-58 | A file starting with the summary header is converted as a summary. One starting only with the day header is converted as a day file. Anything else fails "Can't recognize this file". |
| SqlTable.BaseIsPrefixOfSum | SQL_Table.py:53-55 | The summary header starts with the day header, so its test must come first. |
| SqlTable.DayRowFields | SQL_Table.py:45-48 | A converted day row has exactly two more fields than its source line. |
| SqlTable.SummaryRowFields | SQL_Table.py:27-29 | A converted summary row has exactly one more field than its source line. |

## Left out

- The tkinter window, status colours, `display_label` and clearing the entry field are user interface only. The model reports each status and shown label in the `Outcome` instead.
- `windll` DPI setup, `calculate_sum`/`calculate_sum_before_close` and the sum file are out of scope. So are Merge.py, Laser.py and Modified_Process_Tracker.py, which are other programs.
- The clock is a parameter (`today`, already formatted `dd-mm-yyyy`).
- Creating Storage.csv and Log.csv with their headers when absent is left out. The model starts from a ledger that holds both headers.
- Reading and writing Location.csv through pandas (dtype coercion, read failures) is left out. The table is a value of the state.
- IOError and other exceptions from file access are left out, and so are the `except` branches they would take.
- The csv module's quoting is left out: fields are split on every comma.
- `\d` and `str.isdigit` are modelled on ASCII digits only; Unicode digits are not modelled.
- The day-file header is a field of the state, set by `Tracker.Start` to the program's header text, rather than a constant read in place.
- SqlTable.SqlOperation2: the output file name's folder is the parent directory taken from the Windows absolute path. The model receives it as a parameter, and creating an empty output file for a header-only input is not modelled.
- SqlTable.IsoDate: a year below 1000 is written with four digits, zero-padded. Python's `%Y` output for such years differs by platform.
