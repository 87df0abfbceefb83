/** The scan-handling state machine of the storage tracker (`DataProcessor`).
    One scan line moves the tracker from one state to the next and yields
    what the operator sees. The files it reads and writes (the storage
    ledger, its log, the location table and the per-day category files) are
    part of the state, and the current date is a parameter. */
module Tracker {
  import opened Text
  import opened Basics
  import opened Scan
  import opened Storage
  import opened Locations
  import opened Router

  /** The tracker's session and its files.
      - `awaitingCageCode`, `awaitingAllocation`: the two session flags;
      - `lastScan`: `received_data`, the last payload accepted for processing;
      - `pendingRow`: `t_data`, the normalised row waiting for a cage code;
      - `cage`: `cage_No`, the cage being filled during an allocation
        ("0" when none; the source keeps the integer 0, written as "0");
      - `collected`: `Storage_Rows`, the rows scanned during an allocation;
      - `ledger`: Storage.csv and Log.csv;
      - `locations`: Location.csv;
      - `dayFiles`: the category day files, by file name;
      - `dayHeader`: the header line a day file is created with (`DayHeader`
        in a started tracker; a field, so that the reasoning about day files
        does not depend on its characters). */
  datatype State = State(
    awaitingCageCode: bool,
    awaitingAllocation: bool,
    lastScan: string,
    pendingRow: string,
    cage: string,
    collected: seq<string>,
    ledger: Ledger,
    locations: seq<Slot>,
    dayFiles: map<string, string>,
    dayHeader: string)

  /** What a scan shows the operator.
      - `Done`: a green status line, and the text of a new label when one is
        shown;
      - `Refused`: a red status line set without going through `handle_error`;
      - `Failed`: `handle_error` was called with this message (the status line
        reads "An error occurred: " followed by it);
      - `Crashed`: an exception escaped the scan handler. */
  datatype Outcome =
    | Done(status: string, shown: Option<string>)
    | Refused(status: string)
    | Failed(error: string)
    | Crashed(error: string)

  const AlreadyScanned := "The QR code has been scanned"
  const RowAlreadyCollected := "The QR code has already been scanned."
  const ResetLocationUnknown := "Location not found in the storage list"
  const InvalidCategory := "Invalid data category"
  const LaserPathMissing := "'DataProcessor' object has no attribute 'Laser_Cutter_path'"

  const CageInterrupted := "Storage Process has been interrupted. Please continue scan."
  const InvalidCage := "Invalid Cage No, please scan a valid label"
  const CageProcessed := "Cage processed successfully."
  const AllocationInterrupted := "Allocation process interrupted"
  const RowsWritten := "All label has been written in the storage"
  const CageAllocated := "Cage Allocated Successfully"
  const DuctScanned := "A duct QR has been scanned successfully"
  const LocationWasReset := "Location has been reset successfully"
  const AwaitingCage := "Please scan a Cage Code or Input Exit to Interrupt"
  const DataProcessed := "Data processed successfully."

  function CurrentCage(cage: string): (msg: string) {
    "Current Cage is " + cage + ". Please scan a location code or a duct QR"
  }

  function LocationUnknown(code: string): (msg: string) {
    "Location '" + code + "' not found"
  }

  /** The tracker as it starts: no session, fresh ledger and log, no day
      files, and the given location table. */
  function Start(locations: seq<Slot>): (s: State) {
    State(false, false, "", "", "0", [], EmptyLedger, locations, map[], DayHeader)
  }

  /** True when the session is in neither of its two modes. */
  predicate Idle(s: State) {
    !s.awaitingCageCode && !s.awaitingAllocation
  }

  /** `handle_error`: reports the error and forgets the last scan, except for
      the duplicate-scan message, which keeps it so the same scan stays
      refused. Nothing else changes. */
  function HandleError(s: State, error: string): (r: (State, Outcome))
    ensures r.1 == Failed(error)
    ensures r.0.(lastScan := s.lastScan) == s
    ensures r.0.lastScan == s.lastScan <==> error == AlreadyScanned || s.lastScan == ""
    ensures r.0.lastScan == s.lastScan || r.0.lastScan == ""
  {
    (s.(lastScan := if error == AlreadyScanned then s.lastScan else ""), Failed(error))
  }

  // -------------------------------------------------------------------
  // Awaiting a cage code

  /** The ledger line a cage code completes: the pending row, the cage and
      the date. */
  function CageLine(s: State, data: string, today: string): (line: string) {
    s.pendingRow + "," + DropLast2(data) + "," + today
  }

  /** `process_cage_code`: input whose all-but-last-two characters are
      digits names the cage; the pending row is stored with it unless its
      text is already in the storage file. "exit t" abandons the pending
      row. Anything else is refused and the tracker keeps waiting. */
  function ProcessCageCode(s: State, data: string, today: string): (r: (State, Outcome))
    requires s.awaitingCageCode
    ensures r.0.awaitingAllocation == s.awaitingAllocation && r.0.pendingRow == s.pendingRow
    ensures r.0.cage == s.cage && r.0.collected == s.collected
    ensures r.0.locations == s.locations && r.0.dayFiles == s.dayFiles && r.0.dayHeader == s.dayHeader
    ensures !IsDigits(DropLast2(data)) ==>
      && r.0.ledger == s.ledger
      && (r.0.awaitingCageCode <==> !IsExit(data))
      && (IsExit(data) ==> r.0.lastScan == "" && r.1 == Done(CageInterrupted, None))
      && (!IsExit(data) ==> r.0 == s && r.1 == Refused(InvalidCage))
    ensures IsDigits(DropLast2(data)) ==>
      var line := CageLine(s, data, today);
      && (r.0.awaitingCageCode <==> Contains(Render(s.ledger.rows), line + "\n"))
      && (r.0.awaitingCageCode ==>
            r.0.ledger == s.ledger && r.0.lastScan == "" && r.1 == Failed(DataExists))
      && (!r.0.awaitingCageCode ==>
            && r.0.ledger.rows == s.ledger.rows + [Split(line, ',')]
            && r.0.ledger.log == s.ledger.log + [Strip(line) + ",Storaged"]
            && r.0.lastScan == s.lastScan
            && r.1 == Done(CageProcessed, Some(line + "\n")))
  {
    var code := DropLast2(data);
    if !IsDigits(code) then
      if IsExit(data) then
        (s.(lastScan := "", awaitingCageCode := false), Done(CageInterrupted, None))
      else
        (s, Refused(InvalidCage))
    else
      var line := CageLine(s, data, today);
      match Store(s.ledger, line)
      case Err(msg) => HandleError(s, msg)
      case Ok(l) => (s.(ledger := l, awaitingCageCode := false), Done(CageProcessed, Some(line + "\n")))
  }

  // -------------------------------------------------------------------
  // Allocation

  /** `write_rows_to_storage`: commits every collected row with the current
      cage and the date, then ends the allocation. */
  function WriteRowsToStorage(s: State, today: string): (r: (State, Outcome))
    ensures |r.0.ledger.rows| == |s.ledger.rows| + |s.collected|
    ensures |r.0.ledger.log| == |s.ledger.log| + |s.collected|
    ensures r.0.ledger.rows[..|s.ledger.rows|] == s.ledger.rows
    ensures r.0.ledger.log[..|s.ledger.log|] == s.ledger.log
    ensures forall i :: 0 <= i < |s.collected| ==>
              r.0.ledger.rows[|s.ledger.rows| + i] == Split(s.collected[i] + "," + s.cage + "," + today, ',')
    ensures forall i :: 0 <= i < |s.collected| ==>
              r.0.ledger.log[|s.ledger.log| + i] == s.collected[i] + "," + s.cage + "," + today + ",Storaged"
    ensures r.0.collected == [] && r.0.cage == "0" && !r.0.awaitingAllocation
    ensures r.0.locations == s.locations && r.0.dayFiles == s.dayFiles && r.0.lastScan == s.lastScan
    ensures r.0.awaitingCageCode == s.awaitingCageCode && r.0.pendingRow == s.pendingRow
    ensures r.0.dayHeader == s.dayHeader
    ensures r.1 == Done(RowsWritten, None)
  {
    (s.(ledger := CommitRows(s.ledger, s.collected, s.cage, today), collected := [], cage := "0",
        awaitingAllocation := false),
     Done(RowsWritten, None))
  }

  /** `process_allocation`: "exit t" ends the allocation, committing the
      collected rows when there are any; a location scan gives the location
      the current cage and ends the allocation without committing anything;
      any other scan is a duct label whose normalised row is collected once. */
  function ProcessAllocation(s: State, data: string, today: string): (r: (State, Outcome))
    requires s.awaitingAllocation
    ensures r.0.awaitingCageCode == s.awaitingCageCode && r.0.pendingRow == s.pendingRow
    ensures r.0.dayFiles == s.dayFiles && r.0.dayHeader == s.dayHeader
    ensures IsExit(data) && |s.collected| == 0 ==>
      r.0 == s.(awaitingAllocation := false) && r.1 == Done(AllocationInterrupted, None)
    ensures IsExit(data) && |s.collected| > 0 ==> r == WriteRowsToStorage(s, today)
    ensures !IsExit(data) && IsLocationScan(data) ==>
      var code := DropLast2(data);
      && r.0.ledger == s.ledger && r.0.collected == s.collected
      && (Known(s.locations, code) ==>
            && r.0.locations == Assign(s.locations, code, s.cage)
            && r.0.cage == "0" && !r.0.awaitingAllocation && r.0.lastScan == s.lastScan
            && r.1 == Done(CageAllocated, None))
      && (!Known(s.locations, code) ==>
            r.0 == s.(lastScan := "") && r.1 == Failed(LocationUnknown(code)))
    ensures !IsExit(data) && !IsLocationScan(data) ==>
      && r.0.ledger == s.ledger && r.0.locations == s.locations
      && r.0.cage == s.cage && r.0.awaitingAllocation == s.awaitingAllocation
      && match NormalizeStorageRow(data)
         case Err(msg) => r.0 == s.(lastScan := "") && r.1 == Failed(msg)
         case Ok(row) =>
           && (row !in s.collected ==>
                 r.0 == s.(collected := s.collected + [row]) && r.1 == Done(DuctScanned, Some(row)))
           && (row in s.collected ==>
                 r.0 == s.(lastScan := "") && r.1 == Failed(RowAlreadyCollected))
  {
    if IsExit(data) && |s.collected| == 0 then
      (s.(awaitingAllocation := false), Done(AllocationInterrupted, None))
    else if IsExit(data) then
      WriteRowsToStorage(s, today)
    else if IsLocationScan(data) then
      var code := DropLast2(data);
      if Known(s.locations, code) then
        (s.(locations := Assign(s.locations, code, s.cage), cage := "0", awaitingAllocation := false),
         Done(CageAllocated, None))
      else
        assert LocationUnknown(code)[0] != AlreadyScanned[0];
        HandleError(s, LocationUnknown(code))
    else
      match NormalizeStorageRow(data)
      case Err(msg) => HandleError(s, msg)
      case Ok(row) =>
        if row !in s.collected then
          (s.(collected := s.collected + [row]), Done(DuctScanned, Some(row)))
        else
          HandleError(s, RowAlreadyCollected)
  }

  // -------------------------------------------------------------------
  // Idle: storage scans (ending " T")

  /** The " T" branch of `process_data_ui`: a repeat of the last scan is
      refused before anything else; a numeric cage label starts an
      allocation; a location label resets that location to "0"; any other
      payload is normalised and waits for its cage code. The ledger, the
      collected rows and the day files are never touched here. */
  function ProcessStorageScan(s: State, data: string): (r: (State, Outcome))
    ensures r.0.dayHeader == s.dayHeader
    ensures r.0.ledger == s.ledger && r.0.collected == s.collected && r.0.dayFiles == s.dayFiles
    ensures data == s.lastScan ==> r == (s, Failed(AlreadyScanned))
    ensures data != s.lastScan && IsCageStart(data) ==>
      && r.0 == s.(cage := DropLast2(data), awaitingAllocation := true)
      && r.1 == Done(CurrentCage(DropLast2(data)), None)
    ensures data != s.lastScan && !IsCageStart(data) && IsLocationScan(data) ==>
      var code := DropLast2(data);
      && (Known(s.locations, code) ==>
            r.0 == s.(locations := Assign(s.locations, code, "0")) && r.1 == Done(LocationWasReset, None))
      && (!Known(s.locations, code) ==>
            r.0 == s.(lastScan := "") && r.1 == Failed(ResetLocationUnknown))
    ensures data != s.lastScan && !IsCageStart(data) && !IsLocationScan(data) ==>
      && r.0.locations == s.locations && r.0.cage == s.cage
      && match NormalizeStorageRow(data)
         case Err(msg) => r.0 == s.(lastScan := "") && r.1 == Failed(msg)
         case Ok(row) =>
           r.0 == s.(lastScan := data, pendingRow := row, awaitingCageCode := true)
           && r.1 == Done(AwaitingCage, None)
  {
    if s.lastScan == data then
      HandleError(s, AlreadyScanned)
    else if IsCageStart(data) then
      var cage := DropLast2(data);
      (s.(cage := cage, awaitingAllocation := true), Done(CurrentCage(cage), None))
    else if IsLocationScan(data) then
      var code := DropLast2(data);
      if Known(s.locations, code) then
        (s.(locations := Assign(s.locations, code, "0")), Done(LocationWasReset, None))
      else
        HandleError(s, ResetLocationUnknown)
    else
      var s1 := s.(lastScan := data);
      match NormalizeStorageRow(data)
      case Err(msg) => HandleError(s1, msg)
      case Ok(row) => (s1.(pendingRow := row, awaitingCageCode := true), Done(AwaitingCage, None))
  }

  // -------------------------------------------------------------------
  // Idle: deliveries (ending " D")

  /** `process_deletion`: the first ledger row whose leading fields match the
      scan's key leaves the ledger and is logged as delivered; when none
      matches, nothing changes but the forgotten last scan. */
  function ProcessDeletion(s: State, data: string, today: string): (r: (State, Outcome))
    ensures var key := DeletionKey(data);
      && (r.1.Failed? <==> forall j :: 0 <= j < |s.ledger.rows| ==> !Matches(s.ledger.rows[j], key))
      && (r.1.Failed? ==> r == (s.(lastScan := ""), Failed(NotInStorage)))
      && (!r.1.Failed? ==>
            var i := FirstMatch(s.ledger.rows, key).value;
            var shown := DeliveredLine(s.ledger.rows[i], today);
            && r.0 == s.(ledger := Ledger(s.ledger.rows[..i] + s.ledger.rows[i + 1..],
                                          s.ledger.log + [shown + ",Delivered"]))
            && r.1 == Done(DataProcessed, Some(shown)))
  {
    var d := Delete(s.ledger, DeletionKey(data), today);
    if d.Err? then
      assert d.msg == NotInStorage && NotInStorage[0] != AlreadyScanned[0];
      HandleError(s, d.msg)
    else
      var i := FirstMatch(s.ledger.rows, DeletionKey(data)).value;
      assert d.value.1 == DeliveredLine(s.ledger.rows[i], today);
      (s.(ledger := d.value.0), Done(DataProcessed, Some(d.value.1)))
  }

  /** A delivery touches only the ledger and the last scan. */
  lemma DeletionKeepsHeader(s: State, data: string, today: string)
    ensures ProcessDeletion(s, data, today).0.dayHeader == s.dayHeader
  {
    var r := ProcessDeletion(s, data, today);
    if r.1.Failed? {
      assert r.0 == s.(lastScan := "");
    }
  }

  // -------------------------------------------------------------------
  // Idle: category scans

  /** `process_regular_data`: a repeat of the last scan is refused; otherwise
      the scan becomes the last scan and its row goes to the folder its
      suffix names, refused when the folder's file already holds that text.
      The label shown is the line as typed, before stripping. */
  function ProcessRegularData(s: State, line: string, data: string, today: string): (r: (State, Outcome))
    ensures r.0.awaitingCageCode == s.awaitingCageCode && r.0.awaitingAllocation == s.awaitingAllocation
    ensures r.0.pendingRow == s.pendingRow && r.0.cage == s.cage && r.0.collected == s.collected
    ensures r.0.locations == s.locations && r.0.dayHeader == s.dayHeader
    ensures data == s.lastScan ==> r == (s, Failed(AlreadyScanned))
    ensures data != s.lastScan ==>
      match PathFinder(data)
      case MissingLaserPath => r == (s.(lastScan := data), Crashed(LaserPathMissing))
      case NoCategory => r == (s.(lastScan := ""), Failed(InvalidCategory))
      case Folder(path) =>
        && r.1 != Failed(InvalidCategory)
        && (r.1.Done? <==> r.0.lastScan == data)
        && (r.1.Done? ==> r.1 == Done(DataProcessed, Some(line)))
        && (!r.1.Done? ==> r.1 == Failed(DataExists) && r.0.lastScan == "")
        && (path == StoragePath ==>
              && r.0.dayFiles == s.dayFiles
              && (r.1.Done? <==> !Contains(Render(s.ledger.rows), CategoryRow(data) + "\n"))
              && (r.1.Done? ==> r.0.ledger.rows == s.ledger.rows + [Split(CategoryRow(data), ',')])
              && (r.1.Done? ==> r.0.ledger.log == s.ledger.log + [Strip(CategoryRow(data)) + ",Storaged"])
              && (!r.1.Done? ==> r.0.ledger == s.ledger))
        && (path != StoragePath ==>
              var name := DayFileName(path, today);
              && r.0.ledger == s.ledger
              && r.0.dayFiles.Keys == s.dayFiles.Keys + {name}
              && (forall n :: n in s.dayFiles && n != name ==> r.0.dayFiles[n] == s.dayFiles[n])
              && (r.1.Done? <==> !Contains(DayFileText(s.dayFiles, name, s.dayHeader), CategoryRow(data) + "\n"))
              && r.0.dayFiles[name]
                 == DayFileText(s.dayFiles, name, s.dayHeader) + (if r.1.Done? then CategoryRow(data) + "\n" else ""))
  {
    if s.lastScan == data then
      HandleError(s, AlreadyScanned)
    else
      var s1 := s.(lastScan := data);
      match PathFinder(data)
      case MissingLaserPath => (s1, Crashed(LaserPathMissing))
      case NoCategory =>
        assert InvalidCategory[0] != AlreadyScanned[0];
        HandleError(s1, InvalidCategory)
      case Folder(path) =>
        assert |data| >= 2;
        if path == StoragePath then StoreCategoryRow(s1, CategoryRow(data), line)
        else WriteCategoryRow(s1, path, CategoryRow(data), line, today)
  }

  /** `data_write` of a category row into the ledger, with the outcome
      `process_regular_data` reports: the row is stored and logged unless
      its text is already in Storage.csv. Only the ledger and the last scan
      can change. */
  function StoreCategoryRow(s: State, row: string, line: string): (r: (State, Outcome))
    ensures r.0 == s.(ledger := r.0.ledger, lastScan := r.0.lastScan)
    ensures r.1.Done? <==> !Contains(Render(s.ledger.rows), row + "\n")
    ensures r.1.Done? ==>
      && r.0.ledger.rows == s.ledger.rows + [Split(row, ',')]
      && r.0.ledger.log == s.ledger.log + [Strip(row) + ",Storaged"]
      && r.0.lastScan == s.lastScan && r.1 == Done(DataProcessed, Some(line))
    ensures !r.1.Done? ==> r.0.ledger == s.ledger && r.0.lastScan == "" && r.1 == Failed(DataExists)
  {
    var stored := Store(s.ledger, row);
    assert DataExists[0] != AlreadyScanned[0];
    if stored.Err? then HandleError(s, stored.msg)
    else (s.(ledger := stored.value), Done(DataProcessed, Some(line)))
  }

  /** `data_write` of a category row into today's file of a production
      folder, with the outcome `process_regular_data` reports: the file is
      created with the header when absent, and the row is appended unless
      its text already occurs there. Only that file and the last scan can
      change. */
  function WriteCategoryRow(s: State, path: string, row: string, line: string, today: string): (r: (State, Outcome))
    ensures r.0 == s.(dayFiles := r.0.dayFiles, lastScan := r.0.lastScan)
    ensures var name := DayFileName(path, today);
      && r.0.dayFiles.Keys == s.dayFiles.Keys + {name}
      && (forall n :: n in s.dayFiles && n != name ==> r.0.dayFiles[n] == s.dayFiles[n])
      && (r.1.Done? <==> !Contains(DayFileText(s.dayFiles, name, s.dayHeader), row + "\n"))
      && r.0.dayFiles[name] == DayFileText(s.dayFiles, name, s.dayHeader) + (if r.1.Done? then row + "\n" else "")
    ensures r.1.Done? ==> r.0.lastScan == s.lastScan && r.1 == Done(DataProcessed, Some(line))
    ensures !r.1.Done? ==> r.0.lastScan == "" && r.1 == Failed(DataExists)
  {
    var (files, written) := WriteDayFile(s.dayFiles, DayFileName(path, today), s.dayHeader, row + "\n");
    var s2 := s.(dayFiles := files);
    assert DataExists[0] != AlreadyScanned[0];
    if written then (s2, Done(DataProcessed, Some(line))) else HandleError(s2, DataExists)
  }

  // -------------------------------------------------------------------
  // Dispatch

  /** `process_data_ui`: one scan line, stripped, goes to the handler of the
      current mode; in no mode, its suffix picks the handler. */
  function Step(s: State, line: string, today: string): (r: (State, Outcome))
    ensures r.0.dayHeader == s.dayHeader
  {
    var data := Strip(line);
    if s.awaitingCageCode then ProcessCageCode(s, data, today)
    else if s.awaitingAllocation then ProcessAllocation(s, data, today)
    else if EndsWith(data, " T") then ProcessStorageScan(s, data)
    else if EndsWith(data, " D") then
      DeletionKeepsHeader(s, data, today);
      ProcessDeletion(s, data, today)
    else ProcessRegularData(s, line, data, today)
  }

  /** A session: the scan lines of one day handled in order. */
  function Run(s: State, lines: seq<string>, today: string): (t: State)
    ensures t.dayHeader == s.dayHeader
    decreases |lines|
  {
    if |lines| == 0 then s else Run(Step(s, lines[0], today).0, lines[1..], today)
  }
}
