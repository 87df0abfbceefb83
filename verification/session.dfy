/** What holds of the tracker across scans: the facts one `Step` keeps and,
    by induction, the ones a whole session of scans keeps. */
module Session {
  import opened Text
  import opened Basics
  import opened Scan
  import opened Storage
  import opened Locations
  import opened Router
  import opened Tracker

  predicate Distinct(xs: seq<string>) {
    forall i, j :: 0 <= i < j < |xs| ==> xs[i] != xs[j]
  }

  /** The state invariant: the tracker is never in both modes at once, and
      the rows collected for an allocation hold no duplicates. */
  predicate Valid(s: State) {
    !(s.awaitingCageCode && s.awaitingAllocation) && Distinct(s.collected)
  }

  /** Two location tables list the same locations in the same order. */
  predicate SameCodes(a: seq<Slot>, b: seq<Slot>) {
    |a| == |b| && forall i :: 0 <= i < |a| ==> a[i].code == b[i].code
  }

  lemma StartValid(locations: seq<Slot>)
    ensures Valid(Start(locations))
  {
  }

  lemma AppendDistinct(xs: seq<string>, x: string)
    requires Distinct(xs) && x !in xs
    ensures Distinct(xs + [x])
  {
    assert forall i :: 0 <= i < |xs| ==> (xs + [x])[i] == xs[i];
  }

  /** What every handler keeps, whatever the scan: the log only grows; the
      ledger balance (rows held, plus deliveries, minus storings) stays put,
      so ledger and log writes come in pairs; the location table keeps its
      locations; the invariant holds on; every failure but the duplicate-scan
      one forgets the last scan, and the duplicate-scan failure changes
      nothing; the day-file header stays, and the day files only grow. */
  predicate Keeps(s: State, r: (State, Outcome)) {
    && s.ledger.log <= r.0.ledger.log
    && Balance(r.0.ledger) == Balance(s.ledger)
    && SameCodes(s.locations, r.0.locations)
    && (Valid(s) ==> Valid(r.0))
    && (r.1.Failed? && r.1.error != AlreadyScanned ==> r.0.lastScan == "")
    && (r.1 == Failed(AlreadyScanned) ==> r.0 == s)
    && r.0.dayHeader == s.dayHeader
    && DayFilesGrow(s, r.0)
  }

  /** From `s` to `t` the day files are only appended to, and a file that
      `t` has and `s` has not starts with the header of `s`. */
  predicate DayFilesGrow(s: State, t: State) {
    && (forall n :: n in s.dayFiles ==> n in t.dayFiles && s.dayFiles[n] <= t.dayFiles[n])
    && (forall n :: n in t.dayFiles && n !in s.dayFiles ==> s.dayHeader <= t.dayFiles[n])
  }

  /** Grown from no day files at all, every day file starts with the header. */
  lemma FromNoFiles(s: State, t: State)
    requires s.dayFiles == map[] && DayFilesGrow(s, t)
    ensures forall n :: n in t.dayFiles ==> s.dayHeader <= t.dayFiles[n]
  {
  }

  lemma SameFilesGrow(s: State, t: State)
    requires t.dayFiles == s.dayFiles
    ensures DayFilesGrow(s, t)
  {
  }

  /** Growth of the day files composes over two steps that keep the header. */
  lemma GrowTrans(a: State, b: State, c: State)
    requires DayFilesGrow(a, b) && DayFilesGrow(b, c) && b.dayHeader == a.dayHeader
    ensures DayFilesGrow(a, c)
  {
    forall n | n in c.dayFiles && n !in a.dayFiles
      ensures a.dayHeader <= c.dayFiles[n]
    {
      if n in b.dayFiles {
        PrefixTrans(a.dayHeader, b.dayFiles[n], c.dayFiles[n]);
      }
    }
    forall n | n in a.dayFiles
      ensures n in c.dayFiles && a.dayFiles[n] <= c.dayFiles[n]
    {
      PrefixTrans(a.dayFiles[n], b.dayFiles[n], c.dayFiles[n]);
    }
  }

  lemma PrefixTrans(x: string, y: string, z: string)
    requires x <= y && y <= z
    ensures x <= z
  {
    assert z[..|x|] == y[..|x|];
  }

  /** A category row written to a production folder only appends to the
      day files, and a day file it creates starts with the header. */
  lemma CategoryWriteGrows(s: State, line: string, data: string, today: string)
    ensures DayFilesGrow(s, ProcessRegularData(s, line, data, today).0)
  {
    var r := ProcessRegularData(s, line, data, today);
    if data != s.lastScan && PathFinder(data).Folder? && PathFinder(data).path != StoragePath {
      var s1 := s.(lastScan := data);
      assert |data| >= 2;
      assert r == WriteCategoryRow(s1, PathFinder(data).path, CategoryRow(data), line, today);
      WriteGrows(s1, PathFinder(data).path, CategoryRow(data), line, today);
    } else {
      SameFilesGrow(s, r.0);
    }
  }

  lemma WriteGrows(s: State, path: string, row: string, line: string, today: string)
    ensures DayFilesGrow(s, WriteCategoryRow(s, path, row, line, today).0)
  {
    var r := WriteCategoryRow(s, path, row, line, today);
    var name := DayFileName(path, today);
    var before := DayFileText(s.dayFiles, name, s.dayHeader);
    assert before <= r.0.dayFiles[name];
  }

  lemma CageCodeKeeps(s: State, data: string, today: string)
    requires s.awaitingCageCode
    ensures Keeps(s, ProcessCageCode(s, data, today))
  {
    if IsDigits(DropLast2(data)) && Store(s.ledger, CageLine(s, data, today)).Ok? {
      StoreKeepsBalance(s.ledger, CageLine(s, data, today));
    }
  }

  lemma AllocationKeeps(s: State, data: string, today: string)
    requires s.awaitingAllocation
    ensures Keeps(s, ProcessAllocation(s, data, today))
  {
    if IsExit(data) && |s.collected| > 0 {
      CommitKeepsBalance(s.ledger, s.collected, s.cage, today);
    } else if !IsExit(data) && IsLocationScan(data) {
      assert LocationUnknown(DropLast2(data))[0] != AlreadyScanned[0];
    } else if !IsExit(data) {
      var n := NormalizeStorageRow(data);
      if n.Ok? && n.value !in s.collected && Valid(s) {
        AppendDistinct(s.collected, n.value);
      }
    }
  }

  lemma StorageScanKeeps(s: State, data: string)
    requires Idle(s)
    ensures Keeps(s, ProcessStorageScan(s, data))
  {
  }

  lemma DeletionKeeps(s: State, data: string, today: string)
    ensures Keeps(s, ProcessDeletion(s, data, today))
  {
    var r := ProcessDeletion(s, data, today);
    var d := Delete(s.ledger, DeletionKey(data), today);
    if d.Ok? {
      DeleteKeepsBalance(s.ledger, DeletionKey(data), today);
      assert r.0 == s.(ledger := d.value.0);
    } else {
      assert r.0 == s.(lastScan := "");
    }
    SameFilesGrow(s, r.0);
  }

  lemma RegularDataKeeps(s: State, line: string, data: string, today: string)
    ensures Keeps(s, ProcessRegularData(s, line, data, today))
  {
    if data != s.lastScan && PathFinder(data) == Folder(StoragePath) {
      StorageCategoryKeeps(s, line, data, today);
    } else {
      var r := ProcessRegularData(s, line, data, today);
      assert InvalidCategory[0] != AlreadyScanned[0];
      assert DataExists[0] != AlreadyScanned[0];
      assert r.0.ledger == s.ledger;
      CategoryWriteGrows(s, line, data, today);
      LedgerKeptKeeps(s, r);
    }
  }

  /** A category scan routed to Storage keeps the balance through `Store`. */
  lemma StorageCategoryKeeps(s: State, line: string, data: string, today: string)
    requires data != s.lastScan && PathFinder(data) == Folder(StoragePath)
    ensures Keeps(s, ProcessRegularData(s, line, data, today))
  {
    var r := ProcessRegularData(s, line, data, today);
    assert DataExists[0] != AlreadyScanned[0];
    if Store(s.ledger, CategoryRow(data)).Ok? {
      StoreKeepsBalance(s.ledger, CategoryRow(data));
    }
  }

  /** A step that leaves the ledger, the modes, the collected rows and the
      location table alone keeps what `Keeps` lists once its failures treat
      the last scan as `Keeps` requires. */
  lemma LedgerKeptKeeps(s: State, r: (State, Outcome))
    requires r.0.ledger == s.ledger && r.0.locations == s.locations && r.0.collected == s.collected
    requires r.0.awaitingCageCode == s.awaitingCageCode && r.0.awaitingAllocation == s.awaitingAllocation
    requires r.1.Failed? && r.1.error != AlreadyScanned ==> r.0.lastScan == ""
    requires r.1 == Failed(AlreadyScanned) ==> r.0 == s
    requires r.0.dayHeader == s.dayHeader && DayFilesGrow(s, r.0)
    ensures Keeps(s, r)
  {
  }

  /** Every scan keeps what `Keeps` lists. */
  lemma StepKeeps(s: State, line: string, today: string)
    ensures Keeps(s, Step(s, line, today))
  {
    var data := Strip(line);
    if s.awaitingCageCode {
      CageCodeKeeps(s, data, today);
    } else if s.awaitingAllocation {
      AllocationKeeps(s, data, today);
    } else if EndsWith(data, " T") {
      StorageScanKeeps(s, data);
    } else if EndsWith(data, " D") {
      DeletionKeeps(s, data, today);
    } else {
      RegularDataKeeps(s, line, data, today);
    }
  }

  /** A session of scans keeps the invariant, only appends to the log,
      keeps the ledger balance and keeps the table's locations. */
  lemma {:induction false} RunKeeps(s: State, lines: seq<string>, today: string)
    ensures var t := Run(s, lines, today);
            && s.ledger.log <= t.ledger.log
            && Balance(t.ledger) == Balance(s.ledger)
            && SameCodes(s.locations, t.locations)
            && (Valid(s) ==> Valid(t))
            && t.dayHeader == s.dayHeader
            && DayFilesGrow(s, t)
    decreases |lines|
  {
    if |lines| > 0 {
      var next := Step(s, lines[0], today).0;
      StepKeeps(s, lines[0], today);
      RunKeeps(next, lines[1..], today);
      GrowTrans(s, next, Run(s, lines, today));
    } else {
      SameFilesGrow(s, s);
    }
  }

  /** A session started fresh never holds duplicate collected rows nor is in
      both modes, and its ledger holds exactly one row (the header) plus
      the rows its log records as stored and not yet delivered. */
  lemma SessionFromStart(locations: seq<Slot>, lines: seq<string>, today: string)
    ensures var t := Run(Start(locations), lines, today);
            && Valid(t)
            && |t.ledger.rows| + Tally(t.ledger.log, DeliveredTag) == 1 + Tally(t.ledger.log, StoragedTag)
            && t.dayHeader == DayHeader
            && forall n :: n in t.dayFiles ==> DayHeader <= t.dayFiles[n]
  {
    var s := Start(locations);
    RunKeeps(s, lines, today);
    FromNoFiles(s, Run(s, lines, today));
    assert s.ledger.log == [LogHeader];
    assert Tally(s.ledger.log, DeliveredTag) == 0 && Tally(s.ledger.log, StoragedTag) == 0 by {
      LogHeaderUntagged();
      TallyNoneTagged(s.ledger.log, DeliveredTag);
      TallyNoneTagged(s.ledger.log, StoragedTag);
    }
  }

  /** In no mode, a scan equal to the last accepted one is refused before
      any other test, and the refusal changes nothing; deliveries are the
      exception, since they carry no such guard. */
  lemma IdleRepeatRefused(s: State, line: string, today: string)
    requires Idle(s) && Strip(line) == s.lastScan && !EndsWith(Strip(line), " D")
    ensures Step(s, line, today) == (s, Failed(AlreadyScanned))
  {
  }

  /** A category scan that went through is refused when scanned again. */
  lemma CategoryRepeatRefused(s: State, line: string, today: string)
    requires Idle(s) && !EndsWith(Strip(line), " T") && !EndsWith(Strip(line), " D")
    requires Step(s, line, today).1.Done?
    ensures var t := Step(s, line, today).0;
            Step(t, line, today) == (t, Failed(AlreadyScanned))
  {
  }

  /** The last scan changes only in three ways: an error other than the
      duplicate message clears it (so does abandoning a pending row), and in
      no mode a plain storage-start or a category scan records itself. */
  lemma LastScanRule(s: State, line: string, today: string)
    ensures var r := Step(s, line, today);
            var data := Strip(line);
            || r.0.lastScan == s.lastScan
            || r.0.lastScan == ""
            || (&& r.0.lastScan == data && Idle(s) && !EndsWith(data, " D")
                && !(EndsWith(data, " T") && (IsCageStart(data) || IsLocationScan(data))))
    ensures var r := Step(s, line, today);
            r.0.lastScan == "" && s.lastScan != "" ==>
              r.1.Failed? || (s.awaitingCageCode && IsExit(Strip(line)))
  {
    var data := Strip(line);
    if s.awaitingCageCode {
      CageCodeLastScan(s, data, today);
    } else if s.awaitingAllocation {
      AllocationLastScan(s, data, today);
    } else if EndsWith(data, " T") {
      StorageScanLastScan(s, data);
    } else if EndsWith(data, " D") {
      DeletionLastScan(s, data, today);
    } else {
      RegularDataLastScan(s, line, data, today);
    }
  }

  lemma CageCodeLastScan(s: State, data: string, today: string)
    requires s.awaitingCageCode
    ensures var r := ProcessCageCode(s, data, today);
            r.0.lastScan == s.lastScan || r.0.lastScan == ""
    ensures var r := ProcessCageCode(s, data, today);
            r.0.lastScan == "" && s.lastScan != "" ==> r.1.Failed? || IsExit(data)
  {
  }

  lemma AllocationLastScan(s: State, data: string, today: string)
    requires s.awaitingAllocation
    ensures var r := ProcessAllocation(s, data, today);
            r.0.lastScan == s.lastScan || r.0.lastScan == ""
    ensures var r := ProcessAllocation(s, data, today);
            r.0.lastScan == "" && s.lastScan != "" ==> r.1.Failed?
  {
  }

  lemma StorageScanLastScan(s: State, data: string)
    ensures var r := ProcessStorageScan(s, data);
            || r.0.lastScan == s.lastScan || r.0.lastScan == ""
            || (r.0.lastScan == data && !IsCageStart(data) && !IsLocationScan(data))
    ensures var r := ProcessStorageScan(s, data);
            r.0.lastScan == "" && s.lastScan != "" ==> r.1.Failed?
  {
    var r := ProcessStorageScan(s, data);
    if data == s.lastScan {
    } else if IsCageStart(data) {
      assert r.0.lastScan == s.lastScan;
    } else if IsLocationScan(data) {
      assert r.0.lastScan == s.lastScan || r.1.Failed?;
    } else {
      PendingRowLastScan(s, data);
    }
  }

  /** A payload that becomes the pending row is recorded as the last scan,
      and it is never empty. */
  lemma PendingRowLastScan(s: State, data: string)
    requires data != s.lastScan && !IsCageStart(data) && !IsLocationScan(data)
    ensures var r := ProcessStorageScan(s, data);
            r.1.Failed? || (r.0.lastScan == data && data != "")
  {
    if NormalizeStorageRow(data).Ok? {
      NormalizedNonEmpty(data);
    }
  }

  lemma DeletionLastScan(s: State, data: string, today: string)
    ensures var r := ProcessDeletion(s, data, today);
            r.0.lastScan == s.lastScan || r.0.lastScan == ""
    ensures var r := ProcessDeletion(s, data, today);
            r.0.lastScan == "" && s.lastScan != "" ==> r.1.Failed?
  {
  }

  lemma RegularDataLastScan(s: State, line: string, data: string, today: string)
    ensures var r := ProcessRegularData(s, line, data, today);
            r.0.lastScan == s.lastScan || r.0.lastScan == "" || r.0.lastScan == data
    ensures var r := ProcessRegularData(s, line, data, today);
            r.0.lastScan == "" && s.lastScan != "" ==> r.1.Failed?
  {
    if PathFinder(data) != NoCategory {
      assert |data| >= 2;
    }
  }

  /** Leaving an allocation with rows collected stores each row, in
      collection order, with the cage and the date as its last two fields. */
  lemma AllocationExitCommits(s: State, line: string, today: string, i: nat)
    requires s.awaitingAllocation && !s.awaitingCageCode && IsExit(Strip(line))
    requires i < |s.collected| && ',' !in s.cage && ',' !in today
    ensures Step(s, line, today).0.ledger.rows[|s.ledger.rows| + i]
            == Split(s.collected[i], ',') + [s.cage, today]
  {
    CommittedRowFields(s.ledger, s.collected, s.cage, today, i);
  }

  /** During an allocation, scanning a known location gives it the current
      cage, keeps every other location's cage, and leaves the collected rows
      and the ledger alone. */
  lemma AllocationAssignsLocation(s: State, line: string, today: string)
    requires s.awaitingAllocation && !s.awaitingCageCode
    requires IsLocationScan(Strip(line)) && Known(s.locations, DropLast2(Strip(line)))
    ensures var code := DropLast2(Strip(line));
            var r := Step(s, line, today).0;
            && Known(r.locations, code) && CageAt(r.locations, code) == s.cage
            && r.collected == s.collected && r.ledger == s.ledger
            && r.cage == "0" && !r.awaitingAllocation
    ensures var code := DropLast2(Strip(line));
            var r := Step(s, line, today).0;
            forall other :: Known(s.locations, other) && other != code ==>
              Known(r.locations, other) && CageAt(r.locations, other) == CageAt(s.locations, other)
  {
    var data := Strip(line);
    var code := DropLast2(data);
    assert !IsExit(data);
    AssignThenLookup(s.locations, code, s.cage);
    forall other | Known(s.locations, other) && other != code
      ensures Known(Assign(s.locations, code, s.cage), other)
      ensures CageAt(Assign(s.locations, code, s.cage), other) == CageAt(s.locations, other)
    {
      AssignKeepsOthers(s.locations, code, s.cage, other);
    }
  }

  /** In no mode, a fresh scan of a known location empties it ("0") and
      keeps every other location's cage; an unknown one changes nothing
      but the forgotten last scan. */
  lemma IdleResetsLocation(s: State, line: string, today: string)
    requires Idle(s) && IsLocationScan(Strip(line)) && Strip(line) != s.lastScan
    ensures var code := DropLast2(Strip(line));
            var r := Step(s, line, today);
            && (Known(s.locations, code) ==>
                  && Known(r.0.locations, code) && CageAt(r.0.locations, code) == "0"
                  && r.1 == Done(LocationWasReset, None))
            && (!Known(s.locations, code) ==>
                  r.0.locations == s.locations && r.1 == Failed(ResetLocationUnknown))
    ensures var code := DropLast2(Strip(line));
            var r := Step(s, line, today).0;
            forall other :: Known(s.locations, other) && other != code ==>
              Known(r.locations, other) && CageAt(r.locations, other) == CageAt(s.locations, other)
  {
    var data := Strip(line);
    var code := DropLast2(data);
    LocationScanIsNotCageStart(data);
    if Known(s.locations, code) {
      AssignThenLookup(s.locations, code, "0");
      forall other | Known(s.locations, other) && other != code
        ensures Known(Assign(s.locations, code, "0"), other)
        ensures CageAt(Assign(s.locations, code, "0"), other) == CageAt(s.locations, other)
      {
        AssignKeepsOthers(s.locations, code, "0", other);
      }
    }
  }

  /** In no mode, a scan that ends in neither " T" nor " D" is a category
      scan, and no category scan reaches Storage: `path_finder` sends only
      those two suffixes there, and they are dispatched to their own
      handlers first. So a category scan never touches the ledger. */
  lemma CategoryScanKeepsLedger(s: State, line: string, today: string)
    requires Idle(s) && !EndsWith(Strip(line), " T") && !EndsWith(Strip(line), " D")
    ensures PathFinder(Strip(line)) != Folder(StoragePath)
    ensures Step(s, line, today).0.ledger == s.ledger
  {
  }

  /** The delivery search runs over every row of Storage.csv, the header
      row included: a delivery scan whose key is the header's first three
      fields takes the header out of a fresh ledger. */
  lemma HeaderDeliverable(locations: seq<Slot>, line: string, today: string)
    requires EndsWith(Strip(line), " D")
    requires DeletionKey(Strip(line)) == StorageHeader[..3]
    ensures var r := Step(Start(locations), line, today);
            r.1.Done? && r.0.ledger.rows == []
  {
    var s, data := Start(locations), Strip(line);
    assert !EndsWith(data, " T") by {
      assert data[|data| - 1] == 'D';
    }
    assert Step(s, line, today) == ProcessDeletion(s, data, today);
    HeaderMatchesOwnKey();
    assert s.ledger.rows == [StorageHeader];
    DeliverSoleRow(s, data, today);
  }

  /** The header row of Storage.csv matches its own first three fields. */
  lemma HeaderMatchesOwnKey()
    ensures Matches(StorageHeader, StorageHeader[..3])
  {
    var key := StorageHeader[..3];
    assert key == ["Ref", "Item No.", "NC#"];
    forall i | 0 <= i < 3
      ensures Strip(key[i]) == key[i]
    {
      assert key[i][0] != ' ' && key[i][|key[i]| - 1] != ' ';
      StripFixed(key[i]);
    }
  }

  /** A delivery whose key matches the only row of the ledger empties it. */
  lemma DeliverSoleRow(s: State, data: string, today: string)
    requires |s.ledger.rows| == 1 && Matches(s.ledger.rows[0], DeletionKey(data))
    ensures var r := ProcessDeletion(s, data, today);
            r.1.Done? && r.0.ledger.rows == []
  {
    var rows, key := s.ledger.rows, DeletionKey(data);
    var r := ProcessDeletion(s, data, today);
    assert !r.1.Failed? by { assert Matches(rows[0], key); }
    assert FirstMatch(rows, key) == Some(0);
    assert rows[..0] + rows[1..] == [];
  }
}
