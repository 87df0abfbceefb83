/** The storage ledger (Storage.csv) and its append-only audit log
    (Log.csv). The ledger is held as its rows of fields, header row
    included, exactly as `csv.reader` returns them; the log as its lines.
    Payload fields are assumed to hold no quote, comma or line break, so
    that `csv` reading and writing coincide with splitting and joining on
    commas. */
module Storage {
  import opened Text
  import opened Basics

  type Row = seq<string>

  datatype Ledger = Ledger(rows: seq<Row>, log: seq<string>)

  const StorageHeader: Row := ["Ref", "Item No.", "NC#", "Field 1", "Field 2", "Description", "End1", "End2", "Cage No.", "Date"]
  const LogHeader := "Ref,Item No.,NC#,Field 1,Field 2,Description,End1,End2,Cage No.,Date,Operation"

  const DataExists := "Data already exists in the file"
  const NotInStorage := "Data not found in Storage"

  /** A fresh ledger: both files hold only their header. */
  const EmptyLedger := Ledger([StorageHeader], [LogHeader])

  /** The text of Storage.csv as `data_write` reads it back: one line per row,
      each ended by "\n" (the "\r\n" that `csv.writer` puts after rewritten
      rows reads back as "\n" in text mode). */
  function Render(rows: seq<Row>): (text: string)
  {
    if |rows| == 0 then "" else Render(rows[..|rows| - 1]) + Join(rows[|rows| - 1], ',') + "\n"
  }

  /** `data_write(Storage_Path, line + "\n")`: refuses when the new text
      already occurs anywhere in the file text (a substring test, not a row
      comparison); otherwise appends the row to the ledger and one
      "Storaged" line to the log. */
  function Store(l: Ledger, line: string): (r: Result<Ledger>)
    ensures r.Err? <==> Contains(Render(l.rows), line + "\n")
    ensures r.Err? ==> r.msg == DataExists
    ensures r.Ok? ==> r.value.rows == l.rows + [Split(line, ',')]
    ensures r.Ok? ==> r.value.log == l.log + [Strip(line) + ",Storaged"]
    ensures r.Ok? ==> Render(r.value.rows) == Render(l.rows) + line + "\n"
  {
    var text := line + "\n";
    if Contains(Render(l.rows), text) then Err(DataExists)
    else
      StripNewline(line);
      JoinSplit(line, ',');
      var rows := l.rows + [Split(line, ',')];
      assert rows[..|rows| - 1] == l.rows;
      Ok(Ledger(rows, l.log + [Strip(text) + ",Storaged"]))
  }

  /** Storing the same line twice is refused the second time: the first
      store put its text into the file. */
  lemma StoreTwiceRefused(l: Ledger, line: string)
    requires Store(l, line).Ok?
    ensures Store(Store(l, line).value, line) == Err(DataExists)
  {
    ContainsInfix(Render(l.rows), line + "\n", "");
    assert Render(l.rows) + (line + "\n") + "" == Render(l.rows) + line + "\n";
  }

  /** The test is on text, not on rows: a line is refused when it is only the
      tail of an existing row. With row "21,5" stored, the new row "1,5"
      is refused although no row equals it. */
  lemma SubstringRefusesOtherRow(l: Ledger, line: string)
    requires l.rows == [["21", "5"]] && line == "1,5"
    ensures Store(l, line) == Err(DataExists)
    ensures Split(line, ',') !in l.rows
  {
    var row := l.rows[0];
    assert Join(row, ',') == "21" + "," + "5";
    assert l.rows[..0] == [];
    assert Render(l.rows) == "2" + (line + "\n") + "";
    ContainsInfix("2", line + "\n", "");
    JoinSplit(line, ',');
  }

  /** Python `[x.strip() for x in row[:len(key)]] == key`. */
  predicate Matches(row: Row, key: seq<string>) {
    |key| <= |row| && MapStrip(row[..|key|]) == key
  }

  /** The position of the first row matching the key, in ledger order. */
  function FirstMatch(rows: seq<Row>, key: seq<string>): (r: Option<nat>)
    ensures r.Some? ==> r.value < |rows| && Matches(rows[r.value], key)
    ensures r.Some? ==> forall j :: 0 <= j < r.value ==> !Matches(rows[j], key)
    ensures r.None? <==> forall j :: 0 <= j < |rows| ==> !Matches(rows[j], key)
    decreases |rows|
  {
    if |rows| == 0 then None
    else if Matches(rows[0], key) then Some(0)
    else
      match FirstMatch(rows[1..], key)
      case None => None
      case Some(i) => Some(i + 1)
  }

  /** Python `rows.remove(x)`: drops the first element equal to `x`. */
  function RemoveFirst(rows: seq<Row>, x: Row): (r: seq<Row>)
    requires x in rows
    ensures |r| == |rows| - 1
    decreases |rows|
  {
    if rows[0] == x then rows[1..] else [rows[0]] + RemoveFirst(rows[1..], x)
  }

  /** Removing the first match by value removes it at its own position,
      since no earlier row can equal it (it would have matched first). */
  lemma {:induction false} RemoveFirstMatch(rows: seq<Row>, key: seq<string>, i: nat)
    requires i < |rows| && Matches(rows[i], key)
    requires forall j :: 0 <= j < i ==> !Matches(rows[j], key)
    ensures RemoveFirst(rows, rows[i]) == rows[..i] + rows[i + 1..]
    decreases i
  {
    if i > 0 {
      assert rows[0] != rows[i];
      RemoveFirstMatch(rows[1..], key, i - 1);
      assert rows[1..][i - 1] == rows[i];
      assert [rows[0]] + (rows[1..][..i - 1] + rows[1..][i..]) == rows[..i] + rows[i + 1..];
    }
  }

  /** The audit line of a delivery: the removed row without its last field
      (the storage date), followed by today's date, every field stripped. */
  function DeliveredLine(row: Row, today: string): (line: string) {
    Join(MapStrip((if |row| > 0 then row[..|row| - 1] else row) + [today]), ',')
  }

  /** `process_deletion` after the key is taken: removes the first row whose
      stripped leading fields equal the key, rewrites the ledger, and logs the
      row as "Delivered"; refuses when no row matches. Also returns the line
      shown to the operator. */
  function Delete(l: Ledger, key: seq<string>, today: string): (r: Result<(Ledger, string)>)
    ensures r.Err? <==> forall j :: 0 <= j < |l.rows| ==> !Matches(l.rows[j], key)
    ensures r.Err? ==> r.msg == NotInStorage
    ensures r.Ok? ==>
      var i := FirstMatch(l.rows, key).value;
      var shown := DeliveredLine(l.rows[i], today);
      r.value == (Ledger(l.rows[..i] + l.rows[i + 1..], l.log + [shown + ",Delivered"]), shown)
  {
    match FirstMatch(l.rows, key)
    case None => Err(NotInStorage)
    case Some(i) =>
      var row := l.rows[i];
      var rest := RemoveFirst(l.rows, row);
      RemoveFirstMatch(l.rows, key, i);
      var fields := (if |row| > 0 then row[..|row| - 1] else row) + [today];
      var delivered := Join(MapStrip(fields), ',');
      JoinNoEdgeSpace(MapStrip(fields), ',');
      StripFixed(delivered);
      Ok((Ledger(rest, l.log + [Strip(delivered) + ",Delivered"]), delivered))
  }

  /** A delivery shrinks the ledger by exactly one row and grows the log by
      exactly one line, leaving every other row in its order. */
  lemma DeleteCounts(l: Ledger, key: seq<string>, today: string)
    requires Delete(l, key, today).Ok?
    ensures |Delete(l, key, today).value.0.rows| == |l.rows| - 1
    ensures |Delete(l, key, today).value.0.log| == |l.log| + 1
    ensures multiset(Delete(l, key, today).value.0.rows) + multiset{l.rows[FirstMatch(l.rows, key).value]}
            == multiset(l.rows)
  {
    var i := FirstMatch(l.rows, key).value;
    SplitOut(l.rows, i);
  }

  lemma SplitOut(rows: seq<Row>, i: nat)
    requires i < |rows|
    ensures multiset(rows[..i] + rows[i + 1..]) + multiset{rows[i]} == multiset(rows)
  {
    assert rows == rows[..i] + [rows[i]] + rows[i + 1..];
  }

  /** `write_rows_to_storage`: appends every collected row, in order, with
      the cage number and date to the ledger and, tagged "Storaged", to the
      log. No duplicate test is made here. */
  function CommitRows(l: Ledger, rows: seq<string>, cage: string, today: string): (r: Ledger)
    ensures |r.rows| == |l.rows| + |rows| && |r.log| == |l.log| + |rows|
    ensures r.rows[..|l.rows|] == l.rows && r.log[..|l.log|] == l.log
    ensures forall i :: 0 <= i < |rows| ==>
              r.rows[|l.rows| + i] == Split(rows[i] + "," + cage + "," + today, ',')
    ensures forall i :: 0 <= i < |rows| ==>
              r.log[|l.log| + i] == rows[i] + "," + cage + "," + today + ",Storaged"
    decreases |rows|
  {
    if |rows| == 0 then l
    else
      var line := rows[0] + "," + cage + "," + today;
      var next := Ledger(l.rows + [Split(line, ',')], l.log + [line + ",Storaged"]);
      var r := CommitRows(next, rows[1..], cage, today);
      assert forall i :: 1 <= i < |rows| ==> rows[1..][i - 1] == rows[i];
      r
  }

  /** Each committed ledger row is the collected row's fields followed by the
      cage number and the date, when neither holds a comma. */
  lemma CommittedRowFields(l: Ledger, rows: seq<string>, cage: string, today: string, i: nat)
    requires i < |rows| && ',' !in cage && ',' !in today
    ensures CommitRows(l, rows, cage, today).rows[|l.rows| + i]
            == Split(rows[i], ',') + [cage, today]
  {
    var line := rows[i] + "," + cage + "," + today;
    assert CommitRows(l, rows, cage, today).rows[|l.rows| + i] == Split(line, ',');
    SplitWithCageAndDate(rows[i], cage, today);
  }

  /** A ledger line `row,cage,date` splits into the row's fields followed
      by the cage number and the date. */
  lemma SplitWithCageAndDate(row: string, cage: string, today: string)
    requires ',' !in cage && ',' !in today
    ensures Split(row + "," + cage + "," + today, ',') == Split(row, ',') + [cage, today]
  {
    assert row + "," + cage + "," + today == row + [','] + (cage + [','] + today);
    SplitAppend(row, cage + [','] + today, ',');
    SplitAppend(cage, today, ',');
    SplitNoSep(cage, ',');
    SplitNoSep(today, ',');
  }

  /** Storing a line and then delivering it by a key that only the new row
      matches gives back the ledger rows as they were. */
  lemma StoreThenDeleteRestores(l: Ledger, line: string, key: seq<string>, today: string)
    requires Store(l, line).Ok?
    requires Matches(Split(line, ','), key)
    requires forall j :: 0 <= j < |l.rows| ==> !Matches(l.rows[j], key)
    ensures Delete(Store(l, line).value, key, today).Ok?
    ensures Delete(Store(l, line).value, key, today).value.0.rows == l.rows
    ensures Delete(Store(l, line).value, key, today).value.0.log
            == l.log + [Strip(line) + ",Storaged", DeliveredLine(Split(line, ','), today) + ",Delivered"]
  {
    var l1 := Store(l, line).value;
    var rows := l1.rows;
    assert rows == l.rows + [Split(line, ',')];
    assert Matches(rows[|l.rows|], key);
    assert forall j :: 0 <= j < |l.rows| ==> !Matches(rows[j], key);
    var m := FirstMatch(rows, key);
    assert m.Some? && m.value == |l.rows|;
    assert rows[..|l.rows|] + rows[|l.rows| + 1..] == l.rows;
    var d := Delete(l1, key, today);
    assert d.value.0.rows == rows[..|l.rows|] + rows[|l.rows| + 1..];
    assert d.value.0.log == l1.log + [DeliveredLine(rows[|l.rows|], today) + ",Delivered"];
    assert l1.log == l.log + [Strip(line) + ",Storaged"];
    var a := Strip(line) + ",Storaged";
    var b := DeliveredLine(Split(line, ','), today) + ",Delivered";
    SeqPair(l.log, a, b);
  }

  lemma SeqPair(xs: seq<string>, a: string, b: string)
    ensures xs + [a] + [b] == xs + [a, b]
  {
  }

  const StoragedTag := ",Storaged"
  const DeliveredTag := ",Delivered"

  /** The number of log lines carrying the given tag at their end. */
  function Tally(log: seq<string>, tag: string): (n: nat)
    ensures n <= |log|
    decreases |log|
  {
    if |log| == 0 then 0
    else Tally(log[..|log| - 1], tag) + (if EndsWith(log[|log| - 1], tag) then 1 else 0)
  }

  lemma {:induction false} TallyAppend(a: seq<string>, b: seq<string>, tag: string)
    ensures Tally(a + b, tag) == Tally(a, tag) + Tally(b, tag)
    decreases |b|
  {
    if |b| > 0 {
      assert (a + b)[..|a + b| - 1] == a + b[..|b| - 1];
      TallyAppend(a, b[..|b| - 1], tag);
    } else {
      assert a + b == a;
    }
  }

  /** A log extension whose every line carries the tag counts each line. */
  lemma {:induction false} TallyAllTagged(xs: seq<string>, tag: string)
    requires forall i :: 0 <= i < |xs| ==> EndsWith(xs[i], tag)
    ensures Tally(xs, tag) == |xs|
    decreases |xs|
  {
    if |xs| > 0 {
      TallyAllTagged(xs[..|xs| - 1], tag);
    }
  }

  /** A log extension no line of which carries the tag counts nothing. */
  lemma {:induction false} TallyNoneTagged(xs: seq<string>, tag: string)
    requires forall i :: 0 <= i < |xs| ==> !EndsWith(xs[i], tag)
    ensures Tally(xs, tag) == 0
    decreases |xs|
  {
    if |xs| > 0 {
      TallyNoneTagged(xs[..|xs| - 1], tag);
    }
  }

  /** A "Storaged" line is not a "Delivered" one and the other way round. */
  lemma TagsDistinct(x: string)
    ensures EndsWith(x + StoragedTag, StoragedTag) && !EndsWith(x + StoragedTag, DeliveredTag)
    ensures EndsWith(x + DeliveredTag, DeliveredTag) && !EndsWith(x + DeliveredTag, StoragedTag)
  {
    var s := x + StoragedTag;
    var d := x + DeliveredTag;
    assert s[|s| - |StoragedTag|..] == StoragedTag;
    assert d[|d| - |DeliveredTag|..] == DeliveredTag;
    if |DeliveredTag| <= |s| {
      assert s[|s| - |DeliveredTag|..][1] == StoragedTag[0];
    }
    assert d[|d| - |StoragedTag|..][0] == DeliveredTag[1];
  }

  /** The ledger's balance: rows held, plus rows delivered, minus rows
      stored, as the log counts them. Every write keeps it. */
  function Balance(l: Ledger): (b: int) {
    |l.rows| + Tally(l.log, DeliveredTag) - Tally(l.log, StoragedTag)
  }

  /** Storing a row adds one row and one "Storaged" line. */
  lemma StoreKeepsBalance(l: Ledger, line: string)
    requires Store(l, line).Ok?
    ensures Balance(Store(l, line).value) == Balance(l)
  {
    var after := Store(l, line).value;
    TagsDistinct(Strip(line));
    OneMoreStored(l, after, Strip(line) + StoragedTag);
  }

  /** One row more and one "Storaged" line more keep the balance. */
  lemma OneMoreStored(l: Ledger, after: Ledger, entry: string)
    requires |after.rows| == |l.rows| + 1 && after.log == l.log + [entry]
    requires EndsWith(entry, StoragedTag) && !EndsWith(entry, DeliveredTag)
    ensures Balance(after) == Balance(l)
  {
    TallyAppend(l.log, [entry], StoragedTag);
    TallyAppend(l.log, [entry], DeliveredTag);
    TallyAllTagged([entry], StoragedTag);
    TallyNoneTagged([entry], DeliveredTag);
  }

  /** A delivery removes one row and adds one "Delivered" line. */
  lemma DeleteKeepsBalance(l: Ledger, key: seq<string>, today: string)
    requires Delete(l, key, today).Ok?
    ensures Balance(Delete(l, key, today).value.0) == Balance(l)
  {
    var i := FirstMatch(l.rows, key).value;
    TagsDistinct(DeliveredLine(l.rows[i], today));
    OneLessDelivered(l, Delete(l, key, today).value.0, DeliveredLine(l.rows[i], today) + DeliveredTag);
  }

  /** One row fewer and one "Delivered" line more keep the balance. */
  lemma OneLessDelivered(l: Ledger, after: Ledger, entry: string)
    requires |after.rows| + 1 == |l.rows| && after.log == l.log + [entry]
    requires EndsWith(entry, DeliveredTag) && !EndsWith(entry, StoragedTag)
    ensures Balance(after) == Balance(l)
  {
    TallyAppend(l.log, [entry], StoragedTag);
    TallyAppend(l.log, [entry], DeliveredTag);
    TallyAllTagged([entry], DeliveredTag);
    TallyNoneTagged([entry], StoragedTag);
  }

  /** Committing n collected rows adds n rows and n "Storaged" lines. */
  lemma CommitKeepsBalance(l: Ledger, rows: seq<string>, cage: string, today: string)
    ensures Balance(CommitRows(l, rows, cage, today)) == Balance(l)
  {
    var r := CommitRows(l, rows, cage, today);
    var added := r.log[|l.log|..];
    CommitLogTagged(l, rows, cage, today);
    TallyAppend(l.log, added, StoragedTag);
    TallyAppend(l.log, added, DeliveredTag);
    TallyAllTagged(added, StoragedTag);
    TallyNoneTagged(added, DeliveredTag);
  }

  /** Every log line a commit adds is a "Storaged" line. */
  lemma CommitLogTagged(l: Ledger, rows: seq<string>, cage: string, today: string)
    ensures var r := CommitRows(l, rows, cage, today);
            var added := r.log[|l.log|..];
            && r.log == l.log + added
            && (forall i :: 0 <= i < |added| ==> EndsWith(added[i], StoragedTag))
            && (forall i :: 0 <= i < |added| ==> !EndsWith(added[i], DeliveredTag))
  {
    var r := CommitRows(l, rows, cage, today);
    var added := r.log[|l.log|..];
    assert r.log == l.log + added;
    forall i | 0 <= i < |added|
      ensures EndsWith(added[i], StoragedTag) && !EndsWith(added[i], DeliveredTag)
    {
      assert added[i] == rows[i] + "," + cage + "," + today + StoragedTag;
      TagsDistinct(rows[i] + "," + cage + "," + today);
    }
  }

  /** The log's header line carries neither tag. */
  lemma LogHeaderUntagged()
    ensures !EndsWith(LogHeader, StoragedTag) && !EndsWith(LogHeader, DeliveredTag)
  {
    assert LogHeader[|LogHeader| - 1] == 'n';
  }
}
