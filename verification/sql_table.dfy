/** The export converter (`CSVProcessor`): it turns a category day file or a
    daily summary file into SQL-ready rows, each row's fields trimmed and
    followed by the operation and the date, the date taken from the file's
    name `dd-mm-yyyy.csv` and written `yyyy-mm-dd`. The file's lines, its
    base name and its parent folder's name are given as values; the result
    is the list of rows appended to output files, in order, together with
    the exception that stopped the conversion, if any. */
module SqlTable {
  import opened Text
  import opened Basics

  const BaseHeader := "Ref,Item No.,NC#,Field 1,Field 2,Description,Area(m^2)(Metal),Area(m^2)(Ins)"
  const SumTail := ",Opreation,Sum:"

  /** The header of a summary file (the misspelling is the program's). */
  function SumHeader(): (h: string) {
    BaseHeader + SumTail
  }

  /** One appended row: `row` followed by a line break, at the end of `file`. */
  datatype Write = Write(file: string, row: string)

  /** The exceptions that stop a conversion.
      - `BadDate`: `strptime` rejects the file name (ValueError);
      - `Unrecognized`: the first line is neither header (ValueError);
      - `EmptyFile`: there is no first line (IndexError);
      - `DateUnbound`: a data row comes before any date row
        (UnboundLocalError);
      - `MissingOperation`: a data row has no field 8 (IndexError). */
  datatype Failure = BadDate | Unrecognized | EmptyFile | DateUnbound | MissingOperation

  /** The rows written, in order, and the exception that ended the run;
      rows written before an exception stay written. */
  datatype Export = Export(writes: seq<Write>, failure: Option<Failure>)

  // -------------------------------------------------------------------
  // Dates

  datatype Date = Date(day: int, month: int, year: int)

  predicate IsLeap(year: int) {
    year % 4 == 0 && (year % 100 != 0 || year % 400 == 0)
  }

  function DaysInMonth(month: int, year: int): (n: int)
    requires 1 <= month <= 12
  {
    if month == 2 then (if IsLeap(year) then 29 else 28)
    else if month == 4 || month == 6 || month == 9 || month == 11 then 30
    else 31
  }

  /** A calendar date `datetime` accepts. */
  predicate ValidDate(d: Date) {
    1 <= d.year <= 9999 && 1 <= d.month <= 12 && 1 <= d.day <= DaysInMonth(d.month, d.year)
  }

  function DigitValue(c: char): (n: int)
    requires IsDigit(c)
    ensures 0 <= n <= 9
  {
    c as int - '0' as int
  }

  function DigitChar(n: int): (c: char)
    requires 0 <= n <= 9
    ensures IsDigit(c) && DigitValue(c) == n
  {
    ('0' as int + n) as char
  }

  /** The `%d` directive: "1".."9", "01".."09", " 1".." 9", "10".."31". */
  function DayValue(s: string): (r: Option<int>)
    ensures r.Some? ==> 1 <= r.value <= 31
  {
    if |s| == 1 && '1' <= s[0] <= '9' then Some(DigitValue(s[0]))
    else if |s| == 2 && (s[0] == '0' || s[0] == ' ') && '1' <= s[1] <= '9' then Some(DigitValue(s[1]))
    else if |s| == 2 && (s[0] == '1' || s[0] == '2') && IsDigit(s[1]) then Some(10 * DigitValue(s[0]) + DigitValue(s[1]))
    else if |s| == 2 && s[0] == '3' && (s[1] == '0' || s[1] == '1') then Some(30 + DigitValue(s[1]))
    else None
  }

  /** The `%m` directive: "1".."9", "01".."09", "10".."12". */
  function MonthValue(s: string): (r: Option<int>)
    ensures r.Some? ==> 1 <= r.value <= 12
  {
    if |s| == 1 && '1' <= s[0] <= '9' then Some(DigitValue(s[0]))
    else if |s| == 2 && s[0] == '0' && '1' <= s[1] <= '9' then Some(DigitValue(s[1]))
    else if |s| == 2 && s[0] == '1' && '0' <= s[1] <= '2' then Some(10 + DigitValue(s[1]))
    else None
  }

  /** The `%Y` directive: exactly four digits. */
  function YearValue(s: string): (r: Option<int>)
    ensures r.Some? ==> 0 <= r.value <= 9999
  {
    if |s| == 4 && IsDigit(s[0]) && IsDigit(s[1]) && IsDigit(s[2]) && IsDigit(s[3]) then
      Some(1000 * DigitValue(s[0]) + 100 * DigitValue(s[1]) + 10 * DigitValue(s[2]) + DigitValue(s[3]))
    else None
  }

  /** `datetime.strptime(stem, '%d-%m-%Y')`: day, month and year separated by
      single dashes with nothing after the year, and a date that exists. */
  function ParseDate(stem: string): (r: Option<Date>)
    ensures r.Some? ==> ValidDate(r.value)
  {
    var parts := Split(stem, '-');
    if |parts| != 3 then None
    else
      match (DayValue(parts[0]), MonthValue(parts[1]), YearValue(parts[2]))
      case (Some(d), Some(m), Some(y)) =>
        if 1 <= y && d <= DaysInMonth(m, y) then Some(Date(d, m, y)) else None
      case _ => None
  }

  function Pad2(n: int): (s: string)
    requires 0 <= n <= 99
    ensures |s| == 2
  {
    [DigitChar(n / 10), DigitChar(n % 10)]
  }

  function Pad4(n: int): (s: string)
    requires 0 <= n <= 9999
    ensures |s| == 4
  {
    [DigitChar(n / 1000), DigitChar(n / 100 % 10), DigitChar(n / 10 % 10), DigitChar(n % 10)]
  }

  /** `strftime('%Y-%m-%d')`. */
  function IsoDate(d: Date): (s: string)
    requires ValidDate(d)
    ensures |s| == 10 && s[4] == '-' && s[7] == '-' && ',' !in s
  {
    Pad4(d.year) + "-" + Pad2(d.month) + "-" + Pad2(d.day)
  }

  /** The name form `dd-mm-yyyy` the day files are given. */
  function DayFileDate(d: Date): (s: string)
    requires ValidDate(d)
    ensures |s| == 10 && s[2] == '-' && s[5] == '-'
  {
    Pad2(d.day) + "-" + Pad2(d.month) + "-" + Pad4(d.year)
  }

  /** The output date of a file: its base name with '.', 'c', 's' and 'v'
      stripped from both ends (`str.strip(".csv")`), parsed and reordered. */
  function OutputDate(baseName: string): (r: Option<string>)
    ensures r.Some? ==> |r.value| == 10 && ',' !in r.value
  {
    match ParseDate(StripChars(baseName, ".csv"))
    case None => None
    case Some(d) => Some(IsoDate(d))
  }

  lemma DigitRoundTrip(n: int)
    requires 0 <= n <= 99
    ensures DigitValue(Pad2(n)[0]) * 10 + DigitValue(Pad2(n)[1]) == n
  {
  }

  lemma DayRoundTrip(n: int)
    requires 1 <= n <= 31
    ensures DayValue(Pad2(n)) == Some(n)
  {
    DigitRoundTrip(n);
  }

  lemma MonthRoundTrip(n: int)
    requires 1 <= n <= 12
    ensures MonthValue(Pad2(n)) == Some(n)
  {
    DigitRoundTrip(n);
  }

  lemma YearRoundTrip(n: int)
    requires 0 <= n <= 9999
    ensures YearValue(Pad4(n)) == Some(n)
  {
    assert n == 10 * (n / 10) + n % 10;
    assert n / 10 == 10 * (n / 100) + n / 10 % 10;
    assert n / 100 == 10 * (n / 1000) + n / 100 % 10;
  }

  lemma SplitThree(a: string, b: string, c: string)
    requires '-' !in a && '-' !in b && '-' !in c
    ensures Split(a + "-" + b + "-" + c, '-') == [a, b, c]
  {
    assert a + "-" + b + "-" + c == a + ['-'] + (b + ['-'] + c);
    SplitAppend(a, b + ['-'] + c, '-');
    SplitAppend(b, c, '-');
    SplitNoSep(a, '-');
    SplitNoSep(b, '-');
    SplitNoSep(c, '-');
  }

  /** Every valid date written `dd-mm-yyyy` parses back to itself. */
  lemma ParseDayFileDate(d: Date)
    requires ValidDate(d)
    ensures ParseDate(DayFileDate(d)) == Some(d)
  {
    var a, b, c := Pad2(d.day), Pad2(d.month), Pad4(d.year);
    SplitThree(a, b, c);
    DayRoundTrip(d.day);
    MonthRoundTrip(d.month);
    YearRoundTrip(d.year);
  }

  /** The day file of a date converts to that date written `yyyy-mm-dd`. */
  lemma OutputDateOfDayFile(d: Date)
    requires ValidDate(d)
    ensures OutputDate(DayFileDate(d) + ".csv") == Some(IsoDate(d))
  {
    var stem := DayFileDate(d);
    StripCsvOfDate(stem);
    ParseDayFileDate(d);
  }

  /** A name that starts and ends with a digit loses exactly its ".csv" to
      `strip(".csv")`. */
  lemma StripCsvOfDate(stem: string)
    requires |stem| > 0 && IsDigit(stem[0]) && IsDigit(stem[|stem| - 1])
    ensures StripChars(stem + ".csv", ".csv") == stem
  {
    StripCharsTail(stem, ".csv", ".csv");
  }

  // -------------------------------------------------------------------
  // The two conversions

  /** A date row of a summary file: exactly ten comma fields, line break
      included. */
  predicate IsDateRow(line: string) {
    |Split(line, ',')| == 10
  }

  /** The output of a summary data row: its trimmed fields and the date, in
      the file of its operation (field 8, spaces trimmed). */
  function SummaryWrite(line: string, date: string): (w: Write)
    requires NamesOperation(line)
  {
    var fields := Split(Strip(line), ',');
    Write("SQL_" + date + "_" + StripSpaces(fields[8]) + ".csv", Join(MapStrip(fields) + [date], ','))
  }

  /** The data rows of a summary file, date rows left out. */
  function DataRows(lines: seq<string>): (r: seq<string>)
    ensures |r| <= |lines|
    ensures forall i :: 0 <= i < |r| ==> r[i] in lines && !IsDateRow(r[i])
  {
    if |lines| == 0 then []
    else if IsDateRow(lines[0]) then DataRows(lines[1..])
    else [lines[0]] + DataRows(lines[1..])
  }

  /** A data row long enough to name an operation: it has a field 8. */
  predicate NamesOperation(line: string) {
    |Split(Strip(line), ',')| > 8
  }

  /** Every data row is long enough to name an operation. */
  predicate HasOperations(rows: seq<string>) {
    forall i :: 0 <= i < |rows| ==> NamesOperation(rows[i])
  }

  function SummaryWrites(rows: seq<string>, date: string): (r: seq<Write>)
    requires HasOperations(rows)
    ensures |r| == |rows|
    ensures forall i :: 0 <= i < |rows| ==> r[i] == SummaryWrite(rows[i], date)
  {
    seq(|rows|, i requires 0 <= i < |rows| => SummaryWrite(rows[i], date))
  }

  /** `SQL_operation` from a given point: `date` is the variable's value so
      far (unbound before the first date row). A date row (re)binds it from
      the file name; any other row names its operation first and then needs
      the date. */
  function Summary(lines: seq<string>, baseName: string, date: Option<string>): (r: Export)
    requires date.None? || date == OutputDate(baseName)
    ensures r.failure == Some(BadDate) ==> OutputDate(baseName).None?
    ensures r.failure.None? ==>
      && HasOperations(DataRows(lines))
      && (|DataRows(lines)| > 0 ==> OutputDate(baseName).Some?)
      && r.writes == SummaryWrites(DataRows(lines), if OutputDate(baseName).Some? then OutputDate(baseName).value else "")
    ensures r.failure.Some? ==> r.failure.value in {BadDate, DateUnbound, MissingOperation}
    ensures date.None? && |lines| > 0 && !IsDateRow(lines[0]) && NamesOperation(lines[0]) ==>
      r.failure == Some(DateUnbound)
    decreases |lines|
  {
    if |lines| == 0 then Export([], None)
    else if IsDateRow(lines[0]) then
      match OutputDate(baseName)
      case None => Export([], Some(BadDate))
      case Some(d) => Summary(lines[1..], baseName, Some(d))
    else
      var fields := Split(Strip(lines[0]), ',');
      if |fields| <= 8 then Export([], Some(MissingOperation))
      else if date.None? then Export([], Some(DateUnbound))
      else
        var rest := Summary(lines[1..], baseName, date);
        var w := SummaryWrite(lines[0], date.value);
        assert DataRows(lines) == [lines[0]] + DataRows(lines[1..]);
        var r := Export([w] + rest.writes, rest.failure);
        if rest.failure.None? then
          SummaryWritesCons(lines[0], DataRows(lines[1..]), date.value);
          r
        else r
  }

  lemma SummaryWritesCons(line: string, rows: seq<string>, date: string)
    requires NamesOperation(line) && HasOperations(rows)
    ensures HasOperations([line] + rows)
    ensures SummaryWrites([line] + rows, date) == [SummaryWrite(line, date)] + SummaryWrites(rows, date)
  {
    var all := [line] + rows;
    HasOperationsCons(line, rows);
    var a := SummaryWrites(all, date);
    var b := [SummaryWrite(line, date)] + SummaryWrites(rows, date);
    forall i | 0 <= i < |a|
      ensures a[i] == b[i]
    {
      if i > 0 {
        assert all[i] == rows[i - 1];
      }
    }
  }

  /** When a summary conversion runs to the end: every data row names an
      operation, the file name is a date if any row is a date row, and the
      date is bound before the first data row (so, from the start, the file
      opens with a date row unless it has no data rows). */
  predicate SummaryConverts(lines: seq<string>, baseName: string, date: Option<string>) {
    && HasOperations(DataRows(lines))
    && ((exists i :: 0 <= i < |lines| && IsDateRow(lines[i])) ==> OutputDate(baseName).Some?)
    && (date.Some? || |DataRows(lines)| == 0 || IsDateRow(lines[0]))
  }

  /** The conversion succeeds exactly when `SummaryConverts` holds. */
  lemma {:induction false} SummaryConvertsIff(lines: seq<string>, baseName: string, date: Option<string>)
    requires date.None? || date == OutputDate(baseName)
    ensures Summary(lines, baseName, date).failure.None? <==> SummaryConverts(lines, baseName, date)
    decreases |lines|
  {
    if |lines| > 0 {
      if IsDateRow(lines[0]) {
        if OutputDate(baseName).Some? {
          SummaryConvertsIff(lines[1..], baseName, OutputDate(baseName));
          ConvertsAfterDateRow(lines, baseName, date);
        } else {
          assert !SummaryConverts(lines, baseName, date);
        }
      } else {
        DataRowsCons(lines);
        if !NamesOperation(lines[0]) {
          assert DataRows(lines)[0] == lines[0];
          assert !HasOperations(DataRows(lines));
        } else if date.Some? {
          SummaryConvertsIff(lines[1..], baseName, date);
          ConvertsAfterDataRow(lines, baseName, date);
        }
      }
    }
  }

  lemma DataRowsCons(lines: seq<string>)
    requires |lines| > 0 && !IsDateRow(lines[0])
    ensures DataRows(lines) == [lines[0]] + DataRows(lines[1..])
  {
  }

  /** After a date row that binds the date, the rest decides. */
  lemma ConvertsAfterDateRow(lines: seq<string>, baseName: string, date: Option<string>)
    requires |lines| > 0 && IsDateRow(lines[0]) && OutputDate(baseName).Some?
    ensures SummaryConverts(lines, baseName, date) <==> SummaryConverts(lines[1..], baseName, OutputDate(baseName))
  {
    assert DataRows(lines) == DataRows(lines[1..]);
  }

  /** After a data row that names its operation, with the date bound, the
      rest decides. */
  lemma ConvertsAfterDataRow(lines: seq<string>, baseName: string, date: Option<string>)
    requires |lines| > 0 && !IsDateRow(lines[0]) && NamesOperation(lines[0])
    requires date.Some? && date == OutputDate(baseName)
    ensures SummaryConverts(lines, baseName, date) <==> SummaryConverts(lines[1..], baseName, date)
  {
    DataRowsCons(lines);
    HasOperationsCons(lines[0], DataRows(lines[1..]));
  }

  lemma HasOperationsCons(x: string, xs: seq<string>)
    ensures HasOperations([x] + xs) <==> NamesOperation(x) && HasOperations(xs)
  {
    var all := [x] + xs;
    assert all[0] == x;
    assert forall k :: 0 <= k < |xs| ==> all[k + 1] == xs[k];
    if HasOperations(all) {
      forall k | 0 <= k < |xs|
        ensures NamesOperation(xs[k])
      {
        assert all[k + 1] == xs[k];
      }
    }
  }

  /** `SQL_operation`. */
  function SqlOperation(lines: seq<string>, baseName: string): (r: Export)
    ensures r.failure.None? ==>
      var date := if OutputDate(baseName).Some? then OutputDate(baseName).value else "";
      HasOperations(DataRows(lines)) && r.writes == SummaryWrites(DataRows(lines), date)
    ensures r.failure.Some? ==> r.failure.value in {BadDate, DateUnbound, MissingOperation}
    ensures r.failure.None? <==> SummaryConverts(lines, baseName, None)
    ensures |lines| > 0 && !IsDateRow(lines[0]) && NamesOperation(lines[0]) ==>
      r.failure == Some(DateUnbound)
  {
    SummaryConvertsIff(lines, baseName, None);
    Summary(lines, baseName, None)
  }

  /** The output of a day-file row: its trimmed fields, the operation and
      the date. */
  function DayRowWrite(line: string, operation: string, date: string): (w: Write) {
    Write("SQL_" + date + "_" + operation + ".csv", Join(MapStrip(Split(Strip(line), ',')) + [operation, date], ','))
  }

  /** `SQL_operation2`: the operation is the parent folder's name with its
      spaces trimmed; the date is checked before anything is written; every
      line after the header becomes one row of the single output file. */
  function SqlOperation2(lines: seq<string>, parent: string, baseName: string): (r: Export)
    ensures r.failure.Some? <==> OutputDate(baseName).None?
    ensures r.failure.Some? ==> r.failure.value == BadDate && r.writes == []
    ensures r.failure.None? ==>
      var operation := StripSpaces(parent);
      var date := OutputDate(baseName).value;
      && |r.writes| == (if |lines| == 0 then 0 else |lines| - 1)
      && forall i :: 0 <= i < |r.writes| ==>
           r.writes[i] == DayRowWrite(lines[i + 1], operation, date)
           && r.writes[i].file == "SQL_" + date + "_" + operation + ".csv"
  {
    var operation := StripSpaces(parent);
    match OutputDate(baseName)
    case None => Export([], Some(BadDate))
    case Some(date) =>
      var rows := if |lines| == 0 then [] else lines[1..];
      Export(seq(|rows|, i requires 0 <= i < |rows| => DayRowWrite(rows[i], operation, date)), None)
  }

  /** `operation_select`: the first line picks the conversion; the summary
      header is tested first. */
  function OperationSelect(lines: seq<string>, parent: string, baseName: string): (r: Export)
    ensures |lines| == 0 ==> r == Export([], Some(EmptyFile))
    ensures |lines| > 0 && !(BaseHeader <= lines[0]) ==> r == Export([], Some(Unrecognized))
    ensures |lines| > 0 && SumHeader() <= lines[0] ==> r == SqlOperation(lines, baseName)
    ensures |lines| > 0 && BaseHeader <= lines[0] && !(SumHeader() <= lines[0]) ==>
      r == SqlOperation2(lines, parent, baseName)
  {
    if |lines| == 0 then Export([], Some(EmptyFile))
    else if SumHeader() <= lines[0] then
      BaseIsPrefixOfSum(lines[0]);
      SqlOperation(lines, baseName)
    else if BaseHeader <= lines[0] then SqlOperation2(lines, parent, baseName)
    else Export([], Some(Unrecognized))
  }

  /** A summary header also begins with the base header, so the dispatch
      depends on testing the longer header first. */
  lemma BaseIsPrefixOfSum(line: string)
    requires SumHeader() <= line
    ensures BaseHeader <= line
  {
    assert line[..|BaseHeader|] == SumHeader()[..|BaseHeader|];
  }

  /** A day-file row converts to its own fields, trimmed, followed by the
      operation and the date: two fields more than it had. */
  lemma DayRowFields(line: string, operation: string, date: string)
    requires ',' !in operation && ',' !in date
    ensures var fields := Split(Strip(line), ',');
            Split(DayRowWrite(line, operation, date).row, ',') == MapStrip(fields) + [operation, date]
            && |Split(DayRowWrite(line, operation, date).row, ',')| == |fields| + 2
  {
    var fields := Split(Strip(line), ',');
    var out := MapStrip(fields) + [operation, date];
    MapStripNoSep(fields, ',');
    assert forall i :: 0 <= i < |out| ==> ',' !in out[i];
    SplitJoin(out, ',');
  }

  /** A summary data row converts to its own fields, trimmed, followed by
      the date: one field more than it had. */
  lemma SummaryRowFields(line: string, date: string)
    requires NamesOperation(line) && ',' !in date
    ensures var fields := Split(Strip(line), ',');
            Split(SummaryWrite(line, date).row, ',') == MapStrip(fields) + [date]
  {
    var fields := Split(Strip(line), ',');
    var out := MapStrip(fields) + [date];
    MapStripNoSep(fields, ',');
    assert forall i :: 0 <= i < |out| ==> ',' !in out[i];
    SplitJoin(out, ',');
  }
}
