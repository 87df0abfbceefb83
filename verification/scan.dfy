/** The scan-payload grammar of the tracker: the two regular expressions the
    dispatcher tests, the "exit t" escape, and the three ways a payload is cut
    into fields (storage rows, category rows and deletion keys). Regular
    expressions become predicates over the text. */
module Scan {
  import opened Text
  import opened Basics

  const InvalidQr := "Invalid QR code"

  /** Length of the run of ASCII digits at the start of `s`. */
  function DigitRun(s: string): (k: nat)
    ensures k <= |s|
    ensures forall i :: 0 <= i < k ==> IsDigit(s[i])
    ensures k < |s| ==> !IsDigit(s[k])
    decreases |s|
  {
    if |s| > 0 && IsDigit(s[0]) then 1 + DigitRun(s[1..]) else 0
  }

  /** `re.match(r'^\d+ T', data)`: digits then " T", anchored at the start
      only, so text may follow the " T". */
  predicate IsCageStart(data: string) {
    var k := DigitRun(data);
    1 <= k && k + 2 <= |data| && data[k..k + 2] == " T"
  }

  /** The regular expression read literally: some non-empty digit prefix is
      followed by " T". */
  predicate CageStartAt(data: string, k: int) {
    1 <= k && k + 2 <= |data| && IsDigits(data[..k]) && data[k..k + 2] == " T"
  }

  /** The greedy digit run decides the regular expression: there is no other
      way to split a match, since the character after the digits is a space. */
  lemma CageStartIff(data: string)
    ensures IsCageStart(data) <==> exists k :: CageStartAt(data, k)
  {
    var n := DigitRun(data);
    if IsCageStart(data) {
      assert CageStartAt(data, n);
    }
    if exists k :: CageStartAt(data, k) {
      var k :| CageStartAt(data, k);
      assert forall i :: 0 <= i < k ==> IsDigit(data[..k][i]);
      assert !IsDigit(data[k]);
      assert n == k;
    }
  }

  /** `re.match(r'^\d+-[A-Z]-[A-Z] T$', data)` on stripped text (so `$` can
      only match at the very end): a location code followed by " T". */
  predicate IsLocationScan(data: string) {
    var n := |data|;
    n >= 7 && IsDigits(data[..n - 6]) && data[n - 6] == '-' && IsUpper(data[n - 5])
    && data[n - 4] == '-' && IsUpper(data[n - 3]) && data[n - 2..] == " T"
  }

  /** A location scan never matches the numeric-cage pattern: its digit run
      is followed by '-', not by a space. So the order of those two tests in
      the dispatcher does not matter. */
  lemma LocationScanIsNotCageStart(data: string)
    requires IsLocationScan(data)
    ensures !IsCageStart(data)
    ensures EndsWith(data, " T")
  {
    var n := |data|;
    var k := DigitRun(data);
    var digits := data[..n - 6];
    assert forall i :: 0 <= i < |digits| ==> data[i] == digits[i];
    assert !IsDigit(data[n - 6]);
    assert k == n - 6;
  }

  /** The scanned "exit t" escape, compared after lower-casing. */
  predicate IsExit(data: string) {
    Lower(data) == "exit t"
  }

  /** Python `del xs[i]`. */
  function DelAt<T>(xs: seq<T>, i: nat): (r: seq<T>)
    requires i < |xs|
    ensures |r| == |xs| - 1
  {
    xs[..i] + xs[i + 1..]
  }

  /** `del t_data[6], t_data[-2], t_data[-1]`: three deletions performed one
      after the other, the negative indices counted on the already shortened
      list. */
  function DropScanFields(f: seq<string>): (r: seq<string>)
    requires |f| >= 10
    ensures r == f[..6] + f[7..|f| - 2]
  {
    var a := DelAt(f, 6);
    var b := DelAt(a, |a| - 2);
    var c := DelAt(b, |b| - 1);
    assert c == b[..|b| - 1];
    assert b == a[..|a| - 2] + [a[|a| - 1]];
    assert a[..|a| - 2] == f[..6] + f[7..|f| - 2];
    c
  }

  /** The fields of a storage payload: suffix dropped, stripped, split. */
  function PayloadFields(data: string): (f: seq<string>) {
    Split(Strip(DropLast2(data)), ',')
  }

  /** An empty scan has a single, empty field. */
  lemma EmptyPayload(data: string)
    requires |data| == 0
    ensures |PayloadFields(data)| == 1
  {
    var t := DropLast2(data);
    assert |t| == 0;
    StripFixed(t);
    var u := Strip(t);
    assert |u| == 0;
    assert Split(u, ',') == [""];
  }

  /** A payload that normalises is not empty. */
  lemma NormalizedNonEmpty(data: string)
    requires NormalizeStorageRow(data).Ok?
    ensures |data| > 0
  {
    if |data| == 0 {
      EmptyPayload(data);
    }
  }

  /** Stripped comma-free fields survive a join and a split unchanged. */
  lemma SplitJoinStripped(xs: seq<string>)
    requires |xs| >= 1
    requires forall i :: 0 <= i < |xs| ==> ',' !in xs[i]
    ensures Split(Join(MapStrip(xs), ','), ',') == MapStrip(xs)
  {
    MapStripNoSep(xs, ',');
    SplitJoin(MapStrip(xs), ',');
  }

  /** The storage-row normalisation shared by the storage-start and the
      duct-scan branches: at least ten fields are required; field 6 and the
      last two fields are dropped, the rest stripped and re-joined. */
  function NormalizeStorageRow(data: string): (r: Result<string>)
    ensures r.Err? <==> |PayloadFields(data)| < 10
    ensures r.Err? ==> r.msg == InvalidQr
    ensures r.Ok? ==>
      var f := PayloadFields(data);
      Split(r.value, ',') == MapStrip(f[..6] + f[7..|f| - 2])
  {
    var f := PayloadFields(data);
    if |f| < 10 then Err(InvalidQr)
    else
      KeptRejoins(f);
      Ok(Join(MapStrip(DropScanFields(f)), ','))
  }

  /** The kept fields of a comma-free field list split back apart after
      being stripped and re-joined. */
  lemma KeptRejoins(f: seq<string>)
    requires |f| >= 10
    requires forall i :: 0 <= i < |f| ==> ',' !in f[i]
    ensures Split(Join(MapStrip(DropScanFields(f)), ','), ',') == MapStrip(f[..6] + f[7..|f| - 2])
  {
    var kept := f[..6] + f[7..|f| - 2];
    assert forall i :: 0 <= i < |kept| ==> kept[i] == f[if i < 6 then i else i + 1];
    SplitJoinStripped(kept);
  }

  /** A normalised storage row has exactly three fields fewer than the
      payload, each stripped, and starts with the payload's first three
      fields stripped: the composite key of the item. */
  lemma NormalizedShape(data: string)
    requires NormalizeStorageRow(data).Ok?
    ensures var f := PayloadFields(data);
            var g := Split(NormalizeStorageRow(data).value, ',');
            |g| == |f| - 3 && g[..3] == MapStrip(f[..3])
            && (forall i :: 0 <= i < |g| ==> NoEdgeSpace(g[i]))
  {
    var f := PayloadFields(data);
    KeptShape(f);
  }

  lemma KeptShape(f: seq<string>)
    requires |f| >= 10
    ensures var g := MapStrip(f[..6] + f[7..|f| - 2]);
            |g| == |f| - 3 && g[..3] == MapStrip(f[..3])
            && (forall i :: 0 <= i < |g| ==> NoEdgeSpace(g[i]))
  {
    var kept := f[..6] + f[7..|f| - 2];
    var g := MapStrip(kept);
    assert forall i :: 0 <= i < |g| ==> g[i] == Strip(kept[i]);
    assert forall i :: 0 <= i < 3 ==> kept[i] == f[..3][i];
    assert forall i :: 0 <= i < 3 ==> MapStrip(f[..3])[i] == Strip(f[..3][i]);
  }

  /** `del s_data[6:9]`: a slice deletion, which shortens the list as far as
      it reaches and never raises. */
  function DelSlice<T>(xs: seq<T>, lo: nat, hi: nat): (r: seq<T>)
    requires lo <= hi
  {
    if |xs| <= lo then xs
    else if |xs| <= hi then xs[..lo]
    else xs[..lo] + xs[hi..]
  }

  lemma DelSliceNoSep(f: seq<string>)
    requires |f| >= 1
    requires forall i :: 0 <= i < |f| ==> ',' !in f[i]
    ensures |DelSlice(f, 6, 9)| >= 1
    ensures forall i :: 0 <= i < |DelSlice(f, 6, 9)| ==> ',' !in DelSlice(f, 6, 9)[i]
  {
  }

  /** The row a category payload contributes to its day file, without the
      line terminator: fields 6 to 8 removed when present, nothing stripped. */
  function CategoryRow(data: string): (r: string)
    ensures var f := PayloadFields(data);
            Split(r, ',') == (if |f| <= 6 then f else if |f| <= 9 then f[..6] else f[..6] + f[9..])
  {
    var f := PayloadFields(data);
    var kept := DelSlice(f, 6, 9);
    DelSliceNoSep(f);
    SplitJoin(kept, ',');
    Join(kept, ',')
  }

  /** The key a deletion scan looks up: its first three fields (fewer when
      the payload has fewer), stripped. The suffix is not removed first. */
  function DeletionKey(data: string): (r: seq<string>)
    ensures var f := Split(Strip(data), ',');
            1 <= |r| <= 3 && |r| == (if |f| < 3 then |f| else 3)
            && forall i :: 0 <= i < |r| ==> r[i] == Strip(f[i])
  {
    var f := Split(Strip(data), ',');
    MapStrip(if |f| < 3 then f else f[..3])
  }

  lemma NormalizeByFields(data: string, f: seq<string>)
    requires PayloadFields(data) == f && |f| >= 10
    ensures NormalizeStorageRow(data) == Ok(Join(MapStrip(DropScanFields(f)), ','))
  {
  }

  predicate IsExampleFields(f: seq<string>) {
    f == ["101", "22", "NC5", "A", "B", "Desc", "E1", "E2", "extra1", "extra2"]
  }

  lemma ExampleEdges(f: seq<string>)
    requires IsExampleFields(f)
    ensures NoEdgeSpace(Join(f, ','))
  {
    var body := Join(f, ',');
    assert body == "101" + "," + Join(f[1..], ',');
    JoinLast(f, ',');
    assert body[|body| - 1] == '2';
  }

  lemma ExamplePayloadFields(f: seq<string>)
    requires IsExampleFields(f)
    requires NoEdgeSpace(Join(f, ','))
    ensures PayloadFields(Join(f, ',') + " T") == f
  {
    var body := Join(f, ',');
    assert DropLast2(body + " T") == body;
    StripFixed(body);
    SplitJoin(f, ',');
  }

  lemma ExampleKept(f: seq<string>, kept: seq<string>)
    requires IsExampleFields(f) && kept == ["101", "22", "NC5", "A", "B", "Desc", "E2"]
    ensures MapStrip(DropScanFields(f)) == kept
  {
    assert DropScanFields(f) == kept;
    assert forall i :: 0 <= i < |kept| ==> NoEdgeSpace(kept[i]);
    MapStripFixed(kept);
  }

  /** Fields without white space at their edges are left as they are by
      stripping each. */
  lemma MapStripFixed(xs: seq<string>)
    requires forall i :: 0 <= i < |xs| ==> NoEdgeSpace(xs[i])
    ensures MapStrip(xs) == xs
  {
    forall i | 0 <= i < |xs|
      ensures MapStrip(xs)[i] == xs[i]
    {
      StripFixed(xs[i]);
    }
  }

  /** A ten-field storage label, "101,22,NC5,A,B,Desc,E1,E2,extra1,extra2 T":
      field 6 ("E1") and the
      two trailing extras are dropped, leaving "101,22,NC5,A,B,Desc,E2".
      The fields are parameters so that the verifier reasons about the joins
      rather than evaluating them character by character. */
  lemma NormalizeExample(f: seq<string>, kept: seq<string>)
    requires IsExampleFields(f) && kept == ["101", "22", "NC5", "A", "B", "Desc", "E2"]
    ensures NormalizeStorageRow(Join(f, ',') + " T") == Ok(Join(kept, ','))
  {
    ExampleEdges(f);
    ExamplePayloadFields(f);
    NormalizeByFields(Join(f, ',') + " T", f);
    ExampleKept(f, kept);
  }
}
