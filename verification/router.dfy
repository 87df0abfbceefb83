/** Category routing: the folder a payload's suffix selects (`path_finder`)
    and the per-day category files the rows are appended to (`data_write`
    for a folder other than Storage). Files are held as their text, keyed by
    file name. */
module Router {
  import opened Text

  const KnockOutPath := "Knock Out/"
  const InsulationPath := "Insulation/"
  const StraightLinePath := "Straight Line/"
  const StoragePath := "Storage/"

  const DayHeader := "Ref,Item No.,NC#,Field 1,Field 2,Description,Area(m^2)(Metal),Area(m^2)(Ins)\n"

  /** Where `path_finder` sends a payload. The " L" branch reads the
      attribute `Laser_Cutter_path`, which the tracker never defines (it
      defines `Laser_Cutter_Path`), so that branch raises instead of
      returning a folder. */
  datatype Destination = MissingLaserPath | Folder(path: string) | NoCategory

  /** `path_finder`: the two-character suffix picks the destination. */
  function PathFinder(data: string): (d: Destination)
    ensures d == MissingLaserPath <==> EndsWith(data, " L")
    ensures d == Folder(KnockOutPath) <==> EndsWith(data, " K")
    ensures d == Folder(InsulationPath) <==> EndsWith(data, " I")
    ensures d == Folder(StraightLinePath) <==> EndsWith(data, " S")
    ensures d == Folder(StoragePath) <==> EndsWith(data, " T") || EndsWith(data, " D")
    ensures d == NoCategory <==>
      !(EndsWith(data, " L") || EndsWith(data, " K") || EndsWith(data, " I")
        || EndsWith(data, " S") || EndsWith(data, " T") || EndsWith(data, " D"))
  {
    if EndsWith(data, " L") then MissingLaserPath
    else if EndsWith(data, " K") then Folder(KnockOutPath)
    else if EndsWith(data, " I") then Folder(InsulationPath)
    else if EndsWith(data, " S") then Folder(StraightLinePath)
    else if EndsWith(data, " T") || EndsWith(data, " D") then Folder(StoragePath)
    else NoCategory
  }

  /** The day file of a folder: `{folder}{dd-mm-yyyy}.csv`. */
  function DayFileName(folder: string, today: string): (name: string) {
    folder + today + ".csv"
  }

  /** The text of a day file before a write: created with the given header
      when absent. */
  function DayFileText(files: map<string, string>, name: string, header: string): (text: string) {
    if name in files then files[name] else header
  }

  /** `data_write` for a category folder (called with `DayHeader`): the file
      is created with the header when absent; the text is then refused when it already occurs in the
      file, and appended otherwise. The boolean tells whether it was
      appended. A refused write still leaves a newly created file behind. */
  function WriteDayFile(files: map<string, string>, name: string, header: string, text: string): (r: (map<string, string>, bool))
    ensures r.0.Keys == files.Keys + {name}
    ensures forall n :: n in files && n != name ==> r.0[n] == files[n]
    ensures r.1 <==> !Contains(DayFileText(files, name, header), text)
    ensures r.0[name] == DayFileText(files, name, header) + (if r.1 then text else "")
  {
    var before := DayFileText(files, name, header);
    var written := !Contains(before, text);
    (files[name := if written then before + text else before], written)
  }

  /** A row written to a day file is refused when written again the same
      day, and the refusal leaves every file as it was. */
  lemma DayFileRefusesRepeat(files: map<string, string>, name: string, header: string, text: string)
    requires WriteDayFile(files, name, header, text).1
    ensures var once := WriteDayFile(files, name, header, text).0;
            !WriteDayFile(once, name, header, text).1 && WriteDayFile(once, name, header, text).0 == once
  {
    var before := DayFileText(files, name, header);
    var once := WriteDayFile(files, name, header, text).0;
    assert once[name] == before + text;
    assert DayFileText(once, name, header) == before + text;
    ContainsInfix(before, text, "");
    assert before + text + "" == before + text;
    assert once[name := once[name]] == once;
  }
}
