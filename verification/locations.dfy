/** The location table (Location.csv): which cage occupies each storage
    location, "0" meaning none. The tracker reads it whole, changes the cage
    column of the matching rows and writes it back whole. */
module Locations {

  datatype Slot = Slot(code: string, cage: string)

  /** `code in df['Location'].values`. */
  predicate Known(table: seq<Slot>, code: string) {
    exists i :: 0 <= i < |table| && table[i].code == code
  }

  /** `df.loc[df['Location'] == code, 'Cage No.'] = cage`: every row for that
      location gets the cage, every other row is left as it was. */
  function Assign(table: seq<Slot>, code: string, cage: string): (r: seq<Slot>)
    ensures |r| == |table|
    ensures forall i :: 0 <= i < |table| ==> r[i].code == table[i].code
    ensures forall i :: 0 <= i < |table| && table[i].code == code ==> r[i].cage == cage
    ensures forall i :: 0 <= i < |table| && table[i].code != code ==> r[i] == table[i]
    decreases |table|
  {
    if |table| == 0 then []
    else
      var rest := Assign(table[1..], code, cage);
      var head := if table[0].code == code then Slot(code, cage) else table[0];
      forall i | 1 <= i < |table|
        ensures ([head] + rest)[i] == rest[i - 1] && table[1..][i - 1] == table[i]
      {
      }
      [head] + rest
  }

  /** The cage a location holds, as the first row for it records. */
  function CageAt(table: seq<Slot>, code: string): (r: string)
    requires Known(table, code)
    decreases |table|
  {
    if table[0].code == code then table[0].cage else CageAt(table[1..], code)
  }

  /** After an assignment the location holds the assigned cage. */
  lemma {:induction false} AssignThenLookup(table: seq<Slot>, code: string, cage: string)
    requires Known(table, code)
    ensures Known(Assign(table, code, cage), code)
    ensures CageAt(Assign(table, code, cage), code) == cage
    decreases |table|
  {
    var r := Assign(table, code, cage);
    if table[0].code != code {
      var i :| 0 <= i < |table| && table[i].code == code;
      assert table[1..][i - 1].code == code;
      AssignThenLookup(table[1..], code, cage);
      assert r[1..] == Assign(table[1..], code, cage);
    }
  }

  /** An assignment leaves the cage of every other location as it was. */
  lemma {:induction false} AssignKeepsOthers(table: seq<Slot>, code: string, cage: string, other: string)
    requires Known(table, other) && other != code
    ensures Known(Assign(table, code, cage), other)
    ensures CageAt(Assign(table, code, cage), other) == CageAt(table, other)
    decreases |table|
  {
    var r := Assign(table, code, cage);
    if table[0].code != other {
      var j :| 0 <= j < |table| && table[j].code == other;
      assert table[1..][j - 1].code == other;
      AssignKeepsOthers(table[1..], code, cage, other);
      assert r[1..] == Assign(table[1..], code, cage);
    }
  }
}
