/**
 * The output table: the fixed 17-column header written once by
 * `write_csv_header`, and the row `append_to_csv` builds from a record.
 */
module Schema {

  /** A record as the language model returned it: JSON keys to values. */
  type Record = map<string, string>

  const ProfileUrlColumn: nat := 15
  const LastModifiedColumn: nat := 16

  /** The header row, in the order every row is written. */
  function FieldNames(): (names: seq<string>)
    ensures |names| == 17
    ensures forall i, j :: 0 <= i < j < |names| ==> names[i] != names[j]
    ensures names[ProfileUrlColumn] == "Profile URL"
    ensures names[LastModifiedColumn] == "Last Modified"
  {
    [ "Name", "Credentials", "Titles", "Specialty", "Locations",
      "Areas of Clinical Practice", "Diseases Treated", "Languages",
      "Undergraduate Degree", "Medical Degree", "Residency", "Fellowship",
      "Board Certifications", "Awards", "Other", "Profile URL", "Last Modified" ]
  }

  /** Python's `data.get(field, "")`. */
  function Get(data: Record, field: string): string {
    if field in data then data[field] else ""
  }

  /** The dictionary comprehension of `append_to_csv`: one entry per header
      name, holding the record's value or the empty string. */
  function RowDict(data: Record): (row: Record)
    ensures row.Keys == set i | 0 <= i < |FieldNames()| :: FieldNames()[i]
    ensures forall f :: f in row ==> row[f] == Get(data, f)
  {
    map f | f in FieldNames() :: Get(data, f)
  }

  /** What the dictionary writer emits for a row that has exactly the header
      keys: the values in header order. */
  function WriteRow(row: Record): (cells: seq<string>)
    requires forall i :: 0 <= i < |FieldNames()| ==> FieldNames()[i] in row
    ensures |cells| == |FieldNames()|
  {
    seq(|FieldNames()|, i requires 0 <= i < |FieldNames()| => row[FieldNames()[i]])
  }

  /** The cells written for a record: 17 of them, in header order, each the
      record's value for that column or the empty string. */
  function BuildRow(data: Record): (cells: seq<string>)
    ensures |cells| == 17
    ensures forall i :: 0 <= i < 17 ==> cells[i] == Get(data, FieldNames()[i])
  {
    WriteRow(RowDict(data))
  }

  /** Keys outside the header never reach the output: records that agree on
      the header fields give the same row. */
  lemma BuildRowIgnoresOtherKeys(a: Record, b: Record)
    requires forall i :: 0 <= i < 17 ==> Get(a, FieldNames()[i]) == Get(b, FieldNames()[i])
    ensures BuildRow(a) == BuildRow(b)
  {
  }

  /** Reads a written row back into a record keyed by the header. */
  function ReadRow(cells: seq<string>): (data: Record)
    requires |cells| == 17
    ensures data.Keys == set i | 0 <= i < 17 :: FieldNames()[i]
    ensures forall i :: 0 <= i < 17 ==> data[FieldNames()[i]] == cells[i]
  {
    var names := FieldNames();
    map i | 0 <= i < 17 :: names[i] := cells[i]
  }

  /** Reading a written row gives back the record restricted to the header,
      missing fields filled with the empty string. */
  lemma ReadBuildRow(data: Record)
    ensures ReadRow(BuildRow(data)) == RowDict(data)
  {
  }

  /** Writing a row read back from cells gives the same cells. */
  lemma BuildReadRow(cells: seq<string>)
    requires |cells| == 17
    ensures BuildRow(ReadRow(cells)) == cells
  {
  }
}
