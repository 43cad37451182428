/**
 The CSV printer of the import dialog (frontend/lib/lead-fields.ts, `csvCell` and `buildSampleCsv`), against
 a parser written from section 2 of RFC 4180.
 */
module SampleCsv {
  import opened Wrappers

  const CRLF := "\r\n"

  // ---- Printing -----------------------------------------------------------------------------------

  predicate NeedsQuotes(value: string) {
    exists c | c in value :: c == '"' || c == ',' || c == '\r' || c == '\n'
  }

  function Doubled(value: string): string {
    if value == "" then "" else (if value[0] == '"' then "\"\"" else [value[0]]) + Doubled(value[1..])
  }

  function Cell(value: string): string {
    if NeedsQuotes(value) then "\"" + Doubled(value) + "\"" else value
  }

  function Cells(row: seq<string>): seq<string> { seq(|row|, i requires 0 <= i < |row| => Cell(row[i])) }

  function Join(parts: seq<string>, separator: string): string {
    if parts == [] then ""
    else if |parts| == 1 then parts[0]
    else parts[0] + separator + Join(parts[1..], separator)
  }

  function Line(row: seq<string>): string { Join(Cells(row), ",") }

  function Lines(rows: seq<seq<string>>): seq<string> { seq(|rows|, i requires 0 <= i < |rows| => Line(rows[i])) }

  function Print(rows: seq<seq<string>>): string { Join(Lines(rows), CRLF) + CRLF }

  // ---- RFC 4180, section 2 --------------------------------------------------------------------------

  /** The rest of an escaped field: up to a quote that is not doubled. */
  function Escaped(s: string): (r: Option<(string, string)>)
    ensures r.Some? ==> |r.value.1| < |s|
    decreases |s|
  {
    if s == "" then None
    else if s[0] != '"' then
      match Escaped(s[1..]) case None => None case Some(p) => Some(([s[0]] + p.0, p.1))
    else if |s| > 1 && s[1] == '"' then
      match Escaped(s[2..]) case None => None case Some(p) => Some((['"'] + p.0, p.1))
    else Some(("", s[1..]))
  }

  predicate TextData(c: char) { c != '"' && c != ',' && c != '\r' && c != '\n' }

  function NonEscaped(s: string): (r: (string, string))
    ensures |r.1| <= |s|
  {
    if s == "" || !TextData(s[0]) then ("", s)
    else var p := NonEscaped(s[1..]); ([s[0]] + p.0, p.1)
  }

  function ParseField(s: string): (r: Option<(string, string)>)
    ensures r.Some? ==> |r.value.1| <= |s|
  {
    if s != "" && s[0] == '"' then Escaped(s[1..]) else Some(NonEscaped(s))
  }

  /** field *(COMMA field) */
  function ParseRecord(s: string): (r: Option<(seq<string>, string)>)
    ensures r.Some? ==> |r.value.1| <= |s|
    decreases |s|
  {
    match ParseField(s)
    case None => None
    case Some(f) =>
      if f.1 != "" && f.1[0] == ',' then
        match ParseRecord(f.1[1..]) case None => None case Some(p) => Some(([f.0] + p.0, p.1))
      else Some(([f.0], f.1))
  }

  /** record *(CRLF record) [CRLF]: a line break at the very end closes the last record. */
  function Parse(s: string): Option<seq<seq<string>>>
    decreases |s|
  {
    match ParseRecord(s)
    case None => None
    case Some(p) =>
      if p.1 == "" || p.1 == CRLF then Some([p.0])
      else if CRLF <= p.1 then
        match Parse(p.1[2..]) case None => None case Some(rest) => Some([p.0] + rest)
      else None
  }

  // ---- Round trips ------------------------------------------------------------------------------------

  /** What can follow a field: nothing, a comma, or a line break. */
  predicate AfterField(s: string) { s == "" || s[0] == ',' || s[0] == '\r' }

  lemma {:induction false} EscapedRoundTrip(value: string, tail: string)
    requires tail == "" || tail[0] != '"'
    ensures Escaped(Doubled(value) + "\"" + tail) == Some((value, tail))
  {
    var s := Doubled(value) + "\"" + tail;
    if value == "" {
      assert s == ['"'] + tail;
    } else {
      EscapedRoundTrip(value[1..], tail);
      var rest := Doubled(value[1..]) + "\"" + tail;
      if value[0] == '"' {
        assert s == ['"', '"'] + rest && s[2..] == rest;
      } else {
        assert s == [value[0]] + rest && s[1..] == rest;
      }
      assert [value[0]] + value[1..] == value;
    }
  }

  lemma {:induction false} NonEscapedRoundTrip(value: string, tail: string)
    requires (forall c | c in value :: TextData(c)) && AfterField(tail)
    ensures NonEscaped(value + tail) == (value, tail)
  {
    if value == "" {
      assert value + tail == tail;
    } else {
      assert value[0] in value;
      assert (value + tail)[1..] == value[1..] + tail;
      NonEscapedRoundTrip(value[1..], tail);
      assert [value[0]] + value[1..] == value;
    }
  }

  lemma FieldRoundTrip(value: string, tail: string)
    requires AfterField(tail)
    ensures ParseField(Cell(value) + tail) == Some((value, tail))
  {
    hide Escaped, NonEscaped, Doubled;
    if NeedsQuotes(value) {
      EscapedRoundTrip(value, tail);
      assert (Cell(value) + tail)[1..] == Doubled(value) + "\"" + tail;
    } else {
      assert forall c | c in value :: TextData(c);
      NonEscapedRoundTrip(value, tail);
      hide NeedsQuotes;
      if value == "" { assert value + tail == tail; } else { assert value[0] in value; }
    }
  }

  lemma {:induction false} RecordRoundTrip(row: seq<string>, tail: string)
    requires row != [] && (tail == "" || tail[0] == '\r')
    ensures ParseRecord(Line(row) + tail) == Some((row, tail))
  {
    hide Cell, ParseField;
    var first := Cell(row[0]);
    if |row| == 1 {
      assert Line(row) == first && row == [row[0]];
      FieldRoundTrip(row[0], tail);
    } else {
      var more := Line(row[1..]) + tail;
      assert Cells(row)[1..] == Cells(row[1..]);
      assert Line(row) == first + "," + Line(row[1..]);
      assert Line(row) + tail == first + ("," + more);
      FieldRoundTrip(row[0], "," + more);
      assert ("," + more)[1..] == more;
      RecordRoundTrip(row[1..], tail);
      assert [row[0]] + row[1..] == row;
    }
  }

  predicate EveryRowHasCells(rows: seq<seq<string>>) {
    forall i | 0 <= i < |rows| :: rows[i] != []
  }

  lemma {:induction false} LinesRoundTrip(rows: seq<seq<string>>)
    requires rows != [] && EveryRowHasCells(rows)
    ensures Parse(Print(rows)) == Some(rows)
  {
    hide Line, ParseRecord;
    var first := Line(rows[0]);
    if |rows| == 1 {
      assert Print(rows) == first + CRLF && rows == [rows[0]];
      RecordRoundTrip(rows[0], CRLF);
    } else {
      assert Lines(rows)[1..] == Lines(rows[1..]);
      assert Print(rows) == first + (CRLF + Print(rows[1..]));
      RecordRoundTrip(rows[0], CRLF + Print(rows[1..]));
      assert (CRLF + Print(rows[1..]))[2..] == Print(rows[1..]);

      LinesRoundTrip(rows[1..]);
      assert [rows[0]] + rows[1..] == rows;
    }
  }

  /** RFC 4180 has no record without a field and no file without a record: an empty row reads as one empty cell. */
  function Readable(rows: seq<seq<string>>): seq<seq<string>> {
    if rows == [] then [[""]] else seq(|rows|, i requires 0 <= i < |rows| => if rows[i] == [] then [""] else rows[i])
  }

  lemma EmptyPrintsAlike(rows: seq<seq<string>>)
    ensures Print(rows) == Print(Readable(rows))
  {
    assert Line([]) == "" && Cells([""]) == [""] && Line([""]) == "";
    if rows == [] {
      assert Lines(rows) == [] && Lines(Readable(rows)) == [""];
    } else {
      assert Lines(rows) == Lines(Readable(rows));
    }
  }

  /**
   Every table of cells, whatever commas, quotes, CR and LF they hold, reads back as itself, up to rows without
   cells.
   */
  lemma ParseOfPrint(rows: seq<seq<string>>)
    ensures Parse(Print(rows)) == Some(Readable(rows))
  {
    EmptyPrintsAlike(rows);
    LinesRoundTrip(Readable(rows));
  }

  /** Exactly when printing loses nothing: there is a row, and every row has a cell. */
  lemma RoundTripIff(rows: seq<seq<string>>)
    ensures Parse(Print(rows)) == Some(rows) <==> rows != [] && EveryRowHasCells(rows)
  {
    hide Parse, Print;
    ParseOfPrint(rows);
    if rows != [] && EveryRowHasCells(rows) {
      assert Readable(rows) == rows;
    }
    if Readable(rows) == rows {
      forall i | 0 <= i < |rows| ensures rows[i] != [] { assert Readable(rows)[i] == rows[i]; }
    }
  }

  /** Different tables print differently, as long as their rows have cells. */
  lemma PrintInjective(a: seq<seq<string>>, b: seq<seq<string>>)
    requires Print(a) == Print(b)
    ensures Readable(a) == Readable(b)
  {
    ParseOfPrint(a);
    ParseOfPrint(b);
  }

  // ---- The sample file ----------------------------------------------------------------------------------

  datatype Field = Field(key: string, heading: string, aliases: seq<string>, sample: string)

  function Headings(fields: seq<Field>): seq<string> {
    seq(|fields|, i requires 0 <= i < |fields| => fields[i].heading)
  }

  function Samples(fields: seq<Field>): seq<string> { seq(|fields|, i requires 0 <= i < |fields| => fields[i].sample) }

  function SecondSamples(fields: seq<Field>, second: map<string, string>): seq<string> {
    seq(|fields|, i requires 0 <= i < |fields| =>
          if fields[i].key in second then second[fields[i].key] else fields[i].sample)
  }

  function BuildSampleCsv(fields: seq<Field>, second: map<string, string>): string {
    Print([Headings(fields), Samples(fields), SecondSamples(fields, second)])
  }

  /**
   The downloadable file reads back, cell by cell: the headings, the sample of each field, and its second sample where
   there is one and the first again where there is not.
   */
  lemma SampleFileReads(fields: seq<Field>, second: map<string, string>)
    requires fields != []
    ensures var r := Parse(BuildSampleCsv(fields, second));
            && r.Some? && |r.value| == 3 && |r.value[0]| == |r.value[1]| == |r.value[2]| == |fields|
            && forall i | 0 <= i < |fields| ::
              && r.value[0][i] == fields[i].heading && r.value[1][i] == fields[i].sample
              && (fields[i].key in second ==> r.value[2][i] == second[fields[i].key])
              && (fields[i].key !in second ==> r.value[2][i] == fields[i].sample)
  {
    var rows := [Headings(fields), Samples(fields), SecondSamples(fields, second)];
    hide Parse, Print;
    RoundTripIff(rows);
  }
}
