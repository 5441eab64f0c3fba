/**
 The CSV branch of `exportData`: a header line made of the first entry's
 keys, then one line per entry made of its values, commas between fields
 and newlines between lines, with no quoting or escaping of any value.
 */
module CsvExport {
  import opened Text
  import opened Entries

  /** The texts `join` writes for an entry's values. */
  function Cells(e: Entry): seq<string> {
    var vs := Values(e);
    seq(|vs|, k requires 0 <= k < |vs| => JoinText(vs[k]))
  }

  /** `Object.keys(dataToExport[0] || {}).join(',')`: empty when there are no entries. */
  function Header(data: seq<Entry>): string {
    if data == [] then "" else Join(Keys(), ',')
  }

  /** `Object.values(entry).join(',')`. */
  function Row(e: Entry): string {
    Join(Cells(e), ',')
  }

  /** `dataToExport.map(row)`. */
  function Rows(data: seq<Entry>): seq<string> {
    seq(|data|, i requires 0 <= i < |data| => Row(data[i]))
  }

  /** `[headers, ...rows].join('\n')`. */
  function Csv(data: seq<Entry>): string {
    Join([Header(data)] + Rows(data), '\n')
  }

  /** No entry: the export is the empty string. */
  lemma CsvEmpty()
    ensures Csv([]) == ""
  {
    assert [Header([])] + Rows([]) == [""];
  }

  /** No cell of any entry holds `c`. */
  predicate CellsFree(data: seq<Entry>, c: char) {
    forall i, k :: 0 <= i < |data| && 0 <= k < |Fields| ==> Free(Cells(data[i])[k], c)
  }

  /** Column names are lower-case words joined by `_`. */
  lemma FieldNameFree(f: Field, c: char)
    requires c == ',' || c == '\n'
    ensures Free(FieldName(f), c)
  {
    if f.Id? || f.Email? || f.Name? || f.Phone? || f.Gender? || f.Age? || f.Instagram? || f.Linkedin? {
      ShortNamesFree(f, c);
    } else {
      LongNamesFree(f, c);
    }
  }

  lemma ShortNamesFree(f: Field, c: char)
    requires c == ',' || c == '\n'
    requires f.Id? || f.Email? || f.Name? || f.Phone? || f.Gender? || f.Age? || f.Instagram? || f.Linkedin?
    ensures Free(FieldName(f), c)
  {
  }

  lemma LongNamesFree(f: Field, c: char)
    requires c == ',' || c == '\n'
    requires !(f.Id? || f.Email? || f.Name? || f.Phone? || f.Gender? || f.Age? || f.Instagram? || f.Linkedin?)
    ensures Free(FieldName(f), c)
  {
  }

  lemma KeysFree(c: char)
    requires c == ',' || c == '\n'
    ensures forall k :: 0 <= k < |Fields| ==> Free(Keys()[k], c)
  {
    forall k | 0 <= k < |Fields| ensures Free(Keys()[k], c) {
      FieldNameFree(Fields[k], c);
    }
  }

  /** The header line holds no newline. */
  lemma HeaderFree(data: seq<Entry>)
    ensures Free(Header(data), '\n')
  {
    if data != [] {
      KeysFree('\n');
      JoinOtherCount(Keys(), ',', '\n');
      TotalOccurrencesZero(Keys(), '\n');
      OccurrencesFree(Header(data), '\n');
    }
  }

  lemma RowFree(e: Entry, c: char)
    requires c != ','
    requires forall k :: 0 <= k < |Fields| ==> Free(Cells(e)[k], c)
    ensures Free(Row(e), c)
  {
    JoinOtherCount(Cells(e), ',', c);
    TotalOccurrencesZero(Cells(e), c);
    OccurrencesFree(Row(e), c);
  }

  /**
   When no value contains a newline, the export splits back into the
   header and one line per entry: `1 + n` lines.
   */
  lemma CsvLines(data: seq<Entry>)
    requires CellsFree(data, '\n')
    ensures Split(Csv(data), '\n') == [Header(data)] + Rows(data)
    ensures |Split(Csv(data), '\n')| == 1 + |data|
  {
    LinesFree(data);
    SplitJoin([Header(data)] + Rows(data), '\n');
  }

  /** When no value holds a newline, no line of the export does. */
  lemma LinesFree(data: seq<Entry>)
    requires CellsFree(data, '\n')
    ensures forall j :: 0 <= j < |data| + 1 ==> Free(([Header(data)] + Rows(data))[j], '\n')
  {
    var lines := [Header(data)] + Rows(data);
    HeaderFree(data);
    forall i | 0 <= i < |data| ensures Free(Rows(data)[i], '\n') {
      RowFree(data[i], '\n');
    }
    forall j | 0 <= j < |lines| ensures Free(lines[j], '\n') {
      if j > 0 {
        assert lines[j] == Rows(data)[j - 1];
      }
    }
  }

  /** In general the export has one line more than the entries, plus one per newline inside a value. */
  lemma CsvLineCount(data: seq<Entry>)
    ensures |Split(Csv(data), '\n')| == 1 + |data| + TotalOccurrences(Rows(data), '\n')
  {
    var lines := [Header(data)] + Rows(data);
    SplitCount(Csv(data), '\n');
    JoinCount(lines, '\n');
    assert lines[1..] == Rows(data);
    if data != [] {
      KeysFree('\n');
      JoinOtherCount(Keys(), ',', '\n');
      TotalOccurrencesZero(Keys(), '\n');
    }
  }

  /** A row whose values hold no comma splits back into exactly its values. */
  lemma RowColumns(e: Entry)
    requires forall k :: 0 <= k < |Fields| ==> Free(Cells(e)[k], ',')
    ensures Split(Row(e), ',') == Cells(e)
  {
    SplitJoin(Cells(e), ',');
  }

  /** Values are not escaped: each comma inside a value adds a column to its row. */
  lemma RowColumnCount(e: Entry)
    ensures |Split(Row(e), ',')| == |Fields| + TotalOccurrences(Cells(e), ',')
  {
    SplitCount(Row(e), ',');
    JoinCount(Cells(e), ',');
  }

  /** The header names the columns in key order. */
  lemma HeaderColumns(data: seq<Entry>)
    requires data != []
    ensures Split(Header(data), ',') == Keys()
  {
    KeysFree(',');
    SplitJoin(Keys(), ',');
  }
}
