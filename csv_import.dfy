/**
 * CreatePollView.parseCSVData: the text of an imported spreadsheet becomes
 * participant records.  Lines are split on "\n" and empty lines dropped; the
 * first remaining line names the columns; every later line with exactly as
 * many comma-separated fields as there are column names becomes one record
 * mapping each trimmed column name to the trimmed field under it.
 */
module CsvImport {
  import opened Text
  import opened Records

  /** `excelData.components(separatedBy: "\n").filter { !$0.isEmpty }` */
  function NonEmptyLines(lines: seq<string>): (rows: seq<string>)
    ensures forall i :: 0 <= i < |rows| ==> rows[i] != []
    ensures forall l :: l in rows <==> l in lines && l != []
    ensures |rows| <= |lines|
  {
    if lines == [] then []
    else
      var rest := NonEmptyLines(lines[1..]);
      assert lines == [lines[0]] + lines[1..];
      if lines[0] == [] then rest else [lines[0]] + rest
  }

  /** Only empty lines means no rows. */
  lemma {:induction false} NonEmptyLinesOfEmptyLines(lines: seq<string>)
    requires forall i :: 0 <= i < |lines| ==> lines[i] == []
    ensures NonEmptyLines(lines) == []
  {
    if lines != [] {
      NonEmptyLinesOfEmptyLines(lines[1..]);
    }
  }

  /** The rows of the imported text, in order. */
  function Rows(data: string): seq<string> {
    NonEmptyLines(Split(data, '\n'))
  }

  /** `row.components(separatedBy: ",").map { $0.trimmingCharacters(in: .whitespacesAndNewlines) }` */
  function Fields(row: string): (fields: seq<string>)
    ensures |fields| == Occurrences(row, ',') + 1
    ensures forall i :: 0 <= i < |fields| ==> fields[i] == Trim(Split(row, ',')[i])
  {
    var pieces := Split(row, ',');
    seq(|pieces|, i requires 0 <= i < |pieces| => Trim(pieces[i]))
  }

  /** The record of one row: column i's name mapped to field i, later columns overwriting earlier ones. */
  function EntryOf(headers: seq<string>, values: seq<string>): Record
    requires |values| == |headers|
  {
    if headers == [] then map[]
    else
      var n := |headers| - 1;
      EntryOf(headers[..n], values[..n])[headers[n] := values[n]]
  }

  /** A record's keys are exactly the column names. */
  lemma {:induction false} EntryOfKeys(headers: seq<string>, values: seq<string>)
    requires |values| == |headers|
    ensures EntryOf(headers, values).Keys == set h | h in headers
  {
    if headers != [] {
      var n := |headers| - 1;
      EntryOfKeys(headers[..n], values[..n]);
      assert headers == headers[..n] + [headers[n]];
    }
  }

  /** One more column adds (or overwrites) one key. */
  lemma EntryOfStep(headers: seq<string>, values: seq<string>, k: nat)
    requires |values| == |headers| && k < |headers|
    ensures EntryOf(headers[..k + 1], values[..k + 1]) == EntryOf(headers[..k], values[..k])[headers[k] := values[k]]
  {
    assert headers[..k + 1][..k] == headers[..k];
    assert values[..k + 1][..k] == values[..k];
  }

  /**
   * Under a column name the record holds the field of the last column with
   * that name: with distinct names, field i under name i.
   */
  lemma {:induction false} EntryOfLastColumnWins(headers: seq<string>, values: seq<string>, i: nat)
    requires |values| == |headers| && i < |headers|
    requires forall j :: i < j < |headers| ==> headers[j] != headers[i]
    ensures headers[i] in EntryOf(headers, values) && EntryOf(headers, values)[headers[i]] == values[i]
  {
    var n := |headers| - 1;
    if i < n {
      EntryOfLastColumnWins(headers[..n], values[..n], i);
    }
  }

  /** Every row split into its trimmed fields. */
  function FieldsOfRows(rows: seq<string>): (table: seq<seq<string>>)
    ensures |table| == |rows|
    ensures forall i :: 0 <= i < |rows| ==> table[i] == Fields(rows[i])
  {
    seq(|rows|, i requires 0 <= i < |rows| => Fields(rows[i]))
  }

  /**
   * The records of the data rows, given as their fields: in row order, one
   * per row with as many fields as there are column names, none for the rest.
   */
  function RecordsOf(headers: seq<string>, table: seq<seq<string>>): (records: seq<Record>)
    ensures |records| <= |table|
  {
    if table == [] then []
    else
      var n := |table| - 1;
      var values := table[n];
      RecordsOf(headers, table[..n]) + (if |values| == |headers| then [EntryOf(headers, values)] else [])
  }

  /** What `parseCSVData` returns for `data`. */
  function ParsedCsv(data: string): seq<Record> {
    var rows := Rows(data);
    if rows == [] then [] else RecordsOf(Fields(rows[0]), FieldsOfRows(rows[1..]))
  }

  /** The inner loop of the parser: the record of one row, column by column. */
  method EntryFromFields(headers: seq<string>, values: seq<string>) returns (entry: Record)
    requires |values| == |headers|
    ensures entry == EntryOf(headers, values)
  {
    entry := map[];
    for k := 0 to |headers|
      invariant entry == EntryOf(headers[..k], values[..k])
    {
      EntryOfStep(headers, values, k);
      entry := entry[headers[k] := values[k]];
    }
    assert headers[..|headers|] == headers && values[..|values|] == values;
  }

  /** The parser itself, loop for loop; it returns exactly `ParsedCsv(data)`. */
  method ParseCsv(data: string) returns (result: seq<Record>)
    ensures result == ParsedCsv(data)
  {
    result := [];
    var rows := Rows(data);
    if rows == [] {
      return;
    }
    var headers := Fields(rows[0]);
    var dataRows := rows[1..];
    ghost var table := FieldsOfRows(dataRows);
    for r := 0 to |dataRows|
      invariant result == RecordsOf(headers, table[..r])
    {
      var values := Fields(dataRows[r]);
      assert table[..r + 1][..r] == table[..r] && table[..r + 1][r] == values;
      if |values| == |headers| {
        var entry := EntryFromFields(headers, values);
        result := result + [entry];
      }
    }
    assert table[..|dataRows|] == table;
  }

  /** Records of consecutive stretches of rows follow one another. */
  lemma {:induction false} RecordsOfAppend(headers: seq<string>, a: seq<seq<string>>, b: seq<seq<string>>)
    ensures RecordsOf(headers, a + b) == RecordsOf(headers, a) + RecordsOf(headers, b)
  {
    if b != [] {
      var n := |b| - 1;
      assert (a + b)[..|a + b| - 1] == a + b[..n];
      assert (a + b)[|a + b| - 1] == b[n];
      RecordsOfAppend(headers, a, b[..n]);
    } else {
      assert a + b == a;
    }
  }

  /** A row whose field count matches the header's yields a record; any other row yields none. */
  lemma RecordsOfOneRow(headers: seq<string>, values: seq<string>)
    ensures |values| == |headers| ==> RecordsOf(headers, [values]) == [EntryOf(headers, values)]
    ensures |values| != |headers| ==> RecordsOf(headers, [values]) == []
  {
    assert [values][..0] == [];
  }

  /** With every row of the right width there is one record per row, the i-th from the i-th row. */
  lemma {:induction false} RecordsOfMatchingRows(headers: seq<string>, table: seq<seq<string>>)
    requires forall i :: 0 <= i < |table| ==> |table[i]| == |headers|
    ensures |RecordsOf(headers, table)| == |table|
    ensures forall i :: 0 <= i < |table| ==> RecordsOf(headers, table)[i] == EntryOf(headers, table[i])
  {
    if table != [] {
      RecordsOfMatchingRows(headers, table[..|table| - 1]);
    }
  }

  /** No row of the right width means no record at all. */
  lemma {:induction false} RecordsOfMismatchedRows(headers: seq<string>, table: seq<seq<string>>)
    requires forall i :: 0 <= i < |table| ==> |table[i]| != |headers|
    ensures RecordsOf(headers, table) == []
  {
    if table != [] {
      RecordsOfMismatchedRows(headers, table[..|table| - 1]);
    }
  }

  /** Every record has exactly the column names as its keys. */
  lemma {:induction false} RecordsOfKeys(headers: seq<string>, table: seq<seq<string>>)
    ensures forall r :: r in RecordsOf(headers, table) ==> r.Keys == set h | h in headers
  {
    if table != [] {
      var n := |table| - 1;
      RecordsOfKeys(headers, table[..n]);
      if |table[n]| == |headers| {
        EntryOfKeys(headers, table[n]);
      }
    }
  }

  /** Text without any non-empty line, the empty text included, gives no records. */
  lemma NoLinesNoRecords(data: string)
    requires forall i :: 0 <= i < |data| ==> data[i] == '\n'
    ensures ParsedCsv(data) == []
  {
    SplitOfSeparatorsOnly(data, '\n');
    var lines := Split(data, '\n');
    assert forall i :: 0 <= i < |lines| ==> lines[i] in lines;
    NonEmptyLinesOfEmptyLines(lines);
  }

  /** A header line followed by one data row of the same width gives exactly that row's record. */
  lemma HeaderAndOneRow(header: string, row: string)
    requires header != [] && row != [] && '\n' !in header && '\n' !in row
    requires |Fields(row)| == |Fields(header)|
    ensures ParsedCsv(header + "\n" + row) == [EntryOf(Fields(header), Fields(row))]
  {
    SplitAfterPiece(header, '\n', row);
    SplitWithoutSeparator(row, '\n');
    assert Split(header + "\n" + row, '\n') == [header, row];
    assert NonEmptyLines([header, row]) == [header, row] by {
      assert [header, row][1..] == [row];
      assert [row][1..] == [];
    }
    assert [header, row][1..] == [row];
    assert FieldsOfRows([row]) == [Fields(row)];
    RecordsOfOneRow(Fields(header), Fields(row));
  }
}
