/**
 * The writing side of the converter: the loop that passes every cell of every record through
 * the safety pass and hands the rows to the CSV writer, and what it guarantees of the table.
 */
module CsvWriter {
  import opened Emoji
  import opened StoryPin
  import opened FieldSchema
  import opened Segmentation
  import opened SafetyPass

  /** The safety pass over one record, cell by cell, as the writing loop does it. */
  method SafeRow(rec: Record, otherSymbol: OtherSymbolTest) returns (safe: Record)
    ensures forall k :: k in safe <==> k in rec
    ensures forall k :: k in rec ==> safe[k] == SafeCell(rec[k], otherSymbol)
  {
    safe := map[];
    var todo := rec.Keys;
    while todo != {}
      invariant todo <= rec.Keys
      invariant forall k :: k in safe <==> k in rec && k !in todo
      invariant forall k :: k in safe ==> safe[k] == SafeCell(rec[k], otherSymbol)
      decreases todo
    {
      var k :| k in todo;
      var value := SafeValue(rec[k], otherSymbol);
      safe := safe[k := value];
      todo := todo - {k};
    }
  }

  /** Records that agree on every key give the same row. */
  lemma SameCellsSameRow(a: Record, b: Record)
    requires forall k :: k in a <==> k in b
    requires forall k :: k in a ==> a[k] == b[k]
    ensures Row(a) == Row(b)
  {
    assert a == b;
  }

  /** The written row of the record the loop builds is the row of the safe record. */
  lemma RowOfSafeRow(rec: Record, safe: Record, otherSymbol: OtherSymbolTest)
    requires forall k :: k in safe <==> k in rec
    requires forall k :: k in rec ==> safe[k] == SafeCell(rec[k], otherSymbol)
    ensures Row(safe) == Row(SafeRecord(rec, otherSymbol))
  {
    var want := SafeRecord(rec, otherSymbol);
    assert forall k :: k in safe <==> k in want;
    assert forall k :: k in safe ==> safe[k] == want[k];
    SameCellsSameRow(safe, want);
  }

  /** The writing loop: the header, then each record's safe row, in order. */
  method WriteRows(records: seq<Record>, otherSymbol: OtherSymbolTest) returns (rows: seq<seq<string>>)
    ensures rows == Table(records, otherSymbol)
  {
    rows := [CsvFields];
    var n := 0;
    while n < |records|
      invariant 0 <= n <= |records|
      invariant rows == Table(records[..n], otherSymbol)
    {
      var safe := SafeRow(records[n], otherSymbol);
      RowOfSafeRow(records[n], safe, otherSymbol);
      assert records[..n + 1] == records[..n] + [records[n]];
      rows := rows + [Row(safe)];
      n := n + 1;
    }
    assert records[..|records|] == records;
  }

  /** The converter end to end on the lines of the input: segmentation, then writing. */
  method Convert(lines: seq<string>, otherSymbol: OtherSymbolTest, decode: LiteralDecoder) returns (rows: seq<seq<string>>)
    ensures rows == Table(Records(lines, otherSymbol, decode), otherSymbol)
  {
    var records := ParseLines(lines, otherSymbol, decode);
    rows := WriteRows(records, otherSymbol);
  }

  // ---------------------------------------------------------------------------------------
  // Properties of the safety pass.

  /** The safety pass changes no cell of the row of a record whose cells are all clean. */
  lemma SafeRowKeepsClean(rec: Record, otherSymbol: OtherSymbolTest)
    requires AllClean(rec, otherSymbol)
    ensures Row(SafeRecord(rec, otherSymbol)) == Row(rec)
  {
    var row, want := Row(SafeRecord(rec, otherSymbol)), Row(rec);
    forall j | 0 <= j < |CsvFields|
      ensures row[j] == want[j]
    {
      var f := CsvFields[j];
      if f in rec {
        assert row[j] == SafeCell(rec[f], otherSymbol);
        SafeCellKeepsClean(rec[f], otherSymbol);
      }
    }
  }

  /**
   * A written row of `rec`: a cell per column, no cell holds a comma, and every column the
   * record has gets a non-empty cell.
   */
  predicate SafeRowOf(row: seq<string>, rec: Record) {
    && |row| == |CsvFields|
    && forall j :: 0 <= j < |CsvFields| ==> ',' !in row[j] && (CsvFields[j] in rec ==> row[j] != [])
  }

  /** The row of a record after the safety pass is a safe row of it. */
  lemma SafeRowCells(rec: Record, otherSymbol: OtherSymbolTest)
    ensures SafeRowOf(Row(SafeRecord(rec, otherSymbol)), rec)
  {
    var row := Row(SafeRecord(rec, otherSymbol));
    forall j | 0 <= j < |CsvFields|
      ensures ',' !in row[j] && (CsvFields[j] in rec ==> row[j] != [])
    {
      var f := CsvFields[j];
      if f in rec {
        assert row[j] == SafeCell(rec[f], otherSymbol);
        SafeCellShape(rec[f], otherSymbol);
      }
    }
  }

  /** The first row of the table is the header: the column names in order. */
  lemma TableHeader(records: seq<Record>, otherSymbol: OtherSymbolTest)
    ensures Table(records, otherSymbol)[0] == CsvFields
  {
  }

  /** Row `i + 1` of the table is record `i`'s row after the safety pass. */
  lemma TableRow(records: seq<Record>, i: int, otherSymbol: OtherSymbolTest)
    requires 0 <= i < |records|
    ensures |Table(records, otherSymbol)| == |records| + 1
    ensures Table(records, otherSymbol)[i + 1] == Row(SafeRecord(records[i], otherSymbol))
  {
  }

  /** Every row after the header is a safe row of its record. */
  lemma TableCellsSafe(records: seq<Record>, otherSymbol: OtherSymbolTest)
    ensures var rows := Table(records, otherSymbol);
      && |rows| == |records| + 1
      && forall i :: 0 <= i < |records| ==> SafeRowOf(rows[i + 1], records[i])
  {
    var rows := Table(records, otherSymbol);
    forall i | 0 <= i < |records|
      ensures SafeRowOf(rows[i + 1], records[i])
    {
      TableRow(records, i, otherSymbol);
      SafeRowCells(records[i], otherSymbol);
    }
  }

  /** The cells of `rec` in column order, none of them empty. */
  predicate RowIsRecord(row: seq<string>, rec: Record)
    requires |row| == |CsvFields|
  {
    forall j :: 0 <= j < |CsvFields| ==> CsvFields[j] in rec && row[j] == rec[CsvFields[j]] && row[j] != []
  }

  /**
   * On the records the segmentation loop builds, the table holds exactly what the loop put in
   * them: row `i + 1` is record `i`'s cells in column order, none of them empty.
   */
  lemma ConvertedRowsAreRecords(lines: seq<string>, otherSymbol: OtherSymbolTest, decode: LiteralDecoder)
    ensures var records := Records(lines, otherSymbol, decode);
      var rows := Table(records, otherSymbol);
      && |rows| == |records| + 1
      && forall i :: 0 <= i < |records| ==> |rows[i + 1]| == |CsvFields| && RowIsRecord(rows[i + 1], records[i])
  {
    var records := Records(lines, otherSymbol, decode);
    var rows := Table(records, otherSymbol);
    assert forall r :: r in records ==> WellFormed(r, otherSymbol) by {
      RecordsWellFormed(lines, otherSymbol, decode);
    }
    forall i | 0 <= i < |records|
      ensures |rows[i + 1]| == |CsvFields| && RowIsRecord(rows[i + 1], records[i])
    {
      assert records[i] in records;
      TableRow(records, i, otherSymbol);
      WellFormedRow(records[i], otherSymbol);
    }
  }

  /** The row of a well-formed record after the safety pass is its cells in column order. */
  lemma WellFormedRow(rec: Record, otherSymbol: OtherSymbolTest)
    requires WellFormed(rec, otherSymbol)
    ensures var row := Row(SafeRecord(rec, otherSymbol));
      |row| == |CsvFields| && RowIsRecord(row, rec)
  {
    var row := Row(SafeRecord(rec, otherSymbol));
    assert row == Row(rec) by {
      SafeRowKeepsClean(rec, otherSymbol);
    }
    forall j | 0 <= j < |CsvFields|
      ensures CsvFields[j] in rec && row[j] == rec[CsvFields[j]] && row[j] != []
    {
      assert CsvFields[j] in CsvFields;
    }
  }
}
