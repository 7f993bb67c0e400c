/**
 * The final safety pass of the converter on the cells it writes, and the table the CSV
 * writer receives: a header, then one row per record with its cells in column order.
 */
module SafetyPass {
  import opened Text
  import opened Emoji
  import opened Sanitizers
  import opened FieldSchema
  import opened Segmentation

  /**
   * The safety pass on one cell: emoji-like characters to spaces, trailing commas and
   * whitespace dropped, every comma removed, and the sentinel for what is left empty.
   */
  function SafeCell(v: string, otherSymbol: OtherSymbolTest): string {
    ToNaIfEmpty(RemoveAllCommas(StripTrailingCommas(ReplaceEmojisWithSpace(v, otherSymbol))))
  }

  /**
   * Whatever the input, the cell written is not empty, has no comma, no emoji-like character
   * and no whitespace at either end.
   */
  lemma SafeCellShape(v: string, otherSymbol: OtherSymbolTest)
    ensures var r := SafeCell(v, otherSymbol);
      r != [] && ',' !in r && NoEmoji(r, otherSymbol) && NoEdgeSpace(r)
  {
    var e := ReplaceEmojisWithSpace(v, otherSymbol);
    var t := StripTrailingCommas(e);
    assert forall c :: c in t ==> c in e by {
      assert t == e[..|t|];
    }
    RemoveAllCommasChars(t);
    SentinelIsClean(otherSymbol);
  }

  /** The record of safe cells: the same keys, each cell through the safety pass. */
  function SafeRecord(rec: Record, otherSymbol: OtherSymbolTest): Record {
    map k | k in rec :: SafeCell(rec[k], otherSymbol)
  }

  /**
   * The row the dictionary writer makes of a record: its cells in column order, the empty
   * string for a column the record lacks.
   */
  function Row(safe: Record): seq<string> {
    seq(|CsvFields|, j requires 0 <= j < |CsvFields| => if CsvFields[j] in safe then safe[CsvFields[j]] else "")
  }

  /** The table written: the header, then one row per record after the safety pass. */
  function Table(records: seq<Record>, otherSymbol: OtherSymbolTest): seq<seq<string>> {
    [CsvFields] + seq(|records|, i requires 0 <= i < |records| => Row(SafeRecord(records[i], otherSymbol)))
  }

  /** The safety pass on one cell, step by step, as the writing loop does it. */
  method SafeValue(v: string, otherSymbol: OtherSymbolTest) returns (value: string)
    ensures value == SafeCell(v, otherSymbol)
  {
    value := ReplaceEmojisWithSpace(v, otherSymbol);
    value := StripTrailingCommas(value);
    value := RemoveAllCommas(value);
    value := ToNaIfEmpty(value);
  }

  /** A clean cell goes through the safety pass unchanged. */
  lemma SafeCellKeepsClean(v: string, otherSymbol: OtherSymbolTest)
    requires Clean(v, otherSymbol)
    ensures SafeCell(v, otherSymbol) == v
  {
    assert ReplaceEmojisWithSpace(v, otherSymbol) == v;
    StripTrailingCommasKeeps(v);
    RemoveAllCommasKeeps(v);
    assert Strip(v) == v;
  }
}
