/**
 * The record segmentation loop of the converter: lines are read in order, a URL line closes
 * the record being built (when it has a URL) and starts the next, a `Key: Value` line fills
 * the column its label names, and everything else is skipped.
 */
module Segmentation {
  import opened Wrappers
  import opened Text
  import opened Emoji
  import opened Sanitizers
  import opened ValueParsers
  import opened StoryPin
  import opened FieldSchema

  /** One record: a cell per column. */
  type Record = map<string, string>

  /** `{f: "NA" for f in CSV_FIELDS}`. */
  const BlankRecord: Record := map f | f in CsvFields :: Sentinel

  /** The columns whose values go through `parse_bool`. */
  const BoolFields: seq<string> := ["is_native", "is_video", "alive", "is_a_repin", "private"]

  const MediaField: string := "story_pin_media"

  /** Every cell of the record is a clean value. */
  ghost predicate AllClean(r: Record, otherSymbol: OtherSymbolTest) {
    forall f :: f in r ==> Clean(r[f], otherSymbol)
  }

  /** A record has exactly the columns as keys, and every cell is a clean value. */
  ghost predicate WellFormed(r: Record, otherSymbol: OtherSymbolTest) {
    && (forall f :: f in r <==> f in CsvFields)
    && AllClean(r, otherSymbol)
  }

  /** `current.get("url") and current["url"] != "NA"`. */
  predicate HasUrl(r: Record) {
    "url" in r && r["url"] != [] && r["url"] != Sentinel
  }

  /** `line.startswith("http://") or line.startswith("https://")`. */
  predicate IsUrlLine(line: string) {
    StartsWith(line, "http://") || StartsWith(line, "https://")
  }

  /** The parser the column's value goes through. */
  function ParseFieldValue(column: string, value: string, otherSymbol: OtherSymbolTest, decode: LiteralDecoder): (r: string)
    ensures Clean(r, otherSymbol)
    ensures column in BoolFields ==> r == TrueText || r == FalseText || r == Sentinel
  {
    BoolTextsAreClean(otherSymbol);
    if column in BoolFields then ParseBool(Some(value), otherSymbol)
    else if column == MediaField then StoryPinMedia(Some(value), otherSymbol, decode)
    else SanitizeValue(Some(value), otherSymbol)
  }

  /** The stripped key and value either side of the first colon of `line`, if it has one. */
  function SplitField(line: string): (r: Option<(string, string)>)
    ensures r.None? <==> ':' !in line
  {
    match FirstIndex(line, ':')
    case None => None
    case Some(i) => Some((Strip(line[..i]), Strip(line[i + 1..])))
  }

  /** What the loop body does with one line. */
  datatype Action =
    | Skip
    | OpenRecord(url: string)
    | SetCell(column: string, value: string)

  /**
   * The branch the loop body takes on one raw line: blank lines, lines without a colon and
   * lines whose label is unknown are skipped; a URL line opens a record with the sanitized
   * line as its URL; a `Key: Value` line sets the key's column to the parsed value.
   */
  function Classify(raw: string, otherSymbol: OtherSymbolTest, decode: LiteralDecoder): (a: Action)
    ensures a.OpenRecord? ==> Clean(a.url, otherSymbol)
    ensures a.SetCell? ==> a.column in CsvFields && Clean(a.value, otherSymbol)
    ensures AllSpace(raw) ==> a == Skip
    ensures ':' !in raw && !IsUrlLine(Strip(raw)) ==> a == Skip
  {
    var line := Strip(raw);
    if line == [] then Skip
    else if IsUrlLine(line) then OpenRecord(SanitizeValue(Some(line), otherSymbol))
    else
      var kv := SplitField(line);
      if kv.None? then Skip
      else
        var column := NormalizeFieldName(kv.value.0);
        if column.None? then Skip
        else SetCell(column.value, ParseFieldValue(column.value, kv.value.1, otherSymbol, decode))
  }

  /** The loop's state: the records pushed so far and the record being built. */
  datatype State = State(records: seq<Record>, current: Record)

  const Start: State := State([], BlankRecord)

  /**
   * One action on the state: opening a record pushes the one being built when it has a URL
   * and starts a blank one; setting a cell overwrites it in the record being built.
   */
  function Apply(st: State, a: Action): State {
    match a
    case Skip => st
    case OpenRecord(url) =>
      var pushed := if HasUrl(st.current) then State(st.records + [st.current], BlankRecord) else st;
      pushed.(current := pushed.current["url" := url])
    case SetCell(column, value) => st.(current := st.current[column := value])
  }

  /** The state after the loop has read `lines`. */
  function Scan(lines: seq<string>, otherSymbol: OtherSymbolTest, decode: LiteralDecoder): State {
    if lines == [] then Start
    else Apply(Scan(lines[..|lines| - 1], otherSymbol, decode), Classify(lines[|lines| - 1], otherSymbol, decode))
  }

  /** The final push: the record being built is kept when it has a URL. */
  function Finish(st: State): seq<Record> {
    if HasUrl(st.current) then st.records + [st.current] else st.records
  }

  /** The records the converter extracts from `lines`. */
  function Records(lines: seq<string>, otherSymbol: OtherSymbolTest, decode: LiteralDecoder): seq<Record> {
    Finish(Scan(lines, otherSymbol, decode))
  }

  /** The value parser for `column`, as the loop body dispatches it. */
  method ParseColumnValue(column: string, value: string, otherSymbol: OtherSymbolTest, decode: LiteralDecoder) returns (parsed: string)
    ensures parsed == ParseFieldValue(column, value, otherSymbol, decode)
  {
    if column in BoolFields {
      parsed := ParseBool(Some(value), otherSymbol);
    } else if column == MediaField {
      parsed := ParseStoryPinMedia(Some(value), otherSymbol, decode);
    } else {
      parsed := SanitizeValue(Some(value), otherSymbol);
    }
  }

  /** The tests of the loop body on one raw line, in the order the converter makes them. */
  method ClassifyLine(raw: string, otherSymbol: OtherSymbolTest, decode: LiteralDecoder) returns (a: Action)
    ensures a == Classify(raw, otherSymbol, decode)
  {
    var line := Strip(raw);
    if line == [] {
      return Skip;
    }
    if StartsWith(line, "http://") || StartsWith(line, "https://") {
      return OpenRecord(SanitizeValue(Some(line), otherSymbol));
    }
    a := Skip;
    var kv := SplitField(line);
    if kv.Some? {
      var column := NormalizeFieldName(kv.value.0);
      if column.Some? {
        var parsed := ParseColumnValue(column.value, kv.value.1, otherSymbol, decode);
        a := SetCell(column.value, parsed);
      }
    }
  }

  /** One action on `records` and `current`, updating them in place. */
  method ApplyAction(records: seq<Record>, current: Record, a: Action) returns (records': seq<Record>, current': Record)
    ensures State(records', current') == Apply(State(records, current), a)
  {
    records', current' := records, current;
    match a
    case Skip =>
    case OpenRecord(url) =>
      if "url" in current' && current'["url"] != [] && current'["url"] != Sentinel {
        records' := records' + [current'];
        current' := BlankRecord;
      }
      current' := current'["url" := url];
    case SetCell(column, value) =>
      current' := current'[column := value];
  }

  /** The segmentation loop as the converter runs it, then the final push. */
  method ParseLines(lines: seq<string>, otherSymbol: OtherSymbolTest, decode: LiteralDecoder) returns (records: seq<Record>)
    ensures records == Records(lines, otherSymbol, decode)
  {
    records := [];
    var current := BlankRecord;
    var n := 0;
    while n < |lines|
      invariant 0 <= n <= |lines|
      invariant State(records, current) == Scan(lines[..n], otherSymbol, decode)
    {
      ScanPrefixStep(lines, n, otherSymbol, decode);
      var a := ClassifyLine(lines[n], otherSymbol, decode);
      records, current := ApplyAction(records, current, a);
      n := n + 1;
    }
    assert lines[..|lines|] == lines;
    if "url" in current && current["url"] != [] && current["url"] != Sentinel {
      records := records + [current];
    }
  }

  // ---------------------------------------------------------------------------------------
  // The invariant of the loop: every record is well formed, and every record pushed has a URL.

  /** The loop's invariant: the record being built is well formed, and every record pushed is too and has a URL. */
  ghost predicate Good(st: State, otherSymbol: OtherSymbolTest) {
    && WellFormed(st.current, otherSymbol)
    && forall k :: 0 <= k < |st.records| ==> WellFormed(st.records[k], otherSymbol) && HasUrl(st.records[k])
  }

  /** The blank record has every column, each holding the sentinel. */
  lemma BlankRecordWellFormed(otherSymbol: OtherSymbolTest)
    ensures WellFormed(BlankRecord, otherSymbol)
    ensures forall f :: f in BlankRecord ==> BlankRecord[f] == Sentinel
  {
    SentinelIsClean(otherSymbol);
  }

  /** Setting a column to a clean value keeps a record well formed. */
  lemma SetKeepsWellFormed(r: Record, column: string, v: string, otherSymbol: OtherSymbolTest)
    requires WellFormed(r, otherSymbol) && column in CsvFields && Clean(v, otherSymbol)
    ensures WellFormed(r[column := v], otherSymbol)
  {
  }

  /** Every action the loop body can take keeps the invariant. */
  lemma ApplyGood(st: State, a: Action, otherSymbol: OtherSymbolTest)
    requires Good(st, otherSymbol)
    requires a.OpenRecord? ==> Clean(a.url, otherSymbol)
    requires a.SetCell? ==> a.column in CsvFields && Clean(a.value, otherSymbol)
    ensures Good(Apply(st, a), otherSymbol)
  {
    match a
    case Skip =>
    case OpenRecord(url) =>
      BlankRecordWellFormed(otherSymbol);
      var pushed := if HasUrl(st.current) then State(st.records + [st.current], BlankRecord) else st;
      assert Good(pushed, otherSymbol);
      SetKeepsWellFormed(pushed.current, "url", url, otherSymbol);
    case SetCell(column, value) =>
      SetKeepsWellFormed(st.current, column, value, otherSymbol);
  }

  /** The invariant holds after every prefix of the input. */
  lemma {:induction false} ScanGood(lines: seq<string>, otherSymbol: OtherSymbolTest, decode: LiteralDecoder)
    ensures Good(Scan(lines, otherSymbol, decode), otherSymbol)
  {
    if lines == [] {
      BlankRecordWellFormed(otherSymbol);
    } else {
      ScanGood(lines[..|lines| - 1], otherSymbol, decode);
      ApplyGood(Scan(lines[..|lines| - 1], otherSymbol, decode), Classify(lines[|lines| - 1], otherSymbol, decode), otherSymbol);
    }
  }

  /**
   * Every record the converter emits has exactly the columns of the output, a clean value
   * in each cell, and a URL.
   */
  lemma RecordsWellFormed(lines: seq<string>, otherSymbol: OtherSymbolTest, decode: LiteralDecoder)
    ensures forall r :: r in Records(lines, otherSymbol, decode) ==> WellFormed(r, otherSymbol) && HasUrl(r)
  {
    ScanGood(lines, otherSymbol, decode);
  }

  // ---------------------------------------------------------------------------------------
  // Lines and the actions they lead to.

  /** Reading one more line applies its action. */
  lemma ScanSnoc(lines: seq<string>, raw: string, otherSymbol: OtherSymbolTest, decode: LiteralDecoder)
    ensures Scan(lines + [raw], otherSymbol, decode) == Apply(Scan(lines, otherSymbol, decode), Classify(raw, otherSymbol, decode))
  {
    assert (lines + [raw])[..|lines|] == lines;
  }

  /** Reading one more line of `lines` is one more step. */
  lemma ScanPrefixStep(lines: seq<string>, n: int, otherSymbol: OtherSymbolTest, decode: LiteralDecoder)
    requires 0 <= n < |lines|
    ensures Scan(lines[..n + 1], otherSymbol, decode) == Apply(Scan(lines[..n], otherSymbol, decode), Classify(lines[n], otherSymbol, decode))
  {
    assert lines[..n + 1][..n] == lines[..n];
  }

  /** Blank lines change nothing. */
  lemma BlankLineChangesNothing(lines: seq<string>, raw: string, otherSymbol: OtherSymbolTest, decode: LiteralDecoder)
    requires AllSpace(raw)
    ensures Scan(lines + [raw], otherSymbol, decode) == Scan(lines, otherSymbol, decode)
  {
    ScanSnoc(lines, raw, otherSymbol, decode);
  }

  /** Splitting `key: value` at its first colon. */
  lemma SplitAtFirstColon(key: string, rest: string)
    requires ':' !in key
    ensures SplitField(key + [':'] + rest) == Some((Strip(key), Strip(rest)))
  {
    var line := key + [':'] + rest;
    assert line[|key|] == ':';
    assert line[..|key|] == key;
    assert line[|key| + 1..] == rest;
    FirstIndexAt(line, ':', |key|);
  }

  /** A raw `key: value` line whose key is no label of the table is skipped, unless it is a URL line. */
  lemma UnknownLabelSkipped(key: string, rest: string, otherSymbol: OtherSymbolTest, decode: LiteralDecoder)
    requires ':' !in key && !IsUrlLine(Strip(key + [':'] + rest))
    requires forall i :: 0 <= i < |LabelTable| ==> LabelTable[i].0 != Strip(Lower(Strip(key)))
    ensures Classify(key + [':'] + rest, otherSymbol, decode) == Skip
  {
    SplitRawKey(key, rest);
  }

  /** Stripping a raw line with a colon does not change the key before its first colon, once stripped. */
  lemma SplitRawKey(key: string, rest: string)
    requires ':' !in key
    ensures var kv := SplitField(Strip(key + [':'] + rest));
      kv.Some? && kv.value.0 == Strip(key)
  {
    var l := TrimLeft(key);
    StripAround(key, ':', rest);
    assert ':' !in l by {
      assert forall c :: c in l ==> c in key;
    }
    SplitAtFirstColon(l, TrimRight(rest));
    TrimLeftNoLead(l);
  }

  /** A line that does not start with 'h' is no URL line. */
  lemma NotUrlLine(line: string)
    requires line != [] && line[0] != 'h'
    ensures !IsUrlLine(line)
  {
  }

  /** The shape of a line `label: v`: already stripped, not a URL line, and split at the label's end. */
  lemma FieldLineParts(i: int, v: string)
    requires 0 <= i < |LabelTable| && v != [] && NoEdgeSpace(v)
    ensures var line := LabelTable[i].0 + ": " + v;
      && Strip(line) == line && !IsUrlLine(line)
      && line == LabelTable[i].0 + [':'] + ([' '] + v)
      && ':' !in LabelTable[i].0 && Strip(LabelTable[i].0) == LabelTable[i].0 && Strip([' '] + v) == v
  {
    var name := LabelTable[i].0;
    var line := name + ": " + v;
    LabelsHaveNoColon(i);
    LabelsAreNormal(i);
    assert line == name + [':'] + ([' '] + v);
    assert line[0] == name[0] && line[|line| - 1] == v[|v| - 1];
    NotUrlLine(line);
    StripPadded([' '], v, []);
    assert [' '] + v + [] == [' '] + v;
  }

  /** A line `label: v` sets the label's column to the value its parser makes of `v`. */
  lemma FieldLineSetsCell(i: int, v: string, otherSymbol: OtherSymbolTest, decode: LiteralDecoder)
    requires 0 <= i < |LabelTable| && v != [] && NoEdgeSpace(v)
    ensures Classify(LabelTable[i].0 + ": " + v, otherSymbol, decode)
      == SetCell(CsvFields[i], ParseFieldValue(CsvFields[i], v, otherSymbol, decode))
  {
    FieldLineParts(i, v);
    SplitAtFirstColon(LabelTable[i].0, [' '] + v);
    LabelsFindTheirColumns(i);
  }

  /** A URL line starts with 'h'. */
  lemma UrlLineStartsWithH(u: string)
    requires IsUrlLine(u)
    ensures u != [] && u[0] == 'h'
  {
    if StartsWith(u, "http://") {
      assert u[..7][0] == u[0];
    } else {
      assert u[..8][0] == u[0];
    }
  }

  /** A stripped URL line opens a record whose URL is the sanitized line. */
  lemma UrlLineOpensRecord(u: string, otherSymbol: OtherSymbolTest, decode: LiteralDecoder)
    requires NoEdgeSpace(u) && IsUrlLine(u)
    ensures Classify(u, otherSymbol, decode) == OpenRecord(SanitizeValue(Some(u), otherSymbol))
  {
    assert Strip(u) == u;
  }

  /** The sanitized URL line is never empty and never the sentinel: it still starts with 'h'. */
  lemma SanitizedUrlPresent(u: string, otherSymbol: OtherSymbolTest)
    requires IsUrlLine(u) && NoEdgeSpace(u)
    ensures var url := SanitizeValue(Some(u), otherSymbol); url != [] && url != Sentinel && url[0] == 'h'
  {
    UrlLineStartsWithH(u);
    LowTextHasNoEmoji([u[0]], otherSymbol);
    SanitizeKeepsFirst(u, otherSymbol);
  }

  // ---------------------------------------------------------------------------------------
  // Actions and the records they build.

  /**
   * Opening a record emits the one being built exactly when it has a URL (as the final push
   * would), and the new record being built has the URL opened.
   */
  lemma OpenRecordPushes(st: State, url: string)
    requires url != [] && url != Sentinel
    ensures Apply(st, OpenRecord(url)).records == Finish(st)
    ensures HasUrl(Apply(st, OpenRecord(url)).current)
  {
  }

  /** Opening a record while the one being built has no URL pushes nothing and keeps every field set so far. */
  lemma OpenRecordKeepsFields(st: State, url: string)
    requires !HasUrl(st.current)
    ensures Apply(st, OpenRecord(url)) == State(st.records, st.current["url" := url])
  {
  }

  /** The action neither opens a record nor sets the URL column. */
  predicate LeavesUrlAlone(a: Action) {
    !a.OpenRecord? && !(a.SetCell? && a.column == "url")
  }

  /** Until a line opens a record or sets the URL, nothing is pushed and the record being built keeps the sentinel URL. */
  lemma {:induction false} NoUrlYet(lines: seq<string>, otherSymbol: OtherSymbolTest, decode: LiteralDecoder)
    requires forall k :: 0 <= k < |lines| ==> LeavesUrlAlone(Classify(lines[k], otherSymbol, decode))
    ensures var st := Scan(lines, otherSymbol, decode);
      st.records == [] && "url" in st.current && st.current["url"] == Sentinel
  {
    if lines == [] {
      BlankRecordUrl();
    } else {
      var init := lines[..|lines| - 1];
      assert forall k :: 0 <= k < |init| ==> init[k] == lines[k];
      NoUrlYet(init, otherSymbol, decode);
      StepLeavesUrlAlone(Scan(init, otherSymbol, decode), Classify(lines[|lines| - 1], otherSymbol, decode));
    }
  }

  lemma StepLeavesUrlAlone(st: State, a: Action)
    requires st.records == [] && "url" in st.current && st.current["url"] == Sentinel
    requires LeavesUrlAlone(a)
    ensures var st' := Apply(st, a);
      st'.records == [] && "url" in st'.current && st'.current["url"] == Sentinel
  {
  }

  /**
   * Fields read before the first URL line stay in the record that URL line opens: when no
   * earlier line opened a record or set the URL, the URL line adds its URL to every field
   * set so far, and nothing has been pushed.
   */
  lemma FieldsBeforeFirstUrl(pre: seq<string>, u: string, otherSymbol: OtherSymbolTest, decode: LiteralDecoder)
    requires forall k :: 0 <= k < |pre| ==> LeavesUrlAlone(Classify(pre[k], otherSymbol, decode))
    requires NoEdgeSpace(u) && IsUrlLine(u)
    ensures Scan(pre + [u], otherSymbol, decode)
      == State([], Scan(pre, otherSymbol, decode).current["url" := SanitizeValue(Some(u), otherSymbol)])
  {
    NoUrlYet(pre, otherSymbol, decode);
    UrlLineStep(pre, u, otherSymbol, decode);
    OpenWithoutUrl(Scan(pre, otherSymbol, decode), SanitizeValue(Some(u), otherSymbol));
  }

  /** Opening a record before anything was pushed or given a URL keeps every field set so far. */
  lemma OpenWithoutUrl(st: State, url: string)
    requires st.records == [] && "url" in st.current && st.current["url"] == Sentinel
    ensures Apply(st, OpenRecord(url)) == State([], st.current["url" := url])
  {
    OpenRecordKeepsFields(st, url);
  }

  /** Reading a stripped URL line opens a record with the sanitized line. */
  lemma UrlLineStep(pre: seq<string>, u: string, otherSymbol: OtherSymbolTest, decode: LiteralDecoder)
    requires NoEdgeSpace(u) && IsUrlLine(u)
    ensures Scan(pre + [u], otherSymbol, decode)
      == Apply(Scan(pre, otherSymbol, decode), OpenRecord(SanitizeValue(Some(u), otherSymbol)))
  {
    ScanSnoc(pre, u, otherSymbol, decode);
    UrlLineOpensRecord(u, otherSymbol, decode);
  }

  /** The fold of `Apply` over actions already classified. */
  function Run(actions: seq<Action>): State {
    if actions == [] then Start else Apply(Run(actions[..|actions| - 1]), actions[|actions| - 1])
  }

  /** The action of each line. */
  function Actions(lines: seq<string>, otherSymbol: OtherSymbolTest, decode: LiteralDecoder): (r: seq<Action>)
    ensures |r| == |lines| && forall k :: 0 <= k < |lines| ==> r[k] == Classify(lines[k], otherSymbol, decode)
  {
    seq(|lines|, k requires 0 <= k < |lines| => Classify(lines[k], otherSymbol, decode))
  }

  /** Reading lines is classifying each of them, then applying the actions in order. */
  lemma {:induction false} ScanIsRun(lines: seq<string>, otherSymbol: OtherSymbolTest, decode: LiteralDecoder)
    ensures Scan(lines, otherSymbol, decode) == Run(Actions(lines, otherSymbol, decode))
  {
    if lines != [] {
      var init := lines[..|lines| - 1];
      ScanIsRun(init, otherSymbol, decode);
      assert Actions(lines, otherSymbol, decode)[..|lines| - 1] == Actions(init, otherSymbol, decode);
    }
  }

  /** A field set before any URL stays in the record the first URL opens. */
  lemma RunFieldThenUrl(column: string, value: string, url: string)
    requires column != "url" && url != [] && url != Sentinel
    ensures Finish(Run([SetCell(column, value), OpenRecord(url)])) == [BlankRecord[column := value]["url" := url]]
  {
    var s1 := Run([SetCell(column, value)]);
    assert s1 == State([], BlankRecord[column := value]) by {
      assert [SetCell(column, value)][..0] == [];
      assert Run([]) == Start;
    }
    assert "url" in CsvFields;
    assert !HasUrl(s1.current);
    assert [SetCell(column, value), OpenRecord(url)][..1] == [SetCell(column, value)];
  }

  /** Two URLs, each followed by a field, make two records, in order. */
  lemma RunTwoRecords(u1: string, c1: string, v1: string, u2: string, c2: string, v2: string)
    requires u1 != [] && u1 != Sentinel && u2 != [] && u2 != Sentinel && c1 != "url" && c2 != "url"
    ensures Finish(Run([OpenRecord(u1), SetCell(c1, v1), OpenRecord(u2), SetCell(c2, v2)]))
      == [BlankRecord["url" := u1][c1 := v1], BlankRecord["url" := u2][c2 := v2]]
  {
    var p2 := [OpenRecord(u1)] + [SetCell(c1, v1)];
    var p4 := p2 + [OpenRecord(u2)] + [SetCell(c2, v2)];
    var r1 := BlankRecord["url" := u1][c1 := v1];
    var r2 := BlankRecord["url" := u2][c2 := v2];
    assert Run(p2) == State([], r1) by {
      PinFromStart(u1, c1, v1);
    }
    assert Run(p4) == State([r1], r2) by {
      NextPin(p2, [], r1, u2, c2, v2);
    }
    assert HasUrl(r2);
    assert p4 == [OpenRecord(u1), SetCell(c1, v1), OpenRecord(u2), SetCell(c2, v2)] by {
      SnocFour(OpenRecord(u1), SetCell(c1, v1), OpenRecord(u2), SetCell(c2, v2));
    }
  }

  /** A URL then a field, from the start, build one record and push nothing. */
  lemma PinFromStart(u: string, c: string, v: string)
    requires u != [] && u != Sentinel && c != "url"
    ensures Run([OpenRecord(u)] + [SetCell(c, v)]) == State([], BlankRecord["url" := u][c := v])
  {
    assert !HasUrl(BlankRecord) by {
      BlankRecordUrl();
    }
    assert Run([OpenRecord(u)]) == State([], BlankRecord["url" := u]) by {
      RunSnoc([], OpenRecord(u));
      assert [] + [OpenRecord(u)] == [OpenRecord(u)];
    }
    RunSnoc([OpenRecord(u)], SetCell(c, v));
  }

  /** After a record with a URL, a URL then a field push that record and build the next. */
  lemma NextPin(p: seq<Action>, records: seq<Record>, current: Record, u: string, c: string, v: string)
    requires Run(p) == State(records, current) && HasUrl(current)
    requires u != [] && u != Sentinel && c != "url"
    ensures Run(p + [OpenRecord(u)] + [SetCell(c, v)]) == State(records + [current], BlankRecord["url" := u][c := v])
  {
    RunSnoc(p, OpenRecord(u));
    RunSnoc(p + [OpenRecord(u)], SetCell(c, v));
  }

  /** One more action is one more step of the fold. */
  lemma RunSnoc(actions: seq<Action>, a: Action)
    ensures Run(actions + [a]) == Apply(Run(actions), a)
  {
    assert (actions + [a])[..|actions|] == actions;
  }

  /** The blank record has the URL column, holding the sentinel. */
  lemma BlankRecordUrl()
    ensures "url" in BlankRecord && BlankRecord["url"] == Sentinel
  {
    assert "url" in CsvFields;
  }

  lemma SnocFour<T>(p: T, q: T, r: T, s: T)
    ensures [p] + [q] + [r] + [s] == [p, q, r, s]
  {
  }


  /** The actions of two pieces of input are the actions of each piece in turn. */
  lemma ActionsConcat(lines: seq<string>, more: seq<string>, otherSymbol: OtherSymbolTest, decode: LiteralDecoder)
    ensures Actions(lines + more, otherSymbol, decode) == Actions(lines, otherSymbol, decode) + Actions(more, otherSymbol, decode)
  {
    var whole := Actions(lines + more, otherSymbol, decode);
    var parts := Actions(lines, otherSymbol, decode) + Actions(more, otherSymbol, decode);
    forall k | 0 <= k < |whole|
      ensures whole[k] == parts[k]
    {
      if k < |lines| {
        assert (lines + more)[k] == lines[k];
      } else {
        assert (lines + more)[k] == more[k - |lines|];
      }
    }
  }

  /** A line whose action is known. */
  lemma ActionsOfOneLine(x: string, a: Action, otherSymbol: OtherSymbolTest, decode: LiteralDecoder)
    requires Classify(x, otherSymbol, decode) == a
    ensures Actions([x], otherSymbol, decode) == [a]
  {
    assert Actions([x], otherSymbol, decode)[0] == Classify([x][0], otherSymbol, decode);
  }

  /** Two lines whose actions are known. */
  lemma ActionsOfTwoLines(x: string, y: string, a: Action, b: Action, otherSymbol: OtherSymbolTest, decode: LiteralDecoder)
    requires Actions([x], otherSymbol, decode) == [a] && Actions([y], otherSymbol, decode) == [b]
    ensures Actions([x, y], otherSymbol, decode) == [a, b]
  {
    ActionsConcat([x], [y], otherSymbol, decode);
    JoinOnes(x, y);
    JoinOnes(a, b);
  }

  /** Lines whose actions are known give the records of those actions. */
  lemma RecordsOfActions(lines: seq<string>, actions: seq<Action>, otherSymbol: OtherSymbolTest, decode: LiteralDecoder)
    requires Actions(lines, otherSymbol, decode) == actions
    ensures Records(lines, otherSymbol, decode) == Finish(Run(actions))
  {
    ScanIsRun(lines, otherSymbol, decode);
  }

  /** Two pairs of lines whose actions are known give the records of those four actions. */
  lemma RecordsOfTwoPairs(w: string, x: string, y: string, z: string, a: Action, b: Action, c: Action, d: Action,
                          otherSymbol: OtherSymbolTest, decode: LiteralDecoder)
    requires Actions([w, x], otherSymbol, decode) == [a, b] && Actions([y, z], otherSymbol, decode) == [c, d]
    ensures Records([w, x, y, z], otherSymbol, decode) == Finish(Run([a, b, c, d]))
  {
    assert Actions([w, x, y, z], otherSymbol, decode) == [a, b, c, d] by {
      ActionsConcat([w, x], [y, z], otherSymbol, decode);
      JoinPairs(w, x, y, z);
      JoinPairs(a, b, c, d);
    }
    RecordsOfActions([w, x, y, z], [a, b, c, d], otherSymbol, decode);
  }

  lemma JoinOnes<T>(p: T, q: T)
    ensures [p] + [q] == [p, q]
  {
  }

  lemma JoinPairs<T>(p: T, q: T, r: T, s: T)
    ensures [p, q] + [r, s] == [p, q, r, s]
  {
  }

  /**
   * Fields read before the first URL line are not lost: the line `label: v` then a URL line
   * give one record, blank but for that field and the URL.
   */
  lemma FieldsBeforeFirstUrlKept(i: int, v: string, u: string, otherSymbol: OtherSymbolTest, decode: LiteralDecoder)
    requires 0 <= i < |LabelTable| && CsvFields[i] != "url"
    requires v != [] && NoEdgeSpace(v) && NoEdgeSpace(u) && IsUrlLine(u)
    ensures Records([LabelTable[i].0 + ": " + v, u], otherSymbol, decode)
      == [BlankRecord[CsvFields[i] := ParseFieldValue(CsvFields[i], v, otherSymbol, decode)]["url" := SanitizeValue(Some(u), otherSymbol)]]
  {
    var line := LabelTable[i].0 + ": " + v;
    var column := CsvFields[i];
    var value := ParseFieldValue(column, v, otherSymbol, decode);
    var url := SanitizeValue(Some(u), otherSymbol);
    assert Actions([line], otherSymbol, decode) == [SetCell(column, value)] by {
      FieldLineSetsCell(i, v, otherSymbol, decode);
      ActionsOfOneLine(line, SetCell(column, value), otherSymbol, decode);
    }
    assert Actions([u], otherSymbol, decode) == [OpenRecord(url)] by {
      UrlLineOpensRecord(u, otherSymbol, decode);
      ActionsOfOneLine(u, OpenRecord(url), otherSymbol, decode);
    }
    assert Records([line, u], otherSymbol, decode) == Finish(Run([SetCell(column, value), OpenRecord(url)])) by {
      ActionsOfTwoLines(line, u, SetCell(column, value), OpenRecord(url), otherSymbol, decode);
      RecordsOfActions([line, u], [SetCell(column, value), OpenRecord(url)], otherSymbol, decode);
    }
    assert url != [] && url != Sentinel by {
      SanitizedUrlPresent(u, otherSymbol);
    }
    RunFieldThenUrl(column, value, url);
  }

  /**
   * Records come out in input order: two URL lines, each followed by a field line, give two
   * records, the first with the first URL and field, the second with the second.
   */
  lemma TwoPinsInOrder(u1: string, i: int, v1: string, u2: string, j: int, v2: string, otherSymbol: OtherSymbolTest, decode: LiteralDecoder)
    requires NoEdgeSpace(u1) && IsUrlLine(u1) && NoEdgeSpace(u2) && IsUrlLine(u2)
    requires 0 <= i < |LabelTable| && CsvFields[i] != "url" && v1 != [] && NoEdgeSpace(v1)
    requires 0 <= j < |LabelTable| && CsvFields[j] != "url" && v2 != [] && NoEdgeSpace(v2)
    ensures Records([u1, LabelTable[i].0 + ": " + v1, u2, LabelTable[j].0 + ": " + v2], otherSymbol, decode)
      == [BlankRecord["url" := SanitizeValue(Some(u1), otherSymbol)][CsvFields[i] := ParseFieldValue(CsvFields[i], v1, otherSymbol, decode)],
          BlankRecord["url" := SanitizeValue(Some(u2), otherSymbol)][CsvFields[j] := ParseFieldValue(CsvFields[j], v2, otherSymbol, decode)]]
  {
    var l1 := LabelTable[i].0 + ": " + v1;
    var l2 := LabelTable[j].0 + ": " + v2;
    var url1 := SanitizeValue(Some(u1), otherSymbol);
    var url2 := SanitizeValue(Some(u2), otherSymbol);
    var a1 := SetCell(CsvFields[i], ParseFieldValue(CsvFields[i], v1, otherSymbol, decode));
    var a2 := SetCell(CsvFields[j], ParseFieldValue(CsvFields[j], v2, otherSymbol, decode));
    assert Actions([u1], otherSymbol, decode) == [OpenRecord(url1)] by {
      UrlLineOpensRecord(u1, otherSymbol, decode);
      ActionsOfOneLine(u1, OpenRecord(url1), otherSymbol, decode);
    }
    assert Actions([l1], otherSymbol, decode) == [a1] by {
      FieldLineSetsCell(i, v1, otherSymbol, decode);
      ActionsOfOneLine(l1, a1, otherSymbol, decode);
    }
    assert Actions([u2], otherSymbol, decode) == [OpenRecord(url2)] by {
      UrlLineOpensRecord(u2, otherSymbol, decode);
      ActionsOfOneLine(u2, OpenRecord(url2), otherSymbol, decode);
    }
    assert Actions([l2], otherSymbol, decode) == [a2] by {
      FieldLineSetsCell(j, v2, otherSymbol, decode);
      ActionsOfOneLine(l2, a2, otherSymbol, decode);
    }
    assert Records([u1, l1, u2, l2], otherSymbol, decode) == Finish(Run([OpenRecord(url1), a1, OpenRecord(url2), a2])) by {
      ActionsOfTwoLines(u1, l1, OpenRecord(url1), a1, otherSymbol, decode);
      ActionsOfTwoLines(u2, l2, OpenRecord(url2), a2, otherSymbol, decode);
      RecordsOfTwoPairs(u1, l1, u2, l2, OpenRecord(url1), a1, OpenRecord(url2), a2, otherSymbol, decode);
    }
    assert url1 != [] && url1 != Sentinel && url2 != [] && url2 != Sentinel by {
      SanitizedUrlPresent(u1, otherSymbol);
      SanitizedUrlPresent(u2, otherSymbol);
    }
    RunTwoRecords(url1, a1.column, a1.value, url2, a2.column, a2.value);
  }
}
