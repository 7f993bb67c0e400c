/**
 * The output columns and the label table of `normalize_field_name`, which maps the labels of
 * a pin dump ("Board name", "Is a repin", ...) to those columns.
 */
module FieldSchema {
  import opened Wrappers
  import opened Text

  /** `CSV_FIELDS`: the columns of the output, in order. */
  const CsvFields: seq<string> := [
    "url", "title", "details", "image", "is_native", "board_id", "board_name", "is_video",
    "ip_address", "username", "alt_text", "canonical_link", "story_pin_media", "video",
    "created_at", "alive", "is_a_repin", "private"
  ]

  /**
   * The table of `normalize_field_name`: each label, lower-case and stripped, with its
   * column, in the order the source lists them (which is the order of the columns).
   */
  const LabelTable: seq<(string, string)> := [
    ("url", "url"),
    ("title", "title"),
    ("details", "details"),
    ("image", "image"),
    ("is native", "is_native"),
    ("board id", "board_id"),
    ("board name", "board_name"),
    ("is video", "is_video"),
    ("ip address", "ip_address"),
    ("username", "username"),
    ("alt text", "alt_text"),
    ("canonical link", "canonical_link"),
    ("story pin media", "story_pin_media"),
    ("video", "video"),
    ("created at", "created_at"),
    ("alive", "alive"),
    ("is a repin", "is_a_repin"),
    ("private", "private")
  ]

  /** Python's `dict.get` on a table of pairs: the value paired with `key`, if any. */
  function Lookup(table: seq<(string, string)>, key: string): (r: Option<string>)
    ensures r.Some? ==> exists i :: 0 <= i < |table| && table[i] == (key, r.value)
    ensures r.None? <==> forall i :: 0 <= i < |table| ==> table[i].0 != key
  {
    if table == [] then None
    else if table[0].0 == key then Some(table[0].1)
    else
      var r := Lookup(table[1..], key);
      assert forall i :: 1 <= i < |table| ==> table[i] == table[1..][i - 1];
      r
  }

  /** Every column appears once, so a record keyed by the columns has eighteen cells. */
  lemma CsvFieldsDistinct()
    ensures |CsvFields| == 18
    ensures forall i, j :: 0 <= i < j < |CsvFields| ==> CsvFields[i] != CsvFields[j]
  {
  }

  /** The labels lead to the columns one for one, and no label appears twice. */
  lemma LabelTableColumns()
    ensures |LabelTable| == |CsvFields|
    ensures forall i :: 0 <= i < |LabelTable| ==> LabelTable[i].1 == CsvFields[i]
    ensures forall i, j :: 0 <= i < j < |LabelTable| ==> LabelTable[i].0 != LabelTable[j].0
  {
  }

  /** Every label is already in the form the lookup compares: lower-case, not empty, and stripped. */
  lemma LabelsAreNormal(i: int)
    requires 0 <= i < |LabelTable|
    ensures var k := LabelTable[i].0;
      k != [] && NoEdgeSpace(k) && forall c :: c in k ==> !('A' <= c <= 'Z') && c != '\U{212A}'
  {
    var k := LabelTable[i].0;
    LabelLetters(i);
    assert forall c :: c in k ==> LabelChar(c) by {
      forall c | c in k ensures LabelChar(c) {
        var j :| 0 <= j < |k| && k[j] == c;
      }
    }
  }

  /** The characters a label is written with: lower-case ASCII letters and the plain space. */
  predicate LabelChar(c: char) {
    'a' <= c <= 'z' || c == ' '
  }

  /** Every label is lower-case letters and single inner spaces. */
  lemma LabelLetters(i: int)
    requires 0 <= i < |LabelTable|
    ensures var k := LabelTable[i].0;
      k != [] && 'a' <= k[0] <= 'z' && 'a' <= k[|k| - 1] <= 'z' && forall j :: 0 <= j < |k| ==> LabelChar(k[j])
  {
  }

  /** No label holds a colon, and none starts with 'h', so no `label: value` line reads as a URL line. */
  lemma LabelsHaveNoColon(i: int)
    requires 0 <= i < |LabelTable|
    ensures ':' !in LabelTable[i].0 && LabelTable[i].0 != [] && LabelTable[i].0[0] != 'h'
  {
  }

  /** `normalize_field_name`: the column of the lower-cased, stripped label, if the table has it. */
  function NormalizeFieldName(name: string): (r: Option<string>)
    ensures r.Some? ==> r.value in CsvFields
    ensures r.None? <==> forall i :: 0 <= i < |LabelTable| ==> LabelTable[i].0 != Strip(Lower(name))
  {
    LabelTableColumns();
    Lookup(LabelTable, Strip(Lower(name)))
  }

  /** Looking up a label of the table finds its column. */
  lemma LookupLabel(i: int)
    requires 0 <= i < |LabelTable|
    ensures Lookup(LabelTable, LabelTable[i].0) == Some(CsvFields[i])
  {
    LabelTableColumns();
  }

  /** Each label of the table, written as it stands, finds its own column. */
  lemma LabelsFindTheirColumns(i: int)
    requires 0 <= i < |LabelTable|
    ensures NormalizeFieldName(LabelTable[i].0) == Some(CsvFields[i])
  {
    var k := LabelTable[i].0;
    LabelsAreNormal(i);
    LowerOfLower(k);
    assert Strip(k) == k;
    LookupLabel(i);
  }

  /** The lookup ignores case and surrounding whitespace: any spelling of a label finds its column. */
  lemma NormalizeIgnoresCaseAndPadding(lead: string, name: string, trail: string, i: int)
    requires AllSpace(lead) && AllSpace(trail)
    requires 0 <= i < |LabelTable| && Lower(name) == LabelTable[i].0
    ensures NormalizeFieldName(lead + name + trail) == Some(CsvFields[i])
  {
    var key := LabelTable[i].0;
    assert key != [] && NoEdgeSpace(key) by {
      LabelsAreNormal(i);
    }
    assert Strip(Lower(lead + name + trail)) == key by {
      LowerPadded(lead, name, trail);
      StripPadded(Lower(lead), key, Lower(trail));
    }
    LookupLabel(i);
  }
}
