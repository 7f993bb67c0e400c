# Pinterest dump to CSV: a Dafny model

This project models `pinterest_to_csv.py`. The script turns a plain-text dump of Pinterest
pins into a CSV file with one row per pin. The dump is a sequence of lines:

- a line starting with `http://` or `https://` opens a pin;
- `Label: value` lines fill in that pin's fields;
- any other line is skipped.

The model covers the value sanitisers, the two typed parsers, the label table, the
segmentation loop and the safety pass the writer runs on every cell. It proves what each
one guarantees.

## Modules

- **Emoji** (`emoji.dfy`): `is_emoji_char`. This covers the joiner and variation
  selectors, the skin-tone modifiers, the eight listed blocks, and the "So"-category
  fallback above U+1F000.
- **Text** (`text.dfy`): the Python primitives the script leans on, written out:
  - `str.isspace`/`\s` as one fixed character set, and `str.strip`;
  - `re.sub(r"\s+", " ", s)` as `Collapse`;
  - `str.lower`, prefix tests, first-colon search, and `"|".join` with its inverse.
- **Sanitizers** (`sanitizers.dfy`):
  - `replace_emojis_with_space`, `strip_trailing_commas`, `remove_all_commas` and
    `to_na_if_empty`;
  - `sanitize_value`, which chains them;
  - the predicate `Clean`, the shape of every value the pipeline produces: not empty, no
    comma, no emoji-like character, no edge whitespace, and only single plain spaces inside.
- **ValueParsers** (`valueparsers.dfy`): `parse_bool`, and the preparation step it shares
  with `parse_story_pin_media`.
- **ImageScan** (`imagescan.dfy`): the fallback `re.findall(r"'image':\s*'([^']+)'", s)`.
- **StoryPin** (`storypin.dfy`): `parse_story_pin_media`:
  - the greedy `\[.*\]` block and the decoded-list branch, with its loop;
  - the regular-expression fallback;
  - the `|` join.
- **FieldSchema** (`fieldschema.dfy`): `CSV_FIELDS`, the label table and
  `normalize_field_name`.
- **Segmentation** (`segmentation.dfy`): the parse loop of lines 202-238.
  - `Classify` decides what the loop body does with one line; `Apply` performs it on the
    state (the pushed records and `current`).
  - `Scan` folds over the lines, and `Records` adds the final push.
  - The method `ParseLines` is the loop itself, proved equal to `Records`.
- **SafetyPass** and **CsvWriter** (`safetypass.dfy`, `csvwriter.dfy`):
  - the per-cell safety pass of lines 244-253, and the rows handed to `csv.DictWriter`;
  - `Convert`, which runs segmentation and then writing, end to end.

Two calls into libraries are passed in as parameters:

- `unicodedata.category(ch) == "So"` becomes `otherSymbol: char -> bool`.
- `ast.literal_eval` plus the `isinstance` tests on what it returns becomes
  `decode: string -> Option<seq<Option<string>>>`:
  - `None` means it raised or did not return a list;
  - an item is `Some(str(item["image"]))` for a dict with an `"image"` key, `None` otherwise.

Every property holds whatever these two parameters do, except where a lemma states an
assumption about `decode`.

### Behaviour worth knowing

- **`sanitize_value` is not idempotent.** The "no data" test runs before commas are
  removed, so `"no, data"` sanitises to `"no data"`, and that sanitises to `"NA"`.
  - `Sanitizers.SanitizeIdempotentIff` proves the exact condition: a second pass changes
    the result exactly when the result reads "no data".
  - `Sanitizers.NoCommaDataTwice` shows the example.
- **Lines without a colon.** A non-blank line with no colon that is not a URL line is
  dropped, and only URL lines open records.
- **Labels and the URL.** A `url: x` line is an ordinary label line. It sets the URL cell
  through `sanitize_value`, so a pin's URL can be replaced without opening a record.
- **Order of comma removal.** `parse_bool` removes commas after its last strip;
  `sanitize_value` removes them before its last strip. So `", true"` parses to `"NA"` but
  sanitises to `"true"` (`ValueParsers.LeadingCommaTrue`).

## Model

| member | source | states |
|---|---|---|
| Emoji.InSomeBlock | pinterest_to_csv.py:42-44 | the block loop answers true exactly when some listed inclusive range holds the code point |
| Emoji.IsEmojiChar | pinterest_to_csv.py:14-50 | the empty string is not emoji; a one-character string is emoji exactly when its character is emoji-like |
| Emoji.ModifiersAreEmojiLike | pinterest_to_csv.py:23-29 | U+200D, U+FE0E, U+FE0F and U+1F3FB..U+1F3FF are emoji-like whatever the category test says |
| Emoji.BlocksAreEmojiLike | pinterest_to_csv.py:31-44 | every code point of each of the eight listed blocks is emoji-like whatever the category test says |
| Emoji.LowCodePointsAreNotEmojiLike | pinterest_to_csv.py:14-50 | below U+2600 only the joiner is emoji-like, whatever the category test says |
| Emoji.SpacesAreNotEmojiLike | pinterest_to_csv.py:14-50 | no whitespace character is emoji-like |
| Emoji.FallbackOnlyAboveU1F000 | pinterest_to_csv.py:46-48 | the category test cannot change the answer below U+1F000 |
| Text.Strip | pinterest_to_csv.py:80 | `str.strip` leaves no whitespace at either end, adds no character, and leaves text without edge whitespace alone |
| Text.StripEmpty | pinterest_to_csv.py:80-81 | stripping gives the empty string exactly when the text is all whitespace |
| Text.StripPadded | pinterest_to_csv.py:80 | whitespace before and after text without edge whitespace is exactly what strip removes |
| Text.CollapseShape | pinterest_to_csv.py:59 | `re.sub(r"\s+", " ", s)` leaves only single plain spaces, is empty only for empty input, and keeps whether each end is whitespace |
| Text.CollapseChars | pinterest_to_csv.py:59 | collapsing introduces no character but the space |
| Text.CollapseCollapsed | pinterest_to_csv.py:101 | collapsing text that has only single plain spaces changes nothing |
| Text.CollapseAppend | pinterest_to_csv.py:59 | collapsing distributes over a concatenation whose left part ends in a non-space |
| Text.StripCollapseLead | pinterest_to_csv.py:59 | collapsing then stripping does not see whitespace put in front of the text |
| Text.StripCollapseWord | pinterest_to_csv.py:59 | collapsing then stripping a word, a whitespace run and any text gives the word, one space and the result for the text, or the word alone when that is empty |
| Text.StripAround | pinterest_to_csv.py:207 | stripping text around a character other than whitespace trims only the front part and the back part |
| Text.LowerOfLower | pinterest_to_csv.py:98 | lower-casing text without capitals changes nothing |
| Text.LowerPadded | pinterest_to_csv.py:187 | lower-casing distributes over whitespace padding and keeps it whitespace |
| Text.SplitJoin | pinterest_to_csv.py:151 | splitting a join on its separator gives back the parts when no part holds the separator |
| Sanitizers.EmojiToSpace | pinterest_to_csv.py:57 | same length; each emoji-like character becomes a space and every other character stays in its place; no emoji is left; emoji-free text is unchanged |
| Sanitizers.ReplaceEmojisWithSpace | pinterest_to_csv.py:52-60 | the result has no emoji-like character, no edge whitespace and only single plain spaces; it adds only spaces; empty stays empty; text already in that shape is unchanged |
| Sanitizers.ReplaceEmojisWithSpaceKeeps | pinterest_to_csv.py:52-60 | text without emoji, edge whitespace or whitespace runs is a fixed point |
| Sanitizers.ReplaceEmojisWithSpaceLead | pinterest_to_csv.py:52-60 | whitespace and emoji-like characters in front of the text make no difference to the result |
| Sanitizers.ReplaceEmojisWithSpaceWord | pinterest_to_csv.py:52-60 | a word, a run of whitespace and emoji-like characters, then any text: the word, one space and the result for the rest, or the word alone when the rest gives nothing; with the two lemmas above this decides the result on every text |
| Sanitizers.ReplaceOneEmoji | pinterest_to_csv.py:52-60 | one emoji-like character between two words becomes one space, and after the last word it vanishes |
| Sanitizers.StripTrailingCommas | pinterest_to_csv.py:64-68 | the result is a prefix, does not end in a comma or whitespace, and everything removed is commas and whitespace |
| Sanitizers.StripTrailingCommasKeeps | pinterest_to_csv.py:64-68 | text ending in neither comma nor whitespace is unchanged |
| Sanitizers.StripTrailingCommasTail | pinterest_to_csv.py:64-68 | a tail made only of commas and whitespace after such text is exactly what is removed |
| Sanitizers.RemoveAllCommas | pinterest_to_csv.py:70-74 | the result holds no comma |
| Sanitizers.RemoveAllCommasContents | pinterest_to_csv.py:70-74 | as multisets, the result is the input with every comma dropped and every other character kept |
| Sanitizers.RemoveAllCommasKeeps | pinterest_to_csv.py:70-74 | comma-free text is unchanged |
| Sanitizers.RemoveAllCommasAppend | pinterest_to_csv.py:70-74 | comma removal distributes over concatenation |
| Sanitizers.ToNaIfEmpty | pinterest_to_csv.py:76-81 | the result is never empty and has no edge whitespace; it is "NA" exactly when the input is all whitespace or strips to "NA", and otherwise the stripped input |
| Sanitizers.SanitizeValue | pinterest_to_csv.py:83-102 | every result is clean; `None` gives "NA"; apart from "NA", every character of the result is a space or comes from the input |
| Sanitizers.SanitizeClean | pinterest_to_csv.py:94-102 | clean text is returned unchanged, except that a case-insensitive "no data" becomes "NA" |
| Sanitizers.SanitizeIdempotentIff | pinterest_to_csv.py:94-102 | a second pass leaves the result unchanged exactly when the result does not read "no data" |
| Sanitizers.SanitizePadded | pinterest_to_csv.py:94-102 | whitespace before and commas/whitespace after clean text do not change the result ("NA" for a "no data" spelling) |
| Sanitizers.SanitizeKeepsFirst | pinterest_to_csv.py:94-102 | text starting with a non-space, non-comma, non-emoji character keeps it first, unless the result is "NA" for a "no data" spelling |
| Sanitizers.SanitizeInnerComma | pinterest_to_csv.py:100-102 | a comma inside clean text is dropped and nothing else changes |
| Sanitizers.SanitizeSeparated | pinterest_to_csv.py:83-102 | two clean texts with a run of whitespace and emoji-like characters between them sanitise to the two joined by one space, or to "NA" when that reads "no data" |
| Sanitizers.SanitizeTrailingSeparators | pinterest_to_csv.py:83-102 | clean text followed by whitespace and emoji-like characters sanitises as the clean text alone |
| Sanitizers.SanitizeEmojiAtEnd | pinterest_to_csv.py:83-102 | "b" followed by a thumbs-up sign sanitises to "b" |
| Sanitizers.NoDataTrailingComma | pinterest_to_csv.py:97-99 | "No data," gives "NA" |
| Sanitizers.NoDataUpperCasePadded | pinterest_to_csv.py:97-99 | " NO DATA , " gives "NA" |
| Sanitizers.NoCommaDataTwice | pinterest_to_csv.py:97-102 | "no, data" gives "no data", and "no data" gives "NA" |
| ValueParsers.Prepared | pinterest_to_csv.py:114-115 | the shared preparation is the emoji pass then trailing-comma removal; the result has no emoji, no edge whitespace, only single spaces, and does not end in a comma or whitespace |
| ValueParsers.ParseBool | pinterest_to_csv.py:104-121 | the result is "true", "false" or "NA", and "NA" for `None` |
| ValueParsers.ParseBoolClean | pinterest_to_csv.py:112-121 | on clean text the answer is decided by the text's lower-case form alone |
| ValueParsers.ParseBoolAgreesWithSanitize | pinterest_to_csv.py:83-121 | whenever `parse_bool` answers "true" or "false", that is the lower-cased `sanitize_value` of the same input |
| ValueParsers.ParseBoolPadded | pinterest_to_csv.py:114-115 | whitespace before and commas/whitespace after clean text do not change the answer |
| ValueParsers.ParseBoolInnerCommaIgnored | pinterest_to_csv.py:116 | a comma inside clean text does not change the answer |
| ValueParsers.ParseBoolTrue | pinterest_to_csv.py:117-118 | "True" gives "true" |
| ValueParsers.ParseBoolFalsePadded | pinterest_to_csv.py:114-120 | "FALSE, " gives "false" |
| ValueParsers.ParseBoolMissing | pinterest_to_csv.py:112-121 | `None`, "" and "No data" give "NA" |
| ValueParsers.ParseBoolInnerComma | pinterest_to_csv.py:116-118 | "tr,ue" gives "true" |
| ValueParsers.ParseBoolLeadingComma | pinterest_to_csv.py:115-121 | a comma and a space before any clean text give "NA", since the space survives |
| ValueParsers.SanitizeLeadingComma | pinterest_to_csv.py:97-102 | a comma and a space before clean text vanish in `sanitize_value` |
| ValueParsers.LeadingCommaTrue | pinterest_to_csv.py:97-121 | ", true" parses to "NA" but sanitises to "true" |
| ValueParsers.BoolTextsAreClean | pinterest_to_csv.py:117-121 | all three answers of `parse_bool` are clean values |
| ImageScan.QuotedImage | pinterest_to_csv.py:157 | a match of `\s*'([^']+)'` captures a non-empty run without quotes, within the text |
| ImageScan.MatchImageAt | pinterest_to_csv.py:157 | a match starts with `'image':` and captures a non-empty run without quotes |
| ImageScan.FindImages | pinterest_to_csv.py:157-158 | every image found is non-empty and holds no quote |
| ImageScan.FindImagesSkip | pinterest_to_csv.py:157 | text without a quote contributes no match and does not disturb the scan after it |
| ImageScan.FindImagesEntries | pinterest_to_csv.py:157 | the scan reads the images of `{'image': 'x'}` entries separated by ", " in order |
| ImageScan.FindImagesListing | pinterest_to_csv.py:157 | the scan of a written list `[{'image': 'a'}, ...]` gives exactly its images, in order |
| StoryPin.BracketBlock | pinterest_to_csv.py:141 | a block starts with '[' and ends with ']' |
| StoryPin.BracketBlockExists | pinterest_to_csv.py:141-142 | there is a block exactly when some '[' comes before some ']' |
| StoryPin.BracketBlockGreedy | pinterest_to_csv.py:141 | the block runs from the first '[' to the last ']' |
| StoryPin.KeepImage | pinterest_to_csv.py:147-150 | a kept image is clean and is not "NA" |
| StoryPin.KeptImagesMembers | pinterest_to_csv.py:145-150 | an image is kept exactly when some item contributes it |
| StoryPin.KeptImagesClean | pinterest_to_csv.py:148-150 | every kept image is clean and not "NA" |
| StoryPin.KeptCleanImages | pinterest_to_csv.py:145-150 | images that are clean and neither "no data" nor "NA" are all kept, unchanged and in order |
| StoryPin.JoinImagesClean | pinterest_to_csv.py:151 | joining clean images gives clean text, which is "NA" exactly when there are none |
| StoryPin.JoinImagesSplit | pinterest_to_csv.py:151 | the join splits back on the pipe character into the images when none holds it |
| StoryPin.StoryPinMedia | pinterest_to_csv.py:123-163 | the result is clean; `None` gives "NA"; prepared text that reads "no data" in any capitalisation gives "NA"; otherwise the result is "NA" exactly when no image is kept, and else joins the kept images of the decoded list or of the fallback scan |
| StoryPin.KeepEmojiItem | pinterest_to_csv.py:147-150 | a list item "b" followed by a thumbs-up sign contributes the image "b" |
| StoryPin.CollectImages | pinterest_to_csv.py:145-150 | the loop over the decoded list appends exactly the kept images, in order |
| StoryPin.ParseStoryPinMedia | pinterest_to_csv.py:123-163 | the method with its loop computes `StoryPinMedia` |
| StoryPin.StoryPinMediaNoData | pinterest_to_csv.py:134-137 | a padded "no data" with trailing commas gives "NA" whatever the decoder does |
| StoryPin.ListingPrepared | pinterest_to_csv.py:134-137 | a written list of clean images passes the preparation unchanged and is not "no data" |
| StoryPin.StoryPinMediaListing | pinterest_to_csv.py:139-163 | a written list of plain images reads back as those images, joined by the pipe character, whether the decoder returns the list or fails |
| FieldSchema.CsvFieldsDistinct | pinterest_to_csv.py:189-193 | there are eighteen columns, all different |
| FieldSchema.LabelTableColumns | pinterest_to_csv.py:167-193 | label i leads to column i, one for one, and no label appears twice |
| FieldSchema.LabelsAreNormal | pinterest_to_csv.py:167-186 | every label is non-empty, stripped and without capitals, so it can be matched |
| FieldSchema.LabelsHaveNoColon | pinterest_to_csv.py:167-186 | no label holds a colon or starts with 'h' |
| FieldSchema.NormalizeFieldName | pinterest_to_csv.py:165-187 | a column found is one of the output columns; none is found exactly when no label equals the lower-cased, stripped name |
| FieldSchema.LookupLabel | pinterest_to_csv.py:187 | looking up a label finds its own column |
| FieldSchema.LabelsFindTheirColumns | pinterest_to_csv.py:165-187 | each label, written as in the table, maps to its column |
| FieldSchema.NormalizeIgnoresCaseAndPadding | pinterest_to_csv.py:187 | any capitalisation of a label, padded with whitespace, maps to its column |
| Segmentation.ParseFieldValue | pinterest_to_csv.py:229-234 | every parsed value is clean; the five boolean columns only get "true", "false" or "NA" |
| Segmentation.SplitField | pinterest_to_csv.py:221-224 | a line splits exactly when it holds a colon |
| Segmentation.SplitAtFirstColon | pinterest_to_csv.py:222-224 | the split is at the first colon, with both parts stripped |
| Segmentation.Classify | pinterest_to_csv.py:206-234 | a URL opens a record with a clean URL; a cell is set only in an output column and to a clean value; blank lines, and lines with no colon that are not URLs, are skipped |
| Segmentation.ParseColumnValue | pinterest_to_csv.py:229-234 | the dispatch on the column computes `ParseFieldValue` |
| Segmentation.ClassifyLine | pinterest_to_csv.py:206-234 | the tests of the loop body, in their order, compute `Classify` |
| Segmentation.ApplyAction | pinterest_to_csv.py:213-234 | the in-place update of `records` and `current` is `Apply` |
| Segmentation.ParseLines | pinterest_to_csv.py:202-238 | the loop and the final push return `Records(lines)` |
| Segmentation.BlankRecordWellFormed | pinterest_to_csv.py:203 | the fresh record has exactly the output columns, each "NA" |
| Segmentation.SetKeepsWellFormed | pinterest_to_csv.py:229-234 | setting an output column to a clean value keeps a record well formed |
| Segmentation.ApplyGood | pinterest_to_csv.py:213-234 | every step keeps the loop invariant: `current` well formed, every pushed record well formed and with a URL |
| Segmentation.ScanGood | pinterest_to_csv.py:206-234 | the invariant holds after every prefix of the input |
| Segmentation.RecordsWellFormed | pinterest_to_csv.py:202-238 | every emitted record has exactly the eighteen columns, a clean value in each, and a URL |
| Segmentation.BlankLineChangesNothing | pinterest_to_csv.py:207-209 | a blank line leaves the state unchanged |
| Segmentation.UnknownLabelSkipped | pinterest_to_csv.py:207-227 | a raw line with a colon whose stripped key before the first colon is no label is skipped, unless it is a URL line |
| Segmentation.SplitRawKey | pinterest_to_csv.py:207-224 | stripping a raw line does not change its stripped key before the first colon |
| Segmentation.FieldLineSetsCell | pinterest_to_csv.py:221-234 | a line `label: v` sets the label's column to that column's parse of `v` |
| Segmentation.UrlLineOpensRecord | pinterest_to_csv.py:212-218 | a URL line opens a record whose URL is the sanitised line |
| Segmentation.SanitizedUrlPresent | pinterest_to_csv.py:214-217 | a sanitised URL line is never empty or "NA", so the record it opens has a URL |
| Segmentation.OpenRecordPushes | pinterest_to_csv.py:213-217 | opening a record pushes the current one exactly as the final push would, and the new current record has the URL |
| Segmentation.OpenRecordKeepsFields | pinterest_to_csv.py:213-217 | when the record being built has no URL, a URL line pushes nothing and keeps every field set so far, adding the URL |
| Segmentation.NoUrlYet | pinterest_to_csv.py:202-238 | until a line opens a record or sets the URL column, nothing is pushed and the record being built has the "NA" URL |
| Segmentation.ScanIsRun | pinterest_to_csv.py:206-234 | reading lines means classifying each line, then applying the actions in order |
| Segmentation.RunFieldThenUrl | pinterest_to_csv.py:213-238 | a field set before the first URL is kept in the record that URL opens |
| Segmentation.RunTwoRecords | pinterest_to_csv.py:213-238 | two URLs, each followed by a field, give two records, in order |
| Segmentation.FieldsBeforeFirstUrlKept | pinterest_to_csv.py:202-238 | the lines `label: v` then a URL give one record: blank except for that field and the URL |
| Segmentation.FieldsBeforeFirstUrl | pinterest_to_csv.py:202-238 | for any lines that neither open a record nor set the URL, the first URL line keeps every field they set, adds its URL, and nothing has been pushed |
| Segmentation.TwoPinsInOrder | pinterest_to_csv.py:202-238 | URL, field, URL, field lines give two records in input order, each with its own URL and field |
| SafetyPass.SafeCellShape | pinterest_to_csv.py:244-253 | every written cell is non-empty, with no comma, no emoji-like character and no edge whitespace |
| SafetyPass.SafeValue | pinterest_to_csv.py:248-252 | the four in-place steps compute the safe cell |
| SafetyPass.SafeCellKeepsClean | pinterest_to_csv.py:248-252 | a clean cell passes unchanged |
| CsvWriter.SafeRow | pinterest_to_csv.py:245-253 | the loop over a record's items builds a record with the same keys, each cell through the safety pass |
| CsvWriter.WriteRows | pinterest_to_csv.py:242-254 | the header, then one safe row per record, in order |
| CsvWriter.Convert | pinterest_to_csv.py:202-254 | the whole conversion is the table of the segmented records |
| CsvWriter.SafeRowKeepsClean | pinterest_to_csv.py:244-254 | the safety pass leaves the row of a record with all-clean cells unchanged |
| CsvWriter.SafeRowCells | pinterest_to_csv.py:244-254 | a written row has one cell per column, no comma in any cell, and a non-empty cell for every key the record has |
| CsvWriter.TableHeader | pinterest_to_csv.py:242-243 | the first row is the column list |
| CsvWriter.TableRow | pinterest_to_csv.py:244-254 | the table has one row per record after the header, and row i+1 is record i's safe row |
| CsvWriter.TableCellsSafe | pinterest_to_csv.py:242-254 | every data row has a cell per column, no comma anywhere, and a non-empty cell for every key of its record |
| CsvWriter.ConvertedRowsAreRecords | pinterest_to_csv.py:202-254 | on the records the parser builds, row i+1 is record i's cells in column order, none empty |

## Left out

- Reading `pinterest.txt` (lines 196-200), writing `pins.csv`, the `csv.DictWriter` quoting, and the final `print`. The lines of the input are a parameter, and the table handed to the writer is the result.
- The existence check on the input file and its `FileNotFoundError` (lines 196-197).
- How `f.read().strip().splitlines()` splits the text into lines. Its outer `strip` changes nothing the model can see, because each line is stripped again and blank lines are skipped.
- The Unicode character database. `unicodedata.category(ch) == "So"` is a parameter of every member that needs it.
- `ast.literal_eval`, and the `isinstance`/`str` tests on its result. They form a decoder parameter, which also stands for any exception the evaluation raises.
- The string conversion at line 247. Records only ever hold strings, so that branch is always `val = v`.
- `str.lower` is modelled on A-Z and U+212A (KELVIN SIGN), the only characters whose lower case lies in ASCII without extra characters. This decides every comparison the script makes against its ASCII literals, but it is not Python's full case mapping.
- Whitespace (`str.isspace`, `\s`, `str.strip`) is the fixed set of characters Python treats as whitespace.
- The other files of the repository (`demo_example.py`, `refinery.py` and the `stella_ex` directory) are not part of this model.
- ImageScan.QuotedImage: the contract bounds the match length by `0 < n <= |u|`. It does not state the length as the leading whitespace plus the image plus two quotes; the scan's lemmas only need the bound.
- StoryPin.StoryPinMediaListing: proved for decoders that return the written list, or fail, on its text. Other decoders are covered by `StoryPin.StoryPinMedia`'s contract alone.
- StoryPin.StoryPinMedia: when a kept image itself holds '|', the contract says only that the result is not "NA"; the joined text then does not split back into the images, and the model states nothing more about it.
- Emoji.IsEmojiChar: requires a string of at most one character. The script only ever passes one character; the `TypeError` that `ord` raises on a longer string is not modelled.
- SafetyPass.Row: a key outside the column list is left out of the row. `csv.DictWriter` would raise `ValueError` for it instead; the records the script builds never hold such a key (`Segmentation.RecordsWellFormed`).
