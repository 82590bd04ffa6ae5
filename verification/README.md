# fmg-timesheets, modelled in Dafny

fmg-timesheets turns the PDF timesheets of one employer into data. A PDF is first dumped to HTML or to pdfminer's XML. A parser then lays the text boxes out as semi-structured rows. A `Timesheet` object beats the rows into shape, validates and reads the header block, and strips the footer and the page furniture. Each `TimeEntry` repairs and checks the rows of one time entry. Downstream code flattens the entries into long CSV rows or a nested dictionary, and sums hours per project.

This project models that core as pure Dafny functions over immutable values, and proves what the code promises about them:

- **Wrappers.** Every Python exception the code can raise is an `Err` carrying the exception's kind: `IndexError`, `ValueError`, `AttributeError` or `KeyError`.
- **Text.** The `str` operations the parsers rely on: `strip`, `split`, `split(sep, 1)`, `splitlines`, padding and decimal digits.
- **Pattern.** The fragment of `re` that the two pattern tables use, with the anchored-at-start semantics of `re.match`.
- **Rows.** Rows, and the list primitives `move_item` and `remove_item`.
  - `move_item` is modelled twice: as the four Python slices it glues together, and position by position. A lemma shows the two agree on every input, including Python's slice clamping.
- **Timesheet.** `parser/timesheet.py`:
  - the repair catalogue, as data plus one generic rule interpreter;
  - header validation, header extraction, footer cutting, page-furniture stripping, and the constructor.
- **TimeEntry.** `parser/timeentry.py`: splitting a merged project cell, padding leave entries, and the per-item checks.
- **Html.** `parser/html.py`: the inline-CSS parser, the attribute-pair converter, and the recording `HTMLParser` subclass, whose tokenizer callbacks are the input.
- **ParseScript.** `parse.py`: `has_style_left`, `update_count`, and the `div`/`span` scanner of `parse_timesheet`, whose printed lines are returned as a sequence.
- **LineSort and XmlHandler.** `parser/xml.py`:
  - the SAX content handler, as a state threaded through element events;
  - the position templates for header and footer boxes, and the validation and suppression of those boxes;
  - the stable top-to-bottom, left-to-right sort of each page's lines.
- **Entries, LongCsv, JsonExport, Totals.** The time-entry shape read by the exporters, and the shared key rule:
  - holiday, unpaid, vacation and other paid leave are filed under their time code;
  - everything else is filed under the project.

  On top of that come `encode_list`, `encode_dict`, `totals` and `total_ocps2020`.

## Model

| member | source | states |
|---|---|---|
| Rows.MoveItemSlices | parser/timesheet.py:18-25 | On every input, including an index or destination past the end of the list, the four-slice `move_item` equals the position-wise reference: the moved item lands at the destination, and the items in between shift by one toward the vacated place. |
| Rows.MoveItemPlaces | parser/timesheet.py:18-25 | For positions inside the list: the item from `index` ends at `destination`. Removing it from there gives what removing it from `index` gave, so every other item keeps its relative order. `index == destination` leaves the list unchanged. |
| Rows.MoveItemPermutes | parser/timesheet.py:18-25 | `move_item` returns a permutation of its input. |
| Rows.RemoveItem | parser/timesheet.py:27-30 | Fails with IndexError exactly when the index is past the end. Otherwise the list is one shorter, the items before the index keep their places, and the later ones shift left by one. |
| Timesheet.IsMultiple8Whole | parser/timesheet.py:32-36 | For a whole number written in digits, `is_multiple_8` holds exactly when the number is divisible by 8. |
| Timesheet.IsMultiple8Fraction | parser/timesheet.py:32-36 | A fractional part is truncated away before the divisibility test: `n.f` is a multiple of 8 exactly when `n` is. |
| Timesheet.IsMultiple8NeedsDigits | parser/timesheet.py:32-36 | Text that holds no digit does not parse as a number, and yields false rather than an error. |
| Timesheet.Holds | parser/timesheet.py:66-141 | A rule's text conditions hold exactly when every row they name has the expected text. They cannot raise when every row they name exists. |
| Timesheet.ApplyEdits | parser/timesheet.py:69-149 | A list of edits shortens the rows by exactly the number of removals in it, and a list of moves alone only permutes the rows. |
| Timesheet.TryCases | parser/timesheet.py:66-77 | An `if`/`elif` chain of cases fires the first case whose tests hold and applies exactly its edits. When no case holds, nothing changes. |
| Timesheet.ApplyRule | parser/timesheet.py:61-151 | A rule that does not fire leaves the rows as they were. In a well-shaped rule, a firing Doc.No. rule removes exactly two rows, and every other rule only permutes them. |
| Timesheet.CatalogueShaped | parser/timesheet.py:65-149 | Every repair of the catalogue is well-shaped: the Doc.No. cases remove two rows, and every other case only moves rows. |
| Timesheet.RunRepairsLogsRules | parser/timesheet.py:61-151 | Running the repairs logs only repair issues, each naming one of the rules run. |
| Timesheet.RunRepairsSilent | parser/timesheet.py:61-151 | No issue is logged exactly when no rule fires on the rows it is given. With no issue logged, the rows come back unchanged. |
| Timesheet.RunRepairsFired | parser/timesheet.py:61-151 | With distinct rule names, a rule's repair issue is logged exactly when that rule fires on the rows the earlier rules left. |
| Timesheet.RunRepairsOnce | parser/timesheet.py:61-151 | With distinct rule names, no repair issue is logged twice. |
| Timesheet.CatalogueDistinct | parser/timesheet.py:65-149 | The seven repairs of the catalogue have distinct names. |
| Timesheet.RunRepairsRows | parser/timesheet.py:61-151 | The rows lose exactly two per Doc.No. repair logged. When none was logged, the output is a permutation of the input. |
| Timesheet.BeatTimesheetLogs | parser/timesheet.py:61-151 | `beat_data_with_a_stick` logs nothing exactly when none of its seven repairs fires. It logs one repair issue for each repair that fires on the rows the earlier repairs left, and none for the others, each at most once. |
| Timesheet.BeatTimesheet | parser/timesheet.py:61-151 | With no repair logged, the rows are unchanged. Without a Doc.No. repair, the rows are a permutation of the input. No more issues are logged than there are rules, and the rows never grow. Fewer than 15 rows raise IndexError at the first test. |
| Timesheet.DocNoRemovesDetectedRows | parser/timesheet.py:66-70 | When 'Doc.No.' is at 14 and '1' at 17, exactly those two rows are removed and nothing else: the compensated index 17-1 is right. |
| Timesheet.DocNoRemovesDetectedRowsLater | parser/timesheet.py:71-77 | When the first case fails and 'Doc.No.' is at 16 and '1' at 19, exactly those two rows are removed: the compensated index 19-1 is right. |
| Timesheet.PostStatusLands | parser/timesheet.py:79-87 | The 'Post Status:' repair puts the label at 17 and the value at 20, keeping the length. |
| Timesheet.FunctionLands | parser/timesheet.py:89-97 | The first 'Function:' case puts the label at 10 and '[1] Full Time' at 13. |
| Timesheet.FunctionLandsLater | parser/timesheet.py:98-104 | The second 'Function:' case, from rows 8 and 11, lands them at 10 and 13 as well. |
| Timesheet.ValidationLands | parser/timesheet.py:114-121 | The 'Validation:' repair puts the label at 17 and 'Passed' at 20. |
| Timesheet.GatherFour | parser/timesheet.py:137-140 | Four successive moves of rows 41-44 (or any four rows after their destination) to 30-33 bring the four rows together, in order, at 30-33. |
| Timesheet.ColumnHeaderLands | parser/timesheet.py:131-140 | The column-header repair places 'ID', 'Time Code', 'Project' and 'TimeType' at rows 30-33, keeping the length. |
| Timesheet.ColumnHeaderLandsLater | parser/timesheet.py:141-149 | When the four headings sit at rows 43-46 instead, the `elif` case fires and brings them, in order, to rows 30-33, keeping the length. |
| Timesheet.CheckItems | parser/timesheet.py:153-167 | A run of header checks raises IndexError exactly when some checked row is missing. Otherwise it logs only mismatches, at most one per check, and logs none exactly when every row holds an allowed text. |
| Timesheet.CheckItemsReports | parser/timesheet.py:153-167 | Every logged mismatch names a checked index, its allowed texts and the text actually there. Every failing check is logged. |
| Timesheet.TemplateRows | parser/timesheet.py:171-205 | The header template checks rows up to 25, and the column template checks rows 30-33 in order. |
| Timesheet.AssertHeaderRaises | parser/timesheet.py:169-205 | `assert_header` raises IndexError exactly when fewer than 34 rows are left. |
| Timesheet.AssertHeaderClean | parser/timesheet.py:169-205 | `assert_header` logs nothing exactly when every template row holds an allowed text and item 27 is a multiple of 8. It logs the multiple-of-8 issue exactly when item 27 is not one. |
| Timesheet.CheckHeaderClean | parser/timesheet.py:169-205 | For any templates, the header check logs nothing exactly when the rows conform to them. |
| Timesheet.CheckHeaderEight | parser/timesheet.py:196-201 | The item-27 issue is logged exactly when item 27 is not a multiple of 8. |
| Timesheet.CheckHeaderRaises | parser/timesheet.py:169-205 | For any templates, the header check raises IndexError exactly when a checked row or row 27 is missing. |
| Timesheet.ParseHeader | parser/timesheet.py:207-225 | Every header field is read from its fixed row, and exactly the first 34 rows are deleted. Fewer than 30 rows raise IndexError. |
| Timesheet.ParseHeaderLocal | parser/timesheet.py:207-224 | The header depends only on the first 30 rows: appending rows never changes it. |
| Timesheet.FindFooter | parser/timesheet.py:229-233 | The search finds the last row at index 1 or later holding the footer marker. Row 0 is never examined. |
| Timesheet.ParseFooter | parser/timesheet.py:227-240 | The rows are cut just before the last footer marker at index 1 or later. Without one, a single issue is logged and the rows are kept. |
| Timesheet.PyIndex | parser/timesheet.py:257-262 | A Python index is valid exactly when it lies between minus the length and the length, and then names a position inside the list: the index itself when it is not negative, and the length plus the index when it is. |
| Timesheet.PageBreaksFrom | parser/timesheet.py:246-249 | The page breaks found are exactly positions of 'Timesheet' rows. None is found exactly when there is no such row. |
| Timesheet.ParsePages | parser/timesheet.py:242-266 | Page stripping only erases rows that some page-furniture pattern matches, and never reorders the others. It logs the missing-page-break issue exactly when no 'Timesheet' row exists, and then leaves the rows unchanged. |
| Timesheet.ErasesShrinks | parser/timesheet.py:256-266 | Erasing rows never lengthens the list. |
| Timesheet.ReadHeaderReads | parser/timesheet.py:39-43 | The first half of the constructor repairs the rows, validates the header of the repaired rows, and reads the header from them. Its issue log begins with the repair issues. |
| Timesheet.StripBody | parser/timesheet.py:44-45 | The second half cuts at the footer position `parse_footer` finds, then erases only page furniture from what remains. Its first issue records whether the footer was missing. |
| Timesheet.NewTimesheet | parser/timesheet.py:39-45 | The constructor raises IndexError on fewer than 15 rows. On success it keeps the header read from the repaired rows, extends their issue log, and keeps at most the rows after the header. |
| TimeEntry.CodePatternMatches | parser/timeentry.py:7 | The time-code pattern accepts exactly the texts that start with ST, VAC or HOL. |
| TimeEntry.AnyPatternMatches | parser/timeentry.py:10 | The `.` pattern accepts exactly the non-empty texts that do not start with a newline. |
| TimeEntry.SplitMerged | parser/timeentry.py:43-51 | A row-2 text holding a space is split at its first space into two rows that share row 2's other cells. They rejoin with one space to the original text, and the first piece holds no space. Rows 0-1 are kept and later rows shift by one. Without a space nothing changes. Fewer than 3 rows raise IndexError. |
| TimeEntry.PadLeave | parser/timeentry.py:53-55 | For HOL and VAC, two blank rows are inserted right after row 0. Other codes get nothing. Fewer than 2 rows raise IndexError. |
| TimeEntry.BeatEntryIdempotent | parser/timeentry.py:42-57 | Repairing an entry twice gives what repairing it once gave. |
| TimeEntry.BeatEntryKeepsTail | parser/timeentry.py:42-57 | The repair never touches the rows after row 2: they end the repaired entry unchanged. |
| TimeEntry.CheckEntryItem | parser/timeentry.py:59-71 | One item check logs at most two issues. It logs the pattern issue exactly when the pattern does not match the start of the text, and the position issue exactly when the x cell differs from the expected one. A missing row or cell raises IndexError. |
| TimeEntry.CheckEntryItemsReports | parser/timeentry.py:59-78 | Every logged issue comes from one of the checks and is justified by it, and every failing check is logged. |
| TimeEntry.CheckEntryRaises | parser/timeentry.py:73-83 | The entry check raises exactly when one of items 1-4 (and items 5-8 when the notes block is checked) is missing or has no position. |
| TimeEntry.CheckEntryNotes | parser/timeentry.py:79-83 | When the notes block is checked and the check succeeds, each notes item at the wrong x position is logged. |
| TimeEntry.CheckEntryItemsOnly | parser/timeentry.py:73-83 | Only items 1-4, or 1-8 with the notes block, are ever reported. |
| TimeEntry.NotesRowAsWrittenNever | parser/timeentry.py:79 | As written, the notes test compares a whole row (a tuple) with a string, so it never holds. |
| TimeEntry.AssertEntryAsWritten | parser/timeentry.py:73-83 | `assert_entry` as written checks items 1-4 only. |
| TimeEntry.AssertEntry | parser/timeentry.py:73-83 | `assert_entry` as intended: it raises exactly when items 1-4 are missing or unpositioned, or items 5-8 when item 5 is 'Notes'. |
| TimeEntry.NotesFinding | parser/timeentry.py:79-83 | On an entry whose notes date sits at 41 instead of 40, the code as written logs nothing about it, while the intended check logs it. |
| TimeEntry.NewTimeEntry | parser/timeentry.py:18-23 | The constructor repairs the rows and logs what `assert_entry`, as written, logs on the repaired rows: issues about items 1-4 only. It raises exactly when the repair raises or one of items 1-4 is missing or has no position, and raises IndexError on fewer than 3 rows. |
| TimeEntry.NewTimeEntryIntended | parser/timeentry.py:18-23 | The constructor with the intended notes test: it raises exactly when the repair or the intended entry check raises, and logs what that check logs. |
| TimeEntry.NotesConstructorFinding | parser/timeentry.py:18-23 | On an entry whose item 5 is 'Notes' but which has no items 6-8, the constructor as written succeeds, while the intended one raises IndexError. |
| Html.ParsePiece | parser/html.py:34-39 | A piece of the `;`-split text is skipped exactly when it is blank. It raises ValueError exactly when it is not blank and does not hold exactly one `:`. |
| Html.ParsePieceSplits | parser/html.py:36-38 | A piece with one colon yields its stripped key and stripped value: the texts before and after the colon. |
| Html.CollectFails | parser/html.py:33-39 | Parsing the pieces fails exactly when some piece fails, and with that piece's error. |
| Html.CollectLastWins | parser/html.py:33-40 | The keys of the dictionary are exactly those some piece assigns. A key assigned twice holds the value of the last piece assigning it. |
| Html.ParseAttrsStringFails | parser/html.py:27-40 | `parse_attrs_string` raises ValueError exactly when some non-blank piece holds zero or several colons. |
| Html.ParseAttrsStringBlank | parser/html.py:33-35 | A text whose every `;`-piece is blank, the empty text included, yields the empty dictionary. |
| Html.ParseEncode | parser/html.py:27-40 | Round trip: writing colon- and semicolon-free, already stripped pairs as `k1:v1;k2:v2;` and parsing the text back gives the dictionary of the pairs, later pairs overriding earlier ones. |
| Html.Convert | parser/html.py:50-53 | Only a `style` value is parsed as inline CSS, failing as that parse fails. A `style` with no value raises AttributeError, and every other value passes through unchanged. |
| Html.ParseAttrsDoublesKeeps | parser/html.py:42-54 | `parse_attrs_doubles` fails exactly when some pair's conversion fails. Otherwise it keeps every key, and each key holds the converted value of its last pair. |
| Html.HandleStartTag | parser/html.py:67-69 | A start tag appends one START record holding the parsed attributes, failing exactly when their parse fails. |
| Html.HandleData | parser/html.py:72-73 | A data callback appends one DATA record. Its line list is empty exactly when the text is empty. |
| Html.FeedRecords | parser/html.py:67-75 | Feeding callbacks appends exactly one record per callback, in callback order, after the records already there. It fails exactly when some callback's record fails. |
| Html.ParseRecords | parser/html.py:77-85 | `parse` returns one record per callback, in order. |
| ParseScript.HasStyleLeft | parse.py:24-25 | True exactly when there is a `style` dictionary with a `left` key. A `style` that is not a dictionary raises AttributeError. |
| ParseScript.HasStyleLeftParsed | parse.py:24-25 | On attributes `parse_attrs_doubles` produced, `has_style_left` never raises. |
| ParseScript.UpdateCount | parse.py:27-32 | An existing key goes up by one, and a new key starts at one. No other key changes and no key is dropped. |
| ParseScript.TallyCounts | parse.py:27-32 | Counting a sequence of keys with `update_count` gives each key its number of occurrences. |
| ParseScript.Emit | parse.py:41-43 | Printing a record yields at most one line. It fails exactly on a DATA record with no lines, where `data[0]` would raise. |
| ParseScript.Step | parse.py:40-54 | Inside a span, any record clears both flags. Inside a div, any record but a span start clears the div. Only a DATA record inside a span prints. |
| ParseScript.ParseTimesheet | parse.py:34-56 | `parse_timesheet` always returns the empty list. |
| ParseScript.ParseTimesheetScans | parse.py:34-56 | The printed lines are exactly those of the reference scan: a left-offset div, then a span, then a DATA record. The scan fails exactly when the state machine does. |
| ParseScript.ScanSound | parse.py:40-54 | Every printed line pairs the left offset of a div record with the first line of a DATA record two records later, a span start lying between them. |
| XmlHandler.IsApproximatelyDistance | parser/xml.py:12-24 | `is_approximately` holds exactly on the same row, within 5 pixels across, both bounds included. |
| XmlHandler.Truncate | parser/xml.py:187 | `int(float(x))` truncates toward zero, for negative coordinates too. |
| XmlHandler.FirstFit | parser/xml.py:189-407 | The chain walk picks the first slot that fits, and none exactly when no slot fits. |
| XmlHandler.HandleStartWith | parser/xml.py:189-407 | A box is handled exactly when some slot fits. Then the flag of the first fitting slot is raised and nothing else changes. Otherwise no flag changes. |
| XmlHandler.FirstPageDayLabel | parser/xml.py:334-336 | On page 1 the day-label flag is raised exactly for boxes on row 399 with x in 370..730. |
| XmlHandler.LaterPageDayLabel | parser/xml.py:383-385 | On any other page the day-label flag is raised exactly for boxes on row 479 with x in 370..730. |
| XmlHandler.DebugAssert | parser/xml.py:153-170 | A mismatch is reported exactly when the value is not the expected string, or not in the expected tuple. The report carries the value. |
| XmlHandler.PopBuffer | parser/xml.py:145-151 | `pop_buffer` returns the stripped text and empties the buffer. |
| XmlHandler.PopBufferTwice | parser/xml.py:145-151 | Popping again right away returns the empty text and changes nothing. |
| XmlHandler.FirstSet | parser/xml.py:409-680 | The end handler finds the first raised flag in its check order, and none exactly when no flag is raised. |
| XmlHandler.Consume | parser/xml.py:415-678 | Consuming a box only stores the date range (for the timesheet value) or appends a validation report. Buffers and flags are untouched. |
| XmlHandler.HandleEndWith | parser/xml.py:409-680 | The end handler acts exactly when some flag is raised. It then lowers only the first raised flag in check order and consumes the text buffer. With no flag raised it changes nothing. |
| XmlHandler.HandleEndClearsOne | parser/xml.py:409-680 | `handle_header_footer_end` returns True exactly when some flag is set. It then clears exactly one flag and empties the text buffer. Otherwise the state is unchanged. |
| XmlHandler.EndOrderComplete | parser/xml.py:415-678 | Every flag has its place in the end handler's check order. |
| XmlHandler.OnlyDaterangeStores | parser/xml.py:437-440 | Only the timesheet-value box stores its text as the date range. |
| XmlHandler.HandleEndDaterange | parser/xml.py:437-440 | The date range changes only to the stripped text of the buffer, and only when the timesheet-value flag is raised. When that flag is the first raised in check order, the text is stored and exactly that flag is lowered. |
| XmlHandler.RecordText | parser/xml.py:137-139 | The text is appended to the last line only. No line raises IndexError, and nothing else changes. |
| XmlHandler.EndPageSorts | parser/xml.py:106-131 | The end of a page appends one page holding the same lines sorted by descending y and then ascending x, with ties in their original order. The line buffer is emptied. |
| XmlHandler.StartRecords | parser/xml.py:87-98 | An unhandled text box start records one line at its position, with no text yet. |
| XmlHandler.StartSuppresses | parser/xml.py:93-98 | A header or footer box start raises its flag and records nothing. |
| XmlHandler.EndRecords | parser/xml.py:106-118 | With no flag set, a box end appends the stripped text to the last line and empties the buffer. The hours-distribution heading instead is not recorded and stops all recording. With no line yet, IndexError is raised. |
| XmlHandler.RunSticky | parser/xml.py:93-117 | Once the hours-distribution heading has been seen, no later event records a line or text, and the flag stays set. |
| LineSort.SortLinesSorted | parser/xml.py:126-129 | The sorted page is ordered by descending y, then ascending x. |
| LineSort.SortLines | parser/xml.py:126-131 | Sorting a page returns a permutation of its lines. |
| LineSort.SortLinesStable | parser/xml.py:126-129 | The sort is stable: lines with the same position keep their relative order. |
| Entries.Key | exporter/long_csv.py:23-25 | The key is the time code exactly when that code is HOL, OTU, VAC or OPL (or equals the project), and the project otherwise. The same rule is at exporter/json.py:24-26 and analysis/totals.py:8-10. |
| LongCsv.ParseHandleDate | exporter/long_csv.py:5-6 | `handle_date` writes any date `datetime` can hold as two-digit month, two-digit day and four-digit year, separated by `/`, and the text reads back to the same date. |
| LongCsv.EntryRows | exporter/long_csv.py:23-29 | An entry gives one row per dated item, in item order: its key, the date written out, and the hours unchanged. |
| LongCsv.EncodeEntriesAt | exporter/long_csv.py:20-29 | Item `i` of entry `j` is written right after the items of every earlier entry and the earlier items of its own entry, with the entry's key, its date and its hours. |
| LongCsv.EncodeListAppend | exporter/long_csv.py:20-29 | The rows of later timesheets follow those of earlier ones. |
| LongCsv.EncodeListCount | exporter/long_csv.py:8-31 | `encode_list` writes exactly one row per (entry, date) item over all timesheets. |
| JsonExport.StoreLast | exporter/json.py:33-34 | Storing items adds exactly their dates. A date stored twice holds the hours of its last item, and other dates keep their hours. |
| JsonExport.EncodeByKey | exporter/json.py:21-34 | The keys are exactly the keys of the entries. Each holds what storing, in order, the items filed under it gives. |
| JsonExport.EncodeDictMeaning | exporter/json.py:5-36 | `encode_dict` has a dictionary for every key of any entry, even one without hours. Under it are exactly the dates of the items filed under the key, each with the hours of the last such item. |
| Totals.AddHoursSum | analysis/totals.py:17-18 | Adding an entry's hours one by one adds their sum. |
| Totals.TotalsOfAgrees | analysis/totals.py:6-18 | Each row of the per-key table agrees with the reference: named after the first entry with that key, holding the hours of all such entries. |
| Totals.TotalsMeaning | analysis/totals.py:3-18 | `totals` has a row for every key of any entry. The row is named after the label of the first entry with that key (later entries never rename it) and holds the sum of the hours of every entry with that key. |
| Totals.TotalOcps2020 | analysis/totals.py:23-30 | The loop computes, per timesheet, the hours of the first entry on project 20032.001.20.005, summed over the timesheets. |
| Totals.SheetOcpsFirst | analysis/totals.py:25-30 | In one timesheet only the first entry on the project counts: later entries on it never change the total. |
| Totals.SumOcpsAbsent | analysis/totals.py:24-30 | With no entry on the project anywhere, the total is zero. |

## Left out

- Printing. `report_issues`, `printf` to standard error, the stray `print` at parser/timeentry.py:77, the table `totals` prints and the line `total_ocps2020` prints are not modelled. `totals` returns its per-key map and `total_ocps2020` returns its sum.
- Issue text. Issues are structured values (which check, which index, which text), not the joined message strings of `log_issue`. The messages' wording and formatting are not modelled.
- The HTML tokenizer of `html.parser.HTMLParser`. Its callbacks are the input of the model; `feed`, `close` and the `try`/`finally` are not modelled.
- The SAX driver and CSV writing of `parse` in parser/xml.py:682-694. The handler callbacks are modelled as events; the XML parsing and file writing are not.
- Bbox parsing. A text box's bbox is modelled as two parsed numbers. Splitting the attribute at commas, `float()` parsing, and an attribute with fewer than two fields are not modelled.
- Floats. Coordinates and hours are exact reals, not binary floating point. The `int(float())` truncation is modelled explicitly.
- `export` in exporter/long_csv.py, exporter/json.py, and file I/O in general.
- parser/pdf.py (a wrapper over pdfminer) and main.py (command-line glue) are not part of this model. The `read_timesheet`, `extract_projects` and `timesheet` functions of parse.py call into them and are left out too.
- An empty row. The model's rows always have a first cell, so `row[0]` on an empty tuple (an IndexError) cannot be represented.
- Mutation of the caller's rows. The model's values are immutable, so it shows what each step returns, not which lists are changed in place. `move_item` builds a new list, but `remove_item` deletes from the list it is given (parser/timesheet.py:29). So the Doc.No. repair changes the caller's list. When no repair moves a row, `self._data` is still the caller's list (parser/timesheet.py:41), and the `del` statements at parser/timesheet.py:225, 240 and 262 shorten it too.
- Dictionary invariants. An entry's dated items are a sequence in dictionary order; that its dates are distinct is not enforced.
- Dates before year 1000. `strftime("%Y")` pads years below 1000 differently on different platforms; `LongCsv.ParseHandleDate` assumes a date `datetime` can hold.
- The order of the keys of a parsed `style` dictionary. The model's maps are unordered.
- `is_multiple_8` on exponent notation, `inf` and `nan`. The model parses optional-sign decimal text only.
- Timesheet.NewTimesheet: states the header, the issue-log prefix and a row-count bound; the exact rows are stated by Timesheet.StripBody and Timesheet.ParsePages, because a single contract over all four steps is too expensive to prove.
- The percent-billability (parser/timesheet.py:107-112) and 'Posted' (parser/timesheet.py:124-129) repairs have no landing lemmas of their own; every other repair, both column-header cases included, has one. They are single moves, covered by Rows.MoveItemPlaces and Timesheet.ApplyRule.

## Findings

| source | as written | input that shows it | evidently intended | confidence | as-written member | corrected member |
|---|---|---|---|---|---|---|
| parser/timeentry.py:79 | `self._data[5] == "Notes"` compares a row (a tuple) with a string, which is never equal, so the notes items 5-8 are never checked | an entry whose item 5 is `("Notes", 40)` and whose item 6, the notes date, sits at x = 41 instead of 40: nothing is logged about item 6 | compare the row's text, `self._data[5][0] == "Notes"`, so that items 5-8 are checked and item 6's position is logged | not executed | TimeEntry.AssertEntryAsWritten, TimeEntry.NewTimeEntry | TimeEntry.AssertEntry, TimeEntry.NewTimeEntryIntended |
