# Daily inspection sheets for construction machines: a verified model

The system records the daily pre-work inspection of construction machines
(excavators, bulldozers, rollers, hand-guided mowers). A phone app sends the
day's results to a small Python server that keeps them in SQLite, merges the
batches an offline device sends later (last write wins), keeps the master lists
of sites, inspectors and owner companies, and renders a month's inspections as
an Excel sheet. That sheet is either drawn from scratch or filled into an
uploaded template. A separate script imports the inspection items and the
machine list from CSV files into Firestore.

This project models those pieces in Dafny and proves what they promise.

- **Report generator** (`python_backend/excel_generator_advanced.py`).
  - `ReportRules` holds the value-level rules: how a model string splits into
    a machine name and a model code, which law A3 and A4 cite, the title of
    row 5, and how a day's `is_good` value becomes a mark (Python's `True == 1`
    included).
  - `ReportLayout` gives, cell by cell, what the finished sheet holds.
  - `ReportBorders` gives the ordered border statements as a fold of per-edge
    operations.
  - `ReportSheet` is the worksheet as a class. It has one method per rendering
    step, each proved against the cell functions. `CreateInspectionReport`
    runs them in the generator's order.
- **Template filler** (`backend/generate_excel_from_template.py`), in
  `TemplateFill`.
  - `_get_column_name` is a loop, proved to be the bijective base-26
    numeration.
  - The fill is the ordered list of cell assignments it makes on a template
    that is already loaded. Any of those assignments may raise, and the
    function then returns None.
- **Record store** (`python_backend/database_api.py`, repeated by the record
  handlers of `python_backend/unified_server.py`), in `Records`.
  - Create, read, update and delete by id, with their status codes.
  - The two listings and their orders.
  - The sync that merges a device's batch and counts created, updated and
    conflicting records.
- **Master data and download name** (`python_backend/unified_server.py`), in
  `UnifiedServer`.
  - Site, inspector and company lists ordered by `sort_order`.
  - The next `sort_order`.
  - Deleting a site also deletes that site's records.
  - The attachment name of a generated report.
- **CSV import** (`scripts/firestore_import.py`).
  - `FirestoreImport` holds machine-type normalisation, the grouping of
    inspection items by type with their 1-based order, the machine list, and
    the per-type tally.
  - `ItemIds` holds the `generate_item_id` pipeline. `ItemId` applies the
    replacement table in the order the script writes it, as the import does;
    `IntendedItemId` is the corrected order of the finding below.
- **Shared helpers.** `Common` has Python's string order, `str()` of
  integers, `find`, `replace`, `strip`, and the vertical
  `'\n'.join(list(s))`. `Ordering` has a sorted listing of a map under a
  total preorder, used for every `ORDER BY`.

Clocks are parameters (`now`, `nowYear`, `nowMonth`). SQLite tables are maps
keyed by their primary key; a record whose id is NULL, which a TEXT PRIMARY KEY
column admits any number of, is keyed by its rowid instead. A worksheet is a map from (row, column) to a cell,
plus a map of borders and a set of merged ranges. Fonts, fills and alignments
are tags. Column widths are exact decimals (`real`), not floating point.

## Model

| member | source | states |
|---|---|---|
| Common.StrLtIrreflexive | python_backend/database_api.py:289 | Python's `<` on str is irreflexive |
| Common.StrLtTransitive | python_backend/database_api.py:289 | the string order used to compare `updatedAt` stamps is transitive |
| Common.StrLtTrichotomy | python_backend/database_api.py:289 | exactly one of `a < b`, `a == b`, `b < a` holds |
| Common.StrLeTotal | python_backend/database_api.py:82-85 | `<=` on strings is total, so ORDER BY a text column is a total preorder |
| Common.StrLeTransitive | python_backend/database_api.py:82-85 | `<=` on strings is transitive |
| Common.StrLeNotLt | python_backend/database_api.py:289 | `a <= b` exactly when not `b < a`: a stamp that is not newer is a conflict |
| Common.EmptyStrLe | python_backend/database_api.py:287-289 | the empty string is below every string, so a missing local `updatedAt` never wins |
| Common.NatToString | python_backend/excel_generator_advanced.py:305 | `str(n)` is a non-empty string of decimal digits |
| Common.IntToString | python_backend/excel_generator_advanced.py:271 | `str(n)` of any integer is non-empty |
| Common.ParseNatToString | python_backend/excel_generator_advanced.py:305 | reading the digits of `str(n)` gives back n |
| Common.NatToStringInjective | python_backend/excel_generator_advanced.py:302-309 | distinct days get distinct header texts |
| Common.IndexOf | python_backend/excel_generator_advanced.py:48-66 | `str.find` of a character: None exactly when it is absent, else the first position holding it |
| Common.ReplaceAllKeepsAbsent | scripts/firestore_import.py:111-113 | `str.replace` introduces no character that is in neither the input nor the replacement |
| Common.ReplaceCharRemoves | python_backend/unified_server.py:141 | replacing a character by a text without it removes every occurrence |
| Common.ReplaceCharPointwise | scripts/firestore_import.py:49-52 | replacing one character by another keeps the length and changes exactly the positions that held it |
| Common.StripLeft | python_backend/unified_server.py:497 | `lstrip()` removes exactly the leading Python whitespace, ending at a non-space or the end |
| Common.StripRight | python_backend/unified_server.py:497 | `rstrip()` removes exactly the trailing Python whitespace |
| Common.StripEmptyIffAllSpace | python_backend/unified_server.py:497-499 | a stripped name is empty, and the request refused with 400, exactly when the name is all whitespace |
| Common.Vertical | python_backend/excel_generator_advanced.py:405-407 | `'\n'.join(list(s))` has length 2n-1 for n >= 1 characters and is empty for "" |
| Common.VerticalInverse | python_backend/excel_generator_advanced.py:405-407 | the characters at the even positions of the vertical text are the name |
| Common.VerticalRemoveNewlines | python_backend/excel_generator_advanced.py:405-407 | removing the newlines of the vertical text of a name without newlines gives the name back |
| Common.VerticalOddPositions | python_backend/excel_generator_advanced.py:405-407 | every odd position is a newline and follows the corresponding character of the name |
| Ordering.Insert | python_backend/database_api.py:82-85 | inserting into a sorted listing keeps it sorted and adds exactly one element |
| Ordering.ListsExactlyDistinct | python_backend/database_api.py:82-99 | a listing of a table lists no id twice and every entry is the stored row |
| Ordering.SortedItems | python_backend/database_api.py:82-85 | an ORDER BY listing is sorted by the order and lists each row of the table exactly once |
| ReportRules.Slice | python_backend/excel_generator_advanced.py:50-56 | Python's `s[a:b]`: the slice when a < b, "" otherwise |
| ReportRules.ModelSpec | python_backend/excel_generator_advanced.py:44-56 | when both full-width brackets occur, the text strictly between the first `（` and the first `）` ("" when that `）` comes first); otherwise the same for `(` and `)`; otherwise ""; with full-width brackets the result holds no `）`; never longer than the input |
| ReportRules.MachineName | python_backend/excel_generator_advanced.py:58-66 | a prefix of the model string that stops exactly at the first `（`, or at the first `(` when there is no `（`, or is the whole string |
| ReportRules.SplitComposedModel | python_backend/excel_generator_advanced.py:44-66 | `name（spec）` and `name(spec)` split back into name and spec when neither part holds a bracket |
| ReportRules.Row3Citation | python_backend/excel_generator_advanced.py:182-189 | A3 cites the crane rule exactly for excavators, the safety act exactly for hand-guided machines that are not excavators, and the safety regulation otherwise |
| ReportRules.Row4Citation | python_backend/excel_generator_advanced.py:231-235 | A4 is written exactly for excavators, and then cites the safety regulation |
| ReportRules.TitleDropsModel | python_backend/excel_generator_advanced.py:271 | the row-5 title of `name（spec）` or `name(spec)` is the title of `name`: the model code never reaches it |
| ReportRules.ClassifyValues | python_backend/excel_generator_advanced.py:352-358 | a day is good exactly for True, 1, 1.0, "true", "1" and bad exactly for False, 0, 0.0, "false", "0", as Python's `==` compares them; anything else, None, lists and objects included, leaves it unmarked |
| ReportBorders.With | python_backend/excel_generator_advanced.py:519-528 | rebuilding a border with one side set or removed changes that side and keeps the other three |
| ReportBorders.Step | python_backend/excel_generator_advanced.py:519-841 | one border statement changes exactly the sides it writes in its rectangle and keeps every other side |
| ReportBorders.LastWriterWins | python_backend/excel_generator_advanced.py:519-841 | after a sequence of statements a side holds what the last statement writing it wrote |
| ReportBorders.NoWriterKeeps | python_backend/excel_generator_advanced.py:519-841 | a side no statement writes keeps its initial value |
| ReportBorders.Untouched | python_backend/excel_generator_advanced.py:519-841 | a cell outside every rectangle keeps its whole border |
| ReportBorders.OwnerAnchorBare | python_backend/excel_generator_advanced.py:727-739 | BN4 has no border when BN4:BQ5 is merged |
| ReportBorders.AfterMergeOutside | python_backend/excel_generator_advanced.py:739 | the merge of BN4:BQ5 changes no border outside that range |
| ReportBorders.TableFrameTop | python_backend/excel_generator_advanced.py:519-528 | every cell of row 9 from A to BQ ends with a top edge |
| ReportBorders.FrameDrawnLeft | python_backend/excel_generator_advanced.py:530-537 | the frame statements leave a left edge on A9:A31 |
| ReportBorders.TableFrameLeft | python_backend/excel_generator_advanced.py:530-537 | A9:A31 end with a left edge |
| ReportBorders.FrameDrawnBottom | python_backend/excel_generator_advanced.py:539-546 | the frame statements leave a bottom edge on row 31 from A to BQ |
| ReportBorders.TableFrameBottom | python_backend/excel_generator_advanced.py:539-546 | row 31 from A to BQ ends with a bottom edge |
| ReportBorders.FrameDrawnRight | python_backend/excel_generator_advanced.py:548-555 | the frame statements leave a right edge on BQ9:BQ31 |
| ReportBorders.TableFrameRight | python_backend/excel_generator_advanced.py:548-555 | BQ9:BQ31 end with a right edge |
| ReportBorders.ItemRowRules | python_backend/excel_generator_advanced.py:518-528 | every cell of rows 10 to 24, from A to BQ, ends with a top edge |
| ReportBorders.DayColumnRules | python_backend/excel_generator_advanced.py:762-771 | every day column AL..BP in rows 9 to 26 ends with a right edge |
| ReportBorders.AL2AfterFrame | python_backend/excel_generator_advanced.py:588-605 | after the frame statements AL2 has no side set: its bottom edge, drawn at 589-597, is removed again at 599-605 |
| ReportBorders.AL2Bare | python_backend/excel_generator_advanced.py:588-605 | AL2 ends with no edge at all |
| ReportBorders.AL3ToAL5RightOnly | python_backend/excel_generator_advanced.py:669-680 | AL3, AL4 and AL5 end with a right edge only |
| ReportBorders.PictureAreaRightRule | python_backend/excel_generator_advanced.py:804-841 | J27:J31 end without a right edge (set at 806-816, removed at 822-830) and AJ27:AJ31 end with one |
| ReportBorders.OwnerMergeDropsRightRule | python_backend/excel_generator_advanced.py:607-739 | BQ3:BQ5 get a right edge from the frame, but after BN4:BQ5 is merged only BQ3 keeps it |
| ReportLayout.WithDefaults | python_backend/excel_generator_advanced.py:32-42 | a missing machine type is `油圧ショベル`, a missing month is 1, missing records and items are empty, and a given machine type is kept |
| ReportLayout.EmptyRequestDefaults | python_backend/excel_generator_advanced.py:32-42 | an empty request is titled `1月度　油圧ショベル　作業開始前点検表` and cites the crane rule |
| ReportLayout.DefaultTitle | python_backend/excel_generator_advanced.py:271 | the January title of the default type is `1月度　油圧ショベル　作業開始前点検表` |
| ReportLayout.InspectorMerges | python_backend/excel_generator_advanced.py:393-403 | rows 24 to 26 of a column are merged exactly when some record's column is that column and at most 69 |
| ReportLayout.TitleAndCitations | python_backend/excel_generator_advanced.py:182-273 | A5 holds the title in 26pt bold italic, A3 the row-3 citation, A4 the row-4 citation or nothing |
| ReportLayout.DayNumbers | python_backend/excel_generator_advanced.py:301-309 | for every day 1..31, row 9 of column 38+day holds `str(day)` in 11pt bold, grey, centred |
| ReportLayout.MachineBox | python_backend/excel_generator_advanced.py:241-263 | AM4, AX4, BE4 and BI4 hold the company, the responsible person, the model and the unit |
| ReportLayout.PrimeInspectorThrice | python_backend/excel_generator_advanced.py:422-445 | the prime contractor's inspector is written at AM27, AW27 and BG27 |
| ReportLayout.LastMarkWins | python_backend/excel_generator_advanced.py:341-361 | when several records mark a cell, the last recognised value decides the glyph and the fill, and the font is 10pt |
| ReportLayout.NoMarkKeepsCell | python_backend/excel_generator_advanced.py:341-348 | a cell no record reaches (code absent, other day, or column beyond 69) is left as it was |
| ReportLayout.ItemLabels | python_backend/excel_generator_advanced.py:320-337 | shown item i is labelled in row 10+i: `★` in A exactly when it is required, its name in B and its check point in R, where no record's column is one of these |
| ReportLayout.MarkCellOfReport | python_backend/excel_generator_advanced.py:320-361 | the mark cell of shown item i and day d in the report is the fold of the records over that cell |
| ReportLayout.InspectorFoldOutside | python_backend/excel_generator_advanced.py:393-410 | the inspector loop writes nothing outside rows 24 to 26 |
| ReportLayout.LastInspectorShown | python_backend/excel_generator_advanced.py:393-410 | the last record for a column writes its inspector vertically in row 24, and rows 25 and 26 are blanked by the merge |
| ReportLayout.InspectorOfReport | python_backend/excel_generator_advanced.py:393-410 | in the report, row 24 of a day's column holds the vertical name of the last record of that day |
| ReportLayout.LateRecordIgnored | python_backend/excel_generator_advanced.py:342-399 | a record whose day puts it beyond column 69 changes no cell and no merge |
| ReportLayout.OnlyFourteenItems | python_backend/excel_generator_advanced.py:320 | items after the 14th change nothing in the report |
| ReportSheet.Sheet.Write | python_backend/excel_generator_advanced.py:320-337 | one `ws.cell(...).value/font/alignment` assignment: that cell gets the value, font and alignment, keeps its fill, and nothing else changes |
| ReportSheet.Sheet.SetCell | python_backend/excel_generator_advanced.py:339-361 | a whole cell (value, font, fill, alignment) replaced at one position and nothing else |
| ReportSheet.Sheet.MergeAndWrite | python_backend/excel_generator_advanced.py:197-225 | merge a borderless range and write its anchor: the covered cells are blanked, the anchor written, and the range added |
| ReportSheet.Sheet.Merge | python_backend/excel_generator_advanced.py:167 | `merge_cells`: the covered cells other than the anchor are blanked, their borders keep only the anchor's outer sides, and the range is added |
| ReportSheet.Sheet.Paint | python_backend/excel_generator_advanced.py:519-528 | one border statement over a rectangle, cell by cell: every border becomes Step of the old border |
| ReportSheet.Sheet.PaintAll | python_backend/excel_generator_advanced.py:519-841 | a sequence of border statements leaves every border equal to the fold `Run` of the sequence |
| ReportSheet.Sheet.SetColumnWidths | python_backend/excel_generator_advanced.py:113-125 | the loop sets columns 1 to 70 to ColumnWidth (A 5.0, B..AK 3.3, AL 6.7, AM..BR 4.5), keeps any other width, and changes nothing else |
| ReportSheet.Sheet.SetRowHeights | python_backend/excel_generator_advanced.py:131-156 | the loop sets rows 1 to 31 to RowHeight (1-4: 24, 5: 43, 6: 18, 7: 31, 8: 9, 9-26: 32, 27: 72, 28-31: 37), keeps any other height, and changes nothing else |
| ReportSheet.Sheet.WriteRow1 | python_backend/excel_generator_advanced.py:158-176 | on a sheet without borders, row 1 becomes the layout's row 1 (site name only when non-empty), D1:E1 is merged, and borders are untouched |
| ReportSheet.Sheet.WriteRow3Notes | python_backend/excel_generator_advanced.py:182-195 | A3 gets the row-3 citation and the note of row 3 its text; no merge or border changes |
| ReportSheet.Sheet.WriteRow3Box | python_backend/excel_generator_advanced.py:197-225 | the owner-box headings are written at AM3, AX3, BE3, BI3 and BN3 and merged over AM3:AW3, AX3:BD3, BE3:BH3, BI3:BL3 and BN3:BQ3 |
| ReportSheet.Sheet.WriteRow4 | python_backend/excel_generator_advanced.py:231-263 | A4 gets the row-4 citation or stays empty, and company, person, model and unit are written into the merges AM4:AW5, AX4:BD5, BE4:BH5 and BI4:BL5 |
| ReportSheet.Sheet.WriteTitle | python_backend/excel_generator_advanced.py:267-281 | A5 holds the title and A7 the notice; no merge or border changes |
| ReportSheet.Sheet.WriteHeadings | python_backend/excel_generator_advanced.py:283-298 | A9:Q9 and R9:AL9 are merged with their headings |
| ReportSheet.Sheet.WriteDayNumbers | python_backend/excel_generator_advanced.py:301-309 | the loop writes the day numbers into row 9 of AM..BQ; no merge or border changes |
| ReportSheet.Sheet.WriteItems | python_backend/excel_generator_advanced.py:320-361 | every cell becomes the item cell of the layout: labels of the first 14 items and the marks of all records, in record order |
| ReportSheet.Sheet.WriteLegend | python_backend/excel_generator_advanced.py:363-391 | the legend of rows 24 to 26 and the merged AL24:AL26 heading |
| ReportSheet.Sheet.WriteInspectors | python_backend/excel_generator_advanced.py:393-410 | every cell becomes the inspector fold of the records, and the merges are exactly InspectorMerges |
| ReportSheet.Sheet.WriteRow27Left | python_backend/excel_generator_advanced.py:416-430 | AK27:AL27, AM27:AT27 and AU27:AV27 are merged and written |
| ReportSheet.Sheet.WriteRow27Right | python_backend/excel_generator_advanced.py:431-447 | AW27:BD27, BE27:BF27, BG27:BO27 and BP27:BQ27 are merged and written |
| ReportSheet.Sheet.MergeRepairRow | python_backend/excel_generator_advanced.py:482-502 | the five merges of one repair row blank exactly their covered cells |
| ReportSheet.Sheet.WriteRepairHeads | python_backend/excel_generator_advanced.py:449-476 | row 28 holds the five repair headings in its five merges; other rows keep their cells |
| ReportSheet.Sheet.WriteRepairLog | python_backend/excel_generator_advanced.py:449-502 | rows 28 to 31 become their layout cells with their twenty merges |
| ReportSheet.Sheet.WritePicture | python_backend/excel_generator_advanced.py:504-512 | A27:AJ31 is merged and holds the picture placeholder |
| ReportSheet.Sheet.WriteHeader | python_backend/excel_generator_advanced.py:158-281 | rows 1 to 7 become the layout's header cells and the merges of rows 1, 3 and 4 are added |
| ReportSheet.Sheet.WriteColumnHeads | python_backend/excel_generator_advanced.py:283-309 | row 9 gets its headings, its two merges and the day numbers |
| ReportSheet.Sheet.WriteFooter | python_backend/excel_generator_advanced.py:363-512 | rows 24 to 31 become the layout's footer: legend, inspectors, row 27, repair log and picture, with all their merges |
| ReportSheet.Sheet.WriteCells | python_backend/excel_generator_advanced.py:158-512 | all value-writing steps in order: the cells are the layout's, only the row-9 rule is drawn, and the merges are the layout's except BN4:BQ5 |
| ReportSheet.Sheet.DrawBorders | python_backend/excel_generator_advanced.py:514-841 | the border statements with the BN4:BQ5 merge in between leave every border equal to FinalEdges |
| ReportSheet.MergeCells | python_backend/excel_generator_advanced.py:167 | the cell map after one merge, cell by cell |
| ReportSheet.MergeBorders | python_backend/excel_generator_advanced.py:739 | the border map after one merge, cell by cell |
| ReportSheet.CreateInspectionReport | python_backend/excel_generator_advanced.py:17-848 | no sheet exactly when some record's day puts its column left of A; otherwise a new sheet titled `油圧ｼｮﾍﾞﾙ` whose cells, borders, merges, widths and heights are the layout's |
| TemplateFill.Letters | backend/generate_excel_from_template.py:143-154 | the bijective base-26 numeral is non-empty exactly for positive numbers |
| TemplateFill.LettersUpper | backend/generate_excel_from_template.py:152 | every letter of a column name is one of A..Z |
| TemplateFill.LettersInverse | backend/generate_excel_from_template.py:143-154 | reading a column name back gives the number it was made from |
| TemplateFill.LettersOnto | backend/generate_excel_from_template.py:143-154 | every non-empty string of A..Z is the name of exactly one column |
| TemplateFill.LettersLength | backend/generate_excel_from_template.py:143-154 | a name has at most k letters exactly when its number is at most 26 + 26^2 + ... + 26^k |
| TemplateFill.ThreeLetters | backend/generate_excel_from_template.py:92-95 | names of one to three letters are exactly those of columns 1 to 18278 |
| TemplateFill.ColumnName | backend/generate_excel_from_template.py:143-154 | the `while` loop returns, for an index i >= 0, a non-empty upper-case name that reads back as i + 1, and "" for i < 0 |
| TemplateFill.CellAddressRange | backend/generate_excel_from_template.py:92-110 | the address built from index i and a row is a cell for 0 <= i <= 18277 and raises otherwise |
| TemplateFill.ApplyFails | backend/generate_excel_from_template.py:25-141 | the assignments fail exactly when one of them targets an invalid address or a covered cell of a merge |
| TemplateFill.ApplyUntouched | backend/generate_excel_from_template.py:51-127 | a cell no assignment targets keeps its template content |
| TemplateFill.ApplyConcat | backend/generate_excel_from_template.py:51-127 | assignments run in program order: two lists run one after the other |
| TemplateFill.AnyBlockedConcat | backend/generate_excel_from_template.py:25-141 | a concatenation has a failing assignment exactly when one of its parts has |
| TemplateFill.ResultAssignments | backend/generate_excel_from_template.py:104-127 | the k-th result of a record writes its glyph into row 10 + k of the day's column, whatever its item code |
| TemplateFill.RecordCount | backend/generate_excel_from_template.py:80-127 | a record without a day writes nothing; one with a day writes its inspector and min(14, number of results) glyphs |
| TemplateFill.RecordPlacement | backend/generate_excel_from_template.py:89-110 | the inspector goes to row 24 and the k-th glyph to row 9 + k, in column 39 + day (day 1 is AN) |
| TemplateFill.BadDayFails | backend/generate_excel_from_template.py:89-141 | a record whose day gives no valid column makes the whole fill fail |
| TemplateFill.RecordInAll | backend/generate_excel_from_template.py:80-127 | a failing assignment of one record makes the records' assignments fail |
| TemplateFill.RecordRows | backend/generate_excel_from_template.py:95-110 | records only write into rows 10 to 24 |
| TemplateFill.ApplySingle | backend/generate_excel_from_template.py:51-127 | a cell targeted exactly once ends with that one change applied to the template cell |
| TemplateFill.HeaderTargets | backend/generate_excel_from_template.py:51-72 | the header assignments target distinct valid cells above row 10 |
| TemplateFill.HeaderCellKept | backend/generate_excel_from_template.py:51-72 | each header cell holds its header value after the whole fill |
| TemplateFill.HeaderCellUntouched | backend/generate_excel_from_template.py:51-72 | a cell above row 10 that no header statement targets keeps its template content |
| TemplateFill.HeaderWritten | backend/generate_excel_from_template.py:36-72 | A1 is `日々点検表`, A2 `{year}年{month}月` (defaults: now), A5 the type, BE4 the model and BI4 the unit; AM4 and AX4 change only for non-empty values |
| TemplateFill.FalsyValues | backend/generate_excel_from_template.py:113-114 | `isGood` is false exactly for False, 0, 0.0, "", null, an empty list and an empty object |
| TemplateFill.TruthAgreesWithMarks | backend/generate_excel_from_template.py:113-114 | whatever the generator marks good the filler draws good; what it marks bad the filler draws bad unless it is "false" or "0" |
| TemplateFill.TruthNotComparison | backend/generate_excel_from_template.py:113-114 | the template takes Python truth, so the string "false" is good here while the generator marks it bad; null is bad and a missing `isGood` is good |
| TemplateFill.TemplateSheet.Assign | backend/generate_excel_from_template.py:98-116 | one `ws[...] = ...`: fails exactly for a blocked target, and otherwise extends the applied assignments by one |
| TemplateFill.FillFixedHeader | backend/generate_excel_from_template.py:51-58 | writing A1, A2 and A5 either extends the applied assignments by those three or reports one of them blocked |
| TemplateFill.FillOwnerHeader | backend/generate_excel_from_template.py:60-66 | AM4 and AX4 are written only when non-empty; success extends the applied assignments by exactly those, failure reports one blocked |
| TemplateFill.FillModelHeader | backend/generate_excel_from_template.py:68-72 | writing BE4 and BI4 extends the applied assignments by those two or reports one blocked |
| TemplateFill.FillHeader | backend/generate_excel_from_template.py:51-72 | the header statements succeed exactly when their assignments apply, and leave the sheet they describe |
| TemplateFill.FillResults | backend/generate_excel_from_template.py:104-127 | the results loop, with its row counter and the break after row 23, applies exactly the glyphs of the first fourteen results or reports a blocked one |
| TemplateFill.FillRecord | backend/generate_excel_from_template.py:80-127 | one record: nothing without a day, otherwise its inspector and then its results; applies exactly that record's assignments or reports a blocked one |
| TemplateFill.GenerateExcelFromTemplate | backend/generate_excel_from_template.py:16-141 | returns the output path exactly when every assignment succeeds, and the sheet then is the template with all assignments applied; None otherwise |
| TemplateFill.FillFailsWhere | backend/generate_excel_from_template.py:25-141 | the fill fails exactly when the header fails or some record has a blocked assignment |
| Records.MissingFieldIsFirst | python_backend/database_api.py:145-149 | the 400 reply names the first required field, in list order, that the body lacks |
| Records.KeyFor | python_backend/database_api.py:155-169 | a string id is the row's key; a null id gets a rowid key that no row holds yet |
| Records.CreateOutcome | python_backend/database_api.py:138-177 | 400 exactly when a required field is missing; 409 exactly when a NOT NULL column would get null or the id is taken; no change unless 201; 201 adds exactly the new row, under its id or, for a null id, under a new rowid, with `created_at == updated_at == now` and machine, inspector, date, site (missing: `""`) and the JSON text of the results taken from the body |
| Records.CreateTwice | python_backend/database_api.py:174-175 | creating the same record with a string id again is a 409 that leaves the table unchanged |
| Records.CreateNullTwice | python_backend/database_api.py:138-177 | a body with a null id is stored again each time it is posted: two creates add two rows |
| Records.UpdateOutcome | python_backend/database_api.py:179-217 | 404 exactly for an unknown id, 500 when a NOT NULL column would get null, no change unless 200; 200 keeps `created_at`, sets `updated_at` to now, writes machine, inspector, date and site (missing: `""`) from the body and the results text (missing: `{}`), and touches no other row |
| Records.DeleteUndoesCreate | python_backend/database_api.py:138-232 | deleting the id a create added gives back the table it started from |
| Records.DeleteOutcome | python_backend/database_api.py:219-235 | 404 exactly for an unknown id and then nothing changes; otherwise that row alone is removed |
| Records.UnnamedOutOfReach | python_backend/database_api.py:179-235 | a row stored with a NULL id is never changed by an update or delete, since the id in the path is a string |
| Records.NewestFirstOrders | python_backend/database_api.py:82-85 | `inspection_date DESC, created_at DESC` is a total preorder |
| Records.LatestDateFirstOrders | python_backend/database_api.py:312 | `inspection_date DESC` is a total preorder |
| Records.SyncStepOutcome | python_backend/database_api.py:260-307 | an unknown or null id is inserted with the local stamps (default: now), every column taken from the record, and `created + 1`; a newer local stamp replaces machine, site, inspector, date and results from the record, keeps `created_at`, stores the local stamp and counts `updated + 1`; otherwise `conflicts + 1` and no change |
| Records.MissingStampConflicts | python_backend/database_api.py:287-307 | a stored id whose local record has no `updatedAt` is a conflict that changes nothing |
| Records.SyncFailsFrom | python_backend/database_api.py:254-310 | once a record of the batch raises, the whole sync fails |
| Records.SyncCounted | python_backend/database_api.py:254-307 | after a sync, created + updated + conflicts is the number of local records |
| Records.SyncKeys | python_backend/database_api.py:260-284 | no stored row is lost, the ids after a sync are the stored ids plus the batch's, and each null id adds one row with a NULL id |
| Records.SyncCreated | python_backend/database_api.py:264-284 | `created` is exactly the number of new rows |
| Records.RepeatedIdCreatesOnce | python_backend/database_api.py:260-307 | an id repeated in a batch is created at most once: the second record sees the first |
| Records.StepSettles | python_backend/database_api.py:260-307 | after one record, the stored stamp of its id is at least the local one and no row lost its id or went back |
| Records.SettledStays | python_backend/database_api.py:260-307 | a settled record stays settled when the table only grows |
| Records.SyncSettles | python_backend/database_api.py:254-307 | after a sync every record of the batch with an id is settled, every one with a null id could be inserted again, and the table only grew |
| Records.SettledBatchConflicts | python_backend/database_api.py:260-307 | a batch whose records are all settled or carry a null id keeps every stored row, creates the null-id ones again and counts the rest as conflicts |
| Records.SyncIdempotent | python_backend/database_api.py:254-307 | sending the same batch again updates nothing and changes no stored row; only each record with a null id is created once more, the rest are conflicts |
| Records.SyncIdempotentNamed | python_backend/database_api.py:254-307 | without null ids, sending the same batch again changes nothing and reports every record as a conflict |
| Records.RecordTable.GetRecord | python_backend/database_api.py:108-136 | 404 exactly for an unknown id; otherwise 200 with the stored row |
| Records.RecordTable.GetAllRecords | python_backend/database_api.py:75-106 | every row listed once, newest inspection date first, ties newest `created_at` first |
| Records.RecordTable.CreateRecord | python_backend/database_api.py:138-177 | the table and status are those of Create, and the reported field is the first missing one |
| Records.RecordTable.UpdateRecord | python_backend/database_api.py:179-217 | the table and status are those of Update |
| Records.RecordTable.DeleteRecord | python_backend/database_api.py:219-235 | the table and status are those of Delete |
| Records.RecordTable.Sync | python_backend/database_api.py:243-330 | a failure is a 500 that commits nothing; otherwise the table and counters are those of SyncAll, and the listing holds every row once, newest date first |
| UnifiedServer.MaxOrder | python_backend/unified_server.py:501-503 | `MAX(sort_order)` of a kind: None for a kind with no entry, else the largest order present |
| UnifiedServer.MaxOrderUnique | python_backend/unified_server.py:501-503 | any value meeting the definition of the maximum is that maximum |
| UnifiedServer.NextOrderExceeds | python_backend/unified_server.py:501-504 | the new order is above every order of its kind, and 1 for an empty kind |
| UnifiedServer.AddedWith | python_backend/unified_server.py:501-511 | the insert uses max + 1, or 1 when the maximum is None or 0 |
| UnifiedServer.AddedOutcome | python_backend/unified_server.py:506-511 | after an add the name is listed, one entry at most appears, no entry changes, and adding it again changes nothing (INSERT OR IGNORE on the pair declared UNIQUE at line 67) |
| UnifiedServer.ByOrderOrders | python_backend/unified_server.py:488 | `ORDER BY sort_order, name` is a total preorder |
| UnifiedServer.SiteIds | python_backend/unified_server.py:536-537 | the ids deleted with a site are exactly those whose `site_name` equals it |
| UnifiedServer.WithoutSite | python_backend/unified_server.py:536-537 | the records after a site delete are the others, unchanged, and none of them has that site |
| UnifiedServer.MasterTable.MaxSortOrder | python_backend/unified_server.py:501-503 | the loop over the entries returns the maximum order of the kind, or None |
| UnifiedServer.MasterTable.ListNames | python_backend/unified_server.py:486-492 | the names of a kind, each once, exactly those stored, ordered by (sort_order, name) |
| UnifiedServer.MasterTable.AddEntry | python_backend/unified_server.py:494-515 | 500 for a null name, 400 for a blank one with no change, else 201 and the entry Added with the next order |
| UnifiedServer.MasterTable.DeleteEntry | python_backend/unified_server.py:517-556 | the site, inspector and company DELETE handlers (the latter two at 601-616 and 659-674): 500 for a null name and 400 for a blank one, both changing nothing; otherwise 200, the entry is removed (count 1 or 0), and for a site every record of that site goes too, counted; other kinds leave the records alone |
| UnifiedServer.MachineInfoClean | python_backend/unified_server.py:141-142 | the machine part of the download name holds no `/`, `（` or `）` |
| ItemIds.SeparatorStep | scripts/firestore_import.py:49-52 | one separator replacement removes that separator and brings back none removed before |
| ItemIds.UnderscoredNoSeparator | scripts/firestore_import.py:49-52 | after the first step no bracket, listing mark, full stop or space is left |
| ItemIds.UnderscoredFixed | scripts/firestore_import.py:49-52 | a label without separators passes the first step unchanged |
| ItemIds.RomanizeAppend | scripts/firestore_import.py:111-113 | applying a table is applying its first part, then its second |
| ItemIds.RomanizeSnoc | scripts/firestore_import.py:111-113 | applying one more entry is one more left-to-right `str.replace` |
| ItemIds.RomanizeKeepsAbsent | scripts/firestore_import.py:111-113 | romanising brings in no character that is not a lower-case letter or `_` |
| ItemIds.RomanizeUntouched | scripts/firestore_import.py:111-113 | a text without Japanese characters is not changed by the table |
| ItemIds.RomanizeMissing | scripts/firestore_import.py:111-113 | a text that holds the first character of no key is not changed |
| ItemIds.DropJapanese | scripts/firestore_import.py:116 | the characters left are exactly those not in ぁ-ん, ァ-ヶ, ー or 一-龥; a text without them is kept |
| ItemIds.Collapse | scripts/firestore_import.py:119 | no `__` is left, the same characters occur, and the first and last characters are kept |
| ItemIds.CollapseKeepsText | scripts/firestore_import.py:119 | only underscores are removed, and a text without `__` is kept |
| ItemIds.StripLeadingUnderscores | scripts/firestore_import.py:122 | removes exactly the leading underscores |
| ItemIds.StripTrailingUnderscores | scripts/firestore_import.py:122 | removes exactly the trailing underscores |
| ItemIds.AsciiLower | scripts/firestore_import.py:125 | same length, underscores where they were, no upper-case letter left, other characters kept |
| ItemIds.StripEdges | scripts/firestore_import.py:122 | a stripped text neither starts nor ends with `_` |
| ItemIds.StripInner | scripts/firestore_import.py:119-122 | stripping a collapsed text keeps it free of `__` and adds no character |
| ItemIds.FinishClean | scripts/firestore_import.py:116-127 | from a text without separators, the tidying steps give a clean id: non-empty, no `_` at either end, no `__`, no separator, Japanese or upper-case character |
| ItemIds.FallbackClean | scripts/firestore_import.py:127 | the fallback `item` is a clean id |
| ItemIds.ItemIdShape | scripts/firestore_import.py:46-127 | every id the pipeline returns is clean, whatever the label |
| ItemIds.CleanIdFixed | scripts/firestore_import.py:46-127 | a clean id is its own id |
| ItemIds.FinishFixed | scripts/firestore_import.py:116-127 | when dropping the Japanese characters already gives a clean id, the tidying keeps it |
| ItemIds.ItemIdIdempotent | scripts/firestore_import.py:46-127 | generating the id of an id gives it back |
| ItemIds.ReplacementsValid | scripts/firestore_import.py:56-109 | every key of the table starts with a Japanese character and every value is lower-case letters and `_` |
| ItemIds.TemperaturesAfterWaterAndOil | scripts/firestore_import.py:87-94 | once `水` and `油` have been replaced, the later `水温` and `油温` entries find nothing to replace |
| ItemIds.TemperaturesNeverApply | scripts/firestore_import.py:56-113 | in the table as written, removing the `水温` and `油温` entries changes no result |
| ItemIds.LeadingMissesWaterTemperature | scripts/firestore_import.py:57-86 | no entry before `水` changes `水温` |
| ItemIds.WaterAndOilOnWaterTemperature | scripts/firestore_import.py:87-88 | `水` turns `水温` into `water温` |
| ItemIds.RomanizeWaterTemperatureAsWritten | scripts/firestore_import.py:56-113 | the table as written turns `水温` into `water温` |
| ItemIds.FinishHalfTranslated | scripts/firestore_import.py:116-127 | `water温` is tidied into `water` |
| ItemIds.WaterTemperatureAsWritten | scripts/firestore_import.py:46-127 | as written, the id of `水温` is `water`, not `water_temp` |
| ItemIds.TemperaturesOnWaterTemperature | scripts/firestore_import.py:93 | the `水温` entry alone turns `水温` into `water_temp` |
| ItemIds.RomanizeWaterTemperatureIntended | scripts/firestore_import.py:56-113 | with the longer keys first, `水温` becomes `water_temp` |
| ItemIds.FinishTranslated | scripts/firestore_import.py:116-127 | `water_temp` passes the tidying unchanged |
| ItemIds.WaterTemperatureIntended | scripts/firestore_import.py:46-127 | with the corrected table, the id of `水温` is `water_temp` |
| ItemIds.GenerateItemId | scripts/firestore_import.py:46-127 | the step-by-step procedure, with its replacement loop over the table in the order written, returns ItemId(label), and that id is clean |
| FirestoreImport.NormalizeMachineType | scripts/firestore_import.py:19-44 | an exact lookup: a type id exactly for the listed spellings, and that id has a canonical name |
| FirestoreImport.CanonicalNameNormalizes | scripts/firestore_import.py:19-40 | the canonical name of each of the six type ids looks up to that id |
| FirestoreImport.BracketedSpellingUnknown | scripts/firestore_import.py:19-44 | a spelling with a model code in brackets, such as `油圧ショベル（PC200）`, is not recognised |
| FirestoreImport.RowsOfMembers | scripts/firestore_import.py:140-152 | the rows of a type are exactly the rows whose spelling normalises to it |
| FirestoreImport.ItemsOfRows | scripts/firestore_import.py:140-163 | one item per row of the type, in file order; the k-th has order k + 1, the row's label and point, `lawRequired` iff the column is `★`, type `choice` and choices good/bad |
| FirestoreImport.TypesOfRows | scripts/firestore_import.py:146-152 | a type has a group exactly when it has at least one row |
| FirestoreImport.GroupedSkip | scripts/firestore_import.py:146-149 | a row of an unknown type changes no group |
| FirestoreImport.GroupedAppend | scripts/firestore_import.py:151-163 | a row of a known type appends its item, numbered after the others, to that type's group, creating it if needed |
| FirestoreImport.ImportInspectionItems | scripts/firestore_import.py:129-163 | the groups are exactly the recognised types of the rows, and each holds the items of its rows in order |
| FirestoreImport.ImportedGroupsKnown | scripts/firestore_import.py:146-163 | every group is one of the six type ids and every item id in it is clean |
| FirestoreImport.ItemDocumentsLastWins | scripts/firestore_import.py:177-181 | writing a group yields one document per distinct id, holding the last item with that id |
| FirestoreImport.TypeDocumentName | scripts/firestore_import.py:169-173 | a type document is named by the canonical name, or by the id when there is none |
| FirestoreImport.MachinesOfRows | scripts/firestore_import.py:200-217 | each row is imported or skipped as unknown; every machine is active, of a known type and carries that type's canonical name |
| FirestoreImport.CountPositive | scripts/firestore_import.py:232-236 | a type name occurs among the machines exactly when its count is positive |
| FirestoreImport.ImportMachines | scripts/firestore_import.py:190-236 | the machines are those of the recognised rows in file order, and the tally has one key per type name present, holding its count |
| FirestoreImport.HitsOnce | scripts/firestore_import.py:232-236 | a name occurs once in a list of distinct names that holds it, otherwise not at all |
| FirestoreImport.SumCountsTotal | scripts/firestore_import.py:232-236 | summing the counts over distinct names that cover every machine counts each machine once |
| FirestoreImport.TallyAddsUp | scripts/firestore_import.py:200-236 | the per-type counts of the imported machines sum to the number of machines |

## Left out

- I/O is outside the model: Flask routing, CORS preflight, `request.get_json`, `send_file`, JSON encoding, `print`, SQLite connections and SQL text, Firestore clients, batches and `SERVER_TIMESTAMP`, CSV reading, and `load_workbook` and `wb.save`.
- `db_lock`, threads and the server launchers are left out; everything runs sequentially.
- The clock is a parameter. One `now` serves a whole sync call, where the handler reads the clock once per record.
- The `master_data` table is modelled with the `sort_order` column that every query uses, although its CREATE TABLE statement (python_backend/unified_server.py:62-69) does not declare it.
- Exceptions from malformed JSON bodies are not modelled: a record body is always an object of strings and nulls, with `results` carried as its text.
- ReportRules.Classify: the `NaN` and `Infinity` literals that Python's `json.loads` accepts are not JSON values of the model; `NaN` equals nothing and would leave the mark unset.
- ReportLayout.DayOf: a day is an integer or missing (then 0). `int()` of a string such as "5", of a float such as 5.7 (truncated to 5) or of a bool, and the TypeError it raises on a null day, which turns the whole request into a 500, are not modelled.
- ReportLayout.InspectorOf: a null `inspector_name`, on which `list()` raises a TypeError, is not modelled; None stands for a missing key only.
- TemplateFill.RecordAssignments: a day is an integer or None (absent or null, both skipped); a string or float day, on which `38 + day` raises or yields a float column, is not modelled, and a null `inspector_name` is written as "" where openpyxl stores None; every result is taken to be an object, on which `.get` works.
- Fonts, fills and alignments are tags. openpyxl's `MergedCell` write protection is modelled only in the template filler (covered cells refuse a write); in the generator every write follows its merge.
- ReportSheet.CreateInspectionReport: a negative column is refused up front; the source raises inside openpyxl at the first such write, and nothing is saved either way.
- ReportSheet.ColumnWidth and ReportSheet.RowHeight: their own contracts name only the ranges; the whole tables are stated by Sheet.SetColumnWidths and Sheet.SetRowHeights.
- Unicode `lower()` in `generate_item_id` is modelled on the ASCII letters only; other letters pass through unchanged.
- FirestoreImport.ImportMachines: the document ids Firestore assigns and the `createdAt` timestamp are not part of a machine; the printed summary is modelled as the tally map, not as text.
- FirestoreImport.ItemDocumentsLastWins: `merge=True` is modelled as replacing the whole document, since an item document always carries every field; documents left from earlier runs are not modelled.
- ReportSheet.Sheet.Merge: openpyxl's merge first adds the right and bottom sides of the range's bottom-right cell to the anchor with `+=`, then replaces every covered cell but the anchor by a fresh cell and adds to each rim cell, again with `+=`, the anchor's side that faces outwards. The model reads `+=` one way for both steps: it keeps every side the cell already has, unstyled ones included, and a fresh cell's default border has all four sides present. So the anchor gains nothing from the bottom-right cell, and the fresh rim cells keep their unstyled sides. ReportBorders.MergedEdges writes the anchor's outward sides onto the rim instead, which gives the same border here, because every anchor is bare when its range is merged. The row-9 rule (python_backend/excel_generator_advanced.py:310-313) touches no range merged after it, BN4:BQ5 is the only range merged over cells that already carry a border, and ReportBorders.OwnerAnchorBare shows its anchor BN4 is bare. Under the other reading, where a default border has no sides, both steps would act, and BQ5's right rule would reach BN4 and then BQ4 and BQ5. That reading is not modelled, and openpyxl's own text is not part of this model. ReportSheet.MergeBorders and ReportSheet.Sheet.DrawBorders rest on the same reading.
- ReportBorders.OwnerMergeDropsRightRule: holds under the reading of Sheet.Merge above; under the other reading BQ4 and BQ5 would keep their right rule.
- ReportLayout.WithDefaults: a member sent as JSON null is read as a missing one and gets its default, where `dict.get` returns None. On None the generator raises a TypeError: for `machine_model` at the bracket test (python_backend/excel_generator_advanced.py:49), for `machine_type` at :63, for `items` at :320 and for `records` at :341 or :394. A null month would title the sheet `None月度` (:271), and a null text member leaves its cell empty where the model writes `""`. A month that is not an integer is printed as Python prints it; the model's month is an integer.
- TemplateFill.FixedHeader: a null `year` or `month` writes `None年` or `None月` into A2 (backend/generate_excel_from_template.py:55), and a null `machine_type` writes None into A5 (:58); the model reads null as missing and writes the clock's year or month, and `""`. Year and month are integers in the model, where the f-string prints any JSON value.
- TemplateFill.ModelHeader: a null `machine_model` or `machine_unit` writes None into BE4 or BI4 (backend/generate_excel_from_template.py:69, :72), where the model writes `""`. A null company or prime inspector is skipped like an empty one, as the source's `if` does.
- TemplateFill.HeaderWritten: is stated for requests whose members are missing or given, so it does not cover the null cases of FixedHeader and ModelHeader.
- TemplateFill.GenerateExcelFromTemplate: a null `records` makes `len(records)` raise (backend/generate_excel_from_template.py:49), so the function returns None (:137-141); the model's `records` is a sequence and cannot be null.
- The other Python files (the two CSV-to-SQLite importers, the batch delete of Firestore inspections, and the launcher variants of the server) are not part of this model.

## Findings

| source | as written | input that shows it | evidently intended | confidence | as-written member | corrected member |
|---|---|---|---|---|---|---|
| scripts/firestore_import.py:56-113 | the replacement table is applied in insertion order, and `水` and `油` (lines 87-88) come before `水温` and `油温` (lines 93-94), so the two temperature entries can never match | the label `水温` gets the id `water`; `油温` likewise gets `oil` | `水温` becomes `water_temp` and `油温` becomes `oil_temp`, as their entries say | not executed | ItemIds.WaterTemperatureAsWritten, ItemIds.TemperaturesNeverApply | ItemIds.WaterTemperatureIntended (about ItemIds.IntendedItemId, the id with the table IntendedReplacements; ItemIds.ItemId, ItemIds.GenerateItemId and the import keep the order as written) |
