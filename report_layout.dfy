/** What each cell of the inspection report holds (python_backend/excel_generator_advanced.py).
    Each block of the generator is a function from a cell's position and its
    content before the block to its content after it; the report is their
    composition in program order. */
module ReportLayout {
  import opened Common
  import opened ReportRules
  import opened ReportBorders

  // ---------------------------------------------------------------------------
  // Cells.
  // ---------------------------------------------------------------------------

  /** The fonts used; every one is the HG明朝E face. */
  datatype Font = NoFont | Mincho(size: nat, bold: bool, italic: bool, underline: bool)

  datatype Fill = NoFill | Gray | Green | Red

  /** Horizontal/vertical alignment; CenterWrap also wraps the text. */
  datatype Align = NoAlign | LeftCenter | CenterCenter | LeftBottom | CenterWrap

  datatype Cell = Cell(value: Option<string>, font: Font, fill: Fill, align: Align)

  /** A cell that was never written, or one that a merge replaced. */
  const Blank := Cell(None, NoFont, NoFill, NoAlign)

  /** A missing key is a blank cell. */
  function At(cells: map<Pos, Cell>, p: Pos): Cell {
    if p in cells then cells[p] else Blank
  }

  const M10 := Mincho(10, false, false, false)
  const M11B := Mincho(11, true, false, false)
  const M12 := Mincho(12, false, false, false)
  const M14 := Mincho(14, false, false, false)
  const M14B := Mincho(14, true, false, false)
  const M16 := Mincho(16, false, false, false)
  const M16BU := Mincho(16, true, false, true)
  const M18 := Mincho(18, false, false, false)
  const M18B := Mincho(18, true, false, false)
  const M26BI := Mincho(26, true, true, false)

  /** Sets value, font and alignment; the fill is kept. */
  function Put(c: Cell, v: string, f: Font, a: Align): Cell {
    c.(value := Some(v), font := f, align := a)
  }

  /** A merge replaces every covered cell but the anchor by a blank one. */
  function Merged(a: Area, p: Pos, c: Cell): Cell {
    if a.Covers(p) && p != a.Anchor() then Blank else c
  }

  // ---------------------------------------------------------------------------
  // The request.
  // ---------------------------------------------------------------------------

  /** One inspection item; absent fields are read as "" and False. */
  datatype Item = Item(code: string, name: string, checkPoint: string, required: bool)

  /** One day's record: `results` maps item codes to their `is_good` value. */
  datatype DayRecord = DayRecord(day: Option<int>, inspector: Option<string>, results: map<string, JsonValue>)

  /** `int(record.get('day', 0))` */
  function DayOf(r: DayRecord): int {
    r.day.GetOr(0)
  }

  /** The column of a record's day: day 1 is AM (39). */
  function ColumnOf(r: DayRecord): int {
    38 + DayOf(r)
  }

  /** The request after `dict.get` has supplied its defaults. */
  datatype ReportData = ReportData(
    machineType: string, machineModel: string, machineUnit: string, siteName: string,
    companyName: string, responsiblePerson: string, primeInspector: string,
    month: int, records: seq<DayRecord>, items: seq<Item>)

  /** The JSON object as sent: every key may be missing. */
  datatype ReportRequest = ReportRequest(
    machineType: Option<string>, machineModel: Option<string>, machineUnit: Option<string>,
    siteName: Option<string>, companyName: Option<string>, responsiblePerson: Option<string>,
    primeInspector: Option<string>, month: Option<int>, year: Option<int>,
    records: Option<seq<DayRecord>>, items: Option<seq<Item>>)

  /** The defaults of the generator; `year` is read but never used. */
  function WithDefaults(q: ReportRequest): (d: ReportData)
    ensures q.machineType.None? ==> d.machineType == "油圧ショベル"
    ensures q.month.None? ==> d.month == 1
    ensures q.records.None? ==> d.records == []
    ensures q.items.None? ==> d.items == []
    ensures q.machineType.Some? ==> d.machineType == q.machineType.value
  {
    ReportData(q.machineType.GetOr("油圧ショベル"), q.machineModel.GetOr(""), q.machineUnit.GetOr(""),
               q.siteName.GetOr(""), q.companyName.GetOr(""), q.responsiblePerson.GetOr(""),
               q.primeInspector.GetOr(""), q.month.GetOr(1), q.records.GetOr([]), q.items.GetOr([]))
  }

  /** Without any key the report is titled for an excavator in January and cites
      the crane rule. */
  lemma EmptyRequestDefaults()
    ensures var d := WithDefaults(ReportRequest(None, None, None, None, None, None, None, None, None, None, None));
      Title(d.month, d.machineType) == "1月度　油圧ショベル　作業開始前点検表"
      && Row3Citation(d.machineType) == CraneRule
  {
    DefaultTypeIsExcavator();
    DefaultTitle();
  }

  lemma DefaultTitle()
    ensures Title(1, "油圧ショベル") == "1月度　油圧ショベル　作業開始前点検表"
  {
    DefaultTypeNamePlain();
    assert IntToString(1) == "1";
    var t := "1" + "月度　" + "油圧ショベル" + TitleSuffix;
    assert |t| == 19;
    assert forall i | 0 <= i < 19 :: t[i] == "1月度　油圧ショベル　作業開始前点検表"[i];
  }

  lemma DefaultTypeIsExcavator()
    ensures IsExcavator("油圧ショベル")
  {
    assert OccursAt("油圧ショベル", "油圧ショベル", 0);
  }

  lemma DefaultTypeNamePlain()
    ensures MachineName("油圧ショベル") == "油圧ショベル"
  {
    assert FullOpen !in "油圧ショベル" && '(' !in "油圧ショベル";
  }

  // ---------------------------------------------------------------------------
  // Rows 1 to 7: the header.
  // ---------------------------------------------------------------------------

  /** D1:E1 */
  const Row1Merges := {Area(1, 4, 1, 5)}

  function Row1Cell(d: ReportData, p: Pos, c: Cell): Cell {
    if p.0 != 1 then c
    else if p == (1, 1) then Put(c, "工事名", M18, LeftCenter)
    else if p == (1, 4) then Put(c, "：", M14, CenterCenter)
    else if p == (1, 5) then Blank
    else if p == (1, 6) && d.siteName != "" then Put(c, d.siteName, M18, LeftCenter)
    else c
  }

  /** A3 cites the law, J3 explains the star. */
  function Row3NoteCell(d: ReportData, p: Pos, c: Cell): Cell {
    if p == (3, 1) then Put(c, Row3Citation(d.machineType), M14, LeftCenter)
    else if p == (3, 10) then Put(c, "・★は法的要求事項", M14, LeftCenter)
    else c
  }

  /** AM3:AW3, AX3:BD3, BE3:BH3, BI3:BL3, BN3:BQ3 */
  const Row3Merges := {Area(3, 39, 3, 49), Area(3, 50, 3, 56), Area(3, 57, 3, 60), Area(3, 61, 3, 64), Area(3, 66, 3, 69)}

  /** The columns of row 3 those merges replace: all but the anchors AM, AX, BE, BI, BN. */
  predicate Row3Covered(col: int) {
    40 <= col <= 49 || 51 <= col <= 56 || 58 <= col <= 60 || 62 <= col <= 64 || 67 <= col <= 69
  }

  /** The headings of the owner box. */
  function Row3BoxCell(p: Pos, c: Cell): Cell {
    if p.0 != 3 then c
    else if Row3Covered(p.1) then Blank
    else if p == (3, 39) then Put(c, "所有会社名", M11B, CenterCenter)
    else if p == (3, 50) then Put(c, "取扱責任者（点検者）", M11B, CenterCenter)
    else if p == (3, 57) then Put(c, "型式", M11B, CenterCenter)
    else if p == (3, 61) then Put(c, "機械番号", M11B, CenterCenter)
    else if p == (3, 66) then Put(c, "作業所長確認", M11B, CenterCenter)
    else c
  }

  /** AM4:AW5, AX4:BD5, BE4:BH5, BI4:BL5 */
  const Row4Merges := {Area(4, 39, 5, 49), Area(4, 50, 5, 56), Area(4, 57, 5, 60), Area(4, 61, 5, 64)}

  /** The cells those merges replace: row 5 from AM to BL, and row 4 but the anchors. */
  predicate Row4Covered(p: Pos) {
    (p.0 == 4 && (40 <= p.1 <= 49 || 51 <= p.1 <= 56 || 58 <= p.1 <= 60 || 62 <= p.1 <= 64))
    || (p.0 == 5 && 39 <= p.1 <= 64)
  }

  function Row4Cell(d: ReportData, p: Pos, c: Cell): Cell {
    if !(4 <= p.0 <= 5) then c
    else if Row4Covered(p) then Blank
    else if p == (4, 1) && Row4Citation(d.machineType).Some? then
      Put(c, Row4Citation(d.machineType).value, M14, LeftCenter)
    else if p == (4, 10) then Put(c, "・その他は点検すべき事項とみなした箇所", M14, LeftCenter)
    else if p == (4, 39) then Put(c, d.companyName, M16, CenterCenter)
    else if p == (4, 50) then Put(c, d.responsiblePerson, M16, CenterCenter)
    else if p == (4, 57) then Put(c, d.machineModel, M16, CenterCenter)
    else if p == (4, 61) then Put(c, d.machineUnit, M16, CenterCenter)
    else c
  }

  const Notice := "※点検時、作業時問わず異常を認めたときは、元請点検責任者に報告及び速やかに補修その他必要な措置を取ること"

  function TitleCell(d: ReportData, p: Pos, c: Cell): Cell {
    if p == (5, 1) then Put(c, Title(d.month, d.machineType), M26BI, LeftBottom)
    else if p == (7, 1) then Put(c, Notice, M16BU, LeftBottom)
    else c
  }

  // ---------------------------------------------------------------------------
  // Row 9: column headings and the day numbers.
  // ---------------------------------------------------------------------------

  /** A9:Q9, R9:AL9 */
  const Row9Merges := {Area(9, 1, 9, 17), Area(9, 18, 9, 38)}

  /** Row 9 from B to Q and from S to AL is replaced by the two merges. */
  function HeadingCell(p: Pos, c: Cell): Cell {
    if p.0 != 9 then c
    else if 2 <= p.1 <= 17 || 19 <= p.1 <= 38 then Blank
    else if p == (9, 1) then Put(c, "点検項目", M14B, CenterCenter).(fill := Gray)
    else if p == (9, 18) then Put(c, "点検ポイント", M14B, CenterCenter).(fill := Gray)
    else c
  }

  /** Day d (1..31) is numbered in column 38 + d of row 9. */
  function DayNumberCell(p: Pos, c: Cell): Cell {
    if p.0 == 9 && 39 <= p.1 <= 69 then Put(c, NatToString(p.1 - 38), M11B, CenterCenter).(fill := Gray)
    else c
  }

  // ---------------------------------------------------------------------------
  // Rows 10 to 23: items and marks.
  // ---------------------------------------------------------------------------

  /** At most 14 items are printed. */
  function ShownItems(items: seq<Item>): nat {
    if |items| < 14 then |items| else 14
  }

  /** The star, the name and the check point of an item. */
  function LabelCell(item: Item, col: int, c: Cell): Cell {
    if col == 1 && item.required then Put(c, "★", M14, CenterCenter)
    else if col == 2 then Put(c, item.name, M14, LeftCenter)
    else if col == 18 then Put(c, item.checkPoint, M14, LeftCenter)
    else c
  }

  /** One record's mark: whatever the value, the cell gets font 10 centred. */
  function MarkCell(c: Cell, m: Mark): Cell {
    match m
    case Pass => c.(value := Some(PassMark), fill := Green, font := M10, align := CenterCenter)
    case Fail => c.(value := Some(FailMark), fill := Red, font := M10, align := CenterCenter)
    case Unmarked => c.(font := M10, align := CenterCenter)
  }

  /** The record marks item `code` in column `col`. */
  predicate Marks(r: DayRecord, code: string, col: int) {
    code in r.results && ColumnOf(r) == col && col <= 69
  }

  /** The marks of all records, in order, in column `col` of an item's row. */
  function MarkFold(rs: seq<DayRecord>, code: string, col: int, c: Cell): Cell
    decreases |rs|
  {
    if |rs| == 0 then c
    else
      var before := MarkFold(rs[..|rs| - 1], code, col, c);
      var r := rs[|rs| - 1];
      if Marks(r, code, col) then MarkCell(before, Classify(r.results[code])) else before
  }

  function ItemCell(d: ReportData, p: Pos, c: Cell): Cell {
    if 10 <= p.0 < 10 + ShownItems(d.items) then
      var item := d.items[p.0 - 10];
      MarkFold(d.records, item.code, p.1, LabelCell(item, p.1, c))
    else c
  }

  // ---------------------------------------------------------------------------
  // Rows 24 to 26: legend and inspectors.
  // ---------------------------------------------------------------------------

  /** AL24:AL26 */
  const InspectorHeading := Area(24, 38, 26, 38)

  function LegendCell(p: Pos, c: Cell): Cell {
    if !(24 <= p.0 <= 26) then c
    else if p == (24, 1) then Put(c, "１．点検時", M14, LeftCenter)
    else if p == (24, 9) then Put(c, "良好…○　要調整、修理…×（使用禁止）　・該当なし…－", M14, LeftCenter)
    else if p == (25, 2) then Put(c, "チェック記号", M14, LeftCenter)
    else if p == (25, 9) then Put(c, "調整または補修したとき…×を○で囲む", M14, LeftCenter)
    else if p == (26, 1) then Put(c, "２．元請点検責任者は、毎月上旬・中旬・下旬毎に１回点検状況を確認すること。", M14, LeftCenter)
    else if InspectorHeading.Covers(p) && p != InspectorHeading.Anchor() then Blank
    else if p == InspectorHeading.Anchor() then Put(c, "点\n検\n者", M12, CenterWrap)
    else c
  }

  /** The three rows a record's inspector occupies. */
  function InspectorArea(col: int): Area {
    Area(24, col, 26, col)
  }

  /** `inspector_name` of a record, "" when absent. */
  function InspectorOf(r: DayRecord): string {
    r.inspector.GetOr("")
  }

  /** Each record with a column up to BQ merges its three rows and writes its
      inspector vertically, in record order. */
  function InspectorFold(rs: seq<DayRecord>, p: Pos, c: Cell): Cell
    decreases |rs|
  {
    if |rs| == 0 then c
    else
      var before := InspectorFold(rs[..|rs| - 1], p, c);
      var r := rs[|rs| - 1];
      var col := ColumnOf(r);
      if col <= 69 && p.1 == col && 24 <= p.0 <= 26 then
        if p.0 == 24 then Put(before, Vertical(InspectorOf(r)), M10, CenterWrap) else Blank
      else before
  }

  // ---------------------------------------------------------------------------
  // Rows 27 to 31: prime contractor, repair log and picture area.
  // ---------------------------------------------------------------------------

  /** AK27:AL27, AM27:AT27, AU27:AV27 */
  const Row27LeftMerges := {Area(27, 37, 27, 38), Area(27, 39, 27, 46), Area(27, 47, 27, 48)}

  /** AK27 heads the prime contractor's box, AM27 holds the inspector; AL, AN..AT
      and AV are replaced by the merges. */
  function Row27LeftCell(d: ReportData, p: Pos, c: Cell): Cell {
    if p.0 != 27 then c
    else if p.1 == 38 || 40 <= p.1 <= 46 || p.1 == 48 then Blank
    else if p == (27, 37) then Put(c, "元請点検\n責任者\n確認欄", M10, CenterWrap)
    else if p == (27, 39) then Put(c, d.primeInspector, M16, CenterCenter)
    else c
  }

  /** AW27:BD27, BE27:BF27, BG27:BO27, BP27:BQ27 */
  const Row27RightMerges := {Area(27, 49, 27, 56), Area(27, 57, 27, 58), Area(27, 59, 27, 67), Area(27, 68, 27, 69)}

  /** AW27 and BG27 repeat the inspector; AX..BD, BF, BH..BO and BQ are replaced. */
  function Row27RightCell(d: ReportData, p: Pos, c: Cell): Cell {
    if p.0 != 27 then c
    else if 50 <= p.1 <= 56 || p.1 == 58 || 60 <= p.1 <= 67 || p.1 == 69 then Blank
    else if p == (27, 49) || p == (27, 59) then Put(c, d.primeInspector, M16, CenterCenter)
    else c
  }

  /** The merges AK:BE, BF:BH, BI:BK, BL:BN and BO:BQ of repair row `r`. */
  function RepairRow(r: int): set<Area> {
    {Area(r, 37, r, 57), Area(r, 58, r, 60), Area(r, 61, r, 63), Area(r, 64, r, 66), Area(r, 67, r, 69)}
  }

  /** The columns of a repair row that those merges replace: all but their anchors
      AK, BF, BI, BL and BO. */
  predicate RepairCovered(col: int) {
    38 <= col <= 57 || 59 <= col <= 60 || 62 <= col <= 63 || 65 <= col <= 66 || 68 <= col <= 69
  }

  /** Rows 28 to 31, headed in row 28. */
  function RepairCell(p: Pos, c: Cell): Cell {
    if !(28 <= p.0 <= 31) then c
    else if RepairCovered(p.1) then Blank
    else if p == (28, 37) then Put(c, "補修内容", M11B, CenterCenter)
    else if p == (28, 58) then Put(c, "補修日", M11B, CenterCenter)
    else if p == (28, 61) then Put(c, "補修者", M11B, CenterCenter)
    else if p == (28, 64) then Put(c, "元請点検\n責任者", M11B, CenterWrap)
    else if p == (28, 67) then Put(c, "作業所長", M11B, CenterCenter)
    else c
  }

  /** A27:AJ31, the place for a photograph of the machine. */
  const PictureArea := Area(27, 1, 31, 36)

  function PictureCell(p: Pos, c: Cell): Cell {
    if PictureArea.Covers(p) && p != PictureArea.Anchor() then Blank
    else if p == PictureArea.Anchor() then Put(c, "※重機画像添付※", M18B, CenterCenter)
    else c
  }

  // ---------------------------------------------------------------------------
  // The whole report.
  // ---------------------------------------------------------------------------

  /** Rows 1 to 7. */
  function HeaderCell(d: ReportData, p: Pos, c: Cell): Cell {
    TitleCell(d, p, Row4Cell(d, p, Row3BoxCell(p, Row3NoteCell(d, p, Row1Cell(d, p, c)))))
  }

  /** Row 9. */
  function ColumnHeadCell(p: Pos, c: Cell): Cell {
    DayNumberCell(p, HeadingCell(p, c))
  }

  /** Rows 24 to 31. */
  function FooterCell(d: ReportData, p: Pos, c: Cell): Cell {
    var inspectors := InspectorFold(d.records, p, LegendCell(p, c));
    PictureCell(p, RepairCell(p, Row27RightCell(d, p, Row27LeftCell(d, p, inspectors))))
  }

  /** Every cell of the saved report, block by block in program order; the last
      step is the merge of BN4:BQ5 made among the border statements. */
  function ReportCell(d: ReportData, p: Pos): Cell {
    Merged(OwnerMerge, p, FooterCell(d, p, ItemCell(d, p, ColumnHeadCell(p, HeaderCell(d, p, Blank)))))
  }

  /** The columns merged for inspectors, in record order. */
  function InspectorMerges(rs: seq<DayRecord>): (s: set<Area>)
    ensures forall a :: a in s <==> exists i | 0 <= i < |rs| :: ColumnOf(rs[i]) <= 69 && a == InspectorArea(ColumnOf(rs[i]))
    decreases |rs|
  {
    if |rs| == 0 then {}
    else
      var r := rs[|rs| - 1];
      var rest := InspectorMerges(rs[..|rs| - 1]);
      assert forall i | 0 <= i < |rs| - 1 :: rs[..|rs| - 1][i] == rs[i];
      if ColumnOf(r) <= 69 then rest + {InspectorArea(ColumnOf(r))} else rest
  }

  const HeaderMerges := Row1Merges + Row3Merges + Row4Merges

  function FooterMerges(d: ReportData): set<Area> {
    {InspectorHeading} + InspectorMerges(d.records) + Row27LeftMerges + Row27RightMerges
    + RepairRow(28) + RepairRow(29) + RepairRow(30) + RepairRow(31) + {PictureArea}
  }

  /** All merged ranges of the report. */
  function ReportMerges(d: ReportData): set<Area> {
    HeaderMerges + Row9Merges + FooterMerges(d) + {OwnerMerge}
  }

  // ---------------------------------------------------------------------------
  // Properties of the report.
  // ---------------------------------------------------------------------------

  /** A5 holds the title with the machine name only; A3 and A4 cite the law. */
  lemma TitleAndCitations(d: ReportData)
    ensures ReportCell(d, (5, 1)) == Put(Blank, Title(d.month, d.machineType), M26BI, LeftBottom)
    ensures ReportCell(d, (3, 1)).value == Some(Row3Citation(d.machineType))
    ensures ReportCell(d, (4, 1)).value == Row4Citation(d.machineType)
  {
    InspectorFoldOutside(d.records, (5, 1));
    InspectorFoldOutside(d.records, (3, 1));
    InspectorFoldOutside(d.records, (4, 1));
  }

  /** Row 9 numbers the days 1 to 31 on gray from AM to BQ. */
  lemma DayNumbers(d: ReportData, day: int)
    requires 1 <= day <= 31
    ensures ReportCell(d, (9, 38 + day)) == Cell(Some(NatToString(day)), M11B, Gray, CenterCenter)
  {
    InspectorFoldOutside(d.records, (9, 38 + day));
  }

  /** The owner, the person in charge, the model and the unit fill AM4, AX4, BE4, BI4. */
  lemma MachineBox(d: ReportData)
    ensures ReportCell(d, (4, 39)).value == Some(d.companyName)
    ensures ReportCell(d, (4, 50)).value == Some(d.responsiblePerson)
    ensures ReportCell(d, (4, 57)).value == Some(d.machineModel)
    ensures ReportCell(d, (4, 61)).value == Some(d.machineUnit)
  {
    InspectorFoldOutside(d.records, (4, 39));
    InspectorFoldOutside(d.records, (4, 50));
    InspectorFoldOutside(d.records, (4, 57));
    InspectorFoldOutside(d.records, (4, 61));
  }

  /** The prime contractor's inspector is written three times in row 27. */
  lemma PrimeInspectorThrice(d: ReportData)
    ensures ReportCell(d, (27, 39)).value == Some(d.primeInspector)
    ensures ReportCell(d, (27, 49)).value == Some(d.primeInspector)
    ensures ReportCell(d, (27, 59)).value == Some(d.primeInspector)
  {
    InspectorFoldOutside(d.records, (27, 39));
    InspectorFoldOutside(d.records, (27, 49));
    InspectorFoldOutside(d.records, (27, 59));
  }

  /** A day's mark is decided by the last record of that day that marks the item
      good or bad; unrecognised values keep the earlier mark. */
  lemma {:induction false} LastMarkWins(rs: seq<DayRecord>, code: string, col: int, c: Cell, k: nat)
    requires k < |rs| && Marks(rs[k], code, col) && Classify(rs[k].results[code]) != Unmarked
    requires forall j | k < j < |rs| :: Marks(rs[j], code, col) ==> Classify(rs[j].results[code]) == Unmarked
    ensures MarkFold(rs, code, col, c).value
      == Some(if Classify(rs[k].results[code]) == Pass then PassMark else FailMark)
    ensures MarkFold(rs, code, col, c).fill
      == (if Classify(rs[k].results[code]) == Pass then Green else Red)
    ensures MarkFold(rs, code, col, c).font == M10
    decreases |rs|
  {
    if k < |rs| - 1 {
      var init := rs[..|rs| - 1];
      assert forall j | k < j < |init| :: init[j] == rs[j];
      LastMarkWins(init, code, col, c, k);
    }
  }

  /** Without any record for that day and item, the cell is left as it was. */
  lemma {:induction false} NoMarkKeepsCell(rs: seq<DayRecord>, code: string, col: int, c: Cell)
    requires forall j | 0 <= j < |rs| :: !Marks(rs[j], code, col)
    ensures MarkFold(rs, code, col, c) == c
    decreases |rs|
  {
    if |rs| > 0 {
      var init := rs[..|rs| - 1];
      assert forall j | 0 <= j < |init| :: init[j] == rs[j];
      NoMarkKeepsCell(init, code, col, c);
    }
  }

  /** The mark cells of the finished report are the item's marks folded over the
      records, on a blank cell. */
  lemma MarkCellOfReport(d: ReportData, i: nat, day: int)
    requires i < ShownItems(d.items) && 1 <= day <= 31
    ensures ReportCell(d, (10 + i, 38 + day))
      == MarkFold(d.records, d.items[i].code, 38 + day, Blank)
  {
    InspectorFoldOutside(d.records, (10 + i, 38 + day));
  }

  /** Item `i` is labelled in row 10+i: a star in A exactly for a required item,
      its name in B and its check point in R, unless a record dated so early that
      its column is one of these marks over them. */
  lemma ItemLabels(d: ReportData, i: nat)
    requires i < ShownItems(d.items)
    requires forall j | 0 <= j < |d.records| :: ColumnOf(d.records[j]) !in {1, 2, 18}
    ensures ReportCell(d, (10 + i, 1)).value == (if d.items[i].required then Some("★") else None)
    ensures ReportCell(d, (10 + i, 2)).value == Some(d.items[i].name)
    ensures ReportCell(d, (10 + i, 18)).value == Some(d.items[i].checkPoint)
  {
    var code := d.items[i].code;
    NoMarkKeepsCell(d.records, code, 1, LabelCell(d.items[i], 1, ColumnHeadCell((10 + i, 1), HeaderCell(d, (10 + i, 1), Blank))));
    NoMarkKeepsCell(d.records, code, 2, LabelCell(d.items[i], 2, ColumnHeadCell((10 + i, 2), HeaderCell(d, (10 + i, 2), Blank))));
    NoMarkKeepsCell(d.records, code, 18, LabelCell(d.items[i], 18, ColumnHeadCell((10 + i, 18), HeaderCell(d, (10 + i, 18), Blank))));
    InspectorFoldOutside(d.records, (10 + i, 1));
    InspectorFoldOutside(d.records, (10 + i, 2));
    InspectorFoldOutside(d.records, (10 + i, 18));
  }

  /** Inspectors are written in rows 24 to 26 only. */
  lemma {:induction false} InspectorFoldOutside(rs: seq<DayRecord>, p: Pos)
    requires !(24 <= p.0 <= 26)
    ensures forall c :: InspectorFold(rs, p, c) == c
    decreases |rs|
  {
    if |rs| > 0 {
      InspectorFoldOutside(rs[..|rs| - 1], p);
    }
  }

  /** The inspector of the last record for a column stands vertically in row 24
      of that column, whatever the legend had put there; rows 25 and 26 are merged away. */
  lemma {:induction false} LastInspectorShown(rs: seq<DayRecord>, col: int, c24: Cell, c25: Cell, c26: Cell, k: nat)
    requires k < |rs| && ColumnOf(rs[k]) == col && col <= 69
    requires forall j | k < j < |rs| :: ColumnOf(rs[j]) != col
    ensures InspectorFold(rs, (24, col), c24).value == Some(Vertical(InspectorOf(rs[k])))
    ensures InspectorFold(rs, (24, col), c24).font == M10
    ensures InspectorFold(rs, (25, col), c25) == Blank
    ensures InspectorFold(rs, (26, col), c26) == Blank
    decreases |rs|
  {
    if k < |rs| - 1 {
      var init := rs[..|rs| - 1];
      assert forall j | k < j < |init| :: init[j] == rs[j];
      LastInspectorShown(init, col, c24, c25, c26, k);
    }
  }

  /** In the finished report, the inspector of the last record of a day stands in
      row 24 of its column, and rows 25 and 26 below are empty; this holds for
      day 0 too, whose column AL loses its legend. */
  lemma InspectorOfReport(d: ReportData, k: nat)
    requires k < |d.records| && 1 <= ColumnOf(d.records[k]) <= 69
    requires forall j | k < j < |d.records| :: ColumnOf(d.records[j]) != ColumnOf(d.records[k])
    ensures ReportCell(d, (24, ColumnOf(d.records[k]))).value == Some(Vertical(InspectorOf(d.records[k])))
    ensures ReportCell(d, (25, ColumnOf(d.records[k]))) == Blank
    ensures ReportCell(d, (26, ColumnOf(d.records[k]))) == Blank
  {
    var col := ColumnOf(d.records[k]);
    var p24, p25, p26 := (24, col), (25, col), (26, col);
    LastInspectorShown(d.records, col,
      LegendCell(p24, ItemCell(d, p24, ColumnHeadCell(p24, HeaderCell(d, p24, Blank)))),
      LegendCell(p25, ItemCell(d, p25, ColumnHeadCell(p25, HeaderCell(d, p25, Blank)))),
      LegendCell(p26, ItemCell(d, p26, ColumnHeadCell(p26, HeaderCell(d, p26, Blank)))), k);
  }

  /** Records dated after the 31st print nothing and merge nothing. */
  lemma {:induction false} LateRecordIgnored(d: ReportData, r: DayRecord, p: Pos)
    requires ColumnOf(r) > 69
    ensures ReportCell(d.(records := d.records + [r]), p) == ReportCell(d, p)
    ensures ReportMerges(d.(records := d.records + [r])) == ReportMerges(d)
  {
    var rs := d.records + [r];
    assert rs[..|rs| - 1] == d.records;
  }

  /** Items after the fourteenth never reach the sheet. */
  lemma OnlyFourteenItems(d: ReportData, p: Pos)
    requires |d.items| > 14
    ensures ReportCell(d, p) == ReportCell(d.(items := d.items[..14]), p)
  {
  }
}
