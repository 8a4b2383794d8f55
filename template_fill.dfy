/** The template filler (backend/generate_excel_from_template.py): the column
    names of `_get_column_name`, and `generate_excel_from_template` as the
    ordered assignments it makes on a loaded template, any of which may raise. */
module TemplateFill {
  import opened Common
  import opened ReportRules
  import opened ReportBorders

  // ---------------------------------------------------------------------------
  // Column names: bijective base 26.
  // ---------------------------------------------------------------------------

  predicate IsUpper(c: char) {
    'A' <= c <= 'Z'
  }

  predicate AllUpper(s: string)
    decreases |s|
  {
    |s| == 0 || (IsUpper(s[|s| - 1]) && AllUpper(s[..|s| - 1]))
  }

  predicate IsColumnName(s: string) {
    |s| > 0 && AllUpper(s)
  }

  function Letter(d: int): char
    requires 0 <= d < 26
  {
    (('A' as int) + d) as char
  }

  /** The name of the 1-based column n: 1 is A, 26 is Z, 27 is AA; "" for 0. */
  function Letters(n: nat): (s: string)
    ensures |s| > 0 <==> n > 0
  {
    if n == 0 then "" else Letters((n - 1) / 26) + [Letter((n - 1) % 26)]
  }

  /** Names are upper case, so a non-empty one is a column name. */
  lemma {:induction false} LettersUpper(n: nat)
    ensures AllUpper(Letters(n))
  {
    if n > 0 {
      var q := (n - 1) / 26;
      LettersUpper(q);
      var s := Letters(n);
      assert s[..|s| - 1] == Letters(q);
    }
  }

  /** The 1-based column an upper-case name denotes, as openpyxl reads it: AA is 27. */
  function ColumnIndex(s: string): int {
    if |s| == 0 then 0
    else ColumnIndex(s[..|s| - 1]) * 26 + ((s[|s| - 1] as int) - ('A' as int) + 1)
  }

  /** `_get_column_name(i)`: the name of the 0-based column i, "" when i < 0. */
  function ColumnNameOf(i: int): string {
    if i >= 0 then Letters(i + 1) else ""
  }

  /** Reading a name back gives the column. */
  lemma {:induction false} LettersInverse(n: nat)
    ensures ColumnIndex(Letters(n)) == n
  {
    if n > 0 {
      var q, r := (n - 1) / 26, (n - 1) % 26;
      LettersInverse(q);
      var s := Letters(n);
      assert s[..|s| - 1] == Letters(q);
      assert (s[|s| - 1] as int) - ('A' as int) == r;
    }
  }

  /** Every name is the name of its column: the encoding is onto. */
  lemma {:induction false} LettersOnto(s: string)
    requires AllUpper(s)
    ensures ColumnIndex(s) >= 0
    ensures Letters(ColumnIndex(s)) == s
  {
    if |s| > 0 {
      var p := s[..|s| - 1];
      var d := (s[|s| - 1] as int) - ('A' as int);
      LettersOnto(p);
      var m := ColumnIndex(p);
      var n := m * 26 + d + 1;
      assert (n - 1) / 26 == m && (n - 1) % 26 == d;
      assert Letter(d) == s[|s| - 1];
      assert s == p + [s[|s| - 1]];
    }
  }

  /** The largest column a name of at most k letters reaches: 26, 702, 18278. */
  function MaxColumn(k: nat): nat {
    if k == 0 then 0 else 26 * MaxColumn(k - 1) + 26
  }

  lemma {:induction false} LettersLength(n: nat, k: nat)
    ensures |Letters(n)| <= k <==> n <= MaxColumn(k)
  {
    if n > 0 && k > 0 {
      LettersLength((n - 1) / 26, k - 1);
    }
  }

  /** Names of one to three letters are exactly the columns 1..18278. */
  lemma ThreeLetters(n: nat)
    ensures 0 < |Letters(n)| <= 3 <==> 1 <= n <= 18278
  {
    LettersLength(n, 3);
    assert MaxColumn(3) == 18278;
  }

  /** `_get_column_name`, loop for loop. */
  method ColumnName(colIndex: int) returns (name: string)
    ensures name == ColumnNameOf(colIndex)
    ensures colIndex >= 0 ==> IsColumnName(name) && ColumnIndex(name) == colIndex + 1
    ensures colIndex < 0 ==> name == ""
  {
    name := "";
    var c := colIndex + 1;
    while c > 0
      invariant colIndex >= 0 ==> c >= 0 && Letters(c) + name == Letters(colIndex + 1)
      invariant colIndex < 0 ==> name == ""
      decreases c
    {
      c := c - 1;
      ghost var before := name;
      name := [Letter(c % 26)] + name;
      assert Letters(c + 1) == Letters(c / 26) + [Letter(c % 26)];
      assert Letters(c / 26) + name == Letters(c + 1) + before;
      c := c / 26;
    }
    if colIndex >= 0 {
      LettersInverse(colIndex + 1);
      LettersUpper(colIndex + 1);
    }
  }

  /** `_get_column_name`'s own examples. */
  lemma ColumnNameExamples()
    ensures ColumnNameOf(0) == "A" && ColumnNameOf(25) == "Z"
    ensures ColumnNameOf(26) == "AA" && ColumnNameOf(38) == "AM"
  {
  }

  // ---------------------------------------------------------------------------
  // Addresses.
  // ---------------------------------------------------------------------------

  /** openpyxl's reading of the address `name + str(row)`: a column of one to
      three letters; anything else, the empty name included, raises. */
  function Resolve(name: string, row: int): Option<Pos> {
    if IsColumnName(name) && |name| <= 3 then Some((row, ColumnIndex(name))) else None
  }

  /** The cell of 0-based column i in `row`, as the filler addresses it. */
  function CellAddress(i: int, row: int): Option<Pos> {
    Resolve(ColumnNameOf(i), row)
  }

  /** An address exists exactly for the columns A..ZZZ. */
  lemma CellAddressRange(i: int, row: int)
    ensures CellAddress(i, row) == if 0 <= i <= 18277 then Some((row, i + 1)) else None
  {
    if 0 <= i <= 18277 {
      AddressInRange(i + 1, row);
    } else if i > 18277 {
      AddressOutOfRange(i + 1, row);
    }
  }

  lemma AddressInRange(n: nat, row: int)
    requires 1 <= n <= 18278
    ensures Resolve(Letters(n), row) == Some((row, n))
  {
    ThreeLetters(n);
    LettersInverse(n);
    LettersUpper(n);
  }

  lemma AddressOutOfRange(n: nat, row: int)
    requires n > 18278
    ensures Resolve(Letters(n), row) == None
  {
    ThreeLetters(n);
  }

  // ---------------------------------------------------------------------------
  // Cells and assignments.
  // ---------------------------------------------------------------------------

  /** The font of a cell: the template's own, or the 14 point bold green
      (00AA00) or red (FF0000) of a glyph. */
  datatype Ink = TemplateInk | GoodInk | BadInk

  datatype TemplateCell = TemplateCell(value: Option<string>, ink: Ink, centred: bool)

  const EmptyCell := TemplateCell(None, TemplateInk, false)

  function CellAt(cells: map<Pos, TemplateCell>, p: Pos): TemplateCell {
    if p in cells then cells[p] else EmptyCell
  }

  const GoodGlyph := "○"
  const BadGlyph := "×"

  /** A text written as the value, or a glyph written with its font and centred. */
  datatype Change = SetValue(text: string) | SetGlyph(good: bool)

  /** One `ws[address] = ...`; the target is None where the address raises. */
  datatype Assignment = Assignment(target: Option<Pos>, change: Change)

  function Changed(c: TemplateCell, ch: Change): TemplateCell {
    match ch
    case SetValue(t) => c.(value := Some(t))
    case SetGlyph(g) => TemplateCell(Some(if g then GoodGlyph else BadGlyph), if g then GoodInk else BadInk, true)
  }

  /** An assignment raises when its address does not parse or names a cell
      of `covered`: the cells of the template's covered ranges other than their
      top-left one, which openpyxl loads as read-only covered cells. */
  predicate Blocked(covered: set<Pos>, w: Assignment) {
    w.target.None? || w.target.value in covered
  }

  predicate AnyBlocked(covered: set<Pos>, ws: seq<Assignment>) {
    exists k | 0 <= k < |ws| :: Blocked(covered, ws[k])
  }

  /** The cells after the assignments in order, or None from the first one
      that raises. */
  function Apply(cells: map<Pos, TemplateCell>, covered: set<Pos>, ws: seq<Assignment>): Option<map<Pos, TemplateCell>>
    decreases |ws|
  {
    if ws == [] then Some(cells)
    else match Apply(cells, covered, ws[..|ws| - 1])
      case None => None
      case Some(c) =>
        var w := ws[|ws| - 1];
        if Blocked(covered, w) then None
        else Some(c[w.target.value := Changed(CellAt(c, w.target.value), w.change)])
  }

  /** The fill fails exactly when one of its assignments is blocked, wherever
      it comes. */
  lemma {:induction false} ApplyFails(cells: map<Pos, TemplateCell>, covered: set<Pos>, ws: seq<Assignment>)
    ensures Apply(cells, covered, ws).None? <==> AnyBlocked(covered, ws)
  {
    if ws != [] {
      var init := ws[..|ws| - 1];
      ApplyFails(cells, covered, init);
      if AnyBlocked(covered, init) {
        var k :| 0 <= k < |init| && Blocked(covered, init[k]);
        assert ws[k] == init[k];
      }
      if AnyBlocked(covered, ws) && !Blocked(covered, ws[|ws| - 1]) {
        var k :| 0 <= k < |ws| && Blocked(covered, ws[k]);
        assert init[k] == ws[k];
      }
    }
  }

  /** A cell no assignment targets keeps its template content. */
  lemma {:induction false} ApplyUntouched(cells: map<Pos, TemplateCell>, covered: set<Pos>, ws: seq<Assignment>, p: Pos)
    requires Apply(cells, covered, ws).Some?
    requires forall k | 0 <= k < |ws| :: ws[k].target != Some(p)
    ensures CellAt(Apply(cells, covered, ws).value, p) == CellAt(cells, p)
  {
    if ws != [] {
      ApplyUntouched(cells, covered, ws[..|ws| - 1], p);
    }
  }

  /** Assignments made one after the other compose. */
  lemma {:induction false} ApplyConcat(cells: map<Pos, TemplateCell>, covered: set<Pos>, a: seq<Assignment>, b: seq<Assignment>)
    requires Apply(cells, covered, a).Some?
    ensures Apply(cells, covered, a + b) == Apply(Apply(cells, covered, a).value, covered, b)
    decreases |b|
  {
    if b == [] {
      assert a + b == a;
    } else {
      assert (a + b)[..|a + b| - 1] == a + b[..|b| - 1];
      ApplyConcat(cells, covered, a, b[..|b| - 1]);
    }
  }

  lemma AnyBlockedConcat(covered: set<Pos>, a: seq<Assignment>, b: seq<Assignment>)
    ensures AnyBlocked(covered, a + b) <==> AnyBlocked(covered, a) || AnyBlocked(covered, b)
  {
    if AnyBlocked(covered, a) {
      var k :| 0 <= k < |a| && Blocked(covered, a[k]);
      assert (a + b)[k] == a[k];
    }
    if AnyBlocked(covered, b) {
      var k :| 0 <= k < |b| && Blocked(covered, b[k]);
      assert (a + b)[|a| + k] == b[k];
    }
    if AnyBlocked(covered, a + b) {
      var k :| 0 <= k < |a + b| && Blocked(covered, (a + b)[k]);
      if k < |a| {
        assert (a + b)[k] == a[k];
      } else {
        assert (a + b)[k] == b[k - |a|];
      }
    }
  }

  // ---------------------------------------------------------------------------
  // The request.
  // ---------------------------------------------------------------------------

  /** A record: `day` is None when the key is absent or null; a missing
      `results` reads as empty; each result is a code and its `isGood`, None
      when that key is absent. */
  datatype TemplateRecord = TemplateRecord(day: Option<int>, inspectorName: Option<string>, results: seq<(string, Option<JsonValue>)>)

  /** The request; a None field is an absent key, and absent records read as none. */
  datatype TemplateRequest = TemplateRequest(
    machineType: Option<string>,
    machineModel: Option<string>,
    machineUnit: Option<string>,
    companyName: Option<string>,
    primeInspector: Option<string>,
    year: Option<int>,
    month: Option<int>,
    records: seq<TemplateRecord>)

  /** Python's truth of a JSON value. */
  predicate Truthy(v: JsonValue) {
    match v
    case JBool(b) => b
    case JInt(i) => i != 0
    case JFloat(r) => r != 0.0
    case JStr(s) => s != ""
    case JNull => false
    case JList(n) => n != 0
    case JObject(n) => n != 0
  }

  /** Seven values are false in Python; every other one is true. */
  lemma FalsyValues(v: JsonValue)
    ensures !Truthy(v) <==> v in [JBool(false), JInt(0), JFloat(0.0), JStr(""), JNull, JList(0), JObject(0)]
  {
  }

  /** What the report generator marks good, the filler draws good; what it marks
      bad, the filler draws bad unless it is one of the strings "false" and "0". */
  lemma TruthAgreesWithMarks(v: JsonValue)
    ensures Classify(v) == Pass ==> IsGood(Some(v))
    ensures Classify(v) == Fail ==> (IsGood(Some(v)) <==> v in [JStr("false"), JStr("0")])
  {
    ClassifyValues(v);
  }

  /** `result.get('isGood', True)`: a missing key counts as good. */
  predicate IsGood(v: Option<JsonValue>) {
    v.None? || Truthy(v.value)
  }

  const SheetHeading := "日々点検表"

  /** A2: `{year}年{month}月`. */
  function YearMonth(year: int, month: int): string {
    IntToString(year) + "年" + IntToString(month) + "月"
  }

  /** A1, A2 and A5. */
  function FixedHeader(q: TemplateRequest, nowYear: int, nowMonth: int): seq<Assignment> {
    [Assignment(Some((1, 1)), SetValue(SheetHeading)),
     Assignment(Some((2, 1)), SetValue(YearMonth(q.year.GetOr(nowYear), q.month.GetOr(nowMonth)))),
     Assignment(Some((5, 1)), SetValue(q.machineType.GetOr("")))]
  }

  /** AM4 and AX4, each only when its text is not empty. */
  function OwnerHeader(q: TemplateRequest): seq<Assignment> {
    var company := q.companyName.GetOr("");
    var prime := q.primeInspector.GetOr("");
    (if company != "" then [Assignment(Some((4, 39)), SetValue(company))] else [])
    + (if prime != "" then [Assignment(Some((4, 50)), SetValue(prime))] else [])
  }

  /** BE4 and BI4. */
  function ModelHeader(q: TemplateRequest): seq<Assignment> {
    [Assignment(Some((4, 57)), SetValue(q.machineModel.GetOr(""))),
     Assignment(Some((4, 61)), SetValue(q.machineUnit.GetOr("")))]
  }

  /** The header cells in program order. */
  function HeaderAssignments(q: TemplateRequest, nowYear: int, nowMonth: int): seq<Assignment> {
    FixedHeader(q, nowYear, nowMonth) + OwnerHeader(q) + ModelHeader(q)
  }

  /** The glyphs of `rs`, the k-th in row 10 + k of 0-based column `col`,
      whatever its item code. */
  function ResultAssignments(col: int, rs: seq<(string, Option<JsonValue>)>): (ws: seq<Assignment>)
    ensures |ws| == |rs|
    ensures forall k | 0 <= k < |rs| :: ws[k] == Assignment(CellAddress(col, 10 + k), SetGlyph(IsGood(rs[k].1)))
    decreases |rs|
  {
    if rs == [] then []
    else ResultAssignments(col, rs[..|rs| - 1]) + [Assignment(CellAddress(col, 9 + |rs|), SetGlyph(IsGood(rs[|rs| - 1].1)))]
  }

  /** The loop stops once the row passes 23: at most fourteen results. */
  function Shown(rs: seq<(string, Option<JsonValue>)>): seq<(string, Option<JsonValue>)> {
    if |rs| <= 14 then rs else rs[..14]
  }

  /** Nothing for a record without a day; otherwise the inspector in row 24 of
      column 38 + day, then its glyphs. */
  function RecordAssignments(r: TemplateRecord): seq<Assignment> {
    match r.day
    case None => []
    case Some(day) =>
      [Assignment(CellAddress(38 + day, 24), SetValue(r.inspectorName.GetOr("")))]
      + ResultAssignments(38 + day, Shown(r.results))
  }

  function AllRecords(rs: seq<TemplateRecord>): seq<Assignment>
    decreases |rs|
  {
    if rs == [] then [] else AllRecords(rs[..|rs| - 1]) + RecordAssignments(rs[|rs| - 1])
  }

  function FillAssignments(q: TemplateRequest, nowYear: int, nowMonth: int): seq<Assignment> {
    HeaderAssignments(q, nowYear, nowMonth) + AllRecords(q.records)
  }

  // ---------------------------------------------------------------------------
  // What a fill writes.
  // ---------------------------------------------------------------------------

  /** A record without a day writes nothing; one with a day writes its
      inspector and at most fourteen glyphs. */
  lemma RecordCount(r: TemplateRecord)
    ensures r.day.None? ==> RecordAssignments(r) == []
    ensures r.day.Some? ==> |RecordAssignments(r)| == 1 + (if |r.results| <= 14 then |r.results| else 14)
  {
  }

  /** A record with a day puts its inspector in row 24 and its k-th result in
      row 10 + k, all in the column of day + 38 (0-based), so day 1 is AN. */
  lemma RecordPlacement(r: TemplateRecord, k: nat)
    requires r.day.Some? && 0 <= 38 + r.day.value <= 18277 && k < |RecordAssignments(r)|
    ensures RecordAssignments(r)[k].target == Some((if k == 0 then 24 else 9 + k, 39 + r.day.value))
  {
    var day := r.day.value;
    var ws := ResultAssignments(38 + day, Shown(r.results));
    assert RecordAssignments(r) == [Assignment(CellAddress(38 + day, 24), SetValue(r.inspectorName.GetOr("")))] + ws;
    if k == 0 {
      CellAddressRange(38 + day, 24);
    } else {
      assert ws[k - 1].target == CellAddress(38 + day, 9 + k);
      CellAddressRange(38 + day, 9 + k);
    }
  }

  /** A record whose column has no name (day < -38) or needs four letters
      (day > 18239) makes the whole fill fail. */
  lemma BadDayFails(q: TemplateRequest, nowYear: int, nowMonth: int, cells: map<Pos, TemplateCell>, covered: set<Pos>, i: nat)
    requires i < |q.records| && q.records[i].day.Some?
    requires !(0 <= 38 + q.records[i].day.value <= 18277)
    ensures Apply(cells, covered, FillAssignments(q, nowYear, nowMonth)).None?
  {
    var ws := RecordAssignments(q.records[i]);
    CellAddressRange(38 + q.records[i].day.value, 24);
    assert Blocked(covered, ws[0]);
    RecordInAll(covered, q.records, i);
    AnyBlockedConcat(covered, HeaderAssignments(q, nowYear, nowMonth), AllRecords(q.records));
    ApplyFails(cells, covered, FillAssignments(q, nowYear, nowMonth));
  }

  lemma {:induction false} RecordInAll(covered: set<Pos>, rs: seq<TemplateRecord>, i: nat)
    requires i < |rs| && AnyBlocked(covered, RecordAssignments(rs[i]))
    ensures AnyBlocked(covered, AllRecords(rs))
  {
    var init := rs[..|rs| - 1];
    AnyBlockedConcat(covered, AllRecords(init), RecordAssignments(rs[|rs| - 1]));
    if i < |rs| - 1 {
      assert init[i] == rs[i];
      RecordInAll(covered, init, i);
    }
  }

  /** Records write rows 10 to 24 only. */
  lemma {:induction false} RecordRows(rs: seq<TemplateRecord>)
    ensures forall k | 0 <= k < |AllRecords(rs)| :: AllRecords(rs)[k].target.Some? ==> 10 <= AllRecords(rs)[k].target.value.0 <= 24
    decreases |rs|
  {
    if rs != [] {
      var init := rs[..|rs| - 1];
      RecordRows(init);
      var r := rs[|rs| - 1];
      var ws := AllRecords(rs);
      assert ws == AllRecords(init) + RecordAssignments(r);
      forall k | 0 <= k < |ws| && ws[k].target.Some? ensures 10 <= ws[k].target.value.0 <= 24 {
        if k >= |AllRecords(init)| {
          var j := k - |AllRecords(init)|;
          assert ws[k] == RecordAssignments(r)[j];
        }
      }
    }
  }

  /** A cell exactly one assignment targets ends as that assignment left it. */
  lemma {:induction false} ApplySingle(cells: map<Pos, TemplateCell>, covered: set<Pos>, ws: seq<Assignment>, k: nat, p: Pos)
    requires Apply(cells, covered, ws).Some?
    requires k < |ws| && ws[k].target == Some(p)
    requires forall j | 0 <= j < |ws| && j != k :: ws[j].target != Some(p)
    ensures CellAt(Apply(cells, covered, ws).value, p) == Changed(CellAt(cells, p), ws[k].change)
    decreases |ws|
  {
    var init := ws[..|ws| - 1];
    if k == |ws| - 1 {
      ApplyUntouched(cells, covered, init, p);
    } else {
      ApplySingle(cells, covered, init, k, p);
    }
  }

  /** The header assignments target distinct cells above row 10. */
  lemma HeaderTargets(q: TemplateRequest, nowYear: int, nowMonth: int)
    ensures var h := HeaderAssignments(q, nowYear, nowMonth);
      (forall j | 0 <= j < |h| :: h[j].target.Some? && h[j].target.value.0 < 10)
      && (forall i, j | 0 <= i < j < |h| :: h[i].target != h[j].target)
  {
  }

  /** After a fill that succeeds, a cell a header assignment targets holds
      what that assignment wrote: the records never reach above row 10. */
  lemma HeaderCellKept(q: TemplateRequest, nowYear: int, nowMonth: int, cells: map<Pos, TemplateCell>, covered: set<Pos>, k: nat)
    requires Apply(cells, covered, FillAssignments(q, nowYear, nowMonth)).Some?
    requires k < |HeaderAssignments(q, nowYear, nowMonth)|
    ensures var w := HeaderAssignments(q, nowYear, nowMonth)[k];
      CellAt(Apply(cells, covered, FillAssignments(q, nowYear, nowMonth)).value, w.target.value)
      == Changed(CellAt(cells, w.target.value), w.change)
  {
    var h := HeaderAssignments(q, nowYear, nowMonth);
    var rest := AllRecords(q.records);
    var ws := FillAssignments(q, nowYear, nowMonth);
    HeaderTargets(q, nowYear, nowMonth);
    RecordRows(q.records);
    var p := h[k].target.value;
    forall j | 0 <= j < |ws| && j != k ensures ws[j].target != Some(p) {
      if j < |h| {
        assert ws[j] == h[j];
      } else {
        assert ws[j] == rest[j - |h|];
      }
    }
    assert ws[k] == h[k];
    ApplySingle(cells, covered, ws, k, p);
  }

  /** A cell above row 10 that no header assignment targets keeps the template's content. */
  lemma HeaderCellUntouched(q: TemplateRequest, nowYear: int, nowMonth: int, cells: map<Pos, TemplateCell>, covered: set<Pos>, p: Pos)
    requires Apply(cells, covered, FillAssignments(q, nowYear, nowMonth)).Some?
    requires p.0 < 10 && forall j | 0 <= j < |HeaderAssignments(q, nowYear, nowMonth)| :: HeaderAssignments(q, nowYear, nowMonth)[j].target != Some(p)
    ensures CellAt(Apply(cells, covered, FillAssignments(q, nowYear, nowMonth)).value, p) == CellAt(cells, p)
  {
    var h := HeaderAssignments(q, nowYear, nowMonth);
    var rest := AllRecords(q.records);
    var ws := FillAssignments(q, nowYear, nowMonth);
    RecordRows(q.records);
    forall j | 0 <= j < |ws| ensures ws[j].target != Some(p) {
      if j < |h| {
        assert ws[j] == h[j];
      } else {
        assert ws[j] == rest[j - |h|];
      }
    }
    ApplyUntouched(cells, covered, ws, p);
  }

  /** After a fill that succeeds, A1, A2, A5, BE4 and BI4 hold the header, and
      AM4 and AX4 hold the company and the prime contractor's inspector when
      those are given and keep the template's text otherwise. */
  lemma HeaderWritten(q: TemplateRequest, nowYear: int, nowMonth: int, cells: map<Pos, TemplateCell>, covered: set<Pos>)
    requires Apply(cells, covered, FillAssignments(q, nowYear, nowMonth)).Some?
    ensures var out := Apply(cells, covered, FillAssignments(q, nowYear, nowMonth)).value;
      CellAt(out, (1, 1)).value == Some(SheetHeading)
      && CellAt(out, (2, 1)).value == Some(YearMonth(q.year.GetOr(nowYear), q.month.GetOr(nowMonth)))
      && CellAt(out, (5, 1)).value == Some(q.machineType.GetOr(""))
      && CellAt(out, (4, 57)).value == Some(q.machineModel.GetOr(""))
      && CellAt(out, (4, 61)).value == Some(q.machineUnit.GetOr(""))
      && CellAt(out, (4, 39)).value == (if q.companyName.GetOr("") != "" then q.companyName else CellAt(cells, (4, 39)).value)
      && CellAt(out, (4, 50)).value == (if q.primeInspector.GetOr("") != "" then q.primeInspector else CellAt(cells, (4, 50)).value)
  {
    var h := HeaderAssignments(q, nowYear, nowMonth);
    var owner := OwnerHeader(q);
    var n := |h|;
    assert n == 5 + |owner|;
    HeaderCellKept(q, nowYear, nowMonth, cells, covered, 0);
    HeaderCellKept(q, nowYear, nowMonth, cells, covered, 1);
    HeaderCellKept(q, nowYear, nowMonth, cells, covered, 2);
    assert h[n - 2] == ModelHeader(q)[0] && h[n - 1] == ModelHeader(q)[1];
    HeaderCellKept(q, nowYear, nowMonth, cells, covered, n - 2);
    HeaderCellKept(q, nowYear, nowMonth, cells, covered, n - 1);
    if q.companyName.GetOr("") != "" {
      assert h[3] == owner[0];
      HeaderCellKept(q, nowYear, nowMonth, cells, covered, 3);
    } else {
      HeaderCellUntouched(q, nowYear, nowMonth, cells, covered, (4, 39));
    }
    if q.primeInspector.GetOr("") != "" {
      assert h[2 + |owner|] == owner[|owner| - 1];
      HeaderCellKept(q, nowYear, nowMonth, cells, covered, 2 + |owner|);
    } else {
      HeaderCellUntouched(q, nowYear, nowMonth, cells, covered, (4, 50));
    }
  }

  /** Unlike the report generator, the filler judges `isGood` by its truth: the
      string "false" is drawn good, a null is drawn bad. */
  lemma TruthNotComparison()
    ensures IsGood(Some(JStr("false"))) && Classify(JStr("false")) == Fail
    ensures !IsGood(Some(JNull)) && IsGood(None)
  {
  }

  // ---------------------------------------------------------------------------
  // The loaded template and the fill.
  // ---------------------------------------------------------------------------

  /** The active worksheet of the loaded template: its cells and its covered ranges. */
  class TemplateSheet {
    var cells: map<Pos, TemplateCell>
    var covered: set<Pos>

    constructor (cells0: map<Pos, TemplateCell>, covered0: set<Pos>)
      ensures cells == cells0 && covered == covered0
    {
      cells, covered := cells0, covered0;
    }

    /** One assignment; false where openpyxl raises. `done` lists the
        assignments made so far on the template `c0`. */
    method Assign(ghost c0: map<Pos, TemplateCell>, ghost done: seq<Assignment>, w: Assignment) returns (ok: bool)
      requires Apply(c0, covered, done) == Some(cells)
      modifies this
      ensures covered == old(covered)
      ensures ok <==> !Blocked(covered, w)
      ensures ok ==> Apply(c0, covered, done + [w]) == Some(cells)
    {
      if w.target.None? || w.target.value in covered {
        return false;
      }
      var p := w.target.value;
      cells := cells[p := Changed(CellAt(cells, p), w.change)];
      assert (done + [w])[..|done|] == done;
      return true;
    }
  }

  /** A1, A2 and A5, written after the assignments `done`. */
  method FillFixedHeader(ws: TemplateSheet, q: TemplateRequest, nowYear: int, nowMonth: int, ghost c0: map<Pos, TemplateCell>, ghost done: seq<Assignment>)
    returns (ok: bool)
    requires Apply(c0, ws.covered, done) == Some(ws.cells)
    modifies ws
    ensures ws.covered == old(ws.covered)
    ensures ok ==> Apply(c0, ws.covered, done + FixedHeader(q, nowYear, nowMonth)) == Some(ws.cells)
    ensures !ok ==> AnyBlocked(ws.covered, FixedHeader(q, nowYear, nowMonth))
  {
    ghost var part := FixedHeader(q, nowYear, nowMonth);
    var a1 := Assignment(Some((1, 1)), SetValue(SheetHeading));
    var a2 := Assignment(Some((2, 1)), SetValue(YearMonth(q.year.GetOr(nowYear), q.month.GetOr(nowMonth))));
    var a5 := Assignment(Some((5, 1)), SetValue(q.machineType.GetOr("")));
    assert part[0] == a1 && part[1] == a2 && part[2] == a5;
    ok := ws.Assign(c0, done, a1);
    if !ok { return; }
    ok := ws.Assign(c0, done + [a1], a2);
    if !ok { return; }
    ok := ws.Assign(c0, done + [a1] + [a2], a5);
    if !ok { return; }
    assert done + [a1] + [a2] + [a5] == done + part;
  }

  /** AM4 and AX4 when their texts are not empty. */
  method FillOwnerHeader(ws: TemplateSheet, q: TemplateRequest, ghost c0: map<Pos, TemplateCell>, ghost done: seq<Assignment>)
    returns (ok: bool)
    requires Apply(c0, ws.covered, done) == Some(ws.cells)
    modifies ws
    ensures ws.covered == old(ws.covered)
    ensures ok ==> Apply(c0, ws.covered, done + OwnerHeader(q)) == Some(ws.cells)
    ensures !ok ==> AnyBlocked(ws.covered, OwnerHeader(q))
  {
    ghost var part := OwnerHeader(q);
    var company := q.companyName.GetOr("");
    var prime := q.primeInspector.GetOr("");
    var am4 := Assignment(Some((4, 39)), SetValue(company));
    var ax4 := Assignment(Some((4, 50)), SetValue(prime));
    ghost var made: seq<Assignment> := [];
    assert done + made == done;
    ok := true;
    if company != "" {
      assert part[0] == am4;
      ok := ws.Assign(c0, done, am4);
      if !ok { return; }
      made := [am4];
    }
    if prime != "" {
      assert part[|made|] == ax4;
      ok := ws.Assign(c0, done + made, ax4);
      if !ok { return; }
      SnocAssoc(done, made, ax4);
      made := made + [ax4];
    }
    assert made == part;
  }

  /** BE4 and BI4. */
  method FillModelHeader(ws: TemplateSheet, q: TemplateRequest, ghost c0: map<Pos, TemplateCell>, ghost done: seq<Assignment>)
    returns (ok: bool)
    requires Apply(c0, ws.covered, done) == Some(ws.cells)
    modifies ws
    ensures ws.covered == old(ws.covered)
    ensures ok ==> Apply(c0, ws.covered, done + ModelHeader(q)) == Some(ws.cells)
    ensures !ok ==> AnyBlocked(ws.covered, ModelHeader(q))
  {
    ghost var part := ModelHeader(q);
    var be4 := Assignment(Some((4, 57)), SetValue(q.machineModel.GetOr("")));
    var bi4 := Assignment(Some((4, 61)), SetValue(q.machineUnit.GetOr("")));
    assert part[0] == be4 && part[1] == bi4;
    ok := ws.Assign(c0, done, be4);
    if !ok { return; }
    ok := ws.Assign(c0, done + [be4], bi4);
    if !ok { return; }
    assert done + [be4] + [bi4] == done + part;
  }

  /** A1 to BI4. */
  method FillHeader(ws: TemplateSheet, q: TemplateRequest, nowYear: int, nowMonth: int) returns (ok: bool)
    modifies ws
    ensures ws.covered == old(ws.covered)
    ensures ok <==> Apply(old(ws.cells), ws.covered, HeaderAssignments(q, nowYear, nowMonth)).Some?
    ensures ok ==> Apply(old(ws.cells), ws.covered, HeaderAssignments(q, nowYear, nowMonth)) == Some(ws.cells)
  {
    ghost var c0 := ws.cells;
    ghost var fixed, owner, model := FixedHeader(q, nowYear, nowMonth), OwnerHeader(q), ModelHeader(q);
    ApplyFails(c0, ws.covered, fixed + owner + model);
    AnyBlockedConcat(ws.covered, fixed + owner, model);
    AnyBlockedConcat(ws.covered, fixed, owner);
    assert [] + fixed == fixed;
    ok := FillFixedHeader(ws, q, nowYear, nowMonth, c0, []);
    if !ok { return; }
    ok := FillOwnerHeader(ws, q, c0, fixed);
    if !ok { return; }
    ok := FillModelHeader(ws, q, c0, fixed + owner);
  }

  lemma ResultNext(col: int, rs: seq<(string, Option<JsonValue>)>, j: nat)
    requires j < |rs|
    ensures ResultAssignments(col, rs[..j + 1]) == ResultAssignments(col, rs[..j]) + [Assignment(CellAddress(col, 10 + j), SetGlyph(IsGood(rs[j].1)))]
  {
    assert rs[..j + 1][..j] == rs[..j];
  }

  lemma AllRecordsNext(rs: seq<TemplateRecord>, i: nat)
    requires i < |rs|
    ensures AllRecords(rs[..i + 1]) == AllRecords(rs[..i]) + RecordAssignments(rs[i])
  {
    assert rs[..i + 1][..i] == rs[..i];
  }

  lemma ConcatAssoc<T>(a: seq<T>, b: seq<T>, c: seq<T>)
    ensures a + b + c == a + (b + c)
  {
  }

  lemma SnocAssoc<T>(a: seq<T>, b: seq<T>, x: T)
    ensures a + b + [x] == a + (b + [x])
  {
  }

  /** One more glyph: the assignments made so far grow by it, and it is the
      glyph assignment of the record at that position. */
  lemma ResultStep(col: int, results: seq<(string, Option<JsonValue>)>, j: nat, w: Assignment)
    requires j < |results| && j < 14
    requires w == Assignment(CellAddress(col, 10 + j), SetGlyph(IsGood(results[j].1)))
    ensures ResultAssignments(col, results[..j + 1]) == ResultAssignments(col, results[..j]) + [w]
    ensures j < |ResultAssignments(col, Shown(results))| && ResultAssignments(col, Shown(results))[j] == w
  {
    ResultNext(col, results, j);
    assert Shown(results)[j] == results[j];
  }

  /** A blocked assignment at a known position blocks the list. */
  lemma BlockedAt(covered: set<Pos>, ws: seq<Assignment>, k: nat)
    requires k < |ws| && Blocked(covered, ws[k])
    ensures AnyBlocked(covered, ws)
  {
  }

  /** The results of one record, in rows 10 to 23 of the column `name`,
      stopping after row 23. */
  method FillResults(ws: TemplateSheet, results: seq<(string, Option<JsonValue>)>, col: int, name: string,
                     ghost c0: map<Pos, TemplateCell>, ghost done: seq<Assignment>) returns (ok: bool)
    requires name == ColumnNameOf(col)
    requires Apply(c0, ws.covered, done) == Some(ws.cells)
    modifies ws
    ensures ws.covered == old(ws.covered)
    ensures ok ==> Apply(c0, ws.covered, done + ResultAssignments(col, Shown(results))) == Some(ws.cells)
    ensures !ok ==> AnyBlocked(ws.covered, ResultAssignments(col, Shown(results)))
  {
    var row := 10;
    var j := 0;
    assert done + ResultAssignments(col, results[..0]) == done;
    while j < |results|
      invariant 0 <= j <= |results| && j <= 14 && row == 10 + j
      invariant ws.covered == old(ws.covered)
      invariant Apply(c0, ws.covered, done + ResultAssignments(col, results[..j])) == Some(ws.cells)
    {
      if row > 23 {
        break;
      }
      var w := Assignment(Resolve(name, row), SetGlyph(IsGood(results[j].1)));
      ResultStep(col, results, j, w);
      ok := ws.Assign(c0, done + ResultAssignments(col, results[..j]), w);
      if !ok {
        BlockedAt(ws.covered, ResultAssignments(col, Shown(results)), j);
        return;
      }
      SnocAssoc(done, ResultAssignments(col, results[..j]), w);
      row := row + 1;
      j := j + 1;
    }
    assert results[..j] == Shown(results);
    return true;
  }

  /** One record: nothing without a day; otherwise its inspector in row 24 and
      its results in rows 10 to 23 of the day's column. */
  method FillRecord(ws: TemplateSheet, r: TemplateRecord, ghost c0: map<Pos, TemplateCell>, ghost done: seq<Assignment>) returns (ok: bool)
    requires Apply(c0, ws.covered, done) == Some(ws.cells)
    modifies ws
    ensures ws.covered == old(ws.covered)
    ensures ok ==> Apply(c0, ws.covered, done + RecordAssignments(r)) == Some(ws.cells)
    ensures !ok ==> AnyBlocked(ws.covered, RecordAssignments(r))
  {
    if r.day.None? {
      assert done + RecordAssignments(r) == done;
      return true;
    }
    var col := 38 + r.day.value;
    var name := ColumnName(col);
    var inspector := Assignment(Resolve(name, 24), SetValue(r.inspectorName.GetOr("")));
    ghost var glyphs := ResultAssignments(col, Shown(r.results));
    assert RecordAssignments(r) == [inspector] + glyphs;
    ok := ws.Assign(c0, done, inspector);
    if !ok {
      BlockedAt(ws.covered, RecordAssignments(r), 0);
      return;
    }
    ok := FillResults(ws, r.results, col, name, c0, done + [inspector]);
    if !ok {
      AnyBlockedConcat(ws.covered, [inspector], glyphs);
      return;
    }
    ConcatAssoc(done, [inspector], glyphs);
  }

  /** `generate_excel_from_template` on a loaded template: the output path when
      every assignment succeeds, None when one raises. The clock is read only
      for an absent year or month. */
  method GenerateExcelFromTemplate(ws: TemplateSheet, outputPath: string, q: TemplateRequest, nowYear: int, nowMonth: int)
    returns (result: Option<string>)
    modifies ws
    ensures ws.covered == old(ws.covered)
    ensures result.Some? <==> Apply(old(ws.cells), ws.covered, FillAssignments(q, nowYear, nowMonth)).Some?
    ensures result.Some? ==> result.value == outputPath
    ensures result.Some? ==> Apply(old(ws.cells), ws.covered, FillAssignments(q, nowYear, nowMonth)) == Some(ws.cells)
  {
    ghost var c0 := ws.cells;
    ghost var header := HeaderAssignments(q, nowYear, nowMonth);
    FillFailsWhere(c0, ws.covered, q, nowYear, nowMonth);
    var ok := FillHeader(ws, q, nowYear, nowMonth);
    if !ok {
      return None;
    }
    ghost var made := header;
    var i := 0;
    assert header + AllRecords(q.records[..0]) == header;
    while i < |q.records|
      invariant 0 <= i <= |q.records| && ws.covered == old(ws.covered)
      invariant made == header + AllRecords(q.records[..i])
      invariant Apply(c0, ws.covered, made) == Some(ws.cells)
    {
      ok := FillRecord(ws, q.records[i], c0, made);
      if !ok {
        RecordInAll(ws.covered, q.records, i);
        return None;
      }
      AllRecordsNext(q.records, i);
      ConcatAssoc(header, AllRecords(q.records[..i]), RecordAssignments(q.records[i]));
      made := made + RecordAssignments(q.records[i]);
      i := i + 1;
    }
    assert q.records[..i] == q.records;
    return Some(outputPath);
  }

  /** The fill fails where the header fails or a record's assignments do. */
  lemma FillFailsWhere(cells: map<Pos, TemplateCell>, covered: set<Pos>, q: TemplateRequest, nowYear: int, nowMonth: int)
    ensures Apply(cells, covered, FillAssignments(q, nowYear, nowMonth)).None?
      <==> Apply(cells, covered, HeaderAssignments(q, nowYear, nowMonth)).None? || AnyBlocked(covered, AllRecords(q.records))
  {
    ApplyFails(cells, covered, FillAssignments(q, nowYear, nowMonth));
    ApplyFails(cells, covered, HeaderAssignments(q, nowYear, nowMonth));
    AnyBlockedConcat(covered, HeaderAssignments(q, nowYear, nowMonth), AllRecords(q.records));
  }
}
