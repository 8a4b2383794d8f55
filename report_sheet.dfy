/** The worksheet the generator fills (python_backend/excel_generator_advanced.py),
    and `create_inspection_report` as a sequence of its blocks. Each block is a
    method proved against the cell function of ReportLayout that describes it;
    the borders are painted by folding the plans of ReportBorders. */
module ReportSheet {
  import opened Common
  import opened ReportRules
  import opened ReportBorders
  import opened ReportLayout

  /** A missing key is a cell without borders. */
  function EdgeAt(borders: map<Pos, Edges>, p: Pos): Edges {
    if p in borders then borders[p] else NoEdges
  }

  /** Column widths in characters: A, B..AK, AL, AM..BR. */
  function ColumnWidth(c: int): (w: real)
    requires 1 <= c <= 70
    ensures 39 <= c ==> w == 4.5
    ensures 2 <= c <= 37 ==> w == 3.3
  {
    if c == 1 then 5.0 else if c <= 37 then 3.3 else if c == 38 then 6.7 else 4.5
  }

  /** Row heights in points: the header, the item table and the repair log. */
  function RowHeight(r: int): (h: int)
    requires 1 <= r <= 31
    ensures 9 <= r <= 26 ==> h == 32
    ensures 28 <= r ==> h == 37
  {
    if r <= 4 then 24 else if r == 5 then 43 else if r == 6 then 18 else if r == 7 then 31
    else if r == 8 then 9 else if r <= 26 then 32 else if r == 27 then 72 else 37
  }

  const SheetTitle := "油圧ｼｮﾍﾞﾙ"

  class Sheet {
    var title: string
    var cells: map<Pos, Cell>
    var borders: map<Pos, Edges>
    var merges: set<Area>
    var widths: map<int, real>
    var heights: map<int, int>

    /** No cell of row `row` or below has a border. */
    ghost predicate BareFrom(row: int)
      reads this
    {
      forall p: Pos :: p.0 >= row ==> EdgeAt(borders, p) == NoEdges
    }

    constructor (t: string)
      ensures title == t && cells == map[] && borders == map[] && merges == {}
      ensures widths == map[] && heights == map[]
    {
      title, cells, borders, merges := t, map[], map[], {};
      widths, heights := map[], map[];
    }

    /** Sets value, font and alignment of one cell. */
    method Write(p: Pos, v: string, f: Font, a: Align)
      modifies this
      ensures forall q :: At(cells, q) == if q == p then Put(At(old(cells), p), v, f, a) else At(old(cells), q)
      ensures borders == old(borders) && merges == old(merges) && title == old(title)
      ensures widths == old(widths) && heights == old(heights)
    {
      cells := cells[p := Put(At(cells, p), v, f, a)];
    }

    /** Replaces one cell: a fill, or a day's mark. */
    method SetCell(p: Pos, c: Cell)
      modifies this
      ensures forall q :: At(cells, q) == if q == p then c else At(old(cells), q)
      ensures borders == old(borders) && merges == old(merges) && title == old(title)
      ensures widths == old(widths) && heights == old(heights)
    {
      cells := cells[p := c];
    }

    /** Merges a bare range and writes its anchor. */
    method MergeAndWrite(a: Area, v: string, f: Font, al: Align)
      requires forall p :: a.Covers(p) ==> EdgeAt(borders, p) == NoEdges
      modifies this
      ensures forall q :: At(cells, q) == if q == a.Anchor() then Put(At(old(cells), q), v, f, al) else Merged(a, q, At(old(cells), q))
      ensures borders == old(borders) && merges == old(merges) + {a} && title == old(title)
      ensures widths == old(widths) && heights == old(heights)
    {
      Merge(a);
      Write(a.Anchor(), v, f, al);
    }

    /** openpyxl's `merge_cells`: the covered cells but the anchor become fresh
        merged cells, without value, style or border, and the rim then gets the
        anchor's outward sides. The range is kept in a set. */
    method Merge(a: Area)
      modifies this
      ensures forall p :: At(cells, p) == Merged(a, p, At(old(cells), p))
      ensures forall p :: EdgeAt(borders, p) == MergedEdges(a, p, EdgeAt(old(borders), p), EdgeAt(old(borders), a.Anchor()))
      ensures (forall p :: a.Covers(p) ==> EdgeAt(old(borders), p) == NoEdges) ==> borders == old(borders)
      ensures merges == old(merges) + {a} && title == old(title)
      ensures widths == old(widths) && heights == old(heights)
    {
      cells := MergeCells(cells, a);
      if exists r, c | a.top <= r <= a.bottom && a.left <= c <= a.right :: EdgeAt(borders, (r, c)) != NoEdges {
        borders := MergeBorders(borders, a);
      } else {
        forall p | a.Covers(p) ensures EdgeAt(borders, p) == NoEdges {
          assert p == (p.0, p.1);
        }
      }
      merges := merges + {a};
    }

    /** One border statement, cell by cell over its rectangle. */
    method Paint(op: BorderOp)
      modifies this
      ensures forall p :: EdgeAt(borders, p) == Step(EdgeAt(old(borders), p), op, p)
      ensures cells == old(cells) && merges == old(merges) && title == old(title)
      ensures widths == old(widths) && heights == old(heights)
    {
      var a := op.area;
      var r := a.top;
      while r <= a.bottom
        invariant a.top <= r && (r <= a.bottom + 1 || r == a.top)
        invariant forall p :: EdgeAt(borders, p) == PaintedUpTo(op, r, a.left, p, EdgeAt(old(borders), p))
        invariant cells == old(cells) && merges == old(merges) && title == old(title)
        invariant widths == old(widths) && heights == old(heights)
        decreases a.bottom - r
      {
        var c := a.left;
        while c <= a.right
          invariant a.left <= c && (c <= a.right + 1 || c == a.left)
          invariant forall p :: EdgeAt(borders, p) == PaintedUpTo(op, r, c, p, EdgeAt(old(borders), p))
          invariant cells == old(cells) && merges == old(merges) && title == old(title)
          invariant widths == old(widths) && heights == old(heights)
          decreases a.right - c
        {
          borders := borders[(r, c) := Step(EdgeAt(borders, (r, c)), op, (r, c))];
          c := c + 1;
        }
        r := r + 1;
      }
    }

    /** The border statements of a plan, in order. */
    method PaintAll(ops: seq<BorderOp>)
      modifies this
      ensures forall p :: EdgeAt(borders, p) == Run(ops, |ops|, p, EdgeAt(old(borders), p))
      ensures cells == old(cells) && merges == old(merges) && title == old(title)
      ensures widths == old(widths) && heights == old(heights)
    {
      var i := 0;
      while i < |ops|
        invariant i <= |ops|
        invariant forall p :: EdgeAt(borders, p) == Run(ops, i, p, EdgeAt(old(borders), p))
        invariant cells == old(cells) && merges == old(merges) && title == old(title)
        invariant widths == old(widths) && heights == old(heights)
      {
        Paint(ops[i]);
        i := i + 1;
      }
    }

    method SetColumnWidths()
      modifies this
      ensures forall c :: c in widths <==> c in old(widths) || 1 <= c <= 70
      ensures forall c | 1 <= c <= 70 :: widths[c] == ColumnWidth(c)
      ensures forall c | c in old(widths) && !(1 <= c <= 70) :: widths[c] == old(widths)[c]
      ensures cells == old(cells) && borders == old(borders) && merges == old(merges)
      ensures title == old(title) && heights == old(heights)
    {
      var w := widths[1 := 5.0];
      for c := 2 to 38
        invariant forall k :: k in w <==> k in old(widths) || 1 <= k < c
        invariant forall k | 1 <= k < c :: w[k] == ColumnWidth(k)
        invariant forall k | k in old(widths) && !(1 <= k < c) :: w[k] == old(widths)[k]
      {
        w := w[c := 3.3];
      }
      w := w[38 := 6.7];
      for c := 39 to 71
        invariant forall k :: k in w <==> k in old(widths) || 1 <= k < c
        invariant forall k | 1 <= k < c :: w[k] == ColumnWidth(k)
        invariant forall k | k in old(widths) && !(1 <= k < c) :: w[k] == old(widths)[k]
      {
        w := w[c := 4.5];
      }
      widths := w;
    }

    method SetRowHeights()
      modifies this
      ensures forall r :: r in heights <==> r in old(heights) || 1 <= r <= 31
      ensures forall r | 1 <= r <= 31 :: heights[r] == RowHeight(r)
      ensures forall r | r in old(heights) && !(1 <= r <= 31) :: heights[r] == old(heights)[r]
      ensures cells == old(cells) && borders == old(borders) && merges == old(merges)
      ensures title == old(title) && widths == old(widths)
    {
      var h := heights;
      for r := 1 to 5
        invariant forall k :: k in h <==> k in old(heights) || 1 <= k < r
        invariant forall k | 1 <= k < r :: h[k] == RowHeight(k)
        invariant forall k | k in old(heights) && !(1 <= k < r) :: h[k] == old(heights)[k]
      {
        h := h[r := 24];
      }
      h := h[5 := 43][6 := 18][7 := 31][8 := 9];
      for r := 9 to 27
        invariant forall k :: k in h <==> k in old(heights) || 1 <= k < r
        invariant forall k | 1 <= k < r :: h[k] == RowHeight(k)
        invariant forall k | k in old(heights) && !(1 <= k < r) :: h[k] == old(heights)[k]
      {
        h := h[r := 32];
      }
      h := h[27 := 72];
      for r := 28 to 32
        invariant forall k :: k in h <==> k in old(heights) || 1 <= k < r
        invariant forall k | 1 <= k < r :: h[k] == RowHeight(k)
        invariant forall k | k in old(heights) && !(1 <= k < r) :: h[k] == old(heights)[k]
      {
        h := h[r := 37];
      }
      heights := h;
    }

    // -------------------------------------------------------------------------
    // The cell blocks, in program order.
    // -------------------------------------------------------------------------

    method WriteRow1(d: ReportData)
      requires BareFrom(1)
      modifies this
      ensures forall p :: At(cells, p) == Row1Cell(d, p, At(old(cells), p))
      ensures borders == old(borders)
      ensures merges == old(merges) + Row1Merges && title == old(title)
      ensures widths == old(widths) && heights == old(heights)
    {
      Write((1, 1), "工事名", M18, LeftCenter);
      MergeAndWrite(Area(1, 4, 1, 5), "：", M14, CenterCenter);
      if d.siteName != "" {
        Write((1, 6), d.siteName, M18, LeftCenter);
      }
    }

    method WriteRow3Notes(d: ReportData)
      modifies this
      ensures forall p :: At(cells, p) == Row3NoteCell(d, p, At(old(cells), p))
      ensures borders == old(borders) && merges == old(merges) && title == old(title)
      ensures widths == old(widths) && heights == old(heights)
    {
      Write((3, 1), Row3Citation(d.machineType), M14, LeftCenter);
      Write((3, 10), "・★は法的要求事項", M14, LeftCenter);
    }

    method WriteRow3Box()
      requires BareFrom(1)
      modifies this
      ensures forall p :: At(cells, p) == Row3BoxCell(p, At(old(cells), p))
      ensures borders == old(borders)
      ensures merges == old(merges) + Row3Merges && title == old(title)
      ensures widths == old(widths) && heights == old(heights)
    {
      MergeAndWrite(Area(3, 39, 3, 49), "所有会社名", M11B, CenterCenter);
      MergeAndWrite(Area(3, 50, 3, 56), "取扱責任者（点検者）", M11B, CenterCenter);
      MergeAndWrite(Area(3, 57, 3, 60), "型式", M11B, CenterCenter);
      MergeAndWrite(Area(3, 61, 3, 64), "機械番号", M11B, CenterCenter);
      MergeAndWrite(Area(3, 66, 3, 69), "作業所長確認", M11B, CenterCenter);
    }

    method WriteRow4(d: ReportData)
      requires BareFrom(1)
      modifies this
      ensures forall p :: At(cells, p) == Row4Cell(d, p, At(old(cells), p))
      ensures borders == old(borders)
      ensures merges == old(merges) + Row4Merges && title == old(title)
      ensures widths == old(widths) && heights == old(heights)
    {
      var a4 := Row4Citation(d.machineType);
      if a4.Some? {
        Write((4, 1), a4.value, M14, LeftCenter);
      }
      Write((4, 10), "・その他は点検すべき事項とみなした箇所", M14, LeftCenter);
      MergeAndWrite(Area(4, 39, 5, 49), d.companyName, M16, CenterCenter);
      MergeAndWrite(Area(4, 50, 5, 56), d.responsiblePerson, M16, CenterCenter);
      MergeAndWrite(Area(4, 57, 5, 60), d.machineModel, M16, CenterCenter);
      MergeAndWrite(Area(4, 61, 5, 64), d.machineUnit, M16, CenterCenter);
    }

    method WriteTitle(d: ReportData)
      modifies this
      ensures forall p :: At(cells, p) == TitleCell(d, p, At(old(cells), p))
      ensures borders == old(borders) && merges == old(merges) && title == old(title)
      ensures widths == old(widths) && heights == old(heights)
    {
      Write((5, 1), Title(d.month, d.machineType), M26BI, LeftBottom);
      Write((7, 1), Notice, M16BU, LeftBottom);
    }

    method WriteHeadings()
      requires BareFrom(1)
      modifies this
      ensures forall p :: At(cells, p) == HeadingCell(p, At(old(cells), p))
      ensures borders == old(borders)
      ensures merges == old(merges) + Row9Merges && title == old(title)
      ensures widths == old(widths) && heights == old(heights)
    {
      MergeAndWrite(Area(9, 1, 9, 17), "点検項目", M14B, CenterCenter);
      SetCell((9, 1), At(cells, (9, 1)).(fill := Gray));
      MergeAndWrite(Area(9, 18, 9, 38), "点検ポイント", M14B, CenterCenter);
      SetCell((9, 18), At(cells, (9, 18)).(fill := Gray));
    }

    method WriteDayNumbers()
      modifies this
      ensures forall p :: At(cells, p) == DayNumberCell(p, At(old(cells), p))
      ensures borders == old(borders) && merges == old(merges) && title == old(title)
      ensures widths == old(widths) && heights == old(heights)
    {
      for day := 1 to 32
        invariant forall p :: At(cells, p) == (if p.0 == 9 && p.1 < 38 + day then DayNumberCell(p, At(old(cells), p)) else At(old(cells), p))
        invariant borders == old(borders) && merges == old(merges) && title == old(title)
        invariant widths == old(widths) && heights == old(heights)
      {
        var col := 38 + day;
        if col <= 69 {
          SetCell((9, col), Put(At(cells, (9, col)), NatToString(day), M11B, CenterCenter).(fill := Gray));
        }
      }
    }

    /** Rows 10 to 23: at most fourteen items, and for each item the marks of
        every record in record order. */
    method WriteItems(d: ReportData)
      modifies this
      ensures forall p :: At(cells, p) == ItemCell(d, p, At(old(cells), p))
      ensures borders == old(borders) && merges == old(merges) && title == old(title)
      ensures widths == old(widths) && heights == old(heights)
    {
      var n := ShownItems(d.items);
      for i := 0 to n
        invariant forall p :: At(cells, p) == (if p.0 < 10 + i then ItemCell(d, p, At(old(cells), p)) else At(old(cells), p))
        invariant borders == old(borders) && merges == old(merges) && title == old(title)
        invariant widths == old(widths) && heights == old(heights)
      {
        var row := 10 + i;
        var item := d.items[i];
        ghost var before := cells;
        if item.required {
          Write((row, 1), "★", M14, CenterCenter);
        }
        Write((row, 2), item.name, M14, LeftCenter);
        Write((row, 18), item.checkPoint, M14, LeftCenter);
        for j := 0 to |d.records|
          invariant forall p :: At(cells, p) == RowMarkedUpTo(d.records, j, item, row, p, At(before, p))
          invariant borders == old(borders) && merges == old(merges) && title == old(title)
          invariant widths == old(widths) && heights == old(heights)
        {
          var r := d.records[j];
          var col := ColumnOf(r);
          assert d.records[..j + 1][..j] == d.records[..j];
          if item.code in r.results && col <= 69 {
            SetCell((row, col), MarkCell(At(cells, (row, col)), Classify(r.results[item.code])));
          }
        }
        assert d.records[..|d.records|] == d.records;
      }
    }

    method WriteLegend()
      requires BareFrom(24)
      modifies this
      ensures forall p :: At(cells, p) == LegendCell(p, At(old(cells), p))
      ensures borders == old(borders)
      ensures merges == old(merges) + {InspectorHeading} && title == old(title)
      ensures widths == old(widths) && heights == old(heights)
    {
      Write((24, 1), "１．点検時", M14, LeftCenter);
      Write((24, 9), "良好…○　要調整、修理…×（使用禁止）　・該当なし…－", M14, LeftCenter);
      Write((25, 2), "チェック記号", M14, LeftCenter);
      Write((25, 9), "調整または補修したとき…×を○で囲む", M14, LeftCenter);
      Write((26, 1), "２．元請点検責任者は、毎月上旬・中旬・下旬毎に１回点検状況を確認すること。", M14, LeftCenter);
      MergeAndWrite(InspectorHeading, "点\n検\n者", M12, CenterWrap);
    }

    /** Rows 24 to 26 of each record's column: merged, with the inspector's
        name one character per line. */
    method WriteInspectors(d: ReportData)
      requires BareFrom(24)
      modifies this
      ensures forall p :: At(cells, p) == InspectorFold(d.records, p, At(old(cells), p))
      ensures borders == old(borders)
      ensures merges == old(merges) + InspectorMerges(d.records) && title == old(title)
      ensures widths == old(widths) && heights == old(heights)
    {
      for j := 0 to |d.records|
        invariant forall p :: At(cells, p) == InspectorFold(d.records[..j], p, At(old(cells), p))
        invariant borders == old(borders)
        invariant merges == old(merges) + InspectorMerges(d.records[..j]) && title == old(title)
        invariant widths == old(widths) && heights == old(heights)
      {
        var r := d.records[j];
        var col := ColumnOf(r);
        assert d.records[..j + 1][..j] == d.records[..j];
        if col <= 69 {
          MergeAndWrite(InspectorArea(col), Vertical(InspectorOf(r)), M10, CenterWrap);
        }
      }
      assert d.records[..|d.records|] == d.records;
    }

    method WriteRow27Left(d: ReportData)
      requires BareFrom(24)
      modifies this
      ensures forall p :: At(cells, p) == Row27LeftCell(d, p, At(old(cells), p))
      ensures borders == old(borders)
      ensures merges == old(merges) + Row27LeftMerges && title == old(title)
      ensures widths == old(widths) && heights == old(heights)
    {
      MergeAndWrite(Area(27, 37, 27, 38), "元請点検\n責任者\n確認欄", M10, CenterWrap);
      MergeAndWrite(Area(27, 39, 27, 46), d.primeInspector, M16, CenterCenter);
      Merge(Area(27, 47, 27, 48));
    }

    method WriteRow27Right(d: ReportData)
      requires BareFrom(24)
      modifies this
      ensures forall p :: At(cells, p) == Row27RightCell(d, p, At(old(cells), p))
      ensures borders == old(borders)
      ensures merges == old(merges) + Row27RightMerges && title == old(title)
      ensures widths == old(widths) && heights == old(heights)
    {
      MergeAndWrite(Area(27, 49, 27, 56), d.primeInspector, M16, CenterCenter);
      Merge(Area(27, 57, 27, 58));
      MergeAndWrite(Area(27, 59, 27, 67), d.primeInspector, M16, CenterCenter);
      Merge(Area(27, 68, 27, 69));
    }

    /** The five merged columns of one repair row. */
    method MergeRepairRow(r: int)
      requires BareFrom(24) && 28 <= r
      modifies this
      ensures forall p :: At(cells, p) == if p.0 == r && RepairCovered(p.1) then Blank else At(old(cells), p)
      ensures borders == old(borders)
      ensures merges == old(merges) + RepairRow(r) && title == old(title)
      ensures widths == old(widths) && heights == old(heights)
    {
      Merge(Area(r, 37, r, 57));
      Merge(Area(r, 58, r, 60));
      Merge(Area(r, 61, r, 63));
      Merge(Area(r, 64, r, 66));
      Merge(Area(r, 67, r, 69));
    }

    /** Row 28: the merged columns and their headings. */
    method WriteRepairHeads()
      requires BareFrom(24)
      modifies this
      ensures forall p :: At(cells, p) == if p.0 == 28 then RepairCell(p, At(old(cells), p)) else At(old(cells), p)
      ensures borders == old(borders)
      ensures merges == old(merges) + RepairRow(28) && title == old(title)
      ensures widths == old(widths) && heights == old(heights)
    {
      MergeRepairRow(28);
      Write((28, 37), "補修内容", M11B, CenterCenter);
      Write((28, 58), "補修日", M11B, CenterCenter);
      Write((28, 61), "補修者", M11B, CenterCenter);
      Write((28, 64), "元請点検\n責任者", M11B, CenterWrap);
      Write((28, 67), "作業所長", M11B, CenterCenter);
    }

    method WriteRepairLog()
      requires BareFrom(24)
      modifies this
      ensures forall p :: At(cells, p) == RepairCell(p, At(old(cells), p))
      ensures borders == old(borders)
      ensures merges == old(merges) + RepairRow(28) + RepairRow(29) + RepairRow(30) + RepairRow(31) && title == old(title)
      ensures widths == old(widths) && heights == old(heights)
    {
      WriteRepairHeads();
      MergeRepairRow(29);
      MergeRepairRow(30);
      MergeRepairRow(31);
    }

    method WritePicture()
      requires BareFrom(24)
      modifies this
      ensures forall p :: At(cells, p) == PictureCell(p, At(old(cells), p))
      ensures borders == old(borders)
      ensures merges == old(merges) + {PictureArea} && title == old(title)
      ensures widths == old(widths) && heights == old(heights)
    {
      MergeAndWrite(PictureArea, "※重機画像添付※", M18B, CenterCenter);
    }

    // -------------------------------------------------------------------------
    // The blocks grouped by the part of the sheet they fill.
    // -------------------------------------------------------------------------

    method WriteHeader(d: ReportData)
      requires BareFrom(1)
      modifies this
      ensures forall p :: At(cells, p) == HeaderCell(d, p, At(old(cells), p))
      ensures borders == old(borders)
      ensures merges == old(merges) + HeaderMerges && title == old(title)
      ensures widths == old(widths) && heights == old(heights)
    {
      WriteRow1(d);
      WriteRow3Notes(d);
      WriteRow3Box();
      WriteRow4(d);
      WriteTitle(d);
    }

    method WriteColumnHeads()
      requires BareFrom(1)
      modifies this
      ensures forall p :: At(cells, p) == ColumnHeadCell(p, At(old(cells), p))
      ensures borders == old(borders)
      ensures merges == old(merges) + Row9Merges && title == old(title)
      ensures widths == old(widths) && heights == old(heights)
    {
      WriteHeadings();
      WriteDayNumbers();
    }

    method WriteFooter(d: ReportData)
      requires BareFrom(24)
      modifies this
      ensures forall p :: At(cells, p) == FooterCell(d, p, At(old(cells), p))
      ensures borders == old(borders)
      ensures merges == old(merges) + FooterMerges(d) && title == old(title)
      ensures widths == old(widths) && heights == old(heights)
    {
      WriteLegend();
      WriteInspectors(d);
      WriteRow27Left(d);
      WriteRow27Right(d);
      WriteRepairLog();
      WritePicture();
    }

    /** Every cell block, with the top rule of row 9 painted between the
        column heads and the items as the generator does. */
    method WriteCells(d: ReportData)
      requires BareFrom(1)
      modifies this
      ensures forall p :: At(cells, p) == FooterCell(d, p, ItemCell(d, p, ColumnHeadCell(p, HeaderCell(d, p, At(old(cells), p)))))
      ensures forall p :: EdgeAt(borders, p) == Step(EdgeAt(old(borders), p), HeaderRule, p)
      ensures merges == old(merges) + HeaderMerges + Row9Merges + FooterMerges(d) && title == old(title)
      ensures widths == old(widths) && heights == old(heights)
    {
      WriteHeader(d);
      WriteColumnHeads();
      Paint(HeaderRule);
      assert BareFrom(24);
      WriteItems(d);
      WriteFooter(d);
    }

    /** The frame plan, the owner box merge and the finishing plan. */
    method DrawBorders()
      requires forall p :: EdgeAt(borders, p) == Step(NoEdges, HeaderRule, p)
      modifies this
      ensures forall p :: At(cells, p) == Merged(OwnerMerge, p, At(old(cells), p))
      ensures forall p :: EdgeAt(borders, p) == FinalEdges(p)
      ensures merges == old(merges) + {OwnerMerge} && title == old(title)
      ensures widths == old(widths) && heights == old(heights)
    {
      PaintAll(FramePlan);
      assert forall p :: EdgeAt(borders, p) == AfterFrame(p);
      Merge(OwnerMerge);
      PaintAll(FinishPlan);
    }
  }

  /** The cells after merging `a`: the covered ones but the anchor are dropped. */
  function MergeCells(cells: map<Pos, Cell>, a: Area): (r: map<Pos, Cell>)
    ensures forall p :: At(r, p) == Merged(a, p, At(cells, p))
  {
    map p | p in cells && !(a.Covers(p) && p != a.Anchor()) :: cells[p]
  }

  /** The borders after merging `a`. */
  function MergeBorders(borders: map<Pos, Edges>, a: Area): (r: map<Pos, Edges>)
    ensures forall p :: EdgeAt(r, p) == MergedEdges(a, p, EdgeAt(borders, p), EdgeAt(borders, a.Anchor()))
  {
    var anchor := EdgeAt(borders, a.Anchor());
    var area := set r, c | a.top <= r <= a.bottom && a.left <= c <= a.right :: (r, c);
    assert forall p :: a.Covers(p) ==> p in area by {
      forall p | a.Covers(p) ensures p in area {
        assert p == (p.0, p.1);
      }
    }
    map p | p in borders.Keys + area :: MergedEdges(a, p, EdgeAt(borders, p), anchor)
  }

  /** The border of `p` once `op` has been painted on the rows above `r` and on
      row `r` left of column `c`. */
  function PaintedUpTo(op: BorderOp, r: int, c: int, p: Pos, e: Edges): Edges {
    var a := op.area;
    if (a.top <= p.0 < r && a.left <= p.1 <= a.right) || (p.0 == r && a.left <= p.1 < c) then Step(e, op, p) else e
  }

  /** A cell of item row `row` once the item is labelled and the first `j`
      records are marked. */
  function RowMarkedUpTo(rs: seq<DayRecord>, j: nat, item: Item, row: int, p: Pos, c: Cell): Cell
    requires j <= |rs|
  {
    if p.0 == row then MarkFold(rs[..j], item.code, p.1, LabelCell(item, p.1, c)) else c
  }

  /** A report is refused exactly when some record's column lies left of A. */
  predicate Refused(d: ReportData) {
    exists i | 0 <= i < |d.records| :: ColumnOf(d.records[i]) < 1
  }

  /** `create_inspection_report`: null where the generator raises, because a
      record's day puts its column left of column A; otherwise the sheet whose
      cells, borders, merges, widths and heights are the report's. */
  method CreateInspectionReport(q: ReportRequest) returns (sheet: Sheet?)
    ensures sheet == null <==> Refused(WithDefaults(q))
    ensures sheet != null ==> fresh(sheet) && sheet.title == SheetTitle
    ensures sheet != null ==> forall p :: At(sheet.cells, p) == ReportCell(WithDefaults(q), p)
    ensures sheet != null ==> forall p :: EdgeAt(sheet.borders, p) == FinalEdges(p)
    ensures sheet != null ==> sheet.merges == ReportMerges(WithDefaults(q))
    ensures sheet != null ==> forall c :: c in sheet.widths <==> 1 <= c <= 70
    ensures sheet != null ==> forall c | 1 <= c <= 70 :: sheet.widths[c] == ColumnWidth(c)
    ensures sheet != null ==> forall r :: r in sheet.heights <==> 1 <= r <= 31
    ensures sheet != null ==> forall r | 1 <= r <= 31 :: sheet.heights[r] == RowHeight(r)
  {
    var d := WithDefaults(q);
    if exists i | 0 <= i < |d.records| :: ColumnOf(d.records[i]) < 1 {
      return null;
    }
    sheet := new Sheet(SheetTitle);
    sheet.SetColumnWidths();
    sheet.SetRowHeights();
    sheet.WriteCells(d);
    sheet.DrawBorders();
  }
}
