/** Cell borders of the inspection report (python_backend/excel_generator_advanced.py).
    Every border statement of the generator either replaces a cell's whole border
    (`cell.border = Border(right=...)`) or rebuilds it from the current one with one
    side drawn or removed. Each statement is applied to a rectangle of cells, in
    program order, so the border of a cell is a fold of those operations, and the
    later operation wins side by side. */
module ReportBorders {

  /** A cell position (row, column), both counted from 1. */
  type Pos = (int, int)

  /** The rectangle of rows top..bottom and columns left..right, inclusive;
      used both for border statements and for merged ranges. */
  datatype Area = Area(top: int, left: int, bottom: int, right: int) {
    predicate Covers(p: Pos) {
      top <= p.0 <= bottom && left <= p.1 <= right
    }
    function Anchor(): Pos {
      (top, left)
    }
  }

  /** Which of the four sides of a cell carry a thin line. */
  datatype Edges = Edges(top: bool, left: bool, bottom: bool, right: bool)

  const NoEdges := Edges(false, false, false, false)

  datatype Side = Top | Left | Bottom | Right

  function Get(e: Edges, s: Side): bool {
    match s
    case Top => e.top
    case Left => e.left
    case Bottom => e.bottom
    case Right => e.right
  }

  function With(e: Edges, s: Side, on: bool): (r: Edges)
    ensures Get(r, s) == on
    ensures forall t :: t != s ==> Get(r, t) == Get(e, t)
  {
    match s
    case Top => e.(top := on)
    case Left => e.(left := on)
    case Bottom => e.(bottom := on)
    case Right => e.(right := on)
  }

  /** One border statement applied over a rectangle. */
  datatype BorderOp =
    | Replace(area: Area, edges: Edges)   // cell.border = Border(<exactly these sides>)
    | Draw(area: Area, side: Side, on: bool) // keep three sides, set or remove one

  /** The operation decides side `s` of the cell at `p`. */
  predicate Writes(op: BorderOp, p: Pos, s: Side) {
    op.area.Covers(p) && (op.Replace? || op.side == s)
  }

  /** What the operation leaves on side `s` where it decides it. */
  function Written(op: BorderOp, s: Side): bool {
    match op
    case Replace(_, edges) => Get(edges, s)
    case Draw(_, _, on) => on
  }

  function Step(e: Edges, op: BorderOp, p: Pos): (r: Edges)
    ensures forall s :: Get(r, s) == if Writes(op, p, s) then Written(op, s) else Get(e, s)
  {
    if !op.area.Covers(p) then e
    else match op
      case Replace(_, edges) => edges
      case Draw(_, side, on) => With(e, side, on)
  }

  /** The border of the cell at `p` after the first `k` operations, starting from `e`. */
  function Run(ops: seq<BorderOp>, k: nat, p: Pos, e: Edges): Edges
    requires k <= |ops|
    decreases k
  {
    if k == 0 then e else Step(Run(ops, k - 1, p, e), ops[k - 1], p)
  }

  /** Later wins: a side ends as the last operation that decides it left it. */
  lemma {:induction false} LastWriterWins(ops: seq<BorderOp>, k: nat, p: Pos, e: Edges, s: Side, j: nat)
    requires j < k <= |ops| && Writes(ops[j], p, s)
    requires forall i | j < i < k :: !Writes(ops[i], p, s)
    ensures Get(Run(ops, k, p, e), s) == Written(ops[j], s)
    decreases k
  {
    if k - 1 > j {
      LastWriterWins(ops, k - 1, p, e, s, j);
    }
  }

  /** A side that no operation decides keeps its starting value. */
  lemma {:induction false} NoWriterKeeps(ops: seq<BorderOp>, k: nat, p: Pos, e: Edges, s: Side)
    requires k <= |ops|
    requires forall i | 0 <= i < k :: !Writes(ops[i], p, s)
    ensures Get(Run(ops, k, p, e), s) == Get(e, s)
    decreases k
  {
    if k > 0 {
      NoWriterKeeps(ops, k - 1, p, e, s);
    }
  }

  /** A cell no operation covers keeps its whole border. */
  lemma {:induction false} Untouched(ops: seq<BorderOp>, k: nat, p: Pos, e: Edges)
    requires k <= |ops|
    requires forall i | 0 <= i < k :: !ops[i].area.Covers(p)
    ensures Run(ops, k, p, e) == e
    decreases k
  {
    if k > 0 {
      Untouched(ops, k - 1, p, e);
    }
  }

  /** What openpyxl does to borders when it merges `a`: every covered cell but the
      anchor is replaced by a fresh cell without borders, and then the cells on
      the rim of the range receive the anchor's sides that face outwards. */
  function MergedEdges(a: Area, p: Pos, own: Edges, anchor: Edges): Edges {
    if !a.Covers(p) || p == a.Anchor() then own
    else Edges(p.0 == a.top && anchor.top, p.1 == a.left && anchor.left,
               p.0 == a.bottom && anchor.bottom, p.1 == a.right && anchor.right)
  }

  // ---------------------------------------------------------------------------
  // The generator's border statements, in program order.
  // ---------------------------------------------------------------------------

  const TopOnly := Edges(true, false, false, false)
  const RightOnly := Edges(false, false, false, true)

  /** The rule above row 9, drawn right after the day numbers. */
  const HeaderRule := Replace(Area(9, 1, 9, 69), TopOnly)

  /** The statements before BN4:BQ5 is merged. */
  const FramePlan: seq<BorderOp> := [
    Draw(Area(10, 1, 24, 69), Top, true),
    Draw(Area(9, 1, 31, 1), Left, true),
    Draw(Area(31, 1, 31, 69), Bottom, true),
    Draw(Area(9, 69, 31, 69), Right, true),
    Draw(Area(10, 1, 23, 1), Right, true),
    Draw(Area(10, 17, 23, 17), Right, true),
    Draw(Area(10, 38, 23, 38), Right, true),
    Draw(Area(2, 38, 2, 64), Bottom, true),
    Draw(Area(3, 38, 3, 64), Bottom, true),
    Draw(Area(5, 38, 5, 64), Bottom, true),
    Draw(Area(2, 38, 2, 38), Bottom, false),
    Draw(Area(3, 38, 5, 38), Right, true),
    Draw(Area(3, 49, 5, 49), Right, true),
    Draw(Area(3, 56, 5, 56), Right, true),
    Draw(Area(3, 60, 5, 60), Right, true),
    Draw(Area(3, 64, 5, 64), Right, true),
    Draw(Area(3, 65, 5, 65), Right, true),
    Draw(Area(3, 69, 5, 69), Right, true),
    Draw(Area(25, 1, 25, 37), Bottom, true),
    Draw(Area(26, 1, 26, 37), Bottom, true),
    Draw(Area(27, 37, 27, 69), Bottom, true),
    Draw(Area(28, 37, 28, 69), Bottom, true),
    Draw(Area(29, 37, 29, 69), Bottom, true),
    Draw(Area(30, 37, 30, 69), Bottom, true),
    Draw(Area(27, 38, 27, 38), Right, true),
    Draw(Area(27, 48, 27, 48), Right, true),
    Draw(Area(27, 58, 27, 58), Right, true),
    Draw(Area(28, 57, 31, 57), Right, true),
    Draw(Area(28, 60, 31, 60), Right, true),
    Draw(Area(28, 63, 31, 63), Right, true),
    Draw(Area(28, 66, 31, 66), Right, true),
    Replace(Area(3, 38, 5, 38), RightOnly),
    Replace(Area(3, 38, 3, 38), RightOnly),
    Draw(Area(3, 1, 4, 1), Left, true),
    Draw(Area(3, 1, 3, 25), Top, true),
    Draw(Area(4, 1, 4, 25), Bottom, true),
    Draw(Area(3, 25, 4, 25), Right, true),
    Draw(Area(2, 66, 2, 69), Bottom, true),
    Draw(Area(3, 66, 3, 69), Bottom, true)
  ]

  /** The range merged in the middle of the border statements (BN4:BQ5). */
  const OwnerMerge := Area(4, 66, 5, 69)

  /** The statements after that merge. */
  const FinishPlan: seq<BorderOp> := [
    Draw(Area(5, 66, 5, 69), Bottom, true),
    Draw(Area(9, 17, 9, 17), Right, true),
    Draw(Area(9, 38, 9, 38), Right, true),
    Draw(Area(9, 38, 26, 68), Right, true),
    Draw(Area(24, 38, 26, 38), Left, true),
    Draw(Area(24, 38, 26, 38), Right, true),
    Draw(Area(26, 38, 26, 69), Bottom, true),
    Draw(Area(24, 7, 25, 7), Right, true),
    Draw(Area(27, 10, 31, 10), Right, true),
    Draw(Area(27, 10, 31, 10), Right, false),
    Draw(Area(27, 36, 31, 36), Right, true)
  ]

  /** The border of a cell once the frame statements have run. */
  function AfterFrame(p: Pos): Edges {
    Run(FramePlan, |FramePlan|, p, Step(NoEdges, HeaderRule, p))
  }

  /** The border of every cell of the finished report. */
  function FinalEdges(p: Pos): Edges {
    Run(FinishPlan, |FinishPlan|, p,
        MergedEdges(OwnerMerge, p, AfterFrame(p), AfterFrame(OwnerMerge.Anchor())))
  }

  // ---------------------------------------------------------------------------
  // What the finished report's borders look like.
  // ---------------------------------------------------------------------------

  lemma PlanSizes()
    ensures |FramePlan| == 39 && |FinishPlan| == 11
  {
  }

  /** BN4 carries no border when it is merged, so the merge copies nothing to its rim. */
  lemma OwnerAnchorBare()
    ensures AfterFrame(OwnerMerge.Anchor()) == NoEdges
  {
    PlanSizes();
    Untouched(FramePlan, |FramePlan|, (4, 66), NoEdges);
  }

  /** Outside BN4:BQ5 the merge leaves the border alone. */
  lemma AfterMergeOutside(p: Pos)
    requires !OwnerMerge.Covers(p)
    ensures MergedEdges(OwnerMerge, p, AfterFrame(p), AfterFrame(OwnerMerge.Anchor())) == AfterFrame(p)
  {
  }

  // Which statements decide which sides, read off the two literal plans.

  lemma LeftFrameWriters(r: int)
    requires 9 <= r <= 31
    ensures forall i | 1 < i < 39 :: !Writes(FramePlan[i], (r, 1), Left)
    ensures forall i | 0 <= i < 11 :: !Writes(FinishPlan[i], (r, 1), Left)
  {
  }

  lemma BottomFrameWriters(c: int)
    requires 1 <= c <= 69
    ensures forall i | 2 < i < 39 :: !Writes(FramePlan[i], (31, c), Bottom)
    ensures forall i | 0 <= i < 11 :: !Writes(FinishPlan[i], (31, c), Bottom)
  {
  }

  lemma RightFrameWriters(r: int)
    requires 9 <= r <= 31
    ensures forall i | 3 < i < 39 :: !Writes(FramePlan[i], (r, 69), Right)
    ensures forall i | 0 <= i < 11 :: !Writes(FinishPlan[i], (r, 69), Right)
  {
  }

  lemma TopRuleWriters(r: int, c: int)
    requires 9 <= r <= 24 && 1 <= c <= 69
    ensures forall i | 0 < i < 39 :: !Writes(FramePlan[i], (r, c), Top)
    ensures r == 9 ==> !Writes(FramePlan[0], (r, c), Top)
    ensures forall i | 0 <= i < 11 :: !Writes(FinishPlan[i], (r, c), Top)
  {
  }

  lemma DayColumnWriters(r: int, c: int)
    requires 9 <= r <= 26 && 38 <= c <= 68 && !(24 <= r && c == 38)
    ensures forall i | 3 < i < 11 :: !Writes(FinishPlan[i], (r, c), Right)
  {
  }

  lemma OwnerRightWriters(r: int)
    requires 3 <= r <= 5
    ensures forall i | 17 < i < 39 :: !Writes(FramePlan[i], (r, 69), Right)
    ensures forall i | 0 <= i < 11 :: !Writes(FinishPlan[i], (r, 69), Right)
  {
  }

  lemma PictureWriters(r: int)
    requires 27 <= r <= 31
    ensures forall i | 9 < i < 11 :: !Writes(FinishPlan[i], (r, 10), Right)
  {
  }

  /** The outer frame of the table A9:BQ31 is closed on all four sides: the rule
      above row 9, the left side of column A, the bottom of row 31 and the right
      side of column BQ. */
  lemma TableFrameTop(c: int)
    requires 1 <= c <= 69
    ensures FinalEdges((9, c)).top
  {
    var p := (9, c);
    PlanSizes();
    AfterMergeOutside(p);
    TopRuleWriters(9, c);
    NoWriterKeeps(FramePlan, |FramePlan|, p, Step(NoEdges, HeaderRule, p), Top);
    NoWriterKeeps(FinishPlan, |FinishPlan|, p, AfterFrame(p), Top);
  }

  lemma FrameDrawnLeft(r: int)
    requires 9 <= r <= 31
    ensures AfterFrame((r, 1)).left
  {
    PlanSizes();
    LeftFrameWriters(r);
    LastWriterWins(FramePlan, |FramePlan|, (r, 1), Step(NoEdges, HeaderRule, (r, 1)), Left, 1);
  }

  lemma TableFrameLeft(r: int)
    requires 9 <= r <= 31
    ensures FinalEdges((r, 1)).left
  {
    FrameDrawnLeft(r);
    PlanSizes();
    LeftFrameWriters(r);
    AfterMergeOutside((r, 1));
    NoWriterKeeps(FinishPlan, |FinishPlan|, (r, 1), AfterFrame((r, 1)), Left);
  }

  lemma FrameDrawnBottom(c: int)
    requires 1 <= c <= 69
    ensures AfterFrame((31, c)).bottom
  {
    PlanSizes();
    BottomFrameWriters(c);
    LastWriterWins(FramePlan, |FramePlan|, (31, c), Step(NoEdges, HeaderRule, (31, c)), Bottom, 2);
  }

  lemma TableFrameBottom(c: int)
    requires 1 <= c <= 69
    ensures FinalEdges((31, c)).bottom
  {
    FrameDrawnBottom(c);
    PlanSizes();
    BottomFrameWriters(c);
    AfterMergeOutside((31, c));
    NoWriterKeeps(FinishPlan, |FinishPlan|, (31, c), AfterFrame((31, c)), Bottom);
  }

  lemma FrameDrawnRight(r: int)
    requires 9 <= r <= 31
    ensures AfterFrame((r, 69)).right
  {
    PlanSizes();
    RightFrameWriters(r);
    LastWriterWins(FramePlan, |FramePlan|, (r, 69), Step(NoEdges, HeaderRule, (r, 69)), Right, 3);
  }

  lemma TableFrameRight(r: int)
    requires 9 <= r <= 31
    ensures FinalEdges((r, 69)).right
  {
    FrameDrawnRight(r);
    PlanSizes();
    RightFrameWriters(r);
    AfterMergeOutside((r, 69));
    NoWriterKeeps(FinishPlan, |FinishPlan|, (r, 69), AfterFrame((r, 69)), Right);
  }

  /** Rows 10 to 24 are separated by rules across the whole table. */
  lemma ItemRowRules(r: int, c: int)
    requires 10 <= r <= 24 && 1 <= c <= 69
    ensures FinalEdges((r, c)).top
  {
    var p := (r, c);
    PlanSizes();
    AfterMergeOutside(p);
    TopRuleWriters(r, c);
    LastWriterWins(FramePlan, |FramePlan|, p, Step(NoEdges, HeaderRule, p), Top, 0);
    NoWriterKeeps(FinishPlan, |FinishPlan|, p, AfterFrame(p), Top);
  }

  /** Every column from AL to BP is closed on its right from row 9 to row 26,
      which separates the day columns. */
  lemma DayColumnRules(r: int, c: int)
    requires 9 <= r <= 26 && 38 <= c <= 68
    ensures FinalEdges((r, c)).right
  {
    var p := (r, c);
    var m := MergedEdges(OwnerMerge, p, AfterFrame(p), AfterFrame(OwnerMerge.Anchor()));
    PlanSizes();
    if 24 <= r && c == 38 {
      LastWriterWins(FinishPlan, |FinishPlan|, p, m, Right, 5);
    } else {
      DayColumnWriters(r, c);
      LastWriterWins(FinishPlan, |FinishPlan|, p, m, Right, 3);
    }
  }

  lemma AL2Writers()
    ensures forall i | 10 < i < 39 :: !Writes(FramePlan[i], (2, 38), Bottom)
    ensures forall i | 0 <= i < 39 :: !Writes(FramePlan[i], (2, 38), Top)
    ensures forall i | 0 <= i < 39 :: !Writes(FramePlan[i], (2, 38), Left)
    ensures forall i | 0 <= i < 39 :: !Writes(FramePlan[i], (2, 38), Right)
    ensures forall i | 0 <= i < 11 :: !FinishPlan[i].area.Covers((2, 38))
  {
  }

  lemma AL2AfterFrame()
    ensures !AfterFrame((2, 38)).bottom && !AfterFrame((2, 38)).top
    ensures !AfterFrame((2, 38)).left && !AfterFrame((2, 38)).right
  {
    var p := (2, 38);
    var e := Step(NoEdges, HeaderRule, p);
    PlanSizes();
    AL2Writers();
    LastWriterWins(FramePlan, |FramePlan|, p, e, Bottom, 10);
    NoWriterKeeps(FramePlan, |FramePlan|, p, e, Top);
    NoWriterKeeps(FramePlan, |FramePlan|, p, e, Left);
    NoWriterKeeps(FramePlan, |FramePlan|, p, e, Right);
  }

  /** AL2 loses the bottom rule drawn along row 2 and ends without any border. */
  lemma AL2Bare()
    ensures FinalEdges((2, 38)) == NoEdges
  {
    AL2AfterFrame();
    PlanSizes();
    AL2Writers();
    AfterMergeOutside((2, 38));
    Untouched(FinishPlan, |FinishPlan|, (2, 38), AfterFrame((2, 38)));
  }

  lemma AL3Writers(r: int)
    requires 3 <= r <= 5
    ensures forall i | (if r == 3 then 32 else 31) < i < 39 :: !FramePlan[i].area.Covers((r, 38))
    ensures forall i | 0 <= i < 11 :: !FinishPlan[i].area.Covers((r, 38))
  {
  }

  /** AL3 to AL5 keep only their right side. */
  lemma AL3ToAL5RightOnly(r: int)
    requires 3 <= r <= 5
    ensures FinalEdges((r, 38)) == RightOnly
  {
    var p := (r, 38);
    var e := Step(NoEdges, HeaderRule, p);
    var j := if r == 3 then 32 else 31;
    PlanSizes();
    AL3Writers(r);
    AfterMergeOutside(p);
    LastWriterWins(FramePlan, |FramePlan|, p, e, Top, j);
    LastWriterWins(FramePlan, |FramePlan|, p, e, Left, j);
    LastWriterWins(FramePlan, |FramePlan|, p, e, Bottom, j);
    LastWriterWins(FramePlan, |FramePlan|, p, e, Right, j);
    Untouched(FinishPlan, |FinishPlan|, p, AfterFrame(p));
  }

  /** Inside the picture area the right rule sits on AJ (column 36), not on J. */
  lemma PictureAreaRightRule(r: int)
    requires 27 <= r <= 31
    ensures !FinalEdges((r, 10)).right
    ensures FinalEdges((r, 36)).right
  {
    var p := (r, 10);
    var q := (r, 36);
    PlanSizes();
    AfterMergeOutside(p);
    AfterMergeOutside(q);
    PictureWriters(r);
    LastWriterWins(FinishPlan, |FinishPlan|, p, AfterFrame(p), Right, 9);
    LastWriterWins(FinishPlan, |FinishPlan|, q, AfterFrame(q), Right, 10);
  }

  /** The right rule drawn on BQ3:BQ5 survives only on BQ3: merging BN4:BQ5
      afterwards replaces BQ4 and BQ5 by fresh cells. */
  lemma OwnerMergeDropsRightRule(r: int)
    requires 3 <= r <= 5
    ensures AfterFrame((r, 69)).right
    ensures FinalEdges((r, 69)).right <==> r == 3
  {
    var p := (r, 69);
    var e := Step(NoEdges, HeaderRule, p);
    PlanSizes();
    OwnerRightWriters(r);
    LastWriterWins(FramePlan, |FramePlan|, p, e, Right, 17);
    OwnerAnchorBare();
    var m := MergedEdges(OwnerMerge, p, AfterFrame(p), AfterFrame(OwnerMerge.Anchor()));
    NoWriterKeeps(FinishPlan, |FinishPlan|, p, m, Right);
  }
}
