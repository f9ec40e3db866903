/**
 * The base template: every team gets one grid cell, a circle outline inset in
 * that cell and a one- or two-line name label under the circle.
 *
 * Floating-point products of the source are integer divisions here:
 * `int(cs * 0.25)` is `cs / 4` exactly; `int(cs * 0.05)` and `int(cs * 0.16)`
 * are `cs / 20` and `cs * 4 / 25`, because the doubles nearest 0.05 and 0.16
 * lie just above the true values and truncation never falls below them.
 *
 * The geometry functions carry no postconditions of their own; what they
 * guarantee is stated by the lemmas next to them, which keeps the proofs that
 * only compute with them small.
 */
module Template {
  import opened Wrappers
  import opened Words
  import opened Fonts
  import opened Drawing
  import opened Registry

  const DefaultCellSize: nat := 115
  const DefaultBackground: Color := "#ffffff"
  const DefaultCircleColor: Color := "#000000"
  /** Padding under the last row, room for its labels. */
  const ExtraBottom: nat := 20
  const OutlineWidth: nat := 3
  /** Vertical gap between the two label lines. */
  const LineSpacing: nat := 2
  const LabelFill: Color := "#000000"

  function CircleMargin(cs: nat): nat { cs / 4 }
  function NameMarginTop(cs: nat): nat { cs / 20 }
  function FontSize(cs: nat): nat { cs * 4 / 25 }

  lemma MulLeftMonotone(a: nat, b: nat, c: nat)
    requires a <= b
    ensures a * c <= b * c
  {
  }

  // ---------------------------------------------------------------- grid

  /** Number of grid rows for `count` teams. */
  function RowCount(count: nat, cols: nat): nat
    requires cols > 0
  {
    (count + cols - 1) / cols
  }

  /** The row count is the ceiling of count / cols: enough rows, and one fewer would not do. */
  lemma RowCountIsCeiling(count: nat, cols: nat)
    requires cols > 0
    ensures RowCount(count, cols) * cols >= count
    ensures RowCount(count, cols) == 0 || (RowCount(count, cols) - 1) * cols < count
  {
    var rows := RowCount(count, cols);
    assert rows * cols + (count + cols - 1) % cols == count + cols - 1;
    assert rows == 0 || (rows - 1) * cols == rows * cols - cols;
  }

  datatype Cell = Cell(row: nat, col: nat)

  /** The cell of the team at position `idx`: row-major order, `cols` cells per row. */
  function CellOf(idx: nat, cols: nat): Cell
    requires cols > 0
  {
    Cell(idx / cols, idx % cols)
  }

  /** The cell of `idx` is in a valid column, and counting cells row by row reaches it at `idx`. */
  lemma CellOfPlacement(idx: nat, cols: nat)
    requires cols > 0
    ensures CellOf(idx, cols).col < cols
    ensures CellOf(idx, cols).row * cols + CellOf(idx, cols).col == idx
  {
  }

  /** Every index below the team count lands in a row of the grid. */
  lemma CellInGrid(idx: nat, count: nat, cols: nat)
    requires cols > 0 && idx < count
    ensures CellOf(idx, cols).col < cols
    ensures CellOf(idx, cols).row < RowCount(count, cols)
  {
    var c, rows := CellOf(idx, cols), RowCount(count, cols);
    CellOfPlacement(idx, cols);
    RowCountIsCeiling(count, cols);
    if rows <= c.row {
      MulLeftMonotone(rows, c.row, cols);
      assert false;
    }
  }

  /** Each cell (row, col) with col < cols belongs to the index row * cols + col. */
  lemma CellOfInverse(row: nat, col: nat, cols: nat)
    requires col < cols
    ensures CellOf(row * cols + col, cols) == Cell(row, col)
  {
    var c := CellOf(row * cols + col, cols);
    CellOfPlacement(row * cols + col, cols);
    if c.row < row {
      MulLeftMonotone(c.row + 1, row, cols);
      assert false;
    } else if c.row > row {
      MulLeftMonotone(row + 1, c.row, cols);
      assert false;
    }
  }

  /** Distinct indices get distinct cells. */
  lemma CellsDistinct(i: nat, j: nat, cols: nat)
    requires cols > 0 && i != j
    ensures CellOf(i, cols) != CellOf(j, cols)
  {
    CellOfPlacement(i, cols);
    CellOfPlacement(j, cols);
  }

  // ---------------------------------------------------------------- circles

  /** The box of the circle drawn in `cell`: inset by the margin on every side. */
  function CircleBox(cell: Cell, cs: nat): Box {
    var m := CircleMargin(cs);
    Box(cell.col * cs + m, cell.row * cs + m, (cell.col + 1) * cs - m, (cell.row * cs + cs) - m)
  }

  /**
   * The circle box is a square of side cs - 2 * margin centred in its cell,
   * and for a positive cell size it is non-empty and inside the cell.
   */
  lemma CircleBoxGeometry(cell: Cell, cs: nat)
    ensures var b := CircleBox(cell, cs);
      && b.x1 - b.x0 == b.y1 - b.y0 == cs - 2 * CircleMargin(cs)
      && b.x0 + b.x1 == (2 * cell.col + 1) * cs
      && b.y0 + b.y1 == (2 * cell.row + 1) * cs
      && (cs > 0 ==> BoxWithin(b, cell.col * cs, cell.row * cs, (cell.col + 1) * cs, (cell.row + 1) * cs))
  {
  }

  /** Every circle lies inside the canvas area above the bottom padding. */
  lemma CircleInCanvas(idx: nat, count: nat, cols: nat, cs: nat)
    requires cols > 0 && idx < count && cs > 0
    ensures BoxWithin(CircleBox(CellOf(idx, cols), cs), 0, 0, cols * cs, RowCount(count, cols) * cs)
  {
    var c := CellOf(idx, cols);
    CellInGrid(idx, count, cols);
    CircleBoxGeometry(c, cs);
    MulLeftMonotone(c.col + 1, cols, cs);
    MulLeftMonotone(c.row + 1, RowCount(count, cols), cs);
  }

  /** The circles of two different teams never overlap: one lies wholly left of or above the other. */
  lemma CirclesDisjoint(i: nat, j: nat, cols: nat, cs: nat)
    requires cols > 0 && cs > 0 && i != j
    ensures var a, b := CircleBox(CellOf(i, cols), cs), CircleBox(CellOf(j, cols), cs);
      a.x1 <= b.x0 || b.x1 <= a.x0 || a.y1 <= b.y0 || b.y1 <= a.y0
  {
    var ci, cj := CellOf(i, cols), CellOf(j, cols);
    CellsDistinct(i, j, cols);
    CircleBoxGeometry(ci, cs);
    CircleBoxGeometry(cj, cs);
    if ci.col < cj.col {
      MulLeftMonotone(ci.col + 1, cj.col, cs);
    } else if cj.col < ci.col {
      MulLeftMonotone(cj.col + 1, ci.col, cs);
    } else if ci.row < cj.row {
      MulLeftMonotone(ci.row + 1, cj.row, cs);
    } else {
      MulLeftMonotone(cj.row + 1, ci.row, cs);
    }
  }

  // ---------------------------------------------------------------- labels

  datatype Label = Label(line1: string, line2: string)

  /**
   * The two label lines of a team name. A name without any word has no label:
   * the source fails there, reading the last word of an empty list.
   */
  function SplitLabel(name: string): (r: Option<Label>)
    ensures r.None? <==> Split(name) == []
    ensures r.Some? ==> (r.value.line2 == "" <==> |Split(name)| == 1)
    ensures |Split(name)| == 1 ==> r == Some(Label(name, ""))
  {
    var words := Split(name);
    if |words| == 1 then Some(Label(name, ""))
    else if |words| == 2 then Some(Label(words[0], words[1]))
    else if words == [] then None
    else Some(Label(Join(words[..|words| - 1]), words[|words| - 1]))
  }

  /**
   * For a name of two or more words, line 1 holds every word but the last,
   * line 2 holds the last word, and the two lines joined by a space split
   * back into the name's words.
   */
  lemma {:induction false} LabelRoundTrip(name: string)
    requires |Split(name)| >= 2
    ensures var ws, l := Split(name), SplitLabel(name).value;
      && Split(l.line1) == ws[..|ws| - 1]
      && l.line2 == ws[|ws| - 1] && Split(l.line2) == [ws[|ws| - 1]]
      && Split(l.line1 + " " + l.line2) == ws
  {
    var ws, l := Split(name), SplitLabel(name).value;
    var n := |ws|;
    var front, last := ws[..n - 1], ws[n - 1];
    assert AllWords(front);
    assert l.line1 == Join(front) && l.line2 == last;
    SplitJoin(front);
    SplitWord(last);
    JoinSnoc(front, last);
    assert front + [last] == ws;
    SplitJoin(ws);
  }

  /** A name made of two words around one space puts one word on each line. */
  lemma LabelAtOneSpace(name: string, p: nat)
    requires OneSpaceAt(name, p)
    ensures SplitLabel(name) == Some(Label(name[..p], name[p + 1..]))
  {
    SplitAtOneSpace(name, p);
  }

  /**
   * A name made of three words around two spaces keeps the first two words,
   * with the space between them, on line 1 and the last word on line 2.
   */
  lemma LabelAtTwoSpaces(name: string, p: nat, q: nat)
    requires TwoSpacesAt(name, p, q)
    ensures SplitLabel(name) == Some(Label(name[..q], name[q + 1..]))
  {
    SplitAtTwoSpaces(name, p, q);
    var ws := [name[..p], name[p + 1..q], name[q + 1..]];
    assert ws[..2] == [name[..p], name[p + 1..q]];
    assert Join(ws[..2]) == name[..p] + " " + name[p + 1..q];
    assert name[..q] == name[..p] + [name[p]] + name[p + 1..q];
  }

  /** "LA Clippers" is labelled "LA" over "Clippers". */
  lemma ClippersLabel()
    ensures SplitLabel("LA Clippers") == Some(Label("LA", "Clippers"))
  {
    assert OneSpaceAt("LA Clippers", 2) by { TeamName12(); }
    LabelAtOneSpace("LA Clippers", 2);
    assert "LA Clippers"[..2] == "LA" && "LA Clippers"[3..] == "Clippers";
  }

  /**
   * "Los Angeles Lakers" is labelled "Los Angeles" over "Lakers". (The name is
   * a parameter so that the label is derived from the lemmas above rather
   * than by unfolding the split letter by letter.)
   */
  lemma LakersLabel(name: string)
    requires name == "Los Angeles Lakers"
    ensures SplitLabel(name) == Some(Label("Los Angeles", "Lakers"))
  {
    assert TwoSpacesAt(name, 3, 11) by { TeamName13(); }
    LabelAtTwoSpaces(name, 3, 11);
    assert name[..11] == "Los Angeles" && name[12..] == "Lakers" by {
      assert name[..11] == "Los" + " " + "Angeles";
    }
  }

  // ---------------------------------------------------------------- one team

  /**
   * The draw operations for the team at position `idx` whose name splits into
   * `lines`: its circle, then label line 1, then line 2 when that line is not
   * empty. Text x positions are doubled (see `Drawing.DrawOp`).
   */
  function TeamOps(lines: Label, idx: nat, cols: nat, cs: nat, circleColor: Color, font: Font, measure: Measure)
    : seq<DrawOp>
    requires cols > 0
  {
    var cell := CellOf(idx, cols);
    var box := CircleBox(cell, cs);
    var centerX2 := (2 * cell.col + 1) * cs;
    var line1Y := box.y1 + NameMarginTop(cs);
    var e1 := measure(font, lines.line1);
    var circle := Ellipse(box, circleColor, OutlineWidth);
    var first := Text(centerX2 - e1.width, 2 * line1Y, lines.line1, LabelFill, font);
    if lines.line2 == "" then [circle, first]
    else
      var e2 := measure(font, lines.line2);
      var line2Y := line1Y + e1.height + LineSpacing;
      [circle, first, Text(centerX2 - e2.width, 2 * line2Y, lines.line2, LabelFill, font)]
  }

  /** `op` is text whose horizontal centre is the centre of `box`. */
  predicate CentredUnder(op: DrawOp, box: Box, measure: Measure) {
    op.Text? && op.x2 + measure(op.font, op.text).width == box.x0 + box.x1
  }

  /**
   * One team draws one circle, outlined in the circle colour, in its cell, then
   * one or two black label lines centred under the circle: line 1 a twentieth
   * of the cell below the circle, line 2 (only when not empty) one line height
   * plus the spacing below line 1.
   */
  lemma TeamOpsShape(lines: Label, idx: nat, cols: nat, cs: nat, circleColor: Color, font: Font, measure: Measure)
    requires cols > 0
    ensures var ops, box := TeamOps(lines, idx, cols, cs, circleColor, font, measure), CircleBox(CellOf(idx, cols), cs);
      && |ops| == (if lines.line2 == "" then 2 else 3)
      && ops[0] == Ellipse(box, circleColor, OutlineWidth)
      && (forall k :: 1 <= k < |ops| ==> CentredUnder(ops[k], box, measure) && ops[k].fill == LabelFill && ops[k].font == font)
      && ops[1].text == lines.line1 && ops[1].y2 == 2 * (box.y1 + NameMarginTop(cs))
      && (|ops| == 3 ==>
            ops[2].text == lines.line2 &&
            ops[2].y2 == ops[1].y2 + 2 * (measure(font, lines.line1).height + LineSpacing))
  {
    CircleBoxGeometry(CellOf(idx, cols), cs);
  }

  // ---------------------------------------------------------------- all teams

  /**
   * The draw operations for the first `k` teams, or the position of the first
   * of them whose name has no word.
   */
  function LayoutOps(teams: seq<Team>, k: nat, cols: nat, cs: nat, circleColor: Color, font: Font, measure: Measure)
    : Result<seq<DrawOp>, nat>
    requires k <= |teams| && cols > 0
    decreases k
  {
    if k == 0 then Success([])
    else
      match LayoutOps(teams, k - 1, cols, cs, circleColor, font, measure)
      case Failure(e) => Failure(e)
      case Success(ops) =>
        match SplitLabel(teams[k - 1].name)
        case None => Failure(k - 1)
        case Some(l) => Success(ops + TeamOps(l, k - 1, cols, cs, circleColor, font, measure))
  }

  /** One more team extends the operations of the teams before it by its own. */
  lemma LayoutOpsStep(teams: seq<Team>, k: nat, cols: nat, cs: nat, circleColor: Color, font: Font, measure: Measure,
                      ops: seq<DrawOp>, lines: Label)
    requires k < |teams| && cols > 0
    requires LayoutOps(teams, k, cols, cs, circleColor, font, measure) == Success(ops)
    requires SplitLabel(teams[k].name) == Some(lines)
    ensures LayoutOps(teams, k + 1, cols, cs, circleColor, font, measure) ==
      Success(ops + TeamOps(lines, k, cols, cs, circleColor, font, measure))
  {
  }

  /** The layout fails exactly when some name has no word, and it reports the first such team. */
  lemma {:induction false} LayoutOpsFailure(teams: seq<Team>, k: nat, cols: nat, cs: nat, circleColor: Color, font: Font, measure: Measure)
    requires k <= |teams| && cols > 0
    ensures var r := LayoutOps(teams, k, cols, cs, circleColor, font, measure);
      && (r.Success? <==> forall i :: 0 <= i < k ==> Split(teams[i].name) != [])
      && (r.Failure? ==>
            r.error < k && Split(teams[r.error].name) == [] &&
            forall i :: 0 <= i < r.error ==> Split(teams[i].name) != [])
  {
    if k > 0 {
      LayoutOpsFailure(teams, k - 1, cols, cs, circleColor, font, measure);
      var prev := LayoutOps(teams, k - 1, cols, cs, circleColor, font, measure);
      var r := LayoutOps(teams, k, cols, cs, circleColor, font, measure);
      if prev.Failure? {
        assert r == prev;
        assert Split(teams[prev.error].name) == [];
      } else if Split(teams[k - 1].name) == [] {
        assert r == Failure(k - 1);
      } else {
        assert r.Success?;
        forall i | 0 <= i < k ensures Split(teams[i].name) != [] {
          if i < k - 1 { assert Split(teams[i].name) != []; }
        }
      }
    }
  }

  /** Once a prefix of the teams fails, every longer prefix fails at the same team. */
  lemma {:induction false} LayoutOpsFailurePersists(teams: seq<Team>, j: nat, k: nat, cols: nat, cs: nat, circleColor: Color, font: Font, measure: Measure)
    requires j <= k <= |teams| && cols > 0
    requires LayoutOps(teams, j, cols, cs, circleColor, font, measure).Failure?
    ensures LayoutOps(teams, k, cols, cs, circleColor, font, measure) == LayoutOps(teams, j, cols, cs, circleColor, font, measure)
    decreases k
  {
    if j < k {
      LayoutOpsFailurePersists(teams, j, k - 1, cols, cs, circleColor, font, measure);
    }
  }

  /** Each team contributes one circle and one or two label lines. */
  lemma {:induction false} LayoutOpsLength(teams: seq<Team>, k: nat, cols: nat, cs: nat, circleColor: Color, font: Font, measure: Measure)
    requires k <= |teams| && cols > 0
    ensures var r := LayoutOps(teams, k, cols, cs, circleColor, font, measure);
      r.Success? ==> 2 * k <= |r.value| <= 3 * k
  {
    if k > 0 {
      LayoutOpsLength(teams, k - 1, cols, cs, circleColor, font, measure);
      var l := SplitLabel(teams[k - 1].name);
      if l.Some? {
        TeamOpsShape(l.value, k - 1, cols, cs, circleColor, font, measure);
      }
    }
  }

  /**
   * Every circle among `ops` is outlined in `circleColor` with the outline
   * width and, for a positive cell size, lies inside the canvas of a grid of
   * `count` teams.
   */
  predicate CirclesInCanvas(ops: seq<DrawOp>, circleColor: Color, count: nat, cols: nat, cs: nat)
    requires cols > 0
  {
    forall op :: op in ops && op.Ellipse? ==>
      && op.outline == circleColor && op.lineWidth == OutlineWidth
      && (cs > 0 ==> BoxWithin(op.box, 0, 0, cols * cs, RowCount(count, cols) * cs))
  }

  lemma CirclesInCanvasAppend(a: seq<DrawOp>, b: seq<DrawOp>, circleColor: Color, count: nat, cols: nat, cs: nat)
    requires cols > 0
    requires CirclesInCanvas(a, circleColor, count, cols, cs) && CirclesInCanvas(b, circleColor, count, cols, cs)
    ensures CirclesInCanvas(a + b, circleColor, count, cols, cs)
  {
  }

  /** The one circle of a team is outlined in the circle colour and lies inside the canvas. */
  lemma TeamOpsCircle(lines: Label, idx: nat, count: nat, cols: nat, cs: nat, circleColor: Color, font: Font, measure: Measure)
    requires idx < count && cols > 0
    ensures CirclesInCanvas(TeamOps(lines, idx, cols, cs, circleColor, font, measure), circleColor, count, cols, cs)
  {
    var t := TeamOps(lines, idx, cols, cs, circleColor, font, measure);
    TeamOpsShape(lines, idx, cols, cs, circleColor, font, measure);
    if cs > 0 { CircleInCanvas(idx, count, cols, cs); }
    assert forall k :: 1 <= k < |t| ==> t[k].Text?;
  }

  /** Every circle of a successful layout has the requested colour and outline width and lies inside the canvas. */
  lemma {:induction false} LayoutOpsCircles(teams: seq<Team>, k: nat, cols: nat, cs: nat, circleColor: Color, font: Font, measure: Measure)
    requires k <= |teams| && cols > 0
    ensures var r := LayoutOps(teams, k, cols, cs, circleColor, font, measure);
      r.Success? ==> CirclesInCanvas(r.value, circleColor, |teams|, cols, cs)
  {
    if k > 0 && LayoutOps(teams, k, cols, cs, circleColor, font, measure).Success? {
      LayoutOpsCircles(teams, k - 1, cols, cs, circleColor, font, measure);
      var prev := LayoutOps(teams, k - 1, cols, cs, circleColor, font, measure).value;
      var l := SplitLabel(teams[k - 1].name).value;
      var t := TeamOps(l, k - 1, cols, cs, circleColor, font, measure);
      LayoutOpsStep(teams, k - 1, cols, cs, circleColor, font, measure, prev, l);
      TeamOpsCircle(l, k - 1, |teams|, cols, cs, circleColor, font, measure);
      CirclesInCanvasAppend(prev, t, circleColor, |teams|, cols, cs);
    }
  }

  /** The tail of a prefix from `lo` is the same stretch of the longer sequence. */
  lemma PrefixSlice<T>(a: seq<T>, b: seq<T>, lo: nat)
    requires a <= b && lo <= |a|
    ensures b[lo..|a|] == a[lo..]
  {
  }

  /** When every name has at least two words, the layout succeeds with three operations per team. */
  lemma {:induction false} LayoutOpsThreeEach(teams: seq<Team>, k: nat, cols: nat, cs: nat, circleColor: Color, font: Font, measure: Measure)
    requires k <= |teams| && cols > 0
    requires forall j :: 0 <= j < |teams| ==> |Split(teams[j].name)| >= 2
    ensures var r := LayoutOps(teams, k, cols, cs, circleColor, font, measure);
      r.Success? && |r.value| == 3 * k
  {
    if k > 0 {
      LayoutOpsThreeEach(teams, k - 1, cols, cs, circleColor, font, measure);
      var l := SplitLabel(teams[k - 1].name);
      assert l.Some? && l.value.line2 != "";
      var prev := LayoutOps(teams, k - 1, cols, cs, circleColor, font, measure).value;
      var t := TeamOps(l.value, k - 1, cols, cs, circleColor, font, measure);
      TeamOpsShape(l.value, k - 1, cols, cs, circleColor, font, measure);
      assert LayoutOps(teams, k, cols, cs, circleColor, font, measure) == Success(prev + t);
      assert |prev + t| == |prev| + 3;
    }
  }

  /** A successful layout of `k` teams extends the layout of every shorter prefix of them. */
  lemma {:induction false} LayoutOpsPrefix(teams: seq<Team>, j: nat, k: nat, cols: nat, cs: nat, circleColor: Color, font: Font, measure: Measure)
    requires j <= k <= |teams| && cols > 0
    requires LayoutOps(teams, k, cols, cs, circleColor, font, measure).Success?
    ensures LayoutOps(teams, j, cols, cs, circleColor, font, measure).Success?
    ensures LayoutOps(teams, j, cols, cs, circleColor, font, measure).value <= LayoutOps(teams, k, cols, cs, circleColor, font, measure).value
  {
    if j < k {
      var prev := LayoutOps(teams, k - 1, cols, cs, circleColor, font, measure);
      assert prev.Success?;
      LayoutOpsPrefix(teams, j, k - 1, cols, cs, circleColor, font, measure);
    }
  }

  /** The operations of team `i` close the layout of the first `i + 1` teams. */
  lemma LayoutOpsLastTriple(teams: seq<Team>, i: nat, cols: nat, cs: nat, circleColor: Color, font: Font, measure: Measure)
    requires i < |teams| && cols > 0
    requires forall j :: 0 <= j < |teams| ==> |Split(teams[j].name)| >= 2
    ensures var r := LayoutOps(teams, i + 1, cols, cs, circleColor, font, measure);
      && r.Success? && |r.value| == 3 * i + 3
      && r.value[3 * i..] == TeamOps(SplitLabel(teams[i].name).value, i, cols, cs, circleColor, font, measure)
  {
    LayoutOpsThreeEach(teams, i, cols, cs, circleColor, font, measure);
    var before := LayoutOps(teams, i, cols, cs, circleColor, font, measure).value;
    var l := SplitLabel(teams[i].name).value;
    var t := TeamOps(l, i, cols, cs, circleColor, font, measure);
    LayoutOpsStep(teams, i, cols, cs, circleColor, font, measure, before, l);
    TeamOpsShape(l, i, cols, cs, circleColor, font, measure);
    assert (before + t)[|before|..] == t;
  }

  /**
   * When every name has at least two words, team `i`'s operations sit at
   * positions 3i, 3i+1 and 3i+2 of the layout.
   */
  lemma LayoutOpsTriple(teams: seq<Team>, k: nat, i: nat, cols: nat, cs: nat, circleColor: Color, font: Font, measure: Measure)
    requires i < k <= |teams| && cols > 0
    requires forall j :: 0 <= j < |teams| ==> |Split(teams[j].name)| >= 2
    ensures var r := LayoutOps(teams, k, cols, cs, circleColor, font, measure);
      && r.Success? && 3 * i + 3 <= |r.value|
      && r.value[3 * i..3 * i + 3] == TeamOps(SplitLabel(teams[i].name).value, i, cols, cs, circleColor, font, measure)
  {
    LayoutOpsThreeEach(teams, k, cols, cs, circleColor, font, measure);
    LayoutOpsLastTriple(teams, i, cols, cs, circleColor, font, measure);
    LayoutOpsPrefix(teams, i + 1, k, cols, cs, circleColor, font, measure);
    PrefixSlice(LayoutOps(teams, i + 1, cols, cs, circleColor, font, measure).value,
                LayoutOps(teams, k, cols, cs, circleColor, font, measure).value, 3 * i);
  }

  /**
   * When every name has at least two words, the whole layout succeeds, each
   * team contributes exactly three operations and team `i`'s are at positions
   * 3i, 3i+1 and 3i+2.
   */
  lemma LayoutOpsInTriples(teams: seq<Team>, cols: nat, cs: nat, circleColor: Color, font: Font, measure: Measure)
    requires cols > 0
    requires forall j :: 0 <= j < |teams| ==> |Split(teams[j].name)| >= 2
    ensures var r := LayoutOps(teams, |teams|, cols, cs, circleColor, font, measure);
      && r.Success? && |r.value| == 3 * |teams|
      && forall i :: 0 <= i < |teams| ==>
           r.value[3 * i..3 * i + 3] == TeamOps(SplitLabel(teams[i].name).value, i, cols, cs, circleColor, font, measure)
  {
    LayoutOpsThreeEach(teams, |teams|, cols, cs, circleColor, font, measure);
    forall i | 0 <= i < |teams|
      ensures LayoutOps(teams, |teams|, cols, cs, circleColor, font, measure).value[3 * i..3 * i + 3] ==
        TeamOps(SplitLabel(teams[i].name).value, i, cols, cs, circleColor, font, measure)
    {
      LayoutOpsTriple(teams, |teams|, i, cols, cs, circleColor, font, measure);
    }
  }

  /** The template the source renders for a team list, column count and cell size. */
  function Template(teams: seq<Team>, cols: nat, cs: nat, bgColor: Color, circleColor: Color,
                    loads: string -> bool, measure: Measure): Result<Canvas, nat>
    requires cols > 0
  {
    var font := TemplateFont(FontSize(cs), loads);
    var width: nat := cols * cs;
    var height: nat := RowCount(|teams|, cols) * cs + ExtraBottom;
    match LayoutOps(teams, |teams|, cols, cs, circleColor, font, measure)
    case Failure(i) => Failure(i)
    case Success(ops) => Success(Canvas(RGB, width, height, bgColor, ops))
  }

  /**
   * Draws one team: its circle inset in the cell, line 1 of its label a
   * twentieth of the cell below the circle, and line 2 below that when it is
   * not empty, both centred on the circle.
   */
  method DrawTeam(lines: Label, idx: nat, cols: nat, cellSize: nat, circleColor: Color, font: Font, measure: Measure)
    returns (teamOps: seq<DrawOp>)
    requires cols > 0
    ensures teamOps == TeamOps(lines, idx, cols, cellSize, circleColor, font, measure)
  {
    var row := idx / cols;
    var col := idx % cols;
    var circleMargin := cellSize / 4;
    var nameMarginTop := cellSize / 20;

    var x0 := col * cellSize + circleMargin;
    var y0 := row * cellSize + circleMargin;
    var x1 := (col + 1) * cellSize - circleMargin;
    var y1 := (row * cellSize + cellSize) - circleMargin;
    teamOps := [Ellipse(Box(x0, y0, x1, y1), circleColor, OutlineWidth)];

    var centerX2 := (2 * col + 1) * cellSize;
    var e1 := measure(font, lines.line1);
    var line1Y := y1 + nameMarginTop;
    teamOps := teamOps + [Text(centerX2 - e1.width, 2 * line1Y, lines.line1, LabelFill, font)];

    if lines.line2 != "" {
      var e2 := measure(font, lines.line2);
      var line2Y := line1Y + e1.height + LineSpacing;
      teamOps := teamOps + [Text(centerX2 - e2.width, 2 * line2Y, lines.line2, LabelFill, font)];
    }
  }

  /**
   * Renders the template: one pass over the teams in order, appending each
   * team's circle and label lines to the canvas's draw operations. Fails with
   * the position of the first team whose name has no word.
   */
  method BuildBaseTemplate(teams: seq<Team>, cols: nat, cellSize: nat, bgColor: Color, circleColor: Color,
                           loads: string -> bool, measure: Measure)
    returns (r: Result<Canvas, nat>)
    requires cols > 0
    ensures r == Template(teams, cols, cellSize, bgColor, circleColor, loads, measure)
  {
    var rows: nat := (|teams| + cols - 1) / cols;
    var width: nat := cols * cellSize;
    var height: nat := rows * cellSize;
    var extraBottom := 20;
    var ops: seq<DrawOp> := [];

    var fontName := TemplateFont(cellSize * 4 / 25, loads);
    assert rows == RowCount(|teams|, cols) && fontName == TemplateFont(FontSize(cellSize), loads);

    for idx := 0 to |teams|
      invariant LayoutOps(teams, idx, cols, cellSize, circleColor, fontName, measure) == Success(ops)
    {
      var lines := SplitLabel(teams[idx].name);
      if lines.None? {
        // `words[-1]` of an empty list raises; the image is lost.
        LayoutOpsFailurePersists(teams, idx + 1, |teams|, cols, cellSize, circleColor, fontName, measure);
        return Failure(idx);
      }
      var teamOps := DrawTeam(lines.value, idx, cols, cellSize, circleColor, fontName, measure);
      LayoutOpsStep(teams, idx, cols, cellSize, circleColor, fontName, measure, ops, lines.value);
      ops := ops + teamOps;
    }
    r := Success(Canvas(RGB, width, height + extraBottom, bgColor, ops));
  }

  // ---------------------------------------------------------------- shipped data

  /**
   * With the shipped catalogue the template never fails: its canvas is
   * (6 * cs, 5 * cs + 20), and team `i` contributes its circle and two label
   * lines as operations 3i to 3i+2.
   */
  lemma ShippedTemplate(cs: nat, bgColor: Color, circleColor: Color, loads: string -> bool, measure: Measure)
    ensures Template(Teams, NumCols, cs, bgColor, circleColor, loads, measure).Success?
    ensures forall i :: 0 <= i < |Teams| ==> SplitLabel(Teams[i].name).Some?
    ensures var c := Template(Teams, NumCols, cs, bgColor, circleColor, loads, measure).value;
      c.width == 6 * cs && c.height == 5 * cs + 20 && |c.ops| == 90
    ensures var c := Template(Teams, NumCols, cs, bgColor, circleColor, loads, measure).value;
      forall i :: 0 <= i < 30 ==>
        c.ops[3 * i..3 * i + 3] ==
        TeamOps(SplitLabel(Teams[i].name).value, i, 6, cs, circleColor, TemplateFont(FontSize(cs), loads), measure)
  {
    GridIsFull();
    NamesHaveTwoOrThreeWords();
    LayoutOpsInTriples(Teams, NumCols, cs, circleColor, TemplateFont(FontSize(cs), loads), measure);
    assert RowCount(30, 6) == 5;
  }
}
