/** Combat areas as matrices around a centre, and the copies that turn and reflect them. */
module AreaMatrix {
  import opened Numbers
  import opened AreaShape

  datatype MatrixOperation = COPY | MIRROR | FLIP | ROTATE(turn: Rotation)

  class MatrixArea {
    var centerX: int
    var centerY: int
    const data: array2<bool>

    constructor (rows: nat, cols: nat)
      ensures data.Length0 == rows && data.Length1 == cols && fresh(data)
      ensures centerX == 0 && centerY == 0 && Blank()
    {
      centerX, centerY := 0, 0;
      data := new bool[rows, cols]((_, _) => false);
    }

    ghost predicate Blank()
      reads data
    {
      forall r, c {:trigger data[r, c]} | 0 <= r < data.Length0 && 0 <= c < data.Length1 :: !data[r, c]
    }

    // Whether the cell at an offset from the centre is set.
    ghost predicate Has(v: Offset)
      reads this, data
    {
      && 0 <= centerY + v.dy < data.Length0 && 0 <= centerX + v.dx < data.Length1
      && data[centerY + v.dy, centerX + v.dx]
    }

    // The offsets of the cells that are set.
    ghost function Cells(): Shape
      reads this, data
    {
      set r, c | 0 <= r < data.Length0 && 0 <= c < data.Length1 && data[r, c] :: Offset(c - centerX, r - centerY)
    }

    lemma CellsHave(v: Offset)
      ensures v in Cells() <==> Has(v)
    {
    }

    // The centre lies on a cell, or there are no cells.
    ghost predicate Centred()
      reads this
    {
      data.Length0 == 0 || data.Length1 == 0 || (0 <= centerY < data.Length0 && 0 <= centerX < data.Length1)
    }
  }

  // The shape an operation makes of another, whose matrix has `off` more columns than rows.
  function Derived(op: MatrixOperation, shape: Shape, off: int): Shape {
    match op
    case COPY => shape
    case MIRROR => Mirrored(shape, off)
    case FLIP => Flipped(shape, -off)
    case ROTATE(turn) => Turned(turn, shape)
  }

  // The shapes of the four diagonals.
  datatype Corners = Corners(northWest: Shape, northEast: Shape, southWest: Shape, southEast: Shape)

  // What the reflections make of the north-west shape.
  function Diagonals(nw: Shape, off: int): Corners {
    Corners(nw, Derived(MIRROR, nw, off), Derived(FLIP, nw, off), Derived(MIRROR, Derived(FLIP, nw, off), 0))
  }

  /** The mirror image and the flip are right exactly when the matrix is square, or has no cell. */
  lemma DiagonalsRightIff(nw: Shape, off: int)
    ensures Diagonals(nw, off).northEast == Mirrored(nw, 0) <==> off == 0 || nw == {}
    ensures Diagonals(nw, off).southWest == Flipped(nw, 0) <==> off == 0 || nw == {}
    ensures Diagonals(nw, off).southEast == Mirrored(Flipped(nw, 0), 0) <==> off == 0 || nw == {}
  {
    MirrorRightIff(nw, off);
    FlipRightIff(nw, -off);
    if Mirrored(Flipped(nw, -off), 0) == Mirrored(Flipped(nw, 0), 0) {
      MirroredOnce(Flipped(nw, -off), Flipped(nw, 0));
    }
  }

  // Different shapes have different mirror images.
  lemma MirroredOnce(a: Shape, b: Shape)
    requires Mirrored(a, 0) == Mirrored(b, 0)
    ensures a == b
  {
    forall v ensures v in a <==> v in b {
      MirroredHas(a, v);
      MirroredHas(b, v);
    }
  }

  lemma MirroredHas(a: Shape, v: Offset)
    ensures v in a <==> Offset(-v.dx, v.dy) in Mirrored(a, 0)
  {
    if Offset(-v.dx, v.dy) in Mirrored(a, 0) {
      var u :| u in a && Offset(-u.dx, u.dy) == Offset(-v.dx, v.dy);
    }
  }

  // The shape that a list stands for, around a centre.
  ghost function ListShape(list: seq<nat>, rows: nat, cols: nat, cy: int, cx: int): Shape {
    set r, c | 0 <= r < rows && 0 <= c < cols && Listed(list, cols, r, c) :: Offset(c - cx, r - cy)
  }

  lemma ShapeHas(list: seq<nat>, rows: nat, cols: nat, cy: int, cx: int, v: Offset)
    ensures v in ListShape(list, rows, cols, cy, cx) <==>
      0 <= v.dy + cy < rows && 0 <= v.dx + cx < cols && Listed(list, cols, v.dy + cy, v.dx + cx)
  {
    if 0 <= v.dy + cy < rows && 0 <= v.dx + cx < cols {
      assert v == Offset((v.dx + cx) - cx, (v.dy + cy) - cy);
    }
  }

  lemma TwoMirrored(a: Offset, b: Offset, off: int)
    ensures Mirrored({a, b}, off) == {Offset(off - a.dx, a.dy), Offset(off - b.dx, b.dy)}
  {
  }

  lemma TwoCells(list: seq<nat>)
    requires list == [1, 3]
    ensures ListShape(list, 1, 2, 0, 1) == {Offset(-1, 0), Offset(0, 0)}
  {
    forall v ensures v in ListShape(list, 1, 2, 0, 1) <==> v in {Offset(-1, 0), Offset(0, 0)} {
      ShapeHas(list, 1, 2, 0, 1, v);
    }
  }

  /** One row of two cells, with the centre on the second: its mirror image ends up one cell too far east. */
  lemma TwoCellsMirrored(list: seq<nat>, nw: Shape)
    requires list == [1, 3] && nw == ListShape(list, 1, 2, 0, 1)
    ensures Mirrored(nw, 0) == {Offset(1, 0), Offset(0, 0)}
    ensures Diagonals(nw, 2 - 1).northEast == {Offset(2, 0), Offset(1, 0)} != Mirrored(nw, 0)
  {
    TwoCells(list);
    TwoMirrored(Offset(-1, 0), Offset(0, 0), 0);
    TwoMirrored(Offset(-1, 0), Offset(0, 0), 1);
    DiagonalsRightIff(nw, 1);
  }

  datatype Direction = NORTH | EAST | SOUTH | WEST | SOUTHWEST | SOUTHEAST | NORTHWEST | NORTHEAST

  // The direction of a target at an offset from the caster.
  function Facing(dx: int, dy: int, ext: bool): Direction {
    if ext && dx < 0 && dy < 0 then NORTHWEST
    else if ext && dx > 0 && dy < 0 then NORTHEAST
    else if ext && dx < 0 && dy > 0 then SOUTHWEST
    else if ext && dx > 0 && dy > 0 then SOUTHEAST
    else if dx < 0 then WEST
    else if dx > 0 then EAST
    else if dy < 0 then NORTH
    else SOUTH
  }

  // Which way a direction points, with y growing to the south.
  function Heading(d: Direction): Offset {
    match d
    case NORTH => Offset(0, -1)
    case EAST => Offset(1, 0)
    case SOUTH => Offset(0, 1)
    case WEST => Offset(-1, 0)
    case SOUTHWEST => Offset(-1, 1)
    case SOUTHEAST => Offset(1, 1)
    case NORTHWEST => Offset(-1, -1)
    case NORTHEAST => Offset(1, -1)
  }

  function SignOf(x: int): int {
    if x < 0 then -1 else if x > 0 then 1 else 0
  }

  /** The direction used points at the target: on both axes where there are diagonal areas, and else on
      the x axis before the y axis. A target on the caster's own tile counts as south. */
  lemma FacingPointsAtTarget(dx: int, dy: int, ext: bool)
    requires dx != 0 || dy != 0
    ensures Heading(Facing(dx, dy, ext)).dx == SignOf(dx)
    ensures Heading(Facing(dx, dy, ext)).dy == if dx == 0 || ext then SignOf(dy) else 0
    ensures Facing(0, 0, ext) == SOUTH
  {
  }

  /** The areas of the four directions are the north area turned as its heading turns, and those of the
      diagonals are reflected as theirs. */
  lemma HeadingsTurn()
    ensures Turn(Quarter, Heading(NORTH)) == Heading(EAST)
    ensures Turn(Half, Heading(NORTH)) == Heading(SOUTH)
    ensures Turn(ThreeQuarters, Heading(NORTH)) == Heading(WEST)
    ensures Mirrored({Heading(NORTHWEST)}, 0) == {Heading(NORTHEAST)}
    ensures Flipped({Heading(NORTHWEST)}, 0) == {Heading(SOUTHWEST)}
    ensures Mirrored(Flipped({Heading(NORTHWEST)}, 0), 0) == {Heading(SOUTHEAST)}
  {
  }

  /** Of the values of a list 1 and 3 are cells, and 2 and 3 the centre; the last centre counts. */
  lemma ValuesOfAList(list: seq<nat>)
    requires list == [0, 1, 2, 3, 4]
    ensures forall c: nat | c < 5 :: Listed(list, 5, 0, c) <==> c == 1 || c == 3
    ensures forall cy: int, cx: int :: CentreAt(list, 5, 5, cy, cx) <==> cy == 0 && cx == 3
    ensures forall cy: int, cx: int :: CentreAt(list, 5, 3, cy, cx) <==> cy == 0 && cx == 2
    ensures CentreAt(list, 5, 2, 0, 0)
  {
    forall cy: int, cx: int | CentreAt(list, 5, 5, cy, cx) ensures cy == 0 && cx == 3 {
      assert Central(list[3]);
    }
    forall cy: int, cx: int | CentreAt(list, 5, 3, cy, cx) ensures cy == 0 && cx == 2 {
      assert Central(list[2]);
    }
    assert Central(list[2]) && Central(list[3]) && !Central(list[0]) && !Central(list[1]) && !Central(list[4]);
    assert 0 * 5 + 3 == 3 && 0 * 5 + 2 == 2;
  }

  // What an area list says about the cell at row r and column c: 1 and 3 are cells.
  predicate Listed(list: seq<nat>, cols: nat, r: nat, c: nat) {
    var i := r * cols + c;
    i < |list| && (list[i] == 1 || list[i] == 3)
  }

  // 2 and 3 mark the centre; the last one counts, and without one it is the first cell.
  predicate CentreAt(list: seq<nat>, cols: nat, k: nat, cy: int, cx: int)
    requires k <= |list|
  {
    || (cy == 0 && cx == 0 && forall i | 0 <= i < k :: !Central(list[i]))
    || (cy >= 0 && 0 <= cx < cols && 0 <= cy * cols + cx < k && Central(list[cy * cols + cx])
        && forall i | cy * cols + cx < i < k :: !Central(list[i]))
  }

  predicate Central(value: nat) {
    value == 2 || value == 3
  }

  // The k-th value of a list stands at row y and column x.
  predicate Position(k: int, y: int, x: int, cols: int) {
    0 <= y && 0 <= x < cols && y * cols + x == k
  }

  lemma NextPosition(k: int, y: int, x: int, cols: int)
    requires Position(k, y, x, cols)
    ensures if x + 1 == cols then Position(k + 1, y + 1, 0, cols) else Position(k + 1, y, x + 1, cols)
  {
  }

  // With every row full the position is past the last row, and before that it is inside.
  lemma RowInside(k: int, y: int, x: int, rows: int, cols: int, size: int)
    requires Position(k, y, x, cols) && size == rows * cols
    ensures k < size <==> y < rows
    ensures k == size ==> y == rows && x == 0
  {
    var d := y - rows;
    assert d * cols == y * cols - rows * cols;
    assert d >= 1 ==> d * cols >= cols;
    assert d <= -1 ==> d * cols <= -cols;
  }

  lemma CentreStep(list: seq<nat>, cols: nat, k: nat, cy: int, cx: int, y: int, x: int)
    requires k < |list| && CentreAt(list, cols, k, cy, cx) && Position(k, y, x, cols)
    ensures if Central(list[k]) then CentreAt(list, cols, k + 1, y, x) else CentreAt(list, cols, k + 1, cy, cx)
  {
  }

  lemma ListedHere(list: seq<nat>, cols: nat, k: nat, y: int, x: int)
    requires k < |list| && Position(k, y, x, cols)
    ensures Listed(list, cols, y, x) == (list[k] == 1 || list[k] == 3)
  {
  }

  // A cell is copied to where the operation puts it, seen from the output's centre.
  lemma CellsTurned(input: MatrixArea, output: MatrixArea, r: Rotation)
    requires forall v: Offset {:trigger output.Has(v)} :: output.Has(v) == input.Has(Turn(Back(r), v))
    ensures output.Cells() == Turned(r, input.Cells())
  {
    forall v | v in output.Cells() ensures v in Turned(r, input.Cells()) {
      output.CellsHave(v);
      input.CellsHave(Turn(Back(r), v));
      TurnBack(r, v);
    }
    forall v | v in Turned(r, input.Cells()) ensures v in output.Cells() {
      var u :| u in input.Cells() && v == Turn(r, u);
      TurnBack(r, u);
      input.CellsHave(u);
      output.CellsHave(v);
    }
  }

  lemma CellsReflected(input: MatrixArea, output: MatrixArea, off: int)
    requires forall v: Offset {:trigger output.Has(v)} :: output.Has(v) == input.Has(Offset(off - v.dx, v.dy))
    ensures output.Cells() == Mirrored(input.Cells(), off)
  {
    forall v | v in output.Cells() ensures v in Mirrored(input.Cells(), off) {
      output.CellsHave(v);
      input.CellsHave(Offset(off - v.dx, v.dy));
      assert v == Offset(off - Offset(off - v.dx, v.dy).dx, v.dy);
    }
    forall v | v in Mirrored(input.Cells(), off) ensures v in output.Cells() {
      var u :| u in input.Cells() && v == Offset(off - u.dx, u.dy);
      assert u == Offset(off - v.dx, v.dy);
      input.CellsHave(u);
      output.CellsHave(v);
    }
  }

  lemma CellsUpended(input: MatrixArea, output: MatrixArea, off: int)
    requires forall v: Offset {:trigger output.Has(v)} :: output.Has(v) == input.Has(Offset(v.dx, off - v.dy))
    ensures output.Cells() == Flipped(input.Cells(), off)
  {
    forall v | v in output.Cells() ensures v in Flipped(input.Cells(), off) {
      output.CellsHave(v);
      input.CellsHave(Offset(v.dx, off - v.dy));
      assert v == Offset(v.dx, off - Offset(v.dx, off - v.dy).dy);
    }
    forall v | v in Flipped(input.Cells(), off) ensures v in output.Cells() {
      var u :| u in input.Cells() && v == Offset(u.dx, off - u.dy);
      assert u == Offset(v.dx, off - v.dy);
      input.CellsHave(u);
      output.CellsHave(v);
    }
  }

  lemma SameCells(input: MatrixArea, output: MatrixArea)
    requires forall v: Offset {:trigger output.Has(v)} :: output.Has(v) == input.Has(v)
    ensures output.Cells() == input.Cells()
  {
    forall v: Offset ensures v in output.Cells() <==> v in input.Cells() {
      output.CellsHave(v);
      input.CellsHave(v);
    }
  }

  class AreaCombat {
    var areas: map<Direction, MatrixArea>
    var hasExtArea: bool

    constructor ()
      ensures areas == map[] && !hasExtArea
    {
      areas, hasExtArea := map[], false;
    }

    // The columns before x, and the rows before y of column x, have been written.
    static ghost predicate Written(input: MatrixArea, output: MatrixArea, turn: Rotation, cx: int, cy: int, x: int,
                                   y: int)
      reads input, input.data, output.data
    {
      forall r, c {:trigger output.data[r, c]} | 0 <= r < output.data.Length0 && 0 <= c < output.data.Length1 ::
        output.data[r, c] == Source(input, turn, r - cy, c - cx, x, y)
    }

    // What the cell at an offset of the output holds by then.
    static ghost predicate Source(input: MatrixArea, turn: Rotation, dy: int, dx: int, x: int, y: int)
      reads input, input.data
    {
      var u := Turn(Back(turn), Offset(dx, dy));
      var sx, sy := input.centerX + u.dx, input.centerY + u.dy;
      && 0 <= sy < input.data.Length0 && 0 <= sx < input.data.Length1
      && (sx < x || (sx == x && sy < y))
      && input.data[sy, sx]
    }

    // The two matrices and the room a turn needs.
    static ghost predicate Fits(input: MatrixArea, output: MatrixArea)
      reads input
    {
      && input.Centred() && input != output && input.data != output.data
      && var side := 2 * Max(input.data.Length0, input.data.Length1);
         output.data.Length0 == side && output.data.Length1 == side
    }

    // One rotated write: it lands inside the output.
    static method WriteCell(input: MatrixArea, output: MatrixArea, turn: Rotation, x: int, y: int, rotateCenterX: int,
                            rotateCenterY: int)
      requires Fits(input, output) && 0 <= y < input.data.Length0 && 0 <= x < input.data.Length1
      requires rotateCenterX == rotateCenterY == Max(input.data.Length0, input.data.Length1) - 1
      requires Written(input, output, turn, rotateCenterX, rotateCenterY, x, y)
      modifies output.data
      ensures Written(input, output, turn, rotateCenterX, rotateCenterY, x, y + 1)
    {
      var v := Turn(turn, Offset(x - input.centerX, y - input.centerY));
      TurnBack(turn, Offset(x - input.centerX, y - input.centerY));
      var r, c := v.dy + rotateCenterY, v.dx + rotateCenterX;
      output.data[r, c] := input.data[y, x];
      forall i, j | 0 <= i < output.data.Length0 && 0 <= j < output.data.Length1
        ensures output.data[i, j] == Source(input, turn, i - rotateCenterY, j - rotateCenterX, x, y + 1)
      {
        if i != r || j != c {
          assert output.data[i, j] == old(Source(input, turn, i - rotateCenterY, j - rotateCenterX, x, y));
          OtherSource(input, turn, Offset(j - rotateCenterX, i - rotateCenterY), v, x, y);
        } else {
          OwnSource(input, turn, v, x, y);
        }
      }
    }

    static lemma OwnSource(input: MatrixArea, turn: Rotation, v: Offset, x: int, y: int)
      requires v == Turn(turn, Offset(x - input.centerX, y - input.centerY))
      requires 0 <= y < input.data.Length0 && 0 <= x < input.data.Length1
      ensures Source(input, turn, v.dy, v.dx, x, y + 1) == input.data[y, x]
    {
      TurnBack(turn, Offset(x - input.centerX, y - input.centerY));
    }

    // Only the cell that (x, y) is turned to has it as its source.
    static lemma OtherSource(input: MatrixArea, turn: Rotation, u: Offset, v: Offset, x: int, y: int)
      requires v == Turn(turn, Offset(x - input.centerX, y - input.centerY)) && u != v
      ensures Source(input, turn, u.dy, u.dx, x, y + 1) == Source(input, turn, u.dy, u.dx, x, y)
    {
      TurnBack(turn, u);
    }

    static lemma ColumnWritten(input: MatrixArea, output: MatrixArea, turn: Rotation, cx: int, cy: int, x: int)
      requires Written(input, output, turn, cx, cy, x, input.data.Length0)
      ensures Written(input, output, turn, cx, cy, x + 1, 0)
    {
    }

    static lemma CellWritten(input: MatrixArea, output: MatrixArea, turn: Rotation, v: Offset)
      requires Fits(input, output)
      requires output.centerX == output.centerY == Max(input.data.Length0, input.data.Length1) - 1
      requires Written(input, output, turn, output.centerX, output.centerY, input.data.Length1, 0)
      ensures output.Has(v) == input.Has(Turn(Back(turn), v))
    {
      var r, c := output.centerY + v.dy, output.centerX + v.dx;
      TurnBack(turn, v);
      if 0 <= r < output.data.Length0 && 0 <= c < output.data.Length1 {
        assert output.data[r, c] == Source(input, turn, v.dy, v.dx, input.data.Length1, 0);
      }
    }

    static lemma AllWritten(input: MatrixArea, output: MatrixArea, turn: Rotation)
      requires Fits(input, output)
      requires output.centerX == output.centerY == Max(input.data.Length0, input.data.Length1) - 1
      requires Written(input, output, turn, output.centerX, output.centerY, input.data.Length1, 0)
      ensures output.Cells() == Turned(turn, input.Cells())
    {
      forall v: Offset ensures output.Has(v) == input.Has(Turn(Back(turn), v)) {
        CellWritten(input, output, turn, v);
      }
      CellsTurned(input, output, turn);
    }

    /** The rotated copy: every write lands inside the output, and its cells are the turned ones. */
    static method Rotate(input: MatrixArea, output: MatrixArea, turn: Rotation)
      requires Fits(input, output) && output.Blank()
      modifies output, output.data
      ensures output.Cells() == Turned(turn, input.Cells())
      ensures output.Centred()
    {
      var rows, cols := input.data.Length0, input.data.Length1;
      var rotateCenterX := output.data.Length1 / 2 - 1;
      var rotateCenterY := output.data.Length0 / 2 - 1;
      for x := 0 to cols
        invariant Written(input, output, turn, rotateCenterX, rotateCenterY, x, 0)
      {
        for y := 0 to rows
          invariant Written(input, output, turn, rotateCenterX, rotateCenterY, x, y)
        {
          WriteCell(input, output, turn, x, y, rotateCenterX, rotateCenterY);
        }
        ColumnWritten(input, output, turn, rotateCenterX, rotateCenterY, x);
      }
      output.centerX, output.centerY := rotateCenterX, rotateCenterY;
      AllWritten(input, output, turn);
    }

    static ghost predicate Holds(input: MatrixArea, output: MatrixArea)
      reads input, output
    {
      && input != output && input.data != output.data
      && output.data.Length0 >= input.data.Length0 && output.data.Length1 >= input.data.Length1
    }

    static method Copy(input: MatrixArea, output: MatrixArea)
      requires Holds(input, output) && output.Blank()
      modifies output, output.data
      ensures output.Cells() == input.Cells()
    {
      var rows, cols := input.data.Length0, input.data.Length1;
      for y := 0 to rows
        invariant forall r, c {:trigger output.data[r, c]} |
          0 <= r < output.data.Length0 && 0 <= c < output.data.Length1 ::
          output.data[r, c] == (r < y && c < cols && input.data[r, c])
      {
        for x := 0 to cols
          invariant forall r, c {:trigger output.data[r, c]} |
            0 <= r < output.data.Length0 && 0 <= c < output.data.Length1 ::
            output.data[r, c] == ((r < y || (r == y && c < x)) && c < cols && input.data[r, c])
        {
          output.data[y, x] := input.data[y, x];
        }
      }
      output.centerY, output.centerX := input.centerY, input.centerX;
      SameCells(input, output);
    }

    // The centre column is taken from the number of rows, so a matrix that is not square ends up
    // moved sideways.
    static method Mirror(input: MatrixArea, output: MatrixArea)
      requires Holds(input, output) && output.Blank()
      modifies output, output.data
      ensures output.Cells() == Mirrored(input.Cells(), input.data.Length1 - input.data.Length0)
    {
      var rows, cols := input.data.Length0, input.data.Length1;
      for y := 0 to rows
        invariant forall r, c {:trigger output.data[r, c]} |
          0 <= r < output.data.Length0 && 0 <= c < output.data.Length1 ::
          output.data[r, c] == (r < y && c < cols && input.data[r, cols - 1 - c])
      {
        var rx, x := 0, cols;
        while x > 0
          invariant 0 <= x <= cols && rx == cols - x
          invariant forall r, c {:trigger output.data[r, c]} |
            0 <= r < output.data.Length0 && 0 <= c < output.data.Length1 ::
            output.data[r, c] == ((r < y || (r == y && c < rx)) && c < cols && input.data[r, cols - 1 - c])
        {
          x := x - 1;
          output.data[y, rx] := input.data[y, x];
          rx := rx + 1;
        }
      }
      output.centerY, output.centerX := input.centerY, (rows - 1) - input.centerX;
      CellsReflected(input, output, cols - rows);
    }

    // Likewise with the centre row and the number of columns.
    static method Flip(input: MatrixArea, output: MatrixArea)
      requires Holds(input, output) && output.Blank()
      modifies output, output.data
      ensures output.Cells() == Flipped(input.Cells(), input.data.Length0 - input.data.Length1)
    {
      var rows, cols := input.data.Length0, input.data.Length1;
      for x := 0 to cols
        invariant forall r, c {:trigger output.data[r, c]} |
          0 <= r < output.data.Length0 && 0 <= c < output.data.Length1 ::
          output.data[r, c] == (r < rows && c < x && input.data[rows - 1 - r, c])
      {
        var ry, y := 0, rows;
        while y > 0
          invariant 0 <= y <= rows && ry == rows - y
          invariant forall r, c {:trigger output.data[r, c]} |
            0 <= r < output.data.Length0 && 0 <= c < output.data.Length1 ::
            output.data[r, c] == (r < rows && (c < x || (c == x && r < ry)) && input.data[rows - 1 - r, c])
        {
          y := y - 1;
          output.data[ry, x] := input.data[y, x];
          ry := ry + 1;
        }
      }
      output.centerY, output.centerX := (cols - 1) - input.centerY, input.centerX;
      CellsUpended(input, output, rows - cols);
    }

    static method CopyArea(input: MatrixArea, output: MatrixArea, op: MatrixOperation)
      requires output.Blank() && if op.ROTATE? then Fits(input, output) else Holds(input, output)
      modifies output, output.data
      ensures output.Cells() == Derived(op, input.Cells(), input.data.Length1 - input.data.Length0)
    {
      match op
      case COPY => Copy(input, output);
      case MIRROR => Mirror(input, output);
      case FLIP => Flip(input, output);
      case ROTATE(turn) => Rotate(input, output, turn);
    }

    // The cells before row y, column x are as listed, the others still clear.
    static ghost predicate Filled(area: MatrixArea, list: seq<nat>, cols: nat, y: int, x: int)
      reads area.data
    {
      area.data.Length1 == cols
      && forall r, c {:trigger area.data[r, c]} | 0 <= r < area.data.Length0 && 0 <= c < cols ::
           area.data[r, c] == ((r < y || (r == y && c < x)) && Listed(list, cols, r, c))
    }

    static method PutValue(area: MatrixArea, value: nat, y: int, x: int, ghost list: seq<nat>, ghost cols: nat)
      requires Filled(area, list, cols, y, x) && 0 <= y < area.data.Length0 && 0 <= x < cols
      requires (value == 1 || value == 3) == Listed(list, cols, y, x)
      modifies area, area.data
      ensures Filled(area, list, cols, y, x + 1)
      ensures (area.centerY, area.centerX) == if Central(value) then (y, x) else old((area.centerY, area.centerX))
    {
      if value == 1 || value == 3 {
        area.data[y, x] := true;
      }
      if value == 2 || value == 3 {
        area.centerY, area.centerX := y, x;
      }
    }

    static lemma RowFilled(area: MatrixArea, list: seq<nat>, cols: nat, y: int)
      requires Filled(area, list, cols, y, cols)
      ensures Filled(area, list, cols, y + 1, 0)
    {
    }

    static lemma ListedCells(area: MatrixArea, list: seq<nat>, rows: nat)
      requires Lists(area, list, rows)
      ensures area.Cells() == ListShape(list, rows, area.data.Length1, area.centerY, area.centerX)
    {
      forall v
        ensures v in area.Cells() <==> v in ListShape(list, rows, area.data.Length1, area.centerY, area.centerX)
      {
        area.CellsHave(v);
        ShapeHas(list, rows, area.data.Length1, area.centerY, area.centerX, v);
      }
    }

    // The matrix is what the rows list: its size, its cells and its centre.
    static ghost predicate Lists(area: MatrixArea, list: seq<nat>, rows: nat)
      reads area, area.data
    {
      && area.data.Length0 == rows && area.data.Length1 == (if rows == 0 then 0 else |list| / rows)
      && Filled(area, list, area.data.Length1, rows, 0)
      && CentreAt(list, area.data.Length1, |list|, area.centerY, area.centerX)
    }

    /** The matrix a list of rows describes. */
    static method CreateArea(list: seq<nat>, rows: nat) returns (area: MatrixArea)
      requires if rows == 0 then list == [] else |list| % rows == 0
      ensures fresh(area) && fresh(area.data) && area.Centred() && Lists(area, list, rows)
    {
      var cols := if rows == 0 then 0 else |list| / rows;
      ghost var size := rows * cols;
      assert size == |list|;
      area := new MatrixArea(rows, cols);
      if cols == 0 {
        return;
      }
      var x, y := 0, 0;
      for k := 0 to |list|
        invariant fresh(area) && fresh(area.data) && area.data.Length0 == rows
        invariant Position(k, y, x, cols)
        invariant Filled(area, list, cols, y, x)
        invariant CentreAt(list, cols, k, area.centerY, area.centerX)
        invariant 0 <= area.centerY < rows && 0 <= area.centerX < cols
      {
        RowInside(k, y, x, rows, cols, size);
        ListedHere(list, cols, k, y, x);
        CentreStep(list, cols, k, area.centerY, area.centerX, y, x);
        NextPosition(k, y, x, cols);
        PutValue(area, list[k], y, x, list, cols);
        x := x + 1;
        if cols == x {
          RowFilled(area, list, cols, y);
          x := 0;
          y := y + 1;
        }
      }
      RowInside(|list|, y, x, rows, cols, size);
    }

    // A turned or reflected copy of an area on a square matrix.
    static method Derive(area: MatrixArea, side: nat, op: MatrixOperation, ghost shape: Shape, ghost off: int)
      returns (output: MatrixArea)
      requires side >= Max(area.data.Length0, area.data.Length1)
      requires shape == area.Cells() && off == area.data.Length1 - area.data.Length0
      requires op.ROTATE? ==> area.Centred() && side == 2 * Max(area.data.Length0, area.data.Length1)
      ensures fresh(output) && fresh(output.data) && output.data.Length0 == output.data.Length1 == side
      ensures area.Cells() == shape
      ensures output.Cells() == Derived(op, shape, off)
    {
      output := new MatrixArea(side, side);
      CopyArea(area, output, op);
    }

    /** The four directions of an area are the same shape, turned. */
    method SetupArea(list: seq<nat>, rows: nat)
      requires if rows == 0 then list == [] else |list| % rows == 0
      modifies this
      ensures {NORTH, SOUTH, EAST, WEST} <= areas.Keys
      ensures var shape := areas[NORTH].Cells();
        && areas[EAST].Cells() == Turned(Quarter, shape)
        && areas[SOUTH].Cells() == Turned(Half, shape)
        && areas[WEST].Cells() == Turned(ThreeQuarters, shape)
      ensures areas ==
        old(areas)[NORTH := areas[NORTH]][SOUTH := areas[SOUTH]][EAST := areas[EAST]][WEST := areas[WEST]]
      ensures hasExtArea == old(hasExtArea) && Lists(areas[NORTH], list, rows)
    {
      var area := CreateArea(list, rows);
      ghost var shape, off := area.Cells(), area.data.Length1 - area.data.Length0;
      var maxOutput := 2 * Max(area.data.Length1, area.data.Length0);
      var southArea := Derive(area, maxOutput, ROTATE(Half), shape, off);
      ghost var south := southArea.Cells();
      var eastArea := Derive(area, maxOutput, ROTATE(Quarter), shape, off);
      ghost var east := eastArea.Cells();
      var westArea := Derive(area, maxOutput, ROTATE(ThreeQuarters), shape, off);
      ghost var west := westArea.Cells();
      assert area.Cells() == shape && southArea.Cells() == south && eastArea.Cells() == east;
      areas := areas[NORTH := area][SOUTH := southArea][EAST := eastArea][WEST := westArea];
      assert area.Cells() == shape && southArea.Cells() == south && eastArea.Cells() == east
        && westArea.Cells() == west;
    }

    static ghost function ShapesOf(nw: MatrixArea, ne: MatrixArea, sw: MatrixArea, se: MatrixArea): Corners
      reads nw, nw.data, ne, ne.data, sw, sw.data, se, se.data
    {
      Corners(nw.Cells(), ne.Cells(), sw.Cells(), se.Cells())
    }

    /** The four diagonals; each reflection is moved by the difference between the sides. */
    method SetupExtArea(list: seq<nat>, rows: nat)
      requires if rows == 0 then list == [] else |list| % rows == 0
      modifies this
      ensures list == [] ==> areas == old(areas) && hasExtArea == old(hasExtArea)
      ensures list != [] ==>
        && hasExtArea && {NORTHWEST, NORTHEAST, SOUTHWEST, SOUTHEAST} <= areas.Keys
        && areas == old(areas)[NORTHWEST := areas[NORTHWEST]][NORTHEAST := areas[NORTHEAST]]
                              [SOUTHWEST := areas[SOUTHWEST]][SOUTHEAST := areas[SOUTHEAST]]
        && Lists(areas[NORTHWEST], list, rows)
        && ShapesOf(areas[NORTHWEST], areas[NORTHEAST], areas[SOUTHWEST], areas[SOUTHEAST])
             == Diagonals(areas[NORTHWEST].Cells(), areas[NORTHWEST].data.Length1 - rows)
    {
      if list == [] {
        return;
      }
      var area, neArea, swArea, seArea := BuildDiagonals(list, rows);
      PutDiagonals(area, neArea, swArea, seArea);
    }

    static method BuildDiagonals(list: seq<nat>, rows: nat)
      returns (area: MatrixArea, neArea: MatrixArea, swArea: MatrixArea, seArea: MatrixArea)
      requires if rows == 0 then list == [] else |list| % rows == 0
      ensures Lists(area, list, rows)
      ensures ShapesOf(area, neArea, swArea, seArea) == Diagonals(area.Cells(), area.data.Length1 - rows)
    {
      area := CreateArea(list, rows);
      neArea, swArea, seArea := Reflections(area, area.Cells(), area.data.Length1 - rows);
    }

    method PutDiagonals(nw: MatrixArea, ne: MatrixArea, sw: MatrixArea, se: MatrixArea)
      modifies this
      ensures hasExtArea && {NORTHWEST, NORTHEAST, SOUTHWEST, SOUTHEAST} <= areas.Keys
      ensures areas[NORTHWEST] == nw && areas[NORTHEAST] == ne && areas[SOUTHWEST] == sw && areas[SOUTHEAST] == se
      ensures areas == old(areas)[NORTHWEST := nw][NORTHEAST := ne][SOUTHWEST := sw][SOUTHEAST := se]
    {
      hasExtArea := true;
      areas := areas[NORTHWEST := nw][NORTHEAST := ne][SOUTHWEST := sw][SOUTHEAST := se];
    }

    static method Reflections(area: MatrixArea, ghost shape: Shape, ghost off: int)
      returns (neArea: MatrixArea, swArea: MatrixArea, seArea: MatrixArea)
      requires shape == area.Cells() && off == area.data.Length1 - area.data.Length0
      ensures area.Cells() == shape
      ensures ShapesOf(area, neArea, swArea, seArea) == Diagonals(shape, off)
    {
      var maxOutput := 2 * Max(area.data.Length1, area.data.Length0);
      neArea := Derive(area, maxOutput, MIRROR, shape, off);
      ghost var ne := neArea.Cells();
      swArea := Derive(area, maxOutput, FLIP, shape, off);
      ghost var sw := swArea.Cells();
      seArea := Derive(swArea, maxOutput, MIRROR, sw, 0);
      assert neArea.Cells() == ne;
    }

    /** The tiles an area covers around a target, where the sight is clear: each once, and just the
        shape for the direction of the target. */
    method GetList(center: Offset, target: Offset, clear: Offset -> bool) returns (list: seq<Offset>)
      ensures var dir := Facing(target.dx - center.dx, target.dy - center.dy, hasExtArea);
        if dir !in areas then list == []
        else forall p :: p in list <==> Offset(p.dx - target.dx, p.dy - target.dy) in areas[dir].Cells() && clear(p)
      ensures forall j, k | 0 <= j < k < |list| :: list[j] != list[k]
    {
      list := [];
      var dir := Facing(target.dx - center.dx, target.dy - center.dy, hasExtArea);
      if dir !in areas {
        return;
      }
      var area := areas[dir];
      var tmpX, tmpY := target.dx - area.centerX, target.dy - area.centerY;
      var rows, cols := area.data.Length0, area.data.Length1;
      for y := 0 to rows
        invariant tmpX == target.dx - area.centerX && tmpY == target.dy - area.centerY + y
        invariant Collected(area, target, clear, y, 0, list)
      {
        for x := 0 to cols
          invariant tmpX == target.dx - area.centerX + x
          invariant Collected(area, target, clear, y, x, list)
        {
          CollectStep(area, target, clear, y, x, list);
          if area.data[y, x] {
            if clear(Offset(tmpX, tmpY)) {
              list := [Offset(tmpX, tmpY)] + list;
            }
          }
          tmpX := tmpX + 1;
        }
        assert Collected(area, target, clear, y + 1, 0, list) by {
          RowCollected(area, target, clear, y, list);
        }
        tmpX := tmpX - cols;
        tmpY := tmpY + 1;
      }
      forall p ensures p in list <==> Offset(p.dx - target.dx, p.dy - target.dy) in area.Cells() && clear(p) {
        area.CellsHave(Offset(p.dx - target.dx, p.dy - target.dy));
        assert p in list <==> Reached(area, target, clear, rows, 0, p);
      }
    }

    static ghost predicate Collected(area: MatrixArea, target: Offset, clear: Offset -> bool, y: int, x: int,
                                     list: seq<Offset>)
      reads area, area.data
    {
      && (forall p {:trigger p in list} :: p in list <==> Reached(area, target, clear, y, x, p))
      && forall j, k | 0 <= j < k < |list| :: list[j] != list[k]
    }

    static lemma RowCollected(area: MatrixArea, target: Offset, clear: Offset -> bool, y: int, list: seq<Offset>)
      requires Collected(area, target, clear, y, area.data.Length1, list)
      ensures Collected(area, target, clear, y + 1, 0, list)
    {
    }

    static lemma CollectStep(area: MatrixArea, target: Offset, clear: Offset -> bool, y: int, x: int, list: seq<Offset>)
      requires Collected(area, target, clear, y, x, list) && 0 <= y < area.data.Length0 && 0 <= x < area.data.Length1
      ensures var p := Offset(target.dx - area.centerX + x, target.dy - area.centerY + y);
        Collected(area, target, clear, y, x + 1, if area.data[y, x] && clear(p) then [p] + list else list)
    {
      var q := Offset(target.dx - area.centerX + x, target.dy - area.centerY + y);
      var more := if area.data[y, x] && clear(q) then [q] + list else list;
      assert q !in list by {
        assert !Reached(area, target, clear, y, x, q);
      }
      forall p ensures p in more <==> Reached(area, target, clear, y, x + 1, p) {
        assert p in list <==> Reached(area, target, clear, y, x, p);
        if p != q {
          assert p in more <==> p in list;
        }
      }
    }

    static ghost predicate Reached(area: MatrixArea, target: Offset, clear: Offset -> bool, y: int, x: int, p: Offset)
      reads area, area.data
    {
      && area.Has(Offset(p.dx - target.dx, p.dy - target.dy)) && clear(p)
      && var r, c := p.dy - target.dy + area.centerY, p.dx - target.dx + area.centerX;
         r < y || (r == y && c < x)
    }
  }
}
