/**
 * The walkability cache of a creature: a window of cells centred on it, recomputed after a
 * teleport and slid in place after a single step.  Sliding must give what recomputing gives.
 */
module WalkCache {

  datatype Pos = Pos(x: int, y: int)

  // One floor of the map: can the creature's path search use this tile?
  type Floor = Pos -> bool

  type Grid = seq<seq<bool>>

  ghost predicate Shaped(g: Grid, w: nat, h: nat) {
    |g| == 2 * h + 1 && forall r | 0 <= r < |g| :: |g[r]| == 2 * w + 1
  }

  // The tile a cell stands for when the creature is at `at`.
  function TileAt(at: Pos, w: nat, h: nat, r: int, c: int): Pos {
    Pos(at.x + c - w, at.y + r - h)
  }

  // ---------------------------------------------------------------- the steps as functions

  // What updateMapCache computes.
  ghost function Recomputed(floor: Floor, at: Pos, w: nat, h: nat): (g: Grid)
    ensures Shaped(g, w, h)
  {
    seq(2 * h + 1, r => seq(2 * w + 1, c => floor(TileAt(at, w, h, r, c))))
  }

  // One cell after the rows have moved and the row that came into view has been read.
  ghost function RowCell(g: Grid, floor: Floor, at: Pos, w: nat, h: nat, dy: int, r: int, c: int): bool
    requires Shaped(g, w, h) && 0 <= r <= 2 * h && 0 <= c <= 2 * w
  {
    if (dy < 0 && r == 0) || (dy > 0 && r == 2 * h) then floor(TileAt(at, w, h, r, c))
    else if dy < 0 then g[r - 1][c]
    else if dy > 0 then g[r + 1][c]
    else g[r][c]
  }

  ghost function RowsMoved(g: Grid, floor: Floor, at: Pos, w: nat, h: nat, dy: int): (k: Grid)
    requires Shaped(g, w, h)
    ensures Shaped(k, w, h)
  {
    seq(2 * h + 1, r requires 0 <= r < 2 * h + 1 =>
      seq(2 * w + 1, c requires 0 <= c < 2 * w + 1 => RowCell(g, floor, at, w, h, dy, r, c)))
  }

  // Rows start..end are shifted sideways; the column that came into view is read for all rows.
  ghost function ColumnCell(g: Grid, floor: Floor, at: Pos, w: nat, h: nat, dx: int, start: int, end: int,
                            r: int, c: int): bool
    requires Shaped(g, w, h) && 0 <= r <= 2 * h && 0 <= c <= 2 * w
  {
    if (dx > 0 && c == 2 * w) || (dx < 0 && c == 0) then floor(TileAt(at, w, h, r, c))
    else if dx > 0 && start <= r <= end then g[r][c + 1]
    else if dx < 0 && start <= r <= end then g[r][c - 1]
    else g[r][c]
  }

  ghost function ColumnsMoved(g: Grid, floor: Floor, at: Pos, w: nat, h: nat, dx: int, start: int, end: int): (k: Grid)
    requires Shaped(g, w, h)
    ensures Shaped(k, w, h)
  {
    seq(2 * h + 1, r requires 0 <= r < 2 * h + 1 =>
      seq(2 * w + 1, c requires 0 <= c < 2 * w + 1 => ColumnCell(g, floor, at, w, h, dx, start, end, r, c)))
  }

  // The single cell of a tile is read again, if the tile is in the window.
  ghost function CellRead(g: Grid, floor: Floor, at: Pos, w: nat, h: nat, tile: Pos): (k: Grid)
    requires Shaped(g, w, h)
    ensures Shaped(k, w, h)
  {
    var r, c := h + tile.y - at.y, w + tile.x - at.x;
    if 0 <= r <= 2 * h && 0 <= c <= 2 * w then g[r := g[r][c := floor(tile)]] else g
  }

  function FirstRow(h: nat, dy: int): int {
    if dy > 0 then dy else 0
  }

  function LastRow(h: nat, dy: int): int {
    if dy < 0 then 2 * h + dy else 2 * h
  }

  /** What one step does to the cache.  `dy` is the number the sideways shift takes its row
      range from. */
  ghost function Slid(g: Grid, floor: Floor, from: Pos, to: Pos, w: nat, h: nat, dy: int): (k: Grid)
    requires Shaped(g, w, h)
    ensures Shaped(k, w, h)
  {
    var rows := RowsMoved(g, floor, to, w, h, to.y - from.y);
    var cols := ColumnsMoved(rows, floor, to, w, h, to.x - from.x, FirstRow(h, dy), LastRow(h, dy));
    CellRead(cols, floor, to, w, h, from)
  }

  // ---------------------------------------------------------------- what the cache promises

  // Every cell but the creature's own is what recomputing would put there.
  ghost predicate Faithful(g: Grid, floor: Floor, at: Pos, w: nat, h: nat) {
    && Shaped(g, w, h)
    && forall r, c {:trigger g[r][c]} | 0 <= r <= 2 * h && 0 <= c <= 2 * w && !(r == h && c == w) ::
         g[r][c] == floor(TileAt(at, w, h, r, c))
  }

  // A step changes the map only where the creature stood and where it stands.
  ghost predicate StepChanges(before: Floor, after: Floor, from: Pos, to: Pos) {
    forall p: Pos {:trigger after(p)} | p != from && p != to :: before(p) == after(p)
  }

  predicate IsStep(from: Pos, to: Pos) {
    -1 <= to.x - from.x <= 1 && -1 <= to.y - from.y <= 1 && from != to
  }

  predicate SouthwardDiagonal(from: Pos, to: Pos) {
    to.y > from.y && to.x != from.x
  }

  // The offset whose sign the row ranges are written for.
  function SignedOffset(from: Pos, to: Pos): int {
    from.y - to.y
  }

  // The distance the code actually takes.
  function Distance(from: Pos, to: Pos): int {
    if from.y >= to.y then from.y - to.y else to.y - from.y
  }

  // The same step, cell by cell.
  ghost function SlidCell(g: Grid, floor: Floor, from: Pos, to: Pos, w: nat, h: nat, dy: int, r: int, c: int): bool
    requires Shaped(g, w, h) && 0 <= r <= 2 * h && 0 <= c <= 2 * w
  {
    if TileAt(to, w, h, r, c) == from then floor(from)
    else
      var rows := RowsMoved(g, floor, to, w, h, to.y - from.y);
      ColumnCell(rows, floor, to, w, h, to.x - from.x, FirstRow(h, dy), LastRow(h, dy), r, c)
  }

  lemma SlidByCell(g: Grid, floor: Floor, from: Pos, to: Pos, w: nat, h: nat, dy: int, r: int, c: int)
    requires Shaped(g, w, h) && 0 <= r <= 2 * h && 0 <= c <= 2 * w
    ensures Slid(g, floor, from, to, w, h, dy)[r][c] == SlidCell(g, floor, from, to, w, h, dy, r, c)
  {
  }

  // Which row ranges do no harm: the signed offset always, anything when nothing is shifted
  // sideways or when one row or one column is all there is.
  ghost predicate RowsAreRight(from: Pos, to: Pos, w: nat, h: nat, dy: int) {
    || dy == SignedOffset(from, to)
    || to.x == from.x
    || w == 0
    || (h == 0 && to.y > from.y && dy > 0)
  }

  lemma SlideCell(g: Grid, before: Floor, after: Floor, from: Pos, to: Pos, w: nat, h: nat, dy: int, r: int, c: int)
    requires Faithful(g, before, from, w, h) && StepChanges(before, after, from, to) && IsStep(from, to)
    requires RowsAreRight(from, to, w, h, dy)
    requires 0 <= r <= 2 * h && 0 <= c <= 2 * w && !(r == h && c == w)
    ensures SlidCell(g, after, from, to, w, h, dy, r, c) == after(TileAt(to, w, h, r, c))
  {
    var tile := TileAt(to, w, h, r, c);
    assert tile != to;
    if tile != from {
      assert before(tile) == after(tile);
      var rr, cc := r + to.y - from.y, c + to.x - from.x;
      if 0 <= rr <= 2 * h && 0 <= cc <= 2 * w {
        assert TileAt(from, w, h, rr, cc) == tile;
        assert g[rr][cc] == before(tile);
      }
    }
  }

  // Sliding refines recomputing, whatever the map and whatever faithful cache it starts from.
  ghost predicate SlidesRight(from: Pos, to: Pos, w: nat, h: nat, dy: int) {
    forall g, before, after {:trigger Faithful(g, before, from, w, h), StepChanges(before, after, from, to)} ::
      Faithful(g, before, from, w, h) && StepChanges(before, after, from, to) ==>
        Faithful(Slid(g, after, from, to, w, h, dy), after, to, w, h)
  }

  lemma SlidesRightIf(from: Pos, to: Pos, w: nat, h: nat, dy: int)
    requires IsStep(from, to) && RowsAreRight(from, to, w, h, dy)
    ensures SlidesRight(from, to, w, h, dy)
  {
    forall g, before, after | Faithful(g, before, from, w, h) && StepChanges(before, after, from, to)
      ensures Faithful(Slid(g, after, from, to, w, h, dy), after, to, w, h)
    {
      var k := Slid(g, after, from, to, w, h, dy);
      forall r, c | 0 <= r <= 2 * h && 0 <= c <= 2 * w && !(r == h && c == w)
        ensures k[r][c] == after(TileAt(to, w, h, r, c))
      {
        SlidByCell(g, after, from, to, w, h, dy, r, c);
        SlideCell(g, before, after, from, to, w, h, dy, r, c);
      }
    }
  }

  /** With the signed offset as the row range, every single step is right. */
  lemma SignedOffsetSlidesRight(from: Pos, to: Pos, w: nat, h: nat)
    requires IsStep(from, to)
    ensures SlidesRight(from, to, w, h, SignedOffset(from, to))
  {
    SlidesRightIf(from, to, w, h, SignedOffset(from, to));
  }

  /** The code takes the distance, which is never negative.  That is right for exactly the
      steps that are not southward diagonals, unless the window is a single row or column. */
  lemma DistanceSlidesRightIff(from: Pos, to: Pos, w: nat, h: nat)
    requires IsStep(from, to)
    ensures SlidesRight(from, to, w, h, Distance(from, to)) <==> !SouthwardDiagonal(from, to) || w == 0 || h == 0
  {
    if !SouthwardDiagonal(from, to) || w == 0 || h == 0 {
      SlidesRightIf(from, to, w, h, Distance(from, to));
    } else {
      SouthwardDiagonalFails(from, to, w, h);
    }
  }

  // The map that shows it: alternate columns are blocked, and nothing moves but the creature.
  function Stripes(p: Pos): bool {
    p.x % 2 == 0
  }

  lemma SouthwardDiagonalFails(from: Pos, to: Pos, w: nat, h: nat)
    requires IsStep(from, to) && SouthwardDiagonal(from, to) && w > 0 && h > 0
    ensures !SlidesRight(from, to, w, h, Distance(from, to))
  {
    var g := Recomputed(Stripes, from, w, h);
    assert Faithful(g, Stripes, from, w, h);
    assert StepChanges(Stripes, Stripes, from, to);
    var k := Slid(g, Stripes, from, to, w, h, Distance(from, to));
    // the top row kept the values it had before the sideways shift
    var c := if to.x > from.x then 2 * w - 1 else 1;
    SlidByCell(g, Stripes, from, to, w, h, Distance(from, to), 0, c);
    assert k[0][c] == g[1][c] == Stripes(TileAt(from, w, h, 1, c));
    assert k[0][c] != Stripes(TileAt(to, w, h, 0, c));
  }

  // ---------------------------------------------------------------- whole runs

  // What happens to the creature and around it; `floor` is the map afterwards.
  datatype Move =
    | Step(to: Pos, floor: Floor)
    | Teleport(to: Pos, floor: Floor)
    | TileChange(tile: Pos, floor: Floor)

  function Whereabouts(at: Pos, m: Move): Pos {
    if m.TileChange? then at else m.to
  }

  ghost function CacheStep(g: Grid, at: Pos, w: nat, h: nat, m: Move): (k: Grid)
    requires Shaped(g, w, h)
    ensures Shaped(k, w, h)
  {
    match m
    case Step(to, floor) => Slid(g, floor, at, to, w, h, Distance(at, to))
    case Teleport(to, floor) => Recomputed(floor, to, w, h)
    case TileChange(tile, floor) => CellRead(g, floor, at, w, h, tile)
  }

  ghost function CacheAfter(g: Grid, at: Pos, w: nat, h: nat, run: seq<Move>): (k: Grid)
    requires Shaped(g, w, h)
    ensures Shaped(k, w, h)
    decreases |run|
  {
    if run == [] then g
    else CacheAfter(CacheStep(g, at, w, h, run[0]), Whereabouts(at, run[0]), w, h, run[1..])
  }

  ghost function PlaceAfter(at: Pos, run: seq<Move>): Pos
    decreases |run|
  {
    if run == [] then at else PlaceAfter(Whereabouts(at, run[0]), run[1..])
  }

  ghost function FloorAfter(floor: Floor, run: seq<Move>): Floor {
    if run == [] then floor else run[|run| - 1].floor
  }

  // Steps go to a neighbouring tile, not diagonally southwards, and change nothing else; any
  // other change of the map is reported tile by tile.
  ghost predicate OrdinaryMove(floor: Floor, at: Pos, m: Move) {
    match m
    case Step(to, after) => IsStep(at, to) && !SouthwardDiagonal(at, to) && StepChanges(floor, after, at, to)
    case Teleport(_, _) => true
    case TileChange(tile, after) => StepChanges(floor, after, tile, tile)
  }

  ghost predicate OrdinaryRun(floor: Floor, at: Pos, run: seq<Move>)
    decreases |run|
  {
    run != [] ==> OrdinaryMove(floor, at, run[0]) && OrdinaryRun(run[0].floor, Whereabouts(at, run[0]), run[1..])
  }

  lemma TileChangeKeepsFaithful(g: Grid, before: Floor, after: Floor, at: Pos, w: nat, h: nat, tile: Pos)
    requires Faithful(g, before, at, w, h) && StepChanges(before, after, tile, tile)
    ensures Faithful(CellRead(g, after, at, w, h, tile), after, at, w, h)
  {
  }

  /** Over any run of such moves the cache answers for every cell but the creature's own. */
  lemma {:induction false} RunStaysFaithful(g: Grid, floor: Floor, at: Pos, w: nat, h: nat, run: seq<Move>)
    requires Faithful(g, floor, at, w, h) && OrdinaryRun(floor, at, run)
    ensures Faithful(CacheAfter(g, at, w, h, run), FloorAfter(floor, run), PlaceAfter(at, run), w, h)
    decreases |run|
  {
    if run != [] {
      var m := run[0];
      match m {
        case Step(to, after) =>
          DistanceSlidesRightIff(at, to, w, h);
        case Teleport(_, _) =>
        case TileChange(tile, after) =>
          TileChangeKeepsFaithful(g, floor, after, at, w, h, tile);
      }
      assert Faithful(CacheStep(g, at, w, h, m), m.floor, Whereabouts(at, m), w, h);
      RunStaysFaithful(CacheStep(g, at, w, h, m), m.floor, Whereabouts(at, m), w, h, run[1..]);
    }
  }
}
