/** The creature that owns the cache, with the loops that shift it in place. */
module WalkingCreature {
  import opened WalkCache

  class Creature {
    const maxWalkCacheWidth: nat
    const maxWalkCacheHeight: nat
    const localMapCache: array2<bool>
    var position: Pos
    var isMapLoaded: bool

    ghost predicate Valid()
      reads this
    {
      && localMapCache.Length0 == 2 * maxWalkCacheHeight + 1
      && localMapCache.Length1 == 2 * maxWalkCacheWidth + 1
    }

    ghost function Cells(): (g: Grid)
      requires Valid()
      reads this, localMapCache
      ensures Shaped(g, maxWalkCacheWidth, maxWalkCacheHeight)
    {
      seq(2 * maxWalkCacheHeight + 1, r requires 0 <= r < localMapCache.Length0 reads localMapCache =>
        seq(2 * maxWalkCacheWidth + 1, c requires 0 <= c < localMapCache.Length1 reads localMapCache =>
          localMapCache[r, c]))
    }

    constructor (w: nat, h: nat, at: Pos)
      ensures Valid() && maxWalkCacheWidth == w && maxWalkCacheHeight == h && position == at && !isMapLoaded
    {
      maxWalkCacheWidth, maxWalkCacheHeight, position, isMapLoaded := w, h, at, false;
      localMapCache := new bool[2 * h + 1, 2 * w + 1]((r, c) => false);
    }

    // updateTileCache(tile, dx, dy): offsets out of range are ignored
    method UpdateTileCache(floor: Floor, dx: int, dy: int)
      requires Valid()
      modifies localMapCache
      ensures Cells() == CellRead(old(Cells()), floor, position, maxWalkCacheWidth, maxWalkCacheHeight,
                                  Pos(position.x + dx, position.y + dy))
      ensures forall r, c | 0 <= r <= 2 * maxWalkCacheHeight && 0 <= c <= 2 * maxWalkCacheWidth ::
        localMapCache[r, c] ==
          if r == maxWalkCacheHeight + dy && c == maxWalkCacheWidth + dx
          then floor(Pos(position.x + dx, position.y + dy)) else old(localMapCache[r, c])
    {
      ghost var g := Cells();
      var w: int, h: int := maxWalkCacheWidth, maxWalkCacheHeight;
      var tile := Pos(position.x + dx, position.y + dy);
      if -w <= dx <= w && -h <= dy <= h {
        localMapCache[h + dy, w + dx] := floor(tile);
      }
      SameGrid(Cells(), CellRead(g, floor, position, maxWalkCacheWidth, maxWalkCacheHeight, tile),
               maxWalkCacheWidth, maxWalkCacheHeight);
    }

    method UpdateMapCache(floor: Floor)
      requires Valid()
      modifies localMapCache
      ensures Cells() == Recomputed(floor, position, maxWalkCacheWidth, maxWalkCacheHeight)
      ensures forall r, c | 0 <= r <= 2 * maxWalkCacheHeight && 0 <= c <= 2 * maxWalkCacheWidth ::
        localMapCache[r, c] == floor(Pos(position.x + c - maxWalkCacheWidth, position.y + r - maxWalkCacheHeight))
    {
      var w, h := maxWalkCacheWidth, maxWalkCacheHeight;
      for y := 0 to 2 * h + 1
        invariant forall r, c | 0 <= r < y && 0 <= c <= 2 * w ::
          localMapCache[r, c] == floor(TileAt(position, w, h, r, c))
      {
        for x := 0 to 2 * w + 1
          invariant forall r, c | 0 <= r < y && 0 <= c <= 2 * w ::
            localMapCache[r, c] == floor(TileAt(position, w, h, r, c))
          invariant forall c | 0 <= c < x :: localMapCache[y, c] == floor(TileAt(position, w, h, y, c))
        {
          localMapCache[y, x] := floor(TileAt(position, w, h, y, x));
        }
      }
      SameGrid(Cells(), Recomputed(floor, position, w, h), w, h);
    }

    // One row copied over another.
    method CopyRow(to: nat, from: nat)
      requires Valid() && to <= 2 * maxWalkCacheHeight && from <= 2 * maxWalkCacheHeight && to != from
      modifies localMapCache
      ensures forall c | 0 <= c <= 2 * maxWalkCacheWidth :: localMapCache[to, c] == old(localMapCache[from, c])
      ensures forall r, c | 0 <= r <= 2 * maxWalkCacheHeight && r != to && 0 <= c <= 2 * maxWalkCacheWidth ::
        localMapCache[r, c] == old(localMapCache[r, c])
    {
      for x := 0 to 2 * maxWalkCacheWidth + 1
        invariant forall c | 0 <= c < x :: localMapCache[to, c] == old(localMapCache[from, c])
        invariant forall r, c | 0 <= r <= 2 * maxWalkCacheHeight && r != to && 0 <= c <= 2 * maxWalkCacheWidth ::
          localMapCache[r, c] == old(localMapCache[r, c])
      {
        localMapCache[to, x] := localMapCache[from, x];
      }
    }

    // North: the rows move south from the bottom up, and the top row is read.
    method ShiftRowsSouth(floor: Floor)
      requires Valid()
      modifies localMapCache
      ensures Cells() == RowsMoved(old(Cells()), floor, position, maxWalkCacheWidth, maxWalkCacheHeight, -1)
    {
      var w, h := maxWalkCacheWidth, maxWalkCacheHeight;
      ghost var g := Cells();
      var y := 2 * h;
      while y > 0
        invariant 0 <= y <= 2 * h
        invariant forall r, c {:trigger localMapCache[r, c]} | 0 <= r <= 2 * h && 0 <= c <= 2 * w ::
          localMapCache[r, c] == if r > y then g[r - 1][c] else g[r][c]
      {
        y := y - 1;
        CopyRow(y + 1, y);
      }
      for x := 0 to 2 * w + 1
        invariant forall r, c | 0 < r <= 2 * h && 0 <= c <= 2 * w :: localMapCache[r, c] == g[r - 1][c]
        invariant forall c | 0 <= c < x :: localMapCache[0, c] == floor(TileAt(position, w, h, 0, c))
      {
        localMapCache[0, x] := floor(TileAt(position, w, h, 0, x));
      }
      SameGrid(Cells(), RowsMoved(g, floor, position, w, h, -1), w, h);
    }

    // South: the rows move north from the top down, and the bottom row is read.
    method ShiftRowsNorth(floor: Floor)
      requires Valid()
      modifies localMapCache
      ensures Cells() == RowsMoved(old(Cells()), floor, position, maxWalkCacheWidth, maxWalkCacheHeight, 1)
    {
      var w, h := maxWalkCacheWidth, maxWalkCacheHeight;
      ghost var g := Cells();
      for y := 0 to 2 * h
        invariant forall r, c {:trigger localMapCache[r, c]} | 0 <= r <= 2 * h && 0 <= c <= 2 * w ::
          localMapCache[r, c] == if r < y then g[r + 1][c] else g[r][c]
      {
        CopyRow(y, y + 1);
      }
      for x := 0 to 2 * w + 1
        invariant forall r, c | 0 <= r < 2 * h && 0 <= c <= 2 * w :: localMapCache[r, c] == g[r + 1][c]
        invariant forall c | 0 <= c < x :: localMapCache[2 * h, c] == floor(TileAt(position, w, h, 2 * h, c))
      {
        localMapCache[2 * h, x] := floor(TileAt(position, w, h, 2 * h, x));
      }
      SameGrid(Cells(), RowsMoved(g, floor, position, w, h, 1), w, h);
    }

    // East: within the row range the cells move west, and the last column is read.
    method ShiftColumnsWest(floor: Floor, start: int, end: int)
      requires Valid() && 0 <= start && end <= 2 * maxWalkCacheHeight
      modifies localMapCache
      ensures Cells() == ColumnsMoved(old(Cells()), floor, position, maxWalkCacheWidth, maxWalkCacheHeight, 1, start,
                                      end)
    {
      var w, h := maxWalkCacheWidth, maxWalkCacheHeight;
      ghost var g := Cells();
      var y := start;
      while y <= end
        invariant start <= y && (y <= end + 1 || y == start)
        invariant forall r, c {:trigger localMapCache[r, c]} | 0 <= r <= 2 * h && 0 <= c <= 2 * w ::
          localMapCache[r, c] == if start <= r < y && c < 2 * w then g[r][c + 1] else g[r][c]
      {
        for x := 0 to 2 * w
          invariant forall r, c {:trigger localMapCache[r, c]} | 0 <= r <= 2 * h && 0 <= c <= 2 * w ::
            localMapCache[r, c] ==
              if (start <= r < y && c < 2 * w) || (r == y && c < x) then g[r][c + 1] else g[r][c]
        {
          localMapCache[y, x] := localMapCache[y, x + 1];
        }
        y := y + 1;
      }
      for k := 0 to 2 * h + 1
        invariant forall r, c {:trigger localMapCache[r, c]} | 0 <= r <= 2 * h && 0 <= c <= 2 * w ::
          localMapCache[r, c] ==
            if c == 2 * w then (if r < k then floor(TileAt(position, w, h, r, c)) else g[r][c])
            else if start <= r <= end then g[r][c + 1] else g[r][c]
      {
        localMapCache[k, 2 * w] := floor(TileAt(position, w, h, k, 2 * w));
      }
      SameGrid(Cells(), ColumnsMoved(g, floor, position, w, h, 1, start, end), w, h);
    }

    // West: within the row range the cells move east, and the first column is read.
    method ShiftColumnsEast(floor: Floor, start: int, end: int)
      requires Valid() && 0 <= start && end <= 2 * maxWalkCacheHeight
      modifies localMapCache
      ensures Cells() == ColumnsMoved(old(Cells()), floor, position, maxWalkCacheWidth, maxWalkCacheHeight, -1, start,
                                      end)
    {
      var w, h := maxWalkCacheWidth, maxWalkCacheHeight;
      ghost var g := Cells();
      var y := start;
      while y <= end
        invariant start <= y && (y <= end + 1 || y == start)
        invariant forall r, c {:trigger localMapCache[r, c]} | 0 <= r <= 2 * h && 0 <= c <= 2 * w ::
          localMapCache[r, c] == if start <= r < y && c > 0 then g[r][c - 1] else g[r][c]
      {
        var x := 2 * w;
        while x > 0
          invariant 0 <= x <= 2 * w
          invariant forall r, c {:trigger localMapCache[r, c]} | 0 <= r <= 2 * h && 0 <= c <= 2 * w ::
            localMapCache[r, c] ==
              if (start <= r < y && c > 0) || (r == y && c > x) then g[r][c - 1] else g[r][c]
        {
          x := x - 1;
          localMapCache[y, x + 1] := localMapCache[y, x];
        }
        y := y + 1;
      }
      for k := 0 to 2 * h + 1
        invariant forall r, c {:trigger localMapCache[r, c]} | 0 <= r <= 2 * h && 0 <= c <= 2 * w ::
          localMapCache[r, c] ==
            if c == 0 then (if r < k then floor(TileAt(position, w, h, r, c)) else g[r][c])
            else if start <= r <= end then g[r][c - 1] else g[r][c]
      {
        localMapCache[k, 0] := floor(TileAt(position, w, h, k, 0));
      }
      SameGrid(Cells(), ColumnsMoved(g, floor, position, w, h, -1, start, end), w, h);
    }

    // The arms for a step north or south.
    method ShiftRows(floor: Floor, oldPos: Pos)
      requires Valid()
      modifies localMapCache
      ensures Cells() == RowsMoved(old(Cells()), floor, position, maxWalkCacheWidth, maxWalkCacheHeight,
                                   position.y - oldPos.y)
    {
      RowsBySign(Cells(), floor, position, maxWalkCacheWidth, maxWalkCacheHeight, position.y - oldPos.y);
      if oldPos.y > position.y {
        ShiftRowsSouth(floor);
      } else if oldPos.y < position.y {
        ShiftRowsNorth(floor);
      }
    }

    // The arms for a step east or west, which turn dy into a row range.
    method ShiftColumns(floor: Floor, oldPos: Pos, dy: int)
      requires Valid()
      modifies localMapCache
      ensures Cells() == ColumnsMoved(old(Cells()), floor, position, maxWalkCacheWidth, maxWalkCacheHeight,
                                      position.x - oldPos.x, FirstRow(maxWalkCacheHeight, dy),
                                      LastRow(maxWalkCacheHeight, dy))
    {
      var starty, endy := 0, 2 * maxWalkCacheHeight;
      if dy < 0 {
        endy := endy + dy;
      } else if dy > 0 {
        starty := dy;
      }
      ColumnsBySign(Cells(), floor, position, maxWalkCacheWidth, maxWalkCacheHeight, position.x - oldPos.x, starty,
                    endy);
      if oldPos.x < position.x {
        ShiftColumnsWest(floor, starty, endy);
      } else if oldPos.x > position.x {
        ShiftColumnsEast(floor, starty, endy);
      }
    }

    // Everything a step shifts, and the tile left behind.
    method SlideCache(floor: Floor, oldPos: Pos, dy: int)
      requires Valid()
      modifies localMapCache
      ensures Cells() == Slid(old(Cells()), floor, oldPos, position, maxWalkCacheWidth, maxWalkCacheHeight, dy)
    {
      ShiftRows(floor, oldPos);
      ShiftColumns(floor, oldPos, dy);
      UpdateTileCache(floor, oldPos.x - position.x, oldPos.y - position.y);
    }

    /** onCreatureMove for the creature's own move; the position is already the new one, and
        `otherFloor` says the move changed floors. */
    method OnCreatureMove(floor: Floor, oldPos: Pos, teleport: bool, otherFloor: bool)
      requires Valid()
      requires !teleport && !otherFloor ==> IsStep(oldPos, position)
      modifies localMapCache
      ensures Cells() ==
        if !isMapLoaded then old(Cells())
        else CacheStep(old(Cells()), oldPos, maxWalkCacheWidth, maxWalkCacheHeight,
                       if teleport || otherFloor then Teleport(position, floor) else Step(position, floor))
    {
      if isMapLoaded {
        if teleport || otherFloor {
          UpdateMapCache(floor);
        } else {
          SlideCache(floor, oldPos, Distance(oldPos, position));
        }
      }
    }
  }

  // Only the sign of an offset matters to a shift.
  lemma RowsBySign(g: Grid, floor: Floor, at: Pos, w: nat, h: nat, dy: int)
    requires Shaped(g, w, h)
    ensures RowsMoved(g, floor, at, w, h, dy) == RowsMoved(g, floor, at, w, h, Sign(dy))
    ensures RowsMoved(g, floor, at, w, h, 0) == g
  {
    SameGrid(RowsMoved(g, floor, at, w, h, dy), RowsMoved(g, floor, at, w, h, Sign(dy)), w, h);
    SameGrid(RowsMoved(g, floor, at, w, h, 0), g, w, h);
  }

  lemma ColumnsBySign(g: Grid, floor: Floor, at: Pos, w: nat, h: nat, dx: int, start: int, end: int)
    requires Shaped(g, w, h)
    ensures ColumnsMoved(g, floor, at, w, h, dx, start, end) == ColumnsMoved(g, floor, at, w, h, Sign(dx), start, end)
    ensures ColumnsMoved(g, floor, at, w, h, 0, start, end) == g
  {
    SameGrid(ColumnsMoved(g, floor, at, w, h, dx, start, end), ColumnsMoved(g, floor, at, w, h, Sign(dx), start, end),
             w, h);
    SameGrid(ColumnsMoved(g, floor, at, w, h, 0, start, end), g, w, h);
  }

  function Sign(x: int): int {
    if x < 0 then -1 else if x > 0 then 1 else 0
  }

  lemma SameGrid(a: Grid, b: Grid, w: nat, h: nat)
    requires Shaped(a, w, h) && Shaped(b, w, h)
    requires forall r, c | 0 <= r <= 2 * h && 0 <= c <= 2 * w :: a[r][c] == b[r][c]
    ensures a == b
  {
    assert forall r | 0 <= r < |a| :: a[r] == b[r];
  }
}
