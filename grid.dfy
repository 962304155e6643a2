/** The tile grid of a level: how many columns and rows it has and the
    pixel rectangle of each tile, with overlap and clamping at the level's
    edges (src/lib.rs:185-207). */
module TileGrid {
  import opened Arith
  import opened Results
  import opened Creator

  /** `(x, y, x2, y2)`: columns x0 <= x < x1 and rows y0 <= y < y1 of the
      level image. */
  datatype Bounds = Bounds(x0: U32, y0: U32, x1: U32, y1: U32)

  /** `(n as f64 / d as f64).ceil() as u32`. The quotient is exact enough
      for u32 operands that this is the integer ceiling; with d == 0 the
      quotient is NaN for n == 0, which the cast turns into 0, and +inf
      otherwise, which the cast saturates to u32::MAX. */
  function FloatCeilDiv(n: U32, d: U32): (q: U32)
    ensures d > 0 ==> n <= q * d < n + d
    ensures d == 0 ==> q == if n == 0 then 0 else U32_MAX
  {
    if d == 0 then (if n == 0 then 0 else U32_MAX) else CeilDiv(n, d)
  }

  /** `get_tile_count`: columns and rows needed to cover the level with
      tiles of `tileSize` pixels. */
  function GetTileCount(tc: TileCreator, level: U32): (r: Result<(U32, U32)>)
    ensures r.Ok? <==> level < tc.levels
    ensures r.Err? ==> r.error == UnexpectedError
    ensures r.Ok? && tc.tileSize > 0 ==>
      var (lw, lh) := GetDimensions(tc, level).value;
      && lw <= r.value.0 * tc.tileSize < lw + tc.tileSize
      && lh <= r.value.1 * tc.tileSize < lh + tc.tileSize
  {
    var (w, h) :- GetDimensions(tc, level);
    Ok((FloatCeilDiv(w, tc.tileSize), FloatCeilDiv(h, tc.tileSize)))
  }

  /** `get_tile_bounds`. Every u32 operation is checked as a debug build
      checks it, in the order the source evaluates them: the tile's start,
      then the level size, then the nominal extent with overlap, then the
      room left before the level's edge. */
  function GetTileBounds(tc: TileCreator, level: U32, col: U32, row: U32): (r: Result<Bounds>)
    ensures r.Err? ==> r.error == UnexpectedError || r.error == ArithmeticOverflow
    ensures r.Err? && r.error == UnexpectedError ==> level >= tc.levels
    ensures level >= tc.levels ==> r.Err?
    ensures r.Ok? ==>
      var (lw, lh) := GetDimensions(tc, level).value;
      r.value.x0 <= r.value.x1 <= lw && r.value.y0 <= r.value.y1 <= lh
  {
    var x :- TileStart(col, tc.tileSize, tc.tileOverlap);
    var y :- TileStart(row, tc.tileSize, tc.tileOverlap);
    var (lw, lh) :- GetDimensions(tc, level);
    var w :- NominalExtent(col, tc.tileSize, tc.tileOverlap);
    var h :- NominalExtent(row, tc.tileSize, tc.tileOverlap);
    var roomX :- CheckedSub(lw, x);
    var roomY :- CheckedSub(lh, y);
    Ok(Bounds(x, y, x + Min(w, roomX), y + Min(h, roomY)))
  }

  /** `i * tile_size - offset` along one axis, where the offset is the
      overlap except for the first column or row. */
  function TileStart(i: U32, tileSize: U32, overlap: U32): (r: Result<U32>)
    ensures r.Ok? <==> i * tileSize <= U32_MAX && (i == 0 || overlap <= i * tileSize)
    ensures r.Ok? && i == 0 ==> r.value == 0
    ensures r.Ok? && i > 0 ==> r.value + overlap == i * tileSize
  {
    var cellStart :- CheckedMul(i, tileSize);
    CheckedSub(cellStart, if i == 0 then 0 else overlap)
  }

  /** `tile_size + k * overlap` along one axis, with k == 1 for the first
      column or row and k == 2 otherwise. */
  function NominalExtent(i: U32, tileSize: U32, overlap: U32): (r: Result<U32>)
    ensures r.Ok? <==> tileSize + (if i == 0 then 1 else 2) * overlap <= U32_MAX
    ensures r.Ok? && i == 0 ==> r.value == tileSize + overlap
    ensures r.Ok? && i > 0 ==> r.value == tileSize + 2 * overlap
  {
    var overlaps :- CheckedMul(if i == 0 then 1 else 2, overlap);
    CheckedAdd(tileSize, overlaps)
  }

  /** A configuration under which no u32 operation of the tiler overflows:
      a positive tile size, an overlap no larger than a tile, and room for
      a tile with overlap on both sides. */
  predicate SoundConfig(tc: TileCreator) {
    && 0 < tc.tileSize
    && tc.tileOverlap <= tc.tileSize
    && tc.tileSize + 2 * tc.tileOverlap <= U32_MAX
  }

  /** Tile (col, row) of a level is part of its grid. */
  predicate InGrid(tc: TileCreator, level: U32, col: nat, row: nat) {
    var count := GetTileCount(tc, level);
    count.Ok? && col < count.value.0 && row < count.value.1
  }

  /** The reference geometry of a tile: its nominal cell of the grid,
      [col * tileSize, (col + 1) * tileSize), widened by the overlap on
      both sides and clipped to the level. */
  predicate DilatedCell(b: Bounds, tileSize: nat, overlap: nat, lw: nat, lh: nat, col: nat, row: nat) {
    && DilatedSpan(b.x0, b.x1, tileSize, overlap, lw, col)
    && DilatedSpan(b.y0, b.y1, tileSize, overlap, lh, row)
  }

  /** Along one axis: cell i of the grid, [i * tileSize, (i + 1) * tileSize),
      widened by the overlap on both sides and clipped to [0, len). */
  predicate DilatedSpan(start: nat, end: nat, tileSize: nat, overlap: nat, len: nat, i: nat) {
    && start == Max(0, i * tileSize - overlap)
    && end == Min(len, (i + 1) * tileSize + overlap)
  }

  /** Under a sound configuration every tile of the grid gets bounds, with
      no overflow: its nominal cell widened by the overlap and clipped to
      the level, a non-empty rectangle inside the level. Tiles in column
      or row 0 have no leading overlap. */
  lemma TileBoundsAreDilatedCells(tc: TileCreator, level: U32, col: U32, row: U32)
    requires SoundConfig(tc)
    requires InGrid(tc, level, col, row)
    ensures var r := GetTileBounds(tc, level, col, row);
      var lw, lh := GetDimensions(tc, level).value.0, GetDimensions(tc, level).value.1;
      && r.Ok?
      && DilatedCell(r.value, tc.tileSize, tc.tileOverlap, lw, lh, col, row)
      && 0 <= r.value.x0 < r.value.x1 <= lw
      && 0 <= r.value.y0 < r.value.y1 <= lh
      && (col == 0 ==> r.value.x0 == 0)
      && (row == 0 ==> r.value.y0 == 0)
  {
    var lw, lh := GetDimensions(tc, level).value.0, GetDimensions(tc, level).value.1;
    var cols, rows := GetTileCount(tc, level).value.0, GetTileCount(tc, level).value.1;
    var ts, ov := tc.tileSize, tc.tileOverlap;
    var x := AxisBounds(lw, ts, ov, cols, col);
    var y := AxisBounds(lh, ts, ov, rows, row);
    GetTileBoundsOfParts(tc, level, col, row, x, y);
  }

  /** `get_tile_bounds` once both starts and both extents are known and
      both starts lie within the level. */
  lemma GetTileBoundsOfParts(tc: TileCreator, level: U32, col: U32, row: U32, x: U32, y: U32)
    requires TileStart(col, tc.tileSize, tc.tileOverlap) == Ok(x)
    requires TileStart(row, tc.tileSize, tc.tileOverlap) == Ok(y)
    requires NominalExtent(col, tc.tileSize, tc.tileOverlap).Ok?
    requires NominalExtent(row, tc.tileSize, tc.tileOverlap).Ok?
    requires level < tc.levels
    requires x <= GetDimensions(tc, level).value.0 && y <= GetDimensions(tc, level).value.1
    ensures var lw, lh := GetDimensions(tc, level).value.0, GetDimensions(tc, level).value.1;
      var w := NominalExtent(col, tc.tileSize, tc.tileOverlap).value;
      var h := NominalExtent(row, tc.tileSize, tc.tileOverlap).value;
      GetTileBounds(tc, level, col, row) == Ok(Bounds(x, y, x + Min(w, lw - x), y + Min(h, lh - y)))
  {
    var lw, lh := GetDimensions(tc, level).value.0, GetDimensions(tc, level).value.1;
    assert CheckedSub(lw, x) == Ok(lw - x);
    assert CheckedSub(lh, y) == Ok(lh - y);
  }

  /** Along one axis, for cell i of a grid of count cells over len pixels:
      the start and the nominal extent fit in a u32 without underflow,
      the start lies inside, and start and clamped end are the cell
      widened by the overlap and clipped to [0, len). */
  lemma AxisBounds(len: U32, ts: U32, ov: U32, count: nat, i: U32) returns (start: U32)
    requires 0 < ts && ov <= ts && ts + 2 * ov <= U32_MAX
    requires len <= count * ts < len + ts
    requires i < count
    ensures TileStart(i, ts, ov) == Ok(start)
    ensures NominalExtent(i, ts, ov).Ok?
    ensures var extent := NominalExtent(i, ts, ov).value;
      && start < start + Min(extent, len - start) <= len
      && DilatedSpan(start, start + Min(extent, len - start), ts, ov, len, i)
      && (i == 0 ==> start == 0)
  {
    MulMonotone(i, count - 1, ts);
    assert (count - 1) * ts == count * ts - ts;
    assert (i + 1) * ts == i * ts + ts;
    if i > 0 {
      MulMonotone(1, i, ts);
    }
    start := i * ts - (if i == 0 then 0 else ov);
  }

  /** Every pixel of a level lies in a tile of the grid: pixel (px, py)
      in the tile whose nominal cell holds it. */
  lemma EveryPixelCovered(tc: TileCreator, level: U32, px: nat, py: nat) returns (col: U32, row: U32)
    requires SoundConfig(tc)
    requires level < tc.levels
    requires px < GetDimensions(tc, level).value.0
    requires py < GetDimensions(tc, level).value.1
    ensures col * tc.tileSize <= px < (col + 1) * tc.tileSize
    ensures row * tc.tileSize <= py < (row + 1) * tc.tileSize
    ensures InGrid(tc, level, col, row)
    ensures var r := GetTileBounds(tc, level, col, row);
      r.Ok? && r.value.x0 <= px < r.value.x1 && r.value.y0 <= py < r.value.y1
  {
    var lw, lh := GetDimensions(tc, level).value.0, GetDimensions(tc, level).value.1;
    var cols, rows := GetTileCount(tc, level).value.0, GetTileCount(tc, level).value.1;
    var ts, ov := tc.tileSize, tc.tileOverlap;
    col := CellOfPixel(px, lw, ts, cols);
    row := CellOfPixel(py, lh, ts, rows);
    TileBoundsAreDilatedCells(tc, level, col, row);
    var b := GetTileBounds(tc, level, col, row).value;
    assert b.x0 == Max(0, col * ts - ov) <= col * ts <= px;
    assert px < Min(lw, (col + 1) * ts + ov) == b.x1;
    assert b.y0 == Max(0, row * ts - ov) <= row * ts <= py;
    assert py < Min(lh, (row + 1) * ts + ov) == b.y1;
  }

  /** Along one axis: the cell holding pixel p is in the grid. */
  lemma CellOfPixel(p: nat, len: nat, tileSize: nat, count: U32) returns (i: U32)
    requires 0 < tileSize
    requires p < len <= count * tileSize
    ensures i * tileSize <= p < (i + 1) * tileSize
    ensures i < count
  {
    var q := p / tileSize;
    assert p == q * tileSize + p % tileSize;
    assert (q + 1) * tileSize == q * tileSize + tileSize;
    MulCancel(q, count, tileSize);
    i := q;
  }

  /** The last column ends exactly at the level's right edge and the last
      row exactly at its bottom edge. */
  lemma LastTilesReachTheEdges(tc: TileCreator, level: U32)
    requires SoundConfig(tc)
    requires level < tc.levels
    requires GetTileCount(tc, level).value.0 > 0
    requires GetTileCount(tc, level).value.1 > 0
    ensures var cols, rows := GetTileCount(tc, level).value.0, GetTileCount(tc, level).value.1;
      var lw, lh := GetDimensions(tc, level).value.0, GetDimensions(tc, level).value.1;
      var r := GetTileBounds(tc, level, cols - 1, rows - 1);
      r.Ok? && r.value.x1 == lw && r.value.y1 == lh
  {
    var cols, rows := GetTileCount(tc, level).value.0, GetTileCount(tc, level).value.1;
    TileBoundsAreDilatedCells(tc, level, cols - 1, rows - 1);
  }

  /** Neighbouring columns leave no gap: column col + 1 starts where
      column col ends, less the overlap on both sides, unless the level's
      edge cuts the shared strip short. */
  lemma NeighbourColumnsOverlap(tc: TileCreator, level: U32, col: U32, row: U32)
    requires SoundConfig(tc)
    requires InGrid(tc, level, col + 1, row)
    ensures var left := GetTileBounds(tc, level, col, row);
      var right := GetTileBounds(tc, level, col + 1, row);
      var lw := GetDimensions(tc, level).value.0;
      && left.Ok? && right.Ok?
      && right.value.x0 <= left.value.x1
      && left.value.x1 - right.value.x0 == Min(2 * tc.tileOverlap, lw - right.value.x0)
  {
    TileBoundsAreDilatedCells(tc, level, col, row);
    TileBoundsAreDilatedCells(tc, level, col + 1, row);
  }

  /** Neighbouring rows leave no gap, as columns do. */
  lemma NeighbourRowsOverlap(tc: TileCreator, level: U32, col: U32, row: U32)
    requires SoundConfig(tc)
    requires InGrid(tc, level, col, row + 1)
    ensures var upper := GetTileBounds(tc, level, col, row);
      var lower := GetTileBounds(tc, level, col, row + 1);
      var lh := GetDimensions(tc, level).value.1;
      && upper.Ok? && lower.Ok?
      && lower.value.y0 <= upper.value.y1
      && upper.value.y1 - lower.value.y0 == Min(2 * tc.tileOverlap, lh - lower.value.y0)
  {
    TileBoundsAreDilatedCells(tc, level, col, row);
    TileBoundsAreDilatedCells(tc, level, col, row + 1);
  }
}
