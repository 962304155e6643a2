/** The tiling run: `create_level` and `create_tiles` (src/lib.rs:114-158),
    as the plan of file-system calls each one makes, the methods that make
    them, and what the plans guarantee: ascending levels, each with its
    directory first and its tiles in column-major order, and the
    descriptor written once, after every level. */
module Pipeline {
  import opened Arith
  import opened Results
  import opened Creator
  import opened TileGrid
  import opened TileNames
  import opened Runs
  import DziDescriptor

  /** What a level asks of the level planner before its tiles, as values:
      the size of its image and its tile count. A plan is written against
      any such geometry, so that its layout can be reasoned about apart from
      the arithmetic behind the answers; the tiler's own geometry is
      `GeometryOf(tc)`. */
  datatype Geometry = Geometry(
    image: U32 -> Result<(U32, U32)>,
    count: U32 -> Result<(U32, U32)>)

  /** The answers of `get_level_image` and `get_tile_count`. */
  function GeometryOf(tc: TileCreator): Geometry {
    Geometry(
      (level: U32) => GetLevelImage(tc, level),
      (level: U32) => GetTileCount(tc, level))
  }

  /** g answers for `level` as the tiler does. */
  predicate Agrees(tc: TileCreator, g: Geometry, level: U32) {
    && g.image(level) == GetLevelImage(tc, level)
    && g.count(level) == GetTileCount(tc, level)
  }

  /** The tiler's geometry agrees with the tiler at every level: it meets
      what `CreateLevel` and `CreateTiles` ask of their geometry. */
  lemma GeometryOfAgrees(tc: TileCreator)
    ensures forall level: U32 :: Agrees(tc, GeometryOf(tc), level)
  {
    forall level: U32
      ensures Agrees(tc, GeometryOf(tc), level)
    {
    }
  }

  /** The step for tile (col, row): save the crop of its bounds, or the
      error `get_tile_bounds` raises. */
  function TileStep(tc: TileCreator, level: U32, lw: nat, lh: nat, col: U32, row: U32): (step: Step)
    ensures step.Abort? <==> GetTileBounds(tc, level, col, row).Err?
    ensures step.Abort? ==> step.error == GetTileBounds(tc, level, col, row).error
    ensures step.Perform? ==> step.event.SaveTile? && step.event.file == TilePath(tc.destPath, level, col, row)
  {
    match GetTileBounds(tc, level, col, row)
    case Err(e) => Abort(e)
    case Ok(b) =>
      Perform(SaveTile(TilePath(tc.destPath, level, col, row), level, col, row, lw, lh, CropOf(b)))
  }

  /** The crop rectangle of tile bounds: corner, width and height. */
  function CropOf(b: Bounds): (c: Crop)
    requires b.x0 <= b.x1 && b.y0 <= b.y1
    ensures c.x == b.x0 && c.y == b.y0 && c.x + c.width == b.x1 && c.y + c.height == b.y1
  {
    Crop(b.x0, b.y0, b.x1 - b.x0, b.y1 - b.y0)
  }

  /** The tiles of one column, rows in order. */
  function ColumnSteps(tc: TileCreator, level: U32, lw: nat, lh: nat, col: U32, rows: U32): seq<Step> {
    seq(rows, row requires 0 <= row < rows => TileStep(tc, level, lw, lh, col, row))
  }

  /** The tiles of a level, one block per column. */
  function TileSteps(tc: TileCreator, level: U32, lw: nat, lh: nat, cols: U32, rows: U32): seq<seq<Step>> {
    seq(cols, col requires 0 <= col < cols => ColumnSteps(tc, level, lw, lh, col, rows))
  }

  /** What `create_level` does: create the level's directory, resize the
      source, count the tiles, then crop and save every tile, columns
      outside and rows inside. */
  function LevelPlan(tc: TileCreator, g: Geometry, level: U32): (plan: seq<Step>)
    ensures |plan| >= 1 && plan[0] == Perform(CreateDirAll(LevelDir(tc.destPath, level)))
  {
    [Perform(CreateDirAll(LevelDir(tc.destPath, level)))] +
    match g.image(level)
    case Err(e) => [Abort(e)]
    case Ok((lw, lh)) =>
      match g.count(level)
      case Err(e) => [Abort(e)]
      case Ok((cols, rows)) => Concat(TileSteps(tc, level, lw, lh, cols, rows))
  }

  /** The levels of the pyramid, in ascending order. */
  function LevelPlans(tc: TileCreator, g: Geometry): seq<seq<Step>> {
    seq(tc.levels, level requires 0 <= level < tc.levels => LevelPlan(tc, g, level))
  }

  /** `File::create` then `write_all` of the descriptor. */
  function DescriptorPlan(tc: TileCreator): (steps: seq<Step>)
    ensures |steps| == 2 && steps[0] == Perform(CreateFile(tc.dziFilePath))
    ensures steps[1].Perform? && steps[1].event.WriteAll? && steps[1].event.file == tc.dziFilePath
  {
    var text := DziDescriptor.Text(DziDescriptor.Attributes(tc.tileSize, tc.tileOverlap, tc.width, tc.height));
    [Perform(CreateFile(tc.dziFilePath)), Perform(WriteAll(tc.dziFilePath, text))]
  }

  /** The descriptor the run writes reads back as the tiler's tile size,
      overlap and source size. */
  lemma DescriptorReadsBack(tc: TileCreator)
    ensures DziDescriptor.Parse(DescriptorPlan(tc)[1].event.text)
      == Some(DziDescriptor.Attributes(tc.tileSize, tc.tileOverlap, tc.width, tc.height))
  {
    DziDescriptor.ParseText(DziDescriptor.Attributes(tc.tileSize, tc.tileOverlap, tc.width, tc.height));
  }

  /** What `create_tiles` does: every level, then the descriptor. */
  function RunPlan(tc: TileCreator, g: Geometry): (run: seq<Step>)
    ensures |run| >= 2 && run[|run| - 2] == Perform(CreateFile(tc.dziFilePath))
  {
    Concat(LevelPlans(tc, g)) + DescriptorPlan(tc)
  }

  /** Where level l's steps begin in the run. */
  function LevelStart(tc: TileCreator, g: Geometry, l: nat): nat
    requires l <= tc.levels
  {
    Offset(LevelPlans(tc, g), l)
  }

  lemma TileStepOfBounds(tc: TileCreator, level: U32, lw: nat, lh: nat, col: U32, row: U32, b: Bounds)
    requires GetTileBounds(tc, level, col, row) == Ok(b)
    ensures TileStep(tc, level, lw, lh, col, row)
      == Perform(SaveTile(TilePath(tc.destPath, level, col, row), level, col, row, lw, lh, CropOf(b)))
  {
  }

  lemma TileStepOfError(tc: TileCreator, level: U32, lw: nat, lh: nat, col: U32, row: U32, error: TilingError)
    requires GetTileBounds(tc, level, col, row) == Err(error)
    ensures TileStep(tc, level, lw, lh, col, row) == Abort(error)
  {
  }

  /** Every level begins by creating its directory. */
  lemma LevelPlanStartsWithDir(tc: TileCreator, g: Geometry, level: U32) returns (body: seq<Step>)
    ensures LevelPlan(tc, g, level) == [Perform(CreateDirAll(LevelDir(tc.destPath, level)))] + body
  {
    body := LevelPlan(tc, g, level)[1..];
  }

  /** A level whose image and tile count are known: its directory, then its
      tiles. */
  lemma LevelPlanOfGrid(tc: TileCreator, g: Geometry, level: U32, lw: U32, lh: U32, cols: U32, rows: U32)
    requires g.image(level) == Ok((lw, lh))
    requires g.count(level) == Ok((cols, rows))
    ensures LevelPlan(tc, g, level)
      == [Perform(CreateDirAll(LevelDir(tc.destPath, level)))] + Concat(TileSteps(tc, level, lw, lh, cols, rows))
  {
  }

  /** A level whose image fails: its directory, then the error. */
  lemma LevelPlanOfError(tc: TileCreator, g: Geometry, level: U32, error: TilingError)
    requires g.image(level) == Err(error)
    ensures LevelPlan(tc, g, level) == [Perform(CreateDirAll(LevelDir(tc.destPath, level)))] + [Abort(error)]
  {
  }

  /** `create_level`: makes the calls of the level's plan until one fails. */
  method CreateLevel(tc: TileCreator, ghost g: Geometry, level: U32, fails: IoOracle, done: seq<Event>)
    returns (r: Result<()>, trace: seq<Event>)
    requires Agrees(tc, g, level)
    ensures Run(r, trace) == Execute(LevelPlan(tc, g, level), fails, done)
  {
    var dir := LevelDir(tc.destPath, level);
    ghost var body := LevelPlanStartsWithDir(tc, g, level);
    if fails(done, CreateDirAll(dir)) {
      ExecuteFailing(CreateDirAll(dir), body, fails, done);
      return Err(IOError), done;
    }
    ExecutePerform(CreateDirAll(dir), body, fails, done);
    trace := done + [CreateDirAll(dir)];
    var image := GetLevelImage(tc, level);
    if image.Err? {
      LevelPlanOfError(tc, g, level, image.error);
      ExecuteAbort(image.error, [], fails, trace);
      return Err(image.error), trace;
    }
    // get_tile_count checks the level that get_level_image has just
    // accepted: it cannot fail here
    var count := GetTileCount(tc, level);
    var (lw, lh) := image.value;
    var (cols, rows) := count.value;
    LevelPlanOfGrid(tc, g, level, lw, lh, cols, rows);
    ghost var tiles := TileSteps(tc, level, lw, lh, cols, rows);
    ghost var whole := Execute(LevelPlan(tc, g, level), fails, done);
    assert tiles[0..] == tiles;
    var col: U32 := 0;
    while col < cols
      invariant col <= cols
      invariant whole == Execute(Concat(tiles[col..]), fails, trace)
      decreases cols - col
    {
      var outcome, after := CreateColumn(tc, level, lw, lh, col, rows, fails, trace);
      ConcatFromStep(tiles, col);
      ExecuteAppend(tiles[col], Concat(tiles[col + 1..]), fails, trace);
      if outcome.Err? {
        return outcome, after;
      }
      trace := after;
      col := col + 1;
    }
    ConcatFromEnd(tiles);
    r := Ok(());
  }

  /** The inner loop of `create_level`: the tiles of column col, rows in
      order, until a call fails. */
  method CreateColumn(tc: TileCreator, level: U32, lw: U32, lh: U32, col: U32, rows: U32,
    fails: IoOracle, done: seq<Event>)
    returns (r: Result<()>, trace: seq<Event>)
    ensures Run(r, trace) == Execute(ColumnSteps(tc, level, lw, lh, col, rows), fails, done)
  {
    ghost var column := ColumnSteps(tc, level, lw, lh, col, rows);
    ghost var whole := Execute(column, fails, done);
    assert column[0..] == column;
    trace := done;
    var row: U32 := 0;
    while row < rows
      invariant row <= rows
      invariant whole == Execute(column[row..], fails, trace)
      decreases rows - row
    {
      ghost var next := column[row + 1..];
      assert column[row..] == [column[row]] + next;
      var bounds := GetTileBounds(tc, level, col, row);
      if bounds.Err? {
        TileStepOfError(tc, level, lw, lh, col, row, bounds.error);
        ExecuteAbort(bounds.error, next, fails, trace);
        return Err(bounds.error), trace;
      }
      // the bounds lie inside the level with x <= x2 and y <= y2: the
      // crop's width and height cannot underflow
      var b := bounds.value;
      var tile := SaveTile(TilePath(tc.destPath, level, col, row), level, col, row, lw, lh, CropOf(b));
      TileStepOfBounds(tc, level, lw, lh, col, row, b);
      if fails(trace, tile) {
        ExecuteFailing(tile, next, fails, trace);
        return Err(ImageError), trace;
      }
      ExecutePerform(tile, next, fails, trace);
      trace := trace + [tile];
      row := row + 1;
    }
    r := Ok(());
  }

  /** Running the descriptor's two calls. */
  lemma ExecuteDescriptor(tc: TileCreator, fails: IoOracle, done: seq<Event>)
    ensures var create, write := CreateFile(tc.dziFilePath), WriteAll(tc.dziFilePath, DziDescriptor.Text(DziDescriptor.Attributes(tc.tileSize, tc.tileOverlap, tc.width, tc.height)));
      Execute(DescriptorPlan(tc), fails, done) ==
        if fails(done, create) then Run(Err(IOError), done)
        else if fails(done + [create], write) then Run(Err(IOError), done + [create])
        else Run(Ok(()), done + [create] + [write])
  {
    var create, write := CreateFile(tc.dziFilePath), WriteAll(tc.dziFilePath, DziDescriptor.Text(DziDescriptor.Attributes(tc.tileSize, tc.tileOverlap, tc.width, tc.height)));
    assert DescriptorPlan(tc) == [Perform(create)] + [Perform(write)];
    if !fails(done, create) {
      ExecutePerform(create, [Perform(write)], fails, done);
      if !fails(done + [create], write) {
        ExecutePerform(write, [], fails, done + [create]);
      }
    }
  }

  /** `create_tiles`: every level in ascending order, then the descriptor;
      the first error ends the run. On success it returns the descriptor's
      path and the tile directory. */
  method CreateTiles(tc: TileCreator, ghost g: Geometry, fails: IoOracle, done: seq<Event>)
    returns (r: Result<(Path, Path)>, trace: seq<Event>)
    requires forall level: U32 :: level < tc.levels ==> Agrees(tc, g, level)
    ensures var run := Execute(RunPlan(tc, g), fails, done);
      && trace == run.done
      && (r.Ok? <==> run.outcome.Ok?)
      && (r.Err? ==> r.error == run.outcome.error)
    ensures r.Ok? ==> r.value == (tc.dziFilePath, tc.destPath)
    ensures r.Ok? ==> |trace| >= 2 && trace[|trace| - 2..] == [CreateFile(tc.dziFilePath), WriteAll(tc.dziFilePath, DziDescriptor.Text(DziDescriptor.Attributes(tc.tileSize, tc.tileOverlap, tc.width, tc.height)))]
  {
    ghost var levels := LevelPlans(tc, g);
    ghost var whole := Execute(RunPlan(tc, g), fails, done);
    assert levels[0..] == levels;
    trace := done;
    var level: U32 := 0;
    while level < tc.levels
      invariant level <= tc.levels
      invariant whole == Execute(Concat(levels[level..]) + DescriptorPlan(tc), fails, trace)
      decreases tc.levels - level
    {
      var outcome, after := CreateLevel(tc, g, level, fails, trace);
      ConcatFromStep(levels, level);
      assert Concat(levels[level..]) + DescriptorPlan(tc)
        == LevelPlan(tc, g, level) + (Concat(levels[level + 1..]) + DescriptorPlan(tc));
      ExecuteAppend(LevelPlan(tc, g, level), Concat(levels[level + 1..]) + DescriptorPlan(tc), fails, trace);
      if outcome.Err? {
        return Err(outcome.error), after;
      }
      trace := after;
      level := level + 1;
    }
    ConcatFromEnd(levels);
    assert Concat(levels[level..]) + DescriptorPlan(tc) == DescriptorPlan(tc);
    ExecuteDescriptor(tc, fails, trace);
    var text := DziDescriptor.Text(DziDescriptor.Attributes(tc.tileSize, tc.tileOverlap, tc.width, tc.height));
    if fails(trace, CreateFile(tc.dziFilePath)) {
      return Err(IOError), trace;
    }
    trace := trace + [CreateFile(tc.dziFilePath)];
    if fails(trace, WriteAll(tc.dziFilePath, text)) {
      return Err(IOError), trace;
    }
    trace := trace + [WriteAll(tc.dziFilePath, text)];
    r := Ok((tc.dziFilePath, tc.destPath));
  }

  // ---------------------------------------------------------------------
  // What the plans guarantee. The layout of a run holds for any geometry;
  // what its tiles are holds for a geometry that agrees with the tiler, as
  // `GeometryOf(tc)` does.

  /** A level outside the pyramid: `create_level` still creates its
      directory, then fails with `UnexpectedError`. */
  lemma LevelPlanOutOfRange(tc: TileCreator, level: U32)
    requires level >= tc.levels
    ensures LevelPlan(tc, GeometryOf(tc), level)
      == [Perform(CreateDirAll(LevelDir(tc.destPath, level))), Abort(UnexpectedError)]
  {
    LevelPlanOfError(tc, GeometryOf(tc), level, UnexpectedError);
  }

  /** Step i of a level with a grid, past its directory, is the step of a
      tile (col, row) of the grid, at i == 1 + col * rows + row. */
  lemma LevelStepIsTile(tc: TileCreator, g: Geometry, level: U32, i: nat) returns (col: U32, row: U32)
    requires g.image(level).Ok? && g.count(level).Ok?
    requires 0 < i < |LevelPlan(tc, g, level)|
    ensures col < g.count(level).value.0 && row < g.count(level).value.1
    ensures i == 1 + col * g.count(level).value.1 + row
    ensures LevelPlan(tc, g, level)[i]
      == TileStep(tc, level, g.image(level).value.0, g.image(level).value.1, col, row)
  {
    var (lw, lh) := g.image(level).value;
    var (cols, rows) := g.count(level).value;
    LevelPlanOfGrid(tc, g, level, lw, lh, cols, rows);
    var tiles := TileSteps(tc, level, lw, lh, cols, rows);
    var c := BlockOf(tiles, 0, i - 1);
    col := c;
    row := i - 1 - Offset(tiles, c);
    ConcatAt(tiles, c, row);
    UniformOffset(tiles, rows, c);
  }

  /** Tile (col, row) of a level's grid is its step 1 + col * rows + row,
      and the level has 1 + cols * rows steps. */
  lemma LevelTileAt(tc: TileCreator, g: Geometry, level: U32, col: U32, row: U32) returns (j: nat)
    requires g.image(level).Ok? && g.count(level).Ok?
    requires col < g.count(level).value.0 && row < g.count(level).value.1
    ensures |LevelPlan(tc, g, level)| == 1 + g.count(level).value.0 * g.count(level).value.1
    ensures j == col * g.count(level).value.1 + row
    ensures 1 + j < |LevelPlan(tc, g, level)|
    ensures LevelPlan(tc, g, level)[1 + j]
      == TileStep(tc, level, g.image(level).value.0, g.image(level).value.1, col, row)
  {
    var (lw, lh) := g.image(level).value;
    var (cols, rows) := g.count(level).value;
    LevelPlanOfGrid(tc, g, level, lw, lh, cols, rows);
    var tiles := TileSteps(tc, level, lw, lh, cols, rows);
    ConcatLength(tiles);
    UniformOffset(tiles, rows, cols);
    UniformOffset(tiles, rows, col);
    ConcatAt(tiles, col, row);
    MulMonotone(col + 1, cols, rows);
    j := col * rows + row;
  }

  lemma TileBoundsExist(tc: TileCreator, level: U32, col: U32, row: U32)
    requires SoundConfig(tc)
    requires InGrid(tc, level, col, row)
    ensures GetTileBounds(tc, level, col, row).Ok?
  {
    TileBoundsAreDilatedCells(tc, level, col, row);
  }

  /** The steps of a level of the pyramid, with a geometry that agrees
      with the tiler: its directory first, then tile (col, row) at step
      1 + col * rows + row, saving the crop of its bounds -- its nominal
      cell widened by the overlap and clipped to the level -- to
      `<level>/<col>_<row>.jpg`. */
  lemma LevelPlanTiles(tc: TileCreator, g: Geometry, level: U32, col: U32, row: U32) returns (j: nat)
    requires Agrees(tc, g, level)
    requires SoundConfig(tc)
    requires InGrid(tc, level, col, row)
    ensures GetTileBounds(tc, level, col, row).Ok?
    ensures |LevelPlan(tc, g, level)| == 1 + GetTileCount(tc, level).value.0 * GetTileCount(tc, level).value.1
    ensures j == col * GetTileCount(tc, level).value.1 + row
    ensures 1 + j < |LevelPlan(tc, g, level)|
    ensures LevelPlan(tc, g, level)[0] == Perform(CreateDirAll(LevelDir(tc.destPath, level)))
    ensures DilatedCell(GetTileBounds(tc, level, col, row).value, tc.tileSize, tc.tileOverlap,
      GetDimensions(tc, level).value.0, GetDimensions(tc, level).value.1, col, row)
    ensures LevelPlan(tc, g, level)[1 + j] == Perform(SaveTile(TilePath(tc.destPath, level, col, row),
      level, col, row, GetDimensions(tc, level).value.0, GetDimensions(tc, level).value.1,
      CropOf(GetTileBounds(tc, level, col, row).value)))
  {
    j := TileSaveInLevel(tc, g, level, col, row);
    TileBoundsAreDilatedCells(tc, level, col, row);
  }

  /** Tile (col, row) of a level of the pyramid is saved at step
      1 + col * rows + row of the level. */
  lemma TileSaveInLevel(tc: TileCreator, g: Geometry, level: U32, col: U32, row: U32) returns (j: nat)
    requires Agrees(tc, g, level)
    requires SoundConfig(tc)
    requires InGrid(tc, level, col, row)
    ensures GetTileBounds(tc, level, col, row).Ok?
    ensures |LevelPlan(tc, g, level)| == 1 + GetTileCount(tc, level).value.0 * GetTileCount(tc, level).value.1
    ensures j == col * GetTileCount(tc, level).value.1 + row
    ensures 1 + j < |LevelPlan(tc, g, level)|
    ensures LevelPlan(tc, g, level)[1 + j] == Perform(SaveTile(TilePath(tc.destPath, level, col, row),
      level, col, row, GetDimensions(tc, level).value.0, GetDimensions(tc, level).value.1,
      CropOf(GetTileBounds(tc, level, col, row).value)))
  {
    j := LevelTileAt(tc, g, level, col, row);
    TileBoundsExist(tc, level, col, row);
    TileStepOfBounds(tc, level, GetDimensions(tc, level).value.0, GetDimensions(tc, level).value.1,
      col, row, GetTileBounds(tc, level, col, row).value);
  }

  /** Under a sound configuration a level of the pyramid, with a geometry
      that agrees with the tiler, plans no error of the tiler: every step
      is a file-system call. */
  lemma LevelPlanPerformsOnly(tc: TileCreator, g: Geometry, level: U32)
    requires Agrees(tc, g, level)
    requires SoundConfig(tc)
    requires level < tc.levels
    ensures PerformsOnly(LevelPlan(tc, g, level))
  {
    var plan := LevelPlan(tc, g, level);
    var (lw, lh) := GetDimensions(tc, level).value;
    forall i | 0 <= i < |plan|
      ensures plan[i].Perform?
    {
      if i > 0 {
        var col, row := LevelStepIsTile(tc, g, level, i);
        TileBoundsAreDilatedCells(tc, level, col, row);
        TileStepOfBounds(tc, level, lw, lh, col, row, GetTileBounds(tc, level, col, row).value);
      }
    }
  }

  /** A step that is a `File::create` or a `write_all` call. Tiles are files
      too, but `save` is a call of its own; only the descriptor's steps are
      of this kind. */
  predicate IsCreateOrWriteAll(s: Step) {
    s.Perform? && (s.event.CreateFile? || s.event.WriteAll?)
  }

  /** No step of a level is a `File::create` or a `write_all` call: a level
      creates its directory and saves its tiles with `save`. */
  lemma LevelMakesNoCreateOrWriteAll(tc: TileCreator, g: Geometry, level: U32, i: nat)
    requires i < |LevelPlan(tc, g, level)|
    ensures !IsCreateOrWriteAll(LevelPlan(tc, g, level)[i])
  {
    if i > 0 && g.image(level).Ok? && g.count(level).Ok? {
      var col, row := LevelStepIsTile(tc, g, level, i);
    }
  }

  /** Ascending order: the run performs level 0, then level 1, and so on,
      each level's steps in one contiguous block, and the descriptor's two
      steps after the last level. */
  lemma RunPlanLayout(tc: TileCreator, g: Geometry, l: nat)
    requires l < tc.levels
    ensures |RunPlan(tc, g)| == LevelStart(tc, g, tc.levels) + 2
    ensures LevelStart(tc, g, l) < LevelStart(tc, g, l + 1) <= LevelStart(tc, g, tc.levels)
    ensures RunPlan(tc, g)[LevelStart(tc, g, l)..LevelStart(tc, g, l + 1)] == LevelPlan(tc, g, l)
    ensures RunPlan(tc, g)[LevelStart(tc, g, tc.levels)..] == DescriptorPlan(tc)
  {
    var levels := LevelPlans(tc, g);
    ConcatBlock(levels, l);
    ConcatLength(levels);
    var all := Concat(levels);
    assert RunPlan(tc, g)[..|all|] == all;
    assert RunPlan(tc, g)[LevelStart(tc, g, l)..LevelStart(tc, g, l + 1)]
      == all[LevelStart(tc, g, l)..LevelStart(tc, g, l + 1)];
  }

  /** Step k of level l is step LevelStart(l) + k of the run. */
  lemma LevelStepInRun(tc: TileCreator, g: Geometry, l: U32, k: nat)
    requires l < tc.levels
    requires k < |LevelPlan(tc, g, l)|
    ensures LevelStart(tc, g, l) + k < |RunPlan(tc, g)|
    ensures RunPlan(tc, g)[LevelStart(tc, g, l) + k] == LevelPlan(tc, g, l)[k]
  {
    RunPlanLayout(tc, g, l);
    var start, plan, run := LevelStart(tc, g, l), LevelPlan(tc, g, l), RunPlan(tc, g);
    SliceAt(run, start, start + |plan|, k);
  }

  /** Step i of the run's levels is step i - LevelStart(l) of one level l. */
  lemma RunStepOfLevel(tc: TileCreator, g: Geometry, i: nat) returns (l: U32)
    requires i < LevelStart(tc, g, tc.levels)
    ensures |RunPlan(tc, g)| == LevelStart(tc, g, tc.levels) + 2
    ensures l < tc.levels
    ensures LevelStart(tc, g, l) <= i < LevelStart(tc, g, l + 1)
    ensures RunPlan(tc, g)[i] == LevelPlan(tc, g, l)[i - LevelStart(tc, g, l)]
  {
    var k := BlockOfThen(LevelPlans(tc, g), DescriptorPlan(tc), i);
    l := k;
  }

  /** The descriptor is written once, by the last two steps of the run:
      no earlier step is a `File::create` or a `write_all` call. */
  lemma DescriptorWrittenLast(tc: TileCreator, g: Geometry, i: nat)
    requires i < |RunPlan(tc, g)|
    ensures i >= |RunPlan(tc, g)| - 2 <==> IsCreateOrWriteAll(RunPlan(tc, g)[i])
  {
    ConcatLength(LevelPlans(tc, g));
    if i < LevelStart(tc, g, tc.levels) {
      var l := RunStepOfLevel(tc, g, i);
      LevelMakesNoCreateOrWriteAll(tc, g, l, i - LevelStart(tc, g, l));
    }
  }

  /** With a sound configuration, a geometry that agrees with the tiler and
      a file system where no call fails, the run succeeds: every planned
      step is a call and all of them are made, in plan order. */
  lemma RunSucceedsWhenIoSucceeds(tc: TileCreator, g: Geometry, fails: IoOracle, done: seq<Event>)
    requires forall level: U32 :: level < tc.levels ==> Agrees(tc, g, level)
    requires SoundConfig(tc)
    requires forall d, e :: !fails(d, e)
    ensures PerformsOnly(RunPlan(tc, g))
    ensures Execute(RunPlan(tc, g), fails, done) == Run(Ok(()), done + EventsOf(RunPlan(tc, g)))
  {
    var plan := RunPlan(tc, g);
    ConcatLength(LevelPlans(tc, g));
    forall i | 0 <= i < |plan|
      ensures plan[i].Perform?
    {
      if i < LevelStart(tc, g, tc.levels) {
        var l := RunStepOfLevel(tc, g, i);
        LevelPlanPerformsOnly(tc, g, l);
      }
    }
    ExecuteWithoutFailures(plan, fails, done);
  }

  /** Each level's block in the run begins by creating its directory. */
  lemma LevelDirectoryFirst(tc: TileCreator, g: Geometry, level: U32)
    requires level < tc.levels
    ensures LevelStart(tc, g, level) < |RunPlan(tc, g)|
    ensures RunPlan(tc, g)[LevelStart(tc, g, level)] == Perform(CreateDirAll(LevelDir(tc.destPath, level)))
  {
    var _ := LevelPlanStartsWithDir(tc, g, level);
    LevelStepInRun(tc, g, level, 0);
  }

  /** Every tile of every level is saved, after the directory of its level
      is created: at step LevelStart(level) + 1 + col * rows + row of the
      run, with the crop of its bounds. */
  lemma EveryTileSaved(tc: TileCreator, g: Geometry, level: U32, col: U32, row: U32) returns (i: nat)
    requires Agrees(tc, g, level)
    requires SoundConfig(tc)
    requires InGrid(tc, level, col, row)
    ensures GetTileBounds(tc, level, col, row).Ok?
    ensures i == LevelStart(tc, g, level) + 1 + col * GetTileCount(tc, level).value.1 + row
    ensures i < |RunPlan(tc, g)|
    ensures RunPlan(tc, g)[i] == Perform(SaveTile(TilePath(tc.destPath, level, col, row), level, col, row,
      GetDimensions(tc, level).value.0, GetDimensions(tc, level).value.1,
      CropOf(GetTileBounds(tc, level, col, row).value)))
  {
    var j := TileSaveInLevel(tc, g, level, col, row);
    LevelStepInRun(tc, g, level, 1 + j);
    i := LevelStart(tc, g, level) + (1 + j);
  }

  /** A run that has created the descriptor file has run every level to
      its end without error first. */
  lemma DescriptorCreatedAfterLevels(tc: TileCreator, g: Geometry, fails: IoOracle, done: seq<Event>)
    ensures var run, levels := Execute(RunPlan(tc, g), fails, done), Execute(Concat(LevelPlans(tc, g)), fails, done);
      CreateFile(tc.dziFilePath) in run.done[|done|..] ==> levels.outcome.Ok? && levels.done <= run.done
  {
    var all, desc := Concat(LevelPlans(tc, g)), DescriptorPlan(tc);
    assert RunPlan(tc, g) == all + desc;
    forall m | 0 <= m < |all| && all[m].Perform?
      ensures all[m].event != CreateFile(tc.dziFilePath)
    {
      assert all[m] == RunPlan(tc, g)[m];
      DescriptorWrittenLast(tc, g, m);
    }
    ExecuteAppendReaches(all, desc, fails, done, CreateFile(tc.dziFilePath));
  }
}
