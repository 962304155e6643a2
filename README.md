# dzi tiler — a Dafny model

`dzi` cuts a large image into a Deep Zoom Image (DZI) pyramid. A
`TileCreator` holds the source image, the tile size, the overlap between
neighbouring tiles and the number of levels. Level `levels - 1` is the source
at full resolution, and each lower level halves the one above it, rounding
up, down to a single pixel at level 0. `create_tiles` walks the levels in
ascending order. For each level it creates the directory `<dest>/<level>`,
resizes the source to fit the level's size and cuts that image into a grid
of tiles. Each tile is its nominal `tile_size` cell widened by the overlap on
both sides and clipped to the level. Tiles are saved column by column as
`<col>_<row>.jpg`. Once every level is done, the XML descriptor is written:
`<stem>.dzi` beside the source image for a tiler opened from a file, or the
path the caller gives to `new_from_rgb`. The first error stops the run.

The model, module by module:

- `Results`: the error kinds and `DZIResult`.
- `Arith`: exact integer replacements for the `f64` arithmetic and u32 checked
  arithmetic. The ceiling of log2 becomes `CeilLog2` and `0.5.powi(k)` becomes
  division by `Pow2(k)`. `ceil(a / b)` becomes `CeilDiv`.
- `Creator`: the `TileCreator` value, its two constructors and the level
  planner (`calculate_levels`, `check_level`, `get_scale`, `get_dimensions`,
  `get_level_image`).
- `TileGrid`: `get_tile_count` and `get_tile_bounds`, with their bounds,
  coverage and overlap properties.
- `TileNames` and `Decimal`: the tile paths and the decimal rendering of
  numbers.
- `DziDescriptor`: the descriptor template and a reader for it.
- `Runs`: file-system calls as events, and how a plan of calls runs against a
  file system that may fail. Whether a call fails is decided by an oracle
  parameter.
- `Pipeline`: `create_level` and `create_tiles`. Each is a method with loops
  proved equal to running a plan (`LevelPlan`, `RunPlan`). The inner
  `for row` loop of `create_level` is the method `CreateColumn`, so that each
  loop is proved on its own. Lemmas about the plans give the run order,
  where each tile is saved and when the descriptor is written.
- `TestInfo`: the repository's `test_info` values.

A plan is written against a `Geometry`: the answers to "how large is level l"
and "how many tiles does it have".
The methods take the geometry as a ghost parameter that must agree with the
tiler (`Agrees`). `GeometryOfAgrees` shows that the tiler's own answers,
`GeometryOf(tc)`, qualify. The layout lemmas (`RunPlanLayout`,
`DescriptorWrittenLast`, ...) hold for any geometry. The lemmas about what each
tile is (`EveryTileSaved`, `LevelPlanTiles`, ...) need agreement only at the
level concerned.

The level count is not the bit length of `max(width, height)`: the code
computes `ceil(log2(max(width, height))) + 1`, which differs whenever the
larger side is not a power of two. For example, 5184 has bit length 13, but
the code builds 14 levels, as the repository's own test expects.
`CalculateLevels` follows the code, and `TestInfo.LevelsExceedBitLength`
shows the difference.

u32 arithmetic in `get_tile_bounds` is checked as a debug build checks it. An
underflow or overflow panics there; here it is the error `ArithmeticOverflow`,
raised at the first operation that leaves the u32 range, in the source's
evaluation order.

## Model

| member | source | states |
|---|---|---|
| Arith.Pow2 | src/lib.rs:170-173 | the power of two a level's scale divides by is at least 1 |
| Arith.Pow2Add | src/lib.rs:170-173 | 2^a * 2^b == 2^(a+b), which ties the scale of a level to the scale of the top level |
| Arith.Pow2Monotone | src/lib.rs:170-173 | larger exponents give larger powers of two |
| Arith.Pow2Of32 | src/lib.rs:109-112 | 2^32 is one more than u32::MAX, so a u32 needs at most 32 halvings |
| Arith.CeilDiv | src/lib.rs:180-181 | the quotient q of n by d > 0 rounded up satisfies n <= q*d < n+d and q <= n |
| Arith.CeilDivUnique | src/lib.rs:180-181 | a q with n <= q*d < n+d is the rounded-up quotient, and only that q is |
| Arith.CeilDivHalved | src/lib.rs:176-183 | dividing by 2d rounding up is dividing by d and then by 2, both rounding up |
| Arith.CeilLog2 | src/lib.rs:110 | k is the least exponent with m <= 2^k, the exact value of ceil(log2(m)) |
| Arith.CeilLog2Unique | src/lib.rs:110 | any k with 2^(k-1) < m <= 2^k is the ceiling of log2(m) |
| Arith.CeilLog2Least | src/lib.rs:110 | m <= 2^k implies ceil(log2(m)) <= k |
| Arith.Pow2Reflects | src/lib.rs:110 | 2^i < 2^j implies i < j |
| Arith.BitLength | src/lib.rs:110 | b is the number of binary digits of n: 2^(b-1) <= n < 2^b |
| Arith.BitLengthUnique | src/lib.rs:110 | any b with 2^(b-1) <= n < 2^b is the bit length of n |
| Arith.CeilLog2IsBitLengthOfPredecessor | src/lib.rs:110 | ceil(log2(m)) is the bit length of m - 1, not of m |
| Arith.CheckedSub | src/lib.rs:196-205 | u32 `a - b` as a debug build runs it: Ok exactly when b <= a, with a result that adds back to a; `ArithmeticOverflow` otherwise |
| Arith.CheckedAdd | src/lib.rs:201-206 | u32 `a + b` as a debug build runs it: Ok exactly when the sum fits in a u32; `ArithmeticOverflow` otherwise |
| Arith.CheckedMul | src/lib.rs:196-202 | u32 `a * b` as a debug build runs it: Ok exactly when the product fits in a u32, with the product as its value; `ArithmeticOverflow` otherwise |
| Decimal.Dec | src/lib.rs:145 | `format!("{}", n)` is a non-empty string of digits |
| Decimal.ParseDecOfDec | src/lib.rs:145 | reading back the decimal digits of n gives n |
| Decimal.DecInjective | src/lib.rs:145 | distinct numbers are written as distinct strings |
| Decimal.SpanDigits | src/lib.rs:153 | splits a string into its all-digit prefix and a rest that does not start with a digit, losing nothing |
| Decimal.SpanDigitsOfPrefix | src/lib.rs:153 | digits followed by a non-digit split back exactly |
| DziDescriptor.Text | src/lib.rs:119-129 | the filled template starts with the XML declaration and the `<Image` element with its namespace, and ends with `"/>` and `</Image>` with no final line feed |
| DziDescriptor.ReadNumberOf | src/lib.rs:119-129 | a literal followed by a number reads back as that number and the rest |
| DziDescriptor.ParseText | src/lib.rs:119-129 | the descriptor written for tile size, overlap, width and height reads back as exactly those four values |
| DziDescriptor.TextInjective | src/lib.rs:119-129 | different attributes give different descriptor texts |
| Creator.CalculateLevels | src/lib.rs:109-112 | 1 <= levels <= 33, max(w,h) <= 2^(levels-1), and 2^(levels-2) < max(w,h) unless levels == 1 |
| Creator.NewFromImagePath | src/lib.rs:40-82 | a decoding error is returned as is; otherwise the result is Ok exactly when the path has a parent and a Unicode stem; the new tiler has the decoded size, the given tile size and overlap, and the level count for that size; its destination is `<stem>_files` and its descriptor `<stem>.dzi`, two different paths in the image's parent directory |
| Creator.NewFromRgb | src/lib.rs:84-107 | Ok exactly when the buffer is accepted, `IncorrectRGBInputDimensions` otherwise; the tiler has the given fields and the level count for its size |
| Creator.CheckLevel | src/lib.rs:136-141 | Ok exactly when level < levels, `UnexpectedError` otherwise |
| Creator.GetScale | src/lib.rs:170-173 | Ok exactly when level < levels; scale * 2^level == 2^(levels-1); the scale is 1 only at the top level |
| Creator.GetDimensions | src/lib.rs:176-183 | Ok exactly when level < levels, `UnexpectedError` otherwise; each side is the source side divided by 2^(levels-1-level), rounded up |
| Creator.GetLevelImage | src/lib.rs:161-167 | the target size handed to `resize` is the level's dimensions; it exists exactly for level < levels |
| Creator.TopLevelIsSource | src/lib.rs:176-183 | the top level has the source's size |
| Creator.BottomLevelIsOnePixel | src/lib.rs:176-183 | level 0 is 1 x 1, or 0 along a side of length 0 |
| Creator.LevelHalvesNext | src/lib.rs:176-183 | each level is the next one halved, rounding up |
| TileGrid.FloatCeilDiv | src/lib.rs:188-189 | for d > 0 the rounded-up quotient; for d == 0 the saturating cast of NaN (0) or of +inf (u32::MAX) |
| TileGrid.GetTileCount | src/lib.rs:186-191 | Ok exactly when level < levels, `UnexpectedError` otherwise; with a positive tile size, cols*ts covers the level width by less than one tile, and rows likewise |
| TileGrid.TileStart | src/lib.rs:194-197 | a tile starts at i * tile_size, moved back by the overlap except in column or row 0; Ok exactly when neither the product overflows nor the subtraction underflows |
| TileGrid.NominalExtent | src/lib.rs:201-202 | a tile spans tile_size plus the overlap once in column or row 0 and twice elsewhere; Ok exactly when that sum fits in a u32 |
| TileGrid.GetTileBounds | src/lib.rs:193-207 | fails only with `UnexpectedError` or an overflow; `UnexpectedError` only for levels out of range, and every out-of-range level fails; on success x0 <= x1 <= lw and y0 <= y1 <= lh |
| TileGrid.TileBoundsAreDilatedCells | src/lib.rs:193-207 | under a sound configuration every tile of the grid gets bounds without overflow: its nominal cell widened by the overlap and clipped to the level, non-empty and inside the level, with no leading overlap in column or row 0 |
| TileGrid.AxisBounds | src/lib.rs:193-207 | along one axis, the start and nominal extent do not overflow; the start lies inside; start and clamped end are the dilated cell |
| TileGrid.EveryPixelCovered | src/lib.rs:193-207 | every pixel of a level lies in the tile of the grid whose nominal cell holds it |
| TileGrid.CellOfPixel | src/lib.rs:186-191 | the cell holding a pixel is inside the grid |
| TileGrid.LastTilesReachTheEdges | src/lib.rs:193-207 | the last column ends exactly at the level's width and the last row at its height |
| TileGrid.NeighbourColumnsOverlap | src/lib.rs:193-207 | neighbouring columns leave no gap and share 2 * overlap pixels, or fewer where the level's edge cuts the strip |
| TileGrid.NeighbourRowsOverlap | src/lib.rs:193-207 | neighbouring rows leave no gap and share 2 * overlap pixels, or fewer at the edge |
| TileNames.LevelDir | src/lib.rs:145 | a level's directory is one component below the destination, made of decimal digits |
| TileNames.TileFileName | src/lib.rs:153 | a tile's file name has the `.jpg` extension |
| TileNames.TilePath | src/lib.rs:145-153 | a tile is saved in its level's directory |
| TileNames.ParseTileFileNameOf | src/lib.rs:153 | the tile file name `<col>_<row>.jpg` reads back as (col, row) |
| TileNames.TilePathsDistinct | src/lib.rs:145-153 | different tiles are saved to different files |
| Runs.Execute | src/lib.rs:115-158 | a run keeps the calls already made and makes at most one call per step |
| Runs.FailureOf | src/lib.rs:12-15 | a failing `save` becomes `ImageError`, every other failing call (`create_dir_all`, `File::create`, `write_all`) `IOError` |
| Runs.ExecuteStopsAtFirstFailure | src/lib.rs:115-158 | a run makes the first k calls of its plan, then succeeds at the end of the plan or stops at step k with that step's error |
| Runs.ExecuteWithoutFailures | src/lib.rs:115-158 | a plan of calls only, where no call fails, succeeds and makes every call in order |
| Runs.ExecuteAppend | src/lib.rs:115-118 | running two plans in sequence is running the first and, if it succeeded, the second |
| Runs.ExecuteAppendReaches | src/lib.rs:115-131 | a run of two plans that has made a call the first plan never makes has run the first plan to its end without error |
| Runs.ConcatFrom | src/lib.rs:149-156 | cutting the concatenation at block l's offset leaves blocks l onwards |
| Runs.ConcatLength | src/lib.rs:149-156 | the concatenation is as long as the blocks together |
| Runs.ConcatBlock | src/lib.rs:149-156 | block l lies between its offset and the next |
| Runs.ConcatAt | src/lib.rs:149-156 | step j of block l is step Offset(l) + j of the whole |
| Runs.BlockOf | src/lib.rs:149-156 | every step of the whole belongs to one block |
| Runs.UniformOffset | src/lib.rs:149-156 | with blocks of equal width, block l starts at l * width |
| Pipeline.GeometryOfAgrees | src/lib.rs:147-148 | the answers of `get_level_image` and `get_tile_count` are a geometry that agrees with the tiler at every level |
| Pipeline.CropOf | src/lib.rs:152 | the crop rectangle starts at the tile's corner (x, y) and has the size `x2 - x` by `y2 - y`, so it ends at the tile's far corner |
| Pipeline.TileStep | src/lib.rs:151-154 | a tile whose bounds fail aborts with that error; otherwise it is saved to its own path `<level>/<col>_<row>.jpg` |
| Pipeline.LevelPlan | src/lib.rs:144-157 | every level begins by creating its directory `<dest>/<level>` |
| Pipeline.DescriptorPlan | src/lib.rs:119-131 | the descriptor is two calls on its path: `File::create`, then `write_all` |
| Pipeline.DescriptorReadsBack | src/lib.rs:119-129 | the text the descriptor's `write_all` writes, the template filled with the tile size, the overlap and the source's width and height, reads back as exactly those four values |
| Pipeline.RunPlan | src/lib.rs:115-133 | the run's second-to-last step creates the descriptor file |
| Pipeline.CreateLevel | src/lib.rs:144-158 | the result and the calls made are exactly those of running the level's plan against the file system |
| Pipeline.CreateColumn | src/lib.rs:150-155 | the inner loop: the result and calls made are those of running the column's tiles, rows in order |
| Pipeline.ExecuteDescriptor | src/lib.rs:130-131 | the descriptor step fails at `File::create`, or at `write_all` after creating the file, or makes both calls |
| Pipeline.CreateTiles | src/lib.rs:115-133 | the calls made and the outcome are those of running every level and then the descriptor; on success it returns (descriptor path, tile directory) and its last two calls create and write the descriptor text |
| Pipeline.LevelPlanOutOfRange | src/lib.rs:144-147 | a level outside the pyramid still creates its directory, then fails with `UnexpectedError` |
| Pipeline.LevelStepIsTile | src/lib.rs:149-156 | every step of a level after the directory is the step of one tile (col, row) in the grid, at 1 + col * rows + row |
| Pipeline.LevelTileAt | src/lib.rs:149-156 | a level has 1 + cols * rows steps, and tile (col, row) is step 1 + col * rows + row |
| Pipeline.TileBoundsExist | src/lib.rs:193-207 | under a sound configuration every tile of the grid has bounds |
| Pipeline.LevelPlanTiles | src/lib.rs:144-158 | a level of the pyramid is its directory and then, at step 1 + col * rows + row, the save of tile (col, row), cropped to its dilated cell |
| Pipeline.TileSaveInLevel | src/lib.rs:149-154 | under a sound configuration tile (col, row) has bounds and is saved at step 1 + col * rows + row of its level, to its path, with the level's size and the crop of its bounds |
| Pipeline.LevelPlanPerformsOnly | src/lib.rs:144-158 | under a sound configuration a level of the pyramid raises no error of its own: every step is a file-system call |
| Pipeline.LevelMakesNoCreateOrWriteAll | src/lib.rs:144-158 | no step of a level is a `File::create` or `write_all` call: a level makes only `create_dir_all` and the tiles' `save` calls |
| Pipeline.RunPlanLayout | src/lib.rs:115-133 | levels run in ascending order, each in one contiguous block, and the descriptor's two calls come after the last level |
| Pipeline.LevelStepInRun | src/lib.rs:115-118 | step k of level l is step LevelStart(l) + k of the run |
| Pipeline.RunStepOfLevel | src/lib.rs:115-118 | every step before the descriptor belongs to one level |
| Pipeline.DescriptorWrittenLast | src/lib.rs:115-133 | a step is a `File::create` or `write_all` call exactly when it is one of the run's last two steps: the descriptor is created and written once, after every level |
| Pipeline.DescriptorCreatedAfterLevels | src/lib.rs:115-130 | a run that has created the descriptor file ran every level to its end without error first |
| Pipeline.RunSucceedsWhenIoSucceeds | src/lib.rs:115-158 | under a sound configuration, where no call fails, the run succeeds and makes every call of its plan in order |
| Pipeline.LevelDirectoryFirst | src/lib.rs:145-146 | each level's block in the run begins by creating the level's directory |
| Pipeline.EveryTileSaved | src/lib.rs:144-158 | every tile of every level is saved at step LevelStart(level) + 1 + col * rows + row of the run, to `<level>/<col>_<row>.jpg`, with the level's size as the target handed to `resize` and its bounds as the rectangle handed to `crop` |
| TestInfo.TestPowers | src/lib.rs:224 | 2^12 == 4096 and 2^13 == 8192 |
| TestInfo.LevelsExceedBitLength | src/lib.rs:224 | a 5184 x 3456 source has 14 levels while 5184 has bit length 13 |
| TestInfo.TestInfoLevels | src/lib.rs:221-224 | opening the 5184 x 3456 test image with tile size 254 and overlap 1 gives 14 levels, tiles in `test_files` and the descriptor `test.dzi` |
| TestInfo.TestInfoTopLevel | src/lib.rs:225-227 | level 13 is 5184 x 3456 |
| TestInfo.TestInfoLevelOne | src/lib.rs:229-231 | level 1 is 2 x 1 |
| TestInfo.TestInfoTileCount | src/lib.rs:233-235 | level 13 has 21 columns and 14 rows of tiles |

## Left out

- Pixels: decoding, resizing (nearest-neighbour) and JPEG encoding belong to the `image` crate. A level image is the target size handed to `resize`, and a saved tile is the event naming its file, that target size and the rectangle handed to `crop`.
- `DynamicImage::resize` keeps the aspect ratio and returns the largest image that fits inside the target, so a level image can be smaller than its target along one side (an 8 x 9 source has the target 2 x 3 at level 2 and a 2 x 2 image). `crop` then clips the tile rectangle to that image. Neither the actual image size nor that clipping is modelled: the model records the arguments of the two calls.
- Opening and decoding the source file is foreign code. Its outcome, the decoded size or the error, is a parameter of `NewFromImagePath`.
- Whether `RgbImage::from_raw` accepts the buffer is the `image` crate's own rule. It is the boolean parameter `accepted` of `NewFromRgb`.
- The file system is a trace of calls plus an oracle that decides which call fails. A failing call records nothing, so partial effects of a failed call (a half-written file) are not modelled. The wrapped `io::Error` and `ImageError` values carry no payload.
- `std::path` semantics: a path is a list of components. `parent` and `file_stem` are abstracted into `ImagePath`, which gives the parent directory if any and the stem: absent, non-Unicode, or a name.
- The `Display` strings of the errors are not modelled; the two `UnsupportedSourceImage` reasons are kept as strings.
- The release build's wrap-around of u32 arithmetic: the model checks each operation as a debug build does.
- `f64` arithmetic is replaced by its exact integer value. This matches the source for every tiler its constructors build, because the level count is then at most 33. A struct built by hand with a much larger `levels` field, where `0.5.powi` underflows to 0, is not modelled.
- The command-line program in src/bin/dzi.rs is not part of this model.
