/** The `TileCreator` value, its two constructors and the level planner:
    how many pyramid levels there are and how large each one is
    (src/lib.rs:22-112, 135-183). The source's `f64` arithmetic is
    replaced by its exact integer value. */
module Creator {
  import opened Arith
  import opened Results

  /** A file-system path, as its list of components; `join` appends one. */
  type Path = seq<string>

  /** The tiler's configuration. The decoded source image enters only
      through its dimensions; its pixels are not modelled. */
  datatype TileCreator = TileCreator(
    destPath: Path,
    dziFilePath: Path,
    width: U32,
    height: U32,
    tileSize: U32,
    tileOverlap: U32,
    levels: U32)

  /** The file stem of the source path: absent, present but not valid
      Unicode, or a name. */
  datatype FileStem = NoStem | NonUnicodeStem | Stem(name: string)

  /** What `new_from_image_path` uses of the source path: its parent
      directory, if any, and its file stem. */
  datatype ImagePath = ImagePath(parent: Option<Path>, stem: FileStem)

  /** Levels of a pyramid over a width x height source: one more than the
      least k with max(width, height) <= 2^k, which is the exact value of
      ceil(log2(max(width, height))) + 1. A 0 or 1 pixel wide source has a
      single level (log2(0) is minus infinity, which the cast to u32
      saturates to 0). */
  function CalculateLevels(width: U32, height: U32): (levels: U32)
    ensures 1 <= levels <= 33
    ensures Max(width, height) <= Pow2(levels - 1)
    ensures levels == 1 || Pow2(levels - 2) < Max(width, height)
  {
    var m := Max(width, height);
    Pow2Of32();
    CeilLog2Least(m, 32);
    CeilLog2(m) + 1
  }

  /** What both constructors establish: the level count belongs to the
      source size. */
  predicate Valid(tc: TileCreator) {
    tc.levels == CalculateLevels(tc.width, tc.height)
  }

  /** `new_from_image_path`. Opening and decoding the file is foreign code:
      its outcome, the decoded size or the error, is a parameter. */
  function NewFromImagePath(
    imagePath: ImagePath, decoded: Result<(U32, U32)>, tileSize: U32, tileOverlap: U32
  ): (r: Result<TileCreator>)
    ensures decoded.Err? ==> r == Err(decoded.error)
    ensures decoded.Ok? ==> (r.Ok? <==> imagePath.parent.Some? && imagePath.stem.Stem?)
    ensures r.Err? && decoded.Ok? ==> r.error.UnsupportedSourceImage?
    ensures r.Ok? ==> Valid(r.value)
    ensures r.Ok? ==> (r.value.width, r.value.height) == decoded.value
    ensures r.Ok? ==> r.value.tileSize == tileSize && r.value.tileOverlap == tileOverlap
    ensures r.Ok? ==> var parent := imagePath.parent.value;
      && |r.value.destPath| == |r.value.dziFilePath| == |parent| + 1
      && r.value.destPath[..|parent|] == r.value.dziFilePath[..|parent|] == parent
      && r.value.destPath != r.value.dziFilePath
    ensures r.Ok? ==> var parent := imagePath.parent.value;
      && r.value.destPath[|parent|] == imagePath.stem.name + "_files"
      && r.value.dziFilePath[|parent|] == imagePath.stem.name + ".dzi"
  {
    var (width, height) :- decoded;
    var levels := CalculateLevels(width, height);
    if imagePath.parent.None? then
      Err(UnsupportedSourceImage("Could not find parent dir of image"))
    else if !imagePath.stem.Stem? then
      Err(UnsupportedSourceImage("Could not find base name of image"))
    else
      var parent := imagePath.parent.value;
      var stem := imagePath.stem.name;
      var destPath := parent + [stem + "_files"];
      var dziFilePath := parent + [stem + ".dzi"];
      assert destPath[|parent|] != dziFilePath[|parent|];
      Ok(TileCreator(destPath, dziFilePath, width, height, tileSize, tileOverlap, levels))
  }

  /** `new_from_rgb`. Whether the image library accepts the buffer for the
      given size is its own rule, not visible here: it is the parameter
      `accepted`. */
  function NewFromRgb(
    accepted: bool, width: U32, height: U32, tileSize: U32, tileOverlap: U32,
    destPath: Path, dziFilePath: Path
  ): (r: Result<TileCreator>)
    ensures r.Ok? <==> accepted
    ensures r.Err? ==> r.error == IncorrectRGBInputDimensions
    ensures r.Ok? ==> Valid(r.value)
    ensures r.Ok? ==> r.value == TileCreator(destPath, dziFilePath, width, height, tileSize, tileOverlap, r.value.levels)
  {
    if !accepted then
      Err(IncorrectRGBInputDimensions)
    else
      Ok(TileCreator(destPath, dziFilePath, width, height, tileSize, tileOverlap, CalculateLevels(width, height)))
  }

  /** `check_level`: a level outside [0, levels) is an internal error. */
  function CheckLevel(tc: TileCreator, level: U32): (r: Result<()>)
    ensures r.Ok? <==> level < tc.levels
    ensures r.Err? ==> r.error == UnexpectedError
  {
    if level >= tc.levels then Err(UnexpectedError) else Ok(())
  }

  /** `get_scale`. The scale 0.5^(levels - 1 - level) is returned as its
      reciprocal, the power of two the source is divided by. */
  function GetScale(tc: TileCreator, level: U32): (r: Result<nat>)
    ensures r.Ok? <==> level < tc.levels
    ensures r.Err? ==> r.error == UnexpectedError
    ensures r.Ok? ==> r.value * Pow2(level) == Pow2(tc.levels - 1)
    ensures r.Ok? ==> (r.value == 1 <==> level == tc.levels - 1)
  {
    var _ :- CheckLevel(tc, level);
    Pow2Add(tc.levels - 1 - level, level);
    assert level < tc.levels - 1 ==> Pow2(tc.levels - 1 - level) >= 2 by {
      if level < tc.levels - 1 {
        Pow2Monotone(1, tc.levels - 1 - level);
      }
    }
    Ok(Pow2(tc.levels - 1 - level))
  }

  /** `get_dimensions`: the source size divided by the level's power of
      two, rounded up. */
  function GetDimensions(tc: TileCreator, level: U32): (r: Result<(U32, U32)>)
    ensures r.Ok? <==> level < tc.levels
    ensures r.Err? ==> r.error == UnexpectedError
    ensures r.Ok? ==> var s := Pow2(tc.levels - 1 - level);
      && tc.width <= r.value.0 * s < tc.width + s
      && tc.height <= r.value.1 * s < tc.height + s
  {
    var _ :- CheckLevel(tc, level);
    // get_scale repeats the check that has just passed: it cannot fail here
    var s := GetScale(tc, level).value;
    Ok((CeilDiv(tc.width, s), CeilDiv(tc.height, s)))
  }

  /** `get_level_image`: the target size it hands to `resize`, which is the
      level's dimensions. The resized image itself is not modelled; the
      extra `check_level` it performs first changes nothing. */
  function GetLevelImage(tc: TileCreator, level: U32): (r: Result<(U32, U32)>)
    ensures r == GetDimensions(tc, level)
    ensures r.Ok? <==> level < tc.levels
  {
    var _ :- CheckLevel(tc, level);
    GetDimensions(tc, level)
  }

  /** The top level is the source at full resolution. */
  lemma TopLevelIsSource(tc: TileCreator)
    requires Valid(tc)
    ensures GetDimensions(tc, tc.levels - 1) == Ok((tc.width, tc.height))
  {
    CeilDivUnique(tc.width, 1, tc.width);
    CeilDivUnique(tc.height, 1, tc.height);
  }

  /** Level 0 is a single pixel (or empty along a side of length 0). */
  lemma BottomLevelIsOnePixel(tc: TileCreator)
    requires Valid(tc)
    ensures GetDimensions(tc, 0) == Ok((if tc.width == 0 then 0 else 1, if tc.height == 0 then 0 else 1))
  {
    var s := Pow2(tc.levels - 1);
    CeilDivUnique(tc.width, s, if tc.width == 0 then 0 else 1);
    CeilDivUnique(tc.height, s, if tc.height == 0 then 0 else 1);
  }

  /** Each level is the next larger one halved, rounding up. */
  lemma LevelHalvesNext(tc: TileCreator, level: U32)
    requires level + 1 < tc.levels
    ensures var small := GetDimensions(tc, level).value;
      var large := GetDimensions(tc, level + 1).value;
      small == (CeilDiv(large.0, 2), CeilDiv(large.1, 2))
  {
    var k := tc.levels - 1 - (level + 1);
    assert Pow2(k + 1) == 2 * Pow2(k);
    CeilDivHalved(tc.width, Pow2(k));
    CeilDivHalved(tc.height, Pow2(k));
  }
}
