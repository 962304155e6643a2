/** Where the tiles go: `<dest>/<level>/<col>_<row>.jpg` (src/lib.rs:145,
    153), and a reader for tile file names. */
module TileNames {
  import opened Decimal
  import opened Results

  /** `dest_path.join(format!("{}", level))`: one component below dest,
      made of decimal digits. */
  function LevelDir(dest: seq<string>, level: nat): (dir: seq<string>)
    ensures |dir| == |dest| + 1 && dir[..|dest|] == dest
    ensures dir[|dest|] != [] && AllDigits(dir[|dest|])
  {
    dest + [Dec(level)]
  }

  /** `format!("{}_{}.jpg", col, row)`: a name with the `.jpg` extension. */
  function TileFileName(col: nat, row: nat): (name: string)
    ensures |name| >= 7 && name[|name| - 4..] == ".jpg"
  {
    Dec(col) + ("_" + (Dec(row) + ".jpg"))
  }

  /** The path of one tile: a file in its level's directory. */
  function TilePath(dest: seq<string>, level: nat, col: nat, row: nat): (path: seq<string>)
    ensures |path| == |dest| + 2 && path[..|dest| + 1] == LevelDir(dest, level)
  {
    LevelDir(dest, level) + [TileFileName(col, row)]
  }

  /** Reads column and row back from a tile file name. */
  function ParseTileFileName(name: string): Option<(nat, nat)> {
    var (colDigits, rest) := SpanDigits(name);
    if colDigits == [] || rest == [] || rest[0] != '_' then None
    else
      var (rowDigits, suffix) := SpanDigits(rest[1..]);
      if rowDigits == [] || suffix != ".jpg" then None
      else Some((ParseDec(colDigits), ParseDec(rowDigits)))
  }

  lemma ParseTileFileNameOf(col: nat, row: nat)
    ensures ParseTileFileName(TileFileName(col, row)) == Some((col, row))
  {
    var rest := "_" + (Dec(row) + ".jpg");
    SpanDigitsOfPrefix(Dec(col), rest);
    assert rest[1..] == Dec(row) + ".jpg";
    SpanDigitsOfPrefix(Dec(row), ".jpg");
    ParseDecOfDec(col);
    ParseDecOfDec(row);
  }

  /** Distinct tiles are written to distinct files. */
  lemma TilePathsDistinct(dest: seq<string>, l1: nat, c1: nat, r1: nat, l2: nat, c2: nat, r2: nat)
    requires TilePath(dest, l1, c1, r1) == TilePath(dest, l2, c2, r2)
    ensures l1 == l2 && c1 == c2 && r1 == r2
  {
    var p1, p2 := TilePath(dest, l1, c1, r1), TilePath(dest, l2, c2, r2);
    assert p1[|dest|] == Dec(l1) && p2[|dest|] == Dec(l2);
    assert p1[|dest| + 1] == TileFileName(c1, r1) && p2[|dest| + 1] == TileFileName(c2, r2);
    DecInjective(l1, l2);
    ParseTileFileNameOf(c1, r1);
    ParseTileFileNameOf(c2, r2);
  }
}
