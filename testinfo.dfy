/** The repository's `test_info` case (src/lib.rs:218-236): a 5184 x 3456
    photograph tiled with 254-pixel tiles overlapping by one pixel. */
module TestInfo {
  import opened Arith
  import opened Results
  import opened Creator
  import opened TileGrid

  /** `test_data/test.jpg`. */
  function TestImage(): ImagePath {
    ImagePath(Some(["test_data"]), Stem("test"))
  }

  /** The tiler the test builds, written out. */
  function TestCreator(): TileCreator {
    TileCreator(["test_data", "test_files"], ["test_data", "test.dzi"], 5184, 3456, 254, 1, 14)
  }

  /** 2^12 < 5184 <= 2^13. */
  lemma TestPowers()
    ensures Pow2(12) == 4096 && Pow2(13) == 8192
  {
    Pow2Add(6, 6);
    Pow2Add(12, 1);
  }

  /** The level count is one more than the ceiling of log2 of the larger
      side, not the bit length of that side: for 5184 pixels the bit length
      is 13 while the tiler builds 14 levels. */
  lemma LevelsExceedBitLength()
    ensures CalculateLevels(5184, 3456) == 14
    ensures BitLength(5184) == 13
  {
    TestPowers();
    CeilLog2Unique(5184, 13);
    BitLengthUnique(5184, 13);
  }

  /** Opening the photograph gives fourteen levels, with the tiles beside
      it in `test_files` and the descriptor `test.dzi`. */
  lemma TestInfoLevels()
    ensures NewFromImagePath(TestImage(), Ok((5184, 3456)), 254, 1) == Ok(TestCreator())
  {
    LevelsExceedBitLength();
    assert "test" + "_files" == "test_files";
    assert "test" + ".dzi" == "test.dzi";
    var parent: Path := ["test_data"];
    assert parent + ["test" + "_files"] == ["test_data", "test_files"];
    assert parent + ["test" + ".dzi"] == ["test_data", "test.dzi"];
  }

  /** The top level is the photograph itself. */
  lemma TestInfoTopLevel()
    ensures GetDimensions(TestCreator(), 13) == Ok((5184, 3456))
  {
    LevelsExceedBitLength();
    TopLevelIsSource(TestCreator());
  }

  /** Level 1 is 2 x 1 pixels: the photograph divided by 2^12. */
  lemma TestInfoLevelOne()
    ensures GetDimensions(TestCreator(), 1) == Ok((2, 1))
  {
    TestPowers();
    CeilDivUnique(5184, 4096, 2);
    CeilDivUnique(3456, 4096, 1);
  }

  /** The top level is cut into 21 columns and 14 rows of tiles. */
  lemma TestInfoTileCount()
    ensures GetTileCount(TestCreator(), 13) == Ok((21, 14))
  {
    TestInfoTopLevel();
    CeilDivUnique(5184, 254, 21);
    CeilDivUnique(3456, 254, 14);
  }
}
