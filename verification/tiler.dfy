/**
 * The random tiler (histo_lib/tiler.py): `RandomTiler.__init__` validates
 * its arguments and fixes the sampling box, `random_tiles_generator` draws
 * upper-left corners at random inside that box until enough tiles were
 * accepted or the iteration cap is passed, and `extract` saves every
 * yielded tile under a numbered file name.
 *
 * The global numpy generator is an oracle: `draws(i)` is the pair of
 * `randint` results of iteration i + 1. Reading a region and the tissue
 * test on the tile's image are functions supplied with it.
 */
module Tiler {
  import opened Common
  import opened Util
  import opened Tiles
  import opened Wsi
  import Strings

  // ---------------------------------------------------------------------------
  // __init__: arguments
  // ---------------------------------------------------------------------------

  /** `np.random.seed` accepts seeds in [0, 2^32) and raises ValueError otherwise. */
  predicate SeedInRange(seed: int)
  {
    0 <= seed < 0x1_0000_0000
  }

  /**
   * The tile size `__init__` works with: a sized argument must have two
   * entries (the AssertionError is re-raised) and gives (w, h); an argument
   * without `__len__` goes through `int()` and gives a square (a value
   * `int()` refuses raises TypeError).
   */
  function NormalizeTileSize(size: SizeArg): (r: Result<(int, int)>)
    ensures r.Success? <==> size.IntSize? || (size.SeqSize? && |size.items| == 2)
    ensures size.IntSize? ==> r.value == (size.n, size.n)
    ensures r.Success? && size.SeqSize? ==> r.value == (size.items[0], size.items[1])
    ensures r.Failure? ==> r.error == (if size.SeqSize? then AssertionError else TypeError)
  {
    match size
    case SeqSize(items, _) => if |items| == 2 then Success((items[0], items[1])) else Failure(AssertionError)
    case IntSize(n) => Success((n, n))
    case OtherSize => Failure(TypeError)
  }

  /**
   * As written, `__init__` stores the raw `tile_size`, and the generator
   * unpacks it into two values: a plain integer cannot be unpacked
   * (TypeError).
   */
  function UnpackStoredTileSize(stored: SizeArg): (r: Result<(int, int)>)
    ensures r.Success? <==> stored.SeqSize? && |stored.items| == 2
  {
    match stored
    case SeqSize(items, _) => if |items| == 2 then Success((items[0], items[1])) else Failure(ValueError)
    case IntSize(_) => Failure(TypeError)
    case OtherSize => Failure(TypeError)
  }

  /** An integer tile size passes `__init__` and then breaks the generator. */
  lemma StoredIntTileSizeCannotBeUnpacked(n: int)
    ensures NormalizeTileSize(IntSize(n)) == Success((n, n))
    ensures UnpackStoredTileSize(IntSize(n)) == Failure(TypeError)
  {
  }

  /** Storing the normalised pair instead, the generator unpacks exactly what `__init__` computed. */
  lemma UnpackNormalizedTileSize(size: SizeArg)
    requires NormalizeTileSize(size).Success?
    ensures UnpackStoredTileSize(SeqSize([NormalizeTileSize(size).value.0, NormalizeTileSize(size).value.1], true))
         == NormalizeTileSize(size)
  {
  }

  /**
   * `get_thumbnail` and `__init__` read a size the same way on ints and on
   * lists and tuples; a two-entry numpy array passes `__init__`'s `len`
   * test but fails `get_thumbnail`'s `isinstance` test.
   */
  lemma ThumbnailAndTileSizeAgree(size: SizeArg)
    ensures size.IntSize? || (size.SeqSize? && size.listOrTuple) ==>
      (ThumbnailSize(size).Success? <==> NormalizeTileSize(size).Success?)
    ensures ThumbnailSize(size).Success? ==>
      ThumbnailSize(size).value == [NormalizeTileSize(size).value.0, NormalizeTileSize(size).value.1]
    ensures size.SeqSize? && !size.listOrTuple && |size.items| == 2 ==>
      ThumbnailSize(size) == Failure(TypeError) && NormalizeTileSize(size).Success?
  {
  }

  /** The level assertion: `level in wsi.levels`, AssertionError otherwise. */
  function CheckLevel(s: Slide, level: int): (r: Result<()>)
    ensures r.Success? <==> 0 <= level < LevelCount(s)
    ensures r.Failure? ==> r.error == AssertionError
  {
    LevelsMembership(s, level);
    if level in Levels(s) then Success(()) else Failure(AssertionError)
  }

  /**
   * The level assertion as written: its message joins `levels[:-1]`, a list
   * of integers, with `', '.join`, so whenever the slide has two levels or
   * more, a failing assertion raises TypeError while building its message.
   */
  function CheckLevelAsWritten(s: Slide, level: int): (r: Result<()>)
    ensures r.Success? <==> CheckLevel(s, level).Success?
  {
    LevelsMembership(s, level);
    if level in Levels(s) then Success(())
    else if LevelCount(s) >= 2 then Failure(TypeError)
    else Failure(AssertionError)
  }

  /** On a two-level slide an unavailable level is reported as TypeError, not AssertionError. */
  lemma LevelMessageRaisesTypeError()
    ensures CheckLevelAsWritten(Slide([Dims(100, 80), Dims(25, 20)]), 5) == Failure(TypeError)
    ensures CheckLevel(Slide([Dims(100, 80), Dims(25, 20)]), 5) == Failure(AssertionError)
  {
    LevelsMembership(Slide([Dims(100, 80), Dims(25, 20)]), 5);
  }

  // ---------------------------------------------------------------------------
  // __init__: the sampling box
  // ---------------------------------------------------------------------------

  /**
   * The sampling box as written: with `check_tissue` it reads the attribute
   * `tissue_box_coords_wsi`, which `WSI` does not have (AttributeError);
   * without, it calls `Coordinates`, a name the module never defines
   * (NameError).
   */
  function SamplingBoxAsWritten(s: Slide, checkTissue: bool): (r: Result<CoordinatePair>)
    ensures r.Failure?
  {
    if checkTissue then Failure(AttributeError) else Failure(NameError)
  }

  /**
   * The sampling box in level-0 coordinates, as intended: the tissue box
   * `calculate_tissue_region` finds on a thumbnail whose labelled components
   * are `props`, or, without the tissue check, the whole level-0 extent
   * (0, 0, w0, h0).
   */
  function SamplingBox(s: Slide, checkTissue: bool, thumbW: int, thumbH: int, props: seq<RegionProps>): (r: Result<CoordinatePair>)
    requires ValidSlide(s) && thumbW > 0 && thumbH > 0
    ensures !checkTissue ==> r == Success(CoordinatePair(0, 0, s.levelDimensions[0].w, s.levelDimensions[0].h))
    ensures checkTissue ==> r == CalculateTissueRegion(s, thumbW, thumbH, props)
  {
    if checkTissue then CalculateTissueRegion(s, thumbW, thumbH, props)
    else
      var d0 := GetDimensions(s, 0).value;
      Success(CoordinatePair(0, 0, d0.w, d0.h))
  }

  /** The sampling box always lies inside the level-0 extent with ordered corners. */
  lemma SamplingBoxWithinSlide(s: Slide, checkTissue: bool, thumbW: int, thumbH: int, props: seq<RegionProps>)
    requires ValidSlide(s) && thumbW > 0 && thumbH > 0
    requires forall i :: 0 <= i < |props| ==> BoxInImage(props[i].bbox, thumbW, thumbH)
    ensures var r := SamplingBox(s, checkTissue, thumbW, thumbH, props);
      r.Success? ==> WithinExtent(r.value, s.levelDimensions[0]) && r.value.xUl <= r.value.xBr && r.value.yUl <= r.value.yBr
  {
    TissueBoxWithinSlide(s, thumbW, thumbH, props);
  }

  /** `box_coords_lvl`: the level-0 box itself at level 0, otherwise that box scaled to the level's extent. */
  function LevelBox(s: Slide, level: int, box: CoordinatePair): CoordinatePair
    requires ValidSlide(s) && 0 <= level < LevelCount(s)
  {
    if level != 0 then ScaleBox(box, s.levelDimensions[0], s.levelDimensions[level]) else box
  }

  /** The special case at level 0 agrees with scaling: at every level the box is the level-0 box scaled. */
  lemma LevelBoxIsScaling(s: Slide, level: int, box: CoordinatePair)
    requires ValidSlide(s) && 0 <= level < LevelCount(s)
    ensures LevelBox(s, level, box) == ScaleBox(box, s.levelDimensions[0], s.levelDimensions[level])
  {
    if level == 0 {
      ScaleBoxIdentity(box, s.levelDimensions[0]);
    }
  }

  // ---------------------------------------------------------------------------
  // The candidate tile of one iteration
  // ---------------------------------------------------------------------------

  /** The half-open ranges `randint(low, high)` draws the x and y of the upper-left corner from. */
  datatype Ranges = Ranges(xLow: int, xHigh: int, yLow: int, yHigh: int)

  /** numpy raises ValueError when `low >= high`. */
  predicate NonEmpty(rg: Ranges)
  {
    rg.xLow < rg.xHigh && rg.yLow < rg.yHigh
  }

  predicate InRanges(rg: Ranges, d: (int, int))
  {
    rg.xLow <= d.0 < rg.xHigh && rg.yLow <= d.1 < rg.yHigh
  }

  /** The ranges as intended: the tile width bounds x and the tile height bounds y. */
  function SampleRanges(box: CoordinatePair, tileW: int, tileH: int): Ranges
  {
    Ranges(box.xUl, box.xBr - (tileW + 1), box.yUl, box.yBr - (tileH + 1))
  }

  /** The ranges as written: y is bounded by the tile width too. */
  function SampleRangesAsWritten(box: CoordinatePair, tileW: int, tileH: int): Ranges
  {
    Ranges(box.xUl, box.xBr - (tileW + 1), box.yUl, box.yBr - (tileW + 1))
  }

  /** The candidate box as intended: the drawn corner and a tile of width `tileW` and height `tileH`. */
  function Candidate(d: (int, int), tileW: int, tileH: int): CoordinatePair
  {
    CoordinatePair(d.0, d.1, d.0 + tileW, d.1 + tileH)
  }

  /** The candidate box as written: its height is the tile width as well. */
  function CandidateAsWritten(d: (int, int), tileW: int, tileH: int): CoordinatePair
  {
    CoordinatePair(d.0, d.1, d.0 + tileW, d.1 + tileW)
  }

  /**
   * A corner drawn from the ranges gives a candidate of the tile's size that
   * starts inside the sampling box and ends at least two pixels before its
   * far edges.
   */
  predicate InsideSamplingBox(c: CoordinatePair, box: CoordinatePair, tileW: int, tileH: int)
  {
    && box.xUl <= c.xUl && c.xBr <= box.xBr - 2
    && box.yUl <= c.yUl && c.yBr <= box.yBr - 2
    && c.xBr - c.xUl == tileW && c.yBr - c.yUl == tileH
  }

  lemma CandidateInsideBox(box: CoordinatePair, tileW: int, tileH: int, d: (int, int))
    requires InRanges(SampleRanges(box, tileW, tileH), d)
    ensures InsideSamplingBox(Candidate(d, tileW, tileH), box, tileW, tileH)
  {
  }

  /**
   * For a tile wider than it is tall, the as-written y range can be empty
   * (so the first draw raises ValueError) although the tile fits, and every
   * as-written candidate has the wrong height.
   */
  lemma AsWrittenSamplingRejectsWideTile()
    ensures !NonEmpty(SampleRangesAsWritten(CoordinatePair(0, 0, 100, 20), 30, 5))
    ensures NonEmpty(SampleRanges(CoordinatePair(0, 0, 100, 20), 30, 5))
    ensures CandidateAsWritten((0, 0), 30, 5) != Candidate((0, 0), 30, 5)
  {
  }

  // ---------------------------------------------------------------------------
  // The tiler
  // ---------------------------------------------------------------------------

  /** What the sampling loop consults outside the tiler: the random corners, the slide reader and the tissue test. */
  datatype Oracle<!Img> = Oracle(draws: nat -> (int, int), readRegion: ReadRequest -> Img, hasEnoughTissue: Img -> bool)

  /** A call `tile.save(filename)` that `extract` makes: the name it passes and the image of the tile. */
  datatype SavedFile<Img> = SavedFile(filename: string, image: Img)
  {
    /** Where `Tile.save` writes it: the name, with ".png" appended when it has no extension. */
    function Path(): string
    {
      SavePath(filename)
    }
  }

  /** The name `extract` gives the `counter`-th tile. */
  function TileFilename(prefix: string, counter: nat, level: int, c: CoordinatePair, suffix: string): string
  {
    prefix + "tile_" + Strings.NatToString(counter) + "_" + FilenameTail(level, c, suffix)
  }

  /** The part of the name after the counter: `level{level}_{x_ul}-{y_ul}-{x_br}-{y_br}{suffix}`. */
  function FilenameTail(level: int, c: CoordinatePair, suffix: string): string
  {
    "level" + Strings.IntToString(level) + "_" + DashSeparated(AsSeq(c)) + suffix
  }

  /** Integers written out in decimal and separated by '-', as the f-string writes the four coordinates. */
  function DashSeparated(xs: seq<int>): string
  {
    if xs == [] then []
    else if |xs| == 1 then Strings.IntToString(xs[0])
    else Strings.IntToString(xs[0]) + "-" + DashSeparated(xs[1..])
  }

  /** A tile's name starts with the prefix. */
  lemma TileFilenameStartsWithPrefix(prefix: string, counter: nat, level: int, c: CoordinatePair, suffix: string)
    ensures prefix <= TileFilename(prefix, counter, level, c, suffix)
  {
    assert TileFilename(prefix, counter, level, c, suffix)[..|prefix|] == prefix;
  }

  /** `Tile.save` only ever appends to the name it is given. */
  lemma SavePathExtends(f: string)
    ensures exists e :: SavePath(f) == f + e
  {
    if Ext(f) == [] {
      assert SavePath(f) == f + ".png";
    } else {
      assert SavePath(f) == f + [];
    }
  }

  /** Behind a head, a run of digits followed by '_' is the first '_'-field, also once the name is saved. */
  lemma DigitsBeforeUnderscore(head: string, digits: string, rest: string)
    requires Strings.IsDigits(digits)
    ensures Strings.Split(SavePath(head + digits + "_" + rest)[|head|..], '_')[0] == digits
  {
    var f := head + digits + "_" + rest;
    SavePathExtends(f);
    var e :| SavePath(f) == f + e;
    assert (f + e)[|head|..] == digits + ['_'] + (rest + e);
    assert forall k :: 0 <= k < |digits| ==> digits[k] != '_';
    Strings.SplitCons(digits, '_', rest + e);
  }

  /** Behind the prefix and "tile_", the first '_'-field of a saved path is the tile counter. */
  lemma CounterField(prefix: string, counter: nat, level: int, c: CoordinatePair, suffix: string)
    ensures Strings.Split(SavePath(TileFilename(prefix, counter, level, c, suffix))[|prefix + "tile_"|..], '_')[0]
         == Strings.NatToString(counter)
  {
    var head := prefix + "tile_";
    var digits := Strings.NatToString(counter);
    var tail := FilenameTail(level, c, suffix);
    Strings.NatToStringIsDigits(counter);
    assert TileFilename(prefix, counter, level, c, suffix) == head + digits + "_" + tail;
    DigitsBeforeUnderscore(head, digits, tail);
  }

  /** Tiles with different counters are saved under different paths, whatever their boxes. */
  lemma SavedPathsDistinct(prefix: string, i: nat, j: nat, level: int, ci: CoordinatePair, cj: CoordinatePair, suffix: string)
    requires i != j
    ensures SavePath(TileFilename(prefix, i, level, ci, suffix)) != SavePath(TileFilename(prefix, j, level, cj, suffix))
  {
    CounterField(prefix, i, level, ci, suffix);
    CounterField(prefix, j, level, cj, suffix);
    Strings.NatToStringInjective(i, j);
  }

  /** `max_iter` as an iteration cap: the last iteration a truthy (non-zero) `max_iter` allows. */
  function Cap(maxIter: int): int
  {
    if maxIter > 0 then maxIter + 1 else 1
  }

  /**
   * The tile's extent in level-0 pixels, read off the fake tile
   * (0, 0, tile_w, tile_h) scaled from the tiler's level to level 0.
   */
  function FakeTileSide(s: Slide, level: int, tileW: int, tileH: int): (side: (int, int))
    requires ValidSlide(s) && 0 <= level < LevelCount(s)
    ensures side.0 == ScaleOne(tileW, s.levelDimensions[level].w, s.levelDimensions[0].w)
    ensures side.1 == ScaleOne(tileH, s.levelDimensions[level].h, s.levelDimensions[0].h)
  {
    var fake := CoordinatePair(0, 0, tileW, tileH);
    var scaled := ScaleBox(fake, s.levelDimensions[level], s.levelDimensions[0]);
    (scaled.xBr, scaled.yBr)
  }

  /** At level 0 the fake tile is not rescaled: the level-0 side is the tile size itself. */
  lemma FakeTileSideAtLevelZero(s: Slide, tileW: int, tileH: int)
    requires ValidSlide(s)
    ensures FakeTileSide(s, 0, tileW, tileH) == (tileW, tileH)
  {
    ScaleOneIdentity(tileW, s.levelDimensions[0].w);
    ScaleOneIdentity(tileH, s.levelDimensions[0].h);
  }

  /** A non-negative tile size gives a non-negative level-0 side. */
  lemma FakeTileSideNonNegative(s: Slide, level: int, tileW: int, tileH: int)
    requires ValidSlide(s) && 0 <= level < LevelCount(s) && tileW >= 0 && tileH >= 0
    ensures FakeTileSide(s, level, tileW, tileH).0 >= 0 && FakeTileSide(s, level, tileW, tileH).1 >= 0
  {
    ScaleOneMonotone(0, tileW, s.levelDimensions[level].w, s.levelDimensions[0].w);
    ScaleOneMonotone(0, tileH, s.levelDimensions[level].h, s.levelDimensions[0].h);
    ScaleOneIdentity(0, s.levelDimensions[level].w);
    ScaleOneIdentity(0, s.levelDimensions[level].h);
  }

  class RandomTiler {
    const slide: Slide
    const tileW: int
    const tileH: int
    const nTiles: int
    const level: int
    const seed: int
    const checkTissue: bool
    const prefix: string
    const suffix: string
    const maxIter: int
    const boxCoordsWsi: CoordinatePair
    const boxCoordsLvl: CoordinatePair
    /** The level-0 tile side the generator computes from the fake tile; it depends on constant fields only, so it is fixed here. */
    const tileWWsi: int
    const tileHWsi: int

    /** What `__init__` establishes: an open slide, an available level and the level box derived from the level-0 box. */
    predicate Valid()
    {
      && ValidSlide(slide)
      && 0 <= level < LevelCount(slide)
      && boxCoordsLvl == LevelBox(slide, level, boxCoordsWsi)
    }

    constructor (slide: Slide, tileW: int, tileH: int, nTiles: int, level: int, seed: int, checkTissue: bool,
                 prefix: string, suffix: string, maxIter: int, boxCoordsWsi: CoordinatePair)
      requires ValidSlide(slide) && 0 <= level < LevelCount(slide)
      ensures Valid()
      ensures this.slide == slide && this.tileW == tileW && this.tileH == tileH && this.nTiles == nTiles
      ensures this.level == level && this.seed == seed && this.checkTissue == checkTissue
      ensures this.prefix == prefix && this.suffix == suffix && this.maxIter == maxIter
      ensures this.boxCoordsWsi == boxCoordsWsi
      ensures (this.tileWWsi, this.tileHWsi) == FakeTileSide(slide, level, tileW, tileH)
    {
      this.slide := slide;
      this.tileW := tileW;
      this.tileH := tileH;
      this.nTiles := nTiles;
      this.level := level;
      this.seed := seed;
      this.checkTissue := checkTissue;
      this.prefix := prefix;
      this.suffix := suffix;
      this.maxIter := maxIter;
      this.boxCoordsWsi := boxCoordsWsi;
      this.boxCoordsLvl := LevelBox(slide, level, boxCoordsWsi);
      var side := FakeTileSide(slide, level, tileW, tileH);
      this.tileWWsi := side.0;
      this.tileHWsi := side.1;
    }

    /**
     * `RandomTiler(wsi, tile_size, n_tiles, level, seed, check_tissue,
     * prefix, suffix, max_iter)`, with the thumbnail's extent and labelled
     * components standing for the tissue-box computation. The checks run in
     * source order: the seed, the tile size, the level, then the box (no
     * tissue component at all raises ValueError).
     */
    static method New(slide: Slide, tileSize: SizeArg, nTiles: int, level: int, seed: int, checkTissue: bool,
                      prefix: string, suffix: string, maxIter: int,
                      thumbW: int, thumbH: int, props: seq<RegionProps>)
      returns (r: Result<RandomTiler>)
      requires ValidSlide(slide) && thumbW > 0 && thumbH > 0
      ensures r.Failure? <==>
        !SeedInRange(seed) || NormalizeTileSize(tileSize).Failure? || !(0 <= level < LevelCount(slide)) || (checkTissue && |props| == 0)
      ensures !SeedInRange(seed) ==> r == Failure(ValueError)
      ensures SeedInRange(seed) && NormalizeTileSize(tileSize).Failure? ==> r == Failure(NormalizeTileSize(tileSize).error)
      ensures SeedInRange(seed) && NormalizeTileSize(tileSize).Success? && !(0 <= level < LevelCount(slide)) ==>
        r == Failure(AssertionError)
      ensures r.Failure? && 0 <= level < LevelCount(slide) && SeedInRange(seed) && NormalizeTileSize(tileSize).Success? ==>
        r == Failure(ValueError)
      ensures r.Success? ==>
        && fresh(r.value) && r.value.Valid()
        && r.value.slide == slide && (r.value.tileW, r.value.tileH) == NormalizeTileSize(tileSize).value
        && r.value.nTiles == nTiles && r.value.level == level && r.value.seed == seed
        && r.value.checkTissue == checkTissue && r.value.prefix == prefix && r.value.suffix == suffix
        && r.value.maxIter == maxIter
        && r.value.boxCoordsWsi == SamplingBox(slide, checkTissue, thumbW, thumbH, props).value
        && (r.value.tileWWsi, r.value.tileHWsi) == FakeTileSide(slide, level, r.value.tileW, r.value.tileH)
    {
      if !SeedInRange(seed) {
        return Failure(ValueError);
      }
      var size :- NormalizeTileSize(tileSize);
      var _ :- CheckLevel(slide, level);
      var box :- SamplingBox(slide, checkTissue, thumbW, thumbH, props);
      var tiler := new RandomTiler(slide, size.0, size.1, nTiles, level, seed, checkTissue, prefix, suffix, maxIter, box);
      return Success(tiler);
    }

    /** The level box is the level-0 sampling box scaled to the tiler's level, and stays inside that level when the box is inside level 0. */
    lemma LevelBoxWithinLevel()
      requires Valid()
      ensures boxCoordsLvl == ScaleBox(boxCoordsWsi, slide.levelDimensions[0], slide.levelDimensions[level])
      ensures WithinExtent(boxCoordsWsi, slide.levelDimensions[0]) ==> WithinExtent(boxCoordsLvl, slide.levelDimensions[level])
    {
      LevelBoxIsScaling(slide, level, boxCoordsWsi);
      if WithinExtent(boxCoordsWsi, slide.levelDimensions[0]) {
        ScaleBoxWithinExtent(boxCoordsWsi, slide.levelDimensions[0], slide.levelDimensions[level]);
      }
    }

    function DrawRanges(): Ranges
      requires Valid()
    {
      SampleRanges(boxCoordsWsi, tileWWsi, tileHWsi)
    }

    /** The candidate of iteration `n` (counted from 1), built from the `n - 1`-th draw. */
    function CandidateAt<Img>(oracle: Oracle<Img>, n: nat): CoordinatePair
      requires Valid() && n >= 1
    {
      Candidate(oracle.draws(n - 1), tileWWsi, tileHWsi)
    }

    /**
     * The tile `wsi.extract_tile(coords, level)` returns for a candidate box:
     * the region read at the box's level-0 corner with the box's extent at
     * the tiler's level (TileAtIsExtractTile).
     */
    function TileAt<Img>(oracle: Oracle<Img>, c: CoordinatePair): Tile<Img>
      requires Valid()
    {
      Tile(oracle.readRegion(ReadFor(c, level, slide.levelDimensions[0], slide.levelDimensions[level])), level, c)
    }

    /** For four coordinates and an available level `extract_tile` cannot fail, and it gives `TileAt`. */
    lemma TileAtIsExtractTile<Img>(oracle: Oracle<Img>, c: CoordinatePair)
      requires Valid()
      ensures ExtractTile(slide, oracle.readRegion, AsSeq(c), level).Success?
      ensures ExtractTile(slide, oracle.readRegion, AsSeq(c), level).value == TileAt(oracle, c)
    {
      ExtractTileReads(slide, oracle.readRegion, AsSeq(c), level);
    }

    predicate Accepts<Img>(oracle: Oracle<Img>, c: CoordinatePair)
      requires Valid()
    {
      !checkTissue || oracle.hasEnoughTissue(TileAt(oracle, c).image)
    }

    /** What iteration `n` yields: the candidate's tile and coordinates when it is accepted, nothing otherwise. */
    function YieldOf<Img>(oracle: Oracle<Img>, n: nat): seq<(Tile<Img>, CoordinatePair)>
      requires Valid() && n >= 1
    {
      var c := CandidateAt(oracle, n);
      if Accepts(oracle, c) then [(TileAt(oracle, c), c)] else []
    }

    /** The (tile, coordinates) pairs the generator has yielded after `n` iterations. */
    function Yielded<Img>(oracle: Oracle<Img>, n: nat): seq<(Tile<Img>, CoordinatePair)>
      requires Valid()
    {
      if n == 0 then [] else Yielded(oracle, n - 1) + YieldOf(oracle, n)
    }

    /** Whether the generator stops after iteration `n`: past a truthy `max_iter`, or once `n_tiles` tiles were yielded. */
    predicate StopsAfter<Img>(oracle: Oracle<Img>, n: nat)
      requires Valid()
    {
      (maxIter != 0 && n > maxIter) || |Yielded(oracle, n)| >= nTiles
    }

    /** `n` iterations is how long the generator runs: it stops after the `n`-th and after no earlier one. */
    predicate RunsFor<Img>(oracle: Oracle<Img>, n: nat)
      requires Valid()
    {
      n >= 1 && StopsAfter(oracle, n) && forall k :: 1 <= k < n ==> !StopsAfter(oracle, k)
    }

    /**
     * After `n` iterations: at most one tile per iteration, exactly one
     * without the tissue check, each yielded tile is the one read at its
     * coordinates, and every yielded box lies inside the sampling box when
     * the draws come from the `randint` ranges.
     */
    lemma {:induction false} YieldedFacts<Img>(oracle: Oracle<Img>, n: nat)
      requires Valid()
      ensures |Yielded(oracle, n)| <= n
      ensures !checkTissue ==> |Yielded(oracle, n)| == n
      ensures forall i :: 0 <= i < |Yielded(oracle, n)| ==> Yielded(oracle, n)[i].0 == TileAt(oracle, Yielded(oracle, n)[i].1)
      ensures (forall k: nat :: k < n ==> InRanges(DrawRanges(), oracle.draws(k))) ==>
        forall i :: 0 <= i < |Yielded(oracle, n)| ==> InsideSamplingBox(Yielded(oracle, n)[i].1, boxCoordsWsi, tileWWsi, tileHWsi)
    {
      if n > 0 {
        YieldedFacts(oracle, n - 1);
        if forall k: nat :: k < n ==> InRanges(DrawRanges(), oracle.draws(k)) {
          assert InRanges(DrawRanges(), oracle.draws(n - 1));
          CandidateInsideBox(boxCoordsWsi, tileWWsi, tileHWsi, oracle.draws(n - 1));
        }
      }
    }

    /** Iterations only add tiles: the count after `m` iterations is at most the count after `n >= m`. */
    lemma {:induction false} YieldedGrows<Img>(oracle: Oracle<Img>, m: nat, n: nat)
      requires Valid() && m <= n
      ensures |Yielded(oracle, m)| <= |Yielded(oracle, n)|
      decreases n - m
    {
      if m < n {
        YieldedGrows(oracle, m, n - 1);
      }
    }

    /**
     * A complete run never passes iteration `max_iter + 1` when `max_iter` is
     * truthy, and yields at most `n_tiles` tiles when `n_tiles >= 1`.
     */
    lemma RunBounds<Img>(oracle: Oracle<Img>, n: nat)
      requires Valid() && RunsFor(oracle, n)
      ensures maxIter != 0 ==> n <= Cap(maxIter)
      ensures nTiles >= 1 ==> |Yielded(oracle, n)| <= nTiles
    {
      if n > 1 {
        assert !StopsAfter(oracle, n - 1);
      }
      assert |Yielded(oracle, n)| <= |Yielded(oracle, n - 1)| + 1;
    }

    /**
     * The generator has stopped by iteration `k` once `k` reaches the cap of
     * a truthy `max_iter`, or, with a falsy one, once `k` reaches an
     * iteration count by which `n_tiles` tiles have been accepted.
     */
    lemma StopsByLimit<Img>(oracle: Oracle<Img>, bound: nat, k: nat)
      requires Valid()
      requires maxIter == 0 ==> |Yielded(oracle, bound)| >= nTiles
      requires k >= 1 && (maxIter != 0 ==> k >= Cap(maxIter)) && (maxIter == 0 ==> k >= bound)
      ensures StopsAfter(oracle, k)
    {
      if maxIter == 0 {
        YieldedGrows(oracle, bound, k);
      }
    }

    /**
     * What a complete run of `random_tiles_generator` yields: at most one
     * tile per iteration and exactly one without the tissue check, never an
     * iteration past `max_iter + 1` when `max_iter` is truthy, at most
     * `n_tiles` tiles when `n_tiles >= 1`, each tile the one read at its
     * coordinates, and, when the draws come from the `randint` ranges, every
     * box inside the sampling box with the level-0 tile size.
     */
    lemma RunProperties<Img>(oracle: Oracle<Img>, n: nat)
      requires Valid() && RunsFor(oracle, n)
      ensures |Yielded(oracle, n)| <= n && (!checkTissue ==> |Yielded(oracle, n)| == n)
      ensures maxIter != 0 ==> n <= Cap(maxIter)
      ensures nTiles >= 1 ==> |Yielded(oracle, n)| <= nTiles
      ensures forall i :: 0 <= i < |Yielded(oracle, n)| ==> Yielded(oracle, n)[i].0 == TileAt(oracle, Yielded(oracle, n)[i].1)
      ensures (forall k: nat :: k < n ==> InRanges(DrawRanges(), oracle.draws(k))) ==>
        forall i :: 0 <= i < |Yielded(oracle, n)| ==> InsideSamplingBox(Yielded(oracle, n)[i].1, boxCoordsWsi, tileWWsi, tileHWsi)
    {
      YieldedFacts(oracle, n);
      RunBounds(oracle, n);
    }

    /** One iteration: the candidate's tile is appended exactly when it is accepted. */
    lemma YieldedStep<Img>(oracle: Oracle<Img>, n: nat, c: CoordinatePair, tile: Tile<Img>, accepted: bool)
      requires Valid() && n >= 1
      requires c == Candidate(oracle.draws(n - 1), tileWWsi, tileHWsi)
      requires tile == ExtractTile(slide, oracle.readRegion, AsSeq(c), level).value
      requires accepted == (!checkTissue || oracle.hasEnoughTissue(tile.image))
      ensures Yielded(oracle, n) == Yielded(oracle, n - 1) + (if accepted then [(tile, c)] else [])
    {
      TileAtIsExtractTile(oracle, c);
      assert c == CandidateAt(oracle, n);
    }

    /**
     * `random_tiles_generator`, run to its end. An empty `randint` range
     * raises ValueError at the first draw. Otherwise the generator runs for
     * the iterations `RunsFor` determines and yields exactly `Yielded` of
     * them. With a falsy `max_iter` the loop has no cap: `bound` is a number
     * of iterations by which enough tiles are accepted.
     */
    method RandomTiles<Img>(oracle: Oracle<Img>, ghost bound: nat)
      returns (r: Result<seq<(Tile<Img>, CoordinatePair)>>, ghost iterations: nat)
      requires Valid()
      requires maxIter == 0 ==> |Yielded(oracle, bound)| >= nTiles
      ensures r.Failure? <==> !NonEmpty(DrawRanges())
      ensures r.Failure? ==> r.error == ValueError
      ensures r.Success? ==> RunsFor(oracle, iterations) && r.value == Yielded(oracle, iterations)
    {
      var box := boxCoordsWsi;
      if !NonEmpty(SampleRanges(box, tileWWsi, tileHWsi)) {
        return Failure(ValueError), 1;
      }
      ghost var limit := if maxIter != 0 then Cap(maxIter) else if bound >= 1 then bound else 1;
      var iteration := 0;
      var validTileCounter := 0;
      var out: seq<(Tile<Img>, CoordinatePair)> := [];
      while true
        invariant 0 <= iteration < limit
        invariant out == Yielded(oracle, iteration) && validTileCounter == |out|
        invariant forall k :: 1 <= k <= iteration ==> !StopsAfter(oracle, k)
        decreases limit - iteration
      {
        iteration := iteration + 1;
        var corner := oracle.draws(iteration - 1);
        var tileWsiCoords := Candidate(corner, tileWWsi, tileHWsi);
        assert tileWsiCoords == CandidateAt(oracle, iteration);
        var tile := ExtractTile(slide, oracle.readRegion, AsSeq(tileWsiCoords), level).value;
        var accepted := !checkTissue || oracle.hasEnoughTissue(tile.image);
        YieldedStep(oracle, iteration, tileWsiCoords, tile, accepted);
        if accepted {
          out := out + [(tile, tileWsiCoords)];
          validTileCounter := validTileCounter + 1;
        }
        assert StopsAfter(oracle, iteration) <==> (maxIter != 0 && iteration > maxIter) || validTileCounter >= nTiles;
        if iteration >= limit {
          StopsByLimit(oracle, bound, iteration);
        }
        if maxIter != 0 && iteration > maxIter {
          break;
        }
        if validTileCounter >= nTiles {
          break;
        }
      }
      return Success(out), iteration;
    }

    /** The file `extract` writes for the `i`-th yielded (tile, coordinates) pair: its image, saved under `TileFilename` by `Tile.save`. */
    function SavedAs<Img>(i: nat, item: (Tile<Img>, CoordinatePair)): SavedFile<Img>
    {
      SavedFile(TileFilename(prefix, i, level, item.1, suffix), item.0.image)
    }

    /** Numbered in order, the files for any list of yielded pairs have pairwise distinct paths. */
    lemma SavedPathsPairwiseDistinct<Img>(items: seq<(Tile<Img>, CoordinatePair)>)
      ensures forall i, j :: 0 <= i < j < |items| ==> SavedAs(i, items[i]).Path() != SavedAs(j, items[j]).Path()
    {
      forall i, j | 0 <= i < j < |items|
        ensures SavedAs(i, items[i]).Path() != SavedAs(j, items[j]).Path()
      {
        SavedPathsDistinct(prefix, i, j, level, items[i].1, items[j].1, suffix);
      }
    }

    /** The files `extract` writes for a list of yielded pairs: the `i`-th pair is saved as `SavedAs(i, ...)`. */
    function SavedFiles<Img>(items: seq<(Tile<Img>, CoordinatePair)>): seq<SavedFile<Img>>
    {
      seq(|items|, i requires 0 <= i < |items| => SavedAs(i, items[i]))
    }

    /**
     * One file per yielded pair, in order: the `i`-th under
     * `{prefix}tile_{i}_level{level}_{x_ul}-{y_ul}-{x_br}-{y_br}{suffix}`
     * (with ".png" appended when that has no extension) holding the `i`-th
     * tile's image, and no two at the same path.
     */
    lemma SavedFilesFacts<Img>(items: seq<(Tile<Img>, CoordinatePair)>)
      ensures |SavedFiles(items)| == |items|
      ensures forall i :: 0 <= i < |items| ==> SavedFiles(items)[i] == SavedAs(i, items[i])
      ensures forall i, j :: 0 <= i < j < |items| ==> SavedFiles(items)[i].Path() != SavedFiles(items)[j].Path()
    {
      SavedPathsPairwiseDistinct(items);
    }

    /** The saving loop of `extract`: it writes `SavedFiles` of the yielded pairs (see SavedFilesFacts). */
    method SaveTiles<Img>(tiles: seq<(Tile<Img>, CoordinatePair)>) returns (saved: seq<SavedFile<Img>>)
      ensures saved == SavedFiles(tiles)
    {
      saved := [];
      var tilesCounter := 0;
      while tilesCounter < |tiles|
        invariant 0 <= tilesCounter <= |tiles| && |saved| == tilesCounter
        invariant forall i :: 0 <= i < tilesCounter ==> saved[i] == SavedAs(i, tiles[i])
      {
        // the f-string name of the tile, saved by `tile.save`
        var file := SavedAs(tilesCounter, tiles[tilesCounter]);
        saved := saved + [file];
        tilesCounter := tilesCounter + 1;
      }
    }

    /**
     * `extract`: runs the generator and saves its tiles in order; an empty
     * `randint` range raises ValueError before anything is saved.
     */
    method Extract<Img>(oracle: Oracle<Img>, ghost bound: nat)
      returns (r: Result<seq<SavedFile<Img>>>, ghost iterations: nat)
      requires Valid()
      requires maxIter == 0 ==> |Yielded(oracle, bound)| >= nTiles
      ensures r.Failure? <==> !NonEmpty(DrawRanges())
      ensures r.Failure? ==> r.error == ValueError
      ensures r.Success? ==> RunsFor(oracle, iterations) && r.value == SavedFiles(Yielded(oracle, iterations))
    {
      var randomTiles;
      randomTiles, iterations := RandomTiles(oracle, bound);
      if randomTiles.Failure? {
        return Failure(randomTiles.error), iterations;
      }
      var saved := SaveTiles(randomTiles.value);
      return Success(saved), iterations;
    }
  }
}
