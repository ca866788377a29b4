/**
 * The geometry of a whole-slide image (histo_lib/wsi.py): the list of
 * levels, the static `scale_coordinates`, the size normalisation of
 * `get_thumbnail`, the choice of the biggest tissue region and its box in
 * `calculate_tissue_region`, and the read issued by `extract_tile`.
 *
 * openslide is a foreign library: a slide is the list of its level extents,
 * and `read_region` is a function parameter. The morphology that labels the
 * thumbnail's tissue components is foreign numerics too; its output, the
 * list of `regionprops` records, is a parameter.
 */
module Wsi {
  import opened Common
  import opened Util
  import opened Tiles

  /** An opened slide: `level_dimensions`, the (width, height) of every pyramid level, level 0 first. */
  datatype Slide = Slide(levelDimensions: seq<Dims>)

  /** openslide reports at least one level, and every extent is positive. */
  predicate ValidSlide(s: Slide)
  {
    && |s.levelDimensions| >= 1
    && forall i :: 0 <= i < |s.levelDimensions| ==> PositiveDims(s.levelDimensions[i])
  }

  function LevelCount(s: Slide): int
  {
    |s.levelDimensions|
  }

  /** `list(range(n))`. */
  function Range(n: nat): (r: seq<int>)
    ensures |r| == n
    ensures forall i :: 0 <= i < n ==> r[i] == i
  {
    if n == 0 then [] else Range(n - 1) + [n - 1]
  }

  /** The `levels` property: `[0, 1, ..., level_count - 1]`. */
  function Levels(s: Slide): seq<int>
  {
    Range(|s.levelDimensions|)
  }

  /** A level is listed exactly when it lies in 0 .. level_count - 1. */
  lemma LevelsMembership(s: Slide, level: int)
    ensures level in Levels(s) <==> 0 <= level < LevelCount(s)
  {
    if 0 <= level < LevelCount(s) {
      assert Levels(s)[level] == level;
    }
  }

  /** `get_dimensions(level)`: `level_dimensions[level]` under Python indexing, where a negative index counts from the end. */
  function GetDimensions(s: Slide, level: int): (r: Result<Dims>)
    ensures r.Success? <==> -LevelCount(s) <= level < LevelCount(s)
    ensures r.Failure? ==> r.error == IndexError
    ensures ValidSlide(s) && r.Success? ==> PositiveDims(r.value)
  {
    var n := LevelCount(s);
    if 0 <= level < n then Success(s.levelDimensions[level])
    else if -n <= level < 0 then Success(s.levelDimensions[n + level])
    else Failure(IndexError)
  }

  // ---------------------------------------------------------------------------
  // WSI.scale_coordinates
  // ---------------------------------------------------------------------------

  /** The coordinates argument: four numbers, or a sequence of coordinate pairs. */
  datatype CoordsArg = Flat(values: seq<int>) | Nested(pairs: seq<seq<int>>)

  function OuterLength(c: CoordsArg): nat
  {
    match c
    case Flat(v) => |v|
    case Nested(ps) => |ps|
  }

  function Concat(ps: seq<seq<int>>): seq<int>
  {
    if ps == [] then [] else ps[0] + Concat(ps[1..])
  }

  /** `np.asarray(coords).ravel()`: rows of unequal length make a ragged array, which numpy refuses with ValueError. */
  function Ravel(c: CoordsArg): Result<seq<int>>
  {
    match c
    case Flat(v) => Success(v)
    case Nested(ps) =>
      if forall i :: 0 <= i < |ps| ==> |ps[i]| == |ps[0]| then Success(Concat(ps))
      else Failure(ValueError)
  }

  /**
   * The static `scale_coordinates`: the same floor scaling as
   * `Util.ScaleCoordinates`, but it also accepts two coordinate pairs and
   * returns a plain array. The sizes must have length 2 and the argument
   * length 2 or 4 (AssertionError); a flattened argument of any length
   * other than 4 cannot be broadcast against the tiled sizes (ValueError).
   */
  function ScaleCoordinatesArray(coords: CoordsArg, referenceSize: seq<int>, targetSize: seq<int>): (r: Result<seq<int>>)
    requires |referenceSize| == 2 ==> referenceSize[0] > 0 && referenceSize[1] > 0
    ensures r.Success? <==>
      && |referenceSize| == 2 && |targetSize| == 2
      && (OuterLength(coords) == 2 || OuterLength(coords) == 4)
      && Ravel(coords).Success? && |Ravel(coords).value| == 4
    ensures r.Failure? ==> r.error == (if |referenceSize| == 2 && |targetSize| == 2 && (OuterLength(coords) == 2 || OuterLength(coords) == 4) then ValueError else AssertionError)
    ensures r.Success? ==> |r.value| == 4 && forall i :: 0 <= i < 4 ==>
      r.value[i] == ScaleOne(Ravel(coords).value[i], referenceSize[i % 2], targetSize[i % 2])
  {
    if |referenceSize| != 2 || |targetSize| != 2 || !(OuterLength(coords) == 2 || OuterLength(coords) == 4) then
      Failure(AssertionError)
    else
      var flat :- Ravel(coords);
      if |flat| != 4 then Failure(ValueError)
      else
        var rs := Tile2(referenceSize);
        var ts := Tile2(targetSize);
        Success(seq(4, i requires 0 <= i < 4 => (flat[i] * ts[i]) / rs[i]))
  }

  /** Two coordinate pairs scale exactly as their flattening does. */
  lemma ScalePairsIsScaleFlat(a: int, b: int, c: int, d: int, referenceSize: seq<int>, targetSize: seq<int>)
    requires |referenceSize| == 2 ==> referenceSize[0] > 0 && referenceSize[1] > 0
    ensures ScaleCoordinatesArray(Nested([[a, b], [c, d]]), referenceSize, targetSize)
         == ScaleCoordinatesArray(Flat([a, b, c, d]), referenceSize, targetSize)
  {
    var ps := [[a, b], [c, d]];
    assert ps[1..] == [[c, d]] && [[c, d]][1..] == [];
    assert Concat([[c, d]]) == [c, d] + Concat([]) == [c, d];
    assert Concat(ps) == [a, b] + [c, d];
    assert [a, b] + [c, d] == [a, b, c, d];
    assert Ravel(Nested(ps)) == Success([a, b, c, d]);
  }

  /** On four coordinates the static method and the module function agree, as array and as `CoordinatePair`. */
  lemma ScaleArrayAgreesWithUtil(coords: seq<int>, referenceSize: seq<int>, targetSize: seq<int>)
    requires |coords| == 4
    requires |referenceSize| == 2 ==> referenceSize[0] > 0 && referenceSize[1] > 0
    ensures ScaleCoordinatesArray(Flat(coords), referenceSize, targetSize).Success?
        <==> Util.ScaleCoordinates(coords, referenceSize, targetSize).Success?
    ensures Util.ScaleCoordinates(coords, referenceSize, targetSize).Success? ==>
      ScaleCoordinatesArray(Flat(coords), referenceSize, targetSize).value
        == AsSeq(Util.ScaleCoordinates(coords, referenceSize, targetSize).value)
  {
  }

  // ---------------------------------------------------------------------------
  // get_thumbnail
  // ---------------------------------------------------------------------------

  /**
   * The size `get_thumbnail` hands to openslide: an int `s` becomes (s, s);
   * a list or tuple must have two entries (AssertionError) and is passed on
   * as it is; anything else, a numpy array included, raises TypeError.
   */
  function ThumbnailSize(size: SizeArg): (r: Result<seq<int>>)
    ensures r.Success? ==> |r.value| == 2
    ensures size.IntSize? ==> r == Success([size.n, size.n])
    ensures size.SeqSize? && size.listOrTuple ==>
      r == (if |size.items| == 2 then Success(size.items) else Failure(AssertionError))
    ensures (size.SeqSize? && !size.listOrTuple) || size.OtherSize? ==> r == Failure(TypeError)
  {
    match size
    case SeqSize(items, listOrTuple) =>
      if !listOrTuple then Failure(TypeError)
      else if |items| == 2 then Success(items) else Failure(AssertionError)
    case IntSize(n) => Success([n, n])
    case OtherSize => Failure(TypeError)
  }

  // ---------------------------------------------------------------------------
  // calculate_tissue_region: the biggest region and its box
  // ---------------------------------------------------------------------------

  /** A `regionprops` bounding box: (min_row, min_col, max_row, max_col), rows before columns. */
  datatype BBox = BBox(minRow: int, minCol: int, maxRow: int, maxCol: int)

  /** What `regionprops` reports for one labelled component (the centroid is never used). */
  datatype RegionProps = RegionProps(area: nat, bbox: BBox)

  /** The `Region(index, area, bbox, center)` records, without the unused centroid. */
  datatype Region = Region(index: nat, area: nat, bbox: BBox)

  /** The list comprehension that numbers the components in enumeration order. */
  function Regions(props: seq<RegionProps>): (r: seq<Region>)
    ensures |r| == |props|
    ensures forall i :: 0 <= i < |r| ==> r[i].index == i && r[i].area == props[i].area && r[i].bbox == props[i].bbox
  {
    seq(|props|, i requires 0 <= i < |props| => Region(i, props[i].area, props[i].bbox))
  }

  /**
   * The position `max(regions, key=area)` picks: a region of maximal area,
   * and, as `max` keeps the first of equal keys, every earlier region is
   * strictly smaller.
   */
  function FirstLargest(regions: seq<Region>): (k: nat)
    requires |regions| > 0
    ensures k < |regions|
    ensures forall j :: 0 <= j < |regions| ==> regions[j].area <= regions[k].area
    ensures forall j :: 0 <= j < k ==> regions[j].area < regions[k].area
  {
    if |regions| == 1 then 0
    else
      var k := FirstLargest(regions[..|regions| - 1]);
      if regions[|regions| - 1].area > regions[k].area then |regions| - 1 else k
  }

  /** `max(regions, key=lambda r: r.area)`; an empty list raises ValueError. */
  function BiggestRegion(regions: seq<Region>): (r: Result<Region>)
    ensures r.Failure? <==> |regions| == 0
    ensures r.Failure? ==> r.error == ValueError
    ensures r.Success? ==> r.value == regions[FirstLargest(regions)]
  {
    if |regions| == 0 then Failure(ValueError) else Success(regions[FirstLargest(regions)])
  }

  /** `y_ul, x_ul, y_br, x_br = bbox`, then `(x_ul, y_ul, x_br, y_br)`: rows become y, columns become x. */
  function XYBox(b: BBox): (c: CoordinatePair)
    ensures c.xUl == b.minCol && c.yUl == b.minRow && c.xBr == b.maxCol && c.yBr == b.maxRow
  {
    CoordinatePair(b.minCol, b.minRow, b.maxCol, b.maxRow)
  }

  /**
   * `calculate_tissue_region` after the morphology: `props` are the labelled
   * components of the thumbnail, whose array shape gives `thumbW` and
   * `thumbH`. The first component of maximal area is chosen, its bounding
   * box is reordered to (x_ul, y_ul, x_br, y_br) and scaled from the
   * thumbnail extent to the level-0 extent. No component at all raises
   * ValueError (from `max` of an empty list).
   */
  function CalculateTissueRegion(s: Slide, thumbW: int, thumbH: int, props: seq<RegionProps>): (r: Result<CoordinatePair>)
    requires ValidSlide(s) && thumbW > 0 && thumbH > 0
    ensures r.Failure? <==> |props| == 0
    ensures r.Failure? ==> r.error == ValueError
    ensures r.Success? ==>
      r.value == ScaleBox(XYBox(props[FirstLargest(Regions(props))].bbox), Dims(thumbW, thumbH), s.levelDimensions[0])
  {
    var d0 := GetDimensions(s, 0).value;
    var biggest :- BiggestRegion(Regions(props));
    var b := biggest.bbox;
    var scaled := ScaleCoordinatesArray(Flat([b.minCol, b.minRow, b.maxCol, b.maxRow]), [thumbW, thumbH], SizeSeq(d0)).value;
    Success(FromSeq(scaled))
  }

  /** `regionprops` boxes lie inside the labelled image and have ordered corners. */
  predicate BoxInImage(b: BBox, width: int, height: int)
  {
    0 <= b.minRow <= b.maxRow <= height && 0 <= b.minCol <= b.maxCol <= width
  }

  /** The tissue box is an ordered box inside the level-0 extent. */
  lemma TissueBoxWithinSlide(s: Slide, thumbW: int, thumbH: int, props: seq<RegionProps>)
    requires ValidSlide(s) && thumbW > 0 && thumbH > 0
    requires forall i :: 0 <= i < |props| ==> BoxInImage(props[i].bbox, thumbW, thumbH)
    ensures var r := CalculateTissueRegion(s, thumbW, thumbH, props);
      r.Success? ==> WithinExtent(r.value, s.levelDimensions[0]) && r.value.xUl <= r.value.xBr && r.value.yUl <= r.value.yBr
  {
    if |props| > 0 {
      var k := FirstLargest(Regions(props));
      var box := XYBox(props[k].bbox);
      ScaleBoxWithinExtent(box, Dims(thumbW, thumbH), s.levelDimensions[0]);
      ScaleBoxKeepsOrder(box, Dims(thumbW, thumbH), s.levelDimensions[0]);
    }
  }

  // ---------------------------------------------------------------------------
  // extract_tile
  // ---------------------------------------------------------------------------

  /** A `read_region(location, level, size)` call. */
  datatype ReadRequest = ReadRequest(x: int, y: int, level: int, w: int, h: int)

  /**
   * The read `extract_tile` issues for a level-0 box: at the level-0
   * upper-left corner, of the box's width and height once scaled to `level`.
   */
  function ReadFor(box: CoordinatePair, level: int, d0: Dims, dl: Dims): ReadRequest
    requires PositiveDims(d0)
  {
    var b := ScaleBox(box, d0, dl);
    ReadRequest(box.xUl, box.yUl, level, b.xBr - b.xUl, b.yBr - b.yUl)
  }

  /**
   * `extract_tile(coords, level)`: asserts four coordinates and
   * `level < level_count` (a negative level passes and then indexes from the
   * end, or raises IndexError), reads the region and wraps it in a `Tile`
   * carrying the unchanged level-0 coordinates and the requested level.
   */
  function ExtractTile<Img>(s: Slide, readRegion: ReadRequest -> Img, coords: seq<int>, level: int): (r: Result<Tile<Img>>)
    requires ValidSlide(s)
    ensures r.Success? <==> |coords| == 4 && -LevelCount(s) <= level < LevelCount(s)
    ensures r.Failure? ==> r.error == (if |coords| != 4 || level >= LevelCount(s) then AssertionError else IndexError)
    ensures r.Success? ==> r.value.coords == FromSeq(coords) && r.value.level == level
  {
    if |coords| != 4 || level >= LevelCount(s) then Failure(AssertionError)
    else
      var d0 := GetDimensions(s, 0).value;
      var dl :- GetDimensions(s, level);
      // `self.scale_coordinates(coords, ...)`: for four coordinates it is the box scaled (LevelCoordsAreScaleBox)
      var coordsLevel := ScaleBox(FromSeq(coords), d0, dl);
      var h := coordsLevel.yBr - coordsLevel.yUl;
      var w := coordsLevel.xBr - coordsLevel.xUl;
      var patch := readRegion(ReadRequest(coords[0], coords[1], level, w, h));
      NewTile(patch, level, coords)
  }

  /** `scale_coordinates` of four coordinates between two level sizes is `ScaleBox` of the box they denote. */
  lemma LevelCoordsAreScaleBox(coords: seq<int>, d0: Dims, dl: Dims)
    requires |coords| == 4 && PositiveDims(d0)
    ensures ScaleCoordinatesArray(Flat(coords), SizeSeq(d0), SizeSeq(dl)) == Success(AsSeq(ScaleBox(FromSeq(coords), d0, dl)))
  {
    ScaleArrayAgreesWithUtil(coords, SizeSeq(d0), SizeSeq(dl));
    ScaleCoordinatesIsScaleBox(FromSeq(coords), d0, dl);
    assert AsSeq(FromSeq(coords)) == coords;
  }

  /**
   * The image of an extracted tile is what `read_region` returns for the
   * level-0 upper-left corner and the box's extent at the requested level.
   */
  lemma ExtractTileReads<Img>(s: Slide, readRegion: ReadRequest -> Img, coords: seq<int>, level: int)
    requires ValidSlide(s)
    requires |coords| == 4 && -LevelCount(s) <= level < LevelCount(s)
    ensures ExtractTile(s, readRegion, coords, level).value.image
         == readRegion(ReadFor(FromSeq(coords), level, s.levelDimensions[0], GetDimensions(s, level).value))
  {
  }

  /** At level 0 the read size is the box's own width and height. */
  lemma ReadSizeAtLevelZero(box: CoordinatePair, d0: Dims)
    requires PositiveDims(d0)
    ensures ReadFor(box, 0, d0, d0) == ReadRequest(box.xUl, box.yUl, 0, box.xBr - box.xUl, box.yBr - box.yUl)
  {
    ScaleBoxIdentity(box, d0);
  }

  /** A box with ordered corners is read with a non-negative size at every level. */
  lemma ReadSizeNonNegative(box: CoordinatePair, level: int, d0: Dims, dl: Dims)
    requires PositiveDims(d0) && PositiveDims(dl)
    requires box.xUl <= box.xBr && box.yUl <= box.yBr
    ensures ReadFor(box, level, d0, dl).w >= 0 && ReadFor(box, level, d0, dl).h >= 0
  {
    ScaleBoxKeepsOrder(box, d0, dl);
  }
}
