/**
 * Coordinate scaling between pyramid levels (histo_lib/util.py, whose
 * byte-identical copy is histo_lib/utils.py).
 *
 * A box is four integers (x_ul, y_ul, x_br, y_br). Scaling multiplies each
 * coordinate by the target extent and divides by the reference extent,
 * rounding down; the two sizes are tiled to (w, h, w, h), so x-coordinates
 * scale by the widths and y-coordinates by the heights. The source divides
 * in floating point and takes `np.floor`; here the division is exact integer
 * division, which for a positive divisor is the floor.
 */
module Util {
  import opened Common

  /** The named tuple `CoordinatePair(x_ul, y_ul, x_br, y_br)`. */
  datatype CoordinatePair = CoordinatePair(xUl: int, yUl: int, xBr: int, yBr: int)

  /** A level's pixel extent (width, height). */
  datatype Dims = Dims(w: int, h: int)

  /** The four coordinates in field order, as unpacking the named tuple gives them. */
  function AsSeq(b: CoordinatePair): (s: seq<int>)
    ensures |s| == 4
  {
    [b.xUl, b.yUl, b.xBr, b.yBr]
  }

  /** Builds the box from four coordinates in field order, as `CoordinatePair(*coords)` does. */
  function FromSeq(s: seq<int>): (b: CoordinatePair)
    requires |s| == 4
    ensures AsSeq(b) == s
  {
    CoordinatePair(s[0], s[1], s[2], s[3])
  }

  /** The extent (w, h) as the two-element size the Python functions take. */
  function SizeSeq(d: Dims): seq<int>
  {
    [d.w, d.h]
  }

  predicate PositiveDims(d: Dims)
  {
    d.w > 0 && d.h > 0
  }

  /** One coordinate scaled from a `reference` extent to a `target` extent: `c * target // reference`. */
  function ScaleOne(c: int, reference: int, target: int): int
    requires reference > 0
  {
    (c * target) / reference
  }

  /**
   * The scaled coordinate is the floor of `c * target / reference`, which
   * the sandwich `r * reference <= c * target < (r + 1) * reference`
   * characterises (see ScaleOneUnique).
   */
  lemma ScaleOneFloor(c: int, reference: int, target: int)
    requires reference > 0
    ensures var r := ScaleOne(c, reference, target); r * reference <= c * target < (r + 1) * reference
  {
  }

  /** Multiplying by a positive factor keeps strict order, both ways. */
  lemma MulStrictMonotone(x: int, y: int, k: int)
    requires k > 0
    ensures x * k < y * k <==> x < y
  {
    var d := y - x;
    assert y * k == x * k + d * k;
    if d > 0 {
      assert d * k > 0;
    } else {
      assert (-d) * k >= 0;
    }
  }

  /** Multiplying by a non-negative factor keeps weak order. */
  lemma MulMonotone(x: int, y: int, k: int)
    requires k >= 0 && x <= y
    ensures x * k <= y * k
  {
    assert y * k - x * k == (y - x) * k;
  }

  /** The sandwich determines the scaled coordinate uniquely. */
  lemma {:induction false} ScaleOneUnique(c: int, reference: int, target: int, r: int)
    requires reference > 0
    requires r * reference <= c * target < (r + 1) * reference
    ensures r == ScaleOne(c, reference, target)
  {
    var q := ScaleOne(c, reference, target);
    ScaleOneFloor(c, reference, target);
    MulStrictMonotone(r, q + 1, reference);
    MulStrictMonotone(q, r + 1, reference);
  }

  /** Every coordinate scaled, x by the widths and y by the heights. */
  function ScaleBox(b: CoordinatePair, reference: Dims, target: Dims): (r: CoordinatePair)
    requires PositiveDims(reference)
  {
    CoordinatePair(
      ScaleOne(b.xUl, reference.w, target.w),
      ScaleOne(b.yUl, reference.h, target.h),
      ScaleOne(b.xBr, reference.w, target.w),
      ScaleOne(b.yBr, reference.h, target.h))
  }

  /** `np.tile(size, 2)`: the size repeated, (w, h, w, h). */
  function Tile2(size: seq<int>): (t: seq<int>)
    ensures |t| == 2 * |size|
  {
    size + size
  }

  /**
   * `scale_coordinates(reference_coords, reference_size, target_size)`.
   * The three length assertions fail with AssertionError; otherwise every
   * coordinate is multiplied elementwise by the tiled target size and
   * divided by the tiled reference size, then rounded down.
   */
  function ScaleCoordinates(coords: seq<int>, referenceSize: seq<int>, targetSize: seq<int>): (r: Result<CoordinatePair>)
    requires |referenceSize| == 2 ==> referenceSize[0] > 0 && referenceSize[1] > 0
    ensures r.Success? <==> |referenceSize| == 2 && |targetSize| == 2 && |coords| == 4
    ensures r.Failure? ==> r.error == AssertionError
    ensures r.Success? ==>
      && r.value.xUl == ScaleOne(coords[0], referenceSize[0], targetSize[0])
      && r.value.yUl == ScaleOne(coords[1], referenceSize[1], targetSize[1])
      && r.value.xBr == ScaleOne(coords[2], referenceSize[0], targetSize[0])
      && r.value.yBr == ScaleOne(coords[3], referenceSize[1], targetSize[1])
  {
    if |referenceSize| != 2 || |targetSize| != 2 || |coords| != 4 then
      Failure(AssertionError)
    else
      var rs := Tile2(referenceSize);
      var ts := Tile2(targetSize);
      var scaled := seq(4, i requires 0 <= i < 4 => (coords[i] * ts[i]) / rs[i]);
      Success(FromSeq(scaled))
  }

  /** With well-formed arguments, `scale_coordinates` is `ScaleBox` of the box the four coordinates denote. */
  lemma ScaleCoordinatesIsScaleBox(b: CoordinatePair, reference: Dims, target: Dims)
    requires PositiveDims(reference)
    ensures ScaleCoordinates(AsSeq(b), SizeSeq(reference), SizeSeq(target)) == Success(ScaleBox(b, reference, target))
  {
  }

  /** Scaling between equal extents changes nothing. */
  lemma {:induction false} ScaleOneIdentity(c: int, size: int)
    requires size > 0
    ensures ScaleOne(c, size, size) == c
  {
    var r := ScaleOne(c, size, size);
    ScaleOneFloor(c, size, size);
    MulStrictMonotone(r, c + 1, size);
    MulStrictMonotone(c, r + 1, size);
  }

  /** When reference and target sizes agree, the box comes back unchanged. */
  lemma ScaleBoxIdentity(b: CoordinatePair, size: Dims)
    requires PositiveDims(size)
    ensures ScaleBox(b, size, size) == b
  {
    ScaleOneIdentity(b.xUl, size.w);
    ScaleOneIdentity(b.yUl, size.h);
    ScaleOneIdentity(b.xBr, size.w);
    ScaleOneIdentity(b.yBr, size.h);
  }

  /** Scaling towards a non-negative extent is monotone in the coordinate. */
  lemma {:induction false} ScaleOneMonotone(c1: int, c2: int, reference: int, target: int)
    requires reference > 0 && target >= 0
    requires c1 <= c2
    ensures ScaleOne(c1, reference, target) <= ScaleOne(c2, reference, target)
  {
    var r1 := ScaleOne(c1, reference, target);
    var r2 := ScaleOne(c2, reference, target);
    ScaleOneFloor(c1, reference, target);
    ScaleOneFloor(c2, reference, target);
    MulMonotone(c1, c2, target);
    MulStrictMonotone(r1, r2 + 1, reference);
  }

  /** A box whose corners are ordered keeps them ordered. */
  lemma ScaleBoxKeepsOrder(b: CoordinatePair, reference: Dims, target: Dims)
    requires PositiveDims(reference) && target.w >= 0 && target.h >= 0
    requires b.xUl <= b.xBr && b.yUl <= b.yBr
    ensures var r := ScaleBox(b, reference, target); r.xUl <= r.xBr && r.yUl <= r.yBr
  {
    ScaleOneMonotone(b.xUl, b.xBr, reference.w, target.w);
    ScaleOneMonotone(b.yUl, b.yBr, reference.h, target.h);
  }

  /** A coordinate in [0, reference] lands in [0, target]: rounding down never overshoots the target extent. */
  lemma {:induction false} ScaleOneBounds(c: int, reference: int, target: int)
    requires reference > 0 && target >= 0
    requires 0 <= c <= reference
    ensures 0 <= ScaleOne(c, reference, target) <= target
  {
    var r := ScaleOne(c, reference, target);
    ScaleOneFloor(c, reference, target);
    MulMonotone(c, reference, target);
    MulMonotone(0, c, target);
    assert reference * target == target * reference;
    MulStrictMonotone(r, target + 1, reference);
    MulStrictMonotone(0, r + 1, reference);
  }

  /** Inside the extent (0, 0, w, h) of a level. */
  predicate WithinExtent(b: CoordinatePair, d: Dims)
  {
    0 <= b.xUl <= d.w && 0 <= b.xBr <= d.w && 0 <= b.yUl <= d.h && 0 <= b.yBr <= d.h
  }

  /** A box inside the reference extent maps to a box inside the target extent. */
  lemma ScaleBoxWithinExtent(b: CoordinatePair, reference: Dims, target: Dims)
    requires PositiveDims(reference) && target.w >= 0 && target.h >= 0
    requires WithinExtent(b, reference)
    ensures WithinExtent(ScaleBox(b, reference, target), target)
  {
    ScaleOneBounds(b.xUl, reference.w, target.w);
    ScaleOneBounds(b.yUl, reference.h, target.h);
    ScaleOneBounds(b.xBr, reference.w, target.w);
    ScaleOneBounds(b.yBr, reference.h, target.h);
  }

  /**
   * Scaling is lossy: going to another extent and back never yields a
   * larger coordinate than the one started from (for c >= 0).
   */
  lemma {:induction false} ScaleOneRoundTripNeverExceeds(c: int, a: int, b: int)
    requires a > 0 && b > 0 && c >= 0
    ensures ScaleOne(ScaleOne(c, a, b), b, a) <= c
  {
    var down := ScaleOne(c, a, b);
    var back := ScaleOne(down, b, a);
    ScaleOneFloor(c, a, b);
    ScaleOneFloor(down, b, a);
    assert down * a <= c * b;
    assert back * b <= down * a;
    MulStrictMonotone(back, c + 1, b);
  }
}
