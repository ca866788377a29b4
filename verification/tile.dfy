/**
 * A tile read from a slide (histo_lib/tile.py): its constructor, the
 * decision at the end of `has_enough_tissue`, and the extension rule of
 * `save`.
 *
 * The image processing that feeds the decision (grayscale conversion, Otsu
 * threshold, disk dilation, hole filling) is foreign numerics; the decision
 * receives its outputs: the mean and standard deviation of the gray pixels
 * and the filled binary mask, one boolean per pixel.
 */
module Tiles {
  import opened Common
  import opened Util
  import Strings

  /** A decoded pixel region, the level it was read at, and its box in level-0 coordinates. */
  datatype Tile<Img> = Tile(image: Img, level: int, coords: CoordinatePair)

  /**
   * `Tile(image, level, coords)`: asserts four coordinates and stores them as
   * a `CoordinatePair` (whether or not they already were one); the `image`
   * and `level` properties give back what was passed in.
   */
  function NewTile<Img>(image: Img, level: int, coords: seq<int>): (r: Result<Tile<Img>>)
    ensures r.Success? <==> |coords| == 4
    ensures r.Failure? ==> r.error == AssertionError
    ensures r.Success? ==> r.value.image == image && r.value.level == level && AsSeq(r.value.coords) == coords
  {
    if |coords| != 4 then Failure(AssertionError)
    else Success(Tile(image, level, FromSeq(coords)))
  }

  // ---------------------------------------------------------------------------
  // The tissue decision over the filled binary mask
  // ---------------------------------------------------------------------------

  const DefaultThreshold: real := 0.8
  const DefaultNearZeroVarThreshold: real := 0.1

  function Bit(b: bool): real
  {
    if b then 1.0 else 0.0
  }

  /** Number of foreground (1) pixels of the mask. */
  function Foreground(mask: seq<bool>): (k: nat)
    ensures k <= |mask|
  {
    if mask == [] then 0
    else Foreground(mask[..|mask| - 1]) + (if mask[|mask| - 1] then 1 else 0)
  }

  /** `np.mean` of the 0/1 mask: the foreground fraction. */
  function Mean(mask: seq<bool>): (p: real)
    requires |mask| > 0
    ensures 0.0 <= p <= 1.0
  {
    Foreground(mask) as real / |mask| as real
  }

  /** Sum of squared deviations of the mask values from `m`. */
  function SumSqDev(mask: seq<bool>, m: real): real
  {
    if mask == [] then 0.0
    else
      var d := Bit(mask[|mask| - 1]) - m;
      SumSqDev(mask[..|mask| - 1], m) + d * d
  }

  /** `np.var` of the mask: the mean squared deviation from the mean. */
  function Variance(mask: seq<bool>): real
    requires |mask| > 0
  {
    SumSqDev(mask, Mean(mask)) / |mask| as real
  }

  lemma {:induction false} SumSqDevClosedForm(mask: seq<bool>, m: real)
    ensures SumSqDev(mask, m) == Foreground(mask) as real - 2.0 * m * Foreground(mask) as real + |mask| as real * m * m
  {
    if mask != [] {
      var init := mask[..|mask| - 1];
      SumSqDevClosedForm(init, m);
      var v := Bit(mask[|mask| - 1]);
      assert v * v == v;
      assert Foreground(mask) as real == Foreground(init) as real + v;
      assert |mask| as real == |init| as real + 1.0;
    }
  }

  /** For a 0/1 mask with foreground fraction p, the variance is p(1 - p). */
  lemma VarianceOfBinaryMask(mask: seq<bool>)
    requires |mask| > 0
    ensures Variance(mask) == Mean(mask) * (1.0 - Mean(mask))
  {
    var p := Mean(mask);
    var n := |mask| as real;
    var k := Foreground(mask) as real;
    SumSqDevClosedForm(mask, p);
    assert k == p * n;
    BinaryVarianceAlgebra(k, n, p);
  }

  /** The algebra behind VarianceOfBinaryMask: with k = p n, (k - 2 p k + n p^2) / n = p (1 - p). */
  lemma BinaryVarianceAlgebra(k: real, n: real, p: real)
    requires n > 0.0 && k == p * n
    ensures (k - 2.0 * p * k + n * p * p) / n == p * (1.0 - p)
  {
    assert 2.0 * p * k == 2.0 * (p * p) * n;
    assert n * p * p == (p * p) * n;
    assert k - 2.0 * p * k + n * p * p == (p - p * p) * n;
  }

  /**
   * The last steps of `has_enough_tissue`. A near-white tile (gray mean
   * above 0.9 and gray standard deviation below 0.09) is rejected at once; so
   * is a mask whose variance is below `nearZeroVarThreshold`; otherwise the
   * tile is accepted exactly when the foreground fraction exceeds
   * `threshold`. An empty mask has NaN mean and variance, and every
   * comparison with NaN is false, so the result is false.
   */
  function HasEnoughTissue(grayMean: real, grayStd: real, mask: seq<bool>, threshold: real, nearZeroVarThreshold: real): (r: bool)
    ensures r <==>
      && !(grayMean > 0.9 && grayStd < 0.09)
      && |mask| > 0
      && Mean(mask) * (1.0 - Mean(mask)) >= nearZeroVarThreshold
      && Mean(mask) > threshold
  {
    if grayMean > 0.9 && grayStd < 0.09 then false
    else if |mask| == 0 then false
    else
      VarianceOfBinaryMask(mask);
      if Variance(mask) < nearZeroVarThreshold then false
      else Mean(mask) > threshold
  }

  /** A mask that is all background or all foreground has variance 0 and is rejected for any positive variance threshold. */
  lemma {:induction false} UniformMaskRejected(grayMean: real, grayStd: real, mask: seq<bool>, threshold: real, nearZeroVarThreshold: real)
    requires nearZeroVarThreshold > 0.0
    requires (forall i :: 0 <= i < |mask| ==> mask[i]) || (forall i :: 0 <= i < |mask| ==> !mask[i])
    ensures !HasEnoughTissue(grayMean, grayStd, mask, threshold, nearZeroVarThreshold)
  {
    if |mask| > 0 {
      if forall i :: 0 <= i < |mask| ==> mask[i] {
        AllForeground(mask);
      } else {
        NoForeground(mask);
      }
    }
  }

  lemma {:induction false} AllForeground(mask: seq<bool>)
    requires forall i :: 0 <= i < |mask| ==> mask[i]
    ensures Foreground(mask) == |mask|
  {
    if mask != [] {
      AllForeground(mask[..|mask| - 1]);
    }
  }

  lemma {:induction false} NoForeground(mask: seq<bool>)
    requires forall i :: 0 <= i < |mask| ==> !mask[i]
    ensures Foreground(mask) == 0
  {
    if mask != [] {
      NoForeground(mask[..|mask| - 1]);
    }
  }

  /** The comparison with `threshold` is strict: a fraction equal to it is rejected. */
  lemma FractionAtThresholdRejected(grayMean: real, grayStd: real, mask: seq<bool>, nearZeroVarThreshold: real)
    requires |mask| > 0
    ensures !HasEnoughTissue(grayMean, grayStd, mask, Mean(mask), nearZeroVarThreshold)
  {
  }

  /**
   * With the default thresholds (0.8 and 0.1) an accepted tile has a
   * foreground fraction strictly between 0.8 and 0.9: above 0.9 the
   * variance p(1 - p) is at most 0.09, below the variance threshold.
   */
  lemma DefaultAcceptanceWindow(grayMean: real, grayStd: real, mask: seq<bool>)
    requires HasEnoughTissue(grayMean, grayStd, mask, DefaultThreshold, DefaultNearZeroVarThreshold)
    ensures 0.8 < Mean(mask) < 0.9
  {

  }

  // ---------------------------------------------------------------------------
  // The extension rule of `save`
  // ---------------------------------------------------------------------------

  /**
   * The extension `os.path.splitext(path)[1]` (POSIX): from the last '.' of
   * the last path component to the end, provided that component has a
   * character other than '.' before that dot; otherwise empty.
   */
  function Ext(path: string): string
  {
    var sepIndex := Strings.RFind(path, '/');
    var dotIndex := Strings.RFind(path, '.');
    if dotIndex > sepIndex && NonDotIn(path, sepIndex + 1, dotIndex) then path[dotIndex..]
    else []
  }

  /** The scan of `splitext` for a character other than '.' in `path[lo..hi]`. */
  function NonDotIn(path: string, lo: int, hi: int): bool
    requires 0 <= lo && hi <= |path|
    decreases hi - lo
  {
    if lo >= hi then false else path[lo] != '.' || NonDotIn(path, lo + 1, hi)
  }

  lemma {:induction false} NonDotInIff(path: string, lo: int, hi: int)
    requires 0 <= lo && hi <= |path|
    ensures NonDotIn(path, lo, hi) <==> (exists i :: lo <= i < hi && path[i] != '.')
    decreases hi - lo
  {
    if lo < hi {
      NonDotInIff(path, lo + 1, hi);
    }
  }

  /** A non-empty extension is a suffix of the path that starts with its only '.' and has no '/'. */
  lemma ExtIsSuffix(path: string)
    ensures var e := Ext(path);
      e == [] || (e[0] == '.' && |e| <= |path| && path[|path| - |e|..] == e && '/' !in e && '.' !in e[1..])
  {
    Strings.RFindLast(path, '/');
    Strings.RFindLast(path, '.');
  }

  /** The path `save` writes to: ".png" is appended when the path has no extension. */
  function SavePath(path: string): string
  {
    if Ext(path) == [] then path + ".png" else path
  }

  /** A path with an extension is kept; one without gets ".png", and then has that extension. */
  lemma {:induction false} SavePathExtension(path: string)
    requires exists i :: Strings.RFind(path, '/') < i < |path| && path[i] != '.'
    ensures Ext(path) != [] ==> SavePath(path) == path
    ensures Ext(path) == [] ==> SavePath(path) == path + ".png" && Ext(SavePath(path)) == ".png"
  {
    if Ext(path) == [] {
      var q := path + ".png";
      Strings.RFindAppendAbsent(path + ['.'], "png", '/');
      Strings.RFindAppendAbsent(path, ['.'], '/');
      Strings.RFindAppendAbsent(path + ['.'], "png", '.');
      assert q == (path + ['.']) + "png";
      var i :| Strings.RFind(path, '/') < i < |path| && path[i] != '.';
      assert q[i] == path[i];
      NonDotInIff(q, Strings.RFind(path, '/') + 1, |path|);
    }
  }

  /** Saving is idempotent for a path whose last component holds a character other than '.'. */
  lemma SavePathIdempotent(path: string)
    requires exists i :: Strings.RFind(path, '/') < i < |path| && path[i] != '.'
    ensures SavePath(SavePath(path)) == SavePath(path)
  {
    SavePathExtension(path);
  }

  /** Without such a character the rule is not idempotent: "" is saved as ".png", and ".png" as ".png.png". */
  lemma SavePathNotIdempotentOnDotOnlyNames()
    ensures SavePath("") == ".png"
    ensures SavePath(".png") == ".png.png"
  {
    assert Ext("") == [];
    Strings.RFindAppendAbsent([], ".", '.');
    Strings.RFindAppendAbsent(".", "png", '.');
    Strings.RFindAppendAbsent([], ".png", '/');
    assert ".png" == "." + "png" && [] + ".png" == ".png";
    assert Ext(".png") == [];
  }

}
