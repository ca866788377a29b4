/**
 * The tile validators (preprocessing/check_tiles.py): the shape, dtype and
 * value-range checks, and `check_tile`, which reads a tile file, runs the
 * three checks in that order and turns the exceptions it expects into
 * `False`.
 *
 * Opening and decoding the file (`PIL.Image.open(...).convert("RGB")`) is
 * I/O: its outcome is a parameter, either the decoded RGB image or the
 * exception the reader raised. `np.array(image)` is `ToArray`. The tile size
 * is the value gin binds to `check_tile_shape`'s `tile_size`.
 */
module CheckTiles {
  import opened Common

  /** A sample of an 8-bit image. */
  type Byte = x: int | 0 <= x < 256

  /** An image converted to "RGB": width, height and the samples, row by row, three per pixel. */
  datatype RgbImage = RgbImage(width: nat, height: nat, samples: seq<Byte>)

  datatype DType = UInt8 | OtherDType(name: string)

  /** A numpy array: its shape, its dtype and its values in row-major order. */
  datatype NdArray = NdArray(shape: seq<int>, dtype: DType, values: seq<int>)

  /** `np.array(image)` of an RGB image: shape (height, width, 3), rows first, and dtype uint8. */
  function ToArray(img: RgbImage): (a: NdArray)
    ensures a.shape == [img.height, img.width, 3] && a.dtype == UInt8
    ensures forall i :: 0 <= i < |a.values| ==> 0 <= a.values[i] <= 255
  {
    NdArray([img.height, img.width, 3], UInt8, img.samples)
  }

  /**
   * The size normalisation of `check_tile_shape`: an int gives a square; a
   * sized argument must have two entries, and its AssertionError is
   * re-raised as ValueError; a value `int()` refuses raises TypeError.
   */
  function TileSize(size: SizeArg): (r: Result<(int, int)>)
    ensures r.Success? <==> size.IntSize? || (size.SeqSize? && |size.items| == 2)
    ensures size.IntSize? ==> r.value == (size.n, size.n)
    ensures r.Success? && size.SeqSize? ==> r.value == (size.items[0], size.items[1])
    ensures r.Failure? ==> r.error == (if size.SeqSize? then ValueError else TypeError)
  {
    match size
    case SeqSize(items, _) => if |items| == 2 then Success((items[0], items[1])) else Failure(ValueError)
    case IntSize(n) => Success((n, n))
    case OtherSize => Failure(TypeError)
  }

  /**
   * `check_tile_shape` as written: it compares the array shape with
   * (tile_w, tile_h, 3), but a numpy image array is (height, width, 3).
   */
  function CheckTileShapeAsWritten(a: NdArray, tileSize: SizeArg): (r: Result<()>)
    ensures r.Success? <==> TileSize(tileSize).Success? && a.shape == [TileSize(tileSize).value.0, TileSize(tileSize).value.1, 3]
    ensures r.Failure? ==> r.error == ValueError || (r.error == TypeError && tileSize.OtherSize?)
  {
    var (w, h) :- TileSize(tileSize);
    if a.shape != [w, h, 3] then Failure(ValueError) else Success(())
  }

  /** `check_tile_shape` as intended: the array must be `tile_h` rows of `tile_w` RGB pixels. */
  function CheckTileShape(a: NdArray, tileSize: SizeArg): (r: Result<()>)
    ensures r.Success? <==> TileSize(tileSize).Success? && a.shape == [TileSize(tileSize).value.1, TileSize(tileSize).value.0, 3]
    ensures r.Failure? ==> r.error == ValueError || (r.error == TypeError && tileSize.OtherSize?)
  {
    var (w, h) :- TileSize(tileSize);
    if a.shape != [h, w, 3] then Failure(ValueError) else Success(())
  }

  /** For square tiles, and in particular for an integer tile size, both comparisons agree. */
  lemma ShapeChecksAgreeOnSquareTiles(a: NdArray, tileSize: SizeArg)
    requires TileSize(tileSize).Success? ==> TileSize(tileSize).value.0 == TileSize(tileSize).value.1
    ensures CheckTileShapeAsWritten(a, tileSize) == CheckTileShape(a, tileSize)
  {
  }

  /**
   * A 64 x 32 RGB tile checked against `tile_size = (64, 32)` is rejected as
   * written and accepted as intended; the transposed 32 x 64 tile is accepted
   * as written.
   */
  lemma ShapeCheckTransposes()
    ensures CheckTileShapeAsWritten(ToArray(RgbImage(64, 32, [])), SeqSize([64, 32], true)) == Failure(ValueError)
    ensures CheckTileShape(ToArray(RgbImage(64, 32, [])), SeqSize([64, 32], true)) == Success(())
    ensures CheckTileShapeAsWritten(ToArray(RgbImage(32, 64, [])), SeqSize([64, 32], true)) == Success(())
  {
  }

  /** `check_tile_uint8`: TypeError unless the dtype is uint8. */
  function CheckTileUint8(a: NdArray): (r: Result<()>)
    ensures r.Success? <==> a.dtype == UInt8
    ensures r.Failure? ==> r.error == TypeError
  {
    if a.dtype != UInt8 then Failure(TypeError) else Success(())
  }

  /** `check_tile_values_range`: ValueError when any value lies below 0 or above 255. */
  function CheckTileValuesRange(a: NdArray): (r: Result<()>)
    ensures r.Success? <==> forall i :: 0 <= i < |a.values| ==> 0 <= a.values[i] <= 255
    ensures r.Failure? ==> r.error == ValueError && exists i :: 0 <= i < |a.values| && !(0 <= a.values[i] <= 255)
  {
    if forall i :: 0 <= i < |a.values| ==> 0 <= a.values[i] <= 255 then Success(()) else Failure(ValueError)
  }

  /** The three checks in the order `check_tile` runs them; the first that raises decides. */
  function RunChecks(a: NdArray, tileSize: SizeArg): (r: Result<()>)
    ensures r.Success? <==>
      && CheckTileShape(a, tileSize).Success?
      && CheckTileUint8(a).Success?
      && CheckTileValuesRange(a).Success?
    ensures CheckTileShape(a, tileSize).Failure? ==> r == CheckTileShape(a, tileSize)
    ensures CheckTileShape(a, tileSize).Success? && a.dtype != UInt8 ==> r == Failure(TypeError)
  {
    var _ :- CheckTileShape(a, tileSize);
    var _ :- CheckTileUint8(a);
    CheckTileValuesRange(a)
  }

  /** The exceptions `check_tile` turns into `False`. */
  predicate Caught(e: Error)
  {
    e == FileNotFoundError || e == UnidentifiedImageError || e == ValueError || e == TypeError
  }

  /** The checks raise only ValueError or TypeError, both of which `check_tile` catches. */
  lemma ChecksRaiseOnlyCaught(a: NdArray, tileSize: SizeArg)
    ensures RunChecks(a, tileSize).Failure? ==> Caught(RunChecks(a, tileSize).error)
  {
  }

  /**
   * `check_tile`: `read` is what opening and converting the file gave. A
   * caught exception, from the reader or from a check, gives false; any
   * other exception propagates.
   */
  function CheckTile(read: Result<RgbImage>, tileSize: SizeArg): (r: Result<bool>)
    ensures r.Failure? <==> read.Failure? && !Caught(read.error)
    ensures r.Failure? ==> r.error == read.error
    ensures r == Success(true) <==> read.Success? && RunChecks(ToArray(read.value), tileSize).Success?
  {
    match read
    case Failure(e) => if Caught(e) then Success(false) else Failure(e)
    case Success(image) =>
      // every exception a check raises is caught (ChecksRaiseOnlyCaught)
      var checks := RunChecks(ToArray(image), tileSize);
      if checks.Failure? then Success(false) else Success(true)
  }

  /**
   * Once a file decodes to an RGB image the dtype and range checks always
   * pass: the tile is accepted exactly when it is `tile_h` rows of `tile_w`
   * pixels, and a check never raises past `check_tile`.
   */
  lemma CheckTileIsShapeCheck(img: RgbImage, tileSize: SizeArg)
    ensures CheckTile(Success(img), tileSize).Success?
    ensures CheckTile(Success(img), tileSize).value <==>
      TileSize(tileSize).Success? && img.width == TileSize(tileSize).value.0 && img.height == TileSize(tileSize).value.1
  {
  }
}
