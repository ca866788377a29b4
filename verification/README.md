# Whole-slide-image tiling, modelled in Dafny

This project models the core of the digital-pathology-classification
pre-processing library:

- **Coordinate scaling between pyramid levels.** `histo_lib/util.py` and its byte-identical copy `histo_lib/utils.py` share one model, module `Util`.
- **The geometry of a whole-slide image.** This is `WSI` in `histo_lib/wsi.py`, module `Wsi`:
  - the list of levels;
  - the static `scale_coordinates`;
  - the size normalisation of `get_thumbnail`;
  - the choice of the biggest tissue region and its box;
  - the read issued by `extract_tile`.
- **A tile.** This is `Tile` in `histo_lib/tile.py`, module `Tiles`:
  - its constructor and accessors;
  - the decision at the end of `has_enough_tissue`, over the filled binary mask;
  - the extension rule of `save`.
- **The random tiler.** This is `RandomTiler` in `histo_lib/tiler.py`, module `Tiler`. It is a class whose constant fields are set by its constructor:
  - argument checks in `__init__`;
  - the sampling box;
  - the rejection-sampling loop of `random_tiles_generator`, as a method with loop invariants, specified by a recursive function of the random draws;
  - the numbered file names `extract` saves tiles under.
- **The tile validators.** These are in `preprocessing/check_tiles.py`, module `CheckTiles`.
- **Label encoding.** `reverse_dict` and `encode_label` are in `preprocessing/labels.py`, module `Labels`. A Python dict is modelled as its keys in insertion order plus the mapping.
- **TCGA file-name parsing.** `preprocessing/tcga/utils.py`, module `Tcga`. `preprocessing/tcga_utils.py` repeats its first two functions, `wsi_filename_to_patient` and `wsi_filename_to_wsi_id`, word for word, and they share the same definitions; it has no `tile_filename_to_wsi_filename`, so the import of that name in `preprocessing_check_tiles_tcga.py:5-8` fails.
- **Small string operations.** Module `Strings` holds the operations the parsers use: `rfind`, `basename`, `split`, `join` and `str()` of an integer.

Exceptions become `Common.Result` values that name the exception class. Foreign code becomes parameters:

- openslide: a slide is the list of its level extents, and `read_region` is a function;
- skimage morphology: the labelled components, or the filled mask and gray statistics, are inputs;
- numpy's global random generator: an oracle of draws;
- PIL: the decoded image, or the exception the reader raised.

Where the written code cannot run as intended, the model follows the evident intent and records the code as written beside it (see Findings). This happens four times in `tiler.py` and once in `check_tiles.py`. One more defect has no modelled behaviour: `histo_lib/wsi.py:13` imports `Coordinates` from `.tile`, which defines no such name, so importing `wsi.py` fails. The model reads every `Coordinates(...)` as the `CoordinatePair` named tuple.

The tiler seeds numpy's generator once, in `__init__` (`histo_lib/tiler.py:29`), so successive `extract` calls continue one random stream; the model range-checks the seed in `New` and takes the stream as the draw oracle. `__init__` does not compare `max_iter` with `n_tiles`: a positive cap below `n_tiles` is accepted, and the generator then stops after iteration `max_iter + 1`, yielding at most one tile per iteration (`RunBounds`, `RunProperties`).

## Model

| member | source | states |
|---|---|---|
| Util.AsSeq | histo_lib/util.py:5 | a `CoordinatePair` unpacks to its four fields in the order (x_ul, y_ul, x_br, y_br) |
| Util.FromSeq | histo_lib/util.py:35-37 | `CoordinatePair(*coords)` of four numbers unpacks back to exactly those numbers |
| Util.ScaleOneFloor | histo_lib/util.py:36 | a scaled coordinate r satisfies r·ref ≤ c·target < (r+1)·ref, so it is the floor of c·target/ref |
| Util.ScaleOneUnique | histo_lib/util.py:36 | any r with that sandwich is the scaled coordinate: the floor is characterised uniquely |
| Util.ScaleCoordinates | histo_lib/util.py:28-37 | AssertionError exactly when the reference or target size does not have two entries or there are not four coordinates; otherwise positions 0 and 2 scale by the widths and 1 and 3 by the heights |
| Util.ScaleCoordinatesIsScaleBox | histo_lib/util.py:33-36 | with well-formed sizes the result is the box with x scaled by the widths and y by the heights |
| Util.ScaleOneIdentity | histo_lib/util.py:36 | scaling between equal extents returns the coordinate unchanged |
| Util.ScaleBoxIdentity | histo_lib/util.py:36 | when reference and target size are equal the box is returned unchanged |
| Util.ScaleOneMonotone | histo_lib/util.py:36 | scaling towards a non-negative extent is monotone |
| Util.ScaleBoxKeepsOrder | histo_lib/util.py:36 | x_ul ≤ x_br and y_ul ≤ y_br survive scaling |
| Util.ScaleOneBounds | histo_lib/util.py:36 | a coordinate in [0, ref] lands in [0, target] |
| Util.ScaleBoxWithinExtent | histo_lib/util.py:36 | a box inside the reference extent is scaled to a box inside the target extent |
| Util.ScaleOneRoundTripNeverExceeds | histo_lib/util.py:36 | scaling to another extent and back never gives more than the original non-negative coordinate |
| Wsi.Range | histo_lib/wsi.py:29 | `list(range(n))` has n entries and entry i is i |
| Wsi.LevelsMembership | histo_lib/wsi.py:28-29 | a level is in `levels` exactly when 0 ≤ level < level_count |
| Wsi.GetDimensions | histo_lib/wsi.py:31-32 | `level_dimensions[level]` under Python indexing: IndexError outside -n..n-1, negative levels counting from the end, positive extents |
| Wsi.ScaleCoordinatesArray | histo_lib/wsi.py:69-76 | AssertionError unless both sizes have two entries and there are 2 or 4 coordinates; ValueError when the flattened coordinates are not four numbers; otherwise entry i is scaled by size entry i mod 2 |
| Wsi.ScalePairsIsScaleFlat | histo_lib/wsi.py:71-76 | two coordinate pairs scale exactly as their flattening, including the error cases |
| Wsi.ScaleArrayAgreesWithUtil | histo_lib/wsi.py:49-76 | on four coordinates the static method and the module function of util.py fail together and give the same four values |
| Wsi.ThumbnailSize | histo_lib/wsi.py:94-101 | an int s becomes (s, s); a list or tuple of length 2 passes unchanged and any other length raises AssertionError; any other type, a numpy array included, raises TypeError |
| Wsi.Regions | histo_lib/wsi.py:144-147 | the i-th region record carries index i and the area and bbox of the i-th component |
| Wsi.FirstLargest | histo_lib/wsi.py:148 | the chosen position has maximal area and every earlier region is strictly smaller (ties go to the first) |
| Wsi.BiggestRegion | histo_lib/wsi.py:148 | `max` of an empty list raises ValueError; otherwise it is the first region of maximal area |
| Wsi.XYBox | histo_lib/wsi.py:149-152 | the (min_row, min_col, max_row, max_col) bbox is reordered to x = columns and y = rows |
| Wsi.CalculateTissueRegion | histo_lib/wsi.py:126-156 | ValueError exactly when there is no component; otherwise the reordered bbox of the first largest component, scaled from the thumbnail's (w, h) to level 0 |
| Wsi.TissueBoxWithinSlide | histo_lib/wsi.py:149-156 | the tissue box is an ordered box inside the level-0 extent |
| Wsi.ExtractTile | histo_lib/wsi.py:183-201 | AssertionError unless there are four coords and level < level_count; a level below -level_count raises IndexError; the tile keeps the level-0 coords and the requested level |
| Wsi.LevelCoordsAreScaleBox | histo_lib/wsi.py:188-194 | the level coordinates `extract_tile` computes are the box scaled from level 0 to the level |
| Wsi.ExtractTileReads | histo_lib/wsi.py:195-200 | the tile image is the region read at the level-0 upper-left corner, with the box's width and height at the requested level |
| Wsi.ReadSizeAtLevelZero | histo_lib/wsi.py:195-199 | at level 0 the read size is the box's own width and height |
| Wsi.ReadSizeNonNegative | histo_lib/wsi.py:195-199 | an ordered box is read with a non-negative size at every level |
| Tiles.NewTile | histo_lib/tile.py:16-34 | AssertionError unless four coords; `image` and `level` return the arguments and the stored `CoordinatePair` holds the same four values |
| Tiles.Mean | histo_lib/tile.py:82 | the mean of a 0/1 mask is a fraction in [0, 1] |
| Tiles.SumSqDevClosedForm | histo_lib/tile.py:79 | the squared deviations of a 0/1 mask from m sum to k − 2mk + n·m² (k foreground pixels of n) |
| Tiles.VarianceOfBinaryMask | histo_lib/tile.py:79 | `np.var` of a 0/1 mask with foreground fraction p is p(1 − p) |
| Tiles.HasEnoughTissue | histo_lib/tile.py:59-82 | accepted exactly when the tile is not near-white (mean > 0.9 and std < 0.09), the mask is non-empty, p(1 − p) ≥ the variance threshold and p > threshold |
| Tiles.UniformMaskRejected | histo_lib/tile.py:77-80 | all-foreground and all-background masks are rejected for every positive variance threshold |
| Tiles.FractionAtThresholdRejected | histo_lib/tile.py:82 | the comparison is strict: a fraction equal to the threshold is rejected |
| Tiles.DefaultAcceptanceWindow | histo_lib/tile.py:79-82 | with the default thresholds 0.8 and 0.1 an accepted tile has 0.8 < p < 0.9 |
| Tiles.NonDotInIff | histo_lib/tile.py:96 | the `splitext` scan finds a non-'.' character in path[lo..hi] exactly when one exists |
| Tiles.ExtIsSuffix | histo_lib/tile.py:96 | a non-empty extension is a suffix of the path, starts with '.', has no other '.' and no '/' |
| Tiles.SavePathExtension | histo_lib/tile.py:96-99 | a path with an extension is saved as is; one without gets ".png" and then has extension ".png" |
| Tiles.SavePathIdempotent | histo_lib/tile.py:96-99 | for a last component with a non-'.' character, applying the rule twice equals applying it once |
| Tiles.SavePathNotIdempotentOnDotOnlyNames | histo_lib/tile.py:96-99 | "" is saved as ".png" and ".png" as ".png.png": dot-only names never count as having an extension |
| Strings.RFindLast | histo_lib/tile.py:96 | `rfind` returns an index holding the character with none after it, and −1 exactly when it is absent |
| Strings.Basename | preprocessing/tcga/utils.py:26 | `os.path.basename`: a '/'-free suffix of the path, the whole path when it has no '/' |
| Strings.Split | preprocessing/tcga/utils.py:27 | `split` gives at least one field and no field contains the separator |
| Strings.JoinSplit | preprocessing/tcga/utils.py:27 | joining the fields of a split with the separator gives the string back |
| Strings.NatToStringInjective | histo_lib/tiler.py:133 | distinct counters print as distinct decimal strings |
| Strings.NatToStringRoundTrip | histo_lib/tiler.py:133 | reading back the decimal digits of a counter gives the counter |
| Tiler.NormalizeTileSize | histo_lib/tiler.py:32-39 | a sized argument must have two entries (AssertionError) and gives (w, h); an int gives a square; anything else raises TypeError |
| Tiler.UnpackStoredTileSize | histo_lib/tiler.py:76 | unpacking the stored `tile_size` into two values succeeds only for a two-entry sequence |
| Tiler.StoredIntTileSizeCannotBeUnpacked | histo_lib/tiler.py:41 | an int tile size is accepted by `__init__` and then breaks the generator with TypeError |
| Tiler.UnpackNormalizedTileSize | histo_lib/tiler.py:76 | storing the normalised pair, the generator unpacks exactly what `__init__` computed |
| Tiler.ThumbnailAndTileSizeAgree | histo_lib/tiler.py:32-39 | on ints, lists and tuples `__init__` and `get_thumbnail` accept the same sizes and read the same pair; a two-entry numpy array is accepted by `__init__` and rejected by `get_thumbnail` with TypeError |
| Tiler.CheckLevel | histo_lib/tiler.py:43-45 | AssertionError exactly when the level is not in `wsi.levels` |
| Tiler.CheckLevelAsWritten | histo_lib/tiler.py:43-45 | the check as written fails on the same levels, but raises TypeError for a slide with two or more levels |
| Tiler.LevelMessageRaisesTypeError | histo_lib/tiler.py:45 | a two-level slide and level 5: TypeError as written, AssertionError as intended |
| Tiler.SamplingBoxAsWritten | histo_lib/tiler.py:55-59 | as written the sampling box always raises: AttributeError with the tissue check, NameError without |
| Tiler.SamplingBox | histo_lib/tiler.py:55-59 | without the tissue check the box is (0, 0, w0, h0); with it, the tissue region |
| Tiler.SamplingBoxWithinSlide | histo_lib/tiler.py:55-59 | the sampling box is an ordered box inside the level-0 extent |
| Tiler.LevelBoxIsScaling | histo_lib/tiler.py:61-68 | the level-0 special case agrees with scaling, so at every level `box_coords_lvl` is the level-0 box scaled |
| Tiler.CandidateInsideBox | histo_lib/tiler.py:97-108 | a corner drawn from the intended ranges gives a candidate of the tile's size with box.x_ul ≤ x_ul and x_br ≤ box.x_br − 2, and the same for y |
| Tiler.AsWrittenSamplingRejectsWideTile | histo_lib/tiler.py:101-106 | for a 30 × 5 tile in a 100 × 20 box the written y range is empty while the intended one is not, and the written candidate has the wrong height |
| Tiler.TileFilenameStartsWithPrefix | histo_lib/tiler.py:133 | every tile file name starts with the tiler's prefix |
| Tiler.SavePathExtends | histo_lib/tile.py:98-99 | `save` only ever appends to the name it is given |
| Tiler.CounterField | histo_lib/tiler.py:133 | after the prefix and "tile_", the first '_'-field of the saved path is the decimal counter |
| Tiler.SavedPathsDistinct | histo_lib/tiler.py:133-134 | tiles with different counters are saved at different paths, whatever their boxes |
| Tiler.FakeTileSide | histo_lib/tiler.py:78-88 | the level-0 tile side is floor(tile_w · w0 / w_level) by floor(tile_h · h0 / h_level) |
| Tiler.FakeTileSideAtLevelZero | histo_lib/tiler.py:78-88 | at level 0 the level-0 side is the tile size itself |
| Tiler.FakeTileSideNonNegative | histo_lib/tiler.py:78-88 | a non-negative tile size gives a non-negative level-0 side |
| Tiler.RandomTiler.constructor | histo_lib/tiler.py:41-68 | stores the arguments, derives `box_coords_lvl` from the level-0 box and fixes the level-0 tile side |
| Tiler.RandomTiler.New | histo_lib/tiler.py:16-68 | checks in source order: ValueError for a seed outside [0, 2^32), the tile-size errors, AssertionError for an unavailable level, ValueError when the tissue check finds no component; otherwise a valid tiler holding the normalised tile size and the sampling box |
| Tiler.RandomTiler.LevelBoxWithinLevel | histo_lib/tiler.py:61-68 | the level box is the sampling box scaled to the level and stays inside the level's extent |
| Tiler.RandomTiler.TileAtIsExtractTile | histo_lib/tiler.py:110 | for a candidate, `extract_tile` cannot fail and returns the tile read at the candidate |
| Tiler.RandomTiler.YieldedFacts | histo_lib/tiler.py:94-114 | after n iterations at most n tiles are yielded (exactly n without the tissue check); each is the tile read at its box; with in-range draws every box is inside the sampling box with the level-0 tile size |
| Tiler.RandomTiler.YieldedGrows | histo_lib/tiler.py:112-114 | the number of yielded tiles never decreases from one iteration to the next |
| Tiler.RandomTiler.RunBounds | histo_lib/tiler.py:116-120 | a run stops by iteration max_iter + 1 when `max_iter` is truthy, and yields at most `n_tiles` tiles when n_tiles ≥ 1 |
| Tiler.RandomTiler.StopsByLimit | histo_lib/tiler.py:116-120 | the generator has stopped by the cap of a truthy `max_iter`, or by the iteration where enough tiles were accepted |
| Tiler.RandomTiler.RunProperties | histo_lib/tiler.py:94-120 | a complete run yields at most one tile per iteration (exactly one without the tissue check), respects both caps, and every box lies inside the sampling box |
| Tiler.RandomTiler.YieldedStep | histo_lib/tiler.py:95-114 | one iteration appends the extracted tile and its box exactly when it is accepted |
| Tiler.RandomTiler.RandomTiles | histo_lib/tiler.py:70-120 | an empty `randint` range raises ValueError; otherwise the loop terminates after exactly the iterations `RunsFor` determines and yields exactly `Yielded` of them |
| Tiler.RandomTiler.SavedPathsPairwiseDistinct | histo_lib/tiler.py:129-136 | the files for the yielded pairs, numbered in order, have pairwise distinct paths |
| Tiler.RandomTiler.SavedFilesFacts | histo_lib/tiler.py:129-136 | one save per yielded pair, in order: the i-th under the name with counter i and that pair's box, holding that pair's image, and no two at the same path |
| Tiler.RandomTiler.SaveTiles | histo_lib/tiler.py:129-136 | the saving loop makes exactly the saves `SavedFiles` describes |
| Tiler.RandomTiler.Extract | histo_lib/tiler.py:122-137 | ValueError before anything is saved when the ranges are empty; otherwise the tiles of a complete run are saved in order under their numbered names |
| CheckTiles.ToArray | preprocessing/check_tiles.py:68 | `np.array` of an RGB image has shape (height, width, 3), dtype uint8 and values in [0, 255] |
| CheckTiles.TileSize | preprocessing/check_tiles.py:59-66 | an int s gives (s, s); a sequence must have two entries (ValueError); anything else raises TypeError |
| CheckTiles.CheckTileShapeAsWritten | preprocessing/check_tiles.py:68-72 | as written the shape passes exactly when it equals (tile_w, tile_h, 3) |
| CheckTiles.CheckTileShape | preprocessing/check_tiles.py:68-72 | as intended the shape passes exactly when it equals (tile_h, tile_w, 3); any other shape raises ValueError |
| CheckTiles.ShapeChecksAgreeOnSquareTiles | preprocessing/check_tiles.py:68-72 | for square tiles both comparisons agree |
| CheckTiles.ShapeCheckTransposes | preprocessing/check_tiles.py:69 | a 64-wide, 32-tall tile checked against (64, 32) is rejected as written and accepted as intended; its transpose is accepted as written |
| CheckTiles.CheckTileUint8 | preprocessing/check_tiles.py:91-93 | TypeError exactly when the dtype is not uint8 |
| CheckTiles.CheckTileValuesRange | preprocessing/check_tiles.py:112-114 | ValueError exactly when some value lies below 0 or above 255 |
| CheckTiles.RunChecks | preprocessing/check_tiles.py:139-141 | passes exactly when all three checks pass; a failing shape check decides first, then the dtype |
| CheckTiles.ChecksRaiseOnlyCaught | preprocessing/check_tiles.py:139-145 | every exception the checks raise is one `check_tile` catches |
| CheckTiles.CheckTile | preprocessing/check_tiles.py:136-148 | true exactly when the image is readable and all checks pass; a caught exception gives false; an uncaught reader exception propagates |
| CheckTiles.CheckTileIsShapeCheck | preprocessing/check_tiles.py:136-148 | a decoded RGB image never raises past `check_tile`, and is accepted exactly when it is tile_h rows of tile_w pixels |
| Labels.FromPairs | preprocessing/labels.py:24 | a dict comprehension gives a well-formed dict whose keys are exactly the first components |
| Labels.FromPairsLast | preprocessing/labels.py:24 | in a comprehension a key takes the value of its last pair |
| Labels.FromPairsDistinct | preprocessing/labels.py:24 | pairs with distinct keys keep their order as the dict's key order |
| Labels.Items | preprocessing/labels.py:24 | `items()` lists (key, value) pairs in key order |
| Labels.ReverseDict | preprocessing/labels.py:24 | the reversed dict is well formed and its keys are exactly the values of the input |
| Labels.ReverseDictSound | preprocessing/labels.py:24 | every key of the reversed dict maps back to a key that has it as its value |
| Labels.ReverseDictLastKeyWins | preprocessing/labels.py:24 | a value shared by several keys is mapped to the key inserted last |
| Labels.ReverseInjective | preprocessing/labels.py:24 | for an injective dict the reversal lists the values in order, maps each back to its key, and is injective |
| Labels.ReverseTwice | preprocessing/labels.py:24 | reversing an injective dict twice gives it back, order included |
| Labels.Unique | preprocessing/labels.py:44 | `unique()` has no repeats and the same members as the column |
| Labels.UniqueFirstAppearanceOrder | preprocessing/labels.py:44 | distinct labels come in the order of their first appearance in the column |
| Labels.AutoDictionaryCodes | preprocessing/labels.py:42-45 | the automatic dictionary numbers the distinct labels 0, 1, … in order of first appearance and is injective |
| Labels.AutoDictionaryCovers | preprocessing/labels.py:42-48 | every label of the column has a code in the automatic dictionary |
| Labels.EncodeLabel | preprocessing/labels.py:27-52 | ValueError exactly for a missing column or a truthy dictionary whose keys are a strict subset of the labels; KeyError only for a label missing from a supplied dictionary; otherwise codes[i] is the dictionary's code of the i-th label and the reversed dictionary is returned |
| Labels.SuppliedDictionaryCovering | preprocessing/labels.py:32-48 | a truthy supplied dictionary covering every label always encodes the column |
| Labels.AutoEncodingRoundTrip | preprocessing/labels.py:42-52 | without a dictionary the encoding succeeds, each code is the label's first-appearance rank in 0..k−1, and the reversed dictionary decodes it back to the label |
| Labels.SuppliedInjectiveRoundTrip | preprocessing/labels.py:46-52 | with an injective supplied dictionary the reversed dictionary decodes every code back to its label |
| Tcga.LeadingFields | preprocessing/tcga/utils.py:26-27 | the first k '-'-fields of the basename, rejoined, are a '/'-free prefix of the basename with at most k − 1 dashes, and the whole basename when it has at most k fields |
| Tcga.WsiFilenameToPatient | preprocessing/tcga/utils.py:26-27 | the patient is a prefix of the basename with at most two '-', and the whole basename when it has three fields or fewer |
| Tcga.WsiFilenameToWsiId | preprocessing/tcga/utils.py:50-51 | the slide id is a prefix of the basename with at most three '-', and the whole basename when it has four fields or fewer |
| Tcga.BarcodeFields | preprocessing/tcga/utils.py:26-51 | for a file named after a barcode of at least four fields, in any directory, the patient is the first three fields and the slide id the first four |
| Tcga.PatientPrefixOfWsiId | preprocessing/tcga/utils.py:26-51 | the patient is a prefix of the slide id of the same file |
| Tcga.DirectoryIgnored | preprocessing/tcga/utils.py:26-50 | the directory part of the path never changes the patient or the slide id |
| Tcga.TileFilenameToWsiFilename | preprocessing/tcga/utils.py:68 | the text before the first '_': a '_'-free prefix of the name, followed by '_' when there is one, and the whole name otherwise |
| Tcga.TileFilenameOfWsi | preprocessing/tcga/utils.py:68 | a '_'-free name followed by '_' and anything is recovered |
| Tcga.TracedThroughPrefix | preprocessing/tcga/utils.py:68 | any name beginning with a '_'-free run and '_' is traced back to that run |
| Tcga.SavedTileTracesToSlide | preprocessing/tcga/utils.py:54-68 | a tile saved by the tiler with prefix "<slide>_" is traced back to the slide name |

## Left out

- Util.ScaleCoordinates: requires positive reference extents. numpy divides by zero in floating point and casts the resulting inf or NaN to an arbitrary integer, and that case is not modelled. The same holds for Wsi.ScaleCoordinatesArray.
- Util.ScaleOne: the source divides in float64 and takes `np.floor`. The model uses exact integer floor division, which differs only when products exceed 2^53. The `int64` cast of the result is not modelled either.
- Tiles.HasEnoughTissue: the thresholds and statistics are exact reals rather than float64. The gray conversion, Otsu threshold, disk dilation and hole filling are foreign numerics; their outputs (gray mean, gray standard deviation, filled mask) are inputs.
- Wsi.CalculateTissueRegion: the thumbnail, its morphology and `regionprops` are inputs: the thumbnail's positive width and height and the component list. The `return_thumbnail` crop of image data is not modelled.
- Wsi.ExtractTile: `read_region` is a function parameter, so whatever openslide does with a negative level or an out-of-slide region is not modelled.
- Tiler.RandomTiler.RandomTiles: with a falsy `max_iter` the source loop has no cap and may run forever. The method takes a ghost `bound`, an iteration count by which `n_tiles` tiles are accepted, and requires it, which makes termination provable.
- Tiler.RandomTiler.RandomTiles: the loop runs to completion before `SaveTiles` saves. The source's generator is lazy and saves each tile before the next draw. The saves and their order are the same; an exception raised by `save` part-way is not modelled.
- Tiler.RandomTiler.New: `max_iter` is an integer here, whereas its default is the float `1e4`; an integer equal to it behaves the same in every comparison the loop makes. The seed is only range-checked; the global generator it seeds is the draw oracle.
- Tiler.RandomTiler.constructor: the level-0 tile side is computed once, at construction. The generator computes it at its start from the same constant fields.
- Labels.EncodeLabel: only the encoded column of the copied dataframe is returned; the copy's other columns are not modelled. Labels are strings, so the `", ".join` in the error message cannot raise. Dictionary codes are integers.
- Labels: the model requires a supplied dictionary to be well formed (keys distinct and matching the mapping), which every Python dict is. Unhashable values (TypeError in `reverse_dict`) cannot occur.
- CheckTiles.CheckTile: opening and decoding the file with PIL is I/O. Its outcome is a parameter: the RGB image or the exception the reader raised. The tile size is the value gin binds to `check_tile_shape`.
- `Tile.save`'s directory creation and image write, `WSI.__init__` (the file-existence assertion and `open_slide`), `WSI.info` and every `print` are I/O and are not modelled.
- `Tile`'s colour processing (`maxmin_norm`, `invert_grays`, `is_grayscale`, `balance_white`, `detect_colors`, `find_color_base`, `_colorize_image`, `separate_colors`) is floating-point numerics over sklearn and scipy, and is not modelled.
- The abstract `Tiler` base class and the empty `GridTiler` have no behaviour to model.
- `read_clinical_file` and `save_csv` are pandas file I/O and are not modelled.

## Findings

| source | as written | input that shows it | evidently intended | confidence | as-written member | corrected member |
|---|---|---|---|---|---|---|
| histo_lib/tiler.py:55-59 | with `check_tissue` the box is read from `wsi.tissue_box_coords_wsi`, which `WSI` does not define; without it, `Coordinates` is called, which the module never imports | any slide, either value of `check_tissue` | the tissue box from `calculate_tissue_region`, or the whole level-0 extent `(0, 0, w0, h0)` | high, not executed | Tiler.SamplingBoxAsWritten | Tiler.SamplingBox |
| histo_lib/tiler.py:41 | `__init__` validates `tile_size` but stores the raw argument, and the generator unpacks it into two values at line 76 | `tile_size = 256` | store the normalised `(tile_w, tile_h)` | high, not executed | Tiler.StoredIntTileSizeCannotBeUnpacked | Tiler.UnpackNormalizedTileSize |
| histo_lib/tiler.py:101-106 | the y range and `y_br` use `tile_w_wsi` | sampling box (0, 0, 100, 20), level-0 tile 30 × 5 | use `tile_h_wsi` for y | high, not executed | Tiler.AsWrittenSamplingRejectsWideTile | Tiler.CandidateInsideBox |
| histo_lib/tiler.py:43-45 | the assertion message joins `levels[:-1]`, a list of ints, with `', '.join` | a two-level slide and level 5 | AssertionError naming the available levels | high, not executed | Tiler.LevelMessageRaisesTypeError | Tiler.CheckLevel |
| preprocessing/check_tiles.py:68-72 | the image array's shape, which is (height, width, 3), is compared with `(tile_w, tile_h, 3)` | a 64-wide, 32-tall RGB tile with `tile_size = (64, 32)` | compare with `(tile_h, tile_w, 3)` | high, not executed | CheckTiles.ShapeCheckTransposes | CheckTiles.CheckTileShape |
