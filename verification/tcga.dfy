/**
 * TCGA file-name helpers (preprocessing/tcga/utils.py, duplicated in
 * preprocessing/tcga_utils.py). A TCGA slide file is named after its
 * barcode, '-'-separated fields such as "TCGA-A7-A0CE-01Z-00-DX1...": the
 * first three name the patient and the first four the slide. A tile file is
 * named after its slide, followed by '_' and the tile's own fields.
 */
module Tcga {
  import Strings
  import opened Util
  import opened Tiles
  import opened Tiler

  /** The first `k` '-'-fields of the base name of `path`, joined back with '-'. */
  function LeadingFields(path: string, k: nat): (r: string)
    requires k >= 1
    ensures r <= Strings.Basename(path)
    ensures '/' !in r
    ensures Strings.Count(r, '-') <= k - 1
    ensures |Strings.Split(Strings.Basename(path), '-')| <= k ==> r == Strings.Basename(path)
  {
    var name := Strings.Basename(path);
    var parts := Strings.Split(name, '-');
    var kept := Strings.Take(parts, k);
    Strings.JoinSplit(name, '-');
    LeadingFieldsFacts(name, parts, kept, k);
    Strings.Join('-', kept)
  }

  lemma LeadingFieldsFacts(name: string, parts: seq<string>, kept: seq<string>, k: nat)
    requires k >= 1 && parts == Strings.Split(name, '-') && kept == Strings.Take(parts, k)
    requires Strings.Join('-', parts) == name && '/' !in name
    ensures Strings.Join('-', kept) <= name
    ensures '/' !in Strings.Join('-', kept)
    ensures Strings.Count(Strings.Join('-', kept), '-') <= k - 1
  {
    if k < |parts| {
      Strings.JoinTakeIsPrefix('-', parts, k);
    }
    var r := Strings.Join('-', kept);
    assert forall j :: 0 <= j < |r| ==> r[j] == name[j];
    Strings.JoinCount('-', kept);
  }

  /** `wsi_filename_to_patient`: the patient barcode, at most three fields of the base name. */
  function WsiFilenameToPatient(path: string): (r: string)
    ensures r <= Strings.Basename(path) && '/' !in r
    ensures Strings.Count(r, '-') <= 2
    ensures |Strings.Split(Strings.Basename(path), '-')| <= 3 ==> r == Strings.Basename(path)
  {
    LeadingFields(path, 3)
  }

  /** `wsi_filename_to_wsi_id`: the slide id, at most four fields of the base name. */
  function WsiFilenameToWsiId(path: string): (r: string)
    ensures r <= Strings.Basename(path) && '/' !in r
    ensures Strings.Count(r, '-') <= 3
    ensures |Strings.Split(Strings.Basename(path), '-')| <= 4 ==> r == Strings.Basename(path)
  {
    LeadingFields(path, 4)
  }

  /**
   * For a file named after a barcode of at least four fields, in any
   * directory, the patient is the first three fields and the slide id the
   * first four.
   */
  lemma BarcodeFields(dir: string, fields: seq<string>)
    requires |fields| >= 4
    requires forall i :: 0 <= i < |fields| ==> '-' !in fields[i] && '/' !in fields[i]
    ensures WsiFilenameToPatient(dir + "/" + Strings.Join('-', fields)) == Strings.Join('-', fields[..3])
    ensures WsiFilenameToWsiId(dir + "/" + Strings.Join('-', fields)) == Strings.Join('-', fields[..4])
  {
    var name := Strings.Join('-', fields);
    var path := dir + "/" + name;
    NoSlashInJoin(fields);
    Strings.BasenameAfterSeparator(dir, name);
    Strings.SplitJoin('-', fields);
    assert Strings.Split(Strings.Basename(path), '-') == fields;
    assert Strings.Take(fields, 3) == fields[..3];
    assert Strings.Take(fields, 4) == fields[..4];
  }

  lemma {:induction false} NoSlashInJoin(fields: seq<string>)
    requires forall i :: 0 <= i < |fields| ==> '-' !in fields[i] && '/' !in fields[i]
    ensures '/' !in Strings.Join('-', fields)
    decreases |fields|
  {
    if |fields| > 1 {
      NoSlashInJoin(fields[1..]);
    }
  }

  /** The patient barcode is a prefix of the slide id of the same file. */
  lemma PatientPrefixOfWsiId(path: string)
    ensures WsiFilenameToPatient(path) <= WsiFilenameToWsiId(path)
  {
    var parts := Strings.Split(Strings.Basename(path), '-');
    if |parts| > 3 {
      var four := Strings.Take(parts, 4);
      Strings.JoinTakeIsPrefix('-', four, 3);
      assert four[..3] == Strings.Take(parts, 3);
    }
  }

  /** The directory part of the path never matters. */
  lemma DirectoryIgnored(dir: string, name: string)
    requires '/' !in name
    ensures WsiFilenameToPatient(dir + "/" + name) == WsiFilenameToPatient(name)
    ensures WsiFilenameToWsiId(dir + "/" + name) == WsiFilenameToWsiId(name)
  {
    Strings.BasenameAfterSeparator(dir, name);
  }

  /** `tile_filename_to_wsi_filename`: the text before the first '_'. */
  function TileFilenameToWsiFilename(tileFilename: string): (r: string)
    ensures r <= tileFilename && '_' !in r
    ensures '_' in tileFilename ==> |r| < |tileFilename| && tileFilename[|r|] == '_'
    ensures '_' !in tileFilename ==> r == tileFilename
  {
    var parts := Strings.Split(tileFilename, '_');
    Strings.JoinSplit(tileFilename, '_');
    if |parts| == 1 then
      parts[0]
    else
      assert Strings.Join('_', parts) == parts[0] + "_" + Strings.Join('_', parts[1..]);
      parts[0]
  }

  /** A name without '_' followed by '_' and anything is recovered. */
  lemma TileFilenameOfWsi(wsi: string, rest: string)
    requires '_' !in wsi
    ensures TileFilenameToWsiFilename(wsi + "_" + rest) == wsi
  {
    Strings.SplitCons(wsi, '_', rest);
  }

  /** A name that starts with a run without '_' and then '_' is traced back to that run. */
  lemma TracedThroughPrefix(wsi: string, t: string)
    requires '_' !in wsi && wsi + "_" <= t
    ensures TileFilenameToWsiFilename(t) == wsi
  {
    assert t == wsi + "_" + t[|wsi| + 1..];
    TileFilenameOfWsi(wsi, t[|wsi| + 1..]);
  }

  /**
   * A tile that the random tiler saves with prefix `wsi + "_"` (the slide's
   * name without extension and '_') is traced back to that slide name.
   */
  lemma SavedTileTracesToSlide(wsi: string, counter: nat, level: int, c: CoordinatePair, suffix: string)
    requires '_' !in wsi
    ensures TileFilenameToWsiFilename(SavePath(TileFilename(wsi + "_", counter, level, c, suffix))) == wsi
  {
    var f := TileFilename(wsi + "_", counter, level, c, suffix);
    TileFilenameStartsWithPrefix(wsi + "_", counter, level, c, suffix);
    SavePathExtends(f);
    var e :| SavePath(f) == f + e;
    assert wsi + "_" <= f + e;
    TracedThroughPrefix(wsi, f + e);
  }
}
