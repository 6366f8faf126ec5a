/** GenerateTileId: names a tile by a name-based UUID of its dataset, granule file name,
    variable name and section spec. */
module GenerateTileId {
  import opened Tiles

  /** `os.path.basename` on POSIX paths: everything after the last '/'. */
  function Basename(path: string): string
  {
    if path == [] || path[|path| - 1] == '/' then []
    else Basename(path[..|path| - 1]) + [path[|path| - 1]]
  }

  /** The base name is the last component of the path: a suffix holding no '/', and
      what precedes it, if anything, ends in '/'. */
  lemma {:induction false} BasenameIsLastComponent(path: string)
    ensures var r := Basename(path);
      '/' !in r && |r| <= |path| && r == path[|path| - |r|..] &&
      (|r| < |path| ==> path[|path| - |r| - 1] == '/')
  {
    if path == [] || path[|path| - 1] == '/' {
    } else {
      var q := path[..|path| - 1];
      BasenameIsLastComponent(q);
      var r := Basename(path);
      assert r == Basename(q) + [path[|path| - 1]];
      assert path == q + [path[|path| - 1]];
    }
  }

  /** The name the UUID is derived from. */
  function IdName(s: SummaryValue): string
  {
    s.datasetName + Basename(s.granule) + s.dataVarName + s.sectionSpec
  }

  /** The summary after the processor: only the tile id is replaced. `uuid3` stands for
      `str(uuid.uuid3(uuid.NAMESPACE_DNS, ·))`. */
  function WithTileId(s: SummaryValue, uuid3: string -> string): (r: SummaryValue)
    ensures r.tileId == uuid3(IdName(s))
    ensures r.(tileId := s.tileId) == s
  {
    s.(tileId := uuid3(IdName(s)))
  }

  /** `GenerateTileId.process`: writes the tile id through the tile's summary, which
      makes the summary present. Nothing else changes. */
  method Process(tile: NexusTile, uuid3: string -> string)
    modifies tile, tile.summary
    ensures tile.summary == old(tile.summary)
    ensures tile.summary.Value() == WithTileId(old(tile.summary.Value()), uuid3)
    ensures tile.hasSummary && tile.tile == old(tile.tile) && tile.Valid()
  {
    var id := uuid3(IdName(tile.summary.Value()));
    tile.summary.SetTileId(id);
    tile.hasSummary := true;
  }

  /** The directory part of a granule path is ignored: a file name under any directory
      has itself as base name. */
  lemma {:induction false} BasenameIgnoresDirectory(dir: string, name: string)
    requires '/' !in name
    ensures Basename(dir + "/" + name) == name
    decreases |name|
  {
    if name == [] {
    } else {
      var p := dir + "/" + name;
      var q := name[..|name| - 1];
      assert p[..|p| - 1] == dir + "/" + q;
      BasenameIgnoresDirectory(dir, q);
    }
  }

  /** Two tiles whose summaries differ only in the directory of the granule, and in
      anything the processor does not read, get the same id. */
  lemma SameFileSameId(s: SummaryValue, t: SummaryValue, dirS: string, dirT: string, name: string, uuid3: string -> string)
    requires '/' !in name
    requires s.granule == dirS + "/" + name && t.granule == dirT + "/" + name
    requires s.datasetName == t.datasetName && s.dataVarName == t.dataVarName && s.sectionSpec == t.sectionSpec
    ensures WithTileId(s, uuid3).tileId == WithTileId(t, uuid3).tileId
    ensures IdName(s) == s.datasetName + name + s.dataVarName + s.sectionSpec
  {
    BasenameIgnoresDirectory(dirS, name);
    BasenameIgnoresDirectory(dirT, name);
  }

  /** Running the processor again writes the id it wrote before, since none of its
      inputs is the id itself. */
  lemma Idempotent(s: SummaryValue, uuid3: string -> string)
    ensures WithTileId(WithTileId(s, uuid3), uuid3) == WithTileId(s, uuid3)
  {
  }
}
