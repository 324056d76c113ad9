/**
 * The vendor branch of `completeItem` (CssHelper.php:461-464,
 * JsHelper.php:436-439): a vendor asset is moved out of the vendor document
 * root into its temporary copy by `move2TmpGetPath` before its record is
 * built. As written, `$path` receives the whole pair `[$copied, $tmpPath]`
 * that `move2TmpGetPath` returns (Assets.php:717-720), so the record's path is
 * that array and its full path is the document root followed by `Array`, the
 * string PHP makes of an array. The intended record uses the pair's second
 * element.
 */
module Vendor {
  import opened Wrappers
  import opened Platform
  import opened Disk
  import opened Naming
  import opened Freshness
  import opened Items

  /** What a PHP array becomes in a string concatenation. */
  const ArrayString: string := "Array"

  /** The two path fields of a record whose path may be any PHP value. */
  datatype RecordPaths = RecordPaths(fullPath: string, path: Value)

  /** `self::$vendorDocRoot . $path`: where a vendor asset's source lives. */
  function VendorSource(cfg: Config, path: string): string
  {
    cfg.vendorDocRoot + path
  }

  /** The moved copy of a vendor asset. */
  function VendorCopy(cfg: Config, h: Hashes, path: string): string
  {
    MoveTmpFullPath(cfg, h, VendorSource(cfg, path), path)
  }

  /**
   * The vendor branch as written: after the move, the record's path is the
   * returned pair and its full path is the document root followed by
   * `Array`. The error of a failed move is passed on.
   */
  function CompleteVendorAsWritten(cfg: Config, h: Hashes, fs: FileSystem, now: nat, path: string,
                                   typeName: string, unlinkOk: bool, copyOk: bool): (r: Result<(RecordPaths, FileSystem)>)
    ensures var moved := Move2TmpGetPath(cfg, h, fs, now, path, VendorSource(cfg, path), typeName, unlinkOk, copyOk);
      && (r.Err? <==> moved.Err?)
      && (r.Ok? ==> r.value.1 == moved.value.2)
    ensures r.Ok? ==> !r.value.0.path.VStr?
    ensures r.Ok? && "~/" <= cfg.tmpDirOption ==> r.value.0.fullPath != VendorCopy(cfg, h, path)
  {
    match Move2TmpGetPath(cfg, h, fs, now, path, VendorSource(cfg, path), typeName, unlinkOk, copyOk)
    case Err(e) => Err(e)
    case Ok((copied, tmpPath, fs1)) =>
      var record := RecordPaths(cfg.docRoot + ArrayString, VList([VBool(copied), VStr(tmpPath)]));
      if "~/" <= cfg.tmpDirOption then
        CopyIsNotArray(cfg, h, path, record.fullPath);
        Ok((record, fs1))
      else
        Ok((record, fs1))
  }

  /**
   * Under a `~/` temporary directory the copy is the document root followed
   * by a path holding `/`, so it is never the document root followed by
   * `Array`.
   */
  lemma CopyIsNotArray(cfg: Config, h: Hashes, path: string, fullPath: string)
    requires "~/" <= cfg.tmpDirOption
    requires fullPath == cfg.docRoot + ArrayString
    ensures fullPath != VendorCopy(cfg, h, path)
  {
    var name := TmpFileName(h, cfg.systemConfigHash, VendorSource(cfg, path), path, "m");
    var rest := cfg.tmpDirOption[1..] + name;
    assert VendorCopy(cfg, h, path) == cfg.docRoot + rest;
    assert rest[|rest| - |name|] == '/';
    assert '/' !in ArrayString;
    assert (cfg.docRoot + ArrayString)[|cfg.docRoot|..] == ArrayString;
    assert (cfg.docRoot + rest)[|cfg.docRoot|..] == rest;
  }

  /** The record `completeItem` evidently intends for a moved vendor asset. */
  function VendorItem(cfg: Config, tmpPath: string, notMin: bool, kind: Kind): Item
  {
    Item(cfg.docRoot + tmpPath, tmpPath, notMin, true, kind)
  }

  /**
   * The vendor branch as intended: the record takes the moved copy's path.
   * Under a `~/` temporary directory its full path is the copy itself.
   */
  function CompleteVendor(cfg: Config, h: Hashes, fs: FileSystem, now: nat, path: string, notMin: bool, kind: Kind,
                          typeName: string, unlinkOk: bool, copyOk: bool): (r: Result<(Item, FileSystem)>)
    ensures var moved := Move2TmpGetPath(cfg, h, fs, now, path, VendorSource(cfg, path), typeName, unlinkOk, copyOk);
      && (r.Err? <==> moved.Err?)
      && (r.Ok? ==> r.value.1 == moved.value.2 && r.value.0.path == moved.value.1)
    ensures r.Ok? ==> r.value.0.vendor && r.value.0.notMin == notMin && r.value.0.kind == kind
    ensures r.Ok? && "~/" <= cfg.tmpDirOption ==> r.value.0.fullPath == VendorCopy(cfg, h, path)
  {
    match Move2TmpGetPath(cfg, h, fs, now, path, VendorSource(cfg, path), typeName, unlinkOk, copyOk)
    case Err(e) => Err(e)
    case Ok((copied, tmpPath, fs1)) =>
      var copy := VendorCopy(cfg, h, path);
      assert "~/" <= cfg.tmpDirOption ==> copy[..|cfg.docRoot|] == cfg.docRoot;
      Ok((VendorItem(cfg, tmpPath, notMin, kind), fs1))
  }

  /**
   * When the move made a copy, the intended record's full path names a file
   * holding the vendor source's content.
   */
  lemma VendorItemReadsCopy(cfg: Config, h: Hashes, fs: FileSystem, now: nat, path: string, notMin: bool, kind: Kind,
                            typeName: string, unlinkOk: bool, copyOk: bool)
    requires "~/" <= cfg.tmpDirOption
    requires Move2TmpGetPath(cfg, h, fs, now, path, VendorSource(cfg, path), typeName, unlinkOk, copyOk).Ok?
    requires Move2TmpGetPath(cfg, h, fs, now, path, VendorSource(cfg, path), typeName, unlinkOk, copyOk).value.0
    ensures VendorSource(cfg, path) in fs
    ensures var r := CompleteVendor(cfg, h, fs, now, path, notMin, kind, typeName, unlinkOk, copyOk);
      && r.Ok?
      && r.value.0.fullPath in r.value.1
      && r.value.1[r.value.0.fullPath].content == fs[VendorSource(cfg, path)].content
  {
    var src := VendorSource(cfg, path);
    var moved := MoveFile(cfg, fs, now, path, src, VendorCopy(cfg, h, path), typeName, unlinkOk, copyOk);
    assert moved.Ok? && moved.value.0;
  }
}
