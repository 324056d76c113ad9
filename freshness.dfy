/**
 * When a temporary copy of a source is (re)written (Assets.php:582-609,
 * 683-721): a temporary file is regenerated when file rendering is on and the
 * source is newer than it, where a missing source counts as modified at time 1
 * and a missing temporary file as modified at time 0.
 */
module Freshness {
  import opened Wrappers
  import opened Strings
  import opened Platform
  import opened Disk
  import opened Naming

  /** The modification time of a source; a missing source counts as 1. */
  function SourceMTime(fs: FileSystem, path: string): (r: nat)
    ensures path !in fs ==> r == 1
    ensures path in fs ==> r == fs[path].mtime
  {
    if path in fs then fs[path].mtime else 1
  }

  /** The temporary copy is older than its source, under the counting rule above. */
  predicate Stale(fs: FileSystem, src: string, tmp: string)
  {
    SourceMTime(fs, src) > MTimeOrZero(fs, tmp)
  }

  /** The full path of the rendered copy of a source (`r` prefix). */
  function RenderTmpFullPath(cfg: Config, h: Hashes, fullPath: string, path: string): string
  {
    TmpDir(cfg) + TmpFileName(h, cfg.systemConfigHash, fullPath, path, "r")
  }

  /** The full path of the moved copy of a source (`m` prefix). */
  function MoveTmpFullPath(cfg: Config, h: Hashes, srcFullPath: string, path: string): string
  {
    TmpDir(cfg) + TmpFileName(h, cfg.systemConfigHash, srcFullPath, path, "m")
  }

  /**
   * `render2TmpGetPath`: writes `content` (what `render2TmpGetPathExec`
   * produces, or the error it raises) to the rendered copy when rendering is on
   * and the copy is stale, at time `now`; returns the copy's path with the
   * document root cut off.
   */
  function Render2TmpGetPath(cfg: Config, h: Hashes, fs: FileSystem, now: nat, fullPath: string, path: string,
                             content: Result<string>): (r: Result<(string, FileSystem)>)
    ensures var tmp := RenderTmpFullPath(cfg, h, fullPath, path);
      var regenerate := cfg.flags.fileRendering && Stale(fs, fullPath, tmp);
      && (r.Err? <==> regenerate && content.Err?)
      && (r.Ok? ==> r.value.0 == Drop(tmp, |cfg.docRoot|))
      && (r.Ok? && regenerate ==> r.value.1 == fs[tmp := File(now, content.value)])
      && (r.Ok? && !regenerate ==> r.value.1 == fs)
  {
    var tmpFileFullPath := RenderTmpFullPath(cfg, h, fullPath, path);
    var tmpPath := Drop(tmpFileFullPath, |cfg.docRoot|);
    if cfg.flags.fileRendering && SourceMTime(fs, fullPath) > MTimeOrZero(fs, tmpFileFullPath) then
      match content
      case Err(e) => Err(e)
      case Ok(c) => Ok((tmpPath, fs[tmpFileFullPath := File(now, c)]))
    else
      Ok((tmpPath, fs))
  }

  /**
   * A copy rendered at a time no earlier than its source's modification time
   * is fresh: rendering the same source again writes nothing.
   */
  lemma RenderedCopyIsFresh(cfg: Config, h: Hashes, fs: FileSystem, now: nat, later: nat, fullPath: string, path: string,
                            content: Result<string>, content2: Result<string>)
    requires now >= SourceMTime(fs, fullPath)
    requires RenderTmpFullPath(cfg, h, fullPath, path) != fullPath
    requires Render2TmpGetPath(cfg, h, fs, now, fullPath, path, content).Ok?
    ensures var fs1 := Render2TmpGetPath(cfg, h, fs, now, fullPath, path, content).value.1;
      Render2TmpGetPath(cfg, h, fs1, later, fullPath, path, content2) == Ok((Drop(RenderTmpFullPath(cfg, h, fullPath, path), |cfg.docRoot|), fs1))
  {
    var tmp := RenderTmpFullPath(cfg, h, fullPath, path);
    var fs1 := Render2TmpGetPath(cfg, h, fs, now, fullPath, path, content).value.1;
    assert SourceMTime(fs1, fullPath) == SourceMTime(fs, fullPath);
    if cfg.flags.fileRendering && Stale(fs, fullPath, tmp) {
      assert MTimeOrZero(fs1, tmp) == now;
    } else {
      assert fs1 == fs;
    }
  }

  /** Touching a source past its rendered copy makes the next render regenerate the copy. */
  lemma TouchedSourceRegenerates(cfg: Config, h: Hashes, fs: FileSystem, now: nat, fullPath: string, path: string,
                                 content: Result<string>, touched: nat)
    requires cfg.flags.fileRendering && content.Ok?
    requires RenderTmpFullPath(cfg, h, fullPath, path) in fs
    requires touched > fs[RenderTmpFullPath(cfg, h, fullPath, path)].mtime
    requires RenderTmpFullPath(cfg, h, fullPath, path) != fullPath
    ensures var source := File(touched, ReadContent(fs, fullPath));
      var fs1 := fs[fullPath := source];
      var tmp := RenderTmpFullPath(cfg, h, fullPath, path);
      Render2TmpGetPath(cfg, h, fs1, now, fullPath, path, content) == Ok((Drop(tmp, |cfg.docRoot|), fs1[tmp := File(now, content.value)]))
  {
  }

  /**
   * With the temporary directory under the document root (a `~/` option), the
   * returned path is the temporary full path with the document root removed.
   */
  lemma RenderedPathUnderDocRoot(cfg: Config, h: Hashes, fs: FileSystem, now: nat, fullPath: string, path: string,
                                 content: Result<string>)
    requires "~/" <= cfg.tmpDirOption
    requires Render2TmpGetPath(cfg, h, fs, now, fullPath, path, content).Ok?
    ensures cfg.docRoot + Render2TmpGetPath(cfg, h, fs, now, fullPath, path, content).value.0
         == RenderTmpFullPath(cfg, h, fullPath, path)
  {
    var tmp := RenderTmpFullPath(cfg, h, fullPath, path);
    assert tmp[..|cfg.docRoot|] == cfg.docRoot;
  }

  /**
   * The file-system half of `move2TmpGetPath` for a copy at `tmp`: when
   * rendering is on and the copy is stale, an existing copy is unlinked
   * (`unlinkOk` says whether the system allowed it; a refusal raises in
   * development mode) and the source is copied (`copyOk` likewise; copying a
   * missing source fails too). Returns whether a copy was made and the new files.
   */
  function MoveFile(cfg: Config, fs: FileSystem, now: nat, path: string, srcFullPath: string, tmp: string,
                    typeName: string, unlinkOk: bool, copyOk: bool): (r: Result<(bool, FileSystem)>)
    ensures r.Err? ==> cfg.devMode && cfg.flags.fileRendering && Stale(fs, srcFullPath, tmp)
    ensures r.Ok? && r.value.0 ==> cfg.flags.fileRendering && Stale(fs, srcFullPath, tmp) && srcFullPath in fs
                                   && r.value.1 == fs[tmp := File(now, fs[srcFullPath].content)]
    ensures !cfg.flags.fileRendering || !Stale(fs, srcFullPath, tmp) ==> r == Ok((false, fs))
    ensures cfg.flags.fileRendering && Stale(fs, srcFullPath, tmp) && tmp in fs && !unlinkOk ==> (r.Err? <==> cfg.devMode)
  {
    var tmpFileExists := tmp in fs;
    if cfg.flags.fileRendering && SourceMTime(fs, srcFullPath) > MTimeOrZero(fs, tmp) then
      if tmpFileExists && !unlinkOk && cfg.devMode then
        Err("Not possible to remove previous tmp file to move " + typeName + ": `" + path + "`.")
      else
        var unlinked := if tmpFileExists && unlinkOk then fs - {tmp} else fs;
        var copied := copyOk && srcFullPath in unlinked;
        if !copied && cfg.devMode then
          Err("Not possible to copy " + typeName + ": `" + path + "` into tmp file.")
        else if copied then
          assert srcFullPath != tmp;
          var copy := File(now, unlinked[srcFullPath].content);
          assert unlinked[tmp := copy] == fs[tmp := copy];
          Ok((true, unlinked[tmp := copy]))
        else
          Ok((false, unlinked))
    else
      Ok((false, fs))
  }

  /**
   * `move2TmpGetPath`: moves a source into its `m`-prefixed temporary copy as
   * `MoveFile` describes and returns whether a copy was made, the copy's path
   * with the document root cut off, and the new files.
   */
  function Move2TmpGetPath(cfg: Config, h: Hashes, fs: FileSystem, now: nat, path: string, srcFullPath: string,
                           typeName: string, unlinkOk: bool, copyOk: bool): (r: Result<(bool, string, FileSystem)>)
    ensures var tmp := MoveTmpFullPath(cfg, h, srcFullPath, path);
      var moved := MoveFile(cfg, fs, now, path, srcFullPath, tmp, typeName, unlinkOk, copyOk);
      && (r.Err? <==> moved.Err?)
      && (r.Ok? ==> r.value == (moved.value.0, Drop(tmp, |cfg.docRoot|), moved.value.1))
  {
    var tmpFileFullPath := MoveTmpFullPath(cfg, h, srcFullPath, path);
    var tmpPath := Drop(tmpFileFullPath, |cfg.docRoot|);
    match MoveFile(cfg, fs, now, path, srcFullPath, tmpFileFullPath, typeName, unlinkOk, copyOk)
    case Err(e) => Err(e)
    case Ok((copied, fs1)) => Ok((copied, tmpPath, fs1))
  }

  /** A copy made at a time no earlier than its source's modification time is not copied again. */
  lemma MovedCopyIsFresh(cfg: Config, h: Hashes, fs: FileSystem, now: nat, later: nat, path: string, srcFullPath: string,
                         typeName: string, unlinkOk: bool, copyOk: bool, unlinkOk2: bool, copyOk2: bool)
    requires now >= SourceMTime(fs, srcFullPath)
    requires Move2TmpGetPath(cfg, h, fs, now, path, srcFullPath, typeName, unlinkOk, copyOk).Ok?
    requires Move2TmpGetPath(cfg, h, fs, now, path, srcFullPath, typeName, unlinkOk, copyOk).value.0
    ensures var fs1 := Move2TmpGetPath(cfg, h, fs, now, path, srcFullPath, typeName, unlinkOk, copyOk).value.2;
      Move2TmpGetPath(cfg, h, fs1, later, path, srcFullPath, typeName, unlinkOk2, copyOk2)
        == Ok((false, Drop(MoveTmpFullPath(cfg, h, srcFullPath, path), |cfg.docRoot|), fs1))
  {
    var tmp := MoveTmpFullPath(cfg, h, srcFullPath, path);
    var fs1 := Move2TmpGetPath(cfg, h, fs, now, path, srcFullPath, typeName, unlinkOk, copyOk).value.2;
    var moved := MoveFile(cfg, fs, now, path, srcFullPath, tmp, typeName, unlinkOk, copyOk);
    assert tmp != srcFullPath;
    assert fs1 == moved.value.1;
    assert SourceMTime(fs1, srcFullPath) == SourceMTime(fs, srcFullPath);
    assert MTimeOrZero(fs1, tmp) == now;
  }
}
