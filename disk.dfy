/**
 * The file system as the helpers see it: a map from full paths to files with a
 * modification time and a content. `file_exists`, `filemtime`,
 * `file_get_contents` and `md5_file` become reads of this map; writes return a
 * new map.
 */
module Disk {
  import opened Strings
  import opened Platform

  datatype File = File(mtime: nat, content: string)

  type FileSystem = map<string, File>

  /** `file_get_contents($path)`, where a missing file's `FALSE` reads as the empty string. */
  function ReadContent(fs: FileSystem, path: string): (r: string)
    ensures path in fs ==> r == fs[path].content
    ensures path !in fs ==> r == ""
  {
    if path in fs then fs[path].content else ""
  }

  /** `(int) filemtime($path)`: a missing file's `FALSE` casts to 0. */
  function MTimeOrZero(fs: FileSystem, path: string): (r: nat)
    ensures path in fs ==> r == fs[path].mtime
    ensures path !in fs ==> r == 0
  {
    if path in fs then fs[path].mtime else 0
  }

  /**
   * `getFileImprint($fullPath)` as it ends up inside a string: the decimal
   * modification time, or (with `md5_file` as the checking function) the md5
   * digest of the content; a missing file's `FALSE` becomes the empty string.
   */
  function Imprint(h: Hashes, mode: ImprintMode, fs: FileSystem, path: string): (r: string)
    ensures path !in fs ==> r == []
    ensures path in fs && mode == FileMTime ==> r == DecimalString(fs[path].mtime)
    ensures path in fs && mode == Md5File ==> r == h.md5(fs[path].content)
    ensures path in fs && HexDigests(h) ==> r != []
  {
    if path !in fs then ""
    else if mode == FileMTime then DecimalString(fs[path].mtime)
    else h.md5(fs[path].content)
  }
}
