/**
 * Names of cached files and fingerprinted URLs (Assets.php:617-673, 729-738,
 * 826-833): the per-file temporary name, the joined-group file name, the
 * modification imprint appended to URLs, the indentation prefix and the
 * significant tail of a path.
 */
module Naming {
  import opened Strings
  import opened Platform
  import opened Disk

  /**
   * The path part of a temporary file name: a leading `~` of `~/` dropped,
   * every `/` turned into `_`, and `_` trimmed from both ends.
   */
  function SanitizedPath(path: string): (p: string)
    ensures '/' !in p
    ensures p == [] || (p[0] != '_' && p[|p| - 1] != '_')
  {
    var rel := if "~/" <= path then path[1..] else path;
    var flat := ReplaceChar(rel, '/', '_');
    var left := TrimLeft(flat, {'_'});
    var p := TrimRight(left, {'_'});
    FlattenedHasNoSlash(rel);
    TrimLeftShape(flat, {'_'});
    TrimRightShape(left, {'_'});
    p
  }

  /** Turning every `/` into `_` and trimming `_` leaves no `/`. */
  lemma FlattenedHasNoSlash(rel: string)
    ensures '/' !in TrimRight(TrimLeft(ReplaceChar(rel, '/', '_'), {'_'}), {'_'})
  {
    var flat := ReplaceChar(rel, '/', '_');
    assert '/' !in flat by {
      forall i | 0 <= i < |flat| ensures flat[i] != '/' {
      }
    }
    var left := TrimLeft(flat, {'_'});
    TrimLeftShape(flat, {'_'});
    NotInSlice(flat, '/', |flat| - |left|, |flat|);
    TrimRightShape(left, {'_'});
    NotInSlice(left, '/', 0, |TrimRight(left, {'_'})|);
  }

  /** An element missing from a list is missing from every slice of it. */
  lemma NotInSlice<T>(s: seq<T>, x: T, i: nat, j: nat)
    requires i <= j <= |s| && x !in s
    ensures x !in s[i..j]
  {
  }

  /** The hash inside a temporary file name, over the configuration hash and the source. */
  function TmpFileHash(h: Hashes, systemConfigHash: string, fullPathOrUrl: string): string
  {
    h.crc32b(h.serialize(VList([VStr(systemConfigHash), VStr(fullPathOrUrl)])))
  }

  /** The segment of a temporary file name: prefix, hash and sanitized path, joined by `_`. */
  function TmpFileSegment(h: Hashes, systemConfigHash: string, fullPathOrUrl: string, path: string, prefix: string): (r: string)
  {
    prefix + "_" + TmpFileHash(h, systemConfigHash, fullPathOrUrl) + "_" + SanitizedPath(path)
  }

  /**
   * `getTmpFileName`: `/`, the prefix, the hash of the configuration hash and
   * the source, and the sanitized path, joined by `_`.
   */
  function TmpFileName(h: Hashes, systemConfigHash: string, fullPathOrUrl: string, path: string, prefix: string): (r: string)
    ensures |r| > 0 && r[0] == '/' && r[1..] == TmpFileSegment(h, systemConfigHash, fullPathOrUrl, path, prefix)
  {
    "/" + TmpFileSegment(h, systemConfigHash, fullPathOrUrl, path, prefix)
  }

  /**
   * A temporary file name is a single path segment behind its leading `/`, so
   * every temporary file lies directly in the temporary directory; the
   * segment starts with the prefix and ends with the sanitized path.
   */
  lemma TmpFileNameIsOneSegment(h: Hashes, systemConfigHash: string, fullPathOrUrl: string, path: string, prefix: string)
    requires HexDigests(h)
    requires '/' !in prefix
    ensures var r := TmpFileName(h, systemConfigHash, fullPathOrUrl, path, prefix);
      && '/' !in r[1..]
      && prefix + "_" <= r[1..]
      && |SanitizedPath(path)| <= |r| && r[|r| - |SanitizedPath(path)|..] == SanitizedPath(path)
  {
    var hash := TmpFileHash(h, systemConfigHash, fullPathOrUrl);
    assert AllIn(hash, HexChars);
    HexHasNoSlash(hash);
    SegmentShape(prefix, hash, SanitizedPath(path));
  }

  /** The `_`-joined segment of three slash-free parts is slash-free and keeps its ends. */
  lemma SegmentShape(prefix: string, hash: string, p: string)
    requires '/' !in prefix && '/' !in hash && '/' !in p
    ensures var seg := prefix + "_" + hash + "_" + p;
      && '/' !in seg
      && prefix + "_" <= seg
      && seg[|seg| - |p|..] == p
  {
    var seg := prefix + "_" + hash + "_" + p;
    assert seg == (prefix + "_") + (hash + "_" + p);
  }

  /** Hexadecimal digests never contain a path separator. */
  lemma HexHasNoSlash(d: string)
    requires AllIn(d, HexChars)
    ensures '/' !in d
  {
    forall i | 0 <= i < |d|
      ensures d[i] != '/'
    {
      assert d[i] in HexChars;
    }
  }

  /** The `_` suffix of the md5 input: a boolean `true` concatenates as `1`, `false` as nothing. */
  function BoolString(b: bool): string
  {
    if b then "1" else ""
  }

  /**
   * `getTmpFileFullPathByPartFilesInfo`: the temporary directory, then
   * `minified_` or `rendered_`, the extension, the md5 of the group's source
   * list and the minify flag, and the extension again.
   */
  function GroupTmpFileFullPath(h: Hashes, tmpDir: string, filesGroupInfo: seq<string>, minify: bool, ext: string): (r: string)
    ensures tmpDir + "/" <= r
    ensures |ext| + 1 <= |r| && r[|r| - |ext| - 1..] == "." + ext
  {
    tmpDir
      + "/" + (if minify then "minified" else "rendered") + "_" + ext + "_"
      + h.md5(Join(",", filesGroupInfo) + "_" + BoolString(minify))
      + "." + ext
  }

  /**
   * A minified group and a merely rendered group never share a file,
   * whatever their source lists.
   */
  lemma GroupFileSeparatesMinified(h: Hashes, tmpDir: string, info1: seq<string>, info2: seq<string>, ext: string)
    ensures GroupTmpFileFullPath(h, tmpDir, info1, true, ext) != GroupTmpFileFullPath(h, tmpDir, info2, false, ext)
  {
    var m := GroupTmpFileFullPath(h, tmpDir, info1, true, ext);
    var n := GroupTmpFileFullPath(h, tmpDir, info2, false, ext);
    assert m[|tmpDir| + 1] == 'm';
    assert n[|tmpDir| + 1] == 'r';
  }

  /**
   * A group file lies directly in the temporary directory and carries the
   * extension as its suffix.
   */
  lemma GroupFileInTmpDir(h: Hashes, tmpDir: string, info: seq<string>, minify: bool, ext: string)
    requires HexDigests(h)
    requires '/' !in ext
    ensures var r := GroupTmpFileFullPath(h, tmpDir, info, minify, ext);
      && tmpDir + "/" <= r
      && '/' !in r[|tmpDir| + 1..]
      && r[|r| - |ext| - 1..] == "." + ext
  {
    var digest := h.md5(Join(",", info) + "_" + BoolString(minify));
    var kind := if minify then "minified" else "rendered";
    var r := GroupTmpFileFullPath(h, tmpDir, info, minify, ext);
    assert r == tmpDir + "/" + (kind + "_" + ext + "_" + digest + "." + ext);
    HexHasNoSlash(digest);
    assert r[|tmpDir| + 1..] == kind + "_" + ext + "_" + digest + "." + ext;
  }

  /**
   * `addFileModImprint2HrefUrl`: the URL, `?` when it has no query yet and `&`
   * otherwise, then `_fmt=` and the formatted modification time (0 for a
   * missing file) or `_md5=` and the content digest.
   */
  function AddFileModImprint2HrefUrl(h: Hashes, cfg: Config, col: Collaborators, fs: FileSystem, url: string, fullPath: string): (r: string)
    ensures url <= r && |r| > |url|
    ensures r[|url|] == (if '?' in url then '&' else '?')
    ensures cfg.imprintMode == FileMTime ==> r[|url| + 1..] == "_fmt=" + col.formatDate(MTimeOrZero(fs, fullPath))
    ensures cfg.imprintMode == Md5File ==> r[|url| + 1..] == "_md5=" + Imprint(h, Md5File, fs, fullPath)
  {
    var separator := if '?' in url then "&" else "?";
    if cfg.imprintMode == FileMTime then
      url + separator + "_fmt=" + col.formatDate(MTimeOrZero(fs, fullPath))
    else
      url + separator + "_md5=" + Imprint(h, Md5File, fs, fullPath)
  }

  /**
   * The `$indent` argument: a number (an integer or a numeric string, after
   * `intval`), any other string, or a value of another type.
   */
  datatype Indent = Count(n: int) | Text(text: string) | Other

  /** The indentation `getIndentString` produces. */
  function IndentOf(indent: Indent): (r: string)
    ensures indent.Count? ==> |r| == (if indent.n > 0 then indent.n else 0)
    ensures indent.Count? ==> forall i :: 0 <= i < |r| ==> r[i] == '\t'
    ensures indent.Text? ==> r == indent.text
    ensures indent.Other? ==> r == ""
  {
    match indent
    case Count(n) => if n > 0 then seq(n, _ => '\t') else ""
    case Text(t) => t
    case Other => ""
  }

  /** `getIndentString`: one tab per counted level, a string as it is, nothing otherwise. */
  method IndentString(indent: Indent) returns (indentStr: string)
    ensures indentStr == IndentOf(indent)
  {
    indentStr := "";
    match indent {
      case Count(indInt) =>
        if indInt > 0 {
          var i := 0;
          while i < indInt
            invariant 0 <= i <= indInt
            invariant indentStr == seq(i, _ => '\t')
          {
            indentStr := indentStr + "\t";
            i := i + 1;
          }
        }
      case Text(t) =>
        indentStr := t;
      case Other =>
    }
  }

  /** `s` in reverse order. */
  function Reverse<T>(s: seq<T>): (r: seq<T>)
    ensures |r| == |s|
  {
    if s == [] then [] else [s[|s| - 1]] + Reverse(s[..|s| - 1])
  }

  /** How many trailing segments `getSignificantPathPartFromFullPath` keeps. */
  function KeptSegments(count: nat, maxPathSegments: int): (k: nat)
    ensures k <= count
    ensures maxPathSegments >= 0 ==> k == (if count < maxPathSegments then count else maxPathSegments)
    ensures maxPathSegments < 0 ==> k == 0
  {
    if count < maxPathSegments then count else if maxPathSegments > 0 then maxPathSegments else 0
  }

  /** The segments of `absPath` once `\` is turned into `/`. */
  function PathSegments(absPath: string): seq<string>
  {
    Split(ReplaceChar(absPath, '\\', '/'), '/')
  }

  /** The significant path part: `/` followed by the last kept segments. */
  function SignificantPathPart(absPath: string, maxPathSegments: int): string
  {
    var parts := PathSegments(absPath);
    var k := KeptSegments(|parts|, maxPathSegments);
    Join("/", [""] + parts[|parts| - k..])
  }

  /** `getSignificantPathPartFromFullPath`: collects the last segments backwards, then reverses them. */
  method SignificantPathPartFromFullPath(absPath: string, maxPathSegments: int) returns (r: string)
    ensures r == SignificantPathPart(absPath, maxPathSegments)
  {
    var pathParts := Split(ReplaceChar(absPath, '\\', '/'), '/');
    var pathPartsCount := |pathParts|;
    var partsCount := if pathPartsCount < maxPathSegments then pathPartsCount else maxPathSegments;
    var parts := LastSegmentsBackwards(pathParts, partsCount);
    assert partsCount <= 0 ==> KeptSegments(pathPartsCount, maxPathSegments) == 0;
    ReverseSnoc(parts, "");
    r := Join("/", Reverse(parts + [""]));
  }

  /** The loop of `getSignificantPathPartFromFullPath`: the last `partsCount` segments, last one first. */
  method LastSegmentsBackwards(pathParts: seq<string>, partsCount: int) returns (parts: seq<string>)
    requires partsCount <= |pathParts|
    ensures Reverse(parts) == pathParts[|pathParts| - (if partsCount > 0 then partsCount else 0)..]
  {
    var pathPartsCount := |pathParts|;
    parts := [];
    var i := 0;
    while i < partsCount
      invariant 0 <= i <= (if partsCount > 0 then partsCount else 0)
      invariant Reverse(parts) == pathParts[pathPartsCount - i..]
    {
      ReverseSnoc(parts, pathParts[pathPartsCount - 1 - i]);
      TailExtends(pathParts, pathPartsCount - i);
      parts := parts + [pathParts[pathPartsCount - 1 - i]];
      i := i + 1;
    }
  }

  /** Reversing after appending puts the appended element first. */
  lemma ReverseSnoc<T>(s: seq<T>, x: T)
    ensures Reverse(s + [x]) == [x] + Reverse(s)
  {
    assert (s + [x])[..|s|] == s;
  }

  /** A suffix of a list extended by the element just before it. */
  lemma TailExtends<T>(s: seq<T>, j: nat)
    requires 0 < j <= |s|
    ensures [s[j - 1]] + s[j..] == s[j - 1..]
  {
  }

  /** `implode` over a concatenation of two non-empty lists. */
  lemma {:induction false} JoinAppend(sep: string, a: seq<string>, b: seq<string>)
    requires |a| > 0 && |b| > 0
    ensures Join(sep, a + b) == Join(sep, a) + sep + Join(sep, b)
    decreases |a|
  {
    if |a| == 1 {
      assert (a + b)[1..] == b;
    } else {
      assert (a + b)[1..] == a[1..] + b;
      JoinAppend(sep, a[1..], b);
    }
  }

  /**
   * Whenever at least one segment is kept, the significant part starts with
   * `/` and is a suffix of the normalised path; with every segment kept it is
   * the whole normalised path behind a `/`.
   */
  lemma SignificantPathPartIsSuffix(absPath: string, maxPathSegments: int)
    requires maxPathSegments > 0
    ensures var norm := ReplaceChar(absPath, '\\', '/');
      var r := SignificantPathPart(absPath, maxPathSegments);
      && |r| > 0 && r[0] == '/'
      && (|r| - 1 <= |norm| && r[1..] == norm[|norm| - (|r| - 1)..])
  {
    var norm := ReplaceChar(absPath, '\\', '/');
    var parts := PathSegments(absPath);
    var k := KeptSegments(|parts|, maxPathSegments);
    var tail := parts[|parts| - k..];
    JoinAppend("/", [""], tail);
    var r := SignificantPathPart(absPath, maxPathSegments);
    assert r == "/" + Join("/", tail);
    if k < |parts| {
      var head := parts[..|parts| - k];
      assert parts == head + tail;
      JoinAppend("/", head, tail);
      assert norm == Join("/", head) + "/" + Join("/", tail);
    } else {
      assert tail == parts;
    }
  }
}
