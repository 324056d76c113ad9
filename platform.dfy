/**
 * What the asset helpers take from their surroundings: PHP values that reach
 * `serialize()`/`json_encode()`, the hash functions, the foreign collaborators
 * (minifiers, template rendering, `realpath`, date formatting, the view's
 * `AssetUrl`, remote download), the application compile mode and the
 * process-wide configuration derived from it (Assets.php:95-192, 393-440).
 */
module Platform {
  import opened Wrappers
  import opened Strings

  /** The PHP values that the helpers pass to `serialize()` and `json_encode()`. */
  datatype Value =
    | VNull
    | VBool(b: bool)
    | VInt(i: int)
    | VStr(s: string)
    | VList(elements: seq<Value>)
    | VAssoc(entries: seq<(string, Value)>)

  /**
   * Hashing and serialisation, left uninterpreted: nothing is assumed about
   * them beyond determinism (they are functions) and, where stated, the shape
   * of their hexadecimal output. In particular no injectivity is assumed.
   */
  datatype Hashes = Hashes(
    md5: string -> string,
    crc32b: string -> string,
    serialize: Value -> string,
    jsonEncode: Value -> string)

  const HexChars: set<char> := set c | '0' <= c <= '9' || 'a' <= c <= 'f'

  /** `md5()` yields 32 and `hash("crc32b", ...)` yields 8 lower-case hexadecimal digits. */
  ghost predicate HexDigests(h: Hashes)
  {
    && (forall s :: |h.md5(s)| == 32 && AllIn(h.md5(s), HexChars))
    && (forall s :: |h.crc32b(s)| == 8 && AllIn(h.crc32b(s), HexChars))
  }

  /** Foreign code the helpers call into, given by what it returns. */
  datatype Collaborators = Collaborators(
    /** `realpath()` after `\` is turned into `/`; the empty string stands for `FALSE`. */
    realpath: string -> string,
    /** Output of executing a stylesheet as a PHP template (`renderFile`). */
    renderFile: string -> string,
    /** The CSS minifier; `None` when it throws. */
    minifyCss: string -> Option<string>,
    /** The JS minifier; `None` when it throws. */
    minifyJs: string -> Option<string>,
    /** `date('Y-m-d_H-i-s', $t)`. */
    formatDate: int -> string,
    /** `$view->AssetUrl($path)`. */
    viewAssetUrl: string -> string,
    /** `download2TmpGetPath` for a script URL and the minify switch: the temporary path, or the error it raises. */
    download: (string, bool) -> Result<string>)

  /** The application compile modes (`$app->GetCompiled()`); `Development` is the empty string. */
  datatype CompileMode =
    | Development
    | Phar
    | Sfu
    | PhpStrictPackage
    | PhpPreservePackage
    | PhpPreserveHdd
    | PhpStrictHdd

  /** `$fileChecking`, `$fileRendering` and `$assetsUrlCompletion`. */
  datatype Flags = Flags(fileChecking: bool, fileRendering: bool, assetsUrlCompletion: bool)

  /**
   * The three switches as `initCommonProps` derives them from the compile
   * mode: source checking only in development, temporary-file rendering in
   * development and in single-file-URL mode, and query-string asset URLs in
   * every packed mode except strict hard-drive mode. A switch that is never
   * assigned stays `NULL`, which reads as false.
   */
  function DeriveFlags(mode: CompileMode): (f: Flags)
    ensures f.fileChecking <==> mode == Development
    ensures f.fileRendering <==> mode == Development || mode == Sfu
    ensures f.assetsUrlCompletion <==> mode != Development && mode != PhpStrictHdd
  {
    var compiled := mode != Development;
    Flags(!compiled, !compiled || mode == Sfu, compiled && mode != PhpStrictHdd)
  }

  /** Whenever sources are checked, temporary files are rendered too. */
  lemma CheckingImpliesRendering(mode: CompileMode)
    ensures DeriveFlags(mode).fileChecking ==> DeriveFlags(mode).fileRendering
  {
  }

  /** Query-string asset URLs are never combined with source checking. */
  lemma CompletionExcludesChecking(mode: CompileMode)
    ensures DeriveFlags(mode).assetsUrlCompletion ==> !DeriveFlags(mode).fileChecking
  {
  }

  /** How `getFileImprint` fingerprints a file (the `fileChecking` option). */
  datatype ImprintMode = FileMTime | Md5File

  /**
   * The process-wide state the helpers read: request paths, the mode flags,
   * the global options and the nonce attributes (`getNonce` results).
   */
  datatype Config = Config(
    docRoot: string,
    vendorDocRoot: string,
    /** The `tmpDir` option, possibly starting with `~/` for the document root. */
    tmpDirOption: string,
    basePath: string,
    scriptName: string,
    devMode: bool,
    flags: Flags,
    systemConfigHash: string,
    imprintMode: ImprintMode,
    cssMinify: bool,
    cssJoin: bool,
    jsMinify: bool,
    jsJoin: bool,
    styleNonce: string,
    scriptNonce: string)

  /** The placeholder `AssetUrl` puts where the base path belongs. */
  const RelBasePathPlacement: string := "__RELATIVE_BASE_PATH__"

  /** `getTmpDir`: a leading `~` of `~/` stands for the document root. */
  function TmpDir(cfg: Config): (r: string)
    ensures "~/" <= cfg.tmpDirOption ==> r == cfg.docRoot + cfg.tmpDirOption[1..]
    ensures !("~/" <= cfg.tmpDirOption) ==> r == cfg.tmpDirOption
  {
    if "~/" <= cfg.tmpDirOption then cfg.docRoot + cfg.tmpDirOption[1..] else cfg.tmpDirOption
  }

  /**
   * `AssetUrl`: with URL completion, the asset-serving controller URL;
   * otherwise the path behind the relative base path placeholder.
   */
  function AssetUrl(cfg: Config, path: string): (r: string)
    ensures |path| <= |r| && r[|r| - |path|..] == path
    ensures !cfg.flags.assetsUrlCompletion ==> r == RelBasePathPlacement + path
    ensures cfg.flags.assetsUrlCompletion ==> cfg.scriptName <= r
  {
    if cfg.flags.assetsUrlCompletion then
      cfg.scriptName + "?controller=controller&action=asset&path=" + path
    else
      RelBasePathPlacement + path
  }

  /**
   * Once the placeholder is replaced by `../..` (the last step of the
   * stylesheet path rewriting), an `AssetUrl` made without URL completion
   * points two directories up from the temporary file.
   */
  lemma AssetUrlResolvesUpwards(cfg: Config, path: string)
    requires !cfg.flags.assetsUrlCompletion
    ensures ReplaceAll(AssetUrl(cfg, path), RelBasePathPlacement, "../..")
         == "../.." + ReplaceAll(path, RelBasePathPlacement, "../..")
  {
    var u := AssetUrl(cfg, path);
    assert u[..|RelBasePathPlacement|] == RelBasePathPlacement;
    assert u[|RelBasePathPlacement|..] == path;
  }

  /** `CssJsFileUrl`: the view's `AssetUrl` with URL completion, else the base path prefix. */
  function CssJsFileUrl(cfg: Config, col: Collaborators, path: string): (r: string)
    ensures !cfg.flags.assetsUrlCompletion ==> r == cfg.basePath + path
    ensures cfg.flags.assetsUrlCompletion ==> r == col.viewAssetUrl(path)
  {
    if cfg.flags.assetsUrlCompletion then col.viewAssetUrl(path) else cfg.basePath + path
  }
}
