/**
 * The script helper (JsHelper.php): registration of `<script>` items in the
 * selected group, and rendering of a group as separate tags. Joined rendering
 * is in `JsRender`.
 *
 * Registration works on a `GroupRegistry`; rendering is stated by functions
 * over the items, the configuration and the file system, and the helper's
 * loops are methods proved equal to them. Messages are modelled without the
 * class-name prefix `exception` and `warning` put in front of them.
 */
module JsHelper {
  import opened Wrappers
  import opened Strings
  import opened Platform
  import opened Disk
  import opened Naming
  import opened Freshness
  import opened Items
  import opened Grouping
  import opened Registry
  import opened Markup

  /** The arguments the reverse key of a script registration is computed from (`external` is not among them). */
  function ScriptArgs(path: string, async: bool, defer: bool, notMin: bool, vendor: bool): seq<Value>
  {
    [VStr(path), VBool(async), VBool(defer), VBool(notMin), VBool(vendor)]
  }

  /** The record `completeItem` builds for a script that is not a vendor asset. */
  function ScriptItem(cfg: Config, path: string, async: bool, defer: bool, notMin: bool, external: bool): Item
  {
    Item(cfg.docRoot + path, path, notMin, false, Script(async, defer, external))
  }

  /** The duplicate warning `completeItem` dumps (development mode, file checking on). */
  function DuplicateWarning(path: string, groupName: string): string
  {
    "Script `" + path + "` is already added in js group: `" + groupName + "`."
  }

  /**
   * `completeItem` for a non-vendor script: with file checking on, a
   * duplicate in any group of the action is reported (in development mode);
   * the record keeps the flags as given and never fails.
   */
  method CompleteItem(reg: GroupRegistry, cfg: Config, path: string, async: bool, defer: bool, notMin: bool, external: bool)
    returns (r: Completed)
    requires reg.Valid()
    ensures r.item.fullPath == cfg.docRoot + path && r.item.path == path
    ensures r.item.notMin == notMin && !r.item.vendor
    ensures r.item.kind == Script(async, defer, external)
    ensures var dup := if reg.ctrlActionKey in reg.store
                       then LastGroupWith(reg.groupOrder[reg.ctrlActionKey], reg.store[reg.ctrlActionKey], path, false)
                       else None;
      && (r.warning.Some? <==> cfg.flags.fileChecking && cfg.devMode && dup.Some?)
      && (r.warning.Some? ==> r.warning.value == DuplicateWarning(path, dup.value))
  {
    var warning: Option<string> := None;
    if cfg.flags.fileChecking {
      var duplication := reg.IsDuplicate(path, false);
      if duplication.Some? && cfg.devMode {
        warning := Some(DuplicateWarning(path, duplication.value));
      }
    }
    r := Completed(ScriptItem(cfg, path, async, defer, notMin, external), warning);
  }

  /** `execContains`: looks the arguments up by their crc32b key, which registrations never record. */
  method ExecContains(reg: GroupRegistry, path: string, async: bool, defer: bool, notMin: bool, vendor: bool) returns (r: bool)
    requires reg.Valid()
    ensures r == reg.Contains(ScriptArgs(path, async, defer, notMin, vendor))
    ensures HexDigests(reg.hashes) ==> !r
  {
    r := reg.Contains(ScriptArgs(path, async, defer, notMin, vendor));
  }

  /** A summary of the `ArgumentCountError` PHP raises when `Remove` and `VendorRemove` call the six-parameter `execRemove` with five arguments. */
  const RemoveArityMessage: string :=
    "Too few arguments to function MvcCore\\Ext\\Views\\Helpers\\JsHelper::execRemove(), 5 passed and exactly 6 expected"

  /**
   * `Remove` as written: the call into `execRemove` fails on its argument
   * count in every mode, before anything is looked at, so nothing is ever
   * removed and the registry is left as it was.
   */
  method ExecRemove(reg: GroupRegistry, path: string, async: bool, defer: bool, notMin: bool, vendor: bool) returns (r: Result<bool>)
    requires reg.Valid()
    ensures r.Err? && r.message == RemoveArityMessage
  {
    r := Err(RemoveArityMessage);
  }

  /** The test `execRemove` applies to each item. */
  predicate ScriptMatches(item: Item, path: string, async: bool, defer: bool, notMin: bool, vendor: bool)
  {
    && item.path == path
    && item.kind.Script? && item.kind.async == async && item.kind.defer == defer
    && item.notMin == notMin
    && item.vendor == vendor
  }

  /**
   * The body of `execRemove`, as it runs once called with all its arguments:
   * prepares the group, removes the first matching item and unsets the
   * crc32b key of the arguments.
   */
  method ExecRemoveIntended(reg: GroupRegistry, path: string, async: bool, defer: bool, notMin: bool, vendor: bool)
    returns (removed: bool)
    requires reg.Valid()
    modifies reg
    ensures reg.Valid()
    ensures removed <==> exists j | 0 <= j < |old(reg.Group())| :: ScriptMatches(old(reg.Group())[j], path, async, defer, notMin, vendor)
    ensures removed ==> exists i | 0 <= i < |old(reg.Group())| ::
              && ScriptMatches(old(reg.Group())[i], path, async, defer, notMin, vendor)
              && (forall j | 0 <= j < i :: !ScriptMatches(old(reg.Group())[j], path, async, defer, notMin, vendor))
              && reg.Group() == RemoveAt(old(reg.Group()), i)
              && reg.reverseKeys == old(reg.reverseKeys) - {ReadKey(reg.hashes, ScriptArgs(path, async, defer, notMin, vendor))}
    ensures !removed ==> reg.Group() == old(reg.Group()) && reg.reverseKeys == old(reg.reverseKeys)
    ensures reg.store == PutGroup(old(reg.store), reg.ctrlActionKey, reg.currentGroupName, reg.Group())
    ensures reg.groupOrder == WithOrder(old(reg.groupOrder), reg.ctrlActionKey, reg.currentGroupName)
    ensures reg.currentGroupName == old(reg.currentGroupName)
  {
    ghost var store0, order0 := reg.store, reg.groupOrder;
    var _ := reg.GetGroupStore();
    removed := reg.RemoveFirst(item => ScriptMatches(item, path, async, defer, notMin, vendor), ScriptArgs(path, async, defer, notMin, vendor));
    PutAfterEntry(store0, reg.ctrlActionKey, reg.currentGroupName, reg.Group());
    WithOrderTwice(order0, reg.ctrlActionKey, reg.currentGroupName);
  }

  /**
   * `execOffset` for a non-vendor script: completes the item, splices it in
   * at `index` and records the md5 key of the arguments.
   */
  method ExecOffset(reg: GroupRegistry, cfg: Config, index: int, path: string, async: bool, defer: bool, notMin: bool, external: bool)
    returns (warning: Option<string>)
    requires reg.Valid()
    modifies reg
    ensures reg.Valid()
    ensures reg.Group() == OffsetSplice(old(reg.Group()), index, ScriptItem(cfg, path, async, defer, notMin, external))
    ensures reg.store == PutGroup(old(reg.store), reg.ctrlActionKey, reg.currentGroupName, reg.Group())
    ensures reg.reverseKeys == old(reg.reverseKeys) + {WriteKey(reg.hashes, ScriptArgs(path, async, defer, notMin, false))}
    ensures reg.currentGroupName == old(reg.currentGroupName)
  {
    var completed := CompleteItem(reg, cfg, path, async, defer, notMin, external);
    reg.Offset(index, completed.item, ScriptArgs(path, async, defer, notMin, false));
    warning := completed.warning;
  }

  /** `execAppend` for a non-vendor script: the completed item goes last. */
  method ExecAppend(reg: GroupRegistry, cfg: Config, path: string, async: bool, defer: bool, notMin: bool, external: bool)
    returns (warning: Option<string>)
    requires reg.Valid()
    modifies reg
    ensures reg.Valid()
    ensures reg.Group() == old(reg.Group()) + [ScriptItem(cfg, path, async, defer, notMin, external)]
    ensures reg.store == PutGroup(old(reg.store), reg.ctrlActionKey, reg.currentGroupName, reg.Group())
    ensures reg.reverseKeys == old(reg.reverseKeys) + {WriteKey(reg.hashes, ScriptArgs(path, async, defer, notMin, false))}
    ensures reg.currentGroupName == old(reg.currentGroupName)
  {
    var completed := CompleteItem(reg, cfg, path, async, defer, notMin, external);
    reg.Append(completed.item, ScriptArgs(path, async, defer, notMin, false));
    warning := completed.warning;
  }

  /** `execPrepend` for a non-vendor script: the completed item goes first. */
  method ExecPrepend(reg: GroupRegistry, cfg: Config, path: string, async: bool, defer: bool, notMin: bool, external: bool)
    returns (warning: Option<string>)
    requires reg.Valid()
    modifies reg
    ensures reg.Valid()
    ensures reg.Group() == [ScriptItem(cfg, path, async, defer, notMin, external)] + old(reg.Group())
    ensures reg.store == PutGroup(old(reg.store), reg.ctrlActionKey, reg.currentGroupName, reg.Group())
    ensures reg.reverseKeys == old(reg.reverseKeys) + {WriteKey(reg.hashes, ScriptArgs(path, async, defer, notMin, false))}
    ensures reg.currentGroupName == old(reg.currentGroupName)
  {
    var completed := CompleteItem(reg, cfg, path, async, defer, notMin, external);
    reg.Prepend(completed.item, ScriptArgs(path, async, defer, notMin, false));
    warning := completed.warning;
  }

  /** The script's own flags; items of this helper are always scripts. */
  predicate External(item: Item)
  {
    item.kind.Script? && item.kind.external
  }

  predicate Async(item: Item)
  {
    item.kind.Script? && item.kind.async
  }

  predicate Defer(item: Item)
  {
    item.kind.Script? && item.kind.defer
  }

  /** The `async` attribute, present only for an asynchronous script. */
  function AsyncAttribute(async: bool): string
  {
    if async then " async=\"async\"" else ""
  }

  /** The `defer` attribute, present only for a deferred script. */
  function DeferAttribute(defer: bool): string
  {
    if defer then " defer=\"defer\"" else ""
  }

  /** Everything of a `<script>` tag before its src value. */
  function ScriptHead(nonce: string, async: bool, defer: bool): string
  {
    "<script type=\"text/javascript\"" + nonce + Attributes(async, defer)
  }

  /** `renderItemSeparated`: the `<script>` tag with the nonce, `async` and `defer` when set, and the src last. */
  function ScriptTag(nonce: string, async: bool, defer: bool, src: string): (r: string)
    ensures ScriptHead(nonce, async, defer) + src <= r
    ensures |r| == |ScriptHead(nonce, async, defer)| + |src| + 11 && r[|r| - 11..] == "\"></script>"
  {
    ScriptHead(nonce, async, defer) + src + "\"></script>"
  }

  /** Two tags with the same nonce and the same text agree on both flags: the head states them unambiguously. */
  lemma ScriptHeadFlags(nonce: string, a1: bool, d1: bool, a2: bool, d2: bool)
    requires ScriptHead(nonce, a1, d1) == ScriptHead(nonce, a2, d2)
    ensures a1 == a2 && d1 == d2
  {
    var p := "<script type=\"text/javascript\"" + nonce;
    CancelPrefix(p, Attributes(a1, d1), Attributes(a2, d2));
    AttributesFlags(a1, d1, a2, d2);
  }

  /** Equal strings with the same beginning go on the same way. */
  lemma CancelPrefix(p: string, t1: string, t2: string)
    requires p + t1 == p + t2
    ensures t1 == t2
  {
    assert t1 == (p + t1)[|p|..];
    assert t2 == (p + t2)[|p|..];
  }

  /** The part of a script head after the nonce: the flags' attributes and the start of `src`. */
  function Attributes(async: bool, defer: bool): string
  {
    AsyncAttribute(async) + DeferAttribute(defer) + " src=\""
  }

  /** The attribute text determines both flags. */
  lemma AttributesFlags(a1: bool, d1: bool, a2: bool, d2: bool)
    requires Attributes(a1, d1) == Attributes(a2, d2)
    ensures a1 == a2 && d1 == d2
  {
    AttributesAt(a1, d1);
    AttributesAt(a2, d2);
  }

  /** The attribute text tells its flags apart at its second and sixteenth characters. */
  lemma AttributesAt(a: bool, d: bool)
    ensures var t := Attributes(a, d);
      && |t| > 1 && t[1] == (if a then 'a' else if d then 'd' else 's')
      && (a ==> |t| > 15 && t[15] == (if d then 'd' else 's'))
  {
  }

  /** `minify`: the minifier's output, or, when it throws, an error in development mode and `''` otherwise. */
  function Minified(env: Env, js: string, path: string): (r: Result<string>)
    ensures r.Err? <==> env.cfg.devMode && env.col.minifyJs(js).None?
    ensures r.Ok? && env.col.minifyJs(js).Some? ==> r.value == env.col.minifyJs(js).value
    ensures r.Ok? && env.col.minifyJs(js).None? ==> r.value == ""
  {
    match env.col.minifyJs(js)
    case Some(m) => Ok(m)
    case None => Raise(env.cfg.devMode, "Unable to minify js: `" + path + "`.", "")
  }

  /** `render2TmpGetPathExec`: the source file's content, minified when `minify` is set. */
  function Render2TmpGetPathExec(env: Env, fs: FileSystem, item: Item, minify: bool): (r: Result<string>)
    ensures !minify ==> r == Ok(ReadContent(fs, item.fullPath))
    ensures minify ==> r == Minified(env, ReadContent(fs, item.fullPath), item.path)
    ensures r.Err? ==> minify && env.cfg.devMode
  {
    var fileContent := ReadContent(fs, item.fullPath);
    if minify then Minified(env, fileContent, item.path) else Ok(fileContent)
  }

  /** Whether `renderItemsSeparated` links a non-external script through a rendered temporary copy. */
  predicate Rendered(item: Item, minify: bool)
  {
    !External(item) && minify && !item.notMin
  }

  /**
   * The path a script's src is made from: the downloaded copy for an external
   * script (or the download's failure), the rendered copy's path, or the
   * script's own path.
   */
  function SrcPath(env: Env, item: Item, minify: bool): Result<string>
  {
    if External(item) then env.col.download(item.path, minify)
    else if Rendered(item, minify) then Ok(Drop(RenderTmpFullPath(env.cfg, env.h, item.fullPath, item.path), |env.cfg.docRoot|))
    else Ok(item.path)
  }

  /**
   * The src `renderItemsSeparated` gives a script: the URL of its downloaded
   * copy, of its rendered copy (written if stale) or of its own path, with the
   * file imprint of the script's full path appended when file checking is on.
   */
  function ItemSrc(env: Env, fs: FileSystem, item: Item, minify: bool): Result<Written<string>>
  {
    var chosen :=
      if External(item) then
        (match env.col.download(item.path, minify)
         case Err(e) => Err(e)
         case Ok(p) => Ok((p, fs)))
      else if Rendered(item, minify) then
        Render2TmpGetPath(env.cfg, env.h, fs, env.now, item.fullPath, item.path, Render2TmpGetPathExec(env, fs, item, minify))
      else Ok((item.path, fs));
    match chosen
    case Err(e) => Err(e)
    case Ok(p) =>
      var url := CssJsFileUrl(env.cfg, env.col, p.0);
      if env.cfg.flags.fileChecking then
        Ok(Written(AddFileModImprint2HrefUrl(env.h, env.cfg, env.col, p.1, url, item.fullPath), p.1))
      else
        Ok(Written(url, p.1))
  }

  /**
   * A script's src starts with the URL of its chosen path and carries more
   * exactly when file checking is on; it fails only when the download fails
   * or, in development mode, the minifier does; only a rendered copy writes
   * to disk.
   */
  lemma ItemSrcShape(env: Env, fs: FileSystem, item: Item, minify: bool)
    ensures var r := ItemSrc(env, fs, item, minify);
      r.Ok? ==>
        && SrcPath(env, item, minify).Ok?
        && var url := CssJsFileUrl(env.cfg, env.col, SrcPath(env, item, minify).value);
        && url <= r.value.value
        && (env.cfg.flags.fileChecking <==> |r.value.value| > |url|)
    ensures var r := ItemSrc(env, fs, item, minify);
      r.Err? <==> if External(item) then SrcPath(env, item, minify).Err?
                  else Rendered(item, minify) && env.cfg.flags.fileRendering
                       && Stale(fs, item.fullPath, RenderTmpFullPath(env.cfg, env.h, item.fullPath, item.path))
                       && Render2TmpGetPathExec(env, fs, item, minify).Err?
    ensures var r := ItemSrc(env, fs, item, minify);
      r.Err? ==> DownloadFails(env, item, minify) || env.cfg.devMode
    ensures var r := ItemSrc(env, fs, item, minify);
      !Rendered(item, minify) && r.Ok? ==> r.value.fs == fs
  {
  }

  /**
   * The tag `renderItemsSeparated` emits for a script: a `<script>` with the
   * script's flags and a src that starts with the URL of the chosen path and
   * carries more exactly when file checking is on.
   */
  predicate SeparatedTagFor(env: Env, item: Item, minify: bool, tag: string)
  {
    && SrcPath(env, item, minify).Ok?
    && var head := ScriptHead(env.cfg.scriptNonce, Async(item), Defer(item)) + CssJsFileUrl(env.cfg, env.col, SrcPath(env, item, minify).value);
    && head <= tag
    && (env.cfg.flags.fileChecking <==> |tag| > |head| + 11)
  }

  /** The tag for a script built from a src of the shape `ItemSrc` gives. */
  lemma ItemTagFits(env: Env, item: Item, minify: bool, src: string)
    requires SrcPath(env, item, minify).Ok?
    requires var url := CssJsFileUrl(env.cfg, env.col, SrcPath(env, item, minify).value);
      url <= src && (env.cfg.flags.fileChecking <==> |src| > |url|)
    ensures SeparatedTagFor(env, item, minify, ScriptTag(env.cfg.scriptNonce, Async(item), Defer(item), src))
  {
    var url := CssJsFileUrl(env.cfg, env.col, SrcPath(env, item, minify).value);
    var sh := ScriptHead(env.cfg.scriptNonce, Async(item), Defer(item));
    PrefixThroughTag(sh, url, src, "\"></script>");
  }

  /** A head and the start of a value begin the head, the whole value and anything after it. */
  lemma PrefixThroughTag(head: string, start: string, value: string, tail: string)
    requires start <= value
    ensures head + start <= head + value + tail
  {
    assert head + value + tail == (head + start) + (value[|start|..] + tail);
  }

  /** The tag of one script, once its src is known. */
  function TagOf(env: Env, item: Item, src: string): string
  {
    ScriptTag(env.cfg.scriptNonce, Async(item), Defer(item), src)
  }

  /** The tags of the scripts from the first on, in order, threading the file system. */
  function SeparatedTags(env: Env, fs: FileSystem, items: seq<Item>, minify: bool): Result<Written<seq<string>>>
    decreases |items|
  {
    if items == [] then Ok(Written([], fs))
    else
      match ItemSrc(env, fs, items[0], minify)
      case Err(e) => Err(e)
      case Ok(x) => Prefixed([TagOf(env, items[0], x.value)], SeparatedTags(env, x.fs, items[1..], minify))
  }

  /** A script whose download fails. */
  predicate DownloadFails(env: Env, item: Item, minify: bool)
  {
    External(item) && env.col.download(item.path, minify).Err?
  }

  /** Separate rendering fails only in development mode or when some script's download fails. */
  lemma {:induction false} SeparatedTagsFailure(env: Env, fs: FileSystem, items: seq<Item>, minify: bool)
    ensures SeparatedTags(env, fs, items, minify).Err? ==>
      env.cfg.devMode || exists i | 0 <= i < |items| :: DownloadFails(env, items[i], minify)
    decreases |items|
  {
    if items != [] {
      var src := ItemSrc(env, fs, items[0], minify);
      ItemSrcShape(env, fs, items[0], minify);
      if src.Ok? {
        SeparatedTagsFailure(env, src.value.fs, items[1..], minify);
        if exists i | 0 <= i < |items[1..]| :: DownloadFails(env, items[1..][i], minify) {
          var i :| 0 <= i < |items[1..]| && DownloadFails(env, items[1..][i], minify);
          assert items[1..][i] == items[i + 1];
        }
      }
    }
  }

  /** Separate rendering gives one fitting tag per script, in the scripts' order. */
  lemma {:induction false} SeparatedTagsFit(env: Env, fs: FileSystem, items: seq<Item>, minify: bool)
    ensures var r := SeparatedTags(env, fs, items, minify);
      r.Ok? ==> |r.value.value| == |items| && forall i | 0 <= i < |items| :: SeparatedTagFor(env, items[i], minify, r.value.value[i])
    decreases |items|
  {
    if items != [] {
      var src := ItemSrc(env, fs, items[0], minify);
      ItemSrcShape(env, fs, items[0], minify);
      if src.Ok? {
        var x := src.value;
        var tag := TagOf(env, items[0], x.value);
        var rest := SeparatedTags(env, x.fs, items[1..], minify);
        assert SeparatedTags(env, fs, items, minify) == Prefixed([tag], rest);
        ItemTagFits(env, items[0], minify, x.value);
        SeparatedTagsFit(env, x.fs, items[1..], minify);
        if rest.Ok? {
          PairwiseCons((it, t) => SeparatedTagFor(env, it, minify, t), items, tag, rest.value.value);
        }
      }
    }
  }

  /** When no script is external and none needs a rendered copy, separate rendering succeeds and writes nothing. */
  lemma {:induction false} SeparatedTagsWriteOnlyCopies(env: Env, fs: FileSystem, items: seq<Item>, minify: bool)
    requires forall i | 0 <= i < |items| :: !External(items[i]) && !Rendered(items[i], minify)
    ensures SeparatedTags(env, fs, items, minify).Ok? && SeparatedTags(env, fs, items, minify).value.fs == fs
    decreases |items|
  {
    if items != [] {
      ItemSrcShape(env, fs, items[0], minify);
      assert forall i | 0 <= i < |items[1..]| :: !External(items[1..][i]) && !Rendered(items[1..][i], minify) by {
        forall i | 0 <= i < |items[1..]| ensures !External(items[1..][i]) && !Rendered(items[1..][i], minify) {
          assert items[1..][i] == items[i + 1];
        }
      }
      SeparatedTagsWriteOnlyCopies(env, fs, items[1..], minify);
    }
  }

  /** The begin marker of a script group. */
  function BeginMarker(groupName: string): string
  {
    "<!-- js group begin: " + groupName + " -->"
  }

  /** The end marker of a script group. */
  function EndMarker(groupName: string): string
  {
    "<!-- js group end: " + groupName + " -->"
  }

  /** What `renderItemsSeparated` returns and leaves behind. */
  function SeparatedMarkup(env: Env, fs: FileSystem, groupName: string, items: seq<Item>, indent: Indent, minify: bool)
    : (r: Result<Written<string>>)
    ensures r.Err? ==> env.cfg.devMode || exists i | 0 <= i < |items| :: DownloadFails(env, items[i], minify)
    ensures r.Ok? ==> "\n" + IndentOf(indent) <= r.value.value
  {
    SeparatedTagsFailure(env, fs, items, minify);
    match SeparatedTags(env, fs, items, minify)
    case Err(e) => Err(e)
    case Ok(w) =>
      Ok(Written(GroupMarkup(IndentOf(indent), WithMarkers(env.cfg.flags.fileRendering, BeginMarker(groupName), EndMarker(groupName), w.value)), w.fs))
  }

  /** One pass of the `renderItemsSeparated` loop, stated on what is left of the scripts. */
  lemma SeparatedPass(env: Env, fs: FileSystem, items: seq<Item>, i: nat, minify: bool)
    requires i < |items|
    ensures var src := ItemSrc(env, fs, items[i], minify);
      && (src.Err? ==> SeparatedTags(env, fs, items[i..], minify) == Err(src.message))
      && (src.Ok? ==>
            SeparatedTags(env, fs, items[i..], minify)
            == Prefixed([TagOf(env, items[i], src.value.value)], SeparatedTags(env, src.value.fs, items[i + 1..], minify)))
  {
    assert items[i..][0] == items[i];
    assert items[i..][1..] == items[i + 1..];
  }

  /** The src of one script, as the `renderItemsSeparated` loop computes it. */
  method LoadItemSrc(env: Env, fs: FileSystem, item: Item, minify: bool) returns (r: Result<Written<string>>)
    ensures r == ItemSrc(env, fs, item, minify)
  {
    var src: string;
    var files := fs;
    if External(item) {
      var downloaded := env.col.download(item.path, minify);
      if downloaded.Err? {
        return Err(downloaded.message);
      }
      src := CssJsFileUrl(env.cfg, env.col, downloaded.value);
    } else if minify && !item.notMin {
      var rendered := Render2TmpGetPath(env.cfg, env.h, fs, env.now, item.fullPath, item.path, Render2TmpGetPathExec(env, fs, item, minify));
      if rendered.Err? {
        return Err(rendered.message);
      }
      src := CssJsFileUrl(env.cfg, env.col, rendered.value.0);
      files := rendered.value.1;
    } else {
      src := CssJsFileUrl(env.cfg, env.col, item.path);
    }
    if env.cfg.flags.fileChecking {
      src := AddFileModImprint2HrefUrl(env.h, env.cfg, env.col, files, src, item.fullPath);
    }
    r := Ok(Written(src, files));
  }

  /** One pass of the `renderItemsSeparated` loop: the tag of script `i` appended, or the failure. */
  method AppendSeparatedTag(env: Env, fs: FileSystem, items: seq<Item>, i: nat, minify: bool, done: seq<string>)
    returns (r: Result<Written<seq<string>>>)
    requires i < |items|
    ensures r.Err? ==> Prefixed(done, SeparatedTags(env, fs, items[i..], minify)) == Err(r.message)
    ensures r.Ok? ==> Prefixed(done, SeparatedTags(env, fs, items[i..], minify)) == Prefixed(r.value.value, SeparatedTags(env, r.value.fs, items[i + 1..], minify))
  {
    SeparatedPass(env, fs, items, i, minify);
    var src := LoadItemSrc(env, fs, items[i], minify);
    if src.Err? {
      return Err(src.message);
    }
    var tag := TagOf(env, items[i], src.value.value);
    PrefixedPass(done, tag, SeparatedTags(env, src.value.fs, items[i + 1..], minify));
    r := Ok(Written(done + [tag], src.value.fs));
  }

  /** `renderItemsSeparated`: one tag per script, in order, between the markers. */
  method RenderItemsSeparated(env: Env, fs: FileSystem, groupName: string, items: seq<Item>, indent: Indent, minify: bool)
    returns (r: Result<Written<string>>)
    ensures r == SeparatedMarkup(env, fs, groupName, items, indent, minify)
  {
    var indentStr := IndentString(indent);
    var resultItems: seq<string> := [];
    var files := fs;
    var i := 0;
    assert items[0..] == items;
    PrefixedNothing(SeparatedTags(env, fs, items, minify));
    while i < |items|
      invariant 0 <= i <= |items|
      invariant SeparatedTags(env, fs, items, minify) == Prefixed(resultItems, SeparatedTags(env, files, items[i..], minify))
    {
      var next := AppendSeparatedTag(env, files, items, i, minify, resultItems);
      if next.Err? {
        return Err(next.message);
      }
      resultItems, files := next.value.value, next.value.fs;
      i := i + 1;
    }
    assert items[i..] == [];
    PrefixedAll(resultItems, files);
    r := Ok(Written(GroupMarkup(indentStr, WithMarkers(env.cfg.flags.fileRendering, BeginMarker(groupName), EndMarker(groupName), resultItems)), files));
  }
}
