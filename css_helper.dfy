/**
 * The stylesheet helper (CssHelper.php): registration of `<link>` items in
 * the selected group, and rendering of a group as separate tags or as joined
 * files in the temporary directory.
 *
 * Registration works on a `GroupRegistry`; rendering is stated by functions
 * over the items, the configuration and the file system, and the helper's
 * loops are methods proved equal to them. Messages are modelled without the
 * class-name prefix `exception` and `warning` put in front of them.
 */
module CssHelper {
  import opened Wrappers
  import opened Strings
  import opened Platform
  import opened Disk
  import opened Naming
  import opened Freshness
  import opened Items
  import opened Grouping
  import opened Registry
  import opened CssRewriter
  import opened Markup

  /** `$mediaTypes`: the names of `MEDIA_ALL`, `MEDIA_SCREEN` and `MEDIA_PRINT`, by value. */
  const MediaTypes: seq<string> := ["all", "screen", "print"]

  /** `array_search($media, $mediaTypes, TRUE)`: the value a media name stands for. */
  function MediaIndex(name: string): (r: Option<int>)
    ensures r.Some? ==> 0 <= r.value < |MediaTypes| && MediaTypes[r.value] == name
    ensures r.None? <==> name !in MediaTypes
  {
    if name == MediaTypes[0] then Some(MediaAll)
    else if name == MediaTypes[1] then Some(MediaScreen)
    else if name == MediaTypes[2] then Some(MediaPrint)
    else None
  }

  /** An integer as PHP interpolates it into a string. */
  function IntString(i: int): string
  {
    if i < 0 then "-" + DecimalString(-i) else DecimalString(i)
  }

  /**
   * `getMediaType`: a defined integer is kept, a defined name becomes its
   * integer, an undefined integer or name raises in development mode and
   * otherwise reads as `MEDIA_ALL`, as does a value of any other type.
   */
  function GetMediaType(media: Value, devMode: bool): (r: Result<int>)
    ensures r.Ok? ==> 0 <= r.value < |MediaTypes|
    ensures r.Err? <==> devMode && ((media.VInt? && !(0 <= media.i < |MediaTypes|)) || (media.VStr? && media.s !in MediaTypes))
    ensures media.VInt? && 0 <= media.i < |MediaTypes| ==> r == Ok(media.i)
    ensures media.VStr? && media.s in MediaTypes ==> r.Ok? && MediaTypes[r.value] == media.s
    ensures r.Ok? && !(media.VInt? && 0 <= media.i < |MediaTypes|) && !(media.VStr? && media.s in MediaTypes) ==> r.value == MediaAll
  {
    match media
    case VInt(i) =>
      if 0 <= i < |MediaTypes| then Ok(i)
      else Raise(devMode, "Media int type `" + IntString(i) + "` not defined.", MediaAll)
    case VStr(s) =>
      (match MediaIndex(s)
       case Some(k) => Ok(k)
       case None => Raise(devMode, "Media string type `" + s + "` not defined.", MediaAll))
    case _ => Ok(MediaAll)
  }

  /** A media type given by its name and by its value normalises to the same value. */
  lemma MediaTypeNameAndValueAgree(i: int, devMode: bool)
    requires 0 <= i < |MediaTypes|
    ensures GetMediaType(VStr(MediaTypes[i]), devMode) == GetMediaType(VInt(i), devMode) == Ok(i)
  {
    var r := GetMediaType(VStr(MediaTypes[i]), devMode);
    assert MediaTypes[r.value] == MediaTypes[i];
    assert MediaTypes[0] != MediaTypes[1] && MediaTypes[0] != MediaTypes[2] && MediaTypes[1] != MediaTypes[2];
  }

  /** The arguments the reverse key of a stylesheet registration is computed from: `$media` as given. */
  function StyleArgs(path: string, media: Value, notMin: bool, vendor: bool): (r: seq<Value>)
    ensures |r| == 4 && r[0] == VStr(path) && r[1] == media
  {
    [VStr(path), media, VBool(notMin), VBool(vendor)]
  }

  /** The record `completeItem` builds for a stylesheet that is not a vendor asset. */
  function StyleItem(cfg: Config, path: string, mediaInt: int, notMin: bool, render: bool): (r: Item)
    ensures r.fullPath == cfg.docRoot + path && r.path == path && !r.vendor
    ensures r.kind == Style(mediaInt, render) && r.notMin == notMin
  {
    Item(cfg.docRoot + path, path, notMin, false, Style(mediaInt, render))
  }

  /** The duplicate warning `completeItem` dumps (development mode, file checking on). */
  function DuplicateWarning(path: string, groupName: string): string
  {
    "Style sheet `" + path + "` is already added in css group: `" + groupName + "`."
  }

  /**
   * `completeItem` for a non-vendor stylesheet: with file checking on, a
   * duplicate in any group of the action is reported (in development mode);
   * the media type is normalised, which may raise.
   */
  method CompleteItem(reg: GroupRegistry, cfg: Config, path: string, media: Value, notMin: bool, render: bool)
    returns (r: Result<Completed>)
    requires reg.Valid()
    ensures r.Err? <==> GetMediaType(media, cfg.devMode).Err?
    ensures r.Ok? ==> r.value.item == StyleItem(cfg, path, GetMediaType(media, cfg.devMode).value, notMin, render)
    ensures r.Ok? ==> var dup := if reg.ctrlActionKey in reg.store
                                 then LastGroupWith(reg.groupOrder[reg.ctrlActionKey], reg.store[reg.ctrlActionKey], path, false)
                                 else None;
      && (r.value.warning.Some? <==> cfg.flags.fileChecking && cfg.devMode && dup.Some?)
      && (r.value.warning.Some? ==> r.value.warning.value == DuplicateWarning(path, dup.value))
  {
    var warning: Option<string> := None;
    if cfg.flags.fileChecking {
      var duplication := reg.IsDuplicate(path, false);
      if duplication.Some? && cfg.devMode {
        warning := Some(DuplicateWarning(path, duplication.value));
      }
    }
    var mediaInt := GetMediaType(media, cfg.devMode);
    if mediaInt.Err? {
      return Err(mediaInt.message);
    }
    r := Ok(Completed(StyleItem(cfg, path, mediaInt.value, notMin, render), warning));
  }

  /** `execContains`: looks the raw arguments up by their crc32b key, which registrations never record. */
  method ExecContains(reg: GroupRegistry, path: string, media: Value, notMin: bool, vendor: bool) returns (r: bool)
    requires reg.Valid()
    ensures r == reg.Contains(StyleArgs(path, media, notMin, vendor))
    ensures HexDigests(reg.hashes) ==> !r
  {
    r := reg.Contains(StyleArgs(path, media, notMin, vendor));
  }

  /** The test `execRemove` applies to each item, with the normalised media type. */
  predicate StyleMatches(item: Item, path: string, mediaInt: int, notMin: bool, vendor: bool)
  {
    && item.path == path
    && item.kind.Style? && item.kind.media == mediaInt
    && item.notMin == notMin
    && item.vendor == vendor
  }

  /**
   * `execRemove`: prepares the group, normalises the media type (which may
   * raise before anything is removed), then removes the first matching item
   * and unsets the crc32b key of the raw arguments.
   */
  method ExecRemove(reg: GroupRegistry, cfg: Config, path: string, media: Value, notMin: bool, vendor: bool)
    returns (r: Result<bool>)
    requires reg.Valid()
    modifies reg
    ensures reg.Valid()
    ensures r.Err? <==> GetMediaType(media, cfg.devMode).Err?
    ensures r.Err? ==> reg.Group() == old(reg.Group()) && reg.reverseKeys == old(reg.reverseKeys)
    ensures r.Ok? ==> var m := GetMediaType(media, cfg.devMode).value;
      && (r.value <==> exists j | 0 <= j < |old(reg.Group())| :: StyleMatches(old(reg.Group())[j], path, m, notMin, vendor))
      && (r.value ==> exists i | 0 <= i < |old(reg.Group())| ::
            && StyleMatches(old(reg.Group())[i], path, m, notMin, vendor)
            && (forall j | 0 <= j < i :: !StyleMatches(old(reg.Group())[j], path, m, notMin, vendor))
            && reg.Group() == RemoveAt(old(reg.Group()), i)
            && reg.reverseKeys == old(reg.reverseKeys) - {ReadKey(reg.hashes, StyleArgs(path, media, notMin, vendor))})
      && (!r.value ==> reg.Group() == old(reg.Group()) && reg.reverseKeys == old(reg.reverseKeys))
    ensures reg.store == PutGroup(old(reg.store), reg.ctrlActionKey, reg.currentGroupName, reg.Group())
    ensures reg.groupOrder == WithOrder(old(reg.groupOrder), reg.ctrlActionKey, reg.currentGroupName)
    ensures reg.currentGroupName == old(reg.currentGroupName)
  {
    ghost var store0, order0 := reg.store, reg.groupOrder;
    var _ := reg.GetGroupStore();
    var mediaInt := GetMediaType(media, cfg.devMode);
    if mediaInt.Err? {
      return Err(mediaInt.message);
    }
    var removed := RemoveStyle(reg, path, mediaInt.value, StyleArgs(path, media, notMin, vendor), notMin, vendor);
    PutAfterEntry(store0, reg.ctrlActionKey, reg.currentGroupName, reg.Group());
    WithOrderTwice(order0, reg.ctrlActionKey, reg.currentGroupName);
    r := Ok(removed);
  }

  /** The removal loop of `execRemove` once the media type is known. */
  method RemoveStyle(reg: GroupRegistry, path: string, m: int, args: seq<Value>, notMin: bool, vendor: bool)
    returns (removed: bool)
    requires reg.Valid()
    modifies reg
    ensures reg.Valid()
    ensures removed <==> exists j | 0 <= j < |old(reg.Group())| :: StyleMatches(old(reg.Group())[j], path, m, notMin, vendor)
    ensures removed ==> exists i | 0 <= i < |old(reg.Group())| ::
              && StyleMatches(old(reg.Group())[i], path, m, notMin, vendor)
              && (forall j | 0 <= j < i :: !StyleMatches(old(reg.Group())[j], path, m, notMin, vendor))
              && reg.Group() == RemoveAt(old(reg.Group()), i)
              && reg.reverseKeys == old(reg.reverseKeys) - {ReadKey(reg.hashes, args)}
    ensures !removed ==> reg.Group() == old(reg.Group()) && reg.reverseKeys == old(reg.reverseKeys)
    ensures reg.store == PutGroup(old(reg.store), reg.ctrlActionKey, reg.currentGroupName, reg.Group())
    ensures reg.groupOrder == WithOrder(old(reg.groupOrder), reg.ctrlActionKey, reg.currentGroupName)
    ensures reg.currentGroupName == old(reg.currentGroupName)
  {
    removed := reg.RemoveFirst(item => StyleMatches(item, path, m, notMin, vendor), args);
  }

  /**
   * `execOffset` for a non-vendor stylesheet: completes the item (which may
   * raise before anything changes), splices it in at `index` and records the
   * md5 key of the raw arguments.
   */
  method ExecOffset(reg: GroupRegistry, cfg: Config, index: int, path: string, media: Value, notMin: bool, render: bool)
    returns (r: Result<Option<string>>)
    requires reg.Valid()
    modifies reg
    ensures reg.Valid()
    ensures r.Err? <==> GetMediaType(media, cfg.devMode).Err?
    ensures r.Err? ==> unchanged(reg)
    ensures r.Ok? ==> var item := StyleItem(cfg, path, GetMediaType(media, cfg.devMode).value, notMin, render);
      && reg.Group() == OffsetSplice(old(reg.Group()), index, item)
      && reg.store == PutGroup(old(reg.store), reg.ctrlActionKey, reg.currentGroupName, reg.Group())
      && reg.reverseKeys == old(reg.reverseKeys) + {WriteKey(reg.hashes, StyleArgs(path, media, notMin, false))}
    ensures reg.currentGroupName == old(reg.currentGroupName)
  {
    var completed := CompleteItem(reg, cfg, path, media, notMin, render);
    if completed.Err? {
      return Err(completed.message);
    }
    reg.Offset(index, completed.value.item, StyleArgs(path, media, notMin, false));
    r := Ok(completed.value.warning);
  }

  /** `execAppend` for a non-vendor stylesheet: the completed item goes last. */
  method ExecAppend(reg: GroupRegistry, cfg: Config, path: string, media: Value, notMin: bool, render: bool)
    returns (r: Result<Option<string>>)
    requires reg.Valid()
    modifies reg
    ensures reg.Valid()
    ensures r.Err? <==> GetMediaType(media, cfg.devMode).Err?
    ensures r.Err? ==> unchanged(reg)
    ensures r.Ok? ==> var item := StyleItem(cfg, path, GetMediaType(media, cfg.devMode).value, notMin, render);
      && reg.Group() == old(reg.Group()) + [item]
      && reg.store == PutGroup(old(reg.store), reg.ctrlActionKey, reg.currentGroupName, reg.Group())
      && reg.reverseKeys == old(reg.reverseKeys) + {WriteKey(reg.hashes, StyleArgs(path, media, notMin, false))}
    ensures reg.currentGroupName == old(reg.currentGroupName)
  {
    var completed := CompleteItem(reg, cfg, path, media, notMin, render);
    if completed.Err? {
      return Err(completed.message);
    }
    reg.Append(completed.value.item, StyleArgs(path, media, notMin, false));
    r := Ok(completed.value.warning);
  }

  /** `execPrepend` for a non-vendor stylesheet: the completed item goes first. */
  method ExecPrepend(reg: GroupRegistry, cfg: Config, path: string, media: Value, notMin: bool, render: bool)
    returns (r: Result<Option<string>>)
    requires reg.Valid()
    modifies reg
    ensures reg.Valid()
    ensures r.Err? <==> GetMediaType(media, cfg.devMode).Err?
    ensures r.Err? ==> unchanged(reg)
    ensures r.Ok? ==> var item := StyleItem(cfg, path, GetMediaType(media, cfg.devMode).value, notMin, render);
      && reg.Group() == [item] + old(reg.Group())
      && reg.store == PutGroup(old(reg.store), reg.ctrlActionKey, reg.currentGroupName, reg.Group())
      && reg.reverseKeys == old(reg.reverseKeys) + {WriteKey(reg.hashes, StyleArgs(path, media, notMin, false))}
    ensures reg.currentGroupName == old(reg.currentGroupName)
  {
    var completed := CompleteItem(reg, cfg, path, media, notMin, render);
    if completed.Err? {
      return Err(completed.message);
    }
    reg.Prepend(completed.value.item, StyleArgs(path, media, notMin, false));
    r := Ok(completed.value.warning);
  }

  /** `$item->media`, for the stylesheet items this helper stores. */
  function MediaOf(item: Item): int
  {
    if item.kind.Style? then item.kind.media else MediaAll
  }

  /** `$mediaTypes[$item->media]`; an undefined index reads as the empty string. */
  function MediaName(media: int): string
  {
    if 0 <= media < |MediaTypes| then MediaTypes[media] else ""
  }

  /** The `media` attribute, written for every media type but `MEDIA_ALL`. */
  function MediaAttribute(media: int): (r: string)
    ensures media == MediaAll <==> r == ""
  {
    if media == MediaAll then "" else " media=\"" + MediaName(media) + "\""
  }

  /** Everything of a `<link>` tag before its href value. */
  function LinkHead(nonce: string, media: int): string
  {
    "<link rel=\"stylesheet\"" + nonce + MediaAttribute(media) + " href=\""
  }

  /** `renderItemSeparated`: the `<link>` tag with the nonce, the media unless `MEDIA_ALL`, and the href last. */
  function LinkTag(nonce: string, media: int, href: string): (r: string)
    ensures LinkHead(nonce, media) + href <= r
    ensures |r| == |LinkHead(nonce, media)| + |href| + 4 && r[|r| - 4..] == "\" />"
    ensures media == MediaAll ==> "<link rel=\"stylesheet\"" + nonce + " href=\"" + href <= r
  {
    LinkHead(nonce, media) + href + "\" />"
  }

  /** `minify`: the minifier's output, or, when it throws, an error in development mode and `''` otherwise. */
  function Minified(env: Env, css: string, path: string): (r: Result<string>)
    ensures r.Err? <==> env.cfg.devMode && env.col.minifyCss(css).None?
    ensures r.Ok? && env.col.minifyCss(css).Some? ==> r.value == env.col.minifyCss(css).value
    ensures r.Ok? && env.col.minifyCss(css).None? ==> r.value == ""
  {
    match env.col.minifyCss(css)
    case Some(m) => Ok(m)
    case None => Raise(env.cfg.devMode, "Unable to minify css: `" + path + "`.", "")
  }

  /** The source `render2TmpGetPathExec` starts from: the executed template, the file, or nothing. */
  function ExecSource(env: Env, fs: FileSystem, item: Item, minify: bool): string
  {
    if item.kind.Style? && item.kind.render then env.col.renderFile(item.fullPath)
    else if minify then ReadContent(fs, item.fullPath)
    else ""
  }

  /**
   * `render2TmpGetPathExec`: the source with its `url()` paths rewritten,
   * then minified when `minify` is set.
   */
  function Render2TmpGetPathExec(env: Env, fs: FileSystem, item: Item, minify: bool): (r: Result<string>)
    ensures var converted := ConvertCssPaths(env.cfg, env.col, ExecSource(env, fs, item, minify), item.path);
      && (!minify ==> r == Ok(converted))
      && (minify ==> r == Minified(env, converted, item.path))
    ensures r.Err? ==> minify && env.cfg.devMode
  {
    var converted := ConvertCssPaths(env.cfg, env.col, ExecSource(env, fs, item, minify), item.path);
    if minify then Minified(env, converted, item.path) else Ok(converted)
  }

  /** Whether `renderItemsSeparated` links the item through a rendered temporary copy. */
  predicate Rendered(item: Item, minify: bool)
  {
    (item.kind.Style? && item.kind.render) || (minify && !item.notMin)
  }

  /** The path an item's href is made from: the rendered copy's path or the item's own path. */
  function HrefPath(env: Env, item: Item, minify: bool): string
  {
    if Rendered(item, minify) then Drop(RenderTmpFullPath(env.cfg, env.h, item.fullPath, item.path), |env.cfg.docRoot|)
    else item.path
  }

  /**
   * The href `renderItemsSeparated` gives an item: the URL of its rendered
   * copy (written from `content` if stale) or of its own path, with the file
   * imprint appended when file checking is on.
   */
  function ItemHref(env: Env, fs: FileSystem, item: Item, minify: bool, content: Result<string>): (r: Result<Written<string>>)
    ensures r.Ok? ==> var url := CssJsFileUrl(env.cfg, env.col, HrefPath(env, item, minify));
      && url <= r.value.value
      && (env.cfg.flags.fileChecking <==> |r.value.value| > |url|)
    ensures r.Err? ==> Rendered(item, minify) && content.Err?
    ensures !Rendered(item, minify) ==> r.Ok? && r.value.fs == fs
  {
    var chosen := if Rendered(item, minify)
      then Render2TmpGetPath(env.cfg, env.h, fs, env.now, item.fullPath, item.path, content)
      else Ok((item.path, fs));
    match chosen
    case Err(e) => Err(e)
    case Ok(p) =>
      var url := CssJsFileUrl(env.cfg, env.col, p.0);
      if env.cfg.flags.fileChecking then
        Ok(Written(AddFileModImprint2HrefUrl(env.h, env.cfg, env.col, p.1, url, item.fullPath), p.1))
      else
        Ok(Written(url, p.1))
  }

  /**
   * The tag `renderItemsSeparated` emits for an item: a `<link>` with the
   * item's media and an href that starts with the URL of the chosen path and
   * carries more exactly when file checking is on.
   */
  predicate SeparatedTagFor(env: Env, item: Item, minify: bool, tag: string)
  {
    var head := LinkHead(env.cfg.styleNonce, MediaOf(item)) + CssJsFileUrl(env.cfg, env.col, HrefPath(env, item, minify));
    && head <= tag
    && (env.cfg.flags.fileChecking <==> |tag| > |head| + 4)
  }

  /** The tag for an item built from an href of the shape `ItemHref` gives. */
  lemma ItemTagFits(env: Env, item: Item, minify: bool, href: string)
    requires var url := CssJsFileUrl(env.cfg, env.col, HrefPath(env, item, minify));
      url <= href && (env.cfg.flags.fileChecking <==> |href| > |url|)
    ensures SeparatedTagFor(env, item, minify, LinkTag(env.cfg.styleNonce, MediaOf(item), href))
  {
    var url := CssJsFileUrl(env.cfg, env.col, HrefPath(env, item, minify));
    var lh := LinkHead(env.cfg.styleNonce, MediaOf(item));
    assert (lh + url) <= (lh + href) by {
      assert href == url + href[|url|..];
      assert lh + href == (lh + url) + href[|url|..];
    }
  }

  /** The tags of the items from the first on, in order, threading the file system. */
  function SeparatedTags(env: Env, fs: FileSystem, items: seq<Item>, minify: bool): Result<Written<seq<string>>>
    decreases |items|
  {
    if items == [] then Ok(Written([], fs))
    else
      match ItemHref(env, fs, items[0], minify, Render2TmpGetPathExec(env, fs, items[0], minify))
      case Err(e) => Err(e)
      case Ok(x) => Prefixed([LinkTag(env.cfg.styleNonce, MediaOf(items[0]), x.value)], SeparatedTags(env, x.fs, items[1..], minify))
  }

  /** Separate rendering fails only in development mode. */
  lemma {:induction false} SeparatedTagsFailOnlyInDevMode(env: Env, fs: FileSystem, items: seq<Item>, minify: bool)
    ensures SeparatedTags(env, fs, items, minify).Err? ==> env.cfg.devMode
    decreases |items|
  {
    if items != [] {
      var href := ItemHref(env, fs, items[0], minify, Render2TmpGetPathExec(env, fs, items[0], minify));
      if href.Ok? {
        SeparatedTagsFailOnlyInDevMode(env, href.value.fs, items[1..], minify);
      } else {
        assert Render2TmpGetPathExec(env, fs, items[0], minify).Err?;
      }
    }
  }

  /** Separate rendering gives one fitting tag per item, in the items' order. */
  lemma {:induction false} SeparatedTagsFit(env: Env, fs: FileSystem, items: seq<Item>, minify: bool)
    ensures var r := SeparatedTags(env, fs, items, minify);
      r.Ok? ==> |r.value.value| == |items| && forall i | 0 <= i < |items| :: SeparatedTagFor(env, items[i], minify, r.value.value[i])
    decreases |items|
  {
    if items != [] {
      var href := ItemHref(env, fs, items[0], minify, Render2TmpGetPathExec(env, fs, items[0], minify));
      if href.Ok? {
        var x := href.value;
        var tag := LinkTag(env.cfg.styleNonce, MediaOf(items[0]), x.value);
        var rest := SeparatedTags(env, x.fs, items[1..], minify);
        assert SeparatedTags(env, fs, items, minify) == Prefixed([tag], rest);
        ItemTagFits(env, items[0], minify, x.value);
        SeparatedTagsFit(env, x.fs, items[1..], minify);
        if rest.Ok? {
          PairwiseCons((it, t) => SeparatedTagFor(env, it, minify, t), items, tag, rest.value.value);
        }
      }
    }
  }

  /** When no item needs a rendered copy, separate rendering succeeds and writes nothing. */
  lemma {:induction false} SeparatedTagsWriteOnlyCopies(env: Env, fs: FileSystem, items: seq<Item>, minify: bool)
    requires forall i | 0 <= i < |items| :: !Rendered(items[i], minify)
    ensures SeparatedTags(env, fs, items, minify).Ok? && SeparatedTags(env, fs, items, minify).value.fs == fs
    decreases |items|
  {
    if items != [] {
      assert !Rendered(items[0], minify);
      assert forall i | 0 <= i < |items[1..]| :: !Rendered(items[1..][i], minify) by {
        forall i | 0 <= i < |items[1..]| ensures !Rendered(items[1..][i], minify) {
          assert items[1..][i] == items[i + 1];
        }
      }
      SeparatedTagsWriteOnlyCopies(env, fs, items[1..], minify);
    }
  }

  /** The begin marker of a stylesheet group. */
  function BeginMarker(groupName: string): string
  {
    "<!-- css group begin: " + groupName + " -->"
  }

  /** The end marker of a stylesheet group. */
  function EndMarker(groupName: string): string
  {
    "<!-- css group end: " + groupName + " -->"
  }

  /** What `renderItemsSeparated` returns and leaves behind. */
  function SeparatedMarkup(env: Env, fs: FileSystem, groupName: string, items: seq<Item>, indent: Indent, minify: bool)
    : (r: Result<Written<string>>)
    ensures r.Err? ==> env.cfg.devMode
    ensures r.Ok? ==> "\n" + IndentOf(indent) <= r.value.value
  {
    SeparatedTagsFailOnlyInDevMode(env, fs, items, minify);
    match SeparatedTags(env, fs, items, minify)
    case Err(e) => Err(e)
    case Ok(w) =>
      Ok(Written(GroupMarkup(IndentOf(indent), WithMarkers(env.cfg.flags.fileRendering, BeginMarker(groupName), EndMarker(groupName), w.value)), w.fs))
  }

  /** One pass of the `renderItemsSeparated` loop, stated on what is left of the items. */
  lemma SeparatedPass(env: Env, fs: FileSystem, items: seq<Item>, i: nat, minify: bool)
    requires i < |items|
    ensures var href := ItemHref(env, fs, items[i], minify, Render2TmpGetPathExec(env, fs, items[i], minify));
      && (href.Err? ==> SeparatedTags(env, fs, items[i..], minify) == Err(href.message))
      && (href.Ok? ==>
            SeparatedTags(env, fs, items[i..], minify)
            == Prefixed([LinkTag(env.cfg.styleNonce, MediaOf(items[i]), href.value.value)], SeparatedTags(env, href.value.fs, items[i + 1..], minify)))
  {
    assert items[i..][0] == items[i];
    assert items[i..][1..] == items[i + 1..];
  }

  /** One pass of the `renderItemsSeparated` loop: the tag of item `i` appended, or the failure. */
  method AppendSeparatedTag(env: Env, fs: FileSystem, items: seq<Item>, i: nat, minify: bool, done: seq<string>)
    returns (r: Result<Written<seq<string>>>)
    requires i < |items|
    ensures r.Err? ==> Prefixed(done, SeparatedTags(env, fs, items[i..], minify)) == Err(r.message)
    ensures r.Ok? ==> Prefixed(done, SeparatedTags(env, fs, items[i..], minify)) == Prefixed(r.value.value, SeparatedTags(env, r.value.fs, items[i + 1..], minify))
  {
    SeparatedPass(env, fs, items, i, minify);
    var href := ItemHref(env, fs, items[i], minify, Render2TmpGetPathExec(env, fs, items[i], minify));
    if href.Err? {
      return Err(href.message);
    }
    var tag := LinkTag(env.cfg.styleNonce, MediaOf(items[i]), href.value.value);
    PrefixedPass(done, tag, SeparatedTags(env, href.value.fs, items[i + 1..], minify));
    r := Ok(Written(done + [tag], href.value.fs));
  }

  /** `renderItemsSeparated`: one tag per item, in order, between the markers. */
  method RenderItemsSeparated(env: Env, fs: FileSystem, groupName: string, items: seq<Item>, indent: Indent, minify: bool)
    returns (r: Result<Written<string>>)
    ensures r == SeparatedMarkup(env, fs, groupName, items, indent, minify)
  {
    var indentStr := IndentString(indent);
    var resultItems: seq<string> := [];
    var files := fs;
    var i := 0;
    assert items[0..] == items;
    PrefixedNothing(SeparatedTags(env, fs, items, minify));
    while i < |items|
      invariant 0 <= i <= |items|
      invariant SeparatedTags(env, fs, items, minify) == Prefixed(resultItems, SeparatedTags(env, files, items[i..], minify))
    {
      var next := AppendSeparatedTag(env, files, items, i, minify, resultItems);
      if next.Err? {
        return Err(next.message);
      }
      resultItems, files := next.value.value, next.value.fs;
      i := i + 1;
    }
    assert items[i..] == [];
    PrefixedAll(resultItems, files);
    r := Ok(Written(GroupMarkup(indentStr, WithMarkers(env.cfg.flags.fileRendering, BeginMarker(groupName), EndMarker(groupName), resultItems)), files));
  }
}
