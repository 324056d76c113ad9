/**
 * Rendering a stylesheet group (CssHelper.php `Render`,
 * `renderItemsTogether`, `renderItemsTogetherAsGroup`): with joining on, the
 * items are bucketed by their rendering signature and each bucket becomes one
 * file in the temporary directory, written only when it is not there yet, and
 * one `<link>` tag pointing at it.
 */
module CssRender {
  import opened Wrappers
  import opened Strings
  import opened Platform
  import opened Disk
  import opened Naming
  import opened Items
  import opened Grouping
  import opened Registry
  import opened CssRewriter
  import opened Markup
  import opened CssHelper

  /** One entry of `$filesGroupInfo`: the path, with the file imprint appended when file checking is on. */
  function InfoEntry(env: Env, fs: FileSystem, item: Item): string
  {
    if env.cfg.flags.fileChecking then item.path + "?_" + Imprint(env.h, env.cfg.imprintMode, fs, item.fullPath)
    else item.path
  }

  /** An item whose source file checking expects but does not find. */
  predicate Missing(env: Env, fs: FileSystem, item: Item)
  {
    env.cfg.flags.fileChecking && item.fullPath !in fs
  }

  /** The message for a source file missing from a joined group. */
  function MissingFileMessage(fullPath: string): string
  {
    "File not found in CSS view rendering process ('" + fullPath + "')."
  }

  /** `$filesGroupInfo` for the items from the first on; a missing source file raises. */
  function InfoList(env: Env, fs: FileSystem, items: seq<Item>): Result<seq<string>>
    decreases |items|
  {
    if items == [] then Ok([])
    else
      var entry := InfoEntry(env, fs, items[0]);
      var head := if Missing(env, fs, items[0]) then Raise(env.cfg.devMode, MissingFileMessage(items[0].fullPath), entry) else Ok(entry);
      match head
      case Err(e) => Err(e)
      case Ok(x) => PrefixedList([x], InfoList(env, fs, items[1..]))
  }

  /**
   * The group information has one entry per item, in order; it fails exactly
   * in development mode when some source file is missing while file checking
   * is on.
   */
  lemma {:induction false} InfoListShape(env: Env, fs: FileSystem, items: seq<Item>)
    ensures var r := InfoList(env, fs, items);
      && (r.Err? <==> env.cfg.devMode && exists i | 0 <= i < |items| :: Missing(env, fs, items[i]))
      && (r.Ok? ==> |r.value| == |items| && forall i | 0 <= i < |items| :: r.value[i] == InfoEntry(env, fs, items[i]))
    decreases |items|
  {
    if items != [] {
      InfoListShape(env, fs, items[1..]);
      var rest := InfoList(env, fs, items[1..]);
      var r := InfoList(env, fs, items);
      assert forall i | 1 <= i < |items| :: items[1..][i - 1] == items[i];
      if env.cfg.devMode && exists i | 0 <= i < |items| :: Missing(env, fs, items[i]) {
        var i :| 0 <= i < |items| && Missing(env, fs, items[i]);
        if i > 0 {
          assert Missing(env, fs, items[1..][i - 1]);
        }
      }
    }
  }

  /** The group information reads only the sources' entries, the configuration and the hashes. */
  lemma {:induction false} InfoListFrame(env: Env, env2: Env, fs: FileSystem, fs2: FileSystem, items: seq<Item>)
    requires env2.cfg == env.cfg && env2.h == env.h
    requires forall i | 0 <= i < |items| :: (items[i].fullPath in fs <==> items[i].fullPath in fs2)
    requires forall i | 0 <= i < |items| && items[i].fullPath in fs :: fs[items[i].fullPath] == fs2[items[i].fullPath]
    ensures InfoList(env2, fs2, items) == InfoList(env, fs, items)
    decreases |items|
  {
    if items != [] {
      assert forall i | 1 <= i < |items| :: items[1..][i - 1] == items[i];
      InfoListFrame(env, env2, fs, fs2, items[1..]);
      assert InfoEntry(env2, fs2, items[0]) == InfoEntry(env, fs, items[0]);
    }
  }

  /** `getTmpFileFullPathByPartFilesInfo(..., 'css')`: the joined file of a group. */
  function GroupFile(env: Env, info: seq<string>, minify: bool): (r: string)
    ensures TmpDir(env.cfg) + "/" <= r
  {
    GroupTmpFileFullPath(env.h, TmpDir(env.cfg), info, minify, "css")
  }

  /** The content one item contributes to a joined file: executed or read, paths rewritten, minified if asked. */
  function PartContent(env: Env, fs: FileSystem, item: Item, minify: bool): (r: Result<string>)
    ensures r.Err? ==> minify && env.cfg.devMode
  {
    var source := if item.kind.Style? && item.kind.render then env.col.renderFile(item.fullPath) else ReadContent(fs, item.fullPath);
    var converted := ConvertCssPaths(env.cfg, env.col, source, item.path);
    if minify then Minified(env, converted, item.path) else Ok(converted)
  }

  /** The parts of the joined file for the items from the first on. */
  function Parts(env: Env, fs: FileSystem, items: seq<Item>, minify: bool): Result<seq<string>>
    decreases |items|
  {
    if items == [] then Ok([])
    else
      match PartContent(env, fs, items[0], minify)
      case Err(e) => Err(e)
      case Ok(c) => PrefixedList([Part(items[0].path, c)], Parts(env, fs, items[1..], minify))
  }

  /** A joined file's parts fail exactly when some item's content does, and only by a minifier in development mode. */
  lemma {:induction false} PartsFailure(env: Env, fs: FileSystem, items: seq<Item>, minify: bool)
    ensures var r := Parts(env, fs, items, minify);
      && (r.Err? <==> exists i | 0 <= i < |items| :: PartContent(env, fs, items[i], minify).Err?)
      && (r.Err? ==> minify && env.cfg.devMode)
    decreases |items|
  {
    if items != [] {
      PartsFailure(env, fs, items[1..], minify);
      if exists i | 0 <= i < |items| :: PartContent(env, fs, items[i], minify).Err? {
        var i :| 0 <= i < |items| && PartContent(env, fs, items[i], minify).Err?;
        if i > 0 {
          assert items[1..][i - 1] == items[i];
        }
      } else {
        assert forall i | 0 <= i < |items[1..]| :: items[1..][i] == items[i + 1];
      }
    }
  }

  /** A joined file holds one part per item, in the items' order, each with the item's own content. */
  lemma {:induction false} PartsContents(env: Env, fs: FileSystem, items: seq<Item>, minify: bool)
    ensures var r := Parts(env, fs, items, minify);
      r.Ok? ==>
        |r.value| == |items|
        && forall i | 0 <= i < |items| ::
             PartContent(env, fs, items[i], minify).Ok? && r.value[i] == Part(items[i].path, PartContent(env, fs, items[i], minify).value)
    decreases |items|
  {
    if items != [] {
      var c := PartContent(env, fs, items[0], minify);
      if c.Ok? {
        var rest := Parts(env, fs, items[1..], minify);
        PartsContents(env, fs, items[1..], minify);
        if rest.Ok? {
          var parts := [Part(items[0].path, c.value)] + rest.value;
          assert Parts(env, fs, items, minify) == Ok(parts);
          forall i | 0 <= i < |items|
            ensures PartContent(env, fs, items[i], minify).Ok? && parts[i] == Part(items[i].path, PartContent(env, fs, items[i], minify).value)
          {
            if i > 0 {
              assert items[1..][i - 1] == items[i];
              assert parts[i] == rest.value[i - 1];
            }
          }
        }
      }
    }
  }

  /** The tag of a joined group: the first item's `<link>` with the group file's URL as href. */
  function GroupTag(env: Env, item: Item, tmp: string): string
  {
    LinkTag(env.cfg.styleNonce, MediaOf(item), CssJsFileUrl(env.cfg, env.col, Drop(tmp, |env.cfg.docRoot|)))
  }

  /** The tag of a joined group starts with the first item's `<link>` head and the group file's URL. */
  lemma GroupTagHead(env: Env, item: Item, tmp: string)
    ensures LinkHead(env.cfg.styleNonce, MediaOf(item)) + CssJsFileUrl(env.cfg, env.col, Drop(tmp, |env.cfg.docRoot|)) <= GroupTag(env, item, tmp)
    ensures LinkHead(env.cfg.styleNonce, MediaOf(item)) <= GroupTag(env, item, tmp)
  {
  }

  /**
   * `renderItemsTogetherAsGroup`: the group's tag, and the file system with
   * the joined file written when file rendering is on and it is not there yet.
   */
  function AsGroup(env: Env, fs: FileSystem, items: seq<Item>, minify: bool): Result<Written<string>>
    requires items != []
  {
    match InfoList(env, fs, items)
    case Err(e) => Err(e)
    case Ok(info) =>
      var tmp := GroupFile(env, info, minify);
      if env.cfg.flags.fileRendering && tmp !in fs then
        match Parts(env, fs, items, minify)
        case Err(e) => Err(e)
        case Ok(parts) => Ok(Written(GroupTag(env, items[0], tmp), fs[tmp := File(env.now, Join("\n\n", parts))]))
      else
        Ok(Written(GroupTag(env, items[0], tmp), fs))
  }

  /**
   * A joined group fails only in development mode; on success its tag points
   * at the group file named after the group information, that file exists
   * whenever file rendering is on, and nothing else on disk changes.
   */
  lemma AsGroupShape(env: Env, fs: FileSystem, items: seq<Item>, minify: bool)
    requires items != []
    ensures var r := AsGroup(env, fs, items, minify);
      && (r.Err? ==> env.cfg.devMode)
      && (r.Ok? ==>
            InfoList(env, fs, items).Ok?
            && var tmp := GroupFile(env, InfoList(env, fs, items).value, minify);
            && r.value.value == GroupTag(env, items[0], tmp)
            && (env.cfg.flags.fileRendering ==> tmp in r.value.fs)
            && (tmp in fs ==> r.value.fs == fs)
            && r.value.fs.Keys <= fs.Keys + {tmp}
            && forall p | p in fs && p != tmp :: p in r.value.fs && r.value.fs[p] == fs[p])
  {
    InfoListShape(env, fs, items);
    PartsFailure(env, fs, items, minify);
  }

  /**
   * Once a group's joined file exists, rendering the group again, at any
   * later time, writes nothing and gives the same tag, provided the group
   * file is none of the group's own sources.
   */
  lemma JoinedFileIsReused(env: Env, fs: FileSystem, items: seq<Item>, minify: bool, later: nat)
    requires items != []
    requires InfoList(env, fs, items).Ok?
    requires forall i | 0 <= i < |items| :: items[i].fullPath != GroupFile(env, InfoList(env, fs, items).value, minify)
    requires AsGroup(env, fs, items, minify).Ok?
    ensures var w := AsGroup(env, fs, items, minify).value;
      AsGroup(env.(now := later), w.fs, items, minify) == Ok(w)
  {
    var w := AsGroup(env, fs, items, minify).value;
    AsGroupShape(env, fs, items, minify);
    var tmp := GroupFile(env, InfoList(env, fs, items).value, minify);
    InfoListFrame(env, env.(now := later), fs, w.fs, items);
  }

  /** The tags of the joined buckets from the first on, threading the file system. */
  function TogetherTags(env: Env, fs: FileSystem, buckets: seq<Bucket>, minify: bool): Result<Written<seq<string>>>
    requires forall i | 0 <= i < |buckets| :: buckets[i].items != []
    decreases |buckets|
  {
    if buckets == [] then Ok(Written([], fs))
    else
      match AsGroup(env, fs, buckets[0].items, minify)
      case Err(e) => Err(e)
      case Ok(x) => Prefixed([x.value], TogetherTags(env, x.fs, buckets[1..], minify))
  }

  /** A joined group's tag carries the media of its first item. */
  lemma AsGroupHead(env: Env, fs: FileSystem, items: seq<Item>, minify: bool)
    requires items != []
    ensures AsGroup(env, fs, items, minify).Ok? ==> LinkHead(env.cfg.styleNonce, MediaOf(items[0])) <= AsGroup(env, fs, items, minify).value.value
  {
    var r := AsGroup(env, fs, items, minify);
    if r.Ok? {
      var info := InfoList(env, fs, items).value;
      GroupTagHead(env, items[0], GroupFile(env, info, minify));
    }
  }

  /** Joined rendering fails only in development mode. */
  lemma {:induction false} TogetherTagsFailOnlyInDevMode(env: Env, fs: FileSystem, buckets: seq<Bucket>, minify: bool)
    requires forall i | 0 <= i < |buckets| :: buckets[i].items != []
    ensures TogetherTags(env, fs, buckets, minify).Err? ==> env.cfg.devMode
    decreases |buckets|
  {
    if buckets != [] {
      AsGroupShape(env, fs, buckets[0].items, minify);
      var x := AsGroup(env, fs, buckets[0].items, minify);
      if x.Ok? {
        TogetherTagsFailOnlyInDevMode(env, x.value.fs, buckets[1..], minify);
      }
    }
  }

  /**
   * Joined rendering gives one `<link>` per bucket, in bucket order, each
   * with the media of the bucket's first item.
   */
  lemma {:induction false} TogetherTagsHeads(env: Env, fs: FileSystem, buckets: seq<Bucket>, minify: bool)
    requires forall i | 0 <= i < |buckets| :: buckets[i].items != []
    ensures var r := TogetherTags(env, fs, buckets, minify);
      r.Ok? ==> Heads(env, buckets, r.value.value)
    decreases |buckets|
  {
    if buckets != [] {
      AsGroupHead(env, fs, buckets[0].items, minify);
      match AsGroup(env, fs, buckets[0].items, minify)
      case Err(_) =>
      case Ok(x) =>
        TogetherTagsHeads(env, x.fs, buckets[1..], minify);
        HeadsCons(env, buckets, x.value, TogetherTags(env, x.fs, buckets[1..], minify));
    }
  }

  /** Every tag starts with the `<link>` head of its bucket's first item. */
  predicate Heads(env: Env, buckets: seq<Bucket>, tags: seq<string>)
  {
    && |tags| == |buckets|
    && forall i | 0 <= i < |buckets| :: buckets[i].items != [] && LinkHead(env.cfg.styleNonce, MediaOf(buckets[i].items[0])) <= tags[i]
  }

  /** One more bucket with a fitting tag in front keeps the heads fitting. */
  lemma HeadsCons(env: Env, buckets: seq<Bucket>, t: string, rest: Result<Written<seq<string>>>)
    requires buckets != [] && buckets[0].items != [] && LinkHead(env.cfg.styleNonce, MediaOf(buckets[0].items[0])) <= t
    requires rest.Ok? ==> Heads(env, buckets[1..], rest.value.value)
    ensures var r := Prefixed([t], rest); r.Ok? ==> Heads(env, buckets, r.value.value)
  {
    if rest.Ok? {
      var ts := rest.value.value;
      forall i | 0 < i < |buckets| ensures buckets[i] == buckets[1..][i - 1] && ([t] + ts)[i] == ts[i - 1] {
      }
    }
  }

  /** What `renderItemsTogether` returns and leaves behind. */
  function TogetherMarkup(env: Env, fs: FileSystem, groupName: string, items: seq<Item>, indent: Indent, minify: bool)
    : (r: Result<Written<string>>)
    ensures r.Err? ==> env.cfg.devMode
    ensures r.Ok? ==> "\n" + IndentOf(indent) <= r.value.value
  {
    var buckets := TogetherBuckets(env.h, items);
    TogetherBucketsNonEmpty(env.h, items);
    TogetherTagsFailOnlyInDevMode(env, fs, buckets, minify);
    match TogetherTags(env, fs, buckets, minify)
    case Err(e) => Err(e)
    case Ok(w) =>
      Ok(Written(GroupMarkup(IndentOf(indent), WithMarkers(env.cfg.flags.fileRendering, BeginMarker(groupName), EndMarker(groupName), w.value)), w.fs))
  }

  /** One pass of the first `renderItemsTogetherAsGroup` loop, stated on what is left of the items. */
  lemma InfoPass(env: Env, fs: FileSystem, items: seq<Item>, i: nat)
    requires i < |items|
    ensures Missing(env, fs, items[i]) && env.cfg.devMode ==> InfoList(env, fs, items[i..]) == Err(MissingFileMessage(items[i].fullPath))
    ensures !(Missing(env, fs, items[i]) && env.cfg.devMode) ==>
      InfoList(env, fs, items[i..]) == PrefixedList([InfoEntry(env, fs, items[i])], InfoList(env, fs, items[i + 1..]))
  {
    assert items[i..][0] == items[i];
    assert items[i..][1..] == items[i + 1..];
  }

  /** The first loop of `renderItemsTogetherAsGroup`: the group information, item by item. */
  method CollectGroupInfo(env: Env, fs: FileSystem, items: seq<Item>) returns (r: Result<seq<string>>)
    ensures r == InfoList(env, fs, items)
  {
    var filesGroupInfo: seq<string> := [];
    var i := 0;
    assert items[0..] == items;
    PrefixedListNothing(InfoList(env, fs, items));
    while i < |items|
      invariant 0 <= i <= |items|
      invariant InfoList(env, fs, items) == PrefixedList(filesGroupInfo, InfoList(env, fs, items[i..]))
    {
      InfoPass(env, fs, items, i);
      var item := items[i];
      var entry: string;
      if env.cfg.flags.fileChecking {
        if item.fullPath !in fs && env.cfg.devMode {
          return Err(MissingFileMessage(item.fullPath));
        }
        entry := item.path + "?_" + Imprint(env.h, env.cfg.imprintMode, fs, item.fullPath);
      } else {
        entry := item.path;
      }
      PrefixedListPass(filesGroupInfo, entry, InfoList(env, fs, items[i + 1..]));
      filesGroupInfo := filesGroupInfo + [entry];
      i := i + 1;
    }
    assert items[i..] == [];
    PrefixedListAll(filesGroupInfo);
    r := Ok(filesGroupInfo);
  }

  /** One pass of the second `renderItemsTogetherAsGroup` loop, stated on what is left of the items. */
  lemma PartsPass(env: Env, fs: FileSystem, items: seq<Item>, i: nat, minify: bool)
    requires i < |items|
    ensures var c := PartContent(env, fs, items[i], minify);
      && (c.Err? ==> Parts(env, fs, items[i..], minify) == Err(c.message))
      && (c.Ok? ==> Parts(env, fs, items[i..], minify) == PrefixedList([Part(items[i].path, c.value)], Parts(env, fs, items[i + 1..], minify)))
  {
    assert items[i..][0] == items[i];
    assert items[i..][1..] == items[i + 1..];
  }

  /** The content of one part, as the second loop of `renderItemsTogetherAsGroup` computes it. */
  method LoadPartContent(env: Env, fs: FileSystem, item: Item, minify: bool) returns (r: Result<string>)
    ensures r == PartContent(env, fs, item, minify)
  {
    var source := if item.kind.Style? && item.kind.render then env.col.renderFile(item.fullPath) else ReadContent(fs, item.fullPath);
    var fileContent := ConvertCssPathsFromRel2TmpAbs(env.cfg, env.col, source, item.path);
    if minify {
      r := Minified(env, fileContent, item.path);
    } else {
      r := Ok(fileContent);
    }
  }

  /** One pass of the second loop of `renderItemsTogetherAsGroup`: the part of item `j` appended, or the failure. */
  method CollectPart(env: Env, fs: FileSystem, items: seq<Item>, j: nat, minify: bool, done: seq<string>) returns (r: Result<seq<string>>)
    requires j < |items|
    ensures r.Err? ==> PrefixedList(done, Parts(env, fs, items[j..], minify)) == r
    ensures r.Ok? ==> PrefixedList(done, Parts(env, fs, items[j..], minify)) == PrefixedList(r.value, Parts(env, fs, items[j + 1..], minify))
  {
    var item := items[j];
    PartsPass(env, fs, items, j, minify);
    var fileContent := LoadPartContent(env, fs, item, minify);
    if fileContent.Err? {
      return Err(fileContent.message);
    }
    PrefixedListPass(done, Part(item.path, fileContent.value), Parts(env, fs, items[j + 1..], minify));
    r := Ok(done + [Part(item.path, fileContent.value)]);
  }

  /** The second loop of `renderItemsTogetherAsGroup`: the parts of the joined file, item by item. */
  method CollectParts(env: Env, fs: FileSystem, items: seq<Item>, minify: bool) returns (r: Result<seq<string>>)
    ensures r == Parts(env, fs, items, minify)
  {
    var resultContents: seq<string> := [];
    var j := 0;
    assert items[0..] == items;
    PrefixedListNothing(Parts(env, fs, items, minify));
    while j < |items|
      invariant 0 <= j <= |items|
      invariant Parts(env, fs, items, minify) == PrefixedList(resultContents, Parts(env, fs, items[j..], minify))
    {
      var next := CollectPart(env, fs, items, j, minify, resultContents);
      if next.Err? {
        return next;
      }
      resultContents := next.value;
      j := j + 1;
    }
    assert items[j..] == [];
    PrefixedListAll(resultContents);
    r := Ok(resultContents);
  }

  /** `renderItemsTogetherAsGroup`: the group information, then the joined file if needed, then the tag. */
  method RenderItemsTogetherAsGroup(env: Env, fs: FileSystem, items: seq<Item>, minify: bool) returns (r: Result<Written<string>>)
    requires items != []
    ensures r == AsGroup(env, fs, items, minify)
  {
    var filesGroupInfo := CollectGroupInfo(env, fs, items);
    if filesGroupInfo.Err? {
      return Err(filesGroupInfo.message);
    }
    var tmpFileFullPath := GroupFile(env, filesGroupInfo.value, minify);
    var files := fs;
    if env.cfg.flags.fileRendering && tmpFileFullPath !in fs {
      var resultContents := CollectParts(env, fs, items, minify);
      if resultContents.Err? {
        return Err(resultContents.message);
      }
      files := fs[tmpFileFullPath := File(env.now, Join("\n\n", resultContents.value))];
    }
    r := Ok(Written(GroupTag(env, items[0], tmpFileFullPath), files));
  }

  /** One pass of a `renderItemsTogether` loop, stated on the buckets left. */
  lemma TogetherPass(env: Env, fs: FileSystem, buckets: seq<Bucket>, k: nat, minify: bool)
    requires forall i | 0 <= i < |buckets| :: buckets[i].items != []
    requires k < |buckets|
    ensures var x := AsGroup(env, fs, buckets[k].items, minify);
      && (x.Err? ==> TogetherTags(env, fs, buckets[k..], minify) == Err(x.message))
      && (x.Ok? ==> TogetherTags(env, fs, buckets[k..], minify) == Prefixed([x.value.value], TogetherTags(env, x.value.fs, buckets[k + 1..], minify)))
  {
    assert buckets[k..][0] == buckets[k];
    assert buckets[k..][1..] == buckets[k + 1..];
  }

  /** One pass of a `renderItemsTogether` loop: the tag of bucket `j` appended, or the failure. */
  method AppendBucketTag(env: Env, fs: FileSystem, buckets: seq<Bucket>, j: nat, minify: bool, done: seq<string>)
    returns (r: Result<Written<seq<string>>>)
    requires forall i | 0 <= i < |buckets| :: buckets[i].items != []
    requires j < |buckets|
    ensures r.Err? ==> Prefixed(done, TogetherTags(env, fs, buckets[j..], minify)) == r
    ensures r.Ok? ==> Prefixed(done, TogetherTags(env, fs, buckets[j..], minify)) == Prefixed(r.value.value, TogetherTags(env, r.value.fs, buckets[j + 1..], minify))
  {
    TogetherPass(env, fs, buckets, j, minify);
    var tag := RenderItemsTogetherAsGroup(env, fs, buckets[j].items, minify);
    if tag.Err? {
      return Err(tag.message);
    }
    PrefixedPass(done, tag.value.value, TogetherTags(env, tag.value.fs, buckets[j + 1..], minify));
    r := Ok(Written(done + [tag.value.value], tag.value.fs));
  }

  /** A `renderItemsTogether` loop: each bucket in turn joined into one tag. */
  method RenderBuckets(env: Env, fs: FileSystem, buckets: seq<Bucket>, minify: bool) returns (r: Result<Written<seq<string>>>)
    requires forall i | 0 <= i < |buckets| :: buckets[i].items != []
    ensures r == TogetherTags(env, fs, buckets, minify)
  {
    var resultItems: seq<string> := [];
    var files := fs;
    var j := 0;
    assert buckets[0..] == buckets;
    PrefixedNothing(TogetherTags(env, fs, buckets, minify));
    while j < |buckets|
      invariant 0 <= j <= |buckets|
      invariant TogetherTags(env, fs, buckets, minify) == Prefixed(resultItems, TogetherTags(env, files, buckets[j..], minify))
    {
      var next := AppendBucketTag(env, files, buckets, j, minify, resultItems);
      if next.Err? {
        return next;
      }
      resultItems, files := next.value.value, next.value.fs;
      j := j + 1;
    }
    assert buckets[j..] == [];
    PrefixedAll(resultItems, files);
    r := Ok(Written(resultItems, files));
  }

  /** Rendering two runs of buckets one after the other renders their concatenation. */
  lemma {:induction false} TogetherTagsConcat(env: Env, fs: FileSystem, xs: seq<Bucket>, ys: seq<Bucket>, minify: bool)
    requires forall i | 0 <= i < |xs| :: xs[i].items != []
    requires forall i | 0 <= i < |ys| :: ys[i].items != []
    ensures forall i | 0 <= i < |xs + ys| :: (xs + ys)[i].items != []
    ensures var first := TogetherTags(env, fs, xs, minify);
      && (first.Err? ==> TogetherTags(env, fs, xs + ys, minify) == first)
      && (first.Ok? ==> TogetherTags(env, fs, xs + ys, minify) == Prefixed(first.value.value, TogetherTags(env, first.value.fs, ys, minify)))
    decreases |xs|
  {
    assert forall i | 0 <= i < |xs + ys| :: (xs + ys)[i] == if i < |xs| then xs[i] else ys[i - |xs|];
    if xs == [] {
      assert xs + ys == ys;
      PrefixedNothing(TogetherTags(env, fs, ys, minify));
    } else {
      assert (xs + ys)[0] == xs[0];
      assert (xs + ys)[1..] == xs[1..] + ys;
      var x := AsGroup(env, fs, xs[0].items, minify);
      if x.Ok? {
        TogetherTagsConcat(env, x.value.fs, xs[1..], ys, minify);
        var rest := TogetherTags(env, x.value.fs, xs[1..], minify);
        if rest.Ok? {
          PrefixedJoin([x.value.value], rest.value.value, TogetherTags(env, rest.value.fs, ys, minify));
        }
      }
    }
  }

  /** `renderItemsTogether`: the buckets not to minify, then those to minify, each joined into one tag. */
  method RenderItemsTogether(env: Env, fs: FileSystem, groupName: string, items: seq<Item>, indent: Indent, minify: bool)
    returns (r: Result<Written<string>>)
    ensures r == TogetherMarkup(env, fs, groupName, items, indent, minify)
  {
    var itemsToRenderMinimized, itemsToRenderSeparately := SeparateItemsToMinifiedGroups(env.h, items);
    var indentStr := IndentString(indent);
    BucketsNonEmpty(env.h, WithNotMin(items, true));
    BucketsNonEmpty(env.h, WithNotMin(items, false));
    var separately := RenderBuckets(env, fs, itemsToRenderSeparately, minify);
    TogetherTagsConcat(env, fs, itemsToRenderSeparately, itemsToRenderMinimized, minify);
    if separately.Err? {
      return Err(separately.message);
    }
    var minimized := RenderBuckets(env, separately.value.fs, itemsToRenderMinimized, minify);
    if minimized.Err? {
      return Err(minimized.message);
    }
    var resultItems := separately.value.value + minimized.value.value;
    r := Ok(Written(GroupMarkup(indentStr, WithMarkers(env.cfg.flags.fileRendering, BeginMarker(groupName), EndMarker(groupName), resultItems)), minimized.value.fs));
  }

  /**
   * `Render`: an empty group renders as nothing; otherwise the group renders
   * joined or separately as `cssJoin` says, minified as `cssMinify` says, and
   * is emptied once rendered. A failure leaves the group's items in place.
   */
  method Render(reg: GroupRegistry, cfg: Config, col: Collaborators, now: nat, fs: FileSystem, indent: Indent)
    returns (r: Result<Written<string>>)
    requires reg.Valid()
    modifies reg
    ensures reg.Valid()
    ensures var env := Env(cfg, col, reg.hashes, now);
      && (old(reg.Group()) == [] ==> r == Ok(Written("", fs)))
      && (old(reg.Group()) != [] && cfg.cssJoin ==>
            r == TogetherMarkup(env, fs, reg.currentGroupName, old(reg.Group()), indent, cfg.cssMinify))
      && (old(reg.Group()) != [] && !cfg.cssJoin ==>
            r == SeparatedMarkup(env, fs, reg.currentGroupName, old(reg.Group()), indent, cfg.cssMinify))
    ensures r.Ok? && old(reg.Group()) != [] ==>
      reg.Group() == [] && reg.store == PutGroup(old(reg.store), reg.ctrlActionKey, reg.currentGroupName, [])
    ensures !(r.Ok? && old(reg.Group()) != []) ==>
      reg.Group() == old(reg.Group()) && reg.store == WithEntry(old(reg.store), reg.ctrlActionKey, reg.currentGroupName)
    ensures reg.groupOrder == WithOrder(old(reg.groupOrder), reg.ctrlActionKey, reg.currentGroupName)
    ensures unchanged(reg`reverseKeys) && unchanged(reg`currentGroupName)
  {
    ghost var store0, order0 := reg.store, reg.groupOrder;
    var currentGroupRecords := reg.GetGroupStore();
    if |currentGroupRecords| == 0 {
      return Ok(Written("", fs));
    }
    var env := Env(cfg, col, reg.hashes, now);
    var minify := cfg.cssMinify;
    if cfg.cssJoin {
      r := RenderItemsTogether(env, fs, reg.currentGroupName, currentGroupRecords, indent, minify);
    } else {
      r := RenderItemsSeparated(env, fs, reg.currentGroupName, currentGroupRecords, indent, minify);
    }
    if r.Err? {
      return;
    }
    reg.SetGroupStore([]);
    PutAfterEntry(store0, reg.ctrlActionKey, reg.currentGroupName, []);
    WithOrderTwice(order0, reg.ctrlActionKey, reg.currentGroupName);
  }
}
