/**
 * Rendering a script group (JsHelper.php `Render`, `renderItemsTogether`,
 * `renderItemsTogetherAsGroup`): with joining on, the scripts are bucketed by
 * their rendering signature and each bucket becomes one file in the temporary
 * directory, written only when it is not there yet, and one `<script>` tag
 * pointing at it. External scripts are first replaced by their downloaded
 * copies.
 */
module JsRender {
  import opened Wrappers
  import opened Strings
  import opened Platform
  import opened Disk
  import opened Naming
  import opened Items
  import opened Grouping
  import opened Registry
  import opened Markup
  import opened JsHelper

  /** The message for a source file missing from a joined group. */
  function MissingFileMessage(fullPath: string): string
  {
    "File not found in JS view rendering process ('" + fullPath + "')."
  }

  /** A script record pointed at its downloaded copy, as the first loop rewrites it. */
  function Relocated(env: Env, item: Item, p: string): Item
  {
    item.(path := p, fullPath := env.cfg.docRoot + p)
  }

  /** What one pass of the first loop yields: the `$filesGroupInfo` entry and the record as the pass leaves it. */
  datatype Info = Info(entry: string, item: Item)

  /**
   * One pass of the first loop: an external script is downloaded, pointed at
   * its copy and always fingerprinted; another script is fingerprinted when
   * file checking is on, when a missing source raises.
   */
  function InfoStep(env: Env, fs: FileSystem, item: Item, minify: bool): Result<Info>
  {
    if External(item) then
      match env.col.download(item.path, minify)
      case Err(e) => Err(e)
      case Ok(p) =>
        var moved := Relocated(env, item, p);
        Ok(Info(moved.path + "?_" + Imprint(env.h, env.cfg.imprintMode, fs, moved.fullPath), moved))
    else if env.cfg.flags.fileChecking then
      var entry := item.path + "?_" + Imprint(env.h, env.cfg.imprintMode, fs, item.fullPath);
      if item.fullPath !in fs then Raise(env.cfg.devMode, MissingFileMessage(item.fullPath), Info(entry, item))
      else Ok(Info(entry, item))
    else Ok(Info(item.path, item))
  }

  /**
   * A pass fails only on a failed download or, in development mode, on a
   * missing source; it keeps the script's flags, and leaves every script
   * that is not external as it was.
   */
  lemma InfoStepShape(env: Env, fs: FileSystem, item: Item, minify: bool)
    ensures var r := InfoStep(env, fs, item, minify);
      && (r.Err? <==> DownloadFails(env, item, minify) || (!External(item) && env.cfg.flags.fileChecking && item.fullPath !in fs && env.cfg.devMode))
      && (r.Ok? ==> r.value.item.kind == item.kind && r.value.item.notMin == item.notMin)
      && (r.Ok? && !External(item) ==> r.value.item == item)
      && (r.Ok? && External(item) ==> r.value.item == Relocated(env, item, env.col.download(item.path, minify).value))
  {
  }

  /** The first loop over the scripts from the first on. */
  function InfoList(env: Env, fs: FileSystem, items: seq<Item>, minify: bool): Result<seq<Info>>
    decreases |items|
  {
    if items == [] then Ok([])
    else
      match InfoStep(env, fs, items[0], minify)
      case Err(e) => Err(e)
      case Ok(x) => PrefixedList([x], InfoList(env, fs, items[1..], minify))
  }

  /** The first loop has one result per script, in order, and fails exactly when one of its passes does. */
  lemma {:induction false} InfoListShape(env: Env, fs: FileSystem, items: seq<Item>, minify: bool)
    ensures var r := InfoList(env, fs, items, minify);
      && (r.Err? <==> exists i | 0 <= i < |items| :: InfoStep(env, fs, items[i], minify).Err?)
      && (r.Ok? ==> |r.value| == |items| && forall i | 0 <= i < |items| :: InfoStep(env, fs, items[i], minify) == Ok(r.value[i]))
    decreases |items|
  {
    if items != [] {
      InfoListShape(env, fs, items[1..], minify);
      assert forall i | 1 <= i < |items| :: items[1..][i - 1] == items[i];
      var x := InfoStep(env, fs, items[0], minify);
      if x.Ok? {
        var rest := InfoList(env, fs, items[1..], minify);
        if rest.Ok? {
          var infos := [x.value] + rest.value;
          assert InfoList(env, fs, items, minify) == Ok(infos);
          forall i | 0 <= i < |items| ensures InfoStep(env, fs, items[i], minify) == Ok(infos[i]) {
            if i > 0 {
              assert infos[i] == rest.value[i - 1];
            }
          }
        } else {
          var i :| 0 <= i < |items[1..]| && InfoStep(env, fs, items[1..][i], minify).Err?;
          assert InfoStep(env, fs, items[i + 1], minify).Err?;
        }
      }
    }
  }

  /** The `$filesGroupInfo` entries of the passes. */
  function Entries(infos: seq<Info>): (r: seq<string>)
    ensures |r| == |infos| && forall i | 0 <= i < |infos| :: r[i] == infos[i].entry
  {
    seq(|infos|, i requires 0 <= i < |infos| => infos[i].entry)
  }

  /** The script records as the first loop leaves them. */
  function Moved(infos: seq<Info>): (r: seq<Item>)
    ensures |r| == |infos| && forall i | 0 <= i < |infos| :: r[i] == infos[i].item
  {
    seq(|infos|, i requires 0 <= i < |infos| => infos[i].item)
  }

  /** `getTmpFileFullPathByPartFilesInfo(..., 'js')`: the joined file of a group. */
  function GroupFile(env: Env, entries: seq<string>, minify: bool): (r: string)
    ensures TmpDir(env.cfg) + "/" <= r
  {
    GroupTmpFileFullPath(env.h, TmpDir(env.cfg), entries, minify, "js")
  }

  /**
   * The part one script contributes to a joined file: an external script is
   * downloaded once more (from the path the first loop gave it) and its copy
   * read; another script is read and, when `minify` is set, minified.
   */
  function PartContent(env: Env, fs: FileSystem, item: Item, minify: bool): Result<string>
  {
    if External(item) then
      match env.col.download(item.path, minify)
      case Err(e) => Err(e)
      case Ok(p) => Ok(Part(p, ReadContent(fs, env.cfg.docRoot + p)))
    else if minify then
      match Minified(env, ReadContent(fs, item.fullPath), item.path)
      case Err(e) => Err(e)
      case Ok(c) => Ok(Part(item.path, c))
    else Ok(Part(item.path, ReadContent(fs, item.fullPath)))
  }

  /** A part fails only on a failed download or, in development mode, on a failed minification. */
  lemma PartContentFailure(env: Env, fs: FileSystem, item: Item, minify: bool)
    ensures PartContent(env, fs, item, minify).Err? <==>
      DownloadFails(env, item, minify) || (!External(item) && minify && env.cfg.devMode && env.col.minifyJs(ReadContent(fs, item.fullPath)).None?)
  {
  }

  /** The parts of the joined file for the scripts from the first on. */
  function Parts(env: Env, fs: FileSystem, items: seq<Item>, minify: bool): Result<seq<string>>
    decreases |items|
  {
    if items == [] then Ok([])
    else
      match PartContent(env, fs, items[0], minify)
      case Err(e) => Err(e)
      case Ok(c) => PrefixedList([c], Parts(env, fs, items[1..], minify))
  }

  /** A joined file holds one part per script, in order, and fails exactly when some script's part does. */
  lemma {:induction false} PartsShape(env: Env, fs: FileSystem, items: seq<Item>, minify: bool)
    ensures var r := Parts(env, fs, items, minify);
      && (r.Err? <==> exists i | 0 <= i < |items| :: PartContent(env, fs, items[i], minify).Err?)
      && (r.Ok? ==> |r.value| == |items| && forall i | 0 <= i < |items| :: PartContent(env, fs, items[i], minify) == Ok(r.value[i]))
    decreases |items|
  {
    if items != [] {
      PartsShape(env, fs, items[1..], minify);
      assert forall i | 1 <= i < |items| :: items[1..][i - 1] == items[i];
      var c := PartContent(env, fs, items[0], minify);
      if c.Ok? {
        var rest := Parts(env, fs, items[1..], minify);
        if rest.Ok? {
          var parts := [c.value] + rest.value;
          assert Parts(env, fs, items, minify) == Ok(parts);
          forall i | 0 <= i < |items| ensures PartContent(env, fs, items[i], minify) == Ok(parts[i]) {
            if i > 0 {
              assert parts[i] == rest.value[i - 1];
            }
          }
        } else {
          var i :| 0 <= i < |items[1..]| && PartContent(env, fs, items[1..][i], minify).Err?;
          assert PartContent(env, fs, items[i + 1], minify).Err?;
        }
      }
    }
  }

  /** The tag of a joined group: the first script's `<script>` with the group file's URL as src. */
  function GroupTag(env: Env, item: Item, tmp: string): string
  {
    TagOf(env, item, CssJsFileUrl(env.cfg, env.col, Drop(tmp, |env.cfg.docRoot|)))
  }

  /** The tag of a joined group starts with the first script's head, which states its `async` and `defer`. */
  lemma GroupTagHead(env: Env, item: Item, tmp: string)
    ensures ScriptHead(env.cfg.scriptNonce, Async(item), Defer(item)) + CssJsFileUrl(env.cfg, env.col, Drop(tmp, |env.cfg.docRoot|)) <= GroupTag(env, item, tmp)
  {
  }

  /**
   * `renderItemsTogetherAsGroup`: the group's tag, and the file system with
   * the joined file written when file rendering is on and it is not there
   * yet. The tag takes its flags from the first script, which the first loop
   * does not change.
   */
  function AsGroup(env: Env, fs: FileSystem, items: seq<Item>, minify: bool): Result<Written<string>>
    requires items != []
  {
    match InfoList(env, fs, items, minify)
    case Err(e) => Err(e)
    case Ok(infos) =>
      var tmp := GroupFile(env, Entries(infos), minify);
      if env.cfg.flags.fileRendering && tmp !in fs then
        match Parts(env, fs, Moved(infos), minify)
        case Err(e) => Err(e)
        case Ok(parts) => Ok(Written(GroupTag(env, items[0], tmp), fs[tmp := File(env.now, Join("\n\n", parts))]))
      else
        Ok(Written(GroupTag(env, items[0], tmp), fs))
  }

  /** Some script of the list is external. */
  predicate AnyExternal(items: seq<Item>)
  {
    exists i | 0 <= i < |items| :: External(items[i])
  }

  /** The scripts as the first loop leaves them are external exactly where the given ones are. */
  lemma MovedKeepsExternal(env: Env, fs: FileSystem, items: seq<Item>, minify: bool)
    requires InfoList(env, fs, items, minify).Ok?
    ensures var moved := Moved(InfoList(env, fs, items, minify).value);
      |moved| == |items| && forall i | 0 <= i < |items| :: moved[i].kind == items[i].kind
  {
    var infos := InfoList(env, fs, items, minify).value;
    InfoListShape(env, fs, items, minify);
    forall i | 0 <= i < |items| ensures Moved(infos)[i].kind == items[i].kind {
      InfoStepShape(env, fs, items[i], minify);
    }
  }

  /** Outside development mode a joined group can fail only through an external script's download. */
  lemma AsGroupFailure(env: Env, fs: FileSystem, items: seq<Item>, minify: bool)
    requires items != []
    ensures AsGroup(env, fs, items, minify).Err? ==> env.cfg.devMode || AnyExternal(items)
  {
    InfoListShape(env, fs, items, minify);
    var info := InfoList(env, fs, items, minify);
    if info.Err? {
      var i :| 0 <= i < |items| && InfoStep(env, fs, items[i], minify).Err?;
      InfoStepShape(env, fs, items[i], minify);
    } else {
      var moved := Moved(info.value);
      PartsShape(env, fs, moved, minify);
      MovedKeepsExternal(env, fs, items, minify);
      if Parts(env, fs, moved, minify).Err? {
        var i :| 0 <= i < |moved| && PartContent(env, fs, moved[i], minify).Err?;
        PartContentFailure(env, fs, moved[i], minify);
        assert External(moved[i]) ==> External(items[i]);
      }
    }
  }

  /**
   * On success a joined group's tag points at the group file named after the
   * group information and carries the first script's flags; that file exists
   * whenever file rendering is on, and nothing else on disk changes.
   */
  lemma AsGroupShape(env: Env, fs: FileSystem, items: seq<Item>, minify: bool)
    requires items != []
    ensures var r := AsGroup(env, fs, items, minify);
      r.Ok? ==>
        && InfoList(env, fs, items, minify).Ok?
        && var tmp := GroupFile(env, Entries(InfoList(env, fs, items, minify).value), minify);
        && r.value.value == GroupTag(env, items[0], tmp)
        && (env.cfg.flags.fileRendering ==> tmp in r.value.fs)
        && (tmp in fs ==> r.value.fs == fs)
        && r.value.fs.Keys <= fs.Keys + {tmp}
        && forall p | p in fs && p != tmp :: p in r.value.fs && r.value.fs[p] == fs[p]
  {
  }

  /** The paths the first loop reads from disk for a script. */
  predicate ReadsOnly(env: Env, item: Item, minify: bool, tmp: string)
  {
    && item.fullPath != tmp
    && (External(item) && env.col.download(item.path, minify).Ok? ==> env.cfg.docRoot + env.col.download(item.path, minify).value != tmp)
  }

  /** A pass reads only the source (or the downloaded copy) of its script. */
  lemma InfoStepFrame(env: Env, fs: FileSystem, item: Item, minify: bool, tmp: string, f: File)
    requires ReadsOnly(env, item, minify, tmp)
    ensures InfoStep(env, fs[tmp := f], item, minify) == InfoStep(env, fs, item, minify)
  {
  }

  /** Writing a file the first loop never reads leaves the group information as it was. */
  lemma {:induction false} InfoListFrame(env: Env, fs: FileSystem, items: seq<Item>, minify: bool, tmp: string, f: File)
    requires forall i | 0 <= i < |items| :: ReadsOnly(env, items[i], minify, tmp)
    ensures InfoList(env, fs[tmp := f], items, minify) == InfoList(env, fs, items, minify)
    decreases |items|
  {
    if items != [] {
      InfoStepFrame(env, fs, items[0], minify, tmp, f);
      assert forall i | 0 <= i < |items[1..]| :: items[1..][i] == items[i + 1];
      InfoListFrame(env, fs, items[1..], minify, tmp, f);
    }
  }

  /**
   * Once a group's joined file exists, rendering the group again, at any
   * later time, writes nothing and gives the same tag, provided the group
   * file is none of the files the first loop reads.
   */
  lemma JoinedFileIsReused(env: Env, fs: FileSystem, items: seq<Item>, minify: bool, later: nat)
    requires items != []
    requires InfoList(env, fs, items, minify).Ok?
    requires var tmp := GroupFile(env, Entries(InfoList(env, fs, items, minify).value), minify);
      forall i | 0 <= i < |items| :: ReadsOnly(env, items[i], minify, tmp)
    requires AsGroup(env, fs, items, minify).Ok?
    ensures var w := AsGroup(env, fs, items, minify).value;
      AsGroup(env.(now := later), w.fs, items, minify) == Ok(w)
  {
    var w := AsGroup(env, fs, items, minify).value;
    var tmp := GroupFile(env, Entries(InfoList(env, fs, items, minify).value), minify);
    AsGroupShape(env, fs, items, minify);
    if tmp !in fs && env.cfg.flags.fileRendering {
      InfoListFrame(env, fs, items, minify, tmp, w.fs[tmp]);
      assert w.fs == fs[tmp := w.fs[tmp]];
    }
    InfoListNow(env, later, w.fs, items, minify);
  }

  /** The group information does not depend on the time files are written at. */
  lemma {:induction false} InfoListNow(env: Env, later: nat, fs: FileSystem, items: seq<Item>, minify: bool)
    ensures InfoList(env.(now := later), fs, items, minify) == InfoList(env, fs, items, minify)
    decreases |items|
  {
    if items != [] {
      assert InfoStep(env.(now := later), fs, items[0], minify) == InfoStep(env, fs, items[0], minify);
      InfoListNow(env, later, fs, items[1..], minify);
    }
  }

  /** The tags of the joined buckets from the first on, threading the file system. */
  function TogetherTags(env: Env, fs: FileSystem, buckets: seq<Bucket>, minify: bool): Result<Written<seq<string>>>
    requires forall i | 0 <= i < |buckets| :: buckets[i].items != []
    decreases |buckets|
  {
    if buckets == [] then Ok(Written([], fs))
    else
      match AsGroup(env, fs, buckets[0].items, minify)
      case Err(e) => Err(e)
      case Ok(x) => Prefixed([x.value], TogetherTags(env, x.fs, buckets[1..], minify))
  }

  /** Some bucket holds an external script. */
  predicate AnyExternalIn(buckets: seq<Bucket>)
  {
    exists i | 0 <= i < |buckets| :: AnyExternal(buckets[i].items)
  }

  /** Outside development mode joined rendering can fail only through an external script's download. */
  lemma {:induction false} TogetherTagsFailure(env: Env, fs: FileSystem, buckets: seq<Bucket>, minify: bool)
    requires forall i | 0 <= i < |buckets| :: buckets[i].items != []
    ensures TogetherTags(env, fs, buckets, minify).Err? ==> env.cfg.devMode || AnyExternalIn(buckets)
    decreases |buckets|
  {
    if buckets != [] {
      AsGroupFailure(env, fs, buckets[0].items, minify);
      var x := AsGroup(env, fs, buckets[0].items, minify);
      if x.Ok? {
        TogetherTagsFailure(env, x.value.fs, buckets[1..], minify);
        if AnyExternalIn(buckets[1..]) {
          var i :| 0 <= i < |buckets[1..]| && AnyExternal(buckets[1..][i].items);
          assert buckets[1..][i] == buckets[i + 1];
        }
      }
    }
  }

  /** Every tag starts with the `<script>` head of its bucket's first script. */
  predicate Heads(env: Env, buckets: seq<Bucket>, tags: seq<string>)
  {
    && |tags| == |buckets|
    && forall i | 0 <= i < |buckets| :: buckets[i].items != [] && ScriptHead(env.cfg.scriptNonce, Async(buckets[i].items[0]), Defer(buckets[i].items[0])) <= tags[i]
  }

  /** One more bucket with a fitting tag in front keeps the heads fitting. */
  lemma HeadsCons(env: Env, buckets: seq<Bucket>, t: string, rest: Result<Written<seq<string>>>)
    requires buckets != [] && buckets[0].items != []
    requires ScriptHead(env.cfg.scriptNonce, Async(buckets[0].items[0]), Defer(buckets[0].items[0])) <= t
    requires rest.Ok? ==> Heads(env, buckets[1..], rest.value.value)
    ensures var r := Prefixed([t], rest); r.Ok? ==> Heads(env, buckets, r.value.value)
  {
    if rest.Ok? {
      var ts := rest.value.value;
      forall i | 0 < i < |buckets| ensures buckets[i] == buckets[1..][i - 1] && ([t] + ts)[i] == ts[i - 1] {
      }
    }
  }

  /** A joined group's tag carries the flags of its first script. */
  lemma AsGroupHead(env: Env, fs: FileSystem, items: seq<Item>, minify: bool)
    requires items != []
    ensures AsGroup(env, fs, items, minify).Ok? ==>
      ScriptHead(env.cfg.scriptNonce, Async(items[0]), Defer(items[0])) <= AsGroup(env, fs, items, minify).value.value
  {
    var r := AsGroup(env, fs, items, minify);
    if r.Ok? {
      var tmp := GroupFile(env, Entries(InfoList(env, fs, items, minify).value), minify);
      GroupTagHead(env, items[0], tmp);
    }
  }

  /** Joined rendering gives one tag per bucket, each with the flags of the bucket's first script. */
  lemma {:induction false} TogetherTagsHeads(env: Env, fs: FileSystem, buckets: seq<Bucket>, minify: bool)
    requires forall i | 0 <= i < |buckets| :: buckets[i].items != []
    ensures var r := TogetherTags(env, fs, buckets, minify);
      r.Ok? ==> Heads(env, buckets, r.value.value)
    decreases |buckets|
  {
    if buckets != [] {
      AsGroupHead(env, fs, buckets[0].items, minify);
      match AsGroup(env, fs, buckets[0].items, minify)
      case Err(_) =>
      case Ok(x) =>
        TogetherTagsHeads(env, x.fs, buckets[1..], minify);
        HeadsCons(env, buckets, x.value, TogetherTags(env, x.fs, buckets[1..], minify));
    }
  }

  /**
   * What `renderItemsTogether` returns and leaves behind: the buckets not to
   * minify, joined without minification, then the buckets to minify, joined
   * with `minify`; the end marker carries the indentation once more.
   */
  function TogetherMarkup(env: Env, fs: FileSystem, groupName: string, items: seq<Item>, indent: Indent, minify: bool)
    : (r: Result<Written<string>>)
  {
    var separately := Bucketize(env.h, WithNotMin(items, true));
    var minimized := Bucketize(env.h, WithNotMin(items, false));
    BucketsNonEmpty(env.h, WithNotMin(items, true));
    BucketsNonEmpty(env.h, WithNotMin(items, false));
    match TogetherTags(env, fs, separately, false)
    case Err(e) => Err(e)
    case Ok(w1) =>
      match TogetherTags(env, w1.fs, minimized, minify)
      case Err(e) => Err(e)
      case Ok(w2) =>
        var indentStr := IndentOf(indent);
        Ok(Written(GroupMarkup(indentStr, WithMarkers(env.cfg.flags.fileRendering, BeginMarker(groupName), indentStr + EndMarker(groupName), w1.value + w2.value)), w2.fs))
  }

  /**
   * Joined rendering fails outside development mode only through an external
   * script; on success the markup starts on a new indented line and holds one
   * tag per bucket, the buckets not to minify first.
   */
  lemma TogetherMarkupShape(env: Env, fs: FileSystem, groupName: string, items: seq<Item>, indent: Indent, minify: bool)
    ensures var r := TogetherMarkup(env, fs, groupName, items, indent, minify);
      && (r.Err? ==> env.cfg.devMode || AnyExternal(items))
      && (r.Ok? ==> "\n" + IndentOf(indent) <= r.value.value)
  {
    var separately := Bucketize(env.h, WithNotMin(items, true));
    var minimized := Bucketize(env.h, WithNotMin(items, false));
    BucketsNonEmpty(env.h, WithNotMin(items, true));
    BucketsNonEmpty(env.h, WithNotMin(items, false));
    TogetherTagsFailure(env, fs, separately, false);
    var first := TogetherTags(env, fs, separately, false);
    if first.Ok? {
      TogetherTagsFailure(env, first.value.fs, minimized, minify);
    }
    var r := TogetherMarkup(env, fs, groupName, items, indent, minify);
    if r.Err? && !env.cfg.devMode {
      if first.Err? {
        ExternalInBuckets(env.h, items, true);
      } else {
        ExternalInBuckets(env.h, items, false);
      }
    }
  }

  /** An item of a bucket is an item of the flattened buckets. */
  lemma {:induction false} InFlatten(bs: seq<Bucket>, i: nat, j: nat)
    requires i < |bs| && j < |bs[i].items|
    ensures bs[i].items[j] in Flatten(bs)
    decreases |bs|
  {
    var last := |bs| - 1;
    if i < last {
      assert bs[..last][i] == bs[i];
      InFlatten(bs[..last], i, j);
    }
  }

  /** An external script in one of the buckets is an external script of the group. */
  lemma ExternalInBuckets(h: Hashes, items: seq<Item>, flag: bool)
    ensures AnyExternalIn(Bucketize(h, WithNotMin(items, flag))) ==> AnyExternal(items)
  {
    var part := WithNotMin(items, flag);
    var bs := Bucketize(h, part);
    if AnyExternalIn(bs) {
      var i :| 0 <= i < |bs| && AnyExternal(bs[i].items);
      var j :| 0 <= j < |bs[i].items| && External(bs[i].items[j]);
      var x := bs[i].items[j];
      InFlatten(bs, i, j);
      BucketizePartition(h, part);
      assert x in multiset(part);
      NotMinPartition(items);
      assert x in multiset(items);
      var k :| 0 <= k < |items| && items[k] == x;
    }
  }

  /** One pass of the first `renderItemsTogetherAsGroup` loop, as the loop computes it. */
  method LoadInfo(env: Env, fs: FileSystem, item: Item, minify: bool) returns (r: Result<Info>)
    ensures r == InfoStep(env, fs, item, minify)
  {
    var moved := item;
    var entry: string;
    if External(item) {
      var downloaded := env.col.download(item.path, minify);
      if downloaded.Err? {
        return Err(downloaded.message);
      }
      moved := item.(path := downloaded.value, fullPath := env.cfg.docRoot + downloaded.value);
      entry := moved.path + "?_" + Imprint(env.h, env.cfg.imprintMode, fs, moved.fullPath);
    } else if env.cfg.flags.fileChecking {
      if item.fullPath !in fs && env.cfg.devMode {
        return Err(MissingFileMessage(item.fullPath));
      }
      entry := item.path + "?_" + Imprint(env.h, env.cfg.imprintMode, fs, item.fullPath);
    } else {
      entry := item.path;
    }
    r := Ok(Info(entry, moved));
  }

  /** One pass of the first loop, stated on what is left of the scripts. */
  lemma InfoPass(env: Env, fs: FileSystem, items: seq<Item>, i: nat, minify: bool)
    requires i < |items|
    ensures var x := InfoStep(env, fs, items[i], minify);
      && (x.Err? ==> InfoList(env, fs, items[i..], minify) == Err(x.message))
      && (x.Ok? ==> InfoList(env, fs, items[i..], minify) == PrefixedList([x.value], InfoList(env, fs, items[i + 1..], minify)))
  {
    assert items[i..][0] == items[i];
    assert items[i..][1..] == items[i + 1..];
  }

  /**
   * The first loop of `renderItemsTogetherAsGroup`: the group information
   * and the scripts as the loop leaves them, script by script.
   */
  method CollectGroupInfo(env: Env, fs: FileSystem, items: seq<Item>, minify: bool) returns (r: Result<seq<Info>>)
    ensures r == InfoList(env, fs, items, minify)
  {
    var infos: seq<Info> := [];
    var i := 0;
    assert items[0..] == items;
    PrefixedListNothing(InfoList(env, fs, items, minify));
    while i < |items|
      invariant 0 <= i <= |items|
      invariant InfoList(env, fs, items, minify) == PrefixedList(infos, InfoList(env, fs, items[i..], minify))
    {
      InfoPass(env, fs, items, i, minify);
      var info := LoadInfo(env, fs, items[i], minify);
      if info.Err? {
        return Err(info.message);
      }
      PrefixedListPass(infos, info.value, InfoList(env, fs, items[i + 1..], minify));
      infos := infos + [info.value];
      i := i + 1;
    }
    assert items[i..] == [];
    PrefixedListAll(infos);
    r := Ok(infos);
  }

  /** One pass of the second loop, stated on what is left of the scripts. */
  lemma PartsPass(env: Env, fs: FileSystem, items: seq<Item>, i: nat, minify: bool)
    requires i < |items|
    ensures var c := PartContent(env, fs, items[i], minify);
      && (c.Err? ==> Parts(env, fs, items[i..], minify) == Err(c.message))
      && (c.Ok? ==> Parts(env, fs, items[i..], minify) == PrefixedList([c.value], Parts(env, fs, items[i + 1..], minify)))
  {
    assert items[i..][0] == items[i];
    assert items[i..][1..] == items[i + 1..];
  }

  /** The part of one script, as the second loop of `renderItemsTogetherAsGroup` computes it. */
  method LoadPartContent(env: Env, fs: FileSystem, item: Item, minify: bool) returns (r: Result<string>)
    ensures r == PartContent(env, fs, item, minify)
  {
    var path := item.path;
    var fileContent: string;
    if External(item) {
      var downloaded := env.col.download(item.path, minify);
      if downloaded.Err? {
        return Err(downloaded.message);
      }
      path := downloaded.value;
      fileContent := ReadContent(fs, env.cfg.docRoot + path);
    } else if minify {
      var minified := Minified(env, ReadContent(fs, item.fullPath), item.path);
      if minified.Err? {
        return Err(minified.message);
      }
      fileContent := minified.value;
    } else {
      fileContent := ReadContent(fs, item.fullPath);
    }
    r := Ok(Part(path, fileContent));
  }

  /** One pass of the second loop: the part of script `j` appended, or the failure. */
  method CollectPart(env: Env, fs: FileSystem, items: seq<Item>, j: nat, minify: bool, done: seq<string>) returns (r: Result<seq<string>>)
    requires j < |items|
    ensures r.Err? ==> PrefixedList(done, Parts(env, fs, items[j..], minify)) == r
    ensures r.Ok? ==> PrefixedList(done, Parts(env, fs, items[j..], minify)) == PrefixedList(r.value, Parts(env, fs, items[j + 1..], minify))
  {
    PartsPass(env, fs, items, j, minify);
    var part := LoadPartContent(env, fs, items[j], minify);
    if part.Err? {
      return Err(part.message);
    }
    PrefixedListPass(done, part.value, Parts(env, fs, items[j + 1..], minify));
    r := Ok(done + [part.value]);
  }

  /** The second loop of `renderItemsTogetherAsGroup`: the parts of the joined file, script by script. */
  method CollectParts(env: Env, fs: FileSystem, items: seq<Item>, minify: bool) returns (r: Result<seq<string>>)
    ensures r == Parts(env, fs, items, minify)
  {
    var resultContents: seq<string> := [];
    var j := 0;
    assert items[0..] == items;
    PrefixedListNothing(Parts(env, fs, items, minify));
    while j < |items|
      invariant 0 <= j <= |items|
      invariant Parts(env, fs, items, minify) == PrefixedList(resultContents, Parts(env, fs, items[j..], minify))
    {
      var next := CollectPart(env, fs, items, j, minify, resultContents);
      if next.Err? {
        return next;
      }
      resultContents := next.value;
      j := j + 1;
    }
    assert items[j..] == [];
    PrefixedListAll(resultContents);
    r := Ok(resultContents);
  }

  /** `renderItemsTogetherAsGroup`: the group information, then the joined file if needed, then the tag. */
  method RenderItemsTogetherAsGroup(env: Env, fs: FileSystem, items: seq<Item>, minify: bool) returns (r: Result<Written<string>>)
    requires items != []
    ensures r == AsGroup(env, fs, items, minify)
  {
    var filesGroupInfo := CollectGroupInfo(env, fs, items, minify);
    if filesGroupInfo.Err? {
      return Err(filesGroupInfo.message);
    }
    var tmpFileFullPath := GroupFile(env, Entries(filesGroupInfo.value), minify);
    var files := fs;
    if env.cfg.flags.fileRendering && tmpFileFullPath !in fs {
      var resultContents := CollectParts(env, fs, Moved(filesGroupInfo.value), minify);
      if resultContents.Err? {
        return Err(resultContents.message);
      }
      files := fs[tmpFileFullPath := File(env.now, Join("\n\n", resultContents.value))];
    }
    r := Ok(Written(GroupTag(env, items[0], tmpFileFullPath), files));
  }

  /** One pass of a `renderItemsTogether` loop, stated on the buckets left. */
  lemma TogetherPass(env: Env, fs: FileSystem, buckets: seq<Bucket>, k: nat, minify: bool)
    requires forall i | 0 <= i < |buckets| :: buckets[i].items != []
    requires k < |buckets|
    ensures var x := AsGroup(env, fs, buckets[k].items, minify);
      && (x.Err? ==> TogetherTags(env, fs, buckets[k..], minify) == Err(x.message))
      && (x.Ok? ==> TogetherTags(env, fs, buckets[k..], minify) == Prefixed([x.value.value], TogetherTags(env, x.value.fs, buckets[k + 1..], minify)))
  {
    assert buckets[k..][0] == buckets[k];
    assert buckets[k..][1..] == buckets[k + 1..];
  }

  /** One pass of a `renderItemsTogether` loop: the tag of bucket `j` appended, or the failure. */
  method AppendBucketTag(env: Env, fs: FileSystem, buckets: seq<Bucket>, j: nat, minify: bool, done: seq<string>)
    returns (r: Result<Written<seq<string>>>)
    requires forall i | 0 <= i < |buckets| :: buckets[i].items != []
    requires j < |buckets|
    ensures r.Err? ==> Prefixed(done, TogetherTags(env, fs, buckets[j..], minify)) == r
    ensures r.Ok? ==> Prefixed(done, TogetherTags(env, fs, buckets[j..], minify)) == Prefixed(r.value.value, TogetherTags(env, r.value.fs, buckets[j + 1..], minify))
  {
    TogetherPass(env, fs, buckets, j, minify);
    var tag := RenderItemsTogetherAsGroup(env, fs, buckets[j].items, minify);
    if tag.Err? {
      return Err(tag.message);
    }
    PrefixedPass(done, tag.value.value, TogetherTags(env, tag.value.fs, buckets[j + 1..], minify));
    r := Ok(Written(done + [tag.value.value], tag.value.fs));
  }

  /** A `renderItemsTogether` loop: each bucket in turn joined into one tag. */
  method RenderBuckets(env: Env, fs: FileSystem, buckets: seq<Bucket>, minify: bool) returns (r: Result<Written<seq<string>>>)
    requires forall i | 0 <= i < |buckets| :: buckets[i].items != []
    ensures r == TogetherTags(env, fs, buckets, minify)
  {
    var resultItems: seq<string> := [];
    var files := fs;
    var j := 0;
    assert buckets[0..] == buckets;
    PrefixedNothing(TogetherTags(env, fs, buckets, minify));
    while j < |buckets|
      invariant 0 <= j <= |buckets|
      invariant TogetherTags(env, fs, buckets, minify) == Prefixed(resultItems, TogetherTags(env, files, buckets[j..], minify))
    {
      var next := AppendBucketTag(env, files, buckets, j, minify, resultItems);
      if next.Err? {
        return next;
      }
      resultItems, files := next.value.value, next.value.fs;
      j := j + 1;
    }
    assert buckets[j..] == [];
    PrefixedAll(resultItems, files);
    r := Ok(Written(resultItems, files));
  }

  /**
   * `renderItemsTogether`: the buckets not to minify, joined without
   * minification, then those to minify, each joined into one tag.
   */
  method RenderItemsTogether(env: Env, fs: FileSystem, groupName: string, items: seq<Item>, indent: Indent, minify: bool)
    returns (r: Result<Written<string>>)
    ensures r == TogetherMarkup(env, fs, groupName, items, indent, minify)
  {
    var itemsToRenderMinimized, itemsToRenderSeparately := SeparateItemsToMinifiedGroups(env.h, items);
    var indentStr := IndentString(indent);
    BucketsNonEmpty(env.h, WithNotMin(items, true));
    BucketsNonEmpty(env.h, WithNotMin(items, false));
    var separately := RenderBuckets(env, fs, itemsToRenderSeparately, false);
    if separately.Err? {
      return Err(separately.message);
    }
    var minimized := RenderBuckets(env, separately.value.fs, itemsToRenderMinimized, minify);
    if minimized.Err? {
      return Err(minimized.message);
    }
    var resultItems := separately.value.value + minimized.value.value;
    r := Ok(Written(GroupMarkup(indentStr, WithMarkers(env.cfg.flags.fileRendering, BeginMarker(groupName), indentStr + EndMarker(groupName), resultItems)), minimized.value.fs));
  }

  /**
   * `Render`: an empty group renders as nothing; otherwise the group renders
   * joined or separately as `jsJoin` says, minified as `jsMinify` says, and
   * is emptied once rendered. A failure leaves the group's scripts in place.
   */
  method Render(reg: GroupRegistry, cfg: Config, col: Collaborators, now: nat, fs: FileSystem, indent: Indent)
    returns (r: Result<Written<string>>)
    requires reg.Valid()
    modifies reg
    ensures reg.Valid()
    ensures var env := Env(cfg, col, reg.hashes, now);
      && (old(reg.Group()) == [] ==> r == Ok(Written("", fs)))
      && (old(reg.Group()) != [] && cfg.jsJoin ==>
            r == TogetherMarkup(env, fs, reg.currentGroupName, old(reg.Group()), indent, cfg.jsMinify))
      && (old(reg.Group()) != [] && !cfg.jsJoin ==>
            r == SeparatedMarkup(env, fs, reg.currentGroupName, old(reg.Group()), indent, cfg.jsMinify))
    ensures r.Ok? && old(reg.Group()) != [] ==>
      reg.Group() == [] && reg.store == PutGroup(old(reg.store), reg.ctrlActionKey, reg.currentGroupName, [])
    ensures !(r.Ok? && old(reg.Group()) != []) ==>
      reg.Group() == old(reg.Group()) && reg.store == WithEntry(old(reg.store), reg.ctrlActionKey, reg.currentGroupName)
    ensures reg.groupOrder == WithOrder(old(reg.groupOrder), reg.ctrlActionKey, reg.currentGroupName)
    ensures unchanged(reg`reverseKeys) && unchanged(reg`currentGroupName)
  {
    ghost var store0, order0 := reg.store, reg.groupOrder;
    var currentGroupRecords := reg.GetGroupStore();
    if |currentGroupRecords| == 0 {
      return Ok(Written("", fs));
    }
    var env := Env(cfg, col, reg.hashes, now);
    var minify := cfg.jsMinify;
    if cfg.jsJoin {
      r := RenderItemsTogether(env, fs, reg.currentGroupName, currentGroupRecords, indent, minify);
    } else {
      r := RenderItemsSeparated(env, fs, reg.currentGroupName, currentGroupRecords, indent, minify);
    }
    if r.Err? {
      return;
    }
    reg.SetGroupStore([]);
    PutAfterEntry(store0, reg.ctrlActionKey, reg.currentGroupName, []);
    WithOrderTwice(order0, reg.ctrlActionKey, reg.currentGroupName);
  }
}
