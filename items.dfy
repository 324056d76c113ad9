/**
 * Registered assets. The helpers store plain records with the fields below
 * (CssHelper.php:465-472, JsHelper.php:440-448); `Item` is that record, shared
 * by stylesheets and scripts through its `kind`. The typed item classes
 * (Item.php, CssItem.php, JsItem.php) are mutable objects whose constructors
 * fill the same fields.
 */
module Items {
  import opened Wrappers

  /** `MEDIA_ALL`, `MEDIA_SCREEN` and `MEDIA_PRINT` (CssHelper.php:25-39). */
  const MediaAll: int := 0
  const MediaScreen: int := 1
  const MediaPrint: int := 2

  /** The attributes that differ between a stylesheet and a script. */
  datatype Kind =
    | Style(media: int, render: bool)
    | Script(async: bool, defer: bool, external: bool)

  /** One registered asset: where it lives, how it is served, and its kind. */
  datatype Item = Item(fullPath: string, path: string, notMin: bool, vendor: bool, kind: Kind)

  /** The base asset item (Item.php). */
  class AssetItem {
    var fullPath: string
    var path: string
    var notMin: bool
    var vendor: bool
    var assetType: string

    /** Stores the four arguments as given and marks the item as a generic asset. */
    constructor (fullPath: string, path: string, notMin: bool, vendor: bool)
      ensures this.fullPath == fullPath && this.path == path
      ensures this.notMin == notMin && this.vendor == vendor
      ensures assetType == "asset"
    {
      this.fullPath := fullPath;
      this.path := path;
      this.notMin := notMin;
      this.vendor := vendor;
      this.assetType := "asset";
    }
  }

  /** A stylesheet item (CssItem.php); `href` is filled in during rendering. */
  class CssItem {
    var fullPath: string
    var path: string
    var notMin: bool
    var vendor: bool
    var assetType: string
    /** A media bit set, stored without validation. */
    var media: int
    var render: bool
    var href: Option<string>

    /** The base fields as given, then `type` overridden to `css`, `render` and `media` as given. */
    constructor (fullPath: string, path: string, notMin: bool, vendor: bool, render: bool, media: int)
      ensures this.fullPath == fullPath && this.path == path
      ensures this.notMin == notMin && this.vendor == vendor
      ensures assetType == "css"
      ensures this.render == render && this.media == media
      ensures href == None
    {
      this.fullPath := fullPath;
      this.path := path;
      this.notMin := notMin;
      this.vendor := vendor;
      this.assetType := "css";
      this.render := render;
      this.media := media;
      this.href := None;
    }
  }

  /** A script item (JsItem.php); `src` is filled in during rendering. */
  class JsItem {
    var fullPath: string
    var path: string
    var notMin: bool
    var vendor: bool
    var assetType: string
    var external: bool
    var async: bool
    var defer: bool
    var src: Option<string>

    /** The base fields as given, then `type` overridden to `js`, the three flags as given. */
    constructor (fullPath: string, path: string, notMin: bool, vendor: bool, external: bool, async: bool, defer: bool)
      ensures this.fullPath == fullPath && this.path == path
      ensures this.notMin == notMin && this.vendor == vendor
      ensures assetType == "js"
      ensures this.external == external && this.async == async && this.defer == defer
      ensures src == None
    {
      this.fullPath := fullPath;
      this.path := path;
      this.notMin := notMin;
      this.vendor := vendor;
      this.assetType := "js";
      this.external := external;
      this.async := async;
      this.defer := defer;
      this.src := None;
    }
  }
}
