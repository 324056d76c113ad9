# Assets view helpers (mvccore/ext-view-helper-assets), modelled in Dafny

The MvcCore assets extension gives views two helpers, `Css()` and `Js()`.
Each keeps a store of stylesheet or script records:
- the store is grouped by the dispatched controller/action key, then by a group name;
- records are registered through `Append`, `Prepend`, `Offset` and `Remove`;
- `Render()` turns a group into `<link>` or `<script>` tags.

Depending on the compile mode (`initCommonProps`), rendering does some of the following:
- checks the source files and fingerprints URLs with a modification time or an md5 digest;
- writes rendered, minified or joined copies into a temporary directory and reuses them while they are fresh;
- rewrites the relative `url(../…)` paths of stylesheets so that they still resolve from the temporary directory.

The project models these modules:
- the shared base class (`Assets.php`): group store, reverse keys, temporary file names, freshness rules, group buckets, indentation;
- both helpers (`CssHelper.php`, `JsHelper.php`): registration, media types, duplicate detection, separate and joined rendering, and the stylesheet path rewriter;
- the record classes (`Item.php`, `CssItem.php`, `JsItem.php`).

The modules are:

- `Wrappers`: `Result` and `Option`, and `Raise`, which models the helpers' `exception()`: it throws only in development mode.
- `Strings`: the PHP string functions the code relies on (`strpos`, `strrpos`, `trim`, `str_replace`, `explode`, `implode`).
- `Platform`: the configuration, the compile-mode switches, and the collaborators the helpers call but do not define. The collaborators are hash functions, minifiers, the template renderer, `realpath`, `date` and the view's `AssetUrl`; they are passed in as function values.
- `Disk`: the file system as a map from path to (modification time, content), passed along explicitly; the current time is a parameter.
- `Items`: the `Item`/`CssItem`/`JsItem` classes, and the `stdClass` record the helpers actually store (a datatype).
- `Naming`, `Freshness`, `Grouping`, `Markup`: temporary file names, the "copy is stale" rule, the bucketing of a group into joinable runs, and the markup around tags.
- `Registry`: the group store and its reverse keys, as a class whose methods update it in place.
- `CssRewriter`, `CssHelper`, `CssRender`, `JsHelper`, `JsRender`: the two helpers.

Methods with loops are proved against functions that specify them, and the properties are lemmas about those functions.

`JsRender` repeats the joined-rendering loops of `CssRender` member for member (`GroupFile`, `CollectParts`, `AppendBucketTag`, `RenderBuckets`, `TogetherPass`, `HeadsCons`), because JsHelper.php repeats those loops of CssHelper.php over script records.

## Model

| member | source | states |
|---|---|---|
| Wrappers.Raise | src/MvcCore/Ext/Views/Helpers/Assets.php:793-796 | an exception is an error exactly in development mode; otherwise execution goes on with the fallback value |
| Platform.DeriveFlags | src/MvcCore/Ext/Views/Helpers/Assets.php:423-437 | file checking exactly in development; file rendering in development and single-file-URL mode; URL completion in every compiled mode except strict HDD |
| Platform.CheckingImpliesRendering | src/MvcCore/Ext/Views/Helpers/Assets.php:423-428 | whenever sources are checked, temporary files are rendered too |
| Platform.CompletionExcludesChecking | src/MvcCore/Ext/Views/Helpers/Assets.php:423-437 | query-string asset URLs never occur together with source checking |
| Platform.TmpDir | src/MvcCore/Ext/Views/Helpers/Assets.php:746-761 | a `~/` option is resolved under the document root; any other option is used as given |
| Platform.AssetUrl | src/MvcCore/Ext/Views/Helpers/Assets.php:280-291 | with URL completion, the asset controller URL carrying the path; otherwise the relative base path placeholder followed by the path |
| Platform.AssetUrlResolvesUpwards | src/MvcCore/Ext/Views/Helpers/Assets.php:280-291 | once the placeholder is replaced by `../..`, an uncompleted asset URL climbs two directories from the temporary file |
| Platform.CssJsFileUrl | src/MvcCore/Ext/Views/Helpers/Assets.php:313-323 | with URL completion the view's asset URL; otherwise the base path followed by the path |
| Disk.ReadContent | src/MvcCore/Ext/Views/Helpers/CssHelper.php:687 | the content of an existing file, and the empty string for a missing one |
| Disk.MTimeOrZero | src/MvcCore/Ext/Views/Helpers/Assets.php:617-625 | the modification time of an existing file, and 0 for a missing one |
| Disk.Imprint | src/MvcCore/Ext/Views/Helpers/Assets.php:448-455 | the decimal modification time or the md5 digest of the content, according to the checking function; empty for a missing file, and non-empty otherwise |
| Items.AssetItem.constructor | src/MvcCore/Ext/Views/Helpers/Assets/Item.php:57-63 | stores the four fields as given, with type `asset` |
| Items.CssItem.constructor | src/MvcCore/Ext/Views/Helpers/CssHelpers/CssItem.php:44-49 | the base fields as given, type `css`, and the render flag and media as given |
| Items.JsItem.constructor | src/MvcCore/Ext/Views/Helpers/JsHelpers/JsItem.php:52-58 | the base fields as given, type `js`, and the three flags as given |
| Naming.SanitizedPath | src/MvcCore/Ext/Views/Helpers/Assets.php:660-673 | the sanitized path contains no `/` and neither starts nor ends with `_` |
| Naming.FlattenedHasNoSlash | src/MvcCore/Ext/Views/Helpers/Assets.php:671 | replacing every `/` by `_` and then trimming leaves no `/` |
| Naming.TmpFileName | src/MvcCore/Ext/Views/Helpers/Assets.php:660-673 | a leading `/` followed by the single segment of prefix, hash and sanitized path |
| Naming.TmpFileNameIsOneSegment | src/MvcCore/Ext/Views/Helpers/Assets.php:660-673 | a temporary file name has one `/`, at its start, so every temporary file lies directly in the temporary directory; the segment starts with the prefix and ends with the sanitized path |
| Naming.SegmentShape | src/MvcCore/Ext/Views/Helpers/Assets.php:668-672 | joining three slash-free parts by `_` gives a slash-free segment that keeps both ends |
| Naming.HexHasNoSlash | src/MvcCore/Ext/Views/Helpers/Assets.php:664-667 | a hexadecimal digest contains no path separator |
| Naming.GroupTmpFileFullPath | src/MvcCore/Ext/Views/Helpers/Assets.php:826-833 | the path starts with the temporary directory and `/` and ends with `.` and the extension |
| Naming.GroupFileSeparatesMinified | src/MvcCore/Ext/Views/Helpers/Assets.php:826-833 | a minified group and a merely rendered group never share a file |
| Naming.GroupFileInTmpDir | src/MvcCore/Ext/Views/Helpers/Assets.php:826-833 | a group file lies directly in the temporary directory and ends with its extension |
| Naming.AddFileModImprint2HrefUrl | src/MvcCore/Ext/Views/Helpers/Assets.php:617-630 | the URL is kept as a prefix; `?` is added when it has no query yet and `&` otherwise; then `_fmt=` with the formatted time, or `_md5=` with the digest |
| Naming.IndentOf | src/MvcCore/Ext/Views/Helpers/Assets.php:637-652 | a positive count gives that many tabs, a string is used as it is, anything else gives nothing |
| Naming.IndentString | src/MvcCore/Ext/Views/Helpers/Assets.php:637-652 | the tab loop builds exactly the indentation `IndentOf` describes |
| Naming.KeptSegments | src/MvcCore/Ext/Views/Helpers/Assets.php:729-732 | the smaller of the segment count and the maximum, and none for a negative maximum |
| Naming.SignificantPathPartFromFullPath | src/MvcCore/Ext/Views/Helpers/Assets.php:729-738 | collecting the segments backwards and then reversing them gives `/` followed by the last kept segments, in order |
| Naming.LastSegmentsBackwards | src/MvcCore/Ext/Views/Helpers/Assets.php:733-734 | the loop collects exactly the last `partsCount` segments, the last one first |
| Naming.SignificantPathPartIsSuffix | src/MvcCore/Ext/Views/Helpers/Assets.php:729-738 | with at least one segment kept, the part starts with `/` and is a suffix of the normalised path; with every segment kept, it is the whole path behind a `/` |
| Freshness.SourceMTime | src/MvcCore/Ext/Views/Helpers/Assets.php:586-590 | a missing source counts as modified at time 1 |
| Freshness.Render2TmpGetPath | src/MvcCore/Ext/Views/Helpers/Assets.php:582-609 | the content is written at `now` only when rendering is on and the copy is stale; no other file changes; the path of the copy is returned |
| Freshness.RenderedCopyIsFresh | src/MvcCore/Ext/Views/Helpers/Assets.php:592-601 | a copy rendered no earlier than its source was modified is not written again |
| Freshness.TouchedSourceRegenerates | src/MvcCore/Ext/Views/Helpers/Assets.php:582-609 | modifying a source after its copy makes the next render rewrite the copy |
| Freshness.RenderedPathUnderDocRoot | src/MvcCore/Ext/Views/Helpers/Assets.php:607-608 | with a `~/` temporary directory, the returned path is the full path without the document root |
| Freshness.MoveFile | src/MvcCore/Ext/Views/Helpers/Assets.php:683-716 | a stale copy is unlinked and copied again; a refused unlink or copy raises in development mode; a fresh copy is left alone |
| Freshness.Move2TmpGetPath | src/MvcCore/Ext/Views/Helpers/Assets.php:683-721 | returns whether a copy was made and the copy's path without the document root; the files change as `MoveFile` states |
| Freshness.MovedCopyIsFresh | src/MvcCore/Ext/Views/Helpers/Assets.php:683-721 | a copy made no earlier than its source's modification is not copied again |
| Vendor.CompleteVendorAsWritten | src/MvcCore/Ext/Views/Helpers/CssHelper.php:461-467 | the vendor branch as written: fails exactly when the move fails; otherwise the record's path is not a string, and with a `~/` temporary directory its full path is not the moved copy |
| Vendor.CopyIsNotArray | src/MvcCore/Ext/Views/Helpers/Assets.php:717-720 | with a `~/` temporary directory the moved copy is never the document root followed by `Array` |
| Vendor.CompleteVendor | src/MvcCore/Ext/Views/Helpers/JsHelper.php:436-442 | the vendor branch as intended: fails exactly when the move fails; otherwise a vendor record whose path is the returned path, and with a `~/` temporary directory its full path is the moved copy |
| Vendor.VendorItemReadsCopy | src/MvcCore/Ext/Views/Helpers/Assets.php:683-721 | when the move made a copy, the intended record's full path names a file with the vendor source's content |
| Markup.Part | src/MvcCore/Ext/Views/Helpers/CssHelper.php:615 | a part starts with a comment naming the source and ends with its content |
| Markup.WithMarkers | src/MvcCore/Ext/Views/Helpers/CssHelper.php:555-569 | the tags are kept in order; the begin and end markers surround them exactly when file rendering is on |
| Markup.GroupMarkup | src/MvcCore/Ext/Views/Helpers/CssHelper.php:571 | the markup starts with a line break and the indentation |
| Markup.GroupMarkupIsLines | src/MvcCore/Ext/Views/Helpers/CssHelper.php:571 | the markup equals an independent definition: every tag on its own indented line, in order |
| Registry.GroupOf | src/MvcCore/Ext/Views/Helpers/Assets.php:462-470 | the stored group, or the empty list for a missing entry |
| Registry.PutGroup | src/MvcCore/Ext/Views/Helpers/Assets.php:485-494 | the group holds the new items; the missing keys are created; every other action and group is unchanged |
| Registry.WithEntry | src/MvcCore/Ext/Views/Helpers/Assets.php:462-470 | the entry exists afterwards, every group reads the same as before, and a present entry leaves the store unchanged |
| Registry.PutGroupTwice | src/MvcCore/Ext/Views/Helpers/Assets.php:485-494 | storing twice into one group is the same as storing only the second list |
| Registry.PutAfterEntry | src/MvcCore/Ext/Views/Helpers/Assets.php:462-494 | preparing the entry before storing changes nothing about the store |
| Registry.WithOrder | src/MvcCore/Ext/Views/Helpers/Assets.php:462-470 | a group name is appended to its action's insertion order on first use, and is never repeated |
| Registry.WithOrderTwice | src/MvcCore/Ext/Views/Helpers/Assets.php:462-470 | recording a group name twice is the same as recording it once |
| Registry.PutGroupKeepsOrder | src/MvcCore/Ext/Views/Helpers/Assets.php:485-494 | storing a group and recording its name keeps the order an exact, repetition-free list of the store's groups |
| Registry.ReadKey | src/MvcCore/Ext/Views/Helpers/Assets.php:476-478 | the lookup key has 8 hex digits (crc32b) |
| Registry.WriteKey | src/MvcCore/Ext/Views/Helpers/Assets.php:522-526 | the recorded key has 32 hex digits (md5) |
| Registry.OffsetInserts | src/MvcCore/Ext/Views/Helpers/CssHelper.php:389-404 | for a non-negative index, the item lands at the smaller of the index and the length, and nothing else moves, goes or is duplicated |
| Registry.NegativeOffsetDropsItems | src/MvcCore/Ext/Views/Helpers/CssHelper.php:389-404 | a negative index yields the new item followed by only the last `-index` items, so earlier items are lost |
| Registry.RemoveAt | src/MvcCore/Ext/Views/Helpers/Assets.php:502-514 | the list loses exactly the item at the index; the items before and after keep their order |
| Registry.FindFirst | src/MvcCore/Ext/Views/Helpers/CssHelper.php:361-373 | the index of the first item that matches, or none exactly when no item matches |
| Registry.LastGroupWithSpec | src/MvcCore/Ext/Views/Helpers/CssHelper.php:502-514 | the named group holds the path and no later group does; none is named exactly when no group holds it |
| Registry.GroupRegistry.constructor | src/MvcCore/Ext/Views/Helpers/Assets.php:57-69 | an empty store, no reverse keys, and the default group name |
| Registry.GroupRegistry.GetGroupStore | src/MvcCore/Ext/Views/Helpers/Assets.php:462-470 | returns the selected group's items and creates its entry when missing; nothing else changes |
| Registry.GroupRegistry.SelectGroup | src/MvcCore/Ext/Views/Helpers/CssHelper.php:63-67 | selects the group and prepares its entry; the items already there are kept |
| Registry.GroupRegistry.SetGroupStore | src/MvcCore/Ext/Views/Helpers/Assets.php:485-494 | the selected group now holds the items; every other group and the reverse keys are unchanged |
| Registry.GroupRegistry.UnsetGroupStore | src/MvcCore/Ext/Views/Helpers/Assets.php:502-514 | reports true exactly when the index is in range, and only then removes that item |
| Registry.GroupRegistry.SetUpGroupStoreReverseKey | src/MvcCore/Ext/Views/Helpers/Assets.php:522-526 | adds the md5 key of the arguments and touches nothing else |
| Registry.GroupRegistry.UnsetReverseKey | src/MvcCore/Ext/Views/Helpers/CssHelper.php:369-370 | removes the crc32b key; with hex digests this leaves the recorded keys as they were |
| Registry.GroupRegistry.Contains | src/MvcCore/Ext/Views/Helpers/CssHelper.php:342-345 | with hex digests the answer is always no |
| Registry.GroupRegistry.Offset | src/MvcCore/Ext/Views/Helpers/CssHelper.php:391-403 | the group becomes the spliced list and the md5 key is recorded |
| Registry.GroupRegistry.Append | src/MvcCore/Ext/Views/Helpers/CssHelper.php:419-421 | the item goes last and the md5 key is recorded |
| Registry.GroupRegistry.Prepend | src/MvcCore/Ext/Views/Helpers/CssHelper.php:438-440 | the item goes first and the md5 key is recorded |
| Registry.GroupRegistry.RemoveFirst | src/MvcCore/Ext/Views/Helpers/CssHelper.php:358-374 | removes an item exactly when one matches, and then removes the first match and unsets the crc32b key; otherwise the group and keys are unchanged |
| Registry.GroupRegistry.IsDuplicate | src/MvcCore/Ext/Views/Helpers/CssHelper.php:502-514 | the last group of the action, in insertion order, that holds the path with the vendor flag; none for an unknown action |
| Registry.GroupHasPath | src/MvcCore/Ext/Views/Helpers/CssHelper.php:506-511 | whether some item of the group has the path and the vendor flag |
| Registry.AppendThenLookUp | src/MvcCore/Ext/Views/Helpers/CssHelper.php:342-345 | after `execAppend` with the same arguments, `execContains` as written answers no and the lookup by the md5 key the registration wrote answers yes |
| Registry.PrependThenLookUp | src/MvcCore/Ext/Views/Helpers/CssHelper.php:342-345 | the same after `execPrepend` |
| Registry.OffsetThenLookUp | src/MvcCore/Ext/Views/Helpers/CssHelper.php:342-345 | the same after `execOffset`, at any index |
| Grouping.BucketKeyIgnoresLocation | src/MvcCore/Ext/Views/Helpers/Assets.php:547-553 | records that agree on `notMin` and on media (or on async and defer) share a key, wherever they live and whatever their render, vendor and external flags |
| Grouping.Find | src/MvcCore/Ext/Views/Helpers/Assets.php:555-565 | the index of the bucket with the key, or none exactly when no bucket has it |
| Grouping.WithNotMin | src/MvcCore/Ext/Views/Helpers/Assets.php:554 | every kept item has the requested `notMin` flag |
| Grouping.BucketizeSnoc | src/MvcCore/Ext/Views/Helpers/Assets.php:546-567 | bucketing one more item adds it to the buckets of the others |
| Grouping.BucketizeStep | src/MvcCore/Ext/Views/Helpers/Assets.php:546-567 | the buckets of a side grow by the next item exactly when the item belongs to that side |
| Grouping.AddToBucketMap | src/MvcCore/Ext/Views/Helpers/Assets.php:555-565 | appends to the existing bucket with the key, or opens a new one at the end |
| Grouping.SeparateItemsToMinifiedGroups | src/MvcCore/Ext/Views/Helpers/Assets.php:542-572 | returns the buckets of the items with `notMin` false and the buckets of those with `notMin` true |
| Grouping.BucketizeSpec | src/MvcCore/Ext/Views/Helpers/Assets.php:546-567 | the bucket keys are the items' keys in first-seen order without repeats; each bucket holds exactly the items with its key, in input order, and is never empty |
| Grouping.AddToBucketsContents | src/MvcCore/Ext/Views/Helpers/Assets.php:555-565 | adding an item adds exactly that item to the buckets' contents |
| Grouping.BucketizePartition | src/MvcCore/Ext/Views/Helpers/Assets.php:546-567 | bucketing neither loses nor duplicates an item |
| Grouping.NotMinPartition | src/MvcCore/Ext/Views/Helpers/Assets.php:554-566 | every item goes to exactly one of the two sides |
| Grouping.BucketsNonEmpty | src/MvcCore/Ext/Views/Helpers/Assets.php:555-565 | no bucket is empty |
| Grouping.BucketsKeyed | src/MvcCore/Ext/Views/Helpers/Assets.php:555-565 | every item of a bucket carries the bucket's key |
| Grouping.TogetherBucketsNonEmpty | src/MvcCore/Ext/Views/Helpers/CssHelper.php:559-566 | every bucket that joined rendering renders is non-empty, so its first item exists |
| Grouping.TogetherBucketsKeyed | src/MvcCore/Ext/Views/Helpers/CssHelper.php:559-566 | every bucket that joined rendering renders shares one key |
| Grouping.TogetherBucketsPartition | src/MvcCore/Ext/Views/Helpers/CssHelper.php:546-572 | joined rendering covers every item of the group exactly once |
| CssRewriter.Classify | src/MvcCore/Ext/Views/Helpers/CssHelper.php:727-760 | which test decides a pass, with the found `../`, `url(` and `)` indices in range and in order |
| CssRewriter.Unquote | src/MvcCore/Ext/Views/Helpers/CssHelper.php:769-780 | a body wrapped in `"` or in `'` loses that quote and keeps it for the result; any other body is kept whole and gets `"` |
| CssRewriter.UnquoteQuoted | src/MvcCore/Ext/Views/Helpers/CssHelper.php:772-777 | a path wrapped in `"` or `'` unquotes to that path and that quote |
| CssRewriter.UnquoteUnquoted | src/MvcCore/Ext/Views/Helpers/CssHelper.php:778-780 | a body not wrapped in a matching pair of quotes is kept whole and gets `"` |
| CssRewriter.Splice | src/MvcCore/Ext/Views/Helpers/CssHelper.php:796-801 | the position lands past the start of the body and both quotes, and the text after it is as long as what followed the `)`; `CssRewriter.SpliceShape` states that it is that text |
| CssRewriter.SpliceShape | src/MvcCore/Ext/Views/Helpers/CssHelper.php:796-801 | only the body is replaced; the position lands just after the `)` |
| CssRewriter.Replaced | src/MvcCore/Ext/Views/Helpers/CssHelper.php:766-801 | the position lands past the `url(` and both quotes, and the text after it is as long as what followed the `)`; `CssRewriter.ReplacedQuote` states that it is that text |
| CssRewriter.ReplacedQuote | src/MvcCore/Ext/Views/Helpers/CssHelper.php:769-780 | the new body is quoted with `'` exactly when the old one was, and with `"` otherwise |
| CssRewriter.Step | src/MvcCore/Ext/Views/Helpers/CssHelper.php:727-802 | a pass ends the loop exactly when no `../` is left; every other pass shortens the text left to scan, except the pass at line 744 as written |
| CssRewriter.HrefDirectory | src/MvcCore/Ext/Views/Helpers/CssHelper.php:721-723 | none exactly when the href has no `/`; otherwise the prefix of the href up to and including its last `/` |
| CssRewriter.ConvertCssPaths | src/MvcCore/Ext/Views/Helpers/CssHelper.php:720-805 | an href without `/` leaves the content unchanged (the placeholder guarantee is `NoPlaceholderLeft`) |
| CssRewriter.PlacementDisjoint | src/MvcCore/Ext/Views/Helpers/CssHelper.php:804 | the placeholder and `../..` share no character |
| CssRewriter.NoPlaceholderLeft | src/MvcCore/Ext/Views/Helpers/CssHelper.php:804 | once the href has a directory, no base path placeholder is left in the result |
| CssRewriter.ConvertCssPathsFromRel2TmpAbs | src/MvcCore/Ext/Views/Helpers/CssHelper.php:720-805 | the scanning loop terminates and computes `ConvertCssPaths` |
| CssRewriter.ScanPass | src/MvcCore/Ext/Views/Helpers/CssHelper.php:727-802 | one loop pass computes the corrected `Step` |
| CssRewriter.ScanPassFromUrl | src/MvcCore/Ext/Views/Helpers/CssHelper.php:740-760 | the rest of a pass, once `url(` is found, computes the corrected `Step` |
| CssRewriter.ScanPassFromClose | src/MvcCore/Ext/Views/Helpers/CssHelper.php:754-801 | the end of a pass, once the `)` is found, computes the corrected `Step` |
| CssRewriter.StepPastClose | src/MvcCore/Ext/Views/Helpers/CssHelper.php:754-760 | a body that is not a path is skipped up to past its `)` |
| CssRewriter.StepReplaces | src/MvcCore/Ext/Views/Helpers/CssHelper.php:766-801 | a `url(../…)` body is replaced |
| CssRewriter.ClassifyWithoutDoubleDots | src/MvcCore/Ext/Views/Helpers/CssHelper.php:728-729 | with no `../` left, the pass ends the loop |
| CssRewriter.ClassifyWithoutUrl | src/MvcCore/Ext/Views/Helpers/CssHelper.php:734-737 | with no `url(` before the `../`, the pass skips the `../` |
| CssRewriter.ClassifyNotUrlStart | src/MvcCore/Ext/Views/Helpers/CssHelper.php:740-745 | other characters between `url(` and `../` select the branch at line 744 |
| CssRewriter.ClassifyWithoutClose | src/MvcCore/Ext/Views/Helpers/CssHelper.php:748-752 | with no `)` after the `../`, the pass skips the `../` |
| CssRewriter.ClassifyNotUrlEnd | src/MvcCore/Ext/Views/Helpers/CssHelper.php:755-760 | characters other than path characters before the `)` skip the body |
| CssRewriter.ClassifyRewrite | src/MvcCore/Ext/Views/Helpers/CssHelper.php:766-801 | a `url(../…)` body that passes every test is rewritten |
| CssRewriter.NotUrlStartIsFixpoint | src/MvcCore/Ext/Views/Helpers/CssHelper.php:744 | once that branch fires with `url(` at most four characters before the position, every further pass as written repeats it |
| CssRewriter.StuckScanNeverFinishes | src/MvcCore/Ext/Views/Helpers/CssHelper.php:727-802 | from such a state the loop as written does not finish within any number of passes |
| CssRewriter.ImageDirectoryStylesheetClassifies | src/MvcCore/Ext/Views/Helpers/CssHelper.php:740-745 | the first pass over `url(img/../a.png)` takes the branch at line 744 |
| CssRewriter.NotUrlStartNeverFinishes | src/MvcCore/Ext/Views/Helpers/CssHelper.php:744 | once that branch fires from a position no later than `url(` plus four, the scan as written never finishes |
| CssRewriter.ImageDirectoryStylesheetNeverFinishes | src/MvcCore/Ext/Views/Helpers/CssHelper.php:727-802 | the loop as written never finishes on `url(img/../a.png)` |
| CssRewriter.StepAgreesOffNotUrlStart | src/MvcCore/Ext/Views/Helpers/CssHelper.php:727-802 | away from the branch at line 744, the corrected pass is the pass as written |
| CssRewriter.CorrectedAgreesWithAsWritten | src/MvcCore/Ext/Views/Helpers/CssHelper.php:727-802 | whenever the loop as written finishes without that branch, the corrected loop gives the same content |
| CssHelper.MediaIndex | src/MvcCore/Ext/Views/Helpers/CssHelper.php:488 | the value of a defined media name, or none for an unknown name |
| CssHelper.GetMediaType | src/MvcCore/Ext/Views/Helpers/CssHelper.php:482-494 | a defined value is kept and a defined name maps to its value; anything undefined raises in development mode and is `MEDIA_ALL` otherwise; the result is always a defined value |
| CssHelper.MediaTypeNameAndValueAgree | src/MvcCore/Ext/Views/Helpers/CssHelper.php:482-494 | a media type given by name and by value normalises to the same value |
| CssHelper.StyleArgs | src/MvcCore/Ext/Views/Helpers/CssHelper.php:396 | the reverse key arguments: path, raw media, `notMin` and vendor, in that order |
| CssHelper.StyleItem | src/MvcCore/Ext/Views/Helpers/CssHelper.php:465-472 | the full path is the document root followed by the path, the record is not a vendor one, and the other fields are as given |
| CssHelper.CompleteItem | src/MvcCore/Ext/Views/Helpers/CssHelper.php:455-473 | fails exactly when the media type raises; otherwise the stylesheet record with the normalised media, and a warning exactly when file checking and development mode are on and some group holds the path, naming the last such group |
| CssHelper.ExecContains | src/MvcCore/Ext/Views/Helpers/CssHelper.php:342-345 | the crc32b lookup of the raw arguments |
| CssHelper.ExecRemove | src/MvcCore/Ext/Views/Helpers/CssHelper.php:357-375 | a media type that raises leaves the group and keys unchanged; otherwise removes an item exactly when one matches the normalised media, then the first match, and unsets the crc32b key of the raw arguments |
| CssHelper.RemoveStyle | src/MvcCore/Ext/Views/Helpers/CssHelper.php:361-373 | removes the first stylesheet with the path, media, `notMin` and vendor flag, if one exists |
| CssHelper.ExecOffset | src/MvcCore/Ext/Views/Helpers/CssHelper.php:389-404 | a failed completion changes nothing; otherwise the item is spliced in at the index and the md5 key recorded |
| CssHelper.ExecAppend | src/MvcCore/Ext/Views/Helpers/CssHelper.php:417-423 | a failed completion changes nothing; otherwise the item goes last and the md5 key is recorded |
| CssHelper.ExecPrepend | src/MvcCore/Ext/Views/Helpers/CssHelper.php:436-442 | a failed completion changes nothing; otherwise the item goes first and the md5 key is recorded |
| CssHelper.MediaAttribute | src/MvcCore/Ext/Views/Helpers/CssHelper.php:665-666 | empty exactly for `MEDIA_ALL`; otherwise a ` media="…"` attribute |
| CssHelper.LinkTag | src/MvcCore/Ext/Views/Helpers/CssHelper.php:662-672 | the link head, with the nonce and the media attribute, then the href, then the closing `" />`; with `MEDIA_ALL` the href follows the nonce directly |
| CssHelper.Minified | src/MvcCore/Ext/Views/Helpers/CssHelper.php:523-534 | the minifier's output; a throwing minifier is an error in development mode and `''` otherwise |
| CssHelper.Render2TmpGetPathExec | src/MvcCore/Ext/Views/Helpers/CssHelper.php:683-695 | the source (template output, file content, or nothing) with its paths rewritten, then minified when asked; fails only through the minifier in development mode |
| CssHelper.ItemHref | src/MvcCore/Ext/Views/Helpers/CssHelper.php:642-649 | the href starts with the URL of the rendered copy or of the item's path, and carries more exactly when file checking is on; only a rendered copy is written |
| CssHelper.ItemTagFits | src/MvcCore/Ext/Views/Helpers/CssHelper.php:650 | the tag built from such an href is a link with the item's media and that href |
| CssHelper.SeparatedTagsFailOnlyInDevMode | src/MvcCore/Ext/Views/Helpers/CssHelper.php:642-651 | separate rendering fails only in development mode |
| CssHelper.SeparatedTagsFit | src/MvcCore/Ext/Views/Helpers/CssHelper.php:642-651 | one fitting tag per item, in the items' order |
| CssHelper.SeparatedTagsWriteOnlyCopies | src/MvcCore/Ext/Views/Helpers/CssHelper.php:642-651 | when no item needs a rendered copy, separate rendering succeeds and writes nothing |
| CssHelper.SeparatedMarkup | src/MvcCore/Ext/Views/Helpers/CssHelper.php:637-655 | fails only in development mode; on success the markup starts on a new indented line |
| CssHelper.SeparatedPass | src/MvcCore/Ext/Views/Helpers/CssHelper.php:642-651 | one pass moves one item's tag from what is left to what is done |
| CssHelper.AppendSeparatedTag | src/MvcCore/Ext/Views/Helpers/CssHelper.php:643-650 | the tag of the next item is appended, or the pass fails as the specification does |
| CssHelper.RenderItemsSeparated | src/MvcCore/Ext/Views/Helpers/CssHelper.php:637-655 | the loop returns exactly `SeparatedMarkup`: one tag per item, in order, between the markers |
| CssRender.InfoListShape | src/MvcCore/Ext/Views/Helpers/CssHelper.php:583-593 | one entry per item, in order; fails exactly in development mode when file checking is on and a source is missing |
| CssRender.InfoListFrame | src/MvcCore/Ext/Views/Helpers/CssHelper.php:583-593 | the group information depends only on the sources' files |
| CssRender.GroupFile | src/MvcCore/Ext/Views/Helpers/CssHelper.php:594-596 | the joined file's path starts with the temporary directory and `/` |
| CssRender.PartContent | src/MvcCore/Ext/Views/Helpers/CssHelper.php:605-614 | a part fails only when it is minified in development mode |
| CssRender.PartsFailure | src/MvcCore/Ext/Views/Helpers/CssHelper.php:603-616 | the parts fail exactly when some item's content does, and only in development mode |
| CssRender.PartsContents | src/MvcCore/Ext/Views/Helpers/CssHelper.php:603-616 | one part per item, in order, each naming the item and holding its content |
| CssRender.GroupTagHead | src/MvcCore/Ext/Views/Helpers/CssHelper.php:624-627 | the group's tag starts with the first item's link head and the group file's URL |
| CssRender.AsGroupShape | src/MvcCore/Ext/Views/Helpers/CssHelper.php:581-628 | fails only in development mode; on success the tag points at the file named after the group information, which exists whenever rendering is on; no other file changes |
| CssRender.JoinedFileIsReused | src/MvcCore/Ext/Views/Helpers/CssHelper.php:600-601 | once the joined file exists, rendering again later writes nothing and gives the same tag |
| CssRender.AsGroupHead | src/MvcCore/Ext/Views/Helpers/CssHelper.php:624-627 | a joined group's tag carries its first item's media |
| CssRender.TogetherTagsFailOnlyInDevMode | src/MvcCore/Ext/Views/Helpers/CssHelper.php:559-566 | joined rendering fails only in development mode |
| CssRender.TogetherTagsHeads | src/MvcCore/Ext/Views/Helpers/CssHelper.php:559-566 | one link per bucket, in bucket order, each with the media of its bucket's first item |
| CssRender.HeadsCons | src/MvcCore/Ext/Views/Helpers/CssHelper.php:559-566 | a fitting tag in front of fitting tags keeps them fitting |
| CssRender.TogetherMarkup | src/MvcCore/Ext/Views/Helpers/CssHelper.php:546-572 | fails only in development mode; on success the markup starts on a new indented line |
| CssRender.InfoPass | src/MvcCore/Ext/Views/Helpers/CssHelper.php:584-593 | one pass moves one entry from what is left to what is done |
| CssRender.CollectGroupInfo | src/MvcCore/Ext/Views/Helpers/CssHelper.php:583-593 | the first loop returns exactly the group information |
| CssRender.PartsPass | src/MvcCore/Ext/Views/Helpers/CssHelper.php:604-616 | one pass moves one part from what is left to what is done |
| CssRender.LoadPartContent | src/MvcCore/Ext/Views/Helpers/CssHelper.php:605-614 | computes exactly the item's part content |
| CssRender.CollectPart | src/MvcCore/Ext/Views/Helpers/CssHelper.php:604-616 | appends the next part, or fails as the specification does |
| CssRender.CollectParts | src/MvcCore/Ext/Views/Helpers/CssHelper.php:603-616 | the second loop returns exactly the parts |
| CssRender.RenderItemsTogetherAsGroup | src/MvcCore/Ext/Views/Helpers/CssHelper.php:581-628 | computes exactly `AsGroup`: the tag, and the joined file when it is needed |
| CssRender.TogetherPass | src/MvcCore/Ext/Views/Helpers/CssHelper.php:559-566 | one pass moves one bucket's tag from what is left to what is done |
| CssRender.AppendBucketTag | src/MvcCore/Ext/Views/Helpers/CssHelper.php:560 | appends the next bucket's tag, or fails as the specification does |
| CssRender.RenderBuckets | src/MvcCore/Ext/Views/Helpers/CssHelper.php:559-566 | each loop returns exactly the tags of its buckets |
| CssRender.TogetherTagsConcat | src/MvcCore/Ext/Views/Helpers/CssHelper.php:559-566 | rendering two runs of buckets one after the other renders their concatenation |
| CssRender.RenderItemsTogether | src/MvcCore/Ext/Views/Helpers/CssHelper.php:546-572 | computes exactly `TogetherMarkup` |
| CssRender.Render | src/MvcCore/Ext/Views/Helpers/CssHelper.php:75-93 | an empty group renders as nothing; otherwise joined or separate as configured; a success empties the group, and a failure leaves its items in place |
| JsHelper.CompleteItem | src/MvcCore/Ext/Views/Helpers/JsHelper.php:430-449 | with file checking on, a duplicate produces a warning in development mode; the record keeps the flags as given and never fails |
| JsHelper.ExecContains | src/MvcCore/Ext/Views/Helpers/JsHelper.php:317-320 | the crc32b lookup of the arguments |
| JsHelper.ExecRemove | src/MvcCore/Ext/Views/Helpers/JsHelper.php:93-95 | `Remove` calls `execRemove` with one argument too few, so every call fails before anything is looked at |
| JsHelper.ExecRemoveIntended | src/MvcCore/Ext/Views/Helpers/JsHelper.php:333-351 | removes a script exactly when one matches; then it removes the first match and unsets the crc32b key |
| JsHelper.ExecOffset | src/MvcCore/Ext/Views/Helpers/JsHelper.php:364-379 | the completed item is spliced in at the index and the md5 key recorded |
| JsHelper.ExecAppend | src/MvcCore/Ext/Views/Helpers/JsHelper.php:392-398 | the completed item goes last and the md5 key is recorded |
| JsHelper.ExecPrepend | src/MvcCore/Ext/Views/Helpers/JsHelper.php:411-417 | the completed item goes first and the md5 key is recorded |
| JsHelper.ScriptTag | src/MvcCore/Ext/Views/Helpers/JsHelper.php:622-632 | a `<script type="text/javascript"` with the nonce, `async` and `defer` when set, and the src last |
| JsHelper.ScriptHeadFlags | src/MvcCore/Ext/Views/Helpers/JsHelper.php:625-626 | two script heads with the same nonce and the same text have the same flags |
| JsHelper.AttributesFlags | src/MvcCore/Ext/Views/Helpers/JsHelper.php:625-626 | the attribute text determines both flags |
| JsHelper.Minified | src/MvcCore/Ext/Views/Helpers/JsHelper.php:478-487 | the minifier's output; a throwing minifier is an error in development mode and `''` otherwise |
| JsHelper.Render2TmpGetPathExec | src/MvcCore/Ext/Views/Helpers/JsHelper.php:643-648 | the file content, minified when asked |
| JsHelper.ItemSrcShape | src/MvcCore/Ext/Views/Helpers/JsHelper.php:600-609 | the src starts with the URL of the chosen path and carries more exactly when file checking is on; it fails only through the download or the minifier in development mode |
| JsHelper.ItemTagFits | src/MvcCore/Ext/Views/Helpers/JsHelper.php:610 | the tag built from such a src carries the script's flags and that src |
| JsHelper.SeparatedTagsFailure | src/MvcCore/Ext/Views/Helpers/JsHelper.php:600-611 | separate rendering fails only in development mode or through a failed download |
| JsHelper.SeparatedTagsFit | src/MvcCore/Ext/Views/Helpers/JsHelper.php:600-611 | one fitting tag per script, in order |
| JsHelper.SeparatedTagsWriteOnlyCopies | src/MvcCore/Ext/Views/Helpers/JsHelper.php:600-611 | with no external script and no rendered copy needed, separate rendering succeeds and writes nothing |
| JsHelper.SeparatedMarkup | src/MvcCore/Ext/Views/Helpers/JsHelper.php:595-615 | fails only in development mode or when some download fails; on success the markup starts on a new indented line |
| JsHelper.SeparatedPass | src/MvcCore/Ext/Views/Helpers/JsHelper.php:600-611 | one pass moves one script's tag from what is left to what is done |
| JsHelper.LoadItemSrc | src/MvcCore/Ext/Views/Helpers/JsHelper.php:601-609 | computes exactly the script's src and the files it leaves |
| JsHelper.AppendSeparatedTag | src/MvcCore/Ext/Views/Helpers/JsHelper.php:601-610 | appends the next script's tag, or fails as the specification does |
| JsHelper.RenderItemsSeparated | src/MvcCore/Ext/Views/Helpers/JsHelper.php:595-615 | the loop returns exactly `SeparatedMarkup` |
| JsRender.InfoStepShape | src/MvcCore/Ext/Views/Helpers/JsHelper.php:537-552 | a pass fails only on a failed download or, in development mode, on a missing source; it keeps the flags and leaves non-external scripts unchanged |
| JsRender.InfoListShape | src/MvcCore/Ext/Views/Helpers/JsHelper.php:536-552 | one result per script, in order; fails exactly when a pass does |
| JsRender.Entries | src/MvcCore/Ext/Views/Helpers/JsHelper.php:541-549 | one entry per pass, in order |
| JsRender.Moved | src/MvcCore/Ext/Views/Helpers/JsHelper.php:539-540 | one record per pass, in order |
| JsRender.GroupFile | src/MvcCore/Ext/Views/Helpers/JsHelper.php:553-555 | the joined file's path starts with the temporary directory and `/` |
| JsRender.PartContentFailure | src/MvcCore/Ext/Views/Helpers/JsHelper.php:563-572 | a part fails only on a failed download or, in development mode, on a failed minification |
| JsRender.PartsShape | src/MvcCore/Ext/Views/Helpers/JsHelper.php:561-574 | one part per script, in order; fails exactly when some part does |
| JsRender.GroupTagHead | src/MvcCore/Ext/Views/Helpers/JsHelper.php:582-585 | the group's tag starts with the first script's head, which states its flags |
| JsRender.MovedKeepsExternal | src/MvcCore/Ext/Views/Helpers/JsHelper.php:537-552 | the relocated scripts are external exactly where the given ones are |
| JsRender.AsGroupFailure | src/MvcCore/Ext/Views/Helpers/JsHelper.php:534-586 | outside development mode a joined group fails only through an external script's download |
| JsRender.AsGroupShape | src/MvcCore/Ext/Views/Helpers/JsHelper.php:534-586 | on success the tag points at the file named after the group information and carries the first script's flags; that file exists whenever rendering is on; no other file changes |
| JsRender.InfoStepFrame | src/MvcCore/Ext/Views/Helpers/JsHelper.php:537-552 | a pass reads only its script's source or downloaded copy |
| JsRender.InfoListFrame | src/MvcCore/Ext/Views/Helpers/JsHelper.php:536-552 | writing a file the first loop never reads leaves the group information unchanged |
| JsRender.JoinedFileIsReused | src/MvcCore/Ext/Views/Helpers/JsHelper.php:558-559 | once the joined file exists, rendering again later writes nothing and gives the same tag |
| JsRender.InfoListNow | src/MvcCore/Ext/Views/Helpers/JsHelper.php:536-552 | the group information does not depend on when files were written |
| JsRender.TogetherTagsFailure | src/MvcCore/Ext/Views/Helpers/JsHelper.php:512-519 | outside development mode joined rendering fails only through an external script's download |
| JsRender.HeadsCons | src/MvcCore/Ext/Views/Helpers/JsHelper.php:512-519 | a fitting tag in front of fitting tags keeps them fitting |
| JsRender.AsGroupHead | src/MvcCore/Ext/Views/Helpers/JsHelper.php:582-585 | a joined group's tag carries its first script's flags |
| JsRender.TogetherTagsHeads | src/MvcCore/Ext/Views/Helpers/JsHelper.php:512-519 | one tag per bucket, each with the flags of its bucket's first script |
| JsRender.TogetherMarkupShape | src/MvcCore/Ext/Views/Helpers/JsHelper.php:499-525 | outside development mode it fails only through an external script; on success the markup starts on a new indented line |
| JsRender.InFlatten | src/MvcCore/Ext/Views/Helpers/Assets.php:555-565 | an item of a bucket is an item of the flattened buckets |
| JsRender.ExternalInBuckets | src/MvcCore/Ext/Views/Helpers/JsHelper.php:512-519 | an external script in a bucket is an external script of the group |
| JsRender.LoadInfo | src/MvcCore/Ext/Views/Helpers/JsHelper.php:538-551 | computes exactly one pass of the first loop |
| JsRender.InfoPass | src/MvcCore/Ext/Views/Helpers/JsHelper.php:537-552 | one pass moves one result from what is left to what is done |
| JsRender.CollectGroupInfo | src/MvcCore/Ext/Views/Helpers/JsHelper.php:536-552 | the first loop returns exactly the group information and the relocated scripts |
| JsRender.PartsPass | src/MvcCore/Ext/Views/Helpers/JsHelper.php:562-574 | one pass moves one part from what is left to what is done |
| JsRender.LoadPartContent | src/MvcCore/Ext/Views/Helpers/JsHelper.php:563-572 | computes exactly the script's part |
| JsRender.CollectPart | src/MvcCore/Ext/Views/Helpers/JsHelper.php:562-574 | appends the next part, or fails as the specification does |
| JsRender.CollectParts | src/MvcCore/Ext/Views/Helpers/JsHelper.php:561-574 | the second loop returns exactly the parts |
| JsRender.RenderItemsTogetherAsGroup | src/MvcCore/Ext/Views/Helpers/JsHelper.php:534-586 | computes exactly `AsGroup` |
| JsRender.TogetherPass | src/MvcCore/Ext/Views/Helpers/JsHelper.php:512-519 | one pass moves one bucket's tag from what is left to what is done |
| JsRender.AppendBucketTag | src/MvcCore/Ext/Views/Helpers/JsHelper.php:513 | appends the next bucket's tag, or fails as the specification does |
| JsRender.RenderBuckets | src/MvcCore/Ext/Views/Helpers/JsHelper.php:512-519 | each loop returns exactly the tags of its buckets |
| JsRender.RenderItemsTogether | src/MvcCore/Ext/Views/Helpers/JsHelper.php:499-525 | computes exactly the joined markup: the not-minified buckets joined without minification, then the minified ones with `minify`, between the markers |
| JsRender.Render | src/MvcCore/Ext/Views/Helpers/JsHelper.php:48-68 | an empty group renders as nothing; otherwise joined or separate as configured; a success empties the group, and a failure leaves its items in place |

## Left out

- Vendor records in the registry: the vendor branch of `completeItem` stores the whole pair that `move2TmpGetPath` returns as the record's path (see Findings), so a vendor record's path is an array and its full path is the document root followed by `Array`. That branch is modelled on its own, as written and as intended, in `Vendor`; the registration methods below do not take vendor records.
- CssHelper.CompleteItem, CssHelper.ExecOffset, CssHelper.ExecAppend, CssHelper.ExecPrepend, JsHelper.CompleteItem, JsHelper.ExecOffset, JsHelper.ExecAppend, JsHelper.ExecPrepend: state only the non-vendor path (`$vendor == FALSE`), because of the vendor branch described above.
- Remote scripts: `download2TmpGetPath` (redirect resolution, `fopen`/`fread`, `EXTERNAL_MIN_CACHE_TIME`) is a collaborator passed in, which either returns the path of the local copy or fails. As written it calls `getTmpFileName` with two of its three arguments, so it cannot succeed under PHP 8. The model keeps its failure path but does not model its body; a successful download is modelled without its write of the local copy (`saveFileContent`), so the joined and separate renderings read external scripts from the files as they were before the download.
- Hashing (`md5`, `crc32b`, `serialize`, `json_encode`, `md5_file`), the CSS and JS minifiers, template rendering (`renderFile`), `realpath`, `date()` and the view's `AssetUrl`: collaborators taken as function values. Only the lengths of hexadecimal digests are assumed about them.
- Logging (`log`, `warning` output through the debug bar) and `getNonce` (a configuration lookup): the nonce is a parameter, and a warning is returned rather than printed.
- File permissions (`chmod`, `mkdir`, `is_writable`) and the static cache of the temporary directory path: no observable effect on the returned markup.
- PHP object aliasing during rendering: the `stdClass` records are shared with the store. The model returns new records and leaves the store unchanged until `Render` empties it, so a render that fails half-way does not leave partly rewritten records behind as the original does.
- Array keys after `unsetGroupStore`: PHP keeps the remaining keys with a gap; the model renumbers positions. Order and contents agree, and every later use (`array_slice`, `foreach`, `[]`) works by position or order.
- `SetGlobalOptions`, `SetAssetUrlCompletion`, `SetBasePath`, `SetView`, `__toString` and the public fluent wrappers (`Append`, `VendorAppend`, `AppendRendered`, …): configuration setters and one-line forwards to the `exec*` operations, which are modelled.
- CssRewriter.ConvertCssPaths: uses the corrected scan (see Findings); the loop as written is modelled with a pass bound, as `CssRewriter.RunAsWritten`.

## Findings

| source | as written | input that shows it | evidently intended | confidence | as-written member | corrected member |
|---|---|---|---|---|---|---|
| src/MvcCore/Ext/Views/Helpers/CssHelper.php:744 | when the text between `url(` and `../` is not path punctuation, the position is set to just after that `url(`, which can be no later than the current position | a stylesheet containing `url(img/../a.png)`, which loops forever | move the scan past the `../` so the loop always advances | not executed | CssRewriter.ImageDirectoryStylesheetNeverFinishes | CssRewriter.ConvertCssPathsFromRel2TmpAbs |
| src/MvcCore/Ext/Views/Helpers/CssHelper.php:342-345 | `execContains` looks up the crc32b hash of its arguments, while registrations record their md5 hash (Assets.php:522-526) | `Append("/a.css")` followed by `Contains("/a.css")`, which answers no | look up the key the registration recorded | not executed | Registry.GroupRegistry.Contains, Registry.AppendThenLookUp (its `!reg.Contains(args)`) | Registry.GroupRegistry.ContainsIntended, Registry.AppendThenLookUp (its `reg.ContainsIntended(args)`), Registry.PrependThenLookUp, Registry.OffsetThenLookUp |
| src/MvcCore/Ext/Views/Helpers/JsHelper.php:93-95 | `Remove` passes five arguments to `execRemove`, which declares six | any call of `Js()->Remove(...)`, which raises an argument-count error | pass `external` as well, so the removal loop runs | not executed | JsHelper.ExecRemove | JsHelper.ExecRemoveIntended |
| src/MvcCore/Ext/Views/Helpers/CssHelper.php:461-464 | `completeItem` assigns the whole `[$copied, $tmpPath]` array that `move2TmpGetPath` returns (Assets.php:717-720) to `$path`, and the same happens at JsHelper.php:436-439; the record's `path` is then that array and its `fullPath` is the document root followed by `Array` | `Css()->VendorAppend("/a.css")` with a `~/` temporary directory, whose record's full path is the document root followed by `Array` instead of the moved copy | take the second element of the pair as the path | not executed | Vendor.CompleteVendorAsWritten, Vendor.CopyIsNotArray | Vendor.CompleteVendor, Vendor.VendorItemReadsCopy |
