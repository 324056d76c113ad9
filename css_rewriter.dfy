/**
 * `convertCssPathsFromRel2TmpAbs` (CssHelper.php:720-805): before a
 * stylesheet is copied into the temporary directory, every `url(...)` body
 * holding a relative `../` path is replaced by the web path of the file it
 * points at, and finally every base path placeholder becomes `../..`.
 *
 * The scan is a loop over a (content, position) state. One pass looks for the
 * next `../` and classifies what surrounds it; `Classify` names the six
 * outcomes, `Step` performs the pass. The branch taken when the text between
 * the preceding `url(` and the `../` is not made of path punctuation moves the
 * position back to just after that `url(`, from where the same pass repeats
 * for ever (`NotUrlStartIsFixpoint`); `Step` with `corrected` skips the `../`
 * there instead, and the rewriter the helpers use runs that corrected scan.
 */
module CssRewriter {
  import opened Wrappers
  import opened Strings
  import opened Platform

  /** Characters allowed between `url(` and `../` (`[\./ "'_\-]`). */
  const BeginChars: set<char> := {'.', '/', ' ', '"', '\'', '_', '-'}

  /** Characters allowed between `../` and `)` (`[a-zA-Z\./ "'_\-\?\&\#]`); digits are not among them. */
  const EndChars: set<char> := (set c | 'a' <= c <= 'z' || 'A' <= c <= 'Z') + {'.', '/', ' ', '"', '\'', '_', '-', '?', '&', '#'}

  /** What the rewrite of one stylesheet depends on besides its content. */
  datatype Context = Context(cfg: Config, col: Collaborators, stylesheetDirectoryRelative: string)

  /** The loop state: the content as rewritten so far and the scan position. */
  datatype Scan = Scan(content: string, position: nat)

  /** The outcome of one pass of the loop at a position. */
  datatype Pass =
    | NoDoubleDots
    | NoUrlBefore(dots: nat)
    | NotUrlStart(dots: nat, urlAt: nat)
    | NoClose(dots: nat)
    | NotUrlEnd(dots: nat, close: nat)
    | Rewrite(dots: nat, urlAt: nat, close: nat)

  /** A `)` found at or after a `../` lies past its three characters. */
  lemma CloseAfterDots(c: string, d: nat, e: nat)
    requires OccursAt(c, "../", d)
    requires IndexOf(c, ")", d) == Some(e)
    ensures d + 3 <= e < |c| && c[e] == ')'
  {
    assert c[d..d + 3] == "../";
    assert !OccursAt(c, ")", d) && !OccursAt(c, ")", d + 1) && !OccursAt(c, ")", d + 2) by {
      assert c[d] == '.' && c[d + 1] == '.' && c[d + 2] == '/';
    }
    assert c[e..e + 1] == ")";
  }

  /** An occurrence in a prefix is an occurrence in the whole text. */
  lemma OccursInPrefix(c: string, d: nat, pat: string, l: nat)
    requires d <= |c| && OccursAt(c[..d], pat, l)
    ensures OccursAt(c, pat, l) && l + |pat| <= d
  {
    assert c[..d][l..l + |pat|] == c[l..l + |pat|];
  }

  /** The pass of the loop at `position`: which test decides it and at which indices. */
  function Classify(c: string, position: nat): (p: Pass)
    ensures !p.NoDoubleDots? ==> position <= p.dots && p.dots + 3 <= |c|
    ensures p.NotUrlStart? || p.Rewrite? ==> p.urlAt + 4 <= p.dots
    ensures p.NotUrlEnd? || p.Rewrite? ==> p.dots + 3 <= p.close < |c| && c[p.close] == ')'
  {
    match IndexOf(c, "../", position)
    case None => NoDoubleDots
    case Some(d) =>
      match LastIndexOf(c[..d], "url(")
      case None => NoUrlBefore(d)
      case Some(l) =>
        OccursInPrefix(c, d, "url(", l);
        if !AllIn(c[l + 4..d], BeginChars) then NotUrlStart(d, l)
        else
          match IndexOf(c, ")", d)
          case None => NoClose(d)
          case Some(e) =>
            CloseAfterDots(c, d, e);
            if !AllIn(c[d + 3..e], EndChars) then NotUrlEnd(d, e)
            else Rewrite(d, l, e)
  }

  /** A `url()` body without its quotes, and the quote to put back around it. */
  datatype UrlBody = UrlBody(path: string, quote: char)

  /**
   * The quotes of a `url()` body: a body wrapped in `"` or in `'` loses them
   * and keeps that quote; any other body is kept whole and gets `"`.
   */
  function Unquote(urlSub: string): (r: UrlBody)
    ensures r.quote == '\'' <==> |urlSub| >= 1 && urlSub[0] == '\'' && urlSub[|urlSub| - 1] == '\''
    ensures r.quote == '"' || r.quote == '\''
    ensures Quoted(urlSub) ==> r == UrlBody(if |urlSub| >= 2 then urlSub[1..|urlSub| - 1] else [], urlSub[0])
    ensures !Quoted(urlSub) ==> r == UrlBody(urlSub, '"')
  {
    var inner := if |urlSub| >= 2 then urlSub[1..|urlSub| - 1] else [];
    if Quoted(urlSub) then UrlBody(inner, urlSub[0]) else UrlBody(urlSub, '"')
  }

  /** Whether a `url()` body starts and ends with the same `"` or `'`. */
  predicate Quoted(urlSub: string)
  {
    |urlSub| >= 1 && (urlSub[0] == '"' || urlSub[0] == '\'') && urlSub[|urlSub| - 1] == urlSub[0]
  }

  /** Wrapping a path in either quote and unquoting it gives back the path and that quote. */
  lemma {:induction false} UnquoteQuoted(path: string, quote: char)
    requires quote == '"' || quote == '\''
    ensures Unquote([quote] + path + [quote]) == UrlBody(path, quote)
  {
    var body := [quote] + path + [quote];
    assert Quoted(body);
    assert body[1..|body| - 1] == path;
  }

  /** A body that is not wrapped in a matching pair of quotes is kept whole and gets `"`. */
  lemma {:induction false} UnquoteUnquoted(path: string)
    requires |path| == 0 || (path[0] != '"' && path[0] != '\'') || path[|path| - 1] != path[0]
    ensures Unquote(path) == UrlBody(path, '"')
  {
    assert !Quoted(path);
  }

  /**
   * The web path replacing a `url()` body: the leading `./` and `../` run is
   * resolved by `realpath` against the stylesheet's directory, the rest is
   * appended, the document root is cut off and the result made a URL.
   */
  function WebPath(ctx: Context, urlSubStr: string): string
  {
    var trimmedUrlSubStr := TrimLeft(urlSubStr, {'.', '/'});
    var trimmedPartLength := |urlSubStr| - |trimmedUrlSubStr|;
    var trimmedPart := Trim(urlSubStr[..trimmedPartLength], {'/'});
    var subjectRestPath := Trim(urlSubStr[trimmedPartLength..], {'/'});
    var urlFullBasePath := ctx.col.realpath(ctx.cfg.docRoot + ctx.stylesheetDirectoryRelative + trimmedPart);
    var urlFullPath := urlFullBasePath + "/" + subjectRestPath;
    CssJsFileUrl(ctx.cfg, ctx.col, Drop(urlFullPath, |ctx.cfg.docRoot|))
  }

  /** The state after putting `webPath`, quoted, in place of `c[start..e]`; the scan goes on after the `)`. */
  function Splice(c: string, start: nat, e: nat, quote: char, webPath: string): (r: Scan)
    requires start <= e < |c| && c[e] == ')'
    ensures start + 2 < r.position <= |r.content|
    ensures |r.content| - r.position == |c| - e - 1
  {
    Scan(c[..start] + [quote] + webPath + [quote] + c[e..], start + |webPath| + 3)
  }

  /**
   * What `Splice` leaves: the text before `start`, the quoted web path, the
   * `)` and everything after it, with the position just past that `)`.
   */
  lemma SpliceShape(c: string, start: nat, e: nat, quote: char, webPath: string)
    requires start <= e < |c| && c[e] == ')'
    ensures var r := Splice(c, start, e, quote, webPath);
      && r.content[..start] == c[..start]
      && r.content[start] == quote && r.content[r.position - 2] == quote
      && r.content[start + 1..r.position - 2] == webPath
      && r.content[r.position - 1] == ')'
      && r.content[r.position..] == c[e + 1..]
  {
    var r := Splice(c, start, e, quote, webPath);
    assert r.content[r.position - 1] == c[e];
    assert r.content[r.position..] == c[e + 1..];
  }

  /** The state after replacing the body between `url(` (at `l`) and `)` (at `e`). */
  function Replaced(c: string, l: nat, e: nat, ctx: Context): (r: Scan)
    requires l + 4 <= e < |c| && c[e] == ')'
    ensures l + 6 < r.position <= |r.content|
    ensures |r.content| - r.position == |c| - e - 1
  {
    var unquoted := Unquote(c[l + 4..e]);
    Splice(c, l + 4, e, unquoted.quote, WebPath(ctx, unquoted.path))
  }

  /** The replaced body is quoted with `'` exactly when it was, and with `"` otherwise. */
  lemma ReplacedQuote(c: string, l: nat, e: nat, ctx: Context)
    requires l + 4 <= e < |c| && c[e] == ')'
    ensures var body := c[l + 4..e]; var r := Replaced(c, l, e, ctx);
      && r.content[..l + 4] == c[..l + 4]
      && r.content[l + 4] == (if |body| >= 1 && body[0] == '\'' && body[|body| - 1] == '\'' then '\'' else '"')
      && r.content[r.position..] == c[e + 1..]
  {
    var unquoted := Unquote(c[l + 4..e]);
    SpliceShape(c, l + 4, e, unquoted.quote, WebPath(ctx, unquoted.path));
  }

  /**
   * One pass of the loop. Every branch but the one at CssHelper.php:744 moves
   * the position forward or shortens what is left to scan; `corrected`
   * replaces that branch's `position = urlAt + 4` by skipping the `../`.
   */
  function Step(ctx: Context, s: Scan, corrected: bool): (r: Option<Scan>)
    ensures r.None? <==> Classify(s.content, s.position).NoDoubleDots?
    ensures r.Some? && (corrected || !Classify(s.content, s.position).NotUrlStart?) ==>
              |r.value.content| - r.value.position < |s.content| - s.position
  {
    match Classify(s.content, s.position)
    case NoDoubleDots => None
    case NoUrlBefore(d) => Some(Scan(s.content, d + 3))
    case NotUrlStart(d, l) => if corrected then Some(Scan(s.content, d + 3)) else Some(Scan(s.content, l + 4))
    case NoClose(d) => Some(Scan(s.content, d + 3))
    case NotUrlEnd(d, e) => Some(Scan(s.content, e + 1))
    case Rewrite(d, l, e) =>
      Some(Replaced(s.content, l, e, ctx))
  }

  /** The corrected scan run to its end: the content once no `../` is left past the position. */
  function RunCorrected(ctx: Context, s: Scan): string
    decreases |s.content| - s.position
  {
    if s.position >= |s.content| then s.content
    else
      match Step(ctx, s, true)
      case None => s.content
      case Some(s') => RunCorrected(ctx, s')
  }

  /** The scan as written, for at most `fuel` passes; `None` when the passes run out. */
  function RunAsWritten(ctx: Context, s: Scan, fuel: nat): Option<string>
    decreases fuel
  {
    if s.position >= |s.content| then Some(s.content)
    else if fuel == 0 then None
    else
      match Step(ctx, s, false)
      case None => Some(s.content)
      case Some(s') => RunAsWritten(ctx, s', fuel - 1)
  }

  /** The directory part of the stylesheet's href, with its final `/`, if it has one. */
  function HrefDirectory(href: string): (r: Option<string>)
    ensures r.None? <==> '/' !in href
    ensures r.Some? ==> |r.value| >= 1 && r.value[|r.value| - 1] == '/' && r.value <= href
    ensures r.Some? ==> '/' !in href[|r.value|..]
  {
    match LastIndexOf(href, "/")
    case None =>
      assert forall j | 0 <= j < |href| :: !OccursAt(href, "/", j);
      assert forall j | 0 <= j < |href| :: href[j] != '/' by {
        forall j | 0 <= j < |href| ensures href[j] != '/' {
          assert !OccursAt(href, "/", j);
          assert href[j..j + 1] == [href[j]];
        }
      }
      None
    case Some(i) =>
      assert href[i..i + 1] == "/";
      assert href[i] == '/' && href[..i + 1][i] == '/';
      assert forall j | i + 1 <= j < |href| :: href[j] != '/' by {
        forall j | i + 1 <= j < |href| ensures href[j] != '/' {
          assert !OccursAt(href, "/", j);
          assert href[j..j + 1] == [href[j]];
        }
      }
      Some(href[..i + 1])
  }

  /** `convertCssPathsFromRel2TmpAbs` with the corrected scan. */
  function ConvertCssPaths(cfg: Config, col: Collaborators, content: string, href: string): (r: string)
    ensures '/' !in href ==> r == content
  {
    match HrefDirectory(href)
    case None => content
    case Some(dir) =>
      ReplaceAll(RunCorrected(Context(cfg, col, dir), Scan(content, 0)), RelBasePathPlacement, "../..")
  }

  /** The placeholder and its replacement share no character. */
  lemma PlacementDisjoint()
    ensures Chars(RelBasePathPlacement) !! Chars("../..")
  {
    forall c | c in Chars("../..") ensures c !in Chars(RelBasePathPlacement) {
      assert c == '.' || c == '/';
    }
  }

  /** Once the href has a directory part, no base path placeholder is left in the result. */
  lemma NoPlaceholderLeft(cfg: Config, col: Collaborators, content: string, href: string, j: int)
    requires '/' in href
    ensures !OccursAt(ConvertCssPaths(cfg, col, content, href), RelBasePathPlacement, j)
  {
    var dir := HrefDirectory(href).value;
    PlacementDisjoint();
    ReplaceAllRemovesEveryOccurrence(RunCorrected(Context(cfg, col, dir), Scan(content, 0)), RelBasePathPlacement, "../..", j);
  }

  /**
   * `convertCssPathsFromRel2TmpAbs`: the scanning loop, with the corrected
   * branch, then the placeholder replacement.
   */
  method ConvertCssPathsFromRel2TmpAbs(cfg: Config, col: Collaborators, fullPathContent: string, href: string)
    returns (r: string)
    ensures r == ConvertCssPaths(cfg, col, fullPathContent, href)
  {
    var dirOrNone := HrefDirectory(href);
    if dirOrNone.None? {
      return fullPathContent;
    }
    var ctx := Context(cfg, col, dirOrNone.value);
    var content := fullPathContent;
    var position: nat := 0;
    while position < |content|
      invariant RunCorrected(ctx, Scan(content, position)) == RunCorrected(ctx, Scan(fullPathContent, 0))
      decreases |content| - position
    {
      var next := ScanPass(ctx, content, position);
      if next.None? {
        break;
      }
      content, position := next.value.content, next.value.position;
    }
    r := ReplaceAll(content, RelBasePathPlacement, "../..");
  }

  /** One pass of the loop body of `convertCssPathsFromRel2TmpAbs`, with the corrected branch. */
  method ScanPass(ctx: Context, content: string, position: nat) returns (next: Option<Scan>)
    requires position < |content|
    ensures next == Step(ctx, Scan(content, position), true)
  {
    var doubleDotsPos := IndexOf(content, "../", position);
    if doubleDotsPos.None? {
      ClassifyWithoutDoubleDots(content, position);
      return None;
    }
    var d := doubleDotsPos.value;
    var lastUrlBeginStrPos := LastIndexOf(content[..d], "url(");
    if lastUrlBeginStrPos.None? {
      ClassifyWithoutUrl(content, position, d);
      return Some(Scan(content, d + 3));
    }
    var l := lastUrlBeginStrPos.value;
    OccursInPrefix(content, d, "url(", l);
    next := ScanPassFromUrl(ctx, content, position, d, l);
  }

  /** The rest of a pass once the `../` at `d` and the `url(` at `l` before it are found. */
  method ScanPassFromUrl(ctx: Context, content: string, position: nat, d: nat, l: nat) returns (next: Option<Scan>)
    requires IndexOf(content, "../", position) == Some(d)
    requires d <= |content| && LastIndexOf(content[..d], "url(") == Some(l)
    requires l + 4 <= d
    ensures next == Step(ctx, Scan(content, position), true)
  {
    if !AllIn(content[l + 4..d], BeginChars) {
      ClassifyNotUrlStart(content, position, d, l);
      return Some(Scan(content, d + 3));
    }
    var firstUrlEndStrPos := IndexOf(content, ")", d);
    if firstUrlEndStrPos.None? {
      ClassifyWithoutClose(content, position, d, l);
      return Some(Scan(content, d + 3));
    }
    var e := firstUrlEndStrPos.value;
    CloseAfterDots(content, d, e);
    next := ScanPassFromClose(ctx, content, position, d, l, e);
  }

  /** The end of a pass once the `)` at `e` after the `../` is found. */
  method ScanPassFromClose(ctx: Context, content: string, position: nat, d: nat, l: nat, e: nat) returns (next: Option<Scan>)
    requires IndexOf(content, "../", position) == Some(d)
    requires d <= |content| && LastIndexOf(content[..d], "url(") == Some(l)
    requires l + 4 <= d && AllIn(content[l + 4..d], BeginChars)
    requires IndexOf(content, ")", d) == Some(e)
    requires d + 3 <= e < |content| && content[e] == ')'
    ensures next == Step(ctx, Scan(content, position), true)
  {
    if !AllIn(content[d + 3..e], EndChars) {
      ClassifyNotUrlEnd(content, position, d, l, e);
      StepPastClose(ctx, Scan(content, position), d, e);
      return Some(Scan(content, e + 1));
    }
    ClassifyRewrite(content, position, d, l, e);
    StepReplaces(ctx, Scan(content, position), l, e);
    next := Some(Replaced(content, l, e, ctx));
  }

  /** A pass whose `url()` body is not a path goes on after the `)`. */
  lemma StepPastClose(ctx: Context, s: Scan, d: nat, e: nat)
    requires Classify(s.content, s.position) == NotUrlEnd(d, e)
    ensures Step(ctx, s, true) == Some(Scan(s.content, e + 1))
  {
  }

  /** A corrected pass that finds a `url(../...)` body replaces it. */
  lemma StepReplaces(ctx: Context, s: Scan, l: nat, e: nat)
    requires Classify(s.content, s.position).Rewrite?
    requires Classify(s.content, s.position).urlAt == l && Classify(s.content, s.position).close == e
    requires l + 4 <= e < |s.content| && s.content[e] == ')'
    ensures Step(ctx, s, true) == Some(Replaced(s.content, l, e, ctx))
  {
  }

  /** How `Classify` decides when there is no `../` left. */
  lemma ClassifyWithoutDoubleDots(c: string, p: nat)
    requires IndexOf(c, "../", p).None?
    ensures Classify(c, p) == NoDoubleDots
  {
  }

  /** How `Classify` decides when no `url(` precedes the `../`. */
  lemma ClassifyWithoutUrl(c: string, p: nat, d: nat)
    requires IndexOf(c, "../", p) == Some(d)
    requires d <= |c| && LastIndexOf(c[..d], "url(").None?
    ensures Classify(c, p) == NoUrlBefore(d)
  {
  }

  /** How `Classify` decides when the text after `url(` is not path punctuation. */
  lemma ClassifyNotUrlStart(c: string, p: nat, d: nat, l: nat)
    requires IndexOf(c, "../", p) == Some(d)
    requires d <= |c| && LastIndexOf(c[..d], "url(") == Some(l)
    requires l + 4 <= d && !AllIn(c[l + 4..d], BeginChars)
    ensures Classify(c, p) == NotUrlStart(d, l)
  {
  }

  /** How `Classify` decides when no `)` follows the `../`. */
  lemma ClassifyWithoutClose(c: string, p: nat, d: nat, l: nat)
    requires IndexOf(c, "../", p) == Some(d)
    requires d <= |c| && LastIndexOf(c[..d], "url(") == Some(l)
    requires l + 4 <= d && AllIn(c[l + 4..d], BeginChars)
    requires IndexOf(c, ")", d).None?
    ensures Classify(c, p) == NoClose(d)
  {
  }

  /** How `Classify` decides when the text before `)` is not a path. */
  lemma ClassifyNotUrlEnd(c: string, p: nat, d: nat, l: nat, e: nat)
    requires IndexOf(c, "../", p) == Some(d)
    requires d <= |c| && LastIndexOf(c[..d], "url(") == Some(l)
    requires l + 4 <= d && AllIn(c[l + 4..d], BeginChars)
    requires IndexOf(c, ")", d) == Some(e)
    requires d + 3 <= e <= |c| && !AllIn(c[d + 3..e], EndChars)
    ensures Classify(c, p) == NotUrlEnd(d, e)
  {
  }

  /** How `Classify` decides on a `url(../...)` body. */
  lemma ClassifyRewrite(c: string, p: nat, d: nat, l: nat, e: nat)
    requires IndexOf(c, "../", p) == Some(d)
    requires d <= |c| && LastIndexOf(c[..d], "url(") == Some(l)
    requires l + 4 <= d && AllIn(c[l + 4..d], BeginChars)
    requires IndexOf(c, ")", d) == Some(e)
    requires d + 3 <= e <= |c| && AllIn(c[d + 3..e], EndChars)
    ensures Classify(c, p) == Rewrite(d, l, e)
  {
  }

  /** `strpos` from a later start that is still not past the first match finds the same match. */
  lemma IndexOfFromLater(s: string, pat: string, p: nat, q: nat, d: nat)
    requires |pat| > 0 && IndexOf(s, pat, p) == Some(d) && p <= q <= d
    ensures IndexOf(s, pat, q) == Some(d)
  {
  }

  /**
   * As written, once the branch at CssHelper.php:744 fires with the `url(` no
   * earlier than four characters before the position, the scan moves to just
   * after that `url(` and, from there, every further pass lands on the same
   * state again.
   */
  lemma NotUrlStartIsFixpoint(ctx: Context, s: Scan)
    requires s.position < |s.content|
    requires Classify(s.content, s.position).NotUrlStart?
    requires s.position <= Classify(s.content, s.position).urlAt + 4
    ensures var stuck := Scan(s.content, Classify(s.content, s.position).urlAt + 4);
      && Step(ctx, s, false) == Some(stuck)
      && stuck.position < |stuck.content|
      && Step(ctx, stuck, false) == Some(stuck)
  {
    var p := Classify(s.content, s.position);
    IndexOfFromLater(s.content, "../", s.position, p.urlAt + 4, p.dots);
  }

  /** From such a state the scan as written never finishes, however many passes it is given. */
  lemma {:induction false} StuckScanNeverFinishes(ctx: Context, s: Scan, fuel: nat)
    requires s.position < |s.content|
    requires Step(ctx, s, false) == Some(s)
    ensures RunAsWritten(ctx, s, fuel) == None
    decreases fuel
  {
    if fuel > 0 {
      StuckScanNeverFinishes(ctx, s, fuel - 1);
    }
  }

  /** A character that differs from the pattern's rules out an occurrence. */
  lemma MismatchAt(c: string, pat: string, i: nat, k: nat)
    requires k < |pat| && i + k < |c| && c[i + k] != pat[k]
    ensures !OccursAt(c, pat, i)
  {
  }

  /** The first `../` of `url(img/../a.png)` is at index 8. */
  lemma ImageDirectoryDots()
    ensures IndexOf("url(img/../a.png)", "../", 0) == Some(8)
  {
    var c := "url(img/../a.png)";
    MismatchAt(c, "../", 0, 0);
    MismatchAt(c, "../", 1, 0);
    MismatchAt(c, "../", 2, 0);
    MismatchAt(c, "../", 3, 0);
    MismatchAt(c, "../", 4, 0);
    MismatchAt(c, "../", 5, 0);
    MismatchAt(c, "../", 6, 0);
    MismatchAt(c, "../", 7, 0);
    assert c[8..11] == "../";
  }

  /** The last `url(` before that `../` is at index 0. */
  lemma ImageDirectoryUrl()
    ensures LastIndexOf("url(img/", "url(") == Some(0)
  {
    var c := "url(img/";
    assert c[0..4] == "url(";
    MismatchAt(c, "url(", 1, 0);
    MismatchAt(c, "url(", 2, 0);
    MismatchAt(c, "url(", 3, 0);
    MismatchAt(c, "url(", 4, 0);
  }

  /** The first pass over `url(img/../a.png)` takes the branch at CssHelper.php:744. */
  lemma ImageDirectoryStylesheetClassifies()
    ensures Classify("url(img/../a.png)", 0) == NotUrlStart(8, 0)
  {
    var c := "url(img/../a.png)";
    ImageDirectoryDots();
    assert c[..8] == "url(img/";
    ImageDirectoryUrl();
    assert LastIndexOf(c[..8], "url(") == Some(0);
    assert c[0 + 4..8][0] == 'i' && 'i' !in BeginChars;
    assert !AllIn(c[0 + 4..8], BeginChars);
  }

  /**
   * Once that branch fires with the `url(` no earlier than four characters
   * before the position, the scan as written never finishes.
   */
  lemma {:induction false} NotUrlStartNeverFinishes(ctx: Context, s: Scan, fuel: nat)
    requires s.position < |s.content|
    requires Classify(s.content, s.position).NotUrlStart?
    requires s.position <= Classify(s.content, s.position).urlAt + 4
    ensures RunAsWritten(ctx, s, fuel) == None
  {
    NotUrlStartIsFixpoint(ctx, s);
    var stuck := Scan(s.content, Classify(s.content, s.position).urlAt + 4);
    if fuel > 0 {
      StuckScanNeverFinishes(ctx, stuck, fuel - 1);
    }
  }

  /** `url(img/../a.png)`: `img` before the `../` sends the scan as written into that fixpoint. */
  lemma ImageDirectoryStylesheetNeverFinishes(ctx: Context, fuel: nat)
    ensures RunAsWritten(ctx, Scan("url(img/../a.png)", 0), fuel) == None
  {
    ImageDirectoryStylesheetClassifies();
    NotUrlStartNeverFinishes(ctx, Scan("url(img/../a.png)", 0), fuel);
  }

  /** The scan as written never passes the branch at CssHelper.php:744 within `fuel` passes. */
  predicate AvoidsNotUrlStart(ctx: Context, s: Scan, fuel: nat)
    decreases fuel
  {
    s.position < |s.content| && fuel > 0 ==>
      && !Classify(s.content, s.position).NotUrlStart?
      && match Step(ctx, s, false)
         case None => true
         case Some(s') => AvoidsNotUrlStart(ctx, s', fuel - 1)
  }

  /** Away from the branch at CssHelper.php:744 a pass as written is the corrected pass. */
  lemma StepAgreesOffNotUrlStart(ctx: Context, s: Scan)
    requires !Classify(s.content, s.position).NotUrlStart?
    ensures Step(ctx, s, false) == Step(ctx, s, true)
  {
  }

  /** Whenever the scan as written finishes without that branch, the corrected scan gives the same content. */
  lemma {:induction false} CorrectedAgreesWithAsWritten(ctx: Context, s: Scan, fuel: nat)
    requires AvoidsNotUrlStart(ctx, s, fuel)
    requires RunAsWritten(ctx, s, fuel).Some?
    ensures RunAsWritten(ctx, s, fuel) == Some(RunCorrected(ctx, s))
    decreases fuel
  {
    if s.position < |s.content| && fuel > 0 {
      StepAgreesOffNotUrlStart(ctx, s);
      match Step(ctx, s, false) {
        case None =>
        case Some(s') => CorrectedAgreesWithAsWritten(ctx, s', fuel - 1);
      }
    }
  }

}
