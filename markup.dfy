/**
 * Pieces both helpers use when they turn a group into HTML: what rendering
 * reads, the begin/end marker comments, the indented `implode` of the tags
 * (CssHelper.php:566-569, JsHelper.php:519-524), the parts of a joined file,
 * and the pairing of a rendered value with the file system its rendering
 * left behind.
 */
module Markup {
  import opened Wrappers
  import opened Strings
  import opened Platform
  import opened Disk

  /** What rendering reads besides the items and the file system; `now` is the time written files get. */
  datatype Env = Env(cfg: Config, col: Collaborators, h: Hashes, now: nat)

  /** A rendered value together with the file system after rendering it. */
  datatype Written<T> = Written(value: T, fs: FileSystem)

  /** The outcome of the remaining passes of a loop, after the values already produced. */
  function Prefixed<T>(done: seq<T>, rest: Result<Written<seq<T>>>): (r: Result<Written<seq<T>>>)
    ensures rest.Err? ==> r == rest
    ensures rest.Ok? ==> r == Ok(Written(done + rest.value.value, rest.value.fs))
  {
    match rest
    case Err(e) => Err(e)
    case Ok(w) => Ok(Written(done + w.value, w.fs))
  }

  /** Before the first pass nothing is done yet. */
  lemma PrefixedNothing<T>(rest: Result<Written<seq<T>>>)
    ensures Prefixed([], rest) == rest
  {
    if rest.Ok? {
      assert [] + rest.value.value == rest.value.value;
    }
  }

  /** One more pass moves its value from what is left to what is done. */
  lemma PrefixedPass<T>(done: seq<T>, v: T, rest: Result<Written<seq<T>>>)
    ensures Prefixed(done, Prefixed([v], rest)) == Prefixed(done + [v], rest)
  {
    if rest.Ok? {
      assert done + ([v] + rest.value.value) == done + [v] + rest.value.value;
    }
  }

  /** Values done in two stretches are done in one. */
  lemma PrefixedJoin<T>(a: seq<T>, b: seq<T>, rest: Result<Written<seq<T>>>)
    ensures Prefixed(a, Prefixed(b, rest)) == Prefixed(a + b, rest)
  {
    if rest.Ok? {
      assert a + (b + rest.value.value) == a + b + rest.value.value;
    }
  }

  /** After the last pass everything is done. */
  lemma PrefixedAll<T>(done: seq<T>, fs: FileSystem)
    ensures Prefixed(done, Ok(Written([], fs))) == Ok(Written(done, fs))
  {
    assert done + [] == done;
  }

  /** The same for a loop that leaves the file system alone. */
  function PrefixedList<T>(done: seq<T>, rest: Result<seq<T>>): (r: Result<seq<T>>)
    ensures rest.Err? ==> r == rest
    ensures rest.Ok? ==> r == Ok(done + rest.value)
  {
    match rest
    case Err(e) => Err(e)
    case Ok(v) => Ok(done + v)
  }

  /** Before the first pass nothing is done yet. */
  lemma PrefixedListNothing<T>(rest: Result<seq<T>>)
    ensures PrefixedList([], rest) == rest
  {
    if rest.Ok? {
      assert [] + rest.value == rest.value;
    }
  }

  /** One more pass moves its value from what is left to what is done. */
  lemma PrefixedListPass<T>(done: seq<T>, v: T, rest: Result<seq<T>>)
    ensures PrefixedList(done, PrefixedList([v], rest)) == PrefixedList(done + [v], rest)
  {
    if rest.Ok? {
      assert done + ([v] + rest.value) == done + [v] + rest.value;
    }
  }

  /** After the last pass everything is done. */
  lemma PrefixedListAll<T>(done: seq<T>)
    ensures PrefixedList(done, Ok([])) == Ok(done)
  {
    assert done + [] == done;
  }

  /** One part of a joined file: a comment naming the source, then its content. */
  function Part(path: string, content: string): (r: string)
    ensures "/* " + path + " */\n" <= r && r[|path| + 7..] == content
  {
    "/* " + path + " */\n" + content
  }

  /** The begin and end marker comments around a group's tags, present only when file rendering is on. */
  function WithMarkers(fileRendering: bool, begin: string, end: string, tags: seq<string>): (r: seq<string>)
    ensures fileRendering ==> |r| == |tags| + 2 && r[0] == begin && r[|r| - 1] == end && r[1..|r| - 1] == tags
    ensures !fileRendering ==> r == tags
  {
    if fileRendering then [begin] + tags + [end] else tags
  }

  /** `"\n" . $indentStr . implode("\n" . $indentStr, $resultItems)`. */
  function GroupMarkup(indentStr: string, resultItems: seq<string>): (r: string)
    ensures "\n" + indentStr <= r
  {
    "\n" + indentStr + Join("\n" + indentStr, resultItems)
  }

  /** Every line with its own line break and indentation in front: an independent reading of the markup. */
  function Lines(lead: string, resultItems: seq<string>): string
  {
    if resultItems == [] then "" else lead + resultItems[0] + Lines(lead, resultItems[1..])
  }

  /** A non-empty group's markup puts each tag on its own line, indented, in order. */
  lemma {:induction false} GroupMarkupIsLines(indentStr: string, resultItems: seq<string>)
    requires resultItems != []
    ensures GroupMarkup(indentStr, resultItems) == Lines("\n" + indentStr, resultItems)
    decreases |resultItems|
  {
    var lead := "\n" + indentStr;
    if |resultItems| > 1 {
      GroupMarkupIsLines(indentStr, resultItems[1..]);
      calc {
        GroupMarkup(indentStr, resultItems);
        lead + (resultItems[0] + lead + Join(lead, resultItems[1..]));
        lead + resultItems[0] + (lead + Join(lead, resultItems[1..]));
        lead + resultItems[0] + Lines(lead, resultItems[1..]);
      }
    } else {
      assert resultItems[1..] == [];
    }
  }

  /** A relation that holds between the heads and along the tails of two lists holds along the whole lists. */
  lemma PairwiseCons<T, U>(p: (T, U) -> bool, xs: seq<T>, y: U, ys: seq<U>)
    requires xs != [] && |ys| == |xs| - 1 && p(xs[0], y)
    requires forall i | 0 <= i < |ys| :: p(xs[1..][i], ys[i])
    ensures forall i | 0 <= i < |xs| :: p(xs[i], ([y] + ys)[i])
  {
    forall i | 0 < i < |xs| ensures xs[i] == xs[1..][i - 1] && ([y] + ys)[i] == ys[i - 1] {
    }
  }
}
