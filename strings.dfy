/**
 * The PHP string primitives the asset helpers rely on (`strpos`, `strrpos`,
 * `trim`, `str_replace`, `implode`, `explode`, `mb_substr`), stated over
 * `seq<char>`. The multibyte (`mb_*`) and byte variants coincide here because a
 * string is a sequence of characters.
 */
module Strings {
  import opened Wrappers

  /** `pat` occurs in `s` starting at index `i`. */
  predicate OccursAt(s: string, pat: string, i: int)
  {
    0 <= i && i + |pat| <= |s| && s[i..i + |pat|] == pat
  }

  /** `strpos($s, $pat, $from)`: the first occurrence of `pat` at or after `from`. */
  function IndexOf(s: string, pat: string, from: nat): (r: Option<nat>)
    requires |pat| > 0
    ensures r.Some? ==> from <= r.value && OccursAt(s, pat, r.value)
    ensures r.Some? ==> forall j :: from <= j < r.value ==> !OccursAt(s, pat, j)
    ensures r.None? ==> forall j :: from <= j ==> !OccursAt(s, pat, j)
    decreases |s| - from
  {
    if from + |pat| > |s| then None
    else if s[from..from + |pat|] == pat then Some(from)
    else IndexOf(s, pat, from + 1)
  }

  /** The last occurrence of `pat` in `s` that starts at an index no greater than `i`. */
  function LastIndexUpTo(s: string, pat: string, i: int): (r: Option<nat>)
    requires |pat| > 0
    ensures r.Some? ==> r.value <= i && OccursAt(s, pat, r.value)
    ensures r.Some? ==> forall j :: r.value < j <= i ==> !OccursAt(s, pat, j)
    ensures r.None? ==> forall j :: j <= i ==> !OccursAt(s, pat, j)
    decreases i + 1
  {
    if i < 0 then None
    else if OccursAt(s, pat, i) then Some(i)
    else LastIndexUpTo(s, pat, i - 1)
  }

  /** `strrpos($s, $pat)`: the last occurrence of `pat` in `s`. */
  function LastIndexOf(s: string, pat: string): (r: Option<nat>)
    requires |pat| > 0
    ensures r.Some? ==> OccursAt(s, pat, r.value) && r.value + |pat| <= |s|
    ensures r.Some? ==> forall j :: r.value < j ==> !OccursAt(s, pat, j)
    ensures r.None? ==> forall j :: !OccursAt(s, pat, j)
  {
    LastIndexUpTo(s, pat, |s| - |pat|)
  }

  /** Every character of `s` belongs to `chars`. */
  predicate AllIn(s: string, chars: set<char>)
  {
    forall i :: 0 <= i < |s| ==> s[i] in chars
  }

  /** `ltrim($s, $chars)`: drops the longest prefix made of `chars`. */
  function TrimLeft(s: string, chars: set<char>): (r: string)
    ensures |r| <= |s|
  {
    if |s| > 0 && s[0] in chars then TrimLeft(s[1..], chars) else s
  }

  /** What `ltrim` leaves is a suffix of its input, after a run of `chars`, and starts with no such character. */
  lemma {:induction false} TrimLeftShape(s: string, chars: set<char>)
    ensures var r := TrimLeft(s, chars);
      && r == s[|s| - |r|..]
      && AllIn(s[..|s| - |r|], chars)
      && (r == [] || r[0] !in chars)
  {
    if |s| > 0 && s[0] in chars {
      TrimLeftShape(s[1..], chars);
      var t := TrimLeft(s[1..], chars);
      assert s[1..][..|s[1..]| - |t|] == s[1..|s| - |t|];
    }
  }

  /** `rtrim($s, $chars)`: drops the longest suffix made of `chars`. */
  function TrimRight(s: string, chars: set<char>): (r: string)
    ensures |r| <= |s|
  {
    if |s| > 0 && s[|s| - 1] in chars then TrimRight(s[..|s| - 1], chars) else s
  }

  /** What `rtrim` leaves is a prefix of its input, before a run of `chars`, and ends with no such character. */
  lemma {:induction false} TrimRightShape(s: string, chars: set<char>)
    ensures var r := TrimRight(s, chars);
      && r == s[..|r|]
      && AllIn(s[|r|..], chars)
      && (r == [] || r[|r| - 1] !in chars)
  {
    if |s| > 0 && s[|s| - 1] in chars {
      TrimRightShape(s[..|s| - 1], chars);
      var t := TrimRight(s[..|s| - 1], chars);
      assert s[|t|..] == s[..|s| - 1][|t|..] + [s[|s| - 1]];
    }
  }

  /** `trim($s, $chars)`. */
  function Trim(s: string, chars: set<char>): (r: string)
  {
    TrimRight(TrimLeft(s, chars), chars)
  }

  /** `str_replace($a, $b, $s)` for single characters. */
  function ReplaceChar(s: string, a: char, b: char): (r: string)
    ensures |r| == |s|
    ensures forall i :: 0 <= i < |s| ==> r[i] == (if s[i] == a then b else s[i])
  {
    if s == [] then [] else [if s[0] == a then b else s[0]] + ReplaceChar(s[1..], a, b)
  }

  /** `str_replace($pat, $rep, $s)`: replaces, left to right, every non-overlapping occurrence. */
  function ReplaceAll(s: string, pat: string, rep: string): string
    requires |pat| > 0
    decreases |s|
  {
    if |s| < |pat| then s
    else if s[..|pat|] == pat then rep + ReplaceAll(s[|pat|..], pat, rep)
    else [s[0]] + ReplaceAll(s[1..], pat, rep)
  }

  /** Characters of `s`, as a set. */
  function Chars(s: string): set<char>
  {
    set i | 0 <= i < |s| :: s[i]
  }

  /**
   * A prefix of the replaced text that holds no character of the replacement
   * was copied unchanged from the input.
   */
  lemma {:induction false} ReplaceAllKeepsPlainPrefix(u: string, pat: string, rep: string, w: string)
    requires |pat| > 0 && |rep| > 0
    requires Chars(w) !! Chars(rep)
    ensures w <= ReplaceAll(u, pat, rep) ==> w <= u
    decreases |u|
  {
    if |u| < |pat| || w == [] {
    } else if u[..|pat|] == pat {
      assert ReplaceAll(u, pat, rep)[0] == rep[0];
      assert w[0] in Chars(w) && rep[0] in Chars(rep);
    } else {
      var t := ReplaceAll(u[1..], pat, rep);
      assert ReplaceAll(u, pat, rep) == [u[0]] + t;
      assert Chars(w[1..]) <= Chars(w) by {
        forall c | c in Chars(w[1..]) ensures c in Chars(w) {
          var i :| 0 <= i < |w[1..]| && w[1..][i] == c;
          assert w[i + 1] == c;
        }
      }
      ReplaceAllKeepsPlainPrefix(u[1..], pat, rep, w[1..]);
    }
  }

  /**
   * When the replacement shares no character with the pattern, no occurrence
   * of the pattern is left after `str_replace`.
   */
  lemma {:induction false} ReplaceAllRemovesEveryOccurrence(s: string, pat: string, rep: string, j: int)
    requires |pat| > 0 && |rep| > 0
    requires Chars(pat) !! Chars(rep)
    ensures !OccursAt(ReplaceAll(s, pat, rep), pat, j)
    decreases |s|
  {
    var r := ReplaceAll(s, pat, rep);
    if |s| < |pat| {
    } else if s[..|pat|] == pat {
      var t := ReplaceAll(s[|pat|..], pat, rep);
      assert r == rep + t;
      if 0 <= j < |rep| {
        assert r[j] == rep[j];
        assert pat[0] in Chars(pat) && rep[j] in Chars(rep);
      } else if j >= |rep| && j + |pat| <= |r| {
        assert r[j..j + |pat|] == t[j - |rep|..j - |rep| + |pat|];
        ReplaceAllRemovesEveryOccurrence(s[|pat|..], pat, rep, j - |rep|);
      }
    } else {
      var t := ReplaceAll(s[1..], pat, rep);
      assert r == [s[0]] + t;
      if j == 0 && |pat| <= |r| {
        var w := pat[1..];
        assert Chars(w) !! Chars(rep) by {
          forall c | c in Chars(w) ensures c in Chars(pat) {
            var i :| 0 <= i < |w| && w[i] == c;
            assert pat[i + 1] == c;
          }
        }
        ReplaceAllKeepsPlainPrefix(s[1..], pat, rep, w);
        assert r[..|pat|] == [s[0]] + t[..|w|];
      } else if j >= 1 && j + |pat| <= |r| {
        assert r[j..j + |pat|] == t[j - 1..j - 1 + |pat|];
        ReplaceAllRemovesEveryOccurrence(s[1..], pat, rep, j - 1);
      }
    }
  }

  /** `implode($sep, $parts)`. */
  function Join(sep: string, parts: seq<string>): string
  {
    if |parts| == 0 then ""
    else if |parts| == 1 then parts[0]
    else parts[0] + sep + Join(sep, parts[1..])
  }

  /** `explode($d, $s)` for a one-character delimiter. */
  function Split(s: string, d: char): (r: seq<string>)
    ensures |r| >= 1
    ensures forall k :: 0 <= k < |r| ==> d !in r[k]
    ensures Join([d], r) == s
    decreases |s|
  {
    if d !in s then [s]
    else
      var i := FirstIndex(s, d);
      var rest := Split(s[i + 1..], d);
      assert s == s[..i] + [d] + s[i + 1..];
      [s[..i]] + rest
  }

  /** The index of the first `d` in `s`. */
  function FirstIndex(s: string, d: char): (i: nat)
    requires d in s
    ensures i < |s| && s[i] == d && d !in s[..i]
  {
    if s[0] == d then 0 else 1 + FirstIndex(s[1..], d)
  }

  /** `mb_substr($s, $n)` for `$n >= 0`: the text after the first `n` characters. */
  function Drop(s: string, n: nat): (r: string)
  {
    if n <= |s| then s[n..] else ""
  }

  /** The decimal digits of `n`, as PHP converts an integer to a string. */
  function DecimalString(n: nat): (r: string)
    ensures |r| >= 1
    ensures forall i :: 0 <= i < |r| ==> '0' <= r[i] <= '9'
  {
    var digit := ['0' + (n % 10) as char];
    if n < 10 then digit else DecimalString(n / 10) + digit
  }
}
