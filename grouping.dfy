/**
 * `separateItemsToMinifiedGroups` (Assets.php:542-572): items are bucketed by
 * the md5 of the JSON of their attribute signature, `notMin` items into the
 * "separately" buckets and all others into the "minimized" buckets. Buckets
 * keep PHP's insertion order: a bucket appears where its key is first seen,
 * and items keep their input order inside a bucket.
 */
module Grouping {
  import opened Wrappers
  import opened Platform
  import opened Items

  /**
   * What is left of `(array) $item` once `path`, `fullPath`, `vendor`,
   * `render` and `external` are unset, in the record's field order.
   */
  function Signature(item: Item): Value
  {
    match item.kind
    case Style(media, _) => VAssoc([("media", VInt(media)), ("notMin", VBool(item.notMin))])
    case Script(async, defer, _) => VAssoc([("async", VBool(async)), ("defer", VBool(defer)), ("notMin", VBool(item.notMin))])
  }

  /** The bucket key of an item. */
  function BucketKey(h: Hashes, item: Item): string
  {
    h.md5(h.jsonEncode(Signature(item)))
  }

  /** The key ignores where an item lives and whether it is rendered, vendored or external. */
  lemma BucketKeyIgnoresLocation(h: Hashes, a: Item, b: Item)
    requires a.notMin == b.notMin
    requires a.kind.Style? && b.kind.Style? ==> a.kind.media == b.kind.media
    requires a.kind.Script? && b.kind.Script? ==> a.kind.async == b.kind.async && a.kind.defer == b.kind.defer
    requires a.kind.Style? <==> b.kind.Style?
    ensures BucketKey(h, a) == BucketKey(h, b)
  {
  }

  /** One bucket: its key and its items. */
  datatype Bucket = Bucket(key: string, items: seq<Item>)

  function Keys(bs: seq<Bucket>): (r: seq<string>)
    ensures |r| == |bs| && forall i :: 0 <= i < |bs| ==> r[i] == bs[i].key
  {
    seq(|bs|, i requires 0 <= i < |bs| => bs[i].key)
  }

  predicate NoDuplicates<T(==)>(s: seq<T>)
  {
    forall i, j :: 0 <= i < j < |s| ==> s[i] != s[j]
  }

  /** The index of the bucket with key `k` (`isset($buckets[$k])`). */
  function Find(bs: seq<Bucket>, k: string): (r: Option<nat>)
    ensures r.Some? ==> r.value < |bs| && bs[r.value].key == k
    ensures r.None? ==> k !in Keys(bs)
  {
    if bs == [] then None
    else match Find(bs[..|bs| - 1], k)
      case Some(i) => Some(i)
      case None =>
        assert Keys(bs) == Keys(bs[..|bs| - 1]) + [bs[|bs| - 1].key];
        if bs[|bs| - 1].key == k then Some(|bs| - 1) else None
  }

  /** Appends `item` to the bucket for `k`, opening that bucket at the end when it is new. */
  function AddToBuckets(bs: seq<Bucket>, k: string, item: Item): seq<Bucket>
  {
    match Find(bs, k)
    case Some(i) => bs[i := Bucket(k, bs[i].items + [item])]
    case None => bs + [Bucket(k, [item])]
  }

  /** The buckets of `items`, filled in input order. */
  function Bucketize(h: Hashes, items: seq<Item>): seq<Bucket>
  {
    if items == [] then []
    else AddToBuckets(Bucketize(h, items[..|items| - 1]), BucketKey(h, items[|items| - 1]), items[|items| - 1])
  }

  /** The items whose `notMin` equals `flag`, in input order. */
  function WithNotMin(items: seq<Item>, flag: bool): (r: seq<Item>)
    ensures forall i :: 0 <= i < |r| ==> r[i].notMin == flag
  {
    if items == [] then []
    else WithNotMin(items[..|items| - 1], flag) + (if items[|items| - 1].notMin == flag then [items[|items| - 1]] else [])
  }

  /** Bucketing one more item adds it to the buckets of the others. */
  lemma BucketizeSnoc(h: Hashes, s: seq<Item>, x: Item)
    ensures Bucketize(h, s + [x]) == AddToBuckets(Bucketize(h, s), BucketKey(h, x), x)
  {
    assert (s + [x])[..|s|] == s;
  }

  /** Filtering one more item extends the filtered prefix. */
  lemma WithNotMinSnoc(items: seq<Item>, i: nat, flag: bool)
    requires i < |items|
    ensures WithNotMin(items[..i + 1], flag)
         == WithNotMin(items[..i], flag) + (if items[i].notMin == flag then [items[i]] else [])
  {
    assert items[..i + 1][..i] == items[..i];
  }

  /** The buckets of the filtered prefix grow by the next item exactly when it passes the filter. */
  lemma BucketizeStep(h: Hashes, items: seq<Item>, i: nat, flag: bool)
    requires i < |items|
    ensures Bucketize(h, WithNotMin(items[..i + 1], flag))
         == if items[i].notMin == flag
            then AddToBuckets(Bucketize(h, WithNotMin(items[..i], flag)), BucketKey(h, items[i]), items[i])
            else Bucketize(h, WithNotMin(items[..i], flag))
  {
    var before := WithNotMin(items[..i], flag);
    WithNotMinSnoc(items, i, flag);
    if items[i].notMin == flag {
      BucketizeSnoc(h, before, items[i]);
    } else {
      assert WithNotMin(items[..i + 1], flag) == before;
    }
  }

  /** The bucket map update of the loop body: append to an existing bucket or open a new one. */
  method AddToBucketMap(buckets: seq<Bucket>, key: string, item: Item) returns (r: seq<Bucket>)
    ensures r == AddToBuckets(buckets, key, item)
  {
    match Find(buckets, key) {
      case Some(j) =>
        r := buckets[j := Bucket(key, buckets[j].items + [item])];
      case None =>
        r := buckets + [Bucket(key, [item])];
    }
  }

  /**
   * `separateItemsToMinifiedGroups`: one pass over the items, appending each
   * to the bucket of its key in the map its `notMin` flag selects.
   */
  method SeparateItemsToMinifiedGroups(h: Hashes, items: seq<Item>) returns (minimized: seq<Bucket>, separately: seq<Bucket>)
    ensures minimized == Bucketize(h, WithNotMin(items, false))
    ensures separately == Bucketize(h, WithNotMin(items, true))
  {
    minimized := [];
    separately := [];
    var i := 0;
    while i < |items|
      invariant 0 <= i <= |items|
      invariant minimized == Bucketize(h, WithNotMin(items[..i], false))
      invariant separately == Bucketize(h, WithNotMin(items[..i], true))
    {
      var item := items[i];
      var renderArrayKey := BucketKey(h, item);
      BucketizeStep(h, items, i, true);
      BucketizeStep(h, items, i, false);
      if item.notMin {
        separately := AddToBucketMap(separately, renderArrayKey, item);
      } else {
        minimized := AddToBucketMap(minimized, renderArrayKey, item);
      }
      i := i + 1;
    }
    assert items[..|items|] == items;
  }

  /** The keys of `items`, in input order. */
  function ItemKeys(h: Hashes, items: seq<Item>): (r: seq<string>)
    ensures |r| == |items|
  {
    if items == [] then [] else ItemKeys(h, items[..|items| - 1]) + [BucketKey(h, items[|items| - 1])]
  }

  /** `s` with every repeated element dropped after its first occurrence. */
  function FirstOccurrences(s: seq<string>): (r: seq<string>)
    ensures forall x :: x in r <==> x in s
  {
    if s == [] then []
    else
      var d := FirstOccurrences(s[..|s| - 1]);
      assert s == s[..|s| - 1] + [s[|s| - 1]];
      if s[|s| - 1] in d then d else d + [s[|s| - 1]]
  }

  /** The items with key `k`, in input order. */
  function WithKey(h: Hashes, items: seq<Item>, k: string): seq<Item>
  {
    if items == [] then []
    else WithKey(h, items[..|items| - 1], k) + (if BucketKey(h, items[|items| - 1]) == k then [items[|items| - 1]] else [])
  }

  /**
   * `bs` are the buckets of `items`: the bucket keys are the item keys in
   * first-seen order, without repeats; each bucket holds exactly the items
   * with its key, in input order, and is never empty; a key without a bucket
   * has no items.
   */
  ghost predicate Describes(h: Hashes, items: seq<Item>, bs: seq<Bucket>)
  {
    KeysInOrder(h, items, bs) && Filled(h, items, bs)
  }

  /** The bucket keys are the item keys in first-seen order, without repeats. */
  ghost predicate KeysInOrder(h: Hashes, items: seq<Item>, bs: seq<Bucket>)
  {
    Keys(bs) == FirstOccurrences(ItemKeys(h, items)) && NoDuplicates(Keys(bs))
  }

  /** Each bucket holds exactly the items with its key and is never empty; a key without a bucket has no items. */
  ghost predicate Filled(h: Hashes, items: seq<Item>, bs: seq<Bucket>)
  {
    && (forall i :: 0 <= i < |bs| ==> bs[i].items == WithKey(h, items, bs[i].key) && |bs[i].items| > 0)
    && (forall k :: k !in Keys(bs) ==> WithKey(h, items, k) == [])
  }

  /** What bucketing produces, as `Describes` states it. */
  lemma {:induction false} BucketizeSpec(h: Hashes, items: seq<Item>)
    ensures Describes(h, items, Bucketize(h, items))
    decreases |items|
  {
    if items != [] {
      var prefix, x := items[..|items| - 1], items[|items| - 1];
      assert items == prefix + [x];
      BucketizeSpec(h, prefix);
      match Find(Bucketize(h, prefix), BucketKey(h, x)) {
        case Some(j) =>
          ExistingBucketKeys(h, prefix, x, j);
          ExistingBucketFilled(h, prefix, x, j);
        case None =>
          NewBucketKeys(h, prefix, x);
          NewBucketFilled(h, prefix, x);
      }
    }
  }

  /** One more item extends the key sequence by its key. */
  lemma ItemKeysSnoc(h: Hashes, prefix: seq<Item>, x: Item)
    ensures ItemKeys(h, prefix + [x]) == ItemKeys(h, prefix) + [BucketKey(h, x)]
  {
    assert (prefix + [x])[..|prefix|] == prefix;
  }

  /** One more item extends the items with its key by itself, and no others. */
  lemma WithKeySnoc(h: Hashes, prefix: seq<Item>, x: Item, k: string)
    ensures WithKey(h, prefix + [x], k) == WithKey(h, prefix, k) + (if BucketKey(h, x) == k then [x] else [])
  {
    assert (prefix + [x])[..|prefix|] == prefix;
  }

  /** The first occurrences of a sequence with one more element. */
  lemma FirstOccurrencesSnoc(s: seq<string>, k: string)
    ensures FirstOccurrences(s + [k]) == if k in s then FirstOccurrences(s) else FirstOccurrences(s) + [k]
  {
    assert (s + [k])[..|s|] == s;
  }

  /** An item whose key already has a bucket leaves the keys as they were. */
  lemma ExistingBucketKeys(h: Hashes, prefix: seq<Item>, x: Item, j: nat)
    requires KeysInOrder(h, prefix, Bucketize(h, prefix))
    requires Find(Bucketize(h, prefix), BucketKey(h, x)) == Some(j)
    ensures KeysInOrder(h, prefix + [x], Bucketize(h, prefix + [x]))
  {
    var k, bs := BucketKey(h, x), Bucketize(h, prefix);
    var bs' := bs[j := Bucket(k, bs[j].items + [x])];
    BucketizeSnoc(h, prefix, x);
    assert Keys(bs') == Keys(bs) by {
      forall i | 0 <= i < |bs'| ensures Keys(bs')[i] == Keys(bs)[i] {
      }
    }
    assert Keys(bs)[j] == k;
    ItemKeysSnoc(h, prefix, x);
    FirstOccurrencesSnoc(ItemKeys(h, prefix), k);
  }

  /** An item whose key already has a bucket joins that bucket, at its end. */
  lemma ExistingBucketFilled(h: Hashes, prefix: seq<Item>, x: Item, j: nat)
    requires KeysInOrder(h, prefix, Bucketize(h, prefix)) && Filled(h, prefix, Bucketize(h, prefix))
    requires Find(Bucketize(h, prefix), BucketKey(h, x)) == Some(j)
    ensures Filled(h, prefix + [x], Bucketize(h, prefix + [x]))
  {
    var k, bs := BucketKey(h, x), Bucketize(h, prefix);
    var bs' := bs[j := Bucket(k, bs[j].items + [x])];
    BucketizeSnoc(h, prefix, x);
    forall i | 0 <= i < |bs'|
      ensures bs'[i].items == WithKey(h, prefix + [x], bs'[i].key) && |bs'[i].items| > 0
    {
      WithKeySnoc(h, prefix, x, bs'[i].key);
      if i != j {
        assert Keys(bs)[i] != Keys(bs)[j];
      }
    }
    forall k' | k' !in Keys(bs') ensures WithKey(h, prefix + [x], k') == [] {
      WithKeySnoc(h, prefix, x, k');
      assert Keys(bs') == Keys(bs) by {
        forall i | 0 <= i < |bs'| ensures Keys(bs')[i] == Keys(bs)[i] {
        }
      }
      assert Keys(bs)[j] == k;
    }
  }

  /** An item with a new key opens a new bucket, whose key comes last. */
  lemma NewBucketKeys(h: Hashes, prefix: seq<Item>, x: Item)
    requires KeysInOrder(h, prefix, Bucketize(h, prefix))
    requires Find(Bucketize(h, prefix), BucketKey(h, x)).None?
    ensures KeysInOrder(h, prefix + [x], Bucketize(h, prefix + [x]))
  {
    var k, bs := BucketKey(h, x), Bucketize(h, prefix);
    var bs' := bs + [Bucket(k, [x])];
    BucketizeSnoc(h, prefix, x);
    assert Keys(bs') == Keys(bs) + [k] by {
      forall i | 0 <= i < |bs'| ensures Keys(bs')[i] == (Keys(bs) + [k])[i] {
      }
    }
    ItemKeysSnoc(h, prefix, x);
    FirstOccurrencesSnoc(ItemKeys(h, prefix), k);
  }

  /** An item with a new key is alone in its new bucket. */
  lemma NewBucketFilled(h: Hashes, prefix: seq<Item>, x: Item)
    requires Filled(h, prefix, Bucketize(h, prefix))
    requires Find(Bucketize(h, prefix), BucketKey(h, x)).None?
    ensures Filled(h, prefix + [x], Bucketize(h, prefix + [x]))
  {
    var k, bs := BucketKey(h, x), Bucketize(h, prefix);
    var bs' := bs + [Bucket(k, [x])];
    BucketizeSnoc(h, prefix, x);
    assert Keys(bs') == Keys(bs) + [k] by {
      forall i | 0 <= i < |bs'| ensures Keys(bs')[i] == (Keys(bs) + [k])[i] {
      }
    }
    forall i | 0 <= i < |bs'|
      ensures bs'[i].items == WithKey(h, prefix + [x], bs'[i].key) && |bs'[i].items| > 0
    {
      WithKeySnoc(h, prefix, x, bs'[i].key);
      if i < |bs| {
        assert Keys(bs)[i] != k;
      }
    }
    forall k' | k' !in Keys(bs') ensures WithKey(h, prefix + [x], k') == [] {
      WithKeySnoc(h, prefix, x, k');
    }
  }

  /** All items of a list of buckets, bucket after bucket. */
  function Flatten(bs: seq<Bucket>): seq<Item>
  {
    if bs == [] then [] else Flatten(bs[..|bs| - 1]) + bs[|bs| - 1].items
  }

  /** Flattening distributes over concatenation of bucket lists. */
  lemma {:induction false} FlattenConcat(xs: seq<Bucket>, ys: seq<Bucket>)
    ensures Flatten(xs + ys) == Flatten(xs) + Flatten(ys)
    decreases |ys|
  {
    if ys == [] {
      assert xs + ys == xs;
    } else {
      var last := |ys| - 1;
      assert (xs + ys)[..|xs + ys| - 1] == xs + ys[..last];
      FlattenConcat(xs, ys[..last]);
    }
  }

  /** Adding an item to a list of buckets adds exactly that item to its contents. */
  lemma AddToBucketsContents(bs: seq<Bucket>, k: string, x: Item)
    ensures multiset(Flatten(AddToBuckets(bs, k, x))) == multiset(Flatten(bs)) + multiset{x}
  {
    match Find(bs, k) {
      case Some(j) =>
        var b := Bucket(k, bs[j].items + [x]);
        assert AddToBuckets(bs, k, x) == bs[j := b];
        var pre, post := bs[..j], bs[j + 1..];
        assert bs == pre + [bs[j]] + post;
        assert bs[j := b] == pre + [b] + post;
        FlattenConcat(pre + [bs[j]], post);
        FlattenConcat(pre, [bs[j]]);
        FlattenConcat(pre + [b], post);
        FlattenConcat(pre, [b]);
        assert Flatten([b]) == b.items;
        assert Flatten([bs[j]]) == bs[j].items;
        assert Flatten(bs[j := b]) == Flatten(pre) + bs[j].items + [x] + Flatten(post);
        assert Flatten(bs) == Flatten(pre) + bs[j].items + Flatten(post);
      case None =>
        var bs' := bs + [Bucket(k, [x])];
        assert bs'[..|bs|] == bs;
        assert Flatten(bs') == Flatten(bs) + [x];
    }
  }

  /** Bucketing neither loses nor duplicates an item. */
  lemma {:induction false} BucketizePartition(h: Hashes, items: seq<Item>)
    ensures multiset(Flatten(Bucketize(h, items))) == multiset(items)
    decreases |items|
  {
    if items != [] {
      var prefix := items[..|items| - 1];
      var x := items[|items| - 1];
      BucketizePartition(h, prefix);
      assert Bucketize(h, items) == AddToBuckets(Bucketize(h, prefix), BucketKey(h, x), x);
      AddToBucketsContents(Bucketize(h, prefix), BucketKey(h, x), x);
      LastSplit(items);
    }
  }

  /** Splitting by `notMin` sends every item to exactly one side. */
  lemma {:induction false} NotMinPartition(items: seq<Item>)
    ensures multiset(WithNotMin(items, true)) + multiset(WithNotMin(items, false)) == multiset(items)
    decreases |items|
  {
    if items != [] {
      var prefix := items[..|items| - 1];
      var x := items[|items| - 1];
      NotMinPartition(prefix);
      var kept := WithNotMin(items, true);
      var dropped := WithNotMin(items, false);
      LastSplit(items);
      if x.notMin {
        assert kept == WithNotMin(prefix, true) + [x];
        assert dropped == WithNotMin(prefix, false) + [];
      } else {
        assert kept == WithNotMin(prefix, true) + [];
        assert dropped == WithNotMin(prefix, false) + [x];
      }
    }
  }

  /** A non-empty list is its prefix plus its last element, as multisets too. */
  lemma LastSplit<T>(s: seq<T>)
    requires s != []
    ensures multiset(s) == multiset(s[..|s| - 1]) + multiset{s[|s| - 1]}
  {
    assert s == s[..|s| - 1] + [s[|s| - 1]];
  }

  /** The buckets `renderItemsTogether` renders, in both helpers: those not to minify first, then those to minify. */
  function TogetherBuckets(h: Hashes, items: seq<Item>): seq<Bucket>
  {
    Bucketize(h, WithNotMin(items, true)) + Bucketize(h, WithNotMin(items, false))
  }

  /** Bucketing never produces an empty bucket. */
  lemma BucketsNonEmpty(h: Hashes, items: seq<Item>)
    ensures forall i | 0 <= i < |Bucketize(h, items)| :: Bucketize(h, items)[i].items != []
  {
    BucketizeSpec(h, items);
  }

  /** A bucket whose items all carry the bucket's key. */
  predicate Keyed(h: Hashes, b: Bucket)
  {
    forall j | 0 <= j < |b.items| :: BucketKey(h, b.items[j]) == b.key
  }

  /** Every bucket holds only items with the bucket's key. */
  lemma BucketsKeyed(h: Hashes, items: seq<Item>)
    ensures forall i | 0 <= i < |Bucketize(h, items)| :: Keyed(h, Bucketize(h, items)[i])
  {
    var bs := Bucketize(h, items);
    BucketizeSpec(h, items);
    forall i | 0 <= i < |bs| ensures Keyed(h, bs[i]) {
      WithKeyAgrees(h, items, bs[i].key);
    }
  }

  /** The joined buckets are never empty. */
  lemma TogetherBucketsNonEmpty(h: Hashes, items: seq<Item>)
    ensures forall i | 0 <= i < |TogetherBuckets(h, items)| :: TogetherBuckets(h, items)[i].items != []
  {
    var sep: seq<Bucket>, joined: seq<Bucket> := Bucketize(h, WithNotMin(items, true)), Bucketize(h, WithNotMin(items, false));
    BucketsNonEmpty(h, WithNotMin(items, true));
    BucketsNonEmpty(h, WithNotMin(items, false));
    forall i | 0 <= i < |sep + joined| ensures (sep + joined)[i].items != [] {
      ConcatAt(sep, joined, i);
    }
  }

  /** Each joined bucket shares one signature. */
  lemma TogetherBucketsKeyed(h: Hashes, items: seq<Item>)
    ensures forall i | 0 <= i < |TogetherBuckets(h, items)| :: Keyed(h, TogetherBuckets(h, items)[i])
  {
    var sep: seq<Bucket>, joined: seq<Bucket> := Bucketize(h, WithNotMin(items, true)), Bucketize(h, WithNotMin(items, false));
    BucketsKeyed(h, WithNotMin(items, true));
    BucketsKeyed(h, WithNotMin(items, false));
    forall i | 0 <= i < |sep + joined| ensures Keyed(h, (sep + joined)[i]) {
      ConcatAt(sep, joined, i);
    }
  }

  /** An element of a concatenation comes from the first list or the second. */
  lemma ConcatAt<T>(a: seq<T>, b: seq<T>, i: nat)
    requires i < |a + b|
    ensures i < |a| ==> (a + b)[i] == a[i]
    ensures i >= |a| ==> (a + b)[i] == b[i - |a|]
  {
  }

  /** Together the joined buckets hold every item of the group exactly once. */
  lemma TogetherBucketsPartition(h: Hashes, items: seq<Item>)
    ensures multiset(Flatten(TogetherBuckets(h, items))) == multiset(items)
  {
    FlattenConcat(Bucketize(h, WithNotMin(items, true)), Bucketize(h, WithNotMin(items, false)));
    BucketizePartition(h, WithNotMin(items, true));
    BucketizePartition(h, WithNotMin(items, false));
    NotMinPartition(items);
  }

  /** Every item `WithKey` selects has that key. */
  lemma {:induction false} WithKeyAgrees(h: Hashes, items: seq<Item>, k: string)
    ensures forall j | 0 <= j < |WithKey(h, items, k)| :: BucketKey(h, WithKey(h, items, k)[j]) == k
    decreases |items|
  {
    if items != [] {
      WithKeyAgrees(h, items[..|items| - 1], k);
    }
  }
}
