/**
 * The item registry of a helper (Assets.php:57-63, 462-526): a two-level
 * store, controller/action key then group name, of ordered item lists, and a
 * flat set of "reverse keys" recording which registrations were made. PHP
 * arrays remember insertion order, so the order in which group names were
 * first used under an action key is kept beside the store.
 */
module Registry {
  import opened Wrappers
  import opened Platform
  import opened Items
  import opened Grouping

  type Store = map<string, map<string, seq<Item>>>
  type Order = map<string, seq<string>>

  /** The items of group `g` under action key `a`; a missing entry reads as empty. */
  function GroupOf(store: Store, a: string, g: string): (r: seq<Item>)
    ensures a in store && g in store[a] ==> r == store[a][g]
    ensures !(a in store && g in store[a]) ==> r == []
  {
    if a in store && g in store[a] then store[a][g] else []
  }

  /**
   * `setGroupStore` on the store: creates the missing action and group
   * entries, stores `items` under them and touches no other entry.
   */
  function PutGroup(store: Store, a: string, g: string, items: seq<Item>): (r: Store)
    ensures a in r && g in r[a] && r[a][g] == items
    ensures r.Keys == store.Keys + {a}
    ensures a in store ==> r[a].Keys == store[a].Keys + {g}
    ensures a !in store ==> r[a].Keys == {g}
    ensures forall a' | a' in store && a' != a :: r[a'] == store[a']
    ensures forall g' | a in store && g' in store[a] && g' != g :: r[a][g'] == store[a][g']
  {
    var groups := if a in store then store[a] else map[];
    store[a := groups[g := items]]
  }

  /**
   * `getGroupStore` on the store: creates the missing action and group
   * entries (an empty group) and otherwise leaves the store as it was.
   */
  function WithEntry(store: Store, a: string, g: string): (r: Store)
    ensures a in r && g in r[a]
    ensures forall a', g' :: GroupOf(r, a', g') == GroupOf(store, a', g')
    ensures a in store && g in store[a] ==> r == store
  {
    var r := PutGroup(store, a, g, GroupOf(store, a, g));
    assert forall a', g' :: GroupOf(r, a', g') == GroupOf(store, a', g') by {
      forall a', g' ensures GroupOf(r, a', g') == GroupOf(store, a', g') {
        if a' == a && a !in store {
          assert g' != g ==> g' !in r[a];
        }
      }
    }
    if a in store && g in store[a] then
      assert r[a] == store[a];
      r
    else
      r
  }

  /** Storing twice into the same group is storing the second list once. */
  lemma PutGroupTwice(store: Store, a: string, g: string, x: seq<Item>, y: seq<Item>)
    ensures PutGroup(PutGroup(store, a, g, x), a, g, y) == PutGroup(store, a, g, y)
  {
    var l := PutGroup(PutGroup(store, a, g, x), a, g, y);
    var r := PutGroup(store, a, g, y);
    assert l[a] == r[a];
  }

  /** Storing into a group after preparing its entry is just storing into it. */
  lemma PutAfterEntry(store: Store, a: string, g: string, y: seq<Item>)
    ensures PutGroup(WithEntry(store, a, g), a, g, y) == PutGroup(store, a, g, y)
  {
    PutGroupTwice(store, a, g, GroupOf(store, a, g), y);
  }

  /** Recording a group name twice is recording it once. */
  lemma WithOrderTwice(order: Order, a: string, g: string)
    ensures WithOrder(WithOrder(order, a, g), a, g) == WithOrder(order, a, g)
  {
  }

  /** The group names under `a` in first-use order, after group `g` has been used. */
  function WithOrder(order: Order, a: string, g: string): (r: Order)
    ensures a in r && g in r[a]
    ensures r.Keys == order.Keys + {a}
    ensures forall a' | a' in order && a' != a :: r[a'] == order[a']
    ensures a in order && g in order[a] ==> r == order
    ensures a in order && g !in order[a] ==> r[a] == order[a] + [g]
    ensures a !in order ==> r[a] == [g]
  {
    var names := if a in order then order[a] else [];
    if g in names then order[a := names] else order[a := names + [g]]
  }

  /** The order lists exactly the group names of every action key, each once. */
  ghost predicate OrderMatches(store: Store, order: Order)
  {
    && store.Keys == order.Keys
    && forall a | a in store ::
         && NoDuplicates(order[a])
         && (forall g :: g in order[a] <==> g in store[a])
  }

  /** Storing into a group and recording its name keeps the order consistent with the store. */
  lemma PutGroupKeepsOrder(store: Store, order: Order, a: string, g: string, items: seq<Item>)
    requires OrderMatches(store, order)
    ensures OrderMatches(PutGroup(store, a, g, items), WithOrder(order, a, g))
  {
    var r := PutGroup(store, a, g, items);
    var o := WithOrder(order, a, g);
    forall a' | a' in r
      ensures NoDuplicates(o[a']) && (forall g' :: g' in o[a'] <==> g' in r[a'])
    {
      if a' == a && a in order && g !in order[a] {
        assert o[a] == order[a] + [g];
      }
    }
  }

  /** The key a registration is looked up and removed by: `hash("crc32b", serialize($args))`. */
  function ReadKey(h: Hashes, args: seq<Value>): (r: string)
    ensures HexDigests(h) ==> |r| == 8
  {
    h.crc32b(h.serialize(VList(args)))
  }

  /** The key a registration is recorded by: `md5(serialize($args))`. */
  function WriteKey(h: Hashes, args: seq<Value>): (r: string)
    ensures HexDigests(h) ==> |r| == 32
  {
    h.md5(h.serialize(VList(args)))
  }

  /**
   * The list after inserting `item` at `index` the way `execOffset` does: the
   * first `index` items (none for `index <= 0`), the new item, then
   * `array_slice($currentItems, $index)`, which for a negative index starts
   * that many items before the end.
   */
  function OffsetSplice(cur: seq<Item>, index: int, item: Item): seq<Item>
  {
    var head := if index > 0 then cur[..if index < |cur| then index else |cur|] else [];
    var from := if index >= 0 then index else if |cur| + index > 0 then |cur| + index else 0;
    var tail := if index < |cur| then cur[from..] else [];
    head + [item] + tail
  }

  /** With a non-negative index the item lands at `min(index, |cur|)` and nothing else moves or goes. */
  lemma OffsetInserts(cur: seq<Item>, index: int, item: Item)
    requires index >= 0
    ensures var at := if index < |cur| then index else |cur|;
      && |OffsetSplice(cur, index, item)| == |cur| + 1
      && OffsetSplice(cur, index, item) == cur[..at] + [item] + cur[at..]
      && multiset(OffsetSplice(cur, index, item)) == multiset(cur) + multiset{item}
  {
    var at := if index < |cur| then index else |cur|;
    assert cur == cur[..at] + cur[at..];
  }

  /**
   * With a negative index the items before the last `-index` are lost: the
   * result is the new item followed by only the tail `array_slice` keeps.
   */
  lemma NegativeOffsetDropsItems(cur: seq<Item>, index: int, item: Item)
    requires index < 0
    ensures var from := if |cur| + index > 0 then |cur| + index else 0;
      OffsetSplice(cur, index, item) == [item] + cur[from..]
    ensures |cur| + index > 0 ==> |OffsetSplice(cur, index, item)| < |cur| + 1
  {
  }

  /** The list without position `i`. */
  function RemoveAt(items: seq<Item>, i: nat): (r: seq<Item>)
    requires i < |items|
    ensures |r| == |items| - 1
    ensures forall j | 0 <= j < i :: r[j] == items[j]
    ensures forall j | i <= j < |r| :: r[j] == items[j + 1]
    ensures multiset(r) + multiset{items[i]} == multiset(items)
  {
    assert items == items[..i] + [items[i]] + items[i + 1..];
    items[..i] + items[i + 1..]
  }

  /**
   * Finds the first item the predicate holds for, as the `foreach` with
   * `break` in `execRemove` does.
   */
  method FindFirst(items: seq<Item>, matches: Item -> bool) returns (r: Option<nat>)
    ensures r.Some? ==> r.value < |items| && matches(items[r.value])
    ensures r.Some? ==> forall j | 0 <= j < r.value :: !matches(items[j])
    ensures r.None? ==> forall j | 0 <= j < |items| :: !matches(items[j])
  {
    var i := 0;
    while i < |items|
      invariant 0 <= i <= |items|
      invariant forall j | 0 <= j < i :: !matches(items[j])
    {
      if matches(items[i]) {
        return Some(i);
      }
      i := i + 1;
    }
    return None;
  }

  /** Some item of the list has this path and vendor flag. */
  predicate HasPath(items: seq<Item>, path: string, vendor: bool)
  {
    exists i | 0 <= i < |items| :: items[i].path == path && items[i].vendor == vendor
  }

  /** Group `order[j]` exists and holds an item with this path and vendor flag. */
  predicate HoldsPathAt(order: seq<string>, groups: map<string, seq<Item>>, j: int, path: string, vendor: bool)
    requires 0 <= j < |order|
  {
    order[j] in groups && HasPath(groups[order[j]], path, vendor)
  }

  /**
   * `isDuplicateStyle`/`isDuplicateScript`: the last group, in the order
   * given, holding an item with this path and vendor flag.
   */
  function LastGroupWith(order: seq<string>, groups: map<string, seq<Item>>, path: string, vendor: bool): Option<string>
  {
    if order == [] then None
    else
      var last := order[|order| - 1];
      if last in groups && HasPath(groups[last], path, vendor) then Some(last)
      else LastGroupWith(order[..|order| - 1], groups, path, vendor)
  }

  /**
   * The group `LastGroupWith` names holds the path and no later group in the
   * order does; it names none exactly when no group holds the path.
   */
  lemma {:induction false} LastGroupWithSpec(order: seq<string>, groups: map<string, seq<Item>>, path: string, vendor: bool)
    ensures var r := LastGroupWith(order, groups, path, vendor);
      && (r.Some? ==> r.value in groups && HasPath(groups[r.value], path, vendor))
      && (r.Some? ==> exists i | 0 <= i < |order| :: order[i] == r.value
                        && forall j | i < j < |order| :: !HoldsPathAt(order, groups, j, path, vendor))
      && (r.None? <==> forall j | 0 <= j < |order| :: !HoldsPathAt(order, groups, j, path, vendor))
  {
    if order != [] {
      var n := |order| - 1;
      var prefix := order[..n];
      LastGroupWithSpec(prefix, groups, path, vendor);
      forall j | 0 <= j < n ensures HoldsPathAt(prefix, groups, j, path, vendor) == HoldsPathAt(order, groups, j, path, vendor) {
        assert prefix[j] == order[j];
      }
      if HoldsPathAt(order, groups, n, path, vendor) {
        assert LastGroupWith(order, groups, path, vendor) == Some(order[n]);
      } else {
        var r := LastGroupWith(prefix, groups, path, vendor);
        assert LastGroupWith(order, groups, path, vendor) == r;
        if r.Some? {
          var i :| 0 <= i < n && prefix[i] == r.value && forall j | i < j < n :: !HoldsPathAt(prefix, groups, j, path, vendor);
          assert order[i] == r.value;
          assert forall j | i < j < |order| :: !HoldsPathAt(order, groups, j, path, vendor);
        }
      }
    }
  }

  /** A completed item and the duplicate warning dumped while completing it, if any. */
  datatype Completed = Completed(item: Item, warning: Option<string>)

  /**
   * The registry state of one helper instance (`Assets`): the store, the
   * first-use order of group names, the reverse keys and the selected group.
   * The controller/action key is fixed for the request.
   */

  class GroupRegistry {
    const hashes: Hashes
    const ctrlActionKey: string
    var store: Store
    var groupOrder: Order
    var reverseKeys: set<string>
    var currentGroupName: string

    /** The order mirrors the store; with hexadecimal digests every recorded key is an md5 digest's length. */
    ghost predicate Valid()
      reads this
    {
      && OrderMatches(store, groupOrder)
      && (HexDigests(hashes) ==> forall k | k in reverseKeys :: |k| == 32)
    }

    /** An empty registry with the default (empty) group name selected. */
    constructor (hashes: Hashes, ctrlActionKey: string)
      ensures Valid()
      ensures this.hashes == hashes && this.ctrlActionKey == ctrlActionKey
      ensures store == map[] && groupOrder == map[] && reverseKeys == {} && currentGroupName == ""
    {
      this.hashes := hashes;
      this.ctrlActionKey := ctrlActionKey;
      store := map[];
      groupOrder := map[];
      reverseKeys := {};
      currentGroupName := "";
    }

    /** The items of the selected group of the current action. */
    function Group(): seq<Item>
      reads this
    {
      GroupOf(store, ctrlActionKey, currentGroupName)
    }

    /** `getGroupStore`: creates the selected group if missing and returns its items. */
    method GetGroupStore() returns (items: seq<Item>)
      requires Valid()
      modifies this
      ensures Valid()
      ensures items == old(Group()) && Group() == old(Group())
      ensures store == WithEntry(old(store), ctrlActionKey, currentGroupName)
      ensures groupOrder == WithOrder(old(groupOrder), ctrlActionKey, currentGroupName)
      ensures unchanged(`reverseKeys) && unchanged(`currentGroupName)
    {
      items := Group();
      PutGroupKeepsOrder(store, groupOrder, ctrlActionKey, currentGroupName, items);
      store := WithEntry(store, ctrlActionKey, currentGroupName);
      groupOrder := WithOrder(groupOrder, ctrlActionKey, currentGroupName);
    }

    /** `Css($groupName)` / `Js($groupName)`: selects a group and prepares its entry. */
    method SelectGroup(name: string)
      requires Valid()
      modifies this
      ensures Valid()
      ensures currentGroupName == name
      ensures Group() == GroupOf(old(store), ctrlActionKey, name)
      ensures store == WithEntry(old(store), ctrlActionKey, name)
      ensures groupOrder == WithOrder(old(groupOrder), ctrlActionKey, name)
      ensures unchanged(`reverseKeys)
    {
      currentGroupName := name;
      var _ := GetGroupStore();
    }

    /** `setGroupStore`: replaces the selected group's items, creating its entry if missing. */
    method SetGroupStore(items: seq<Item>)
      requires Valid()
      modifies this
      ensures Valid()
      ensures Group() == items
      ensures store == PutGroup(old(store), ctrlActionKey, currentGroupName, items)
      ensures groupOrder == WithOrder(old(groupOrder), ctrlActionKey, currentGroupName)
      ensures unchanged(`reverseKeys) && unchanged(`currentGroupName)
    {
      PutGroupKeepsOrder(store, groupOrder, ctrlActionKey, currentGroupName, items);
      store, groupOrder := PutGroup(store, ctrlActionKey, currentGroupName, items), WithOrder(groupOrder, ctrlActionKey, currentGroupName);
    }

    /**
     * `unsetGroupStore($index)`: removes the item at `index` of the selected
     * group and reports whether there was one; nothing else changes.
     */
    method UnsetGroupStore(index: int) returns (removed: bool)
      requires Valid()
      modifies this
      ensures Valid()
      ensures removed <==> 0 <= index < |old(Group())|
      ensures removed ==> Group() == RemoveAt(old(Group()), index)
      ensures !removed ==> Group() == old(Group())
      ensures store == PutGroup(old(store), ctrlActionKey, currentGroupName, Group())
      ensures groupOrder == WithOrder(old(groupOrder), ctrlActionKey, currentGroupName)
      ensures unchanged(`reverseKeys) && unchanged(`currentGroupName)
    {
      ghost var store0, order0 := store, groupOrder;
      var items := GetGroupStore();
      removed := 0 <= index < |items|;
      if removed {
        SetGroupStore(RemoveAt(items, index));
      } else {
        SetGroupStore(items);
      }
      PutAfterEntry(store0, ctrlActionKey, currentGroupName, Group());
      WithOrderTwice(order0, ctrlActionKey, currentGroupName);
    }

    /** `setUpGroupStoreReverseKey($args)`: records the md5 key of the arguments. */
    method SetUpGroupStoreReverseKey(args: seq<Value>)
      requires Valid()
      modifies this
      ensures Valid()
      ensures reverseKeys == old(reverseKeys) + {WriteKey(hashes, args)}
      ensures unchanged(`store) && unchanged(`groupOrder) && unchanged(`currentGroupName)
    {
      reverseKeys := reverseKeys + {WriteKey(hashes, args)};
    }

    /**
     * The `unset($this->groupStoreReverseKeys[$reverseKey])` of `execRemove`,
     * with the crc32b key; with hexadecimal digests it never finds a recorded key.
     */
    method UnsetReverseKey(args: seq<Value>)
      requires Valid()
      modifies this
      ensures Valid()
      ensures reverseKeys == old(reverseKeys) - {ReadKey(hashes, args)}
      ensures HexDigests(hashes) ==> reverseKeys == old(reverseKeys)
      ensures unchanged(`store) && unchanged(`groupOrder) && unchanged(`currentGroupName)
    {
      reverseKeys := reverseKeys - {ReadKey(hashes, args)};
    }

    /** `execContains`: whether the crc32b key of the arguments is recorded. */
    function Contains(args: seq<Value>): (r: bool)
      reads this
      requires Valid()
      ensures HexDigests(hashes) ==> !r
    {
      ReadKey(hashes, args) in reverseKeys
    }

    /** The lookup `execContains` evidently intends: by the key the registration wrote. */
    function ContainsIntended(args: seq<Value>): (r: bool)
      reads this
    {
      WriteKey(hashes, args) in reverseKeys
    }

    /** The registry part of `execOffset`: splices the item in and records its key. */
    method Offset(index: int, item: Item, args: seq<Value>)
      requires Valid()
      modifies this
      ensures Valid()
      ensures Group() == OffsetSplice(old(Group()), index, item)
      ensures store == PutGroup(old(store), ctrlActionKey, currentGroupName, Group())
      ensures groupOrder == WithOrder(old(groupOrder), ctrlActionKey, currentGroupName)
      ensures reverseKeys == old(reverseKeys) + {WriteKey(hashes, args)}
      ensures unchanged(`currentGroupName)
    {
      ghost var store0, order0 := store, groupOrder;
      var currentItems := GetGroupStore();
      var newItems := OffsetSplice(currentItems, index, item);
      SetUpGroupStoreReverseKey(args);
      SetGroupStore(newItems);
      PutAfterEntry(store0, ctrlActionKey, currentGroupName, Group());
      WithOrderTwice(order0, ctrlActionKey, currentGroupName);
    }

    /** The registry part of `execAppend`: the item goes last, its key is recorded. */
    method Append(item: Item, args: seq<Value>)
      requires Valid()
      modifies this
      ensures Valid()
      ensures Group() == old(Group()) + [item]
      ensures store == PutGroup(old(store), ctrlActionKey, currentGroupName, Group())
      ensures groupOrder == WithOrder(old(groupOrder), ctrlActionKey, currentGroupName)
      ensures reverseKeys == old(reverseKeys) + {WriteKey(hashes, args)}
      ensures unchanged(`currentGroupName)
    {
      ghost var store0, order0 := store, groupOrder;
      var currentItems := GetGroupStore();
      SetGroupStore(currentItems + [item]);
      SetUpGroupStoreReverseKey(args);
      PutAfterEntry(store0, ctrlActionKey, currentGroupName, Group());
      WithOrderTwice(order0, ctrlActionKey, currentGroupName);
    }

    /** The registry part of `execPrepend`: the item goes first, its key is recorded. */
    method Prepend(item: Item, args: seq<Value>)
      requires Valid()
      modifies this
      ensures Valid()
      ensures Group() == [item] + old(Group())
      ensures store == PutGroup(old(store), ctrlActionKey, currentGroupName, Group())
      ensures groupOrder == WithOrder(old(groupOrder), ctrlActionKey, currentGroupName)
      ensures reverseKeys == old(reverseKeys) + {WriteKey(hashes, args)}
      ensures unchanged(`currentGroupName)
    {
      ghost var store0, order0 := store, groupOrder;
      var currentItems := GetGroupStore();
      SetGroupStore([item] + currentItems);
      SetUpGroupStoreReverseKey(args);
      PutAfterEntry(store0, ctrlActionKey, currentGroupName, Group());
      WithOrderTwice(order0, ctrlActionKey, currentGroupName);
    }

    /**
     * The registry part of `execRemove`: removes the first item of the
     * selected group the predicate holds for and unsets the crc32b key of
     * `args`; returns whether an item was removed.
     */
    method RemoveFirst(matches: Item -> bool, args: seq<Value>) returns (removed: bool)
      requires Valid()
      modifies this
      ensures Valid()
      ensures removed <==> exists j | 0 <= j < |old(Group())| :: matches(old(Group())[j])
      ensures removed ==> exists i | 0 <= i < |old(Group())| ::
                            && matches(old(Group())[i])
                            && (forall j | 0 <= j < i :: !matches(old(Group())[j]))
                            && Group() == RemoveAt(old(Group()), i)
                            && reverseKeys == old(reverseKeys) - {ReadKey(hashes, args)}
      ensures !removed ==> Group() == old(Group()) && reverseKeys == old(reverseKeys)
      ensures store == PutGroup(old(store), ctrlActionKey, currentGroupName, Group())
      ensures groupOrder == WithOrder(old(groupOrder), ctrlActionKey, currentGroupName)
      ensures unchanged(`currentGroupName)
    {
      ghost var store0, order0 := store, groupOrder;
      var linksGroup := GetGroupStore();
      var found := FindFirst(linksGroup, matches);
      removed := false;
      match found {
        case Some(i) =>
          removed := UnsetGroupStore(i);
          UnsetReverseKey(args);
        case None =>
          SetGroupStore(linksGroup);
      }
      PutAfterEntry(store0, ctrlActionKey, currentGroupName, Group());
      WithOrderTwice(order0, ctrlActionKey, currentGroupName);
    }

    /**
     * `isDuplicateStyle`/`isDuplicateScript`: walks every group of the current
     * action in order; an inner `break` ends only the scan of one group, so the
     * last group holding the path wins.
     */
    method IsDuplicate(path: string, vendor: bool) returns (r: Option<string>)
      requires Valid()
      ensures ctrlActionKey !in store ==> r == None
      ensures ctrlActionKey in store ==> r == LastGroupWith(groupOrder[ctrlActionKey], store[ctrlActionKey], path, vendor)
    {
      r := None;
      if ctrlActionKey !in store {
        return;
      }
      var order := groupOrder[ctrlActionKey];
      var groups := store[ctrlActionKey];
      var i := 0;
      while i < |order|
        invariant 0 <= i <= |order|
        invariant r == LastGroupWith(order[..i], groups, path, vendor)
      {
        var groupName := order[i];
        var found := GroupHasPath(groups[groupName], path, vendor);
        if found {
          r := Some(groupName);
        }
        assert order[..i + 1][..i] == order[..i];
        i := i + 1;
      }
      assert order[..|order|] == order;
    }
  }

  /** The inner loop of `isDuplicateStyle`/`isDuplicateScript`: whether one group holds the path. */
  method GroupHasPath(groupItems: seq<Item>, path: string, vendor: bool) returns (found: bool)
    ensures found == HasPath(groupItems, path, vendor)
  {
    found := false;
    var j := 0;
    while j < |groupItems|
      invariant 0 <= j <= |groupItems|
      invariant !found
      invariant forall k | 0 <= k < j :: !(groupItems[k].path == path && groupItems[k].vendor == vendor)
    {
      if groupItems[j].path == path && groupItems[j].vendor == vendor {
        found := true;
        return;
      }
      j := j + 1;
    }
  }

  /**
   * Registering with `execAppend` and then asking `execContains` with the same
   * arguments: the lookup as written answers no, the intended one yes.
   */
  method AppendThenLookUp(reg: GroupRegistry, item: Item, args: seq<Value>)
    requires reg.Valid() && HexDigests(reg.hashes)
    modifies reg
    ensures reg.Valid()
    ensures reg.ContainsIntended(args) && !reg.Contains(args)
  {
    reg.Append(item, args);
  }

  /** The same after a registration by `execPrepend`. */
  method PrependThenLookUp(reg: GroupRegistry, item: Item, args: seq<Value>)
    requires reg.Valid() && HexDigests(reg.hashes)
    modifies reg
    ensures reg.Valid()
    ensures reg.ContainsIntended(args) && !reg.Contains(args)
  {
    reg.Prepend(item, args);
  }

  /** The same after a registration by `execOffset`, at any index. */
  method OffsetThenLookUp(reg: GroupRegistry, index: int, item: Item, args: seq<Value>)
    requires reg.Valid() && HexDigests(reg.hashes)
    modifies reg
    ensures reg.Valid()
    ensures reg.ContainsIntended(args) && !reg.Contains(args)
  {
    reg.Offset(index, item, args);
  }
}
