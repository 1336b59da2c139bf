/** Bounded metadata: `ensure_bounded_json_metadata` in agent_driver/contracts/validation.py. */
module Validation {
  import opened Prelude

  /** A JSON value as the walk sees it; a key is None when it is not a string. */
  datatype Node = Leaf | Items(items: seq<Node>) | Mapping(entries: seq<Entry>)
  datatype Entry = Entry(key: Option<string>, value: Node)

  datatype Limits = Limits(maxBytes: int, maxDepth: int, maxKeys: int, allowReserved: bool)

  datatype Rejection = NotSerializable | TooLarge | TooDeep | TooManyKeys | ReservedKey

  const RESERVED_PREFIX: string := "_ad_"

  predicate IsReserved(e: Entry) {
    e.key.Some? && RESERVED_PREFIX <= e.key.value
  }

  /** A key is reserved when it is a string in the driver's own namespace. */
  lemma ReservedMeans(e: Entry)
    ensures IsReserved(e) <==> exists rest :: e.key == Some("_ad_" + rest)
  {
    if IsReserved(e) {
      assert e.key.value == "_ad_" + e.key.value[4..];
    }
  }

  // ---------------------------------------------------------------- what the limits mean

  /** Every key at every level. */
  function KeyCount(v: Node): nat
    decreases v, 1
  {
    match v
    case Leaf => 0
    case Items(items) => KeysOfItems(items, |items|)
    case Mapping(entries) => KeysOfEntries(entries, |entries|)
  }

  /** The keys in the first `k` items. */
  function KeysOfItems(items: seq<Node>, k: nat): nat
    requires k <= |items|
    decreases items, 0, k
  {
    if k == 0 then 0 else KeysOfItems(items, k - 1) + KeyCount(items[k - 1])
  }

  /** The first `k` keys and all keys below them. */
  function KeysOfEntries(entries: seq<Entry>, k: nat): nat
    requires k <= |entries|
    decreases entries, 0, k
  {
    if k == 0 then 0 else KeysOfEntries(entries, k - 1) + KeysOfEntry(entries[k - 1])
  }

  /** The key of an entry and all keys below it. */
  function KeysOfEntry(e: Entry): nat
    decreases e, 0
  {
    1 + KeyCount(e.value)
  }

  /** Every chain of containers from `v` down has at most `d` nodes. */
  predicate DepthWithin(v: Node, d: int) {
    d >= 1 &&
    match v
    case Leaf => true
    case Items(items) => forall i :: 0 <= i < |items| ==> DepthWithin(items[i], d - 1)
    case Mapping(entries) => forall i :: 0 <= i < |entries| ==> DepthWithin(entries[i].value, d - 1)
  }

  /** No key at any level is reserved. */
  predicate ReservedFree(v: Node) {
    match v
    case Leaf => true
    case Items(items) => forall i :: 0 <= i < |items| ==> ReservedFree(items[i])
    case Mapping(entries) =>
      forall i :: 0 <= i < |entries| ==> !IsReserved(entries[i]) && ReservedFree(entries[i].value)
  }

  /** With `seen` keys counted before it, `v` below `depth - 1` levels meets the limits. */
  predicate Meets(v: Node, depth: int, seen: nat, limits: Limits) {
    && DepthWithin(v, limits.maxDepth - depth + 1)
    && (KeyCount(v) == 0 || seen + KeyCount(v) <= limits.maxKeys)
    && (limits.allowReserved || ReservedFree(v))
  }

  /** The reported reason is real. */
  predicate IsReason(r: Rejection, v: Node, depth: int, seen: nat, limits: Limits) {
    match r
    case TooDeep => !DepthWithin(v, limits.maxDepth - depth + 1)
    case TooManyKeys => seen + KeyCount(v) > limits.maxKeys && KeyCount(v) > 0
    case ReservedKey => !limits.allowReserved && !ReservedFree(v)
    case _ => false
  }

  // ---------------------------------------------------------------- the walk

  lemma {:induction false} ItemsGrow(items: seq<Node>, i: nat, k: nat)
    requires i <= k <= |items|
    ensures KeysOfItems(items, i) <= KeysOfItems(items, k)
  {
    if i < k {
      ItemsGrow(items, i, k - 1);
    }
  }

  lemma {:induction false} EntriesGrow(entries: seq<Entry>, i: nat, k: nat)
    requires i <= k <= |entries|
    ensures KeysOfEntries(entries, i) <= KeysOfEntries(entries, k)
  {
    if i < k {
      EntriesGrow(entries, i, k - 1);
    }
  }

  /** The first `k` items meet the limits. */
  predicate ItemsMeet(items: seq<Node>, k: nat, depth: int, seen: nat, limits: Limits)
    requires k <= |items|
  {
    && (forall j :: 0 <= j < k ==> DepthWithin(items[j], limits.maxDepth - depth))
    && (KeysOfItems(items, k) == 0 || seen + KeysOfItems(items, k) <= limits.maxKeys)
    && (limits.allowReserved || forall j :: 0 <= j < k ==> ReservedFree(items[j]))
  }

  lemma AllItemsMeet(items: seq<Node>, depth: int, seen: nat, limits: Limits)
    requires depth <= limits.maxDepth
    ensures ItemsMeet(items, |items|, depth, seen, limits) <==> Meets(Items(items), depth, seen, limits)
  {
  }

  lemma KeysOfNext(items: seq<Node>, k: nat)
    requires k < |items|
    ensures KeysOfItems(items, k + 1) == KeysOfItems(items, k) + KeyCount(items[k])
  {
  }

  lemma NextItemMeets(items: seq<Node>, k: nat, depth: int, seen: nat, limits: Limits)
    requires k < |items| && ItemsMeet(items, k, depth, seen, limits)
    requires Meets(items[k], depth + 1, seen + KeysOfItems(items, k), limits)
    ensures ItemsMeet(items, k + 1, depth, seen, limits)
  {
    KeysOfNext(items, k);
  }

  /** A breach in one item is a breach of the list, for the same reason. */
  lemma ItemBreach(items: seq<Node>, k: nat, depth: int, seen: nat, limits: Limits, r: Rejection)
    requires k < |items| && IsReason(r, items[k], depth + 1, seen + KeysOfItems(items, k), limits)
    ensures IsReason(r, Items(items), depth, seen, limits) && !Meets(Items(items), depth, seen, limits)
  {
    ItemsGrow(items, k + 1, |items|);
  }

  /** The first `k` entries meet the limits. */
  predicate EntriesMeet(entries: seq<Entry>, k: nat, depth: int, seen: nat, limits: Limits)
    requires k <= |entries|
  {
    && (forall j :: 0 <= j < k ==> DepthWithin(entries[j].value, limits.maxDepth - depth))
    && (k == 0 || seen + KeysOfEntries(entries, k) <= limits.maxKeys)
    && (limits.allowReserved || forall j :: 0 <= j < k ==> !IsReserved(entries[j]) && ReservedFree(entries[j].value))
  }

  lemma AllEntriesMeet(entries: seq<Entry>, depth: int, seen: nat, limits: Limits)
    requires depth <= limits.maxDepth
    ensures EntriesMeet(entries, |entries|, depth, seen, limits) <==> Meets(Mapping(entries), depth, seen, limits)
  {
    if entries != [] {
      EntriesGrow(entries, 1, |entries|);
      assert KeysOfEntries(entries, 1) >= 1;
    }
    assert KeyCount(Mapping(entries)) == KeysOfEntries(entries, |entries|);
  }

  lemma NextEntryMeets(entries: seq<Entry>, k: nat, depth: int, seen: nat, limits: Limits)
    requires k < |entries| && EntriesMeet(entries, k, depth, seen, limits)
    requires seen + KeysOfEntries(entries, k) + 1 <= limits.maxKeys
    requires limits.allowReserved || !IsReserved(entries[k])
    requires Meets(entries[k].value, depth + 1, seen + KeysOfEntries(entries, k) + 1, limits)
    ensures EntriesMeet(entries, k + 1, depth, seen, limits)
  {
  }

  lemma EntryBreach(entries: seq<Entry>, k: nat, depth: int, seen: nat, limits: Limits, r: Rejection)
    requires k < |entries|
    requires IsReason(r, entries[k].value, depth + 1, seen + KeysOfEntries(entries, k) + 1, limits)
    ensures IsReason(r, Mapping(entries), depth, seen, limits) && !Meets(Mapping(entries), depth, seen, limits)
  {
    KeysThroughEntry(entries, k);
  }

  lemma KeysThroughEntry(entries: seq<Entry>, k: nat)
    requires k < |entries|
    ensures KeysOfEntries(entries, k) + 1 + KeyCount(entries[k].value) <= KeyCount(Mapping(entries))
  {
    EntriesGrow(entries, k + 1, |entries|);
  }

  /** The walk's shared state: the keys counted so far. */
  class MetadataWalk {
    const limits: Limits
    var totalKeys: nat

    constructor (limits: Limits)
      ensures this.limits == limits && totalKeys == 0
    {
      this.limits, totalKeys := limits, 0;
    }

    /** Visits `v` in order and stops at the first breach; None when there is none. */
    method Walk(v: Node, depth: int) returns (r: Option<Rejection>)
      modifies this
      ensures r.None? <==> Meets(v, depth, old(totalKeys), limits)
      ensures r.None? ==> totalKeys == old(totalKeys) + KeyCount(v)
      ensures r.Some? ==> IsReason(r.value, v, depth, old(totalKeys), limits)
      decreases v, 1
    {
      if depth > limits.maxDepth {
        return Some(TooDeep);
      }
      match v {
        case Leaf =>
          r := None;
        case Items(items) =>
          r := WalkItems(items, depth);
        case Mapping(entries) =>
          r := WalkEntries(entries, depth);
      }
    }

    method WalkItems(items: seq<Node>, depth: int) returns (r: Option<Rejection>)
      requires depth <= limits.maxDepth
      modifies this
      ensures r.None? <==> Meets(Items(items), depth, old(totalKeys), limits)
      ensures r.None? ==> totalKeys == old(totalKeys) + KeysOfItems(items, |items|)
      ensures r.Some? ==> IsReason(r.value, Items(items), depth, old(totalKeys), limits)
      decreases items, 0
    {
      for i := 0 to |items|
        invariant totalKeys == old(totalKeys) + KeysOfItems(items, i)
        invariant ItemsMeet(items, i, depth, old(totalKeys), limits)
      {
        r := Walk(items[i], depth + 1);
        if r.Some? {
          ItemBreach(items, i, depth, old(totalKeys), limits, r.value);
          return;
        }
        NextItemMeets(items, i, depth, old(totalKeys), limits);
      }
      AllItemsMeet(items, depth, old(totalKeys), limits);
      r := None;
    }

    method WalkEntries(entries: seq<Entry>, depth: int) returns (r: Option<Rejection>)
      requires depth <= limits.maxDepth
      modifies this
      ensures r.None? <==> Meets(Mapping(entries), depth, old(totalKeys), limits)
      ensures r.None? ==> totalKeys == old(totalKeys) + KeysOfEntries(entries, |entries|)
      ensures r.Some? ==> IsReason(r.value, Mapping(entries), depth, old(totalKeys), limits)
      decreases entries, 0
    {
      for i := 0 to |entries|
        invariant totalKeys == old(totalKeys) + KeysOfEntries(entries, i)
        invariant EntriesMeet(entries, i, depth, old(totalKeys), limits)
      {
        var entry := entries[i];
        assert entries decreases to entry;
        totalKeys := totalKeys + 1;
        if totalKeys > limits.maxKeys {
          KeysThroughEntry(entries, i);
          return Some(TooManyKeys);
        }
        if !limits.allowReserved && IsReserved(entry) {
          assert !ReservedFree(Mapping(entries));
          return Some(ReservedKey);
        }
        r := Walk(entry.value, depth + 1);
        if r.Some? {
          EntryBreach(entries, i, depth, old(totalKeys), limits, r.value);
          return;
        }
        NextEntryMeets(entries, i, depth, old(totalKeys), limits);
      }
      AllEntriesMeet(entries, depth, old(totalKeys), limits);
      r := None;
    }
  }

  /** The whole check; `serializedBytes` is the UTF-8 size of the JSON text, None where it cannot be printed. */
  method EnsureBoundedJsonMetadata(v: Node, serializedBytes: Option<nat>, limits: Limits)
    returns (r: Option<Rejection>)
    ensures r.None? <==>
              && serializedBytes.Some? && serializedBytes.value <= limits.maxBytes
              && Meets(v, 1, 0, limits)
    ensures r == Some(NotSerializable) <==> serializedBytes.None?
    ensures r == Some(TooLarge) <==> serializedBytes.Some? && serializedBytes.value > limits.maxBytes
    ensures r.Some? && r.value in {TooDeep, TooManyKeys, ReservedKey} ==> IsReason(r.value, v, 1, 0, limits)
  {
    if serializedBytes.None? {
      return Some(NotSerializable);
    }
    if serializedBytes.value > limits.maxBytes {
      return Some(TooLarge);
    }
    var walk := new MetadataWalk(limits);
    r := walk.Walk(v, 1);
  }

  // ---------------------------------------------------------------- the measures by example

  /** A leaf under `n` containers, each a list or a map with that key. */
  function Nested(n: nat, key: Option<string>, asMap: bool): Node {
    if n == 0 then Leaf
    else
      var inner := Nested(n - 1, key, asMap);
      if asMap then Mapping([Entry(key, inner)]) else Items([inner])
  }

  /** A leaf under `n` containers has depth n + 1, and holds a key for each that is a map. */
  lemma {:induction false} NestedMeasures(n: nat, key: Option<string>, asMap: bool, d: int)
    ensures DepthWithin(Nested(n, key, asMap), d) <==> n + 1 <= d
    ensures KeyCount(Nested(n, key, asMap)) == if asMap then n else 0
  {
    if n > 0 {
      NestedMeasures(n - 1, key, asMap, d - 1);
      var inner := Nested(n - 1, key, asMap);
      if asMap {
        EntriesSum([Entry(key, inner)]);
        SumSingle(EntryWeight, Entry(key, inner));
      } else {
        ItemsSum([inner]);
        SumSingle(NodeWeight, inner);
      }
    }
  }

  /** Keys add up: a further entry counts itself and the keys below it, a further item the keys below it. */
  lemma KeysAddUp(entries: seq<Entry>, e: Entry, items: seq<Node>, v: Node)
    ensures KeyCount(Mapping([])) == KeyCount(Items([])) == KeyCount(Leaf) == 0
    ensures KeyCount(Mapping(entries + [e])) == KeyCount(Mapping(entries)) + 1 + KeyCount(e.value)
    ensures KeyCount(Items(items + [v])) == KeyCount(Items(items)) + KeyCount(v)
  {
    EntriesSum(entries);
    EntriesSum(entries + [e]);
    SumPush(EntryWeight, entries, e);
    ItemsSum(items);
    ItemsSum(items + [v]);
    SumPush(NodeWeight, items, v);
  }

  // ---------------------------------------------------------------- order does not matter

  /** `w` is `v` with the entries of every map and the items of every list, at every depth, in any order. */
  ghost predicate Reordered(v: Node, w: Node) {
    match v
    case Leaf => w.Leaf?
    case Items(items) =>
      w.Items? && exists inner: seq<Node> :: multiset(inner) == multiset(w.items) && ItemsReordered(items, inner)
    case Mapping(entries) =>
      w.Mapping? &&
      exists inner: seq<Entry> :: multiset(inner) == multiset(w.entries) && EntriesReordered(entries, inner)
  }

  /** The same items in place, each reordered inside. */
  ghost predicate ItemsReordered(items: seq<Node>, inner: seq<Node>) {
    |inner| == |items| && forall i :: 0 <= i < |items| ==> Reordered(items[i], inner[i])
  }

  ghost predicate EntriesReordered(entries: seq<Entry>, inner: seq<Entry>) {
    |inner| == |entries| && forall i :: 0 <= i < |entries| ==> EntryReordered(entries[i], inner[i])
  }

  ghost predicate EntryReordered(e: Entry, inner: Entry) {
    inner.key == e.key && Reordered(e.value, inner.value)
  }

  function NodeWeight(v: Node): int {
    KeyCount(v)
  }

  function EntryWeight(e: Entry): int {
    KeysOfEntry(e)
  }

  lemma {:induction false} ItemsAsSum(items: seq<Node>, k: nat)
    requires k <= |items|
    ensures KeysOfItems(items, k) == SumOf(NodeWeight, items[..k])
  {
    if k > 0 {
      ItemsAsSum(items, k - 1);
      SumExtend(NodeWeight, items, k - 1);
    }
  }

  lemma {:induction false} EntriesAsSum(entries: seq<Entry>, k: nat)
    requires k <= |entries|
    ensures KeysOfEntries(entries, k) == SumOf(EntryWeight, entries[..k])
  {
    if k > 0 {
      EntriesAsSum(entries, k - 1);
      SumExtend(EntryWeight, entries, k - 1);
    }
  }

  lemma ItemsSum(items: seq<Node>)
    ensures KeyCount(Items(items)) == SumOf(NodeWeight, items)
  {
    ItemsAsSum(items, |items|);
    assert items[..|items|] == items;
  }

  lemma EntriesSum(entries: seq<Entry>)
    ensures KeyCount(Mapping(entries)) == SumOf(EntryWeight, entries)
  {
    EntriesAsSum(entries, |entries|);
    assert entries[..|entries|] == entries;
  }

  lemma {:induction false} ReorderedKeys(v: Node, w: Node)
    requires Reordered(v, w)
    ensures KeyCount(v) == KeyCount(w)
    decreases v
  {
    match v
    case Leaf =>
    case Items(items) =>
      var inner: seq<Node> :| multiset(inner) == multiset(w.items) && ItemsReordered(items, inner);
      forall i | 0 <= i < |items| ensures NodeWeight(inner[i]) == NodeWeight(items[i]) {
        ReorderedKeys(items[i], inner[i]);
      }
      SumSame(NodeWeight, items, inner);
      SumPermutation(NodeWeight, inner, w.items);
      ItemsSum(items);
      ItemsSum(w.items);
    case Mapping(entries) =>
      var inner: seq<Entry> :| multiset(inner) == multiset(w.entries) && EntriesReordered(entries, inner);
      forall i | 0 <= i < |entries| ensures EntryWeight(inner[i]) == EntryWeight(entries[i]) {
        assert EntryReordered(entries[i], inner[i]);
        ReorderedKeys(entries[i].value, inner[i].value);
      }
      SumSame(EntryWeight, entries, inner);
      SumPermutation(EntryWeight, inner, w.entries);
      EntriesSum(entries);
      EntriesSum(w.entries);
  }

  /** A property of every member does not depend on the order. */
  lemma PermutedAll<T>(p: T -> bool, a: seq<T>, b: seq<T>)
    requires multiset(a) == multiset(b)
    ensures (forall i :: 0 <= i < |a| ==> p(a[i])) <==> (forall i :: 0 <= i < |b| ==> p(b[i]))
  {
    PermutedEach(p, a, b);
    PermutedEach(p, b, a);
  }

  lemma PermutedEach<T>(p: T -> bool, a: seq<T>, b: seq<T>)
    requires multiset(a) == multiset(b)
    ensures (forall i :: 0 <= i < |a| ==> p(a[i])) ==> (forall i :: 0 <= i < |b| ==> p(b[i]))
  {
    forall i | 0 <= i < |b| ensures exists j :: 0 <= j < |a| && a[j] == b[i] {
      assert b[i] in multiset(b);
      assert b[i] in multiset(a);
    }
  }

  function ValueWithin(d: int): Entry -> bool {
    (e: Entry) => DepthWithin(e.value, d)
  }

  function NodeWithin(d: int): Node -> bool {
    (v: Node) => DepthWithin(v, d)
  }

  lemma {:induction false} ReorderedDepth(v: Node, w: Node, d: int)
    requires Reordered(v, w)
    ensures DepthWithin(v, d) <==> DepthWithin(w, d)
    decreases v
  {
    match v
    case Leaf =>
    case Items(items) =>
      var inner: seq<Node> :| multiset(inner) == multiset(w.items) && ItemsReordered(items, inner);
      forall i | 0 <= i < |items| ensures DepthWithin(items[i], d - 1) <==> NodeWithin(d - 1)(inner[i]) {
        ReorderedDepth(items[i], inner[i], d - 1);
      }
      PermutedAll(NodeWithin(d - 1), inner, w.items);
    case Mapping(entries) =>
      var inner: seq<Entry> :| multiset(inner) == multiset(w.entries) && EntriesReordered(entries, inner);
      forall i | 0 <= i < |entries| ensures DepthWithin(entries[i].value, d - 1) <==> ValueWithin(d - 1)(inner[i]) {
        assert EntryReordered(entries[i], inner[i]);
        ReorderedDepth(entries[i].value, inner[i].value, d - 1);
      }
      PermutedAll(ValueWithin(d - 1), inner, w.entries);
  }

  /** Neither the key nor any key below it is reserved. */
  predicate EntryFree(e: Entry) {
    !IsReserved(e) && ReservedFree(e.value)
  }

  lemma AllEntriesFree(entries: seq<Entry>)
    ensures ReservedFree(Mapping(entries)) <==> forall i :: 0 <= i < |entries| ==> EntryFree(entries[i])
  {
  }

  lemma {:induction false} ReorderedReserved(v: Node, w: Node)
    requires Reordered(v, w)
    ensures ReservedFree(v) <==> ReservedFree(w)
    decreases v
  {
    match v
    case Leaf =>
    case Items(items) =>
      var inner: seq<Node> :| multiset(inner) == multiset(w.items) && ItemsReordered(items, inner);
      forall i | 0 <= i < |items| ensures ReservedFree(items[i]) <==> ReservedFree(inner[i]) {
        ReorderedReserved(items[i], inner[i]);
      }
      PermutedAll(ReservedFree, inner, w.items);
    case Mapping(entries) =>
      var inner: seq<Entry> :| multiset(inner) == multiset(w.entries) && EntriesReordered(entries, inner);
      forall i | 0 <= i < |entries| ensures EntryFree(entries[i]) <==> EntryFree(inner[i]) {
        assert EntryReordered(entries[i], inner[i]);
        ReorderedReserved(entries[i].value, inner[i].value);
      }
      PermutedAll(EntryFree, inner, w.entries);
      AllEntriesFree(entries);
      AllEntriesFree(w.entries);
  }

  /** Acceptance, and so the walk's verdict, is the same whatever order maps and lists are visited in at any depth. */
  lemma MeetsIsOrderFree(v: Node, w: Node, depth: int, seen: nat, limits: Limits)
    requires Reordered(v, w)
    ensures Meets(v, depth, seen, limits) <==> Meets(w, depth, seen, limits)
    ensures KeyCount(v) == KeyCount(w)
  {
    ReorderedKeys(v, w);
    ReorderedDepth(v, w, limits.maxDepth - depth + 1);
    ReorderedReserved(v, w);
  }
}
