/** Log values on both sides of the export view: the upstream trees and the flat node pool. */
module LogValues {
  import opened Bytes
  import opened KeyOrder

  const MAX_ATTRIBUTES: nat := 256
  const MAX_VALUE_NODES: nat := 1024
  const MAX_VALUE_DEPTH: nat := 16
  const MAX_STRING_LEN: nat := 0x10_0000
  const MAX_BYTES_LEN: nat := 0x10_0000
  const MAX_MAP_ENTRIES: nat := 256
  const MAX_ARRAY_ELEMENTS: nat := 256

  /** Upstream `AnyValue`. A map's entries stand in the order its hash map iterates, which
      is arbitrary; a double is its bit pattern; `NewKind` is any kind added upstream later. */
  datatype AnyValue =
    | Int(i: int)
    | Double(bits: nat)
    | Boolean(flag: bool)
    | String(text: Text)
    | Bytes(raw: Text)
    | ListAny(items: seq<AnyValue>)
    | Map(entries: seq<Keyed<AnyValue>>)
    | NewKind

  /** Upstream `Array` and `Value`, used by resource and scope attributes. */
  datatype Array =
    | Bools(bools: seq<bool>)
    | I64s(ints: seq<int>)
    | F64s(doubles: seq<nat>)
    | Strings(texts: seq<Text>)
    | NewElementKind

  datatype Value =
    | VBool(flag: bool)
    | VI64(i: int)
    | VF64(bits: nat)
    | VString(text: Text)
    | VArray(items: Array)
    | VNewKind

  /** `OtelLogValue`: containers name the child range `[first, first + count)` of the pool. */
  datatype LogValue =
    | EmptyValue
    | Int64Value(i: int)
    | DoubleValue(bits: nat)
    | BoolValue(flag: bool)
    | StringValue(text: Text)
    | BytesValue(raw: Text)
    | ArrayValue(first: nat, count: nat)
    | MapValue(first: nat, count: nat)

  datatype Node = Node(key: Text, value: LogValue)

  const EMPTY_NODE := Node([], EmptyValue)

  /** What a value means, independent of how it is stored. Map children are in key order. */
  datatype Tree =
    | Leaf(value: LogValue)
    | Branch(isMap: bool, children: seq<Keyed<Tree>>)
    | Unsupported

  function TreeOf(v: AnyValue): Tree {
    match v
    case Int(i) => Leaf(Int64Value(i))
    case Double(bits) => Leaf(DoubleValue(bits))
    case Boolean(flag) => Leaf(BoolValue(flag))
    case String(text) => Leaf(StringValue(text))
    case Bytes(raw) => Leaf(BytesValue(raw))
    case ListAny(items) =>
      Branch(false, seq(|items|, k requires 0 <= k < |items| => Keyed([], TreeOf(items[k]))))
    case Map(entries) =>
      var sorted := SortByKey(entries);
      Branch(true, seq(|sorted|, k requires 0 <= k < |sorted| =>
        assert sorted[k] in entries;
        Keyed(sorted[k].key, TreeOf(sorted[k].value))))
    case NewKind => Unsupported
  }

  function Elements(a: Array): seq<LogValue>
    requires !a.NewElementKind?
  {
    match a
    case Bools(bools) => seq(|bools|, k requires 0 <= k < |bools| => BoolValue(bools[k]))
    case I64s(ints) => seq(|ints|, k requires 0 <= k < |ints| => Int64Value(ints[k]))
    case F64s(doubles) => seq(|doubles|, k requires 0 <= k < |doubles| => DoubleValue(doubles[k]))
    case Strings(texts) => seq(|texts|, k requires 0 <= k < |texts| => StringValue(texts[k]))
  }

  function LeavesOf(elements: seq<LogValue>): seq<Keyed<Tree>> {
    seq(|elements|, k requires 0 <= k < |elements| => Keyed([], Leaf(elements[k])))
  }

  function TreeOfValue(v: Value): Tree {
    match v
    case VBool(flag) => Leaf(BoolValue(flag))
    case VI64(i) => Leaf(Int64Value(i))
    case VF64(bits) => Leaf(DoubleValue(bits))
    case VString(text) => Leaf(StringValue(text))
    case VArray(items) =>
      if items.NewElementKind? then Unsupported else Branch(false, LeavesOf(Elements(items)))
    case VNewKind => Unsupported
  }

  // ----- limits, stated on trees -----

  predicate LeafFits(v: LogValue) {
    match v
    case StringValue(text) => |text| <= MAX_STRING_LEN
    case BytesValue(raw) => |raw| <= MAX_BYTES_LEN
    case _ => true
  }

  /** One node within its own limits, its descendants not considered. */
  predicate NodeFits(t: Tree) {
    match t
    case Leaf(v) => LeafFits(v)
    case Branch(isMap, cs) =>
      && |cs| <= (if isMap then MAX_MAP_ENTRIES else MAX_ARRAY_ELEMENTS)
      && forall k :: 0 <= k < |cs| ==> |cs[k].key| <= MAX_STRING_LEN
    case Unsupported => false
  }

  function Kids(t: Tree): seq<Keyed<Tree>> {
    if t.Branch? then t.children else []
  }

  /** Every node of the tree is within its own limits. */
  predicate EveryNodeFits(t: Tree) {
    NodeFits(t) && forall k :: 0 <= k < |Kids(t)| ==> EveryNodeFits(Kids(t)[k].value)
  }

  function Max(a: nat, b: nat): nat { if a < b then b else a }

  /** Levels of the tree; a scalar has height 1. */
  function Height(t: Tree): nat {
    1 + if t.Branch? then ForestHeight(t.children) else 0
  }

  function ForestHeight(cs: seq<Keyed<Tree>>): nat {
    if cs == [] then 0 else Max(Height(cs[0].value), ForestHeight(cs[1..]))
  }

  /** Nodes strictly below the root. */
  function Descendants(t: Tree): nat {
    if t.Branch? then |t.children| + ForestDescendants(t.children) else 0
  }

  function ForestDescendants(cs: seq<Keyed<Tree>>): nat {
    if cs == [] then 0 else Descendants(cs[0].value) + ForestDescendants(cs[1..])
  }

  lemma {:induction false} ForestHeightAtMost(cs: seq<Keyed<Tree>>, h: nat)
    ensures ForestHeight(cs) <= h <==> forall k :: 0 <= k < |cs| ==> Height(cs[k].value) <= h
  {
    if cs != [] {
      ForestHeightAtMost(cs[1..], h);
      assert forall k :: 0 < k < |cs| ==> cs[k] == cs[1..][k - 1];
    }
  }

  // ----- reading the pool back -----

  /** The tree a value names, read through the pool the way a bridge reads it. `floor` is the
      least index a child may have; a range below it or past the pool's end is malformed. */
  function Decode(nodes: seq<Node>, v: LogValue, floor: nat): Tree
    decreases |nodes| - floor
  {
    if v.ArrayValue? || v.MapValue? then
      if floor <= v.first && v.first + v.count <= |nodes| then
        Branch(v.MapValue?, seq(v.count, k requires 0 <= k < v.count =>
          var child := nodes[v.first + k];
          Keyed(child.key, Decode(nodes, child.value, v.first + k + 1))))
      else
        Unsupported
    else
      Leaf(v)
  }

  // ----- the order in which a hash map iterates does not matter -----

  ghost function KeySet(es: seq<Keyed<AnyValue>>): set<Text> {
    set e | e in es :: e.key
  }

  /** Equal as upstream compares them: lists in order, maps by key. */
  ghost predicate SameValue(a: AnyValue, b: AnyValue)
    decreases a
  {
    if a.ListAny? && b.ListAny? then
      |a.items| == |b.items| && forall k :: 0 <= k < |a.items| ==> SameValue(a.items[k], b.items[k])
    else if a.Map? && b.Map? then
      && DistinctKeys(a.entries) && DistinctKeys(b.entries) && KeySet(a.entries) == KeySet(b.entries)
      && forall x, y :: x in a.entries && y in b.entries && x.key == y.key ==> SameValue(x.value, y.value)
    else
      a == b
  }

  function Converted(es: seq<Keyed<AnyValue>>): (r: seq<Keyed<Tree>>) {
    seq(|es|, k requires 0 <= k < |es| => Keyed(es[k].key, TreeOf(es[k].value)))
  }

  lemma {:induction false} ConvertedIn(xs: seq<Keyed<AnyValue>>, ys: seq<Keyed<AnyValue>>, i: nat)
    requires KeySet(xs) <= KeySet(ys) && i < |SortByKey(xs)|
    requires forall x, y :: x in xs && y in ys && x.key == y.key ==> TreeOf(x.value) == TreeOf(y.value)
    ensures Converted(SortByKey(xs))[i] in Converted(SortByKey(ys))
  {
    var x := SortByKey(xs)[i];
    assert x in xs && x.key in KeySet(xs);
    var y :| y in ys && y.key == x.key;
    var j :| 0 <= j < |SortByKey(ys)| && SortByKey(ys)[j] == y;
    assert Converted(SortByKey(ys))[j] == Converted(SortByKey(xs))[i];
  }

  lemma {:induction false} MapsConvertAlike(xs: seq<Keyed<AnyValue>>, ys: seq<Keyed<AnyValue>>)
    requires DistinctKeys(xs) && DistinctKeys(ys) && KeySet(xs) == KeySet(ys)
    requires forall x, y :: x in xs && y in ys && x.key == y.key ==> TreeOf(x.value) == TreeOf(y.value)
    ensures Converted(SortByKey(xs)) == Converted(SortByKey(ys))
  {
    var cx, cy := Converted(SortByKey(xs)), Converted(SortByKey(ys));
    SortedByKey(xs);
    SortedByKey(ys);
    forall i | 0 <= i < |cx| ensures cx[i] in cy { ConvertedIn(xs, ys, i); }
    forall i | 0 <= i < |cy| ensures cy[i] in cx { ConvertedIn(ys, xs, i); }
    SortedUnique(cx, cy);
  }

  lemma {:induction false} SameTree(a: AnyValue, b: AnyValue)
    requires SameValue(a, b)
    ensures TreeOf(a) == TreeOf(b)
    decreases a
  {
    if a.ListAny? && b.ListAny? {
      forall k | 0 <= k < |a.items| ensures TreeOf(a.items[k]) == TreeOf(b.items[k]) {
        SameTree(a.items[k], b.items[k]);
      }
    } else if a.Map? && b.Map? {
      forall x, y | x in a.entries && y in b.entries && x.key == y.key
        ensures TreeOf(x.value) == TreeOf(y.value)
      {
        SameTree(x.value, y.value);
      }
      MapsConvertAlike(a.entries, b.entries);
      assert TreeOf(a) == Branch(true, Converted(SortByKey(a.entries)));
      assert TreeOf(b) == Branch(true, Converted(SortByKey(b.entries)));
    }
  }

  // ----- keys -----

  /** A hash map holds a key once. */
  ghost predicate UniqueMapKeys(v: AnyValue) {
    match v
    case ListAny(items) => forall k :: 0 <= k < |items| ==> UniqueMapKeys(items[k])
    case Map(entries) =>
      DistinctKeys(entries) && forall k :: 0 <= k < |entries| ==> UniqueMapKeys(entries[k].value)
    case _ => true
  }

  /** Array elements carry an empty key; map entries stand in strict key order. */
  ghost predicate WellKeyed(t: Tree) {
    t.Branch? ==>
      && (forall k :: 0 <= k < |t.children| ==> WellKeyed(t.children[k].value))
      && if t.isMap then StrictlySorted(t.children)
         else forall k :: 0 <= k < |t.children| ==> t.children[k].key == []
  }

  lemma {:induction false} KeysAreExported(v: AnyValue)
    requires UniqueMapKeys(v)
    ensures WellKeyed(TreeOf(v))
  {
    match v
    case ListAny(items) =>
      forall k | 0 <= k < |items| ensures WellKeyed(TreeOf(items[k])) {
        KeysAreExported(items[k]);
      }
    case Map(entries) =>
      var sorted := SortByKey(entries);
      SortedByKey(entries);
      forall k | 0 <= k < |sorted| ensures WellKeyed(TreeOf(sorted[k].value)) {
        assert sorted[k] in entries;
        var i :| 0 <= i < |entries| && entries[i] == sorted[k];
        KeysAreExported(sorted[k].value);
      }
      assert StrictlySorted(TreeOf(v).children);
    case _ =>
  }
}
