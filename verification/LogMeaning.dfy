/** What a flattened value says, and which values fit, stated on the upstream values alone. */
module LogMeaning {
  import opened Bytes
  import opened KeyOrder
  import opened LogValues
  import opened PoolLayout

  // ----- meaning -----

  /** The pool shows the value: scalars by kind and payload; a list element by element, without
      keys; a map entry by entry, each under its own key, keys in ascending byte order. */
  ghost predicate Shows(nodes: seq<Node>, v: LogValue, a: AnyValue)
    decreases a
  {
    match a
    case Int(i) => v == Int64Value(i)
    case Double(bits) => v == DoubleValue(bits)
    case Boolean(flag) => v == BoolValue(flag)
    case String(text) => v == StringValue(text)
    case Bytes(raw) => v == BytesValue(raw)
    case ListAny(items) => v.ArrayValue? && InPool(nodes, v) && ShowsItems(nodes, Children(nodes, v), items)
    case Map(entries) => v.MapValue? && InPool(nodes, v) && ShowsEntries(nodes, Children(nodes, v), entries)
    case NewKind => false
  }

  predicate InPool(nodes: seq<Node>, v: LogValue)
    requires v.ArrayValue? || v.MapValue?
  {
    v.first + v.count <= |nodes|
  }

  function Children(nodes: seq<Node>, v: LogValue): seq<Node>
    requires (v.ArrayValue? || v.MapValue?) && InPool(nodes, v)
  {
    nodes[v.first..v.first + v.count]
  }

  ghost predicate ShowsItems(nodes: seq<Node>, kids: seq<Node>, items: seq<AnyValue>)
    decreases items
  {
    |kids| == |items| && forall k :: 0 <= k < |kids| ==> kids[k].key == [] && Shows(nodes, kids[k].value, items[k])
  }

  ghost predicate ShowsEntries(nodes: seq<Node>, kids: seq<Node>, entries: seq<Keyed<AnyValue>>)
    decreases entries, 1
  {
    && |kids| == |entries| && EachIsShown(nodes, kids, entries) && EachShowsOne(nodes, kids, entries)
    && (DistinctKeys(entries) ==> Ascending(kids))
  }

  ghost predicate EachIsShown(nodes: seq<Node>, kids: seq<Node>, entries: seq<Keyed<AnyValue>>)
    decreases entries, 0
  {
    forall j :: 0 <= j < |entries| ==> exists k :: 0 <= k < |kids| && ShowsEntry(nodes, kids[k], entries[j])
  }

  ghost predicate EachShowsOne(nodes: seq<Node>, kids: seq<Node>, entries: seq<Keyed<AnyValue>>)
    decreases entries, 0
  {
    forall k :: 0 <= k < |kids| ==> exists j :: 0 <= j < |entries| && ShowsEntry(nodes, kids[k], entries[j])
  }

  ghost predicate Ascending(kids: seq<Node>) {
    forall i, j :: 0 <= i < j < |kids| ==> Less(kids[i].key, kids[j].key)
  }

  ghost predicate ShowsEntry(nodes: seq<Node>, kid: Node, e: Keyed<AnyValue>)
    decreases e
  {
    kid.key == e.key && Shows(nodes, kid.value, e.value)
  }

  /** The same for attribute values, whose arrays hold scalars of one kind. */
  ghost predicate ShowsAttribute(nodes: seq<Node>, v: LogValue, a: Value) {
    match a
    case VBool(flag) => v == BoolValue(flag)
    case VI64(i) => v == Int64Value(i)
    case VF64(bits) => v == DoubleValue(bits)
    case VString(text) => v == StringValue(text)
    case VArray(items) =>
      v.ArrayValue? && InPool(nodes, v) && ShowsElements(Children(nodes, v), items)
    case VNewKind => false
  }

  ghost predicate ShowsElements(kids: seq<Node>, items: Array) {
    match items
    case Bools(bools) => |kids| == |bools| && forall k :: 0 <= k < |kids| ==> kids[k] == Node([], BoolValue(bools[k]))
    case I64s(ints) => |kids| == |ints| && forall k :: 0 <= k < |kids| ==> kids[k] == Node([], Int64Value(ints[k]))
    case F64s(doubles) =>
      |kids| == |doubles| && forall k :: 0 <= k < |kids| ==> kids[k] == Node([], DoubleValue(doubles[k]))
    case Strings(texts) =>
      |kids| == |texts| && forall k :: 0 <= k < |kids| ==> kids[k] == Node([], StringValue(texts[k]))
    case NewElementKind => false
  }

  /** Reading a container back reads its children. */
  lemma DecodedChildren(nodes: seq<Node>, v: LogValue, floor: nat, t: Tree)
    requires Decode(nodes, v, floor) == t && t.Branch?
    ensures if t.isMap then v.MapValue? else v.ArrayValue?
    ensures InPool(nodes, v) && |Children(nodes, v)| == |t.children|
    ensures var kids := Children(nodes, v);
      forall k :: 0 <= k < |kids| ==>
        kids[k].key == t.children[k].key && Decode(nodes, kids[k].value, v.first + k + 1) == t.children[k].value
  {
    var kids := Children(nodes, v);
    forall k | 0 <= k < |kids|
      ensures kids[k].key == t.children[k].key && Decode(nodes, kids[k].value, v.first + k + 1) == t.children[k].value
    {
      assert kids[k] == nodes[v.first + k];
    }
  }

  /** A pool that reads back as a value's tree shows the value. */
  lemma {:induction false} DecodedShows(nodes: seq<Node>, v: LogValue, floor: nat, a: AnyValue)
    requires Decode(nodes, v, floor) == TreeOf(a) && EveryNodeFits(TreeOf(a))
    ensures Shows(nodes, v, a)
    decreases a
  {
    var t := TreeOf(a);
    match a
    case ListAny(items) =>
      DecodedChildren(nodes, v, floor, t);
      var kids := Children(nodes, v);
      hide Decode, Shows;
      forall k | 0 <= k < |kids| ensures kids[k].key == [] && Shows(nodes, kids[k].value, items[k]) {
        assert EveryNodeFits(Kids(t)[k].value);
        DecodedShows(nodes, kids[k].value, v.first + k + 1, items[k]);
      }
      assert ShowsItems(nodes, kids, items);
      ContainerShows(nodes, v, a);
    case Map(entries) =>
      DecodedChildren(nodes, v, floor, t);
      var kids, sorted := Children(nodes, v), SortByKey(entries);
      hide Decode, Shows;
      forall k | 0 <= k < |kids| ensures kids[k].key == sorted[k].key && ShowsEntry(nodes, kids[k], sorted[k]) {
        assert sorted[k] in entries;
        assert EveryNodeFits(Kids(t)[k].value);
        DecodedShows(nodes, kids[k].value, v.first + k + 1, sorted[k].value);
      }
      EntriesShow(nodes, kids, entries);
      ContainerShows(nodes, v, a);
    case _ =>
  }

  lemma ContainerShows(nodes: seq<Node>, v: LogValue, a: AnyValue)
    requires (v.ArrayValue? || v.MapValue?) && InPool(nodes, v)
    ensures a.ListAny? ==> (Shows(nodes, v, a) <==> v.ArrayValue? && ShowsItems(nodes, Children(nodes, v), a.items))
    ensures a.Map? ==> (Shows(nodes, v, a) <==> v.MapValue? && ShowsEntries(nodes, Children(nodes, v), a.entries))
  {
  }

  lemma {:induction false} EntriesAreShown(nodes: seq<Node>, kids: seq<Node>, entries: seq<Keyed<AnyValue>>)
    requires var sorted := SortByKey(entries);
      |kids| == |entries| && forall k :: 0 <= k < |kids| ==> ShowsEntry(nodes, kids[k], sorted[k])
    ensures EachIsShown(nodes, kids, entries)
  {
    var sorted := SortByKey(entries);
    assert forall e :: e in entries ==> e in sorted;
    hide ShowsEntry, SortByKey;
    forall j | 0 <= j < |entries| ensures exists k :: 0 <= k < |kids| && ShowsEntry(nodes, kids[k], entries[j]) {
      assert entries[j] in sorted;
      var k :| 0 <= k < |sorted| && sorted[k] == entries[j];
      assert ShowsEntry(nodes, kids[k], entries[j]);
    }
  }

  lemma {:induction false} KidsShow(nodes: seq<Node>, kids: seq<Node>, entries: seq<Keyed<AnyValue>>)
    requires var sorted := SortByKey(entries);
      |kids| == |entries| && forall k :: 0 <= k < |kids| ==> ShowsEntry(nodes, kids[k], sorted[k])
    ensures EachShowsOne(nodes, kids, entries)
  {
    var sorted := SortByKey(entries);
    assert forall e :: e in sorted ==> e in entries;
    hide ShowsEntry, SortByKey;
    forall k | 0 <= k < |kids| ensures exists j :: 0 <= j < |entries| && ShowsEntry(nodes, kids[k], entries[j]) {
      assert sorted[k] in entries;
      var j :| 0 <= j < |entries| && entries[j] == sorted[k];
      assert ShowsEntry(nodes, kids[k], entries[j]);
    }
  }

  lemma {:induction false} EntriesShow(nodes: seq<Node>, kids: seq<Node>, entries: seq<Keyed<AnyValue>>)
    requires var sorted := SortByKey(entries);
      |kids| == |entries| && forall k :: 0 <= k < |kids| ==>
        kids[k].key == sorted[k].key && ShowsEntry(nodes, kids[k], sorted[k])
    ensures ShowsEntries(nodes, kids, entries)
  {
    EntriesAreShown(nodes, kids, entries);
    KidsShow(nodes, kids, entries);
    if DistinctKeys(entries) { SortedByKey(entries); }
    hide Shows, ShowsEntry, EachIsShown, EachShowsOne, SortByKey, Less, DistinctKeys;
  }

  lemma {:induction false} AttributeShows(nodes: seq<Node>, v: LogValue, floor: nat, a: Value)
    requires Decode(nodes, v, floor) == TreeOfValue(a) && EveryNodeFits(TreeOfValue(a))
    ensures ShowsAttribute(nodes, v, a)
  {
    if a.VArray? {
      DecodedChildren(nodes, v, floor, TreeOfValue(a));
      var elements, kids := Elements(a.items), Children(nodes, v);
      forall k | 0 <= k < |kids| ensures kids[k] == Node([], elements[k]) {
        assert TreeOfValue(a).children[k] == Keyed([], Leaf(elements[k]));
      }
    }
  }

  // ----- verdict -----

  /** The value is representable in `levels` levels: every string, byte value, key and
      container is within its limit. */
  predicate ValueFits(a: AnyValue, levels: nat)
    decreases a
  {
    levels > 0 &&
    match a
    case String(text) => |text| <= MAX_STRING_LEN
    case Bytes(raw) => |raw| <= MAX_BYTES_LEN
    case ListAny(items) =>
      |items| <= MAX_ARRAY_ELEMENTS && forall k :: 0 <= k < |items| ==> ValueFits(items[k], levels - 1)
    case Map(entries) =>
      && |entries| <= MAX_MAP_ENTRIES
      && forall k :: 0 <= k < |entries| ==>
        |entries[k].key| <= MAX_STRING_LEN && ValueFits(entries[k].value, levels - 1)
    case NewKind => false
    case _ => true
  }

  predicate AttributeFits(a: Value, levels: nat) {
    levels > 0 &&
    match a
    case VString(text) => |text| <= MAX_STRING_LEN
    case VArray(Bools(bools)) => |bools| <= MAX_ARRAY_ELEMENTS && (bools == [] || levels > 1)
    case VArray(I64s(ints)) => |ints| <= MAX_ARRAY_ELEMENTS && (ints == [] || levels > 1)
    case VArray(F64s(doubles)) => |doubles| <= MAX_ARRAY_ELEMENTS && (doubles == [] || levels > 1)
    case VArray(Strings(texts)) =>
      && |texts| <= MAX_ARRAY_ELEMENTS && (texts == [] || levels > 1)
      && forall k :: 0 <= k < |texts| ==> |texts[k]| <= MAX_STRING_LEN
    case VArray(NewElementKind) => false
    case VNewKind => false
    case _ => true
  }

  /** Pool nodes that the value takes: its elements and entries, at every level. */
  function ValueNodes(a: AnyValue): nat
    decreases a
  {
    match a
    case ListAny(items) => |items| + ItemNodes(items)
    case Map(entries) => |entries| + EntryNodes(entries)
    case _ => 0
  }

  function ItemNodes(items: seq<AnyValue>): nat
    decreases items
  {
    if items == [] then 0 else ValueNodes(items[0]) + ItemNodes(items[1..])
  }

  function EntryNodes(entries: seq<Keyed<AnyValue>>): nat
    decreases entries
  {
    if entries == [] then 0 else ValueNodes(entries[0].value) + EntryNodes(entries[1..])
  }

  function AttributeNodes(a: Value): nat {
    match a
    case VArray(Bools(bools)) => |bools|
    case VArray(I64s(ints)) => |ints|
    case VArray(F64s(doubles)) => |doubles|
    case VArray(Strings(texts)) => |texts|
    case _ => 0
  }

  /** The limits on values are the limits on their trees. */
  lemma {:induction false} ValueFitsIff(a: AnyValue, levels: nat)
    ensures ValueFits(a, levels) <==> Fits(TreeOf(a), levels)
    decreases a
  {
    if levels > 0 {
      match a
      case ListAny(items) =>
        var kids := Kids(TreeOf(a));
        forall k | 0 <= k < |items|
          ensures ValueFits(items[k], levels - 1) <==> Fits(kids[k].value, levels - 1)
          ensures kids[k].key == []
        {
          ValueFitsIff(items[k], levels - 1);
        }
      case Map(entries) => MapFitsIff(entries, levels);
      case _ =>
    }
  }

  lemma {:induction false} MapFitsIff(entries: seq<Keyed<AnyValue>>, levels: nat)
    requires levels > 0
    ensures ValueFits(Map(entries), levels) <==> Fits(TreeOf(Map(entries)), levels)
    decreases entries, 0
  {
    var t, sorted := TreeOf(Map(entries)), SortByKey(entries);
    forall e | e in entries ensures ValueFits(e.value, levels - 1) <==> Fits(TreeOf(e.value), levels - 1) {
      ValueFitsIff(e.value, levels - 1);
    }
    assert forall k :: 0 <= k < |sorted| ==>
      sorted[k] in entries && Kids(t)[k].key == sorted[k].key && Kids(t)[k].value == TreeOf(sorted[k].value);
    assert |Kids(t)| == |entries| && forall e :: e in entries ==> e in sorted;
    hide SortByKey, TreeOf, Kids;
    SameVerdict(t, sorted, entries, levels);
  }

  lemma {:induction false} SameVerdict(
    t: Tree, sorted: seq<Keyed<AnyValue>>, entries: seq<Keyed<AnyValue>>, levels: nat)
    requires levels > 0 && t.Branch? && t.isMap && |t.children| == |sorted| == |entries|
    requires forall e :: e in entries <==> e in sorted
    requires forall k :: 0 <= k < |sorted| ==>
      && t.children[k].key == sorted[k].key
      && (ValueFits(sorted[k].value, levels - 1) <==> Fits(t.children[k].value, levels - 1))
    ensures ValueFits(Map(entries), levels) <==> Fits(t, levels)
  {
    if Fits(t, levels) {
      forall j | 0 <= j < |entries|
        ensures |entries[j].key| <= MAX_STRING_LEN && ValueFits(entries[j].value, levels - 1)
      {
        assert entries[j] in sorted;
        var k :| 0 <= k < |sorted| && sorted[k] == entries[j];
        assert Fits(Kids(t)[k].value, levels - 1);
      }
    }
    if ValueFits(Map(entries), levels) {
      forall k | 0 <= k < |sorted| ensures |sorted[k].key| <= MAX_STRING_LEN && ValueFits(sorted[k].value, levels - 1) {
        assert sorted[k] in entries;
        var j :| 0 <= j < |entries| && entries[j] == sorted[k];
      }
    }
  }

  lemma {:induction false} ElementsFitIff(elements: seq<LogValue>, levels: nat)
    requires levels > 0
    ensures Fits(Branch(false, LeavesOf(elements)), levels) <==>
      && |elements| <= MAX_ARRAY_ELEMENTS && (elements == [] || levels > 1)
      && forall k :: 0 <= k < |elements| ==> LeafFits(elements[k])
  {
    var t := Branch(false, LeavesOf(elements));
    forall k | 0 <= k < |elements|
      ensures Kids(t)[k].key == [] && (Fits(Kids(t)[k].value, levels - 1) <==> levels > 1 && LeafFits(elements[k]))
    {
    }
    if Fits(t, levels) && elements != [] { assert Fits(Kids(t)[0].value, levels - 1); }
    forall k | 0 <= k < |elements| && Fits(t, levels) ensures LeafFits(elements[k]) {
      assert Fits(Kids(t)[k].value, levels - 1);
    }
  }

  lemma {:induction false} AttributeFitsIff(a: Value, levels: nat)
    ensures AttributeFits(a, levels) <==> Fits(TreeOfValue(a), levels)
  {
    if levels > 0 && a.VArray? && !a.items.NewElementKind? {
      ElementsFitIff(Elements(a.items), levels);
      hide Fits;
      if a.items.Strings? {
        assert forall k :: 0 <= k < |a.items.texts| ==> Elements(a.items)[k] == StringValue(a.items.texts[k]);
      }
    }
  }

  /** Nodes of the trees of entries, whatever order they stand in. */
  lemma {:induction false} InsertNodes(e: Keyed<AnyValue>, es: seq<Keyed<AnyValue>>)
    ensures EntryNodes(Insert(e, es)) == ValueNodes(e.value) + EntryNodes(es)
  {
    hide ValueNodes;
    if es != [] && Less(es[0].key, e.key) {
      InsertNodes(e, es[1..]);
      assert Insert(e, es)[1..] == Insert(e, es[1..]);
    } else {
      assert Insert(e, es)[1..] == es;
    }
  }

  lemma {:induction false} SortedNodes(es: seq<Keyed<AnyValue>>)
    ensures EntryNodes(SortByKey(es)) == EntryNodes(es)
  {
    hide ValueNodes;
    if es != [] {
      SortedNodes(es[1..]);
      InsertNodes(es[0], SortByKey(es[1..]));
    }
  }

  /** Nodes counted on values are nodes counted on trees. */
  lemma {:induction false} ValueNodesIs(a: AnyValue)
    ensures ValueNodes(a) == Descendants(TreeOf(a))
    decreases a
  {
    match a
    case ListAny(items) =>
      forall k | 0 <= k < |items| ensures ValueNodes(items[k]) == Descendants(TreeOf(items[k])) {
        ValueNodesIs(items[k]);
      }
      ItemNodesIs(items, TreeOf(a).children);
    case Map(entries) =>
      var sorted := SortByKey(entries);
      forall k | 0 <= k < |sorted| ensures ValueNodes(sorted[k].value) == Descendants(TreeOf(sorted[k].value)) {
        assert sorted[k] in entries;
        ValueNodesIs(sorted[k].value);
      }
      SortedNodes(entries);
      EntryNodesIs(sorted, TreeOf(a).children);
    case _ =>
  }

  lemma {:induction false} ItemNodesIs(items: seq<AnyValue>, kids: seq<Keyed<Tree>>)
    requires |kids| == |items|
    requires forall k :: 0 <= k < |kids| ==> ValueNodes(items[k]) == Descendants(kids[k].value)
    ensures ItemNodes(items) == ForestDescendants(kids)
  {
    hide ValueNodes, Descendants;
    if items != [] { ItemNodesIs(items[1..], kids[1..]); }
  }

  lemma {:induction false} EntryNodesIs(entries: seq<Keyed<AnyValue>>, kids: seq<Keyed<Tree>>)
    requires |kids| == |entries|
    requires forall k :: 0 <= k < |kids| ==> ValueNodes(entries[k].value) == Descendants(kids[k].value)
    ensures EntryNodes(entries) == ForestDescendants(kids)
  {
    hide ValueNodes, Descendants;
    if entries != [] { EntryNodesIs(entries[1..], kids[1..]); }
  }

  lemma {:induction false} ScalarForest(elements: seq<LogValue>)
    ensures ForestDescendants(LeavesOf(elements)) == 0
  {
    if elements != [] {
      ScalarForest(elements[1..]);
      assert LeavesOf(elements)[1..] == LeavesOf(elements[1..]);
    }
  }

  lemma {:induction false} AttributeNodesIs(a: Value)
    ensures AttributeNodes(a) == Descendants(TreeOfValue(a))
  {
    if a.VArray? && !a.items.NewElementKind? { ScalarForest(Elements(a.items)); }
  }
}
