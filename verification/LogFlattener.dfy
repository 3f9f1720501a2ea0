/** The breadth-first flattener that compiles one owner's body and attributes into a pool. */
module LogFlattener {
  import opened Bytes
  import opened KeyOrder
  import opened LogValues
  import opened PoolLayout
  import opened LogMeaning

  /** Every failure is reported with the status `ExportFailed`. */
  datatype ConversionResult<+T> = Converted(value: T) | Failed(reason: string)

  datatype Source =
    | Any(value: AnyValue)
    | Attribute(attribute: Value)
    | Scalar(scalar: LogValue)

  function SourceTree(s: Source): Tree {
    match s
    case Any(v) => TreeOf(v)
    case Attribute(v) => TreeOfValue(v)
    case Scalar(v) => Leaf(v)
  }

  datatype Slot = Body | AttributeSlot(index: nat) | NodeSlot(index: nat)

  datatype Work = Work(slot: Slot, source: Source, depth: nat)

  datatype ContainerChildren =
    | List(values: seq<AnyValue>)
    | Entries(entries: seq<Keyed<AnyValue>>)
    | Scalars(scalars: seq<LogValue>)

  function ChildrenOf(c: ContainerChildren): (r: seq<Keyed<Source>>) {
    match c
    case List(vs) => seq(|vs|, k requires 0 <= k < |vs| => Keyed([], Any(vs[k])))
    case Entries(es) => seq(|es|, k requires 0 <= k < |es| => Keyed(es[k].key, Any(es[k].value)))
    case Scalars(vs) => seq(|vs|, k requires 0 <= k < |vs| => Keyed([], Scalar(vs[k])))
  }

  function Trees(cs: seq<Keyed<Source>>): seq<Keyed<Tree>> {
    seq(|cs|, k requires 0 <= k < |cs| => Keyed(cs[k].key, SourceTree(cs[k].value)))
  }

  datatype Pending = Pending(first: nat, children: ContainerChildren)

  datatype Flattened = Flattened(body: LogValue, attributes: seq<Node>, nodes: seq<Node>)

  // ----- the specification -----

  function Roots(body: Option<AnyValue>, attributes: seq<Keyed<Source>>): seq<Keyed<Tree>> {
    if body.Some? then [Keyed([], TreeOf(body.value))] + Trees(attributes) else Trees(attributes)
  }

  function Cells(hasBody: bool, f: Flattened): seq<Node> {
    if hasBody then [Node([], f.body)] + f.attributes + f.nodes else f.attributes + f.nodes
  }

  /** What an owner must respect, stated on its trees alone. */
  ghost predicate WithinLimits(roots: seq<Keyed<Tree>>, attributeCount: nat) {
    && attributeCount <= MAX_ATTRIBUTES
    && ForestDescendants(roots) <= MAX_VALUE_NODES
    && forall j :: 0 <= j < |roots| ==>
      |roots[j].key| <= MAX_STRING_LEN && Height(roots[j].value) <= MAX_VALUE_DEPTH && EveryNodeFits(roots[j].value)
  }

  /** The pool is breadth-first, bounded, and reading it back gives the roots. */
  ghost predicate IsFlattening(f: Flattened, body: Option<AnyValue>, attributes: seq<Keyed<Source>>) {
    var roots, cells := Roots(body, attributes), Cells(body.Some?, f);
    && |f.attributes| == |attributes| && (body.None? ==> f.body == EmptyValue)
    && |f.nodes| == ForestDescendants(roots) <= MAX_VALUE_NODES
    && BreadthFirst(|roots|, cells)
    && forall j :: 0 <= j < |roots| ==>
      cells[j].key == roots[j].key && DecodeCell(|roots|, cells, j) == roots[j].value
  }

  // ----- the same on the upstream values alone -----

  predicate SourceFits(s: Source, levels: nat) {
    match s
    case Any(v) => ValueFits(v, levels)
    case Attribute(v) => AttributeFits(v, levels)
    case Scalar(v) => levels > 0 && LeafFits(v)
  }

  function SourceNodes(s: Source): nat {
    match s
    case Any(v) => ValueNodes(v)
    case Attribute(v) => AttributeNodes(v)
    case Scalar(_) => 0
  }

  function AllNodes(sources: seq<Keyed<Source>>): nat {
    if sources == [] then 0 else SourceNodes(sources[0].value) + AllNodes(sources[1..])
  }

  /** The owners that can be flattened. */
  predicate OwnerFits(body: Option<AnyValue>, attributes: seq<Keyed<Source>>) {
    && |attributes| <= MAX_ATTRIBUTES
    && (forall k :: 0 <= k < |attributes| ==>
         |attributes[k].key| <= MAX_STRING_LEN && SourceFits(attributes[k].value, MAX_VALUE_DEPTH))
    && (body.Some? ==> ValueFits(body.value, MAX_VALUE_DEPTH))
    && (if body.Some? then ValueNodes(body.value) else 0) + AllNodes(attributes) <= MAX_VALUE_NODES
  }

  ghost predicate ShowsSource(nodes: seq<Node>, v: LogValue, s: Source) {
    match s
    case Any(a) => Shows(nodes, v, a)
    case Attribute(a) => ShowsAttribute(nodes, v, a)
    case Scalar(a) => v == a
  }

  lemma SourceFitsIff(s: Source)
    ensures SourceFits(s, MAX_VALUE_DEPTH) <==>
      Height(SourceTree(s)) <= MAX_VALUE_DEPTH && EveryNodeFits(SourceTree(s))
    ensures SourceNodes(s) == Descendants(SourceTree(s))
  {
    FitsIff(SourceTree(s), MAX_VALUE_DEPTH);
    match s
    case Any(v) =>
      ValueFitsIff(v, MAX_VALUE_DEPTH);
      ValueNodesIs(v);
    case Attribute(v) =>
      AttributeFitsIff(v, MAX_VALUE_DEPTH);
      AttributeNodesIs(v);
    case Scalar(_) =>
  }

  lemma {:induction false} AllNodesIs(sources: seq<Keyed<Source>>)
    ensures AllNodes(sources) == ForestDescendants(Trees(sources))
  {
    hide SourceNodes, SourceTree, Descendants;
    if sources != [] {
      AllNodesIs(sources[1..]);
      SourceFitsIff(sources[0].value);
      assert Trees(sources)[1..] == Trees(sources[1..]);
    }
  }

  lemma OwnerFitsIff(body: Option<AnyValue>, attributes: seq<Keyed<Source>>)
    ensures OwnerFits(body, attributes) <==> WithinLimits(Roots(body, attributes), |attributes|)
  {
    var roots, base := Roots(body, attributes), if body.Some? then 1 else 0;
    AllNodesIs(attributes);
    if body.Some? {
      SourceFitsIff(Any(body.value));
      assert roots[1..] == Trees(attributes);
    }
    forall k | 0 <= k < |attributes|
      ensures roots[base + k] == Keyed(attributes[k].key, SourceTree(attributes[k].value))
      ensures SourceFits(attributes[k].value, MAX_VALUE_DEPTH) <==>
        Height(roots[base + k].value) <= MAX_VALUE_DEPTH && EveryNodeFits(roots[base + k].value)
    {
      SourceFitsIff(attributes[k].value);
    }
    hide Height, EveryNodeFits, SourceFits, ValueFits, Descendants, ValueNodes;
    assert forall j :: base <= j < |roots| ==> roots[j] == roots[base + (j - base)];
  }

  /** The body and every attribute are shown, in the owner's own order and under its own keys. */
  lemma FlatteningShows(f: Flattened, body: Option<AnyValue>, attributes: seq<Keyed<Source>>)
    requires IsFlattening(f, body, attributes) && OwnerFits(body, attributes)
    ensures |f.attributes| == |attributes|
    ensures if body.Some? then Shows(f.nodes, f.body, body.value) else f.body == EmptyValue
    ensures forall k :: 0 <= k < |attributes| ==>
      f.attributes[k].key == attributes[k].key && ShowsSource(f.nodes, f.attributes[k].value, attributes[k].value)
  {
    var roots, cells, base := Roots(body, attributes), Cells(body.Some?, f), if body.Some? then 1 else 0;
    assert cells[|roots|..] == f.nodes;
    if body.Some? {
      SourceFitsIff(Any(body.value));
      assert DecodeCell(|roots|, cells, 0) == TreeOf(body.value);
      SourceShown(f.nodes, f.body, Any(body.value));
    }
    forall k | 0 <= k < |attributes|
      ensures f.attributes[k].key == attributes[k].key
      ensures ShowsSource(f.nodes, f.attributes[k].value, attributes[k].value)
    {
      assert cells[base + k] == f.attributes[k];
      assert roots[base + k] == Keyed(attributes[k].key, SourceTree(attributes[k].value));
      SourceFitsIff(attributes[k].value);
      SourceShown(f.nodes, f.attributes[k].value, attributes[k].value);
    }
  }

  lemma SourceShown(nodes: seq<Node>, v: LogValue, s: Source)
    requires Decode(nodes, v, 0) == SourceTree(s) && EveryNodeFits(SourceTree(s))
    ensures ShowsSource(nodes, v, s)
  {
    match s
    case Any(a) => DecodedShows(nodes, v, 0, a);
    case Attribute(a) => AttributeShows(nodes, v, 0, a);
    case Scalar(_) =>
  }

  /** There is only one such pool. */
  lemma FlatteningUnique(f: Flattened, g: Flattened, body: Option<AnyValue>, attributes: seq<Keyed<Source>>)
    requires IsFlattening(f, body, attributes) && IsFlattening(g, body, attributes)
    ensures f == g
  {
    var r, n := |Roots(body, attributes)|, |attributes|;
    var a, b := Cells(body.Some?, f), Cells(body.Some?, g);
    LayoutUnique(r, a, b);
    assert f.nodes == a[r..] && g.nodes == b[r..];
    assert f.attributes == a[r - n..r] && g.attributes == b[r - n..r];
    if body.Some? { assert a[0].value == b[0].value; }
  }

  /** Owners equal as upstream compares them, whatever order their hash maps iterate in, get
      the same pool, and the same verdict. */
  lemma IterationOrderIrrelevant(f: Flattened, g: Flattened, body: Option<AnyValue>, attributes: seq<Keyed<Source>>,
                                 body': Option<AnyValue>, attributes': seq<Keyed<Source>>)
    requires body.Some? == body'.Some? && (body.Some? ==> SameValue(body.value, body'.value))
    requires |attributes| == |attributes'|
    requires forall k :: 0 <= k < |attributes| ==>
      && attributes[k].key == attributes'[k].key
      && if attributes[k].value.Any? && attributes'[k].value.Any? then
           SameValue(attributes[k].value.value, attributes'[k].value.value)
         else attributes[k].value == attributes'[k].value
    ensures OwnerFits(body, attributes) <==> OwnerFits(body', attributes')
    ensures IsFlattening(f, body, attributes) && IsFlattening(g, body', attributes') ==> f == g
  {
    if body.Some? { SameTree(body.value, body'.value); }
    forall k | 0 <= k < |attributes| ensures Trees(attributes)[k] == Trees(attributes')[k] {
      if attributes[k].value.Any? && attributes'[k].value.Any? {
        SameTree(attributes[k].value.value, attributes'[k].value.value);
      }
    }
    assert Roots(body, attributes) == Roots(body', attributes');
    OwnerFitsIff(body, attributes);
    OwnerFitsIff(body', attributes');
    if IsFlattening(f, body, attributes) && IsFlattening(g, body', attributes') {
      FlatteningUnique(f, g, body, attributes);
    }
  }

  /** What the header of a pool promises a bridge: see `ReferencedOnce` and `WellKeyed`. */
  lemma PoolInvariants(f: Flattened, body: Option<AnyValue>, attributes: seq<Keyed<Source>>, i: nat)
    requires IsFlattening(f, body, attributes) && i < |f.nodes|
    ensures var r, cells := |Roots(body, attributes)|, Cells(body.Some?, f);
      && (exists j: nat :: Owns(cells, j, i) && j < r + i)
      && (forall j: nat, k: nat :: Owns(cells, j, i) && Owns(cells, k, i) ==> j == k)
  {
    ReferencedOnce(|Roots(body, attributes)|, Cells(body.Some?, f), i);
  }

  // ----- the queue against the list of trees -----

  function SlotAt(hasBody: bool, r: nat, j: nat): Slot
    requires hasBody ==> r > 0
  {
    if j >= r then NodeSlot(j - r)
    else if hasBody then (if j == 0 then Body else AttributeSlot(j - 1))
    else AttributeSlot(j)
  }

  /** `queue` holds exactly the trees from `p` on, each with its slot and depth. */
  ghost predicate Queued(queue: seq<Work>, hasBody: bool, r: nat, items: seq<Keyed<Tree>>, depths: seq<nat>, p: nat)
    requires hasBody ==> r > 0
  {
    && |items| == |depths| == p + |queue|
    && forall q :: 0 <= q < |queue| ==>
      && queue[q].slot == SlotAt(hasBody, r, p + q)
      && SourceTree(queue[q].source) == items[p + q].value
      && queue[q].depth == depths[p + q] <= MAX_VALUE_DEPTH
      && (queue[q].source.Scalar? ==> NodeFits(items[p + q].value) && Plain(items[p + q].value))
  }

  function Works(first: nat, cs: seq<Keyed<Source>>, depth: nat): seq<Work> {
    seq(|cs|, k requires 0 <= k < |cs| => Work(NodeSlot(first + k), cs[k].value, depth))
  }

  /** A value's own limits, its children's keys aside: those are read one by one later. */
  predicate HeadFits(t: Tree) {
    match t
    case Leaf(v) => LeafFits(v)
    case Branch(isMap, cs) => |cs| <= (if isMap then MAX_MAP_ENTRIES else MAX_ARRAY_ELEMENTS)
    case Unsupported => false
  }

  /** What converting a container leaves to be queued. */
  ghost predicate Leaves(pending: seq<Pending>, t: Tree, first: nat) {
    if t.Branch? then
      && |pending| == 1 && pending[0].first == first && Trees(ChildrenOf(pending[0].children)) == t.children
      && (pending[0].children.Scalars? ==>
           forall k :: 0 <= k < |t.children| ==> NodeFits(t.children[k].value) && Plain(t.children[k].value))
    else
      pending == []
  }

  /** The slot write at the head of the loop. */
  function Write(f: Flattened, slot: Slot, v: LogValue): Flattened
    requires slot.AttributeSlot? ==> slot.index < |f.attributes|
    requires slot.NodeSlot? ==> slot.index < |f.nodes|
  {
    match slot
    case Body => f.(body := v)
    case AttributeSlot(i) => f.(attributes := f.attributes[i := f.attributes[i].(value := v)])
    case NodeSlot(i) => f.(nodes := f.nodes[i := f.nodes[i].(value := v)])
  }

  function RootCount(hasBody: bool, f: Flattened): nat {
    (if hasBody then 1 else 0) + |f.attributes|
  }

  predicate InRange(f: Flattened, slot: Slot) {
    (slot.AttributeSlot? ==> slot.index < |f.attributes|) && (slot.NodeSlot? ==> slot.index < |f.nodes|)
  }

  /** The owner after a turn that wrote `v` in a slot and appended blank children. */
  function AfterTurn(f: Flattened, slot: Slot, v: LogValue, kids: seq<Keyed<Tree>>): Flattened
    requires InRange(f, slot)
  {
    var written := Write(f, slot, v);
    written.(nodes := written.nodes + Blanks(kids))
  }

  lemma {:induction false} CellsAfterTurn(hasBody: bool, f: Flattened, p: nat, v: LogValue, kids: seq<Keyed<Tree>>)
    requires p < |Cells(hasBody, f)|
    ensures var slot, cells := SlotAt(hasBody, RootCount(hasBody, f), p), Cells(hasBody, f);
      && InRange(f, slot)
      && Cells(hasBody, AfterTurn(f, slot, v, kids)) == cells[p := Node(cells[p].key, v)] + Blanks(kids)
  {
    var r, slot := RootCount(hasBody, f), SlotAt(hasBody, RootCount(hasBody, f), p);
    var cells, g := Cells(hasBody, f), Write(f, slot, v);
    assert Cells(hasBody, g) == cells[p := Node(cells[p].key, v)];
    assert Cells(hasBody, AfterTurn(f, slot, v, kids)) == Cells(hasBody, g) + Blanks(kids);
  }

  lemma QueueAfterTurn(queue: seq<Work>, hasBody: bool, r: nat, items: seq<Keyed<Tree>>, depths: seq<nat>, p: nat,
                       cs: seq<Keyed<Source>>)
    requires (hasBody ==> r > 0) && Queued(queue, hasBody, r, items, depths, p) && queue != [] && r <= |items|
    requires cs != [] ==> depths[p] + 1 <= MAX_VALUE_DEPTH
    requires forall k :: 0 <= k < |cs| && cs[k].value.Scalar? ==>
      NodeFits(SourceTree(cs[k].value)) && Plain(SourceTree(cs[k].value))
    ensures Queued(queue[1..] + Works(|items| - r, cs, depths[p] + 1), hasBody, r,
                   items + Trees(cs), depths + Level(Trees(cs), depths[p] + 1), p + 1)
  {
  }

  lemma RootLimits(roots: seq<Keyed<Tree>>, attributeCount: nat)
    requires attributeCount <= MAX_ATTRIBUTES
    requires forall j :: 0 <= j < |roots| ==> |roots[j].key| <= MAX_STRING_LEN
    ensures WithinLimits(roots, attributeCount) <==>
      WaitingFit(roots, Level(roots, 1), 0) && ForestDescendants(roots) <= MAX_VALUE_NODES
  {
    forall j | 0 <= j < |roots|
      ensures Fits(roots[j].value, MAX_VALUE_DEPTH) <==>
              Height(roots[j].value) <= MAX_VALUE_DEPTH && EveryNodeFits(roots[j].value)
    {
      FitsIff(roots[j].value, MAX_VALUE_DEPTH);
    }
    assert forall j :: 0 <= j < |roots| ==> Level(roots, 1)[j] == 1;
  }

  ghost predicate Shaped(hasBody: bool, f: Flattened, roots: seq<Keyed<Tree>>, items: seq<Keyed<Tree>>, p: nat) {
    && |roots| == RootCount(hasBody, f) <= |items| && items[..|roots|] == roots
    && |f.attributes| <= MAX_ATTRIBUTES && |f.nodes| <= MAX_VALUE_NODES
    && Linked(|roots|, Cells(hasBody, f), items, p)
    && (!hasBody ==> f.body == EmptyValue)
  }

  ghost predicate Conserved(f: Flattened, roots: seq<Keyed<Tree>>, items: seq<Keyed<Tree>>, depths: seq<nat>, p: nat) {
    && p <= |items| == |depths|
    && (WithinLimits(roots, |f.attributes|) <==>
         WaitingFit(items, depths, p) && ForestDescendants(roots) <= MAX_VALUE_NODES)
    && |f.nodes| + Waiting(items, p) == ForestDescendants(roots)
  }

  /** Everything the work loop keeps: cells linked to trees, the queue holding the trees not
      yet dequeued, and the two quantities that decide the verdict conserved. */
  ghost predicate Progress(hasBody: bool, f: Flattened, queue: seq<Work>, roots: seq<Keyed<Tree>>,
                           items: seq<Keyed<Tree>>, depths: seq<nat>, p: nat) {
    && Shaped(hasBody, f, roots, items, p)
    && Queued(queue, hasBody, |roots|, items, depths, p)
    && Conserved(f, roots, items, depths, p)
  }

  lemma TurnKeepsShape(hasBody: bool, f: Flattened, roots: seq<Keyed<Tree>>, items: seq<Keyed<Tree>>, p: nat)
    requires Shaped(hasBody, f, roots, items, p) && p < |items|
    requires !items[p].value.Unsupported? && Plain(items[p].value)
    requires |f.nodes| + |Kids(items[p].value)| <= MAX_VALUE_NODES
    ensures var t := items[p].value;
      var slot := SlotAt(hasBody, |roots|, p);
      && InRange(f, slot)
      && Shaped(hasBody, AfterTurn(f, slot, Shown(t, |f.nodes|), Kids(t)), roots, items + Kids(t), p + 1)
  {
    var t := items[p].value;
    CellsAfterTurn(hasBody, f, p, Shown(t, |f.nodes|), Kids(t));
    SettleNext(|roots|, Cells(hasBody, f), items, p);
    assert (items + Kids(t))[..|roots|] == items[..|roots|];
  }

  lemma TurnKeepsVerdict(f: Flattened, roots: seq<Keyed<Tree>>, items: seq<Keyed<Tree>>, depths: seq<nat>, p: nat,
                         f': Flattened)
    requires Conserved(f, roots, items, depths, p) && p < |items| && depths[p] <= MAX_VALUE_DEPTH
    requires NodeFits(items[p].value)
    requires |f'.attributes| == |f.attributes| && |f'.nodes| == |f.nodes| + |Kids(items[p].value)|
    ensures var kids := Kids(items[p].value);
      && Conserved(f', roots, items + kids, depths + Level(kids, depths[p] + 1), p + 1)
      && |kids| + Waiting(items + kids, p + 1) == Waiting(items, p)
  {
    WaitingNext(items, depths, p);
  }

  /** Elements of a scalar array were checked when the array was converted. */
  lemma ScalarsFit(pending: seq<Pending>, t: Tree, first: nat)
    requires Leaves(pending, t, first) && t.Branch?
    ensures var cs := ChildrenOf(pending[0].children);
      forall k :: 0 <= k < |cs| && cs[k].value.Scalar? ==>
        var u := SourceTree(cs[k].value); NodeFits(u) && Plain(u)
  {
    var cs := ChildrenOf(pending[0].children);
    forall k | 0 <= k < |cs| && cs[k].value.Scalar?
      ensures NodeFits(SourceTree(cs[k].value)) && Plain(SourceTree(cs[k].value))
    {
      assert Trees(cs)[k].value == t.children[k].value;
    }
  }

  /** What the loop knows of the item it dequeues. */
  lemma HeadOfQueue(hasBody: bool, f: Flattened, queue: seq<Work>, roots: seq<Keyed<Tree>>,
                    items: seq<Keyed<Tree>>, depths: seq<nat>, p: nat)
    requires Progress(hasBody, f, queue, roots, items, depths, p) && queue != []
    ensures p < |items| == |depths| && |f.nodes| == |items| - |roots| && |f.nodes| <= MAX_VALUE_NODES
    ensures queue[0].slot == SlotAt(hasBody, |roots|, p) && queue[0].depth == depths[p] <= MAX_VALUE_DEPTH
    ensures InRange(f, queue[0].slot) && (hasBody ==> |roots| > 0) && |roots| <= |items|
    ensures SourceTree(queue[0].source) == items[p].value
    ensures queue[0].source.Scalar? ==> HeadFits(items[p].value) && Plain(items[p].value)
  {
    CellsAfterTurn(hasBody, f, p, EmptyValue, []);
  }

  lemma TurnKeepsProgress(hasBody: bool, f: Flattened, queue: seq<Work>, roots: seq<Keyed<Tree>>,
                          items: seq<Keyed<Tree>>, depths: seq<nat>, p: nat,
                          cs: seq<Keyed<Source>>, f': Flattened, queue': seq<Work>)
    requires Progress(hasBody, f, queue, roots, items, depths, p) && queue != [] && p < |items|
    requires HeadFits(items[p].value) && Plain(items[p].value)
    requires forall k :: 0 <= k < |Kids(items[p].value)| ==> |Kids(items[p].value)[k].key| <= MAX_STRING_LEN
    requires |f.nodes| + |Kids(items[p].value)| <= MAX_VALUE_NODES
    requires Trees(cs) == Kids(items[p].value) && (cs != [] ==> queue[0].depth + 1 <= MAX_VALUE_DEPTH)
    requires forall k :: 0 <= k < |cs| && cs[k].value.Scalar? ==>
      NodeFits(SourceTree(cs[k].value)) && Plain(SourceTree(cs[k].value))
    requires InRange(f, queue[0].slot)
    requires f' == AfterTurn(f, queue[0].slot, Shown(items[p].value, |f.nodes|), Kids(items[p].value))
    requires queue' == queue[1..] + Works(|f.nodes|, cs, queue[0].depth + 1)
    ensures var t := items[p].value;
      && p < |items + Kids(t)|
      && Progress(hasBody, f', queue', roots, items + Kids(t), depths + Level(Kids(t), queue[0].depth + 1), p + 1)
      && |Kids(t)| + Waiting(items + Kids(t), p + 1) == Waiting(items, p)
  {
    hide Shaped, Queued, Conserved, Shown;
    HeadOfQueue(hasBody, f, queue, roots, items, depths, p);
    TurnKeepsShape(hasBody, f, roots, items, p);
    TurnKeepsVerdict(f, roots, items, depths, p, f');
    QueueAfterTurn(queue, hasBody, |roots|, items, depths, p, cs);
  }

  /** Each way a turn can fail is a limit the owner breaks. */
  lemma TurnFails(hasBody: bool, f: Flattened, queue: seq<Work>, roots: seq<Keyed<Tree>>,
                  items: seq<Keyed<Tree>>, depths: seq<nat>, p: nat)
    requires Progress(hasBody, f, queue, roots, items, depths, p) && queue != []
    requires var t := items[p].value;
      || !HeadFits(t) || (exists k :: 0 <= k < |Kids(t)| && |Kids(t)[k].key| > MAX_STRING_LEN)
      || |f.nodes| + |Kids(t)| > MAX_VALUE_NODES
      || (Kids(t) != [] && depths[p] + 1 > MAX_VALUE_DEPTH)
      || exists k :: 0 <= k < |Kids(t)| && !NodeFits(Kids(t)[k].value)
    ensures !WithinLimits(roots, |f.attributes|)
  {
    var t := items[p].value;
    if WaitingFit(items, depths, p) {
      assert Fits(t, MAX_VALUE_DEPTH + 1 - depths[p]);
      if Kids(t) != [] { assert Fits(Kids(t)[0].value, MAX_VALUE_DEPTH - depths[p]); }
      forall k | 0 <= k < |Kids(t)| ensures NodeFits(Kids(t)[k].value) {
        assert Fits(Kids(t)[k].value, MAX_VALUE_DEPTH - depths[p]);
      }
    }
  }

  function AttributeWorks(attributes: seq<Keyed<Source>>): seq<Work> {
    seq(|attributes|, k requires 0 <= k < |attributes| => Work(AttributeSlot(k), attributes[k].value, 1))
  }

  function RootWorks(body: Option<AnyValue>, attributes: seq<Keyed<Source>>): seq<Work> {
    if body.Some? then [Work(Body, Any(body.value), 1)] + AttributeWorks(attributes) else AttributeWorks(attributes)
  }

  lemma RootsQueued(body: Option<AnyValue>, attributes: seq<Keyed<Source>>)
    requires forall k :: 0 <= k < |attributes| ==> !attributes[k].value.Scalar?
    ensures var roots := Roots(body, attributes);
      Queued(RootWorks(body, attributes), body.Some?, |roots|, roots, Level(roots, 1), 0)
  {
  }

  lemma RootKeys(body: Option<AnyValue>, attributes: seq<Keyed<Source>>, f: Flattened)
    requires |f.attributes| == |attributes|
    requires forall k :: 0 <= k < |attributes| ==>
      f.attributes[k].key == attributes[k].key && |attributes[k].key| <= MAX_STRING_LEN
    ensures var roots := Roots(body, attributes);
      && |roots| == RootCount(body.Some?, f) == |Cells(body.Some?, f)| - |f.nodes|
      && forall j :: 0 <= j < |roots| ==>
        |roots[j].key| <= MAX_STRING_LEN && Cells(body.Some?, f)[j].key == roots[j].key
  {
    hide TreeOf, TreeOfValue;
    var roots := Roots(body, attributes);
    var base := |roots| - |attributes|;
    forall j | 0 <= j < |roots|
      ensures |roots[j].key| <= MAX_STRING_LEN && Cells(body.Some?, f)[j].key == roots[j].key
    {
      if j >= base {
        assert roots[j] == Trees(attributes)[j - base] && Cells(body.Some?, f)[j] == f.attributes[j - base];
      }
    }
  }

  lemma StartShaped(body: Option<AnyValue>, attributes: seq<Keyed<Source>>, f: Flattened)
    requires f.body == EmptyValue && f.nodes == [] && |f.attributes| == |attributes| <= MAX_ATTRIBUTES
    requires forall k :: 0 <= k < |attributes| ==>
      f.attributes[k] == Node(attributes[k].key, EmptyValue) && |attributes[k].key| <= MAX_STRING_LEN
    ensures var roots := Roots(body, attributes); Shaped(body.Some?, f, roots, roots, 0)
  {
    RootKeys(body, attributes, f);
    hide Roots, Cells;
  }

  lemma StartConserved(roots: seq<Keyed<Tree>>, f: Flattened)
    requires f.nodes == [] && |f.attributes| <= MAX_ATTRIBUTES
    requires forall j :: 0 <= j < |roots| ==> |roots[j].key| <= MAX_STRING_LEN
    ensures Conserved(f, roots, roots, Level(roots, 1), 0)
  {
    hide WithinLimits, WaitingFit;
    RootLimits(roots, |f.attributes|);
    WaitingAll(roots, 0);
    assert roots[0..] == roots;
  }

  lemma StartProgress(body: Option<AnyValue>, attributes: seq<Keyed<Source>>, f: Flattened, queue: seq<Work>)
    requires f.body == EmptyValue && f.nodes == [] && |f.attributes| == |attributes| <= MAX_ATTRIBUTES
    requires queue == RootWorks(body, attributes)
    requires forall k :: 0 <= k < |attributes| ==> !attributes[k].value.Scalar?
    requires forall k :: 0 <= k < |attributes| ==>
      f.attributes[k] == Node(attributes[k].key, EmptyValue) && |attributes[k].key| <= MAX_STRING_LEN
    ensures var roots := Roots(body, attributes);
      Progress(body.Some?, f, queue, roots, roots, Level(roots, 1), 0)
  {
    var roots := Roots(body, attributes);
    RootKeys(body, attributes, f);
    StartShaped(body, attributes, f);
    StartConserved(roots, f);
    RootsQueued(body, attributes);
    hide Roots, Shaped, Conserved, Queued, RootWorks, Cells;
  }

  lemma {:induction false} EndProgress(body: Option<AnyValue>, attributes: seq<Keyed<Source>>, f: Flattened,
                    items: seq<Keyed<Tree>>, depths: seq<nat>, p: nat)
    requires Progress(body.Some?, f, [], Roots(body, attributes), items, depths, p)
    requires |f.attributes| == |attributes|
    ensures WithinLimits(Roots(body, attributes), |attributes|) && IsFlattening(f, body, attributes)
    ensures p == |Roots(body, attributes)| + |f.nodes| <= 1281
  {
    var roots := Roots(body, attributes);
    Finished(|roots|, Cells(body.Some?, f), items);
    assert forall j :: 0 <= j < |roots| ==> items[j] == items[..|roots|][j];
  }

  lemma KeyTooLong(body: Option<AnyValue>, attributes: seq<Keyed<Source>>)
    requires exists k :: 0 <= k < |attributes| && |attributes[k].key| > MAX_STRING_LEN
    ensures !WithinLimits(Roots(body, attributes), |attributes|)
  {
    var k :| 0 <= k < |attributes| && |attributes[k].key| > MAX_STRING_LEN;
    assert Roots(body, attributes)[if body.Some? then k + 1 else k].key == attributes[k].key;
  }

  lemma TooManyAttributes(roots: seq<Keyed<Tree>>, n: nat)
    requires n > MAX_ATTRIBUTES
    ensures !WithinLimits(roots, n)
  {
  }

  lemma TakeNext(works: seq<Work>, n: nat)
    requires n < |works|
    ensures works[..n + 1] == works[..n] + [works[n]]
  {
  }

  class Flattener {
    var nodes: seq<Node>
    var queue: seq<Work>

    constructor ()
      ensures nodes == [] && queue == []
    {
      nodes := [];
      queue := [];
    }

    method ReserveChildren(count: nat) returns (r: ConversionResult<nat>)
      modifies this`nodes
      ensures r.Converted? <==> |old(nodes)| + count <= MAX_VALUE_NODES
      ensures r.Converted? ==> r.value == |old(nodes)| && nodes == old(nodes) + seq(count, _ => EMPTY_NODE)
      ensures r.Failed? ==> nodes == old(nodes)
    {
      var end := |nodes| + count;
      if end > MAX_VALUE_NODES {
        return Failed("exported log value needs too many nodes");
      }
      r := Converted(|nodes|);
      nodes := nodes + seq(count, _ => EMPTY_NODE);
    }

    method Enqueue(slot: Slot, source: Source, depth: nat) returns (r: ConversionResult<()>)
      modifies this`queue
      ensures r.Converted? <==> depth <= MAX_VALUE_DEPTH
      ensures queue == if r.Converted? then old(queue) + [Work(slot, source, depth)] else old(queue)
    {
      if depth > MAX_VALUE_DEPTH {
        return Failed("exported log value nesting exceeds the limit");
      }
      queue := queue + [Work(slot, source, depth)];
      r := Converted(());
    }

    method ConvertAny(value: AnyValue) returns (r: ConversionResult<LogValue>, pending: seq<Pending>)
      requires |nodes| <= MAX_VALUE_NODES
      modifies this`nodes
      ensures r.Converted? <==> HeadFits(TreeOf(value)) && |old(nodes)| + |Kids(TreeOf(value))| <= MAX_VALUE_NODES
      ensures r.Converted? ==>
        && Plain(TreeOf(value)) && r.value == Shown(TreeOf(value), |old(nodes)|)
        && nodes == old(nodes) + seq(|Kids(TreeOf(value))|, _ => EMPTY_NODE)
        && Leaves(pending, TreeOf(value), |old(nodes)|)
      ensures r.Converted? ==>
        match value
        case Int(i) => r.value == Int64Value(i)
        case Double(bits) => r.value == DoubleValue(bits)
        case Boolean(flag) => r.value == BoolValue(flag)
        case String(text) => r.value == StringValue(text)
        case Bytes(raw) => r.value == BytesValue(raw)
        case ListAny(items) => r.value == ArrayValue(|old(nodes)|, |items|)
        case Map(entries) => r.value == MapValue(|old(nodes)|, |entries|)
        case NewKind => false
    {
      pending := [];
      match value
      case Int(i) => r := Converted(Int64Value(i));
      case Double(bits) => r := Converted(DoubleValue(bits));
      case Boolean(flag) => r := Converted(BoolValue(flag));
      case String(text) =>
        if |text| > MAX_STRING_LEN {
          return Failed("exported log string exceeds the limit"), [];
        }
        r := Converted(StringValue(text));
      case Bytes(raw) =>
        if |raw| > MAX_BYTES_LEN {
          return Failed("exported log byte value exceeds the limit"), [];
        }
        r := Converted(BytesValue(raw));
      case ListAny(items) =>
        if |items| > MAX_ARRAY_ELEMENTS {
          return Failed("exported log array exceeds the limit"), [];
        }
        var range := ReserveChildren(|items|);
        if range.Failed? {
          return Failed(range.reason), [];
        }
        pending := [Pending(range.value, List(items))];
        assert Trees(ChildrenOf(List(items))) == TreeOf(value).children;
        r := Converted(ArrayValue(range.value, |items|));
      case Map(entries) =>
        if |entries| > MAX_MAP_ENTRIES {
          return Failed("exported log map exceeds the limit"), [];
        }
        var sorted := SortByKey(entries);
        var range := ReserveChildren(|sorted|);
        if range.Failed? {
          return Failed(range.reason), [];
        }
        pending := [Pending(range.value, Entries(sorted))];
        assert Trees(ChildrenOf(Entries(sorted))) == TreeOf(value).children;
        r := Converted(MapValue(range.value, |sorted|));
      case NewKind =>
        r := Failed("exported log value uses a value kind that cannot be represented");
    }

    method Convert(source: Source) returns (r: ConversionResult<LogValue>, pending: seq<Pending>)
      requires |nodes| <= MAX_VALUE_NODES
      modifies this`nodes
      ensures r.Failed? ==>
        || !HeadFits(SourceTree(source))
        || |old(nodes)| + |Kids(SourceTree(source))| > MAX_VALUE_NODES
        || exists k :: 0 <= k < |Kids(SourceTree(source))| && !NodeFits(Kids(SourceTree(source))[k].value)
      ensures r.Converted? && (source.Scalar? ==> Plain(SourceTree(source)) && HeadFits(SourceTree(source))) ==>
        && HeadFits(SourceTree(source)) && Plain(SourceTree(source))
        && |nodes| <= MAX_VALUE_NODES
        && r.value == Shown(SourceTree(source), |old(nodes)|)
        && nodes == old(nodes) + seq(|Kids(SourceTree(source))|, _ => EMPTY_NODE)
        && Leaves(pending, SourceTree(source), |old(nodes)|)
    {
      match source
      case Any(value) => r, pending := ConvertAny(value);
      case Attribute(value) => r, pending := ConvertAttributeValue(value);
      case Scalar(value) => r, pending := Converted(value), [];
    }

    method ConvertAttributeArray(items: Array) returns (r: ConversionResult<seq<LogValue>>)
      ensures r.Converted? <==> !items.NewElementKind? && forall v :: v in Elements(items) ==> LeafFits(v)
      ensures r.Converted? ==> r.value == Elements(items)
    {
      var elements: seq<LogValue> := [];
      match items {
      case Bools(bools) =>
        for k := 0 to |bools|
          invariant elements == Elements(items)[..k]
        {
          elements := elements + [BoolValue(bools[k])];
        }
      case I64s(ints) =>
        for k := 0 to |ints|
          invariant elements == Elements(items)[..k]
        {
          elements := elements + [Int64Value(ints[k])];
        }
      case F64s(doubles) =>
        for k := 0 to |doubles|
          invariant elements == Elements(items)[..k]
        {
          elements := elements + [DoubleValue(doubles[k])];
        }
      case Strings(texts) =>
        for k := 0 to |texts|
          invariant elements == Elements(items)[..k]
          invariant forall v :: v in elements ==> LeafFits(v)
        {
          if |texts[k]| > MAX_STRING_LEN {
            assert !LeafFits(Elements(items)[k]);
            return Failed("exported log string exceeds the limit");
          }
          elements := elements + [StringValue(texts[k])];
        }
      case NewElementKind =>
        return Failed("exported attribute array uses an unsupported element type");
      }
      r := Converted(elements);
    }

    method ConvertAttributeValue(value: Value) returns (r: ConversionResult<LogValue>, pending: seq<Pending>)
      requires |nodes| <= MAX_VALUE_NODES
      modifies this`nodes
      ensures r.Converted? ==>
        HeadFits(TreeOfValue(value)) && |old(nodes)| + |Kids(TreeOfValue(value))| <= MAX_VALUE_NODES
      ensures r.Failed? ==>
        || !HeadFits(TreeOfValue(value))
        || |old(nodes)| + |Kids(TreeOfValue(value))| > MAX_VALUE_NODES
        || exists k :: 0 <= k < |Kids(TreeOfValue(value))| && !NodeFits(Kids(TreeOfValue(value))[k].value)
      ensures r.Converted? ==>
        && Plain(TreeOfValue(value)) && r.value == Shown(TreeOfValue(value), |old(nodes)|)
        && nodes == old(nodes) + seq(|Kids(TreeOfValue(value))|, _ => EMPTY_NODE)
        && Leaves(pending, TreeOfValue(value), |old(nodes)|)
      ensures r.Converted? ==>
        match value
        case VBool(flag) => r.value == BoolValue(flag)
        case VI64(i) => r.value == Int64Value(i)
        case VF64(bits) => r.value == DoubleValue(bits)
        case VString(text) => r.value == StringValue(text)
        case VArray(_) => r.value == ArrayValue(|old(nodes)|, AttributeNodes(value))
        case VNewKind => false
    {
      pending := [];
      match value
      case VBool(flag) => r := Converted(BoolValue(flag));
      case VI64(i) => r := Converted(Int64Value(i));
      case VF64(bits) => r := Converted(DoubleValue(bits));
      case VString(text) =>
        if |text| > MAX_STRING_LEN {
          return Failed("exported log string exceeds the limit"), [];
        }
        r := Converted(StringValue(text));
      case VArray(items) =>
        var elements := ConvertAttributeArray(items);
        if elements.Failed? {
          if !items.NewElementKind? {
            var v :| v in Elements(items) && !LeafFits(v);
            var k :| 0 <= k < |Elements(items)| && Elements(items)[k] == v;
            assert !NodeFits(Kids(TreeOfValue(value))[k].value);
          }
          return Failed(elements.reason), [];
        }
        if |elements.value| > MAX_ARRAY_ELEMENTS {
          return Failed("exported attribute array exceeds the limit"), [];
        }
        var range := ReserveChildren(|elements.value|);
        if range.Failed? {
          return Failed(range.reason), [];
        }
        pending := [Pending(range.value, Scalars(elements.value))];
        assert Trees(ChildrenOf(Scalars(elements.value))) == TreeOfValue(value).children;
        r := Converted(ArrayValue(range.value, |elements.value|));
      case VNewKind =>
        r := Failed("exported attribute uses an unsupported value type");
    }

    /** Write a key into a node, unless it is too long. */
    method WriteKey(index: nat, key: Text) returns (r: ConversionResult<()>)
      requires index < |nodes|
      modifies this`nodes
      ensures r.Converted? <==> |key| <= MAX_STRING_LEN
      ensures nodes == if r.Converted? then old(nodes)[index := Node(key, old(nodes)[index].value)] else old(nodes)
    {
      if |key| > MAX_STRING_LEN {
        return Failed("exported log string exceeds the limit");
      }
      nodes := nodes[index := nodes[index].(key := key)];
      r := Converted(());
    }

    /** Write one entry's key and queue its value. */
    method EnqueueEntry(index: nat, entry: Keyed<AnyValue>, depth: nat) returns (r: ConversionResult<()>)
      requires index < |nodes|
      modifies this
      ensures r.Converted? <==> |entry.key| <= MAX_STRING_LEN && depth <= MAX_VALUE_DEPTH
      ensures r.Converted? ==>
        && nodes == old(nodes)[index := Node(entry.key, old(nodes)[index].value)]
        && queue == old(queue) + [Work(NodeSlot(index), Any(entry.value), depth)]
    {
      r := WriteKey(index, entry.key);
      if r.Failed? { return; }
      r := Enqueue(NodeSlot(index), Any(entry.value), depth);
    }

    /** Queue a map's entries and write their keys. */
    method EnqueueEntries(first: nat, entries: seq<Keyed<AnyValue>>, depth: nat) returns (r: ConversionResult<()>)
      requires first + |entries| == |nodes|
      requires forall k :: first <= k < |nodes| ==> nodes[k] == EMPTY_NODE
      modifies this
      ensures r.Converted? ==>
        && |nodes| == |old(nodes)| && nodes[..first] == old(nodes)[..first]
        && (forall m :: first <= m < |nodes| ==> nodes[m] == Node(entries[m - first].key, EmptyValue))
        && queue == old(queue) + Works(first, ChildrenOf(Entries(entries)), depth + 1)
        && (entries != [] ==> depth + 1 <= MAX_VALUE_DEPTH)
        && forall k :: 0 <= k < |entries| ==> |entries[k].key| <= MAX_STRING_LEN
      ensures r.Failed? ==>
        || (entries != [] && depth + 1 > MAX_VALUE_DEPTH)
        || exists k :: 0 <= k < |entries| && |entries[k].key| > MAX_STRING_LEN
    {
      hide TreeOf, TreeOfValue, SourceTree;
      ghost var all := Works(first, ChildrenOf(Entries(entries)), depth + 1);
      assert |all| == |entries|;
      assert forall k :: 0 <= k < |all| ==> all[k] == Work(NodeSlot(first + k), Any(entries[k].value), depth + 1);
      hide Works, ChildrenOf;
      for offset := 0 to |entries|
        invariant |nodes| == |old(nodes)| && nodes[..first] == old(nodes)[..first]
        invariant forall m :: first <= m < first + offset ==> nodes[m] == Node(entries[m - first].key, EmptyValue)
        invariant forall m :: first + offset <= m < |nodes| ==> nodes[m] == EMPTY_NODE
        invariant queue == old(queue) + all[..offset]
        invariant offset > 0 ==> depth + 1 <= MAX_VALUE_DEPTH
        invariant forall k :: 0 <= k < offset ==> |entries[k].key| <= MAX_STRING_LEN
      {
        r := EnqueueEntry(first + offset, entries[offset], depth + 1);
        if r.Failed? { return; }
        TakeNext(all, offset);
      }
      assert all[..|entries|] == all;
      r := Converted(());
    }

    /** Queue one container's children and, for a map, write their keys. */
    method EnqueueChildren(first: nat, children: ContainerChildren, depth: nat) returns (r: ConversionResult<()>)
      requires first + |ChildrenOf(children)| == |nodes|
      requires forall k :: first <= k < |nodes| ==> nodes[k] == EMPTY_NODE
      modifies this
      ensures r.Converted? ==>
        && nodes == old(nodes)[..first] + Blanks(Trees(ChildrenOf(children)))
        && queue == old(queue) + Works(first, ChildrenOf(children), depth + 1)
        && (ChildrenOf(children) != [] ==> depth + 1 <= MAX_VALUE_DEPTH)
        && forall k :: 0 <= k < |ChildrenOf(children)| ==> |ChildrenOf(children)[k].key| <= MAX_STRING_LEN
      ensures r.Failed? ==>
        || (ChildrenOf(children) != [] && depth + 1 > MAX_VALUE_DEPTH)
        || exists k :: 0 <= k < |ChildrenOf(children)| && |ChildrenOf(children)[k].key| > MAX_STRING_LEN
    {
      hide TreeOf, TreeOfValue, SourceTree;
      ghost var kids := ChildrenOf(children);
      ghost var all := Works(first, kids, depth + 1);
      match children {
      case List(values) =>
        for offset := 0 to |values|
          invariant nodes == old(nodes) && queue == old(queue) + all[..offset]
          invariant offset > 0 ==> depth + 1 <= MAX_VALUE_DEPTH
        {
          var done := Enqueue(NodeSlot(first + offset), Any(values[offset]), depth + 1);
          if done.Failed? { return done; }
          TakeNext(all, offset);
        }
      case Entries(entries) =>
        r := EnqueueEntries(first, entries, depth);
        if r.Failed? {
          if !(entries != [] && depth + 1 > MAX_VALUE_DEPTH) {
            var k :| 0 <= k < |entries| && |entries[k].key| > MAX_STRING_LEN;
            assert kids[k].key == entries[k].key;
          }
          return;
        }
      case Scalars(scalars) =>
        for offset := 0 to |scalars|
          invariant nodes == old(nodes) && queue == old(queue) + all[..offset]
          invariant offset > 0 ==> depth + 1 <= MAX_VALUE_DEPTH
        {
          var done := Enqueue(NodeSlot(first + offset), Scalar(scalars[offset]), depth + 1);
          if done.Failed? { return done; }
          TakeNext(all, offset);
        }
      }
      assert all[..|kids|] == all;
      assert nodes == old(nodes)[..first] + Blanks(Trees(kids));
      r := Converted(());
    }

    method Drain(pending: seq<Pending>, ghost t: Tree, ghost first: nat, depth: nat) returns (r: ConversionResult<()>)
      requires !t.Unsupported? && Leaves(pending, t, first) && first + |Kids(t)| == |nodes|
      requires forall k :: first <= k < |nodes| ==> nodes[k] == EMPTY_NODE
      modifies this
      ensures r.Converted? ==>
        && (Kids(t) != [] ==> depth + 1 <= MAX_VALUE_DEPTH)
        && (forall k :: 0 <= k < |Kids(t)| ==> |Kids(t)[k].key| <= MAX_STRING_LEN)
        && nodes == old(nodes)[..first] + Blanks(Kids(t))
        && queue == old(queue) + Works(first, if t.Branch? then ChildrenOf(pending[0].children) else [], depth + 1)
      ensures r.Failed? ==>
        || (Kids(t) != [] && depth + 1 > MAX_VALUE_DEPTH)
        || exists k :: 0 <= k < |Kids(t)| && |Kids(t)[k].key| > MAX_STRING_LEN
    {
      ghost var cs := if t.Branch? then ChildrenOf(pending[0].children) else [];
      assert |cs| == |Kids(t)| && forall k :: 0 <= k < |cs| ==> Trees(cs)[k].key == cs[k].key == Kids(t)[k].key;
      for d := 0 to |pending|
        invariant d == 0 ==> nodes == old(nodes) && queue == old(queue)
        invariant d > 0 ==>
          && (Kids(t) != [] ==> depth + 1 <= MAX_VALUE_DEPTH)
          && (forall k :: 0 <= k < |Kids(t)| ==> |Kids(t)[k].key| <= MAX_STRING_LEN)
          && nodes == old(nodes)[..first] + Blanks(Kids(t))
          && queue == old(queue) + Works(first, cs, depth + 1)
      {
        r := EnqueueChildren(pending[d].first, pending[d].children, depth);
        if r.Failed? { return; }
      }
      r := Converted(());
    }

    /** Queue every attribute in order, keys checked on the way. */
    method EnqueueAttributes(attributes: seq<Keyed<Source>>) returns (r: ConversionResult<seq<Node>>)
      requires forall k :: 0 <= k < |attributes| ==> !attributes[k].value.Scalar?
      modifies this`queue
      ensures r.Failed? ==> exists k :: 0 <= k < |attributes| && |attributes[k].key| > MAX_STRING_LEN
      ensures r.Converted? ==>
        && |r.value| == |attributes| && queue == old(queue) + AttributeWorks(attributes)
        && forall k :: 0 <= k < |attributes| ==>
          r.value[k] == Node(attributes[k].key, EmptyValue) && |attributes[k].key| <= MAX_STRING_LEN
    {
      ghost var all := AttributeWorks(attributes);
      var attributeNodes := seq(|attributes|, _ => EMPTY_NODE);
      for index := 0 to |attributes|
        invariant |attributeNodes| == |attributes|
        invariant forall k :: 0 <= k < index ==>
          attributeNodes[k] == Node(attributes[k].key, EmptyValue) && |attributes[k].key| <= MAX_STRING_LEN
        invariant forall k :: index <= k < |attributes| ==> attributeNodes[k] == EMPTY_NODE
        invariant queue == old(queue) + all[..index]
      {
        if |attributes[index].key| > MAX_STRING_LEN {
          return Failed("exported log string exceeds the limit");
        }
        attributeNodes := attributeNodes[index := attributeNodes[index].(key := attributes[index].key)];
        var done := Enqueue(AttributeSlot(index), attributes[index].value, 1);
        TakeNext(all, index);
      }
      assert all[..|attributes|] == all;
      r := Converted(attributeNodes);
    }

    /** Queue the body, then the attributes. */
    method EnqueueRoots(body: Option<AnyValue>, attributes: seq<Keyed<Source>>) returns (r: ConversionResult<seq<Node>>)
      requires nodes == [] && queue == []
      requires forall k :: 0 <= k < |attributes| ==> !attributes[k].value.Scalar?
      modifies this
      ensures nodes == []
      ensures r.Failed? ==> exists k :: 0 <= k < |attributes| && |attributes[k].key| > MAX_STRING_LEN
      ensures r.Converted? ==>
        && |r.value| == |attributes| && queue == RootWorks(body, attributes)
        && forall k :: 0 <= k < |attributes| ==>
          r.value[k] == Node(attributes[k].key, EmptyValue) && |attributes[k].key| <= MAX_STRING_LEN
    {
      hide AttributeWorks;
      if body.Some? {
        var done := Enqueue(Body, Any(body.value), 1);
      }
      r := EnqueueAttributes(attributes);
    }

    /** One turn of the work loop: take the front item, convert it, write its slot, then queue
        its children. `cs` is what was queued. */
    method Turn(bodyValue: LogValue, attributeNodes: seq<Node>)
      returns (r: ConversionResult<()>, bodyValue': LogValue, attributeNodes': seq<Node>, ghost cs: seq<Keyed<Source>>)
      requires queue != [] && |nodes| <= MAX_VALUE_NODES
      requires InRange(Flattened(bodyValue, attributeNodes, nodes), queue[0].slot)
      requires queue[0].source.Scalar? ==> HeadFits(SourceTree(queue[0].source)) && Plain(SourceTree(queue[0].source))
      modifies this
      ensures var work, f := old(queue)[0], Flattened(bodyValue, attributeNodes, old(nodes));
        var t := SourceTree(work.source);
        if r.Failed? then
          || !HeadFits(t) || (exists k :: 0 <= k < |Kids(t)| && |Kids(t)[k].key| > MAX_STRING_LEN)
          || |f.nodes| + |Kids(t)| > MAX_VALUE_NODES
          || (Kids(t) != [] && work.depth + 1 > MAX_VALUE_DEPTH)
          || exists k :: 0 <= k < |Kids(t)| && !NodeFits(Kids(t)[k].value)
        else
          && HeadFits(t) && Plain(t) && |f.nodes| + |Kids(t)| <= MAX_VALUE_NODES
          && (forall k :: 0 <= k < |Kids(t)| ==> |Kids(t)[k].key| <= MAX_STRING_LEN)
          && Trees(cs) == Kids(t) && (cs != [] ==> work.depth + 1 <= MAX_VALUE_DEPTH)
          && (forall k :: 0 <= k < |cs| && cs[k].value.Scalar? ==>
               NodeFits(SourceTree(cs[k].value)) && Plain(SourceTree(cs[k].value)))
          && Flattened(bodyValue', attributeNodes', nodes) == AfterTurn(f, work.slot, Shown(t, |f.nodes|), Kids(t))
          && |attributeNodes'| == |attributeNodes|
          && queue == old(queue)[1..] + Works(|f.nodes|, cs, work.depth + 1)
    {
      hide TreeOf, TreeOfValue, SourceTree, HeadFits, NodeFits, Plain, Shown;
      bodyValue', attributeNodes', cs := bodyValue, attributeNodes, [];
      var work := queue[0];
      queue := queue[1..];
      var value, pending := Convert(work.source);
      if value.Failed? {
        return Failed(value.reason), bodyValue', attributeNodes', cs;
      }
      ghost var t, first := SourceTree(work.source), |old(nodes)|;
      match work.slot {
        case Body => bodyValue' := value.value;
        case AttributeSlot(index) => attributeNodes' :=
          attributeNodes'[index := attributeNodes'[index].(value := value.value)];
        case NodeSlot(index) => nodes := nodes[index := nodes[index].(value := value.value)];
      }
      ghost var written := nodes;
      r := Drain(pending, t, first, work.depth);
      if t.Branch? {
        cs := ChildrenOf(pending[0].children);
        ScalarsFit(pending, t, first);
      }
      assert written[..first] == Write(Flattened(bodyValue, attributeNodes, old(nodes)), work.slot, value.value).nodes;
    }

    /** Flatten one owner's body and attributes into a self-contained pool. It succeeds exactly
        for owners within the limits, and the result is the one breadth-first pool that reads
        back as the owner's trees. The loop runs once per root and once per pool node. */
    method Flatten(body: Option<AnyValue>, attributes: seq<Keyed<Source>>)
      returns (r: ConversionResult<Flattened>, ghost dequeued: nat)
      requires nodes == [] && queue == []
      requires forall k :: 0 <= k < |attributes| ==> !attributes[k].value.Scalar?
      modifies this
      ensures r.Converted? <==> OwnerFits(body, attributes)
      ensures r.Converted? ==> IsFlattening(r.value, body, attributes)
      ensures r.Converted? ==>
        && |r.value.attributes| == |attributes|
        && (if body.Some? then Shows(r.value.nodes, r.value.body, body.value) else r.value.body == EmptyValue)
        && forall k :: 0 <= k < |attributes| ==>
          && r.value.attributes[k].key == attributes[k].key
          && ShowsSource(r.value.nodes, r.value.attributes[k].value, attributes[k].value)
      ensures r.Converted? ==> dequeued == |Roots(body, attributes)| + |r.value.nodes| <= 1281
    {
      OwnerFitsIff(body, attributes);
      hide OwnerFits, Shows, ShowsSource;
      hide Progress, IsFlattening, WithinLimits, Roots, TreeOf, TreeOfValue, SourceTree, HeadFits, NodeFits, Plain,
        Shown;
      hide Waiting, Works, Level, Cells, Trees, AfterTurn;
      dequeued := 0;
      ghost var roots := Roots(body, attributes);
      if |attributes| > MAX_ATTRIBUTES {
        TooManyAttributes(roots, |attributes|);
        return Failed("exported log owner carries too many attributes"), 0;
      }
      var started := EnqueueRoots(body, attributes);
      if started.Failed? {
        KeyTooLong(body, attributes);
        return Failed(started.reason), 0;
      }
      var bodyValue, attributeNodes := EmptyValue, started.value;
      ghost var items, depths := roots, Level(roots, 1);
      StartProgress(body, attributes, Flattened(bodyValue, attributeNodes, nodes), queue);
      while queue != []
        invariant |attributeNodes| == |attributes| && dequeued <= |items|
        invariant Progress(body.Some?, Flattened(bodyValue, attributeNodes, nodes), queue, roots, items, depths,
          dequeued)
        decreases |items| - dequeued + Waiting(items, dequeued)
      {
        ghost var f, queue0, p := Flattened(bodyValue, attributeNodes, nodes), queue, dequeued;
        HeadOfQueue(body.Some?, f, queue, roots, items, depths, p);
        ghost var t := items[p].value;
        dequeued := dequeued + 1;
        var turn;
        ghost var cs;
        turn, bodyValue, attributeNodes, cs := Turn(bodyValue, attributeNodes);
        if turn.Failed? {
          TurnFails(body.Some?, f, queue0, roots, items, depths, p);
          return Failed(turn.reason), dequeued;
        }
        TurnKeepsProgress(body.Some?, f, queue0, roots, items, depths, p, cs,
                          Flattened(bodyValue, attributeNodes, nodes), queue);
        items, depths := items + Kids(t), depths + Level(Kids(t), queue0[0].depth + 1);
      }
      EndProgress(body, attributes, Flattened(bodyValue, attributeNodes, nodes), items, depths, dequeued);
      FlatteningShows(Flattened(bodyValue, attributeNodes, nodes), body, attributes);
      r := Converted(Flattened(bodyValue, attributeNodes, nodes));
    }
  }

  /** One owner flattened by a flattener of its own. */
  method FlattenOwner(body: Option<AnyValue>, attributes: seq<Keyed<Source>>) returns (r: ConversionResult<Flattened>)
    requires forall k :: 0 <= k < |attributes| ==> !attributes[k].value.Scalar?
    ensures r.Converted? <==> OwnerFits(body, attributes)
    ensures r.Converted? ==> IsFlattening(r.value, body, attributes)
    ensures r.Converted? ==>
      && |r.value.attributes| == |attributes|
      && (if body.Some? then Shows(r.value.nodes, r.value.body, body.value) else r.value.body == EmptyValue)
      && forall k :: 0 <= k < |attributes| ==>
        && r.value.attributes[k].key == attributes[k].key
        && ShowsSource(r.value.nodes, r.value.attributes[k].value, attributes[k].value)
  {
    hide *;
    var flattener := new Flattener();
    ghost var dequeued;
    r, dequeued := flattener.Flatten(body, attributes);
  }
}
