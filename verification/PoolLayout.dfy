/** The shape of a breadth-first node pool, and what it determines.

    Roots and pool nodes are numbered together: *cells* `0..r` are the roots of one owner (its
    body, if any, then its attributes) and cell `r + i` is pool node `i`. */
module PoolLayout {
  import opened Bytes
  import opened KeyOrder
  import opened LogValues

  // ----- the finished pool -----

  function Count(v: LogValue): nat {
    if v.ArrayValue? || v.MapValue? then v.count else 0
  }

  /** Number of children claimed by the cells before `j`. */
  function Claimed(cells: seq<Node>, j: nat): nat
    requires j <= |cells|
  {
    if j == 0 then 0 else Claimed(cells, j - 1) + Count(cells[j - 1].value)
  }

  ghost predicate Owns(cells: seq<Node>, j: nat, i: nat) {
    && j < |cells| && (cells[j].value.ArrayValue? || cells[j].value.MapValue?)
    && cells[j].value.first <= i < cells[j].value.first + cells[j].value.count
  }

  ghost predicate InOrder(r: nat, cells: seq<Node>, j: nat)
    requires j < |cells|
  {
    && j < r + Claimed(cells, j)
    && (cells[j].value.ArrayValue? || cells[j].value.MapValue? ==> cells[j].value.first == Claimed(cells, j))
  }

  /** Child ranges follow one another in cell order, each starts past its owner, and together
      they cover the pool exactly. */
  ghost predicate BreadthFirst(r: nat, cells: seq<Node>) {
    && r <= |cells| == r + Claimed(cells, |cells|)
    && forall j :: 0 <= j < |cells| ==> InOrder(r, cells, j)
  }

  lemma {:induction false} ClaimedMonotone(cells: seq<Node>, i: nat, j: nat)
    requires i <= j <= |cells|
    ensures Claimed(cells, i) <= Claimed(cells, j)
    decreases j
  {
    if i < j { ClaimedMonotone(cells, i, j - 1); }
  }

  lemma {:induction false} Owner(cells: seq<Node>, n: nat, i: nat) returns (j: nat)
    requires n <= |cells| && i < Claimed(cells, n)
    ensures j < n && Claimed(cells, j) <= i < Claimed(cells, j) + Count(cells[j].value)
  {
    if Claimed(cells, n - 1) <= i {
      j := n - 1;
    } else {
      j := Owner(cells, n - 1, i);
    }
  }

  /** Every pool node lies in the range of exactly one cell, and after it. */
  lemma ReferencedOnce(r: nat, cells: seq<Node>, i: nat)
    requires BreadthFirst(r, cells) && i < |cells| - r
    ensures exists j: nat :: Owns(cells, j, i) && j < r + i
    ensures forall j: nat, k: nat :: Owns(cells, j, i) && Owns(cells, k, i) ==> j == k
  {
    var j := Owner(cells, |cells|, i);
    assert InOrder(r, cells, j) && Owns(cells, j, i);
    forall k: nat | Owns(cells, k, i) ensures k == j {
      assert InOrder(r, cells, k);
      if k < j {
        ClaimedMonotone(cells, k + 1, j);
      } else if j < k {
        ClaimedMonotone(cells, j + 1, k);
      }
    }
  }

  function Floor(r: nat, j: nat): nat { if j < r then 0 else j - r + 1 }

  function DecodeCell(r: nat, cells: seq<Node>, j: nat): Tree
    requires r <= |cells| && j < |cells|
  {
    Decode(cells[r..], cells[j].value, Floor(r, j))
  }

  lemma DecodeChild(r: nat, cells: seq<Node>, j: nat, k: nat)
    requires BreadthFirst(r, cells) && j < |cells| && k < Count(cells[j].value)
    ensures r + Claimed(cells, j) + k < |cells| && DecodeCell(r, cells, j).Branch?
    ensures k < |DecodeCell(r, cells, j).children| == Count(cells[j].value)
    ensures var c := r + Claimed(cells, j) + k;
      DecodeCell(r, cells, j).children[k] == Keyed(cells[c].key, DecodeCell(r, cells, c))
  {
    assert InOrder(r, cells, j);
    ClaimedMonotone(cells, j + 1, |cells|);
    var nodes, v := cells[r..], cells[j].value;
    assert Floor(r, j) <= v.first && v.first + v.count <= |nodes|;
    assert nodes[v.first + k] == cells[r + v.first + k];
  }

  lemma {:induction false} SameClaims(a: seq<Node>, b: seq<Node>, n: nat)
    requires n <= |a| && n <= |b| && a[..n] == b[..n]
    ensures Claimed(a, n) == Claimed(b, n)
  {
    if n > 0 {
      assert a[..n - 1] == a[..n][..n - 1] && b[..n - 1] == b[..n][..n - 1];
      SameClaims(a, b, n - 1);
      assert a[n - 1] == a[..n][n - 1] && b[n - 1] == b[..n][n - 1];
    }
  }

  ghost predicate SameRoots(r: nat, a: seq<Node>, b: seq<Node>) {
    && r <= |a| && r <= |b|
    && forall j :: 0 <= j < r ==> a[j].key == b[j].key && DecodeCell(r, a, j) == DecodeCell(r, b, j)
  }

  /** A cell agrees with its counterpart when all earlier cells do. */
  lemma NextCellMeansTheSame(r: nat, a: seq<Node>, b: seq<Node>, m: nat)
    requires BreadthFirst(r, a) && BreadthFirst(r, b)
    requires r <= m < |a| && m < |b| && a[..m] == b[..m]
    requires forall j :: 0 <= j < m ==> DecodeCell(r, a, j) == DecodeCell(r, b, j)
    ensures a[m].key == b[m].key && DecodeCell(r, a, m) == DecodeCell(r, b, m)
  {
    assert InOrder(r, a, m);
    var j := Owner(a, m, m - r);
    assert a[j] == a[..m][j] == b[..m][j] == b[j];
    assert a[..j] == a[..m][..j] && b[..j] == b[..m][..j];
    SameClaims(a, b, j);
    DecodeChild(r, a, j, m - r - Claimed(a, j));
    DecodeChild(r, b, j, m - r - Claimed(a, j));
  }

  lemma CellShape(r: nat, cells: seq<Node>, j: nat)
    requires BreadthFirst(r, cells) && j < |cells|
    ensures var v, t := cells[j].value, DecodeCell(r, cells, j);
      if v.ArrayValue? || v.MapValue? then
        t.Branch? && t.isMap == v.MapValue? && |t.children| == v.count && v.first == Claimed(cells, j)
      else
        t == Leaf(v)
  {
    assert InOrder(r, cells, j);
    ClaimedMonotone(cells, j + 1, |cells|);
  }

  /** A cell is determined by its meaning and its place in the order. */
  lemma SameCellValue(r: nat, a: seq<Node>, b: seq<Node>, m: nat)
    requires BreadthFirst(r, a) && BreadthFirst(r, b) && m < |a| && m < |b|
    requires Claimed(a, m) == Claimed(b, m) && DecodeCell(r, a, m) == DecodeCell(r, b, m)
    ensures a[m].value == b[m].value
  {
    CellShape(r, a, m);
    CellShape(r, b, m);
  }

  lemma {:induction false} SameCells(r: nat, a: seq<Node>, b: seq<Node>, n: nat)
    requires BreadthFirst(r, a) && BreadthFirst(r, b) && SameRoots(r, a, b)
    requires n <= |a|
    ensures n <= |b| && a[..n] == b[..n]
    ensures forall j :: 0 <= j < n ==> DecodeCell(r, a, j) == DecodeCell(r, b, j)
  {
    if n > 0 {
      var m := n - 1;
      SameCells(r, a, b, m);
      SameClaims(a, b, m);
      assert InOrder(r, a, m);
      assert m < |b|;
      if m >= r { NextCellMeansTheSame(r, a, b, m); }
      SameCellValue(r, a, b, m);
      assert a[..n] == a[..m] + [a[m]] && b[..n] == b[..m] + [b[m]];
    }
  }

  /** A breadth-first pool is determined by what it means. */
  lemma LayoutUnique(r: nat, a: seq<Node>, b: seq<Node>)
    requires BreadthFirst(r, a) && BreadthFirst(r, b) && SameRoots(r, a, b)
    ensures a == b
  {
    SameCells(r, a, b, |a|);
    SameCells(r, b, a, |b|);
  }

  // ----- the pool under construction -----

  /** A tree's own cell once its children have been placed at `first`. */
  function Shown(t: Tree, first: nat): LogValue {
    match t
    case Leaf(v) => v
    case Branch(isMap, cs) => if isMap then MapValue(first, |cs|) else ArrayValue(first, |cs|)
    case Unsupported => EmptyValue
  }

  /** Scalars only at the leaves. */
  predicate Plain(t: Tree) {
    t.Leaf? ==> !t.value.ArrayValue? && !t.value.MapValue?
  }

  function Placed(items: seq<Keyed<Tree>>, j: nat): nat
    requires j <= |items|
  {
    if j == 0 then 0 else Placed(items, j - 1) + |Kids(items[j - 1].value)|
  }

  ghost predicate Settled(r: nat, cells: seq<Node>, items: seq<Keyed<Tree>>, j: nat)
    requires j < |cells| == |items|
  {
    var t, first := items[j].value, Placed(items, j);
    && !t.Unsupported? && Plain(t)
    && cells[j].value == Shown(t, first)
    && j < r + first && r + first + |Kids(t)| <= |items|
    && items[r + first..r + first + |Kids(t)|] == Kids(t)
  }

  /** `items` lists every tree met so far, in cell order; the first `p` have been dequeued
      and stand finished in their cells, the others wait in the queue. */
  ghost predicate Linked(r: nat, cells: seq<Node>, items: seq<Keyed<Tree>>, p: nat) {
    && |cells| == |items| && p <= |items|
    && |items| == r + Placed(items, p)
    && (forall j :: 0 <= j < |cells| ==> cells[j].key == items[j].key)
    && (forall j :: 0 <= j < p ==> Settled(r, cells, items, j))
  }

  function Blank(k: Keyed<Tree>): Node { Node(k.key, EmptyValue) }

  function Blanks(kids: seq<Keyed<Tree>>): seq<Node> {
    seq(|kids|, k requires 0 <= k < |kids| => Blank(kids[k]))
  }

  lemma {:induction false} PlacedAppend(items: seq<Keyed<Tree>>, more: seq<Keyed<Tree>>, j: nat)
    requires j <= |items|
    ensures Placed(items + more, j) == Placed(items, j)
  {
    if j > 0 { PlacedAppend(items, more, j - 1); }
  }

  lemma SettledStays(r: nat, cells: seq<Node>, items: seq<Keyed<Tree>>, j: nat, p: nat, cell: Node,
                     kids: seq<Keyed<Tree>>)
    requires j < p < |cells| == |items| && Settled(r, cells, items, j)
    ensures Settled(r, cells[p := cell] + Blanks(kids), items + kids, j)
  {
    PlacedAppend(items, kids, j);
    var from := r + Placed(items, j);
    var to := from + |Kids(items[j].value)|;
    hide Placed, Blanks, Shown, Plain;
    assert (items + kids)[from..to] == items[from..to];
    assert |Blanks(kids)| == |kids| by { BlanksLength(kids); }
  }

  lemma BlanksLength(kids: seq<Keyed<Tree>>)
    ensures |Blanks(kids)| == |kids|
    ensures forall k :: 0 <= k < |kids| ==> Blanks(kids)[k].key == kids[k].key
  {
  }

  lemma {:induction false} SettledNew(r: nat, cells: seq<Node>, items: seq<Keyed<Tree>>, p: nat, key: Text)
    requires p < |cells| == |items| && !items[p].value.Unsupported? && Plain(items[p].value)
    requires |items| == r + Placed(items, p)
    ensures var kids := Kids(items[p].value);
      Settled(r, cells[p := Node(key, Shown(items[p].value, |items| - r))] + Blanks(kids), items + kids, p)
  {
    var kids := Kids(items[p].value);
    PlacedAppend(items, kids, p);
    BlanksLength(kids);
    hide Placed, Blanks, Shown, Plain, Kids;
    var items' := items + kids;
    assert items'[|items|..|items| + |kids|] == kids;
    assert items'[p] == items[p];
  }

  lemma {:induction false} KeysNext(
    cells: seq<Node>, items: seq<Keyed<Tree>>, kids: seq<Keyed<Tree>>, p: nat, cell: Node)
    requires p < |cells| == |items| && cell.key == cells[p].key
    requires forall j :: 0 <= j < |cells| ==> cells[j].key == items[j].key
    ensures |cells[p := cell] + Blanks(kids)| == |items + kids|
    ensures forall j :: 0 <= j < |items + kids| ==> (cells[p := cell] + Blanks(kids))[j].key == (items + kids)[j].key
  {
    BlanksLength(kids);
    hide Blanks;
  }

  /** One turn of the work loop: settle cell `p`, append its children. */
  lemma {:induction false} SettleNext(r: nat, cells: seq<Node>, items: seq<Keyed<Tree>>, p: nat)
    requires Linked(r, cells, items, p) && p < |items|
    requires !items[p].value.Unsupported? && Plain(items[p].value)
    ensures var kids := Kids(items[p].value);
      var cell := Node(cells[p].key, Shown(items[p].value, |items| - r));
      Linked(r, cells[p := cell] + Blanks(kids), items + kids, p + 1)
  {
    var kids := Kids(items[p].value);
    var cell := Node(cells[p].key, Shown(items[p].value, |items| - r));
    var items' := items + kids;
    PlacedAppend(items, kids, p);
    assert Placed(items', p + 1) == Placed(items', p) + |kids|;
    KeysNext(cells, items, kids, p, cell);
    SettledNew(r, cells, items, p, cells[p].key);
    hide Placed, Blanks, Shown, Plain, Kids, Settled;
    var cells' := cells[p := cell] + Blanks(kids);
    forall j | 0 <= j < p ensures Settled(r, cells', items', j) {
      SettledStays(r, cells, items, j, p, cell, kids);
    }
  }

  lemma {:induction false} ClaimedIsPlaced(r: nat, cells: seq<Node>, items: seq<Keyed<Tree>>, j: nat)
    requires Linked(r, cells, items, |items|) && j <= |items|
    ensures Claimed(cells, j) == Placed(items, j)
  {
    if j > 0 {
      ClaimedIsPlaced(r, cells, items, j - 1);
      assert Settled(r, cells, items, j - 1);
    }
  }

  lemma {:induction false} DecodeBranch(r: nat, cells: seq<Node>, items: seq<Keyed<Tree>>, j: nat)
    requires r <= |cells| == |items| && j < |cells| && Settled(r, cells, items, j) && items[j].value.Branch?
    requires var c := r + Placed(items, j);
      forall k :: c <= k < c + |Kids(items[j].value)| ==>
        cells[k].key == items[k].key && DecodeCell(r, cells, k) == items[k].value
    ensures DecodeCell(r, cells, j) == items[j].value
  {
    var t, first := items[j].value, Placed(items, j);
    forall k | 0 <= k < |t.children|
      ensures DecodeCell(r, cells, j).children[k] == t.children[k]
    {
      assert items[r + first..r + first + |t.children|][k] == t.children[k];
      assert cells[r..][first + k] == cells[r + first + k];
    }
    assert DecodeCell(r, cells, j).children == t.children;
  }

  lemma {:induction false} DecodesToItem(r: nat, cells: seq<Node>, items: seq<Keyed<Tree>>, j: nat)
    requires Linked(r, cells, items, |items|) && r <= |items| && j < |items|
    ensures DecodeCell(r, cells, j) == items[j].value
    decreases |items| - j
  {
    var t, c := items[j].value, r + Placed(items, j);
    assert Settled(r, cells, items, j);
    if t.Branch? {
      forall k | c <= k < c + |Kids(t)| ensures DecodeCell(r, cells, k) == items[k].value {
        DecodesToItem(r, cells, items, k);
      }
      DecodeBranch(r, cells, items, j);
      hide DecodeCell;
    }
  }

  /** When the queue is empty the pool is breadth-first and means what the roots mean. */
  lemma Finished(r: nat, cells: seq<Node>, items: seq<Keyed<Tree>>)
    requires Linked(r, cells, items, |items|) && r <= |items|
    ensures BreadthFirst(r, cells)
    ensures forall j :: 0 <= j < |items| ==>
      cells[j].key == items[j].key && DecodeCell(r, cells, j) == items[j].value
  {
    forall j | 0 <= j <= |items| ensures Claimed(cells, j) == Placed(items, j) {
      ClaimedIsPlaced(r, cells, items, j);
    }
    forall j | 0 <= j < |items| ensures DecodeCell(r, cells, j) == items[j].value {
      DecodesToItem(r, cells, items, j);
    }
    forall j | 0 <= j < |items| ensures InOrder(r, cells, j) {
      assert Settled(r, cells, items, j);
    }
  }

  // ----- limits, as the queue sees them -----

  /** The tree has at most `levels` levels and every node is within its limits. */
  ghost predicate Fits(t: Tree, levels: nat) {
    && levels > 0 && NodeFits(t)
    && forall k :: 0 <= k < |Kids(t)| ==> Fits(Kids(t)[k].value, levels - 1)
  }

  lemma HeightBelow(t: Tree, levels: nat)
    requires levels > 0
    ensures Height(t) <= levels <==> forall k :: 0 <= k < |Kids(t)| ==> Height(Kids(t)[k].value) <= levels - 1
  {
    ForestHeightAtMost(Kids(t), levels - 1);
    assert Height(t) == 1 + ForestHeight(Kids(t));
  }

  lemma {:induction false} FitsIff(t: Tree, levels: nat)
    ensures Fits(t, levels) <==> Height(t) <= levels && EveryNodeFits(t)
  {
    if levels > 0 {
      forall k | 0 <= k < |Kids(t)|
        ensures Fits(Kids(t)[k].value, levels - 1) <==>
                Height(Kids(t)[k].value) <= levels - 1 && EveryNodeFits(Kids(t)[k].value)
      {
        FitsIff(Kids(t)[k].value, levels - 1);
      }
      HeightBelow(t, levels);
      hide Height;
    }
  }

  /** Every waiting tree fits in the levels its depth leaves. */
  ghost predicate WaitingFit(items: seq<Keyed<Tree>>, depths: seq<nat>, p: nat)
    requires |items| == |depths|
  {
    forall j :: p <= j < |items| ==>
      depths[j] <= MAX_VALUE_DEPTH && Fits(items[j].value, MAX_VALUE_DEPTH + 1 - depths[j])
  }

  /** Nodes still to be reserved for the trees from `p` on. */
  function Waiting(items: seq<Keyed<Tree>>, p: nat): nat
    requires p <= |items|
    decreases |items| - p
  {
    if p == |items| then 0 else Descendants(items[p].value) + Waiting(items, p + 1)
  }

  lemma {:induction false} WaitingAll(items: seq<Keyed<Tree>>, p: nat)
    requires p <= |items|
    ensures Waiting(items, p) == ForestDescendants(items[p..])
    decreases |items| - p
  {
    if p < |items| {
      WaitingAll(items, p + 1);
      assert items[p..][1..] == items[p + 1..];
    }
  }

  lemma {:induction false} WaitingAppend(items: seq<Keyed<Tree>>, kids: seq<Keyed<Tree>>, p: nat)
    requires p <= |items|
    ensures Waiting(items + kids, p) == Waiting(items, p) + ForestDescendants(kids)
    decreases |items| - p
  {
    if p < |items| {
      WaitingAppend(items, kids, p + 1);
    } else {
      WaitingAll(items + kids, p);
      assert (items + kids)[p..] == kids;
    }
  }

  function Level(kids: seq<Keyed<Tree>>, depth: nat): seq<nat> {
    seq(|kids|, k => depth)
  }

  lemma ChildrenFit(items: seq<Keyed<Tree>>, depths: seq<nat>, p: nat)
    requires |items| == |depths| && p < |items| && WaitingFit(items, depths, p)
    ensures var kids := Kids(items[p].value);
      WaitingFit(items + kids, depths + Level(kids, depths[p] + 1), p + 1)
  {
    var kids := Kids(items[p].value);
    var items', depths' := items + kids, depths + Level(kids, depths[p] + 1);
    assert Fits(items[p].value, MAX_VALUE_DEPTH + 1 - depths[p]);
    forall j | p + 1 <= j < |items'|
      ensures depths'[j] <= MAX_VALUE_DEPTH && Fits(items'[j].value, MAX_VALUE_DEPTH + 1 - depths'[j])
    {
      if j >= |items| {
        assert items'[j] == kids[j - |items|] && depths'[j] == depths[p] + 1;
        assert Fits(kids[j - |items|].value, MAX_VALUE_DEPTH - depths[p]);
      } else {
        assert items'[j] == items[j] && depths'[j] == depths[j];
      }
    }
  }

  lemma ParentFits(items: seq<Keyed<Tree>>, depths: seq<nat>, p: nat)
    requires |items| == |depths| && p < |items| && depths[p] <= MAX_VALUE_DEPTH && NodeFits(items[p].value)
    requires var kids := Kids(items[p].value);
      WaitingFit(items + kids, depths + Level(kids, depths[p] + 1), p + 1)
    ensures WaitingFit(items, depths, p)
  {
    var kids := Kids(items[p].value);
    var items', depths' := items + kids, depths + Level(kids, depths[p] + 1);
    forall k | 0 <= k < |kids| ensures Fits(kids[k].value, MAX_VALUE_DEPTH - depths[p]) {
      assert items'[|items| + k] == kids[k] && depths'[|items| + k] == depths[p] + 1;
    }
    forall j | p < j < |items|
      ensures depths[j] <= MAX_VALUE_DEPTH && Fits(items[j].value, MAX_VALUE_DEPTH + 1 - depths[j])
    {
      assert items'[j] == items[j] && depths'[j] == depths[j];
    }
  }

  /** Replacing a tree in the queue by its children keeps the verdict and the node count. */
  lemma WaitingNext(items: seq<Keyed<Tree>>, depths: seq<nat>, p: nat)
    requires |items| == |depths| && p < |items| && depths[p] <= MAX_VALUE_DEPTH
    requires NodeFits(items[p].value)
    ensures var kids := Kids(items[p].value);
      && (WaitingFit(items + kids, depths + Level(kids, depths[p] + 1), p + 1) <==> WaitingFit(items, depths, p))
      && |kids| + Waiting(items + kids, p + 1) == Waiting(items, p)
  {
    var kids := Kids(items[p].value);
    WaitingAppend(items, kids, p + 1);
    hide WaitingFit;
    if WaitingFit(items + kids, depths + Level(kids, depths[p] + 1), p + 1) { ParentFits(items, depths, p); }
    if WaitingFit(items, depths, p) { ChildrenFit(items, depths, p); }
  }
}
