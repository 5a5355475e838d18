/** The layout itself: grouping by column, sorting, coordinates and the edge filter; then its geometry
  * and its independence of the order of the input. */
module DependencyLayout {
  import opened DependencyColumns
  import opened Paths
  import Sorting

  const NODE_WIDTH := 180
  const NODE_HEIGHT := 56
  const COLUMN_GAP := 90
  const ROW_GAP := 24
  const PADDING := 32

  datatype LaidOutNode = LaidOutNode(node: GraphNode, column: int, row: nat, x: int, y: int)
  datatype LaidOutGraph =
    LaidOutGraph(focalId: string, nodes: seq<LaidOutNode>, edges: seq<GraphEdge>, width: int, height: int)

  /** The comparison of keys, a consistent one: `leq(a, b)` when `a` does not sort after `b`. */
  type KeyOrder = (string, string) -> bool

  function ByKey(leq: KeyOrder): (GraphNode, GraphNode) -> bool {
    (a: GraphNode, b: GraphNode) => leq(a.key, b.key)
  }

  // ---------- What a layout is ----------

  /** A node with the column it was given, in the order of the output. */
  datatype Slot = Slot(node: GraphNode, column: int)

  /** Outermost columns and size of the tallest one. */
  datatype Frame = Frame(lo: int, hi: int, tallest: nat)

  function CountIn(slots: seq<Slot>, column: int): nat {
    if slots == [] then 0
    else CountIn(slots[..|slots| - 1], column) + if slots[|slots| - 1].column == column then 1 else 0
  }

  /** Columns come in rank order, and nodes of one column in key order. */
  ghost predicate Before(leq: KeyOrder, a: Slot, b: Slot) {
    Rank(a.column) < Rank(b.column) || (a.column == b.column && leq(a.node.key, b.node.key))
  }

  /** The assigned nodes, each exactly once, each in its column, in order. */
  ghost predicate IsSlotting(g: Graph, leq: KeyOrder, slots: seq<Slot>) {
    var byId := ById(g.nodes);
    && (forall s <- slots :: s.node.id in byId && byId[s.node.id] == s.node && InColumn(g, s.node.id, s.column))
    && (forall id <- Assigned(g) :: exists i | 0 <= i < |slots| :: slots[i].node.id == id)
    && (forall i, j | 0 <= i < j < |slots| :: slots[i].node.id != slots[j].node.id)
    && forall i, j | 0 <= i < j < |slots| :: Before(leq, slots[i], slots[j])
  }

  ghost predicate Fits(f: Frame, slots: seq<Slot>) {
    && (exists i | 0 <= i < |slots| :: slots[i].column == f.lo)
    && (exists i | 0 <= i < |slots| :: slots[i].column == f.hi)
    && (forall s <- slots :: f.lo <= s.column <= f.hi)
    && f.lo <= 0 <= f.hi
    && (forall c :: CountIn(slots, c) <= f.tallest)
    && exists c :: CountIn(slots, c) == f.tallest
  }

  /** Width of `n` columns and height of `n` rows, gaps included. */
  function Width(f: Frame): int {
    var n := f.hi - f.lo + 1;
    PADDING * 2 + n * NODE_WIDTH + (n - 1) * COLUMN_GAP
  }

  function StackHeight(n: nat): int {
    n * NODE_HEIGHT + (n - 1) * ROW_GAP
  }

  function Height(f: Frame): int {
    PADDING * 2 + StackHeight(f.tallest)
  }

  function Left(f: Frame, column: int): int {
    PADDING + (column - f.lo) * (NODE_WIDTH + COLUMN_GAP)
  }

  /** Columns are centred vertically; the difference is always even. */
  function Top(f: Frame, n: nat): int {
    (Height(f) - StackHeight(n)) / 2
  }

  function PlaceAt(f: Frame, node: GraphNode, column: int, row: nat, n: nat): LaidOutNode {
    LaidOutNode(node, column, row, Left(f, column), Top(f, n) + row * (NODE_HEIGHT + ROW_GAP))
  }

  function Place(f: Frame, slots: seq<Slot>, i: nat): LaidOutNode
    requires i < |slots|
  {
    var c := slots[i].column;
    PlaceAt(f, slots[i].node, c, CountIn(slots[..i], c), CountIn(slots, c))
  }

  /** The edges with both ends among the given ids. */
  function KeptEdges(edges: seq<GraphEdge>, ids: set<string>): seq<GraphEdge> {
    if edges == [] then []
    else
      var e := edges[|edges| - 1];
      KeptEdges(edges[..|edges| - 1], ids) + if e.from in ids && e.to in ids then [e] else []
  }

  ghost predicate IsPlaced(r: LaidOutGraph, f: Frame, slots: seq<Slot>) {
    && Fits(f, slots)
    && r.width == Width(f) && r.height == Height(f)
    && |r.nodes| == |slots| && forall i | 0 <= i < |slots| :: r.nodes[i] == Place(f, slots, i)
  }

  ghost predicate IsLayoutBy(g: Graph, leq: KeyOrder, r: LaidOutGraph, f: Frame, slots: seq<Slot>) {
    && IsSlotting(g, leq, slots) && IsPlaced(r, f, slots)
    && r.focalId == g.focalId && r.edges == KeptEdges(g.edges, Assigned(g))
  }

  ghost predicate IsLayout(g: Graph, leq: KeyOrder, r: LaidOutGraph) {
    if g.focalId in ById(g.nodes) then exists f, slots :: IsLayoutBy(g, leq, r, f, slots)
    else r == LaidOutGraph(g.focalId, [], g.edges, PADDING * 2, PADDING * 2)
  }

  // ---------- Counting ----------

  lemma {:induction false} CountConcat(a: seq<Slot>, b: seq<Slot>, c: int)
    ensures CountIn(a + b, c) == CountIn(a, c) + CountIn(b, c)
  {
    if b == [] {
      assert a + b == a;
    } else {
      assert (a + b)[..|a + b| - 1] == a + b[..|b| - 1];
      CountConcat(a, b[..|b| - 1], c);
    }
  }

  /** The slots of one column. */
  function Block(nodes: seq<GraphNode>, c: int): seq<Slot> {
    seq(|nodes|, i requires 0 <= i < |nodes| => Slot(nodes[i], c))
  }

  lemma {:induction false} CountBlock(nodes: seq<GraphNode>, c: int, d: int)
    ensures CountIn(Block(nodes, c), d) == if c == d then |nodes| else 0
  {
    if nodes != [] {
      var n := |nodes| - 1;
      assert Block(nodes, c)[..n] == Block(nodes[..n], c);
      CountBlock(nodes[..n], c, d);
    }
  }

  lemma {:induction false} CountIsMonotone(slots: seq<Slot>, i: nat, j: nat, c: int)
    requires i <= j <= |slots|
    ensures CountIn(slots[..i], c) <= CountIn(slots[..j], c)
  {
    assert slots[..j] == slots[..i] + slots[i..j];
    CountConcat(slots[..i], slots[i..j], c);
  }

  lemma {:induction false} CountPositive(slots: seq<Slot>, i: nat)
    requires i < |slots|
    ensures CountIn(slots[..i], slots[i].column) < CountIn(slots, slots[i].column)
  {
    assert slots[..i + 1][..i] == slots[..i];
    assert slots[..|slots|] == slots;
    CountIsMonotone(slots, i + 1, |slots|, slots[i].column);
  }

  // ---------- Geometry ----------

  ghost predicate Overlap(a: LaidOutNode, b: LaidOutNode) {
    && a.x < b.x + NODE_WIDTH && b.x < a.x + NODE_WIDTH
    && a.y < b.y + NODE_HEIGHT && b.y < a.y + NODE_HEIGHT
  }

  lemma Unpack(g: Graph, leq: KeyOrder, r: LaidOutGraph) returns (f: Frame, slots: seq<Slot>)
    requires g.focalId in ById(g.nodes) && IsLayout(g, leq, r)
    ensures IsPlaced(r, f, slots) && IsSlotting(g, leq, slots) && r.edges == KeptEdges(g.edges, Assigned(g))
  {
    f, slots :| IsLayoutBy(g, leq, r, f, slots);
  }

  lemma PlacedApart(r: LaidOutGraph, f: Frame, slots: seq<Slot>, i: nat, j: nat)
    requires IsPlaced(r, f, slots) && i < j < |r.nodes|
    ensures !Overlap(r.nodes[i], r.nodes[j])
  {
    var c := slots[i].column;
    if slots[j].column == c {
      assert slots[..i + 1][..i] == slots[..i];
      CountIsMonotone(slots, i + 1, j, c);
    }
  }

  lemma PlacedInside(r: LaidOutGraph, f: Frame, slots: seq<Slot>, i: nat)
    requires IsPlaced(r, f, slots) && i < |r.nodes|
    ensures var n := r.nodes[i];
            PADDING <= n.x && n.x + NODE_WIDTH <= r.width - PADDING &&
            PADDING <= n.y && n.y + NODE_HEIGHT <= r.height - PADDING
  {
    assert slots[i] in slots;
    CountPositive(slots, i);
    assert CountIn(slots, slots[i].column) <= f.tallest;
  }

  /** The rectangles of two laid-out nodes never overlap. */
  lemma NoOverlap(g: Graph, leq: KeyOrder, r: LaidOutGraph, i: nat, j: nat)
    requires g.focalId in ById(g.nodes) && IsLayout(g, leq, r) && i < j < |r.nodes|
    ensures !Overlap(r.nodes[i], r.nodes[j])
  {
    var f, slots := Unpack(g, leq, r);
    PlacedApart(r, f, slots, i, j);
  }

  /** Every rectangle lies inside the padded drawing area. */
  lemma InsideFrame(g: Graph, leq: KeyOrder, r: LaidOutGraph, i: nat)
    requires g.focalId in ById(g.nodes) && IsLayout(g, leq, r) && i < |r.nodes|
    ensures var n := r.nodes[i];
            PADDING <= n.x && n.x + NODE_WIDTH <= r.width - PADDING &&
            PADDING <= n.y && n.y + NODE_HEIGHT <= r.height - PADDING
  {
    var f, slots := Unpack(g, leq, r);
    PlacedInside(r, f, slots, i);
  }

  /** A column is centred exactly: no half unit is lost. */
  lemma ColumnsAreCentred(f: Frame, n: nat)
    requires n <= f.tallest
    ensures 2 * Top(f, n) + StackHeight(n) == Height(f)
  {
    var d := f.tallest - n;
    assert StackHeight(f.tallest) - StackHeight(n) == 80 * d;
    assert Height(f) - StackHeight(n) == 2 * (PADDING + 40 * d);
  }

  lemma LaidOutIsAssigned(g: Graph, leq: KeyOrder, slots: seq<Slot>, id: string)
    requires IsSlotting(g, leq, slots)
    ensures id in Assigned(g) <==> exists i | 0 <= i < |slots| :: slots[i].node.id == id
  {
    if i :| 0 <= i < |slots| && slots[i].node.id == id {
      assert slots[i] in slots;
      ColumnSide(g, id, slots[i].column);
    }
  }

  lemma UnpackSlots(g: Graph, leq: KeyOrder, r: LaidOutGraph) returns (slots: seq<Slot>)
    requires g.focalId in ById(g.nodes) && IsLayout(g, leq, r)
    ensures IsSlotting(g, leq, slots) && |r.nodes| == |slots|
    ensures forall i | 0 <= i < |slots| :: Slot(r.nodes[i].node, r.nodes[i].column) == slots[i]
  {
    var f;
    f, slots := Unpack(g, leq, r);
  }

  lemma SameIdsAsSlots(nodes: seq<LaidOutNode>, slots: seq<Slot>, id: string)
    requires |nodes| == |slots| && forall i | 0 <= i < |slots| :: nodes[i].node == slots[i].node
    requires forall i, j | 0 <= i < j < |slots| :: slots[i].node.id != slots[j].node.id
    ensures (exists i | 0 <= i < |slots| :: slots[i].node.id == id) <==>
            (exists i | 0 <= i < |nodes| :: nodes[i].node.id == id)
    ensures forall i, j | 0 <= i < j < |nodes| :: nodes[i].node.id == id ==> nodes[j].node.id != id
  {
    if i :| 0 <= i < |slots| && slots[i].node.id == id {
      assert nodes[i].node.id == id;
    }
  }

  lemma SlotsAreDistinct(g: Graph, leq: KeyOrder, slots: seq<Slot>)
    requires IsSlotting(g, leq, slots)
    ensures forall i, j | 0 <= i < j < |slots| :: slots[i].node.id != slots[j].node.id
  {}

  /** Every assigned node is laid out exactly once, and nothing else is. */
  lemma LaidOutOnce(g: Graph, leq: KeyOrder, r: LaidOutGraph, id: string)
    requires g.focalId in ById(g.nodes) && IsLayout(g, leq, r)
    ensures id in Assigned(g) <==> exists i | 0 <= i < |r.nodes| :: r.nodes[i].node.id == id
    ensures forall i, j | 0 <= i < j < |r.nodes| :: r.nodes[i].node.id == id ==> r.nodes[j].node.id != id
  {
    var slots := UnpackSlots(g, leq, r);
    SlotsAreDistinct(g, leq, slots);
    LaidOutIsAssigned(g, leq, slots, id);
    SameIdsAsSlots(r.nodes, slots, id);
  }

  /** Every laid-out node carries the data of its id and stands in the column of its id. */
  lemma LaidOutData(g: Graph, leq: KeyOrder, r: LaidOutGraph, i: nat)
    requires g.focalId in ById(g.nodes) && IsLayout(g, leq, r) && i < |r.nodes|
    ensures var n := r.nodes[i];
            && n.node.id in ById(g.nodes) && n.node == ById(g.nodes)[n.node.id]
            && InColumn(g, n.node.id, n.column)
  {
    var slots := UnpackSlots(g, leq, r);
    assert slots[i] in slots;
  }

  lemma ColumnsOfLaidOut(g: Graph, leq: KeyOrder, r: LaidOutGraph, id: string, c: int)
    requires g.focalId in ById(g.nodes) && IsLayout(g, leq, r) && InColumn(g, id, c)
    ensures exists j | 0 <= j < |r.nodes| :: r.nodes[j].column == c
  {
    LaidOutOnce(g, leq, r, id);
    ColumnSide(g, id, c);
    var j :| 0 <= j < |r.nodes| && r.nodes[j].node.id == id;
    LaidOutData(g, leq, r, j);
    ColumnIsUnique(g, id, c, r.nodes[j].column);
  }

  lemma OneColumnInward(g: Graph, leq: KeyOrder, r: LaidOutGraph, n: LaidOutNode)
    requires g.focalId in ById(g.nodes) && IsLayout(g, leq, r)
    requires n.column != 0 && InColumn(g, n.node.id, n.column)
    ensures exists j | 0 <= j < |r.nodes| :: r.nodes[j].column == Inward(n.column)
  {
    var id;
    if n.column > 0 {
      id := ForwardInnerIsOccupied(g, n.node.id, n.column);
    } else {
      id := BackwardInnerIsOccupied(g, n.node.id, n.column);
    }
    ColumnsOfLaidOut(g, leq, r, id, Inward(n.column));
  }

  /** Every column between the focal one and an occupied one is occupied. */
  lemma ColumnsAreContiguous(g: Graph, leq: KeyOrder, r: LaidOutGraph, i: nat, c: int)
    requires g.focalId in ById(g.nodes) && IsLayout(g, leq, r) && i < |r.nodes|
    requires IsBetween(c, r.nodes[i].column)
    ensures exists k | 0 <= k < |r.nodes| :: r.nodes[k].column == c
  {
    forall i | 0 <= i < |r.nodes| && r.nodes[i].column != 0
      ensures exists j | 0 <= j < |r.nodes| :: r.nodes[j].column == Inward(r.nodes[i].column)
    {
      LaidOutData(g, leq, r, i);
      OneColumnInward(g, leq, r, r.nodes[i]);
    }
    StepInward(r.nodes, i, c);
  }

  lemma {:induction false} StepInward(nodes: seq<LaidOutNode>, i: nat, c: int)
    requires forall i | 0 <= i < |nodes| && nodes[i].column != 0 ::
               exists j | 0 <= j < |nodes| :: nodes[j].column == Inward(nodes[i].column)
    requires i < |nodes| && IsBetween(c, nodes[i].column)
    ensures exists k | 0 <= k < |nodes| :: nodes[k].column == c
    decreases Steps(nodes[i].column)
  {
    if nodes[i].column != c {
      var j :| 0 <= j < |nodes| && nodes[j].column == Inward(nodes[i].column);
      StepInward(nodes, j, c);
    }
  }

  /** `c` lies between the focal column and `column`. */
  predicate IsBetween(c: int, column: int) {
    0 <= c <= column || column <= c <= 0
  }

  lemma {:induction false} KeptEdgesAre(edges: seq<GraphEdge>, ids: set<string>)
    ensures forall e :: multiset(KeptEdges(edges, ids))[e] ==
              if e.from in ids && e.to in ids then multiset(edges)[e] else 0
  {
    if edges != [] {
      var n := |edges| - 1;
      assert edges == edges[..n] + [edges[n]];
      KeptEdgesAre(edges[..n], ids);
    }
  }

  ghost predicate IsLaidOut(r: LaidOutGraph, id: string) {
    exists i | 0 <= i < |r.nodes| :: r.nodes[i].node.id == id
  }

  /** The edge is kept with its multiplicity if both its ends are laid out, and else not at all. */
  ghost predicate IsKeptByEnds(g: Graph, r: LaidOutGraph, e: GraphEdge) {
    multiset(r.edges)[e] == if IsLaidOut(r, e.from) && IsLaidOut(r, e.to) then multiset(g.edges)[e] else 0
  }

  lemma EdgeIsKeptByEnds(g: Graph, leq: KeyOrder, r: LaidOutGraph, e: GraphEdge)
    requires g.focalId in ById(g.nodes) && IsLayout(g, leq, r)
    ensures IsKeptByEnds(g, r, e)
  {
    LaidOutOnce(g, leq, r, e.from);
    LaidOutOnce(g, leq, r, e.to);
    KeptEdgesAre(g.edges, Assigned(g));
  }

  /** The kept edges are exactly those with both ends laid out, if and only if the focal node is in the
    * table or there are no edges at all. */
  lemma EdgesHaveBothEnds(g: Graph, leq: KeyOrder, r: LaidOutGraph)
    requires IsLayout(g, leq, r)
    ensures (forall e :: IsKeptByEnds(g, r, e)) <==> g.focalId in ById(g.nodes) || g.edges == []
  {
    if g.focalId in ById(g.nodes) {
      forall e ensures IsKeptByEnds(g, r, e) {
        EdgeIsKeptByEnds(g, leq, r, e);
      }
    } else if g.edges != [] {
      assert g.edges[0] in multiset(g.edges);
      assert !IsKeptByEnds(g, r, g.edges[0]);
    }
  }

  // ---------- Independence of the input order ----------

  /** The same nodes and edges in another order, with one node to an id. */
  ghost predicate Permuted(g: Graph, h: Graph) {
    && g.focalId == h.focalId
    && multiset(g.nodes) == multiset(h.nodes) && multiset(g.edges) == multiset(h.edges)
    && (forall m, n | m in g.nodes && n in g.nodes && m.id == n.id :: m == n)
  }

  /** No two nodes of one column are equal for the key comparison. */
  ghost predicate Distinguishes(leq: KeyOrder, g: Graph) {
    var byId := ById(g.nodes);
    forall id, id', c | id in byId && id' in byId && InColumn(g, id, c) && InColumn(g, id', c) ::
      leq(byId[id].key, byId[id'].key) && leq(byId[id'].key, byId[id].key) ==> id == id'
  }

  lemma PermutedIds(g: Graph, h: Graph, id: string)
    requires Permuted(g, h) && id in ById(g.nodes)
    ensures id in ById(h.nodes) && ById(h.nodes)[id] == ById(g.nodes)[id]
  {
    var n := ById(g.nodes)[id];
    assert n in multiset(g.nodes) && n in multiset(h.nodes);
    assert n in h.nodes && n.id in ById(h.nodes);
    var m := ById(h.nodes)[id];
    assert m in multiset(h.nodes) && m in multiset(g.nodes);
  }

  lemma PermutedSameIds(g: Graph, h: Graph)
    requires Permuted(g, h)
    ensures ById(g.nodes) == ById(h.nodes)
  {
    assert Permuted(h, g) by {
      assert forall n :: n in h.nodes ==> n in multiset(h.nodes) && n in multiset(g.nodes);
    }
    forall id | id in ById(g.nodes) ensures id in ById(h.nodes) && ById(h.nodes)[id] == ById(g.nodes)[id] {
      PermutedIds(g, h, id);
    }
    forall id | id in ById(h.nodes) ensures id in ById(g.nodes) {
      PermutedIds(h, g, id);
    }
  }

  lemma PermutedSameLinks(g: Graph, h: Graph)
    requires Permuted(g, h)
    ensures Links(g) == Links(h)
  {
    PermutedSameIds(g, h);
    assert forall e :: e in g.edges <==> e in multiset(g.edges);
    assert forall e :: e in h.edges <==> e in multiset(h.edges);
  }

  lemma NonemptyTogether(a: seq<Slot>, b: seq<Slot>)
    requires forall s <- a :: s in b
    ensures a != [] ==> b != []
  {
    if a != [] {
      assert a[0] in b;
    }
  }

  /** Two orderly lists of the same slots are the same list. */
  lemma {:induction false} OrderIsForced(leq: KeyOrder, a: seq<Slot>, b: seq<Slot>)
    requires forall i, j | 0 <= i < j < |a| :: Before(leq, a[i], a[j]) && a[i] != a[j]
    requires forall i, j | 0 <= i < j < |b| :: Before(leq, b[i], b[j]) && b[i] != b[j]
    requires forall s :: s in a <==> s in b
    requires forall s, t | s in a && t in a && Before(leq, s, t) && Before(leq, t, s) :: s == t
    ensures a == b
  {
    NonemptyTogether(a, b);
    NonemptyTogether(b, a);
    if a != [] {
      assert a[0] in a && a[0] in b;
      assert b[0] in b && b[0] in a;
      assert a[0] == b[0];
      forall s ensures s in a[1..] <==> s in b[1..] {
        assert s in a[1..] <==> s in a && s != a[0];
        assert s in b[1..] <==> s in b && s != b[0];
      }
      OrderIsForced(leq, a[1..], b[1..]);
    }
  }

  lemma SlotsAreForced(g: Graph, leq: KeyOrder, a: seq<Slot>, b: seq<Slot>)
    requires IsSlotting(g, leq, a) && IsSlotting(g, leq, b) && Distinguishes(leq, g)
    ensures a == b
  {
    SameSlots(g, leq, a, b);
    SameSlots(g, leq, b, a);
    forall s, t | s in a && t in a && Before(leq, s, t) && Before(leq, t, s) ensures s == t {
      assert s.column == t.column && InColumn(g, s.node.id, s.column) && InColumn(g, t.node.id, s.column);
      assert s.node.id == t.node.id;
    }
    OrderIsForced(leq, a, b);
  }

  lemma SameSlots(g: Graph, leq: KeyOrder, a: seq<Slot>, b: seq<Slot>)
    requires IsSlotting(g, leq, a) && IsSlotting(g, leq, b)
    ensures forall s <- a :: s in b
  {
    forall s | s in a ensures s in b {
      ColumnSide(g, s.node.id, s.column);
      var k :| 0 <= k < |b| && b[k].node.id == s.node.id;
      assert b[k] in b;
      ColumnIsUnique(g, s.node.id, s.column, b[k].column);
      assert b[k] == s;
    }
  }

  lemma SlottingIsShared(g: Graph, h: Graph, leq: KeyOrder, slots: seq<Slot>)
    requires Permuted(g, h) && IsSlotting(h, leq, slots)
    ensures IsSlotting(g, leq, slots)
  {
    PermutedSameIds(g, h);
    PermutedSameLinks(g, h);
    assert Assigned(g) == Assigned(h);
    forall s | s in slots ensures InColumn(g, s.node.id, s.column) {
      assert InColumn(h, s.node.id, s.column);
    }
  }

  lemma UnpackBoth(g: Graph, h: Graph, leq: KeyOrder, r: LaidOutGraph, q: LaidOutGraph)
    returns (f: Frame, f': Frame, slots: seq<Slot>)
    requires Permuted(g, h) && Distinguishes(leq, g) && g.focalId in ById(g.nodes) && h.focalId in ById(h.nodes)
    requires IsLayout(g, leq, r) && IsLayout(h, leq, q)
    ensures IsPlaced(r, f, slots) && IsPlaced(q, f', slots)
    ensures r.edges == KeptEdges(g.edges, Assigned(g)) && q.edges == KeptEdges(h.edges, Assigned(h))
  {
    f, slots := Unpack(g, leq, r);
    var slots';
    f', slots' := Unpack(h, leq, q);
    SlottingIsShared(g, h, leq, slots');
    SlotsAreForced(g, leq, slots, slots');
  }

  lemma PlacedAlike(r: LaidOutGraph, q: LaidOutGraph, f: Frame, f': Frame, slots: seq<Slot>)
    requires IsPlaced(r, f, slots) && IsPlaced(q, f', slots)
    ensures r.nodes == q.nodes && r.width == q.width && r.height == q.height
  {}

  /** Reordering nodes and edges changes nothing but the order of the kept edges. */
  lemma LayoutIsOrderIndependent(g: Graph, h: Graph, leq: KeyOrder, r: LaidOutGraph, q: LaidOutGraph)
    requires Permuted(g, h) && Distinguishes(leq, g)
    requires IsLayout(g, leq, r) && IsLayout(h, leq, q)
    ensures r.nodes == q.nodes && r.width == q.width && r.height == q.height
    ensures multiset(r.edges) == multiset(q.edges)
  {
    PermutedSameIds(g, h);
    if g.focalId in ById(g.nodes) {
      var f, f', slots := UnpackBoth(g, h, leq, r, q);
      PlacedAlike(r, q, f, f', slots);
      SameKeptEdges(g, h);
    }
  }

  lemma SameKeptEdges(g: Graph, h: Graph)
    requires Permuted(g, h)
    ensures multiset(KeptEdges(g.edges, Assigned(g))) == multiset(KeptEdges(h.edges, Assigned(h)))
  {
    PermutedSameLinks(g, h);
    SameFilter(g.edges, h.edges, Assigned(g));
  }

  lemma SameFilter(a: seq<GraphEdge>, b: seq<GraphEdge>, ids: set<string>)
    requires multiset(a) == multiset(b)
    ensures multiset(KeptEdges(a, ids)) == multiset(KeptEdges(b, ids))
  {
    KeptEdgesAre(a, ids);
    KeptEdgesAre(b, ids);
  }

  // ---------- The layout as a program ----------

  type ColumnLists = map<int, seq<GraphNode>>

  /** The column map, its keys in insertion order, and the node table. */
  ghost predicate IsTable(order: seq<string>, columns: map<string, int>, byId: map<string, GraphNode>) {
    && (forall id <- order :: id in columns && id in byId && byId[id].id == id && Steps(columns[id]) <= DEPTH)
    && NoDuplicates(order)
    && forall i, j | 0 <= i < j < |order| :: Rank(columns[order[i]]) <= Rank(columns[order[j]])
  }

  /** The nodes of one column, in insertion order. */
  ghost function Members(order: seq<string>, columns: map<string, int>, byId: map<string, GraphNode>, c: int)
    : seq<GraphNode>
    requires forall id <- order :: id in columns && id in byId
  {
    if order == [] then []
    else
      var id := order[|order| - 1];
      Members(order[..|order| - 1], columns, byId, c) + if columns[id] == c then [byId[id]] else []
  }

  ghost predicate Listed(columnOrder: seq<int>, lists: ColumnLists) {
    forall i | 0 <= i < |columnOrder| :: columnOrder[i] in lists
  }

  /** Distinct columns in rank order, each with a nonempty list. */
  ghost predicate IsGrouping(columnOrder: seq<int>, byColumn: ColumnLists) {
    && (forall c :: c in columnOrder <==> c in byColumn) && Listed(columnOrder, byColumn)
    && (forall c <- byColumn :: byColumn[c] != [])
    && forall i, j | 0 <= i < j < |columnOrder| :: Rank(columnOrder[i]) < Rank(columnOrder[j])
  }

  function ListAt(byColumn: ColumnLists, c: int): seq<GraphNode> {
    if c in byColumn then byColumn[c] else []
  }

  /** The lists and the key order that grouping the given keys leads to. */
  ghost function Grouped(order: seq<string>, columns: map<string, int>, byId: map<string, GraphNode>): ColumnLists
    requires forall id <- order :: id in columns && id in byId
  {
    if order == [] then map[]
    else
      var before, id := Grouped(order[..|order| - 1], columns, byId), order[|order| - 1];
      before[columns[id] := ListAt(before, columns[id]) + [byId[id]]]
  }

  ghost function GroupOrder(order: seq<string>, columns: map<string, int>): seq<int>
    requires forall id <- order :: id in columns
  {
    if order == [] then []
    else
      var before, c := GroupOrder(order[..|order| - 1], columns), columns[order[|order| - 1]];
      if c in before then before else before + [c]
  }

  method GroupByColumn(order: seq<string>, columns: map<string, int>, byId: map<string, GraphNode>)
    returns (columnOrder: seq<int>, byColumn: ColumnLists)
    requires forall id <- order :: id in columns && id in byId
    ensures byColumn == Grouped(order, columns, byId) && columnOrder == GroupOrder(order, columns)
  {
    columnOrder, byColumn := [], map[];
    for k := 0 to |order|
      invariant byColumn == Grouped(order[..k], columns, byId)
      invariant columnOrder == GroupOrder(order[..k], columns)
    {
      assert order[..k + 1][..k] == order[..k] && order[k] in order;
      GroupKeys(order[..k], columns, byId);
      var c := columns[order[k]];
      columnOrder := if c in byColumn then columnOrder else columnOrder + [c];
      byColumn := byColumn[c := ListAt(byColumn, c) + [byId[order[k]]]];
    }
    assert order[..|order|] == order;
  }

  lemma GroupedIsGrouping(order: seq<string>, columns: map<string, int>, byId: map<string, GraphNode>)
    requires IsTable(order, columns, byId)
    ensures IsGrouping(GroupOrder(order, columns), Grouped(order, columns, byId))
  {
    GroupKeys(order, columns, byId);
    GroupRanks(order, columns, byId);
  }

  lemma {:induction false} GroupKeys(order: seq<string>, columns: map<string, int>, byId: map<string, GraphNode>)
    requires forall id <- order :: id in columns && id in byId
    ensures var m := Grouped(order, columns, byId);
            && (forall c :: c in GroupOrder(order, columns) <==> c in m)
            && (forall c :: c in m <==> exists id <- order :: columns[id] == c)
            && forall c <- m :: m[c] != []
  {
    if order != [] {
      var n := |order| - 1;
      GroupKeys(order[..n], columns, byId);
      assert order == order[..n] + [order[n]];
    }
  }

  ghost predicate InRankOrder(columnOrder: seq<int>) {
    && (forall i | 0 <= i < |columnOrder| :: Steps(columnOrder[i]) <= DEPTH)
    && forall i, j | 0 <= i < j < |columnOrder| :: Rank(columnOrder[i]) < Rank(columnOrder[j])
  }

  lemma {:induction false} GroupRanks(order: seq<string>, columns: map<string, int>, byId: map<string, GraphNode>)
    requires IsTable(order, columns, byId)
    ensures InRankOrder(GroupOrder(order, columns))
  {
    if order != [] {
      var n := |order| - 1;
      GroupRanks(order[..n], columns, byId);
      RankIsNew(order, columns, byId);
      assert order[n] in order;
    }
  }

  lemma RankIsNew(order: seq<string>, columns: map<string, int>, byId: map<string, GraphNode>)
    requires IsTable(order, columns, byId) && order != []
    ensures var n := |order| - 1;
            forall d <- GroupOrder(order[..n], columns) :: Rank(d) <= Rank(columns[order[n]])
  {
    var n := |order| - 1;
    GroupKeys(order[..n], columns, byId);
    forall d | d in GroupOrder(order[..n], columns) ensures Rank(d) <= Rank(columns[order[n]]) {
      var id :| id in order[..n] && columns[id] == d;
      var i :| 0 <= i < n && order[..n][i] == id;
      assert order[i] == id;
    }
  }

  lemma {:induction false} GroupMembers(order: seq<string>, columns: map<string, int>,
                                        byId: map<string, GraphNode>, c: int)
    requires forall id <- order :: id in columns && id in byId
    ensures ListAt(Grouped(order, columns, byId), c) == Members(order, columns, byId, c)
  {
    if order != [] {
      GroupMembers(order[..|order| - 1], columns, byId, c);
    }
  }

  ghost function SortedAt(leq: KeyOrder, byColumn: ColumnLists, done: seq<int>): ColumnLists {
    map c | c in byColumn :: if c in done then Sorting.Sort(ByKey(leq), byColumn[c]) else byColumn[c]
  }

  lemma SortOneMore(leq: KeyOrder, byColumn: ColumnLists, done: seq<int>, done': seq<int>, c: int)
    requires c in byColumn && c !in done && done' == done + [c]
    ensures var sorted := SortedAt(leq, byColumn, done);
            sorted[c := Sorting.Sort(ByKey(leq), byColumn[c])] == SortedAt(leq, byColumn, done')
            && sorted[c] == byColumn[c]
  {}

  lemma SortBounds(leq: KeyOrder, byColumn: ColumnLists, columnOrder: seq<int>)
    requires forall c <- byColumn :: c in columnOrder
    ensures SortedAt(leq, byColumn, []) == byColumn
    ensures forall c <- byColumn :: SortedAt(leq, byColumn, columnOrder)[c] == Sorting.Sort(ByKey(leq), byColumn[c])
  {}

  method SortColumns(leq: KeyOrder, columnOrder: seq<int>, byColumn: ColumnLists) returns (sorted: ColumnLists)
    requires IsGrouping(columnOrder, byColumn)
    ensures sorted.Keys == byColumn.Keys
    ensures forall c <- byColumn :: sorted[c] == Sorting.Sort(ByKey(leq), byColumn[c])
  {
    SortBounds(leq, byColumn, columnOrder);
    sorted := byColumn;
    assert columnOrder[..0] == [];
    for k := 0 to |columnOrder|
      invariant sorted == SortedAt(leq, byColumn, columnOrder[..k])
    {
      NotYetSorted(columnOrder, byColumn, k);
      SortOneMore(leq, byColumn, columnOrder[..k], columnOrder[..k + 1], columnOrder[k]);
      sorted := sorted[columnOrder[k] := Sorting.Sort(ByKey(leq), sorted[columnOrder[k]])];
    }
    assert columnOrder[..|columnOrder|] == columnOrder;
  }

  lemma NotYetSorted(columnOrder: seq<int>, byColumn: ColumnLists, k: nat)
    requires IsGrouping(columnOrder, byColumn) && k < |columnOrder|
    ensures columnOrder[k] in byColumn && columnOrder[k] !in columnOrder[..k]
    ensures columnOrder[..k + 1] == columnOrder[..k] + [columnOrder[k]]
  {}

  /** The slots of the columns one after the other. */
  ghost function SlotsOf(columnOrder: seq<int>, lists: ColumnLists): seq<Slot>
    requires Listed(columnOrder, lists)
  {
    if columnOrder == [] then []
    else
      var n := |columnOrder| - 1;
      SlotsOf(columnOrder[..n], lists) + Block(lists[columnOrder[n]], columnOrder[n])
  }

  lemma {:induction false} SlotsPrefix(columnOrder: seq<int>, lists: ColumnLists, k: nat)
    requires k < |columnOrder| && Listed(columnOrder, lists)
    ensures SlotsOf(columnOrder[..k], lists) + Block(lists[columnOrder[k]], columnOrder[k])
            <= SlotsOf(columnOrder, lists)
    decreases |columnOrder|
  {
    var n := |columnOrder| - 1;
    if k < n {
      SlotsPrefix(columnOrder[..n], lists, k);
      assert columnOrder[..n][..k] == columnOrder[..k];
    }
  }

  lemma {:induction false} CountSlots(columnOrder: seq<int>, lists: ColumnLists, c: int)
    requires Listed(columnOrder, lists) && NoDuplicates(columnOrder)
    ensures CountIn(SlotsOf(columnOrder, lists), c) == if c in columnOrder then |lists[c]| else 0
  {
    if columnOrder != [] {
      var n := |columnOrder| - 1;
      CountSlots(columnOrder[..n], lists, c);
      CountBlock(lists[columnOrder[n]], columnOrder[n], c);
      CountConcat(SlotsOf(columnOrder[..n], lists), Block(lists[columnOrder[n]], columnOrder[n]), c);
      assert columnOrder == columnOrder[..n] + [columnOrder[n]];
    }
  }

  /** Smallest and largest column, and the longest list. */
  method Extents(columnOrder: seq<int>, lists: ColumnLists) returns (f: Frame)
    requires IsGrouping(columnOrder, lists) && 0 in lists
    ensures f.lo in lists && f.hi in lists && f.lo <= 0 <= f.hi && forall c <- lists :: f.lo <= c <= f.hi
    ensures (exists c <- lists :: |lists[c]| == f.tallest) && forall c <- lists :: |lists[c]| <= f.tallest
  {
    var lo, hi, tallest := 0, 0, 0;
    ghost var best := 0;
    for k := 0 to |columnOrder|
      invariant lo <= 0 <= hi && lo in lists && hi in lists
      invariant forall i | 0 <= i < k :: lo <= columnOrder[i] <= hi && |lists[columnOrder[i]]| <= tallest
      invariant k > 0 ==> best in lists && |lists[best]| == tallest
      invariant k == 0 ==> tallest == 0
    {
      var c := columnOrder[k];
      assert c in columnOrder;
      lo := if c < lo then c else lo;
      hi := if c > hi then c else hi;
      if |lists[c]| > tallest {
        tallest, best := |lists[c]|, c;
      }
    }
    assert 0 in columnOrder;
    f := Frame(lo, hi, tallest);
  }

  ghost predicate ArePlaced(f: Frame, slots: seq<Slot>, laidOut: seq<LaidOutNode>) {
    |laidOut| <= |slots| && forall i | 0 <= i < |laidOut| :: laidOut[i] == Place(f, slots, i)
  }

  method PlaceNodes(f: Frame, columnOrder: seq<int>, lists: ColumnLists) returns (laidOut: seq<LaidOutNode>)
    requires IsGrouping(columnOrder, lists)
    ensures var slots := SlotsOf(columnOrder, lists); |laidOut| == |slots| && ArePlaced(f, slots, laidOut)
  {
    laidOut := [];
    for k := 0 to |columnOrder|
      invariant |laidOut| == |SlotsOf(columnOrder[..k], lists)|
      invariant ArePlaced(f, SlotsOf(columnOrder, lists), laidOut)
    {
      var column := PlaceColumn(f, columnOrder[k], lists[columnOrder[k]]);
      OneMoreColumn(f, columnOrder, lists, k, laidOut, column);
      laidOut := laidOut + column;
    }
    assert columnOrder[..|columnOrder|] == columnOrder;
  }

  /** The nodes of one column from top to bottom. */
  ghost predicate IsColumn(f: Frame, c: int, list: seq<GraphNode>, column: seq<LaidOutNode>) {
    |column| == |list| && forall i | 0 <= i < |column| :: column[i] == PlaceAt(f, list[i], c, i, |list|)
  }

  lemma SlotsGrow(columnOrder: seq<int>, lists: ColumnLists, k: nat)
    requires k < |columnOrder| && Listed(columnOrder, lists)
    ensures |SlotsOf(columnOrder[..k + 1], lists)| ==
            |SlotsOf(columnOrder[..k], lists)| + |lists[columnOrder[k]]| <= |SlotsOf(columnOrder, lists)|
  {
    assert columnOrder[..k + 1][..k] == columnOrder[..k];
    SlotsPrefix(columnOrder, lists, k);
  }

  lemma OneMoreColumn(f: Frame, columnOrder: seq<int>, lists: ColumnLists, k: nat, laidOut: seq<LaidOutNode>,
                      column: seq<LaidOutNode>)
    requires IsGrouping(columnOrder, lists) && k < |columnOrder|
    requires |laidOut| == |SlotsOf(columnOrder[..k], lists)| && ArePlaced(f, SlotsOf(columnOrder, lists), laidOut)
    requires IsColumn(f, columnOrder[k], lists[columnOrder[k]], column)
    ensures |laidOut + column| == |SlotsOf(columnOrder[..k + 1], lists)|
    ensures ArePlaced(f, SlotsOf(columnOrder, lists), laidOut + column)
  {
    var slots := SlotsOf(columnOrder, lists);
    SlotsGrow(columnOrder, lists, k);
    forall i | 0 <= i < |column| ensures column[i] == Place(f, slots, |laidOut| + i) {
      PlaceIs(f, columnOrder, lists, k, i);
    }
    ArePlacedConcat(f, slots, laidOut, column);
  }

  lemma ArePlacedConcat(f: Frame, slots: seq<Slot>, laidOut: seq<LaidOutNode>, column: seq<LaidOutNode>)
    requires ArePlaced(f, slots, laidOut) && |laidOut| + |column| <= |slots|
    requires forall i | 0 <= i < |column| :: column[i] == Place(f, slots, |laidOut| + i)
    ensures ArePlaced(f, slots, laidOut + column)
  {
    var all := laidOut + column;
    forall i | 0 <= i < |all| ensures all[i] == Place(f, slots, i) {
      if i >= |laidOut| {
        assert all[i] == column[i - |laidOut|];
      }
    }
  }

  /** The inner loop: the nodes of one column from top to bottom. */
  method PlaceColumn(f: Frame, c: int, list: seq<GraphNode>) returns (placed: seq<LaidOutNode>)
    ensures IsColumn(f, c, list, placed)
  {
    var x := Left(f, c);
    var yStart := Top(f, |list|);
    placed := [];
    for i := 0 to |list|
      invariant |placed| == i && forall j | 0 <= j < i :: placed[j] == PlaceAt(f, list[j], c, j, |list|)
    {
      placed := placed + [LaidOutNode(list[i], c, i, x, yStart + i * (NODE_HEIGHT + ROW_GAP))];
    }
  }

  lemma PlaceIs(f: Frame, columnOrder: seq<int>, lists: ColumnLists, k: nat, i: nat)
    requires IsGrouping(columnOrder, lists) && k < |columnOrder| && i < |lists[columnOrder[k]]|
    ensures var slots, j := SlotsOf(columnOrder, lists), |SlotsOf(columnOrder[..k], lists)| + i;
            j < |slots| && Place(f, slots, j) ==
            PlaceAt(f, lists[columnOrder[k]][i], columnOrder[k], i, |lists[columnOrder[k]]|)
  {
    var c, slots, done := columnOrder[k], SlotsOf(columnOrder, lists), SlotsOf(columnOrder[..k], lists);
    var list := lists[c];
    SlotsPrefix(columnOrder, lists, k);
    assert NoDuplicates(columnOrder[..k]);
    CountSlots(columnOrder[..k], lists, c);
    CountSlots(columnOrder, lists, c);
    CountBlock(list[..i], c, c);
    CountConcat(done, Block(list[..i], c), c);
    assert slots[..|done| + i] == done + Block(list[..i], c);
  }

  method KeepEdges(edges: seq<GraphEdge>, columns: map<string, int>) returns (kept: seq<GraphEdge>)
    ensures kept == KeptEdges(edges, columns.Keys)
  {
    kept := [];
    for k := 0 to |edges|
      invariant kept == KeptEdges(edges[..k], columns.Keys)
    {
      assert edges[..k + 1][..k] == edges[..k];
      if edges[k].from in columns && edges[k].to in columns {
        kept := kept + [edges[k]];
      }
    }
    assert edges[..|edges|] == edges;
  }

  // ---------- The slots of the program are a slotting ----------

  lemma {:induction false} SlotsHold(columnOrder: seq<int>, lists: ColumnLists, s: Slot)
    requires Listed(columnOrder, lists)
    ensures s in SlotsOf(columnOrder, lists) <==> s.column in columnOrder && s.node in lists[s.column]
  {
    if columnOrder != [] {
      var n := |columnOrder| - 1;
      var c := columnOrder[n];
      SlotsHold(columnOrder[..n], lists, s);
      assert columnOrder == columnOrder[..n] + [c];
      var block := Block(lists[c], c);
      if s in block {
        var i :| 0 <= i < |block| && block[i] == s;
        assert lists[c][i] == s.node;
      }
      if s.column == c && s.node in lists[c] {
        var i :| 0 <= i < |lists[c]| && lists[c][i] == s.node;
        assert block[i] == s;
      }
    }
  }

  /** Each list without repetition and in key order. */
  ghost predicate AreSorted(leq: KeyOrder, lists: ColumnLists) {
    forall c <- lists :: NoDuplicates(lists[c]) && Sorting.SortedBy(ByKey(leq), lists[c])
  }

  lemma {:induction false} SlotsInOrder(leq: KeyOrder, columnOrder: seq<int>, lists: ColumnLists)
    requires Listed(columnOrder, lists)
    requires forall i, j | 0 <= i < j < |columnOrder| :: Rank(columnOrder[i]) < Rank(columnOrder[j])
    requires AreSorted(leq, lists)
    ensures var slots := SlotsOf(columnOrder, lists);
            NoDuplicates(slots) && forall i, j | 0 <= i < j < |slots| :: Before(leq, slots[i], slots[j])
  {
    if columnOrder != [] {
      var n := |columnOrder| - 1;
      var c := columnOrder[n];
      var done, block := SlotsOf(columnOrder[..n], lists), Block(lists[c], c);
      SlotsInOrder(leq, columnOrder[..n], lists);
      forall s | s in done ensures Rank(s.column) < Rank(c) {
        SlotsHold(columnOrder[..n], lists, s);
      }
    }
  }

  lemma {:induction false} MembersAre(order: seq<string>, columns: map<string, int>,
                                      byId: map<string, GraphNode>, c: int)
    requires (forall id <- order :: id in columns && id in byId && byId[id].id == id) && NoDuplicates(order)
    ensures var m := Members(order, columns, byId, c);
            NoDuplicates(m) && forall n :: n in m <==> n.id in order && columns[n.id] == c && byId[n.id] == n
  {
    if order != [] {
      var k := |order| - 1;
      var id := order[k];
      MembersAre(order[..k], columns, byId, c);
      assert order == order[..k] + [id];
      assert id !in order[..k];
    }
  }

  lemma {:induction false} DuplicatesByCount<T>(s: seq<T>)
    ensures NoDuplicates(s) <==> forall x :: multiset(s)[x] <= 1
  {
    if s != [] {
      var n := |s| - 1;
      assert s == s[..n] + [s[n]];
      DuplicatesByCount(s[..n]);
      if NoDuplicates(s) {
        assert s[n] !in s[..n];
      } else if !NoDuplicates(s[..n]) {
        var x :| multiset(s[..n])[x] > 1;
        assert multiset(s)[x] > 1;
      } else {
        var i :| 0 <= i < n && s[i] == s[n];
        assert s[..n][i] == s[n];
        assert multiset(s)[s[n]] > 1;
      }
    }
  }

  /** A sorted list holds the same nodes as the list it was sorted from, still without repetition. */
  lemma SortKeeps(leq: KeyOrder, list: seq<GraphNode>)
    requires Sorting.TotalPreorder(ByKey(leq)) && NoDuplicates(list)
    ensures var sorted := Sorting.Sort(ByKey(leq), list);
            && NoDuplicates(sorted) && Sorting.SortedBy(ByKey(leq), sorted) && |sorted| == |list|
            && forall n :: n in sorted <==> n in list
  {
    var sorted := Sorting.Sort(ByKey(leq), list);
    Sorting.SortSorts(ByKey(leq), list);
    DuplicatesByCount(list);
    DuplicatesByCount(sorted);
    assert |multiset(sorted)| == |multiset(list)|;
    forall n ensures n in sorted <==> n in list {
      assert n in sorted <==> n in multiset(sorted);
    }
  }

  /** What grouping and sorting leave for the placement. */
  ghost predicate IsArranged(leq: KeyOrder, order: seq<string>, columns: map<string, int>, byId: map<string, GraphNode>,
                             columnOrder: seq<int>, lists: ColumnLists)
  {
    && IsGrouping(columnOrder, lists) && AreSorted(leq, lists)
    && (forall id <- order :: id in columns && id in byId && columns[id] in lists)
    && forall c, n | c in lists :: n in lists[c] <==> n.id in order && columns[n.id] == c && byId[n.id] == n
  }

  lemma SortedIsArranged(leq: KeyOrder, order: seq<string>, columns: map<string, int>, byId: map<string, GraphNode>,
                         columnOrder: seq<int>, byColumn: ColumnLists, lists: ColumnLists)
    requires Sorting.TotalPreorder(ByKey(leq)) && IsTable(order, columns, byId)
    requires byColumn == Grouped(order, columns, byId) && IsGrouping(columnOrder, byColumn)
    requires lists.Keys == byColumn.Keys && forall c <- byColumn :: lists[c] == Sorting.Sort(ByKey(leq), byColumn[c])
    ensures IsArranged(leq, order, columns, byId, columnOrder, lists)
  {
    GroupKeys(order, columns, byId);
    forall c | c in byColumn
      ensures lists[c] != [] && NoDuplicates(lists[c]) && Sorting.SortedBy(ByKey(leq), lists[c])
      ensures forall n :: n in lists[c] <==> n.id in order && columns[n.id] == c && byId[n.id] == n
    {
      MembersAre(order, columns, byId, c);
      GroupMembers(order, columns, byId, c);
      SortKeeps(leq, byColumn[c]);
    }
  }

  lemma ArrangedIsSlotting(g: Graph, leq: KeyOrder, order: seq<string>, columns: map<string, int>,
                           byId: map<string, GraphNode>, columnOrder: seq<int>, lists: ColumnLists)
    requires byId == ById(g.nodes) && IsAssignment(g, columns, order)
    requires IsArranged(leq, order, columns, byId, columnOrder, lists)
    ensures IsSlotting(g, leq, SlotsOf(columnOrder, lists))
  {
    var slots := SlotsOf(columnOrder, lists);
    SlotsInOrder(leq, columnOrder, lists);
    forall s | s in slots
      ensures s.node.id in byId && byId[s.node.id] == s.node && s.node.id in columns && columns[s.node.id] == s.column
    {
      SlotsHold(columnOrder, lists, s);
    }
    forall id | id in Assigned(g) ensures exists i | 0 <= i < |slots| :: slots[i].node.id == id {
      assert id in order;
      ArrangedHas(leq, order, columns, byId, columnOrder, lists, id);
    }
    DistinctIds(slots, columns, byId);
  }

  lemma ArrangedHas(leq: KeyOrder, order: seq<string>, columns: map<string, int>, byId: map<string, GraphNode>,
                    columnOrder: seq<int>, lists: ColumnLists, id: string)
    requires IsArranged(leq, order, columns, byId, columnOrder, lists) && id in order && byId[id].id == id
    ensures var slots := SlotsOf(columnOrder, lists); exists i | 0 <= i < |slots| :: slots[i].node.id == id
  {
    var slots := SlotsOf(columnOrder, lists);
    var s := Slot(byId[id], columns[id]);
    SlotsHold(columnOrder, lists, s);
    var i :| 0 <= i < |slots| && slots[i] == s;
  }

  lemma DistinctIds(slots: seq<Slot>, columns: map<string, int>, byId: map<string, GraphNode>)
    requires NoDuplicates(slots)
    requires forall s <- slots :: s.node.id in byId && byId[s.node.id] == s.node &&
                                  s.node.id in columns && columns[s.node.id] == s.column
    ensures forall i, j | 0 <= i < j < |slots| :: slots[i].node.id != slots[j].node.id
  {}

  lemma FrameFits(f: Frame, columnOrder: seq<int>, lists: ColumnLists)
    requires IsGrouping(columnOrder, lists)
    requires f.lo in lists && f.hi in lists && f.lo <= 0 <= f.hi && forall c <- lists :: f.lo <= c <= f.hi
    requires (exists c <- lists :: |lists[c]| == f.tallest) && forall c <- lists :: |lists[c]| <= f.tallest
    ensures Fits(f, SlotsOf(columnOrder, lists))
  {
    var slots := SlotsOf(columnOrder, lists);
    forall c ensures CountIn(slots, c) == if c in columnOrder then |lists[c]| else 0 {
      CountSlots(columnOrder, lists, c);
    }
    SlotsHold(columnOrder, lists, Slot(lists[f.lo][0], f.lo));
    SlotsHold(columnOrder, lists, Slot(lists[f.hi][0], f.hi));
    forall s | s in slots ensures f.lo <= s.column <= f.hi {
      SlotsHold(columnOrder, lists, s);
    }
    var c :| c in lists && |lists[c]| == f.tallest;
    assert CountIn(slots, c) == f.tallest;
  }

  /** Grouping, sorting and placing an assignment of columns. */
  method Arrange(g: Graph, leq: KeyOrder, byId: map<string, GraphNode>, columns: map<string, int>, order: seq<string>)
    returns (f: Frame, nodes: seq<LaidOutNode>, ghost slots: seq<Slot>)
    requires Sorting.TotalPreorder(ByKey(leq)) && g.focalId in byId
    requires byId == ById(g.nodes) && IsAssignment(g, columns, order)
    ensures IsSlotting(g, leq, slots) && Fits(f, slots)
    ensures |nodes| == |slots| && forall i | 0 <= i < |slots| :: nodes[i] == Place(f, slots, i)
  {
    AssignmentIsTable(g, columns, order);
    var columnOrder, byColumn := GroupByColumn(order, columns, byId);
    GroupedIsGrouping(order, columns, byId);
    var lists := SortColumns(leq, columnOrder, byColumn);
    SortedIsArranged(leq, order, columns, byId, columnOrder, byColumn, lists);
    f := Extents(columnOrder, lists);
    nodes := PlaceNodes(f, columnOrder, lists);
    slots := SlotsOf(columnOrder, lists);
    ArrangedIsSlotting(g, leq, order, columns, byId, columnOrder, lists);
    FrameFits(f, columnOrder, lists);
  }

  method LayoutDependencyGraph(g: Graph, leq: KeyOrder) returns (r: LaidOutGraph)
    requires Sorting.TotalPreorder(ByKey(leq))
    ensures IsLayout(g, leq, r)
  {
    var byId := BuildById(g.nodes);
    if g.focalId !in byId {
      return LaidOutGraph(g.focalId, [], g.edges, PADDING * 2, PADDING * 2);
    }
    var preds, succs := BuildAdjacency(g, byId);
    var columns, order := AssignColumns(g, preds, succs);
    var f, nodes, slots := Arrange(g, leq, byId, columns, order);
    var edges := KeepEdges(g.edges, columns);
    r := LaidOutGraph(g.focalId, nodes, edges, Width(f), Height(f));
    assert IsLayoutBy(g, leq, r, f, slots);
  }

  lemma AssignmentIsTable(g: Graph, columns: map<string, int>, order: seq<string>)
    requires g.focalId in ById(g.nodes) && IsAssignment(g, columns, order)
    ensures IsTable(order, columns, ById(g.nodes))
    ensures g.focalId in order && columns[g.focalId] == 0
  {
    AssignedAreNodes(g);
    ColumnSide(g, g.focalId, columns[g.focalId]);
  }

  lemma AssignedAreNodes(g: Graph)
    requires g.focalId in ById(g.nodes)
    ensures Assigned(g) <= ById(g.nodes).Keys
  {
    BallWithin(Links(g), g.focalId, DEPTH, ById(g.nodes).Keys);
    BallWithin(BackLinks(g), g.focalId, DEPTH, ById(g.nodes).Keys);
  }
}
