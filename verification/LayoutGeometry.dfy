/** Where the nodes of a layout stand, in drawing units: the distances between columns and rows, the
  * margins, the order of the output and what is laid out at all. */
module LayoutGeometry {
  import opened DependencyColumns
  import opened DependencyLayout
  import opened Paths

  // ---------- Coordinates ----------

  lemma Placement(g: Graph, leq: KeyOrder, r: LaidOutGraph) returns (f: Frame, slots: seq<Slot>)
    requires g.focalId in ById(g.nodes) && IsLayout(g, leq, r)
    ensures IsPlaced(r, f, slots)
  {
    f, slots := Unpack(g, leq, r);
  }

  lemma Coordinates(r: LaidOutGraph, f: Frame, slots: seq<Slot>, i: nat)
    requires IsPlaced(r, f, slots) && i < |r.nodes|
    ensures var n, size := r.nodes[i], CountIn(slots, r.nodes[i].column);
            && n.column == slots[i].column && n.row == CountIn(slots[..i], n.column)
            && n.x == 32 + 270 * (n.column - f.lo) && 2 * n.y == r.height - (80 * size - 24) + 160 * n.row
            && n.row < size <= f.tallest && f.lo <= n.column <= f.hi
    ensures r.width == 270 * (f.hi - f.lo) + 244 && r.height == 80 * f.tallest + 40
  {
    assert slots[i] in slots;
    CountPositive(slots, i);
    ColumnsAreCentred(f, CountIn(slots, slots[i].column));
  }

  /** Neighbouring columns stand 270 units apart, later ones to the right. */
  lemma ColumnsStandApart(g: Graph, leq: KeyOrder, r: LaidOutGraph, i: nat, j: nat)
    requires g.focalId in ById(g.nodes) && IsLayout(g, leq, r) && i < |r.nodes| && j < |r.nodes|
    ensures r.nodes[i].x - r.nodes[j].x == 270 * (r.nodes[i].column - r.nodes[j].column)
  {
    var f, slots := Placement(g, leq, r);
    Coordinates(r, f, slots, i);
    Coordinates(r, f, slots, j);
  }

  /** Neighbouring rows of a column stand 80 units apart, later ones below. */
  lemma RowsStandApart(g: Graph, leq: KeyOrder, r: LaidOutGraph, i: nat, j: nat)
    requires g.focalId in ById(g.nodes) && IsLayout(g, leq, r) && i < |r.nodes| && j < |r.nodes|
    requires r.nodes[i].column == r.nodes[j].column
    ensures r.nodes[i].y - r.nodes[j].y == 80 * (r.nodes[i].row - r.nodes[j].row)
  {
    var f, slots := Placement(g, leq, r);
    Coordinates(r, f, slots, i);
    Coordinates(r, f, slots, j);
  }

  lemma OuterColumns(r: LaidOutGraph, f: Frame, slots: seq<Slot>) returns (i: nat, j: nat)
    requires IsPlaced(r, f, slots)
    ensures i < |r.nodes| && r.nodes[i].x == 32 && j < |r.nodes| && r.nodes[j].x + 180 == r.width - 32
  {
    i :| i < |slots| && slots[i].column == f.lo;
    j :| j < |slots| && slots[j].column == f.hi;
    Coordinates(r, f, slots, i);
    Coordinates(r, f, slots, j);
  }

  lemma {:induction false} FirstOfColumn(slots: seq<Slot>, c: int) returns (i: nat)
    requires CountIn(slots, c) > 0
    ensures i < |slots| && slots[i].column == c && CountIn(slots[..i], c) == 0
  {
    var n := |slots| - 1;
    if CountIn(slots[..n], c) > 0 {
      i := FirstOfColumn(slots[..n], c);
      assert slots[..n][..i] == slots[..i];
    } else {
      i := n;
    }
  }

  lemma {:induction false} LastOfColumn(slots: seq<Slot>, c: int) returns (i: nat)
    requires CountIn(slots, c) > 0
    ensures i < |slots| && slots[i].column == c && CountIn(slots[..i], c) == CountIn(slots, c) - 1
  {
    var n := |slots| - 1;
    if slots[n].column != c {
      i := LastOfColumn(slots[..n], c);
      assert slots[..n][..i] == slots[..i];
    } else {
      i := n;
    }
  }

  lemma TallestColumn(r: LaidOutGraph, f: Frame, slots: seq<Slot>) returns (i: nat, j: nat)
    requires IsPlaced(r, f, slots)
    ensures i < |r.nodes| && r.nodes[i].y == 32 && j < |r.nodes| && r.nodes[j].y + 56 == r.height - 32
  {
    var k :| 0 <= k < |slots| && slots[k].column == f.lo;
    Coordinates(r, f, slots, k);
    var c :| CountIn(slots, c) == f.tallest;
    i := FirstOfColumn(slots, c);
    j := LastOfColumn(slots, c);
    Coordinates(r, f, slots, i);
    Coordinates(r, f, slots, j);
  }

  /** The drawing is as large as it has to be: on each of the four sides some rectangle stands exactly 32
    * units away from the edge, and none stands nearer. */
  lemma MarginsAreExact(g: Graph, leq: KeyOrder, r: LaidOutGraph) returns (left: nat, right: nat, top: nat, bottom: nat)
    requires g.focalId in ById(g.nodes) && IsLayout(g, leq, r)
    ensures left < |r.nodes| && r.nodes[left].x == 32
    ensures right < |r.nodes| && r.nodes[right].x + 180 + 32 == r.width
    ensures top < |r.nodes| && r.nodes[top].y == 32
    ensures bottom < |r.nodes| && r.nodes[bottom].y + 56 + 32 == r.height
    ensures forall i | 0 <= i < |r.nodes| :: Inside(r, r.nodes[i])
  {
    var f, slots := Placement(g, leq, r);
    left, right := OuterColumns(r, f, slots);
    top, bottom := TallestColumn(r, f, slots);
    forall i | 0 <= i < |r.nodes| ensures Inside(r, r.nodes[i]) {
      Coordinates(r, f, slots, i);
    }
  }

  ghost predicate Inside(r: LaidOutGraph, n: LaidOutNode) {
    32 <= n.x && n.x + 180 + 32 <= r.width && 32 <= n.y && n.y + 56 + 32 <= r.height
  }

  lemma AllCounted(slots: seq<Slot>, i: nat, j: nat, c: int)
    requires i <= j < |slots| && slots[j].column == c
    requires forall k | 0 <= k < i || j < k < |slots| :: slots[k].column != c
    ensures CountIn(slots[..i], c) == 0 && CountIn(slots[..j], c) == CountIn(slots, c) - 1
  {
    NoneCounted(slots[..i], c);
    NoneCounted(slots[j + 1..], c);
    assert slots == slots[..j + 1] + slots[j + 1..];
    CountConcat(slots[..j + 1], slots[j + 1..], c);
    assert slots[..j + 1][..j] == slots[..j];
  }

  lemma PlacedCentred(r: LaidOutGraph, f: Frame, slots: seq<Slot>, i: nat, j: nat, c: int)
    requires IsPlaced(r, f, slots) && i <= j < |r.nodes|
    requires r.nodes[i].column == c && r.nodes[j].column == c
    requires forall k | 0 <= k < i || j < k < |r.nodes| :: r.nodes[k].column != c
    ensures r.nodes[i].y == r.height - (r.nodes[j].y + 56)
  {
    Coordinates(r, f, slots, i);
    Coordinates(r, f, slots, j);
    forall k | 0 <= k < i || j < k < |slots| ensures slots[k].column != c {
      assert r.nodes[k] == Place(f, slots, k);
    }
    AllCounted(slots, i, j, c);
  }

  /** The top and the bottom node of a column are equally far from the edges. */
  lemma ColumnIsCentred(g: Graph, leq: KeyOrder, r: LaidOutGraph, i: nat, j: nat, c: int)
    requires g.focalId in ById(g.nodes) && IsLayout(g, leq, r) && i <= j < |r.nodes|
    requires r.nodes[i].column == c && r.nodes[j].column == c
    requires forall k | 0 <= k < i || j < k < |r.nodes| :: r.nodes[k].column != c
    ensures r.nodes[i].y == r.height - (r.nodes[j].y + 56)
  {
    var f, slots := Placement(g, leq, r);
    PlacedCentred(r, f, slots, i, j, c);
  }

  lemma {:induction false} NoneCounted(slots: seq<Slot>, c: int)
    ensures (forall k | 0 <= k < |slots| :: slots[k].column != c) <==> CountIn(slots, c) == 0
  {
    if slots != [] {
      var n := |slots| - 1;
      NoneCounted(slots[..n], c);
      if forall k | 0 <= k < n :: slots[..n][k].column != c {
        assert forall k | 0 <= k < n :: slots[k].column == slots[..n][k].column;
      } else {
        var k :| 0 <= k < n && slots[..n][k].column == c;
        assert slots[k].column == c;
      }
    }
  }

  lemma PlacedBelow(r: LaidOutGraph, f: Frame, slots: seq<Slot>, k: nat, i: nat)
    requires IsPlaced(r, f, slots) && k < i < |r.nodes| && r.nodes[k].column == r.nodes[i].column
    ensures r.nodes[k].row < r.nodes[i].row
  {
    Coordinates(r, f, slots, i);
    Coordinates(r, f, slots, k);
    assert slots[..i][..k] == slots[..k];
    CountPositive(slots[..i], k);
  }

  lemma PlacedAbove(r: LaidOutGraph, f: Frame, slots: seq<Slot>, i: nat) returns (k: nat)
    requires IsPlaced(r, f, slots) && i < |r.nodes| && r.nodes[i].row > 0
    ensures k < i && r.nodes[k].column == r.nodes[i].column && r.nodes[k].row == r.nodes[i].row - 1
  {
    Coordinates(r, f, slots, i);
    k := LastOfColumn(slots[..i], slots[i].column);
    Coordinates(r, f, slots, k);
    assert slots[..i][..k] == slots[..k];
  }

  ghost predicate HasRowAbove(r: LaidOutGraph, i: nat)
    requires i < |r.nodes|
  {
    exists k | 0 <= k < i :: r.nodes[k].column == r.nodes[i].column && r.nodes[k].row == r.nodes[i].row - 1
  }

  /** The rows of a column are numbered from 0 without a gap, in the order of the output. */
  lemma RowsAreNumbered(g: Graph, leq: KeyOrder, r: LaidOutGraph, i: nat)
    requires g.focalId in ById(g.nodes) && IsLayout(g, leq, r) && i < |r.nodes|
    ensures forall k | 0 <= k < i && r.nodes[k].column == r.nodes[i].column :: r.nodes[k].row < r.nodes[i].row
    ensures r.nodes[i].row > 0 ==> HasRowAbove(r, i)
  {
    var f, slots := Placement(g, leq, r);
    forall k | 0 <= k < i && r.nodes[k].column == r.nodes[i].column ensures r.nodes[k].row < r.nodes[i].row {
      PlacedBelow(r, f, slots, k, i);
    }
    if r.nodes[i].row > 0 {
      var k := PlacedAbove(r, f, slots, i);
    }
  }

  // ---------- The order of the output ----------

  /** Columns come as 0, 1, 2, ... and then -1, -2, ... */
  ghost predicate ComesFirst(a: int, b: int) {
    0 <= a < b || (a >= 0 && b < 0) || b < a < 0
  }

  /** The focal node comes first; the columns follow each other outwards, the right side before the left;
    * in one column the keys rise, and with them the nodes go down. */
  lemma OutputIsOrdered(g: Graph, leq: KeyOrder, r: LaidOutGraph, i: nat, j: nat)
    requires g.focalId in ById(g.nodes) && IsLayout(g, leq, r) && i < j < |r.nodes|
    ensures r.nodes[0].node.id == g.focalId && r.nodes[0].column == 0
    ensures var a, b := r.nodes[i], r.nodes[j];
            ComesFirst(a.column, b.column) || (a.column == b.column && leq(a.node.key, b.node.key) && a.y + 80 <= b.y)
  {
    FocalComesFirst(g, leq, r);
    OrderedPair(g, leq, r, i, j);
    if r.nodes[i].column == r.nodes[j].column {
      RowsAreNumbered(g, leq, r, j);
      RowsStandApart(g, leq, r, i, j);
    }
  }

  lemma OrderedSlots(g: Graph, leq: KeyOrder, slots: seq<Slot>, i: nat, j: nat)
    requires IsSlotting(g, leq, slots) && i < j < |slots|
    ensures Before(leq, slots[i], slots[j]) && -4 <= slots[i].column <= 4 && -4 <= slots[j].column <= 4
  {
    assert slots[i] in slots && slots[j] in slots;
    ColumnIsNear(g, slots[i].node.id, slots[i].column);
    ColumnIsNear(g, slots[j].node.id, slots[j].column);
  }

  lemma BeforeComesFirst(leq: KeyOrder, a: Slot, b: Slot)
    requires Before(leq, a, b) && -4 <= a.column <= 4 && -4 <= b.column <= 4
    ensures ComesFirst(a.column, b.column) || (a.column == b.column && leq(a.node.key, b.node.key))
  {}

  lemma OrderedPair(g: Graph, leq: KeyOrder, r: LaidOutGraph, i: nat, j: nat)
    requires g.focalId in ById(g.nodes) && IsLayout(g, leq, r) && i < j < |r.nodes|
    ensures var a, b := r.nodes[i], r.nodes[j];
            ComesFirst(a.column, b.column) || (a.column == b.column && leq(a.node.key, b.node.key))
  {
    var slots := UnpackSlots(g, leq, r);
    OrderedSlots(g, leq, slots, i, j);
    BeforeComesFirst(leq, slots[i], slots[j]);
  }

  lemma ColumnIsNear(g: Graph, id: string, c: int)
    requires InColumn(g, id, c)
    ensures -4 <= c <= 4
  {}

  lemma FocalIsLaidOut(g: Graph, leq: KeyOrder, r: LaidOutGraph) returns (i: nat)
    requires g.focalId in ById(g.nodes) && IsLayout(g, leq, r)
    ensures i < |r.nodes| && r.nodes[i].node.id == g.focalId && r.nodes[i].column == 0
  {
    LaidOutOnce(g, leq, r, g.focalId);
    i :| i < |r.nodes| && r.nodes[i].node.id == g.focalId;
    LaidOutData(g, leq, r, i);
    ColumnSide(g, g.focalId, r.nodes[i].column);
  }

  lemma FocalComesFirst(g: Graph, leq: KeyOrder, r: LaidOutGraph)
    requires g.focalId in ById(g.nodes) && IsLayout(g, leq, r)
    ensures |r.nodes| > 0 && r.nodes[0].node.id == g.focalId && r.nodes[0].column == 0
  {
    var i := FocalIsLaidOut(g, leq, r);
    LaidOutData(g, leq, r, 0);
    ColumnSide(g, r.nodes[0].node.id, r.nodes[0].column);
    if i > 0 {
      OrderedPair(g, leq, r, 0, i);
    }
  }

  // ---------- What is laid out ----------

  /** A link goes from `x` to `y` exactly when an edge does and both are in the table, and behind it the
    * other way round. */
  lemma LinksAreEdges(g: Graph, x: string, y: string)
    ensures (x, y) in Links(g) <==>
            (exists e <- g.edges :: e.from == x && e.to == y) &&
            (exists n <- g.nodes :: n.id == x) && (exists n <- g.nodes :: n.id == y)
    ensures (y, x) in LinksBehind(g) <==> (x, y) in Links(g) && !IsAhead(g, x)
  {
    assert (x, y) in Links(g) ==> exists e <- g.edges :: (e.from, e.to) == (x, y);
    assert (y, x) in Reversed(Links(g)) <==> (x, y) in Links(g);
  }

  /** Without the focal node nothing is drawn but the margins, and every edge is handed on. */
  lemma MissingFocalIsEmpty(g: Graph, leq: KeyOrder, r: LaidOutGraph)
    requires IsLayout(g, leq, r) && forall n <- g.nodes :: n.id != g.focalId
    ensures r == LaidOutGraph(g.focalId, [], g.edges, 64, 64)
  {}

  /** Within four links of the focal node, along the links of the edges. */
  ghost predicate IsAhead(g: Graph, id: string) {
    id == g.focalId || exists d: nat | 1 <= d <= 4 :: Distance(Links(g), g.focalId, id, d)
  }

  /** Links against the edges that enter no node ahead. */
  ghost function LinksBehind(g: Graph): set<Link> {
    set l | l in Reversed(Links(g)) && !IsAhead(g, l.1)
  }

  ghost predicate IsBehind(g: Graph, id: string) {
    !IsAhead(g, id) && exists d: nat | 1 <= d <= 4 :: Distance(LinksBehind(g), g.focalId, id, d)
  }

  lemma {:induction false} BallIsShells(links: set<Link>, from: string, n: nat, x: string)
    ensures x in Ball(links, from, n) <==> x == from || exists d: nat | 1 <= d <= n :: x in Shell(links, from, d)
  {
    if n > 0 {
      BallIsShells(links, from, n - 1, x);
      if x in Ball(links, from, n) && x !in Ball(links, from, n - 1) {
        assert x in Shell(links, from, n);
      }
      if d: nat :| 1 <= d <= n && x in Shell(links, from, d) {
        BallGrows(links, from, d, n);
      }
    }
  }

  lemma BallIsDistance(links: set<Link>, from: string, n: nat, x: string)
    ensures x in Ball(links, from, n) <==> x == from || exists d: nat | 1 <= d <= n :: Distance(links, from, x, d)
  {
    BallIsShells(links, from, n, x);
    forall d: nat | 1 <= d <= n ensures x in Shell(links, from, d) <==> Distance(links, from, x, d) {
      ShellIsDistance(links, from, d, x);
    }
  }

  lemma ForwardIsAhead(g: Graph, id: string)
    ensures id in Forward(g) <==> IsAhead(g, id)
  {
    BallIsDistance(Links(g), g.focalId, 4, id);
  }

  lemma BackLinksAreBehind(g: Graph)
    ensures BackLinks(g) == LinksBehind(g)
  {
    forall l | l in Reversed(Links(g)) ensures l in BackLinks(g) <==> l in LinksBehind(g) {
      ForwardIsAhead(g, l.1);
    }
  }

  /** Laid out are the nodes ahead and the nodes behind, and no others. */
  lemma LaidOutIsNear(g: Graph, leq: KeyOrder, r: LaidOutGraph, id: string)
    requires g.focalId in ById(g.nodes) && IsLayout(g, leq, r)
    ensures IsLaidOut(r, id) <==> IsAhead(g, id) || IsBehind(g, id)
  {
    LaidOutOnce(g, leq, r, id);
    ForwardIsAhead(g, id);
    BackLinksAreBehind(g);
    BallIsDistance(BackLinks(g), g.focalId, 4, id);
  }

  /** A column number is a distance, counted negatively behind. */
  lemma ColumnIsDistance(g: Graph, leq: KeyOrder, r: LaidOutGraph, i: nat)
    requires g.focalId in ById(g.nodes) && IsLayout(g, leq, r) && i < |r.nodes|
    ensures var id, c := r.nodes[i].node.id, r.nodes[i].column;
            && -4 <= c <= 4 && (c == 0 <==> id == g.focalId)
            && (c > 0 ==> Distance(Links(g), g.focalId, id, c))
            && (c < 0 ==> !IsAhead(g, id) && Distance(LinksBehind(g), g.focalId, id, -c))
  {
    var id, c := r.nodes[i].node.id, r.nodes[i].column;
    LaidOutData(g, leq, r, i);
    ColumnSide(g, id, c);
    ForwardIsAhead(g, id);
    BackLinksAreBehind(g);
    if c > 0 {
      ForwardColumnIsDistance(g, id, c);
    } else if c < 0 {
      BackwardColumnIsDistance(g, id, -c);
    }
  }

  ghost predicate IsLastOfId(nodes: seq<GraphNode>, k: nat) {
    k < |nodes| && forall j | k < j < |nodes| :: nodes[j].id != nodes[k].id
  }

  lemma LastOfIdInPrefix(nodes: seq<GraphNode>, k: nat)
    requires IsLastOfId(nodes, k) && k < |nodes| - 1
    ensures IsLastOfId(nodes[..|nodes| - 1], k) && nodes[|nodes| - 1].id != nodes[k].id
  {}

  /** The node of an id is the last one in the list that has it. */
  lemma {:induction false} LastOfIdCounts(nodes: seq<GraphNode>, k: nat, byId: map<string, GraphNode>)
    requires IsLastOfId(nodes, k) && byId == ById(nodes)
    ensures nodes[k].id in byId && byId[nodes[k].id] == nodes[k]
  {
    if k < |nodes| - 1 {
      var init := nodes[..|nodes| - 1];
      LastOfIdInPrefix(nodes, k);
      LastOfIdCounts(init, k, ById(init));
    }
  }

  lemma OneLinkAway(links: set<Link>, from: string, to: string)
    requires (from, to) in links && from != to
    ensures Distance(links, from, to, 1)
  {
    assert PathBetween(links, from, to, [from, to]);
  }

  lemma StandsInColumn(g: Graph, leq: KeyOrder, r: LaidOutGraph, i: nat, c: int)
    requires g.focalId in ById(g.nodes) && IsLayout(g, leq, r) && i < |r.nodes|
    requires InColumn(g, r.nodes[i].node.id, c)
    ensures r.nodes[i].column == c && r.nodes[i].x == r.nodes[0].x + 270 * c
  {
    LaidOutData(g, leq, r, i);
    ColumnIsUnique(g, r.nodes[i].node.id, c, r.nodes[i].column);
    FocalComesFirst(g, leq, r);
    ColumnsStandApart(g, leq, r, i, 0);
  }

  /** The node at the end of an edge from the focal node stands in the column to its right. */
  lemma SuccessorStandsRight(g: Graph, leq: KeyOrder, r: LaidOutGraph, e: GraphEdge, i: nat)
    requires g.focalId in ById(g.nodes) && IsLayout(g, leq, r) && i < |r.nodes|
    requires e in g.edges && e.from == g.focalId && e.to in ById(g.nodes) && e.to != g.focalId
    requires r.nodes[i].node.id == e.to
    ensures r.nodes[i].column == 1 && r.nodes[i].x == r.nodes[0].x + 270
  {
    EdgeIsLink(g, e);
    OneLinkAway(Links(g), g.focalId, e.to);
    ForwardColumnIsDistance(g, e.to, 1);
    StandsInColumn(g, leq, r, i, 1);
  }

  lemma EdgeIsLink(g: Graph, e: GraphEdge)
    requires e in g.edges && e.from in ById(g.nodes) && e.to in ById(g.nodes)
    ensures (e.from, e.to) in Links(g) && (e.to, e.from) in Reversed(Links(g))
  {
    assert (e.from, e.to) in Links(g);
  }

  lemma LinkIsBehind(g: Graph, e: GraphEdge)
    requires e in g.edges && e.from in ById(g.nodes) && e.to in ById(g.nodes) && !IsAhead(g, e.from)
    ensures (e.to, e.from) in BackLinks(g) && e.from !in Forward(g)
  {
    EdgeIsLink(g, e);
    ForwardIsAhead(g, e.from);
  }

  /** The node at the start of an edge to the focal node stands in the column to its left, unless it is
    * ahead too. */
  lemma PredecessorStandsLeft(g: Graph, leq: KeyOrder, r: LaidOutGraph, e: GraphEdge, i: nat)
    requires g.focalId in ById(g.nodes) && IsLayout(g, leq, r) && i < |r.nodes|
    requires e in g.edges && e.to == g.focalId && e.from in ById(g.nodes) && !IsAhead(g, e.from)
    requires r.nodes[i].node.id == e.from
    ensures r.nodes[i].column == -1 && r.nodes[i].x == r.nodes[0].x - 270
  {
    LinkIsBehind(g, e);
    OneLinkAway(BackLinks(g), g.focalId, e.from);
    BackwardColumnIsDistance(g, e.from, 1);
    StandsInColumn(g, leq, r, i, -1);
  }

  // ---------- An example ----------

  /** A focal node and one successor. */
  function TwoNodes(a: GraphNode, b: GraphNode, kind: EdgeKind): Graph {
    Graph(a.id, [a, b], [GraphEdge(a.id, b.id, kind)])
  }

  lemma TwoNodesById(a: GraphNode, b: GraphNode)
    requires a.id != b.id
    ensures var byId := ById([a, b]); byId.Keys == {a.id, b.id} && byId[a.id] == a && byId[b.id] == b
  {
    assert [a, b][..1] == [a] && [a][..0] == [];
  }

  lemma SuccessorIsLaidOut(g: Graph, leq: KeyOrder, r: LaidOutGraph, e: GraphEdge) returns (i: nat)
    requires g.focalId in ById(g.nodes) && IsLayout(g, leq, r)
    requires e in g.edges && e.from == g.focalId && e.to in ById(g.nodes) && e.to != g.focalId
    ensures i < |r.nodes| && r.nodes[i].node.id == e.to
  {
    EdgeIsLink(g, e);
    OneLinkAway(Links(g), g.focalId, e.to);
    assert IsAhead(g, e.to);
    LaidOutIsNear(g, leq, r, e.to);
    i :| i < |r.nodes| && r.nodes[i].node.id == e.to;
  }

  ghost predicate DistinctAmong(nodes: seq<LaidOutNode>, ids: set<string>) {
    && (forall i | 0 <= i < |nodes| :: nodes[i].node.id in ids)
    && forall i, j | 0 <= i < j < |nodes| :: nodes[i].node.id != nodes[j].node.id
  }

  lemma LaidOutFromTable(g: Graph, leq: KeyOrder, r: LaidOutGraph)
    requires g.focalId in ById(g.nodes) && IsLayout(g, leq, r)
    ensures DistinctAmong(r.nodes, ById(g.nodes).Keys)
  {
    forall i | 0 <= i < |r.nodes| ensures r.nodes[i].node.id in ById(g.nodes) {
      LaidOutData(g, leq, r, i);
    }
    forall i, j | 0 <= i < j < |r.nodes| ensures r.nodes[i].node.id != r.nodes[j].node.id {
      LaidOutOnce(g, leq, r, r.nodes[i].node.id);
    }
  }

  lemma TwoOfTwo(nodes: seq<LaidOutNode>, a: string, b: string, i: nat)
    requires DistinctAmong(nodes, {a, b}) && a != b
    requires i < |nodes| && nodes[0].node.id == a && nodes[i].node.id == b
    ensures |nodes| == 2 && i == 1
  {
    forall k | 1 <= k < |nodes| ensures nodes[k].node.id == b && k == i {
      assert nodes[0].node.id != nodes[k].node.id;
    }
    assert nodes[1].node.id == b && nodes[|nodes| - 1].node.id == b;
  }

  lemma TwoAreLaidOut(g: Graph, leq: KeyOrder, r: LaidOutGraph, e: GraphEdge)
    requires g.focalId in ById(g.nodes) && IsLayout(g, leq, r)
    requires e in g.edges && e.from == g.focalId != e.to && ById(g.nodes).Keys == {e.from, e.to}
    ensures |r.nodes| == 2 && r.nodes[0].node.id == e.from && r.nodes[1].node.id == e.to
    ensures r.nodes[0].column == 0 && r.nodes[1].column == 1
  {
    FocalComesFirst(g, leq, r);
    var i := SuccessorIsLaidOut(g, leq, r, e);
    SuccessorStandsRight(g, leq, r, e, i);
    LaidOutFromTable(g, leq, r);
    TwoOfTwo(r.nodes, e.from, e.to, i);
  }

  lemma AloneInColumn(r: LaidOutGraph, f: Frame, slots: seq<Slot>, i: nat)
    requires IsPlaced(r, f, slots) && i < |r.nodes|
    requires forall k | 0 <= k < |r.nodes| && k != i :: r.nodes[k].column != r.nodes[i].column
    ensures r.nodes[i].row == 0 && r.nodes[i].y == r.height - (r.nodes[i].y + 56)
  {
    PlacedCentred(r, f, slots, i, i, r.nodes[i].column);
    if r.nodes[i].row > 0 {
      var k := PlacedAbove(r, f, slots, i);
    }
  }

  lemma TwoStand(r: LaidOutGraph, f: Frame, slots: seq<Slot>)
    requires IsPlaced(r, f, slots) && |r.nodes| == 2 && r.nodes[0].column == 0 && r.nodes[1].column == 1
    ensures r.nodes[0].row == 0 && r.nodes[1].row == 0
    ensures r.nodes[0].y == r.height - (r.nodes[0].y + 56) && r.nodes[1].y == r.height - (r.nodes[1].y + 56)
  {
    AloneInColumn(r, f, slots, 0);
    AloneInColumn(r, f, slots, 1);
  }

  lemma TwoAreDrawn(g: Graph, leq: KeyOrder, r: LaidOutGraph, a: GraphNode, b: GraphNode)
    requires g.focalId in ById(g.nodes) && IsLayout(g, leq, r)
    requires |r.nodes| == 2 && r.nodes[0].node == a && r.nodes[1].node == b
    requires r.nodes[0].column == 0 && r.nodes[1].column == 1
    ensures r.nodes == [LaidOutNode(a, 0, 0, 32, 32), LaidOutNode(b, 1, 0, 302, 32)]
    ensures r.width == 514 && r.height == 120
  {
    ColumnsStandApart(g, leq, r, 1, 0);
    var f, slots := Placement(g, leq, r);
    TwoStand(r, f, slots);
    var left, right, top, bottom := MarginsAreExact(g, leq, r);
    OnlyTwo(r, left, right, top, bottom, a, b);
  }

  /** Two nodes and an edge between them: the focal one stands on the left, the other one beside it. */
  lemma TwoNodesAreDrawn(a: GraphNode, b: GraphNode, kind: EdgeKind, leq: KeyOrder, r: LaidOutGraph)
    requires a.id != b.id && IsLayout(TwoNodes(a, b, kind), leq, r)
    ensures r.nodes == [LaidOutNode(a, 0, 0, 32, 32), LaidOutNode(b, 1, 0, 302, 32)]
    ensures r.width == 514 && r.height == 120
  {
    var g := TwoNodes(a, b, kind);
    TwoNodesById(a, b);
    TwoAreLaidOut(g, leq, r, g.edges[0]);
    LaidOutData(g, leq, r, 0);
    LaidOutData(g, leq, r, 1);
    TwoAreDrawn(g, leq, r, a, b);
  }

  lemma OnlyTwo(r: LaidOutGraph, left: nat, right: nat, top: nat, bottom: nat, a: GraphNode, b: GraphNode)
    requires |r.nodes| == 2 && left < 2 && right < 2 && top < 2 && bottom < 2
    requires r.nodes[0].node == a && r.nodes[0].column == 0 && r.nodes[0].row == 0
    requires r.nodes[1].node == b && r.nodes[1].column == 1 && r.nodes[1].row == 0
    requires r.nodes[1].x - r.nodes[0].x == 270 && forall i | 0 <= i < 2 :: Inside(r, r.nodes[i])
    requires r.nodes[0].y == r.height - (r.nodes[0].y + 56) && r.nodes[1].y == r.height - (r.nodes[1].y + 56)
    requires r.nodes[left].x == 32 && r.nodes[right].x + 180 + 32 == r.width
    requires r.nodes[top].y == 32 && r.nodes[bottom].y + 56 + 32 == r.height
    ensures r.nodes == [LaidOutNode(a, 0, 0, 32, 32), LaidOutNode(b, 1, 0, 302, 32)]
    ensures r.width == 514 && r.height == 120
  {}
}
