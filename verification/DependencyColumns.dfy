/** Columns of the dependency graph: adjacency, the two bounded breadth-first passes, and the meaning
  * of the column they assign. */
module DependencyColumns {
  import opened Paths

  datatype GraphNode = GraphNode(id: string, key: string, title: string, status: string, projectId: string)
  datatype EdgeKind = Blocks | Related | Duplicate
  datatype GraphEdge = GraphEdge(from: string, to: string, kind: EdgeKind)
  datatype Graph = Graph(focalId: string, nodes: seq<GraphNode>, edges: seq<GraphEdge>)

  /** How far the search goes in each direction. */
  const DEPTH: nat := 4

  /** The node of each id; a later node replaces an earlier one of the same id. */
  function ById(nodes: seq<GraphNode>): (m: map<string, GraphNode>)
    ensures forall id <- m :: m[id].id == id && m[id] in nodes
    ensures forall n <- nodes :: n.id in m
  {
    if nodes == [] then map[]
    else
      var last := nodes[|nodes| - 1];
      ById(nodes[..|nodes| - 1])[last.id := last]
  }

  /** Edges between nodes of the graph, without their kind. */
  ghost function Links(g: Graph): set<Link> {
    LinksAmong(ById(g.nodes).Keys, g.edges)
  }

  ghost function LinksAmong(ids: set<string>, edges: seq<GraphEdge>): set<Link> {
    set e | e in edges && e.from in ids && e.to in ids :: (e.from, e.to)
  }

  ghost function Reversed(links: set<Link>): set<Link> {
    set l | l in links :: (l.1, l.0)
  }

  /** The focal node and everything reached forward from it. */
  ghost function Forward(g: Graph): set<string> {
    Ball(Links(g), g.focalId, DEPTH)
  }

  /** Predecessor links, kept out of the nodes that already lie forward. */
  ghost function BackLinks(g: Graph): set<Link> {
    Avoiding(Reversed(Links(g)), Forward(g))
  }

  ghost function Assigned(g: Graph): set<string> {
    Forward(g) + Ball(BackLinks(g), g.focalId, DEPTH)
  }

  /** Positive columns hold the forward shells, negative columns the backward shells. */
  ghost predicate InColumn(g: Graph, id: string, column: int) {
    && Steps(column) <= DEPTH
    && if column == 0 then id == g.focalId
       else if column > 0 then id in Shell(Links(g), g.focalId, column)
       else id in Shell(BackLinks(g), g.focalId, -column)
  }

  // ---------- Adjacency ----------

  type Adjacency = map<string, seq<string>>

  ghost predicate Adjacent(adj: Adjacency, x: string, y: string) {
    x in adj && y in adj[x]
  }

  ghost predicate Describes(adj: Adjacency, links: set<Link>) {
    forall x, y :: Adjacent(adj, x, y) <==> (x, y) in links
  }

  /** Adds to a set that keeps insertion order. */
  function AddTo(s: seq<string>, x: string): (r: seq<string>)
    ensures forall y :: y in r <==> y in s || y == x
  {
    if x in s then s else s + [x]
  }

  method BuildById(nodes: seq<GraphNode>) returns (byId: map<string, GraphNode>)
    ensures byId == ById(nodes)
  {
    byId := map[];
    for k := 0 to |nodes|
      invariant byId == ById(nodes[..k])
    {
      byId := byId[nodes[k].id := nodes[k]];
      assert nodes[..k + 1][..k] == nodes[..k];
    }
    assert nodes[..|nodes|] == nodes;
  }

  lemma AddLink(adj: Adjacency, links: set<Link>, x: string, y: string)
    requires Describes(adj, links) && x in adj
    ensures Describes(adj[x := AddTo(adj[x], y)], links + {(x, y)})
  {}

  lemma LinksAmongStep(ids: set<string>, edges: seq<GraphEdge>, e: GraphEdge)
    ensures LinksAmong(ids, edges + [e]) ==
            LinksAmong(ids, edges) + if e.from in ids && e.to in ids then {(e.from, e.to)} else {}
    ensures var links := LinksAmong(ids, edges);
            Reversed(links + {(e.from, e.to)}) == Reversed(links) + {(e.to, e.from)}
  {}

  method EmptyAdjacency(nodes: seq<GraphNode>) returns (adj: Adjacency)
    ensures adj.Keys == ById(nodes).Keys && Describes(adj, {})
  {
    adj := map[];
    for k := 0 to |nodes|
      invariant adj.Keys == ById(nodes[..k]).Keys && forall x <- adj :: adj[x] == []
    {
      adj := adj[nodes[k].id := []];
      assert nodes[..k + 1][..k] == nodes[..k];
    }
    assert nodes[..|nodes|] == nodes;
  }

  method BuildAdjacency(g: Graph, byId: map<string, GraphNode>) returns (preds: Adjacency, succs: Adjacency)
    requires byId == ById(g.nodes)
    ensures Describes(succs, Links(g)) && Describes(preds, Reversed(Links(g)))
  {
    preds := EmptyAdjacency(g.nodes);
    succs := EmptyAdjacency(g.nodes);
    ghost var links: set<Link> := {};
    for k := 0 to |g.edges|
      invariant preds.Keys == succs.Keys == byId.Keys
      invariant links == LinksAmong(byId.Keys, g.edges[..k])
      invariant Describes(succs, links) && Describes(preds, Reversed(links))
    {
      var e := g.edges[k];
      assert g.edges[..k + 1] == g.edges[..k] + [e];
      LinksAmongStep(byId.Keys, g.edges[..k], e);
      if e.from !in byId || e.to !in byId {
        continue;
      }
      AddLink(succs, links, e.from, e.to);
      AddLink(preds, Reversed(links), e.to, e.from);
      succs := succs[e.from := AddTo(succs[e.from], e.to)];
      preds := preds[e.to := AddTo(preds[e.to], e.from)];
      links := links + {(e.from, e.to)};
    }
    assert g.edges[..|g.edges|] == g.edges;
  }

  // ---------- Breadth-first passes ----------

  ghost predicate NoDuplicates<T>(s: seq<T>) {
    forall i, j | 0 <= i < j < |s| :: s[i] != s[j]
  }

  lemma NoDuplicatesConcat<T>(a: seq<T>, b: seq<T>)
    requires NoDuplicates(a) && NoDuplicates(b) && forall x <- b :: x !in a
    ensures NoDuplicates(a + b)
  {
    forall i, j | 0 <= i < j < |a + b| ensures (a + b)[i] != (a + b)[j] {
      if i < |a| <= j {
        assert (a + b)[i] in a && (a + b)[j] in b;
      }
    }
  }

  ghost predicate FoundFrom(adj: Adjacency, columns: map<string, int>, frontier: seq<string>, n: nat, y: string)
    requires n <= |frontier|
  {
    y !in columns && exists k | 0 <= k < n :: Adjacent(adj, frontier[k], y)
  }

  /** The column map with all of `s` put into one column. */
  ghost function Enter(columns: map<string, int>, s: seq<string>, column: int): map<string, int> {
    columns + map y | y in s :: column
  }

  lemma EnterConcat(columns: map<string, int>, a: seq<string>, b: seq<string>, column: int)
    ensures Enter(Enter(columns, a, column), b, column) == Enter(columns, a + b, column)
  {}

  lemma EnterOne(columns: map<string, int>, s: seq<string>, t: string, column: int)
    ensures Enter(columns, s, column)[t := column] == Enter(columns, s + [t], column)
  {}

  /** The innermost loop: the unassigned targets enter `column`. */
  method Visit(targets: seq<string>, column: int, before: map<string, int>)
    returns (columns: map<string, int>, found: seq<string>)
    ensures NoDuplicates(found) && forall y :: y in found <==> y !in before && y in targets
    ensures columns == Enter(before, found, column)
  {
    columns, found := before, [];
    for m := 0 to |targets|
      invariant NoDuplicates(found) && forall y :: y in found <==> y !in before && y in targets[..m]
      invariant columns == Enter(before, found, column)
    {
      var t := targets[m];
      assert targets[..m + 1] == targets[..m] + [t];
      if t in columns {
        continue;
      }
      EnterOne(before, found, t, column);
      NoDuplicatesConcat(found, [t]);
      columns := columns[t := column];
      found := found + [t];
    }
    assert targets[..|targets|] == targets;
  }

  lemma ExpandStep(adj: Adjacency, before: map<string, int>, frontier: seq<string>, k: nat,
                   next: seq<string>, found: seq<string>)
    requires k < |frontier| && frontier[k] in adj
    requires forall y :: y in next <==> FoundFrom(adj, before, frontier, k, y)
    requires forall y :: y in found <==> y !in before && y !in next && y in adj[frontier[k]]
    ensures forall y :: y in next + found <==> FoundFrom(adj, before, frontier, k + 1, y)
  {}

  /** One depth of a pass: every unassigned neighbour of the frontier enters `column`. */
  method Expand(adj: Adjacency, frontier: seq<string>, column: int, before: map<string, int>)
    returns (columns: map<string, int>, next: seq<string>)
    ensures NoDuplicates(next)
    ensures forall y :: y in next <==> FoundFrom(adj, before, frontier, |frontier|, y)
    ensures columns == Enter(before, next, column)
  {
    columns, next := before, [];
    for k := 0 to |frontier|
      invariant NoDuplicates(next)
      invariant forall y :: y in next <==> FoundFrom(adj, before, frontier, k, y)
      invariant columns == Enter(before, next, column)
    {
      if frontier[k] !in adj {
        continue;
      }
      var found;
      columns, found := Visit(adj[frontier[k]], column, columns);
      ExpandStep(adj, before, frontier, k, next, found);
      EnterConcat(before, next, found, column);
      NoDuplicatesConcat(next, found);
      next := next + found;
    }
  }

  /** The column `depth` steps away from the focal node on one side. */
  function Signed(forward: bool, depth: nat): int {
    if forward then depth as int else -(depth as int)
  }

  function Steps(column: int): nat {
    if column < 0 then -column else column
  }

  ghost predicate InPass(inner: set<Link>, focal: string, forward: bool, depth: nat, x: string, column: int) {
    && 1 <= Steps(column) <= depth && column == Signed(forward, Steps(column))
    && x in Shell(inner, focal, Steps(column))
  }

  /** What a pass over nodes outside `before` leaves behind. */
  ghost predicate IsPass(links: set<Link>, focal: string, forward: bool, before: map<string, int>, depth: nat,
                         columns: map<string, int>, added: seq<string>)
  {
    var inner := Avoiding(links, before.Keys);
    && columns.Keys == before.Keys + Ball(inner, focal, depth)
    && (forall x <- before :: columns[x] == before[x])
    && NoDuplicates(added)
    && (forall x :: x in added <==> x in columns && x !in before)
    && (forall x <- added :: InPass(inner, focal, forward, depth, x, columns[x]))
    && forall i, j | 0 <= i < j < |added| :: Steps(columns[added[i]]) <= Steps(columns[added[j]])
  }

  /** The frontier is the shell that the depth before has found. */
  ghost predicate IsFrontier(links: set<Link>, before: map<string, int>, focal: string, depth: nat,
                             frontier: seq<string>)
  {
    forall x :: x in frontier <==> x in Shell(Avoiding(links, before.Keys), focal, depth)
  }

  /** Both loops of the layout: the forward one with successors, the backward one with
    * predecessors. `added` lists the new keys of the column map in insertion order. */
  method BfsPass(adj: Adjacency, focal: string, forward: bool, before: map<string, int>, ghost links: set<Link>)
    returns (columns: map<string, int>, added: seq<string>)
    requires focal in before && Describes(adj, links)
    ensures IsPass(links, focal, forward, before, DEPTH, columns, added)
  {
    columns, added := before, [];
    var frontier := [focal];
    var depth := 1;
    PassStart(links, focal, forward, before);
    while depth <= DEPTH && |frontier| > 0
      invariant 1 <= depth <= DEPTH + 1
      invariant IsPass(links, focal, forward, before, depth - 1, columns, added)
      invariant IsFrontier(links, before, focal, depth - 1, frontier)
      decreases DEPTH - depth
    {
      var columns', next := Expand(adj, frontier, Signed(forward, depth), columns);
      PassStep(adj, links, focal, forward, before, depth, columns, added, frontier, columns', next);
      columns, added, frontier := columns', added + next, next;
      depth := depth + 1;
    }
    if depth <= DEPTH {
      assert frontier == [];
      PassDone(links, focal, forward, before, depth - 1, columns, added);
    }
  }

  lemma PassStart(links: set<Link>, focal: string, forward: bool, before: map<string, int>)
    requires focal in before
    ensures IsPass(links, focal, forward, before, 0, before, [])
    ensures IsFrontier(links, before, focal, 0, [focal])
  {}

  /** A pass that finds nothing at some depth is finished. */
  lemma PassDone(links: set<Link>, focal: string, forward: bool, before: map<string, int>, depth: nat,
                 columns: map<string, int>, added: seq<string>)
    requires depth <= DEPTH && IsPass(links, focal, forward, before, depth, columns, added)
    requires IsFrontier(links, before, focal, depth, [])
    ensures IsPass(links, focal, forward, before, DEPTH, columns, added)
  {
    var inner := Avoiding(links, before.Keys);
    assert focal in Shell(inner, focal, 0);
    assert forall x :: x in [] <==> x in Shell(inner, focal, depth);
    EmptyShellIsFinal(inner, focal, depth, DEPTH);
  }

  lemma PassStep(adj: Adjacency, links: set<Link>, focal: string, forward: bool, before: map<string, int>, depth: nat,
                 columns: map<string, int>, added: seq<string>, frontier: seq<string>,
                 columns': map<string, int>, next: seq<string>)
    requires depth > 0 && Describes(adj, links) && IsPass(links, focal, forward, before, depth - 1, columns, added)
    requires IsFrontier(links, before, focal, depth - 1, frontier)
    requires NoDuplicates(next) && forall y :: y in next <==> FoundFrom(adj, columns, frontier, |frontier|, y)
    requires columns' == Enter(columns, next, Signed(forward, depth))
    ensures IsPass(links, focal, forward, before, depth, columns', added + next)
    ensures IsFrontier(links, before, focal, depth, next)
  {
    forall y ensures y in next <==> y in Shell(Avoiding(links, before.Keys), focal, depth) {
      NextIsShell(adj, links, before.Keys, focal, depth, columns, frontier, y);
    }
    PassGrows(links, focal, forward, before, depth, columns, added, columns', next);
  }

  lemma NextIsShell(adj: Adjacency, links: set<Link>, before: set<string>, focal: string, depth: nat,
                    columns: map<string, int>, frontier: seq<string>, y: string)
    requires Describes(adj, links) && depth > 0
    requires columns.Keys == before + Ball(Avoiding(links, before), focal, depth - 1)
    requires forall x :: x in frontier <==> x in Shell(Avoiding(links, before), focal, depth - 1)
    ensures FoundFrom(adj, columns, frontier, |frontier|, y) <==>
            y in Shell(Avoiding(links, before), focal, depth)
  {
    var inner := Avoiding(links, before);
    NextShell(inner, focal, depth - 1);
    if FoundFrom(adj, columns, frontier, |frontier|, y) {
      var k :| 0 <= k < |frontier| && Adjacent(adj, frontier[k], y);
      assert frontier[k] in frontier && y !in columns.Keys;
      assert (frontier[k], y) in inner && y in Image(inner, Shell(inner, focal, depth - 1));
      assert y in Shell(inner, focal, depth);
    }
    if y in Shell(inner, focal, depth) {
      var l :| l in inner && l.0 in Shell(inner, focal, depth - 1) && l.1 == y;
      assert l.0 in frontier;
      var k :| 0 <= k < |frontier| && frontier[k] == l.0;
      assert (l.0, l.1) in links && Adjacent(adj, frontier[k], y);
      assert y !in columns.Keys;
      assert FoundFrom(adj, columns, frontier, |frontier|, y);
    }
  }

  lemma NewKeys(inner: set<Link>, focal: string, depth: nat, before: map<string, int>, columns: map<string, int>,
                next: seq<string>, column: int)
    requires depth > 0 && columns.Keys == before.Keys + Ball(inner, focal, depth - 1)
    requires forall x :: x in next <==> x in Shell(inner, focal, depth)
    ensures Enter(columns, next, column).Keys == before.Keys + Ball(inner, focal, depth)
  {
    assert Ball(inner, focal, depth) == Ball(inner, focal, depth - 1) + Shell(inner, focal, depth);
    assert Enter(columns, next, column).Keys == columns.Keys + Shell(inner, focal, depth);
  }

  lemma PassGrows(links: set<Link>, focal: string, forward: bool, before: map<string, int>, depth: nat,
                  columns: map<string, int>, added: seq<string>, columns': map<string, int>, next: seq<string>)
    requires depth > 0 && IsPass(links, focal, forward, before, depth - 1, columns, added)
    requires NoDuplicates(next) && forall y <- next :: y !in columns
    requires IsFrontier(links, before, focal, depth, next)
    requires columns' == Enter(columns, next, Signed(forward, depth))
    ensures IsPass(links, focal, forward, before, depth, columns', added + next)
  {
    var inner := Avoiding(links, before.Keys);
    NewKeys(inner, focal, depth, before, columns, next, Signed(forward, depth));
    assert forall x <- added :: columns'[x] == columns[x];
    NoDuplicatesConcat(added, next);
    AllInPass(inner, focal, forward, depth, columns, added, columns', next);
    StepsGrow(columns, added, columns', next, depth);
  }

  lemma AllInPass(inner: set<Link>, focal: string, forward: bool, depth: nat, columns: map<string, int>,
                  added: seq<string>, columns': map<string, int>, next: seq<string>)
    requires depth > 0
    requires forall x <- added :: x in columns && InPass(inner, focal, forward, depth - 1, x, columns[x])
    requires forall x <- added :: x in columns' && columns'[x] == columns[x]
    requires forall x <- next :: x in columns' && columns'[x] == Signed(forward, depth)
    requires forall x <- next :: x in Shell(inner, focal, depth)
    ensures forall x <- added + next :: x in columns' && InPass(inner, focal, forward, depth, x, columns'[x])
    ensures forall x <- next :: Steps(columns'[x]) == depth
  {}

  lemma StepsGrow(columns: map<string, int>, added: seq<string>, columns': map<string, int>, next: seq<string>,
                  depth: nat)
    requires forall x <- added :: x in columns && x in columns' && columns'[x] == columns[x]
    requires forall x <- added :: Steps(columns[x]) <= depth
    requires forall x <- next :: x in columns' && Steps(columns'[x]) == depth
    requires forall i, j | 0 <= i < j < |added| :: Steps(columns[added[i]]) <= Steps(columns[added[j]])
    ensures var all := added + next;
            forall i, j | 0 <= i < j < |all| :: all[i] in columns' && all[j] in columns' &&
              Steps(columns'[all[i]]) <= Steps(columns'[all[j]])
  {}

  // ---------- Both passes ----------

  /** Columns in the order in which the column map first meets them: 0, 1, 2, ... then -1, -2, ... */
  function Rank(column: int): nat {
    if column < 0 then DEPTH - column else column
  }

  /** The column map and its keys in insertion order. */
  ghost predicate IsAssignment(g: Graph, columns: map<string, int>, order: seq<string>) {
    && columns.Keys == Assigned(g)
    && (forall id <- columns :: InColumn(g, id, columns[id]))
    && NoDuplicates(order) && (forall id :: id in order <==> id in columns)
    && forall i, j | 0 <= i < j < |order| :: Rank(columns[order[i]]) <= Rank(columns[order[j]])
  }

  method AssignColumns(g: Graph, preds: Adjacency, succs: Adjacency)
    returns (columns: map<string, int>, order: seq<string>)
    requires Describes(succs, Links(g)) && Describes(preds, Reversed(Links(g)))
    ensures IsAssignment(g, columns, order)
  {
    var start := map[g.focalId := 0];
    var forward, added := BfsPass(succs, g.focalId, true, start, Links(g));
    ForwardPass(g, forward, added);
    var all, added' := BfsPass(preds, g.focalId, false, forward, Reversed(Links(g)));
    BackwardPass(g, forward, all, added');
    JoinPasses(g.focalId, forward, added, all, added');
    return all, [g.focalId] + added + added';
  }

  lemma JoinPasses(focal: string, forward: map<string, int>, added: seq<string>, all: map<string, int>,
                   added': seq<string>)
    requires focal in forward && forward[focal] == 0
    requires forall x <- forward :: x in all && all[x] == forward[x]
    requires forall x :: x in added <==> x in forward && x != focal
    requires forall x :: x in added' <==> x in all && x !in forward
    requires forall x <- added :: 0 < forward[x] <= DEPTH
    requires forall x <- added' :: all[x] < 0
    requires NoDuplicates(added) && NoDuplicates(added')
    requires forall i, j | 0 <= i < j < |added| :: Steps(forward[added[i]]) <= Steps(forward[added[j]])
    requires forall i, j | 0 <= i < j < |added'| :: Steps(all[added'[i]]) <= Steps(all[added'[j]])
    ensures var order := [focal] + added + added';
            && NoDuplicates(order) && (forall id :: id in order <==> id in all)
            && forall i, j | 0 <= i < j < |order| :: Rank(all[order[i]]) <= Rank(all[order[j]])
  {
    NoDuplicatesConcat([focal], added);
    NoDuplicatesConcat([focal] + added, added');
    RanksGrow(focal, added, added', all);
  }

  lemma ForwardPass(g: Graph, columns: map<string, int>, added: seq<string>)
    requires IsPass(Links(g), g.focalId, true, map[g.focalId := 0], DEPTH, columns, added)
    ensures columns.Keys == Forward(g) && columns[g.focalId] == 0
    ensures forall x <- added :: 0 < columns[x] <= DEPTH
    ensures forall x <- columns :: InColumn(g, x, columns[x]) && columns[x] >= 0
  {
    var inner := Avoiding(Links(g), {g.focalId});
    assert map[g.focalId := 0].Keys == {g.focalId};
    forall n: nat ensures Ball(inner, g.focalId, n) == Ball(Links(g), g.focalId, n) {
      CentreIsNotReentered(Links(g), g.focalId, n);
    }
    forall x | x in columns ensures InColumn(g, x, columns[x]) && columns[x] >= 0 {
      if x != g.focalId {
        assert InPass(inner, g.focalId, true, DEPTH, x, columns[x]);
      }
    }
  }

  lemma BackwardPass(g: Graph, before: map<string, int>, columns: map<string, int>, added: seq<string>)
    requires before.Keys == Forward(g)
    requires IsPass(Reversed(Links(g)), g.focalId, false, before, DEPTH, columns, added)
    ensures columns.Keys == Assigned(g)
    ensures forall x <- added :: InColumn(g, x, columns[x]) && columns[x] < 0
  {
    assert Avoiding(Reversed(Links(g)), before.Keys) == BackLinks(g);
    forall x | x in added ensures InColumn(g, x, columns[x]) && columns[x] < 0 {
      assert InPass(BackLinks(g), g.focalId, false, DEPTH, x, columns[x]);
    }
  }

  lemma RanksGrow(focal: string, added: seq<string>, added': seq<string>, all: map<string, int>)
    requires focal in all && all[focal] == 0
    requires forall x <- added :: x in all && all[x] > 0
    requires forall x <- added' :: x in all && all[x] < 0
    requires forall i, j | 0 <= i < j < |added| :: Steps(all[added[i]]) <= Steps(all[added[j]])
    requires forall x <- added :: Steps(all[x]) <= DEPTH
    requires forall i, j | 0 <= i < j < |added'| :: Steps(all[added'[i]]) <= Steps(all[added'[j]])
    ensures var order := [focal] + added + added';
            forall i, j | 0 <= i < j < |order| :: order[i] in all && order[j] in all &&
              Rank(all[order[i]]) <= Rank(all[order[j]])
  {}

  // ---------- The meaning of a column ----------

  /** Forward columns are distances along successor paths. */
  lemma ForwardColumnIsDistance(g: Graph, id: string, d: nat)
    requires 0 < d <= DEPTH
    ensures InColumn(g, id, d) <==> Distance(Links(g), g.focalId, id, d)
  {
    ShellIsDistance(Links(g), g.focalId, d, id);
  }

  /** Backward columns are distances along predecessor paths, for the nodes that do not lie forward
    * and along paths that keep out of the forward nodes. */
  lemma BackwardColumnIsDistance(g: Graph, id: string, d: nat)
    requires 0 < d <= DEPTH
    ensures InColumn(g, id, Signed(false, d)) <==> id !in Forward(g) && Distance(BackLinks(g), g.focalId, id, d)
  {
    var links, blocked := Reversed(Links(g)), Forward(g);
    AvoidingDistance(links, blocked, g.focalId, d, id);
  }

  lemma ColumnSide(g: Graph, id: string, c: int)
    requires InColumn(g, id, c)
    ensures c >= 0 <==> id in Forward(g)
    ensures c == 0 <==> id == g.focalId
    ensures id in Assigned(g)
  {
    if c > 0 {
      BallGrows(Links(g), g.focalId, c, DEPTH);
    } else if c < 0 {
      ShellAvoids(Reversed(Links(g)), Forward(g), g.focalId, -c, id);
      BallGrows(BackLinks(g), g.focalId, -c, DEPTH);
    }
  }

  lemma ShellsAreDisjoint(links: set<Link>, from: string, m: nat, n: nat, x: string)
    requires m < n && x in Shell(links, from, m)
    ensures x !in Shell(links, from, n)
  {
    BallGrows(links, from, m, n - 1);
  }

  /** A node has at most one column. */
  lemma ColumnIsUnique(g: Graph, id: string, c: int, d: int)
    requires InColumn(g, id, c) && InColumn(g, id, d)
    ensures c == d
  {
    ColumnSide(g, id, c);
    ColumnSide(g, id, d);
    if Steps(c) < Steps(d) {
      ShellsAreDisjoint(if c > 0 then Links(g) else BackLinks(g), g.focalId, Steps(c), Steps(d), id);
    } else if Steps(d) < Steps(c) {
      ShellsAreDisjoint(if c > 0 then Links(g) else BackLinks(g), g.focalId, Steps(d), Steps(c), id);
    }
  }

  /** The next column towards the focal one. */
  function Inward(column: int): int {
    if column > 0 then column - 1 else column + 1
  }

  lemma InnerOfShell(links: set<Link>, from: string, d: nat, id: string) returns (id': string)
    requires d > 0 && id in Shell(links, from, d)
    ensures id' in Shell(links, from, d - 1)
    ensures d == 1 ==> id' == from
  {
    id' := ShellsAreContiguous(links, from, d - 1, id);
  }

  /** Between a node and the focal column no column is empty. */
  lemma ForwardInnerIsOccupied(g: Graph, id: string, c: int) returns (id': string)
    requires c > 0 && InColumn(g, id, c)
    ensures InColumn(g, id', c - 1)
  {
    id' := InnerOfShell(Links(g), g.focalId, c, id);
  }

  lemma BackwardInnerIsOccupied(g: Graph, id: string, c: int) returns (id': string)
    requires c < 0 && InColumn(g, id, c)
    ensures InColumn(g, id', c + 1)
  {
    id' := InnerOfShell(BackLinks(g), g.focalId, -c, id);
  }
}
