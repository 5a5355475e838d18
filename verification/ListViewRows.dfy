/** How often each task appears among the rows of the list view. */
module ListViewRows {
  import opened Results
  import opened EpicAncestors
  import opened ListView

  /** No Epic has a parent that is shown and is no Epic. */
  ghost predicate EpicsOnTop(v: View) {
    forall t <- v.filtered :: t.isEpic ==> !IsNested(v, t)
  }

  /** `q` is a way down to `u`. */
  predicate LeadsTo(v: View, q: seq<Task>, u: Task) {
    IsPath(v, q) && q != [] && q[|q| - 1] == u
  }

  predicate AllOpen(expanded: set<string>, q: seq<Task>, from: int)
    requires 0 <= from
  {
    forall i | from <= i < |q| - 1 :: q[i].id in expanded
  }

  lemma ChildOfShown(v: View, c: Task, p: Task)
    requires IsView(v) && p in v.filtered && !p.isEpic && IsChild(c, p.id)
    ensures IsNested(v, c)
  {
    IndexHas(v.tasks, p);
  }

  lemma NestedHasParent(v: View, c: Task) returns (p: Task)
    requires IsView(v) && IsNested(v, c)
    ensures p in v.filtered && !p.isEpic && IsChild(c, p.id) && Parent(ById(v), c) == Some(p)
  {
    p :| p in v.filtered && p.id == c.parent;
    IndexHas(v.tasks, p);
  }

  // ---------- With the Epics on top, there is one way down to a row ----------

  lemma {:induction false} NoEpicOnPath(v: View, q: seq<Task>, i: nat)
    requires IsView(v) && EpicsOnTop(v) && IsPath(v, q) && i < |q|
    ensures !q[i].isEpic && (i > 0 ==> IsNested(v, q[i]))
  {
    if i > 0 {
      NoEpicOnPath(v, q, i - 1);
      ChildOfShown(v, q[i], q[i - 1]);
    }
  }

  lemma {:induction false} OneWayDown(v: View, p: seq<Task>, q: seq<Task>)
    requires IsView(v) && EpicsOnTop(v) && p != [] && LeadsTo(v, q, p[|p| - 1]) && IsPath(v, p)
    ensures p == q
    decreases p
  {
    var m, n := |p| - 1, |q| - 1;
    NoEpicOnPath(v, p, m);
    NoEpicOnPath(v, q, n);
    if m > 0 && n > 0 {
      OneWayDown(v, p[..m], q[..n]);
      assert p == p[..m] + [p[m]] && q == q[..n] + [q[n]];
    }
  }

  lemma OnTopHasNoLoop(v: View)
    requires IsView(v) && EpicsOnTop(v)
    ensures HasNoLoop(v)
  {
    forall path | IsPath(v, path) ensures IsDistinct(path) {
      forall i, j | 0 <= i < j < |path| ensures path[i] != path[j] {
        if path[i] == path[j] {
          OneWayDown(v, path[..i + 1], path[..j + 1]);
        }
      }
    }
  }

  // ---------- How often a row is rendered ----------

  lemma ChildrenCount(v: View, parent: string, c: Task)
    requires IsView(v)
    ensures multiset(Children(v, parent))[c] == if c in v.filtered && IsChild(c, parent) then 1 else 0
  {
    WhereCounts(v.filtered, ChildTest(parent), c);
    DistinctCount(v.filtered, c);
  }

  lemma TopCount(v: View, group: Option<string>, c: Task)
    requires IsView(v)
    ensures multiset(TopRows(v, group))[c] ==
            if c in v.filtered && IsTopRow(v, c) && GroupOf(v, c) == group then 1 else 0
  {
    WhereCounts(v.filtered, TopTest(v, group), c);
    DistinctCount(v.filtered, c);
  }

  lemma ChildPaths(v: View, path: seq<Task>)
    requires IsPath(v, path) && path != []
    ensures forall c <- Children(v, path[|path| - 1].id) :: IsPath(v, path + [c])
  {
    forall c | c in Children(v, path[|path| - 1].id) ensures IsPath(v, path + [c]) {
      ChildPath(v, path, c);
    }
  }

  /** Below `path`, the row at the end of `q` is rendered once if `q` goes on from `path` through expanded
    * rows, and else not at all. */
  lemma {:induction false} RowCount(v: View, expanded: set<string>, path: seq<Task>, t: Task, q: seq<Task>)
    requires IsView(v) && EpicsOnTop(v) && HasNoLoop(v) && LeadsTo(v, path, t) && IsPath(v, q) && q != []
    ensures multiset(RenderRow(v, expanded, path, t))[q[|q| - 1]] ==
            if path <= q && AllOpen(expanded, q, |path| - 1) then 1 else 0
    decreases Room(v, path), 1, 0
  {
    var u := q[|q| - 1];
    if t == u {
      OneWayDown(v, path, q);
    }
    if t.id in expanded {
      ChildPaths(v, path);
      RowsCount(v, expanded, path, Children(v, t.id), q);
      if |path| < |q| {
        ChildrenCount(v, t.id, q[|path|]);
      }
    }
  }

  lemma {:induction false} RowsCount(v: View, expanded: set<string>, path: seq<Task>, rows: seq<Task>, q: seq<Task>)
    requires IsView(v) && EpicsOnTop(v) && HasNoLoop(v) && IsPath(v, path) && IsPath(v, q) && q != []
    requires forall c <- rows :: IsPath(v, path + [c])
    ensures multiset(RenderRows(v, expanded, path, rows))[q[|q| - 1]] ==
            if path < q && AllOpen(expanded, q, |path|) then multiset(rows)[q[|path|]] else 0
    decreases Room(v, path), 0, |rows|
  {
    if rows != [] {
      RowCount(v, expanded, path + [rows[0]], rows[0], q);
      RowsCount(v, expanded, path, rows[1..], q);
      RowsSplit(v, expanded, path, rows, q[|q| - 1]);
      OneLonger(path, rows[0], q);
      if path < q {
        CountSplit(rows, q[|path|]);
      }
    }
  }

  lemma RowsSplit(v: View, expanded: set<string>, path: seq<Task>, rows: seq<Task>, u: Task)
    requires HasNoLoop(v) && IsPath(v, path) && rows != [] && forall c <- rows :: IsPath(v, path + [c])
    ensures multiset(RenderRows(v, expanded, path, rows))[u] ==
            multiset(RenderRow(v, expanded, path + [rows[0]], rows[0]))[u] +
            multiset(RenderRows(v, expanded, path, rows[1..]))[u]
  {}

  lemma OneLonger(path: seq<Task>, c: Task, q: seq<Task>)
    ensures path + [c] <= q <==> path < q && q[|path|] == c
  {}

  lemma CountSplit(rows: seq<Task>, c: Task)
    requires rows != []
    ensures multiset(rows)[c] == (if rows[0] == c then 1 else 0) + multiset(rows[1..])[c]
  {
    assert rows == [rows[0]] + rows[1..];
  }

  // ---------- Whatever is rendered has a way down ----------

  ghost predicate HasWayDown(v: View, u: Task) {
    exists q :: LeadsTo(v, q, u)
  }

  lemma {:induction false} RowHasWay(v: View, expanded: set<string>, path: seq<Task>, t: Task, u: Task)
    requires HasNoLoop(v) && LeadsTo(v, path, t) && u in RenderRow(v, expanded, path, t)
    ensures HasWayDown(v, u)
    decreases Room(v, path), 1, 0
  {
    if u != t {
      ChildPaths(v, path);
      RowsHaveWay(v, expanded, path, Children(v, t.id), u);
    }
  }

  lemma {:induction false} RowsHaveWay(v: View, expanded: set<string>, path: seq<Task>, rows: seq<Task>, u: Task)
    requires HasNoLoop(v) && IsPath(v, path) && (forall c <- rows :: IsPath(v, path + [c]))
    requires u in RenderRows(v, expanded, path, rows)
    ensures HasWayDown(v, u)
    decreases Room(v, path), 0, |rows|
  {
    if u in RenderRow(v, expanded, path + [rows[0]], rows[0]) {
      RowHasWay(v, expanded, path + [rows[0]], rows[0], u);
    } else {
      RowsHaveWay(v, expanded, path, rows[1..], u);
    }
  }

  // ---------- Children of rendered rows are rendered, when all is expanded ----------

  ghost predicate IsFullyExpanded(v: View, expanded: set<string>) {
    NO_EPIC in expanded && forall t <- v.filtered :: t.id in expanded
  }

  lemma {:induction false} RowKeepsChild(v: View, expanded: set<string>, path: seq<Task>, t: Task, u: Task, c: Task)
    requires HasNoLoop(v) && LeadsTo(v, path, t) && IsFullyExpanded(v, expanded)
    requires u in RenderRow(v, expanded, path, t) && c in Children(v, u.id)
    ensures c in RenderRow(v, expanded, path, t)
    decreases Room(v, path), 1, 0
  {
    ChildPaths(v, path);
    if u == t {
      RowsHaveOwn(v, expanded, path, Children(v, t.id), c);
    } else {
      RowsKeepChild(v, expanded, path, Children(v, t.id), u, c);
    }
  }

  lemma {:induction false} RowsHaveOwn(v: View, expanded: set<string>, path: seq<Task>, rows: seq<Task>, c: Task)
    requires HasNoLoop(v) && IsPath(v, path) && (forall c <- rows :: IsPath(v, path + [c])) && c in rows
    ensures c in RenderRows(v, expanded, path, rows)
    decreases |rows|
  {
    if c != rows[0] {
      RowsHaveOwn(v, expanded, path, rows[1..], c);
    }
  }

  lemma {:induction false} RowsKeepChild(v: View, expanded: set<string>, path: seq<Task>, rows: seq<Task>,
                                         u: Task, c: Task)
    requires HasNoLoop(v) && IsPath(v, path) && (forall c <- rows :: IsPath(v, path + [c]))
    requires IsFullyExpanded(v, expanded)
    requires u in RenderRows(v, expanded, path, rows) && c in Children(v, u.id)
    ensures c in RenderRows(v, expanded, path, rows)
    decreases Room(v, path), 0, |rows|
  {
    if u in RenderRow(v, expanded, path + [rows[0]], rows[0]) {
      RowKeepsChild(v, expanded, path + [rows[0]], rows[0], u, c);
    } else {
      RowsKeepChild(v, expanded, path, rows[1..], u, c);
    }
  }

  // ---------- Headers and bodies ----------

  lemma TopPaths(v: View, group: Option<string>)
    ensures IsPath(v, []) && forall c <- TopRows(v, group) :: IsPath(v, [] + [c])
  {
    forall c | c in TopRows(v, group) ensures IsPath(v, [] + [c]) {
      TopPath(v, group, c);
      assert [] + [c] == [c];
    }
  }

  /** What the open sections show besides their headers. */
  ghost function Bodies(v: View, expanded: set<string>, epics: seq<Task>): multiset<Task>
    requires HasNoLoop(v)
  {
    if epics == [] then multiset{}
    else (if epics[0].id in expanded then multiset(GroupBody(v, expanded, Some(epics[0].id))) else multiset{})
         + Bodies(v, expanded, epics[1..])
  }

  ghost function AllBodies(v: View, expanded: set<string>): multiset<Task>
    requires HasNoLoop(v)
  {
    Bodies(v, expanded, Epics(v)) + if NO_EPIC in expanded then multiset(GroupBody(v, expanded, None)) else multiset{}
  }

  lemma {:induction false} SectionsSplit(v: View, expanded: set<string>, epics: seq<Task>)
    requires HasNoLoop(v)
    ensures multiset(EpicSections(v, expanded, epics)) == multiset(epics) + Bodies(v, expanded, epics)
  {
    if epics != [] {
      SectionsSplit(v, expanded, epics[1..]);
      assert epics == [epics[0]] + epics[1..];
    }
  }

  lemma EpicsCount(v: View, u: Task)
    requires IsView(v)
    ensures multiset(Epics(v))[u] == if u in v.filtered && u.isEpic then 1 else 0
    ensures u in Epics(v) <==> u in v.filtered && u.isEpic
  {
    WhereCounts(v.filtered, IsEpic, u);
    DistinctCount(v.filtered, u);
    assert u in Epics(v) <==> u in multiset(Epics(v));
  }

  /** Each Epic that the filters let through has one header; the other rows are in the bodies. */
  lemma RowsSplitUp(v: View, expanded: set<string>, u: Task)
    requires IsView(v) && HasNoLoop(v)
    ensures multiset(Rows(v, expanded))[u] ==
            (if u in v.filtered && u.isEpic then 1 else 0) + AllBodies(v, expanded)[u]
  {
    SectionsSplit(v, expanded, Epics(v));
    EpicsCount(v, u);
  }

  lemma GroupBodyHasWay(v: View, expanded: set<string>, group: Option<string>, u: Task)
    requires HasNoLoop(v) && u in GroupBody(v, expanded, group)
    ensures HasWayDown(v, u)
  {
    TopPaths(v, group);
    RowsHaveWay(v, expanded, [], TopRows(v, group), u);
  }

  lemma {:induction false} BodiesHaveWay(v: View, expanded: set<string>, epics: seq<Task>, u: Task)
    requires HasNoLoop(v) && u in Bodies(v, expanded, epics)
    ensures HasWayDown(v, u)
  {
    var group := Some(epics[0].id);
    if epics[0].id in expanded && u in multiset(GroupBody(v, expanded, group)) {
      GroupBodyHasWay(v, expanded, group, u);
    } else {
      BodiesHaveWay(v, expanded, epics[1..], u);
    }
  }

  lemma AllBodiesHaveWay(v: View, expanded: set<string>, u: Task)
    requires HasNoLoop(v) && u in AllBodies(v, expanded)
    ensures HasWayDown(v, u)
  {
    if u in Bodies(v, expanded, Epics(v)) {
      BodiesHaveWay(v, expanded, Epics(v), u);
    } else {
      GroupBodyHasWay(v, expanded, None, u);
    }
  }

  lemma GroupBodyKeepsChild(v: View, expanded: set<string>, group: Option<string>, u: Task, c: Task)
    requires HasNoLoop(v) && IsFullyExpanded(v, expanded)
    requires u in GroupBody(v, expanded, group) && c in Children(v, u.id)
    ensures c in GroupBody(v, expanded, group)
  {
    TopPaths(v, group);
    RowsKeepChild(v, expanded, [], TopRows(v, group), u, c);
  }

  lemma {:induction false} BodiesKeepChild(v: View, expanded: set<string>, epics: seq<Task>, u: Task, c: Task)
    requires HasNoLoop(v) && IsFullyExpanded(v, expanded)
    requires u in Bodies(v, expanded, epics) && c in Children(v, u.id)
    ensures c in Bodies(v, expanded, epics)
  {
    var group := Some(epics[0].id);
    if epics[0].id in expanded && u in multiset(GroupBody(v, expanded, group)) {
      GroupBodyKeepsChild(v, expanded, group, u, c);
    } else {
      BodiesKeepChild(v, expanded, epics[1..], u, c);
    }
  }

  lemma AllBodiesKeepChild(v: View, expanded: set<string>, u: Task, c: Task)
    requires HasNoLoop(v) && IsFullyExpanded(v, expanded)
    requires u in AllBodies(v, expanded) && c in Children(v, u.id)
    ensures c in AllBodies(v, expanded)
  {
    if u in Bodies(v, expanded, Epics(v)) {
      BodiesKeepChild(v, expanded, Epics(v), u, c);
    } else {
      GroupBodyKeepsChild(v, expanded, None, u, c);
    }
  }

  // ---------- How often a task is in a body ----------

  lemma {:induction false} GroupAlongPath(v: View, q: seq<Task>, i: nat)
    requires IsView(v) && EpicsOnTop(v) && IsPath(v, q) && i < |q|
    ensures GroupOf(v, q[i]) == GroupOf(v, q[0])
  {
    IndexHas(v.tasks, q[i]);
    if i > 0 {
      GroupAlongPath(v, q, i - 1);
      IndexHas(v.tasks, q[i - 1]);
      NoEpicOnPath(v, q, i);
      FindEpicOfParent(ById(v), q[i]);
    }
  }

  lemma GroupBodyCount(v: View, expanded: set<string>, group: Option<string>, q: seq<Task>)
    requires IsView(v) && EpicsOnTop(v) && HasNoLoop(v) && IsPath(v, q) && q != []
    ensures multiset(GroupBody(v, expanded, group))[q[|q| - 1]] ==
            if GroupOf(v, q[|q| - 1]) == group && AllOpen(expanded, q, 0) then 1 else 0
  {
    TopPaths(v, group);
    RowsCount(v, expanded, [], TopRows(v, group), q);
    TopCount(v, group, q[0]);
    GroupAlongPath(v, q, |q| - 1);
  }

  predicate HasId(epics: seq<Task>, id: string) {
    exists e <- epics :: e.id == id
  }

  lemma {:induction false} BodiesCount(v: View, expanded: set<string>, epics: seq<Task>, q: seq<Task>)
    requires IsView(v) && EpicsOnTop(v) && HasNoLoop(v) && IsPath(v, q) && q != [] && HasDistinctIds(epics)
    ensures var group := GroupOf(v, q[|q| - 1]);
            Bodies(v, expanded, epics)[q[|q| - 1]] ==
            if group.Some? && HasId(epics, group.value) && group.value in expanded && AllOpen(expanded, q, 0)
            then 1 else 0
  {
    if epics != [] {
      BodiesCount(v, expanded, epics[1..], q);
      GroupBodyCount(v, expanded, Some(epics[0].id), q);
    }
  }

  lemma TwiceCounts(s: seq<Task>, i: nat, j: nat)
    requires i < j < |s| && s[i] == s[j]
    ensures multiset(s)[s[i]] >= 2
  {
    assert s == s[..j] + [s[j]] + s[j + 1..];
    assert s[..j][i] == s[j] && s[j] in multiset(s[..j]);
  }

  lemma HeadersAreDistinct(v: View)
    requires IsView(v)
    ensures HasDistinctIds(Epics(v))
  {
    var epics := Epics(v);
    forall i, j | 0 <= i < j < |epics| ensures epics[i].id != epics[j].id {
      EpicsCount(v, epics[i]);
      EpicsCount(v, epics[j]);
      if epics[i] == epics[j] {
        TwiceCounts(epics, i, j);
      }
    }
  }

  lemma {:induction false} FoundIsEpic(byId: Index, t: Task, seen: set<string>)
    requires IsIndex(byId) && t.id in byId && byId[t.id] == t
    ensures var r := EpicFrom(byId, t, seen); r.Some? ==> r.value in byId && byId[r.value].isEpic
    decreases byId.Keys - seen
  {
    if t.id !in seen && !t.isEpic && Parent(byId, t).Some? {
      FoundIsEpic(byId, Parent(byId, t).value, seen + {t.id});
    }
  }

  lemma HeaderIsVisible(v: View, u: Task, id: string)
    requires IsView(v) && GroupOf(v, u) == Some(id)
    ensures HasId(Epics(v), id) <==> IsVisible(v, id)
  {
    FoundIsEpic(ById(v), u, {});
    if HasId(Epics(v), id) {
      var e :| e in Epics(v) && e.id == id;
      EpicsCount(v, e);
    }
    if IsVisible(v, id) {
      var t :| t in v.filtered && t.id == id;
      IndexHas(v.tasks, t);
      EpicsCount(v, t);
    }
  }

  // ---------- The table ----------

  /** The header that the task belongs under is there and open. */
  predicate HeaderIsOpen(v: View, expanded: set<string>, u: Task) {
    match GroupOf(v, u)
    case None => NO_EPIC in expanded
    case Some(id) => IsVisible(v, id) && id in expanded
  }

  /** Every row on the way down to the task is expanded. */
  ghost predicate HasOpenWay(v: View, expanded: set<string>, u: Task) {
    exists q :: LeadsTo(v, q, u) && AllOpen(expanded, q, 0)
  }

  lemma AllBodiesCount(v: View, expanded: set<string>, u: Task)
    requires IsView(v) && EpicsOnTop(v) && HasNoLoop(v)
    ensures AllBodies(v, expanded)[u] == if HasOpenWay(v, expanded, u) && HeaderIsOpen(v, expanded, u) then 1 else 0
  {
    if HasWayDown(v, u) {
      var q :| LeadsTo(v, q, u);
      assert HasOpenWay(v, expanded, u) <==> AllOpen(expanded, q, 0) by {
        if HasOpenWay(v, expanded, u) {
          var q' :| LeadsTo(v, q', u) && AllOpen(expanded, q', 0);
          OneWayDown(v, q', q);
        }
      }
      HeadersAreDistinct(v);
      BodiesCount(v, expanded, Epics(v), q);
      GroupBodyCount(v, expanded, None, q);
      if GroupOf(v, u).Some? {
        HeaderIsVisible(v, u, GroupOf(v, u).value);
      }
    } else if u in AllBodies(v, expanded) {
      AllBodiesHaveWay(v, expanded, u);
    }
  }

  /** With the Epics on top, a task that the filters let through has one row if it is an Epic, or if its
    * header and all rows on the way down to it are there and open; and else none. */
  lemma RowAppears(v: View, expanded: set<string>, u: Task)
    requires IsView(v) && EpicsOnTop(v) && u in v.filtered
    ensures HasNoLoop(v)
    ensures multiset(Rows(v, expanded))[u] ==
            if u.isEpic || (HasOpenWay(v, expanded, u) && HeaderIsOpen(v, expanded, u)) then 1 else 0
  {
    OnTopHasNoLoop(v);
    RowsSplitUp(v, expanded, u);
    AllBodiesCount(v, expanded, u);
    if u.isEpic && HasOpenWay(v, expanded, u) {
      var q :| LeadsTo(v, q, u) && AllOpen(expanded, q, 0);
      NoEpicOnPath(v, q, |q| - 1);
    }
  }

  /** The parent relation among the shown tasks has no cycle: levels rise from parent to child. */
  ghost predicate Rises(v: View, level: Task -> nat) {
    forall c, p | c in v.filtered && p in v.filtered && IsChild(c, p.id) :: level(p) < level(c)
  }

  ghost predicate IsAcyclic(v: View) {
    exists level: Task -> nat :: Rises(v, level)
  }

  lemma {:induction false} LevelsRise(v: View, level: Task -> nat, path: seq<Task>, i: nat, j: nat)
    requires Rises(v, level) && IsPath(v, path) && i < j < |path|
    ensures level(path[i]) < level(path[j])
  {
    assert IsChild(path[j], path[j - 1].id);
    if i < j - 1 {
      LevelsRise(v, level, path, i, j - 1);
    }
  }

  lemma AcyclicHasNoLoop(v: View)
    requires IsAcyclic(v)
    ensures HasNoLoop(v)
  {
    var level: Task -> nat :| Rises(v, level);
    forall path | IsPath(v, path) ensures IsDistinct(path) {
      forall i, j | 0 <= i < j < |path| ensures path[i] != path[j] {
        LevelsRise(v, level, path, i, j);
      }
    }
  }

  lemma {:induction false} AcyclicHasWay(v: View, level: Task -> nat, u: Task)
    requires IsView(v) && Rises(v, level) && u in v.filtered && !u.isEpic
    ensures HasWayDown(v, u)
    decreases level(u)
  {
    if IsTopRow(v, u) {
      assert LeadsTo(v, [u], u);
    } else {
      var p := NestedHasParent(v, u);
      AcyclicHasWay(v, level, p);
      var q :| LeadsTo(v, q, p);
      assert LeadsTo(v, q + [u], u);
    }
  }

  lemma RowsAreFiltered(v: View, expanded: set<string>, u: Task)
    requires IsView(v) && HasNoLoop(v) && u !in v.filtered
    ensures multiset(Rows(v, expanded))[u] == 0
  {
    RowsSplitUp(v, expanded, u);
    if u in AllBodies(v, expanded) {
      AllBodiesHaveWay(v, expanded, u);
    }
  }

  /** The Epic that a task rolls up to is itself let through. */
  predicate EpicIsVisible(v: View, t: Task) {
    t.isEpic || GroupOf(v, t).None? || IsVisible(v, GroupOf(v, t).value)
  }

  ghost predicate EpicsAreVisible(v: View) {
    forall t <- v.filtered :: EpicIsVisible(v, t)
  }

  ghost predicate ShowsEachOnce(v: View, expanded: set<string>)
    requires HasNoLoop(v)
  {
    multiset(Rows(v, expanded)) == multiset(v.filtered)
  }

  /** Going up from each shown task that is no Epic, through shown parents that are none, comes to an end. */
  ghost predicate AllHaveWays(v: View) {
    forall t <- v.filtered :: t.isEpic || HasWayDown(v, t)
  }

  lemma OnceIfVisible(v: View, expanded: set<string>)
    requires IsView(v) && HasNoLoop(v) && IsFullyExpanded(v, expanded)
    requires EpicsOnTop(v) && EpicsAreVisible(v) && AllHaveWays(v)
    ensures ShowsEachOnce(v, expanded)
  {
    forall u ensures multiset(Rows(v, expanded))[u] == multiset(v.filtered)[u] {
      DistinctCount(v.filtered, u);
      if u in v.filtered {
        RowAppears(v, expanded, u);
      } else {
        RowsAreFiltered(v, expanded, u);
      }
    }
  }

  /** An Epic below a shown task has a header and a row inside that task. */
  lemma NestedEpicAppearsTwice(v: View, expanded: set<string>, e: Task)
    requires IsView(v) && HasNoLoop(v) && IsFullyExpanded(v, expanded) && ShowsEachOnce(v, expanded)
    requires e in v.filtered && e.isEpic
    ensures !IsNested(v, e)
  {
    if IsNested(v, e) {
      var p := NestedHasParent(v, e);
      RowsSplitUp(v, expanded, p);
      RowsSplitUp(v, expanded, e);
      DistinctCount(v.filtered, p);
      DistinctCount(v.filtered, e);
      ChildrenCount(v, p.id, e);
      assert e in multiset(Children(v, p.id));
      AllBodiesKeepChild(v, expanded, p, e);
    }
  }

  /** In the fully expanded list every task that the filters let through has exactly one row if and only if
    * no Epic is below a shown task that is no Epic, the nearest Epic above each shown task is shown too, and
    * no shown task that is no Epic hangs on a cycle of such tasks. */
  lemma EachTaskAppearsOnce(v: View, expanded: set<string>)
    requires IsView(v) && HasNoLoop(v) && IsFullyExpanded(v, expanded)
    ensures ShowsEachOnce(v, expanded) <==> EpicsOnTop(v) && EpicsAreVisible(v) && AllHaveWays(v)
  {
    if EpicsOnTop(v) && EpicsAreVisible(v) && AllHaveWays(v) {
      OnceIfVisible(v, expanded);
    } else if ShowsEachOnce(v, expanded) {
      forall e | e in v.filtered && e.isEpic ensures !IsNested(v, e) {
        NestedEpicAppearsTwice(v, expanded, e);
      }
      forall u | u in v.filtered ensures EpicIsVisible(v, u) && (u.isEpic || HasWayDown(v, u)) {
        DistinctCount(v.filtered, u);
        RowAppears(v, expanded, u);
      }
    }
  }

  /** With acyclic parents the first two conditions decide. */
  lemma AcyclicTasksAppearOnce(v: View, expanded: set<string>)
    requires IsView(v) && IsAcyclic(v) && IsFullyExpanded(v, expanded)
    ensures HasNoLoop(v)
    ensures ShowsEachOnce(v, expanded) <==> EpicsOnTop(v) && EpicsAreVisible(v)
  {
    var level: Task -> nat :| Rises(v, level);
    AcyclicHasNoLoop(v);
    forall t | t in v.filtered && !t.isEpic ensures HasWayDown(v, t) {
      AcyclicHasWay(v, level, t);
    }
    EachTaskAppearsOnce(v, expanded);
  }
}
