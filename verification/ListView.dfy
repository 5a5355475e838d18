/** The list view: rows grouped by Epic and rendered recursively. */
module ListView {
  import opened Results
  import opened EpicAncestors
  import Sorting

  /** All tasks, and those that the filters let through. */
  datatype View = View(tasks: seq<Task>, filtered: seq<Task>)

  ghost predicate HasDistinctIds(s: seq<Task>) {
    forall i, j | 0 <= i < j < |s| :: s[i].id != s[j].id
  }

  ghost predicate IsView(v: View) {
    HasDistinctIds(v.tasks) && HasDistinctIds(v.filtered) && forall t <- v.filtered :: t in v.tasks
  }

  // ---------- The indexes ----------

  function IndexOf(tasks: seq<Task>): (m: Index)
    ensures IsIndex(m)
  {
    if tasks == [] then map[]
    else
      var n := |tasks| - 1;
      IndexOf(tasks[..n])[tasks[n].id := tasks[n]]
  }

  lemma {:induction false} IndexHas(tasks: seq<Task>, t: Task)
    requires HasDistinctIds(tasks)
    ensures t in tasks <==> t.id in IndexOf(tasks) && IndexOf(tasks)[t.id] == t
  {
    if tasks != [] {
      var n := |tasks| - 1;
      IndexHas(tasks[..n], t);
      assert tasks == tasks[..n] + [tasks[n]];
      if t in tasks[..n] {
        assert t.id != tasks[n].id;
      }
    }
  }

  /** The elements with a property, in order. */
  function Where(s: seq<Task>, p: Task -> bool): (r: seq<Task>)
    ensures |r| <= |s|
  {
    if s == [] then []
    else
      var n := |s| - 1;
      Where(s[..n], p) + if p(s[n]) then [s[n]] else []
  }

  lemma {:induction false} WhereCounts(s: seq<Task>, p: Task -> bool, t: Task)
    ensures multiset(Where(s, p))[t] == if p(t) then multiset(s)[t] else 0
  {
    if s != [] {
      var n := |s| - 1;
      WhereCounts(s[..n], p, t);
      assert s == s[..n] + [s[n]];
    }
  }

  lemma {:induction false} DistinctCount(s: seq<Task>, t: Task)
    requires HasDistinctIds(s)
    ensures multiset(s)[t] == if t in s then 1 else 0
  {
    if s != [] {
      var n := |s| - 1;
      DistinctCount(s[..n], t);
      assert s == s[..n] + [s[n]];
    }
  }

  lemma WhereHas(s: seq<Task>, p: Task -> bool, t: Task)
    ensures t in Where(s, p) <==> t in s && p(t)
  {}

  function ById(v: View): (m: Index)
    ensures IsIndex(m)
  {
    IndexOf(v.tasks)
  }

  predicate IsVisible(v: View, id: string) {
    exists t <- v.filtered :: t.id == id
  }

  /** The row will be rendered inside its parent's. */
  predicate IsNested(v: View, t: Task) {
    t.parent != "" && IsVisible(v, t.parent) && t.parent in ById(v) && !ById(v)[t.parent].isEpic
  }

  predicate IsChild(t: Task, parent: string) {
    t.parent != "" && t.parent == parent
  }

  function ChildTest(parent: string): Task -> bool {
    (t: Task) => IsChild(t, parent)
  }

  function Children(v: View, parent: string): seq<Task> {
    Where(v.filtered, ChildTest(parent))
  }

  predicate IsTopRow(v: View, t: Task) {
    !t.isEpic && !IsNested(v, t)
  }

  function GroupOf(v: View, t: Task): Option<string> {
    if t.id in ById(v) && ById(v)[t.id] == t then FindEpic(ById(v), t) else None
  }

  function TopTest(v: View, group: Option<string>): Task -> bool {
    (t: Task) => IsTopRow(v, t) && GroupOf(v, t) == group
  }

  function TopRows(v: View, group: Option<string>): seq<Task> {
    Where(v.filtered, TopTest(v, group))
  }

  predicate IsEpic(t: Task) {
    t.isEpic
  }

  predicate ByNumber(a: Task, b: Task) {
    a.number <= b.number
  }

  function Epics(v: View): seq<Task> {
    Sorting.Sort(ByNumber, Where(v.filtered, IsEpic))
  }

  // ---------- Rendering ----------

  /** The way down to a row: it begins with a top row, and each row is a child of the one before. */
  predicate IsPath(v: View, path: seq<Task>) {
    && (forall i | 0 <= i < |path| :: path[i] in v.filtered)
    && (path != [] ==> IsTopRow(v, path[0]))
    && forall i | 0 < i < |path| :: IsChild(path[i], path[i - 1].id)
  }

  ghost predicate IsDistinct(path: seq<Task>) {
    forall i, j | 0 <= i < j < |path| :: path[i] != path[j]
  }

  /** No way down passes a row twice; the recursion needs this to end. */
  ghost predicate HasNoLoop(v: View) {
    forall path | IsPath(v, path) :: IsDistinct(path)
  }

  lemma {:induction false} FitsInto(path: seq<Task>, s: seq<Task>)
    requires IsDistinct(path) && forall i | 0 <= i < |path| :: path[i] in s
    ensures |path| <= |s|
  {
    if path != [] {
      var n := |path| - 1;
      var k :| 0 <= k < |s| && s[k] == path[n];
      var rest := s[..k] + s[k + 1..];
      forall i | 0 <= i < n ensures path[..n][i] in rest {
        assert path[i] in s && path[i] != s[k];
      }
      FitsInto(path[..n], rest);
    }
  }

  /** The room left below a path. */
  ghost function Room(v: View, path: seq<Task>): nat
    requires HasNoLoop(v) && IsPath(v, path)
  {
    FitsInto(path, v.filtered);
    |v.filtered| - |path|
  }

  lemma ChildPath(v: View, path: seq<Task>, c: Task)
    requires IsPath(v, path) && path != [] && c in Children(v, path[|path| - 1].id)
    ensures IsPath(v, path + [c])
  {
    WhereHas(v.filtered, ChildTest(path[|path| - 1].id), c);
  }

  lemma TopPath(v: View, group: Option<string>, c: Task)
    requires c in TopRows(v, group)
    ensures IsPath(v, [c]) && GroupOf(v, c) == group
  {
    WhereHas(v.filtered, TopTest(v, group), c);
  }

  /** A row and, when it is expanded, its children. */
  function RenderRow(v: View, expanded: set<string>, ghost path: seq<Task>, t: Task): seq<Task>
    requires HasNoLoop(v) && IsPath(v, path) && path != [] && path[|path| - 1] == t
    decreases Room(v, path), 1, 0
  {
    [t] + if t.id in expanded then
            (assert forall c <- Children(v, t.id) :: IsPath(v, path + [c]) by {
               forall c | c in Children(v, t.id) ensures IsPath(v, path + [c]) { ChildPath(v, path, c); }
             }
             RenderRows(v, expanded, path, Children(v, t.id)))
          else []
  }

  function RenderRows(v: View, expanded: set<string>, ghost path: seq<Task>, rows: seq<Task>): seq<Task>
    requires HasNoLoop(v) && IsPath(v, path) && forall c <- rows :: IsPath(v, path + [c])
    decreases Room(v, path), 0, |rows|
  {
    if rows == [] then []
    else RenderRow(v, expanded, path + [rows[0]], rows[0]) + RenderRows(v, expanded, path, rows[1..])
  }

  const NO_EPIC := "__no-epic__"

  /** The rows under one header. */
  function GroupBody(v: View, expanded: set<string>, group: Option<string>): seq<Task>
    requires HasNoLoop(v)
  {
    assert forall c <- TopRows(v, group) :: IsPath(v, [] + [c]) by {
      forall c | c in TopRows(v, group) ensures IsPath(v, [] + [c]) {
        TopPath(v, group, c);
        assert [] + [c] == [c];
      }
    }
    RenderRows(v, expanded, [], TopRows(v, group))
  }

  function EpicSections(v: View, expanded: set<string>, epics: seq<Task>): seq<Task>
    requires HasNoLoop(v)
  {
    if epics == [] then []
    else [epics[0]] + (if epics[0].id in expanded then GroupBody(v, expanded, Some(epics[0].id)) else [])
         + EpicSections(v, expanded, epics[1..])
  }

  /** The whole table. */
  function Rows(v: View, expanded: set<string>): seq<Task>
    requires HasNoLoop(v)
  {
    EpicSections(v, expanded, Epics(v)) + if NO_EPIC in expanded then GroupBody(v, expanded, None) else []
  }

  // ---------- The indexes and groups as a program ----------

  method BuildIndex(tasks: seq<Task>) returns (byId: Index)
    ensures byId == IndexOf(tasks)
  {
    byId := map[];
    for i := 0 to |tasks|
      invariant byId == IndexOf(tasks[..i])
    {
      assert tasks[..i + 1][..i] == tasks[..i];
      byId := byId[tasks[i].id := tasks[i]];
    }
    assert tasks[..|tasks|] == tasks;
  }

  function Listed<K(==)>(m: map<K, seq<Task>>, key: K): seq<Task> {
    if key in m then m[key] else []
  }

  lemma WhereStep(s: seq<Task>, p: Task -> bool, i: nat)
    requires i < |s|
    ensures Where(s[..i + 1], p) == Where(s[..i], p) + if p(s[i]) then [s[i]] else []
  {
    assert s[..i + 1][..i] == s[..i];
  }

  method ChildrenByParent(filtered: seq<Task>) returns (m: map<string, seq<Task>>)
    ensures forall id: string :: Listed(m, id) == Where(filtered, ChildTest(id))
  {
    m := map[];
    for i := 0 to |filtered|
      invariant forall id: string :: Listed(m, id) == Where(filtered[..i], ChildTest(id))
    {
      var t := filtered[i];
      forall id: string ensures Where(filtered[..i + 1], ChildTest(id)) ==
                                Where(filtered[..i], ChildTest(id)) + if IsChild(t, id) then [t] else [] {
        WhereStep(filtered, ChildTest(id), i);
      }
      if t.parent != "" {
        m := m[t.parent := Listed(m, t.parent) + [t]];
      }
    }
    assert filtered[..|filtered|] == filtered;
  }

  type GroupLists = map<Option<string>, seq<Task>>

  /** The groups hold the top rows among the first `i` tasks. */
  ghost predicate GroupsHold(v: View, byEpic: GroupLists, i: nat)
    requires i <= |v.filtered|
  {
    forall group: Option<string> :: Listed(byEpic, group) == Where(v.filtered[..i], TopTest(v, group))
  }

  lemma GroupsSkip(v: View, byEpic: GroupLists, i: nat)
    requires i < |v.filtered| && GroupsHold(v, byEpic, i) && !IsTopRow(v, v.filtered[i])
    ensures GroupsHold(v, byEpic, i + 1)
  {
    forall group: Option<string> ensures Listed(byEpic, group) == Where(v.filtered[..i + 1], TopTest(v, group)) {
      WhereStep(v.filtered, TopTest(v, group), i);
    }
  }

  lemma GroupsAdd(v: View, byEpic: GroupLists, i: nat, epic: Option<string>)
    requires i < |v.filtered| && GroupsHold(v, byEpic, i)
    requires IsTopRow(v, v.filtered[i]) && GroupOf(v, v.filtered[i]) == epic
    ensures GroupsHold(v, byEpic[epic := Listed(byEpic, epic) + [v.filtered[i]]], i + 1)
  {
    var more := byEpic[epic := Listed(byEpic, epic) + [v.filtered[i]]];
    forall group: Option<string> ensures Listed(more, group) == Where(v.filtered[..i + 1], TopTest(v, group)) {
      WhereStep(v.filtered, TopTest(v, group), i);
      assert Listed(byEpic, group) == Where(v.filtered[..i], TopTest(v, group));
    }
  }

  /** The headers in the order of their numbers, and the top rows under each. */
  method Groups(v: View) returns (epics: seq<Task>, byEpic: GroupLists)
    requires IsView(v)
    ensures epics == Epics(v) && forall e <- epics :: Some(e.id) in byEpic
    ensures forall group: Option<string> :: Listed(byEpic, group) == TopRows(v, group)
  {
    var byId := BuildIndex(v.tasks);
    byEpic := map[];
    var epicRows: seq<Task> := [];
    for i := 0 to |v.filtered|
      invariant epicRows == Where(v.filtered[..i], IsEpic)
      invariant GroupsHold(v, byEpic, i)
    {
      WhereStep(v.filtered, IsEpic, i);
      byEpic := GroupTask(v, byId, byEpic, i);
      if v.filtered[i].isEpic {
        epicRows := epicRows + [v.filtered[i]];
      }
    }
    assert v.filtered[..|v.filtered|] == v.filtered;
    byEpic := AddEmptyGroups(byEpic, epicRows);
    epics := Sorting.Sort(ByNumber, epicRows);
    SortedFrom(epicRows);
  }

  lemma SortedFrom(s: seq<Task>)
    ensures forall t <- Sorting.Sort(ByNumber, s) :: t in s
  {
    var r := Sorting.Sort(ByNumber, s);
    forall t | t in r ensures t in s {
      assert t in multiset(r) && t in multiset(s);
    }
  }

  /** One task of the grouping loop. */
  method GroupTask(v: View, byId: Index, byEpic: GroupLists, i: nat) returns (more: GroupLists)
    requires IsView(v) && byId == ById(v) && i < |v.filtered| && GroupsHold(v, byEpic, i)
    ensures GroupsHold(v, more, i + 1)
  {
    var t := v.filtered[i];
    if t.isEpic || (t.parent != "" && IsVisible(v, t.parent) && t.parent in byId && !byId[t.parent].isEpic) {
      GroupsSkip(v, byEpic, i);
      return byEpic;
    }
    IndexHas(v.tasks, t);
    var epic := FindEpicAncestor(byId, t);
    GroupsAdd(v, byEpic, i, epic);
    more := byEpic[epic := Listed(byEpic, epic) + [t]];
  }

  /** Every Epic gets a group, even an empty one. */
  method AddEmptyGroups(byEpic: GroupLists, epicRows: seq<Task>) returns (more: GroupLists)
    ensures forall group: Option<string> :: Listed(more, group) == Listed(byEpic, group)
    ensures forall e <- epicRows :: Some(e.id) in more
  {
    more := byEpic;
    for i := 0 to |epicRows|
      invariant forall group: Option<string> :: Listed(more, group) == Listed(byEpic, group)
      invariant forall j | 0 <= j < i :: Some(epicRows[j].id) in more
    {
      if Some(epicRows[i].id) !in more {
        more := more[Some(epicRows[i].id) := []];
      }
    }
  }
}
