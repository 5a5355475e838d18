/** The order of the rows of the list view. */
module ListViewOrder {
  import opened Results
  import opened EpicAncestors
  import opened ListView
  import opened ListViewRows
  import Sorting

  // ---------- Order in a list ----------

  /** Some occurrence of `a` comes before one of `b`. */
  ghost predicate Before(s: seq<Task>, a: Task, b: Task) {
    exists i, j | 0 <= i < j < |s| :: s[i] == a && s[j] == b
  }

  ghost predicate InOrderOf(s: seq<Task>, rows: seq<Task>) {
    forall i, j | 0 <= i < j < |rows| :: Before(s, rows[i], rows[j])
  }

  lemma BeforeInLonger(s: seq<Task>, a: Task, b: Task)
    requires s != [] && Before(s[..|s| - 1], a, b)
    ensures Before(s, a, b)
  {
    var t := s[..|s| - 1];
    var i, j :| 0 <= i < j < |t| && t[i] == a && t[j] == b;
    assert s[i] == a && s[j] == b;
  }

  lemma BeforeLast(s: seq<Task>, a: Task)
    requires s != [] && a in s[..|s| - 1]
    ensures Before(s, a, s[|s| - 1])
  {
    var i :| 0 <= i < |s| - 1 && s[..|s| - 1][i] == a;
    assert s[i] == a;
  }

  /** Filtering keeps the order. */
  lemma {:induction false} WhereInOrder(s: seq<Task>, p: Task -> bool)
    ensures InOrderOf(s, Where(s, p))
  {
    if s != [] {
      var n := |s| - 1;
      var rows, init := Where(s, p), Where(s[..n], p);
      WhereInOrder(s[..n], p);
      forall i, j | 0 <= i < j < |rows| ensures Before(s, rows[i], rows[j]) {
        assert rows[i] == init[i];
        if j < |init| {
          assert Before(s[..n], init[i], init[j]);
          BeforeInLonger(s, rows[i], rows[j]);
        } else {
          WhereHas(s[..n], p, init[i]);
          BeforeLast(s, rows[i]);
        }
      }
    }
  }

  /** The headers rise with the numbers, and those of one number stand in the order of the tasks. */
  lemma HeadersRise(v: View, i: nat, j: nat)
    requires i < j < |Epics(v)|
    ensures Epics(v)[i].number <= Epics(v)[j].number
    ensures forall x :: Sorting.AgreeOn(ByNumber, x, Epics(v), Where(v.filtered, IsEpic))
  {
    var shown := Where(v.filtered, IsEpic);
    Sorting.SortSorts(ByNumber, shown);
    assert ByNumber(Epics(v)[i], Epics(v)[j]);
    forall x ensures Sorting.AgreeOn(ByNumber, x, Epics(v), shown) {
      Sorting.SortIsStable(ByNumber, shown, x);
    }
  }

  // ---------- The order of the ways down ----------

  /** A row comes before those below it, and before the rows that branch off after it. */
  ghost predicate Precedes(v: View, p: seq<Task>, q: seq<Task>) {
    p < q || exists k | 0 <= k < |p| && k < |q| :: p[..k] == q[..k] && Before(v.filtered, p[k], q[k])
  }

  /** The ways down to some rows, all of them through `path`. */
  ghost predicate AllLead(v: View, path: seq<Task>, rows: seq<Task>, ways: seq<seq<Task>>) {
    |rows| == |ways| && forall i | 0 <= i < |ways| :: LeadsTo(v, ways[i], rows[i]) && path < ways[i]
  }

  ghost predicate InTurn(v: View, ways: seq<seq<Task>>) {
    forall i, j | 0 <= i < j < |ways| :: Precedes(v, ways[i], ways[j])
  }

  /** The row above comes earlier, unless it is the one at the end of `path`. */
  ghost predicate HasParentBefore(path: seq<Task>, ways: seq<seq<Task>>, j: nat)
    requires j < |ways|
  {
    var n := |ways[j]| - 1;
    n <= |path| || exists i | 0 <= i < j :: ways[i] == ways[j][..n]
  }

  ghost predicate AllHaveParents(path: seq<Task>, ways: seq<seq<Task>>) {
    forall j | 0 <= j < |ways| :: HasParentBefore(path, ways, j)
  }

  ghost predicate AreBlock(v: View, path: seq<Task>, rows: seq<Task>, ways: seq<seq<Task>>) {
    AllLead(v, path, rows, ways) && InTurn(v, ways) && AllHaveParents(path, ways)
  }

  lemma PrefixIs(path: seq<Task>, way: seq<Task>)
    requires path <= way && |way| == |path| + 1
    ensures way[..|way| - 1] == path
  {}

  lemma TopHasParent(from: seq<Task>, path: seq<Task>, ways: seq<seq<Task>>, j: nat)
    requires j < |ways| && path < ways[j] && HasParentBefore(path, ways, j)
    ensures HasParentBefore(from, [path] + ways, j + 1)
  {
    var all, n := [path] + ways, |ways[j]| - 1;
    assert all[j + 1] == ways[j];
    if n <= |path| {
      PrefixIs(path, ways[j]);
      assert all[0] == ways[j][..n];
    } else {
      var i :| 0 <= i < j && ways[i] == ways[j][..n];
      assert all[i + 1] == ways[j][..n];
    }
  }

  lemma TopLeads(v: View, from: seq<Task>, path: seq<Task>, t: Task, rows: seq<Task>, ways: seq<seq<Task>>)
    requires LeadsTo(v, path, t) && from < path && AllLead(v, path, rows, ways)
    ensures AllLead(v, from, [t] + rows, [path] + ways) && AllThrough(path, [path] + ways)
  {
    var all, shown := [path] + ways, [t] + rows;
    forall i | 0 <= i < |all| ensures LeadsTo(v, all[i], shown[i]) && path <= all[i] && from < all[i] {
      if i > 0 {
        assert all[i] == ways[i - 1] && shown[i] == rows[i - 1];
      }
    }
  }

  lemma TopInTurn(v: View, path: seq<Task>, ways: seq<seq<Task>>)
    requires InTurn(v, ways) && forall i | 0 <= i < |ways| :: path < ways[i]
    ensures InTurn(v, [path] + ways)
  {
    var all := [path] + ways;
    forall i, j | 0 <= i < j < |all| ensures Precedes(v, all[i], all[j]) {
      assert all[j] == ways[j - 1];
      if i > 0 {
        assert all[i] == ways[i - 1];
      }
    }
  }

  lemma TopParents(from: seq<Task>, path: seq<Task>, ways: seq<seq<Task>>)
    requires from < path && |from| == |path| - 1
    requires AllHaveParents(path, ways) && forall i | 0 <= i < |ways| :: path < ways[i]
    ensures AllHaveParents(from, [path] + ways)
  {
    forall j | 0 <= j < |[path] + ways| ensures HasParentBefore(from, [path] + ways, j) {
      if j > 0 {
        TopHasParent(from, path, ways, j - 1);
      }
    }
  }

  ghost predicate AllThrough(way: seq<Task>, ways: seq<seq<Task>>) {
    forall i | 0 <= i < |ways| :: way <= ways[i]
  }

  /** A row in front of the rows below it. */
  lemma AddTop(v: View, from: seq<Task>, path: seq<Task>, t: Task, rows: seq<Task>, ways: seq<seq<Task>>)
    requires LeadsTo(v, path, t) && from < path && |from| == |path| - 1 && AreBlock(v, path, rows, ways)
    ensures AreBlock(v, from, [t] + rows, [path] + ways) && AllThrough(path, [path] + ways)
  {
    TopLeads(v, from, path, t, rows, ways);
    TopInTurn(v, path, ways);
    TopParents(from, path, ways);
  }

  ghost predicate AllBefore(v: View, c: Task, others: seq<Task>) {
    forall i | 0 <= i < |others| :: Before(v.filtered, c, others[i])
  }

  lemma AllBeforeAt(v: View, c: Task, others: seq<Task>, d: Task)
    requires AllBefore(v, c, others) && d in others
    ensures Before(v.filtered, c, d)
  {
    var i :| 0 <= i < |others| && others[i] == d;
    assert Before(v.filtered, c, others[i]);
  }

  lemma BranchesOff(v: View, path: seq<Task>, c: Task, p: seq<Task>, q: seq<Task>)
    requires path + [c] <= p && path <= q && |q| > |path| && Before(v.filtered, c, q[|path|])
    ensures Precedes(v, p, q)
  {
    var k := |path|;
    assert p[k] == (path + [c])[k] && p[..k] == path == q[..k];
  }

  lemma ParentInSecond(path: seq<Task>, a: seq<seq<Task>>, b: seq<seq<Task>>, j: nat)
    requires j < |b| && HasParentBefore(path, b, j)
    ensures HasParentBefore(path, a + b, |a| + j)
  {
    var all, n := a + b, |b[j]| - 1;
    assert all[|a| + j] == b[j];
    if n > |path| {
      var i :| 0 <= i < j && b[i] == b[j][..n];
      assert all[|a| + i] == b[j][..n];
    }
  }

  lemma ParentInFirst(path: seq<Task>, a: seq<seq<Task>>, b: seq<seq<Task>>, j: nat)
    requires j < |a| && HasParentBefore(path, a, j)
    ensures HasParentBefore(path, a + b, j)
  {
    var all, n := a + b, |a[j]| - 1;
    assert all[j] == a[j];
    if n > |path| {
      var i :| 0 <= i < j && a[i] == a[j][..n];
      assert all[i] == a[j][..n];
    }
  }

  ghost predicate BranchInto(path: seq<Task>, ways: seq<seq<Task>>, others: seq<Task>) {
    forall i | 0 <= i < |ways| :: |ways[i]| > |path| && ways[i][|path|] in others
  }

  lemma JoinLeads(v: View, path: seq<Task>, aRows: seq<Task>, a: seq<seq<Task>>, bRows: seq<Task>, b: seq<seq<Task>>)
    requires AllLead(v, path, aRows, a) && AllLead(v, path, bRows, b)
    ensures AllLead(v, path, aRows + bRows, a + b)
  {
    var all, rows := a + b, aRows + bRows;
    forall i | 0 <= i < |all| ensures LeadsTo(v, all[i], rows[i]) && path < all[i] {
      if i >= |a| {
        assert all[i] == b[i - |a|] && rows[i] == bRows[i - |a|];
      }
    }
  }

  lemma JoinInTurn(v: View, path: seq<Task>, c: Task, others: seq<Task>, a: seq<seq<Task>>, b: seq<seq<Task>>)
    requires InTurn(v, a) && AllThrough(path + [c], a) && AllBefore(v, c, others)
    requires InTurn(v, b) && BranchInto(path, b, others) && AllThrough(path, b)
    ensures InTurn(v, a + b)
  {
    var all := a + b;
    forall i, j | 0 <= i < j < |all| ensures Precedes(v, all[i], all[j]) {
      if i < |a| <= j {
        AllBeforeAt(v, c, others, b[j - |a|][|path|]);
        BranchesOff(v, path, c, a[i], b[j - |a|]);
      } else if |a| <= i {
        assert all[i] == b[i - |a|] && all[j] == b[j - |a|];
      }
    }
  }

  lemma JoinParents(path: seq<Task>, a: seq<seq<Task>>, b: seq<seq<Task>>)
    requires AllHaveParents(path, a) && AllHaveParents(path, b)
    ensures AllHaveParents(path, a + b)
  {
    forall j | 0 <= j < |a + b| ensures HasParentBefore(path, a + b, j) {
      if j < |a| {
        ParentInFirst(path, a, b, j);
      } else {
        ParentInSecond(path, a, b, j - |a|);
      }
    }
  }

  lemma JoinBranches(path: seq<Task>, c: Task, others: seq<Task>, a: seq<seq<Task>>, b: seq<seq<Task>>)
    requires AllThrough(path + [c], a) && BranchInto(path, b, others)
    ensures BranchInto(path, a + b, [c] + others)
  {
    var all := a + b;
    forall i | 0 <= i < |all| ensures |all[i]| > |path| && all[i][|path|] in [c] + others {
      if i < |a| {
        assert (path + [c])[|path|] == c && all[i] == a[i];
      } else {
        assert all[i] == b[i - |a|];
      }
    }
  }

  /** The rows of one child, and those of the children after it. */
  lemma JoinBlocks(v: View, path: seq<Task>, c: Task, others: seq<Task>, aRows: seq<Task>, a: seq<seq<Task>>,
                   bRows: seq<Task>, b: seq<seq<Task>>)
    requires AreBlock(v, path, aRows, a) && AllThrough(path + [c], a)
    requires AreBlock(v, path, bRows, b) && BranchInto(path, b, others) && AllBefore(v, c, others)
    ensures AreBlock(v, path, aRows + bRows, a + b) && BranchInto(path, a + b, [c] + others)
  {
    JoinLeads(v, path, aRows, a, bRows, b);
    JoinInTurn(v, path, c, others, a, b);
    JoinParents(path, a, b);
    JoinBranches(path, c, others, a, b);
  }

  lemma {:induction false} RowWays(v: View, expanded: set<string>, path: seq<Task>, t: Task)
    returns (ways: seq<seq<Task>>)
    requires HasNoLoop(v) && LeadsTo(v, path, t)
    ensures AreBlock(v, path[..|path| - 1], RenderRow(v, expanded, path, t), ways) && AllThrough(path, ways)
    decreases Room(v, path), 1, 0
  {
    var below: seq<seq<Task>> := [];
    var rows: seq<Task> := [];
    if t.id in expanded {
      ChildPaths(v, path);
      WhereInOrder(v.filtered, ChildTest(t.id));
      rows := RenderRows(v, expanded, path, Children(v, t.id));
      below := RowsWays(v, expanded, path, Children(v, t.id));
    }
    AddTop(v, path[..|path| - 1], path, t, rows, below);
    ways := [path] + below;
  }

  lemma {:induction false} RowsWays(v: View, expanded: set<string>, path: seq<Task>, rows: seq<Task>)
    returns (ways: seq<seq<Task>>)
    requires HasNoLoop(v) && IsPath(v, path) && (forall c <- rows :: IsPath(v, path + [c]))
    requires InOrderOf(v.filtered, rows)
    ensures AreBlock(v, path, RenderRows(v, expanded, path, rows), ways) && BranchInto(path, ways, rows)
    decreases Room(v, path), 0, |rows|
  {
    ways := [];
    if rows != [] {
      var c, others := rows[0], rows[1..];
      assert (path + [c])[..|path|] == path;
      FirstBefore(v, rows);
      var first := RowWays(v, expanded, path + [c], c);
      var rest := RowsWays(v, expanded, path, others);
      JoinBlocks(v, path, c, others, RenderRow(v, expanded, path + [c], c), first,
                 RenderRows(v, expanded, path, others), rest);
      ways := first + rest;
      assert [c] + others == rows;
    }
  }

  lemma FirstBefore(v: View, rows: seq<Task>)
    requires rows != [] && InOrderOf(v.filtered, rows)
    ensures AllBefore(v, rows[0], rows[1..]) && InOrderOf(v.filtered, rows[1..])
  {
    forall i | 0 <= i < |rows[1..]| ensures Before(v.filtered, rows[0], rows[1..][i]) {
      assert Before(v.filtered, rows[0], rows[i + 1]);
    }
    forall i, j | 0 <= i < j < |rows[1..]| ensures Before(v.filtered, rows[1..][i], rows[1..][j]) {
      assert Before(v.filtered, rows[i + 1], rows[j + 1]);
    }
  }

  // ---------- The sections ----------

  /** A task belongs under the nearest Epic above it among all tasks, shown or not. */
  lemma GroupIsNearestEpic(v: View, t: Task)
    requires IsView(v) && t in v.tasks
    ensures IsNearestEpic(ById(v), t, GroupOf(v, t))
    ensures forall u :: u in v.tasks <==> u.id in ById(v) && ById(v)[u.id] == u
  {
    forall u ensures u in v.tasks <==> u.id in ById(v) && ById(v)[u.id] == u {
      IndexHas(v.tasks, u);
    }
    FindEpicIsNearest(ById(v), t);
  }

  /** Where a row stands: the section of its header, and its way down there, which is empty for the header.
    * The section without a header comes after those of the Epics. */
  datatype Place = Place(section: nat, way: seq<Task>)

  function SectionGroup(epics: seq<Task>, section: nat): Option<string> {
    if section < |epics| then Some(epics[section].id) else None
  }

  predicate StandsAt(v: View, epics: seq<Task>, row: Task, place: Place) {
    if place.way == [] then place.section < |epics| && row == epics[place.section]
    else LeadsTo(v, place.way, row) && GroupOf(v, place.way[0]) == SectionGroup(epics, place.section)
  }

  ghost predicate AllStand(v: View, epics: seq<Task>, rows: seq<Task>, places: seq<Place>) {
    |rows| == |places| && forall i | 0 <= i < |places| :: StandsAt(v, epics, rows[i], places[i])
  }

  ghost predicate ComesBefore(v: View, p: Place, q: Place) {
    p.section < q.section || (p.section == q.section && Precedes(v, p.way, q.way))
  }

  ghost predicate InPlace(v: View, places: seq<Place>) {
    forall i, j | 0 <= i < j < |places| :: ComesBefore(v, places[i], places[j])
  }

  /** Before a row come the row above it, or its header, if it has one. */
  ghost predicate HasAbove(last: nat, places: seq<Place>, j: nat)
    requires j < |places|
  {
    var n := |places[j].way|;
    || n == 0 || (n == 1 && places[j].section == last)
    || exists i | 0 <= i < j :: places[i] == Place(places[j].section, places[j].way[..n - 1])
  }

  ghost predicate AllHaveAbove(last: nat, places: seq<Place>) {
    forall j | 0 <= j < |places| :: HasAbove(last, places, j)
  }

  ghost predicate InSections(places: seq<Place>, from: nat, to: nat) {
    forall i | 0 <= i < |places| :: from <= places[i].section < to
  }

  ghost predicate AreSections(v: View, epics: seq<Task>, from: nat, to: nat, rows: seq<Task>, places: seq<Place>) {
    && AllStand(v, epics, rows, places) && InPlace(v, places)
    && AllHaveAbove(|epics|, places) && InSections(places, from, to)
  }

  function PlacesOf(section: nat, ways: seq<seq<Task>>): seq<Place> {
    seq(|ways|, i requires 0 <= i < |ways| => Place(section, ways[i]))
  }

  lemma BodyWays(v: View, expanded: set<string>, group: Option<string>) returns (ways: seq<seq<Task>>)
    requires HasNoLoop(v)
    ensures AreBlock(v, [], GroupBody(v, expanded, group), ways)
    ensures forall i | 0 <= i < |ways| :: |ways[i]| > 0 && GroupOf(v, ways[i][0]) == group
  {
    TopPaths(v, group);
    WhereInOrder(v.filtered, TopTest(v, group));
    ways := RowsWays(v, expanded, [], TopRows(v, group));
    forall i | 0 <= i < |ways| ensures |ways[i]| > 0 && GroupOf(v, ways[i][0]) == group {
      TopPath(v, group, ways[i][0]);
    }
  }

  /** The body of the last section has no header above it. */
  lemma LastSection(v: View, epics: seq<Task>, rows: seq<Task>, ways: seq<seq<Task>>)
    requires AreBlock(v, [], rows, ways)
    requires forall i | 0 <= i < |ways| :: |ways[i]| > 0 && GroupOf(v, ways[i][0]) == None
    ensures AreSections(v, epics, |epics|, |epics| + 1, rows, PlacesOf(|epics|, ways))
  {
    var places := PlacesOf(|epics|, ways);
    forall j | 0 <= j < |places| ensures HasAbove(|epics|, places, j) {
      assert HasParentBefore([], ways, j);
      if |ways[j]| > 1 {
        var i :| 0 <= i < j && ways[i] == ways[j][..|ways[j]| - 1];
        assert places[i] == Place(|epics|, ways[j][..|ways[j]| - 1]);
      }
    }
  }

  /** The same block seen as below a header that is not part of the way. */
  lemma HeaderAbove(last: nat, section: nat, ways: seq<seq<Task>>, j: nat)
    requires j < |ways| && |ways[j]| > 0 && HasParentBefore([], ways, j)
    ensures HasAbove(last, [Place(section, [])] + PlacesOf(section, ways), j + 1)
  {
    var places, n := [Place(section, [])] + PlacesOf(section, ways), |ways[j]| - 1;
    assert places[j + 1] == Place(section, ways[j]);
    if n == 0 {
      assert places[0] == Place(section, ways[j][..0]);
    } else {
      var i :| 0 <= i < j && ways[i] == ways[j][..n];
      assert places[i + 1] == Place(section, ways[j][..n]);
    }
  }

  lemma HeadedInPlace(v: View, section: nat, ways: seq<seq<Task>>)
    requires InTurn(v, ways) && forall i | 0 <= i < |ways| :: |ways[i]| > 0
    ensures InPlace(v, [Place(section, [])] + PlacesOf(section, ways))
  {
    var places := [Place(section, [])] + PlacesOf(section, ways);
    forall i, j | 0 <= i < j < |places| ensures ComesBefore(v, places[i], places[j]) {
      assert places[j] == Place(section, ways[j - 1]);
      if i > 0 {
        assert places[i] == Place(section, ways[i - 1]);
      }
    }
  }

  lemma HeadedStand(v: View, epics: seq<Task>, k: nat, rows: seq<Task>, ways: seq<seq<Task>>)
    requires k < |epics| && AllLead(v, [], rows, ways)
    requires forall i | 0 <= i < |ways| :: |ways[i]| > 0 && GroupOf(v, ways[i][0]) == Some(epics[k].id)
    ensures AllStand(v, epics, [epics[k]] + rows, [Place(k, [])] + PlacesOf(k, ways))
  {
    var places, shown := [Place(k, [])] + PlacesOf(k, ways), [epics[k]] + rows;
    forall i | 0 <= i < |places| ensures StandsAt(v, epics, shown[i], places[i]) {
      if i > 0 {
        assert places[i] == Place(k, ways[i - 1]) && shown[i] == rows[i - 1];
      }
    }
  }

  lemma HeadedAbove(last: nat, section: nat, ways: seq<seq<Task>>)
    requires AllHaveParents([], ways) && forall i | 0 <= i < |ways| :: |ways[i]| > 0
    ensures AllHaveAbove(last, [Place(section, [])] + PlacesOf(section, ways))
    ensures InSections([Place(section, [])] + PlacesOf(section, ways), section, section + 1)
  {
    var places := [Place(section, [])] + PlacesOf(section, ways);
    forall j | 0 <= j < |places| ensures HasAbove(last, places, j) {
      if j > 0 {
        HeaderAbove(last, section, ways, j - 1);
      }
    }
  }

  /** A header and the body below it, if it is open. */
  lemma HeadedSection(v: View, epics: seq<Task>, k: nat, rows: seq<Task>, ways: seq<seq<Task>>)
    requires k < |epics| && AreBlock(v, [], rows, ways)
    requires forall i | 0 <= i < |ways| :: |ways[i]| > 0 && GroupOf(v, ways[i][0]) == Some(epics[k].id)
    ensures AreSections(v, epics, k, k + 1, [epics[k]] + rows, [Place(k, [])] + PlacesOf(k, ways))
  {
    HeadedStand(v, epics, k, rows, ways);
    HeadedInPlace(v, k, ways);
    HeadedAbove(|epics|, k, ways);
  }

  lemma AboveInLonger(last: nat, a: seq<Place>, b: seq<Place>)
    requires AllHaveAbove(last, a) && AllHaveAbove(last, b)
    ensures AllHaveAbove(last, a + b)
  {
    var all := a + b;
    forall j | 0 <= j < |all| ensures HasAbove(last, all, j) {
      var h := if j < |a| then j else j - |a|;
      var part := if j < |a| then a else b;
      assert HasAbove(last, part, h) && all[j] == part[h];
      var n := |part[h].way|;
      if i :| 0 <= i < h && n > 0 && part[i] == Place(part[h].section, part[h].way[..n - 1]) {
        assert all[if j < |a| then i else i + |a|] == part[i];
      }
    }
  }

  lemma JoinInPlace(v: View, a: seq<Place>, b: seq<Place>, from: nat, middle: nat, to: nat)
    requires InPlace(v, a) && InPlace(v, b) && InSections(a, from, middle) && InSections(b, middle, to)
    requires from <= middle <= to
    ensures InPlace(v, a + b) && InSections(a + b, from, to)
  {
    var all := a + b;
    forall i, j | 0 <= i < j < |all| ensures ComesBefore(v, all[i], all[j]) {
      if i >= |a| {
        assert all[i] == b[i - |a|] && all[j] == b[j - |a|];
      }
    }
  }

  lemma JoinSections(v: View, epics: seq<Task>, from: nat, middle: nat, to: nat, aRows: seq<Task>, a: seq<Place>,
                     bRows: seq<Task>, b: seq<Place>)
    requires from <= middle <= to
    requires AreSections(v, epics, from, middle, aRows, a) && AreSections(v, epics, middle, to, bRows, b)
    ensures AreSections(v, epics, from, to, aRows + bRows, a + b)
  {
    AboveInLonger(|epics|, a, b);
    JoinInPlace(v, a, b, from, middle, to);
    JoinStand(v, epics, aRows, a, bRows, b);
  }

  lemma JoinStand(v: View, epics: seq<Task>, aRows: seq<Task>, a: seq<Place>, bRows: seq<Task>, b: seq<Place>)
    requires AllStand(v, epics, aRows, a) && AllStand(v, epics, bRows, b)
    ensures AllStand(v, epics, aRows + bRows, a + b)
  {
    var all, rows := a + b, aRows + bRows;
    forall i | 0 <= i < |all| ensures StandsAt(v, epics, rows[i], all[i]) {
      if i >= |a| {
        assert all[i] == b[i - |a|] && rows[i] == bRows[i - |a|];
      }
    }
  }

  lemma OneSection(v: View, expanded: set<string>, epics: seq<Task>, k: nat) returns (places: seq<Place>)
    requires HasNoLoop(v) && k < |epics|
    ensures var body := if epics[k].id in expanded then GroupBody(v, expanded, Some(epics[k].id)) else [];
            AreSections(v, epics, k, k + 1, [epics[k]] + body, places)
  {
    var body: seq<Task> := [];
    var ways: seq<seq<Task>> := [];
    if epics[k].id in expanded {
      body := GroupBody(v, expanded, Some(epics[k].id));
      ways := BodyWays(v, expanded, Some(epics[k].id));
    }
    HeadedSection(v, epics, k, body, ways);
    places := [Place(k, [])] + PlacesOf(k, ways);
  }

  lemma {:induction false} SectionPlaces(v: View, expanded: set<string>, epics: seq<Task>, k: nat)
    returns (places: seq<Place>)
    requires HasNoLoop(v) && k <= |epics|
    ensures AreSections(v, epics, k, |epics|, EpicSections(v, expanded, epics[k..]), places)
    decreases |epics| - k
  {
    places := [];
    if k < |epics| {
      var first := OneSection(v, expanded, epics, k);
      var rest := SectionPlaces(v, expanded, epics, k + 1);
      var body := if epics[k].id in expanded then GroupBody(v, expanded, Some(epics[k].id)) else [];
      assert epics[k..][1..] == epics[k + 1..];
      JoinSections(v, epics, k, k + 1, |epics|, [epics[k]] + body, first,
                   EpicSections(v, expanded, epics[k + 1..]), rest);
      places := first + rest;
    }
  }

  /** The rows of the whole table in their places: section by section in the order of the headers, each header
    * before its rows, the rows without an Epic last; in a section the rows above each row before it, and
    * rows with a common parent in the order of the tasks, each with all that is below it. */
  lemma RowsStandInPlace(v: View, expanded: set<string>) returns (places: seq<Place>)
    requires HasNoLoop(v)
    ensures AreSections(v, Epics(v), 0, |Epics(v)| + 1, Rows(v, expanded), places)
  {
    var epics := Epics(v);
    assert epics[0..] == epics;
    var first := SectionPlaces(v, expanded, epics, 0);
    var ways: seq<seq<Task>> := [];
    var body: seq<Task> := [];
    if NO_EPIC in expanded {
      body := GroupBody(v, expanded, None);
      ways := BodyWays(v, expanded, None);
    }
    LastSection(v, epics, body, ways);
    JoinSections(v, epics, 0, |epics|, |epics| + 1, EpicSections(v, expanded, epics), first,
                 body, PlacesOf(|epics|, ways));
    places := first + PlacesOf(|epics|, ways);
  }
}
