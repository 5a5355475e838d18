/** Tasks with parents, and the search for the nearest Epic above a task. */
module EpicAncestors {
  import opened Results

  /** A task; the parent is the empty string when there is none. `number` is the end of its key. */
  datatype Task = Task(id: string, parent: string, isEpic: bool, number: int)

  type Index = map<string, Task>

  ghost predicate IsIndex(byId: Index) {
    forall id <- byId :: byId[id].id == id
  }

  function Parent(byId: Index, t: Task): Option<Task> {
    if t.parent != "" && t.parent in byId then Some(byId[t.parent]) else None
  }

  /** The task `n` steps up from `t`. */
  function Ancestor(byId: Index, t: Task, n: nat): Option<Task>
    decreases n
  {
    if n == 0 then Some(t)
    else match Parent(byId, t)
         case None => None
         case Some(p) => Ancestor(byId, p, n - 1)
  }

  ghost predicate IsFirstEpic(byId: Index, t: Task, n: nat, id: string) {
    && Ancestor(byId, t, n).Some? && Ancestor(byId, t, n).value.isEpic && Ancestor(byId, t, n).value.id == id
    && forall m | 0 <= m < n :: Ancestor(byId, t, m).Some? && !Ancestor(byId, t, m).value.isEpic
  }

  ghost predicate HasNoEpic(byId: Index, t: Task) {
    forall n: nat :: Ancestor(byId, t, n).Some? ==> !Ancestor(byId, t, n).value.isEpic
  }

  /** The Epic met first on the way up, or none if the way up, however long, meets none. */
  ghost predicate IsNearestEpic(byId: Index, t: Task, r: Option<string>) {
    match r
    case Some(id) => exists n: nat :: IsFirstEpic(byId, t, n, id)
    case None => HasNoEpic(byId, t)
  }

  /** The search from `t`, when the tasks of `seen` have been passed. */
  function EpicFrom(byId: Index, t: Task, seen: set<string>): Option<string>
    requires IsIndex(byId) && t.id in byId && byId[t.id] == t
    decreases byId.Keys - seen
  {
    if t.id in seen then None
    else if t.isEpic then Some(t.id)
    else match Parent(byId, t)
         case None => None
         case Some(p) => EpicFrom(byId, p, seen + {t.id})
  }

  function FindEpic(byId: Index, t: Task): Option<string>
    requires IsIndex(byId) && t.id in byId && byId[t.id] == t
  {
    EpicFrom(byId, t, {})
  }

  /** Ends on cyclic parents too, because no task is passed twice. */
  method FindEpicAncestor(byId: Index, t: Task) returns (epic: Option<string>)
    requires IsIndex(byId) && t.id in byId && byId[t.id] == t
    ensures IsNearestEpic(byId, t, epic) && epic == FindEpic(byId, t)
  {
    FindEpicIsNearest(byId, t);
    var cur := Some(t);
    var seen: set<string> := {};
    while cur.Some? && cur.value.id !in seen
      invariant cur.Some? ==> cur.value.id in byId && byId[cur.value.id] == cur.value
      invariant FindEpic(byId, t) == if cur.Some? then EpicFrom(byId, cur.value, seen) else None
      decreases byId.Keys - seen
    {
      seen := seen + {cur.value.id};
      if cur.value.isEpic {
        return Some(cur.value.id);
      }
      cur := if cur.value.parent != "" && cur.value.parent in byId then Some(byId[cur.value.parent]) else None;
    }
    return None;
  }

  // ---------- What is found is the nearest Epic ----------

  /** The passed tasks are no Epics, and their parents are passed too or come next. */
  predicate IsPassed(byId: Index, seen: set<string>, id: string, next: Option<Task>) {
    id in byId && !byId[id].isEpic &&
    (Parent(byId, byId[id]).None? || Parent(byId, byId[id]).value.id in seen || Parent(byId, byId[id]) == next)
  }

  ghost predicate ArePassed(byId: Index, seen: set<string>, next: Option<Task>) {
    forall id <- seen :: IsPassed(byId, seen, id, next)
  }

  lemma {:induction false} PassedCover(byId: Index, seen: set<string>, t: Task, n: nat)
    requires IsIndex(byId) && t.id in seen && t.id in byId && byId[t.id] == t && ArePassed(byId, seen, None)
    ensures Ancestor(byId, t, n).Some? ==> !Ancestor(byId, t, n).value.isEpic
    decreases n
  {
    assert IsPassed(byId, seen, t.id, None);
    if n > 0 && Parent(byId, t).Some? {
      PassedCover(byId, seen, Parent(byId, t).value, n - 1);
    }
  }

  lemma PassedTogether(byId: Index, seen: set<string>, t: Task)
    requires IsIndex(byId) && t.id in seen && t.id in byId && byId[t.id] == t && ArePassed(byId, seen, Some(t))
    ensures HasNoEpic(byId, t)
  {
    forall id | id in seen ensures IsPassed(byId, seen, id, None) {
      assert IsPassed(byId, seen, id, Some(t));
    }
    forall n: nat ensures Ancestor(byId, t, n).Some? ==> !Ancestor(byId, t, n).value.isEpic {
      PassedCover(byId, seen, t, n);
    }
  }

  lemma EpicAtOnce(byId: Index, t: Task)
    ensures t.isEpic ==> IsNearestEpic(byId, t, Some(t.id))
    ensures !t.isEpic && Parent(byId, t).None? ==> IsNearestEpic(byId, t, None)
  {
    if t.isEpic {
      assert IsFirstEpic(byId, t, 0, t.id);
    } else if Parent(byId, t).None? {
      forall n: nat ensures Ancestor(byId, t, n).Some? ==> !Ancestor(byId, t, n).value.isEpic {}
    }
  }

  /** Below a task that is no Epic the nearest Epic is its parent's. */
  lemma EpicOfParent(byId: Index, t: Task, r: Option<string>)
    requires !t.isEpic && Parent(byId, t).Some? && IsNearestEpic(byId, Parent(byId, t).value, r)
    ensures IsNearestEpic(byId, t, r)
  {
    var p := Parent(byId, t).value;
    if r.Some? {
      var n: nat :| IsFirstEpic(byId, p, n, r.value);
      forall m | 0 <= m < n + 1 ensures Ancestor(byId, t, m).Some? && !Ancestor(byId, t, m).value.isEpic {
        assert m > 0 ==> Ancestor(byId, t, m) == Ancestor(byId, p, m - 1);
      }
      assert Ancestor(byId, t, n + 1) == Ancestor(byId, p, n);
      assert IsFirstEpic(byId, t, n + 1, r.value);
    } else {
      forall n: nat ensures Ancestor(byId, t, n).Some? ==> !Ancestor(byId, t, n).value.isEpic {
        assert n > 0 ==> Ancestor(byId, t, n) == Ancestor(byId, p, n - 1);
      }
    }
  }

  lemma {:induction false} EpicFromIsNearest(byId: Index, t: Task, seen: set<string>)
    requires IsIndex(byId) && t.id in byId && byId[t.id] == t && ArePassed(byId, seen, Some(t))
    ensures IsNearestEpic(byId, t, EpicFrom(byId, t, seen))
    decreases byId.Keys - seen
  {
    if t.id in seen {
      PassedTogether(byId, seen, t);
    } else if t.isEpic || Parent(byId, t).None? {
      EpicAtOnce(byId, t);
    } else {
      EpicFromIsNearest(byId, Parent(byId, t).value, seen + {t.id});
      EpicOfParent(byId, t, EpicFrom(byId, t, seen));
    }
  }

  /** The search finds the nearest Epic among the task and its ancestors, if there is one. */
  lemma FindEpicIsNearest(byId: Index, t: Task)
    requires IsIndex(byId) && t.id in byId && byId[t.id] == t
    ensures IsNearestEpic(byId, t, FindEpic(byId, t))
  {
    EpicFromIsNearest(byId, t, {});
  }

  /** A task that is no Epic has the nearest Epic of its parent. */
  lemma FindEpicOfParent(byId: Index, t: Task)
    requires IsIndex(byId) && t.id in byId && byId[t.id] == t && !t.isEpic && Parent(byId, t).Some?
    ensures FindEpic(byId, t) == FindEpic(byId, Parent(byId, t).value)
  {
    var p := Parent(byId, t).value;
    FindEpicIsNearest(byId, p);
    FindEpicIsNearest(byId, t);
    EpicOfParent(byId, t, FindEpic(byId, p));
  }
}
