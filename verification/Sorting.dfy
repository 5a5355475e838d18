/** Stable sorting by a consistent comparison, the meaning of the built-in array sort. */
module Sorting {
  ghost predicate TotalPreorder<T(!new)>(leq: (T, T) -> bool) {
    && (forall a, b :: leq(a, b) || leq(b, a))
    && forall a, b, c :: leq(a, b) && leq(b, c) ==> leq(a, c)
  }

  ghost predicate SortedBy<T>(leq: (T, T) -> bool, s: seq<T>) {
    forall i, j | 0 <= i < j < |s| :: leq(s[i], s[j])
  }

  /** Puts `x` behind every element that is not greater. */
  function Insert<T>(leq: (T, T) -> bool, s: seq<T>, x: T): (r: seq<T>)
    ensures multiset(r) == multiset(s) + multiset{x}
  {
    if s == [] then [x]
    else if leq(s[0], x) then
      assert s == [s[0]] + s[1..];
      [s[0]] + Insert(leq, s[1..], x)
    else [x] + s
  }

  function Sort<T>(leq: (T, T) -> bool, s: seq<T>): (r: seq<T>)
    ensures multiset(r) == multiset(s)
  {
    if s == [] then []
    else
      var n := |s| - 1;
      assert s == s[..n] + [s[n]];
      Insert(leq, Sort(leq, s[..n]), s[n])
  }

  lemma {:induction false} InsertSorted<T(!new)>(leq: (T, T) -> bool, s: seq<T>, x: T)
    requires TotalPreorder(leq) && SortedBy(leq, s)
    ensures SortedBy(leq, Insert(leq, s, x))
  {
    if s != [] && leq(s[0], x) {
      InsertSorted(leq, s[1..], x);
      var r := Insert(leq, s[1..], x);
      forall y | y in r ensures leq(s[0], y) {
        assert y in multiset(r);
        assert y == x || y in s[1..];
      }
    }
  }

  lemma {:induction false} SortSorts<T(!new)>(leq: (T, T) -> bool, s: seq<T>)
    requires TotalPreorder(leq)
    ensures SortedBy(leq, Sort(leq, s))
  {
    if s != [] {
      var n := |s| - 1;
      SortSorts(leq, s[..n]);
      InsertSorted(leq, Sort(leq, s[..n]), s[n]);
    }
  }

  /** The element if it compares equal to `x`. */
  function IfAlike<T>(leq: (T, T) -> bool, x: T, y: T): seq<T> {
    if leq(x, y) && leq(y, x) then [y] else []
  }

  /** The elements that compare equal to `x`, in order. */
  function Alike<T>(leq: (T, T) -> bool, x: T, s: seq<T>): seq<T> {
    if s == [] then [] else IfAlike(leq, x, s[0]) + Alike(leq, x, s[1..])
  }

  lemma AlikeFirst<T>(leq: (T, T) -> bool, x: T, y: T, s: seq<T>)
    ensures Alike(leq, x, [y] + s) == IfAlike(leq, x, y) + Alike(leq, x, s)
  {
    assert ([y] + s)[1..] == s;
  }

  lemma Regroup<T>(a: seq<T>, b: seq<T>, c: seq<T>)
    ensures a + (b + c) == a + b + c
  {}

  lemma {:induction false} AlikeConcat<T>(leq: (T, T) -> bool, x: T, a: seq<T>, b: seq<T>)
    ensures Alike(leq, x, a + b) == Alike(leq, x, a) + Alike(leq, x, b)
  {
    if a == [] {
      assert a + b == b;
    } else {
      AlikeConcat(leq, x, a[1..], b);
      Regroup([a[0]], a[1..], b);
      AlikeFirst(leq, x, a[0], a[1..] + b);
      assert [a[0]] + a[1..] == a;
      Regroup(IfAlike(leq, x, a[0]), Alike(leq, x, a[1..]), Alike(leq, x, b));
    }
  }

  lemma AlikeLast<T>(leq: (T, T) -> bool, x: T, a: seq<T>, y: T)
    ensures Alike(leq, x, a + [y]) == Alike(leq, x, a) + IfAlike(leq, x, y)
  {
    AlikeConcat(leq, x, a, [y]);
    AlikeFirst(leq, x, y, []);
    assert [y] + [] == [y];
  }

  lemma {:induction false} NoneAlike<T>(leq: (T, T) -> bool, x: T, s: seq<T>)
    requires forall i | 0 <= i < |s| :: !leq(s[i], x)
    ensures Alike(leq, x, s) == []
  {
    if s != [] {
      NoneAlike(leq, x, s[1..]);
    }
  }

  lemma NothingBelow<T(!new)>(leq: (T, T) -> bool, s: seq<T>, y: T, x: T)
    requires TotalPreorder(leq) && SortedBy(leq, s) && s != [] && !leq(s[0], y) && leq(x, y)
    ensures forall i | 0 <= i < |s| :: !leq(s[i], x)
  {
    forall i | 0 <= i < |s| ensures !leq(s[i], x) {
      var z := s[i];
      assert i == 0 || leq(s[0], z);
      assert leq(z, x) ==> leq(z, y);
    }
  }

  lemma FrontStable<T(!new)>(leq: (T, T) -> bool, s: seq<T>, y: T, x: T)
    requires TotalPreorder(leq) && SortedBy(leq, s) && s != [] && !leq(s[0], y)
    ensures Alike(leq, x, [y] + s) == Alike(leq, x, s) + IfAlike(leq, x, y)
  {
    AlikeFirst(leq, x, y, s);
    if leq(x, y) {
      NothingBelow(leq, s, y, x);
      NoneAlike(leq, x, s);
    }
  }

  lemma {:induction false} InsertStable<T(!new)>(leq: (T, T) -> bool, s: seq<T>, y: T, x: T)
    requires TotalPreorder(leq) && SortedBy(leq, s)
    ensures Alike(leq, x, Insert(leq, s, y)) == Alike(leq, x, s) + IfAlike(leq, x, y)
  {
    if s == [] {
    } else if leq(s[0], y) {
      var rest := Insert(leq, s[1..], y);
      InsertStable(leq, s[1..], y, x);
      AlikeFirst(leq, x, s[0], rest);
      Regroup(IfAlike(leq, x, s[0]), Alike(leq, x, s[1..]), IfAlike(leq, x, y));
    } else {
      FrontStable(leq, s, y, x);
    }
  }

  /** Both lists have the elements that compare equal to `x` in the same order. */
  ghost predicate AgreeOn<T>(leq: (T, T) -> bool, x: T, a: seq<T>, b: seq<T>) {
    Alike(leq, x, a) == Alike(leq, x, b)
  }

  lemma StableStep<T(!new)>(leq: (T, T) -> bool, sorted: seq<T>, init: seq<T>, y: T, x: T)
    requires TotalPreorder(leq) && SortedBy(leq, sorted) && AgreeOn(leq, x, sorted, init)
    ensures AgreeOn(leq, x, Insert(leq, sorted, y), init + [y])
  {
    InsertStable(leq, sorted, y, x);
    AlikeLast(leq, x, init, y);
  }

  lemma SortUnfolds<T(!new)>(leq: (T, T) -> bool, s: seq<T>)
    requires s != []
    ensures Sort(leq, s) == Insert(leq, Sort(leq, s[..|s| - 1]), s[|s| - 1])
  {}

  lemma SplitLast<T>(s: seq<T>)
    requires s != []
    ensures s == s[..|s| - 1] + [s[|s| - 1]]
  {}

  lemma StableSort<T(!new)>(leq: (T, T) -> bool, s: seq<T>, x: T)
    requires TotalPreorder(leq) && s != [] && AgreeOn(leq, x, Sort(leq, s[..|s| - 1]), s[..|s| - 1])
    ensures AgreeOn(leq, x, Sort(leq, s), s)
  {
    var n := |s| - 1;
    SortUnfolds(leq, s);
    SplitLast(s);
    SortSorts(leq, s[..n]);
    StableStep(leq, Sort(leq, s[..n]), s[..n], s[n], x);
  }

  /** Elements that compare equal keep the order in which they came. */
  lemma {:induction false} SortIsStable<T(!new)>(leq: (T, T) -> bool, s: seq<T>, x: T)
    requires TotalPreorder(leq)
    ensures AgreeOn(leq, x, Sort(leq, s), s)
  {
    if s != [] {
      SortIsStable(leq, s[..|s| - 1], x);
      StableSort(leq, s, x);
    }
  }
}
