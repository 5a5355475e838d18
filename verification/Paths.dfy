/** Paths, distances and the growing balls that a breadth-first search visits. */
module Paths {
  type Link = (string, string)

  ghost predicate IsPath(links: set<Link>, p: seq<string>) {
    |p| > 0 && forall i | 0 <= i < |p| - 1 :: (p[i], p[i + 1]) in links
  }

  ghost predicate PathBetween(links: set<Link>, from: string, to: string, p: seq<string>) {
    IsPath(links, p) && p[0] == from && p[|p| - 1] == to
  }

  /** The shortest path has `d` links. */
  ghost predicate Distance(links: set<Link>, from: string, to: string, d: nat) {
    && (exists p :: PathBetween(links, from, to, p) && |p| == d + 1)
    && forall p | PathBetween(links, from, to, p) :: |p| >= d + 1
  }

  ghost function Image(links: set<Link>, s: set<string>): set<string> {
    set l <- links | l.0 in s :: l.1
  }

  /** The links that do not enter a blocked node. */
  ghost function Avoiding(links: set<Link>, blocked: set<string>): set<Link> {
    set l | l in links && l.1 !in blocked
  }

  /** Everything within `n` links of `from`. */
  ghost function Ball(links: set<Link>, from: string, n: nat): (b: set<string>)
    ensures from in b
  {
    if n == 0 then {from}
    else Ball(links, from, n - 1) + Image(links, Ball(links, from, n - 1))
  }

  lemma {:induction false} BallHasPath(links: set<Link>, from: string, n: nat, x: string) returns (p: seq<string>)
    requires x in Ball(links, from, n)
    ensures PathBetween(links, from, x, p) && |p| <= n + 1
  {
    if n == 0 || x in Ball(links, from, n - 1) {
      p := [x];
      if n > 0 {
        p := BallHasPath(links, from, n - 1, x);
      }
    } else {
      var l :| l in links && l.0 in Ball(links, from, n - 1) && l.1 == x;
      var q := BallHasPath(links, from, n - 1, l.0);
      p := q + [x];
    }
  }

  lemma {:induction false} PathStaysInBall(links: set<Link>, from: string, x: string, p: seq<string>)
    requires PathBetween(links, from, x, p)
    ensures x in Ball(links, from, |p| - 1)
    decreases |p|
  {
    var n := |p| - 1;
    if n > 0 {
      PathStaysInBall(links, from, p[n - 1], p[..n]);
      assert (p[n - 1], p[n]) in links;
      assert x in Image(links, Ball(links, from, n - 1));
    }
  }

  /** What the search finds at depth `n`. */
  ghost function Shell(links: set<Link>, from: string, n: nat): set<string> {
    if n == 0 then {from} else Ball(links, from, n) - Ball(links, from, n - 1)
  }

  /** A shell is the unvisited part of the image of the shell before it. */
  lemma NextShell(links: set<Link>, from: string, n: nat)
    ensures Shell(links, from, n + 1) == Image(links, Shell(links, from, n)) - Ball(links, from, n)
  {}

  lemma BallGrows(links: set<Link>, from: string, m: nat, n: nat)
    requires m <= n
    ensures Ball(links, from, m) <= Ball(links, from, n)
  {}

  /** The shell of radius `d` is the set of nodes at distance `d`. */
  lemma ShellIsDistance(links: set<Link>, from: string, d: nat, x: string)
    requires d > 0
    ensures x in Shell(links, from, d) <==> Distance(links, from, x, d)
  {
    if x in Shell(links, from, d) {
      var p := BallHasPath(links, from, d, x);
      forall q | PathBetween(links, from, x, q) ensures |q| >= d + 1 {
        PathStaysInBall(links, from, x, q);
        if |q| - 1 <= d - 1 {
          BallGrows(links, from, |q| - 1, d - 1);
        }
      }
    }
    if Distance(links, from, x, d) {
      var p :| PathBetween(links, from, x, p) && |p| == d + 1;
      PathStaysInBall(links, from, x, p);
      if x in Ball(links, from, d - 1) {
        var q := BallHasPath(links, from, d - 1, x);
        assert false;
      }
    }
  }

  /** Away from the centre a shell stays out of the blocked nodes. */
  lemma ShellAvoids(links: set<Link>, blocked: set<string>, from: string, d: nat, x: string)
    requires d > 0 && x in Shell(Avoiding(links, blocked), from, d)
    ensures x !in blocked
  {}

  lemma AvoidingDistance(links: set<Link>, blocked: set<string>, from: string, d: nat, x: string)
    requires d > 0
    ensures var inner := Avoiding(links, blocked);
            x in Shell(inner, from, d) <==> x !in blocked && Distance(inner, from, x, d)
  {
    var inner := Avoiding(links, blocked);
    ShellIsDistance(inner, from, d, x);
    if x in Shell(inner, from, d) {
      ShellAvoids(links, blocked, from, d, x);
    }
  }

  /** Shells do not skip a radius. */
  lemma ShellsAreContiguous(links: set<Link>, from: string, d: nat, x: string) returns (y: string)
    requires x in Shell(links, from, d + 1)
    ensures y in Shell(links, from, d)
  {
    NextShell(links, from, d);
    var l :| l in links && l.0 in Shell(links, from, d) && l.1 == x;
    y := l.0;
  }

  lemma ImageOutsideCentre(links: set<Link>, from: string, s: set<string>)
    requires from in s
    ensures s + Image(Avoiding(links, {from}), s) == s + Image(links, s)
  {
    forall x | x in Image(links, s) && x != from ensures x in Image(Avoiding(links, {from}), s) {
      var l :| l in links && l.0 in s && l.1 == x;
      assert l in Avoiding(links, {from});
    }
  }

  ghost predicate SameBall(a: set<Link>, b: set<Link>, from: string, n: nat) {
    Ball(a, from, n) == Ball(b, from, n)
  }

  lemma SameStep(a: set<Link>, b: set<Link>, from: string, n: nat)
    requires n > 0 && SameBall(a, b, from, n - 1)
    requires var s := Ball(b, from, n - 1); s + Image(a, s) == s + Image(b, s)
    ensures SameBall(a, b, from, n)
  {}

  lemma CentreStep(links: set<Link>, from: string, n: nat)
    requires n > 0 && SameBall(Avoiding(links, {from}), links, from, n - 1)
    ensures SameBall(Avoiding(links, {from}), links, from, n)
  {
    ImageOutsideCentre(links, from, Ball(links, from, n - 1));
    SameStep(Avoiding(links, {from}), links, from, n);
  }

  /** Links back into the ball's centre do not matter. */
  lemma {:induction false} CentreIsNotReentered(links: set<Link>, from: string, n: nat)
    ensures SameBall(Avoiding(links, {from}), links, from, n)
  {
    if n > 0 {
      CentreIsNotReentered(links, from, n - 1);
      CentreStep(links, from, n);
    }
  }

  /** Once a shell is empty the ball is complete. */
  lemma {:induction false} EmptyShellIsFinal(links: set<Link>, from: string, m: nat, n: nat)
    requires 0 < m <= n && Shell(links, from, m) == {}
    ensures Ball(links, from, n) == Ball(links, from, m)
    decreases n - m
  {
    if m < n {
      NextShell(links, from, m);
      forall x | x in Ball(links, from, m + 1) ensures x in Ball(links, from, m) {
        assert x !in Shell(links, from, m + 1);
      }
      EmptyShellIsFinal(links, from, m + 1, n);
    }
  }

  lemma {:induction false} BallWithin(links: set<Link>, from: string, n: nat, all: set<string>)
    requires from in all && forall l <- links :: l.1 in all
    ensures Ball(links, from, n) <= all
  {
    if n > 0 {
      BallWithin(links, from, n - 1, all);
    }
  }
}
