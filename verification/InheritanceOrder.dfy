/**
  The precedence list of a table: its superclasses unfolded in preorder, of which
  the last of every class is kept.
 */
module InheritanceOrder {
  import opened Basics

  /** pg_inherits: the direct superclasses of every relation in the order of inhseqno. */
  type Graph = map<Oid, seq<Oid>>

  // ---------------------------------------------------------------- ancestors

  /** Each class of the path has the next one as a direct superclass. */
  ghost predicate Path(g: Graph, p: seq<Oid>) {
    p != [] && forall i: nat | i + 1 < |p| :: Link(g, p[i], p[i + 1])
  }

  ghost predicate Link(g: Graph, x: Oid, y: Oid) { x in g && y in g[x] }

  ghost predicate Ancestor(g: Graph, x: Oid, y: Oid) {
    exists p :: PathBetween(g, p, x, y)
  }

  ghost predicate PathBetween(g: Graph, p: seq<Oid>, x: Oid, y: Oid) {
    |p| >= 2 && Path(g, p) && p[0] == x && p[|p| - 1] == y
  }

  ghost predicate Acyclic(g: Graph) { forall x: Oid :: !Ancestor(g, x, x) }

  /** Every superclass has a smaller rank, such as its place in the order of creation. */
  ghost predicate Ranked(g: Graph, rank: Oid -> nat) {
    forall x, y | Link(g, x, y) :: y in g && rank(y) < rank(x)
  }

  lemma {:induction false} PathClimbs(g: Graph, rank: Oid -> nat, p: seq<Oid>, i: nat, j: nat)
    requires Ranked(g, rank) && Path(g, p) && i < j < |p|
    ensures rank(p[j]) < rank(p[i])
    decreases j
  {
    assert Link(g, p[j - 1], p[j]);
    if i < j - 1 { PathClimbs(g, rank, p, i, j - 1); }
  }

  lemma RankedIsAcyclic(g: Graph, rank: Oid -> nat)
    requires Ranked(g, rank)
    ensures Acyclic(g)
  {
    forall x: Oid ensures !Ancestor(g, x, x) {
      if Ancestor(g, x, x) {
        var p :| PathBetween(g, p, x, x);
        PathClimbs(g, rank, p, 0, |p| - 1);
      }
    }
  }

  lemma LinkIsAncestor(g: Graph, x: Oid, y: Oid)
    requires Link(g, x, y)
    ensures Ancestor(g, x, y)
  {
    assert PathBetween(g, [x, y], x, y);
  }

  lemma AncestorStep(g: Graph, x: Oid, y: Oid, z: Oid)
    requires Link(g, x, y) && Ancestor(g, y, z)
    ensures Ancestor(g, x, z)
  {
    var p :| PathBetween(g, p, y, z);
    var q := [x] + p;
    assert forall i: nat | i + 1 < |q| :: Link(g, q[i], q[i + 1]) by {
      forall i: nat | i + 1 < |q| ensures Link(g, q[i], q[i + 1]) {
        if i > 0 { assert Link(g, p[i - 1], p[i]); }
      }
    }
    assert PathBetween(g, q, x, z);
  }

  lemma AncestorFirst(g: Graph, x: Oid, z: Oid) returns (y: Oid)
    requires Ancestor(g, x, z)
    ensures Link(g, x, y) && (y == z || Ancestor(g, y, z))
  {
    var p :| PathBetween(g, p, x, z);
    y := p[1];
    assert Link(g, p[0], p[1]);
    if |p| > 2 {
      var q := p[1..];
      forall i: nat | i + 1 < |q| ensures Link(g, q[i], q[i + 1]) { assert Link(g, p[i + 1], p[i + 2]); }
      assert PathBetween(g, q, y, z);
    }
  }

  // ---------------------------------------------------------------- preorder

  ghost predicate Known(g: Graph, rank: Oid -> nat, n: nat, xs: seq<Oid>) {
    forall x | x in xs :: x in g && rank(x) < n
  }

  lemma ParentsKnown(g: Graph, rank: Oid -> nat, x: Oid)
    requires Ranked(g, rank) && x in g
    ensures Known(g, rank, rank(x), g[x])
  {
    forall y | y in g[x] ensures y in g && rank(y) < rank(x) {
      assert Link(g, x, y);
    }
  }

  /** Each class followed by its superclasses, recursively. */
  ghost function Unfold(g: Graph, rank: Oid -> nat, n: nat, xs: seq<Oid>): seq<Oid>
    requires Ranked(g, rank) && Known(g, rank, n, xs)
    decreases n, |xs|
  {
    if xs == [] then []
    else
      ParentsKnown(g, rank, xs[0]);
      [xs[0]] + (Unfold(g, rank, rank(xs[0]), g[xs[0]]) + Unfold(g, rank, n, xs[1..]))
  }

  lemma {:induction false} UnfoldBound(g: Graph, rank: Oid -> nat, n: nat, m: nat, xs: seq<Oid>)
    requires Ranked(g, rank) && Known(g, rank, n, xs) && Known(g, rank, m, xs)
    ensures Unfold(g, rank, n, xs) == Unfold(g, rank, m, xs)
    decreases |xs|
  {
    if xs != [] { UnfoldBound(g, rank, n, m, xs[1..]); }
  }

  lemma {:induction false} UnfoldAppend(g: Graph, rank: Oid -> nat, n: nat, xs: seq<Oid>, ys: seq<Oid>)
    requires Ranked(g, rank) && Known(g, rank, n, xs) && Known(g, rank, n, ys)
    ensures Known(g, rank, n, xs + ys)
    ensures Unfold(g, rank, n, xs + ys) == Unfold(g, rank, n, xs) + Unfold(g, rank, n, ys)
    decreases |xs|
  {
    if xs == [] {
      assert xs + ys == ys;
    } else {
      UnfoldAppend(g, rank, n, xs[1..], ys);
      ParentsKnown(g, rank, xs[0]);
      assert (xs + ys)[1..] == xs[1..] + ys && (xs + ys)[0] == xs[0];
      Regroup(xs[0], Unfold(g, rank, rank(xs[0]), g[xs[0]]), Unfold(g, rank, n, xs[1..]), Unfold(g, rank, n, ys));
    }
  }

  lemma Regroup(x: Oid, s: seq<Oid>, t: seq<Oid>, u: seq<Oid>)
    ensures [x] + (s + (t + u)) == ([x] + (s + t)) + u
  {
  }

  lemma {:induction false} UnfoldLonger(g: Graph, rank: Oid -> nat, n: nat, xs: seq<Oid>)
    requires Ranked(g, rank) && Known(g, rank, n, xs)
    ensures |xs| <= |Unfold(g, rank, n, xs)|
    decreases |xs|
  {
    if xs != [] { UnfoldLonger(g, rank, n, xs[1..]); }
  }

  /** A step of the worklist: the superclasses of its first class put right behind it. */
  lemma WorklistStep(g: Graph, rank: Oid -> nat, n: nat, xs: seq<Oid>)
    requires Ranked(g, rank) && Known(g, rank, n, xs) && xs != []
    ensures Known(g, rank, n, g[xs[0]] + xs[1..])
    ensures Unfold(g, rank, n, xs) == [xs[0]] + Unfold(g, rank, n, g[xs[0]] + xs[1..])
  {
    ParentsKnown(g, rank, xs[0]);
    assert Known(g, rank, n, g[xs[0]]);
    UnfoldBound(g, rank, n, rank(xs[0]), g[xs[0]]);
    UnfoldAppend(g, rank, n, g[xs[0]], xs[1..]);
  }

  /** x is one of the classes, or a superclass of one. */
  ghost predicate Covers(g: Graph, xs: seq<Oid>, y: Oid) {
    exists x :: x in xs && (x == y || Ancestor(g, x, y))
  }

  lemma {:induction false} UnfoldCovers(g: Graph, rank: Oid -> nat, n: nat, xs: seq<Oid>, y: Oid)
    requires Ranked(g, rank) && Known(g, rank, n, xs)
    ensures y in Unfold(g, rank, n, xs) <==> Covers(g, xs, y)
    decreases n, |xs|
  {
    if xs != [] {
      ParentsKnown(g, rank, xs[0]);
      UnfoldCovers(g, rank, rank(xs[0]), g[xs[0]], y);
      UnfoldCovers(g, rank, n, xs[1..], y);
      CoversAbove(g, xs[0], y);
      assert Covers(g, xs, y) <==> xs[0] == y || Ancestor(g, xs[0], y) || Covers(g, xs[1..], y) by {
        assert forall x :: x in xs <==> x == xs[0] || x in xs[1..];
      }
    }
  }

  lemma CoversAbove(g: Graph, x: Oid, y: Oid)
    requires x in g
    ensures Covers(g, g[x], y) <==> Ancestor(g, x, y)
  {
    if Covers(g, g[x], y) {
      var z :| z in g[x] && (z == y || Ancestor(g, z, y));
      assert Link(g, x, z);
      if z == y { LinkIsAncestor(g, x, y); } else { AncestorStep(g, x, z, y); }
    }
    if Ancestor(g, x, y) {
      var z := AncestorFirst(g, x, y);
    }
  }

  /** All superclasses of every class come after it, at one place at least. */
  ghost predicate ClosedAfter(g: Graph, s: seq<Oid>) {
    forall i: nat, y | i < |s| && Link(g, s[i], y) :: y in s[i + 1..]
  }

  lemma {:induction false} UnfoldClosed(g: Graph, rank: Oid -> nat, n: nat, xs: seq<Oid>)
    requires Ranked(g, rank) && Known(g, rank, n, xs)
    ensures ClosedAfter(g, Unfold(g, rank, n, xs))
    decreases n, |xs|
  {
    if xs != [] {
      ParentsKnown(g, rank, xs[0]);
      var up, rest := Unfold(g, rank, rank(xs[0]), g[xs[0]]), Unfold(g, rank, n, xs[1..]);
      UnfoldClosed(g, rank, rank(xs[0]), g[xs[0]]);
      UnfoldClosed(g, rank, n, xs[1..]);
      ClosedAppend(g, up, rest);
      forall y | Link(g, xs[0], y) ensures y in up {
        UnfoldCovers(g, rank, rank(xs[0]), g[xs[0]], y);
      }
      ClosedCons(g, xs[0], up + rest);
    }
  }

  lemma ClosedAppend(g: Graph, s: seq<Oid>, t: seq<Oid>)
    requires ClosedAfter(g, s) && ClosedAfter(g, t)
    ensures ClosedAfter(g, s + t)
  {
    forall i: nat, y | i < |s + t| && Link(g, (s + t)[i], y) ensures y in (s + t)[i + 1..] {
      if i < |s| {
        assert Link(g, s[i], y) && (s + t)[i + 1..] == s[i + 1..] + t;
      } else {
        assert Link(g, t[i - |s|], y) && (s + t)[i + 1..] == t[i - |s| + 1..];
      }
    }
  }

  lemma ClosedCons(g: Graph, x: Oid, t: seq<Oid>)
    requires ClosedAfter(g, t) && forall y | Link(g, x, y) :: y in t
    ensures ClosedAfter(g, [x] + t)
  {
    var s := [x] + t;
    forall i: nat, y | i < |s| && Link(g, s[i], y) ensures y in s[i + 1..] {
      if i == 0 { assert s[1..] == t; } else { assert s[i] == t[i - 1] && s[i + 1..] == t[i..]; }
    }
  }

  lemma ClosedTail(g: Graph, s: seq<Oid>)
    requires ClosedAfter(g, s) && s != []
    ensures ClosedAfter(g, s[1..])
  {
    forall i: nat, y | i < |s[1..]| && Link(g, s[1..][i], y) ensures y in s[1..][i + 1..] {
      assert Link(g, s[i + 1], y) && s[1..][i + 1..] == s[i + 2..];
    }
  }

  // ---------------------------------------------------------------- keeping the last

  function KeepLast(s: seq<Oid>): seq<Oid> {
    if s == [] then []
    else if s[0] in s[1..] then KeepLast(s[1..])
    else [s[0]] + KeepLast(s[1..])
  }

  ghost predicate Distinct(s: seq<Oid>) { forall i, j | 0 <= i < j < |s| :: s[i] != s[j] }

  lemma {:induction false} KeepLastMembers(s: seq<Oid>)
    ensures forall x :: x in KeepLast(s) <==> x in s
    ensures Distinct(KeepLast(s))
  {
    if s != [] {
      KeepLastMembers(s[1..]);
      assert forall x :: x in s <==> x == s[0] || x in s[1..];
    }
  }

  lemma {:induction false} KeepLastClosed(g: Graph, s: seq<Oid>)
    requires ClosedAfter(g, s)
    ensures ClosedAfter(g, KeepLast(s))
  {
    if s != [] {
      ClosedTail(g, s);
      KeepLastClosed(g, s[1..]);
      if s[0] !in s[1..] {
        KeepLastMembers(s[1..]);
        assert forall y | Link(g, s[0], y) :: y in s[0 + 1..];
        ClosedCons(g, s[0], KeepLast(s[1..]));
      }
    }
  }

  // ---------------------------------------------------------------- the precedence list

  /** Exactly the superclasses of x, each once, and each before all of its own superclasses. */
  ghost predicate PrecedenceList(g: Graph, x: Oid, s: seq<Oid>) {
    && (forall y :: y in s <==> Ancestor(g, x, y))
    && Distinct(s)
    && (forall i, j | 0 <= i < |s| && 0 <= j < |s| && Ancestor(g, s[i], s[j]) :: i < j)
  }

  lemma {:induction false} PathLater(g: Graph, s: seq<Oid>, p: seq<Oid>, n: nat, i: nat) returns (j: nat)
    requires ClosedAfter(g, s) && Path(g, p) && 0 < n < |p| && i < |s| && s[i] == p[0]
    ensures i < j < |s| && s[j] == p[n]
    decreases n
  {
    var k := i;
    if n > 1 { k := PathLater(g, s, p, n - 1, i); }
    assert Link(g, p[n - 1], p[n]) && s[k] == p[n - 1];
    assert p[n] in s[k + 1..];
    var m :| 0 <= m < |s[k + 1..]| && s[k + 1..][m] == p[n];
    j := k + 1 + m;
  }

  lemma KeepLastIsPrecedence(g: Graph, rank: Oid -> nat, x: Oid)
    requires Ranked(g, rank) && x in g
    ensures Known(g, rank, rank(x), g[x])
    ensures PrecedenceList(g, x, KeepLast(Unfold(g, rank, rank(x), g[x])))
  {
    ParentsKnown(g, rank, x);
    var u := Unfold(g, rank, rank(x), g[x]);
    var s := KeepLast(u);
    UnfoldClosed(g, rank, rank(x), g[x]);
    KeepLastClosed(g, u);
    KeepLastMembers(u);
    forall y ensures y in s <==> Ancestor(g, x, y) {
      UnfoldCovers(g, rank, rank(x), g[x], y);
      CoversAbove(g, x, y);
    }
    forall i, j | 0 <= i < |s| && 0 <= j < |s| && Ancestor(g, s[i], s[j]) ensures i < j {
      var p :| PathBetween(g, p, s[i], s[j]);
      var k := PathLater(g, s, p, |p| - 1, i);
    }
  }
}
