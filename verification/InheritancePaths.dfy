/**
  The precedence list by paths: of two superclasses the one comes later whose last path, in
  the order in which parents are named, comes later.
 */
module InheritancePaths {
  import opened Basics
  import opened InheritanceOrder

  /** A path through the parents, told by their numbers, from a list of classes to a class. */
  ghost predicate Leads(g: Graph, xs: seq<Oid>, q: seq<nat>, y: Oid)
    decreases |q|
  {
    && q != [] && q[0] < |xs|
    && if |q| == 1 then xs[q[0]] == y else xs[q[0]] in g && Leads(g, g[xs[q[0]]], q[1..], y)
  }

  /** The order of a walk that goes to the parents of a class, first to last, before it goes on. */
  predicate Before(r: seq<nat>, q: seq<nat>) {
    q != [] && (r == [] || r[0] < q[0] || (r[0] == q[0] && Before(r[1..], q[1..])))
  }

  /** The list is ordered by the last paths to its classes. */
  ghost predicate OrderedByPaths(g: Graph, xs: seq<Oid>, list: seq<Oid>) {
    forall i, j | 0 <= i < |list| && 0 <= j < |list| && i != j ::
      i < j <==> LaterPath(g, xs, list[i], list[j])
  }

  /** Some path to y comes after all paths to x. */
  ghost predicate LaterPath(g: Graph, xs: seq<Oid>, x: Oid, y: Oid) {
    exists q :: Leads(g, xs, q, y) && ComesLast(g, xs, x, q)
  }

  ghost predicate ComesLast(g: Graph, xs: seq<Oid>, x: Oid, q: seq<nat>) {
    forall r | Leads(g, xs, r, x) :: Before(r, q)
  }

  lemma {:induction false} BeforeStrict(r: seq<nat>, q: seq<nat>)
    requires Before(r, q)
    ensures !Before(q, r) && r != q
  {
    if r != [] && r[0] == q[0] { BeforeStrict(r[1..], q[1..]); }
  }

  // ---------------------------------------------------------------- paths of the unfolding

  /** The path that the unfolding has taken to its entry at pos. */
  ghost function PathAt(g: Graph, rank: Oid -> nat, n: nat, xs: seq<Oid>, pos: nat): (q: seq<nat>)
    requires Ranked(g, rank) && Known(g, rank, n, xs) && pos < |Unfold(g, rank, n, xs)|
    ensures q != []
    decreases n, |xs|
  {
    ParentsKnown(g, rank, xs[0]);
    var inner := Unfold(g, rank, rank(xs[0]), g[xs[0]]);
    if pos == 0 then [0]
    else if pos <= |inner| then [0] + PathAt(g, rank, rank(xs[0]), g[xs[0]], pos - 1)
    else Shift(PathAt(g, rank, n, xs[1..], pos - 1 - |inner|))
  }

  function Shift(q: seq<nat>): (r: seq<nat>)
    requires q != []
    ensures r != []
  {
    [q[0] + 1] + q[1..]
  }

  /** The unfolding of a list: its first class, the superclasses of that, and the rest. */
  lemma Parts(g: Graph, rank: Oid -> nat, n: nat, xs: seq<Oid>)
    requires Ranked(g, rank) && Known(g, rank, n, xs) && xs != []
    ensures xs[0] in g && rank(xs[0]) < n && Known(g, rank, rank(xs[0]), g[xs[0]]) && Known(g, rank, n, xs[1..])
    ensures var s, inner, rest :=
        Unfold(g, rank, n, xs), Unfold(g, rank, rank(xs[0]), g[xs[0]]), Unfold(g, rank, n, xs[1..]);
      && |s| == 1 + |inner| + |rest| && s[0] == xs[0]
      && (forall i | 0 <= i < |inner| :: s[1 + i] == inner[i])
      && (forall i | 0 <= i < |rest| :: s[1 + |inner| + i] == rest[i])
  {
    ParentsKnown(g, rank, xs[0]);
  }

  lemma NotEmpty(g: Graph, rank: Oid -> nat, n: nat, xs: seq<Oid>)
    requires Ranked(g, rank) && Known(g, rank, n, xs) && Unfold(g, rank, n, xs) != []
    ensures xs != []
  {
  }

  lemma FirstPath(g: Graph, rank: Oid -> nat, n: nat, xs: seq<Oid>)
    requires Ranked(g, rank) && Known(g, rank, n, xs) && xs != []
    ensures |Unfold(g, rank, n, xs)| > 0 && PathAt(g, rank, n, xs, 0) == [0]
  {
  }

  lemma InnerPath(g: Graph, rank: Oid -> nat, n: nat, xs: seq<Oid>, i: nat)
    requires Ranked(g, rank) && Known(g, rank, n, xs) && xs != [] && xs[0] in g
    requires Known(g, rank, rank(xs[0]), g[xs[0]]) && i < |Unfold(g, rank, rank(xs[0]), g[xs[0]])|
    ensures 1 + i < |Unfold(g, rank, n, xs)|
    ensures PathAt(g, rank, n, xs, 1 + i) == [0] + PathAt(g, rank, rank(xs[0]), g[xs[0]], i)
  {
  }

  lemma RestPath(g: Graph, rank: Oid -> nat, n: nat, xs: seq<Oid>, i: nat)
    requires Ranked(g, rank) && Known(g, rank, n, xs) && xs != [] && xs[0] in g
    requires Known(g, rank, rank(xs[0]), g[xs[0]]) && Known(g, rank, n, xs[1..]) && i < |Unfold(g, rank, n, xs[1..])|
    ensures var inner := Unfold(g, rank, rank(xs[0]), g[xs[0]]);
      && 1 + |inner| + i < |Unfold(g, rank, n, xs)|
      && PathAt(g, rank, n, xs, 1 + |inner| + i) == Shift(PathAt(g, rank, n, xs[1..], i))
  {
    hide Unfold, Known, Ranked, Shift;
    Parts(g, rank, n, xs);
    var inner := |Unfold(g, rank, rank(xs[0]), g[xs[0]])|;
    assert 1 + inner + i - 1 - inner == i;
  }

  lemma LeadsOn(g: Graph, xs: seq<Oid>, q: seq<nat>, y: Oid)
    requires xs != []
    ensures Leads(g, xs, [0], xs[0])
    ensures xs[0] in g && Leads(g, g[xs[0]], q, y) ==> Leads(g, xs, [0] + q, y)
    ensures Leads(g, xs[1..], q, y) ==> Leads(g, xs, Shift(q), y)
  {
    assert ([0] + q)[1..] == q;
    if q != [] { assert Shift(q)[1..] == q[1..] && (q[0] < |xs[1..]| ==> xs[1..][q[0]] == xs[q[0] + 1]); }
  }

  /** The three ways in which a path goes. */
  lemma LeadsBack(g: Graph, xs: seq<Oid>, q: seq<nat>, y: Oid)
    requires Leads(g, xs, q, y)
    ensures xs != [] && q != []
    ensures q[0] == 0 && |q| == 1 ==> q == [0] && y == xs[0]
    ensures q[0] == 0 && |q| > 1 ==> xs[0] in g && Leads(g, g[xs[0]], q[1..], y) && q == [0] + q[1..]
    ensures q[0] > 0 ==> var t := [q[0] - 1] + q[1..]; Leads(g, xs[1..], t, y) && Shift(t) == q
  {
    if q[0] > 0 {
      var t := [q[0] - 1] + q[1..];
      assert t[1..] == q[1..] && xs[1..][t[0]] == xs[q[0]];
    }
  }

  lemma BeforeOn(r: seq<nat>, q: seq<nat>)
    requires q != []
    ensures Before([0], [0] + q) && Before([0] + r, Shift(q)) && Before([0], Shift(q))
    ensures Before(r, q) ==> Before([0] + r, [0] + q)
    ensures r != [] && Before(r, q) ==> Before(Shift(r), Shift(q))
  {
    assert ([0] + q)[1..] == q && ([0] + r)[1..] == r && [0][1..] == [];
    assert Shift(q)[1..] == q[1..];
    if r != [] { assert Shift(r)[1..] == r[1..]; }
  }

  lemma {:induction false} PathLeads(g: Graph, rank: Oid -> nat, n: nat, xs: seq<Oid>, pos: nat)
    requires Ranked(g, rank) && Known(g, rank, n, xs) && pos < |Unfold(g, rank, n, xs)|
    ensures Leads(g, xs, PathAt(g, rank, n, xs, pos), Unfold(g, rank, n, xs)[pos])
    decreases n, |xs|
  {
    hide *;
    NotEmpty(g, rank, n, xs);
    Parts(g, rank, n, xs);
    var inner, y := |Unfold(g, rank, rank(xs[0]), g[xs[0]])|, Unfold(g, rank, n, xs)[pos];
    if pos == 0 {
      FirstPath(g, rank, n, xs);
      LeadsOn(g, xs, [], y);
    } else if pos <= inner {
      InnerPath(g, rank, n, xs, pos - 1);
      PathLeads(g, rank, rank(xs[0]), g[xs[0]], pos - 1);
      LeadsOn(g, xs, PathAt(g, rank, rank(xs[0]), g[xs[0]], pos - 1), y);
    } else {
      RestPath(g, rank, n, xs, pos - 1 - inner);
      PathLeads(g, rank, n, xs[1..], pos - 1 - inner);
      LeadsOn(g, xs, PathAt(g, rank, n, xs[1..], pos - 1 - inner), y);
    }
  }

  lemma {:induction false} PathFound(g: Graph, rank: Oid -> nat, n: nat, xs: seq<Oid>, q: seq<nat>, y: Oid)
    returns (pos: nat)
    requires Ranked(g, rank) && Known(g, rank, n, xs) && Leads(g, xs, q, y)
    ensures pos < |Unfold(g, rank, n, xs)| && PathAt(g, rank, n, xs, pos) == q && Unfold(g, rank, n, xs)[pos] == y
    decreases n, |xs|
  {
    hide *;
    LeadsBack(g, xs, q, y);
    Parts(g, rank, n, xs);
    if q[0] == 0 && |q| == 1 {
      FirstPath(g, rank, n, xs);
      pos := 0;
    } else if q[0] == 0 {
      var p := PathFound(g, rank, rank(xs[0]), g[xs[0]], q[1..], y);
      InnerPath(g, rank, n, xs, p);
      pos := 1 + p;
    } else {
      var p := PathFound(g, rank, n, xs[1..], [q[0] - 1] + q[1..], y);
      RestPath(g, rank, n, xs, p);
      pos := 1 + |Unfold(g, rank, rank(xs[0]), g[xs[0]])| + p;
    }
  }

  lemma {:induction false} PathsInOrder(g: Graph, rank: Oid -> nat, n: nat, xs: seq<Oid>, pos: nat, pos': nat)
    requires Ranked(g, rank) && Known(g, rank, n, xs) && pos < pos' < |Unfold(g, rank, n, xs)|
    ensures Before(PathAt(g, rank, n, xs, pos), PathAt(g, rank, n, xs, pos'))
    decreases n, |xs|
  {
    hide *;
    NotEmpty(g, rank, n, xs);
    Parts(g, rank, n, xs);
    FirstPath(g, rank, n, xs);
    var inner := |Unfold(g, rank, rank(xs[0]), g[xs[0]])|;
    if pos' <= inner {
      InnerPath(g, rank, n, xs, pos' - 1);
      var q' := PathAt(g, rank, rank(xs[0]), g[xs[0]], pos' - 1);
      if pos == 0 {
        BeforeOn([], q');
      } else {
        InnerPath(g, rank, n, xs, pos - 1);
        PathsInOrder(g, rank, rank(xs[0]), g[xs[0]], pos - 1, pos' - 1);
        BeforeOn(PathAt(g, rank, rank(xs[0]), g[xs[0]], pos - 1), q');
      }
    } else {
      RestPath(g, rank, n, xs, pos' - 1 - inner);
      var q' := PathAt(g, rank, n, xs[1..], pos' - 1 - inner);
      if pos == 0 {
        BeforeOn([], q');
      } else if pos <= inner {
        InnerPath(g, rank, n, xs, pos - 1);
        BeforeOn(PathAt(g, rank, rank(xs[0]), g[xs[0]], pos - 1), q');
      } else {
        RestPath(g, rank, n, xs, pos - 1 - inner);
        PathsInOrder(g, rank, n, xs[1..], pos - 1 - inner, pos' - 1 - inner);
        BeforeOn(PathAt(g, rank, n, xs[1..], pos - 1 - inner), q');
      }
    }
  }

  // ---------------------------------------------------------------- the last of the duplicates

  /** The kept entries are those that do not occur again, in their order. */
  lemma {:induction false} KeptAt(s: seq<Oid>) returns (ps: seq<nat>)
    ensures KeptPlaces(s, KeepLast(s), ps)
  {
    if s == [] {
      ps := [];
    } else {
      hide KeptPlaces;
      var qs := KeptAt(s[1..]);
      ps := KeptStep(s, KeepLast(s[1..]), qs, s[0] !in s[1..]);
    }
  }

  /** The places of the kept entries, each the last one of its class. */
  ghost predicate KeptPlaces(s: seq<Oid>, kept: seq<Oid>, ps: seq<nat>) {
    && |ps| == |kept| && (forall i | 0 <= i < |ps| :: ps[i] < |s| && kept[i] == s[ps[i]])
    && (forall i, j | 0 <= i < j < |ps| :: ps[i] < ps[j])
    && (forall i, k | 0 <= i < |ps| && ps[i] < k < |s| :: s[k] != s[ps[i]])
  }

  lemma KeptStep(s: seq<Oid>, kept: seq<Oid>, qs: seq<nat>, keep: bool) returns (ps: seq<nat>)
    requires s != [] && KeptPlaces(s[1..], kept, qs) && (keep ==> s[0] !in s[1..])
    ensures KeptPlaces(s, if keep then [s[0]] + kept else kept, ps)
  {
    var later := seq(|qs|, i requires 0 <= i < |qs| => qs[i] + 1);
    ps := if keep then [0] + later else later;
    forall i, k | 0 <= i < |ps| && ps[i] < k < |s| ensures s[k] != s[ps[i]] { assert s[k] == s[1..][k - 1]; }
  }

  /** The list with the last of the duplicates of the unfolding is ordered by paths. */
  lemma PrecedenceByPaths(g: Graph, rank: Oid -> nat, n: nat, xs: seq<Oid>)
    requires Ranked(g, rank) && Known(g, rank, n, xs)
    ensures OrderedByPaths(g, xs, KeepLast(Unfold(g, rank, n, xs)))
  {
    var s := Unfold(g, rank, n, xs);
    var list := KeepLast(s);
    var ps := KeptAt(s);
    hide KeepLast, Unfold, Leads, Before;
    forall i, j | 0 <= i < |list| && 0 <= j < |list| && i != j ensures i < j <==> LaterPath(g, xs, list[i], list[j]) {
      if i < j {
        LaterIsLater(g, rank, n, xs, ps[i], ps[j]);
      } else {
        LaterIsLater(g, rank, n, xs, ps[j], ps[i]);
        NotBoth(g, xs, list[j], list[i]);
      }
    }
  }

  lemma LaterIsLater(g: Graph, rank: Oid -> nat, n: nat, xs: seq<Oid>, a: nat, b: nat)
    requires Ranked(g, rank) && Known(g, rank, n, xs) && a < b < |Unfold(g, rank, n, xs)|
    requires forall k | a < k < |Unfold(g, rank, n, xs)| :: Unfold(g, rank, n, xs)[k] != Unfold(g, rank, n, xs)[a]
    ensures LaterPath(g, xs, Unfold(g, rank, n, xs)[a], Unfold(g, rank, n, xs)[b])
  {
    hide Unfold, Leads, Before;
    var s, q := Unfold(g, rank, n, xs), PathAt(g, rank, n, xs, b);
    PathLeads(g, rank, n, xs, b);
    forall r | Leads(g, xs, r, s[a]) ensures Before(r, q) {
      var pos := PathFound(g, rank, n, xs, r, s[a]);
      assert pos <= a;
      PathsInOrder(g, rank, n, xs, pos, b);
    }
  }

  lemma NotBoth(g: Graph, xs: seq<Oid>, x: Oid, y: Oid)
    requires LaterPath(g, xs, x, y)
    ensures !LaterPath(g, xs, y, x)
  {
    hide Leads, Before;
    var q :| Leads(g, xs, q, y) && ComesLast(g, xs, x, q);
    forall r | Leads(g, xs, r, x) ensures !ComesLast(g, xs, y, r) {
      assert Before(r, q);
      BeforeStrict(r, q);
    }
  }

  // ---------------------------------------------------------------- later relations

  ghost predicate PathsOk(g: Graph, ipl: map<Oid, seq<Oid>>) {
    forall x | x in ipl :: x in g && OrderedByPaths(g, g[x], ipl[x])
  }

  /** A relation that is nobody's parent is on no path. */
  lemma {:induction false} LeadsStays(g: Graph, rank: Oid -> nat, oid: Oid, ids: seq<Oid>, xs: seq<Oid>, q: seq<nat>,
                                      y: Oid)
    requires Ranked(g, rank) && oid !in g && forall x | x in xs :: x in g
    ensures Leads(g[oid := ids], xs, q, y) <==> Leads(g, xs, q, y)
    decreases |q|
  {
    if |q| > 1 && q[0] < |xs| {
      var x := xs[q[0]];
      forall z | z in g[x] ensures z in g { assert Link(g, x, z); }
      LeadsStays(g, rank, oid, ids, g[x], q[1..], y);
    }
  }

  lemma OrderStays(g: Graph, rank: Oid -> nat, oid: Oid, ids: seq<Oid>, xs: seq<Oid>, list: seq<Oid>)
    requires Ranked(g, rank) && oid !in g && (forall x | x in xs :: x in g) && OrderedByPaths(g, xs, list)
    ensures OrderedByPaths(g[oid := ids], xs, list)
  {
    hide Leads, Before, Ranked;
    var g' := g[oid := ids];
    forall q, y ensures Leads(g', xs, q, y) <==> Leads(g, xs, q, y) { LeadsStays(g, rank, oid, ids, xs, q, y); }
    forall x, y ensures LaterPath(g', xs, x, y) <==> LaterPath(g, xs, x, y) { LaterStays(g, g', xs, x, y); }
  }

  lemma LaterStays(g: Graph, g': Graph, xs: seq<Oid>, x: Oid, y: Oid)
    requires forall q, z :: Leads(g', xs, q, z) <==> Leads(g, xs, q, z)
    ensures LaterPath(g', xs, x, y) <==> LaterPath(g, xs, x, y)
  {
    hide Leads, Before;
    forall q ensures ComesLast(g', xs, x, q) <==> ComesLast(g, xs, x, q) {}
    if q :| Leads(g, xs, q, y) && ComesLast(g, xs, x, q) { assert Leads(g', xs, q, y) && ComesLast(g', xs, x, q); }
    if q :| Leads(g', xs, q, y) && ComesLast(g', xs, x, q) { assert Leads(g, xs, q, y) && ComesLast(g, xs, x, q); }
  }

  lemma PathsKept(g: Graph, rank: Oid -> nat, ipl: map<Oid, seq<Oid>>, oid: Oid, ids: seq<Oid>, list: seq<Oid>)
    requires Ranked(g, rank) && PathsOk(g, ipl) && oid !in g && OrderedByPaths(g[oid := ids], ids, list)
    ensures PathsOk(g[oid := ids], ipl[oid := list])
  {
    hide OrderedByPaths;
    forall x | x in ipl && x != oid ensures OrderedByPaths(g[oid := ids], g[x], ipl[x]) {
      forall z | z in g[x] ensures z in g { assert Link(g, x, z); }
      OrderStays(g, rank, oid, ids, g[x], ipl[x]);
    }
  }
}
