/**
  The columns of a table that inherits: those of its parents, of every name the
  first, and then its own.
 */
module InheritanceColumns {
  import opened Basics

  datatype Column = Column(name: string, typ: string, notNull: bool, dflt: Option<string>)

  predicate Named(cols: seq<Column>, name: string) {
    exists i | 0 <= i < |cols| :: cols[i].name == name
  }

  ghost predicate DistinctNames(cols: seq<Column>) {
    forall i, j | 0 <= i < j < |cols| :: cols[i].name != cols[j].name
  }

  ghost predicate SameColumn(a: Column, b: Column) { a.name == b.name && a.typ == b.typ }

  /** The name with this type, whatever else is declared of the column. */
  ghost predicate Holds(cols: seq<Column>, c: Column) {
    exists i | 0 <= i < |cols| :: SameColumn(cols[i], c)
  }

  ghost predicate HoldsAll(cols: seq<Column>, others: seq<Column>) {
    forall j | 0 <= j < |others| :: Holds(cols, others[j])
  }

  ghost predicate Agree(a: Column, b: Column) { a.name == b.name ==> a.typ == b.typ }

  /** No two columns of one name and different types. */
  ghost predicate Consistent(cols: seq<Column>) {
    forall i, j | 0 <= i < |cols| && 0 <= j < |cols| :: Agree(cols[i], cols[j])
  }

  ghost predicate Apart(cols: seq<Column>, others: seq<Column>) {
    forall i, j | 0 <= i < |cols| && 0 <= j < |others| :: cols[i].name != others[j].name
  }

  /** Of every name the first column. */
  function FirstOf(cols: seq<Column>): seq<Column> {
    if cols == [] then []
    else
      var r, last := FirstOf(cols[..|cols| - 1]), cols[|cols| - 1];
      if Named(r, last.name) then r else r + [last]
  }

  lemma {:induction false} FirstOfNames(cols: seq<Column>)
    ensures DistinctNames(FirstOf(cols))
    ensures forall name :: Named(FirstOf(cols), name) <==> Named(cols, name)
    ensures forall c | c in FirstOf(cols) :: c in cols
  {
    if cols != [] {
      var init, last := cols[..|cols| - 1], cols[|cols| - 1];
      FirstOfNames(init);
      assert cols == init + [last];
      forall name ensures Named(FirstOf(cols), name) <==> Named(cols, name) {
        NamedAppend(init, [last], name);
        NamedAppend(FirstOf(init), [last], name);
      }
    }
  }

  lemma NamedAppend(a: seq<Column>, b: seq<Column>, name: string)
    ensures Named(a + b, name) <==> Named(a, name) || Named(b, name)
  {
    if Named(a, name) {
      var i :| 0 <= i < |a| && a[i].name == name;
      assert (a + b)[i].name == name;
    }
    if Named(b, name) {
      var i :| 0 <= i < |b| && b[i].name == name;
      assert (a + b)[|a| + i].name == name;
    }
  }

  /** No column of the name comes before. */
  ghost predicate IsFirst(cols: seq<Column>, x: nat)
    requires x < |cols|
  {
    forall y | 0 <= y < x :: cols[y].name != cols[x].name
  }

  /** The list r has the first columns of all names, which are at the places ps. */
  ghost predicate FirstAt(cols: seq<Column>, r: seq<Column>, ps: seq<nat>) {
    && |ps| == |r| && (forall i | 0 <= i < |ps| :: ps[i] < |cols| && r[i] == cols[ps[i]])
    && (forall i, j | 0 <= i < j < |ps| :: ps[i] < ps[j])
    && (forall x | 0 <= x < |cols| :: x in ps <==> IsFirst(cols, x))
  }

  lemma FirstStep(cols: seq<Column>)
    requires cols != []
    ensures var n := |cols| - 1;
      FirstOf(cols) == if IsFirst(cols, n) then FirstOf(cols[..n]) + [cols[n]] else FirstOf(cols[..n])
  {
    hide Named, IsFirst;
    var n := |cols| - 1;
    NamedBefore(cols, n);
    SameNames(cols[..n], cols[n].name);
  }

  lemma NamedBefore(cols: seq<Column>, n: nat)
    requires n < |cols|
    ensures Named(cols[..n], cols[n].name) <==> !IsFirst(cols, n)
  {
    assert forall y | 0 <= y < n :: cols[..n][y] == cols[y];
  }

  lemma SameNames(cols: seq<Column>, name: string)
    ensures Named(FirstOf(cols), name) <==> Named(cols, name)
  {
    hide *;
    FirstOfNames(cols);
  }

  lemma FirstAtStep(cols: seq<Column>, c: Column, r: seq<Column>, ps: seq<nat>)
    requires FirstAt(cols, r, ps)
    ensures var all := cols + [c];
      if IsFirst(all, |cols|) then FirstAt(all, r + [c], ps + [|cols|]) else FirstAt(all, r, ps)
  {
    var all := cols + [c];
    forall x | 0 <= x < |cols| ensures IsFirst(all, x) <==> IsFirst(cols, x) {
      assert forall y | 0 <= y <= x :: all[y] == cols[y];
    }
    hide IsFirst;
    assert |cols| !in ps;
    assert forall x | 0 <= x < |cols| :: x in ps + [|cols|] <==> x in ps;
  }

  /** The columns kept are those that have none of their name before them, in their order. */
  lemma {:induction false} FirstOfExactly(cols: seq<Column>) returns (ps: seq<nat>)
    ensures FirstAt(cols, FirstOf(cols), ps)
  {
    if cols == [] {
      ps := [];
    } else {
      hide *;
      var n := |cols| - 1;
      assert cols == cols[..n] + [cols[n]];
      var qs := FirstOfExactly(cols[..n]);
      FirstStep(cols);
      FirstAtStep(cols[..n], cols[n], FirstOf(cols[..n]), qs);
      ps := if IsFirst(cols, n) then qs + [n] else qs;
    }
  }

  /** When the types agree nothing is lost. */
  lemma FirstOfHolds(cols: seq<Column>)
    requires Consistent(cols)
    ensures HoldsAll(FirstOf(cols), cols)
  {
    var f := FirstOf(cols);
    FirstOfNames(cols);
    forall j | 0 <= j < |cols| ensures Holds(f, cols[j]) {
      assert Named(cols, cols[j].name);
      assert Named(f, cols[j].name);
      var i :| 0 <= i < |f| && f[i].name == cols[j].name;
      assert f[i] in cols;
      var k :| 0 <= k < |cols| && cols[k] == f[i];
      assert Agree(cols[k], cols[j]);
      assert SameColumn(f[i], cols[j]);
    }
  }

  // ---------------------------------------------------------------- one parent

  /** The columns whose names are not taken. */
  function NewOnes(cols: seq<Column>, taken: seq<Column>): seq<Column> {
    if cols == [] then []
    else if Named(taken, cols[0].name) then NewOnes(cols[1..], taken)
    else [cols[0]] + NewOnes(cols[1..], taken)
  }

  lemma {:induction false} NewOnesAppend(a: seq<Column>, b: seq<Column>, taken: seq<Column>)
    ensures NewOnes(a + b, taken) == NewOnes(a, taken) + NewOnes(b, taken)
  {
    if a == [] {
      assert a + b == b;
    } else {
      assert (a + b)[1..] == a[1..] + b;
      NewOnesAppend(a[1..], b, taken);
    }
  }

  lemma {:induction false} NewOnesAmong(cols: seq<Column>, taken: seq<Column>)
    ensures forall c | c in NewOnes(cols, taken) :: c in cols
  {
    if cols != [] { NewOnesAmong(cols[1..], taken); }
  }

  /** A parent adds its columns of new names, in order. */
  lemma {:induction false} FirstOfParent(all: seq<Column>, cols: seq<Column>)
    requires DistinctNames(cols)
    ensures FirstOf(all + cols) == FirstOf(all) + NewOnes(cols, FirstOf(all))
    decreases |cols|
  {
    if cols == [] {
      assert all + cols == all;
    } else {
      var init, last, f := cols[..|cols| - 1], cols[|cols| - 1], FirstOf(all);
      assert cols == init + [last] && all + cols == (all + init) + [last] && DistinctNames(init);
      hide FirstOf, NewOnes, Named, DistinctNames;
      FirstOfParent(all, init);
      var m := NewOnes(init, f);
      var x := if Named(f, last.name) then [] else [last];
      NewOnesAppend(init, [last], f);
      NewOnesLast(last, f);
      assert NewOnes(cols, f) == m + x;
      FirstOfLast(all + init, last);
      NamedAppend(f, m, last.name);
      NotNamed(init, last, f);
      assert FirstOf(all + cols) == (f + m) + x;
      Associative(f, m, x);
    }
  }

  lemma NotNamed(init: seq<Column>, last: Column, taken: seq<Column>)
    requires DistinctNames(init + [last])
    ensures !Named(NewOnes(init, taken), last.name)
  {
    NewOnesAmong(init, taken);
    var s := init + [last];
    forall c | c in init ensures c.name != last.name {
      var i :| 0 <= i < |init| && init[i] == c;
      assert s[i] == c && s[|init|] == last;
    }
  }

  lemma FirstOfLast(all: seq<Column>, last: Column)
    ensures FirstOf(all + [last]) == FirstOf(all) + if Named(FirstOf(all), last.name) then [] else [last]
  {
    assert (all + [last])[..|all|] == all;
  }

  lemma NewOnesLast(last: Column, taken: seq<Column>)
    ensures NewOnes([last], taken) == if Named(taken, last.name) then [] else [last]
  {
    assert [last][1..] == [];
  }

  // ---------------------------------------------------------------- descendants

  ghost predicate Passes(cols: map<Oid, seq<Column>>, x: Oid, y: Oid) {
    x in cols && y in cols && HoldsAll(cols[x], cols[y])
  }

  lemma HoldsAllTransitive(a: seq<Column>, b: seq<Column>, c: seq<Column>)
    requires HoldsAll(a, b) && HoldsAll(b, c)
    ensures HoldsAll(a, c)
  {
    forall j | 0 <= j < |c| ensures Holds(a, c[j]) {
      assert Holds(b, c[j]);
      var i :| 0 <= i < |b| && SameColumn(b[i], c[j]);
      assert Holds(a, b[i]);
      var k :| 0 <= k < |a| && SameColumn(a[k], b[i]);
      assert SameColumn(a[k], c[j]);
    }
  }
}
