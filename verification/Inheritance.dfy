/**
  CREATE TABLE with inheritance: the merging of columns, and what is stored in
  pg_inherits and pg_ipl.
 */
module Inheritance {
  import opened Basics
  import opened InheritanceOrder
  import opened InheritanceColumns
  import opened InheritancePaths
  import opened LinkedCells

  const NAMEDATALEN := 64

  datatype Kind = Table | NotTable

  datatype Error =
    | NameTooLong | DuplicateColumn | DuplicateParent | NoSuchRelation | IsNotTable | AlreadyExists | TypeConflict
    | RelationExists

  datatype Merge = Merged(columns: seq<Column>) | Failed(error: Error)

  datatype Check = Exists | Absent | Conflict

  ghost predicate DistinctParents(supers: seq<string>) {
    forall i, j | 0 <= i < j < |supers| :: supers[i] != supers[j]
  }

  /** The columns of the relation of this name. */
  function ColumnsOf(relid: map<string, Oid>, columns: map<Oid, seq<Column>>, name: string): seq<Column> {
    if name in relid && relid[name] in columns then columns[relid[name]] else []
  }

  /** The columns of all parents in order. */
  function ParentColumns(relid: map<string, Oid>, columns: map<Oid, seq<Column>>, supers: seq<string>): seq<Column> {
    if supers == [] then []
    else ParentColumns(relid, columns, supers[..|supers| - 1]) + ColumnsOf(relid, columns, supers[|supers| - 1])
  }

  lemma {:induction false} ParentColumnsMember(relid: map<string, Oid>, columns: map<Oid, seq<Column>>,
                                               supers: seq<string>, c: Column)
    ensures c in ParentColumns(relid, columns, supers) <==>
      exists k | 0 <= k < |supers| :: c in ColumnsOf(relid, columns, supers[k])
  {
    if supers != [] {
      var init := supers[..|supers| - 1];
      ParentColumnsMember(relid, columns, init, c);
      if k :| 0 <= k < |supers| && c in ColumnsOf(relid, columns, supers[k]) {
        assert k < |init| ==> init[k] == supers[k];
      }
      if k :| 0 <= k < |init| && c in ColumnsOf(relid, columns, init[k]) {
        assert init[k] == supers[k];
      }
    }
  }

  /** The columns of a parent stand together, behind those of the parents named before it. */
  lemma {:induction false} ParentColumnsAt(relid: map<string, Oid>, columns: map<Oid, seq<Column>>,
                                           supers: seq<string>, k: nat)
    requires k < |supers|
    ensures ParentColumns(relid, columns, supers[..k]) + ColumnsOf(relid, columns, supers[k])
      <= ParentColumns(relid, columns, supers)
  {
    var n := |supers| - 1;
    if k < n {
      ParentColumnsAt(relid, columns, supers[..n], k);
      assert supers[..n][..k] == supers[..k] && supers[..n][k] == supers[k];
    }
  }

  /** A column of a parent that differs in type from a column of the same name. */
  ghost predicate Clash(cols: seq<Column>, others: seq<Column>) {
    exists c, d | c in cols && d in others :: c.name == d.name && c.typ != d.typ
  }

  ghost predicate Shared(cols: seq<Column>, others: seq<Column>) {
    exists c, d | c in cols && d in others :: c.name == d.name && c.typ == d.typ
  }

  lemma ConsistentStep(all: seq<Column>, cols: seq<Column>)
    requires Consistent(all) && DistinctNames(cols)
    requires !Clash(cols, FirstOf(all))
    ensures Consistent(all + cols)
  {
    FirstOfHolds(all);
    var s := all + cols;
    forall i, j | 0 <= i < |s| && 0 <= j < |s| ensures Agree(s[i], s[j]) {
      if i < |all| && j < |all| {
        assert Agree(all[i], all[j]);
      } else if i < |all| {
        AgreesWith(all, cols, i, j - |all|);
      } else if j < |all| {
        AgreesWith(all, cols, j, i - |all|);
      }
    }
  }

  lemma AgreesWith(all: seq<Column>, cols: seq<Column>, i: nat, j: nat)
    requires i < |all| && j < |cols| && HoldsAll(FirstOf(all), all) && !Clash(cols, FirstOf(all))
    ensures Agree(all[i], cols[j])
  {
    var f := FirstOf(all);
    assert Holds(f, all[i]);
    var k :| 0 <= k < |f| && SameColumn(f[k], all[i]);
    assert f[k] in f && cols[j] in cols;
  }

  // ---------------------------------------------------------------- MergeAttributes

  /** checkAttrExists. */
  method CheckAttrExists(name: string, typ: string, schema: seq<Column>) returns (r: Check)
    ensures r.Absent? <==> !Named(schema, name)
    ensures r.Exists? ==> exists d | d in schema :: d.name == name && d.typ == typ
    ensures r.Conflict? ==> exists d | d in schema :: d.name == name && d.typ != typ
  {
    var s := 0;
    while s < |schema|
      invariant s <= |schema| && forall j | 0 <= j < s :: schema[j].name != name
    {
      if schema[s].name == name {
        assert schema[s] in schema;
        return if schema[s].typ != typ then Conflict else Exists;
      }
      s := s + 1;
    }
    r := Absent;
  }

  /** The loop over the columns of one parent, from the last to the first. */
  method MergeParent(cols: seq<Column>, schema: seq<Column>, inh: seq<Column>) returns (r: Merge)
    ensures r.Merged? ==> r.columns == NewOnes(cols, inh) && Apart(cols, schema)
    ensures r.Merged? && DistinctNames(inh) ==> !Clash(cols, inh)
    ensures r.Failed? ==> r.error == TypeConflict || r.error == AlreadyExists
    ensures r == Failed(TypeConflict) ==> Clash(cols, schema) || Clash(cols, inh)
    ensures r == Failed(AlreadyExists) ==> Shared(cols, schema)
  {
    var partial := [];
    var attrno := |cols|;
    while attrno > 0
      invariant 0 <= attrno <= |cols|
      invariant partial == NewOnes(cols[attrno..], inh)
      invariant Apart(cols[attrno..], schema)
      invariant DistinctNames(inh) ==> !Clash(cols[attrno..], inh)
    {
      attrno := attrno - 1;
      var c := cols[attrno];
      assert c in cols && cols[attrno..] == [c] + cols[attrno + 1..];
      var own := CheckAttrExists(c.name, c.typ, schema);
      if own.Conflict? {
        return Failed(TypeConflict);
      }
      if own.Exists? {
        return Failed(AlreadyExists);
      }
      var known := CheckAttrExists(c.name, c.typ, inh);
      if known.Conflict? {
        return Failed(TypeConflict);
      }
      assert DistinctNames(inh) ==> forall d | d in inh :: c.name == d.name ==> c.typ == d.typ;
      if known.Absent? {
        partial := [c] + partial;
      }
    }
    assert cols[0..] == cols;
    r := Merged(partial);
  }

  method HasDuplicateColumn(schema: seq<Column>) returns (b: bool)
    ensures b <==> !DistinctNames(schema)
  {
    for i := 0 to |schema|
      invariant forall j, k | 0 <= j < i && j < k < |schema| :: schema[j].name != schema[k].name
    {
      for k := i + 1 to |schema|
        invariant forall m | i < m < k :: schema[i].name != schema[m].name
      {
        if schema[i].name == schema[k].name {
          return true;
        }
      }
    }
    b := false;
  }

  method HasDuplicateParent(supers: seq<string>) returns (b: bool)
    ensures b <==> !DistinctParents(supers)
  {
    for i := 0 to |supers|
      invariant forall j, k | 0 <= j < i && j < k < |supers| :: supers[j] != supers[k]
    {
      for k := i + 1 to |supers|
        invariant forall m | i < m < k :: supers[i] != supers[m]
      {
        if supers[i] == supers[k] {
          return true;
        }
      }
    }
    b := false;
  }

  // ---------------------------------------------------------------- StoreCatalogInheritance

  /** The list is unfolded up to the entry that is being looked at. */
  ghost predicate Unfolding(g: Graph, rank: Oid -> nat, n: nat, idList: seq<Oid>, done: seq<Oid>, todo: seq<Oid>)
    requires Ranked(g, rank) && Known(g, rank, n, idList)
  {
    Known(g, rank, n, todo) && Unfold(g, rank, n, idList) == done + Unfold(g, rank, n, todo)
  }

  lemma UnfoldingStep(g: Graph, rank: Oid -> nat, n: nat, idList: seq<Oid>, done: seq<Oid>, id: Oid, next: seq<Oid>)
    requires Ranked(g, rank) && Known(g, rank, n, idList) && Unfolding(g, rank, n, idList, done, [id] + next)
    ensures id in g && Unfolding(g, rank, n, idList, done + [id], g[id] + next)
  {
    var todo := [id] + next;
    assert todo[0] == id && todo[1..] == next;
    WorklistStep(g, rank, n, todo);
    var u := Unfold(g, rank, n, g[id] + next);
    assert done + ([id] + u) == (done + [id]) + u;
  }

  /** Step 1 of the precedence list: cells are linked in behind the entry that is being looked at. */
  method ExpandList(g: Graph, head: Cell?<Oid>, ghost cells: seq<Cell<Oid>>, ghost idList: seq<Oid>,
                    ghost rank: Oid -> nat, ghost n: nat)
    returns (ghost out: seq<Cell<Oid>>)
    requires Ranked(g, rank) && Known(g, rank, n, idList)
    requires Represents(cells, idList, null) && head == At(cells, 0, null)
    modifies cells
    ensures Represents(out, Unfold(g, rank, n, idList), null) && head == At(out, 0, null)
    ensures forall i | 0 <= i < |out| :: out[i] in cells || fresh(out[i])
  {
    hide Unfolding, Unfold, Known, Ranked, Represents, At;
    out := cells;
    var entry := head;
    ghost var k, list := 0, idList;
    UnfoldingStart(g, rank, n, idList);
    Here(out, list, 0);
    assert list[0..] == idList && list[..0] == [];
    while entry != null
      invariant k <= |list| == |out| && |list| <= |Unfold(g, rank, n, idList)|
      invariant Unfolding(g, rank, n, idList, list[..k], list[k..])
      invariant Represents(out, list, null) && entry == At(out, k, null) && head == At(out, 0, null)
      invariant forall c | c in out :: c in cells || fresh(c)
      decreases |Unfold(g, rank, n, idList)| - k
    {
      Here(out, list, k);
      var id := entry.item;
      ghost var done, rest := list[..k], list[k + 1..];
      assert list[k..] == [id] + rest;
      UnfoldingStep(g, rank, n, idList, done, id, rest);
      ghost var added := InsertAt(entry, g[id], out, list, k);
      ghost var longer := out[..k + 1] + (added + out[k + 1..]);
      assert longer[k] == out[k] && forall c | c in longer :: c in out || c in added;
      SameHead(head, out, longer, k);
      out, list := longer, list[..k + 1] + (g[id] + list[k + 1..]);
      Here(out, list, k);
      k := k + 1;
      assert list[..k] == done + [id] && list[k..] == g[id] + rest;
      UnfoldingLength(g, rank, n, idList, list[..k], list[k..]);
      entry := entry.next;
    }
    Here(out, list, k);
    assert list[..k] == list && list[k..] == [];
    UnfoldingEnd(g, rank, n, idList, list);
    assert forall i | 0 <= i < |out| :: out[i] in out;
  }

  lemma SameHead(head: Cell?<Oid>, a: seq<Cell<Oid>>, b: seq<Cell<Oid>>, k: nat)
    requires head == At(a, 0, null) && k < |a| && k < |b| && a[..k + 1] == b[..k + 1]
    ensures head == At(b, 0, null)
  {
    assert a[0] == a[..k + 1][0] && b[0] == b[..k + 1][0];
  }

  lemma UnfoldingStart(g: Graph, rank: Oid -> nat, n: nat, idList: seq<Oid>)
    requires Ranked(g, rank) && Known(g, rank, n, idList)
    ensures Unfolding(g, rank, n, idList, [], idList) && |idList| <= |Unfold(g, rank, n, idList)|
  {
    UnfoldLonger(g, rank, n, idList);
  }

  lemma UnfoldingEnd(g: Graph, rank: Oid -> nat, n: nat, idList: seq<Oid>, done: seq<Oid>)
    requires Ranked(g, rank) && Known(g, rank, n, idList) && Unfolding(g, rank, n, idList, done, [])
    ensures done == Unfold(g, rank, n, idList)
  {
  }

  lemma UnfoldingLength(g: Graph, rank: Oid -> nat, n: nat, idList: seq<Oid>, done: seq<Oid>, todo: seq<Oid>)
    requires Ranked(g, rank) && Known(g, rank, n, idList) && Unfolding(g, rank, n, idList, done, todo)
    ensures |done + todo| <= |Unfold(g, rank, n, idList)|
  {
    UnfoldLonger(g, rank, n, todo);
  }

  /** Whether the item occurs further on. */
  method OccursBehind(entry: Cell<Oid>, ghost cells: seq<Cell<Oid>>, ghost list: seq<Oid>, ghost k: nat)
    returns (found: bool)
    requires Represents(cells, list, null) && k < |cells| && cells[k] == entry
    ensures found <==> list[k] in list[k + 1..]
  {
    assert entry.next == At(cells, k + 1, null);
    var rest := entry.next;
    ghost var m := k + 1;
    while rest != null
      invariant k < m <= |cells| && rest == At(cells, m, null) && forall j | k < j < m :: list[j] != list[k]
      decreases |cells| - m
    {
      if rest.item == entry.item {
        assert list[k + 1..][m - k - 1] == list[k];
        return true;
      }
      rest := rest.next;
      m := m + 1;
    }
    found := false;
  }

  /** Step 2: an entry that occurs again further on is overwritten by its successor. */
  method RemoveDuplicates(head: Cell?<Oid>, ghost cells: seq<Cell<Oid>>, ghost idList: seq<Oid>)
    returns (ghost out: seq<Cell<Oid>>)
    requires Represents(cells, idList, null) && head == At(cells, 0, null)
    modifies cells
    ensures Represents(out, KeepLast(idList), null) && head == At(out, 0, null)
  {
    hide KeepLast, Represents, At;
    out := cells;
    var entry := head;
    ghost var k, list := 0, idList;
    Here(out, list, 0);
    assert list[0..] == idList;
    while entry != null
      invariant k <= |list| == |out| && KeepLast(idList) == list[..k] + KeepLast(list[k..])
      invariant Represents(out, list, null) && entry == At(out, k, null) && head == At(out, 0, null)
      invariant forall c | c in out :: c in cells
      decreases |list| - k
    {
      Here(out, list, k);
      KeepLastStep(list, k);
      var found := OccursBehind(entry, out, list, k);
      if found {
        assert k + 1 < |list|;
        Overwrite(entry, out, list, k);
        ghost var shorter := out[..k + 1] + out[k + 2..];
        SameHead(head, out, shorter, k);
        assert shorter[k] == out[k] && forall c | c in shorter :: c in out;
        out, list := shorter, list[..k] + list[k + 1..];
        Here(out, list, k);
      } else {
        entry := entry.next;
        k := k + 1;
      }
    }
    Here(out, list, k);
    KeepLastNone(list, k);
  }

  lemma KeepLastStep(list: seq<Oid>, k: nat)
    requires k < |list|
    ensures list[k] in list[k + 1..] ==>
      var l := list[..k] + list[k + 1..]; list[..k] + KeepLast(list[k..]) == l[..k] + KeepLast(l[k..])
    ensures list[k] !in list[k + 1..] ==> list[..k] + KeepLast(list[k..]) == list[..k + 1] + KeepLast(list[k + 1..])
  {
    var todo, l := list[k..], list[..k] + list[k + 1..];
    assert todo[0] == list[k] && todo[1..] == list[k + 1..] && l[..k] == list[..k] && l[k..] == list[k + 1..];
  }

  lemma KeepLastNone(list: seq<Oid>, k: nat)
    requires k == |list|
    ensures list[..k] + KeepLast(list[k..]) == list
  {
  }

  /** Both steps, from the direct superclasses to the list that is stored. */
  method ListOf(g: Graph, idList: seq<Oid>, ghost rank: Oid -> nat, ghost n: nat) returns (list: seq<Oid>)
    requires Ranked(g, rank) && Known(g, rank, n, idList)
    ensures list == KeepLast(Unfold(g, rank, n, idList))
  {
    hide *;
    var head;
    ghost var cells;
    head, cells := Build(idList);
    ghost var out := ExpandList(g, head, cells, idList, rank, n);
    assert forall i | 0 <= i < |out| :: fresh(out[i]);
    ghost var kept := RemoveDuplicates(head, out, Unfold(g, rank, n, idList));
    list := Collect(head, kept, KeepLast(Unfold(g, rank, n, idList)));
  }

  // ---------------------------------------------------------------- the catalog

  /** A relation that nothing inherits from yet changes no other relation's superclasses. */
  lemma AncestorExtend(g: Graph, rank: Oid -> nat, x: Oid, supers: seq<Oid>, a: Oid, y: Oid)
    requires Ranked(g, rank) && x !in g && a in g
    ensures Ancestor(g[x := supers], a, y) <==> Ancestor(g, a, y)
  {
    var g' := g[x := supers];
    if Ancestor(g, a, y) {
      var p :| PathBetween(g, p, a, y);
      assert forall i: nat | i + 1 < |p| :: Link(g, p[i], p[i + 1]) ==> Link(g', p[i], p[i + 1]);
      assert PathBetween(g', p, a, y);
    }
    if Ancestor(g', a, y) {
      var p :| PathBetween(g', p, a, y);
      OldPath(g, rank, x, supers, p, |p| - 1);
      assert PathBetween(g, p, a, y);
    }
  }

  lemma {:induction false} OldPath(g: Graph, rank: Oid -> nat, x: Oid, supers: seq<Oid>, p: seq<Oid>, n: nat)
    requires Ranked(g, rank) && x !in g && Path(g[x := supers], p) && p[0] in g && n < |p|
    ensures p[n] in g && forall i: nat | i < n :: Link(g, p[i], p[i + 1])
    decreases n
  {
    if n > 0 {
      OldPath(g, rank, x, supers, p, n - 1);
      assert Link(g[x := supers], p[n - 1], p[n]);
      assert Link(g, p[n - 1], p[n]);
    }
  }

  lemma PrecedenceExtend(g: Graph, rank: Oid -> nat, x: Oid, supers: seq<Oid>, a: Oid, s: seq<Oid>)
    requires Ranked(g, rank) && x !in g && a in g && PrecedenceList(g, a, s)
    ensures PrecedenceList(g[x := supers], a, s)
  {
    forall y ensures y in s <==> Ancestor(g[x := supers], a, y) { AncestorExtend(g, rank, x, supers, a, y); }
    forall i, j | 0 <= i < |s| && 0 <= j < |s| && Ancestor(g[x := supers], s[i], s[j]) ensures i < j {
      AncestorIsRelation(g, rank, a, s[i]);
      AncestorExtend(g, rank, x, supers, s[i], s[j]);
    }
  }

  lemma AncestorIsRelation(g: Graph, rank: Oid -> nat, x: Oid, y: Oid)
    requires Ranked(g, rank) && Ancestor(g, x, y)
    ensures y in g
  {
    var p :| PathBetween(g, p, x, y);
    assert Link(g, p[|p| - 2], p[|p| - 2 + 1]);
  }

  /** Columns pass from every superclass, not only from the parents. */
  lemma {:induction false} AncestorColumns(g: Graph, columns: map<Oid, seq<Column>>, p: seq<Oid>, n: nat)
    requires Path(g, p) && 0 < n < |p|
    requires forall x, y | Link(g, x, y) :: Passes(columns, x, y)
    ensures Passes(columns, p[0], p[n])
    decreases n
  {
    assert Link(g, p[n - 1], p[n - 1 + 1]);
    if n > 1 {
      AncestorColumns(g, columns, p, n - 1);
      HoldsAllTransitive(columns[p[0]], columns[p[n - 1]], columns[p[n]]);
    }
  }

  ghost predicate ColumnsOk(g: Graph, columns: map<Oid, seq<Column>>) {
    && (forall x | x in columns :: DistinctNames(columns[x]))
    && (forall x, y | Link(g, x, y) :: Passes(columns, x, y))
  }

  ghost predicate PrecedenceOk(g: Graph, ipl: map<Oid, seq<Oid>>) {
    forall x | x in ipl :: PrecedenceList(g, x, ipl[x])
  }

  ghost predicate CatalogOk(relid: map<string, Oid>, rels: set<Oid>, columns: map<Oid, seq<Column>>, g: Graph,
                            ipl: map<Oid, seq<Oid>>) {
    && columns.Keys == rels == g.Keys == ipl.Keys
    && (forall name | name in relid :: relid[name] in rels)
    && ColumnsOk(g, columns) && PrecedenceOk(g, ipl)
  }

  ghost predicate RankOk(g: Graph, rank: Oid -> nat, created: nat) {
    Ranked(g, rank) && forall x | x in g :: rank(x) < created
  }

  lemma KeysAfter<K, V>(m: map<K, V>, k: K, v: V)
    ensures m[k := v].Keys == m.Keys + {k}
  {
  }

  lemma CatalogKept(relid: map<string, Oid>, rels: set<Oid>, columns: map<Oid, seq<Column>>, g: Graph,
                    ipl: map<Oid, seq<Oid>>, rank: Oid -> nat,
                    name: string, cols: seq<Column>, ids: seq<Oid>, oid: Oid, list: seq<Oid>)
    requires CatalogOk(relid, rels, columns, g, ipl) && Ranked(g, rank) && oid !in g
    requires DistinctNames(cols) && forall y | y in ids :: y in g && HoldsAll(cols, columns[y])
    requires PrecedenceList(g[oid := ids], oid, list)
    ensures CatalogOk(relid[name := oid], rels + {oid}, columns[oid := cols], g[oid := ids], ipl[oid := list])
  {
    hide HoldsAll, DistinctNames, PrecedenceList, Ranked;
    PrecedenceKept(g, rank, ipl, oid, ids, list);
    ColumnsKept(g, rank, columns, oid, ids, cols);
    hide ColumnsOk, PrecedenceOk;
    assert columns[oid := cols].Keys == columns.Keys + {oid};
    assert g[oid := ids].Keys == g.Keys + {oid} && ipl[oid := list].Keys == ipl.Keys + {oid};
  }

  lemma PrecedenceKept(g: Graph, rank: Oid -> nat, ipl: map<Oid, seq<Oid>>, oid: Oid, ids: seq<Oid>, list: seq<Oid>)
    requires Ranked(g, rank) && oid !in g && ipl.Keys == g.Keys && PrecedenceOk(g, ipl)
    requires PrecedenceList(g[oid := ids], oid, list)
    ensures PrecedenceOk(g[oid := ids], ipl[oid := list])
  {
    forall x | x in ipl ensures PrecedenceList(g[oid := ids], x, ipl[x]) {
      PrecedenceExtend(g, rank, oid, ids, x, ipl[x]);
    }
  }

  lemma ColumnsKept(g: Graph, rank: Oid -> nat, columns: map<Oid, seq<Column>>, oid: Oid, ids: seq<Oid>,
                    cols: seq<Column>)
    requires Ranked(g, rank) && oid !in g && columns.Keys == g.Keys && ColumnsOk(g, columns)
    requires DistinctNames(cols) && forall y | y in ids :: y in g && HoldsAll(cols, columns[y])
    ensures ColumnsOk(g[oid := ids], columns[oid := cols])
  {
    var g', columns' := g[oid := ids], columns[oid := cols];
    forall x, y | Link(g', x, y) ensures Passes(columns', x, y) {
      if x != oid { assert Link(g, x, y) && Passes(columns, x, y); }
    }
  }

  /** The merged columns have distinct names and hold those of every parent. */
  lemma MergedColumns(relid: map<string, Oid>, columns: map<Oid, seq<Column>>, schema: seq<Column>, supers: seq<string>)
    requires var inherited := ParentColumns(relid, columns, supers); Apart(inherited, schema) && Consistent(inherited)
    requires DistinctNames(schema)
    ensures var cols := FirstOf(ParentColumns(relid, columns, supers)) + schema;
      DistinctNames(cols) && forall k | 0 <= k < |supers| :: HoldsAll(cols, ColumnsOf(relid, columns, supers[k]))
  {
    var inherited := ParentColumns(relid, columns, supers);
    var first := FirstOf(inherited);
    var cols := first + schema;
    FirstOfNames(inherited);
    FirstOfHolds(inherited);
    forall i, j | 0 <= i < j < |cols| ensures cols[i].name != cols[j].name {
      if i < |first| <= j { assert first[i] in inherited; }
    }
    forall k | 0 <= k < |supers| ensures HoldsAll(cols, ColumnsOf(relid, columns, supers[k])) {
      var own := ColumnsOf(relid, columns, supers[k]);
      forall j | 0 <= j < |own| ensures Holds(cols, own[j]) {
        ParentColumnsMember(relid, columns, supers, own[j]);
        HoldsInPrefix(first, schema, inherited, own[j]);
      }
    }
  }

  lemma HoldsInPrefix(first: seq<Column>, more: seq<Column>, all: seq<Column>, c: Column)
    requires HoldsAll(first, all) && c in all
    ensures Holds(first + more, c)
  {
    var i :| 0 <= i < |all| && all[i] == c;
    assert Holds(first, all[i]);
    var k :| 0 <= k < |first| && SameColumn(first[k], c);
    assert SameColumn((first + more)[k], c);
  }

  function Ids(relid: map<string, Oid>, supers: seq<string>): seq<Oid> {
    seq(|supers|, k requires 0 <= k < |supers| => if supers[k] in relid then relid[supers[k]] else 0)
  }

  class Catalog {
    var relid: map<string, Oid>             // pg_class by name
    var kinds: map<Oid, Kind>
    var columns: map<Oid, seq<Column>>      // pg_attribute
    var inherits: Graph                     // pg_inherits
    var ipl: map<Oid, seq<Oid>>             // pg_ipl

    ghost var rank: Oid -> nat              // the order of creation
    ghost var created: nat

    ghost predicate Valid()
      reads this
    {
      && CatalogOk(relid, kinds.Keys, columns, inherits, ipl) && RankOk(inherits, rank, created)
      && PathsOk(inherits, ipl)
    }

    constructor ()
      ensures Valid() && relid == map[] && inherits == map[]
    {
      relid, kinds, columns, inherits, ipl := map[], map[], map[], map[], map[];
      rank, created := _ => 0, 0;
    }

    /** What holds after every run of CREATE TABLE. */
    lemma EveryRun()
      requires Valid()
      ensures Acyclic(inherits)
      ensures forall x | x in ipl :: PrecedenceList(inherits, x, ipl[x])
      ensures forall x | x in ipl :: x in inherits && OrderedByPaths(inherits, inherits[x], ipl[x])
      ensures forall x, y | Ancestor(inherits, x, y) :: x in columns && y in columns && HoldsAll(columns[x], columns[y])
      ensures forall x | x in columns :: DistinctNames(columns[x])
    {
      RankedIsAcyclic(inherits, rank);
      forall x, y | Ancestor(inherits, x, y) ensures Passes(columns, x, y) {
        var p :| PathBetween(inherits, p, x, y);
        AncestorColumns(inherits, columns, p, |p| - 1);
      }
    }

    /** What makes the columns of a new relation acceptable. */
    ghost predicate Mergeable(schema: seq<Column>, supers: seq<string>)
      reads this
    {
      && DistinctNames(schema) && DistinctParents(supers)
      && (forall k | 0 <= k < |supers| :: IsTable(supers[k]))
      && Apart(ParentColumns(relid, columns, supers), schema)
      && Consistent(ParentColumns(relid, columns, supers))
    }

    predicate IsTable(name: string)
      reads this
    {
      name in relid && relid[name] in kinds && kinds[relid[name]] == Table
    }

    /** What an error says about the command. */
    ghost predicate Explains(error: Error, schema: seq<Column>, supers: seq<string>)
      reads this
    {
      var inherited := ParentColumns(relid, columns, supers);
      match error
      case DuplicateColumn => !DistinctNames(schema)
      case DuplicateParent => !DistinctParents(supers)
      case NoSuchRelation => exists name | name in supers :: name !in relid
      case IsNotTable => exists name | name in supers :: name in relid && !IsTable(name)
      case AlreadyExists => Shared(inherited, schema)
      case TypeConflict => Clash(inherited, schema) || Clash(inherited, inherited)
      case _ => false
    }

    lemma ExplainsRefutes(error: Error, schema: seq<Column>, supers: seq<string>)
      requires Explains(error, schema, supers)
      ensures !Mergeable(schema, supers)
    {
      var inherited := ParentColumns(relid, columns, supers);
      if Clash(inherited, schema) {
        var c, d :| c in inherited && d in schema && c.name == d.name && c.typ != d.typ;
      } else if Shared(inherited, schema) {
        var c, d :| c in inherited && d in schema && c.name == d.name && c.typ == d.typ;
      } else if Clash(inherited, inherited) {
        var c, d :| c in inherited && d in inherited && c.name == d.name && c.typ != d.typ;
        var i :| 0 <= i < |inherited| && inherited[i] == c;
        var j :| 0 <= j < |inherited| && inherited[j] == d;
        assert !Agree(inherited[i], inherited[j]);
      }
    }

    /** A column of one parent is a column of the parents. */
    lemma InParent(supers: seq<string>, k: nat)
      requires k < |supers|
      ensures forall c | c in ColumnsOf(relid, columns, supers[k]) :: c in ParentColumns(relid, columns, supers)
    {
      forall c | c in ColumnsOf(relid, columns, supers[k]) ensures c in ParentColumns(relid, columns, supers) {
        ParentColumnsMember(relid, columns, supers, c);
      }
    }

    lemma InFirstParents(supers: seq<string>, k: nat, c: Column)
      requires k <= |supers| && c in FirstOf(ParentColumns(relid, columns, supers[..k]))
      ensures c in ParentColumns(relid, columns, supers)
    {
      FirstOfNames(ParentColumns(relid, columns, supers[..k]));
      ParentColumnsMember(relid, columns, supers[..k], c);
      var i :| 0 <= i < k && c in ColumnsOf(relid, columns, supers[..k][i]);
      assert supers[..k][i] == supers[i];
      ParentColumnsMember(relid, columns, supers, c);
    }

    /** MergeAttributes. */
    method MergeAttributes(schema: seq<Column>, supers: seq<string>) returns (r: Merge)
      requires Valid()
      ensures r.Merged? <==> Mergeable(schema, supers)
      ensures r.Merged? ==> r.columns == FirstOf(ParentColumns(relid, columns, supers)) + schema
      ensures r.Failed? ==> Explains(r.error, schema, supers)
    {
      var dup := HasDuplicateColumn(schema);
      if dup {
        return Failed(DuplicateColumn);
      }
      dup := HasDuplicateParent(supers);
      if dup {
        return Failed(DuplicateParent);
      }
      var inhSchema := [];
      for k := 0 to |supers|
        invariant MergedUpTo(schema, supers[..k], inhSchema)
      {
        var m := OpenParent(schema, supers, k, inhSchema);
        if m.Failed? {
          ExplainsRefutes(m.error, schema, supers);
          return m;
        }
        inhSchema := inhSchema + m.columns;
      }
      assert supers[..|supers|] == supers;
      r := Merged(inhSchema + schema);
    }

    /** The inherited columns so far, and what has been found about them. */
    ghost predicate MergedUpTo(schema: seq<Column>, supers: seq<string>, inhSchema: seq<Column>)
      reads this
    {
      var inherited := ParentColumns(relid, columns, supers);
      && inhSchema == FirstOf(inherited)
      && (forall j | 0 <= j < |supers| :: IsTable(supers[j]))
      && Apart(inherited, schema) && Consistent(inherited)
    }

    /** One parent: opened, and its columns merged. */
    method OpenParent(schema: seq<Column>, supers: seq<string>, k: nat, inhSchema: seq<Column>) returns (r: Merge)
      requires Valid() && k < |supers| && MergedUpTo(schema, supers[..k], inhSchema)
      ensures r.Merged? ==> MergedUpTo(schema, supers[..k + 1], inhSchema + r.columns)
      ensures r.Failed? ==> Explains(r.error, schema, supers)
    {
      hide PrecedenceOk, Ranked, FirstOf, NewOnes, Consistent;
      var name := supers[k];
      assert name in supers;
      if name !in relid {
        return Failed(NoSuchRelation);
      }
      if kinds[relid[name]] != Table {
        return Failed(IsNotTable);
      }
      var cols := columns[relid[name]];
      r := MergeParent(cols, schema, inhSchema);
      if r.Failed? {
        MergeParentFails(r.error, schema, supers, k, inhSchema);
      } else {
        MergeParentWorks(schema, supers, k, inhSchema);
      }
    }

    lemma MergeParentFails(error: Error, schema: seq<Column>, supers: seq<string>, k: nat, inhSchema: seq<Column>)
      requires k < |supers| && inhSchema == FirstOf(ParentColumns(relid, columns, supers[..k]))
      requires var cols := ColumnsOf(relid, columns, supers[k]);
        || (error == TypeConflict && (Clash(cols, schema) || Clash(cols, inhSchema)))
        || (error == AlreadyExists && Shared(cols, schema))
      ensures Explains(error, schema, supers)
    {
      InParent(supers, k);
      forall d | d in inhSchema ensures d in ParentColumns(relid, columns, supers) { InFirstParents(supers, k, d); }
      hide ParentColumns, FirstOf, ColumnsOf;
    }

    lemma MergeParentWorks(schema: seq<Column>, supers: seq<string>, k: nat, inhSchema: seq<Column>)
      requires k < |supers| && MergedUpTo(schema, supers[..k], inhSchema) && IsTable(supers[k])
      requires var cols := ColumnsOf(relid, columns, supers[k]);
        DistinctNames(cols) && Apart(cols, schema) && (DistinctNames(inhSchema) ==> !Clash(cols, inhSchema))
      ensures MergedUpTo(schema, supers[..k + 1], inhSchema + NewOnes(ColumnsOf(relid, columns, supers[k]), inhSchema))
    {
      var cols, inherited := ColumnsOf(relid, columns, supers[k]), ParentColumns(relid, columns, supers[..k]);
      assert supers[..k + 1][..k] == supers[..k];
      assert ParentColumns(relid, columns, supers[..k + 1]) == inherited + cols;
      FirstOfNames(inherited);
      ConsistentStep(inherited, cols);
      FirstOfParent(inherited, cols);
      hide ParentColumns, FirstOf, ColumnsOf, NewOnes, Clash, Consistent;
    }

    /** DefineRelation: the columns are merged, the relation is created under a new object id, and its
        inheritance is stored. */
    method DefineRelation(name: string, kind: Kind, schema: seq<Column>, supers: seq<string>, oid: Oid)
      returns (r: Merge)
      requires Valid() && oid !in inherits
      modifies this
      ensures Valid()
      ensures r.Merged? <==> |name| < NAMEDATALEN && name !in old(relid) && old(Mergeable(schema, supers))
      ensures r.Failed? ==> unchanged(this) && match r.error
        case NameTooLong => |name| >= NAMEDATALEN
        case RelationExists => name in relid && Mergeable(schema, supers)
        case error => Explains(error, schema, supers)
      ensures r.Merged? ==>
        && relid == old(relid)[name := oid] && kinds == old(kinds)[oid := kind]
        && columns == old(columns)[oid := FirstOf(old(ParentColumns(relid, columns, supers))) + schema]
        && oid in inherits && inherits == old(inherits)[oid := inherits[oid]]
        && |inherits[oid]| == |supers|
        && (forall k | 0 <= k < |supers| :: supers[k] in old(relid) && inherits[oid][k] == old(relid)[supers[k]])
        && oid in ipl && ipl == old(ipl)[oid := ipl[oid]]
        && PrecedenceList(inherits, oid, ipl[oid]) && OrderedByPaths(inherits, inherits[oid], ipl[oid])
    {
      hide PrecedenceOk, Ranked, ColumnsOk, HoldsAll, Apart, Consistent, DistinctNames, DistinctParents, FirstOf,
        ParentColumns, Explains, PathsOk, OrderedByPaths, PrecedenceList;
      if |name| >= NAMEDATALEN {
        return Failed(NameTooLong);
      }
      r := MergeAttributes(schema, supers);
      if r.Failed? {
        return;
      }
      if name in relid {
        return Failed(RelationExists);
      }
      var idList := [];
      for k := 0 to |supers|
        invariant idList == Ids(relid, supers)[..k]
      {
        assert IsTable(supers[k]);
        idList := idList + [relid[supers[k]]];
      }
      assert idList == Ids(relid, supers);
      MergedColumns(relid, columns, schema, supers);
      forall y | y in idList ensures y in inherits && HoldsAll(r.columns, columns[y]) {
        var k :| 0 <= k < |supers| && idList[k] == y;
        assert IsTable(supers[k]) && y == relid[supers[k]] && columns[y] == ColumnsOf(relid, columns, supers[k]);
      }
      StoreRelation(name, kind, r.columns, idList, oid);
    }

    /** heap_create_with_catalog and StoreCatalogInheritance. */
    method StoreRelation(name: string, kind: Kind, cols: seq<Column>, idList: seq<Oid>, oid: Oid)
      requires Valid() && oid !in inherits && DistinctNames(cols)
      requires forall y | y in idList :: y in inherits && HoldsAll(cols, columns[y])
      modifies this
      ensures Valid()
      ensures relid == old(relid)[name := oid] && kinds == old(kinds)[oid := kind]
      ensures columns == old(columns)[oid := cols]
      ensures inherits == old(inherits)[oid := idList] && oid in ipl && ipl == old(ipl)[oid := ipl[oid]]
      ensures PrecedenceList(inherits, oid, ipl[oid]) && OrderedByPaths(inherits, idList, ipl[oid])
    {
      hide CatalogOk, RankOk, HoldsAll, PrecedenceList, DistinctNames, Ranked, PathsOk, OrderedByPaths;
      InRank();
      var list := PrecedenceOf(oid, idList);
      PathsKept(inherits, rank, ipl, oid, idList, list);
      CatalogKept(relid, kinds.Keys, columns, inherits, ipl, rank, name, cols, idList, oid, list);
      KeysAfter(kinds, oid, kind);
      rank, created := RankAfter(oid), created + 1;
      relid, kinds, columns := relid[name := oid], kinds[oid := kind], columns[oid := cols];
      inherits, ipl := inherits[oid := idList], ipl[oid := list];
    }

    lemma InRank()
      requires Valid()
      ensures Ranked(inherits, rank) && columns.Keys == inherits.Keys
    {
    }

    /** The precedence list of a new relation. */
    method PrecedenceOf(oid: Oid, idList: seq<Oid>) returns (list: seq<Oid>)
      requires Valid() && oid !in inherits && forall x | x in idList :: x in inherits
      ensures PrecedenceList(inherits[oid := idList], oid, list)
      ensures OrderedByPaths(inherits[oid := idList], idList, list)
      ensures RankOk(inherits[oid := idList], RankAfter(oid), created + 1)
    {
      ghost var g, rank' := inherits[oid := idList], RankAfter(oid);
      assert Ranked(g, rank') by {
        forall x, y | Link(g, x, y) ensures y in g && rank'(y) < rank'(x) {
          if x != oid { assert Link(inherits, x, y); }
        }
      }
      KeepLastIsPrecedence(g, rank', oid);
      PrecedenceByPaths(g, rank', created, idList);
      hide OrderedByPaths;
      list := ListOf(inherits[oid := idList], idList, rank', created);
    }

    ghost function RankAfter(oid: Oid): Oid -> nat
      reads this
    {
      var before, n := rank, created;
      (x: Oid) => if x == oid then n else before(x)
    }
  }
}
