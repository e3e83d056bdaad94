/**
  CREATE OPERATOR: operators may be named as commutator, negator or sort operator
  before they are defined; they get a shell then, which is filled in later.
 */
module Operators {
  import opened Basics
  import opened OperatorCatalog

  datatype Proc = Proc(oid: Oid, result: Oid)

  datatype Command = Command(name: string, left: Option<string>, right: Option<string>, proc: string,
                             precedence: nat, leftAssoc: bool, canHash: bool,
                             com: Option<string>, neg: Option<string>, lsort: Option<string>, rsort: Option<string>,
                             restrict: Option<string>, join: Option<string>)

  datatype Error = NoArgument | OnlyBinary | NoSuchType | AlreadyDefined | NoSuchProcedure | OwnLink

  datatype Outcome = Defined(oid: Oid) | Failed(error: Error)

  const OIDOID: Oid := 26
  const INT2OID: Oid := 21
  const INT4OID: Oid := 23

  /** The j-th of the operators that a command names: commutator, negator, left and right sort operator. */
  function Other(c: Command, j: nat): Option<string> {
    if j == 0 then c.com else if j == 1 then c.neg else if j == 2 then c.lsort else c.rsort
  }

  /** The types it must have. */
  function OtherKey(name: string, own: OpKey, j: nat): OpKey {
    if j == 0 then OpKey(name, own.right, own.left)
    else if j == 1 then OpKey(name, own.left, own.right)
    else if j == 2 then OpKey(name, own.left, own.left)
    else OpKey(name, own.right, own.right)
  }

  ghost predicate Absent(t: Catalog, k: OpKey) { forall y | y in t :: t[y].key != k }

  /** The operator of this key, if there is one, is x. */
  ghost predicate Finds(t: Catalog, k: OpKey, x: Oid) { forall y | y in t && t[y].key == k :: y == x }

  /** The command names the operator itself as its negator or sort operator. */
  predicate NamesItself(c: Command, own: OpKey) {
    exists j | 1 <= j < 4 :: Other(c, j).Some? && OtherKey(Other(c, j).value, own, j) == own
  }

  /** Some operator of this key has been defined. */
  ghost predicate DefinedIn(t: Catalog, k: OpKey) { exists x :: Has(t, x, k) && !t[x].IsShell() }

  /** Operators have been added only. */
  ghost predicate Extends(t: Catalog, t': Catalog) { forall y | y in t :: y in t' && t'[y] == t[y] }

  lemma ExtendsEvolves(t: Catalog, t': Catalog)
    requires Extends(t, t')
    ensures Evolves(t, t')
  {
  }

  /** What the j-th link is to be: nothing, the operator named, or later the operator itself. */
  ghost predicate LinkOk(t: Catalog, c: Command, own: OpKey, id: Oid, j: nat, link: Oid) {
    match Other(c, j)
    case None => link == 0
    case Some(name) =>
      if link == 0 then j == 0 && id == 0 && OtherKey(name, own, 0) == own
      else Has(t, link, OtherKey(name, own, j))
  }

  lemma LinkStays(t: Catalog, t': Catalog, c: Command, own: OpKey, id: Oid, j: nat, link: Oid)
    requires LinkOk(t, c, own, id, j, link) && Extends(t, t')
    ensures LinkOk(t', c, own, id, j, link)
  {
  }

  function Link(o: Operator, j: nat): Oid {
    if j == 0 then o.com else if j == 1 then o.negate else if j == 2 then o.lsort else o.rsort
  }

  /** The link goes to the operator of the name given and of the right types. */
  ghost predicate LinkTarget(t: Catalog, c: Command, own: OpKey, j: nat, link: Oid) {
    match Other(c, j)
    case None => link == 0
    case Some(name) => Has(t, link, OtherKey(name, own, j))
  }

  /** An operator that was there before is linked back if it had no link. */
  ghost predicate LinkedBack(before: Catalog, t: Catalog, c: Command, own: OpKey, x: Oid) {
    && (c.com.Some? ==> forall y | y in before && y != x && before[y].key == OtherKey(c.com.value, own, 0) ::
          y in t && t[y].com == if before[y].com != 0 then before[y].com else x)
    && (c.neg.Some? ==> forall y | y in before && y != x && before[y].key == OtherKey(c.neg.value, own, 1) ::
          y in t && t[y].negate == if before[y].negate != 0 then before[y].negate else x)
  }

  lemma NewLinks(t: Catalog, c: Command, own: OpKey, id: Oid, links: seq<Oid>, o: Operator)
    requires |links| == 4 && forall j: nat | j < 4 :: LinkOk(t, c, own, id, j, links[j])
    requires o.key == own && o.com == links[0] && o.negate == links[1] && o.lsort == links[2] && o.rsort == links[3]
    ensures LinksOk(t, o)
  {
    assert LinkOk(t, c, own, id, 0, links[0]) && LinkOk(t, c, own, id, 1, links[1]);
    assert LinkOk(t, c, own, id, 2, links[2]) && LinkOk(t, c, own, id, 3, links[3]);
  }

  /** Both back links. */
  function BackLinks(t: Catalog, base: Oid, commId: Oid, negId: Oid): Catalog {
    SetNegate(SetCom(t, commId, base), negId, base)
  }

  lemma BackLinksOk(t: Catalog, base: Oid, commId: Oid, negId: Oid)
    requires CatalogOk(t) && base in t
    requires Linked(t, commId, t[base].key.right, t[base].key.left)
    requires Linked(t, negId, t[base].key.left, t[base].key.right)
    ensures var t' := BackLinks(t, base, commId, negId); CatalogOk(t') && Evolves(t, t') && SameKeys(t, t')
  {
    hide CatalogOk, Evolves, SetCom, SetNegate, Linked;
    var middle := SetCom(t, commId, base);
    SetComOk(t, commId, base);
    LinkedStays(t, middle, negId, t[base].key.left, t[base].key.right);
    SetNegateOk(middle, negId, base);
    EvolvesTransitive(t, middle, SetNegate(middle, negId, base));
  }

  lemma BackLinksAt(t: Catalog, base: Oid, commId: Oid, negId: Oid, y: Oid)
    requires y in t
    ensures var t' := BackLinks(t, base, commId, negId);
      && y in t'
      && t'[y].com == (if y == commId && t[y].com == 0 then base else t[y].com)
      && t'[y].negate == (if y == negId && t[y].negate == 0 then base else t[y].negate)
      && t'[y] == t[y].(com := t'[y].com, negate := t'[y].negate)
  {
  }

  /** The operator's own links once the back links are made. */
  lemma OwnLinks(t: Catalog, c: Command, own: OpKey, id: Oid, links: seq<Oid>, commId: Oid, negId: Oid, x: Oid,
                 o: Operator)
    requires CatalogOk(t) && x != 0 && o.key == own && |links| == 4
    requires o.com == links[0] && o.negate == links[1] && o.lsort == links[2] && o.rsort == links[3]
    requires forall j: nat | j < 4 :: LinkOk(t, c, own, id, j, links[j])
    requires x in t ==> t[x].key == own
    requires commId == (if c.com.Some? && links[0] == 0 then x else commId) && (c.com.None? ==> commId == 0)
    requires negId == 0 || negId == links[1]
    ensures var t' := BackLinks(t[x := o], x, commId, negId);
      && x in t' && t'[x] == o.(com := t'[x].com, negate := t'[x].negate)
      && forall j: nat | j < 4 :: LinkTarget(t', c, own, j, Link(t'[x], j))
  {
    var t1 := t[x := o];
    var t' := BackLinks(t1, x, commId, negId);
    BackLinksAt(t1, x, commId, negId, x);
    forall j: nat | j < 4 ensures LinkTarget(t', c, own, j, Link(t'[x], j)) {
      assert LinkOk(t, c, own, id, j, links[j]);
      assert Link(t'[x], j) != 0 ==> Link(t'[x], j) == links[j] || (j == 0 && Link(t'[x], j) == x);
      var l := Link(t'[x], j);
      if l in t1 { BackLinksAt(t1, x, commId, negId, l); }
    }
  }

  lemma OthersLinked(before: Catalog, t: Catalog, c: Command, own: OpKey, id: Oid, commId: Oid, negId: Oid, x: Oid,
                     o: Operator)
    requires Extends(before, t)
    requires c.com.Some? ==>
      Finds(before, OtherKey(c.com.value, own, 0), commId)
      || (Absent(before, own) && OtherKey(c.com.value, own, 0) == own)
    requires c.neg.Some? ==> Finds(before, OtherKey(c.neg.value, own, 1), negId)
    ensures LinkedBack(before, BackLinks(t[x := o], x, commId, negId), c, own, x)
  {
    var t1 := t[x := o];
    forall y | y in before && y != x
      ensures y in t1 && t1[y] == before[y] && y in BackLinks(t1, x, commId, negId)
      ensures BackLinks(t1, x, commId, negId)[y].com == if y == commId && before[y].com == 0 then x else before[y].com
      ensures BackLinks(t1, x, commId, negId)[y].negate == if y == negId && before[y].negate == 0 then x
        else before[y].negate
    {
      BackLinksAt(t1, x, commId, negId, y);
    }
    hide BackLinks;
  }

  /** The command names an operator of this key. */
  ghost predicate NamedBy(c: Command, own: OpKey, k: OpKey) {
    exists j: nat | j < 4 :: NamedAs(c, own, j, k)
  }

  ghost predicate NamedAs(c: Command, own: OpKey, j: nat, k: OpKey) {
    Other(c, j).Some? && OtherKey(Other(c, j).value, own, j) == k
  }

  /** The tuple of another operator, in which an empty commutator or negator link may have been set to x. */
  ghost predicate Touched(o: Operator, o': Operator, x: Oid) {
    && o' == o.(com := o'.com, negate := o'.negate)
    && (o'.com == o.com || (o.com == 0 && o'.com == x)) && (o'.negate == o.negate || (o.negate == 0 && o'.negate == x))
  }

  /** A tuple that the command has added beside its own: the shell of an operator it names that was not there. */
  ghost predicate AddedShell(before: Catalog, c: Command, own: OpKey, x: Oid, o: Operator) {
    Touched(Shell(o.key), o, x) && NamedBy(c, own, o.key) && Absent(before, o.key)
  }

  /** Nothing else is added, and what is not named as commutator or negator is as it was. */
  ghost predicate OnlyNamed(before: Catalog, t: Catalog, c: Command, own: OpKey, x: Oid) {
    && (forall y | y in t && y !in before && y != x :: AddedShell(before, c, own, x, t[y]))
    && (forall y | y in before && y != x :: y in t && Touched(before[y], t[y], x))
    && (forall y | y in before && y != x && !NamedAs(c, own, 0, before[y].key) && !NamedAs(c, own, 1, before[y].key) ::
          y in t && t[y] == before[y])
  }

  /** The operator is in the catalog as the command says, and nothing else has happened than shells and back
      links of the operators it names. */
  ghost predicate DefinedAs(before: Catalog, t: Catalog, c: Command, own: OpKey, x: Oid, info: Info, code: Oid) {
    && Evolves(before, t) && Finds(before, own, x)
    && x in t && t[x].key == own && t[x].info == info && t[x].code == code
    && (forall j: nat | j < 4 :: LinkTarget(t, c, own, j, Link(t[x], j)))
    && LinkedBack(before, t, c, own, x) && OnlyNamed(before, t, c, own, x)
  }

  /** The link is to the operator of this name and these types, or there is none if no name is given. */
  predicate Names(t: Catalog, n: Option<string>, left: Oid, right: Oid, link: Oid) {
    if n.Some? then link in t && t[link].key == OpKey(n.value, left, right) else link == 0
  }

  /** Each link goes to the operator named for it: a commutator takes the types reversed, a negator the same ones,
      the left sort operator the left one twice, the right sort operator the right one twice. */
  predicate LinkedAs(c: Command, t: Catalog, o: Operator) {
    && Names(t, c.com, o.key.right, o.key.left, o.com) && Names(t, c.neg, o.key.left, o.key.right, o.negate)
    && Names(t, c.lsort, o.key.left, o.key.left, o.lsort) && Names(t, c.rsort, o.key.right, o.key.right, o.rsort)
  }

  lemma DefinedLinks(before: Catalog, t: Catalog, c: Command, own: OpKey, x: Oid, info: Info, code: Oid)
    requires DefinedAs(before, t, c, own, x, info, code)
    ensures x in t && LinkedAs(c, t, t[x])
  {
    assert LinkTarget(t, c, own, 0, Link(t[x], 0)) && LinkTarget(t, c, own, 1, Link(t[x], 1));
    assert LinkTarget(t, c, own, 2, Link(t[x], 2)) && LinkTarget(t, c, own, 3, Link(t[x], 3));
  }

  /** The operator is its own negator or sort operator. */
  ghost predicate SelfLinked(t: Catalog, y: Oid) {
    y in t && (t[y].negate == y || t[y].lsort == y || t[y].rsort == y)
  }

  ghost predicate ShellsFree(t: Catalog) { forall y | y in t && t[y].IsShell() :: !SelfLinked(t, y) }

  /** A command makes its own operator self-linked exactly if it names it so, and no other. */
  lemma SelfLinkExactly(before: Catalog, t: Catalog, c: Command, own: OpKey, x: Oid, info: Info, code: Oid)
    requires CatalogOk(t) && DefinedAs(before, t, c, own, x, info, code)
    ensures SelfLinked(t, x) <==> NamesItself(c, own)
    ensures forall y | y != x :: SelfLinked(t, y) <==> SelfLinked(before, y)
  {
    forall j: nat | 1 <= j < 4 ensures Link(t[x], j) == x <==> NamedAs(c, own, j, own) {
      assert LinkTarget(t, c, own, j, Link(t[x], j));
      assert CatalogOk(t) && x != 0;
    }
    assert Link(t[x], 1) == t[x].negate && Link(t[x], 2) == t[x].lsort && Link(t[x], 3) == t[x].rsort;
    if NamesItself(c, own) {
      var j :| 1 <= j < 4 && Other(c, j).Some? && OtherKey(Other(c, j).value, own, j) == own;
      assert NamedAs(c, own, j, own);
    }
    forall y | y != x ensures SelfLinked(t, y) <==> SelfLinked(before, y) {
      if y in before {
        assert Touched(before[y], t[y], x);
      } else if y in t {
        assert AddedShell(before, c, own, x, t[y]);
        assert 0 !in t;
      }
    }
  }

  /** Where shells are not self-linked, a command adds its own operator to the self-linked ones if it names itself,
      and takes none away. */
  lemma SelfLinkStep(before: Catalog, t: Catalog, c: Command, own: OpKey, x: Oid, info: Info, code: Oid)
    requires CatalogOk(t) && DefinedAs(before, t, c, own, x, info, code) && code != 0
    requires ShellsFree(before) && (x in before ==> before[x].IsShell())
    ensures ShellsFree(t)
    ensures forall y :: SelfLinked(t, y) <==> SelfLinked(before, y) || (y == x && NamesItself(c, own))
  {
    SelfLinkExactly(before, t, c, own, x, info, code);
    hide NamesItself;
    forall y | y in t && t[y].IsShell() ensures !SelfLinked(t, y) {
      assert y != x;
    }
  }

  /** What LinkOthers has found and made. */
  ghost predicate Linking(before: Catalog, t: Catalog, c: Command, own: OpKey, id: Oid, links: seq<Oid>, commId: Oid,
                          negId: Oid) {
    && Extends(before, t) && |links| == 4 && (forall j: nat | j < 4 :: LinkOk(t, c, own, id, j, links[j]))
    && (forall y | y in t && y !in before :: AddedShell(before, c, own, 0, t[y]))
    && (commId == 0 || commId == links[0]) && (negId == 0 || negId == links[1])
    && (c.com.Some? ==> Finds(before, OtherKey(c.com.value, own, 0), commId))
    && (c.neg.Some? ==> Finds(before, OtherKey(c.neg.value, own, 1), negId))
  }

  lemma DefineKeeps(before: Catalog, t: Catalog, c: Command, own: OpKey, id: Oid, links: seq<Oid>, commId: Oid,
                    negId: Oid, x: Oid, info: Info, code: Oid)
    requires CatalogOk(before) && CatalogOk(t) && Linking(before, t, c, own, id, links, commId, negId) && x != 0
    requires id == 0 ==> Absent(t, own) && x !in t
    requires id != 0 ==> x == id && Has(before, id, own) && before[id].IsShell()
    ensures var o := Operator(own, info, links[0], links[1], links[2], links[3], code);
      var comm := if c.com.Some? && links[0] == 0 then x else commId;
      && CatalogOk(t[x := o]) && Linked(t[x := o], comm, own.right, own.left) &&
        Linked(t[x := o], negId, own.left, own.right)
      && DefinedAs(before, BackLinks(t[x := o], x, comm, negId), c, own, x, info, code)
  {
    var o := Operator(own, info, links[0], links[1], links[2], links[3], code);
    var comm := if c.com.Some? && links[0] == 0 then x else commId;
    NewLinks(t, c, own, id, links, o);
    OwnKey(before, t, own, id, x);
    PutOperator(t, x, o);
    LinksInNew(t, c, own, id, links, comm, negId, x, o);
    DefineEvolves(before, t, x, o, comm, negId);
    OwnLinks(t, c, own, id, links, comm, negId, x, o);
    assert LinkOk(t, c, own, id, 0, links[0]);
    OthersLinked(before, t, c, own, id, comm, negId, x, o);
    NothingElse(before, t, c, own, id, links, comm, negId, x, o);
    hide BackLinks, CatalogOk, Evolves, LinkedBack, LinkTarget, OnlyNamed;
  }

  lemma NothingElse(before: Catalog, t: Catalog, c: Command, own: OpKey, id: Oid, links: seq<Oid>, comm: Oid,
                    negId: Oid, x: Oid, o: Operator)
    requires Extends(before, t) && |links| == 4 && LinkOk(t, c, own, id, 0, links[0])
    requires LinkOk(t, c, own, id, 1, links[1])
    requires forall y | y in t && y !in before :: AddedShell(before, c, own, 0, t[y])
    requires (comm == 0 || comm == x || comm == links[0]) && (negId == 0 || negId == links[1]) && 0 !in before
    ensures OnlyNamed(before, BackLinks(t[x := o], x, comm, negId), c, own, x)
  {
    hide AddedShell;
    var t1, t' := t[x := o], BackLinks(t[x := o], x, comm, negId);
    forall y | y in t' && y !in before && y != x ensures AddedShell(before, c, own, x, t'[y]) {
      assert y in t && AddedShell(before, c, own, 0, t[y]);
      BackLinksAt(t1, x, comm, negId, y);
      SameShell(before, c, own, x, t[y], t'[y]);
    }
    forall y | y in before && y != x ensures y in t' && Touched(before[y], t'[y], x) {
      BackLinksAt(t1, x, comm, negId, y);
    }
    forall y | y in before && y != x && !NamedAs(c, own, 0, before[y].key) && !NamedAs(c, own, 1, before[y].key)
      ensures y in t' && t'[y] == before[y]
    {
      BackLinksAt(t1, x, comm, negId, y);
    }
  }

  lemma SameShell(before: Catalog, c: Command, own: OpKey, x: Oid, o: Operator, o': Operator)
    requires AddedShell(before, c, own, 0, o) && Touched(o, o', x)
    ensures AddedShell(before, c, own, x, o')
  {
  }

  lemma FourLinks(before: Catalog, t: Catalog, c: Command, own: OpKey, id: Oid, links: seq<Oid>, commId: Oid,
                  negId: Oid)
    requires Linking(before, t, c, own, id, links, commId, negId)
    ensures |links| == 4 && Extends(before, t)
  {
  }

  lemma NoBackLinks(t: Catalog, x: Oid)
    requires CatalogOk(t)
    ensures BackLinks(t, x, 0, 0) == t
  {
  }

  lemma OwnKey(before: Catalog, t: Catalog, own: OpKey, id: Oid, x: Oid)
    requires CatalogOk(t) && Extends(before, t)
    requires id == 0 ==> Absent(t, own) && x !in t
    requires id != 0 ==> x == id && Has(before, id, own) && before[id].IsShell()
    ensures (forall y | y in t :: t[y].key == own <==> y == x) && Finds(before, own, x) && (x in t ==> t[x].IsShell())
  {
    if id != 0 { Member(t, id); }
  }

  lemma LinksInNew(t: Catalog, c: Command, own: OpKey, id: Oid, links: seq<Oid>, comm: Oid, negId: Oid, x: Oid,
                   o: Operator)
    requires |links| == 4 && o.key == own && LinkOk(t, c, own, id, 0, links[0]) && LinkOk(t, c, own, id, 1, links[1])
    requires comm == 0 || comm == links[0] || (comm == x && c.com.Some? && links[0] == 0)
    requires (negId == 0 || negId == links[1]) && (x in t ==> t[x].key == own)
    ensures Linked(t[x := o], comm, own.right, own.left) && Linked(t[x := o], negId, own.left, own.right)
  {
  }

  lemma DefineEvolves(before: Catalog, t: Catalog, x: Oid, o: Operator, comm: Oid, negId: Oid)
    requires Extends(before, t) && CatalogOk(t[x := o]) && Evolves(t, t[x := o])
    requires Linked(t[x := o], comm, o.key.right, o.key.left) && Linked(t[x := o], negId, o.key.left, o.key.right)
    ensures Evolves(before, BackLinks(t[x := o], x, comm, negId))
  {
    hide CatalogOk, BackLinks, Linked;
    ExtendsEvolves(before, t);
    BackLinksOk(t[x := o], x, comm, negId);
    hide Evolves;
    EvolvesTransitive(before, t, t[x := o]);
    EvolvesTransitive(before, t[x := o], BackLinks(t[x := o], x, comm, negId));
  }

  lemma ShellAdded(before: Catalog, t: Catalog, c: Command, own: OpKey, j: nat, name: string)
    requires j < 4 && Other(c, j) == Some(name) && Extends(before, t) && Absent(t, OtherKey(name, own, j))
    ensures AddedShell(before, c, own, 0, Shell(OtherKey(name, own, j)))
  {
    assert NamedAs(c, own, j, OtherKey(name, own, j));
  }

  class OperatorTable {
    const types: map<string, Oid>
    const procs: map<(string, seq<Oid>), Proc>
    var table: Catalog
    var nextOid: Oid

    ghost predicate Valid()
      reads this
    {
      && CatalogOk(table) && nextOid > 0 && (forall x | x in table :: x < nextOid)
      && (forall n | n in types :: types[n] != 0) && (forall p | p in procs :: procs[p].oid != 0)
    }

    constructor (types: map<string, Oid>, procs: map<(string, seq<Oid>), Proc>)
      requires (forall n | n in types :: types[n] != 0) && (forall p | p in procs :: procs[p].oid != 0)
      ensures Valid() && table == map[] && this.types == types && this.procs == procs
    {
      this.types, this.procs, table, nextOid := types, procs, map[], 1;
    }

    /** OperatorGetWithOpenRelation: a scan, in whatever order. */
    method Get(k: OpKey) returns (x: Oid)
      requires Valid()
      ensures x != 0 ==> Has(table, x, k)
      ensures x == 0 ==> Absent(table, k)
      ensures Finds(table, k, x)
    {
      var todo := table.Keys;
      while todo != {}
        invariant todo <= table.Keys && forall y | y in table && y !in todo :: table[y].key != k
        decreases |todo|
      {
        var y :| y in todo;
        if table[y].key == k {
          return y;
        }
        todo := todo - {y};
      }
      x := 0;
    }

    /** OperatorShellMake. */
    method ShellMake(k: OpKey) returns (x: Oid)
      requires Valid() && Absent(table, k)
      modifies this
      ensures Valid() && x == old(nextOid) < nextOid && x !in old(table) && table == old(table)[x := Shell(k)]
    {
      x := nextOid;
      AddShell(table, x, k);
      hide CatalogOk;
      table, nextOid := table[x := Shell(k)], nextOid + 1;
    }

    /** One of the other operators: its object id, for which a shell is made if need be. */
    method LinkTo(k: OpKey, own: OpKey, ghost id: Oid) returns (found: Oid, link: Oid)
      requires Valid() && (id == 0 ==> Absent(table, own)) && (id != 0 ==> Has(table, id, own))
      modifies this
      ensures Valid() && Extends(old(table), table) && old(nextOid) <= nextOid
      ensures found != 0 ==> found == link && Has(old(table), found, k) && table == old(table)
      ensures Finds(old(table), k, found)
      ensures link != 0 ==> Has(table, link, k)
      ensures link == 0 ==> id == 0 && k == own && table == old(table)
      ensures forall y | y in table && y !in old(table) :: table[y] == Shell(k) && Absent(old(table), k)
      ensures id == 0 ==> Absent(table, own)
      ensures k == own && id == 0 ==> link == 0
    {
      hide CatalogOk;
      found := Get(k);
      link := found;
      if found == 0 && k != own {
        link := ShellMake(k);
      }
    }

    /** The loop over the four other operators. */
    method LinkOthers(c: Command, own: OpKey, ghost id: Oid)
      returns (ok: bool, links: seq<Oid>, commId: Oid, negId: Oid)
      requires Valid() && (id == 0 ==> Absent(table, own)) && (id != 0 ==> Has(table, id, own))
      modifies this
      ensures Valid() && Extends(old(table), table) && (id == 0 ==> Absent(table, own)) && old(nextOid) <= nextOid
      ensures ok <==> !(id == 0 && NamesItself(c, own))
      ensures ok ==> Linking(old(table), table, c, own, id, links, commId, negId)
    {
      hide CatalogOk, Evolves, AddedShell;
      links, commId, negId := [], 0, 0;
      for j := 0 to 4
        invariant Valid() && Extends(old(table), table) && |links| == j && old(nextOid) <= nextOid
        invariant (id == 0 ==> Absent(table, own)) && (id != 0 ==> Has(table, id, own))
        invariant forall k: nat | k < j :: LinkOk(table, c, own, id, k, links[k])
        invariant forall y | y in table && y !in old(table) :: AddedShell(old(table), c, own, 0, table[y])
        invariant commId == 0 || (j > 0 && commId == links[0])
        invariant negId == 0 || (j > 1 && negId == links[1])
        invariant id == 0 ==>
          forall k | 1 <= k < j :: !(Other(c, k).Some? && OtherKey(Other(c, k).value, own, k) == own)
        invariant j > 0 ==> c.com.Some? ==> Finds(old(table), OtherKey(c.com.value, own, 0), commId)
        invariant j > 1 ==> c.neg.Some? ==> Finds(old(table), OtherKey(c.neg.value, own, 1), negId)
      {
        ghost var before := table;
        assert Extends(old(table), before);
        var name := Other(c, j);
        var link := 0;
        if name.Some? {
          var found;
          found, link := LinkTo(OtherKey(name.value, own, j), own, id);
          if link == 0 && j != 0 {
            ok := false;
            return;
          }
          if j == 0 { commId := found; }
          if j == 1 { negId := found; }
        }
        forall y | y in table && y !in old(table) ensures AddedShell(old(table), c, own, 0, table[y]) {
          if y in before { assert table[y] == before[y]; }
          else { ShellAdded(old(table), before, c, own, j, name.value); }
        }
        forall k: nat | k < j ensures LinkOk(table, c, own, id, k, links[k]) {
          LinkStays(before, table, c, own, id, k, links[k]);
        }
        links := links + [link];
      }
      ok := true;
    }

    /** OperatorUpd. */
    method OperatorUpd(base: Oid, commId: Oid, negId: Oid)
      requires Valid() && base in table
      requires Linked(table, commId, table[base].key.right, table[base].key.left)
      requires Linked(table, negId, table[base].key.left, table[base].key.right)
      modifies `table
      ensures Valid() && Evolves(old(table), table)
      ensures table == BackLinks(old(table), base, commId, negId)
    {
      hide CatalogOk, Evolves;
      BackLinksOk(table, base, commId, negId);
      if commId == negId {
        if commId in table {
          var t := table[commId];
          if t.com == 0 || t.negate == 0 {
            var values := t;
            if t.negate == 0 {
              values := values.(negate := base);
            }
            if t.com == 0 {
              values := values.(com := base);
            }
            table := table[commId := values];
          }
        }
        assert table == BackLinks(old(table), base, commId, negId);
        return;
      }
      if commId in table && table[commId].com == 0 {
        table := table[commId := table[commId].(com := base)];
      }
      if negId in table && table[negId].negate == 0 {
        table := table[negId := table[negId].(negate := base)];
      }
    }

    /** OperatorDef from the point where the command has been checked; id is the shell, or 0. */
    method OperatorDef(c: Command, own: OpKey, id: Oid, info: Info, code: Oid) returns (x: Oid)
      requires Valid() && code != 0 && Finds(table, own, id) && (id != 0 ==> Has(table, id, own) && table[id].IsShell())
      modifies this
      ensures Valid() && (x == 0 <==> id == 0 && NamesItself(c, own)) && old(nextOid) <= nextOid
      ensures x != 0 ==> DefinedAs(old(table), table, c, own, x, info, code)
    {
      hide CatalogOk, Evolves, Linking, DefinedAs, Linked, BackLinks, NamesItself;
      ghost var before := table;
      AbsentIfNone(own, id);
      var ok, links, commId, negId := LinkOthers(c, own, id);
      if !ok {
        return 0;
      }
      assert |links| == 4 by { FourLinks(before, table, c, own, id, links, commId, negId); }
      if id != 0 {
        x := id;
      } else {
        x, nextOid := nextOid, nextOid + 1;
      }
      DefineKeeps(before, table, c, own, id, links, commId, negId, x, info, code);
      var o := Operator(own, info, links[0], links[1], links[2], links[3], code);
      if c.com.Some? && links[0] == 0 {
        commId := x;      // the operator is its own commutator
      }
      table := table[x := o];
      if commId != 0 || negId != 0 {
        OperatorUpd(x, commId, negId);
      } else {
        NoBackLinks(table, x);
      }
    }

    lemma AbsentIfNone(own: OpKey, id: Oid)
      requires Valid() && Finds(table, own, id)
      ensures id == 0 ==> Absent(table, own)
    {
    }

    // -------------------------------------------------------------- checks

    function TypeOf(n: Option<string>): Option<Oid> {
      match n
      case None => Some(0)
      case Some(t) => if t in types then Some(types[t]) else None
    }

    predicate TypesExist(c: Command) { TypeOf(c.left).Some? && TypeOf(c.right).Some? }

    function OwnKeyOf(c: Command): OpKey
      requires TypesExist(c)
    {
      OpKey(c.name, TypeOf(c.left).value, TypeOf(c.right).value)
    }

    function ProcArgs(c: Command): seq<Oid>
      requires TypesExist(c)
    {
      if c.left.None? then [TypeOf(c.right).value]
      else if c.right.None? then [TypeOf(c.left).value]
      else [TypeOf(c.left).value, TypeOf(c.right).value]
    }

    predicate IsBinary(c: Command) { c.left.Some? && c.right.Some? }

    predicate HasExtras(c: Command) {
      c.com.Some? || c.neg.Some? || c.restrict.Some? || c.join.Some? || c.canHash || c.lsort.Some? || c.rsort.Some?
    }

    function Selectivity(n: Option<string>, args: seq<Oid>): Option<Oid> {
      match n
      case None => Some(0)
      case Some(p) => if (p, args) in procs then Some(procs[(p, args)].oid) else None
    }

    function Restriction(c: Command): Option<Oid> { Selectivity(c.restrict, [OIDOID, OIDOID, INT2OID, 0, INT4OID]) }

    function Join(c: Command): Option<Oid> { Selectivity(c.join, [OIDOID, OIDOID, INT2OID, OIDOID, INT2OID]) }

    predicate ProcsExist(c: Command)
      requires TypesExist(c)
    {
      (c.proc, ProcArgs(c)) in procs && Restriction(c).Some? && Join(c).Some?
    }

    function InfoOf(c: Command): Info
      requires TypesExist(c) && ProcsExist(c)
    {
      var kind := if c.left.Some? then (if c.right.Some? then 'b' else 'r') else 'l';
      Info(c.precedence, kind, c.leftAssoc, c.canHash, procs[(c.proc, ProcArgs(c))].result, Restriction(c).value,
        Join(c).value)
    }

    /** Some operator of this key has been defined. */
    ghost predicate IsDefined(k: OpKey)
      reads this
    {
      DefinedIn(table, k)
    }

    /** The commands that succeed. */
    ghost predicate Allowed(c: Command)
      reads this
    {
      AllowedIn(table, c)
    }

    ghost predicate AllowedIn(t: Catalog, c: Command) {
      && (c.left.Some? || c.right.Some?) && (IsBinary(c) || !HasExtras(c))
      && TypesExist(c) && ProcsExist(c)
      && !DefinedIn(t, OwnKeyOf(c)) && !(Absent(t, OwnKeyOf(c)) && NamesItself(c, OwnKeyOf(c)))
    }

    /** The argument types of the operator, in their order, as its procedure is looked up with them. */
    predicate Arguments(c: Command, key: OpKey, args: seq<Oid>) {
      && key.name == c.name
      && (if c.left.Some? then c.left.value in types && key.left == types[c.left.value] else key.left == 0)
      && (if c.right.Some? then c.right.value in types && key.right == types[c.right.value] else key.right == 0)
      && (c.left.Some? && c.right.Some? ==> |args| == 2 && args[0] == key.left && args[1] == key.right)
      && (c.left.Some? && c.right.None? ==> |args| == 1 && args[0] == key.left)
      && (c.left.None? ==> |args| == 1 && args[0] == key.right)
    }

    /** The procedure named, or none. */
    predicate Called(n: Option<string>, args: seq<Oid>, x: Oid) {
      if n.Some? then (n.value, args) in procs && x == procs[(n.value, args)].oid else x == 0
    }

    /** The tuple holds what the command says, column by column. */
    predicate Stored(c: Command, o: Operator, args: seq<Oid>) {
      && Arguments(c, o.key, args)
      && (c.proc, args) in procs && o.code == procs[(c.proc, args)].oid && o.info.result == procs[(c.proc, args)].result
      && Called(c.restrict, [26, 26, 21, 0, 23], o.info.rest) && Called(c.join, [26, 26, 21, 26, 21], o.info.join)
      && o.info.precedence == c.precedence && o.info.leftAssoc == c.leftAssoc && o.info.canHash == c.canHash
      && (o.info.kind == 'l' <==> c.left.None?) && (o.info.kind == 'r' <==> c.left.Some? && c.right.None?)
      && (o.info.kind == 'b' <==> c.left.Some? && c.right.Some?)
    }

    lemma StoredAs(before: Catalog, t: Catalog, c: Command, x: Oid)
      requires TypesExist(c) && ProcsExist(c) && (c.left.Some? || c.right.Some?)
      requires DefinedAs(before, t, c, OwnKeyOf(c), x, InfoOf(c), procs[(c.proc, ProcArgs(c))].oid)
      ensures x in t && Stored(c, t[x], ProcArgs(c))
    {
      assert x in t && t[x].key == OwnKeyOf(c) && t[x].info == InfoOf(c);
      assert t[x].code == procs[(c.proc, ProcArgs(c))].oid;
      hide DefinedAs;
    }

    /** OperatorCreate; an error ends the transaction, and with it the shells already made. */
    method OperatorCreate(c: Command) returns (r: Outcome)
      requires Valid()
      modifies this
      ensures Valid() && (r.Defined? <==> old(Allowed(c)))
      ensures r.Defined? ==>
        && TypesExist(c) && ProcsExist(c)
        && DefinedAs(old(table), table, c, OwnKeyOf(c), r.oid, InfoOf(c), procs[(c.proc, ProcArgs(c))].oid)
        && (SelfLinked(table, r.oid) <==> NamesItself(c, OwnKeyOf(c)))
      ensures r.Defined? ==> r.oid in table && LinkedAs(c, table, table[r.oid])
      ensures r.Defined? ==> exists args :: Stored(c, table[r.oid], args)
      ensures r.Failed? ==> table == old(table)
      ensures r.Failed? ==> match r.error
        case NoArgument => c.left.None? && c.right.None?
        case OnlyBinary => !IsBinary(c) && HasExtras(c)
        case NoSuchType => !TypesExist(c)
        case AlreadyDefined => TypesExist(c) && IsDefined(OwnKeyOf(c))
        case NoSuchProcedure => TypesExist(c) && !ProcsExist(c)
        case OwnLink => TypesExist(c) && Absent(table, OwnKeyOf(c)) && NamesItself(c, OwnKeyOf(c))
    {
      hide CatalogOk, DefinedAs, NamesItself;
      if c.left.None? && c.right.None? {
        return Failed(NoArgument);
      }
      if !IsBinary(c) && HasExtras(c) {
        return Failed(OnlyBinary);
      }
      if !TypesExist(c) {
        return Failed(NoSuchType);
      }
      var own := OwnKeyOf(c);
      var id := Get(own);
      if id != 0 && !table[id].IsShell() {
        return Failed(AlreadyDefined);
      }
      if !ProcsExist(c) {
        return Failed(NoSuchProcedure);
      }
      var saved := table;
      assert Absent(table, own) <==> id == 0;
      assert !IsDefined(own);
      SavedOk();
      var x := OperatorDef(c, own, id, InfoOf(c), procs[(c.proc, ProcArgs(c))].oid);
      if x == 0 {
        table := saved;
        return Failed(OwnLink);
      }
      SelfLinkExactly(saved, table, c, own, x, InfoOf(c), procs[(c.proc, ProcArgs(c))].oid);
      StoredAs(saved, table, c, x);
      DefinedLinks(saved, table, c, own, x, InfoOf(c), procs[(c.proc, ProcArgs(c))].oid);
      r := Defined(x);
    }

    lemma NotDefinedYet(k: OpKey)
      requires Valid() && exists y :: Has(table, y, k) && table[y].IsShell()
      ensures !IsDefined(k) && !Absent(table, k)
    {
    }

    lemma SavedOk()
      requires Valid()
      ensures CatalogOk(table)
    {
    }

    predicate NamesOwn(c: Command) { TypesExist(c) && NamesItself(c, OwnKeyOf(c)) }

    /** One of the commands has defined the operator, naming it as its own negator or sort operator. */
    ghost predicate MadeSelf(cs: seq<Command>, rs: seq<Outcome>, y: Oid)
      requires |rs| <= |cs|
    {
      exists k | 0 <= k < |rs| :: rs[k] == Defined(y) && NamesOwn(cs[k])
    }

    /** From one catalog to the next the command goes through exactly if it is allowed, and does what it says. */
    ghost predicate Commanded(t: Catalog, t': Catalog, c: Command, r: Outcome) {
      && (r.Defined? <==> AllowedIn(t, c)) && (r.Failed? ==> t' == t)
      && (r.Defined? ==> r.oid in t' && LinkedAs(c, t', t'[r.oid]) && exists args :: Stored(c, t'[r.oid], args))
    }

    /** A run of commands, with the catalogs it goes through; those that fail change nothing. */
    method Execute(cs: seq<Command>) returns (rs: seq<Outcome>, ghost ts: seq<Catalog>)
      requires Valid()
      modifies this
      ensures Valid() && |rs| == |cs| && |ts| == |cs| + 1 && ts[0] == old(table) && ts[|cs|] == table
      ensures Run(ts) && forall i, j | 0 <= i <= j <= |cs| :: Evolves(ts[i], ts[j])
      ensures forall i | 0 <= i < |cs| :: Commanded(ts[i], ts[i + 1], cs[i], rs[i])
      ensures old(ShellsFree(table)) ==> ShellsFree(table)
      ensures old(ShellsFree(table)) ==>
        forall y :: SelfLinked(table, y) <==> SelfLinked(old(table), y) || MadeSelf(cs, rs, y)
    {
      hide CatalogOk, Evolves, DefinedAs, SelfLinked, ShellsFree, NamesOwn, AllowedIn, Run, Stored, LinkedAs;
      rs, ts := [], [table];
      OneState(table);
      for i := 0 to |cs|
        invariant Valid() && |rs| == i && |ts| == i + 1 && ts[0] == old(table) && ts[i] == table && Run(ts)
        invariant forall k | 0 <= k < i :: Commanded(ts[k], ts[k + 1], cs[k], rs[k])
        invariant old(ShellsFree(table)) ==> ShellsFree(table)
        invariant old(ShellsFree(table)) ==>
          forall y :: SelfLinked(table, y) <==> SelfLinked(old(table), y) || MadeSelf(cs, rs, y)
      {
        ghost var before, was := table, rs;
        NotYet(cs[i]);
        var r := OperatorCreate(cs[i]);
        rs := rs + [r];
        CommandStep(before, cs[i], r);
        NextState(ts, table);
        MadeNext(cs, was, r, i);
        ts := ts + [table];
      }
      forall i, j | 0 <= i <= j <= |cs| ensures Evolves(ts[i], ts[j]) { RunEvolves(ts, i, j); }
    }

    lemma MadeNext(cs: seq<Command>, rs: seq<Outcome>, r: Outcome, i: nat)
      requires |rs| == i < |cs|
      ensures forall y :: MadeSelf(cs, rs + [r], y) <==> MadeSelf(cs, rs, y) || (r == Defined(y) && NamesOwn(cs[i]))
    {
      hide NamesOwn;
      forall y ensures MadeSelf(cs, rs + [r], y) <==> MadeSelf(cs, rs, y) || (r == Defined(y) && NamesOwn(cs[i])) {
        assert forall k | 0 <= k < i :: (rs + [r])[k] == rs[k];
        assert (rs + [r])[i] == r;
      }
    }

    /** A command that is allowed is for an operator that is at most a shell. */
    lemma NotYet(c: Command)
      requires Valid()
      ensures Allowed(c) ==> forall x | Has(table, x, OwnKeyOf(c)) :: table[x].IsShell()
    {
    }

    lemma CommandStep(before: Catalog, c: Command, r: Outcome)
      requires Valid() && (r.Failed? ==> table == before)
      requires r.Defined? ==>
        && TypesExist(c) && ProcsExist(c) && (forall x | Has(before, x, OwnKeyOf(c)) :: before[x].IsShell())
        && DefinedAs(before, table, c, OwnKeyOf(c), r.oid, InfoOf(c), procs[(c.proc, ProcArgs(c))].oid)
      ensures Evolves(before, table)
      ensures ShellsFree(before) ==> ShellsFree(table)
      ensures ShellsFree(before) ==>
        forall y :: SelfLinked(table, y) <==> SelfLinked(before, y) || (r == Defined(y) && NamesOwn(c))
    {
      if r.Defined? && ShellsFree(before) {
        hide CatalogOk, ShellsFree, SelfLinked, NamesItself;
        SelfLinkStep(before, table, c, OwnKeyOf(c), r.oid, InfoOf(c), procs[(c.proc, ProcArgs(c))].oid);
      }
    }
  }

  lemma OneState(t: Catalog)
    ensures Run([t])
  {
  }

  lemma NextState(ts: seq<Catalog>, t: Catalog)
    requires ts != [] && Run(ts) && Evolves(ts[|ts| - 1], t)
    ensures Run(ts + [t])
  {
    forall i: nat | i + 1 < |ts + [t]| ensures Evolves((ts + [t])[i], (ts + [t])[i + 1]) {
      if i + 1 < |ts| { assert Evolves(ts[i], ts[i + 1]); }
    }
  }

  /** An operator that was named before it was defined may be its own negator or sort operator: the test for that
      is made only for operators that are not in the catalog. */
  method OwnLink(ops: OperatorTable, c: Command, j: nat) returns (x: Oid)
    requires ops.Valid() && ops.Allowed(c) && 1 <= j < 4 && NamedAs(c, ops.OwnKeyOf(c), j, ops.OwnKeyOf(c))
    modifies ops
    ensures ops.Valid() && x in ops.table && Link(ops.table[x], j) == x && !ops.table[x].IsShell()
  {
    var r := ops.OperatorCreate(c);
    x := r.oid;
    assert LinkTarget(ops.table, c, ops.OwnKeyOf(c), j, Link(ops.table[x], j));
  }

  /** The second command is the one for an operator that the first has named, and that names itself.  It would
      fail if the first had not been there. */
  method OwnLinkRun(ops: OperatorTable, a: Command, i: nat, b: Command, j: nat) returns (x: Oid)
    requires ops.Valid() && ops.Allowed(a) && ops.TypesExist(b) && ops.ProcsExist(b) && 1 <= j < 4 && i < 4
    requires NamedAs(a, ops.OwnKeyOf(a), i, ops.OwnKeyOf(b)) && ops.OwnKeyOf(a) != ops.OwnKeyOf(b)
    requires NamedAs(b, ops.OwnKeyOf(b), j, ops.OwnKeyOf(b)) && Absent(ops.table, ops.OwnKeyOf(b)) && ops.IsBinary(b)
    modifies ops
    ensures !old(ops.Allowed(b))
    ensures ops.Valid() && x in ops.table && Link(ops.table[x], j) == x && !ops.table[x].IsShell()
  {
    ghost var own := ops.OwnKeyOf(b);
    assert NamesItself(b, own) by { assert Other(b, j).Some? && OtherKey(Other(b, j).value, own, j) == own; }
    ghost var before := ops.table;
    var r := ops.OperatorCreate(a);
    ShellIsThere(before, ops.table, a, i, ops.OwnKeyOf(a), r.oid, ops.InfoOf(a),
      ops.procs[(a.proc, ops.ProcArgs(a))].oid, own);
    ops.NotDefinedYet(own);
    x := OwnLink(ops, b, j);
  }

  lemma ShellIsThere(before: Catalog, t: Catalog, a: Command, i: nat, own: OpKey, x: Oid, info: Info, code: Oid,
                     other: OpKey)
    requires DefinedAs(before, t, a, own, x, info, code) && Absent(before, other) && other != own
    requires i < 4 && NamedAs(a, own, i, other)
    ensures exists y :: Has(t, y, other) && t[y].IsShell()
  {
    assert LinkTarget(t, a, own, i, Link(t[x], i));
    assert Has(t, Link(t[x], i), other);
  }
}
