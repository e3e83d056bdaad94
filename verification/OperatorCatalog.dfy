/**
  The operator catalog as a value: what keeps its links sound.
 */
module OperatorCatalog {
  import opened Basics

  /** Operators are told apart by name and argument types; a missing argument has type 0. */
  datatype OpKey = OpKey(name: string, left: Oid, right: Oid)

  datatype Info = Info(precedence: nat, kind: char, leftAssoc: bool, canHash: bool, result: Oid, rest: Oid, join: Oid)

  datatype Operator = Operator(key: OpKey, info: Info, com: Oid, negate: Oid, lsort: Oid, rsort: Oid, code: Oid)
  {
    /** A shell has no code: it has been named by another operator and not been defined. */
    predicate IsShell() { code == 0 }
  }

  type Catalog = map<Oid, Operator>

  function Shell(k: OpKey): Operator {
    Operator(k, Info(0, 'b', false, false, 0, 0, 0), 0, 0, 0, 0, 0)
  }

  predicate Has(t: Catalog, x: Oid, k: OpKey) { x in t && t[x].key == k }

  /** No link, or a link to an operator of these types. */
  predicate Linked(t: Catalog, x: Oid, left: Oid, right: Oid) {
    x == 0 || (x in t && t[x].key.left == left && t[x].key.right == right)
  }

  /** A commutator takes the types reversed, a negator the same ones, a sort operator one of them twice. */
  predicate LinksOk(t: Catalog, o: Operator) {
    && Linked(t, o.com, o.key.right, o.key.left) && Linked(t, o.negate, o.key.left, o.key.right)
    && Linked(t, o.lsort, o.key.left, o.key.left) && Linked(t, o.rsort, o.key.right, o.key.right)
  }

  ghost predicate CatalogOk(t: Catalog) {
    && 0 !in t
    && (forall x, y | x in t && y in t && t[x].key == t[y].key :: x == y)
    && (forall x | x in t :: LinksOk(t, t[x]))
  }

  /** What may become of a defined operator: an empty commutator or negator link may be filled. */
  ghost predicate Settled(o: Operator, o': Operator) {
    && o' == o.(com := o'.com, negate := o'.negate)
    && (o.com != 0 ==> o'.com == o.com) && (o.negate != 0 ==> o'.negate == o.negate)
  }

  /** Operators keep object id, name and types; defined ones keep everything but empty links. */
  ghost predicate Evolves(t: Catalog, t': Catalog) {
    forall x | x in t :: x in t' && t'[x].key == t[x].key && (!t[x].IsShell() ==> Settled(t[x], t'[x]))
  }

  lemma EvolvesTransitive(a: Catalog, b: Catalog, c: Catalog)
    requires Evolves(a, b) && Evolves(b, c)
    ensures Evolves(a, c)
  {
    forall x | x in a ensures x in c && c[x].key == a[x].key && (!a[x].IsShell() ==> Settled(a[x], c[x])) {
      assert x in b && x in c;
    }
  }

  /** The states of the catalog one after the other. */
  ghost predicate Run(ts: seq<Catalog>) { forall i: nat | i + 1 < |ts| :: Evolves(ts[i], ts[i + 1]) }

  lemma {:induction false} RunEvolves(ts: seq<Catalog>, i: nat, j: nat)
    requires Run(ts) && i <= j < |ts|
    ensures Evolves(ts[i], ts[j])
    decreases j
  {
    if i < j {
      RunEvolves(ts, i, j - 1);
      assert Evolves(ts[j - 1], ts[j - 1 + 1]);
      EvolvesTransitive(ts[i], ts[j - 1], ts[j]);
    }
  }

  /** A link is still good where operators have kept their types. */
  lemma LinksStay(t: Catalog, t': Catalog, o: Operator)
    requires LinksOk(t, o) && forall x | x in t :: x in t' && t'[x].key == t[x].key
    ensures LinksOk(t', o)
  {
  }

  lemma AddShell(t: Catalog, x: Oid, k: OpKey)
    requires CatalogOk(t) && x !in t && x != 0 && forall y | y in t :: t[y].key != k
    ensures CatalogOk(t[x := Shell(k)]) && Evolves(t, t[x := Shell(k)])
  {
    var t' := t[x := Shell(k)];
    forall y | y in t' ensures LinksOk(t', t'[y]) {
      if y != x { LinksStay(t, t', t[y]); }
    }
  }

  lemma Member(t: Catalog, x: Oid)
    requires CatalogOk(t) && x in t
    ensures x != 0 && LinksOk(t, t[x]) && forall y | y in t :: t[y].key == t[x].key <==> y == x
  {
  }

  /** Only an empty link is filled. */
  lemma ReplacedEvolves(t: Catalog, x: Oid, o: Operator)
    requires x in t && o.key == t[x].key && (t[x].IsShell() || Settled(t[x], o))
    ensures Evolves(t, t[x := o])
  {
  }

  lemma Replaced(t: Catalog, x: Oid, o: Operator)
    requires CatalogOk(t) && x != 0 && LinksOk(t, o)
    requires forall y | y in t :: t[y].key == o.key <==> y == x
    ensures CatalogOk(t[x := o])
  {
    var t' := t[x := o];
    assert forall y | y in t :: t'[y].key == t[y].key;
    forall y | y in t' ensures LinksOk(t', t'[y]) {
      LinksStay(t, t', t'[y]);
    }
    hide LinksOk;
  }

  /** The tuple of the operator itself: a new one, or in place of its shell. */
  lemma PutOperator(t: Catalog, x: Oid, o: Operator)
    requires CatalogOk(t) && x != 0 && LinksOk(t, o)
    requires forall y | y in t :: t[y].key == o.key <==> y == x
    requires x in t ==> t[x].IsShell()
    ensures CatalogOk(t[x := o]) && Evolves(t, t[x := o])
  {
    Replaced(t, x, o);
    hide CatalogOk, LinksOk;
  }

  /** The same operators with the same names and types. */
  ghost predicate SameKeys(t: Catalog, t': Catalog) {
    t'.Keys == t.Keys && forall x | x in t :: t'[x].key == t[x].key
  }

  lemma LinkedStays(t: Catalog, t': Catalog, x: Oid, left: Oid, right: Oid)
    requires SameKeys(t, t') && Linked(t, x, left, right)
    ensures Linked(t', x, left, right)
  {
  }

  function SetCom(t: Catalog, x: Oid, base: Oid): Catalog {
    if x in t && t[x].com == 0 then t[x := t[x].(com := base)] else t
  }

  function SetNegate(t: Catalog, x: Oid, base: Oid): Catalog {
    if x in t && t[x].negate == 0 then t[x := t[x].(negate := base)] else t
  }

  lemma SetComOk(t: Catalog, x: Oid, base: Oid)
    requires CatalogOk(t) && base in t && Linked(t, x, t[base].key.right, t[base].key.left)
    ensures CatalogOk(SetCom(t, x, base)) && Evolves(t, SetCom(t, x, base)) && SameKeys(t, SetCom(t, x, base))
  {
    if x in t && t[x].com == 0 {
      Member(t, x);
      hide CatalogOk, Evolves;
      var o := t[x].(com := base);
      assert o.key == t[x].key;
      assert LinksOk(t, o);
      hide LinksOk;
      Replaced(t, x, o);
      ReplacedEvolves(t, x, o);
      assert t[x := o].Keys == t.Keys;
    }
  }

  lemma SetNegateOk(t: Catalog, x: Oid, base: Oid)
    requires CatalogOk(t) && base in t && Linked(t, x, t[base].key.left, t[base].key.right)
    ensures CatalogOk(SetNegate(t, x, base)) && Evolves(t, SetNegate(t, x, base)) && SameKeys(t, SetNegate(t, x, base))
  {
    if x in t && t[x].negate == 0 {
      Member(t, x);
      hide CatalogOk, Evolves;
      var o := t[x].(negate := base);
      assert o.key == t[x].key;
      assert LinksOk(t, o);
      hide LinksOk;
      Replaced(t, x, o);
      ReplacedEvolves(t, x, o);
      assert t[x := o].Keys == t.Keys;
    }
  }
}
