/**
  The string table of the bootstrap lexer: an array of strings, whose positions
  are the numbers of the strings, and a chained hash table to find them.
 */
module StringTable {
  import opened Basics
  import opened LinkedCells

  const STRTABLESIZE := 10000
  const HASHTABLESIZE := 503
  const NUM := 23
  const NUMSQR := 529
  const NUMCUBE := 12167

  /** Not empty and of seven bits: the hash reads the last character, and characters are signed. */
  predicate IsName(s: Text) { s != [] && forall i | 0 <= i < |s| :: s[i] < 128 }

  /** CompHash. */
  function CompHash(s: Text): (h: nat)
    requires IsName(s)
    ensures h < HASHTABLESIZE
  {
    (NUM * s[0] as int + NUMSQR * s[|s| - 1] as int + NUMCUBE * s[(|s| - 1) / 2] as int) % HASHTABLESIZE
  }

  ghost predicate Distinct(t: seq<Text>) { forall i, j | 0 <= i < j < |t| :: t[i] != t[j] }

  /** A string that is not there goes to the end. */
  function Enter(t: seq<Text>, s: Text): seq<Text> { if s in t then t else t + [s] }

  function EnterAll(t: seq<Text>, w: seq<Text>): seq<Text>
    decreases |w|
  {
    if w == [] then t else EnterAll(Enter(t, w[0]), w[1..])
  }

  ghost predicate IsAt(t: seq<Text>, s: Text, n: nat) { n < |t| && t[n] == s }

  /** Numbers stay as they are, and are only given to the strings entered. */
  lemma {:induction false} EnterAllKeeps(t: seq<Text>, w: seq<Text>)
    requires Distinct(t)
    ensures t <= EnterAll(t, w) && Distinct(EnterAll(t, w))
    ensures forall s :: s in EnterAll(t, w) <==> s in t || s in w
    decreases |w|
  {
    if w != [] {
      EnterKeeps(t, w[0]);
      hide Enter, Distinct;
      EnterAllKeeps(Enter(t, w[0]), w[1..]);
      forall s ensures s in EnterAll(t, w) <==> s in t || s in w { InTail(w, s); }
    }
  }

  lemma InTail(w: seq<Text>, s: Text)
    requires w != []
    ensures s in w <==> s == w[0] || s in w[1..]
  {
  }

  lemma EnterKeeps(t: seq<Text>, x: Text)
    requires Distinct(t)
    ensures t <= Enter(t, x) && Distinct(Enter(t, x)) && forall s :: s in Enter(t, x) <==> s in t || s == x
  {
  }

  lemma {:induction false} EnterAllAppend(t: seq<Text>, w: seq<Text>, v: seq<Text>)
    ensures EnterAll(t, w + v) == EnterAll(EnterAll(t, w), v)
    decreases |w|
  {
    if w == [] {
      assert w + v == v;
    } else {
      assert (w + v)[0] == w[0] && (w + v)[1..] == w[1..] + v;
      EnterAllAppend(Enter(t, w[0]), w[1..], v);
    }
  }

  /** Whatever is entered in whatever order: equal strings have equal numbers and different strings
      different ones, and a string seen earlier has the smaller number. */
  lemma FirstSeenOrder(w: seq<Text>, i: nat, j: nat, m: nat, n: nat)
    requires i < |w| && j < |w| && IsAt(EnterAll([], w), w[i], m) && IsAt(EnterAll([], w), w[j], n)
    ensures m == n <==> w[i] == w[j]
    ensures i < j && w[j] !in w[..j] ==> m < n
  {
    EnterAllKeeps([], w);
    SameNumber(EnterAll([], w), w[i], w[j], m, n);
    if i < j && w[j] !in w[..j] {
      hide *;
      EntersPrefix(w, j);
      assert w[..j][i] == w[i];
      EarlierIsSmaller(EnterAll([], w[..j]), EnterAll([], w), w[i], w[j], m, n);
    }
  }

  lemma EntersPrefix(w: seq<Text>, j: nat)
    requires j <= |w|
    ensures EnterAll([], w[..j]) <= EnterAll([], w) && Distinct(EnterAll([], w))
    ensures forall s :: s in EnterAll([], w[..j]) <==> s in w[..j]
  {
    EnterAllKeeps([], w[..j]);
    assert w == w[..j] + w[j..];
    EnterAllAppend([], w[..j], w[j..]);
    EnterAllKeeps(EnterAll([], w[..j]), w[j..]);
  }

  lemma SameNumber(all: seq<Text>, s: Text, t: Text, m: nat, n: nat)
    requires Distinct(all) && IsAt(all, s, m) && IsAt(all, t, n)
    ensures m == n <==> s == t
  {
  }

  lemma EarlierIsSmaller(a: seq<Text>, all: seq<Text>, s: Text, t: Text, m: nat, n: nat)
    requires a <= all && Distinct(all) && s in a && t !in a && IsAt(all, s, m) && IsAt(all, t, n)
    ensures m < n
  {
    var k :| 0 <= k < |a| && a[k] == s;
    assert all[k] == s;
    assert forall i | 0 <= i < |a| :: all[i] == a[i];
  }

  ghost predicate AllNames(strings: seq<Text>) { forall n | 0 <= n < |strings| :: IsName(strings[n]) }

  /** The numbers of the strings that hash to h. */
  ghost predicate BucketOk(strings: seq<Text>, numbers: seq<nat>, h: nat)
    requires AllNames(strings)
  {
    forall n: nat :: n in numbers <==> n < |strings| && CompHash(strings[n]) == h
  }

  ghost predicate BucketsOk(strings: seq<Text>, numbers: seq<seq<nat>>) {
    AllNames(strings) && |numbers| == HASHTABLESIZE && forall h | 0 <= h < HASHTABLESIZE ::
      BucketOk(strings, numbers[h], h)
  }

  lemma BucketsGrow(strings: seq<Text>, s: Text, numbers: seq<seq<nat>>)
    requires BucketsOk(strings, numbers) && IsName(s)
    ensures BucketsOk(strings + [s], numbers[CompHash(s) := numbers[CompHash(s)] + [|strings|]])
  {
    var numbers' := numbers[CompHash(s) := numbers[CompHash(s)] + [|strings|]];
    forall h | 0 <= h < HASHTABLESIZE ensures BucketOk(strings + [s], numbers'[h], h) {
      assert BucketOk(strings, numbers[h], h);
    }
  }

  /** No node is in two chains. */
  ghost predicate Disjoint(chains: seq<seq<Cell<nat>>>) {
    forall g, h, i, j | 0 <= g < |chains| && 0 <= h < |chains| && g != h && 0 <= i < |chains[g]| &&
      0 <= j < |chains[h]| ::
      chains[g][i] != chains[h][j]
  }

  class StringTable {
    const strtable: array<Text>
    const hashtable: array<Cell?<nat>>    // the heads of the chains
    var last: int                         // strtable_end

    ghost var chains: seq<seq<Cell<nat>>>   // the nodes of every chain
    ghost var numbers: seq<seq<nat>>        // and the string numbers they hold
    ghost var nodes: set<Cell<nat>>

    /** Every chain leads from the table through its own nodes. */
    ghost predicate ChainsOk()
      reads `chains, `numbers, `nodes, hashtable, nodes
    {
      && hashtable.Length == HASHTABLESIZE == |chains| == |numbers| && Disjoint(chains)
      && forall h | 0 <= h < HASHTABLESIZE :: ChainOk(h)
    }

    ghost predicate ChainOk(h: nat)
      requires h < hashtable.Length == |chains| == |numbers|
      reads `chains, `numbers, `nodes, hashtable, nodes
    {
      && (forall i | 0 <= i < |chains[h]| :: chains[h][i] in nodes)
      && Represents(chains[h], numbers[h], null) && hashtable[h] == At(chains[h], 0, null)
    }

    ghost predicate Valid()
      reads this, strtable, hashtable, nodes
    {
      && strtable.Length == STRTABLESIZE && -1 <= last < STRTABLESIZE
      && Distinct(strtable[..last + 1]) && BucketsOk(strtable[..last + 1], numbers) && ChainsOk()
    }

    ghost function Strings(): seq<Text>
      requires Valid()
      reads this, strtable, hashtable, nodes
    {
      strtable[..last + 1]
    }

    constructor ()
      ensures Valid() && Strings() == [] && fresh(strtable) && fresh(hashtable) && nodes == {}
    {
      strtable := new Text[STRTABLESIZE](_ => []);
      hashtable := new Cell?<nat>[HASHTABLESIZE](_ => null);
      last, nodes := -1, {};
      chains, numbers := seq(HASHTABLESIZE, _ => []), seq(HASHTABLESIZE, _ => []);
    }

    method FindStr(s: Text) returns (r: Option<nat>)
      requires Valid() && IsName(s)
      ensures match r
        case Some(n) => IsAt(Strings(), s, n)
        case None => s !in Strings()
    {
      assert AllNames(Strings());
      var h := CompHash(s);
      ghost var cells, held := chains[h], numbers[h];
      assert ChainOk(h) && BucketOk(Strings(), held, h);
      Here(cells, held, 0);
      hide ChainOk, Represents, At, CompHash, Distinct, Disjoint, IsName, BucketsOk;
      var node := hashtable[h];
      ghost var k := 0;
      while node != null
        invariant k <= |cells| == |held| && node == At(cells, k, null)
        invariant forall i | 0 <= i < k :: held[i] <= last && strtable[held[i]] != s
        decreases |cells| - k
      {
        Here(cells, held, k);
        assert held[k] in held;
        if strtable[node.item] == s {
          return Some(node.item);
        }
        node := node.next;
        k := k + 1;
      }
      Here(cells, held, k);
      r := None;
    }

    /** A node at the end of the chain of h. */
    method AddNode(h: nat, n: nat)
      requires ChainsOk() && h < HASHTABLESIZE
      modifies hashtable, nodes, `chains, `numbers, `nodes
      ensures ChainsOk() && numbers == old(numbers)[h := old(numbers)[h] + [n]] && fresh(nodes - old(nodes))
    {
      assert ChainOk(h);
      var c;
      if hashtable[h] == null {
        c := new Cell(n);
        hashtable[h] := c;
      } else {
        var trail := Last(hashtable[h], chains[h], numbers[h]);
        c := Extend(trail, n, chains[h], numbers[h]);
      }
      nodes := nodes + {c};
      chains, numbers := chains[h := chains[h] + [c]], numbers[h := numbers[h] + [n]];
      forall g | 0 <= g < HASHTABLESIZE ensures ChainOk(g) {
        assert old(ChainOk(g));
        assert g != h ==>
          forall i, j | 0 <= i < |chains[g]| && 0 <= j < |old(chains[h])| :: chains[g][i] != old(chains[h])[j];
      }
    }

    /** AddStr; None is the fatal error that ends the process. */
    method AddStr(s: Text) returns (r: Option<nat>)
      requires Valid() && IsName(s) && s !in Strings()
      modifies this, strtable, hashtable, nodes
      ensures Valid() && fresh(nodes - old(nodes))
      ensures r.None? <==> |old(Strings())| == STRTABLESIZE
      ensures r.None? ==> Strings() == old(Strings())
      ensures r.Some? ==> r.value == |old(Strings())| && Strings() == old(Strings()) + [s]
    {
      hide ChainsOk, BucketsOk, CompHash, IsName;
      if last + 1 == STRTABLESIZE {
        return None;
      }
      ghost var was := Strings();
      BucketsGrow(was, s, numbers);
      last := last + 1;
      strtable[last] := s;
      assert strtable[..last + 1] == was + [s];
      AddNode(CompHash(s), last);
      r := Some(last);
    }

    method EnterString(s: Text) returns (r: Option<nat>)
      requires Valid() && IsName(s)
      modifies this, strtable, hashtable, nodes
      ensures Valid() && fresh(nodes - old(nodes))
      ensures r.None? <==> s !in old(Strings()) && |old(Strings())| == STRTABLESIZE
      ensures r.None? ==> Strings() == old(Strings())
      ensures r.Some? ==> Strings() == Enter(old(Strings()), s) && IsAt(Strings(), s, r.value)
    {
      r := FindStr(s);
      if r.None? {
        r := AddStr(s);
      }
    }

    method LexIDStr(n: nat) returns (s: Text)
      requires Valid() && n < |Strings()|
      ensures IsAt(Strings(), s, n)
    {
      s := strtable[n];
    }
  }
}
