/**
  Who has got which of the values fetched from one sequence.  The k-th value
  fetched has number k; a session takes several numbers at a time, returns the
  first and keeps the others to return later.
 */
module SequenceLedger {
  import opened SequenceValues

  /** The numbers lo, ..., hi - 1 are with the session, not yet returned. */
  datatype Block = Block(lo: nat, hi: nat)

  datatype Call = Call(session: nat, k: nat, value: int)

  datatype Ledger = Ledger(n: nat, log: seq<Call>, blocks: map<nat, Block>)

  const NO_CALLS := Ledger(0, [], map[])

  ghost predicate Returned(l: Ledger, k: nat) {
    exists at | 0 <= at < |l.log| :: l.log[at].k == k
  }

  predicate Cached(l: Ledger, s: nat, k: nat) {
    s in l.blocks && l.blocks[s].lo <= k < l.blocks[s].hi
  }

  predicate Empty(l: Ledger, s: nat) { s !in l.blocks || l.blocks[s].lo == l.blocks[s].hi }

  /** Every number fetched has either been returned, once, or is cached, by one session. */
  ghost predicate Partition(l: Ledger) {
    && (forall at | 0 <= at < |l.log| :: l.log[at].k < l.n)
    && (forall i, j | 0 <= i < j < |l.log| :: l.log[i].k != l.log[j].k)
    && (forall k: nat | k < l.n :: Returned(l, k) || exists s: nat :: Cached(l, s, k))
    && (forall s: nat, k: nat | Cached(l, s, k) :: k < l.n && !Returned(l, k))
    && (forall s: nat, t: nat, k: nat | Cached(l, s, k) && Cached(l, t, k) :: s == t)
  }

  /** Each session returns increasing numbers, and what it has cached comes after. */
  ghost predicate Increasing(l: Ledger) {
    && (forall i, j | 0 <= i < j < |l.log| && l.log[i].session == l.log[j].session :: l.log[i].k < l.log[j].k)
    && (forall i, k: nat | 0 <= i < |l.log| && Cached(l, l.log[i].session, k) :: l.log[i].k < k)
  }

  ghost predicate LedgerOk(l: Ledger) {
    Partition(l) && Increasing(l) && forall s | s in l.blocks :: l.blocks[s].lo <= l.blocks[s].hi
  }

  /** The next cached number is returned. */
  function Serve(l: Ledger, s: nat, value: int): Ledger
    requires !Empty(l, s)
  {
    var b := l.blocks[s];
    Ledger(l.n, l.log + [Call(s, b.lo, value)], l.blocks[s := Block(b.lo + 1, b.hi)])
  }

  /** `count` new numbers, of which the first is returned. */
  function Refill(l: Ledger, s: nat, count: nat, value: int): Ledger
    requires count > 0
  {
    Ledger(l.n + count, l.log + [Call(s, l.n, value)], l.blocks[s := Block(l.n + 1, l.n + count)])
  }

  lemma ReturnedMore(l: Ledger, m: Ledger, c: Call, k: nat)
    requires m.log == l.log + [c]
    ensures Returned(m, k) <==> Returned(l, k) || k == c.k
  {
    assert m.log[|l.log|] == c;
    if Returned(l, k) {
      var at :| 0 <= at < |l.log| && l.log[at].k == k;
      assert m.log[at].k == k;
    }
  }

  lemma ServeOk(l: Ledger, s: nat, value: int)
    requires LedgerOk(l) && !Empty(l, s)
    ensures LedgerOk(Serve(l, s, value))
  {
    var m, b := Serve(l, s, value), l.blocks[s];
    var c := Call(s, b.lo, value);
    assert Cached(l, s, b.lo);
    forall k: nat ensures Returned(m, k) <==> Returned(l, k) || k == b.lo { ReturnedMore(l, m, c, k); }
    forall t: nat, k: nat ensures Cached(m, t, k) <==> Cached(l, t, k) && !(t == s && k == b.lo) {
    }
    forall i | 0 <= i < |l.log| ensures l.log[i].k != b.lo {
      assert l.log[i].k == b.lo ==> Returned(l, b.lo);
    }
    PartitionServe(l, m, s, b.lo);
  }

  lemma PartitionServe(l: Ledger, m: Ledger, s: nat, n: nat)
    requires Partition(l) && Cached(l, s, n) && l.n == m.n
    requires |m.log| == |l.log| + 1 && m.log[..|l.log|] == l.log && m.log[|l.log|].k == n
    requires forall k: nat :: Returned(m, k) <==> Returned(l, k) || k == n
    requires forall t: nat, k: nat :: Cached(m, t, k) <==> Cached(l, t, k) && !(t == s && k == n)
    requires forall i | 0 <= i < |l.log| :: l.log[i].k != n
    ensures Partition(m)
  {
    hide Returned, Cached;
    forall i, j | 0 <= i < j < |m.log| ensures m.log[i].k != m.log[j].k {
      assert m.log[i] == l.log[i];
      if j < |l.log| { assert m.log[j] == l.log[j]; }
    }
    forall at | 0 <= at < |m.log| ensures m.log[at].k < m.n {
      if at < |l.log| { assert m.log[at] == l.log[at]; }
    }
    forall k: nat | k < m.n ensures Returned(m, k) || exists t: nat :: Cached(m, t, k) {
      if !Returned(l, k) {
        var t: nat :| Cached(l, t, k);
        assert k == n || Cached(m, t, k);
      }
    }
  }

  lemma RefillOk(l: Ledger, s: nat, count: nat, value: int)
    requires LedgerOk(l) && Empty(l, s) && count > 0
    ensures LedgerOk(Refill(l, s, count, value))
  {
    var m := Refill(l, s, count, value);
    var c := Call(s, l.n, value);
    forall k: nat ensures Returned(m, k) <==> Returned(l, k) || k == l.n { ReturnedMore(l, m, c, k); }
    forall t: nat, k: nat ensures Cached(m, t, k) <==> Cached(l, t, k) || (t == s && l.n < k < l.n + count) {
    }
    assert forall k: nat | Returned(l, k) :: k < l.n;
    PartitionRefill(l, m, s, count);
  }

  lemma PartitionRefill(l: Ledger, m: Ledger, s: nat, count: nat)
    requires Partition(l) && m.n == l.n + count && count > 0
    requires |m.log| == |l.log| + 1 && m.log[..|l.log|] == l.log && m.log[|l.log|].k == l.n
    requires forall k: nat :: Returned(m, k) <==> Returned(l, k) || k == l.n
    requires forall t: nat, k: nat :: Cached(m, t, k) <==> Cached(l, t, k) || (t == s && l.n < k < l.n + count)
    requires forall k: nat | Returned(l, k) :: k < l.n
    ensures Partition(m)
  {
    hide Returned, Cached;
    forall i, j | 0 <= i < j < |m.log| ensures m.log[i].k != m.log[j].k {
      assert m.log[i] == l.log[i];
      if j < |l.log| { assert m.log[j] == l.log[j]; }
    }
    forall at | 0 <= at < |m.log| ensures m.log[at].k < m.n {
      if at < |l.log| { assert m.log[at] == l.log[at]; }
    }
    forall k: nat | k < m.n ensures Returned(m, k) || exists t: nat :: Cached(m, t, k) {
      if k > l.n {
        assert Cached(m, s, k);
      } else if k < l.n && !Returned(l, k) {
        var t: nat :| Cached(l, t, k);
        assert Cached(m, t, k);
      }
    }
  }

  // ---------------------------------------------------------------- values

  /** The values from number `since` on are those of the progression, after the first `skip` of it. */
  ghost predicate ValuesOk(l: Ledger, p: Progress, since: nat, skip: nat) {
    forall at | 0 <= at < |l.log| && l.log[at].k >= since :: l.log[at].value == Value(p, l.log[at].k - since + skip)
  }

  /** Where the range has not been used up no value is returned twice, and what a session gets goes up, or down,
      all the time. */
  lemma NoDuplicates(l: Ledger, p: Progress, since: nat, skip: nat, i: nat, j: nat)
    requires LedgerOk(l) && ValuesOk(l, p, since, skip) && p.Ok() && since <= l.n && Linear(p, l.n - since + skip)
    requires i < j < |l.log| && l.log[i].k >= since && l.log[j].k >= since
    ensures l.log[i].value != l.log[j].value
    ensures l.log[i].session == l.log[j].session && p.inc > 0 ==> l.log[i].value < l.log[j].value
    ensures l.log[i].session == l.log[j].session && p.inc < 0 ==> l.log[i].value > l.log[j].value
  {
    var x, y := l.log[i].k - since + skip, l.log[j].k - since + skip;
    if x < y {
      LinearOrder(p, l.n - since + skip, x, y);
    } else {
      LinearOrder(p, l.n - since + skip, y, x);
    }
  }

  /** In any case a value is returned again only if all values of the progression from the end of the range have
      been fetched in between. */
  lemma RepeatsLate(l: Ledger, p: Progress, since: nat, skip: nat, i: nat, j: nat, t: nat) returns (k: nat)
    requires LedgerOk(l) && ValuesOk(l, p, since, skip) && p.Ok()
    requires i < |l.log| && j < |l.log| && since <= l.log[i].k < l.log[j].k && l.log[i].value == l.log[j].value
    requires OnGrid(p, t)
    ensures l.log[i].k <= k < l.log[j].k && Value(p, k - since + skip) == p.End() + t * p.inc
  {
    var m := WholeProgression(p, l.log[i].k - since + skip, l.log[j].k - since + skip, t);
    k := m - skip + since;
  }
}
