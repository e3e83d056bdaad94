/**
  Sequences shared by sessions, each of which caches values of its own.
 */
module Sequence {
  import opened Basics
  import opened SequenceFetch
  import opened SequenceLedger
  import opened SequenceValues

  /** A session's entry for a sequence. */
  datatype Elm = Elm(relid: Oid, isOpen: bool, last: Int4, cached: Int4, inc: Int4)

  datatype Result = Got(value: Int4) | NoSequence | Exceeded | NotYetDefined | CacheNotOne | OutOfBounds

  /** What is known of a sequence: its tuple, who has its values, and where it started, which is number `since` of
      the values fetched and, if `wasSet`, one increment after the value given to setval. */
  datatype Known = Known(form: Form, ledger: Ledger, start: int, since: nat, wasSet: bool)
  {
    function Prog(): Progress { Progress(start, form.inc as int, form.minv as int, form.maxv as int) }

    function Skip(): nat { if wasSet then 1 else 0 }

    /** The place in the progression of a number fetched since then. */
    function Place(number: nat): nat
      requires number >= since
    {
      number - since + Skip()
    }

    predicate SameEpoch(k: Known) { start == k.start && since == k.since && wasSet == k.wasSet }
  }

  ghost predicate SeqOk(k: Known) {
    && Acceptable(k.form) && LedgerOk(k.ledger) && k.Prog().Ok() && k.since <= k.ledger.n
    && (k.form.cache == 1 ==> forall s :: Empty(k.ledger, s))
    && var n := k.Place(k.ledger.n);
       && (k.form.called <==> n > 0)
       && k.form.last as int == Value(k.Prog(), if n > 0 then n - 1 else 0)
       && ValuesOk(k.ledger, k.Prog(), k.since, k.Skip())
       && (!k.form.cycled ==> Linear(k.Prog(), n))
  }

  lemma SeqParts(k: Known)
    requires SeqOk(k)
    ensures LedgerOk(k.ledger) && Partition(k.ledger) && k.Prog().Ok() && k.since <= k.ledger.n
    ensures ValuesOk(k.ledger, k.Prog(), k.since, k.Skip())
    ensures !k.form.cycled ==> Linear(k.Prog(), k.Place(k.ledger.n))
    ensures k.Place(k.ledger.n) > 0 ==> k.form.last as int == Value(k.Prog(), k.Place(k.ledger.n) - 1)
  {
  }

  /** How many values the session has left. */
  function Left(l: Ledger, s: nat): int { if s in l.blocks then l.blocks[s].hi - l.blocks[s].lo else 0 }

  /** The entry of session s against what is known of its sequence. */
  ghost predicate ElmOk(k: Known, s: nat, e: Elm) {
    && Left(k.ledger, s) >= 0
    && (Left(k.ledger, s) == 0 ==> e.last == e.cached)
    && (Left(k.ledger, s) > 0 ==>
          && e.inc == k.form.inc && Fits(k.form, e.last as int) && Fits(k.form, e.cached as int)
          && e.cached as int == e.last as int + Left(k.ledger, s) * k.form.inc as int
          && k.ledger.blocks[s].lo > k.since
          && e.last as int == Value(k.Prog(), k.Place(k.ledger.blocks[s].lo - 1)))
  }

  // ---------------------------------------------------------------- the two ways through nextval

  ghost function AfterServe(k: Known, s: nat, e: Elm): Known
    requires !Empty(k.ledger, s)
  {
    k.(ledger := Serve(k.ledger, s, e.last as int + e.inc as int))
  }

  /** The fast path: one more increment, which stays within the block. */
  lemma ServeKeeps(k: Known, s: nat, e: Elm)
    requires SeqOk(k) && ElmOk(k, s, e) && e.last != e.cached
    ensures !Empty(k.ledger, s) && Fits(k.form, e.last as int + e.inc as int) && e.inc != 0
    ensures Moves(k, AfterServe(k, s, e), s)
    ensures var v := e.last as int + e.inc as int;
      SeqOk(AfterServe(k, s, e)) && ElmOk(AfterServe(k, s, e), s, e.(last := v as Int4))
  {
    CachedFits(k.form, e.last as int, Left(k.ledger, s));
    ServeOk(k.ledger, s, e.last as int + e.inc as int);
    hide LedgerOk, Fits;
    ServeValue(k, s, e);
    assert Moves(k, AfterServe(k, s, e), s);
    hide ValuesOk, Moves;
    var b, b' := k.ledger.blocks[s], AfterServe(k, s, e).ledger.blocks[s];
    assert b' == Block(b.lo + 1, b.hi);
    if b'.lo == b'.hi { assert (Left(k.ledger, s) - 1) * k.form.inc as int == 0; }
  }

  lemma ServeValue(k: Known, s: nat, e: Elm)
    requires SeqOk(k) && ElmOk(k, s, e) && !Empty(k.ledger, s) && Fits(k.form, e.last as int + e.inc as int)
    ensures e.last as int + e.inc as int == Value(k.Prog(), k.Place(k.ledger.blocks[s].lo))
    ensures ValuesOk(AfterServe(k, s, e).ledger, k.Prog(), k.since, k.Skip())
  {
    hide LedgerOk;
  }

  ghost function AfterRefill(k: Known, s: nat, result: Int4, next: Int4, count: nat): Known
    requires count > 0
  {
    k.(ledger := Refill(k.ledger, s, count, result as int), form := k.form.(last := next, called := true))
  }

  lemma RefillKeeps(k: Known, s: nat, e: Elm, result: Int4, next: Int4, count: nat)
    requires SeqOk(k) && ElmOk(k, s, e) && e.last == e.cached && !Exhausted(k.form)
    requires result as int == FirstValue(k.form) && 0 < count <= k.form.cache as int
    requires next as int == result as int + (count - 1) * k.form.inc as int
    requires Fits(k.form, result as int) && Fits(k.form, next as int)
    ensures Empty(k.ledger, s)
    ensures SeqOk(AfterRefill(k, s, result, next, count)) && Moves(k, AfterRefill(k, s, result, next, count), s)
    ensures ElmOk(AfterRefill(k, s, result, next, count), s, e.(last := result, cached := next, inc := k.form.inc))
  {
    EqualIsEmpty(k, s, e);
    RefillOk(k.ledger, s, count, result as int);
    hide LedgerOk;
    var inc, n := k.form.inc as int, k.ledger.n;
    var k' := AfterRefill(k, s, result, next, count);
    assert Left(k'.ledger, s) == count - 1;
    forall t | k.form.cache == 1 ensures Empty(k'.ledger, t) {
      assert Empty(k.ledger, t);
    }
    RefillValues(k, s, result, next, count);
    hide ValuesOk, Linear;
  }

  lemma RefillValues(k: Known, s: nat, result: Int4, next: Int4, count: nat)
    requires SeqOk(k) && !Exhausted(k.form) && result as int == FirstValue(k.form) && 0 < count
    requires next as int == result as int + (count - 1) * k.form.inc as int
    requires Fits(k.form, result as int) && Fits(k.form, next as int)
    ensures var p, n := k.Prog(), k.Place(k.ledger.n);
      && result as int == Value(p, n) && next as int == Value(p, n + count - 1)
      && ValuesOk(AfterRefill(k, s, result, next, count).ledger, p, k.since, k.Skip())
      && (!k.form.cycled ==> Linear(p, n + count))
  {
    var p, n := k.Prog(), k.Place(k.ledger.n);
    NextPlace(k);
    SeqLinear(k);
    RefillLog(k, s, result, next, count);
    if !k.form.cycled { RefillLinear(p, n, count); }
    hide *;
    ValueAhead(p, n, count - 1);
  }

  lemma RefillLinear(p: Progress, n: nat, count: nat)
    requires p.Ok() && count > 0 && Linear(p, n) && (n > 0 ==> p.Within(Value(p, n - 1) + p.inc))
    requires p.Within(Value(p, n) + (count - 1) * p.inc)
    ensures Linear(p, n + count)
  {
    LinearNext(p, n);
    hide Linear, Value;
    LinearBlock(p, n + 1, count - 1);
  }

  lemma SeqLinear(k: Known)
    requires SeqOk(k) && !Exhausted(k.form)
    ensures var p, n := k.Prog(), k.Place(k.ledger.n);
      p.Ok() && (!k.form.cycled ==> Linear(p, n) && (n > 0 ==> p.Within(Value(p, n - 1) + p.inc)))
  {
    hide LedgerOk, ValuesOk, Linear;
  }

  /** The value to be fetched next is that of the next place. */
  lemma NextPlace(k: Known)
    requires SeqOk(k)
    ensures FirstValue(k.form) == Value(k.Prog(), k.Place(k.ledger.n))
  {
    hide LedgerOk, ValuesOk, Linear;
  }

  lemma RefillLog(k: Known, s: nat, result: Int4, next: Int4, count: nat)
    requires SeqOk(k) && count > 0 && result as int == Value(k.Prog(), k.Place(k.ledger.n))
    ensures ValuesOk(AfterRefill(k, s, result, next, count).ledger, k.Prog(), k.since, k.Skip())
  {
    hide LedgerOk, Linear, Value;
  }

  lemma {:induction false} LinearBlock(p: Progress, n: nat, count: nat)
    requires p.Ok() && n > 0 && Linear(p, n) && p.Within(Value(p, n - 1) + count * p.inc)
    ensures Linear(p, n + count)
  {
    if count > 0 {
      ValueWithin(p, n - 1);
      InBetween(p, Value(p, n - 1), count - 1, count);
      LinearBlock(p, n, count - 1);
      ValueAhead(p, n - 1, count - 1);
      Times(count - 1, 1, p.inc);
      LinearNext(p, n + count - 1);
    }
  }

  lemma EqualIsEmpty(k: Known, s: nat, e: Elm)
    requires SeqOk(k) && ElmOk(k, s, e) && e.last == e.cached
    ensures Empty(k.ledger, s)
  {
    if Left(k.ledger, s) > 0 {
      NonZero(Left(k.ledger, s), k.form.inc as int);
    }
  }

  lemma NonZero(a: int, b: int)
    requires a > 0 && b != 0
    ensures a * b != 0
  {
  }

  /** Another session's entry is not concerned. */
  lemma OthersKeep(k: Known, k': Known, s: nat, t: nat, e: Elm)
    requires ElmOk(k, t, e) && s != t
    requires k'.form.inc == k.form.inc && k'.form.minv == k.form.minv && k'.form.maxv == k.form.maxv
    requires k'.SameEpoch(k) || Empty(k.ledger, t)
    requires t in k'.ledger.blocks <==> t in k.ledger.blocks
    requires t in k.ledger.blocks ==> k'.ledger.blocks[t] == k.ledger.blocks[t]
    ensures ElmOk(k', t, e)
  {
  }

  /** setval needs a cache of 1, so nobody has values left. */
  ghost function AfterSet(k: Known, next: Int4): Known {
    k.(form := k.form.(last := next, called := true), start := next as int, since := k.ledger.n, wasSet := true)
  }

  lemma SetKeeps(k: Known, s: nat, e: Elm, next: Int4)
    requires SeqOk(k) && k.form.cache == 1 && Fits(k.form, next as int)
    ensures Moves(k, AfterSet(k, next), s) && SeqOk(AfterSet(k, next))
    ensures ElmOk(AfterSet(k, next), s, e.(last := next, cached := next, inc := k.form.inc))
  {
    assert Empty(k.ledger, s);
  }

  /** What a session has cached is the rest of its block. */
  lemma CachedEnd(k: Known, s: nat, e: Elm)
    requires SeqOk(k) && ElmOk(k, s, e) && !Empty(k.ledger, s)
    ensures s in k.ledger.blocks && k.since < k.ledger.blocks[s].lo < k.ledger.blocks[s].hi
    ensures e.last as int == Value(k.Prog(), k.Place(k.ledger.blocks[s].lo - 1))
    ensures e.cached as int == Value(k.Prog(), k.Place(k.ledger.blocks[s].hi - 1))
  {
    var b := k.ledger.blocks[s];
    assert b.lo <= b.hi;
    hide LedgerOk, ValuesOk, Linear, Value;
    ValueAhead(k.Prog(), k.Place(b.lo - 1), b.hi - b.lo);
  }

  // ---------------------------------------------------------------- the server

  ghost predicate EntryOk(names: map<string, Oid>, known: map<Oid, Known>, home: map<Oid, string>,
                          s: nat, name: string, e: Elm) {
    && e.relid in home && home[e.relid] == name
    && (e.isOpen ==> name in names && names[name] == e.relid)
    && (e.relid in known ==> ElmOk(known[e.relid], s, e))
  }

  /** A name leads to its sequence, and a sequence has had one name. */
  ghost predicate NamesOk(names: map<string, Oid>, known: map<Oid, Known>, home: map<Oid, string>) {
    && (forall name | name in names :: names[name] in known && names[name] in home && home[names[name]] == name)
    && (forall r | r in known :: r in home && home[r] in names && names[home[r]] == r)
  }

  ghost predicate FormsOk(forms: map<Oid, Form>, known: map<Oid, Known>) {
    forms.Keys == known.Keys && forall r | r in known :: known[r].form == forms[r] && SeqOk(known[r])
  }

  ghost predicate TablesOk(names: map<string, Oid>, known: map<Oid, Known>, home: map<Oid, string>,
                           tables: seq<map<string, Elm>>) {
    forall s: nat, name | s < |tables| && name in tables[s] :: EntryOk(names, known, home, s, name, tables[s][name])
  }

  /** Only a session with an entry for the sequence has values of it. */
  ghost predicate BlocksOk(known: map<Oid, Known>, home: map<Oid, string>, tables: seq<map<string, Elm>>) {
    forall r, s: nat | r in known && r in home && !Empty(known[r].ledger, s) :: HasEntry(tables, s, home[r], r)
  }

  ghost predicate HasEntry(tables: seq<map<string, Elm>>, s: nat, name: string, r: Oid) {
    s < |tables| && name in tables[s] && tables[s][name].relid == r
  }

  lemma BlocksStay(known: map<Oid, Known>, home: map<Oid, string>, tables: seq<map<string, Elm>>,
                   tables': seq<map<string, Elm>>)
    requires BlocksOk(known, home, tables)
    requires forall s: nat, name, r | HasEntry(tables, s, name, r) && r in known :: HasEntry(tables', s, name, r)
    ensures BlocksOk(known, home, tables')
  {
    hide Empty;
  }

  lemma FormsKept(forms: map<Oid, Form>, known: map<Oid, Known>, r: Oid, k: Known)
    requires FormsOk(forms, known) && SeqOk(k)
    ensures FormsOk(forms[r := k.form], known[r := k]) && FormsOk(forms - {r}, known - {r})
  {
    hide SeqOk;
    assert forms[r := k.form].Keys == forms.Keys + {r} && known[r := k].Keys == known.Keys + {r};
    assert (forms - {r}).Keys == forms.Keys - {r} && (known - {r}).Keys == known.Keys - {r};
  }

  lemma NameIsKnown(names: map<string, Oid>, forms: map<Oid, Form>, known: map<Oid, Known>, home: map<Oid, string>,
                    name: string)
    requires NamesOk(names, known, home) && FormsOk(forms, known) && name in names
    ensures var r := names[name];
      r in known && r in home && home[r] == name && r in forms && forms[r] == known[r].form && SeqOk(known[r])
  {
  }

  lemma NewSequence(f: Form)
    requires Acceptable(f) && !f.called
    ensures SeqOk(Known(f, NO_CALLS, f.last as int, 0, false))
  {
  }

  lemma DefineKeeps(names: map<string, Oid>, known: map<Oid, Known>, home: map<Oid, string>,
                    tables: seq<map<string, Elm>>, name: string, r: Oid, k: Known)
    requires NamesOk(names, known, home) && TablesOk(names, known, home, tables) && BlocksOk(known, home, tables)
    requires name !in names && r !in home && k.ledger == NO_CALLS
    ensures var names', known', home' := names[name := r], known[r := k], home[r := name];
      NamesOk(names', known', home') && TablesOk(names', known', home', tables) && BlocksOk(known', home', tables)
  {
    var names', known', home' := names[name := r], known[r := k], home[r := name];
    forall s: nat, n | s < |tables| && n in tables[s] ensures EntryOk(names', known', home', s, n, tables[s][n]) {
      assert EntryOk(names, known, home, s, n, tables[s][n]);
    }
    forall q, s: nat | q in known' && q in home' && !Empty(known'[q].ledger, s)
      ensures HasEntry(tables, s, home'[q], q)
    {
      assert q in known && home'[q] == home[q] && !Empty(known[q].ledger, s);
    }
  }

  lemma DropKeeps(names: map<string, Oid>, known: map<Oid, Known>, home: map<Oid, string>,
                  tables: seq<map<string, Elm>>, name: string)
    requires NamesOk(names, known, home) && TablesOk(names, known, home, tables) && BlocksOk(known, home, tables)
    requires name in names && forall s | 0 <= s < |tables| && name in tables[s] :: !tables[s][name].isOpen
    ensures var names', known' := names - {name}, known - {names[name]};
      NamesOk(names', known', home) && TablesOk(names', known', home, tables) && BlocksOk(known', home, tables)
  {
    var names', known' := names - {name}, known - {names[name]};
    forall s: nat, n | s < |tables| && n in tables[s] ensures EntryOk(names', known', home, s, n, tables[s][n]) {
      assert EntryOk(names, known, home, s, n, tables[s][n]);
    }
    forall q, s: nat | q in known' && q in home && !Empty(known'[q].ledger, s) ensures HasEntry(tables, s, home[q], q) {
      assert q in known && !Empty(known[q].ledger, s);
    }
  }

  /** Session s has changed its entry for the sequence, and the sequence. */
  ghost predicate Moves(k: Known, k': Known, s: nat) {
    && k'.form.inc == k.form.inc && k'.form.minv == k.form.minv && k'.form.maxv == k.form.maxv
    && (k'.SameEpoch(k) || forall t: nat :: Empty(k.ledger, t))
    && (forall t: nat | t != s :: t in k'.ledger.blocks <==> t in k.ledger.blocks)
    && (forall t: nat | t != s && t in k.ledger.blocks :: k'.ledger.blocks[t] == k.ledger.blocks[t])
  }

  lemma MoveKeepsTables(names: map<string, Oid>, known: map<Oid, Known>, home: map<Oid, string>,
                        tables: seq<map<string, Elm>>, s: nat, name: string, e: Elm, k: Known)
    requires NamesOk(names, known, home) && TablesOk(names, known, home, tables)
    requires s < |tables| && name in names && e.relid == names[name] && Moves(known[names[name]], k, s)
    requires ElmOk(k, s, e)
    ensures TablesOk(names, known[names[name] := k], home, tables[s := tables[s][name := e]])
  {
    var known' := known[names[name] := k];
    var tables': seq<map<string, Elm>> := tables[s := tables[s][name := e]];
    forall t: nat, n | t < |tables'| && n in tables'[t] ensures EntryOk(names, known', home, t, n, tables'[t][n]) {
      if t != s || n != name {
        assert n in tables[t] && EntryOk(names, known, home, t, n, tables[t][n]);
        var x := tables[t][n];
        if x.relid == names[name] { OthersKeep(known[x.relid], k, s, t, x); }
      }
    }
  }

  lemma MoveKeepsNames(names: map<string, Oid>, known: map<Oid, Known>, home: map<Oid, string>, name: string, k: Known)
    requires NamesOk(names, known, home) && name in names
    ensures NamesOk(names, known[names[name] := k], home)
  {
  }

  lemma MoveKeepsBlocks(names: map<string, Oid>, known: map<Oid, Known>, home: map<Oid, string>,
                        tables: seq<map<string, Elm>>, s: nat, name: string, e: Elm, k: Known)
    requires NamesOk(names, known, home) && BlocksOk(known, home, tables)
    requires s < |tables| && name in names && e.relid == names[name] && Moves(known[names[name]], k, s)
    ensures BlocksOk(known[names[name] := k], home, tables[s := tables[s][name := e]])
  {
    var q := names[name];
    var known' := known[q := k];
    var tables': seq<map<string, Elm>> := tables[s := tables[s][name := e]];
    forall r, t: nat | r in known' && r in home && !Empty(known'[r].ledger, t)
      ensures HasEntry(tables', t, home[r], r)
    {
      if r != q || t != s {
        assert !Empty(known[r].ledger, t);
        assert HasEntry(tables, t, home[r], r);
      }
    }
  }

  /** The entry as init_sequence leaves it: kept, unless the sequence is another one now. */
  function OpenEntry(t: map<string, Elm>, name: string, r: Oid): Elm {
    if name in t && t[name].relid == r then t[name].(isOpen := true) else Elm(r, true, 0, 0, 0)
  }

  lemma OpenKeeps(names: map<string, Oid>, known: map<Oid, Known>, home: map<Oid, string>,
                  tables: seq<map<string, Elm>>, s: nat, name: string)
    requires NamesOk(names, known, home) && TablesOk(names, known, home, tables) && BlocksOk(known, home, tables)
    requires s < |tables| && name in names && SeqOk(known[names[name]])
    ensures var r := names[name];
      && TablesOk(names, known, home, tables[s := tables[s][name := OpenEntry(tables[s], name, r)]])
      && BlocksOk(known, home, tables[s := tables[s][name := OpenEntry(tables[s], name, r)]])
  {
    var r := names[name];
    var e := OpenEntry(tables[s], name, r);
    var tables': seq<map<string, Elm>> := tables[s := tables[s][name := e]];
    forall t: nat, n | t < |tables'| && n in tables'[t] ensures EntryOk(names, known, home, t, n, tables'[t][n]) {
      if t != s || n != name {
        assert n in tables[t] && EntryOk(names, known, home, t, n, tables[t][n]);
      } else if name in tables[s] && tables[s][name].relid == r {
        assert EntryOk(names, known, home, s, name, tables[s][name]);
      } else {
        FreshEntryOk(names, known, home, tables, s, name);
      }
    }
    forall t: nat, n, q | HasEntry(tables, t, n, q) && q in known ensures HasEntry(tables', t, n, q) {
      if t == s && n == name { assert EntryOk(names, known, home, s, name, tables[s][name]); }
    }
    BlocksStay(known, home, tables, tables');
  }

  lemma FreshEntryOk(names: map<string, Oid>, known: map<Oid, Known>, home: map<Oid, string>,
                     tables: seq<map<string, Elm>>, s: nat, name: string)
    requires NamesOk(names, known, home) && BlocksOk(known, home, tables) && name in names && SeqOk(known[names[name]])
    requires !HasEntry(tables, s, name, names[name])
    ensures ElmOk(known[names[name]], s, Elm(names[name], true, 0, 0, 0))
  {
    assert Empty(known[names[name]].ledger, s);
  }

  lemma ReadKeeps(names: map<string, Oid>, known: map<Oid, Known>, home: map<Oid, string>,
                  tables: seq<map<string, Elm>>, s: nat, name: string)
    requires NamesOk(names, known, home) && TablesOk(names, known, home, tables) && BlocksOk(known, home, tables)
    requires name in names && HasEntry(tables, s, name, names[name]) && known[names[name]].form.inc != 0
    ensures var tables' := tables[s := tables[s][name := tables[s][name].(inc := known[names[name]].form.inc)]];
      TablesOk(names, known, home, tables') && BlocksOk(known, home, tables')
  {
    var tables' := tables[s := tables[s][name := tables[s][name].(inc := known[names[name]].form.inc)]];
    forall t: nat, n | t < |tables'| && n in tables'[t] ensures EntryOk(names, known, home, t, n, tables'[t][n]) {
      assert n in tables[t] && EntryOk(names, known, home, t, n, tables[t][n]);
    }
    BlocksStay(known, home, tables, tables');
  }

  // ---------------------------------------------------------------- what sessions have been given

  /** A call of nextval or setval has read the tuple of a sequence, or has given a value. */
  datatype Note = Read(relid: Oid) | Gave(relid: Oid, value: int)

  ghost predicate Reached(log: seq<Note>, r: Oid) { exists i | 0 <= i < |log| :: log[i].relid == r }

  /** The value given last. */
  ghost function LastGiven(log: seq<Note>, r: Oid): Option<int> {
    if log == [] then None
    else if log[|log| - 1].Gave? && log[|log| - 1].relid == r then Some(log[|log| - 1].value)
    else LastGiven(log[..|log| - 1], r)
  }

  /** Calls have reached the sequence, and all of them were refused. */
  ghost predicate OnlyRefused(log: seq<Note>, r: Oid) { Reached(log, r) && LastGiven(log, r).None? }

  lemma NoteAppend(log: seq<Note>, note: Note, r: Oid)
    ensures Reached(log + [note], r) <==> Reached(log, r) || note.relid == r
    ensures LastGiven(log + [note], r) == if note.Gave? && note.relid == r then Some(note.value) else LastGiven(log, r)
  {
    assert (log + [note])[..|log|] == log;
    assert (log + [note])[|log|] == note;
    if Reached(log, r) {
      var i :| 0 <= i < |log| && log[i].relid == r;
      assert (log + [note])[i].relid == r;
    }
  }

  lemma {:induction false} GivenIsReached(log: seq<Note>, r: Oid)
    requires LastGiven(log, r).Some?
    ensures Reached(log, r)
  {
    var init := log[..|log| - 1];
    assert log == init + [log[|log| - 1]];
    NoteAppend(init, log[|log| - 1], r);
    if LastGiven(init, r).Some? { GivenIsReached(init, r); }
  }

  /** The entry has an increment if the sequence has been reached, and holds the value given last. */
  ghost predicate NoteOk(log: seq<Note>, e: Elm) {
    && (e.inc != 0 <==> Reached(log, e.relid))
    && e.last as int == LastGiven(log, e.relid).Or(0)
  }

  ghost predicate NotesOk(alive: set<Oid>, home: map<Oid, string>, log: seq<seq<Note>>, tables: seq<map<string, Elm>>) {
    && |log| == |tables|
    && (forall s: nat, name | s < |tables| && name in tables[s] :: NoteOk(log[s], tables[s][name]))
    && (forall s: nat, r | s < |log| && Reached(log[s], r) ::
      r in home && (r in alive ==> HasEntry(tables, s, home[r], r)))
  }

  /** An entry is written and a note made of it. */
  lemma NotesMove(names: map<string, Oid>, known: map<Oid, Known>, home: map<Oid, string>, log: seq<seq<Note>>,
                  tables: seq<map<string, Elm>>, s: nat, name: string, e: Elm, note: Note)
    requires NotesOk(known.Keys, home, log, tables) && NamesOk(names, known, home)
    requires TablesOk(names, known, home, tables)
    requires s < |tables| && name in names && e.relid == note.relid == names[name] && NoteOk(log[s] + [note], e)
    ensures NotesOk(known.Keys, home, log[s := log[s] + [note]], tables[s := tables[s][name := e]])
  {
    var q, log' := names[name], log[s := log[s] + [note]];
    var tables': seq<map<string, Elm>> := tables[s := tables[s][name := e]];
    forall t: nat, n | t < |tables'| && n in tables'[t] ensures NoteOk(log'[t], tables'[t][n]) {
      if t != s || n != name {
        assert EntryOk(names, known, home, t, n, tables[t][n]) && NoteOk(log[t], tables[t][n]);
        if t == s { NoteAppend(log[s], note, tables[s][n].relid); }
      }
    }
    forall t: nat, r | t < |log'| && Reached(log'[t], r)
      ensures r in home && (r in known ==> HasEntry(tables', t, home[r], r))
    {
      if t == s { NoteAppend(log[s], note, r); }
      if r != q { assert Reached(log[t], r); }
      else if t != s { assert Reached(log[t], r); }
    }
  }

  /** An entry is opened: kept as it was, or made for a sequence that the session has not reached. */
  lemma NotesOpen(names: map<string, Oid>, known: map<Oid, Known>, home: map<Oid, string>, log: seq<seq<Note>>,
                  tables: seq<map<string, Elm>>, s: nat, name: string)
    requires NotesOk(known.Keys, home, log, tables) && NamesOk(names, known, home) && s < |tables| && name in names
    ensures NotesOk(known.Keys, home, log, tables[s := tables[s][name := OpenEntry(tables[s], name, names[name])]])
  {
    var q, e := names[name], OpenEntry(tables[s], name, names[name]);
    var tables': seq<map<string, Elm>> := tables[s := tables[s][name := e]];
    if !HasEntry(tables, s, name, q) {
      assert !Reached(log[s], q);
      if LastGiven(log[s], q).Some? { GivenIsReached(log[s], q); }
    }
    forall t: nat, n | t < |tables'| && n in tables'[t] ensures NoteOk(log[t], tables'[t][n]) {
      if t != s || n != name { assert NoteOk(log[t], tables[t][n]); }
      else if HasEntry(tables, s, name, q) { assert NoteOk(log[s], tables[s][name]); }
    }
    forall t: nat, r | t < |log| && Reached(log[t], r)
      ensures r in home && (r in known ==> HasEntry(tables', t, home[r], r))
    {
      if r in known { assert HasEntry(tables, t, home[r], r); }
    }
  }

  class Server {
    var names: map<string, Oid>
    var forms: map<Oid, Form>
    var tables: seq<map<string, Elm>>         // the sessions' sequence tables, by name

    ghost var known: map<Oid, Known>
    ghost var home: map<Oid, string>          // every sequence there has been, and its name
    ghost var log: seq<seq<Note>>             // what the calls of each session have come to

    ghost predicate Valid()
      reads this
    {
      && NamesOk(names, known, home) && FormsOk(forms, known)
      && TablesOk(names, known, home, tables) && BlocksOk(known, home, tables)
      && NotesOk(known.Keys, home, log, tables)
    }

    constructor ()
      ensures Valid() && names == map[] && tables == []
    {
      names, forms, tables := map[], map[], [];
      known, home, log := map[], map[], [];
    }

    method NewSession() returns (s: nat)
      requires Valid()
      modifies `tables, `log
      ensures Valid() && s == |old(tables)| && tables == old(tables) + [map[]] && log == old(log) + [[]]
    {
      hide SeqOk, ElmOk, NamesOk, FormsOk, BlocksOk;
      s := |tables|;
      BlocksStay(known, home, tables, tables + [map[]]);
      tables, log := tables + [map[]], log + [[]];
    }

    /** CloseSequences, at the end of a transaction. */
    method CloseSequences(s: nat)
      requires Valid() && s < |tables|
      modifies `tables
      ensures Valid()
      ensures tables == old(tables)[s := map name | name in old(tables)[s] :: old(tables)[s][name].(isOpen := false)]
    {
      hide BlocksOk, FormsOk, NamesOk;
      tables := tables[s := map name | name in tables[s] :: tables[s][name].(isOpen := false)];
      BlocksStay(known, home, old(tables), tables);
      hide ElmOk;
      forall t: nat, name | t < |tables| && name in tables[t]
        ensures EntryOk(names, known, home, t, name, tables[t][name])
      {
        assert EntryOk(names, known, home, t, name, old(tables)[t][name]);
      }
    }

    method DefineSequence(name: string, options: seq<Param>, relid: Oid) returns (ok: bool)
      requires Valid() && relid !in home
      modifies `names, `forms, `known, `home
      ensures Valid() && (ok <==> name !in old(names) && Readable(options) && Acceptable(Described(options)))
      ensures ok ==> names == old(names)[name := relid] && forms == old(forms)[relid := Described(options)]
      ensures ok ==> known == old(known)[relid :=
        Known(Described(options), NO_CALLS, Described(options).last as int, 0, false)]
      ensures !ok ==> unchanged(this)
    {
      hide BlocksOk, TablesOk, NamesOk, FormsOk, Described, Readable, Acceptable, SeqOk;
      var r := InitParams(options);
      if r.None? || name in names {
        return false;
      }
      ok := true;
      ghost var k := Known(r.value, NO_CALLS, r.value.last as int, 0, false);
      DefineKeeps(names, known, home, tables, name, relid, k);
      NewSequence(r.value);
      FormsKept(forms, known, relid, k);
      forms, names := forms[relid := r.value], names[name := relid];
      known, home := known[relid := k], home[relid := name];
    }

    /** DROP SEQUENCE takes an exclusive lock, so no session has the sequence open. */
    method DropSequence(name: string)
      requires Valid() && name in names
      requires forall s | 0 <= s < |tables| && name in tables[s] :: !tables[s][name].isOpen
      modifies `names, `forms, `known
      ensures Valid()
      ensures names == old(names) - {name} && forms == old(forms) - {old(names)[name]}
      ensures known == old(known) - {old(names)[name]}
    {
      hide BlocksOk, TablesOk, SeqOk, NamesOk, FormsOk;
      var r := names[name];
      NameIsKnown(names, forms, known, home, name);
      DropKeeps(names, known, home, tables, name);
      FormsKept(forms, known, r, known[r]);
      names, forms, known := names - {name}, forms - {r}, known - {r};
    }

    /** init_sequence. */
    method InitSequence(s: nat, name: string) returns (ok: bool)
      requires Valid() && s < |tables|
      modifies `tables
      ensures Valid() && (ok <==> name in names)
      ensures ok ==> tables == old(tables)[s := old(tables)[s][name := OpenEntry(old(tables)[s], name, names[name])]]
      ensures !ok ==> unchanged(this)
    {
      hide TablesOk, BlocksOk, FormsOk, NamesOk, SeqOk, ElmOk, NotesOk;
      if name in tables[s] && tables[s][name].isOpen {
        AlreadyOpen(s, name);
        return true;
      }
      if name !in names {
        return false;
      }
      ok := true;
      var r := names[name];
      NameIsKnown(names, forms, known, home, name);
      OpenKeeps(names, known, home, tables, s, name);
      NotesOpen(names, known, home, log, tables, s, name);
      if name in tables[s] {
        var e := tables[s][name].(isOpen := true);
        if e.relid != r {
          e := e.(relid := r, cached := 0, last := 0, inc := 0);
        }
        tables := tables[s := tables[s][name := e]];
      } else {
        tables := tables[s := tables[s][name := Elm(r, true, 0, 0, 0)]];
      }
    }

    lemma AlreadyOpen(s: nat, name: string)
      requires Valid() && s < |tables| && name in tables[s] && tables[s][name].isOpen
      ensures name in names && names[name] == tables[s][name].relid
      ensures tables == tables[s := tables[s][name := OpenEntry(tables[s], name, names[name])]]
    {
      hide SeqOk, ElmOk, NamesOk, FormsOk, BlocksOk, NotesOk;
      assert EntryOk(names, known, home, s, name, tables[s][name]);
      assert tables[s][name := tables[s][name]] == tables[s];
    }

    /** The session's entry and the sequence change together. */
    method Move(s: nat, name: string, e: Elm, f: Form, ghost k: Known)
      requires Valid() && s < |tables| && s < |log| && name in names && names[name] in known && e.relid == names[name]
      requires e.inc != 0
      requires k.form == f && SeqOk(k) && ElmOk(k, s, e) && Moves(known[names[name]], k, s)
      modifies `forms, `tables, `known, `log
      ensures Valid() && forms == old(forms)[names[name] := f] && known == old(known)[names[name] := k]
      ensures tables == old(tables)[s := old(tables)[s][name := e]]
      ensures log == old(log)[s := old(log)[s] + [Gave(names[name], e.last as int)]]
    {
      hide TablesOk, BlocksOk, FormsOk, NamesOk, SeqOk, ElmOk, Moves, NotesOk, NoteOk;
      var r := names[name];
      MoveKeepsTables(names, known, home, tables, s, name, e, k);
      ghost var note := Gave(r, e.last as int);
      GaveOk(s, e);
      NotesMove(names, known, home, log, tables, s, name, e, note);
      assert known[r := k].Keys == known.Keys;
      MoveKeepsBlocks(names, known, home, tables, s, name, e, k);
      FormsKept(forms, known, r, k);
      MoveKeepsNames(names, known, home, name, k);
      forms, known := forms[r := f], known[r := k];
      tables, log := tables[s := tables[s][name := e]], log[s := log[s] + [note]];
    }

    lemma GaveOk(s: nat, e: Elm)
      requires s < |log| && e.inc != 0
      ensures NoteOk(log[s] + [Gave(e.relid, e.last as int)], e)
    {
      NoteAppend(log[s], Gave(e.relid, e.last as int), e.relid);
    }

    lemma ReadOk(s: nat, e: Elm, inc: Int4)
      requires s < |log| && NoteOk(log[s], e) && inc != 0
      ensures NoteOk(log[s] + [Read(e.relid)], e.(inc := inc))
    {
      NoteAppend(log[s], Read(e.relid), e.relid);
    }

    /** read_info: the entry learns the increment. */
    method ReadInfo(s: nat, name: string) returns (f: Form)
      requires Valid() && name in names && HasEntry(tables, s, name, names[name])
      modifies `tables, `log
      ensures Valid() && names[name] in known && f == known[names[name]].form
      ensures s < |old(tables)|
      ensures tables == old(tables)[s := old(tables)[s][name := old(tables)[s][name].(inc := f.inc)]]
      ensures s < |old(log)| && log == old(log)[s := old(log)[s] + [Read(names[name])]]
    {
      hide TablesOk, BlocksOk, FormsOk, NamesOk, NotesOk, NoteOk, SeqOk, ElmOk;
      Entry(s, name);
      f := forms[names[name]];
      ReadKeeps(names, known, home, tables, s, name);
      ReadOk(s, tables[s][name], f.inc);
      NotesMove(names, known, home, log, tables, s, name, tables[s][name].(inc := f.inc), Read(names[name]));
      tables := tables[s := tables[s][name := tables[s][name].(inc := f.inc)]];
      log := log[s := log[s] + [Read(names[name])]];
    }

    lemma Entry(s: nat, name: string)
      requires Valid() && name in names && HasEntry(tables, s, name, names[name])
      ensures names[name] in known && SeqOk(known[names[name]]) && Acceptable(known[names[name]].form)
      ensures ElmOk(known[names[name]], s, tables[s][name])
      ensures s < |log| && forms.Keys == known.Keys && forms[names[name]] == known[names[name]].form
      ensures NoteOk(log[s], tables[s][name])
    {
      assert EntryOk(names, known, home, s, name, tables[s][name]);
    }

    lemma NoEntry(s: nat, name: string)
      requires Valid() && name in names && s < |tables| && name !in tables[s]
      ensures names[name] in known && forms.Keys == known.Keys && known[names[name]].form == forms[names[name]]
      ensures Empty(known[names[name]].ledger, s) && |log| == |tables|
    {
    }

    /** What one call of nextval adds to the ledger. */
    twostate predicate Served(q: Oid, s: nat, value: Int4)
      reads this
    {
      && q in known && q in old(known) && known == old(known)[q := known[q]]
      && forms.Keys == old(forms).Keys && known[q].SameEpoch(old(known[q]))
      && |known[q].ledger.log| == |old(known[q].ledger.log)| + 1
      && old(known[q].ledger.log) <= known[q].ledger.log
      && known[q].ledger.log[|old(known[q].ledger.log)|].session == s
      && known[q].ledger.log[|old(known[q].ledger.log)|].value == value as int
      && Fits(known[q].form, value as int)
    }

    /** A block has been fetched: its end is the sequence's last value, and the session has the rest of it cached. */
    ghost predicate Fetched(s: nat, name: string, f: Form, first: Int4)
      reads this
    {
      && name in names && names[name] in forms && s < |tables| && name in tables[s]
      && forms[names[name]] == f.(last := forms[names[name]].last, called := true)
      && Spans(f, first as int, forms[names[name]].last as int)
      && tables[s][name].last == first && tables[s][name].cached == forms[names[name]].last
    }

    /** nextval where nothing is cached. */
    method Refill(s: nat, name: string) returns (r: Result)
      requires Valid() && name in names && HasEntry(tables, s, name, names[name])
      requires tables[s][name].last == tables[s][name].cached
      modifies `forms, `tables, `known, `log
      ensures Valid() && |tables| == |old(tables)| && (r.Got? || r.Exceeded?)
      ensures names[name] in old(known) && Empty(old(known)[names[name]].ledger, s) && s < |old(log)|
      ensures r.Exceeded? <==> Exhausted(old(known)[names[name]].form)
      ensures r.Exceeded? ==> forms == old(forms) && known == old(known) && names[name] in forms
      ensures r.Exceeded? ==> forms[names[name]] == known[names[name]].form
      ensures r.Exceeded? ==> log == old(log)[s := old(log)[s] + [Read(names[name])]]
      ensures r.Got? ==> Served(names[name], s, r.value)
      ensures r.Got? ==> r.value as int == FirstValue(old(known)[names[name]].form)
      ensures r.Got? ==> Follows(old(known)[names[name]].form, r.value as int)
      ensures r.Got? ==> Fetched(s, name, old(known)[names[name]].form, r.value)
      ensures r.Got? ==> log == old(log)[s := old(log)[s] + [Read(names[name])] + [Gave(names[name], r.value as int)]]
    {
      hide TablesOk, BlocksOk, FormsOk, NamesOk, SeqOk, ElmOk, Moves, NotesOk, NoteOk;
      Entry(s, name);
      var e, q := tables[s][name], names[name];
      ghost var k := known[q];
      EqualIsEmpty(k, s, e);
      var f := ReadInfo(s, name);
      var fetched, result, next, count := FetchBlock(f);
      if !fetched {
        return Exceeded;
      }
      RefillKeeps(k, s, e, result, next, count as int);
      Move(s, name, e.(last := result, cached := next, inc := f.inc), f.(last := next, called := true),
        AfterRefill(k, s, result, next, count as int));
      r := Got(result);
    }

    /** nextval. */
    method NextVal(s: nat, name: string) returns (r: Result)
      requires Valid() && s < |tables|
      modifies `forms, `tables, `known, `log
      ensures Valid() && |tables| == |old(tables)| && (r.Got? || r.NoSequence? || r.Exceeded?)
      ensures r.NoSequence? <==> name !in names
      ensures r.NoSequence? ==> unchanged(this)
      ensures r.Exceeded? ==>
        names[name] in forms && Exhausted(forms[names[name]]) && forms == old(forms) && known == old(known)
      ensures r.Exceeded? ==> names[name] in old(known) && Empty(old(known)[names[name]].ledger, s)
      ensures r.Exceeded? ==> s < |old(log)| && log == old(log)[s := old(log)[s] + [Read(names[name])]]
      ensures r.Got? ==> Served(names[name], s, r.value)
      ensures r.Got? && !Empty(old(known)[names[name]].ledger, s) ==>
        && forms == old(forms) && s < |old(log)|
        && log == old(log)[s := old(log)[s] + [Gave(names[name], r.value as int)]]
      ensures r.Got? && Empty(old(known)[names[name]].ledger, s) ==>
        && !Exhausted(old(known)[names[name]].form) && Follows(old(known)[names[name]].form, r.value as int)
        && Fetched(s, name, old(known)[names[name]].form, r.value)
        && s < |old(log)| && log ==
          old(log)[s := old(log)[s] + [Read(names[name])] + [Gave(names[name], r.value as int)]]
    {
      hide TablesOk, BlocksOk, FormsOk, NamesOk, SeqOk, ElmOk, Moves, NotesOk, NoteOk;
      var ok := InitSequence(s, name);
      if !ok {
        return NoSequence;
      }
      Entry(s, name);
      var e, q := tables[s][name], names[name];
      ghost var k := known[q];
      if e.last != e.cached {
        ServeKeeps(k, s, e);
        var v := e.last + e.inc;
        Move(s, name, e.(last := v), forms[q], AfterServe(k, s, e));
        return Got(v);
      }
      r := Refill(s, name);
    }

    /** currval. */
    method CurrVal(s: nat, name: string) returns (r: Result)
      requires Valid() && s < |tables|
      modifies `tables
      ensures Valid() && |tables| == |old(tables)| && (r.Got? || r.NoSequence? || r.NotYetDefined?)
      ensures r.NoSequence? <==> name !in names
      ensures name in names ==>
        && s < |log|
        && (r.Got? <==> Reached(log[s], names[name]))
        && (r.Got? ==> r.value as int == LastGiven(log[s], names[name]).Or(0))
      ensures name in names ==>
        ((r.Got? <==> LastGiven(log[s], names[name]).Some?) <==> !OnlyRefused(log[s], names[name]))
    {
      hide TablesOk, BlocksOk, FormsOk, NamesOk, SeqOk, ElmOk, Moves, NotesOk, Reached, LastGiven;
      var ok := InitSequence(s, name);
      if !ok {
        return NoSequence;
      }
      Entry(s, name);
      if LastGiven(log[s], names[name]).Some? { GivenIsReached(log[s], names[name]); }
      if tables[s][name].inc == 0 {
        return NotYetDefined;
      }
      r := Got(tables[s][name].last);
    }

    /** setval. */
    method SetVal(s: nat, name: string, next: Int4) returns (r: Result)
      requires Valid() && s < |tables|
      modifies `forms, `tables, `known, `log
      ensures Valid() && |tables| == |old(tables)| && (r.NoSequence? <==> name !in names)
      ensures r.NoSequence? ==> unchanged(this)
      ensures name in names ==> names[name] in old(forms) && var f := old(forms)[names[name]];
        r == if f.cache != 1 then CacheNotOne else if !Fits(f, next as int) then OutOfBounds else Got(next)
      ensures r.Got? ==> forms == old(forms)[names[name] := old(forms)[names[name]].(last := next, called := true)]
      ensures r.Got? ==>
        s < |old(log)| && log == old(log)[s := old(log)[s] + [Read(names[name])] + [Gave(names[name], next as int)]]
      ensures !r.Got? ==> forms == old(forms) && known == old(known)
      ensures !r.Got? && !r.NoSequence? ==> s < |old(log)| && log == old(log)[s := old(log)[s] + [Read(names[name])]]
    {
      hide TablesOk, BlocksOk, FormsOk, NamesOk, SeqOk, ElmOk, Moves, NotesOk, NoteOk;
      var ok := InitSequence(s, name);
      if !ok {
        return NoSequence;
      }
      Entry(s, name);
      var f := ReadInfo(s, name);
      if f.cache != 1 {
        return CacheNotOne;
      }
      if next < f.minv || next > f.maxv {
        return OutOfBounds;
      }
      Entry(s, name);
      ghost var k := known[names[name]];
      SetKeeps(k, s, tables[s][name], next);
      Move(s, name, tables[s][name].(last := next, cached := next), f.(last := next, called := true),
        AfterSet(k, next));
      r := Got(next);
    }

    /** Between the numbers a and b the t-th value of the progression from the end of the range was fetched. */
    ghost predicate FetchedBetween(q: Oid, a: nat, b: nat, t: nat)
      requires q in known && a >= known[q].since
      reads this
    {
      var k := known[q];
      exists m | a <= m < b :: Value(k.Prog(), k.Place(m)) == k.Prog().End() + t * k.Prog().inc
    }

    /** What holds after every run, for the values since the sequence was created or last set: every number fetched
        has been returned once or is cached by one session, and its value is that of its place in the progression.
        If the sequence does not cycle, no value is returned twice and every session sees them in order.  If it does,
        a value is returned again only after all values from the end of the range have been fetched. */
    lemma EveryRun(q: Oid)
      requires Valid() && q in known
      ensures var k := known[q];
        && Partition(k.ledger) && k.since <= k.ledger.n && ValuesOk(k.ledger, k.Prog(), k.since, k.Skip())
        && (k.Place(k.ledger.n) > 0 ==> k.form.last as int == Value(k.Prog(), k.Place(k.ledger.n) - 1))
        && (!k.form.cycled ==> Linear(k.Prog(), k.Place(k.ledger.n)))
      ensures forall s: nat | !Empty(known[q].ledger, s) :: CachedHere(q, s)
      ensures !known[q].form.cycled ==> forall i, j | 0 <= i < j < |known[q].ledger.log| ::
        var k, a, b := known[q], known[q].ledger.log[i], known[q].ledger.log[j];
        a.k >= k.since && b.k >= k.since ==> InOrder(q, a, b)
      ensures forall i, j, t: nat | 0 <= i < |known[q].ledger.log| && 0 <= j < |known[q].ledger.log| ::
        var k, a, b := known[q], known[q].ledger.log[i], known[q].ledger.log[j];
        k.since <= a.k < b.k && a.value == b.value && OnGrid(k.Prog(), t) ==> FetchedBetween(q, a.k, b.k, t)
    {
      KnownOk(q);
      SeqParts(known[q]);
      if !known[q].form.cycled { NoneTwice(q); }
      RepeatsOnlyLate(q);
      forall s: nat | !Empty(known[q].ledger, s) ensures CachedHere(q, s) { CachedValues(q, s); }
      hide *;
    }

    lemma NoneTwice(q: Oid)
      requires q in known && SeqOk(known[q]) && !known[q].form.cycled
      ensures forall i, j | 0 <= i < j < |known[q].ledger.log| ::
        var k, a, b := known[q], known[q].ledger.log[i], known[q].ledger.log[j];
        a.k >= k.since && b.k >= k.since ==> InOrder(q, a, b)
    {
      var k := known[q];
      SeqParts(k);
      hide SeqOk, LedgerOk, ValuesOk, Linear;
      forall i, j | 0 <= i < j < |k.ledger.log| && k.ledger.log[i].k >= k.since && k.ledger.log[j].k >= k.since
        ensures InOrder(q, k.ledger.log[i], k.ledger.log[j])
      {
        NoDuplicates(k.ledger, k.Prog(), k.since, k.Skip(), i, j);
      }
    }

    lemma RepeatsOnlyLate(q: Oid)
      requires q in known && SeqOk(known[q])
      ensures forall i, j, t: nat | 0 <= i < |known[q].ledger.log| && 0 <= j < |known[q].ledger.log| ::
        var k, a, b := known[q], known[q].ledger.log[i], known[q].ledger.log[j];
        k.since <= a.k < b.k && a.value == b.value && OnGrid(k.Prog(), t) ==> FetchedBetween(q, a.k, b.k, t)
    {
      hide SeqOk, OnGrid, FetchedBetween;
      var k := known[q];
      forall i, j, t: nat | 0 <= i < |k.ledger.log| && 0 <= j < |k.ledger.log| && k.since <= k.ledger.log[i].k
        && k.ledger.log[i].k < k.ledger.log[j].k && k.ledger.log[i].value == k.ledger.log[j].value
        && OnGrid(k.Prog(), t)
        ensures FetchedBetween(q, k.ledger.log[i].k, k.ledger.log[j].k, t)
      {
        Late(q, i, j, t);
      }
    }

    lemma KnownOk(q: Oid)
      requires Valid() && q in known
      ensures SeqOk(known[q])
    {
    }

    /** Two values, the first returned before the second. */
    ghost predicate InOrder(q: Oid, a: Call, b: Call)
      requires q in known
      reads this
    {
      && a.value != b.value
      && (a.session == b.session ==> if known[q].form.inc > 0 then a.value < b.value else a.value > b.value)
    }

    lemma Late(q: Oid, i: nat, j: nat, t: nat)
      requires q in known && SeqOk(known[q]) && i < |known[q].ledger.log| && j < |known[q].ledger.log|
      requires var k, a, b := known[q], known[q].ledger.log[i], known[q].ledger.log[j];
        k.since <= a.k < b.k && a.value == b.value && OnGrid(k.Prog(), t)
      ensures FetchedBetween(q, known[q].ledger.log[i].k, known[q].ledger.log[j].k, t)
    {
      var k := known[q];
      var m := RepeatsLate(k.ledger, k.Prog(), k.since, k.Skip(), i, j, t);
      assert k.Place(m) == m - k.since + k.Skip();
    }

    /** The numbers a session has cached are the values from its entry's last to its entry's cached. */
    ghost predicate CachedHere(q: Oid, s: nat)
      requires q in known
      reads this
    {
      var k := known[q];
      && q in home && HasEntry(tables, s, home[q], q) && s in k.ledger.blocks
      && k.since < k.ledger.blocks[s].lo < k.ledger.blocks[s].hi
      && tables[s][home[q]].last as int == Value(k.Prog(), k.Place(k.ledger.blocks[s].lo - 1))
      && tables[s][home[q]].cached as int == Value(k.Prog(), k.Place(k.ledger.blocks[s].hi - 1))
    }

    lemma EntryHere(q: Oid, s: nat)
      requires Valid() && q in known && !Empty(known[q].ledger, s)
      ensures q in home && HasEntry(tables, s, home[q], q) && ElmOk(known[q], s, tables[s][home[q]])
    {
      hide SeqOk, ElmOk;
      assert HasEntry(tables, s, home[q], q);
      assert EntryOk(names, known, home, s, home[q], tables[s][home[q]]);
    }

    lemma CachedValues(q: Oid, s: nat)
      requires Valid() && q in known && !Empty(known[q].ledger, s)
      ensures CachedHere(q, s)
    {
      KnownOk(q);
      EntryHere(q, s);
      hide Valid, SeqOk, ElmOk, Value;
      CachedEnd(known[q], s, tables[s][home[q]]);
    }
  }

  /** currval answers 0 in a session whose only nextval was refused: the refused call has recorded the
      increment, which is all that currval looks at. */
  method CurrValOfNothing(server: Server, name: string) returns (r: Result)
    requires server.Valid() && name in server.names && server.names[name] in server.forms
    requires Exhausted(server.forms[server.names[name]])
    modifies server
    ensures r == Got(0)
  {
    hide *;
    var s := server.NewSession();
    server.NoEntry(s, name);
    var v := server.NextVal(s, name);
    assert v.Exceeded?;
    assert server.log[s] == [Read(server.names[name])];
    FirstRead(server.names[name]);
    r := server.CurrVal(s, name);
  }

  /** So it does in a session whose only setval was refused, whatever the sequence has to give. */
  method CurrValAfterRefusedSet(server: Server, name: string, next: Int4) returns (r: Result)
    requires server.Valid() && name in server.names && server.names[name] in server.forms
    requires var f := server.forms[server.names[name]]; f.cache != 1 || !Fits(f, next as int)
    modifies server
    ensures r == Got(0)
  {
    hide *;
    var s := server.NewSession();
    server.NoEntry(s, name);
    var v := server.SetVal(s, name, next);
    FirstRead(server.names[name]);
    r := server.CurrVal(s, name);
  }

  lemma FirstRead(r: Oid)
    ensures [] + [Read(r)] == [Read(r)] && Reached([Read(r)], r) && LastGiven([Read(r)], r) == None
    ensures LastGiven([Read(r)], r).Or(0) == 0
  {
    NoteAppend([], Read(r), r);
  }
}
