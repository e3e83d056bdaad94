/**
  The tables of bound parameters and output columns of a prepared statement.
  Their slots are handed to the engine by address, so a table that has been moved
  to grow must be handed over again.
 */
module StatementBindings {
  import opened Basics
  import opened PreparedPlan

  const NOTHING := Binding(0, 0, 0)

  ghost predicate Packed(s: seq<Slot>, free: Key, n: nat) {
    && n <= |s|
    && (forall i | 0 <= i < n :: s[i].key != free && s[i].key.Name? == free.Name?)
    && (forall i | n <= i < |s| :: s[i] == Slot(free, NOTHING))
    && (forall i, j | 0 <= i < j < n :: s[i].key != s[j].key)
  }

  /** The table as a map. */
  ghost function Contents(s: seq<Slot>, n: nat): map<Key, Binding>
    requires n <= |s|
  {
    if n == 0 then map[] else Contents(s, n - 1)[s[n - 1].key := s[n - 1].bound]
  }

  lemma {:induction false} ContentsAt(s: seq<Slot>, free: Key, n: nat, i: nat)
    requires Packed(s, free, n) && i < n
    ensures s[i].key in Contents(s, n) && Contents(s, n)[s[i].key] == s[i].bound
  {
    ContentsTo(s, free, n, n, i);
  }

  lemma {:induction false} ContentsTo(s: seq<Slot>, free: Key, n: nat, m: nat, i: nat)
    requires Packed(s, free, n) && i < m <= n
    ensures s[i].key in Contents(s, m) && Contents(s, m)[s[i].key] == s[i].bound
    decreases m
  {
    if i < m - 1 { ContentsTo(s, free, n, m - 1, i); }
  }

  lemma {:induction false} ContentsKeys(s: seq<Slot>, n: nat, k: Key)
    requires n <= |s|
    ensures k in Contents(s, n) <==> exists i | 0 <= i < n :: s[i].key == k
  {
    if n > 0 { ContentsKeys(s, n - 1, k); }
  }

  lemma {:induction false} ContentsPrefix(s: seq<Slot>, t: seq<Slot>, n: nat)
    requires n <= |s| && n <= |t| && forall i | 0 <= i < n :: s[i] == t[i]
    ensures Contents(s, n) == Contents(t, n)
  {
    if n > 0 { ContentsPrefix(s, t, n - 1); }
  }

  /** Writing a slot of a key changes the map at the key. */
  lemma {:induction false} ContentsWrite(s: seq<Slot>, free: Key, n: nat, x: nat, b: Binding)
    requires Packed(s, free, n) && x < n
    ensures Contents(s[x := Slot(s[x].key, b)], n) == Contents(s, n)[s[x].key := b]
  {
    WriteTo(s, free, n, n, x, b);
  }

  lemma {:induction false} WriteTo(s: seq<Slot>, free: Key, n: nat, m: nat, x: nat, b: Binding)
    requires Packed(s, free, n) && x < m <= n
    ensures Contents(s[x := Slot(s[x].key, b)], m) == Contents(s, m)[s[x].key := b]
    decreases m
  {
    var t := s[x := Slot(s[x].key, b)];
    if x < m - 1 {
      WriteTo(s, free, n, m - 1, x, b);
      assert s[m - 1].key != s[x].key && t[m - 1] == s[m - 1];
    } else {
      ContentsPrefix(s, t, m - 1);
    }
  }

  lemma FoundInMap(s: seq<Slot>, free: Key, n: nat, x: nat, key: Key)
    requires Packed(s, free, n) && x <= n && (x < n ==> s[x].key == key) && forall j | 0 <= j < x :: s[j].key != key
    ensures key in Contents(s, n) <==> x < n
    ensures x < n ==> Contents(s, n)[key] == s[x].bound
  {
    ContentsKeys(s, n, key);
    if x < n { ContentsAt(s, free, n, x); }
  }

  lemma TakenInMap(s: seq<Slot>, free: Key, n: nat, x: nat, key: Key, typ: int)
    requires Packed(s, free, n) && x <= n && x < |s| && (x < n ==> s[x].key == key)
    ensures var t := s[x := Slot(key, s[x].bound.(typ := typ))];
      Contents(t, if x == n then n + 1 else n) == Contents(s, n)[key := s[x].bound.(typ := typ)]
  {
    var t := s[x := Slot(key, s[x].bound.(typ := typ))];
    if x == n {
      ContentsPrefix(s, t, n);
    } else {
      ContentsWrite(s, free, n, x, s[x].bound.(typ := typ));
    }
  }

  // ---------------------------------------------------------------- what the engine holds of a table

  /** The engine reads two keys as different ones, if it takes them. */
  predicate Apart(a: Key, b: Key) {
    EngineKey(a).None? || EngineKey(b).None? || EngineKey(a).value != EngineKey(b).value
  }

  /** The engine takes all the keys and reads no two of them alike. */
  ghost predicate Readable(keys: set<Key>) {
    (forall k | k in keys :: EngineKey(k).Some?) && forall a, b | a in keys && b in keys && a != b :: Apart(a, b)
  }

  /** The engine reads no two keys alike. */
  ghost predicate Separate(s: seq<Slot>, n: nat)
    requires n <= |s|
  {
    forall i, j | 0 <= i < j < n :: Apart(s[i].key, s[j].key)
  }

  /** The engine finds slot i of the table under its key, with its type. */
  ghost predicate Registered(s: seq<Slot>, log: array<Slot>, held: map<Key, Registration>, i: nat)
    requires i < |s|
  {
    match EngineKey(s[i].key)
    case Some(e) => e in held && held[e] == Registration(s[i].bound.typ, log, i)
    case None => false
  }

  /** The address lies in the table as it is now, at a slot of the key, and the type is the slot's. */
  ghost predicate Current(s: seq<Slot>, n: nat, log: array<Slot>, r: Registration, e: Key) {
    && r.table == log && r.index < n <= |s|
    && EngineKey(s[r.index].key) == Some(e) && r.typ == s[r.index].bound.typ
  }

  /** The engine has the key of slot i, if it takes it. */
  ghost predicate Listed(s: seq<Slot>, held: map<Key, Registration>, i: nat)
    requires i < |s|
  {
    EngineKey(s[i].key).Some? ==> EngineKey(s[i].key).value in held
  }

  /** Slot i has been handed over: the engine finds it, or another slot that it reads alike. */
  ghost predicate Handed(s: seq<Slot>, n: nat, log: array<Slot>, held: map<Key, Registration>, i: nat)
    requires i < n <= |s|
  {
    EngineKey(s[i].key).Some? ==>
      && EngineKey(s[i].key).value in held
      && Current(s, n, log, held[EngineKey(s[i].key).value], EngineKey(s[i].key).value)
      && (Separate(s, n) ==> Registered(s, log, held, i))
  }

  /** What the engine holds of the table with these slots; the other table has keys of the other kind. */
  ghost predicate HeldOk(s: seq<Slot>, n: nat, log: array<Slot>, held: map<Key, Registration>, names: bool)
    requires n <= |s|
  {
    && (forall e | e in held && e.Name? == names :: Current(s, n, log, held[e], e))
    && (forall i | 0 <= i < n :: Handed(s, n, log, held, i))
  }

  /** The keys of one kind are the same. */
  ghost predicate SameOf(held: map<Key, Registration>, held': map<Key, Registration>, names: bool) {
    forall e: Key | e.Name? == names :: (e in held <==> e in held') && (e in held ==> held[e] == held'[e])
  }

  lemma OtherKept(s: seq<Slot>, free: Key, n: nat, log: array<Slot>, held: map<Key, Registration>,
                  held': map<Key, Registration>)
    requires Packed(s, free, n) && HeldOk(s, n, log, held, free.Name?) && SameOf(held, held', free.Name?)
    ensures HeldOk(s, n, log, held', free.Name?)
  {
    forall i | 0 <= i < n ensures Handed(s, n, log, held', i) {
      assert Handed(s, n, log, held, i) && s[i].key.Name? == free.Name?;
    }
  }

  ghost function AfterRegister(s: seq<Slot>, log: array<Slot>, held: map<Key, Registration>, x: nat)
    : map<Key, Registration>
    requires x < |s|
  {
    match EngineKey(s[x].key)
    case Some(e) => held[e := Registration(s[x].bound.typ, log, x)]
    case None => held
  }

  /** Registering slot x hands it over, and takes nothing from slots that have been. */
  lemma RegisterHands(s: seq<Slot>, n: nat, log: array<Slot>, held: map<Key, Registration>, x: nat, i: nat)
    requires i < n <= |s| && x < n && (i == x || Handed(s, n, log, held, i))
    ensures Handed(s, n, log, AfterRegister(s, log, held, x), i)
  {
    assert Separate(s, n) && i < x ==> Apart(s[i].key, s[x].key);
    assert Separate(s, n) && x < i ==> Apart(s[x].key, s[i].key);
  }

  /** A slot that gets a key or another type, and is registered. */
  lemma TakeOk(s: seq<Slot>, free: Key, n: nat, log: array<Slot>, held: map<Key, Registration>, x: nat, t: seq<Slot>)
    requires Packed(s, free, n) && HeldOk(s, n, log, held, free.Name?) && x <= n && x < |s|
    requires |t| == |s| && t == s[x := t[x]] && t[x].key != free && t[x].key.Name? == free.Name?
    requires if x < n then s[x].key == t[x].key else forall j | 0 <= j < n :: s[j].key != t[x].key
    ensures var m := if x == n then n + 1 else n;
      Packed(t, free, m) && HeldOk(t, m, log, AfterRegister(t, log, held, x), free.Name?)
  {
    var m, held' := if x == n then n + 1 else n, AfterRegister(t, log, held, x);
    forall e | e in held' && e.Name? == free.Name? ensures Current(t, m, log, held'[e], e) {
      if EngineKey(t[x].key) != Some(e) { assert Current(s, n, log, held[e], e); }
    }
    if Separate(t, m) { SeparateBefore(s, n, t, m); }
    forall i | 0 <= i < m ensures Handed(t, m, log, held', i) {
      if i != x { OneStays(s, n, log, held, x, t, i); }
      RegisterHands(t, m, log, held', x, x);
    }
  }

  lemma SeparateBefore(s: seq<Slot>, n: nat, t: seq<Slot>, m: nat)
    requires n <= m <= |t| == |s| && Separate(t, m) && forall i | 0 <= i < n :: s[i].key == t[i].key
    ensures Separate(s, n)
  {
    forall i, j | 0 <= i < j < n ensures Apart(s[i].key, s[j].key) { assert Apart(t[i].key, t[j].key); }
  }

  lemma OneStays(s: seq<Slot>, n: nat, log: array<Slot>, held: map<Key, Registration>, x: nat, t: seq<Slot>, i: nat)
    requires i < n <= |s| == |t| && x <= n && x < |s| && i != x && t == s[x := t[x]] && Handed(s, n, log, held, i)
    requires x < n ==> s[x].key == t[x].key
    ensures Handed(t, if x == n then n + 1 else n, log, AfterRegister(t, log, held, x), i)
  {
    var m := if x == n then n + 1 else n;
    if Separate(t, m) {
      SeparateBefore(s, n, t, m);
      assert if i < x then Apart(t[i].key, t[x].key) else Apart(t[x].key, t[i].key);
    }
  }

  /** What is bound to a slot may change if its type does not. */
  lemma WriteOk(s: seq<Slot>, free: Key, n: nat, log: array<Slot>, held: map<Key, Registration>, x: nat, b: Binding)
    requires Packed(s, free, n) && HeldOk(s, n, log, held, free.Name?) && x < n && s[x].bound.typ == b.typ
    ensures var t := s[x := Slot(s[x].key, b)]; Packed(t, free, n) && HeldOk(t, n, log, held, free.Name?)
  {
    var t := s[x := Slot(s[x].key, b)];
    forall e | e in held && e.Name? == free.Name? ensures Current(t, n, log, held[e], e) {
      assert Current(s, n, log, held[e], e);
    }
    if Separate(t, n) { SeparateBefore(s, n, t, n); }
    forall i | 0 <= i < n ensures Handed(t, n, log, held, i) { assert Handed(s, n, log, held, i); }
  }

  /** The engine can be given the key: it refuses it, or its search ends. */
  ghost predicate Takes(held: set<Key>, k: Key) { EngineKey(k).Some? ==> Reachable(held, EngineKey(k).value) }

  /** The keys of the engine after it has been given one. */
  function WithKey(held: set<Key>, k: Key): set<Key> {
    match EngineKey(k)
    case Some(e) => held + {e}
    case None => held
  }

  ghost predicate KeyOf(s: seq<Slot>, n: nat, e: Key) {
    exists i | 0 <= i < n <= |s| :: EngineKey(s[i].key) == Some(e)
  }

  /** Before the slots of a moved table are handed over, the engine has their keys and no others. */
  lemma MovedOk(s: seq<Slot>, t: seq<Slot>, n: nat, log: array<Slot>, held: map<Key, Registration>, names: bool)
    requires n <= |s| && n <= |t| && HeldOk(s, n, log, held, names) && forall i | 0 <= i < n :: t[i] == s[i]
    ensures forall i | 0 <= i < n :: Listed(t, held, i)
    ensures forall e | e in held && e.Name? == names :: KeyOf(t, n, e)
  {
    forall i | 0 <= i < n ensures Listed(t, held, i) { assert Handed(s, n, log, held, i); }
    forall e | e in held && e.Name? == names ensures KeyOf(t, n, e) {
      assert Current(s, n, log, held[e], e);
      assert t[held[e].index] == s[held[e].index];
    }
  }

  lemma AllHanded(s: seq<Slot>, n: nat, log: array<Slot>, held: map<Key, Registration>, names: bool)
    requires n <= |s| && forall i | 0 <= i < n :: Handed(s, n, log, held, i)
    requires forall e | e in held && e.Name? == names :: KeyOf(s, n, e)
    ensures HeldOk(s, n, log, held, names)
  {
    forall e | e in held && e.Name? == names ensures Current(s, n, log, held[e], e) {
      assert KeyOf(s, n, e);
      var i :| 0 <= i < n && EngineKey(s[i].key) == Some(e);
      assert Handed(s, n, log, held, i);
    }
  }

  lemma HandedListed(s: seq<Slot>, n: nat, log: array<Slot>, held: map<Key, Registration>, names: bool, i: nat)
    requires i < n <= |s| && HeldOk(s, n, log, held, names)
    ensures Listed(s, held, i)
  {
    assert Handed(s, n, log, held, i);
  }

  lemma InUse(s: seq<Slot>, free: Key, n: nat)
    requires Packed(s, free, n)
    ensures n <= |s| && forall i | 0 <= i < |s| :: s[i].key != free <==> i < n
    ensures forall i | 0 <= i < n :: s[i].key.Name? == free.Name?
    ensures forall i | n <= i < |s| :: s[i] == Slot(free, NOTHING)
  {
  }

  // ---------------------------------------------------------------- one table

  class Bindings {
    const free: Key       // the key of an empty slot
    const plan: Plan
    var log: array<Slot>

    ghost var used: nat

    ghost predicate Valid()
      reads this, log, plan, plan.slot
    {
      && plan.Valid() && used <= log.Length && IsSize(log.Length) && Packed(log[..], free, used)
      && HeldOk(log[..], used, log, plan.held, free.Name?)
    }

    ghost function Map(): map<Key, Binding>
      requires used <= log.Length
      reads this, log
    {
      Contents(log[..], used)
    }

    ghost predicate AllRegistered()
      requires used <= log.Length
      reads this, log, plan
    {
      forall i | 0 <= i < used :: Registered(log[..], log, plan.held, i)
    }

    /** Every slot is where the engine looks for its key exactly when the engine takes all keys that are bound
        and reads no two of them alike. */
    lemma RegisteredExactly()
      requires Valid()
      ensures AllRegistered() <==> Readable(Map().Keys)
    {
      var s := log[..];
      if AllRegistered() {
        forall k | k in Map() ensures EngineKey(k).Some? {
          var i := SlotOf(k);
          assert Registered(s, log, plan.held, i);
        }
        forall a, b | a in Map() && b in Map() && a != b ensures Apart(a, b) {
          var i := SlotOf(a);
          var j := SlotOf(b);
          assert Registered(s, log, plan.held, i) && Registered(s, log, plan.held, j);
        }
      }
      if Readable(Map().Keys) {
        forall i | 0 <= i < used ensures s[i].key in Map() { ContentsAt(s, free, used, i); }
        assert Separate(s, used);
        forall i | 0 <= i < used ensures Registered(s, log, plan.held, i) { assert Handed(s, used, log, plan.held, i); }
      }
    }

    lemma SlotOf(k: Key) returns (i: nat)
      requires Valid() && k in Map()
      ensures i < used && log[..][i].key == k
    {
      ContentsKeys(log[..], used, k);
      i :| 0 <= i < used && log[..][i].key == k;
    }

    constructor (free: Key, plan: Plan)
      requires plan.Valid() && forall e | e in plan.held :: e.Name? != free.Name?
      ensures Valid() && this.free == free && this.plan == plan && used == 0 && log.Length == 0 && fresh(log)
    {
      this.free, this.plan := free, plan;
      log := new Slot[0];
      used := 0;
    }

    /** The search loop of GetBind and GetLink: the slot of the key, or the first empty one. */
    method Find(key: Key) returns (x: nat)
      requires Packed(log[..], free, used) && key != free
      ensures x <= log.Length && (x < log.Length ==> log[x].key == key || log[x].key == free)
      ensures forall j | 0 <= j < x :: log[j].key != key && log[j].key != free
      ensures x <= used && (x < used ==> log[x].key == key)
    {
      x := 0;
      while x < log.Length && log[x].key != key && log[x].key != free
        invariant x <= log.Length && forall j | 0 <= j < x :: log[j].key != key && log[j].key != free
      {
        x := x + 1;
      }
      assert used < log.Length ==> log[..][used].key == free;
      assert x < used ==> log[..][x].key != free;
    }

    /** AddBind and AddLink: the engine keeps what it was given last for a key.  An error goes unnoticed; not ok
        means that the search for a name has come to a slot without one. */
    method Register(x: nat) returns (ok: bool)
      requires plan.Valid() && x < log.Length && plan.used < MOST_SLOTS
      modifies plan, plan.slot
      ensures ok <==> Takes(old(plan.held).Keys, log[x].key)
      ensures ok ==> plan.Valid() && plan.held == AfterRegister(log[..], log, old(plan.held), x)
      ensures ok ==> plan.used <= old(plan.used) + 1 && (plan.slot == old(plan.slot) || fresh(plan.slot))
      ensures ok && Listed(log[..], old(plan.held), x) ==> plan.used == old(plan.used)
    {
      var r := Registration(log[x].bound.typ, log, x);
      match log[x].key {
        case Name(binder) => ok := plan.BindTransfer(binder, r);
        case Position(index) =>
          var _ := plan.OutputTransfer(index, r);
          ok := true;
      }
    }

    /** ResetInputBindings and ResetOutputBindings: the table is handed over again, slot by slot. */
    method Reset()
      requires plan.Valid() && plan.used < MOST_SLOTS && Packed(log[..], free, used)
      requires forall i | 0 <= i < used :: Listed(log[..], plan.held, i)
      requires forall e | e in plan.held && e.Name? == free.Name? :: KeyOf(log[..], used, e)
      modifies plan, plan.slot
      ensures plan.Valid() && HeldOk(log[..], used, log, plan.held, free.Name?)
      ensures plan.held.Keys == old(plan.held).Keys && SameOf(old(plan.held), plan.held, !free.Name?)
      ensures plan.used == old(plan.used) && (plan.slot == old(plan.slot) || fresh(plan.slot))
    {
      hide SlotsOk, Packed, Handed, HeldOk, IsSize;
      ghost var s := log[..];
      InUse(s, free, used);
      for count := 0 to log.Length
        invariant plan.Valid() && plan.used == old(plan.used) && (plan.slot == old(plan.slot) || fresh(plan.slot))
        invariant plan.held.Keys == old(plan.held).Keys && SameOf(old(plan.held), plan.held, !free.Name?)
        invariant forall i | 0 <= i < count && i < used :: Handed(s, used, log, plan.held, i)
      {
        if log[count].key != free {
          assert Listed(s, old(plan.held), count);
          ghost var held := plan.held;
          var ok := Register(count);
          forall i | 0 <= i <= count ensures Handed(s, used, log, plan.held, i) {
            RegisterHands(s, used, log, held, count, i);
          }
        }
      }
      AllHanded(s, used, log, plan.held, free.Name?);
    }

    /** A zeroed table of the size given, with the slots of the old one moved to its front. */
    method Copied(count: nat) returns (slots: array<Slot>)
      requires Packed(log[..], free, used) && log.Length <= count
      ensures fresh(slots) && slots.Length == count && Packed(slots[..], free, used)
      ensures forall j | 0 <= j < log.Length :: slots[j] == log[j]
    {
      var f := free;
      slots := new Slot[count](_ => Slot(f, NOTHING));
      for i := 0 to log.Length
        invariant forall j | 0 <= j < i :: slots[j] == log[j]
        invariant forall j | i <= j < count :: slots[j] == Slot(free, NOTHING)
      {
        slots[i] := log[i];
      }
      assert forall j | 0 <= j < log.Length :: slots[..][j] == log[..][j];
    }

    /** ExpandInputBindings and ExpandOutputBindings. */
    method Expand()
      requires Valid() && log.Length < MOST_SLOTS && plan.used < MOST_SLOTS
      modifies `log, plan, plan.slot
      ensures Valid() && fresh(log)
      ensures log.Length == if old(log.Length) == 0 then 4 else 2 * old(log.Length)
      ensures log[..used] == old(log[..used])
      ensures plan.held.Keys == old(plan.held).Keys && SameOf(old(plan.held), plan.held, !free.Name?)
      ensures plan.used == old(plan.used) && (plan.slot == old(plan.slot) || fresh(plan.slot))
    {
      var count := log.Length * 2;
      if count <= 0 {
        count := 4;
      }
      ghost var was := log[..];
      var slots := Copied(count);
      MovedOk(was, slots[..], used, log, plan.held, free.Name?);
      assert slots[..used] == was[..used];
      log := slots;
      Reset();
    }

    /** A slot takes a key and a type, and the engine is told. */
    method Take(x: nat, key: Key, typ: int) returns (ok: bool)
      requires Valid() && key != free && key.Name? == free.Name? && plan.used < MOST_SLOTS && x < log.Length
      requires x <= used && (x < used ==> log[x].key == key) && forall j | 0 <= j < x :: log[j].key != key
      modifies `used, log, plan, plan.slot
      ensures ok <==> Takes(old(plan.held).Keys, key)
      ensures ok ==> Valid() && used == if x == old(used) then x + 1 else old(used)
      ensures ok ==> log[..] == old(log[..])[x := Slot(key, old(log[x]).bound.(typ := typ))]
      ensures ok ==> plan.held == AfterRegister(log[..], log, old(plan.held), x)
      ensures ok ==> plan.used <= old(plan.used) + 1 && (plan.slot == old(plan.slot) || fresh(plan.slot))
    {
      ghost var was, held := log[..], plan.held;
      assert x < used ==> was[x].key == key;
      log[x] := Slot(key, log[x].bound.(typ := typ));
      ghost var now := log[..];
      assert now == was[x := now[x]];
      TakeOk(was, free, used, log, held, x, now);
      ok := Register(x);
      used := if x == used then x + 1 else used;
    }

    /** GetBind and GetLink. */
    method Get(key: Key, typ: int) returns (ok: bool, x: nat)
      requires Valid() && key != free && key.Name? == free.Name? && used < MOST_SLOTS && plan.used < MOST_SLOTS
      modifies `used, `log, log, plan, plan.slot
      ensures ok <==> Takes(old(plan.held).Keys, key)
      ensures ok ==> Valid() && (log == old(log) || fresh(log)) && x < used
      ensures ok ==> log[x].key == key && log[x].bound.typ == typ && used <= old(used) + 1
      ensures ok ==> Map() == old(Map())[key := old(if key in Map() then Map()[key] else NOTHING).(typ := typ)]
      ensures ok ==> plan.held.Keys == WithKey(old(plan.held).Keys, key)
      ensures ok ==> SameOf(old(plan.held), plan.held, !free.Name?)
      ensures ok ==> plan.used <= old(plan.used) + 1 && (plan.slot == old(plan.slot) || fresh(plan.slot))
    {
      hide SlotsOk, Packed, Handed, HeldOk, IsSize, Contents;
      ghost var was, n := log[..], used;
      x := Find(key);
      if x == log.Length {
        InUse(was, free, n);
        Expand();
        InUse(log[..], free, n);
        assert forall i | 0 <= i < n :: log[..][i] == log[..n][i] && was[i] == was[..n][i];
        ContentsPrefix(was, log[..], n);
      }
      ghost var now := log[..];
      InUse(now, free, n);
      FoundInMap(now, free, n, x, key);
      if log[x].key == free || log[x].bound.typ != typ {
        ok := Take(x, key, typ);
        TakenInMap(now, free, n, x, key, typ);
      } else {
        ok := true;
        HandedListed(now, used, log, plan.held, free.Name?, x);
        assert Map()[key := Map()[key]] == Map();
      }
    }

    /** LinkInput and LinkOutput. */
    method Link(key: Key, typ: int, data: int, func: int) returns (ok: bool, x: nat)
      requires Valid() && key != free && key.Name? == free.Name? && used < MOST_SLOTS && plan.used < MOST_SLOTS
      modifies `used, `log, log, plan, plan.slot
      ensures ok <==> Takes(old(plan.held).Keys, key)
      ensures ok ==> Valid() && (log == old(log) || fresh(log)) && x < used && log[x].key == key
      ensures ok ==> Map() == old(Map())[key := Binding(typ, data, func)] && used <= old(used) + 1
      ensures ok ==> plan.held.Keys == WithKey(old(plan.held).Keys, key)
      ensures ok ==> SameOf(old(plan.held), plan.held, !free.Name?)
      ensures ok ==> plan.used <= old(plan.used) + 1 && (plan.slot == old(plan.slot) || fresh(plan.slot))
    {
      hide SlotsOk, Packed, Handed, HeldOk, IsSize, Contents, SameOf;
      ok, x := Get(key, typ);
      if ok {
        ghost var was := log[..];
        InUse(was, free, used);
        ContentsWrite(was, free, used, x, Binding(typ, data, func));
        WriteOk(was, free, used, log, plan.held, x, Binding(typ, data, func));
        log[x] := Slot(key, Binding(typ, data, func));
        assert log[..] == was[x := Slot(was[x].key, Binding(typ, data, func))];
      }
    }
  }

  // ---------------------------------------------------------------- both tables

  /** The buffer of a name has 64 bytes. */
  const NAME_SIZE := 64

  /** A call of LinkInput or of LinkOutput. */
  datatype Call = Input(name: string, bound: Binding) | Output(index: int, bound: Binding)
  {
    predicate Acceptable() {
      match this
      case Input(name, _) => 0 < |Strip(name)| < NAME_SIZE
      case Output(index, _) => index != 0
    }

    function Key(): Key {
      match this
      case Input(name, _) => Name(Strip(name))
      case Output(index, _) => Position(index)
    }
  }

  /** What the calls bind to names, or to positions: to each the latest. */
  function Bound(m: map<Key, Binding>, names: bool, calls: seq<Call>): map<Key, Binding> {
    if calls == [] then m
    else
      var before, last := Bound(m, names, calls[..|calls| - 1]), calls[|calls| - 1];
      if last.Input? == names then before[last.Key() := last.bound] else before
  }

  /** Call j is the latest of those that bind the key. */
  ghost predicate IsLatest(calls: seq<Call>, k: Key, j: nat) {
    j < |calls| && calls[j].Key() == k && forall i | j < i < |calls| :: calls[i].Key() != k
  }

  /** A key has what the latest call for it bound. */
  lemma {:induction false} BoundLatest(m: map<Key, Binding>, calls: seq<Call>, k: Key, j: nat)
    requires IsLatest(calls, k, j)
    ensures k in Bound(m, k.Name?, calls) && Bound(m, k.Name?, calls)[k] == calls[j].bound
  {
    var n := |calls| - 1;
    if j < n {
      BoundLatest(m, calls[..n], k, j);
      assert calls[n].Key() != k;
    }
  }

  /** A key that no call is for has what it had. */
  lemma {:induction false} BoundNever(m: map<Key, Binding>, names: bool, calls: seq<Call>, k: Key)
    requires forall j | 0 <= j < |calls| :: calls[j].Key() != k
    ensures k in Bound(m, names, calls) <==> k in m
    ensures k in m ==> Bound(m, names, calls)[k] == m[k]
  {
    if calls != [] {
      assert calls[|calls| - 1].Key() != k;
      BoundNever(m, names, calls[..|calls| - 1], k);
    }
  }

  /** The engine has the key of call i, or gets it by an earlier call. */
  ghost predicate KnownAt(held: set<Key>, calls: seq<Call>, i: nat)
    requires i < |calls|
  {
    var e := EngineKey(calls[i].Key());
    (e.Some? && e.value in held) || exists j | 0 <= j < i :: EngineKey(calls[j].Key()) == e
  }

  /** The engine has a position before call i. */
  ghost predicate OutputBefore(held: set<Key>, calls: seq<Call>, i: nat)
    requires i < |calls|
  {
    || (exists k | k in held :: k.Position?)
    || exists j | 0 <= j < i :: calls[j].Output? && EngineKey(calls[j].Key()).Some?
  }

  /** After the first position that the engine takes, no name is bound that is new to it. */
  ghost predicate Orderly(held: set<Key>, calls: seq<Call>) {
    forall i | 0 <= i < |calls| && calls[i].Input? && OutputBefore(held, calls, i) :: KnownAt(held, calls, i)
  }

  /** The keys that the engine has got by the first n calls. */
  ghost function HeldAfter(held: set<Key>, calls: seq<Call>, n: nat): set<Key>
    requires n <= |calls|
  {
    if n == 0 then held else WithKey(HeldAfter(held, calls, n - 1), calls[n - 1].Key())
  }

  lemma {:induction false} HeldMeans(held: set<Key>, calls: seq<Call>, n: nat, e: Key)
    requires n <= |calls|
    ensures e in HeldAfter(held, calls, n) <==>
      e in held || exists j | 0 <= j < n :: EngineKey(calls[j].Key()) == Some(e)
  {
    if n > 0 { HeldMeans(held, calls, n - 1, e); }
  }

  /** A call goes through exactly if its place among the others is in order. */
  lemma TakesExactly(held: set<Key>, calls: seq<Call>, i: nat)
    requires i < |calls|
    ensures Takes(HeldAfter(held, calls, i), calls[i].Key()) <==>
      (calls[i].Input? && OutputBefore(held, calls, i) ==> KnownAt(held, calls, i))
  {
    var h, e := HeldAfter(held, calls, i), EngineKey(calls[i].Key());
    if calls[i].Input? {
      HeldMeans(held, calls, i, e.value);
      if OutputBefore(held, calls, i) {
        var k := PositionBefore(held, calls, i);
        HeldMeans(held, calls, i, k);
      } else {
        forall k | k in h ensures k.Name? { HeldMeans(held, calls, i, k); }
      }
    }
  }

  lemma PositionBefore(held: set<Key>, calls: seq<Call>, i: nat) returns (k: Key)
    requires i < |calls| && OutputBefore(held, calls, i)
    ensures k.Position? && (k in held || exists j | 0 <= j < i :: EngineKey(calls[j].Key()) == Some(k))
  {
    if k' :| k' in held && k'.Position? {
      k := k';
    } else {
      var j :| 0 <= j < i && calls[j].Output? && EngineKey(calls[j].Key()).Some?;
      k := EngineKey(calls[j].Key()).value;
    }
  }

  class Statement {
    const plan: Plan
    const inputs: Bindings
    const outputs: Bindings

    ghost predicate Valid()
      reads this, inputs, inputs.log, outputs, outputs.log, plan, plan.slot
    {
      && inputs != outputs && inputs.log != outputs.log && inputs.plan == plan && outputs.plan == plan
      && inputs.free == Name("") && outputs.free == Position(0)
      && inputs.Valid() && outputs.Valid()
    }

    constructor ()
      ensures Valid() && inputs.used == outputs.used == plan.used == 0 && plan.held == map[]
      ensures inputs.log.Length == outputs.log.Length == 0
      ensures fresh(inputs) && fresh(outputs) && fresh(inputs.log) && fresh(outputs.log)
      ensures fresh(plan) && fresh(plan.slot)
    {
      var p := new Plan();
      plan := p;
      inputs := new Bindings(Name(""), p);
      outputs := new Bindings(Position(0), p);
    }

    method LinkInput(name: string, typ: int, data: int, func: int) returns (ok: bool, x: nat)
      requires Valid() && 0 < |Strip(name)| < NAME_SIZE && inputs.used < MOST_SLOTS && plan.used < MOST_SLOTS
      modifies inputs, inputs.log, plan, plan.slot
      ensures ok <==> Takes(old(plan.held).Keys, Name(Strip(name)))
      ensures ok ==> Valid() && x < inputs.used && inputs.log[x].key == Name(Strip(name))
      ensures ok ==> inputs.Map() == old(inputs.Map())[Name(Strip(name)) := Binding(typ, data, func)]
      ensures ok ==> outputs.Map() == old(outputs.Map())
      ensures ok ==> plan.held.Keys == WithKey(old(plan.held).Keys, Name(Strip(name)))
      ensures ok ==> inputs.used <= old(inputs.used) + 1 && plan.used <= old(plan.used) + 1
      ensures ok ==> (inputs.log == old(inputs.log) || fresh(inputs.log))
      ensures ok ==> (plan.slot == old(plan.slot) || fresh(plan.slot))
    {
      ghost var s, held := outputs.log[..], plan.held;
      ok, x := inputs.Link(Name(Strip(name)), typ, data, func);
      if ok { OtherKept(s, outputs.free, outputs.used, outputs.log, held, plan.held); }
    }

    method LinkOutput(index: int, typ: int, data: int, func: int) returns (x: nat)
      requires Valid() && index != 0 && outputs.used < MOST_SLOTS && plan.used < MOST_SLOTS
      modifies outputs, outputs.log, plan, plan.slot
      ensures Valid() && x < outputs.used && outputs.log[x].key == Position(index)
      ensures outputs.Map() == old(outputs.Map())[Position(index) := Binding(typ, data, func)]
      ensures inputs.Map() == old(inputs.Map())
      ensures plan.held.Keys == WithKey(old(plan.held).Keys, Position(index))
      ensures outputs.used <= old(outputs.used) + 1 && plan.used <= old(plan.used) + 1
      ensures outputs.log == old(outputs.log) || fresh(outputs.log)
      ensures plan.slot == old(plan.slot) || fresh(plan.slot)
    {
      ghost var s, held := inputs.log[..], plan.held;
      var ok;
      ok, x := outputs.Link(Position(index), typ, data, func);
      OtherKept(s, inputs.free, inputs.used, inputs.log, held, plan.held);
    }

    /** The table of the kind of a key. */
    function Table(e: Key): Bindings { if e.Name? then inputs else outputs }

    /** What the engine has for a key is the address of a slot in the table as it is now, with the type that the
        slot has now. */
    ghost predicate Points(e: Key)
      requires e in plan.held
      reads this, Table(e), Table(e).log, plan
    {
      Current(Table(e).log[..], Table(e).used, Table(e).log, plan.held[e], e)
    }

    /** Any sequence of calls.  It goes through exactly if it is orderly.  Then the tables hold what the latest
        calls bound, every address the engine has is in the tables as they are now, and the engine finds all
        slots exactly if it takes all keys and reads no two alike. */
    method LinkAll(calls: seq<Call>) returns (ok: bool)
      requires Valid() && forall i | 0 <= i < |calls| :: calls[i].Acceptable()
      requires inputs.used + |calls| <= MOST_SLOTS && outputs.used + |calls| <= MOST_SLOTS
      requires plan.used + |calls| <= MOST_SLOTS
      modifies inputs, inputs.log, outputs, outputs.log, plan, plan.slot
      ensures ok <==> Orderly(old(plan.held).Keys, calls)
      ensures ok ==> Valid() && forall e | e in plan.held :: Points(e)
      ensures ok ==> inputs.Map() == Bound(old(inputs.Map()), true, calls)
      ensures ok ==> outputs.Map() == Bound(old(outputs.Map()), false, calls)
      ensures ok ==> (inputs.AllRegistered() <==> Readable(Bound(old(inputs.Map()), true, calls).Keys))
      ensures ok ==> (outputs.AllRegistered() <==> Readable(Bound(old(outputs.Map()), false, calls).Keys))
    {
      hide Bound, Orderly, Contents, Packed, HeldOk, SlotsOk, HeldAfter, Takes, IsSize, OutputBefore, KnownAt, Readable;
      ghost var held := plan.held.Keys;
      BoundNothing(inputs.Map(), outputs.Map(), held, calls);
      for i := 0 to |calls|
        invariant Valid() && inputs.used <= old(inputs.used) + i && outputs.used <= old(outputs.used) + i
        invariant plan.used <= old(plan.used) + i && plan.held.Keys == HeldAfter(held, calls, i)
        invariant inputs.log == old(inputs.log) || fresh(inputs.log)
        invariant outputs.log == old(outputs.log) || fresh(outputs.log)
        invariant plan.slot == old(plan.slot) || fresh(plan.slot)
        invariant inputs.Map() == Bound(old(inputs.Map()), true, calls[..i])
        invariant outputs.Map() == Bound(old(outputs.Map()), false, calls[..i])
        invariant forall j | 0 <= j < i :: Takes(HeldAfter(held, calls, j), calls[j].Key())
      {
        BoundStep(old(inputs.Map()), old(outputs.Map()), held, calls, i);
        match calls[i] {
          case Input(name, b) =>
            var x;
            ok, x := LinkInput(name, b.typ, b.data, b.func);
            if !ok {
              NotOrderly(held, calls, i);
              return;
            }
          case Output(index, b) => var _ := LinkOutput(index, b.typ, b.data, b.func);
        }
      }
      ok := true;
      assert calls[..|calls|] == calls;
      AllOrderly(held, calls);
      PointsAll();
      inputs.RegisteredExactly();
      outputs.RegisteredExactly();
    }

    lemma PointsAll()
      requires Valid()
      ensures forall e | e in plan.held :: Points(e)
    {
    }
  }

  lemma NotOrderly(held: set<Key>, calls: seq<Call>, i: nat)
    requires i < |calls| && !Takes(HeldAfter(held, calls, i), calls[i].Key())
    ensures !Orderly(held, calls)
  {
    TakesExactly(held, calls, i);
  }

  lemma AllOrderly(held: set<Key>, calls: seq<Call>)
    requires forall i | 0 <= i < |calls| :: Takes(HeldAfter(held, calls, i), calls[i].Key())
    ensures Orderly(held, calls)
  {
    forall i | 0 <= i < |calls| && calls[i].Input? && OutputBefore(held, calls, i) ensures KnownAt(held, calls, i) {
      TakesExactly(held, calls, i);
    }
  }

  lemma BoundNothing(m: map<Key, Binding>, n: map<Key, Binding>, held: set<Key>, calls: seq<Call>)
    ensures Bound(m, true, calls[..0]) == m && Bound(n, false, calls[..0]) == n && HeldAfter(held, calls, 0) == held
  {
  }

  lemma BoundStep(m: map<Key, Binding>, n: map<Key, Binding>, held: set<Key>, calls: seq<Call>, i: nat)
    requires i < |calls|
    ensures Bound(m, true, calls[..i + 1]) ==
      var before := Bound(m, true, calls[..i]);
      if calls[i].Input? then before[calls[i].Key() := calls[i].bound] else before
    ensures Bound(n, false, calls[..i + 1]) ==
      var before := Bound(n, false, calls[..i]);
      if calls[i].Output? then before[calls[i].Key() := calls[i].bound] else before
    ensures HeldAfter(held, calls, i + 1) == WithKey(HeldAfter(held, calls, i), calls[i].Key())
    ensures calls[i].Output? ==> Takes(HeldAfter(held, calls, i), calls[i].Key())
  {
    assert calls[..i + 1][..i] == calls[..i];
  }

  // ---------------------------------------------------------------- where the tables and the engine part

  /** A column that is linked before a name makes the engine compare the name with none, so that the call does
      not end well. */
  method OutputFirst(index: int, name: string, b: Binding) returns (ok: bool)
    requires index != 0 && EngineKey(Position(index)).Some? && 0 < |Strip(name)| < NAME_SIZE
    ensures !ok
  {
    var stmt := new Statement();
    var calls := [Output(index, b), Input(name, b)];
    ok := stmt.LinkAll(calls);
    assert EngineKey(calls[0].Key()).Some? && OutputBefore({}, calls, 1) && !KnownAt({}, calls, 1);
  }

  /** Names before columns are in order, whatever they are. */
  lemma InputsFirst(inputs: seq<Call>, outputs: seq<Call>)
    requires forall i | 0 <= i < |inputs| :: inputs[i].Input?
    requires forall i | 0 <= i < |outputs| :: outputs[i].Output?
    ensures Orderly({}, inputs + outputs)
  {
  }

  /** The spellings of one name bind one slot: the latest call counts. */
  method OneSlot(calls: seq<Call>, name: string) returns (stmt: Statement, ok: bool)
    requires 0 < |name| < NAME_SIZE && 0 < |calls| <= MOST_SLOTS
    requires forall i | 0 <= i < |calls| :: calls[i].Input? && Spells(calls[i].name, name)
    ensures fresh(stmt) && ok && stmt.Valid() && stmt.inputs.Map() == map[Name(name) := calls[|calls| - 1].bound]
  {
    hide Packed, HeldOk, SlotsOk, Contents, IsSize, Orderly, Bound, Spells, Strip;
    stmt := new Statement();
    forall i | 0 <= i < |calls| ensures calls[i].Key() == Name(name) && calls[i].Acceptable() {
      StripExactly(calls[i].name, name);
    }
    InputsFirst(calls, []);
    assert calls + [] == calls && stmt.plan.held.Keys == {};
    NoSlots();
    assert stmt.inputs.log[..] == [] && stmt.inputs.Map() == map[];
    ok := stmt.LinkAll(calls);
    OneKey(calls, Name(name));
  }

  lemma OneKey(calls: seq<Call>, k: Key)
    requires calls != [] && k.Name? && forall i | 0 <= i < |calls| :: calls[i].Key() == k
    ensures Bound(map[], true, calls) == map[k := calls[|calls| - 1].bound]
  {
    BoundLatest(map[], calls, k, |calls| - 1);
    forall o | o != k ensures o !in Bound(map[], true, calls) { BoundNever(map[], true, calls, o); }
  }

  /** Two names that differ by a second marker are two slots and one key of the engine, which can find only
      one of them. */
  method SharedName(b: Binding) returns (stmt: Statement, ok: bool)
    ensures fresh(stmt) && ok && stmt.Valid() && !stmt.inputs.AllRegistered()
  {
    hide Packed, HeldOk, SlotsOk, Contents, IsSize, Orderly, Registered, Current;
    stmt := new Statement();
    var calls := [Input("::x", b), Input("x", b)];
    InputsFirst(calls, []);
    assert calls + [] == calls && stmt.plan.held.Keys == {};
    ok := stmt.LinkAll(calls);
    NoSlots();
    BoundTwo(map[], calls);
    assert !Apart(Name(":x"), Name("x"));
  }

  lemma NoSlots()
    ensures Contents([], 0) == map[]
  {
  }

  lemma BoundTwo(m: map<Key, Binding>, calls: seq<Call>)
    requires |calls| == 2 && calls[0].Input? && calls[1].Input?
    ensures calls[0].Key() in Bound(m, true, calls) && calls[1].Key() in Bound(m, true, calls)
  {
    assert calls[..1][..0] == [] && calls[..1][0] == calls[0];
  }

  /** A column number that the engine refuses is a slot that it does not know of. */
  method RefusedPosition(index: int, b: Binding) returns (stmt: Statement)
    requires index != 0 && EngineKey(Position(index)).None?
    ensures fresh(stmt) && stmt.Valid() && stmt.outputs.Map().Keys == {Position(index)}
    ensures !stmt.outputs.AllRegistered()
  {
    stmt := new Statement();
    var x := stmt.LinkOutput(index, b.typ, b.data, b.func);
    stmt.outputs.RegisteredExactly();
  }
}
