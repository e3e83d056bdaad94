/**
  The engine's side of a prepared statement: one array of slots for bound
  parameters and output columns, which grows by doubling.
 */
module PreparedPlan {
  import opened Basics

  /** What a slot is for: a named parameter, or a column of the output. */
  datatype Key = Name(name: string) | Position(index: int)

  /** What is bound: a type, and what the transfer function is called with. */
  datatype Binding = Binding(typ: int, data: int, func: int)

  /** A slot of the statement manager. */
  datatype Slot = Slot(key: Key, bound: Binding)

  /** What the engine has been given for a key: the type and the address of a slot. */
  datatype Registration = Registration(typ: int, table: array<Slot>, index: nat)

  /** A slot of the engine; one that is taken for a position has no name. */
  datatype PlanSlot = Free | Taken(key: Key, reg: Registration)

  const START_ARGS := 8
  const MAX_ARGS := 64

  /** Slots are counted in a short, and doubled. */
  const MOST_SLOTS := 16384

  predicate IsSize(n: nat) {
    n == 0 || n == 4 || n == 8 || n == 16 || n == 32 || n == 64 || n == 128 || n == 256 || n == 512 || n == 1024
    || n == 2048 || n == 4096 || n == 8192 || n == MOST_SLOTS
  }

  /** A parameter marker before a name is dropped. */
  function Strip(name: string): string {
    if name != "" && name[0] in {'$', '?', ':'} then name[1..] else name
  }

  /** A position is passed as a 16-bit integer. */
  function Short(index: int): int { (index + 0x8000) % 0x1_0000 - 0x8000 }

  /** How the engine reads a key: it drops a marker from a name, and refuses positions that are not from 1 to
      MAX_ARGS. */
  function EngineKey(k: Key): Option<Key> {
    match k
    case Name(name) => Some(Name(Strip(name)))
    case Position(index) => if 1 <= Short(index) <= MAX_ARGS then Some(Position(Short(index))) else None
  }

  /** The spellings of a name: with one of the markers, or without if it does not begin with one itself. */
  predicate Spells(text: string, name: string) {
    || text == "$" + name || text == "?" + name || text == ":" + name
    || (text == name && (name == "" || (name[0] != '$' && name[0] != '?' && name[0] != ':')))
  }

  /** These are the texts that are read as the name. */
  lemma StripExactly(text: string, name: string)
    ensures Strip(text) == name <==> Spells(text, name)
  {
    assert text != "" ==> text == text[..1] + text[1..];
    assert ("$" + name)[1..] == ("?" + name)[1..] == (":" + name)[1..] == name;
  }

  /** The 16-bit integer that is the position, but for a multiple of 65536. */
  lemma ShortExactly(index: int, v: int)
    requires -32768 <= v < 32768
    ensures v == Short(index) <==> (index - v) % 65536 == 0
  {
  }

  /** The search for a name compares it with the name of every slot it passes, so it must not come to a slot
      without name: the engine has the name, or has no position. */
  ghost predicate Reachable(held: set<Key>, e: Key) { e.Name? ==> e in held || forall k | k in held :: k.Name? }

  /** The slots in use are in front, one for each key, and those with a name before those without. */
  ghost predicate SlotsOk(s: seq<PlanSlot>, n: nat, held: map<Key, Registration>) {
    && n <= |s|
    && (forall i | 0 <= i < n :: s[i].Taken? && s[i].key in held && held[s[i].key] == s[i].reg)
    && (forall i | n <= i < |s| :: s[i].Free?)
    && (forall i, j | 0 <= i < j < n :: s[i].key != s[j].key && (s[j].key.Name? ==> s[i].key.Name?))
    && (forall k | k in held :: HasSlot(s, n, k))
  }

  ghost predicate HasSlot(s: seq<PlanSlot>, n: nat, k: Key) {
    exists i | 0 <= i < n <= |s| :: s[i].Taken? && s[i].key == k
  }

  /** Taking the slot of a key, or the first free one. */
  lemma PutOk(s: seq<PlanSlot>, n: nat, held: map<Key, Registration>, x: nat, e: Key, r: Registration)
    requires SlotsOk(s, n, held) && x < |s| && x <= n && Reachable(held.Keys, e)
    requires if x < n then s[x].key == e else e !in held
    ensures SlotsOk(s[x := Taken(e, r)], if x == n then n + 1 else n, held[e := r])
  {
    var t, m, held' := s[x := Taken(e, r)], if x == n then n + 1 else n, held[e := r];
    forall k | k in held' ensures HasSlot(t, m, k) {
      if k == e {
        assert t[x].key == k;
      } else {
        assert HasSlot(s, n, k);
        var i :| 0 <= i < n && s[i].Taken? && s[i].key == k;
        assert t[i].key == k;
      }
    }
  }

  lemma WidenOk(s: seq<PlanSlot>, t: seq<PlanSlot>, n: nat, held: map<Key, Registration>)
    requires SlotsOk(s, n, held) && |s| <= |t|
    requires (forall i | 0 <= i < |s| :: t[i] == s[i]) && forall i | |s| <= i < |t| :: t[i].Free?
    ensures SlotsOk(t, n, held)
  {
    forall k | k in held ensures HasSlot(t, n, k) {
      assert HasSlot(s, n, k);
      var i :| 0 <= i < n && s[i].Taken? && s[i].key == k;
      assert t[i].key == k;
    }
  }

  class Plan {
    var slot: array<PlanSlot>

    ghost var used: nat
    ghost var held: map<Key, Registration>

    ghost predicate Valid()
      reads this, slot
    {
      SlotsOk(slot[..], used, held) && IsSize(slot.Length) && slot.Length >= START_ARGS
    }

    /** WPrepareStatement. */
    constructor ()
      ensures Valid() && used == 0 && held == map[] && fresh(slot)
    {
      slot := new PlanSlot[START_ARGS](_ => Free);
      used, held := 0, map[];
    }

    /** The search loop of WBindTransfer.  It fails on a slot without name, which is compared all the same. */
    method FindName(name: string) returns (ok: bool, index: nat)
      requires Valid()
      ensures ok <==> Reachable(held.Keys, Name(name))
      ensures ok ==> index <= used && if index < used then slot[index].key == Name(name) else Name(name) !in held
    {
      index := 0;
      while index < slot.Length && slot[index].Taken?
        invariant index <= used && forall j | 0 <= j < index :: slot[j].key.Name? && slot[j].key.name != name
      {
        assert slot[..][index].Taken? ==> index < used;
        match slot[index].key {
          case Position(_) =>
            NotBefore(name, index);
            return false, index;
          case Name(n) =>
            if n == name {
              return true, index;
            }
        }
        index := index + 1;
      }
      NotThere(Name(name));
      ok := true;
      forall k | k in held ensures k.Name? { assert HasSlot(slot[..], used, k); }
    }

    lemma NotBefore(name: string, index: nat)
      requires Valid() && index < used && slot[index].key.Position?
      requires forall j | 0 <= j < index :: slot[j].key.Name? && slot[j].key.name != name
      ensures !Reachable(held.Keys, Name(name))
    {
      assert slot[..][index].key in held;
      forall j | 0 <= j < used ensures slot[j].key != Name(name) {
        assert index < j ==> !slot[..][j].key.Name?;
      }
      NotThere(Name(name));
    }

    lemma NotThere(e: Key)
      requires Valid() && forall j | 0 <= j < used :: slot[j].key != e
      ensures e !in held
    {
      assert e in held ==> HasSlot(slot[..], used, e);
    }

    /** The search loop of WOutputTransfer; the index of a slot that has a name is 0. */
    method FindPosition(pos: int) returns (index: nat)
      requires Valid() && 1 <= pos <= MAX_ARGS
      ensures index <= used && if index < used then slot[index].key == Position(pos) else Position(pos) !in held
    {
      index := 0;
      while index < slot.Length && slot[index].Taken? && !(slot[index].key.Position? && slot[index].key.index == pos)
        invariant index <= used && forall j | 0 <= j < index :: slot[j].key != Position(pos)
      {
        assert slot[..][index].Taken? ==> index < used;
        index := index + 1;
      }
      assert index < used ==> slot[..][index].Taken?;
      assert used < slot.Length ==> slot[..][used].Free?;
      if index == used { NotThere(Position(pos)); }
    }

    /** ExpandSlots. */
    method Expand()
      requires Valid() && slot.Length < MOST_SLOTS
      modifies `slot
      ensures Valid() && fresh(slot) && slot.Length == 2 * old(slot.Length)
      ensures forall i | 0 <= i < used :: slot[i] == old(slot[i])
    {
      var was, slots := slot, new PlanSlot[slot.Length * 2](_ => Free);
      for i := 0 to was.Length
        invariant slot == was && forall j | 0 <= j < i :: slots[j] == was[j]
        invariant forall j | i <= j < slots.Length :: slots[j].Free?
      {
        slots[i] := was[i];
      }
      assert forall j | 0 <= j < was.Length :: slots[..][j] == was[..][j];
      WidenOk(was[..], slots[..], used, held);
      slot := slots;
    }

    method Put(index: nat, e: Key, reg: Registration)
      requires Valid() && index <= used && Reachable(held.Keys, e) && (e in held || used < MOST_SLOTS)
      requires if index < used then slot[index].key == e else e !in held
      modifies this, slot
      ensures Valid() && held == old(held)[e := reg] && (slot == old(slot) || fresh(slot))
      ensures used == old(used) + if e in old(held) then 0 else 1
    {
      assert index < used ==> slot[..][index].key in held;
      if index == slot.Length {
        Expand();
      }
      ghost var was := slot[..];
      PutOk(was, used, held, index, e, reg);
      slot[index] := Taken(e, reg);
      assert slot[..] == was[index := Taken(e, reg)];
      used := if index == used then used + 1 else used;
      held := held[e := reg];
    }

    /** WBindTransfer.  Not ok means that its search has come to a slot without name. */
    method BindTransfer(binder: string, reg: Registration) returns (ok: bool)
      requires Valid() && used < MOST_SLOTS
      modifies this, slot
      ensures ok <==> Reachable(old(held).Keys, Name(Strip(binder)))
      ensures ok ==> Valid() && held == old(held)[Name(Strip(binder)) := reg] && (slot == old(slot) || fresh(slot))
      ensures ok ==> used == old(used) + if Name(Strip(binder)) in old(held) then 0 else 1
    {
      var index;
      ok, index := FindName(Strip(binder));
      if ok {
        Put(index, Name(Strip(binder)), reg);
      }
    }

    /** WOutputTransfer.  Not ok is an error that it reports. */
    method OutputTransfer(index: int, reg: Registration) returns (ok: bool)
      requires Valid() && used < MOST_SLOTS
      modifies this, slot
      ensures Valid() && (ok <==> EngineKey(Position(index)).Some?) && (slot == old(slot) || fresh(slot))
      ensures held == if ok then old(held)[Position(Short(index)) := reg] else old(held)
      ensures used == old(used) + if !ok || Position(Short(index)) in old(held) then 0 else 1
    {
      var pos := Short(index);
      if pos > MAX_ARGS || pos <= 0 {
        return false;
      }
      var x := FindPosition(pos);
      Put(x, Position(pos), reg);
      ok := true;
    }
  }
}
