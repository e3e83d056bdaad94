/**
  SET CONSTRAINTS: the current mode of a deferrable trigger is kept in a list of
  individual states, a flag for ALL, and its declared default.
 */
module TriggerModes {
  import opened Basics

  datatype Status = Status(tgoid: Oid, deferred: bool)

  /** Either the per-session or the per-transaction part of TriggerInfo. */
  datatype Modes = Modes(allSet: bool, allDeferred: bool, states: seq<Status>)

  const NO_MODES := Modes(false, false, [])

  /** SET CONSTRAINTS ALL or SET CONSTRAINTS name, ... with the oids of the named triggers. */
  datatype Command = All(deferred: bool) | Named(oids: seq<Oid>, deferred: bool)

  // ---------------------------------------------------------------- lookup and update

  function Find(states: seq<Status>, oid: Oid): Option<bool> {
    if states == [] then None
    else if states[0].tgoid == oid then Some(states[0].deferred)
    else Find(states[1..], oid)
  }

  /** What the lists say of a trigger, if anything. */
  function Stored(m: Modes, oid: Oid): Option<bool> {
    match Find(m.states, oid)
    case Some(d) => Some(d)
    case None => if m.allSet then Some(m.allDeferred) else None
  }

  /** deferredTriggerCheckState remembers the default of a trigger it knows nothing about. */
  function Memoise(m: Modes, oid: Oid, initDeferred: bool): Modes {
    if Stored(m, oid).Some? then m else m.(states := m.states + [Status(oid, initDeferred)])
  }

  /** The first entry of a trigger is overwritten, or a new one is appended. */
  function SetOne(states: seq<Status>, oid: Oid, deferred: bool): seq<Status> {
    if states == [] then [Status(oid, deferred)]
    else if states[0].tgoid == oid then [Status(oid, deferred)] + states[1..]
    else [states[0]] + SetOne(states[1..], oid, deferred)
  }

  function SetMany(states: seq<Status>, oids: seq<Oid>, deferred: bool): seq<Status> {
    if oids == [] then states
    else SetOne(SetMany(states, oids[..|oids| - 1], deferred), oids[|oids| - 1], deferred)
  }

  function Execute(m: Modes, c: Command): Modes {
    match c
    case All(d) => Modes(true, d, [])
    case Named(oids, d) => m.(states := SetMany(m.states, oids, d))
  }

  // ---------------------------------------------------------------- the promise

  predicate Mentions(c: Command, oid: Oid) { c.All? || oid in c.oids }

  /** The latest command that mentions the trigger or ALL. */
  function Latest(history: seq<Command>, oid: Oid): Option<bool> {
    if history == [] then None
    else
      var c := history[|history| - 1];
      if Mentions(c, oid) then Some(c.deferred) else Latest(history[..|history| - 1], oid)
  }

  /** The lists of a session say exactly what its commands said. */
  ghost predicate Records(m: Modes, history: seq<Command>) {
    forall oid :: Stored(m, oid) == Latest(history, oid)
  }

  /** The lists of a transaction give the same answers, whatever defaults have been remembered. */
  ghost predicate Agrees(m: Modes, history: seq<Command>, init: Oid -> bool) {
    forall oid :: Stored(m, oid).Or(init(oid)) == Latest(history, oid).Or(init(oid))
  }

  lemma {:induction false} FindSetOne(states: seq<Status>, oid: Oid, deferred: bool, other: Oid)
    ensures Find(SetOne(states, oid, deferred), other) == if other == oid then Some(deferred) else Find(states, other)
  {
    if states != [] {
      FindSetOne(states[1..], oid, deferred, other);
      var r := SetOne(states, oid, deferred);
      assert states[0].tgoid == oid ==> r[1..] == states[1..];
      assert states[0].tgoid != oid ==> r[1..] == SetOne(states[1..], oid, deferred);
    } else {
      assert SetOne(states, oid, deferred)[1..] == [];
    }
  }

  lemma {:induction false} FindSetMany(states: seq<Status>, oids: seq<Oid>, deferred: bool, other: Oid)
    ensures Find(SetMany(states, oids, deferred), other) == if other in oids then Some(deferred)
      else Find(states, other)
  {
    if oids != [] {
      var n := |oids| - 1;
      FindSetMany(states, oids[..n], deferred, other);
      FindSetOne(SetMany(states, oids[..n], deferred), oids[n], deferred, other);
      assert oids == oids[..n] + [oids[n]];
    }
  }

  lemma {:induction false} FindAppend(states: seq<Status>, s: Status, other: Oid)
    ensures Find(states + [s], other) ==
      if Find(states, other).Some? then Find(states, other) else if other == s.tgoid then Some(s.deferred) else None
  {
    if states != [] {
      assert (states + [s])[1..] == states[1..] + [s];
      FindAppend(states[1..], s, other);
    } else {
      assert states + [s] == [s];
      assert [s][1..] == [];
    }
  }

  lemma StoredExecute(m: Modes, c: Command, oid: Oid)
    ensures Stored(Execute(m, c), oid) == if Mentions(c, oid) then Some(c.deferred) else Stored(m, oid)
  {
    if c.Named? { FindSetMany(m.states, c.oids, c.deferred, oid); }
  }

  lemma LatestAppend(history: seq<Command>, c: Command, oid: Oid)
    ensures Latest(history + [c], oid) == if Mentions(c, oid) then Some(c.deferred) else Latest(history, oid)
  {
    assert (history + [c])[..|history|] == history;
  }

  lemma {:induction false} SetOneAt(states: seq<Status>, oid: Oid, deferred: bool, ls: nat)
    requires ls <= |states| && forall j | 0 <= j < ls :: states[j].tgoid != oid
    requires ls < |states| ==> states[ls].tgoid == oid
    ensures SetOne(states, oid, deferred) ==
      if ls < |states| then states[ls := Status(oid, deferred)] else states + [Status(oid, deferred)]
  {
    if ls > 0 {
      SetOneAt(states[1..], oid, deferred, ls - 1);
    } else if states != [] {
      assert states[0 := Status(oid, deferred)] == [Status(oid, deferred)] + states[1..];
    }
  }

  lemma FindAt(states: seq<Status>, oid: Oid, sl: nat)
    requires sl <= |states| && forall j | 0 <= j < sl :: states[j].tgoid != oid
    requires sl < |states| ==> states[sl].tgoid == oid
    ensures Find(states, oid) == if sl < |states| then Some(states[sl].deferred) else None
  {
    if sl > 0 { FindAt(states[1..], oid, sl - 1); }
  }

  /** A transaction starts with the answers of the session. */
  lemma RecordsAgrees(m: Modes, history: seq<Command>, init: Oid -> bool)
    requires Records(m, history)
    ensures Agrees(m, history, init)
  {
    forall oid ensures Stored(m, oid).Or(init(oid)) == Latest(history, oid).Or(init(oid)) {
      assert Stored(m, oid) == Latest(history, oid);
    }
  }

  /** A command outside a transaction block. */
  lemma SessionCommand(m: Modes, history: seq<Command>, c: Command)
    requires Records(m, history)
    ensures Records(Execute(m, c), history + [c])
  {
    forall oid ensures Stored(Execute(m, c), oid) == Latest(history + [c], oid) {
      StoredExecute(m, c, oid);
      LatestAppend(history, c, oid);
    }
  }

  /** A command inside a transaction block. */
  lemma TransactionCommand(m: Modes, history: seq<Command>, c: Command, init: Oid -> bool)
    requires Agrees(m, history, init)
    ensures Agrees(Execute(m, c), history + [c], init)
  {
    forall oid ensures Stored(Execute(m, c), oid).Or(init(oid)) == Latest(history + [c], oid).Or(init(oid)) {
      StoredExecute(m, c, oid);
      LatestAppend(history, c, oid);
      assert Stored(m, oid).Or(init(oid)) == Latest(history, oid).Or(init(oid));
    }
  }

  /** Remembering a default changes no answer. */
  lemma MemoiseAgrees(m: Modes, history: seq<Command>, init: Oid -> bool, oid: Oid)
    requires Agrees(m, history, init)
    ensures Agrees(Memoise(m, oid, init(oid)), history, init)
    ensures Stored(Memoise(m, oid, init(oid)), oid) == Some(Latest(history, oid).Or(init(oid)))
  {
    assert Stored(m, oid).Or(init(oid)) == Latest(history, oid).Or(init(oid));
    forall other
      ensures Stored(Memoise(m, oid, init(oid)), other).Or(init(other)) == Latest(history, other).Or(init(other))
    {
      FindAppend(m.states, Status(oid, init(oid)), other);
      assert Stored(m, other).Or(init(other)) == Latest(history, other).Or(init(other));
    }
    FindAppend(m.states, Status(oid, init(oid)), oid);
  }
}
