/**
  What becomes of a change in terms of the triggers as they are declared: which changes are
  queued, which items they get, which of them wait and which are fired in the end.
 */
module TriggerMeaning {
  import opened Basics
  import opened TriggerDescriptor
  import opened TriggerModes
  import opened TriggerRows
  import opened TriggerQueue

  // ---------------------------------------------------------------- declarations

  /** The trigger is declared for the operation of the change. */
  predicate DeclaredFor(t: Trigger, c: Change) {
    (c.Inserted? && t.onInsert) || (c.Updated? && t.onUpdate) || (c.Deleted? && t.onDelete)
  }

  /** AFTER ... FOR EACH ROW. */
  predicate CalledFor(t: Trigger, c: Change) { t.row && !t.before && DeclaredFor(t, c) }

  /** The trigger function is one of the five referential actions on UPDATE. */
  predicate IsReferential(t: Trigger) {
    t.fn == RiNoActionUpd || t.fn == RiCascadeUpd || t.fn == RiRestrictUpd || t.fn == RiSetNullUpd
    || t.fn == RiSetDefaultUpd
  }

  /** A row trigger for any operation, before or after. */
  predicate WatchesRows(t: Trigger) { t.row && (t.onInsert || t.onDelete || t.onUpdate) }

  lemma FiresExactly(t: Trigger, c: Change)
    ensures t.FiresOn(AfterRow, c.TheOp()) <==> CalledFor(t, c)
    ensures t.FiresOn(BeforeRow, c.TheOp()) <==> t.row && t.before && DeclaredFor(t, c)
    ensures t.IsRiUpdate() <==> IsReferential(t)
  {
  }

  lemma SelectedSome(ts: seq<Trigger>, kind: Kind, op: Op)
    ensures Selected(ts, kind, op) != [] <==> exists t | t in ts :: t.FiresOn(kind, op)
  {
    SelectedInOrder(ts, kind, op);
    var r := Selected(ts, kind, op);
    if r != [] { SelectedFires(ts, kind, op, 0); }
    if t :| t in ts && t.FiresOn(kind, op) {
      var i :| 0 <= i < |ts| && ts[i] == t;
      assert i in Positions(ts, kind, op);
    }
  }

  lemma WatchesSome(t: Trigger)
    ensures WatchesRows(t) <==> exists op :: t.FiresOn(AfterRow, op) || t.FiresOn(BeforeRow, op)
  {
    assert t.FiresOn(AfterRow, Insert) || t.FiresOn(BeforeRow, Insert) <==> t.row && t.onInsert;
    assert t.FiresOn(AfterRow, Delete) || t.FiresOn(BeforeRow, Delete) <==> t.row && t.onDelete;
    assert t.FiresOn(AfterRow, Update) || t.FiresOn(BeforeRow, Update) <==> t.row && t.onUpdate;
  }

  /** A table is of interest exactly if it has a row trigger for any operation. */
  lemma InterestedExactly(ts: seq<Trigger>)
    ensures Interested(ts) <==> exists t | t in ts :: WatchesRows(t)
  {
    if Interested(ts) {
      var op :| Selected(ts, AfterRow, op) != [] || Selected(ts, BeforeRow, op) != [];
      SelectedSome(ts, AfterRow, op);
      SelectedSome(ts, BeforeRow, op);
      var t :| t in ts && (t.FiresOn(AfterRow, op) || t.FiresOn(BeforeRow, op));
      WatchesSome(t);
    }
    if t :| t in ts && WatchesRows(t) {
      WatchesSome(t);
      var op :| t.FiresOn(AfterRow, op) || t.FiresOn(BeforeRow, op);
      SelectedSome(ts, AfterRow, op);
      SelectedSome(ts, BeforeRow, op);
    }
  }

  /** A change is passed over exactly if no row trigger of the table is declared for any operation. */
  lemma NoInterestExactly(rels: Relations, events: seq<Event>, c: Change)
    requires WellFormed(rels, c)
    ensures Save(rels, events, c) == NoInterest <==> forall t | t in Triggers(rels, c.relid) :: !WatchesRows(t)
  {
    InterestedExactly(Triggers(rels, c.relid));
  }

  // ---------------------------------------------------------------- the items of an event

  /** The item of a trigger.  An UPDATE that leaves the key of a referential action alone has nothing to fire. */
  ghost predicate ItemFor(it: Item, t: Trigger, c: Change, i: nat, rels: Relations) {
    && it.tgoid == t.oid && it.deferrable == t.deferrable && it.initDeferred == t.initDeferred
    && (it.hasBefore <==> exists u | u in Triggers(rels, c.relid) :: u.row && u.before && DeclaredFor(u, c))
    && (it.done <==> c.Updated? && IsReferential(t) && i < |c.same| && c.same[i])
  }

  /** The positions in the list of the triggers that are called for the change, in order. */
  ghost predicate AllCalled(ps: seq<nat>, ts: seq<Trigger>, c: Change) {
    && (forall i | 0 <= i < |ps| :: ps[i] < |ts|) && (forall i, j | 0 <= i < j < |ps| :: ps[i] < ps[j])
    && forall x | 0 <= x < |ts| :: x in ps <==> CalledFor(ts[x], c)
  }

  lemma HasBeforeExactly(rels: Relations, c: Change)
    ensures HasBefore(rels, c.relid, c.TheOp()) <==>
      exists u | u in Triggers(rels, c.relid) :: u.row && u.before && DeclaredFor(u, c)
  {
    SelectedSome(Triggers(rels, c.relid), BeforeRow, c.TheOp());
    if u :| u in Triggers(rels, c.relid) && u.FiresOn(BeforeRow, c.TheOp()) { FiresExactly(u, c); }
    if u :| u in Triggers(rels, c.relid) && u.row && u.before && DeclaredFor(u, c) { FiresExactly(u, c); }
  }

  lemma SavedBefore(rels: Relations, events: seq<Event>, c: Change, i: nat)
    requires WellFormed(rels, c) && Save(rels, events, c).Saved? && i < |Save(rels, events, c).event.items|
    ensures Save(rels, events, c).event.items[i].hasBefore == HasBefore(rels, c.relid, c.TheOp())
  {
  }

  /** A saved event has one item for every trigger that is called for the change, in the order of the list. */
  lemma SavedItems(rels: Relations, events: seq<Event>, c: Change) returns (ps: seq<nat>)
    requires WellFormed(rels, c) && Save(rels, events, c).Saved?
    ensures var items, ts := Save(rels, events, c).event.items, Triggers(rels, c.relid);
      AllCalled(ps, ts, c) && |ps| == |items| && forall i | 0 <= i < |ps| :: ItemFor(items[i], ts[ps[i]], c, i, rels)
    ensures ps == Positions(Triggers(rels, c.relid), AfterRow, c.TheOp())
  {
    var items, ts := Save(rels, events, c).event.items, Triggers(rels, c.relid);
    ps := Positions(ts, AfterRow, c.TheOp());
    SelectedInOrder(ts, AfterRow, c.TheOp());
    SavedShape(rels, events, c);
    HasBeforeExactly(rels, c);
    hide Save;
    forall x | 0 <= x < |ts| ensures x in ps <==> CalledFor(ts[x], c) { FiresExactly(ts[x], c); }
    forall i | 0 <= i < |ps| ensures ItemFor(items[i], ts[ps[i]], c, i, rels) {
      SavedItem(rels, events, c, i);
      SavedBefore(rels, events, c, i);
      FiresExactly(ts[ps[i]], c);
    }
  }

  // ---------------------------------------------------------------- the rule on all tables

  /** A table has a referential UPDATE trigger exactly if an AFTER UPDATE row trigger of it has one of the five
      functions. */
  lemma HasRiExactly(rels: Relations, relid: Oid)
    ensures HasRi(rels, relid) <==>
      exists t | t in Triggers(rels, relid) :: t.row && !t.before && t.onUpdate && IsReferential(t)
  {
    var ts := Triggers(rels, relid);
    SelectedInOrder(ts, AfterRow, Update);
    if HasRi(rels, relid) {
      var i: nat :| Ri(AfterRowTriggers(rels, relid, Update), i);
      SelectedFires(ts, AfterRow, Update, i);
    }
    if t :| t in ts && t.row && !t.before && t.onUpdate && IsReferential(t) {
      var x :| 0 <= x < |ts| && ts[x] == t;
      var ps := Positions(ts, AfterRow, Update);
      assert ts[x].FiresOn(AfterRow, Update) && x in ps;
      var i :| 0 <= i < |ps| && ps[i] == x;
      assert Ri(AfterRowTriggers(rels, relid, Update), i);
    }
  }

  /** On the other tables an UPDATE is never rejected, and a DELETE only of a row version that was inserted. */
  lemma RejectedOtherwise(rels: Relations, events: seq<Event>, c: Change)
    requires History(rels, events) && WellFormed(rels, c) && !HasRi(rels, c.relid)
    requires exists t | t in Triggers(rels, c.relid) :: WatchesRows(t)
    ensures Save(rels, events, c) == Violation <==>
      c.Deleted? && var p := Predecessor(Extended(events, c), |events|); p.Some? && events[p.value].change.Inserted?
  {
    InterestedExactly(Triggers(rels, c.relid));
    var ts := AfterRowTriggers(rels, c.relid, Update);
    forall i | 0 <= i < |ts| ensures !ts[i].IsRiUpdate() { assert !Ri(ts, i); }
    SaveSeesRow(rels, events, c);
    var p := Predecessor(Extended(events, c), |events|);
    if p.Some? && c.Deleted? { KeyFlag(rels, events, p.value, c.relid); }
  }

  /** Without such triggers the flag of a changed key means an insert. */
  lemma KeyFlag(rels: Relations, events: seq<Event>, k: nat, relid: Oid)
    requires History(rels, events) && k < |events| && !HasRi(rels, relid) && events[k].change.relid == relid
    requires !events[k].change.Deleted?
    ensures events[k].keyChanged <==> events[k].change.Inserted?
  {
    HistoryEvent(rels, events, k);
    var ts := AfterRowTriggers(rels, relid, Update);
    forall i | 0 <= i < |ts| ensures !ts[i].IsRiUpdate() { assert !Ri(ts, i); }
  }

  // ---------------------------------------------------------------- reports of several changes

  ghost predicate IsWatched(rels: Relations, c: Change) { exists t | t in Triggers(rels, c.relid) :: WatchesRows(t) }

  /** The changes of tables with row triggers, in order. */
  ghost function Watched(rels: Relations, changes: seq<Change>): seq<Change> {
    if changes == [] then []
    else
      var n := |changes| - 1;
      Watched(rels, changes[..n]) + if IsWatched(rels, changes[n]) then [changes[n]] else []
  }

  lemma {:induction false} WatchedAppend(rels: Relations, a: seq<Change>, b: seq<Change>)
    ensures Watched(rels, a + b) == Watched(rels, a) + Watched(rels, b)
  {
    if b == [] {
      assert a + b == a;
    } else {
      var n := |b| - 1;
      assert (a + b)[..|a + b| - 1] == a + b[..n];
      WatchedAppend(rels, a, b[..n]);
    }
  }

  /** The change is not accepted after these events. */
  ghost predicate Refused(rels: Relations, saved: seq<Event>, c: Change) {
    WellFormed(rels, c) && (Save(rels, saved, c).Violation? || Save(rels, saved, c).NotFound?)
  }

  /** One more change has been reported and not been refused. */
  lemma WatchedNext(rels: Relations, before: seq<Event>, saved: seq<Event>, changes: seq<Change>, j: nat)
    requires j < |changes| && WellFormed(rels, changes[j])
    requires var r := Save(rels, before, changes[j]);
      if r.Saved? then saved == before + [r.event] else r.NoInterest? && saved == before
    ensures Changes(saved) == Changes(before) + Watched(rels, [changes[j]])
    ensures Watched(rels, changes[..j + 1]) == Watched(rels, changes[..j]) + Watched(rels, [changes[j]])
  {
    NoInterestExactly(rels, before, changes[j]);
    SavedChange(rels, before, changes[j]);
    WatchedAppend(rels, changes[..j], [changes[j]]);
    assert changes[..j + 1] == changes[..j] + [changes[j]];
    assert [changes[j]][..0] == [];
    hide Save;
  }

  lemma SavedChange(rels: Relations, events: seq<Event>, c: Change)
    requires WellFormed(rels, c)
    ensures Save(rels, events, c).Saved? ==> Save(rels, events, c).event.change == c
  {
  }

  // ---------------------------------------------------------------- SET CONSTRAINTS

  /** The latest command in scope that mentions the trigger or ALL decides, else its default does;
      a trigger that is not deferrable is never deferred. */
  ghost predicate Waits(it: Item, log: seq<Command>, init: Oid -> bool) {
    it.deferrable && Latest(log, it.tgoid).Or(init(it.tgoid))
  }

  /** Command k is the last one in the history that mentions the trigger or ALL. */
  ghost predicate LastMention(history: seq<Command>, oid: Oid, k: nat) {
    && k < |history| && (history[k].All? || oid in history[k].oids)
    && forall j | k < j < |history| :: !history[j].All? && oid !in history[j].oids
  }

  lemma {:induction false} LatestIsLast(history: seq<Command>, oid: Oid, k: nat)
    requires LastMention(history, oid, k)
    ensures Latest(history, oid) == Some(history[k].deferred)
  {
    if k < |history| - 1 { LatestIsLast(history[..|history| - 1], oid, k); }
  }

  lemma {:induction false} LatestIsNone(history: seq<Command>, oid: Oid)
    requires forall j | 0 <= j < |history| :: !history[j].All? && oid !in history[j].oids
    ensures Latest(history, oid) == None
  {
    if history != [] { LatestIsNone(history[..|history| - 1], oid); }
  }

  /** An item waits only if its trigger is deferrable, and then as the last command that mentions it says, or as
      it was declared if there is none. */
  lemma WaitsExactly(it: Item, history: seq<Command>, init: Oid -> bool)
    ensures !it.deferrable ==> !Waits(it, history, init)
    ensures forall k: nat | LastMention(history, it.tgoid, k) ::
      Waits(it, history, init) <==> it.deferrable && history[k].deferred
    ensures (forall j | 0 <= j < |history| :: !history[j].All? && it.tgoid !in history[j].oids) ==>
      (Waits(it, history, init) <==> it.deferrable && init(it.tgoid))
  {
    forall k: nat | LastMention(history, it.tgoid, k)
      ensures Waits(it, history, init) <==> it.deferrable && history[k].deferred
    {
      LatestIsLast(history, it.tgoid, k);
    }
    if forall j | 0 <= j < |history| :: !history[j].All? && it.tgoid !in history[j].oids {
      LatestIsNone(history, it.tgoid);
    }
  }

  // ---------------------------------------------------------------- the end of the transaction

  /** The trigger of item i has been called once for the change of event e, or not at all where there was nothing
      to fire: a referential action on an UPDATE that left its key alone. */
  ghost predicate CalledOnce(fired: seq<Firing>, e: nat, i: nat, t: Trigger, c: Change) {
    && (c.Updated? ==> i < |c.same|)
    && |Occurrences(fired, e, i)| == (if c.Updated? && IsReferential(t) && c.same[i] then 0 else 1)
    && forall k | k in Occurrences(fired, e, i) :: fired[k].trigger == t
  }

  /** For the change of event e every trigger that is to be called has been called as often as it should, in the order
      of the list one item each, and no other. */
  ghost predicate CallsMade(rels: Relations, saved: seq<Event>, fired: seq<Firing>, e: nat)
    requires e < |saved|
  {
    var c, ts := saved[e].change, Triggers(rels, saved[e].change.relid);
    exists ps :: AllCalled(ps, ts, c) && (forall i: nat | i < |ps| :: CalledOnce(fired, e, i, ts[ps[i]], c))
      && forall k | 0 <= k < |fired| && fired[k].event == e :: fired[k].item < |ps|
  }

  ghost predicate EveryCall(rels: Relations, saved: seq<Event>, fired: seq<Firing>) {
    forall e: nat | e < |saved| :: CallsMade(rels, saved, fired, e)
  }

  lemma ItemCalled(rels: Relations, events: seq<Event>, saved: seq<Event>, fired: seq<Firing>, e: nat, i: nat, x: nat)
    requires QueueOk(rels, events, saved, fired) && AllDone(events) && e < |saved| && i < |saved[e].items|
    requires var c, ts := saved[e].change, Triggers(rels, saved[e].change.relid);
      && x < |ts| && ItemFor(saved[e].items[i], ts[x], c, i, rels) && (c.Updated? ==> i < |c.same|)
      && ItemTrigger(rels, c, i) == Some(ts[x])
    ensures CalledOnce(fired, e, i, Triggers(rels, saved[e].change.relid)[x], saved[e].change)
  {
    assert SameFlags(events[e], saved[e]);
    FiredExactlyOnce(rels, events, saved, fired, e, i);
    hide History, ItemTrigger;
    forall k | k in Occurrences(fired, e, i) ensures fired[k].trigger == Triggers(rels, saved[e].change.relid)[x] {
      assert FiringOk(rels, saved, fired[k]);
    }
  }

  /** When a transaction has ended, every trigger that is to be called for a change of it has been called for that
      change exactly once. */
  lemma EveryTriggerFires(rels: Relations, events: seq<Event>, saved: seq<Event>, fired: seq<Firing>, e: nat)
    requires QueueOk(rels, events, saved, fired) && AllDone(events) && e < |saved|
    ensures CallsMade(rels, saved, fired, e)
  {
    var c, ts := saved[e].change, Triggers(rels, saved[e].change.relid);
    HistoryEvent(rels, saved, e);
    var ps := SavedItems(rels, saved[..e], c);
    SelectedInOrder(ts, AfterRow, c.TheOp());
    hide History, Save, ItemFor, AllDone, AllCalled;
    forall i: nat | i < |ps| ensures CalledOnce(fired, e, i, ts[ps[i]], c) {
      ItemCalled(rels, events, saved, fired, e, i, ps[i]);
    }
    forall k | 0 <= k < |fired| && fired[k].event == e ensures fired[k].item < |ps| {
      assert FiringOk(rels, saved, fired[k]);
    }
  }

  lemma AllCallsMade(rels: Relations, events: seq<Event>, saved: seq<Event>, fired: seq<Firing>)
    requires QueueOk(rels, events, saved, fired) && AllDone(events)
    ensures EveryCall(rels, saved, fired)
  {
    hide QueueOk, AllDone, CallsMade;
    forall e: nat | e < |saved| ensures CallsMade(rels, saved, fired, e) {
      EveryTriggerFires(rels, events, saved, fired, e);
    }
  }
}
