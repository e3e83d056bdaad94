/**
  The deferred trigger queue of one transaction: which items have fired, as
  values.  The class that keeps them is DeferredTriggers.TriggerInfo.
 */
module TriggerQueue {
  import opened Basics
  import opened TriggerDescriptor
  import opened TriggerRows

  /** One completed call of a trigger function: item number `item` of event number `event`. */
  datatype Firing = Firing(event: nat, item: nat, trigger: Trigger)

  ghost predicate FiredAt(fired: seq<Firing>, e: nat, i: nat) {
    exists k | 0 <= k < |fired| :: fired[k].event == e && fired[k].item == i
  }

  predicate Precedes(f: Firing, g: Firing) { f.event < g.event || (f.event == g.event && f.item < g.item) }

  /** Equal but for what has been marked done since. */
  ghost predicate SameItem(x: Item, y: Item) { x == y.(done := x.done) }

  ghost predicate SameFlags(x: Event, y: Event) {
    && x == y.(done := x.done, items := x.items)
    && |x.items| == |y.items|
    && forall i | 0 <= i < |x.items| :: SameItem(x.items[i], y.items[i])
  }

  ghost predicate SameQueue(events: seq<Event>, saved: seq<Event>) {
    |events| == |saved| && forall e | 0 <= e < |events| :: SameFlags(events[e], saved[e])
  }

  /** An item is done when it was saved as done or has fired, and an event marked done has all its items done. */
  ghost predicate DoneOk(events: seq<Event>, saved: seq<Event>, fired: seq<Firing>)
    requires SameQueue(events, saved)
  {
    && (forall e, i | 0 <= e < |events| && 0 <= i < |events[e].items| ::
          events[e].items[i].done <==> saved[e].items[i].done || FiredAt(fired, e, i))
    && (forall e, i | 0 <= e < |events| && events[e].done && 0 <= i < |events[e].items| :: events[e].items[i].done)
  }

  function ItemTrigger(rels: Relations, c: Change, i: nat): Option<Trigger> {
    var ts := AfterRowTriggers(rels, c.relid, c.TheOp());
    if i < |ts| then Some(ts[i]) else None
  }

  /** Nothing has fired twice, nothing that was saved as done has fired, and what has fired is the
      trigger the item was saved for. */
  ghost predicate FiredOk(rels: Relations, saved: seq<Event>, fired: seq<Firing>) {
    && (forall k | 0 <= k < |fired| :: FiringOk(rels, saved, fired[k]))
    && (forall j, k | 0 <= j < k < |fired| :: fired[j].event != fired[k].event || fired[j].item != fired[k].item)
  }

  ghost predicate FiringOk(rels: Relations, saved: seq<Event>, f: Firing) {
    && f.event < |saved| && f.item < |saved[f.event].items|
    && !saved[f.event].items[f.item].done
    && ItemTrigger(rels, saved[f.event].change, f.item) == Some(f.trigger)
    && f.trigger.oid == saved[f.event].items[f.item].tgoid
  }

  ghost predicate QueueOk(rels: Relations, events: seq<Event>, saved: seq<Event>, fired: seq<Firing>) {
    History(rels, saved) && SameQueue(events, saved) && DoneOk(events, saved, fired) && FiredOk(rels, saved, fired)
  }

  // ---------------------------------------------------------------- saving does not look at what is done

  lemma {:induction false} PreviousSame(events: seq<Event>, saved: seq<Event>, relid: Oid, ctid: Ctid)
    requires SameQueue(events, saved)
    ensures Previous(events, relid, ctid) == Previous(saved, relid, ctid)
  {
    if events != [] { PreviousSame(events[..|events| - 1], saved[..|saved| - 1], relid, ctid); }
  }

  lemma SaveAfterSame(c: Change, ts: seq<Trigger>, hasBefore: bool, x: Event, y: Event)
    requires SameFlags(x, y) && (c.Updated? ==> |ts| == |c.same|)
    ensures SaveAfter(c, ts, hasBefore, Some(x)) == SaveAfter(c, ts, hasBefore, Some(y))
  {
    assert forall i: nat :: ChangedBefore(Some(x), i) == ChangedBefore(Some(y), i) by {
      assert forall i | 0 <= i < |x.items| :: SameItem(x.items[i], y.items[i]);
    }
    if c.Updated? {
      assert forall i | 0 <= i < |ts| :: Violates(ts, c.same, Some(x), i) == Violates(ts, c.same, Some(y), i);
      assert UpdatedItems(ts, hasBefore, c.same, Some(x)) == UpdatedItems(ts, hasBefore, c.same, Some(y));
    }
  }

  lemma SaveSame(rels: Relations, events: seq<Event>, saved: seq<Event>, c: Change)
    requires SameQueue(events, saved) && WellFormed(rels, c)
    ensures Save(rels, events, c) == Save(rels, saved, c)
  {
    if c.Reuses() {
      PreviousSame(events, saved, c.relid, c.oldCtid);
      var p := Previous(events, c.relid, c.oldCtid);
      if p.Some? {
        SaveAfterSame(c, AfterRowTriggers(rels, c.relid, c.TheOp()), HasBefore(rels, c.relid, c.TheOp()),
          events[p.value], saved[p.value]);
      }
    }
  }

  // ---------------------------------------------------------------- steps of the queue

  lemma HistoryAppend(rels: Relations, saved: seq<Event>, e: Event)
    requires History(rels, saved) && WellFormed(rels, e.change) && Save(rels, saved, e.change) == Saved(e)
    ensures History(rels, saved + [e])
  {
    var all := saved + [e];
    forall k | 0 <= k < |all|
      ensures WellFormed(rels, all[k].change) && Save(rels, all[..k], all[k].change) == Saved(all[k])
    {
      if k < |saved| { assert all[..k] == saved[..k]; } else { assert all[..k] == saved; }
    }
  }

  lemma SaveKeepsQueue(rels: Relations, events: seq<Event>, saved: seq<Event>, fired: seq<Firing>, c: Change)
    requires QueueOk(rels, events, saved, fired) && WellFormed(rels, c) && Save(rels, events, c).Saved?
    ensures var e := Save(rels, events, c).event; QueueOk(rels, events + [e], saved + [e], fired)
  {
    var e := Save(rels, events, c).event;
    SaveSame(rels, events, saved, c);
    SavedShape(rels, events, c);
    HistoryAppend(rels, saved, e);
    hide History, Save;
    var n := |events|;
    assert forall i: nat :: !FiredAt(fired, n, i);
    assert SameQueue(events + [e], saved + [e]);
    assert forall k | 0 <= k < |fired| :: FiringOk(rels, saved, fired[k]);
  }

  function MarkItem(events: seq<Event>, e: nat, i: nat): seq<Event>
    requires e < |events| && i < |events[e].items|
  {
    events[e := events[e].(items := events[e].items[i := events[e].items[i].(done := true)])]
  }

  /** Of the first |before| events only item i of event e may have changed; events may have been added. */
  ghost predicate Touches(before: seq<Event>, after: seq<Event>, e: nat, i: nat) {
    && e < |before| <= |after|
    && (forall k | 0 <= k < |before| && k != e :: after[k] == before[k])
    && after[e] == before[e].(items := after[e].items)
    && |after[e].items| == |before[e].items|
    && forall j | 0 <= j < |before[e].items| && j != i :: after[e].items[j] == before[e].items[j]
  }

  lemma MarkTouches(before: seq<Event>, after: seq<Event>, e: nat, i: nat)
    requires before <= after && e < |before| && i < |before[e].items|
    ensures e < |after| && after[e] == before[e]
    ensures Touches(before, after, e, i) && Touches(before, MarkItem(after, e, i), e, i)
  {
    assert forall k | 0 <= k < |before| :: after[k] == before[k];
  }

  lemma FiredAtAppend(fired: seq<Firing>, f: Firing, e: nat, i: nat)
    ensures FiredAt(fired + [f], e, i) <==> FiredAt(fired, e, i) || (f.event == e && f.item == i)
  {
    assert (fired + [f])[|fired|] == f;
    if FiredAt(fired, e, i) {
      var k :| 0 <= k < |fired| && fired[k].event == e && fired[k].item == i;
      assert (fired + [f])[k] == fired[k];
    }
  }

  lemma FireKeepsQueue(rels: Relations, events: seq<Event>, saved: seq<Event>, fired: seq<Firing>, f: Firing)
    requires QueueOk(rels, events, saved, fired) && FiringOk(rels, saved, f) && !events[f.event].items[f.item].done
    ensures QueueOk(rels, MarkItem(events, f.event, f.item), saved, fired + [f])
  {
    hide History, FiredAt;
    var events' := MarkItem(events, f.event, f.item);
    assert SameQueue(events', saved);
    forall e: nat, i: nat
      ensures FiredAt(fired + [f], e, i) <==> FiredAt(fired, e, i) || (f.event == e && f.item == i)
    {
      FiredAtAppend(fired, f, e, i);
    }
    forall k | 0 <= k < |fired| ensures fired[k].event != f.event || fired[k].item != f.item {
      FiredIsDone(rels, events, saved, fired, k);
    }
  }

  lemma FiredIsDone(rels: Relations, events: seq<Event>, saved: seq<Event>, fired: seq<Firing>, k: nat)
    requires QueueOk(rels, events, saved, fired) && k < |fired|
    ensures fired[k].event < |events| && fired[k].item < |events[fired[k].event].items|
    ensures events[fired[k].event].items[fired[k].item].done
  {
    assert FiringOk(rels, saved, fired[k]);
    assert FiredAt(fired, fired[k].event, fired[k].item);
  }

  lemma MarkEventKeepsQueue(rels: Relations, events: seq<Event>, saved: seq<Event>, fired: seq<Firing>, e: nat)
    requires QueueOk(rels, events, saved, fired) && e < |events|
    requires forall i | 0 <= i < |events[e].items| :: events[e].items[i].done
    ensures QueueOk(rels, events[e := events[e].(done := true)], saved, fired)
  {
    hide History, FiredAt;
  }

  /** The item's trigger, as deferredTriggerExecute picks it by number, is the one the item was saved for. */
  lemma ItemIsTrigger(rels: Relations, saved: seq<Event>, e: nat, i: nat)
    requires History(rels, saved) && e < |saved| && i < |saved[e].items|
    ensures ItemTrigger(rels, saved[e].change, i).Some?
    ensures var t := ItemTrigger(rels, saved[e].change, i).value;
      && t.oid == saved[e].items[i].tgoid && t.deferrable == saved[e].items[i].deferrable
      && t.initDeferred == saved[e].items[i].initDeferred
      && t.FiresOn(AfterRow, saved[e].change.TheOp())
      && t in Triggers(rels, saved[e].change.relid)
  {
    HistoryEvent(rels, saved, e);
    SavedItem(rels, saved[..e], saved[e].change, i);
    hide History, Save;
    SelectedFires(Triggers(rels, saved[e].change.relid), AfterRow, saved[e].change.TheOp(), i);
  }

  /** A previous event's items are looked at only for an UPDATE of the same table, which has as many items. */
  lemma PreviousHasItems(rels: Relations, saved: seq<Event>, p: nat)
    requires History(rels, saved) && p < |saved| && !saved[p].change.Deleted? && !saved[p].rowInserted
    ensures saved[p].change.Updated?
    ensures |saved[p].items| == |AfterRowTriggers(rels, saved[p].change.relid, Update)|
  {
    HistoryEvent(rels, saved, p);
    SavedShape(rels, saved[..p], saved[p].change);
  }

  // ---------------------------------------------------------------- one pass over the queue

  /** `waits` says which items are to be left alone.  A pass that began when `from` calls had been made
      and has come to item i of event e has called in queue order, and nothing that is to wait. */
  ghost predicate Passed(fired: seq<Firing>, saved: seq<Event>, from: nat, e: nat, i: nat, waits: Item -> bool) {
    && from <= |fired|
    && (forall k | from <= k < |fired| :: Rightly(fired[k], saved, waits) && Behind(fired[k], e, i))
    && (forall j, k | from <= j < k < |fired| :: Precedes(fired[j], fired[k]))
  }

  ghost predicate Rightly(f: Firing, saved: seq<Event>, waits: Item -> bool) {
    f.event < |saved| && f.item < |saved[f.event].items| && !waits(saved[f.event].items[f.item])
  }

  predicate Behind(f: Firing, e: nat, i: nat) { f.event < e || (f.event == e && f.item < i) }

  /** An item that is not done after a pass is one that is to wait. */
  ghost predicate Settled(it: Item, waits: Item -> bool) { it.done || waits(it) }

  ghost predicate EventSettled(ev: Event, waits: Item -> bool) {
    forall i | 0 <= i < |ev.items| :: Settled(ev.items[i], waits)
  }

  /** No call, or one call of item i of event e. */
  ghost predicate CallsAt(before: seq<Firing>, fired: seq<Firing>, saved: seq<Event>, e: nat, i: nat,
                          waits: Item -> bool) {
    || fired == before
    || (|fired| == |before| + 1 && before <= fired
        && fired[|before|].event == e && fired[|before|].item == i && Rightly(fired[|before|], saved, waits))
  }

  lemma PassedItem(before: seq<Firing>, fired: seq<Firing>, was: seq<Event>, saved: seq<Event>,
                   from: nat, e: nat, i: nat, waits: Item -> bool)
    requires Passed(before, was, from, e, i, waits) && was <= saved && CallsAt(before, fired, saved, e, i, waits)
    ensures Passed(fired, saved, from, e, i + 1, waits) && before <= fired
  {
    forall k | from <= k < |fired| ensures Rightly(fired[k], saved, waits) && Behind(fired[k], e, i + 1) {
      if k < |before| { assert Rightly(before[k], was, waits) && Behind(before[k], e, i); }
    }
    forall j, k | from <= j < k < |fired| ensures Precedes(fired[j], fired[k]) {
      if k < |before| { assert Precedes(before[j], before[k]); } else { assert Behind(before[j], e, i); }
    }
  }

  lemma PassedFrom(fired: seq<Firing>, saved: seq<Event>, from: nat, e: nat, i: nat, waits: Item -> bool)
    requires Passed(fired, saved, from, e, i, waits)
    ensures from <= |fired|
  {
  }

  lemma PassedNothing(fired: seq<Firing>, saved: seq<Event>, waits: Item -> bool)
    ensures Passed(fired, saved, |fired|, 0, 0, waits)
  {
  }

  lemma PassedLater(fired: seq<Firing>, saved: seq<Event>, from: nat, e: nat, e': nat, waits: Item -> bool)
    requires Passed(fired, saved, from, e, 0, waits) && e <= e'
    ensures Passed(fired, saved, from, e', 0, waits)
  {
    forall k | from <= k < |fired| ensures Rightly(fired[k], saved, waits) && Behind(fired[k], e', 0) {
      assert Behind(fired[k], e, 0);
    }
  }

  lemma PassedEvent(fired: seq<Firing>, saved: seq<Event>, from: nat, e: nat, i: nat, waits: Item -> bool)
    requires Passed(fired, saved, from, e, i, waits)
    ensures Passed(fired, saved, from, e + 1, 0, waits)
  {
    forall k | from <= k < |fired| ensures Rightly(fired[k], saved, waits) && Behind(fired[k], e + 1, 0) {
      assert Behind(fired[k], e, i);
    }
  }

  // ---------------------------------------------------------------- when the transaction ends

  ghost predicate AllDone(events: seq<Event>) {
    forall d, j | 0 <= d < |events| && 0 <= j < |events[d].items| :: events[d].items[j].done
  }

  ghost predicate FiredOnce(saved: seq<Event>, fired: seq<Firing>) {
    forall e: nat, i: nat | e < |saved| && i < |saved[e].items| ::
      |Occurrences(fired, e, i)| == if saved[e].items[i].done then 0 else 1
  }

  lemma AllFiredOnce(rels: Relations, events: seq<Event>, saved: seq<Event>, fired: seq<Firing>)
    requires QueueOk(rels, events, saved, fired) && AllDone(events)
    ensures FiredOnce(saved, fired)
  {
    forall e: nat, i: nat | e < |saved| && i < |saved[e].items|
      ensures |Occurrences(fired, e, i)| == if saved[e].items[i].done then 0 else 1
    {
      assert SameFlags(events[e], saved[e]);
      FiredExactlyOnce(rels, events, saved, fired, e, i);
    }
  }

  /** Once everything is done, every item not saved as done has fired exactly once, and no other has. */
  lemma FiredExactlyOnce(rels: Relations, events: seq<Event>, saved: seq<Event>, fired: seq<Firing>, e: nat, i: nat)
    requires QueueOk(rels, events, saved, fired) && e < |events| && i < |events[e].items|
    requires AllDone(events)
    ensures |Occurrences(fired, e, i)| == if saved[e].items[i].done then 0 else 1
  {
    hide History, ItemTrigger;
    var s := Occurrences(fired, e, i);
    if FiredAt(fired, e, i) {
      var k :| 0 <= k < |fired| && fired[k].event == e && fired[k].item == i;
      assert FiringOk(rels, saved, fired[k]);
      assert s == {k};
    } else {
      assert s == {};
    }
  }

  ghost function Occurrences(fired: seq<Firing>, e: nat, i: nat): set<nat> {
    set k: nat | k < |fired| && fired[k].event == e && fired[k].item == i
  }
}
