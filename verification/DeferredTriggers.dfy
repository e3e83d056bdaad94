/**
  The session's deferred trigger manager: trigger modes, the queue of events and
  the firing of its items.
 */
module DeferredTriggers {
  import opened Basics
  import opened TriggerDescriptor
  import opened TriggerModes
  import opened TriggerRows
  import opened TriggerMeaning
  import opened TriggerQueue

  /** What a trigger function does when it is called: raise an error, or change rows, each change
      being reported to the queue. */
  datatype Reaction = Raises | Reports(changes: seq<Change>)

  ghost predicate ScriptOk(rels: Relations, script: seq<Reaction>) {
    forall k | 0 <= k < |script| :: ReactionOk(rels, script[k])
  }

  ghost predicate ReactionOk(rels: Relations, r: Reaction) {
    r.Reports? ==> forall j | 0 <= j < |r.changes| :: WellFormed(rels, r.changes[j])
  }

  lemma NothingReported(rels: Relations)
    ensures ReactionOk(rels, Reports([]))
  {
  }

  ghost function ReportOf(r: Reaction): seq<Change> { if r.Raises? then [] else r.changes }

  /** The changes that the first n reactions report. */
  ghost function Reported(script: seq<Reaction>, n: nat): seq<Change>
    requires n <= |script|
  {
    if n == 0 then [] else Reported(script, n - 1) + ReportOf(script[n - 1])
  }

  /** Each call has had the next reaction of the script, none of which was an error, and what they reported of
      tables with row triggers has been added to the events, in order. */
  ghost predicate Reacted(rels: Relations, base: seq<Event>, saved: seq<Event>, script: seq<Reaction>, used: nat,
                          calls: int) {
    && used == (if calls < |script| then calls else |script|)
    && (forall k | 0 <= k < used :: script[k].Reports?)
    && Changes(saved) == Changes(base) + Watched(rels, Reported(script, used))
  }

  /** The reaction ends the pass: it is an error, or reports a change that is refused after these events. */
  ghost predicate Fails(rels: Relations, saved: seq<Event>, r: Reaction) {
    r.Raises? || exists c | c in r.changes :: Refused(rels, saved, c)
  }

  ghost predicate Stopped(rels: Relations, saved: seq<Event>, script: seq<Reaction>, used: nat) {
    0 < used <= |script| && Fails(rels, saved, script[used - 1])
  }

  lemma ReactedNothing(rels: Relations, saved: seq<Event>, script: seq<Reaction>)
    ensures Reacted(rels, saved, saved, script, 0, 0)
  {
  }

  lemma ReactedNext(rels: Relations, base: seq<Event>, was: seq<Event>, saved: seq<Event>, script: seq<Reaction>,
                    used: nat, calls: nat, r: Reaction)
    requires Reacted(rels, base, was, script, used, calls) && r.Reports?
    requires r == if used < |script| then script[used] else Reports([])
    requires Changes(saved) == Changes(was) + Watched(rels, r.changes)
    ensures Reacted(rels, base, saved, script, if used < |script| then used + 1 else used, calls + 1)
  {
    if used < |script| { WatchedAppend(rels, Reported(script, used), r.changes); }
    hide Watched, Changes;
  }

  /** A trigger's declared default depends on its oid only. */
  ghost predicate DefaultsOk(rels: Relations, init: Oid -> bool) {
    forall relid, t | relid in rels && t in rels[relid] :: t.initDeferred == init(t.oid)
  }

  class TriggerInfo {
    const descs: map<Oid, TriggerDesc>   // the relation cache, as it is during the transaction
    ghost const rels: Relations       // the triggers of its relations
    ghost const init: Oid -> bool     // the declared default of every trigger

    var inXact: bool                  // deftrig_cxt is not NULL
    var session: Modes                // deftrig_dfl_*
    var xact: Modes                   // deftrig_all_*, deftrig_trigstates
    var events: seq<Event>
    var fired: seq<Firing>            // the calls of trigger functions so far

    ghost var sessionLog: seq<Command>   // SET CONSTRAINTS commands of the session
    ghost var xactLog: seq<Command>      // those in scope of the transaction
    ghost var saved: seq<Event>          // the events as they were saved

    /** The descriptors are those of the relations' triggers. */
    ghost predicate Cached()
      reads descs.Values
    {
      descs.Keys == rels.Keys && forall r | r in descs :: descs[r].Describes(rels[r])
    }

    ghost predicate Valid()
      reads this, descs.Values
    {
      && Cached() && DefaultsOk(rels, init)
      && Records(session, sessionLog)
      && (inXact ==> Agrees(xact, xactLog, init) && QueueOk(rels, events, saved, fired))
    }

    ghost predicate Deferred(it: Item)
      reads this
    {
      Waits(it, xactLog, init)
    }

    constructor (descs: map<Oid, TriggerDesc>, ghost rels: Relations, ghost init: Oid -> bool)
      requires descs.Keys == rels.Keys && forall r | r in descs :: descs[r].Describes(rels[r])
      requires DefaultsOk(rels, init)
      ensures Valid() && !inXact && sessionLog == [] && this.descs == descs && this.rels == rels && this.init == init
    {
      this.descs, this.rels, this.init := descs, rels, init;
      inXact, session, xact, events, fired := false, NO_MODES, NO_MODES, [], [];
      sessionLog, xactLog, saved := [], [], [];
    }

    // -------------------------------------------------------------- transactions

    method BeginXact() returns (ok: bool)
      requires Valid()
      modifies `inXact, `xact, `events, `fired, `xactLog, `saved
      ensures Valid() && inXact && ok == !old(inXact)
      ensures ok ==> xactLog == sessionLog && events == saved == [] && fired == []
      ensures !ok ==> unchanged(this)
    {
      if inXact {
        return false;
      }
      ok := true;
      xact := Modes(session.allSet, session.allDeferred, []);
      for l := 0 to |session.states|
        invariant xact == Modes(session.allSet, session.allDeferred, session.states[..l])
      {
        xact := xact.(states := xact.states + [session.states[l]]);
      }
      assert xact == session;
      RecordsAgrees(session, sessionLog, init);
      inXact, events, fired := true, [], [];
      xactLog, saved := sessionLog, [];
    }

    method AbortXact()
      requires Valid()
      modifies `inXact
      ensures Valid() && !inXact
    {
      inXact := false;
    }

    // -------------------------------------------------------------- modes

    /** deferredTriggerCheckState. */
    method CheckState(it: Item) returns (d: bool)
      requires Valid() && inXact && it.initDeferred == init(it.tgoid)
      modifies `xact
      ensures Valid() && d == Deferred(it)
    {
      if !it.deferrable {
        return false;
      }
      MemoiseAgrees(xact, xactLog, init, it.tgoid);
      var sl := 0;
      while sl < |xact.states|
        invariant sl <= |xact.states| && forall j | 0 <= j < sl :: xact.states[j].tgoid != it.tgoid
      {
        if xact.states[sl].tgoid == it.tgoid {
          FindAt(xact.states, it.tgoid, sl);
          return xact.states[sl].deferred;
        }
        sl := sl + 1;
      }
      FindAt(xact.states, it.tgoid, sl);
      if xact.allSet {
        return xact.allDeferred;
      }
      xact := xact.(states := xact.states + [Status(it.tgoid, it.initDeferred)]);
      d := it.initDeferred;
    }

    /** The inner loop of DeferredTriggerSetState over one list of states. */
    method SetOneState(states: seq<Status>, oid: Oid, deferred: bool) returns (r: seq<Status>)
      ensures r == SetOne(states, oid, deferred)
    {
      var ls := 0;
      while ls < |states|
        invariant ls <= |states| && forall j | 0 <= j < ls :: states[j].tgoid != oid
      {
        if states[ls].tgoid == oid {
          SetOneAt(states, oid, deferred, ls);
          return states[ls := Status(oid, deferred)];
        }
        ls := ls + 1;
      }
      SetOneAt(states, oid, deferred, ls);
      r := states + [Status(oid, deferred)];
    }

    method SetStates(states: seq<Status>, oids: seq<Oid>, deferred: bool) returns (r: seq<Status>)
      ensures r == SetMany(states, oids, deferred)
    {
      r := states;
      for l := 0 to |oids|
        invariant r == SetMany(states, oids[..l], deferred)
      {
        assert oids[..l + 1][..l] == oids[..l];
        r := SetOneState(r, oids[l], deferred);
      }
      assert oids[..|oids|] == oids;
    }

    /** DeferredTriggerSetState: outside a transaction block for the session, inside for the transaction. */
    method SetState(c: Command, inBlock: bool)
      requires Valid() && (inBlock ==> inXact)
      modifies `session, `xact, `sessionLog, `xactLog
      ensures Valid()
      ensures inBlock ==> xactLog == old(xactLog) + [c] && sessionLog == old(sessionLog) && session == old(session)
      ensures !inBlock ==> sessionLog == old(sessionLog) + [c] && xactLog == old(xactLog) && xact == old(xact)
    {
      if !inBlock {
        SessionCommand(session, sessionLog, c);
        match c {
          case All(d) => session := Modes(true, d, []);
          case Named(oids, d) =>
            var states := SetStates(session.states, oids, d);
            session := session.(states := states);
        }
        sessionLog := sessionLog + [c];
      } else {
        TransactionCommand(xact, xactLog, c, init);
        match c {
          case All(d) => xact := Modes(true, d, []);
          case Named(oids, d) =>
            var states := SetStates(xact.states, oids, d);
            xact := xact.(states := states);
        }
        xactLog := xactLog + [c];
      }
    }

    // -------------------------------------------------------------- saving events

    /** deferredTriggerGetPreviousEvent: the backward scan. */
    method GetPreviousEvent(relid: Oid, ctid: Ctid) returns (p: Option<nat>)
      ensures p == Previous(events, relid, ctid)
    {
      var n := |events| - 1;
      while n >= 0
        invariant -1 <= n < |events|
        invariant Previous(events[..n + 1], relid, ctid) == Previous(events, relid, ctid)
      {
        if events[n].change.Creates(relid, ctid) && !events[n].canceled {
          return Some(n);
        }
        assert events[..n + 1][..n] == events[..n];
        n := n - 1;
      }
      p := None;
    }

    /** The loop over the triggers of an UPDATE: the items, and the flags they give the event. */
    method CheckKeys(c: Change, ts: seq<Trigger>, hasBefore: bool, prev: Option<Event>) returns (ok: bool, e: Event)
      requires c.Updated? && |ts| == |c.same|
      requires prev.Some? && !prev.value.rowInserted ==> |prev.value.items| == |ts|
      ensures SaveAfter(c, ts, hasBefore, prev) == if ok then Saved(e) else Violation
    {
      var items := [];
      var rowInserted, keyChanged := false, false;
      for i := 0 to |ts|
        invariant |items| == i && forall j | 0 <= j < i :: items[j] == UpdatedItem(ts[j], hasBefore, c.same[j], prev, j)
        invariant forall j | 0 <= j < i :: !Violates(ts, c.same, prev, j)
        invariant rowInserted <==>
          prev.Some? && prev.value.rowInserted && exists j | 0 <= j < i :: ts[j].IsRiUpdate() && c.same[j]
        invariant keyChanged <==> exists j | 0 <= j < i :: ts[j].IsRiUpdate() && (c.same[j] ==> ChangedBefore(prev, j))
      {
        var it := FreshItem(ts[i], hasBefore);
        if ts[i].IsRiUpdate() {
          if c.same[i] {
            it := it.(done := true);
            if prev.Some? {
              if prev.value.rowInserted {
                rowInserted, keyChanged := true, true;
                it := it.(keyChanged := true);
              } else if prev.value.items[i].keyChanged {
                keyChanged := true;
                it := it.(keyChanged := true);
              }
            }
          } else {
            if prev.Some? && (prev.value.rowInserted || prev.value.items[i].keyChanged) {
              assert Violates(ts, c.same, prev, i);
              return false, Event(c, [], false, false, false, false);
            }
            it := it.(keyChanged := true);
            keyChanged := true;
          }
        }
        items := items + [it];
      }
      ok := true;
      assert items == UpdatedItems(ts, hasBefore, c.same, prev);
      e := Event(c, items, false, false, rowInserted, keyChanged);
    }

    /** DeferredTriggerSaveEvent up to the point where it adds the event to the queue. */
    method BuildEvent(c: Change) returns (r: Outcome)
      requires Valid() && inXact && WellFormed(rels, c)
      ensures r == Save(rels, events, c)
    {
      hide QueueOk;
      if c.relid !in descs {
        return NoInterest;
      }
      var desc := descs[c.relid];
      var ts := desc.Entries(AfterRow, c.TheOp());
      var hasBefore := desc.Entries(BeforeRow, c.TheOp()) != [];
      if !Interested(desc.triggers) {
        return NoInterest;
      }
      var prev := None;
      if c.Reuses() {
        var p := GetPreviousEvent(c.relid, c.oldCtid);
        if p.None? {
          return NotFound;
        }
        prev := Some(events[p.value]);
        if !events[p.value].rowInserted { PreviousItems(p.value); }
      }
      if c.Updated? {
        var ok, e := CheckKeys(c, ts, hasBefore, prev);
        return if ok then Saved(e) else Violation;
      }
      r := SaveAfter(c, ts, hasBefore, prev);
    }

    /** DeferredTriggerSaveEvent. */
    method SaveEvent(c: Change) returns (r: Outcome)
      requires Valid() && WellFormed(rels, c)
      modifies `events, `saved
      ensures Valid()
      ensures r == if inXact then Save(rels, old(events), c) else OutsideTransaction
      ensures inXact ==> (r.NoInterest? <==> forall t | t in Triggers(rels, c.relid) :: !WatchesRows(t))
      ensures r.Saved? ==> events == old(events) + [r.event] && saved == old(saved) + [r.event]
      ensures !r.Saved? ==> events == old(events) && saved == old(saved)
    {
      hide QueueOk, Save;
      if !inXact {
        return OutsideTransaction;
      }
      NoInterestExactly(rels, events, c);
      r := BuildEvent(c);
      if r.Saved? {
        SaveKeepsQueue(rels, events, saved, fired, c);
        events := events + [r.event];
        saved := saved + [r.event];
      }
    }

    lemma PreviousItems(p: nat)
      requires Valid() && inXact && p < |events| && !events[p].change.Deleted? && !events[p].rowInserted
      ensures |events[p].items| == |AfterRowTriggers(rels, events[p].change.relid, Update)|
    {
      assert SameFlags(events[p], saved[p]);
      PreviousHasItems(rels, saved, p);
    }

    // -------------------------------------------------------------- firing

    /** The calls of SaveEvent made while a trigger function runs; an error ends the function. */
    method ReportAll(changes: seq<Change>) returns (ok: bool)
      requires Valid() && inXact && forall j | 0 <= j < |changes| :: WellFormed(rels, changes[j])
      modifies `events, `saved
      ensures Valid()
      ensures old(events) <= events && old(saved) <= saved
      ensures changes == [] ==> |events| == |old(events)|
      ensures ok ==> Changes(saved) == Changes(old(saved)) + Watched(rels, changes)
      ensures !ok ==> exists c | c in changes :: Refused(rels, saved, c)
    {
      hide QueueOk, Save, Watched, Changes, Cached, DefaultsOk, Agrees, Records;
      NoneWatched(changes);
      for j := 0 to |changes|
        invariant Valid() && old(events) <= events && old(saved) <= saved
        invariant j == 0 ==> |events| == |old(events)|
        invariant Changes(saved) == Changes(old(saved)) + Watched(rels, changes[..j])
      {
        ghost var before := saved;
        SaveAsSaved(changes[j]);
        var r := SaveEvent(changes[j]);
        if !r.Saved? && !r.NoInterest? {
          assert changes[j] in changes && Refused(rels, saved, changes[j]);
          return false;
        }
        WatchedNext(rels, before, saved, changes, j);
      }
      assert changes[..|changes|] == changes;
      ok := true;
    }

    lemma NoneWatched(changes: seq<Change>)
      ensures Watched(rels, changes[..0]) == []
    {
    }

    lemma SaveAsSaved(c: Change)
      requires Valid() && inXact && WellFormed(rels, c)
      ensures Save(rels, events, c) == Save(rels, saved, c) && !Save(rels, events, c).OutsideTransaction?
    {
      SaveSame(rels, events, saved, c);
    }

    /** deferredTriggerExecute, and the marking of the item: the function may report changes, which are
        added at the end of the queue.  If it raises an error the item is not marked. */
    method FireItem(e: nat, i: nat, reaction: Reaction) returns (ok: bool)
      requires Valid() && inXact && e < |events| && i < |events[e].items| && !events[e].items[i].done
      requires ReactionOk(rels, reaction)
      modifies `events, `saved, `fired
      ensures Valid() && old(saved) <= saved
      ensures Touches(old(events), events, e, i) && (ok ==> events[e].items[i].done)
      ensures if ok then
        |fired| == |old(fired)| + 1 && old(fired) <= fired
        && fired[|old(fired)|].event == e && fired[|old(fired)|].item == i
              else fired == old(fired)
      ensures reaction == Reports([]) ==> ok && |events| == |old(events)|
      ensures ok ==> reaction.Reports? && Changes(saved) == Changes(old(saved)) + Watched(rels, reaction.changes)
      ensures !ok ==> Fails(rels, saved, reaction)
    {
      hide QueueOk, FiringOk, DefaultsOk, Agrees, Records, Touches, Cached, MarkItem, Watched, Changes, Refused;
      var f := ChooseTrigger(e, i);
      if reaction.Raises? {
        MarkTouches(events, events, e, i);
        return false;
      }
      ok := ReportAll(reaction.changes);
      MarkTouches(old(events), events, e, i);
      if ok {
        FiringStays(old(saved), f);
        MarkedDone(events, e, i);
        Complete(f);
      }
    }

    /** The function has returned: the item is marked done. */
    method Complete(f: Firing)
      requires Valid() && inXact && FiringOk(rels, saved, f)
      requires f.event < |events| && f.item < |events[f.event].items| && !events[f.event].items[f.item].done
      modifies `events, `fired
      ensures Valid() && events == MarkItem(old(events), f.event, f.item) && fired == old(fired) + [f]
    {
      hide QueueOk, FiringOk, DefaultsOk, Agrees, Records, Cached, MarkItem;
      FireKeepsQueue(rels, events, saved, fired, f);
      events := MarkItem(events, f.event, f.item);
      fired := fired + [f];
    }

    lemma MarkedDone(evs: seq<Event>, e: nat, i: nat)
      requires e < |evs| && i < |evs[e].items|
      ensures |MarkItem(evs, e, i)| == |evs| && |MarkItem(evs, e, i)[e].items| == |evs[e].items|
      ensures MarkItem(evs, e, i)[e].items[i].done
    {
    }

    lemma FiringStays(before: seq<Event>, f: Firing)
      requires FiringOk(rels, before, f) && before <= saved
      ensures FiringOk(rels, saved, f)
    {
    }

    /** The trigger that item i of event e calls, taken from the descriptor by its number. */
    method ChooseTrigger(e: nat, i: nat) returns (f: Firing)
      requires Valid() && inXact && e < |events| && i < |events[e].items| && !events[e].items[i].done
      ensures f.event == e && f.item == i && FiringOk(rels, saved, f)
    {
      assert SameFlags(events[e], saved[e]);
      ItemIsTrigger(rels, saved, e, i);
      var desc := descs[events[e].change.relid];
      f := Firing(e, i, desc.Entries(AfterRow, events[e].change.TheOp())[i]);
    }

    /** The items a pass leaves alone. */
    ghost function Waiting(immediateOnly: bool): Item -> bool
      reads this
    {
      var log, dflt := xactLog, init;
      (it: Item) => immediateOnly && Waits(it, log, dflt)
    }

    lemma ItemDefault(e: nat, i: nat)
      requires Valid() && inXact && e < |events| && i < |events[e].items|
      ensures events[e].items[i].initDeferred == init(events[e].items[i].tgoid)
      ensures |saved| == |events| && |saved[e].items| == |events[e].items|
      ensures Deferred(events[e].items[i]) == Deferred(saved[e].items[i])
    {
      assert SameFlags(events[e], saved[e]) && SameItem(events[e].items[i], saved[e].items[i]);
      ItemIsTrigger(rels, saved, e, i);
    }

    /** One item of the loop of deferredTriggerInvokeEvents.  The first script entry not used yet says what
        the trigger function does; functions called after the end of the script do nothing. */
    method HandleItem(e: nat, i: nat, immediateOnly: bool, script: seq<Reaction>, used0: nat,
                      ghost from: nat, ghost base: seq<Event>)
      returns (ok: bool, left: bool, used: nat)
      requires Valid() && inXact && e < |events| && i < |events[e].items|
      requires ScriptOk(rels, script) && used0 <= |script|
      requires from <= |fired| && Reacted(rels, base, saved, script, used0, |fired| - from)
      modifies `xact, `events, `saved, `fired
      ensures Valid() && used0 <= used <= |script| && old(saved) <= saved
      ensures used == used0 ==> |events| == |old(events)|
      ensures Touches(old(events), events, e, i)
      ensures CallsAt(old(fired), fired, saved, e, i, Waiting(immediateOnly))
      ensures ok ==> Settled(events[e].items[i], Waiting(immediateOnly)) && left == !events[e].items[i].done
      ensures ok ==> Reacted(rels, base, saved, script, used, |fired| - from)
      ensures !ok ==> Stopped(rels, saved, script, used)
    {
      hide QueueOk, DefaultsOk, Agrees, Records, Latest, Cached, Touches, ReactionOk, Reacted, Fails, Watched, Changes;
      ItemDefault(e, i);
      MarkTouches(events, events, e, i);
      used, left := used0, false;
      if events[e].items[i].done {
        return true, false, used;
      }
      if immediateOnly {
        left := CheckState(events[e].items[i]);
        if left {
          return true, true, used;
        }
      }
      var reaction := Reports([]);
      NothingReported(rels);
      if used < |script| {
        reaction := script[used];
        used := used + 1;
      }
      ghost var was, calls := saved, |fired| - from;
      ok := FireItem(e, i, reaction);
      if ok { ReactedNext(rels, base, was, saved, script, used0, calls, reaction); }
    }

    /** The items of one event. */
    method HandleEvent(e: nat, immediateOnly: bool, script: seq<Reaction>, used0: nat, ghost from: nat,
                       ghost base: seq<Event>)
      returns (ok: bool, used: nat)
      requires Valid() && inXact && e < |events|
      requires ScriptOk(rels, script) && used0 <= |script|
      requires Passed(fired, saved, from, e, 0, Waiting(immediateOnly))
      requires Reacted(rels, base, saved, script, used0, |fired| - from)
      modifies `xact, `events, `saved, `fired
      ensures Valid() && used0 <= used <= |script| && old(saved) <= saved && old(fired) <= fired
      ensures used == used0 ==> |events| == |old(events)|
      ensures |old(events)| <= |events| && forall k | 0 <= k < |old(events)| && k != e :: events[k] == old(events[k])
      ensures Passed(fired, saved, from, e + 1, 0, Waiting(immediateOnly))
      ensures ok ==> EventSettled(events[e], Waiting(immediateOnly))
      ensures ok ==> Reacted(rels, base, saved, script, used, |fired| - from)
      ensures !ok ==> Stopped(rels, saved, script, used)
    {
      hide QueueOk, DefaultsOk, Agrees, Records, Latest, Passed, CallsAt, Save, Reacted, Stopped;
      PassedFrom(fired, saved, from, e, 0, Waiting(immediateOnly));
      used := used0;
      var stillDeferred := false;
      var n := |events[e].items|;
      var i := 0;
      while i < n
        invariant Valid() && i <= n && used0 <= used <= |script| && old(saved) <= saved && old(fired) <= fired
        invariant used == used0 ==> |events| == |old(events)|
        invariant |old(events)| <= |events| && Reacted(rels, base, saved, script, used, |fired| - from)
        invariant forall k | 0 <= k < |old(events)| && k != e :: events[k] == old(events[k])
        invariant |events[e].items| == n && Passed(fired, saved, from, e, i, Waiting(immediateOnly))
        invariant forall j | 0 <= j < i ::
          Settled(events[e].items[j], Waiting(immediateOnly)) && (!stillDeferred ==> events[e].items[j].done)
      {
        label Before:
        var left;
        ok, left, used := HandleItem(e, i, immediateOnly, script, used, from, base);
        PassedItem(old@Before(fired), fired, old@Before(saved), saved, from, e, i, Waiting(immediateOnly));
        if !ok {
          PassedEvent(fired, saved, from, e, i + 1, Waiting(immediateOnly));
          return;
        }
        stillDeferred := stillDeferred || left;
        i := i + 1;
      }
      ok := true;
      PassedEvent(fired, saved, from, e, i, Waiting(immediateOnly));
      if !stillDeferred {
        MarkEventKeepsQueue(rels, events, saved, fired, e);
        events := events[e := events[e].(done := true)];
      }
    }

    lemma SkippedSettled(e: nat, immediateOnly: bool)
      requires Valid() && inXact && e < |events| && (events[e].done || events[e].canceled)
      ensures EventSettled(events[e], Waiting(immediateOnly))
    {
      assert SameFlags(events[e], saved[e]);
      HistoryEvent(rels, saved, e);
    }

    /** deferredTriggerInvokeEvents: the pass over the queue, which may grow meanwhile. */
    method InvokeEvents(immediateOnly: bool, script: seq<Reaction>) returns (ok: bool, used: nat)
      requires Valid() && inXact && ScriptOk(rels, script)
      modifies `xact, `events, `saved, `fired
      ensures Valid() && old(saved) <= saved && old(fired) <= fired
      ensures Passed(fired, saved, |old(fired)|, |events|, 0, Waiting(immediateOnly))
      ensures ok ==> forall d | 0 <= d < |events| :: EventSettled(events[d], Waiting(immediateOnly))
      ensures ok ==> Reacted(rels, old(saved), saved, script, used, |fired| - |old(fired)|)
      ensures !ok ==> Stopped(rels, saved, script, used)
    {
      hide QueueOk, DefaultsOk, Agrees, Records, Latest, Passed, Save, EventSettled, Reacted, Stopped;
      ghost var from, base := |fired|, saved;
      used := 0;
      var e := 0;
      ReactedNothing(rels, saved, script);
      PassedNothing(fired, saved, Waiting(immediateOnly));
      while e < |events|
        invariant Valid() && e <= |events| && used <= |script| && old(saved) <= saved && old(fired) <= fired
        invariant Passed(fired, saved, from, e, 0, Waiting(immediateOnly))
        invariant Reacted(rels, base, saved, script, used, |fired| - from)
        invariant forall d | 0 <= d < e :: EventSettled(events[d], Waiting(immediateOnly))
        decreases |script| - used, |events| - e
      {
        if events[e].done || events[e].canceled {
          SkippedSettled(e, immediateOnly);
          PassedLater(fired, saved, from, e, e + 1, Waiting(immediateOnly));
        } else {
          ok, used := HandleEvent(e, immediateOnly, script, used, from, base);
          if !ok {
            PassedLater(fired, saved, from, e + 1, |events|, Waiting(immediateOnly));
            return;
          }
        }
        e := e + 1;
      }
      ok := true;
    }

    /** DeferredTriggerEndQuery. */
    method EndQuery(script: seq<Reaction>) returns (ok: bool, used: nat)
      requires Valid() && ScriptOk(rels, script)
      modifies `xact, `events, `saved, `fired
      ensures Valid() && old(saved) <= saved && old(fired) <= fired
      ensures Passed(fired, saved, |old(fired)|, |events|, 0, Waiting(true))
      ensures ok && inXact ==> forall d | 0 <= d < |events| :: EventSettled(events[d], Waiting(true))
      ensures ok && inXact ==> Reacted(rels, old(saved), saved, script, used, |fired| - |old(fired)|)
      ensures !ok ==> Stopped(rels, saved, script, used)
      ensures !inXact ==> ok && unchanged(this)
    {
      if !inXact {
        PassedNothing(fired, saved, Waiting(true));
        PassedLater(fired, saved, |fired|, 0, |events|, Waiting(true));
        return true, 0;
      }
      ok, used := InvokeEvents(true, script);
    }

    /** DeferredTriggerEndXact: a transaction that ends has called every outstanding trigger exactly once. */
    method EndXact(script: seq<Reaction>) returns (ok: bool, used: nat)
      requires Valid() && ScriptOk(rels, script)
      modifies `inXact, `xact, `events, `saved, `fired
      ensures Valid() && old(saved) <= saved && old(fired) <= fired && inXact == (old(inXact) && !ok)
      ensures Passed(fired, saved, |old(fired)|, |events|, 0, Waiting(false))
      ensures ok && old(inXact) ==> QueueOk(rels, events, saved, fired) && AllDone(events) && FiredOnce(saved, fired)
      ensures ok && old(inXact) ==> EveryCall(rels, saved, fired)
      ensures ok && old(inXact) ==> Reacted(rels, old(saved), saved, script, used, |fired| - |old(fired)|)
      ensures !ok ==> Stopped(rels, saved, script, used)
      ensures !old(inXact) ==> ok && unchanged(this)
    {
      hide QueueOk, Reacted, Stopped;
      if !inXact {
        PassedNothing(fired, saved, Waiting(false));
        PassedLater(fired, saved, |fired|, 0, |events|, Waiting(false));
        return true, 0;
      }
      ok, used := InvokeEvents(false, script);
      if ok {
        assert AllDone(events) by {
          assert forall d | 0 <= d < |events| :: EventSettled(events[d], Waiting(false));
        }
        AllFiredOnce(rels, events, saved, fired);
        AllCallsMade(rels, events, saved, fired);
        inXact := false;
      }
    }
  }
}
