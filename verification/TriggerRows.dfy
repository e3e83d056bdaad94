/**
  The queue of deferred trigger events, and the check for a "triggered data
  change violation": within one transaction a referenced key may change at most
  once, and a row that was inserted or whose key was changed may not be deleted.
 */
module TriggerRows {
  import opened Basics
  import opened TriggerDescriptor

  datatype Ctid = Ctid(block: nat, offset: nat)

  /** A row-level change reported to DeferredTriggerSaveEvent.  `own` says that the old row version
      was written by this transaction; same[i] is what RI_FKey_keyequal_upd says of the key of
      the i-th AFTER ROW UPDATE trigger. */
  datatype Change =
    | Inserted(relid: Oid, newCtid: Ctid)
    | Updated(relid: Oid, oldCtid: Ctid, own: bool, newCtid: Ctid, same: seq<bool>)
    | Deleted(relid: Oid, oldCtid: Ctid, own: bool)
  {
    function TheOp(): Op {
      match this case Inserted(_, _) => Insert case Updated(_, _, _, _, _) => Update case Deleted(_, _, _) => Delete
    }
    predicate Creates(r: Oid, c: Ctid) { !Deleted? && relid == r && newCtid == c }
    predicate Reuses() { (Updated? || Deleted?) && own }
  }

  datatype Item = Item(tgoid: Oid, deferrable: bool, initDeferred: bool, hasBefore: bool, done: bool, keyChanged: bool)

  datatype Event = Event(change: Change, items: seq<Item>, done: bool, canceled: bool, rowInserted: bool,
    keyChanged: bool)

  datatype Outcome = Saved(event: Event) | NoInterest | NotFound | Violation | OutsideTransaction

  type Relations = map<Oid, seq<Trigger>>

  function Triggers(rels: Relations, relid: Oid): seq<Trigger> { if relid in rels then rels[relid] else [] }

  /** The triggers of an event, one item each. */
  function AfterRowTriggers(rels: Relations, relid: Oid, op: Op): seq<Trigger> {
    Selected(Triggers(rels, relid), AfterRow, op)
  }

  predicate Interested(ts: seq<Trigger>) {
    exists op :: Selected(ts, AfterRow, op) != [] || Selected(ts, BeforeRow, op) != []
  }

  /** A report is well formed when it says for each UPDATE trigger whether its key is unchanged. */
  predicate WellFormed(rels: Relations, c: Change) {
    c.Updated? ==> |c.same| == |AfterRowTriggers(rels, c.relid, Update)|
  }

  // ---------------------------------------------------------------- DeferredTriggerSaveEvent

  /** The last event that created the row version, as the backward scan finds it. */
  function Previous(events: seq<Event>, relid: Oid, ctid: Ctid): (r: Option<nat>)
    ensures r.Some? ==> r.value < |events| && events[r.value].change.Creates(relid, ctid) && !events[r.value].canceled
    ensures forall j | (if r.Some? then r.value + 1 else 0) <= j < |events| ::
      events[j].canceled || !events[j].change.Creates(relid, ctid)
  {
    if events == [] then None
    else
      var n := |events| - 1;
      if events[n].change.Creates(relid, ctid) && !events[n].canceled then Some(n)
      else Previous(events[..n], relid, ctid)
  }

  /** The previous event's answer to "was this key changed before?" for item i. */
  predicate ChangedBefore(prev: Option<Event>, i: nat) {
    prev.Some? && (prev.value.rowInserted || (i < |prev.value.items| && prev.value.items[i].keyChanged))
  }

  function FreshItem(t: Trigger, hasBefore: bool): Item {
    Item(t.oid, t.deferrable, t.initDeferred, hasBefore, false, false)
  }

  function UpdatedItem(t: Trigger, hasBefore: bool, same: bool, prev: Option<Event>, i: nat): Item {
    var it := FreshItem(t, hasBefore);
    if !t.IsRiUpdate() then it
    else if same then it.(done := true, keyChanged := ChangedBefore(prev, i))
    else it.(keyChanged := true)
  }

  predicate Violates(ts: seq<Trigger>, same: seq<bool>, prev: Option<Event>, i: nat)
    requires i < |ts| == |same|
  {
    ts[i].IsRiUpdate() && !same[i] && ChangedBefore(prev, i)
  }

  function NewItems(ts: seq<Trigger>, hasBefore: bool): (r: seq<Item>)
    ensures |r| == |ts| && forall i | 0 <= i < |ts| :: r[i] == FreshItem(ts[i], hasBefore)
  {
    seq(|ts|, i requires 0 <= i < |ts| => FreshItem(ts[i], hasBefore))
  }

  function UpdatedItems(ts: seq<Trigger>, hasBefore: bool, same: seq<bool>, prev: Option<Event>): (r: seq<Item>)
    requires |ts| == |same|
    ensures |r| == |ts| && forall i | 0 <= i < |ts| :: r[i] == UpdatedItem(ts[i], hasBefore, same[i], prev, i)
  {
    seq(|ts|, i requires 0 <= i < |ts| => UpdatedItem(ts[i], hasBefore, same[i], prev, i))
  }

  predicate KeepsInserted(ts: seq<Trigger>, same: seq<bool>, prev: Option<Event>)
    requires |ts| == |same|
  {
    prev.Some? && prev.value.rowInserted && exists i | 0 <= i < |ts| :: ts[i].IsRiUpdate() && same[i]
  }

  predicate MarksKey(ts: seq<Trigger>, same: seq<bool>, prev: Option<Event>)
    requires |ts| == |same|
  {
    exists i | 0 <= i < |ts| :: ts[i].IsRiUpdate() && (same[i] ==> ChangedBefore(prev, i))
  }

  predicate AnyViolation(ts: seq<Trigger>, same: seq<bool>, prev: Option<Event>)
    requires |ts| == |same|
  {
    exists i | 0 <= i < |ts| :: Violates(ts, same, prev, i)
  }

  /** The event for a change whose row's previous event in this transaction is prev. */
  function SaveAfter(c: Change, ts: seq<Trigger>, hasBefore: bool, prev: Option<Event>): Outcome
    requires c.Updated? ==> |ts| == |c.same|
  {
    match c
    case Inserted(_, _) => Saved(Event(c, NewItems(ts, hasBefore), false, false, true, true))
    case Updated(_, _, _, _, same) =>
      if AnyViolation(ts, same, prev) then Violation
      else Saved(Event(c, UpdatedItems(ts, hasBefore, same, prev), false, false, KeepsInserted(ts, same, prev),
        MarksKey(ts, same, prev)))
    case Deleted(_, _, _) =>
      if prev.Some? && prev.value.keyChanged then Violation
      else Saved(Event(c, NewItems(ts, hasBefore), false, false, false, false))
  }

  function HasBefore(rels: Relations, relid: Oid, op: Op): bool { Selected(Triggers(rels, relid), BeforeRow, op) != [] }

  function Save(rels: Relations, events: seq<Event>, c: Change): Outcome
    requires WellFormed(rels, c)
  {
    var ts, hasBefore := AfterRowTriggers(rels, c.relid, c.TheOp()), HasBefore(rels, c.relid, c.TheOp());
    if !Interested(Triggers(rels, c.relid)) then NoInterest
    else if !c.Reuses() then SaveAfter(c, ts, hasBefore, None)
    else
      match Previous(events, c.relid, c.oldCtid)
      case None => NotFound
      case Some(p) => SaveAfter(c, ts, hasBefore, Some(events[p]))
  }

  // ---------------------------------------------------------------- following a row through its versions

  function Changes(events: seq<Event>): (log: seq<Change>)
    ensures |log| == |events| && forall k | 0 <= k < |log| :: log[k] == events[k].change
  {
    seq(|events|, k requires 0 <= k < |events| => events[k].change)
  }

  /** The change, among the first n, that last wrote the row version at ctid. */
  function LastWriter(log: seq<Change>, n: nat, relid: Oid, ctid: Ctid): (r: Option<nat>)
    requires n <= |log|
    ensures r.Some? ==> r.value < n && log[r.value].Creates(relid, ctid)
    ensures forall j | (if r.Some? then r.value + 1 else 0) <= j < n :: !log[j].Creates(relid, ctid)
  {
    if n == 0 then None
    else if log[n - 1].Creates(relid, ctid) then Some(n - 1)
    else LastWriter(log, n - 1, relid, ctid)
  }

  function Predecessor(log: seq<Change>, k: nat): (r: Option<nat>)
    requires k < |log|
    ensures r.Some? ==> r.value < k && !log[r.value].Deleted? && log[r.value].relid == log[k].relid
  {
    if log[k].Reuses() then LastWriter(log, k, log[k].relid, log[k].oldCtid) else None
  }

  /** All changes of this transaction that led to change k of the same row, k included. */
  function Row(log: seq<Change>, k: nat): (r: set<nat>)
    requires k < |log|
    ensures forall j | j in r :: j <= k && log[j].relid == log[k].relid
  {
    {k} + match Predecessor(log, k) case Some(p) => Row(log, p) case None => {}
  }

  ghost predicate InsertedHere(log: seq<Change>, k: nat)
    requires k < |log|
  {
    exists j | j in Row(log, k) :: log[j].Inserted?
  }

  ghost predicate KeyChangedHere(log: seq<Change>, k: nat, i: nat)
    requires k < |log|
  {
    exists j | j in Row(log, k) :: log[j].Updated? && i < |log[j].same| && !log[j].same[i]
  }

  /** Trigger i of an UPDATE event watches a referenced key. */
  predicate Ri(ts: seq<Trigger>, i: nat) { i < |ts| && ts[i].IsRiUpdate() }

  ghost predicate HasRi(rels: Relations, relid: Oid) {
    exists i: nat :: Ri(AfterRowTriggers(rels, relid, Update), i)
  }

  /** What the SQL rule forbids of the last change of a log, given the changes of the same row before it. */
  ghost predicate Forbidden(rels: Relations, log: seq<Change>, k: nat)
    requires k < |log|
  {
    var p := Predecessor(log, k);
    var relid := log[k].relid;
    p.Some? && match log[k]
      case Inserted(_, _) => false
      case Updated(_, _, _, _, same) =>
        exists i | 0 <= i < |same| ::
          Ri(AfterRowTriggers(rels, relid, Update), i) && !same[i] &&
            (InsertedHere(log, p.value) || KeyChangedHere(log, p.value, i))
      case Deleted(_, _, _) =>
        InsertedHere(log, p.value) || exists i: nat ::
          Ri(AfterRowTriggers(rels, relid, Update), i) && KeyChangedHere(log, p.value, i)
  }

  /** The queue of a transaction run without error, as the events were saved. */
  ghost predicate History(rels: Relations, events: seq<Event>) {
    forall k | 0 <= k < |events| ::
      WellFormed(rels, events[k].change) && Save(rels, events[..k], events[k].change) == Saved(events[k])
  }

  lemma {:induction false} PreviousIsLastWriter(events: seq<Event>, n: nat, relid: Oid, ctid: Ctid)
    requires n <= |events| && forall k | 0 <= k < n :: !events[k].canceled
    ensures Previous(events[..n], relid, ctid) == LastWriter(Changes(events), n, relid, ctid)
  {
    if n > 0 {
      assert events[..n][..n - 1] == events[..n - 1];
      PreviousIsLastWriter(events, n - 1, relid, ctid);
    }
  }

  lemma SavedShape(rels: Relations, events: seq<Event>, c: Change)
    requires WellFormed(rels, c) && Save(rels, events, c).Saved?
    ensures var e := Save(rels, events, c).event;
      e.change == c && !e.canceled && !e.done && |e.items| == |AfterRowTriggers(rels, c.relid, c.TheOp())|
  {
  }

  lemma SavedItem(rels: Relations, events: seq<Event>, c: Change, i: nat)
    requires WellFormed(rels, c) && Save(rels, events, c).Saved?
    requires i < |Save(rels, events, c).event.items|
    ensures var it, ts := Save(rels, events, c).event.items[i], AfterRowTriggers(rels, c.relid, c.TheOp());
      && i < |ts| && it.tgoid == ts[i].oid && it.deferrable == ts[i].deferrable && it.initDeferred == ts[i].initDeferred
      && (it.done <==> c.Updated? && ts[i].IsRiUpdate() && c.same[i])
  {
  }

  lemma HistoryEvent(rels: Relations, events: seq<Event>, k: nat)
    requires History(rels, events) && k < |events|
    ensures WellFormed(rels, events[k].change) && !events[k].canceled
    ensures Save(rels, events[..k], events[k].change) == Saved(events[k])
  {
    SavedShape(rels, events[..k], events[k].change);
  }

  lemma PreviousOf(rels: Relations, events: seq<Event>, k: nat)
    requires History(rels, events) && k < |events|
    ensures var log := Changes(events);
      log[k].Reuses() ==>
        Previous(events[..k], log[k].relid, log[k].oldCtid) == Predecessor(log, k) && Predecessor(log, k).Some?
  {
    var log := Changes(events);
    HistoryEvent(rels, events, k);
    if log[k].Reuses() {
      forall j | 0 <= j < k ensures !events[j].canceled { HistoryEvent(rels, events, j); }
      PreviousIsLastWriter(events, k, log[k].relid, log[k].oldCtid);
    }
  }

  lemma RowStep(log: seq<Change>, k: nat)
    requires k < |log|
    ensures InsertedHere(log, k) <==>
      log[k].Inserted? || (Predecessor(log, k).Some? && InsertedHere(log, Predecessor(log, k).value))
    ensures forall i: nat :: KeyChangedHere(log, k, i) <==>
      || (log[k].Updated? && i < |log[k].same| && !log[k].same[i])
      || (Predecessor(log, k).Some? && KeyChangedHere(log, Predecessor(log, k).value, i))
  {
    assert k in Row(log, k);
  }

  /** The event before k on the same row, as Save sees it. */
  function PreviousEvent(events: seq<Event>, k: nat): Option<Event>
    requires k < |events|
  {
    match Predecessor(Changes(events), k)
    case Some(p) => Some(events[p])
    case None => None
  }

  lemma SavedAs(rels: Relations, events: seq<Event>, k: nat)
    requires History(rels, events) && k < |events|
    ensures var c := events[k].change;
      && WellFormed(rels, c)
      && SaveAfter(c, AfterRowTriggers(rels, c.relid, c.TheOp()), HasBefore(rels, c.relid, c.TheOp()),
        PreviousEvent(events, k)) == Saved(events[k])
  {
    HistoryEvent(rels, events, k);
    PreviousOf(rels, events, k);
  }

  /** A row's flags say exactly what happened to the row in this transaction. */
  ghost predicate FlagsTrue(rels: Relations, events: seq<Event>, k: nat)
    requires k < |events|
  {
    var log, e := Changes(events), events[k];
    && (e.rowInserted <==> InsertedHere(log, k))
    && (e.keyChanged <==> InsertedHere(log, k) || exists i: nat ::
      Ri(AfterRowTriggers(rels, log[k].relid, Update), i) && KeyChangedHere(log, k, i))
    && (forall i: nat | Ri(AfterRowTriggers(rels, log[k].relid, Update), i) ::
          ChangedBefore(Some(e), i) <==> InsertedHere(log, k) || KeyChangedHere(log, k, i))
  }

  lemma UpdateFlags(c: Change, ts: seq<Trigger>, hasBefore: bool, prev: Option<Event>, e: Event)
    requires c.Updated? && |ts| == |c.same| && SaveAfter(c, ts, hasBefore, prev) == Saved(e)
    requires exists i: nat :: Ri(ts, i)
    ensures e.rowInserted <==> prev.Some? && prev.value.rowInserted
    ensures forall i: nat | Ri(ts, i) :: ChangedBefore(Some(e), i) <==> !c.same[i] || ChangedBefore(prev, i)
    ensures e.keyChanged <==> exists i: nat :: Ri(ts, i) && (!c.same[i] || ChangedBefore(prev, i))
  {
    var r :| Ri(ts, r);
    assert !Violates(ts, c.same, prev, r);
    assert forall i | 0 <= i < |ts| :: !Violates(ts, c.same, prev, i);
    assert forall i | 0 <= i < |ts| :: e.items[i] == UpdatedItem(ts[i], hasBefore, c.same[i], prev, i);
    assert forall i: nat | i < |ts| && ts[i].IsRiUpdate() :: Ri(ts, i);
  }

  lemma FlagsOfInsert(rels: Relations, events: seq<Event>, k: nat)
    requires History(rels, events) && k < |events| && events[k].change.Inserted?
    ensures FlagsTrue(rels, events, k)
  {
    SavedAs(rels, events, k);
    RowStep(Changes(events), k);
  }

  lemma FlagsOfUpdate(rels: Relations, events: seq<Event>, k: nat)
    requires History(rels, events) && k < |events| && events[k].change.Updated?
    requires HasRi(rels, events[k].change.relid)
    requires var p := Predecessor(Changes(events), k); p.Some? ==> FlagsTrue(rels, events, p.value)
    ensures FlagsTrue(rels, events, k)
  {
    var log, c, prev := Changes(events), events[k].change, PreviousEvent(events, k);
    var ts := AfterRowTriggers(rels, c.relid, Update);
    SavedAs(rels, events, k);
    UpdateFlags(c, ts, HasBefore(rels, c.relid, Update), prev, events[k]);
    RowStep(log, k);
    hide History, Row, InsertedHere, KeyChangedHere, SaveAfter, ChangedBefore, AfterRowTriggers, WellFormed,
      Predecessor, HasBefore, Ri;
    var p := Predecessor(log, k);
    assert (prev.Some? && prev.value.rowInserted) <==> InsertedHere(log, k);
    forall i: nat | Ri(ts, i)
      ensures (!c.same[i] || ChangedBefore(prev, i)) <==> InsertedHere(log, k) || KeyChangedHere(log, k, i)
    {
      assert p.Some? ==> (ChangedBefore(prev, i) <==> InsertedHere(log, p.value) || KeyChangedHere(log, p.value, i));
    }
  }

  lemma {:induction false} FlagsMean(rels: Relations, events: seq<Event>, k: nat)
    requires History(rels, events) && k < |events| && !events[k].change.Deleted?
    requires HasRi(rels, events[k].change.relid)
    ensures FlagsTrue(rels, events, k)
  {
    hide History, FlagsTrue;
    var p := Predecessor(Changes(events), k);
    if events[k].change.Inserted? {
      FlagsOfInsert(rels, events, k);
    } else {
      if p.Some? { FlagsMean(rels, events, p.value); }
      FlagsOfUpdate(rels, events, k);
    }
  }

  // ---------------------------------------------------------------- the rule, both ways

  lemma {:induction false} LastWriterPrefix(log: seq<Change>, longer: seq<Change>, n: nat, relid: Oid, ctid: Ctid)
    requires n <= |log| && log <= longer
    ensures LastWriter(longer, n, relid, ctid) == LastWriter(log, n, relid, ctid)
  {
    if n > 0 { LastWriterPrefix(log, longer, n - 1, relid, ctid); }
  }

  lemma {:induction false} RowPrefix(log: seq<Change>, longer: seq<Change>, k: nat)
    requires k < |log| && log <= longer
    ensures Predecessor(longer, k) == Predecessor(log, k)
    ensures Row(longer, k) == Row(log, k)
  {
    assert longer[k] == log[k];
    if log[k].Reuses() { LastWriterPrefix(log, longer, k, log[k].relid, log[k].oldCtid); }
    if Predecessor(log, k).Some? { RowPrefix(log, longer, Predecessor(log, k).value); }
  }

  lemma HerePrefix(log: seq<Change>, longer: seq<Change>, k: nat)
    requires k < |log| && log <= longer
    ensures InsertedHere(longer, k) == InsertedHere(log, k)
    ensures forall i: nat :: KeyChangedHere(longer, k, i) == KeyChangedHere(log, k, i)
  {
    RowPrefix(log, longer, k);
  }

  lemma ForbiddenPrefix(rels: Relations, log: seq<Change>, longer: seq<Change>, k: nat)
    requires k < |log| && log <= longer
    ensures Forbidden(rels, longer, k) == Forbidden(rels, log, k)
  {
    RowPrefix(log, longer, k);
    if Predecessor(log, k).Some? { HerePrefix(log, longer, Predecessor(log, k).value); }
  }

  /** The log of the queue, with one more change. */
  function Extended(events: seq<Event>, c: Change): (log: seq<Change>)
    ensures |log| == |events| + 1 && Changes(events) <= log && log[|events|] == c
  {
    Changes(events) + [c]
  }

  lemma HasRiInterested(rels: Relations, relid: Oid)
    requires HasRi(rels, relid)
    ensures Interested(Triggers(rels, relid))
  {
    assert Selected(Triggers(rels, relid), AfterRow, Update) != [];
  }

  lemma SaveSeesRow(rels: Relations, events: seq<Event>, c: Change)
    requires History(rels, events) && WellFormed(rels, c) && Interested(Triggers(rels, c.relid))
    ensures var log, ts, hb :=
        Extended(events, c), AfterRowTriggers(rels, c.relid, c.TheOp()), HasBefore(rels, c.relid, c.TheOp());
      match Predecessor(log, |events|)
      case Some(p) => Save(rels, events, c) == SaveAfter(c, ts, hb, Some(events[p]))
      case None => if c.Reuses() then Save(rels, events, c) == NotFound
        else Save(rels, events, c) == SaveAfter(c, ts, hb, None)
  {
    if c.Reuses() {
      forall k | 0 <= k < |events| ensures !events[k].canceled { HistoryEvent(rels, events, k); }
      PreviousIsLastWriter(events, |events|, c.relid, c.oldCtid);
      assert events[..|events|] == events;
      LastWriterPrefix(Changes(events), Extended(events, c), |events|, c.relid, c.oldCtid);
    }
  }

  lemma SaveSees(rels: Relations, events: seq<Event>, c: Change)
    requires History(rels, events) && WellFormed(rels, c) && HasRi(rels, c.relid)
    ensures var log, ts, hb :=
        Extended(events, c), AfterRowTriggers(rels, c.relid, c.TheOp()), HasBefore(rels, c.relid, c.TheOp());
      match Predecessor(log, |events|)
      case Some(p) => Save(rels, events, c) == SaveAfter(c, ts, hb, Some(events[p])) && FlagsTrue(rels, events, p)
      case None => if c.Reuses() then Save(rels, events, c) == NotFound
        else Save(rels, events, c) == SaveAfter(c, ts, hb, None)
  {
    HasRiInterested(rels, c.relid);
    SaveSeesRow(rels, events, c);
    var log := Extended(events, c);
    var p := Predecessor(log, |events|);
    if p.Some? {
      assert log[p.value] == events[p.value].change;
      FlagsMean(rels, events, p.value);
    }
  }

  lemma UpdateRejected(rels: Relations, events: seq<Event>, c: Change, p: nat)
    requires WellFormed(rels, c) && c.Updated? && p < |events| && FlagsTrue(rels, events, p)
    requires Predecessor(Extended(events, c), |events|) == Some(p)
    ensures AnyViolation(AfterRowTriggers(rels, c.relid, Update), c.same, Some(events[p]))
      <==> Forbidden(rels, Extended(events, c), |events|)
  {
    var log, ts, prev := Extended(events, c), AfterRowTriggers(rels, c.relid, Update), Some(events[p]);
    assert log[p] == events[p].change;
    HerePrefix(Changes(events), log, p);
    hide InsertedHere, KeyChangedHere, ChangedBefore, AfterRowTriggers;
    assert forall i: nat | i < |ts| :: Violates(ts, c.same, prev, i) <==>
      Ri(ts, i) && !c.same[i] && (InsertedHere(log, p) || KeyChangedHere(log, p, i));
  }

  lemma DeleteRejected(rels: Relations, events: seq<Event>, c: Change, p: nat)
    requires c.Deleted? && p < |events| && FlagsTrue(rels, events, p)
    requires Predecessor(Extended(events, c), |events|) == Some(p)
    ensures events[p].keyChanged <==> Forbidden(rels, Extended(events, c), |events|)
  {
    assert Extended(events, c)[p] == events[p].change;
    HerePrefix(Changes(events), Extended(events, c), p);
    hide InsertedHere, KeyChangedHere, AfterRowTriggers;
  }

  /** On a table with a referential UPDATE trigger, a change is rejected as a triggered data change
      violation exactly when the rule forbids it: a referenced key of the row was changed before, or
      the row was inserted, in this same transaction. */
  lemma RejectedExactly(rels: Relations, events: seq<Event>, c: Change)
    requires History(rels, events) && WellFormed(rels, c) && HasRi(rels, c.relid)
    ensures var log := Extended(events, c);
      && (Save(rels, events, c) == Violation <==> Forbidden(rels, log, |events|))
      && (Save(rels, events, c) == NotFound <==> c.Reuses() && Predecessor(log, |events|).None?)
      && Save(rels, events, c) != NoInterest
  {
    SaveSees(rels, events, c);
    hide History, Save, FlagsTrue;
    var p := Predecessor(Extended(events, c), |events|);
    if p.Some? && c.Updated? {
      UpdateRejected(rels, events, c, p.value);
    } else if p.Some? {
      DeleteRejected(rels, events, c, p.value);
    }
  }

  /** In every transaction run without error: no change of the run is forbidden by those before it. */
  lemma RuleKept(rels: Relations, events: seq<Event>, k: nat)
    requires History(rels, events) && k < |events| && HasRi(rels, events[k].change.relid)
    ensures !Forbidden(rels, Changes(events), k)
  {
    var c := events[k].change;
    HistoryEvent(rels, events, k);
    assert History(rels, events[..k]) by {
      forall j | 0 <= j < k ensures events[..k][..j] == events[..j] {}
    }
    RejectedExactly(rels, events[..k], c);
    assert Extended(events[..k], c) <= Changes(events);
    ForbiddenPrefix(rels, Extended(events[..k], c), Changes(events), k);
  }

  /** Read along one row: a referenced key that changes was not changed by any earlier version of the
      row in this transaction, and the row was not inserted by it. */
  lemma KeyChangesAtMostOnce(rels: Relations, events: seq<Event>, k: nat, i: nat, j: nat)
    requires History(rels, events) && k < |events| && j != k && j in Row(Changes(events), k)
    requires events[k].change.Updated? && i < |events[k].change.same| && !events[k].change.same[i]
    requires Ri(AfterRowTriggers(rels, events[k].change.relid, Update), i)
    ensures !events[j].change.Inserted?
    ensures events[j].change.Updated? && i < |events[j].change.same| ==> events[j].change.same[i]
  {
    var log := Changes(events);
    RuleKept(rels, events, k);
    var p := Predecessor(log, k).value;
    assert !InsertedHere(log, p) && !KeyChangedHere(log, p, i);
  }

  lemma DeletedRowUntouched(rels: Relations, events: seq<Event>, k: nat, i: nat, j: nat)
    requires History(rels, events) && k < |events| && j != k && j in Row(Changes(events), k)
    requires events[k].change.Deleted? && Ri(AfterRowTriggers(rels, events[k].change.relid, Update), i)
    ensures !events[j].change.Inserted?
    ensures events[j].change.Updated? && i < |events[j].change.same| ==> events[j].change.same[i]
  {
    var log := Changes(events);
    RuleKept(rels, events, k);
    var p := Predecessor(log, k).value;
    assert !InsertedHere(log, p) && !KeyChangedHere(log, p, i);
  }

  /** No transaction deletes a row of the table that it has itself inserted. */
  ghost predicate DeletesGuarded(rels: Relations, relid: Oid) {
    forall events: seq<Event>, k: nat | History(rels, events) && k < |events| :: DeleteGuarded(events, k, relid)
  }

  ghost predicate DeleteGuarded(events: seq<Event>, k: nat, relid: Oid)
    requires k < |events|
  {
    events[k].change.Deleted? && events[k].change.relid == relid ==> !InsertedHere(Changes(events), k)
  }

  /** Without a referential UPDATE trigger an update hands on no flag. */
  lemma UpdateForgets(rels: Relations, relid: Oid, e0: Event, same: seq<bool>)
    requires Interested(Triggers(rels, relid)) && !HasRi(rels, relid) && e0.change == Inserted(relid, Ctid(0, 1))
    requires !e0.canceled
    requires |same| == |AfterRowTriggers(rels, relid, Update)|
    ensures var r := Save(rels, [e0], Updated(relid, Ctid(0, 1), true, Ctid(0, 2), same));
      r.Saved? && !r.event.keyChanged
  {
    var ts := AfterRowTriggers(rels, relid, Update);
    forall i | 0 <= i < |ts| ensures !ts[i].IsRiUpdate() { assert !Ri(ts, i); }
    assert Previous([e0], relid, Ctid(0, 1)) == Some(0);
  }

  lemma InsertUpdateDeleteRow(log: seq<Change>, relid: Oid, same: seq<bool>)
    requires log == [Inserted(relid, Ctid(0, 1)), Updated(relid, Ctid(0, 1), true, Ctid(0, 2), same),
      Deleted(relid, Ctid(0, 2), true)]
    ensures InsertedHere(log, 2)
  {
    assert LastWriter(log, 2, relid, Ctid(0, 2)) == Some(1);
    assert LastWriter(log, 1, relid, Ctid(0, 1)) == Some(0);
    RowStep(log, 2);
    RowStep(log, 1);
    RowStep(log, 0);
  }

  /** The flags of a row are handed on only by the items of referential UPDATE triggers: with other
      triggers alone, INSERT, UPDATE, DELETE of one row goes through. */
  lemma UnguardedRun(rels: Relations, relid: Oid) returns (events: seq<Event>)
    requires Interested(Triggers(rels, relid)) && !HasRi(rels, relid)
    ensures History(rels, events) && |events| == 3 && !DeleteGuarded(events, 2, relid)
  {
    var same := seq(|AfterRowTriggers(rels, relid, Update)|, _ => true);
    var c0, c1, c2 :=
      Inserted(relid, Ctid(0, 1)), Updated(relid, Ctid(0, 1), true, Ctid(0, 2), same), Deleted(relid, Ctid(0, 2), true);
    var e0 := Save(rels, [], c0).event;
    UpdateForgets(rels, relid, e0, same);
    var e1 := Save(rels, [e0], c1).event;
    SavedShape(rels, [e0], c1);
    assert Previous([e0, e1], relid, Ctid(0, 2)) == Some(1);
    var e2 := Save(rels, [e0, e1], c2).event;
    events := [e0, e1, e2];
    assert events[..0] == [] && events[..1] == [e0] && events[..2] == [e0, e1];
    assert Changes(events) == [c0, c1, c2];
    InsertUpdateDeleteRow(Changes(events), relid, same);
  }

  /** So the guard on DELETE works exactly for the tables that have a referential UPDATE trigger. */
  lemma GuardedExactly(rels: Relations, relid: Oid)
    requires Interested(Triggers(rels, relid))
    ensures DeletesGuarded(rels, relid) <==> HasRi(rels, relid)
  {
    if HasRi(rels, relid) {
      forall events: seq<Event>, k: nat | History(rels, events) && k < |events|
        ensures DeleteGuarded(events, k, relid)
      {
        if events[k].change.Deleted? && events[k].change.relid == relid {
          RuleKept(rels, events, k);
          RowStep(Changes(events), k);
        }
      }
    } else {
      var events := UnguardedRun(rels, relid);
    }
  }
}
