/**
  The trigger descriptor of a relation: the list read from pg_trigger, and one
  array of triggers for each timing, level and operation.
 */
module TriggerDescriptor {
  import opened Basics

  /** The operations, in the order of the constants TRIGGER_EVENT_*. */
  datatype Op = Insert | Delete | Update
  {
    function Index(): (n: nat)
      ensures n < 3
    {
      match this case Insert => 0 case Delete => 1 case Update => 2
    }
  }

  datatype Kind = BeforeRow | AfterRow | BeforeStatement | AfterStatement

  /** The trigger function: the five referential actions on UPDATE are told apart from all others. */
  datatype Function =
    | RiNoActionUpd | RiCascadeUpd | RiRestrictUpd | RiSetNullUpd | RiSetDefaultUpd
    | Other(foid: Oid)

  datatype Trigger = Trigger(
    oid: Oid, fn: Function,
    row: bool, before: bool, onInsert: bool, onDelete: bool, onUpdate: bool,
    deferrable: bool, initDeferred: bool)
  {
    function TheKind(): Kind {
      if row then (if before then BeforeRow else AfterRow)
      else (if before then BeforeStatement else AfterStatement)
    }

    predicate For(op: Op) {
      match op case Insert => onInsert case Delete => onDelete case Update => onUpdate
    }

    predicate FiresOn(kind: Kind, op: Op) { TheKind() == kind && For(op) }

    predicate IsRiUpdate() { !fn.Other? }
  }

  /** The triggers of the list that fire for a kind and an operation, in list order. */
  function Selected(triggers: seq<Trigger>, kind: Kind, op: Op): (r: seq<Trigger>)
    ensures |r| <= |triggers|
  {
    if triggers == [] then []
    else
      var last := triggers[|triggers| - 1];
      Selected(triggers[..|triggers| - 1], kind, op) + if last.FiresOn(kind, op) then [last] else []
  }

  /** Positions gives the list position of every selected trigger. */
  function Positions(triggers: seq<Trigger>, kind: Kind, op: Op): (r: seq<nat>) {
    if triggers == [] then []
    else
      var n := |triggers| - 1;
      Positions(triggers[..n], kind, op) + if triggers[n].FiresOn(kind, op) then [n] else []
  }

  /** The array of a kind and an operation is the list filtered in order: its entries come from
      strictly increasing positions, and every trigger that fires has an entry. */
  lemma {:induction false} SelectedInOrder(triggers: seq<Trigger>, kind: Kind, op: Op)
    ensures var ps, r := Positions(triggers, kind, op), Selected(triggers, kind, op);
      && |ps| == |r|
      && (forall k | 0 <= k < |ps| :: ps[k] < |triggers| && r[k] == triggers[ps[k]])
      && (forall j, k | 0 <= j < k < |ps| :: ps[j] < ps[k])
      && (forall i | 0 <= i < |triggers| :: triggers[i].FiresOn(kind, op) <==> i in ps)
  {
    if triggers != [] {
      var n := |triggers| - 1;
      SelectedInOrder(triggers[..n], kind, op);
      var ps := Positions(triggers[..n], kind, op);
      var ps' := Positions(triggers, kind, op);
      if triggers[n].FiresOn(kind, op) {
        assert ps' == ps + [n];
        assert ps'[|ps|] == n;
      } else {
        assert ps' == ps;
      }
      forall i | 0 <= i < n ensures triggers[i].FiresOn(kind, op) <==> i in ps' {
        assert triggers[..n][i] == triggers[i];
      }
    }
  }

  /** Every selected trigger does fire for the kind and the operation. */
  lemma SelectedFires(triggers: seq<Trigger>, kind: Kind, op: Op, k: nat)
    requires k < |Selected(triggers, kind, op)|
    ensures Selected(triggers, kind, op)[k].FiresOn(kind, op) && Selected(triggers, kind, op)[k] in triggers
  {
    SelectedInOrder(triggers, kind, op);
    var p := Positions(triggers, kind, op)[k];
    assert p in Positions(triggers, kind, op);
  }

  class TriggerDesc {
    var triggers: seq<Trigger>
    var beforeRow: seq<seq<Trigger>>
    var afterRow: seq<seq<Trigger>>
    var beforeStatement: seq<seq<Trigger>>
    var afterStatement: seq<seq<Trigger>>

    predicate Shaped()
      reads this
    {
      |beforeRow| == |afterRow| == |beforeStatement| == |afterStatement| == 4
    }

    function Entries(kind: Kind, op: Op): seq<Trigger>
      requires Shaped()
      reads this
    {
      match kind
      case BeforeRow => beforeRow[op.Index()]
      case AfterRow => afterRow[op.Index()]
      case BeforeStatement => beforeStatement[op.Index()]
      case AfterStatement => afterStatement[op.Index()]
    }

    /** The descriptor of a relation with these triggers. */
    ghost predicate Describes(rows: seq<Trigger>)
      reads this
    {
      Shaped() && triggers == rows && forall kind, op :: Entries(kind, op) == Selected(rows, kind, op)
    }

    /** RelationBuildTriggers, from the rows read on. */
    constructor (rows: seq<Trigger>)
      ensures Describes(rows)
    {
      triggers := rows;
      beforeRow, afterRow, beforeStatement, afterStatement :=
        [[], [], [], []], [[], [], [], []], [[], [], [], []], [[], [], [], []];
      new;
      for found := 0 to |rows|
        invariant Shaped() && triggers == rows
        invariant forall kind, op :: Entries(kind, op) == Selected(rows[..found], kind, op)
      {
        assert rows[..found + 1][..found] == rows[..found];
        DescribeTrigger(rows[found]);
      }
      assert rows[..|rows|] == rows;
    }

    /** Appends the trigger to the arrays of its kind, for each of its operations. */
    method DescribeTrigger(trigger: Trigger)
      requires Shaped()
      modifies this
      ensures Shaped() && triggers == old(triggers)
      ensures forall kind, op ::
        Entries(kind, op) == old(Entries(kind, op)) + if trigger.FiresOn(kind, op) then [trigger] else []
    {
      var t :=
        if trigger.row then (if trigger.before then beforeRow else afterRow)
        else (if trigger.before then beforeStatement else afterStatement);
      if trigger.onInsert {
        t := t[Insert.Index() := t[Insert.Index()] + [trigger]];
      }
      if trigger.onDelete {
        t := t[Delete.Index() := t[Delete.Index()] + [trigger]];
      }
      if trigger.onUpdate {
        t := t[Update.Index() := t[Update.Index()] + [trigger]];
      }
      match trigger.TheKind()
      case BeforeRow => beforeRow := t;
      case AfterRow => afterRow := t;
      case BeforeStatement => beforeStatement := t;
      case AfterStatement => afterStatement := t;
    }
  }
}
