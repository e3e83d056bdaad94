/**
  Nothing is invented: every message to a frontend comes from a NOTIFY, every signal from
  a commit, and the rows of a backend are those that its committed commands have left.
 */
module NotifyOrigin {
  import opened Notify
  import opened NotifyBackend
  import opened NotifySafety
  import opened NotifyRuns
  import opened NotifyDelivery

  // ---------------------------------------------------------------- messages

  /** The step sends m to the frontend of p: a commit of p comes to its own row of a NOTIFYed name, or a scan of p
      comes to its own row and finds the notification of another backend in the table. */
  ghost predicate Sends(s: State, step: Step, p: Pid, m: Message)
    requires p in s.backends
  {
    var k := Key(m.rel, p);
    || (step == CommitVisit(p, k) && m.source == p && m.rel in s.backends[p].pending)
    || (step == ScanRow(p, k) && k in s.table && s.table[k] == m.source && m.source != 0 && m.source != p)
  }

  lemma ScanSends(s: State, p: Pid, key: Key)
    requires Inv(s) && Guard(s, ScanRow(p, key))
    ensures var b, b' := s.backends[p], Apply(s, ScanRow(p, key)).backends[p];
      || b'.inbox == b.inbox
      || exists m :: b'.inbox == b.inbox + [m] && Sends(s, ScanRow(p, key), p, m)
  {
    var b, b' := s.backends[p], Apply(s, ScanRow(p, key)).backends[p];
    assert Scanning(b) && FindScan(b.stack) == b.Top();
    if key in s.table && s.table[key] != 0 {
      var m := Message(key.rel, s.table[key]);
      assert Covered(s, key, s.table[key]);
      assert b'.inbox == b.inbox + [m] && Sends(s, ScanRow(p, key), p, m);
    }
  }

  lemma VisitSends(s: State, p: Pid, key: Key)
    requires Guard(s, CommitVisit(p, key))
    ensures var b, b' := s.backends[p], Apply(s, CommitVisit(p, key)).backends[p];
      || b'.inbox == b.inbox
      || exists m :: b'.inbox == b.inbox + [m] && Sends(s, CommitVisit(p, key), p, m)
  {
    VisitTells(s, p, key);
    var b, b' := s.backends[p], Apply(s, CommitVisit(p, key)).backends[p];
    if b'.inbox != b.inbox { assert Sends(s, CommitVisit(p, key), p, Message(key.rel, p)); }
  }

  lemma CommitSilent(s: State, step: Step)
    requires Guard(s, step) && CommitStep(step) && !step.CommitVisit? && step.p in Apply(s, step).backends
    ensures Apply(s, step).backends[step.p].inbox == s.backends[step.p].inbox
  {
    match step
    case CommitQuiet(_) =>
    case CommitAcquire(_) =>
    case CommitWrite(_) =>
    case CommitFinish(_) =>
    case Abort(_) =>
  }

  lemma OthersSilent(s: State, step: Step)
    requires Guard(s, step) && !CommitStep(step) && !step.ScanRow?
    requires step.p in s.backends && step.p in Apply(s, step).backends
    ensures Apply(s, step).backends[step.p].inbox == s.backends[step.p].inbox
  {
    if Command(step) {
      CommandKeepsFlags(s, step);
      hide Apply;
    } else if step.Run? {
      AdvanceMoves(s.backends[step.p]);
    }
  }

  /** A step sends at most one message to a frontend, and only so. */
  lemma StepSends(s: State, step: Step, p: Pid)
    requires Inv(s) && Guard(s, step) && p in s.backends && p in Apply(s, step).backends
    ensures var b, b' := s.backends[p], Apply(s, step).backends[p];
      || b'.inbox == b.inbox
      || exists m :: b'.inbox == b.inbox + [m] && Sends(s, step, p, m)
  {
    hide Inv, Guard, Apply, Sends;
    if step.p != p { OthersUntouched(s, step, p); }
    else if step.ScanRow? { ScanSends(s, p, step.key); }
    else if step.CommitVisit? { VisitSends(s, p, step.key); }
    else if CommitStep(step) { CommitSilent(s, step); }
    else { OthersSilent(s, step); }
  }

  /** In every run: what a step adds to the messages of a frontend is one message, for which there is a reason. */
  lemma MessageOrigin(states: seq<State>, steps: seq<Step>, i: nat, p: Pid)
    requires IsRun(states, steps) && i < |steps| && p in states[i].backends && p in states[i + 1].backends
    ensures var before, after := states[i].backends[p].inbox, states[i + 1].backends[p].inbox;
      || after == before
      || exists m :: after == before + [m] && Sends(states[i], steps[i], p, m)
  {
    hide Inv, Guard, Apply, Sends;
    assert StepAt(states, steps, i);
    EveryRunKeepsInv(states, steps, i);
    StepSends(states[i], steps[i], p);
  }

  // ---------------------------------------------------------------- and the NOTIFY behind it

  /** The transaction of n at state i has NOTIFYed the name. */
  ghost predicate Notified(steps: seq<Step>, d: nat, i: nat, n: Pid, rel: Rel)
    requires i <= |steps|
  {
    d < i && steps[d] == DoNotify(n, rel) && forall m | d < m < i :: !EndsXact(steps[m], n)
  }

  lemma OnlyNotifyPends(s: State, step: Step, p: Pid, rel: Rel)
    requires Guard(s, step) && p in Apply(s, step).backends && rel in Apply(s, step).backends[p].pending
    ensures step == DoNotify(p, rel) || (p in s.backends && rel in s.backends[p].pending && !EndsXact(step, p))
  {
    hide Apply;
    if p !in s.backends { StartsEmpty(s, step, p); }
    else if step.p != p { OthersUntouched(s, step, p); }
    else { OwnPends(s, step, rel); }
  }

  lemma OwnPends(s: State, step: Step, rel: Rel)
    requires Guard(s, step) && step.p in s.backends && step.p in Apply(s, step).backends
    requires rel in Apply(s, step).backends[step.p].pending
    ensures step == DoNotify(step.p, rel) || (rel in s.backends[step.p].pending && !EndsXact(step, step.p))
  {
    hide Apply;
    if Command(step) { CommandPends(s, step, rel); }
    else if CommitStep(step) { CommitPends(s, step, rel); }
    else { OthersPend(s, step); }
  }

  lemma CommandPends(s: State, step: Step, rel: Rel)
    requires Guard(s, step) && Command(step) && rel in Apply(s, step).backends[step.p].pending
    ensures step == DoNotify(step.p, rel) || rel in s.backends[step.p].pending
  {
    match step
    case Begin(_) =>
    case Enable(_) =>
    case DoNotify(_, _) =>
    case DoListen(_, _) =>
    case DoUnlisten(_, _) =>
    case DoUnlistenAll(_) =>
    case StartCommit(_) =>
  }

  lemma CommitPends(s: State, step: Step, rel: Rel)
    requires Guard(s, step) && CommitStep(step) && step.p in Apply(s, step).backends
    requires rel in Apply(s, step).backends[step.p].pending
    ensures rel in s.backends[step.p].pending && !EndsXact(step, step.p)
  {
    match step
    case CommitQuiet(_) =>
    case CommitAcquire(_) =>
    case CommitVisit(p, key) => VisitKeepsRest(s, p, key);
    case CommitWrite(_) =>
    case CommitFinish(_) =>
    case Abort(_) =>
  }

  lemma OthersPend(s: State, step: Step)
    requires Guard(s, step) && !Command(step) && !CommitStep(step)
    requires step.p in s.backends && step.p in Apply(s, step).backends
    ensures Apply(s, step).backends[step.p].pending == s.backends[step.p].pending && !EndsXact(step, step.p)
  {
    if step.Run? { AdvanceMoves(s.backends[step.p]); }
  }

  lemma {:induction false} PendingOrigin(states: seq<State>, steps: seq<Step>, i: nat, p: Pid, rel: Rel)
    returns (d: nat)
    requires IsRun(states, steps) && i < |states| && p in states[i].backends && rel in states[i].backends[p].pending
    ensures Notified(steps, d, i, p, rel)
  {
    hide Guard, Apply, EndsXact;
    assert i > 0;
    assert StepAt(states, steps, i - 1);
    OnlyNotifyPends(states[i - 1], steps[i - 1], p, rel);
    if steps[i - 1] == DoNotify(p, rel) {
      d := i - 1;
    } else {
      d := PendingOrigin(states, steps, i - 1, p, rel);
    }
  }

  /** A notification in the table was put there by the commit of a transaction that had NOTIFYed the name. */
  lemma {:induction false} NotificationOrigin(states: seq<State>, steps: seq<Step>, i: nat, k: Key)
    returns (d: nat, c: nat)
    requires IsRun(states, steps) && i < |states| && k in states[i].table && states[i].table[k] != 0
    ensures d < c < i && steps[c] == CommitFinish(states[i].table[k])
    ensures Notified(steps, d, c, states[i].table[k], k.rel)
  {
    hide Guard, Apply, Notified;
    assert i > 0;
    if k in states[i - 1].table && states[i - 1].table[k] == states[i].table[k] {
      d, c := NotificationOrigin(states, steps, i - 1, k);
    } else {
      RowOrigin(states, steps, i - 1, k);
      c := i - 1;
      d := PendingOrigin(states, steps, c, states[i].table[k], k.rel);
      NotifiedBefore(steps, d, c, states[i].table[k], k.rel);
    }
  }

  lemma NotifiedBefore(steps: seq<Step>, d: nat, i: nat, n: Pid, rel: Rel)
    requires i <= |steps| && Notified(steps, d, i, n, rel)
    ensures d < i
  {
  }

  /** The reason for a message: a NOTIFY of its name by its source, in the transaction that is being committed or,
      if the source is another backend, in one that has been. */
  ghost predicate Justified(steps: seq<Step>, i: nat, p: Pid, m: Message)
    requires i <= |steps|
  {
    if m.source == p then
      exists d: nat, v: nat :: v < i && steps[v] == CommitVisit(p, Key(m.rel, p)) && Notified(steps, d, v, p, m.rel)
    else
      exists d: nat, c: nat :: c < i && steps[c] == CommitFinish(m.source) && Notified(steps, d, c, m.source, m.rel)
  }

  lemma JustifiedLater(steps: seq<Step>, i: nat, j: nat, p: Pid, m: Message)
    requires i <= j <= |steps| && Justified(steps, i, p, m)
    ensures Justified(steps, j, p, m)
  {
  }

  /** Nothing is invented: every message that a frontend has been sent, in any run, has a reason. */
  lemma {:induction false} NothingInvented(states: seq<State>, steps: seq<Step>, i: nat, p: Pid, x: nat)
    requires IsRun(states, steps) && i < |states| && p in states[i].backends && x < |states[i].backends[p].inbox|
    ensures Justified(steps, i, p, states[i].backends[p].inbox[x])
  {
    hide Guard, Apply, Justified, Sends;
    assert i > 0;
    assert StepAt(states, steps, i - 1);
    if p in states[i - 1].backends && x < |states[i - 1].backends[p].inbox| {
      MessageOrigin(states, steps, i - 1, p);
      NothingInvented(states, steps, i - 1, p, x);
      JustifiedLater(steps, i - 1, i, p, states[i].backends[p].inbox[x]);
    } else if p in states[i - 1].backends {
      MessageOrigin(states, steps, i - 1, p);
      var before, after := states[i - 1].backends[p].inbox, states[i].backends[p].inbox;
      var m :| after == before + [m] && Sends(states[i - 1], steps[i - 1], p, m);
      SentJustified(states, steps, i - 1, p, m);
    } else {
      StartsEmpty(states[i - 1], steps[i - 1], p);
    }
  }

  lemma StartsEmpty(s: State, step: Step, p: Pid)
    requires Guard(s, step) && p !in s.backends && p in Apply(s, step).backends
    ensures Apply(s, step).backends[p].inbox == [] && Apply(s, step).backends[p].pending == {}
  {
  }

  lemma SentJustified(states: seq<State>, steps: seq<Step>, i: nat, p: Pid, m: Message)
    requires IsRun(states, steps) && i < |steps| && p in states[i].backends && Sends(states[i], steps[i], p, m)
    ensures Justified(steps, i + 1, p, m)
  {
    hide Guard, Apply, Notified;
    if steps[i].CommitVisit? {
      var d := PendingOrigin(states, steps, i, p, m.rel);
    } else {
      var d, c := NotificationOrigin(states, steps, i, Key(m.rel, p));
    }
  }

  // ---------------------------------------------------------------- a notifier's own messages

  /** The commit loop has still to come only to those rows of its own backend that the backend sees. */
  ghost predicate TodoOk(s: State) {
    Underway(s) ==>
      var h, b := s.lock.holder, s.backends[s.lock.holder];
      forall rel | Key(rel, h) in MainPc(b.stack).todo :: SeesRow(s.table, b, Key(rel, h))
  }

  lemma TodoShrinks(s: State, s': State)
    requires TodoOk(s)
    requires Underway(s') ==>
      && Underway(s) && s'.lock.holder == s.lock.holder
      && var h, b, b' := s.lock.holder, s.backends[s.lock.holder], s'.backends[s.lock.holder];
         && MainPc(b'.stack).todo <= MainPc(b.stack).todo && b'.listens == b.listens && b'.unlistens == b.unlistens
         && forall rel | Key(rel, h) in s.table :: Key(rel, h) in s'.table
    ensures TodoOk(s')
  {
  }

  lemma AcquireTodo(s: State, p: Pid)
    requires Inv(s) && Guard(s, CommitAcquire(p))
    ensures TodoOk(Apply(s, CommitAcquire(p)))
  {
    assert BackendOk(s.backends[p]) && s.backends[p].stack.Main?;
  }

  lemma VisitTodo(s: State, p: Pid, key: Key)
    requires Inv(s) && TodoOk(s) && Guard(s, CommitVisit(p, key))
    ensures TodoOk(Apply(s, CommitVisit(p, key)))
  {
    assert BackendOk(s.backends[p]) && s.backends[p].stack.Main?;
    hide Inv;
    VisitMoves(s, p, key);
    VisitKeepsRest(s, p, key);
    VisitKeepsTable(s, p, key);
    hide Visit, VisitOwn;
    TodoShrinks(s, Apply(s, CommitVisit(p, key)));
  }

  lemma WriteTodo(s: State, p: Pid)
    requires Inv(s) && TodoOk(s) && Guard(s, CommitWrite(p))
    ensures TodoOk(Apply(s, CommitWrite(p)))
  {
    assert BackendOk(s.backends[p]) && s.backends[p].stack.Main?;
    hide Inv;
    TodoShrinks(s, Apply(s, CommitWrite(p)));
  }

  lemma QuietTodo(s: State, p: Pid)
    requires Inv(s) && TodoOk(s) && Guard(s, CommitQuiet(p))
    ensures TodoOk(Apply(s, CommitQuiet(p)))
  {
    assert BackendOk(s.backends[p]) && s.backends[p].stack == Main(Cmd) && !Holds(s, p);
    hide Inv;
    TodoShrinks(s, Apply(s, CommitQuiet(p)));
  }

  lemma HandlerTodo(s: State, step: Step)
    requires Inv(s) && TodoOk(s) && Guard(s, step) && (step.Run? || step.Interrupt?)
    ensures TodoOk(Apply(s, step))
  {
    var s' := Apply(s, step);
    if Underway(s') {
      if s.lock.holder == step.p && step.Run? {
        AdvanceKeepsHold(s.backends[step.p]);
        AdvanceKeepsCommit(s.backends[step.p]);
      }
      TodoShrinks(s, s');
    }
  }

  lemma CommandTodo(s: State, step: Step)
    requires Inv(s) && TodoOk(s) && Guard(s, step) && Command(step)
    ensures TodoOk(Apply(s, step))
  {
    CommandElsewhere(s, step);
    CommandPuts(s, step);
    hide Inv, Apply;
    TodoShrinks(s, Apply(s, step));
  }

  lemma ScanTodo(s: State, step: Step)
    requires Inv(s) && Guard(s, step) && (step.ScanAcquire? || step.ScanRow? || step.ScanFinish?)
    ensures TodoOk(Apply(s, step))
  {
    NotUnderway(s, step);
    hide Apply;
  }

  lemma ProcessTodo(s: State, step: Step)
    requires Inv(s) && TodoOk(s) && Guard(s, step) && (step.Start? || step.Crash? || step.ScanAbort?)
    ensures TodoOk(Apply(s, step))
  {
    TodoShrinks(s, Apply(s, step));
  }

  lemma CommandElsewhere(s: State, step: Step)
    requires Inv(s) && Guard(s, step) && Command(step)
    ensures !Holds(s, step.p)
  {
    CommandAtMain(s, step);
  }

  lemma StepKeepsTodo(s: State, step: Step)
    requires Inv(s) && TodoOk(s) && Guard(s, step)
    ensures TodoOk(Apply(s, step))
  {
    hide Inv, TodoOk, Guard, Apply;
    match step
    case CommitAcquire(p) => AcquireTodo(s, p);
    case CommitVisit(p, key) => VisitTodo(s, p, key);
    case CommitWrite(p) => WriteTodo(s, p);
    case CommitQuiet(p) => QuietTodo(s, p);
    case CommitFinish(p) => EndTodo(s, step);
    case Abort(p) => EndTodo(s, step);
    case Run(_) => HandlerTodo(s, step);
    case Interrupt(_) => HandlerTodo(s, step);
    case ScanAcquire(_) => ScanTodo(s, step);
    case ScanRow(_, _) => ScanTodo(s, step);
    case ScanFinish(_) => ScanTodo(s, step);
    case ScanAbort(_) => ProcessTodo(s, step);
    case Start(_) => ProcessTodo(s, step);
    case Crash(_) => ProcessTodo(s, step);
    case _ => CommandTodo(s, step);
  }

  lemma EndTodo(s: State, step: Step)
    requires TodoOk(s) && Guard(s, step) && (step.CommitFinish? || step.Abort?)
    ensures TodoOk(Apply(s, step))
  {
    if step.Abort? { TodoShrinks(s, Apply(s, step)); }
  }

  lemma {:induction false} EveryRunKeepsTodo(states: seq<State>, steps: seq<Step>, i: nat)
    requires IsRun(states, steps) && i < |states|
    ensures TodoOk(states[i])
  {
    if i > 0 {
      hide Inv, TodoOk, Guard, Apply;
      assert StepAt(states, steps, i - 1);
      EveryRunKeepsTodo(states, steps, i - 1);
      EveryRunKeepsInv(states, steps, i - 1);
      StepKeepsTodo(states[i - 1], steps[i - 1]);
    }
  }

  /** A notifier is told only of names it listens to itself. */
  lemma OwnMessageSeen(states: seq<State>, steps: seq<Step>, i: nat, p: Pid, rel: Rel)
    requires IsRun(states, steps) && i < |steps| && steps[i] == CommitVisit(p, Key(rel, p)) && p in states[i].backends
    ensures SeesRow(states[i].table, states[i].backends[p], Key(rel, p))
  {
    assert StepAt(states, steps, i);
    EveryRunKeepsTodo(states, steps, i);
    EveryRunKeepsInv(states, steps, i);
    assert BackendOk(states[i].backends[p]) && states[i].backends[p].stack.Main?;
  }
}
