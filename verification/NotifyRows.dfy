/**
  What becomes of the rows of pg_listener: LISTEN and UNLISTEN take effect at commit, the
  rows of dead processes are removed, and signals go to listeners only.
 */
module NotifyRows {
  import opened Notify
  import opened NotifyBackend
  import opened NotifySafety
  import opened NotifyRuns
  import opened NotifyDelivery

  // ---------------------------------------------------------------- LISTEN and UNLISTEN

  /** The row of a live backend comes and goes with its own commits only. */
  lemma OwnRowFixed(s: State, step: Step, k: Key)
    requires Inv(s) && Guard(s, step) && k.pid in s.backends && !EndsXact(step, k.pid)
    ensures k in Apply(s, step).table <==> k in s.table
  {
    hide Inv;
    if k in s.table { RowStays(s, step, k); }
    else if step.CommitFinish? { FinishAddsNone(s, step.p, k); }
    else if step.ScanFinish? { ScanAddsNone(s, step.p); }
    else if !WritesTable(step) { OthersLeaveTable(s, step); }
  }

  lemma FinishAddsNone(s: State, p: Pid, k: Key)
    requires Inv(s) && Guard(s, CommitFinish(p)) && k.pid != p && k !in s.table
    ensures k !in Apply(s, CommitFinish(p)).table
  {
    hide LockOk, ListensOk, RowsOk, ScannerOk, Covered;
    assert BackendOk(s.backends[p]);
  }

  lemma ScanAddsNone(s: State, p: Pid)
    requires Inv(s) && Guard(s, ScanFinish(p))
    ensures Apply(s, ScanFinish(p)).table.Keys == s.table.Keys
  {
    hide LockOk, ListensOk, RowsOk, CommitterOk, Covered;
  }

  /** A command about listening to this name. */
  predicate About(step: Step, p: Pid, rel: Rel) {
    step == DoListen(p, rel) || step == DoUnlisten(p, rel) || step == DoUnlistenAll(p)
  }

  /** A backend sees its row from now on, or does not. */
  lemma CommandSees(s: State, step: Step, p: Pid, rel: Rel)
    requires Inv(s) && Guard(s, step) && About(step, p, rel)
    ensures p in s.backends && p in Apply(s, step).backends
    ensures SeesRow(Apply(s, step).table, Apply(s, step).backends[p], Key(rel, p)) <==> step.DoListen?
  {
    hide BackendsOk, LockOk, DataOk;
  }

  lemma OwnListensKept(s: State, step: Step, p: Pid, rel: Rel)
    requires Guard(s, step) && step.p == p && p in s.backends && p in Apply(s, step).backends
    requires !EndsXact(step, p) && !About(step, p, rel)
    ensures rel in Apply(s, step).backends[p].listens <==> rel in s.backends[p].listens
    ensures rel in Apply(s, step).backends[p].unlistens <==> rel in s.backends[p].unlistens
  {
    if Command(step) { CommandListens(s, step, rel); }
    else if step.Run? { AdvanceMoves(s.backends[p]); }
    else if step.CommitVisit? { VisitKeepsRest(s, p, step.key); }
  }

  lemma CommandListens(s: State, step: Step, rel: Rel)
    requires Guard(s, step) && Command(step) && !About(step, step.p, rel)
    ensures rel in Apply(s, step).backends[step.p].listens <==> rel in s.backends[step.p].listens
    ensures rel in Apply(s, step).backends[step.p].unlistens <==> rel in s.backends[step.p].unlistens
  {
    match step
    case Begin(_) =>
    case Enable(_) =>
    case DoNotify(_, _) =>
    case DoListen(_, _) =>
    case DoUnlisten(_, _) =>
    case StartCommit(_) =>
  }

  lemma StepKeepsSees(s: State, step: Step, p: Pid, rel: Rel)
    requires Inv(s) && Guard(s, step) && p in s.backends && !EndsXact(step, p) && !About(step, p, rel)
    ensures p in Apply(s, step).backends
    ensures SeesRow(Apply(s, step).table, Apply(s, step).backends[p], Key(rel, p)) <==>
      SeesRow(s.table, s.backends[p], Key(rel, p))
  {
    hide Inv, Apply;
    OwnRowFixed(s, step, Key(rel, p));
    if step.p != p {
      OthersUntouched(s, step, p);
    } else {
      StaysAlive(s, step, p);
      OwnListensKept(s, step, p, rel);
    }
  }

  lemma StaysAlive(s: State, step: Step, p: Pid)
    requires Guard(s, step) && p in s.backends && step != Crash(p)
    ensures p in Apply(s, step).backends
  {
  }

  lemma {:induction false} SeesInXact(states: seq<State>, steps: seq<Step>, d: nat, i: nat, p: Pid, rel: Rel)
    requires IsRun(states, steps) && d < i < |states| && About(steps[d], p, rel)
    requires forall m | d < m < i :: !EndsXact(steps[m], p) && !About(steps[m], p, rel)
    ensures p in states[i].backends
    ensures SeesRow(states[i].table, states[i].backends[p], Key(rel, p)) <==> steps[d].DoListen?
    decreases i
  {
    hide Inv, Guard, Apply, EndsXact, SeesRow;
    assert StepAt(states, steps, i - 1);
    EveryRunKeepsInv(states, steps, i - 1);
    if d == i - 1 {
      CommandSees(states[d], steps[d], p, rel);
    } else {
      SeesInXact(states, steps, d, i - 1, p, rel);
      StepKeepsSees(states[i - 1], steps[i - 1], p, rel);
    }
  }

  /** A commit puts into the table those of its backend's rows that the backend sees. */
  lemma CommitPublishes(s: State, step: Step, p: Pid, rel: Rel)
    requires Inv(s) && Guard(s, step) && (step == CommitQuiet(p) || step == CommitFinish(p))
    ensures Key(rel, p) in Apply(s, step).table <==> SeesRow(s.table, s.backends[p], Key(rel, p))
  {
    if step.CommitFinish? {
      WorkingOwn(s, p, rel);
      hide Inv;
    }
  }

  lemma WorkingOwn(s: State, p: Pid, rel: Rel)
    requires Inv(s) && Guard(s, CommitFinish(p))
    ensures Key(rel, p) in s.lock.working <==> Key(rel, p) in s.table
  {
    hide LockOk, ListensOk, RowsOk, ScannerOk, Covered;
    assert BackendOk(s.backends[p]);
  }

  /** LISTEN and UNLISTEN take effect when their transaction commits: after it the row of the backend is in the
      table exactly if the last command about the name was LISTEN. */
  lemma ListenTakesEffect(states: seq<State>, steps: seq<Step>, d: nat, i: nat, p: Pid, rel: Rel)
    requires IsRun(states, steps) && d < i < |steps| && About(steps[d], p, rel)
    requires steps[i] == CommitQuiet(p) || steps[i] == CommitFinish(p)
    requires forall m | d < m < i :: !EndsXact(steps[m], p) && !About(steps[m], p, rel)
    ensures Key(rel, p) in states[i + 1].table <==> steps[d].DoListen?
  {
    hide Inv, Guard, Apply, EndsXact, SeesRow;
    SeesInXact(states, steps, d, i, p, rel);
    assert StepAt(states, steps, i);
    EveryRunKeepsInv(states, steps, i);
    CommitPublishes(states[i], steps[i], p, rel);
  }

  // ---------------------------------------------------------------- dead processes

  /** The row of a dead process is still to be visited, or has been removed from the copy of the table. */
  ghost predicate DeadHandled(s: State, p: Pid, k: Key)
    requires Holds(s, p) && p in s.backends && Committing(s.backends[p])
  {
    k in MainPc(s.backends[p].stack).todo || k !in s.lock.working
  }

  lemma DeadStaysDead(s: State, step: Step, q: Pid)
    requires Guard(s, step) && q !in s.backends && q in s.used
    ensures q !in Apply(s, step).backends && q in Apply(s, step).used
  {
  }

  /** A commit of p is under way that has NOTIFYed the name of a dead process' row. */
  ghost predicate DeadAt(s: State, p: Pid, k: Key) {
    && p in s.backends && Holds(s, p) && Committing(s.backends[p]) && k.rel in s.backends[p].pending
    && k.pid !in s.backends && k.pid in s.used && DeadHandled(s, p, k)
  }

  lemma DeadAtAcquire(s: State, p: Pid, k: Key)
    requires Inv(s) && Guard(s, CommitAcquire(p)) && k in s.table && k.pid !in s.backends
    requires k.rel in s.backends[p].pending
    ensures DeadAt(Apply(s, CommitAcquire(p)), p, k)
  {
    assert BackendOk(s.backends[p]) && s.backends[p].stack.Main?;
  }

  lemma DeadRemoved(s: State, p: Pid, key: Key, k: Key)
    requires Guard(s, CommitVisit(p, key)) && k.pid !in s.backends && k.rel in s.backends[p].pending
    ensures k !in s.lock.working || k == key ==> k !in Visit(s, p, key).lock.working
    ensures Holds(Visit(s, p, key), p) && k.pid !in Visit(s, p, key).backends && Visit(s, p, key).used == s.used
  {
  }

  lemma DeadAtVisit(s: State, p: Pid, key: Key, k: Key)
    requires Inv(s) && Guard(s, CommitVisit(p, key)) && DeadAt(s, p, k)
    ensures DeadAt(Apply(s, CommitVisit(p, key)), p, k)
  {
    assert BackendOk(s.backends[p]) && s.backends[p].stack.Main?;
    hide Inv;
    VisitMoves(s, p, key);
    VisitKeepsRest(s, p, key);
    DeadRemoved(s, p, key, k);
    hide Visit, VisitOwn;
  }

  lemma DeadAtWrite(s: State, p: Pid, k: Key)
    requires Inv(s) && Guard(s, CommitWrite(p)) && DeadAt(s, p, k)
    ensures DeadAt(Apply(s, CommitWrite(p)), p, k)
  {
    assert BackendOk(s.backends[p]) && s.backends[p].stack.Main?;
  }

  lemma DeadAtRun(s: State, step: Step, p: Pid, k: Key)
    requires Guard(s, step) && (step == Run(p) || step == Interrupt(p)) && DeadAt(s, p, k)
    ensures DeadAt(Apply(s, step), p, k)
  {
    if step.Run? {
      AdvanceKeepsHold(s.backends[p]);
      AdvanceKeepsCommit(s.backends[p]);
    }
  }

  lemma DeadAtQuiet(s: State, q: Pid, p: Pid, k: Key)
    requires Guard(s, CommitQuiet(q)) && DeadAt(s, p, k) && q != p
    ensures DeadAt(Apply(s, CommitQuiet(q)), p, k)
  {
  }

  lemma LockUntouched(s: State, step: Step, p: Pid)
    requires Guard(s, step) && Holds(s, p) && step.p != p && !step.CommitQuiet?
    ensures Apply(s, step).lock == s.lock
  {
  }

  lemma DeadAtOthers(s: State, step: Step, p: Pid, k: Key)
    requires Guard(s, step) && DeadAt(s, p, k) && step.p != p && !step.CommitQuiet?
    ensures DeadAt(Apply(s, step), p, k)
  {
    LockUntouched(s, step, p);
    OthersUntouched(s, step, p);
    DeadStaysDead(s, step, k.pid);
    hide Apply;
  }

  lemma StillCommitting(s: State, step: Step, p: Pid)
    requires Inv(s) && Guard(s, step) && step.p == p && p in s.backends && Committing(s.backends[p])
    requires p in Apply(s, step).backends && Committing(Apply(s, step).backends[p])
    ensures step.Run? || step.Interrupt? || step.CommitVisit? || step.CommitWrite?
  {
    hide Inv, Committing, Apply;
    if CommitStep(step) { CommitLeaves(s, step); }
    else if Command(step) { CommandOut(s, step); }
    else if step.ScanAcquire? || step.ScanRow? || step.ScanFinish? { ScanOut(s, step); }
    else if step.ScanAbort? { AbortOut(s, p); }
    else if step.Crash? { CrashEnds(s, p); }
  }

  lemma CommitLeaves(s: State, step: Step)
    requires Inv(s) && Guard(s, step) && CommitStep(step)
    ensures step.CommitVisit? || step.CommitWrite? || !Committing(Apply(s, step).backends[step.p])
      || (step.CommitAcquire? && !Committing(s.backends[step.p]))
  {
    if step.CommitAcquire? {
      CommitAtMain(s, step);
      hide Inv, Apply;
    } else if !step.CommitVisit? && !step.CommitWrite? {
      EndOut(s, step);
      hide Inv, Apply;
    }
  }

  lemma AbortOut(s: State, p: Pid)
    requires Guard(s, ScanAbort(p))
    ensures !Committing(Apply(s, ScanAbort(p)).backends[p])
  {
  }

  lemma StepKeepsDead(s: State, step: Step, p: Pid, k: Key)
    requires Inv(s) && Guard(s, step) && DeadAt(s, p, k)
    requires p in Apply(s, step).backends && Committing(Apply(s, step).backends[p])
    ensures DeadAt(Apply(s, step), p, k)
  {
    hide Inv, Committing, Apply, DeadHandled;
    if step.p != p {
      if step.CommitQuiet? { DeadAtQuiet(s, step.p, p, k); } else { DeadAtOthers(s, step, p, k); }
    } else {
      StillCommitting(s, step, p);
      if step.CommitVisit? { DeadAtVisit(s, p, step.key, k); }
      else if step.CommitWrite? { DeadAtWrite(s, p, k); }
      else { DeadAtRun(s, step, p, k); }
    }
  }

  lemma {:induction false} DeadInCommit(states: seq<State>, steps: seq<Step>, a: nat, i: nat, p: Pid, k: Key)
    requires IsRun(states, steps) && a < i < |states| && steps[a] == CommitAcquire(p) && p in states[a].backends
    requires forall m | a < m <= i :: p in states[m].backends && Committing(states[m].backends[p])
    requires k in states[a].table && k.pid !in states[a].backends && k.rel in states[a].backends[p].pending
    ensures DeadAt(states[i], p, k)
    decreases i
  {
    hide Inv, Guard, Apply, Committing, DeadAt;
    assert StepAt(states, steps, i - 1);
    EveryRunKeepsInv(states, steps, i - 1);
    if a == i - 1 {
      DeadAtAcquire(states[a], p, k);
    } else {
      DeadInCommit(states, steps, a, i - 1, p, k);
      StepKeepsDead(states[i - 1], steps[i - 1], p, k);
    }
  }

  lemma FinishDrops(s: State, p: Pid, k: Key)
    requires Inv(s) && Guard(s, CommitFinish(p)) && DeadAt(s, p, k)
    ensures k !in Apply(s, CommitFinish(p)).table
  {
    assert BackendOk(s.backends[p]) && s.backends[p].stack.Main?;
    hide Inv;
  }

  /** A commit removes the rows that it finds of dead processes: those of NOTIFYed names whose process was dead
      when the commit took the lock are gone when it ends. */
  lemma CommitCleans(states: seq<State>, steps: seq<Step>, a: nat, i: nat, p: Pid, k: Key)
    requires IsRun(states, steps) && a < i < |steps| && steps[a] == CommitAcquire(p) && steps[i] == CommitFinish(p)
    requires p in states[a].backends
    requires forall m | a < m <= i :: p in states[m].backends && Committing(states[m].backends[p])
    requires k in states[a].table && k.pid !in states[a].backends && k.rel in states[a].backends[p].pending
    ensures k !in states[i + 1].table
  {
    hide Inv, Guard, Apply, Committing, DeadAt;
    DeadInCommit(states, steps, a, i, p, k);
    assert StepAt(states, steps, i);
    EveryRunKeepsInv(states, steps, i);
    FinishDrops(states[i], p, k);
  }

  // ---------------------------------------------------------------- signals

  lemma OwnNoSignal(s: State, step: Step)
    requires Guard(s, step) && step.p in s.backends && step.p in Apply(s, step).backends
    ensures Apply(s, step).backends[step.p].signalled ==> s.backends[step.p].signalled
  {
    if Command(step) {
      CommandKeepsFlags(s, step);
      hide Apply;
    } else if step.Run? {
      AdvanceNoSignal(s.backends[step.p]);
    } else if step.CommitVisit? {
      VisitKeepsRest(s, step.p, step.key);
      hide Visit, VisitOwn;
    }
  }

  lemma AdvanceNoSignal(b: Backend)
    requires RunsAlone(b.stack)
    ensures Advance(b).signalled == b.signalled
  {
    if b.Top().InLoop() { LoopNoSignal(b); }
    else if InPrologue(b.stack) { PrologueNoSignal(b); }
  }

  lemma LoopNoSignal(b: Backend)
    requires b.Top().InLoop()
    ensures AdvanceLoop(b).signalled == b.signalled
  {
    match b.Top()
    case SetEnabled =>
    case TestOccurred =>
    case ClearEnabled =>
    case Retest =>
  }

  lemma PrologueNoSignal(b: Backend)
    requires InPrologue(b.stack)
    ensures AdvancePrologue(b).signalled == b.signalled
  {
    match b.Top()
    case HandlerEntry =>
    case HandlerDisable =>
    case HandlerMark =>
    case HandlerDefer =>
  }

  lemma OthersSignal(s: State, step: Step, p: Pid)
    requires Guard(s, step) && step.p != p && p in s.backends
    requires p in Apply(s, step).backends
    ensures Apply(s, step).backends[p].signalled ==>
      s.backends[p].signalled
      || (step.CommitVisit? && step.key.pid == p && step.key.rel in s.backends[step.p].pending)
  {
    match step
    case CommitVisit(_, _) =>
    case Crash(_) =>
    case Abort(_) =>
    case ScanAbort(_) =>
    case CommitQuiet(_) =>
    case ScanRow(_, _) =>
    case _ => assert Apply(s, step).backends == s.backends[step.p := Apply(s, step).backends[step.p]];
  }

  /** A backend is sent a signal only by a commit of another that has NOTIFYed a name the backend has a row for. */
  lemma SignalOrigin(states: seq<State>, steps: seq<Step>, i: nat, p: Pid)
    requires IsRun(states, steps) && i < |steps| && p in states[i].backends && p in states[i + 1].backends
    requires !states[i].backends[p].signalled && states[i + 1].backends[p].signalled
    ensures steps[i].CommitVisit? && steps[i].p != p && steps[i].key.pid == p
    ensures steps[i].p in states[i].backends && steps[i].key.rel in states[i].backends[steps[i].p].pending
  {
    assert StepAt(states, steps, i);
    if steps[i].p == p { OwnNoSignal(states[i], steps[i]); } else { OthersSignal(states[i], steps[i], p); }
  }
}
