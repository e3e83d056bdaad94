/**
  What the protocol guarantees over every run: no notification is lost, none is
  invented, and every signal is answered.
 */
module NotifyRuns {
  import opened Notify
  import opened NotifyBackend
  import opened NotifySafety

  ghost predicate StepAt(states: seq<State>, steps: seq<Step>, i: nat)
    requires |states| == |steps| + 1 && i < |steps|
  {
    Guard(states[i], steps[i]) && states[i + 1] == Apply(states[i], steps[i])
  }

  ghost predicate IsRun(states: seq<State>, steps: seq<Step>) {
    && |states| == |steps| + 1
    && states[0] == INITIAL
    && forall i | 0 <= i < |steps| :: StepAt(states, steps, i)
  }

  lemma StepKeepsInv(s: State, step: Step)
    requires Inv(s) && Guard(s, step)
    ensures Inv(Apply(s, step))
  {
    hide Inv, Guard, Apply;
    match step
    case Start(p) => StartKeepsInv(s, p);
    case Crash(p) => CrashKeepsInv(s, p);
    case Interrupt(p) => InterruptKeepsInv(s, p);
    case Run(p) => InstructionKeepsInv(s, p);
    case CommitQuiet(p) => QuietKeepsInv(s, p);
    case CommitAcquire(p) => CommitAcquireKeepsInv(s, p);
    case CommitVisit(p, key) => CommitVisitKeepsInv(s, p, key);
    case CommitWrite(p) => CommitWriteKeepsInv(s, p);
    case CommitFinish(p) => CommitFinishKeepsInv(s, p);
    case Abort(p) => AbortKeepsInv(s, p);
    case ScanAcquire(p) => ScanAcquireKeepsInv(s, p);
    case ScanRow(p, key) => ScanRowKeepsInv(s, p, key);
    case ScanFinish(p) => ScanFinishKeepsInv(s, p);
    case ScanAbort(p) => ScanAbortKeepsInv(s, p);
    case _ => CommandKeepsInv(s, step);
  }

  lemma {:induction false} EveryRunKeepsInv(states: seq<State>, steps: seq<Step>, i: nat)
    requires IsRun(states, steps) && i < |states|
    ensures Inv(states[i])
  {
    if i > 0 {
      hide Inv, Guard, Apply;
      assert StepAt(states, steps, i - 1);
      EveryRunKeepsInv(states, steps, i - 1);
      StepKeepsInv(states[i - 1], steps[i - 1]);
    }
  }

  /** In no state of any run is ProcessIncomingNotify active twice in one backend. */
  lemma NeverReentrant(states: seq<State>, steps: seq<Step>, i: nat, p: Pid)
    requires IsRun(states, steps) && i < |states| && p in states[i].backends
    ensures Processing(states[i].backends[p].stack) <= 1
    ensures Processing(states[i].backends[p].stack) == 1 ==>
      !states[i].backends[p].enabled && !states[i].backends[p].inXact
  {
    EveryRunKeepsInv(states, steps, i);
    assert BackendOk(states[i].backends[p]);
    ProcessNotReentrant(states[i].backends[p].stack);
  }

  /** ProcessIncomingNotify starts. */
  ghost predicate StartsScan(s: State, step: Step, p: Pid) {
    step == Run(p) && p in s.backends && s.backends[p].Top().ScanStart?
  }

  /** The last ProcessIncomingNotify of p has ended in an error. */
  ghost predicate LastScanFailed(states: seq<State>, steps: seq<Step>, i: nat, p: Pid)
    requires |states| == |steps| + 1 && i < |states|
  {
    exists m | 0 <= m < i :: steps[m] == ScanAbort(p) && NoScanStarts(states, steps, m, i, p)
  }

  ghost predicate NoScanStarts(states: seq<State>, steps: seq<Step>, m: nat, i: nat, p: Pid)
    requires |states| == |steps| + 1 && i < |states|
  {
    forall n | m < n < i :: !StartsScan(states[n], steps[n], p)
  }

  lemma OnlyAbortFails(s: State, step: Step, p: Pid)
    requires Guard(s, step) && p in Apply(s, step).backends && Apply(s, step).backends[p].failed
    ensures step == ScanAbort(p) || (p in s.backends && s.backends[p].failed && !StartsScan(s, step, p))
  {
    if p in s.backends {
      if step.p != p { OthersUntouched(s, step, p); }
      else if step.Run? { AdvanceFails(s.backends[p]); }
    }
  }

  lemma AdvanceFails(b: Backend)
    requires RunsAlone(b.stack)
    ensures Advance(b).failed == (b.failed && !b.Top().ScanStart?)
  {
    hide AdvanceLoop, AdvancePrologue;
    if b.Top().InLoop() { LoopServesNone(b); }
    else if InPrologue(b.stack) { PrologueServesNone(b); }
  }

  lemma {:induction false} FailedMeans(states: seq<State>, steps: seq<Step>, i: nat, p: Pid)
    requires IsRun(states, steps) && i < |states| && p in states[i].backends && states[i].backends[p].failed
    ensures LastScanFailed(states, steps, i, p)
  {
    hide Guard, Apply, StartsScan;
    if i > 0 {
      assert StepAt(states, steps, i - 1);
      OnlyAbortFails(states[i - 1], steps[i - 1], p);
      if steps[i - 1] == ScanAbort(p) {
        assert NoScanStarts(states, steps, i - 1, i, p);
      } else {
        FailedMeans(states, steps, i - 1, p);
        var m :| 0 <= m < i - 1 && steps[m] == ScanAbort(p) && NoScanStarts(states, steps, m, i - 1, p);
        assert NoScanStarts(states, steps, m, i, p);
      }
    }
  }

  /** A backend that waits for a command, with no signal on its way, has no notification left, unless its last
      scan has failed. */
  lemma IdleHasNoNotification(states: seq<State>, steps: seq<Step>, i: nat, k: Key)
    requires IsRun(states, steps) && i < |states|
    requires k.pid in states[i].backends && IsIdle(states[i].backends[k.pid]) && !states[i].backends[k.pid].signalled
    ensures k in states[i].table && states[i].table[k] != 0 ==> LastScanFailed(states, steps, i, k.pid)
  {
    EveryRunKeepsInv(states, steps, i);
    IdleIsClean(states[i].backends[k.pid]);
    assert k in states[i].table ==> Covered(states[i], k, states[i].table[k]);
    if states[i].backends[k.pid].failed { FailedMeans(states, steps, i, k.pid); }
  }

  /** Nothing is invented: a notification appears in the committed table only when its notifier
      commits a transaction that has NOTIFYed the name, never for the notifier itself, and only
      in a row that had none. */
  lemma RowOrigin(states: seq<State>, steps: seq<Step>, i: nat, k: Key)
    requires IsRun(states, steps) && i < |steps|
    requires k in states[i + 1].table && states[i + 1].table[k] != 0
    requires !(k in states[i].table && states[i].table[k] == states[i + 1].table[k])
    ensures var n := states[i + 1].table[k];
      && steps[i] == CommitFinish(n) && n != k.pid
      && n in states[i].backends && k.rel in states[i].backends[n].pending
      && k in states[i].table && states[i].table[k] == 0
  {
    hide Inv, Guard, Apply;
    assert StepAt(states, steps, i);
    EveryRunKeepsInv(states, steps, i);
    RowOriginStep(states[i], steps[i], k);
  }

  predicate WritesTable(step: Step) { step.CommitQuiet? || step.CommitFinish? || step.ScanFinish? }

  lemma OthersLeaveTable(s: State, step: Step)
    requires Guard(s, step) && !WritesTable(step)
    ensures Apply(s, step).table == s.table
  {
  }

  /** An unlistening or listening commit, and the end of a scan, only remove or clear rows, or add clear ones. */
  lemma NoNotificationAdded(s: State, step: Step, k: Key)
    requires Inv(s) && Guard(s, step) && (step.CommitQuiet? || step.ScanFinish?)
    requires k in Apply(s, step).table && Apply(s, step).table[k] != 0
    ensures k in s.table && s.table[k] == Apply(s, step).table[k]
  {
  }

  lemma RowOriginStep(s: State, step: Step, k: Key)
    requires Inv(s) && Guard(s, step)
    requires k in Apply(s, step).table && Apply(s, step).table[k] != 0
    requires !(k in s.table && s.table[k] == Apply(s, step).table[k])
    ensures var n := Apply(s, step).table[k];
      && step == CommitFinish(n) && n != k.pid
      && n in s.backends && k.rel in s.backends[n].pending
      && k in s.table && s.table[k] == 0
  {
    hide Inv, Apply;
    if step.CommitFinish? { CommitOrigin(s, step.p, k); }
    else if WritesTable(step) { NoNotificationAdded(s, step, k); }
    else { OthersLeaveTable(s, step); }
  }

  lemma CommitOrigin(s: State, p: Pid, k: Key)
    requires Inv(s) && Guard(s, CommitFinish(p))
    requires k in Apply(s, CommitFinish(p)).table && Apply(s, CommitFinish(p)).table[k] != 0
    requires !(k in s.table && s.table[k] == Apply(s, CommitFinish(p)).table[k])
    ensures Apply(s, CommitFinish(p)).table[k] == p && p != k.pid && k.rel in s.backends[p].pending
    ensures k in s.table && s.table[k] == 0
  {
    assert k in s.lock.working && s.lock.working[k] == Apply(s, CommitFinish(p)).table[k];
  }

  // ---------------------------------------------------------------- no notification is lost

  /** p commits an UNLISTEN of the row's name. */
  ghost predicate Unlistens(s: State, step: Step, k: Key) {
    (step == CommitQuiet(k.pid) || step == CommitFinish(k.pid)) && k.pid in s.backends &&
      k.rel in s.backends[k.pid].unlistens
  }

  /** A pending notification of a live listener stays in its row until the listener has sent it
      to its frontend, or has given up listening. */
  lemma RowFate(s: State, step: Step, k: Key)
    requires Inv(s) && Guard(s, step)
    requires k in s.table && s.table[k] != 0 && k.pid in s.backends && k.pid in Apply(s, step).backends
    requires !Unlistens(s, step, k)
    ensures || (k in Apply(s, step).table && Apply(s, step).table[k] == s.table[k])
            || (step == ScanFinish(k.pid) && Scanning(s.backends[k.pid])
                && FindScan(s.backends[k.pid].stack).base <= |s.backends[k.pid].inbox|
                && Message(k.rel, s.table[k]) in s.backends[k.pid].inbox[FindScan(s.backends[k.pid].stack).base..])
  {
    hide Inv;
    if step.CommitFinish? { CommitPreservesRow(s, step.p, k); }
    else if step.ScanFinish? { ScanReports(s, step.p, k); }
    else if step.CommitQuiet? { QuietPreservesRow(s, step.p, k); }
    else if !WritesTable(step) { OthersLeaveTable(s, step); }
  }

  lemma QuietPreservesRow(s: State, p: Pid, k: Key)
    requires Inv(s) && Guard(s, CommitQuiet(p)) && k in s.table && !Unlistens(s, CommitQuiet(p), k)
    ensures k in Apply(s, CommitQuiet(p)).table && Apply(s, CommitQuiet(p)).table[k] == s.table[k]
  {
    hide BackendsOk, RowsOk, CommitterOk, ScannerOk, LockOk;
  }

  lemma ScanReports(s: State, p: Pid, k: Key)
    requires Inv(s) && Guard(s, ScanFinish(p)) && k in s.table && s.table[k] != 0
    ensures || (k in Apply(s, ScanFinish(p)).table && Apply(s, ScanFinish(p)).table[k] == s.table[k])
            || (p == k.pid && Scanning(s.backends[p])
                && FindScan(s.backends[p].stack).base <= |s.backends[p].inbox|
                && Message(k.rel, s.table[k]) in s.backends[p].inbox[FindScan(s.backends[p].stack).base..])
  {
    hide BackendsOk, ListensOk, RowsOk, CommitterOk;
  }

  lemma CommitPreservesRow(s: State, p: Pid, k: Key)
    requires Inv(s) && Guard(s, CommitFinish(p))
    requires k in s.table && s.table[k] != 0 && k.pid in s.backends
    requires !Unlistens(s, CommitFinish(p), k)
    ensures k in Apply(s, CommitFinish(p)).table && Apply(s, CommitFinish(p)).table[k] == s.table[k]
  {
    assert k in s.lock.working && s.lock.working[k] == s.table[k];
  }

  /** Messages already sent stay sent, and a scan remembers how many there were when it began. */
  ghost predicate InboxGrows(b: Backend, b': Backend) {
    && b.inbox <= b'.inbox
    && (Scanning(b') ==> if Scanning(b) then FindScan(b'.stack).base == FindScan(b.stack).base
                         else FindScan(b'.stack).base == |b.inbox|)
  }

  lemma OthersUntouched(s: State, step: Step, p: Pid)
    requires Guard(s, step) && step.p != p && p in s.backends
    ensures p in Apply(s, step).backends
    ensures Apply(s, step).backends[p] == s.backends[p]
      || Apply(s, step).backends[p] == s.backends[p].(signalled := true)
  {
    match step
    case CommitVisit(_, key) => assert Apply(s, step) == Visit(s, step.p, key);
    case Crash(_) =>
    case Abort(_) =>
    case ScanAbort(_) =>
    case CommitQuiet(_) =>
    case ScanRow(_, _) =>
    case _ => assert Apply(s, step).backends == s.backends[step.p := Apply(s, step).backends[step.p]];
  }

  predicate CommitStep(step: Step) {
    step.CommitQuiet? || step.CommitAcquire? || step.CommitVisit? || step.CommitWrite? || step.CommitFinish? ||
      step.Abort?
  }

  lemma CommitStaysMain(s: State, step: Step)
    requires Guard(s, step) && CommitStep(step) && s.backends[step.p].stack.Main?
    ensures step.p in Apply(s, step).backends
    ensures Apply(s, step).backends[step.p].stack.Main? && !Apply(s, step).backends[step.p].Top().Scan?
    ensures s.backends[step.p].inbox <= Apply(s, step).backends[step.p].inbox
  {
    match step
    case CommitQuiet(p) =>
    case CommitAcquire(p) =>
    case CommitVisit(p, key) =>
      VisitMoves(s, p, key);
      VisitTells(s, p, key);
    case CommitWrite(p) =>
    case CommitFinish(p) =>
    case Abort(p) =>
  }

  lemma CommitAtMain(s: State, step: Step)
    requires Inv(s) && Guard(s, step) && CommitStep(step)
    ensures step.p in s.backends && s.backends[step.p].stack.Main?
  {
    assert BackendOk(s.backends[step.p]);
  }

  lemma CommitGrows(s: State, step: Step)
    requires Inv(s) && Guard(s, step) && CommitStep(step)
    ensures step.p in Apply(s, step).backends && InboxGrows(s.backends[step.p], Apply(s, step).backends[step.p])
  {
    CommitAtMain(s, step);
    hide Inv, Apply;
    CommitStaysMain(s, step);
  }

  lemma CommandGrows(s: State, step: Step)
    requires Inv(s) && Guard(s, step) && Command(step)
    ensures step.p in Apply(s, step).backends && InboxGrows(s.backends[step.p], Apply(s, step).backends[step.p])
  {
    hide Inv, Apply;
    CommandAtMain(s, step);
    CommandMoves(s, step, s.backends[step.p], Apply(s, step).backends[step.p]);
  }

  lemma ScanStepGrows(s: State, step: Step)
    requires LockOk(s) && Guard(s, step) && (step.ScanAcquire? || step.ScanRow?)
    ensures InboxGrows(s.backends[step.p], Apply(s, step).backends[step.p])
  {
    assert step.ScanAcquire? ==> !Holds(s, step.p);
  }

  lemma ScanFinishGrows(s: State, p: Pid)
    requires BackendsOk(s) && Guard(s, ScanFinish(p))
    ensures InboxGrows(s.backends[p], Apply(s, ScanFinish(p)).backends[p])
  {
    var b := s.backends[p];
    ScanKeeps(b, {}, 0, []);
    if b.stack.Handler? { NoScanBelow(b.stack.below); }
  }

  lemma HandlerGrows(s: State, step: Step)
    requires Guard(s, step) && (step.Run? || step.Interrupt?)
    ensures InboxGrows(s.backends[step.p], Apply(s, step).backends[step.p])
  {
    if step.Run? { AdvanceKeepsHold(s.backends[step.p]); }
  }

  lemma EveryStepGrows(s: State, step: Step, p: Pid)
    requires Inv(s) && Guard(s, step) && p in s.backends && p in Apply(s, step).backends
    ensures InboxGrows(s.backends[p], Apply(s, step).backends[p])
  {
    if step.p != p { OthersUntouched(s, step, p); }
    else if step.Run? || step.Interrupt? { HandlerGrows(s, step); }
    else if step.ScanFinish? { ScanFinishGrows(s, p); }
    else if step.ScanAcquire? || step.ScanRow? { ScanStepGrows(s, step); }
    else if step.ScanAbort? { assert BackendOk(s.backends[p]); }
    else if Command(step) { CommandGrows(s, step); }
    else if CommitStep(step) { CommitGrows(s, step); }
  }

  /** The notification n of row k is still in its row, or has been sent since the listener had
      sent `from` messages. */
  ghost predicate Accounted(s: State, k: Key, n: Pid, from: nat)
    requires k.pid in s.backends
  {
    var b := s.backends[k.pid];
    from <= |b.inbox| &&
    (|| Message(k.rel, n) in b.inbox[from..]
     || (k in s.table && s.table[k] == n && (Scanning(b) ==> from <= FindScan(b.stack).base)))
  }

  lemma StepKeepsAccounted(s: State, step: Step, k: Key, n: Pid, from: nat)
    requires Inv(s) && Guard(s, step) && n != 0
    requires k.pid in s.backends && k.pid in Apply(s, step).backends
    requires Accounted(s, k, n, from) && !Unlistens(s, step, k)
    ensures Accounted(Apply(s, step), k, n, from)
  {
    var b, b' := s.backends[k.pid], Apply(s, step).backends[k.pid];
    EveryStepGrows(s, step, k.pid);
    assert b'.inbox[from..][..|b.inbox| - from] == b.inbox[from..];
    if Message(k.rel, n) !in b.inbox[from..] {
      RowFate(s, step, k);
    }
  }

  lemma {:induction false} RunKeepsAccounted(states: seq<State>, steps: seq<Step>, i: nat, j: nat, k: Key)
    requires IsRun(states, steps) && i <= j < |states|
    requires forall m | i <= m <= j :: k.pid in states[m].backends
    requires forall m | i <= m < j :: !Unlistens(states[m], steps[m], k)
    requires k in states[i].table && states[i].table[k] != 0 && !Scanning(states[i].backends[k.pid])
    ensures Accounted(states[j], k, states[i].table[k], |states[i].backends[k.pid].inbox|)
  {
    if i < j {
      hide Inv, Guard, Apply, Unlistens;
      assert StepAt(states, steps, j - 1);
      RunKeepsAccounted(states, steps, i, j - 1, k);
      EveryRunKeepsInv(states, steps, j - 1);
      StepKeepsAccounted(states[j - 1], steps[j - 1], k, states[i].table[k], |states[i].backends[k.pid].inbox|);
    }
  }

  /** No notification is lost: whatever the other backends do, by the time the listener is idle
      with no signal on its way it has reported the notification to its frontend, unless its
      last scan has failed. */
  lemma NeverLost(states: seq<State>, steps: seq<Step>, i: nat, j: nat, k: Key)
    requires IsRun(states, steps) && i <= j < |states|
    requires forall m | i <= m <= j :: k.pid in states[m].backends
    requires forall m | i <= m < j :: !Unlistens(states[m], steps[m], k)
    requires k in states[i].table && states[i].table[k] != 0 && !Scanning(states[i].backends[k.pid])
    requires IsIdle(states[j].backends[k.pid]) && !states[j].backends[k.pid].signalled
    ensures !LastScanFailed(states, steps, j, k.pid) ==>
      var before, after := states[i].backends[k.pid].inbox, states[j].backends[k.pid].inbox;
      |before| <= |after| && Message(k.rel, states[i].table[k]) in after[|before|..]
  {
    RunKeepsAccounted(states, steps, i, j, k);
    IdleHasNoNotification(states, steps, j, k);
  }

  // ---------------------------------------------------------------- every signal is answered

  lemma LoopServesNone(b: Backend)
    requires b.Top().InLoop()
    ensures AdvanceLoop(b).delivered == b.delivered && AdvanceLoop(b).served == b.served
    ensures AdvanceLoop(b).failed == b.failed
  {
    match b.Top()
    case SetEnabled =>
    case TestOccurred =>
    case ClearEnabled =>
    case Retest =>
  }

  lemma PrologueServesNone(b: Backend)
    requires InPrologue(b.stack)
    ensures AdvancePrologue(b).delivered == b.delivered && AdvancePrologue(b).served == b.served
    ensures AdvancePrologue(b).failed == b.failed
  {
    match b.Top()
    case HandlerEntry =>
    case HandlerDisable =>
    case HandlerMark =>
    case HandlerDefer =>
  }

  lemma AdvanceServes(b: Backend)
    requires RunsAlone(b.stack)
    ensures Advance(b).delivered == b.delivered
    ensures !b.Top().ScanStart? ==> Advance(b).served == b.served
  {
    hide AdvanceLoop, AdvancePrologue;
    if b.Top().InLoop() { LoopServesNone(b); }
    else if InPrologue(b.stack) { PrologueServesNone(b); }
  }

  lemma CommitServesNone(s: State, step: Step)
    requires Guard(s, step) && CommitStep(step) && step.p in Apply(s, step).backends
    ensures Apply(s, step).backends[step.p].served == s.backends[step.p].served
    ensures Apply(s, step).backends[step.p].delivered == s.backends[step.p].delivered
  {
    match step
    case CommitVisit(p, key) =>
      VisitKeepsRest(s, p, key);
      hide Visit;
    case CommitQuiet(_) =>
    case CommitAcquire(_) =>
    case CommitWrite(_) =>
    case CommitFinish(_) =>
    case Abort(_) =>
  }

  lemma OthersServeNone(s: State, step: Step)
    requires Guard(s, step) && !step.Run? && step.p in s.backends && step.p in Apply(s, step).backends
    ensures Apply(s, step).backends[step.p].served == s.backends[step.p].served
    ensures s.backends[step.p].delivered <= Apply(s, step).backends[step.p].delivered
  {
    if Command(step) {
      CommandKeepsFlags(s, step);
      hide Apply;
    } else if CommitStep(step) {
      CommitServesNone(s, step);
      hide Apply;
    }
  }

  lemma OnlyScansServe(s: State, step: Step, p: Pid)
    requires Guard(s, step) && p in s.backends && p in Apply(s, step).backends
    ensures s.backends[p].delivered <= Apply(s, step).backends[p].delivered
    ensures !StartsScan(s, step, p) ==> Apply(s, step).backends[p].served == s.backends[p].served
  {
    if step.p != p {
      OthersUntouched(s, step, p);
      hide Apply;
    } else {
      if step.Run? { AdvanceServes(s.backends[p]); }
      else { OthersServeNone(s, step); }
    }
  }

  lemma InterruptUnanswered(s: State, p: Pid)
    requires Inv(s) && Guard(s, Interrupt(p))
    ensures Apply(s, Interrupt(p)).backends[p].served < Apply(s, Interrupt(p)).backends[p].delivered
  {
    assert BackendOk(s.backends[p]);
  }

  lemma {:induction false} UnansweredStays(states: seq<State>, steps: seq<Step>, i: nat, j: nat, p: Pid)
    requires IsRun(states, steps) && i < j < |states| && steps[i] == Interrupt(p)
    requires forall m | i <= m <= j :: p in states[m].backends
    requires forall m | i < m < j :: !StartsScan(states[m], steps[m], p)
    ensures states[j].backends[p].served < states[j].backends[p].delivered
  {
    hide Inv, Guard, Apply, StartsScan;
    assert StepAt(states, steps, j - 1);
    if i + 1 == j {
      EveryRunKeepsInv(states, steps, i);
      InterruptUnanswered(states[i], p);
    } else {
      UnansweredStays(states, steps, i, j - 1, p);
      OnlyScansServe(states[j - 1], steps[j - 1], p);
    }
  }

  /** Every signal that reaches the handler is followed by a scan that starts after it: the
      backend cannot be idle again before. */
  lemma SignalAnswered(states: seq<State>, steps: seq<Step>, i: nat, j: nat, p: Pid)
    requires IsRun(states, steps) && i < j < |states| && steps[i] == Interrupt(p)
    requires forall m | i <= m <= j :: p in states[m].backends
    requires IsIdle(states[j].backends[p])
    ensures exists m | i < m < j :: StartsScan(states[m], steps[m], p)
  {
    if forall m | i < m < j :: !StartsScan(states[m], steps[m], p) {
      UnansweredStays(states, steps, i, j, p);
      EveryRunKeepsInv(states, steps, j);
      IdleIsClean(states[j].backends[p]);
    }
  }
}
