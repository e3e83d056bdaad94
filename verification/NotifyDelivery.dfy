/**
  A committed NOTIFY reaches every listener: the commit loop marks or tells each
  of them, and what is marked is reported.
 */
module NotifyDelivery {
  import opened Notify
  import opened NotifyBackend
  import opened NotifySafety
  import opened NotifyRuns

  /** A commit is going through the table. */
  ghost predicate Underway(s: State) {
    s.lock.Held? && s.lock.holder in s.backends && Committing(s.backends[s.lock.holder])
  }

  /** The row of another live listener of a NOTIFYed name that the loop has been at. */
  ghost predicate Visited(s: State, k: Key)
    requires Underway(s)
  {
    var h, b := s.lock.holder, s.backends[s.lock.holder];
    var pc := MainPc(b.stack);
    && k in s.lock.began && k.rel in b.pending && k.pid in s.backends && k.pid != h
    && k !in pc.todo && !(pc.CommitRow? && pc.key == k)
  }

  ghost predicate Marked(s: State, k: Key)
    requires s.lock.Held?
  {
    k in s.lock.working && s.lock.working[k] != 0
  }

  /** The notifier has told its own frontend of the name, or has still to come to the row. */
  ghost predicate Told(b: Backend, h: Pid, from: nat, rel: Rel)
    requires Committing(b) && from <= |b.inbox|
  {
    Key(rel, h) in MainPc(b.stack).todo || Message(rel, h) in b.inbox[from..]
  }

  /** What the commit loop has done so far: rows of others are marked, rows of its own are reported. */
  ghost predicate ProgressOk(s: State) {
    Underway(s) ==>
      var h, b := s.lock.holder, s.backends[s.lock.holder];
      && s.lock.began <= s.table.Keys && s.lock.from <= |b.inbox|
      && (forall k | Visited(s, k) :: Marked(s, k))
      && (forall rel | rel in b.pending && SeesRow(s.table, b, Key(rel, h)) :: Told(b, h, s.lock.from, rel))
  }

  ghost predicate SameCommit(b: Backend, b': Backend) {
    && MainPc(b'.stack) == MainPc(b.stack) && b'.inbox == b.inbox
    && b'.pending == b.pending && b'.listens == b.listens && b'.unlistens == b.unlistens
  }

  /** Steps that leave table, lock and the holder's place in the loop alone. */
  lemma FrameKeepsProgress(s: State, s': State)
    requires ProgressOk(s)
    requires Underway(s') ==>
      && Underway(s) && s'.lock == s.lock && s'.table == s.table
      && SameCommit(s.backends[s.lock.holder], s'.backends[s.lock.holder])
      && forall k | k in s.lock.began && k.pid in s'.backends :: k.pid in s.backends
    ensures ProgressOk(s')
  {
    if Underway(s') {
      forall k | Visited(s', k) ensures Marked(s', k) { assert Visited(s, k) && Marked(s, k); }
      var h, b, b' := s.lock.holder, s.backends[s.lock.holder], s'.backends[s.lock.holder];
      forall rel | rel in b'.pending && SeesRow(s'.table, b', Key(rel, h)) ensures Told(b', h, s.lock.from, rel) {
        assert SeesRow(s.table, b, Key(rel, h)) && Told(b, h, s.lock.from, rel);
      }
    }
  }

  lemma AdvanceKeepsCommit(b: Backend)
    requires RunsAlone(b.stack) && MainPc(b.stack).InCommit()
    ensures SameCommit(b, Advance(b))
  {
    AdvanceMoves(b);
    hide Advance;
  }

  lemma InterruptKeepsProgress(s: State, step: Step)
    requires Inv(s) && ProgressOk(s) && Guard(s, step) && (step.Run? || step.Interrupt?)
    ensures ProgressOk(Apply(s, step))
  {
    var s' := Apply(s, step);
    if Underway(s') {
      if s.lock.holder == step.p && step.Run? {
        AdvanceKeepsHold(s.backends[step.p]);
        AdvanceKeepsCommit(s.backends[step.p]);
      }
      FrameKeepsProgress(s, s');
    }
  }

  lemma StartKeepsProgress(s: State, p: Pid)
    requires Inv(s) && ProgressOk(s) && Guard(s, Start(p))
    ensures ProgressOk(Apply(s, Start(p)))
  {
    var s' := Apply(s, Start(p));
    if Underway(s') {
      assert forall k | k in s.lock.began && k.pid in s'.backends :: k.pid in s.backends;
      FrameKeepsProgress(s, s');
    }
  }

  lemma CrashKeepsProgress(s: State, p: Pid)
    requires ProgressOk(s) && Guard(s, Crash(p))
    ensures ProgressOk(Apply(s, Crash(p)))
  {
    FrameKeepsProgress(s, Apply(s, Crash(p)));
  }

  lemma CommandKeepsProgress(s: State, step: Step)
    requires Inv(s) && ProgressOk(s) && Guard(s, step) && Command(step)
    ensures ProgressOk(Apply(s, step))
  {
    CommandAtMain(s, step);
    assert !Holds(s, step.p);
    hide Inv, XactOk;
    CommandMoves(s, step, s.backends[step.p], Apply(s, step).backends[step.p]);
    hide Apply;
    FrameKeepsProgress(s, Apply(s, step));
  }

  lemma AbortKeepsProgress(s: State, p: Pid)
    requires ProgressOk(s) && Guard(s, Abort(p))
    ensures ProgressOk(Apply(s, Abort(p)))
  {
    FrameKeepsProgress(s, Apply(s, Abort(p)));
  }

  lemma ScanAbortKeepsProgress(s: State, p: Pid)
    requires ProgressOk(s) && Guard(s, ScanAbort(p))
    ensures ProgressOk(Apply(s, ScanAbort(p)))
  {
    FrameKeepsProgress(s, Apply(s, ScanAbort(p)));
  }

  lemma ScanKeepsProgress(s: State, step: Step)
    requires Inv(s) && Guard(s, step) && (step.ScanAcquire? || step.ScanRow? || step.ScanFinish?)
    ensures ProgressOk(Apply(s, step))
  {
    NotUnderway(s, step);
    hide Apply;
  }

  lemma NotUnderway(s: State, step: Step)
    requires Inv(s) && Guard(s, step) && (step.ScanAcquire? || step.ScanRow? || step.ScanFinish?)
    ensures !Underway(Apply(s, step))
  {
    hide Inv, Committing;
    ScanOut(s, step);
  }

  // ---------------------------------------------------------------- the commit loop

  lemma AcquireStartsProgress(s: State, p: Pid)
    requires Inv(s) && Guard(s, CommitAcquire(p))
    ensures ProgressOk(Apply(s, CommitAcquire(p)))
  {
    var s' := Apply(s, CommitAcquire(p));
    assert BackendOk(s.backends[p]);
    assert s.backends[p].stack.Main?;
  }

  /** The holder goes on: what was done stays done, and the row at hand is done now. */
  lemma LoopKeepsProgress(s: State, s': State, key: Key)
    requires ProgressOk(s) && Underway(s) && Underway(s') && s'.table == s.table
    requires s'.lock == s.lock.(working := s'.lock.working) && s'.backends.Keys == s.backends.Keys
    requires var b, b' := s.backends[s.lock.holder], s'.backends[s.lock.holder];
      && b'.pending == b.pending && b'.listens == b.listens && b'.unlistens == b.unlistens && b.inbox <= b'.inbox
      && MainPc(b.stack).todo - {key} <= MainPc(b'.stack).todo
      && (key.pid == s.lock.holder && key.rel in b.pending ==> Message(key.rel, key.pid) in b'.inbox[|b.inbox|..])
      && (MainPc(b.stack).CommitRow? ==> MainPc(b.stack).key == key)
    requires forall k | k != key && Marked(s, k) :: k.pid !in s.backends || Marked(s', k)
    requires Visited(s', key) ==> Marked(s', key)
    ensures ProgressOk(s')
  {
    var h, from, b, b' := s.lock.holder, s.lock.from, s.backends[s.lock.holder], s'.backends[s.lock.holder];
    forall k | Visited(s', k) ensures Marked(s', k) {
      if k != key { assert Visited(s, k) && Marked(s, k); }
    }
    assert b'.inbox[from..] == b.inbox[from..] + b'.inbox[|b.inbox|..];
    forall rel | rel in b'.pending && SeesRow(s'.table, b', Key(rel, h)) ensures Told(b', h, from, rel) {
      assert SeesRow(s.table, b, Key(rel, h)) && Told(b, h, from, rel);
    }
  }

  lemma VisitKeepsProgress(s: State, p: Pid, key: Key)
    requires Inv(s) && ProgressOk(s) && Guard(s, CommitVisit(p, key))
    ensures ProgressOk(Apply(s, CommitVisit(p, key)))
  {
    assert BackendOk(s.backends[p]) && s.backends[p].stack.Main?;
    if key in s.lock.began && key.pid in s.backends { WorkingHas(s, key); }
    hide Inv;
    VisitKeepsTable(s, p, key);
    VisitMoves(s, p, key);
    VisitKeepsRest(s, p, key);
    VisitTells(s, p, key);
    VisitMarks(s, p, key);
    VisitAtHand(s, p, key);
    hide ProgressOk, Visit;
    var b, b' := s.backends[p], Visit(s, p, key).backends[p];
    assert b'.inbox[|b.inbox|..] == if key.pid == p && key.rel in b.pending then [Message(key.rel, p)] else [];
    LoopKeepsProgress(s, Visit(s, p, key), key);
  }

  lemma WorkingHas(s: State, k: Key)
    requires Inv(s) && ProgressOk(s) && Underway(s) && k in s.lock.began && k.pid in s.backends
    ensures k in s.lock.working
  {
  }

  lemma VisitMarks(s: State, p: Pid, key: Key)
    requires Guard(s, CommitVisit(p, key))
    ensures forall k | k != key && Marked(s, k) :: Marked(Visit(s, p, key), k)
  {
  }

  lemma VisitAtHand(s: State, p: Pid, key: Key)
    requires Guard(s, CommitVisit(p, key)) && s.backends[p].stack.Main?
    requires key in s.lock.began && key.pid in s.backends ==> key in s.lock.working
    ensures Underway(Visit(s, p, key)) && !Visited(Visit(s, p, key), key)
  {
  }

  lemma WriteKeepsProgress(s: State, p: Pid)
    requires Inv(s) && ProgressOk(s) && Guard(s, CommitWrite(p))
    ensures ProgressOk(Apply(s, CommitWrite(p)))
  {
    var b, s' := s.backends[p], Apply(s, CommitWrite(p));
    assert BackendOk(b) && b.stack.Main?;
    LoopKeepsProgress(s, s', b.Top().key);
  }

  lemma QuietKeepsProgress(s: State, p: Pid)
    requires Inv(s) && ProgressOk(s) && Guard(s, CommitQuiet(p))
    ensures ProgressOk(Apply(s, CommitQuiet(p)))
  {
    var s' := Apply(s, CommitQuiet(p));
    assert BackendOk(s.backends[p]) && s.backends[p].stack == Main(Cmd) && !Holds(s, p);
    if Underway(s') {
      forall k | Visited(s', k) ensures Marked(s', k) {
        assert Visited(s, k) && Marked(s, k);
      }
      var h, b := s.lock.holder, s.backends[s.lock.holder];
      forall rel | rel in b.pending && SeesRow(s'.table, b, Key(rel, h)) ensures Told(b, h, s.lock.from, rel) {
        assert SeesRow(s.table, b, Key(rel, h));
      }
    }
  }

  lemma StepKeepsProgress(s: State, step: Step)
    requires Inv(s) && ProgressOk(s) && Guard(s, step)
    ensures ProgressOk(Apply(s, step))
  {
    hide Inv, Guard, Apply, ProgressOk;
    match step
    case Start(p) => StartKeepsProgress(s, p);
    case Crash(p) => CrashKeepsProgress(s, p);
    case Interrupt(_) => InterruptKeepsProgress(s, step);
    case Run(_) => InterruptKeepsProgress(s, step);
    case CommitQuiet(p) => QuietKeepsProgress(s, p);
    case CommitAcquire(p) => AcquireStartsProgress(s, p);
    case CommitVisit(p, key) => VisitKeepsProgress(s, p, key);
    case CommitWrite(p) => WriteKeepsProgress(s, p);
    case CommitFinish(p) => FinishKeepsProgress(s, p);
    case Abort(p) => AbortKeepsProgress(s, p);
    case ScanAcquire(_) => ScanKeepsProgress(s, step);
    case ScanRow(_, _) => ScanKeepsProgress(s, step);
    case ScanFinish(_) => ScanKeepsProgress(s, step);
    case ScanAbort(p) => ScanAbortKeepsProgress(s, p);
    case _ => CommandKeepsProgress(s, step);
  }

  lemma FinishKeepsProgress(s: State, p: Pid)
    requires Guard(s, CommitFinish(p))
    ensures ProgressOk(Apply(s, CommitFinish(p)))
  {
  }

  lemma {:induction false} EveryRunKeepsProgress(states: seq<State>, steps: seq<Step>, i: nat)
    requires IsRun(states, steps) && i < |states|
    ensures ProgressOk(states[i])
  {
    if i > 0 {
      hide Inv, ProgressOk, Guard, Apply;
      assert StepAt(states, steps, i - 1);
      EveryRunKeepsProgress(states, steps, i - 1);
      EveryRunKeepsInv(states, steps, i - 1);
      StepKeepsProgress(states[i - 1], steps[i - 1]);
    }
  }

  // ---------------------------------------------------------------- what a commit has done

  /** Every other live listener of a NOTIFYed name, if it was there when the commit took the lock and has not
      given up since, has a notification in the committed table. */
  lemma CommitMarks(s: State, p: Pid, k: Key)
    requires Inv(s) && ProgressOk(s) && Guard(s, CommitFinish(p))
    requires k in s.lock.began && k.rel in s.backends[p].pending && k.pid in s.backends && k.pid != p
    ensures k in Apply(s, CommitFinish(p)).table && Apply(s, CommitFinish(p)).table[k] != 0
  {
    assert BackendOk(s.backends[p]) && s.backends[p].stack.Main?;
    assert Visited(s, k);
  }

  /** And the notifier's own frontend has been told of the names it listens to itself. */
  lemma CommitTells(s: State, p: Pid, rel: Rel)
    requires Inv(s) && ProgressOk(s) && Guard(s, CommitFinish(p))
    requires rel in s.backends[p].pending && SeesRow(s.table, s.backends[p], Key(rel, p))
    ensures s.lock.from <= |s.backends[p].inbox| && Message(rel, p) in s.backends[p].inbox[s.lock.from..]
  {
    assert BackendOk(s.backends[p]) && s.backends[p].stack.Main?;
    assert Told(s.backends[p], p, s.lock.from, rel);
  }

  // ---------------------------------------------------------------- from NOTIFY to commit

  predicate EndsXact(step: Step, p: Pid) {
    step == CommitQuiet(p) || step == CommitFinish(p) || step == Abort(p) || step == Crash(p)
  }

  /** Until the transaction ends a NOTIFYed name stays pending. */
  lemma StepKeepsPending(s: State, step: Step, p: Pid, rel: Rel)
    requires Guard(s, step) && p in s.backends && rel in s.backends[p].pending && !EndsXact(step, p)
    ensures p in Apply(s, step).backends && rel in Apply(s, step).backends[p].pending
  {
    if step.p != p {
      OthersUntouched(s, step, p);
      hide Apply;
    } else {
      match step
      case Run(_) => AdvanceMoves(s.backends[p]);
      case CommitVisit(_, key) => VisitKeepsRest(s, p, key);
      case _ =>
    }
  }

  lemma {:induction false} PendingStays(states: seq<State>, steps: seq<Step>, d: nat, i: nat, p: Pid, rel: Rel)
    requires IsRun(states, steps) && d < i < |states| && steps[d] == DoNotify(p, rel)
    requires forall m | d < m < i :: !EndsXact(steps[m], p)
    ensures p in states[i].backends && rel in states[i].backends[p].pending
  {
    assert StepAt(states, steps, i - 1);
    if d < i - 1 {
      hide Guard, Apply;
      PendingStays(states, steps, d, i - 1, p, rel);
      StepKeepsPending(states[i - 1], steps[i - 1], p, rel);
    }
  }

  /** A commit starts to go through the table by taking the lock, in no other way. */
  lemma OnlyAcquireCommits(s: State, step: Step, p: Pid)
    requires Inv(s) && Guard(s, step) && p in s.backends && p in Apply(s, step).backends
    requires !Committing(s.backends[p]) && Committing(Apply(s, step).backends[p])
    ensures step == CommitAcquire(p)
  {
    if step.p != p {
      OthersUntouched(s, step, p);
    } else if step != CommitAcquire(p) {
      hide Inv, Apply, Committing;
      StaysOut(s, step);
    }
  }

  lemma StaysOut(s: State, step: Step)
    requires Inv(s) && Guard(s, step) && step.p in s.backends && step.p in Apply(s, step).backends
    requires !Committing(s.backends[step.p]) && !step.CommitAcquire?
    ensures !Committing(Apply(s, step).backends[step.p])
  {
    hide Inv, Apply, Committing;
    match step
    case Run(_) => HandlerOut(s, step);
    case Interrupt(_) => HandlerOut(s, step);
    case CommitVisit(p, _) => InLoopAlready(s, p);
    case CommitWrite(p) => InLoopAlready(s, p);
    case CommitQuiet(p) => EndOut(s, step);
    case CommitFinish(p) => EndOut(s, step);
    case Abort(p) => EndOut(s, step);
    case ScanAcquire(p) => ScanOut(s, step);
    case ScanRow(p, _) => ScanOut(s, step);
    case ScanFinish(p) => ScanOut(s, step);
    case ScanAbort(_) => HandlerOut(s, step);
    case Crash(p) => CrashEnds(s, p);
    case Start(_) =>
    case _ => CommandOut(s, step);
  }

  lemma HandlerOut(s: State, step: Step)
    requires Guard(s, step) && (step.Run? || step.Interrupt? || step.ScanAbort?) && !Committing(s.backends[step.p])
    ensures !Committing(Apply(s, step).backends[step.p])
  {
    if step.Run? { AdvanceKeepsHold(s.backends[step.p]); }
  }

  lemma CrashEnds(s: State, p: Pid)
    requires Guard(s, Crash(p))
    ensures p !in Apply(s, Crash(p)).backends
  {
  }

  lemma InLoopAlready(s: State, p: Pid)
    requires Inv(s) && p in s.backends && (s.backends[p].Top().CommitScan? || s.backends[p].Top().CommitRow?)
    ensures Committing(s.backends[p])
  {
    assert BackendOk(s.backends[p]);
  }

  lemma EndOut(s: State, step: Step)
    requires Inv(s) && Guard(s, step) && (step.CommitQuiet? || step.CommitFinish? || step.Abort?)
    ensures !Committing(Apply(s, step).backends[step.p])
  {
    CommitAtMain(s, step);
    hide Inv;
    match step
    case CommitQuiet(_) =>
    case CommitFinish(_) =>
    case Abort(_) =>
  }

  lemma CommandOut(s: State, step: Step)
    requires Inv(s) && Guard(s, step) && Command(step)
    ensures !Committing(Apply(s, step).backends[step.p])
  {
    CommandAtMain(s, step);
    CommandXact(s, step);
  }

  lemma ScanOut(s: State, step: Step)
    requires Inv(s) && Guard(s, step) && (step.ScanAcquire? || step.ScanRow? || step.ScanFinish?)
    ensures !Committing(Apply(s, step).backends[step.p])
  {
    if step.ScanAcquire? { ScanAcquireKeepsControl(s, step.p); }
    else if step.ScanRow? { ScanRowKeepsControl(s, step.p, step.key); }
    else { FinishNotCommitting(s, step.p); }
  }

  lemma FinishNotCommitting(s: State, p: Pid)
    requires Inv(s) && Guard(s, ScanFinish(p))
    ensures !Committing(Apply(s, ScanFinish(p)).backends[p])
  {
    assert BackendOk(s.backends[p]);
    ScanKeeps(s.backends[p], {}, 0, []);
  }

  /** The step at which a commit that is under way took the lock; it has been under way since. */
  lemma {:induction false} FindAcquire(states: seq<State>, steps: seq<Step>, d: nat, i: nat, p: Pid) returns (a: nat)
    requires IsRun(states, steps) && d < i < |states|
    requires forall m | d <= m <= i :: p in states[m].backends
    requires !Committing(states[d].backends[p]) && Committing(states[i].backends[p])
    ensures d <= a < i && steps[a] == CommitAcquire(p)
    ensures forall m | a < m <= i :: Committing(states[m].backends[p])
    decreases i
  {
    hide Inv, Guard, Apply, Committing;
    assert StepAt(states, steps, i - 1);
    if Committing(states[i - 1].backends[p]) {
      a := FindAcquire(states, steps, d, i - 1, p);
    } else {
      a := i - 1;
      EveryRunKeepsInv(states, steps, a);
      OnlyAcquireCommits(states[a], steps[a], p);
    }
  }

  lemma CommitterHolds(s: State, p: Pid)
    requires Inv(s) && p in s.backends && Committing(s.backends[p])
    ensures Holds(s, p)
  {
    hide BackendsOk, ListensOk, DataOk, Committing;
  }

  lemma LockStays(s: State, step: Step, p: Pid, k: Key)
    requires Guard(s, step) && Holds(s, p) && Holds(Apply(s, step), p)
    ensures s.lock.Held? && Apply(s, step).lock.Held? && Apply(s, step).lock.from == s.lock.from
    ensures k in s.lock.began && !Unlistens(s, step, k) ==> k in Apply(s, step).lock.began
  {
  }

  /** While the commit is under way, a row that was there stays on its list unless it is given up. */
  lemma BeganStays(s: State, step: Step, p: Pid, k: Key)
    requires Inv(s) && Guard(s, step) && Inv(Apply(s, step)) && p in s.backends && p in Apply(s, step).backends
    requires Committing(s.backends[p]) && Committing(Apply(s, step).backends[p])
    ensures s.lock.Held? && Apply(s, step).lock.Held? && Holds(Apply(s, step), p)
    ensures Apply(s, step).lock.from == s.lock.from
    ensures k in s.lock.began && !Unlistens(s, step, k) ==> k in Apply(s, step).lock.began
  {
    hide Inv, Guard, Apply, Committing, Unlistens, Holds;
    CommitterHolds(s, p);
    CommitterHolds(Apply(s, step), p);
    LockStays(s, step, p, k);
  }

  lemma AcquireLists(s: State, p: Pid)
    requires Guard(s, CommitAcquire(p))
    ensures var l := Apply(s, CommitAcquire(p)).lock;
      l.Held? && Holds(Apply(s, CommitAcquire(p)), p) && l.from == |s.backends[p].inbox| && l.began == s.table.Keys
  {
  }

  lemma {:induction false} CommitKeepsList(states: seq<State>, steps: seq<Step>, a: nat, i: nat, p: Pid, k: Key)
    requires IsRun(states, steps) && a < i < |states| && steps[a] == CommitAcquire(p)
    requires forall m | a < m <= i :: p in states[m].backends && Committing(states[m].backends[p])
    requires p in states[a].backends
    ensures states[i].lock.Held? && Holds(states[i], p) && states[i].lock.from == |states[a].backends[p].inbox|
    ensures k in states[a].table && (forall m | a < m < i :: !Unlistens(states[m], steps[m], k)) ==>
      k in states[i].lock.began
    decreases i
  {
    hide Inv, Guard, Apply, Committing, Unlistens, Holds;
    assert StepAt(states, steps, i - 1);
    if a == i - 1 {
      AcquireLists(states[a], p);
    } else {
      EveryRunKeepsInv(states, steps, i);
      EveryRunKeepsInv(states, steps, i - 1);
      CommitKeepsList(states, steps, a, i - 1, p, k);
      BeganStays(states[i - 1], steps[i - 1], p, k);
    }
  }

  lemma FinishKeepsRow(s: State, p: Pid, k: Key)
    requires Inv(s) && Guard(s, CommitFinish(p)) && k in s.table && k.pid in s.backends
    requires !Unlistens(s, CommitFinish(p), k)
    ensures k in Apply(s, CommitFinish(p)).table
  {
    hide LockOk, ListensOk, RowsOk, ScannerOk, Covered;
    assert BackendOk(s.backends[p]);
    assert k in s.lock.working;
  }

  lemma ScanKeepsRow(s: State, p: Pid, k: Key)
    requires Inv(s) && Guard(s, ScanFinish(p)) && k in s.table
    ensures k in Apply(s, ScanFinish(p)).table
  {
    hide LockOk, ListensOk, RowsOk, CommitterOk, Covered;
  }

  /** A live listener's row stays in the committed table until it gives up. */
  lemma RowStays(s: State, step: Step, k: Key)
    requires Inv(s) && Guard(s, step) && k in s.table && k.pid in s.backends && !Unlistens(s, step, k)
    ensures k in Apply(s, step).table
  {
    hide Inv;
    if step.CommitFinish? { FinishKeepsRow(s, step.p, k); }
    else if step.ScanFinish? { ScanKeepsRow(s, step.p, k); }
  }

  lemma {:induction false} ListenerStays(states: seq<State>, steps: seq<Step>, d: nat, i: nat, k: Key)
    requires IsRun(states, steps) && d <= i < |states| && k in states[d].table
    requires forall m | d <= m <= i :: k.pid in states[m].backends
    requires forall m | d <= m < i :: !Unlistens(states[m], steps[m], k)
    ensures k in states[i].table
    decreases i
  {
    if d < i {
      hide Inv, Guard, Apply, Unlistens;
      assert StepAt(states, steps, i - 1);
      ListenerStays(states, steps, d, i - 1, k);
      EveryRunKeepsInv(states, steps, i - 1);
      RowStays(states[i - 1], steps[i - 1], k);
    }
  }

  lemma InboxGrowsOnce(states: seq<State>, steps: seq<Step>, i: nat, p: Pid)
    requires IsRun(states, steps) && i < |steps| && p in states[i].backends && p in states[i + 1].backends
    ensures states[i].backends[p].inbox <= states[i + 1].backends[p].inbox
  {
    hide Inv, Guard, Apply;
    assert StepAt(states, steps, i);
    EveryRunKeepsInv(states, steps, i);
    EveryStepGrows(states[i], steps[i], p);
  }

  lemma {:induction false} InboxGrowsInRun(states: seq<State>, steps: seq<Step>, d: nat, i: nat, p: Pid)
    requires IsRun(states, steps) && d <= i < |states| && forall m | d <= m <= i :: p in states[m].backends
    ensures states[d].backends[p].inbox <= states[i].backends[p].inbox
    decreases i
  {
    if d < i {
      hide *;
      InboxGrowsInRun(states, steps, d, i - 1, p);
      InboxGrowsOnce(states, steps, i - 1, p);
    }
  }

  /** Between NOTIFY and the end of its commit the notifier is alive, and it takes the lock once. */
  lemma NotifierAlive(states: seq<State>, steps: seq<Step>, d: nat, i: nat, p: Pid, rel: Rel)
    requires IsRun(states, steps) && d < i < |steps| && steps[d] == DoNotify(p, rel) && steps[i] == CommitFinish(p)
    requires forall m | d < m < i :: !EndsXact(steps[m], p)
    ensures forall m | d <= m <= i :: p in states[m].backends
    ensures !Committing(states[d].backends[p]) && Committing(states[i].backends[p])
    ensures rel in states[i].backends[p].pending
  {
    hide Inv, Guard, Apply, Committing;
    assert StepAt(states, steps, d) && StepAt(states, steps, i);
    EveryRunKeepsInv(states, steps, d);
    EveryRunKeepsInv(states, steps, i);
    NotCommittingYet(states[d], p, rel);
    AtCommitEnd(states[i], p);
    forall m | d < m <= i ensures p in states[m].backends && rel in states[m].backends[p].pending {
      PendingStays(states, steps, d, m, p, rel);
    }
  }

  lemma NotCommittingYet(s: State, p: Pid, rel: Rel)
    requires Inv(s) && Guard(s, DoNotify(p, rel))
    ensures p in s.backends && !Committing(s.backends[p])
  {
    CommandAtMain(s, DoNotify(p, rel));
  }

  lemma AtCommitEnd(s: State, p: Pid)
    requires Inv(s) && Guard(s, CommitFinish(p))
    ensures p in s.backends && Committing(s.backends[p])
  {
    assert BackendOk(s.backends[p]) && s.backends[p].stack.Main?;
  }

  // ---------------------------------------------------------------- delivery

  /** The listener is there with its row from state d to state j, and does not give up. */
  ghost predicate Listening(states: seq<State>, steps: seq<Step>, d: nat, j: nat, k: Key)
    requires |states| == |steps| + 1 && j < |states|
  {
    && d <= j && k in states[d].table
    && (forall m | d <= m <= j :: k.pid in states[m].backends)
    && forall m | d <= m < j :: !Unlistens(states[m], steps[m], k)
  }

  /** A NOTIFY that is committed reaches every other backend that listens to the name when the commit takes the
      lock: if the listener lives on and does not give up, then when it is next idle with no signal on its way, and
      its last scan has not failed, it has sent its frontend a message of that name since the commit. */
  lemma CommitDelivers(states: seq<State>, steps: seq<Step>, d: nat, i: nat, j: nat, p: Pid, k: Key)
    returns (a: nat, source: Pid)
    requires IsRun(states, steps) && d < i < j < |states|
    requires steps[d] == DoNotify(p, k.rel) && steps[i] == CommitFinish(p)
    requires forall m | d < m < i :: !EndsXact(steps[m], p)
    requires k.pid != p && k.pid in states[j].backends
    requires IsIdle(states[j].backends[k.pid]) && !states[j].backends[k.pid].signalled
    ensures d <= a < i && steps[a] == CommitAcquire(p)
    ensures Listening(states, steps, a, j, k) ==>
      k in states[i + 1].table && states[i + 1].table[k] == source && source != 0 && source != k.pid
    ensures Listening(states, steps, a, j, k) && !LastScanFailed(states, steps, j, k.pid) ==>
      var before, after := states[i + 1].backends[k.pid].inbox, states[j].backends[k.pid].inbox;
      |before| <= |after| && Message(k.rel, source) in after[|before|..]
  {
    hide Inv, Guard, Apply, Unlistens, Committing, ProgressOk, EndsXact, Scanning;
    NotifierAlive(states, steps, d, i, p, k.rel);
    a := FindAcquire(states, steps, d, i, p);
    source := 0;
    if Listening(states, steps, a, j, k) {
      source := MarkedByCommit(states, steps, a, i, p, k);
      NeverLost(states, steps, i + 1, j, k);
    }
  }

  /** So it reaches every other backend that listens to the name when NOTIFY is called. */
  lemma NotifyDelivered(states: seq<State>, steps: seq<Step>, d: nat, i: nat, j: nat, p: Pid, k: Key)
    returns (source: Pid)
    requires IsRun(states, steps) && d < i < j < |states|
    requires steps[d] == DoNotify(p, k.rel) && steps[i] == CommitFinish(p)
    requires forall m | d < m < i :: !EndsXact(steps[m], p)
    requires k.pid != p && Listening(states, steps, d, j, k)
    requires IsIdle(states[j].backends[k.pid]) && !states[j].backends[k.pid].signalled
    ensures source != 0 && source != k.pid
    ensures !LastScanFailed(states, steps, j, k.pid) ==>
      var before, after := states[d].backends[k.pid].inbox, states[j].backends[k.pid].inbox;
      |before| <= |after| && Message(k.rel, source) in after[|before|..]
  {
    hide Inv, Guard, Apply, Unlistens, Committing, ProgressOk, EndsXact, Scanning;
    var a;
    a, source := CommitDelivers(states, steps, d, i, j, p, k);
    ListenerStays(states, steps, d, a, k);
    InboxGrowsInRun(states, steps, d, i + 1, k.pid);
    var before, middle, after :=
      states[d].backends[k.pid].inbox, states[i + 1].backends[k.pid].inbox, states[j].backends[k.pid].inbox;
    if !LastScanFailed(states, steps, j, k.pid) {
      assert after[|middle|..] == after[|before|..][|middle| - |before|..];
    }
  }

  lemma MarkedByCommit(states: seq<State>, steps: seq<Step>, a: nat, i: nat, p: Pid, k: Key) returns (source: Pid)
    requires IsRun(states, steps) && a < i < |steps| && steps[a] == CommitAcquire(p) && steps[i] == CommitFinish(p)
    requires p in states[a].backends
    requires forall m | a < m <= i :: p in states[m].backends && Committing(states[m].backends[p])
    requires k.pid != p && k.rel in states[i].backends[p].pending && Listening(states, steps, a, i + 1, k)
    ensures k in states[i + 1].table && states[i + 1].table[k] == source && source != 0 && source != k.pid
    ensures !Scanning(states[i + 1].backends[k.pid])
  {
    hide Inv, Guard, Apply, Unlistens, Committing, ProgressOk, Scanning;
    CommitKeepsList(states, steps, a, i, p, k);
    assert StepAt(states, steps, i);
    EveryRunKeepsInv(states, steps, i);
    EveryRunKeepsProgress(states, steps, i);
    CommitMarks(states[i], p, k);
    source := states[i + 1].table[k];
    EveryRunKeepsInv(states, steps, i + 1);
    FreeNotScanning(states[i], p, k.pid);
    NotFromItself(states[i + 1], k);
  }

  lemma NotFromItself(s: State, k: Key)
    requires Inv(s) && k in s.table && s.table[k] != 0
    ensures s.table[k] != k.pid
  {
    hide ControlOk, CommitterOk, ScannerOk;
    assert Covered(s, k, s.table[k]);
  }

  lemma FreeNotScanning(s: State, p: Pid, q: Pid)
    requires Guard(s, CommitFinish(p)) && Inv(Apply(s, CommitFinish(p))) && q in Apply(s, CommitFinish(p)).backends
    ensures !Scanning(Apply(s, CommitFinish(p)).backends[q])
  {
    assert !Holds(Apply(s, CommitFinish(p)), q);
  }

  /** And it reaches the notifier itself if it listens to the name when it commits, be it since this
      transaction. */
  lemma SelfNotified(states: seq<State>, steps: seq<Step>, d: nat, i: nat, p: Pid, rel: Rel)
    requires IsRun(states, steps) && d < i < |steps|
    requires steps[d] == DoNotify(p, rel) && steps[i] == CommitFinish(p)
    requires forall m | d < m < i :: !EndsXact(steps[m], p)
    requires p in states[d].backends && p in states[i].backends
    requires SeesRow(states[i].table, states[i].backends[p], Key(rel, p))
    ensures var before, after := states[d].backends[p].inbox, states[i].backends[p].inbox;
      |before| <= |after| && Message(rel, p) in after[|before|..]
  {
    hide Inv, Guard, Apply, Committing, ProgressOk, EndsXact, SeesRow;
    NotifierAlive(states, steps, d, i, p, rel);
    var a := FindAcquire(states, steps, d, i, p);
    CommitKeepsList(states, steps, a, i, p, Key(rel, p));
    assert StepAt(states, steps, i);
    EveryRunKeepsInv(states, steps, i);
    EveryRunKeepsProgress(states, steps, i);
    CommitTells(states[i], p, rel);
    InboxGrowsInRun(states, steps, d, a, p);
    var before, middle, after := states[d].backends[p].inbox, states[a].backends[p].inbox, states[i].backends[p].inbox;
    assert after[|middle|..] == after[|before|..][|middle| - |before|..];
  }
}
