/**
  The invariant of the whole system: a committed notification of a live
  listener always has a live wakeup.
 */
module NotifySafety {
  import opened Notify
  import opened NotifyBackend

  /** The scan a backend is in the middle of, if any. */
  ghost function FindScan(s: Stack): Pc {
    if s.pc.Scan? || s.Main? then s.pc else FindScan(s.below)
  }

  ghost predicate Scanning(b: Backend) { FindScan(b.stack).Scan? }

  ghost predicate Committing(b: Backend) { MainPc(b.stack).CommitScan? || MainPc(b.stack).CommitRow? }

  ghost predicate BackendsOk(s: State) {
    && 0 !in s.backends && s.backends.Keys <= s.used
    && forall p | p in s.backends :: BackendOk(s.backends[p])
  }

  /** Exactly the backends in the middle of a commit or of a scan hold the lock. */
  ghost predicate LockOk(s: State) {
    && (s.lock.Held? ==> s.lock.holder in s.backends)
    && forall p | p in s.backends :: Committing(s.backends[p]) || Scanning(s.backends[p]) <==> Holds(s, p)
  }

  ghost predicate Covered(s: State, k: Key, notifier: Pid) {
    notifier != 0 ==> notifier != k.pid && k.pid in s.used && (k.pid in s.backends ==> Owed(s.backends[k.pid]))
  }

  ghost predicate RowsOk(s: State) { forall k | k in s.table :: k.pid in s.used && Covered(s, k, s.table[k]) }

  /** A committing notifier has only marked idle rows of names it has NOTIFYed, each after a
      signal, and has only removed rows of dead processes. */
  ghost predicate CommitterOk(s: State) {
    s.lock.Held? && s.lock.holder in s.backends && Committing(s.backends[s.lock.holder]) ==>
      var h, w := s.lock.holder, s.lock.working;
      var pc, pending := MainPc(s.backends[h].stack), s.backends[h].pending;
      && (forall k | k in w :: k in s.table && Covered(s, k, w[k]))
      && (forall k | k in w && w[k] != s.table[k] :: s.table[k] == 0 && w[k] == h && k.rel in pending)
      && (forall k | k in s.table && k !in w :: k.pid in s.used && k.pid !in s.backends)
      && (pc.CommitRow? ==> Covered(s, pc.key, h) && pc.key.rel in pending)
  }

  /** A scanning listener has reported and cleared those of its rows that it has visited. */
  ghost predicate ScannerOk(s: State) {
    s.lock.Held? && s.lock.holder in s.backends && Scanning(s.backends[s.lock.holder]) ==>
      var h, w := s.lock.holder, s.lock.working;
      var b := s.backends[h];
      var pc := FindScan(b.stack);
      && w.Keys == s.table.Keys
      && pc.base <= |b.inbox|
      && (forall k | k in pc.todo :: k.pid == h)
      && forall k | k in s.table ::
           if k.pid == h && k !in pc.todo
           then w[k] == 0 && (s.table[k] != 0 ==> Message(k.rel, s.table[k]) in b.inbox[pc.base..])
           else w[k] == s.table[k]
  }

  /** A backend inserts a row only when it has none, or has deleted the one it had. */
  ghost predicate ListensOk(s: State) {
    forall p, r | p in s.backends && r in s.backends[p].listens ::
      Key(r, p) !in s.table || r in s.backends[p].unlistens
  }

  ghost predicate ControlOk(s: State) { BackendsOk(s) && LockOk(s) && ListensOk(s) }

  ghost predicate DataOk(s: State) { RowsOk(s) && CommitterOk(s) && ScannerOk(s) }

  ghost predicate Inv(s: State) { ControlOk(s) && DataOk(s) }

  // ---------------------------------------------------------------- steps of one backend

  /** Only p has moved: its new state fits its hold on the lock, and it has added no foreign row. */
  lemma ControlStep(s: State, s': State, p: Pid)
    requires ControlOk(s) && p in s.backends && p in s'.backends
    requires s'.backends == s.backends[p := s'.backends[p]] && s'.used == s.used
    requires BackendOk(s'.backends[p])
    requires Committing(s'.backends[p]) || Scanning(s'.backends[p]) <==> Holds(s', p)
    requires forall q | q != p :: Holds(s', q) == Holds(s, q)
    requires forall r | r in s'.backends[p].listens :: Key(r, p) !in s'.table || r in s'.backends[p].unlistens
    requires forall k | k in s'.table && k.pid != p :: k in s.table
    ensures ControlOk(s')
  {
    if s'.lock.Held? && s'.lock.holder != p { assert Holds(s', s'.lock.holder); }
  }

  /** No live process has lost its wakeup, unless its scan has failed. */
  ghost predicate WakesKept(s: State, s': State) {
    s'.used == s.used && forall p | p in s'.backends ::
      p in s.backends && (Owed(s.backends[p]) ==> Owed(s'.backends[p]))
  }

  lemma CoveredKept(s: State, s': State)
    requires WakesKept(s, s')
    ensures forall k, n | Covered(s, k, n) :: Covered(s', k, n)
  {
  }

  /** The same hold on the lock, at the same point of a commit or of a scan. */
  ghost predicate SameHold(b: Backend, b': Backend) {
    && Scanning(b') == Scanning(b)
    && (Scanning(b) ==> FindScan(b'.stack) == FindScan(b.stack))
    && Committing(b') == Committing(b)
    && (Committing(b) ==> MainPc(b'.stack) == MainPc(b.stack) && b'.pending == b.pending)
    && b'.inbox == b.inbox
  }

  /** Steps that change one backend only, and neither its hold on the lock nor its rows. */
  ghost predicate Mild(s: State, p: Pid, b': Backend)
    requires p in s.backends
  {
    && BackendOk(b')
    && (Owed(s.backends[p]) ==> Owed(b'))
    && SameHold(s.backends[p], b')
    && (forall r | r in b'.listens :: Key(r, p) !in s.table || r in b'.unlistens)
  }

  lemma MildKeepsInv(s: State, p: Pid, b': Backend)
    requires Inv(s) && p in s.backends && Mild(s, p, b')
    ensures Inv(Put(s, p, b'))
  {
    var s' := Put(s, p, b');
    ControlStep(s, s', p);
    CoveredKept(s, s');
  }

  predicate Apart(pc: Pc) { !pc.Scan? && !pc.CommitScan? && !pc.CommitRow? }

  /** The top frame, which is neither in a scan nor in a commit, moves on or returns. */
  predicate Moves(s: Stack, s': Stack) {
    Apart(s.pc) && ((s' == s.(pc := s'.pc) && Apart(s'.pc)) || (s.Handler? && s' == s.below))
  }

  /** The same transaction and the same messages. */
  predicate SameWork(b: Backend, b': Backend) {
    b'.inbox == b.inbox && b'.pending == b.pending && b'.listens == b.listens && b'.unlistens == b.unlistens
  }

  lemma FrameKeepsHold(b: Backend, b': Backend)
    requires Moves(b.stack, b'.stack) && SameWork(b, b')
    ensures SameHold(b, b')
  {
  }

  lemma LoopMoves(b: Backend)
    requires b.Top().InLoop()
    ensures Moves(b.stack, AdvanceLoop(b).stack)
  {
    match b.Top()
    case SetEnabled =>
    case TestOccurred =>
    case ClearEnabled =>
    case Retest =>
  }

  lemma LoopKeepsWork(b: Backend)
    requires b.Top().InLoop()
    ensures SameWork(b, AdvanceLoop(b))
  {
    match b.Top()
    case SetEnabled =>
    case TestOccurred =>
    case ClearEnabled =>
    case Retest =>
  }

  lemma PrologueMoves(b: Backend)
    requires InPrologue(b.stack)
    ensures Moves(b.stack, AdvancePrologue(b).stack)
  {
    match b.Top()
    case HandlerEntry =>
    case HandlerDisable =>
    case HandlerMark =>
    case HandlerDefer =>
  }

  lemma PrologueKeepsWork(b: Backend)
    requires InPrologue(b.stack)
    ensures SameWork(b, AdvancePrologue(b))
  {
    match b.Top()
    case HandlerEntry =>
    case HandlerDisable =>
    case HandlerMark =>
    case HandlerDefer =>
  }

  lemma OtherMoves(b: Backend)
    ensures b.Top().Idle? || b.Top().WaitInBlock? ==> Moves(b.stack, Disable(b).stack) && SameWork(b, Disable(b))
    ensures b.Top().ScanStart? ==> Moves(b.stack, StartScan(b).stack) && SameWork(b, StartScan(b))
  {
  }

  lemma AdvanceMoves(b: Backend)
    requires RunsAlone(b.stack)
    ensures Moves(b.stack, Advance(b).stack) && SameWork(b, Advance(b))
  {
    hide Moves, SameWork, AdvanceLoop, AdvancePrologue, Disable, StartScan;
    if b.Top().InLoop() {
      LoopMoves(b);
      LoopKeepsWork(b);
    } else if InPrologue(b.stack) {
      PrologueMoves(b);
      PrologueKeepsWork(b);
    } else {
      OtherMoves(b);
    }
  }

  lemma AdvanceKeepsHold(b: Backend)
    requires RunsAlone(b.stack)
    ensures SameHold(b, Advance(b))
    ensures Advance(b).listens == b.listens && Advance(b).unlistens == b.unlistens
  {
    hide SameHold, Advance, Moves;
    AdvanceMoves(b);
    FrameKeepsHold(b, Advance(b));
  }

  lemma InstructionKeepsInv(s: State, p: Pid)
    requires Inv(s) && Guard(s, Run(p))
    ensures Inv(Apply(s, Run(p)))
  {
    var b := s.backends[p];
    AdvanceKeeps(b);
    AdvanceKeepsHold(b);
    MildKeepsInv(s, p, Advance(b));
  }

  lemma InterruptKeepsInv(s: State, p: Pid)
    requires Inv(s) && Guard(s, Interrupt(p))
    ensures Inv(Apply(s, Interrupt(p)))
  {
    DeliverKeeps(s.backends[p]);
    MildKeepsInv(s, p, Deliver(s.backends[p]));
  }

  /** A command of the main loop that does not touch the lock. */
  predicate Command(step: Step) {
    step.Begin? || step.Enable? || step.DoNotify? || step.DoListen? || step.DoUnlisten? || step.DoUnlistenAll? ||
      step.StartCommit?
  }

  lemma CommandPuts(s: State, step: Step)
    requires Guard(s, step) && Command(step)
    ensures Apply(s, step) == Put(s, step.p, Apply(s, step).backends[step.p])
  {
    match step
    case Begin(_) =>
    case Enable(_) =>
    case DoNotify(_, _) =>
    case DoListen(_, _) =>
    case DoUnlisten(_, _) =>
    case DoUnlistenAll(_) =>
    case StartCommit(_) =>
  }

  lemma CommandXact(s: State, step: Step)
    requires Guard(s, step) && Command(step) && s.backends[step.p].stack.Main? && XactOk(s.backends[step.p])
    ensures XactOk(Apply(s, step).backends[step.p])
    ensures var b' := Apply(s, step).backends[step.p];
      b'.stack.Main? && (b'.Top().Cmd? || b'.Top().WaitInBlock? || b'.Top().SetEnabled? || b'.Top().CommitLock?)
  {
    match step
    case Begin(_) =>
    case Enable(_) =>
    case DoNotify(_, _) =>
    case DoListen(_, _) =>
    case DoUnlisten(_, _) =>
    case DoUnlistenAll(_) =>
    case StartCommit(_) =>
  }

  lemma CommandKeepsFlags(s: State, step: Step)
    requires Guard(s, step) && Command(step)
    ensures var b, b' := s.backends[step.p], Apply(s, step).backends[step.p];
      && b'.enabled == b.enabled && b'.occurred == b.occurred && b'.signalled == b.signalled
      && b'.served == b.served && b'.delivered == b.delivered && b'.failed == b.failed && b'.inbox == b.inbox
  {
    match step
    case Begin(_) =>
    case Enable(_) =>
    case DoNotify(_, _) =>
    case DoListen(_, _) =>
    case DoUnlisten(_, _) =>
    case DoUnlistenAll(_) =>
    case StartCommit(_) =>
  }

  lemma CommandMoves(s: State, step: Step, b: Backend, b': Backend)
    requires Guard(s, step) && Command(step) && b == s.backends[step.p] && b.stack.Main? && XactOk(b)
    requires b' == Apply(s, step).backends[step.p]
    ensures Apply(s, step) == Put(s, step.p, b') && XactOk(b')
    ensures b'.enabled == b.enabled && b'.occurred == b.occurred && b'.signalled == b.signalled
    ensures b'.served == b.served && b'.delivered == b.delivered && b'.failed == b.failed && b'.inbox == b.inbox
    ensures b'.stack.Main? && (b'.Top().Cmd? || b'.Top().WaitInBlock? || b'.Top().SetEnabled? || b'.Top().CommitLock?)
    ensures forall r | r in b'.listens :: r in b.listens || Key(r, step.p) !in s.table || r in b.unlistens
    ensures b.unlistens <= b'.unlistens
  {
    CommandPuts(s, step);
    CommandXact(s, step);
    CommandKeepsFlags(s, step);
    CommandRows(s, step);
    hide *;
  }

  lemma CommandRows(s: State, step: Step)
    requires Guard(s, step) && Command(step)
    ensures var b, b' := s.backends[step.p], Apply(s, step).backends[step.p];
      && (forall r | r in b'.listens :: r in b.listens || Key(r, step.p) !in s.table || r in b.unlistens)
      && b.unlistens <= b'.unlistens
  {
    match step
    case Begin(_) =>
    case Enable(_) =>
    case DoNotify(_, _) =>
    case DoListen(_, _) =>
    case DoUnlisten(_, _) =>
    case DoUnlistenAll(_) =>
    case StartCommit(_) =>
  }

  lemma CommandAtMain(s: State, step: Step)
    requires Inv(s) && Guard(s, step) && Command(step)
    ensures step.p in s.backends && s.backends[step.p].stack == Main(Cmd) && XactOk(s.backends[step.p])
    ensures step.p in Apply(s, step).backends
  {
    assert BackendOk(s.backends[step.p]);
  }

  lemma MainStepKeepsInv(s: State, p: Pid, b: Backend, b': Backend)
    requires Inv(s) && p in s.backends && b == s.backends[p] && b.stack == Main(Cmd) && XactOk(b')
    requires b'.enabled == b.enabled && b'.occurred == b.occurred && b'.signalled == b.signalled
    requires b'.served == b.served && b'.delivered == b.delivered && b'.failed == b.failed && b'.inbox == b.inbox
    requires b'.stack.Main? && (b'.Top().Cmd? || b'.Top().WaitInBlock? || b'.Top().SetEnabled? || b'.Top().CommitLock?)
    requires forall r | r in b'.listens :: r in b.listens || Key(r, p) !in s.table || r in b.unlistens
    requires b.unlistens <= b'.unlistens
    ensures Inv(Put(s, p, b'))
  {
    MainMoves(b, b');
    MildKeepsInv(s, p, b');
  }

  lemma CommandKeepsInv(s: State, step: Step)
    requires Inv(s) && Guard(s, step) && Command(step)
    ensures Inv(Apply(s, step))
  {
    CommandAtMain(s, step);
    hide Inv, Apply, XactOk;
    var b, b' := s.backends[step.p], Apply(s, step).backends[step.p];
    CommandMoves(s, step, b, b');
    MainStepKeepsInv(s, step.p, b, b');
  }

  lemma StartKeepsInv(s: State, p: Pid)
    requires Inv(s) && Guard(s, Start(p))
    ensures Inv(Apply(s, Start(p)))
  {
    var s' := Apply(s, Start(p));
    assert BackendOk(FRESH_BACKEND);
    assert forall k, n | Covered(s, k, n) :: Covered(s', k, n);
  }

  lemma CrashKeepsInv(s: State, p: Pid)
    requires Inv(s) && Guard(s, Crash(p))
    ensures Inv(Apply(s, Crash(p)))
  {
    CoveredKept(s, Apply(s, Crash(p)));
  }

  // ---------------------------------------------------------------- commits

  lemma QuietKeepsInv(s: State, p: Pid)
    requires Inv(s) && Guard(s, CommitQuiet(p))
    ensures Inv(Apply(s, CommitQuiet(p)))
  {
    var b, s' := s.backends[p], Apply(s, CommitQuiet(p));
    assert b.stack == Main(Cmd);
    MainMoves(b, EndXact(b));
    ControlStep(s, s', p);
    CoveredKept(s, s');
    QuietKeepsData(s, p);
  }

  lemma QuietKeepsData(s: State, p: Pid)
    requires Inv(s) && p in s.backends && !Holds(s, p)
    requires WakesKept(s, Quiet(s, p))
    ensures DataOk(Quiet(s, p))
  {
    CoveredKept(s, Quiet(s, p));
    QuietKeepsCommitter(s, p);
    QuietKeepsScanner(s, p);
  }

  lemma QuietKeepsCommitter(s: State, p: Pid)
    requires CommitterOk(s) && p in s.backends && !Holds(s, p)
    requires WakesKept(s, Quiet(s, p))
    ensures CommitterOk(Quiet(s, p))
  {
    CoveredKept(s, Quiet(s, p));
  }

  lemma QuietKeepsScanner(s: State, p: Pid)
    requires ScannerOk(s) && p in s.backends && !Holds(s, p)
    ensures ScannerOk(Quiet(s, p))
  {
  }

  /** The committing notifier p goes to pc with a new private copy w of the table. */
  lemma CommitterMoves(s: State, p: Pid, pc: Pc, inbox: seq<Message>, lock: Lock)
    requires Inv(s) && p in s.backends && s.backends[p].stack.Main? && s.backends[p].Top().InCommit()
    requires (s.lock.Free? || Holds(s, p)) && lock.Held? && lock.holder == p
    requires pc.CommitScan? || (pc.CommitRow? && Covered(s, pc.key, p) && pc.key.rel in s.backends[p].pending)
    requires var w := lock.working;
      && (forall k | k in w :: k in s.table && Covered(s, k, w[k]))
      && (forall k | k in w && w[k] != s.table[k] :: s.table[k] == 0 && w[k] == p && k.rel in s.backends[p].pending)
      && (forall k | k in s.table && k !in w :: k.pid in s.used && k.pid !in s.backends)
    ensures Inv(Put(s, p, s.backends[p].Goto(pc).(inbox := inbox)).(lock := lock))
  {
    var b' := s.backends[p].Goto(pc).(inbox := inbox);
    var s' := Put(s, p, b').(lock := lock);
    MainMoves(s.backends[p], b');
    ControlStep(s, s', p);
    CoveredKept(s, s');
  }

  lemma CommitAcquireKeepsInv(s: State, p: Pid)
    requires Inv(s) && Guard(s, CommitAcquire(p))
    ensures Inv(Apply(s, CommitAcquire(p)))
  {
    var s' := Apply(s, CommitAcquire(p));
    CommitterMoves(s, p, s'.backends[p].Top(), s.backends[p].inbox, s'.lock);
  }

  lemma SignalKeepsInv(s: State, p: Pid)
    requires Inv(s) && p in s.backends
    ensures Inv(Put(s, p, s.backends[p].(signalled := true)))
  {
    assert BackendOk(s.backends[p]);
    MildKeepsInv(s, p, s.backends[p].(signalled := true));
  }

  lemma MarkingKeepsInv(s: State, p: Pid, key: Key)
    requires Inv(s) && p in s.backends && Holds(s, p) && s.backends[p].Top().CommitScan? && s.backends[p].stack.Main?
    requires key in s.lock.working && key.rel in s.backends[p].pending
    requires key.pid in s.backends && key.pid != p && s.backends[key.pid].signalled
    ensures Inv(Put(s, p, s.backends[p].Goto(CommitRow(s.backends[p].Top().todo - {key}, key))))
  {
    var b, w := s.backends[p], s.lock.working;
    assert Committing(b);
    CommitterMoves(s, p, CommitRow(b.Top().todo - {key}, key), b.inbox, s.lock);
  }

  lemma CommitSignalKeepsInv(s: State, p: Pid, key: Key)
    requires Inv(s) && Guard(s, CommitVisit(p, key)) && s.backends[p].stack.Main?
    requires key in s.lock.working && key.rel in s.backends[p].pending && key.pid in s.backends && key.pid != p
    ensures Inv(Visit(s, p, key))
  {
    hide Inv;
    SignalKeepsInv(s, key.pid);
    MarkingKeepsInv(Put(s, key.pid, s.backends[key.pid].(signalled := true)), p, key);
  }

  lemma VisitKeepsTable(s: State, p: Pid, key: Key)
    requires Guard(s, CommitVisit(p, key))
    ensures var s' := Visit(s, p, key);
      && s'.table == s.table && s'.lock == s.lock.(working := s'.lock.working) && s'.backends.Keys == s.backends.Keys
  {
  }

  lemma VisitMoves(s: State, p: Pid, key: Key)
    requires Guard(s, CommitVisit(p, key)) && s.backends[p].stack.Main?
    ensures var todo, s' := s.backends[p].Top().todo - {key}, Visit(s, p, key).backends[p].stack;
      s' == Main(CommitScan(todo)) || s' == Main(CommitRow(todo, key))
  {
  }

  lemma VisitKeepsRest(s: State, p: Pid, key: Key)
    requires Guard(s, CommitVisit(p, key))
    ensures var b, b' := s.backends[p], VisitOwn(s, p, key); b' == b.Goto(b'.Top()).(inbox := b'.inbox)
    ensures Visit(s, p, key).backends[p] == VisitOwn(s, p, key)
  {
    OwnKeepsRest(s, p, key);
    hide VisitOwn;
  }

  lemma OwnKeepsRest(s: State, p: Pid, key: Key)
    requires Guard(s, CommitVisit(p, key))
    ensures var b, b' := s.backends[p], VisitOwn(s, p, key); b' == b.Goto(b'.Top()).(inbox := b'.inbox)
  {
    hide IsForOther;
  }

  lemma VisitTells(s: State, p: Pid, key: Key)
    requires Guard(s, CommitVisit(p, key))
    ensures var b, b' := s.backends[p], Visit(s, p, key).backends[p];
      b'.inbox == if key.pid == p && key.rel in b.pending then b.inbox + [Message(key.rel, p)] else b.inbox
  {
  }

  lemma CommitVisitKeepsInv(s: State, p: Pid, key: Key)
    requires Inv(s) && Guard(s, CommitVisit(p, key))
    ensures Inv(Apply(s, CommitVisit(p, key)))
  {
    var s' := Visit(s, p, key);
    var b, w := s.backends[p], s.lock.working;
    if key in w && key.rel in b.pending && key.pid in s.backends && key.pid != p {
      CommitSignalKeepsInv(s, p, key);
    } else {
      assert Committing(b);
      CommitterMoves(s, p, CommitScan(b.Top().todo - {key}), s'.backends[p].inbox, s'.lock);
    }
  }

  lemma CommitWriteKeepsInv(s: State, p: Pid)
    requires Inv(s) && Guard(s, CommitWrite(p))
    ensures Inv(Apply(s, CommitWrite(p)))
  {
    var b, s' := s.backends[p], Apply(s, CommitWrite(p));
    CommitterMoves(s, p, CommitScan(b.Top().todo), b.inbox, s'.lock);
  }

  lemma CommitFinishKeepsInv(s: State, p: Pid)
    requires Inv(s) && Guard(s, CommitFinish(p))
    ensures Inv(Apply(s, CommitFinish(p)))
  {
    var s' := Apply(s, CommitFinish(p));
    MainMoves(s.backends[p], s'.backends[p]);
    ControlStep(s, s', p);
    CoveredKept(s, s');
  }

  lemma AbortKeepsControl(s: State, p: Pid)
    requires ControlOk(s) && Guard(s, Abort(p))
    ensures ControlOk(Apply(s, Abort(p))) && WakesKept(s, Apply(s, Abort(p)))
    ensures !Scanning(Apply(s, Abort(p)).backends[p]) && !Committing(Apply(s, Abort(p)).backends[p])
  {
    var s' := Apply(s, Abort(p));
    MainMoves(s.backends[p], s'.backends[p]);
    ControlStep(s, s', p);
  }

  lemma AbortKeepsInv(s: State, p: Pid)
    requires Inv(s) && Guard(s, Abort(p))
    ensures Inv(Apply(s, Abort(p)))
  {
    AbortKeepsControl(s, p);
    CoveredKept(s, Apply(s, Abort(p)));
  }

  // ---------------------------------------------------------------- scans

  lemma ScannerMoves(b: Backend, todo: set<Key>, base: nat, inbox: seq<Message>)
    requires BackendOk(b) && (b.Top().ScanLock? || b.Top().Scan?)
    ensures var b' := b.Goto(Scan(todo, base)).(inbox := inbox);
      BackendOk(b') && Owed(b') && Scanning(b') && !Committing(b')
  {
    ScanKeeps(b, todo, base, inbox);
  }

  lemma ScannerKeepsControl(s: State, p: Pid, todo: set<Key>, base: nat, inbox: seq<Message>, lock: Lock)
    requires ControlOk(s) && p in s.backends && (s.lock.Free? || Holds(s, p)) && lock.Held? && lock.holder == p
    requires s.backends[p].Top().ScanLock? || s.backends[p].Top().Scan?
    ensures var s' := Put(s, p, s.backends[p].Goto(Scan(todo, base)).(inbox := inbox)).(lock := lock);
      ControlOk(s') && WakesKept(s, s') && !Committing(s'.backends[p])
  {
    ScannerMoves(s.backends[p], todo, base, inbox);
    hide BackendOk, Wake, Scanning, Committing;
    ControlStep(s, Put(s, p, s.backends[p].Goto(Scan(todo, base)).(inbox := inbox)).(lock := lock), p);
  }

  lemma ScanAcquireKeepsControl(s: State, p: Pid)
    requires ControlOk(s) && Guard(s, ScanAcquire(p))
    ensures ControlOk(Apply(s, ScanAcquire(p))) && WakesKept(s, Apply(s, ScanAcquire(p)))
    ensures !Committing(Apply(s, ScanAcquire(p)).backends[p])
  {
    hide ControlOk, Committing, WakesKept;
    var b, s' := s.backends[p], Apply(s, ScanAcquire(p));
    ScannerKeepsControl(s, p, s'.backends[p].Top().todo, |b.inbox|, b.inbox, s'.lock);
  }

  lemma ScanAcquireKeepsInv(s: State, p: Pid)
    requires Inv(s) && Guard(s, ScanAcquire(p))
    ensures Inv(Apply(s, ScanAcquire(p)))
  {
    ScanAcquireKeepsControl(s, p);
    hide ControlOk, WakesKept;
    CoveredKept(s, Apply(s, ScanAcquire(p)));
  }

  lemma ScanRowKeepsControl(s: State, p: Pid, key: Key)
    requires ControlOk(s) && Guard(s, ScanRow(p, key))
    ensures ControlOk(Apply(s, ScanRow(p, key))) && WakesKept(s, Apply(s, ScanRow(p, key)))
    ensures !Committing(Apply(s, ScanRow(p, key)).backends[p])
  {
    hide ControlOk, Committing, WakesKept;
    var b' := Apply(s, ScanRow(p, key)).backends[p];
    ScannerKeepsControl(s, p, b'.Top().todo, b'.Top().base, b'.inbox, Apply(s, ScanRow(p, key)).lock);
  }

  lemma ScanRowKeepsInv(s: State, p: Pid, key: Key)
    requires Inv(s) && Guard(s, ScanRow(p, key))
    ensures Inv(Apply(s, ScanRow(p, key)))
  {
    ScanRowKeepsControl(s, p, key);
    CoveredKept(s, Apply(s, ScanRow(p, key)));
    ScanRowReports(s, p, key);
  }

  lemma ScanRowReports(s: State, p: Pid, key: Key)
    requires ScannerOk(s) && Guard(s, ScanRow(p, key))
    ensures ScannerOk(Apply(s, ScanRow(p, key)))
  {
    var b, s' := s.backends[p], Apply(s, ScanRow(p, key));
    var base, w := b.Top().base, s.lock.working;
    if key in w && w[key] != 0 {
      var m := Message(key.rel, w[key]);
      assert s'.backends[p].inbox[base..] == b.inbox[base..] + [m];
    }
  }

  lemma {:induction false} NoScanBelow(s: Stack)
    requires Processing(s) == 0
    ensures !FindScan(s).Scan?
  {
    if s.Handler? { NoScanBelow(s.below); }
  }

  lemma ScanFinishKeepsControl(s: State, p: Pid)
    requires ControlOk(s) && Guard(s, ScanFinish(p)) && s.lock.working.Keys == s.table.Keys
    ensures ControlOk(Apply(s, ScanFinish(p)))
  {
    var b, s' := s.backends[p], Apply(s, ScanFinish(p));
    ScanKeeps(b, {}, 0, b.inbox);
    if b.stack.Handler? { NoScanBelow(b.stack.below); }
    ControlStep(s, s', p);
  }

  /** A scan that fails keeps the invariant: its rows are as they were, and owed. */
  lemma ScanAbortKeepsInv(s: State, p: Pid)
    requires Inv(s) && Guard(s, ScanAbort(p))
    ensures Inv(Apply(s, ScanAbort(p)))
  {
    var s' := Apply(s, ScanAbort(p));
    FailKeeps(s.backends[p]);
    ControlStep(s, s', p);
    CoveredKept(s, s');
  }

  lemma ScanFinishKeepsInv(s: State, p: Pid)
    requires Inv(s) && Guard(s, ScanFinish(p))
    ensures Inv(Apply(s, ScanFinish(p)))
  {
    var s' := Apply(s, ScanFinish(p));
    ScanFinishKeepsControl(s, p);
    assert forall k, n | Covered(s, k, n) && k.pid != p :: Covered(s', k, n);
  }
}
