/**
  The enabled/occurred handshake of one backend: signals may arrive at any
  instruction and handlers may nest to any depth.
 */
module NotifyBackend {
  import opened Notify

  ghost predicate AnyOff(s: Stack) { s.pc.Off() || (s.Handler? && AnyOff(s.below)) }

  ghost predicate AnyRechecks(s: Stack) { s.pc.Rechecks() || (s.Handler? && AnyRechecks(s.below)) }

  /** Looked for down to a scan that is running, which serves what is below it. */
  ghost predicate AnyUnserved(s: Stack) {
    s.pc.Unserved() || (s.Handler? && !s.pc.ScanLock? && !s.pc.Scan? && AnyUnserved(s.below))
  }

  ghost predicate AnyWakes(s: Stack) { s.pc.Wakes() || (s.Handler? && AnyWakes(s.below)) }

  ghost function Processing(s: Stack): nat {
    (if s.pc.InProcess() then 1 else 0) + (if s.Handler? then Processing(s.below) else 0)
  }

  ghost function MainPc(s: Stack): Pc { if s.Handler? then MainPc(s.below) else s.pc }

  /** Above a frame that has cleared notifyInterruptEnabled only activations run that
      leave the flag alone, and the path for a disabled backend is taken only there. */
  ghost predicate Disciplined(s: Stack) {
    match s
    case Main(pc) => pc.ForMain()
    case Handler(pc, below) =>
      && pc.ForHandler()
      && Disciplined(below)
      && (AnyOff(below) ==> pc.Transparent())
      && (pc.HandlerDefer? ==> AnyOff(below))
  }

  ghost predicate FlagsOk(b: Backend) {
    && Disciplined(b.stack)
    && (b.enabled <==> !AnyOff(b.stack))
  }

  /** A set notifyInterruptOccurred is tested again before the backend goes idle, and
      a delivered signal that no scan has started after is still being handled. */
  ghost predicate Answered(b: Backend) {
    && (b.occurred ==> AnyRechecks(b.stack))
    && b.served <= b.delivered
    && (b.served < b.delivered ==> b.occurred || AnyUnserved(b.stack))
  }

  /** Transaction state exists only while the main loop runs a command. */
  ghost predicate XactOk(b: Backend) {
    var pc := MainPc(b.stack);
    && (!b.inXact ==> b.pending == {} && b.listens == {} && b.unlistens == {})
    && (pc.Idle? || pc.InLoop() || pc.InProcess() ==> !b.inXact)
    && (pc.InCommit() ==> b.inXact)
  }

  ghost predicate BackendOk(b: Backend) { FlagsOk(b) && Answered(b) && XactOk(b) }

  /** The live wakeups of a backend: an undelivered signal, the occurred flag, a handler
      activation, or a ProcessIncomingNotify that has not committed its scan. */
  ghost predicate Wake(b: Backend) { b.signalled || b.occurred || AnyWakes(b.stack) }

  /** What stands for an undelivered notification: a wakeup, or a scan that has failed. */
  ghost predicate Owed(b: Backend) { Wake(b) || b.failed }

  /** Waiting for a frontend command outside any transaction block. */
  predicate IsIdle(b: Backend) { b.stack == Main(Idle) }

  lemma {:induction false} OffRechecks(s: Stack)
    requires AnyOff(s)
    ensures AnyRechecks(s)
  {
    if !s.pc.Off() { OffRechecks(s.below); }
  }

  lemma PrologueKeeps(b: Backend)
    requires BackendOk(b) && InPrologue(b.stack)
    ensures BackendOk(AdvancePrologue(b)) && Owed(AdvancePrologue(b))
  {
    if b.Top().HandlerDefer? { OffRechecks(b.stack.below); }
  }

  lemma LoopKeepsFlags(b: Backend)
    requires FlagsOk(b) && b.Top().InLoop()
    ensures FlagsOk(AdvanceLoop(b))
  {
    match b.Top()
    case SetEnabled =>
    case TestOccurred =>
    case ClearEnabled =>
    case Retest =>
  }

  lemma LoopKeepsOk(b: Backend)
    requires BackendOk(b) && b.Top().InLoop()
    ensures BackendOk(AdvanceLoop(b))
  {
    LoopKeepsFlags(b);
  }

  lemma LoopKeepsOwed(b: Backend)
    requires b.Top().InLoop() && Owed(b)
    ensures Owed(AdvanceLoop(b))
  {
  }

  lemma OthersKeep(b: Backend)
    requires BackendOk(b)
    ensures b.Top().ScanStart? ==> BackendOk(StartScan(b)) && Owed(StartScan(b))
    ensures b.Top().Idle? || b.Top().WaitInBlock? ==> BackendOk(Disable(b)) && (Owed(b) ==> Owed(Disable(b)))
  {
  }

  /** Every instruction of a backend keeps the handshake, and keeps a wakeup alive. */
  lemma AdvanceKeeps(b: Backend)
    requires BackendOk(b) && RunsAlone(b.stack)
    ensures BackendOk(Advance(b))
    ensures Owed(b) ==> Owed(Advance(b))
  {
    if b.Top().InLoop() {
      LoopKeepsOk(b);
      if Owed(b) { LoopKeepsOwed(b); }
    } else if InPrologue(b.stack) {
      PrologueKeeps(b);
    } else {
      OthersKeep(b);
    }
  }

  /** So does the arrival of a signal, wherever it arrives. */
  lemma DeliverKeeps(b: Backend)
    requires BackendOk(b)
    ensures BackendOk(Deliver(b)) && Owed(Deliver(b))
  {
  }

  /** ProcessIncomingNotify is never entered re-entrantly; it runs only while the flag is
      clear, and only outside any transaction. */
  lemma {:induction false} ProcessNotReentrant(s: Stack)
    requires Disciplined(s)
    ensures Processing(s) <= 1
    ensures Processing(s) == 1 ==> AnyOff(s)
    ensures Processing(s) == 1 ==> MainPc(s).Idle? || MainPc(s).InLoop() || MainPc(s).InProcess()
  {
    match s
    case Main(_) =>
    case Handler(pc, below) =>
      ProcessNotReentrant(below);
      if pc.InProcess() { MainNotOff(below); }
  }

  lemma {:induction false} MainNotOff(s: Stack)
    requires Disciplined(s) && !AnyOff(s)
    ensures !MainPc(s).Off() && MainPc(s).ForMain()
  {
    if s.Handler? { MainNotOff(s.below); }
  }

  /** The main loop goes from one command or commit point to another. */
  lemma MainMoves(b: Backend, b': Backend)
    requires BackendOk(b) && b.stack.Main? && (b.Top().Cmd? || b.Top().InCommit())
    requires b'.stack.Main? && (b'.Top().Cmd? || b'.Top().WaitInBlock? || b'.Top().SetEnabled? || b'.Top().InCommit())
    requires b'.enabled == b.enabled && b'.occurred == b.occurred && b'.signalled == b.signalled
    requires b'.served == b.served && b'.delivered == b.delivered && b'.failed == b.failed && XactOk(b')
    ensures BackendOk(b') && Owed(b') == Owed(b)
  {
  }

  /** The scan of ProcessIncomingNotify moves on, and ends by going back to the loop. */
  lemma ScanKeeps(b: Backend, todo: set<Key>, base: nat, inbox: seq<Message>)
    requires BackendOk(b) && (b.Top().ScanLock? || b.Top().Scan?)
    ensures BackendOk(b.Goto(Scan(todo, base)).(inbox := inbox))
    ensures Owed(b.Goto(Scan(todo, base)).(inbox := inbox))
    ensures BackendOk(b.Goto(SetEnabled))
    ensures !MainPc(b.stack).InCommit()
    ensures b.stack.Handler? ==> Processing(b.stack.below) == 0
  {
    ProcessNotReentrant(b.stack);
  }

  /** A scan that fails leaves the backend in the enabling loop. */
  lemma FailKeeps(b: Backend)
    requires BackendOk(b) && (b.Top().ScanLock? || b.Top().Scan?)
    ensures BackendOk(FailScan(b)) && Owed(FailScan(b)) && !b.inXact
  {
    ProcessNotReentrant(b.stack);
  }

  /** A frame leaves the enabling loop exactly when it has seen the occurred flag clear, and at
      that moment the enabled flag is set.  A main loop that has left it is idle. */
  lemma LoopExit(b: Backend)
    requires BackendOk(b) && b.Top().TestOccurred?
    ensures b.enabled
    ensures b.occurred ==> Advance(b).stack == b.stack.(pc := ClearEnabled)
    ensures !b.occurred && b.stack.Main? ==> IsIdle(Advance(b))
    ensures !b.occurred && b.stack.Handler? ==> Advance(b).stack == b.stack.below
  {
  }

  /** An idle backend accepts signals and owes no scan for any signal it has taken. */
  lemma IdleIsClean(b: Backend)
    requires BackendOk(b) && IsIdle(b)
    ensures b.enabled && !b.occurred && b.served == b.delivered && !b.inXact
    ensures Wake(b) <==> b.signalled
  {
  }
}
