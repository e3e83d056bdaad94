/**
  The NOTIFY/LISTEN protocol: several backends share the table pg_listener
  under an exclusive lock and wake each other with SIGUSR2.

  The model is a step relation.  Every assignment and every test of the two
  volatile flags is a step of its own, a signal may be delivered between any
  two steps, and a handler may itself be interrupted, so each backend carries
  a stack of program points.  A writer of pg_listener works on a private copy
  of the table while it holds the lock and publishes the copy when it commits.
 */
module Notify {

  type Pid = nat                // 0 is "no notification pending"
  type Rel = string

  datatype Key = Key(rel: Rel, pid: Pid)
  type Table = map<Key, Pid>    // pg_listener: (relname, listenerPID) -> notification

  /** What NotifyMyFrontEnd sends. */
  datatype Message = Message(rel: Rel, source: Pid)

  /** Program points.  A backend's bottom frame is its main loop; every frame
      above it is an activation of the signal handler. */
  datatype Pc =
    // main loop
    | Cmd | WaitInBlock | Idle
    | CommitLock | CommitScan(todo: set<Key>) | CommitRow(todo: set<Key>, key: Key)
    // the enabling loop of EnableNotifyInterrupt and of Async_NotifyHandler
    | SetEnabled | TestOccurred | ClearEnabled | Retest
    // ProcessIncomingNotify, called from that loop
    | ScanStart | ScanLock | Scan(todo: set<Key>, base: nat)
    // Async_NotifyHandler before its loop, and its path for a disabled backend
    | HandlerEntry | HandlerDisable | HandlerMark | HandlerDefer
  {
    predicate InLoop() { SetEnabled? || TestOccurred? || ClearEnabled? || Retest? }
    predicate InProcess() { ScanStart? || ScanLock? || Scan? }
    predicate InCommit() { CommitLock? || CommitScan? || CommitRow? }
    predicate ForMain() { Cmd? || WaitInBlock? || Idle? || InCommit() || InLoop() || InProcess() }
    predicate ForHandler() {
      HandlerEntry? || HandlerDisable? || HandlerMark? || HandlerDefer? || InLoop() || InProcess()
    }

    /** At these points notifyInterruptEnabled is clear. */
    predicate Off() {
      Cmd? || WaitInBlock? || InCommit() || SetEnabled? || Retest? || InProcess() || HandlerMark?
    }

    /** A handler activation that has not touched notifyInterruptEnabled. */
    predicate Transparent() { HandlerEntry? || HandlerDefer? }

    /** From here notifyInterruptOccurred is tested again before going idle. */
    predicate Rechecks() { Cmd? || WaitInBlock? || InCommit() || InLoop() || InProcess() || HandlerMark? }

    /** A handler activation, or a call of ProcessIncomingNotify, not yet started. */
    predicate Unserved() { HandlerEntry? || HandlerDisable? || HandlerMark? || HandlerDefer? || ScanStart? }

    /** A scan of pg_listener that is still to be committed follows from here. */
    predicate Wakes() { Unserved() || ScanLock? || Scan? }
  }

  /** The call stack of a process: the main loop, and handler activations on top of it. */
  datatype Stack = Main(pc: Pc) | Handler(pc: Pc, below: Stack)

  /** One backend process.  `delivered`, `served` and `failed` are history variables: how
      many signals the handler has been entered for, that count when
      ProcessIncomingNotify last started, and whether it has failed since. */
  datatype Backend = Backend(
    enabled: bool, occurred: bool, signalled: bool,
    stack: Stack,
    inXact: bool, pending: set<Rel>, listens: set<Rel>, unlistens: set<Rel>,
    inbox: seq<Message>,
    delivered: nat, served: nat, failed: bool)
  {
    function Top(): Pc { stack.pc }
    function Goto(pc: Pc): Backend { this.(stack := stack.(pc := pc)) }
    function Return(): Backend requires stack.Handler? { this.(stack := stack.below) }
  }

  /** The lock on pg_listener, with its holder's private copy of the table.  `began` and `from` are history
      variables: the rows there when the lock was taken that have not been given up since, and the number of
      messages the holder had sent. */
  datatype Lock = Free | Held(holder: Pid, working: Table, began: set<Key>, from: nat)

  /** `used` holds the process ids handed out so far: an id is not used twice. */
  datatype State = State(backends: map<Pid, Backend>, used: set<Pid>, table: Table, lock: Lock)

  const INITIAL := State(map[], {}, map[], Free)

  const FRESH_BACKEND := Backend(false, false, false, Main(Cmd), false, {}, {}, {}, [], 0, 0, false)

  // ---------------------------------------------------------------- steps of one backend

  predicate InPrologue(stack: Stack) {
    stack.Handler?
    && (stack.pc.HandlerEntry? || stack.pc.HandlerDisable? || stack.pc.HandlerMark? || stack.pc.HandlerDefer?)
  }

  /** Async_NotifyHandler up to its loop. */
  function AdvancePrologue(b: Backend): Backend
    requires InPrologue(b.stack)
  {
    match b.Top()
    case HandlerEntry => b.Goto(if b.enabled then HandlerDisable else HandlerDefer)
    case HandlerDisable => b.Goto(HandlerMark).(enabled := false)
    case HandlerMark => b.Goto(SetEnabled).(occurred := true)
    case HandlerDefer => b.Return().(occurred := true)
  }

  /** The enabling loop; its activation returns when the occurred flag is clear. */
  function AdvanceLoop(b: Backend): Backend
    requires b.Top().InLoop()
  {
    match b.Top()
    case SetEnabled => b.Goto(TestOccurred).(enabled := true)
    case TestOccurred =>
      if b.occurred then b.Goto(ClearEnabled)
      else if b.stack.Main? then b.Goto(Idle)
      else b.Return()
    case ClearEnabled => b.Goto(Retest).(enabled := false)
    case Retest => b.Goto(if b.occurred then ScanStart else SetEnabled)
  }

  /** ReadCommand returns, and DisableNotifyInterrupt. */
  function Disable(b: Backend): Backend { b.Goto(Cmd).(enabled := false) }

  /** ProcessIncomingNotify starts. */
  function StartScan(b: Backend): Backend {
    b.Goto(ScanLock).(occurred := false, served := b.delivered, failed := false)
  }

  predicate RunsAlone(stack: Stack) {
    stack.pc.Idle? || stack.pc.WaitInBlock? || stack.pc.InLoop() || stack.pc.ScanStart? || InPrologue(stack)
  }

  /** The next instruction at a program point that touches only the backend's own flags. */
  function Advance(b: Backend): Backend
    requires RunsAlone(b.stack)
  {
    if b.Top().Idle? || b.Top().WaitInBlock? then Disable(b)
    else if b.Top().InLoop() then AdvanceLoop(b)
    else if b.Top().ScanStart? then StartScan(b)
    else AdvancePrologue(b)
  }

  /** The kernel enters the handler: the pending signal is consumed. */
  function Deliver(b: Backend): Backend {
    b.(signalled := false, stack := Handler(HandlerEntry, b.stack), delivered := b.delivered + 1)
  }

  function EndXact(b: Backend): Backend
  {
    b.Goto(Cmd).(inXact := false, pending := {}, listens := {}, unlistens := {})
  }

  /** An error in ProcessIncomingNotify: all activations are left for the main loop, which goes on to
      EnableNotifyInterrupt. */
  function FailScan(b: Backend): Backend { b.(stack := Main(SetEnabled), failed := true) }

  /** EnableNotifyInterrupt returns at once inside a transaction block. */
  function EnterEnable(b: Backend): Backend
  {
    b.Goto(if b.inXact then WaitInBlock else SetEnabled)
  }

  predicate SeesRow(t: Table, b: Backend, k: Key) {
    k.rel in b.listens || (k in t && k.rel !in b.unlistens)
  }

  function Listen(t: Table, b: Backend, k: Key): Backend {
    if SeesRow(t, b, k) then b else b.(listens := b.listens + {k.rel})
  }

  function Unlisten(t: Table, b: Backend, k: Key): Backend {
    if k.rel in b.listens then b.(listens := b.listens - {k.rel})
    else if k in t then b.(unlistens := b.unlistens + {k.rel})
    else b
  }

  function UnlistenAll(t: Table, b: Backend, p: Pid): Backend {
    b.(listens := {}, unlistens := b.unlistens + set k | k in t && k.pid == p :: k.rel)
  }

  /** The rows that p sees when it commits, its own uncommitted changes included. */
  function Visible(t: Table, b: Backend, p: Pid): set<Key> {
    (set k | k in t && !(k.pid == p && k.rel in b.unlistens)) + (set r | r in b.listens :: Key(r, p))
  }

  /** The table after p's own uncommitted deletes and inserts become visible. */
  function Publish(t: Table, b: Backend, p: Pid): Table {
    (map k | k in t && !(k.pid == p && k.rel in b.unlistens) :: t[k])
    + (map r | r in b.listens :: Key(r, p) := 0)
  }

  /** The rows that p's commit does not delete. */
  function Kept(rows: set<Key>, b: Backend, p: Pid): set<Key> {
    set k | k in rows && !(k.pid == p && k.rel in b.unlistens)
  }

  // ---------------------------------------------------------------- steps of the system

  datatype Step =
    | Start(p: Pid) | Crash(p: Pid)
    | Interrupt(p: Pid) | Run(p: Pid)
    | Begin(p: Pid) | Enable(p: Pid)
    | DoNotify(p: Pid, rel: Rel) | DoListen(p: Pid, rel: Rel) | DoUnlisten(p: Pid, rel: Rel) | DoUnlistenAll(p: Pid)
    | StartCommit(p: Pid) | CommitQuiet(p: Pid)
    | CommitAcquire(p: Pid) | CommitVisit(p: Pid, key: Key) | CommitWrite(p: Pid) | CommitFinish(p: Pid)
    | Abort(p: Pid)
    | ScanAcquire(p: Pid) | ScanRow(p: Pid, key: Key) | ScanFinish(p: Pid) | ScanAbort(p: Pid)

  predicate Alive(s: State, p: Pid) { p in s.backends }

  predicate Holds(s: State, p: Pid) { s.lock.Held? && s.lock.holder == p }

  /** heap_update waits for a listener whose own uncommitted UNLISTEN deleted the row.  A row that holds a
      notification is not updated. */
  predicate Blocked(s: State, k: Key) {
    && s.lock.Held? && k in s.lock.working && s.lock.working[k] == 0
    && k.pid in s.backends && k.rel in s.backends[k.pid].unlistens
  }

  predicate Guard(s: State, step: Step) {
    match step
    case Start(p) => p != 0 && p !in s.used && p !in s.backends
    case Crash(p) => Alive(s, p)
    case Interrupt(p) => Alive(s, p) && s.backends[p].signalled
    case Run(p) => Alive(s, p) && RunsAlone(s.backends[p].stack)
    case Begin(p) => Alive(s, p) && s.backends[p].Top().Cmd? && !s.backends[p].inXact
    case Enable(p) => Alive(s, p) && s.backends[p].Top().Cmd?
    case DoNotify(p, rel) => Alive(s, p) && s.backends[p].Top().Cmd? && s.backends[p].inXact
    case DoListen(p, rel) => Alive(s, p) && s.backends[p].Top().Cmd? && s.backends[p].inXact && s.lock.Free?
    case DoUnlisten(p, rel) => Alive(s, p) && s.backends[p].Top().Cmd? && s.backends[p].inXact && s.lock.Free?
    case DoUnlistenAll(p) => Alive(s, p) && s.backends[p].Top().Cmd? && s.backends[p].inXact && s.lock.Free?
    case StartCommit(p) =>
      Alive(s, p) && s.backends[p].Top().Cmd? && s.backends[p].inXact && s.backends[p].pending != {}
    case CommitQuiet(p) =>
      Alive(s, p) && s.backends[p].Top().Cmd? && s.backends[p].inXact && s.backends[p].pending == {}
    case CommitAcquire(p) => Alive(s, p) && s.backends[p].Top().CommitLock? && s.lock.Free?
    case CommitVisit(p, key) =>
      Alive(s, p) && Holds(s, p) && s.backends[p].Top().CommitScan? && key in s.backends[p].Top().todo
    case CommitWrite(p) =>
      Alive(s, p) && Holds(s, p) && s.backends[p].Top().CommitRow? && !Blocked(s, s.backends[p].Top().key)
    case CommitFinish(p) =>
      Alive(s, p) && Holds(s, p) && s.backends[p].Top().CommitScan? && s.backends[p].Top().todo == {}
    case Abort(p) => Alive(s, p) && s.backends[p].inXact && (s.backends[p].Top().Cmd? || s.backends[p].Top().InCommit())
    case ScanAcquire(p) => Alive(s, p) && s.backends[p].Top().ScanLock? && s.lock.Free?
    case ScanRow(p, key) => Alive(s, p) && Holds(s, p) && s.backends[p].Top().Scan? && key in s.backends[p].Top().todo
    case ScanFinish(p) => Alive(s, p) && Holds(s, p) && s.backends[p].Top().Scan? && s.backends[p].Top().todo == {}
    case ScanAbort(p) => Alive(s, p) && (s.backends[p].Top().ScanLock? || s.backends[p].Top().Scan?)
  }

  function Put(s: State, p: Pid, b: Backend): State { s.(backends := s.backends[p := b]) }

  function Unlock(s: State, p: Pid): State { if Holds(s, p) then s.(lock := Free) else s }

  /** The row is of a NOTIFYed name and of another process. */
  predicate IsForOther(s: State, p: Pid, key: Key)
    requires Guard(s, CommitVisit(p, key))
  {
    key.rel in s.backends[p].pending && key.pid != p && key in s.lock.working
  }

  /** One row of the loop of AtCommit_Notify, for the notifier itself: nothing to do, a message to its own
      frontend, or a row that is to be written. */
  function VisitOwn(s: State, p: Pid, key: Key): Backend
    requires Guard(s, CommitVisit(p, key))
  {
    var b := s.backends[p];
    var rest := b.Top().todo - {key};
    if IsForOther(s, p, key) && key.pid in s.backends then b.Goto(CommitRow(rest, key))
    else if key.rel in b.pending && key.pid == p then
      b.Goto(CommitScan(rest)).(inbox := b.inbox + [Message(key.rel, p)])
    else b.Goto(CommitScan(rest))
  }

  /** And for the others: the row of a dead process is removed, and a live one is sent a signal before its row is
      written. */
  function Visit(s: State, p: Pid, key: Key): State
    requires Guard(s, CommitVisit(p, key))
  {
    var t := if !IsForOther(s, p, key) then s
      else if key.pid !in s.backends then s.(lock := s.lock.(working := s.lock.working - {key}))
      else Put(s, key.pid, s.backends[key.pid].(signalled := true));
    Put(t, p, VisitOwn(s, p, key))
  }

  /** One row of the loop of ProcessIncomingNotify. */
  function ScanOne(s: State, p: Pid, key: Key): State
    requires Guard(s, ScanRow(p, key))
  {
    var b := s.backends[p];
    var w := s.lock.working;
    var b' := b.Goto(Scan(b.Top().todo - {key}, b.Top().base));
    if key in w && w[key] != 0 then
      Put(s, p, b'.(inbox := b.inbox + [Message(key.rel, w[key])])).(lock := s.lock.(working := w[key := 0]))
    else Put(s, p, b')
  }

  /** A commit of p without pending NOTIFYs; a lock holder sees its effect too. */
  function Quiet(s: State, p: Pid): State
    requires Alive(s, p)
  {
    var b := s.backends[p];
    Put(s, p, EndXact(b)).(
      table := Publish(s.table, b, p),
      lock := if s.lock.Held? then s.lock.(working := Publish(s.lock.working, b, p), began := Kept(s.lock.began, b, p))
        else Free)
  }

  function Apply(s: State, step: Step): State
    requires Guard(s, step)
  {
    match step
    case Start(p) => Put(s, p, FRESH_BACKEND).(used := s.used + {p})
    case Crash(p) => Unlock(s, p).(backends := s.backends - {p})
    case Interrupt(p) => Put(s, p, Deliver(s.backends[p]))
    case Run(p) => Put(s, p, Advance(s.backends[p]))
    case Begin(p) => Put(s, p, s.backends[p].(inXact := true))
    case Enable(p) => Put(s, p, EnterEnable(s.backends[p]))
    case DoNotify(p, rel) => Put(s, p, s.backends[p].(pending := s.backends[p].pending + {rel}))
    case DoListen(p, rel) => Put(s, p, Listen(s.table, s.backends[p], Key(rel, p)))
    case DoUnlisten(p, rel) => Put(s, p, Unlisten(s.table, s.backends[p], Key(rel, p)))
    case DoUnlistenAll(p) => Put(s, p, UnlistenAll(s.table, s.backends[p], p))
    case StartCommit(p) => Put(s, p, s.backends[p].Goto(CommitLock))
    case CommitQuiet(p) => Quiet(s, p)
    case CommitAcquire(p) =>
      var b := s.backends[p];
      Put(s, p, b.Goto(CommitScan(Visible(s.table, b, p)))).(lock := Held(p, s.table, s.table.Keys, |b.inbox|))
    case CommitVisit(p, key) => Visit(s, p, key)
    case CommitWrite(p) =>
      var key := s.backends[p].Top().key;
      var w := s.lock.working;
      Put(s, p, s.backends[p].Goto(CommitScan(s.backends[p].Top().todo))).(
        lock := s.lock.(working := if key in w && w[key] == 0 then w[key := p] else w))
    case CommitFinish(p) =>
      Put(s, p, EndXact(s.backends[p])).(table := Publish(s.lock.working, s.backends[p], p), lock := Free)
    case Abort(p) => Put(Unlock(s, p), p, EndXact(s.backends[p]))
    case ScanAcquire(p) =>
      var b := s.backends[p];
      Put(s, p, b.Goto(Scan(set k | k in s.table && k.pid == p, |b.inbox|))).(lock :=
        Held(p, s.table, s.table.Keys, |b.inbox|))
    case ScanRow(p, key) => ScanOne(s, p, key)
    case ScanFinish(p) => Put(s, p, s.backends[p].Goto(SetEnabled)).(table := s.lock.working, lock := Free)
    case ScanAbort(p) => Put(Unlock(s, p), p, FailScan(s.backends[p]))
  }
}
