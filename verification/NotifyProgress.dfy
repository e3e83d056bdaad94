/**
  When a backend can go on: it waits for the lock or for a row, or it moves.  All can wait
  at once in one way only.
 */
module NotifyProgress {
  import opened Notify
  import opened NotifyBackend
  import opened NotifySafety
  import opened NotifyRuns
  import opened NotifyFailure

  /** A step that a backend takes by itself, and in which nothing goes wrong. */
  predicate OwnStep(step: Step) {
    !step.Start? && !step.Crash? && !step.Interrupt? && !step.Abort? && !step.ScanAbort?
  }

  ghost predicate CanMove(s: State, p: Pid) { exists step: Step :: step.p == p && OwnStep(step) && Guard(s, step) }

  /** The backend asks for the lock, which is taken, or for a row that its owner has deleted and not committed. */
  predicate Waits(s: State, p: Pid)
    requires p in s.backends
  {
    var pc := s.backends[p].Top();
    ((pc.CommitLock? || pc.ScanLock?) && s.lock.Held?) || (pc.CommitRow? && Blocked(s, pc.key))
  }

  /** At the commit loop and at a scan the backend holds the lock. */
  lemma TopHolds(s: State, p: Pid)
    requires Inv(s) && p in s.backends
    ensures var pc := s.backends[p].Top(); pc.CommitScan? || pc.CommitRow? || pc.Scan? ==> Holds(s, p)
    ensures s.backends[p].stack.Main? ==> s.backends[p].Top().ForMain()
    ensures s.backends[p].stack.Handler? ==> s.backends[p].Top().ForHandler()
  {
    assert BackendOk(s.backends[p]);
    hide DataOk, ListensOk;
  }

  /** A live backend can go on exactly if it does not wait. */
  lemma MovesExactly(s: State, p: Pid)
    requires Inv(s) && p in s.backends
    ensures CanMove(s, p) <==> !Waits(s, p)
  {
    TopHolds(s, p);
    hide Inv;
    var pc := s.backends[p].Top();
    if !Waits(s, p) {
      var step := NextStep(s, p);
      assert step.p == p && OwnStep(step) && Guard(s, step);
    }
  }

  lemma NextStep(s: State, p: Pid) returns (step: Step)
    requires p in s.backends && !Waits(s, p)
    requires var pc := s.backends[p].Top(); pc.CommitScan? || pc.CommitRow? || pc.Scan? ==> Holds(s, p)
    requires s.backends[p].stack.Main? ==> s.backends[p].Top().ForMain()
    requires s.backends[p].stack.Handler? ==> s.backends[p].Top().ForHandler()
    ensures step.p == p && OwnStep(step) && Guard(s, step)
  {
    match s.backends[p].Top()
    case Cmd => step := Enable(p);
    case CommitLock => step := CommitAcquire(p);
    case CommitRow(_, _) => step := CommitWrite(p);
    case CommitScan(todo) => if key :| key in todo { step := CommitVisit(p, key); } else { step := CommitFinish(p); }
    case ScanLock => step := ScanAcquire(p);
    case Scan(todo, _) => if key :| key in todo { step := ScanRow(p, key); } else { step := ScanFinish(p); }
    case _ => step := Run(p);
  }

  /** Between commands in a transaction every command can be given, those about listening while nobody has the
      lock, and the transaction can be ended either way. */
  lemma CommandsGiven(s: State, p: Pid, rel: Rel)
    requires p in s.backends && s.backends[p].stack == Main(Cmd) && s.backends[p].inXact
    ensures Guard(s, DoNotify(p, rel)) && Guard(s, Enable(p)) && Guard(s, Abort(p))
    ensures s.lock.Free? <==> Guard(s, DoListen(p, rel))
    ensures s.lock.Free? <==> Guard(s, DoUnlisten(p, rel))
    ensures s.lock.Free? <==> Guard(s, DoUnlistenAll(p))
    ensures if s.backends[p].pending == {} then Guard(s, CommitQuiet(p)) else Guard(s, StartCommit(p))
  {
  }

  // ---------------------------------------------------------------- deadlock

  /** The notifier h, in its commit, waits for the row of q, which has UNLISTENed it and, to commit a NOTIFY of its
      own, waits for the lock that h has. */
  predicate Cycle(s: State, h: Pid, q: Pid) {
    && Holds(s, h) && h in s.backends && q in s.backends && h != q
    && s.backends[h].Top().CommitRow? && s.backends[h].Top().key.pid == q
    && s.backends[h].Top().key in s.lock.working && s.lock.working[s.backends[h].Top().key] == 0
    && s.backends[h].Top().key.rel in s.backends[q].unlistens && s.backends[q].Top().CommitLock?
  }

  /** If no backend can go on there is such a cycle, so if there is none somebody can. */
  lemma StuckIsCycle(s: State) returns (h: Pid, q: Pid)
    requires Inv(s) && s.backends.Keys != {} && forall p | p in s.backends :: !CanMove(s, p)
    ensures Cycle(s, h, q)
  {
    hide CanMove, Inv;
    forall p | p in s.backends ensures Waits(s, p) { MovesExactly(s, p); }
    var p :| p in s.backends;
    TopHolds(s, p);
    assert s.lock.Held?;
    h := s.lock.holder;
    HolderAtRow(s);
    q := s.backends[h].Top().key.pid;
    TopHolds(s, q);
    UnlistenerInXact(s, q);
  }

  lemma HolderAtRow(s: State)
    requires Inv(s) && s.lock.Held? && (s.lock.holder in s.backends ==> Waits(s, s.lock.holder))
    ensures s.lock.holder in s.backends && s.backends[s.lock.holder].Top().CommitRow?
    ensures s.backends[s.lock.holder].Top().key.pid != s.lock.holder
  {
    var b := s.backends[s.lock.holder];
    assert BackendOk(b) && Holds(s, s.lock.holder);
    if Committing(b) { CommitterTop(b.stack); } else { ScannerTop(b.stack); }
  }

  /** Above a commit or a scan there are only activations that have not got to a loop. */
  lemma CommitterTop(s: Stack)
    requires Disciplined(s) && (MainPc(s).CommitScan? || MainPc(s).CommitRow?)
    ensures s.Handler? ==> s.pc.Transparent()
    ensures s.Main? ==> s.pc == MainPc(s)
  {
    if s.Handler? && !AnyOff(s.below) { MainNotOff(s.below); }
  }

  lemma {:induction false} ScanIsOff(s: Stack)
    requires FindScan(s).Scan?
    ensures AnyOff(s)
  {
    if s.Handler? && !s.pc.Scan? { ScanIsOff(s.below); }
  }

  lemma ScannerTop(s: Stack)
    requires Disciplined(s) && FindScan(s).Scan?
    ensures s.pc.Scan? || s.pc.Transparent()
  {
    if s.Handler? && !s.pc.Scan? { ScanIsOff(s.below); }
  }

  lemma UnlistenerInXact(s: State, q: Pid)
    requires Inv(s) && q in s.backends && s.backends[q].unlistens != {}
    ensures s.backends[q].inXact && !s.backends[q].Top().ScanLock?
  {
    assert BackendOk(s.backends[q]);
    ProcessNotReentrant(s.backends[q].stack);
  }

  // ---------------------------------------------------------------- a run in which it happens

  const GIVER := FRESH_BACKEND.(inXact := true, unlistens := {"r"})

  const ASKING := NOTIFIER.(stack := Main(CommitLock))

  lemma ReachesInv(s: State)
    requires Reaches(s)
    ensures Inv(s)
  {
    hide Inv;
    var states, steps :| IsRun(states, steps) && states[|steps|] == s;
    EveryRunKeepsInv(states, steps, |steps|);
  }

  lemma GivesUp()
    ensures Reaches(Both(GIVER, ASKING, 0, Free))
  {
    hide Reaches;
    Notifies();
    OneName();
    var a := Both(WAITING, ASKING, 0, Free);
    ReachesNext(a, Run(1));
    var b := Both(FRESH_BACKEND, ASKING, 0, Free);
    assert Apply(a, Run(1)) == b;
    ReachesNext(b, Begin(1));
    var c := Both(FRESH_BACKEND.(inXact := true), ASKING, 0, Free);
    assert Apply(b, Begin(1)) == c;
    ReachesNext(c, DoUnlisten(1, "r"));
    assert Apply(c, DoUnlisten(1, "r")) == Both(GIVER, ASKING, 0, Free);
  }

  const GIVING := GIVER.(pending := {"r"}, stack := Main(CommitLock))

  lemma BothAsk()
    ensures Reaches(Both(GIVING, ASKING, 0, Free))
  {
    hide Reaches;
    GivesUp();
    OneName();
    var a := Both(GIVER, ASKING, 0, Free);
    ReachesNext(a, DoNotify(1, "r"));
    var b := Both(GIVER.(pending := {"r"}), ASKING, 0, Free);
    assert Apply(a, DoNotify(1, "r")) == b;
    ReachesNext(b, StartCommit(1));
    assert Apply(b, StartCommit(1)) == Both(GIVING, ASKING, 0, Free);
  }

  const LOCK := Held(2, map[ROW := 0], {ROW}, 0)

  const AT_ROW := NOTIFIER.(stack := Main(CommitRow({}, ROW)))

  lemma OneLocks()
    ensures Reaches(Both(GIVING.(signalled := true), AT_ROW, 0, LOCK))
  {
    hide Reaches;
    BothAsk();
    OneName();
    var a := Both(GIVING, ASKING, 0, Free);
    ReachesNext(a, CommitAcquire(2));
    var b := Both(GIVING, NOTIFIER.(stack := Main(CommitScan({ROW}))), 0, LOCK);
    assert Visible(a.table, a.backends[2], 2) == {ROW};
    assert Apply(a, CommitAcquire(2)) == b;
    ReachesNext(b, CommitVisit(2, ROW));
    assert Apply(b, CommitVisit(2, ROW)) == Both(GIVING.(signalled := true), AT_ROW, 0, LOCK);
  }

  lemma SignalEntered()
    ensures Reaches(Both(GIVING.(stack := Handler(HandlerEntry, Main(CommitLock)), delivered := 1), AT_ROW, 0, LOCK))
  {
    hide Reaches;
    OneLocks();
    var a := Both(GIVING.(signalled := true), AT_ROW, 0, LOCK);
    ReachesNext(a, Interrupt(1));
    assert Apply(a, Interrupt(1)) ==
      Both(GIVING.(stack := Handler(HandlerEntry, Main(CommitLock)), delivered := 1), AT_ROW, 0, LOCK);
  }

  lemma SignalTaken()
    ensures Reaches(Both(GIVING.(occurred := true, delivered := 1), AT_ROW, 0, LOCK))
  {
    hide Reaches;
    SignalEntered();
    var b := Both(GIVING.(stack := Handler(HandlerEntry, Main(CommitLock)), delivered := 1), AT_ROW, 0, LOCK);
    ReachesNext(b, Run(1));
    var c := Both(GIVING.(stack := Handler(HandlerDefer, Main(CommitLock)), delivered := 1), AT_ROW, 0, LOCK);
    assert Apply(b, Run(1)) == c;
    ReachesNext(c, Run(1));
    assert Apply(c, Run(1)) == Both(GIVING.(occurred := true, delivered := 1), AT_ROW, 0, LOCK);
  }

  /** There is a run to two backends that wait for each other, with no signal on its way. */
  lemma CycleRun() returns (s: State)
    ensures Reaches(s) && Cycle(s, 2, 1)
    ensures forall p | p in s.backends :: !CanMove(s, p) && !s.backends[p].signalled
  {
    SignalTaken();
    s := Both(GIVING.(occurred := true, delivered := 1), AT_ROW, 0, LOCK);
    ReachesInv(s);
    hide Reaches, Inv;
    forall p | p in s.backends ensures !CanMove(s, p) && !s.backends[p].signalled { MovesExactly(s, p); }
  }
}
