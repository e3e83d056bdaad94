/**
  What an error in ProcessIncomingNotify does: the signal is used up, and the rows
  stay as they are until the next one.
 */
module NotifyFailure {
  import opened Notify
  import opened NotifyBackend
  import opened NotifyRuns

  /** Some run comes to this state. */
  ghost predicate Reaches(s: State) { exists states, steps :: IsRun(states, steps) && states[|steps|] == s }

  lemma ReachesNext(s: State, step: Step)
    requires Reaches(s) && Guard(s, step)
    ensures Reaches(Apply(s, step))
  {
    hide Guard, Apply;
    var states, steps :| IsRun(states, steps) && states[|steps|] == s;
    var states', steps' := states + [Apply(s, step)], steps + [step];
    forall i | 0 <= i < |steps'| ensures StepAt(states', steps', i) {
      if i < |steps| { assert StepAt(states, steps, i); }
    }
    assert IsRun(states', steps') && states'[|steps'|] == Apply(s, step);
  }

  ghost function AfterFailure(s: State, p: Pid): State
    requires Guard(s, ScanAbort(p)) && !s.backends[p].occurred
  {
    Apply(Apply(Apply(s, ScanAbort(p)), Run(p)), Run(p))
  }

  /** After a scan that fails with no other signal taken the backend comes to wait for a command with every row
      as it was.  So a notification is left at that point exactly if there was one when the scan failed. */
  lemma FailedScanLeavesRows(s: State, p: Pid)
    requires Reaches(s) && Guard(s, ScanAbort(p)) && !s.backends[p].occurred && !s.backends[p].signalled
    ensures var s' := AfterFailure(s, p);
      Reaches(s') && p in s'.backends && IsIdle(s'.backends[p]) && !s'.backends[p].signalled && s'.table == s.table
  {
    var t := Apply(s, ScanAbort(p));
    ReachesNext(s, ScanAbort(p));
    ReachesNext(t, Run(p));
    ReachesNext(Apply(t, Run(p)), Run(p));
  }

  // ---------------------------------------------------------------- a run in which it happens

  const ROW := Key("r", 1)

  const WAITING := FRESH_BACKEND.(enabled := true, stack := Main(Idle))

  lemma OneName()
    ensures {} + {"r"} == {"r"} && {ROW} - {ROW} == {} && map[ROW := 0].Keys == {ROW}
    ensures map[ROW := 0][ROW := 2] == map[ROW := 2]
  {
  }

  lemma Begins()
    ensures Reaches(State(map[1 := FRESH_BACKEND.(inXact := true, listens := {"r"})], {1}, map[], Free))
  {
    var none: seq<Step> := [];
    assert IsRun([INITIAL], none) && [INITIAL][|none|] == INITIAL;
    hide Reaches;
    ReachesNext(INITIAL, Start(1));
    var a := State(map[1 := FRESH_BACKEND], {1}, map[], Free);
    assert Apply(INITIAL, Start(1)) == a;
    ReachesNext(a, Begin(1));
    var b := State(map[1 := FRESH_BACKEND.(inXact := true)], {1}, map[], Free);
    assert Apply(a, Begin(1)) == b;
    ReachesNext(b, DoListen(1, "r"));
    OneName();
    assert Apply(b, DoListen(1, "r")) ==
      State(map[1 := FRESH_BACKEND.(inXact := true, listens := {"r"})], {1}, map[], Free);
  }

  lemma Listens()
    ensures Reaches(State(map[1 := WAITING], {1}, map[ROW := 0], Free))
  {
    hide Reaches;
    Begins();
    var b := State(map[1 := FRESH_BACKEND.(inXact := true, listens := {"r"})], {1}, map[], Free);
    ReachesNext(b, CommitQuiet(1));
    var c := State(map[1 := FRESH_BACKEND], {1}, map[ROW := 0], Free);
    assert Apply(b, CommitQuiet(1)) == c;
    ReachesNext(c, Enable(1));
    ReachesNext(Apply(c, Enable(1)), Run(1));
    var d := State(map[1 := FRESH_BACKEND.(enabled := true, stack := Main(TestOccurred))], {1}, map[ROW := 0], Free);
    assert Apply(Apply(c, Enable(1)), Run(1)) == d;
    ReachesNext(d, Run(1));
    assert Apply(d, Run(1)) == State(map[1 := WAITING], {1}, map[ROW := 0], Free);
  }

  /** The state in the middle: backend 1 listens, and backend 2 is as given. */
  ghost function Both(b: Backend, c: Backend, n: Pid, lock: Lock): State {
    State(map[1 := b, 2 := c], {1, 2}, map[ROW := n], lock)
  }

  const NOTIFIER := FRESH_BACKEND.(inXact := true, pending := {"r"})

  lemma Notifies()
    ensures Reaches(Both(WAITING, NOTIFIER.(stack := Main(CommitLock)), 0, Free))
  {
    hide Reaches;
    Listens();
    OneName();
    var a := State(map[1 := WAITING], {1}, map[ROW := 0], Free);
    ReachesNext(a, Start(2));
    var b := Both(WAITING, FRESH_BACKEND, 0, Free);
    assert Apply(a, Start(2)) == b;
    ReachesNext(b, Begin(2));
    var c := Both(WAITING, FRESH_BACKEND.(inXact := true), 0, Free);
    assert Apply(b, Begin(2)) == c;
    ReachesNext(c, DoNotify(2, "r"));
    var d := Both(WAITING, NOTIFIER, 0, Free);
    assert Apply(c, DoNotify(2, "r")) == d;
    ReachesNext(d, StartCommit(2));
    assert Apply(d, StartCommit(2)) == Both(WAITING, NOTIFIER.(stack := Main(CommitLock)), 0, Free);
  }

  lemma Signals()
    ensures var lock := Held(2, map[ROW := 0], {ROW}, 0);
      Reaches(Both(WAITING.(signalled := true), NOTIFIER.(stack := Main(CommitRow({}, ROW))), 0, lock))
  {
    hide Reaches;
    Notifies();
    OneName();
    var a := Both(WAITING, NOTIFIER.(stack := Main(CommitLock)), 0, Free);
    ReachesNext(a, CommitAcquire(2));
    var b := Both(WAITING, NOTIFIER.(stack := Main(CommitScan({ROW}))), 0, Held(2, map[ROW := 0], {ROW}, 0));
    assert Visible(a.table, a.backends[2], 2) == {ROW};
    assert Apply(a, CommitAcquire(2)) == b;
    ReachesNext(b, CommitVisit(2, ROW));
    assert Apply(b, CommitVisit(2, ROW)) ==
      Both(WAITING.(signalled := true), NOTIFIER.(stack := Main(CommitRow({}, ROW))), 0, b.lock);
  }

  lemma Commits()
    ensures Reaches(Both(WAITING.(signalled := true), FRESH_BACKEND, 2, Free))
  {
    hide Reaches;
    Signals();
    OneName();
    var woken := WAITING.(signalled := true);
    var c := Both(woken, NOTIFIER.(stack := Main(CommitRow({}, ROW))), 0, Held(2, map[ROW := 0], {ROW}, 0));
    ReachesNext(c, CommitWrite(2));
    var d := Both(woken, NOTIFIER.(stack := Main(CommitScan({}))), 0, Held(2, map[ROW := 2], {ROW}, 0));
    assert Apply(c, CommitWrite(2)) == d;
    ReachesNext(d, CommitFinish(2));
    assert Publish(d.lock.working, d.backends[2], 2) == map[ROW := 2];
    assert Apply(d, CommitFinish(2)) == Both(woken, FRESH_BACKEND, 2, Free);
  }

  ghost function Handling(pc: Pc, enabled: bool, occurred: bool, served: nat): State {
    Both(WAITING.(enabled := enabled, occurred := occurred, stack := Handler(pc, Main(Idle)), delivered := 1,
                  served := served), FRESH_BACKEND, 2, Free)
  }

  lemma Interrupts()
    ensures Reaches(Handling(SetEnabled, false, true, 0))
  {
    Commits();
    hide Reaches;
    var a := Both(WAITING.(signalled := true), FRESH_BACKEND, 2, Free);
    ReachesNext(a, Interrupt(1));
    assert Apply(a, Interrupt(1)) == Handling(HandlerEntry, true, false, 0);
    hide Apply;
    Goes(HandlerEntry, true, false, 0, HandlerDisable, true, false, 0);
    Goes(HandlerDisable, true, false, 0, HandlerMark, false, false, 0);
    Goes(HandlerMark, false, false, 0, SetEnabled, false, true, 0);
  }

  lemma Handles()
    ensures Reaches(Handling(ScanLock, false, false, 1))
  {
    Interrupts();
    hide Reaches, Apply;
    Goes(SetEnabled, false, true, 0, TestOccurred, true, true, 0);
    Goes(TestOccurred, true, true, 0, ClearEnabled, true, true, 0);
    Goes(ClearEnabled, true, true, 0, Retest, false, true, 0);
    Goes(Retest, false, true, 0, ScanStart, false, true, 0);
    Goes(ScanStart, false, true, 0, ScanLock, false, false, 1);
  }

  lemma Goes(pc: Pc, e: bool, o: bool, n: nat, pc': Pc, e': bool, o': bool, n': nat)
    requires Reaches(Handling(pc, e, o, n)) && Guard(Handling(pc, e, o, n), Run(1))
    requires Advance(Handling(pc, e, o, n).backends[1]) == Handling(pc', e', o', n').backends[1]
    ensures Reaches(Handling(pc', e', o', n'))
  {
    ReachesNext(Handling(pc, e, o, n), Run(1));
    assert Apply(Handling(pc, e, o, n), Run(1)) == Handling(pc', e', o', n');
  }

  /** There is a run to a backend that waits for a command, with no signal on its way and a notification left. */
  lemma NotificationLeft() returns (s: State)
    ensures Reaches(s) && 1 in s.backends && IsIdle(s.backends[1]) && !s.backends[1].signalled
    ensures ROW in s.table && s.table[ROW] != 0
  {
    Handles();
    FailedScanLeavesRows(Handling(ScanLock, false, false, 1), 1);
    s := AfterFailure(Handling(ScanLock, false, false, 1), 1);
  }
}
