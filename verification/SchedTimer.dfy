/** What a timer interrupt or a call of yield does over a run (kernel/syscall/trap.c,
    kernel/process/scheduler.c): the process gives up its CPU before it goes on, and a trap returns to
    where it was taken. */
module SchedTimer {
  import opened Common
  import opened Sched
  import opened SchedInv
  import opened SchedTheorems

  // ---- the process yields ----

  // CPU c executes p, on the way to setting p RUNNABLE.
  predicate Yielding(s: State, c: nat, p: nat) {
    && c < |s.cpus| && p < |s.procs| && s.cpus[c].running == Some(p)
    && (s.procs[p].pc.PTrap? || s.procs[p].pc.PAcq? || s.procs[p].pc.PSpin? || s.procs[p].pc.PSet?)
  }

  // The steps that enter yield or the handler that calls it, and those a process takes only once it is
  // out again.
  predicate Enters(a: Action) {
    a.Timer? || a.CallYield?
  }

  predicate Out(a: Action) {
    a.Iret? || a.YieldRelease? || a.CallYield? || a.SetFlag?
  }

  lemma EntersYielding(s: State, c: nat, a: Action, p: nat)
    requires Enabled(s, c, a) && Enters(a) && s.cpus[c].running == Some(p)
    ensures Yielding(Do(s, c, a), c, p)
  {
  }

  // Only SetRunnable leads on.
  lemma YieldingOwn(s: State, c: nat, a: Action, p: nat)
    requires Inv(s) && Enabled(s, c, a) && Yielding(s, c, p) && a != SetRunnable
    ensures !Out(a) && Yielding(Do(s, c, a), c, p)
  {
    hide ProcOk, PidsOk, LockOk, OwnThreadOk;
    assert CpuOk(s, c);
  }

  lemma YieldingOther(s: State, d: nat, a: Action, c: nat, p: nat)
    requires Inv(s) && Enabled(s, d, a) && d != c && Yielding(s, c, p)
    ensures Yielding(Do(s, d, a), c, p)
  {
    hide ProcStep, CpuStep, Enabled, PidsOk, LockOk, OwnThreadOk;
    OwnedStays(s, d, a, c, p);
  }

  // A CPU's record and the process it executes change by its own steps only.
  lemma OwnedStays(s: State, d: nat, a: Action, c: nat, p: nat)
    requires Inv(s) && Enabled(s, d, a) && d != c && c < |s.cpus| && s.cpus[c].running == Some(p)
    ensures var s' := Do(s, d, a);
            |s'.cpus| == |s.cpus| && s'.cpus[c] == s.cpus[c] && p < |s.procs| == |s'.procs| && s'.procs[p] == s.procs[p]
  {
    hide ProcStep, CpuStep, Enabled, PidsOk, LockOk, OwnThreadOk, ProcOk;
    EnabledCpu(s, d, a);
    assert CpuOk(s, c) && CpuOk(s, d);
    if InProcess(a) { ProcStepWrites(s, d, a); } else { CpuStepWrites(s, d, a); }
  }

  lemma {:induction false} StillYielding(ss: seq<State>, es: seq<Event>, i: nat, j: nat, c: nat, p: nat)
    requires IsRun(ss, es) && i <= j < |ss| && Yielding(ss[i], c, p)
    requires forall k | i <= k < j :: !(es[k].act == SetRunnable && ByProc(ss, es, k, p))
    ensures Yielding(ss[j], c, p)
    decreases j
  {
    hide Init, Inv, Enabled, Do, Yielding;
    if i < j {
      StillYielding(ss, es, i, j - 1, c, p);
      assert Follows(ss, es, j - 1);
      RunInv(ss, es, j - 1);
      YieldingRuns(ss[j - 1], c, p);
      assert !(es[j - 1].act == SetRunnable && ByProc(ss, es, j - 1, p));
      if es[j - 1].cpu == c {
        YieldingOwn(ss[j - 1], c, es[j - 1].act, p);
      } else {
        YieldingOther(ss[j - 1], es[j - 1].cpu, es[j - 1].act, c, p);
      }
    }
  }

  lemma YieldingRuns(s: State, c: nat, p: nat)
    requires Yielding(s, c, p)
    ensures c < |s.cpus| && s.cpus[c].running == Some(p)
    ensures InProcess(SetRunnable)
  {
  }

  lemma NotBackYet(ss: seq<State>, es: seq<Event>, j: nat, c: nat, p: nat)
    requires IsRun(ss, es) && j < |es| && Yielding(ss[j], c, p)
    ensures !(Out(es[j].act) && ByProc(ss, es, j, p))
  {
    hide Init, Inv, Yielding;
    RunInv(ss, es, j);
    assert Follows(ss, es, j);
    if Out(es[j].act) { OutIsAnother(ss[j], es[j].cpu, es[j].act, c, p); }
  }

  lemma OutIsAnother(s: State, d: nat, a: Action, c: nat, p: nat)
    requires Inv(s) && Yielding(s, c, p) && Enabled(s, d, a) && Out(a)
    ensures s.cpus[d].running != Some(p)
  {
    hide ProcOk, PidsOk, LockOk, OwnThreadOk;
    assert CpuOk(s, c) && CpuOk(s, d);
  }

  // Between a timer interrupt of process p, or its call of yield, and the return from it, p sets itself
  // RUNNABLE; likewise before it does anything else outside.
  lemma TimerYields(ss: seq<State>, es: seq<Event>, i: nat, j: nat, p: nat)
    requires IsRun(ss, es) && i < j < |es|
    requires Enters(es[i].act) && ByProc(ss, es, i, p)
    requires Out(es[j].act) && ByProc(ss, es, j, p)
    ensures exists k | i < k < j :: es[k].act == SetRunnable && ByProc(ss, es, k, p)
  {
    hide Init, Inv;
    var c := es[i].cpu;
    assert Follows(ss, es, i);
    EntersYielding(ss[i], c, es[i].act, p);
    if forall k | i < k < j :: !(es[k].act == SetRunnable && ByProc(ss, es, k, p)) {
      StillYielding(ss, es, i + 1, j, c, p);
      NotBackYet(ss, es, j, c, p);
    }
  }

  // ---- and is dispatched again only after it has switched away ----

  lemma RunningOwn(s: State, c: nat, a: Action, p: nat)
    requires Enabled(s, c, a) && s.cpus[c].running == Some(p) && a != SwitchOut
    ensures c < |Do(s, c, a).cpus| && Do(s, c, a).cpus[c].running == Some(p)
  {
  }

  lemma {:induction false} StillRunning(ss: seq<State>, es: seq<Event>, i: nat, j: nat, c: nat, p: nat)
    requires IsRun(ss, es) && i <= j < |ss| && c < |ss[i].cpus| && ss[i].cpus[c].running == Some(p)
    requires forall k | i <= k < j :: !(es[k].act == SwitchOut && ByProc(ss, es, k, p))
    ensures c < |ss[j].cpus| && ss[j].cpus[c].running == Some(p)
    decreases j
  {
    hide Init, Inv, Enabled, Do;
    if i < j {
      StillRunning(ss, es, i, j - 1, c, p);
      assert Follows(ss, es, j - 1);
      RunInv(ss, es, j - 1);
      assert !(es[j - 1].act == SwitchOut && ByProc(ss, es, j - 1, p));
      if es[j - 1].cpu == c {
        RunningOwn(ss[j - 1], c, es[j - 1].act, p);
      } else {
        OwnedStays(ss[j - 1], es[j - 1].cpu, es[j - 1].act, c, p);
      }
    }
  }

  // From setting itself RUNNABLE until it has switched away, p is dispatched by no CPU.
  lemma NotDispatchedBeforeSwitch(ss: seq<State>, es: seq<Event>, k: nat, l: nat, d: nat, p: nat)
    requires IsRun(ss, es) && k < l < |es|
    requires es[k].act == SetRunnable && ByProc(ss, es, k, p)
    requires forall h | k < h <= l :: !(es[h].act == SwitchOut && ByProc(ss, es, h, p))
    ensures !Dispatches(ss, es, l, d, p)
  {
    hide Init, Inv, ProcStep, CpuStep;
    var c := es[k].cpu;
    assert Follows(ss, es, k) && Follows(ss, es, l);
    RunningOwn(ss[k], c, SetRunnable, p);
    StillRunning(ss, es, k + 1, l, c, p);
    RunInv(ss, es, l);
    if Dispatches(ss, es, l, d, p) { DispatchIsElsewhere(ss[l], c, d, p); }
  }

  lemma DispatchIsElsewhere(s: State, c: nat, d: nat, p: nat)
    requires Inv(s) && c < |s.cpus| && s.cpus[c].running == Some(p) && Enabled(s, d, Dispatch)
    ensures s.cpus[d].cursor != p
  {
    assert CpuOk(s, c) && CpuOk(s, d);
  }

  // ---- the trap returns to where it was taken ----

  // p is handling a trap that returns to r, and has not been taken off the table.
  predicate InTrap(s: State, p: nat, r: ProcPc) {
    && p < |s.procs| && s.procs[p].inTrap && s.procs[p].ret == r
    && (s.procs[p].state == Running || s.procs[p].state == Runnable)
  }

  lemma TimerTraps(s: State, c: nat, p: nat)
    requires Inv(s) && Enabled(s, c, Timer) && s.cpus[c].running == Some(p)
    ensures p < |s.procs| && InTrap(Do(s, c, Timer), p, s.procs[p].pc)
  {
    hide ProcOk, PidsOk, LockOk, OwnThreadOk;
    assert CpuOk(s, c);
  }

  lemma InTrapOwn(s: State, c: nat, a: Action, p: nat, r: ProcPc)
    requires Inv(s) && Enabled(s, c, a) && InProcess(a) && s.cpus[c].running == Some(p) && InTrap(s, p, r) && a != Iret
    ensures InTrap(Do(s, c, a), p, r)
  {
    hide PidsOk, LockOk, OwnThreadOk;
    assert CpuOk(s, c) && ProcOk(s, p);
  }

  lemma InTrapScheduled(s: State, c: nat, a: Action, p: nat, r: ProcPc)
    requires Inv(s) && Enabled(s, c, a) && !InProcess(a) && InTrap(s, p, r)
    ensures InTrap(Do(s, c, a), p, r)
  {
    hide PidsOk, LockOk, RunningOk, ProcOk, CpuStep;
    assert CpuOk(s, c);
    CpuStepWrites(s, c, a);
    if p == s.cpus[c].cursor {
      CursorKeepsTrap(s, c, a);
    }
  }

  lemma CursorKeepsTrap(s: State, c: nat, a: Action)
    requires Enabled(s, c, a) && !InProcess(a) && OwnThreadOk(s, c) && s.cpus[c].cursor < |s.procs|
    requires var q := s.procs[s.cpus[c].cursor]; q.state == Running || q.state == Runnable
    ensures var q, s' := s.procs[s.cpus[c].cursor], CpuStep(s, c, a);
            && |s'.procs| == |s.procs|
            && var q' := s'.procs[s.cpus[c].cursor];
            q'.inTrap == q.inTrap && q'.ret == q.ret && (q'.state == Running || q'.state == Runnable)
  {
  }

  lemma InTrapStep(s: State, c: nat, a: Action, p: nat, r: ProcPc)
    requires Inv(s) && Enabled(s, c, a) && InTrap(s, p, r)
    requires !(a == Iret && s.cpus[c].running == Some(p))
    ensures InTrap(Do(s, c, a), p, r)
  {
    hide Inv, Enabled, ProcStep, CpuStep;
    EnabledCpu(s, c, a);
    if !InProcess(a) {
      InTrapScheduled(s, c, a, p, r);
    } else if s.cpus[c].running == Some(p) {
      InTrapOwn(s, c, a, p, r);
    } else {
      ProcStepWrites(s, c, a);
    }
  }

  lemma {:induction false} StillInTrap(ss: seq<State>, es: seq<Event>, i: nat, j: nat, p: nat, r: ProcPc)
    requires IsRun(ss, es) && i <= j < |ss| && InTrap(ss[i], p, r)
    requires forall k | i <= k < j :: !(es[k].act == Iret && ByProc(ss, es, k, p))
    ensures InTrap(ss[j], p, r)
    decreases j
  {
    hide Init, Inv, Enabled, Do, InTrap;
    if i < j {
      StillInTrap(ss, es, i, j - 1, p, r);
      assert Follows(ss, es, j - 1);
      RunInv(ss, es, j - 1);
      EnabledCpu(ss[j - 1], es[j - 1].cpu, es[j - 1].act);
      assert !(es[j - 1].act == Iret && ByProc(ss, es, j - 1, p));
      InTrapStep(ss[j - 1], es[j - 1].cpu, es[j - 1].act, p, r);
    }
  }

  // The trap of a timer interrupt returns with interrupts on to where p was interrupted, on whatever
  // CPU p then runs.
  lemma TrapReturns(ss: seq<State>, es: seq<Event>, i: nat, j: nat, p: nat)
    requires IsRun(ss, es) && i < j < |es|
    requires es[i].act == Timer && ByProc(ss, es, i, p)
    requires es[j].act == Iret && ByProc(ss, es, j, p)
    requires forall k | i < k < j :: !(es[k].act == Iret && ByProc(ss, es, k, p))
    ensures p < |ss[i].procs| && p < |ss[j + 1].procs| && ss[j + 1].procs[p].pc == ss[i].procs[p].pc
    ensures es[j].cpu < |ss[j + 1].cpus| && ss[j + 1].cpus[es[j].cpu].IF
  {
    hide Init, Inv;
    assert Follows(ss, es, i) && Follows(ss, es, j);
    RunInv(ss, es, i);
    TimerTraps(ss[i], es[i].cpu, p);
    StillInTrap(ss, es, i + 1, j, p, ss[i].procs[p].pc);
  }

  // ---- interrupts are on between scans ----

  predicate OpenAt(s: State, c: nat)
    requires c < |s.cpus|
  {
    s.cpus[c].pc == SAcq ==> s.cpus[c].IF
  }

  lemma OpenOwn(s: State, c: nat, a: Action)
    requires Enabled(s, c, a) && !InProcess(a)
    ensures c < |CpuStep(s, c, a).cpus| && OpenAt(CpuStep(s, c, a), c)
  {
  }

  lemma OpenProcess(s: State, c: nat, a: Action)
    requires Enabled(s, c, a) && InProcess(a) && RunningOk(s, c)
    ensures c < |ProcStep(s, c, a).cpus| && OpenAt(ProcStep(s, c, a), c)
  {
  }

  lemma OpenStep(s: State, c: nat, a: Action, d: nat)
    requires Inv(s) && Enabled(s, c, a) && d < |s.cpus| && OpenAt(s, d)
    ensures d < |Do(s, c, a).cpus| && OpenAt(Do(s, c, a), d)
  {
    hide Enabled, ProcStep, CpuStep, PidsOk, ProcOk, LockOk, OwnThreadOk, RunningOk;
    EnabledCpu(s, c, a);
    assert CpuOk(s, c);
    if InProcess(a) {
      ProcStepWrites(s, c, a);
      if d == c { OpenProcess(s, c, a); }
    } else {
      CpuStepWrites(s, c, a);
      if d == c { OpenOwn(s, c, a); }
    }
  }

  lemma {:induction false} RunOpen(ss: seq<State>, es: seq<Event>, i: nat, c: nat)
    requires IsRun(ss, es) && i < |ss| && c < |ss[i].cpus|
    ensures OpenAt(ss[i], c)
    decreases i
  {
    hide Inv, Enabled, Do, OpenAt;
    if i == 0 {
      BootIsNotAcquiring(ss[0], c);
    } else {
      assert Follows(ss, es, i - 1);
      RunInv(ss, es, i - 1);
      SameCpus(ss[i - 1], es[i - 1].cpu, es[i - 1].act);
      RunOpen(ss, es, i - 1, c);
      OpenStep(ss[i - 1], es[i - 1].cpu, es[i - 1].act, c);
    }
  }

  lemma BootIsNotAcquiring(s: State, c: nat)
    requires Init(s) && c < |s.cpus|
    ensures OpenAt(s, c)
  {
  }

  lemma SameCpus(s: State, c: nat, a: Action)
    requires Inv(s) && Enabled(s, c, a)
    ensures |Do(s, c, a).cpus| == |s.cpus|
  {
    hide Inv, Enabled, ProcStep, CpuStep;
    if InProcess(a) { ProcStepWrites(s, c, a); } else { CpuStepWrites(s, c, a); }
  }

  // Whenever the scheduler is about to acquire the table lock, interrupts are on.
  lemma InterruptsOnBetweenScans(ss: seq<State>, es: seq<Event>, i: nat)
    requires IsRun(ss, es) && i < |es| && es[i].act == SchedPushCli
    ensures es[i].cpu < |ss[i].cpus| && ss[i].cpus[es[i].cpu].IF
  {
    hide Init;
    assert Follows(ss, es, i);
    RunOpen(ss, es, i, es[i].cpu);
  }

  // ---- no timer is missed, and no state is stuck ----

  lemma OpenIsInterruptible(s: State, c: nat)
    requires c < |s.cpus| && LockOk(s, c) && RunningOk(s, c) && s.cpus[c].running.Some? && s.cpus[c].IF
    ensures Enabled(s, c, Timer)
  {
  }

  // Wherever interrupts are on, a timer interrupt of a process is a step of the run.
  lemma EveryTimerIsAStep(ss: seq<State>, es: seq<Event>, i: nat, c: nat)
    requires IsRun(ss, es) && i < |ss| && c < |ss[i].cpus| && ss[i].cpus[c].running.Some? && ss[i].cpus[c].IF
    ensures Enabled(ss[i], c, Timer)
  {
    hide Enabled;
    RunInv(ss, es, i);
    assert CpuOk(ss[i], c);
    OpenIsInterruptible(ss[i], c);
  }

  // A step open to the process thread at pc when the lock is free or its own.
  function ProcNext(pc: ProcPc): Action {
    match pc
    case PStart => Start case PRun => CallYield case PTrap => Check case PAcq => YieldPushCli
    case PSpin => YieldLock case PSet => SetRunnable case PSched => SaveFlag case PSwitch => SwitchOut
    case PResume => RestoreFlag case PRel => YieldRelease case PIret => Iret
  }

  // The same for a CPU's own thread.
  function CpuNext(s: State, k: Cpu): Action {
    match k.pc
    case CBoot => EnterScheduler case CSpin => MakeLock
    case CFind =>
      if k.cursor >= |s.procs| then MakeFull else if s.procs[k.cursor].state == Unused then MakeFound else MakeSkip
    case CRelFull => MakeFullRelease case CRel => MakeRelease case CAlloc => MakeAlloc(true) case CAcq => PublishPushCli
    case CSpin2 => PublishLock case CPub => Publish case CRel2 => PublishRelease
    case SSti => Sti case SAcq => SchedPushCli case SSpin => SchedLock
    case SScan => if k.cursor >= |s.procs| then ScanEnd else if s.procs[k.cursor].state == Runnable then Pick else Skip
    case SMark => Mark case SSwitch => Dispatch case SBack => Back
  }

  lemma ProcessCanStep(s: State, c: nat)
    requires c < |s.cpus| && LockOk(s, c) && RunningOk(s, c) && s.cpus[c].running.Some?
    requires s.lock == None || s.lock == Some(c)
    ensures s.cpus[c].running.value < |s.procs| && Enabled(s, c, ProcNext(s.procs[s.cpus[c].running.value].pc))
  {
  }

  lemma CpuCanStep(s: State, c: nat)
    requires c < |s.cpus| && LockOk(s, c) && OwnThreadOk(s, c) && s.cpus[c].running.None?
    requires s.lock == None || s.lock == Some(c)
    ensures Enabled(s, c, CpuNext(s, s.cpus[c]))
  {
  }

  // The CPU that has the lock can always go on, and when nobody has it every CPU can: no run gets stuck.
  lemma NeverStuck(ss: seq<State>, es: seq<Event>, i: nat, c: nat)
    requires IsRun(ss, es) && i < |ss| && c < |ss[i].cpus|
    ensures ss[i].lock == None || ss[i].lock == Some(c) ==> exists a :: Enabled(ss[i], c, a)
    ensures exists d, a | 0 <= d < |ss[i].cpus| :: Enabled(ss[i], d, a)
  {
    hide Enabled, LockOk, OwnThreadOk, RunningOk;
    RunInv(ss, es, i);
    var s := ss[i];
    var d := if s.lock.Some? then s.lock.value else c;
    assert CpuOk(s, d);
    if s.cpus[d].running.Some? { ProcessCanStep(s, d); } else { CpuCanStep(s, d); }
  }
}
