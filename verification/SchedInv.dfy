/** What every interleaving keeps: invariants of the scheduler protocol, proved step by step. The
    invariant is local to each CPU and each process; a step touches one CPU and at most one process
    that this CPU owns or that nobody owns. */
module SchedInv {
  import opened Common
  import opened Sched

  // ---- where the lock is held, and where interrupts are counted off ----

  predicate CpuPcHolds(pc: CpuPc) {
    pc.CFind? || pc.CRelFull? || pc.CRel? || pc.CPub? || pc.CRel2? || pc.SScan? || pc.SMark? || pc.SSwitch? || pc.SBack?
  }

  predicate ProcPcHolds(pc: ProcPc) {
    pc.PStart? || pc.PSet? || pc.PSched? || pc.PSwitch? || pc.PResume? || pc.PRel?
  }

  // The thread that CPU k executes is in its critical section.
  predicate Holds(s: State, k: Cpu) {
    if k.running.Some? then k.running.value < |s.procs| && ProcPcHolds(s.procs[k.running.value].pc)
    else CpuPcHolds(k.pc)
  }

  // The thread that CPU k executes holds the lock or spins for it.
  predicate Counted(s: State, k: Cpu) {
    Holds(s, k) ||
    (if k.running.Some? then k.running.value < |s.procs| && s.procs[k.running.value].pc.PSpin?
     else k.pc.CSpin? || k.pc.CSpin2? || k.pc.SSpin?)
  }

  // Creating the process in slot cursor.
  predicate Making(pc: CpuPc) {
    pc.CRel? || pc.CAlloc? || pc.CAcq? || pc.CSpin2? || pc.CPub?
  }

  // The scheduler has chosen the process in slot cursor.
  predicate Chosen(pc: CpuPc) {
    pc.SMark? || pc.SSwitch? || pc.SBack?
  }

  predicate Owns(s: State, c: nat, p: nat) {
    p < |s.procs| && s.procs[p].owner == Some(c)
  }

  // ---- the invariant ----

  // Lock, nesting depth and interrupt flag of one CPU.
  predicate LockOk(s: State, c: nat)
    requires c < |s.cpus|
  {
    var k := s.cpus[c];
    && (s.lock == Some(c) <==> Holds(s, k))
    && k.ncli == (if Counted(s, k) then 1 else 0)
    && (k.ncli == 1 ==> !k.IF)
  }

  // A CPU that executes a process thread.
  predicate RunningOk(s: State, c: nat)
    requires c < |s.cpus|
  {
    var k := s.cpus[c];
    k.running.Some? ==>
      var p := k.running.value;
      && k.pc == SBack && k.cursor == p && k.proc == Some(p) && Owns(s, c, p)
      && var q := s.procs[p];
      && q.state == (if q.pc.PSched? || q.pc.PSwitch? then Runnable else Running)
      && (q.pc.PTrap? ==> q.inTrap) && (q.pc.PRun? ==> !q.inTrap) && (q.inTrap ==> !k.IF)
      && (q.inTrap && (q.pc.PSpin? || q.pc.PSet? || q.pc.PSched? || q.pc.PSwitch? || q.pc.PRel?) ==> !q.want)
      && (q.pc.PSpin? || q.pc.PSet? || q.pc.PSched? || q.pc.PRel? ==> k.savedIF == q.want)
      && (q.pc.PSwitch? || q.pc.PResume? ==> q.intena == q.want)
  }

  // A CPU that executes its own thread.
  predicate OwnThreadOk(s: State, c: nat)
    requires c < |s.cpus|
  {
    var k := s.cpus[c];
    k.running.None? ==>
      && k.cursor <= |s.procs|
      && k.proc == (if Chosen(k.pc) then Some(k.cursor) else None)
      && (Chosen(k.pc) || Making(k.pc) ==> Owns(s, c, k.cursor))
      && (Chosen(k.pc) && Owns(s, c, k.cursor) ==>
            && s.procs[k.cursor].state == (if k.pc == SSwitch then Running else Runnable)
            && (s.procs[k.cursor].pc == PStart || s.procs[k.cursor].pc == PResume))
      && (k.pc == SBack && Owns(s, c, k.cursor) ==> s.procs[k.cursor].pc == PResume)
      && (Making(k.pc) && Owns(s, c, k.cursor) ==> s.procs[k.cursor].state == Embryo)
      && ((k.pc.CAcq? || k.pc.CSpin2? || k.pc.CPub?) && Owns(s, c, k.cursor) ==> s.procs[k.cursor].pc == PStart)
      && (k.pc.SSti? || k.pc.SAcq? || k.pc.SSpin? ==> k.cursor == |s.procs|)
  }

  predicate CpuOk(s: State, c: nat)
    requires c < |s.cpus|
  {
    LockOk(s, c) && RunningOk(s, c) && OwnThreadOk(s, c)
  }

  // CPU c owns slot p: it schedules it, or creates it.
  predicate OwnerOk(s: State, p: nat)
    requires p < |s.procs|
  {
    var q := s.procs[p];
    q.owner.Some? ==>
      && q.owner.value < |s.cpus|
      && var k := s.cpus[q.owner.value];
      && k.cursor == p
      && (k.proc == Some(p) || (k.running.None? && Making(k.pc)))
      && (q.state == Runnable ==> s.lock == q.owner)
  }

  predicate ProcOk(s: State, p: nat)
    requires p < |s.procs|
  {
    var q := s.procs[p];
    && OwnerOk(s, p)
    && (q.state == Running ==> q.owner.Some? && s.cpus[q.owner.value].proc == Some(p))
    && (q.state == Embryo ==> q.owner.Some? && s.cpus[q.owner.value].proc.None?)
    && (q.state == Unused ==> q.owner.None?)
    && (q.owner.None? && q.state == Runnable ==> q.pc == PStart || q.pc == PResume)
    && (q.pc == PResume ==> q.intena == q.want && (q.inTrap ==> !q.want))
    && (q.pc == PStart ==> !q.inTrap) && Interruptible(q.ret) && (q.ret != PRun ==> q.inTrap)
    && (q.state != Unused ==> 0 < q.pid < s.nextpid)
  }

  predicate PidsOk(s: State) {
    && 0 < s.nextpid
    && forall p, p' | 0 <= p < p' < |s.procs| && s.procs[p].state != Unused && s.procs[p'].state != Unused ::
         s.procs[p].pid != s.procs[p'].pid
  }

  ghost predicate Inv(s: State) {
    && (s.lock.Some? ==> s.lock.value < |s.cpus|)
    && (forall c {:trigger CpuOk(s, c)} | 0 <= c < |s.cpus| :: CpuOk(s, c))
    && (forall p {:trigger ProcOk(s, p)} | 0 <= p < |s.procs| :: ProcOk(s, p))
    && PidsOk(s)
  }

  // Every CPU at the start of its boot thread, every slot unused.
  predicate Init(s: State) {
    && s.lock == None && 0 < s.nextpid
    && (forall c | 0 <= c < |s.cpus| ::
          s.cpus[c].pc == CBoot && s.cpus[c].running == None && s.cpus[c].proc == None && s.cpus[c].ncli == 0
          && s.cpus[c].cursor == 0)
    && (forall p | 0 <= p < |s.procs| ::
          s.procs[p].state == Unused && s.procs[p].owner == None && s.procs[p].pc == PStart
          && !s.procs[p].inTrap && s.procs[p].ret == PRun)
  }

  lemma InitInv(s: State)
    requires Init(s)
    ensures Inv(s)
  {
  }

  // ---- one step of the CPU's own thread ----

  // The lock stays, or CPU c takes it, or CPU c gives it up.
  predicate LockMovesBy(s: State, s': State, c: nat) {
    s'.lock == s.lock || (s.lock == None && s'.lock == Some(c)) || (s.lock == Some(c) && s'.lock == None)
  }

  // The process a step of the CPU's own thread can write: slot cursor, owned by it or by nobody.
  lemma CpuStepWrites(s: State, c: nat, a: Action)
    requires Inv(s) && !InProcess(a) && Enabled(s, c, a)
    ensures var k, s' := s.cpus[c], CpuStep(s, c, a);
            && |s'.cpus| == |s.cpus| && |s'.procs| == |s.procs| && (s'.lock.Some? ==> s'.lock.value < |s.cpus|)
            && (forall d | 0 <= d < |s.cpus| && d != c :: s'.cpus[d] == s.cpus[d])
            && (forall p | 0 <= p < |s.procs| && p != k.cursor :: s'.procs[p] == s.procs[p])
            && (k.cursor < |s.procs| && s'.procs[k.cursor] != s.procs[k.cursor] ==>
                  s.procs[k.cursor].owner == None || s.procs[k.cursor].owner == Some(c))
            && LockMovesBy(s, s', c) && s.nextpid <= s'.nextpid
  {
    assert CpuOk(s, c);
    var k := s.cpus[c];
    if k.cursor < |s.procs| { assert ProcOk(s, k.cursor); }
  }

  lemma CpuStepLock(s: State, c: nat, a: Action)
    requires Inv(s) && !InProcess(a) && Enabled(s, c, a)
    ensures LockOk(CpuStep(s, c, a), c)
  {
    hide CpuStep, LockOk, ProcOk, PidsOk, RunningOk, OwnThreadOk, Enabled;
    EnabledCpu(s, c, a);
    assert CpuOk(s, c);
    if a.Dispatch? { DispatchLock(s, c); }
    else if a.Sti? || a.SchedPushCli? || a.SchedLock? || a.ScanEnd? { SchedulerLocks(s, c, a); }
    else if InScheduler(a) { SchedulerScans(s, c, a); }
    else { MakingStepLock(s, c, a); }
  }

  lemma EnabledCpu(s: State, c: nat, a: Action)
    requires Enabled(s, c, a)
    ensures c < |s.cpus| && (s.cpus[c].running.Some? <==> InProcess(a))
  {
  }

  // The process switched to resumes inside its critical section: the lock goes with it.
  lemma DispatchLock(s: State, c: nat)
    requires Enabled(s, c, Dispatch) && LockOk(s, c) && OwnThreadOk(s, c)
    ensures LockOk(CpuStep(s, c, Dispatch), c)
  {
  }

  lemma SchedulerLocks(s: State, c: nat, a: Action)
    requires (a.Sti? || a.SchedPushCli? || a.SchedLock? || a.ScanEnd?) && Enabled(s, c, a) && LockOk(s, c)
    ensures LockOk(CpuStep(s, c, a), c)
  {
  }

  lemma SchedulerScans(s: State, c: nat, a: Action)
    requires a.EnterScheduler? || a.Skip? || a.Pick? || a.Mark? || a.Back?
    requires Enabled(s, c, a) && LockOk(s, c)
    ensures LockOk(CpuStep(s, c, a), c)
  {
  }

  lemma MakingStepLock(s: State, c: nat, a: Action)
    requires !InProcess(a) && !InScheduler(a) && Enabled(s, c, a) && LockOk(s, c)
    ensures LockOk(CpuStep(s, c, a), c)
  {
  }

  lemma CpuStepRunning(s: State, c: nat, a: Action)
    requires Inv(s) && !InProcess(a) && Enabled(s, c, a)
    ensures RunningOk(CpuStep(s, c, a), c)
  {
    hide PidsOk, LockOk, RunningOk;
    assert CpuOk(s, c);
    if a.Dispatch? {
      assert ProcOk(s, s.cpus[c].cursor);
      DispatchRunning(s, c);
    } else {
      StaysOwnThread(s, c, a);
    }
  }

  lemma StaysOwnThread(s: State, c: nat, a: Action)
    requires !InProcess(a) && Enabled(s, c, a) && !a.Dispatch?
    ensures RunningOk(CpuStep(s, c, a), c)
  {
  }

  lemma DispatchRunning(s: State, c: nat)
    requires Enabled(s, c, Dispatch) && LockOk(s, c) && OwnThreadOk(s, c) && ProcOk(s, s.cpus[c].cursor)
    ensures RunningOk(CpuStep(s, c, Dispatch), c)
  {
  }

  lemma SchedulerStepSelf(s: State, c: nat, a: Action)
    requires Inv(s) && InScheduler(a) && Enabled(s, c, a)
    ensures OwnThreadOk(CpuStep(s, c, a), c)
  {
    hide PidsOk, LockOk, RunningOk, ProcOk, OwnThreadOk, CpuStep, Enabled;
    EnabledCpu(s, c, a);
    assert CpuOk(s, c);
    if a.Pick? {
      PickFree(s, c);
      PickSelf(s, c);
    } else {
      ScanSelf(s, c, a);
    }
  }

  lemma PickSelf(s: State, c: nat)
    requires Enabled(s, c, Pick) && OwnThreadOk(s, c)
    requires var q := s.procs[s.cpus[c].cursor]; q.pc == PStart || q.pc == PResume
    ensures OwnThreadOk(CpuStep(s, c, Pick), c)
  {
  }

  lemma ScanSelf(s: State, c: nat, a: Action)
    requires InScheduler(a) && !a.Pick? && Enabled(s, c, a) && OwnThreadOk(s, c)
    ensures OwnThreadOk(CpuStep(s, c, a), c)
  {
  }

  // A runnable process seen under the lock is owned by nobody, so its thread is parked.
  lemma PickFree(s: State, c: nat)
    requires Inv(s) && Enabled(s, c, Pick)
    ensures c < |s.cpus| && s.cpus[c].cursor < |s.procs|
    ensures var q := s.procs[s.cpus[c].cursor]; q.owner == None && (q.pc == PStart || q.pc == PResume)
  {
    assert CpuOk(s, c) && ProcOk(s, s.cpus[c].cursor);
  }

  lemma MakingStepSelf(s: State, c: nat, a: Action)
    requires Inv(s) && !InProcess(a) && !InScheduler(a) && Enabled(s, c, a)
    ensures OwnThreadOk(CpuStep(s, c, a), c)
  {
    hide PidsOk, LockOk, RunningOk, ProcOk;
    assert CpuOk(s, c);
  }

  lemma CpuStepSelf(s: State, c: nat, a: Action)
    requires Inv(s) && !InProcess(a) && Enabled(s, c, a)
    ensures CpuOk(CpuStep(s, c, a), c)
  {
    hide LockOk, OwnThreadOk, RunningOk, ProcOk, PidsOk;
    CpuStepLock(s, c, a);
    CpuStepRunning(s, c, a);
    if InScheduler(a) { SchedulerStepSelf(s, c, a); } else { MakingStepSelf(s, c, a); }
  }

  // What another CPU relies on does not change: its own fields, the slots it owns, and its lock.
  lemma Untouched(s: State, s': State, c: nat, d: nat)
    requires c < |s.cpus| == |s'.cpus| && d < |s.cpus| && d != c && |s.procs| == |s'.procs|
    requires CpuOk(s, d) && s'.cpus[d] == s.cpus[d]
    requires forall p | 0 <= p < |s.procs| && s'.procs[p] != s.procs[p] ::
               s.procs[p].owner == None || s.procs[p].owner == Some(c)
    requires LockMovesBy(s, s', c)
    ensures CpuOk(s', d)
  {
    var k := s.cpus[d];
    if k.cursor < |s.procs| { assert Owns(s, d, k.cursor) ==> s'.procs[k.cursor] == s.procs[k.cursor]; }
  }

  lemma CpuStepOther(s: State, c: nat, a: Action, d: nat)
    requires Inv(s) && !InProcess(a) && Enabled(s, c, a) && d < |s.cpus| && d != c
    ensures d < |CpuStep(s, c, a).cpus| && CpuOk(CpuStep(s, c, a), d)
  {
    hide CpuStep, Enabled, CpuOk, ProcOk, PidsOk;
    EnabledCpu(s, c, a);
    assert CpuOk(s, d);
    CpuStepWrites(s, c, a);
    Untouched(s, CpuStep(s, c, a), c, d);
  }

  // A process in a slot that CPU c does not work on.
  lemma UntouchedProc(s: State, s': State, c: nat, p: nat)
    requires c < |s.cpus| == |s'.cpus| && p < |s.procs| == |s'.procs| && ProcOk(s, p) && s'.procs[p] == s.procs[p]
    requires s.procs[p].owner != Some(c) && s.nextpid <= s'.nextpid
    requires forall d | 0 <= d < |s.cpus| && d != c :: s'.cpus[d] == s.cpus[d]
    requires LockMovesBy(s, s', c)
    ensures ProcOk(s', p)
  {
  }

  lemma CpuStepProc(s: State, c: nat, a: Action, p: nat)
    requires Inv(s) && !InProcess(a) && Enabled(s, c, a) && p < |s.procs|
    ensures p < |CpuStep(s, c, a).procs| && ProcOk(CpuStep(s, c, a), p)
  {
    hide CpuStep, Enabled, PidsOk, LockOk, RunningOk, OwnThreadOk;
    EnabledCpu(s, c, a);
    assert CpuOk(s, c) && ProcOk(s, p);
    CpuStepWrites(s, c, a);
    if p != s.cpus[c].cursor {
      UntouchedProc(s, CpuStep(s, c, a), c, p);
    } else if InScheduler(a) {
      SchedulerStepProc(s, c, a);
    } else {
      PositivePids(s);
      MakingStepProc(s, c, a);
    }
  }

  ghost predicate AtCursor(s: State, c: nat, a: Action) {
    !InProcess(a) && Enabled(s, c, a) && s.cpus[c].cursor < |s.procs| && CpuOk(s, c) && ProcOk(s, s.cpus[c].cursor)
  }

  lemma SchedulerStepProc(s: State, c: nat, a: Action)
    requires InScheduler(a) && AtCursor(s, c, a)
    ensures |CpuStep(s, c, a).procs| == |s.procs| && ProcOk(CpuStep(s, c, a), s.cpus[c].cursor)
  {
    hide ProcOk, AtCursor, CpuStep;
    if a.Pick? || a.Mark? || a.Back? { SchedulerWritesProc(s, c, a); } else { SchedulerKeepsProc(s, c, a); }
  }

  lemma SchedulerWritesProc(s: State, c: nat, a: Action)
    requires (a.Pick? || a.Mark? || a.Back?) && AtCursor(s, c, a)
    ensures |CpuStep(s, c, a).procs| == |s.procs| && ProcOk(CpuStep(s, c, a), s.cpus[c].cursor)
  {
  }

  lemma SchedulerKeepsProc(s: State, c: nat, a: Action)
    requires InScheduler(a) && !(a.Pick? || a.Mark? || a.Back?) && AtCursor(s, c, a)
    ensures |CpuStep(s, c, a).procs| == |s.procs| && ProcOk(CpuStep(s, c, a), s.cpus[c].cursor)
  {
  }

  lemma MakingStepProc(s: State, c: nat, a: Action)
    requires !InScheduler(a) && AtCursor(s, c, a) && 0 < s.nextpid
    ensures |CpuStep(s, c, a).procs| == |s.procs| && ProcOk(CpuStep(s, c, a), s.cpus[c].cursor)
  {
    hide ProcOk, AtCursor, CpuStep;
    if a.MakeFound? { FoundProc(s, c); }
    else if a.MakeAlloc? { AllocProc(s, c, a.ok); }
    else if a.Publish? { PublishProc(s, c); }
    else { MakingKeepsProc(s, c, a); }
  }

  lemma FoundProc(s: State, c: nat)
    requires AtCursor(s, c, MakeFound) && 0 < s.nextpid
    ensures |CpuStep(s, c, MakeFound).procs| == |s.procs| && ProcOk(CpuStep(s, c, MakeFound), s.cpus[c].cursor)
  {
  }

  lemma AllocProc(s: State, c: nat, ok: bool)
    requires AtCursor(s, c, MakeAlloc(ok))
    ensures var s' := CpuStep(s, c, MakeAlloc(ok)); |s'.procs| == |s.procs| && ProcOk(s', s.cpus[c].cursor)
  {
  }

  lemma PublishProc(s: State, c: nat)
    requires AtCursor(s, c, Publish)
    ensures |CpuStep(s, c, Publish).procs| == |s.procs| && ProcOk(CpuStep(s, c, Publish), s.cpus[c].cursor)
  {
  }

  lemma MakingKeepsProc(s: State, c: nat, a: Action)
    requires !InScheduler(a) && !(a.MakeFound? || a.MakeAlloc? || a.Publish?) && AtCursor(s, c, a)
    ensures |CpuStep(s, c, a).procs| == |s.procs| && ProcOk(CpuStep(s, c, a), s.cpus[c].cursor)
  {
  }

  lemma PositivePids(s: State)
    requires Inv(s)
    ensures 0 < s.nextpid
  {
  }

  lemma CpuStepPids(s: State, c: nat, a: Action)
    requires Inv(s) && !InProcess(a) && Enabled(s, c, a)
    ensures PidsOk(CpuStep(s, c, a))
  {
    hide LockOk, RunningOk;
    assert CpuOk(s, c);
    forall p | 0 <= p < |s.procs| ensures s.procs[p].state != Unused ==> s.procs[p].pid < s.nextpid {
      assert ProcOk(s, p);
    }
  }

  // ---- one step of a process thread ----

  lemma ProcStepWrites(s: State, c: nat, a: Action)
    requires Inv(s) && InProcess(a) && Enabled(s, c, a)
    ensures var k, s' := s.cpus[c], ProcStep(s, c, a);
            && |s'.cpus| == |s.cpus| && |s'.procs| == |s.procs| && (s'.lock.Some? ==> s'.lock.value < |s.cpus|)
            && (forall d | 0 <= d < |s.cpus| && d != c :: s'.cpus[d] == s.cpus[d])
            && (forall p | 0 <= p < |s.procs| && p != k.running.value :: s'.procs[p] == s.procs[p])
            && s.procs[k.running.value].owner == Some(c)
            && LockMovesBy(s, s', c) && s.nextpid == s'.nextpid
  {
    assert CpuOk(s, c);
  }

  lemma ProcStepSelf(s: State, c: nat, a: Action)
    requires Inv(s) && InProcess(a) && Enabled(s, c, a)
    ensures CpuOk(ProcStep(s, c, a), c)
  {
    assert CpuOk(s, c) && ProcOk(s, s.cpus[c].running.value);
  }

  lemma ProcStepOther(s: State, c: nat, a: Action, d: nat)
    requires Inv(s) && InProcess(a) && Enabled(s, c, a) && d < |s.cpus| && d != c
    ensures d < |ProcStep(s, c, a).cpus| && CpuOk(ProcStep(s, c, a), d)
  {
    hide ProcStep, Enabled, CpuOk, ProcOk, PidsOk;
    EnabledCpu(s, c, a);
    assert CpuOk(s, d);
    ProcStepWrites(s, c, a);
    Untouched(s, ProcStep(s, c, a), c, d);
  }

  lemma ProcStepProc(s: State, c: nat, a: Action, p: nat)
    requires Inv(s) && InProcess(a) && Enabled(s, c, a) && p < |s.procs|
    ensures p < |ProcStep(s, c, a).procs| && ProcOk(ProcStep(s, c, a), p)
  {
    hide ProcStep, Enabled, PidsOk, LockOk, RunningOk, OwnThreadOk;
    EnabledCpu(s, c, a);
    assert CpuOk(s, c) && ProcOk(s, p);
    ProcStepWrites(s, c, a);
    if s.cpus[c].running == Some(p) {
      ProcStepOwn(s, c, a);
    } else {
      OwnerRuns(s, c, p);
      UntouchedProc(s, ProcStep(s, c, a), c, p);
    }
  }

  lemma OwnerRuns(s: State, c: nat, p: nat)
    requires c < |s.cpus| && p < |s.procs| && CpuOk(s, c) && ProcOk(s, p)
    requires s.cpus[c].running.Some? && s.cpus[c].running != Some(p)
    ensures s.procs[p].owner != Some(c)
  {
  }

  lemma ProcStepOwn(s: State, c: nat, a: Action)
    requires InProcess(a) && Enabled(s, c, a) && CpuOk(s, c) && ProcOk(s, s.cpus[c].running.value)
    ensures |ProcStep(s, c, a).procs| == |s.procs| && ProcOk(ProcStep(s, c, a), s.cpus[c].running.value)
  {
  }

  lemma ProcStepPids(s: State, c: nat, a: Action)
    requires Inv(s) && InProcess(a) && Enabled(s, c, a)
    ensures PidsOk(ProcStep(s, c, a))
  {
    assert CpuOk(s, c);
  }

  // ---- every step, every run ----

  lemma StepKeepsInv(s: State, c: nat, a: Action)
    requires Inv(s) && Enabled(s, c, a)
    ensures Inv(Do(s, c, a))
  {
    hide CpuOk, ProcOk, PidsOk, Enabled, CpuStep, ProcStep, InScheduler, InProcess;
    var s' := Do(s, c, a);
    if InProcess(a) {
      ProcStepWrites(s, c, a);
      ProcStepSelf(s, c, a);
      ProcStepPids(s, c, a);
      forall d {:trigger CpuOk(s', d)} | 0 <= d < |s'.cpus| ensures CpuOk(s', d) {
        if d != c { ProcStepOther(s, c, a, d); }
      }
      forall p {:trigger ProcOk(s', p)} | 0 <= p < |s'.procs| ensures ProcOk(s', p) {
        ProcStepProc(s, c, a, p);
      }
    } else {
      CpuStepWrites(s, c, a);
      CpuStepSelf(s, c, a);
      CpuStepPids(s, c, a);
      forall d {:trigger CpuOk(s', d)} | 0 <= d < |s'.cpus| ensures CpuOk(s', d) {
        if d != c { CpuStepOther(s, c, a, d); }
      }
      forall p {:trigger ProcOk(s', p)} | 0 <= p < |s'.procs| ensures ProcOk(s', p) {
        CpuStepProc(s, c, a, p);
      }
    }
  }
}
