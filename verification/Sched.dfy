/** The scheduler protocol of kernel/process/scheduler.c, kernel/process/proc.c and the timer case
    of kernel/syscall/trap.c, as a transition system: any number of CPUs step in any order over one
    process table whose lock is handed across context switches. */
module Sched {
  import opened Common

  datatype ProcState = Unused | Embryo | Sleeping | Runnable | Running | Zombie

  // Where the kernel thread of a process is, or will resume.
  datatype ProcPc =
    | PStart   // procstart: release the lock handed over by the scheduler
    | PRun     // outside the scheduler: user code, or kernel code that may call yield
    | PTrap    // timer handler, about to test p->state
    | PAcq     // yield: acquire, before interrupts are disabled
    | PSpin    // yield: acquire, waiting for the lock
    | PSet     // yield: state = RUNNABLE
    | PSched   // sched: save intena
    | PSwitch  // sched: context_switch to the CPU's scheduler
    | PResume  // sched: restore saved_IF after being switched to
    | PRel     // yield: release
    | PIret    // return from the trap

  // Where the boot or scheduler thread of a CPU is, or will resume.
  datatype CpuPc =
    | CBoot | CSpin | CFind | CRelFull | CRel | CAlloc | CAcq | CSpin2 | CPub | CRel2  // create_proc, userinit
    | SSti | SAcq | SSpin | SScan | SMark | SSwitch | SBack                            // scheduler

  // owner is auxiliary: the CPU whose proc field names the process, or that is creating it.
  // want is auxiliary: the interrupt flag with which the thread entered its last acquire.
  // ret is where the trap being handled returns to.
  datatype Proc = Proc(state: ProcState, pid: int, pc: ProcPc, intena: bool, inTrap: bool, ret: ProcPc,
                       owner: Option<nat>, want: bool)

  // running is the process whose thread the CPU executes; None while it executes its own thread.
  datatype Cpu = Cpu(pc: CpuPc, cursor: nat, proc: Option<nat>, ncli: int, savedIF: bool, IF: bool,
                     running: Option<nat>)

  datatype State = State(cpus: seq<Cpu>, procs: seq<Proc>, lock: Option<nat>, nextpid: int)

  datatype Action =
    | EnterScheduler | Sti | SchedPushCli | SchedLock | Skip | Pick | Mark | Dispatch | Back | ScanEnd
    | Start | Timer | CallYield | SetFlag(b: bool) | Check | YieldPushCli | YieldLock | SetRunnable
    | SaveFlag | SwitchOut | RestoreFlag | YieldRelease | Iret
    | MakePushCli | MakeLock | MakeSkip | MakeFound | MakeFull | MakeFullRelease | MakeRelease | MakeAlloc(ok: bool)
    | PublishPushCli | PublishLock | Publish | PublishRelease

  // ---- lock primitives ----

  // pushcli: remember the flag at the outermost level, then disable interrupts.
  function PushCli(k: Cpu): Cpu {
    k.(savedIF := if k.ncli == 0 then k.IF else k.savedIF, ncli := k.ncli + 1, IF := false)
  }

  // popcli: at the outermost level restore the remembered flag.
  function PopCli(k: Cpu): Cpu {
    k.(ncli := k.ncli - 1, IF := k.IF || (k.ncli == 1 && k.savedIF))
  }

  // ---- steps ----

  predicate InScheduler(a: Action) {
    a.EnterScheduler? || a.Sti? || a.SchedPushCli? || a.SchedLock? || a.Skip? || a.Pick? || a.Mark? || a.Dispatch?
    || a.Back? || a.ScanEnd?
  }

  predicate InProcess(a: Action) {
    a.Start? || a.Timer? || a.CallYield? || a.SetFlag? || a.Check? || a.YieldPushCli? || a.YieldLock? || a.SetRunnable?
    || a.SaveFlag? || a.SwitchOut? || a.RestoreFlag? || a.YieldRelease? || a.Iret?
  }

  // The CPU pc at which an action of the CPU's own thread starts.
  function CpuAt(a: Action): CpuPc
    requires !InProcess(a)
  {
    match a
    case EnterScheduler => CBoot case Sti => SSti case SchedPushCli => SAcq case SchedLock => SSpin
    case Skip => SScan case Pick => SScan case Mark => SMark case Dispatch => SSwitch case Back => SBack
    case ScanEnd => SScan
    case MakePushCli => CBoot case MakeLock => CSpin case MakeSkip => CFind case MakeFound => CFind
    case MakeFull => CFind case MakeFullRelease => CRelFull case MakeRelease => CRel case MakeAlloc(_) => CAlloc
    case PublishPushCli => CAcq case PublishLock => CSpin2 case Publish => CPub case PublishRelease => CRel2
  }

  function ProcAt(a: Action): ProcPc
    requires InProcess(a)
  {
    match a
    case Start => PStart case Timer => PRun case CallYield => PRun case SetFlag(_) => PRun case Check => PTrap
    case YieldPushCli => PAcq case YieldLock => PSpin case SetRunnable => PSet case SaveFlag => PSched
    case SwitchOut => PSwitch case RestoreFlag => PResume case YieldRelease => PRel case Iret => PIret
  }

  // Where a timer interrupt can find a process thread with interrupts on.
  predicate Interruptible(pc: ProcPc) {
    pc.PRun? || pc.PAcq? || pc.PIret?
  }

  predicate Scans(a: Action) {
    a.Skip? || a.Pick? || a.MakeSkip? || a.MakeFound?
  }

  predicate Enabled(s: State, c: nat, a: Action) {
    c < |s.cpus| &&
    var k := s.cpus[c];
    if InProcess(a) then
      && k.running.Some? && k.running.value < |s.procs|
      && (s.procs[k.running.value].pc == ProcAt(a) || (a.Timer? && Interruptible(s.procs[k.running.value].pc)))
      && (a.Timer? ==> k.IF)
      && (a.SetFlag? ==> k.ncli == 0)
      && (a.YieldLock? ==> s.lock == None)
    else
      && k.running.None? && k.pc == CpuAt(a)
      && ((a.SchedLock? || a.MakeLock? || a.PublishLock?) ==> s.lock == None)
      && (Scans(a) ==> k.cursor < |s.procs|)
      && ((a.ScanEnd? || a.MakeFull?) ==> k.cursor == |s.procs|)
      && (a.Skip? ==> s.procs[k.cursor].state != Runnable)
      && (a.Pick? ==> s.procs[k.cursor].state == Runnable)
      && (a.MakeSkip? ==> s.procs[k.cursor].state != Unused)
      && (a.MakeFound? ==> s.procs[k.cursor].state == Unused)
      && ((a.Mark? || a.Dispatch? || a.Back? || a.MakeAlloc? || a.Publish?) ==> k.cursor < |s.procs|)
  }

  function SetCpu(s: State, c: nat, k: Cpu): State
    requires c < |s.cpus|
  {
    s.(cpus := s.cpus[c := k])
  }

  function SetProc(s: State, p: nat, q: Proc): State
    requires p < |s.procs|
  {
    s.(procs := s.procs[p := q])
  }

  // One step of the CPU's own thread.
  function CpuStep(s: State, c: nat, a: Action): State
    requires !InProcess(a) && Enabled(s, c, a)
  {
    var k := s.cpus[c];
    match a
    case EnterScheduler => SetCpu(s, c, k.(pc := SSti, proc := None, cursor := |s.procs|))
    case Sti => SetCpu(s, c, k.(pc := SAcq, IF := true))
    case SchedPushCli => SetCpu(s, c, PushCli(k).(pc := SSpin))
    case SchedLock => SetCpu(s, c, k.(pc := SScan, cursor := 0)).(lock := Some(c))
    case Skip => SetCpu(s, c, k.(cursor := k.cursor + 1))
    case Pick => SetProc(SetCpu(s, c, k.(pc := SMark, proc := Some(k.cursor))),
                         k.cursor, s.procs[k.cursor].(owner := Some(c)))
    case Mark => SetProc(SetCpu(s, c, k.(pc := SSwitch)), k.cursor, s.procs[k.cursor].(state := Running))
    case Dispatch => SetCpu(s, c, k.(pc := SBack, running := Some(k.cursor)))
    case Back => SetProc(SetCpu(s, c, k.(pc := SScan, proc := None, cursor := k.cursor + 1)),
                         k.cursor, s.procs[k.cursor].(owner := None))
    case ScanEnd => SetCpu(s, c, PopCli(k).(pc := SSti)).(lock := None)
    case MakePushCli => SetCpu(s, c, PushCli(k).(pc := CSpin))
    case MakeLock => SetCpu(s, c, k.(pc := CFind, cursor := 0)).(lock := Some(c))
    case MakeSkip => SetCpu(s, c, k.(cursor := k.cursor + 1))
    case MakeFound =>
      SetProc(SetCpu(s, c, k.(pc := CRel)), k.cursor,
              s.procs[k.cursor].(state := Embryo, pid := s.nextpid, owner := Some(c))).(nextpid := s.nextpid + 1)
    case MakeFull => SetCpu(s, c, k.(pc := CRelFull))
    case MakeFullRelease => SetCpu(s, c, PopCli(k).(pc := CBoot)).(lock := None)
    case MakeRelease => SetCpu(s, c, PopCli(k).(pc := CAlloc)).(lock := None)
    case MakeAlloc(ok) =>
      if ok then
        SetProc(SetCpu(s, c, k.(pc := CAcq)), k.cursor,
                s.procs[k.cursor].(pc := PStart, inTrap := false, ret := PRun))
      else
        SetProc(SetCpu(s, c, k.(pc := CBoot)), k.cursor, s.procs[k.cursor].(state := Unused, owner := None))
    case PublishPushCli => SetCpu(s, c, PushCli(k).(pc := CSpin2))
    case PublishLock => SetCpu(s, c, k.(pc := CPub)).(lock := Some(c))
    case Publish => SetProc(SetCpu(s, c, k.(pc := CRel2)), k.cursor,
                            s.procs[k.cursor].(state := Runnable, owner := None))
    case PublishRelease => SetCpu(s, c, PopCli(k).(pc := CBoot)).(lock := None)
  }

  // One step of the process thread that the CPU executes.
  function ProcStep(s: State, c: nat, a: Action): State
    requires InProcess(a) && Enabled(s, c, a)
  {
    var k := s.cpus[c];
    var p := k.running.value;
    var q := s.procs[p];
    match a
    case Start => SetProc(SetCpu(s, c, PopCli(k)), p, q.(pc := PIret)).(lock := None)
    case Timer => SetProc(SetCpu(s, c, k.(IF := false)), p, q.(pc := PTrap, inTrap := true, ret := q.pc))
    case CallYield => SetProc(s, p, q.(pc := PAcq, inTrap := false))
    case SetFlag(b) => SetCpu(s, c, k.(IF := b))
    case Check => SetProc(s, p, q.(pc := if k.proc == Some(p) && q.state == Running then PAcq else PIret))
    case YieldPushCli => SetProc(SetCpu(s, c, PushCli(k)), p, q.(pc := PSpin, want := k.IF))
    case YieldLock => SetProc(s, p, q.(pc := PSet)).(lock := Some(c))
    case SetRunnable => SetProc(s, p, q.(pc := PSched, state := Runnable))
    case SaveFlag => SetProc(s, p, q.(pc := PSwitch, intena := k.savedIF))
    case SwitchOut => SetProc(SetCpu(s, c, k.(running := None)), p, q.(pc := PResume))
    case RestoreFlag => SetProc(SetCpu(s, c, k.(savedIF := q.intena)), p, q.(pc := PRel))
    case YieldRelease => SetProc(SetCpu(s, c, PopCli(k)), p, q.(pc := if q.inTrap then PIret else PRun)).(lock := None)
    case Iret => SetProc(SetCpu(s, c, k.(IF := true)), p, q.(pc := q.ret, inTrap := false, ret := PRun))
  }

  function Do(s: State, c: nat, a: Action): State
    requires Enabled(s, c, a)
  {
    if InProcess(a) then ProcStep(s, c, a) else CpuStep(s, c, a)
  }
}
