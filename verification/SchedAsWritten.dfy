/** The protocol with every lock call left commented out that kernel/process/scheduler.c and
    kernel/process/proc.c comment out: those of yield, procstart, create_proc and userinit. A process
    then runs with the table lock still held for its CPU's scheduler, and processes are created with
    no lock at all. */
module SchedAsWritten {
  import opened Common
  import opened Sched
  import opened SchedInv

  // How far the boot thread of a CPU is in create_proc and userinit; without the lock each access to
  // shared data is a step of its own.
  datatype Maker =
    | Idle | Finding | Marking | Numbering | Counting(read: int) | Stacking | Publishing

  datatype World = World(s: State, make: seq<Maker>)

  datatype Act =
    | Thread(a: Action)
    | Begin | Pass | Found | Full | MarkEmbryo | Number | Count | Stack(ok: bool) | MakeRunnable

  datatype Event = Event(cpu: nat, act: Act)

  // ---- scheduler and process threads ----

  // The thread holds its scheduler's lock without knowing it: it sets the interrupt flag at will.
  predicate EnabledHere(s: State, c: nat, a: Action) {
    if a.SetFlag? then
      && c < |s.cpus| && s.cpus[c].running.Some? && s.cpus[c].running.value < |s.procs|
      && s.procs[s.cpus[c].running.value].pc == PRun
    else Enabled(s, c, a)
  }

  // procstart and yield go straight past their lock calls; everything else steps as before. want
  // records the interrupt flag with which yield is entered.
  function DoAsWritten(s: State, c: nat, a: Action): State
    requires EnabledHere(s, c, a)
  {
    var k := s.cpus[c];
    if a.SetFlag? then
      SetCpu(s, c, k.(IF := a.b))
    else if a.Start? then
      SetProc(s, k.running.value, s.procs[k.running.value].(pc := PIret))
    else if a.CallYield? then
      SetProc(s, k.running.value, s.procs[k.running.value].(pc := PSet, inTrap := false, want := k.IF))
    else if a.Check? then
      var q := s.procs[k.running.value];
      SetProc(s, k.running.value,
              if k.proc == k.running && q.state == Running then q.(pc := PSet, want := k.IF) else q.(pc := PIret))
    else if a.RestoreFlag? then
      var q := s.procs[k.running.value];
      SetProc(SetCpu(s, c, k.(savedIF := q.intena)), k.running.value, q.(pc := if q.inTrap then PIret else PRun))
    else
      Do(s, c, a)
  }

  // Threads never reach the lock calls, and creation is stepped below.
  predicate StepsHere(a: Action) {
    (InScheduler(a) || InProcess(a)) && !(a.YieldPushCli? || a.YieldLock? || a.YieldRelease?)
  }

  // ---- creation ----

  predicate Creates(w: World, c: nat, m: Maker) {
    && c < |w.s.cpus| == |w.make| && w.make[c] == m
    && w.s.cpus[c].running.None? && w.s.cpus[c].pc == CBoot
  }

  predicate CanDo(w: World, c: nat, x: Act) {
    match x
    case Thread(a) =>
      && c < |w.make| == |w.s.cpus| && EnabledHere(w.s, c, a) && StepsHere(a)
      && (a.EnterScheduler? ==> w.make[c] == Idle)
    case Begin => Creates(w, c, Idle)
    case Pass => Creates(w, c, Finding) && AtSlot(w.s, c) && Slot(w.s, c).state != Unused
    case Found => Creates(w, c, Finding) && AtSlot(w.s, c) && Slot(w.s, c).state == Unused
    case Full => Creates(w, c, Finding) && w.s.cpus[c].cursor == |w.s.procs|
    case MarkEmbryo => Creates(w, c, Marking) && AtSlot(w.s, c)
    case Number => Creates(w, c, Numbering) && AtSlot(w.s, c)
    case Count => c < |w.make| && w.make[c].Counting? && Creates(w, c, w.make[c]) && AtSlot(w.s, c)
    case Stack(_) => Creates(w, c, Stacking) && AtSlot(w.s, c)
    case MakeRunnable => Creates(w, c, Publishing) && AtSlot(w.s, c)
  }

  // The slot in hand.
  predicate AtSlot(s: State, c: nat) {
    c < |s.cpus| && s.cpus[c].cursor < |s.procs|
  }

  function Slot(s: State, c: nat): Proc
    requires AtSlot(s, c)
  {
    s.procs[s.cpus[c].cursor]
  }

  // The slot a creating CPU works on gets a new record.
  function SetSlot(w: World, c: nat, q: Proc, m: Maker): World
    requires c < |w.s.cpus| == |w.make| && w.s.cpus[c].cursor < |w.s.procs|
  {
    World(SetProc(w.s, w.s.cpus[c].cursor, q), w.make[c := m])
  }

  function SetCursor(w: World, c: nat, i: nat, m: Maker): World
    requires c < |w.s.cpus| == |w.make|
  {
    World(SetCpu(w.s, c, w.s.cpus[c].(cursor := i)), w.make[c := m])
  }

  function DoAct(w: World, c: nat, x: Act): World
    requires CanDo(w, c, x)
  {
    match x
    case Thread(a) => w.(s := DoAsWritten(w.s, c, a))
    case Begin => SetCursor(w, c, 0, Finding)
    case Pass => SetCursor(w, c, w.s.cpus[c].cursor + 1, Finding)
    case Found => w.(make := w.make[c := Marking])
    case Full => w.(make := w.make[c := Idle])
    case MarkEmbryo => SetSlot(w, c, Slot(w.s, c).(state := Embryo), Numbering)
    case Number => SetSlot(w, c, Slot(w.s, c).(pid := w.s.nextpid), Counting(w.s.nextpid))
    case Count => World(w.s.(nextpid := w.make[c].read + 1), w.make[c := Stacking])
    case Stack(ok) =>
      if ok then SetSlot(w, c, Slot(w.s, c).(pc := PStart, inTrap := false, ret := PRun), Publishing)
      else SetSlot(w, c, Slot(w.s, c).(state := Unused), Idle)
    case MakeRunnable => SetSlot(w, c, Slot(w.s, c).(state := Runnable), Idle)
  }

  // ---- what every run keeps ----

  predicate SchedulerHolds(pc: CpuPc) {
    pc.SScan? || pc.SMark? || pc.SSwitch? || pc.SBack?
  }

  // The lock belongs to the CPU whose scheduler is inside its scan, running a process or not.
  predicate SerialAt(s: State, c: nat)
    requires c < |s.cpus|
  {
    var k := s.cpus[c];
    && (s.lock == Some(c) <==> SchedulerHolds(k.pc))
    && k.ncli == (if SchedulerHolds(k.pc) || k.pc == SSpin then 1 else 0)
    && (k.running.Some? ==> k.pc == SBack && k.running == Some(k.cursor))
    && (Chosen(k.pc) <==> k.proc.Some?) && (k.proc.Some? ==> k.proc == Some(k.cursor))
  }

  predicate Parked(q: Proc) {
    q.pc == PStart || q.pc == PResume
  }

  // A thread that is not parked is the one the lock's CPU executes; inside yield its CPU still has
  // the interrupt flag yield was entered with, and past the first line it is not RUNNING.
  predicate ThreadAt(s: State, p: nat)
    requires p < |s.procs|
  {
    var q := s.procs[p];
    && (q.ret.PRun? || q.ret.PIret?)
    && (Parked(q) ||
    (&& s.lock.Some? && s.lock.value < |s.cpus| && s.cpus[s.lock.value].running == Some(p)
     && (q.pc.PSet? || q.pc.PSched? ==> s.cpus[s.lock.value].IF == q.want)
     && (q.pc.PSched? ==> q.state != Running)
     && !q.pc.PAcq?))
  }

  ghost predicate Serial(s: State) {
    && (forall c {:trigger SerialAt(s, c)} | 0 <= c < |s.cpus| :: SerialAt(s, c))
    && (forall p {:trigger ThreadAt(s, p)} | 0 <= p < |s.procs| :: ThreadAt(s, p))
  }

  lemma InitSerial(s: State)
    requires Init(s)
    ensures Serial(s)
  {
  }

  // ---- one step of a thread ----

  lemma ProcessSerial(s: State, c: nat, a: Action, d: nat)
    requires EnabledHere(s, c, a) && InProcess(a) && StepsHere(a) && d < |s.cpus| && SerialAt(s, c) && SerialAt(s, d)
    ensures var s' := DoAsWritten(s, c, a); |s'.cpus| == |s.cpus| && SerialAt(s', d)
  {
  }

  lemma SchedulerSerialSelf(s: State, c: nat, a: Action)
    requires Enabled(s, c, a) && InScheduler(a) && SerialAt(s, c)
    ensures var s' := CpuStep(s, c, a); |s'.cpus| == |s.cpus| && SerialAt(s', c)
  {
    hide CpuStep, SerialAt, Enabled;
    if a.Sti? || a.SchedPushCli? || a.SchedLock? || a.ScanEnd? { LockingSerialSelf(s, c, a); }
    else { ScanningSerialSelf(s, c, a); }
  }

  lemma LockingSerialSelf(s: State, c: nat, a: Action)
    requires Enabled(s, c, a) && (a.Sti? || a.SchedPushCli? || a.SchedLock? || a.ScanEnd?) && SerialAt(s, c)
    ensures var s' := CpuStep(s, c, a); |s'.cpus| == |s.cpus| && SerialAt(s', c)
  {
  }

  lemma ScanningSerialSelf(s: State, c: nat, a: Action)
    requires Enabled(s, c, a) && InScheduler(a) && SerialAt(s, c)
    requires !(a.Sti? || a.SchedPushCli? || a.SchedLock? || a.ScanEnd?)
    ensures var s' := CpuStep(s, c, a); |s'.cpus| == |s.cpus| && SerialAt(s', c)
  {
  }

  lemma SchedulerSerialOther(s: State, c: nat, a: Action, d: nat)
    requires Enabled(s, c, a) && InScheduler(a) && d < |s.cpus| && c != d && SerialAt(s, c) && SerialAt(s, d)
    ensures var s' := CpuStep(s, c, a); |s'.cpus| == |s.cpus| && SerialAt(s', d)
  {
  }

  // A scheduler step leaves alone the CPU that executes a process, and that process.
  ghost predicate Spared(s: State, s': State, c: nat) {
    && |s'.procs| == |s.procs| && |s'.cpus| == |s.cpus|
    && (forall p | 0 <= p < |s.procs| :: s'.procs[p].pc == s.procs[p].pc && s'.procs[p].ret == s.procs[p].ret
                                         && s'.procs[p].want == s.procs[p].want)
    && (forall d | 0 <= d < |s.cpus| && d != c :: s'.cpus[d] == s.cpus[d])
    && (s.lock.Some? && s.lock != Some(c) ==> s'.lock == s.lock && s'.procs == s.procs)
  }

  lemma SchedulerSpares(s: State, c: nat, a: Action)
    requires Enabled(s, c, a) && InScheduler(a) && SerialAt(s, c)
    ensures Spared(s, CpuStep(s, c, a), c)
  {
  }

  lemma SchedulerThread(s: State, s': State, c: nat, p: nat)
    requires Spared(s, s', c) && p < |s.procs| && ThreadAt(s, p) && c < |s.cpus| && s.cpus[c].running.None?
    ensures ThreadAt(s', p)
  {
  }

  lemma ProcessThreadOther(s: State, c: nat, a: Action, p: nat)
    requires EnabledHere(s, c, a) && InProcess(a) && StepsHere(a) && SerialAt(s, c)
    requires p < |s.procs| && s.cpus[c].running != Some(p) && ThreadAt(s, p)
    ensures var s' := DoAsWritten(s, c, a); p < |s'.procs| && ThreadAt(s', p)
  {
  }

  lemma ProcessThreadOwn(s: State, c: nat, a: Action, p: nat)
    requires EnabledHere(s, c, a) && InProcess(a) && StepsHere(a) && SerialAt(s, c)
    requires p < |s.procs| && s.cpus[c].running == Some(p) && ThreadAt(s, p)
    ensures var s' := DoAsWritten(s, c, a); p < |s'.procs| && ThreadAt(s', p)
  {
  }

  // A creation step touches the cursor of its own CPU and, in one slot, the pid, the state (never to
  // RUNNING) or a fresh context.
  lemma CreateSerial(w: World, c: nat, x: Act, d: nat)
    requires CanDo(w, c, x) && !x.Thread? && d < |w.s.cpus| && SerialAt(w.s, c) && SerialAt(w.s, d)
    ensures var s' := DoAct(w, c, x).s; |s'.cpus| == |w.s.cpus| && SerialAt(s', d)
  {
  }

  lemma CreateThread(w: World, c: nat, x: Act, p: nat)
    requires CanDo(w, c, x) && !x.Thread? && p < |w.s.procs| && ThreadAt(w.s, p)
    ensures var s' := DoAct(w, c, x).s; |s'.procs| == |w.s.procs| && ThreadAt(s', p)
  {
  }

  lemma EnabledHereCpu(s: State, c: nat, a: Action)
    requires EnabledHere(s, c, a)
    ensures c < |s.cpus| && (s.cpus[c].running.Some? <==> InProcess(a))
  {
  }

  lemma ThreadKeepsSerialAt(s: State, c: nat, a: Action, d: nat)
    requires EnabledHere(s, c, a) && StepsHere(a) && d < |s.cpus| && SerialAt(s, c) && SerialAt(s, d)
    ensures var s' := DoAsWritten(s, c, a); |s'.cpus| == |s.cpus| && SerialAt(s', d)
  {
    hide SerialAt, CpuStep, ProcStep;
    if InProcess(a) {
      ProcessSerial(s, c, a, d);
    } else if c == d {
      SchedulerSerialSelf(s, c, a);
    } else {
      SchedulerSerialOther(s, c, a, d);
    }
  }

  lemma ThreadKeepsThreadAt(s: State, c: nat, a: Action, p: nat)
    requires EnabledHere(s, c, a) && StepsHere(a) && c < |s.cpus| && SerialAt(s, c) && p < |s.procs| && ThreadAt(s, p)
    ensures var s' := DoAsWritten(s, c, a); p < |s'.procs| && |s'.procs| == |s.procs| && ThreadAt(s', p)
  {
    hide SerialAt, ThreadAt, CpuStep, Spared;
    EnabledHereCpu(s, c, a);
    ProcessSize(s, c, a);
    if !InProcess(a) {
      SchedulerSpares(s, c, a);
      SchedulerThread(s, CpuStep(s, c, a), c, p);
    } else if s.cpus[c].running == Some(p) {
      ProcessThreadOwn(s, c, a, p);
    } else {
      ProcessThreadOther(s, c, a, p);
    }
  }

  lemma ProcessSize(s: State, c: nat, a: Action)
    requires EnabledHere(s, c, a)
    ensures |DoAsWritten(s, c, a).procs| == |s.procs| && |DoAsWritten(s, c, a).cpus| == |s.cpus|
  {
    hide CpuStep;
    if !InProcess(a) { CpuStepSize(s, c, a); }
  }

  lemma CpuStepSize(s: State, c: nat, a: Action)
    requires !InProcess(a) && Enabled(s, c, a)
    ensures |CpuStep(s, c, a).procs| == |s.procs| && |CpuStep(s, c, a).cpus| == |s.cpus|
  {
  }

  lemma StepKeepsSerial(w: World, c: nat, x: Act)
    requires Serial(w.s) && CanDo(w, c, x)
    ensures Serial(DoAct(w, c, x).s)
  {
    hide SerialAt, ThreadAt, DoAsWritten, EnabledHere, StepsHere, Slot, Creates;
    var s' := DoAct(w, c, x).s;
    assert c < |w.s.cpus| by { CanDoCpu(w, c, x); }
    assert SerialAt(w.s, c);
    StepSize(w, c, x);
    forall d {:trigger SerialAt(s', d)} | 0 <= d < |s'.cpus| ensures SerialAt(s', d) {
      assert SerialAt(w.s, d);
      if x.Thread? { ThreadKeepsSerialAt(w.s, c, x.a, d); } else { CreateSerial(w, c, x, d); }
    }
    forall p {:trigger ThreadAt(s', p)} | 0 <= p < |s'.procs| ensures ThreadAt(s', p) {
      assert ThreadAt(w.s, p);
      if x.Thread? { ThreadKeepsThreadAt(w.s, c, x.a, p); } else { CreateThread(w, c, x, p); }
    }
  }

  lemma CanDoCpu(w: World, c: nat, x: Act)
    requires CanDo(w, c, x)
    ensures c < |w.s.cpus| == |w.make|
  {
  }

  lemma StepSize(w: World, c: nat, x: Act)
    requires CanDo(w, c, x)
    ensures var w' := DoAct(w, c, x);
            |w'.s.cpus| == |w.s.cpus| && |w'.s.procs| == |w.s.procs| && |w'.make| == |w.make|
  {
    if x.Thread? { ProcessSize(w.s, c, x.a); }
  }

  // ---- every run ----

  ghost predicate Follows(ws: seq<World>, es: seq<Event>, i: int)
    requires 0 <= i < |es| && |ws| == |es| + 1
  {
    CanDo(ws[i], es[i].cpu, es[i].act) && ws[i + 1] == DoAct(ws[i], es[i].cpu, es[i].act)
  }

  // ws are the states of a run from boot, es the steps between them.
  ghost predicate IsRun(ws: seq<World>, es: seq<Event>) {
    && |ws| == |es| + 1 && Init(ws[0].s) && |ws[0].make| == |ws[0].s.cpus|
    && (forall c | 0 <= c < |ws[0].make| :: ws[0].make[c] == Idle)
    && forall i | 0 <= i < |es| :: Follows(ws, es, i)
  }

  lemma {:induction false} RunSerial(ws: seq<World>, es: seq<Event>, i: nat)
    requires IsRun(ws, es) && i < |ws|
    ensures Serial(ws[i].s)
    decreases i
  {
    hide Init, Serial, CanDo, DoAct;
    if i == 0 {
      InitSerial(ws[0].s);
    } else {
      RunSerial(ws, es, i - 1);
      assert Follows(ws, es, i - 1);
      StepKeepsSerial(ws[i - 1], es[i - 1].cpu, es[i - 1].act);
    }
  }

  // In every state of every run at most one CPU has a process, so no two processes ever run at once.
  lemma OneCpuAtATime(ws: seq<World>, es: seq<Event>, i: nat, c: nat, d: nat)
    requires IsRun(ws, es) && i < |ws| && c < |ws[i].s.cpus| && d < |ws[i].s.cpus|
    requires ws[i].s.cpus[c].proc.Some? && ws[i].s.cpus[d].proc.Some?
    ensures c == d
  {
    RunSerial(ws, es, i);
    assert SerialAt(ws[i].s, c) && SerialAt(ws[i].s, d);
  }

  // ---- the conditions of sched ----

  // Step i is taken by the thread of process p.
  ghost predicate ByProc(ws: seq<World>, es: seq<Event>, i: int, p: nat)
    requires 0 <= i < |es| && |ws| == |es| + 1
  {
    && es[i].act.Thread? && InProcess(es[i].act.a) && es[i].cpu < |ws[i].s.cpus|
    && ws[i].s.cpus[es[i].cpu].running == Some(p)
  }

  // Step i enters yield: from the timer, or called by the process.
  ghost predicate EntersYield(ws: seq<World>, es: seq<Event>, i: int, p: nat)
    requires 0 <= i < |es| && |ws| == |es| + 1
  {
    ByProc(ws, es, i, p) && (es[i].act.a == CallYield || es[i].act.a == Check)
    && p < |ws[i + 1].s.procs| && ws[i + 1].s.procs[p].pc == PSet
  }

  lemma WantStays(w: World, c: nat, x: Act, p: nat)
    requires CanDo(w, c, x) && p < |w.s.procs|
    ensures p < |DoAct(w, c, x).s.procs|
    ensures DoAct(w, c, x).s.procs[p].want != w.s.procs[p].want ==>
              && x.Thread? && (x.a == CallYield || x.a == Check) && w.s.cpus[c].running == Some(p)
              && DoAct(w, c, x).s.procs[p].pc == PSet
  {
    hide Enabled;
    if x.Thread? { ThreadWant(w.s, c, x.a, p); } else { CreateWant(w, c, x, p); }
  }

  lemma ThreadWant(s: State, c: nat, a: Action, p: nat)
    requires EnabledHere(s, c, a) && StepsHere(a) && p < |s.procs|
    ensures p < |DoAsWritten(s, c, a).procs|
    ensures DoAsWritten(s, c, a).procs[p].want != s.procs[p].want ==>
              (a == CallYield || a == Check) && s.cpus[c].running == Some(p) && DoAsWritten(s, c, a).procs[p].pc == PSet
  {
    hide CpuStep;
    ProcessSize(s, c, a);
    if !InProcess(a) { CpuStepWant(s, c, a, p); }
  }

  lemma CpuStepWant(s: State, c: nat, a: Action, p: nat)
    requires !InProcess(a) && Enabled(s, c, a) && p < |s.procs|
    ensures p < |CpuStep(s, c, a).procs| && CpuStep(s, c, a).procs[p].want == s.procs[p].want
  {
  }

  lemma CreateWant(w: World, c: nat, x: Act, p: nat)
    requires CanDo(w, c, x) && !x.Thread? && p < |w.s.procs|
    ensures p < |DoAct(w, c, x).s.procs| && DoAct(w, c, x).s.procs[p].want == w.s.procs[p].want
  {
  }

  lemma {:induction false} WantStaysUntil(ws: seq<World>, es: seq<Event>, i: nat, j: nat, p: nat)
    requires IsRun(ws, es) && i <= j < |ws| && p < |ws[i].s.procs|
    requires forall k | i <= k < j :: !EntersYield(ws, es, k, p)
    ensures p < |ws[j].s.procs| && ws[j].s.procs[p].want == ws[i].s.procs[p].want
    decreases j
  {
    hide Init, CanDo, DoAct, InProcess;
    if i < j {
      WantStaysUntil(ws, es, i, j - 1, p);
      assert Follows(ws, es, j - 1);
      assert !EntersYield(ws, es, j - 1, p);
      CanDoCpu(ws[j - 1], es[j - 1].cpu, es[j - 1].act);
      YieldsAreProcess();
      WantStays(ws[j - 1], es[j - 1].cpu, es[j - 1].act, p);
    }
  }

  lemma YieldsAreProcess()
    ensures InProcess(CallYield) && InProcess(Check)
  {
  }

  // At every call of sched the caller's CPU holds the table lock and no other, and the process is
  // not RUNNING; interrupts are off exactly when they were off as the process entered yield.
  lemma SchedConditionsAsWritten(ws: seq<World>, es: seq<Event>, i: nat, j: nat, p: nat)
    requires IsRun(ws, es) && i < j < |es| && EntersYield(ws, es, i, p)
    requires es[j].act == Thread(SaveFlag) && ByProc(ws, es, j, p)
    requires forall k | i < k < j :: !EntersYield(ws, es, k, p)
    ensures var s, c := ws[j].s, es[j].cpu;
            && c < |s.cpus| && s.lock == Some(c) && s.cpus[c].ncli == 1
            && s.cpus[c].proc == Some(p) && p < |s.procs| && s.procs[p].state != Running
            && (!s.cpus[c].IF <==> !ws[i].s.cpus[es[i].cpu].IF)
  {
    hide Init;
    assert Follows(ws, es, i) && Follows(ws, es, j);
    assert ws[i + 1].s.procs[p].want == ws[i].s.cpus[es[i].cpu].IF by { EntryFlag(ws[i].s, es[i].cpu, es[i].act.a, p); }
    WantStaysUntil(ws, es, i + 1, j, p);
    RunSerial(ws, es, j);
    assert SerialAt(ws[j].s, es[j].cpu) && ThreadAt(ws[j].s, p);
  }

  lemma EntryFlag(s: State, c: nat, a: Action, p: nat)
    requires EnabledHere(s, c, a) && (a == CallYield || a == Check) && s.cpus[c].running == Some(p)
    requires p < |DoAsWritten(s, c, a).procs| && DoAsWritten(s, c, a).procs[p].pc == PSet
    ensures DoAsWritten(s, c, a).procs[p].want == s.cpus[c].IF
  {
  }
}
