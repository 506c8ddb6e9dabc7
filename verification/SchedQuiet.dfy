/** What more holds of the protocol without the commented-out locks (kernel/process/scheduler.c,
    kernel/process/proc.c, kernel/syscall/trap.c): which processes are RUNNING, and what the interrupt
    flag is when, as in the code, nothing but the timer calls yield. */
module SchedQuiet {
  import opened Common
  import opened Sched
  import opened SchedInv
  import opened SchedAsWritten
  import opened SchedCreate

  // ---- RUNNING processes ----

  // CPU c has marked its process RUNNING, and the process has not yet set itself RUNNABLE.
  predicate Marked(s: State, c: nat) {
    && c < |s.cpus|
    && (|| s.cpus[c].pc == SSwitch
        || (s.cpus[c].running.Some? && s.cpus[c].running.value < |s.procs| && InMark(s.procs[s.cpus[c].running.value].pc)))
  }

  predicate InMark(pc: ProcPc) {
    !pc.PSched? && !pc.PSwitch?
  }

  // A RUNNING process is the one that the CPU with the lock has marked.
  predicate RunningAt(s: State, p: nat)
    requires p < |s.procs|
  {
    s.procs[p].state == Running ==>
      s.lock.Some? && Marked(s, s.lock.value) && s.cpus[s.lock.value].proc == Some(p)
  }

  lemma SchedulerRunning(s: State, c: nat, a: Action, p: nat)
    requires Enabled(s, c, a) && InScheduler(a) && p < |s.procs| && SerialAt(s, c) && ThreadAt(s, p) && RunningAt(s, p)
    ensures var s' := CpuStep(s, c, a); |s'.procs| == |s.procs| && RunningAt(s', p)
  {
    hide CpuStep, Enabled, ThreadAt, Spared;
    SchedulerSpares(s, c, a);
    SparedFacts(s, CpuStep(s, c, a), c, p);
    if a.Mark? {
      MarkRunning(s, c, p);
    } else if s.lock == Some(c) || s.lock == None {
      OtherRunning(s, c, a, p);
    }
  }

  lemma SparedFacts(s: State, s': State, c: nat, p: nat)
    requires Spared(s, s', c) && p < |s.procs|
    ensures |s'.procs| == |s.procs| && |s'.cpus| == |s.cpus|
    ensures s.lock.Some? && s.lock != Some(c) ==>
              && s'.lock == s.lock && s'.procs == s.procs
              && (s.lock.value < |s.cpus| ==> s'.cpus[s.lock.value] == s.cpus[s.lock.value])
  {
  }

  lemma MarkRunning(s: State, c: nat, p: nat)
    requires Enabled(s, c, Mark) && p < |s.procs| && SerialAt(s, c) && RunningAt(s, p)
    ensures var s' := CpuStep(s, c, Mark); |s'.procs| == |s.procs| && RunningAt(s', p)
  {
  }

  lemma OtherRunning(s: State, c: nat, a: Action, p: nat)
    requires Enabled(s, c, a) && InScheduler(a) && !a.Mark? && p < |s.procs| && SerialAt(s, c)
    requires ThreadAt(s, p) && RunningAt(s, p) && (s.lock == Some(c) || s.lock == None)
    ensures var s' := CpuStep(s, c, a); |s'.procs| == |s.procs| && RunningAt(s', p)
  {
    hide CpuStep, ThreadAt, SerialAt;
    CpuStepSize(s, c, a);
    KeepsState(s, c, a, p);
    if s.procs[p].state == Running { DispatchRunning(s, c, p); }
  }

  lemma KeepsState(s: State, c: nat, a: Action, p: nat)
    requires Enabled(s, c, a) && InScheduler(a) && !a.Mark? && p < |s.procs|
    ensures |CpuStep(s, c, a).procs| == |s.procs| && CpuStep(s, c, a).procs[p].state == s.procs[p].state
  {
  }

  // The one step a CPU can take between marking a process and executing it.
  lemma DispatchRunning(s: State, c: nat, p: nat)
    requires c < |s.cpus| && s.cpus[c].running.None? && p < |s.procs| && s.procs[p].state == Running
    requires SerialAt(s, c) && ThreadAt(s, p) && RunningAt(s, p) && s.lock == Some(c)
    ensures s.cpus[c].pc == SSwitch
    ensures Enabled(s, c, Dispatch) ==> RunningAt(CpuStep(s, c, Dispatch), p)
  {
  }

  // A step of the process thread of CPU c changes that thread, and of the CPU's record only the
  // interrupt flags and running.
  ghost predicate OwnOnly(s: State, s': State, c: nat) {
    && |s'.procs| == |s.procs| && |s'.cpus| == |s.cpus| && s'.lock == s.lock
    && c < |s.cpus| && s.cpus[c].running.Some?
    && (forall d | 0 <= d < |s.cpus| && d != c :: s'.cpus[d] == s.cpus[d])
    && (forall p | 0 <= p < |s.procs| && s.cpus[c].running != Some(p) :: s'.procs[p] == s.procs[p])
    && s'.cpus[c].pc == s.cpus[c].pc && s'.cpus[c].proc == s.cpus[c].proc && s'.cpus[c].cursor == s.cpus[c].cursor
  }

  lemma ProcessOwnOnly(s: State, c: nat, a: Action)
    requires EnabledHere(s, c, a) && InProcess(a) && StepsHere(a)
    ensures OwnOnly(s, DoAsWritten(s, c, a), c)
  {
  }

  // What the step does to its own thread: only SetRunnable changes the state, only past it does the
  // thread come to sched, and only SwitchOut leaves the CPU.
  lemma ProcessOwn(s: State, c: nat, a: Action, p: nat)
    requires EnabledHere(s, c, a) && InProcess(a) && StepsHere(a) && s.cpus[c].running == Some(p) && p < |s.procs|
    requires s.procs[p].ret.PRun? || s.procs[p].ret.PIret?
    ensures var s' := DoAsWritten(s, c, a);
            && p < |s'.procs| && c < |s'.cpus|
            && s'.procs[p].state == (if a.SetRunnable? then Runnable else s.procs[p].state)
            && (InMark(s'.procs[p].pc) <==> (InMark(s.procs[p].pc) && !a.SetRunnable?) || a.SwitchOut?)
            && s'.cpus[c].running == (if a.SwitchOut? then None else Some(p))
            && (a.SetRunnable? ==> s.procs[p].pc == PSet) && (a.SwitchOut? ==> s.procs[p].pc == PSwitch)
  {
  }

  lemma ProcessRunning(s: State, c: nat, a: Action, p: nat)
    requires EnabledHere(s, c, a) && InProcess(a) && StepsHere(a) && SerialAt(s, c) && p < |s.procs|
    requires ThreadAt(s, p) && RunningAt(s, p)
    ensures var s' := DoAsWritten(s, c, a); |s'.procs| == |s.procs| && RunningAt(s', p)
  {
    hide DoAsWritten, EnabledHere, InProcess, StepsHere;
    ProcessOwnOnly(s, c, a);
    if s.cpus[c].running == Some(p) { ProcessOwn(s, c, a, p); }
  }

  lemma CreateRunning(w: World, c: nat, x: Act, p: nat)
    requires CanDo(w, c, x) && !x.Thread? && p < |w.s.procs| && RunningAt(w.s, p)
    ensures var s' := DoAct(w, c, x).s; |s'.procs| == |w.s.procs| && RunningAt(s', p)
  {
  }

  lemma StepKeepsRunning(w: World, c: nat, x: Act, p: nat)
    requires CanDo(w, c, x) && Serial(w.s) && p < |w.s.procs| && RunningAt(w.s, p)
    ensures var s' := DoAct(w, c, x).s; |s'.procs| == |w.s.procs| && RunningAt(s', p)
  {
    hide SerialAt, ThreadAt, RunningAt, DoAsWritten, CpuStep, Enabled;
    CanDoCpu(w, c, x);
    assert SerialAt(w.s, c) && ThreadAt(w.s, p);
    if !x.Thread? {
      CreateRunning(w, c, x, p);
    } else if InProcess(x.a) {
      ProcessRunning(w.s, c, x.a, p);
    } else {
      SchedulerStep(w.s, c, x.a);
      SchedulerRunning(w.s, c, x.a, p);
    }
  }

  lemma SchedulerStep(s: State, c: nat, a: Action)
    requires EnabledHere(s, c, a) && StepsHere(a) && !InProcess(a)
    ensures InScheduler(a) && Enabled(s, c, a) && DoAsWritten(s, c, a) == CpuStep(s, c, a)
  {
  }

  lemma {:induction false} RunRunning(ws: seq<World>, es: seq<Event>, i: nat, p: nat)
    requires IsRun(ws, es) && i < |ws| && p < |ws[i].s.procs|
    ensures RunningAt(ws[i].s, p)
    decreases i
  {
    hide Serial, CanDo, DoAct, RunningAt;
    if i == 0 {
      InitRunning(ws[0].s, p);
    } else {
      RunSerial(ws, es, i - 1);
      assert Follows(ws, es, i - 1);
      StepSize(ws[i - 1], es[i - 1].cpu, es[i - 1].act);
      RunRunning(ws, es, i - 1, p);
      StepKeepsRunning(ws[i - 1], es[i - 1].cpu, es[i - 1].act, p);
    }
  }

  lemma InitRunning(s: State, p: nat)
    requires Init(s) && p < |s.procs|
    ensures RunningAt(s, p)
  {
  }

  // ---- the process a CPU has marked is RUNNING ----

  predicate StatusAt(s: State, c: nat)
    requires c < |s.cpus|
  {
    Marked(s, c) ==> AtSlot(s, c) && Slot(s, c).state == Running
  }

  lemma SchedulerStatusSelf(s: State, c: nat, a: Action)
    requires Enabled(s, c, a) && InScheduler(a) && StatusAt(s, c)
    ensures var s' := CpuStep(s, c, a); |s'.cpus| == |s.cpus| && StatusAt(s', c)
  {
    hide CpuStep, Enabled;
    CpuStepSize(s, c, a);
    if a.Mark? || a.Dispatch? { MarkStatus(s, c, a); } else { NotMarked(s, c, a); }
  }

  lemma MarkStatus(s: State, c: nat, a: Action)
    requires Enabled(s, c, a) && (a.Mark? || a.Dispatch?) && StatusAt(s, c)
    ensures var s' := CpuStep(s, c, a); |s'.cpus| == |s.cpus| && StatusAt(s', c)
  {
  }

  lemma NotMarked(s: State, c: nat, a: Action)
    requires Enabled(s, c, a) && InScheduler(a) && !a.Mark? && !a.Dispatch?
    ensures !Marked(CpuStep(s, c, a), c)
  {
  }

  // A CPU that has marked a process has the lock.
  lemma MarkedHolds(s: State, c: nat)
    requires c < |s.cpus| && SerialAt(s, c) && (Marked(s, c) || s.cpus[c].running.Some?)
    ensures s.lock == Some(c)
  {
  }

  lemma SchedulerStatusOther(s: State, c: nat, a: Action, d: nat)
    requires Enabled(s, c, a) && InScheduler(a) && SerialAt(s, c)
    requires d < |s.cpus| && d != c && SerialAt(s, d) && StatusAt(s, d)
    ensures var s' := CpuStep(s, c, a); |s'.cpus| == |s.cpus| && StatusAt(s', d)
  {
    hide CpuStep, Enabled;
    SchedulerSpares(s, c, a);
  }

  lemma ProcessStatus(s: State, c: nat, a: Action, d: nat)
    requires EnabledHere(s, c, a) && InProcess(a) && StepsHere(a) && SerialAt(s, c)
    requires d < |s.cpus| && SerialAt(s, d) && StatusAt(s, d)
    requires s.cpus[c].running.Some? && s.cpus[c].running.value < |s.procs| && ThreadAt(s, s.cpus[c].running.value)
    ensures var s' := DoAsWritten(s, c, a); |s'.cpus| == |s.cpus| && StatusAt(s', d)
  {
    hide DoAsWritten, EnabledHere, InProcess, StepsHere;
    ProcessOwnOnly(s, c, a);
    if d == c {
      ProcessOwn(s, c, a, s.cpus[c].running.value);
    } else {
      MarkedHolds(s, c);
      if Marked(s, d) { MarkedHolds(s, d); }
    }
  }

  // A slot being created is chosen by no CPU, so creation leaves alone the processes CPUs have.
  lemma CreateSparesChosen(w: World, c: nat, x: Act, d: nat)
    requires CanDo(w, c, x) && !x.Thread? && MakerAt(w, c) && d < |w.s.cpus| && ChosenAt(w.s, d) && Chosen(w.s.cpus[d].pc)
    ensures var s, s' := w.s, DoAct(w, c, x).s;
            && |s'.cpus| == |s.cpus| && s'.cpus[d] == s.cpus[d]
            && AtSlot(s, d) && |s'.procs| == |s.procs| && Slot(s', d) == Slot(s, d)
  {
  }

  lemma CreateStatus(w: World, c: nat, x: Act, d: nat)
    requires CanDo(w, c, x) && !x.Thread? && MakerAt(w, c) && d < |w.s.cpus| && ChosenAt(w.s, d) && StatusAt(w.s, d)
    ensures var s' := DoAct(w, c, x).s; |s'.cpus| == |w.s.cpus| && StatusAt(s', d)
  {
    hide CanDo, DoAct, MakerAt;
    CreateCpu(w, c, x, d);
    if Chosen(w.s.cpus[d].pc) { CreateSparesChosen(w, c, x, d); }
  }

  lemma CreateCpu(w: World, c: nat, x: Act, d: nat)
    requires CanDo(w, c, x) && !x.Thread? && d < |w.s.cpus|
    ensures var s' := DoAct(w, c, x).s;
            && |s'.cpus| == |w.s.cpus| && |s'.procs| == |w.s.procs|
            && s'.cpus[d] == w.s.cpus[d].(cursor := s'.cpus[d].cursor)
  {
  }

  lemma StepKeepsStatus(w: World, c: nat, x: Act, d: nat)
    requires CanDo(w, c, x) && Serial(w.s) && CreateInv(w) && d < |w.s.cpus| && StatusAt(w.s, d)
    ensures var s' := DoAct(w, c, x).s; |s'.cpus| == |w.s.cpus| && StatusAt(s', d)
  {
    hide SerialAt, ThreadAt, StatusAt, MakerAt, ChosenAt, PidsApart, DoAsWritten, CpuStep, Enabled;
    CanDoCpu(w, c, x);
    assert SerialAt(w.s, c) && SerialAt(w.s, d) && MakerAt(w, c) && ChosenAt(w.s, d);
    if !x.Thread? {
      CreateStatus(w, c, x, d);
    } else if InProcess(x.a) {
      ProcessEnabled(w.s, c, x.a);
      assert ThreadAt(w.s, w.s.cpus[c].running.value);
      ProcessStatus(w.s, c, x.a, d);
    } else {
      SchedulerStep(w.s, c, x.a);
      if c == d { SchedulerStatusSelf(w.s, c, x.a); } else { SchedulerStatusOther(w.s, c, x.a, d); }
    }
  }

  lemma ProcessEnabled(s: State, c: nat, a: Action)
    requires EnabledHere(s, c, a) && InProcess(a)
    ensures c < |s.cpus| && s.cpus[c].running.Some? && s.cpus[c].running.value < |s.procs|
  {
  }

  lemma {:induction false} RunStatus(ws: seq<World>, es: seq<Event>, i: nat, c: nat)
    requires IsRun(ws, es) && OneCreator(ws, es) && i < |ws| && c < |ws[i].s.cpus|
    ensures StatusAt(ws[i].s, c)
    decreases i
  {
    hide Serial, CanDo, DoAct, StatusAt, CreateInv, OthersIdle;
    if i == 0 {
      InitQuiet(ws[0].s, c);
    } else {
      RunSerial(ws, es, i - 1);
      RunCreateInv(ws, es, i - 1);
      assert Follows(ws, es, i - 1);
      StepSize(ws[i - 1], es[i - 1].cpu, es[i - 1].act);
      RunStatus(ws, es, i - 1, c);
      StepKeepsStatus(ws[i - 1], es[i - 1].cpu, es[i - 1].act, c);
    }
  }

  lemma InitQuiet(s: State, c: nat)
    requires Init(s) && c < |s.cpus|
    ensures StatusAt(s, c) && QuietAt(s, c)
  {
  }

  // In every run a RUNNING process is the proc of one CPU, which has the lock; and with one creator at a
  // time a process is RUNNING exactly when some CPU has marked it and it has not yet yielded.
  lemma RunningMeansOneCpuAsWritten(ws: seq<World>, es: seq<Event>, i: nat, p: nat)
    requires IsRun(ws, es) && i < |ws| && p < |ws[i].s.procs|
    ensures var s := ws[i].s;
            && (s.procs[p].state == Running ==>
                  exists c | 0 <= c < |s.cpus| :: s.cpus[c].proc == Some(p) && Marked(s, c) && s.lock == Some(c))
            && (forall c, d | 0 <= c < |s.cpus| && 0 <= d < |s.cpus|
                              && s.cpus[c].proc == Some(p) && s.cpus[d].proc == Some(p) :: c == d)
            && (OneCreator(ws, es) ==>
                  (s.procs[p].state == Running <==>
                   exists c | 0 <= c < |s.cpus| :: s.cpus[c].proc == Some(p) && Marked(s, c)))
  {
    hide Init, OneCreator;
    var s := ws[i].s;
    RunSerial(ws, es, i);
    RunRunning(ws, es, i, p);
    forall c, d | 0 <= c < |s.cpus| && 0 <= d < |s.cpus| && s.cpus[c].proc == Some(p) && s.cpus[d].proc == Some(p)
      ensures c == d
    {
      OneCpuAtATime(ws, es, i, c, d);
    }
    if OneCreator(ws, es) {
      forall c | 0 <= c < |s.cpus| && s.cpus[c].proc == Some(p) && Marked(s, c) ensures s.procs[p].state == Running {
        RunStatus(ws, es, i, c);
        assert SerialAt(s, c);
      }
    }
  }

  // ---- how the state of a process changes ----

  function Change(x: Act): Option<(ProcState, ProcState)> {
    match x
    case MarkEmbryo => Some((Unused, Embryo))
    case Stack(ok) => if ok then None else Some((Embryo, Unused))
    case MakeRunnable => Some((Embryo, Runnable))
    case Thread(a) =>
      if a.Mark? then Some((Runnable, Running)) else if a.SetRunnable? then Some((Running, Runnable)) else None
    case _ => None
  }

  predicate Changes(x: Act, from: ProcState, to: ProcState) {
    if Change(x).Some? then Change(x) == Some((from, to)) else from == to
  }

  lemma CreateChange(w: World, c: nat, x: Act, p: nat)
    requires CanDo(w, c, x) && !x.Thread? && MakerAt(w, c) && p < |w.s.procs|
    ensures var w' := DoAct(w, c, x);
            && p < |w'.s.procs|
            && (w.s.cpus[c].cursor == p ==> Changes(x, w.s.procs[p].state, w'.s.procs[p].state))
            && (w.s.cpus[c].cursor != p ==> w'.s.procs[p].state == w.s.procs[p].state)
  {
  }

  lemma SchedulerChange(s: State, c: nat, a: Action, p: nat)
    requires Enabled(s, c, a) && InScheduler(a) && p < |s.procs| && ChosenAt(s, c) && SerialAt(s, c) && RunningAt(s, p)
    ensures var s' := CpuStep(s, c, a);
            && p < |s'.procs|
            && (s.cpus[c].cursor == p ==> Changes(Thread(a), s.procs[p].state, s'.procs[p].state))
            && (s.cpus[c].cursor != p ==> s'.procs[p].state == s.procs[p].state)
  {
    hide CpuStep, Enabled, SerialAt, ChosenAt, RunningAt;
    CpuStepSize(s, c, a);
    if a.Mark? { MarkChange(s, c, p); } else { KeepsState(s, c, a, p); }
  }

  lemma MarkChange(s: State, c: nat, p: nat)
    requires Enabled(s, c, Mark) && p < |s.procs| && ChosenAt(s, c) && SerialAt(s, c) && RunningAt(s, p)
    ensures var s' := CpuStep(s, c, Mark);
            && p < |s'.procs|
            && (s.cpus[c].cursor == p ==> s.procs[p].state == Runnable && s'.procs[p].state == Running)
            && (s.cpus[c].cursor != p ==> s'.procs[p].state == s.procs[p].state)
  {
  }

  lemma ProcessChange(s: State, c: nat, a: Action, p: nat)
    requires EnabledHere(s, c, a) && InProcess(a) && StepsHere(a) && SerialAt(s, c) && StatusAt(s, c)
    requires s.cpus[c].running == Some(p) && p < |s.procs| && ThreadAt(s, p)
    ensures var s' := DoAsWritten(s, c, a);
            s.cpus[c].cursor == p && p < |s'.procs| && Changes(Thread(a), s.procs[p].state, s'.procs[p].state)
  {
    hide DoAsWritten, EnabledHere, SerialAt;
    ProcessEnabled(s, c, a);
    ProcessOwn(s, c, a, p);
    RunningIsMarked(s, c, p);
  }

  // Without the locks, if one CPU at a time is creating, these are the changes there are.
  lemma StateChangesAsWritten(ws: seq<World>, es: seq<Event>, i: nat, p: nat)
    requires IsRun(ws, es) && OneCreator(ws, es) && i < |es| && p < |ws[i].s.procs|
    ensures p < |ws[i + 1].s.procs| && es[i].cpu < |ws[i].s.cpus|
    ensures var from, to, x := ws[i].s.procs[p].state, ws[i + 1].s.procs[p].state, es[i].act;
            if ws[i].s.cpus[es[i].cpu].cursor == p then Changes(x, from, to) else from == to
  {
    hide Init, OneCreator, SerialAt, ThreadAt, StatusAt, RunningAt, MakerAt, ChosenAt, PidsApart, Changes;
    hide DoAsWritten, CpuStep, Enabled, OwnOnly;
    var w, c, x := ws[i], es[i].cpu, es[i].act;
    assert Follows(ws, es, i);
    CanDoCpu(w, c, x);
    RunSerial(ws, es, i);
    RunCreateInv(ws, es, i);
    RunRunning(ws, es, i, p);
    RunStatus(ws, es, i, c);
    assert SerialAt(w.s, c) && MakerAt(w, c) && ChosenAt(w.s, c) && ThreadAt(w.s, p);
    if !x.Thread? {
      CreateChange(w, c, x, p);
    } else if InProcess(x.a) {
      ThreadChange(w.s, c, x.a, p);
    } else {
      SchedulerStep(w.s, c, x.a);
      SchedulerChange(w.s, c, x.a, p);
    }
  }

  lemma ThreadChange(s: State, c: nat, a: Action, p: nat)
    requires EnabledHere(s, c, a) && InProcess(a) && StepsHere(a) && p < |s.procs|
    requires Serial(s) && c < |s.cpus| && StatusAt(s, c)
    ensures var s' := DoAsWritten(s, c, a);
            && p < |s'.procs|
            && (s.cpus[c].cursor == p ==> Changes(Thread(a), s.procs[p].state, s'.procs[p].state))
            && (s.cpus[c].cursor != p ==> s'.procs[p].state == s.procs[p].state)
  {
    hide DoAsWritten, EnabledHere, StepsHere, InProcess, SerialAt, ThreadAt, StatusAt, Changes;
    ProcessEnabled(s, c, a);
    ProcessOwnOnly(s, c, a);
    var q := s.cpus[c].running.value;
    assert SerialAt(s, c) && ThreadAt(s, q);
    ProcessChange(s, c, a, q);
  }

  // ---- the interrupt flag ----

  // Whoever calls yield other than the timer has interrupts off. In the code nobody else calls it.
  ghost predicate YieldsQuietly(ws: seq<World>, es: seq<Event>)
    requires |ws| == |es| + 1
  {
    forall i | 0 <= i < |es| && es[i].act == Thread(CallYield) :: !FlagOn(ws[i], es[i].cpu)
  }

  predicate FlagOn(w: World, c: nat) {
    c < |w.s.cpus| && w.s.cpus[c].IF
  }

  // Interrupts are off in the scheduler from before it takes the lock until it gives it back, and in a
  // process everywhere but outside the kernel's scheduling code.
  predicate QuietAt(s: State, c: nat)
    requires c < |s.cpus|
  {
    var k := s.cpus[c];
    if k.running.None? then SchedulerHolds(k.pc) || k.pc == SSpin ==> !k.IF
    else k.running.value < |s.procs| && (k.IF ==> s.procs[k.running.value].pc == PRun)
  }

  predicate ReturnsOut(s: State, p: nat)
    requires p < |s.procs|
  {
    s.procs[p].ret == PRun
  }

  lemma SchedulerQuietSelf(s: State, c: nat, a: Action)
    requires Enabled(s, c, a) && InScheduler(a) && QuietAt(s, c)
    ensures var s' := CpuStep(s, c, a); |s'.cpus| == |s.cpus| && QuietAt(s', c)
  {
    hide CpuStep, Enabled;
    CpuStepSize(s, c, a);
    if a.Sti? || a.SchedPushCli? || a.SchedLock? || a.ScanEnd? || a.EnterScheduler? { FlagSteps(s, c, a); }
    else { FlagStays(s, c, a); }
  }

  lemma FlagSteps(s: State, c: nat, a: Action)
    requires Enabled(s, c, a) && QuietAt(s, c)
    requires a.Sti? || a.SchedPushCli? || a.SchedLock? || a.ScanEnd? || a.EnterScheduler?
    ensures var s' := CpuStep(s, c, a); |s'.cpus| == |s.cpus| && QuietAt(s', c)
  {
  }

  lemma FlagStays(s: State, c: nat, a: Action)
    requires Enabled(s, c, a) && InScheduler(a) && QuietAt(s, c)
    requires !(a.Sti? || a.SchedPushCli? || a.SchedLock? || a.ScanEnd? || a.EnterScheduler?)
    ensures var s' := CpuStep(s, c, a); |s'.cpus| == |s.cpus| && QuietAt(s', c)
  {
  }

  lemma SchedulerQuietOther(s: State, c: nat, a: Action, d: nat)
    requires Enabled(s, c, a) && InScheduler(a) && SerialAt(s, c) && d < |s.cpus| && d != c && SerialAt(s, d) && QuietAt(s, d)
    ensures var s' := CpuStep(s, c, a); |s'.cpus| == |s.cpus| && QuietAt(s', d)
  {
    hide CpuStep, Enabled;
    SchedulerSpares(s, c, a);
  }

  lemma ProcessQuietSelf(s: State, c: nat, a: Action)
    requires EnabledHere(s, c, a) && InProcess(a) && StepsHere(a) && QuietAt(s, c) && (a.CallYield? ==> !s.cpus[c].IF)
    requires s.cpus[c].running.Some? && s.cpus[c].running.value < |s.procs| && ReturnsOut(s, s.cpus[c].running.value)
    ensures var s' := DoAsWritten(s, c, a);
            |s'.cpus| == |s.cpus| && QuietAt(s', c) && |s'.procs| == |s.procs| && ReturnsOut(s', s.cpus[c].running.value)
  {
  }

  lemma ProcessQuietOther(s: State, c: nat, a: Action, d: nat)
    requires EnabledHere(s, c, a) && InProcess(a) && StepsHere(a) && SerialAt(s, c)
    requires d < |s.cpus| && d != c && SerialAt(s, d) && QuietAt(s, d)
    ensures var s' := DoAsWritten(s, c, a); |s'.cpus| == |s.cpus| && QuietAt(s', d)
  {
    hide DoAsWritten, EnabledHere, InProcess, StepsHere;
    ProcessOwnOnly(s, c, a);
  }

  lemma CreateQuiet(w: World, c: nat, x: Act, d: nat)
    requires CanDo(w, c, x) && !x.Thread? && MakerAt(w, c) && d < |w.s.cpus| && ChosenAt(w.s, d) && QuietAt(w.s, d)
    ensures var s' := DoAct(w, c, x).s; |s'.cpus| == |w.s.cpus| && QuietAt(s', d)
  {
    hide CanDo, DoAct, MakerAt;
    CreateCpu(w, c, x, d);
    if Chosen(w.s.cpus[d].pc) { CreateSparesChosen(w, c, x, d); }
  }

  lemma SchedulerReturns(s: State, c: nat, a: Action, p: nat)
    requires Enabled(s, c, a) && InScheduler(a) && p < |s.procs| && SerialAt(s, c) && ReturnsOut(s, p)
    ensures var s' := CpuStep(s, c, a); |s'.procs| == |s.procs| && ReturnsOut(s', p)
  {
    hide CpuStep, Enabled;
    SchedulerSpares(s, c, a);
  }

  lemma CreateReturns(w: World, c: nat, x: Act, p: nat)
    requires CanDo(w, c, x) && !x.Thread? && p < |w.s.procs| && ReturnsOut(w.s, p)
    ensures var s' := DoAct(w, c, x).s; |s'.procs| == |w.s.procs| && ReturnsOut(s', p)
  {
  }

  ghost predicate Quiet(s: State) {
    && (forall c {:trigger QuietAt(s, c)} | 0 <= c < |s.cpus| :: QuietAt(s, c))
    && (forall p {:trigger ReturnsOut(s, p)} | 0 <= p < |s.procs| :: ReturnsOut(s, p))
  }

  lemma StepKeepsQuietAt(w: World, c: nat, x: Act, d: nat)
    requires CanDo(w, c, x) && (x == Thread(CallYield) ==> !FlagOn(w, c))
    requires Serial(w.s) && CreateInv(w) && Quiet(w.s) && d < |w.s.cpus|
    ensures var s' := DoAct(w, c, x).s; |s'.cpus| == |w.s.cpus| && QuietAt(s', d)
  {
    hide SerialAt, ThreadAt, QuietAt, ReturnsOut, MakerAt, ChosenAt, PidsApart, DoAsWritten, CpuStep, Enabled;
    CanDoCpu(w, c, x);
    assert SerialAt(w.s, c) && SerialAt(w.s, d) && MakerAt(w, c) && ChosenAt(w.s, d) && QuietAt(w.s, d);
    if !x.Thread? {
      CreateQuiet(w, c, x, d);
    } else if InProcess(x.a) {
      ProcessEnabled(w.s, c, x.a);
      assert ReturnsOut(w.s, w.s.cpus[c].running.value);
      if c == d { ProcessQuietSelf(w.s, c, x.a); } else { ProcessQuietOther(w.s, c, x.a, d); }
    } else {
      SchedulerStep(w.s, c, x.a);
      if c == d { SchedulerQuietSelf(w.s, c, x.a); } else { SchedulerQuietOther(w.s, c, x.a, d); }
    }
  }

  lemma StepKeepsReturns(w: World, c: nat, x: Act, p: nat)
    requires CanDo(w, c, x) && (x == Thread(CallYield) ==> !FlagOn(w, c)) && Serial(w.s) && Quiet(w.s) && p < |w.s.procs|
    ensures var s' := DoAct(w, c, x).s; |s'.procs| == |w.s.procs| && ReturnsOut(s', p)
  {
    hide SerialAt, ThreadAt, QuietAt, DoAsWritten, CpuStep, Enabled;
    CanDoCpu(w, c, x);
    assert SerialAt(w.s, c) && QuietAt(w.s, c) && ReturnsOut(w.s, p);
    if !x.Thread? {
      CreateReturns(w, c, x, p);
    } else if InProcess(x.a) {
      ProcessEnabled(w.s, c, x.a);
      assert ReturnsOut(w.s, w.s.cpus[c].running.value);
      ProcessQuietSelf(w.s, c, x.a);
      ProcessOwnOnly(w.s, c, x.a);
    } else {
      SchedulerStep(w.s, c, x.a);
      SchedulerReturns(w.s, c, x.a, p);
    }
  }

  lemma {:induction false} RunQuiet(ws: seq<World>, es: seq<Event>, i: nat)
    requires IsRun(ws, es) && OneCreator(ws, es) && YieldsQuietly(ws, es) && i < |ws|
    ensures Quiet(ws[i].s)
    decreases i
  {
    hide Serial, CanDo, DoAct, QuietAt, ReturnsOut, CreateInv, OthersIdle, Init;
    if i == 0 {
      InitAllQuiet(ws[0].s);
    } else {
      RunSerial(ws, es, i - 1);
      RunCreateInv(ws, es, i - 1);
      RunQuiet(ws, es, i - 1);
      assert Follows(ws, es, i - 1);
      var w, c, x := ws[i - 1], es[i - 1].cpu, es[i - 1].act;
      StepSize(w, c, x);
      forall d {:trigger QuietAt(ws[i].s, d)} | 0 <= d < |ws[i].s.cpus| ensures QuietAt(ws[i].s, d) {
        StepKeepsQuietAt(w, c, x, d);
      }
      forall p {:trigger ReturnsOut(ws[i].s, p)} | 0 <= p < |ws[i].s.procs| ensures ReturnsOut(ws[i].s, p) {
        StepKeepsReturns(w, c, x, p);
      }
    }
  }

  lemma InitAllQuiet(s: State)
    requires Init(s)
    ensures Quiet(s)
  {
  }

  // Interrupts are off at every call of sched.
  lemma InterruptsOffAtSched(ws: seq<World>, es: seq<Event>, i: nat)
    requires IsRun(ws, es) && OneCreator(ws, es) && YieldsQuietly(ws, es) && i < |es| && es[i].act == Thread(SaveFlag)
    ensures es[i].cpu < |ws[i].s.cpus| && !ws[i].s.cpus[es[i].cpu].IF
  {
    hide Init, OneCreator, YieldsQuietly;
    RunQuiet(ws, es, i);
    assert Follows(ws, es, i);
    assert QuietAt(ws[i].s, es[i].cpu);
  }

  // A timer interrupt finds a process outside the scheduling code, where it is a step of the run, or a
  // CPU with no process, where it does nothing.
  lemma EveryTimerIsAStep(ws: seq<World>, es: seq<Event>, i: nat, c: nat)
    requires IsRun(ws, es) && OneCreator(ws, es) && YieldsQuietly(ws, es)
    requires i < |ws| && c < |ws[i].s.cpus| && ws[i].s.cpus[c].IF
    ensures if ws[i].s.cpus[c].running.Some? then CanDo(ws[i], c, Thread(Timer)) else ws[i].s.cpus[c].proc.None?
  {
    hide Init, OneCreator, YieldsQuietly;
    RunQuiet(ws, es, i);
    RunSerial(ws, es, i);
    RunCreateInv(ws, es, i);
    assert QuietAt(ws[i].s, c) && SerialAt(ws[i].s, c);
  }

  // yield returns with the interrupt flag it was entered with, whatever CPU it resumed on.
  lemma FlagComesBackAsWritten(ws: seq<World>, es: seq<Event>, i: nat, j: nat, p: nat)
    requires IsRun(ws, es) && OneCreator(ws, es) && YieldsQuietly(ws, es) && i < j < |es| && EntersYield(ws, es, i, p)
    requires es[j].act == Thread(RestoreFlag) && ByProc(ws, es, j, p)
    ensures es[j].cpu < |ws[j + 1].s.cpus| && ws[j + 1].s.cpus[es[j].cpu].IF == ws[i].s.cpus[es[i].cpu].IF
  {
    hide Init, OneCreator, YieldsQuietly;
    RunQuiet(ws, es, i);
    RunQuiet(ws, es, j);
    assert Follows(ws, es, i) && Follows(ws, es, j);
    assert QuietAt(ws[i].s, es[i].cpu) && QuietAt(ws[j].s, es[j].cpu);
    EntryIsQuiet(ws, es, i, p);
  }

  lemma EntryIsQuiet(ws: seq<World>, es: seq<Event>, i: nat, p: nat)
    requires |ws| == |es| + 1 && YieldsQuietly(ws, es) && i < |es| && EntersYield(ws, es, i, p) && Follows(ws, es, i)
    requires QuietAt(ws[i].s, es[i].cpu)
    ensures !ws[i].s.cpus[es[i].cpu].IF
  {
  }

  // ---- the timer ----

  // CPU c executes p, on the way to setting p RUNNABLE.
  predicate Yielding(s: State, c: nat, p: nat) {
    && c < |s.cpus| && p < |s.procs| && s.cpus[c].running == Some(p)
    && (s.procs[p].pc.PTrap? || s.procs[p].pc.PSet?)
  }

  predicate Enters(a: Action) {
    a.Timer? || a.CallYield?
  }

  predicate Out(a: Action) {
    a.Iret? || a.CallYield? || a.SetFlag?
  }

  lemma EntersYielding(s: State, c: nat, a: Action, p: nat)
    requires EnabledHere(s, c, a) && Enters(a) && s.cpus[c].running == Some(p)
    ensures Yielding(DoAsWritten(s, c, a), c, p)
  {
  }

  // A CPU that executes a process has chosen and marked it.
  lemma RunningIsMarked(s: State, c: nat, p: nat)
    requires c < |s.cpus| && s.cpus[c].running == Some(p) && SerialAt(s, c)
    ensures s.cpus[c].pc == SBack && s.cpus[c].cursor == p && s.cpus[c].proc == Some(p) && s.lock == Some(c)
    ensures p < |s.procs| && InMark(s.procs[p].pc) ==> Marked(s, c)
  {
  }

  lemma YieldingOwn(s: State, c: nat, a: Action, p: nat)
    requires EnabledHere(s, c, a) && StepsHere(a) && Yielding(s, c, p) && a != SetRunnable
    requires SerialAt(s, c) && StatusAt(s, c)
    ensures !Out(a) && Yielding(DoAsWritten(s, c, a), c, p)
  {
    hide SerialAt, StatusAt;
    RunningIsMarked(s, c, p);
    MarkedState(s, c);
  }

  lemma MarkedState(s: State, c: nat)
    requires c < |s.cpus| && StatusAt(s, c) && Marked(s, c)
    ensures AtSlot(s, c) && Slot(s, c).state == Running
  {
  }

  // Another CPU's step leaves alone a CPU that executes a process, and that process.
  lemma ExecutedStays(w: World, d: nat, x: Act, c: nat, p: nat)
    requires CanDo(w, d, x) && Serial(w.s) && CreateInv(w) && d != c && c < |w.s.cpus| && w.s.cpus[c].running == Some(p)
    requires p < |w.s.procs|
    ensures var s' := DoAct(w, d, x).s;
            |s'.cpus| == |w.s.cpus| && s'.cpus[c] == w.s.cpus[c] && |s'.procs| == |w.s.procs| && s'.procs[p] == w.s.procs[p]
  {
    hide SerialAt, ThreadAt, MakerAt, ChosenAt, PidsApart, DoAsWritten, CpuStep, Enabled, Spared, OwnOnly;
    CanDoCpu(w, d, x);
    assert SerialAt(w.s, c) && SerialAt(w.s, d) && MakerAt(w, d) && ChosenAt(w.s, c);
    RunningIsMarked(w.s, c, p);
    if !x.Thread? {
      CreateSparesChosen(w, d, x, c);
    } else if InProcess(x.a) {
      ProcessEnabled(w.s, d, x.a);
      MarkedHolds(w.s, d);
    } else {
      SchedulerStep(w.s, d, x.a);
      SchedulerSpares(w.s, d, x.a);
      SparedFacts(w.s, CpuStep(w.s, d, x.a), d, p);
    }
  }

  lemma YieldingStep(w: World, d: nat, x: Act, c: nat, p: nat)
    requires CanDo(w, d, x) && Serial(w.s) && CreateInv(w) && Yielding(w.s, c, p) && StatusAt(w.s, c)
    requires !(d == c && x == Thread(SetRunnable))
    ensures Yielding(DoAct(w, d, x).s, c, p)
  {
    hide SerialAt, ThreadAt, StatusAt, PidsApart, DoAsWritten, EnabledHere, StepsHere, MakerAt, ChosenAt;
    if d != c {
      ExecutedStays(w, d, x, c, p);
    } else {
      CanDoCpu(w, d, x);
      assert SerialAt(w.s, c);
      OnlyThreadSteps(w, c, x);
      YieldingOwn(w.s, c, x.a, p);
    }
  }

  // A CPU that executes a process creates none.
  lemma OnlyThreadSteps(w: World, c: nat, x: Act)
    requires CanDo(w, c, x) && c < |w.s.cpus| && w.s.cpus[c].running.Some?
    ensures x.Thread? && EnabledHere(w.s, c, x.a) && StepsHere(x.a)
  {
  }

  lemma {:induction false} StillYielding(ws: seq<World>, es: seq<Event>, i: nat, j: nat, c: nat, p: nat)
    requires IsRun(ws, es) && OneCreator(ws, es) && i <= j < |ws| && Yielding(ws[i].s, c, p)
    requires forall k | i <= k < j :: !(es[k].act == Thread(SetRunnable) && ByProc(ws, es, k, p))
    ensures Yielding(ws[j].s, c, p)
    decreases j
  {
    hide Init, CanDo, DoAct, Yielding, Serial, CreateInv, StatusAt, OthersIdle;
    if i < j {
      StillYielding(ws, es, i, j - 1, c, p);
      assert Follows(ws, es, j - 1);
      RunSerial(ws, es, j - 1);
      RunCreateInv(ws, es, j - 1);
      YieldingRuns(ws[j - 1].s, c, p);
      RunStatus(ws, es, j - 1, c);
      assert !(es[j - 1].act == Thread(SetRunnable) && ByProc(ws, es, j - 1, p));
      YieldingStep(ws[j - 1], es[j - 1].cpu, es[j - 1].act, c, p);
    }
  }

  lemma YieldingRuns(s: State, c: nat, p: nat)
    requires Yielding(s, c, p)
    ensures c < |s.cpus| && s.cpus[c].running == Some(p) && InProcess(SetRunnable)
  {
  }

  lemma NotBackYet(ws: seq<World>, es: seq<Event>, j: nat, c: nat, p: nat)
    requires IsRun(ws, es) && j < |es| && Yielding(ws[j].s, c, p)
    ensures !(es[j].act.Thread? && Out(es[j].act.a) && ByProc(ws, es, j, p))
  {
    hide Init, Yielding, SerialAt, ThreadAt, DoAsWritten;
    RunSerial(ws, es, j);
    assert Follows(ws, es, j);
    YieldingRuns(ws[j].s, c, p);
    if es[j].act.Thread? && Out(es[j].act.a) {
      assert SerialAt(ws[j].s, c) && SerialAt(ws[j].s, es[j].cpu);
      OutIsNotYielding(ws[j].s, es[j].cpu, es[j].act.a, c, p);
    }
  }

  // A CPU executes a process only while it has the lock, so the one that is out is the one asked about.
  lemma OutIsNotYielding(s: State, d: nat, a: Action, c: nat, p: nat)
    requires EnabledHere(s, d, a) && Out(a) && c < |s.cpus| && SerialAt(s, c) && SerialAt(s, d)
    ensures !Yielding(s, c, p)
  {
  }

  // Without the locks too, between a timer interrupt of p, or its call of yield, and the return from it p
  // sets itself RUNNABLE, if one CPU at a time is creating.
  lemma TimerYieldsAsWritten(ws: seq<World>, es: seq<Event>, i: nat, j: nat, p: nat)
    requires IsRun(ws, es) && OneCreator(ws, es) && i < j < |es|
    requires es[i].act.Thread? && Enters(es[i].act.a) && ByProc(ws, es, i, p)
    requires es[j].act.Thread? && Out(es[j].act.a) && ByProc(ws, es, j, p)
    ensures exists k | i < k < j :: es[k].act == Thread(SetRunnable) && ByProc(ws, es, k, p)
  {
    hide Init, OneCreator;
    var c := es[i].cpu;
    assert Follows(ws, es, i);
    EntersYielding(ws[i].s, c, es[i].act.a, p);
    if forall k | i < k < j :: !(es[k].act == Thread(SetRunnable) && ByProc(ws, es, k, p)) {
      StillYielding(ws, es, i + 1, j, c, p);
      NotBackYet(ws, es, j, c, p);
    }
  }

  lemma RunningOwn(s: State, c: nat, a: Action, p: nat)
    requires EnabledHere(s, c, a) && StepsHere(a) && s.cpus[c].running == Some(p) && a != SwitchOut
    ensures c < |DoAsWritten(s, c, a).cpus| && DoAsWritten(s, c, a).cpus[c].running == Some(p)
  {
  }

  lemma RunningStep(w: World, d: nat, x: Act, c: nat, p: nat)
    requires CanDo(w, d, x) && Serial(w.s) && CreateInv(w) && c < |w.s.cpus| && w.s.cpus[c].running == Some(p)
    requires !(d == c && x == Thread(SwitchOut))
    ensures c < |DoAct(w, d, x).s.cpus| && DoAct(w, d, x).s.cpus[c].running == Some(p)
  {
    hide SerialAt, ThreadAt, MakerAt, ChosenAt, PidsApart, DoAsWritten, EnabledHere, StepsHere;
    CanDoCpu(w, d, x);
    if d == c {
      OnlyThreadSteps(w, c, x);
      RunningOwn(w.s, c, x.a, p);
    } else {
      assert ChosenAt(w.s, c);
      RunningExists(w.s, c, p);
      ExecutedStays(w, d, x, c, p);
    }
  }

  lemma RunningExists(s: State, c: nat, p: nat)
    requires c < |s.cpus| && ChosenAt(s, c) && s.cpus[c].running == Some(p)
    ensures p < |s.procs|
  {
  }

  lemma {:induction false} StillRunning(ws: seq<World>, es: seq<Event>, i: nat, j: nat, c: nat, p: nat)
    requires IsRun(ws, es) && OneCreator(ws, es) && i <= j < |ws| && c < |ws[i].s.cpus| && ws[i].s.cpus[c].running == Some(p)
    requires forall k | i <= k < j :: !(es[k].act == Thread(SwitchOut) && ByProc(ws, es, k, p))
    ensures c < |ws[j].s.cpus| && ws[j].s.cpus[c].running == Some(p)
    decreases j
  {
    hide Init, CanDo, DoAct, Serial, CreateInv, OthersIdle;
    if i < j {
      StillRunning(ws, es, i, j - 1, c, p);
      assert Follows(ws, es, j - 1);
      RunSerial(ws, es, j - 1);
      RunCreateInv(ws, es, j - 1);
      assert !(es[j - 1].act == Thread(SwitchOut) && ByProc(ws, es, j - 1, p));
      RunningStep(ws[j - 1], es[j - 1].cpu, es[j - 1].act, c, p);
    }
  }

  // A CPU can dispatch only when none executes a process.
  lemma DispatchFindsNoneRunning(ws: seq<World>, es: seq<Event>, i: nat, c: nat)
    requires IsRun(ws, es) && i < |es| && es[i].act == Thread(Dispatch) && c < |ws[i].s.cpus|
    ensures ws[i].s.cpus[c].running.None?
  {
    hide Init;
    assert Follows(ws, es, i);
    RunSerial(ws, es, i);
    assert SerialAt(ws[i].s, c) && SerialAt(ws[i].s, es[i].cpu);
  }

  // From setting itself RUNNABLE until it has switched away, p is dispatched by no CPU, and neither is
  // any other process.
  lemma NotDispatchedBeforeSwitchAsWritten(ws: seq<World>, es: seq<Event>, k: nat, l: nat, p: nat)
    requires IsRun(ws, es) && OneCreator(ws, es) && k < l < |es|
    requires es[k].act == Thread(SetRunnable) && ByProc(ws, es, k, p)
    requires forall h | k < h <= l :: !(es[h].act == Thread(SwitchOut) && ByProc(ws, es, h, p))
    ensures es[l].act != Thread(Dispatch)
  {
    hide Init, OneCreator;
    var c := es[k].cpu;
    assert Follows(ws, es, k);
    RunningOwn(ws[k].s, c, SetRunnable, p);
    StillRunning(ws, es, k + 1, l, c, p);
    if es[l].act == Thread(Dispatch) { DispatchFindsNoneRunning(ws, es, l, c); }
  }
}
