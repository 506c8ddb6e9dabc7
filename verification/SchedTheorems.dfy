/** Theorems about every run of the scheduler protocol: mutual exclusion, the meaning of RUNNING,
    the conditions of `sched`, the hand-over of the interrupt flag, and bounded bypass. */
module SchedTheorems {
  import opened Common
  import opened Sched
  import opened SchedInv

  datatype Event = Event(cpu: nat, act: Action)

  // ss are the states of a run from an initial state, es the steps between them.
  ghost predicate IsRun(ss: seq<State>, es: seq<Event>) {
    && |ss| == |es| + 1 && Init(ss[0])
    && forall i | 0 <= i < |es| :: Follows(ss, es, i)
  }

  ghost predicate Follows(ss: seq<State>, es: seq<Event>, i: int)
    requires 0 <= i < |es| && |ss| == |es| + 1
  {
    Enabled(ss[i], es[i].cpu, es[i].act) && ss[i + 1] == Do(ss[i], es[i].cpu, es[i].act)
  }

  lemma {:induction false} RunInv(ss: seq<State>, es: seq<Event>, i: nat)
    requires IsRun(ss, es) && i < |ss|
    ensures Inv(ss[i])
    decreases i
  {
    hide Init, Inv, Enabled, Do;
    if i == 0 {
      InitInv(ss[0]);
    } else {
      RunInv(ss, es, i - 1);
      assert Follows(ss, es, i - 1);
      StepKeepsInv(ss[i - 1], es[i - 1].cpu, es[i - 1].act);
    }
  }

  // ---- safety in every state of every run ----

  // No process is executed by two CPUs, and myproc() is the process being executed.
  lemma NeverTwoCpus(ss: seq<State>, es: seq<Event>, i: nat, c: nat, d: nat)
    requires IsRun(ss, es) && i < |ss| && c < |ss[i].cpus| && d < |ss[i].cpus|
    requires ss[i].cpus[c].running.Some? && ss[i].cpus[c].running == ss[i].cpus[d].running
    ensures c == d && ss[i].cpus[c].proc == ss[i].cpus[c].running
  {
    RunInv(ss, es, i);
    assert CpuOk(ss[i], c) && CpuOk(ss[i], d);
  }

  // At most one thread is between acquiring and releasing the table lock.
  lemma MutualExclusion(ss: seq<State>, es: seq<Event>, i: nat, c: nat, d: nat)
    requires IsRun(ss, es) && i < |ss| && c < |ss[i].cpus| && d < |ss[i].cpus|
    requires Holds(ss[i], ss[i].cpus[c]) && Holds(ss[i], ss[i].cpus[d])
    ensures c == d
  {
    RunInv(ss, es, i);
    assert CpuOk(ss[i], c) && CpuOk(ss[i], d);
  }

  // Whenever the lock is free, a process is RUNNING exactly when it is the proc of one CPU.
  lemma RunningMeansOneCpu(ss: seq<State>, es: seq<Event>, i: nat, p: nat)
    requires IsRun(ss, es) && i < |ss| && p < |ss[i].procs| && ss[i].lock == None
    ensures ss[i].procs[p].state == Running <==> exists c | 0 <= c < |ss[i].cpus| :: ss[i].cpus[c].proc == Some(p)
    ensures forall c, d | 0 <= c < |ss[i].cpus| && 0 <= d < |ss[i].cpus|
              && ss[i].cpus[c].proc == Some(p) && ss[i].cpus[d].proc == Some(p) :: c == d
  {
    RunInv(ss, es, i);
    var s := ss[i];
    assert ProcOk(s, p);
    forall c | 0 <= c < |s.cpus| && s.cpus[c].proc == Some(p)
      ensures s.procs[p].state == Running && s.procs[p].owner == Some(c)
    {
      assert CpuOk(s, c);
    }
    if s.procs[p].state == Running {
      assert s.cpus[s.procs[p].owner.value].proc == Some(p);
    }
  }

  // A timer interrupt taken by a CPU that runs its own thread finds no process to yield.
  lemma IdleTimerDoesNotYield(ss: seq<State>, es: seq<Event>, i: nat, c: nat)
    requires IsRun(ss, es) && i < |ss| && c < |ss[i].cpus|
    requires ss[i].cpus[c].running.None? && ss[i].cpus[c].IF
    ensures ss[i].cpus[c].proc == None
  {
    RunInv(ss, es, i);
    assert CpuOk(ss[i], c);
  }

  // A timer interrupt never arrives inside a trap, so the return place it records is not lost.
  lemma TrapsDoNotNest(ss: seq<State>, es: seq<Event>, i: nat)
    requires IsRun(ss, es) && i < |es| && es[i].act == Timer
    ensures var s, c := ss[i], es[i].cpu;
            && c < |s.cpus| && s.cpus[c].running.Some? && s.cpus[c].running.value < |s.procs|
            && !s.procs[s.cpus[c].running.value].inTrap && s.procs[s.cpus[c].running.value].ret == PRun
  {
    RunInv(ss, es, i);
    assert Follows(ss, es, i);
    assert CpuOk(ss[i], es[i].cpu) && ProcOk(ss[i], ss[i].cpus[es[i].cpu].running.value);
  }

  // Live processes have distinct positive pids.
  lemma PidsAreUnique(ss: seq<State>, es: seq<Event>, i: nat, p: nat, q: nat)
    requires IsRun(ss, es) && i < |ss| && p < |ss[i].procs| && q < |ss[i].procs| && p != q
    requires ss[i].procs[p].state != Unused && ss[i].procs[q].state != Unused
    ensures ss[i].procs[p].pid != ss[i].procs[q].pid && ss[i].procs[p].pid > 0
  {
    RunInv(ss, es, i);
    assert ProcOk(ss[i], p);
    assert p < q || q < p;
  }

  // Processes created by the first i steps.
  function Created(es: seq<Event>, i: nat): nat
    requires i <= |es|
  {
    if i == 0 then 0 else Created(es, i - 1) + if es[i - 1].act == MakeFound then 1 else 0
  }

  // The pid counter tells how many processes were created: an int holds it exactly until then.
  lemma {:induction false} PidCounter(ss: seq<State>, es: seq<Event>, i: nat)
    requires IsRun(ss, es) && i < |ss|
    ensures ss[i].nextpid == ss[0].nextpid + Created(es, i)
    decreases i
  {
    hide Init, Enabled, Do;
    if i > 0 {
      PidCounter(ss, es, i - 1);
      assert Follows(ss, es, i - 1);
      CounterStep(ss[i - 1], es[i - 1].cpu, es[i - 1].act);
    }
  }

  lemma CounterStep(s: State, c: nat, a: Action)
    requires Enabled(s, c, a)
    ensures Do(s, c, a).nextpid == s.nextpid + if a == MakeFound then 1 else 0
  {
    hide ProcStep, CpuStep;
    if InProcess(a) { ProcessCounter(s, c, a); } else { CpuCounter(s, c, a); }
  }

  lemma ProcessCounter(s: State, c: nat, a: Action)
    requires InProcess(a) && Enabled(s, c, a)
    ensures ProcStep(s, c, a).nextpid == s.nextpid && a != MakeFound
  {
  }

  lemma CpuCounter(s: State, c: nat, a: Action)
    requires !InProcess(a) && Enabled(s, c, a)
    ensures CpuStep(s, c, a).nextpid == s.nextpid + if a == MakeFound then 1 else 0
  {
  }

  // ---- how the state of a process changes ----

  // What a step of CPU c makes of a slot that it works on, if it changes its state.
  function Change(a: Action): Option<(ProcState, ProcState)> {
    match a
    case MakeFound => Some((Unused, Embryo))
    case MakeAlloc(ok) => if ok then None else Some((Embryo, Unused))
    case Publish => Some((Embryo, Runnable))
    case Mark => Some((Runnable, Running))
    case SetRunnable => Some((Running, Runnable))
    case _ => None
  }

  // The slot is the one CPU c has in hand: its own process, or the one at its cursor.
  predicate InHand(s: State, c: nat, p: nat) {
    c < |s.cpus| && s.cpus[c].cursor == p
  }

  lemma CpuStepChange(s: State, c: nat, a: Action)
    requires Enabled(s, c, a) && !InProcess(a) && OwnThreadOk(s, c) && s.cpus[c].cursor < |s.procs|
    ensures var p, s' := s.cpus[c].cursor, CpuStep(s, c, a);
            && |s'.procs| == |s.procs|
            && match Change(a)
               case None => s'.procs[p].state == s.procs[p].state
               case Some((from, to)) => s.procs[p].state == from && s'.procs[p].state == to
  {
  }

  lemma ProcStepChange(s: State, c: nat, a: Action, p: nat)
    requires Enabled(s, c, a) && InProcess(a) && RunningOk(s, c) && s.cpus[c].running == Some(p)
    ensures var s' := ProcStep(s, c, a);
            && s.cpus[c].cursor == p && p < |s.procs| && |s'.procs| == |s.procs|
            && match Change(a)
               case None => s'.procs[p].state == s.procs[p].state
               case Some((from, to)) => s.procs[p].state == from && s'.procs[p].state == to
  {
  }

  // The state of a process changes by these five steps of the CPU that has it in hand and by no other:
  // a slot found, a creation given up or published, a process dispatched, a process yielding.
  lemma StateChanges(ss: seq<State>, es: seq<Event>, i: nat, p: nat)
    requires IsRun(ss, es) && i < |es| && p < |ss[i].procs|
    ensures p < |ss[i + 1].procs|
    ensures var from, to, a := ss[i].procs[p].state, ss[i + 1].procs[p].state, es[i].act;
            if InHand(ss[i], es[i].cpu, p) && Change(a).Some? then Change(a) == Some((from, to)) else from == to
  {
    hide Init, ProcStep, CpuStep, Enabled, PidsOk, ProcOk, LockOk, OwnThreadOk, RunningOk, Change;
    var s, c, a := ss[i], es[i].cpu, es[i].act;
    RunInv(ss, es, i);
    assert Follows(ss, es, i);
    EnabledCpu(s, c, a);
    assert CpuOk(s, c);
    if InProcess(a) {
      ProcStepWrites(s, c, a);
      ProcStepChange(s, c, a, s.cpus[c].running.value);
    } else {
      CpuStepWrites(s, c, a);
      if s.cpus[c].cursor < |s.procs| { CpuStepChange(s, c, a); }
    }
  }

  // ---- the search for a slot ----

  // Step k is CPU c starting its search.
  ghost predicate StartsSearch(es: seq<Event>, k: int, c: nat)
    requires 0 <= k < |es|
  {
    es[k] == Event(c, MakeLock)
  }

  // One step of the search, seen from slot p.
  lemma SearchStep(s: State, d: nat, a: Action, c: nat, p: nat)
    requires Inv(s) && Enabled(s, d, a) && c < |s.cpus| && p < |s.procs| && !(d == c && a == MakeLock)
    ensures var s' := Do(s, d, a);
            && |s'.cpus| == |s.cpus| && |s'.procs| == |s.procs|
            && (s'.cpus[c].pc == CFind && p < s'.cpus[c].cursor ==>
                  s.cpus[c].pc == CFind && (p < s.cpus[c].cursor || s.procs[p].state != Unused))
  {
    hide Inv, ProcStep, CpuStep, Enabled;
    EnabledCpu(s, d, a);
    if InProcess(a) { ProcStepWrites(s, d, a); } else { CpuStepWrites(s, d, a); }
    if d == c {
      if InProcess(a) { NotSearching(s, c, a); } else { SearchOwn(s, c, a, p); }
    }
  }

  lemma SearchOwn(s: State, c: nat, a: Action, p: nat)
    requires Enabled(s, c, a) && !InProcess(a) && a != MakeLock && p < |s.procs|
    ensures var s' := CpuStep(s, c, a);
            c < |s'.cpus| && (s'.cpus[c].pc == CFind && p < s'.cpus[c].cursor ==>
                                s.cpus[c].pc == CFind && (p < s.cpus[c].cursor || s.procs[p].state != Unused))
  {
  }

  lemma NotSearching(s: State, c: nat, a: Action)
    requires Inv(s) && Enabled(s, c, a) && InProcess(a)
    ensures c < |ProcStep(s, c, a).cpus| && ProcStep(s, c, a).cpus[c].pc != CFind
  {
    hide ProcOk, PidsOk, LockOk, OwnThreadOk;
    assert CpuOk(s, c);
  }

  lemma {:induction false} SeenNotUnused(ss: seq<State>, es: seq<Event>, i: nat, j: nat, c: nat, p: nat)
    requires IsRun(ss, es) && i < j < |ss| && StartsSearch(es, i, c) && forall k | i < k < j :: !StartsSearch(es, k, c)
    ensures c < |ss[j].cpus| && |ss[j].procs| == |ss[i].procs|
    ensures ss[j].cpus[c].pc == CFind && p < ss[j].cpus[c].cursor && p < |ss[i].procs| ==>
              exists k | i < k < j :: p < |ss[k].procs| && ss[k].procs[p].state != Unused
    decreases j
  {
    hide Init, Inv, CpuStep, ProcStep, Enabled;
    assert Follows(ss, es, j - 1);
    RunInv(ss, es, j - 1);
    if j == i + 1 {
      SearchStarts(ss[i], c);
    } else {
      SeenNotUnused(ss, es, i, j - 1, c, p);
      assert !StartsSearch(es, j - 1, c);
      if p < |ss[i].procs| { SearchStep(ss[j - 1], es[j - 1].cpu, es[j - 1].act, c, p); }
      else { SameSizes(ss[j - 1], es[j - 1].cpu, es[j - 1].act); }
    }
  }

  lemma SearchStarts(s: State, c: nat)
    requires Enabled(s, c, MakeLock)
    ensures var s' := Do(s, c, MakeLock); c < |s'.cpus| && |s'.procs| == |s.procs| && s'.cpus[c].cursor == 0
  {
  }

  lemma SameSizes(s: State, c: nat, a: Action)
    requires Inv(s) && Enabled(s, c, a)
    ensures |Do(s, c, a).cpus| == |s.cpus| && |Do(s, c, a).procs| == |s.procs|
  {
    hide Inv, ProcStep, CpuStep, Enabled;
    if InProcess(a) { ProcStepWrites(s, c, a); } else { CpuStepWrites(s, c, a); }
  }

  // create_proc takes a slot, or reports a full table, only past slots it has seen in use: each slot
  // before the one taken, or every slot, was not UNUSED at some state of the search.
  lemma SearchSkipsUsed(ss: seq<State>, es: seq<Event>, i: nat, j: nat, c: nat, p: nat)
    requires IsRun(ss, es) && i < j < |es| && StartsSearch(es, i, c) && forall k | i < k < j :: !StartsSearch(es, k, c)
    requires es[j].cpu == c && (es[j].act == MakeFull || es[j].act == MakeFound) && p < |ss[j].procs|
    ensures c < |ss[j].cpus|
    ensures es[j].act == MakeFull || p < ss[j].cpus[c].cursor ==>
              exists k | i < k < j :: p < |ss[k].procs| && ss[k].procs[p].state != Unused
  {
    hide Init, Do;
    assert Follows(ss, es, j);
    SeenNotUnused(ss, es, i, j, c, p);
  }

  // ---- conditions at particular steps ----

  // Every call of sched meets the four conditions it lists: the caller's CPU holds the table lock
  // and no other, the process is not RUNNING, interrupts are off.
  lemma SchedConditions(ss: seq<State>, es: seq<Event>, i: nat)
    requires IsRun(ss, es) && i < |es| && es[i].act == SaveFlag
    ensures var s, c := ss[i], es[i].cpu;
            && c < |s.cpus| && s.lock == Some(c) && s.cpus[c].ncli == 1 && !s.cpus[c].IF
            && s.cpus[c].proc.Some? && s.cpus[c].proc == s.cpus[c].running
            && s.cpus[c].proc.value < |s.procs| && s.procs[s.cpus[c].proc.value].state != Running
  {
    RunInv(ss, es, i);
    assert Follows(ss, es, i);
    assert CpuOk(ss[i], es[i].cpu);
  }

  predicate Releases(a: Action) {
    a.ScanEnd? || a.Start? || a.YieldRelease? || a.MakeFullRelease? || a.MakeRelease? || a.PublishRelease?
  }

  // The lock is released only by the CPU that holds it.
  lemma ReleasedByHolder(ss: seq<State>, es: seq<Event>, i: nat)
    requires IsRun(ss, es) && i < |es| && Releases(es[i].act)
    ensures ss[i].lock == Some(es[i].cpu) && ss[i + 1].lock == None
  {
    RunInv(ss, es, i);
    assert Follows(ss, es, i);
    assert CpuOk(ss[i], es[i].cpu);
  }

  // ---- the saved interrupt flag ----

  // Step i is taken by the thread of process p.
  ghost predicate ByProc(ss: seq<State>, es: seq<Event>, i: int, p: nat)
    requires 0 <= i < |es| && |ss| == |es| + 1
  {
    InProcess(es[i].act) && es[i].cpu < |ss[i].cpus| && ss[i].cpus[es[i].cpu].running == Some(p)
  }

  // A step that is not p's own pushcli leaves the flag p entered yield with.
  lemma WantStays(s: State, c: nat, a: Action, p: nat)
    requires Enabled(s, c, a) && p < |s.procs|
    requires !(a == YieldPushCli && s.cpus[c].running == Some(p))
    ensures p < |Do(s, c, a).procs| && Do(s, c, a).procs[p].want == s.procs[p].want
  {
    hide ProcStep, CpuStep, Enabled, InProcess;
    if InProcess(a) { ProcStepWant(s, c, a, p); } else { CpuStepWant(s, c, a, p); }
  }

  lemma ProcStepWant(s: State, c: nat, a: Action, p: nat)
    requires InProcess(a) && Enabled(s, c, a) && p < |s.procs|
    requires !(a == YieldPushCli && s.cpus[c].running == Some(p))
    ensures p < |ProcStep(s, c, a).procs| && ProcStep(s, c, a).procs[p].want == s.procs[p].want
  {
  }

  lemma CpuStepWant(s: State, c: nat, a: Action, p: nat)
    requires !InProcess(a) && Enabled(s, c, a) && p < |s.procs|
    ensures p < |CpuStep(s, c, a).procs| && CpuStep(s, c, a).procs[p].want == s.procs[p].want
  {
  }

  lemma {:induction false} WantStaysUntil(ss: seq<State>, es: seq<Event>, i: nat, j: nat, p: nat)
    requires IsRun(ss, es) && i <= j < |ss| && p < |ss[i].procs|
    requires forall k | i <= k < j :: !(es[k].act == YieldPushCli && ByProc(ss, es, k, p))
    ensures p < |ss[j].procs| && ss[j].procs[p].want == ss[i].procs[p].want
    decreases j
  {
    hide Init, Enabled, Do;
    if i < j {
      WantStaysUntil(ss, es, i, j - 1, p);
      assert Follows(ss, es, j - 1);
      assert !(es[j - 1].act == YieldPushCli && ByProc(ss, es, j - 1, p));
      EnabledCpu(ss[j - 1], es[j - 1].cpu, es[j - 1].act);
      WantStays(ss[j - 1], es[j - 1].cpu, es[j - 1].act, p);
    }
  }

  // A thread that yields gets back, when its yield releases the lock, the interrupt flag it entered
  // with, whatever CPU it resumed on and whatever ran in between.
  lemma FlagComesBack(ss: seq<State>, es: seq<Event>, i: nat, j: nat, p: nat)
    requires IsRun(ss, es) && i < j < |es|
    requires es[i].act == YieldPushCli && ByProc(ss, es, i, p)
    requires es[j].act == YieldRelease && ByProc(ss, es, j, p)
    requires forall k | i < k < j :: !(es[k].act == YieldPushCli && ByProc(ss, es, k, p))
    ensures es[j].cpu < |ss[j + 1].cpus| && ss[j + 1].cpus[es[j].cpu].IF == ss[i].cpus[es[i].cpu].IF
  {
    hide Init;
    assert Follows(ss, es, i) && Follows(ss, es, j);
    assert p < |ss[i + 1].procs| && ss[i + 1].procs[p].want == ss[i].cpus[es[i].cpu].IF;
    WantStaysUntil(ss, es, i + 1, j, p);
    RunInv(ss, es, j);
    assert CpuOk(ss[j], es[j].cpu);
  }

  // ---- bounded bypass ----

  predicate Booting(pc: CpuPc) {
    pc.CBoot? || pc.CSpin? || pc.CFind? || pc.CRelFull? || pc.CRel? || pc.CAlloc? || pc.CAcq? || pc.CSpin2? || pc.CPub?
    || pc.CRel2?
  }

  // The slot a CPU's scan looks at next: past the dispatched slot once it has switched away.
  function Position(k: Cpu): int {
    if k.pc.SBack? then k.cursor + 1 else k.cursor
  }

  // How far the scan has come since it last passed slot q, out of n slots.
  function Rank(n: int, q: int, pos: int): int {
    if pos > q then pos - q - 1 else pos + n - q
  }

  // While q stays runnable, no step takes a CPU's scan past q, and a dispatch moves it on.
  lemma RankGrows(s: State, c: nat, a: Action, d: nat, q: nat)
    requires Inv(s) && Enabled(s, c, a) && d < |s.cpus| && q < |s.procs| && !Booting(s.cpus[d].pc)
    requires s.procs[q].state == Runnable && q < |Do(s, c, a).procs| && Do(s, c, a).procs[q].state == Runnable
    ensures var s', n := Do(s, c, a), |s.procs|;
            && d < |s'.cpus| && !Booting(s'.cpus[d].pc) && |s'.procs| == n
            && Rank(n, q, Position(s'.cpus[d])) >= Rank(n, q, Position(s.cpus[d]))
            && (c == d && a == Dispatch ==>
                  Rank(n, q, Position(s'.cpus[d])) > Rank(n, q, Position(s.cpus[d])) && s.cpus[d].cursor != q)
  {
    hide Inv, Enabled, CpuStep, ProcStep, Rank, InProcess, Booting;
    if c == d && !InProcess(a) {
      OwnStepRank(s, d, a, q);
    } else {
      OtherStepRank(s, c, a, d);
      DispatchIsOwn();
    }
  }

  lemma DispatchIsOwn()
    ensures !InProcess(Dispatch)
  {
  }

  // The scan of CPU d has not gone back past q, and has moved on if it dispatched.
  ghost predicate RankKept(s: State, s': State, d: nat, a: Action, q: nat)
    requires d < |s.cpus|
  {
    var n := |s.procs|;
    && d < |s'.cpus| && !Booting(s'.cpus[d].pc) && |s'.procs| == n
    && Rank(n, q, Position(s'.cpus[d])) >= Rank(n, q, Position(s.cpus[d]))
    && (a == Dispatch ==>
          Rank(n, q, Position(s'.cpus[d])) > Rank(n, q, Position(s.cpus[d])) && s.cpus[d].cursor != q)
  }

  // A CPU's own thread moves its scan forward, and never past a slot that stays runnable.
  lemma OwnStepRank(s: State, d: nat, a: Action, q: nat)
    requires Inv(s) && Enabled(s, d, a) && !InProcess(a) && q < |s.procs| && !Booting(s.cpus[d].pc)
    requires s.procs[q].state == Runnable && q < |CpuStep(s, d, a).procs| && CpuStep(s, d, a).procs[q].state == Runnable
    ensures RankKept(s, CpuStep(s, d, a), d, a, q)
  {
    hide PidsOk, LockOk, RunningOk, ProcOk, OwnThreadOk, RankKept, CpuStep, Enabled, Booting;
    EnabledCpu(s, d, a);
    assert CpuOk(s, d);
    NotBooting(s, d, a);
    if a.Skip? { SkipRank(s, d, q); }
    else if a.Dispatch? { DispatchRank(s, d, q); }
    else if a.Pick? || a.Mark? || a.Back? { HoldRank(s, d, a, q); }
    else { RoundRank(s, d, a, q); }
  }

  lemma NotBooting(s: State, d: nat, a: Action)
    requires Enabled(s, d, a) && !InProcess(a) && !Booting(s.cpus[d].pc)
    ensures InScheduler(a) && !a.EnterScheduler?
  {
  }

  lemma SkipRank(s: State, d: nat, q: nat)
    requires Enabled(s, d, Skip) && q < |s.procs| && s.procs[q].state == Runnable
    ensures RankKept(s, CpuStep(s, d, Skip), d, Skip, q)
  {
  }

  lemma DispatchRank(s: State, d: nat, q: nat)
    requires Enabled(s, d, Dispatch) && OwnThreadOk(s, d) && q < |s.procs| && s.procs[q].state == Runnable
    ensures RankKept(s, CpuStep(s, d, Dispatch), d, Dispatch, q)
  {
  }

  lemma HoldRank(s: State, d: nat, a: Action, q: nat)
    requires (a.Pick? || a.Mark? || a.Back?) && Enabled(s, d, a) && q < |s.procs|
    ensures RankKept(s, CpuStep(s, d, a), d, a, q)
  {
  }

  lemma RoundRank(s: State, d: nat, a: Action, q: nat)
    requires a.Sti? || a.SchedPushCli? || a.SchedLock? || a.ScanEnd?
    requires Enabled(s, d, a) && OwnThreadOk(s, d) && q < |s.procs|
    ensures RankKept(s, CpuStep(s, d, a), d, a, q)
  {
  }

  // No other step moves it.
  ghost predicate ScanStays(s: State, s': State, d: nat)
    requires d < |s.cpus|
  {
    && d < |s'.cpus| && |s'.procs| == |s.procs|
    && s'.cpus[d].pc == s.cpus[d].pc && s'.cpus[d].cursor == s.cpus[d].cursor
  }

  lemma OtherStepRank(s: State, c: nat, a: Action, d: nat)
    requires Enabled(s, c, a) && d < |s.cpus| && (c != d || InProcess(a))
    ensures ScanStays(s, Do(s, c, a), d)
  {
    hide ProcStep, CpuStep, Enabled, InProcess, ScanStays;
    if InProcess(a) { ProcStepScan(s, c, a, d); } else { CpuStepScan(s, c, a, d); }
  }

  lemma ProcStepScan(s: State, c: nat, a: Action, d: nat)
    requires InProcess(a) && Enabled(s, c, a) && d < |s.cpus|
    ensures ScanStays(s, ProcStep(s, c, a), d)
  {
  }

  lemma CpuStepScan(s: State, c: nat, a: Action, d: nat)
    requires !InProcess(a) && Enabled(s, c, a) && d < |s.cpus| && c != d
    ensures ScanStays(s, CpuStep(s, c, a), d)
  {
  }

  // Step k is CPU d dispatching slot x.
  ghost predicate Dispatches(ss: seq<State>, es: seq<Event>, k: int, d: nat, x: nat)
    requires 0 <= k < |es| && |ss| == |es| + 1
  {
    es[k] == Event(d, Dispatch) && d < |ss[k].cpus| && ss[k].cpus[d].cursor == x
  }

  lemma {:induction false} RankGrowsAlong(ss: seq<State>, es: seq<Event>, i: nat, j: nat, d: nat, q: nat)
    requires IsRun(ss, es) && i <= j < |ss| && d < |ss[i].cpus| && q < |ss[i].procs| && !Booting(ss[i].cpus[d].pc)
    requires forall k | i <= k <= j :: q < |ss[k].procs| && ss[k].procs[q].state == Runnable
    ensures d < |ss[j].cpus| && |ss[j].procs| == |ss[i].procs| && !Booting(ss[j].cpus[d].pc)
    ensures Rank(|ss[i].procs|, q, Position(ss[j].cpus[d])) >= Rank(|ss[i].procs|, q, Position(ss[i].cpus[d]))
    decreases j
  {
    hide Init, Inv, Enabled, Do, Rank, Position, Booting;
    if i < j {
      RankGrowsAlong(ss, es, i, j - 1, d, q);
      assert Follows(ss, es, j - 1);
      RunInv(ss, es, j - 1);
      RankGrows(ss[j - 1], es[j - 1].cpu, es[j - 1].act, d, q);
    }
  }

  // While process q stays RUNNABLE, a CPU dispatches each other slot at most once.
  lemma BoundedBypass(ss: seq<State>, es: seq<Event>, i: nat, j: nat, d: nat, q: nat, x: nat)
    requires IsRun(ss, es) && i < j < |es| && Dispatches(ss, es, i, d, x) && q < |ss[i].procs|
    requires forall k | i <= k <= j + 1 :: q < |ss[k].procs| && ss[k].procs[q].state == Runnable
    ensures !Dispatches(ss, es, j, d, x)
  {
    hide Init, Inv, Rank;
    var n := |ss[i].procs|;
    assert Follows(ss, es, i) && Follows(ss, es, j);
    RunInv(ss, es, i);
    assert !Booting(ss[i].cpus[d].pc);
    RankGrows(ss[i], d, Dispatch, d, q);
    RankGrowsAlong(ss, es, i + 1, j, d, q);
  }
}
