/** Creating processes without the table lock, as kernel/process/proc.c is written: slots and pids
    stay apart as long as one CPU at a time is creating, and clash when two are. */
module SchedCreate {
  import opened Common
  import opened Sched
  import opened SchedInv
  import opened SchedAsWritten

  // Each CPU enters create_proc only when no other is between its start and the end of userinit.
  ghost predicate OneCreator(ws: seq<World>, es: seq<Event>)
    requires |ws| == |es| + 1
  {
    forall i | 0 <= i < |es| && es[i].act == Begin :: OthersIdle(ws[i], es[i].cpu)
  }

  ghost predicate OthersIdle(w: World, c: nat) {
    forall d | 0 <= d < |w.make| && d != c :: w.make[d] == Idle
  }

  // ---- the invariant ----

  predicate Active(st: ProcState) {
    st == Runnable || st == Running
  }

  // The slot is marked, and not published or given up.
  predicate HasSlot(m: Maker) {
    m.Numbering? || m.Counting? || m.Stacking? || m.Publishing?
  }

  predicate MakerAt(w: World, c: nat)
    requires c < |w.s.cpus| == |w.make|
  {
    var m := w.make[c];
    && (m != Idle ==> w.s.cpus[c].pc == CBoot && w.s.cpus[c].running.None?)
    && (m.Marking? || HasSlot(m) ==> AtSlot(w.s, c) && Slot(w.s, c).state == if m.Marking? then Unused else Embryo)
    && (m.Counting? ==> m.read == w.s.nextpid && AtSlot(w.s, c) && Slot(w.s, c).pid == w.s.nextpid)
  }

  // A slot that a scheduler has chosen or a CPU executes.
  predicate ChosenAt(s: State, c: nat)
    requires c < |s.cpus|
  {
    var k := s.cpus[c];
    && (Chosen(k.pc) ==> AtSlot(s, c) && Active(Slot(s, c).state))
    && (k.running.Some? ==> k.pc == SBack && k.running == Some(k.cursor))
  }

  // Slot p is marked by a creator that has not finished numbering it.
  ghost predicate Unnumbered(w: World, p: int) {
    exists c | 0 <= c < |w.make| && c < |w.s.cpus| :: (w.make[c].Numbering? || w.make[c].Counting?) && w.s.cpus[c].cursor == p
  }

  // A process as far as its pid is concerned.
  ghost predicate Numbered(w: World, p: int) {
    0 <= p < |w.s.procs| && w.s.procs[p].state != Unused && !Unnumbered(w, p)
  }

  ghost predicate PidsApart(w: World) {
    && 0 < w.s.nextpid
    && (forall p {:trigger Numbered(w, p)} | Numbered(w, p) :: 0 < w.s.procs[p].pid < w.s.nextpid)
    && (forall p, q {:trigger Numbered(w, p), Numbered(w, q)} | Numbered(w, p) && Numbered(w, q) && p != q ::
          w.s.procs[p].pid != w.s.procs[q].pid)
  }

  ghost predicate CreateInv(w: World) {
    && |w.make| == |w.s.cpus|
    && (forall c, d | 0 <= c < d < |w.make| :: w.make[c] == Idle || w.make[d] == Idle)
    && (forall c {:trigger MakerAt(w, c)} | 0 <= c < |w.make| :: MakerAt(w, c))
    && (forall c {:trigger ChosenAt(w.s, c)} | 0 <= c < |w.s.cpus| :: ChosenAt(w.s, c))
    && PidsApart(w)
  }

  // ---- steps of threads ----

  // A thread's step renumbers nothing, and changes the state only of slots in use.
  ghost predicate Mild(s: State, s': State, c: nat) {
    && |s'.cpus| == |s.cpus| && |s'.procs| == |s.procs| && s'.nextpid == s.nextpid
    && (forall p | 0 <= p < |s.procs| :: s'.procs[p].pid == s.procs[p].pid)
    && (forall p | 0 <= p < |s.procs| :: s'.procs[p].state == s.procs[p].state
                                         || (Active(s'.procs[p].state) && Active(s.procs[p].state)))
    && (forall d | 0 <= d < |s.cpus| && d != c :: s'.cpus[d] == s.cpus[d])
  }

  lemma SchedulerMild(s: State, c: nat, a: Action)
    requires Enabled(s, c, a) && InScheduler(a) && ChosenAt(s, c)
    ensures Mild(s, CpuStep(s, c, a), c)
  {
  }

  lemma ProcessMild(s: State, c: nat, a: Action)
    requires EnabledHere(s, c, a) && InProcess(a) && StepsHere(a) && ChosenAt(s, c)
    ensures Mild(s, DoAsWritten(s, c, a), c)
  {
  }

  lemma SchedulerChosen(s: State, c: nat, a: Action)
    requires Enabled(s, c, a) && InScheduler(a) && ChosenAt(s, c)
    ensures |CpuStep(s, c, a).cpus| == |s.cpus| && ChosenAt(CpuStep(s, c, a), c)
  {
    hide CpuStep, ChosenAt, Enabled;
    if a.Pick? || a.Mark? || a.Dispatch? { ChoosesSlot(s, c, a); } else { ChoosesNone(s, c, a); }
  }

  lemma ChoosesSlot(s: State, c: nat, a: Action)
    requires Enabled(s, c, a) && (a.Pick? || a.Mark? || a.Dispatch?) && ChosenAt(s, c)
    ensures |CpuStep(s, c, a).cpus| == |s.cpus| && ChosenAt(CpuStep(s, c, a), c)
  {
  }

  lemma ChoosesNone(s: State, c: nat, a: Action)
    requires Enabled(s, c, a) && InScheduler(a) && !(a.Pick? || a.Mark? || a.Dispatch?)
    ensures |CpuStep(s, c, a).cpus| == |s.cpus| && ChosenAt(CpuStep(s, c, a), c)
  {
  }

  lemma ProcessChosen(s: State, c: nat, a: Action)
    requires EnabledHere(s, c, a) && InProcess(a) && StepsHere(a) && ChosenAt(s, c)
    ensures |DoAsWritten(s, c, a).cpus| == |s.cpus| && ChosenAt(DoAsWritten(s, c, a), c)
  {
  }

  // A CPU that is creating takes no other step.
  lemma ThreadIsIdle(w: World, c: nat, a: Action)
    requires CanDo(w, c, Thread(a)) && c < |w.s.cpus| && MakerAt(w, c)
    ensures w.make[c] == Idle
  {
  }

  lemma MildKeepsInv(w: World, s': State, c: nat)
    requires CreateInv(w) && c < |w.make| && w.make[c] == Idle && Mild(w.s, s', c) && ChosenAt(s', c)
    ensures CreateInv(w.(s := s'))
  {
    var w' := w.(s := s');
    forall d {:trigger MakerAt(w', d)} | 0 <= d < |w'.make| ensures MakerAt(w', d) {
      assert MakerAt(w, d);
    }
    forall d {:trigger ChosenAt(s', d)} | 0 <= d < |s'.cpus| ensures ChosenAt(s', d) {
      assert ChosenAt(w.s, d);
    }
    forall p ensures Unnumbered(w', p) <==> Unnumbered(w, p) {}
    MildPids(w, s', c);
  }

  lemma MildPids(w: World, s': State, c: nat)
    requires PidsApart(w) && Mild(w.s, s', c) && forall p :: Unnumbered(w.(s := s'), p) <==> Unnumbered(w, p)
    ensures PidsApart(w.(s := s'))
  {
    hide Unnumbered;
    var w' := w.(s := s');
    assert forall p {:trigger Numbered(w', p)} :: Numbered(w', p) ==> Numbered(w, p);
  }

  lemma ThreadKeepsInv(w: World, c: nat, a: Action)
    requires CreateInv(w) && CanDo(w, c, Thread(a))
    ensures CreateInv(w.(s := DoAsWritten(w.s, c, a)))
  {
    hide MakerAt, ChosenAt, Mild, PidsApart, CpuStep, ProcStep;
    assert MakerAt(w, c) && ChosenAt(w.s, c);
    ThreadIsIdle(w, c, a);
    if InProcess(a) {
      ProcessMild(w.s, c, a);
      ProcessChosen(w.s, c, a);
    } else {
      SchedulerMild(w.s, c, a);
      SchedulerChosen(w.s, c, a);
    }
    MildKeepsInv(w, DoAsWritten(w.s, c, a), c);
  }

  // ---- steps of creation ----

  // Creation touches its own CPU's cursor and one slot, which nobody else has.
  lemma CreateKeepsChosen(w: World, c: nat, x: Act, d: nat)
    requires CanDo(w, c, x) && !x.Thread? && MakerAt(w, c) && d < |w.s.cpus| && ChosenAt(w.s, d)
    ensures var s' := DoAct(w, c, x).s; |s'.cpus| == |w.s.cpus| && ChosenAt(s', d)
  {
  }

  lemma CreateKeepsMaker(w: World, c: nat, x: Act, d: nat)
    requires CanDo(w, c, x) && !x.Thread? && d < |w.make| && MakerAt(w, c) && MakerAt(w, d)
    requires d != c ==> w.make[d] == Idle
    ensures var w' := DoAct(w, c, x); |w'.s.cpus| == |w.s.cpus| == |w'.make| && MakerAt(w', d)
  {
  }

  // Which slots count as numbered after a creation step: the same, but for the one in hand.
  lemma CreateNumbered(w: World, c: nat, x: Act, p: int)
    requires CanDo(w, c, x) && !x.Thread? && OthersIdle(w, c) && MakerAt(w, c)
    ensures var w' := DoAct(w, c, x);
            Numbered(w', p) ==>
              && (Numbered(w, p) || (x.Count? && p == w.s.cpus[c].cursor))
              && 0 <= p < |w.s.procs| && w'.s.procs[p].pid == w.s.procs[p].pid
  {
    var w' := DoAct(w, c, x);
    if Numbered(w', p) && !(x.Count? && p == w.s.cpus[c].cursor) {
      assert !((w'.make[c].Numbering? || w'.make[c].Counting?) && w'.s.cpus[c].cursor == p);
    }
  }

  lemma CreateKeepsPids(w: World, c: nat, x: Act)
    requires CanDo(w, c, x) && !x.Thread? && OthersIdle(w, c) && MakerAt(w, c) && PidsApart(w)
    ensures PidsApart(DoAct(w, c, x))
  {
    hide Unnumbered;
    var w' := DoAct(w, c, x);
    forall p {:trigger Numbered(w', p)} | Numbered(w', p) ensures 0 < w'.s.procs[p].pid < w'.s.nextpid {
      CreateNumbered(w, c, x, p);
    }
    forall p, q {:trigger Numbered(w', p), Numbered(w', q)} | Numbered(w', p) && Numbered(w', q) && p != q
      ensures w'.s.procs[p].pid != w'.s.procs[q].pid
    {
      CreateNumbered(w, c, x, p);
      CreateNumbered(w, c, x, q);
    }
  }

  lemma CreateKeepsInv(w: World, c: nat, x: Act)
    requires CreateInv(w) && CanDo(w, c, x) && !x.Thread? && (x == Begin ==> OthersIdle(w, c))
    ensures CreateInv(DoAct(w, c, x))
  {
    hide MakerAt, ChosenAt, PidsApart;
    CanDoCpu(w, c, x);
    assert MakerAt(w, c);
    if x != Begin { CreatorIsAlone(w, c, x); }
    var w' := DoAct(w, c, x);
    StepSize(w, c, x);
    CreateKeepsPids(w, c, x);
    forall d {:trigger MakerAt(w', d)} | 0 <= d < |w'.make| ensures MakerAt(w', d) {
      assert MakerAt(w, d);
      CreateKeepsMaker(w, c, x, d);
    }
    forall d {:trigger ChosenAt(w'.s, d)} | 0 <= d < |w'.s.cpus| ensures ChosenAt(w'.s, d) {
      assert ChosenAt(w.s, d);
      CreateKeepsChosen(w, c, x, d);
    }
    CreateMakes(w, c, x);
  }

  lemma CreatorIsAlone(w: World, c: nat, x: Act)
    requires CreateInv(w) && CanDo(w, c, x) && !x.Thread? && x != Begin
    ensures OthersIdle(w, c)
  {
    forall d | 0 <= d < |w.make| && d != c ensures w.make[d] == Idle {
      var lo, hi := if c < d then c else d, if c < d then d else c;
      assert w.make[lo] == Idle || w.make[hi] == Idle;
    }
  }

  lemma CreateMakes(w: World, c: nat, x: Act)
    requires CanDo(w, c, x) && !x.Thread?
    ensures forall d | 0 <= d < |w.make| && d != c :: d < |DoAct(w, c, x).make| && DoAct(w, c, x).make[d] == w.make[d]
  {
    var w' := DoAct(w, c, x);
    assert w'.make == w.make[c := w'.make[c]];
  }

  // ---- every run ----

  lemma InitCreateInv(w: World)
    requires Init(w.s) && |w.make| == |w.s.cpus| && forall c | 0 <= c < |w.make| :: w.make[c] == Idle
    ensures CreateInv(w)
  {
  }

  lemma {:induction false} RunCreateInv(ws: seq<World>, es: seq<Event>, i: nat)
    requires IsRun(ws, es) && OneCreator(ws, es) && i < |ws|
    ensures CreateInv(ws[i])
    decreases i
  {
    hide Init, CreateInv, CanDo, DoAct, OthersIdle;
    if i == 0 {
      InitCreateInv(ws[0]);
    } else {
      RunCreateInv(ws, es, i - 1);
      assert Follows(ws, es, i - 1);
      var w, c, x := ws[i - 1], es[i - 1].cpu, es[i - 1].act;
      if x.Thread? {
        ThreadStep(w, c, x.a);
      } else {
        CreateKeepsInv(w, c, x);
      }
    }
  }

  lemma ThreadStep(w: World, c: nat, a: Action)
    requires CreateInv(w) && CanDo(w, c, Thread(a))
    ensures CreateInv(DoAct(w, c, Thread(a)))
  {
    hide CreateInv;
    ThreadKeepsInv(w, c, a);
  }

  // With one creator at a time, processes have distinct positive pids, and no scheduler has chosen
  // a slot that is being created.
  lemma PidsAreUniqueAsWritten(ws: seq<World>, es: seq<Event>, i: nat, p: nat, q: nat)
    requires IsRun(ws, es) && OneCreator(ws, es) && i < |ws| && p != q && Numbered(ws[i], p) && Numbered(ws[i], q)
    ensures ws[i].s.procs[p].pid != ws[i].s.procs[q].pid && ws[i].s.procs[p].pid > 0
  {
    hide IsRun, OneCreator, MakerAt, ChosenAt, Numbered;
    RunCreateInv(ws, es, i);
  }

  lemma CreatedSlotIsNotChosen(ws: seq<World>, es: seq<Event>, i: nat, c: nat, d: nat)
    requires IsRun(ws, es) && OneCreator(ws, es) && i < |ws| && c < |ws[i].make| && d < |ws[i].s.cpus|
    requires HasSlot(ws[i].make[c]) && Chosen(ws[i].s.cpus[d].pc)
    ensures c < |ws[i].s.cpus| && ws[i].s.cpus[c].cursor != ws[i].s.cpus[d].cursor
  {
    hide IsRun, OneCreator, PidsApart;
    RunCreateInv(ws, es, i);
    assert MakerAt(ws[i], c) && ChosenAt(ws[i].s, d);
  }

  // ---- a full table ----

  // Where the loop of create_proc over an unchanging table ends: the first UNUSED slot, or past the end.
  function FirstUnused(procs: seq<Proc>, from: nat): nat
    requires from <= |procs|
    decreases |procs| - from
  {
    if from == |procs| || procs[from].state == Unused then from else FirstUnused(procs, from + 1)
  }

  // The slot that create_proc takes as written. It tests the state where the loop ended; past the end
  // of the table it reads whatever lies there.
  function FindAsWritten(procs: seq<Proc>, beyond: ProcState): Option<nat> {
    var i := FirstUnused(procs, 0);
    if (if i < |procs| then procs[i].state else beyond) == Unused then Some(i) else None
  }

  lemma {:induction false} FirstUnusedIs(procs: seq<Proc>, from: nat)
    requires from <= |procs|
    ensures var i := FirstUnused(procs, from);
            && from <= i <= |procs| && (i < |procs| ==> procs[i].state == Unused)
            && forall j | from <= j < i :: procs[j].state != Unused
    decreases |procs| - from
  {
    if from < |procs| && procs[from].state != Unused { FirstUnusedIs(procs, from + 1); }
  }

  // What create_proc is to find: an UNUSED slot of the table, or nothing when there is none.
  ghost predicate GoodSlot(procs: seq<Proc>, r: Option<nat>) {
    match r
    case Some(i) => i < |procs| && procs[i].state == Unused
    case None => forall j | 0 <= j < |procs| :: procs[j].state != Unused
  }

  // create_proc as written reads past the table exactly when no slot is UNUSED, and then finds what it
  // should exactly when the memory there does not read as UNUSED.
  lemma FindAsWrittenExact(procs: seq<Proc>, beyond: ProcState)
    ensures FirstUnused(procs, 0) == |procs| <==> forall j | 0 <= j < |procs| :: procs[j].state != Unused
    ensures GoodSlot(procs, FindAsWritten(procs, beyond)) <==>
            (exists j | 0 <= j < |procs| :: procs[j].state == Unused) || beyond != Unused
  {
    FirstUnusedIs(procs, 0);
  }

  // One slot, in use, and zeroed memory behind it: the slot taken is not in the table.
  lemma FindAsWrittenFails()
    ensures FindAsWritten([EmptySlot.(state := Running)], Unused) == Some(1)
  {
    FirstUnusedIs([EmptySlot.(state := Running)], 0);
  }

  // ---- two creators ----

  // Two CPUs at boot and two unused slots.
  const Boot: World :=
    World(State([IdleCpu, IdleCpu], [EmptySlot, EmptySlot], None, 1), [Idle, Idle])

  const IdleCpu := Cpu(CBoot, 0, None, 0, false, false, None)
  const EmptySlot := Proc(Unused, 0, PStart, false, false, PRun, None, false)

  ghost predicate LegalSteps(w: World, es: seq<Event>)
    decreases |es|
  {
    es == [] || (CanDo(w, es[0].cpu, es[0].act) && LegalSteps(DoAct(w, es[0].cpu, es[0].act), es[1..]))
  }

  ghost function After(w: World, es: seq<Event>): World
    requires LegalSteps(w, es)
    decreases |es|
  {
    if es == [] then w else After(DoAct(w, es[0].cpu, es[0].act), es[1..])
  }

  // A world met on the way to the clash.
  function Met(slot0: Proc, slot1: Proc, cursor1: nat, nextpid: int, m0: Maker, m1: Maker): World {
    World(State([IdleCpu, IdleCpu.(cursor := cursor1)], [slot0, slot1], None, nextpid), [m0, m1])
  }

  // Both look before either marks: one slot for two processes.
  lemma TwoCreatorsOneSlot()
    ensures var es := [Event(0, Begin), Event(1, Begin), Event(0, Found), Event(1, Found),
                       Event(0, MarkEmbryo), Event(1, MarkEmbryo)];
            && Init(Boot.s) && LegalSteps(Boot, es)
            && var w := After(Boot, es);
            && w.make == [Numbering, Numbering] && |w.s.cpus| == 2 && w.s.cpus[0].cursor == w.s.cpus[1].cursor
  {
    var embryo := EmptySlot.(state := Embryo);
    var w2 := Met(EmptySlot, EmptySlot, 0, 1, Finding, Finding);
    var w4 := Met(EmptySlot, EmptySlot, 0, 1, Marking, Marking);
    var w6 := Met(embryo, EmptySlot, 0, 1, Numbering, Numbering);
    TwoSteps(Boot, Event(0, Begin), Event(1, Begin), w2,
             [Event(0, Found), Event(1, Found), Event(0, MarkEmbryo), Event(1, MarkEmbryo)]);
    TwoSteps(w2, Event(0, Found), Event(1, Found), w4, [Event(0, MarkEmbryo), Event(1, MarkEmbryo)]);
    TwoSteps(w4, Event(0, MarkEmbryo), Event(1, MarkEmbryo), w6, []);
  }

  const BothMark := [Event(0, Begin), Event(0, Found), Event(0, MarkEmbryo), Event(1, Begin), Event(1, Pass), Event(1, Found)]
  const BothNumber := [Event(1, MarkEmbryo), Event(0, Number), Event(1, Number), Event(0, Count), Event(1, Count),
                       Event(0, Stack(true))]
  const Marked := EmptySlot.(state := Embryo)
  const PidOne := Marked.(pid := 1)

  lemma MarkTwo()
    ensures LegalSteps(Boot, BothMark) && After(Boot, BothMark) == Met(Marked, EmptySlot, 1, 1, Numbering, Marking)
  {
    var w2 := Met(EmptySlot, EmptySlot, 0, 1, Marking, Idle);
    var w4 := Met(Marked, EmptySlot, 0, 1, Numbering, Finding);
    var w6 := Met(Marked, EmptySlot, 1, 1, Numbering, Marking);
    TwoSteps(Boot, Event(0, Begin), Event(0, Found), w2, BothMark[2..]);
    TwoSteps(w2, Event(0, MarkEmbryo), Event(1, Begin), w4, BothMark[4..]);
    TwoSteps(w4, Event(1, Pass), Event(1, Found), w6, []);
    assert BothMark == [Event(0, Begin), Event(0, Found)] + BothMark[2..];
    assert BothMark[2..] == [Event(0, MarkEmbryo), Event(1, Begin)] + BothMark[4..];
    assert BothMark[4..] == [Event(1, Pass), Event(1, Found)] + [];
  }

  // Events a and b lead from w to w'.
  ghost predicate Leads(w: World, a: Event, b: Event, w': World) {
    CanDo(w, a.cpu, a.act) && CanDo(DoAct(w, a.cpu, a.act), b.cpu, b.act) && w' == DoAct(DoAct(w, a.cpu, a.act), b.cpu, b.act)
  }

  lemma NumberFirst()
    ensures Leads(Met(Marked, EmptySlot, 1, 1, Numbering, Marking), Event(1, MarkEmbryo), Event(0, Number),
                  Met(PidOne, Marked, 1, 1, Counting(1), Numbering))
  {
  }

  lemma NumberSecond()
    ensures Leads(Met(PidOne, Marked, 1, 1, Counting(1), Numbering), Event(1, Number), Event(0, Count),
                  Met(PidOne, PidOne, 1, 2, Stacking, Counting(1)))
  {
  }

  lemma CountSecond()
    ensures Leads(Met(PidOne, PidOne, 1, 2, Stacking, Counting(1)), Event(1, Count), Event(0, Stack(true)),
                  Met(PidOne, PidOne, 1, 2, Publishing, Stacking))
  {
  }

  lemma NumberTwo()
    ensures var w6 := Met(Marked, EmptySlot, 1, 1, Numbering, Marking);
            LegalSteps(w6, BothNumber) && After(w6, BothNumber) == Met(PidOne, PidOne, 1, 2, Publishing, Stacking)
  {
    hide CanDo, DoAct, Met;
    var w6 := Met(Marked, EmptySlot, 1, 1, Numbering, Marking);
    var w8 := Met(PidOne, Marked, 1, 1, Counting(1), Numbering);
    var w10 := Met(PidOne, PidOne, 1, 2, Stacking, Counting(1));
    var w12 := Met(PidOne, PidOne, 1, 2, Publishing, Stacking);
    NumberFirst();
    NumberSecond();
    CountSecond();
    TwoSteps(w6, Event(1, MarkEmbryo), Event(0, Number), w8, BothNumber[2..]);
    TwoSteps(w8, Event(1, Number), Event(0, Count), w10, BothNumber[4..]);
    TwoSteps(w10, Event(1, Count), Event(0, Stack(true)), w12, []);
    assert BothNumber == [Event(1, MarkEmbryo), Event(0, Number)] + BothNumber[2..];
    assert BothNumber[2..] == [Event(1, Number), Event(0, Count)] + BothNumber[4..];
    assert BothNumber[4..] == [Event(1, Count), Event(0, Stack(true))] + [];
  }

  lemma {:induction false} AfterConcat(w: World, a: seq<Event>, b: seq<Event>)
    requires LegalSteps(w, a) && LegalSteps(After(w, a), b)
    ensures LegalSteps(w, a + b) && After(w, a + b) == After(After(w, a), b)
    decreases |a|
  {
    hide CanDo, DoAct;
    if a == [] {
      assert a + b == b;
    } else {
      AfterConcat(DoAct(w, a[0].cpu, a[0].act), a[1..], b);
      assert (a + b)[1..] == a[1..] + b;
    }
  }

  // Both read the counter before either writes it: one pid for two processes.
  lemma TwoCreatorsOnePid()
    ensures LegalSteps(Boot, BothMark + BothNumber)
    ensures var w := After(Boot, BothMark + BothNumber);
            Numbered(w, 0) && Numbered(w, 1) && w.s.procs[0].pid == w.s.procs[1].pid == 1
  {
    hide LegalSteps, After;
    MarkTwo();
    NumberTwo();
    AfterConcat(Boot, BothMark, BothNumber);
  }

  lemma TwoSteps(w: World, a: Event, b: Event, w': World, rest: seq<Event>)
    requires Leads(w, a, b, w')
    ensures LegalSteps(w', rest) ==> LegalSteps(w, [a, b] + rest) && After(w, [a, b] + rest) == After(w', rest)
  {
    hide CanDo, DoAct;
    assert ([a, b] + rest)[1..] == [b] + rest && ([b] + rest)[1..] == rest;
  }
}
