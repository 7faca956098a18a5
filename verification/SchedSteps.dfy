/**
 Every step of the scheduling protocol keeps the invariant.
 */
module SchedSteps {
  import opened Sched
  import opened Options
  import opened SchedInv
  import opened SchedFrame

  /** A step that only moves the executing context of c, and cpu fields other than proc and run. */
  lemma ContextStep(s: State, t: State, c: nat)
    requires Inv(s) && c < |s.cpus| && |t.cpus| == |s.cpus| && |t.procs| == |s.procs|
    requires forall d: nat :: d < |s.cpus| && d != c ==> t.cpus[d] == s.cpus[d]
    requires t.cpus[c].run == s.cpus[c].run && t.cpus[c].proc == s.cpus[c].proc
    requires forall q: nat :: q < |s.procs| && s.cpus[c].run != Some(q) ==> t.procs[q] == s.procs[q]
    requires s.cpus[c].run.Some? ==>
      var p := s.cpus[c].run.value;
      p < |s.procs| && SameSlot(s.procs[p], t.procs[p]) && t.procs[p].on == s.procs[p].on && ProcInv(t, p)
      && !InWait(t.procs[p])
    requires LockMove(s, t, c) && CpuInv(t, c)
    requires s.nextpid == t.nextpid && s.init == t.init && s.exits == t.exits && s.reaps == t.reaps
    requires s.cpus[c].run.None? && s.cpus[c].proc.Some? ==> t.cpus[c].spc == s.cpus[c].spc
    ensures Inv(t)
  {
    hide TableInv, WaitInv, LockInv;
    assert CpuInv(s, c);
    forall q: nat | q < |s.procs|
      ensures StatePc(s.procs[q], q) && SameSlot(s.procs[q], t.procs[q]) && t.procs[q].on == s.procs[q].on
      ensures s.procs[q].on == Some(c) ==> ProcInv(t, q)
      ensures s.procs[q].on != Some(c) ==> t.procs[q] == s.procs[q]
    {
      assert ProcInv(s, q);
    }
    WaitKept(s, t);
    TableKept(s, t);
    Assemble(s, t, c);
  }

  lemma StepXchg(s: State, c: nat)
    requires Inv(s) && Enabled(s, c, Xchg)
    ensures Inv(Do(s, c, Xchg))
  {
    hide TableInv, WaitInv, LockInv;
    var t := Do(s, c, Xchg);
    assert CpuInv(s, c);
    if s.cpus[c].run.Some? {
      assert ProcInv(s, s.cpus[c].run.value);
    }
    ContextStep(s, t, c);
  }

  lemma StepRecord(s: State, c: nat)
    requires Inv(s) && Enabled(s, c, Record)
    ensures Inv(Do(s, c, Record))
  {
    hide TableInv, WaitInv, LockInv;
    var t := Do(s, c, Record);
    assert CpuInv(s, c);
    if s.cpus[c].run.Some? {
      assert ProcInv(s, s.cpus[c].run.value);
    }
    ContextStep(s, t, c);
  }

  lemma StepUnrecord(s: State, c: nat)
    requires Inv(s) && Enabled(s, c, Unrecord)
    ensures Inv(Do(s, c, Unrecord))
  {
    hide TableInv, WaitInv, LockInv;
    var t := Do(s, c, Unrecord);
    assert CpuInv(s, c);
    if s.cpus[c].run.Some? {
      assert ProcInv(s, s.cpus[c].run.value);
    }
    ContextStep(s, t, c);
  }

  lemma StepUnlock(s: State, c: nat)
    requires Inv(s) && Enabled(s, c, Unlock)
    ensures Inv(Do(s, c, Unlock))
  {
    hide TableInv, WaitInv, LockInv;
    var t := Do(s, c, Unlock);
    assert CpuInv(s, c);
    if s.cpus[c].run.Some? {
      assert ProcInv(s, s.cpus[c].run.value);
    }
    ContextStep(s, t, c);
  }

  lemma StepPopCli(s: State, c: nat)
    requires Inv(s) && Enabled(s, c, PopCli)
    ensures Inv(Do(s, c, PopCli))
  {
    hide TableInv, WaitInv, LockInv;
    var t := Do(s, c, PopCli);
    assert CpuInv(s, c);
    if s.cpus[c].run.Some? {
      assert ProcInv(s, s.cpus[c].run.value);
    }
    ContextStep(s, t, c);
  }

  lemma StepLockOther(s: State, c: nat)
    requires Inv(s) && Enabled(s, c, LockOther)
    ensures Inv(Do(s, c, LockOther))
  {
    hide TableInv, WaitInv, LockInv;
    var t := Do(s, c, LockOther);
    assert CpuInv(s, c);
    if s.cpus[c].run.Some? {
      assert ProcInv(s, s.cpus[c].run.value);
    }
    ContextStep(s, t, c);
  }

  lemma StepUnlockOther(s: State, c: nat)
    requires Inv(s) && Enabled(s, c, UnlockOther)
    ensures Inv(Do(s, c, UnlockOther))
  {
    hide TableInv, WaitInv, LockInv;
    var t := Do(s, c, UnlockOther);
    assert CpuInv(s, c);
    if s.cpus[c].run.Some? {
      assert ProcInv(s, s.cpus[c].run.value);
    }
    ContextStep(s, t, c);
  }

  lemma StepSetIF(s: State, c: nat, on: bool)
    requires Inv(s) && Enabled(s, c, SetIF(on))
    ensures Inv(Do(s, c, SetIF(on)))
  {
    hide TableInv, WaitInv, LockInv;
    var t := Do(s, c, SetIF(on));
    assert CpuInv(s, c);
    if s.cpus[c].run.Some? {
      assert ProcInv(s, s.cpus[c].run.value);
    }
    ContextStep(s, t, c);
  }

  lemma StepBegin(s: State, c: nat, j: Job)
    requires Inv(s) && Enabled(s, c, Begin(j))
    ensures Inv(Do(s, c, Begin(j)))
  {
    if s.cpus[c].run.Some? {
      BeginByProcess(s, c, s.cpus[c].run.value, j);
    } else {
      BeginByScheduler(s, c, j);
    }
  }

  lemma BeginByProcess(s: State, c: nat, p: nat, j: Job)
    requires Inv(s) && Enabled(s, c, Begin(j)) && s.cpus[c].run == Some(p)
    ensures Inv(Do(s, c, Begin(j)))
  {
    hide TableInv, WaitInv, LockInv, CpuInv, ProcInv, LockMove;
    var t := Do(s, c, Begin(j));
    BeginCpu(s, t, c, p, j);
    BeginProc(s, t, c, p, j);
    ContextStep(s, t, c);
  }

  lemma BeginCpu(s: State, t: State, c: nat, p: nat, j: Job)
    requires Inv(s) && Enabled(s, c, Begin(j)) && s.cpus[c].run == Some(p) && t == Do(s, c, Begin(j))
    ensures CpuInv(t, c) && LockMove(s, t, c) && s.cpus[c].proc == Some(p)
  {
    hide TableInv, WaitInv, LockInv, ProcInv;
    CpuHolds(s, c);
  }

  lemma BeginProc(s: State, t: State, c: nat, p: nat, j: Job)
    requires Inv(s) && Enabled(s, c, Begin(j)) && s.cpus[c].run == Some(p) && t == Do(s, c, Begin(j))
    ensures ProcInv(t, p) && p < |s.procs| && SameSlot(s.procs[p], t.procs[p]) && t.procs[p].on == s.procs[p].on
            && !InWait(t.procs[p])
  {
    hide TableInv, WaitInv, LockInv, SchedulerPc;
    CpuHolds(s, c);
    assert ProcInv(s, p);
  }

  lemma BeginByScheduler(s: State, c: nat, j: Job)
    requires Inv(s) && Enabled(s, c, Begin(j)) && s.cpus[c].run.None?
    ensures Inv(Do(s, c, Begin(j)))
  {
    hide TableInv, WaitInv, LockInv, ProcInv;
    CpuHolds(s, c);
    ContextStep(s, Do(s, c, Begin(j)), c);
  }

  lemma StepForkret(s: State, c: nat)
    requires Inv(s) && Enabled(s, c, Forkret)
    ensures Inv(Do(s, c, Forkret))
  {
    hide TableInv, WaitInv, LockInv;
    var t := Do(s, c, Forkret);
    HolderIs(s, c);
    assert CpuInv(s, c);
    assert ProcInv(s, s.cpus[c].run.value);
    ContextStep(s, t, c);
  }

  /** Resuming after sched restores this context's own intena on whatever CPU it is now on. */
  lemma StepResume(s: State, c: nat)
    requires Inv(s) && Enabled(s, c, Resume)
    ensures Inv(Do(s, c, Resume))
  {
    hide TableInv, WaitInv, LockInv;
    var t := Do(s, c, Resume);
    HolderIs(s, c);
    assert CpuInv(s, c);
    assert ProcInv(s, s.cpus[c].run.value);
    ContextStep(s, t, c);
  }

  // ---- Switching between a process and its CPU's scheduler --------------------------------------

  lemma StepSwitchOut(s: State, c: nat)
    requires Inv(s) && Enabled(s, c, SwitchOut)
    ensures Inv(Do(s, c, SwitchOut))
  {
    hide TableInv, WaitInv, LockInv;
    var t := Do(s, c, SwitchOut);
    var p := s.cpus[c].run.value;
    HolderIs(s, c);
    assert CpuInv(s, c) && ProcInv(s, p);
    SwitchKeeps(s, t, c, p);
  }

  lemma StepSwitchIn(s: State, c: nat)
    requires Inv(s) && Enabled(s, c, SwitchIn)
    ensures Inv(Do(s, c, SwitchIn))
  {
    hide TableInv, WaitInv, LockInv;
    var t := Do(s, c, SwitchIn);
    var p := s.cpus[c].spc.i;
    HolderIs(s, c);
    assert CpuInv(s, c);
    assert ProcInv(s, p);
    SwitchKeeps(s, t, c, p);
  }

  /** swtch on CPU c, to or from process p. */
  lemma SwitchKeeps(s: State, t: State, c: nat, p: nat)
    requires Inv(s) && c < |s.cpus| && p < |s.procs| && s.cpus[c].proc == Some(p)
    requires t == s.(cpus := t.cpus, procs := t.procs) && |t.cpus| == |s.cpus| && |t.procs| == |s.procs|
    requires forall d: nat :: d < |s.cpus| && d != c ==> t.cpus[d] == s.cpus[d]
    requires forall q: nat :: q < |s.procs| && q != p ==> t.procs[q] == s.procs[q]
    requires SameSlot(s.procs[p], t.procs[p]) && t.procs[p].on == s.procs[p].on
    requires InWait(t.procs[p]) ==> InWait(s.procs[p])
    requires LockMove(s, t, c) && CpuInv(t, c) && ProcInv(t, p)
    ensures Inv(t)
  {
    hide TableInv, WaitInv, LockInv;
    assert CpuInv(s, c);
    forall q: nat | q < |s.procs|
      ensures StatePc(s.procs[q], q) && SameSlot(s.procs[q], t.procs[q]) && t.procs[q].on == s.procs[q].on
      ensures s.procs[q].on == Some(c) <==> q == p
    {
      assert ProcInv(s, q);
    }
    WaitKept(s, t);
    TableKept(s, t);
    Assemble(s, t, c);
  }

  lemma StepSwitchBack(s: State, c: nat)
    requires Inv(s) && Enabled(s, c, SwitchBack)
    ensures Inv(Do(s, c, SwitchBack))
  {
    hide TableInv, WaitInv, LockInv;
    var t := Do(s, c, SwitchBack);
    var p := s.cpus[c].spc.i;
    HolderIs(s, c);
    assert CpuInv(s, c) && ProcInv(s, p);
    forall q: nat | q < |s.procs|
      ensures StatePc(s.procs[q], q) && SameSlot(s.procs[q], t.procs[q])
      ensures s.procs[q].on == Some(c) <==> q == p
      ensures t.procs[q].on != Some(c)
    {
      assert ProcInv(s, q);
    }
    WaitKept(s, t);
    TableKept(s, t);
    Assemble(s, t, c);
  }

  lemma StepScan(s: State, c: nat)
    requires Inv(s) && Enabled(s, c, ScanSlot)
    ensures Inv(Do(s, c, ScanSlot))
  {
    hide TableInv, WaitInv, LockInv;
    var t := Do(s, c, ScanSlot);
    var i := s.cpus[c].spc.i;
    HolderIs(s, c);
    assert CpuInv(s, c);
    if i < |s.procs| && s.procs[i].state == RUNNABLE {
      ScanPick(s, t, c, i);
    } else {
      ContextStep(s, t, c);
    }
  }

  /** A RUNNABLE process is on no CPU when a scheduler that holds the lock sees it. */
  lemma RunnableIsOff(s: State, c: nat, i: nat)
    requires Inv(s) && c < |s.cpus| && s.cpus[c].run.None? && s.cpus[c].spc == InScan(i)
    requires i < |s.procs| && s.procs[i].state == RUNNABLE
    ensures s.procs[i].on.None? && (s.procs[i].pc.Off? || s.procs[i].pc.Fork0?)
  {
    assert ProcInv(s, i) && CpuInv(s, c);
    if s.procs[i].on.Some? {
      var d := s.procs[i].on.value;
      assert CpuInv(s, d);
      assert HoldsLock(s, c) && HoldsLock(s, d);
    }
  }

  lemma ScanPick(s: State, t: State, c: nat, i: nat)
    requires Inv(s) && Enabled(s, c, ScanSlot) && s.cpus[c].spc == InScan(i)
    requires i < |s.procs| && s.procs[i].state == RUNNABLE && t == Do(s, c, ScanSlot)
    ensures Inv(t)
  {
    hide LockInv, WaitInv, TableInv;
    RunnableIsOff(s, c, i);
    HolderIs(s, c);
    assert CpuInv(s, c);
    assert ProcInv(s, i);
    assert t.procs == s.procs[i := s.procs[i].(state := RUNNING, on := Some(c))];
    forall q: nat | q < |s.procs|
      ensures StatePc(s.procs[q], q) && s.procs[q].on != Some(c) && SameSlot(s.procs[q], t.procs[q])
    {
      assert ProcInv(s, q);
    }
    WaitKept(s, t);
    TableKept(s, t);
    Assemble(s, t, c);
  }
}
