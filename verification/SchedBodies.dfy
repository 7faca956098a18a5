/**
 The critical sections of proc.c keep the invariant: wakeup, kill, yield,
 sleep, wait, exit and allocproc, and fork's unlocked steps.
 */
module SchedBodies {
  import opened Sched
  import opened Options
  import opened SchedInv
  import opened SchedFrame

  /** What a context in the body of a critical section looks like. */
  lemma InBody(s: State, c: nat)
    requires Inv(s) && c < |s.cpus| && CurPc(s, c).In?
    ensures s.holder == Some(c) && s.locked && CpuInv(s, c)
    ensures match s.cpus[c].run
      case None => s.cpus[c].proc.None? && (CurPc(s, c).j.JWakeup? || CurPc(s, c).j.JKill?)
      case Some(p) => p < |s.procs| && s.procs[p].state == RUNNING && s.procs[p].on == Some(c) && ProcInv(s, p)
                      && s.cpus[c].proc == Some(p) && ProcessJob(s.procs[p], CurPc(s, c).j)
    ensures forall q: nat :: q < |s.procs| ==> (s.procs[q].on == Some(c) <==> s.cpus[c].run == Some(q))
  {
    HolderIs(s, c);
    assert CpuInv(s, c);
    if s.cpus[c].run.Some? {
      assert ProcInv(s, s.cpus[c].run.value);
    }
    forall q: nat | q < |s.procs|
      ensures s.procs[q].on == Some(c) <==> s.cpus[c].run == Some(q)
    {
      assert ProcInv(s, q);
    }
  }

  lemma StatePcs(s: State)
    requires Inv(s)
    ensures forall q: nat :: q < |s.procs| ==> StatePc(s.procs[q], q)
  {
    forall q: nat | q < |s.procs|
      ensures StatePc(s.procs[q], q)
    {
      assert ProcInv(s, q);
    }
  }

  /** wakeup and kill only move sleeping processes to RUNNABLE. */
  predicate MaybeWoken(a: Proc, b: Proc) {
    b == a.(state := b.state, killed := b.killed)
    && (b.state == a.state || (a.state == SLEEPING && b.state == RUNNABLE))
  }

  lemma WakeStep(s: State, c: nat, w: seq<Proc>, j: Job)
    requires Inv(s) && c < |s.cpus| && CurPc(s, c) == In(j)
    requires |w| == |s.procs| && forall q: nat :: q < |w| ==> MaybeWoken(s.procs[q], w[q])
    requires j.JWakeup? || j.JKill?
    ensures Inv(Goto(s.(procs := w), c, Rel(j)))
  {
    hide TableInv, WaitInv, LockInv, CpuInv, ProcInv, LockMove, ProcessJob;
    InBody(s, c);
    StatePcs(s);
    var t := Goto(s.(procs := w), c, Rel(j));
    forall q: nat | q < |s.procs|
      ensures SameSlot(s.procs[q], t.procs[q]) && (InWait(t.procs[q]) ==> InWait(s.procs[q]))
      ensures StatePc(w[q], q)
      ensures s.cpus[c].run != Some(q) ==> t.procs[q] == w[q]
    {
      assert MaybeWoken(s.procs[q], w[q]);
    }
    WaitKept(s, t);
    TableKept(s, t);
    WakerKeeps(s, c, w, j);
    Assemble(s, t, c);
  }

  /** The CPU and the process doing the wakeup. */
  lemma WakerKeeps(s: State, c: nat, w: seq<Proc>, j: Job)
    requires Inv(s) && c < |s.cpus| && CurPc(s, c) == In(j)
    requires |w| == |s.procs| && forall q: nat :: q < |w| ==> MaybeWoken(s.procs[q], w[q])
    requires j.JWakeup? || j.JKill?
    ensures var t := Goto(s.(procs := w), c, Rel(j));
      && CpuInv(t, c) && LockMove(s, t, c)
      && (s.cpus[c].run.Some? ==> ProcInv(t, s.cpus[c].run.value))
  {
    hide TableInv, WaitInv, LockInv;
    InBody(s, c);
    var t := Goto(s.(procs := w), c, Rel(j));
    if s.cpus[c].run.Some? {
      var p := s.cpus[c].run.value;
      assert MaybeWoken(s.procs[p], w[p]);
      assert t.procs[p] == w[p].(pc := Rel(j));
    }
  }

  lemma StepWakeup(s: State, c: nat, ch: Chan)
    requires Inv(s) && Enabled(s, c, Body) && CurPc(s, c) == In(JWakeup(ch))
    ensures Inv(Do(s, c, Body))
  {
    WakeStep(s, c, WakeAll(s.procs, ch), JWakeup(ch));
  }

  lemma StepKill(s: State, c: nat, n: nat)
    requires Inv(s) && Enabled(s, c, Body) && CurPc(s, c) == In(JKill(n))
    ensures Inv(Do(s, c, Body))
  {
    var k := FindPid(s.procs, n, 0);
    var w := if k < |s.procs| then s.procs[k := Killed(s.procs[k])] else s.procs;
    WakeStep(s, c, w, JKill(n));
  }

  /** The running process p changes its own slot and stays live. */
  lemma OwnSlotStep(s: State, t: State, c: nat, p: nat)
    requires Inv(s) && c < |s.cpus| && CurPc(s, c).In? && s.cpus[c].run == Some(p) && p < |s.procs|
    requires p < |t.procs| && t == s.(cpus := t.cpus, procs := s.procs[p := t.procs[p]]) && |t.cpus| == |s.cpus|
    requires forall d: nat :: d < |s.cpus| && d != c ==> t.cpus[d] == s.cpus[d]
    requires SameSlot(s.procs[p], t.procs[p]) && t.procs[p].on == s.procs[p].on
    requires InWait(t.procs[p]) ==> !HasZombieChild(s.procs, p)
    requires LockMove(s, t, c) && CpuInv(t, c) && ProcInv(t, p)
    ensures Inv(t)
  {
    hide TableInv, WaitInv, LockInv;
    InBody(s, c);
    StatePcs(s);
    OwnWait(s, t, p);
    TableKept(s, t);
    Assemble(s, t, c);
  }

  lemma OwnWait(s: State, t: State, p: nat)
    requires WaitInv(s) && p < |s.procs| && p < |t.procs|
    requires t.procs == s.procs[p := t.procs[p]] && SameSlot(s.procs[p], t.procs[p])
    requires InWait(t.procs[p]) ==> !HasZombieChild(s.procs, p)
    ensures WaitInv(t)
  {
    forall q: nat | q < |t.procs| && InWait(t.procs[q])
      ensures !HasZombieChild(t.procs, q)
    {
      assert !HasZombieChild(s.procs, q);
    }
  }

  lemma StepYield(s: State, c: nat)
    requires Inv(s) && Enabled(s, c, Body) && CurPc(s, c) == In(JYield)
    ensures Inv(Do(s, c, Body))
  {
    hide TableInv, WaitInv, LockInv;
    InBody(s, c);
    var t := Do(s, c, Body);
    OwnSlotStep(s, t, c, s.cpus[c].run.value);
  }

  lemma StepSleep(s: State, c: nat, ch: Chan)
    requires Inv(s) && Enabled(s, c, Body) && CurPc(s, c) == In(JSleep(ch))
    ensures Inv(Do(s, c, Body))
  {
    hide TableInv, WaitInv, LockInv;
    InBody(s, c);
    var t := Do(s, c, Body);
    OwnSlotStep(s, t, c, s.cpus[c].run.value);
  }

  /** wait when there is nothing to reap: give up, or sleep with no zombie child. */
  lemma StepWaitNone(s: State, c: nat)
    requires Inv(s) && Enabled(s, c, Body) && CurPc(s, c) == In(JWait)
    requires s.cpus[c].run.Some? && FindZombie(s.procs, s.cpus[c].run.value, 0) == |s.procs|
    ensures Inv(Do(s, c, Body))
  {
    var p := s.cpus[c].run.value;
    if !HasChild(s.procs, p) || s.procs[p].killed {
      GiveUpWait(s, c, p);
    } else {
      SleepInWait(s, c, p);
    }
  }

  lemma GiveUpWait(s: State, c: nat, p: nat)
    requires Inv(s) && c < |s.cpus| && s.cpus[c].run == Some(p) && p < |s.procs| && CurPc(s, c) == In(JWait)
    ensures Inv(PutProc(s, p, s.procs[p].(pc := Rel(JWait))))
  {
    hide TableInv, WaitInv, LockInv;
    InBody(s, c);
    OwnSlotStep(s, PutProc(s, p, s.procs[p].(pc := Rel(JWait))), c, p);
  }

  lemma SleepInWait(s: State, c: nat, p: nat)
    requires Inv(s) && c < |s.cpus| && s.cpus[c].run == Some(p) && p < |s.procs| && CurPc(s, c) == In(JWait)
    requires !HasZombieChild(s.procs, p)
    ensures Inv(PutProc(s, p, s.procs[p].(chan := ProcChan(p), state := SLEEPING, pc := Sw(JWait))))
  {
    hide TableInv, WaitInv, LockInv;
    InBody(s, c);
    OwnSlotStep(s, PutProc(s, p, s.procs[p].(chan := ProcChan(p), state := SLEEPING, pc := Sw(JWait))), c, p);
  }

  // ---- wait reaps a child --------------------------------------------------------------------

  lemma StepReap(s: State, c: nat)
    requires Inv(s) && Enabled(s, c, Body) && CurPc(s, c) == In(JWait)
    requires s.cpus[c].run.Some? && FindZombie(s.procs, s.cpus[c].run.value, 0) < |s.procs|
    ensures Inv(Do(s, c, Body))
  {
    hide TableInv, WaitInv, LockInv, CpuInv, ProcInv, LockMove, ProcessJob, Local;
    InBody(s, c);
    var p := s.cpus[c].run.value;
    var k := FindZombie(s.procs, p, 0);
    var t := Do(s, c, Body);
    assert t == s.(procs := s.procs[k := Reaped(s.procs[k])][p := s.procs[p].(pc := Rel(JWait))],
        reaps := s.reaps + [s.procs[k].pid]);
    ReapLocal(s, t, c, p, k);
    OwnMove(s, t, c, p, JWait);
    ReapWait(s, t, p, k);
    ReapTable(s, t, p, k);
    Assemble(s, t, c);
  }

  /** The reaped slot is on no CPU: its kernel stack, freed here, is not in use. */
  lemma ReapLocal(s: State, t: State, c: nat, p: nat, k: nat)
    requires Inv(s) && c < |s.cpus| && CurPc(s, c) == In(JWait) && s.cpus[c].run == Some(p) && p < |s.procs|
    requires k < |s.procs| && s.procs[k].state == ZOMBIE
    requires t == s.(procs := s.procs[k := Reaped(s.procs[k])][p := s.procs[p].(pc := Rel(JWait))], reaps := t.reaps)
    ensures s.procs[k].on.None? && k != p
    ensures Local(s, t, c)
    ensures forall q: nat :: q < |s.procs| && s.procs[q].on != Some(c) && t.procs[q].on != Some(c) ==>
              StatePc(t.procs[q], q)
    ensures forall q: nat :: q < |s.procs| && (s.procs[q].on == Some(c) || t.procs[q].on == Some(c)) ==> q == p
  {
    hide TableInv, WaitInv, LockInv, CpuInv;
    InBody(s, c);
    StatePcs(s);
    assert HoldsLock(s, c);
    DeadIsOff(s, c, k);
    assert ProcInv(s, k);
  }

  /** The running process goes from its body to the release. */
  lemma OwnMove(s: State, t: State, c: nat, p: nat, j: Job)
    requires Inv(s) && c < |s.cpus| && CurPc(s, c) == In(j) && s.cpus[c].run == Some(p) && p < |s.procs|
    requires t.cpus == s.cpus && |t.procs| == |s.procs| && t.locked == s.locked && t.holder == s.holder
             && t.init == s.init
    requires t.procs[p] == s.procs[p].(pc := Rel(j), child := t.procs[p].child) && j != JExit && j != JScan
    ensures CpuInv(t, c) && LockMove(s, t, c) && ProcInv(t, p)
  {
    hide TableInv, WaitInv, LockInv;
    InBody(s, c);
  }

  lemma ReapWait(s: State, t: State, p: nat, k: nat)
    requires WaitInv(s) && p < |s.procs| && k < |s.procs| && s.procs[k].state == ZOMBIE && s.procs[p].state == RUNNING
    requires t.procs == s.procs[k := Reaped(s.procs[k])][p := s.procs[p].(pc := Rel(JWait))]
    ensures WaitInv(t)
  {
    forall q: nat | q < |t.procs| && InWait(t.procs[q])
      ensures !HasZombieChild(t.procs, q)
    {
      assert !HasZombieChild(s.procs, q);
    }
  }

  lemma ReapTable(s: State, t: State, p: nat, k: nat)
    requires TableInv(s) && p < |s.procs| && k < |s.procs| && s.procs[k].state == ZOMBIE && s.procs[p].state == RUNNING
    requires t == s.(procs := s.procs[k := Reaped(s.procs[k])][p := s.procs[p].(pc := Rel(JWait))],
        reaps := s.reaps + [s.procs[k].pid])
    ensures TableInv(t)
  {
    hide PidInv, ParentInv, HistInv, ChildInv;
    ReapParents(s, t, p, k);
    ReapHist(s, t, p, k);
    ReapPid(s, t, p, k);
    ReapChild(s, t, p, k);
  }

  lemma ReapPid(s: State, t: State, p: nat, k: nat)
    requires PidInv(s) && p < |s.procs| && k < |s.procs| && s.procs[p].state == RUNNING
    requires t.procs == s.procs[k := Reaped(s.procs[k])][p := s.procs[p].(pc := Rel(JWait))] && t.nextpid == s.nextpid
    ensures PidInv(t)
  {
    forall q: nat | q < |t.procs| && t.procs[q].state != UNUSED
      ensures s.procs[q].state != UNUSED && t.procs[q].pid == s.procs[q].pid
    {
    }
  }

  lemma ReapChild(s: State, t: State, p: nat, k: nat)
    requires ChildInv(s) && p < |s.procs| && k < |s.procs| && s.procs[k].state == ZOMBIE && s.procs[p].state == RUNNING
    requires t.procs == s.procs[k := Reaped(s.procs[k])][p := s.procs[p].(pc := Rel(JWait))]
    ensures ChildInv(t)
  {
    forall q: nat | q < |t.procs|
      ensures t.procs[q].child == s.procs[q].child
    {
    }
  }

  lemma ReapParents(s: State, t: State, p: nat, k: nat)
    requires ParentInv(s) && p < |s.procs| && k < |s.procs| && s.procs[k].state == ZOMBIE && s.procs[p].state == RUNNING
    requires t.procs == s.procs[k := Reaped(s.procs[k])][p := s.procs[p].(pc := Rel(JWait))] && t.init == s.init
    ensures ParentInv(t)
  {
    forall q: nat | q < |t.procs| && t.procs[q].parent.Some?
      ensures ParentOk(t, q, t.procs[q].parent.value)
    {
      assert ParentOk(s, q, s.procs[q].parent.value);
    }
  }

  lemma ReapHist(s: State, t: State, p: nat, k: nat)
    requires HistInv(s) && PidInv(s) && p < |s.procs| && k < |s.procs| && s.procs[k].state == ZOMBIE
             && s.procs[p].state == RUNNING
    requires t == s.(procs := s.procs[k := Reaped(s.procs[k])][p := s.procs[p].(pc := Rel(JWait))],
        reaps := s.reaps + [s.procs[k].pid])
    ensures HistInv(t)
  {
    var n := s.procs[k].pid;
    assert n in s.exits && n !in s.reaps;
    assert forall i: nat :: i < |s.reaps| ==> s.reaps[i] in s.reaps;
    forall x | x in t.exits && x !in t.reaps
      ensures exists q: nat :: IsZombie(t, q, x)
    {
      assert x !in s.reaps && x != n by {
        assert forall y :: y in s.reaps ==> y in t.reaps;
        assert t.reaps[|s.reaps|] == n;
      }
      var q: nat :| IsZombie(s, q, x);
      assert IsZombie(t, q, x);
    }
  }

  // ---- allocproc -----------------------------------------------------------------------------

  lemma StepAlloc(s: State, c: nat)
    requires Inv(s) && Enabled(s, c, Body) && CurPc(s, c) == In(JAlloc)
    ensures Inv(Do(s, c, Body))
  {
    hide TableInv, WaitInv, LockInv, CpuInv, ProcInv, LockMove, Local;
    InBody(s, c);
    var p := s.cpus[c].run.value;
    var k := FindUnused(s.procs, 0);
    var t := Do(s, c, Body);
    OwnMove(s, t, c, p, JAlloc);
    if k < |s.procs| {
      AllocLocal(s, t, c, p, k);
      AllocTable(s, t, p, k);
      Assemble(s, t, c);
    } else {
      OwnSlotStep(s, t, c, p);
    }
  }

  predicate AllocDone(s: State, t: State, p: nat, k: nat)
    requires p < |s.procs| && k < |s.procs|
  {
    t == s.(procs := s.procs[k := s.procs[k].(state := EMBRYO, pid := s.nextpid, pc := Fork0)]
                            [p := s.procs[p].(child := Some(k), pc := Rel(JAlloc))],
            nextpid := s.nextpid + 1)
  }

  lemma AllocLocal(s: State, t: State, c: nat, p: nat, k: nat)
    requires Inv(s) && c < |s.cpus| && CurPc(s, c) == In(JAlloc) && s.cpus[c].run == Some(p) && p < |s.procs|
    requires k < |s.procs| && s.procs[k].state == UNUSED && AllocDone(s, t, p, k)
    ensures k != p && s.procs[k].parent.None? && s.procs[k].child.None?
    ensures Local(s, t, c)
    ensures forall q: nat :: q < |s.procs| && s.procs[q].on != Some(c) && t.procs[q].on != Some(c) ==>
              StatePc(t.procs[q], q)
    ensures forall q: nat :: q < |s.procs| && (s.procs[q].on == Some(c) || t.procs[q].on == Some(c)) ==> q == p
  {
    hide TableInv, WaitInv, LockInv, CpuInv;
    InBody(s, c);
    StatePcs(s);
    assert HoldsLock(s, c);
    DeadIsOff(s, c, k);
    assert ProcInv(s, k);
  }

  lemma AllocTable(s: State, t: State, p: nat, k: nat)
    requires WaitInv(s) && TableInv(s) && p < |s.procs| && k < |s.procs| && s.procs[p].state == RUNNING
             && s.procs[p].child.None?
    requires s.procs[k].state == UNUSED && s.procs[k].parent.None? && s.procs[k].child.None? && AllocDone(s, t, p, k)
    ensures WaitInv(t) && TableInv(t)
  {
    hide PidInv, ParentInv, ChildInv, HistInv, WaitInv;
    AllocWait(s, t, p, k);
    AllocPid(s, t, p, k);
    AllocParent(s, t, p, k);
    AllocChild(s, t, p, k);
    AllocHist(s, t, p, k);
  }

  lemma AllocWait(s: State, t: State, p: nat, k: nat)
    requires WaitInv(s) && p < |s.procs| && k < |s.procs| && s.procs[p].state == RUNNING && s.procs[k].state == UNUSED
    requires AllocDone(s, t, p, k)
    ensures WaitInv(t)
  {
    forall q: nat | q < |t.procs| && InWait(t.procs[q])
      ensures !HasZombieChild(t.procs, q)
    {
      assert !HasZombieChild(s.procs, q);
    }
  }

  lemma AllocPid(s: State, t: State, p: nat, k: nat)
    requires PidInv(s) && ParentInv(s) && p < |s.procs| && k < |s.procs| && s.procs[p].state == RUNNING
             && s.procs[k].state == UNUSED
    requires AllocDone(s, t, p, k)
    ensures PidInv(t)
  {
    forall q: nat | q < |t.procs| && t.procs[q].state != UNUSED
      ensures q == k ==> t.procs[q].pid == s.nextpid
      ensures q != k ==> s.procs[q].state != UNUSED && t.procs[q].pid == s.procs[q].pid < s.nextpid
    {
    }
  }

  lemma AllocParent(s: State, t: State, p: nat, k: nat)
    requires ParentInv(s) && p < |s.procs| && k < |s.procs| && s.procs[p].state == RUNNING && s.procs[k].state == UNUSED
    requires s.procs[k].parent.None? && AllocDone(s, t, p, k)
    ensures ParentInv(t)
  {
    forall q: nat | q < |t.procs| && t.procs[q].parent.Some?
      ensures ParentOk(t, q, t.procs[q].parent.value)
    {
      assert ParentOk(s, q, s.procs[q].parent.value);
    }
  }

  lemma AllocChild(s: State, t: State, p: nat, k: nat)
    requires ChildInv(s) && p < |s.procs| && k < |s.procs| && s.procs[p].state == RUNNING && s.procs[k].state == UNUSED
    requires s.procs[k].child.None? && AllocDone(s, t, p, k)
    ensures ChildInv(t)
  {
    forall q: nat | q < |t.procs| && q != p && t.procs[q].child.Some?
      ensures s.procs[q].child == t.procs[q].child && t.procs[q].child != Some(k)
    {
    }
  }

  lemma AllocHist(s: State, t: State, p: nat, k: nat)
    requires HistInv(s) && p < |s.procs| && k < |s.procs| && s.procs[p].state == RUNNING && s.procs[k].state == UNUSED
    requires AllocDone(s, t, p, k)
    ensures HistInv(t)
  {
    forall x | x in t.exits && x !in t.reaps
      ensures exists q: nat :: IsZombie(t, q, x)
    {
      var q: nat :| IsZombie(s, q, x);
      assert IsZombie(t, q, x);
    }
  }

  // ---- fork's unlocked steps ---------------------------------------------------------------------

  /** A process with a fork in progress, and the slot it is filling, which is on no CPU. */
  lemma Forking(s: State, c: nat, p: nat)
    requires Inv(s) && c < |s.cpus| && s.cpus[c].run == Some(p) && p < |s.procs| && s.procs[p].pc == Idle
             && s.procs[p].child.Some?
    ensures var q := s.procs[p].child.value;
      && q < |s.procs| && q != p && s.procs[q].state == EMBRYO && s.procs[q].pc == Fork0 && s.procs[q].on != Some(c)
      && s.procs[q].child.None? && s.procs[q].other == 0
    ensures s.procs[p].state == RUNNING && CpuInv(s, c) && ProcInv(s, p) && s.cpus[c].proc == Some(p)
    ensures forall r: nat :: r < |s.procs| ==> (s.procs[r].on == Some(c) <==> r == p)
    ensures forall r: nat :: r < |s.procs| ==> StatePc(s.procs[r], r)
  {
    var q := s.procs[p].child.value;
    assert CpuInv(s, c) && ProcInv(s, p) && ProcInv(s, q);
    forall r: nat | r < |s.procs|
      ensures (s.procs[r].on == Some(c) <==> r == p) && StatePc(s.procs[r], r)
    {
      assert ProcInv(s, r);
    }
  }

  /** An EMBRYO slot being filled is on no CPU. */
  lemma EmbryoIsOff(s: State, q: nat)
    requires Inv(s) && q < |s.procs| && s.procs[q].state == EMBRYO
    ensures s.procs[q].on.None?
  {
    assert ProcInv(s, q);
    if s.procs[q].on.Some? {
      CpuHolds(s, s.procs[q].on.value);
    }
  }

  lemma StepForkParent(s: State, c: nat)
    requires Inv(s) && Enabled(s, c, ForkParent)
    ensures Inv(Do(s, c, ForkParent))
  {
    hide TableInv, WaitInv, LockInv, CpuInv, ProcInv, Local, LockMove;
    var p := s.cpus[c].run.value;
    Forking(s, c, p);
    var q := s.procs[p].child.value;
    var t := Do(s, c, ForkParent);
    ForkParentTable(s, t, p, q);
    ForkLocal(s, t, c, p, q);
    Assemble(s, t, c);
  }

  /** Fork's unlocked steps touch only the forking process and its EMBRYO child. */
  lemma ForkLocal(s: State, t: State, c: nat, p: nat, q: nat)
    requires Inv(s) && c < |s.cpus| && s.cpus[c].run == Some(p) && p < |s.procs| && s.procs[p].pc == Idle
             && s.procs[p].child == Some(q)
    requires q < |s.procs| && p != q && |t.procs| == |s.procs|
    requires t == s.(procs := s.procs[q := t.procs[q]][p := s.procs[p].(child := t.procs[p].child)])
    requires t.procs[q] == s.procs[q].(state := t.procs[q].state, pc := t.procs[q].pc, parent := t.procs[q].parent,
        ppid := t.procs[q].ppid)
    requires StatePc(t.procs[q], q) && t.procs[q].state != RUNNING && (t.procs[q].pc.Fork0? || t.procs[q].pc.Dead?)
    ensures Local(s, t, c) && LockMove(s, t, c) && CpuInv(t, c) && ProcInv(t, p)
    ensures forall r: nat :: r < |s.procs| && s.procs[r].on != Some(c) && t.procs[r].on != Some(c) ==>
              StatePc(t.procs[r], r)
    ensures forall r: nat :: r < |s.procs| && (s.procs[r].on == Some(c) || t.procs[r].on == Some(c)) ==> r == p
  {
    hide TableInv, WaitInv;
    Forking(s, c, p);
    EmbryoIsOff(s, q);
  }

  lemma ForkParentTable(s: State, t: State, p: nat, q: nat)
    requires WaitInv(s) && TableInv(s) && p < |s.procs| && q < |s.procs| && p != q
    requires s.procs[p].child == Some(q) && s.procs[p].state == RUNNING && s.procs[q].state == EMBRYO
    requires t == s.(procs := s.procs[q := s.procs[q].(parent := Some(p), ppid := s.procs[p].pid)])
    ensures WaitInv(t) && TableInv(t)
  {
    hide PidInv, HistInv, ChildInv, ParentInv, WaitInv;
    ForkParentParents(s, t, p, q);
    SameZombies(s, t);
    SameHist(s, t);
    SamePids(s, t);
    SameChildren(s, t);
  }

  /** Waiters are fine as long as no zombie appears or moves. */
  lemma SameZombies(s: State, t: State)
    requires WaitInv(s) && |s.procs| == |t.procs|
    requires forall q: nat :: q < |s.procs| ==>
      (InWait(t.procs[q]) ==> InWait(s.procs[q]))
      && (t.procs[q].state == ZOMBIE ==> s.procs[q].state == ZOMBIE && s.procs[q].parent == t.procs[q].parent)
    ensures WaitInv(t)
  {
    forall r: nat | r < |t.procs| && InWait(t.procs[r])
      ensures !HasZombieChild(t.procs, r)
    {
      assert !HasZombieChild(s.procs, r);
    }
  }

  lemma ForkParentParents(s: State, t: State, p: nat, q: nat)
    requires ParentInv(s) && p < |s.procs| && q < |s.procs| && p != q
    requires s.procs[p].state == RUNNING && s.procs[q].state == EMBRYO
    requires t == s.(procs := s.procs[q := s.procs[q].(parent := Some(p), ppid := s.procs[p].pid)])
    ensures ParentInv(t)
  {
    forall r: nat | r < |t.procs| && t.procs[r].parent.Some?
      ensures ParentOk(t, r, t.procs[r].parent.value)
    {
      assert r != q ==> ParentOk(s, r, s.procs[r].parent.value);
    }
  }

  lemma SamePids(s: State, t: State)
    requires PidInv(s) && |s.procs| == |t.procs| && s.nextpid == t.nextpid
    requires forall p: nat :: p < |s.procs| ==>
               s.procs[p].pid == t.procs[p].pid && (t.procs[p].state != UNUSED ==> s.procs[p].state != UNUSED)
    ensures PidInv(t)
  {
  }

  lemma SameChildren(s: State, t: State)
    requires ChildInv(s) && |s.procs| == |t.procs|
    requires forall p: nat :: p < |s.procs| && t.procs[p].child.Some? ==>
      t.procs[p].child == s.procs[p].child && (Live(s.procs[p]) ==> Live(t.procs[p]))
    requires forall p: nat, q: nat ::
      p < |s.procs| && q < |s.procs| && t.procs[p].child == Some(q) && s.procs[q].state == EMBRYO ==>
        t.procs[q].state == EMBRYO
    ensures ChildInv(t)
  {
  }

  /** The record of exits depends only on which pids are zombies, live or unused. */
  lemma SameHist(s: State, t: State)
    requires HistInv(s) && |s.procs| == |t.procs| && s.exits == t.exits && s.reaps == t.reaps && s.nextpid == t.nextpid
    requires forall p: nat :: p < |s.procs| ==>
      s.procs[p].pid == t.procs[p].pid && (s.procs[p].state == ZOMBIE <==> t.procs[p].state == ZOMBIE)
      && (t.procs[p].state != UNUSED ==> s.procs[p].state != UNUSED)
    ensures HistInv(t)
  {
    forall x | x in t.exits && x !in t.reaps
      ensures exists p: nat :: IsZombie(t, p, x)
    {
      var p: nat :| IsZombie(s, p, x);
      assert IsZombie(t, p, x);
    }
  }

  lemma StepForkRun(s: State, c: nat)
    requires Inv(s) && Enabled(s, c, ForkRun)
    ensures Inv(Do(s, c, ForkRun))
  {
    hide TableInv, WaitInv, LockInv, CpuInv, ProcInv, Local, LockMove;
    var p := s.cpus[c].run.value;
    Forking(s, c, p);
    var q := s.procs[p].child.value;
    var t := Do(s, c, ForkRun);
    ForkEndTable(s, t, p, q, s.procs[q].(state := RUNNABLE));
    ForkLocal(s, t, c, p, q);
    Assemble(s, t, c);
  }

  lemma StepForkFail(s: State, c: nat)
    requires Inv(s) && Enabled(s, c, ForkFail)
    ensures Inv(Do(s, c, ForkFail))
  {
    hide TableInv, WaitInv, LockInv, CpuInv, ProcInv, Local, LockMove;
    var p := s.cpus[c].run.value;
    Forking(s, c, p);
    var q := s.procs[p].child.value;
    var t := Do(s, c, ForkFail);
    ForkEndTable(s, t, p, q, s.procs[q].(state := UNUSED, pc := Dead));
    ForkLocal(s, t, c, p, q);
    Assemble(s, t, c);
  }

  /** The forking process is done with its child's slot, which becomes RUNNABLE or UNUSED. */
  lemma ForkEndTable(s: State, t: State, p: nat, q: nat, x: Proc)
    requires WaitInv(s) && TableInv(s) && p < |s.procs| && q < |s.procs| && p != q
    requires s.procs[p].child == Some(q) && s.procs[p].state == RUNNING && s.procs[q].state == EMBRYO
             && s.procs[q].child.None?
    requires x == s.procs[q].(state := x.state, pc := x.pc)
    requires (x.state == RUNNABLE && x.parent.Some? && x.pc == Fork0) || (x.state == UNUSED && x.parent.None?)
    requires t == s.(procs := s.procs[q := x][p := s.procs[p].(child := None)])
    ensures WaitInv(t) && TableInv(t)
  {
    ForkEndParents(s, t, p, q, x);
    ForkEndWait(s, t, p, q, x);
    hide PidInv, HistInv, ChildInv, ParentInv, WaitInv;
    SameHist(s, t);
    SamePids(s, t);
    ForkEndChildren(s, t, p, q, x);
  }

  lemma ForkEndWait(s: State, t: State, p: nat, q: nat, x: Proc)
    requires WaitInv(s) && p < |s.procs| && q < |s.procs| && p != q
    requires s.procs[q].state == EMBRYO && x == s.procs[q].(state := x.state, pc := x.pc)
    requires x.state != ZOMBIE && !InWait(x)
    requires t == s.(procs := s.procs[q := x][p := s.procs[p].(child := None)])
    ensures WaitInv(t)
  {
    forall r: nat | r < |t.procs| && InWait(t.procs[r])
      ensures !HasZombieChild(t.procs, r)
    {
      assert !HasZombieChild(s.procs, r);
    }
  }

  lemma ForkEndParents(s: State, t: State, p: nat, q: nat, x: Proc)
    requires ParentInv(s) && p < |s.procs| && q < |s.procs| && p != q
    requires s.procs[p].state == RUNNING && s.procs[q].state == EMBRYO
    requires x == s.procs[q].(state := x.state, pc := x.pc)
    requires (x.state == RUNNABLE && x.parent.Some? && x.pc == Fork0) || (x.state == UNUSED && x.parent.None?)
    requires t == s.(procs := s.procs[q := x][p := s.procs[p].(child := None)])
    ensures ParentInv(t)
  {
    forall r: nat | r < |t.procs| && t.procs[r].parent.Some?
      ensures ParentOk(t, r, t.procs[r].parent.value)
    {
      assert ParentOk(s, r, s.procs[r].parent.value);
    }
  }

  lemma ForkEndChildren(s: State, t: State, p: nat, q: nat, x: Proc)
    requires ChildInv(s) && p < |s.procs| && q < |s.procs| && p != q
    requires s.procs[p].child == Some(q) && s.procs[q].child.None? && x.child.None?
    requires t.procs == s.procs[q := x][p := s.procs[p].(child := None)]
    ensures ChildInv(t)
  {
    forall r: nat | r < |t.procs| && t.procs[r].child.Some?
      ensures r != p && t.procs[r] == s.procs[r] && t.procs[r].child != Some(q)
    {
    }
  }

  // ---- exit ------------------------------------------------------------------------------------------

  /** What exit's critical section does to another process's slot. */
  lemma ExitSlot(ps: seq<Proc>, p: nat, init: nat, q: nat)
    requires p < |ps| && q < |ps|
    ensures var r := ExitTable(ps, p, init)[q];
      && r == ps[q].(state := r.state, parent := r.parent)
      && r.parent == (if ps[q].parent == Some(p) then Some(init) else ps[q].parent)
      && (q == p ==> r.state == ZOMBIE)
      && (q != p ==> r.state == ps[q].state || (ps[q].state == SLEEPING && r.state == RUNNABLE))
      && (q != p && ps[q].state == SLEEPING && ps[q].chan == ParentChan(ps[p]) ==> r.state == RUNNABLE)
  {
    var w := WakeAll(ps, ParentChan(ps[p]));
    var a := Reparent(w, p, init);
    assert w[q] == Woken(ps[q], ParentChan(ps[p])) && a[q] == Adopt(w[q], p, init);
    var z := if HasZombieChild(w, p) then WakeAll(a, ProcChan(init)) else a;
    assert z[q] == a[q] || z[q] == Woken(a[q], ProcChan(init));
  }

  /** If a zombie is handed to init, init is not left asleep in wait. */
  lemma ExitWakesInit(ps: seq<Proc>, p: nat, init: nat, q: nat)
    requires p < |ps| && q < |ps| && init < |ps| && init != p
    requires ps[q].parent == Some(p) && ps[q].state == ZOMBIE
    requires ps[init].chan == ProcChan(init)
    ensures ExitTable(ps, p, init)[init].state != SLEEPING
  {
    var w := WakeAll(ps, ParentChan(ps[p]));
    assert w[q] == Woken(ps[q], ParentChan(ps[p]));
    assert HasZombieChild(w, p);
    var a := Reparent(w, p, init);
    assert WakeAll(a, ProcChan(init))[init] == Woken(a[init], ProcChan(init));
    assert a[init] == Adopt(w[init], p, init) && w[init] == Woken(ps[init], ParentChan(ps[p]));
  }

  lemma StepExit(s: State, c: nat)
    requires Inv(s) && Enabled(s, c, Body) && CurPc(s, c) == In(JExit)
    ensures Inv(Do(s, c, Body))
  {
    hide TableInv, WaitInv, LockInv, CpuInv, ProcInv, Local, LockMove, ExitTable;
    InBody(s, c);
    var p := s.cpus[c].run.value;
    NotInit(s, p);
    var ps := s.procs[p := s.procs[p].(pc := Sw(JExit))];
    var t := Do(s, c, Body);
    assert t == s.(procs := ExitTable(ps, p, s.init), exits := s.exits + {s.procs[p].pid});
    ExitLocal(s, t, c, p);
    StatePcs(s);
    ExitWait(s, t, p);
    ExitKeepsTable(s, t, p);
    Assemble(s, t, c);
  }

  lemma NotInit(s: State, p: nat)
    requires p < |s.procs| && ProcInv(s, p) && s.procs[p].pc == In(JExit)
    ensures p != s.init
  {
  }

  ghost predicate ExitDone(s: State, t: State, p: nat)
    requires p < |s.procs|
  {
    t == s.(procs := ExitTable(s.procs[p := s.procs[p].(pc := Sw(JExit))], p, s.init),
        exits := s.exits + {s.procs[p].pid})
  }

  lemma ExitLocal(s: State, t: State, c: nat, p: nat)
    requires Inv(s) && c < |s.cpus| && CurPc(s, c) == In(JExit) && s.cpus[c].run == Some(p) && p < |s.procs|
             && ExitDone(s, t, p)
    ensures Local(s, t, c) && LockMove(s, t, c) && CpuInv(t, c) && ProcInv(t, p)
    ensures forall q: nat :: q < |s.procs| && s.procs[q].on != Some(c) && t.procs[q].on != Some(c) ==>
              StatePc(t.procs[q], q)
    ensures forall q: nat :: q < |s.procs| && (s.procs[q].on == Some(c) || t.procs[q].on == Some(c)) ==> q == p
  {
    hide TableInv, WaitInv, LockInv, ExitTable;
    InBody(s, c);
    StatePcs(s);
    var ps := s.procs[p := s.procs[p].(pc := Sw(JExit))];
    forall q: nat | q < |s.procs|
      ensures t.procs[q] == ps[q].(state := t.procs[q].state, parent := t.procs[q].parent)
      ensures q == p ==> t.procs[q].state == ZOMBIE
      ensures q != p ==> SameContext(s.procs[q], t.procs[q]) && StatePc(t.procs[q], q)
    {
      ExitSlot(ps, p, s.init, q);
    }
  }

  lemma ExitWait(s: State, t: State, p: nat)
    requires WaitInv(s) && TableInv(s) && p < |s.procs| && p != s.init && s.procs[p].state == RUNNING
             && ExitDone(s, t, p)
    requires forall q: nat :: q < |s.procs| ==> StatePc(s.procs[q], q)
    ensures WaitInv(t)
  {
    hide ExitTable;
    var ps := s.procs[p := s.procs[p].(pc := Sw(JExit))];
    forall r: nat, q: nat | r < |t.procs| && q < |t.procs| && InWait(t.procs[r]) && t.procs[q].parent == Some(r)
      ensures t.procs[q].state != ZOMBIE
    {
      ExitSlot(ps, p, s.init, r);
      ExitSlot(ps, p, s.init, q);
      assert !HasZombieChild(s.procs, r);
      assert s.procs[r].chan == ProcChan(r) by { assert StatePc(s.procs[r], r); }
      if q != p && s.procs[q].parent == Some(p) && s.procs[q].state == ZOMBIE {
        ExitWakesInit(ps, p, s.init, q);
      }
    }
  }

  lemma ExitKeepsTable(s: State, t: State, p: nat)
    requires TableInv(s) && p < |s.procs| && p != s.init && s.procs[p].state == RUNNING && s.procs[p].child.None?
             && ExitDone(s, t, p)
    ensures TableInv(t)
  {
    hide PidInv, ParentInv, ChildInv, HistInv, ExitTable;
    var ps := s.procs[p := s.procs[p].(pc := Sw(JExit))];
    forall q: nat | q < |s.procs|
      ensures ExitedSlot(s, t, p, q)
      ensures t.procs[q].pid == s.procs[q].pid && (t.procs[q].state != UNUSED ==> s.procs[q].state != UNUSED)
    {
      ExitSlot(ps, p, s.init, q);
    }
    SamePids(s, t);
    ExitParents(s, t, p);
    ExitChildren(s, t, p);
    ExitHist(s, t, p);
  }

  /** Slot q after exit of p. */
  predicate ExitedSlot(s: State, t: State, p: nat, q: nat)
    requires q < |s.procs| && |t.procs| == |s.procs|
  {
    var a, b := s.procs[q], t.procs[q];
    && a.pid == b.pid && a.child == b.child && a.ppid == b.ppid
    && b.parent == (if a.parent == Some(p) then Some(s.init) else a.parent)
    && (if q == p then b.state == ZOMBIE else (a.state == b.state || (Live(a) && Live(b))))
  }

  lemma ExitParents(s: State, t: State, p: nat)
    requires ParentInv(s) && p < |s.procs| && p != s.init && s.procs[p].state == RUNNING
    requires |t.procs| == |s.procs| && t.init == s.init && forall q: nat :: q < |s.procs| ==> ExitedSlot(s, t, p, q)
    ensures ParentInv(t)
  {
    forall q: nat | q < |t.procs| && t.procs[q].parent.Some?
      ensures ParentOk(t, q, t.procs[q].parent.value)
    {
      assert ExitedSlot(s, t, p, q);
      assert ParentOk(s, q, s.procs[q].parent.value);
      assert ExitedSlot(s, t, p, t.procs[q].parent.value);
    }
    assert ExitedSlot(s, t, p, s.init);
    forall q: nat | q < |t.procs| && q != t.init && (Live(t.procs[q]) || t.procs[q].state == ZOMBIE)
      ensures t.procs[q].parent.Some?
    {
      assert ExitedSlot(s, t, p, q);
    }
  }

  lemma ExitChildren(s: State, t: State, p: nat)
    requires ChildInv(s) && p < |s.procs| && s.procs[p].state == RUNNING && s.procs[p].child.None?
    requires |t.procs| == |s.procs| && forall q: nat :: q < |s.procs| ==> ExitedSlot(s, t, p, q)
    ensures ChildInv(t)
  {
    forall q: nat | q < |t.procs| && t.procs[q].child.Some?
      ensures t.procs[q].child == s.procs[q].child && Live(t.procs[q])
      ensures t.procs[q].child.value < |t.procs| && t.procs[t.procs[q].child.value].state == EMBRYO
    {
      assert ExitedSlot(s, t, p, q);
      assert ExitedSlot(s, t, p, s.procs[q].child.value);
    }
  }

  lemma ExitHist(s: State, t: State, p: nat)
    requires HistInv(s) && PidInv(s) && p < |s.procs| && s.procs[p].state == RUNNING
    requires |t.procs| == |s.procs| && forall q: nat :: q < |s.procs| ==> ExitedSlot(s, t, p, q)
    requires t.exits == s.exits + {s.procs[p].pid} && t.reaps == s.reaps && t.nextpid == s.nextpid
    ensures HistInv(t)
  {
    var n := s.procs[p].pid;
    assert n !in s.exits && n !in s.reaps;
    forall q: nat | q < |t.procs| && t.procs[q].state != UNUSED
      ensures t.procs[q].pid in t.exits <==> t.procs[q].state == ZOMBIE
      ensures t.procs[q].state == ZOMBIE ==> t.procs[q].pid !in t.reaps
    {
      assert ExitedSlot(s, t, p, q);
      assert q != p ==> s.procs[q].pid != n;
    }
    forall x | x in t.exits && x !in t.reaps
      ensures exists q: nat :: IsZombie(t, q, x)
    {
      if x == n {
        assert ExitedSlot(s, t, p, p);
        assert IsZombie(t, p, x);
      } else {
        var q: nat :| IsZombie(s, q, x);
        assert ExitedSlot(s, t, p, q);
        assert IsZombie(t, q, x);
      }
    }
  }
}
