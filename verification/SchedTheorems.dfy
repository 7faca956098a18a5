/**
 What holds in every reachable state of the scheduling protocol.
 */
module SchedTheorems {
  import opened Sched
  import opened Options
  import opened SchedInv
  import opened SchedFrame
  import opened SchedSteps
  import opened SchedBodies

  // ---- Runs ------------------------------------------------------------------------------

  /** Boot: every CPU in its scheduler; one process, init, ready to run; all other slots UNUSED. */
  ghost predicate Boot(s: State) {
    && s.init < |s.procs| && s.nextpid == 2 && s.exits == {} && s.reaps == [] && !s.locked && s.holder.None?
    && (forall c: nat :: c < |s.cpus| ==> s.cpus[c] == Cpu(0, false, s.cpus[c].iflag, None, None, Idle, 0))
    && (forall p: nat :: p < |s.procs| ==> BootSlot(s.procs[p], p == s.init))
  }

  /** The table is zero but for init's slot. */
  predicate BootSlot(p: Proc, isInit: bool) {
    && p.on.None? && p.child.None? && p.other == 0 && p.parent.None? && !p.killed
    && (if isInit then p.state == RUNNABLE && p.pc == Fork0 && p.pid == 1
        else p.state == UNUSED && p.pc == Dead && p.pid == 0)
  }

  lemma BootInv(s: State)
    requires Boot(s)
    ensures Inv(s)
  {
    forall c: nat | c < |s.cpus|
      ensures CpuInv(s, c) && !Holding(CurPc(s, c))
    {
    }
    forall p: nat | p < |s.procs|
      ensures ProcInv(s, p)
    {
    }
  }

  lemma StepKeepsInv(s: State, c: nat, t: Step)
    requires Inv(s) && Enabled(s, c, t)
    ensures Inv(Do(s, c, t))
  {
    hide Inv;
    match t
    case Begin(j) => StepBegin(s, c, j);
    case Xchg => StepXchg(s, c);
    case Record => StepRecord(s, c);
    case Body => StepBody(s, c);
    case SwitchOut => StepSwitchOut(s, c);
    case Resume => StepResume(s, c);
    case Forkret => StepForkret(s, c);
    case Unrecord => StepUnrecord(s, c);
    case Unlock => StepUnlock(s, c);
    case PopCli => StepPopCli(s, c);
    case ScanSlot => StepScan(s, c);
    case SwitchIn => StepSwitchIn(s, c);
    case SwitchBack => StepSwitchBack(s, c);
    case LockOther => StepLockOther(s, c);
    case UnlockOther => StepUnlockOther(s, c);
    case SetIF(on) => StepSetIF(s, c, on);
    case ForkParent => StepForkParent(s, c);
    case ForkRun => StepForkRun(s, c);
    case ForkFail => StepForkFail(s, c);
  }

  lemma StepBody(s: State, c: nat)
    requires Inv(s) && Enabled(s, c, Body)
    ensures Inv(Do(s, c, Body))
  {
    InBody(s, c);
    hide Inv;
    match CurPc(s, c).j
    case JWakeup(ch) => StepWakeup(s, c, ch);
    case JKill(n) => StepKill(s, c, n);
    case JYield => StepYield(s, c);
    case JSleep(ch) => StepSleep(s, c, ch);
    case JWait =>
      if FindZombie(s.procs, s.cpus[c].run.value, 0) < |s.procs| {
        StepReap(s, c);
      } else {
        StepWaitNone(s, c);
      }
    case JExit => StepExit(s, c);
    case JAlloc => StepAlloc(s, c);
  }

  /** CPU c takes step t from a to b. */
  ghost predicate Takes(a: State, b: State, c: nat, t: Step) {
    Enabled(a, c, t) && b == Do(a, c, t)
  }

  ghost predicate Next(a: State, b: State) {
    exists c: nat, st: Step :: Takes(a, b, c, st)
  }

  /** A run: any interleaving of any CPUs' steps. */
  ghost predicate Run(ss: seq<State>) {
    && |ss| > 0 && Boot(ss[0])
    && forall i: nat :: i + 1 < |ss| ==> Next(ss[i], ss[i + 1])
  }

  lemma {:induction false} RunInv(ss: seq<State>, i: nat)
    requires Run(ss) && i < |ss|
    ensures Inv(ss[i])
  {
    hide Inv, Next, Boot;
    if i == 0 {
      BootInv(ss[0]);
    } else {
      RunInv(ss, i - 1);
      assert Next(ss[i - 1], ss[i - 1 + 1]);
      NextKeepsInv(ss[i - 1], ss[i]);
    }
  }

  lemma NextKeepsInv(a: State, b: State)
    requires Inv(a) && Next(a, b)
    ensures Inv(b)
  {
    hide Inv, Enabled, Do;
    var c: nat, st: Step :| Takes(a, b, c, st);
    StepKeepsInv(a, c, st);
  }

  // ---- Scheduling ----------------------------------------------------------------------------

  /** Each RUNNING process is current on exactly one CPU. */
  lemma RunningOnExactlyOneCpu(ss: seq<State>, i: nat, p: nat)
    requires Run(ss) && i < |ss| && p < |ss[i].procs| && ss[i].procs[p].state == RUNNING
    ensures exists c: nat :: c < |ss[i].cpus| && ss[i].cpus[c].proc == Some(p)
    ensures forall c: nat, d: nat ::
              c < |ss[i].cpus| && d < |ss[i].cpus| && ss[i].cpus[c].proc == ss[i].cpus[d].proc == Some(p) ==> c == d
  {
    RunInv(ss, i);
    var s := ss[i];
    assert ProcInv(s, p);
    var c := s.procs[p].on.value;
    assert s.cpus[c].proc == Some(p);
    forall d: nat | d < |s.cpus| && s.cpus[d].proc == Some(p)
      ensures d == c
    {
      CpuHolds(s, d);
    }
  }

  /**
   ptable.lock is held across every context switch, recorded as held by the
   switching CPU, with exactly one pushcli outstanding and interrupts off: all
   of sched's panics are unreachable, and so is the scheduler's.
   */
  lemma LockHeldAcrossSwitch(ss: seq<State>, i: nat, c: nat, t: Step)
    requires Run(ss) && i < |ss| && Enabled(ss[i], c, t) && (t == SwitchOut || t == SwitchIn || t == SwitchBack)
    ensures ss[i].locked && ss[i].holder == Some(c)
    ensures ss[i].cpus[c].ncli == 1 && !ss[i].cpus[c].iflag
    ensures t == SwitchOut ==> ss[i].procs[ss[i].cpus[c].run.value].state != RUNNING
    ensures Do(ss[i], c, t).locked && Do(ss[i], c, t).holder == Some(c)
  {
    RunInv(ss, i);
    HolderIs(ss[i], c);
    CpuHolds(ss[i], c);
    if t == SwitchOut {
      assert ProcInv(ss[i], ss[i].cpus[c].run.value);
    }
  }

  /**
   release never panics: whoever did the acquire, the releasing CPU is the one
   recorded in the lock; and popcli finds interrupts off and a pushcli to undo.
   */
  lemma ReleaseOnRecordedHolder(ss: seq<State>, i: nat, c: nat)
    requires Run(ss) && i < |ss|
    ensures Enabled(ss[i], c, Unrecord) ==> ss[i].locked && ss[i].holder == Some(c)
    ensures Enabled(ss[i], c, PopCli) || Enabled(ss[i], c, UnlockOther) ==>
              ss[i].cpus[c].ncli > 0 && !ss[i].cpus[c].iflag
  {
    RunInv(ss, i);
    if Enabled(ss[i], c, Unrecord) {
      HolderIs(ss[i], c);
    }
    if c < |ss[i].cpus| {
      CpuHolds(ss[i], c);
    }
  }

  /** acquire never panics: a CPU that starts an acquire does not hold the lock. */
  lemma AcquireNotHeld(ss: seq<State>, i: nat, c: nat, j: Job)
    requires Run(ss) && i < |ss| && Enabled(ss[i], c, Begin(j))
    ensures ss[i].holder != Some(c)
  {
    RunInv(ss, i);
  }

  /** At most one context is ever between its xchg and its release. */
  lemma MutualExclusion(ss: seq<State>, i: nat, c: nat, d: nat)
    requires Run(ss) && i < |ss| && HoldsLock(ss[i], c) && HoldsLock(ss[i], d)
    ensures c == d && ss[i].locked
  {
    RunInv(ss, i);
  }

  /** When a process leaves its last spinlock, interrupts are what they were when it took its first. */
  lemma InterruptsRestored(ss: seq<State>, i: nat, c: nat, t: Step)
    requires Run(ss) && i < |ss| && Enabled(ss[i], c, t) && (t == PopCli || t == UnlockOther)
    requires ss[i].cpus[c].run.Some? && ss[i].cpus[c].ncli == 1
    ensures Do(ss[i], c, t).cpus[c].ncli == 0
    ensures Do(ss[i], c, t).cpus[c].iflag == ss[i].procs[ss[i].cpus[c].run.value].want
  {
    RunInv(ss, i);
    CpuHolds(ss[i], c);
  }

  /** `want` is set only by the process's own outermost pushcli, or at its forkret. */
  lemma WantIsStable(s: State, c: nat, t: Step, p: nat)
    requires Enabled(s, c, t) && p < |s.procs| && |Do(s, c, t).procs| == |s.procs|
    requires Do(s, c, t).procs[p].want != s.procs[p].want
    ensures s.cpus[c].run == Some(p)
    ensures t == Forkret
            || ((t.Begin? || t == LockOther) && s.cpus[c].ncli == 0
            && Do(s, c, t).procs[p].want == s.cpus[c].iflag)
  {
    hide Enabled, Do;
    if t == Body {
      BodyKeepsTable(s, c, p);
    } else {
      OthersSetWant(s, c, t, p);
    }
  }

  lemma OthersSetWant(s: State, c: nat, t: Step, p: nat)
    requires Enabled(s, c, t) && t != Body && p < |s.procs| && |Do(s, c, t).procs| == |s.procs|
    requires Do(s, c, t).procs[p].want != s.procs[p].want
    ensures s.cpus[c].run == Some(p)
    ensures t == Forkret
            || ((t.Begin? || t == LockOther) && s.cpus[c].ncli == 0
            && Do(s, c, t).procs[p].want == s.cpus[c].iflag)
  {
    if t.Begin? || t == LockOther {
      hide DoBody, ProcessBody, DoScan, DoResume;
    } else if t != Forkret {
      hide Enabled, Do;
      QuietStep(s, c, t, p);
    } else {
      hide DoBody, ProcessBody, DoScan, DoResume;
    }
  }

  /** The steps other than pushcli and forkret leave `want` alone. */
  lemma QuietStep(s: State, c: nat, t: Step, p: nat)
    requires Enabled(s, c, t) && t != Body && !t.Begin? && t != LockOther && t != Forkret && p < |s.procs|
    ensures |Do(s, c, t).procs| == |s.procs| ==> Do(s, c, t).procs[p].want == s.procs[p].want
  {
    hide DoBody, ProcessBody, DoScan, DoResume;
    if t == ScanSlot {
      ScanKeepsWant(s, c, p);
    } else if t == Resume {
      ResumeKeepsWant(s, c, s.cpus[c].run.value, p);
    }
  }

  lemma ScanKeepsWant(s: State, c: nat, p: nat)
    requires c < |s.cpus| && s.cpus[c].spc.InScan? && p < |s.procs|
    ensures |DoScan(s, c).procs| == |s.procs| && DoScan(s, c).procs[p].want == s.procs[p].want
  {
  }

  lemma ResumeKeepsWant(s: State, c: nat, q: nat, p: nat)
    requires c < |s.cpus| && q < |s.procs| && s.procs[q].pc.Off? && p < |s.procs|
    ensures |DoResume(s, c, q).procs| == |s.procs| && DoResume(s, c, q).procs[p].want == s.procs[p].want
  {
  }

  /** No critical section of proc.c touches a slot's `want`, and only wait's extends `reaps`. */
  lemma BodyKeepsTable(s: State, c: nat, p: nat)
    requires Enabled(s, c, Body) && p < |s.procs|
    ensures p < |Do(s, c, Body).procs| && Do(s, c, Body).procs[p].want == s.procs[p].want
    ensures Do(s, c, Body).reaps != s.reaps ==> CurPc(s, c).j == JWait && s.cpus[c].run.Some?
  {
    var j := CurPc(s, c).j;
    if s.cpus[c].run.Some? && !j.JWakeup? && !j.JKill? {
      ProcessBodyKeeps(s, c, s.cpus[c].run.value, j, p);
    }
  }

  lemma ProcessBodyKeeps(s: State, c: nat, q: nat, j: Job, p: nat)
    requires c < |s.cpus| && q < |s.procs| && p < |s.procs|
    ensures var t := ProcessBody(s, c, q, j);
      |t.procs| == |s.procs| && t.procs[p].want == s.procs[p].want && (t.reaps != s.reaps ==> j == JWait)
  {
    match j
    case JExit => ExitSlot(s.procs[q := s.procs[q].(pc := Sw(JExit))], q, s.init, p);
    case JWait => WaitKeepsWant(s, q, p);
      hide DoWait;
    case JAlloc => AllocKeepsWant(s, q, p);
      hide DoAlloc;
    case JSleep(ch) => SleepKeepsWant(s, c, q, ch, p);
      hide DoSleep;
    case _ =>
  }

  lemma WaitKeepsWant(s: State, q: nat, p: nat)
    requires q < |s.procs| && p < |s.procs|
    ensures |DoWait(s, q).procs| == |s.procs| && DoWait(s, q).procs[p].want == s.procs[p].want
  {
  }

  lemma AllocKeepsWant(s: State, q: nat, p: nat)
    requires q < |s.procs| && p < |s.procs|
    ensures var t := DoAlloc(s, q);
            |t.procs| == |s.procs| && t.procs[p].want == s.procs[p].want && t.reaps == s.reaps
  {
  }

  lemma SleepKeepsWant(s: State, c: nat, q: nat, ch: Chan, p: nat)
    requires c < |s.cpus| && q < |s.procs| && p < |s.procs|
    ensures var t := DoSleep(s, c, q, ch);
            |t.procs| == |s.procs| && t.procs[p].want == s.procs[p].want && t.reaps == s.reaps
  {
  }

  // ---- Waiting, exiting, reaping ---------------------------------------------------------------

  /** No process sleeps in wait while it has a zombie child. */
  lemma NoSleepOverZombie(ss: seq<State>, i: nat, p: nat, q: nat)
    requires Run(ss) && i < |ss| && p < |ss[i].procs| && q < |ss[i].procs|
    requires ss[i].procs[q].parent == Some(p) && ss[i].procs[q].state == ZOMBIE
    ensures !(ss[i].procs[p].state == SLEEPING && (ss[i].procs[p].pc == Off(JWait) || ss[i].procs[p].pc == Sw(JWait)))
  {
    RunInv(ss, i);
    assert HasZombieChild(ss[i].procs, p);
  }

  /**
   Exactly-once reaping: no pid is reaped twice, only exited pids are reaped,
   and an exited pid not yet reaped is the pid of exactly one zombie, whose
   parent is live and is init or the process that forked it.
   */
  lemma ReapedExactlyOnce(ss: seq<State>, i: nat)
    requires Run(ss) && i < |ss|
    ensures forall j: nat, k: nat :: j < k < |ss[i].reaps| ==> ss[i].reaps[j] != ss[i].reaps[k]
    ensures forall x :: x in ss[i].reaps ==> x in ss[i].exits
    ensures forall x :: x in ss[i].exits && x !in ss[i].reaps ==> exists p: nat :: IsZombie(ss[i], p, x)
    ensures forall p: nat, q: nat, x :: IsZombie(ss[i], p, x) && IsZombie(ss[i], q, x) ==> p == q
    ensures forall p: nat :: p < |ss[i].procs| && ss[i].procs[p].state == ZOMBIE ==>
      ss[i].procs[p].pid in ss[i].exits && ss[i].procs[p].pid !in ss[i].reaps && ZombieParent(ss[i], p)
  {
    RunInv(ss, i);
    var s := ss[i];
    assert PidInv(s) && HistInv(s) && ParentInv(s);
    forall p: nat | p < |s.procs| && s.procs[p].state == ZOMBIE
      ensures ZombieParent(s, p)
    {
      assert ParentOk(s, p, s.procs[p].parent.value);
    }
  }

  ghost predicate ZombieParent(s: State, p: nat)
    requires p < |s.procs|
  {
    s.procs[p].parent.Some? && ParentOk(s, p, s.procs[p].parent.value)
  }

  /** Reaping is done by the zombie's parent, and the zombie's kernel stack is on no CPU. */
  lemma ReapIsByParent(ss: seq<State>, i: nat, c: nat)
    requires Run(ss) && i < |ss| && Enabled(ss[i], c, Body) && Do(ss[i], c, Body).reaps != ss[i].reaps
    ensures exists k: nat :: ReapedBy(ss[i], Do(ss[i], c, Body), c, k)
  {
    RunInv(ss, i);
    var s := ss[i];
    InBody(s, c);
    if s.cpus[c].run.Some? {
      BodyKeepsTable(s, c, s.cpus[c].run.value);
    }
    ReapInWait(s, c);
  }

  /** The step from s to t reaps slot k, a zombie child of the process on CPU c, itself on no CPU. */
  ghost predicate ReapedBy(s: State, t: State, c: nat, k: nat)
    requires c < |s.cpus|
  {
    && s.cpus[c].run.Some? && k < |s.procs| && |t.procs| == |s.procs|
    && s.procs[k].state == ZOMBIE && s.procs[k].parent == s.cpus[c].run && s.procs[k].on.None?
    && t.procs[k].state == UNUSED && t.reaps == s.reaps + [s.procs[k].pid]
  }

  lemma ReapInWait(s: State, c: nat)
    requires Inv(s) && Enabled(s, c, Body) && CurPc(s, c).j == JWait && s.cpus[c].run.Some?
    requires Do(s, c, Body).reaps != s.reaps
    ensures exists k: nat :: ReapedBy(s, Do(s, c, Body), c, k)
  {
    hide Inv;
    InBody(s, c);
    var p := s.cpus[c].run.value;
    var k := FindZombie(s.procs, p, 0);
    assert HoldsLock(s, c);
    DeadIsOff(s, c, k);
    assert ReapedBy(s, Do(s, c, Body), c, k);
  }

  /** Pids of slots in use are distinct and below nextpid. */
  lemma PidsDistinct(ss: seq<State>, i: nat, p: nat, q: nat)
    requires Run(ss) && i < |ss| && p < |ss[i].procs| && q < |ss[i].procs| && p != q
    requires ss[i].procs[p].state != UNUSED && ss[i].procs[q].state != UNUSED
    ensures ss[i].procs[p].pid != ss[i].procs[q].pid && 0 < ss[i].procs[p].pid < ss[i].nextpid
  {
    RunInv(ss, i);
    assert PidInv(ss[i]);
    if q < p {
      assert ss[i].procs[q].pid != ss[i].procs[p].pid;
    }
  }
}
