/**
 The invariant of the scheduling protocol, in parts: who holds ptable.lock,
 what each CPU and each process is doing, parents and pids, and the record of
 exits and reaps.
 */
module SchedInv {
  import opened Sched
  import opened Options

  // ---- ptable.lock ------------------------------------------------------------------

  ghost predicate HoldsLock(s: State, c: nat) {
    c < |s.cpus| && Holding(CurPc(s, c))
  }

  /** Locked exactly while some executing context is past its xchg, and then by that one only. */
  ghost predicate LockInv(s: State) {
    && (forall c: nat :: HoldsLock(s, c) ==> s.locked)
    && (forall c: nat, d: nat :: HoldsLock(s, c) && HoldsLock(s, d) ==> c == d)
    && (s.locked ==> exists c: nat :: HoldsLock(s, c))
    && (forall c: nat :: c < |s.cpus| ==> (s.holder == Some(c) <==> Recorded(CurPc(s, c))))
  }

  // ---- CPUs ----------------------------------------------------------------------------

  predicate SchedulerPc(s: State, c: nat)
    requires c < |s.cpus|
  {
    var u := s.cpus[c];
    match u.spc
    case Idle => u.proc.None?
    case Spin(j) => u.proc.None? && SchedulerJob(j, u.sother)
    case Got(j) => u.proc.None? && SchedulerJob(j, u.sother)
    case In(j) => u.proc.None? && SchedulerJob(j, u.sother) && j != JScan
    case Rel(j) => u.proc.None? && SchedulerJob(j, u.sother)
    case Rel2(j) => u.proc.None? && SchedulerJob(j, u.sother)
    case Rel3(j) => u.proc.None? && SchedulerJob(j, u.sother)
    case InScan(i) => u.proc.None? && u.sother == 0 && i <= |s.procs|
    case Picked(i) => u.proc == Some(i) && u.sother == 0 && i < |s.procs|
      && s.procs[i].state == RUNNING && (s.procs[i].pc.Off? || s.procs[i].pc.Fork0?)
    case Out(i) => u.proc == Some(i) && u.sother == 0 && i < |s.procs|
      && s.procs[i].state != RUNNING && (s.procs[i].pc.Off? || s.procs[i].pc.Dead?)
    case _ => false
  }

  predicate SchedulerJob(j: Job, sother: nat) {
    (j == JScan && sother == 0) || (j.JWakeup? && j.ch.Addr?) || j.JKill?
  }

  /** Pcs a process can have while on a CPU's stack. */
  predicate ProcessPc(p: Proc) {
    match p.pc
    case Idle => true
    case Spin(j) => ProcessJob(p, j)
    case Got(j) => ProcessJob(p, j)
    case In(j) => ProcessJob(p, j)
    case Rel(j) => !j.JScan? && !j.JExit?
    case Rel2(j) => !j.JScan? && !j.JExit?
    case Rel3(j) => !j.JScan? && !j.JExit?
    case Sw(j) => p.other == 0 && SwitchJob(j) && (j != JYield ==> p.child.None?)
    case Off(j) => p.other == 0 && SwitchJob(j) && j != JExit
    case Fork0 => p.other == 0
    case _ => false
  }

  predicate ProcessJob(p: Proc, j: Job) {
    match j
    case JYield => p.other == 0
    case JSleep(ch) => p.other == 1 && p.child.None? && ch.Addr?
    case JWait => p.other == 0 && p.child.None?
    case JExit => p.other == 0 && p.child.None?
    case JAlloc => p.other == 0 && p.child.None?
    case JWakeup(ch) => ch.Addr?
    case JKill(n) => true
    case _ => false
  }

  predicate SwitchJob(j: Job) {
    j == JYield || (j.JSleep? && j.ch.Addr?) || j == JWait || j == JExit
  }

  /** A running process's context and the cpu fields that go with it. */
  ghost predicate OnStack(s: State, c: nat, p: nat)
    requires c < |s.cpus|
  {
    var u := s.cpus[c];
    && u.proc == Some(p) && p < |s.procs| && u.spc == Out(p) && u.sother == 0
    && ProcessPc(s.procs[p])
    && (u.ncli > 0 && !s.procs[p].pc.Off? && !s.procs[p].pc.Fork0? ==> u.intena == s.procs[p].want)
  }

  ghost predicate CpuInv(s: State, c: nat)
    requires c < |s.cpus|
  {
    var u := s.cpus[c];
    && (match u.run case None => SchedulerPc(s, c) case Some(p) => OnStack(s, c, p))
    && (u.proc.Some? ==> u.proc.value < |s.procs| && s.procs[u.proc.value].on == Some(c))
    && u.ncli == Others(s, c) + (if InSection(CurPc(s, c)) then 1 else 0)
    && (u.ncli > 0 ==> !u.iflag)
  }

  // ---- Processes --------------------------------------------------------------------------

  /** What state and pc a slot can have together. */
  predicate StatePc(me: Proc, p: nat) {
    match me.state
    case UNUSED => me.pc == Dead && me.parent.None?
    case EMBRYO => me.pc == Fork0
    case RUNNABLE => me.pc.Off? || me.pc.Fork0? || (me.pc.Sw? && me.pc.j != JExit)
    case ZOMBIE => me.pc == Sw(JExit) || me.pc == Dead
    case RUNNING => !me.pc.Sw? && !me.pc.Dead?
    case SLEEPING => (me.pc.Sw? || me.pc.Off?) && SleepsOn(me, p)
  }

  predicate SleepsOn(me: Proc, p: nat)
    requires me.pc.Sw? || me.pc.Off?
  {
    (me.pc.j.JSleep? && me.chan == me.pc.j.ch && me.chan.Addr?) || (me.pc.j == JWait && me.chan == ProcChan(p))
  }

  predicate OffStack(pc: Pc) {
    pc.Off? || pc.Fork0? || pc.Dead?
  }

  ghost predicate ProcInv(s: State, p: nat)
    requires p < |s.procs|
  {
    var me := s.procs[p];
    && StatePc(me, p)
    && (me.on.Some? ==> me.on.value < |s.cpus| && s.cpus[me.on.value].proc == Some(p))
    && (!OffStack(me.pc) || me.state == RUNNING ==> me.on.Some?)
    && (me.state == RUNNING ==>
         s.cpus[me.on.value].run == Some(p) || (s.cpus[me.on.value].run.None? && s.cpus[me.on.value].spc == Picked(p)))
    && (!OffStack(me.pc) ==> s.cpus[me.on.value].run == Some(p))
    && (me.on.Some? && s.cpus[me.on.value].run == Some(p) && me.state != RUNNING ==> me.pc.Sw?)
    && (me.pc.Off? ==> me.saved == me.want && me.other == 0 && SwitchJob(me.pc.j) && me.pc.j != JExit
                       && (me.pc.j != JYield ==> me.child.None?))
    && (me.pc.Fork0? || me.pc.Dead? ==> me.other == 0 && me.child.None?)
    && (me.pc == Spin(JExit) || me.pc == Got(JExit) || me.pc == In(JExit) ==> p != s.init)
  }

  /** p is asleep in wait (or about to swtch away from there). */
  predicate InWait(me: Proc) {
    me.state == SLEEPING && (me.pc == Sw(JWait) || me.pc == Off(JWait))
  }

  /** No process sleeps in wait while it has a zombie child. */
  ghost predicate WaitInv(s: State) {
    forall p: nat :: p < |s.procs| && InWait(s.procs[p]) ==> !HasZombieChild(s.procs, p)
  }

  // ---- Pids, parents, forks in progress -------------------------------------------------------

  ghost predicate PidInv(s: State) {
    && (forall p: nat :: p < |s.procs| && s.procs[p].state != UNUSED ==> 0 < s.procs[p].pid < s.nextpid)
    && (forall p: nat, q: nat :: p < q < |s.procs| && s.procs[p].state != UNUSED && s.procs[q].state != UNUSED ==>
          s.procs[p].pid != s.procs[q].pid)
  }

  /** Between fork and exit. */
  predicate Live(me: Proc) {
    me.state == RUNNABLE || me.state == RUNNING || me.state == SLEEPING
  }

  /** A parent pointer leads to init, or to the live process that did the fork. */
  ghost predicate ParentInv(s: State) {
    && s.init < |s.procs| && Live(s.procs[s.init]) && s.procs[s.init].parent.None?
    && (forall p: nat :: p < |s.procs| && s.procs[p].parent.Some? ==> ParentOk(s, p, s.procs[p].parent.value))
    && (forall p: nat :: p < |s.procs| && p != s.init && (Live(s.procs[p]) || s.procs[p].state == ZOMBIE) ==>
         s.procs[p].parent.Some?)
  }

  ghost predicate ParentOk(s: State, p: nat, f: nat)
    requires p < |s.procs|
  {
    f < |s.procs| && f != p && Live(s.procs[f]) && (f == s.init || s.procs[f].pid == s.procs[p].ppid)
  }

  /** The slot a fork is filling is EMBRYO and filled by one fork only. */
  ghost predicate ChildInv(s: State) {
    && (forall p: nat :: p < |s.procs| && s.procs[p].child.Some? ==>
          s.procs[p].child.value < |s.procs| && s.procs[s.procs[p].child.value].state == EMBRYO && Live(s.procs[p]))
    && (forall p: nat, q: nat ::
         p < |s.procs| && q < |s.procs| && s.procs[p].child.Some? && s.procs[p].child == s.procs[q].child ==> p == q)
  }

  // ---- Exits and reaps --------------------------------------------------------------------------

  /** Every exit is reaped at most once, and until then its slot is a zombie. */
  ghost predicate HistInv(s: State) {
    && (forall x :: x in s.exits ==> 0 < x < s.nextpid)
    && (forall x :: x in s.reaps ==> x in s.exits)
    && (forall i: nat, j: nat :: i < j < |s.reaps| ==> s.reaps[i] != s.reaps[j])
    && (forall p: nat :: p < |s.procs| && s.procs[p].state != UNUSED ==>
         (s.procs[p].pid in s.exits <==> s.procs[p].state == ZOMBIE))
    && (forall p: nat :: p < |s.procs| && s.procs[p].state == ZOMBIE ==> s.procs[p].pid !in s.reaps)
    && (forall x :: x in s.exits && x !in s.reaps ==> exists p: nat :: IsZombie(s, p, x))
  }

  ghost predicate IsZombie(s: State, p: nat, pid: nat) {
    p < |s.procs| && s.procs[p].state == ZOMBIE && s.procs[p].pid == pid
  }

  ghost predicate TableInv(s: State) {
    PidInv(s) && ParentInv(s) && ChildInv(s) && HistInv(s)
  }

  ghost predicate Inv(s: State) {
    && LockInv(s)
    && (forall c: nat :: c < |s.cpus| ==> CpuInv(s, c))
    && (forall p: nat :: p < |s.procs| ==> ProcInv(s, p))
    && WaitInv(s) && TableInv(s)
  }

  // ---- Steps that leave the table alone ------------------------------------------------------------

  /** The same process at the same point between fork and reap. */
  predicate SameSlot(a: Proc, b: Proc) {
    && (a.state == b.state || (Live(a) && Live(b)))
    && a.pid == b.pid && a.parent == b.parent && a.child == b.child && a.ppid == b.ppid
  }

  ghost predicate SameTable(s: State, t: State) {
    && |s.procs| == |t.procs| && s.nextpid == t.nextpid && s.init == t.init && s.exits == t.exits && s.reaps == t.reaps
    && forall p: nat :: p < |s.procs| ==> SameSlot(s.procs[p], t.procs[p])
  }

  lemma TableKept(s: State, t: State)
    requires TableInv(s) && SameTable(s, t)
    ensures TableInv(t)
  {
    PidKept(s, t);
    ParentKept(s, t);
    ChildKept(s, t);
    HistKept(s, t);
  }

  lemma PidKept(s: State, t: State)
    requires PidInv(s) && SameTable(s, t)
    ensures PidInv(t)
  {
  }

  lemma ParentKept(s: State, t: State)
    requires ParentInv(s) && SameTable(s, t)
    ensures ParentInv(t)
  {
    forall p: nat | p < |t.procs| && t.procs[p].parent.Some?
      ensures ParentOk(t, p, t.procs[p].parent.value)
    {
      assert SameSlot(s.procs[p], t.procs[p]);
      assert ParentOk(s, p, s.procs[p].parent.value);
    }
  }

  lemma ChildKept(s: State, t: State)
    requires ChildInv(s) && SameTable(s, t)
    ensures ChildInv(t)
  {
    forall p: nat | p < |t.procs| && t.procs[p].child.Some?
      ensures t.procs[p].child.value < |t.procs| && t.procs[t.procs[p].child.value].state == EMBRYO && Live(t.procs[p])
    {
      assert SameSlot(s.procs[p], t.procs[p]);
    }
  }

  lemma HistKept(s: State, t: State)
    requires HistInv(s) && SameTable(s, t)
    ensures HistInv(t)
  {
    forall x | x in t.exits && x !in t.reaps
      ensures exists p: nat :: IsZombie(t, p, x)
    {
      var p: nat :| IsZombie(s, p, x);
      assert IsZombie(t, p, x);
    }
  }

  lemma WaitKept(s: State, t: State)
    requires WaitInv(s) && |s.procs| == |t.procs|
    requires forall p: nat :: p < |s.procs| ==> SameSlot(s.procs[p], t.procs[p])
    requires forall p: nat :: p < |s.procs| && InWait(t.procs[p]) ==> InWait(s.procs[p])
    ensures WaitInv(t)
  {
    forall p: nat | p < |t.procs| && InWait(t.procs[p])
      ensures !HasZombieChild(t.procs, p)
    {
      assert !HasZombieChild(s.procs, p);
      assert forall q: nat :: q < |t.procs| ==> SameSlot(s.procs[q], t.procs[q]);
    }
  }
}
