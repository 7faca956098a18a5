/**
 How the invariant survives a step of one CPU: other CPUs and the processes
 they run are unaffected, so only CPU c, its process and the table matter.
 */
module SchedFrame {
  import opened Sched
  import opened Options
  import opened SchedInv

  /** The slot's kernel context is untouched, and it is running as before. */
  predicate SameContext(a: Proc, b: Proc) {
    && a.pc == b.pc && a.other == b.other && a.want == b.want && a.saved == b.saved && a.on == b.on
       && a.child == b.child
    && (a.state == RUNNING <==> b.state == RUNNING)
  }

  /** How ptable.lock may change in a step of CPU c. */
  ghost predicate LockMove(s: State, t: State, c: nat)
    requires c < |s.cpus| && c < |t.cpus|
  {
    var was, now := Holding(CurPc(s, c)), Holding(CurPc(t, c));
    && t.locked == (if was != now then now else s.locked)
    && (now && !was ==> !s.locked)
    && t.holder == (if Recorded(CurPc(t, c)) then Some(c) else if Recorded(CurPc(s, c)) then None else s.holder)
  }

  /** A slot that has just been allocated or freed. */
  predicate FreshContext(b: Proc) {
    (b.pc.Fork0? || b.pc.Dead?) && b.other == 0 && b.child.None? && b.state != RUNNING && b.on.None?
  }

  /** t differs from s at CPU c, at the process on c, at slots on no CPU, and in table fields of processes elsewhere. */
  ghost predicate Local(s: State, t: State, c: nat) {
    && |t.cpus| == |s.cpus| && |t.procs| == |s.procs| && c < |s.cpus| && t.init == s.init
    && (forall d: nat :: d < |s.cpus| && d != c ==> t.cpus[d] == s.cpus[d])
    && (forall q: nat :: q < |s.procs| && s.procs[q].on != Some(c) && t.procs[q].on != Some(c) ==>
          SameContext(s.procs[q], t.procs[q]) || (s.procs[q].on.None? && FreshContext(t.procs[q])))
    && (forall q: nat :: q < |s.procs| && t.procs[q].on == Some(c) && s.procs[q].on != Some(c) ==> s.procs[q].on.None?)
  }

  lemma OtherCpu(s: State, t: State, c: nat, d: nat)
    requires Local(s, t, c) && d < |s.cpus| && d != c && CpuInv(s, d)
    ensures CurPc(t, d) == CurPc(s, d) && CpuInv(t, d)
  {
    var u := s.cpus[d];
    if u.proc.Some? {
      var q := u.proc.value;
      assert s.procs[q].on == Some(d);
      assert SameContext(s.procs[q], t.procs[q]);
    }
  }

  lemma OtherProc(s: State, t: State, c: nat, q: nat)
    requires Local(s, t, c) && q < |s.procs| && ProcInv(s, q)
    requires s.procs[q].on != Some(c) && t.procs[q].on != Some(c)
    requires StatePc(t.procs[q], q)
    ensures ProcInv(t, q)
  {
    assert SameContext(s.procs[q], t.procs[q]) || (s.procs[q].on.None? && FreshContext(t.procs[q]));
    if s.procs[q].on.Some? {
      assert t.cpus[s.procs[q].on.value] == s.cpus[s.procs[q].on.value];
    }
  }

  lemma LockStep(s: State, t: State, c: nat)
    requires LockInv(s) && |t.cpus| == |s.cpus| && c < |s.cpus|
    requires forall d: nat :: d < |s.cpus| && d != c ==> CurPc(t, d) == CurPc(s, d)
    requires LockMove(s, t, c)
    ensures LockInv(t)
  {
    forall d: nat
      ensures d != c ==> (HoldsLock(t, d) <==> HoldsLock(s, d))
    {
    }
    assert HoldsLock(t, c) <==> Holding(CurPc(t, c));
    assert HoldsLock(s, c) <==> Holding(CurPc(s, c));
    forall d: nat | d < |t.cpus|
      ensures t.holder == Some(d) <==> Recorded(CurPc(t, d))
    {
      assert HoldsLock(s, d) <==> Holding(CurPc(s, d));
      assert s.holder == Some(d) <==> Recorded(CurPc(s, d));
      assert s.holder == Some(c) <==> Recorded(CurPc(s, c));
    }
    if t.locked && !HoldsLock(t, c) {
      var d: nat :| HoldsLock(s, d);
      assert HoldsLock(t, d);
    }
  }

  /** The invariant after a local step, from its parts. */
  lemma Assemble(s: State, t: State, c: nat)
    requires Inv(s) && Local(s, t, c) && LockMove(s, t, c) && CpuInv(t, c)
    requires forall q: nat :: q < |s.procs| && s.procs[q].on != Some(c) && t.procs[q].on != Some(c) ==>
               StatePc(t.procs[q], q)
    requires forall q: nat :: q < |s.procs| && (s.procs[q].on == Some(c) || t.procs[q].on == Some(c)) ==> ProcInv(t, q)
    requires WaitInv(t) && TableInv(t)
    ensures Inv(t)
  {
    forall d: nat | d < |s.cpus| && d != c
      ensures CurPc(t, d) == CurPc(s, d) && CpuInv(t, d)
    {
      OtherCpu(s, t, c, d);
    }
    LockStep(s, t, c);
    forall q: nat | q < |t.procs|
      ensures ProcInv(t, q)
    {
      if s.procs[q].on != Some(c) && t.procs[q].on != Some(c) {
        OtherProc(s, t, c, q);
      }
    }
  }

  /** Inside a critical section lk->cpu names this very CPU, whoever did the acquire. */
  lemma HolderIs(s: State, c: nat)
    requires Inv(s) && c < |s.cpus| && Recorded(CurPc(s, c))
    ensures s.holder == Some(c) && s.locked
  {
    assert HoldsLock(s, c);
  }

  /** While CPU c is in a critical section, a slot that is dead and not on c is on no CPU at all. */
  lemma DeadIsOff(s: State, c: nat, q: nat)
    requires Inv(s) && HoldsLock(s, c) && q < |s.procs| && s.procs[q].on != Some(c)
    requires s.procs[q].state == ZOMBIE || s.procs[q].state == UNUSED
    ensures s.procs[q].on.None? && s.procs[q].pc == Dead
  {
    assert ProcInv(s, q);
    if s.procs[q].on.Some? {
      var d := s.procs[q].on.value;
      assert CpuInv(s, d);
      assert HoldsLock(s, d);
    }
  }

  lemma CpuHolds(s: State, c: nat)
    requires Inv(s) && c < |s.cpus|
    ensures CpuInv(s, c)
  {
  }
}
