/**
 proc.c and spinlock.c as a step protocol: any number of CPUs, each running
 either its scheduler or a process, all sharing ptable.lock.  A step is one
 atomic action of one CPU; acquire and release are broken into their atomic
 parts, and the lock is handed across swtch from one context to another.
 */
module Sched {
  import opened Options

  /** enum procstate. */
  datatype PState = UNUSED | EMBRYO | SLEEPING | RUNNABLE | RUNNING | ZOMBIE

  /** A sleep channel: none, a struct proc (used by wait), or any other address. */
  datatype Chan = NoChan | ProcChan(p: nat) | Addr(a: int)

  /** Why a context takes ptable.lock. */
  datatype Job =
    | JYield | JSleep(ch: Chan) | JWait | JExit | JWakeup(ch: Chan) | JKill(pid: nat) | JAlloc | JFork | JScan

  /**
   Where a kernel context is.  Spin..Rel3 are the stages of one critical
   section; Sw is just before swtch in sched, Off is switched out inside sched,
   Fork0 is at forkret; InScan, Picked and Out belong to the scheduler loop.
   */
  datatype Pc =
    | Idle
    | Spin(j: Job) | Got(j: Job) | In(j: Job)
    | Sw(j: Job) | Off(j: Job) | Fork0
    | InScan(i: nat) | Picked(i: nat) | Out(i: nat)
    | Rel(j: Job) | Rel2(j: Job) | Rel3(j: Job)
    | Dead

  /**
   struct proc and the process's kernel context: `saved` is sched's local
   intena, `want` whether interrupts were on at its outermost pushcli, `other`
   how many other spinlocks it holds, `child` the slot a running fork got,
   `ppid` the pid of the process that forked it,
   `on` the CPU whose per-cpu `proc` points here.
   */
  datatype Proc = Proc(
    state: PState, pid: nat, parent: Option<nat>, chan: Chan, killed: bool,
    pc: Pc, saved: bool, want: bool, other: nat, child: Option<nat>, ppid: nat, on: Option<nat>)

  /** struct cpu: `run` says whose stack it is on (None: its scheduler's). */
  datatype Cpu = Cpu(ncli: int, intena: bool, iflag: bool, proc: Option<nat>, run: Option<nat>, spc: Pc, sother: nat)

  /** ptable.lock is (locked, holder); exits and reaps record the pids that exited and were reaped. */
  datatype State = State(
    cpus: seq<Cpu>, procs: seq<Proc>, locked: bool, holder: Option<nat>, nextpid: nat, init: nat,
    exits: set<nat>, reaps: seq<nat>)

  // ---- The table scans of proc.c -------------------------------------------------

  function Woken(p: Proc, ch: Chan): Proc {
    if p.state == SLEEPING && p.chan == ch then p.(state := RUNNABLE) else p
  }

  /** wakeup1. */
  function WakeAll(ps: seq<Proc>, ch: Chan): (r: seq<Proc>)
    ensures |r| == |ps| && forall i: nat :: i < |ps| ==> r[i] == Woken(ps[i], ch)
  {
    seq(|ps|, i requires 0 <= i < |ps| => Woken(ps[i], ch))
  }

  function Adopt(p: Proc, from: nat, init: nat): Proc {
    if p.parent == Some(from) then p.(parent := Some(init)) else p
  }

  /** exit's loop without the wakeup: children of `from` go to init. */
  function Reparent(ps: seq<Proc>, from: nat, init: nat): (r: seq<Proc>)
    ensures |r| == |ps| && forall i: nat :: i < |ps| ==> r[i] == Adopt(ps[i], from, init)
  {
    seq(|ps|, i requires 0 <= i < |ps| => Adopt(ps[i], from, init))
  }

  predicate HasZombieChild(ps: seq<Proc>, p: nat) {
    exists q: nat :: q < |ps| && ps[q].parent == Some(p) && ps[q].state == ZOMBIE
  }

  predicate HasChild(ps: seq<Proc>, p: nat) {
    exists q: nat :: q < |ps| && ps[q].parent == Some(p)
  }

  function ParentChan(p: Proc): Chan {
    match p.parent
    case None => NoChan
    case Some(q) => ProcChan(q)
  }

  /** exit's critical section up to sched: wake the parent, give children to init, become a zombie. */
  function ExitTable(ps: seq<Proc>, p: nat, init: nat): (r: seq<Proc>)
    requires p < |ps|
    ensures |r| == |ps|
  {
    var w := WakeAll(ps, ParentChan(ps[p]));
    var a := Reparent(w, p, init);
    var z := if HasZombieChild(w, p) then WakeAll(a, ProcChan(init)) else a;
    z[p := z[p].(state := ZOMBIE)]
  }

  /** kill's effect on the slot it finds. */
  function Killed(p: Proc): Proc {
    p.(killed := true, state := if p.state == SLEEPING then RUNNABLE else p.state)
  }

  /** The first slot at or after i with property pid == n; |ps| if none. */
  function FindPid(ps: seq<Proc>, n: nat, i: nat): (k: nat)
    requires i <= |ps|
    ensures i <= k <= |ps| && (k < |ps| ==> ps[k].pid == n)
    ensures forall j: nat :: i <= j < k ==> ps[j].pid != n
    decreases |ps| - i
  {
    if i == |ps| || ps[i].pid == n then i else FindPid(ps, n, i + 1)
  }

  /** The first UNUSED slot at or after i; |ps| if none. */
  function FindUnused(ps: seq<Proc>, i: nat): (k: nat)
    requires i <= |ps|
    ensures i <= k <= |ps| && (k < |ps| ==> ps[k].state == UNUSED)
    ensures forall j: nat :: i <= j < k ==> ps[j].state != UNUSED
    decreases |ps| - i
  {
    if i == |ps| || ps[i].state == UNUSED then i else FindUnused(ps, i + 1)
  }

  /** wait's cleanup of a reaped slot. */
  function Reaped(p: Proc): Proc {
    p.(state := UNUSED, pid := 0, parent := None, killed := false, pc := Dead)
  }

  // ---- Who runs where ----------------------------------------------------------------

  /** The program counter of the context CPU c is executing. */
  function CurPc(s: State, c: nat): Pc
    requires c < |s.cpus|
  {
    match s.cpus[c].run
    case None => s.cpus[c].spc
    case Some(p) => if p < |s.procs| then s.procs[p].pc else Dead
  }

  /** The executing context has done its xchg and not yet undone it. */
  predicate Holding(pc: Pc) {
    pc.Got? || pc.In? || pc.Sw? || pc.Off? || pc.Fork0? || pc.InScan? || pc.Picked? || pc.Out? || pc.Rel? || pc.Rel2?
  }

  /** ... and lk->cpu records this CPU. */
  predicate Recorded(pc: Pc) {
    Holding(pc) && !pc.Got? && !pc.Rel2?
  }

  /** Between pushcli and popcli of the ptable.lock section. */
  predicate InSection(pc: Pc) {
    Holding(pc) || pc.Spin? || pc.Rel3?
  }

  function Others(s: State, c: nat): nat
    requires c < |s.cpus|
  {
    match s.cpus[c].run
    case None => s.cpus[c].sother
    case Some(p) => if p < |s.procs| then s.procs[p].other else 0
  }

  // ---- Steps ----------------------------------------------------------------------------

  function PutCpu(s: State, c: nat, u: Cpu): State
    requires c < |s.cpus|
  {
    s.(cpus := s.cpus[c := u])
  }

  function PutProc(s: State, p: nat, q: Proc): State
    requires p < |s.procs|
  {
    s.(procs := s.procs[p := q])
  }

  /** Move the executing context of CPU c to pc. */
  function Goto(s: State, c: nat, pc: Pc): State
    requires c < |s.cpus| && (s.cpus[c].run.Some? ==> s.cpus[c].run.value < |s.procs|)
  {
    match s.cpus[c].run
    case None => PutCpu(s, c, s.cpus[c].(spc := pc))
    case Some(p) => PutProc(s, p, s.procs[p].(pc := pc))
  }

  /** One atomic action of one CPU. */
  datatype Step =
    | Begin(j: Job)          // pushcli, and acquire's check
    | Xchg                   // the successful xchg of acquire
    | Record                 // lk->cpu = cpu
    | Body                   // the critical section of the job
    | SwitchOut              // sched: save intena, swtch to the scheduler
    | Resume                 // after swtch in sched: restore intena, finish the job
    | Forkret                // a new process's first step
    | Unrecord               // release: lk->cpu = 0
    | Unlock                 // release: xchg(locked, 0)
    | PopCli                 // release: popcli
    | ScanSlot               // scheduler: look at slot i
    | SwitchIn               // scheduler: swtch to the picked process
    | SwitchBack             // scheduler: proc = 0 after swtch returns
    | LockOther | UnlockOther // acquire / release of some other spinlock
    | SetIF(on: bool)        // interrupts go on or off outside all locks
    | ForkParent | ForkRun | ForkFail // fork after allocproc, without ptable.lock

  /** Jobs a process may take ptable.lock for, and what it must hold then. */
  predicate MayBegin(p: Proc, isInit: bool, j: Job) {
    match j
    case JYield => p.other == 0
    case JSleep(ch) => p.other == 1 && p.child.None? && ch.Addr?
    case JWait => p.other == 0 && p.child.None?
    case JExit => p.other == 0 && p.child.None? && !isInit
    case JAlloc => p.other == 0 && p.child.None?
    case JWakeup(ch) => ch.Addr?
    case JKill(n) => true
    case _ => false
  }

  /** A scheduler takes the lock for its scan, or in an interrupt handler's wakeup. */
  predicate CpuMayBegin(s: State, c: nat, j: Job)
    requires c < |s.cpus| && (s.cpus[c].run.Some? ==> s.cpus[c].run.value < |s.procs|)
  {
    match s.cpus[c].run
    case None => (j == JScan && s.cpus[c].sother == 0) || (j.JWakeup? && j.ch.Addr?) || j.JKill?
    case Some(p) => MayBegin(s.procs[p], p == s.init, j)
  }

  ghost predicate Enabled(s: State, c: nat, t: Step) {
    && c < |s.cpus|
    && (s.cpus[c].run.Some? ==> s.cpus[c].run.value < |s.procs|)
    && var u, pc := s.cpus[c], CurPc(s, c);
    match t
    case Begin(j) => pc == Idle && CpuMayBegin(s, c, j)
    case Xchg => pc.Spin? && !s.locked
    case Record => pc.Got?
    case Body => pc.In?
    case SwitchOut => pc.Sw? && u.run.Some?
    case Resume => pc.Off? && u.run.Some?
    case Forkret => pc.Fork0? && u.run.Some?
    case Unrecord => pc.Rel?
    case Unlock => pc.Rel2?
    case PopCli => pc.Rel3?
    case ScanSlot => u.run.None? && pc.InScan?
    case SwitchIn => u.run.None? && pc.Picked?
    case SwitchBack => u.run.None? && pc.Out?
    case LockOther => pc == Idle
    case UnlockOther => pc == Idle && Others(s, c) > 0
    case SetIF(b) => pc == Idle && Others(s, c) == 0
    case ForkParent => pc == Idle && u.run.Some? && s.procs[u.run.value].child.Some?
    case ForkRun => pc == Idle && u.run.Some? && ChildHasParent(s, u.run.value, true)
    case ForkFail => pc == Idle && u.run.Some? && ChildHasParent(s, u.run.value, false)
  }

  /** fork of p has a slot, whose parent has (not yet) been set. */
  predicate ChildHasParent(s: State, p: nat, yes: bool)
    requires p < |s.procs|
  {
    match s.procs[p].child
    case None => false
    case Some(q) => q < |s.procs| && s.procs[q].parent.Some? == yes
  }

  /** pushcli on CPU c; `want` of a running process remembers an outermost intena. */
  function Push(s: State, c: nat): State
    requires c < |s.cpus| && (s.cpus[c].run.Some? ==> s.cpus[c].run.value < |s.procs|)
  {
    var u := s.cpus[c];
    var s1 := PutCpu(s, c, u.(ncli := u.ncli + 1, intena := if u.ncli == 0 then u.iflag else u.intena, iflag := false));
    if u.run.Some? && u.ncli == 0 then PutProc(s1, u.run.value, s.procs[u.run.value].(want := u.iflag)) else s1
  }

  /** popcli on CPU c. */
  function Pop(s: State, c: nat): State
    requires c < |s.cpus|
  {
    var u := s.cpus[c];
    PutCpu(s, c, u.(ncli := u.ncli - 1, iflag := u.iflag || (u.ncli == 1 && u.intena)))
  }

  function PutOthers(s: State, c: nat, n: nat): State
    requires c < |s.cpus| && (s.cpus[c].run.Some? ==> s.cpus[c].run.value < |s.procs|)
  {
    match s.cpus[c].run
    case None => PutCpu(s, c, s.cpus[c].(sother := n))
    case Some(p) => PutProc(s, p, s.procs[p].(other := n))
  }

  /** The critical sections of proc.c, run by CPU c with the lock held. */
  function DoBody(s: State, c: nat): State
    requires c < |s.cpus| && (s.cpus[c].run.Some? ==> s.cpus[c].run.value < |s.procs|)
    requires CurPc(s, c).In?
  {
    var j := CurPc(s, c).j;
    match j
    case JWakeup(ch) => Goto(s.(procs := WakeAll(s.procs, ch)), c, Rel(j))
    case JKill(n) =>
      var k := FindPid(s.procs, n, 0);
      Goto(if k < |s.procs| then PutProc(s, k, Killed(s.procs[k])) else s, c, Rel(j))
    case _ =>
      if s.cpus[c].run.None? then Goto(s, c, Rel(j)) else ProcessBody(s, c, s.cpus[c].run.value, j)
  }

  function ProcessBody(s: State, c: nat, p: nat, j: Job): State
    requires c < |s.cpus| && p < |s.procs|
  {
    var me := s.procs[p];
    match j
    case JYield => PutProc(s, p, me.(state := RUNNABLE, pc := Sw(j)))
    case JSleep(ch) => DoSleep(s, c, p, ch)
    case JWait => DoWait(s, p)
    case JExit =>
      s.(procs := ExitTable(s.procs[p := me.(pc := Sw(j))], p, s.init), exits := s.exits + {me.pid})
    case JAlloc => DoAlloc(s, p)
    case _ => PutProc(s, p, me.(pc := Rel(j)))
  }

  /** allocproc's critical section. */
  function DoAlloc(s: State, p: nat): State
    requires p < |s.procs|
  {
    var me := s.procs[p];
    var k := FindUnused(s.procs, 0);
    if k < |s.procs| then
      s.(procs := s.procs[k := s.procs[k].(state := EMBRYO, pid := s.nextpid, pc := Fork0)]
                         [p := me.(child := Some(k), pc := Rel(JAlloc))],
         nextpid := s.nextpid + 1)
    else PutProc(s, p, me.(pc := Rel(JAlloc)))
  }

  /** sleep: release the caller's own lock, then sleep on ch. */
  function DoSleep(s: State, c: nat, p: nat, ch: Chan): State
    requires c < |s.cpus| && p < |s.procs|
  {
    var me := s.procs[p];
    PutProc(Pop(s, c), p,
      me.(chan := ch, state := SLEEPING, other := if me.other > 0 then me.other - 1 else 0, pc := Sw(JSleep(ch))))
  }

  /** The first ZOMBIE child of p at or after i; |ps| if none. */
  function FindZombie(ps: seq<Proc>, p: nat, i: nat): (k: nat)
    requires i <= |ps|
    ensures i <= k <= |ps| && (k < |ps| ==> ps[k].parent == Some(p) && ps[k].state == ZOMBIE)
    ensures forall j: nat :: i <= j < k ==> !(ps[j].parent == Some(p) && ps[j].state == ZOMBIE)
    decreases |ps| - i
  {
    if i == |ps| || (ps[i].parent == Some(p) && ps[i].state == ZOMBIE) then i else FindZombie(ps, p, i + 1)
  }

  /** One round of wait's loop: reap a zombie child, give up, or go to sleep. */
  function DoWait(s: State, p: nat): State
    requires p < |s.procs|
  {
    var me := s.procs[p];
    var k := FindZombie(s.procs, p, 0);
    if k < |s.procs| then
      s.(procs := s.procs[k := Reaped(s.procs[k])][p := me.(pc := Rel(JWait))], reaps := s.reaps + [s.procs[k].pid])
    else if !HasChild(s.procs, p) || me.killed then PutProc(s, p, me.(pc := Rel(JWait)))
    else PutProc(s, p, me.(chan := ProcChan(p), state := SLEEPING, pc := Sw(JWait)))
  }

  function DoResume(s: State, c: nat, p: nat): State
    requires c < |s.cpus| && p < |s.procs| && s.procs[p].pc.Off?
  {
    var me := s.procs[p];
    var s1 := PutCpu(s, c, s.cpus[c].(intena := me.saved));
    match me.pc.j
    case JWait => PutProc(s1, p, me.(chan := NoChan, pc := In(JWait)))
    case JSleep(ch) => PutProc(s1, p, me.(chan := NoChan, pc := Rel(me.pc.j)))
    case j => PutProc(s1, p, me.(pc := Rel(j)))
  }

  function DoScan(s: State, c: nat): State
    requires c < |s.cpus| && s.cpus[c].spc.InScan?
  {
    var u, i := s.cpus[c], s.cpus[c].spc.i;
    if i >= |s.procs| then PutCpu(s, c, u.(spc := Rel(JScan)))
    else if s.procs[i].state != RUNNABLE then PutCpu(s, c, u.(spc := InScan(i + 1)))
    else PutProc(PutCpu(s, c, u.(proc := Some(i), spc := Picked(i))), i, s.procs[i].(state := RUNNING, on := Some(c)))
  }

  function Do(s: State, c: nat, t: Step): State
    requires Enabled(s, c, t)
  {
    var u, pc := s.cpus[c], CurPc(s, c);
    match t
    case Begin(j) =>
      var s0 := if j == JScan then PutCpu(s, c, u.(iflag := true)) else s;
      Goto(Push(s0, c), c, Spin(j))
    case Xchg => Goto(s.(locked := true), c, Got(pc.j))
    case Record => Goto(s.(holder := Some(c)), c, if pc.j == JScan then InScan(0) else In(pc.j))
    case Body => DoBody(s, c)
    case SwitchOut =>
      var p := u.run.value;
      PutCpu(PutProc(s, p, s.procs[p].(saved := u.intena, pc := if pc.j == JExit then Dead else Off(pc.j))), c,
          u.(run := None))
    case Resume => DoResume(s, c, u.run.value)
    case Forkret => PutProc(s, u.run.value, s.procs[u.run.value].(want := u.intena, pc := Rel(JFork)))
    case Unrecord => Goto(s.(holder := None), c, Rel2(pc.j))
    case Unlock => Goto(s.(locked := false), c, Rel3(pc.j))
    case PopCli => Goto(Pop(s, c), c, Idle)
    case ScanSlot => DoScan(s, c)
    case SwitchIn => PutCpu(s, c, u.(run := Some(pc.i), spc := Out(pc.i)))
    case SwitchBack =>
      var s1 := PutCpu(s, c, u.(proc := None, spc := InScan(pc.i + 1)));
      if pc.i < |s.procs| then PutProc(s1, pc.i, s.procs[pc.i].(on := None)) else s1
    case LockOther => PutOthers(Push(s, c), c, Others(s, c) + 1)
    case UnlockOther => PutOthers(Pop(s, c), c, Others(s, c) - 1)
    case SetIF(b) => PutCpu(s, c, u.(iflag := b))
    case ForkParent => DoForkParent(s, u.run.value)
    case ForkRun =>
      var p := u.run.value;
      var q := s.procs[p].child.value;
      s.(procs := s.procs[q := s.procs[q].(state := RUNNABLE)][p := s.procs[p].(child := None)])
    case ForkFail =>
      var p := u.run.value;
      var q := s.procs[p].child.value;
      s.(procs := s.procs[q := s.procs[q].(state := UNUSED, pc := Dead)][p := s.procs[p].(child := None)])
  }

  function DoForkParent(s: State, p: nat): State
    requires p < |s.procs| && s.procs[p].child.Some?
  {
    var q := s.procs[p].child.value;
    if q < |s.procs| then PutProc(s, q, s.procs[q].(parent := Some(p), ppid := s.procs[p].pid)) else s
  }
}
