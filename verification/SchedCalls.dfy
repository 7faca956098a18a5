/**
 What the calls on the process table come to, told from the steps of a run: which call a context is in, what
 its critical section does to the table, and what a slot's state owes to the calls made before.
 */
module SchedCalls {
  import opened Sched
  import opened Options
  import opened SchedInv
  import opened SchedFrame
  import opened SchedBodies
  import opened SchedTheorems

  datatype Move = Move(c: nat, t: Step)

  /** A kernel context: a CPU's scheduler, or a process. */
  datatype Context = Scheduler(c: nat) | Process(p: nat)

  /** The context that CPU c is executing. */
  function On(s: State, c: nat): Context
    requires c < |s.cpus|
  {
    match s.cpus[c].run
    case None => Scheduler(c)
    case Some(p) => Process(p)
  }

  predicate Exists(s: State, x: Context) {
    match x
    case Scheduler(c) => c < |s.cpus|
    case Process(p) => p < |s.procs|
  }

  function PcOf(s: State, x: Context): Pc
    requires Exists(s, x)
  {
    match x
    case Scheduler(c) => s.cpus[c].spc
    case Process(p) => s.procs[p].pc
  }

  /** A run with its steps. */
  ghost predicate RunBy(ss: seq<State>, ts: seq<Move>) {
    && |ss| == |ts| + 1 && Boot(ss[0])
    && forall k: nat :: k < |ts| ==> Takes(ss[k], ss[k + 1], ts[k].c, ts[k].t)
  }

  lemma RunByIsRun(ss: seq<State>, ts: seq<Move>)
    requires RunBy(ss, ts)
    ensures Run(ss)
  {
    hide Enabled, Do, Boot;
    forall k: nat | k + 1 < |ss|
      ensures Next(ss[k], ss[k + 1])
    {
      assert Takes(ss[k], ss[k + 1], ts[k].c, ts[k].t);
    }
  }

  // ---- Steps outside the table --------------------------------------------------------------------------------

  predicate Locks(t: Step) {
    t.Begin? || t.Xchg? || t.Record? || t.Unrecord? || t.Unlock? || t.PopCli?
  }

  predicate Switches(t: Step) {
    t.SwitchOut? || t.Resume? || t.Forkret? || t.ScanSlot? || t.SwitchIn? || t.SwitchBack?
  }

  predicate IsFork(t: Step) {
    t == ForkParent || t == ForkRun || t == ForkFail
  }

  /** Outside c's own context nothing changes, and there only the place, the locks held and the wanted interrupts. */
  ghost predicate Quiet(s: State, t: State, c: nat) {
    && c < |s.cpus| == |t.cpus| && |t.procs| == |s.procs|
    && t.init == s.init && t.nextpid == s.nextpid
    && (forall d: nat :: d < |s.cpus| && d != c ==> t.cpus[d] == s.cpus[d])
    && t.cpus[c].run == s.cpus[c].run && (s.cpus[c].run.Some? ==> t.cpus[c].spc == s.cpus[c].spc)
    && forall q: nat :: q < |s.procs| ==>
         if s.cpus[c].run == Some(q)
         then t.procs[q] == s.procs[q].(pc := t.procs[q].pc, want := t.procs[q].want, other := t.procs[q].other)
         else t.procs[q] == s.procs[q]
  }

  lemma QuietTwice(s: State, t: State, u: State, c: nat)
    requires Quiet(s, t, c) && Quiet(t, u, c)
    ensures Quiet(s, u, c)
  {
  }

  /** CPU c is there, and so is the process that it executes. */
  predicate Sane(s: State, c: nat) {
    c < |s.cpus| && (s.cpus[c].run.Some? ==> s.cpus[c].run.value < |s.procs|)
  }

  lemma GotoIsQuiet(s: State, c: nat, pc: Pc)
    requires Sane(s, c)
    ensures Quiet(s, Goto(s, c, pc), c) && CurPc(Goto(s, c, pc), c) == pc
  {
  }

  lemma PushIsQuiet(s: State, c: nat)
    requires Sane(s, c)
    ensures Quiet(s, Push(s, c), c)
  {
  }

  lemma PopIsQuiet(s: State, c: nat)
    requires Sane(s, c)
    ensures Quiet(s, Pop(s, c), c)
  {
  }

  lemma OthersAreQuiet(s: State, c: nat, n: nat)
    requires Sane(s, c)
    ensures Quiet(s, PutOthers(s, c, n), c)
  {
  }

  /** pushcli, popcli and the lock's own steps are quiet; what is left are switches, fork's steps and the bodies. */
  lemma LocksAreQuiet(s: State, c: nat, t: Step)
    requires Enabled(s, c, t) && t != Body && !Switches(t) && !IsFork(t)
    ensures Quiet(s, Do(s, c, t), c)
  {
    hide DoBody, DoScan, DoResume, Goto, Push, Pop, PutOthers, Quiet;
    match t
    case Begin(j) => BeginIsQuiet(s, c, j);
    case Xchg => SameIsQuiet(s, s.(locked := true), c); MoveIsQuiet(s, s.(locked := true), c, Got(CurPc(s, c).j));
    case Record =>
      var pc := if CurPc(s, c).j == JScan then InScan(0) else In(CurPc(s, c).j);
      SameIsQuiet(s, s.(holder := Some(c)), c);
      MoveIsQuiet(s, s.(holder := Some(c)), c, pc);
    case Unrecord => SameIsQuiet(s, s.(holder := None), c); MoveIsQuiet(s, s.(holder := None), c, Rel2(CurPc(s, c).j));
    case Unlock => SameIsQuiet(s, s.(locked := false), c); MoveIsQuiet(s, s.(locked := false), c, Rel3(CurPc(s, c).j));
    case PopCli => PopIsQuiet(s, c); MoveIsQuiet(s, Pop(s, c), c, Idle);
    case LockOther => PushIsQuiet(s, c); OthersQuiet(s, Push(s, c), c, Others(s, c) + 1);
    case UnlockOther => PopIsQuiet(s, c); OthersQuiet(s, Pop(s, c), c, Others(s, c) - 1);
    case SetIF(b) => CpuIsQuiet(s, c, s.cpus[c].(iflag := b));
  }

  /** Switches change the processes' places, states and CPUs: of all but c's own, whether they run and where. */
  ghost predicate SwitchMoves(s: State, t: State, c: nat) {
    && c < |s.cpus| == |t.cpus| && |t.procs| == |s.procs|
    && t.init == s.init && t.nextpid == s.nextpid
    && (forall d: nat :: d < |s.cpus| && d != c ==> t.cpus[d] == s.cpus[d])
    && (s.cpus[c].run.Some? ==> t.cpus[c].spc == s.cpus[c].spc)
    && forall q: nat :: q < |s.procs| ==>
         if s.cpus[c].run == Some(q)
         then t.procs[q] == s.procs[q].(chan := t.procs[q].chan, pc := t.procs[q].pc, want := t.procs[q].want,
             saved := t.procs[q].saved)
         else MaybePicked(s.procs[q], t.procs[q])
  }

  predicate MaybePicked(a: Proc, b: Proc) {
    b == a.(state := b.state, on := b.on) && (b.state == a.state || (a.state == RUNNABLE && b.state == RUNNING))
  }

  lemma SwitchesMove(s: State, c: nat, t: Step)
    requires Enabled(s, c, t) && Switches(t)
    ensures SwitchMoves(s, Do(s, c, t), c)
  {
    hide DoBody, DoScan, DoResume, PutOthers, Push, Pop;
    if t == Resume {
      RunningIsOff(s, c);
      ResumeMoves(s, c, s.cpus[c].run.value);
    } else if t == ScanSlot {
      ScanMoves(s, c);
    } else {
      hide Goto;
    }
  }

  lemma RunningIsOff(s: State, c: nat)
    requires Enabled(s, c, Resume)
    ensures Sane(s, c) && s.cpus[c].run.Some? && CurPc(s, c).Off?
  {
  }

  lemma ResumeMoves(s: State, c: nat, p: nat)
    requires Sane(s, c) && s.cpus[c].run == Some(p) && s.procs[p].pc.Off?
    ensures SwitchMoves(s, DoResume(s, c, p), c)
  {
    var me := s.procs[p];
    var next := if me.pc.j == JWait then In(JWait) else Rel(me.pc.j);
    assert DoResume(s, c, p) == PutProc(PutCpu(s, c, s.cpus[c].(intena := me.saved)), p,
        me.(pc := next, chan := if me.pc.j == JWait || me.pc.j.JSleep? then NoChan else me.chan));
    hide DoResume;
  }

  lemma ScanMoves(s: State, c: nat)
    requires Sane(s, c) && s.cpus[c].run.None? && s.cpus[c].spc.InScan?
    ensures SwitchMoves(s, DoScan(s, c), c)
  {
  }

  lemma SameIsQuiet(s: State, t: State, c: nat)
    requires Sane(s, c) && t == s.(locked := t.locked, holder := t.holder)
    ensures Quiet(s, t, c) && Sane(t, c)
  {
  }

  lemma CpuIsQuiet(s: State, c: nat, u: Cpu)
    requires Sane(s, c) && u.run == s.cpus[c].run && u.spc == s.cpus[c].spc
    ensures Quiet(s, PutCpu(s, c, u), c) && Sane(PutCpu(s, c, u), c)
  {
  }

  lemma MoveIsQuiet(s: State, t: State, c: nat, pc: Pc)
    requires Quiet(s, t, c) && Sane(s, c)
    ensures Sane(t, c) && Quiet(s, Goto(t, c, pc), c)
  {
    GotoIsQuiet(t, c, pc);
    QuietTwice(s, t, Goto(t, c, pc), c);
  }

  lemma OthersQuiet(s: State, t: State, c: nat, n: nat)
    requires Quiet(s, t, c) && Sane(s, c)
    ensures Sane(t, c) && Quiet(s, PutOthers(t, c, n), c)
  {
    OthersAreQuiet(t, c, n);
    QuietTwice(s, t, PutOthers(t, c, n), c);
  }

  lemma BeginIsQuiet(s: State, c: nat, j: Job)
    requires Enabled(s, c, Begin(j))
    ensures Quiet(s, Do(s, c, Begin(j)), c)
  {
    hide Goto, Push, Quiet;
    var s0 := if j == JScan then PutCpu(s, c, s.cpus[c].(iflag := true)) else s;
    if j == JScan {
      CpuIsQuiet(s, c, s.cpus[c].(iflag := true));
    } else {
      SameIsQuiet(s, s, c);
    }
    PushIsQuiet(s0, c);
    QuietTwice(s, s0, Push(s0, c), c);
    MoveIsQuiet(s, Push(s0, c), c, Spin(j));
  }

  // ---- Which call a context is in ---------------------------------------------------------------------------

  /** A call on the table, and whether its critical section has been run. */
  datatype Call = Call(j: Job, done: bool)

  function CallBy(t: Step, call: Option<Call>): Option<Call> {
    match t
    case Begin(j) => Some(Call(j, false))
    case Body => if call.Some? then Some(call.value.(done := true)) else call
    case Forkret => None
    case _ => call
  }

  /** The last call that the context has begun. */
  function CallOf(ss: seq<State>, ts: seq<Move>, k: nat, x: Context): Option<Call>
    requires k <= |ts| < |ss|
  {
    if k == 0 then None
    else
      var before, m := CallOf(ss, ts, k - 1, x), ts[k - 1];
      if m.c < |ss[k - 1].cpus| && On(ss[k - 1], m.c) == x then CallBy(m.t, before) else before
  }

  /** Where a context is in its call is what its steps say. */
  predicate AsCalled(pc: Pc, call: Option<Call>) {
    match pc
    case Idle => call.Some? ==> call.value.done || call.value.j == JScan
    case Spin(j) => Undone(j, call)
    case Got(j) => Undone(j, call)
    case In(j) => Undone(j, call) && j != JScan
    case Sw(j) => call == Some(Call(j, true)) && j != JFork && j != JScan
    case Off(j) => call == Some(Call(j, true)) && j != JFork && j != JScan
    case InScan(_) => call == Some(Call(JScan, false))
    case Picked(_) => call == Some(Call(JScan, false))
    case Out(_) => call == Some(Call(JScan, false))
    case Rel(j) => Ending(j, call)
    case Rel2(j) => Ending(j, call)
    case Rel3(j) => Ending(j, call)
    case _ => true
  }

  /** Before the critical section; wait comes back to it. */
  predicate Undone(j: Job, call: Option<Call>) {
    call.Some? && call.value.j == j && j != JFork && (j == JWait || !call.value.done)
  }

  predicate Ending(j: Job, call: Option<Call>) {
    if j == JFork then call.None? else call.Some? && call.value.j == j && (j == JScan || call.value.done)
  }

  lemma OwnStepCalls(s: State, c: nat, t: Step, call: Option<Call>)
    requires Enabled(s, c, t) && AsCalled(CurPc(s, c), call)
    ensures Exists(Do(s, c, t), On(s, c)) && AsCalled(PcOf(Do(s, c, t), On(s, c)), CallBy(t, call))
  {
    hide Enabled, Do, AsCalled, CallBy;
    if t == Body {
      BodyCalls(s, c, call);
    } else if Locks(t) {
      LockCalls(s, c, t, call);
    } else if Switches(t) {
      SwitchCalls(s, c, t, call);
    } else {
      OtherCalls(s, c, t, call);
    }
  }

  lemma LockCalls(s: State, c: nat, t: Step, call: Option<Call>)
    requires Enabled(s, c, t) && Locks(t) && AsCalled(CurPc(s, c), call)
    ensures Exists(Do(s, c, t), On(s, c)) && AsCalled(PcOf(Do(s, c, t), On(s, c)), CallBy(t, call))
  {
    LockPlaces(s, c, t);
    hide Enabled, Do;
  }

  /** Where the lock's steps lead. */
  function LockPlace(pc: Pc, t: Step): Pc {
    match t
    case Begin(j) => Spin(j)
    case Xchg => if pc.Spin? then Got(pc.j) else pc
    case Record => if !pc.Got? then pc else if pc.j == JScan then InScan(0) else In(pc.j)
    case Unrecord => if pc.Rel? then Rel2(pc.j) else pc
    case Unlock => if pc.Rel2? then Rel3(pc.j) else pc
    case _ => Idle
  }

  lemma LockPlaces(s: State, c: nat, t: Step)
    requires Enabled(s, c, t) && Locks(t)
    ensures Exists(Do(s, c, t), On(s, c)) && PcOf(Do(s, c, t), On(s, c)) == LockPlace(CurPc(s, c), t)
    ensures match t
            case Begin(j) => CurPc(s, c) == Idle && j != JFork
            case Xchg => CurPc(s, c).Spin?
            case Record => CurPc(s, c).Got?
            case Unrecord => CurPc(s, c).Rel?
            case Unlock => CurPc(s, c).Rel2?
            case _ => CurPc(s, c).Rel3?
  {
    hide DoBody, DoScan, DoResume, PutOthers;
  }

  lemma SwitchCalls(s: State, c: nat, t: Step, call: Option<Call>)
    requires Enabled(s, c, t) && Switches(t) && AsCalled(CurPc(s, c), call)
    ensures Exists(Do(s, c, t), On(s, c)) && AsCalled(PcOf(Do(s, c, t), On(s, c)), CallBy(t, call))
  {
    if t == Resume || t == ScanSlot {
      OwnMoveCalls(s, c, t, call);
    } else {
      SwitchPlaces(s, c, t);
    }
    hide Enabled, Do;
  }

  lemma OwnMoveCalls(s: State, c: nat, t: Step, call: Option<Call>)
    requires Enabled(s, c, t) && (t == Resume || t == ScanSlot) && AsCalled(CurPc(s, c), call)
    ensures Exists(Do(s, c, t), On(s, c)) && AsCalled(PcOf(Do(s, c, t), On(s, c)), call)
  {
    hide DoBody, DoScan, DoResume, AsCalled, Goto, Push, Pop, PutOthers;
    if t == Resume {
      ResumeCalls(s, c, s.cpus[c].run.value, call);
    } else {
      ScanCalls(s, c, call);
    }
  }

  lemma ResumeCalls(s: State, c: nat, p: nat, call: Option<Call>)
    requires c < |s.cpus| && p < |s.procs| && s.procs[p].pc.Off? && AsCalled(s.procs[p].pc, call)
    ensures p < |DoResume(s, c, p).procs| && AsCalled(DoResume(s, c, p).procs[p].pc, call)
  {
  }

  lemma ScanCalls(s: State, c: nat, call: Option<Call>)
    requires c < |s.cpus| && s.cpus[c].spc.InScan? && AsCalled(s.cpus[c].spc, call)
    ensures c < |DoScan(s, c).cpus| && AsCalled(DoScan(s, c).cpus[c].spc, call)
  {
  }

  /** Where the switches lead the context that makes them. */
  lemma SwitchPlaces(s: State, c: nat, t: Step)
    requires Enabled(s, c, t) && Switches(t) && t != Resume && t != ScanSlot
    ensures Exists(Do(s, c, t), On(s, c))
    ensures var was, now := CurPc(s, c), PcOf(Do(s, c, t), On(s, c));
            match t
            case SwitchOut => was.Sw? && now == if was.j == JExit then Dead else Off(was.j)
            case Forkret => was == Fork0 && now == Rel(JFork)
            case SwitchIn => was.Picked? && now == Out(was.i)
            case SwitchBack => was.Out? && now == InScan(was.i + 1)
            case _ => true
  {
    hide DoBody, DoScan, DoResume, Goto, Push, Pop, PutOthers;
  }

  lemma OtherCalls(s: State, c: nat, t: Step, call: Option<Call>)
    requires Enabled(s, c, t) && t != Body && !Locks(t) && !Switches(t) && AsCalled(CurPc(s, c), call)
    ensures Exists(Do(s, c, t), On(s, c)) && AsCalled(PcOf(Do(s, c, t), On(s, c)), CallBy(t, call))
  {
    hide DoBody, DoScan, DoResume;
  }

  lemma BodyCalls(s: State, c: nat, call: Option<Call>)
    requires Enabled(s, c, Body) && AsCalled(CurPc(s, c), call)
    ensures Exists(Do(s, c, Body), On(s, c)) && AsCalled(PcOf(Do(s, c, Body), On(s, c)), CallBy(Body, call))
  {
    BodyIsIn(s, c);
    BodyPlace(s, c);
    hide Enabled, Do, DoBody;
  }

  /** Where a critical section leaves the context. */
  predicate EndsAt(pc: Pc, j: Job) {
    pc == Rel(j) || (pc == Sw(j) && (j == JYield || j.JSleep? || j == JWait || j == JExit))
  }

  lemma BodyPlace(s: State, c: nat)
    requires Sane(s, c) && CurPc(s, c).In?
    ensures Exists(DoBody(s, c), On(s, c)) && EndsAt(PcOf(DoBody(s, c), On(s, c)), CurPc(s, c).j)
  {
    var j := CurPc(s, c).j;
    if s.cpus[c].run.Some? && !j.JWakeup? && !j.JKill? {
      OwnPc(s, c, s.cpus[c].run.value, j);
      hide ProcessBody;
    } else {
      hide ProcessBody, FindPid, WakeAll;
    }
  }

  /** Where the critical section of a process's own call leaves it. */
  lemma OwnPc(s: State, c: nat, p: nat, j: Job)
    requires c < |s.cpus| && p < |s.procs|
    ensures var t := ProcessBody(s, c, p, j);
      p < |t.procs| && EndsAt(t.procs[p].pc, j)
  {
    match j
    case JExit => ExitSlot(s.procs[p := s.procs[p].(pc := Sw(JExit))], p, s.init, p); hide ExitTable;
    case JWait => hide FindZombie, HasChild, Reaped;
    case JAlloc => hide FindUnused;
    case _ =>
  }

  /** A process's own critical section leaves other processes where they are, but for a slot allocated or freed. */
  lemma OtherPcs(s: State, c: nat, p: nat, j: Job, q: nat)
    requires c < |s.cpus| && p < |s.procs| && q < |s.procs| && q != p
    ensures var t := ProcessBody(s, c, p, j);
      && q < |t.procs|
      && (t.procs[q].pc == s.procs[q].pc || t.procs[q].pc == Fork0 || t.procs[q].pc == Dead)
  {
    match j
    case JExit => ExitSlot(s.procs[p := s.procs[p].(pc := Sw(JExit))], p, s.init, q); hide ExitTable;
    case JWait => hide FindZombie, HasChild;
    case JAlloc => hide FindUnused;
    case _ =>
  }

  /** A context that c is not executing stays where it is, unless its slot is allocated or freed. */
  lemma OthersStay(s: State, c: nat, t: Step, x: Context)
    requires Enabled(s, c, t) && Exists(s, x) && x != On(s, c)
    ensures Exists(Do(s, c, t), x)
    ensures var pc := PcOf(Do(s, c, t), x); pc == PcOf(s, x) || pc == Fork0 || pc == Dead
  {
    if t == Body {
      hide Enabled, Do;
      OthersStayInBody(s, c, x);
    } else if Switches(t) {
      SwitchesMove(s, c, t);
      hide Enabled, Do;
    } else {
      OthersStayElse(s, c, t, x);
      hide Enabled, Do;
    }
  }

  lemma OthersStayElse(s: State, c: nat, t: Step, x: Context)
    requires Enabled(s, c, t) && t != Body && !Switches(t) && Exists(s, x) && x != On(s, c)
    ensures Exists(Do(s, c, t), x)
    ensures var pc := PcOf(Do(s, c, t), x); pc == PcOf(s, x) || pc == Fork0 || pc == Dead
  {
    if IsFork(t) {
      ForkKeepsPlaces(s, c, t);
    } else {
      LocksAreQuiet(s, c, t);
    }
    hide Enabled, Do;
  }

  /** fork's steps on its slot leave everybody in place but a slot given back. */
  ghost predicate SamePlaces(s: State, t: State) {
    && |t.procs| == |s.procs| && t.cpus == s.cpus && t.init == s.init && t.nextpid == s.nextpid
    && forall q: nat :: q < |s.procs| ==>
         && (t.procs[q].pc == s.procs[q].pc || t.procs[q].pc == Dead)
         && t.procs[q].pid == s.procs[q].pid
  }

  lemma ForkKeepsPlaces(s: State, c: nat, t: Step)
    requires Enabled(s, c, t) && IsFork(t)
    ensures SamePlaces(s, Do(s, c, t))
    ensures CurPc(s, c) == Idle && c < |s.cpus| && s.cpus[c].run.Some?
    ensures Do(s, c, t).procs[s.cpus[c].run.value].pc == Idle
  {
    hide DoBody, DoScan, DoResume;
  }

  lemma OthersStayInBody(s: State, c: nat, x: Context)
    requires Enabled(s, c, Body) && Exists(s, x) && x != On(s, c)
    ensures Exists(Do(s, c, Body), x)
    ensures var pc := PcOf(Do(s, c, Body), x); pc == PcOf(s, x) || pc == Fork0 || pc == Dead
  {
    hide FindPid;
    var j := CurPc(s, c).j;
    if s.cpus[c].run.Some? && !j.JWakeup? && !j.JKill? {
      var p := s.cpus[c].run.value;
      if x.Process? {
        OtherPcs(s, c, p, j, x.p);
      } else {
        SchedulersStay(s, c, p, j);
      }
      hide ProcessBody;
    }
  }

  lemma SchedulersStay(s: State, c: nat, p: nat, j: Job)
    requires c < |s.cpus| && p < |s.procs|
    ensures var t := ProcessBody(s, c, p, j);
            |t.cpus| == |s.cpus| && forall d: nat :: d < |s.cpus| ==> t.cpus[d].spc == s.cpus[d].spc
  {
    hide ExitTable, FindZombie, FindUnused, HasChild;
  }

  lemma {:induction false} RunCalls(ss: seq<State>, ts: seq<Move>, k: nat, x: Context)
    requires RunBy(ss, ts) && k <= |ts| && Exists(ss[k], x)
    ensures AsCalled(PcOf(ss[k], x), CallOf(ss, ts, k, x))
  {
    hide Enabled, Do, AsCalled, CallBy, Boot;
    if k == 0 {
      BootCalls(ss[0], x);
    } else {
      var s, m := ss[k - 1], ts[k - 1];
      assert Takes(s, ss[k - 1 + 1], m.c, m.t);
      SameSizes(s, m.c, m.t);
      RunCalls(ss, ts, k - 1, x);
      var before := CallOf(ss, ts, k - 1, x);
      if On(s, m.c) == x {
        OwnStepCalls(s, m.c, m.t, before);
      } else {
        OthersStay(s, m.c, m.t, x);
        OffIsAsCalled(before);
      }
    }
  }

  lemma BootCalls(s: State, x: Context)
    requires Boot(s) && Exists(s, x)
    ensures AsCalled(PcOf(s, x), None)
  {
  }

  lemma OffIsAsCalled(call: Option<Call>)
    ensures AsCalled(Fork0, call) && AsCalled(Dead, call)
  {
  }

  lemma SameSizes(s: State, c: nat, t: Step)
    requires Enabled(s, c, t)
    ensures |Do(s, c, t).procs| == |s.procs| && |Do(s, c, t).cpus| == |s.cpus| && Do(s, c, t).init == s.init
    ensures c < |s.cpus| && Exists(s, On(s, c)) && PcOf(s, On(s, c)) == CurPc(s, c)
  {
    if t == Body {
      SameSizesBody(s, c);
      hide DoBody;
    } else if Switches(t) {
      SwitchesMove(s, c, t);
      hide Do;
    } else {
      SameSizesElse(s, c, t);
      hide Do;
    }
  }

  lemma SameSizesBody(s: State, c: nat)
    requires Enabled(s, c, Body)
    ensures var t := Do(s, c, Body); |t.procs| == |s.procs| && |t.cpus| == |s.cpus| && t.init == s.init
  {
    hide FindPid, ProcessBody;
    var j := CurPc(s, c).j;
    if s.cpus[c].run.Some? && !j.JWakeup? && !j.JKill? {
      SameSizesCall(s, c, s.cpus[c].run.value, j);
    }
  }

  lemma SameSizesCall(s: State, c: nat, p: nat, j: Job)
    requires c < |s.cpus| && p < |s.procs|
    ensures var t := ProcessBody(s, c, p, j); |t.procs| == |s.procs| && |t.cpus| == |s.cpus| && t.init == s.init
  {
    hide FindZombie, FindUnused, HasChild, ExitTable;
  }

  lemma SameSizesElse(s: State, c: nat, t: Step)
    requires Enabled(s, c, t) && t != Body && !Switches(t)
    ensures |Do(s, c, t).procs| == |s.procs| && |Do(s, c, t).cpus| == |s.cpus| && Do(s, c, t).init == s.init
  {
    if IsFork(t) {
      ForkKeepsPlaces(s, c, t);
    } else {
      LocksAreQuiet(s, c, t);
    }
    hide Enabled, Do;
  }

  /** A context that comes out of a call has run its critical section. */
  lemma CallsAreCarriedOut(ss: seq<State>, ts: seq<Move>, k: nat)
    requires RunBy(ss, ts) && k < |ts| && ts[k].t == PopCli
    ensures ts[k].c < |ss[k].cpus|
    ensures var call := CallOf(ss, ts, k, On(ss[k], ts[k].c));
            call.Some? ==> call.value.done || call.value.j == JScan
  {
    hide Enabled, Do, CallOf, Boot;
    assert Takes(ss[k], ss[k + 1], ts[k].c, PopCli);
    SameSizes(ss[k], ts[k].c, PopCli);
    RunCalls(ss, ts, k, On(ss[k], ts[k].c));
    PopsAtTheEnd(ss[k], ts[k].c);
  }

  lemma PopsAtTheEnd(s: State, c: nat)
    requires Enabled(s, c, PopCli)
    ensures CurPc(s, c).Rel3?
  {
  }

  // ---- Pids -------------------------------------------------------------------------------------------------

  /** No two slots have the same pid, but for zero, which wait leaves behind. */
  ghost predicate PidsOnce(s: State) {
    && (forall p: nat :: p < |s.procs| ==> s.procs[p].pid < s.nextpid)
    && (forall p: nat, q: nat :: p < q < |s.procs| && s.procs[p].pid == s.procs[q].pid ==> s.procs[p].pid == 0)
  }

  /** Pids are given by allocproc and taken back by wait. */
  ghost predicate PidsMove(s: State, t: State) {
    && |t.procs| == |s.procs| && s.nextpid <= t.nextpid
    && (forall p: nat :: p < |s.procs| ==>
          t.procs[p].pid == s.procs[p].pid || t.procs[p].pid == 0
          || (t.procs[p].pid == s.nextpid && t.nextpid == s.nextpid + 1))
    && (forall p: nat, q: nat :: p < q < |s.procs| && t.procs[p].pid == t.procs[q].pid == s.nextpid < t.nextpid ==>
          s.procs[p].pid == s.nextpid || s.procs[q].pid == s.nextpid)
  }

  lemma PidsOnceKept(s: State, t: State)
    requires PidsOnce(s) && PidsMove(s, t)
    ensures PidsOnce(t)
  {
    forall p: nat, q: nat | p < q < |t.procs| && t.procs[p].pid == t.procs[q].pid
      ensures t.procs[p].pid == 0
    {
      assert s.procs[p].pid < s.nextpid && s.procs[q].pid < s.nextpid;
    }
  }

  lemma StepMovesPids(s: State, c: nat, t: Step)
    requires Enabled(s, c, t)
    ensures PidsMove(s, Do(s, c, t))
  {
    if t == Body {
      BodyMovesPids(s, c);
      hide Do;
    } else if Switches(t) {
      SwitchesMove(s, c, t);
      hide Enabled, Do;
    } else {
      ElseMovesPids(s, c, t);
      hide Do;
    }
  }

  lemma ElseMovesPids(s: State, c: nat, t: Step)
    requires Enabled(s, c, t) && t != Body && !Switches(t)
    ensures PidsMove(s, Do(s, c, t))
  {
    if IsFork(t) {
      ForkKeepsPlaces(s, c, t);
    } else {
      LocksAreQuiet(s, c, t);
    }
    hide Enabled, Do;
  }

  lemma BodyMovesPids(s: State, c: nat)
    requires Enabled(s, c, Body)
    ensures PidsMove(s, Do(s, c, Body))
  {
    var j := CurPc(s, c).j;
    if s.cpus[c].run.Some? && !j.JWakeup? && !j.JKill? {
      CallMovesPids(s, c, s.cpus[c].run.value, j);
      hide ProcessBody;
    } else {
      hide ProcessBody, FindPid;
    }
  }

  lemma CallMovesPids(s: State, c: nat, p: nat, j: Job)
    requires c < |s.cpus| && p < |s.procs|
    ensures PidsMove(s, ProcessBody(s, c, p, j))
  {
    match j
    case JExit => ExitMovesNoPid(s, p); hide ExitTable;
    case JWait => hide FindZombie, HasChild;
    case JAlloc => hide FindUnused;
    case _ =>
  }

  lemma ExitMovesNoPid(s: State, p: nat)
    requires p < |s.procs|
    ensures var r := ExitTable(s.procs[p := s.procs[p].(pc := Sw(JExit))], p, s.init);
            forall q: nat :: q < |s.procs| ==> r[q].pid == s.procs[q].pid
  {
    var ps := s.procs[p := s.procs[p].(pc := Sw(JExit))];
    hide ExitTable;
    forall q: nat | q < |ps|
      ensures ExitTable(ps, p, s.init)[q].pid == s.procs[q].pid
    {
      ExitSlot(ps, p, s.init, q);
    }
  }

  lemma {:induction false} RunPids(ss: seq<State>, ts: seq<Move>, k: nat)
    requires RunBy(ss, ts) && k <= |ts|
    ensures PidsOnce(ss[k])
  {
    hide Enabled, Do, PidsOnce, PidsMove;
    if k == 0 {
      BootPids(ss[0]);
    } else {
      RunPids(ss, ts, k - 1);
      assert Takes(ss[k - 1], ss[k - 1 + 1], ts[k - 1].c, ts[k - 1].t);
      StepMovesPids(ss[k - 1], ts[k - 1].c, ts[k - 1].t);
      PidsOnceKept(ss[k - 1], ss[k]);
    }
  }

  lemma BootPids(s: State)
    requires Boot(s)
    ensures PidsOnce(s)
  {
  }

  // ---- What the calls do to the table ----------------------------------------------------------------------

  predicate AsleepOn(p: Proc, ch: Chan) {
    p.state == SLEEPING && p.chan == ch
  }

  /** wakeup(ch): nobody is asleep on ch any more; those who were can run, and nothing else changes. */
  ghost predicate Wakes(s: State, t: State, ch: Chan) {
    && |t.procs| == |s.procs|
    && forall q: nat :: q < |s.procs| ==>
         && !AsleepOn(t.procs[q], ch)
         && t.procs[q].state == (if AsleepOn(s.procs[q], ch) then RUNNABLE else s.procs[q].state)
         && t.procs[q] == s.procs[q].(state := t.procs[q].state, pc := t.procs[q].pc)
  }

  /** q is the slot that a search for the pid finds. */
  ghost predicate Named(ps: seq<Proc>, n: nat, q: nat) {
    q < |ps| && ps[q].pid == n && forall r: nat :: r < q ==> ps[r].pid != n
  }

  /** kill(n): the process in use with this pid is marked and not left asleep; other processes stay. */
  ghost predicate Kills(ps: seq<Proc>, rs: seq<Proc>, n: nat) {
    && |rs| == |ps|
    && (forall q: nat :: q < |ps| && ps[q].state != UNUSED && ps[q].pid == n ==>
          rs[q].killed && rs[q].state == if ps[q].state == SLEEPING then RUNNABLE else ps[q].state)
    && (forall q: nat :: q < |ps| ==>
          && rs[q].killed == (ps[q].killed || Named(ps, n, q))
          && (ps[q].pid != n || ps[q].state != SLEEPING ==> rs[q].state == ps[q].state)
          && rs[q] == ps[q].(state := rs[q].state, killed := rs[q].killed, pc := rs[q].pc))
  }

  /** Every slot but p is as it was. */
  ghost predicate OnlyOwn(s: State, t: State, p: nat) {
    |t.procs| == |s.procs| && forall q: nat :: q < |s.procs| && q != p ==> t.procs[q] == s.procs[q]
  }

  /** yield: the caller gives up the CPU and can run again. */
  ghost predicate Yields(s: State, t: State, p: nat) {
    OnlyOwn(s, t, p) && p < |s.procs| && t.procs[p] == s.procs[p].(state := RUNNABLE, pc := Sw(JYield))
  }

  /** sleep(ch): the caller is asleep on ch and has given up its own lock, and that only. */
  ghost predicate Sleeps(s: State, t: State, p: nat, ch: Chan) {
    && OnlyOwn(s, t, p) && p < |s.procs| && s.procs[p].other == 1
    && t.procs[p] == s.procs[p].(chan := ch, state := SLEEPING, other := 0, pc := Sw(JSleep(ch)))
  }

  /**
   wait: with a zombie child it frees one and returns; without, it returns if it has no child or has been killed,
   and otherwise sleeps.
   */
  ghost predicate Waits(s: State, t: State, p: nat) {
    && p < |s.procs| == |t.procs|
    && (t.procs[p].state == SLEEPING <==>
          !HasZombieChild(s.procs, p) && HasChild(s.procs, p) && !s.procs[p].killed)
    && t.procs[p].pc == (if t.procs[p].state == SLEEPING then Sw(JWait) else Rel(JWait))
    && (t.procs[p].state == SLEEPING ==> t.procs[p].chan == ProcChan(p))
    && t.procs[p] == s.procs[p].(pc := t.procs[p].pc, chan := t.procs[p].chan, state := t.procs[p].state)
    && (t.procs[p].state == SLEEPING || t.procs[p].state == s.procs[p].state)
    && (if HasZombieChild(s.procs, p) then exists k: nat :: Frees(s, t, p, k)
        else OnlyOwn(s, t, p) && t.reaps == s.reaps)
  }

  /** Slot k, the first of p's children to have exited, is given up by p's wait, which returns its pid. */
  ghost predicate Frees(s: State, t: State, p: nat, k: nat) {
    && FirstZombie(s.procs, p, k) && |t.procs| == |s.procs|
    && t.procs[k] == s.procs[k].(state := UNUSED, pid := 0, parent := None, killed := false, pc := Dead)
    && t.reaps == s.reaps + [s.procs[k].pid]
    && forall q: nat :: q < |s.procs| && q != p && q != k ==> t.procs[q] == s.procs[q]
  }

  ghost predicate FirstZombie(ps: seq<Proc>, p: nat, k: nat) {
    && k < |ps| && ps[k].parent == Some(p) && ps[k].state == ZOMBIE
    && forall r: nat :: r < k ==> !(ps[r].parent == Some(p) && ps[r].state == ZOMBIE)
  }

  /** exit wakes those asleep on q's parent's channel, and on init's if it hands a zombie to init. */
  ghost predicate WokenByExit(s: State, p: nat, q: Proc)
    requires p < |s.procs|
  {
    AsleepOn(q, ParentChan(s.procs[p])) || (HasZombieChild(s.procs, p) && AsleepOn(q, ProcChan(s.init)))
  }

  /** exit: the caller is a zombie, nobody's parent, and its own parent and, for zombies, init are told. */
  ghost predicate Exits(s: State, t: State, p: nat) {
    && p < |s.procs| == |t.procs| && t.procs[p].state == ZOMBIE && t.exits == s.exits + {s.procs[p].pid}
    && forall q: nat :: q < |s.procs| ==>
         && t.procs[q].parent == (if s.procs[q].parent == Some(p) then Some(s.init) else s.procs[q].parent)
         && (q != p ==> t.procs[q].state == if WokenByExit(s, p, s.procs[q]) then RUNNABLE else s.procs[q].state)
         && t.procs[q] == s.procs[q].(parent := t.procs[q].parent, state := t.procs[q].state, pc := t.procs[q].pc)
  }

  /** allocproc: the first free slot is the caller's new one, under the next pid; without one the table stays. */
  ghost predicate Allocs(s: State, t: State, p: nat) {
    && p < |s.procs| == |t.procs| && t.procs[p] == s.procs[p].(child := t.procs[p].child, pc := Rel(JAlloc))
    && (if exists q: nat :: q < |s.procs| && s.procs[q].state == UNUSED
        then t.procs[p].child.Some? && TakesSlot(s, t, p, t.procs[p].child.value)
        else t.procs[p].child == s.procs[p].child && OnlyOwn(s, t, p) && t.nextpid == s.nextpid)
  }

  ghost predicate TakesSlot(s: State, t: State, p: nat, k: nat) {
    && k < |s.procs| == |t.procs| && k != p && s.procs[k].state == UNUSED
    && (forall r: nat :: r < k ==> s.procs[r].state != UNUSED)
    && t.procs[k] == s.procs[k].(state := EMBRYO, pid := s.nextpid, pc := Fork0) && t.nextpid == s.nextpid + 1
    && forall q: nat :: q < |s.procs| && q != p && q != k ==> t.procs[q] == s.procs[q]
  }

  ghost predicate Effect(s: State, t: State, x: Context, j: Job) {
    match j
    case JWakeup(ch) => Wakes(s, t, ch)
    case JKill(n) => Kills(s.procs, t.procs, n)
    case JYield => x.Process? && Yields(s, t, x.p)
    case JSleep(ch) => x.Process? && Sleeps(s, t, x.p, ch)
    case JWait => x.Process? && Waits(s, t, x.p)
    case JExit => x.Process? && Exits(s, t, x.p)
    case JAlloc => x.Process? && Allocs(s, t, x.p)
    case _ => false
  }

  lemma BodyHasEffect(s: State, c: nat)
    requires Inv(s) && PidsOnce(s) && Enabled(s, c, Body)
    ensures Effect(s, Do(s, c, Body), On(s, c), CurPc(s, c).j)
  {
    BodyIsIn(s, c);
    InBody(s, c);
    assert PidInv(s);
    hide Inv, PidsOnce, WakeAll, ExitTable, Wakes, Kills, Yields, Sleeps, Waits, Exits, Allocs, ProcInv, Enabled, Do,
        PidInv, CpuInv, DoWait, DoAlloc, DoSleep, FindPid, Goto;
    match CurPc(s, c).j
    case JWakeup(ch) => WakeupWakes(s, c, ch);
    case JKill(n) => KillKills(s, c, n);
    case JYield => YieldYields(s, s.cpus[c].run.value);
    case JSleep(ch) => SleepSleeps(s, c, s.cpus[c].run.value, ch);
    case JWait => WaitWaits(s, s.cpus[c].run.value);
    case JExit => ExitExits(s, c, s.cpus[c].run.value);
    case JAlloc => AllocAllocs(s, s.cpus[c].run.value);
  }

  lemma BodyIsIn(s: State, c: nat)
    requires Enabled(s, c, Body)
    ensures c < |s.cpus| && (s.cpus[c].run.Some? ==> s.cpus[c].run.value < |s.procs|) && CurPc(s, c).In?
    ensures Do(s, c, Body) == DoBody(s, c)
  {
    hide DoBody;
  }

  /** The context on CPU c is not a sleeping process. */
  predicate Awake(s: State, c: nat) {
    && c < |s.cpus|
    && (s.cpus[c].run.Some? ==> s.cpus[c].run.value < |s.procs| && s.procs[s.cpus[c].run.value].state == RUNNING)
  }

  lemma WakeupWakes(s: State, c: nat, ch: Chan)
    requires Awake(s, c)
    ensures Wakes(s, Goto(s.(procs := WakeAll(s.procs, ch)), c, Rel(JWakeup(ch))), ch)
  {
    var w := WakeAll(s.procs, ch);
    forall q: nat | q < |s.procs|
      ensures w[q] == Woken(s.procs[q], ch)
    {
    }
    hide WakeAll;
  }

  lemma KillKills(s: State, c: nat, n: nat)
    requires Awake(s, c) && PidInv(s) && PidsOnce(s)
    ensures var k := FindPid(s.procs, n, 0);
            var r := if k < |s.procs| then PutProc(s, k, Killed(s.procs[k])) else s;
            Kills(s.procs, Goto(r, c, Rel(JKill(n))).procs, n)
  {
    NamedIsFound(s, n);
    var k := FindPid(s.procs, n, 0);
    var r := if k < |s.procs| then PutProc(s, k, Killed(s.procs[k])) else s;
    assert r.procs == KilledAt(s.procs, k);
    hide FindPid, PidInv, PidsOnce, Kills, Goto, PutProc, Named, KilledAt;
    MarkKills(s.procs, n, k);
    GotoMovesPcs(r, c, Rel(JKill(n)));
    KillsAnywhere(s.procs, r.procs, Goto(r, c, Rel(JKill(n))).procs, n);
  }

  lemma KillsAnywhere(ps: seq<Proc>, rs: seq<Proc>, us: seq<Proc>, n: nat)
    requires Kills(ps, rs, n) && |us| == |rs| && forall q: nat :: q < |rs| ==> us[q] == rs[q].(pc := us[q].pc)
    ensures Kills(ps, us, n)
  {
    hide Named;
  }

  function KilledAt(ps: seq<Proc>, k: nat): seq<Proc> {
    if k < |ps| then ps[k := Killed(ps[k])] else ps
  }

  lemma MarkKills(ps: seq<Proc>, n: nat, k: nat)
    requires forall q: nat :: q < |ps| ==>
               (Named(ps, n, q) <==> q == k) && (ps[q].state != UNUSED && ps[q].pid == n ==> q == k)
    ensures Kills(ps, KilledAt(ps, k), n)
  {
    assert k < |ps| ==> Named(ps, n, k);
  }

  lemma GotoMovesPcs(s: State, c: nat, pc: Pc)
    requires Sane(s, c)
    ensures |Goto(s, c, pc).procs| == |s.procs|
    ensures forall q: nat :: q < |s.procs| ==>
              Goto(s, c, pc).procs[q] == s.procs[q].(pc := Goto(s, c, pc).procs[q].pc)
  {
  }

  lemma NamedIsFound(s: State, n: nat)
    requires PidInv(s) && PidsOnce(s)
    ensures var k := FindPid(s.procs, n, 0);
            forall q: nat :: q < |s.procs| ==>
              && (Named(s.procs, n, q) <==> q == k)
              && (s.procs[q].state != UNUSED && s.procs[q].pid == n ==> q == k)
  {
  }

  lemma YieldYields(s: State, p: nat)
    requires p < |s.procs|
    ensures Yields(s, PutProc(s, p, s.procs[p].(state := RUNNABLE, pc := Sw(JYield))), p)
  {
  }

  lemma SleepSleeps(s: State, c: nat, p: nat, ch: Chan)
    requires p < |s.procs| && c < |s.cpus| && s.procs[p].other == 1
    ensures Sleeps(s, DoSleep(s, c, p, ch), p, ch)
  {
  }

  lemma WaitWaits(s: State, p: nat)
    requires p < |s.procs| && s.procs[p].state == RUNNING
    ensures Waits(s, DoWait(s, p), p)
  {
    var k := FindZombie(s.procs, p, 0);
    if k < |s.procs| {
      assert FirstZombie(s.procs, p, k);
      assert Frees(s, DoWait(s, p), p, k);
    }
  }

  lemma ExitExits(s: State, c: nat, p: nat)
    requires p < |s.procs| && c < |s.cpus|
    ensures Exits(s, ProcessBody(s, c, p, JExit), p)
  {
    var ps := s.procs[p := s.procs[p].(pc := Sw(JExit))];
    assert forall q: nat :: q < |ps| ==> ps[q] == s.procs[q].(pc := ps[q].pc);
    assert forall q: nat :: q < |ps| ==> s.procs[q] == ps[q].(pc := s.procs[q].pc);
    assert HasZombieChild(ps, p) <==> HasZombieChild(s.procs, p);
    hide ExitTable, HasZombieChild;
    forall q: nat | q < |s.procs|
      ensures var r := ExitTable(ps, p, s.init)[q];
        && r.parent == (if s.procs[q].parent == Some(p) then Some(s.init) else s.procs[q].parent)
        && (q == p ==> r.state == ZOMBIE)
        && (q != p ==> r.state == if WokenByExit(s, p, s.procs[q]) then RUNNABLE else s.procs[q].state)
        && r == s.procs[q].(parent := r.parent, state := r.state, pc := r.pc)
    {
      ExitSlot(ps, p, s.init, q);
      if q != p {
        ExitState(ps, p, s.init, q);
      }
    }
  }

  lemma ExitState(ps: seq<Proc>, p: nat, init: nat, q: nat)
    requires p < |ps| && q < |ps| && q != p
    ensures ExitTable(ps, p, init)[q].state ==
              if AsleepOn(ps[q], ParentChan(ps[p])) || (HasZombieChild(ps, p) && AsleepOn(ps[q], ProcChan(init)))
              then RUNNABLE else ps[q].state
  {
    var w := WakeAll(ps, ParentChan(ps[p]));
    var a := Reparent(w, p, init);
    assert w[q] == Woken(ps[q], ParentChan(ps[p])) && a[q] == Adopt(w[q], p, init);
    assert HasZombieChild(w, p) <==> HasZombieChild(ps, p);
    assert HasZombieChild(w, p) ==> WakeAll(a, ProcChan(init))[q] == Woken(a[q], ProcChan(init));
  }

  lemma AllocAllocs(s: State, p: nat)
    requires p < |s.procs| && s.procs[p].state == RUNNING
    ensures Allocs(s, DoAlloc(s, p), p)
  {
    var k := FindUnused(s.procs, 0);
    if k < |s.procs| {
      assert s.procs[k].state == UNUSED;
      assert TakesSlot(s, DoAlloc(s, p), p, k);
    }
  }

  /** Every critical section does to the table what the call that its context is in asks for. */
  lemma CallsTakeEffect(ss: seq<State>, ts: seq<Move>, k: nat)
    requires RunBy(ss, ts) && k < |ts| && ts[k].t == Body
    ensures ts[k].c < |ss[k].cpus|
    ensures var x := On(ss[k], ts[k].c);
            CallOf(ss, ts, k, x).Some? && Effect(ss[k], ss[k + 1], x, CallOf(ss, ts, k, x).value.j)
  {
    hide Enabled, Do, Effect, Inv, PidsOnce;
    var c := ts[k].c;
    assert Takes(ss[k], ss[k + 1], c, Body);
    RunByIsRun(ss, ts);
    RunInv(ss, k);
    RunPids(ss, ts, k);
    SameSizes(ss[k], c, Body);
    RunCalls(ss, ts, k, On(ss[k], c));
    BodyIsIn(ss[k], c);
    BodyHasEffect(ss[k], c);
  }
}
