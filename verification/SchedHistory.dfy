/**
 What a slot of the process table owes to the steps before: who is asleep, who has been killed and whose child
 each process is, each told from the calls of a run alone; and fork and the scheduler's scan.
 */
module SchedHistory {
  import opened Sched
  import opened Options
  import opened SchedInv
  import opened SchedFrame
  import opened SchedBodies
  import opened SchedTheorems
  import opened SchedCalls

  // ---- The story of one slot -------------------------------------------------------------------------------

  /** What the calls say of a slot: on what it is asleep, whether it is marked as killed, and its parent. */
  datatype Story = Story(asleep: Option<Chan>, marked: bool, parent: Option<nat>)

  ghost function StoryBy(s: State, c: nat, t: Step, call: Option<Call>, p: nat, st: Story): Story
    requires c < |s.cpus|
  {
    match t
    case Body => if call.Some? then StoryByCall(s, On(s, c), call.value.j, p, st) else st
    case ForkParent => if Forks(s, On(s, c), p) then st.(parent := Some(On(s, c).p)) else st
    case _ => st
  }

  /** The context is a process that has p as the slot for its fork. */
  predicate Forks(s: State, x: Context, p: nat) {
    x.Process? && x.p < |s.procs| && s.procs[x.p].child == Some(p)
  }

  predicate GoesToWait(s: State, x: Context, p: nat) {
    x == Process(p) && p < |s.procs| && !HasZombieChild(s.procs, p) && HasChild(s.procs, p) && !s.procs[p].killed
  }

  ghost function StoryByCall(s: State, x: Context, j: Job, p: nat, st: Story): Story {
    match j
    case JSleep(ch) => if x == Process(p) then st.(asleep := Some(ch)) else st
    case JWakeup(ch) => if st.asleep == Some(ch) then st.(asleep := None) else st
    case JKill(n) => StoryByKill(s.procs, n, p, st)
    case JWait =>
      if GoesToWait(s, x, p) then st.(asleep := Some(ProcChan(p)))
      else if x.Process? && FirstZombie(s.procs, x.p, p) then st.(marked := false, parent := None)
      else st
    case JExit => if x.Process? && x.p < |s.procs| then StoryByExit(s, x.p, st) else st
    case _ => st
  }

  ghost function StoryByKill(ps: seq<Proc>, n: nat, p: nat, st: Story): Story {
    if Named(ps, n, p) then st.(asleep := None, marked := true) else st
  }

  ghost function StoryByExit(s: State, q: nat, st: Story): Story
    requires q < |s.procs|
  {
    st.(asleep := if st.asleep == Some(ParentChan(s.procs[q]))
                     || (HasZombieChild(s.procs, q) && st.asleep == Some(ProcChan(s.init)))
                  then None else st.asleep,
        parent := if st.parent == Some(q) then Some(s.init) else st.parent)
  }

  ghost function StoryOf(ss: seq<State>, ts: seq<Move>, k: nat, p: nat): Story
    requires k <= |ts| < |ss|
  {
    if k == 0 then Story(None, false, None)
    else
      var st, m := StoryOf(ss, ts, k - 1, p), ts[k - 1];
      if m.c < |ss[k - 1].cpus|
      then StoryBy(ss[k - 1], m.c, m.t, CallOf(ss, ts, k - 1, On(ss[k - 1], m.c)), p, st)
      else st
  }

  /** The slot is as the story says. */
  predicate Tells(st: Story, me: Proc) {
    && (me.state == SLEEPING <==> st.asleep.Some?) && (st.asleep.Some? ==> me.chan == st.asleep.value)
    && me.killed == st.marked && me.parent == st.parent
  }

  // ---- The critical sections tell the story ----------------------------------------------------------------

  lemma EffectTells(s: State, t: State, x: Context, j: Job, p: nat, st: Story)
    requires Effect(s, t, x, j) && p < |s.procs| && Tells(st, s.procs[p])
    requires x.Process? ==> x.p < |s.procs| && s.procs[x.p].state == RUNNING
    requires forall q: nat :: q < |s.procs| && s.procs[q].state == UNUSED ==> s.procs[q].parent.None?
    requires PidInv(s) && PidsOnce(s)
    ensures p < |t.procs| && Tells(StoryByCall(s, x, j, p, st), t.procs[p])
  {
    hide Wakes, Kills, Yields, Sleeps, Waits, Exits, Allocs, Tells, PidInv, PidsOnce, StoryByKill, StoryByExit;
    match j
    case JWakeup(ch) => WakesTells(s, t, ch, p, st);
    case JKill(n) => KillsTells(s, t, n, p, st);
    case JYield => OwnTells(s, t, x.p, p, st); YieldsTells(s, t, x.p, st);
    case JSleep(ch) => OwnTells(s, t, x.p, p, st); SleepsTells(s, t, x.p, ch, st);
    case JWait => WaitsTells(s, t, x.p, p, st);
    case JExit => ExitsTells(s, t, x.p, p, st);
    case JAlloc => AllocsTells(s, t, x.p, p, st);
  }

  lemma WakesTells(s: State, t: State, ch: Chan, p: nat, st: Story)
    requires Wakes(s, t, ch) && p < |s.procs| && Tells(st, s.procs[p])
    ensures p < |t.procs| && Tells(if st.asleep == Some(ch) then st.(asleep := None) else st, t.procs[p])
  {
  }

  lemma KillsTells(s: State, t: State, n: nat, p: nat, st: Story)
    requires Kills(s.procs, t.procs, n) && p < |s.procs| && Tells(st, s.procs[p]) && PidInv(s) && PidsOnce(s)
    ensures p < |t.procs| && Tells(StoryByKill(s.procs, n, p, st), t.procs[p])
  {
    if s.procs[p].pid == n && s.procs[p].state != UNUSED {
      assert Named(s.procs, n, p);
    }
  }

  lemma OwnTells(s: State, t: State, x: nat, p: nat, st: Story)
    requires p < |s.procs| && Tells(st, s.procs[p])
    ensures OnlyOwn(s, t, x) && p != x ==> p < |t.procs| && Tells(st, t.procs[p])
  {
  }

  lemma YieldsTells(s: State, t: State, p: nat, st: Story)
    requires p < |s.procs| && Yields(s, t, p)
    ensures OnlyOwn(s, t, p) && p < |t.procs|
    ensures s.procs[p].state == RUNNING && Tells(st, s.procs[p]) ==> Tells(st, t.procs[p])
  {
  }

  lemma SleepsTells(s: State, t: State, p: nat, ch: Chan, st: Story)
    requires p < |s.procs| && Sleeps(s, t, p, ch)
    ensures OnlyOwn(s, t, p) && p < |t.procs|
    ensures Tells(st, s.procs[p]) ==> Tells(st.(asleep := Some(ch)), t.procs[p])
  {
  }

  lemma WaitsTells(s: State, t: State, x: nat, p: nat, st: Story)
    requires Waits(s, t, x) && p < |s.procs| && Tells(st, s.procs[p]) && s.procs[x].state == RUNNING
    ensures p < |t.procs| && Tells(StoryByCall(s, Process(x), JWait, p, st), t.procs[p])
  {
    if HasZombieChild(s.procs, x) {
      var k: nat :| Frees(s, t, x, k);
      assert FirstZombie(s.procs, x, p) <==> p == k;
    } else {
      assert !FirstZombie(s.procs, x, p);
    }
  }

  lemma ExitsTells(s: State, t: State, x: nat, p: nat, st: Story)
    requires Exits(s, t, x) && p < |s.procs| && Tells(st, s.procs[p]) && s.procs[x].state == RUNNING
    ensures p < |t.procs| && Tells(StoryByExit(s, x, st), t.procs[p])
  {
    hide HasZombieChild;
  }

  lemma AllocsTells(s: State, t: State, x: nat, p: nat, st: Story)
    requires Allocs(s, t, x) && p < |s.procs| && Tells(st, s.procs[p]) && s.procs[x].state == RUNNING
    ensures p < |t.procs| && Tells(st, t.procs[p])
  {
    if exists q: nat :: q < |s.procs| && s.procs[q].state == UNUSED {
      var k := t.procs[x].child.value;
      assert TakesSlot(s, t, x, k);
      if p != x && p != k {
        assert t.procs[p] == s.procs[p];
      }
    }
  }

  // ---- So do the other steps ---------------------------------------------------------------------------------

  /** Outside the critical sections nobody falls asleep, is woken or killed, and only fork sets a parent. */
  lemma ElseTells(s: State, c: nat, t: Step, call: Option<Call>, p: nat, st: Story)
    requires Inv(s) && Enabled(s, c, t) && t != Body && p < |s.procs| && Tells(st, s.procs[p])
    ensures p < |Do(s, c, t).procs| && Tells(StoryBy(s, c, t, call, p, st), Do(s, c, t).procs[p])
  {
    hide Inv, Enabled, Do, Tells;
    if IsFork(t) {
      hide StoryBy;
      ForkTells(s, c, t, call, p, st);
    } else if t == Resume {
      ResumeTells(s, c, p, st);
    } else if Switches(t) {
      SwitchTells(s, c, t, p, st);
    } else {
      LockTells(s, c, t, p, st);
    }
  }

  lemma SwitchTells(s: State, c: nat, t: Step, p: nat, st: Story)
    requires Enabled(s, c, t) && Switches(t) && t != Resume && p < |s.procs| && Tells(st, s.procs[p])
    ensures p < |Do(s, c, t).procs| && Tells(st, Do(s, c, t).procs[p])
  {
    SwitchesMove(s, c, t);
    if s.cpus[c].run == Some(p) {
      OwnChanStays(s, c, t);
    }
    hide Enabled, Do;
  }

  lemma OwnChanStays(s: State, c: nat, t: Step)
    requires Enabled(s, c, t) && Switches(t) && t != Resume && s.cpus[c].run.Some?
    ensures s.cpus[c].run.value < |s.procs| == |Do(s, c, t).procs|
    ensures Do(s, c, t).procs[s.cpus[c].run.value].chan == s.procs[s.cpus[c].run.value].chan
  {
    hide DoBody, DoResume;
  }

  lemma ResumeTells(s: State, c: nat, p: nat, st: Story)
    requires Inv(s) && Enabled(s, c, Resume) && p < |s.procs| && Tells(st, s.procs[p])
    ensures p < |Do(s, c, Resume).procs| && Tells(st, Do(s, c, Resume).procs[p])
  {
    ResumerRuns(s, c);
    ResumedTells(s, c, s.cpus[c].run.value, p, st);
    hide DoResume, Inv;
  }

  lemma ResumerRuns(s: State, c: nat)
    requires Inv(s) && Enabled(s, c, Resume)
    ensures s.procs[s.cpus[c].run.value].state == RUNNING && s.procs[s.cpus[c].run.value].pc.Off?
  {
    CpuHolds(s, c);
    assert ProcInv(s, s.cpus[c].run.value);
  }

  lemma ResumedTells(s: State, c: nat, q: nat, p: nat, st: Story)
    requires c < |s.cpus| && q < |s.procs| && s.procs[q].pc.Off? && s.procs[q].state == RUNNING
    requires p < |s.procs| && Tells(st, s.procs[p])
    ensures p < |DoResume(s, c, q).procs| && Tells(st, DoResume(s, c, q).procs[p])
  {
  }

  lemma LockTells(s: State, c: nat, t: Step, p: nat, st: Story)
    requires Enabled(s, c, t) && t != Body && !Switches(t) && !IsFork(t)
    requires p < |s.procs| && Tells(st, s.procs[p])
    ensures p < |Do(s, c, t).procs| && Tells(st, Do(s, c, t).procs[p])
  {
    SameTableBut(s, c, t, p);
    hide Enabled, Do;
  }

  /** The table's part of a slot. */
  predicate SameEntry(a: Proc, b: Proc) {
    a.state == b.state && a.chan == b.chan && a.killed == b.killed && a.parent == b.parent && a.child == b.child
  }

  lemma SameTableBut(s: State, c: nat, t: Step, p: nat)
    requires Enabled(s, c, t) && t != Body && !Switches(t) && !IsFork(t)
    requires p < |s.procs|
    ensures p < |Do(s, c, t).procs| && SameEntry(s.procs[p], Do(s, c, t).procs[p])
  {
    LocksAreQuiet(s, c, t);
    hide Enabled, Do;
  }

  lemma ForkTells(s: State, c: nat, t: Step, call: Option<Call>, p: nat, st: Story)
    requires Inv(s) && Enabled(s, c, t) && IsFork(t)
    requires p < |s.procs| && Tells(st, s.procs[p])
    ensures p < |Do(s, c, t).procs| && Tells(StoryBy(s, c, t, call, p, st), Do(s, c, t).procs[p])
  {
    ForkStep(s, c, t);
  }

  // ---- Runs --------------------------------------------------------------------------------------------------

  lemma StepTells(s: State, c: nat, t: Step, call: Option<Call>, p: nat, st: Story)
    requires Inv(s) && PidsOnce(s) && Enabled(s, c, t) && p < |s.procs| && Tells(st, s.procs[p])
    requires t == Body ==> call.Some? && call.value.j == CurPc(s, c).j
    ensures p < |Do(s, c, t).procs| && Tells(StoryBy(s, c, t, call, p, st), Do(s, c, t).procs[p])
  {
    if t == Body {
      BodyIsIn(s, c);
      BodyHasEffect(s, c);
      InBody(s, c);
      StatePcs(s);
      assert PidInv(s);
      hide Inv, PidInv, PidsOnce, Enabled, Do, Effect, Tells, StoryByCall;
      EffectTells(s, DoBody(s, c), On(s, c), CurPc(s, c).j, p, st);
    } else {
      hide Inv, PidsOnce, Enabled, Do, Tells, StoryBy;
      ElseTells(s, c, t, call, p, st);
    }
  }

  /**
   In every run, a process is asleep on a channel exactly if it went to sleep there and since then there was no
   wakeup for the channel, no kill of the process, and no exit that wakes it; it is marked exactly if a kill has
   named its slot since the slot was last given up; and its parent is the process that forked it or, once that
   has exited, init.
   */
  lemma {:induction false} RunTells(ss: seq<State>, ts: seq<Move>, k: nat, p: nat)
    requires RunBy(ss, ts) && k <= |ts| && p < |ss[0].procs|
    ensures p < |ss[k].procs| && Tells(StoryOf(ss, ts, k, p), ss[k].procs[p])
  {
    hide Enabled, Do, Boot, Tells, StoryBy, Inv, PidsOnce, CallOf;
    if k == 0 {
      BootTells(ss[0], p);
    } else {
      RunTells(ss, ts, k - 1, p);
      var s, c, t := ss[k - 1], ts[k - 1].c, ts[k - 1].t;
      assert Takes(s, ss[k - 1 + 1], c, t);
      RunByIsRun(ss, ts);
      RunInv(ss, k - 1);
      RunPids(ss, ts, k - 1);
      SameSizes(s, c, t);
      if t == Body {
        RunCalls(ss, ts, k - 1, On(s, c));
        BodyIsIn(s, c);
      }
      StepTells(s, c, t, CallOf(ss, ts, k - 1, On(s, c)), p, StoryOf(ss, ts, k - 1, p));
    }
  }

  lemma BootTells(s: State, p: nat)
    requires Boot(s) && p < |s.procs|
    ensures Tells(Story(None, false, None), s.procs[p])
  {
  }

  // ---- fork --------------------------------------------------------------------------------------------------

  /** fork's last steps on the slot that allocproc found: its parent, and its start or its return to the free slots. */
  ghost predicate ForkMoves(s: State, r: State, f: nat, t: Step) {
    && f < |s.procs| == |r.procs| && s.procs[f].child.Some? && s.procs[f].child.value < |s.procs|
    && var q := s.procs[f].child.value;
    && s.procs[q].state == EMBRYO && q != f
    && (t == ForkParent ==> r.procs[q] == s.procs[q].(parent := Some(f), ppid := s.procs[f].pid)
                            && r.procs[f] == s.procs[f])
    && (t == ForkRun ==> r.procs[q] == s.procs[q].(state := RUNNABLE) && r.procs[f] == s.procs[f].(child := None))
    && (t == ForkFail ==>
          r.procs[q] == s.procs[q].(state := UNUSED, pc := Dead) && r.procs[f] == s.procs[f].(child := None))
    && forall p: nat :: p < |s.procs| && p != f && p != q ==> r.procs[p] == s.procs[p]
  }

  lemma ForkStep(s: State, c: nat, t: Step)
    requires Inv(s) && Enabled(s, c, t) && IsFork(t)
    ensures On(s, c).Process? && ForkMoves(s, Do(s, c, t), On(s, c).p, t)
  {
    ForkerIs(s, c, t);
    var f := s.cpus[c].run.value;
    Forking(s, c, f);
    ForkProcs(s, c, t, f, s.procs[f].child.value);
    hide Inv, ProcInv, CpuInv, Enabled, Do, StatePc;
    ForkMovesOf(s, Do(s, c, t), f, s.procs[f].child.value, t);
  }

  lemma ForkMovesOf(s: State, r: State, f: nat, q: nat, t: Step)
    requires f < |s.procs| && s.procs[f].child == Some(q) && q < |s.procs| && q != f && s.procs[q].state == EMBRYO
    requires IsFork(t)
    requires t == ForkParent ==> r.procs == s.procs[q := s.procs[q].(parent := Some(f), ppid := s.procs[f].pid)]
    requires t == ForkRun ==>
               r.procs == s.procs[q := s.procs[q].(state := RUNNABLE)][f := s.procs[f].(child := None)]
    requires t == ForkFail ==>
               r.procs == s.procs[q := s.procs[q].(state := UNUSED, pc := Dead)][f := s.procs[f].(child := None)]
    ensures ForkMoves(s, r, f, t)
  {
  }

  lemma ForkerIs(s: State, c: nat, t: Step)
    requires Enabled(s, c, t) && IsFork(t)
    ensures c < |s.cpus| && s.cpus[c].run.Some? && s.cpus[c].run.value < |s.procs|
    ensures var me := s.procs[s.cpus[c].run.value]; me.pc == Idle && me.child.Some?
  {
  }

  lemma ForkProcs(s: State, c: nat, t: Step, f: nat, q: nat)
    requires Enabled(s, c, t) && s.cpus[c].run == Some(f) && f < |s.procs| && s.procs[f].child == Some(q)
    requires q < |s.procs| && q != f
    ensures t == ForkParent ==>
              Do(s, c, t).procs == s.procs[q := s.procs[q].(parent := Some(f), ppid := s.procs[f].pid)]
    ensures t == ForkRun ==>
              Do(s, c, t).procs == s.procs[q := s.procs[q].(state := RUNNABLE)][f := s.procs[f].(child := None)]
    ensures t == ForkFail ==>
              Do(s, c, t).procs ==
                s.procs[q := s.procs[q].(state := UNUSED, pc := Dead)][f := s.procs[f].(child := None)]
  {
    hide DoBody, DoScan, DoResume;
  }

  /** The slot of a fork in progress has no parent yet or has the forking process as its parent. */
  ghost predicate ForksOwn(s: State) {
    forall f: nat :: f < |s.procs| && s.procs[f].child.Some? ==> ForksFor(s, f, s.procs[f].child.value)
  }

  ghost predicate ForksFor(s: State, f: nat, q: nat) {
    q < |s.procs| && (s.procs[q].parent.None? || s.procs[q].parent == Some(f))
  }

  lemma CallsForksOwn(s: State, t: State, x: Context, j: Job)
    requires Effect(s, t, x, j) && ForksOwn(s)
    requires x.Process? ==> x.p < |s.procs| && (j == JExit ==> s.procs[x.p].child.None?)
    requires forall f: nat :: f < |s.procs| && s.procs[f].child.Some? ==>
               s.procs[f].child.value < |s.procs| && s.procs[s.procs[f].child.value].state == EMBRYO
    requires forall q: nat :: q < |s.procs| && s.procs[q].state == UNUSED ==> s.procs[q].parent.None?
    ensures ForksOwn(t)
  {
    forall f: nat | f < |t.procs| && t.procs[f].child.Some?
      ensures ForksFor(t, f, t.procs[f].child.value)
    {
      OneForksOwn(s, t, x, j, f);
    }
  }

  lemma OneForksOwn(s: State, t: State, x: Context, j: Job, f: nat)
    requires Effect(s, t, x, j) && ForksOwn(s) && f < |t.procs| && t.procs[f].child.Some?
    requires x.Process? ==> x.p < |s.procs| && (j == JExit ==> s.procs[x.p].child.None?)
    requires forall f: nat :: f < |s.procs| && s.procs[f].child.Some? ==>
               s.procs[f].child.value < |s.procs| && s.procs[s.procs[f].child.value].state == EMBRYO
    requires forall q: nat :: q < |s.procs| && s.procs[q].state == UNUSED ==> s.procs[q].parent.None?
    ensures ForksFor(t, f, t.procs[f].child.value)
  {
    match j
    case JAlloc => hide Wakes, Kills, Yields, Sleeps, Waits, Exits;
    case JWait => hide Wakes, Kills, Yields, Sleeps, Allocs, Exits;
      if HasZombieChild(s.procs, x.p) {
        var k: nat :| Frees(s, t, x.p, k);
      }
    case JExit => hide Wakes, Kills, Yields, Sleeps, Allocs, Waits;
    case _ => hide Waits, Allocs, Exits;
  }

  lemma ElseForksOwn(s: State, c: nat, t: Step)
    requires Inv(s) && Enabled(s, c, t) && t != Body && ForksOwn(s)
    ensures ForksOwn(Do(s, c, t))
  {
    SameSizes(s, c, t);
    if IsFork(t) {
      ForkStep(s, c, t);
      assert ChildInv(s);
      hide Inv, Enabled, Do;
      ForkKeepsOwn(s, Do(s, c, t), On(s, c).p, t);
    } else {
      hide Inv, Enabled, Do;
      forall p: nat | p < |s.procs|
        ensures SameKin(s.procs[p], Do(s, c, t).procs[p])
      {
        if Switches(t) {
          SwitchKeepsKin(s, c, t, p);
        } else {
          SameTableBut(s, c, t, p);
        }
      }
    }
  }

  lemma ForkKeepsOwn(s: State, r: State, f: nat, t: Step)
    requires ForkMoves(s, r, f, t) && IsFork(t) && ChildInv(s) && ForksOwn(s)
    ensures ForksOwn(r)
  {
    forall g: nat | g < |r.procs| && r.procs[g].child.Some?
      ensures ForksFor(r, g, r.procs[g].child.value)
    {
      assert s.procs[g].child == r.procs[g].child && ForksFor(s, g, s.procs[g].child.value);
    }
  }

  predicate SameKin(a: Proc, b: Proc) {
    a.parent == b.parent && a.child == b.child
  }

  lemma SwitchKeepsKin(s: State, c: nat, t: Step, p: nat)
    requires Enabled(s, c, t) && Switches(t) && p < |s.procs|
    ensures p < |Do(s, c, t).procs| && SameKin(s.procs[p], Do(s, c, t).procs[p])
  {
    SwitchesMove(s, c, t);
    hide Enabled, Do;
  }

  lemma StepForksOwn(s: State, c: nat, t: Step)
    requires Inv(s) && PidsOnce(s) && Enabled(s, c, t) && ForksOwn(s)
    ensures ForksOwn(Do(s, c, t))
  {
    if t == Body {
      BodyIsIn(s, c);
      BodyHasEffect(s, c);
      InBody(s, c);
      StatePcs(s);
      assert ChildInv(s);
      hide Inv, PidsOnce, Enabled, Do, Effect, ForksOwn, CpuInv, ProcInv;
      CallsForksOwn(s, DoBody(s, c), On(s, c), CurPc(s, c).j);
    } else {
      ElseForksOwn(s, c, t);
    }
  }

  lemma {:induction false} RunForksOwn(ss: seq<State>, ts: seq<Move>, k: nat)
    requires RunBy(ss, ts) && k <= |ts|
    ensures ForksOwn(ss[k])
  {
    hide Enabled, Do, Inv, PidsOnce;
    if k == 0 {
      assert Boot(ss[0]);
    } else {
      hide ForksOwn, Boot;
      RunForksOwn(ss, ts, k - 1);
      assert Takes(ss[k - 1], ss[k - 1 + 1], ts[k - 1].c, ts[k - 1].t);
      RunByIsRun(ss, ts);
      RunInv(ss, k - 1);
      RunPids(ss, ts, k - 1);
      StepForksOwn(ss[k - 1], ts[k - 1].c, ts[k - 1].t);
    }
  }

  /** A process that fork starts is the forking process's child; nothing but its slot and the fork's own changes. */
  lemma ForkStartsAChild(ss: seq<State>, ts: seq<Move>, k: nat)
    requires RunBy(ss, ts) && k < |ts| && IsFork(ts[k].t)
    ensures ts[k].c < |ss[k].cpus| && On(ss[k], ts[k].c).Process?
    ensures ForkMoves(ss[k], ss[k + 1], On(ss[k], ts[k].c).p, ts[k].t)
    ensures ts[k].t == ForkRun ==>
              var f := On(ss[k], ts[k].c).p; ss[k].procs[ss[k].procs[f].child.value].parent == Some(f)
  {
    var s, c, t := ss[k], ts[k].c, ts[k].t;
    hide Do, Inv, Boot, ForksOwn;
    assert Takes(s, ss[k + 1], c, t);
    RunByIsRun(ss, ts);
    RunInv(ss, k);
    ForkStep(s, c, t);
    RunForksOwn(ss, ts, k);
    if t == ForkRun {
      RunsWithParent(s, c);
    }
  }

  lemma RunsWithParent(s: State, c: nat)
    requires ForksOwn(s) && Enabled(s, c, ForkRun)
    ensures var f := s.cpus[c].run.value; s.procs[f].child.Some? && ForksFor(s, f, s.procs[f].child.value)
    ensures var f := s.cpus[c].run.value; s.procs[s.procs[f].child.value].parent == Some(f)
  {
  }

  // ---- The scheduler's scan ----------------------------------------------------------------------------------

  function LookedBy(t: Step, n: nat): nat {
    match t
    case Begin(_) => 0
    case ScanSlot => n + 1
    case _ => n
  }

  /** How often CPU c's scheduler has looked at a slot since it began its scan. */
  function Looked(ss: seq<State>, ts: seq<Move>, k: nat, c: nat): nat
    requires k <= |ts| < |ss|
  {
    if k == 0 then 0
    else
      var n, m := Looked(ss, ts, k - 1, c), ts[k - 1];
      if m.c == c < |ss[k - 1].cpus| && On(ss[k - 1], c) == Scheduler(c) then LookedBy(m.t, n) else n
  }

  /** Where the scan is is what the steps say; it ends when every slot has been looked at. */
  predicate AsLooked(pc: Pc, n: nat, size: nat) {
    match pc
    case Spin(_) => n == 0
    case Got(_) => n == 0
    case In(_) => n == 0
    case InScan(i) => n == i
    case Picked(i) => n == i + 1
    case Out(i) => n == i + 1
    case Rel(j) => j == JScan ==> n > size
    case Rel2(j) => j == JScan ==> n > size
    case Rel3(j) => j == JScan ==> n > size
    case _ => true
  }

  lemma OwnStepLooks(s: State, c: nat, t: Step, n: nat)
    requires Enabled(s, c, t) && s.cpus[c].run.None? && AsLooked(s.cpus[c].spc, n, |s.procs|)
    requires CurPc(s, c).In? ==> CurPc(s, c).j != JScan
    ensures c < |Do(s, c, t).cpus| && AsLooked(Do(s, c, t).cpus[c].spc, LookedBy(t, n), |s.procs|)
  {
    if t == Body {
      BodyIsIn(s, c);
      BodyPlace(s, c);
      hide Enabled, Do, DoBody;
    } else if Locks(t) {
      LockPlaces(s, c, t);
      hide Enabled, Do;
    } else if t == ScanSlot {
      hide DoBody, DoResume, Goto, Push, Pop, PutOthers;
    } else if Switches(t) {
      if t != Resume {
        SwitchPlaces(s, c, t);
      }
      hide Do;
    } else {
      IdleLooks(s, c, t, n);
      hide Enabled, Do;
    }
  }

  lemma IdleLooks(s: State, c: nat, t: Step, n: nat)
    requires Enabled(s, c, t) && s.cpus[c].run.None? && t != Body && !Locks(t) && !Switches(t)
    ensures c < |Do(s, c, t).cpus| && AsLooked(Do(s, c, t).cpus[c].spc, n, |s.procs|)
  {
    hide DoBody, DoScan, DoResume, Goto;
  }

  /** A slot that is looked at is run on this CPU if it can run, and passed over otherwise. */
  ghost predicate Scans(s: State, r: State, c: nat, n: nat) {
    && c < |s.cpus| == |r.cpus| && |r.procs| == |s.procs|
    && (n < |s.procs| && s.procs[n].state == RUNNABLE ==>
          && r.procs == s.procs[n := s.procs[n].(state := RUNNING, on := Some(c))]
          && r.cpus[c].proc == Some(n) && r.cpus[c].spc == Picked(n))
    && (n < |s.procs| && s.procs[n].state != RUNNABLE ==> r.procs == s.procs && r.cpus[c].spc == InScan(n + 1))
    && (n >= |s.procs| ==> r.procs == s.procs && r.cpus[c].spc == Rel(JScan))
  }

  lemma {:induction false} RunLooks(ss: seq<State>, ts: seq<Move>, k: nat, c: nat)
    requires RunBy(ss, ts) && k <= |ts| && c < |ss[0].cpus|
    ensures c < |ss[k].cpus| && |ss[k].procs| == |ss[0].procs|
    ensures AsLooked(ss[k].cpus[c].spc, Looked(ss, ts, k, c), |ss[k].procs|)
  {
    hide Enabled, Do, AsLooked, AsCalled, Boot;
    if k == 0 {
      BootLooks(ss[0], c);
    } else {
      RunLooks(ss, ts, k - 1, c);
      var s, m := ss[k - 1], ts[k - 1];
      assert Takes(s, ss[k - 1 + 1], m.c, m.t);
      SameSizes(s, m.c, m.t);
      if m.c == c && On(s, c) == Scheduler(c) {
        RunCalls(ss, ts, k - 1, Scheduler(c));
        NotScanning(CurPc(s, c), CallOf(ss, ts, k - 1, Scheduler(c)));
        OwnStepLooks(s, c, m.t, Looked(ss, ts, k - 1, c));
      } else {
        OthersStay(s, m.c, m.t, Scheduler(c));
        OffIsAsLooked(Looked(ss, ts, k - 1, c), |s.procs|);
      }
    }
  }

  lemma BootLooks(s: State, c: nat)
    requires Boot(s) && c < |s.cpus|
    ensures AsLooked(s.cpus[c].spc, 0, |s.procs|)
  {
  }

  lemma NotScanning(pc: Pc, call: Option<Call>)
    requires AsCalled(pc, call)
    ensures pc.In? ==> pc.j != JScan
  {
  }

  lemma OffIsAsLooked(n: nat, size: nat)
    ensures AsLooked(Fork0, n, size) && AsLooked(Dead, n, size)
  {
  }

  /**
   The scheduler looks at the slots in order, each once, and runs each that can run when it is looked at: the
   process that it switches to is the one looked at last, and the scan ends when every slot has been looked at.
   */
  lemma ScanLooksAtEverySlot(ss: seq<State>, ts: seq<Move>, k: nat)
    requires RunBy(ss, ts) && k < |ts|
    requires ts[k].c < |ss[k].cpus| && On(ss[k], ts[k].c) == Scheduler(ts[k].c)
    ensures ts[k].t == ScanSlot ==> Scans(ss[k], ss[k + 1], ts[k].c, Looked(ss, ts, k, ts[k].c))
    ensures ts[k].t == SwitchIn ==>
              var n := Looked(ss, ts, k, ts[k].c);
              ts[k].c < |ss[k + 1].cpus| && n > 0 && ss[k + 1].cpus[ts[k].c].run == Some(n - 1)
    ensures ts[k].t == PopCli && CallOf(ss, ts, k, Scheduler(ts[k].c)) == Some(Call(JScan, false)) ==>
              Looked(ss, ts, k, ts[k].c) > |ss[k].procs|
  {
    hide Enabled, Do, AsLooked, AsCalled, RunBy, CallOf, Looked, Scans;
    var c := ts[k].c;
    SchedulerStands(ss, ts, k);
    ScanStep(ss[k], c, ts[k].t, CallOf(ss, ts, k, Scheduler(c)), Looked(ss, ts, k, c));
  }

  lemma SchedulerStands(ss: seq<State>, ts: seq<Move>, k: nat)
    requires RunBy(ss, ts) && k < |ts|
    requires ts[k].c < |ss[k].cpus| && On(ss[k], ts[k].c) == Scheduler(ts[k].c)
    ensures |ss| == |ts| + 1
    ensures var c := ts[k].c;
      && Enabled(ss[k], c, ts[k].t) && ss[k + 1] == Do(ss[k], c, ts[k].t)
      && AsLooked(ss[k].cpus[c].spc, Looked(ss, ts, k, c), |ss[k].procs|)
      && AsCalled(ss[k].cpus[c].spc, CallOf(ss, ts, k, Scheduler(c)))
  {
    hide Enabled, Do, AsLooked, AsCalled, Boot, CallOf, Looked;
    assert Takes(ss[k], ss[k + 1], ts[k].c, ts[k].t);
    CpusStay(ss, ts, k);
    RunLooks(ss, ts, k, ts[k].c);
    RunCalls(ss, ts, k, Scheduler(ts[k].c));
  }

  lemma {:induction false} CpusStay(ss: seq<State>, ts: seq<Move>, k: nat)
    requires RunBy(ss, ts) && k <= |ts|
    ensures |ss[k].cpus| == |ss[0].cpus|
  {
    hide Enabled, Do, Boot;
    if k > 0 {
      CpusStay(ss, ts, k - 1);
      assert Takes(ss[k - 1], ss[k - 1 + 1], ts[k - 1].c, ts[k - 1].t);
      SameSizes(ss[k - 1], ts[k - 1].c, ts[k - 1].t);
    }
  }

  lemma ScanStep(s: State, c: nat, t: Step, call: Option<Call>, n: nat)
    requires Enabled(s, c, t) && s.cpus[c].run.None? && AsLooked(s.cpus[c].spc, n, |s.procs|)
    requires AsCalled(s.cpus[c].spc, call)
    ensures t == ScanSlot ==> Scans(s, Do(s, c, t), c, n)
    ensures t == SwitchIn ==>
              c < |Do(s, c, t).cpus| && n > 0 && Do(s, c, t).cpus[c].run == Some(n - 1)
    ensures t == PopCli && call == Some(Call(JScan, false)) ==> n > |s.procs|
  {
    hide DoBody, DoResume;
  }

  // ---- Nobody is stuck ---------------------------------------------------------------------------------------

  /** The step that a context at pc is about to make. */
  function Coming(pc: Pc): Step {
    match pc
    case Idle => LockOther
    case Spin(_) => Xchg
    case Got(_) => Record
    case In(_) => Body
    case Sw(_) => SwitchOut
    case Off(_) => Resume
    case Fork0 => Forkret
    case InScan(_) => ScanSlot
    case Picked(_) => SwitchIn
    case Out(_) => SwitchBack
    case Rel(_) => Unrecord
    case Rel2(_) => Unlock
    case Rel3(_) => PopCli
    case Dead => Body
  }

  /** What a place needs of the CPU. */
  predicate InPlace(s: State, c: nat) {
    && Sane(s, c)
    && match CurPc(s, c)
       case InScan(_) => s.cpus[c].run.None?
       case Picked(_) => s.cpus[c].run.None?
       case Out(_) => s.cpus[c].run.None?
       case Sw(_) => s.cpus[c].run.Some?
       case Off(_) => s.cpus[c].run.Some?
       case Fork0 => s.cpus[c].run.Some?
       case Dead => false
       case _ => true
  }

  lemma AllInPlace(s: State, c: nat)
    requires Inv(s) && c < |s.cpus|
    ensures InPlace(s, c)
  {
    CpuHolds(s, c);
    hide Inv, ProcInv, ProcessJob, SwitchJob, SchedulerJob;
  }

  lemma CanMove(s: State, c: nat)
    requires InPlace(s, c)
    ensures Enabled(s, c, Coming(CurPc(s, c))) || (CurPc(s, c).Spin? && s.locked)
  {
  }

  /** Every CPU can go on, unless it waits for ptable.lock; and then the CPU that has the lock can. */
  lemma NobodyIsStuck(ss: seq<State>, i: nat, c: nat)
    requires Run(ss) && i < |ss| && c < |ss[i].cpus|
    ensures var s := ss[i];
      || Enabled(s, c, Coming(CurPc(s, c)))
      || (CurPc(s, c).Spin? && exists d: nat :: HoldsLock(s, d) && Enabled(s, d, Coming(CurPc(s, d))))
  {
    RunInv(ss, i);
    var s := ss[i];
    AllInPlace(s, c);
    CanMove(s, c);
    if !Enabled(s, c, Coming(CurPc(s, c))) {
      assert LockInv(s);
      var d: nat :| HoldsLock(s, d);
      AllInPlace(s, d);
      CanMove(s, d);
    }
  }

  // ---- A kill that no process deserved -----------------------------------------------------------------------

  /** One more step of a run. */
  lemma Extend(ss: seq<State>, ts: seq<Move>, t: Step, next: State) returns (rs: seq<State>, us: seq<Move>)
    requires RunBy(ss, ts) && Takes(ss[|ss| - 1], next, 0, t)
    ensures RunBy(rs, us) && rs[|rs| - 1] == next && us == ts + [Move(0, t)] && rs == ss + [next]
  {
    hide Enabled, Do, Boot;
    rs, us := ss + [next], ts + [Move(0, t)];
    forall k: nat | k < |us|
      ensures Takes(rs[k], rs[k + 1], us[k].c, us[k].t)
    {
      if k < |ts| {
        assert Takes(ss[k], ss[k + 1], ts[k].c, ts[k].t);
      }
    }
  }

  /** One CPU, with init in slot 0 at the given place, and a second slot. */
  function Pair(u: Cpu, me: Proc, other: Proc, holder: Option<nat>, locked: bool, nextpid: nat): State {
    State([u], [me, other], locked, holder, nextpid, 0, {}, [])
  }

  function FreeSlot(killed: bool): Proc {
    Proc(UNUSED, 0, None, NoChan, killed, Dead, false, false, 0, None, 0, None)
  }

  function Init(pc: Pc, child: Option<nat>): Proc {
    Proc(RUNNING, 1, None, NoChan, false, pc, false, true, 0, child, 0, Some(0))
  }

  function Busy(inside: bool): Cpu {
    Cpu(if inside then 1 else 0, true, !inside, Some(0), Some(0), Out(0), 0)
  }

  function InitAt(pc: Pc, holder: Option<nat>, locked: bool, killed: bool): State {
    Pair(Busy(pc != Idle), Init(pc, None), FreeSlot(killed), holder, locked, 2)
  }

  const InitNew := Proc(RUNNABLE, 1, None, NoChan, false, Fork0, false, false, 0, None, 0, None)

  /** The scheduler has found init. */
  lemma Found() returns (ss: seq<State>, ts: seq<Move>)
    ensures RunBy(ss, ts) && NoKill(ts, 2)
    ensures ss[|ss| - 1] == Pair(Cpu(1, true, false, Some(0), None, Picked(0), 0),
        InitNew.(state := RUNNING, on := Some(0)), FreeSlot(false), Some(0), true, 2)
  {
    hide DoBody, DoResume;
    var sched := Cpu(1, true, false, None, None, Spin(JScan), 0);
    var other := FreeSlot(false);
    var mine := InitNew.(state := RUNNING, on := Some(0));
    ss, ts := [Pair(Cpu(0, false, false, None, None, Idle, 0), InitNew, other, None, false, 2)], [];
    ss, ts := Extend(ss, ts, Begin(JScan), Pair(sched, InitNew, other, None, false, 2));
    ss, ts := Extend(ss, ts, Xchg, Pair(sched.(spc := Got(JScan)), InitNew, other, None, true, 2));
    ss, ts := Extend(ss, ts, Record, Pair(sched.(spc := InScan(0)), InitNew, other, Some(0), true, 2));
    ss, ts := Extend(ss, ts, ScanSlot, Pair(sched.(proc := Some(0), spc := Picked(0)), mine, other, Some(0), true, 2));
  }

  /** init runs for the first time. */
  lemma Booted() returns (ss: seq<State>, ts: seq<Move>)
    ensures RunBy(ss, ts) && ss[|ss| - 1] == InitAt(Rel(JFork), Some(0), true, false) && NoKill(ts, 2)
  {
    hide Boot, DoBody, DoScan, DoResume;
    var mine := InitNew.(state := RUNNING, on := Some(0));
    ss, ts := Found();
    ss, ts := Extend(ss, ts, SwitchIn, Pair(Busy(true), mine, FreeSlot(false), Some(0), true, 2));
    ss, ts := Extend(ss, ts, Forkret, InitAt(Rel(JFork), Some(0), true, false));
  }

  predicate NoKill(ts: seq<Move>, n: nat) {
    forall k: nat :: k < |ts| ==> ts[k].t != Begin(JKill(n))
  }

  /** init begins a call. */
  lemma Begins(ss: seq<State>, ts: seq<Move>, j: Job, killed: bool) returns (rs: seq<State>, us: seq<Move>)
    requires RunBy(ss, ts) && ss[|ss| - 1] == InitAt(Idle, None, false, killed) && NoKill(ts, 2)
    requires j == JKill(0) || j == JAlloc
    ensures RunBy(rs, us) && rs[|rs| - 1] == InitAt(Spin(j), None, false, killed) && NoKill(us, 2)
  {
    hide RunBy, DoBody, DoScan, DoResume;
    rs, us := Extend(ss, ts, Begin(j), InitAt(Spin(j), None, false, killed));
  }

  /** init begins a call and gets the lock. */
  lemma Enters(ss: seq<State>, ts: seq<Move>, j: Job, killed: bool) returns (rs: seq<State>, us: seq<Move>)
    requires RunBy(ss, ts) && ss[|ss| - 1] == InitAt(Idle, None, false, killed) && NoKill(ts, 2)
    requires j == JKill(0) || j == JAlloc
    ensures RunBy(rs, us) && rs[|rs| - 1] == InitAt(In(j), Some(0), true, killed) && NoKill(us, 2)
  {
    hide RunBy, DoBody, DoScan, DoResume, Push, Pop;
    rs, us := Begins(ss, ts, j, killed);
    rs, us := Extend(rs, us, Xchg, InitAt(Got(j), None, true, killed));
    rs, us := Extend(rs, us, Record, InitAt(In(j), Some(0), true, killed));
  }

  /** init releases the lock. */
  lemma Leaves(ss: seq<State>, ts: seq<Move>, j: Job, killed: bool) returns (rs: seq<State>, us: seq<Move>)
    requires RunBy(ss, ts) && ss[|ss| - 1] == InitAt(Rel(j), Some(0), true, killed) && NoKill(ts, 2)
    ensures RunBy(rs, us) && rs[|rs| - 1] == InitAt(Idle, None, false, killed) && NoKill(us, 2)
  {
    hide RunBy, DoBody, DoScan, DoResume, Push;
    rs, us := Extend(ss, ts, Unrecord, InitAt(Rel2(j), None, true, killed));
    rs, us := Unlocks(rs, us, j, killed);
    rs, us := Extend(rs, us, PopCli, InitAt(Idle, None, false, killed));
  }

  lemma Unlocks(ss: seq<State>, ts: seq<Move>, j: Job, killed: bool) returns (rs: seq<State>, us: seq<Move>)
    requires RunBy(ss, ts) && ss[|ss| - 1] == InitAt(Rel2(j), None, true, killed) && NoKill(ts, 2)
    ensures RunBy(rs, us) && rs[|rs| - 1] == InitAt(Rel3(j), None, false, killed) && NoKill(us, 2)
  {
    hide RunBy, DoBody, DoScan, DoResume, Push, Pop;
    rs, us := Extend(ss, ts, Unlock, InitAt(Rel3(j), None, false, killed));
  }

  /** kill(0) marks a free slot, and the process that allocproc makes there is killed although no kill named it. */
  lemma BornKilled() returns (ss: seq<State>, ts: seq<Move>)
    ensures RunBy(ss, ts) && NoKill(ts, 2) && |ss[|ss| - 1].procs| == 2
    ensures var q := ss[|ss| - 1].procs[1]; q.state == EMBRYO && q.pid == 2 && q.killed
  {
    hide Boot;
    ss, ts := Booted();
    ss, ts := Leaves(ss, ts, JFork, false);
    ss, ts := Enters(ss, ts, JKill(0), false);
    assert FindPid([Init(In(JKill(0)), None), FreeSlot(false)], 0, 0) == 1;
    ss, ts := Extend(ss, ts, Body, InitAt(Rel(JKill(0)), Some(0), true, true));
    ss, ts := Leaves(ss, ts, JKill(0), true);
    ss, ts := Enters(ss, ts, JAlloc, true);
    assert FindUnused([Init(In(JAlloc), None), FreeSlot(true)], 0) == 1;
    ss, ts := Extend(ss, ts, Body, Pair(Busy(true), Init(Rel(JAlloc), Some(1)),
        FreeSlot(true).(state := EMBRYO, pid := 2, pc := Fork0), Some(0), true, 3));
  }

  /** Step k is the critical section of a kill of the process in slot p. */
  ghost predicate KillsProcess(ss: seq<State>, ts: seq<Move>, k: nat, p: nat)
    requires k < |ts| < |ss|
  {
    && ts[k].t == Body && ts[k].c < |ss[k].cpus| && p < |ss[k].procs|
    && CallOf(ss, ts, k, On(ss[k], ts[k].c)).Some?
    && CallOf(ss, ts, k, On(ss[k], ts[k].c)).value.j == JKill(ss[k].procs[p].pid)
  }

  ghost predicate KilledBetween(ss: seq<State>, ts: seq<Move>, i: nat, k: nat, p: nat)
    requires k <= |ts| < |ss|
  {
    exists m: nat :: i <= m < k && KillsProcess(ss, ts, m, p)
  }

  /**
   While a slot is in use, its process is marked as killed exactly if there was a kill of the process, or the mark
   was there from the start: a process is killed by a kill of its own alone if and only if its slot was given to
   it unmarked.
   */
  lemma {:induction false} KilledExactly(ss: seq<State>, ts: seq<Move>, i: nat, k: nat, p: nat)
    requires RunBy(ss, ts) && i <= k <= |ts| && p < |ss[0].procs|
    requires InUseFrom(ss, i, k, p)
    ensures Marked(ss[k], p) <==> Marked(ss[i], p) || KilledBetween(ss, ts, i, k, p)
    decreases k
  {
    hide KillsProcess, KilledBetween, InUse, Marked, InUseFrom, Enabled, Do, Boot;
    if i < k {
      InUseBefore(ss, i, k, p);
      KilledExactly(ss, ts, i, k - 1, p);
      KilledStep(ss, ts, k - 1, p);
      BetweenGrows(ss, ts, i, k - 1, p);
    } else {
      NobodyBetween(ss, ts, i, p);
    }
  }

  ghost predicate InUseFrom(ss: seq<State>, i: nat, k: nat, p: nat)
    requires k < |ss|
  {
    forall m: nat :: i <= m <= k ==> InUse(ss[m], p)
  }

  lemma InUseBefore(ss: seq<State>, i: nat, k: nat, p: nat)
    requires i < k < |ss| && InUseFrom(ss, i, k, p)
    ensures InUseFrom(ss, i, k - 1, p) && InUse(ss[k - 1], p) && InUse(ss[k], p)
  {
  }

  predicate InUse(s: State, p: nat) {
    p < |s.procs| && s.procs[p].state != UNUSED
  }

  predicate Marked(s: State, p: nat) {
    p < |s.procs| && s.procs[p].killed
  }

  lemma BetweenGrows(ss: seq<State>, ts: seq<Move>, i: nat, k: nat, p: nat)
    requires i <= k < |ts| < |ss|
    ensures KilledBetween(ss, ts, i, k + 1, p) <==> KilledBetween(ss, ts, i, k, p) || KillsProcess(ss, ts, k, p)
  {
    hide KillsProcess;
  }

  lemma NobodyBetween(ss: seq<State>, ts: seq<Move>, i: nat, p: nat)
    requires i <= |ts| < |ss|
    ensures !KilledBetween(ss, ts, i, i, p)
  {
  }

  lemma KilledStep(ss: seq<State>, ts: seq<Move>, k: nat, p: nat)
    requires RunBy(ss, ts) && k < |ts| && p < |ss[0].procs| && InUse(ss[k], p) && InUse(ss[k + 1], p)
    ensures Marked(ss[k + 1], p) <==> Marked(ss[k], p) || KillsProcess(ss, ts, k, p)
  {
    hide Enabled, Do, Boot, CallOf, Wakes, Yields, Sleeps, Exits, Allocs;
    RunTells(ss, ts, k, p);
    RunTells(ss, ts, k + 1, p);
    var s, c, t := ss[k], ts[k].c, ts[k].t;
    assert Takes(s, ss[k + 1], c, t);
    SameSizes(s, c, t);
    if t == Body {
      CallsTakeEffect(ss, ts, k);
    }
  }
}
