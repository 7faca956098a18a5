/**
 What the calls on a pipe come to, told from the steps of a run: the bytes that each write was given, the
 closing of the two sides, and kill.
 */
module PipeCalls {
  import opened Bytes
  import opened Options
  import opened PipeRing
  import opened PipeProto
  import opened PipeTheorems

  ghost predicate Takes(s: State, r: State, t: Step) {
    Enabled(s, t) && r == Apply(s, t)
  }

  /** A run with its steps. */
  ghost predicate RunBy(run: seq<State>, ts: seq<Step>) {
    && |run| == |ts| + 1 && Initial(run[0])
    && forall k: nat :: k < |ts| ==> Takes(run[k], run[k + 1], ts[k])
  }

  lemma RunByIsRun(run: seq<State>, ts: seq<Step>)
    requires RunBy(run, ts)
    ensures IsRun(run)
  {
    hide Initial, Enabled, Apply;
    forall k: nat | k + 1 < |run|
      ensures Next(run[k], run[k + 1])
    {
      assert Takes(run[k], run[k + 1], ts[k]);
    }
  }

  lemma SameProcs(s: State, t: Step)
    requires Enabled(s, t)
    ensures |Apply(s, t).procs| == |s.procs| && t.p < |s.procs|
  {
    hide Enabled, Apply;
    if ByWriter(t) {
      SameProcsWriter(s, t);
    } else if ByReader(t) {
      SameProcsReader(s, t);
    } else {
      SameProcsOther(s, t);
    }
  }

  lemma SameProcsWriter(s: State, t: Step)
    requires Enabled(s, t) && ByWriter(t)
    ensures |Apply(s, t).procs| == |s.procs| && t.p < |s.procs|
  {
    hide Ok, Full, Empty, Store, Load;
  }

  lemma SameProcsReader(s: State, t: Step)
    requires Enabled(s, t) && ByReader(t)
    ensures |Apply(s, t).procs| == |s.procs| && t.p < |s.procs|
  {
    hide Ok, Full, Empty, Store, Load;
  }

  lemma SameProcsOther(s: State, t: Step)
    requires Enabled(s, t) && !ByWriter(t) && !ByReader(t)
    ensures |Apply(s, t).procs| == |s.procs| && t.p < |s.procs|
  {
    hide Ok, Full, Empty, Store, Load, LastReference;
  }

  // ---- What the steps say ---------------------------------------------------------------------------------

  /** A call: the bytes of a write and how many of them are stored, or the size of a read and how many are loaded. */
  datatype Call = Writes(a: seq<Byte>, done: nat) | ReadsUpTo(n: int, done: nat)

  function CallBy(t: Step, p: nat, call: Option<Call>): Option<Call> {
    if t.p != p then call
    else
      match t
      case StartWrite(_, a) => Some(Writes(a, 0))
      case StartRead(_, n) => Some(ReadsUpTo(n, 0))
      case WStore(_) =>
        if call.Some? && call.value.Writes? then Some(Writes(call.value.a, call.value.done + 1)) else call
      case RLoad(_) =>
        if call.Some? && call.value.ReadsUpTo? then Some(ReadsUpTo(call.value.n, call.value.done + 1)) else call
      case _ => call
  }

  /** The last write or read that p has started, and how far it has got. */
  function CallOf(ts: seq<Step>, k: nat, p: nat): Option<Call>
    requires k <= |ts|
  {
    if k == 0 then None else CallBy(ts[k - 1], p, CallOf(ts, k - 1, p))
  }

  /** The byte that a store sends: the next one of the call's. */
  function ByteSent(t: Step, call: Option<Call>): seq<Byte> {
    if t.WStore? && call.Some? && call.value.Writes? && call.value.done < |call.value.a|
    then [call.value.a[call.value.done]]
    else []
  }

  /** The bytes sent by the first k steps. */
  function Sent(ts: seq<Step>, k: nat): seq<Byte>
    requires k <= |ts|
  {
    if k == 0 then [] else Sent(ts, k - 1) + ByteSent(ts[k - 1], CallOf(ts, k - 1, ts[k - 1].p))
  }

  /** Who has begun to close the side, if anybody. */
  function Closer(ts: seq<Step>, k: nat, w: bool): Option<nat>
    requires k <= |ts|
  {
    if k == 0 then None else CloserBy(ts[k - 1], w, Closer(ts, k - 1, w))
  }

  function CloserBy(t: Step, w: bool, closer: Option<nat>): Option<nat> {
    if t.StartClose? && t.writable == w then Some(t.p) else closer
  }

  /** The side's closing is over: whoever began it has notified the other side. */
  function Closed(ts: seq<Step>, k: nat, w: bool): bool
    requires k <= |ts|
  {
    k > 0 && ClosedBy(ts[k - 1], Closer(ts, k - 1, w), Closed(ts, k - 1, w))
  }

  function ClosedBy(t: Step, closer: Option<nat>, closed: bool): bool {
    closed || (t.CNotify? && closer == Some(t.p))
  }

  function KilledBy(t: Step, p: nat, killed: bool): bool {
    if t.p != p then killed else t.Kill? || (killed && !t.StartWrite? && !t.StartRead?)
  }

  /** p has been killed since its call began, or before it made any. */
  function Killed(ts: seq<Step>, k: nat, p: nat, before: bool): bool
    requires k <= |ts|
  {
    if k == 0 then before else KilledBy(ts[k - 1], p, Killed(ts, k - 1, p, before))
  }

  // ---- Calls ----------------------------------------------------------------------------------------------

  /** Where p is in its call is what its steps say. */
  ghost predicate AsCalled(pc: Pc, call: Option<Call>) {
    && (Writing(pc) ==> call == Some(Writes(pc.a, pc.i)) && pc.i <= |pc.a|)
    && (pc.RWant? || pc.RCheck? || pc.RSleeping? ==> call == Some(ReadsUpTo(pc.n, 0)))
    && (pc.RCopy? ==> call == Some(ReadsUpTo(pc.n, pc.got)))
  }

  lemma OwnStepCalls(s: State, t: Step, call: Option<Call>)
    requires Enabled(s, t) && AsCalled(s.procs[t.p], call)
    ensures |Apply(s, t).procs| == |s.procs| && AsCalled(Apply(s, t).procs[t.p], CallBy(t, t.p, call))
  {
    hide Ok, Full, Empty, Store, Load, LastReference, WakeReaders, WakeWriters;
  }

  /** Somebody else's step leaves p where it is, or wakes it. */
  lemma OthersOnlyWake(s: State, t: Step, p: nat)
    requires Enabled(s, t) && p < |s.procs| && t.p != p
    ensures |Apply(s, t).procs| == |s.procs|
    ensures var pc, r := s.procs[p], Apply(s, t).procs[p]; r == pc || r == WokenReader(pc) || r == WokenWriter(pc)
  {
    hide Ok, Full, Empty, Store, Load, LastReference;
  }

  lemma StepCalls(s: State, t: Step, p: nat, call: Option<Call>)
    requires Enabled(s, t) && p < |s.procs| && AsCalled(s.procs[p], call)
    ensures |Apply(s, t).procs| == |s.procs| && AsCalled(Apply(s, t).procs[p], CallBy(t, p, call))
  {
    if t.p == p {
      OwnStepCalls(s, t, call);
      hide Enabled, Apply;
    } else {
      OthersOnlyWake(s, t, p);
      hide Enabled, Apply;
    }
  }

  lemma {:induction false} RunCalls(run: seq<State>, ts: seq<Step>, k: nat, p: nat)
    requires RunBy(run, ts) && k <= |ts| && p < |run[0].procs|
    ensures |run[k].procs| == |run[0].procs| && AsCalled(run[k].procs[p], CallOf(ts, k, p))
  {
    hide Enabled, Apply;
    if k > 0 {
      hide AsCalled;
      RunCalls(run, ts, k - 1, p);
      assert Takes(run[k - 1], run[k - 1 + 1], ts[k - 1]);
      StepCalls(run[k - 1], ts[k - 1], p, CallOf(ts, k - 1, p));
    }
  }

  lemma StepSends(s: State, t: Step, call: Option<Call>)
    requires Enabled(s, t) && AsCalled(s.procs[t.p], call)
    ensures Apply(s, t).written == s.written + ByteSent(t, call)
  {
    hide Ok, Full, Empty, Store, Load, LastReference, WakeReaders, WakeWriters;
  }

  lemma {:induction false} RunSends(run: seq<State>, ts: seq<Step>, k: nat)
    requires RunBy(run, ts) && k <= |ts|
    ensures run[k].written == Sent(ts, k)
  {
    hide Enabled, Apply;
    if k > 0 {
      hide AsCalled;
      RunSends(run, ts, k - 1);
      assert Takes(run[k - 1], run[k - 1 + 1], ts[k - 1]);
      RunProcs(run, ts, k - 1);
      SameProcs(run[k - 1], ts[k - 1]);
      RunCalls(run, ts, k - 1, ts[k - 1].p);
      StepSends(run[k - 1], ts[k - 1], CallOf(ts, k - 1, ts[k - 1].p));
    }
  }

  lemma {:induction false} RunProcs(run: seq<State>, ts: seq<Step>, k: nat)
    requires RunBy(run, ts) && k <= |ts|
    ensures |run[k].procs| == |run[0].procs|
  {
    hide Enabled, Apply;
    if k > 0 {
      RunProcs(run, ts, k - 1);
      assert Takes(run[k - 1], run[k - 1 + 1], ts[k - 1]);
      SameProcs(run[k - 1], ts[k - 1]);
    }
  }

  /** The bytes given to the writes, in the order of their stores, are the bytes read and then those in the pipe. */
  lemma SentIsReadOrBuffered(run: seq<State>, ts: seq<Step>, k: nat)
    requires RunBy(run, ts) && k <= |ts|
    ensures Ok(run[k].ring) && Sent(ts, k) == run[k].read + Buffered(run[k].ring)
  {
    RunSends(run, ts, k);
    RunByIsRun(run, ts);
    BytesArriveInOrder(run, k);
  }

  /** A write that returns has sent all that it was given; a read that returns has its n bytes, or emptied the pipe. */
  lemma CallsEndDone(run: seq<State>, ts: seq<Step>, k: nat, p: nat)
    requires RunBy(run, ts) && k < |ts| && ts[k].p == p
    ensures p < |run[k].procs|
    ensures ts[k].WDone? ==> CallOf(ts, k, p).Some? && CallOf(ts, k, p).value.Writes?
                             && CallOf(ts, k, p).value.done == |CallOf(ts, k, p).value.a|
    ensures ts[k].RDone? ==>
              CallOf(ts, k, p).Some? && CallOf(ts, k, p).value.ReadsUpTo?
              && (CallOf(ts, k, p).value.done >= CallOf(ts, k, p).value.n || Empty(run[k].ring))
  {
    assert Takes(run[k], run[k + 1], ts[k]);
    RunProcs(run, ts, k);
    RunCalls(run, ts, k, p);
  }

  // ---- Closing --------------------------------------------------------------------------------------------

  predicate ClosingPc(pc: Pc, w: bool) {
    pc == CWant(w) || pc == CShut(w) || pc == CWake(w)
  }

  predicate Open(s: State, w: bool) {
    if w then s.writeopen else s.readopen
  }

  predicate Referenced(s: State, w: bool) {
    if w then s.writeref else s.readref
  }

  /** Asleep for the other side: a reader, if the side is the writers', or a writer. */
  predicate SleepsFor(pc: Pc, w: bool) {
    if w then pc.RSleeping? else pc.WSleeping?
  }

  /** The side is open until its one closer has cleared the flag; when the closing is over nobody sleeps for it. */
  ghost predicate CloseOk(s: State, w: bool, closer: Option<nat>, closed: bool) {
    && (forall q: nat :: q < |s.procs| && ClosingPc(s.procs[q], w) ==> closer == Some(q) && !closed)
    && (Referenced(s, w) <==> closer.None?)
    && (closer.None? ==> !closed && Open(s, w))
    && (closer.Some? ==> closer.value < |s.procs|)
    && (closer.Some? && !closed ==> ClosingPc(s.procs[closer.value], w))
    && (closer.Some? ==> (Open(s, w) <==> !closed && s.procs[closer.value] != CWake(w)))
    && (closed ==> forall q: nat :: q < |s.procs| ==> !SleepsFor(s.procs[q], w))
  }

  lemma NobodyClosing(s: State, w: bool)
    requires Initial(s)
    ensures CloseOk(s, w, None, false)
  {
  }

  lemma StepCloses(s: State, t: Step, w: bool, closer: Option<nat>, closed: bool)
    requires Inv(s) && Enabled(s, t) && CloseOk(s, w, closer, closed)
    ensures CloseOk(Apply(s, t), w, CloserBy(t, w, closer), ClosedBy(t, closer, closed))
  {
    hide Exclusion, References, Stream, WritersSleep, ReadersSleep, Ok, Full, Empty, Store, Load;
    if ByCloser(t) {
      CloserCloses(s, t, w, closer, closed);
    } else if t.Kill? || t.Leave? {
      OtherCloses(s, t, w, closer, closed);
    } else {
      UserCloses(s, t, w, closer, closed);
    }
  }

  predicate InClosing(pc: Pc) {
    pc.CWant? || pc.CShut? || pc.CWake?
  }

  /** Reading and writing leave the flags and the closers alone, and nobody goes to sleep for a closed side. */
  ghost predicate Unclosing(s: State, r: State) {
    && |r.procs| == |s.procs| && r.readopen == s.readopen && r.writeopen == s.writeopen
    && r.readref == s.readref && r.writeref == s.writeref
    && (forall q: nat :: q < |s.procs| && (InClosing(s.procs[q]) || InClosing(r.procs[q])) ==> r.procs[q] == s.procs[q])
    && (forall q: nat :: q < |s.procs| && r.procs[q].RSleeping? ==> s.procs[q].RSleeping? || s.writeopen)
    && (forall q: nat :: q < |s.procs| && r.procs[q].WSleeping? ==> s.procs[q].WSleeping? || s.readopen)
  }

  lemma WriterLeavesClosers(s: State, t: Step)
    requires Dozers(s) && Enabled(s, t) && ByWriter(t)
    ensures Unclosing(s, Apply(s, t))
  {
    hide Ok, Full, Empty, Store, Load;
  }

  lemma ReaderLeavesClosers(s: State, t: Step)
    requires Enabled(s, t) && ByReader(t)
    ensures Unclosing(s, Apply(s, t))
  {
    hide Ok, Full, Empty, Store, Load;
  }

  lemma UserCloses(s: State, t: Step, w: bool, closer: Option<nat>, closed: bool)
    requires Inv(s) && Enabled(s, t) && (ByWriter(t) || ByReader(t)) && CloseOk(s, w, closer, closed)
    ensures CloseOk(Apply(s, t), w, closer, closed)
  {
    hide Exclusion, References, Stream, WritersSleep, ReadersSleep, Enabled, Apply, Dozers;
    if ByWriter(t) {
      WriterLeavesClosers(s, t);
    } else {
      ReaderLeavesClosers(s, t);
    }
  }

  lemma OtherCloses(s: State, t: Step, w: bool, closer: Option<nat>, closed: bool)
    requires Enabled(s, t) && (t.Kill? || t.Leave?) && CloseOk(s, w, closer, closed)
    ensures CloseOk(Apply(s, t), w, closer, closed)
  {
    hide Ok, Full, Empty, Store, Load;
  }

  lemma CloserCloses(s: State, t: Step, w: bool, closer: Option<nat>, closed: bool)
    requires Enabled(s, t) && ByCloser(t) && CloseOk(s, w, closer, closed)
    ensures CloseOk(Apply(s, t), w, CloserBy(t, w, closer), ClosedBy(t, closer, closed))
  {
    hide Enabled, Apply, CloseOk;
    match t
    case StartClose(_, _) => StartCloses(s, t, w, closer, closed);
    case CAcquire(_) => ShutCloses(s, t, w, closer, closed);
    case CClear(_) => ShutCloses(s, t, w, closer, closed);
    case CNotify(_) => NotifyCloses(s, t, w, closer, closed);
  }

  lemma StartCloses(s: State, t: Step, w: bool, closer: Option<nat>, closed: bool)
    requires Enabled(s, t) && t.StartClose? && CloseOk(s, w, closer, closed)
    ensures CloseOk(Apply(s, t), w, CloserBy(t, w, closer), closed)
  {
    hide Ok;
  }

  lemma ShutCloses(s: State, t: Step, w: bool, closer: Option<nat>, closed: bool)
    requires Enabled(s, t) && (t.CAcquire? || t.CClear?) && CloseOk(s, w, closer, closed)
    ensures CloseOk(Apply(s, t), w, closer, closed)
  {
    hide Ok;
  }

  lemma NotifyCloses(s: State, t: Step, w: bool, closer: Option<nat>, closed: bool)
    requires Enabled(s, t) && t.CNotify? && CloseOk(s, w, closer, closed)
    ensures CloseOk(Apply(s, t), w, closer, ClosedBy(t, closer, closed))
  {
    hide Ok;
  }

  lemma {:induction false} RunCloses(run: seq<State>, ts: seq<Step>, k: nat, w: bool)
    requires RunBy(run, ts) && k <= |ts|
    ensures CloseOk(run[k], w, Closer(ts, k, w), Closed(ts, k, w))
  {
    hide Enabled, Apply, CloseOk, Inv, Initial;
    if k == 0 {
      NobodyClosing(run[0], w);
    } else {
      RunCloses(run, ts, k - 1, w);
      assert Takes(run[k - 1], run[k - 1 + 1], ts[k - 1]);
      RunByIsRun(run, ts);
      RunInv(run, k - 1);
      StepCloses(run[k - 1], ts[k - 1], w, Closer(ts, k - 1, w), Closed(ts, k - 1, w));
    }
  }

  /** A side stays open until somebody begins to close it. */
  lemma OpenUntilClosed(run: seq<State>, ts: seq<Step>, k: nat, w: bool)
    requires RunBy(run, ts) && k <= |ts| && Closer(ts, k, w).None?
    ensures Open(run[k], w)
  {
    RunCloses(run, ts, k, w);
  }

  lemma RunOk(run: seq<State>, ts: seq<Step>, k: nat)
    requires RunBy(run, ts) && k <= |ts|
    ensures Ok(run[k].ring) && Exclusion(run[k])
  {
    RunByIsRun(run, ts);
    RunInv(run, k);
  }

  lemma EndForReaders(s: State, p: nat, closer: Option<nat>)
    requires Ok(s.ring) && |s.killed| == |s.procs| && CloseOk(s, true, closer, true) && p < |s.procs|
    ensures !s.writeopen && !s.procs[p].RSleeping? && !Enabled(s, RSleep(p)) && !Enabled(s, RQuit(p))
    ensures s.procs[p].RCheck? ==> Enabled(s, RGo(p))
    ensures s.procs[p].RCopy? && Empty(s.ring) ==> Enabled(s, RDone(p)) && !Enabled(s, RLoad(p))
  {
    hide Ok, Empty, Full;
  }

  /**
   When the closing of the write side is over no reader is asleep, and none goes to sleep any more: a reader
   that finds the pipe empty goes on to return what it has, nothing.
   */
  lemma ReadersSeeTheEnd(run: seq<State>, ts: seq<Step>, k: nat, p: nat)
    requires RunBy(run, ts) && k <= |ts| && Closed(ts, k, true) && p < |run[k].procs|
    ensures !run[k].writeopen && !run[k].procs[p].RSleeping? && !Enabled(run[k], RSleep(p))
            && !Enabled(run[k], RQuit(p))
    ensures run[k].procs[p].RCheck? ==> Enabled(run[k], RGo(p))
    ensures run[k].procs[p].RCopy? && Empty(run[k].ring) ==> Enabled(run[k], RDone(p)) && !Enabled(run[k], RLoad(p))
  {
    RunCloses(run, ts, k, true);
    RunOk(run, ts, k);
    hide RunBy, Enabled, CloseOk, Empty, Closer, Closed;
    EndForReaders(run[k], p, Closer(ts, k, true));
  }

  lemma EndForWriters(s: State, p: nat, closer: Option<nat>)
    requires Ok(s.ring) && |s.killed| == |s.procs| && CloseOk(s, false, closer, true) && p < |s.procs| && Dozers(s)
    ensures !s.readopen && !s.procs[p].WSleeping? && !Enabled(s, WNotify(p)) && !Enabled(s, WSleep(p))
    ensures s.procs[p].WLoop? && s.procs[p].i < |s.procs[p].a| && Full(s.ring) ==> Enabled(s, WQuit(p))
  {
    hide Ok, Empty, Full;
  }

  /** When the closing of the read side is over no writer is asleep, and one that finds the pipe full returns -1. */
  lemma WritersSeeTheEnd(run: seq<State>, ts: seq<Step>, k: nat, p: nat)
    requires RunBy(run, ts) && k <= |ts| && Closed(ts, k, false) && p < |run[k].procs|
    ensures !run[k].readopen && !run[k].procs[p].WSleeping? && !Enabled(run[k], WNotify(p))
            && !Enabled(run[k], WSleep(p))
    ensures run[k].procs[p].WLoop? && run[k].procs[p].i < |run[k].procs[p].a| && Full(run[k].ring) ==>
              Enabled(run[k], WQuit(p))
  {
    RunCloses(run, ts, k, false);
    RunByIsRun(run, ts);
    RunInv(run, k);
    RunOk(run, ts, k);
    hide RunBy, IsRun, Enabled, CloseOk, Full, Closer, Closed, WritersSleep, ReadersSleep, References, Stream;
    EndForWriters(run[k], p, Closer(ts, k, false));
  }

  lemma CloserMoves(s: State, w: bool, q: nat)
    requires Ok(s.ring) && Exclusion(s) && CloseOk(s, w, Some(q), false)
    ensures Enabled(s, CAcquire(q)) || Enabled(s, CClear(q)) || Enabled(s, CNotify(q))
            || (s.procs[q] == CWant(w) && 0 <= s.lock < |s.procs| && Holds(s.procs[s.lock]))
  {
    hide Ok, Empty, Full;
  }

  /** Once begun, a close waits for nothing but the lock. */
  lemma CloseGoesOn(run: seq<State>, ts: seq<Step>, k: nat, w: bool)
    requires RunBy(run, ts) && k <= |ts| && Closer(ts, k, w).Some? && !Closed(ts, k, w)
    ensures var q, s := Closer(ts, k, w).value, run[k];
            && q < |s.procs|
            && (Enabled(s, CAcquire(q)) || Enabled(s, CClear(q)) || Enabled(s, CNotify(q))
                || (s.procs[q] == CWant(w) && 0 <= s.lock < |s.procs| && Holds(s.procs[s.lock])))
  {
    RunCloses(run, ts, k, w);
    RunOk(run, ts, k);
    hide RunBy, Enabled, Closer, Closed, Exclusion, Ok;
    CloserMoves(run[k], w, Closer(ts, k, w).value);
  }

  // ---- kill -----------------------------------------------------------------------------------------------

  lemma StepKills(s: State, t: Step, p: nat)
    requires Enabled(s, t) && p < |s.procs|
    ensures |Apply(s, t).killed| == |s.killed| && Apply(s, t).killed[p] == KilledBy(t, p, s.killed[p])
    ensures t.Kill? && t.p == p ==>
              |Apply(s, t).procs| == |s.procs| && !Apply(s, t).procs[p].RSleeping? && !Apply(s, t).procs[p].WSleeping?
  {
    hide Ok, Full, Empty, Store, Load, LastReference, WakeReaders, WakeWriters;
    if !t.StartWrite? && !t.StartRead? && !t.Kill? {
      MarksKept(s, t);
      hide Enabled, Apply;
    }
  }

  lemma MarksKept(s: State, t: Step)
    requires Enabled(s, t) && !t.StartWrite? && !t.StartRead? && !t.Kill?
    ensures Apply(s, t).killed == s.killed
  {
    hide Enabled, Apply;
    if ByWriter(t) {
      MarksKeptWriter(s, t);
    } else if ByReader(t) {
      MarksKeptReader(s, t);
    } else {
      MarksKeptOther(s, t);
    }
  }

  lemma MarksKeptWriter(s: State, t: Step)
    requires Enabled(s, t) && ByWriter(t) && !t.StartWrite?
    ensures Apply(s, t).killed == s.killed
  {
    hide Ok, Full, Empty, Store, Load, WakeReaders;
  }

  lemma MarksKeptReader(s: State, t: Step)
    requires Enabled(s, t) && ByReader(t) && !t.StartRead?
    ensures Apply(s, t).killed == s.killed
  {
    hide Ok, Full, Empty, Store, Load, WakeWriters;
  }

  lemma MarksKeptOther(s: State, t: Step)
    requires Enabled(s, t) && !ByWriter(t) && !ByReader(t) && !t.Kill?
    ensures Apply(s, t).killed == s.killed
  {
    hide Ok, Full, Empty, Store, Load, WakeWriters, WakeReaders, LastReference;
  }

  /** The mark of a process is that it was killed since its call began; a process just killed is not asleep. */
  lemma {:induction false} KillMarksAndWakes(run: seq<State>, ts: seq<Step>, k: nat, p: nat)
    requires RunBy(run, ts) && k <= |ts| && p < |run[k].procs|
    ensures |run[k].killed| == |run[k].procs| && p < |run[0].killed|
    ensures run[k].killed[p] == Killed(ts, k, p, run[0].killed[p])
    ensures k > 0 && ts[k - 1] == Kill(p) ==> !run[k].procs[p].RSleeping? && !run[k].procs[p].WSleeping?
  {
    hide Enabled, Apply;
    if k > 0 {
      assert Takes(run[k - 1], run[k - 1 + 1], ts[k - 1]);
      SameProcs(run[k - 1], ts[k - 1]);
      KillMarksAndWakes(run, ts, k - 1, p);
      StepKills(run[k - 1], ts[k - 1], p);
    }
  }
}
