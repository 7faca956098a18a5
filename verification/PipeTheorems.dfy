/**
 What a pipe promises over all runs, and the one way in which it breaks its promise.
 */
module PipeTheorems {
  import opened Bytes
  import opened PipeRing
  import opened PipeProto

  /** The bytes read so far and then the bytes buffered are the bytes accepted, in order. */
  lemma BytesArriveInOrder(run: seq<State>, k: nat)
    requires IsRun(run) && k < |run|
    ensures Ok(run[k].ring) && run[k].written == run[k].read + Buffered(run[k].ring)
  {
    hide Exclusion, References, Dozers, WritersSleep, ReadersSleep, Initial;
    RunInv(run, k);
  }

  /** The counters wrap, their difference does not: it is the number of buffered bytes, at most 512. */
  lemma CountersAgree(run: seq<State>, k: nat)
    requires IsRun(run) && k < |run|
    ensures Count(run[k].ring) == |run[k].written| - |run[k].read| <= PIPESIZE
    ensures run[k].ring.nwrite == |run[k].written| % WORD && run[k].ring.nread == |run[k].read| % WORD
  {
    hide Exclusion, References, Dozers, WritersSleep, ReadersSleep, Initial;
    RunInv(run, k);
    var r := run[k].ring;
    assert |run[k].written| == |run[k].read| + |Buffered(r)|;
  }

  lemma NobodyOwes(s: State)
    requires s.lock < 0
    ensures !OwesWriters(s) && !OwesReaders(s)
  {
  }

  /** Whenever the lock is free, a sleeping writer waits on a full pipe that can still be read. */
  lemma WriterSleepsOnlyWhenFull(run: seq<State>, k: nat, q: nat)
    requires IsRun(run) && k < |run| && run[k].lock < 0 && q < |run[k].procs| && run[k].procs[q].WSleeping?
    ensures Ok(run[k].ring) && Full(run[k].ring) && Count(run[k].ring) == PIPESIZE && run[k].readopen
  {
    hide Exclusion, References, Dozers, ReadersSleep, Initial;
    RunInv(run, k);
    NobodyOwes(run[k]);
    FullMeans(run[k].ring);
  }

  /** The lock is free, and a reader sleeps although there are bytes to read or nobody is left to write. */
  ghost predicate ReaderMisses(s: State) {
    s.lock < 0 && exists q: nat :: SleepsInVain(s, q)
  }

  ghost predicate SleepsInVain(s: State, q: nat) {
    q < |s.procs| && s.procs[q].RSleeping? && !(Empty(s.ring) && s.writeopen)
  }

  /** A killed writer's -1 return with bytes stored, the read side open and a reader asleep. */
  ghost predicate BadQuit(s: State, t: Step) {
    && t.WQuit? && t.p < |s.procs| && s.procs[t.p].WLoop? && s.procs[t.p].stored && s.readopen
    && exists q: nat :: q < |s.procs| && s.procs[q].RSleeping?
  }

  /** Every sleeping reader waits for something, or is about to be woken. */
  ghost predicate NoneMisses(s: State) {
    forall q: nat :: q < |s.procs| && s.procs[q].RSleeping? ==> (Empty(s.ring) && s.writeopen) || OwesReaders(s)
  }

  /** The state without its record of past lapses. */
  ghost function Forgiven(s: State): State {
    s.(lapsed := false)
  }

  lemma ForgivenInv(s: State, t: Step)
    requires Inv(s) && Enabled(s, t) && NoneMisses(s)
    ensures Inv(Forgiven(s)) && Enabled(Forgiven(s), t)
  {
    hide Ok, Full, Empty, Store, Load, WakeReaders, WakeWriters, Buffered;
  }

  /** All that decides whether a reader misses a wakeup. */
  ghost predicate AsBefore(a: State, b: State) {
    a.procs == b.procs && a.ring == b.ring && a.writeopen == b.writeopen && a.lock == b.lock
  }

  lemma ForgivenWriter(s: State, t: Step)
    requires Enabled(s, t) && Enabled(Forgiven(s), t) && ByWriter(t)
    ensures AsBefore(Apply(Forgiven(s), t), Apply(s, t))
  {
    hide Ok, Full, Empty, Store, Load, WakeReaders, WakeWriters, LastReference, WokenReader, WokenWriter;
  }

  lemma ForgivenReader(s: State, t: Step)
    requires Enabled(s, t) && Enabled(Forgiven(s), t) && ByReader(t)
    ensures AsBefore(Apply(Forgiven(s), t), Apply(s, t))
  {
    hide Ok, Full, Empty, Store, Load, WakeReaders, WakeWriters, LastReference, WokenReader, WokenWriter;
  }

  lemma ForgivenCloser(s: State, t: Step)
    requires Enabled(s, t) && Enabled(Forgiven(s), t) && ByCloser(t)
    ensures AsBefore(Apply(Forgiven(s), t), Apply(s, t))
  {
    hide Ok, Full, Empty, Store, Load, WakeReaders, WakeWriters, LastReference, WokenReader, WokenWriter;
  }

  lemma ForgivenOther(s: State, t: Step)
    requires Enabled(s, t) && Enabled(Forgiven(s), t) && (t.Leave? || t.Kill?)
    ensures AsBefore(Apply(Forgiven(s), t), Apply(s, t))
  {
    hide Ok, Full, Empty, Store, Load, WakeReaders, WakeWriters, LastReference, WokenReader, WokenWriter;
  }

  lemma ForgivenStep(s: State, t: Step)
    requires Enabled(s, t) && Enabled(Forgiven(s), t)
    ensures AsBefore(Apply(Forgiven(s), t), Apply(s, t))
  {
    hide Enabled, Apply, Forgiven;
    if ByWriter(t) {
      ForgivenWriter(s, t);
    } else if ByReader(t) {
      ForgivenReader(s, t);
    } else if ByCloser(t) {
      ForgivenCloser(s, t);
    } else {
      ForgivenOther(s, t);
    }
  }

  lemma QuitMovesNobody(s: State, t: Step)
    requires Enabled(s, t) && t.WQuit?
    ensures |Apply(s, t).procs| == |s.procs| && t.p < |s.procs| && s.procs[t.p].WLoop?
    ensures forall q: nat :: q < |s.procs| && Apply(s, t).procs[q].RSleeping? ==> s.procs[q].RSleeping?
  {
  }

  lemma OnlyABadQuitLapses(s: State, t: Step)
    requires Inv(s) && Enabled(s, t) && !s.lapsed
    ensures NoneMisses(Apply(s, t)) || BadQuit(s, t)
  {
    hide Enabled, Apply, Exclusion, References, Stream, Dozers, WritersSleep, Ok, Full, Empty;
    var r := Apply(s, t);
    assert Next(s, r);
    StepInv(s, r);
    QuitOrLapse(s, t);
    if !NoneMisses(r) {
      var q: nat :| q < |r.procs| && r.procs[q].RSleeping? && !((Empty(r.ring) && r.writeopen) || OwesReaders(r));
      QuitMovesNobody(s, t);
      assert s.procs[q].RSleeping?;
    }
  }

  /** While no reader misses a wakeup, only such a return can make one miss it. */
  lemma OnlyABadQuitMisses(s: State, t: Step)
    requires Inv(s) && Enabled(s, t) && NoneMisses(s)
    ensures NoneMisses(Apply(s, t)) || BadQuit(s, t)
  {
    hide Inv, Enabled, Apply, Full, Empty;
    ForgivenInv(s, t);
    ForgivenStep(s, t);
    OnlyABadQuitLapses(Forgiven(s), t);
  }

  /**
   From a state in which no reader misses a wakeup, the next one has a reader asleep in vain if and only if
   the step was such a return.
   */
  lemma MissedExactlyByBadQuit(s: State, t: Step)
    requires Inv(s) && Enabled(s, t) && NoneMisses(s)
    ensures ReaderMisses(Apply(s, t)) <==> BadQuit(s, t)
    ensures BadQuit(s, t) ==> s.killed[t.p] && Full(s.ring)
  {
    var r := Apply(s, t);
    OnlyABadQuitMisses(s, t);
    if ReaderMisses(r) {
      NobodyOwes(r);
    }
    if BadQuit(s, t) {
      var q: nat :| q < |s.procs| && s.procs[q].RSleeping?;
      LapseLeavesAReaderAsleep(s, t, q);
      FullIsNotEmpty(r.ring);
      assert SleepsInVain(r, q);
    }
  }

  lemma FullIsNotEmpty(r: Ring)
    ensures !(Full(r) && Empty(r))
  {
  }

  /** In every run: when a reader is found asleep in vain, or about to be, such a return came before. */
  lemma {:induction false} BadQuitBefore(run: seq<State>, k: nat) returns (j: nat, t: Step)
    requires IsRun(run) && k < |run| && !NoneMisses(run[k])
    ensures BadQuitAt(run, j, t) && j < k
  {
    StartsWell(run);
    hide IsRun, NoneMisses, BadQuitAt;
    if NoneMisses(run[k - 1]) {
      j := k - 1;
      t := BadQuitAtOnce(run, j);
    } else {
      j, t := BadQuitBefore(run, k - 1);
    }
  }

  lemma BadQuitAtOnce(run: seq<State>, j: nat) returns (t: Step)
    requires IsRun(run) && j + 1 < |run| && NoneMisses(run[j]) && !NoneMisses(run[j + 1])
    ensures BadQuitAt(run, j, t)
  {
    RunInv(run, j);
    t := StepAt(run, j);
    OnlyABadQuitMisses(run[j], t);
    hide IsRun, Inv, Enabled, Apply, NoneMisses, BadQuit;
  }

  lemma StartsWell(run: seq<State>)
    requires IsRun(run)
    ensures NoneMisses(run[0])
  {
  }

  lemma StepAt(run: seq<State>, k: nat) returns (t: Step)
    requires IsRun(run) && k + 1 < |run|
    ensures Enabled(run[k], t) && run[k + 1] == Apply(run[k], t)
  {
    hide Enabled, Apply, Initial;
    assert Next(run[k], run[k + 1]);
    t :| Enabled(run[k], t) && run[k + 1] == Apply(run[k], t);
  }

  ghost predicate BadQuitAt(run: seq<State>, j: nat, t: Step) {
    j + 1 < |run| && Enabled(run[j], t) && run[j + 1] == Apply(run[j], t) && BadQuit(run[j], t)
  }

  /**
   Whenever the lock is free, a sleeping reader waits on an empty pipe that can still be written, or such a
   return came before.
   */
  lemma ReaderSleepsOnlyWhenEmpty(run: seq<State>, k: nat, q: nat)
    requires IsRun(run) && k < |run| && run[k].lock < 0 && q < |run[k].procs| && run[k].procs[q].RSleeping?
    ensures (Ok(run[k].ring) && Buffered(run[k].ring) == [] && run[k].writeopen)
            || exists j: nat, t: Step :: BadQuitAt(run, j, t) && j < k
  {
    hide Exclusion, References, Dozers, WritersSleep, Initial, BadQuit, Enabled, Apply;
    RunInv(run, k);
    NobodyOwes(run[k]);
    FullMeans(run[k].ring);
    if !(Empty(run[k].ring) && run[k].writeopen) {
      var j, t := BadQuitBefore(run, k);
    }
  }

  /** A reader and a writer never wait for each other, unless such a return came before. */
  lemma NeverBothAsleep(run: seq<State>, k: nat, p: nat, q: nat)
    requires IsRun(run) && k < |run| && run[k].lock < 0 && p < |run[k].procs| && q < |run[k].procs|
    requires forall j: nat, t: Step :: BadQuitAt(run, j, t) ==> j >= k
    ensures !(run[k].procs[p].WSleeping? && run[k].procs[q].RSleeping?)
  {
    hide IsRun, BadQuitAt;
    if run[k].procs[p].WSleeping? && run[k].procs[q].RSleeping? {
      WriterSleepsOnlyWhenFull(run, k, p);
      ReaderSleepsOnlyWhenEmpty(run, k, q);
      assert false;
    }
  }

  /** Only the -1 return of a killed writer that has stored bytes can start a lapse. */
  lemma QuitOrLapse(s: State, t: Step)
    requires Inv(s) && Enabled(s, t) && !s.lapsed
    ensures Apply(s, t).lapsed <==> (t.WQuit? && s.procs[t.p].stored && s.readopen)
    ensures Apply(s, t).lapsed ==> s.killed[t.p]
  {
    hide Exclusion, References, Stream, Dozers, WritersSleep, ReadersSleep, Ok;
  }

  /** And it does harm whenever a reader is asleep: the reader goes on sleeping over a full pipe. */
  lemma LapseLeavesAReaderAsleep(s: State, t: Step, q: nat)
    requires Inv(s) && Enabled(s, t) && t.WQuit? && s.procs[t.p].stored && s.readopen
    requires q < |s.procs| && s.procs[q].RSleeping?
    ensures Apply(s, t).lock < 0 && Apply(s, t).procs[q].RSleeping? && Full(Apply(s, t).ring)
  {
    hide References, Stream, Dozers, WritersSleep, ReadersSleep, Ok;
  }

  // ---- Such a run exists ------------------------------------------------------------------------------

  lemma Extend(run: seq<State>, t: Step) returns (r: seq<State>)
    requires IsRun(run) && Enabled(run[|run| - 1], t)
    ensures IsRun(r) && |r| == |run| + 1 && r[|run|] == Apply(run[|run| - 1], t)
  {
    hide Initial, Enabled, Apply;
    var s := run[|run| - 1];
    r := run + [Apply(s, t)];
    assert Next(s, Apply(s, t));
  }

  /** A reader (0) asleep while a killed writer (1) has k of its 513 bytes in the pipe. */
  ghost predicate Filling(s: State, k: nat) {
    && Inv(s) && s.procs == [RSleeping(1), WLoop(seq(513, _ => 7), k, k > 0)]
    && s.killed == [false, true] && s.readopen && |s.written| == k && s.read == []
  }

  lemma FillingStep(s: State, k: nat)
    requires Filling(s, k) && k < 512
    ensures Enabled(s, WStore(1)) && Filling(Apply(s, WStore(1)), k + 1)
  {
    var t := WStore(1);
    assert Ok(s.ring) && Count(s.ring) == k by {
      assert |s.written| == |s.read| + |Buffered(s.ring)|;
    }
    FullMeans(s.ring);
    assert Enabled(s, t);
    assert Next(s, Apply(s, t));
    StepInv(s, Apply(s, t));
  }

  lemma {:induction false} Fill(run: seq<State>, k: nat) returns (r: seq<State>)
    requires IsRun(run) && Filling(run[|run| - 1], k) && k <= 512
    ensures IsRun(r) && Filling(r[|r| - 1], 512)
    decreases 512 - k
  {
    if k == 512 {
      r := run;
    } else {
      hide Filling, IsRun;
      FillingStep(run[|run| - 1], k);
      var next := Extend(run, WStore(1));
      r := Fill(next, k + 1);
    }
  }

  lemma StartFilling() returns (run: seq<State>)
    ensures IsRun(run) && Filling(run[|run| - 1], 0)
  {
    var zeros: seq<Byte> := seq(PIPESIZE, _ => 0);
    var s := State(Ring(zeros, 0, 0), true, true, true, true, -1, [Idle, Idle], [false, false], [], [], false);
    run := [s];
    run := Extend(run, StartRead(0, 1));
    run := Extend(run, RAcquire(0));
    run := Extend(run, RSleep(0));
    run := Extend(run, StartWrite(1, seq(513, _ => 7)));
    run := Extend(run, Kill(1));
    run := Extend(run, WAcquire(1));
    RunInv(run, |run| - 1);
  }

  /** A reachable state with the lock free, the pipe full, and a reader asleep on it. */
  lemma ReaderCanMissAFullPipe() returns (run: seq<State>)
    ensures IsRun(run) && run[|run| - 1].lock < 0 && Full(run[|run| - 1].ring)
    ensures 0 < |run[|run| - 1].procs| && run[|run| - 1].procs[0].RSleeping?
  {
    run := StartFilling();
    run := Fill(run, 0);
    var s := run[|run| - 1];
    assert Count(s.ring) == 512 by {
      assert |s.written| == |s.read| + |Buffered(s.ring)|;
    }
    FullMeans(s.ring);
    LapseLeavesAReaderAsleep(s, WQuit(1), 0);
    run := Extend(run, WQuit(1));
  }
}
