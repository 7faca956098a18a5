/**
 server.c's producer and consumers: one master and a pool of workers share the request queue under
 cLock, with the conditions `empty` and `full`. A step is one action of one thread; a wait may end
 without a signal, a signal wakes one or more of the sleepers, and the queue is the priority queue
 of ServerHeap, of which only its contents are kept.
 */
module ServerMonitor {
  import opened ServerHeap

  datatype Holder = Nobody | Master | Worker(i: nat)

  /** The master: main's loop. MRead runs outside the lock between the two critical sections. */
  datatype MasterPc =
    | MAccept | MLock | MTest | MAsleep | MPassed | MRead | MLockAgain(d: Conn) | MEnqueue(e: Conn) | MSignal | MUnlock

  /** A worker: serverWorker's loop. */
  datatype WorkerPc = WLock | WTest | WAsleep | WDequeue | WSignal(d: Conn) | WUnlock(e: Conn) | WServe(f: Conn)

  datatype State = State(
    fifo: bool, capacity: nat, count: int, lock: Holder, master: MasterPc, workers: seq<WorkerPc>,
    queue: multiset<Conn>, accepted: seq<Conn>, taken: seq<Conn>)

  datatype Step =
    | Accept | Lock | Test | Wake | Passed | Read(d: Conn) | LockAgain | Enqueue | SignalEmpty(woken: set<nat>) | Unlock
    | WorkerLock(i: nat) | WorkerTest(i: nat) | WorkerWake(i: nat) | Dequeue(i: nat, d: Conn)
    | SignalFull(i: nat) | WorkerUnlock(i: nat) | Served(i: nat)

  predicate Asleep(s: State, i: nat) {
    i < |s.workers| && s.workers[i] == WAsleep
  }

  /** pthread_cond_signal wakes at least one sleeper when there is one. */
  ghost predicate Wakes(s: State, woken: set<nat>) {
    && (forall i <- woken :: Asleep(s, i))
    && ((exists i: nat :: Asleep(s, i)) ==> woken != {})
  }

  predicate Least(q: multiset<Conn>, d: Conn) {
    d in q && forall x <- q :: d.priority <= x.priority
  }

  ghost predicate Enabled(s: State, t: Step) {
    match t
    case Accept => s.master == MAccept
    case Lock => s.master == MLock && s.lock == Nobody
    case Test => s.master == MTest
    case Wake => s.master == MAsleep
    case Passed => s.master == MPassed
    case Read(d) => s.master == MRead && (s.fifo ==> d.priority == s.count)
    case LockAgain => s.master.MLockAgain? && s.lock == Nobody
    case Enqueue => s.master.MEnqueue?
    case SignalEmpty(woken) => s.master == MSignal && Wakes(s, woken)
    case Unlock => s.master == MUnlock
    case WorkerLock(i) => i < |s.workers| && s.workers[i] == WLock && s.lock == Nobody
    case WorkerTest(i) => i < |s.workers| && s.workers[i] == WTest
    case WorkerWake(i) => Asleep(s, i)
    case Dequeue(i, d) => i < |s.workers| && s.workers[i] == WDequeue && Least(s.queue, d)
    case SignalFull(i) => i < |s.workers| && s.workers[i].WSignal?
    case WorkerUnlock(i) => i < |s.workers| && s.workers[i].WUnlock?
    case Served(i) => i < |s.workers| && s.workers[i].WServe?
  }

  function Awaken(workers: seq<WorkerPc>, woken: set<nat>): (r: seq<WorkerPc>)
    ensures |r| == |workers|
    ensures forall i: nat :: i < |r| ==> r[i] == if i in woken then WLock else workers[i]
  {
    seq(|workers|, i requires 0 <= i < |workers| => if i in woken then WLock else workers[i])
  }

  function Apply(s: State, t: Step): State
    requires Enabled(s, t)
  {
    match t
    case Accept => s.(master := MLock)
    case Lock => s.(master := MTest, lock := Master)
    case Test => if |s.queue| == s.capacity then s.(master := MAsleep, lock := Nobody) else s.(master := MPassed)
    case Wake => s.(master := MLock)
    case Passed => s.(master := MRead, lock := Nobody)
    case Read(d) => s.(master := MLockAgain(d), count := if s.fifo then s.count + 1 else s.count)
    case LockAgain => s.(master := MEnqueue(s.master.d), lock := Master)
    case Enqueue => s.(master := MSignal, queue := s.queue + multiset{s.master.e},
        accepted := s.accepted + [s.master.e])
    case SignalEmpty(woken) => s.(master := MUnlock, workers := Awaken(s.workers, woken))
    case Unlock => s.(master := MAccept, lock := Nobody)
    case WorkerLock(i) => s.(workers := s.workers[i := WTest], lock := Worker(i))
    case WorkerTest(i) =>
      if |s.queue| == 0 then s.(workers := s.workers[i := WAsleep], lock := Nobody)
      else s.(workers := s.workers[i := WDequeue])
    case WorkerWake(i) => s.(workers := s.workers[i := WLock])
    case Dequeue(i, d) => s.(workers := s.workers[i := WSignal(d)], queue := s.queue - multiset{d},
        taken := s.taken + [d])
    case SignalFull(i) =>
      s.(workers := s.workers[i := WUnlock(s.workers[i].d)], master := if s.master == MAsleep then MLock else s.master)
    case WorkerUnlock(i) => s.(workers := s.workers[i := WServe(s.workers[i].e)], lock := Nobody)
    case Served(i) => s.(workers := s.workers[i := WLock])
  }

  /** main after initQueue and Pthread_create. */
  predicate Initial(s: State) {
    && s.capacity >= 1 && |s.workers| >= 1 && s.lock == Nobody && s.master == MAccept
    && (forall i: nat :: i < |s.workers| ==> s.workers[i] == WLock)
    && s.queue == multiset{} && s.accepted == [] && s.taken == []
  }

  ghost predicate Next(s: State, r: State) {
    exists t: Step :: Enabled(s, t) && r == Apply(s, t)
  }

  ghost predicate IsRun(run: seq<State>) {
    && run != [] && Initial(run[0])
    && forall k: nat :: k + 1 < |run| ==> Next(run[k], run[k + 1])
  }

  // ---- The invariant -------------------------------------------------------------------------

  predicate MasterHolds(pc: MasterPc) {
    pc == MTest || pc == MPassed || pc.MEnqueue? || pc == MSignal || pc == MUnlock
  }

  predicate WorkerHolds(pc: WorkerPc) {
    pc == WTest || pc == WDequeue || pc.WSignal? || pc.WUnlock?
  }

  /** cLock is held by exactly the thread inside a critical section. */
  ghost predicate Exclusion(s: State) {
    && (MasterHolds(s.master) <==> s.lock == Master)
    && (s.lock.Worker? ==> s.lock.i < |s.workers|)
    && forall i: nat :: i < |s.workers| ==> (WorkerHolds(s.workers[i]) <==> s.lock == Worker(i))
  }

  /** Between the master's test and its insertion. */
  predicate RoomPromised(pc: MasterPc) {
    pc == MPassed || pc == MRead || pc.MLockAgain? || pc.MEnqueue?
  }

  ghost predicate Room(s: State) {
    && s.capacity >= 1 && |s.workers| >= 1
    && |s.queue| <= s.capacity && (RoomPromised(s.master) ==> |s.queue| < s.capacity)
    && forall i: nat :: i < |s.workers| && s.workers[i] == WDequeue ==> |s.queue| > 0
  }

  predicate AwakeWorker(s: State, i: nat) {
    i < |s.workers| && s.workers[i] != WAsleep
  }

  predicate SignallingWorker(s: State, i: nat) {
    i < |s.workers| && s.workers[i].WSignal?
  }

  /** No wakeup is lost, up to a thread that has changed the queue and is about to signal. */
  ghost predicate Wakeups(s: State) {
    && (s.master == MAsleep ==> |s.queue| == s.capacity || exists i: nat :: SignallingWorker(s, i))
    && (|s.queue| > 0 ==> s.master == MSignal || exists i: nat :: AwakeWorker(s, i))
  }

  ghost predicate Conserved(s: State) {
    multiset(s.accepted) == s.queue + multiset(s.taken)
  }

  /** What the master carries to its insertion. */
  predicate Carried(pc: MasterPc, d: Conn) {
    pc == MLockAgain(d) || pc == MEnqueue(d)
  }

  ghost predicate InOrder(s: State) {
    && Increasing(s.accepted) && Below(s.accepted, s.count)
    && (forall d :: Carried(s.master, d) ==> d.priority < s.count && Below(s.accepted, d.priority))
    && s.taken <= s.accepted && s.queue == multiset(s.accepted[|s.taken|..])
  }

  ghost predicate Inv(s: State) {
    Exclusion(s) && Room(s) && Wakeups(s) && Conserved(s) && (s.fifo ==> InOrder(s))
  }

  // ---- Every step keeps it --------------------------------------------------------------------

  predicate ByMaster(t: Step) {
    t.Accept? || t.Lock? || t.Test? || t.Wake? || t.Passed? || t.Read? || t.LockAgain? || t.Enqueue? || t.SignalEmpty?
    || t.Unlock?
  }

  lemma KeepsExclusion(s: State, t: Step)
    requires Exclusion(s) && Enabled(s, t)
    ensures Exclusion(Apply(s, t))
  {
    hide Exclusion, Enabled, Apply;
    if ByMaster(t) {
      MasterKeepsExclusion(s, t);
    } else {
      WorkerKeepsExclusion(s, t);
    }
  }

  lemma MasterKeepsExclusion(s: State, t: Step)
    requires Exclusion(s) && Enabled(s, t) && ByMaster(t)
    ensures Exclusion(Apply(s, t))
  {
    hide Wakes, Least;
  }

  lemma WorkerKeepsExclusion(s: State, t: Step)
    requires Exclusion(s) && Enabled(s, t) && !ByMaster(t)
    ensures Exclusion(Apply(s, t))
  {
    hide Wakes, Least, Awaken;
  }

  lemma KeepsRoom(s: State, t: Step)
    requires Exclusion(s) && Room(s) && Enabled(s, t)
    ensures Room(Apply(s, t))
  {
    hide Exclusion, Room, Enabled, Apply;
    if ByMaster(t) {
      MasterKeepsRoom(s, t);
    } else {
      WorkerKeepsRoom(s, t);
    }
  }

  lemma MasterKeepsRoom(s: State, t: Step)
    requires Exclusion(s) && Room(s) && Enabled(s, t) && ByMaster(t)
    ensures Room(Apply(s, t))
  {
    hide Wakes, Least;
  }

  lemma WorkerKeepsRoom(s: State, t: Step)
    requires Exclusion(s) && Room(s) && Enabled(s, t) && !ByMaster(t)
    ensures Room(Apply(s, t))
  {
    hide Wakes, Awaken, Least;
    if t.Dequeue? {
      TakenLess(s.queue, t.d);
    }
    var r := Apply(s, t);
    assert t.Dequeue? || r.queue == s.queue;
    assert RoomPromised(r.master) ==> RoomPromised(s.master);
    OtherWorkersWait(s, t);
  }

  lemma TakenLess(q: multiset<Conn>, d: Conn)
    requires Least(q, d)
    ensures |q - multiset{d}| < |q|
  {
    assert q == (q - multiset{d}) + multiset{d};
  }

  /** A worker about to dequeue is the holder of the lock: no other worker has emptied the queue. */
  lemma OtherWorkersWait(s: State, t: Step)
    requires Exclusion(s) && Room(s) && Enabled(s, t) && !ByMaster(t)
    ensures var r := Apply(s, t);
            forall i: nat :: i < |r.workers| && r.workers[i] == WDequeue ==> |r.queue| > 0
  {
    hide Wakes, Awaken, Least;
  }

  lemma KeepsWakeups(s: State, t: Step)
    requires Exclusion(s) && Room(s) && Wakeups(s) && Enabled(s, t)
    ensures Wakeups(Apply(s, t))
  {
    hide Exclusion, Room, Wakeups, Enabled, Apply;
    if ByMaster(t) {
      MasterKeepsWakeups(s, t);
    } else {
      WorkerKeepsWakeups(s, t);
    }
  }

  lemma MasterKeepsWakeups(s: State, t: Step)
    requires Exclusion(s) && Room(s) && Wakeups(s) && Enabled(s, t) && ByMaster(t)
    ensures Wakeups(Apply(s, t))
  {
    var r := Apply(s, t);
    if t.SignalEmpty? {
      if t.woken == {} {
        assert !Asleep(s, 0);
        assert AwakeWorker(r, 0);
      } else {
        var i :| i in t.woken;
        assert Asleep(s, i) && AwakeWorker(r, i);
      }
    } else {
      assert r.workers == s.workers;
      assert forall i: nat :: SignallingWorker(s, i) <==> SignallingWorker(r, i);
      assert forall i: nat :: AwakeWorker(s, i) <==> AwakeWorker(r, i);
    }
  }

  lemma WorkerKeepsWakeups(s: State, t: Step)
    requires Wakeups(s) && Enabled(s, t) && !ByMaster(t)
    ensures Wakeups(Apply(s, t))
  {
    if t.SignalFull? || t.Dequeue? {
      assert AwakeWorker(Apply(s, t), t.i) && (t.Dequeue? ==> SignallingWorker(Apply(s, t), t.i));
    } else {
      hide Wakeups, SignallingWorker;
      WorkerMoves(s, Apply(s, t), t.i);
    }
  }

  /** A worker that was not about to signal goes on, or to sleep over an empty queue. */
  lemma WorkerMoves(s: State, r: State, i: nat)
    requires Wakeups(s) && i < |s.workers| == |r.workers| && !s.workers[i].WSignal?
    requires forall k: nat :: k < |s.workers| && k != i ==> r.workers[k] == s.workers[k]
    requires r.master == s.master && r.queue == s.queue && r.capacity == s.capacity
    requires |r.queue| == 0 || AwakeWorker(r, i)
    ensures Wakeups(r)
  {
    if k: nat :| SignallingWorker(s, k) {
      assert SignallingWorker(r, k);
    }
  }

  lemma KeepsConserved(s: State, t: Step)
    requires Conserved(s) && Enabled(s, t)
    ensures Conserved(Apply(s, t))
  {
  }

  lemma KeepsOrder(s: State, t: Step)
    requires s.fifo && InOrder(s) && Enabled(s, t)
    ensures InOrder(Apply(s, t))
  {
    match t
    case Read(_) => ReadKeepsOrder(s, t);
    case Enqueue => EnqueueKeepsOrder(s);
    case LockAgain => assert Carried(s.master, s.master.d);
    case Dequeue(i, d) => DequeueKeepsOrder(s, t);
    case _ => OthersKeepOrder(s, t);
  }

  lemma OthersKeepOrder(s: State, t: Step)
    requires s.fifo && InOrder(s) && Enabled(s, t)
    requires !t.Read? && !t.Enqueue? && !t.LockAgain? && !t.Dequeue?
    ensures InOrder(Apply(s, t))
  {
    hide Increasing, Below, Awaken, Wakes, Least, Enabled;
    var r := Apply(s, t);
    NothingCarried(s, t);
    assert r.accepted == s.accepted && r.taken == s.taken && r.queue == s.queue && r.count == s.count;
    hide Apply;
  }

  /** Away from the steps of the second critical section the master carries what it carried, or nothing. */
  lemma NothingCarried(s: State, t: Step)
    requires Enabled(s, t) && !t.Read? && !t.Enqueue? && !t.LockAgain? && !t.Dequeue?
    ensures forall d :: Carried(Apply(s, t).master, d) ==> Carried(s.master, d)
  {
    hide Awaken, Wakes, Least;
  }

  lemma ReadKeepsOrder(s: State, t: Step)
    requires s.fifo && InOrder(s) && Enabled(s, t) && t.Read?
    ensures InOrder(Apply(s, t))
  {
  }

  lemma EnqueueKeepsOrder(s: State)
    requires s.fifo && InOrder(s) && s.master.MEnqueue?
    ensures InOrder(Apply(s, Enqueue))
  {
    assert Carried(s.master, s.master.e);
    assert (s.accepted + [s.master.e])[|s.taken|..] == s.accepted[|s.taken|..] + [s.master.e];
  }

  lemma DequeueKeepsOrder(s: State, t: Step)
    requires s.fifo && InOrder(s) && Enabled(s, t) && t.Dequeue?
    ensures InOrder(Apply(s, t))
  {
    hide Below, Carried, Increasing, Least, Wakes, Awaken;
    TakeOldest(s.accepted, s.taken, s.queue, t.d);
  }

  lemma TakeOldest(accepted: seq<Conn>, taken: seq<Conn>, queue: multiset<Conn>, d: Conn)
    requires Increasing(accepted) && taken <= accepted && queue == multiset(accepted[|taken|..]) && Least(queue, d)
    ensures taken + [d] <= accepted && queue - multiset{d} == multiset(accepted[|taken| + 1..])
  {
    var rest := accepted[|taken|..];
    LeastIsOldest(rest, d);
    assert rest == [d] + rest[1..];
    assert accepted[|taken| + 1..] == rest[1..];
  }

  lemma LeastIsOldest(rest: seq<Conn>, d: Conn)
    requires Increasing(rest) && Least(multiset(rest), d)
    ensures rest != [] && rest[0] == d
  {
    assert d in rest;
    var k: nat :| k < |rest| && rest[k] == d;
    assert rest[0] in multiset(rest);
  }

  lemma InitialInv(s: State)
    requires Initial(s)
    ensures Inv(s)
  {
  }

  lemma StepInv(s: State, r: State)
    requires Inv(s) && Next(s, r)
    ensures Inv(r)
  {
    hide Exclusion, Room, Wakeups, Conserved, InOrder;
    var t :| Enabled(s, t) && r == Apply(s, t);
    KeepsExclusion(s, t);
    KeepsRoom(s, t);
    KeepsWakeups(s, t);
    KeepsConserved(s, t);
    if s.fifo {
      KeepsOrder(s, t);
    }
  }

  lemma {:induction false} RunInv(run: seq<State>, k: nat)
    requires IsRun(run) && k < |run|
    ensures Inv(run[k])
  {
    if k == 0 {
      InitialInv(run[0]);
    } else {
      RunInv(run, k - 1);
      StepInv(run[k - 1], run[k]);
    }
  }

  // ---- What the server promises --------------------------------------------------------------------

  /** The insertion never overflows the pool, although its test was in an earlier critical section. */
  lemma NeverOverfull(run: seq<State>, k: nat)
    requires IsRun(run) && k < |run|
    ensures |run[k].queue| <= run[k].capacity
    ensures run[k].master.MEnqueue? ==> |run[k].queue| < run[k].capacity
    ensures forall i: nat :: i < |run[k].workers| && run[k].workers[i] == WDequeue ==> |run[k].queue| > 0
  {
    RunInv(run, k);
  }

  /** At most one thread is inside a critical section. */
  lemma OneInside(run: seq<State>, k: nat, i: nat, j: nat)
    requires IsRun(run) && k < |run| && i < j < |run[k].workers|
    ensures !(WorkerHolds(run[k].workers[i]) && WorkerHolds(run[k].workers[j]))
    ensures MasterHolds(run[k].master) ==> !WorkerHolds(run[k].workers[i]) && !WorkerHolds(run[k].workers[j])
  {
    RunInv(run, k);
  }

  lemma NobodySignals(s: State)
    requires Exclusion(s) && s.lock == Nobody
    ensures !exists i: nat :: SignallingWorker(s, i)
  {
    forall i: nat | i < |s.workers|
      ensures !s.workers[i].WSignal?
    {
      assert !WorkerHolds(s.workers[i]);
    }
  }

  /** Whenever nobody holds the lock, a sleeping master has a full queue to wait on. */
  lemma MasterSleepsOnlyWhenFull(run: seq<State>, k: nat)
    requires IsRun(run) && k < |run| && run[k].lock == Nobody && run[k].master == MAsleep
    ensures |run[k].queue| == run[k].capacity
  {
    RunInv(run, k);
    NobodySignals(run[k]);
  }

  /** Whenever nobody holds the lock, waiting requests have a worker that is not asleep. */
  lemma RequestsHaveAnAwakeWorker(run: seq<State>, k: nat)
    requires IsRun(run) && k < |run| && run[k].lock == Nobody && |run[k].queue| > 0
    ensures exists i: nat :: AwakeWorker(run[k], i)
  {
    RunInv(run, k);
  }

  /** Master and workers are never all asleep. */
  lemma NotAllAsleep(run: seq<State>, k: nat)
    requires IsRun(run) && k < |run| && run[k].master == MAsleep
    ensures exists i: nat :: AwakeWorker(run[k], i)
  {
    RunInv(run, k);
    if i: nat :| SignallingWorker(run[k], i) {
      assert AwakeWorker(run[k], i);
    }
  }

  predicate Unsignalled(t: Step) {
    t.Wake? || t.WorkerWake?
  }

  predicate FromOutside(t: Step) {
    t.Accept? || t.Read?
  }

  lemma LeastExists(q: multiset<Conn>) returns (d: Conn)
    requires |q| > 0
    ensures Least(q, d)
    decreases |q|
  {
    var x :| x in q;
    var rest := q - multiset{x};
    assert q == rest + multiset{x};
    if |rest| == 0 {
      d := x;
    } else {
      var y := LeastExists(rest);
      d := if x.priority <= y.priority then x else y;
    }
  }

  function Sleepers(s: State): set<nat> {
    set i: nat | i < |s.workers| && Asleep(s, i)
  }

  /** The holder of the lock can always go on. */
  lemma HolderMoves(s: State) returns (t: Step)
    requires Inv(s) && s.lock != Nobody
    ensures Enabled(s, t) && !Unsignalled(t) && !FromOutside(t)
  {
    match s.lock
    case Master =>
      t := match s.master
        case MTest => Test
        case MPassed => Passed
        case MEnqueue(_) => Enqueue
        case MSignal => SignalEmpty(Sleepers(s))
        case _ => Unlock;
      assert forall i: nat :: Asleep(s, i) ==> i in Sleepers(s);
    case Worker(i) =>
      if s.workers[i] == WDequeue {
        var d := LeastExists(s.queue);
        t := Dequeue(i, d);
      } else {
        t := match s.workers[i]
          case WTest => WorkerTest(i)
          case WSignal(_) => SignalFull(i)
          case _ => WorkerUnlock(i);
      }
  }

  /**
   No deadlock: while requests wait, or the master waits for anything but the network, some thread
   can move without a spurious wakeup and without the outside world.
   */
  lemma SomeoneMoves(run: seq<State>, k: nat) returns (t: Step)
    requires IsRun(run) && k < |run|
    requires |run[k].queue| > 0 || (run[k].master != MAccept && run[k].master != MRead)
    ensures Enabled(run[k], t) && !Unsignalled(t) && !FromOutside(t)
  {
    var s := run[k];
    RunInv(run, k);
    if s.lock != Nobody {
      t := HolderMoves(s);
    } else if s.master == MLock {
      t := Lock;
    } else if s.master.MLockAgain? {
      t := LockAgain;
    } else {
      if s.master == MAsleep {
        MasterSleepsOnlyWhenFull(run, k);
      }
      RequestsHaveAnAwakeWorker(run, k);
      var i: nat :| AwakeWorker(s, i);
      t := if s.workers[i] == WLock then WorkerLock(i) else Served(i);
    }
  }

  /** Every accepted request is waiting or was taken by one worker, never both, never lost. */
  lemma NothingLost(run: seq<State>, k: nat)
    requires IsRun(run) && k < |run|
    ensures multiset(run[k].accepted) == run[k].queue + multiset(run[k].taken)
  {
    RunInv(run, k);
  }

  /** Under the FIFO policy the workers take the requests in the order of their acceptance. */
  lemma TakenInOrder(run: seq<State>, k: nat)
    requires IsRun(run) && k < |run| && run[k].fifo
    ensures run[k].taken <= run[k].accepted
  {
    RunInv(run, k);
  }
}
