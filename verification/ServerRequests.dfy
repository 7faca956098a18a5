/**
 What becomes of each request of server.c's monitor, told from the steps that read, took and served it.
 */
module ServerRequests {
  import opened Options
  import opened ServerHeap
  import opened ServerMonitor

  /** A run with its steps. */
  ghost predicate RunBy(run: seq<State>, ts: seq<Step>) {
    && |run| == |ts| + 1 && Initial(run[0])
    && forall k: nat :: k < |ts| ==> Takes(run[k], run[k + 1], ts[k])
  }

  ghost predicate Takes(s: State, r: State, t: Step) {
    Enabled(s, t) && r == Apply(s, t)
  }

  lemma RunByIsRun(run: seq<State>, ts: seq<Step>)
    requires RunBy(run, ts)
    ensures IsRun(run)
  {
    hide Initial, Enabled, Apply;
    forall k: nat | k + 1 < |run|
      ensures Next(run[k], run[k + 1])
    {
      assert Takes(run[k], run[k + 1], ts[k]);
    }
  }

  // ---- What the steps say -------------------------------------------------------------------------

  /** The requests read by the first k steps. */
  function Reads(ts: seq<Step>, k: nat): seq<Conn>
    requires k <= |ts|
  {
    if k == 0 then [] else Reads(ts, k - 1) + (if ts[k - 1].Read? then [ts[k - 1].d] else [])
  }

  function Enqueues(ts: seq<Step>, k: nat): nat
    requires k <= |ts|
  {
    if k == 0 then 0 else Enqueues(ts, k - 1) + (if ts[k - 1].Enqueue? then 1 else 0)
  }

  function Dequeues(ts: seq<Step>, k: nat): seq<Conn>
    requires k <= |ts|
  {
    if k == 0 then [] else Dequeues(ts, k - 1) + (if ts[k - 1].Dequeue? then [ts[k - 1].d] else [])
  }

  /** The request that worker i has last taken from the queue. */
  function LastTaken(ts: seq<Step>, k: nat, i: nat): Option<Conn>
    requires k <= |ts|
  {
    if k == 0 then None else TakenBy(ts[k - 1], i, LastTaken(ts, k - 1, i))
  }

  function TakenBy(t: Step, i: nat, last: Option<Conn>): Option<Conn> {
    if t.Dequeue? && t.i == i then Some(t.d) else last
  }

  /** The requests that the steps so far have served. */
  function Handled(run: seq<State>, ts: seq<Step>, k: nat): multiset<Conn>
    requires k <= |ts| < |run|
  {
    if k == 0 then multiset{} else Handled(run, ts, k - 1) + HandledBy(run[k - 1], ts[k - 1])
  }

  function HandledBy(s: State, t: Step): multiset<Conn> {
    if t.Served? && t.i < |s.workers| then InHand(s.workers[t.i]) else multiset{}
  }

  // ---- Where requests are ----------------------------------------------------------------------------

  function InHand(pc: WorkerPc): multiset<Conn> {
    match pc
    case WSignal(d) => multiset{d}
    case WUnlock(e) => multiset{e}
    case WServe(f) => multiset{f}
    case _ => multiset{}
  }

  function Hands(workers: seq<WorkerPc>): multiset<Conn> {
    if workers == [] then multiset{} else Hands(workers[..|workers| - 1]) + InHand(workers[|workers| - 1])
  }

  function Carries(pc: MasterPc): seq<Conn> {
    match pc
    case MLockAgain(d) => [d]
    case MEnqueue(e) => [e]
    case _ => []
  }

  lemma {:induction false} HandsUpdate(workers: seq<WorkerPc>, i: nat, pc: WorkerPc)
    requires i < |workers|
    ensures Hands(workers[i := pc]) + InHand(workers[i]) == Hands(workers) + InHand(pc)
  {
    hide InHand;
    var n := |workers| - 1;
    if i == n {
      assert workers[i := pc][..n] == workers[..n];
    } else {
      var init, upd := workers[..n], workers[i := pc];
      assert upd[..n] == init[i := pc] && upd[n] == workers[n];
      HandsUpdate(init, i, pc);
      Added(Hands(init[i := pc]), InHand(workers[i]), Hands(init), InHand(pc), InHand(workers[n]));
    }
  }

  lemma Added(a: multiset<Conn>, x: multiset<Conn>, b: multiset<Conn>, y: multiset<Conn>, z: multiset<Conn>)
    requires a + x == b + y
    ensures (a + z) + x == (b + z) + y
  {
    assert (a + z) + x == (a + x) + z && (b + z) + y == (b + y) + z;
  }

  lemma {:induction false} HandsEmpty(workers: seq<WorkerPc>)
    requires forall i: nat :: i < |workers| ==> InHand(workers[i]) == multiset{}
    ensures Hands(workers) == multiset{}
  {
    hide InHand;
    if workers != [] {
      HandsEmpty(workers[..|workers| - 1]);
    }
  }

  lemma {:induction false} HandsAlike(a: seq<WorkerPc>, b: seq<WorkerPc>)
    requires |a| == |b| && forall i: nat :: i < |a| ==> InHand(a[i]) == InHand(b[i])
    ensures Hands(a) == Hands(b)
  {
    hide InHand;
    if a != [] {
      HandsAlike(a[..|a| - 1], b[..|a| - 1]);
    }
  }

  // ---- What every step keeps -----------------------------------------------------------------------------

  /** The settings of the server do not change. */
  lemma SettingsKept(s: State, t: Step)
    requires Enabled(s, t)
    ensures Apply(s, t).capacity == s.capacity && Apply(s, t).fifo == s.fifo && |Apply(s, t).workers| == |s.workers|
  {
    hide Wakes, Least;
  }

  /** What has been read is what was accepted, and what the master still carries. */
  ghost predicate ReadOk(s: State, got: seq<Conn>, enqueues: nat) {
    got == s.accepted + Carries(s.master) && |s.accepted| == enqueues
  }

  lemma StepReads(s: State, t: Step, got: seq<Conn>, enqueues: nat)
    requires Enabled(s, t) && ReadOk(s, got, enqueues)
    ensures ReadOk(Apply(s, t), got + (if t.Read? then [t.d] else []), enqueues + (if t.Enqueue? then 1 else 0))
  {
    hide Wakes, Least, Awaken;
  }

  /** What worker i has in hand is what it has taken last. */
  ghost predicate HandOk(pc: WorkerPc, last: Option<Conn>) {
    (pc.WSignal? ==> last == Some(pc.d)) && (pc.WUnlock? ==> last == Some(pc.e)) && (pc.WServe? ==> last == Some(pc.f))
  }

  lemma StepHands(s: State, t: Step, i: nat, last: Option<Conn>)
    requires Enabled(s, t) && i < |s.workers| && HandOk(s.workers[i], last)
    ensures |Apply(s, t).workers| == |s.workers| && HandOk(Apply(s, t).workers[i], TakenBy(t, i, last))
  {
    hide Least;
    if ByMaster(t) {
      WorkersRest(s, t, i);
      hide Enabled, Apply;
    } else {
      WorkerStepHands(s, t, i, last);
      hide Enabled, Apply;
    }
  }

  lemma WorkerStepHands(s: State, t: Step, i: nat, last: Option<Conn>)
    requires Enabled(s, t) && !ByMaster(t) && i < |s.workers| && HandOk(s.workers[i], last)
    ensures |Apply(s, t).workers| == |s.workers| && HandOk(Apply(s, t).workers[i], TakenBy(t, i, last))
  {
    hide Least, Wakes, Awaken;
  }

  /** The master only wakes workers: nobody has more or less in hand. */
  lemma WorkersRest(s: State, t: Step, i: nat)
    requires Enabled(s, t) && ByMaster(t) && i < |s.workers|
    ensures |Apply(s, t).workers| == |s.workers|
    ensures Apply(s, t).workers[i] == s.workers[i] || (s.workers[i] == WAsleep && Apply(s, t).workers[i] == WLock)
  {
    hide Least;
    if t.SignalEmpty? {
      assert i in t.woken ==> Asleep(s, i);
    }
  }

  /** Everything read is carried by the master, waiting, in a worker's hands, or served. */
  ghost predicate Everywhere(s: State, got: seq<Conn>, handled: multiset<Conn>) {
    multiset(got) == multiset(Carries(s.master)) + s.queue + Hands(s.workers) + handled
  }

  /** The master reads a request, carries it, and puts it in the queue. */
  lemma MasterMoves(s: State, t: Step)
    requires Enabled(s, t) && ByMaster(t)
    ensures multiset(Carries(Apply(s, t).master)) + Apply(s, t).queue ==
            multiset(Carries(s.master)) + s.queue + multiset(if t.Read? then [t.d] else [])
  {
    if t.Read? || t.Enqueue? || t.LockAgain? {
      RequestMoves(s, t);
      hide Enabled, Apply, Carries;
    } else {
      MasterRests(s, t);
      hide Enabled, Apply, Carries;
    }
  }

  lemma RequestMoves(s: State, t: Step)
    requires Enabled(s, t) && (t.Read? || t.Enqueue? || t.LockAgain?)
    ensures multiset(Carries(Apply(s, t).master)) + Apply(s, t).queue ==
            multiset(Carries(s.master)) + s.queue + multiset(if t.Read? then [t.d] else [])
  {
  }

  lemma MasterRests(s: State, t: Step)
    requires Enabled(s, t) && ByMaster(t) && !t.Read? && !t.Enqueue? && !t.LockAgain?
    ensures Carries(Apply(s, t).master) == Carries(s.master) && Apply(s, t).queue == s.queue
  {
    hide Wakes, Awaken;
  }

  /** The workers' hands stay as they are. */
  lemma HandsRest(s: State, t: Step)
    requires Enabled(s, t) && ByMaster(t)
    ensures Hands(Apply(s, t).workers) == Hands(s.workers) && HandledBy(s, t) == multiset{}
  {
    hide Least, Hands;
    if t.SignalEmpty? {
      forall i: nat | i < |s.workers|
        ensures InHand(Apply(s, t).workers[i]) == InHand(s.workers[i])
      {
        WorkersRest(s, t, i);
      }
      HandsAlike(s.workers, Apply(s, t).workers);
    }
  }

  lemma Moved(all: multiset<Conn>, c: multiset<Conn>, q: multiset<Conn>, h: multiset<Conn>, c2: multiset<Conn>,
          q2: multiset<Conn>, more: multiset<Conn>, handled: multiset<Conn>)
    requires all == c + q + h + handled && c2 + q2 == c + q + more
    ensures all + more == c2 + q2 + h + handled
  {
  }

  lemma MasterKeepsAll(s: State, t: Step, got: seq<Conn>, handled: multiset<Conn>)
    requires Enabled(s, t) && ByMaster(t) && Everywhere(s, got, handled)
    ensures Everywhere(Apply(s, t), got + (if t.Read? then [t.d] else []), handled + HandledBy(s, t))
  {
    MasterMoves(s, t);
    HandsRest(s, t);
    hide Hands, Enabled, Apply, Carries, InHand, HandledBy;
    var more := if t.Read? then [t.d] else [];
    Moved(multiset(got), multiset(Carries(s.master)), s.queue, Hands(s.workers), multiset(Carries(Apply(s, t).master)),
        Apply(s, t).queue, multiset(more), handled);
    assert multiset(got + more) == multiset(got) + multiset(more);
    assert handled + multiset{} == handled;
  }

  lemma HandOver(all: multiset<Conn>, c: multiset<Conn>, q: multiset<Conn>, h: multiset<Conn>, q2: multiset<Conn>,
          h2: multiset<Conn>, was: multiset<Conn>, now: multiset<Conn>, taken: multiset<Conn>,
          handled: multiset<Conn>, more: multiset<Conn>)
    requires all == c + q + h + handled && h2 + was == h + now && was + taken == now + more && q == q2 + taken
    ensures all == c + q2 + h2 + (handled + more)
  {
    forall d
      ensures all[d] == (c + q2 + h2 + (handled + more))[d]
    {
      assert (h2 + was)[d] == (h + now)[d] && (was + taken)[d] == (now + more)[d];
    }
  }

  lemma WorkerKeepsAll(s: State, t: Step, got: seq<Conn>, handled: multiset<Conn>)
    requires Enabled(s, t) && !ByMaster(t) && Everywhere(s, got, handled)
    ensures Everywhere(Apply(s, t), got + (if t.Read? then [t.d] else []), handled + HandledBy(s, t))
  {
    OneWorkerMoves(s, t);
    var r, i := Apply(s, t), t.i;
    HandsUpdate(s.workers, i, r.workers[i]);
    hide Hands, Enabled, Apply, Carries, InHand, HandledBy;
    HandOver(multiset(got), multiset(Carries(s.master)), s.queue, Hands(s.workers), r.queue, Hands(r.workers),
        InHand(s.workers[i]), InHand(r.workers[i]), if t.Dequeue? then multiset{t.d} else multiset{}, handled,
        HandledBy(s, t));
    assert got + [] == got;
  }

  /** One worker moves; what it had in hand is still there, or was taken, or is served. */
  lemma OneWorkerMoves(s: State, t: Step)
    requires Enabled(s, t) && !ByMaster(t)
    ensures t.i < |s.workers| == |Apply(s, t).workers|
    ensures Apply(s, t).workers == s.workers[t.i := Apply(s, t).workers[t.i]]
    ensures Carries(Apply(s, t).master) == Carries(s.master)
    ensures InHand(s.workers[t.i]) + (if t.Dequeue? then multiset{t.d} else multiset{}) ==
            InHand(Apply(s, t).workers[t.i]) + HandledBy(s, t)
    ensures s.queue == Apply(s, t).queue + (if t.Dequeue? then multiset{t.d} else multiset{})
  {
    OnlyThatWorker(s, t);
    if t.Dequeue? {
      TakenFrom(s.queue, t.d);
      hide Least, Carries;
    } else {
      HandKept(s, t);
      hide Enabled, Apply, InHand, HandledBy, Carries;
    }
  }

  lemma OnlyThatWorker(s: State, t: Step)
    requires Enabled(s, t) && !ByMaster(t)
    ensures t.i < |s.workers| == |Apply(s, t).workers|
    ensures Apply(s, t).workers == s.workers[t.i := Apply(s, t).workers[t.i]]
    ensures Carries(Apply(s, t).master) == Carries(s.master)
    ensures !t.Dequeue? ==> Apply(s, t).queue == s.queue
  {
    hide Least, Wakes, Awaken;
  }

  lemma HandKept(s: State, t: Step)
    requires Enabled(s, t) && !ByMaster(t) && !t.Dequeue?
    ensures t.i < |s.workers| == |Apply(s, t).workers|
    ensures InHand(s.workers[t.i]) == InHand(Apply(s, t).workers[t.i]) + HandledBy(s, t)
  {
    hide Least, Wakes, Awaken;
  }

  lemma TakenFrom(q: multiset<Conn>, d: Conn)
    ensures Least(q, d) ==> q == q - multiset{d} + multiset{d}
  {
  }

  lemma StepTaken(s: State, t: Step)
    requires Enabled(s, t)
    ensures Apply(s, t).taken == s.taken + (if t.Dequeue? then [t.d] else [])
  {
    hide Wakes, Least, Awaken;
  }

  // ---- Over runs --------------------------------------------------------------------------------------------

  lemma {:induction false} RunSettings(run: seq<State>, ts: seq<Step>, k: nat)
    requires RunBy(run, ts) && k <= |ts|
    ensures run[k].capacity == run[0].capacity && run[k].fifo == run[0].fifo && |run[k].workers| == |run[0].workers|
  {
    hide Enabled, Apply;
    if k > 0 {
      RunSettings(run, ts, k - 1);
      assert Takes(run[k - 1], run[k - 1 + 1], ts[k - 1]);
      SettingsKept(run[k - 1], ts[k - 1]);
    }
  }

  lemma {:induction false} RunReads(run: seq<State>, ts: seq<Step>, k: nat)
    requires RunBy(run, ts) && k <= |ts|
    ensures ReadOk(run[k], Reads(ts, k), Enqueues(ts, k))
  {
    hide Enabled, Apply;
    if k > 0 {
      hide ReadOk;
      RunReads(run, ts, k - 1);
      assert Takes(run[k - 1], run[k - 1 + 1], ts[k - 1]);
      StepReads(run[k - 1], ts[k - 1], Reads(ts, k - 1), Enqueues(ts, k - 1));
    }
  }

  lemma {:induction false} RunHands(run: seq<State>, ts: seq<Step>, k: nat, i: nat)
    requires RunBy(run, ts) && k <= |ts| && i < |run[0].workers|
    ensures |run[k].workers| == |run[0].workers| && HandOk(run[k].workers[i], LastTaken(ts, k, i))
  {
    hide Enabled, Apply;
    if k > 0 {
      hide HandOk;
      RunHands(run, ts, k - 1, i);
      assert Takes(run[k - 1], run[k - 1 + 1], ts[k - 1]);
      StepHands(run[k - 1], ts[k - 1], i, LastTaken(ts, k - 1, i));
    }
  }

  lemma NothingYet(s: State)
    requires Initial(s)
    ensures Everywhere(s, [], multiset{})
  {
    HandsEmpty(s.workers);
  }

  lemma {:induction false} RunEverywhere(run: seq<State>, ts: seq<Step>, k: nat)
    requires RunBy(run, ts) && k <= |ts|
    ensures Everywhere(run[k], Reads(ts, k), Handled(run, ts, k))
  {
    hide Enabled, Apply, Everywhere, HandledBy, Hands, ByMaster;
    if k == 0 {
      NothingYet(run[0]);
    } else {
      RunEverywhere(run, ts, k - 1);
      assert Takes(run[k - 1], run[k - 1 + 1], ts[k - 1]);
      if ByMaster(ts[k - 1]) {
        MasterKeepsAll(run[k - 1], ts[k - 1], Reads(ts, k - 1), Handled(run, ts, k - 1));
      } else {
        WorkerKeepsAll(run[k - 1], ts[k - 1], Reads(ts, k - 1), Handled(run, ts, k - 1));
      }
    }
  }

  lemma {:induction false} RunDequeues(run: seq<State>, ts: seq<Step>, k: nat)
    requires RunBy(run, ts) && k <= |ts|
    ensures run[k].taken == Dequeues(ts, k)
  {
    hide Enabled, Apply;
    if k > 0 {
      RunDequeues(run, ts, k - 1);
      assert Takes(run[k - 1], run[k - 1 + 1], ts[k - 1]);
      StepTaken(run[k - 1], ts[k - 1]);
    }
  }

  // ---- What becomes of a request --------------------------------------------------------------------------------

  /**
   The requests enqueued are those read, in that order, and each read request is in exactly one place:
   carried by the master, waiting, in one worker's hands, or served.
   */
  lemma EachInOnePlace(run: seq<State>, ts: seq<Step>, k: nat)
    requires RunBy(run, ts) && k <= |ts|
    ensures run[k].accepted + Carries(run[k].master) == Reads(ts, k) && |run[k].accepted| == Enqueues(ts, k)
    ensures multiset(Reads(ts, k)) ==
            multiset(Carries(run[k].master)) + run[k].queue + Hands(run[k].workers) + Handled(run, ts, k)
  {
    RunReads(run, ts, k);
    RunEverywhere(run, ts, k);
  }

  /** A worker serves the request that it has last taken from the queue, with that request's own connection. */
  lemma ServesWhatItTook(run: seq<State>, ts: seq<Step>, k: nat, i: nat)
    requires RunBy(run, ts) && k <= |ts| && i < |run[k].workers| && run[k].workers[i].WServe?
    ensures LastTaken(ts, k, i) == Some(run[k].workers[i].f)
  {
    RunSettings(run, ts, k);
    RunHands(run, ts, k, i);
  }

  lemma {:induction false} LastTakenIs(ts: seq<Step>, k: nat, i: nat, j: nat)
    requires j < k <= |ts| && ts[j].Dequeue? && ts[j].i == i
    requires forall h: nat :: j < h < k ==> !(ts[h].Dequeue? && ts[h].i == i)
    ensures LastTaken(ts, k, i) == Some(ts[j].d)
  {
    if j < k - 1 {
      LastTakenIs(ts, k - 1, i, j);
    }
  }

  /** No request is served more often than it was read; under the FIFO policy, in which no two are alike, once. */
  lemma ServedAtMostOnce(run: seq<State>, ts: seq<Step>, k: nat, d: Conn)
    requires RunBy(run, ts) && k <= |ts|
    ensures Handled(run, ts, k)[d] + Hands(run[k].workers)[d] == multiset(Dequeues(ts, k))[d]
    ensures multiset(Dequeues(ts, k))[d] <= multiset(Reads(ts, k))[d]
    ensures run[0].fifo ==> multiset(Dequeues(ts, k))[d] <= 1
  {
    EachInOnePlace(run, ts, k);
    RunDequeues(run, ts, k);
    RunByIsRun(run, ts);
    NothingLost(run, k);
    RunSettings(run, ts, k);
    RunInv(run, k);
    if run[0].fifo {
      assert run[k].taken <= run[k].accepted;
      AtMostOnce(run[k].accepted, d);
    }
    hide RunBy, IsRun, Inv, Reads, Dequeues, Handled, Hands, Carries;
    var a, c := multiset(run[k].accepted), multiset(Carries(run[k].master));
    assert multiset(run[k].accepted + Carries(run[k].master)) == a + c;
    Places(a, c, run[k].queue, multiset(run[k].taken), Hands(run[k].workers), Handled(run, ts, k), d);
  }

  lemma Places(a: multiset<Conn>, c: multiset<Conn>, q: multiset<Conn>, t: multiset<Conn>, h: multiset<Conn>,
          handled: multiset<Conn>, d: Conn)
    requires a == q + t && a + c == c + q + h + handled
    ensures handled[d] + h[d] == t[d] && t[d] <= a[d] <= (a + c)[d]
  {
    assert (a + c)[d] == (c + q + h + handled)[d] && a[d] == (q + t)[d];
  }

  lemma {:induction false} AtMostOnce(a: seq<Conn>, d: Conn)
    requires Increasing(a)
    ensures multiset(a)[d] <= 1
  {
    if a != [] {
      var n := |a| - 1;
      assert a == a[..n] + [a[n]];
      AtMostOnce(a[..n], d);
      assert a[n] !in a[..n];
    }
  }

  /** The pool that the server was set up with is never exceeded. */
  lemma WithinThePool(run: seq<State>, ts: seq<Step>, k: nat)
    requires RunBy(run, ts) && k <= |ts|
    ensures |run[k].queue| <= run[0].capacity
  {
    RunByIsRun(run, ts);
    RunSettings(run, ts, k);
    NeverOverfull(run, k);
  }
}
