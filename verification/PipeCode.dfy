/**
 The loops of pipewrite and piperead are steps of the protocol: a stretch of either, from the acquire or
 from the return of sleep, is what the steps of one process make of the state, up to its next sleep or its
 return.
 */
module PipeCode {
  import opened Bytes
  import opened PipeRing
  import opened Pipe
  import opened PipeProto

  /** The steps lead from s to r. */
  ghost predicate Leads(s: State, ts: seq<Step>, r: State)
    decreases |ts|
  {
    if ts == [] then r == s else Enabled(s, ts[0]) && Leads(Apply(s, ts[0]), ts[1..], r)
  }

  lemma {:induction false} LeadsOn(s: State, ts: seq<Step>, m: State, us: seq<Step>, r: State)
    requires Leads(s, ts, m) && Leads(m, us, r)
    ensures Leads(s, ts + us, r)
    decreases |ts|
  {
    hide Enabled, Apply;
    if ts == [] {
      assert ts + us == us;
    } else {
      assert (ts + us)[1..] == ts[1..] + us;
      LeadsOn(Apply(s, ts[0]), ts[1..], m, us, r);
    }
  }

  lemma OneStep(s: State, t: Step)
    requires Enabled(s, t)
    ensures Leads(s, [t], Apply(s, t))
  {
    hide Enabled, Apply;
    assert [t][1..] == [];
  }

  lemma TwoSteps(s: State, t: Step, u: Step)
    requires Enabled(s, t) && Enabled(Apply(s, t), u)
    ensures Leads(s, [t, u], Apply(Apply(s, t), u))
  {
    hide Enabled, Apply;
    assert [t, u][1..] == [u];
    OneStep(Apply(s, t), u);
  }

  /** What is proved of runs holds where the steps lead. */
  lemma {:induction false} RunOn(run: seq<State>, ts: seq<Step>, r: State) returns (run2: seq<State>)
    requires IsRun(run) && Leads(run[|run| - 1], ts, r)
    ensures IsRun(run2) && run <= run2 && run2[|run2| - 1] == r
    decreases |ts|
  {
    hide Enabled, Apply, Initial;
    if ts == [] {
      run2 := run;
    } else {
      var next := run + [Apply(run[|run| - 1], ts[0])];
      assert IsRun(next) by {
        forall k: nat | k + 1 < |next|
          ensures Next(next[k], next[k + 1])
        {
          if k + 1 < |run| {
            assert Next(run[k], run[k + 1]);
          }
        }
      }
      run2 := RunOn(next, ts[1..], r);
    }
  }

  // ---- pipewrite ----------------------------------------------------------------------------------------------

  ghost predicate InWrite(s: State, p: nat, a: seq<Byte>, i: nat, stored: bool) {
    Ok(s.ring) && |s.killed| == |s.procs| && p < |s.procs| && s.procs[p] == WLoop(a, i, stored) && i <= |a|
  }

  /** The process further on, with the ring and the history of what was accepted. */
  ghost function Wrote(s: State, p: nat, pc: Pc, ring: Ring, written: seq<Byte>): State
    requires p < |s.procs|
  {
    s.(procs := s.procs[p := pc], ring := ring, written := written)
  }

  lemma WroteTwice(s: State, p: nat, pc: Pc, ring: Ring, written: seq<Byte>, pc2: Pc, ring2: Ring, written2: seq<Byte>)
    requires p < |s.procs|
    ensures Wrote(Wrote(s, p, pc, ring, written), p, pc2, ring2, written2) == Wrote(s, p, pc2, ring2, written2)
  {
    assert s.procs[p := pc][p := pc2] == s.procs[p := pc2];
  }

  /** The state with the bytes t stored. */
  ghost function Storing(s: State, p: nat, pc: Pc, t: seq<Byte>): State
    requires p < |s.procs| && Ok(s.ring) && Count(s.ring) + |t| <= PIPESIZE
  {
    Wrote(s, p, pc, Stored(s.ring, t), s.written + t)
  }

  /** The state after k bytes more. */
  ghost function AfterStores(s: State, p: nat, a: seq<Byte>, i: nat, k: nat): State
    requires p < |s.procs| && Ok(s.ring) && Count(s.ring) + k <= PIPESIZE && i + k <= |a|
  {
    Storing(s, p, WLoop(a, i + k, k > 0), a[i..i + k])
  }

  lemma NoStore(s: State, p: nat, a: seq<Byte>, i: nat)
    requires InWrite(s, p, a, i, false)
    ensures Count(s.ring) <= PIPESIZE && AfterStores(s, p, a, i, 0) == s
  {
    assert a[i..i] == [];
    NothingStored(s.ring);
  }

  lemma StoreStep(s: State, p: nat, a: seq<Byte>, i: nat, stored: bool)
    requires InWrite(s, p, a, i, stored) && i < |a| && !Full(s.ring)
    ensures Enabled(s, WStore(p))
    ensures Apply(s, WStore(p)) == Wrote(s, p, WLoop(a, i + 1, true), Store(s.ring, a[i]), s.written + [a[i]])
  {
    hide Full, Store, Count;
  }

  lemma StillRoom(r: Ring, s: seq<Byte>)
    requires Ok(r) && Count(r) + |s| < PIPESIZE
    ensures !Full(Stored(r, s))
  {
    FullMeans(Stored(r, s));
  }

  /** The process with bytes t stored may store one more. */
  lemma StoringIsIn(s: State, p: nat, a: seq<Byte>, j: nat, stored: bool, t: seq<Byte>)
    requires Ok(s.ring) && |s.killed| == |s.procs| && p < |s.procs| && j < |a| && Count(s.ring) + |t| < PIPESIZE
    ensures var m := Storing(s, p, WLoop(a, j, stored), t); InWrite(m, p, a, j, stored) && !Full(m.ring)
  {
    StillRoom(s.ring, t);
    hide Stored, Count, Full;
  }

  lemma StoringMore(s: State, p: nat, pc: Pc, t: seq<Byte>, pc2: Pc, b: Byte)
    requires p < |s.procs| && Ok(s.ring) && Count(s.ring) + |t| < PIPESIZE
    ensures var m := Storing(s, p, pc, t);
            Ok(m.ring) && Wrote(m, p, pc2, Store(m.ring, b), m.written + [b]) == Storing(s, p, pc2, t + [b])
  {
    var r, w := Stored(s.ring, t), s.written + t;
    OneByteMore(s, t, b);
    hide Stored, Count, Store;
    WroteTwice(s, p, pc, r, w, pc2, Store(r, b), w + [b]);
  }

  lemma OneStore(s: State, p: nat, a: seq<Byte>, i: nat, k: nat)
    requires InWrite(s, p, a, i, false) && Count(s.ring) + k < PIPESIZE && i + k < |a|
    ensures Enabled(AfterStores(s, p, a, i, k), WStore(p))
    ensures Apply(AfterStores(s, p, a, i, k), WStore(p)) == AfterStores(s, p, a, i, k + 1)
  {
    var t := a[i..i + k];
    assert a[i..i + k + 1] == t + [a[i + k]];
    hide Count, Enabled, Apply, Ok, Storing;
    var m := Storing(s, p, WLoop(a, i + k, k > 0), t);
    StoringIsIn(s, p, a, i + k, k > 0, t);
    StoringMore(s, p, WLoop(a, i + k, k > 0), t, WLoop(a, i + k + 1, true), a[i + k]);
    hide InWrite;
    StoreStep(m, p, a, i + k, k > 0);
  }

  lemma OneByteMore(s: State, t: seq<Byte>, b: Byte)
    requires Ok(s.ring) && Count(s.ring) + |t| < PIPESIZE
    ensures Store(Stored(s.ring, t), b) == Stored(s.ring, t + [b])
    ensures s.written + t + [b] == s.written + (t + [b])
  {
    hide Count, Stored, Store;
    StoredOne(s.ring, t, b);
  }

  lemma {:induction false} Stores(s: State, p: nat, a: seq<Byte>, i: nat, k: nat)
    requires InWrite(s, p, a, i, false) && Count(s.ring) + k <= PIPESIZE && i + k <= |a|
    ensures Leads(s, seq(k, _ => WStore(p)), AfterStores(s, p, a, i, k))
  {
    NoStore(s, p, a, i);
    hide Enabled, Apply, AfterStores, Count;
    if k > 0 {
      Stores(s, p, a, i, k - 1);
      OneStore(s, p, a, i, k - 1);
      var m := AfterStores(s, p, a, i, k - 1);
      OneStep(m, WStore(p));
      LeadsOn(s, seq(k - 1, _ => WStore(p)), m, [WStore(p)], AfterStores(s, p, a, i, k));
      assert seq(k - 1, _ => WStore(p)) + [WStore(p)] == seq(k, _ => WStore(p));
    }
  }

  /** How the stretch ends: the last wakeup and the release, the return of -1, or the wakeup and the sleep. */
  ghost function WriteEnd(p: nat, outcome: Outcome): seq<Step> {
    match outcome
    case Done => [WDone(p), Leave(p)]
    case Failed => [WQuit(p)]
    case Sleeps => [WNotify(p), WSleep(p)]
  }

  lemma WriteEnds(s: State, p: nat, a: seq<Byte>, i: nat, stored: bool, outcome: Outcome) returns (r: State)
    requires InWrite(s, p, a, i, stored) && (i < |a| ==> Full(s.ring))
    requires outcome == if i == |a| then Done else if !s.readopen || s.killed[p] then Failed else Sleeps
    ensures Leads(s, WriteEnd(p, outcome), r)
    ensures r.ring == s.ring && r.readopen == s.readopen && r.writeopen == s.writeopen && r.written == s.written
    ensures |r.procs| == |s.procs| && r.procs[p] == if outcome == Sleeps then WSleeping(a, i) else Idle
  {
    match outcome
    case Done =>
      TwoSteps(s, WDone(p), Leave(p));
      r := Apply(Apply(s, WDone(p)), Leave(p));
    case Failed =>
      OneStep(s, WQuit(p));
      r := Apply(s, WQuit(p));
    case Sleeps =>
      TwoSteps(s, WNotify(p), WSleep(p));
      r := Apply(Apply(s, WNotify(p)), WSleep(p));
  }

  /** The object's fields are the state's. */
  ghost predicate Shows(pipe: Pipe, s: State)
    reads pipe, pipe.data
  {
    pipe.Value() == s.ring && pipe.readopen == s.readopen && pipe.writeopen == s.writeopen
  }

  /** A stretch of pipewrite, by process p that has just taken the lock. */
  method WriteIsSteps(pipe: Pipe, ghost s: State, ghost p: nat, a: seq<Byte>, start: nat, killed: bool)
    returns (i: nat, outcome: Outcome, ghost ts: seq<Step>, ghost r: State)
    requires Shows(pipe, s) && InWrite(s, p, a, start, false) && killed == s.killed[p]
    modifies pipe`nwrite, pipe.data
    ensures start <= i <= |a| && ts == seq(i - start, _ => WStore(p)) + WriteEnd(p, outcome)
    ensures Leads(s, ts, r) && Shows(pipe, r) && r.written == s.written + a[start..i]
    ensures |r.procs| == |s.procs| && r.procs[p] == if outcome == Sleeps then WSleeping(a, i) else Idle
  {
    hide Leads, Enabled, Apply, Ok, Count, Stored, Full;
    var wakeup;
    i, outcome, wakeup := pipe.Write(a, start, killed);
    Stores(s, p, a, start, i - start);
    ghost var m := AfterStores(s, p, a, start, i - start);
    r := WriteEnds(m, p, a, i, i > start, outcome);
    LeadsOn(s, seq(i - start, _ => WStore(p)), m, WriteEnd(p, outcome), r);
    ts := seq(i - start, _ => WStore(p)) + WriteEnd(p, outcome);
  }

  // ---- piperead -----------------------------------------------------------------------------------------------

  ghost predicate InRead(s: State, p: nat, pc: Pc) {
    Ok(s.ring) && |s.killed| == |s.procs| && p < |s.procs| && s.procs[p] == pc
  }

  ghost function AfterLoads(s: State, p: nat, n: int, k: nat): State
    requires p < |s.procs| && Ok(s.ring) && k <= Count(s.ring)
  {
    s.(procs := s.procs[p := RCopy(n, k)], ring := Loaded(s.ring, k), read := s.read + Buffered(s.ring)[..k])
  }

  lemma {:induction false} LoadsLeft(r: Ring, k: nat)
    requires Ok(r) && k <= Count(r)
    ensures Ok(Loaded(r, k)) && Buffered(Loaded(r, k)) == Buffered(r)[k..]
  {
    LoadedOne(r, 0);
    if k > 0 {
      LoadsLeft(r, k - 1);
      LoadedOne(r, k - 1);
      FullMeans(Loaded(r, k - 1));
      LoadRemoves(Loaded(r, k - 1));
      assert Buffered(r)[k - 1..][1..] == Buffered(r)[k..];
    }
  }

  lemma OneLoad(s: State, p: nat, n: int, k: nat)
    requires InRead(s, p, RCopy(n, 0)) && k < Count(s.ring) && k < n
    ensures Enabled(AfterLoads(s, p, n, k), RLoad(p))
    ensures Apply(AfterLoads(s, p, n, k), RLoad(p)) == AfterLoads(s, p, n, k + 1)
  {
    LoadsLeft(s.ring, k);
    LoadedOne(s.ring, k);
    FullMeans(Loaded(s.ring, k));
    LoadRemoves(Loaded(s.ring, k));
    var b := Buffered(s.ring);
    assert b[..k + 1] == b[..k] + [b[k]] && b[k..][0] == b[k];
  }

  lemma {:induction false} Loads(s: State, p: nat, n: int, k: nat)
    requires InRead(s, p, RCopy(n, 0)) && k <= Count(s.ring) && (k <= n || k == 0)
    ensures Leads(s, seq(k, _ => RLoad(p)), AfterLoads(s, p, n, k))
  {
    if k > 0 {
      Loads(s, p, n, k - 1);
      OneLoad(s, p, n, k - 1);
      var m := AfterLoads(s, p, n, k - 1);
      OneStep(m, RLoad(p));
      LeadsOn(s, seq(k - 1, _ => RLoad(p)), m, [RLoad(p)], AfterLoads(s, p, n, k));
      assert seq(k - 1, _ => RLoad(p)) + [RLoad(p)] == seq(k, _ => RLoad(p));
    } else {
      LoadedOne(s.ring, 0);
      assert AfterLoads(s, p, n, 0) == s;
    }
  }

  ghost function ReadSteps(p: nat, outcome: Outcome, k: nat): seq<Step> {
    match outcome
    case Done => [RGo(p)] + (seq(k, _ => RLoad(p)) + [RDone(p), Leave(p)])
    case Failed => [RQuit(p)]
    case Sleeps => [RSleep(p)]
  }

  /** The copying, the wakeup of the writers and the release. */
  lemma Copies(s: State, p: nat, n: int, k: nat) returns (r: State)
    requires InRead(s, p, RCheck(n)) && !(Empty(s.ring) && s.writeopen) && k <= Count(s.ring) && (k <= n || k == 0)
    requires k >= n || k == Count(s.ring)
    ensures Leads(s, ReadSteps(p, Done, k), r)
    ensures r.ring == Loaded(s.ring, k) && r.readopen == s.readopen && r.writeopen == s.writeopen
    ensures r.read == s.read + Buffered(s.ring)[..k] && |r.procs| == |s.procs| && r.procs[p] == Idle
  {
    var s1 := CopyStarts(s, p, n);
    hide Enabled, Apply, Count, Buffered;
    Loads(s1, p, n, k);
    var s2 := AfterLoads(s1, p, n, k);
    LoadsLeft(s.ring, k);
    FullMeans(s2.ring);
    r := CopyEnds(s2, p, n, k);
    hide Leads;
    LeadsOn(s1, seq(k, _ => RLoad(p)), s2, [RDone(p), Leave(p)], r);
    LeadsOn(s, [RGo(p)], s1, seq(k, _ => RLoad(p)) + [RDone(p), Leave(p)], r);
  }

  lemma CopyStarts(s: State, p: nat, n: int) returns (r: State)
    requires InRead(s, p, RCheck(n)) && !(Empty(s.ring) && s.writeopen)
    ensures Leads(s, [RGo(p)], r) && r == s.(procs := s.procs[p := RCopy(n, 0)]) && InRead(r, p, RCopy(n, 0))
  {
    OneStep(s, RGo(p));
    r := Apply(s, RGo(p));
  }

  lemma CopyEnds(s: State, p: nat, n: int, k: nat) returns (r: State)
    requires InRead(s, p, RCopy(n, k)) && (k >= n || Empty(s.ring))
    ensures Leads(s, [RDone(p), Leave(p)], r)
    ensures r.ring == s.ring && r.readopen == s.readopen && r.writeopen == s.writeopen && r.read == s.read
    ensures |r.procs| == |s.procs| && r.procs[p] == Idle
  {
    TwoSteps(s, RDone(p), Leave(p));
    r := Apply(Apply(s, RDone(p)), Leave(p));
  }

  lemma NoCopy(s: State, p: nat, n: int, outcome: Outcome) returns (r: State)
    requires InRead(s, p, RCheck(n)) && Empty(s.ring) && s.writeopen
    requires outcome == if s.killed[p] then Failed else Sleeps
    ensures Leads(s, ReadSteps(p, outcome, 0), r)
    ensures r.ring == s.ring && r.readopen == s.readopen && r.writeopen == s.writeopen && r.read == s.read
    ensures |r.procs| == |s.procs| && r.procs[p] == if outcome == Sleeps then RSleeping(n) else Idle
  {
    var t := if outcome == Sleeps then RSleep(p) else RQuit(p);
    OneStep(s, t);
    r := Apply(s, t);
  }

  /** A stretch of piperead, by process p that has just taken the lock. */
  method ReadIsSteps(pipe: Pipe, ghost s: State, ghost p: nat, n: int, killed: bool)
    returns (addr: seq<Byte>, outcome: Outcome, ghost ts: seq<Step>, ghost r: State)
    requires Shows(pipe, s) && InRead(s, p, RCheck(n)) && killed == s.killed[p]
    modifies pipe`nread
    ensures ts == ReadSteps(p, outcome, |addr|)
    ensures Leads(s, ts, r) && Shows(pipe, r) && r.read == s.read + addr
    ensures |r.procs| == |s.procs| && r.procs[p] == if outcome == Sleeps then RSleeping(n) else Idle
  {
    hide Leads, Enabled, Apply;
    FullMeans(s.ring);
    LoadedOne(s.ring, 0);
    var wakeup;
    addr, outcome, wakeup := pipe.Read(n, killed);
    if outcome == Done {
      FullMeans(pipe.Value());
      r := Copies(s, p, n, |addr|);
    } else {
      r := NoCopy(s, p, n, outcome);
    }
    ts := ReadSteps(p, outcome, |addr|);
  }
}
