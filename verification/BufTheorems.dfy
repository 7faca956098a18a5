/**
 The buffer cache refines a plain disk, on every interleaving.
 */
module BufTheorems {
  import opened BufProto
  import opened Options
  import opened BufSteps

  // ---- Runs ---------------------------------------------------------------------------------

  /** After binit: no real keys, no flags, no requests; the list holds every buffer. */
  ghost predicate Boot(s: State) {
    && LruInv(s) && s.queue == [] && s.cmd.None? && !s.done && s.log == s.disk
    && (forall b: nat :: b < |s.bufs| ==> s.bufs[b] == Buf(false, false, false, Key(-1, 0), s.bufs[b].data, None))
    && (forall p: nat :: p < |s.procs| ==> s.procs[p].Idle?)
  }

  lemma BootInv(s: State)
    requires Boot(s)
    ensures Inv(s)
  {
  }

  lemma StepKeepsInv(s: State, t: Step)
    requires Inv(s) && Enabled(s, t)
    ensures Inv(Do(s, t))
  {
    hide Inv;
    match t
    case Bread(p, k) => StepBread(s, p, k);
    case Scan(p) => StepScan(s, p);
    case CheckValid(p) => StepCheckValid(s, p);
    case Append(p) => StepAppend(s, p);
    case Check(p) => StepCheck(s, p);
    case Modify(p, d) => StepModify(s, p, d);
    case Bwrite(p) => StepBwrite(s, p);
    case Brelse(p) => StepBrelse(s, p);
    case Spurious(p) => StepSpurious(s, p);
    case DiskDone => StepDiskDone(s);
    case Intr => StepIntr(s);
  }

  ghost predicate Takes(a: State, b: State, st: Step) {
    Enabled(a, st) && b == Do(a, st)
  }

  /** A run: states and the steps between them. */
  ghost predicate Run(ss: seq<State>, ts: seq<Step>) {
    && |ss| == |ts| + 1 && Boot(ss[0])
    && forall i: nat :: i < |ts| ==> Takes(ss[i], ss[i + 1], ts[i])
  }

  lemma {:induction false} RunInv(ss: seq<State>, ts: seq<Step>, i: nat)
    requires Run(ss, ts) && i < |ss|
    ensures Inv(ss[i])
  {
    if i == 0 {
      BootInv(ss[0]);
    } else {
      RunInv(ss, ts, i - 1);
      assert Takes(ss[i - 1], ss[i - 1 + 1], ts[i - 1]);
      StepKeepsInv(ss[i - 1], ts[i - 1]);
    }
  }

  // ---- What the calls say ----------------------------------------------------------------------

  predicate BreadBy(t: Step, p: nat) {
    t.Bread? && t.p == p
  }

  /** The sector that p has asked for after one step more. */
  function AskedBy(t: Step, p: nat, asked: Option<Key>): Option<Key> {
    if BreadBy(t, p) then Some(t.k) else asked
  }

  /** What p has stored in its buffer since its last bread or bwrite, after one step more. */
  function StoredBy(t: Step, p: nat, stored: Option<Data>): Option<Data> {
    match t
    case Modify(q, d) => if q == p then Some(d) else stored
    case Bread(q, _) => if q == p then None else stored
    case Bwrite(q) => if q == p then None else stored
    case _ => stored
  }

  /** The sector of p's last bread among the first i steps. */
  function Asked(ts: seq<Step>, i: nat, p: nat): Option<Key>
    requires i <= |ts|
  {
    if i == 0 then None else AskedBy(ts[i - 1], p, Asked(ts, i - 1, p))
  }

  function Stored(ts: seq<Step>, i: nat, p: nat): Option<Data>
    requires i <= |ts|
  {
    if i == 0 then None else StoredBy(ts[i - 1], p, Stored(ts, i - 1, p))
  }

  /** The plain disk: d, and then each bwrite puts what its caller has stored where its caller's bread was. */
  function Plain(d: map<Key, Data>, ts: seq<Step>, i: nat): map<Key, Data>
    requires i <= |ts|
  {
    if i == 0 then d
    else
      var m := Plain(d, ts, i - 1);
      if !ts[i - 1].Bwrite? then m
      else
        match (Asked(ts, i - 1, ts[i - 1].p), Stored(ts, i - 1, ts[i - 1].p))
        case (Some(k), Some(x)) => m[k := x]
        case _ => m
  }

  lemma {:induction false} AskedIsLast(ts: seq<Step>, i: nat, p: nat, j: nat)
    requires j < i <= |ts| && BreadBy(ts[j], p) && forall h: nat :: j < h < i ==> !BreadBy(ts[h], p)
    ensures Asked(ts, i, p) == Some(ts[j].k)
  {
    if j < i - 1 {
      AskedIsLast(ts, i - 1, p, j);
    }
  }

  // ---- Refinement of a plain disk -------------------------------------------------------------

  /** Where p is in its call, and what its buffer holds, is what its steps so far say. */
  ghost predicate AsCalled(s: State, p: nat, asked: Option<Key>, stored: Option<Data>)
    requires p < |s.procs|
  {
    var pc := s.procs[p];
    && (!pc.Idle? ==> asked == Some(pc.k) && (pc.Using? && pc.modified <==> stored.Some?))
    && (pc.Using? && pc.modified ==> pc.b < |s.bufs| && Some(s.bufs[pc.b].data) == stored)
  }

  /** Somebody else's step leaves p's call alone, and the buffer that it uses. */
  ghost predicate CallLeft(s: State, r: State, p: nat)
    requires p < |s.procs| == |r.procs|
  {
    && r.procs[p].Idle? == s.procs[p].Idle? && (!s.procs[p].Idle? ==> r.procs[p].k == s.procs[p].k)
    && (r.procs[p].Using? <==> s.procs[p].Using?)
    && (s.procs[p].Using? ==>
         r.procs[p] == s.procs[p] && s.procs[p].b < |s.bufs| == |r.bufs|
         && r.bufs[s.procs[p].b].data == s.bufs[s.procs[p].b].data)
  }

  lemma ScanLeavesCall(s: State, q: nat, k: Key, p: nat)
    requires q < |s.procs| && p < |s.procs| && q != p && Indices(s.lru, |s.bufs|) && !NoBuffers(s, k)
    requires s.procs[p].Using? ==> s.procs[p].b < |s.bufs|
    ensures |DoScan(s, q, k).procs| == |s.procs| && CallLeft(s, DoScan(s, q, k), p)
  {
  }

  lemma AppendLeavesCall(s: State, q: nat, k: Key, b: nat, p: nat)
    requires q < |s.procs| && p < |s.procs| && q != p && b < |s.bufs| && Indices(s.queue, |s.bufs|)
    requires s.procs[p].Using? ==> s.procs[p].b < |s.bufs|
    ensures |DoAppend(s, q, k, b).procs| == |s.procs| && CallLeft(s, DoAppend(s, q, k, b), p)
  {
    hide StartHead;
  }

  lemma BrelseLeavesCall(s: State, q: nat, b: nat, p: nat)
    requires q < |s.procs| && p < |s.procs| && q != p && b < |s.bufs| && b in s.lru && |s.stamp| == |s.bufs|
    requires s.procs[p].Using? ==> s.procs[p].b < |s.bufs|
    ensures |DoBrelse(s, q, b).procs| == |s.procs| && CallLeft(s, DoBrelse(s, q, b), p)
  {
    hide ToFront, IndexOf;
  }

  lemma IntrLeavesCall(s: State, p: nat)
    requires p < |s.procs| && Indices(s.queue, |s.bufs|)
    requires s.procs[p].Using? ==> s.procs[p].b < |s.bufs| && s.procs[p].b !in s.queue
    ensures |DoIntr(s).procs| == |s.procs| && CallLeft(s, DoIntr(s), p)
  {
    hide StartHead, At;
  }

  lemma OthersLeaveCall(s: State, t: Step, p: nat)
    requires Inv(s) && Enabled(s, t) && p < |s.procs|
    requires t.DiskDone? || t.Intr? || t.p != p
    ensures |Do(s, t).procs| == |s.procs| && CallLeft(s, Do(s, t), p)
  {
    assert ProcInv(s, p);
    hide ProcInv, BufInv, LruInv, KeyInv, DiskInv, QueueInv, NoBuffers, At, DoScan, DoAppend, DoBrelse, DoIntr;
    match t
    case Scan(q) => ScanLeavesCall(s, q, s.procs[q].k, p);
      hide CallLeft;
    case Append(q) => AppendLeavesCall(s, q, s.procs[q].k, s.procs[q].b, p);
      hide CallLeft;
    case Brelse(q) => BrelseLeavesCall(s, q, s.procs[q].b, p);
      hide CallLeft;
    case Intr =>
      if s.procs[p].Using? {
        UsingIsNotQueued(s, p);
      }
      IntrLeavesCall(s, p);
      hide CallLeft;
    case DiskDone =>
    case _ =>
      OwnerIsOther(s, t.p, p);
  }

  lemma UsingIsNotQueued(s: State, p: nat)
    requires Inv(s) && p < |s.procs| && s.procs[p].Using?
    ensures s.procs[p].b < |s.bufs| && s.procs[p].b !in s.queue
  {
    assert ProcInv(s, p);
  }

  lemma OwnerIsOther(s: State, q: nat, p: nat)
    requires Inv(s) && p < |s.procs| && q < |s.procs| && p != q
    ensures Held(s.procs[p]).Some? && Held(s.procs[q]).Some? ==> s.procs[p].b != s.procs[q].b
    ensures Held(s.procs[p]).Some? ==> s.procs[p].b < |s.bufs|
  {
    assert ProcInv(s, p) && ProcInv(s, q);
  }

  lemma ScanAsCalled(s: State, p: nat, asked: Option<Key>, stored: Option<Data>)
    requires p < |s.procs| && s.procs[p].Want? && AsCalled(s, p, asked, stored)
    requires Indices(s.lru, |s.bufs|) && !NoBuffers(s, s.procs[p].k)
    ensures |DoScan(s, p, s.procs[p].k).procs| == |s.procs|
    ensures AsCalled(DoScan(s, p, s.procs[p].k), p, asked, stored)
  {
  }

  lemma BrelseAsCalled(s: State, p: nat, b: nat, asked: Option<Key>, stored: Option<Data>)
    requires p < |s.procs| && b < |s.bufs| && b in s.lru && |s.stamp| == |s.bufs|
    ensures |DoBrelse(s, p, b).procs| == |s.procs| && AsCalled(DoBrelse(s, p, b), p, asked, stored)
  {
    hide ToFront, IndexOf;
  }

  /** A step of p itself. */
  lemma OwnStepCalls(s: State, t: Step, p: nat, asked: Option<Key>, stored: Option<Data>)
    requires Inv(s) && Enabled(s, t) && p < |s.procs| && AsCalled(s, p, asked, stored)
    requires !t.DiskDone? && !t.Intr? && t.p == p
    ensures |Do(s, t).procs| == |s.procs|
    ensures AsCalled(Do(s, t), p, AskedBy(t, p, asked), StoredBy(t, p, stored))
  {
    hide ProcInv, BufInv, LruInv, KeyInv, DiskInv, QueueInv, NoBuffers, At, DoScan, DoBrelse;
    match t
    case Scan(_) => ScanAsCalled(s, p, asked, stored);
      hide AsCalled;
    case Brelse(_) => BrelseAsCalled(s, p, s.procs[p].b, asked, stored);
      hide AsCalled;
    case Append(_) => hide StartHead;
    case _ =>
  }

  lemma StepCalls(s: State, t: Step, p: nat, asked: Option<Key>, stored: Option<Data>)
    requires Inv(s) && Enabled(s, t) && p < |s.procs| && AsCalled(s, p, asked, stored)
    ensures |Do(s, t).procs| == |s.procs|
    ensures AsCalled(Do(s, t), p, AskedBy(t, p, asked), StoredBy(t, p, stored))
  {
    hide Inv, Enabled, Do;
    if t.DiskDone? || t.Intr? || t.p != p {
      OthersLeaveCall(s, t, p);
    } else {
      OwnStepCalls(s, t, p, asked, stored);
    }
  }

  lemma {:induction false} RunCalls(ss: seq<State>, ts: seq<Step>, i: nat, p: nat)
    requires Run(ss, ts) && i <= |ts| && p < |ss[i].procs|
    ensures AsCalled(ss[i], p, Asked(ts, i, p), Stored(ts, i, p))
  {
    hide Inv, Enabled, Do, AsCalled;
    if i == 0 {
      BootCalls(ss[0], p);
    } else {
      assert Takes(ss[i - 1], ss[i - 1 + 1], ts[i - 1]);
      RunInv(ss, ts, i - 1);
      SameProcs(ss[i - 1], ts[i - 1]);
      RunCalls(ss, ts, i - 1, p);
      StepCalls(ss[i - 1], ts[i - 1], p, Asked(ts, i - 1, p), Stored(ts, i - 1, p));
    }
  }

  lemma BootCalls(s: State, p: nat)
    requires Boot(s) && p < |s.procs|
    ensures AsCalled(s, p, None, None)
  {
  }

  lemma SameProcs(s: State, t: Step)
    requires Enabled(s, t)
    ensures |Do(s, t).procs| == |s.procs|
  {
    hide NoBuffers, At;
  }

  /** Only bwrite changes the record of last writes: there is what the caller has stored, where its bread was. */
  lemma StepLog(s: State, t: Step, asked: Option<Key>, stored: Option<Data>)
    requires Inv(s) && Enabled(s, t) && (t.Bwrite? ==> AsCalled(s, t.p, asked, stored))
    ensures forall k: Key :: At(Do(s, t).log, k) ==
              if t.Bwrite? && asked == Some(k) && stored.Some? then stored.value else At(s.log, k)
  {
    if t.Bwrite? {
      assert ProcInv(s, t.p) && BufInv(s, s.procs[t.p].b);
      BwriteLogs(s, t.p);
    } else {
      OthersLogNothing(s, t);
    }
  }

  lemma BwriteLogs(s: State, p: nat)
    requires Enabled(s, Bwrite(p))
    ensures Do(s, Bwrite(p)).log == s.log[s.bufs[s.procs[p].b].key := s.bufs[s.procs[p].b].data]
  {
  }

  lemma OthersLogNothing(s: State, t: Step)
    requires Enabled(s, t) && !t.Bwrite?
    ensures Do(s, t).log == s.log
  {
    hide DoScan, DoAppend, DoBrelse, DoIntr, NoBuffers, At;
    match t
    case Scan(p) => ScanLogsNothing(s, p, s.procs[p].k);
    case Append(p) => AppendLogsNothing(s, p, s.procs[p].k, s.procs[p].b);
    case Brelse(p) => BrelseLogsNothing(s, p, s.procs[p].b);
    case Intr => IntrLogsNothing(s);
    case _ =>
  }

  lemma ScanLogsNothing(s: State, p: nat, k: Key)
    requires p < |s.procs| && Indices(s.lru, |s.bufs|) && !NoBuffers(s, k)
    ensures DoScan(s, p, k).log == s.log
  {
  }

  lemma AppendLogsNothing(s: State, p: nat, k: Key, b: nat)
    requires p < |s.procs| && b < |s.bufs| && Indices(s.queue, |s.bufs|)
    ensures DoAppend(s, p, k, b).log == s.log
  {
  }

  lemma BrelseLogsNothing(s: State, p: nat, b: nat)
    requires p < |s.procs| && b < |s.bufs| && b in s.lru && |s.stamp| == |s.bufs|
    ensures DoBrelse(s, p, b).log == s.log
  {
  }

  lemma IntrLogsNothing(s: State)
    requires Indices(s.queue, |s.bufs|)
    ensures DoIntr(s).log == s.log
  {
  }

  /** The record of last writes is the plain disk that the calls describe. */
  lemma {:induction false} LogIsPlain(ss: seq<State>, ts: seq<Step>, i: nat)
    requires Run(ss, ts) && i <= |ts|
    ensures forall k: Key :: At(ss[i].log, k) == At(Plain(ss[0].disk, ts, i), k)
  {
    hide Inv, Enabled, Do, AsCalled;
    if i == 0 {
      BootLog(ss[0]);
    } else {
      LogIsPlain(ss, ts, i - 1);
      RunInv(ss, ts, i - 1);
      assert Takes(ss[i - 1], ss[i - 1 + 1], ts[i - 1]);
      var t := ts[i - 1];
      if t.Bwrite? {
        BwriteInRange(ss[i - 1], t.p);
        RunCalls(ss, ts, i - 1, t.p);
        StepLog(ss[i - 1], t, Asked(ts, i - 1, t.p), Stored(ts, i - 1, t.p));
      } else {
        OthersLogNothing(ss[i - 1], t);
      }
    }
  }

  lemma BwriteInRange(s: State, p: nat)
    requires Enabled(s, Bwrite(p))
    ensures p < |s.procs|
  {
  }

  lemma BootLog(s: State)
    requires Boot(s)
    ensures s.log == s.disk
  {
  }

  /**
   A process using a buffer has the sector that it called bread with. The data is what it has stored there
   since, or else the contents of that sector's last bwrite, by whatever process.
   */
  lemma BreadReturnsLastWrite(ss: seq<State>, ts: seq<Step>, i: nat, p: nat)
    requires Run(ss, ts) && i <= |ts| && p < |ss[i].procs| && ss[i].procs[p].Using?
    ensures ss[i].procs[p].b < |ss[i].bufs| && Asked(ts, i, p) == Some(ss[i].bufs[ss[i].procs[p].b].key)
    ensures var u := ss[i].bufs[ss[i].procs[p].b];
            u.data == if Stored(ts, i, p).Some? then Stored(ts, i, p).value else At(Plain(ss[0].disk, ts, i), u.key)
    ensures forall j: nat :: j < i && BreadBy(ts[j], p) && (forall h: nat :: j < h < i ==> !BreadBy(ts[h], p)) ==>
              ss[i].bufs[ss[i].procs[p].b].key == ts[j].k
  {
    RunInv(ss, ts, i);
    LogIsPlain(ss, ts, i);
    RunCalls(ss, ts, i, p);
    assert ProcInv(ss[i], p);
    assert BufInv(ss[i], ss[i].procs[p].b);
    hide Run, Inv, BufInv, ProcInv;
    forall j: nat | j < i && BreadBy(ts[j], p) && (forall h: nat :: j < h < i ==> !BreadBy(ts[h], p))
      ensures ss[i].bufs[ss[i].procs[p].b].key == ts[j].k
    {
      AskedIsLast(ts, i, p, j);
    }
  }

  /** bwrite puts on the plain disk what its caller has stored, in the sector of its caller's bread. */
  lemma BwriteWritesCallersSector(ss: seq<State>, ts: seq<Step>, i: nat, p: nat)
    requires Run(ss, ts) && i < |ts| && ts[i] == Bwrite(p)
    ensures p < |ss[i].procs| && ss[i].procs[p].Using? && ss[i].procs[p].b < |ss[i].bufs|
    ensures Asked(ts, i, p) == Some(ss[i].bufs[ss[i].procs[p].b].key)
    ensures forall k: Key :: At(Plain(ss[0].disk, ts, i + 1), k) ==
              if Asked(ts, i, p) == Some(k) then ss[i].bufs[ss[i].procs[p].b].data
              else At(Plain(ss[0].disk, ts, i), k)
  {
    assert Takes(ss[i], ss[i + 1], ts[i]);
    BreadReturnsLastWrite(ss, ts, i, p);
  }

  /** The real disk differs from the plain one only at sectors whose buffer is still dirty. */
  lemma DiskIsPlainUnlessDirty(ss: seq<State>, ts: seq<Step>, i: nat, k: Key)
    requires Run(ss, ts) && i <= |ts| && k.Real()
    requires forall b: nat :: b < |ss[i].bufs| && ss[i].bufs[b].key == k ==> !ss[i].bufs[b].dirty
    ensures At(ss[i].disk, k) == At(Plain(ss[0].disk, ts, i), k)
  {
    RunInv(ss, ts, i);
    LogIsPlain(ss, ts, i);
  }

  /** When every process is done with its buffers, nothing is left to write. */
  lemma QuietDiskIsPlain(ss: seq<State>, ts: seq<Step>, i: nat, k: Key)
    requires Run(ss, ts) && i <= |ts| && k.Real()
    requires forall p: nat :: p < |ss[i].procs| ==> Held(ss[i].procs[p]).None?
    ensures At(ss[i].disk, k) == At(Plain(ss[0].disk, ts, i), k)
  {
    RunInv(ss, ts, i);
    forall b: nat | b < |ss[i].bufs|
      ensures !ss[i].bufs[b].dirty
    {
      assert BufInv(ss[i], b);
    }
    DiskIsPlainUnlessDirty(ss, ts, i, k);
  }

  // ---- Cache safety ------------------------------------------------------------------------------

  /** At most one buffer per real sector, at most one process per buffer, and only held buffers are dirty. */
  lemma CacheSafety(ss: seq<State>, ts: seq<Step>, i: nat, b: nat, c: nat)
    requires Run(ss, ts) && i <= |ts| && b < |ss[i].bufs| && c < |ss[i].bufs|
    ensures b != c && ss[i].bufs[b].key.Real() ==> ss[i].bufs[b].key != ss[i].bufs[c].key
    ensures !ss[i].bufs[b].busy ==>
              !ss[i].bufs[b].dirty && (forall p: nat :: p < |ss[i].procs| ==> Held(ss[i].procs[p]) != Some(b))
    ensures forall p: nat, q: nat ::
              p < |ss[i].procs| && q < |ss[i].procs| && Held(ss[i].procs[p]) == Held(ss[i].procs[q]) == Some(b) ==>
                p == q
  {
    RunInv(ss, ts, i);
    assert BufInv(ss[i], b);
    forall p: nat | p < |ss[i].procs| && Held(ss[i].procs[p]) == Some(b)
      ensures ss[i].bufs[b].owner == Some(p)
    {
      assert ProcInv(ss[i], p);
    }
  }

  /** No lost wakeups: a sleeper in iderw has its buffer queued, a sleeper in bget has its buffer busy. */
  lemma SleepersWillBeWoken(ss: seq<State>, ts: seq<Step>, i: nat, p: nat)
    requires Run(ss, ts) && i <= |ts| && p < |ss[i].procs|
    ensures ss[i].procs[p].Sleep? ==> ss[i].procs[p].b in ss[i].queue && ss[i].cmd.Some?
    ensures ss[i].procs[p].Asleep? ==> ss[i].procs[p].b < |ss[i].bufs| && ss[i].bufs[ss[i].procs[p].b].busy
  {
    RunInv(ss, ts, i);
    assert ProcInv(ss[i], p);
  }

  /** iderw's panics are unreachable: what it is given is busy, and is dirty or not valid. */
  lemma IderwHasWork(ss: seq<State>, ts: seq<Step>, i: nat, p: nat)
    requires Run(ss, ts) && i <= |ts| && p < |ss[i].procs| && ss[i].procs[p].Queue?
    ensures ss[i].procs[p].b < |ss[i].bufs|
    ensures var u := ss[i].bufs[ss[i].procs[p].b]; u.busy && !(u.valid && !u.dirty)
  {
    RunInv(ss, ts, i);
    assert ProcInv(ss[i], p);
    assert BufInv(ss[i], ss[i].procs[p].b);
  }

  // ---- The list is in last-release order ------------------------------------------------------------

  /** The step is a brelse of buffer b. */
  predicate ReleaseOf(s: State, t: Step, b: nat) {
    t.Brelse? && t.p < |s.procs| && Held(s.procs[t.p]) == Some(b)
  }

  /** The last of the first i steps that released buffer b; -1 if none did. */
  function Released(ss: seq<State>, ts: seq<Step>, i: nat, b: nat): (j: int)
    requires i <= |ts| < |ss|
    ensures -1 <= j < i && (j >= 0 ==> ReleaseOf(ss[j], ts[j], b))
    ensures forall h: nat :: j < h < i ==> !ReleaseOf(ss[h], ts[h], b)
  {
    if i == 0 then -1 else if ReleaseOf(ss[i - 1], ts[i - 1], b) then i - 1 else Released(ss, ts, i - 1, b)
  }

  lemma ScanKeepsStamps(s: State, p: nat, k: Key)
    requires p < |s.procs| && Indices(s.lru, |s.bufs|) && !NoBuffers(s, k)
    ensures |DoScan(s, p, k).bufs| == |s.bufs| && DoScan(s, p, k).stamp == s.stamp
  {
  }

  lemma ReleaseStamps(s: State, t: Step)
    requires Inv(s) && Enabled(s, t)
    ensures |Do(s, t).bufs| == |s.bufs| == |s.stamp| == |Do(s, t).stamp|
    ensures forall b: nat :: b < |s.bufs| ==> Do(s, t).stamp[b] == if ReleaseOf(s, t, b) then s.clock else s.stamp[b]
  {
    hide KeyInv, DiskInv, QueueInv, BufInv, ProcInv, NoBuffers, At, StartHead, WakeAll, ToFront, IndexOf;
    match t
    case Scan(p) => ScanKeepsStamps(s, p, s.procs[p].k);
      hide DoScan;
    case Brelse(p) => assert Do(s, t) == DoBrelse(s, p, s.procs[p].b) && Held(s.procs[p]) == Some(s.procs[p].b);
    case Intr => assert Do(s, t) == DoIntr(s);
    case _ =>
  }

  lemma StampsBelow(s: State)
    requires Inv(s)
    ensures |s.stamp| == |s.bufs| && forall b: nat :: b < |s.bufs| ==> s.stamp[b] < s.clock
  {
  }

  /** Stamps are in the order of the last releases. */
  lemma {:induction false} StampsAreReleases(ss: seq<State>, ts: seq<Step>, i: nat, b: nat, c: nat)
    requires Run(ss, ts) && i <= |ts| && b < |ss[i].bufs| && c < |ss[i].bufs|
    requires Released(ss, ts, i, b) > Released(ss, ts, i, c)
    ensures |ss[i].stamp| == |ss[i].bufs| && ss[i].stamp[b] > ss[i].stamp[c]
  {
    hide Inv, Enabled, Do;
    assert i > 0;
    assert Takes(ss[i - 1], ss[i - 1 + 1], ts[i - 1]);
    RunInv(ss, ts, i - 1);
    ReleaseStamps(ss[i - 1], ts[i - 1]);
    StampsBelow(ss[i - 1]);
    if !ReleaseOf(ss[i - 1], ts[i - 1], b) {
      StampsAreReleases(ss, ts, i - 1, b, c);
    }
  }

  /** The list is a permutation of all buffers, each one released later than those after it. */
  lemma ListIsReleaseOrder(ss: seq<State>, ts: seq<Step>, i: nat)
    requires Run(ss, ts) && i <= |ts|
    ensures |ss[i].lru| == |ss[i].bufs| == |ss[i].stamp| && Indices(ss[i].lru, |ss[i].bufs|)
    ensures forall b: nat :: b < |ss[i].bufs| ==> b in ss[i].lru
    ensures forall j: nat, k: nat :: j < k < |ss[i].lru| ==>
              ss[i].lru[j] != ss[i].lru[k] && ss[i].stamp[ss[i].lru[j]] > ss[i].stamp[ss[i].lru[k]]
    ensures forall j: nat, k: nat :: j < k < |ss[i].lru| ==>
              Released(ss, ts, i, ss[i].lru[j]) > Released(ss, ts, i, ss[i].lru[k])
              || Released(ss, ts, i, ss[i].lru[j]) == Released(ss, ts, i, ss[i].lru[k]) == -1
  {
    RunInv(ss, ts, i);
    hide KeyInv, DiskInv, QueueInv, BufInv, ProcInv, Run;
    forall j: nat, k: nat | j < k < |ss[i].lru|
      ensures Released(ss, ts, i, ss[i].lru[j]) > Released(ss, ts, i, ss[i].lru[k])
              || Released(ss, ts, i, ss[i].lru[j]) == Released(ss, ts, i, ss[i].lru[k]) == -1
    {
      ReleasedInOrder(ss, ts, i, ss[i].lru[j], ss[i].lru[k]);
    }
  }

  lemma ReleasedInOrder(ss: seq<State>, ts: seq<Step>, i: nat, b: nat, c: nat)
    requires Run(ss, ts) && i <= |ts| && b < |ss[i].bufs| == |ss[i].stamp| && c < |ss[i].bufs| && b != c
    requires ss[i].stamp[b] > ss[i].stamp[c]
    ensures Released(ss, ts, i, b) > Released(ss, ts, i, c) || Released(ss, ts, i, b) == Released(ss, ts, i, c) == -1
  {
    assert |ss| == |ts| + 1;
    hide Run;
    if Released(ss, ts, i, c) > Released(ss, ts, i, b) {
      StampsAreReleases(ss, ts, i, c, b);
    }
  }

  /** A miss recycles the buffer that was released longest ago among those not busy. */
  lemma MissRecyclesLeastRecent(ss: seq<State>, ts: seq<Step>, i: nat, p: nat, b: nat)
    requires Run(ss, ts) && i <= |ts| && Enabled(ss[i], Scan(p)) && b < |ss[i].bufs|
    requires |Do(ss[i], Scan(p)).bufs| == |ss[i].bufs| && Do(ss[i], Scan(p)).bufs[b].key != ss[i].bufs[b].key
    ensures !ss[i].bufs[b].busy && !ss[i].bufs[b].dirty
    ensures |ss[i].stamp| == |ss[i].bufs|
    ensures forall c: nat :: c < |ss[i].bufs| && !ss[i].bufs[c].busy ==>
              ss[i].stamp[b] <= ss[i].stamp[c] && Released(ss, ts, i, b) <= Released(ss, ts, i, c)
  {
    RunInv(ss, ts, i);
    MissState(ss[i], p, b);
    StampsBelow(ss[i]);
    hide Inv, Enabled, Do, Run;
    forall c: nat | c < |ss[i].bufs| && !ss[i].bufs[c].busy
      ensures Released(ss, ts, i, b) <= Released(ss, ts, i, c)
    {
      if Released(ss, ts, i, b) > Released(ss, ts, i, c) {
        StampsAreReleases(ss, ts, i, b, c);
      }
    }
  }

  lemma MissState(s: State, p: nat, b: nat)
    requires Inv(s) && Enabled(s, Scan(p)) && b < |s.bufs| && |Do(s, Scan(p)).bufs| == |s.bufs|
    requires Do(s, Scan(p)).bufs[b].key != s.bufs[b].key
    ensures !s.bufs[b].busy && !s.bufs[b].dirty
    ensures forall c: nat :: c < |s.bufs| && !s.bufs[c].busy ==> s.stamp[b] <= s.stamp[c]
  {
    var j := FindFree(s.bufs, s.lru, |s.lru|);
    assert BufInv(s, b);
    hide BufInv, ProcInv, QueueInv, DiskInv, KeyInv;
    assert Do(s, Scan(p)) == DoScan(s, p, s.procs[p].k);
    assert j >= 0 && b == s.lru[j];
    LeastRecent(s, j);
  }

  lemma LeastRecent(s: State, j: nat)
    requires LruInv(s) && j < |s.lru| && j == FindFree(s.bufs, s.lru, |s.lru|)
    ensures forall c: nat :: c < |s.bufs| && !s.bufs[c].busy ==> s.stamp[s.lru[j]] <= s.stamp[c]
  {
    forall c: nat | c < |s.bufs| && !s.bufs[c].busy
      ensures s.stamp[s.lru[j]] <= s.stamp[c]
    {
      assert c in s.lru;
      var k: nat :| k < |s.lru| && s.lru[k] == c;
    }
  }
}
