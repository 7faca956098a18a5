/**
 bio.c and ide.c as a step protocol: processes call bread, bwrite and brelse,
 the disk finishes commands and the interrupt handler runs, in any order.  A
 step is what happens under one hold of bcache.lock or idelock, or one action
 of a buffer's owner or of the device.

 A process here is one use of a buffer, from bread to brelse.  A process of the
 system that holds several buffers at once, as bmap does with the indirect
 block while balloc reads the bitmap, is several of them, one per buffer, whose
 steps it takes in some order.  There may be any number, and every interleaving
 is a run, so its runs are among those of the model: all theorems about runs
 hold for it.
 */
module BufProto {
  import opened Options

  type Data = seq<int>

  /** (dev, sector); binit sets dev to -1, which no caller asks for. */
  datatype Key = Key(dev: int, sector: nat) {
    predicate Real() { dev >= 0 }
  }

  /** struct buf: B_BUSY, B_VALID, B_DIRTY, and which process got it from bget. */
  datatype Buf = Buf(busy: bool, valid: bool, dirty: bool, key: Key, data: Data, owner: Option<nat>)

  /** Where a process is; b is a buffer's index. */
  datatype Pc =
    | Idle
    | Want(k: Key)                            // in bget, about to scan
    | Asleep(k: Key, b: nat)                  // asleep in bget on b
    | Got(k: Key, b: nat)                     // bget returned b to bread
    | Queue(k: Key, b: nat)                   // in iderw, about to append b
    | Wait(k: Key, b: nat)                    // in iderw's wait loop, awake
    | Sleep(k: Key, b: nat)                   // asleep in iderw on b
    | Using(k: Key, b: nat, modified: bool)   // holds b between bread and brelse

  /** The command the disk is executing: for a write, the data already transferred. */
  datatype Cmd = Cmd(key: Key, write: bool, data: Data)

  /**
   `log` is the plain disk the cache stands for: the data of each sector's last
   bwrite.  `stamp` is when each buffer was last released.
   */
  datatype State = State(
    bufs: seq<Buf>, lru: seq<nat>, procs: seq<Pc>, queue: seq<nat>, cmd: Option<Cmd>, done: bool,
    disk: map<Key, Data>, log: map<Key, Data>, stamp: seq<int>, clock: int)

  function At(m: map<Key, Data>, k: Key): Data {
    if k in m then m[k] else []
  }

  /** Every entry of a list is a buffer's index. */
  predicate Indices(l: seq<nat>, n: nat) {
    forall i: nat :: i < |l| ==> l[i] < n
  }

  // ---- List scans of bget -----------------------------------------------------------

  /** First position at or after i in list order whose buffer has key k; |lru| if none. */
  function FindKey(bufs: seq<Buf>, lru: seq<nat>, k: Key, i: nat): (j: nat)
    requires i <= |lru| && Indices(lru, |bufs|)
    ensures i <= j <= |lru| && (j < |lru| ==> bufs[lru[j]].key == k)
    ensures forall q: nat :: i <= q < j ==> bufs[lru[q]].key != k
    decreases |lru| - i
  {
    if i == |lru| || bufs[lru[i]].key == k then i else FindKey(bufs, lru, k, i + 1)
  }

  /** Last position before i in list order whose buffer is not busy; -1 if none. */
  function FindFree(bufs: seq<Buf>, lru: seq<nat>, i: nat): (j: int)
    requires i <= |lru| && Indices(lru, |bufs|)
    ensures -1 <= j < i && (j >= 0 ==> !bufs[lru[j]].busy)
    ensures forall q: nat :: j < q < i ==> bufs[lru[q]].busy
  {
    if i == 0 then -1 else if !bufs[lru[i - 1]].busy then i - 1 else FindFree(bufs, lru, i - 1)
  }

  /** brelse's relinking: the buffer at position i moves to the front. */
  function ToFront(lru: seq<nat>, i: nat): (r: seq<nat>)
    requires i < |lru|
    ensures |r| == |lru| && r[0] == lru[i]
    ensures forall q: nat :: q < |lru| ==> r[q] == (if q == 0 then lru[i] else if q <= i then lru[q - 1] else lru[q])
  {
    [lru[i]] + lru[..i] + lru[i + 1..]
  }

  function IndexOf(lru: seq<nat>, b: nat): (i: nat)
    requires b in lru
    ensures i < |lru| && lru[i] == b
  {
    if lru[0] == b then 0 else 1 + IndexOf(lru[1..], b)
  }

  /** wakeup(b): bget's sleepers rescan, iderw's sleepers recheck. */
  function Woken(p: Pc, b: nat): Pc {
    if p.Asleep? && p.b == b then Want(p.k)
    else if p.Sleep? && p.b == b then Wait(p.k, p.b)
    else p
  }

  function WakeAll(ps: seq<Pc>, b: nat): (r: seq<Pc>)
    ensures |r| == |ps| && forall i: nat :: i < |ps| ==> r[i] == Woken(ps[i], b)
  {
    seq(|ps|, i requires 0 <= i < |ps| => Woken(ps[i], b))
  }

  // ---- Steps ------------------------------------------------------------------------------

  datatype Step =
    | Bread(p: nat, k: Key)        // call bread
    | Scan(p: nat)                 // one pass of bget under bcache.lock
    | CheckValid(p: nat)           // bread looks at B_VALID
    | Append(p: nat)               // iderw appends to idequeue, starts an idle disk
    | Check(p: nat)                // iderw's while test
    | Modify(p: nat, d: Data)      // the owner changes b->data
    | Bwrite(p: nat)               // bwrite sets B_DIRTY and calls iderw
    | Brelse(p: nat)
    | Spurious(p: nat)             // kill wakes a sleeper
    | DiskDone                     // the device finishes its command
    | Intr                         // ideintr

  /** idestart: hand the head of the queue to the device. */
  function StartHead(bufs: seq<Buf>, queue: seq<nat>): Option<Cmd>
    requires Indices(queue, |bufs|)
  {
    if queue == [] then None else
      var b := bufs[queue[0]];
      Some(Cmd(b.key, b.dirty, if b.dirty then b.data else []))
  }

  ghost predicate WellIndexed(s: State) {
    && |s.stamp| == |s.bufs|
    && Indices(s.lru, |s.bufs|)
    && Indices(s.queue, |s.bufs|)
    && (forall p: nat :: p < |s.procs| ==> PcIndexed(s, s.procs[p]))
  }

  predicate PcIndexed(s: State, pc: Pc) {
    pc.Idle? || pc.Want? || pc.b < |s.bufs|
  }

  ghost predicate Enabled(s: State, t: Step) {
    && WellIndexed(s)
    && match t
       case Bread(p, k) => p < |s.procs| && s.procs[p].Idle? && k.Real()
       case Scan(p) => p < |s.procs| && s.procs[p].Want? && !NoBuffers(s, s.procs[p].k)
       case CheckValid(p) => p < |s.procs| && s.procs[p].Got?
       case Append(p) => p < |s.procs| && s.procs[p].Queue?
       case Check(p) => p < |s.procs| && s.procs[p].Wait?
       case Modify(p, d) => p < |s.procs| && s.procs[p].Using?
       case Bwrite(p) => p < |s.procs| && s.procs[p].Using?
       case Brelse(p) => p < |s.procs| && s.procs[p].Using? && !s.procs[p].modified && s.procs[p].b in s.lru
       case Spurious(p) => p < |s.procs| && (s.procs[p].Asleep? || s.procs[p].Sleep?)
       case DiskDone => s.cmd.Some? && !s.done
       case Intr => s.queue == [] || s.done
  }

  /** bget's panic "no buffers". */
  predicate NoBuffers(s: State, k: Key)
    requires Indices(s.lru, |s.bufs|)
  {
    FindKey(s.bufs, s.lru, k, 0) == |s.lru| && FindFree(s.bufs, s.lru, |s.lru|) < 0
  }

  function PutProc(s: State, p: nat, pc: Pc): State
    requires p < |s.procs|
  {
    s.(procs := s.procs[p := pc])
  }

  function PutBuf(s: State, b: nat, x: Buf): State
    requires b < |s.bufs|
  {
    s.(bufs := s.bufs[b := x])
  }

  function DoScan(s: State, p: nat, k: Key): State
    requires p < |s.procs| && Indices(s.lru, |s.bufs|) && !NoBuffers(s, k)
  {
    var i := FindKey(s.bufs, s.lru, k, 0);
    if i < |s.lru| then
      var b := s.lru[i];
      if s.bufs[b].busy then PutProc(s, p, Asleep(k, b))
      else PutProc(PutBuf(s, b, s.bufs[b].(busy := true, owner := Some(p))), p, Got(k, b))
    else
      var b := s.lru[FindFree(s.bufs, s.lru, |s.lru|)];
      PutProc(PutBuf(s, b, Buf(true, false, false, k, s.bufs[b].data, Some(p))), p, Got(k, b))
  }

  function DoAppend(s: State, p: nat, k: Key, b: nat): State
    requires p < |s.procs| && b < |s.bufs| && Indices(s.queue, |s.bufs|)
  {
    var q := s.queue + [b];
    PutProc(s.(queue := q, cmd := if s.queue == [] then StartHead(s.bufs, q) else s.cmd), p, Wait(k, b))
  }

  function DoBrelse(s: State, p: nat, b: nat): State
    requires p < |s.procs| && b < |s.bufs| && b in s.lru && |s.stamp| == |s.bufs|
  {
    s.(bufs := s.bufs[b := s.bufs[b].(busy := false, owner := None)],
       lru := ToFront(s.lru, IndexOf(s.lru, b)),
       procs := WakeAll(s.procs[p := Idle], b),
       stamp := s.stamp[b := s.clock], clock := s.clock + 1)
  }

  function DoIntr(s: State): State
    requires Indices(s.queue, |s.bufs|)
  {
    if s.queue == [] then s else
      var b := s.queue[0];
      var u := s.bufs[b];
      var v := u.(data := if u.dirty then u.data else At(s.disk, u.key), valid := true, dirty := false);
      var bufs := s.bufs[b := v];
      s.(bufs := bufs, queue := s.queue[1..], procs := WakeAll(s.procs, b), cmd := StartHead(bufs, s.queue[1..]),
          done := false)
  }

  function Do(s: State, t: Step): State
    requires Enabled(s, t)
  {
    match t
    case Bread(p, k) => PutProc(s, p, Want(k))
    case Scan(p) => DoScan(s, p, s.procs[p].k)
    case CheckValid(p) =>
      var pc := s.procs[p];
      PutProc(s, p, if s.bufs[pc.b].valid then Using(pc.k, pc.b, false) else Queue(pc.k, pc.b))
    case Append(p) => DoAppend(s, p, s.procs[p].k, s.procs[p].b)
    case Check(p) =>
      var pc := s.procs[p];
      PutProc(s, p, if s.bufs[pc.b].valid && !s.bufs[pc.b].dirty then Using(pc.k, pc.b, false) else Sleep(pc.k, pc.b))
    case Modify(p, d) =>
      var pc := s.procs[p];
      PutProc(PutBuf(s, pc.b, s.bufs[pc.b].(data := d)), p, Using(pc.k, pc.b, true))
    case Bwrite(p) =>
      var pc := s.procs[p];
      PutProc(PutBuf(s, pc.b, s.bufs[pc.b].(dirty := true)).(log := s.log[s.bufs[pc.b].key := s.bufs[pc.b].data]), p,
          Queue(pc.k, pc.b))
    case Brelse(p) => DoBrelse(s, p, s.procs[p].b)
    case Spurious(p) => PutProc(s, p, Woken(s.procs[p], s.procs[p].b))
    case DiskDone => s.(done := true,
        disk := if s.cmd.value.write then s.disk[s.cmd.value.key := s.cmd.value.data] else s.disk)
    case Intr => DoIntr(s)
  }

  // ---- The invariant ---------------------------------------------------------------------------

  /** The buffer a process got from bget and has not released. */
  function Held(pc: Pc): Option<nat> {
    if pc.Got? || pc.Queue? || pc.Wait? || pc.Sleep? || pc.Using? then Some(pc.b) else None
  }

  /** The buffer list: all buffers once, most recently released first. */
  ghost predicate LruInv(s: State) {
    && |s.lru| == |s.bufs| == |s.stamp|
    && Indices(s.lru, |s.bufs|)
    && (forall i: nat, j: nat :: i < j < |s.lru| ==> s.stamp[s.lru[i]] > s.stamp[s.lru[j]])
    && (forall b: nat :: b < |s.bufs| ==> b in s.lru && s.stamp[b] < s.clock)
  }

  /** At most one buffer per real sector. */
  ghost predicate KeyInv(s: State) {
    forall b: nat, c: nat :: b < |s.bufs| && c < |s.bufs| && s.bufs[b].key.Real() && s.bufs[b].key == s.bufs[c].key ==>
      b == c
  }

  ghost predicate BufInv(s: State, b: nat)
    requires b < |s.bufs|
  {
    var u := s.bufs[b];
    && (u.busy <==> u.owner.Some?)
    && (u.owner.Some? ==> u.owner.value < |s.procs| && Held(s.procs[u.owner.value]) == Some(b))
    && (u.dirty ==>
         u.valid && u.busy && u.data == At(s.log, u.key) && !s.procs[u.owner.value].Using?
         && !s.procs[u.owner.value].Got?)
    && (u.valid ==> u.key.Real())
    && (u.valid && !(u.owner.Some? && s.procs[u.owner.value].Using? && s.procs[u.owner.value].modified) ==>
         u.data == At(s.log, u.key))
    && (b in s.queue ==>
         u.busy && (s.procs[u.owner.value].Wait? || s.procs[u.owner.value].Sleep?) && (u.dirty || !u.valid))
  }

  ghost predicate ProcInv(s: State, p: nat)
    requires p < |s.procs|
  {
    var pc := s.procs[p];
    && (pc.Want? ==> pc.k.Real())
    && (pc.Asleep? ==> pc.k.Real() && pc.b < |s.bufs| && s.bufs[pc.b].busy && s.bufs[pc.b].key == pc.k)
    && (Held(pc).Some? ==> pc.b < |s.bufs| && s.bufs[pc.b].owner == Some(p) && s.bufs[pc.b].key == pc.k && pc.k.Real())
    && (pc.Got? ==> !s.bufs[pc.b].dirty && pc.b !in s.queue)
    && (pc.Queue? ==> pc.b !in s.queue && (s.bufs[pc.b].dirty || !s.bufs[pc.b].valid))
    && (pc.Wait? ==> pc.b in s.queue || (s.bufs[pc.b].valid && !s.bufs[pc.b].dirty))
    && (pc.Sleep? ==> pc.b in s.queue)
    && (pc.Using? ==> s.bufs[pc.b].valid && !s.bufs[pc.b].dirty && pc.b !in s.queue)
  }

  ghost predicate QueueInv(s: State) {
    && (forall i: nat, j: nat :: i < j < |s.queue| ==> s.queue[i] != s.queue[j])
    && Indices(s.queue, |s.bufs|)
    && s.cmd == StartHead(s.bufs, s.queue)
    && (s.done ==> s.cmd.Some? && (s.cmd.value.write ==> At(s.disk, s.cmd.value.key) == s.cmd.value.data))
  }

  /** The real disk lags the plain disk only at sectors whose buffer is dirty. */
  ghost predicate DiskInv(s: State) {
    forall k: Key :: k.Real() && (forall b: nat :: b < |s.bufs| && s.bufs[b].key == k ==> !s.bufs[b].dirty) ==>
      At(s.disk, k) == At(s.log, k)
  }

  ghost predicate Inv(s: State) {
    && LruInv(s) && KeyInv(s) && QueueInv(s) && DiskInv(s)
    && (forall b: nat :: b < |s.bufs| ==> BufInv(s, b))
    && (forall p: nat :: p < |s.procs| ==> ProcInv(s, p))
  }
}
