/**
 Readers, writers and closers of one pipe, interleaved. A step is one action of one process: taking
 p->lock, moving one byte, waking, sleeping, or leaving. The lock is held from the acquire to the
 release or the sleep; sleep lets go of it only once the process is marked sleeping, so no wakeup
 falls in between. File references decide who may still start an operation: a side is closed when
 its last reference is gone, hence with nobody inside an operation on it.
 */
module PipeProto {
  import opened Bytes
  import opened PipeRing

  datatype Pc =
    | Idle
    | WWant(a: seq<Byte>, i: nat) | WLoop(a: seq<Byte>, i: nat, stored: bool) | WDoze(a: seq<Byte>, i: nat)
    | WSleeping(a: seq<Byte>, i: nat)
    | RWant(n: int) | RCheck(n: int) | RSleeping(n: int) | RCopy(n: int, got: nat)
    | CWant(writable: bool) | CShut(writable: bool) | CWake(writable: bool)
    | Leaving

  /**
   written and read are the histories of the bytes accepted and returned; lapsed records that a
   killed writer left bytes behind without a wakeup, and that no wakeup of the readers followed.
   */
  datatype State = State(
    ring: Ring, readopen: bool, writeopen: bool, readref: bool, writeref: bool, lock: int, procs: seq<Pc>,
        killed: seq<bool>,
    written: seq<Byte>, read: seq<Byte>, lapsed: bool)

  datatype Step =
    | StartWrite(p: nat, a: seq<Byte>) | WAcquire(p: nat) | WStore(p: nat) | WQuit(p: nat) | WNotify(p: nat)
    | WSleep(p: nat) | WDone(p: nat)
    | StartRead(p: nat, n: int)
    | RAcquire(p: nat) | RSleep(p: nat) | RQuit(p: nat) | RGo(p: nat) | RLoad(p: nat) | RDone(p: nat)
    | StartClose(p: nat, writable: bool) | CAcquire(p: nat) | CClear(p: nat) | CNotify(p: nat)
    | Leave(p: nat) | Kill(p: nat)

  predicate Writing(pc: Pc) {
    pc.WWant? || pc.WLoop? || pc.WDoze? || pc.WSleeping?
  }

  predicate Reading(pc: Pc) {
    pc.RWant? || pc.RCheck? || pc.RSleeping? || pc.RCopy?
  }

  predicate Closing(pc: Pc, writable: bool) {
    pc == CWant(writable) || pc == CShut(writable)
  }

  /** The program points between acquire and release. */
  predicate Holds(pc: Pc) {
    pc.WLoop? || pc.WDoze? || pc.RCheck? || pc.RCopy? || pc.CShut? || pc.CWake? || pc.Leaving?
  }

  /** fileclose closes a side when its last reference goes: nobody is inside an operation on it. */
  ghost predicate LastReference(s: State, writable: bool) {
    if writable then s.writeref && forall q: nat :: q < |s.procs| ==> !Writing(s.procs[q])
    else s.readref && forall q: nat :: q < |s.procs| ==> !Reading(s.procs[q])
  }

  ghost predicate Enabled(s: State, t: Step) {
    && Ok(s.ring) && |s.killed| == |s.procs| && t.p < |s.procs|
    && var pc := s.procs[t.p];
       match t
       case StartWrite(_, _) => pc.Idle? && s.writeref
       case WAcquire(_) => pc.WWant? && s.lock < 0
       case WStore(_) => pc.WLoop? && pc.i < |pc.a| && !Full(s.ring)
       case WQuit(p) => pc.WLoop? && pc.i < |pc.a| && Full(s.ring) && (!s.readopen || s.killed[p])
       case WNotify(p) => pc.WLoop? && pc.i < |pc.a| && Full(s.ring) && s.readopen && !s.killed[p]
       case WSleep(_) => pc.WDoze?
       case WDone(_) => pc.WLoop? && pc.i >= |pc.a|
       case StartRead(_, _) => pc.Idle? && s.readref
       case RAcquire(_) => pc.RWant? && s.lock < 0
       case RSleep(p) => pc.RCheck? && Empty(s.ring) && s.writeopen && !s.killed[p]
       case RQuit(p) => pc.RCheck? && Empty(s.ring) && s.writeopen && s.killed[p]
       case RGo(_) => pc.RCheck? && !(Empty(s.ring) && s.writeopen)
       case RLoad(_) => pc.RCopy? && pc.got < pc.n && !Empty(s.ring)
       case RDone(_) => pc.RCopy? && (pc.got >= pc.n || Empty(s.ring))
       case StartClose(_, w) => pc.Idle? && LastReference(s, w)
       case CAcquire(_) => pc.CWant? && s.lock < 0
       case CClear(_) => pc.CShut?
       case CNotify(_) => pc.CWake?
       case Leave(_) => pc.Leaving?
       case Kill(p) => true
  }

  /** wakeup(&p->nread) and wakeup(&p->nwrite): every sleeper on the channel gets ready to retake the lock. */
  function WokenReader(pc: Pc): Pc {
    if pc.RSleeping? then RWant(pc.n) else pc
  }

  function WokenWriter(pc: Pc): Pc {
    if pc.WSleeping? then WWant(pc.a, pc.i) else pc
  }

  function WakeReaders(procs: seq<Pc>): (r: seq<Pc>)
    ensures |r| == |procs| && forall q: nat :: q < |r| ==> r[q] == WokenReader(procs[q])
  {
    seq(|procs|, q requires 0 <= q < |procs| => WokenReader(procs[q]))
  }

  function WakeWriters(procs: seq<Pc>): (r: seq<Pc>)
    ensures |r| == |procs| && forall q: nat :: q < |r| ==> r[q] == WokenWriter(procs[q])
  {
    seq(|procs|, q requires 0 <= q < |procs| => WokenWriter(procs[q]))
  }

  function Goto(s: State, p: nat, pc: Pc): State
    requires p < |s.procs|
  {
    s.(procs := s.procs[p := pc])
  }

  /** Going on with, or without, the lock. */
  function Take(s: State, p: nat, pc: Pc): State
    requires p < |s.procs|
  {
    s.(procs := s.procs[p := pc], lock := p)
  }

  function Drop(s: State, p: nat, pc: Pc): State
    requires p < |s.procs|
  {
    s.(procs := s.procs[p := pc], lock := -1)
  }

  ghost function Apply(s: State, t: Step): State
    requires Enabled(s, t)
  {
    var p := t.p;
    var pc := s.procs[p];
    match t
    case StartWrite(_, a) => Goto(s, p, WWant(a, 0)).(killed := s.killed[p := false])
    case WAcquire(_) => Take(s, p, WLoop(pc.a, pc.i, false))
    case WStore(_) =>
      Goto(s, p, WLoop(pc.a, pc.i + 1, true)).(ring := Store(s.ring, pc.a[pc.i]), written := s.written + [pc.a[pc.i]])
    case WQuit(_) => Drop(s, p, Idle).(lapsed := s.lapsed || (s.readopen && pc.stored))
    case WNotify(_) => s.(procs := WakeReaders(s.procs)[p := WDoze(pc.a, pc.i)], lapsed := false)
    case WSleep(_) => Drop(s, p, WSleeping(pc.a, pc.i))
    case WDone(_) => s.(procs := WakeReaders(s.procs)[p := Leaving], lapsed := false)
    case StartRead(_, n) => Goto(s, p, RWant(n)).(killed := s.killed[p := false])
    case RAcquire(_) => Take(s, p, RCheck(pc.n))
    case RSleep(_) => Drop(s, p, RSleeping(pc.n))
    case RQuit(_) => Drop(s, p, Idle)
    case RGo(_) => Goto(s, p, RCopy(pc.n, 0))
    case RLoad(_) =>
      Goto(s, p, RCopy(pc.n, pc.got + 1)).(ring := Load(s.ring),
          read := s.read + [s.ring.data[s.ring.nread % PIPESIZE]])
    case RDone(_) => s.(procs := WakeWriters(s.procs)[p := Leaving])
    case StartClose(_, w) => Goto(s, p, CWant(w)).(readref := s.readref && w, writeref := s.writeref && !w)
    case CAcquire(_) => Take(s, p, CShut(pc.writable))
    case CClear(_) =>
      Goto(s, p, CWake(pc.writable)).(readopen := s.readopen && pc.writable, writeopen := s.writeopen && !pc.writable)
    case CNotify(_) =>
      var woken := if pc.writable then WakeReaders(s.procs) else WakeWriters(s.procs);
      s.(procs := woken[p := Leaving], lapsed := s.lapsed && !pc.writable)
    case Leave(_) => Drop(s, p, Idle)
    case Kill(_) => s.(procs := s.procs[p := WokenReader(WokenWriter(pc))], killed := s.killed[p := true])
  }

  /** pipealloc: an empty pipe with both ends open and no call in progress. */
  ghost predicate Initial(s: State) {
    && Ok(s.ring) && s.ring.nread == 0 && s.ring.nwrite == 0
    && s.readopen && s.writeopen && s.readref && s.writeref && s.lock == -1 && |s.killed| == |s.procs|
    && (forall q: nat :: q < |s.procs| ==> s.procs[q] == Idle)
    && s.written == [] && s.read == [] && !s.lapsed
  }

  ghost predicate Next(s: State, r: State) {
    exists t: Step :: Enabled(s, t) && r == Apply(s, t)
  }

  ghost predicate IsRun(run: seq<State>) {
    && run != [] && Initial(run[0])
    && forall k: nat :: k + 1 < |run| ==> Next(run[k], run[k + 1])
  }

  // ---- The invariant -------------------------------------------------------------------------------

  ghost predicate Exclusion(s: State) {
    && |s.killed| == |s.procs| && -1 <= s.lock < |s.procs|
    && forall q: nat :: q < |s.procs| ==> (Holds(s.procs[q]) <==> s.lock == q)
  }

  ghost predicate References(s: State) {
    && (s.readref ==> s.readopen) && (s.writeref ==> s.writeopen)
    && (forall q: nat :: q < |s.procs| && Writing(s.procs[q]) ==> s.writeref)
    && (forall q: nat :: q < |s.procs| && Reading(s.procs[q]) ==> s.readref)
    && (forall q: nat :: q < |s.procs| && Closing(s.procs[q], true) ==> !s.writeref)
    && (forall q: nat :: q < |s.procs| && Closing(s.procs[q], false) ==> !s.readref)
  }

  ghost predicate Stream(s: State) {
    && Ok(s.ring) && s.written == s.read + Buffered(s.ring)
    && s.ring.nwrite == |s.written| % WORD && s.ring.nread == |s.read| % WORD
  }

  /** The holder of the lock has made room, or shut the read side, and has yet to wake the writers. */
  predicate OwesWriters(s: State) {
    0 <= s.lock < |s.procs| && (s.procs[s.lock].RCopy? || s.procs[s.lock] == CWake(false))
  }

  predicate OwesReaders(s: State) {
    0 <= s.lock < |s.procs| && ((s.procs[s.lock].WLoop? && s.procs[s.lock].stored) || s.procs[s.lock] == CWake(true))
  }

  ghost predicate WritersSleep(s: State) {
    forall q: nat :: q < |s.procs| && s.procs[q].WSleeping? ==> (Full(s.ring) && s.readopen) || OwesWriters(s)
  }

  ghost predicate ReadersSleep(s: State) {
    forall q: nat :: q < |s.procs| && s.procs[q].RSleeping? ==>
      (Empty(s.ring) && s.writeopen) || OwesReaders(s) || s.lapsed
  }

  /** A dozing writer still has the lock, so nothing it saw has changed. */
  ghost predicate Dozers(s: State) {
    forall q: nat :: q < |s.procs| && s.procs[q].WDoze? ==> Full(s.ring) && s.readopen
  }

  ghost predicate Inv(s: State) {
    Exclusion(s) && References(s) && Stream(s) && Dozers(s) && WritersSleep(s) && ReadersSleep(s)
  }

  // ---- Every step keeps it --------------------------------------------------------------------------

  predicate ByWriter(t: Step) {
    t.StartWrite? || t.WAcquire? || t.WStore? || t.WQuit? || t.WNotify? || t.WSleep? || t.WDone?
  }

  predicate ByCloser(t: Step) {
    t.StartClose? || t.CAcquire? || t.CClear? || t.CNotify?
  }

  predicate ByReader(t: Step) {
    t.StartRead? || t.RAcquire? || t.RSleep? || t.RQuit? || t.RGo? || t.RLoad? || t.RDone?
  }

  lemma KeepsExclusion(s: State, t: Step)
    requires Exclusion(s) && Enabled(s, t)
    ensures Exclusion(Apply(s, t))
  {
    hide Enabled, Apply, Exclusion, References, Dozers, WritersSleep, ReadersSleep;
    if ByWriter(t) {
      KeepsExclusionWriter(s, t);
    } else if ByReader(t) {
      KeepsExclusionReader(s, t);
    } else if ByCloser(t) {
      KeepsExclusionCloser(s, t);
    } else {
      KeepsExclusionOther(s, t);
    }
  }

  lemma KeepsExclusionWriter(s: State, t: Step)
    requires Exclusion(s) && Enabled(s, t) && ByWriter(t)
    ensures Exclusion(Apply(s, t))
  {
    hide Ok, Full, Empty, Store, Load;
  }

  lemma KeepsExclusionReader(s: State, t: Step)
    requires Exclusion(s) && Enabled(s, t) && ByReader(t)
    ensures Exclusion(Apply(s, t))
  {
    hide Ok, Full, Empty, Store, Load;
  }

  lemma KeepsExclusionCloser(s: State, t: Step)
    requires Exclusion(s) && Enabled(s, t) && ByCloser(t)
    ensures Exclusion(Apply(s, t))
  {
    hide Ok, Full, Empty, Store, Load;
  }

  lemma KeepsExclusionOther(s: State, t: Step)
    requires Exclusion(s) && Enabled(s, t) && (t.Leave? || t.Kill?)
    ensures Exclusion(Apply(s, t))
  {
    hide Ok, Full, Empty, Store, Load;
  }

  lemma KeepsReferences(s: State, t: Step)
    requires Exclusion(s) && References(s) && Enabled(s, t)
    ensures References(Apply(s, t))
  {
    hide Enabled, Apply, Exclusion, References, Dozers, WritersSleep, ReadersSleep;
    if ByWriter(t) {
      KeepsReferencesWriter(s, t);
    } else if ByReader(t) {
      KeepsReferencesReader(s, t);
    } else if ByCloser(t) {
      KeepsReferencesCloser(s, t);
    } else {
      KeepsReferencesOther(s, t);
    }
  }

  lemma KeepsReferencesWriter(s: State, t: Step)
    requires Exclusion(s) && References(s) && Enabled(s, t) && ByWriter(t)
    ensures References(Apply(s, t))
  {
    hide Ok, Full, Empty, Store, Load;
  }

  lemma KeepsReferencesReader(s: State, t: Step)
    requires Exclusion(s) && References(s) && Enabled(s, t) && ByReader(t)
    ensures References(Apply(s, t))
  {
    hide Ok, Full, Empty, Store, Load;
  }

  lemma KeepsReferencesCloser(s: State, t: Step)
    requires Exclusion(s) && References(s) && Enabled(s, t) && ByCloser(t)
    ensures References(Apply(s, t))
  {
    hide Enabled, Apply, Exclusion, References;
    if t.StartClose? {
      StartKeepsReferences(s, t);
    } else {
      CloseKeepsReferences(s, t);
    }
  }

  lemma StartKeepsReferences(s: State, t: Step)
    requires References(s) && Enabled(s, t) && t.StartClose?
    ensures References(Apply(s, t))
  {
    hide Ok, Full, Empty, Store, Load, WakeReaders, WakeWriters;
  }

  lemma CloseKeepsReferences(s: State, t: Step)
    requires Exclusion(s) && References(s) && Enabled(s, t) && ByCloser(t) && !t.StartClose?
    ensures References(Apply(s, t))
  {
    hide Enabled, Apply, Exclusion, References;
    if t.CAcquire? || t.CClear? {
      ClearKeepsReferences(s, t);
    } else {
      NotifyKeepsReferences(s, t);
    }
  }

  lemma ClearKeepsReferences(s: State, t: Step)
    requires Exclusion(s) && References(s) && Enabled(s, t) && (t.CAcquire? || t.CClear?)
    ensures References(Apply(s, t))
  {
    hide Ok, Full, Empty, Store, Load, LastReference, WakeReaders, WakeWriters;
  }

  lemma NotifyKeepsReferences(s: State, t: Step)
    requires References(s) && Enabled(s, t) && t.CNotify?
    ensures References(Apply(s, t))
  {
    hide Ok, Full, Empty, Store, Load, LastReference;
  }

  lemma KeepsReferencesOther(s: State, t: Step)
    requires Exclusion(s) && References(s) && Enabled(s, t) && (t.Leave? || t.Kill?)
    ensures References(Apply(s, t))
  {
    hide Ok, Full, Empty, Store, Load;
  }

  lemma CounterStep(n: nat)
    ensures (n % WORD + 1) % WORD == (n + 1) % WORD
  {
  }

  lemma KeepsStream(s: State, t: Step)
    requires Stream(s) && Enabled(s, t)
    ensures Stream(Apply(s, t))
  {
    hide Ok, Full, Empty, Buffered, WakeReaders, WakeWriters;
    var r := Apply(s, t);
    match t
    case WStore(p) =>
      var pc := s.procs[p];
      StoreAppends(s.ring, pc.a[pc.i]);
      CounterStep(|s.written|);
    case RLoad(p) =>
      LoadRemoves(s.ring);
      CounterStep(|s.read|);
    case _ =>
      assert r.ring == s.ring && r.written == s.written && r.read == s.read;
  }

  lemma KeepsDozers(s: State, t: Step)
    requires Exclusion(s) && Dozers(s) && Enabled(s, t)
    ensures Dozers(Apply(s, t))
  {
    hide Enabled, Apply, Exclusion, References, Dozers, WritersSleep, ReadersSleep;
    if ByWriter(t) {
      KeepsDozersWriter(s, t);
    } else if ByReader(t) {
      KeepsDozersReader(s, t);
    } else if ByCloser(t) {
      KeepsDozersCloser(s, t);
    } else {
      KeepsDozersOther(s, t);
    }
  }

  lemma KeepsDozersWriter(s: State, t: Step)
    requires Exclusion(s) && Dozers(s) && Enabled(s, t) && ByWriter(t)
    ensures Dozers(Apply(s, t))
  {
    hide Ok, Full, Empty, Store, Load;
  }

  lemma KeepsDozersReader(s: State, t: Step)
    requires Exclusion(s) && Dozers(s) && Enabled(s, t) && ByReader(t)
    ensures Dozers(Apply(s, t))
  {
    hide Ok, Full, Empty, Store, Load;
  }

  lemma KeepsDozersCloser(s: State, t: Step)
    requires Exclusion(s) && Dozers(s) && Enabled(s, t) && ByCloser(t)
    ensures Dozers(Apply(s, t))
  {
    hide Ok, Full, Empty, Store, Load;
  }

  lemma KeepsDozersOther(s: State, t: Step)
    requires Exclusion(s) && Dozers(s) && Enabled(s, t) && (t.Leave? || t.Kill?)
    ensures Dozers(Apply(s, t))
  {
    hide Ok, Full, Empty, Store, Load;
  }

  lemma KeepsWritersSleep(s: State, t: Step)
    requires Exclusion(s) && Dozers(s) && WritersSleep(s) && Enabled(s, t)
    ensures WritersSleep(Apply(s, t))
  {
    hide Enabled, Apply, Exclusion, References, Dozers, WritersSleep, ReadersSleep;
    if ByWriter(t) {
      KeepsWritersSleepWriter(s, t);
    } else if ByReader(t) {
      KeepsWritersSleepReader(s, t);
    } else if ByCloser(t) {
      KeepsWritersSleepCloser(s, t);
    } else {
      KeepsWritersSleepOther(s, t);
    }
  }

  lemma KeepsWritersSleepWriter(s: State, t: Step)
    requires Exclusion(s) && Dozers(s) && WritersSleep(s) && Enabled(s, t) && ByWriter(t)
    ensures WritersSleep(Apply(s, t))
  {
    hide Ok, Full, Empty, Store, Load;
  }

  lemma KeepsWritersSleepReader(s: State, t: Step)
    requires Exclusion(s) && Dozers(s) && WritersSleep(s) && Enabled(s, t) && ByReader(t)
    ensures WritersSleep(Apply(s, t))
  {
    hide Ok, Full, Empty, Store, Load;
  }

  lemma KeepsWritersSleepCloser(s: State, t: Step)
    requires Exclusion(s) && Dozers(s) && WritersSleep(s) && Enabled(s, t) && ByCloser(t)
    ensures WritersSleep(Apply(s, t))
  {
    hide Ok, Full, Empty, Store, Load;
  }

  lemma KeepsWritersSleepOther(s: State, t: Step)
    requires Exclusion(s) && Dozers(s) && WritersSleep(s) && Enabled(s, t) && (t.Leave? || t.Kill?)
    ensures WritersSleep(Apply(s, t))
  {
    hide Ok, Full, Empty, Store, Load;
  }

  lemma KeepsReadersSleep(s: State, t: Step)
    requires Exclusion(s) && References(s) && ReadersSleep(s) && Enabled(s, t)
    ensures ReadersSleep(Apply(s, t))
  {
    hide Enabled, Apply, Exclusion, References, Dozers, WritersSleep, ReadersSleep;
    if ByWriter(t) {
      KeepsReadersSleepWriter(s, t);
    } else if ByReader(t) {
      KeepsReadersSleepReader(s, t);
    } else if ByCloser(t) {
      KeepsReadersSleepCloser(s, t);
    } else {
      KeepsReadersSleepOther(s, t);
    }
  }

  lemma KeepsReadersSleepWriter(s: State, t: Step)
    requires Exclusion(s) && References(s) && ReadersSleep(s) && Enabled(s, t) && ByWriter(t)
    ensures ReadersSleep(Apply(s, t))
  {
    hide Ok, Full, Empty, Store, Load;
  }

  lemma KeepsReadersSleepReader(s: State, t: Step)
    requires Exclusion(s) && References(s) && ReadersSleep(s) && Enabled(s, t) && ByReader(t)
    ensures ReadersSleep(Apply(s, t))
  {
    hide Ok, Full, Empty, Store, Load;
  }

  lemma KeepsReadersSleepCloser(s: State, t: Step)
    requires Exclusion(s) && References(s) && ReadersSleep(s) && Enabled(s, t) && ByCloser(t)
    ensures ReadersSleep(Apply(s, t))
  {
    hide Ok, Full, Empty, Store, Load;
  }

  lemma KeepsReadersSleepOther(s: State, t: Step)
    requires Exclusion(s) && References(s) && ReadersSleep(s) && Enabled(s, t) && (t.Leave? || t.Kill?)
    ensures ReadersSleep(Apply(s, t))
  {
    hide Ok, Full, Empty, Store, Load;
  }

  lemma StepInv(s: State, r: State)
    requires Inv(s) && Next(s, r)
    ensures Inv(r)
  {
    var t :| Enabled(s, t) && r == Apply(s, t);
    hide Exclusion, References, Stream, Dozers, WritersSleep, ReadersSleep, Enabled, Apply;
    KeepsExclusion(s, t);
    KeepsReferences(s, t);
    KeepsStream(s, t);
    KeepsDozers(s, t);
    KeepsWritersSleep(s, t);
    KeepsReadersSleep(s, t);
  }

  lemma {:induction false} RunInv(run: seq<State>, k: nat)
    requires IsRun(run) && k < |run|
    ensures Inv(run[k])
  {
    if k > 0 {
      hide Inv, Initial;
      RunInv(run, k - 1);
      StepInv(run[k - 1], run[k]);
    }
  }
}
