/**
 Every step of the buffer-cache protocol keeps its invariant.
 */
module BufSteps {
  import opened BufProto
  import opened Options

  /** A process moves; no buffer changes; b (if any) is the buffer it holds. */
  lemma ProcStep(s: State, p: nat, pc: Pc)
    requires Inv(s) && p < |s.procs| && ProcInv(PutProc(s, p, pc), p)
    requires Held(pc) == Held(s.procs[p])
    requires Held(pc).Some? ==> BufInv(PutProc(s, p, pc), pc.b)
    ensures Inv(PutProc(s, p, pc))
  {
    var t := PutProc(s, p, pc);
    forall b: nat | b < |t.bufs|
      ensures BufInv(t, b)
    {
      assert BufInv(s, b);
      assert ProcInv(s, p);
    }
    forall q: nat | q < |t.procs|
      ensures ProcInv(t, q)
    {
      assert ProcInv(s, q);
    }
  }

  lemma StepBread(s: State, p: nat, k: Key)
    requires Inv(s) && Enabled(s, Bread(p, k))
    ensures Inv(Do(s, Bread(p, k)))
  {
    ProcStep(s, p, Want(k));
  }

  lemma StepCheckValid(s: State, p: nat)
    requires Inv(s) && Enabled(s, CheckValid(p))
    ensures Inv(Do(s, CheckValid(p)))
  {
    assert ProcInv(s, p) && BufInv(s, s.procs[p].b);
    ProcStep(s, p, Do(s, CheckValid(p)).procs[p]);
  }

  lemma StepCheck(s: State, p: nat)
    requires Inv(s) && Enabled(s, Check(p))
    ensures Inv(Do(s, Check(p)))
  {
    assert ProcInv(s, p) && BufInv(s, s.procs[p].b);
    ProcStep(s, p, Do(s, Check(p)).procs[p]);
  }

  lemma StepSpurious(s: State, p: nat)
    requires Inv(s) && Enabled(s, Spurious(p))
    ensures Inv(Do(s, Spurious(p)))
  {
    assert ProcInv(s, p);
    if s.procs[p].Sleep? {
      assert BufInv(s, s.procs[p].b);
    }
    ProcStep(s, p, Woken(s.procs[p], s.procs[p].b));
  }

  /** Process p and one buffer b change, b not at the device. */
  lemma OwnStep(s: State, t: State, p: nat, b: nat)
    requires Inv(s) && p < |s.procs| && b < |s.bufs| && |t.procs| == |s.procs| && |t.bufs| == |s.bufs|
    requires t == s.(procs := s.procs[p := t.procs[p]], bufs := s.bufs[b := t.bufs[b]], log := t.log)
    requires b !in s.queue
    requires Held(t.procs[p]) == Some(b) && t.bufs[b].owner == Some(p)
    requires Held(s.procs[p]) == Some(b) || (Held(s.procs[p]).None? && !s.bufs[b].busy)
    requires t.bufs[b].busy && ProcInv(t, p) && BufInv(t, b)
    requires forall c: nat :: c < |s.bufs| && c != b && s.bufs[c].key.Real() ==> s.bufs[c].key != t.bufs[b].key
    requires forall k: Key :: k != t.bufs[b].key ==> At(t.log, k) == At(s.log, k)
    requires s.bufs[b].busy ==> t.bufs[b].key == s.bufs[b].key
    requires DiskInv(t)
    ensures Inv(t)
  {
    assert BufInv(s, b) && ProcInv(s, p);
    forall c: nat | c < |t.bufs|
      ensures BufInv(t, c)
    {
      assert BufInv(s, c);
    }
    forall q: nat | q < |t.procs|
      ensures ProcInv(t, q)
    {
      assert ProcInv(s, q);
    }
    assert forall x: nat :: x < |s.queue| ==> s.queue[x] != b;
  }

  /** A buffer that was clean says nothing about the disk. */
  lemma DiskKept(s: State, t: State, b: nat)
    requires DiskInv(s) && b < |s.bufs| && |t.bufs| == |s.bufs| && t.bufs == s.bufs[b := t.bufs[b]]
    requires t.disk == s.disk && t.log == s.log && !s.bufs[b].dirty
    ensures DiskInv(t)
  {
    forall k: Key | k.Real() && (forall c: nat :: c < |t.bufs| && t.bufs[c].key == k ==> !t.bufs[c].dirty)
      ensures At(t.disk, k) == At(t.log, k)
    {
      forall c: nat | c < |s.bufs| && s.bufs[c].key == k
        ensures !s.bufs[c].dirty
      {
        assert c != b ==> t.bufs[c].key == k;
      }
    }
  }

  lemma StepScan(s: State, p: nat)
    requires Inv(s) && Enabled(s, Scan(p))
    ensures Inv(Do(s, Scan(p)))
  {
    var k := s.procs[p].k;
    var i := FindKey(s.bufs, s.lru, k, 0);
    if i < |s.lru| {
      ScanHit(s, p, s.lru[i]);
    } else {
      ScanMiss(s, p, s.lru[FindFree(s.bufs, s.lru, |s.lru|)]);
    }
  }

  lemma ScanHit(s: State, p: nat, b: nat)
    requires Inv(s) && Enabled(s, Scan(p))
    requires var i := FindKey(s.bufs, s.lru, s.procs[p].k, 0); i < |s.lru| && s.lru[i] == b
    ensures Inv(Do(s, Scan(p)))
  {
    var k := s.procs[p].k;
    assert ProcInv(s, p) && BufInv(s, b);
    if s.bufs[b].busy {
      ProcStep(s, p, Asleep(k, b));
    } else {
      var t := PutProc(PutBuf(s, b, s.bufs[b].(busy := true, owner := Some(p))), p, Got(k, b));
      DiskKept(s, t, b);
      assert forall c: nat :: c < |s.bufs| && c != b && s.bufs[c].key.Real() ==> s.bufs[c].key != t.bufs[b].key;
      OwnStep(s, t, p, b);
    }
  }

  lemma ScanMiss(s: State, p: nat, b: nat)
    requires Inv(s) && Enabled(s, Scan(p)) && FindKey(s.bufs, s.lru, s.procs[p].k, 0) == |s.lru|
    requires b == s.lru[FindFree(s.bufs, s.lru, |s.lru|)]
    ensures Inv(Do(s, Scan(p)))
  {
    var k := s.procs[p].k;
    assert ProcInv(s, p) && BufInv(s, b);
    MissKeys(s, k);
    var t := PutProc(PutBuf(s, b, Buf(true, false, false, k, s.bufs[b].data, Some(p))), p, Got(k, b));
    DiskKept(s, t, b);
    OwnStep(s, t, p, b);
  }

  /** A key not found in the list is no buffer's key. */
  lemma MissKeys(s: State, k: Key)
    requires LruInv(s) && FindKey(s.bufs, s.lru, k, 0) == |s.lru|
    ensures forall c: nat :: c < |s.bufs| ==> s.bufs[c].key != k
  {
    forall c: nat | c < |s.bufs|
      ensures s.bufs[c].key != k
    {
      assert c in s.lru;
    }
  }

  lemma StepModify(s: State, p: nat, d: Data)
    requires Inv(s) && Enabled(s, Modify(p, d))
    ensures Inv(Do(s, Modify(p, d)))
  {
    assert ProcInv(s, p);
    assert BufInv(s, s.procs[p].b);
    DiskKept(s, Do(s, Modify(p, d)), s.procs[p].b);
    OwnStep(s, Do(s, Modify(p, d)), p, s.procs[p].b);
  }

  lemma StepBwrite(s: State, p: nat)
    requires Inv(s) && Enabled(s, Bwrite(p))
    ensures Inv(Do(s, Bwrite(p)))
  {
    var b := s.procs[p].b;
    var t := Do(s, Bwrite(p));
    assert ProcInv(s, p);
    assert BufInv(s, b);
    forall k: Key | k.Real() && (forall c: nat :: c < |t.bufs| && t.bufs[c].key == k ==> !t.bufs[c].dirty)
      ensures At(t.disk, k) == At(t.log, k)
    {
      assert t.bufs[b].dirty;
      forall c: nat | c < |s.bufs| && s.bufs[c].key == k
        ensures !s.bufs[c].dirty
      {
        assert t.bufs[c].key == k;
      }
    }
    OwnStep(s, t, p, b);
  }

  lemma StepAppend(s: State, p: nat)
    requires Inv(s) && Enabled(s, Append(p))
    ensures Inv(Do(s, Append(p)))
  {
    hide LruInv, KeyInv, DiskInv, QueueInv;
    AppendQueue(s, p);
    AppendBufs(s, p);
    AppendProcs(s, p);
    AppendRest(s, p);
  }

  lemma AppendRest(s: State, p: nat)
    requires Inv(s) && Enabled(s, Append(p))
    ensures LruInv(Do(s, Append(p))) && KeyInv(Do(s, Append(p))) && DiskInv(Do(s, Append(p)))
  {
  }

  lemma AppendQueue(s: State, p: nat)
    requires Inv(s) && Enabled(s, Append(p))
    ensures QueueInv(Do(s, Append(p)))
    ensures forall x :: x in Do(s, Append(p)).queue <==> x in s.queue || x == s.procs[p].b
  {
    assert ProcInv(s, p);
    assert forall x: nat :: x < |s.queue| ==> s.queue[x] in s.queue;
  }

  lemma AppendBufs(s: State, p: nat)
    requires Inv(s) && Enabled(s, Append(p))
    ensures forall c: nat :: c < |s.bufs| ==> BufInv(Do(s, Append(p)), c)
  {
    hide LruInv, KeyInv, DiskInv, QueueInv;
    AppendQueue(s, p);
    assert ProcInv(s, p);
    forall c: nat | c < |s.bufs|
      ensures BufInv(Do(s, Append(p)), c)
    {
      assert BufInv(s, c);
    }
  }

  lemma AppendProcs(s: State, p: nat)
    requires Inv(s) && Enabled(s, Append(p))
    ensures forall q: nat :: q < |s.procs| ==> ProcInv(Do(s, Append(p)), q)
  {
    hide LruInv, KeyInv, DiskInv, QueueInv;
    AppendQueue(s, p);
    assert ProcInv(s, p);
    forall q: nat | q < |s.procs|
      ensures ProcInv(Do(s, Append(p)), q)
    {
      assert ProcInv(s, q);
    }
  }

  lemma StepDiskDone(s: State)
    requires Inv(s) && Enabled(s, DiskDone)
    ensures Inv(Do(s, DiskDone))
  {
    var t := Do(s, DiskDone);
    var b := s.queue[0];
    assert b in s.queue;
    assert BufInv(s, b);
    forall c: nat | c < |t.bufs|
      ensures BufInv(t, c)
    {
      assert BufInv(s, c);
    }
    forall q: nat | q < |t.procs|
      ensures ProcInv(t, q)
    {
      assert ProcInv(s, q);
    }
  }

  // ---- Steps that wake sleepers -------------------------------------------------------------------

  /** Waking the sleepers on b, whose buffer may be released or no longer queued. */
  lemma WokenProc(s: State, p: nat, b: nat)
    requires p < |s.procs| && ProcInv(s, p)
    ensures Held(Woken(s.procs[p], b)) == Held(s.procs[p])
    ensures Woken(s.procs[p], b).Using? <==> s.procs[p].Using?
    ensures s.procs[p].Using? || s.procs[p].Got? || s.procs[p].Queue? || s.procs[p].Idle? ==>
              Woken(s.procs[p], b) == s.procs[p]
  {
  }

  lemma StepIntr(s: State)
    requires Inv(s) && Enabled(s, Intr)
    ensures Inv(Do(s, Intr))
  {
    if s.queue != [] {
      IntrQueue(s);
      IntrBufs(s);
      IntrProcs(s);
      IntrDisk(s);
    }
  }

  lemma IntrQueue(s: State)
    requires Inv(s) && Enabled(s, Intr) && s.queue != []
    ensures QueueInv(Do(s, Intr)) && LruInv(Do(s, Intr)) && KeyInv(Do(s, Intr))
    ensures forall x :: x in Do(s, Intr).queue <==> x in s.queue && x != s.queue[0]
  {
    var t := Do(s, Intr);
    assert s.queue == [s.queue[0]] + t.queue;
    assert forall i: nat :: i < |t.queue| ==> t.queue[i] == s.queue[i + 1];
  }

  lemma IntrDisk(s: State)
    requires Inv(s) && Enabled(s, Intr) && s.queue != []
    ensures DiskInv(Do(s, Intr))
  {
    var t := Do(s, Intr);
    var b := s.queue[0];
    assert b in s.queue;
    assert BufInv(s, b);
    forall k: Key | k.Real() && (forall c: nat :: c < |t.bufs| && t.bufs[c].key == k ==> !t.bufs[c].dirty)
      ensures At(t.disk, k) == At(t.log, k)
    {
      if k != s.bufs[b].key || !s.bufs[b].dirty {
        forall c: nat | c < |s.bufs| && s.bufs[c].key == k
          ensures !s.bufs[c].dirty
        {
          assert t.bufs[c].key == k;
        }
      }
    }
  }

  lemma IntrBufs(s: State)
    requires Inv(s) && Enabled(s, Intr) && s.queue != []
    ensures forall c: nat :: c < |s.bufs| ==> BufInv(Do(s, Intr), c)
  {
    IntrQueue(s);
    var t := Do(s, Intr);
    var b := s.queue[0];
    assert b in s.queue;
    assert BufInv(s, b);
    assert ProcInv(s, s.bufs[b].owner.value);
    forall c: nat | c < |t.bufs|
      ensures BufInv(t, c)
    {
      assert BufInv(s, c);
      if s.bufs[c].owner.Some? {
        assert ProcInv(s, s.bufs[c].owner.value);
        WokenProc(s, s.bufs[c].owner.value, b);
      }
    }
  }

  lemma IntrProcs(s: State)
    requires Inv(s) && Enabled(s, Intr) && s.queue != []
    ensures forall p: nat :: p < |s.procs| ==> ProcInv(Do(s, Intr), p)
  {
    IntrQueue(s);
    var t := Do(s, Intr);
    var b := s.queue[0];
    assert b in s.queue;
    forall p: nat | p < |t.procs|
      ensures ProcInv(t, p)
    {
      assert ProcInv(s, p);
      assert BufInv(s, b);
    }
  }

  lemma StepBrelse(s: State, p: nat)
    requires Inv(s) && Enabled(s, Brelse(p))
    ensures Inv(Do(s, Brelse(p)))
  {
    var b := s.procs[p].b;
    var t := Do(s, Brelse(p));
    assert ProcInv(s, p);
    assert BufInv(s, b);
    BrelseLru(s, p);
    DiskKept(s, t, b);
    assert forall x: nat :: x < |s.queue| ==> s.queue[x] != b;
    BrelseBufs(s, p);
    BrelseProcs(s, p);
  }

  lemma BrelseBufs(s: State, p: nat)
    requires Inv(s) && Enabled(s, Brelse(p))
    ensures forall c: nat :: c < |s.bufs| ==> BufInv(Do(s, Brelse(p)), c)
  {
    hide LruInv, KeyInv, DiskInv, QueueInv;
    var b := s.procs[p].b;
    assert ProcInv(s, p);
    assert BufInv(s, b);
    forall c: nat | c < |s.bufs|
      ensures BufInv(Do(s, Brelse(p)), c)
    {
      assert BufInv(s, c);
    }
  }

  lemma BrelseProcs(s: State, p: nat)
    requires Inv(s) && Enabled(s, Brelse(p))
    ensures forall q: nat :: q < |s.procs| ==> ProcInv(Do(s, Brelse(p)), q)
  {
    hide LruInv, KeyInv, DiskInv, QueueInv;
    var b := s.procs[p].b;
    assert ProcInv(s, p);
    assert BufInv(s, b);
    forall q: nat | q < |s.procs|
      ensures ProcInv(Do(s, Brelse(p)), q)
    {
      assert ProcInv(s, q);
    }
  }

  /** Position in the old list of the buffer now at position k. */
  function Before(i: nat, k: nat): nat {
    if k == 0 then i else if k <= i then k - 1 else k
  }

  /** Release moves the buffer to the front, and the list stays in last-release order. */
  lemma BrelseLru(s: State, p: nat)
    requires LruInv(s) && Enabled(s, Brelse(p))
    ensures LruInv(Do(s, Brelse(p)))
  {
    var b := s.procs[p].b;
    var t := Do(s, Brelse(p));
    var i := IndexOf(s.lru, b);
    LruCovers(s, t, i);
    LruOrder(s, t, i, b);
    forall c: nat | c < |t.bufs|
      ensures t.stamp[c] < t.clock
    {
      assert s.stamp[c] < s.clock;
    }
  }

  lemma LruOrder(s: State, t: State, i: nat, b: nat)
    requires LruInv(s) && i < |s.lru| && s.lru[i] == b && t.lru == ToFront(s.lru, i) && t.stamp == s.stamp[b := s.clock]
    ensures Indices(t.lru, |s.bufs|)
    ensures forall j: nat, k: nat :: j < k < |t.lru| ==> t.stamp[t.lru[j]] > t.stamp[t.lru[k]]
  {
    forall k: nat | k < |t.lru|
      ensures t.lru[k] == s.lru[Before(i, k)] && t.lru[k] < |s.bufs|
      ensures k > 0 ==> t.stamp[t.lru[k]] == s.stamp[s.lru[Before(i, k)]] && t.stamp[t.lru[k]] < s.clock
    {
      if k > 0 {
        var q := Before(i, k);
        assert s.stamp[s.lru[q]] != s.stamp[s.lru[i]];
        assert s.lru[q] in s.lru;
      }
    }
    forall j: nat, k: nat | j < k < |t.lru|
      ensures t.stamp[t.lru[j]] > t.stamp[t.lru[k]]
    {
      if j > 0 {
        assert Before(i, j) < Before(i, k);
      }
    }
  }

  lemma LruCovers(s: State, t: State, i: nat)
    requires LruInv(s) && i < |s.lru| && t.lru == ToFront(s.lru, i)
    ensures forall c: nat :: c < |s.bufs| ==> c in t.lru
  {
    forall c: nat | c < |s.bufs|
      ensures c in t.lru
    {
      assert c in s.lru;
      var q: nat :| q < |s.lru| && s.lru[q] == c;
      assert t.lru[if q == i then 0 else if q < i then q + 1 else q] == c;
    }
  }
}
