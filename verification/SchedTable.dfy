/**
 The scans of proc.c over ptable.proc, as loops over an array of slots, each
 proved to do what the protocol's critical sections say.
 */
module SchedTable {
  import opened Sched
  import opened Options
  import opened SchedCalls

  class Ptable {
    var proc: array<Proc>

    constructor (n: nat, blank: Proc)
      ensures fresh(proc) && proc.Length == n && forall i: nat :: i < n ==> proc[i] == blank
    {
      proc := new Proc[n](_ => blank);
    }

    /** wakeup1. */
    method Wakeup1(ch: Chan)
      modifies proc
      ensures proc[..] == WakeAll(old(proc[..]), ch)
      ensures forall q: nat :: q < proc.Length ==> !AsleepOn(proc[q], ch)
      ensures forall q: nat :: q < proc.Length && AsleepOn(old(proc[q]), ch) ==> proc[q].state == RUNNABLE
      ensures forall q: nat :: q < proc.Length && !AsleepOn(old(proc[q]), ch) ==> proc[q] == old(proc[q])
    {
      ghost var was := proc[..];
      var i := 0;
      while i < proc.Length
        invariant 0 <= i <= proc.Length
        invariant forall q: nat :: q < i ==> proc[q] == Woken(was[q], ch)
        invariant forall q: nat :: i <= q < proc.Length ==> proc[q] == was[q]
      {
        if proc[i].state == SLEEPING && proc[i].chan == ch {
          proc[i] := proc[i].(state := RUNNABLE);
        }
        i := i + 1;
      }
      assert proc[..] == WakeAll(was, ch);
    }

    /** exit from waking the parent to becoming a zombie. */
    method ExitScan(p: nat, init: nat)
      requires p < proc.Length
      modifies proc
      ensures proc[..] == ExitTable(old(proc[..]), p, init)
    {
      ghost var ps := proc[..];
      Wakeup1(ParentChan(proc[p]));
      ghost var w := proc[..];
      ghost var zombie := false;
      var i := 0;
      while i < proc.Length
        invariant 0 <= i <= proc.Length && w == WakeAll(ps, ParentChan(ps[p])) && |w| == proc.Length
        invariant zombie <==> exists q: nat :: q < i && w[q].parent == Some(p) && w[q].state == ZOMBIE
        invariant forall q: nat :: q < proc.Length ==> proc[q] == Exiting(w[q], p, init, q < i, zombie)
      {
        if proc[i].parent == Some(p) {
          proc[i] := proc[i].(parent := Some(init));
          if proc[i].state == ZOMBIE {
            zombie := true;
            Wakeup1(ProcChan(init));
          }
        }
        i := i + 1;
      }
      proc[p] := proc[p].(state := ZOMBIE);
      ExitingIsExitTable(ps, p, init, zombie, proc[..]);
    }

    /** One pass of wait's loop: whether p has children, and its first zombie child. */
    method WaitScan(p: nat) returns (havekids: bool, k: nat)
      ensures k == FindZombie(proc[..], p, 0) && k <= proc.Length
      ensures k == proc.Length ==> (havekids <==> HasChild(proc[..], p))
    {
      havekids := false;
      k := 0;
      while k < proc.Length
        invariant 0 <= k <= proc.Length
        invariant FindZombie(proc[..], p, 0) == FindZombie(proc[..], p, k)
        invariant havekids <==> exists q: nat :: q < k && proc[q].parent == Some(p)
      {
        if proc[k].parent == Some(p) {
          havekids := true;
          if proc[k].state == ZOMBIE {
            return;
          }
        }
        k := k + 1;
      }
    }

    /** allocproc's search; the slot found becomes EMBRYO with the given pid. */
    method AllocScan(pid: nat) returns (k: nat)
      modifies proc
      ensures k == FindUnused(old(proc[..]), 0)
      ensures k == proc.Length ==> proc[..] == old(proc[..])
      ensures k < proc.Length ==>
                proc[..] == old(proc[..])[k := old(proc[k]).(state := EMBRYO, pid := pid, pc := Fork0)]
    {
      k := 0;
      while k < proc.Length && proc[k].state != UNUSED
        invariant 0 <= k <= proc.Length
        invariant FindUnused(proc[..], 0) == FindUnused(proc[..], k)
      {
        k := k + 1;
      }
      if k < proc.Length {
        proc[k] := proc[k].(state := EMBRYO, pid := pid, pc := Fork0);
      }
    }

    /** kill: mark and wake the process with this pid. */
    method KillScan(pid: nat) returns (found: bool)
      modifies proc
      ensures var ps := old(proc[..]); var k := FindPid(ps, pid, 0);
        && (found <==> k < |ps|)
        && proc[..] == if found then ps[k := Killed(ps[k])] else ps
      ensures found <==> exists q: nat :: q < proc.Length && old(proc[q]).pid == pid
      ensures forall q: nat :: q < proc.Length ==>
                if Named(old(proc[..]), pid, q) then proc[q].killed && proc[q].state != SLEEPING
                else proc[q] == old(proc[q])
    {
      var k := 0;
      while k < proc.Length && proc[k].pid != pid
        invariant 0 <= k <= proc.Length
        invariant FindPid(proc[..], pid, 0) == FindPid(proc[..], pid, k)
      {
        k := k + 1;
      }
      found := k < proc.Length;
      if found {
        proc[k] := proc[k].(killed := true);
        if proc[k].state == SLEEPING {
          proc[k] := proc[k].(state := RUNNABLE);
        }
      }
    }
  }

  /** A slot during exit's loop: passed over or not, and init woken or not. */
  function Exiting(p: Proc, from: nat, init: nat, passed: bool, woken: bool): Proc {
    var a := if passed then Adopt(p, from, init) else p;
    if woken then Woken(a, ProcChan(init)) else a
  }

  lemma ExitingIsExitTable(ps: seq<Proc>, p: nat, init: nat, zombie: bool, r: seq<Proc>)
    requires p < |ps| && |r| == |ps|
    requires var w := WakeAll(ps, ParentChan(ps[p]));
      && (zombie <==> exists q: nat :: q < |ps| && w[q].parent == Some(p) && w[q].state == ZOMBIE)
      && (forall q: nat :: q < |ps| && q != p ==> r[q] == Exiting(w[q], p, init, true, zombie))
      && r[p] == Exiting(w[p], p, init, true, zombie).(state := ZOMBIE)
    ensures r == ExitTable(ps, p, init)
  {
    var w := WakeAll(ps, ParentChan(ps[p]));
    var e := ExitTable(ps, p, init);
    assert zombie <==> HasZombieChild(w, p);
    forall q: nat | q < |r|
      ensures r[q] == e[q]
    {
    }
  }
}
