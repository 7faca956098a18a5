/**
 pipe.c's loops, as the stretches of code that run without giving up p->lock: from acquiring it, or
 from the return of sleep, to the next sleep or to the end of the call.
 */
module Pipe {
  import opened Bytes
  import opened PipeRing

  /** How a stretch ends: the call returns n, it returns -1, or the process goes to sleep. */
  datatype Outcome = Done | Failed | Sleeps

  class Pipe {
    var data: array<Byte>
    var nread: Uint
    var nwrite: Uint
    var readopen: bool
    var writeopen: bool

    ghost function Value(): Ring
      reads this, data
    {
      Ring(data[..], nread, nwrite)
    }

    ghost predicate Valid()
      reads this, data
    {
      Ok(Value())
    }

    /** pipealloc's initialisation. */
    constructor ()
      ensures Valid() && fresh(data) && readopen && writeopen && Buffered(Value()) == []
    {
      data := new Byte[PIPESIZE](_ => 0);
      nread, nwrite := 0, 0;
      readopen, writeopen := true, true;
    }

    method Put(b: Byte)
      requires Valid() && !Full(Value())
      modifies this`nwrite, data
      ensures Valid() && Value() == Store(old(Value()), b)
      ensures Buffered(Value()) == old(Buffered(Value())) + [b]
    {
      StoreAppends(Value(), b);
      data[nwrite % PIPESIZE] := b;
      nwrite := (nwrite + 1) % WORD;
    }

    method Get() returns (b: Byte)
      requires Valid() && !Empty(Value())
      modifies this`nread
      ensures Valid() && Value() == Load(old(Value()))
      ensures old(Buffered(Value())) == [b] + Buffered(Value())
    {
      LoadRemoves(Value());
      b := data[nread % PIPESIZE];
      nread := (nread + 1) % WORD;
    }

    /** pipewrite from byte `start`: it stores what fits, and sleeps only on a full pipe somebody can read. */
    method Write(addr: seq<Byte>, start: nat, killed: bool) returns (i: nat, outcome: Outcome, wakeup: bool)
      requires Valid() && start <= |addr|
      modifies this`nwrite, data
      ensures Valid() && start <= i <= |addr|
      ensures Buffered(Value()) == old(Buffered(Value())) + addr[start..i]
      ensures old(Count(Value())) + (i - start) <= PIPESIZE && Value() == Stored(old(Value()), addr[start..i])
      ensures i < |addr| ==> Full(Value())
      ensures outcome == if i == |addr| then Done else if !readopen || killed then Failed else Sleeps
      ensures wakeup <==> outcome != Failed
    {
      hide Ok, Buffered, Store, Count, Stored;
      i := start;
      NothingStored(Value());
      assert addr[start..i] == [];
      while i < |addr|
        invariant Valid() && start <= i <= |addr|
        invariant Buffered(Value()) == old(Buffered(Value())) + addr[start..i]
        invariant old(Count(Value())) + (i - start) <= PIPESIZE && Value() == Stored(old(Value()), addr[start..i])
      {
        FullMeans(Value());
        if nwrite == (nread + PIPESIZE) % WORD {
          if !readopen || killed {
            return i, Failed, false;
          }
          return i, Sleeps, true;
        }
        CountOf(old(Value()), addr[start..i]);
        StoredOne(old(Value()), addr[start..i], addr[i]);
        Put(addr[i]);
        assert addr[start..i + 1] == addr[start..i] + [addr[i]];
        i := i + 1;
      }
      return i, Done, true;
    }

    /** piperead: it takes the oldest bytes, and sleeps only on an empty pipe somebody can write. */
    method Read(n: int, killed: bool) returns (addr: seq<Byte>, outcome: Outcome, wakeup: bool)
      requires Valid()
      modifies this`nread
      ensures Valid()
      ensures outcome == if old(Buffered(Value())) == [] && writeopen then if killed then Failed else Sleeps else Done
      ensures old(Buffered(Value())) == addr + Buffered(Value()) && Value() == Loaded(old(Value()), |addr|)
      ensures outcome != Done ==> addr == []
      ensures outcome == Done ==> |addr| == n || (|addr| < n && Empty(Value())) || (n < 0 && addr == [])
      ensures wakeup <==> outcome == Done
    {
      FullMeans(Value());
      LoadedOne(Value(), 0);
      hide Ok, Buffered, Load;
      if nread == nwrite && writeopen {
        return [], if killed then Failed else Sleeps, false;
      }
      addr := Drain(n);
      return addr, Done, true;
    }

    /** piperead's copying loop. */
    method Drain(n: int) returns (addr: seq<Byte>)
      requires Valid()
      modifies this`nread
      ensures Valid() && old(Buffered(Value())) == addr + Buffered(Value()) && Value() == Loaded(old(Value()), |addr|)
      ensures |addr| == n || (|addr| < n && Empty(Value())) || (n < 0 && addr == [])
    {
      LoadedOne(Value(), 0);
      hide Ok, Buffered, Load, Loaded;
      addr := [];
      var i := 0;
      while i < n
        invariant Valid() && 0 <= i == |addr| && (i <= n || i == 0)
        invariant old(Buffered(Value())) == addr + Buffered(Value())
        invariant Value() == Loaded(old(Value()), i)
      {
        if nread == nwrite {
          break;
        }
        LoadedOne(old(Value()), i);
        var b := Get();
        OneMore(old(Buffered(Value())), addr, b, Buffered(Value()));
        addr := addr + [b];
        i := i + 1;
      }
    }
  }

  lemma OneMore(s: seq<Byte>, t: seq<Byte>, b: Byte, u: seq<Byte>)
    requires s == t + ([b] + u)
    ensures s == t + [b] + u
  {
  }

  lemma NothingStored(r: Ring)
    requires Ok(r)
    ensures Count(r) <= PIPESIZE && Stored(r, []) == r
  {
  }

  lemma CountOf(r: Ring, s: seq<Byte>)
    requires Ok(r) && Count(r) + |s| <= PIPESIZE
    ensures Count(Stored(r, s)) == Count(r) + |s|
  {
  }
}
