/**
 pipe.c's buffer: a 512-byte ring indexed by two free-running 32-bit counters.
 */
module PipeRing {
  import opened Bytes

  const PIPESIZE := 512
  const WORD := 0x1_0000_0000

  type Uint = x: int | 0 <= x < WORD

  /** data, nread and nwrite of struct pipe. */
  datatype Ring = Ring(data: seq<Byte>, nread: Uint, nwrite: Uint)

  /** nwrite - nread in 32-bit arithmetic. */
  function Count(r: Ring): (n: nat) {
    (r.nwrite - r.nread) % WORD
  }

  predicate Ok(r: Ring) {
    |r.data| == PIPESIZE && Count(r) <= PIPESIZE
  }

  /** The test of pipewrite's inner loop. */
  predicate Full(r: Ring) {
    r.nwrite == (r.nread + PIPESIZE) % WORD
  }

  predicate Empty(r: Ring) {
    r.nread == r.nwrite
  }

  function At(n: Uint, k: nat): (i: nat)
    ensures i < PIPESIZE
  {
    (n + k) % WORD % PIPESIZE
  }

  /** The bytes waiting in the pipe, oldest first. */
  function Buffered(r: Ring): (s: seq<Byte>)
    requires Ok(r)
    ensures |s| == Count(r)
  {
    seq(Count(r), k requires 0 <= k < Count(r) => r.data[At(r.nread, k)])
  }

  function Store(r: Ring, b: Byte): Ring
    requires Ok(r)
  {
    r.(data := r.data[r.nwrite % PIPESIZE := b], nwrite := (r.nwrite + 1) % WORD)
  }

  function Load(r: Ring): Ring {
    r.(nread := (r.nread + 1) % WORD)
  }

  lemma FullMeans(r: Ring)
    requires Ok(r)
    ensures Full(r) <==> Count(r) == PIPESIZE
    ensures Empty(r) <==> Count(r) == 0
  {
  }

  /** Remainders of what one addition or subtraction of counters gives. */
  lemma ModOnce(x: int)
    requires -WORD <= x < 2 * WORD
    ensures x % WORD == if x < 0 then x + WORD else if x < WORD then x else x - WORD
  {
  }

  lemma AtShift(n: Uint, k: nat)
    requires k < PIPESIZE
    ensures At((n + 1) % WORD, k) == At(n, k + 1)
  {
    ModOnce(n + 1);
    ModOnce((n + 1) % WORD + k);
    ModOnce(n + k + 1);
  }

  lemma AtDiffers(n: Uint, k: nat, c: nat)
    requires k < c < PIPESIZE
    ensures At(n, k) != At(n, c)
  {
    var a := (n + k) % WORD;
    var b := (n + c) % WORD;
    assert b == a + (c - k) || b == a + (c - k) - WORD;
  }

  lemma AtEnd(r: Ring)
    requires Ok(r)
    ensures At(r.nread, Count(r)) == r.nwrite % PIPESIZE
  {
  }

  lemma StoreCounts(r: Ring, b: Byte)
    requires Ok(r) && !Full(r)
    ensures Count(Store(r, b)) == Count(r) + 1 && Count(r) < PIPESIZE
  {
    FullMeans(r);
    ModOnce(r.nwrite + 1);
    ModOnce(r.nwrite - r.nread);
    ModOnce((r.nwrite + 1) % WORD - r.nread);
  }

  /** pipewrite's assignment appends one byte, also across the wrap of nwrite. */
  lemma StoreAppends(r: Ring, b: Byte)
    requires Ok(r) && !Full(r)
    ensures Ok(Store(r, b)) && Buffered(Store(r, b)) == Buffered(r) + [b]
  {
    var t := Store(r, b);
    StoreCounts(r, b);
    AtEnd(r);
    hide Count, At;
    forall k: nat | k < Count(r)
      ensures Buffered(t)[k] == Buffered(r)[k]
    {
      AtDiffers(r.nread, k, Count(r));
    }
  }

  lemma LoadCounts(r: Ring)
    requires Ok(r) && !Empty(r)
    ensures Ok(Load(r)) && Count(Load(r)) == Count(r) - 1
  {
    FullMeans(r);
    ModOnce(r.nread + 1);
    ModOnce(r.nwrite - r.nread);
    ModOnce(r.nwrite - (r.nread + 1) % WORD);
  }

  /** piperead's assignment removes the oldest byte. */
  lemma LoadRemoves(r: Ring)
    requires Ok(r) && !Empty(r)
    ensures Ok(Load(r)) && Buffered(r) == [r.data[r.nread % PIPESIZE]] + Buffered(Load(r))
  {
    var t := Load(r);
    LoadCounts(r);
    assert At(r.nread, 0) == r.nread % PIPESIZE;
    hide Count, At;
    forall k: nat | k < Count(t)
      ensures Buffered(t)[k] == Buffered(r)[k + 1]
    {
      AtShift(r.nread, k);
    }
  }

  /** The ring after storing the bytes one by one. */
  ghost function Stored(r: Ring, s: seq<Byte>): (t: Ring)
    requires Ok(r) && Count(r) + |s| <= PIPESIZE
    ensures Ok(t) && Count(t) == Count(r) + |s|
  {
    if s == [] then r
    else
      var u := Stored(r, s[..|s| - 1]);
      assert !Full(u) by { FullMeans(u); }
      StoreCounts(u, s[|s| - 1]);
      Store(u, s[|s| - 1])
  }

  lemma StoredOne(r: Ring, s: seq<Byte>, b: Byte)
    requires Ok(r) && Count(r) + |s| < PIPESIZE
    ensures Stored(r, s + [b]) == Store(Stored(r, s), b)
  {
    assert (s + [b])[..|s|] == s;
  }

  /** The ring after k loads. */
  function Loaded(r: Ring, k: nat): Ring {
    r.(nread := (r.nread + k) % WORD)
  }

  lemma LoadedOne(r: Ring, k: nat)
    ensures Loaded(r, 0) == r && Load(Loaded(r, k)) == Loaded(r, k + 1)
  {
  }
}
