/**
  * The pipe (kernel/pipe.c:76-130): a ring of PIPESIZE bytes with 32-bit counters that wrap.  A
  * reader or writer holds the pipe's lock except while it sleeps, so each method below runs from
  * taking the lock to giving it up, and an interleaving of readers and writers is any sequence
  * of their calls.
  */
module Pipes {
  import opened Params

  const PIPESIZE: nat := 512
  type byte = b: nat | b < 256

  /** Why a critical section ended. */
  datatype Outcome = Returns(n: int) | Sleeps

  class Pipe {
    const data: array<byte>
    var nread: nat
    var nwrite: nat
    var readopen: bool
    var writeopen: bool
    /** Everything ever put into the ring, and how much of it has been taken out. */
    ghost var put: seq<byte>
    ghost var taken: nat

    ghost predicate Valid()
      reads this, data
    {
      && data.Length == PIPESIZE
      && taken <= |put| <= taken + PIPESIZE
      && nread == taken % UINT && nwrite == |put| % UINT
      && forall k :: taken <= k < |put| ==> data[k % PIPESIZE] == put[k]
    }

    constructor ()
      ensures Valid() && put == [] && taken == 0 && readopen && writeopen && fresh(data)
    {
      data := new byte[PIPESIZE](_ => 0);
      nread, nwrite, readopen, writeopen := 0, 0, true, true;
      put, taken := [], 0;
    }

    /** The counters tell a full and an empty ring apart, also across a wrap. */
    lemma Occupancy()
      requires Valid()
      ensures nwrite == (nread + PIPESIZE) % UINT <==> |put| == taken + PIPESIZE
      ensures nread == nwrite <==> |put| == taken
    {
    }

    /** pipewrite, from taking the lock with the bytes from i0 still to write: the process is killed from byte
        killed on, and the bytes from readable on cannot be copied in.  It goes on as long as it can, and which
        of the four ways to stop comes first decides how it ends. */
    method Write(src: seq<byte>, i0: nat, killed: nat, readable: nat) returns (end: Outcome, i: nat)
      requires Valid() && i0 <= |src|
      modifies this`nwrite, this`put, data
      ensures Valid() && i0 <= i <= |src| && put == old(put) + src[i0..i]
      ensures i == Min(Min(|src|, i0 + (taken + PIPESIZE - |old(put)|)),
                       Max(i0, Min(readable, if readopen then killed else 0)))
      ensures end == if i == |src| then Returns(i)
                     else if !readopen || killed <= i then Returns(-1)
                     else if |put| == taken + PIPESIZE then Sleeps
                     else Returns(i)
    {
      i := i0;
      while i < |src|
        invariant i0 <= i <= |src| && Valid() && put == old(put) + src[i0..i]
        invariant i == i0 || (readopen && i <= killed && i <= readable)
      {
        if !readopen || killed <= i {
          return Returns(-1), i;
        }
        Occupancy();
        if nwrite == (nread + PIPESIZE) % UINT {
          return Sleeps, i;
        }
        if readable <= i {
          break;
        }
        Append(src[i]);
        assert src[i0..i + 1] == src[i0..i] + [src[i]];
        i := i + 1;
      }
      return Returns(i), i;
    }

    /** pi->data[pi->nwrite++ % PIPESIZE] = ch */
    method Append(ch: byte)
      requires Valid() && |put| < taken + PIPESIZE
      modifies this`nwrite, this`put, data
      ensures Valid() && put == old(put) + [ch]
    {
      Slot(|put|);
      forall k | taken <= k < |put| ensures k % PIPESIZE != |put| % PIPESIZE { Apart(k, |put|); }
      Succ(|put|);
      data[nwrite % PIPESIZE] := ch;
      nwrite := (nwrite + 1) % UINT;
      put := put + [ch];
    }

    /** piperead, from taking the lock: up to n bytes; the byte whose copyout fails, if any, is taken all the same. */
    method Read(n: nat, killed: bool, writable: nat) returns (end: Outcome, got: seq<byte>)
      requires Valid()
      modifies this`nread, this`taken
      ensures Valid() && old(taken) <= taken && put[old(taken)..taken] == got
      ensures |got| == Min(Min(n, |put| - old(taken)), writable + 1)
      ensures end == if |put| > old(taken) || !writeopen then Returns(Min(Min(n, |put| - old(taken)), writable))
                     else if killed then Returns(-1)
                     else Sleeps
      ensures end.Returns? && end.n != -1 ==> (end.n < |got| <==> writable < Min(n, |put| - old(taken)))
    {
      got := [];
      Occupancy();
      if nread == nwrite && writeopen {
        if killed { return Returns(-1), got; }
        return Sleeps, got;
      }
      var i := 0;
      while i < n
        invariant 0 <= i <= n && Valid() && i == |got| == taken - old(taken) && i <= writable
        invariant old(taken) <= taken && put[old(taken)..taken] == got
      {
        Occupancy();
        if nread == nwrite { break; }
        var ch := data[nread % PIPESIZE];
        Slot(taken);
        Succ(taken);
        assert put[old(taken)..taken + 1] == put[old(taken)..taken] + [put[taken]];
        nread := (nread + 1) % UINT;
        taken := taken + 1;
        got := got + [ch];
        if i == writable { break; }
        i := i + 1;
      }
      return Returns(i), got;
    }
  }

  // ---- wrapping counters

  lemma Succ(a: nat)
    ensures (a % UINT + 1) % UINT == (a + 1) % UINT
  {
  }

  /** PIPESIZE divides 2^32, so the slot survives the wrap. */
  lemma Slot(a: nat)
    ensures a % UINT % PIPESIZE == a % PIPESIZE
  {
  }

  lemma Apart(k: nat, m: nat)
    requires k < m < k + PIPESIZE
    ensures k % PIPESIZE != m % PIPESIZE
  {
  }
}
