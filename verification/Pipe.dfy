/** pipe.c: a ring buffer with 32-bit counters, written and read in the stretches between two sleeps. */
module Pipe {
  const PIPESIZE: nat := 512

  /** Counters are uints. */
  const WRAP: nat := 0x1_0000_0000

  datatype Written = Done | Full(i: nat) | Broken(i: nat)
  datatype Read = Bytes(data: seq<char>) | Empty | Killed

  /** The remainder of a counter does not depend on how often it has wrapped around. */
  lemma Wrapped(n: nat)
    ensures (n % WRAP) % PIPESIZE == n % PIPESIZE
  {
    var q := n / WRAP;
    assert n == q * WRAP + n % WRAP;
    assert q * WRAP == (q * 8388608) * PIPESIZE;
    ModAdd(n % WRAP, q * 8388608);
  }

  lemma {:induction false} ModAdd(r: nat, k: nat)
    ensures (r + k * PIPESIZE) % PIPESIZE == r % PIPESIZE
  {
    if k > 0 {
      ModAdd(r, k - 1);
      assert r + k * PIPESIZE == r + (k - 1) * PIPESIZE + PIPESIZE;
    }
  }

  /** With at most PIPESIZE bytes between them, counters compare as the numbers they count. */
  lemma Compare(r: nat, w: nat)
    requires r <= w <= r + PIPESIZE
    ensures r % WRAP == w % WRAP <==> r == w
    ensures w % WRAP == (r % WRAP + PIPESIZE) % WRAP <==> w == r + PIPESIZE
  {
    var q := r / WRAP;
    assert r == q * WRAP + r % WRAP;
    if w < (q + 1) * WRAP {
      assert w / WRAP == q;
      assert w % WRAP == w - q * WRAP;
    } else {
      assert w / WRAP == q + 1;
      assert w % WRAP == w - (q + 1) * WRAP;
    }
  }

  lemma Next(n: nat)
    ensures (n % WRAP + 1) % WRAP == (n + 1) % WRAP
  {
  }

  class Pipe {
    var data: array<char>
    var nread: nat
    var nwrite: nat
    var readopen: bool
    var writeopen: bool
    ghost var written: seq<char>     // every byte written so far
    ghost var taken: nat             // how many of them were read

    ghost predicate Valid()
      reads this, data
    {
      && data.Length == PIPESIZE && taken <= |written| <= taken + PIPESIZE
      && nread == taken % WRAP && nwrite == |written| % WRAP
      && forall k | taken <= k < |written| :: data[k % PIPESIZE] == written[k]
    }

    constructor ()
      ensures Valid() && fresh(data) && written == [] && taken == 0 && readopen && writeopen
    {
      data := new char[PIPESIZE](_ => '\0');
      nread, nwrite, readopen, writeopen, written, taken := 0, 0, true, true, [], 0;
    }

    /** `p->data[p->nwrite++ % PIPESIZE] = c` when there is room. */
    method Put(c: char)
      requires Valid() && |written| < taken + PIPESIZE
      modifies this`nwrite, this`written, data
      ensures Valid() && written == old(written) + [c]
    {
      ghost var n := |written|;
      Wrapped(n);
      Next(n);
      data[nwrite % PIPESIZE] := c;
      nwrite := (nwrite + 1) % WRAP;
      written := written + [c];
      forall k | taken <= k < n ensures k % PIPESIZE != n % PIPESIZE {
        Apart(k, n);
      }
    }

    /** `p->data[p->nread++ % PIPESIZE]` when there is something. */
    method Get() returns (c: char)
      requires Valid() && taken < |written|
      modifies this`nread, this`taken
      ensures Valid() && taken == old(taken) + 1 && c == written[old(taken)]
    {
      Wrapped(taken);
      Next(taken);
      c := data[nread % PIPESIZE];
      nread := (nread + 1) % WRAP;
      taken := taken + 1;
    }

    /**
     * pipewrite from byte `i` on, until all bytes are written, or the pipe is full and the writer sleeps, or nobody
     * can read any more. What it wrote is appended to the stream.
     */
    method Write(addr: seq<char>, i: nat, killed: bool) returns (r: Written)
      requires Valid() && i <= |addr|
      modifies this`nwrite, this`written, data
      ensures Valid()
      ensures r.Done? ==> written == old(written) + addr[i..]
      ensures !r.Done? ==> i <= r.i < |addr| && written == old(written) + addr[i..r.i] && |written| == taken + PIPESIZE
      ensures r.Full? ==> readopen && !killed
      ensures r.Broken? ==> !readopen || killed
    {
      var j := i;
      assert addr[i..i] == [];
      while j < |addr|
        invariant i <= j <= |addr| && Valid() && written == old(written) + addr[i..j]
      {
        Compare(taken, |written|);
        if nwrite == (nread + PIPESIZE) % WRAP {
          return if !readopen || killed then Broken(j) else Full(j);
        }
        Put(addr[j]);
        assert addr[i..j + 1] == addr[i..j] + [addr[j]];
        j := j + 1;
      }
      assert addr[i..j] == addr[i..];
      return Done;
    }

    /** piperead, from where it has the lock: up to `n` bytes in the order they were written, or it sleeps. */
    method Take(n: nat, killed: bool) returns (r: Read)
      requires Valid()
      modifies this`nread, this`taken
      ensures Valid()
      ensures old(taken) == |written| && writeopen ==> r == (if killed then Killed else Empty) && taken == old(taken)
      ensures !(old(taken) == |written| && writeopen) ==> r.Bytes?
      ensures r.Bytes? ==> taken == old(taken) + |r.data| && r.data == written[old(taken)..taken]
      ensures r.Bytes? ==> |r.data| == if |written| - old(taken) < n then |written| - old(taken) else n
    {
      Compare(taken, |written|);
      if nread == nwrite && writeopen {
        return if killed then Killed else Empty;
      }
      var got: seq<char>, i := [], 0;
      while i < n && nread != nwrite
        invariant 0 <= i <= n && Valid() && taken == old(taken) + i && |got| == i && got == written[old(taken)..taken]
        invariant nread == nwrite <==> taken == |written|
        decreases n - i
      {
        var c := Get();
        got := got + [c];
        i := i + 1;
        Compare(taken, |written|);
      }
      return Bytes(got);
    }

    /** pipeclose: the pipe is freed once both ends are closed. */
    method Close(writable: bool) returns (freed: bool)
      requires Valid()
      modifies this`readopen, this`writeopen
      ensures Valid() && freed == (!readopen && !writeopen)
      ensures writeopen == (old(writeopen) && !writable) && readopen == (old(readopen) && writable)
    {
      if writable {
        writeopen := false;
      } else {
        readopen := false;
      }
      freed := !readopen && !writeopen;
    }
  }

  /** Fewer than PIPESIZE apart, two bytes are in different places. */
  lemma Apart(k: nat, n: nat)
    requires k < n < k + PIPESIZE
    ensures k % PIPESIZE != n % PIPESIZE
  {
  }
}
