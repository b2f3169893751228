/** filewrite (file.c): a long write cut into operations small enough for the log. */
module FileWrite {
  import opened Blocks
  import opened FsLayout
  import FsState
  import opened FsWrite
  import opened FsLog
  import opened FileSystem
  import LogProtocol
  import opened Results

  /** `((MAXOPBLOCKS-1-1-2) / 2) * 512`. */
  const CHUNK := ((LogProtocol.MAXOPBLOCKS - 1 - 1 - 2) / 2) * 512

  /**
   * One chunk on a file without holes hands at most MAXOPBLOCKS distinct blocks to log_write, wherever it
   * starts and even if every allocation falls in a different free map block.
   */
  lemma ChunkFitsOperation(size: nat, off: nat, n: nat)
    requires off <= size && n <= CHUNK
    ensures LogBound(size, off, n) <= LogProtocol.MAXOPBLOCKS
  {
    var end := off + n;
    if n > 0 {
      assert Upto(off, end) - off / BSIZE <= if off % BSIZE == 0 then 3 else 4;
      assert Reached(size, end) - BlocksFor(size) <= 3;
      assert off % BSIZE != 0 ==> BlocksFor(size) >= off / BSIZE + 1;
    }
  }

  /** struct file, for an open inode. */
  class OpenFile {
    var off: nat

    constructor (off: nat)
      ensures this.off == off
    {
      this.off := off;
    }
  }

  /** Writing `src` in two goes is writing it at once. */
  lemma SplicedTwice(c: seq<Byte>, off: nat, src: seq<Byte>, i: nat, j: nat, mid: nat)
    requires off <= |c| && i <= j <= |src| && mid == off + i
    ensures Spliced(Spliced(c, off, src[..i]), mid, src[i..j]) == Spliced(c, off, src[..j])
  {
    var once := Spliced(c, off, src[..i]);
    assert once[..mid] == c[..off] + src[..i];
    assert src[..i] + src[i..j] == src[..j];
    if off + j <= |c| {
      assert once[mid + (j - i)..] == c[off + j..];
    }
  }

  lemma SameElsewhereTrans(v: FsState.View, mid: FsState.View, v': FsState.View, i: nat)
    requires Shaped(v.nodes) && Shaped(mid.nodes) && Shaped(v'.nodes)
    requires SameElsewhere(v, mid, i) && SameElsewhere(mid, v', i)
    ensures SameElsewhere(v, v', i)
  {
  }

  /** A write of a chunk is one operation. */
  lemma ChunkPerforms(sb: Super, v: FsState.View, v': FsState.View, i: nat, off: nat, piece: seq<Byte>,
                      trace: seq<Entry>)
    requires Good(sb, v) && Good(sb, v') && i < |v.nodes| && Accepted(v.nodes[i].size, off, |piece|) && |piece| <= CHUNK
    requires Wrote(sb, v, v', i, off, piece, {}, BlocksOf(trace)) && v'.store == Applied(v.store, trace)
    ensures Performs(sb, v, v', trace)
  {
    ChunkFitsOperation(v.nodes[i].size, off, |piece|);
    assert BlocksOf(trace) == WriteLogged(sb, v, v', i, off, |piece|);
  }

  /** begin_op, ilock, writei, iunlock, end_op: one operation, `trace` being what it logged. */
  method WriteOperation(fs: FileSystem, ip: Inode, f: OpenFile, piece: seq<Byte>)
    returns (r: Outcome<int, Reason>, ghost trace: seq<Entry>)
    requires fs.Valid(ip) && f.off < WORD && |piece| <= CHUNK
    modifies fs, ip, f
    ensures r.Panic? ==> r.why == OutOfBlocks
    ensures r.Panic? <==> Accepted(old(ip.d.size), old(f.off), |piece|)
                          && Short(fs.sb, old(fs.own), Needs(old(ip.d.size), old(f.off), |piece|))
    ensures r.Ok? ==> fs.Valid(ip) && r.value == if Accepted(old(ip.d.size), old(f.off), |piece|) then |piece| else -1
    ensures r.Ok? && r.value == -1 ==> fs.Now() == old(fs.Now()) && ip.d == old(ip.d) && f.off == old(f.off)
    ensures r.Ok? && r.value != -1 ==> f.off == old(f.off) + |piece|
    ensures r.Ok? && r.value != -1 ==>
              Wrote(fs.sb, old(fs.Now()), fs.Now(), ip.inum, old(f.off), piece, {}, BlocksOf(trace))
    ensures r.Ok? ==> Performs(fs.sb, old(fs.Now()), fs.Now(), trace)
  {
    ghost var v := fs.Now();
    fs.BeginOp();
    r := fs.Writei(ip, f.off, piece);
    trace := fs.trace;
    if r.Ok? {
      if r.value != -1 {
        ChunkPerforms(fs.sb, v, fs.Now(), ip.inum, f.off, piece, trace);
      }
      if r.value > 0 {
        f.off := f.off + r.value;
      }
    }
  }

  /** `done` bytes of `src` are in the file at `off`, and that is all that happened since `v0`. */
  ghost predicate Progress(sb: Super, v0: FsState.View, v: FsState.View, i: nat, off: nat, src: seq<Byte>, done: nat)
    requires Good(sb, v0) && Good(sb, v) && i < |v0.nodes| && done <= |src|
  {
    && SameElsewhere(v0, v, i)
    && (if done == 0 then v == v0
        else
          && Accepted(v0.nodes[i].size, off, done)
          && Filled(v0.store, v0.nodes[i]) && Filled(v.store, v.nodes[i])
          && Contents(v.store, v.nodes[i]) == Spliced(Contents(v0.store, v0.nodes[i]), off, src[..done]))
  }

  lemma ProgressStart(sb: Super, v: FsState.View, i: nat, off: nat, src: seq<Byte>)
    requires Good(sb, v) && i < |v.nodes|
    ensures Progress(sb, v, v, i, off, src, 0)
  {
  }

  /** A file that has taken `done` bytes takes the rest exactly if it fits. */
  lemma ProgressAccepts(sb: Super, v0: FsState.View, v: FsState.View, i: nat, off: nat, src: seq<Byte>, done: nat,
                        at: nat, n: nat)
    requires Good(sb, v0) && Good(sb, v) && i < |v0.nodes| && done <= |src| && at == off + done
    requires Progress(sb, v0, v, i, off, src, done)
    ensures |v.nodes| == |v0.nodes| && (Accepted(v.nodes[i].size, at, n) <==> Accepted(v0.nodes[i].size, off, done + n))
  {
    if done > 0 {
      assert |Contents(v.store, v.nodes[i])| == v.nodes[i].size;
    } else {
      assert Filled(v0.store, v0.nodes[i]);
    }
  }

  lemma ProgressStep(sb: Super, v0: FsState.View, v: FsState.View, v': FsState.View, i: nat, off: nat, src: seq<Byte>,
                     done: nat, next: nat, at: nat)
    requires Good(sb, v0) && Good(sb, v) && Good(sb, v') && i < |v0.nodes| && done < next <= |src| && at == off + done
    requires Progress(sb, v0, v, i, off, src, done) && |v.nodes| == |v'.nodes| == |v0.nodes| && SameElsewhere(v, v', i)
    requires Accepted(v0.nodes[i].size, off, next)
    requires Filled(v.store, v.nodes[i]) && Filled(v'.store, v'.nodes[i]) && at <= v.nodes[i].size
    requires Contents(v'.store, v'.nodes[i]) == Spliced(Contents(v.store, v.nodes[i]), at, src[done..next])
    ensures Progress(sb, v0, v', i, off, src, next)
  {
    SameElsewhereTrans(v0, v, v', i);
    var c := Contents(v0.store, v0.nodes[i]);
    if done == 0 {
      assert src[0..next] == src[..next];
    } else {
      SplicedTwice(c, off, src, done, next, at);
    }
  }

  /** Where the chunk after `done` of `n` bytes ends. */
  function NextChunk(n: nat, done: nat): (next: nat)
    requires done < n
    ensures done < next <= n && next - done <= CHUNK && (done % CHUNK == 0 ==> next % CHUNK == 0 || next == n)
  {
    if n - done > CHUNK then done + CHUNK else n
  }

  /**
   * After `k` of the operations `states[k]` has the first `at[k]` bytes of `src` in the file at `off`, whole
   * chunks of it, and nothing else changed.
   */
  ghost predicate InChunks(sb: Super, states: seq<FsState.View>, at: seq<nat>, i: nat, off: nat, src: seq<Byte>) {
    && |states| == |at| > 0 && (forall k | 0 <= k < |at| :: AtBoundary(sb, states[0], states[k], i, off, src, at[k]))
  }

  ghost predicate AtBoundary(sb: Super, v0: FsState.View, v: FsState.View, i: nat, off: nat, src: seq<Byte>,
                             done: nat) {
    && Good(sb, v0) && Good(sb, v) && i < |v0.nodes| && done <= |src| && (done % CHUNK == 0 || done == |src|)
    && Progress(sb, v0, v, i, off, src, done)
  }

  lemma InChunksMore(sb: Super, states: seq<FsState.View>, at: seq<nat>, i: nat, off: nat, src: seq<Byte>,
                     v: FsState.View, done: nat)
    requires InChunks(sb, states, at, i, off, src) && AtBoundary(sb, states[0], v, i, off, src, done)
    ensures InChunks(sb, states + [v], at + [done], i, off, src)
  {
    var states', at' := states + [v], at + [done];
    forall k | 0 <= k < |at'| ensures AtBoundary(sb, states'[0], states'[k], i, off, src, at'[k]) {
      if k < |at| {
        assert AtBoundary(sb, states[0], states[k], i, off, src, at[k]);
      }
    }
  }

  /** A chunk written brings the file to the next boundary. */
  lemma NextBoundary(sb: Super, v0: FsState.View, v: FsState.View, v': FsState.View, i: nat, off: nat, src: seq<Byte>,
                     done: nat, next: nat,
                     start: nat, log: set<nat>)
    requires AtBoundary(sb, v0, v, i, off, src, done) && done < next <= |src| && next == NextChunk(|src|, done)
      && start == off + done
    requires Good(sb, v') && |v.nodes| == |v0.nodes| && Accepted(v.nodes[i].size, start, next - done)
    requires Accepted(v0.nodes[i].size, off, next) && Wrote(sb, v, v', i, start, src[done..next], {}, log)
    ensures AtBoundary(sb, v0, v', i, off, src, next)
  {
    ProgressStep(sb, v0, v, v', i, off, src, done, next, start);
  }

  /** The operations so far: the file systems between them, what each logged, how much of `src` was written. */
  datatype Chunks = Chunks(states: seq<FsState.View>, traces: seq<seq<Entry>>, at: seq<nat>)

  /** They led from `v0` to `v`, which has `done` bytes of `src`. */
  ghost predicate Led(sb: Super, c: Chunks, v0: FsState.View, v: FsState.View, i: nat, off: nat, src: seq<Byte>,
                      done: nat) {
    && OneByOne(sb, c.states, c.traces) && InChunks(sb, c.states, c.at, i, off, src)
    && c.states[0] == v0 && c.states[|c.traces|] == v && c.at[|c.traces|] == done
  }

  function More(c: Chunks, v: FsState.View, trace: seq<Entry>, done: nat): Chunks {
    Chunks(c.states + [v], c.traces + [trace], c.at + [done])
  }

  lemma LedStart(sb: Super, v: FsState.View, i: nat, off: nat, src: seq<Byte>)
    requires Good(sb, v) && i < |v.nodes|
    ensures Led(sb, Chunks([v], [], [0]), v, v, i, off, src, 0)
  {
    ProgressStart(sb, v, i, off, src);
  }

  lemma LedFrom(sb: Super, c: Chunks, v0: FsState.View, v: FsState.View, i: nat, off: nat, src: seq<Byte>, done: nat)
    requires Led(sb, c, v0, v, i, off, src, done)
    ensures AtBoundary(sb, v0, v, i, off, src, done)
  {
    assert AtBoundary(sb, c.states[0], c.states[|c.traces|], i, off, src, c.at[|c.traces|]);
  }

  lemma LedMore(sb: Super, c: Chunks, v0: FsState.View, v: FsState.View, v': FsState.View, i: nat, off: nat,
                src: seq<Byte>, done: nat,
                trace: seq<Entry>, next: nat)
    requires Led(sb, c, v0, v, i, off, src, done) && Performs(sb, v, v', trace)
      && AtBoundary(sb, v0, v', i, off, src, next)
    ensures Led(sb, More(c, v', trace, next), v0, v', i, off, src, next)
  {
    OneMoreOperation(sb, c.states, c.traces, v', trace);
    InChunksMore(sb, c.states, c.at, i, off, src, v', next);
  }

  /** The operation after `done` bytes: it wrote the chunk up to `next`, or the chunk did not fit. */
  lemma LedOn(sb: Super, c: Chunks, v0: FsState.View, v: FsState.View, v': FsState.View, i: nat, off: nat,
              src: seq<Byte>, done: nat,
              next: nat, start: nat, trace: seq<Entry>, wrote: bool) returns (now: nat)
    requires Led(sb, c, v0, v, i, off, src, done) && done < |src| && next == NextChunk(|src|, done)
      && start == off + done
    requires Performs(sb, v, v', trace) && |v.nodes| == |v0.nodes| && i < |v.nodes|
    requires wrote == Accepted(v.nodes[i].size, start, next - done) == Accepted(v0.nodes[i].size, off, next)
    requires wrote ==> Wrote(sb, v, v', i, start, src[done..next], {}, BlocksOf(trace))
    requires !wrote ==> v' == v
    ensures now == if wrote then next else done
    ensures Led(sb, More(c, v', trace, now), v0, v', i, off, src, now)
  {
    LedFrom(sb, c, v0, v, i, off, src, done);
    now := if wrote then next else done;
    if wrote {
      NextBoundary(sb, v0, v, v', i, off, src, done, next, start, BlocksOf(trace));
    }
    LedMore(sb, c, v0, v, v', i, off, src, done, trace, now);
  }

  /** Whether the next chunk fits is known from the file as it was at the start. */
  lemma LedAccepts(sb: Super, c: Chunks, v0: FsState.View, v: FsState.View, i: nat, off: nat, src: seq<Byte>, done: nat,
                   next: nat,
                   start: nat)
    requires Led(sb, c, v0, v, i, off, src, done) && done < |src| && next == NextChunk(|src|, done)
      && start == off + done
    ensures |v.nodes| == |v0.nodes| && i < |v.nodes|
    ensures Accepted(v.nodes[i].size, start, next - done) == Accepted(v0.nodes[i].size, off, next)
  {
    LedFrom(sb, c, v0, v, i, off, src, done);
    ProgressAccepts(sb, v0, v, i, off, src, done, start, next - done);
  }

  /**
   * file.c:175 for an open inode: the whole of `src` goes into the file at the offset, or, if it would not fit,
   * the chunks that do; the offset moves by what was written. Every chunk is one operation that logs at most
   * MAXOPBLOCKS blocks; `chunks` are those operations, up to a panic if there is one. The panic "short
   * filewrite" cannot happen.
   */
  method Filewrite(fs: FileSystem, ip: Inode, f: OpenFile, src: seq<Byte>)
    returns (r: Outcome<int, Reason>, done: nat, ghost v: FsState.View, ghost chunks: Chunks)
    requires fs.Valid(ip) && f.off < WORD
    modifies fs, ip, f
    ensures Led(fs.sb, chunks, old(fs.Now()), v, ip.inum, old(f.off), src, done)
    ensures r.Panic? ==> r.why == OutOfBlocks
    ensures r.Ok? ==> done <= |src| && r.value == (if done == |src| then |src| else -1) && f.off == old(f.off) + done
    ensures r.Ok? ==> fs.Valid(ip) && v == fs.Now()
    ensures r.Ok? ==> (done == |src| <==> src == [] || Accepted(old(ip.d.size), old(f.off), |src|))
    ensures r.Ok? && done < |src| ==> !Accepted(old(ip.d.size), old(f.off), NextChunk(|src|, done))
  {
    ghost var v0, off := fs.Now(), f.off;
    done, r, v, chunks := 0, Ok(-1), v0, Chunks([v0], [], [0]);
    LedStart(fs.sb, v0, ip.inum, off, src);
    while done < |src|
      invariant fs.Valid(ip) && f.off == off + done && f.off < WORD && done <= |src| && v == fs.Now()
      invariant Led(fs.sb, chunks, v0, v, ip.inum, off, src, done)
    {
      var next := NextChunk(|src|, done);
      ghost var start := f.off;
      LedAccepts(fs.sb, chunks, v0, v, ip.inum, off, src, done, next, start);
      var w, trace := WriteOperation(fs, ip, f, src[done..next]);
      if w.Panic? {
        return w, done, v, chunks;
      }
      ghost var now := LedOn(fs.sb, chunks, v0, v, fs.Now(), ip.inum, off, src, done, next, start, trace,
        w.value != -1);
      v, chunks := fs.Now(), More(chunks, fs.Now(), trace, now);
      if w.value < 0 {
        break;
      }
      done := next;
    }
    r := Ok(if done == |src| then |src| else -1);
  }
}
