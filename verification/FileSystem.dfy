/** fs.c over the logical block store that bread and log_write give it. */
module FileSystem {
  import opened Blocks
  import opened FsLayout
  import opened FsState
  import opened FsWrite
  import opened FsLog
  import opened FsTrunc
  import opened Results

  datatype Reason = OutOfBlocks | FreeingFreeBlock | OutOfRange

  /** An in-memory inode; `d` is its copy of the disk inode. */
  class Inode {
    const inum: nat
    var d: Dinode

    constructor (inum: nat, d: Dinode)
      ensures this.inum == inum && this.d == d
    {
      this.inum, this.d := inum, d;
    }
  }

  class FileSystem {
    const sb: Super
    var store: Store

    // Every inode as the kernel holds it and who owns each data block.
    ghost var nodes: seq<Dinode>
    ghost var own: Owners

    // The store at the last begin_op, the calls of log_write since then and the blocks they were for.
    ghost var origin: Store
    ghost var trace: seq<Entry>
    ghost var logged: set<nat>

    constructor (sb: Super, store: Store, ghost nodes: seq<Dinode>, ghost own: Owners)
      ensures this.sb == sb && Now() == View(store, nodes, own) && Traced() && trace == [] && origin == store
        && logged == {}
    {
      this.sb, this.store, this.nodes, this.own := sb, store, nodes, own;
      origin, trace, logged := store, [], {};
    }

    ghost function Now(): View
      reads this
    {
      View(store, nodes, own)
    }

    /** The store changed by log_write only. */
    ghost predicate Traced()
      reads this
    {
      store == Applied(origin, trace) && logged == BlocksOf(trace)
    }

    ghost predicate Opened(ip: Inode)
      reads this, ip
    {
      ip.inum < sb.ninodes && Consistent(sb, Now(), ip.inum) && nodes[ip.inum] == ip.d
    }

    /** The state between operations, `ip` being an inode the kernel has read. */
    ghost predicate Valid(ip: Inode)
      reads this, ip
    {
      Good(sb, Now()) && ip.inum < sb.ninodes && nodes[ip.inum] == ip.d
    }

    /** begin_op: what log_write is called for from here on is one operation. */
    ghost method BeginOp()
      modifies this`origin, this`trace, this`logged
      ensures Traced() && origin == store && trace == [] && logged == {}
    {
      origin, trace, logged := store, [], {};
    }

    method LogWrite(b: nat, data: Block)
      requires b < |store| && Traced()
      modifies this`store, this`logged, this`trace
      ensures Traced() && store == Put(old(store), b, data) && logged == old(logged) + {b}
    {
      OneMoreEntry(origin, trace, b, data);
      store := store[b := data];
      logged := logged + {b};
      trace := trace + [Entry(b, data)];
    }

    /** fs.c:57: first fit over the free map; false when it panics, every block being in use. */
    method Balloc() returns (ok: bool, r: nat)
      requires sb.Valid() && |store| == sb.size && Traced()
      modifies this`store, this`logged, this`trace
      ensures Traced()
      ensures ok ==> r < sb.size && !Marked(sb, old(store), r) && store == Allocated(sb, old(store), r)
      ensures ok ==> (forall c | 0 <= c < r :: Marked(sb, old(store), c))
      ensures ok ==> logged == old(logged) + {sb.BitmapBlock(r), r}
      ensures !ok ==> store == old(store) && logged == old(logged) && AllMarked(sb, store)
    {
      var b := 0;
      while b < sb.size
        invariant b % BPB == 0 && store == old(store) && logged == old(logged) && Traced()
        invariant forall c | 0 <= c < b && c < sb.size :: Marked(sb, store, c)
      {
        var bp := store[sb.BitmapBlock(b)];
        var bi := 0;
        while bi < BPB && b + bi < sb.size
          invariant bi <= BPB && store == old(store) && logged == old(logged) && Traced()
          invariant forall c | 0 <= c < b + bi && c < sb.size :: Marked(sb, store, c)
        {
          assert sb.BitmapBlock(b + bi) == sb.BitmapBlock(b) && (b + bi) % BPB == bi;
          if !Bit(bp, bi) {
            LogWrite(sb.BitmapBlock(b), SetBit(bp, bi));
            LogWrite(b + bi, Zeroes());
            return true, b + bi;
          }
          bi := bi + 1;
        }
        b := b + BPB;
      }
      return false, 0;
    }

    /** fs.c:81. */
    method Bfree(b: nat) returns (r: Outcome<(), Reason>)
      requires sb.Valid() && |store| == sb.size && b < sb.size && Traced()
      modifies this`store, this`logged, this`trace
      ensures Traced()
      ensures r == if Marked(sb, old(store), b) then Ok(()) else Panic(FreeingFreeBlock)
      ensures r.Ok? ==> store == Freed(sb, old(store), b) && logged == old(logged) + {sb.BitmapBlock(b)}
    {
      var bp := store[sb.BitmapBlock(b)];
      if !Bit(bp, b % BPB) {
        return Panic(FreeingFreeBlock);
      }
      LogWrite(sb.BitmapBlock(b), ClearBit(bp, b % BPB));
      return Ok(());
    }

    /** Give empty slot `s` of the inode itself a fresh zeroed block. */
    method AllocInInode(ip: Inode, s: nat) returns (r: Outcome<nat, Reason>)
      requires sb.Valid() && |store| == sb.size && ip.inum < |nodes| && nodes[ip.inum] == ip.d && s < |ip.d.addrs|
        && Traced()
      modifies this`store, this`nodes, this`own, this`logged, this`trace, ip
      ensures Traced()
      ensures r.Panic? ==> r.why == OutOfBlocks && AllMarked(sb, old(store))
      ensures r.Ok? ==> r.value < sb.size && !Marked(sb, old(store), r.value)
      ensures r.Ok? ==> Now() == FillInode(sb, old(Now()), ip.inum, s, r.value) && ip.d == nodes[ip.inum]
      ensures r.Ok? ==> logged == old(logged) + {sb.BitmapBlock(r.value), r.value}
    {
      var ok, b := Balloc();
      if !ok {
        return Panic(OutOfBlocks);
      }
      ip.d := ip.d.(addrs := ip.d.addrs[s := b]);
      nodes, own := nodes[ip.inum := ip.d], Claim(own, b, ip.inum, s);
      return Ok(b);
    }

    /** Give empty entry `k` of the inode's indirect block a fresh zeroed block. */
    method AllocInIndirect(ip: Inode, k: nat) returns (r: Outcome<nat, Reason>)
      requires sb.Valid() && |store| == sb.size && k < NINDIRECT && NDIRECT < |ip.d.addrs|
        && ip.d.addrs[NDIRECT] < sb.size
      requires Traced()
      modifies this`store, this`nodes, this`own, this`logged, this`trace
      ensures Traced()
      ensures r.Panic? ==> r.why == OutOfBlocks && AllMarked(sb, old(store))
      ensures r.Ok? ==> r.value < sb.size && !Marked(sb, old(store), r.value)
      ensures r.Ok? ==> Now() == FillIndirect(sb, old(Now()), ip.inum, k, r.value, ip.d.addrs[NDIRECT])
      ensures r.Ok? ==> logged == old(logged) + {sb.BitmapBlock(r.value), r.value, ip.d.addrs[NDIRECT]}
    {
      var ok, b := Balloc();
      if !ok {
        return Panic(OutOfBlocks);
      }
      LogWrite(ip.d.addrs[NDIRECT], PutWord(store[ip.d.addrs[NDIRECT]], k, b));
      own := Claim(own, b, ip.inum, NDIRECT + 1 + k);
      return Ok(b);
    }

    /** A new block past the direct ones, the indirect block being there. */
    method BmapEntry(ip: Inode, bn: nat, k: nat) returns (r: Outcome<nat, Reason>)
      requires Opened(ip) && bn == NDIRECT + k && k < NINDIRECT && ip.d.addrs[NDIRECT] != 0 && Traced()
      requires Ref(store, ip.d, SlotOf(bn)) == 0
      modifies this`store, this`nodes, this`own, this`logged, this`trace
      ensures Traced()
      ensures r.Panic? ==> r.why == OutOfBlocks && Short(sb, old(own), 1)
      ensures r.Ok? ==> Got(sb, old(Now()), Now(), ip.inum, bn, r.value, old(logged), logged) && nodes[ip.inum] == ip.d
    {
      ghost var v := Now();
      IndirectPointer(sb, v, ip.inum, ip.inum);
      r := AllocInIndirect(ip, k);
      if r.Ok? {
        GotEntry(sb, v, ip.inum, bn, k, NDIRECT + 1 + k, r.value, ip.d.addrs[NDIRECT], old(logged));
      } else {
        MarkedIsShort(sb, v, ip.inum);
      }
    }

    /** The second half of bmap: a block past the direct ones, the indirect block being there. */
    method BmapIndirect(ip: Inode, bn: nat) returns (r: Outcome<nat, Reason>)
      requires Opened(ip) && NDIRECT <= bn < MAXFILE && ip.d.addrs[NDIRECT] != 0 && Traced()
      modifies this`store, this`nodes, this`own, this`logged, this`trace
      ensures Traced()
      ensures r.Panic? ==> r.why == OutOfBlocks && Short(sb, old(own), Takes(old(store), old(ip.d), bn))
      ensures r.Ok? ==> Got(sb, old(Now()), Now(), ip.inum, bn, r.value, old(logged), logged) && nodes[ip.inum] == ip.d
      ensures old(Ref(store, ip.d, SlotOf(bn))) != 0 ==> r.Ok?
    {
      IndirectPointer(sb, Now(), ip.inum, ip.inum);
      var k := bn - NDIRECT;
      var addr := Word(store[ip.d.addrs[NDIRECT]], k);
      assert addr == Ref(store, ip.d, SlotOf(bn));
      if addr == 0 {
        r := BmapEntry(ip, bn, k);
      } else {
        GotAlready(sb, Now(), ip.inum, bn, addr, logged);
        r := Ok(addr);
      }
    }

    /** bmap of a direct block. */
    method BmapDirect(ip: Inode, bn: nat) returns (r: Outcome<nat, Reason>)
      requires Opened(ip) && bn < NDIRECT && Traced()
      modifies this`store, this`nodes, this`own, this`logged, this`trace, ip
      ensures Traced()
      ensures r.Panic? ==> r.why == OutOfBlocks && Short(sb, old(own), Takes(old(store), old(ip.d), bn))
      ensures r.Ok? ==> Got(sb, old(Now()), Now(), ip.inum, bn, r.value, old(logged), logged) && nodes[ip.inum] == ip.d
      ensures old(ip.d.addrs[bn]) != 0 ==> r.Ok?
    {
      ghost var v := Now();
      assert Ref(store, ip.d, SlotOf(bn)) == ip.d.addrs[bn];
      if ip.d.addrs[bn] != 0 {
        GotAlready(sb, v, ip.inum, bn, ip.d.addrs[bn], logged);
        return Ok(ip.d.addrs[bn]);
      }
      r := AllocInInode(ip, bn);
      if r.Ok? {
        GotDirect(sb, v, ip.inum, bn, r.value, old(logged));
      } else {
        MarkedIsShort(sb, v, ip.inum);
      }
    }

    /**
     * fs.c:373: the disk block of file block `bn`, allocated if there was none, and the indirect block with it.
     * It panics past the largest file, and for want of free blocks.
     */
    method Bmap(ip: Inode, bn: nat) returns (r: Outcome<nat, Reason>)
      requires Opened(ip) && Traced()
      modifies this`store, this`nodes, this`own, this`logged, this`trace, ip
      ensures Traced()
      ensures bn >= MAXFILE ==> r == Panic(OutOfRange)
      ensures r.Panic? && bn < MAXFILE ==> r.why == OutOfBlocks && Short(sb, old(own), Takes(old(store), old(ip.d), bn))
      ensures r.Ok? ==> bn < MAXFILE && Got(sb, old(Now()), Now(), ip.inum, bn, r.value, old(logged), logged)
      ensures r.Ok? ==> nodes[ip.inum] == ip.d
      ensures bn < MAXFILE && old(Ref(store, ip.d, SlotOf(bn))) != 0 ==> r.Ok?
    {
      if bn < NDIRECT {
        r := BmapDirect(ip, bn);
      } else if bn < MAXFILE {
        r := BmapBig(ip, bn);
      } else {
        r := Panic(OutOfRange);
      }
    }

    /** The indirect block itself. */
    method AllocIndirectBlock(ip: Inode) returns (r: Outcome<nat, Reason>)
      requires Opened(ip) && ip.d.addrs[NDIRECT] == 0 && Traced()
      modifies this`store, this`nodes, this`own, this`logged, this`trace, ip
      ensures Traced()
      ensures r.Panic? ==> r.why == OutOfBlocks && Short(sb, old(own), 1)
      ensures r.Ok? ==> r.value < sb.size && !Marked(sb, old(store), r.value) && Opened(ip) && ip.d.addrs[NDIRECT] != 0
      ensures r.Ok? ==> Now() == FillInode(sb, old(Now()), ip.inum, NDIRECT, r.value) && r.value !in old(own)
      ensures r.Ok? ==> logged == old(logged) + {sb.BitmapBlock(r.value), r.value}
    {
      ghost var v := Now();
      r := AllocInInode(ip, NDIRECT);
      if r.Ok? {
        InodeFilled(sb, v, ip.inum, NDIRECT, r.value);
        FreeBlock(sb, v, ip.inum, r.value);
      } else {
        MarkedIsShort(sb, v, ip.inum);
      }
    }

    /** bmap past the direct blocks, the indirect block not being there yet. */
    method BmapFirst(ip: Inode, bn: nat) returns (r: Outcome<nat, Reason>)
      requires Opened(ip) && NDIRECT <= bn < MAXFILE && ip.d.addrs[NDIRECT] == 0 && Traced()
      modifies this`store, this`nodes, this`own, this`logged, this`trace, ip
      ensures Traced()
      ensures r.Panic? ==> r.why == OutOfBlocks && Short(sb, old(own), 2)
      ensures r.Ok? ==> Got(sb, old(Now()), Now(), ip.inum, bn, r.value, old(logged), logged) && nodes[ip.inum] == ip.d
    {
      ghost var v := Now();
      var a := AllocIndirectBlock(ip);
      if a.Panic? {
        return a;
      }
      ghost var log1 := logged;
      IndirectTaken(sb, v, ip.inum, bn, a.value);
      r := BmapIndirect(ip, bn);
      if r.Ok? {
        GotAfterIndirect(sb, v, ip.inum, bn, a.value, Now(), r.value, old(logged), log1, logged);
      }
    }

    /** bmap past the direct blocks. */
    method BmapBig(ip: Inode, bn: nat) returns (r: Outcome<nat, Reason>)
      requires Opened(ip) && NDIRECT <= bn < MAXFILE && Traced()
      modifies this`store, this`nodes, this`own, this`logged, this`trace, ip
      ensures Traced()
      ensures r.Panic? ==> r.why == OutOfBlocks && Short(sb, old(own), Takes(old(store), old(ip.d), bn))
      ensures r.Ok? ==> Got(sb, old(Now()), Now(), ip.inum, bn, r.value, old(logged), logged) && nodes[ip.inum] == ip.d
      ensures old(Ref(store, ip.d, SlotOf(bn))) != 0 ==> r.Ok?
    {
      if ip.d.addrs[NDIRECT] != 0 {
        r := BmapIndirect(ip, bn);
      } else {
        r := BmapFirst(ip, bn);
      }
    }

    /** bmap of a block that is there changes nothing and cannot panic. */
    method BmapMapped(ip: Inode, bn: nat) returns (b: nat)
      requires Opened(ip) && bn < MAXFILE && Ref(store, ip.d, SlotOf(bn)) != 0 && Traced()
      modifies this`store, this`nodes, this`own, this`logged, this`trace, ip
      ensures Traced()
      ensures Now() == old(Now()) && logged == old(logged) && ip.d == old(ip.d)
      ensures b == Ref(store, ip.d, SlotOf(bn)) && b < sb.size
    {
      var r := Bmap(ip, bn);
      b := r.value;
      GotNothing(sb, old(Now()), Now(), ip.inum, bn, b, old(logged), logged);
    }

    /** fs.c:221. */
    method Iupdate(ip: Inode)
      requires sb.Valid() && |store| == sb.size && |nodes| == sb.ninodes && Shaped(nodes) && ip.inum < |nodes|
      requires nodes[ip.inum] == ip.d && Traced()
      modifies this`store, this`logged, this`trace
      ensures Traced()
      ensures Now() == Saved(sb, old(Now()), ip.inum) && logged == old(logged) + {sb.InodeBlock(ip.inum)}
    {
      var b := sb.InodeBlock(ip.inum);
      LogWrite(b, PutDinode(store[b], ip.inum % IPB, ip.d));
    }

    /** One round of readi's loop. */
    method ReadPiece(ip: Inode, off: nat, end: nat) returns (piece: seq<Byte>)
      requires Valid(ip) && Traced() && off < end <= ip.d.size && off % BSIZE + (end - off) <= BSIZE
      modifies this`store, this`nodes, this`own, this`logged, this`trace, ip
      ensures Traced()
      ensures Now() == old(Now()) && logged == old(logged) && ip.d == old(ip.d)
      ensures ip.d.Fits() && ip.d.size <= MAXFILE * BSIZE && piece == Contents(store, ip.d)[off..end]
    {
      BelowSize(sb, Now(), ip.inum, off);
      var bn := off / BSIZE;
      var b := BmapMapped(ip, bn);
      PieceRead(store, ip.d, off, end, b);
      piece := store[b][off % BSIZE..off % BSIZE + (end - off)];
    }

    /**
     * fs.c:453 for files and directories: the slice of the contents, clipped at the end of the file. It never
     * panics and writes nothing. C's `off + n < off` is `off + n` not fitting 32 bits.
     */
    method Readi(ip: Inode, start: nat, count: nat) returns (n: int, dst: seq<Byte>)
      requires Valid(ip) && Traced() && start < WORD && count < WORD
      modifies this`store, this`nodes, this`own, this`logged, this`trace, ip
      ensures Traced()
      ensures Now() == old(Now()) && logged == old(logged) && ip.d == old(ip.d)
      ensures start > ip.d.size || start + count >= WORD ==> n == -1 && dst == []
      ensures start <= ip.d.size && start + count < WORD ==>
                var end := if start + count > ip.d.size then ip.d.size else start + count;
                n == end - start && dst == Contents(store, ip.d)[start..end]
    {
      if start > ip.d.size || start + count >= WORD {
        return -1, [];
      }
      n := if start + count > ip.d.size then ip.d.size - start else count;
      var end := start + n;
      dst := ReadTo(ip, start, end);
    }

    /** readi's loop. */
    method ReadTo(ip: Inode, start: nat, end: nat) returns (dst: seq<Byte>)
      requires Valid(ip) && Traced() && start <= end <= ip.d.size
      modifies this`store, this`nodes, this`own, this`logged, this`trace, ip
      ensures Traced()
      ensures Now() == old(Now()) && logged == old(logged) && ip.d == old(ip.d)
      ensures ip.d.Fits() && ip.d.size <= MAXFILE * BSIZE && dst == Contents(store, ip.d)[start..end]
    {
      dst := [];
      ghost var c := Contents(store, ip.d);
      var off := start;
      while off < end
        invariant Traced()
        invariant start <= off <= end && Now() == old(Now()) && ip.d == old(ip.d) && logged == old(logged)
        invariant dst == c[start..off]
      {
        var m := if end - off < BSIZE - off % BSIZE then end - off else BSIZE - off % BSIZE;
        var next := off + m;
        var piece := ReadPiece(ip, off, next);
        SlicesJoin(c, start, off, next);
        dst := dst + piece;
        off := next;
      }
    }

    /**
     * One round of writei's loop: map file block `bn`, copy `piece` in, log_write. `v1` and `log1` are what
     * bmap left.
     */
    method WriteRound(ip: Inode, bn: nat, at: nat, piece: seq<Byte>)
      returns (r: Outcome<nat, Reason>, ghost v1: View, ghost log1: set<nat>)
      requires Opened(ip) && bn < MAXFILE && at + |piece| <= BSIZE && Traced()
      modifies this`store, this`nodes, this`own, this`logged, this`trace, ip
      ensures Traced()
      ensures r.Panic? ==> r.why == OutOfBlocks && Short(sb, old(own), Takes(old(store), old(ip.d), bn))
      ensures r.Ok? ==> Got(sb, old(Now()), v1, ip.inum, bn, r.value, old(logged), log1) && r.value < |v1.store|
      ensures r.Ok? ==> Now() == Step(v1, r.value, at, piece) && logged == log1 + {r.value} && v1.nodes[ip.inum] == ip.d
    {
      r := Bmap(ip, bn);
      v1, log1 := Now(), logged;
      if r.Ok? {
        LogWrite(r.value, Patch(store[r.value], at, piece));
      }
    }

    /** writei's loop. */
    method WriteAll(ip: Inode, off: nat, src: seq<Byte>, last: nat) returns (r: Outcome<(), Reason>, ghost tally: Tally)
      requires Valid(ip) && Accepted(ip.d.size, off, |src|) && last == off + |src| && Traced()
      modifies this`store, this`nodes, this`own, this`logged, this`trace, ip
      ensures Traced()
      ensures r.Panic? ==> r.why == OutOfBlocks && Short(sb, old(own), Taken(old(ip.d.size), last))
      ensures r.Ok? ==> Reaches(sb, old(Now()), Now(), ip.inum, off, src, last, tally, old(logged), logged)
      ensures r.Ok? ==> nodes[ip.inum] == ip.d && tally == TallyAt(old(ip.d.size), off, last)
    {
      ghost var v0, size, log0 := Now(), ip.d.size, logged;
      tally := TallyAt(size, off, off);
      TallyStart(size, off);
      ReachesStart(sb, v0, ip.inum, off, src, tally, log0);
      var end := off;
      while end < last
        invariant off <= end <= last && (end == off || end == last || end % BSIZE == 0)
        invariant Reaches(sb, v0, Now(), ip.inum, off, src, end, tally, log0, logged) && nodes[ip.inum] == ip.d
        invariant Traced() && tally == TallyAt(size, off, end)
      {
        var stop, bn := NextStop(end, last), end / BSIZE;
        var at, piece := end % BSIZE, src[end - off..stop - off];
        ghost var v, log, next := Now(), logged, TallyAt(size, off, stop);
        RoundCounts(v, ip.inum, size, off, src, end, stop, bn, tally, next);
        var b, v1, log1 := WriteRound(ip, bn, at, piece);
        if b.Panic? {
          RoundShort(sb, v0, v, ip.inum, bn, tally, next);
          TakenGrows(size, stop, last);
          return Panic(b.why), tally;
        }
        ReachesStep(sb, v0, v, v1, Now(), ip.inum, off, src, end, stop, bn, b.value, at, piece, tally, next, log0, log,
          log1);
        end, tally := stop, next;
      }
      r := Ok(());
    }

    /** `ip->size = off; iupdate(ip);` */
    method Grow(ip: Inode, size: nat)
      requires Opened(ip) && size < WORD && Traced()
      modifies this`store, this`nodes, this`own, this`logged, this`trace, ip
      ensures Traced()
      ensures Grown(sb, old(Now()), Now(), ip.inum, size) && ip.inum < |nodes| && nodes[ip.inum] == ip.d
      ensures ip.d == old(ip.d).(size := size) && logged == old(logged) + {sb.InodeBlock(ip.inum)}
    {
      ghost var v := Now();
      ip.d := ip.d.(size := size);
      nodes := nodes[ip.inum := ip.d];
      ResizedKeeps(sb, v, ip.inum, size);
      SavedFlushes(sb, Now(), ip.inum);
      Iupdate(ip);
    }

    /** The end of writei once the loop is through: `if(n > 0 && off > ip->size)`. */
    method FinishWrite(ip: Inode, n: nat, last: nat)
      requires Opened(ip) && last < WORD && Traced()
      modifies this`store, this`nodes, this`own, this`logged, this`trace, ip
      ensures Traced() && Ended(sb, old(Now()), Now(), ip.inum, n, last) && ip.inum < |nodes| && nodes[ip.inum] == ip.d
      ensures logged == old(logged) + if n > 0 && last > old(ip.d.size) then {sb.InodeBlock(ip.inum)} else {}
    {
      if n > 0 && last > ip.d.size {
        Grow(ip, last);
      }
    }

    /** writei past its tests. */
    method WriteAccepted(ip: Inode, off: nat, src: seq<Byte>, last: nat) returns (r: Outcome<(), Reason>)
      requires Valid(ip) && Accepted(ip.d.size, off, |src|) && last == off + |src| && Traced()
      modifies this`store, this`nodes, this`own, this`logged, this`trace, ip
      ensures Traced()
      ensures r.Panic? ==> r.why == OutOfBlocks
      ensures r.Panic? <==> Short(sb, old(own), Needs(old(ip.d.size), off, |src|))
      ensures r.Ok? ==> Valid(ip) && Wrote(sb, old(Now()), Now(), ip.inum, off, src, old(logged), logged)
    {
      ghost var v0, log0 := Now(), logged;
      ghost var tally;
      r, tally := WriteAll(ip, off, src, last);
      if r.Ok? {
        ghost var v, log := Now(), logged;
        OwnersFit(sb, v, ip.inum);
        FinishWrite(ip, |src|, last);
        WriteDone(sb, v0, v, Now(), ip.inum, off, src, last, tally, log0, log, logged);
      }
    }

    /**
     * fs.c:482 for files and directories: the bytes go over the old ones from `off` on, the file growing if it
     * must, and no other file changes. It refuses to start past the end or to end past the largest file, and
     * panics exactly if fewer blocks are free than the file has to take. The blocks handed to log_write are
     * exactly WriteLogged: the file blocks written, what was taken for them, and the inode if the file grew.
     */
    method Writei(ip: Inode, off: nat, src: seq<Byte>) returns (r: Outcome<int, Reason>)
      requires Valid(ip) && off < WORD && |src| < WORD && Traced()
      modifies this`store, this`nodes, this`own, this`logged, this`trace, ip
      ensures Traced()
      ensures r.Panic? ==> r.why == OutOfBlocks
      ensures r.Panic? <==> Accepted(old(ip.d.size), off, |src|)
                            && Short(sb, old(own), Needs(old(ip.d.size), off, |src|))
      ensures r.Ok? ==> Valid(ip) && r.value == if Accepted(old(ip.d.size), off, |src|) then |src| else -1
      ensures r.Ok? && r.value == -1 ==> Now() == old(Now()) && logged == old(logged) && ip.d == old(ip.d)
      ensures r.Ok? && r.value != -1 ==> Wrote(sb, old(Now()), Now(), ip.inum, off, src, old(logged), logged)
    {
      assert Filled(store, nodes[ip.inum]);
      if off > ip.d.size || off + |src| >= WORD || off + |src| > MAXFILE * BSIZE {
        return Ok(-1);
      }
      var last := off + |src|;
      var all := WriteAccepted(ip, off, src, last);
      r := if all.Ok? then Ok(|src|) else Panic(all.why);
    }

    /** bfree of one of the blocks still to be freed: the panic cannot happen. */
    method FreeOne(b: nat, ghost i: nat, ghost extra: set<nat>)
      requires Loose(sb, Now(), i, extra) && b in extra && Traced()
      modifies this`store, this`logged, this`trace
      ensures Traced() && logged == old(logged) + {sb.BitmapBlock(b)}
      ensures Loose(sb, Now(), i, extra - {b})
      ensures forall c | sb.DataStart() <= c < sb.size :: store[c] == old(store)[c]
    {
      FreedLoose(sb, Now(), i, extra, b);
      var r := Bfree(b);
    }

    /** One round of the loop at fs.c:414. `v0` is the state before the call. */
    method FreeSlot(ip: Inode, ghost v0: View, a: nat, ghost next: nat)
      requires Consistent(sb, v0, ip.inum) && ip.inum < |v0.nodes| && a < NDIRECT && next == a + 1 && a < |ip.d.addrs|
      requires ip.d.addrs[a] == v0.nodes[ip.inum].addrs[a] && Loose(sb, Now(), ip.inum, Rest(v0.own, ip.inum, a, true))
        && Traced()
      modifies this`store, this`logged, this`trace, ip
      ensures Traced() && logged == Freeing(sb, v0.own, ip.inum, a, next, old(logged))
      ensures Loose(sb, Now(), ip.inum, Rest(v0.own, ip.inum, next, true))
      ensures ip.d == old(ip.d).(addrs := old(ip.d.addrs)[a := 0])
      ensures forall c | sb.DataStart() <= c < sb.size :: store[c] == old(store)[c]
    {
      RestStep(sb, v0, ip.inum, a, next, ip.d.addrs[a]);
      FreeingOne(sb, v0.own, ip.inum, a, next, ip.d.addrs[a], logged);
      if ip.d.addrs[a] != 0 {
        FreeOne(ip.d.addrs[a], ip.inum, Rest(v0.own, ip.inum, a, true));
        ip.d := ip.d.(addrs := ip.d.addrs[a := 0]);
      } else {
        assert ip.d.addrs == ip.d.addrs[a := 0];
      }
    }

    /** The loop at fs.c:414 over the direct blocks. */
    method FreeDirect(ip: Inode, ghost v0: View)
      requires Consistent(sb, v0, ip.inum) && ip.inum < |v0.nodes| && v0.nodes[ip.inum] == ip.d
        && Now() == Cleared(v0, ip.inum)
      requires Traced()
      modifies this`store, this`logged, this`trace, ip
      ensures Traced() && logged == Freeing(sb, v0.own, ip.inum, 0, NDIRECT, old(logged))
      ensures Loose(sb, Now(), ip.inum, Rest(v0.own, ip.inum, NDIRECT, true))
      ensures ip.d == old(ip.d).(addrs := ip.d.addrs)
      ensures |ip.d.addrs| == NDIRECT + 1 && ip.d.addrs[NDIRECT] == old(ip.d.addrs[NDIRECT])
      ensures forall a | 0 <= a < NDIRECT :: ip.d.addrs[a] == 0
      ensures forall c | sb.DataStart() <= c < sb.size :: store[c] == v0.store[c]
    {
      ClearedLoose(sb, v0, ip.inum);
      FreeingNone(sb, v0.own, ip.inum, 0, logged);
      var a := 0;
      while a < NDIRECT
        invariant 0 <= a <= NDIRECT && Loose(sb, Now(), ip.inum, Rest(v0.own, ip.inum, a, true))
        invariant Traced() && logged == Freeing(sb, v0.own, ip.inum, 0, a, old(logged))
        invariant ip.d == old(ip.d).(addrs := ip.d.addrs)
        invariant |ip.d.addrs| == NDIRECT + 1 && forall c | 0 <= c <= NDIRECT ::
                  ip.d.addrs[c] == if c < a then 0 else old(ip.d.addrs[c])
        invariant forall c | sb.DataStart() <= c < sb.size :: store[c] == v0.store[c]
      {
        var next := a + 1;
        FreeSlot(ip, v0, a, next);
        FreeingStep(sb, v0.own, ip.inum, 0, a, next, old(logged));
        a := next;
      }
    }

    /** The loop at fs.c:424 over the indirect block's entries. */
    method FreeEntries(ip: Inode, ghost v0: View, bp: Block)
      requires Consistent(sb, v0, ip.inum) && ip.inum < |v0.nodes|
      requires var a := v0.nodes[ip.inum].addrs[NDIRECT]; 0 < a < |v0.store| && bp == v0.store[a]
      requires Loose(sb, Now(), ip.inum, Rest(v0.own, ip.inum, NDIRECT + 1, true)) && Traced()
      modifies this`store, this`logged, this`trace
      ensures Traced() && logged == Freeing(sb, v0.own, ip.inum, NDIRECT + 1, NSLOTS, old(logged))
      ensures Loose(sb, Now(), ip.inum, Rest(v0.own, ip.inum, NSLOTS, true))
      ensures forall c | sb.DataStart() <= c < sb.size :: store[c] == old(store)[c]
    {
      ghost var first, s := NDIRECT + 1, NDIRECT + 1;
      FreeingNone(sb, v0.own, ip.inum, first, logged);
      for j := 0 to NINDIRECT
        invariant s == NDIRECT + 1 + j && first == NDIRECT + 1
        invariant Loose(sb, Now(), ip.inum, Rest(v0.own, ip.inum, s, true))
        invariant Traced() && logged == Freeing(sb, v0.own, ip.inum, first, s, old(logged))
        invariant forall c | sb.DataStart() <= c < sb.size :: store[c] == old(store)[c]
      {
        var b := Word(bp, j);
        ghost var next := s + 1;
        assert b == Ref(v0.store, v0.nodes[ip.inum], s);
        RestStep(sb, v0, ip.inum, s, next, b);
        FreeingOne(sb, v0.own, ip.inum, s, next, b, logged);
        if b != 0 {
          FreeOne(b, ip.inum, Rest(v0.own, ip.inum, s, true));
        }
        FreeingStep(sb, v0.own, ip.inum, first, s, next, old(logged));
        s := next;
      }
    }

    /** fs.c:421: the indirect block and what it lists. */
    method FreeIndirect(ip: Inode, ghost v0: View)
      requires Consistent(sb, v0, ip.inum) && ip.inum < |v0.nodes| && |ip.d.addrs| == NDIRECT + 1
      requires ip.d.addrs[NDIRECT] == v0.nodes[ip.inum].addrs[NDIRECT]
      requires Loose(sb, Now(), ip.inum, Rest(v0.own, ip.inum, NDIRECT, true))
      requires forall c | sb.DataStart() <= c < sb.size :: store[c] == v0.store[c]
      requires Traced()
      modifies this`store, this`logged, this`trace, ip
      ensures Traced() && logged == old(logged) + Bits(sb, Rest(v0.own, ip.inum, NDIRECT, true))
      ensures Loose(sb, Now(), ip.inum, {})
      ensures ip.d == old(ip.d).(addrs := old(ip.d.addrs)[NDIRECT := 0])
      ensures forall c | sb.DataStart() <= c < sb.size :: store[c] == v0.store[c]
    {
      RestLast(sb, v0, ip.inum);
      var a := ip.d.addrs[NDIRECT];
      if a != 0 {
        IndirectPointer(sb, v0, ip.inum, ip.inum);
        RestIndirect(v0.own, ip.inum);
        var bp := store[a];
        FreeEntries(ip, v0, bp);
        FreeOne(a, ip.inum, Rest(v0.own, ip.inum, NSLOTS, true));
        FreeingIndirect(sb, v0.own, ip.inum, a, old(logged));
        ip.d := ip.d.(addrs := ip.d.addrs[NDIRECT := 0]);
      } else {
        assert ip.d.addrs == ip.d.addrs[NDIRECT := 0];
      }
    }

    /**
     * fs.c:408: the file is empty, the free map lost exactly the blocks it owned, no other file changed. The
     * panic "freeing free block" cannot happen. Logged are exactly the inode and the free map blocks of the
     * blocks it owned.
     */
    method Itrunc(ip: Inode)
      requires Valid(ip) && Traced()
      modifies this`store, this`nodes, this`own, this`logged, this`trace, ip
      ensures Traced()
      ensures logged == old(logged) + TruncLogged(sb, old(own), ip.inum)
      ensures Valid(ip) && ip.d == old(ip.d).(addrs := NoAddrs(), size := 0)
      ensures SameElsewhere(old(Now()), Now(), ip.inum)
      ensures own == Without(old(own), ip.inum) && FreedExactly(sb, old(Now()), Now(), ip.inum)
    {
      ghost var v0 := Now();
      FreeingAll(sb, v0.own, ip.inum, logged);
      nodes, own := Cleared(v0, ip.inum).nodes, Cleared(v0, ip.inum).own;
      FreeDirect(ip, v0);
      FreeIndirect(ip, v0);
      assert ip.d.addrs == NoAddrs();
      LooseEnds(sb, Now(), ip.inum);
      ghost var v := Now();
      Grow(ip, 0);
      GrownKeeps(sb, v, Now(), ip.inum, 0);
      Truncated(sb, v0, Now(), ip.inum);
      FreedTheOwned(sb, v0, Now(), ip.inum, sb.ninodes, sb.ninodes);
    }
  }
}
