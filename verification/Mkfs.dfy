/** `mkfs`: it lays out an empty image, fills inodes and files one after the other,
    and writes the bitmap last.  The image it leaves is one on which the kernel's
    invariants hold. */
module Mkfs {
  import opened Options
  import opened Words
  import opened Layout
  import opened BlockMap
  import opened Files
  import opened Effects
  import opened Image
  import opened ImageFiles

  class Builder {
    const g: Geometry
    var disk: Disk
    var freeblock: nat
    var usedblocks: nat
    var freeinode: nat
    ghost var owner: Owner
    ghost var files: seq<HostFile>     // what was asked for so far

    /** Blocks below `freeblock` are taken, and the files so far are in the image. */
    ghost predicate Valid()
      reads this
    {
      && NoBits(g, disk) && g.Meta() <= freeblock <= g.size && freeblock <= g.Bits() && usedblocks == freeblock
      && freeinode == |files| + 1 && freeblock == g.Meta() + Total(files)
      && Holding(g, MarkFirst(g, disk, freeblock), owner, files)
    }

    /** Lay out the empty image; the sizes must add up. */
    constructor (nblocks: word, ninodes: nat, size: nat)
      requires Geometry(size, ninodes).Ok() && nblocks + Geometry(size, ninodes).Meta() == size
      ensures Valid() && g == Geometry(size, ninodes) && files == []
      ensures |disk| == size && GetWord(disk[1], 0) == size && GetWord(disk[1], 1) == nblocks && GetWord(disk[1], 2) == ninodes
    {
      g := Geometry(size, ninodes);
      var bitblocks := size / (BSIZE * 8) + 1;
      usedblocks := ninodes / IPB + 3 + bitblocks;
      freeblock := ninodes / IPB + 3 + bitblocks;
      freeinode := 1;
      disk, owner, files := [], map[], [];
      new;
      var i := 0;
      while i < nblocks + usedblocks
        invariant g == Geometry(size, ninodes) && files == [] && owner == map[] && freeinode == 1
        invariant usedblocks == freeblock == g.Meta() && i <= size && |disk| == i
        invariant forall b :: 0 <= b < i ==> disk[b] == ZeroBlock()
      {
        disk := disk + [ZeroBlock()];
        i := i + 1;
      }
      var buf := PutWord(PutWord(PutWord(ZeroBlock(), 0, size), 1, nblocks), 2, ninodes);
      Superblock(size, nblocks, ninodes);
      disk := disk[1 := buf];
      hide Holding, MarkFirst, GetWord, PutWord;
      BlankHolds(g, disk);
    }

    /** The next inode, with one link and nothing in it. */
    method Ialloc(typ: short) returns (inum: nat)
      requires Valid() && Proper(g, files, NewFile(typ))
      modifies this
      ensures Valid() && inum == |files| == |old(files)| + 1 && files == Serve(old(files), NewFile(typ))
    {
      hide Holding, MarkFirst, EncodeInode;
      inum := freeinode;
      FileAdded(g, disk, freeblock, owner, files, typ);
      freeinode := freeinode + 1;
      Regions(g, inum, 0);
      disk := disk[g.IBlock(inum) := EncodeInode(disk[g.IBlock(inum)], inum % IPB, FreeInode().(typ := typ, nlink := 1))];
      files := files + [HostFile(typ, [])];
      assert files[..|files| - 1] == old(files);
    }

    /** Append to a file; the program ends here when the file would get too long or
        the image is full. */
    method Iappend(inum: nat, xp: seq<byte>) returns (ok: bool)
      requires Valid() && 1 <= inum <= |files|
      modifies this
      ensures ok == Fitting(g, Serve(old(files), Append(inum, xp)))
      ensures ok ==> Valid() && files == Serve(old(files), Append(inum, xp))
    {
      hide Holding, MarkFirst, EncodeInode, DecodeInode, Appending, Building, Extended, Exact, Addr, Fitting, FileIs, InodeAt,
           Blocks, Total, NoBits, Patch;
      ghost var fs, d0, next0, owner0 := files, disk, freeblock, owner;
      AllFit();
      AppendStart(g, disk, freeblock, owner, inum, fs, xp);
      ghost var v0 := MarkFirst(g, disk, freeblock);
      FitsAfter(g, fs, inum, xp);
      ghost var n0 := InodeAt(g, disk, inum);
      var din: Inode := DecodeInode(disk[g.IBlock(inum)], inum % IPB);
      var off, tot := din.size, 0;
      while tot < |xp|
        invariant 0 <= tot <= |xp| && off == n0.size + tot && off <= MAXBYTES && files == fs && freeinode == |fs| + 1
        invariant Growing(inum, din) && g.Fits(disk) && freeblock <= g.Bits()
        invariant Appending(g, v0, MarkFirst(g, disk, freeblock), inum, n0, din, xp, tot)
        invariant freeblock == next0 + Blocks(off) - Blocks(n0.size)
      {
        var fbn := off / BSIZE;
        BlocksMonotone(off + 1, n0.size + |xp|);
        if fbn >= MAXFILE {
          return false;
        }
        ghost var d, next, n := disk, freeblock, din;
        AppendingExact(g, v0, MarkFirst(g, d, next), inum, n0, n, xp, tot);
        var x;
        x, din := BlockFor(inum, din, off);
        if x.None? {
          return false;
        }
        BuildingFits(g, disk, freeblock, owner, inum, din);
        var n1: nat := if |xp| - tot < (fbn + 1) * BSIZE - off then |xp| - tot else (fbn + 1) * BSIZE - off;
        BlocksPiece(off, n1);
        assert off + n1 <= (fbn + 1) * BSIZE <= MAXBYTES;
        AppendChunk(g, v0, d, next, owner, inum, n0, n, xp, tot, disk, freeblock, din, off, n1, x.value);
        var buf := disk[x.value];
        disk := disk[x.value := Patch(buf, off - fbn * BSIZE, xp[tot..tot + n1])];
        BuildingFits(g, disk, freeblock, owner, inum, din);
        off, tot := off + n1, tot + n1;
      }
      BuildingFits(g, disk, freeblock, owner, inum, din);
      AppendDone(g, d0, next0, owner0, inum, fs, n0, disk, freeblock, owner, din, xp);
      din := din.(size := off);
      disk := disk[g.IBlock(inum) := EncodeInode(disk[g.IBlock(inum)], inum % IPB, din)];
      files := Serve(fs, Append(inum, xp));
      return true;
    }

    /** The end of `add_dir`: the size goes up to the next block boundary.  The image stays
        sound exactly when the size was not on one. */
    method RoundSize(inum: nat)
      requires Valid() && 1 <= inum <= |files|
      modifies this
      ensures g.Fits(disk) && freeblock <= g.Bits()
      ensures |old(files)[inum - 1].data| % BSIZE != 0 ==> Valid() && files == Serve(old(files), RoundUp(inum))
      ensures |old(files)[inum - 1].data| % BSIZE == 0 ==>
                !Sound(g, MarkFirst(g, disk, freeblock), TableOf(g, MarkFirst(g, disk, freeblock)), owner)
    {
      hide Holding, MarkFirst, EncodeInode, DecodeInode, Appending, Building, FileIs, InodeAt, Blocks, Total, NoBits, Sound;
      ghost var fs, d := files, disk;
      ghost var zeros := Zeros(BSIZE - |fs[inum - 1].data| % BSIZE);
      AppendStart(g, disk, freeblock, owner, inum, fs, zeros);
      AllFit();
      FitsAfter(g, fs, inum, zeros);
      ghost var v := MarkFirst(g, disk, freeblock);
      var din: Inode := DecodeInode(disk[g.IBlock(inum)], inum % IPB);
      ghost var n: Inode := din;
      MarkedStore(g, d, freeblock, inum, n.(size := (n.size / BSIZE + 1) * BSIZE));
      din := din.(size := (din.size / BSIZE + 1) * BSIZE);
      disk := disk[g.IBlock(inum) := EncodeInode(disk[g.IBlock(inum)], inum % IPB, din)];
      if n.size % BSIZE != 0 {
        RoundAppends(g, v, owner, fs, inum, n, zeros);
        AppendDone(g, d, freeblock, owner, inum, fs, n, d, freeblock, owner, n, zeros);
        files := Serve(fs, RoundUp(inum));
      } else {
        RoundBreaks(g, v, owner, fs, inum, MarkFirst(g, disk, freeblock), owner);
      }
    }

    method Perform(q: Request) returns (ok: bool)
      requires Valid() && Proper(g, files, q)
      modifies this
      ensures !ok ==> !Fitting(g, Serve(old(files), q))
      ensures ok ==> Valid() && files == Serve(old(files), q)
    {
      hide Holding, MarkFirst, Fitting, Total, NoBits;
      match q
      case NewFile(typ) =>
        var inum := Ialloc(typ);
        ok := true;
      case Append(inum, data) =>
        ok := Iappend(inum, data);
      case RoundUp(inum) =>
        RoundSize(inum);
        ok := true;
    }

    lemma AllFit()
      requires Valid()
      ensures Fitting(g, files)
    {
      hide MarkFirst, Total, InodeAt, Exact, Sound;
      forall k | 0 <= k < |files|
        ensures |files[k].data| <= MAXBYTES
      {
        assert Slot(MarkFirst(g, disk, freeblock), InodeAt(g, MarkFirst(g, disk, freeblock), k + 1), k + 1, files);
      }
    }

    /** Write the bitmap.  The image is now as the kernel wants it: sound, and holding
        the files; `false` when one bitmap block is not enough. */
    method Balloc(used: nat) returns (ok: bool)
      requires Valid() && used == usedblocks
      modifies this`disk
      ensures ok == (used < BPB)
      ensures ok ==> Holding(g, disk, owner, files) && disk == MarkFirst(g, old(disk), used)
      ensures !ok ==> disk == old(disk)
    {
      hide Holding, MarkFirst, WithBit8;
      if used >= BPB {
        return false;
      }
      var buf := ZeroBlock();
      var i := 0;
      BitmapStart(g, disk);
      while i < used
        invariant i <= used && disk == old(disk) && MarkFirst(g, disk, i) == disk[g.BBlock(0) := buf]
      {
        MarkByte(g, disk, buf, i);
        buf := buf[i / 8 := WithBit8(buf[i / 8], i % 8, true)];
        i := i + 1;
      }
      disk := disk[g.ninodes / IPB + 3 := buf];
      return true;
    }

    /** Inode `inum` is being grown; `din` is the copy that is not yet written back. */
    ghost predicate Growing(inum: nat, din: Inode)
      reads this
    {
      Building(g, disk, freeblock, owner, inum, din) && usedblocks == freeblock
    }

    /** The block of `inum` that holds byte `off`, taking new blocks where there are none;
        `None` when that runs past the end of the image, which ends the program. */
    method BlockFor(inum: nat, din0: Inode, off: nat) returns (r: Option<nat>, din: Inode)
      requires Growing(inum, din0) && off < MAXBYTES && Exact(MarkFirst(g, disk, freeblock), din0, off)
      modifies this
      ensures files == old(files) && freeinode == old(freeinode)
      ensures r.None? ==> old(freeblock) + Blocks(off + 1) - Blocks(off) > g.size
      ensures r.Some? ==> Growing(inum, din) && freeblock == old(freeblock) + Blocks(off + 1) - Blocks(off)
      ensures r.Some? ==> Extended(g, old(disk), old(freeblock), din0, disk, freeblock, din, inum)
      ensures r.Some? ==> Exact(MarkFirst(g, disk, freeblock), din, off + 1)
                          && r.value == Addr(MarkFirst(g, disk, freeblock), din, DataSlot(off / BSIZE)) != 0
    {
      hide Building, Extended, Exact, Addr, MarkFirst, PutWord, GetWord;
      var fbn := off / BSIZE;
      din := din0;
      BlocksStep(off, 1);
      if fbn < NDIRECT {
        DirectNeeded(g, disk, freeblock, owner, inum, din, off);
        if din.addrs[fbn] == 0 {
          if freeblock >= g.size {
            return None, din;
          }
          TakeDirect(g, disk, freeblock, owner, inum, din, off);
          owner := owner[freeblock := (inum, fbn)];
          din := din.(addrs := din.addrs[fbn := freeblock]);
          freeblock, usedblocks := freeblock + 1, usedblocks + 1;
        }
        return Some(din.addrs[fbn]), din;
      }
      IndirectNeeded(g, disk, freeblock, owner, inum, din, off);
      ghost var d0, next0, n0 := disk, freeblock, din;
      if din.addrs[NDIRECT] == 0 {
        if freeblock >= g.size {
          return None, din;
        }
        TakeIndirectBlock(g, disk, freeblock, owner, inum, din, off);
        owner := owner[freeblock := (inum, NDIRECT)];
        din := din.(addrs := din.addrs[NDIRECT := freeblock]);
        freeblock, usedblocks := freeblock + 1, usedblocks + 1;
      }
      var ib := din.addrs[NDIRECT];
      EntryNeeded(g, disk, freeblock, owner, inum, din, off);
      var indirect := disk[ib];
      if GetWord(indirect, fbn - NDIRECT) == 0 {
        if freeblock >= g.size {
          return None, din;
        }
        TakeEntry(g, d0, next0, n0, disk, freeblock, owner, inum, din, off);
        indirect := PutWord(indirect, fbn - NDIRECT, freeblock);
        owner := owner[freeblock := (inum, fbn + 1)];
        freeblock, usedblocks := freeblock + 1, usedblocks + 1;
        disk := disk[ib := indirect];
      }
      return Some(GetWord(indirect, fbn - NDIRECT)), din;
    }
  }

  /** A whole run: the image is made exactly when everything fits, and then it is
      sound and its files are what the requests ask for. */
  method Build(nblocks: word, ninodes: nat, size: nat, qs: seq<Request>) returns (b: Builder, ok: bool)
    requires Geometry(size, ninodes).Ok() && nblocks + Geometry(size, ninodes).Meta() == size
    requires ProperAll(Geometry(size, ninodes), [], qs)
    ensures b.g == Geometry(size, ninodes)
    ensures var fs := ServeAll(b.g, [], qs);
      && ok == (Fitting(b.g, fs) && b.g.Meta() + Total(fs) < BPB)
      && (ok ==> Holding(b.g, b.disk, b.owner, fs))
  {
    hide Fitting, Holding, MarkFirst, ProperAll, ServeAll, Proper, Serve, NoBits, Total;
    b := new Builder(nblocks, ninodes, size);
    var i := 0;
    ghost var fs := ServeAll(b.g, [], qs);
    assert qs[0..] == qs;
    while i < |qs|
      invariant fresh(b) && i <= |qs| && b.Valid() && b.g == Geometry(size, ninodes)
      invariant ProperAll(b.g, b.files, qs[i..]) && ServeAll(b.g, b.files, qs[i..]) == fs
    {
      NextRequest(b.g, b.files, qs, i);
      ghost var after := Serve(b.files, qs[i]);
      ok := b.Perform(qs[i]);
      if !ok {
        if Fitting(b.g, fs) {
          FittingBefore(b.g, after, qs[i + 1..]);
        }
        return;
      }
      i := i + 1;
    }
    NothingLeft(b.g, b.files, qs);
    b.AllFit();
    ok := b.Balloc(b.usedblocks);
  }
}
