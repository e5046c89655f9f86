/** The block allocator and the inode layer: allocation, the block map,
    truncation, and reading and writing file contents. */
module FileSystems {
  import opened Options
  import opened Words
  import opened Layout
  import opened BlockMap
  import opened Files
  import opened Release
  import opened Effects

  const NDEV: nat := 10

  /** What `readi` and `writei` come back with; `Device` hands the call to the driver. */
  datatype Io = Fail | Count(n: nat) | Device(major: nat) | Panic

  /** The in-core copy of an inode, held locked by the caller. */
  class IncoreInode {
    const inum: nat
    var typ: short
    var major: short
    var minor: short
    var nlink: short
    var size: word
    var addrs: seq<word>

    ghost predicate Shaped() reads this { |addrs| == NDIRECT + 1 }

    function Val(): Inode
      reads this
      requires Shaped()
    {
      Dinode(typ, major, minor, nlink, size, addrs)
    }

    constructor (inum: nat, n: Inode)
      ensures this.inum == inum && Shaped() && Val() == n
    {
      this.inum := inum;
      typ, major, minor, nlink, size, addrs := n.typ, n.major, n.minor, n.nlink, n.size, n.addrs;
    }
  }

  class FileSystem {
    const g: Geometry
    var disk: Disk
    ghost var owner: Owner

    /** The inode table with the locked inode's in-core copy in place of its disk copy. */
    ghost function View(ip: IncoreInode): Table
      reads this, ip
      requires g.Fits(disk) && ip.Shaped() && ip.inum < g.ninodes
    {
      TableOf(g, disk)[ip.inum := ip.Val()]
    }

    ghost predicate Holding(ip: IncoreInode)
      reads this, ip
    {
      g.Fits(disk) && ip.Shaped() && ip.inum < g.ninodes && ip.typ != 0 && Owned(g, disk, View(ip), owner)
    }

    /** Between operations the in-core copy and the disk agree and the whole image is sound. */
    ghost predicate Steady(ip: IncoreInode)
      reads this, ip
    {
      Holding(ip) && View(ip) == TableOf(g, disk) && Sound(g, disk, View(ip), owner)
    }

    /** Least clear bit of the bitmap; `None` is the kernel's "out of blocks" panic. */
    method Balloc() returns (r: Option<nat>)
      requires g.Fits(disk)
      modifies this`disk
      ensures g.Fits(disk)
      ensures r.Some? ==> r.value < g.Bits() && !Bit(g, old(disk), r.value)
                          && (forall c :: 0 <= c < r.value ==> Bit(g, old(disk), c))
                          && disk == SetBit(g, old(disk), r.value, true)
      ensures r.None? ==> disk == old(disk) && forall c :: 0 <= c < g.Bits() ==> Bit(g, disk, c)
    {
      hide Bit, SetBit, BitOf, InodeAt;
      var b := 0;
      while b < g.size
        invariant b % BPB == 0 && b <= g.Bits() && disk == old(disk)
        invariant forall c :: 0 <= c < b ==> Bit(g, disk, c)
        decreases g.size - b
      {
        Regions(g, 0, b);
        var bp := disk[g.BBlock(b)];
        var bi := 0;
        while bi < BPB
          invariant bi <= BPB && disk == old(disk) && b + BPB <= g.Bits()
          invariant forall c :: 0 <= c < b + bi ==> Bit(g, disk, c)
        {
          BitHere(g, disk, b, bi);
          if !BitOf(bp[bi / 8], bi % 8) {
            disk := disk[g.BBlock(b) := bp[bi / 8 := WithBit8(bp[bi / 8], bi % 8, true)]];
            SetBitFrame(g, old(disk), b + bi, true);
            return Some(b + bi);
          }
          bi := bi + 1;
        }
        b := b + BPB;
      }
      return None;
    }

    /** Zero the block, then clear its bit; freeing a free block panics. */
    method Bfree(b: nat) returns (ok: bool)
      requires g.Fits(disk) && g.Meta() <= b < g.size
      modifies this`disk
      ensures g.Fits(disk) && b < g.Bits()
      ensures ok == Bit(g, old(disk), b)
      ensures ok ==> disk == SetBit(g, old(disk)[b := ZeroBlock()], b, false)
    {
      Regions(g, 0, b);
      hide InodeAt, SameInodes, BitOf;
      disk := disk[b := ZeroBlock()];
      DataFrame(g, old(disk), b, ZeroBlock());
      var bp := disk[g.BBlock(b)];
      var bi := b % BPB;
      if !BitOf(bp[bi / 8], bi % 8) {
        return false;
      }
      disk := disk[g.BBlock(b) := bp[bi / 8 := WithBit8(bp[bi / 8], bi % 8, false)]];
      SetBitFrame(g, old(disk)[b := ZeroBlock()], b, false);
      return true;
    }

    /** Copy the in-core inode to its slot in the inode table. */
    method Iupdate(ip: IncoreInode)
      requires Holding(ip)
      modifies this`disk
      ensures Holding(ip) && disk == StoreInode(g, old(disk), ip.inum, ip.Val())
      ensures TableOf(g, disk) == View(ip) == old(View(ip))
      ensures forall k :: 0 <= k < g.ninodes ==> SameFile(old(disk), View(ip)[k], disk, View(ip)[k])
    {
      ghost var t, d := View(ip), disk;
      StoreEffect(g, d, t, owner, ip.inum, ip.Val());
      disk := StoreInode(g, disk, ip.inum, ip.Val());
      assert View(ip) == t;
    }

    /** The block holding block `bn` of the file, allocated if there was none.
        `None` stands for the kernel's panics: `bn` out of range, or no free block. */
    method Bmap(ip: IncoreInode, bn: nat) returns (r: Option<nat>)
      requires Holding(ip)
      modifies this, ip
      ensures g.Fits(disk) && ip.Shaped()
      ensures r.Some? ==> Holding(ip) && bn < MAXFILE && r.value == Addr(disk, ip.Val(), DataSlot(bn)) != 0
                          && Grew(old(disk), old(View(ip)), disk, View(ip), ip.inum) && SameInodes(g, old(disk), disk)
      ensures bn < MAXFILE && Addr(old(disk), old(ip.Val()), DataSlot(bn)) != 0 ==>
                r.Some? && disk == old(disk) && owner == old(owner) && ip.Val() == old(ip.Val())
      ensures r.None? ==> bn >= MAXFILE || AllInUse(g, disk)
    {
      hide Owned, Grew, SameInodes;
      ghost var t := View(ip);
      if bn < NDIRECT {
        var addr := Low(ip.typ, ip.addrs[bn]);
        if addr == 0 {
          r := TakeDirect(ip, bn);
          return;
        }
        Unchanged(g, disk, t, ip.inum);
        return Some(addr);
      }
      if bn - NDIRECT < NINDIRECT {
        var addr := Low(ip.typ, ip.addrs[NDIRECT]);
        if addr == 0 {
          var ib := TakeDirect(ip, NDIRECT);
          if ib.None? {
            return None;
          }
          addr := ib.value;
        }
        ghost var t1, d1 := View(ip), disk;
        Unchanged(g, old(disk), t, ip.inum);
        AddrInRange(g, disk, t1, owner, ip.inum, NDIRECT);
        var k := bn - NDIRECT;
        var entry := Low(ip.typ, GetWord(disk[addr], k));
        if entry == 0 {
          r := TakeIndirect(ip, addr, k);
          if r.Some? {
            SameInodesTrans(g, old(disk), d1, disk);
            GrewTrans(old(disk), t, d1, t1, disk, View(ip), ip.inum);
          }
          return;
        }
        return Some(entry);
      }
      return None;
    }

    /** Allocate a block into a slot of the inode itself. */
    method TakeDirect(ip: IncoreInode, s: nat) returns (r: Option<nat>)
      requires Holding(ip) && s <= NDIRECT && Addr(disk, ip.Val(), s) == 0
      modifies this, ip
      ensures g.Fits(disk) && ip.Shaped()
      ensures r.Some? ==> Holding(ip) && r.value == Addr(disk, ip.Val(), s) != 0
                          && Grew(old(disk), old(View(ip)), disk, View(ip), ip.inum) && SameInodes(g, old(disk), disk)
      ensures r.None? ==> AllInUse(g, disk)
    {
      hide Owned, Grew, SameInodes, SetBit, InodeAt, Bit, Raw, Addr, AllInUse;
      ghost var t, d := View(ip), disk;
      var b := Balloc();
      if b.None? || b.value >= g.size {
        OutOfBlocks(g, d, b, disk);
        return None;
      }
      AllocDirect(g, d, t, owner, ip.inum, s, b.value);
      ghost var t' := t[ip.inum := t[ip.inum].(addrs := t[ip.inum].addrs[s := b.value])];
      ip.addrs := ip.addrs[s := Low(ip.typ, b.value)];
      owner := owner[b.value := (ip.inum, s)];
      SameTable(g, d, disk);
      assert View(ip) == t';
      return Some(b.value);
    }

    /** Allocate a block into entry `k` of the indirect block `addr`. */
    method TakeIndirect(ip: IncoreInode, addr: nat, k: nat) returns (r: Option<nat>)
      requires Holding(ip) && k < NINDIRECT
      requires addr == Addr(disk, ip.Val(), NDIRECT) != 0 && Addr(disk, ip.Val(), k + NDIRECT + 1) == 0
      modifies this
      ensures g.Fits(disk)
      ensures r.Some? ==> Holding(ip) && r.value == Addr(disk, ip.Val(), k + NDIRECT + 1) != 0
                          && Grew(old(disk), old(View(ip)), disk, View(ip), ip.inum) && SameInodes(g, old(disk), disk)
      ensures r.None? ==> AllInUse(g, disk)
    {
      hide Owned, Grew, SameInodes, SetBit, InodeAt, PutWord, Bit, Raw, Addr, AllInUse;
      ghost var t, d := View(ip), disk;
      AddrInRange(g, disk, t, owner, ip.inum, NDIRECT);
      var a := disk[addr];
      var b := Balloc();
      if b.None? || b.value >= g.size {
        OutOfBlocks(g, d, b, disk);
        return None;
      }
      AllocIndirect(g, d, t, owner, ip.inum, k + NDIRECT + 1, b.value);
      disk := disk[addr := PutWord(a, k, Low(ip.typ, b.value))];
      owner := owner[b.value := (ip.inum, k + NDIRECT + 1)];
      SameTable(g, d, disk);
      assert View(ip) == t;
      return Some(b.value);
    }

    // ---------- checksums ----------

    /** The exclusive or of the bytes of a block. */
    method BlockSum(bp: Block) returns (checkSum: byte)
      ensures checkSum == Checksum(bp)
    {
      XorZero(bp[0]);
      assert XorPrefix(bp, 1) == ByteXor(XorPrefix(bp, 0), bp[0]);
      checkSum := bp[0];
      var i := 1;
      while i < BSIZE
        invariant 1 <= i <= BSIZE && checkSum == XorPrefix(bp, i)
      {
        checkSum := ByteXor(checkSum, bp[i]);
        i := i + 1;
      }
    }

    /** The checksum kept in the address of block `bn`. */
    method StoredSum(ip: IncoreInode, bn: nat) returns (c: nat)
      requires Holding(ip) && ip.typ == T_CHECKED && bn < MAXFILE && Addr(disk, ip.Val(), DataSlot(bn)) != 0
      ensures c == Raw(disk, ip.Val(), DataSlot(bn)) / TOP
    {
      hide Owned;
      if bn < NDIRECT {
        c := ip.addrs[bn] / TOP;
      } else {
        AddrInRange(g, disk, View(ip), owner, ip.inum, DataSlot(bn));
        var indir := disk[Low(ip.typ, ip.addrs[NDIRECT])];
        c := GetWord(indir, bn - NDIRECT) / TOP;
      }
    }

    /** Put checksum `c` in the address of block `bn`. */
    method StampSum(ip: IncoreInode, bn: nat, c: byte)
      requires Holding(ip) && ip.typ == T_CHECKED && bn < MAXFILE && Addr(disk, ip.Val(), DataSlot(bn)) != 0
      requires c == Checksum(FileBlock(disk, ip.Val(), bn))
      modifies this`disk, ip`addrs
      ensures Holding(ip) && SameInodes(g, old(disk), disk)
      ensures OthersSame(old(disk), old(View(ip)), disk, View(ip), ip.inum)
      ensures forall k :: 0 <= k < MAXFILE ==> FileBlock(disk, ip.Val(), k) == FileBlock(old(disk), old(ip.Val()), k)
      ensures forall s :: 0 <= s < SLOTS ==> Addr(disk, ip.Val(), s) == Addr(old(disk), old(ip.Val()), s)
      ensures SummedBut(old(disk), old(ip.Val()), bn) ==> Summed(disk, ip.Val())
    {
      hide Owned, SameInodes, SameBits, InodeAt, Bit, Holds, Placed;
      ghost var t, d, n := View(ip), disk, ip.Val();
      ghost var w := Stamp(Raw(d, n, DataSlot(bn)), c);
      AddrInRange(g, d, t, owner, ip.inum, DataSlot(bn));
      if bn < NDIRECT {
        RestampDirect(g, d, t, owner, ip.inum, bn, c);
        ip.addrs := ip.addrs[bn := Stamp(ip.addrs[bn], c)];
        assert View(ip) == t[ip.inum := ip.Val()];
      } else {
        WriteIndirect(g, d, t, owner, ip.inum, bn + 1, w);
        var ib := Low(ip.typ, ip.addrs[NDIRECT]);
        var indir := disk[ib];
        disk := disk[ib := PutWord(indir, bn - NDIRECT, Stamp(GetWord(indir, bn - NDIRECT), c))];
        SameTable(g, d, disk);
        assert View(ip) == t;
      }
      Restamped(g, d, t, owner, disk, View(ip), ip.inum, bn, c);
      StampedSums(d, t, View(ip), ip.inum, bn, c, disk);
    }

    // ---------- reading ----------

    /** `readi`: `Fail` is -1.  Nothing in the file system changes. */
    method Readi(ip: IncoreInode, off0: word, n0: word, devRead: set<int>) returns (r: Io, dst: seq<byte>)
      requires Holding(ip) && Readable(disk, ip.Val())
      modifies this, ip
      ensures Holding(ip) && disk == old(disk) && owner == old(owner) && ip.Val() == old(ip.Val())
      ensures ip.typ == T_DEV ==>
                r == if 0 <= ip.major < NDEV && ip.major in devRead then Device(ip.major) else Fail
      ensures ip.typ != T_DEV && (off0 > ip.size || off0 + n0 >= WORD_LIMIT) ==> r == Fail
      ensures ip.typ != T_DEV && off0 <= ip.size && off0 + n0 < WORD_LIMIT ==>
                var m := if off0 + n0 > ip.size then ip.size - off0 else n0;
                if ip.typ != T_CHECKED || RangeOk(disk, ip.Val(), off0, m)
                then r == Count(m) && dst == Contents(disk, ip.Val())[off0..off0 + m]
                else r == Fail
    {
      hide Owned, SameInodes, Grew, Summed, Raw, Addr, FileBlock, FileByte, SumOk, RangeOk;
      dst := [];
      if ip.typ == T_DEV {
        if ip.major < 0 || ip.major >= NDEV || ip.major !in devRead {
          return Fail, dst;
        }
        return Device(ip.major), dst;
      }
      if off0 > ip.size || off0 + n0 >= WORD_LIMIT {
        return Fail, dst;
      }
      var n := n0;
      if off0 + n > ip.size {
        n := ip.size - off0;
      }
      var ok, bytes := ReadBlocks(ip, off0, n);
      if !ok {
        return Fail, bytes;
      }
      return Count(n), bytes;
    }

    /** The loop of `readi`; it stops at the first block whose checksum is wrong. */
    method ReadBlocks(ip: IncoreInode, off0: nat, n: nat) returns (ok: bool, dst: seq<byte>)
      requires Holding(ip) && Readable(disk, ip.Val()) && off0 + n <= ip.size
      modifies this, ip
      ensures Holding(ip) && disk == old(disk) && owner == old(owner) && ip.Val() == old(ip.Val())
      ensures ok == (ip.typ != T_CHECKED || RangeOk(disk, ip.Val(), off0, n))
      ensures ok ==> dst == Contents(disk, ip.Val())[off0..off0 + n]
    {
      assert ip.size <= MAXBYTES;
      hide Owned, SameInodes, Grew, Summed, Readable, Raw, Addr, FileBlock, FileByte, SumOk, RangeOk, Contents;
      RangeEmpty(disk, ip.Val(), off0);
      ghost var c := Contents(disk, ip.Val());
      dst := [];
      var tot, off := 0, off0;
      while tot < n
        invariant 0 <= tot <= n && off == off0 + tot
        invariant Holding(ip) && disk == old(disk) && owner == old(owner) && ip.Val() == old(ip.Val())
        invariant dst == c[off0..off0 + tot]
        invariant ip.typ == T_CHECKED ==> RangeOk(disk, ip.Val(), off0, tot)
      {
        var m: nat := if n - tot < BSIZE - off % BSIZE then n - tot else BSIZE - off % BSIZE;
        var r;
        r, dst := ReadBlock(ip, off, m, dst);
        if r == Fail {
          RangeFails(disk, ip.Val(), off0, tot, n);
          return false, dst;
        }
        if ip.typ == T_CHECKED {
          RangeGrows(disk, ip.Val(), off0, tot, m);
        }
        SliceJoin(c, off0, off, off + m);
        tot, off := tot + m, off + m;
      }
      return true, dst;
    }

    /** One round of the loop of `readi`. */
    method ReadBlock(ip: IncoreInode, off: nat, m: nat, dst0: seq<byte>) returns (r: Io, dst: seq<byte>)
      requires Holding(ip) && Readable(disk, ip.Val())
      requires 0 < m <= BSIZE - off % BSIZE && off + m <= ip.size
      modifies this, ip
      ensures Holding(ip) && disk == old(disk) && owner == old(owner) && ip.Val() == old(ip.Val())
      ensures dst == dst0 + Contents(disk, ip.Val())[off..off + m]
      ensures r == if ip.typ == T_CHECKED && !SumOk(disk, ip.Val(), off / BSIZE) then Fail else Count(m)
    {
      hide Owned, SameInodes, Grew, Raw, Addr;
      assert BSIZE * (off / BSIZE) < ip.size;
      var addr := Bmap(ip, off / BSIZE);
      AddrInRange(g, disk, View(ip), owner, ip.inum, DataSlot(off / BSIZE));
      var bp := disk[addr.value];
      ReadChunk(disk, ip.Val(), off, m);
      dst := dst0 + bp[off % BSIZE..off % BSIZE + m];
      if ip.typ == T_CHECKED {
        addr := Bmap(ip, off / BSIZE);
        var checkSum := BlockSum(disk[addr.value]);
        var stored := StoredSum(ip, off / BSIZE);
        if stored != checkSum {
          return Fail, dst;
        }
      }
      return Count(m), dst;
    }

    // ---------- writing ----------

    /** One round of the loop of `writei`: `chunk` goes into the block at `off`,
        and a T_CHECKED file gets that block's new checksum. */
    method WriteBlock(ip: IncoreInode, off: nat, chunk: seq<byte>) returns (ok: bool)
      requires Holding(ip) && off < MAXBYTES && 0 < |chunk| <= BSIZE - off % BSIZE
      modifies this, ip
      ensures g.Fits(disk) && ip.Shaped()
      ensures !ok ==> AllInUse(g, disk)
      ensures ok ==> Holding(ip) && SameInodes(g, old(disk), disk)
      ensures ok ==> ip.Val() == old(ip.Val()).(addrs := ip.addrs)
      ensures ok ==> OthersSame(old(disk), old(View(ip)), disk, View(ip), ip.inum)
      ensures ok ==> BlockSet(old(disk), old(ip.Val()), disk, ip.Val(), off / BSIZE,
                              Patch(FileBlock(old(disk), old(ip.Val()), off / BSIZE), off % BSIZE, chunk))
      ensures ok ==> StillMapped(old(disk), old(ip.Val()), disk, ip.Val())
                     && Addr(disk, ip.Val(), DataSlot(off / BSIZE)) != 0
      ensures ok && ip.typ == T_CHECKED && Summed(old(disk), old(ip.Val())) ==> Summed(disk, ip.Val())
    {
      hide Owned, SameInodes, Bit, InodeAt, SetBit, AllInUse, Raw, FileBlock, SumOk, Holds, Placed;
      ghost var d0, t0, n0 := disk, View(ip), ip.Val();
      var bn := off / BSIZE;
      var addr := Bmap(ip, bn);
      if addr.None? {
        return false;
      }
      ghost var d1, t1, n1 := disk, View(ip), ip.Val();
      AddrInRange(g, d1, t1, owner, ip.inum, DataSlot(bn));
      MappedBlock(d1, n1, bn);
      var bp := disk[addr.value];
      var blk := bp[..off % BSIZE] + chunk + bp[off % BSIZE + |chunk|..];
      WriteData(g, d1, t1, owner, ip.inum, bn, blk);
      disk := disk[addr.value := blk];
      SameTable(g, d1, disk);
      assert View(ip) == t1;
      ghost var d2 := disk;
      GrownThenWritten(d0, t0, d1, t1, d2, ip.inum, bn, off % BSIZE, chunk, blk);
      SameInodesTrans(g, d0, d1, d2);
      if ip.typ == T_CHECKED {
        addr := Bmap(ip, bn);
        var checkSum := BlockSum(disk[addr.value]);
        assert FileBlock(disk, ip.Val(), bn) == blk;
        StampSum(ip, bn, checkSum);
        SameInodesTrans(g, d0, d2, disk);
        WrittenThenStamped(d0, t0, d2, t1, disk, View(ip), ip.inum);
        SumsThroughWrite(d0, t0, d1, t1, d2, ip.inum, bn);
      }
      return true;
    }

    /** The loop of `writei`. */
    method WriteBlocks(ip: IncoreInode, src: seq<byte>, off0: nat, n: nat) returns (ok: bool)
      requires Steady(ip) && n <= |src| && off0 <= ip.size && off0 + n <= MAXBYTES
      modifies this, ip
      ensures g.Fits(disk) && ip.Shaped()
      ensures !ok ==> AllInUse(g, disk)
      ensures ok ==> Holding(ip) && SameInodes(g, old(disk), disk)
      ensures ok ==> ip.Val() == old(ip.Val()).(addrs := ip.addrs)
      ensures ok ==> OthersSame(old(disk), old(View(ip)), disk, View(ip), ip.inum)
      ensures ok ==> Spliced(old(disk), old(ip.Val()), disk, ip.Val(), off0, src[..n])
      ensures ok ==> MappedBelow(disk, ip.Val(), if ip.size < off0 + n then off0 + n else ip.size)
      ensures ok && ip.typ == T_CHECKED ==> Summed(disk, ip.Val())
    {
      hide Owned, SameInodes, Bit, InodeAt, AllInUse, Raw, Addr, SumOk, FileByte, Sound, OthersSame, Spliced;
      ghost var d0, t0, n1 := disk, View(ip), ip.Val();
      WriteStart(g, d0, t0, owner, ip.inum);
      var tot, off := 0, off0;
      while tot < n
        invariant 0 <= tot <= n && off == off0 + tot
        invariant Holding(ip) && SameInodes(g, d0, disk) && OthersSame(d0, t0, disk, View(ip), ip.inum)
        invariant ip.Val() == n1.(addrs := ip.addrs)
        invariant Spliced(d0, n1, disk, ip.Val(), off0, src[..tot])
        invariant MappedBelow(disk, ip.Val(), if n1.size < off then off else n1.size)
        invariant ip.typ == T_CHECKED ==> Summed(disk, ip.Val())
      {
        var m: nat := if n - tot < BSIZE - off % BSIZE then n - tot else BSIZE - off % BSIZE;
        ghost var d1, t1, v1 := disk, View(ip), ip.Val();
        var ok := WriteBlock(ip, off, src[tot..tot + m]);
        if !ok {
          return false;
        }
        SameInodesTrans(g, d0, d1, disk);
        WrittenThenStamped(d0, t0, d1, t1, disk, View(ip), ip.inum);
        SpliceChunk(d0, n1, d1, v1, disk, ip.Val(), off0, src, tot, m);
        MappedGrows(d1, v1, disk, ip.Val(), if n1.size < off then off else n1.size, off, m);
        tot, off := tot + m, off + m;
      }
      return true;
    }

    /** `writei`: on success the file reads as before with the clamped source laid
        over it, and disk and in-core inode agree.  `Panic` only when no block is free. */
    method Writei(ip: IncoreInode, src: seq<byte>, off0: word, n0: word, devWrite: set<int>) returns (r: Io)
      requires Steady(ip) && |src| == n0
      modifies this, ip
      ensures old(ip.typ) == T_DEV ==>
                r == (if 0 <= old(ip.major) < NDEV && old(ip.major) in devWrite then Device(old(ip.major)) else Fail)
                && disk == old(disk)
      ensures old(ip.typ) != T_DEV && (off0 > old(ip.size) || off0 + n0 >= WORD_LIMIT) ==> r == Fail && disk == old(disk)
      ensures old(ip.typ) != T_DEV && off0 <= old(ip.size) && off0 + n0 < WORD_LIMIT ==>
                r == Count(Clamp(off0, n0)) || (r == Panic && AllInUse(g, disk))
      ensures r != Panic ==> Steady(ip)
      ensures r.Count? ==> ip.Shaped() && WriteResult(g, old(disk), ip.inum, disk, ip.Val(), off0, src[..Clamp(off0, n0)])
    {
      hide Owned, SameInodes, Bit, InodeAt, AllInUse, Raw, Addr, SumOk, FileByte, Sound, OthersSame, Spliced;
      if ip.typ == T_DEV {
        if ip.major < 0 || ip.major >= NDEV || ip.major !in devWrite {
          return Fail;
        }
        return Device(ip.major);
      }
      if off0 > ip.size || off0 + n0 >= WORD_LIMIT {
        return Fail;
      }
      SizeBound(g, disk, View(ip), owner, ip.inum);
      var n := n0;
      if off0 + n > MAXBYTES {
        n := MAXBYTES - off0;
      }
      ghost var d0, t0, n1 := disk, View(ip), ip.Val();
      var off := off0;
      var ok := WriteBlocks(ip, src, off0, n);
      if !ok {
        return Panic;
      }
      off := off + n;
      ghost var d1, t1 := disk, View(ip);
      if n > 0 && off > ip.size {
        ip.size := off;
      }
      Resized(g, d1, t1, owner, ip.inum, ip.size);
      assert View(ip) == t1[ip.inum := t1[ip.inum].(size := ip.size)];
      ghost var t2 := View(ip);
      ResizedFile(d0, n1, d1, t1[ip.inum], off0, src[..n], ip.size, ip.typ == T_CHECKED);
      ResizedOthers(d0, t0, d1, t1, ip.inum, ip.size);
      Iupdate(ip);
      StoredAll(d0, n1, d1, t2, disk, ip.inum, off0, src[..n], ip.size, ip.typ == T_CHECKED);
      OthersStored(d0, t0, d1, t2, disk, ip.inum);
      WriteDone(g, d0, t0, old(owner), disk, t2, owner, ip.inum, off0, src[..n]);
      return Count(n);
    }

    // ---------- truncating ----------

    ghost predicate Progress(ip: IncoreInode, d0: Disk, t0: Table, owner0: Owner, d: Disk, done: set<nat>)
      reads this, ip
    {
      g.Fits(disk) && g.Fits(d0) && ip.Shaped() && ip.inum < g.ninodes && |t0| == g.ninodes && ip.typ != 0
      && ip.Val() == t0[ip.inum].(addrs := ip.addrs) && SameInodes(g, d0, disk)
      && View(ip) == t0[ip.inum := ip.Val()]
      && Truncated(g, d0, t0, owner0, d, View(ip), owner, ip.inum, done)
    }

    /** Release the block in slot `s` of the inode; `false` when the stored word is
        no block of the disk (a checksum byte is still on it). */
    method FreeDirect(ip: IncoreInode, s: nat, ghost d0: Disk, ghost t0: Table, ghost owner0: Owner, ghost done: set<nat>)
      returns (ok: bool)
      requires Progress(ip, d0, t0, owner0, disk, done) && s < NDIRECT
      modifies this, ip`addrs
      ensures ok == (old(ip.addrs)[s] < TOP)
      ensures ok ==> Progress(ip, d0, t0, owner0, disk, done + {s})
    {
      hide Bit, InodeAt, Truncated, SameInodes, SetBit;
      ghost var d, t := disk, View(ip);
      assert Raw(disk, ip.Val(), s) == ip.addrs[s];
      if ip.addrs[s] != 0 {
        if ip.addrs[s] >= TOP {
          return false;
        }
        TruncateDirect(g, d0, t0, owner0, d, t, owner, ip.inum, done, s);
        FreedFrame(g, d, ip.addrs[s]);
        var cleared := Bfree(ip.addrs[s]);
        assert disk == Freed(g, d, ip.addrs[s]);
        owner := owner - {ip.addrs[s]};
        ip.addrs := ip.addrs[s := 0];
        SameTable(g, d, disk);
        SameInodesTrans(g, d0, d, disk);
        assert View(ip) == t[ip.inum := ip.Val()];
        return true;
      }
      TruncateSkip(g, d0, t0, owner0, disk, View(ip), owner, ip.inum, done, s);
      return true;
    }

    /** Release every block the indirect block `ib` names.  The entries stay on the
        disk; read as `Emptied` they are gone. */
    method FreeEntries(ip: IncoreInode, ib: nat, ghost d0: Disk, ghost t0: Table, ghost owner0: Owner, ghost done0: set<nat>)
      returns (ok: bool)
      requires Progress(ip, d0, t0, owner0, disk, done0) && g.Meta() <= ib < g.size && ip.addrs[NDIRECT] == ib < TOP
      modifies this`disk, this`owner
      ensures ok == forall i :: 0 <= i < NINDIRECT ==> GetWord(old(disk)[ib], i) < TOP
      ensures ok ==> g.Fits(disk)
                     && Progress(ip, d0, t0, owner0, Emptied(disk, ib, NINDIRECT), done0 + Slots(NDIRECT + 1, SLOTS))
    {
      hide Bit, InodeAt, Truncated, SameInodes, SetBit, GetWord, Cleared, Slots;
      ghost var done := done0;
      var a := disk[ib];
      ClearedEnds(a);
      assert Emptied(disk, ib, 0) == disk;
      var k := 0;
      while k < NINDIRECT
        invariant k <= NINDIRECT && g.Fits(disk) && disk[ib] == a
        invariant done == done0 + Slots(NDIRECT + 1, NDIRECT + 1 + k)
        invariant Progress(ip, d0, t0, owner0, Emptied(disk, ib, k), done)
        invariant forall i :: 0 <= i < k ==> GetWord(a, i) < TOP
      {
        if GetWord(a, k) != 0 {
          if GetWord(a, k) >= TOP {
            return false;
          }
          ghost var d, t := disk, View(ip);
          TruncateEntry(g, d0, t0, owner0, d, t, owner, ip.inum, done, ib, k);
          FreedFrame(g, d, GetWord(a, k));
          var cleared := Bfree(GetWord(a, k));
          owner := owner - {GetWord(a, k)};
          SameTable(g, d, disk);
          SameInodesTrans(g, d0, d, disk);
          assert View(ip) == t;
        } else {
          TruncateEntrySkip(g, d0, t0, owner0, disk, View(ip), owner, ip.inum, done, ib, k);
        }
        SlotsHigh(done0, NDIRECT + 1, NDIRECT + 1 + k);
        done := done + {k + NDIRECT + 1};
        k := k + 1;
      }
      return true;
    }

    /** Release the blocks named by the indirect block, then the indirect block itself. */
    method FreeIndirect(ip: IncoreInode, ghost d0: Disk, ghost t0: Table, ghost owner0: Owner, ghost done0: set<nat>)
      returns (ok: bool)
      requires Progress(ip, d0, t0, owner0, disk, done0)
      modifies this, ip`addrs
      ensures ok == (old(ip.addrs)[NDIRECT] < TOP
                     && forall s :: NDIRECT < s < SLOTS ==> Raw(old(disk), old(ip.Val()), s) < TOP)
      ensures ok ==> Progress(ip, d0, t0, owner0, disk, done0 + Slots(NDIRECT, SLOTS))
    {
      hide Bit, InodeAt, Truncated, SameInodes, SetBit, GetWord, Cleared, Raw, Slots;
      ghost var d1, n1 := disk, ip.Val();
      var ib := ip.addrs[NDIRECT];
      if ib == 0 {
        EmptyIndirect(g, d0, t0, owner0, disk, View(ip), owner, ip.inum, done0);
        return true;
      }
      if ib >= TOP {
        return false;
      }
      IndirectInRange(g, d0, t0, owner0, disk, View(ip), owner, ip.inum, done0);
      EntriesSmall(d1, n1, ib);
      ok := FreeEntries(ip, ib, d0, t0, owner0, done0);
      if ok {
        ghost var d, t, done := disk, View(ip), done0 + Slots(NDIRECT + 1, SLOTS);
        IndirectEmptied(g, d0, t0, owner0, d, t, owner, ip.inum, done, ib);
        assert Freed(g, d, ib) == SetBit(g, d[ib := ZeroBlock()], ib, false);
        hide Freed, Emptied;
        var cleared := Bfree(ib);
        owner := owner - {ib};
        ip.addrs := ip.addrs[NDIRECT := 0];
        SameTable(g, d, disk);
        SameInodesTrans(g, d0, d, disk);
        assert View(ip) == t[ip.inum := ip.Val()];
        SlotsLow(done0, NDIRECT, SLOTS);
      }
    }

    /** `itrunc`: it passes stored words to `bfree` without masking them, so it succeeds
        exactly when no word carries a checksum byte: always for types other than
        T_CHECKED, and for T_CHECKED when every block has checksum zero.  Then every
        block of the file is free again, and nothing else changed. */
    method Itrunc(ip: IncoreInode) returns (ok: bool)
      requires Steady(ip)
      modifies this, ip
      ensures ok <==> old(ip.typ) != T_CHECKED || SumsZero(old(disk), old(ip.Val()))
      ensures ok ==> Steady(ip) && TruncResult(g, old(disk), ip.inum, disk)
    {
      hide Owned, Bit, InodeAt, Truncated, SameInodes, Raw, Sound, Truncatable, TruncResult, SameReads, SumsZero;
      ghost var d0, t0, owner0 := disk, View(ip), owner;
      TruncatableExactly(g, d0, t0, owner0, ip.inum);
      ok := FreeAll(ip);
      if ok {
        ghost var d1, t1 := disk, View(ip);
        TruncatedOwned(g, d0, t0, owner0, d1, t1, owner, ip.inum, Slots(0, SLOTS));
        ip.size := 0;
        Resized(g, d1, t1, owner, ip.inum, 0);
        assert View(ip) == t1[ip.inum := t1[ip.inum].(size := 0)];
        Iupdate(ip);
        TruncateDone(g, d0, t0, owner0, d1, t1, owner, ip.inum, disk, View(ip));
      }
    }

    /** The two loops of `itrunc`. */
    method FreeAll(ip: IncoreInode) returns (ok: bool)
      requires Steady(ip)
      modifies this, ip
      ensures ok == Truncatable(old(disk), old(ip.Val()))
      ensures ok ==> Progress(ip, old(disk), old(View(ip)), old(owner), disk, Slots(0, SLOTS))
    {
      hide Owned, Bit, InodeAt, Truncated, SameInodes, Raw, Sound, Truncatable;
      ghost var d0, t0, owner0, n0 := disk, View(ip), owner, ip.Val();
      TruncateStart(g, d0, t0, owner0, ip.inum);
      assert {} + Slots(0, 0) == Slots(0, 0);
      var i := 0;
      while i < NDIRECT
        invariant i <= NDIRECT && Progress(ip, d0, t0, owner0, disk, {} + Slots(0, i))
        invariant forall s :: 0 <= s < i ==> Raw(d0, n0, s) < TOP
      {
        SlotsLeft(g, d0, t0, owner0, disk, View(ip), owner, ip.inum, {} + Slots(0, i), i);
        ok := FreeDirect(ip, i, d0, t0, owner0, {} + Slots(0, i));
        if !ok {
          NotTruncatable(d0, n0, i);
          return;
        }
        SlotsHigh({}, 0, i);
        i := i + 1;
      }
      assert {} + Slots(0, NDIRECT) == Slots(0, NDIRECT);
      IndirectLeft(g, d0, t0, owner0, disk, View(ip), owner, ip.inum);
      ok := FreeIndirect(ip, d0, t0, owner0, Slots(0, NDIRECT));
      TruncatableBySlots(d0, n0);
      SlotsJoin(0, NDIRECT, SLOTS);
    }

    // ---------- inode allocation ----------

    /** `ialloc`: the least free inode from 1 on, all zero but for its type; `None`
        is the "no inodes" panic. */
    method Ialloc(typ: short) returns (r: Option<nat>)
      requires g.Fits(disk) && Sound(g, disk, TableOf(g, disk), owner) && typ != 0
      modifies this`disk
      ensures g.Fits(disk) && Sound(g, disk, TableOf(g, disk), owner)
      ensures r.Some? ==> 1 <= r.value < g.ninodes && InodeAt(g, old(disk), r.value).typ == 0
                          && (forall i :: 1 <= i < r.value ==> InodeAt(g, old(disk), i).typ != 0)
                          && InodeAt(g, disk, r.value) == FreeInode().(typ := typ)
                          && forall i :: 0 <= i < g.ninodes && i != r.value ==>
                               SameFile(old(disk), InodeAt(g, old(disk), i), disk, InodeAt(g, disk, i))
      ensures r.None? ==> disk == old(disk) && forall i :: 1 <= i < g.ninodes ==> InodeAt(g, disk, i).typ != 0
    {
      hide Owned, Sound, SameReads, Bit;
      var inum := 1;
      while inum < g.ninodes
        invariant 1 <= inum && disk == old(disk)
        invariant forall i :: 1 <= i < inum && i < g.ninodes ==> InodeAt(g, disk, i).typ != 0
      {
        Regions(g, inum, 0);
        var bp := disk[g.IBlock(inum)];
        if DecodeInode(bp, inum % IPB).typ == 0 {
          NewInode(g, disk, owner, inum, FreeInode().(typ := typ));
          disk := disk[g.IBlock(inum) := EncodeInode(bp, inum % IPB, FreeInode().(typ := typ))];
          return Some(inum);
        }
        inum := inum + 1;
      }
      return None;
    }

    // ---------- the laws of the file layer ----------

    /** Reading back what was just written: any range of the new contents, and for a
        T_CHECKED file every checksum on the way is right. */
    method WriteThenRead(ip: IncoreInode, src: seq<byte>, off: word, n: word, roff: word, rn: word, ghost c0: seq<byte>)
      returns (w: Io, r: Io, dst: seq<byte>)
      requires Steady(ip) && |src| == n && ip.typ != T_DEV && off <= ip.size && off + n <= MAXBYTES
      requires Denotes(disk, ip.Val(), c0)
      modifies this, ip
      ensures w == Count(n) || (w == Panic && AllInUse(g, disk))
      ensures w != Panic ==> Steady(ip) && off <= |c0| && Denotes(disk, ip.Val(), Overlay(c0, off, src))
      ensures w != Panic && off <= |c0| ==>
                var c := Overlay(c0, off, src);
                if roff > |c| || roff + rn >= WORD_LIMIT then r == Fail
                else if roff + rn > |c| then r == Count(|c| - roff) && dst == c[roff..]
                else r == Count(rn) && dst == c[roff..roff + rn]
    {
      hide Sound, Owned, RangeOk, SameReads, TableOf, Overlay, WriteResult, FileByte, InodeAt;
      ghost var d0, n0 := disk, ip.Val();
      InSync(g, d0, View(ip), ip.inum);
      w := Writei(ip, src, off, n, {});
      r, dst := Fail, [];
      if w == Panic {
        return;
      }
      assert src[..Clamp(off, n)] == src;
      WriteMeans(g, d0, n0, ip.inum, disk, ip.Val(), off, src, c0);
      ReadableNow(g, disk, View(ip), owner, ip.inum);
      ghost var m := if roff + rn > ip.size then ip.size - roff else rn;
      if ip.typ == T_CHECKED && roff <= ip.size {
        IntactRange(g, disk, View(ip), owner, ip.inum, roff, m);
      }
      r, dst := Readi(ip, roff, rn, {});
    }
  }
}
