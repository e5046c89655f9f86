/** Inputs on which the file system falls short: a disk whose next clear bit lies past the
    end of the file system, and a T_CHECKED file that cannot be truncated. */
module Shortfalls {
  import opened Words
  import opened Layout
  import opened BlockMap
  import opened Files
  import opened Effects
  import opened Image
  import opened ImageFiles

  function ZeroDisk(n: nat): (d: Disk)
    ensures |d| == n && forall b :: 0 <= b < n ==> d[b] == ZeroBlock()
  {
    seq(n, _ => ZeroBlock())
  }

  /** With every block of the file system in use, and its size no multiple of the bits in a
      bitmap block, the least clear bit is that of the block just past the end. */
  lemma AllocationPastEnd(g: Geometry)
    requires g.Ok() && g.size < g.Bits()
    ensures g.Fits(ZeroDisk(g.size))
    ensures var v := MarkFirst(g, ZeroDisk(g.size), g.size);
      AllInUse(g, v) && !Bit(g, v, g.size) && forall c :: 0 <= c < g.size ==> Bit(g, v, c)
  {
    var d := ZeroDisk(g.size);
    MarkedFrame(g, d, g.size);
    BlankBit(g, d, g.size);
    hide Bit, MarkFirst, InodeAt;
  }

  // ---------- a T_CHECKED file of one byte ----------

  /** Its one data block. */
  function OneByte(): Block {
    ZeroBlock()[0 := 1]
  }

  /** Inode 1, its address carrying the checksum of the block. */
  function CheckedInode(b: nat): Inode
    requires b < TOP
  {
    Mapped1(b).(addrs := Mapped1(b).addrs[0 := Stamp(b, 1)], size := 1)
  }

  function Mapped1(b: nat): Inode
    requires b < TOP
  {
    Empty1().(addrs := Empty1().addrs[0 := b])
  }

  function Empty1(): Inode {
    FreeInode().(typ := T_CHECKED)
  }

  /** The image of an empty file system to which that file has been added. */
  function CheckedImage(g: Geometry): (d: Disk)
    requires g.Ok() && 1 < g.ninodes && g.Meta() < g.size
    ensures g.Fits(d)
  {
    Regions(g, 0, g.Meta());
    var d0 := StoreInode(g, MarkFirst(g, ZeroDisk(g.size), g.Meta()), 1, Empty1());
    StoreInode(g, SetBit(g, d0, g.Meta(), true)[g.Meta() := OneByte()], 1, CheckedInode(g.Meta()))
  }

  lemma OneByteSum()
    ensures Checksum(OneByte()) == 1 && Checksum(ZeroBlock()) == 0
  {
    XorPrefixZeros(ZeroBlock(), BSIZE);
    SumTail(OneByte(), BSIZE);
  }

  lemma {:induction false} SumTail(b: Block, n: nat)
    requires 0 < n <= BSIZE && b == OneByte()
    ensures XorPrefix(b, n) == 1
  {
    XorZero(1);
    if n > 1 {
      SumTail(b, n - 1);
      XorComm(1, 0);
    } else {
      assert XorPrefix(b, 0) == 0 && b[0] == 1;
    }
  }

  /** The empty image with an empty T_CHECKED file. */
  lemma EmptyChecked(g: Geometry)
    requires g.Ok() && 1 < g.ninodes
    ensures g.Fits(ZeroDisk(g.size)) && g.Meta() <= g.Bits()
    ensures var d := StoreInode(g, MarkFirst(g, ZeroDisk(g.size), g.Meta()), 1, Empty1());
      && g.Fits(d) && Sound(g, d, TableOf(g, d), map[]) && InodeAt(g, d, 1) == Empty1()
      && (g.Meta() < g.size ==> g.Meta() < g.Bits() && !Bit(g, d, g.Meta()))
  {
    hide Sound, Slot, InodeAt, MarkFirst, StoreInode, Bit;
    var z := ZeroDisk(g.size);
    BlankHolds(g, z);
    var v := MarkFirst(g, z, g.Meta());
    assert Slot(v, InodeAt(g, v, 1), 1, []);
    EmptySlot(v, InodeAt(g, v, 1), 1, []);
    NewInode(g, v, map[], 1, Empty1());
    if g.Meta() < g.size {
      Regions(g, 0, 0);
      NotMarked(g, z);
    }
  }

  lemma NotMarked(g: Geometry, z: Disk)
    requires NoBits(g, z) && 1 < g.ninodes && g.Meta() < g.size <= g.Bits()
    ensures g.Fits(StoreInode(g, MarkFirst(g, z, g.Meta()), 1, Empty1()))
    ensures !Bit(g, StoreInode(g, MarkFirst(g, z, g.Meta()), 1, Empty1()), g.Meta())
  {
    hide InodeAt, MarkFirst, StoreInode, Bit;
    MarkedFrame(g, z, g.Meta());
    BlankBit(g, z, g.Meta());
    StoreInodeFrame(g, MarkFirst(g, z, g.Meta()), 1, Empty1());
  }

  /** A sound image with a T_CHECKED file that `itrunc` cannot free. */
  lemma CheckedStays(g: Geometry)
    requires g.Ok() && 1 < g.ninodes && g.Meta() < g.size
    ensures var d := CheckedImage(g);
      && Sound(g, d, TableOf(g, d), map[g.Meta() := (1, 0)]) && InodeAt(g, d, 1) == CheckedInode(g.Meta())
      && !Truncatable(d, InodeAt(g, d, 1))
  {
    CheckedSound(g);
    OneByteSum();
    var d := CheckedImage(g);
    assert Raw(d, CheckedInode(g.Meta()), 0) == Stamp(g.Meta(), 1) >= TOP;
    NotTruncatable(d, CheckedInode(g.Meta()), 0);
    hide Sound, CheckedImage;
  }

  lemma CheckedSound(g: Geometry)
    requires g.Ok() && 1 < g.ninodes && g.Meta() < g.size
    ensures var d := CheckedImage(g);
      Sound(g, d, TableOf(g, d), map[g.Meta() := (1, 0)]) && InodeAt(g, d, 1) == CheckedInode(g.Meta())
  {
    hide Sound, Owned, Grew, SameInodes, OthersSame, Spliced, Bit, SetBit, InodeAt, StoreInode, MarkFirst, Raw, Addr, FileBlock, SumOk,
         Checksum, BlockSet, StillMapped, SameRaw, RawChange, FileReady, WriteResult, FileByte;
    var b, owner := g.Meta(), map[g.Meta() := (1, 0)];
    EmptyChecked(g);
    OneByteSum();
    var d0 := StoreInode(g, MarkFirst(g, ZeroDisk(g.size), b), 1, Empty1());
    var t0 := TableOf(g, d0);
    WriteStart(g, d0, t0, map[], 1);
    EmptyAddr(d0);
    AllocDirect(g, d0, t0, map[], 1, 0, b);
    SetBitFrame(g, d0, b, true);
    var d1, t1 := SetBit(g, d0, b, true), t0[1 := Mapped1(b)];
    assert t1 == t0[1 := t0[1].(addrs := t0[1].addrs[0 := b])];
    assert map[][b := (1, 0)] == owner;
    assert DataSlot(0) == 0;
    AddrInRange(g, d1, t1, owner, 1, 0);
    ByteChunk(d0, t0, d1, t1);
    WriteData(g, d1, t1, owner, 1, 0, OneByte());
    var d2 := d1[b := OneByte()];
    GrownThenWritten(d0, t0, d1, t1, d2, 1, 0, 0, [1], OneByte());
    SameInodesTrans(g, d0, d1, d2);
    SumsThroughWrite(d0, t0, d1, t1, d2, 1, 0);
    AddrKept(d1, t1, d2, t1, 1, 0);
    StampIt(g, d0, t0, d2, t1, owner, b);
  }

  lemma EmptyAddr(d: Disk)
    ensures Addr(d, Empty1(), 0) == 0
  {
  }

  lemma ByteChunk(d0: Disk, t0: Table, d1: Disk, t1: Table)
    requires Grew(d0, t0, d1, t1, 1) && t0[1] == Empty1()
    ensures Patch(FileBlock(d1, t1[1], 0), 0, [1]) == OneByte() == Patch(FileBlock(d0, t0[1], 0), 0, [1])
    ensures FileBlock(d0, t0[1], 0) == ZeroBlock()
  {
    EmptyAddr(d0);
    assert FileBlock(d1, t1[1], 0) == FileBlock(d0, t0[1], 0) == ZeroBlock();
  }

  /** The checksum is stamped on the address, the size set, and the inode written back. */
  lemma StampIt(g: Geometry, d0: Disk, t0: Table, d2: Disk, t1: Table, owner: Owner, b: nat)
    requires g.Fits(d0) && g.Fits(d2) && b < TOP && 1 < g.ninodes && t0 == TableOf(g, d0) && SameInodes(g, d0, d2)
    requires Sound(g, d0, t0, map[]) && t0[1] == Empty1() && t1 == t0[1 := Mapped1(b)]
    requires Owned(g, d2, t1, owner) && OthersSame(d0, t0, d2, t1, 1) && SummedBut(d2, t1[1], 0)
    requires FileBlock(d0, t0[1], 0) == ZeroBlock() && FileBlock(d2, t1[1], 0) == OneByte() && Addr(d2, t1[1], 0) != 0
    requires BlockSet(d0, t0[1], d2, t1[1], 0, OneByte())
    ensures var d := StoreInode(g, d2, 1, CheckedInode(b));
      g.Fits(d) && Sound(g, d, TableOf(g, d), owner) && InodeAt(g, d, 1) == CheckedInode(b)
  {
    hide Sound, Owned, SameInodes, OthersSame, Spliced, InodeAt, StoreInode, Raw, Addr, FileBlock, SumOk, Checksum, BlockSet,
         RawChange, FileReady, WriteResult, FileByte, SummedBut, Summed, SameBits, Overlay, MappedBelow;
    var n0, n2, n3 := t0[1], CheckedInode(b).(size := 0), CheckedInode(b);
    var t2, t3 := t1[1 := n2], t1[1 := n3];
    OneByteSum();
    RestampDirect(g, d2, t1, owner, 1, 0, 1);
    RawOfDirect(d2, t1[1], b);
    assert t2 == t1[1 := t1[1].(addrs := t1[1].addrs[0 := Stamp(t1[1].addrs[0], 1)])];
    Restamped(g, d2, t1, owner, d2, t2, 1, 0, 1);
    StampedSums(d2, t1, t2, 1, 0, 1, d2);
    WrittenThenStamped(d0, t0, d2, t1, d2, t2, 1);
    WriteStart(g, d0, t0, map[], 1);
    BlockSetAfter(d0, n0, d2, t1[1], n2);
    var one: seq<byte> := [1];
    assert one[..0] == [] && one[0..0 + 1] == one && one[..0 + 1] == one;
    SpliceChunk(d0, n0, d0, n0, d2, n2, 0, one, 0, 1);
    OneMapped(d2, n2);
    Resized(g, d2, t2, owner, 1, 1);
    ResizedFile(d0, n0, d2, n2, 0, [1], 1, true);
    ResizedOthers(d0, t0, d2, t2, 1, 1);
    SameTable(g, d0, d2);
    assert t3 == t2[1 := t2[1].(size := 1)] == TableOf(g, d2)[1 := n3];
    StoreEffect(g, d2, t3, owner, 1, n3);
    var d := StoreInode(g, d2, 1, n3);
    StoredAll(d0, n0, d2, t3, d, 1, 0, [1], 1, true);
    OthersStored(d0, t0, d2, t3, d, 1);
    WriteDone(g, d0, t0, map[], d, t3, owner, 1, 0, [1]);
    InSync(g, d, t3, 1);
  }

  lemma RawOfDirect(d: Disk, n: Inode, b: nat)
    requires b < TOP && n == Mapped1(b)
    ensures Raw(d, n, DataSlot(0)) == b && n.addrs[0] == b && Stamp(b, 1) == b + TOP
  {
  }

  lemma AddrKept(d: Disk, t: Table, d': Disk, t': Table, j: nat, s: nat)
    requires SameRaw(d, t, d', t') && j < |t| && s < SLOTS && t'[j].typ == t[j].typ
    ensures Addr(d', t'[j], s) == Addr(d, t[j], s)
  {
  }

  lemma BlockSetAfter(d0: Disk, n0: Inode, d: Disk, n1: Inode, n2: Inode)
    requires BlockSet(d0, n0, d, n1, 0, OneByte()) && FileBlock(d0, n0, 0) == ZeroBlock()
    requires forall k :: 0 <= k < MAXFILE ==> FileBlock(d, n2, k) == FileBlock(d, n1, k)
    ensures BlockSet(d0, n0, d, n2, 0, Patch(FileBlock(d0, n0, 0), 0, [1]))
  {
    hide FileBlock;
    assert Patch(ZeroBlock(), 0, [1]) == OneByte();
  }

  lemma OneMapped(d: Disk, n: Inode)
    requires Addr(d, n, 0) != 0
    ensures MappedBelow(d, n, 1)
  {
    hide Addr;
  }
}
