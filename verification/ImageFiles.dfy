/** Files in an image under construction: appending to one, adding an empty one,
    and the empty image they start from. */
module ImageFiles {
  import opened Words
  import opened Layout
  import opened BlockMap
  import opened Files
  import opened Effects
  import opened Image

  /** What the builder was given for one inode: inode `k + 1` is the `k`-th of them. */
  datatype HostFile = HostFile(typ: short, data: seq<byte>)

  ghost predicate FileIs(d: Disk, n: Inode, f: HostFile) {
    n.typ == f.typ && n.nlink == 1 && Denotes(d, n, f.data)
  }

  ghost predicate Slot(d: Disk, n: Inode, i: nat, fs: seq<HostFile>) {
    Exact(d, n, n.size) && if 1 <= i <= |fs| then FileIs(d, n, fs[i - 1]) else n.typ == 0
  }

  predicate HostOk(f: HostFile) {
    f.typ != 0 && f.typ != T_CHECKED
  }

  /** The image `v` is sound and holds exactly the files `fs`. */
  ghost predicate Holding(g: Geometry, v: Disk, owner: Owner, fs: seq<HostFile>) {
    && g.Fits(v) && Sound(g, v, TableOf(g, v), owner) && |fs| < g.ninodes
    && (forall k :: 0 <= k < |fs| ==> HostOk(fs[k]))
    && (forall i :: 0 <= i < g.ninodes ==> Slot(v, InodeAt(g, v, i), i, fs))
  }

  function Total(fs: seq<HostFile>): nat {
    if fs == [] then 0 else Total(fs[..|fs| - 1]) + Blocks(|fs[|fs| - 1].data|)
  }

  lemma {:induction false} TotalUpdate(fs: seq<HostFile>, k: nat, f: HostFile)
    requires k < |fs|
    ensures Total(fs[k := f]) == Total(fs) - Blocks(|fs[k].data|) + Blocks(|f.data|)
  {
    var m := |fs| - 1;
    if k == m {
      assert fs[k := f][..m] == fs[..m];
    } else {
      assert fs[k := f][..m] == fs[..m][k := f];
      TotalUpdate(fs[..m], k, f);
    }
  }

  // ---------- appending ----------

  /** The first `tot` bytes of `src` have been appended to inode `j`, which was `n0` in the image `v0`. */
  ghost predicate Appending(g: Geometry, v0: Disk, v: Disk, j: nat, n0: Inode, n: Inode, src: seq<byte>, tot: nat) {
    && g.Fits(v0) && g.Fits(v) && j < g.ninodes && tot <= |src| && n0.size + tot <= MAXBYTES
    && n0 == TableOf(g, v0)[j] && n == n0.(addrs := n.addrs) && SameInodes(g, v0, v)
    && OthersSame(v0, TableOf(g, v0), v, TableOf(g, v)[j := n], j)
    && Spliced(v0, n0, v, n, n0.size, src[..tot]) && Exact(v, n, n0.size + tot)
  }

  lemma AppendStart(g: Geometry, d: Disk, next: nat, owner: Owner, j: nat, fs: seq<HostFile>, src: seq<byte>)
    requires NoBits(g, d) && g.Meta() <= next <= g.size && next <= g.Bits()
    requires Holding(g, MarkFirst(g, d, next), owner, fs) && 1 <= j <= |fs|
    ensures g.Fits(d) && j < g.ninodes && g.IBlock(j) < |d| && InodeAt(g, d, j) == DecodeInode(d[g.IBlock(j)], j % IPB)
    ensures var n := InodeAt(g, d, j);
      && n == InodeAt(g, MarkFirst(g, d, next), j) && FileIs(MarkFirst(g, d, next), n, fs[j - 1])
      && n.size == |fs[j - 1].data| <= MAXBYTES
      && Building(g, d, next, owner, j, n) && Appending(g, MarkFirst(g, d, next), MarkFirst(g, d, next), j, n, n, src, 0)
  {
    var v, n := MarkFirst(g, d, next), InodeAt(g, d, j);
    Regions(g, j, 0);
    MarkedFrame(g, d, next);
    assert Slot(v, InodeAt(g, v, j), j, fs);
    assert TableOf(g, v)[j := n] == TableOf(g, v);
    WriteStart(g, v, TableOf(g, v), owner, j);
    hide Owned, Exact, Spliced, MarkFirst, InodeAt, SameReads;
  }

  /** One round of the loop: the block of `off` was found, and gets its piece of `src`. */
  lemma AppendChunk(g: Geometry, v0: Disk, d: Disk, next: nat, owner: Owner, j: nat, n0: Inode, n: Inode, src: seq<byte>, tot: nat,
                    d1: Disk, next1: nat, n1: Inode, off: nat, m: nat, a: nat)
    requires g.Fits(d) && next <= g.Bits() && Appending(g, v0, MarkFirst(g, d, next), j, n0, n, src, tot)
    requires Building(g, d1, next1, owner, j, n1) && Extended(g, d, next, n, d1, next1, n1, j)
    requires off == n0.size + tot && off / BSIZE < MAXFILE && off + m <= MAXBYTES
    requires 0 < m <= BSIZE - off % BSIZE && tot + m <= |src| && Exact(MarkFirst(g, d1, next1), n1, off + 1)
    requires a == Addr(MarkFirst(g, d1, next1), n1, DataSlot(off / BSIZE)) != 0
    ensures a < |d1| && |src[tot..tot + m]| == m && off % BSIZE + m <= BSIZE
    ensures var d2 := d1[a := Patch(d1[a], off % BSIZE, src[tot..tot + m])];
      Building(g, d2, next1, owner, j, n1) && Appending(g, v0, MarkFirst(g, d2, next1), j, n0, n1, src, tot + m)
  {
    hide Owned, Grew, SameInodes, OthersSame, Spliced, Exact, FileBlock, Addr, MarkFirst, Building, SameRaw, BlockSet, Patch,
         StillMapped, InodeAt;
    var v, v1 := MarkFirst(g, d, next), MarkFirst(g, d1, next1);
    var bn, t, t1 := off / BSIZE, View(g, d, next, j, n), View(g, d1, next1, j, n1);
    BlockInImage(g, d1, next1, owner, j, n1, bn);
    var blk := Patch(d1[a], off % BSIZE, src[tot..tot + m]);
    ChunkWritten(g, d1, next1, owner, j, n1, bn, blk);
    var d2 := d1[a := blk];
    var v2 := MarkFirst(g, d2, next1);
    GrownThenWritten(v, t, v1, t1, v2, j, bn, off % BSIZE, src[tot..tot + m], blk);
    SpliceChunk(v0, n0, v, n, v2, n1, n0.size, src, tot, m);
    WrittenThenStamped(v0, TableOf(g, v0), v, t, v2, t1, j);
    SameInodesTrans(g, v0, v, v1);
    SameInodesTrans(g, v0, v1, v2);
    ExactSpan(v2, n1, off, m);
    GrewNode(v, t, v1, t1, j);
  }

  lemma GrewNode(d: Disk, t: Table, d': Disk, t': Table, j: nat)
    requires Grew(d, t, d', t', j)
    ensures j < |t| == |t'| && t'[j] == t[j].(addrs := t'[j].addrs)
  {
  }

  lemma BlockInImage(g: Geometry, d: Disk, next: nat, owner: Owner, j: nat, n: Inode, bn: nat)
    requires Building(g, d, next, owner, j, n) && bn < MAXFILE && Addr(MarkFirst(g, d, next), n, DataSlot(bn)) != 0
    ensures g.Fits(d) && next <= g.Bits()
    ensures var a := Addr(MarkFirst(g, d, next), n, DataSlot(bn));
      g.Meta() <= a < |d| && FileBlock(MarkFirst(g, d, next), n, bn) == d[a]
  {
    hide Owned, MarkFirst, Addr, NoBits;
    BuildingFits(g, d, next, owner, j, n);
    var v := MarkFirst(g, d, next);
    var a := Addr(v, n, DataSlot(bn));
    AddrInRange(g, v, View(g, d, next, j, n), owner, j, DataSlot(bn));
    MarkedWrite(g, d, next, a, d[a]);
  }

  /** A data block of the file is written in the image. */
  lemma ChunkWritten(g: Geometry, d: Disk, next: nat, owner: Owner, j: nat, n: Inode, bn: nat, blk: Block)
    requires Building(g, d, next, owner, j, n) && bn < MAXFILE && Addr(MarkFirst(g, d, next), n, DataSlot(bn)) != 0
    ensures g.Fits(d) && next <= g.Bits() && j < g.ninodes && Addr(MarkFirst(g, d, next), n, DataSlot(bn)) < |d|
    ensures var d' := d[Addr(MarkFirst(g, d, next), n, DataSlot(bn)) := blk];
      var v, v', t := MarkFirst(g, d, next), MarkFirst(g, d', next), View(g, d, next, j, n);
      && Building(g, d', next, owner, j, n) && View(g, d', next, j, n) == t && SameRaw(v, t, v', t) && SameInodes(g, v, v')
      && (forall z :: Exact(v, n, z) ==> Exact(v', n, z))
      && forall i, k :: 0 <= i < |t| && 0 <= k < MAXFILE ==>
           FileBlock(v', t[i], k) == if i == j && k == bn then blk else FileBlock(v, t[i], k)
  {
    hide Owned, MarkFirst, Addr, NoBits, SameRaw, SameInodes, InodeAt, FileBlock, Exact;
    BuildingFits(g, d, next, owner, j, n);
    var v, t := MarkFirst(g, d, next), View(g, d, next, j, n);
    BlockInImage(g, d, next, owner, j, n, bn);
    var a := Addr(v, n, DataSlot(bn));
    MarkedWrite(g, d, next, a, blk);
    WriteData(g, v, t, owner, j, bn, blk);
    var d' := d[a := blk];
    ViewAfter(g, d, next, d', next, j, n, n);
    assert t[j := n] == t;
    NoBitsKeep(g, d, a, blk);
    forall z | Exact(v, n, z)
      ensures Exact(MarkFirst(g, d', next), n, z)
    {
      SameRawExact(v, t, MarkFirst(g, d', next), j, z);
    }
  }

  lemma SameRawExact(d: Disk, t: Table, d': Disk, j: nat, z: nat)
    requires SameRaw(d, t, d', t) && j < |t| && Exact(d, t[j], z)
    ensures Exact(d', t[j], z)
  {
    hide Raw;
    forall s | 0 <= s < SLOTS
      ensures Addr(d', t[j], s) == Addr(d, t[j], s)
    {
      assert Raw(d', t[j], s) == Raw(d, t[j], s);
    }
    SameAddrsExact(d, t[j], d', t[j], z);
  }

  /** The grown inode is written back: the image holds the files with `src` appended to one of them. */
  lemma AppendDone(g: Geometry, d0: Disk, next0: nat, owner0: Owner, j: nat, fs: seq<HostFile>, n0: Inode, d: Disk, next: nat,
                   owner: Owner, n: Inode, src: seq<byte>)
    requires g.Fits(d0) && next0 <= g.Bits() && next <= g.Bits()
    requires Holding(g, MarkFirst(g, d0, next0), owner0, fs) && 1 <= j <= |fs| && FileIs(MarkFirst(g, d0, next0), n0, fs[j - 1])
    requires Building(g, d, next, owner, j, n)
    requires Appending(g, MarkFirst(g, d0, next0), MarkFirst(g, d, next), j, n0, n, src, |src|)
    ensures var d' := StoreInode(g, d, j, n.(size := n0.size + |src|));
      && g.Fits(d') && NoBits(g, d')
      && Holding(g, MarkFirst(g, d', next), owner, fs[j - 1 := HostFile(fs[j - 1].typ, fs[j - 1].data + src)])
  {
    hide Owned, Spliced, Exact, MarkFirst, SameInodes, OthersSame, Sound, InodeAt, WriteResult, FileReady, Slot, Denotes;
    BuildingFits(g, d, next, owner, j, n);
    var v0, v := MarkFirst(g, d0, next0), MarkFirst(g, d, next);
    var t0, t := TableOf(g, v0), TableOf(g, v)[j := n];
    var z, n' := n0.size + |src|, n.(size := n0.size + |src|);
    var t' := t[j := t[j].(size := z)];
    assert t' == TableOf(g, v)[j := n'];
    assert src[..|src|] == src;
    MarkedStore(g, d, next, j, n');
    NoBitsStore(g, d, j, n');
    var d' := StoreInode(g, d, j, n');
    var v' := MarkFirst(g, d', next);
    Resized(g, v, t, owner, j, z);
    ResizedOthers(v0, t0, v, t, j, z);
    MappedFile(v0, n0, v, n, src, z);
    StoreEffect(g, v, t', owner, j, n');
    StoredAll(v0, n0, v, t', v', j, n0.size, src, z, false);
    OthersStored(v0, t0, v, t', v', j);
    InSync(g, v0, t0, j);
    WriteDone(g, v0, t0, owner0, v', t', owner, j, n0.size, src);
    SlotsAfter(g, v0, t0, v', t', j, fs, n0, n, v, src);
  }

  lemma NoBitsStore(g: Geometry, d: Disk, j: nat, n: Inode)
    requires NoBits(g, d) && j < g.ninodes
    ensures g.Fits(StoreInode(g, d, j, n)) && NoBits(g, StoreInode(g, d, j, n))
  {
    Regions(g, j, 0);
  }

  lemma MappedFile(v0: Disk, n0: Inode, v: Disk, n: Inode, src: seq<byte>, z: word)
    requires Spliced(v0, n0, v, n, n0.size, src) && Exact(v, n, z)
    ensures FileReady(v0, n0, v, n.(size := z), n0.size, src, z, false)
  {
    hide Spliced, Addr;
    assert MappedBelow(v, n, z);
    ResizedFile(v0, n0, v, n, n0.size, src, z, false);
  }

  /** The slots of the other inodes are as before; slot `j` shows the longer file. */
  lemma SlotsAfter(g: Geometry, v0: Disk, t0: Table, v': Disk, t': Table, j: nat, fs: seq<HostFile>, n0: Inode, n: Inode, v: Disk,
                   src: seq<byte>)
    requires g.Fits(v0) && g.Fits(v') && t0 == TableOf(g, v0) && t' == TableOf(g, v') && 1 <= j <= |fs| < g.ninodes
    requires FileIs(v0, n0, fs[j - 1]) && t0[j] == n0 && OthersSame(v0, t0, v', t', j)
    requires t'[j] == n.(size := t'[j].size) && t'[j].size == n0.size + |src| && n == n0.(addrs := n.addrs)
    requires SameFile(v, t'[j], v', t'[j]) && Exact(v, n, n0.size + |src|) && WriteResult(g, v0, j, v', t'[j], n0.size, src)
    requires forall i :: 0 <= i < g.ninodes ==> Slot(v0, InodeAt(g, v0, i), i, fs)
    ensures forall i :: 0 <= i < g.ninodes ==>
              Slot(v', InodeAt(g, v', i), i, fs[j - 1 := HostFile(fs[j - 1].typ, fs[j - 1].data + src)])
  {
    hide Slot, Exact, OthersSame, WriteResult, InodeAt, FileIs, SameFile;
    forall i | 0 <= i < g.ninodes
      ensures Slot(v', InodeAt(g, v', i), i, fs[j - 1 := HostFile(fs[j - 1].typ, fs[j - 1].data + src)])
    {
      assert t0[i] == InodeAt(g, v0, i) && t'[i] == InodeAt(g, v', i);
      if i == j {
        SlotGrown(g, v0, v', t'[j], j, fs, n0, n, v, src);
      } else {
        SlotKept(v0, t0, v', t', j, i, fs, HostFile(fs[j - 1].typ, fs[j - 1].data + src));
      }
    }
  }

  lemma SlotKept(v0: Disk, t0: Table, v': Disk, t': Table, j: nat, i: nat, fs: seq<HostFile>, f: HostFile)
    requires 1 <= j <= |fs| && OthersSame(v0, t0, v', t', j) && i < |t0| && i != j && Slot(v0, t0[i], i, fs)
    ensures Slot(v', t'[i], i, fs[j - 1 := f])
  {
    assert SameFile(v0, t0[i], v', t'[i]);
    KeptSlot(v0, t0[i], v', i, fs);
    hide Exact, FileIs, SameReads;
  }

  lemma KeptSlot(v0: Disk, n: Inode, v': Disk, i: nat, fs: seq<HostFile>)
    requires SameFile(v0, n, v', n) && Slot(v0, n, i, fs)
    ensures Slot(v', n, i, fs)
  {
    forall s | 0 <= s < SLOTS
      ensures Addr(v', n, s) == Addr(v0, n, s)
    {
      assert Raw(v', n, s) == Raw(v0, n, s);
    }
    SameAddrsExact(v0, n, v', n, n.size);
    if 1 <= i <= |fs| {
      SameFileKeeps(v0, n, v', n);
    }
    hide Exact, Addr, Raw, SameFile, Contents;
  }

  lemma SlotGrown(g: Geometry, v0: Disk, v': Disk, n': Inode, j: nat, fs: seq<HostFile>, n0: Inode, n: Inode, v: Disk, src: seq<byte>)
    requires g.Fits(v0) && g.Fits(v') && 1 <= j <= |fs| < g.ninodes && FileIs(v0, n0, fs[j - 1]) && InodeAt(g, v0, j) == n0
    requires n' == n.(size := n'.size) && n'.size == n0.size + |src| && n == n0.(addrs := n.addrs)
    requires SameFile(v, n', v', n') && Exact(v, n, n'.size) && WriteResult(g, v0, j, v', n', n0.size, src)
    ensures Slot(v', n', j, fs[j - 1 := HostFile(fs[j - 1].typ, fs[j - 1].data + src)])
  {
    ExactStored(v, n, n', v');
    WriteMeans(g, v0, n0, j, v', n', n0.size, src, fs[j - 1].data);
    assert Overlay(fs[j - 1].data, n0.size, src) == fs[j - 1].data + src;
    hide Exact, SameFile, Contents, WriteResult, InodeAt;
  }

  lemma ExactStored(v: Disk, n: Inode, n': Inode, v': Disk)
    requires n' == n.(size := n'.size) && SameFile(v, n', v', n') && Exact(v, n, n'.size)
    ensures Exact(v', n', n'.size)
  {
    forall s | 0 <= s < SLOTS
      ensures Addr(v', n', s) == Addr(v, n, s)
    {
      assert Raw(v', n', s) == Raw(v, n', s);
    }
    SameAddrsExact(v, n, v', n', n'.size);
  }

  // ---------- a new file, and the empty image ----------

  lemma FileAdded(g: Geometry, d: Disk, next: nat, owner: Owner, fs: seq<HostFile>, typ: short)
    requires NoBits(g, d) && next <= g.Bits() && Holding(g, MarkFirst(g, d, next), owner, fs)
    requires |fs| + 1 < g.ninodes && HostOk(HostFile(typ, []))
    ensures var d' := StoreInode(g, d, |fs| + 1, FreeInode().(typ := typ, nlink := 1));
      && g.Fits(d') && NoBits(g, d') && Holding(g, MarkFirst(g, d', next), owner, fs + [HostFile(typ, [])])
  {
    hide Owned, MarkFirst, InodeAt, StoreInode, Slot, Sound;
    var i, n, v := |fs| + 1, FreeInode().(typ := typ, nlink := 1), MarkFirst(g, d, next);
    assert Slot(v, InodeAt(g, v, i), i, fs);
    EmptySlot(v, InodeAt(g, v, i), i, fs);
    NoBitsStore(g, d, i, n);
    MarkedStore(g, d, next, i, n);
    NewInode(g, v, owner, i, n);
    var v' := StoreInode(g, v, i, n);
    var fs' := fs + [HostFile(typ, [])];
    forall k | 0 <= k < g.ninodes
      ensures Slot(v', InodeAt(g, v', k), k, fs')
    {
      if k == i {
        FreshSlot(v', i, typ, fs');
      } else {
        KeptSlot(v, InodeAt(g, v, k), v', k, fs);
        SlotLonger(v', InodeAt(g, v', k), k, fs, HostFile(typ, []));
      }
    }
  }

  lemma EmptySlot(d: Disk, n: Inode, i: nat, fs: seq<HostFile>)
    requires Slot(d, n, i, fs) && !(1 <= i <= |fs|)
    ensures n.typ == 0
  {
  }

  lemma SlotLonger(d: Disk, n: Inode, i: nat, fs: seq<HostFile>, f: HostFile)
    requires Slot(d, n, i, fs) && i != |fs| + 1
    ensures Slot(d, n, i, fs + [f])
  {
    hide Exact, FileIs;
  }

  lemma FreshSlot(d: Disk, i: nat, typ: short, fs: seq<HostFile>)
    requires 1 <= i <= |fs| && fs[i - 1] == HostFile(typ, [])
    ensures Slot(d, FreeInode().(typ := typ, nlink := 1), i, fs)
  {
    var n := FreeInode().(typ := typ, nlink := 1);
    forall s | 0 <= s < SLOTS
      ensures Addr(d, n, s) == 0
    {
    }
    assert Contents(d, n) == [];
  }

  /** An image of zero blocks but for the superblock. */
  ghost predicate Blank(g: Geometry, d: Disk) {
    g.Fits(d) && forall b :: 0 <= b < g.size && b != 1 ==> d[b] == ZeroBlock()
  }

  lemma BlankInode(g: Geometry, d: Disk, i: nat)
    requires Blank(g, d) && i < g.ninodes
    ensures InodeAt(g, d, i) == FreeInode()
  {
    Regions(g, i, 0);
    forall w | 16 * (i % IPB) <= w < 16 * (i % IPB) + 16
      ensures GetWord(ZeroBlock(), w) == InodeWord(FreeInode(), w - 16 * (i % IPB))
    {
      ZeroWords(w);
    }
    DecodeWords(ZeroBlock(), i % IPB, FreeInode());
  }

  lemma FreeSlots(d: Disk)
    ensures (forall s :: 0 <= s < SLOTS ==> Addr(d, FreeInode(), s) == 0) && Sized(d, FreeInode()) && Exact(d, FreeInode(), 0)
    ensures NoBlocks(FreeInode())
  {
  }

  /** The empty image is sound: its blocks in use are the metadata blocks. */
  lemma BlankHolds(g: Geometry, d: Disk)
    requires Blank(g, d)
    ensures NoBits(g, d) && g.Meta() <= g.Bits() && Holding(g, MarkFirst(g, d, g.Meta()), map[], [])
  {
    Regions(g, 0, 0);
    var v := MarkFirst(g, d, g.Meta());
    MarkedFrame(g, d, g.Meta());
    FreeSlots(v);
    forall i | 0 <= i < g.ninodes
      ensures InodeAt(g, v, i) == FreeInode()
    {
      BlankInode(g, d, i);
    }
    BlankOwned(g, d, v);
    hide Owned, InodeAt, Sized, Exact, MarkFirst, Bit;
  }

  lemma BlankOwned(g: Geometry, d: Disk, v: Disk)
    requires Blank(g, d) && g.Fits(v) && FirstSet(g, d, v, g.Meta())
    requires forall i :: 0 <= i < g.ninodes ==> InodeAt(g, v, i) == FreeInode()
    ensures Owned(g, v, TableOf(g, v), map[])
  {
    hide InodeAt, Bit;
    Regions(g, 0, 0);
    FreeSlots(v);
    forall b | 0 <= b < g.size
      ensures Bit(g, v, b) <==> b < g.Meta()
    {
      BlankBit(g, d, b);
    }
  }

  // ---------- the bitmap ----------

  /** One more bit in the buffer is one more block marked in the image. */
  lemma MarkByte(g: Geometry, d: Disk, buf: Block, i: nat)
    requires g.Fits(d) && i < BPB && i < g.Bits() && MarkFirst(g, d, i) == d[g.BBlock(0) := buf]
    ensures g.BBlock(0) < |d|
    ensures MarkFirst(g, d, i + 1) == d[g.BBlock(0) := buf[i / 8 := WithBit8(buf[i / 8], i % 8, true)]]
  {
    Regions(g, 0, i);
    assert i % BPB == i && g.BBlock(i) == g.BBlock(0);
    hide WithBit8;
  }

  /** The builder rounds a directory up to the next block boundary, a whole block
      further when it is already on one.  The file then still has all its blocks
      exactly when its size was not a multiple of the block size. */
  lemma RoundedDirectory(d: Disk, n: Inode)
    requires Sized(d, n) && Exact(d, n, n.size)
    ensures Sized(d, n.(size := (n.size / BSIZE + 1) * BSIZE)) <==> n.size % BSIZE != 0
  {
    hide Addr, FileByte;
    var q := n.size / BSIZE;
    var z := (q + 1) * BSIZE;
    var n' := n.(size := z);
    SameMap(d, n, z);
    if n.size % BSIZE != 0 {
      assert q < MAXFILE;
      assert forall bn :: 0 <= bn < MAXFILE && BSIZE * bn < z ==> BSIZE * bn < n.size;
    } else if q < MAXFILE {
      assert Addr(d, n', DataSlot(q)) == Addr(d, n, DataSlot(q)) == 0;
    }
  }

  /** The size is not part of the block map. */
  lemma SameMap(d: Disk, n: Inode, z: word)
    ensures forall s :: 0 <= s < SLOTS ==> Addr(d, n.(size := z), s) == Addr(d, n, s)
    ensures forall p :: 0 <= p < MAXBYTES ==> FileByte(d, n.(size := z), p) == FileByte(d, n, p)
  {
    forall p | 0 <= p < MAXBYTES
      ensures FileByte(d, n.(size := z), p) == FileByte(d, n, p)
    {
      assert FileBlock(d, n.(size := z), p / BSIZE) == FileBlock(d, n, p / BSIZE);
    }
  }

  /** Raising the size to the next block boundary appends the zeros that are in the last block already. */
  lemma RoundAppends(g: Geometry, v: Disk, owner: Owner, fs: seq<HostFile>, j: nat, n: Inode, src: seq<byte>)
    requires Holding(g, v, owner, fs) && 1 <= j <= |fs| && n == InodeAt(g, v, j) && n.size % BSIZE != 0
    requires src == Zeros(BSIZE - n.size % BSIZE) && n.size <= MAXBYTES
    requires Appending(g, v, v, j, n, n, src, 0)
    ensures Appending(g, v, v, j, n, n, src, |src|) && n.size + |src| == (n.size / BSIZE + 1) * BSIZE
    ensures Blocks(n.size + |src|) == Blocks(n.size)
  {
    hide OthersSame, SameInodes, FileByte, Addr, Mapped, Owned, InodeAt;
    assert Slot(v, InodeAt(g, v, j), j, fs);
    assert Sized(v, TableOf(g, v)[j]);
    ExactInside(v, n, n.size);
    ExactSpan(v, n, n.size, |src|);
    BlocksStep(n.size, |src|);
    assert src[..|src|] == src;
  }

  /** Past a boundary there is no block to hold the bytes below the new size. */
  lemma RoundBreaks(g: Geometry, v: Disk, owner: Owner, fs: seq<HostFile>, j: nat, v': Disk, owner': Owner)
    requires Holding(g, v, owner, fs) && 1 <= j <= |fs| && InodeAt(g, v, j).size % BSIZE == 0 && InodeAt(g, v, j).size <= MAXBYTES
    requires var n := InodeAt(g, v, j); v' == StoreInode(g, v, j, n.(size := (n.size / BSIZE + 1) * BSIZE))
    ensures g.Fits(v') && !Sound(g, v', TableOf(g, v'), owner')
  {
    hide Owned, InodeAt, StoreInode, Exact, FileIs;
    var n: Inode := InodeAt(g, v, j);
    var n': Inode := n.(size := (n.size / BSIZE + 1) * BSIZE);
    var t := TableOf(g, v)[j := n'];
    assert Slot(v, n, j, fs);
    assert Sized(v, TableOf(g, v)[j]);
    HeldType(g, fs, j, v, n);
    Resized(g, v, TableOf(g, v), owner, j, n'.size);
    assert t == TableOf(g, v)[j := TableOf(g, v)[j].(size := n'.size)];
    StoreEffect(g, v, t, owner, j, n');
    RoundedDirectory(v, n);
    assert TableOf(g, v')[j] == n';
    if Sized(v', n') {
      SameFileKeeps(v', n', v, n');
    }
  }

  lemma HeldType(g: Geometry, fs: seq<HostFile>, j: nat, v: Disk, n: Inode)
    requires 1 <= j <= |fs| && Slot(v, n, j, fs) && forall k :: 0 <= k < |fs| ==> HostOk(fs[k])
    ensures n.typ != 0
  {
    assert HostOk(fs[j - 1]);
  }

  // ---------- what a run of the builder makes ----------

  datatype Request = NewFile(typ: short) | Append(inum: nat, data: seq<byte>) | RoundUp(inum: nat)

  /** The request names a file that exists, or makes one the inode table has room for; a
      size that is on a block boundary is not rounded up. */
  predicate Proper(g: Geometry, fs: seq<HostFile>, q: Request) {
    match q
    case NewFile(typ) => HostOk(HostFile(typ, [])) && |fs| + 1 < g.ninodes
    case Append(inum, _) => 1 <= inum <= |fs|
    case RoundUp(inum) => 1 <= inum <= |fs| && |fs[inum - 1].data| % BSIZE != 0
  }

  function Serve(fs: seq<HostFile>, q: Request): (r: seq<HostFile>)
    requires !q.NewFile? ==> 1 <= q.inum <= |fs|
    decreases q.RoundUp?
  {
    match q
    case NewFile(typ) => fs + [HostFile(typ, [])]
    case Append(inum, data) => fs[inum - 1 := HostFile(fs[inum - 1].typ, fs[inum - 1].data + data)]
    case RoundUp(inum) => Serve(fs, Append(inum, Zeros(BSIZE - |fs[inum - 1].data| % BSIZE)))
  }

  predicate ProperAll(g: Geometry, fs: seq<HostFile>, qs: seq<Request>)
    decreases |qs|
  {
    qs == [] || (Proper(g, fs, qs[0]) && ProperAll(g, Serve(fs, qs[0]), qs[1..]))
  }

  function ServeAll(g: Geometry, fs: seq<HostFile>, qs: seq<Request>): seq<HostFile>
    requires ProperAll(g, fs, qs)
    decreases |qs|
  {
    if qs == [] then fs else ServeAll(g, Serve(fs, qs[0]), qs[1..])
  }

  /** The request at `i` is proper for the files so far, and serving it leaves the same end. */
  lemma NextRequest(g: Geometry, fs: seq<HostFile>, qs: seq<Request>, i: nat)
    requires i < |qs| && ProperAll(g, fs, qs[i..])
    ensures Proper(g, fs, qs[i]) && ProperAll(g, Serve(fs, qs[i]), qs[i + 1..])
    ensures ServeAll(g, Serve(fs, qs[i]), qs[i + 1..]) == ServeAll(g, fs, qs[i..])
  {
    assert qs[i..][1..] == qs[i + 1..];
  }

  lemma NothingLeft(g: Geometry, fs: seq<HostFile>, qs: seq<Request>)
    requires ProperAll(g, fs, qs[|qs|..])
    ensures ServeAll(g, fs, qs[|qs|..]) == fs
  {
  }

  /** No file is longer than the block map allows, and all their blocks fit. */
  predicate Fitting(g: Geometry, fs: seq<HostFile>) {
    (forall k :: 0 <= k < |fs| ==> |fs[k].data| <= MAXBYTES) && g.Meta() + Total(fs) <= g.size
  }

  /** What does not fit never fits later. */
  lemma {:induction false} FittingBefore(g: Geometry, fs: seq<HostFile>, qs: seq<Request>)
    requires ProperAll(g, fs, qs) && Fitting(g, ServeAll(g, fs, qs))
    ensures Fitting(g, fs)
    decreases |qs|
  {
    if qs != [] {
      FittingBefore(g, Serve(fs, qs[0]), qs[1..]);
      FittingOne(g, fs, qs[0]);
    }
  }

  lemma FittingOne(g: Geometry, fs: seq<HostFile>, q: Request)
    requires Proper(g, fs, q) && Fitting(g, Serve(fs, q))
    ensures Fitting(g, fs)
  {
    var fs' := Serve(fs, q);
    match q
    case NewFile(typ) =>
      assert fs'[..|fs'| - 1] == fs;
      forall k | 0 <= k < |fs|
        ensures |fs[k].data| <= MAXBYTES
      {
        assert fs[k] == fs'[k];
      }
    case Append(inum, data) => FittingAppend(g, fs, inum, data);
    case RoundUp(inum) => FittingAppend(g, fs, inum, Zeros(BSIZE - |fs[inum - 1].data| % BSIZE));
  }

  lemma FittingAppend(g: Geometry, fs: seq<HostFile>, inum: nat, data: seq<byte>)
    requires 1 <= inum <= |fs| && Fitting(g, Serve(fs, Append(inum, data)))
    ensures Fitting(g, fs)
  {
    hide Total, Blocks;
    TotalUpdate(fs, inum - 1, HostFile(fs[inum - 1].typ, fs[inum - 1].data + data));
    BlocksMonotone(|fs[inum - 1].data|, |fs[inum - 1].data + data|);
    forall k | 0 <= k < |fs|
      ensures |fs[k].data| <= MAXBYTES
    {
      ShorterBefore(fs, inum, data, k);
    }
  }

  lemma ShorterBefore(fs: seq<HostFile>, inum: nat, data: seq<byte>, k: nat)
    requires 1 <= inum <= |fs| && k < |fs|
    ensures |fs[k].data| <= |Serve(fs, Append(inum, data))[k].data|
  {
  }

  lemma Superblock(size: word, nblocks: word, ninodes: word)
    ensures var b := PutWord(PutWord(PutWord(ZeroBlock(), 0, size), 1, nblocks), 2, ninodes);
      GetWord(b, 0) == size && GetWord(b, 1) == nblocks && GetWord(b, 2) == ninodes
  {
    hide GetWord, PutWord;
    var z := ZeroBlock();
    GetPutWord(z, 0, size);
    GetPutWord(PutWord(z, 0, size), 1, nblocks);
    GetPutWord(PutWord(PutWord(z, 0, size), 1, nblocks), 2, ninodes);
    assert GetWord(PutWord(PutWord(z, 0, size), 1, nblocks), 0) == size;
  }

  lemma BitmapStart(g: Geometry, d: Disk)
    requires NoBits(g, d)
    ensures g.Meta() <= |d| && g.BBlock(0) == g.ninodes / IPB + 3 < |d| && MarkFirst(g, d, 0) == d[g.BBlock(0) := ZeroBlock()]
  {
    Regions(g, 0, 0);
    assert d[g.BBlock(0)] == ZeroBlock();
  }

  lemma AppendingExact(g: Geometry, v0: Disk, v: Disk, j: nat, n0: Inode, n: Inode, src: seq<byte>, tot: nat)
    requires Appending(g, v0, v, j, n0, n, src, tot)
    ensures Exact(v, n, n0.size + tot)
  {
  }

  /** Pieces of one block take as many new blocks as their first byte does. */
  lemma BlocksPiece(off: nat, m: nat)
    requires 0 < m <= (off / BSIZE + 1) * BSIZE - off
    ensures Blocks(off + m) == Blocks(off + 1)
  {
    assert (off / BSIZE + 1) * BSIZE - off == BSIZE - off % BSIZE;
    BlocksStep(off, m);
    BlocksStep(off, 1);
  }

  /** Whether an append fits, in terms of the one file it changes. */
  lemma FitsAfter(g: Geometry, fs: seq<HostFile>, inum: nat, data: seq<byte>)
    requires Fitting(g, fs) && 1 <= inum <= |fs|
    ensures var z := |fs[inum - 1].data|;
      && Total(Serve(fs, Append(inum, data))) == Total(fs) + Blocks(z + |data|) - Blocks(z)
      && (Fitting(g, Serve(fs, Append(inum, data)))
          <==> z + |data| <= MAXBYTES && g.Meta() + Total(fs) + Blocks(z + |data|) - Blocks(z) <= g.size)
  {
    hide Total, Blocks;
    var f := HostFile(fs[inum - 1].typ, fs[inum - 1].data + data);
    TotalUpdate(fs, inum - 1, f);
    assert Serve(fs, Append(inum, data))[inum - 1] == f;
  }
}
