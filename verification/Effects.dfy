/** What each file operation does, stated on disk values: the lemmas that the
    methods of the file system call, and the predicates their contracts use. */
module Effects {
  import opened Options
  import opened Words
  import opened Layout
  import opened BlockMap
  import opened Files
  import opened Release

  function TableOf(g: Geometry, d: Disk): (t: Table)
    requires g.Fits(d)
    ensures |t| == g.ninodes && forall i :: 0 <= i < g.ninodes ==> t[i] == InodeAt(g, d, i)
  {
    seq<Inode>(g.ninodes, i requires 0 <= i < g.ninodes => InodeAt(g, d, i))
  }

  lemma SameTable(g: Geometry, d: Disk, d': Disk)
    requires g.Fits(d) && g.Fits(d') && SameInodes(g, d, d')
    ensures TableOf(g, d') == TableOf(g, d)
  {
  }

  /** Storing an inode makes the disk table current and changes no block map. */
  lemma StoreEffect(g: Geometry, d: Disk, t: Table, owner: Owner, i: nat, n: Inode)
    requires g.Fits(d) && i < g.ninodes && t == TableOf(g, d)[i := n] && Owned(g, d, t, owner)
    ensures g.Fits(StoreInode(g, d, i, n)) && Owned(g, StoreInode(g, d, i, n), t, owner)
    ensures TableOf(g, StoreInode(g, d, i, n)) == t
    ensures forall k :: 0 <= k < |t| ==> SameFile(d, t[k], StoreInode(g, d, i, n), t[k])
  {
    var d' := StoreInode(g, d, i, n);
    StoreInodeFrame(g, d, i, n);
    SameDataRaw(g, d, t, owner, d');
    Regions(g, 0, 0);
    KeepOwned(g, d, t, owner, d', t);
  }

  /** Bit `bi` of the bitmap block that starts at block number `b`. */
  lemma BitHere(g: Geometry, d: Disk, b: nat, bi: nat)
    requires g.Fits(d) && b % BPB == 0 && bi < BPB && b + bi < g.Bits()
    ensures g.BBlock(b) < g.size
    ensures Bit(g, d, b + bi) == BitOf(d[g.BBlock(b)][bi / 8], bi % 8)
    ensures var bp := d[g.BBlock(b)];
      SetBit(g, d, b + bi, true) == d[g.BBlock(b) := bp[bi / 8 := WithBit8(bp[bi / 8], bi % 8, true)]]
  {
    Regions(g, 0, b + bi);
    SameBitmapBlock(b, bi);
  }

  lemma SameBitmapBlock(b: nat, bi: nat)
    requires b % BPB == 0 && bi < BPB
    ensures (b + bi) / BPB == b / BPB && (b + bi) % BPB == bi && (b + bi) % 8 == bi % 8
  {
    var q, m := b / BPB, bi / 8;
    assert b + bi == q * BPB + bi;
    assert b + bi == (q * 512 + m) * 8 + bi % 8;
  }

  lemma Unchanged(g: Geometry, d: Disk, t: Table, j: nat)
    requires g.Fits(d) && j < |t|
    ensures Grew(d, t, d, t, j) && SameInodes(g, d, d)
  {
  }

  lemma SameInodesTrans(g: Geometry, d: Disk, d1: Disk, d2: Disk)
    requires g.Fits(d) && g.Fits(d1) && g.Fits(d2) && SameInodes(g, d, d1) && SameInodes(g, d1, d2)
    ensures SameInodes(g, d, d2)
  {
  }

  /** No block below the size of the file system is free. */
  ghost predicate AllInUse(g: Geometry, d: Disk) {
    g.Fits(d) && forall c :: 0 <= c < g.size ==> c < g.Bits() && Bit(g, d, c)
  }

  lemma OutOfBlocks(g: Geometry, d: Disk, b: Option<nat>, d': Disk)
    requires g.Fits(d)
    requires b.Some? ==> g.size <= b.value < g.Bits() && d' == SetBit(g, d, b.value, true)
                         && forall c :: 0 <= c < b.value ==> Bit(g, d, c)
    requires b.None? ==> d' == d && forall c :: 0 <= c < g.Bits() ==> Bit(g, d, c)
    ensures AllInUse(g, d')
  {
    Regions(g, 0, 0);
    if b.Some? {
      SetBitFrame(g, d, b.value, true);
    }
  }

  lemma StampedSums(d: Disk, t: Table, t': Table, j: nat, bn: nat, c: byte, d': Disk)
    requires j < |t| && bn < MAXFILE && c == Checksum(FileBlock(d, t[j], bn))
    requires RawChange(d, t, d', t', j, DataSlot(bn), Stamp(Raw(d, t[j], DataSlot(bn)), c))
    requires forall s :: 0 <= s < SLOTS ==> Addr(d', t'[j], s) == Addr(d, t[j], s)
    requires forall k :: 0 <= k < MAXFILE ==> FileBlock(d', t'[j], k) == FileBlock(d, t[j], k)
    ensures SummedBut(d, t[j], bn) ==> Summed(d', t'[j])
  {
    if SummedBut(d, t[j], bn) {
      RestampedSums(d, t[j], d', t'[j], bn, c);
    }
  }

  lemma SliceJoin(c: seq<byte>, i: nat, j: nat, k: nat)
    requires i <= j <= k <= |c|
    ensures c[i..j] + c[j..k] == c[i..k]
  {
  }

  lemma RangeEmpty(d: Disk, n: Inode, off: nat)
    ensures RangeOk(d, n, off, 0)
  {
  }

  lemma RangeFails(d: Disk, n: Inode, off: nat, tot: nat, m: nat)
    requires tot < m && (off + tot) / BSIZE < MAXFILE && !SumOk(d, n, (off + tot) / BSIZE)
    ensures !RangeOk(d, n, off, m)
  {
    hide SumOk;
  }

  lemma RangeGrows(d: Disk, n: Inode, off: nat, tot: nat, m: nat)
    requires 0 < m <= BSIZE - (off + tot) % BSIZE && (off + tot) / BSIZE < MAXFILE
    requires RangeOk(d, n, off, tot) && SumOk(d, n, (off + tot) / BSIZE)
    ensures RangeOk(d, n, off, tot + m)
  {
    hide SumOk;
  }

  lemma MappedBlock(d: Disk, n: Inode, bn: nat)
    requires bn < MAXFILE && 0 < Addr(d, n, DataSlot(bn)) < |d|
    ensures FileBlock(d, n, bn) == d[Addr(d, n, DataSlot(bn))]
  {
  }

  /** How much of an `n`-byte write at `off` fits below the largest file size. */
  function Clamp(off: nat, n: nat): (m: nat)
    ensures m <= n
  {
    if off + n <= MAXBYTES then n else if off <= MAXBYTES then MAXBYTES - off else 0
  }

  lemma MappedGrows(d: Disk, n: Inode, d': Disk, n': Inode, z: nat, off: nat, m: nat)
    requires MappedBelow(d, n, z) && StillMapped(d, n, d', n') && off <= z && off / BSIZE < MAXFILE
    requires Addr(d', n', DataSlot(off / BSIZE)) != 0 && m <= BSIZE - off % BSIZE
    ensures MappedBelow(d', n', if z < off + m then off + m else z)
  {
    hide Addr;
  }

  lemma SizeBound(g: Geometry, d: Disk, t: Table, owner: Owner, j: nat)
    requires Sound(g, d, t, owner) && j < |t|
    ensures t[j].size <= MAXBYTES
  {
    assert Sized(d, t[j]);
  }

  lemma WriteStart(g: Geometry, d: Disk, t: Table, owner: Owner, j: nat)
    requires Sound(g, d, t, owner) && j < |t|
    ensures SameInodes(g, d, d) && OthersSame(d, t, d, t, j) && Owned(g, d, t, owner)
    ensures forall off :: Spliced(d, t[j], d, t[j], off, [])
    ensures MappedBelow(d, t[j], t[j].size) && (t[j].typ == T_CHECKED ==> Summed(d, t[j]))
  {
    assert Sized(d, t[j]);
  }

  lemma Resized(g: Geometry, d: Disk, t: Table, owner: Owner, j: nat, z: word)
    requires Owned(g, d, t, owner) && j < |t| && t[j].typ != 0
    ensures Owned(g, d, t[j := t[j].(size := z)], owner)
  {
    Regions(g, 0, 0);
    KeepOwned(g, d, t, owner, d, t[j := t[j].(size := z)]);
  }

  /** The size is not part of the block map. */
  lemma ResizedFile(d0: Disk, n0: Inode, d: Disk, n: Inode, off: nat, src: seq<byte>, z: word, sums: bool)
    requires Spliced(d0, n0, d, n, off, src) && MappedBelow(d, n, z)
    requires sums ==> Summed(d, n)
    ensures FileReady(d0, n0, d, n.(size := z), off, src, z, sums)
  {
    ReadyKeeps(d0, n0, d, n, d, n.(size := z), off, src, z, sums);
  }

  ghost predicate FileReady(d0: Disk, n0: Inode, d: Disk, n: Inode, off: nat, src: seq<byte>, z: word, sums: bool) {
    Spliced(d0, n0, d, n, off, src) && MappedBelow(d, n, z) && (sums ==> Summed(d, n))
  }

  lemma ResizedOthers(d0: Disk, t0: Table, d: Disk, t: Table, j: nat, z: word)
    requires OthersSame(d0, t0, d, t, j) && j < |t|
    ensures OthersSame(d0, t0, d, t[j := t[j].(size := z)], j)
  {
  }

  lemma StoredAll(d0: Disk, n0: Inode, d: Disk, t: Table, d': Disk, j: nat, off: nat, src: seq<byte>, z: word, sums: bool)
    requires j < |t| && SameFile(d, t[j], d', t[j]) && FileReady(d0, n0, d, t[j], off, src, z, sums)
    ensures FileReady(d0, n0, d', t[j], off, src, z, sums)
  {
    ReadyKeeps(d0, n0, d, t[j], d', t[j], off, src, z, sums);
  }

  lemma ReadyKeeps(d0: Disk, n0: Inode, d: Disk, n: Inode, d': Disk, n': Inode, off: nat, src: seq<byte>, z: word, sums: bool)
    requires SameReads(d, n, d', n') && n'.typ == n.typ && FileReady(d0, n0, d, n, off, src, z, sums)
    ensures FileReady(d0, n0, d', n', off, src, z, sums)
  {
    hide FileBlock, Raw;
    forall p | 0 <= p < MAXBYTES
      ensures FileByte(d', n', p) == FileByte(d, n, p)
    {
      assert FileBlock(d', n', p / BSIZE) == FileBlock(d, n, p / BSIZE);
    }
    forall k | 0 <= k < MAXFILE
      ensures Addr(d', n', DataSlot(k)) == Addr(d, n, DataSlot(k))
    {
      assert Raw(d', n', DataSlot(k)) == Raw(d, n, DataSlot(k));
    }
    if sums {
      assert Raw(d', n', NDIRECT) == Raw(d, n, NDIRECT);
      forall k | 0 <= k < MAXFILE
        ensures SumOk(d', n', k)
      {
        assert SumOk(d, n, k);
      }
    }
  }

  lemma OthersStored(d0: Disk, t0: Table, d: Disk, t: Table, d': Disk, j: nat)
    requires OthersSame(d0, t0, d, t, j) && j < |t| && forall k :: 0 <= k < |t| ==> SameFile(d, t[k], d', t[k])
    ensures OthersSame(d0, t0, d', t, j)
  {
    WrittenThenStamped(d0, t0, d, t, d', t, j);
  }

  /** `c` with `s` laid over it from `off`, growing it if `s` reaches past its end. */
  function Overlay(c: seq<byte>, off: nat, s: seq<byte>): seq<byte>
    requires off <= |c|
  {
    if off + |s| <= |c| then c[..off] + s + c[off + |s|..] else c[..off] + s
  }

  /** What a successful write of `src` at `off` to inode `j` leaves on the disk. */
  ghost predicate WriteResult(g: Geometry, d: Disk, j: nat, d': Disk, n': Inode, off: nat, src: seq<byte>) {
    g.Fits(d) && g.Fits(d') && j < g.ninodes && var n := InodeAt(g, d, j);
    && InodeAt(g, d', j) == n'
    && off <= n.size <= MAXBYTES && n'.size <= MAXBYTES
    && n' == n.(addrs := n'.addrs, size := n'.size)
    && Contents(d', n') == Overlay(Contents(d, n), off, src)
    && forall i :: 0 <= i < g.ninodes && i != j ==> SameFile(d, InodeAt(g, d, i), d', InodeAt(g, d', i))
  }

  lemma WriteDone(g: Geometry, d0: Disk, t0: Table, owner0: Owner, d: Disk, t: Table, owner: Owner, j: nat,
                  off: nat, src: seq<byte>)
    requires Sound(g, d0, t0, owner0) && Owned(g, d, t, owner) && j < |t0|
    requires g.Fits(d0) && g.Fits(d) && t0 == TableOf(g, d0) && t == TableOf(g, d)
    requires OthersSame(d0, t0, d, t, j) && t[j] == t0[j].(addrs := t[j].addrs, size := t[j].size)
    requires off <= t0[j].size && off + |src| <= MAXBYTES
    requires t[j].size == if off + |src| > t0[j].size then off + |src| else t0[j].size
    requires FileReady(d0, t0[j], d, t[j], off, src, t[j].size, t[j].typ == T_CHECKED)
    ensures Sound(g, d, t, owner) && WriteResult(g, d0, j, d, t[j], off, src)
  {
    hide Raw, FileBlock, Addr, Owned, FileByte, InodeAt, SumOk, SameReads;
    assert Sized(d0, t0[j]);
    assert Sized(d, t[j]) by {
      SizedAfter(d0, t0[j], d, t[j], off, src);
    }
    forall i | 0 <= i < |t| && i != j
      ensures Sized(d, t[i]) && (t[i].typ == T_CHECKED ==> Summed(d, t[i]))
    {
      assert SameFile(d0, t0[i], d, t[i]);
      assert Sized(d0, t0[i]);
      SameFileKeeps(d0, t0[i], d, t[i]);
    }
    OverlayContents(d0, t0[j], d, t[j], off, src);
    assert forall i :: 0 <= i < g.ninodes ==> InodeAt(g, d0, i) == t0[i] && InodeAt(g, d, i) == t[i];
  }

  lemma SizedAfter(d0: Disk, n0: Inode, d: Disk, n: Inode, off: nat, src: seq<byte>)
    requires Sized(d0, n0) && Spliced(d0, n0, d, n, off, src) && MappedBelow(d, n, n.size)
    requires off <= n0.size && off + |src| <= MAXBYTES
    requires n.size == if off + |src| > n0.size then off + |src| else n0.size
    ensures Sized(d, n)
  {
    hide FileByte, Addr;
  }

  lemma OverlayContents(d0: Disk, n0: Inode, d: Disk, n: Inode, off: nat, src: seq<byte>)
    requires Spliced(d0, n0, d, n, off, src) && n0.size <= MAXBYTES
    requires off <= n0.size && off + |src| <= MAXBYTES
    requires n.size == if off + |src| > n0.size then off + |src| else n0.size
    ensures Contents(d, n) == Overlay(Contents(d0, n0), off, src)
  {
    hide FileByte;
    var a, b := Contents(d, n), Overlay(Contents(d0, n0), off, src);
    assert |a| == |b|;
    forall p | 0 <= p < |a|
      ensures a[p] == b[p]
    {
      assert a[p] == FileByte(d, n, p);
    }
  }

  lemma EntriesSmall(d: Disk, n: Inode, ib: nat)
    requires 0 < ib < |d| && n.addrs[NDIRECT] == ib < TOP
    ensures (forall i :: 0 <= i < NINDIRECT ==> GetWord(d[ib], i) < TOP)
       <==> (forall s :: NDIRECT < s < SLOTS ==> Raw(d, n, s) < TOP)
  {
    hide GetWord;
    if forall s :: NDIRECT < s < SLOTS ==> Raw(d, n, s) < TOP {
      forall i | 0 <= i < NINDIRECT
        ensures GetWord(d[ib], i) < TOP
      {
        assert Raw(d, n, i + NDIRECT + 1) < TOP;
      }
    }
  }

  lemma IndirectInRange(g: Geometry, d0: Disk, t0: Table, owner0: Owner, d: Disk, t: Table, owner: Owner, j: nat, done: set<nat>)
    requires Truncated(g, d0, t0, owner0, d, t, owner, j, done) && 0 < t[j].addrs[NDIRECT] < TOP
    ensures g.Meta() <= t[j].addrs[NDIRECT] < g.size
  {
    AddrInRange(g, d, t, owner, j, NDIRECT);
  }

  lemma NotPlaced(g: Geometry, d: Disk, t: Table, owner: Owner, b: nat)
    requires Owned(g, d, t, owner) && b in owner
    ensures owner[b].0 < |t| && owner[b].1 < SLOTS && Raw(d, t[owner[b].0], owner[b].1) != 0
  {
    assert Placed(g, d, t, owner, b);
  }

  /** No indirect block: all its entries read as zero already. */
  lemma EmptyIndirect(g: Geometry, d0: Disk, t0: Table, owner0: Owner, d: Disk, t: Table, owner: Owner, j: nat, done: set<nat>)
    requires Truncated(g, d0, t0, owner0, d, t, owner, j, done) && t[j].addrs[NDIRECT] == 0
    ensures Truncated(g, d0, t0, owner0, d, t, owner, j, done + Slots(NDIRECT, SLOTS))
    ensures forall s :: NDIRECT < s < SLOTS ==> Raw(d, t[j], s) < TOP
  {
    assert Owned(g, d, t, owner);
    assert forall s :: NDIRECT <= s < SLOTS ==> Raw(d, t[j], s) == 0;
    hide Bit, InodeAt, SameReads, Raw, Addr, SameFile, Owned, SameInodes, OthersSame, Low;
    forall b | b in owner
      ensures !(owner[b].0 == j && NDIRECT <= owner[b].1)
    {
      NotPlaced(g, d, t, owner, b);
    }
  }

  /** All entries read as zero, so the indirect block can go. */
  lemma IndirectEmptied(g: Geometry, d0: Disk, t0: Table, owner0: Owner, d: Disk, t: Table, owner: Owner, j: nat, done: set<nat>, ib: nat)
    requires g.Fits(d) && g.Meta() <= ib < g.size && ib < TOP && j < |t| && t[j].typ != 0 && t[j].addrs[NDIRECT] == ib
    requires Truncated(g, d0, t0, owner0, Emptied(d, ib, NINDIRECT), t, owner, j, done)
    ensures ib < g.Bits() && Bit(g, d, ib) && g.Fits(Freed(g, d, ib)) && SameInodes(g, d, Freed(g, d, ib))
    ensures Truncated(g, d0, t0, owner0, Freed(g, d, ib), t[j := t[j].(addrs := t[j].addrs[NDIRECT := 0])], owner - {ib}, j,
                      done + {NDIRECT})
  {
    var dv := Emptied(d, ib, NINDIRECT);
    ClearedEnds(d[ib]);
    assert Raw(dv, t[j], NDIRECT) == ib;
    ZeroIndirect(dv, t[j], ib);
    FreedTwice(g, d, ib, dv);
    hide *;
    TruncateDirect(g, d0, t0, owner0, dv, t, owner, j, done, NDIRECT);
  }

  lemma ZeroIndirect(d: Disk, n: Inode, ib: nat)
    requires ib < |d| && d[ib] == ZeroBlock() && n.addrs[NDIRECT] == ib < TOP
    ensures forall r :: NDIRECT < r < SLOTS ==> Raw(d, n, r) == 0
  {
    forall r | NDIRECT < r < SLOTS
      ensures Raw(d, n, r) == 0
    {
      ZeroWords(r - NDIRECT - 1);
    }
  }

  lemma FreedTwice(g: Geometry, d: Disk, ib: nat, dv: Disk)
    requires g.Fits(d) && g.Meta() <= ib < g.size && dv == d[ib := ZeroBlock()]
    ensures g.Fits(dv) && Freed(g, dv, ib) == Freed(g, d, ib) && ib < g.Bits() && Bit(g, dv, ib) == Bit(g, d, ib)
    ensures g.Fits(Freed(g, d, ib)) && SameInodes(g, d, Freed(g, d, ib))
  {
    assert dv[ib := ZeroBlock()] == d[ib := ZeroBlock()];
    Regions(g, 0, ib);
    DataFrame(g, d, ib, ZeroBlock());
    FreedFrame(g, d, ib);
  }

  /** No stored word carries a checksum byte. */
  ghost predicate Truncatable(d: Disk, n: Inode) {
    forall s :: 0 <= s < SLOTS ==> Raw(d, n, s) < TOP
  }

  lemma NotTruncatable(d: Disk, n: Inode, s: nat)
    requires s < SLOTS && Raw(d, n, s) >= TOP
    ensures !Truncatable(d, n)
  {
  }

  /** Every block of the file, mapped or not, has checksum zero. */
  ghost predicate SumsZero(d: Disk, n: Inode) {
    forall bn :: 0 <= bn < MAXFILE ==> Checksum(FileBlock(d, n, bn)) == 0
  }

  /** Truncation works for every file that is not T_CHECKED, and for a T_CHECKED file exactly
      when all its checksums happen to be zero. */
  lemma TruncatableExactly(g: Geometry, d: Disk, t: Table, owner: Owner, j: nat)
    requires Sound(g, d, t, owner) && j < |t|
    ensures Truncatable(d, t[j]) <==> t[j].typ != T_CHECKED || SumsZero(d, t[j])
  {
    if t[j].typ == T_CHECKED {
      assert Summed(d, t[j]);
      CheckedTruncatable(d, t[j]);
    } else {
      forall s | 0 <= s < SLOTS
        ensures Raw(d, t[j], s) < TOP
      {
        if Addr(d, t[j], s) != 0 {
          AddrInRange(g, d, t, owner, j, s);
        }
      }
    }
  }

  lemma CheckedTruncatable(d: Disk, n: Inode)
    requires Summed(d, n)
    ensures Truncatable(d, n) <==> SumsZero(d, n)
  {
    hide Raw, FileBlock, Checksum;
    forall bn | 0 <= bn < MAXFILE
      ensures Raw(d, n, DataSlot(bn)) < TOP <==> Checksum(FileBlock(d, n, bn)) == 0
    {
      assert SumOk(d, n, bn);
    }
    if SumsZero(d, n) {
      forall s | 0 <= s < SLOTS
        ensures Raw(d, n, s) < TOP
      {
        if s != NDIRECT {
          var bn := if s < NDIRECT then s else s - 1;
          assert s == DataSlot(bn) && Checksum(FileBlock(d, n, bn)) == 0;
        }
      }
    }
  }

  lemma TruncatableBySlots(d: Disk, n: Inode)
    requires forall s :: 0 <= s < NDIRECT ==> Raw(d, n, s) < TOP
    ensures Truncatable(d, n) <==> n.addrs[NDIRECT] < TOP && forall s :: NDIRECT < s < SLOTS ==> Raw(d, n, s) < TOP
  {
    assert Raw(d, n, NDIRECT) == n.addrs[NDIRECT];
    hide Raw;
  }

  lemma TruncateStart(g: Geometry, d: Disk, t: Table, owner: Owner, j: nat)
    requires Sound(g, d, t, owner) && j < |t|
    ensures Owned(g, d, t, owner) && SameInodes(g, d, d) && Truncated(g, d, t, owner, d, t, owner, j, Slots(0, 0))
  {
  }

  lemma SlotsLeft(g: Geometry, d0: Disk, t0: Table, owner0: Owner, d: Disk, t: Table, owner: Owner, j: nat, done: set<nat>, s: nat)
    requires Truncated(g, d0, t0, owner0, d, t, owner, j, done) && s < NDIRECT && s !in done
    ensures t[j].addrs[s] == Raw(d0, t0[j], s)
  {
    assert Raw(d, t[j], s) == Raw(d0, t0[j], s);
  }

  lemma IndirectLeft(g: Geometry, d0: Disk, t0: Table, owner0: Owner, d: Disk, t: Table, owner: Owner, j: nat)
    requires Truncated(g, d0, t0, owner0, d, t, owner, j, Slots(0, NDIRECT))
    ensures t[j].addrs[NDIRECT] == t0[j].addrs[NDIRECT]
    ensures forall s :: NDIRECT < s < SLOTS ==> Raw(d, t[j], s) == Raw(d0, t0[j], s)
  {
    assert Raw(d, t[j], NDIRECT) == Raw(d0, t0[j], NDIRECT);
  }

  lemma TruncatedOwned(g: Geometry, d0: Disk, t0: Table, owner0: Owner, d: Disk, t: Table, owner: Owner, j: nat, done: set<nat>)
    requires Truncated(g, d0, t0, owner0, d, t, owner, j, done)
    ensures Owned(g, d, t, owner) && j < |t|
  {
  }

  /** What truncating inode `j` leaves on the disk: an empty file, its blocks (and
      only those) free again, and every other inode and file as it was. */
  ghost predicate TruncResult(g: Geometry, d: Disk, j: nat, d': Disk) {
    && g.Fits(d) && g.Fits(d') && j < g.ninodes
    && InodeAt(g, d', j) == InodeAt(g, d, j).(size := 0, addrs := FreeInode().addrs)
    && (forall i :: 0 <= i < g.ninodes && i != j ==> SameFile(d, InodeAt(g, d, i), d', InodeAt(g, d', i)))
    && OnlyFreed(g, d, InodeAt(g, d, j), d')
  }

  /** The data blocks in use are those that were, less the ones `n` reached. */
  ghost predicate OnlyFreed(g: Geometry, d: Disk, n: Inode, d': Disk)
    requires g.Fits(d) && g.Fits(d')
  {
    forall b :: g.Meta() <= b < g.size ==> UsedStill(g, d, n, d', b)
  }

  ghost predicate UsedStill(g: Geometry, d: Disk, n: Inode, d': Disk, b: nat)
    requires g.Fits(d) && g.Fits(d')
  {
    b < g.Bits() && (Bit(g, d', b) <==> Bit(g, d, b) && !Reaches(d, n, b))
  }

  ghost predicate Reaches(d: Disk, n: Inode, b: nat) {
    exists s :: 0 <= s < SLOTS && Addr(d, n, s) == b
  }

  lemma TruncateDone(g: Geometry, d0: Disk, t0: Table, owner0: Owner, d1: Disk, t1: Table, owner: Owner, j: nat, d: Disk, t: Table)
    requires Sound(g, d0, t0, owner0) && g.Fits(d) && j < |t0| && t0 == TableOf(g, d0) && t == TableOf(g, d)
    requires Truncated(g, d0, t0, owner0, d1, t1, owner, j, Slots(0, SLOTS))
    requires t == t1[j := t1[j].(size := 0)] && Owned(g, d, t, owner)
    requires forall k :: 0 <= k < |t| ==> SameFile(d1, t[k], d, t[k])
    ensures Sound(g, d, t, owner) && TruncResult(g, d0, j, d)
  {
    assert OthersSame(d0, t0, d1, t1, j) && OwnerLeft(owner0, owner, j, Slots(0, SLOTS)) && Owned(g, d0, t0, owner0);
    assert |t| == |t1| == |t0| == g.ninodes && g.Fits(d0);
    hide *;
    TruncatedEmpty(g, d0, t0, owner0, d1, t1, owner, j, d, t);
    ResizedOthers(d0, t0, d1, t1, j, 0);
    OthersStored(d0, t0, d1, t, d, j);
    OthersStaySound(g, d0, t0, owner0, d, t, owner, j);
    TruncatedBits(g, d0, t0, owner0, d, t, owner, j);
    TruncResultMeans(g, d0, t0, j, d, t);
  }

  lemma TruncResultMeans(g: Geometry, d0: Disk, t0: Table, j: nat, d: Disk, t: Table)
    requires g.Fits(d0) && g.Fits(d) && j < g.ninodes && t0 == TableOf(g, d0) && t == TableOf(g, d)
    requires t[j] == t0[j].(size := 0, addrs := FreeInode().addrs) && OthersSame(d0, t0, d, t, j)
    requires OnlyFreed(g, d0, t0[j], d)
    ensures TruncResult(g, d0, j, d)
  {
    assert forall i :: 0 <= i < g.ninodes ==> InodeAt(g, d0, i) == t0[i] && InodeAt(g, d, i) == t[i];
    hide Bit, Addr, SameReads, InodeAt, OnlyFreed;
  }

  lemma TruncatedEmpty(g: Geometry, d0: Disk, t0: Table, owner0: Owner, d1: Disk, t1: Table, owner: Owner, j: nat, d: Disk, t: Table)
    requires Truncated(g, d0, t0, owner0, d1, t1, owner, j, Slots(0, SLOTS)) && t == t1[j := t1[j].(size := 0)]
    requires SameFile(d1, t[j], d, t[j])
    ensures t[j] == t0[j].(size := 0, addrs := FreeInode().addrs)
    ensures Sized(d, t[j]) && Summed(d, t[j])
  {
    hide Owned, SameInodes, OthersSame;
    forall s | 0 <= s < SLOTS
      ensures Raw(d, t[j], s) == 0 && (s <= NDIRECT ==> t[j].addrs[s] == 0)
    {
      assert Raw(d1, t1[j], s) == 0;
      assert Raw(d, t[j], s) == Raw(d1, t[j], s);
    }
    assert t[j].addrs == FreeInode().addrs;
    EmptySummed(d, t[j]);
  }

  lemma EmptySummed(d: Disk, n: Inode)
    requires forall s :: 0 <= s < SLOTS ==> Raw(d, n, s) == 0
    ensures Summed(d, n)
  {
    XorPrefixZeros(ZeroBlock(), BSIZE);
    forall bn | 0 <= bn < MAXFILE
      ensures SumOk(d, n, bn)
    {
      assert Raw(d, n, DataSlot(bn)) == 0;
    }
  }

  lemma OthersStaySound(g: Geometry, d0: Disk, t0: Table, owner0: Owner, d: Disk, t: Table, owner: Owner, j: nat)
    requires Sound(g, d0, t0, owner0) && Owned(g, d, t, owner) && OthersSame(d0, t0, d, t, j) && j < |t|
    requires Sized(d, t[j]) && (t[j].typ == T_CHECKED ==> Summed(d, t[j]))
    ensures Sound(g, d, t, owner)
  {
    hide Owned, SameReads, Summed, FileBlock;
    forall i | 0 <= i < |t| && i != j
      ensures Sized(d, t[i]) && (t[i].typ == T_CHECKED ==> Summed(d, t[i]))
    {
      assert SameFile(d0, t0[i], d, t[i]);
      assert Sized(d0, t0[i]);
      SameFileKeeps(d0, t0[i], d, t[i]);
    }
  }

  lemma TruncatedBits(g: Geometry, d0: Disk, t0: Table, owner0: Owner, d: Disk, t: Table, owner: Owner, j: nat)
    requires Owned(g, d0, t0, owner0) && Owned(g, d, t, owner) && j < |t0|
    requires OwnerLeft(owner0, owner, j, Slots(0, SLOTS))
    ensures OnlyFreed(g, d0, t0[j], d)
  {
    assert g.Fits(d0) && g.Fits(d);
    hide Raw, Addr, SameReads, InodeAt, Holds, Placed, Bit, OwnerLeft, Reaches, Owned, UsedStill;
    forall b | g.Meta() <= b < g.size
      ensures UsedStill(g, d0, t0[j], d, b)
    {
      TruncatedBit(g, d0, t0, owner0, d, t, owner, j, b);
    }
  }

  lemma TruncatedBit(g: Geometry, d0: Disk, t0: Table, owner0: Owner, d: Disk, t: Table, owner: Owner, j: nat, b: nat)
    requires Owned(g, d0, t0, owner0) && Owned(g, d, t, owner) && j < |t0| && g.Meta() <= b < g.size
    requires OwnerLeft(owner0, owner, j, Slots(0, SLOTS))
    ensures g.Fits(d0) && g.Fits(d) && UsedStill(g, d0, t0[j], d, b)
  {
    hide Raw, Bit, Addr;
    Regions(g, 0, 0);
    if b in owner0 && owner0[b].0 == j {
      assert Placed(g, d0, t0, owner0, b);
    }
    forall s | 0 <= s < SLOTS && Addr(d0, t0[j], s) == b
      ensures b in owner0 && owner0[b].0 == j && owner0[b].1 == s
    {
      assert Holds(d0, t0[j], owner0, j, s);
    }
  }

  /** The file reads as the bytes `c`. */
  ghost predicate Denotes(d: Disk, n: Inode, c: seq<byte>) {
    n.size <= MAXBYTES && Contents(d, n) == c
  }

  lemma InSync(g: Geometry, d: Disk, t: Table, j: nat)
    requires g.Fits(d) && t == TableOf(g, d) && j < g.ninodes
    ensures InodeAt(g, d, j) == t[j]
  {
  }

  lemma WriteMeans(g: Geometry, d0: Disk, n0: Inode, j: nat, d: Disk, n: Inode, off: nat, src: seq<byte>, c0: seq<byte>)
    requires WriteResult(g, d0, j, d, n, off, src) && InodeAt(g, d0, j) == n0 && Denotes(d0, n0, c0)
    ensures n.typ == n0.typ && off <= |c0| && Denotes(d, n, Overlay(c0, off, src)) && |Overlay(c0, off, src)| == n.size
  {
  }

  lemma ReadableNow(g: Geometry, d: Disk, t: Table, owner: Owner, j: nat)
    requires Sound(g, d, t, owner) && j < |t|
    ensures Readable(d, t[j]) && t[j].size <= MAXBYTES
  {
    assert Sized(d, t[j]);
  }

  /** Putting a fresh inode in a free slot. */
  lemma NewInode(g: Geometry, d: Disk, owner: Owner, i: nat, n: Inode)
    requires g.Fits(d) && Sound(g, d, TableOf(g, d), owner) && i < g.ninodes && InodeAt(g, d, i).typ == 0
    requires n.typ != 0 && n.size == 0 && NoBlocks(n)
    ensures var d' := StoreInode(g, d, i, n);
      g.Fits(d') && Sound(g, d', TableOf(g, d'), owner) && InodeAt(g, d', i) == n
      && forall k :: 0 <= k < g.ninodes && k != i ==> SameFile(d, InodeAt(g, d, k), d', InodeAt(g, d', k))
  {
    var t, d' := TableOf(g, d), StoreInode(g, d, i, n);
    StoreInodeFrame(g, d, i, n);
    SameDataRaw(g, d, t, owner, d');
    NewInodeMap(d, t, d', i, n);
    assert TableOf(g, d') == t[i := n];
    Regions(g, 0, 0);
    NewInodeOwned(g, d, t, owner, d', i, n);
    OthersStaySound(g, d, t, owner, d', t[i := n], owner, i);
    assert forall k :: 0 <= k < g.ninodes && k != i ==> InodeAt(g, d', k) == t[k];
  }

  lemma NewInodeMap(d: Disk, t: Table, d': Disk, i: nat, n: Inode)
    requires i < |t| && NoBlocks(t[i]) && NoBlocks(n) && forall k :: 0 <= k < |t| ==> SameFile(d, t[k], d', t[k])
    requires n.size == 0
    ensures forall k, s :: 0 <= k < |t| && 0 <= s < SLOTS ==> Addr(d', t[i := n][k], s) == Addr(d, t[k], s)
    ensures Sized(d', n) && Summed(d', n)
    ensures OthersSame(d, t, d', t[i := n], i)
  {
    forall k, s | 0 <= k < |t| && 0 <= s < SLOTS
      ensures Addr(d', t[i := n][k], s) == Addr(d, t[k], s)
    {
      assert SameFile(d, t[k], d', t[k]);
    }
    EmptySummed(d', n);
  }

  lemma NewInodeOwned(g: Geometry, d: Disk, t: Table, owner: Owner, d': Disk, i: nat, n: Inode)
    requires Owned(g, d, t, owner) && g.Fits(d') && i < |t| && n.typ != 0
    requires SameBits(g, d, d') && SameData(g, d, d')
    requires forall k, s :: 0 <= k < |t| && 0 <= s < SLOTS ==> Addr(d', t[i := n][k], s) == Addr(d, t[k], s)
    ensures Owned(g, d', t[i := n], owner)
  {
    hide Raw, Addr;
    Regions(g, 0, 0);
    var t' := t[i := n];
    forall j, s | 0 <= j < |t'| && 0 <= s < SLOTS
      ensures Holds(d', t'[j], owner, j, s)
    {
      assert Holds(d, t[j], owner, j, s);
    }
    forall b | b in owner
      ensures Placed(g, d', t', owner, b)
    {
      assert Placed(g, d, t, owner, b);
    }
  }

  /** The allocator stays inside the file system exactly when some block below the
      size is free: the bits after the size, up to the end of the bitmap block, are
      examined too. */
  lemma AllocationInside(g: Geometry, d: Disk, b: nat)
    requires g.Fits(d) && b < g.Bits() && !Bit(g, d, b) && forall c :: 0 <= c < b ==> Bit(g, d, c)
    ensures b < g.size <==> exists c :: 0 <= c < g.size && c < g.Bits() && !Bit(g, d, c)
  {
    Regions(g, 0, 0);
    if b < g.size {
      assert !Bit(g, d, b);
    }
  }

  ghost predicate StillMapped(d: Disk, n: Inode, d': Disk, n': Inode) {
    forall k :: 0 <= k < MAXFILE && Addr(d, n, DataSlot(k)) != 0 ==> Addr(d', n', DataSlot(k)) != 0
  }

  lemma GrownThenWritten(d: Disk, t: Table, d1: Disk, t1: Table, d2: Disk, j: nat, bn: nat, o: nat, chunk: seq<byte>, blk: Block)
    requires j < |t| == |t1| && bn < MAXFILE && o + |chunk| <= BSIZE
    requires Grew(d, t, d1, t1, j) && SameRaw(d1, t1, d2, t1)
    requires blk == Patch(FileBlock(d1, t1[j], bn), o, chunk)
    requires forall i, k :: 0 <= i < |t1| && 0 <= k < MAXFILE ==>
               FileBlock(d2, t1[i], k) == if i == j && k == bn then blk else FileBlock(d1, t1[i], k)
    ensures OthersSame(d, t, d2, t1, j)
    ensures BlockSet(d, t[j], d2, t1[j], bn, Patch(FileBlock(d, t[j], bn), o, chunk))
    ensures StillMapped(d, t[j], d2, t1[j])
  {
    hide FileBlock, Raw, Patch;
    forall i | 0 <= i < |t| && i != j
      ensures SameFile(d, t[i], d2, t1[i])
    {
      assert SameFile(d, t[i], d1, t1[i]);
    }
    forall k | 0 <= k < MAXFILE && Addr(d, t[j], DataSlot(k)) != 0
      ensures Addr(d2, t1[j], DataSlot(k)) != 0
    {
      assert Extends(d, t[j], d1, t1[j], DataSlot(k));
      assert Raw(d2, t1[j], DataSlot(k)) == Raw(d1, t1[j], DataSlot(k));
    }
  }

  lemma WrittenThenStamped(d: Disk, t: Table, d2: Disk, t2: Table, d3: Disk, t3: Table, j: nat)
    requires j < |t| && OthersSame(d, t, d2, t2, j) && OthersSame(d2, t2, d3, t3, j)
    ensures OthersSame(d, t, d3, t3, j)
  {
    forall i | 0 <= i < |t| && i != j
      ensures SameFile(d, t[i], d3, t3[i])
    {
      assert SameFile(d, t[i], d2, t2[i]) && SameFile(d2, t2[i], d3, t3[i]);
    }
  }

  /** After the write only the written block can carry a stale checksum. */
  lemma SumsThroughWrite(d: Disk, t: Table, d1: Disk, t1: Table, d2: Disk, j: nat, bn: nat)
    requires j < |t| == |t1| && bn < MAXFILE && Grew(d, t, d1, t1, j) && SameRaw(d1, t1, d2, t1)
    requires forall k :: 0 <= k < MAXFILE && k != bn ==> FileBlock(d2, t1[j], k) == FileBlock(d1, t1[j], k)
    ensures Summed(d, t[j]) ==> SummedBut(d2, t1[j], bn)
  {
    hide FileBlock, Raw, Checksum;
    if Summed(d, t[j]) {
      GrewKeepsSums(d, t, d1, t1, j);
      assert Raw(d2, t1[j], NDIRECT) == Raw(d1, t1[j], NDIRECT);
      forall k | 0 <= k < MAXFILE && k != bn
        ensures SumOk(d2, t1[j], k)
      {
        assert Raw(d2, t1[j], DataSlot(k)) == Raw(d1, t1[j], DataSlot(k));
        assert SumOk(d1, t1[j], k);
      }
    }
  }
}
