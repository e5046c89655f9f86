/** Files as byte sequences over the block map, and the effect on them of
    mapping a new block, writing part of a block and refreshing a checksum. */
module Files {
  import opened Words
  import opened Layout
  import opened BlockMap

  const MAXBYTES: nat := 71680   // MAXFILE * BSIZE

  function FileByte(d: Disk, n: Inode, p: nat): byte
    requires p < MAXBYTES
  {
    FileBlock(d, n, p / BSIZE)[p % BSIZE]
  }

  /** The byte sequence a file denotes. */
  function Contents(d: Disk, n: Inode): (c: seq<byte>)
    requires n.size <= MAXBYTES
    ensures |c| == n.size && forall p :: 0 <= p < n.size ==> c[p] == FileByte(d, n, p)
  {
    seq<byte>(n.size, p requires 0 <= p < n.size => FileByte(d, n, p))
  }

  /** Every block that holds a byte below `z` is mapped. */
  ghost predicate MappedBelow(d: Disk, n: Inode, z: nat) {
    forall bn :: 0 <= bn < MAXFILE && BSIZE * bn < z ==> Addr(d, n, DataSlot(bn)) != 0
  }

  ghost predicate Readable(d: Disk, n: Inode) {
    n.size <= MAXBYTES && MappedBelow(d, n, n.size)
  }

  /** Every block below the size is mapped, and every byte past the size is zero. */
  ghost predicate Sized(d: Disk, n: Inode) {
    && Readable(d, n)
    && (forall p :: n.size <= p < MAXBYTES ==> FileByte(d, n, p) == 0)
  }

  /** The checksum stored in the top byte of the address of block `bn` is right. */
  predicate SumOk(d: Disk, n: Inode, bn: nat)
    requires bn < MAXFILE
  {
    Raw(d, n, DataSlot(bn)) / TOP == Checksum(FileBlock(d, n, bn))
  }

  /** Every checksum is right, an unmapped block carrying that of zeros, and the address of
      the indirect block carries none. */
  ghost predicate Summed(d: Disk, n: Inode) {
    Raw(d, n, NDIRECT) < TOP && forall bn :: 0 <= bn < MAXFILE ==> SumOk(d, n, bn)
  }

  ghost predicate SummedBut(d: Disk, n: Inode, bn: nat) {
    Raw(d, n, NDIRECT) < TOP && forall k :: 0 <= k < MAXFILE && k != bn ==> SumOk(d, n, k)
  }

  /** The invariant of the file layer between operations. */
  ghost predicate Sound(g: Geometry, d: Disk, t: Table, owner: Owner) {
    && Owned(g, d, t, owner)
    && (forall j :: 0 <= j < |t| ==> Sized(d, t[j]))
    && (forall j :: 0 <= j < |t| && t[j].typ == T_CHECKED ==> Summed(d, t[j]))
  }

  // ---------- what other files see ----------

  ghost predicate SameFile(d: Disk, n: Inode, d': Disk, n': Inode) {
    n' == n && SameReads(d, n, d', n')
  }

  ghost predicate SameReads(d: Disk, n: Inode, d': Disk, n': Inode) {
    && (forall s :: 0 <= s < SLOTS ==> Raw(d', n', s) == Raw(d, n, s))
    && (forall k :: 0 <= k < MAXFILE ==> FileBlock(d', n', k) == FileBlock(d, n, k))
  }

  ghost predicate OthersSame(d: Disk, t: Table, d': Disk, t': Table, j: nat) {
    |t'| == |t| && forall i :: 0 <= i < |t| && i != j ==> SameFile(d, t[i], d', t'[i])
  }

  lemma SameFileKeeps(d: Disk, n: Inode, d': Disk, n': Inode)
    requires SameFile(d, n, d', n') && n.size <= MAXBYTES
    ensures Contents(d', n') == Contents(d, n)
    ensures Sized(d, n) ==> Sized(d', n')
    ensures Summed(d, n) ==> Summed(d', n')
  {
    forall p | 0 <= p < MAXBYTES
      ensures FileByte(d', n', p) == FileByte(d, n, p)
    {
      assert FileBlock(d', n', p / BSIZE) == FileBlock(d, n, p / BSIZE);
    }
    assert Contents(d', n') == Contents(d, n);
    if Sized(d, n) {
      forall bn | 0 <= bn < MAXFILE && BSIZE * bn < n.size
        ensures Addr(d', n', DataSlot(bn)) != 0
      {
        assert Addr(d, n, DataSlot(bn)) != 0;
      }
    }
    if Summed(d, n) {
      assert Raw(d', n', NDIRECT) == Raw(d, n, NDIRECT);
      forall bn | 0 <= bn < MAXFILE
        ensures SumOk(d', n', bn)
      {
        assert SumOk(d, n, bn);
      }
    }
  }

  // ---------- mapping a new block ----------

  /** Only unmapped slots of inode `j` changed, to addresses with a clear top
      byte, and no file reads differently. */
  ghost predicate Grew(d: Disk, t: Table, d': Disk, t': Table, j: nat) {
    && |t'| == |t| && j < |t|
    && t'[j] == t[j].(addrs := t'[j].addrs)
    && OthersSame(d, t, d', t', j)
    && (forall s :: 0 <= s < SLOTS ==> Extends(d, t[j], d', t'[j], s))
    && (forall k :: 0 <= k < MAXFILE ==> FileBlock(d', t'[j], k) == FileBlock(d, t[j], k))
  }

  ghost predicate Extends(d: Disk, n: Inode, d': Disk, n': Inode, s: nat)
    requires s < SLOTS
  {
    Raw(d', n', s) == Raw(d, n, s) || (Addr(d, n, s) == 0 && Raw(d', n', s) < TOP)
  }

  lemma GrewTrans(d: Disk, t: Table, d1: Disk, t1: Table, d2: Disk, t2: Table, j: nat)
    requires Grew(d, t, d1, t1, j) && Grew(d1, t1, d2, t2, j)
    ensures Grew(d, t, d2, t2, j)
  {
    forall s | 0 <= s < SLOTS
      ensures Extends(d, t[j], d2, t2[j], s)
    {
      assert Extends(d, t[j], d1, t1[j], s) && Extends(d1, t1[j], d2, t2[j], s);
    }
    forall i | 0 <= i < |t| && i != j
      ensures SameFile(d, t[i], d2, t2[i])
    {
      assert SameFile(d, t[i], d1, t1[i]) && SameFile(d1, t1[i], d2, t2[i]);
    }
  }

  lemma GrewKeepsSums(d: Disk, t: Table, d': Disk, t': Table, j: nat)
    requires Grew(d, t, d', t', j) && Summed(d, t[j])
    ensures Summed(d', t'[j])
  {
    assert Extends(d, t[j], d', t'[j], NDIRECT);
    forall bn | 0 <= bn < MAXFILE
      ensures SumOk(d', t'[j], bn)
    {
      assert Extends(d, t[j], d', t'[j], DataSlot(bn));
      assert SumOk(d, t[j], bn);
      if Addr(d, t[j], DataSlot(bn)) == 0 {
        XorPrefixZeros(ZeroBlock(), BSIZE);
      }
    }
  }

  lemma SameDataRaw(g: Geometry, d: Disk, t: Table, owner: Owner, d': Disk)
    requires Owned(g, d, t, owner) && g.Fits(d') && SameData(g, d, d')
    ensures SameRaw(d, t, d', t)
    ensures forall i :: 0 <= i < |t| ==> SameFile(d, t[i], d', t[i])
  {
    forall i, r | 0 <= i < |t| && 0 <= r < SLOTS
      ensures Raw(d', t[i], r) == Raw(d, t[i], r)
    {
      if r > NDIRECT && Addr(d, t[i], NDIRECT) != 0 {
        AddrInRange(g, d, t, owner, i, NDIRECT);
      }
    }
    forall i | 0 <= i < |t|
      ensures SameFile(d, t[i], d', t[i])
    {
      forall k | 0 <= k < MAXFILE
        ensures FileBlock(d', t[i], k) == FileBlock(d, t[i], k)
      {
        if Addr(d, t[i], DataSlot(k)) != 0 {
          AddrInRange(g, d, t, owner, i, DataSlot(k));
        }
      }
    }
  }

  lemma ClaimedAddrs(d: Disk, t: Table, d': Disk, t': Table, j: nat, s: nat, b: nat)
    requires j < |t| && s < SLOTS && b < TOP
    requires RawChange(d, t, d', t', j, s, b) && t'[j] == t[j].(addrs := t'[j].addrs)
    ensures Readdressed(d, t, d', t', j, s, b)
  {
  }

  /** A free block claimed for slot `s` of inode `j`: ownership moves, nothing reads differently. */
  lemma Claim(g: Geometry, d: Disk, t: Table, owner: Owner, d': Disk, t': Table, j: nat, s: nat, b: nat)
    requires Owned(g, d, t, owner) && g.Fits(d') && j < |t| && t[j].typ != 0 && s < SLOTS
    requires Addr(d, t[j], s) == 0 && b < g.size && !Bit(g, d, b)
    requires RawChange(d, t, d', t', j, s, b) && t'[j] == t[j].(addrs := t'[j].addrs)
    requires BitChange(g, d, d', b, true)
    requires forall c :: g.Meta() <= c < g.size && c != Addr(d, t[j], NDIRECT) ==> d'[c] == d[c]
    ensures Owned(g, d', t', owner[b := (j, s)]) && Grew(d, t, d', t', j) && Addr(d', t'[j], s) == b != 0
  {
    assert d[b] == ZeroBlock();
    ClaimedAddrs(d, t, d', t', j, s, b);
    assert Holds(d, t[j], owner, j, NDIRECT);
    ClaimBlock(g, d, t, owner, d', t', j, s, b);
    forall i, k | 0 <= i < |t| && 0 <= k < MAXFILE
      ensures FileBlock(d', t'[i], k) == FileBlock(d, t[i], k)
    {
      assert Holds(d, t[i], owner, i, DataSlot(k));
      if Addr(d, t[i], DataSlot(k)) != 0 {
        AddrInRange(g, d, t, owner, i, DataSlot(k));
      }
    }
  }

  lemma DirectRaw(d: Disk, t: Table, d': Disk, j: nat, s: nat, b: nat)
    requires SameRaw(d, t, d', t) && j < |t| && s <= NDIRECT && Addr(d, t[j], s) == 0
    requires b < |d'| && b < TOP && d'[b] == ZeroBlock()
    ensures RawChange(d, t, d', t[j := t[j].(addrs := t[j].addrs[s := b])], j, s, b)
  {
    var t' := t[j := t[j].(addrs := t[j].addrs[s := b])];
    forall r | 0 <= r < SLOTS
      ensures Raw(d', t'[j], r) == if r == s then b else Raw(d, t[j], r)
    {
      assert Raw(d', t[j], r) == Raw(d, t[j], r);
      if r > NDIRECT && s == NDIRECT {
        ZeroWords(r - NDIRECT - 1);
      }
    }
  }

  /** A free block put into the inode itself: a direct slot, or the indirect block. */
  lemma AllocDirect(g: Geometry, d: Disk, t: Table, owner: Owner, j: nat, s: nat, b: nat)
    requires Owned(g, d, t, owner) && j < |t| && t[j].typ != 0 && s <= NDIRECT
    requires Addr(d, t[j], s) == 0 && b < g.size && !Bit(g, d, b)
    ensures b < g.Bits()
    ensures var d', t' := SetBit(g, d, b, true), t[j := t[j].(addrs := t[j].addrs[s := b])];
      Owned(g, d', t', owner[b := (j, s)]) && Grew(d, t, d', t', j) && SameInodes(g, d, d')
      && Addr(d', t'[j], s) == b != 0
  {
    Regions(g, 0, b);
    SetBitFrame(g, d, b, true);
    var d', t' := SetBit(g, d, b, true), t[j := t[j].(addrs := t[j].addrs[s := b])];
    SameRawAfterBit(g, d, t, owner, d, d');
    assert d'[b] == ZeroBlock();
    DirectRaw(d, t, d', j, s, b);
    Claim(g, d, t, owner, d', t', j, s, b);
  }

  /** A free block put into an entry of the indirect block. */
  lemma AllocIndirect(g: Geometry, d: Disk, t: Table, owner: Owner, j: nat, s: nat, b: nat)
    requires Owned(g, d, t, owner) && j < |t| && t[j].typ != 0 && NDIRECT < s < SLOTS
    requires Addr(d, t[j], NDIRECT) != 0
    requires Addr(d, t[j], s) == 0 && b < g.size && !Bit(g, d, b)
    ensures b < g.Bits() && g.Meta() <= Addr(d, t[j], NDIRECT) < g.size
    ensures var ib := Addr(d, t[j], NDIRECT);
      var d' := SetBit(g, d, b, true)[ib := PutWord(d[ib], s - NDIRECT - 1, b)];
      g.Fits(d') && Owned(g, d', t, owner[b := (j, s)]) && Grew(d, t, d', t, j) && SameInodes(g, d, d')
      && Addr(d', t[j], s) == b != 0
  {
    var ib := Addr(d, t[j], NDIRECT);
    WriteIndirect(g, d, t, owner, j, s, b);
    Regions(g, 0, b);
    var blk := PutWord(d[ib], s - NDIRECT - 1, b);
    var d1 := d[ib := blk];
    var d' := SetBit(g, d1, b, true);
    assert d' == SetBit(g, d, b, true)[ib := blk];
    SetBitFrame(g, d1, b, true);
    SameRawAfterBit(g, d, t, owner, d1, d');
    Claim(g, d, t, owner, d', t, j, s, b);
  }

  lemma SameRawAfterBit(g: Geometry, d: Disk, t: Table, owner: Owner, d1: Disk, d': Disk)
    requires Owned(g, d, t, owner) && g.Fits(d1) && g.Fits(d') && SameData(g, d1, d')
    ensures SameRaw(d1, t, d', t)
  {
    forall i, r | 0 <= i < |t| && 0 <= r < SLOTS
      ensures Raw(d', t[i], r) == Raw(d1, t[i], r)
    {
      if r > NDIRECT && Addr(d, t[i], NDIRECT) != 0 {
        AddrInRange(g, d, t, owner, i, NDIRECT);
      }
    }
  }

  // ---------- writing part of a block ----------

  /** The file now reads as before, with `src` laid over it from offset `off`. */
  ghost predicate Spliced(d: Disk, n: Inode, d': Disk, n': Inode, off: nat, src: seq<byte>) {
    forall p :: 0 <= p < MAXBYTES ==>
      FileByte(d', n', p) == if off <= p < off + |src| then src[p - off] else FileByte(d, n, p)
  }

  function Patch(blk: Block, o: nat, chunk: seq<byte>): Block
    requires o + |chunk| <= BSIZE
  {
    blk[..o] + chunk + blk[o + |chunk|..]
  }

  ghost predicate BlockSet(d: Disk, n: Inode, d': Disk, n': Inode, bn: nat, blk: Block)
    requires bn < MAXFILE
  {
    forall k :: 0 <= k < MAXFILE ==> FileBlock(d', n', k) == if k == bn then blk else FileBlock(d, n, k)
  }

  lemma SpliceChunk(d0: Disk, n0: Inode, d: Disk, n: Inode, d': Disk, n': Inode, off: nat, src: seq<byte>, tot: nat, m: nat)
    requires tot + m <= |src| && off + tot + m <= MAXBYTES && 0 < m <= BSIZE - (off + tot) % BSIZE
    requires Spliced(d0, n0, d, n, off, src[..tot])
    requires var q := off + tot;
      BlockSet(d, n, d', n', q / BSIZE, Patch(FileBlock(d, n, q / BSIZE), q % BSIZE, src[tot..tot + m]))
    ensures Spliced(d0, n0, d', n', off, src[..tot + m])
  {
    var q := off + tot;
    forall p | 0 <= p < MAXBYTES
      ensures FileByte(d', n', p) == if off <= p < off + tot + m then src[p - off] else FileByte(d0, n0, p)
    {
      assert FileByte(d, n, p) == if off <= p < off + tot then src[..tot][p - off] else FileByte(d0, n0, p);
      if p / BSIZE == q / BSIZE {
        assert p - q == p % BSIZE - q % BSIZE;
        assert FileBlock(d', n', p / BSIZE) == Patch(FileBlock(d, n, q / BSIZE), q % BSIZE, src[tot..tot + m]);
      } else {
        assert FileBlock(d', n', p / BSIZE) == FileBlock(d, n, p / BSIZE);
        assert !(q <= p < q + m);
      }
    }
  }

  /** The bytes of one block that fall in `[off, off + m)`. */
  lemma ReadChunk(d: Disk, n: Inode, off: nat, m: nat)
    requires n.size <= MAXBYTES && off + m <= n.size && 0 < m <= BSIZE - off % BSIZE
    ensures Contents(d, n)[off..off + m] == FileBlock(d, n, off / BSIZE)[off % BSIZE..off % BSIZE + m]
  {
    var c, blk := Contents(d, n), FileBlock(d, n, off / BSIZE);
    forall p | off <= p < off + m
      ensures c[p] == blk[p - off / BSIZE * BSIZE]
    {
      assert p / BSIZE == off / BSIZE && p % BSIZE == p - off / BSIZE * BSIZE;
      assert c[p] == FileByte(d, n, p);
    }
    assert off % BSIZE == off - off / BSIZE * BSIZE;
  }

  /** Every block that holds a byte of `[off, off + m)` carries its own checksum. */
  ghost predicate RangeOk(d: Disk, n: Inode, off: nat, m: nat) {
    m > 0 ==> forall bn :: 0 <= bn < MAXFILE && off / BSIZE <= bn && BSIZE * bn < off + m ==> SumOk(d, n, bn)
  }

  // ---------- refreshing a checksum ----------

  /** The stored word with checksum `c` in its top byte and the same address below. */
  function Stamp(w: word, c: byte): word {
    w % TOP + c * TOP
  }

  /** Changing only the top byte of one slot of a T_CHECKED inode moves no block. */
  lemma Restamped(g: Geometry, d: Disk, t: Table, owner: Owner, d': Disk, t': Table, j: nat, bn: nat, c: byte)
    requires Owned(g, d, t, owner) && g.Fits(d') && j < |t| && bn < MAXFILE && t[j].typ == T_CHECKED
    requires RawChange(d, t, d', t', j, DataSlot(bn), Stamp(Raw(d, t[j], DataSlot(bn)), c))
    requires t'[j] == t[j].(addrs := t'[j].addrs) && SameBits(g, d, d')
    requires forall b :: g.Meta() <= b < g.size && b != Addr(d, t[j], NDIRECT) ==> d'[b] == d[b]
    ensures Owned(g, d', t', owner) && OthersSame(d, t, d', t', j)
    ensures forall k :: 0 <= k < MAXFILE ==> FileBlock(d', t'[j], k) == FileBlock(d, t[j], k)
    ensures forall s :: 0 <= s < SLOTS ==> Addr(d', t'[j], s) == Addr(d, t[j], s)
  {
    forall i, s | 0 <= i < |t| && 0 <= s < SLOTS
      ensures Addr(d', t'[i], s) == Addr(d, t[i], s)
    {
    }
    assert Holds(d, t[j], owner, j, NDIRECT);
    KeepOwned(g, d, t, owner, d', t');
    forall i, k | 0 <= i < |t| && 0 <= k < MAXFILE
      ensures FileBlock(d', t'[i], k) == FileBlock(d, t[i], k)
    {
      SameBlockRead(g, d, t, owner, d', t', j, i, k);
    }
  }

  lemma SameBlockRead(g: Geometry, d: Disk, t: Table, owner: Owner, d': Disk, t': Table, j: nat, i: nat, k: nat)
    requires Owned(g, d, t, owner) && g.Fits(d') && i < |t| == |t'| && j < |t| && k < MAXFILE
    requires Addr(d', t'[i], DataSlot(k)) == Addr(d, t[i], DataSlot(k))
    requires forall b :: g.Meta() <= b < g.size && b != Addr(d, t[j], NDIRECT) ==> d'[b] == d[b]
    ensures FileBlock(d', t'[i], k) == FileBlock(d, t[i], k)
  {
    var a := Addr(d, t[i], DataSlot(k));
    if a != 0 {
      AddrInRange(g, d, t, owner, i, DataSlot(k));
      if a == Addr(d, t[j], NDIRECT) {
        IndirectIsPrivate(g, d, t, owner, j, i, DataSlot(k));
      }
    }
  }

  /** The slot of block `bn` now carries the checksum of that block. */
  lemma RestampedSums(d: Disk, n: Inode, d': Disk, n': Inode, bn: nat, c: byte)
    requires bn < MAXFILE && c == Checksum(FileBlock(d, n, bn))
    requires forall s :: 0 <= s < SLOTS ==>
               Raw(d', n', s) == if s == DataSlot(bn) then Stamp(Raw(d, n, s), c) else Raw(d, n, s)
    requires forall s :: 0 <= s < SLOTS ==> Addr(d', n', s) == Addr(d, n, s)
    requires forall k :: 0 <= k < MAXFILE ==> FileBlock(d', n', k) == FileBlock(d, n, k)
    requires SummedBut(d, n, bn)
    ensures Summed(d', n')
  {
    forall k | 0 <= k < MAXFILE
      ensures SumOk(d', n', k)
    {
      assert FileBlock(d', n', k) == FileBlock(d, n, k);
      if k != bn {
        assert DataSlot(k) != DataSlot(bn);
        assert SumOk(d, n, k);
      }
    }
  }

  lemma RestampDirect(g: Geometry, d: Disk, t: Table, owner: Owner, j: nat, bn: nat, c: byte)
    requires Owned(g, d, t, owner) && j < |t| && bn < NDIRECT
    ensures var t' := t[j := t[j].(addrs := t[j].addrs[bn := Stamp(t[j].addrs[bn], c)])];
      RawChange(d, t, d, t', j, DataSlot(bn), Stamp(Raw(d, t[j], DataSlot(bn)), c)) && SameBits(g, d, d)
      && SameInodes(g, d, d)
  {
    WriteDirect(g, d, t, owner, j, bn, Stamp(t[j].addrs[bn], c));
  }

  // ---------- a corrupted byte ----------

  /** One byte of a data block of a T_CHECKED file changes on the disk behind the
      file system's back: the block map is untouched, and every range that
      touches that block now fails its checksums. */
  lemma CorruptionDetected(g: Geometry, d: Disk, t: Table, owner: Owner, j: nat, bn: nat, i: nat, v: byte)
    requires Sound(g, d, t, owner) && j < |t| && t[j].typ == T_CHECKED
    requires bn < MAXFILE && BSIZE * bn < t[j].size && i < BSIZE && FileBlock(d, t[j], bn)[i] != v
    ensures g.Meta() <= Addr(d, t[j], DataSlot(bn)) < g.size
    ensures var a := Addr(d, t[j], DataSlot(bn));
      var d' := d[a := d[a][i := v]];
      && Owned(g, d', t, owner) && Readable(d', t[j])
      && forall off, m :: off >= 0 && m > 0 && off < BSIZE * (bn + 1) && BSIZE * bn < off + m ==> !RangeOk(d', t[j], off, m)
  {
    assert Sized(d, t[j]) && Summed(d, t[j]);
    assert Addr(d, t[j], DataSlot(bn)) != 0;
    assert SumOk(d, t[j], bn);
    AddrInRange(g, d, t, owner, j, DataSlot(bn));
    var a := Addr(d, t[j], DataSlot(bn));
    var d' := d[a := d[a][i := v]];
    WriteData(g, d, t, owner, j, bn, d[a][i := v]);
    ChecksumDetectsOneByte(d[a], i, v);
    assert Raw(d', t[j], DataSlot(bn)) == Raw(d, t[j], DataSlot(bn));
    assert !SumOk(d', t[j], bn);
    ReadableKeeps(d, t[j], d');
  }

  lemma ReadableKeeps(d: Disk, n: Inode, d': Disk)
    requires Readable(d, n) && forall s :: 0 <= s < SLOTS ==> Raw(d', n, s) == Raw(d, n, s)
    ensures Readable(d', n)
  {
    forall bn | 0 <= bn < MAXFILE && BSIZE * bn < n.size
      ensures Addr(d', n, DataSlot(bn)) != 0
    {
      assert Addr(d, n, DataSlot(bn)) != 0;
    }
  }

  /** An intact T_CHECKED file passes every checksum of every range inside it. */
  lemma IntactRange(g: Geometry, d: Disk, t: Table, owner: Owner, j: nat, off: nat, m: nat)
    requires Sound(g, d, t, owner) && j < |t| && t[j].typ == T_CHECKED && off + m <= t[j].size
    ensures RangeOk(d, t[j], off, m)
  {
    assert Sized(d, t[j]) && Summed(d, t[j]);
    forall bn | 0 <= bn < MAXFILE && off / BSIZE <= bn && BSIZE * bn < off + m
      ensures SumOk(d, t[j], bn)
    {
      assert Addr(d, t[j], DataSlot(bn)) != 0;
    }
  }
}
