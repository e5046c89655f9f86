/** On-disk layout: superblock geometry, the inode table in its blocks, and the
    block-in-use bitmap.  Reading a field back after writing it, and the fact
    that the three regions never overlap, are what the file layer builds on. */
module Layout {
  import opened Words

  const NDIRECT: nat := 12
  const NINDIRECT: nat := 128
  const MAXFILE: nat := 140
  const IPB: nat := 8
  const BPB: nat := 4096

  const T_DIR: int := 1
  const T_FILE: int := 2
  const T_DEV: int := 3
  const T_CHECKED: int := 4

  type short = x: int | -0x8000 <= x < 0x8000
  type Disk = seq<Block>

  datatype DinodeRec = Dinode(typ: short, major: short, minor: short, nlink: short, size: word, addrs: seq<word>)
  type Inode = d: DinodeRec | |d.addrs| == NDIRECT + 1 witness Dinode(0, 0, 0, 0, 0, seq(13, _ => 0))

  function FreeInode(): Inode {
    Dinode(0, 0, 0, 0, 0, seq(NDIRECT + 1, _ => 0))
  }

  /** The fields of the superblock that the allocators read. */
  datatype Geometry = Geometry(size: nat, ninodes: nat) {
    function IBlock(i: nat): nat { i / IPB + 2 }
    function BBlock(b: nat): nat { b / BPB + ninodes / IPB + 3 }
    /** First data block: everything below holds metadata. */
    function Meta(): nat { ninodes / IPB + 3 + size / BPB + 1 }
    /** Bits examined by the allocator: whole bitmap blocks, so possibly beyond `size`. */
    function Bits(): nat { (size + BPB - 1) / BPB * BPB }
    predicate Ok() {
      0 < ninodes <= 0x1_0000 && Meta() <= size < 0x100_0000
    }
    predicate Fits(d: Disk) { Ok() && |d| == size }
  }

  lemma Regions(g: Geometry, i: nat, b: nat)
    requires g.Ok() && i < g.ninodes && b < g.Bits()
    ensures 2 <= g.IBlock(i) < g.ninodes / IPB + 3 <= g.BBlock(b) < g.Meta()
    ensures g.size <= g.Bits()
  {
  }

  // ---------- the bitmap ----------

  predicate Bit(g: Geometry, d: Disk, b: nat)
    requires g.Fits(d) && b < g.Bits()
  {
    Regions(g, 0, b);
    BitOf(d[g.BBlock(b)][b % BPB / 8], b % 8)
  }

  function SetBit(g: Geometry, d: Disk, b: nat, v: bool): (d': Disk)
    requires g.Fits(d) && b < g.Bits()
  {
    Regions(g, 0, b);
    var blk := d[g.BBlock(b)];
    d[g.BBlock(b) := blk[b % BPB / 8 := WithBit8(blk[b % BPB / 8], b % 8, v)]]
  }

  lemma SetBitBits(g: Geometry, d: Disk, b: nat, v: bool, c: nat)
    requires g.Fits(d) && b < g.Bits() && c < g.Bits()
    ensures g.Fits(SetBit(g, d, b, v))
    ensures Bit(g, SetBit(g, d, b, v), c) == if c == b then v else Bit(g, d, c)
  {
    Regions(g, 0, b);
    Regions(g, 0, c);
    if g.BBlock(b) == g.BBlock(c) && b % BPB / 8 == c % BPB / 8 {
      WithBitBits(d[g.BBlock(b)][b % BPB / 8], b % 8, v, c % 8);
    }
  }

  // ---------- the inode table ----------

  function U16(x: short): nat { if x < 0 then x + 0x1_0000 else x }
  function S16(x: nat): short requires x < 0x1_0000 { if x < 0x8000 then x else x - 0x1_0000 }

  function InodeWord(n: Inode, k: nat): word
    requires k < 16
  {
    if k == 0 then U16(n.typ) + 0x1_0000 * U16(n.major)
    else if k == 1 then U16(n.minor) + 0x1_0000 * U16(n.nlink)
    else if k == 2 then n.size
    else n.addrs[k - 3]
  }

  /** The inode in slot `k` of an inode block, as `ilock` copies it in. */
  function DecodeInode(b: Block, k: nat): Inode
    requires k < IPB
  {
    var w0, w1 := GetWord(b, 16 * k), GetWord(b, 16 * k + 1);
    Dinode(S16(w0 % 0x1_0000), S16(w0 / 0x1_0000), S16(w1 % 0x1_0000), S16(w1 / 0x1_0000), GetWord(b, 16 * k + 2),
           Addrs(b, k, NDIRECT + 1))
  }

  function Addrs(b: Block, k: nat, n: nat): (a: seq<word>)
    requires k < IPB && n <= NDIRECT + 1
    ensures |a| == n && forall i :: 0 <= i < n ==> a[i] == GetWord(b, 16 * k + 3 + i)
  {
    if n == 0 then [] else Addrs(b, k, n - 1) + [GetWord(b, 16 * k + 3 + n - 1)]
  }

  /** The block with `n` stored in slot `k`, as `iupdate` copies it out. */
  function EncodeInode(b: Block, k: nat, n: Inode): Block
    requires k < IPB
  {
    seq(BSIZE, p requires 0 <= p < BSIZE =>
      if 64 * k <= p < 64 * (k + 1) then WordByte(InodeWord(n, (p - 64 * k) / 4), p % 4) else b[p])
  }

  lemma EncodeInodeWord(b: Block, k: nat, n: Inode, i: nat)
    requires k < IPB && i < WORDS_PER_BLOCK
    ensures GetWord(EncodeInode(b, k, n), i)
         == if 16 * k <= i < 16 * k + 16 then InodeWord(n, i - 16 * k) else GetWord(b, i)
  {
    var e := EncodeInode(b, k, n);
    if 16 * k <= i < 16 * k + 16 {
      var w := InodeWord(n, i - 16 * k);
      SlotByte(b, k, n, i, 0);
      SlotByte(b, k, n, i, 1);
      SlotByte(b, k, n, i, 2);
      SlotByte(b, k, n, i, 3);
      WordRoundTrip(w);
    }
  }

  lemma SlotByte(b: Block, k: nat, n: Inode, i: nat, t: nat)
    requires k < IPB && 16 * k <= i < 16 * k + 16 && t < 4
    ensures EncodeInode(b, k, n)[4 * i + t] == WordByte(InodeWord(n, i - 16 * k), t)
  {
    assert 4 * i + t - 64 * k == 4 * (i - 16 * k) + t;
    assert (4 * (i - 16 * k) + t) / 4 == i - 16 * k;
    assert (4 * i + t) % 4 == t;
  }

  lemma ShortRoundTrip(x: short, y: short)
    ensures S16((U16(x) + 0x1_0000 * U16(y)) % 0x1_0000) == x && S16((U16(x) + 0x1_0000 * U16(y)) / 0x1_0000) == y
  {
  }

  lemma DecodeEncode(b: Block, k: nat, n: Inode, j: nat)
    requires k < IPB && j < IPB
    ensures DecodeInode(EncodeInode(b, k, n), j) == if j == k then n else DecodeInode(b, j)
  {
    var e := EncodeInode(b, k, n);
    forall i | 16 * j <= i < 16 * j + 16
      ensures GetWord(e, i) == if j == k then InodeWord(n, i - 16 * k) else GetWord(b, i)
    {
      EncodeInodeWord(b, k, n, i);
    }
    if j == k {
      DecodeWords(e, j, n);
    } else {
      SameWordsDecode(b, e, j);
    }
  }

  lemma SameWordsDecode(b: Block, e: Block, k: nat)
    requires k < IPB && forall i :: 16 * k <= i < 16 * k + 16 ==> GetWord(e, i) == GetWord(b, i)
    ensures DecodeInode(e, k) == DecodeInode(b, k)
  {
    assert Addrs(e, k, NDIRECT + 1) == Addrs(b, k, NDIRECT + 1);
  }

  /** The sixteen words of a slot determine the inode. */
  lemma DecodeWords(b: Block, k: nat, n: Inode)
    requires k < IPB
    requires forall i :: 16 * k <= i < 16 * k + 16 ==> GetWord(b, i) == InodeWord(n, i - 16 * k)
    ensures DecodeInode(b, k) == n
  {
    ShortRoundTrip(n.typ, n.major);
    ShortRoundTrip(n.minor, n.nlink);
    assert GetWord(b, 16 * k) == InodeWord(n, 0);
    assert GetWord(b, 16 * k + 1) == InodeWord(n, 1);
    assert Addrs(b, k, NDIRECT + 1) == n.addrs;
  }

  function InodeAt(g: Geometry, d: Disk, i: nat): Inode
    requires g.Fits(d) && i < g.ninodes
  {
    Regions(g, i, 0);
    DecodeInode(d[g.IBlock(i)], i % IPB)
  }

  function StoreInode(g: Geometry, d: Disk, i: nat, n: Inode): (d': Disk)
    requires g.Fits(d) && i < g.ninodes
  {
    Regions(g, i, 0);
    d[g.IBlock(i) := EncodeInode(d[g.IBlock(i)], i % IPB, n)]
  }

  lemma StoreInodeInodes(g: Geometry, d: Disk, i: nat, n: Inode, j: nat)
    requires g.Fits(d) && i < g.ninodes && j < g.ninodes
    ensures g.Fits(StoreInode(g, d, i, n))
    ensures InodeAt(g, StoreInode(g, d, i, n), j) == if j == i then n else InodeAt(g, d, j)
  {
    Regions(g, i, 0);
    Regions(g, j, 0);
    if g.IBlock(i) == g.IBlock(j) {
      DecodeEncode(d[g.IBlock(i)], i % IPB, n, j % IPB);
      assert i == g.IBlock(i) * IPB - 16 + i % IPB && j == g.IBlock(j) * IPB - 16 + j % IPB;
    }
  }

  // ---------- what each kind of write leaves alone ----------

  /** Every bit is as before, except bit `b`, which is `v`. */
  ghost predicate BitChange(g: Geometry, d: Disk, d': Disk, b: nat, v: bool)
    requires g.Fits(d) && g.Fits(d')
  {
    forall c :: 0 <= c < g.Bits() ==> Bit(g, d', c) == if c == b then v else Bit(g, d, c)
  }

  ghost predicate SameBits(g: Geometry, d: Disk, d': Disk)
    requires g.Fits(d) && g.Fits(d')
  {
    forall c :: 0 <= c < g.Bits() ==> Bit(g, d', c) == Bit(g, d, c)
  }

  ghost predicate SameInodes(g: Geometry, d: Disk, d': Disk)
    requires g.Fits(d) && g.Fits(d')
  {
    forall i :: 0 <= i < g.ninodes ==> InodeAt(g, d', i) == InodeAt(g, d, i)
  }

  ghost predicate SameData(g: Geometry, d: Disk, d': Disk)
    requires g.Fits(d) && g.Fits(d')
  {
    forall b :: g.Meta() <= b < g.size ==> d'[b] == d[b]
  }

  lemma SetBitFrame(g: Geometry, d: Disk, b: nat, v: bool)
    requires g.Fits(d) && b < g.Bits()
    ensures var d' := SetBit(g, d, b, v);
      g.Fits(d') && BitChange(g, d, d', b, v) && SameInodes(g, d, d') && SameData(g, d, d')
  {
    var d' := SetBit(g, d, b, v);
    forall c | 0 <= c < g.Bits()
      ensures Bit(g, d', c) == if c == b then v else Bit(g, d, c)
    {
      SetBitBits(g, d, b, v, c);
    }
    forall i | 0 <= i < g.ninodes
      ensures InodeAt(g, d', i) == InodeAt(g, d, i)
    {
      Regions(g, i, b);
    }
    Regions(g, 0, b);
  }

  lemma StoreInodeFrame(g: Geometry, d: Disk, i: nat, n: Inode)
    requires g.Fits(d) && i < g.ninodes
    ensures var d' := StoreInode(g, d, i, n);
      g.Fits(d') && SameBits(g, d, d') && SameData(g, d, d')
      && forall j :: 0 <= j < g.ninodes ==> InodeAt(g, d', j) == if j == i then n else InodeAt(g, d, j)
  {
    var d' := StoreInode(g, d, i, n);
    forall j | 0 <= j < g.ninodes
      ensures InodeAt(g, d', j) == if j == i then n else InodeAt(g, d, j)
    {
      StoreInodeInodes(g, d, i, n, j);
    }
    forall c | 0 <= c < g.Bits()
      ensures Bit(g, d', c) == Bit(g, d, c)
    {
      Regions(g, i, c);
    }
    Regions(g, i, 0);
  }

  lemma DataFrame(g: Geometry, d: Disk, b: nat, blk: Block)
    requires g.Fits(d) && g.Meta() <= b < g.size
    ensures var d' := d[b := blk];
      g.Fits(d') && SameBits(g, d, d') && SameInodes(g, d, d')
  {
    var d' := d[b := blk];
    forall c | 0 <= c < g.Bits()
      ensures Bit(g, d', c) == Bit(g, d, c)
    {
      Regions(g, 0, c);
    }
    forall i | 0 <= i < g.ninodes
      ensures InodeAt(g, d', i) == InodeAt(g, d, i)
    {
      Regions(g, i, 0);
    }
  }
}
