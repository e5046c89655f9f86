/** A file system image under construction.  The builder hands out blocks in order
    and writes the bitmap last, so while it works the image is read as if the bits
    of the blocks handed out so far were set (`MarkFirst`). */
module Image {
  import opened Words
  import opened Layout
  import opened BlockMap
  import opened Files
  import opened Effects

  function MarkFirst(g: Geometry, d: Disk, n: nat): (d': Disk)
    requires g.Fits(d) && n <= g.Bits()
    ensures g.Fits(d')
  {
    if n == 0 then d else SetBit(g, MarkFirst(g, d, n - 1), n - 1, true)
  }

  predicate BitmapBlock(g: Geometry, b: nat) { g.ninodes / IPB + 3 <= b < g.Meta() }

  /** The bitmap blocks are still blank. */
  ghost predicate NoBits(g: Geometry, d: Disk) {
    g.Fits(d) && forall b :: 0 <= b < g.size && BitmapBlock(g, b) ==> d[b] == ZeroBlock()
  }

  lemma {:induction false} NoBitOfZero(k: nat)
    ensures !BitOf(0, k)
  {
    if k > 0 {
      NoBitOfZero(k - 1);
    }
  }

  lemma BlankBit(g: Geometry, d: Disk, c: nat)
    requires NoBits(g, d) && c < g.Bits()
    ensures !Bit(g, d, c)
  {
    Regions(g, 0, c);
    NoBitOfZero(c % 8);
  }

  lemma {:induction false} MarkedWrite(g: Geometry, d: Disk, n: nat, b: nat, x: Block)
    requires g.Fits(d) && n <= g.Bits() && b < g.size && !BitmapBlock(g, b)
    ensures MarkFirst(g, d, n)[b] == d[b]
    ensures g.Fits(d[b := x]) && MarkFirst(g, d[b := x], n) == MarkFirst(g, d, n)[b := x]
  {
    if n > 0 {
      MarkedWrite(g, d, n - 1, b, x);
      Regions(g, 0, n - 1);
      MarkedSwap(g, MarkFirst(g, d, n - 1), n - 1, b, x);
    }
  }

  lemma MarkedSwap(g: Geometry, d: Disk, c: nat, b: nat, x: Block)
    requires g.Fits(d) && c < g.Bits() && b < g.size && !BitmapBlock(g, b)
    ensures SetBit(g, d, c, true)[b] == d[b] && SetBit(g, d[b := x], c, true) == SetBit(g, d, c, true)[b := x]
  {
    Regions(g, 0, c);
    hide WithBit8;
    assert SetBit(g, d[b := x], c, true) == SetBit(g, d, c, true)[b := x];
  }

  /** `v` is `d` with the first `n` bits set. */
  ghost predicate FirstSet(g: Geometry, d: Disk, v: Disk, n: nat)
    requires g.Fits(d) && g.Fits(v)
  {
    SameInodes(g, d, v) && SameData(g, d, v) && forall c :: 0 <= c < g.Bits() ==> (Bit(g, v, c) <==> c < n || Bit(g, d, c))
  }

  lemma {:induction false} MarkedFrame(g: Geometry, d: Disk, n: nat)
    requires g.Fits(d) && n <= g.Bits()
    ensures FirstSet(g, d, MarkFirst(g, d, n), n)
  {
    hide FirstSet, SetBit;
    if n == 0 {
      NoneSet(g, d);
    } else {
      MarkedFrame(g, d, n - 1);
      MarkOneMore(g, d, MarkFirst(g, d, n - 1), n - 1);
    }
  }

  lemma NoneSet(g: Geometry, d: Disk)
    requires g.Fits(d)
    ensures FirstSet(g, d, d, 0)
  {
  }

  lemma MarkOneMore(g: Geometry, d: Disk, v: Disk, n: nat)
    requires g.Fits(d) && g.Fits(v) && n < g.Bits() && FirstSet(g, d, v, n)
    ensures g.Fits(SetBit(g, v, n, true)) && FirstSet(g, d, SetBit(g, v, n, true), n + 1)
  {
    hide Bit, SetBit, InodeAt;
    SetBitFrame(g, v, n, true);
  }

  /** Storing an inode and marking blocks do not interfere. */
  lemma MarkedStore(g: Geometry, d: Disk, n: nat, i: nat, ino: Inode)
    requires g.Fits(d) && n <= g.Bits() && i < g.ninodes
    ensures g.Fits(StoreInode(g, d, i, ino)) && InodeAt(g, MarkFirst(g, d, n), i) == InodeAt(g, d, i)
    ensures MarkFirst(g, StoreInode(g, d, i, ino), n) == StoreInode(g, MarkFirst(g, d, n), i, ino)
  {
    Regions(g, i, 0);
    MarkedWrite(g, d, n, g.IBlock(i), EncodeInode(d[g.IBlock(i)], i % IPB, ino));
  }

  // ---------- what a file of a given size takes ----------

  /** Exactly the data blocks below `z` are mapped, and the indirect block when `ind`. */
  ghost predicate Mapped(d: Disk, n: Inode, z: nat, ind: bool) {
    && (forall bn :: 0 <= bn < MAXFILE ==> (Addr(d, n, DataSlot(bn)) != 0 <==> BSIZE * bn < z))
    && (Addr(d, n, NDIRECT) != 0 <==> ind)
  }

  ghost predicate Exact(d: Disk, n: Inode, z: nat) {
    Mapped(d, n, z, BSIZE * NDIRECT < z)
  }

  /** Blocks taken by a file of `z` bytes. */
  function Blocks(z: nat): nat {
    (z + BSIZE - 1) / BSIZE + (if z > BSIZE * NDIRECT then 1 else 0)
  }

  lemma BlocksMonotone(y: nat, z: nat)
    requires y <= z
    ensures Blocks(y) <= Blocks(z)
  {
  }

  /** A further piece of a file takes a new block exactly at a block boundary. */
  lemma BlocksStep(off: nat, m: nat)
    requires 0 < m <= BSIZE - off % BSIZE
    ensures Blocks(off + m) == Blocks(off) + (if off % BSIZE == 0 then (if off == BSIZE * NDIRECT then 2 else 1) else 0)
  {
    var q, r := off / BSIZE, off % BSIZE;
    assert off == BSIZE * q + r;
    if r == 0 {
      assert (off + BSIZE - 1) / BSIZE == q;
      assert (off + m + BSIZE - 1) / BSIZE == q + 1;
    } else {
      assert (off + BSIZE - 1) / BSIZE == q + 1;
      assert (off + m + BSIZE - 1) / BSIZE == q + 1;
    }
  }

  lemma SameAddrsExact(d: Disk, n: Inode, d': Disk, n': Inode, z: nat)
    requires Exact(d, n, z) && forall s :: 0 <= s < SLOTS ==> Addr(d', n', s) == Addr(d, n, s)
    ensures Exact(d', n', z)
  {
    hide Addr;
    assert Addr(d', n', NDIRECT) == Addr(d, n, NDIRECT);
    forall bn | 0 <= bn < MAXFILE
      ensures Addr(d', n', DataSlot(bn)) != 0 <==> BSIZE * bn < z
    {
      assert Addr(d', n', DataSlot(bn)) == Addr(d, n, DataSlot(bn));
    }
  }

  /** The blocks that hold a byte below `off + 1` are those that hold one below `off + m`. */
  lemma ExactSpan(d: Disk, n: Inode, off: nat, m: nat)
    requires 0 < m <= BSIZE - off % BSIZE && Exact(d, n, off + 1)
    ensures Exact(d, n, off + m)
  {
    hide Addr;
    var q := off / BSIZE;
    assert off == BSIZE * q + off % BSIZE;
    assert forall bn :: 0 <= bn < MAXFILE ==> (BSIZE * bn < off + 1 <==> bn <= q) && (BSIZE * bn < off + m <==> bn <= q);
  }

  lemma ExactInside(d: Disk, n: Inode, off: nat)
    requires Exact(d, n, off) && off % BSIZE != 0
    ensures Exact(d, n, off + 1)
  {
    hide Addr;
    var q := off / BSIZE;
    assert off == BSIZE * q + off % BSIZE;
    assert forall bn :: 0 <= bn < MAXFILE ==> (BSIZE * bn < off + 1 <==> bn <= q) && (BSIZE * bn < off <==> bn <= q);
  }

  /** Claiming a block for slot `s` maps that slot and no other. */
  lemma OnlyClaimed(g: Geometry, d: Disk, t: Table, owner: Owner, d': Disk, t': Table, j: nat, s: nat, b: nat, r: nat)
    requires Owned(g, d, t, owner) && Owned(g, d', t', owner[b := (j, s)]) && Grew(d, t, d', t', j)
    requires b !in owner && s < SLOTS && r < SLOTS && r != s
    ensures Addr(d', t'[j], r) != 0 <==> Addr(d, t[j], r) != 0
  {
    assert Holds(d', t'[j], owner[b := (j, s)], j, r);
    if Addr(d', t'[j], r) != 0 {
      assert Placed(g, d, t, owner, Addr(d', t'[j], r));
    }
    assert Extends(d, t[j], d', t'[j], r);
  }

  // ---------- handing out the next block ----------

  /** The image under construction, with `n` in place of inode `j`. */
  ghost predicate Building(g: Geometry, d: Disk, next: nat, owner: Owner, j: nat, n: Inode) {
    && NoBits(g, d) && g.Meta() <= next <= g.size && next <= g.Bits() && j < g.ninodes
    && n.typ != 0 && n.typ != T_CHECKED
    && Owned(g, MarkFirst(g, d, next), TableOf(g, MarkFirst(g, d, next))[j := n], owner)
  }

  ghost function View(g: Geometry, d: Disk, next: nat, j: nat, n: Inode): Table
    requires g.Fits(d) && next <= g.Bits() && j < g.ninodes
  {
    TableOf(g, MarkFirst(g, d, next))[j := n]
  }

  /** What `Building` gives for the next free block. */
  lemma NextFree(g: Geometry, d: Disk, next: nat, owner: Owner, j: nat, n: Inode)
    requires Building(g, d, next, owner, j, n) && next < g.size
    ensures next + 1 <= g.Bits() && !Bit(g, MarkFirst(g, d, next), next) && next !in owner && g.Meta() <= next < TOP
    ensures 0 <= next < 0x1_0000_0000
    ensures MarkFirst(g, d, next + 1) == SetBit(g, MarkFirst(g, d, next), next, true)
    ensures g.Fits(d) && NoBits(g, d) && next <= g.Bits() && j < g.ninodes && n.typ != 0 && n.typ != T_CHECKED
    ensures Owned(g, MarkFirst(g, d, next), View(g, d, next, j, n), owner)
    ensures View(g, d, next, j, n)[j] == n && |View(g, d, next, j, n)| == g.ninodes
  {
    Regions(g, 0, 0);
    MarkedFrame(g, d, next);
    BlankBit(g, d, next);
    hide SetBit, InodeAt, Addr;
  }

  lemma ViewAfter(g: Geometry, d: Disk, next: nat, d': Disk, next': nat, j: nat, n: Inode, n': Inode)
    requires g.Fits(d) && g.Fits(d') && next <= g.Bits() && next' <= g.Bits() && j < g.ninodes
    requires SameInodes(g, MarkFirst(g, d, next), MarkFirst(g, d', next'))
    ensures View(g, d', next', j, n') == View(g, d, next, j, n)[j := n']
  {
    SameTable(g, MarkFirst(g, d, next), MarkFirst(g, d', next'));
  }

  lemma DirectAddr(g: Geometry, d: Disk, next: nat, owner: Owner, j: nat, n: Inode, s: nat)
    requires Building(g, d, next, owner, j, n) && s <= NDIRECT
    ensures Addr(MarkFirst(g, d, next), n, s) == n.addrs[s] && s < SLOTS
  {
  }

  /** The next block goes into the inode itself. */
  lemma NextDirect(g: Geometry, d: Disk, next: nat, owner: Owner, j: nat, n: Inode, s: nat)
    requires Building(g, d, next, owner, j, n) && next < g.size && s <= NDIRECT && n.addrs[s] == 0
    ensures next + 1 <= g.Bits() && next < TOP
    ensures var n' := n.(addrs := n.addrs[s := next]);
      && Building(g, d, next + 1, owner[next := (j, s)], j, n')
      && Taken(g, d, next, n, d, next + 1, n', j, s) && Addr(MarkFirst(g, d, next + 1), n', s) == next
  {
    hide *;
    NextFree(g, d, next, owner, j, n);
    var v, t := MarkFirst(g, d, next), View(g, d, next, j, n);
    DirectAddr(g, d, next, owner, j, n, s);
    AllocDirect(g, v, t, owner, j, s, next);
    var n' := n.(addrs := n.addrs[s := next]);
    ViewAfter(g, d, next, d, next + 1, j, n, n');
    TakenFor(g, d, next, owner, n, d, n', j, s);
  }

  /** An entry of the indirect block is read off the unmarked image. */
  lemma EntryAddr(g: Geometry, d: Disk, next: nat, owner: Owner, j: nat, n: Inode, k: nat)
    requires Building(g, d, next, owner, j, n) && k < NINDIRECT && n.addrs[NDIRECT] != 0
    ensures g.Meta() <= n.addrs[NDIRECT] < g.size && g.Fits(d) && !BitmapBlock(g, n.addrs[NDIRECT])
    ensures NDIRECT < NDIRECT + 1 + k < SLOTS && k < WORDS_PER_BLOCK
    ensures Addr(MarkFirst(g, d, next), n, NDIRECT) == n.addrs[NDIRECT]
    ensures Raw(MarkFirst(g, d, next), n, NDIRECT + 1 + k) == GetWord(d[n.addrs[NDIRECT]], k)
    ensures Addr(MarkFirst(g, d, next), n, NDIRECT + 1 + k) == GetWord(d[n.addrs[NDIRECT]], k)
  {
    var v, ib := MarkFirst(g, d, next), n.addrs[NDIRECT];
    assert Addr(v, n, NDIRECT) == ib;
    AddrInRange(g, v, View(g, d, next, j, n), owner, j, NDIRECT);
    MarkedWrite(g, d, next, ib, d[ib]);
  }

  lemma NoBitsKeep(g: Geometry, d: Disk, b: nat, x: Block)
    requires NoBits(g, d) && g.Meta() <= b < g.size
    ensures NoBits(g, d[b := x])
  {
  }

  /** The next block goes into the indirect block. */
  lemma NextIndirect(g: Geometry, d: Disk, next: nat, owner: Owner, j: nat, n: Inode, k: nat)
    requires Building(g, d, next, owner, j, n) && next < g.size && k < NINDIRECT && n.addrs[NDIRECT] != 0
    requires n.addrs[NDIRECT] < |d| && GetWord(d[n.addrs[NDIRECT]], k) == 0
    ensures next + 1 <= g.Bits() && next < TOP && g.Meta() <= n.addrs[NDIRECT]
    ensures var ib := n.addrs[NDIRECT];
      var d' := d[ib := PutWord(d[ib], k, next)];
      && Building(g, d', next + 1, owner[next := (j, NDIRECT + 1 + k)], j, n)
      && Taken(g, d, next, n, d', next + 1, n, j, NDIRECT + 1 + k)
      && Addr(MarkFirst(g, d', next + 1), n, NDIRECT + 1 + k) == next
  {
    hide *;
    NextFree(g, d, next, owner, j, n);
    var v, t, ib := MarkFirst(g, d, next), View(g, d, next, j, n), n.addrs[NDIRECT];
    EntryAddr(g, d, next, owner, j, n, k);
    var x := PutWord(d[ib], k, next);
    MarkedWrite(g, d, next, ib, x);
    MarkedWrite(g, d, next + 1, ib, x);
    AllocIndirect(g, v, t, owner, j, NDIRECT + 1 + k, next);
    var d' := d[ib := x];
    assert NDIRECT + 1 + k - NDIRECT - 1 == k;
    NoBitsKeep(g, d, ib, x);
    ViewAfter(g, d, next, d', next + 1, j, n, n);
    assert t[j := n] == t;
    TakenFor(g, d, next, owner, n, d', n, j, NDIRECT + 1 + k);
  }

  /** Slot `s` of inode `j` was filled; nothing else about any file changed. */
  ghost predicate Taken(g: Geometry, d: Disk, next: nat, n: Inode, d': Disk, next': nat, n': Inode, j: nat, s: nat) {
    && g.Fits(d) && g.Fits(d') && next <= g.Bits() && next' <= g.Bits() && j < g.ninodes && s < SLOTS
    && var v, v' := MarkFirst(g, d, next), MarkFirst(g, d', next');
    && Grew(v, View(g, d, next, j, n), v', View(g, d', next', j, n'), j) && SameInodes(g, v, v')
    && forall r :: 0 <= r < SLOTS && r != s ==> (Addr(v', n', r) != 0 <==> Addr(v, n, r) != 0)
  }

  lemma TakenFor(g: Geometry, d: Disk, next: nat, owner: Owner, n: Inode, d': Disk, n': Inode, j: nat, s: nat)
    requires g.Fits(d) && NoBits(g, d') && next + 1 <= g.Bits() && j < g.ninodes && s < SLOTS && next !in owner
    requires g.Meta() <= next < g.size && n'.typ == n.typ != 0 && n.typ != T_CHECKED
    requires var v, v', t := MarkFirst(g, d, next), MarkFirst(g, d', next + 1), View(g, d, next, j, n);
      Owned(g, v, t, owner) && Owned(g, v', t[j := n'], owner[next := (j, s)]) && Grew(v, t, v', t[j := n'], j)
      && SameInodes(g, v, v') && View(g, d', next + 1, j, n') == t[j := n']
    ensures Building(g, d', next + 1, owner[next := (j, s)], j, n') && Taken(g, d, next, n, d', next + 1, n', j, s)
  {
    var v, v', t, t' := MarkFirst(g, d, next), MarkFirst(g, d', next + 1), View(g, d, next, j, n), View(g, d', next + 1, j, n');
    hide Addr, MarkFirst, Owned, Grew, SameInodes;
    forall r | 0 <= r < SLOTS && r != s
      ensures Addr(v', n', r) != 0 <==> Addr(v, n, r) != 0
    {
      OnlyClaimed(g, v, t, owner, v', t', j, s, next, r);
    }
  }

  /** Filling the slot of block `bn` maps the file one block further. */
  lemma TakenData(g: Geometry, d: Disk, next: nat, n: Inode, d': Disk, next': nat, n': Inode, j: nat, bn: nat, ind: bool)
    requires bn < MAXFILE && Taken(g, d, next, n, d', next', n', j, DataSlot(bn))
    requires Mapped(MarkFirst(g, d, next), n, BSIZE * bn, ind) && Addr(MarkFirst(g, d', next'), n', DataSlot(bn)) != 0
    ensures Mapped(MarkFirst(g, d', next'), n', BSIZE * bn + 1, ind)
  {
    hide Addr, MarkFirst, Grew, SameInodes;
  }

  lemma TakenIndirect(g: Geometry, d: Disk, next: nat, n: Inode, d': Disk, next': nat, n': Inode, j: nat, z: nat)
    requires Taken(g, d, next, n, d', next', n', j, NDIRECT)
    requires Mapped(MarkFirst(g, d, next), n, z, false) && Addr(MarkFirst(g, d', next'), n', NDIRECT) != 0
    ensures Mapped(MarkFirst(g, d', next'), n', z, true)
  {
    hide Addr, MarkFirst, Grew, SameInodes;
  }

  // ---------- the block of a file that holds byte `off` ----------

  /** Inode `j` gained blocks; nothing reads differently. */
  ghost predicate Extended(g: Geometry, d: Disk, next: nat, n: Inode, d': Disk, next': nat, n': Inode, j: nat) {
    && g.Fits(d) && g.Fits(d') && next <= g.Bits() && next' <= g.Bits() && j < g.ninodes
    && var v, v' := MarkFirst(g, d, next), MarkFirst(g, d', next');
    && Grew(v, View(g, d, next, j, n), v', View(g, d', next', j, n'), j) && SameInodes(g, v, v')
  }

  lemma TakenExtends(g: Geometry, d: Disk, next: nat, n: Inode, d': Disk, next': nat, n': Inode, j: nat, s: nat)
    requires Taken(g, d, next, n, d', next', n', j, s)
    ensures Extended(g, d, next, n, d', next', n', j)
  {
  }

  lemma NotExtended(g: Geometry, d: Disk, next: nat, owner: Owner, j: nat, n: Inode)
    requires Building(g, d, next, owner, j, n)
    ensures Extended(g, d, next, n, d, next, n, j)
  {
    Unchanged(g, MarkFirst(g, d, next), View(g, d, next, j, n), j);
    hide Owned, Grew, MarkFirst, SameInodes;
  }

  lemma ExtendedTrans(g: Geometry, d: Disk, k: nat, n: Inode, d1: Disk, k1: nat, n1: Inode, d2: Disk, k2: nat, n2: Inode, j: nat)
    requires Extended(g, d, k, n, d1, k1, n1, j) && Extended(g, d1, k1, n1, d2, k2, n2, j)
    ensures Extended(g, d, k, n, d2, k2, n2, j)
  {
    hide Grew, MarkFirst, SameInodes, View;
    SameInodesTrans(g, MarkFirst(g, d, k), MarkFirst(g, d1, k1), MarkFirst(g, d2, k2));
    GrewTrans(MarkFirst(g, d, k), View(g, d, k, j, n), MarkFirst(g, d1, k1), View(g, d1, k1, j, n1),
              MarkFirst(g, d2, k2), View(g, d2, k2, j, n2), j);
  }

  /** A block is missing exactly when `off` is the first byte of one. */
  lemma DataNeeded(d: Disk, n: Inode, off: nat, ind: bool)
    requires off < MAXBYTES && Mapped(d, n, off, ind)
    ensures off / BSIZE < MAXFILE && (Addr(d, n, DataSlot(off / BSIZE)) == 0 <==> off % BSIZE == 0)
    ensures off % BSIZE == 0 ==> off == BSIZE * (off / BSIZE)
  {
    hide Addr;
    assert off == BSIZE * (off / BSIZE) + off % BSIZE;
  }

  lemma DirectNeeded(g: Geometry, d: Disk, next: nat, owner: Owner, j: nat, n: Inode, off: nat)
    requires Building(g, d, next, owner, j, n) && off < BSIZE * NDIRECT && Exact(MarkFirst(g, d, next), n, off)
    ensures off / BSIZE < NDIRECT && DataSlot(off / BSIZE) == off / BSIZE
    ensures n.addrs[off / BSIZE] == Addr(MarkFirst(g, d, next), n, off / BSIZE)
    ensures n.addrs[off / BSIZE] == 0 <==> off % BSIZE == 0
    ensures off % BSIZE != 0 ==> Exact(MarkFirst(g, d, next), n, off + 1) && Extended(g, d, next, n, d, next, n, j)
  {
    hide Building, MarkFirst, Addr, Extended, Mapped;
    DirectAddr(g, d, next, owner, j, n, off / BSIZE);
    NotExtended(g, d, next, owner, j, n);
    BuildingFits(g, d, next, owner, j, n);
    DataNeeded(MarkFirst(g, d, next), n, off, false);
    if off % BSIZE != 0 {
      ExactInside(MarkFirst(g, d, next), n, off);
    }
  }

  lemma BuildingFits(g: Geometry, d: Disk, next: nat, owner: Owner, j: nat, n: Inode)
    requires Building(g, d, next, owner, j, n)
    ensures g.Fits(d) && next <= g.Bits() && g.Meta() <= next <= g.size < WORD_LIMIT
  {
  }

  lemma TakeDirect(g: Geometry, d: Disk, next: nat, owner: Owner, j: nat, n: Inode, off: nat)
    requires Building(g, d, next, owner, j, n) && off < BSIZE * NDIRECT && off % BSIZE == 0
    requires Exact(MarkFirst(g, d, next), n, off) && n.addrs[off / BSIZE] == 0 && next < g.size
    ensures next + 1 <= g.Bits() && 0 < next < WORD_LIMIT && DataSlot(off / BSIZE) == off / BSIZE
    ensures var n' := n.(addrs := n.addrs[off / BSIZE := next]);
      && Building(g, d, next + 1, owner[next := (j, off / BSIZE)], j, n') && Extended(g, d, next, n, d, next + 1, n', j)
      && Exact(MarkFirst(g, d, next + 1), n', off + 1) && Addr(MarkFirst(g, d, next + 1), n', off / BSIZE) == next
  {
    hide Building, MarkFirst, Addr, Extended, Mapped, Taken;
    BuildingFits(g, d, next, owner, j, n);
    NextDirect(g, d, next, owner, j, n, off / BSIZE);
    var n' := n.(addrs := n.addrs[off / BSIZE := next]);
    TakenExtends(g, d, next, n, d, next + 1, n', j, off / BSIZE);
    TakenData(g, d, next, n, d, next + 1, n', j, off / BSIZE, false);
  }

  lemma IndirectNeeded(g: Geometry, d: Disk, next: nat, owner: Owner, j: nat, n: Inode, off: nat)
    requires Building(g, d, next, owner, j, n) && BSIZE * NDIRECT <= off < MAXBYTES && Exact(MarkFirst(g, d, next), n, off)
    ensures n.addrs[NDIRECT] == 0 <==> off == BSIZE * NDIRECT
    ensures n.addrs[NDIRECT] != 0 ==>
              Mapped(MarkFirst(g, d, next), n, off, true) && Extended(g, d, next, n, d, next, n, j)
  {
    hide Building, MarkFirst, Addr, Extended;
    DirectAddr(g, d, next, owner, j, n, NDIRECT);
    NotExtended(g, d, next, owner, j, n);
  }

  lemma TakeIndirectBlock(g: Geometry, d: Disk, next: nat, owner: Owner, j: nat, n: Inode, off: nat)
    requires Building(g, d, next, owner, j, n) && off == BSIZE * NDIRECT && Exact(MarkFirst(g, d, next), n, off)
    requires n.addrs[NDIRECT] == 0 && next < g.size
    ensures next + 1 <= g.Bits() && 0 < next < WORD_LIMIT
    ensures var n' := n.(addrs := n.addrs[NDIRECT := next]);
      && Building(g, d, next + 1, owner[next := (j, NDIRECT)], j, n') && Extended(g, d, next, n, d, next + 1, n', j)
      && Mapped(MarkFirst(g, d, next + 1), n', off, true)
  {
    hide Building, MarkFirst, Addr, Extended, Mapped, Taken;
    BuildingFits(g, d, next, owner, j, n);
    NextDirect(g, d, next, owner, j, n, NDIRECT);
    var n' := n.(addrs := n.addrs[NDIRECT := next]);
    TakenExtends(g, d, next, n, d, next + 1, n', j, NDIRECT);
    TakenIndirect(g, d, next, n, d, next + 1, n', j, off);
  }

  lemma EntryNeeded(g: Geometry, d: Disk, next: nat, owner: Owner, j: nat, n: Inode, off: nat)
    requires Building(g, d, next, owner, j, n) && BSIZE * NDIRECT <= off < MAXBYTES
    requires Mapped(MarkFirst(g, d, next), n, off, true) && n.addrs[NDIRECT] != 0
    ensures n.addrs[NDIRECT] < |d| && NDIRECT <= off / BSIZE < MAXFILE && DataSlot(off / BSIZE) == off / BSIZE + 1
    ensures var w := GetWord(d[n.addrs[NDIRECT]], off / BSIZE - NDIRECT);
      && w == Addr(MarkFirst(g, d, next), n, DataSlot(off / BSIZE)) && (w == 0 <==> off % BSIZE == 0)
      && (w != 0 ==> Exact(MarkFirst(g, d, next), n, off + 1))
  {
    hide Building, MarkFirst, Addr, Mapped, GetWord;
    BuildingFits(g, d, next, owner, j, n);
    EntryAddr(g, d, next, owner, j, n, off / BSIZE - NDIRECT);
    DataNeeded(MarkFirst(g, d, next), n, off, true);
    if off % BSIZE != 0 {
      ExactInside(MarkFirst(g, d, next), n, off);
    }
  }

  lemma TakeEntry(g: Geometry, d0: Disk, next0: nat, n0: Inode, d: Disk, next: nat, owner: Owner, j: nat, n: Inode, off: nat)
    requires Building(g, d, next, owner, j, n) && Extended(g, d0, next0, n0, d, next, n, j)
    requires BSIZE * NDIRECT <= off < MAXBYTES && off % BSIZE == 0
    requires Mapped(MarkFirst(g, d, next), n, off, true) && 0 < n.addrs[NDIRECT] < |d| && next < g.size
    requires GetWord(d[n.addrs[NDIRECT]], off / BSIZE - NDIRECT) == 0
    ensures next + 1 <= g.Bits() && 0 < next < WORD_LIMIT
    ensures var ib := n.addrs[NDIRECT];
      var x := PutWord(d[ib], off / BSIZE - NDIRECT, next);
      var d' := d[ib := x];
      && Building(g, d', next + 1, owner[next := (j, off / BSIZE + 1)], j, n)
      && Extended(g, d0, next0, n0, d', next + 1, n, j)
      && Exact(MarkFirst(g, d', next + 1), n, off + 1)
      && GetWord(x, off / BSIZE - NDIRECT) == next == Addr(MarkFirst(g, d', next + 1), n, DataSlot(off / BSIZE))
  {
    hide Building, MarkFirst, Addr, Mapped, GetWord, PutWord, Taken, Extended;
    BuildingFits(g, d, next, owner, j, n);
    var ib, k := n.addrs[NDIRECT], off / BSIZE - NDIRECT;
    assert off == BSIZE * (off / BSIZE);
    assert DataSlot(off / BSIZE) == NDIRECT + 1 + k;
    GetPutWord(d[ib], k, next);
    NextIndirect(g, d, next, owner, j, n, k);
    var d' := d[ib := PutWord(d[ib], k, next)];
    TakenExtends(g, d, next, n, d', next + 1, n, j, NDIRECT + 1 + k);
    ExtendedTrans(g, d0, next0, n0, d, next, n, d', next + 1, n, j);
    TakenData(g, d, next, n, d', next + 1, n, j, off / BSIZE, true);
  }
}
