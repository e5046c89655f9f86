/** Freeing blocks: the effect on ownership of clearing a slot, and the way the
    indirect block is emptied entry by entry although its words stay on the disk
    until the block itself is freed. */
module Release {
  import opened Words
  import opened Layout
  import opened BlockMap
  import opened Files

  /** The disk after `bfree(b)`: the block zeroed, its bit cleared. */
  function Freed(g: Geometry, d: Disk, b: nat): (d': Disk)
    requires g.Fits(d) && g.Meta() <= b < g.size
  {
    Regions(g, 0, 0);
    SetBit(g, d[b := ZeroBlock()], b, false)
  }

  lemma FreedFrame(g: Geometry, d: Disk, b: nat)
    requires g.Fits(d) && g.Meta() <= b < g.size
    ensures b < g.Bits() && g.Fits(Freed(g, d, b))
    ensures BitChange(g, d, Freed(g, d, b), b, false) && SameInodes(g, d, Freed(g, d, b))
    ensures forall c :: g.Meta() <= c < g.size ==> Freed(g, d, b)[c] == if c == b then ZeroBlock() else d[c]
  {
    hide Bit, InodeAt, SetBit;
    Regions(g, 0, 0);
    DataFrame(g, d, b, ZeroBlock());
    SetBitFrame(g, d[b := ZeroBlock()], b, false);
  }

  /** Slot `s` of inode `j` gives its block back. */
  lemma ReleaseSlot(g: Geometry, d: Disk, t: Table, owner: Owner, d': Disk, t': Table, j: nat, s: nat)
    requires Owned(g, d, t, owner) && g.Fits(d') && j < |t| && t[j].typ != 0 && s < SLOTS
    requires Addr(d, t[j], s) != 0 && RawChange(d, t, d', t', j, s, 0)
    requires t'[j] == t[j].(addrs := t'[j].addrs)
    requires BitChange(g, d, d', Addr(d, t[j], s), false)
    requires Addr(d, t[j], s) < g.size ==> d'[Addr(d, t[j], s)] == ZeroBlock()
    requires forall c :: g.Meta() <= c < g.size && c != Addr(d, t[j], s) && c != Addr(d, t[j], NDIRECT) ==> d'[c] == d[c]
    ensures Owned(g, d', t', owner - {Addr(d, t[j], s)}) && OthersSame(d, t, d', t', j)
  {
    hide Raw, Bit;
    var b := Addr(d, t[j], s);
    assert Holds(d, t[j], owner, j, NDIRECT);
    assert Holds(d, t[j], owner, j, s);
    ReleaseBlock(g, d, t, owner, d', t', j, s, b);
    forall i, k | 0 <= i < |t| && i != j && 0 <= k < MAXFILE
      ensures FileBlock(d', t'[i], k) == FileBlock(d, t[i], k)
    {
      OtherBlock(g, d, t, owner, d', t', j, s, i, k);
    }
  }

  lemma OtherBlock(g: Geometry, d: Disk, t: Table, owner: Owner, d': Disk, t': Table, j: nat, s: nat, i: nat, k: nat)
    requires Owned(g, d, t, owner) && g.Fits(d') && j < |t| && s < SLOTS && i < |t| == |t'| && i != j && k < MAXFILE
    requires Raw(d', t'[i], DataSlot(k)) == Raw(d, t[i], DataSlot(k)) && t'[i] == t[i]
    requires forall c :: g.Meta() <= c < g.size && c != Addr(d, t[j], s) && c != Addr(d, t[j], NDIRECT) ==> d'[c] == d[c]
    ensures FileBlock(d', t'[i], k) == FileBlock(d, t[i], k)
  {
    hide Raw;
    var a := Addr(d, t[i], DataSlot(k));
    if a != 0 {
      AddrInRange(g, d, t, owner, i, DataSlot(k));
      assert Holds(d, t[i], owner, i, DataSlot(k)) && Holds(d, t[j], owner, j, s) && Holds(d, t[j], owner, j, NDIRECT);
    }
  }

  /** A direct slot, or the indirect slot once its entries are all zero. */
  lemma ReleaseDirect(g: Geometry, d: Disk, t: Table, owner: Owner, j: nat, s: nat)
    requires Owned(g, d, t, owner) && j < |t| && t[j].typ != 0 && s <= NDIRECT && Addr(d, t[j], s) != 0
    requires s == NDIRECT ==> forall r :: NDIRECT < r < SLOTS ==> Raw(d, t[j], r) == 0
    ensures g.Meta() <= Addr(d, t[j], s) < g.size
    ensures var d', t' := Freed(g, d, Addr(d, t[j], s)), t[j := t[j].(addrs := t[j].addrs[s := 0])];
      && g.Fits(d') && Owned(g, d', t', owner - {Addr(d, t[j], s)}) && OthersSame(d, t, d', t', j) && SameInodes(g, d, d')
      && RawChange(d, t, d', t', j, s, 0)
  {
    AddrInRange(g, d, t, owner, j, s);
    var b := Addr(d, t[j], s);
    FreedFrame(g, d, b);
    var d', t' := Freed(g, d, b), t[j := t[j].(addrs := t[j].addrs[s := 0])];
    assert RawChange(d, t, d', t', j, s, 0) by {
      ReleaseDirectRaw(g, d, t, owner, j, s, d');
    }
    ReleaseSlot(g, d, t, owner, d', t', j, s);
  }

  lemma ReleaseDirectRaw(g: Geometry, d: Disk, t: Table, owner: Owner, j: nat, s: nat, d': Disk)
    requires Owned(g, d, t, owner) && j < |t| && s <= NDIRECT && Addr(d, t[j], s) != 0 && g.Fits(d')
    requires s == NDIRECT ==> forall r :: NDIRECT < r < SLOTS ==> Raw(d, t[j], r) == 0
    requires forall c :: g.Meta() <= c < g.size && c != Addr(d, t[j], s) ==> d'[c] == d[c]
    ensures RawChange(d, t, d', t[j := t[j].(addrs := t[j].addrs[s := 0])], j, s, 0)
  {
    var t' := t[j := t[j].(addrs := t[j].addrs[s := 0])];
    forall i, r | 0 <= i < |t| && 0 <= r < SLOTS
      ensures Raw(d', t'[i], r) == if i == j && r == s then 0 else Raw(d, t[i], r)
    {
      if r > NDIRECT && Addr(d, t[i], NDIRECT) != 0 {
        AddrInRange(g, d, t, owner, i, NDIRECT);
        if Addr(d, t[i], NDIRECT) == Addr(d, t[j], s) {
          IndirectIsPrivate(g, d, t, owner, i, j, s);
        }
      }
    }
  }

  // ---------- emptying the indirect block ----------

  /** The indirect block with its first `k` entries read as zero. */
  function Cleared(blk: Block, k: nat): Block
    requires k <= NINDIRECT
  {
    seq(BSIZE, p requires 0 <= p < BSIZE => if p < 4 * k then 0 else blk[p])
  }

  lemma ClearedWords(blk: Block, k: nat, i: nat)
    requires k <= NINDIRECT && i < NINDIRECT
    ensures GetWord(Cleared(blk, k), i) == if i < k then 0 else GetWord(blk, i)
  {
  }

  lemma ClearedEnds(blk: Block)
    ensures Cleared(blk, 0) == blk
    ensures Cleared(blk, NINDIRECT) == ZeroBlock()
  {
  }

  lemma ClearNext(blk: Block, k: nat)
    requires k < NINDIRECT
    ensures Cleared(blk, k + 1) == PutWord(Cleared(blk, k), k, 0)
  {
  }

  /** `d` read as if the first `k` entries of indirect block `ib` were already gone. */
  function Emptied(d: Disk, ib: nat, k: nat): Disk
    requires ib < |d| && k <= NINDIRECT
  {
    d[ib := Cleared(d[ib], k)]
  }

  /** Freeing the block of entry `k` empties one more entry. */
  lemma ReleaseEntry(g: Geometry, d: Disk, t: Table, owner: Owner, j: nat, ib: nat, k: nat)
    requires g.Fits(d) && ib < g.size && k < NINDIRECT && j < |t| && t[j].typ != 0
    requires Owned(g, Emptied(d, ib, k), t, owner) && Addr(d, t[j], NDIRECT) == ib != 0
    requires Low(t[j].typ, GetWord(d[ib], k)) != 0
    ensures var dv, b := Emptied(d, ib, k), Low(t[j].typ, GetWord(d[ib], k));
      g.Meta() <= b < g.size && b != ib && b == Addr(dv, t[j], k + NDIRECT + 1)
    ensures var dv, b := Emptied(d, ib, k), Low(t[j].typ, GetWord(d[ib], k));
      var d' := Freed(g, d, b);
      g.Fits(d') && d'[ib] == d[ib] && Owned(g, Emptied(d', ib, k + 1), t, owner - {b})
      && OthersSame(dv, t, Emptied(d', ib, k + 1), t, j) && SameInodes(g, d, d')
      && RawChange(dv, t, Emptied(d', ib, k + 1), t, j, k + NDIRECT + 1, 0)
  {
    hide Owned, OthersSame, Bit, InodeAt, SameReads;
    var dv, s := Emptied(d, ib, k), k + NDIRECT + 1;
    ClearedWords(d[ib], k, k);
    var b := Low(t[j].typ, GetWord(d[ib], k));
    assert Addr(dv, t[j], s) == b;
    AddrInRange(g, dv, t, owner, j, s);
    if b == ib {
      IndirectIsPrivate(g, dv, t, owner, j, j, s);
    }
    var d' := Freed(g, d, b);
    FreedFrame(g, d, b);
    WriteIndirect(g, dv, t, owner, j, s, 0);
    var dw := dv[ib := PutWord(dv[ib], k, 0)];
    ClearNext(d[ib], k);
    EmptiedFreed(g, d, ib, k, b);
    FreedFrame(g, dw, b);
    assert Emptied(d', ib, k + 1) == Freed(g, dw, b);
    EntryRaw(g, dv, t, owner, j, s, dw, b);
    EntryRelease(g, dv, t, owner, dw, j, s, b);
  }

  lemma EmptiedFreed(g: Geometry, d: Disk, ib: nat, k: nat, b: nat)
    requires g.Fits(d) && g.Meta() <= ib < g.size && g.Meta() <= b < g.size && b != ib && k < NINDIRECT
    ensures g.Fits(Freed(g, d, b)) && Freed(g, d, b)[ib] == d[ib]
    ensures Emptied(Freed(g, d, b), ib, k + 1) == Freed(g, d[ib := Cleared(d[ib], k + 1)], b)
  {
    hide Cleared;
    Regions(g, 0, b);
  }

  lemma EntryRaw(g: Geometry, dv: Disk, t: Table, owner: Owner, j: nat, s: nat, dw: Disk, b: nat)
    requires Owned(g, dv, t, owner) && j < |t| && NDIRECT < s < SLOTS && b == Addr(dv, t[j], s) != 0
    requires g.Meta() <= b < g.size && g.Fits(dw) && RawChange(dv, t, dw, t, j, s, 0)
    ensures RawChange(dv, t, Freed(g, dw, b), t, j, s, 0)
  {
    hide Bit, InodeAt;
    FreedFrame(g, dw, b);
    var d' := Freed(g, dw, b);
    forall i, r | 0 <= i < |t| && 0 <= r < SLOTS
      ensures Raw(d', t[i], r) == Raw(dw, t[i], r)
    {
      if r > NDIRECT && Addr(dv, t[i], NDIRECT) != 0 {
        AddrInRange(g, dv, t, owner, i, NDIRECT);
        if Addr(dv, t[i], NDIRECT) == b {
          IndirectIsPrivate(g, dv, t, owner, i, j, s);
        }
      }
    }
  }

  lemma EntryRelease(g: Geometry, dv: Disk, t: Table, owner: Owner, dw: Disk, j: nat, s: nat, b: nat)
    requires Owned(g, dv, t, owner) && j < |t| && t[j].typ != 0 && NDIRECT < s < SLOTS && b == Addr(dv, t[j], s) != 0
    requires g.Meta() <= b < g.size && g.Fits(dw) && SameBits(g, dv, dw)
    requires forall c :: 0 <= c < g.size && c != Addr(dv, t[j], NDIRECT) ==> dw[c] == dv[c]
    requires RawChange(dv, t, Freed(g, dw, b), t, j, s, 0)
    ensures g.Fits(Freed(g, dw, b)) && Owned(g, Freed(g, dw, b), t, owner - {b})
    ensures OthersSame(dv, t, Freed(g, dw, b), t, j)
  {
    hide Bit, InodeAt, Raw;
    FreedFrame(g, dw, b);
    ReleaseSlot(g, dv, t, owner, Freed(g, dw, b), t, j, s);
  }

  // ---------- truncation, slot by slot ----------

  /** How far truncating inode `j` has come: the slots in `done` are empty and
      their blocks given back; every other slot and every other file is as before. */
  ghost predicate Truncated(g: Geometry, d0: Disk, t0: Table, owner0: Owner, d: Disk, t: Table, owner: Owner, j: nat, done: set<nat>) {
    && Owned(g, d, t, owner) && g.Fits(d0) && j < |t| && OthersSame(d0, t0, d, t, j) && SameInodes(g, d0, d)
    && t[j] == t0[j].(addrs := t[j].addrs)
    && (forall s :: 0 <= s < SLOTS ==> Raw(d, t[j], s) == if s in done then 0 else Raw(d0, t0[j], s))
    && OwnerLeft(owner0, owner, j, done)
  }

  ghost predicate OwnerLeft(owner0: Owner, owner: Owner, j: nat, done: set<nat>) {
    && (forall b :: b in owner <==> b in owner0 && !(owner0[b].0 == j && owner0[b].1 in done))
    && (forall b :: b in owner ==> owner[b] == owner0[b])
  }

  /** The slots `[lo, hi)`. */
  ghost function Slots(lo: nat, hi: nat): (r: set<nat>)
    requires lo <= hi
    ensures forall s :: s in r <==> lo <= s < hi
    decreases hi
  {
    if lo == hi then {} else Slots(lo, hi - 1) + {hi - 1}
  }

  lemma SlotsJoin(lo: nat, mid: nat, hi: nat)
    requires lo <= mid <= hi
    ensures Slots(lo, mid) + Slots(mid, hi) == Slots(lo, hi)
  {
    hide Slots;
  }

  lemma SlotsLow(done: set<nat>, lo: nat, hi: nat)
    requires lo < hi
    ensures done + Slots(lo + 1, hi) + {lo} == done + Slots(lo, hi)
  {
    hide Slots;
  }

  lemma SlotsHigh(done: set<nat>, lo: nat, hi: nat)
    requires lo <= hi
    ensures done + Slots(lo, hi) + {hi} == done + Slots(lo, hi + 1)
  {
    hide Slots;
  }

  /** The slot was empty: nothing to give back. */
  lemma TruncateSkip(g: Geometry, d0: Disk, t0: Table, owner0: Owner, d: Disk, t: Table, owner: Owner, j: nat, done: set<nat>, s: nat)
    requires Truncated(g, d0, t0, owner0, d, t, owner, j, done) && s < SLOTS && Raw(d, t[j], s) == 0
    ensures Truncated(g, d0, t0, owner0, d, t, owner, j, done + {s})
  {
    hide Raw, Bit, InodeAt, SameReads;
    forall b | b in owner
      ensures !(owner[b].0 == j && owner[b].1 == s)
    {
      assert Placed(g, d, t, owner, b);
    }
  }

  /** One slot given back, on a disk where everything but that slot is unchanged. */
  lemma TruncateStep(g: Geometry, d0: Disk, t0: Table, owner0: Owner, d: Disk, t: Table, owner: Owner, j: nat, done: set<nat>,
                     s: nat, d': Disk, t': Table)
    requires Truncated(g, d0, t0, owner0, d, t, owner, j, done) && s < SLOTS && Addr(d, t[j], s) != 0
    requires RawChange(d, t, d', t', j, s, 0) && t'[j] == t[j].(addrs := t'[j].addrs)
    requires Owned(g, d', t', owner - {Addr(d, t[j], s)}) && OthersSame(d, t, d', t', j) && SameInodes(g, d, d')
    ensures Truncated(g, d0, t0, owner0, d', t', owner - {Addr(d, t[j], s)}, j, done + {s})
  {
    hide Raw, Bit, InodeAt, SameReads;
    var b := Addr(d, t[j], s);
    assert Holds(d, t[j], owner, j, s);
    forall c | c in owner && c != b
      ensures !(owner[c].0 == j && owner[c].1 == s)
    {
      assert Placed(g, d, t, owner, c);
    }
    OthersTrans(d0, t0, d, t, d', t', j);
  }

  lemma OthersTrans(d: Disk, t: Table, d1: Disk, t1: Table, d2: Disk, t2: Table, j: nat)
    requires j < |t| && OthersSame(d, t, d1, t1, j) && OthersSame(d1, t1, d2, t2, j)
    ensures OthersSame(d, t, d2, t2, j)
  {
    forall i | 0 <= i < |t| && i != j
      ensures SameFile(d, t[i], d2, t2[i])
    {
      assert SameFile(d, t[i], d1, t1[i]) && SameFile(d1, t1[i], d2, t2[i]);
    }
  }

  lemma SlotBit(g: Geometry, d: Disk, t: Table, owner: Owner, j: nat, s: nat)
    requires Owned(g, d, t, owner) && j < |t| && s < SLOTS && Addr(d, t[j], s) != 0
    ensures Addr(d, t[j], s) < g.Bits() && Bit(g, d, Addr(d, t[j], s))
  {
    assert Holds(d, t[j], owner, j, s);
    assert Placed(g, d, t, owner, Addr(d, t[j], s));
    Regions(g, 0, 0);
  }

  lemma TruncateDirect(g: Geometry, d0: Disk, t0: Table, owner0: Owner, d: Disk, t: Table, owner: Owner, j: nat, done: set<nat>, s: nat)
    requires Truncated(g, d0, t0, owner0, d, t, owner, j, done) && s <= NDIRECT && t[j].typ != 0
    requires 0 < Raw(d, t[j], s) < TOP
    requires s == NDIRECT ==> forall r :: NDIRECT < r < SLOTS ==> Raw(d, t[j], r) == 0
    ensures g.Meta() <= Raw(d, t[j], s) < g.size && Bit(g, d, Raw(d, t[j], s))
    ensures var b := Raw(d, t[j], s);
      g.Fits(Freed(g, d, b))
      && Truncated(g, d0, t0, owner0, Freed(g, d, b), t[j := t[j].(addrs := t[j].addrs[s := 0])], owner - {b}, j, done + {s})
  {
    assert Owned(g, d, t, owner) && j < |t|;
    hide Raw, InodeAt, SameReads, Owned, Truncated, OthersSame, Bit, RawChange, SameInodes;
    assert Addr(d, t[j], s) == Raw(d, t[j], s);
    SlotBit(g, d, t, owner, j, s);
    ReleaseDirect(g, d, t, owner, j, s);
    TruncateStep(g, d0, t0, owner0, d, t, owner, j, done, s, Freed(g, d, Raw(d, t[j], s)),
                 t[j := t[j].(addrs := t[j].addrs[s := 0])]);
  }

  lemma TruncateEntry(g: Geometry, d0: Disk, t0: Table, owner0: Owner, d: Disk, t: Table, owner: Owner, j: nat, done: set<nat>, ib: nat, k: nat)
    requires g.Fits(d) && ib < g.size && k < NINDIRECT && j < |t| && t[j].typ != 0
    requires Truncated(g, d0, t0, owner0, Emptied(d, ib, k), t, owner, j, done)
    requires Addr(d, t[j], NDIRECT) == ib != 0 && 0 < GetWord(d[ib], k) < TOP
    ensures var b := GetWord(d[ib], k);
      && g.Meta() <= b < g.size && Bit(g, d, b) && g.Fits(Freed(g, d, b)) && Freed(g, d, b)[ib] == d[ib]
      && Truncated(g, d0, t0, owner0, Emptied(Freed(g, d, b), ib, k + 1), t, owner - {b}, j, done + {k + NDIRECT + 1})
  {
    var b := GetWord(d[ib], k);
    assert Owned(g, Emptied(d, ib, k), t, owner) && g.Fits(Emptied(d, ib, k));
    assert Low(t[j].typ, b) == b && t[j] == t[j].(addrs := t[j].addrs);
    hide *;
    ReleaseEntry(g, d, t, owner, j, ib, k);
    IndirectIsPrivate(g, Emptied(d, ib, k), t, owner, j, j, NDIRECT);
    EntrySameInodes(g, d, ib, k, b);
    TruncateStep(g, d0, t0, owner0, Emptied(d, ib, k), t, owner, j, done, k + NDIRECT + 1, Emptied(Freed(g, d, b), ib, k + 1), t);
    EntryBit(g, d, t, owner, j, ib, k, b);
  }

  lemma EntrySameInodes(g: Geometry, d: Disk, ib: nat, k: nat, b: nat)
    requires g.Fits(d) && g.Meta() <= ib < g.size && g.Meta() <= b < g.size && k < NINDIRECT
    ensures g.Fits(Freed(g, d, b)) && SameInodes(g, Emptied(d, ib, k), Emptied(Freed(g, d, b), ib, k + 1))
  {
    FreedFrame(g, d, b);
    DataFrame(g, d, ib, Cleared(d[ib], k));
    DataFrame(g, Freed(g, d, b), ib, Cleared(Freed(g, d, b)[ib], k + 1));
  }

  lemma EntryBit(g: Geometry, d: Disk, t: Table, owner: Owner, j: nat, ib: nat, k: nat, b: nat)
    requires g.Fits(d) && ib < g.size && k < NINDIRECT && j < |t|
    requires Owned(g, Emptied(d, ib, k), t, owner) && Addr(Emptied(d, ib, k), t[j], k + NDIRECT + 1) == b != 0
    requires g.Meta() <= ib
    ensures b < g.Bits() && Bit(g, d, b)
  {
    SlotBit(g, Emptied(d, ib, k), t, owner, j, k + NDIRECT + 1);
    DataFrame(g, d, ib, Cleared(d[ib], k));
  }

  lemma TruncateEntrySkip(g: Geometry, d0: Disk, t0: Table, owner0: Owner, d: Disk, t: Table, owner: Owner, j: nat, done: set<nat>, ib: nat, k: nat)
    requires g.Fits(d) && ib < g.size && k < NINDIRECT && j < |t|
    requires Truncated(g, d0, t0, owner0, Emptied(d, ib, k), t, owner, j, done)
    requires Addr(d, t[j], NDIRECT) == ib != 0 && GetWord(d[ib], k) == 0
    ensures Truncated(g, d0, t0, owner0, Emptied(d, ib, k + 1), t, owner, j, done + {k + NDIRECT + 1})
  {
    hide Truncated;
    assert Emptied(d, ib, k + 1) == Emptied(d, ib, k) by {
      forall p | 0 <= p < BSIZE
        ensures Cleared(d[ib], k + 1)[p] == Cleared(d[ib], k)[p]
      {
      }
      assert Cleared(d[ib], k + 1) == Cleared(d[ib], k);
    }
    ClearedWords(d[ib], k, k);
    TruncateSkip(g, d0, t0, owner0, Emptied(d, ib, k), t, owner, j, done, k + NDIRECT + 1);
  }
}
