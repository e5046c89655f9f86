/** The block map of an inode (twelve direct addresses, one indirect block) and
    block ownership: which inode slot holds each allocated data block.

    `Raw` is the word stored in a slot; `Addr` is the block it names, which for
    a T_CHECKED inode is only the low 24 bits, the top byte being a checksum. */
module BlockMap {
  import opened Words
  import opened Layout

  const SLOTS: nat := 141          // 12 direct, the indirect block, 128 indirect entries
  const TOP: nat := 0x100_0000

  type Table = seq<Inode>
  type Owner = map<nat, (nat, nat)>   // block -> (inode, slot)

  function Low(typ: int, w: word): word {
    if typ == T_CHECKED then w % TOP else w
  }

  function Raw(d: Disk, n: Inode, s: nat): word
    requires s < SLOTS
  {
    if s <= NDIRECT then n.addrs[s]
    else
      var ib := Low(n.typ, n.addrs[NDIRECT]);
      if ib == 0 || ib >= |d| then 0 else GetWord(d[ib], s - NDIRECT - 1)
  }

  function Addr(d: Disk, n: Inode, s: nat): word
    requires s < SLOTS
  {
    Low(n.typ, Raw(d, n, s))
  }

  function DataSlot(bn: nat): (s: nat)
    requires bn < MAXFILE
    ensures s < SLOTS && s != NDIRECT
  {
    if bn < NDIRECT then bn else bn + 1
  }

  /** Block `bn` of the file, an unmapped block reading as zeros. */
  function FileBlock(d: Disk, n: Inode, bn: nat): Block
    requires bn < MAXFILE
  {
    var a := Addr(d, n, DataSlot(bn));
    if a == 0 || a >= |d| then ZeroBlock() else d[a]
  }

  // ---------- ownership ----------

  ghost predicate Holds(d: Disk, n: Inode, owner: Owner, j: nat, s: nat)
    requires s < SLOTS
  {
    var a := Addr(d, n, s);
    a != 0 ==> a in owner && owner[a] == (j, s)
  }

  ghost predicate Placed(g: Geometry, d: Disk, t: Table, owner: Owner, b: nat)
    requires b in owner
  {
    g.Meta() <= b < g.size && owner[b].0 < |t| && owner[b].1 < SLOTS
    && Addr(d, t[owner[b].0], owner[b].1) == b
  }

  /** Block ownership: slots and owned blocks are in bijection, the bits in use
      are the metadata blocks and the owned blocks, and every other block is zero. */
  ghost predicate Owned(g: Geometry, d: Disk, t: Table, owner: Owner) {
    && g.Fits(d) && |t| == g.ninodes
    && (forall j, s :: 0 <= j < |t| && 0 <= s < SLOTS ==> Holds(d, t[j], owner, j, s))
    && (forall b :: b in owner ==> Placed(g, d, t, owner, b))
    && (forall b :: 0 <= b < g.size ==> (Bit(g, d, b) <==> b < g.Meta() || b in owner))
    && (forall b :: g.Meta() <= b < g.size && b !in owner ==> d[b] == ZeroBlock())
    && (forall j :: 0 <= j < |t| && t[j].typ == 0 ==> NoBlocks(t[j]))
  }

  ghost predicate NoBlocks(n: Inode) {
    forall s :: 0 <= s <= NDIRECT ==> n.addrs[s] == 0
  }

  /** What ownership means without the map: no block is reachable twice, and a
      block is in use exactly when it is metadata or some slot names it. */
  lemma OwnershipMeaning(g: Geometry, d: Disk, t: Table, owner: Owner)
    requires Owned(g, d, t, owner)
    ensures forall j, s, j', s' ::
              (0 <= j < |t| && 0 <= s < SLOTS && 0 <= j' < |t| && 0 <= s' < SLOTS
               && Addr(d, t[j], s) != 0 && Addr(d, t[j], s) == Addr(d, t[j'], s')) ==> j == j' && s == s'
    ensures forall b :: g.Meta() <= b < g.size ==>
              (Bit(g, d, b) <==> exists j, s :: 0 <= j < |t| && 0 <= s < SLOTS && Addr(d, t[j], s) == b)
    ensures forall b :: 0 <= b < g.Meta() ==> Bit(g, d, b)
    ensures forall b :: 0 <= b < g.size && !Bit(g, d, b) ==> d[b] == ZeroBlock()
  {
    forall j, s, j', s' |
      0 <= j < |t| && 0 <= s < SLOTS && 0 <= j' < |t| && 0 <= s' < SLOTS
      && Addr(d, t[j], s) != 0 && Addr(d, t[j], s) == Addr(d, t[j'], s')
      ensures j == j' && s == s'
    {
      assert Holds(d, t[j], owner, j, s) && Holds(d, t[j'], owner, j', s');
    }
    forall b | g.Meta() <= b < g.size
      ensures Bit(g, d, b) <==> exists j, s :: 0 <= j < |t| && 0 <= s < SLOTS && Addr(d, t[j], s) == b
    {
      if b in owner {
        assert Placed(g, d, t, owner, b);
      } else if exists j, s :: 0 <= j < |t| && 0 <= s < SLOTS && Addr(d, t[j], s) == b {
        var j, s :| 0 <= j < |t| && 0 <= s < SLOTS && Addr(d, t[j], s) == b;
        assert Holds(d, t[j], owner, j, s);
      }
    }
  }

  // ---------- transfer of ownership ----------

  /** Every slot names the same block as before, except slot `s` of inode `j`, which names `a`. */
  ghost predicate Readdressed(d: Disk, t: Table, d': Disk, t': Table, j: nat, s: nat, a: nat) {
    && |t'| == |t|
    && (forall i, r :: 0 <= i < |t| && 0 <= r < SLOTS ==>
          Addr(d', t'[i], r) == if i == j && r == s then a else Addr(d, t[i], r))
    && (forall i :: 0 <= i < |t| ==> t'[i].typ == t[i].typ && (i != j ==> t'[i] == t[i]))
  }

  ghost predicate SameAddrs(d: Disk, t: Table, d': Disk, t': Table) {
    && |t'| == |t|
    && (forall i, r :: 0 <= i < |t| && 0 <= r < SLOTS ==> Addr(d', t'[i], r) == Addr(d, t[i], r))
    && (forall i :: 0 <= i < |t| ==> t'[i].typ == t[i].typ && (t[i].typ == 0 ==> t'[i] == t[i]))
  }

  ghost predicate SameFree(g: Geometry, d: Disk, d': Disk, owner: Owner)
    requires g.Fits(d) && g.Fits(d')
  {
    forall c :: g.Meta() <= c < g.size && c !in owner ==> d'[c] == d[c]
  }

  lemma KeepOwned(g: Geometry, d: Disk, t: Table, owner: Owner, d': Disk, t': Table)
    requires Owned(g, d, t, owner) && g.Fits(d')
    requires SameAddrs(d, t, d', t') && SameBits(g, d, d') && SameFree(g, d, d', owner)
    ensures Owned(g, d', t', owner)
  {
    Regions(g, 0, 0);
    forall j, s | 0 <= j < |t'| && 0 <= s < SLOTS
      ensures Holds(d', t'[j], owner, j, s)
    {
      assert Holds(d, t[j], owner, j, s);
    }
    forall b | b in owner
      ensures Placed(g, d', t', owner, b)
    {
      assert Placed(g, d, t, owner, b);
    }
  }

  lemma ClaimBlock(g: Geometry, d: Disk, t: Table, owner: Owner, d': Disk, t': Table, j: nat, s: nat, b: nat)
    requires Owned(g, d, t, owner) && g.Fits(d')
    requires j < |t| && s < SLOTS && t[j].typ != 0
    requires g.Meta() <= b < g.size && b !in owner && Addr(d, t[j], s) == 0
    requires Readdressed(d, t, d', t', j, s, b) && BitChange(g, d, d', b, true) && SameFree(g, d, d', owner)
    ensures Owned(g, d', t', owner[b := (j, s)])
  {
    Regions(g, 0, 0);
    var owner' := owner[b := (j, s)];
    forall i, r | 0 <= i < |t'| && 0 <= r < SLOTS
      ensures Holds(d', t'[i], owner', i, r)
    {
      assert Holds(d, t[i], owner, i, r);
    }
    forall c | c in owner'
      ensures Placed(g, d', t', owner', c)
    {
      if c != b {
        assert Placed(g, d, t, owner, c);
      }
    }
  }

  lemma ReleaseBlock(g: Geometry, d: Disk, t: Table, owner: Owner, d': Disk, t': Table, j: nat, s: nat, b: nat)
    requires Owned(g, d, t, owner) && g.Fits(d')
    requires j < |t| && s < SLOTS && t[j].typ != 0
    requires b != 0 && Addr(d, t[j], s) == b
    requires Readdressed(d, t, d', t', j, s, 0) && BitChange(g, d, d', b, false) && SameFree(g, d, d', owner)
    requires b < g.size ==> d'[b] == ZeroBlock()
    ensures Owned(g, d', t', owner - {b})
  {
    Regions(g, 0, 0);
    assert Holds(d, t[j], owner, j, s);
    assert Placed(g, d, t, owner, b);
    ReleasedOwners(g, d, t, owner, d', t', j, s, b);
  }

  lemma ReleasedOwners(g: Geometry, d: Disk, t: Table, owner: Owner, d': Disk, t': Table, j: nat, s: nat, b: nat)
    requires Owned(g, d, t, owner) && j < |t| && s < SLOTS
    requires b != 0 && Addr(d, t[j], s) == b && Readdressed(d, t, d', t', j, s, 0)
    ensures forall i, r :: 0 <= i < |t'| && 0 <= r < SLOTS ==> Holds(d', t'[i], owner - {b}, i, r)
    ensures forall c :: c in owner - {b} ==> Placed(g, d', t', owner - {b}, c)
  {
    assert Holds(d, t[j], owner, j, s);
    var owner' := owner - {b};
    forall i, r | 0 <= i < |t'| && 0 <= r < SLOTS
      ensures Holds(d', t'[i], owner', i, r)
    {
      assert Holds(d, t[i], owner, i, r);
    }
    forall c | c in owner'
      ensures Placed(g, d', t', owner', c)
    {
      assert Placed(g, d, t, owner, c);
    }
  }

  /** An indirect block belongs to one inode, and is nobody's data block. */
  lemma IndirectIsPrivate(g: Geometry, d: Disk, t: Table, owner: Owner, i: nat, j: nat, s: nat)
    requires Owned(g, d, t, owner) && i < |t| && j < |t| && s < SLOTS
    requires Addr(d, t[i], NDIRECT) != 0 && Addr(d, t[i], NDIRECT) == Addr(d, t[j], s)
    ensures i == j && s == NDIRECT
    ensures g.Meta() <= Addr(d, t[i], NDIRECT) < g.size
  {
    assert Holds(d, t[i], owner, i, NDIRECT) && Holds(d, t[j], owner, j, s);
    assert Placed(g, d, t, owner, Addr(d, t[i], NDIRECT));
  }

  lemma AddrInRange(g: Geometry, d: Disk, t: Table, owner: Owner, j: nat, s: nat)
    requires Owned(g, d, t, owner) && j < |t| && s < SLOTS && Addr(d, t[j], s) != 0
    ensures g.Meta() <= Addr(d, t[j], s) < g.size
    ensures s > NDIRECT ==> Addr(d, t[j], NDIRECT) != 0 && g.Meta() <= Addr(d, t[j], NDIRECT) < g.size
  {
    assert Holds(d, t[j], owner, j, s);
    assert Placed(g, d, t, owner, Addr(d, t[j], s));
    if s > NDIRECT {
      IndirectIsPrivate(g, d, t, owner, j, j, NDIRECT);
    }
  }

  // ---------- single block writes and their effect on the map ----------

  /** The slots of `j` other than `s`, and every slot of every other inode, keep their stored word. */
  ghost predicate RawChange(d: Disk, t: Table, d': Disk, t': Table, j: nat, s: nat, w: word) {
    && |t'| == |t|
    && (forall i :: 0 <= i < |t| && i != j ==> t'[i] == t[i])
    && (forall i, r :: 0 <= i < |t| && 0 <= r < SLOTS ==>
          Raw(d', t'[i], r) == if i == j && r == s then w else Raw(d, t[i], r))
  }

  ghost predicate SameRaw(d: Disk, t: Table, d': Disk, t': Table) {
    && |t'| == |t|
    && (forall i, r :: 0 <= i < |t| && 0 <= r < SLOTS ==> Raw(d', t'[i], r) == Raw(d, t[i], r))
  }

  /** Addresses live outside the data blocks: writing one changes no stored word. */
  lemma DataWordsStay(g: Geometry, d: Disk, t: Table, owner: Owner, j: nat, s: nat, d': Disk, i: nat, r: nat)
    requires Owned(g, d, t, owner) && j < |t| && s < SLOTS && s != NDIRECT && Addr(d, t[j], s) != 0
    requires g.Fits(d') && forall c :: 0 <= c < g.size && c != Addr(d, t[j], s) ==> d'[c] == d[c]
    requires i < |t| && r < SLOTS
    ensures Raw(d', t[i], r) == Raw(d, t[i], r)
  {
    if r > NDIRECT && Addr(d, t[i], NDIRECT) == Addr(d, t[j], s) {
      IndirectIsPrivate(g, d, t, owner, i, j, s);
    }
  }

  /** Writing a data block moves no address and is seen in one block of one file. */
  lemma WriteData(g: Geometry, d: Disk, t: Table, owner: Owner, j: nat, bn: nat, blk: Block)
    requires Owned(g, d, t, owner) && j < |t| && bn < MAXFILE
    requires Addr(d, t[j], DataSlot(bn)) != 0
    ensures g.Meta() <= Addr(d, t[j], DataSlot(bn)) < g.size
    ensures var d' := d[Addr(d, t[j], DataSlot(bn)) := blk];
      && SameRaw(d, t, d', t) && Owned(g, d', t, owner) && SameInodes(g, d, d')
      && forall i, k :: 0 <= i < |t| && 0 <= k < MAXFILE ==>
           FileBlock(d', t[i], k) == if i == j && k == bn then blk else FileBlock(d, t[i], k)
  {
    AddrInRange(g, d, t, owner, j, DataSlot(bn));
    var a := Addr(d, t[j], DataSlot(bn));
    var d' := d[a := blk];
    DataFrame(g, d, a, blk);
    forall i, r | 0 <= i < |t| && 0 <= r < SLOTS
      ensures Raw(d', t[i], r) == Raw(d, t[i], r)
    {
      DataWordsStay(g, d, t, owner, j, DataSlot(bn), d', i, r);
    }
    assert Holds(d, t[j], owner, j, DataSlot(bn));
    KeepOwned(g, d, t, owner, d', t);
    DataSeenOnce(g, d, t, owner, j, bn, d', blk);
  }

  lemma DataSeenOnce(g: Geometry, d: Disk, t: Table, owner: Owner, j: nat, bn: nat, d': Disk, blk: Block)
    requires Owned(g, d, t, owner) && j < |t| && bn < MAXFILE
    requires Addr(d, t[j], DataSlot(bn)) != 0 && g.Fits(d') && SameRaw(d, t, d', t)
    requires Addr(d, t[j], DataSlot(bn)) < g.size && d' == d[Addr(d, t[j], DataSlot(bn)) := blk]
    ensures forall i, k :: 0 <= i < |t| && 0 <= k < MAXFILE ==>
              FileBlock(d', t[i], k) == if i == j && k == bn then blk else FileBlock(d, t[i], k)
  {
    assert Holds(d, t[j], owner, j, DataSlot(bn));
    forall i, k | 0 <= i < |t| && 0 <= k < MAXFILE
      ensures FileBlock(d', t[i], k) == if i == j && k == bn then blk else FileBlock(d, t[i], k)
    {
      assert Holds(d, t[i], owner, i, DataSlot(k));
      assert Raw(d', t[i], DataSlot(k)) == Raw(d, t[i], DataSlot(k));
    }
  }

  /** Storing a word in the inode itself (a direct or the indirect address). */
  lemma WriteDirect(g: Geometry, d: Disk, t: Table, owner: Owner, j: nat, s: nat, w: word)
    requires Owned(g, d, t, owner) && j < |t| && s <= NDIRECT
    requires s == NDIRECT ==> Low(t[j].typ, w) == Addr(d, t[j], NDIRECT)
    ensures RawChange(d, t, d, t[j := t[j].(addrs := t[j].addrs[s := w])], j, s, w)
  {
  }

  /** Storing a word in an entry of the indirect block. */
  lemma WriteIndirect(g: Geometry, d: Disk, t: Table, owner: Owner, j: nat, s: nat, w: word)
    requires Owned(g, d, t, owner) && j < |t| && NDIRECT < s < SLOTS
    requires Addr(d, t[j], NDIRECT) != 0
    ensures g.Meta() <= Addr(d, t[j], NDIRECT) < g.size
    ensures var ib := Addr(d, t[j], NDIRECT);
      var d' := d[ib := PutWord(d[ib], s - NDIRECT - 1, w)];
      && RawChange(d, t, d', t, j, s, w) && SameBits(g, d, d') && SameInodes(g, d, d') && SameFree(g, d, d', owner)
      && (forall c :: 0 <= c < g.size && c != ib ==> d'[c] == d[c])
  {
    IndirectIsPrivate(g, d, t, owner, j, j, NDIRECT);
    var ib := Addr(d, t[j], NDIRECT);
    assert Holds(d, t[j], owner, j, NDIRECT);
    var blk := PutWord(d[ib], s - NDIRECT - 1, w);
    var d' := d[ib := blk];
    DataFrame(g, d, ib, blk);
    forall i, r | 0 <= i < |t| && 0 <= r < SLOTS
      ensures Raw(d', t[i], r) == if i == j && r == s then w else Raw(d, t[i], r)
    {
      IndirectWord(g, d, t, owner, j, s, w, d', i, r);
    }
  }

  lemma IndirectWord(g: Geometry, d: Disk, t: Table, owner: Owner, j: nat, s: nat, w: word, d': Disk, i: nat, r: nat)
    requires Owned(g, d, t, owner) && j < |t| && NDIRECT < s < SLOTS && Addr(d, t[j], NDIRECT) != 0
    requires Addr(d, t[j], NDIRECT) < g.size
    requires d' == d[Addr(d, t[j], NDIRECT) := PutWord(d[Addr(d, t[j], NDIRECT)], s - NDIRECT - 1, w)]
    requires i < |t| && r < SLOTS
    ensures Raw(d', t[i], r) == if i == j && r == s then w else Raw(d, t[i], r)
  {
    var ib := Addr(d, t[j], NDIRECT);
    if r > NDIRECT && Addr(d, t[i], NDIRECT) == ib {
      IndirectIsPrivate(g, d, t, owner, i, j, NDIRECT);
      GetPutWord(d[ib], s - NDIRECT - 1, w);
    }
  }
}
