/** `dirlookup`, `dirlink` and the entry removal of `unlink`, over the file layer. */
module DirectoryOps {
  import opened Options
  import opened Words
  import opened Layout
  import opened BlockMap
  import opened Files
  import opened Effects
  import opened Names
  import opened Directory
  import opened FileSystems

  /** A locked directory between operations. */
  ghost predicate HasDirectory(fs: FileSystem, dp: IncoreInode)
    reads fs, dp
  {
    fs.Steady(dp) && dp.typ == T_DIR && dp.size <= MAXBYTES && IsDirectory(Contents(fs.disk, dp.Val()))
  }

  /** The directory is `n` on disk `d`. */
  ghost predicate Still(fs: FileSystem, dp: IncoreInode, d: Disk, n: Inode)
    reads fs, dp
  {
    HasDirectory(fs, dp) && dp.Shaped() && fs.disk == d && dp.Val() == n && n.size <= MAXBYTES
  }

  lemma SteadySized(fs: FileSystem, dp: IncoreInode)
    requires fs.Steady(dp)
    ensures Sized(fs.disk, dp.Val()) && Readable(fs.disk, dp.Val()) && dp.size <= MAXBYTES
  {
    var t := fs.View(dp);
    assert t[dp.inum] == dp.Val();
    assert Sized(fs.disk, t[dp.inum]);
  }

  lemma BlockMapped(d: Disk, n: Inode, b: nat)
    requires Readable(d, n) && BSIZE * b < n.size
    ensures b < MAXFILE && Addr(d, n, DataSlot(b)) != 0
  {
  }

  /** Block `b` of a directory, which is mapped, so that reading it changes nothing. */
  method FetchBlock(fs: FileSystem, dp: IncoreInode, b: nat, ghost d: Disk, ghost n: Inode) returns (bp: Block)
    requires Still(fs, dp, d, n) && BSIZE * b < n.size
    modifies fs, dp
    ensures Still(fs, dp, d, n) && dp.size == n.size && Shows(bp, Contents(d, n), b)
  {
    SteadySized(fs, dp);
    BlockMapped(d, n, b);
    BlockShows(d, n, b);
    AddrInRange(fs.g, fs.disk, fs.View(dp), fs.owner, dp.inum, DataSlot(b));
    hide Shows, IsDirectory, Owned, Sound, Contents;
    var a := fs.Bmap(dp, b);
    bp := fs.disk[a.value];
  }

  /** The loop of `dirlookup` over the blocks of the directory `n` on disk `d`. */
  method LookupBlocks(fs: FileSystem, dp: IncoreInode, name: seq<byte>, ghost d: Disk, ghost n: Inode)
    returns (found: bool, inum: nat, poff: nat)
    requires Still(fs, dp, d, n) && Terminated(name, DIRSIZ)
    modifies fs, dp
    ensures Still(fs, dp, d, n) && FoundAt(Contents(d, n), Cut(name, DIRSIZ), found, inum, poff)
  {
    ghost var c, key := Contents(d, n), Cut(name, DIRSIZ);
    assert dp.size == n.size == |c| && NotBefore(c, key, 0) && BSIZE == 512;
    hide *;
    var off := 0;
    ghost var b := 0;
    while off < dp.size
      invariant Still(fs, dp, d, n) && dp.size == n.size && 0 <= b && off == BSIZE * b && NotBefore(c, key, b)
      decreases n.size - off
    {
      assert off / BSIZE == b;
      var bp := FetchBlock(fs, dp, off / BSIZE, d, n);
      found, inum, poff := ScanBlock(bp, name, off, b, c);
      if found {
        return;
      }
      off, b := off + BSIZE, b + 1;
    }
    NotFound(c, key, b);
    return false, 0, 0;
  }

  lemma FoundMeans(c: seq<byte>, key: seq<byte>, found: bool, inum: nat, poff: nat)
    requires FoundAt(c, key, found, inum, poff) && IsDirectory(c)
    ensures found <==> key in DirMap(c)
    ensures found ==> inum == DirMap(c)[key] && IsEntry(c, poff, key)
  {
    FindIsLookup(c, key);
    if found {
      assert poff / DIRENT == Find(c, key, 0).value;
    }
  }

  /** Find a name in the directory `n` on disk `d`: its inode number and the byte offset of its
      entry. Nothing changes. */
  method Dirlookup(fs: FileSystem, dp: IncoreInode, name: seq<byte>, ghost d: Disk, ghost n: Inode)
    returns (found: bool, inum: nat, poff: nat)
    requires Still(fs, dp, d, n) && Terminated(name, DIRSIZ)
    modifies fs, dp
    ensures Still(fs, dp, d, n)
    ensures found <==> Cut(name, DIRSIZ) in DirMap(Contents(d, n))
    ensures found ==> inum == DirMap(Contents(d, n))[Cut(name, DIRSIZ)]
    ensures found ==> IsEntry(Contents(d, n), poff, Cut(name, DIRSIZ))
  {
    assert IsDirectory(Contents(d, n));
    hide *;
    found, inum, poff := LookupBlocks(fs, dp, name, d, n);
    FoundMeans(Contents(d, n), Cut(name, DIRSIZ), found, inum, poff);
  }

  /** The used entry at offset `off` has this name. */
  predicate IsEntry(c: seq<byte>, off: nat, key: seq<byte>) {
    off % DIRENT == 0 && InUse(c, off / DIRENT) && EntryKey(c, off / DIRENT) == key
  }

  /** The number in the entry at `off`, read with `readi`; `dirlink` panics on a short read, which
      cannot happen. */
  method ReadEntry(fs: FileSystem, dp: IncoreInode, off: nat, ghost d: Disk, ghost n: Inode) returns (inum: nat)
    requires Still(fs, dp, d, n) && off % DIRENT == 0 && off + DIRENT <= n.size
    modifies fs, dp
    ensures Still(fs, dp, d, n)
    ensures dp.size == n.size && (inum != 0 <==> InUse(Contents(d, n), off / DIRENT))
  {
    SteadySized(fs, dp);
    ghost var c := Contents(d, n);
    assert off == DIRENT * (off / DIRENT);
    hide IsDirectory, Contents, Readable, RangeOk, Owned, Sound;
    var r, de := fs.Readi(dp, off, DIRENT, {});
    assert r == Count(DIRENT) && de == c[off..off + DIRENT];
    assert de[0] == c[off] && de[1] == c[off + 1];
    inum := de[0] as int + 0x100 * (de[1] as int);
  }

  /** The first unused entry of a directory, or its end. */
  method FindFree(fs: FileSystem, dp: IncoreInode, ghost d: Disk, ghost n: Inode) returns (off: nat)
    requires Still(fs, dp, d, n)
    modifies fs, dp
    ensures Still(fs, dp, d, n) && FreeAt(Contents(d, n), off) && off <= n.size && off % DIRENT == 0
  {
    ghost var c := Contents(d, n);
    DirectorySize(c);
    assert dp.size == n.size == |c| && UsedBefore(c, 0) && DIRENT == 16;
    hide *;
    off := 0;
    while off < dp.size
      invariant Still(fs, dp, d, n) && dp.size == n.size && 0 <= off <= |c| && off % DIRENT == 0 && UsedBefore(c, off)
      decreases n.size - off
    {
      UsedHere(c, off);
      var inum := ReadEntry(fs, dp, off, d, n);
      if inum == 0 {
        return;
      }
      off := off + DIRENT;
    }
    UsedHere(c, off);
  }

  lemma DirectorySize(c: seq<byte>)
    requires IsDirectory(c)
    ensures |c| % DIRENT == 0
  {
  }

  datatype Link = Linked | Exists | Stuck

  /** Write one entry over the directory. `Stuck` is a panic: the directory is at the maximum
      file size, or no block is free. */
  method WriteEntry(fs: FileSystem, dp: IncoreInode, off: nat, de: seq<byte>, ghost d: Disk, ghost n: Inode) returns (ok: bool)
    requires Still(fs, dp, d, n) && |de| == DIRENT && off % DIRENT == 0 && off <= n.size
    modifies fs, dp
    ensures !ok ==> (fs.g.Fits(fs.disk) && AllInUse(fs.g, fs.disk)) || off == MAXBYTES
    ensures ok ==> fs.Steady(dp) && dp.typ == T_DIR && dp.size <= MAXBYTES && OthersKept(fs.g, d, dp.inum, fs.disk)
                   && off <= |Contents(d, n)| && Contents(fs.disk, dp.Val()) == Overlay(Contents(d, n), off, de)
  {
    SteadySized(fs, dp);
    InSync(fs.g, d, fs.View(dp), dp.inum);
    hide IsDirectory, Contents, Sound, Owned, AllInUse, InodeAt;
    EntryFits(off, dp.size);
    var w := fs.Writei(dp, de, off, DIRENT, {});
    ok := w == Count(DIRENT);
    if ok {
      assert de[..DIRENT] == de;
    }
  }

  lemma EntryFits(off: nat, size: nat)
    requires off % DIRENT == 0 && off <= size <= MAXBYTES
    ensures off != MAXBYTES ==> off + DIRENT <= MAXBYTES
    ensures Clamp(off, DIRENT) == if off == MAXBYTES then 0 else DIRENT
  {
  }

  /** The second half of `dirlink`: put the entry in the first free place. */
  method AddEntry(fs: FileSystem, dp: IncoreInode, name: seq<byte>, inum: nat, ghost d: Disk, ghost n: Inode)
    returns (ok: bool, off: nat)
    requires Still(fs, dp, d, n) && Terminated(name, DIRSIZ) && 0 < inum < 0x1_0000
    modifies fs, dp
    ensures FreeAt(Contents(d, n), off) && off <= |Contents(d, n)|
    ensures !ok ==> (fs.g.Fits(fs.disk) && AllInUse(fs.g, fs.disk)) || off == MAXBYTES
    ensures ok ==> fs.Steady(dp) && dp.typ == T_DIR && dp.size <= MAXBYTES && OthersKept(fs.g, d, dp.inum, fs.disk)
                   && Contents(fs.disk, dp.Val()) == Overlay(Contents(d, n), off, EncodeEntry(inum, Cut(name, DIRSIZ)))
  {
    ghost var c := Contents(d, n);
    assert |c| == n.size;
    hide *;
    off := FindFree(fs, dp, d, n);
    var de := BuildEntry(name, inum);
    ok := WriteEntry(fs, dp, off, de, d, n);
  }

  lemma {:induction false} AllTaken(c: seq<byte>, k: nat, i: nat)
    requires |c| % DIRENT == 0 && DIRENT * k <= |c| && k <= i < FreeSlot(c, k)
    ensures InUse(c, i)
    decreases i - k
  {
    if k < i {
      AllTaken(c, k + 1, i);
    }
  }

  lemma DirectoryFull(c: seq<byte>)
    requires FreeAt(c, MAXBYTES)
    ensures |c| >= MAXBYTES && forall i :: 0 <= i < MAXBYTES / DIRENT ==> InUse(c, i)
  {
    FreeSlotMeans(c, 0);
    forall i | 0 <= i < MAXBYTES / DIRENT
      ensures InUse(c, i)
    {
      AllTaken(c, 0, i);
    }
  }

  lemma LinkBindsAt(c: seq<byte>, off: nat, inum: nat, key: seq<byte>)
    requires IsDirectory(c) && FreeAt(c, off) && off <= |c| && 0 < inum < 0x1_0000 && |key| <= DIRSIZ
    requires (forall i :: 0 <= i < |key| ==> key[i] != 0) && key !in DirMap(c)
    ensures IsDirectory(Overlay(c, off, EncodeEntry(inum, key)))
    ensures DirMap(Overlay(c, off, EncodeEntry(inum, key))) == DirMap(c)[key := inum]
  {
    FreeSlotMeans(c, 0);
    LinkBinds(c, FreeSlot(c, 0), inum, key);
  }

  /** `dirlink`: add one entry, or refuse a name that is there. */
  method Dirlink(fs: FileSystem, dp: IncoreInode, name: seq<byte>, inum: nat, ghost d: Disk, ghost n: Inode)
    returns (r: Link)
    requires Still(fs, dp, d, n) && Terminated(name, DIRSIZ) && 0 < inum < 0x1_0000
    modifies fs, dp
    ensures r.Exists? <==> Cut(name, DIRSIZ) in DirMap(Contents(d, n))
    ensures r.Exists? ==> Still(fs, dp, d, n)
    ensures r.Linked? ==> Bound(fs, dp, DirMap(Contents(d, n))[Cut(name, DIRSIZ) := inum]) && OthersKept(fs.g, d, dp.inum, fs.disk)
    ensures r.Stuck? ==> (fs.g.Fits(fs.disk) && AllInUse(fs.g, fs.disk))
                         || forall i :: 0 <= i < MAXBYTES / DIRENT ==> InUse(Contents(d, n), i)
  {
    ghost var key, c := Cut(name, DIRSIZ), Contents(d, n);
    assert IsDirectory(c);
    hide *;
    var found, i, poff := Dirlookup(fs, dp, name, d, n);
    if found {
      return Exists;
    }
    var ok, off := AddEntry(fs, dp, name, inum, d, n);
    if !ok {
      if off == MAXBYTES {
        DirectoryFull(c);
      }
      return Stuck;
    }
    LinkBindsAt(c, off, inum, key);
    NowBound(fs, dp, Overlay(c, off, EncodeEntry(inum, key)));
    return Linked;
  }

  /** The directory now binds exactly the names of `m`. */
  ghost predicate Bound(fs: FileSystem, dp: IncoreInode, m: map<seq<byte>, nat>)
    reads fs, dp
  {
    HasDirectory(fs, dp) && DirMap(Contents(fs.disk, dp.Val())) == m
  }

  lemma NowBound(fs: FileSystem, dp: IncoreInode, c: seq<byte>)
    requires fs.Steady(dp) && dp.typ == T_DIR && dp.size <= MAXBYTES && IsDirectory(c) && Contents(fs.disk, dp.Val()) == c
    ensures Bound(fs, dp, DirMap(c))
  {
  }

  /** The entry removal of `unlink`: the entry `dirlookup` found is overwritten with zeros. */
  method ClearEntry(fs: FileSystem, dp: IncoreInode, name: seq<byte>, poff: nat, ghost d: Disk, ghost n: Inode) returns (ok: bool)
    requires Still(fs, dp, d, n) && Terminated(name, DIRSIZ) && IsEntry(Contents(d, n), poff, Cut(name, DIRSIZ))
    modifies fs, dp
    ensures !ok ==> fs.g.Fits(fs.disk) && AllInUse(fs.g, fs.disk)
    ensures ok ==> Bound(fs, dp, DirMap(Contents(d, n)) - {Cut(name, DIRSIZ)}) && OthersKept(fs.g, d, dp.inum, fs.disk)
  {
    ghost var key, c := Cut(name, DIRSIZ), Contents(d, n);
    assert IsDirectory(c) && |c| <= MAXBYTES && InUse(c, poff / DIRENT) && EntryKey(c, poff / DIRENT) == key;
    assert poff == DIRENT * (poff / DIRENT) && poff + DIRENT <= |c|;
    ZeroEntry();
    hide *;
    ok := WriteEntry(fs, dp, poff, seq(DIRENT, _ => 0), d, n);
    if ok {
      UnlinkUnbinds(c, poff / DIRENT);
      NowBound(fs, dp, Overlay(c, poff, EncodeEntry(0, [])));
    }
  }

  lemma ZeroEntry()
    ensures EncodeEntry(0, []) == seq(DIRENT, _ => 0)
  {
  }

  /** No other file or inode changed. */
  ghost predicate OthersKept(g: Geometry, d: Disk, j: nat, d': Disk) {
    g.Fits(d) && g.Fits(d')
    && forall i :: 0 <= i < g.ninodes && i != j ==> SameFile(d, InodeAt(g, d, i), d', InodeAt(g, d', i))
  }
}
