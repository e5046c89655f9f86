/** A directory's contents as a map from names to inode numbers. */
module Directory {
  import opened Options
  import opened Words
  import opened Layout
  import opened BlockMap
  import opened Files
  import opened Effects
  import opened Names

  const DIRENT: nat := 16

  function EntryInum(c: seq<byte>, i: nat): nat
    requires DIRENT * i + DIRENT <= |c|
  {
    c[DIRENT * i] as int + 0x100 * (c[DIRENT * i + 1] as int)
  }

  function EntryName(c: seq<byte>, i: nat): (s: seq<byte>)
    requires DIRENT * i + DIRENT <= |c|
    ensures |s| == DIRSIZ
  {
    c[DIRENT * i + 2..DIRENT * i + DIRENT]
  }

  predicate InUse(c: seq<byte>, i: nat) {
    DIRENT * i + DIRENT <= |c| && EntryInum(c, i) != 0
  }

  function EntryKey(c: seq<byte>, i: nat): seq<byte>
    requires DIRENT * i + DIRENT <= |c|
  {
    Cut(EntryName(c, i), DIRSIZ)
  }

  /** The entry `dirlink` writes: the number in two bytes, then the padded name. */
  function EncodeEntry(inum: nat, key: seq<byte>): (e: seq<byte>)
    requires inum < 0x1_0000 && |key| <= DIRSIZ
    ensures |e| == DIRENT
  {
    [inum % 0x100, inum / 0x100] + (key + Zeros(DIRSIZ - |key|))
  }

  /** A whole number of entries, no two used ones with the same name. */
  ghost predicate IsDirectory(c: seq<byte>) {
    |c| % DIRENT == 0 && forall i, j :: 0 <= i < j && InUse(c, i) && InUse(c, j) ==> EntryKey(c, i) != EntryKey(c, j)
  }

  /** The names bound by the first `n` entries. */
  function Bindings(c: seq<byte>, n: nat): map<seq<byte>, nat>
    requires DIRENT * n <= |c|
  {
    if n == 0 then map[]
    else if InUse(c, n - 1) then Bindings(c, n - 1)[EntryKey(c, n - 1) := EntryInum(c, n - 1)]
    else Bindings(c, n - 1)
  }

  function DirMap(c: seq<byte>): map<seq<byte>, nat> {
    Bindings(c, |c| / DIRENT)
  }

  /** The first used entry with this name, from entry `i` on. */
  function Find(c: seq<byte>, key: seq<byte>, i: nat): (r: Option<nat>)
    decreases |c| - i
  {
    if DIRENT * i + DIRENT > |c| then None
    else if InUse(c, i) && EntryKey(c, i) == key then Some(i)
    else Find(c, key, i + 1)
  }

  lemma {:induction false} FindMeans(c: seq<byte>, key: seq<byte>, i: nat)
    ensures var r := Find(c, key, i);
      if r.Some? then i <= r.value && InUse(c, r.value) && EntryKey(c, r.value) == key
      else forall j :: i <= j && InUse(c, j) ==> EntryKey(c, j) != key
    decreases |c| - i
  {
    if DIRENT * i + DIRENT <= |c| && !(InUse(c, i) && EntryKey(c, i) == key) {
      FindMeans(c, key, i + 1);
    }
  }

  /** The first unused entry, or the end. */
  function FreeSlot(c: seq<byte>, i: nat): (k: nat)
    requires |c| % DIRENT == 0 && DIRENT * i <= |c|
    decreases |c| - i
  {
    if DIRENT * i < |c| && InUse(c, i) then FreeSlot(c, i + 1) else i
  }

  lemma {:induction false} FreeSlotMeans(c: seq<byte>, i: nat)
    requires |c| % DIRENT == 0 && DIRENT * i <= |c|
    ensures i <= FreeSlot(c, i) && DIRENT * FreeSlot(c, i) <= |c| && !InUse(c, FreeSlot(c, i))
    decreases |c| - i
  {
    if DIRENT * i < |c| && InUse(c, i) {
      FreeSlotMeans(c, i + 1);
    }
  }

  lemma {:induction false} BindingsMean(c: seq<byte>, n: nat, key: seq<byte>)
    requires IsDirectory(c) && DIRENT * n <= |c|
    ensures key in Bindings(c, n) <==> exists i :: 0 <= i < n && InUse(c, i) && EntryKey(c, i) == key
    ensures forall i :: 0 <= i < n && InUse(c, i) && EntryKey(c, i) == key ==>
              key in Bindings(c, n) && Bindings(c, n)[key] == EntryInum(c, i)
  {
    hide EntryKey, EntryInum;
    if n > 0 {
      BindingsMean(c, n - 1, key);
    }
  }

  /** Looking a name up gives exactly the number the map has for it. */
  lemma FindIsLookup(c: seq<byte>, key: seq<byte>)
    requires IsDirectory(c)
    ensures Find(c, key, 0).Some? <==> key in DirMap(c)
    ensures (Find(c, key, 0).Some?
             ==> InUse(c, Find(c, key, 0).value) && EntryKey(c, Find(c, key, 0).value) == key
                 && EntryInum(c, Find(c, key, 0).value) == DirMap(c)[key])
  {
    FindMeans(c, key, 0);
    BindingsMean(c, |c| / DIRENT, key);
  }

  /** An entry is its sixteen bytes, wherever they are. */
  lemma SliceEntry(s: seq<byte>, i: nat, t: seq<byte>, j: nat)
    requires DIRENT * i + DIRENT <= |s| && DIRENT * j + DIRENT <= |t|
    requires s[DIRENT * i..DIRENT * i + DIRENT] == t[DIRENT * j..DIRENT * j + DIRENT]
    ensures EntryInum(s, i) == EntryInum(t, j) && EntryName(s, i) == EntryName(t, j)
  {
    var e := s[DIRENT * i..DIRENT * i + DIRENT];
    assert e[0] == s[DIRENT * i] && e[1] == s[DIRENT * i + 1] && e[0] == t[DIRENT * j] && e[1] == t[DIRENT * j + 1];
    assert e[2..] == s[DIRENT * i + 2..DIRENT * i + DIRENT] && e[2..] == t[DIRENT * j + 2..DIRENT * j + DIRENT];
  }

  lemma EncodedEntry(inum: nat, key: seq<byte>)
    requires inum < 0x1_0000 && |key| <= DIRSIZ && forall i :: 0 <= i < |key| ==> key[i] != 0
    ensures EntryInum(EncodeEntry(inum, key), 0) == inum && EntryKey(EncodeEntry(inum, key), 0) == key
  {
    var e := EncodeEntry(inum, key);
    assert EntryName(e, 0) == key + Zeros(DIRSIZ - |key|);
    CutPoint(EntryName(e, 0), DIRSIZ, |key|);
  }

  // ---------- writing one entry ----------

  ghost predicate EntriesDiffer(c: seq<byte>, c': seq<byte>, k: nat) {
    && |c'| >= |c| && DIRENT * k + DIRENT <= |c'| <= |c| + DIRENT
    && (forall i :: 0 <= i && i != k ==> (InUse(c', i) <==> InUse(c, i)))
    && (forall i :: 0 <= i && i != k && InUse(c, i) ==> EntryKey(c', i) == EntryKey(c, i) && EntryInum(c', i) == EntryInum(c, i))
  }

  lemma OverlayEntry(c: seq<byte>, k: nat, inum: nat, key: seq<byte>)
    requires |c| % DIRENT == 0 && DIRENT * k <= |c| && inum < 0x1_0000 && |key| <= DIRSIZ
    requires forall i :: 0 <= i < |key| ==> key[i] != 0
    ensures var c' := Overlay(c, DIRENT * k, EncodeEntry(inum, key));
      EntriesDiffer(c, c', k) && |c'| % DIRENT == 0 && EntryInum(c', k) == inum && EntryKey(c', k) == key
  {
    var e := EncodeEntry(inum, key);
    var c' := Overlay(c, DIRENT * k, e);
    EncodedEntry(inum, key);
    assert c'[DIRENT * k..DIRENT * k + DIRENT] == e[DIRENT * 0..DIRENT * 0 + DIRENT];
    SliceEntry(c', k, e, 0);
    assert |c'| == if DIRENT * k < |c| then |c| else |c| + DIRENT;
    assert forall p :: 0 <= p < |c'| && !(DIRENT * k <= p < DIRENT * k + DIRENT) ==> c'[p] == c[p];
    hide Cut, Overlay, EncodeEntry, EntryInum, EntryName;
    forall i | 0 <= i && i != k && DIRENT * i + DIRENT <= |c'|
      ensures DIRENT * i + DIRENT <= |c| && EntryInum(c', i) == EntryInum(c, i) && EntryName(c', i) == EntryName(c, i)
    {
      SliceEntry(c', i, c, i);
    }
  }

  /** Linking adds exactly one binding. */
  lemma LinkBinds(c: seq<byte>, k: nat, inum: nat, key: seq<byte>)
    requires IsDirectory(c) && DIRENT * k <= |c| && !InUse(c, k) && 0 < inum < 0x1_0000 && |key| <= DIRSIZ
    requires (forall i :: 0 <= i < |key| ==> key[i] != 0) && key !in DirMap(c)
    ensures var c' := Overlay(c, DIRENT * k, EncodeEntry(inum, key));
      IsDirectory(c') && DirMap(c') == DirMap(c)[key := inum]
  {
    var c' := Overlay(c, DIRENT * k, EncodeEntry(inum, key));
    OverlayEntry(c, k, inum, key);
    FindIsLookup(c, key);
    FindMeans(c, key, 0);
    hide Overlay, EncodeEntry, EntryKey, EntryInum, DirMap, Find;
    assert IsDirectory(c');
    forall x
      ensures x in DirMap(c') <==> x in DirMap(c) || x == key
      ensures x in DirMap(c') ==> DirMap(c')[x] == if x == key then inum else DirMap(c)[x]
    {
      MapMeans(c, x);
      MapMeans(c', x);
      assert InUse(c', k);
    }
  }

  lemma MapMeans(c: seq<byte>, key: seq<byte>)
    requires IsDirectory(c)
    ensures key in DirMap(c) <==> exists i :: 0 <= i && InUse(c, i) && EntryKey(c, i) == key
    ensures forall i :: 0 <= i && InUse(c, i) && EntryKey(c, i) == key ==> DirMap(c)[key] == EntryInum(c, i)
  {
    BindingsMean(c, |c| / DIRENT, key);
    forall i | 0 <= i && InUse(c, i) && EntryKey(c, i) == key
      ensures key in DirMap(c) && DirMap(c)[key] == EntryInum(c, i)
    {
      assert i < |c| / DIRENT;
    }
  }

  /** Zeroing an entry removes exactly its binding. */
  lemma UnlinkUnbinds(c: seq<byte>, k: nat)
    requires IsDirectory(c) && InUse(c, k)
    ensures var c' := Overlay(c, DIRENT * k, EncodeEntry(0, []));
      IsDirectory(c') && DirMap(c') == DirMap(c) - {EntryKey(c, k)}
  {
    var c' := Overlay(c, DIRENT * k, EncodeEntry(0, []));
    OverlayEntry(c, k, 0, []);
    hide Overlay, EncodeEntry, EntryKey, EntryInum, DirMap;
    assert IsDirectory(c');
    forall x
      ensures x in DirMap(c') <==> x in DirMap(c) && x != EntryKey(c, k)
      ensures x in DirMap(c') ==> DirMap(c')[x] == DirMap(c)[x]
    {
      MapMeans(c, x);
      MapMeans(c', x);
    }
  }

  // ---------- whole blocks ----------

  const PER_BLOCK: nat := 32

  /** Scanning whole blocks is sound: inside the file a block shows the file's entries, past its
      end only unused ones. */
  lemma BlockEntry(d: Disk, n: Inode, b: nat, j: nat)
    requires Sized(d, n) && n.size % DIRENT == 0 && b < MAXFILE && j < PER_BLOCK
    ensures var bp, c, i := FileBlock(d, n, b), Contents(d, n), PER_BLOCK * b + j;
      if DIRENT * i + DIRENT <= |c|
      then EntryInum(bp, j) == EntryInum(c, i) && EntryName(bp, j) == EntryName(c, i)
      else EntryInum(bp, j) == 0
  {
    InBlock(b, j);
    if DIRENT * (PER_BLOCK * b + j) + DIRENT <= n.size {
      EntryInside(d, n, b, j);
    } else {
      hide Contents, EntryName, FileByte;
      PastEnd(d, n, DIRENT * (PER_BLOCK * b + j));
      PastEnd(d, n, DIRENT * (PER_BLOCK * b + j) + 1);
    }
  }

  lemma EntryInside(d: Disk, n: Inode, b: nat, j: nat)
    requires n.size <= MAXBYTES && b < MAXFILE && j < PER_BLOCK && DIRENT * (PER_BLOCK * b + j) + DIRENT <= n.size
    ensures EntryInum(FileBlock(d, n, b), j) == EntryInum(Contents(d, n), PER_BLOCK * b + j)
    ensures EntryName(FileBlock(d, n, b), j) == EntryName(Contents(d, n), PER_BLOCK * b + j)
  {
    hide FileBlock, Contents, EntryInum, EntryName;
    InBlock(b, j);
    ReadChunk(d, n, DIRENT * (PER_BLOCK * b + j), DIRENT);
    SliceEntry(FileBlock(d, n, b), j, Contents(d, n), PER_BLOCK * b + j);
  }

  lemma PastEnd(d: Disk, n: Inode, p: nat)
    requires Sized(d, n) && n.size <= p < MAXBYTES
    ensures FileBlock(d, n, p / BSIZE)[p % BSIZE] == 0
  {
    assert FileByte(d, n, p) == 0;
  }

  /** Where entry `j` of block `b` lies in the file. */
  lemma InBlock(b: nat, j: nat)
    requires b < MAXFILE && j < PER_BLOCK
    ensures var off := DIRENT * (PER_BLOCK * b + j);
      off / BSIZE == b && off % BSIZE == DIRENT * j && (off + 1) / BSIZE == b && (off + 1) % BSIZE == DIRENT * j + 1
      && off + DIRENT <= MAXBYTES
  {
  }

  predicate ShowsEntry(bp: Block, c: seq<byte>, b: nat, j: nat)
    requires j < PER_BLOCK
  {
    var i := PER_BLOCK * b + j;
    if DIRENT * i + DIRENT <= |c|
    then EntryInum(bp, j) == EntryInum(c, i) && EntryName(bp, j) == EntryName(c, i)
    else EntryInum(bp, j) == 0
  }

  /** Block `b` of the file shows the entries `c` has there. */
  predicate Shows(bp: Block, c: seq<byte>, b: nat) {
    forall j :: 0 <= j < PER_BLOCK ==> ShowsEntry(bp, c, b, j)
  }

  lemma BlockShows(d: Disk, n: Inode, b: nat)
    requires Sized(d, n) && n.size % DIRENT == 0 && b < MAXFILE
    ensures Shows(FileBlock(d, n, b), Contents(d, n), b)
  {
    forall j | 0 <= j < PER_BLOCK
      ensures ShowsEntry(FileBlock(d, n, b), Contents(d, n), b, j)
    {
      BlockEntry(d, n, b, j);
    }
  }

  lemma FindStep(c: seq<byte>, key: seq<byte>, i: nat)
    ensures Find(c, key, i) == if DIRENT * i + DIRENT > |c| then None
                               else if EntryInum(c, i) != 0 && EntryKey(c, i) == key then Some(i)
                               else Find(c, key, i + 1)
    ensures DIRENT * i + DIRENT > |c| ==> Find(c, key, i + 1).None?
  {
  }

  lemma FindPastEnd(c: seq<byte>, key: seq<byte>, i: nat)
    requires DIRENT * i + DIRENT > |c|
    ensures Find(c, key, i).None?
  {
  }

  /** A lookup has found the first entry with this name, or nothing. */
  ghost predicate FoundAt(c: seq<byte>, key: seq<byte>, found: bool, inum: nat, poff: nat) {
    var r := Find(c, key, 0);
    if found then r.Some? && InUse(c, r.value) && poff == DIRENT * r.value && inum == EntryInum(c, r.value) else r.None?
  }

  /** No entry before block `b` has this name. */
  ghost predicate NotBefore(c: seq<byte>, key: seq<byte>, b: nat) {
    Find(c, key, 0) == Find(c, key, PER_BLOCK * b)
  }

  lemma NotFound(c: seq<byte>, key: seq<byte>, b: nat)
    requires NotBefore(c, key, b) && BSIZE * b >= |c|
    ensures FoundAt(c, key, false, 0, 0)
  {
    FindPastEnd(c, key, PER_BLOCK * b);
  }

  /** The inner loop of `dirlookup`: the entries of the block at `off`. */
  method ScanBlock(bp: Block, name: seq<byte>, off: nat, ghost b: nat, ghost c: seq<byte>)
    returns (found: bool, inum: nat, poff: nat)
    requires Terminated(name, DIRSIZ) && Shows(bp, c, b) && off == BSIZE * b && NotBefore(c, Cut(name, DIRSIZ), b)
    ensures if found then FoundAt(c, Cut(name, DIRSIZ), true, inum, poff) else NotBefore(c, Cut(name, DIRSIZ), b + 1)
  {
    ghost var key := Cut(name, DIRSIZ);
    hide Find, EntryInum, EntryName, Cut;
    var j := 0;
    while j < PER_BLOCK
      invariant 0 <= j <= PER_BLOCK && Find(c, key, 0) == Find(c, key, PER_BLOCK * b + j)
    {
      assert ShowsEntry(bp, c, b, j);
      FindStep(c, key, PER_BLOCK * b + j);
      inum := EntryInum(bp, j);
      if inum != 0 {
        var cmp := Strncmp(name, EntryName(bp, j), DIRSIZ);
        if cmp == 0 {
          return true, inum, off + DIRENT * j;
        }
      }
      j := j + 1;
    }
    return false, 0, 0;
  }

  /** The entry `dirlink` builds: the number, and the name copied with `strncpy`. */
  method BuildEntry(name: seq<byte>, inum: nat) returns (de: seq<byte>)
    requires Terminated(name, DIRSIZ) && inum < 0x1_0000
    ensures de == EncodeEntry(inum, Cut(name, DIRSIZ)) && |de| == DIRENT
  {
    var padded := Strncpy(name, DIRSIZ);
    de := [inum % 0x100, inum / 0x100] + padded;
  }

  /** Every entry before offset `off` is used. */
  ghost predicate UsedBefore(c: seq<byte>, off: nat) {
    |c| % DIRENT == 0 && off % DIRENT == 0 && off <= |c| && FreeSlot(c, 0) == FreeSlot(c, off / DIRENT)
  }

  /** The offset of the first unused entry, or the end. */
  ghost predicate FreeAt(c: seq<byte>, off: nat) {
    |c| % DIRENT == 0 && off % DIRENT == 0 && off <= |c| && off == DIRENT * FreeSlot(c, 0)
  }

  lemma UsedHere(c: seq<byte>, off: nat)
    requires UsedBefore(c, off)
    ensures off < |c| ==> off + DIRENT <= |c|
    ensures off < |c| && InUse(c, off / DIRENT) ==> UsedBefore(c, off + DIRENT)
    ensures !(off < |c| && InUse(c, off / DIRENT)) ==> FreeAt(c, off)
  {
    assert off == DIRENT * (off / DIRENT) && (off + DIRENT) / DIRENT == off / DIRENT + 1;
  }
}
