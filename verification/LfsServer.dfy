/** The server's calls: each one, with its loops over directory blocks and entries, does to
    the image exactly what `LfsTree` says the request does to the table of files. */
module LfsServer {
  import opened Options
  import opened LfsTree
  import opened LfsLog

  class Server {
    const inodeMap: array<int>
    var nextBlock: int
    var disk: map<int, Block>
    var crMap: seq<int>
    var crNext: int

    ghost function Now(): Image
      reads this, inodeMap
    {
      Image(inodeMap[..], nextBlock, disk, crMap, crNext)
    }

    ghost function Files(): Tree
      reads this, inodeMap
    {
      TreeOf(Now())
    }

    ghost predicate Valid()
      reads this, inodeMap
    {
      Good(Now())
    }

    /** `start_server` on a file that does not exist: an empty root directory. */
    constructor ()
      ensures Valid() && fresh(inodeMap)
      ensures Files() == seq(MAXINODES, _ => None)[0 := Some(NewObject(DIRECTORY, 0, 0))]
    {
      inodeMap := new int[MAXINODES](_ => -1);
      nextBlock := CRSIZE;
      disk := map[];
      crMap := seq(MAXINODES, _ => -1);
      crNext := CRSIZE;
      new;
      ghost var s := Now();
      FormatSafe(s);
      disk := disk[nextBlock := Holds(FirstEntries(0, 0))];
      nextBlock := nextBlock + 1;
      inodeMap[0] := nextBlock;
      disk := disk[nextBlock := Node(DirNode(0, nextBlock - 1))];
      nextBlock := nextBlock + 1;
      UpdateCR(0);
      assert Now() == Formatted(s);
    }

    /** A restart on an existing file reads the checkpoint region: nothing is lost. */
    method Restart()
      requires Valid()
      modifies this, inodeMap
      ensures Valid() && Now() == old(Now()) && Files() == old(Files())
    {
      ghost var s := Now();
      var i := 0;
      while i < MAXINODES
        invariant 0 <= i <= MAXINODES && Now() == s
      {
        inodeMap[i] := crMap[i];
        assert inodeMap[..] == s.inodeMap;
        i := i + 1;
      }
      nextBlock := crNext;
      ReloadExact(s);
      assert Now() == Reload(s);
    }

    /** `update_CR`. */
    method UpdateCR(inum: int)
      requires 0 <= inum < inodeMap.Length == |crMap|
      modifies this`crMap, this`crNext
      ensures Now() == Checkpoint(old(Now()), inum)
    {
      crMap := crMap[inum := inodeMap[inum]];
      crNext := nextBlock;
    }

    /** `build_dir_block`: a fresh directory block at the end of the log. */
    method BuildDirBlock(first: bool, inum: int, pinum: int) returns (bl: int)
      modifies this`disk, this`nextBlock
      ensures Now() == Append(old(Now()), if first then FirstEntries(inum, pinum) else EmptyEntries()) && bl == old(nextBlock)
    {
      var inums := seq(PER_BLOCK, _ => -1);
      var names := seq(PER_BLOCK, _ => "DNE");
      if first {
        inums, names := inums[0 := inum][1 := pinum], names[0 := "."][1 := ".."];
      }
      disk := disk[nextBlock := Holds(Entries(inums, names))];
      nextBlock := nextBlock + 1;
      bl := nextBlock - 1;
    }

    /** `lookup_server`: the blocks in use, in order, and their entries in order. */
    method LookupServer(pinum: int, name: string) returns (inum: int)
      requires Valid() && LfsTree.Valid(Files(), Lookup(pinum, name))
      ensures Code(inum) == Step(Files(), Lookup(pinum, name)).1
    {
      if pinum < 0 || pinum >= MAXINODES {
        return -1;
      }
      ghost var s := Now();
      DirectoryNode(s, pinum);
      var node := disk[inodeMap[pinum]].node;
      ghost var slots := SlotsOf(s, pinum);
      var i := 0;
      while i < SLOTS
        invariant 0 <= i <= SLOTS && FindIn(slots, name, 0) == FindIn(slots, name, i)
      {
        DirectorySlot(s, pinum, i);
        if node.used[i] {
          var direct := disk[node.dpointers[i]].c;
          var j := 0;
          while j < PER_BLOCK
            invariant 0 <= j <= PER_BLOCK && EntryOf(direct, name, 0) == EntryOf(direct, name, j)
          {
            if direct.names[j] == name {
              return direct.inums[j];
            }
            j := j + 1;
          }
        }
        i := i + 1;
      }
      return -1;
    }

    /** `stat_server`. */
    method StatServer(inum: int) returns (code: int, typ: int, size: int)
      requires Valid() && LfsTree.Valid(Files(), Stat(inum))
      ensures Step(Files(), Stat(inum)).1 == if code == -1 then Code(-1) else Reply(code, Some((typ, size)), None)
    {
      if inum < 0 || inum >= MAXINODES {
        return -1, 0, 0;
      }
      LiveNode(Now(), inum);
      var node := disk[inodeMap[inum]].node;
      return 0, node.typ, node.size;
    }

    /** `read_server` for regular files. */
    method ReadServer(inum: int, block: int) returns (code: int, buffer: Bytes)
      requires Valid() && LfsTree.Valid(Files(), Read(inum, block))
      ensures Step(Files(), Read(inum, block)).1 == if code == -1 then Code(-1) else Reply(code, None, Some(buffer))
    {
      if inum < 0 || inum >= MAXINODES {
        return -1, [];
      }
      if block < 0 || block > 13 {
        return -1, [];
      }
      LiveNode(Now(), inum);
      RegularSlot(Now(), inum, block);
      var node := disk[inodeMap[inum]].node;
      return 0, disk[node.dpointers[block]].c.bytes;
    }

    /** `write_server`: data to the end of the log, the inode block rewritten in place. */
    method WriteServer(inum: int, buffer: Bytes, block: int) returns (code: int)
      requires Valid() && LfsTree.Valid(Files(), Write(inum, buffer, block))
      modifies this
      ensures Valid() && (Files(), Code(code)) == Step(old(Files()), Write(inum, buffer, block))
    {
      if inum < 0 || inum >= MAXINODES {
        return -1;
      }
      ghost var s := Now();
      LiveNode(s, inum);
      var node := disk[inodeMap[inum]].node;
      if node.typ != REGULAR || block < 0 || block > 13 {
        return -1;
      }
      WrittenIs(s, inum, buffer, block);
      disk := disk[nextBlock := Holds(Data(buffer))];
      node := node.(dpointers := node.dpointers[block := nextBlock]);
      if !node.used[block] {
        node := node.(used := node.used[block := true]);
      }
      if (block + 1) * BLOCKSIZE > node.size {
        node := node.(size := (block + 1) * BLOCKSIZE);
      }
      assert node == WrittenNode(NodeOf(s, inum), block, s.next);
      disk := disk[inodeMap[inum] := Node(node)];
      nextBlock := nextBlock + 1;
      UpdateCR(inum);
      assert Now() == Written(s, inum, buffer, block);
      return 0;
    }

    /** `creat_server`. */
    method CreatServer(pinum: int, typ: int, name: string) returns (code: int)
      requires Valid() && LfsTree.Valid(Files(), Creat(pinum, typ, name))
      modifies this, inodeMap
      ensures Valid() && (Files(), Code(code)) == Step(old(Files()), Creat(pinum, typ, name))
    {
      if pinum < 0 || pinum >= MAXINODES {
        return -1;
      }
      ghost var s := Now();
      LiveNode(s, pinum);
      var parent := disk[inodeMap[pinum]].node;
      if parent.typ != DIRECTORY {
        return -1;
      }
      var found := LookupServer(pinum, name);
      if found != -1 {
        return 0;
      }
      var inum := FindFreeInode();
      if inum == -1 {
        return -1;
      }
      code := MakeEntry(pinum, typ, name, inum);
    }

    /** The first loop of `creat_server`: the least unused inode number. */
    method FindFreeInode() returns (inum: int)
      requires Valid()
      ensures if inum == -1 then FreeInode(Files(), 0).None? else inum >= 0 && FreeInode(Files(), 0) == Some(inum)
    {
      ghost var s := Now();
      var i := 0;
      while i < MAXINODES
        invariant 0 <= i <= MAXINODES && FreeInode(TreeOf(s), 0) == FreeInode(TreeOf(s), i)
      {
        assert TreeOf(s)[i] == ObjectAt(s, i);
        if inodeMap[i] == -1 {
          return i;
        }
        i := i + 1;
      }
      return -1;
    }

    /** The second loop: a free entry in a block of the parent, or in a new block. */
    method MakeEntry(pinum: int, typ: int, name: string, inum: int) returns (code: int)
      requires Valid() && LfsTree.Valid(Files(), Creat(pinum, typ, name)) && IsDir(Files(), pinum)
      requires FindName(Files(), pinum, name) == -1 && inum >= 0 && FreeInode(Files(), 0) == Some(inum)
      modifies this, inodeMap
      ensures Valid() && (Files(), Code(code)) == Step(old(Files()), Creat(pinum, typ, name))
    {
      ghost var s := Now();
      DirectoryNode(s, pinum);
      var parent := disk[inodeMap[pinum]].node;
      ghost var slots := SlotsOf(s, pinum);
      var b := 0;
      while b < SLOTS
        invariant 0 <= b <= SLOTS && Now() == s && FreePlace(slots, 0) == FreePlace(slots, b)
      {
        DirectorySlot(s, pinum, b);
        if parent.used[b] {
          var block := disk[parent.dpointers[b]].c;
          var e := FindEntry(block);
          if e != -1 {
            PlaceHere(pinum, typ, name, inum, parent, b, block, e);
            return 0;
          }
          b := b + 1;
        } else {
          PlaceInNewBlock(pinum, typ, name, inum, parent, b);
          return 0;
        }
      }
      return -1;
    }

    /** A free entry in a block of the parent. */
    method PlaceHere(pinum: int, typ: int, name: string, inum: int, parent: Inode, b: nat, block: Content, e: nat)
      requires Valid() && LfsTree.Valid(Files(), Creat(pinum, typ, name)) && IsDir(Files(), pinum)
      requires FindName(Files(), pinum, name) == -1 && inum >= 0 && FreeInode(Files(), 0) == Some(inum)
      requires HasNode(Now(), pinum) && parent == NodeOf(Now(), pinum) && FreePlace(SlotsOf(Now(), pinum), 0) == Some(b)
      requires Files()[pinum].value.slots == SlotsOf(Now(), pinum) && SlotOf(Now(), pinum, b) == Some(block)
      requires b < SLOTS && parent.used[b] && FreeEntry(block, 0) == Some(e)
      modifies this, inodeMap
      ensures Valid() && (Files(), Code(0)) == Step(old(Files()), Creat(pinum, typ, name))
    {
      ghost var s := Now();
      PlacedIs(s, pinum, typ, name, inum, b);
      hide Good, Placed;
      Place(pinum, parent, parent.dpointers[b], WithEntry(block, e, inum, name), inum, typ);
    }

    /** No free entry before the unused block `b`: the parent gets a new block. The loop of the
        source comes back to that block, whose first entry is free. */
    method PlaceInNewBlock(pinum: int, typ: int, name: string, inum: int, parent0: Inode, b: nat)
      requires Valid() && LfsTree.Valid(Files(), Creat(pinum, typ, name)) && IsDir(Files(), pinum)
      requires FindName(Files(), pinum, name) == -1 && inum >= 0 && FreeInode(Files(), 0) == Some(inum)
      requires HasNode(Now(), pinum) && parent0 == NodeOf(Now(), pinum) && FreePlace(SlotsOf(Now(), pinum), 0) == Some(b)
      requires Files()[pinum].value.slots == SlotsOf(Now(), pinum) && SlotOf(Now(), pinum, b).None?
      modifies this, inodeMap
      ensures Valid() && (Files(), Code(0)) == Step(old(Files()), Creat(pinum, typ, name))
    {
      ghost var s := Now();
      GrownIs(s, pinum, typ, name, inum, b);
      assert |s.inodeMap| == MAXINODES == |s.crMap|;
      hide Good, Placed, Step, TreeOf, FreePlace, FindIn, Shaped, Safe, EmptyEntries, Loc, SlotOf, SlotsOf, WithEntry;
      var bl := BuildDirBlock(false, inum, -1);
      var parent := parent0.(size := parent0.size + BLOCKSIZE, used := parent0.used[b := true], dpointers := parent0.dpointers[b := bl]);
      assert Now() == Append(s, EmptyEntries()) && disk[bl].c == EmptyEntries();
      assert parent == Repointed(NodeOf(s, pinum), b, s.next, NodeOf(s, pinum).size + BLOCKSIZE);
      hide Append, Repointed, NodeOf, HasNode;
      Place(pinum, parent, bl, WithEntry(disk[bl].c, 0, inum, name), inum, typ);
    }

    /** The entry loop: the first entry without an inode. */
    method FindEntry(block: Content) returns (e: int)
      requires block.Entries? && |block.inums| == |block.names| == PER_BLOCK
      ensures if e == -1 then FreeEntry(block, 0).None? else e >= 0 && FreeEntry(block, 0) == Some(e)
    {
      e := 0;
      while e < PER_BLOCK
        invariant 0 <= e <= PER_BLOCK && FreeEntry(block, 0) == FreeEntry(block, e)
      {
        if block.inums[e] == -1 {
          return;
        }
        e := e + 1;
      }
      return -1;
    }

    /** The end of `creat_server`. */
    method Place(pinum: int, parent: Inode, l: int, block: Content, inum: int, typ: int)
      requires HasNode(Now(), pinum) && 0 <= inum < inodeMap.Length == |crMap| && 0 <= pinum < inodeMap.Length
      modifies this, inodeMap
      ensures Now() == old(Placed(Now(), pinum, parent, l, block, inum, typ))
    {
      ghost var s := Now();
      disk := disk[inodeMap[pinum] := Node(parent)];
      disk := disk[l := Holds(block)];
      var n := BlankNode(inum, typ);
      if typ == DIRECTORY {
        n := n.(used := n.used[0 := true], dpointers := n.dpointers[0 := nextBlock]);
        var bl := BuildDirBlock(true, inum, pinum);
        n := n.(size := n.size + BLOCKSIZE);
      }
      inodeMap[inum] := nextBlock;
      disk := disk[nextBlock := Node(n)];
      nextBlock := nextBlock + 1;
      UpdateCR(inum);
      assert inodeMap[..] == s.inodeMap[inum := crNext - 1];
    }

    /** `unlink_server`. */
    method UnlinkServer(pinum: int, name: string) returns (code: int)
      requires Valid() && LfsTree.Valid(Files(), Unlink(pinum, name))
      modifies this, inodeMap
      ensures Valid() && (Files(), Code(code)) == Step(old(Files()), Unlink(pinum, name))
    {
      if pinum < 0 || pinum >= MAXINODES {
        return -1;
      }
      ghost var s := Now();
      LiveNode(s, pinum);
      var pinode := disk[inodeMap[pinum]].node;
      if pinode.typ != DIRECTORY {
        return -1;
      }
      DirectorySlot(s, pinum, 0);
      FirstSlotUsed(s, pinum);
      var direct := disk[pinode.dpointers[0]].c;
      var inum := LookupServer(pinum, name);
      if inum < 0 {
        return 0;
      }
      LiveNode(s, inum);
      var node := disk[inodeMap[inum]].node;
      if node.typ != REGULAR {
        DirectorySlot(s, inum, 0);
        FirstSlotUsed(s, inum);
        var tempDir := disk[node.dpointers[0]].c;
        var i := 2;
        while i < PER_BLOCK
          invariant 2 <= i <= PER_BLOCK && forall k :: 2 <= k < i ==> tempDir.inums[k] == -1
        {
          if tempDir.inums[i] != -1 {
            return -1;
          }
          i := i + 1;
        }
      }
      UnlinkedIs(s, pinum, name, inum);
      var cleared := ClearLoop(direct, name);
      disk := disk[pinode.dpointers[0] := Holds(cleared)];
      inodeMap[inum] := -1;
      assert inodeMap[..] == s.inodeMap[inum := -1];
      UpdateCR(inum);
      return 0;
    }

    /** The entry loop of `unlink_server`: every entry with the name becomes unused. */
    method ClearLoop(direct: Content, name: string) returns (r: Content)
      requires direct.Entries? && |direct.inums| == |direct.names| == PER_BLOCK && name != "DNE"
      ensures r == ClearName(direct, name)
    {
      r := direct;
      var j := 0;
      while j < PER_BLOCK
        invariant 0 <= j <= PER_BLOCK && r.Entries? && |r.inums| == |r.names| == PER_BLOCK
        invariant forall k :: 0 <= k < j ==> r.inums[k] == ClearName(direct, name).inums[k] && r.names[k] == ClearName(direct, name).names[k]
        invariant forall k :: j <= k < PER_BLOCK ==> r.inums[k] == direct.inums[k] && r.names[k] == direct.names[k]
      {
        if r.names[j] == name {
          r := Entries(r.inums[j := -1], r.names[j := "DNE"]);
        }
        j := j + 1;
      }
      assert r.inums == ClearName(direct, name).inums && r.names == ClearName(direct, name).names;
    }
  }

  // ---------- what a good image holds for the calls ----------

  function Formatted(s: Image): Image
    requires |s.inodeMap| == |s.crMap| == MAXINODES
  {
    Checkpoint(NewNode(Append(s, FirstEntries(0, 0)), 0, DirNode(0, s.next)), 0)
  }

  lemma FormatSafe(s: Image)
    requires s == Image(seq(MAXINODES, _ => -1), CRSIZE, map[], seq(MAXINODES, _ => -1), CRSIZE)
    ensures Good(Formatted(s)) && TreeOf(Formatted(s)) == seq(MAXINODES, _ => None)[0 := Some(NewObject(DIRECTORY, 0, 0))]
  {
    assert Safe(s);
    MadeInode(s, 0, 0, DIRECTORY);
    NewShaped(DIRECTORY, 0, 0);
    assert forall j :: 0 <= j < MAXINODES ==> ObjectAt(s, j) == None;
    assert TreeOf(s) == seq(MAXINODES, _ => None);
  }

  lemma LiveNode(s: Image, i: int)
    requires Good(s) && Has(TreeOf(s), i)
    ensures HasNode(s, i) && TreeOf(s)[i].value.typ == NodeOf(s, i).typ && TreeOf(s)[i].value.size == NodeOf(s, i).size
    ensures TreeOf(s)[i].value.slots == SlotsOf(s, i)
  {
    assert TreeOf(s)[i] == ObjectAt(s, i);
  }

  lemma RegularSlot(s: Image, i: int, b: int)
    requires Good(s) && Has(TreeOf(s), i) && 0 <= b < SLOTS && TreeOf(s)[i].value.typ == REGULAR && TreeOf(s)[i].value.slots[b].Some?
    ensures HasNode(s, i) && NodeOf(s, i).dpointers[b] in s.disk && s.disk[NodeOf(s, i).dpointers[b]].Holds?
    ensures s.disk[NodeOf(s, i).dpointers[b]].c.Data? && TreeOf(s)[i].value.slots[b] == Some(s.disk[NodeOf(s, i).dpointers[b]].c)
  {
    LiveNode(s, i);
    assert ObjectShaped(TreeOf(s)[i].value);
    assert SlotsOf(s, i)[b] == SlotOf(s, i, b);
  }

  lemma DirectoryNode(s: Image, i: int)
    requires Good(s) && IsDir(TreeOf(s), i)
    ensures HasNode(s, i) && TreeOf(s)[i].value.slots == SlotsOf(s, i) && NodeOf(s, i).typ == DIRECTORY
  {
    LiveNode(s, i);
  }

  lemma DirectorySlot(s: Image, i: int, b: nat)
    requires Good(s) && IsDir(TreeOf(s), i) && b < SLOTS
    ensures HasNode(s, i) && |SlotsOf(s, i)| == SLOTS
    ensures if NodeOf(s, i).used[b] then
              var l := NodeOf(s, i).dpointers[b];
              l in s.disk && s.disk[l].Holds? && s.disk[l].c.Entries? && |s.disk[l].c.inums| == |s.disk[l].c.names| == PER_BLOCK
              && SlotsOf(s, i)[b] == Some(s.disk[l].c) && Loc(s, i, b) == l
            else SlotsOf(s, i)[b].None?
  {
    LiveNode(s, i);
    assert ObjectShaped(TreeOf(s)[i].value);
    assert InLog(s, i, b);
    assert SlotsOf(s, i)[b] == SlotOf(s, i, b);
    if NodeOf(s, i).used[b] && SlotsOf(s, i)[b].Some? {
      assert ContentShaped(DIRECTORY, SlotsOf(s, i)[b].value);
    }
  }

  lemma FirstSlotUsed(s: Image, i: int)
    requires Good(s) && IsDir(TreeOf(s), i)
    ensures HasNode(s, i) && NodeOf(s, i).used[0]
  {
    DirectorySlot(s, i, 0);
    LiveNode(s, i);
    assert ObjectShaped(TreeOf(s)[i].value);
  }
}
