/** The log image of the file server: inode map, inode blocks and data blocks at addresses,
    and the checkpoint region. No two live pointers share a block, and the table of files
    the image stands for is the one of `LfsTree`. */
module LfsLog {
  import opened Options
  import opened LfsTree

  const CRSIZE: int := 6

  datatype Inode = Inode(size: int, typ: int, inum: int, dpointers: seq<int>, used: seq<bool>)

  datatype Block = Node(node: Inode) | Holds(c: Content)

  /** `inodeMap` and `next` are the server's variables, `crMap` and `crNext` their copies in the file. */
  datatype Image = Image(inodeMap: seq<int>, next: int, disk: map<int, Block>, crMap: seq<int>, crNext: int)

  predicate HasNode(s: Image, i: int) {
    0 <= i < |s.inodeMap| && s.inodeMap[i] != -1 && s.inodeMap[i] in s.disk && s.disk[s.inodeMap[i]].Node?
    && |s.disk[s.inodeMap[i]].node.dpointers| == |s.disk[s.inodeMap[i]].node.used| == SLOTS
  }

  function NodeOf(s: Image, i: int): Inode
    requires HasNode(s, i)
  {
    s.disk[s.inodeMap[i]].node
  }

  /** The address of block `a` of inode `i`, of its inode block for `a` = 14; -1 for none. */
  function Loc(s: Image, i: int, a: nat): int {
    if !HasNode(s, i) then -1
    else if a == SLOTS then s.inodeMap[i]
    else if a < SLOTS && NodeOf(s, i).used[a] then NodeOf(s, i).dpointers[a]
    else -1
  }

  ghost predicate InLog(s: Image, i: int, a: nat) {
    var l := Loc(s, i, a);
    && (a < SLOTS && HasNode(s, i) && NodeOf(s, i).used[a] ==> l != -1)
    && (l != -1 ==> CRSIZE <= l < s.next && l in s.disk && (a < SLOTS ==> s.disk[l].Holds?))
  }

  /** Two different live pointers never name the same block. */
  ghost predicate Apart(s: Image, i: int, a: nat, j: int, b: nat) {
    (i != j || a != b) && Loc(s, i, a) != -1 ==> Loc(s, i, a) != Loc(s, j, b)
  }

  ghost predicate Safe(s: Image) {
    && |s.inodeMap| == MAXINODES && s.next >= CRSIZE
    && (forall i :: 0 <= i < |s.inodeMap| ==> s.inodeMap[i] == -1 || HasNode(s, i))
    && (forall i: int, a: nat :: InLog(s, i, a))
    && (forall i: int, a: nat, j: int, b: nat :: Apart(s, i, a, j, b))
  }

  function SlotOf(s: Image, i: int, b: nat): Option<Content> {
    var l := Loc(s, i, b);
    if b < SLOTS && l != -1 && l in s.disk && s.disk[l].Holds? then Some(s.disk[l].c) else None
  }

  function SlotsOf(s: Image, i: int): (r: seq<Option<Content>>)
    ensures |r| == SLOTS && forall b :: 0 <= b < SLOTS ==> r[b] == SlotOf(s, i, b)
  {
    seq(SLOTS, b requires 0 <= b < SLOTS => SlotOf(s, i, b))
  }

  function ObjectAt(s: Image, i: int): Option<Object> {
    if HasNode(s, i) then Some(Object(NodeOf(s, i).typ, NodeOf(s, i).size, SlotsOf(s, i))) else None
  }

  lemma ObjectIs(s: Image, i: int, o: Object)
    requires HasNode(s, i) && NodeOf(s, i).typ == o.typ && NodeOf(s, i).size == o.size && |o.slots| == SLOTS
    requires forall b :: 0 <= b < SLOTS ==> SlotOf(s, i, b) == o.slots[b]
    ensures ObjectAt(s, i) == Some(o)
  {
    assert SlotsOf(s, i) == o.slots;
  }

  lemma SameObject(s: Image, t: Image, i: int)
    requires HasNode(t, i) <==> HasNode(s, i)
    requires HasNode(s, i) ==> NodeOf(t, i).typ == NodeOf(s, i).typ && NodeOf(t, i).size == NodeOf(s, i).size
    requires forall b :: 0 <= b < SLOTS ==> SlotOf(t, i, b) == SlotOf(s, i, b)
    ensures ObjectAt(t, i) == ObjectAt(s, i)
  {
    assert SlotsOf(t, i) == SlotsOf(s, i);
  }

  /** The table of files an image stands for. */
  function TreeOf(s: Image): (t: Tree)
    ensures |t| == |s.inodeMap|
    ensures forall i :: 0 <= i < |t| ==> t[i] == ObjectAt(s, i)
  {
    seq(|s.inodeMap|, i requires 0 <= i < |s.inodeMap| => ObjectAt(s, i))
  }

  /** The checkpoint region in the file agrees with the server's variables. */
  predicate Checkpointed(s: Image) {
    s.crMap == s.inodeMap && s.crNext == s.next
  }

  ghost predicate Good(s: Image) {
    Safe(s) && Shaped(TreeOf(s)) && Checkpointed(s)
  }

  /** What a restart reads back: the variables come from the checkpoint region. */
  function Reload(s: Image): Image {
    s.(inodeMap := s.crMap, next := s.crNext)
  }

  /** A restart loses nothing. */
  lemma ReloadExact(s: Image)
    requires Good(s)
    ensures Reload(s) == s && TreeOf(Reload(s)) == TreeOf(s)
  {
  }

  // ---------- the steps the calls are made of ----------

  ghost predicate Unreferenced(s: Image, l: int) {
    forall i: int, a: nat :: Loc(s, i, a) != l
  }

  /** A block at the end of the log is nobody's yet. */
  lemma EndUnreferenced(s: Image)
    requires Safe(s)
    ensures Unreferenced(s, s.next)
  {
    forall i: int, a: nat
      ensures Loc(s, i, a) != s.next
    {
      assert InLog(s, i, a);
    }
  }

  function Append(s: Image, c: Content): Image {
    s.(disk := s.disk[s.next := Holds(c)], next := s.next + 1)
  }

  lemma AppendSafe(s: Image, c: Content)
    requires Safe(s)
    ensures var t := Append(s, c);
      Safe(t) && TreeOf(t) == TreeOf(s) && Unreferenced(t, s.next)
      && forall i: int, a: nat :: Loc(t, i, a) == Loc(s, i, a)
  {
    var t := Append(s, c);
    EndUnreferenced(s);
    forall i: int, a: nat
      ensures Loc(t, i, a) == Loc(s, i, a) && InLog(t, i, a) && SlotOf(t, i, a) == SlotOf(s, i, a)
    {
      assert InLog(s, i, a) && InLog(s, i, SLOTS);
      assert Loc(s, i, SLOTS) != s.next;
    }
    SameLocs(s, t);
    forall i | 0 <= i < |s.inodeMap|
      ensures ObjectAt(t, i) == ObjectAt(s, i) && (t.inodeMap[i] == -1 || HasNode(t, i))
    {
      assert Loc(s, i, SLOTS) != s.next;
      SameObject(s, t, i);
    }
  }

  lemma SameLocs(s: Image, t: Image)
    requires Safe(s) && forall i: int, a: nat :: Loc(t, i, a) == Loc(s, i, a)
    ensures forall i: int, a: nat, j: int, b: nat :: Apart(t, i, a, j, b)
  {
    forall i: int, a: nat, j: int, b: nat
      ensures Apart(t, i, a, j, b)
    {
      assert Apart(s, i, a, j, b);
    }
  }

  /** Rewrite the inode block of `i`. */
  function SetNode(s: Image, i: int, n: Inode): Image
    requires HasNode(s, i)
  {
    s.(disk := s.disk[s.inodeMap[i] := Node(n)])
  }

  function Repointed(n: Inode, b: nat, l: int, size: int): Inode
    requires |n.dpointers| == |n.used| == SLOTS && b < SLOTS
  {
    n.(dpointers := n.dpointers[b := l], used := n.used[b := true], size := size)
  }

  /** Inode `i` gets an unreferenced block in slot `b`. */
  lemma RepointSafe(s: Image, i: int, b: nat, l: int, size: int)
    requires Safe(s) && HasNode(s, i) && b < SLOTS && CRSIZE <= l < s.next && l in s.disk && s.disk[l].Holds?
    requires Unreferenced(s, l)
    ensures var t := SetNode(s, i, Repointed(NodeOf(s, i), b, l, size));
      Safe(t)
      && forall j :: 0 <= j < |s.inodeMap| ==>
           ObjectAt(t, j) == if j == i then Some(ObjectAt(s, i).value.(size := size, slots := ObjectAt(s, i).value.slots[b := Some(s.disk[l].c)]))
                             else ObjectAt(s, j)
  {
    var t := SetNode(s, i, Repointed(NodeOf(s, i), b, l, size));
    assert Loc(s, i, SLOTS) == s.inodeMap[i];
    forall j: int, a: nat
      ensures Loc(t, j, a) == if j == i && a == b then l else Loc(s, j, a)
    {
      assert Apart(s, i, SLOTS, j, SLOTS);
    }
    RepointLocs(s, t, i, b, l);
    forall j: int, a: nat
      ensures InLog(t, j, a) && ((j == i && a == b) || SlotOf(t, j, a) == SlotOf(s, j, a))
    {
      assert InLog(s, j, a) && Apart(s, i, SLOTS, j, a) && InLog(s, i, SLOTS);
    }
    forall j | 0 <= j < |s.inodeMap| && j != i
      ensures ObjectAt(t, j) == ObjectAt(s, j)
    {
      assert Apart(s, i, SLOTS, j, SLOTS);
      SameObject(s, t, j);
    }
    ObjectIs(t, i, ObjectAt(s, i).value.(size := size, slots := ObjectAt(s, i).value.slots[b := Some(s.disk[l].c)]));
  }

  lemma RepointLocs(s: Image, t: Image, i: int, b: nat, l: int)
    requires Safe(s) && Unreferenced(s, l) && l != -1
    requires forall j: int, a: nat :: Loc(t, j, a) == if j == i && a == b then l else Loc(s, j, a)
    ensures forall j: int, a: nat, k: int, c: nat :: Apart(t, j, a, k, c)
  {
    forall j: int, a: nat, k: int, c: nat
      ensures Apart(t, j, a, k, c)
    {
      assert Apart(s, j, a, k, c);
    }
  }

  /** Overwrite a block in place. */
  function SetBlock(s: Image, l: int, c: Content): Image {
    s.(disk := s.disk[l := Holds(c)])
  }

  lemma SetBlockSafe(s: Image, i: int, b: nat, c: Content)
    requires Safe(s) && HasNode(s, i) && b < SLOTS && NodeOf(s, i).used[b] && Loc(s, i, b) != -1
    ensures var t := SetBlock(s, Loc(s, i, b), c);
      Safe(t)
      && forall j :: 0 <= j < |s.inodeMap| ==>
           ObjectAt(t, j) == if j == i then Some(ObjectAt(s, i).value.(slots := ObjectAt(s, i).value.slots[b := Some(c)]))
                             else ObjectAt(s, j)
  {
    var l := Loc(s, i, b);
    var t := SetBlock(s, l, c);
    assert InLog(s, i, b);
    forall j: int, a: nat
      ensures Loc(t, j, a) == Loc(s, j, a) && InLog(t, j, a) && ((j == i && a == b) || SlotOf(t, j, a) == SlotOf(s, j, a))
    {
      assert Apart(s, i, b, j, SLOTS) && Apart(s, i, b, j, a) && InLog(s, j, a);
    }
    SameLocs(s, t);
    forall j | 0 <= j < |s.inodeMap| && j != i
      ensures ObjectAt(t, j) == ObjectAt(s, j)
    {
      assert Apart(s, i, b, j, SLOTS);
      SameObject(s, t, j);
    }
    assert Apart(s, i, b, i, SLOTS);
    ObjectIs(t, i, ObjectAt(s, i).value.(slots := ObjectAt(s, i).value.slots[b := Some(c)]));
  }

  /** A new inode at the end of the log, with at most one block, not yet referenced. */
  function NewNode(s: Image, i: int, n: Inode): Image
    requires 0 <= i < |s.inodeMap|
  {
    s.(disk := s.disk[s.next := Node(n)], inodeMap := s.inodeMap[i := s.next], next := s.next + 1)
  }

  lemma NewNodeSafe(s: Image, i: int, n: Inode)
    requires Safe(s) && 0 <= i < |s.inodeMap| && s.inodeMap[i] == -1 && |n.dpointers| == |n.used| == SLOTS
    requires forall b :: 0 < b < SLOTS ==> !n.used[b]
    requires n.used[0] ==> CRSIZE <= n.dpointers[0] < s.next && n.dpointers[0] in s.disk && s.disk[n.dpointers[0]].Holds?
                           && Unreferenced(s, n.dpointers[0])
    ensures var t := NewNode(s, i, n);
      Safe(t)
      && forall j :: 0 <= j < |s.inodeMap| ==>
           ObjectAt(t, j) == if j == i then Some(Object(n.typ, n.size,
                               if n.used[0] then NoSlots()[0 := Some(s.disk[n.dpointers[0]].c)] else NoSlots()))
                             else ObjectAt(s, j)
  {
    var t := NewNode(s, i, n);
    EndUnreferenced(s);
    forall j: int, a: nat
      ensures Loc(t, j, a) == if j != i then Loc(s, j, a) else if a == SLOTS then s.next
                              else if a == 0 && n.used[0] then n.dpointers[0] else -1
      ensures Loc(s, i, a) == -1
    {
      assert Loc(s, j, SLOTS) != s.next;
    }
    forall j: int, a: nat
      ensures InLog(t, j, a) && (j == i || SlotOf(t, j, a) == SlotOf(s, j, a))
    {
      assert InLog(s, j, a) && Loc(s, j, a) != s.next;
    }
    NewLocs(s, t, i, n);
    forall j | 0 <= j < |s.inodeMap| && j != i
      ensures ObjectAt(t, j) == ObjectAt(s, j)
    {
      assert Loc(s, j, SLOTS) != s.next;
      SameObject(s, t, j);
    }
    ObjectIs(t, i, Object(n.typ, n.size, if n.used[0] then NoSlots()[0 := Some(s.disk[n.dpointers[0]].c)] else NoSlots()));
  }

  lemma NewLocs(s: Image, t: Image, i: int, n: Inode)
    requires Safe(s) && |n.dpointers| == |n.used| == SLOTS && Unreferenced(s, s.next)
    requires n.used[0] ==> n.dpointers[0] != s.next && Unreferenced(s, n.dpointers[0])
    requires forall j: int, a: nat :: Loc(t, j, a) == if j != i then Loc(s, j, a) else if a == SLOTS then s.next
                                                      else if a == 0 && n.used[0] then n.dpointers[0] else -1
    ensures forall j: int, a: nat, k: int, c: nat :: Apart(t, j, a, k, c)
  {
    forall j: int, a: nat, k: int, c: nat
      ensures Apart(t, j, a, k, c)
    {
      assert Apart(s, j, a, k, c);
    }
  }

  /** Forget an inode. */
  function Drop(s: Image, i: int): Image
    requires 0 <= i < |s.inodeMap|
  {
    s.(inodeMap := s.inodeMap[i := -1])
  }

  lemma DropSafe(s: Image, i: int)
    requires Safe(s) && 0 <= i < |s.inodeMap|
    ensures Safe(Drop(s, i))
    ensures forall j :: 0 <= j < |s.inodeMap| ==> ObjectAt(Drop(s, i), j) == if j == i then None else ObjectAt(s, j)
  {
    var t := Drop(s, i);
    forall j: int, a: nat
      ensures Loc(t, j, a) == if j == i then -1 else Loc(s, j, a)
      ensures InLog(t, j, a)
    {
      assert InLog(s, j, a);
    }
    forall j: int, a: nat, k: int, c: nat
      ensures Apart(t, j, a, k, c)
    {
      assert Apart(s, j, a, k, c);
    }
    forall j | 0 <= j < |s.inodeMap| && j != i
      ensures ObjectAt(t, j) == ObjectAt(s, j)
    {
      SameObject(s, t, j);
    }
  }

  /** `update_CR`: one entry of the inode map, and the end of the log, go to the file. */
  function Checkpoint(s: Image, i: int): Image
    requires 0 <= i < |s.inodeMap| == |s.crMap|
  {
    s.(crMap := s.crMap[i := s.inodeMap[i]], crNext := s.next)
  }

  lemma CheckpointSafe(s: Image, i: int)
    requires Safe(s) && 0 <= i < |s.inodeMap| == |s.crMap|
    requires forall j :: 0 <= j < |s.inodeMap| && j != i ==> s.crMap[j] == s.inodeMap[j]
    ensures var t := Checkpoint(s, i); Safe(t) && Checkpointed(t) && TreeOf(t) == TreeOf(s)
  {
    var t := Checkpoint(s, i);
    forall j: int, a: nat
      ensures Loc(t, j, a) == Loc(s, j, a) && InLog(t, j, a)
    {
      assert InLog(s, j, a);
    }
    SameLocs(s, t);
    forall j | 0 <= j < |s.inodeMap|
      ensures ObjectAt(t, j) == ObjectAt(s, j)
    {
      SameObject(s, t, j);
    }
  }

  // ---------- the calls ----------

  function WrittenNode(n: Inode, block: nat, l: int): Inode
    requires |n.dpointers| == |n.used| == SLOTS && block < SLOTS
  {
    Repointed(n, block, l, Max(n.size, (block + 1) * BLOCKSIZE))
  }

  /** `write_server` on a regular file: the data goes to the end of the log, the inode block is
      rewritten in place. */
  function Written(s: Image, inum: int, buffer: Bytes, block: nat): Image
    requires HasNode(s, inum) && |s.inodeMap| == |s.crMap| && block < SLOTS
  {
    var s1 := Append(s, Data(buffer));
    Checkpoint(s1.(disk := s1.disk[s1.inodeMap[inum] := Node(WrittenNode(NodeOf(s, inum), block, s.next))]), inum)
  }

  lemma WrittenIs(s: Image, inum: int, buffer: Bytes, block: nat)
    requires Good(s) && HasNode(s, inum) && NodeOf(s, inum).typ == REGULAR && block < SLOTS
    ensures var t := Written(s, inum, buffer, block);
      Good(t) && TreeOf(t) == Step(TreeOf(s), Write(inum, buffer, block)).0
  {
    var s1 := Append(s, Data(buffer));
    AppendSafe(s, Data(buffer));
    assert TreeOf(s)[inum] == ObjectAt(s, inum) && TreeOf(s1)[inum] == ObjectAt(s1, inum);
    assert NodeOf(s1, inum) == NodeOf(s, inum) by {
      assert Loc(s1, inum, SLOTS) == Loc(s, inum, SLOTS);
      EndUnreferenced(s);
      assert Loc(s, inum, SLOTS) != s.next;
    }
    var size := Max(NodeOf(s, inum).size, (block + 1) * BLOCKSIZE);
    RepointSafe(s1, inum, block, s.next, size);
    var s2 := SetNode(s1, inum, Repointed(NodeOf(s1, inum), block, s.next, size));
    CheckpointSafe(s2, inum);
    StepShaped(TreeOf(s), Write(inum, buffer, block));
    assert TreeOf(s2) == Step(TreeOf(s), Write(inum, buffer, block)).0;
  }

  /** `unlink_server` once the name is found: its entries are cleared in place, the inode forgotten. */
  function Unlinked(s: Image, pinum: int, inum: int, c: Content): Image
    requires HasNode(s, pinum) && 0 <= inum < |s.inodeMap| == |s.crMap|
  {
    Checkpoint(Drop(SetBlock(s, NodeOf(s, pinum).dpointers[0], c), inum), inum)
  }

  lemma UnlinkedIs(s: Image, pinum: int, name: string, inum: int)
    requires Good(s) && HasNode(s, pinum) && Valid(TreeOf(s), Unlink(pinum, name)) && IsDir(TreeOf(s), pinum)
    requires inum == FindName(TreeOf(s), pinum, name) >= 0 && !Occupied(TreeOf(s)[inum].value)
    ensures SlotOf(s, pinum, 0).Some? && SlotOf(s, pinum, 0).value.Entries? && inum < |s.inodeMap| == |s.crMap|
    ensures |SlotOf(s, pinum, 0).value.inums| == |SlotOf(s, pinum, 0).value.names|
    ensures var t := Unlinked(s, pinum, inum, ClearName(SlotOf(s, pinum, 0).value, name));
      Good(t) && TreeOf(t) == Step(TreeOf(s), Unlink(pinum, name)).0
  {
    assert TreeOf(s)[pinum] == ObjectAt(s, pinum);
    assert ObjectShaped(TreeOf(s)[pinum].value);
    assert TreeOf(s)[pinum].value.slots[0] == SlotOf(s, pinum, 0);
    var c := ClearName(SlotOf(s, pinum, 0).value, name);
    SetBlockSafe(s, pinum, 0, c);
    var s1 := SetBlock(s, Loc(s, pinum, 0), c);
    DropSafe(s1, inum);
    CheckpointSafe(Drop(s1, inum), inum);
    StepShaped(TreeOf(s), Unlink(pinum, name));
    assert TreeOf(Drop(s1, inum)) == Step(TreeOf(s), Unlink(pinum, name)).0;
  }

  function BlankNode(inum: int, typ: int): Inode {
    Inode(0, typ, inum, seq(SLOTS, _ => -1), seq(SLOTS, _ => false))
  }

  function DirNode(inum: int, l: int): Inode {
    var n := BlankNode(inum, DIRECTORY);
    Repointed(n, 0, l, BLOCKSIZE)
  }

  /** The end of `creat_server`: parent and entry are written, then the new inode with its first
      directory block, if it is a directory. */
  function Placed(s: Image, pinum: int, parent: Inode, l: int, c: Content, inum: int, typ: int): Image
    requires HasNode(s, pinum) && 0 <= inum < |s.inodeMap| == |s.crMap|
  {
    var s1 := SetBlock(SetNode(s, pinum, parent), l, c);
    var s2 := if typ == DIRECTORY then Append(s1, FirstEntries(inum, pinum)) else s1;
    Checkpoint(NewNode(s2, inum, if typ == DIRECTORY then DirNode(inum, s1.next) else BlankNode(inum, typ)), inum)
  }

  /** The new inode, once the parent is done. */
  lemma MadeInode(s: Image, pinum: nat, inum: nat, typ: int)
    requires Safe(s) && inum < |s.inodeMap| == |s.crMap| && s.inodeMap[inum] == -1 && (typ == DIRECTORY || typ == REGULAR)
    requires s.crMap == s.inodeMap
    ensures var s2 := if typ == DIRECTORY then Append(s, FirstEntries(inum, pinum)) else s;
      var n := if typ == DIRECTORY then DirNode(inum, s.next) else BlankNode(inum, typ);
      var t := Checkpoint(NewNode(s2, inum, n), inum);
      Safe(t) && Checkpointed(t) && TreeOf(t) == TreeOf(s)[inum := Some(NewObject(typ, inum, pinum))]
  {
    var s2 := if typ == DIRECTORY then Append(s, FirstEntries(inum, pinum)) else s;
    var n := if typ == DIRECTORY then DirNode(inum, s.next) else BlankNode(inum, typ);
    if typ == DIRECTORY {
      AppendSafe(s, FirstEntries(inum, pinum));
    }
    NewNodeSafe(s2, inum, n);
    var s3 := NewNode(s2, inum, n);
    CheckpointSafe(s3, inum);
    assert forall j :: 0 <= j < |s.inodeMap| ==> TreeOf(s2)[j] == ObjectAt(s2, j) && TreeOf(s)[j] == ObjectAt(s, j);
    assert TreeOf(s3) == TreeOf(s)[inum := Some(NewObject(typ, inum, pinum))];
  }

  /** Creating in a block that has room. */
  lemma PlacedIs(s: Image, pinum: nat, typ: int, name: string, inum: nat, b: nat)
    requires Good(s) && HasNode(s, pinum) && Valid(TreeOf(s), Creat(pinum, typ, name)) && IsDir(TreeOf(s), pinum)
    requires FindName(TreeOf(s), pinum, name) == -1 && FreeInode(TreeOf(s), 0) == Some(inum)
    requires FreePlace(TreeOf(s)[pinum].value.slots, 0) == Some(b) && SlotOf(s, pinum, b).Some?
    ensures b < SLOTS && FreeEntry(SlotOf(s, pinum, b).value, 0).Some? && inum < |s.inodeMap| == |s.crMap|
    ensures var c := SlotOf(s, pinum, b).value;
      var t := Placed(s, pinum, NodeOf(s, pinum), Loc(s, pinum, b), WithEntry(c, FreeEntry(c, 0).value, inum, name), inum, typ);
      Good(t) && TreeOf(t) == Step(TreeOf(s), Creat(pinum, typ, name)).0
  {
    var p := TreeOf(s)[pinum].value;
    assert TreeOf(s)[pinum] == ObjectAt(s, pinum) && p.slots[b] == SlotOf(s, pinum, b);
    FreePlaceFits(p.slots, 0);
    var c := SlotOf(s, pinum, b).value;
    var c1 := WithEntry(c, FreeEntry(c, 0).value, inum, name);
    assert SetNode(s, pinum, NodeOf(s, pinum)).disk == s.disk;
    SetBlockSafe(s, pinum, b, c1);
    var s1 := SetBlock(s, Loc(s, pinum, b), c1);
    assert TreeOf(s1) == TreeOf(s)[pinum := Some(ParentWith(p, b, inum, name))];
    assert s.inodeMap[inum] == -1 by {
      assert TreeOf(s)[inum] == ObjectAt(s, inum);
    }
    MadeInode(s1, pinum, inum, typ);
    StepShaped(TreeOf(s), Creat(pinum, typ, name));
  }

  /** Creating when the directory needs another block: the block goes to the end of the log first. */
  lemma GrownIs(s: Image, pinum: nat, typ: int, name: string, inum: nat, b: nat)
    requires Good(s) && HasNode(s, pinum) && Valid(TreeOf(s), Creat(pinum, typ, name)) && IsDir(TreeOf(s), pinum)
    requires FindName(TreeOf(s), pinum, name) == -1 && FreeInode(TreeOf(s), 0) == Some(inum)
    requires FreePlace(TreeOf(s)[pinum].value.slots, 0) == Some(b) && SlotOf(s, pinum, b).None?
    ensures b < SLOTS && inum < |s.inodeMap| == |s.crMap|
    ensures var s0 := Append(s, EmptyEntries());
      var parent := Repointed(NodeOf(s, pinum), b, s.next, NodeOf(s, pinum).size + BLOCKSIZE);
      HasNode(s0, pinum) && NodeOf(s0, pinum) == NodeOf(s, pinum)
      && var t := Placed(s0, pinum, parent, s.next, WithEntry(EmptyEntries(), 0, inum, name), inum, typ);
      Good(t) && TreeOf(t) == Step(TreeOf(s), Creat(pinum, typ, name)).0
  {
    var p := TreeOf(s)[pinum].value;
    assert TreeOf(s)[pinum] == ObjectAt(s, pinum) && p.slots[b] == SlotOf(s, pinum, b);
    var s0 := Append(s, EmptyEntries());
    AppendSafe(s, EmptyEntries());
    GrownParent(s, pinum, b, inum, name);
    assert s.inodeMap[inum] == -1 by {
      assert TreeOf(s)[inum] == ObjectAt(s, inum);
    }
    var size := NodeOf(s, pinum).size + BLOCKSIZE;
    var s1 := SetBlock(SetNode(s0, pinum, Repointed(NodeOf(s, pinum), b, s.next, size)), s.next, WithEntry(EmptyEntries(), 0, inum, name));
    MadeInode(s1, pinum, inum, typ);
    StepShaped(TreeOf(s), Creat(pinum, typ, name));
  }

  lemma GrownParent(s: Image, pinum: nat, b: nat, inum: nat, name: string)
    requires Safe(s) && HasNode(s, pinum) && b < SLOTS && SlotOf(s, pinum, b).None?
    ensures var s0 := Append(s, EmptyEntries());
      var c := WithEntry(EmptyEntries(), 0, inum, name);
      HasNode(s0, pinum) && NodeOf(s0, pinum) == NodeOf(s, pinum) && pinum < |TreeOf(s)| && TreeOf(s)[pinum].Some?
      && b < |TreeOf(s)[pinum].value.slots| && TreeOf(s)[pinum].value.slots[b].None?
      && var s1 := SetBlock(SetNode(s0, pinum, Repointed(NodeOf(s, pinum), b, s.next, NodeOf(s, pinum).size + BLOCKSIZE)), s.next, c);
      Safe(s1) && TreeOf(s1) == TreeOf(s)[pinum := Some(ParentWith(TreeOf(s)[pinum].value, b, inum, name))]
  {
    var c := WithEntry(EmptyEntries(), 0, inum, name);
    var s0 := Append(s, EmptyEntries());
    assert TreeOf(s)[pinum] == ObjectAt(s, pinum);
    AppendSafe(s, EmptyEntries());
    assert Loc(s0, pinum, SLOTS) == Loc(s, pinum, SLOTS);
    var n := Repointed(NodeOf(s, pinum), b, s.next, NodeOf(s, pinum).size + BLOCKSIZE);
    RepointSafe(s0, pinum, b, s.next, n.size);
    var s2 := SetNode(s0, pinum, n);
    assert TreeOf(s0)[pinum] == ObjectAt(s0, pinum);
    assert Loc(s2, pinum, b) == s.next;
    SetBlockSafe(s2, pinum, b, c);
    assert forall j :: 0 <= j < |s.inodeMap| ==> TreeOf(s0)[j] == ObjectAt(s0, j) && TreeOf(s)[j] == ObjectAt(s, j);
    var p := TreeOf(s)[pinum].value;
    assert p.slots[b := Some(EmptyEntries())][b := Some(c)] == p.slots[b := Some(c)];
    assert ObjectAt(SetBlock(s2, s.next, c), pinum) == Some(ParentWith(p, b, inum, name));
    assert TreeOf(SetBlock(s2, s.next, c)) == TreeOf(s)[pinum := Some(ParentWith(TreeOf(s)[pinum].value, b, inum, name))];
  }
}
