/** What a client of the file server relies on: a block read is the one last written, a name
    created is found, a name removed is not. */
module LfsLaws {
  import opened Options
  import opened LfsTree

  /** The request neither writes this block of file `i` nor removes the file. */
  predicate Leaves(t: Tree, r: Request, i: nat, block: int) {
    && !(r.Write? && r.inum == i && r.block == block)
    && !(r.Unlink? && IsDir(t, r.pinum) && FindName(t, r.pinum, r.name) == i)
  }

  function After(t: Tree, rs: seq<Request>): Tree
    decreases |rs|
  {
    if rs == [] then t else After(Step(t, rs[0]).0, rs[1..])
  }

  /** Valid requests, none of which touches this block of file `i`. */
  predicate Quiet(t: Tree, rs: seq<Request>, i: nat, block: int)
    decreases |rs|
  {
    rs == [] || (Valid(t, rs[0]) && Leaves(t, rs[0], i, block) && Quiet(Step(t, rs[0]).0, rs[1..], i, block))
  }

  /** File `i` is a regular file whose block holds these bytes. */
  predicate Keeps(t: Tree, i: nat, block: nat, buffer: Bytes) {
    Has(t, i) && t[i].value.typ == REGULAR && block < SLOTS && t[i].value.slots[block] == Some(Data(buffer))
  }

  lemma StepKeeps(t: Tree, r: Request, i: nat, block: nat, buffer: Bytes)
    requires Shaped(t) && Valid(t, r) && Leaves(t, r, i, block) && Keeps(t, i, block, buffer)
    ensures Keeps(Step(t, r).0, i, block, buffer)
  {
    if r.Write? && r.inum == i {
    } else if (r.Creat? || r.Unlink?) && r.pinum == i {
      assert !IsDir(t, i);
    } else {
      OthersUntouched(t, r, i);
    }
  }

  lemma {:induction false} RunKeeps(t: Tree, rs: seq<Request>, i: nat, block: nat, buffer: Bytes)
    requires Shaped(t) && Quiet(t, rs, i, block) && Keeps(t, i, block, buffer)
    ensures Keeps(After(t, rs), i, block, buffer)
    decreases |rs|
  {
    hide Step, Valid, Leaves, Shaped, Keeps;
    if rs != [] {
      StepKeeps(t, rs[0], i, block, buffer);
      StepShaped(t, rs[0]);
      RunKeeps(Step(t, rs[0]).0, rs[1..], i, block, buffer);
    }
  }

  /** A successful write, any valid requests that leave that block alone, then a read: the
      bytes written come back. */
  lemma ReadsLastWrite(t: Tree, i: nat, block: nat, buffer: Bytes, rs: seq<Request>)
    requires Shaped(t) && Valid(t, Write(i, buffer, block)) && Step(t, Write(i, buffer, block)).1 == Code(0)
    requires Quiet(Step(t, Write(i, buffer, block)).0, rs, i, block)
    ensures var t' := After(Step(t, Write(i, buffer, block)).0, rs);
      Valid(t', Read(i, block)) && Step(t', Read(i, block)) == (t', Reply(0, None, Some(buffer)))
  {
    var t1 := Step(t, Write(i, buffer, block)).0;
    StepShaped(t, Write(i, buffer, block));
    assert Keeps(t1, i, block, buffer);
    RunKeeps(t1, rs, i, block, buffer);
  }

  /** After a successful creat the name is found; when it is new, at the least free number, where
      a fresh file or directory now is. */
  lemma CreatedIsFound(t: Tree, pinum: nat, typ: int, name: string)
    requires Shaped(t) && Valid(t, Creat(pinum, typ, name)) && Step(t, Creat(pinum, typ, name)).1 == Code(0)
    ensures var t1 := Step(t, Creat(pinum, typ, name)).0;
      && IsDir(t, pinum) && IsDir(t1, pinum) && FindName(t1, pinum, name) != -1
      && (FindName(t, pinum, name) != -1 ==> t1 == t)
      && (FindName(t, pinum, name) == -1 ==>
            FreeInode(t, 0).Some? && FindName(t1, pinum, name) == FreeInode(t, 0).value
            && t1[FreeInode(t, 0).value] == Some(NewObject(typ, FreeInode(t, 0).value, pinum)))
  {
    if FindName(t, pinum, name) == -1 {
      var p := t[pinum].value;
      var inum, place := FreeInode(t, 0).value, FreePlace(p.slots, 0).value;
      FreePlaceFits(p.slots, 0);
      assert ObjectShaped(p);
      CreatedFound(p, place, inum, name);
      assert Step(t, Creat(pinum, typ, name)).0[pinum].value == ParentWith(p, place, inum, name);
    }
  }

  /** After a successful unlink in a directory the name is not found, and its inode is unused. */
  lemma UnlinkedIsGone(t: Tree, pinum: nat, name: string)
    requires Shaped(t) && Valid(t, Unlink(pinum, name)) && Step(t, Unlink(pinum, name)).1 == Code(0)
    ensures var t1 := Step(t, Unlink(pinum, name)).0;
      && IsDir(t, pinum) && IsDir(t1, pinum) && FindName(t1, pinum, name) < 0
      && (FindName(t, pinum, name) >= 0 ==> FindName(t, pinum, name) < |t1| && t1[FindName(t, pinum, name)].None?)
  {
    var t1 := Step(t, Unlink(pinum, name)).0;
    if t1 != t {
      if FindName(t, pinum, name) == pinum {
        NotItself(t, pinum, name);
      }
      var p := t[pinum].value;
      ClearedNowhere(p.slots[0].value, name, 0);
      FindNothing(t1[pinum].value.slots, name, 0);
    }
  }

  // ---------- what each request does, in plain terms ----------

  /** Block `b` is in use and its entry `j` has this name. */
  predicate Entry(o: Object, b: nat, j: nat, name: string) {
    b < 14 && j < 128 && b < |o.slots| && o.slots[b].Some? && o.slots[b].value.Entries?
    && j < |o.slots[b].value.inums| && j < |o.slots[b].value.names| && o.slots[b].value.names[j] == name
  }

  /** The search of a block stops at the first entry with the name. */
  lemma {:induction false} EntryOfFirst(c: Content, name: string, j: nat)
    requires c.Entries? && |c.inums| == |c.names| && j <= |c.names|
    ensures EntryOf(c, name, j).None? ==> forall e :: j <= e < |c.names| ==> c.names[e] != name
    ensures EntryOf(c, name, j).Some? ==> j <= EntryOf(c, name, j).value < |c.names|
    ensures EntryOf(c, name, j).Some? ==> forall e :: j <= e < EntryOf(c, name, j).value ==> c.names[e] != name
    decreases |c.names| - j
  {
    if j < |c.names| && c.names[j] != name {
      EntryOfFirst(c, name, j + 1);
    }
  }

  /** No entry with the name comes before entry `j` of block `b`. */
  ghost predicate First(o: Object, b: nat, j: nat, name: string) {
    forall a, i :: 0 <= a < 14 && 0 <= i < 128 && (a < b || (a == b && i < j)) ==> !Entry(o, a, i, name)
  }

  lemma NoneInBlock(o: Object, a: nat, name: string)
    requires ObjectShaped(o) && o.typ == DIRECTORY && a < 14 && o.slots[a].Some? && forall i :: 0 <= i < 128 ==> !Entry(o, a, i, name)
    ensures EntryOf(o.slots[a].value, name, 0).None?
  {
    var c := o.slots[a].value;
    assert ContentShaped(o.typ, c);
    EntryOfFirst(c, name, 0);
    if EntryOf(c, name, 0).Some? {
      assert Entry(o, a, EntryOf(c, name, 0).value, name);
    }
  }

  lemma FirstInBlock(o: Object, b: nat, j: nat, name: string)
    requires ObjectShaped(o) && o.typ == DIRECTORY && Entry(o, b, j, name) && First(o, b, j, name)
    ensures EntryOf(o.slots[b].value, name, 0) == Some(j)
  {
    var c := o.slots[b].value;
    assert ContentShaped(o.typ, c);
    EntryOfFirst(c, name, 0);
    if EntryOf(c, name, 0).Some? {
      assert Entry(o, b, EntryOf(c, name, 0).value, name);
    }
  }

  /** A lookup answers with the number in the first entry of that name, over the blocks in order. */
  lemma LookupFinds(t: Tree, pinum: nat, name: string, b: nat, j: nat)
    requires Shaped(t) && IsDir(t, pinum) && Entry(t[pinum].value, b, j, name) && First(t[pinum].value, b, j, name)
    ensures Step(t, Lookup(pinum, name)).1 == Reply(t[pinum].value.slots[b].value.inums[j], None, None)
  {
    var o := t[pinum].value;
    assert ObjectShaped(o);
    FirstInBlock(o, b, j, name);
    forall a | 0 <= a < b && o.slots[a].Some?
      ensures EntryOf(o.slots[a].value, name, 0).None?
    {
      NoneInBlock(o, a, name);
    }
    FoundAt(o.slots, name, 0, b, j);
  }

  /** Without such an entry it answers -1. */
  lemma LookupMisses(t: Tree, pinum: nat, name: string)
    requires Shaped(t) && IsDir(t, pinum) && forall b, j :: 0 <= b < 14 && 0 <= j < 128 ==> !Entry(t[pinum].value, b, j, name)
    ensures Step(t, Lookup(pinum, name)).1 == Reply(-1, None, None)
  {
    var o := t[pinum].value;
    assert ObjectShaped(o);
    forall a | 0 <= a < 14 && o.slots[a].Some?
      ensures EntryOf(o.slots[a].value, name, 0).None?
    {
      NoneInBlock(o, a, name);
    }
    FindNothing(o.slots, name, 0);
  }

  /** The name goes, and nothing else of the directory. */
  predicate NameGone(p: Object, p': Object, name: string) {
    && p'.typ == p.typ && p'.size == p.size && |p'.slots| == |p.slots| == 14
    && (forall b :: 1 <= b < 14 ==> p'.slots[b] == p.slots[b])
    && p.slots[0].Some? && p.slots[0].value.Entries? && p'.slots[0].Some? && p'.slots[0].value.Entries?
    && |p.slots[0].value.inums| == |p.slots[0].value.names| == 128
    && |p'.slots[0].value.inums| == |p'.slots[0].value.names| == 128
    && forall j :: 0 <= j < 128 ==>
         var c, c' := p.slots[0].value, p'.slots[0].value;
         if c.names[j] == name then c'.inums[j] == -1 && c'.names[j] == "DNE"
         else c'.inums[j] == c.inums[j] && c'.names[j] == c.names[j]
  }

  /** Removing a name that is found succeeds exactly when it names a regular file, or a directory
      with nothing but its first two entries; then the name and the inode are gone, and nothing
      else is. A refusal changes nothing. */
  lemma UnlinkExactly(t: Tree, pinum: nat, name: string)
    requires Shaped(t) && Valid(t, Unlink(pinum, name)) && IsDir(t, pinum)
    requires 0 <= Step(t, Lookup(pinum, name)).1.inum
    ensures var inum := Step(t, Lookup(pinum, name)).1.inum;
      var (t1, r) := Step(t, Unlink(pinum, name));
      && inum < |t| == |t1| == 4096 && t[inum].Some? && |t[inum].value.slots| == 14
      && (t[inum].value.typ != 1 ==> t[inum].value.slots[0].Some? && t[inum].value.slots[0].value.Entries?
                                     && |t[inum].value.slots[0].value.inums| == 128)
      && (r == Reply(0, None, None)
          <==> t[inum].value.typ == 1 || forall j :: 2 <= j < 128 ==> t[inum].value.slots[0].value.inums[j] == -1)
      && (r != Reply(0, None, None) ==> r == Reply(-1, None, None) && t1 == t)
      && (r == Reply(0, None, None) ==>
            inum != pinum && t1[inum].None? && t1[pinum].Some? && NameGone(t[pinum].value, t1[pinum].value, name)
            && forall i :: 0 <= i < 4096 && i != inum && i != pinum ==> t1[i] == t[i])
  {
    var inum := FindName(t, pinum, name);
    assert ObjectShaped(t[inum].value) && ObjectShaped(t[pinum].value);
    if inum == pinum {
      NotItself(t, pinum, name);
    }
  }

  /** Removing a name that is not there succeeds and changes nothing; so does nothing in a place
      that is no directory, with -1. */
  lemma UnlinkOtherwise(t: Tree, pinum: int, name: string)
    requires Shaped(t) && Valid(t, Unlink(pinum, name))
    ensures pinum < 0 || pinum >= 4096 || !IsDir(t, pinum) ==> Step(t, Unlink(pinum, name)) == (t, Reply(-1, None, None))
    ensures IsDir(t, pinum) && Step(t, Lookup(pinum, name)).1.inum < 0 ==>
              Step(t, Unlink(pinum, name)) == (t, Reply(0, None, None))
  {
    if IsDir(t, pinum) {
      assert ObjectShaped(t[pinum].value);
    }
  }

  /** A write succeeds exactly for a regular file and a block number from 0 to 13; it replaces that
      block, makes the file long enough for it, and changes nothing else. */
  lemma WriteExactly(t: Tree, inum: int, buffer: Bytes, block: int)
    requires Shaped(t) && Valid(t, Write(inum, buffer, block))
    ensures var (t1, r) := Step(t, Write(inum, buffer, block));
      && (r == Reply(0, None, None) <==> 0 <= inum < 4096 && t[inum].value.typ == 1 && 0 <= block <= 13)
      && (r != Reply(0, None, None) ==> r == Reply(-1, None, None) && t1 == t)
      && (r == Reply(0, None, None) ==>
            && |t1| == 4096 && t1[inum].Some? && t1[inum].value.typ == 1 && |t1[inum].value.slots| == 14
            && t1[inum].value.slots[block] == Some(Data(buffer))
            && (forall b :: 0 <= b < 14 && b != block ==> t1[inum].value.slots[b] == t[inum].value.slots[b])
            && t1[inum].value.size == (if t[inum].value.size < 4096 * block + 4096 then 4096 * block + 4096 else t[inum].value.size)
            && forall i :: 0 <= i < 4096 && i != inum ==> t1[i] == t[i])
  {
  }

  /** What is read and what stat tells are the block and the fields of that file. */
  lemma ReadStatExactly(t: Tree, inum: int, block: int)
    requires Shaped(t)
    ensures Valid(t, Stat(inum)) ==>
              Step(t, Stat(inum)) == (t, if 0 <= inum < 4096 then Reply(0, Some((t[inum].value.typ, t[inum].value.size)), None)
                                         else Reply(-1, None, None))
    ensures Valid(t, Read(inum, block)) && 0 <= inum < 4096 && 0 <= block <= 13 ==>
              t[inum].value.slots[block].Some? && t[inum].value.slots[block].value.Data?
              && Step(t, Read(inum, block)) == (t, Reply(0, None, Some(t[inum].value.slots[block].value.bytes)))
    ensures Valid(t, Read(inum, block)) && !(0 <= inum < 4096 && 0 <= block <= 13) ==>
              Step(t, Read(inum, block)) == (t, Reply(-1, None, None))
  {
    if Has(t, inum) {
      assert ObjectShaped(t[inum].value);
    }
  }

  /** Block `b` of the directory is unused, or has an entry without an inode. */
  predicate Room(o: Object, b: nat) {
    b < |o.slots|
    && (o.slots[b].None?
        || (o.slots[b].value.Entries? && exists j :: 0 <= j < |o.slots[b].value.inums| && o.slots[b].value.inums[j] == -1))
  }

  lemma {:induction false} FreeEntryExactly(c: Content, j: nat)
    requires c.Entries? && |c.inums| == |c.names| && j <= |c.inums|
    ensures FreeEntry(c, j).Some? <==> exists e :: j <= e < |c.inums| && c.inums[e] == -1
    decreases |c.inums| - j
  {
    if j < |c.inums| && c.inums[j] != -1 {
      FreeEntryExactly(c, j + 1);
    }
  }

  lemma {:induction false} FreePlaceExactly(o: Object, b: nat)
    requires ObjectShaped(o) && o.typ == DIRECTORY && b <= 14
    ensures FreePlace(o.slots, b).Some? <==> exists a :: b <= a < 14 && Room(o, a)
    decreases 14 - b
  {
    if b < 14 {
      FreePlaceExactly(o, b + 1);
      if o.slots[b].Some? {
        assert ContentShaped(o.typ, o.slots[b].value);
        FreeEntryExactly(o.slots[b].value, 0);
      }
      assert Room(o, b) <==> o.slots[b].None? || FreeEntry(o.slots[b].value, 0).Some?;
      if FreePlace(o.slots, b).Some? && !Room(o, b) {
        var a :| b + 1 <= a < 14 && Room(o, a);
        assert b <= a < 14 && Room(o, a);
      }
    }
  }

  lemma {:induction false} FreeInodeExactly(t: Tree, i: nat)
    requires i <= |t|
    ensures FreeInode(t, i).None? ==> forall j :: i <= j < |t| ==> t[j].Some?
    ensures FreeInode(t, i).Some? ==> forall j :: i <= j < FreeInode(t, i).value ==> t[j].Some?
    decreases |t| - i
  {
    if i < |t| && t[i].Some? {
      FreeInodeExactly(t, i + 1);
    }
  }

  /** Every entry that names an inode is still there. */
  predicate EntriesKept(p: Object, p': Object) {
    && p'.typ == p.typ && |p'.slots| == |p.slots| == 14
    && forall b :: 0 <= b < 14 && p.slots[b].Some? && p.slots[b].value.Entries? ==> BlockKept(p.slots[b].value, p'.slots[b])
  }

  predicate BlockKept(c: Content, slot: Option<Content>)
    requires c.Entries?
  {
    slot.Some? && slot.value.Entries? && |slot.value.inums| == |c.inums| && |slot.value.names| == |c.names|
    && forall j :: 0 <= j < |c.inums| && j < |c.names| && c.inums[j] != -1 ==>
         slot.value.inums[j] == c.inums[j] && slot.value.names[j] == c.names[j]
  }

  /** A fresh file is empty; a fresh directory is one block holding itself and its parent. */
  predicate Fresh(o: Object, typ: int, inum: int, pinum: int) {
    && o.typ == typ && |o.slots| == 14 && (forall b :: 1 <= b < 14 ==> o.slots[b].None?)
    && if typ == 0 then
         && o.size == 4096 && o.slots[0].Some? && o.slots[0].value.Entries?
         && |o.slots[0].value.inums| == |o.slots[0].value.names| == 128
         && o.slots[0].value.inums[0] == inum && o.slots[0].value.names[0] == "."
         && o.slots[0].value.inums[1] == pinum && o.slots[0].value.names[1] == ".."
         && forall j :: 2 <= j < 128 ==> o.slots[0].value.inums[j] == -1
       else o.size == 0 && o.slots[0].None?
  }

  /** Creating a name that is not there yet succeeds exactly when some inode number is unused and
      the directory has room; the least unused number is taken, and nothing but the new entry and
      the new inode is different. */
  lemma CreatExactly(t: Tree, pinum: nat, typ: int, name: string)
    requires Shaped(t) && Valid(t, Creat(pinum, typ, name)) && IsDir(t, pinum)
    requires Step(t, Lookup(pinum, name)).1.inum == -1
    ensures var (t1, r) := Step(t, Creat(pinum, typ, name));
      && (r == Reply(0, None, None)
          <==> (exists i :: 0 <= i < |t| && t[i].None?) && exists b :: 0 <= b < 14 && Room(t[pinum].value, b))
      && (r != Reply(0, None, None) ==> r == Reply(-1, None, None) && t1 == t)
      && (r == Reply(0, None, None) ==>
            var i := Step(t1, Lookup(pinum, name)).1.inum;
            && 0 <= i < |t1| == 4096 && t[i].None? && (forall j :: 0 <= j < i ==> t[j].Some?)
            && t1[i].Some? && Fresh(t1[i].value, typ, i, pinum)
            && t1[pinum].Some? && EntriesKept(t[pinum].value, t1[pinum].value)
            && forall j :: 0 <= j < 4096 && j != i && j != pinum ==> t1[j] == t[j])
  {
    var p := t[pinum].value;
    assert ObjectShaped(p);
    FreeInodeExactly(t, 0);
    FreePlaceExactly(p, 0);
    FreePlaceFits(p.slots, 0);
    if FreeInode(t, 0).Some? {
      assert t[FreeInode(t, 0).value].None?;
    }
    if FreeInode(t, 0).Some? && FreePlace(p.slots, 0).Some? {
      CreatedIsFound(t, pinum, typ, name);
      ParentKept(p, FreePlace(p.slots, 0).value, FreeInode(t, 0).value, name);
      FreshObject(typ, FreeInode(t, 0).value, pinum);
    }
  }

  lemma ParentKept(p: Object, b: nat, inum: int, name: string)
    requires ObjectShaped(p) && p.typ == DIRECTORY && b < 14
    requires p.slots[b].Some? ==> FreeEntry(p.slots[b].value, 0).Some?
    ensures EntriesKept(p, ParentWith(p, b, inum, name))
  {
  }

  lemma FreshObject(typ: int, inum: int, pinum: int)
    requires typ == DIRECTORY || typ == REGULAR
    ensures Fresh(NewObject(typ, inum, pinum), typ, inum, pinum)
  {
  }

  /** Creating a name that is there succeeds and changes nothing; in a place that is no directory it fails. */
  lemma CreatOtherwise(t: Tree, pinum: int, typ: int, name: string)
    requires Shaped(t) && Valid(t, Creat(pinum, typ, name))
    ensures pinum < 0 || pinum >= 4096 || !IsDir(t, pinum) ==> Step(t, Creat(pinum, typ, name)) == (t, Reply(-1, None, None))
    ensures IsDir(t, pinum) && Step(t, Lookup(pinum, name)).1.inum != -1 ==>
              Step(t, Creat(pinum, typ, name)) == (t, Reply(0, None, None))
  {
  }
}
