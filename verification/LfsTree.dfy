/** The log-structured file server seen from its clients: a table of files and directories,
    without block addresses. Every request is described here once; repeating it changes nothing. */
module LfsTree {
  import opened Options

  const MAXINODES: nat := 4096
  const SLOTS: nat := 14
  const PER_BLOCK: nat := 128
  const BLOCKSIZE: int := 4096
  const DIRECTORY: int := 0
  const REGULAR: int := 1

  type Bytes = seq<bv8>

  /** The content of one block of a file or of a directory. */
  datatype Content =
    | Data(bytes: Bytes)
    | Entries(inums: seq<int>, names: seq<string>)

  datatype Object = Object(typ: int, size: int, slots: seq<Option<Content>>)

  type Tree = seq<Option<Object>>

  datatype Request =
    | Lookup(pinum: int, name: string)
    | Stat(inum: int)
    | Write(inum: int, buffer: Bytes, block: int)
    | Read(inum: int, block: int)
    | Creat(pinum: int, typ: int, name: string)
    | Unlink(pinum: int, name: string)

  /** What a response packet carries back: `inum`, and the fields that a call fills in. */
  datatype Reply = Reply(inum: int, stat: Option<(int, int)>, buffer: Option<Bytes>)

  function Code(c: int): Reply {
    Reply(c, None, None)
  }

  predicate Shaped(t: Tree) {
    |t| == MAXINODES && forall i :: 0 <= i < |t| && t[i].Some? ==> ObjectShaped(t[i].value)
  }

  predicate ObjectShaped(o: Object) {
    |o.slots| == SLOTS && (o.typ == DIRECTORY || o.typ == REGULAR)
    && (o.typ == DIRECTORY ==> o.slots[0].Some? && o.slots[0].value.Entries? && DotsFirst(o.slots[0].value))
    && forall b :: 0 <= b < |o.slots| && o.slots[b].Some? ==> ContentShaped(o.typ, o.slots[b].value)
  }

  /** The first block of a directory begins with "." and "..". */
  predicate DotsFirst(c: Content)
    requires c.Entries?
  {
    |c.inums| == |c.names| == PER_BLOCK && c.names[0] == "." && c.names[1] == ".." && c.inums[0] >= 0 && c.inums[1] >= 0
  }

  /** Directory blocks have 128 entries, and an unused entry is called "DNE". */
  predicate ContentShaped(typ: int, c: Content) {
    if typ == DIRECTORY then c.Entries? && EntriesShaped(c.inums, c.names) else c.Data?
  }

  predicate EntriesShaped(inums: seq<int>, names: seq<string>) {
    |inums| == |names| == PER_BLOCK && forall j :: 0 <= j < PER_BLOCK && inums[j] == -1 ==> names[j] == "DNE"
  }

  // ---------- looking up ----------

  predicate OutOfRange(i: int) {
    i < 0 || i >= MAXINODES
  }

  predicate Has(t: Tree, i: int) {
    0 <= i < |t| && t[i].Some? && |t[i].value.slots| == SLOTS
  }

  predicate IsDir(t: Tree, i: int) {
    Has(t, i) && t[i].value.typ == DIRECTORY
  }

  /** The first entry of a block with this name, from `j` on. */
  function EntryOf(c: Content, name: string, j: nat): (r: Option<nat>)
    ensures r.Some? ==> c.Entries? && r.value < |c.inums| && r.value < |c.names| && c.names[r.value] == name
    decreases if c.Entries? then |c.inums| - j else 0
  {
    if c.Data? || j >= |c.inums| || j >= |c.names| then None
    else if c.names[j] == name then Some(j)
    else EntryOf(c, name, j + 1)
  }

  /** The inode number of `name` in the blocks from `b` on; -1 if there is none. */
  function FindIn(slots: seq<Option<Content>>, name: string, b: nat): int
    decreases |slots| - b
  {
    if b >= |slots| then -1
    else if slots[b].Some? && EntryOf(slots[b].value, name, 0).Some? then
      slots[b].value.inums[EntryOf(slots[b].value, name, 0).value]
    else FindIn(slots, name, b + 1)
  }

  function FindName(t: Tree, pinum: int, name: string): int
    requires Has(t, pinum)
  {
    FindIn(t[pinum].value.slots, name, 0)
  }

  // ---------- making entries ----------

  function FreeEntry(c: Content, j: nat): (r: Option<nat>)
    ensures r.Some? ==> c.Entries? && r.value < |c.inums| && r.value < |c.names| && c.inums[r.value] == -1
    decreases if c.Entries? then |c.inums| - j else 0
  {
    if c.Data? || j >= |c.inums| || j >= |c.names| then None
    else if c.inums[j] == -1 then Some(j)
    else FreeEntry(c, j + 1)
  }

  /** The first block, from `b` on, that is unused or has a free entry. */
  function FreePlace(slots: seq<Option<Content>>, b: nat): (r: Option<nat>)
    ensures r.Some? ==> r.value < |slots|
    decreases |slots| - b
  {
    if b >= |slots| then None
    else if slots[b].None? || FreeEntry(slots[b].value, 0).Some? then Some(b)
    else FreePlace(slots, b + 1)
  }

  /** The least inode number not in use. */
  function FreeInode(t: Tree, i: nat): (r: Option<nat>)
    ensures r.Some? ==> i <= r.value < |t| && t[r.value].None?
    decreases |t| - i
  {
    if i >= |t| then None else if t[i].None? then Some(i) else FreeInode(t, i + 1)
  }

  function EmptyEntries(): Content {
    Entries(seq(PER_BLOCK, _ => -1), seq(PER_BLOCK, _ => "DNE"))
  }

  function FirstEntries(inum: int, pinum: int): Content {
    Entries(seq(PER_BLOCK, _ => -1)[0 := inum][1 := pinum], seq(PER_BLOCK, _ => "DNE")[0 := "."][1 := ".."])
  }

  function NoSlots(): seq<Option<Content>> {
    seq(SLOTS, _ => None)
  }

  function NewObject(typ: int, inum: int, pinum: int): Object {
    if typ == DIRECTORY then Object(typ, BLOCKSIZE, NoSlots()[0 := Some(FirstEntries(inum, pinum))])
    else Object(typ, 0, NoSlots())
  }

  function WithEntry(c: Content, e: nat, inum: int, name: string): Content
    requires c.Entries? && e < |c.inums| && e < |c.names|
  {
    Entries(c.inums[e := inum], c.names[e := name])
  }

  /** The parent directory with the new entry; a new block makes it larger. */
  function ParentWith(p: Object, b: nat, inum: int, name: string): Object
    requires b < |p.slots|
    requires p.slots[b].Some? ==> FreeEntry(p.slots[b].value, 0).Some?
  {
    if p.slots[b].Some? then
      var e := FreeEntry(p.slots[b].value, 0).value;
      p.(slots := p.slots[b := Some(WithEntry(p.slots[b].value, e, inum, name))])
    else
      p.(size := p.size + BLOCKSIZE, slots := p.slots[b := Some(WithEntry(EmptyEntries(), 0, inum, name))])
  }

  lemma {:induction false} FreePlaceFits(slots: seq<Option<Content>>, b: nat)
    ensures var r := FreePlace(slots, b); r.Some? && slots[r.value].Some? ==> FreeEntry(slots[r.value].value, 0).Some?
    decreases |slots| - b
  {
    if b < |slots| && !(slots[b].None? || FreeEntry(slots[b].value, 0).Some?) {
      FreePlaceFits(slots, b + 1);
    }
  }

  function DoCreat(t: Tree, pinum: int, typ: int, name: string): (Tree, Reply) {
    if OutOfRange(pinum) || !IsDir(t, pinum) then (t, Code(-1))
    else if FindName(t, pinum, name) != -1 then (t, Code(0))
    else
      var inum, place := FreeInode(t, 0), FreePlace(t[pinum].value.slots, 0);
      if inum.None? || place.None? then (t, Code(-1))
      else
        FreePlaceFits(t[pinum].value.slots, 0);
        (t[pinum := Some(ParentWith(t[pinum].value, place.value, inum.value, name))]
          [inum.value := Some(NewObject(typ, inum.value, pinum))], Code(0))
  }

  // ---------- writing and removing ----------

  function Max(a: int, b: int): int {
    if a > b then a else b
  }

  function DoWrite(t: Tree, inum: int, buffer: Bytes, block: int): (Tree, Reply) {
    if OutOfRange(inum) || !Has(t, inum) || t[inum].value.typ != REGULAR || block < 0 || block > 13 then (t, Code(-1))
    else
      var o := t[inum].value;
      (t[inum := Some(o.(size := Max(o.size, (block + 1) * BLOCKSIZE), slots := o.slots[block := Some(Data(buffer))]))], Code(0))
  }

  /** Entries with this name become unused. */
  function ClearName(c: Content, name: string): (r: Content)
    requires c.Entries? && |c.inums| == |c.names|
    ensures r.Entries? && |r.inums| == |r.names| == |c.names|
    ensures forall j :: 0 <= j < |c.names| ==> r.inums[j] == (if c.names[j] == name then -1 else c.inums[j])
                                                && r.names[j] == (if c.names[j] == name then "DNE" else c.names[j])
  {
    Entries(seq(|c.inums|, j requires 0 <= j < |c.inums| => if c.names[j] == name then -1 else c.inums[j]),
            seq(|c.names|, j requires 0 <= j < |c.names| => if c.names[j] == name then "DNE" else c.names[j]))
  }

  /** A directory whose first block has entries besides "." and "..". */
  predicate Occupied(o: Object) {
    o.typ != REGULAR && |o.slots| == SLOTS && o.slots[0].Some? && o.slots[0].value.Entries?
    && exists j :: 2 <= j < |o.slots[0].value.inums| && o.slots[0].value.inums[j] != -1
  }

  predicate FirstBlockIsEntries(o: Object) {
    |o.slots| > 0 && o.slots[0].Some? && o.slots[0].value.Entries?
    && |o.slots[0].value.inums| == |o.slots[0].value.names|
  }

  function DoUnlink(t: Tree, pinum: int, name: string): (Tree, Reply) {
    if OutOfRange(pinum) || !IsDir(t, pinum) || !FirstBlockIsEntries(t[pinum].value) then (t, Code(-1))
    else
      var inum := FindName(t, pinum, name);
      if inum < 0 then (t, Code(0))
      else if !Has(t, inum) || Occupied(t[inum].value) then (t, Code(-1))
      else
        var p := t[pinum].value;
        (t[pinum := Some(p.(slots := p.slots[0 := Some(ClearName(p.slots[0].value, name))]))][inum := None], Code(0))
  }

  function DoRead(t: Tree, inum: int, block: int): Reply {
    if OutOfRange(inum) || !Has(t, inum) || block < 0 || block > 13 then Code(-1)
    else
      var c := t[inum].value.slots[block];
      if c.Some? && c.value.Data? then Reply(0, None, Some(c.value.bytes)) else Code(0)
  }

  function DoStat(t: Tree, inum: int): Reply {
    if OutOfRange(inum) || !Has(t, inum) then Code(-1)
    else Reply(0, Some((t[inum].value.typ, t[inum].value.size)), None)
  }

  /** One request, once. */
  function Step(t: Tree, r: Request): (Tree, Reply) {
    match r
    case Lookup(pinum, name) => (t, Code(if OutOfRange(pinum) || !Has(t, pinum) then -1 else FindName(t, pinum, name)))
    case Stat(inum) => (t, DoStat(t, inum))
    case Write(inum, buffer, block) => DoWrite(t, inum, buffer, block)
    case Read(inum, block) => (t, DoRead(t, inum, block))
    case Creat(pinum, typ, name) => DoCreat(t, pinum, typ, name)
    case Unlink(pinum, name) => DoUnlink(t, pinum, name)
  }

  /** Only the first block of the directory is in use. */
  predicate SingleBlock(o: Object) {
    FirstBlockIsEntries(o) && forall b :: 0 < b < |o.slots| ==> o.slots[b].None?
  }

  /** The requests the server is made for: inode numbers that are out of range or in use, known
      file types, blocks that were written, names other than ".", ".." and "DNE", and no removal
      from a directory that has grown beyond one block. */
  predicate Valid(t: Tree, r: Request) {
    match r
    case Lookup(pinum, name) => OutOfRange(pinum) || IsDir(t, pinum)
    case Stat(inum) => OutOfRange(inum) || Has(t, inum)
    case Write(inum, buffer, block) => OutOfRange(inum) || Has(t, inum)
    case Read(inum, block) =>
      OutOfRange(inum) || (Has(t, inum) && (block < 0 || block > 13 || (t[inum].value.typ == REGULAR && t[inum].value.slots[block].Some?)))
    case Creat(pinum, typ, name) =>
      (OutOfRange(pinum) || Has(t, pinum)) && (typ == DIRECTORY || typ == REGULAR) && name != "DNE" && name != "." && name != ".."
    case Unlink(pinum, name) =>
      && (OutOfRange(pinum)
          || (Has(t, pinum) && (IsDir(t, pinum) ==> SingleBlock(t[pinum].value)
                                                    && (FindName(t, pinum, name) < 0 || Has(t, FindName(t, pinum, name))))))
      && name != "DNE" && name != "." && name != ".."
  }

  // ---------- once is as good as twice ----------

  lemma {:induction false} EntryOfWith(c: Content, e: nat, inum: int, name: string, j: nat)
    requires c.Entries? && EntriesShaped(c.inums, c.names) && e < PER_BLOCK && j <= e && name != "DNE"
    requires EntryOf(c, name, j).None?
    ensures EntryOf(WithEntry(c, e, inum, name), name, j) == Some(e)
    decreases e - j
  {
    if j < e {
      EntryOfWith(c, e, inum, name, j + 1);
    }
  }

  /** A name with a real number is not found only if it is nowhere. */
  lemma {:induction false} NotFoundNowhere(slots: seq<Option<Content>>, name: string, b: nat, k: nat)
    requires (forall i :: 0 <= i < |slots| && slots[i].Some? ==> ContentShaped(DIRECTORY, slots[i].value))
    requires FindIn(slots, name, b) == -1 && name != "DNE" && b <= k < |slots| && slots[k].Some?
    ensures EntryOf(slots[k].value, name, 0).None?
    decreases k - b
  {
    if b < k {
      NotFoundNowhere(slots, name, b + 1, k);
    }
  }

  lemma {:induction false} FoundAt(slots: seq<Option<Content>>, name: string, b: nat, k: nat, e: nat)
    requires b <= k < |slots| && slots[k].Some? && EntryOf(slots[k].value, name, 0) == Some(e)
    requires forall i :: b <= i < k && slots[i].Some? ==> EntryOf(slots[i].value, name, 0).None?
    ensures FindIn(slots, name, b) == slots[k].value.inums[e]
    decreases k - b
  {
    if b < k {
      FoundAt(slots, name, b + 1, k, e);
    }
  }

  /** After the entry is made, the name is found. */
  lemma CreatedFound(p: Object, b: nat, inum: nat, name: string)
    requires ObjectShaped(p) && p.typ == DIRECTORY && FindIn(p.slots, name, 0) == -1 && name != "DNE" && b < SLOTS
    requires p.slots[b].Some? ==> FreeEntry(p.slots[b].value, 0).Some?
    ensures FindIn(ParentWith(p, b, inum, name).slots, name, 0) == inum
  {
    forall k | 0 <= k < SLOTS && p.slots[k].Some?
      ensures EntryOf(p.slots[k].value, name, 0).None?
    {
      NotFoundNowhere(p.slots, name, 0, k);
    }
    var c := if p.slots[b].Some? then p.slots[b].value else EmptyEntries();
    var e := if p.slots[b].Some? then FreeEntry(c, 0).value else 0;
    if p.slots[b].None? {
      NoneInEmpty(name, 0);
    }
    EntryOfWith(c, e, inum, name, 0);
    FoundAt(ParentWith(p, b, inum, name).slots, name, 0, b, e);
  }

  lemma {:induction false} NoneInEmpty(name: string, j: nat)
    requires name != "DNE"
    ensures EntryOf(EmptyEntries(), name, j).None?
    decreases PER_BLOCK - j
  {
    if j < PER_BLOCK {
      NoneInEmpty(name, j + 1);
    }
  }

  lemma CreatTwice(t: Tree, pinum: int, typ: int, name: string)
    requires Shaped(t) && Valid(t, Creat(pinum, typ, name))
    ensures var (t1, reply) := DoCreat(t, pinum, typ, name); DoCreat(t1, pinum, typ, name) == (t1, reply)
  {
    var (t1, reply) := DoCreat(t, pinum, typ, name);
    if t1 != t {
      var p := t[pinum].value;
      var inum, place := FreeInode(t, 0).value, FreePlace(p.slots, 0).value;
      FreePlaceFits(p.slots, 0);
      assert ObjectShaped(p);
      CreatedFound(p, place, inum, name);
      assert t1[pinum].value == ParentWith(p, place, inum, name);
    }
  }

  lemma {:induction false} ClearedNowhere(c: Content, name: string, j: nat)
    requires c.Entries? && |c.inums| == |c.names| && name != "DNE"
    ensures EntryOf(ClearName(c, name), name, j).None?
    decreases |c.inums| - j
  {
    if j < |c.inums| {
      ClearedNowhere(c, name, j + 1);
    }
  }

  lemma {:induction false} FindNothing(slots: seq<Option<Content>>, name: string, b: nat)
    requires forall i :: b <= i < |slots| && slots[i].Some? ==> EntryOf(slots[i].value, name, 0).None?
    ensures FindIn(slots, name, b) == -1
    decreases |slots| - b
  {
    if b < |slots| {
      FindNothing(slots, name, b + 1);
    }
  }

  /** An entry that leads back to its own directory is "." or "..", or keeps the directory occupied. */
  lemma NotItself(t: Tree, pinum: int, name: string)
    requires Shaped(t) && IsDir(t, pinum) && SingleBlock(t[pinum].value) && name != "." && name != ".."
    requires FindName(t, pinum, name) == pinum
    ensures Occupied(t[pinum].value)
  {
    var p := t[pinum].value;
    assert ObjectShaped(p);
    var c := p.slots[0].value;
    if EntryOf(c, name, 0).None? {
      FindNothing(p.slots, name, 0);
    } else {
      var j := EntryOf(c, name, 0).value;
      assert c.inums[j] == pinum;
    }
  }

  lemma UnlinkTwice(t: Tree, pinum: int, name: string)
    requires Shaped(t) && Valid(t, Unlink(pinum, name))
    ensures var (t1, reply) := DoUnlink(t, pinum, name); DoUnlink(t1, pinum, name) == (t1, reply)
  {
    var (t1, reply) := DoUnlink(t, pinum, name);
    if t1 != t {
      if FindName(t, pinum, name) == pinum {
        NotItself(t, pinum, name);
      }
      var p := t[pinum].value;
      ClearedNowhere(p.slots[0].value, name, 0);
      FindNothing(t1[pinum].value.slots, name, 0);
    }
  }

  /** Any valid request, carried out twice, leaves the same files and gives the same reply as once. */
  lemma TwiceIsOnce(t: Tree, r: Request)
    requires Shaped(t) && Valid(t, r)
    ensures var (t1, reply) := Step(t, r); Step(t1, r) == (t1, reply)
  {
    if r.Creat? {
      CreatTwice(t, r.pinum, r.typ, r.name);
    } else if r.Unlink? {
      UnlinkTwice(t, r.pinum, r.name);
    } else if r.Write? && Step(t, r).0 != t {
      var t1 := Step(t, r).0;
      var o := t1[r.inum].value;
      assert o.slots[r.block := Some(Data(r.buffer))] == o.slots;
      assert DoWrite(t1, r.inum, r.buffer, r.block).0 == t1;
    }
  }

  lemma NewShaped(typ: int, inum: nat, pinum: nat)
    requires typ == DIRECTORY || typ == REGULAR
    ensures ObjectShaped(NewObject(typ, inum, pinum))
  {
  }

  lemma ParentShaped(p: Object, b: nat, inum: nat, name: string)
    requires ObjectShaped(p) && p.typ == DIRECTORY && b < SLOTS
    requires p.slots[b].Some? ==> FreeEntry(p.slots[b].value, 0).Some?
    ensures ObjectShaped(ParentWith(p, b, inum, name))
  {
  }

  lemma ClearedShaped(p: Object, name: string)
    requires ObjectShaped(p) && p.typ == DIRECTORY && name != "." && name != ".."
    ensures ObjectShaped(p.(slots := p.slots[0 := Some(ClearName(p.slots[0].value, name))]))
  {
  }

  /** Requests keep the table in shape. */
  lemma StepShaped(t: Tree, r: Request)
    requires Shaped(t) && Valid(t, r)
    ensures Shaped(Step(t, r).0)
  {
    if Step(t, r).0 != t {
      if r.Creat? {
        var p := t[r.pinum].value;
        assert ObjectShaped(p);
        FreePlaceFits(p.slots, 0);
        NewShaped(r.typ, FreeInode(t, 0).value, r.pinum);
        ParentShaped(p, FreePlace(p.slots, 0).value, FreeInode(t, 0).value, r.name);
      } else if r.Unlink? {
        assert ObjectShaped(t[r.pinum].value);
        ClearedShaped(t[r.pinum].value, r.name);
      } else {
        assert ObjectShaped(t[r.inum].value);
      }
    }
  }

  /** A request touches only what it names: a write changes one block of one file, whatever
      addresses the server gives it. */
  lemma OthersUntouched(t: Tree, r: Request, i: nat)
    requires Shaped(t) && Valid(t, r) && i < |t|
    requires t[i].Some? && !(r.Write? && r.inum == i) && !((r.Creat? || r.Unlink?) && r.pinum == i)
    requires r.Unlink? && IsDir(t, r.pinum) ==> FindName(t, r.pinum, r.name) != i
    ensures Step(t, r).0[i] == t[i]
  {
  }
}
