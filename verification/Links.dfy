/** Link counts: `create`, `link`, `unlink` and the release of inodes, as they change the
    entries of directories and the 16-bit `nlink` fields. */
module Links {

  type Name = string

  const ROOT: nat := 1
  const MAX_LINKS: int := 32767

  datatype Kind = Free | Dir | Plain

  /** `dir` holds the entries of a directory; `refs` counts open files and working directories. */
  datatype Node = Node(kind: Kind, nlink: int, dir: map<Name, nat>, refs: nat)

  /** `pending`: inodes whose count a `link` call has raised before making the entry. */
  datatype State = State(nodes: seq<Node>, pending: multiset<nat>)

  datatype Step =
    | Create(dp: nat, name: Name, kind: Kind, i: nat)
    | LinkBegin(i: nat)
    | LinkEnd(i: nat, dp: nat, name: Name)
    | LinkUndo(i: nat)
    | Unlink(dp: nat, name: Name)
    | Open(i: nat)
    | Close(i: nat)

  /** `nlink` is a 16-bit signed field. */
  function Inc(n: int): int {
    if n == MAX_LINKS then -MAX_LINKS - 1 else n + 1
  }

  function Dec(n: int): int {
    if n == -MAX_LINKS - 1 then MAX_LINKS else n - 1
  }

  predicate Allocated(s: State, i: nat) {
    i < |s.nodes| && !s.nodes[i].kind.Free?
  }

  predicate IsDir(s: State, d: nat) {
    d < |s.nodes| && s.nodes[d].kind.Dir?
  }

  predicate LinkedDir(s: State, d: nat) {
    IsDir(s, d) && s.nodes[d].nlink != 0
  }

  /** `isdirempty`. */
  predicate Empty(n: Node) {
    forall x :: x in n.dir ==> x == "." || x == ".."
  }

  /** A call that goes through. Parents are linked directories; all other outcomes are the
      error returns, which change nothing. */
  predicate Enabled(s: State, e: Step) {
    match e
    case Create(dp, name, kind, i) =>
      LinkedDir(s, dp) && name !in s.nodes[dp].dir && !kind.Free? && i < |s.nodes| && s.nodes[i].kind.Free?
    case LinkBegin(i) => Allocated(s, i) && !IsDir(s, i)
    case LinkEnd(i, dp, name) => i in s.pending && i < |s.nodes| && LinkedDir(s, dp) && name !in s.nodes[dp].dir
    case LinkUndo(i) => i in s.pending && i < |s.nodes|
    case Unlink(dp, name) =>
      LinkedDir(s, dp) && name != "." && name != ".." && name in s.nodes[dp].dir && Removable(s, s.nodes[dp].dir[name])
    case Open(i) => Allocated(s, i)
    case Close(i) => i < |s.nodes| && s.nodes[i].refs > 0
  }

  predicate Removable(s: State, i: nat) {
    i < |s.nodes| && (IsDir(s, i) ==> Empty(s.nodes[i]))
  }

  function SetNode(s: State, i: nat, n: Node): State
    requires i < |s.nodes|
  {
    s.(nodes := s.nodes[i := n])
  }

  function Raise(s: State, i: nat): State
    requires i < |s.nodes|
  {
    SetNode(s, i, s.nodes[i].(nlink := Inc(s.nodes[i].nlink)))
  }

  function Lower(s: State, i: nat): State
    requires i < |s.nodes|
  {
    SetNode(s, i, s.nodes[i].(nlink := Dec(s.nodes[i].nlink)))
  }

  function Bind(s: State, dp: nat, name: Name, i: nat): State
    requires dp < |s.nodes|
  {
    SetNode(s, dp, s.nodes[dp].(dir := s.nodes[dp].dir[name := i]))
  }

  function Unbind(s: State, dp: nat, name: Name): State
    requires dp < |s.nodes|
  {
    SetNode(s, dp, s.nodes[dp].(dir := s.nodes[dp].dir - {name}))
  }

  /** The end of `iput`: an inode without links or references is truncated and freed. */
  function Put(s: State, i: nat): State
    requires i < |s.nodes|
  {
    if s.nodes[i].nlink == 0 && s.nodes[i].refs == 0 && i !in s.pending then SetNode(s, i, Node(Free, 0, map[], 0))
    else s
  }

  function CreateNext(s: State, dp: nat, name: Name, kind: Kind, i: nat): State
    requires dp < |s.nodes| && i < |s.nodes|
  {
    if kind.Dir? then
      // the new ".." counts for the parent, the new "." for nobody
      Bind(Raise(SetNode(s, i, Node(Dir, 1, map["." := i, ".." := dp], 0)), dp), dp, name, i)
    else
      Bind(SetNode(s, i, Node(kind, 1, map[], 0)), dp, name, i)
  }

  function UnlinkNext(s: State, dp: nat, name: Name): State
    requires dp < |s.nodes| && name in s.nodes[dp].dir && s.nodes[dp].dir[name] < |s.nodes|
  {
    var i := s.nodes[dp].dir[name];
    var s1 := Unbind(s, dp, name);
    Put(Lower(if IsDir(s, i) then Lower(s1, dp) else s1, i), i)
  }

  function Next(s: State, e: Step): State
    requires Enabled(s, e)
  {
    match e
    case Create(dp, name, kind, i) => CreateNext(s, dp, name, kind, i)
    case LinkBegin(i) => Raise(s, i).(pending := s.pending + multiset{i})
    case LinkEnd(i, dp, name) => Put(Bind(s, dp, name, i).(pending := s.pending - multiset{i}), i)
    case LinkUndo(i) => Put(Lower(s, i).(pending := s.pending - multiset{i}), i)
    case Unlink(dp, name) => UnlinkNext(s, dp, name)
    case Open(i) => SetNode(s, i, s.nodes[i].(refs := s.nodes[i].refs + 1))
    case Close(i) => Put(SetNode(s, i, s.nodes[i].(refs := s.nodes[i].refs - 1)), i)
  }

  // ---------- what the counts count ----------

  /** The entry `name` of linked directory `d` counts for inode `i`. */
  predicate Counts(s: State, d: nat, name: Name, i: nat) {
    LinkedDir(s, d) && name in s.nodes[d].dir && s.nodes[d].dir[name] == i && name != "."
  }

  /** The entries, other than ".", that point to an inode from linked directories. */
  ghost function Entries(s: State, i: nat): set<(nat, Name)> {
    set d, name | 0 <= d < |s.nodes| && name in s.nodes[d].dir && Counts(s, d, name, i) :: (d, name)
  }

  /** The count of an inode: its entries and the links being made. */
  ghost predicate CountOk(s: State, i: nat)
    requires i < |s.nodes|
  {
    && s.nodes[i].nlink == |Entries(s, i)| + s.pending[i] <= MAX_LINKS
    && (s.nodes[i].kind.Free? ==> s.nodes[i].nlink == 0 && s.nodes[i].dir == map[])
  }

  /** A directory knows itself and its parent; one without links holds nothing else. */
  ghost predicate DirOk(s: State, d: nat)
    requires d < |s.nodes|
  {
    var n := s.nodes[d];
    if n.kind.Dir? then
      && "." in n.dir && n.dir["."] == d && ".." in n.dir
      && d !in s.pending
      && (n.nlink == 0 ==> Empty(n))
    else n.dir == map[]
  }

  /** The parent of a linked directory other than the root has an entry for it. */
  ghost predicate HasParent(s: State, d: nat)
    requires d < |s.nodes|
  {
    LinkedDir(s, d) && d != ROOT && ".." in s.nodes[d].dir ==>
      exists name :: Names(s, s.nodes[d].dir[".."], name, d)
  }

  /** An ordinary entry: neither "." nor "..". */
  predicate Names(s: State, d: nat, name: Name, i: nat) {
    Counts(s, d, name, i) && name != ".."
  }

  /** An ordinary entry for a directory is its only one, and stands in its parent. */
  ghost predicate OneName(s: State, d: nat, name: Name, i: nat) {
    Names(s, d, name, i) && IsDir(s, i) ==>
      && i != ROOT && ".." in s.nodes[i].dir && s.nodes[i].dir[".."] == d
      && forall name' :: Names(s, d, name', i) ==> name' == name
  }

  ghost predicate Counted(s: State) {
    && IsDir(s, ROOT) && ".." in s.nodes[ROOT].dir && s.nodes[ROOT].dir[".."] == ROOT && s.nodes[ROOT].nlink > 0
    && (forall i :: i in s.pending ==> i < |s.nodes|)
    && (forall i :: 0 <= i < |s.nodes| ==> CountOk(s, i))
    && (forall d :: 0 <= d < |s.nodes| ==> DirOk(s, d) && HasParent(s, d))
    && (forall d: nat, name: Name, i: nat :: Counts(s, d, name, i) ==> i < |s.nodes|)
    && (forall d: nat, name: Name, i: nat :: OneName(s, d, name, i))
  }

  /** An inode is free exactly when nothing refers to it, on disk or in core. */
  ghost predicate Released(s: State) {
    forall i :: 0 <= i < |s.nodes| ==> (s.nodes[i].kind.Free? <==> s.nodes[i].nlink == 0 && s.nodes[i].refs == 0)
  }

  ghost predicate Inv(s: State) {
    Counted(s) && Released(s)
  }

  /** The step raises a count that is already at its limit. */
  predicate Overflows(s: State, e: Step) {
    || (e.LinkBegin? && e.i < |s.nodes| && s.nodes[e.i].nlink == MAX_LINKS)
    || (e.Create? && e.kind.Dir? && e.dp < |s.nodes| && s.nodes[e.dp].nlink == MAX_LINKS)
  }

  // ---------- sets of entries ----------

  lemma EntriesAre(s: State, t: State, i: nat, more: set<(nat, Name)>, less: set<(nat, Name)>)
    requires forall d: nat, name: Name :: Counts(t, d, name, i) <==> (Counts(s, d, name, i) || (d, name) in more) && (d, name) !in less
    ensures Entries(t, i) == Entries(s, i) + more - less
  {
    forall entry: (nat, Name)
      ensures entry in Entries(t, i) <==> entry in Entries(s, i) + more - less
    {
      EntryIn(t, entry.0, entry.1, i);
      EntryIn(s, entry.0, entry.1, i);
    }
  }

  lemma EntriesSame(s: State, t: State, i: nat)
    requires forall d: nat, name: Name :: Counts(t, d, name, i) <==> Counts(s, d, name, i)
    ensures Entries(t, i) == Entries(s, i)
  {
    EntriesAre(s, t, i, {}, {});
  }

  lemma EntryIn(s: State, d: nat, name: Name, i: nat)
    ensures (d, name) in Entries(s, i) <==> Counts(s, d, name, i)
  {
  }

  lemma EntriesGain(s: State, t: State, i: nat, d: nat, name: Name)
    requires !Counts(s, d, name, i)
    requires forall d': nat, name': Name :: Counts(t, d', name', i) <==> Counts(s, d', name', i) || (d' == d && name' == name)
    ensures |Entries(t, i)| == |Entries(s, i)| + 1
  {
    hide Counts;
    EntriesAre(s, t, i, {(d, name)}, {});
    EntryIn(s, d, name, i);
    assert Entries(t, i) == Entries(s, i) + {(d, name)};
  }

  lemma EntriesLose(s: State, t: State, i: nat, d: nat, name: Name)
    requires Counts(s, d, name, i)
    requires forall d': nat, name': Name :: Counts(t, d', name', i) <==> Counts(s, d', name', i) && !(d' == d && name' == name)
    ensures |Entries(t, i)| == |Entries(s, i)| - 1
  {
    hide Counts;
    EntriesAre(s, t, i, {}, {(d, name)});
    EntryIn(s, d, name, i);
    assert Entries(t, i) == Entries(s, i) - {(d, name)};
  }

  /** No entry points to an inode whose count is zero. */
  lemma NoEntries(s: State, i: nat, d: nat, name: Name)
    requires i < |s.nodes| && CountOk(s, i) && s.nodes[i].nlink == 0
    ensures !Counts(s, d, name, i)
  {
    EntryIn(s, d, name, i);
  }

  // ---------- releasing an inode ----------

  /** `i` may be about to be freed; the others are free exactly when nothing refers to them. */
  ghost predicate ReleasedBut(s: State, i: nat)
    requires i < |s.nodes|
  {
    && (forall j :: 0 <= j < |s.nodes| && j != i ==> (s.nodes[j].kind.Free? <==> s.nodes[j].nlink == 0 && s.nodes[j].refs == 0))
    && (s.nodes[i].kind.Free? ==> s.nodes[i].nlink == 0 && s.nodes[i].refs == 0)
  }

  /** Other inodes being right, releasing `i` frees it exactly when nothing refers to it, and all are right. */
  lemma PutKeeps(s: State, i: nat)
    requires Counted(s) && i < |s.nodes|
    ensures Counted(Put(s, i))
    ensures s.nodes[i].nlink == 0 && s.nodes[i].refs == 0 ==> Put(s, i).nodes[i] == Node(Free, 0, map[], 0)
    ensures s.nodes[i].nlink != 0 || s.nodes[i].refs != 0 ==> Put(s, i) == s
    ensures ReleasedBut(s, i) ==> Released(Put(s, i))
  {
    var t := Put(s, i);
    assert CountOk(s, i);
    if t != s {
      forall d: nat, name: Name, j: nat
        ensures Counts(t, d, name, j) <==> Counts(s, d, name, j)
      {
      }
      SameCounts(s, t, i);
    }
  }

  /** Only node `i`, which nothing counts on, has changed. */
  lemma SameCounts(s: State, t: State, i: nat)
    requires Counted(s) && i < |s.nodes| == |t.nodes| && s.nodes[i].nlink == 0 && t.nodes[i] == Node(Free, 0, map[], 0)
    requires t == s.(nodes := t.nodes) && i !in s.pending
    requires forall j :: 0 <= j < |s.nodes| && j != i ==> t.nodes[j] == s.nodes[j]
    requires forall d: nat, name: Name, j: nat :: Counts(t, d, name, j) <==> Counts(s, d, name, j)
    ensures Counted(t)
  {
    forall j | 0 <= j < |t.nodes|
      ensures CountOk(t, j) && DirOk(t, j) && HasParent(t, j)
    {
      EntriesSame(s, t, j);
      assert CountOk(s, j) && DirOk(s, j) && HasParent(s, j);
      if LinkedDir(t, j) && j != ROOT && ".." in t.nodes[j].dir {
        var p := t.nodes[j].dir[".."];
        var name :| Names(s, p, name, j);
        assert Names(t, p, name, j);
      }
    }
    forall d: nat, name: Name, j: nat
      ensures OneName(t, d, name, j)
    {
      assert OneName(s, d, name, j);
      if Names(t, d, name, j) && IsDir(t, j) {
        forall name' | Names(t, d, name', j)
          ensures name' == name
        {
          assert Names(s, d, name', j);
        }
      }
    }
  }

  // ---------- the calls ----------

  /** Entries and kinds stay; node `i` may have another count or number of references. */
  lemma CountMoves(s: State, t: State, i: nat)
    requires Counted(s) && i < |s.nodes| == |t.nodes|
    requires t.nodes[i] == s.nodes[i].(nlink := t.nodes[i].nlink, refs := t.nodes[i].refs)
    requires forall j :: 0 <= j < |s.nodes| && j != i ==> t.nodes[j] == s.nodes[j] && t.pending[j] == s.pending[j]
    requires forall j :: j in t.pending ==> j < |t.nodes|
    requires IsDir(s, i) ==> t.nodes[i].nlink == s.nodes[i].nlink && t.pending[i] == s.pending[i]
    requires t.nodes[i].nlink + s.pending[i] == s.nodes[i].nlink + t.pending[i] && t.nodes[i].nlink <= MAX_LINKS
    requires s.nodes[i].kind.Free? ==> t.nodes[i].nlink == 0
    ensures Counted(t)
  {
    forall d: nat, name: Name, j: nat
      ensures Counts(t, d, name, j) <==> Counts(s, d, name, j)
    {
    }
    forall j | 0 <= j < |t.nodes|
      ensures CountOk(t, j) && DirOk(t, j) && HasParent(t, j)
    {
      EntriesSame(s, t, j);
      assert CountOk(s, j) && DirOk(s, j) && HasParent(s, j);
      if LinkedDir(t, j) && j != ROOT && ".." in t.nodes[j].dir {
        var name :| Names(s, t.nodes[j].dir[".."], name, j);
        assert Names(t, t.nodes[j].dir[".."], name, j);
      }
    }
    forall d: nat, name: Name, j: nat
      ensures OneName(t, d, name, j)
    {
      assert OneName(s, d, name, j);
      if Names(t, d, name, j) && IsDir(t, j) {
        forall name' | Names(t, d, name', j)
          ensures name' == name
        {
          assert Names(s, d, name', j);
        }
      }
    }
  }

  lemma OpenCloseKeep(s: State, e: Step)
    requires Inv(s) && Enabled(s, e) && (e.Open? || e.Close?)
    ensures Inv(Next(s, e))
  {
    var refs := if e.Open? then s.nodes[e.i].refs + 1 else s.nodes[e.i].refs - 1;
    var t := SetNode(s, e.i, s.nodes[e.i].(refs := refs));
    assert CountOk(s, e.i);
    CountMoves(s, t, e.i);
    if e.Close? {
      PutKeeps(t, e.i);
    }
  }

  /** A pending link is to an allocated inode that is no directory. */
  lemma PendingPlain(s: State, i: nat)
    requires Counted(s) && i in s.pending
    ensures i < |s.nodes| && s.nodes[i].kind.Plain? && s.nodes[i].nlink >= 1
  {
    assert CountOk(s, i) && DirOk(s, i);
  }

  lemma LinkBeginExactly(s: State, i: nat)
    requires Inv(s) && Enabled(s, LinkBegin(i))
    ensures Inv(Next(s, LinkBegin(i))) <==> s.nodes[i].nlink != MAX_LINKS
  {
    var t := Next(s, LinkBegin(i));
    assert CountOk(s, i);
    if s.nodes[i].nlink != MAX_LINKS {
      CountMoves(s, t, i);
    } else {
      assert !CountOk(t, i);
    }
  }

  lemma LinkUndoKeeps(s: State, i: nat)
    requires Inv(s) && Enabled(s, LinkUndo(i))
    ensures Inv(Next(s, LinkUndo(i)))
    ensures Next(s, LinkUndo(i)).nodes[i].kind.Free? <==> s.nodes[i].nlink == 1 && s.nodes[i].refs == 0
  {
    PendingPlain(s, i);
    var t := Lower(s, i).(pending := s.pending - multiset{i});
    assert CountOk(s, i);
    CountMoves(s, t, i);
    PutKeeps(t, i);
  }

  /** Ordinary entries for `j` only come from those there were. */
  lemma NameStays(s: State, t: State, d: nat, n: Name, j: nat)
    requires OneName(s, d, n, j)
    requires IsDir(t, j) ==> IsDir(s, j) && forall n' :: Names(t, d, n', j) ==> Names(s, d, n', j)
    requires IsDir(t, j) && ".." in s.nodes[j].dir ==> ".." in t.nodes[j].dir && t.nodes[j].dir[".."] == s.nodes[j].dir[".."]
    ensures OneName(t, d, n, j)
  {
  }

  lemma LinkEndKeeps(s: State, i: nat, dp: nat, name: Name)
    requires Inv(s) && Enabled(s, LinkEnd(i, dp, name))
    ensures Inv(Next(s, LinkEnd(i, dp, name)))
  {
    PendingPlain(s, i);
    var t := Bind(s, dp, name, i).(pending := s.pending - multiset{i});
    assert DirOk(s, dp);
    forall d: nat, n: Name, j: nat
      ensures Counts(t, d, n, j) <==> Counts(s, d, n, j) || (d == dp && n == name && j == i)
    {
    }
    assert !Counts(s, dp, name, i);
    BoundPlain(s, t, i, dp, name);
    PutKeeps(t, i);
  }

  /** One more entry, for an inode that is no directory, in place of a pending link. */
  lemma BoundPlain(s: State, t: State, i: nat, dp: nat, name: Name)
    requires Counted(s) && i in s.pending && i < |s.nodes| && dp < |s.nodes| && s.nodes[i].kind.Plain? && LinkedDir(s, dp)
    requires t == Bind(s, dp, name, i).(pending := s.pending - multiset{i}) && name !in s.nodes[dp].dir
    requires forall d: nat, n: Name, j: nat :: Counts(t, d, n, j) <==> Counts(s, d, n, j) || (d == dp && n == name && j == i)
    requires !Counts(s, dp, name, i) && "." in s.nodes[dp].dir && ".." in s.nodes[dp].dir
    ensures Counted(t)
  {
    forall j | 0 <= j < |t.nodes|
      ensures CountOk(t, j) && DirOk(t, j) && HasParent(t, j)
    {
      assert CountOk(s, j) && DirOk(s, j) && HasParent(s, j);
      if j == i {
        EntriesGain(s, t, i, dp, name);
      } else {
        EntriesSame(s, t, j);
      }
      ParentStays(s, t, j);
      hide Counts, Entries;
    }
    forall d: nat, n: Name, j: nat
      ensures OneName(t, d, n, j)
    {
      assert OneName(s, d, n, j);
      NameStays(s, t, d, n, j);
    }
  }

  /** Where no counted entry is lost and the parent is the same, the parent's entry is still there. */
  lemma ParentStays(s: State, t: State, j: nat)
    requires j < |s.nodes| == |t.nodes| && HasParent(s, j)
    requires LinkedDir(t, j) && ".." in t.nodes[j].dir ==>
               LinkedDir(s, j) && ".." in s.nodes[j].dir && s.nodes[j].dir[".."] == t.nodes[j].dir[".."]
    requires forall d: nat, n: Name :: Counts(s, d, n, j) ==> Counts(t, d, n, j)
    ensures HasParent(t, j)
  {
    if LinkedDir(t, j) && j != ROOT && ".." in t.nodes[j].dir {
      var name :| Names(s, s.nodes[j].dir[".."], name, j);
      assert Names(t, t.nodes[j].dir[".."], name, j);
    }
  }

  lemma CreatePlainKeeps(s: State, dp: nat, name: Name, i: nat)
    requires Inv(s) && Enabled(s, Create(dp, name, Plain, i))
    ensures Inv(Next(s, Create(dp, name, Plain, i)))
  {
    var t := Next(s, Create(dp, name, Plain, i));
    assert DirOk(s, dp) && CountOk(s, i);
    forall d: nat, n: Name
      ensures !Counts(s, d, n, i)
    {
      NoEntries(s, i, d, n);
    }
    forall d: nat, n: Name, j: nat
      ensures Counts(t, d, n, j) <==> Counts(s, d, n, j) || (d == dp && n == name && j == i)
    {
    }
    FileMade(s, t, dp, name, i);
  }

  lemma FileMade(s: State, t: State, dp: nat, name: Name, i: nat)
    requires Counted(s) && Enabled(s, Create(dp, name, Plain, i)) && t == CreateNext(s, dp, name, Plain, i)
    requires CountOk(s, i) && DirOk(s, dp) && forall d: nat, n: Name :: !Counts(s, d, n, i)
    requires forall d: nat, n: Name, j: nat :: Counts(t, d, n, j) <==> Counts(s, d, n, j) || (d == dp && n == name && j == i)
    ensures Counted(t)
  {
    forall j | 0 <= j < |t.nodes|
      ensures CountOk(t, j) && DirOk(t, j) && HasParent(t, j)
    {
      assert CountOk(s, j) && DirOk(s, j) && HasParent(s, j);
      if j == i {
        EntriesGain(s, t, i, dp, name);
      } else {
        EntriesSame(s, t, j);
      }
      ParentStays(s, t, j);
      hide Counts, Entries;
    }
    forall d: nat, n: Name, j: nat
      ensures OneName(t, d, n, j)
    {
      assert OneName(s, d, n, j);
      if j != i {
        NameStays(s, t, d, n, j);
      }
    }
  }

  /** Making a directory: its own entry, and one more for the parent, by its "..". */
  lemma CreateDirExactly(s: State, dp: nat, name: Name, i: nat)
    requires Inv(s) && Enabled(s, Create(dp, name, Dir, i))
    ensures Inv(Next(s, Create(dp, name, Dir, i))) <==> s.nodes[dp].nlink != MAX_LINKS
  {
    var t := Next(s, Create(dp, name, Dir, i));
    assert DirOk(s, dp) && CountOk(s, i) && CountOk(s, dp);
    if s.nodes[dp].nlink == MAX_LINKS {
      assert !CountOk(t, dp);
    } else {
      forall d: nat, n: Name
        ensures !Counts(s, d, n, i)
      {
        NoEntries(s, i, d, n);
      }
      forall d: nat, n: Name, j: nat
        ensures Counts(t, d, n, j) <==> Counts(s, d, n, j) || (d == dp && n == name && j == i) || (d == i && n == ".." && j == dp)
      {
      }
      DirMade(s, t, dp, name, i);
    }
  }

  lemma DirMade(s: State, t: State, dp: nat, name: Name, i: nat)
    requires Counted(s) && Enabled(s, Create(dp, name, Dir, i)) && t == CreateNext(s, dp, name, Dir, i)
    requires s.nodes[dp].nlink < MAX_LINKS && CountOk(s, i) && DirOk(s, dp)
    requires forall d: nat, n: Name :: !Counts(s, d, n, i)
    requires forall d: nat, n: Name, j: nat ::
               Counts(t, d, n, j) <==> Counts(s, d, n, j) || (d == dp && n == name && j == i) || (d == i && n == ".." && j == dp)
    ensures Counted(t)
  {
    forall j | 0 <= j < |t.nodes|
      ensures CountOk(t, j) && DirOk(t, j) && HasParent(t, j)
    {
      DirMadeNode(s, t, dp, name, i, j);
    }
    forall d: nat, n: Name, j: nat
      ensures OneName(t, d, n, j)
    {
      assert OneName(s, d, n, j);
      if j != i {
        NameStays(s, t, d, n, j);
      }
    }
  }

  lemma DirMadeNode(s: State, t: State, dp: nat, name: Name, i: nat, j: nat)
    requires Counted(s) && Enabled(s, Create(dp, name, Dir, i)) && t == CreateNext(s, dp, name, Dir, i) && j < |s.nodes|
    requires s.nodes[dp].nlink < MAX_LINKS && CountOk(s, i) && DirOk(s, dp)
    requires forall d: nat, n: Name :: !Counts(s, d, n, i)
    requires forall d: nat, n: Name ::
               Counts(t, d, n, j) <==> Counts(s, d, n, j) || (d == dp && n == name && j == i) || (d == i && n == ".." && j == dp)
    ensures CountOk(t, j) && DirOk(t, j) && HasParent(t, j)
  {
    assert CountOk(s, j) && DirOk(s, j) && HasParent(s, j);
    if j == i {
      EntriesGain(s, t, i, dp, name);
      assert Names(t, dp, name, i);
    } else {
      if j == dp {
        assert !Counts(s, i, "..", dp);
        EntriesGain(s, t, dp, i, "..");
      } else {
        EntriesSame(s, t, j);
      }
      ParentStays(s, t, j);
    }
    hide Counts, Entries;
  }

  /** The inode behind an ordinary entry has at least one link: `unlink` never panics on its count. */
  lemma UnlinkCountPositive(s: State, dp: nat, name: Name)
    requires Counted(s) && LinkedDir(s, dp) && name != "." && name in s.nodes[dp].dir
    ensures s.nodes[dp].dir[name] < |s.nodes| && s.nodes[s.nodes[dp].dir[name]].nlink >= 1
  {
    var i := s.nodes[dp].dir[name];
    assert Counts(s, dp, name, i);
    EntryIn(s, dp, name, i);
    assert CountOk(s, i);
    if |Entries(s, i)| == 0 {
      assert Entries(s, i) == {};
    }
  }

  lemma UnlinkPlainKeeps(s: State, dp: nat, name: Name)
    requires Inv(s) && Enabled(s, Unlink(dp, name)) && !IsDir(s, s.nodes[dp].dir[name])
    ensures Inv(UnlinkNext(s, dp, name))
    ensures var i := s.nodes[dp].dir[name];
      UnlinkNext(s, dp, name).nodes[i].kind.Free? <==> s.nodes[i].nlink == 1 && s.nodes[i].refs == 0
  {
    var i := s.nodes[dp].dir[name];
    var t := Lower(Unbind(s, dp, name), i);
    assert DirOk(s, dp) && CountOk(s, i) && DirOk(s, i);
    UnlinkCountPositive(s, dp, name);
    forall d: nat, n: Name, j: nat
      ensures Counts(t, d, n, j) <==> Counts(s, d, n, j) && !(d == dp && n == name)
    {
    }
    PlainUnlinked(s, t, dp, name, i);
    PutKeeps(t, i);
  }

  lemma PlainUnlinked(s: State, t: State, dp: nat, name: Name, i: nat)
    requires Counted(s) && Enabled(s, Unlink(dp, name)) && i == s.nodes[dp].dir[name] && !IsDir(s, i)
    requires t == Lower(Unbind(s, dp, name), i) && s.nodes[i].nlink >= 1
    requires forall d: nat, n: Name, j: nat :: Counts(t, d, n, j) <==> Counts(s, d, n, j) && !(d == dp && n == name)
    ensures Counted(t)
  {
    assert Counts(s, dp, name, i);
    forall j | 0 <= j < |t.nodes|
      ensures CountOk(t, j) && DirOk(t, j) && HasParent(t, j)
    {
      assert CountOk(s, j) && DirOk(s, j) && HasParent(s, j);
      if j == i {
        EntriesLose(s, t, i, dp, name);
      } else {
        EntriesSame(s, t, j);
        ParentStays(s, t, j);
      }
      hide Counts, Entries;
    }
    forall d: nat, n: Name, j: nat
      ensures OneName(t, d, n, j)
    {
      assert OneName(s, d, n, j);
      NameStays(s, t, d, n, j);
    }
  }

  /** An empty directory is counted by its one name only, and counts once for its parent. */
  lemma EmptyDirFacts(s: State, dp: nat, name: Name)
    requires Counted(s) && Enabled(s, Unlink(dp, name)) && IsDir(s, s.nodes[dp].dir[name])
    ensures var i := s.nodes[dp].dir[name];
      && i != dp && i != ROOT && s.nodes[i].nlink == 1 && s.pending[i] == 0 && Entries(s, i) == {(dp, name)}
      && ".." in s.nodes[i].dir && s.nodes[i].dir[".."] == dp
  {
    var i := s.nodes[dp].dir[name];
    assert Names(s, dp, name, i);
    assert OneName(s, dp, name, i) && DirOk(s, i) && CountOk(s, i);
    forall d: nat, n: Name
      ensures Counts(s, d, n, i) <==> d == dp && n == name
    {
      if Counts(s, d, n, i) {
        assert OneName(s, d, n, i) && HasParent(s, d);
      }
    }
    forall entry: (nat, Name)
      ensures entry in Entries(s, i) <==> entry == (dp, name)
    {
      EntryIn(s, entry.0, entry.1, i);
    }
    assert Entries(s, i) == {(dp, name)};
  }

  lemma UnlinkDirKeeps(s: State, dp: nat, name: Name)
    requires Inv(s) && Enabled(s, Unlink(dp, name)) && IsDir(s, s.nodes[dp].dir[name])
    ensures Inv(UnlinkNext(s, dp, name))
    ensures var i := s.nodes[dp].dir[name];
      UnlinkNext(s, dp, name).nodes[i].kind.Free? <==> s.nodes[i].nlink == 1 && s.nodes[i].refs == 0
  {
    var i := s.nodes[dp].dir[name];
    EmptyDirFacts(s, dp, name);
    ParentCount(s, dp, i);
    var t := Lower(Lower(Unbind(s, dp, name), dp), i);
    forall d: nat, n: Name, j: nat
      ensures Counts(t, d, n, j) <==> Counts(s, d, n, j) && !(d == dp && n == name) && !(d == i && n == "..")
    {
      assert DirOk(s, i);
    }
    DirUnlinked(s, t, dp, name, i);
    PutKeeps(t, i);
  }

  /** A parent is counted by more than the ".." of one of its directories. */
  lemma ParentCount(s: State, dp: nat, i: nat)
    requires Counted(s) && LinkedDir(s, dp) && LinkedDir(s, i) && i != dp && i != ROOT
    requires ".." in s.nodes[i].dir && s.nodes[i].dir[".."] == dp
    ensures s.nodes[dp].nlink >= 2 && Counts(s, i, "..", dp)
  {
    assert CountOk(s, dp) && DirOk(s, dp) && HasParent(s, dp);
    EntryIn(s, i, "..", dp);
    var other: (nat, Name);
    if dp == ROOT {
      other := (ROOT, "..");
    } else {
      var n :| Names(s, s.nodes[dp].dir[".."], n, dp);
      other := (s.nodes[dp].dir[".."], n);
    }
    EntryIn(s, other.0, other.1, dp);
    assert {(i, ".."), other} <= Entries(s, dp);
    SubsetSize({(i, ".."), other}, Entries(s, dp));
  }

  lemma {:induction false} SubsetSize<T>(a: set<T>, b: set<T>)
    requires a <= b
    ensures |a| <= |b|
    decreases a
  {
    if a != {} {
      var x :| x in a;
      SubsetSize(a - {x}, b - {x});
    }
  }

  lemma DirUnlinked(s: State, t: State, dp: nat, name: Name, i: nat)
    requires Counted(s) && Enabled(s, Unlink(dp, name)) && i == s.nodes[dp].dir[name] && IsDir(s, i)
    requires i != dp && i != ROOT && s.nodes[i].nlink == 1 && s.pending[i] == 0 && Entries(s, i) == {(dp, name)}
    requires s.nodes[dp].nlink >= 2 && Counts(s, i, "..", dp)
    requires t == Lower(Lower(Unbind(s, dp, name), dp), i)
    requires forall d: nat, n: Name, j: nat ::
               Counts(t, d, n, j) <==> Counts(s, d, n, j) && !(d == dp && n == name) && !(d == i && n == "..")
    ensures Counted(t)
  {
    forall j | 0 <= j < |t.nodes|
      ensures CountOk(t, j) && DirOk(t, j) && HasParent(t, j)
    {
      DirUnlinkedNode(s, t, dp, name, i, j);
    }
    forall d: nat, n: Name, j: nat
      ensures OneName(t, d, n, j)
    {
      assert OneName(s, d, n, j);
      NameStays(s, t, d, n, j);
    }
  }

  lemma DirUnlinkedNode(s: State, t: State, dp: nat, name: Name, i: nat, j: nat)
    requires Counted(s) && Enabled(s, Unlink(dp, name)) && i == s.nodes[dp].dir[name] && IsDir(s, i) && j < |s.nodes|
    requires i != dp && i != ROOT && s.nodes[i].nlink == 1 && s.pending[i] == 0 && Entries(s, i) == {(dp, name)}
    requires s.nodes[dp].nlink >= 2 && Counts(s, i, "..", dp)
    requires t == Lower(Lower(Unbind(s, dp, name), dp), i)
    requires forall d: nat, n: Name ::
               Counts(t, d, n, j) <==> Counts(s, d, n, j) && !(d == dp && n == name) && !(d == i && n == "..")
    ensures CountOk(t, j) && DirOk(t, j) && HasParent(t, j)
  {
    assert CountOk(s, j) && DirOk(s, j) && HasParent(s, j);
    if j == i {
      assert Counts(s, dp, name, i);
      EntriesLose(s, t, i, dp, name);
    } else {
      if j == dp {
        EntriesLose(s, t, dp, i, "..");
      } else {
        EntriesSame(s, t, j);
      }
      NamedStill(s, t, dp, name, i, j);
    }
    hide Counts, Entries;
  }

  lemma NamedStill(s: State, t: State, dp: nat, name: Name, i: nat, j: nat)
    requires Enabled(s, Unlink(dp, name)) && i == s.nodes[dp].dir[name] && j < |s.nodes| && j != i && i != dp && HasParent(s, j)
    requires t == Lower(Lower(Unbind(s, dp, name), dp), i) && s.nodes[dp].nlink >= 2
    requires forall d: nat, n: Name ::
               Counts(t, d, n, j) <==> Counts(s, d, n, j) && !(d == dp && n == name) && !(d == i && n == "..")
    ensures HasParent(t, j)
  {
    if LinkedDir(t, j) && j != ROOT && ".." in t.nodes[j].dir {
      var n :| Names(s, s.nodes[j].dir[".."], n, j);
      assert Names(t, t.nodes[j].dir[".."], n, j);
    }
  }

  // ---------- runs ----------

  /** The counts stay right through a call if and only if the call does not raise a count
      that is at the largest value of the field. */
  lemma CountsExactly(s: State, e: Step)
    requires Inv(s) && Enabled(s, e)
    ensures Inv(Next(s, e)) <==> !Overflows(s, e)
  {
    hide Counted;
    match e
    case Create(dp, name, kind, i) =>
      if kind.Dir? {
        CreateDirExactly(s, dp, name, i);
      } else {
        CreatePlainKeeps(s, dp, name, i);
      }
    case LinkBegin(i) => LinkBeginExactly(s, i);
    case LinkEnd(i, dp, name) => LinkEndKeeps(s, i, dp, name);
    case LinkUndo(i) => LinkUndoKeeps(s, i);
    case Unlink(dp, name) =>
      if IsDir(s, s.nodes[dp].dir[name]) {
        UnlinkDirKeeps(s, dp, name);
      } else {
        UnlinkPlainKeeps(s, dp, name);
      }
    case Open(i) => OpenCloseKeep(s, e);
    case Close(i) => OpenCloseKeep(s, e);
  }

  /** An image with one directory, the root, and files, each with one name; nothing is open. */
  ghost predicate Boot(s: State) {
    && IsDir(s, ROOT) && s.pending == multiset{}
    && (forall i :: 0 <= i < |s.nodes| ==>
          (i == ROOT && s.nodes[i].nlink == 1 && s.nodes[i].refs == 0)
          || (s.nodes[i].kind.Plain? && s.nodes[i].nlink == 1 && s.nodes[i].refs == 0 && s.nodes[i].dir == map[] && NamedOnce(s, i))
          || s.nodes[i] == Node(Free, 0, map[], 0))
    && (var dir := s.nodes[ROOT].dir;
        && "." in dir && ".." in dir && dir["."] == ROOT && dir[".."] == ROOT
        && forall x :: x in dir && x != "." && x != ".." ==> dir[x] < |s.nodes| && s.nodes[dir[x]].kind.Plain?)
  }

  ghost predicate NamedOnce(s: State, i: nat)
    requires ROOT < |s.nodes|
  {
    exists x :: OnlyName(s.nodes[ROOT].dir, x, i)
  }

  ghost predicate OnlyName(dir: map<Name, nat>, x: Name, i: nat) {
    x in dir && x != "." && x != ".." && dir[x] == i && forall y :: y in dir && dir[y] == i ==> y == x
  }

  lemma BootNode(s: State, i: nat)
    requires Boot(s) && i < |s.nodes|
    ensures CountOk(s, i) && DirOk(s, i) && HasParent(s, i)
  {
    var entries: set<(nat, Name)> := {};
    if i == ROOT {
      entries := {(ROOT, "..")};
    } else if s.nodes[i].kind.Plain? {
      var x :| OnlyName(s.nodes[ROOT].dir, x, i);
      entries := {(ROOT, x)};
    }
    forall entry: (nat, Name)
      ensures entry in Entries(s, i) <==> entry in entries
    {
      EntryIn(s, entry.0, entry.1, i);
    }
    assert Entries(s, i) == entries;
  }

  lemma BootInv(s: State)
    requires Boot(s)
    ensures Inv(s)
  {
    forall i | 0 <= i < |s.nodes|
      ensures CountOk(s, i) && DirOk(s, i) && HasParent(s, i)
    {
      BootNode(s, i);
    }
  }

  /** The calls of `es` can be made one after the other. */
  predicate Possible(s: State, es: seq<Step>)
    decreases |es|
  {
    es == [] || (Enabled(s, es[0]) && Possible(Next(s, es[0]), es[1..]))
  }

  function After(s: State, es: seq<Step>): State
    requires Possible(s, es)
    decreases |es|
  {
    if es == [] then s else After(Next(s, es[0]), es[1..])
  }

  /** No call of the run raises a count that is at its limit. */
  predicate InLimits(s: State, es: seq<Step>)
    requires Possible(s, es)
    decreases |es|
  {
    es == [] || (!Overflows(s, es[0]) && InLimits(Next(s, es[0]), es[1..]))
  }

  /** The invariant holds before, between and after the calls. */
  ghost predicate InvThroughout(s: State, es: seq<Step>)
    requires Possible(s, es)
    decreases |es|
  {
    Inv(s) && (es == [] || InvThroughout(Next(s, es[0]), es[1..]))
  }

  /** Over a whole run the books stay right if and only if no count at its limit is raised. */
  lemma {:induction false} RunExactly(s: State, es: seq<Step>)
    requires Inv(s) && Possible(s, es)
    ensures InvThroughout(s, es) <==> InLimits(s, es)
    ensures InLimits(s, es) ==> Inv(After(s, es))
    decreases |es|
  {
    hide Inv, Next, Overflows;
    if es != [] {
      CountsExactly(s, es[0]);
      if !Overflows(s, es[0]) {
        RunExactly(Next(s, es[0]), es[1..]);
      } else {
        Broken(Next(s, es[0]), es[1..]);
      }
    }
  }

  lemma Broken(s: State, es: seq<Step>)
    requires !Inv(s) && Possible(s, es)
    ensures !InvThroughout(s, es)
  {
  }

  /** After any sequence of calls, interleaved in any way, every link count is the number of
      entries other than "." that point to the inode from linked directories, plus the links
      being made, and an inode is free exactly when it has neither links nor references. */
  lemma CountsEver(s: State, es: seq<Step>, i: nat)
    requires Boot(s) && Possible(s, es) && InLimits(s, es) && i < |After(s, es).nodes|
    ensures var t := After(s, es);
      && t.nodes[i].nlink == |Entries(t, i)| + t.pending[i]
      && (t.nodes[i].kind.Free? <==> t.nodes[i].nlink == 0 && t.nodes[i].refs == 0)
  {
    BootInv(s);
    RunExactly(s, es);
    assert CountOk(After(s, es), i);
  }

  // ---------- what the calls do, told without the reference field ----------

  /** How many more times inode `i` was opened than closed, since it was last created. */
  function Outstanding(es: seq<Step>, i: nat): int
    decreases |es|
  {
    if es == [] then 0
    else
      var before := Outstanding(es[..|es| - 1], i);
      match es[|es| - 1]
      case Open(j) => if j == i then before + 1 else before
      case Close(j) => if j == i then before - 1 else before
      case Create(_, _, _, j) => if j == i then 0 else before
      case _ => before
  }

  lemma {:induction false} AfterSnoc(s: State, es: seq<Step>, e: Step)
    requires Possible(s, es + [e])
    ensures Possible(s, es) && Enabled(After(s, es), e) && After(s, es + [e]) == Next(After(s, es), e)
    decreases |es|
  {
    hide Next, Enabled;
    if es == [] {
      assert Possible(Next(s, e), []);
      assert ([] + [e])[1..] == [];
    } else {
      assert (es + [e])[1..] == es[1..] + [e];
      AfterSnoc(Next(s, es[0]), es[1..], e);
    }
  }

  lemma {:induction false} InLimitsPrefix(s: State, es: seq<Step>, e: Step)
    requires Possible(s, es + [e]) && InLimits(s, es + [e])
    ensures Possible(s, es) && InLimits(s, es) && !Overflows(After(s, es), e)
    decreases |es|
  {
    hide Next, Enabled, Overflows;
    AfterSnoc(s, es, e);
    if es != [] {
      assert (es + [e])[1..] == es[1..] + [e];
      InLimitsPrefix(Next(s, es[0]), es[1..], e);
    }
  }

  /** One call's effect on the references of one inode. */
  lemma RefsStep(s: State, e: Step, i: nat)
    requires Inv(s) && Enabled(s, e) && i < |s.nodes|
    ensures |Next(s, e).nodes| == |s.nodes|
    ensures var r := s.nodes[i].refs;
      Next(s, e).nodes[i].refs == match e
                                  case Open(j) => if j == i then r + 1 else r
                                  case Close(j) => if j == i then r - 1 else r
                                  case Create(_, _, _, j) => if j == i then 0 else r
                                  case _ => r
  {
    hide Inv, CreateNext, UnlinkNext;
    if e.Create? {
      RefsCreate(s, e.dp, e.name, e.kind, e.i, i);
    } else if e.Unlink? {
      RefsUnlink(s, e.dp, e.name, i);
    }
  }

  lemma RefsCreate(s: State, dp: nat, name: Name, kind: Kind, j: nat, i: nat)
    requires Enabled(s, Create(dp, name, kind, j)) && i < |s.nodes|
    ensures |CreateNext(s, dp, name, kind, j).nodes| == |s.nodes|
    ensures CreateNext(s, dp, name, kind, j).nodes[i].refs == if j == i then 0 else s.nodes[i].refs
  {
  }

  lemma RefsUnlink(s: State, dp: nat, name: Name, i: nat)
    requires Enabled(s, Unlink(dp, name)) && i < |s.nodes|
    ensures |UnlinkNext(s, dp, name).nodes| == |s.nodes| && UnlinkNext(s, dp, name).nodes[i].refs == s.nodes[i].refs
  {
  }

  lemma {:induction false} RefsAre(s: State, es: seq<Step>, i: nat)
    requires Boot(s) && Possible(s, es) && InLimits(s, es) && i < |s.nodes|
    ensures Inv(After(s, es)) && |After(s, es).nodes| == |s.nodes| && After(s, es).nodes[i].refs == Outstanding(es, i)
    decreases |es|
  {
    hide Inv, Next, Enabled;
    if es == [] {
      BootInv(s);
    } else {
      var before, e := es[..|es| - 1], es[|es| - 1];
      assert es == before + [e];
      AfterSnoc(s, before, e);
      InLimitsPrefix(s, before, e);
      RefsAre(s, before, i);
      RefsStep(After(s, before), e, i);
      CountsExactly(After(s, before), e);
    }
  }

  /** After any run, an inode that is still open is not free, whatever was unlinked, and
      another close is possible exactly when an open is outstanding. */
  lemma OpenStays(s: State, es: seq<Step>, i: nat)
    requires Boot(s) && Possible(s, es) && InLimits(s, es) && i < |s.nodes|
    ensures |After(s, es).nodes| == |s.nodes| && Outstanding(es, i) >= 0
    ensures Outstanding(es, i) > 0 ==> !After(s, es).nodes[i].kind.Free?
    ensures Enabled(After(s, es), Close(i)) <==> Outstanding(es, i) > 0
    ensures Outstanding(es, i) == 0 && Entries(After(s, es), i) == {} && After(s, es).pending[i] == 0
            ==> After(s, es).nodes[i].kind.Free?
  {
    RefsAre(s, es, i);
    assert CountOk(After(s, es), i);
  }

  /** The call changes entries of directory `i` by name. */
  predicate WritesIn(e: Step, i: nat) {
    (e.Create? || e.LinkEnd? || e.Unlink?) && e.dp == i
  }

  /** While an inode is open, before and after a call, it keeps its kind, and its entries unless
      the call makes or removes one of them. */
  lemma OpenKeeps(s: State, es: seq<Step>, e: Step, i: nat)
    requires Boot(s) && Possible(s, es + [e]) && InLimits(s, es + [e]) && i < |s.nodes|
    requires Outstanding(es, i) > 0 && Outstanding(es + [e], i) > 0
    ensures Possible(s, es) && |After(s, es).nodes| == |After(s, es + [e]).nodes| == |s.nodes|
    ensures var n, n' := After(s, es).nodes[i], After(s, es + [e]).nodes[i];
      n'.kind == n.kind && !n'.kind.Free? && (!WritesIn(e, i) ==> n'.dir == n.dir)
  {
    hide Inv, Boot, Possible, InLimits, After;
    AfterSnoc(s, es, e);
    InLimitsPrefix(s, es, e);
    RefsAre(s, es, i);
    RefsAre(s, es + [e], i);
    OpenStays(s, es, i);
    OpenStays(s, es + [e], i);
    KindStays(After(s, es), e, i);
  }

  lemma KindStays(s: State, e: Step, i: nat)
    requires Enabled(s, e) && i < |s.nodes| && !s.nodes[i].kind.Free? && |Next(s, e).nodes| == |s.nodes|
    requires !Next(s, e).nodes[i].kind.Free?
    ensures Next(s, e).nodes[i].kind == s.nodes[i].kind
    ensures !WritesIn(e, i) ==> Next(s, e).nodes[i].dir == s.nodes[i].dir
  {
    hide CreateNext, UnlinkNext;
    if e.Create? {
      KindCreate(s, e.dp, e.name, e.kind, e.i, i);
    } else if e.Unlink? {
      KindUnlink(s, e.dp, e.name, i);
    }
  }

  lemma KindCreate(s: State, dp: nat, name: Name, kind: Kind, j: nat, i: nat)
    requires Enabled(s, Create(dp, name, kind, j)) && i < |s.nodes| && !s.nodes[i].kind.Free?
    ensures var t := CreateNext(s, dp, name, kind, j);
      |t.nodes| == |s.nodes| && t.nodes[i].kind == s.nodes[i].kind && (i != dp ==> t.nodes[i].dir == s.nodes[i].dir)
  {
  }

  lemma KindUnlink(s: State, dp: nat, name: Name, i: nat)
    requires Enabled(s, Unlink(dp, name)) && i < |s.nodes|
    ensures var t := UnlinkNext(s, dp, name);
      |t.nodes| == |s.nodes|
      && (!t.nodes[i].kind.Free? ==> t.nodes[i].kind == s.nodes[i].kind && (i != dp ==> t.nodes[i].dir == s.nodes[i].dir))
  {
  }

  // ---------- the names after a call ----------

  /** `create` makes an inode of the kind asked for, with one link, and enters it under its name;
      a directory knows itself and its parent. No other inode changes its entries. */
  lemma CreateMakes(s: State, dp: nat, name: Name, kind: Kind, i: nat)
    requires Inv(s) && Enabled(s, Create(dp, name, kind, i))
    ensures var t := Next(s, Create(dp, name, kind, i));
      && |t.nodes| == |s.nodes| && i != dp && t.pending == s.pending
      && t.nodes[dp].dir == s.nodes[dp].dir[name := i]
      && t.nodes[i].kind == kind && t.nodes[i].nlink == 1
      && t.nodes[i].dir == (if kind == Dir then map["." := i, ".." := dp] else map[])
      && (forall j :: 0 <= j < |s.nodes| && j != i ==> t.nodes[j].kind == s.nodes[j].kind)
      && (forall j :: 0 <= j < |s.nodes| && j != i && j != dp ==> t.nodes[j] == s.nodes[j])
  {
    hide Inv;
  }

  /** The two halves of `link`: the second makes the entry, the undo path makes none. */
  lemma LinkMakes(s: State, i: nat, dp: nat, name: Name)
    requires Inv(s) && Enabled(s, LinkBegin(i)) && !Overflows(s, LinkBegin(i))
    requires LinkedDir(s, dp) && name !in s.nodes[dp].dir
    ensures var s1 := Next(s, LinkBegin(i));
      && Enabled(s1, LinkEnd(i, dp, name)) && Enabled(s1, LinkUndo(i))
      && var t := Next(s1, LinkEnd(i, dp, name));
      && |t.nodes| == |s.nodes| && t.pending == s.pending && t.nodes[i].nlink == s.nodes[i].nlink + 1
      && t.nodes[dp].dir == s.nodes[dp].dir[name := i]
      && (forall j :: 0 <= j < |s.nodes| && j != dp ==> t.nodes[j].dir == s.nodes[j].dir)
      && (forall j :: 0 <= j < |s.nodes| ==> t.nodes[j].kind == s.nodes[j].kind)
  {
    assert CountOk(s, i);
    var s1 := Next(s, LinkBegin(i));
    assert s1.pending - multiset{i} == s.pending;
    hide Inv;
  }

  lemma LinkUndone(s: State, i: nat)
    requires Inv(s) && Enabled(s, LinkBegin(i)) && !Overflows(s, LinkBegin(i))
    ensures var s1 := Next(s, LinkBegin(i)); Enabled(s1, LinkUndo(i)) && Next(s1, LinkUndo(i)) == s
  {
    assert CountOk(s, i);
    assert (s.pending + multiset{i}) - multiset{i} == s.pending;
    hide Counted;
  }

  /** `unlink` takes away exactly the name it is given; the inode goes with its last name unless
      it is open or being linked, and an inode that stays keeps its entries. */
  lemma UnlinkRemoves(s: State, dp: nat, name: Name)
    requires Inv(s) && Enabled(s, Unlink(dp, name))
    ensures var i := s.nodes[dp].dir[name];
      var t := Next(s, Unlink(dp, name));
      && |t.nodes| == |s.nodes| && i < |s.nodes| && i != dp && t.pending == s.pending
      && t.nodes[dp].kind == Dir && t.nodes[dp].dir == s.nodes[dp].dir - {name}
      && (t.nodes[i].kind == Free || (t.nodes[i].kind == s.nodes[i].kind && t.nodes[i].dir == s.nodes[i].dir))
      && (forall j :: 0 <= j < |s.nodes| && j != i && j != dp ==> t.nodes[j] == s.nodes[j])
  {
    var i := s.nodes[dp].dir[name];
    UnlinkCountPositive(s, dp, name);
    if IsDir(s, i) {
      EmptyDirFacts(s, dp, name);
      ParentCount(s, dp, i);
    }
    assert CountOk(s, dp);
    hide Inv, Counted, Entries;
  }

  // ---------- the limit is reached ----------

  /** The root and one file in it, inode 2. */
  function OneFile(): State {
    State([Node(Free, 0, map[], 0), Node(Dir, 1, map["." := ROOT, ".." := ROOT, "f" := 2], 0), Node(Plain, 1, map[], 0)], multiset{})
  }

  /** `n` calls of `link` on the file have raised its count and not yet made their entries. */
  function Linking(n: nat): State
    requires n < MAX_LINKS
  {
    OneFile().(nodes := OneFile().nodes[2 := Node(Plain, 1 + n, map[], 0)], pending := multiset{}[2 := n])
  }

  function Begins(n: nat): (es: seq<Step>)
    ensures |es| == n && forall k :: 0 <= k < n ==> es[k] == LinkBegin(2)
  {
    seq(n, _ => LinkBegin(2))
  }

  lemma LinkingStep(m: nat)
    requires m + 1 < MAX_LINKS
    ensures Enabled(Linking(m), LinkBegin(2)) && !Overflows(Linking(m), LinkBegin(2))
    ensures Next(Linking(m), LinkBegin(2)) == Linking(m + 1)
  {
  }

  lemma {:induction false} LinkingRun(m: nat, n: nat)
    requires m + n < MAX_LINKS
    ensures Possible(Linking(m), Begins(n)) && InLimits(Linking(m), Begins(n)) && After(Linking(m), Begins(n)) == Linking(m + n)
    decreases n
  {
    hide Linking, Next, Enabled, Overflows;
    if n > 0 {
      assert Begins(n)[1..] == Begins(n - 1);
      LinkingStep(m);
      LinkingRun(m + 1, n - 1);
    }
  }

  lemma OneFileBoots()
    ensures Boot(OneFile()) && Linking(0) == OneFile()
  {
    assert OneFile().nodes[ROOT].dir == map["." := ROOT, ".." := ROOT, "f" := 2];
    assert OnlyName(OneFile().nodes[ROOT].dir, "f", 2);
    assert multiset{}[2 := 0] == multiset{};
  }

  /** A run that breaks the books: all but one of the 32767 links the field can count are
      under way or made, its count is at the limit, and the next call makes it negative. */
  lemma LimitReached(n: nat)
    requires n + 1 == MAX_LINKS
    ensures Boot(OneFile()) && Possible(OneFile(), Begins(n)) && InLimits(OneFile(), Begins(n))
    ensures var s := After(OneFile(), Begins(n));
      && Inv(s) && 2 < |s.nodes| && s.nodes[2].nlink == MAX_LINKS && Enabled(s, LinkBegin(2))
      && Next(s, LinkBegin(2)).nodes[2].nlink == -32768 && !Inv(Next(s, LinkBegin(2)))
  {
    hide Inv, Possible, After, InLimits, InvThroughout, Boot, Begins;
    OneFileBoots();
    LinkingRun(0, n);
    BootInv(OneFile());
    RunExactly(OneFile(), Begins(n));
    CountsExactly(Linking(n), LinkBegin(2));
  }
}
