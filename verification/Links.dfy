/**
  * Link counts (kernel/sysfile.c:123-302, kernel/fs.c:574-629): in directories that have links,
  * create, link and unlink keep each inode's nlink equal to the number of directory entries that name
  * it, and the directories a tree; create and link do not check that the directory has one.  Each
  * method runs while it holds the locks of the inodes it touches; link gives them up in the middle,
  * so it is two methods.
  */
module Links {
  datatype Kind = Dir | File | Device
  datatype Entry = Entry(inum: nat, name: string)
  datatype Inode = Inode(kind: Kind, nlink: nat, entries: seq<Entry>)
  type Inodes = map<nat, Inode>

  const ROOT: nat := 1
  const FREE := Entry(0, "")

  /** A directory that can be reached. */
  predicate Linked(d: Inode) {
    d.kind == Dir && d.nlink > 0
  }

  /** Entry k of directory d names i, and is not d's own ".". */
  predicate Names(inodes: Inodes, d: nat, k: nat, i: nat) {
    && d in inodes && Linked(inodes[d]) && k < |inodes[d].entries|
    && inodes[d].entries[k].inum == i && inodes[d].entries[k].name != "."
  }

  /** The entries of linked directories that name i. */
  ghost function Refs(inodes: Inodes, i: nat): set<(nat, nat)> {
    set d, k: nat | d in inodes && k < |inodes[d].entries| && Names(inodes, d, k, i) :: (d, k)
  }

  lemma RefsMember(inodes: Inodes, d: nat, k: nat, i: nat)
    ensures (d, k) in Refs(inodes, i) <==> Names(inodes, d, k, i)
  {
  }

  /** A linked directory starts with "." and "..", and no name stands in it twice. */
  predicate WellFormed(d: nat, x: Inode) {
    && |x.entries| >= 2 && x.entries[0] == Entry(d, ".") && x.entries[1].name == ".." && x.entries[1].inum != 0
    && forall j, k ::
           0 <= j < k < |x.entries| && x.entries[j].inum != 0 && x.entries[k].inum != 0 ==>
             x.entries[j].name != x.entries[k].name
  }

  /** A directory that was removed, or never got its name, has no child entries. */
  predicate Childless(d: nat, x: Inode) {
    && (x.entries != [] ==> x.entries[0] == Entry(d, "."))
    && forall k ::
           0 <= k < |x.entries| && x.entries[k].inum != 0 ==> x.entries[k].name == "." || x.entries[k].name == ".."
  }

  predicate Directories(inodes: Inodes) {
    && 0 !in inodes
    && (forall d :: d in inodes && inodes[d].kind == Dir && inodes[d].nlink == 0 ==> Childless(d, inodes[d]))
    && (forall d :: d in inodes && Linked(inodes[d]) ==> WellFormed(d, inodes[d]))
    && forall d, k ::
           d in inodes && Linked(inodes[d]) && 0 <= k < |inodes[d].entries| && inodes[d].entries[k].inum != 0 ==>
             inodes[d].entries[k].inum in inodes
  }

  /** A child entry: neither "." nor "..". */
  predicate IsChild(inodes: Inodes, d: nat, k: nat, c: nat) {
    Names(inodes, d, k, c) && k >= 2
  }

  /** Each linked directory but the root has one child entry, in the directory that its ".." names, and the
      ".." entries lead up to the root. */
  ghost predicate Tree(inodes: Inodes) {
    && ROOT in inodes && Linked(inodes[ROOT]) && |inodes[ROOT].entries| >= 2 && inodes[ROOT].entries[1].inum == ROOT
    && (forall d, k :: !IsChild(inodes, d, k, ROOT))
    && (forall d, k, c :: IsChild(inodes, d, k, c) && c in inodes && inodes[c].kind == Dir ==>
          Linked(inodes[c]) && |inodes[c].entries| >= 2 && inodes[c].entries[1].inum == d && c != d)
    && (forall d, j, k, c ::
           IsChild(inodes, d, j, c) && IsChild(inodes, d, k, c) && c in inodes && inodes[c].kind == Dir ==> j == k)
    && (forall c :: c in inodes && Linked(inodes[c]) && c != ROOT ==> HasParent(inodes, c))
    && Grounded(inodes)
  }

  /** There are no detached cycles: some depth grows from parent to child. */
  ghost predicate Grounded(inodes: Inodes) {
    exists depth: map<nat, nat> :: Deeper(inodes, depth)
  }

  predicate Deeper(inodes: Inodes, depth: map<nat, nat>) {
    && ROOT in depth
    && forall c :: c in inodes && Linked(inodes[c]) && c != ROOT && |inodes[c].entries| >= 2 ==>
                     c in depth && inodes[c].entries[1].inum in depth && depth[inodes[c].entries[1].inum] < depth[c]
  }

  ghost predicate HasParent(inodes: Inodes, c: nat)
    requires c in inodes
  {
    |inodes[c].entries| >= 2 && exists k :: IsChild(inodes, inodes[c].entries[1].inum, k, c)
  }

  /** There are names that lead from the root down to c in k steps. */
  ghost predicate Reached(inodes: Inodes, c: nat, k: nat)
    decreases k
  {
    || (c == ROOT && k == 0)
    || (k > 0 && c in inodes && HasParent(inodes, c) && Reached(inodes, inodes[c].entries[1].inum, k - 1))
  }

  /** Every directory with a link can be reached from the root by name. */
  lemma ReachedFromRoot(inodes: Inodes, c: nat) returns (k: nat)
    requires Tree(inodes) && c in inodes && Linked(inodes[c])
    ensures Reached(inodes, c, k)
  {
    var depth :| Deeper(inodes, depth);
    k := ReachedBelow(inodes, depth, c);
  }

  lemma {:induction false} ReachedBelow(inodes: Inodes, depth: map<nat, nat>, c: nat) returns (k: nat)
    requires Tree(inodes) && Deeper(inodes, depth) && c in inodes && Linked(inodes[c])
    ensures Reached(inodes, c, k)
    decreases if c in depth then depth[c] else 0
  {
    k := 0;
    if c != ROOT {
      var d := inodes[c].entries[1].inum;
      assert HasParent(inodes, c);
      var j := ReachedBelow(inodes, depth, d);
      k := j + 1;
    }
  }

  /** Depths stay good where no directory is added or moved. */
  lemma StillGrounded(inodes: Inodes, after: Inodes)
    requires Grounded(inodes)
    requires forall x :: x in after && Linked(after[x]) && x != ROOT ==>
                           x in inodes && Linked(inodes[x]) && |inodes[x].entries| >= 2
    requires forall x :: x in after && x in inodes && Linked(after[x]) && |inodes[x].entries| >= 2 ==>
                           |after[x].entries| >= 2 && after[x].entries[1] == inodes[x].entries[1]
    ensures Grounded(after)
  {
    var depth :| Deeper(inodes, depth);
    assert Deeper(after, depth);
  }

  /** nlink is the number of entries that name the inode, and of links under way to it. */
  ghost predicate Counted(inodes: Inodes, pending: multiset<nat>, i: nat)
    requires i in inodes
  {
    inodes[i].nlink == |Refs(inodes, i)| + pending[i]
  }

  ghost predicate Counts(inodes: Inodes, pending: multiset<nat>) {
    && (forall i :: i in inodes ==> Counted(inodes, pending, i))
    && (forall i :: i in pending ==> i in inodes && inodes[i].kind != Dir)
  }

  ghost predicate Inv(inodes: Inodes, pending: multiset<nat>) {
    Directories(inodes) && Tree(inodes) && Counts(inodes, pending)
  }

  /** What ialloc finds: the lowest number that is not allocated, or 0 for none. */
  predicate FirstFree(inodes: Inodes, ninodes: nat, n: nat) {
    && (n == 0 || (n < ninodes && n !in inodes))
    && forall i :: 0 < i < (if n == 0 then ninodes else n) ==> i in inodes
  }

  /** What create returns for a name that stands for i: the inode, if a file was asked for and it is one or a
      device, and otherwise 0. */
  function Opened(inodes: Inodes, i: nat, kind: Kind): nat {
    if kind == File && i in inodes && inodes[i].kind != Dir then i else 0
  }

  // ---- directory scans

  predicate Absent(entries: seq<Entry>, name: string) {
    forall k :: 0 <= k < |entries| ==> entries[k].inum == 0 || entries[k].name != name
  }

  predicate HasSlot(entries: seq<Entry>) {
    exists k :: 0 <= k < |entries| && entries[k].inum == 0
  }

  /** The first entry with this name. */
  predicate IsFirst(entries: seq<Entry>, name: string, k: nat) {
    && k < |entries| && entries[k].inum != 0 && entries[k].name == name
    && forall j :: 0 <= j < k ==> entries[j].inum == 0 || entries[j].name != name
  }

  /** dirlookup: the first entry with this name, or -1. */
  method DirLookup(entries: seq<Entry>, name: string) returns (off: int)
    ensures if off == -1 then Absent(entries, name)
            else off >= 0 && IsFirst(entries, name, off)
  {
    var k := 0;
    while k < |entries|
      invariant 0 <= k <= |entries| && forall j :: 0 <= j < k ==> entries[j].inum == 0 || entries[j].name != name
    {
      if entries[k].inum != 0 && entries[k].name == name { return k; }
      k := k + 1;
    }
    return -1;
  }

  /** The directory after an entry was written at off. */
  function Entered(entries: seq<Entry>, off: nat, e: Entry): seq<Entry>
    requires off <= |entries|
  {
    if off < |entries| then entries[off := e] else entries + [e]
  }

  /** dirlink: the new entry goes to the first empty slot, or to the end if there is room; it fails if the
      name is present. */
  method DirLink(
    entries: seq<Entry>, name: string, inum: nat, room: bool) returns (ok: bool, off: nat, after: seq<Entry>)
    ensures ok ==>
              off <= |entries| && (off < |entries| ==> entries[off].inum == 0) &&
              after == Entered(entries, off, Entry(inum, name))
    ensures !ok ==> after == entries
    ensures ok <==> Absent(entries, name) && (room || HasSlot(entries))
  {
    var present := DirLookup(entries, name);
    if present != -1 { return false, 0, entries; }
    off := 0;
    while off < |entries|
      invariant 0 <= off <= |entries| && forall k :: 0 <= k < off ==> entries[k].inum != 0
    {
      if entries[off].inum == 0 { break; }
      off := off + 1;
    }
    if off == |entries| && !room { return false, 0, entries; }
    return true, off, Entered(entries, off, Entry(inum, name));
  }

  /** isdirempty: nothing but "." and "..". */
  method IsDirEmpty(entries: seq<Entry>) returns (empty: bool)
    ensures empty <==> forall k :: 2 <= k < |entries| ==> entries[k].inum == 0
  {
    var k := 2;
    while k < |entries|
      invariant 2 <= k && forall j :: 2 <= j < k && j < |entries| ==> entries[j].inum == 0
    {
      if entries[k].inum != 0 { return false; }
      k := k + 1;
    }
    return true;
  }

  // ---- how a change moves the references

  /** Only nlink of x changed, and not whether it is a linked directory. */
  lemma SameRefs(inodes: Inodes, x: nat, n: nat, i: nat)
    requires x in inodes && (Linked(inodes[x]) <==> Linked(inodes[x].(nlink := n)))
    ensures Refs(inodes[x := inodes[x].(nlink := n)], i) == Refs(inodes, i)
  {
  }

  function WithEntry(inodes: Inodes, d: nat, k: nat, e: Entry): Inodes
    requires d in inodes && k <= |inodes[d].entries|
  {
    inodes[d := inodes[d].(entries := Entered(inodes[d].entries, k, e))]
  }

  lemma AddedRef(inodes: Inodes, d: nat, k: nat, e: Entry, i: nat)
    requires d in inodes && Linked(inodes[d]) && k <= |inodes[d].entries| &&
             (k < |inodes[d].entries| ==> inodes[d].entries[k].inum == 0)
    requires i != 0 && e.name != "."
    ensures Refs(WithEntry(inodes, d, k, e), i) == if e.inum == i then Refs(inodes, i) + {(d, k)} else Refs(inodes, i)
    ensures (d, k) !in Refs(inodes, i)
  {
  }

  lemma RemovedRef(inodes: Inodes, d: nat, k: nat, i: nat)
    requires d in inodes && Linked(inodes[d]) && k < |inodes[d].entries| && i != 0
    ensures Refs(WithEntry(inodes, d, k, FREE), i) == Refs(inodes, i) - {(d, k)}
  {
  }

  // ---- link

  /** nlink++ and, in the failure path, nlink--. */
  function WithNlink(inodes: Inodes, i: nat, n: nat): Inodes
    requires i in inodes
  {
    inodes[i := inodes[i].(nlink := n)]
  }

  /** Directories do not see the link count of a file. */
  lemma FileNlink(inodes: Inodes, i: nat, n: nat)
    requires Directories(inodes) && Tree(inodes) && i in inodes && inodes[i].kind != Dir
    ensures Directories(WithNlink(inodes, i, n)) && Tree(WithNlink(inodes, i, n))
  {
    hide Tree;
    var after := WithNlink(inodes, i, n);
    assert after.Keys == inodes.Keys;
    TreeKept(inodes, after);
  }

  lemma LinkBegins(inodes: Inodes, pending: multiset<nat>, i: nat)
    requires Inv(inodes, pending) && i in inodes && inodes[i].kind != Dir
    ensures Inv(WithNlink(inodes, i, inodes[i].nlink + 1), pending + multiset{i})
  {
    hide Directories, Tree, Refs;
    FileNlink(inodes, i, inodes[i].nlink + 1);
    forall j | j in inodes ensures Counted(WithNlink(inodes, i, inodes[i].nlink + 1), pending + multiset{i}, j) {
      assert Counted(inodes, pending, j);
      SameRefs(inodes, i, inodes[i].nlink + 1, j);
    }
  }

  lemma LinkFails(inodes: Inodes, pending: multiset<nat>, i: nat)
    requires Inv(inodes, pending) && i in pending
    ensures i in inodes && inodes[i].nlink > 0 && Inv(WithNlink(inodes, i, inodes[i].nlink - 1), pending - multiset{i})
  {
    hide Directories, Tree, Refs;
    assert Counted(inodes, pending, i);
    FileNlink(inodes, i, inodes[i].nlink - 1);
    forall j | j in inodes ensures Counted(WithNlink(inodes, i, inodes[i].nlink - 1), pending - multiset{i}, j) {
      assert Counted(inodes, pending, j);
      SameRefs(inodes, i, inodes[i].nlink - 1, j);
    }
  }

  /** Where dirlink may write a new entry. */
  predicate Writable(inodes: Inodes, d: nat, k: nat, name: string) {
    && d in inodes && k <= |inodes[d].entries| && (k < |inodes[d].entries| ==> inodes[d].entries[k].inum == 0)
    && Absent(inodes[d].entries, name)
  }

  /** In a linked directory that place is after "." and "..". */
  lemma WritablePlace(inodes: Inodes, d: nat, k: nat, name: string)
    requires Directories(inodes) && Writable(inodes, d, k, name) && Linked(inodes[d])
    ensures k >= 2 && name != "." && name != ".."
  {
  }

  lemma EntryDirectories(inodes: Inodes, d: nat, k: nat, e: Entry)
    requires Directories(inodes) && Writable(inodes, d, k, e.name) && Linked(inodes[d]) && e.inum in inodes
    ensures Directories(WithEntry(inodes, d, k, e))
  {
  }

  /** The tree looks only at directories and their child entries. */
  lemma TreeKept(inodes: Inodes, after: Inodes)
    requires Tree(inodes) && after.Keys == inodes.Keys
    requires forall x :: x in inodes ==> after[x].kind == inodes[x].kind && (Linked(after[x]) <==> Linked(inodes[x]))
    requires forall x ::
               x in inodes && Linked(inodes[x]) && |inodes[x].entries| >= 2 ==>
                 |after[x].entries| >= 2 && after[x].entries[1] == inodes[x].entries[1]
    requires forall x, j, c ::
               c in inodes && inodes[c].kind == Dir ==> (IsChild(after, x, j, c) <==> IsChild(inodes, x, j, c))
    ensures Tree(after)
  {
    hide Names, Deeper, Grounded;
    assert forall c :: c in inodes && Linked(inodes[c]) && c != ROOT ==> HasParent(inodes, c);
    StillGrounded(inodes, after);
    forall c | c in after && Linked(after[c]) && c != ROOT ensures HasParent(after, c) {
      assert HasParent(inodes, c);
      var k :| IsChild(inodes, inodes[c].entries[1].inum, k, c);
      assert IsChild(after, after[c].entries[1].inum, k, c);
    }
  }

  /** An entry for a file adds no child directory. */
  lemma FileEntryTree(inodes: Inodes, d: nat, k: nat, e: Entry)
    requires Tree(inodes) && d in inodes && Linked(inodes[d]) && 2 <= k <= |inodes[d].entries| &&
             (k < |inodes[d].entries| ==> inodes[d].entries[k].inum == 0)
    requires e.inum in inodes && inodes[e.inum].kind != Dir && e.inum != 0 && 0 !in inodes
    ensures Tree(WithEntry(inodes, d, k, e))
  {
    hide Tree;
    var after := WithEntry(inodes, d, k, e);
    assert after.Keys == inodes.Keys;
    TreeKept(inodes, after);
  }

  lemma LinkSucceeds(inodes: Inodes, pending: multiset<nat>, d: nat, k: nat, name: string, i: nat)
    requires Inv(inodes, pending) && i in pending && Writable(inodes, d, k, name) && Linked(inodes[d])
    ensures Inv(WithEntry(inodes, d, k, Entry(i, name)), pending - multiset{i})
  {
    hide Directories, Tree, Refs;
    var e := Entry(i, name);
    NoZero(inodes);
    WritablePlace(inodes, d, k, name);
    EntryDirectories(inodes, d, k, e);
    FileEntryTree(inodes, d, k, e);
    forall j | j in inodes ensures Counted(WithEntry(inodes, d, k, e), pending - multiset{i}, j) {
      assert Counted(inodes, pending, j);
      AddedRef(inodes, d, k, e, j);
    }
  }

  lemma NoZero(inodes: Inodes)
    requires Directories(inodes)
    ensures 0 !in inodes
  {
  }

  /** In a directory that has been removed, the same entry counts for nothing, and the count is one too high. */
  lemma LinkIntoRemoved(inodes: Inodes, pending: multiset<nat>, d: nat, k: nat, name: string, i: nat)
    requires Inv(inodes, pending) && i in pending && Writable(inodes, d, k, name) && inodes[d].kind == Dir &&
             !Linked(inodes[d])
    ensures i in inodes && !Counted(WithEntry(inodes, d, k, Entry(i, name)), pending - multiset{i}, i)
  {
    hide Directories, Tree, Refs;
    assert Counted(inodes, pending, i);
    RemovedDirectory(inodes, d, Entered(inodes[d].entries, k, Entry(i, name)), i);
  }

  lemma RemovedDirectory(inodes: Inodes, d: nat, entries: seq<Entry>, i: nat)
    requires d in inodes && !Linked(inodes[d])
    ensures Refs(inodes[d := inodes[d].(entries := entries)], i) == Refs(inodes, i)
  {
  }

  // ---- unlink

  /** A removed entry leaves a good directory. */
  lemma ClearedDirectories(inodes: Inodes, d: nat, k: nat)
    requires Directories(inodes) && d in inodes && Linked(inodes[d]) && 2 <= k < |inodes[d].entries|
    ensures Directories(WithEntry(inodes, d, k, FREE))
  {
  }

  lemma ClearedFileTree(inodes: Inodes, d: nat, k: nat)
    requires Tree(inodes) && d in inodes && Linked(inodes[d]) && 2 <= k < |inodes[d].entries| && 0 !in inodes
    requires var i := inodes[d].entries[k].inum; i in inodes && inodes[i].kind != Dir
    ensures Tree(WithEntry(inodes, d, k, FREE))
  {
    hide Tree;
    var after := WithEntry(inodes, d, k, FREE);
    assert after.Keys == inodes.Keys;
    TreeKept(inodes, after);
  }

  lemma UnlinkFile(inodes: Inodes, pending: multiset<nat>, d: nat, k: nat)
    requires Inv(inodes, pending) && d in inodes && Linked(inodes[d]) && 2 <= k < |inodes[d].entries| &&
             inodes[d].entries[k].name != "."
    requires var i := inodes[d].entries[k].inum; i in inodes && inodes[i].kind != Dir
    ensures var i := inodes[d].entries[k].inum; var cleared := WithEntry(inodes, d, k, FREE);
            inodes[i].nlink > 0 && i != d && Inv(WithNlink(cleared, i, inodes[i].nlink - 1), pending)
  {
    hide Directories, Tree, Refs;
    NoZero(inodes);
    var i := inodes[d].entries[k].inum;
    var cleared := WithEntry(inodes, d, k, FREE);
    RefsMember(inodes, d, k, i);
    assert Counted(inodes, pending, i);
    ClearedDirectories(inodes, d, k);
    ClearedFileTree(inodes, d, k);
    var after := WithNlink(cleared, i, inodes[i].nlink - 1);
    FileNlink(cleared, i, inodes[i].nlink - 1);
    forall j | j in inodes ensures Counted(after, pending, j) {
      assert Counted(inodes, pending, j);
      RemovedRef(inodes, d, k, j);
      RefsMember(inodes, d, k, j);
      SameRefs(cleared, i, inodes[i].nlink - 1, j);
    }
  }

  /** An empty directory is named by its one child entry alone. */
  lemma OnlyChildEntry(inodes: Inodes, d: nat, k: nat, c: nat)
    requires Directories(inodes) && Tree(inodes) && IsChild(inodes, d, k, c) && c in inodes && inodes[c].kind == Dir
    requires forall j :: 2 <= j < |inodes[c].entries| ==> inodes[c].entries[j].inum == 0
    ensures Refs(inodes, c) == {(d, k)}
  {
    forall x: nat, j: nat | Names(inodes, x, j, c) ensures x == d && j == k {
      assert WellFormed(x, inodes[x]);
      NotAParent(inodes, c, x);
      assert IsChild(inodes, x, j, c);
    }
  }

  /** No linked directory has an empty directory as its parent. */
  lemma NotAParent(inodes: Inodes, c: nat, x: nat)
    requires Directories(inodes) && Tree(inodes) && c in inodes && c != ROOT && x in inodes && Linked(inodes[x]) &&
             |inodes[x].entries| >= 2
    requires forall j :: 2 <= j < |inodes[c].entries| ==> inodes[c].entries[j].inum == 0
    ensures inodes[x].entries[1].inum != c
  {
  }

  /** The state after unlink of the empty directory c from d. */
  function Removed(inodes: Inodes, d: nat, k: nat, c: nat): Inodes
    requires d in inodes && c in inodes && c != d && k < |inodes[d].entries| && inodes[d].nlink > 0 &&
             inodes[c].nlink > 0
  {
    var cleared := WithEntry(inodes, d, k, FREE);
    var less := WithNlink(cleared, d, cleared[d].nlink - 1);
    WithNlink(less, c, less[c].nlink - 1)
  }

  /** Which references go with it: the child entry, and the ".." of c. */
  lemma RemovedRefs(inodes: Inodes, d: nat, k: nat, c: nat, i: nat)
    requires d in inodes && c in inodes && c != d && Linked(inodes[d]) && k < |inodes[d].entries| &&
             inodes[d].nlink > 1 && inodes[c].nlink == 1
    requires inodes[c].kind == Dir && WellFormed(c, inodes[c]) && inodes[c].entries[1].inum == d && i != 0
    requires forall j :: 2 <= j < |inodes[c].entries| ==> inodes[c].entries[j].inum == 0
    ensures Refs(Removed(inodes, d, k, c), i) == Refs(inodes, i) - {(d, k), (c, 1)}
    ensures (c, 1) in Refs(inodes, i) <==> i == d
  {
    var after := Removed(inodes, d, k, c);
    forall x: nat, j: nat ensures Names(after, x, j, i) <==>
        Names(inodes, x, j, i) && !(x == d && j == k) && !(x == c && j == 1) {
    }
  }

  /** A directory keeps a link besides the ".." of a child. */
  lemma ParentStaysLinked(inodes: Inodes, d: nat, c: nat)
    requires Directories(inodes) && Tree(inodes) && d in inodes && c in inodes && c != d && Linked(inodes[d]) &&
             Names(inodes, c, 1, d)
    ensures |Refs(inodes, d)| >= 2
  {
    hide WellFormed;
    var other: (nat, nat) :| other in Refs(inodes, d) && other != (c, 1) by { OtherRef(inodes, d, c); }
    assert {(c, 1), other} <= Refs(inodes, d);
    Subset({(c, 1), other}, Refs(inodes, d));
  }

  lemma OtherRef(inodes: Inodes, d: nat, c: nat)
    requires Directories(inodes) && Tree(inodes) && d in inodes && c != d && Linked(inodes[d])
    ensures exists r: (nat, nat) :: r in Refs(inodes, d) && r != (c, 1)
  {
    if d == ROOT {
      assert WellFormed(d, inodes[d]);
      RefsMember(inodes, d, 1, d);
      assert (d, 1) in Refs(inodes, d);
    } else {
      assert HasParent(inodes, d);
      var k: nat :| IsChild(inodes, inodes[d].entries[1].inum, k, d);
      RefsMember(inodes, inodes[d].entries[1].inum, k, d);
      assert (inodes[d].entries[1].inum, k) in Refs(inodes, d);
    }
  }

  lemma Subset(a: set<(nat, nat)>, b: set<(nat, nat)>)
    requires a <= b
    ensures |a| <= |b|
  {
    assert b == a + (b - a);
  }

  lemma RemovedDirectories(inodes: Inodes, d: nat, k: nat, c: nat)
    requires Directories(inodes) && d in inodes && c in inodes && c != d && Linked(inodes[d]) &&
             2 <= k < |inodes[d].entries| && inodes[d].nlink > 1 && inodes[c].nlink == 1
    requires inodes[c].kind == Dir && forall j :: 2 <= j < |inodes[c].entries| ==> inodes[c].entries[j].inum == 0
    ensures Directories(Removed(inodes, d, k, c))
  {
    assert WellFormed(c, inodes[c]);
    var after := Removed(inodes, d, k, c);
    forall x | x in after && Linked(after[x]) ensures WellFormed(x, after[x]) {
      assert WellFormed(x, inodes[x]);
    }
  }

  /** The tree without the leaf c. */
  lemma TreeWithout(inodes: Inodes, after: Inodes, d: nat, k: nat, c: nat)
    requires Tree(inodes) && after.Keys == inodes.Keys && c in inodes && c != ROOT && IsChild(inodes, d, k, c) &&
             inodes[c].kind == Dir
    requires forall x ::
               x in inodes ==>
                 after[x].kind == inodes[x].kind && (x != c ==> (Linked(after[x]) <==> Linked(inodes[x]))) &&
                 !Linked(after[c])
    requires forall x ::
               x in inodes && Linked(inodes[x]) && |inodes[x].entries| >= 2 ==>
                 |after[x].entries| >= 2 && after[x].entries[1] == inodes[x].entries[1]
    requires forall x, j, y ::
               y in inodes ==> (IsChild(after, x, j, y) <==> IsChild(inodes, x, j, y) && !(x == d && j == k))
    ensures Tree(after)
  {
    hide Names, Deeper, Grounded;
    StillGrounded(inodes, after);
    assert forall x, j :: !IsChild(after, x, j, c);
    forall y | y in after && Linked(after[y]) && y != ROOT ensures HasParent(after, y) {
      assert HasParent(inodes, y);
      var j :| IsChild(inodes, inodes[y].entries[1].inum, j, y);
      assert !(inodes[y].entries[1].inum == d && j == k) by { OneName(inodes, d, k, c, y); }
      assert IsChild(after, after[y].entries[1].inum, j, y);
    }
  }

  lemma OneName(inodes: Inodes, d: nat, k: nat, c: nat, y: nat)
    requires IsChild(inodes, d, k, c) && y != c
    ensures !IsChild(inodes, d, k, y)
  {
  }

  lemma RemovedTree(inodes: Inodes, d: nat, k: nat, c: nat)
    requires Directories(inodes) && Tree(inodes) && IsChild(inodes, d, k, c) && c in inodes && c != d &&
             Linked(inodes[d]) && inodes[d].nlink > 1 && c != ROOT
    requires inodes[c].kind == Dir && inodes[c].nlink == 1 && forall j ::
               2 <= j < |inodes[c].entries| ==> inodes[c].entries[j].inum == 0
    ensures Tree(Removed(inodes, d, k, c))
  {
    hide Tree, Directories;
    NoZero(inodes);
    var after := Removed(inodes, d, k, c);
    assert after.Keys == inodes.Keys;
    ChildrenAfter(inodes, d, k, c);
    TreeWithout(inodes, after, d, k, c);
  }

  lemma ChildrenAfter(inodes: Inodes, d: nat, k: nat, c: nat)
    requires d in inodes && c in inodes && c != d && Linked(inodes[d]) && 2 <= k < |inodes[d].entries| &&
             inodes[d].nlink > 1 && inodes[c].nlink == 1 && 0 !in inodes
    requires inodes[c].kind == Dir && forall j :: 2 <= j < |inodes[c].entries| ==> inodes[c].entries[j].inum == 0
    ensures var after := Removed(inodes, d, k, c);
            forall x, j, y ::
                y in inodes ==> (IsChild(after, x, j, y) <==> IsChild(inodes, x, j, y) && !(x == d && j == k))
  {
  }

  lemma UnlinkDirectory(inodes: Inodes, pending: multiset<nat>, d: nat, k: nat, c: nat)
    requires Inv(inodes, pending) && IsChild(inodes, d, k, c) && c in inodes && inodes[c].kind == Dir
    requires forall j :: 2 <= j < |inodes[c].entries| ==> inodes[c].entries[j].inum == 0
    ensures d in inodes && c != d && inodes[c].nlink == 1 && inodes[d].nlink > 1 &&
            Inv(Removed(inodes, d, k, c), pending)
  {
    hide Directories, Tree, Refs, Removed;
    ChildFacts(inodes, d, k, c);
    OnlyChildEntry(inodes, d, k, c);
    assert Counted(inodes, pending, c) && Counted(inodes, pending, d);
    ParentStaysLinked(inodes, d, c);
    UnlinkDirectoryCounts(inodes, pending, d, k, c);
    RemovedDirectories(inodes, d, k, c);
    RemovedTree(inodes, d, k, c);
  }

  lemma ChildFacts(inodes: Inodes, d: nat, k: nat, c: nat)
    requires Directories(inodes) && Tree(inodes) && IsChild(inodes, d, k, c) && c in inodes && inodes[c].kind == Dir
    ensures 0 !in inodes && c != d && c != ROOT && WellFormed(c, inodes[c]) && inodes[c].entries[1].inum == d &&
            Names(inodes, c, 1, d)
  {
  }

  lemma UnlinkDirectoryCounts(inodes: Inodes, pending: multiset<nat>, d: nat, k: nat, c: nat)
    requires Counts(inodes, pending) && 0 !in inodes && IsChild(inodes, d, k, c) && c in inodes && c != d &&
             inodes[c].kind == Dir
    requires WellFormed(c, inodes[c]) && inodes[c].entries[1].inum == d && inodes[c].nlink == 1 && inodes[d].nlink > 1
    requires forall j :: 2 <= j < |inodes[c].entries| ==> inodes[c].entries[j].inum == 0
    ensures Counts(Removed(inodes, d, k, c), pending)
  {
    hide Refs, WellFormed, Removed;
    var after := Removed(inodes, d, k, c);
    RemovedNlink(inodes, d, k, c);
    forall i | i in inodes ensures Counted(after, pending, i) {
      assert Counted(inodes, pending, i);
      RemovedRefs(inodes, d, k, c, i);
      RefsMember(inodes, d, k, i);
      Fewer(Refs(inodes, i), Refs(after, i), (d, k), (c, 1));
    }
  }

  lemma RemovedNlink(inodes: Inodes, d: nat, k: nat, c: nat)
    requires d in inodes && c in inodes && c != d && k < |inodes[d].entries| && inodes[d].nlink > 0 &&
             inodes[c].nlink > 0
    ensures var after := Removed(inodes, d, k, c);
            after.Keys == inodes.Keys && forall i :: i in inodes ==>
              after[i].kind == inodes[i].kind && after[i].nlink == inodes[i].nlink - if i == c || i == d then 1 else 0
  {
  }

  lemma Fewer(a: set<(nat, nat)>, b: set<(nat, nat)>, x: (nat, nat), y: (nat, nat))
    requires b == a - {x, y} && x != y && !(x in a && y in a)
    ensures |b| == |a| - if x in a || y in a then 1 else 0
  {
  }

  // ---- create

  /** A new inode: a directory gets "." and "..". */
  function NewInode(kind: Kind, n: nat, d: nat): Inode {
    Inode(kind, 1, if kind == Dir then [Entry(n, "."), Entry(d, "..")] else [])
  }

  /** The state after create of n as name in d. */
  function Created(inodes: Inodes, d: nat, k: nat, name: string, n: nat, kind: Kind): Inodes
    requires d in inodes && k <= |inodes[d].entries|
  {
    var dp := inodes[d].(entries := Entered(inodes[d].entries, k, Entry(n, name)),
      nlink := inodes[d].nlink + if kind == Dir then 1 else 0);
    inodes[n := NewInode(kind, n, d)][d := dp]
  }

  /** What the new entries name. */
  lemma CreatedNames(inodes: Inodes, d: nat, k: nat, name: string, n: nat, kind: Kind, x: nat, j: nat, i: nat)
    requires Writable(inodes, d, k, name) && Linked(inodes[d]) && n !in inodes && i != 0 && name != "."
    ensures Names(Created(inodes, d, k, name, n, kind), x, j, i) <==>
              Names(inodes, x, j, i) || (x == d && j == k && i == n) || (kind == Dir && x == n && j == 1 && i == d)
  {
  }

  /** A number that is not allocated is not named. */
  lemma Unnamed(inodes: Inodes, d: nat, k: nat, n: nat)
    requires Directories(inodes) && n !in inodes && n != 0
    ensures !Names(inodes, d, k, n)
  {
  }

  lemma CreatedRefs(inodes: Inodes, d: nat, k: nat, name: string, n: nat, kind: Kind, i: nat)
    requires Writable(inodes, d, k, name) && Linked(inodes[d]) && n !in inodes && n != d && i != 0 && name != "."
    ensures Refs(Created(inodes, d, k, name, n, kind), i) ==
              Refs(inodes, i) + (if i == n then {(d, k)} else {}) + (if kind == Dir && i == d then {(n, 1)} else {})
    ensures (n, 1) !in Refs(inodes, i)
  {
    hide Created;
    var after := Created(inodes, d, k, name, n, kind);
    forall x: nat, j: nat ensures (x, j) in Refs(after, i) <==>
        (x, j) in Refs(inodes, i) || (x == d && j == k && i == n) || (kind == Dir && x == n && j == 1 && i == d) {
      CreatedNames(inodes, d, k, name, n, kind, x, j, i);
      RefsMember(after, x, j, i);
      RefsMember(inodes, x, j, i);
    }
  }

  lemma CreatedDirectories(inodes: Inodes, d: nat, k: nat, name: string, n: nat, kind: Kind)
    requires Directories(inodes) && Writable(inodes, d, k, name) && Linked(inodes[d]) && n !in inodes && n != 0
    ensures Directories(Created(inodes, d, k, name, n, kind))
  {
    WritablePlace(inodes, d, k, name);
    var after := Created(inodes, d, k, name, n, kind);
    assert d != 0;
    forall x | x in after && Linked(after[x]) ensures WellFormed(x, after[x]) {
      if x != n {
        assert WellFormed(x, inodes[x]);
      }
    }
  }

  /** The tree with one more leaf, or one more file. */
  lemma TreeWith(inodes: Inodes, after: Inodes, d: nat, k: nat, n: nat)
    requires Tree(inodes) && after.Keys == inodes.Keys + {n} && n !in inodes && d in inodes && Linked(inodes[d]) &&
             k >= 2 && n != ROOT
    requires forall x :: x in inodes ==> after[x].kind == inodes[x].kind && (Linked(after[x]) <==> Linked(inodes[x]))
    requires forall x ::
               x in inodes && Linked(inodes[x]) && |inodes[x].entries| >= 2 ==>
                 |after[x].entries| >= 2 && after[x].entries[1] == inodes[x].entries[1]
    requires forall x, j, y :: y in inodes ==> (IsChild(after, x, j, y) <==> IsChild(inodes, x, j, y))
    requires forall x, j :: IsChild(after, x, j, n) <==> x == d && j == k
    requires after[n].kind == Dir ==> Linked(after[n]) && |after[n].entries| == 2 && after[n].entries[1].inum == d
    ensures Tree(after)
  {
    hide Names, Deeper, Grounded;
    GroundedWith(inodes, after, d, n);
    forall y | y in after && Linked(after[y]) && y != ROOT ensures HasParent(after, y) {
      if y == n {
        assert IsChild(after, after[y].entries[1].inum, k, y);
      } else {
        assert HasParent(inodes, y);
        var j :| IsChild(inodes, inodes[y].entries[1].inum, j, y);
        assert IsChild(after, after[y].entries[1].inum, j, y);
      }
    }
  }

  /** The new directory is below its parent, and nothing is below it. */
  lemma GroundedWith(inodes: Inodes, after: Inodes, d: nat, n: nat)
    requires Tree(inodes) && after.Keys == inodes.Keys + {n} && n !in inodes && d in inodes && Linked(inodes[d])
    requires forall x :: x in inodes ==> (Linked(after[x]) <==> Linked(inodes[x]))
    requires forall x ::
               x in inodes && Linked(inodes[x]) && |inodes[x].entries| >= 2 ==>
                 |after[x].entries| >= 2 && after[x].entries[1] == inodes[x].entries[1]
    requires after[n].kind == Dir ==> |after[n].entries| == 2 && after[n].entries[1].inum == d
    ensures Grounded(after)
  {
    var depth :| Deeper(inodes, depth);
    assert d in depth by { assert d != ROOT ==> HasParent(inodes, d); }
    var more := depth[n := depth[d] + 1];
    forall c | c in after && Linked(after[c]) && c != ROOT
      ensures c in more && |after[c].entries| >= 2 && after[c].entries[1].inum in more &&
              more[after[c].entries[1].inum] < more[c]
    {
      if c != n {
        assert HasParent(inodes, c);
      }
    }
    assert Deeper(after, more);
  }

  lemma CreatedTree(inodes: Inodes, d: nat, k: nat, name: string, n: nat, kind: Kind)
    requires Directories(inodes) && Tree(inodes) && Writable(inodes, d, k, name) && Linked(inodes[d]) &&
             n !in inodes && n != 0
    ensures Tree(Created(inodes, d, k, name, n, kind))
  {
    hide Tree, Directories, Names;
    WritablePlace(inodes, d, k, name);
    RootThere(inodes);
    NoZero(inodes);
    var after := Created(inodes, d, k, name, n, kind);
    CreatedShape(inodes, d, k, name, n, kind);
    forall x: nat, j: nat, y: nat | y in inodes ensures IsChild(after, x, j, y) <==> IsChild(inodes, x, j, y) {
      CreatedNames(inodes, d, k, name, n, kind, x, j, y);
    }
    forall x: nat, j: nat ensures IsChild(after, x, j, n) <==> x == d && j == k {
      CreatedNames(inodes, d, k, name, n, kind, x, j, n);
      Unnamed(inodes, x, j, n);
    }
    TreeWith(inodes, after, d, k, n);
  }

  lemma RootThere(inodes: Inodes)
    requires Tree(inodes)
    ensures ROOT in inodes
  {
  }

  lemma CreatedShape(inodes: Inodes, d: nat, k: nat, name: string, n: nat, kind: Kind)
    requires Writable(inodes, d, k, name) && Linked(inodes[d]) && n !in inodes && k >= 2
    ensures var after := Created(inodes, d, k, name, n, kind);
            && after.Keys == inodes.Keys + {n} && after[n] == NewInode(kind, n, d)
            && (forall x ::
                   x in inodes ==> after[x].kind == inodes[x].kind && (Linked(after[x]) <==> Linked(inodes[x])))
            && (forall x :: x in inodes ==> after[x].nlink == inodes[x].nlink + if x == d && kind == Dir then 1 else 0)
            && (forall x ::
                   x in inodes && Linked(inodes[x]) && |inodes[x].entries| >= 2 ==>
                     |after[x].entries| >= 2 && after[x].entries[1] == inodes[x].entries[1])
  {
  }

  lemma CreateSucceeds(inodes: Inodes, pending: multiset<nat>, d: nat, k: nat, name: string, n: nat, kind: Kind)
    requires Inv(inodes, pending) && Writable(inodes, d, k, name) && Linked(inodes[d]) && n !in inodes && n != 0
    ensures Inv(Created(inodes, d, k, name, n, kind), pending)
  {
    hide Directories, Tree, Refs, Created;
    NoZero(inodes);
    WritablePlace(inodes, d, k, name);
    CreatedDirectories(inodes, d, k, name, n, kind);
    CreatedTree(inodes, d, k, name, n, kind);
    CreatedShape(inodes, d, k, name, n, kind);
    NoRefs(inodes, n);
    var after := Created(inodes, d, k, name, n, kind);
    forall i | i in after ensures Counted(after, pending, i) {
      assert i in inodes ==> Counted(inodes, pending, i);
      CreatedRefs(inodes, d, k, name, n, kind, i);
    }
  }

  lemma NoRefs(inodes: Inodes, n: nat)
    requires Directories(inodes) && n !in inodes && n != 0
    ensures Refs(inodes, n) == {}
  {
  }

  /** In a directory that has been removed, the new inode's link is counted nowhere. */
  lemma CreateInRemoved(inodes: Inodes, pending: multiset<nat>, d: nat, k: nat, name: string, n: nat, kind: Kind)
    requires Inv(inodes, pending) && Writable(inodes, d, k, name) && inodes[d].kind == Dir && !Linked(inodes[d]) &&
             n !in inodes && n != 0 && kind != Dir
    ensures !Counted(Created(inodes, d, k, name, n, kind), pending, n)
  {
    hide Directories, Tree, Refs;
    UncountedRefs(inodes, d, k, name, n, kind);
  }

  lemma UncountedRefs(inodes: Inodes, d: nat, k: nat, name: string, n: nat, kind: Kind)
    requires Directories(inodes) && Writable(inodes, d, k, name) && inodes[d].kind == Dir && !Linked(inodes[d]) &&
             n !in inodes && n != 0 && kind != Dir
    ensures Refs(Created(inodes, d, k, name, n, kind), n) == {}
  {
  }

  /** create's failure path: an inode without links, and at most "." and "..". */
  lemma CreateFails(inodes: Inodes, pending: multiset<nat>, n: nat, kind: Kind, entries: seq<Entry>)
    requires Inv(inodes, pending) && n !in inodes && n != 0 && Childless(n, Inode(kind, 0, entries))
    ensures Inv(inodes[n := Inode(kind, 0, entries)], pending)
  {
    hide Directories, Tree, Refs;
    var after := inodes[n := Inode(kind, 0, entries)];
    NoRefs(inodes, n);
    UnlinkedTree(inodes, n, kind, entries);
    UnlinkedDirectories(inodes, n, kind, entries);
    forall i | i in after ensures Counted(after, pending, i) {
      UnlinkedRefs(inodes, n, kind, entries, i);
      assert i in inodes ==> Counted(inodes, pending, i);
    }
  }

  lemma UnlinkedRefs(inodes: Inodes, n: nat, kind: Kind, entries: seq<Entry>, i: nat)
    requires n !in inodes
    ensures Refs(inodes[n := Inode(kind, 0, entries)], i) == Refs(inodes, i)
  {
  }

  lemma UnlinkedDirectories(inodes: Inodes, n: nat, kind: Kind, entries: seq<Entry>)
    requires Directories(inodes) && n !in inodes && n != 0 && Childless(n, Inode(kind, 0, entries))
    ensures Directories(inodes[n := Inode(kind, 0, entries)])
  {
  }

  lemma UnlinkedNames(inodes: Inodes, n: nat, kind: Kind, entries: seq<Entry>, x: nat, j: nat, y: nat)
    requires n !in inodes
    ensures Names(inodes[n := Inode(kind, 0, entries)], x, j, y) <==> Names(inodes, x, j, y)
  {
  }

  lemma UnlinkedTree(inodes: Inodes, n: nat, kind: Kind, entries: seq<Entry>)
    requires Directories(inodes) && Tree(inodes) && n !in inodes && n != 0
    ensures Tree(inodes[n := Inode(kind, 0, entries)])
  {
    hide Deeper, Grounded, Names, Directories;
    var after := inodes[n := Inode(kind, 0, entries)];
    assert forall c :: c in inodes && Linked(inodes[c]) && c != ROOT ==> HasParent(inodes, c);
    StillGrounded(inodes, after);
    forall x: nat, j: nat, y: nat ensures IsChild(after, x, j, y) <==> IsChild(inodes, x, j, y) {
      UnlinkedNames(inodes, n, kind, entries, x, j, y);
    }
    forall x: nat, j: nat ensures !IsChild(inodes, x, j, n) { Unnamed(inodes, x, j, n); }
    forall y | y in after && Linked(after[y]) && y != ROOT ensures HasParent(after, y) {
      assert HasParent(inodes, y);
      var j :| IsChild(inodes, inodes[y].entries[1].inum, j, y);
      assert IsChild(after, after[y].entries[1].inum, j, y);
    }
  }

  // ---- iput frees an inode without links

  lemma FreedRefs(inodes: Inodes, n: nat, i: nat)
    requires n in inodes && inodes[n].nlink == 0
    ensures Refs(inodes - {n}, i) == Refs(inodes, i)
  {
  }

  lemma FreedDirectories(inodes: Inodes, n: nat)
    requires Directories(inodes) && n in inodes && inodes[n].nlink == 0 && Refs(inodes, n) == {}
    ensures Directories(inodes - {n})
  {
    var after := inodes - {n};
    forall d, k | d in after && Linked(after[d]) && 0 <= k < |after[d].entries| &&
      after[d].entries[k].inum != 0 ensures after[d].entries[k].inum in after {
      assert WellFormed(d, inodes[d]);
      RefsMember(inodes, d, k, n);
    }
  }

  lemma FreedTree(inodes: Inodes, n: nat)
    requires Tree(inodes) && n in inodes && inodes[n].nlink == 0
    ensures Tree(inodes - {n})
  {
    hide Deeper, Grounded;
    var after := inodes - {n};
    assert forall c :: c in inodes && Linked(inodes[c]) && c != ROOT ==> HasParent(inodes, c);
    StillGrounded(inodes, after);
    assert forall x, j, y :: IsChild(after, x, j, y) <==> IsChild(inodes, x, j, y);
    forall y | y in after && Linked(after[y]) && y != ROOT ensures HasParent(after, y) {
      assert HasParent(inodes, y);
      var j :| IsChild(inodes, inodes[y].entries[1].inum, j, y);
      assert IsChild(after, after[y].entries[1].inum, j, y);
    }
  }

  lemma Freed(inodes: Inodes, pending: multiset<nat>, n: nat)
    requires Inv(inodes, pending) && n in inodes && inodes[n].nlink == 0
    ensures Inv(inodes - {n}, pending)
  {
    hide Directories, Tree, Refs;
    assert Counted(inodes, pending, n);
    FreedDirectories(inodes, n);
    FreedTree(inodes, n);
    forall i | i in inodes - {n} ensures Counted(inodes - {n}, pending, i) {
      FreedRefs(inodes, n, i);
      assert Counted(inodes, pending, i);
    }
  }

  // ---- the operations

  class FileTree {
    var inodes: Inodes
    /** Inodes that a link in progress has counted but not entered yet. */
    ghost var pending: multiset<nat>

    const ninodes: nat

    /** The file system that mkfs leaves: a root that is its own parent. */
    constructor (size: nat)
      ensures Inv(inodes, pending) && pending == multiset{} && ninodes == size
      ensures inodes == map[ROOT := Inode(Dir, 1, [Entry(ROOT, "."), Entry(ROOT, "..")])]
    {
      inodes := map[ROOT := Inode(Dir, 1, [Entry(ROOT, "."), Entry(ROOT, "..")])];
      pending := multiset{};
      ninodes := size;
      new;
      RootInv(inodes);
    }

    /** sys_link, first half: with ip locked. */
    method LinkBegin(ip: nat) returns (ok: bool)
      requires Inv(inodes, pending) && ip in inodes
      modifies this
      ensures Inv(inodes, pending) && (ok <==> old(inodes)[ip].kind != Dir)
      ensures if ok then pending == old(pending) + multiset{ip} &&
              inodes == WithNlink(old(inodes), ip, old(inodes)[ip].nlink + 1)
              else pending == old(pending) && inodes == old(inodes)
    {
      hide Inv;
      if inodes[ip].kind == Dir { return false; }
      LinkBegins(inodes, pending, ip);
      inodes := inodes[ip := inodes[ip].(nlink := inodes[ip].nlink + 1)];
      pending := pending + multiset{ip};
      return true;
    }

    /** sys_link, second half: the entry, or the count taken back. found is the outcome of nameiparent, room
        that of growing the directory. */
    method LinkEnd(dp: nat, name: string, ip: nat, found: bool, room: bool) returns (ok: bool)
      requires Inv(inodes, pending) && ip in pending && (found ==> dp in inodes && inodes[dp].kind == Dir)
      modifies this
      ensures pending == old(pending) - multiset{ip} && inodes.Keys == old(inodes).Keys && (ok ==> found)
      ensures Inv(inodes, pending) <==> !ok || old(inodes)[dp].nlink > 0
      ensures Counts(inodes, pending) <==> !ok || old(inodes)[dp].nlink > 0
      ensures ok <==> found && Absent(old(inodes)[dp].entries, name) && (room || HasSlot(old(inodes)[dp].entries))
      ensures ok ==>
                exists k: nat ::
                  Writable(old(inodes), dp, k, name) && inodes == WithEntry(old(inodes), dp, k, Entry(ip, name))
      ensures !ok ==>
                ip in old(inodes) && old(inodes)[ip].nlink > 0 &&
                inodes == WithNlink(old(inodes), ip, old(inodes)[ip].nlink - 1)
    {
      hide Directories, Tree, Counts;
      PendingThere(inodes, pending, ip);
      if found {
        ok := Enter(dp, name, ip, room);
        if ok { return true; }
      }
      LinkFails(inodes, pending, ip);
      inodes := inodes[ip := inodes[ip].(nlink := inodes[ip].nlink - 1)];
      pending := pending - multiset{ip};
      return false;
    }

    /** The dirlink of sys_link. */
    method Enter(dp: nat, name: string, ip: nat, room: bool) returns (ok: bool)
      requires Inv(inodes, pending) && ip in pending && dp in inodes && inodes[dp].kind == Dir
      modifies this
      ensures !ok ==> inodes == old(inodes) && pending == old(pending)
      ensures ok ==> pending == old(pending) - multiset{ip} && inodes.Keys == old(inodes).Keys && ip in inodes
      ensures ok ==> (Inv(inodes, pending) <==> old(inodes)[dp].nlink > 0)
      ensures ok ==> (Counts(inodes, pending) <==> old(inodes)[dp].nlink > 0)
      ensures ok <==> Absent(old(inodes)[dp].entries, name) && (room || HasSlot(old(inodes)[dp].entries))
      ensures ok ==>
                exists k: nat ::
                  Writable(old(inodes), dp, k, name) && inodes == WithEntry(old(inodes), dp, k, Entry(ip, name))
    {
      hide Directories, Tree, Counts;
      var off, after;
      ok, off, after := DirLink(inodes[dp].entries, name, ip, room);
      if ok {
        LinkedOutcome(inodes, pending, dp, off, name, ip);
        PendingThere(inodes, pending, ip);
        inodes := inodes[dp := inodes[dp].(entries := after)];
        assert Writable(old(inodes), dp, off, name) && inodes == WithEntry(old(inodes), dp, off, Entry(ip, name));
        pending := pending - multiset{ip};
      }
    }

    /** sys_unlink, with dp and the inode it finds locked; panic is its check of nlink. */
    method Unlink(dp: nat, name: string) returns (ok: bool, panic: bool, ghost k: nat)
      requires Inv(inodes, pending) && dp in inodes && inodes[dp].kind == Dir
      modifies this`inodes
      ensures Inv(inodes, pending) && !panic && (!ok ==> inodes == old(inodes))
      ensures ok <==>
                name != "." && name != ".." && !Absent(old(inodes)[dp].entries, name) &&
                !Occupied(old(inodes), dp, name)
      ensures ok ==>
                k < |old(inodes)[dp].entries| && old(inodes)[dp].entries[k].inum != 0 &&
                old(inodes)[dp].entries[k].name == name
      ensures ok ==>
                var c := old(inodes)[dp].entries[k].inum; c in old(inodes) && Unlinked(old(inodes), inodes, dp, k, c)
    {
      hide Inv, Counted, Refs, Occupied, Removed, Unlinked;
      k := 0;
      if name == "." || name == ".." { return false, false, 0; }
      var off := DirLookup(inodes[dp].entries, name);
      if off == -1 { return false, false, 0; }
      k := off;
      FoundEntry(inodes, pending, dp, off, name);
      var ip := inodes[dp].entries[off].inum;
      if inodes[ip].nlink < 1 { return false, true, k; }
      FoundOccupied(inodes, dp, off, name);
      if inodes[ip].kind == Dir {
        var empty := IsDirEmpty(inodes[ip].entries);
        if !empty { return false, false, k; }
        UnlinkDirectory(inodes, pending, dp, off, ip);
        RemovedIs(inodes, dp, off, ip);
        inodes := inodes[dp := inodes[dp].(entries := inodes[dp].entries[off := FREE])];
        inodes := inodes[dp := inodes[dp].(nlink := inodes[dp].nlink - 1)];
        inodes := inodes[ip := inodes[ip].(nlink := inodes[ip].nlink - 1)];
        assert inodes == Removed(old(inodes), dp, off, ip);
      } else {
        UnlinkFile(inodes, pending, dp, off);
        FileUnlinkedIs(inodes, dp, off, ip);
        inodes := inodes[dp := inodes[dp].(entries := inodes[dp].entries[off := FREE])];
        inodes := inodes[ip := inodes[ip].(nlink := inodes[ip].nlink - 1)];
        assert inodes == WithNlink(WithEntry(old(inodes), dp, off, FREE), ip, old(inodes)[ip].nlink - 1);
      }
      return true, false, k;
    }

    /** ialloc's search: the lowest number that is not allocated, 0 for none. */
    method Ialloc() returns (n: nat)
      ensures FirstFree(inodes, ninodes, n)
    {
      n := 1;
      while n < ninodes
        invariant 1 <= n && forall i :: 0 < i < n ==> i in inodes
      {
        if n !in inodes { return; }
        n := n + 1;
      }
      return 0;
    }

    /** create, with dp locked: n is what ialloc finds when the name is absent; the rooms are the outcomes of
        growing the two directories. */
    method Create(dp: nat, name: string, kind: Kind, roomNew: bool, roomUp: bool, room: bool)
      returns (ip: nat, ghost n: nat)
      requires Inv(inodes, pending) && dp in inodes && inodes[dp].kind == Dir
      modifies this`inodes
      ensures if Absent(old(inodes)[dp].entries, name) then FirstFree(old(inodes), ninodes, n) else n == 0
      ensures dp in inodes && (Inv(inodes, pending) <==> old(inodes)[dp].nlink > 0 || ip != n || n == 0)
      ensures Counts(inodes, pending) <==>
                || old(inodes)[dp].nlink > 0 || ip != n || n == 0
                || (kind == Dir && name != "." && Detached(old(inodes), dp, n))
      ensures ip == n != 0 <==>
                n != 0 && Absent(old(inodes)[dp].entries, name) && (room || HasSlot(old(inodes)[dp].entries)) &&
                (kind == Dir ==> roomNew && roomUp)
      ensures ip == n != 0 ==>
                exists k: nat ::
                  Writable(old(inodes), dp, k, name) && inodes == Created(old(inodes), dp, k, name, n, kind)
      ensures Absent(old(inodes)[dp].entries, name) ==> ip == 0 || ip == n
      ensures ip != n && ip != 0 ==> inodes == old(inodes) && exists k: nat :: IsFirst(inodes[dp].entries, name, k)
      ensures forall k: nat :: IsFirst(old(inodes)[dp].entries, name, k) ==>
                inodes == old(inodes) && ip == Opened(old(inodes), old(inodes)[dp].entries[k].inum, kind)
      ensures ip == 0 ==> forall x :: x in old(inodes) ==> x in inodes && inodes[x] == old(inodes)[x]
    {
      hide Directories, Tree, Counts, Detached;
      n := 0;
      var off := DirLookup(inodes[dp].entries, name);
      if off != -1 {
        ip := inodes[dp].entries[off].inum;
        assert forall k: nat :: IsFirst(inodes[dp].entries, name, k) ==> k == off;
        if ip in inodes && kind == File && inodes[ip].kind != Dir {
          return ip, 0;
        }
        return 0, 0;
      }
      ip := Ialloc();
      n := ip;
      if ip == 0 { return; }
      ghost var before := inodes;
      inodes := inodes[ip := Inode(kind, 1, [])];
      if kind == Dir {
        var ok := Dots(dp, ip, roomNew, roomUp);
        if !ok {
          Fail(before, ip);
          return 0, n;
        }
      }
      var ok, k, entries := DirLink(inodes[dp].entries, name, ip, room);
      if !ok {
        Fail(before, ip);
        return 0, n;
      }
      CreatedOutcome(before, pending, dp, k, name, n, kind);
      CreatedCounts(before, pending, dp, k, name, n, kind);
      inodes := inodes[dp := inodes[dp].(entries := entries)];
      if kind == Dir {
        inodes := inodes[dp := inodes[dp].(nlink := inodes[dp].nlink + 1)];
      }
      assert Writable(before, dp, k, name) && inodes == Created(before, dp, k, name, n, kind);
      return ip, n;
    }

    /** "." and ".." of a new directory. */
    method Dots(dp: nat, n: nat, roomNew: bool, roomUp: bool) returns (ok: bool)
      requires n in inodes && inodes[n] == Inode(Dir, 1, []) && n != 0
      modifies this`inodes
      ensures n in inodes && inodes == old(inodes)[n := inodes[n]] && inodes[n].kind == Dir && Childless(n, inodes[n])
      ensures ok <==> roomNew && roomUp
      ensures ok ==> inodes[n] == NewInode(Dir, n, dp)
    {
      var at, entries;
      ok, at, entries := DirLink(inodes[n].entries, ".", n, roomNew);
      inodes := inodes[n := inodes[n].(entries := entries)];
      if ok {
        ok, at, entries := DirLink(inodes[n].entries, "..", dp, roomUp);
        inodes := inodes[n := inodes[n].(entries := entries)];
      }
    }

    /** The failure path of create. */
    method Fail(ghost before: Inodes, n: nat)
      requires Inv(before, pending) && n !in before && n != 0 && n in inodes && inodes == before[n := inodes[n]] &&
               Childless(n, inodes[n])
      modifies this`inodes
      ensures Inv(inodes, pending) && inodes.Keys == before.Keys + {n} && forall x ::
                x in before ==> inodes[x] == before[x]
    {
      hide Inv;
      CreateFails(before, pending, n, inodes[n].kind, inodes[n].entries);
      inodes := inodes[n := inodes[n].(nlink := 0)];
      assert inodes == before[n := Inode(inodes[n].kind, 0, inodes[n].entries)];
    }

    /** iput, for the last reference to an inode without links. */
    method Free(n: nat)
      requires Inv(inodes, pending) && n in inodes && inodes[n].nlink == 0
      modifies this`inodes
      ensures Inv(inodes, pending) && inodes == old(inodes) - {n}
    {
      hide Inv;
      Freed(inodes, pending, n);
      inodes := inodes - {n};
    }
  }

  /** A new directory makes a removed parent count as linked again, without a place in the tree. */
  lemma DirectoryInRemoved(inodes: Inodes, pending: multiset<nat>, d: nat, k: nat, name: string, n: nat)
    requires Inv(inodes, pending) && Writable(inodes, d, k, name) && inodes[d].kind == Dir && inodes[d].nlink == 0 &&
             n !in inodes && n != 0
    ensures !Tree(Created(inodes, d, k, name, n, Dir))
  {
    hide Directories, Refs;
    NoZero(inodes);
    assert Counted(inodes, pending, d);
    var after := Created(inodes, d, k, name, n, Dir);
    forall x: nat, j: nat | x != d ensures !IsChild(after, x, j, d) {
      RefsMember(inodes, x, j, d);
    }
    assert d != ROOT && Linked(after[d]);
    assert HasParent(after, d) ==> exists j :: IsChild(after, d, j, d);
  }

  /** create keeps the counts and the tree exactly when the directory is still linked. */
  lemma CreatedOutcome(inodes: Inodes, pending: multiset<nat>, d: nat, k: nat, name: string, n: nat, kind: Kind)
    requires Inv(inodes, pending) && Writable(inodes, d, k, name) && inodes[d].kind == Dir && n !in inodes && n != 0
    ensures Inv(Created(inodes, d, k, name, n, kind), pending) <==> inodes[d].nlink > 0
  {
    hide Directories, Tree, Counted, Created;
    if inodes[d].nlink > 0 {
      CreateSucceeds(inodes, pending, d, k, name, n, kind);
    } else if kind == Dir {
      DirectoryInRemoved(inodes, pending, d, k, name, n);
    } else {
      NewThere(inodes, d, k, name, n, kind);
      CreateInRemoved(inodes, pending, d, k, name, n, kind);
    }
  }

  /** No entry of d but its "." names an inode that is allocated, or is n. */
  predicate Detached(inodes: Inodes, d: nat, n: nat)
    requires d in inodes
  {
    forall j ::
        0 <= j < |inodes[d].entries| && (inodes[d].entries[j].inum in inodes || inodes[d].entries[j].inum == n) ==>
      inodes[d].entries[j].name == "."
  }

  /** create keeps the counts alone exactly when the directory is still linked, or the new inode is a
      directory and the removed one, which counts as linked again, names nothing besides. */
  lemma CreatedCounts(inodes: Inodes, pending: multiset<nat>, d: nat, k: nat, name: string, n: nat, kind: Kind)
    requires Inv(inodes, pending) && Writable(inodes, d, k, name) && inodes[d].kind == Dir && n !in inodes && n != 0
    ensures Counts(Created(inodes, d, k, name, n, kind), pending) <==>
              inodes[d].nlink > 0 || (kind == Dir && name != "." && Detached(inodes, d, n))
  {
    hide Directories, Tree, Counted, Created, Detached;
    if inodes[d].nlink > 0 {
      CreateSucceeds(inodes, pending, d, k, name, n, kind);
    } else if kind != Dir {
      NewThere(inodes, d, k, name, n, kind);
      CreateInRemoved(inodes, pending, d, k, name, n, kind);
    } else if name == "." || !Detached(inodes, d, n) {
      NotDetached(inodes, pending, d, k, name, n);
    } else {
      DetachedCounts(inodes, pending, d, k, name, n);
    }
  }

  /** Entry j names i, and is not ".". */
  predicate NamesOther(entries: seq<Entry>, j: nat, i: nat) {
    j < |entries| && entries[j].inum == i && entries[j].name != "."
  }

  /** What the entries of a removed directory name once a new directory makes it count as linked. */
  lemma RevivedNames(inodes: Inodes, d: nat, k: nat, name: string, n: nat, x: nat, j: nat, i: nat)
    requires Writable(inodes, d, k, name) && inodes[d].kind == Dir && inodes[d].nlink == 0 && n !in inodes && i != 0
    ensures Names(Created(inodes, d, k, name, n, Dir), x, j, i) <==>
              if x == d && j == k then i == n && name != "."
              else if x == d then NamesOther(inodes[d].entries, j, i)
              else if x == n then j == 1 && i == d
              else Names(inodes, x, j, i)
  {
  }

  lemma RevivedShape(inodes: Inodes, d: nat, k: nat, name: string, n: nat)
    requires Writable(inodes, d, k, name) && inodes[d].kind == Dir && inodes[d].nlink == 0 && n !in inodes
    ensures var after := Created(inodes, d, k, name, n, Dir);
            && after.Keys == inodes.Keys + {n} && after[n].nlink == 1
            && forall x ::
                   x in inodes ==>
                     after[x].kind == inodes[x].kind && after[x].nlink == if x == d then 1 else inodes[x].nlink
  {
  }

  /** Nothing names an inode without links. */
  lemma NoneNames(inodes: Inodes, pending: multiset<nat>, d: nat, x: nat, j: nat)
    requires Counts(inodes, pending) && d in inodes && inodes[d].nlink == 0
    ensures !Names(inodes, x, j, d)
  {
    hide Refs;
    assert Counted(inodes, pending, d);
    RefsMember(inodes, x, j, d);
  }

  lemma DetachedCounts(inodes: Inodes, pending: multiset<nat>, d: nat, k: nat, name: string, n: nat)
    requires Inv(inodes, pending) && Writable(inodes, d, k, name) && inodes[d].kind == Dir && inodes[d].nlink == 0
    requires n !in inodes && n != 0 && name != "." && Detached(inodes, d, n)
    ensures Counts(Created(inodes, d, k, name, n, Dir), pending)
  {
    hide Directories, Tree, Created, Names;
    NoZero(inodes);
    var after := Created(inodes, d, k, name, n, Dir);
    RevivedShape(inodes, d, k, name, n);
    forall i | i in after ensures Counted(after, pending, i) {
      forall x: nat, j: nat
        ensures Names(after, x, j, i) <==>
                  if i == n then x == d && j == k else if i == d then x == n && j == 1 else Names(inodes, x, j, i)
      {
        RevivedNames(inodes, d, k, name, n, x, j, i);
        Unnamed(inodes, x, j, n);
        NoneNames(inodes, pending, d, x, j);
        NotLinked(inodes, d, j, i);
        NotLinked(inodes, n, j, i);
      }
      DetachedRefs(inodes, after, d, k, n, i);
      assert i in inodes ==> Counted(inodes, pending, i);
    }
  }

  lemma NotLinked(inodes: Inodes, d: nat, j: nat, i: nat)
    requires d !in inodes || inodes[d].nlink == 0
    ensures !Names(inodes, d, j, i)
  {
  }

  lemma DetachedRefs(inodes: Inodes, after: Inodes, d: nat, k: nat, n: nat, i: nat)
    requires forall x: nat, j: nat ::
               Names(after, x, j, i) <==>
                   if i == n then x == d && j == k else if i == d then x == n && j == 1 else Names(inodes, x, j, i)
    ensures Refs(after, i) == if i == n then {(d, k)} else if i == d then {(n, 1)} else Refs(inodes, i)
  {
    hide Names;
    forall x: nat, j: nat
      ensures (x, j) in Refs(after, i) <==>
                if i == n then x == d && j == k else if i == d then x == n && j == 1 else (x, j) in Refs(inodes, i)
    {
      RefsMember(after, x, j, i);
      RefsMember(inodes, x, j, i);
    }
  }

  /** The ".." of a removed directory, or the name ".", spoils a count. */
  lemma NotDetached(inodes: Inodes, pending: multiset<nat>, d: nat, k: nat, name: string, n: nat)
    requires Inv(inodes, pending) && Writable(inodes, d, k, name) && inodes[d].kind == Dir && inodes[d].nlink == 0
    requires n !in inodes && n != 0 && (name == "." || !Detached(inodes, d, n))
    ensures !Counts(Created(inodes, d, k, name, n, Dir), pending)
  {
    hide Tree, Created, Names, Counted;
    var after := Created(inodes, d, k, name, n, Dir);
    RevivedShape(inodes, d, k, name, n);
    if name == "." {
      assert inodes[d].entries == [];
      forall x: nat, j: nat ensures !Names(after, x, j, n) {
        RevivedNames(inodes, d, k, name, n, x, j, n);
        Unnamed(inodes, x, j, n);
      }
      NoRefsNoCount(after, pending, n);
    } else {
      var j: nat :| j < |inodes[d].entries| && (inodes[d].entries[j].inum in inodes || inodes[d].entries[j].inum == n)
                    && inodes[d].entries[j].name != ".";
      OneTooMany(inodes, pending, d, k, name, n, j);
    }
  }

  lemma NoRefsNoCount(inodes: Inodes, pending: multiset<nat>, n: nat)
    requires n in inodes && inodes[n].nlink > 0 && pending[n] == 0 && forall x: nat, j: nat :: !Names(inodes, x, j, n)
    ensures !Counted(inodes, pending, n)
  {
    assert Refs(inodes, n) == {};
  }

  lemma OneTooMany(inodes: Inodes, pending: multiset<nat>, d: nat, k: nat, name: string, n: nat, j: nat)
    requires Inv(inodes, pending) && Writable(inodes, d, k, name) && inodes[d].kind == Dir && inodes[d].nlink == 0
    requires n !in inodes && n != 0 && name != "." && j < |inodes[d].entries| && inodes[d].entries[j].name != "."
    requires inodes[d].entries[j].inum in inodes || inodes[d].entries[j].inum == n
    ensures !Counts(Created(inodes, d, k, name, n, Dir), pending)
  {
    hide Tree, Created, Names, Counted, Refs;
    NoZero(inodes);
    var after, i := Created(inodes, d, k, name, n, Dir), inodes[d].entries[j].inum;
    RevivedShape(inodes, d, k, name, n);
    RevivedNames(inodes, d, k, name, n, d, j, i);
    RevivedNames(inodes, d, k, name, n, d, k, n);
    RevivedNames(inodes, d, k, name, n, n, 1, d);
    if i == n {
      TwoRefs(after, pending, n, (d, j), (d, k));
    } else if i == d {
      TwoRefs(after, pending, d, (d, j), (n, 1));
    } else {
      forall x: nat, m: nat | Names(inodes, x, m, i) ensures Names(after, x, m, i) {
        RevivedNames(inodes, d, k, name, n, x, m, i);
        NotLinked(inodes, d, m, i);
        NotLinked(inodes, n, m, i);
      }
      NotLinked(inodes, d, j, i);
      MoreRefs(inodes, after, pending, i, d, j);
    }
  }

  lemma TwoRefs(inodes: Inodes, pending: multiset<nat>, i: nat, a: (nat, nat), b: (nat, nat))
    requires i in inodes && inodes[i].nlink == 1 && a != b && Names(inodes, a.0, a.1, i) && Names(inodes, b.0, b.1, i)
    ensures !Counted(inodes, pending, i)
  {
    hide Names;
    RefsMember(inodes, a.0, a.1, i);
    RefsMember(inodes, b.0, b.1, i);
    Subset({a, b}, Refs(inodes, i));
  }

  lemma MoreRefs(inodes: Inodes, after: Inodes, pending: multiset<nat>, i: nat, d: nat, j: nat)
    requires i in inodes && i in after && after[i].nlink == inodes[i].nlink && Counted(inodes, pending, i)
    requires forall x: nat, m: nat :: Names(inodes, x, m, i) ==> Names(after, x, m, i)
    requires Names(after, d, j, i) && !Names(inodes, d, j, i)
    ensures !Counted(after, pending, i)
  {
    hide Names;
    forall x: nat, m: nat ensures (x, m) in Refs(inodes, i) ==> (x, m) in Refs(after, i) {
      RefsMember(inodes, x, m, i);
      RefsMember(after, x, m, i);
    }
    RefsMember(inodes, d, j, i);
    RefsMember(after, d, j, i);
    Subset(Refs(inodes, i) + {(d, j)}, Refs(after, i));
  }

  lemma NewThere(inodes: Inodes, d: nat, k: nat, name: string, n: nat, kind: Kind)
    requires d in inodes && k <= |inodes[d].entries|
    ensures n in Created(inodes, d, k, name, n, kind)
  {
  }

  /** link keeps the counts, and the counts with the tree, exactly when the directory is still linked. */
  lemma LinkedOutcome(inodes: Inodes, pending: multiset<nat>, d: nat, k: nat, name: string, i: nat)
    requires Inv(inodes, pending) && i in pending && Writable(inodes, d, k, name) && inodes[d].kind == Dir
    ensures Inv(WithEntry(inodes, d, k, Entry(i, name)), pending - multiset{i}) <==> inodes[d].nlink > 0
    ensures Counts(WithEntry(inodes, d, k, Entry(i, name)), pending - multiset{i}) <==> inodes[d].nlink > 0
  {
    hide Directories, Tree, Counted;
    if inodes[d].nlink > 0 {
      LinkSucceeds(inodes, pending, d, k, name, i);
    } else {
      LinkIntoRemoved(inodes, pending, d, k, name, i);
      assert i in WithEntry(inodes, d, k, Entry(i, name));
    }
  }

  lemma Removable(inodes: Inodes, pending: multiset<nat>, d: nat, k: nat, name: string)
    requires Inv(inodes, pending) && d in inodes && inodes[d].kind == Dir && k < |inodes[d].entries|
    requires inodes[d].entries[k].inum != 0 && inodes[d].entries[k].name == name && name != "." && name != ".."
    requires inodes[d].entries[k].inum in inodes ==> !Filled(inodes[inodes[d].entries[k].inum])
    ensures !Absent(inodes[d].entries, name) && !Occupied(inodes, d, name)
    ensures forall j ::
              0 <= j < |inodes[d].entries| && j != k && inodes[d].entries[j].inum != 0 ==>
                inodes[d].entries[j].name != name
  {
    hide Inv, Occupied;
    FoundEntry(inodes, pending, d, k, name);
    FoundOccupied(inodes, d, k, name);
  }

  /** mkdir or open with O_CREATE of name in a linked directory without empty slots. */
  method Make(t: FileTree, d: nat, name: string, kind: Kind, n: nat)
    requires Inv(t.inodes, t.pending) && d in t.inodes && Linked(t.inodes[d])
    requires FirstFree(t.inodes, t.ninodes, n) && n != 0
    requires Absent(t.inodes[d].entries, name) && !HasSlot(t.inodes[d].entries)
    modifies t`inodes
    ensures Inv(t.inodes, t.pending) && |old(t.inodes)[d].entries| >= 2
    ensures t.inodes == Created(old(t.inodes), d, |old(t.inodes)[d].entries|, name, n, kind)
  {
    hide Inv, Counts, Detached, Created;
    LinkedTwo(t.inodes, t.pending, d);
    var _, m := t.Create(d, name, kind, true, true, true);
    OneFirst(old(t.inodes), t.ninodes, n, m);
    ghost var k: nat :| Writable(old(t.inodes), d, k, name) && t.inodes == Created(old(t.inodes), d, k, name, n, kind);
  }

  lemma OneFirst(inodes: Inodes, ninodes: nat, n: nat, m: nat)
    requires FirstFree(inodes, ninodes, n) && FirstFree(inodes, ninodes, m) && n != 0
    ensures n == m
  {
  }

  lemma LinkedTwo(inodes: Inodes, pending: multiset<nat>, d: nat)
    requires Inv(inodes, pending) && d in inodes && Linked(inodes[d])
    ensures |inodes[d].entries| >= 2
  {
  }

  /** unlink of the file or empty directory that entry k of d names. */
  method Remove(t: FileTree, d: nat, name: string, ghost k: nat, ghost c: nat)
    requires Inv(t.inodes, t.pending) && d in t.inodes && t.inodes[d].kind == Dir && k < |t.inodes[d].entries|
    requires t.inodes[d].entries[k] == Entry(c, name) && c != 0 && name != "." && name != ".."
    requires c in t.inodes && !Filled(t.inodes[c])
    modifies t`inodes
    ensures Inv(t.inodes, t.pending) && Unlinked(old(t.inodes), t.inodes, d, k, c)
  {
    hide Inv, Unlinked, Occupied;
    Removable(t.inodes, t.pending, d, k, name);
    var _, _, _ := t.Unlink(d, name);
  }

  /** A run that breaks the law: mkdir a, somebody enters a, a is removed, and they create f in it. */
  method FileInRemoved() returns (t: FileTree, f: nat)
    ensures fresh(t) && t.pending == multiset{} && f in t.inodes && !Counted(t.inodes, t.pending, f)
  {
    hide Inv, Counted, Counts, Detached;
    t := new FileTree(200);
    Make(t, ROOT, "a", Dir, 2);
    Remove(t, ROOT, "a", 2, 2);
    ghost var removed := t.inodes;
    assert FirstFree(removed, t.ninodes, 3);
    ghost var n;
    f, n := t.Create(2, "f", File, true, true, true);
    OneFirst(removed, t.ninodes, 3, n);
    ghost var k: nat :| Writable(removed, 2, k, "f") && t.inodes == Created(removed, 2, k, "f", f, File);
    CreateInRemoved(removed, multiset{}, 2, k, "f", f, File);
  }

  /** A file f, mkdir a and a/b, somebody enters b, b and then a are removed, and a's inode is freed, and then
      that of f. */
  method Orphan() returns (t: FileTree)
    ensures fresh(t) && t.pending == multiset{} && Inv(t.inodes, t.pending) && t.ninodes == 200
    ensures t.inodes.Keys == {ROOT, 4} && t.inodes[4] == Inode(Dir, 0, [Entry(4, "."), Entry(3, "..")])
  {
    hide Inv, Counted, Counts;
    t := new FileTree(200);
    Make(t, ROOT, "f", File, 2);
    Make(t, ROOT, "a", Dir, 3);
    Make(t, 3, "b", Dir, 4);
    Remove(t, 3, "b", 2, 4);
    Remove(t, ROOT, "a", 3, 3);
    t.Free(3);
    Remove(t, ROOT, "f", 2, 2);
    t.Free(2);
  }

  /** A run that keeps the counts and breaks the tree: in the orphan b they make a directory x, which gets the
      inode of f. */
  method DirectoryInOrphan() returns (t: FileTree)
    ensures fresh(t) && t.pending == multiset{} && Counts(t.inodes, t.pending) && !Inv(t.inodes, t.pending)
  {
    hide Inv, Counted, Counts;
    t := Orphan();
    ghost var orphan := t.inodes;
    assert FirstFree(orphan, t.ninodes, 2);
    var _, n := t.Create(4, "x", Dir, true, true, true);
    OneFirst(orphan, t.ninodes, 2, n);
  }

  lemma PendingThere(inodes: Inodes, pending: multiset<nat>, i: nat)
    requires Inv(inodes, pending) && i in pending
    ensures i in inodes
  {
  }

  lemma RootInv(inodes: Inodes)
    requires inodes == map[ROOT := Inode(Dir, 1, [Entry(ROOT, "."), Entry(ROOT, "..")])]
    ensures Inv(inodes, multiset{})
  {
    forall d: nat, k: nat ensures (d, k) in Refs(inodes, ROOT) <==> d == ROOT && k == 1 {
      RefsMember(inodes, d, k, ROOT);
    }
    assert Refs(inodes, ROOT) == {(ROOT, 1)};
    assert Deeper(inodes, map[ROOT := 0]);
  }

  /** What unlink of entry k of d, which names c, changes. */
  predicate Unlinked(inodes: Inodes, after: Inodes, d: nat, k: nat, c: nat)
    requires d in inodes && c in inodes && k < |inodes[d].entries|
  {
    && after.Keys == inodes.Keys && c != d && inodes[c].nlink > 0
    && after[c] == inodes[c].(nlink := inodes[c].nlink - 1)
    && after[d].entries == inodes[d].entries[k := FREE] && after[d].kind == inodes[d].kind
    && after[d].nlink == inodes[d].nlink - (if inodes[c].kind == Dir then 1 else 0)
    && forall x :: x in inodes && x != c && x != d ==> after[x] == inodes[x]
  }

  lemma RemovedIs(inodes: Inodes, d: nat, k: nat, c: nat)
    requires d in inodes && c in inodes && c != d && k < |inodes[d].entries| && inodes[d].nlink > 0 &&
             inodes[c].nlink > 0 && inodes[c].kind == Dir
    ensures Unlinked(inodes, Removed(inodes, d, k, c), d, k, c)
    ensures Removed(inodes, d, k, c) ==
              inodes[d := inodes[d].(entries := inodes[d].entries[k := FREE],
                nlink := inodes[d].nlink - 1)][c := inodes[c].(nlink := inodes[c].nlink - 1)]
  {
  }

  lemma FileUnlinkedIs(inodes: Inodes, d: nat, k: nat, c: nat)
    requires d in inodes && c in inodes && c != d && k < |inodes[d].entries| && inodes[c].nlink > 0 &&
             inodes[c].kind != Dir
    ensures var cleared := inodes[d := inodes[d].(entries := inodes[d].entries[k := FREE])];
            var after := cleared[c := inodes[c].(nlink := inodes[c].nlink - 1)];
            Unlinked(inodes, after, d, k, c) && after == WithNlink(WithEntry(inodes, d, k, FREE), c,
              inodes[c].nlink - 1)
  {
  }

  /** The name leads to a directory that is not empty. */
  predicate Occupied(inodes: Inodes, d: nat, name: string)
    requires d in inodes
  {
    exists k ::
        0 <= k < |inodes[d].entries| && inodes[d].entries[k].inum in inodes && inodes[d].entries[k].name == name &&
        Filled(inodes[inodes[d].entries[k].inum])
  }

  predicate Filled(x: Inode) {
    x.kind == Dir && exists k :: 2 <= k < |x.entries| && x.entries[k].inum != 0
  }

  lemma FoundOccupied(inodes: Inodes, d: nat, k: nat, name: string)
    requires 0 !in inodes && d in inodes && k < |inodes[d].entries| && inodes[d].entries[k].name == name &&
             inodes[d].entries[k].inum in inodes
    requires forall j ::
               0 <= j < |inodes[d].entries| && j != k && inodes[d].entries[j].inum != 0 ==>
                 inodes[d].entries[j].name != name
    ensures Occupied(inodes, d, name) <==> Filled(inodes[inodes[d].entries[k].inum])
  {
  }

  /** The entry that unlink finds is a child entry of an allocated inode with links. */
  lemma FoundEntry(inodes: Inodes, pending: multiset<nat>, d: nat, k: nat, name: string)
    requires Inv(inodes, pending) && d in inodes && inodes[d].kind == Dir && k < |inodes[d].entries| && name != "." &&
             name != ".."
    requires inodes[d].entries[k].inum != 0 && inodes[d].entries[k].name == name
    ensures 0 !in inodes && Linked(inodes[d])
    ensures var i := inodes[d].entries[k].inum; i in inodes && IsChild(inodes, d, k, i) && inodes[i].nlink > 0
    ensures forall j ::
              0 <= j < |inodes[d].entries| && j != k && inodes[d].entries[j].inum != 0 ==>
                inodes[d].entries[j].name != name
  {
    hide Tree, Directories, Refs;
    ChildEntry(inodes, d, k, name);
    var i := inodes[d].entries[k].inum;
    assert Counted(inodes, pending, i);
    RefsMember(inodes, d, k, i);
  }

  lemma ChildEntry(inodes: Inodes, d: nat, k: nat, name: string)
    requires Directories(inodes) && d in inodes && inodes[d].kind == Dir && k < |inodes[d].entries| && name != "." &&
             name != ".."
    requires inodes[d].entries[k].inum != 0 && inodes[d].entries[k].name == name
    ensures 0 !in inodes && Linked(inodes[d])
    ensures var i := inodes[d].entries[k].inum; i in inodes && IsChild(inodes, d, k, i)
    ensures forall j ::
              0 <= j < |inodes[d].entries| && j != k && inodes[d].entries[j].inum != 0 ==>
                inodes[d].entries[j].name != name
  {
  }
}
