/** Directories, link counts and the shape of the tree (sysfile.c, fs.c). Inodes are counted from
    0; number 0 is never used and stands for an empty directory slot. */
module Dir {
  datatype Dirent = Dirent(inum: nat, name: string)
  datatype Kind = Free | File | Dir | Dev
  datatype Node = Node(kind: Kind, nlink: nat, entries: seq<Dirent>)

  const ROOTINO: nat := 1
  const DIRSIZ: nat := 14

  /** A directory that still has a link: the only ones whose entries count. */
  predicate Linked(n: Node) { n.kind == Dir && n.nlink > 0 }

  // ---------------------------------------------------------------- counting entries

  function One(de: Dirent, i: nat): nat { if de.inum == i then 1 else 0 }

  /** How many slots other than "." and ".." hold i. */
  function Names(e: seq<Dirent>, i: nat): nat {
    if |e| <= 2 then 0 else Names(e[..|e| - 1], i) + One(e[|e| - 1], i)
  }

  /** Whether ".." is i. */
  function Dots(e: seq<Dirent>, i: nat): nat { if |e| >= 2 then One(e[1], i) else 0 }

  function NamesIn(n: Node, i: nat): nat { if Linked(n) then Names(n.entries, i) else 0 }
  function DotsIn(n: Node, i: nat): nat { if Linked(n) then Dots(n.entries, i) else 0 }

  /** The named entries for inode i in the linked directories. */
  function NameSum(t: seq<Node>, i: nat): nat {
    if t == [] then 0 else NameSum(t[..|t| - 1], i) + NamesIn(t[|t| - 1], i)
  }

  /** The ".." entries for inode i in the linked directories. */
  function DotSum(t: seq<Node>, i: nat): nat {
    if t == [] then 0 else DotSum(t[..|t| - 1], i) + DotsIn(t[|t| - 1], i)
  }

  lemma {:induction false} NamesUpdate(e: seq<Dirent>, k: nat, de: Dirent, i: nat)
    requires 2 <= k < |e|
    ensures Names(e[k := de], i) == Names(e, i) - One(e[k], i) + One(de, i)
    decreases |e|
  {
    var f := e[k := de];
    if k == |e| - 1 {
      assert f[..|f| - 1] == e[..|e| - 1];
    } else {
      NamesUpdate(e[..|e| - 1], k, de, i);
      assert f[..|f| - 1] == e[..|e| - 1][k := de];
    }
  }

  lemma NamesAppend(e: seq<Dirent>, de: Dirent, i: nat)
    requires |e| >= 2
    ensures Names(e + [de], i) == Names(e, i) + One(de, i)
  {
    assert (e + [de])[..|e|] == e;
  }

  /** No slot holds i exactly when the count is 0. */
  lemma {:induction false} NamesZero(e: seq<Dirent>, i: nat)
    ensures Names(e, i) == 0 <==> forall k :: 2 <= k < |e| ==> e[k].inum != i
    decreases |e|
  {
    if |e| > 2 {
      NamesZero(e[..|e| - 1], i);
      assert forall k :: 2 <= k < |e| - 1 ==> e[..|e| - 1][k] == e[k];
    }
  }

  lemma {:induction false} SumUpdate(t: seq<Node>, d: nat, n: Node, i: nat)
    requires d < |t|
    ensures NameSum(t[d := n], i) == NameSum(t, i) - NamesIn(t[d], i) + NamesIn(n, i)
    ensures DotSum(t[d := n], i) == DotSum(t, i) - DotsIn(t[d], i) + DotsIn(n, i)
    decreases |t|
  {
    var r := t[d := n];
    if d == |t| - 1 {
      assert r[..|r| - 1] == t[..|t| - 1];
    } else {
      SumUpdate(t[..|t| - 1], d, n, i);
      assert r[..|r| - 1] == t[..|t| - 1][d := n];
    }
  }

  lemma {:induction false} SumAtLeast(t: seq<Node>, d: nat, i: nat)
    requires d < |t|
    ensures NameSum(t, i) >= NamesIn(t[d], i) && DotSum(t, i) >= DotsIn(t[d], i)
    decreases |t|
  {
    if d < |t| - 1 { SumAtLeast(t[..|t| - 1], d, i); }
  }

  lemma {:induction false} NameSumZero(t: seq<Node>, i: nat)
    requires forall d :: 0 <= d < |t| ==> NamesIn(t[d], i) == 0
    ensures NameSum(t, i) == 0
    decreases |t|
  {
    if t != [] { NameSumZero(t[..|t| - 1], i); }
  }

  lemma {:induction false} DotSumZero(t: seq<Node>, i: nat)
    requires forall d :: 0 <= d < |t| ==> DotsIn(t[d], i) == 0
    ensures DotSum(t, i) == 0
    decreases |t|
  {
    if t != [] {
      var s := t[..|t| - 1];
      assert forall d :: 0 <= d < |s| ==> s[d] == t[d];
      DotSumZero(s, i);
    }
  }

  // ---------------------------------------------------------------- the invariant

  /** History: for every inode, the links taken by a sys_link that has not yet entered its name;
      for every linked directory, its depth and its own slot in its parent. */
  datatype Plan = Plan(pending: seq<nat>, depth: seq<nat>, slot: seq<nat>)

  /** Each inode's count is the number of entries naming it, "." apart. */
  predicate CountOk(t: seq<Node>, g: Plan, i: nat)
    requires i < |t| == |g.pending|
  {
    && t[i].nlink == NameSum(t, i) + DotSum(t, i) + g.pending[i]
    && (t[i].kind == Free ==> t[i].nlink == 0) && (g.pending[i] > 0 ==> t[i].kind != Dir)
  }

  predicate UniqueNames(e: seq<Dirent>) {
    forall a, b :: 0 <= a < b < |e| && e[a].inum != 0 && e[b].inum != 0 ==> e[a].name != e[b].name
  }

  /** A name that a path can contain, as skipelem delivers it. */
  predicate GoodName(name: string) { 0 < |name| <= DIRSIZ && '/' !in name }

  predicate EntryOk(de: Dirent, n: nat) { de.inum < n && (de.inum != 0 ==> GoodName(de.name)) }

  /** Every directory starts with "." and "..", has no name twice, and holds nothing else once it
      has lost its link. */
  predicate DirOk(t: seq<Node>, d: nat)
    requires d < |t|
  {
    t[d].kind == Dir ==>
      var e := t[d].entries;
      && |e| >= 2 && e[0] == Dirent(d, ".") && e[1].name == ".." && 0 < e[1].inum < |t| && UniqueNames(e)
      && (forall k :: 0 <= k < |e| ==> EntryOk(e[k], |t|))
      && (t[d].nlink == 0 ==> forall k :: 2 <= k < |e| ==> e[k].inum == 0)
  }

  /** A linked directory other than the root is named once, in the parent its ".." gives, which
      is linked and one level up. */
  predicate TreeOk(t: seq<Node>, g: Plan, d: nat)
    requires d < |t| == |g.depth| == |g.slot|
  {
    Linked(t[d]) && |t[d].entries| >= 2 ==>
      var p := t[d].entries[1].inum;
      if d == ROOTINO then p == d && g.depth[d] == 0 && NameSum(t, d) == 0
      else
        && p < |t| && Linked(t[p]) && g.depth[d] == g.depth[p] + 1 && NameSum(t, d) == 1
        && 2 <= g.slot[d] < |t[p].entries| && t[p].entries[g.slot[d]].inum == d
  }

  ghost predicate Inv(t: seq<Node>, g: Plan) {
    && |t| == |g.pending| == |g.depth| == |g.slot| > ROOTINO && Linked(t[ROOTINO]) && t[0].kind == Free
    && (forall i :: 0 < i < |t| ==> CountOk(t, g, i))
    && (forall d :: 0 <= d < |t| ==> DirOk(t, d))
    && (forall d :: 0 <= d < |t| ==> TreeOk(t, g, d))
  }

  /** Following ".." k times. */
  function Up(t: seq<Node>, d: nat, k: nat): nat
    decreases k
  {
    if k == 0 || d >= |t| || |t[d].entries| < 2 then d else Up(t, t[d].entries[1].inum, k - 1)
  }

  /** The directories form a tree: from every linked directory, ".." leads to the root in as many
      steps as the directory is deep. */
  lemma {:induction false} RootedTree(t: seq<Node>, g: Plan, d: nat)
    requires Inv(t, g) && d < |t| && Linked(t[d])
    ensures Up(t, d, g.depth[d]) == ROOTINO
    decreases g.depth[d]
  {
    assert TreeOk(t, g, d) && DirOk(t, d);
    if d != ROOTINO { RootedTree(t, g, t[d].entries[1].inum); }
  }

  // ---------------------------------------------------------------- one entry

  /** dirlink's write: into an empty slot, or at the end. */
  function Put(e: seq<Dirent>, k: nat, de: Dirent): seq<Dirent>
    requires k <= |e|
  {
    if k < |e| then e[k := de] else e + [de]
  }

  function PutIn(n: Node, k: nat, de: Dirent): Node
    requires k <= |n.entries|
  {
    n.(entries := Put(n.entries, k, de))
  }

  predicate Absent(e: seq<Dirent>, name: string) {
    forall k :: 0 <= k < |e| && e[k].inum != 0 ==> e[k].name != name
  }

  /** k is where dirlink may write a new entry. */
  predicate Room(e: seq<Dirent>, k: nat) { 2 <= k <= |e| && (k < |e| ==> e[k].inum == 0) }

  lemma PutNames(e: seq<Dirent>, k: nat, de: Dirent, i: nat)
    requires Room(e, k) && i > 0
    ensures Names(Put(e, k, de), i) == Names(e, i) + One(de, i) && Dots(Put(e, k, de), i) == Dots(e, i)
  {
    if k < |e| { NamesUpdate(e, k, de, i); } else { NamesAppend(e, de, i); }
  }

  lemma PutUnique(e: seq<Dirent>, k: nat, de: Dirent)
    requires UniqueNames(e) && k <= |e| && Absent(e, de.name)
    ensures UniqueNames(Put(e, k, de))
  {
  }

  // ---------------------------------------------------------------- link

  function Bump(g: Plan, i: nat, p: nat): Plan
    requires i < |g.pending|
  {
    g.(pending := g.pending[i := p])
  }

  /** Changing a node without touching what it counts for. */
  lemma SameSums(t: seq<Node>, d: nat, n: Node, i: nat)
    requires d < |t| && NamesIn(n, i) == NamesIn(t[d], i) && DotsIn(n, i) == DotsIn(t[d], i)
    ensures NameSum(t[d := n], i) == NameSum(t, i) && DotSum(t[d := n], i) == DotSum(t, i)
  {
    SumUpdate(t, d, n, i);
  }

  /** sys_link takes a link before it enters the name; create does the same with a new inode. */
  lemma TakeLink(t: seq<Node>, g: Plan, i: nat, n: Node)
    requires Inv(t, g) && 0 < i < |t| && t[i].kind != Dir && n.kind != Dir && n.kind != Free && n.nlink == t[i].nlink + 1
    ensures Inv(t[i := n], Bump(g, i, g.pending[i] + 1))
  {
    var r, h := t[i := n], Bump(g, i, g.pending[i] + 1);
    forall j | 0 < j < |t| ensures CountOk(r, h, j) {
      assert CountOk(t, g, j);
      SameSums(t, i, n, j);
    }
    forall d | 0 <= d < |t| ensures DirOk(r, d) && TreeOk(r, h, d) {
      assert DirOk(t, d) && TreeOk(t, g, d);
      SameSums(t, i, n, d);
    }
  }

  /** sys_link's rollback. */
  lemma DropLink(t: seq<Node>, g: Plan, i: nat)
    requires Inv(t, g) && 0 < i < |t| && g.pending[i] > 0
    ensures t[i].nlink > 0 && Inv(t[i := t[i].(nlink := t[i].nlink - 1)], Bump(g, i, g.pending[i] - 1))
  {
    assert CountOk(t, g, i);
    var n := t[i].(nlink := t[i].nlink - 1);
    var r, h := t[i := n], Bump(g, i, g.pending[i] - 1);
    forall j | 0 < j < |t| ensures CountOk(r, h, j) {
      assert CountOk(t, g, j);
      SameSums(t, i, n, j);
    }
    forall d | 0 <= d < |t| ensures DirOk(r, d) && TreeOk(r, h, d) {
      assert DirOk(t, d) && TreeOk(t, g, d);
      SameSums(t, i, n, d);
    }
  }

  /** The name goes into a linked directory. */
  lemma EnterName(t: seq<Node>, g: Plan, dp: nat, k: nat, name: string, i: nat)
    requires Inv(t, g) && dp < |t| && Linked(t[dp]) && Room(t[dp].entries, k) && Absent(t[dp].entries, name) && GoodName(name)
    requires 0 < i < |t| && g.pending[i] > 0
    ensures Inv(t[dp := PutIn(t[dp], k, Dirent(i, name))], Bump(g, i, g.pending[i] - 1))
  {
    var n := PutIn(t[dp], k, Dirent(i, name));
    var r, h := t[dp := n], Bump(g, i, g.pending[i] - 1);
    assert CountOk(t, g, i) && DirOk(t, dp);
    PutUnique(t[dp].entries, k, Dirent(i, name));
    forall j | 0 < j < |t| ensures CountOk(r, h, j) {
      assert CountOk(t, g, j);
      PutSums(t, dp, k, Dirent(i, name), j);
    }
    forall d | 0 <= d < |t| ensures DirOk(r, d) {
      assert DirOk(t, d);
    }
    forall d | 0 <= d < |t| ensures TreeOk(r, h, d) {
      assert TreeOk(t, g, d) && DirOk(t, d);
      if d > 0 { PutSums(t, dp, k, Dirent(i, name), d); }
    }
  }

  lemma PutSums(t: seq<Node>, dp: nat, k: nat, de: Dirent, j: nat)
    requires dp < |t| && Linked(t[dp]) && Room(t[dp].entries, k) && j > 0
    ensures NameSum(t[dp := PutIn(t[dp], k, de)], j) == NameSum(t, j) + One(de, j)
    ensures DotSum(t[dp := PutIn(t[dp], k, de)], j) == DotSum(t, j)
  {
    PutNames(t[dp].entries, k, de, j);
    SumUpdate(t, dp, PutIn(t[dp], k, de), j);
  }

  // ---------------------------------------------------------------- create a directory

  function NewDir(ip: nat, dp: nat): Node {
    Node(Dir, 1, [Dirent(ip, "."), Dirent(dp, "..")])
  }

  /** The tree after create() has made directory ip in dp. */
  function WithDir(t: seq<Node>, dp: nat, k: nat, name: string, ip: nat): seq<Node>
    requires dp < |t| && ip < |t| && k <= |t[dp].entries|
  {
    t[ip := NewDir(ip, dp)][dp := PutIn(t[dp], k, Dirent(ip, name)).(nlink := t[dp].nlink + 1)]
  }

  /** A free inode is named nowhere. */
  lemma FreeUnnamed(t: seq<Node>, g: Plan, i: nat)
    requires Inv(t, g) && 0 < i < |t| && t[i].kind == Free
    ensures NameSum(t, i) == 0 && DotSum(t, i) == 0 && g.pending[i] == 0
  {
    assert CountOk(t, g, i);
  }

  lemma WithDirSums(t: seq<Node>, dp: nat, k: nat, name: string, ip: nat, j: nat)
    requires dp < |t| && ip < |t| && dp != ip && Linked(t[dp]) && t[ip].kind == Free && Room(t[dp].entries, k) && j > 0
    ensures NameSum(WithDir(t, dp, k, name, ip), j) == NameSum(t, j) + (if j == ip then 1 else 0)
    ensures DotSum(WithDir(t, dp, k, name, ip), j) == DotSum(t, j) + (if j == dp then 1 else 0)
  {
    SumUpdate(t, ip, NewDir(ip, dp), j);
    SumUpdate(t[ip := NewDir(ip, dp)], dp, PutIn(t[dp], k, Dirent(ip, name)).(nlink := t[dp].nlink + 1), j);
    PutNames(t[dp].entries, k, Dirent(ip, name), j);
  }

  lemma EnterDir(t: seq<Node>, g: Plan, dp: nat, k: nat, name: string, ip: nat)
    requires Inv(t, g) && dp < |t| && Linked(t[dp]) && Room(t[dp].entries, k) && Absent(t[dp].entries, name) && GoodName(name)
    requires 0 < ip < |t| && t[ip].kind == Free
    ensures Inv(WithDir(t, dp, k, name, ip), g.(depth := g.depth[ip := g.depth[dp] + 1], slot := g.slot[ip := k]))
  {
    var r, h := WithDir(t, dp, k, name, ip), g.(depth := g.depth[ip := g.depth[dp] + 1], slot := g.slot[ip := k]);
    assert DirOk(t, dp) && TreeOk(t, g, dp);
    FreeUnnamed(t, g, ip);
    forall j | 0 < j < |t| ensures CountOk(r, h, j) {
      assert CountOk(t, g, j);
      WithDirSums(t, dp, k, name, ip, j);
    }
    forall d | 0 <= d < |t| ensures DirOk(r, d) {
      WithDirOk(t, dp, k, name, ip, d);
    }
    forall d | 0 <= d < |t| ensures TreeOk(r, h, d) {
      assert TreeOk(t, g, d) && DirOk(t, d);
      if d > 0 { WithDirSums(t, dp, k, name, ip, d); }
    }
  }

  lemma WithDirOk(t: seq<Node>, dp: nat, k: nat, name: string, ip: nat, d: nat)
    requires 0 < dp < |t| && Linked(t[dp]) && Room(t[dp].entries, k) && Absent(t[dp].entries, name) && GoodName(name) && d < |t|
    requires 0 < ip < |t| && t[ip].kind == Free && DirOk(t, dp) && DirOk(t, d)
    ensures DirOk(WithDir(t, dp, k, name, ip), d)
  {
    PutUnique(t[dp].entries, k, Dirent(ip, name));
  }

  // ---------------------------------------------------------------- unlink

  function Empty(n: Node, k: nat): Node
    requires k < |n.entries|
  {
    n.(entries := n.entries[k := Dirent(0, "")])
  }

  lemma {:induction false} NamesAtLeast(e: seq<Dirent>, k: nat)
    requires 2 <= k < |e|
    ensures Names(e, e[k].inum) > 0
  {
    NamesZero(e, e[k].inum);
  }

  lemma EmptyNames(n: Node, k: nat, i: nat)
    requires 2 <= k < |n.entries| && Linked(n) && i > 0
    ensures NamesIn(Empty(n, k), i) == NamesIn(n, i) - One(n.entries[k], i) && DotsIn(Empty(n, k), i) == DotsIn(n, i)
  {
    NamesUpdate(n.entries, k, Dirent(0, ""), i);
  }

  /** Two directories naming i make two names. */
  lemma {:induction false} TwoNames(t: seq<Node>, a: nat, b: nat, i: nat)
    requires a < b < |t|
    ensures NameSum(t, i) >= NamesIn(t[a], i) + NamesIn(t[b], i)
    decreases |t|
  {
    if b == |t| - 1 {
      SumAtLeast(t[..|t| - 1], a, i);
    } else {
      TwoNames(t[..|t| - 1], a, b, i);
    }
  }

  /** Removing the name of a file. */
  function WithoutFile(t: seq<Node>, dp: nat, k: nat, i: nat): seq<Node>
    requires dp < |t| && i < |t| && k < |t[dp].entries| && t[i].nlink > 0
  {
    t[dp := Empty(t[dp], k)][i := t[i].(nlink := t[i].nlink - 1)]
  }

  lemma WithoutFileSums(t: seq<Node>, dp: nat, k: nat, i: nat, j: nat)
    requires dp < |t| && i < |t| && dp != i && Linked(t[dp]) && 2 <= k < |t[dp].entries| && t[dp].entries[k].inum == i
    requires t[i].kind != Dir && t[i].nlink > 0 && j > 0
    ensures NameSum(WithoutFile(t, dp, k, i), j) == NameSum(t, j) - (if j == i then 1 else 0)
    ensures DotSum(WithoutFile(t, dp, k, i), j) == DotSum(t, j)
  {
    EmptyNames(t[dp], k, j);
    SumUpdate(t, dp, Empty(t[dp], k), j);
    SameSums(t[dp := Empty(t[dp], k)], i, t[i].(nlink := t[i].nlink - 1), j);
  }

  lemma UnlinkFile(t: seq<Node>, g: Plan, dp: nat, k: nat, i: nat)
    requires Inv(t, g) && dp < |t| && Linked(t[dp]) && 2 <= k < |t[dp].entries| && i == t[dp].entries[k].inum
    requires 0 < i < |t| && t[i].kind != Dir
    ensures t[i].nlink > 0 && Inv(WithoutFile(t, dp, k, i), g)
  {
    NamesAtLeast(t[dp].entries, k);
    SumAtLeast(t, dp, i);
    assert CountOk(t, g, i) && DirOk(t, dp);
    var r := WithoutFile(t, dp, k, i);
    forall j | 0 < j < |t| ensures CountOk(r, g, j) {
      assert CountOk(t, g, j);
      WithoutFileSums(t, dp, k, i, j);
    }
    forall d | 0 <= d < |t| ensures DirOk(r, d) {
      assert DirOk(t, d);
    }
    forall d | 0 <= d < |t| ensures TreeOk(r, g, d) {
      assert TreeOk(t, g, d) && DirOk(t, d);
      if d > 0 { WithoutFileSums(t, dp, k, i, d); }
    }
  }

  /** Removing an empty directory. */
  function WithoutDir(t: seq<Node>, dp: nat, k: nat, i: nat): seq<Node>
    requires dp < |t| && i < |t| && k < |t[dp].entries| && t[dp].nlink > 0 && t[i].nlink > 0
  {
    t[dp := Empty(t[dp], k).(nlink := t[dp].nlink - 1)][i := t[i].(nlink := t[i].nlink - 1)]
  }

  predicate IsEmpty(e: seq<Dirent>) { forall k :: 2 <= k < |e| ==> e[k].inum == 0 }

  /** An empty named directory is the child of the directory that names it, has one link and no
      subdirectory, and its parent has another link besides its "..". */
  lemma LoneDir(t: seq<Node>, g: Plan, dp: nat, k: nat, i: nat)
    requires Inv(t, g) && dp < |t| && Linked(t[dp]) && 2 <= k < |t[dp].entries| && i == t[dp].entries[k].inum
    requires 0 < i < |t| && t[i].kind == Dir && IsEmpty(t[i].entries)
    ensures t[i].nlink == 1 && i != dp && i != ROOTINO && |t[i].entries| >= 2 && t[i].entries[1].inum == dp
    ensures DotSum(t, i) == 0 && NameSum(t, i) == 1 && t[dp].nlink >= 2
  {
    NamesAtLeast(t[dp].entries, k);
    SumAtLeast(t, dp, i);
    assert CountOk(t, g, i) && DirOk(t, i) && TreeOk(t, g, i);
    var p := t[i].entries[1].inum;
    NamesAtLeast(t[p].entries, g.slot[i]);
    if p < dp { TwoNames(t, p, dp, i); } else if dp < p { TwoNames(t, dp, p, i); }
    forall d | 0 <= d < |t| ensures DotsIn(t[d], i) == 0 {
      assert TreeOk(t, g, d) && DirOk(t, d);
    }
    DotSumZero(t, i);
    ParentHasTwo(t, g, dp, i);
  }

  /** A parent is named in its own parent, or is the root, and is also the ".." of the child. */
  lemma ParentHasTwo(t: seq<Node>, g: Plan, dp: nat, i: nat)
    requires Inv(t, g) && dp < |t| && i < |t| && i != dp && Linked(t[dp]) && Linked(t[i])
    requires |t[i].entries| >= 2 && t[i].entries[1].inum == dp && dp > 0
    ensures t[dp].nlink >= 2
  {
    assert CountOk(t, g, dp) && TreeOk(t, g, dp) && DirOk(t, dp);
    SumAtLeast(t, i, dp);
    if dp == ROOTINO {
      if i < dp { TwoDots(t, i, dp, dp); } else { TwoDots(t, dp, i, dp); }
    }
  }

  lemma {:induction false} TwoDots(t: seq<Node>, a: nat, b: nat, i: nat)
    requires a < b < |t|
    ensures DotSum(t, i) >= DotsIn(t[a], i) + DotsIn(t[b], i)
    decreases |t|
  {
    if b == |t| - 1 {
      SumAtLeast(t[..|t| - 1], a, i);
    } else {
      TwoDots(t[..|t| - 1], a, b, i);
    }
  }

  lemma WithoutDirSums(t: seq<Node>, dp: nat, k: nat, i: nat, j: nat)
    requires dp < |t| && i < |t| && dp != i && Linked(t[dp]) && t[dp].nlink >= 2 && 2 <= k < |t[dp].entries|
    requires t[dp].entries[k].inum == i && t[i].kind == Dir && t[i].nlink == 1 && IsEmpty(t[i].entries) && j > 0
    requires |t[i].entries| >= 2 && t[i].entries[1].inum == dp
    ensures NameSum(WithoutDir(t, dp, k, i), j) == NameSum(t, j) - (if j == i then 1 else 0)
    ensures DotSum(WithoutDir(t, dp, k, i), j) == DotSum(t, j) - (if j == dp then 1 else 0)
  {
    var m := Empty(t[dp], k).(nlink := t[dp].nlink - 1);
    EmptyNames(t[dp], k, j);
    SumUpdate(t, dp, m, j);
    SumUpdate(t[dp := m], i, t[i].(nlink := 0), j);
    NamesZero(t[i].entries, j);
  }

  lemma UnlinkDir(t: seq<Node>, g: Plan, dp: nat, k: nat, i: nat)
    requires Inv(t, g) && dp < |t| && Linked(t[dp]) && 2 <= k < |t[dp].entries| && i == t[dp].entries[k].inum
    requires 0 < i < |t| && t[i].kind == Dir && IsEmpty(t[i].entries)
    ensures t[i].nlink > 0 && Inv(WithoutDir(t, dp, k, i), g)
  {
    LoneDir(t, g, dp, k, i);
    var r := WithoutDir(t, dp, k, i);
    assert DirOk(t, i) && DirOk(t, dp);
    forall j | 0 < j < |t| ensures CountOk(r, g, j) {
      assert CountOk(t, g, j);
      WithoutDirSums(t, dp, k, i, j);
    }
    forall d | 0 <= d < |t| ensures DirOk(r, d) {
      assert DirOk(t, d);
    }
    forall d | 0 <= d < |t| ensures TreeOk(r, g, d) {
      assert TreeOk(t, g, d) && DirOk(t, d);
      if d > 0 { WithoutDirSums(t, dp, k, i, d); }
      SumAtLeast(t, d, i);
    }
  }

  // ---------------------------------------------------------------- freeing

  /** iput frees an inode without links. */
  lemma FreeInode(t: seq<Node>, g: Plan, i: nat)
    requires Inv(t, g) && 0 < i < |t| && t[i].nlink == 0
    ensures Inv(t[i := Node(Free, 0, [])], g)
  {
    var r := t[i := Node(Free, 0, [])];
    forall j | 0 < j < |t| ensures CountOk(r, g, j) {
      assert CountOk(t, g, j);
      SameSums(t, i, Node(Free, 0, []), j);
    }
    forall d | 0 <= d < |t| ensures DirOk(r, d) && TreeOk(r, g, d) {
      assert DirOk(t, d) && TreeOk(t, g, d);
      SameSums(t, i, Node(Free, 0, []), d);
    }
  }

  // ---------------------------------------------------------------- unlinked parents

  /** The tree after create() has made file ip in dp. */
  function WithFile(t: seq<Node>, dp: nat, k: nat, name: string, ip: nat, kind: Kind): seq<Node>
    requires dp < |t| && ip < |t| && k <= |t[dp].entries|
  {
    t[ip := Node(kind, 1, [])][dp := PutIn(t[dp], k, Dirent(ip, name))]
  }

  lemma EnterFile(t: seq<Node>, g: Plan, dp: nat, k: nat, name: string, ip: nat, kind: Kind)
    requires Inv(t, g) && dp < |t| && Linked(t[dp]) && Room(t[dp].entries, k) && Absent(t[dp].entries, name) && GoodName(name)
    requires 0 < ip < |t| && t[ip].kind == Free && kind != Dir && kind != Free
    ensures Inv(WithFile(t, dp, k, name, ip, kind), g)
  {
    var m := t[ip := Node(kind, 1, [])];
    assert CountOk(t, g, ip);
    TakeLink(t, g, ip, Node(kind, 1, []));
    EnterName(m, Bump(g, ip, g.pending[ip] + 1), dp, k, name, ip);
    assert g.pending[ip := g.pending[ip] + 1][ip := g.pending[ip]] == g.pending;
  }

  /** Creating a file keeps link counts right exactly when the parent still has a link: in an
      unlinked directory the new inode has a link count of 1 and no entry that counts. */
  lemma CreateFileNeedsLink(t: seq<Node>, g: Plan, dp: nat, k: nat, name: string, ip: nat, kind: Kind)
    requires Inv(t, g) && dp < |t| && t[dp].kind == Dir && Room(t[dp].entries, k) && Absent(t[dp].entries, name) && GoodName(name)
    requires 0 < ip < |t| && t[ip].kind == Free && kind != Dir && kind != Free
    ensures (exists h: Plan :: h.pending == g.pending && Inv(WithFile(t, dp, k, name, ip, kind), h)) <==> t[dp].nlink > 0
  {
    var r := WithFile(t, dp, k, name, ip, kind);
    if t[dp].nlink > 0 {
      EnterFile(t, g, dp, k, name, ip, kind);
    } else {
      FreeUnnamed(t, g, ip);
      SameSums(t, ip, Node(kind, 1, []), ip);
      SameSums(t[ip := Node(kind, 1, [])], dp, PutIn(t[dp], k, Dirent(ip, name)), ip);
      forall h: Plan | h.pending == g.pending && |r| == |h.pending| ensures !CountOk(r, h, ip) {}
    }
  }

  /** Creating a directory keeps the tree exactly when the parent still has a link: an unlinked
      parent gets a link back without any directory naming it. */
  lemma CreateDirNeedsLink(t: seq<Node>, g: Plan, dp: nat, k: nat, name: string, ip: nat)
    requires Inv(t, g) && dp < |t| && t[dp].kind == Dir && Room(t[dp].entries, k) && Absent(t[dp].entries, name) && GoodName(name)
    requires 0 < ip < |t| && t[ip].kind == Free
    ensures (exists h: Plan :: Inv(WithDir(t, dp, k, name, ip), h)) <==> t[dp].nlink > 0
  {
    var r := WithDir(t, dp, k, name, ip);
    if t[dp].nlink > 0 {
      EnterDir(t, g, dp, k, name, ip);
    } else {
      assert CountOk(t, g, dp) && DirOk(t, dp);
      SumUpdate(t, ip, NewDir(ip, dp), dp);
      SumUpdate(t[ip := NewDir(ip, dp)], dp, r[dp], dp);
      NamesZero(t[dp].entries, dp);
      PutNames(t[dp].entries, k, Dirent(ip, name), dp);
      forall h: Plan | |r| == |h.depth| == |h.slot| ensures !TreeOk(r, h, dp) {}
    }
  }

  /** Entering a link's name keeps link counts right exactly when the directory still has a link. */
  lemma EnterNameNeedsLink(t: seq<Node>, g: Plan, dp: nat, k: nat, name: string, i: nat)
    requires Inv(t, g) && dp < |t| && t[dp].kind == Dir && Room(t[dp].entries, k) && Absent(t[dp].entries, name) && GoodName(name)
    requires 0 < i < |t| && g.pending[i] > 0
    ensures (exists h: Plan :: h.pending == g.pending[i := g.pending[i] - 1] && Inv(t[dp := PutIn(t[dp], k, Dirent(i, name))], h))
      <==> t[dp].nlink > 0
  {
    var r := t[dp := PutIn(t[dp], k, Dirent(i, name))];
    if t[dp].nlink > 0 {
      EnterName(t, g, dp, k, name, i);
    } else {
      assert CountOk(t, g, i);
      SameSums(t, dp, PutIn(t[dp], k, Dirent(i, name)), i);
      forall h: Plan | h.pending == g.pending[i := g.pending[i] - 1] && |r| == |h.pending| ensures !CountOk(r, h, i) {}
    }
  }

  // ---------------------------------------------------------------- the initial tree

  /** Only the root directory. */
  function InitialTree(n: nat): seq<Node>
    requires n > ROOTINO
  {
    seq(n, _ => Node(Free, 0, []))[ROOTINO := NewDir(ROOTINO, ROOTINO)]
  }

  lemma InitialSums(n: nat, i: nat)
    requires n > ROOTINO
    ensures NameSum(InitialTree(n), i) == 0 && DotSum(InitialTree(n), i) == if i == ROOTINO then 1 else 0
  {
    var none := seq(n, _ => Node(Free, 0, []));
    NameSumZero(none, i);
    DotSumZero(none, i);
    SumUpdate(none, ROOTINO, NewDir(ROOTINO, ROOTINO), i);
    NamesZero(NewDir(ROOTINO, ROOTINO).entries, i);
  }

  lemma InitialInv(n: nat, g: Plan)
    requires n > ROOTINO && |g.pending| == |g.depth| == |g.slot| == n
    requires forall i :: 0 <= i < n ==> g.pending[i] == 0 && g.depth[i] == 0
    ensures Inv(InitialTree(n), g)
  {
    var t := InitialTree(n);
    InitialSums(n, ROOTINO);
    forall i | 0 < i < n ensures CountOk(t, g, i) {
      InitialSums(n, i);
    }
  }
}
