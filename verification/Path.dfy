/** Path names (fs.c): splitting a path into names, walking the directory tree along them, and
    what namei and nameiparent find. */
module Path {
  import opened Options
  import opened Dir
  import opened DirCode

  // ---------------------------------------------------------------- the names in a path

  /** A name as skipelem copies it: cut at DIRSIZ characters. */
  function Cut(elem: string): string { if |elem| >= DIRSIZ then elem[..DIRSIZ] else elem }

  function Flush(elem: string): seq<string> { if elem == [] then [] else [Cut(elem)] }

  /** The names in a path from i on, read character by character, when an element has begun at s:
      a slash ends an element, and empty elements do not count. */
  function Scan(path: string, s: nat, i: nat): seq<string>
    requires s <= i <= |path|
    decreases |path| - i
  {
    if i == |path| then Flush(path[s..i])
    else if path[i] == '/' then Flush(path[s..i]) + Scan(path, i + 1, i + 1)
    else Scan(path, s, i + 1)
  }

  function Names(path: string, i: nat): seq<string>
    requires i <= |path|
  {
    Scan(path, i, i)
  }

  /** No slash from s to i: the element is still open. */
  predicate Open(path: string, s: nat, i: nat) {
    s <= i <= |path| && forall k :: s <= k < i ==> path[k] != '/'
  }

  lemma {:induction false} NamesGood(path: string, s: nat, i: nat)
    requires Open(path, s, i)
    ensures forall k :: 0 <= k < |Scan(path, s, i)| ==> GoodName(Scan(path, s, i)[k])
    decreases |path| - i
  {
    if i < |path| && path[i] != '/' { NamesGood(path, s, i + 1); }
    if i < |path| && path[i] == '/' { NamesGood(path, i + 1, i + 1); }
  }

  /** An element that has begun will be counted. */
  lemma {:induction false} OneMore(path: string, s: nat, i: nat)
    requires s <= i <= |path| && (s < i || (i < |path| && path[i] != '/'))
    ensures Scan(path, s, i) != []
    decreases |path| - i
  {
    if i < |path| && path[i] != '/' { OneMore(path, s, i + 1); }
  }

  /** A complete element gives one name. */
  lemma ElementEnds(path: string, s: nat, i: nat, elem: string)
    requires Open(path, s, i) && s < i && elem == path[s..i] && (i < |path| ==> path[i] == '/')
    ensures Scan(path, s, i) == [Cut(elem)] + Names(path, i) && GoodName(Cut(elem))
  {
    assert path[i..i] == [];
    assert forall k :: 0 <= k < |elem| ==> elem[k] == path[s + k];
  }

  datatype Elem = Last | Elem(name: string, next: nat)

  /** skipelem: the first name, and where the path goes on after it and its slashes. */
  method Skipelem(path: string, start: nat) returns (r: Elem)
    requires start <= |path|
    ensures r.Last? <==> Names(path, start) == []
    ensures r.Elem? ==> start < r.next <= |path| && (r.next == |path| <==> Names(path, r.next) == []) && GoodName(r.name)
    ensures r.Elem? ==> Names(path, start) == [r.name] + Names(path, r.next)
  {
    var s := SkipSlashes(path, start);
    if s == |path| {
      return Last;
    }
    OneMore(path, s, s);
    var i := s;
    while i < |path| && path[i] != '/'
      invariant Open(path, s, i) && Scan(path, s, s) == Scan(path, s, i) && (i == s ==> path[i] != '/')
    {
      i := i + 1;
    }
    var elem := path[s..i];
    ElementEnds(path, s, i, elem);
    var name := if |elem| >= DIRSIZ then elem[..DIRSIZ] else elem;
    var next := SkipSlashes(path, i);
    if next < |path| { OneMore(path, next, next); }
    r := Elem(name, next);
  }

  method SkipSlashes(path: string, start: nat) returns (i: nat)
    requires start <= |path|
    ensures start <= i <= |path| && (i < |path| ==> path[i] != '/') && Names(path, i) == Names(path, start)
  {
    i := start;
    while i < |path| && path[i] == '/'
      invariant start <= i <= |path| && Names(path, i) == Names(path, start)
    {
      i := i + 1;
    }
  }

  // ---------------------------------------------------------------- walking

  /** The inode that a directory gives a name, that of the first slot in use. */
  function Find(e: seq<Dirent>, name: string): Option<nat> {
    if e == [] then None
    else if e[0].inum != 0 && e[0].name == name then Some(e[0].inum)
    else Find(e[1..], name)
  }

  lemma {:induction false} FindFirst(e: seq<Dirent>, name: string, k: nat)
    requires k < |e| && e[k].inum != 0 && e[k].name == name && Absent(e[..k], name)
    ensures Find(e, name) == Some(e[k].inum)
    decreases k
  {
    if k > 0 {
      assert e[..k][0] == e[0];
      assert e[1..][..k - 1] == e[..k][1..];
      FindFirst(e[1..], name, k - 1);
    }
  }

  lemma {:induction false} FindNone(e: seq<Dirent>, name: string)
    ensures Find(e, name) == None <==> Absent(e, name)
  {
    if e != [] {
      FindNone(e[1..], name);
      assert forall j :: 0 < j < |e| ==> e[1..][j - 1] == e[j];
    }
  }

  lemma FindUnique(e: seq<Dirent>, name: string, k: nat)
    requires UniqueNames(e) && k < |e| && e[k].inum != 0 && e[k].name == name
    ensures Find(e, name) == Some(e[k].inum)
  {
    FindFirst(e, name, k);
  }

  predicate IsDir(t: seq<Node>, d: nat) { d < |t| && t[d].kind == Dir }

  /** ilock of a free inode panics. */
  predicate NoInode(t: seq<Node>, d: nat) { d >= |t| || t[d].kind == Free }

  datatype Walked = Nowhere | NoType | Reached(inum: nat)

  /** Where names lead from d: every inode but the last is locked, must be in use, and must be a
      directory. */
  function Walk(t: seq<Node>, d: nat, names: seq<string>): Walked
    decreases |names|
  {
    if names == [] then Reached(d)
    else if NoInode(t, d) then NoType
    else if !IsDir(t, d) then Nowhere
    else
      var next := Find(t[d].entries, names[0]);
      if next.None? then Nowhere else Walk(t, next.value, names[1..])
  }

  /** The directory that holds the last name. */
  function WalkParent(t: seq<Node>, d: nat, names: seq<string>): Walked
    decreases |names|
  {
    if names == [] then Nowhere
    else if NoInode(t, d) then NoType
    else if !IsDir(t, d) then Nowhere
    else if |names| == 1 then Reached(d)
    else
      var next := Find(t[d].entries, names[0]);
      if next.None? then Nowhere else WalkParent(t, next.value, names[1..])
  }

  predicate Suffix(b: seq<string>, a: seq<string>) { |b| <= |a| && a[|a| - |b|..] == b }

  function Start(path: string, cwd: nat): nat { if path != [] && path[0] == '/' then ROOTINO else cwd }

  /** dirlookup, as far as the inode number it finds. */
  method Lookup(t: seq<Node>, ghost g: Plan, d: nat, name: string) returns (r: Option<nat>)
    requires Inv(t, g) && IsDir(t, d)
    ensures r == Find(t[d].entries, name) && (r.Some? ==> r.value < |t|)
  {
    var slot := Dirlookup(t[d].entries, name);
    FindNone(t[d].entries, name);
    if slot.None? {
      return None;
    }
    FindFirst(t[d].entries, name, slot.value);
    assert DirOk(t, d);
    r := Some(t[d].entries[slot.value].inum);
  }

  /** namex: the inode a path names, or with `parent` the directory of its last name and that name. */
  method Namex(t: seq<Node>, ghost g: Plan, cwd: nat, path: string, parent: bool) returns (r: Walked, name: string)
    requires Inv(t, g) && cwd < |t|
    ensures r == if parent then WalkParent(t, Start(path, cwd), Names(path, 0)) else Walk(t, Start(path, cwd), Names(path, 0))
    ensures parent && r.Reached? ==> Names(path, 0) != [] && name == Names(path, 0)[|Names(path, 0)| - 1] && GoodName(name)
    ensures r.NoType? ==> Start(path, cwd) == cwd && !Linked(t[cwd])
  {
    var ip: nat := if path != [] && path[0] == '/' then ROOTINO else cwd;
    var i: nat := 0;
    ghost var from, all := ip, Names(path, i);
    name := [];
    if Linked(t[from]) { LinkedNeverPanics(t, g, from, all); }
    while true
      invariant i <= |path| && ip < |t| && Suffix(Names(path, i), all)
      invariant Walk(t, from, all) == Walk(t, ip, Names(path, i))
      invariant WalkParent(t, from, all) == WalkParent(t, ip, Names(path, i)) || !parent
      decreases |path| - i
    {
      var elem := Skipelem(path, i);
      if elem.Last? {
        break;
      }
      name := elem.name;
      if t[ip].kind == Free {
        return NoType, name;
      }
      if t[ip].kind != Dir {
        return Nowhere, name;
      }
      if parent && elem.next == |path| {
        return Reached(ip), name;
      }
      var next := Lookup(t, g, ip, name);
      if next.None? {
        return Nowhere, name;
      }
      ip := next.value;
      i := elem.next;
    }
    r := if parent then Nowhere else Reached(ip);
  }

  // ---------------------------------------------------------------- when namex panics

  lemma FindAt(e: seq<Dirent>, name: string) returns (k: nat)
    requires Find(e, name).Some?
    ensures k < |e| && e[k].name == name && e[k].inum == Find(e, name).value != 0
  {
    if e[0].inum != 0 && e[0].name == name {
      k := 0;
    } else {
      var m := FindAt(e[1..], name);
      k := m + 1;
    }
  }

  /** What a linked directory names is in use, and still linked if it is a directory. */
  lemma NamedInUse(t: seq<Node>, g: Plan, d: nat, name: string)
    requires Inv(t, g) && d < |t| && Linked(t[d]) && Find(t[d].entries, name).Some?
    ensures var i := Find(t[d].entries, name).value; 0 < i < |t| && t[i].kind != Free && t[i].nlink > 0
  {
    var k := FindAt(t[d].entries, name);
    var i := t[d].entries[k].inum;
    assert DirOk(t, d) && TreeOk(t, g, d);
    assert CountOk(t, g, i);
    SumAtLeast(t, d, i);
    if k >= 2 { NamesAtLeast(t[d].entries, k); }
  }

  /** A walk that starts in a linked directory never locks a free inode, and what it reaches is in
      use. */
  lemma {:induction false} LinkedNeverPanics(t: seq<Node>, g: Plan, d: nat, names: seq<string>)
    requires Inv(t, g) && d < |t| && Linked(t[d])
    ensures !Walk(t, d, names).NoType? && !WalkParent(t, d, names).NoType?
    ensures Walk(t, d, names).Reached? ==> !NoInode(t, Walk(t, d, names).inum)
    decreases |names|
  {
    if names != [] && Find(t[d].entries, names[0]).Some? {
      NamedInUse(t, g, d, names[0]);
      var next := Find(t[d].entries, names[0]).value;
      if t[next].kind == Dir { LinkedNeverPanics(t, g, next, names[1..]); }
    }
  }

  /** Only "." and ".." lead out of an unlinked directory. */
  lemma OnlyDots(t: seq<Node>, g: Plan, d: nat, name: string)
    requires Inv(t, g) && IsDir(t, d) && t[d].nlink == 0 && Find(t[d].entries, name).Some?
    ensures name == "." || name == ".."
  {
    var k := FindAt(t[d].entries, name);
    assert DirOk(t, d);
  }

  /** Where "." and ".." lead from d: "." stays, ".." goes to the inode in the second slot. */
  function Climb(t: seq<Node>, d: nat, dots: seq<string>): nat
    decreases |dots|
  {
    if dots == [] then d
    else Climb(t, if dots[0] == ".." && IsDir(t, d) && |t[d].entries| >= 2 then t[d].entries[1].inum else d, dots[1..])
  }

  predicate Dots(names: seq<string>) { forall j :: 0 <= j < |names| ==> names[j] == "." || names[j] == ".." }

  /** The first k names are dots that climb to a free inode, and there is a name after them. */
  predicate ClimbsToFree(t: seq<Node>, d: nat, names: seq<string>, k: nat) {
    k < |names| && Dots(names[..k]) && NoInode(t, Climb(t, d, names[..k]))
  }

  /** From a linked directory dots lead to linked directories. */
  lemma {:induction false} ClimbLinked(t: seq<Node>, g: Plan, d: nat, dots: seq<string>)
    requires Inv(t, g) && d < |t| && Linked(t[d])
    ensures !NoInode(t, Climb(t, d, dots))
    decreases |dots|
  {
    assert DirOk(t, d) && TreeOk(t, g, d);
    if dots != [] { ClimbLinked(t, g, if dots[0] == ".." then t[d].entries[1].inum else d, dots[1..]); }
  }

  /** Dots lead nowhere from what is no directory. */
  lemma {:induction false} ClimbStays(t: seq<Node>, d: nat, dots: seq<string>)
    requires !IsDir(t, d)
    ensures Climb(t, d, dots) == d
    decreases |dots|
  {
    if dots != [] { ClimbStays(t, d, dots[1..]); }
  }

  lemma DotStep(t: seq<Node>, g: Plan, d: nat, name: string)
    requires Inv(t, g) && IsDir(t, d) && (name == "." || name == "..")
    ensures |t[d].entries| >= 2 && Find(t[d].entries, name) == Some(if name == ".." then t[d].entries[1].inum else d)
    ensures t[d].entries[1].inum < |t|
  {
    assert DirOk(t, d);
    FindUnique(t[d].entries, name, if name == ".." then 1 else 0);
  }

  lemma {:induction false} FirstDot(t: seq<Node>, d: nat, names: seq<string>, k: nat, next: nat)
    requires 0 < k < |names| && IsDir(t, d) && |t[d].entries| >= 2 && next == if names[0] == ".." then t[d].entries[1].inum else d
    ensures ClimbsToFree(t, d, names, k) <==> (names[0] == "." || names[0] == "..") && ClimbsToFree(t, next, names[1..], k - 1)
  {
    assert names[..k][1..] == names[1..][..k - 1] && names[..k][0] == names[0];
    assert forall j :: 0 < j < k ==> names[..k][j] == names[1..][..k - 1][j - 1];
  }

  /** namex panics, for namei and nameiparent alike, exactly when the path begins with "." and ".."
      elements that climb out of the starting directory to an inode that has been freed, and does
      not end there. */
  lemma {:induction false} PanicsExactly(t: seq<Node>, g: Plan, d: nat, names: seq<string>)
    requires Inv(t, g) && d < |t|
    ensures Walk(t, d, names).NoType? <==> exists k: nat :: ClimbsToFree(t, d, names, k)
    ensures WalkParent(t, d, names).NoType? <==> Walk(t, d, names).NoType?
    decreases |names|
  {
    if names != [] {
      ParentThenLookup(t, d, names);
      if NoInode(t, d) {
        assert names[..0] == [];
        assert ClimbsToFree(t, d, names, 0);
      } else if !IsDir(t, d) {
        NoClimb(t, g, d, names);
      } else if t[d].nlink > 0 {
        LinkedNeverPanics(t, g, d, names);
        NoClimb(t, g, d, names);
      } else {
        ClimbOne(t, g, d, names);
      }
    }
  }

  lemma NoClimb(t: seq<Node>, g: Plan, d: nat, names: seq<string>)
    requires Inv(t, g) && d < |t| && !NoInode(t, d) && (!IsDir(t, d) || Linked(t[d]))
    ensures !exists k: nat :: ClimbsToFree(t, d, names, k)
  {
    forall k: nat | k < |names| ensures !NoInode(t, Climb(t, d, names[..k])) {
      if Linked(t[d]) { ClimbLinked(t, g, d, names[..k]); } else { ClimbStays(t, d, names[..k]); }
    }
  }

  /** One step out of an unlinked directory. */
  lemma ClimbOne(t: seq<Node>, g: Plan, d: nat, names: seq<string>)
    requires Inv(t, g) && names != [] && IsDir(t, d) && t[d].nlink == 0
    ensures Walk(t, d, names).NoType? <==> exists k: nat :: ClimbsToFree(t, d, names, k)
    decreases |names|, 0
  {
    var dot := names[0] == "." || names[0] == "..";
    DotStep(t, g, d, if dot then names[0] else ".");
    if !dot && Find(t[d].entries, names[0]).Some? { OnlyDots(t, g, d, names[0]); }
    var next, rest := if names[0] == ".." then t[d].entries[1].inum else d, names[1..];
    PanicsExactly(t, g, next, rest);
    assert names[..0] == [] && !ClimbsToFree(t, d, names, 0);
    forall k: nat | 0 < k < |names|
      ensures ClimbsToFree(t, d, names, k) <==> dot && ClimbsToFree(t, next, rest, k - 1)
    {
      FirstDot(t, d, names, k, next);
    }
    if dot && exists k: nat :: ClimbsToFree(t, next, rest, k) {
      var k: nat :| ClimbsToFree(t, next, rest, k);
      assert ClimbsToFree(t, d, names, k + 1);
    }
  }

  // ---------------------------------------------------------------- a run that climbs to a free inode

  method Mkdir(f: FileTree, dp: nat, name: string) returns (ip: nat, ghost k: nat)
    requires f.Valid() && dp < |f.t| && Linked(f.t[dp]) && Absent(f.t[dp].entries, name) && GoodName(name)
    requires !NoFree(f.t) && |f.t[dp].entries| < MAXSLOTS
    modifies f
    ensures f.Valid() && 0 < ip < |old(f.t)| && old(f.t[ip]).kind == Free && Room(old(f.t[dp]).entries, k)
    ensures f.t == WithDir(old(f.t), dp, k, name, ip)
  {
    var made := f.Create(dp, name, Dir);
    ip := made.inum;
    k :| CreatedAt(old(f.t), f.t, dp, name, Dir, ip, k);
  }

  method Rmdir(f: FileTree, dp: nat, name: string, ghost k: nat, i: nat)
    requires f.Valid() && dp < |f.t| && f.t[dp].kind == Dir && name != "." && name != ".."
    requires 2 <= k < |f.t[dp].entries| && f.t[dp].entries[k] == Dirent(i, name)
    requires 0 < i < |f.t| && f.t[i].kind == Dir && IsEmpty(f.t[i].entries)
    modifies f
    ensures f.Valid() && old(f.t[dp]).nlink > 0 && old(f.t[i]).nlink > 0 && f.t == WithoutDir(old(f.t), dp, k, i)
  {
    assert DirOk(f.t, dp);
    assert !DirCode.Keeps(f.t, f.t[dp].entries[k].inum);
    var gone := f.Unlink(dp, name);
    ghost var m :| RemovedAt(old(f.t), f.t, dp, name, gone.inum, m);
  }

  /** mkdir a, mkdir a/b. */
  method MakeTwo(n: nat) returns (f: FileTree, a: nat, b: nat)
    requires n >= 4
    ensures fresh(f) && f.Valid() && 0 < a < |f.t| && 0 < b < |f.t| && a != ROOTINO && b != ROOTINO && a != b
    ensures f.t[b] == NewDir(b, a) && f.t[ROOTINO].kind == f.t[a].kind == Dir && f.t[a].nlink == 2
    ensures f.t[a].entries == [Dirent(a, "."), Dirent(ROOTINO, ".."), Dirent(b, "b")]
    ensures f.t[ROOTINO].entries == [Dirent(ROOTINO, "."), Dirent(ROOTINO, ".."), Dirent(a, "a")]
  {
    f := new FileTree(n);
    ghost var j, k;
    assert f.t[2].kind == Free && f.t[ROOTINO] == NewDir(ROOTINO, ROOTINO);
    a, j := Mkdir(f, ROOTINO, "a");
    ghost var spare := if a == 2 then 3 else 2;
    assert f.t[spare].kind == Free && f.t[a] == NewDir(a, ROOTINO);
    b, k := Mkdir(f, a, "b");
  }

  /** Then chdir a/b, unlink a/b, unlink a, and the last iput of a: b is an unlinked directory whose
      ".." is still a, which is free. */
  method LoseParent(n: nat) returns (f: FileTree, a: nat, b: nat)
    requires n >= 4
    ensures fresh(f) && f.Valid() && 0 < a < |f.t| && f.t[a].kind == Free
    ensures b < |f.t| && f.t[b] == Node(Dir, 0, [Dirent(b, "."), Dirent(a, "..")])
  {
    f, a, b := MakeTwo(n);
    Rmdir(f, a, "b", 2, b);
    Rmdir(f, ROOTINO, "a", 2, a);
    f.IputLast(a);
  }

  /** There the relative path "../x" makes namex panic. */
  method ClimbPanics(n: nat) returns (f: FileTree, cwd: nat, r: Walked)
    requires n >= 4
    ensures fresh(f) && f.Valid() && cwd < |f.t| && f.t[cwd].kind == Dir
    ensures r == Walk(f.t, cwd, Names("../x", 0)) == NoType
  {
    var a, name;
    f, a, cwd := LoseParent(n);
    UpThenX();
    FindUnique(f.t[cwd].entries, "..", 1);
    r, name := Namex(f.t, f.g, cwd, "../x", false);
  }

  lemma UpThenX()
    ensures Names("../x", 0) == ["..", "x"]
  {
    var path, two: nat, three: nat := "../x", 2, 3;
    assert path[three..4] == "x" && path[0..2] == "..";
    assert Scan(path, three, three) == Scan(path, three, 4) == Flush("x");
    assert Scan(path, 0, 0) == Scan(path, 0, 1) == Scan(path, 0, two) == Flush(path[0..2]) + Scan(path, three, three);
  }

  // ---------------------------------------------------------------- what paths mean

  /** Walking along names a and then b. */
  lemma {:induction false} WalkAppend(t: seq<Node>, d: nat, a: seq<string>, b: seq<string>)
    ensures Walk(t, d, a + b) == (var m := Walk(t, d, a); if m.Reached? then Walk(t, m.inum, b) else m)
    decreases |a|
  {
    if a == [] {
      assert a + b == b;
    } else {
      assert (a + b)[1..] == a[1..] + b;
      if IsDir(t, d) && Find(t[d].entries, a[0]).Some? { WalkAppend(t, Find(t[d].entries, a[0]).value, a[1..], b); }
    }
  }

  /** namei finds what dirlookup finds in the directory that nameiparent gives, under the name that
      nameiparent gives, and panics when nameiparent does. */
  lemma {:induction false} ParentThenLookup(t: seq<Node>, d: nat, names: seq<string>)
    requires names != []
    ensures WalkParent(t, d, names).Reached? ==> IsDir(t, WalkParent(t, d, names).inum)
    ensures Walk(t, d, names) == (var p := WalkParent(t, d, names);
      if !p.Reached? then p else
      var r := Find(t[p.inum].entries, names[|names| - 1]); if r.None? then Nowhere else Reached(r.value))
    decreases |names|
  {
    if IsDir(t, d) && |names| > 1 {
      var next := Find(t[d].entries, names[0]);
      if next.Some? { ParentThenLookup(t, next.value, names[1..]); }
    }
  }

  function ParentOf(t: seq<Node>, d: nat): nat
    requires d < |t| && |t[d].entries| >= 2
  {
    t[d].entries[1].inum
  }

  /** The name of a linked directory in its parent leads down to it, ".." leads back up, and "."
      leads nowhere. */
  lemma DownAndUp(t: seq<Node>, g: Plan, d: nat, p: nat, name: string)
    requires Inv(t, g) && d < |t| && Linked(t[d]) && d != ROOTINO
    requires |t[d].entries| >= 2 && p == ParentOf(t, d) && p < |t| && g.slot[d] < |t[p].entries| && name == t[p].entries[g.slot[d]].name
    ensures Walk(t, p, [name]) == Reached(d) && Walk(t, d, [".."]) == Reached(p) && Walk(t, d, ["."]) == Reached(d)
  {
    assert TreeOk(t, g, d) && DirOk(t, d) && DirOk(t, p);
    FindUnique(t[p].entries, name, g.slot[d]);
    FindUnique(t[d].entries, "..", 1);
    FindUnique(t[d].entries, ".", 0);
  }

  /** The names that lead from the root to a directory. */
  function PathTo(t: seq<Node>, g: Plan, d: nat, depth: nat): seq<string>
    requires |t| == |g.slot|
    decreases depth
  {
    if depth == 0 || d >= |t| || |t[d].entries| < 2 then []
    else
      var p := ParentOf(t, d);
      PathTo(t, g, p, depth - 1) + (if p < |t| && g.slot[d] < |t[p].entries| then [t[p].entries[g.slot[d]].name] else [])
  }

  /** The last step of that path, from the parent p by the name the parent gives. */
  lemma LastStep(t: seq<Node>, g: Plan, d: nat, depth: nat, p: nat, above: seq<string>, name: string)
    requires Inv(t, g) && d < |t| && Linked(t[d]) && depth == g.depth[d] && depth > 0
    requires |t[d].entries| >= 2 && p == ParentOf(t, d) && p < |t| && above == PathTo(t, g, p, depth - 1)
    requires g.slot[d] < |t[p].entries| && name == t[p].entries[g.slot[d]].name
    ensures PathTo(t, g, d, depth) == above + [name] && GoodName(name) && Walk(t, p, [name]) == Reached(d)
  {
    assert TreeOk(t, g, d) && DirOk(t, p);
    DownAndUp(t, g, d, p, name);
  }

  /** Every linked directory can be reached from the root by names. */
  lemma {:induction false} Reachable(t: seq<Node>, g: Plan, d: nat, depth: nat, names: seq<string>)
    requires Inv(t, g) && d < |t| && Linked(t[d]) && depth == g.depth[d] && names == PathTo(t, g, d, depth)
    ensures Walk(t, ROOTINO, names) == Reached(d) && forall k :: 0 <= k < |names| ==> GoodName(names[k])
    decreases depth
  {
    assert TreeOk(t, g, d) && DirOk(t, d);
    if depth > 0 {
      var p := ParentOf(t, d);
      var name, above := t[p].entries[g.slot[d]].name, PathTo(t, g, p, depth - 1);
      LastStep(t, g, d, depth, p, above, name);
      Reachable(t, g, p, depth - 1, above);
      WalkAppend(t, ROOTINO, above, [name]);
    } else {
      assert d == ROOTINO;
    }
  }

  /** The path that spells names out, each after a slash. */
  function Spell(names: seq<string>): string {
    if names == [] then [] else "/" + (names[0] + Spell(names[1..]))
  }

  function Absolute(names: seq<string>): string { if names == [] then "/" else Spell(names) }

  lemma {:induction false} ScanOpen(path: string, s: nat, i: nat)
    requires Open(path, s, i)
    ensures Scan(path, s, s) == Scan(path, s, i)
    decreases i
  {
    if s < i { ScanOpen(path, s, i - 1); }
  }

  /** One name and its slash, before the rest of the path. */
  lemma OneName(path: string, i: nat, name: string, j: nat)
    requires GoodName(name) && i < |path| && path[i] == '/' && j == i + 1 + |name| <= |path| && path[i + 1..j] == name
    requires j < |path| ==> path[j] == '/'
    ensures Names(path, i) == [name] + Names(path, j)
  {
    var s := i + 1;
    forall k | s <= k < j ensures path[k] != '/' { assert path[k] == name[k - s]; }
    ScanOpen(path, s, j);
    ElementEnds(path, s, j, name);
    assert path[i..i] == [] && Cut(name) == name;
  }

  /** What is spelled is a slash, the first name, and the rest, which begins with a slash. */
  lemma SpellParts(path: string, i: nat, names: seq<string>, j: nat)
    requires i <= |path| && names != [] && path[i..] == Spell(names) && j == i + 1 + |names[0]|
    ensures j <= |path| && path[i] == '/' && path[i + 1..j] == names[0] && path[j..] == Spell(names[1..])
    ensures j < |path| ==> path[j] == '/'
  {
    var rest := Spell(names[1..]);
    SliceParts(path, i, names[0], rest, j);
    if rest != [] { assert rest[0] == '/'; }
  }

  lemma SliceParts(path: string, i: nat, name: string, rest: string, j: nat)
    requires i <= |path| && path[i..] == "/" + (name + rest) && j == i + 1 + |name|
    ensures j <= |path| && path[i] == '/' && path[i + 1..j] == name && path[j..] == rest && (j < |path| ==> path[j] == rest[0])
  {
    var tail := path[i..];
    assert |tail| == 1 + |name| + |rest|;
    assert tail[1..1 + |name|] == name && tail[1 + |name|..] == rest;
  }

  /** Splitting a path that spells good names gives the names back. */
  lemma {:induction false} NamesOfSpell(path: string, i: nat, names: seq<string>)
    requires i <= |path| && path[i..] == Spell(names) && forall k :: 0 <= k < |names| ==> GoodName(names[k])
    ensures Names(path, i) == names
    decreases |names|
  {
    if names != [] {
      var name := names[0];
      var j := i + 1 + |name|;
      SpellParts(path, i, names, j);
      OneName(path, i, name, j);
      NamesOfSpell(path, j, names[1..]);
    }
  }

  /** Every linked directory has an absolute path, and namei of that path finds it from anywhere. */
  lemma NameiFindsDirectory(t: seq<Node>, g: Plan, d: nat, cwd: nat)
    requires Inv(t, g) && d < |t| && Linked(t[d])
    ensures var path := Absolute(PathTo(t, g, d, g.depth[d])); Walk(t, Start(path, cwd), Names(path, 0)) == Reached(d)
  {
    var names, i: nat := PathTo(t, g, d, g.depth[d]), 0;
    var path := Absolute(names);
    Reachable(t, g, d, g.depth[d], names);
    if names == [] {
      assert Names(path, i) == Names(path, 1) == [];
    } else {
      assert path[i..] == path;
      NamesOfSpell(path, i, names);
    }
  }
}
