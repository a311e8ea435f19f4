/** The first walk of the relocation: every directory of the root device, and every foreign mount
    point, is created below the new root, which itself lies in the tree being walked. */
module CopyTree {
  import opened FileTree

  datatype Verdict = Go | SkipDir | Fail

  /** The tree after mounting an empty file system of another device on `root`. */
  datatype Layout = Layout(orig: Nodes, root: Path, rootDev: nat, newDev: nat)

  ghost predicate LayoutOk(l: Layout) {
    && WellFormed(l.orig) && l.orig[[]].dev == l.rootDev && l.rootDev != l.newDev
    && l.root != [] && l.root in l.orig && l.orig[l.root].kind.Directory? && l.orig[l.root].dev == l.newDev
    && forall p <- l.orig | Under(l.root, p) :: p == l.root
  }

  /** What a walk that stays on the root device comes to: everything above lies on it. */
  predicate Reached(l: Layout, p: Path) {
    && p in l.orig
    && forall n | 0 <= n < |p| :: p[..n] in l.orig && l.orig[p[..n]].dev == l.rootDev
  }

  /** What the walk finds at and below a path: the directories, or everything else. */
  ghost function Found(l: Layout, path: Path, dirs: bool): set<Path> {
    set q | q in l.orig && Under(path, q) && Reached(l, q) && l.orig[q].kind.Directory? == dirs
  }

  ghost function Dirs(l: Layout, path: Path): set<Path> { Found(l, path, true) }

  /** What lstat shows when the walk arrives: the mount point already has the root's owner and mode. */
  function Seen(l: Layout, q: Path): Node
    requires q in l.orig && [] in l.orig
  {
    if q == l.root then WithMeta(l.orig[q], l.orig[[]]) else l.orig[q]
  }

  predicate LikeDir(n: Node, info: Node) {
    n.kind.Directory? && n.owner == info.owner && n.mode == info.mode
  }

  /** Nothing outside the new root has changed. */
  ghost predicate Untouched(t: Nodes, l: Layout) {
    forall p | !Under(l.root, p) :: Same(t, l.orig, p)
  }

  /** A state of the first walk: besides that, only directories have been reproduced. */
  ghost predicate Growing(t: Nodes, l: Layout) {
    && Untouched(t, l)
    && forall q {:trigger l.root + q} | l.root + q in t ::
      t[l.root + q].kind.Directory? && (q != [] ==> q in Dirs(l, []))
  }

  ghost predicate Quiet(fs: FileSystem, from: nat, l: Layout)
    reads fs`history
  {
    from <= |fs.history| && forall i :: from <= i < |fs.history| ==> Growing(fs.history[i], l)
  }

  /** Exactly the directories in `done` have been reproduced. */
  ghost predicate Built(t: Nodes, l: Layout, done: set<Path>) {
    && Untouched(t, l)
    && [] in l.orig && l.root in t && l.root in l.orig && done <= Dirs(l, [])
    && t[l.root] == (if [] in done then WithMeta(l.orig[l.root], l.orig[[]]) else l.orig[l.root])
    && (forall q {:trigger l.root + q} | q != [] :: l.root + q in t <==> q in done)
    && (forall q {:trigger l.root + q} | q in done && q != [] :: LikeDir(t[l.root + q], Seen(l, q)))
  }

  lemma NotInside(l: Layout, p: Path)
    requires LayoutOk(l) && Reached(l, p)
    ensures Under(l.root, p) ==> p == l.root
  {
  }

  lemma RootPaths(root: Path, q: Path)
    ensures Under(root, root + q) && (root + q == root <==> q == []) && (root + q)[|root|..] == q
  {
  }

  lemma MakesOne(t: Nodes, t': Nodes, l: Layout, done: set<Path>, path: Path)
    requires LayoutOk(l) && Built(t, l, done) && path in Dirs(l, [])
    requires t.Keys <= t'.Keys <= t.Keys + {l.root + path}
    requires l.root + path in t' ==> t'[l.root + path].kind.Directory?
    requires forall p <- t | p != l.root + path :: t'[p] == t[p]
    ensures Growing(t', l)
  {
    RootPaths(l.root, path);
    forall q | l.root + q in t' ensures t'[l.root + q].kind.Directory? && (q != [] ==> q in Dirs(l, [])) {
      RootPaths(l.root, q);
      if q != path {
        assert l.root + q != l.root + path && l.root + q in t && t'[l.root + q] == t[l.root + q];
      }
    }
    forall p | !Under(l.root, p) ensures Same(t', l.orig, p) {
      assert Same(t, l.orig, p);
    }
  }

  lemma AdjustsOne(t: Nodes, t': Nodes, l: Layout, path: Path)
    requires Growing(t, l) && OnlyMeta(t', t, l.root + path)
    ensures Growing(t', l)
  {
    RootPaths(l.root, path);
    forall p | !Under(l.root, p) ensures Same(t', l.orig, p) {
      assert Same(t, l.orig, p);
    }
  }

  lemma NowBuilt(t: Nodes, t': Nodes, l: Layout, done: set<Path>, path: Path)
    requires LayoutOk(l) && Built(t, l, done) && Untouched(t', l) && path in Dirs(l, []) && ([] in done || path == [])
    requires t'.Keys == t.Keys + {l.root + path} && forall p <- t | p != l.root + path :: t'[p] == t[p]
    requires if path == [] then t'[l.root] == WithMeta(l.orig[l.root], l.orig[[]])
             else LikeDir(t'[l.root + path], Seen(l, path))
    ensures Built(t', l, done + {path})
  {
    RootPaths(l.root, path);
    forall q | q != [] ensures l.root + q in t' <==> q in done + {path} {
      RootPaths(l.root, q);
      assert l.root + q == l.root + path <==> q == path;
    }
    forall q <- done + {path} | q != [] ensures LikeDir(t'[l.root + q], Seen(l, q)) {
      RootPaths(l.root, q);
    }
  }

  lemma CanMakeDir(t: Nodes, l: Layout, done: set<Path>, path: Path)
    requires LayoutOk(l) && Built(t, l, done) && path !in done && (path != [] ==> Parent(path) in done)
    ensures l.root in t && (path != [] ==> CanMake(t, l.root + path))
  {
    if path != [] {
      assert Parent(l.root + path) == l.root + Parent(path);
      if Parent(path) == [] {
        assert l.root + Parent(path) == l.root;
      }
    }
  }

  /** The callback: create the directory, or adjust the one that is there, and copy its metadata. */
  method VisitDir(fs: FileSystem, ghost l: Layout, root: Path, rootDev: nat, path: Path, info: Node,
                  ghost done: set<Path>, ghost from: nat)
    returns (r: Verdict)
    requires LayoutOk(l) && root == l.root && rootDev == l.rootDev && Built(fs.nodes, l, done)
    requires Reached(l, path) && l.orig[path].kind.Directory? && path !in done && ([] in done || path == [])
    requires info == Seen(l, path) && (path != [] ==> Parent(path) in done)
    requires Quiet(fs, from, l)
    modifies fs
    ensures Quiet(fs, from, l)
    ensures !r.Fail? ==> Built(fs.nodes, l, done + {path})
    ensures !r.Fail? ==> r == if l.orig[path].dev == l.rootDev then Go else SkipDir
    ensures !r.Fail? <==> fs.faults == old(fs.faults)
    ensures fs.failures == old(fs.failures) && old(fs.faults) <= fs.faults
  {
    var dest := root + path;
    RootPaths(root, path);
    ghost var t, h := fs.nodes, |fs.history|;
    CanMakeDir(t, l, done, path);
    var ok;
    if path == [] {
      ok := fs.Chmod(root, info.mode);
    } else {
      ok := fs.Mkdir(dest, info.mode, fs.nodes[root].dev);
    }
    MakesOne(t, fs.nodes, l, done, path);
    if !ok {
      return Fail;
    }
    ghost var t1, h1 := fs.nodes, fs.history;
    ok := fs.CopyMetadata(info, dest);
    forall i | |h1| <= i < |fs.history| ensures Growing(fs.history[i], l) {
      AdjustsOne(t1, fs.history[i], l, path);
    }
    if !ok {
      return Fail;
    }
    NowBuilt(t, fs.nodes, l, done, path);
    r := if info.dev == rootDev then Go else SkipDir;
  }

  /** Depth of a tree: no path is longer. */
  ghost predicate Shallow(t: Nodes, depth: nat) { forall p <- t :: |p| <= depth }

  /** The part of it whose first name below `path` is one of `names`. */
  ghost function Part(l: Layout, path: Path, names: seq<string>, dirs: bool): set<Path> {
    set q | q in Found(l, path, dirs) && |q| > |path| && q[|path|] in names
  }

  lemma PartGrows(l: Layout, path: Path, names: seq<string>, i: nat, dirs: bool)
    requires i < |names| && Reached(l, path) && l.orig[path].dev == l.rootDev
    ensures Part(l, path, names[..i + 1], dirs) ==
            Part(l, path, names[..i], dirs) + Found(l, path + [names[i]], dirs)
  {
    var child := path + [names[i]];
    assert names[..i + 1] == names[..i] + [names[i]];
    forall q ensures q in Part(l, path, names[..i + 1], dirs) <==>
                     q in Part(l, path, names[..i], dirs) + Found(l, child, dirs)
    {
      if |q| > |path| && Under(path, q) {
        assert q[..|path| + 1] == path + [q[|path|]];
      }
      if Under(child, q) {
        assert q[..|path|] == child[..|path|] == path && q[|path|] == child[|path|];
      }
    }
  }

  lemma ChildReached(l: Layout, path: Path, name: string)
    requires Reached(l, path) && l.orig[path].dev == l.rootDev && path + [name] in l.orig
    ensures Reached(l, path + [name])
  {
    var p := path + [name];
    forall n | 0 <= n < |p| ensures p[..n] in l.orig && l.orig[p[..n]].dev == l.rootDev {
      assert p[..n] == if n < |path| then path[..n] else path;
    }
  }

  lemma NoDirsUnderFile(l: Layout, path: Path)
    requires WellFormed(l.orig) && path in l.orig && !l.orig[path].kind.Directory?
    ensures Dirs(l, path) == {}
  {
    forall q <- Dirs(l, path) ensures false {
      NothingUnderFile(l.orig, path, q);
    }
  }

  lemma PathThere(t: Nodes, l: Layout, done: set<Path>, path: Path)
    requires LayoutOk(l) && Built(t, l, done) && Reached(l, path) && l.orig[path].kind.Directory?
    ensures path in t && t[path].kind.Directory?
  {
    NotInside(l, path);
    if !Under(l.root, path) {
      assert Same(t, l.orig, path);
    }
  }

  lemma NextChild(l: Layout, path: Path, names: seq<string>, i: nat, done: set<Path>)
    requires i < |names| && (forall a, b :: 0 <= a < b < |names| ==> names[a] != names[b])
    requires Reached(l, path) && l.orig[path].dev == l.rootDev && path + [names[i]] in l.orig
    requires Dirs(l, path) !! done
    ensures var child, sofar := path + [names[i]], done + {path} + Part(l, path, names[..i], true);
      && Reached(l, child) && Dirs(l, child) !! sofar
      && sofar + Dirs(l, child) == done + {path} + Part(l, path, names[..i + 1], true)
  {
    PartGrows(l, path, names, i, true);
    ChildReached(l, path, names[i]);
    ChildApart(l, path, names, i, done, true);
  }

  /** filepath.Walk over the directories. The names are read before the callback runs. The walk ends
      although the tree grows, because the depth that counts is that of the original tree. */
  method WalkDirs(fs: FileSystem, ghost l: Layout, root: Path, rootDev: nat, path: Path, info: Node,
                  ghost done: set<Path>, ghost depth: nat, ghost from: nat)
    returns (r: Verdict)
    requires LayoutOk(l) && root == l.root && rootDev == l.rootDev && Built(fs.nodes, l, done)
    requires Shallow(l.orig, depth)
    requires Reached(l, path) && l.orig[path].kind.Directory? && Dirs(l, path) !! done && ([] in done || path == [])
    requires info == Seen(l, path) && (path != [] ==> Parent(path) in done)
    requires Quiet(fs, from, l)
    modifies fs
    ensures Quiet(fs, from, l)
    ensures !r.Fail? ==> Built(fs.nodes, l, done + Dirs(l, path))
    ensures r.SkipDir? ==> l.orig[path].dev != l.rootDev
    ensures !r.Fail? <==> fs.faults == old(fs.faults)
    ensures fs.failures == old(fs.failures) && old(fs.faults) <= fs.faults
    decreases depth - |path|, 1
  {
    assert path in Dirs(l, path);
    PathThere(fs.nodes, l, done, path);
    var ok, names := fs.ReadDirNames(path);
    if !ok {
      return Fail;
    }
    ghost var t := fs.nodes;
    r := VisitDir(fs, l, root, rootDev, path, info, done, from);
    if !r.Go? {
      if r.SkipDir? {
        OnlyItself(l, path);
      }
      return;
    }
    NamesAreChildren(l, path, t, done, names);
    for i := 0 to |names|
      invariant Built(fs.nodes, l, done + {path} + Part(l, path, names[..i], true))
      invariant Quiet(fs, from, l)
      invariant fs.failures == old(fs.failures) && fs.faults == old(fs.faults)
    {
      assert names[i] in names;
      ghost var sofar := done + {path} + Part(l, path, names[..i], true);
      NextChild(l, path, names, i, done);
      var ok := WalkChild(fs, l, root, rootDev, path, names[i], sofar, depth, from);
      if !ok {
        return Fail;
      }
    }
    AllParts(l, path, names, true);
    assert names[..|names|] == names;
    assert done + {path} + Part(l, path, names, true) == done + Dirs(l, path);
  }

  /** One name of a directory being walked: it is looked up, and walked if it is a directory. */
  method WalkChild(fs: FileSystem, ghost l: Layout, root: Path, rootDev: nat, path: Path, name: string,
                   ghost done: set<Path>, ghost depth: nat, ghost from: nat)
    returns (ok: bool)
    requires LayoutOk(l) && root == l.root && rootDev == l.rootDev && Built(fs.nodes, l, done)
    requires Shallow(l.orig, depth)
    requires var child := path + [name]; Reached(l, child) && Dirs(l, child) !! done
    requires [] in done && path in done && Quiet(fs, from, l)
    modifies fs
    ensures Quiet(fs, from, l)
    ensures ok ==> Built(fs.nodes, l, done + Dirs(l, path + [name]))
    ensures ok <==> fs.faults == old(fs.faults)
    ensures fs.failures == old(fs.failures) && old(fs.faults) <= fs.faults
    decreases depth - |path|, 0
  {
    var child := path + [name];
    var info;
    ChildSeen(fs.nodes, l, child, done);
    ok, info := fs.Lstat(child);
    if ok && info.kind.Directory? {
      assert Parent(child) == path;
      var sub := WalkDirs(fs, l, root, rootDev, child, info, done, depth, from);
      ok := !sub.Fail?;
    } else if ok {
      NoDirsUnderFile(l, child);
      assert done + Dirs(l, child) == done;
    }
  }

  /** A directory of another device is reproduced, but nothing below it. */
  lemma OnlyItself(l: Layout, path: Path)
    requires Reached(l, path) && l.orig[path].dev != l.rootDev && l.orig[path].kind.Directory?
    ensures Dirs(l, path) == {path}
  {
    forall q <- Dirs(l, path) ensures q == path {
      assert q[..|path|] == path;
    }
  }

  lemma NamesAreChildren(l: Layout, path: Path, t: Nodes, done: set<Path>, names: seq<string>)
    requires LayoutOk(l) && Reached(l, path) && l.orig[path].dev == l.rootDev && Built(t, l, done)
    requires forall n :: n in names <==> path + [n] in t
    ensures forall n :: n in names <==> path + [n] in l.orig
  {
    forall n ensures path + [n] in t <==> path + [n] in l.orig {
      var p := path + [n];
      UnderParent(l.root, path, n);
      NotInside(l, path);
      assert !Under(l.root, p) ==> Same(t, l.orig, p);
    }
  }

  lemma UnderParent(root: Path, path: Path, n: string)
    ensures Under(root, path + [n]) ==> Under(root, path) || path + [n] == root
  {
    assert Under(root, path + [n]) && |root| <= |path| ==> path[..|root|] == (path + [n])[..|root|];
  }

  lemma ChildSeen(t: Nodes, l: Layout, child: Path, done: set<Path>)
    requires LayoutOk(l) && Reached(l, child) && Built(t, l, done) && [] in done
    ensures child in t && t[child] == Seen(l, child)
  {
    NotInside(l, child);
    if !Under(l.root, child) {
      assert Same(t, l.orig, child);
    }
  }

  lemma ChildApart(l: Layout, path: Path, names: seq<string>, i: nat, done: set<Path>, dirs: bool)
    requires i < |names| && (forall a, b :: 0 <= a < b < |names| ==> names[a] != names[b])
    requires Found(l, path, dirs) !! done
    ensures Found(l, path + [names[i]], dirs) !! done + {path} + Part(l, path, names[..i], dirs)
  {
    var child := path + [names[i]];
    forall q <- Found(l, child, dirs) ensures q !in done + {path} + Part(l, path, names[..i], dirs) {
      assert q[..|path|] == child[..|path|] == path && q[|path|] == child[|path|] == names[i];
      assert q in Found(l, path, dirs);
      assert names[i] !in names[..i];
    }
  }

  lemma FirstName(l: Layout, path: Path, names: seq<string>, dirs: bool, q: Path)
    requires LayoutOk(l) && forall n :: n in names <==> path + [n] in l.orig
    requires q in Found(l, path, dirs) && q != path
    ensures q in Part(l, path, names, dirs)
  {
    assert q[..|path|] == path;
    PrefixThere(l, q, |path| + 1);
    assert q[..|path| + 1] == path + [q[|path|]];
  }

  lemma AllParts(l: Layout, path: Path, names: seq<string>, dirs: bool)
    requires LayoutOk(l) && Reached(l, path) && l.orig[path].dev == l.rootDev && l.orig[path].kind.Directory?
    requires forall n :: n in names <==> path + [n] in l.orig
    ensures Found(l, path, dirs) == Part(l, path, names, dirs) + (if dirs then {path} else {})
  {
    forall q <- Found(l, path, dirs) | q != path ensures q in Part(l, path, names, dirs) {
      FirstName(l, path, names, dirs, q);
    }
    assert Under(path, path) && path in Found(l, path, true);
  }

  lemma PrefixThere(l: Layout, q: Path, n: nat)
    requires Reached(l, q) && n <= |q|
    ensures q[..n] in l.orig
  {
    if n == |q| {
      assert q[..n] == q;
    }
  }
}
