/** The relocation as a whole: mount, three walks, and what is under the new root afterwards. */
module Relocate {
  import opened Wrappers
  import opened FileTree
  import opened CopyTree
  import opened MoveFiles

  /** The tree below the new root is the original one as far as it lies on the root device; the only
      thing standing for another device is the directory it was mounted on. */
  ghost predicate Complete(t: Nodes, l: Layout) {
    && (forall q {:trigger l.root + q} | q != [] :: l.root + q in t <==> Reached(l, q))
    && [] in l.orig && l.root in t && LikeDir(t[l.root], l.orig[[]]) && t[l.root].dev == l.newDev
    && (forall q {:trigger l.root + q} | Reached(l, q) && q != [] ::
          if l.orig[q].kind.Directory? then LikeDir(t[l.root + q], Seen(l, q))
          else LikeFile(t[l.root + q], l.orig[q]))
  }

  lemma MovedIsComplete(t: Nodes, l: Layout)
    requires LayoutOk(l) && Moving(t, l, Files(l, []))
    ensures Complete(t, l)
  {
    forall q ensures Reached(l, q) <==> q in Dirs(l, []) || q in Files(l, []) {
    }
  }

  /** A mount point of another device is there as an empty directory. */
  lemma ForeignIsEmpty(t: Nodes, l: Layout, m: Path, p: Path)
    requires LayoutOk(l) && Complete(t, l)
    requires Reached(l, m) && l.orig[m].kind.Directory? && l.orig[m].dev != l.rootDev
    ensures l.root + m in t && t[l.root + m].kind.Directory?
    ensures p != [] ==> l.root + m + p !in t
  {
    assert m != [];
    if p != [] {
      var q := m + p;
      assert l.root + m + p == l.root + q;
      assert q[..|m|] == m;
    }
  }

  // ---------- the deletion walk ----------

  ghost predicate SparedBelow(t: Nodes, t': Nodes, m: Path) { forall p | Under(m, p) :: Same(t', t, p) }

  /** A top-level directory of another device. */
  predicate Foreign(t: Nodes, m: Path, rootDev: nat) {
    m in t && |m| == 1 && t[m].kind.Directory? && t[m].dev != rootDev
  }

  /** Everything in top-level directories of other devices is as before. */
  ghost predicate Spared(t: Nodes, t': Nodes, rootDev: nat) {
    forall m | Foreign(t, m, rootDev) :: SparedBelow(t, t', m)
  }

  lemma OneAbove(a: Path, b: Path, p: Path)
    requires |a| == 1 && |b| == 1 && Under(b, p)
    ensures Under(a, p) <==> a == b
  {
    assert p[..1] == b;
  }

  lemma SparesOthers(t: Nodes, t1: Nodes, t2: Nodes, rootDev: nat, child: Path)
    requires Spared(t, t1, rootDev) && RemovedBelow(t1, t2, child) && |child| == 1 && child in t1
    requires !Foreign(t1, child, rootDev)
    ensures Spared(t, t2, rootDev)
  {
    forall m | Foreign(t, m, rootDev) ensures SparedBelow(t, t2, m) {
      assert SparedBelow(t, t1, m);
      assert Under(m, m) && Same(t1, t, m);
      forall p | Under(m, p) ensures Same(t2, t, p) {
        assert Same(t1, t, p);
        OneAbove(child, m, p);
      }
    }
  }

  /** The callback at a top-level name: a directory of another device is skipped, any other directory
      removed as far as possible, and anything else removed or not. */
  ghost predicate Deleted(t: Nodes, t': Nodes, child: Path, rootDev: nat) {
    child in t &&
    if !t[child].kind.Directory? then t' == t || t' == t - {child}
    else if t[child].dev == rootDev then RemovedBelow(t, t', child)
    else t' == t
  }

  /** What the walk may leave after visiting these top-level names. */
  ghost predicate Outcome(t: Nodes, t': Nodes, names: seq<string>, rootDev: nat)
    decreases |names|
  {
    if names == [] then t' == t
    else
      var init, child := names[..|names| - 1], [names[|names| - 1]];
      exists u :: Outcome(t, u, init, rootDev) && Deleted(u, t', child, rootDev)
  }

  ghost predicate TopNames(t: Nodes, names: seq<string>) {
    && (forall n :: n in names <==> [n] in t)
    && forall i, j :: 0 <= i < j < |names| ==> names[i] != names[j]
  }

  lemma OutcomeStep(t: Nodes, u: Nodes, t': Nodes, names: seq<string>, i: nat, rootDev: nat)
    requires i < |names| && Outcome(t, u, names[..i], rootDev) && Deleted(u, t', [names[i]], rootDev)
    ensures Outcome(t, t', names[..i + 1], rootDev)
  {
    assert names[..i + 1][..i] == names[..i];
  }

  /** Of the first names in `names`, only top-level directories of other devices still have something. */
  ghost predicate Emptied(t: Nodes, t': Nodes, names: seq<string>, rootDev: nat) {
    forall p <- t' | p != [] && p[0] in names :: Foreign(t, p[..1], rootDev)
  }

  lemma EmptiedMore(t: Nodes, t1: Nodes, t2: Nodes, names: seq<string>, i: nat, rootDev: nat)
    requires i < |names| && Emptied(t, t1, names[..i], rootDev) && t2.Keys <= t1.Keys
    requires Foreign(t, [names[i]], rootDev) || forall p <- t2 :: !Under([names[i]], p)
    ensures Emptied(t, t2, names[..i + 1], rootDev)
  {
    forall p <- t2 | p != [] && p[0] in names[..i + 1] ensures Foreign(t, p[..1], rootDev) {
      assert p[..1] == [p[0]];
      if p[0] == names[i] {
        assert Under([names[i]], p);
      }
    }
  }

  /** The removals that failed since the history had `n` entries were recorded behind them. */
  ghost predicate Later(failures: set<nat>, before: set<nat>, n: nat) {
    before <= failures && forall i | i in failures && i !in before :: n <= i
  }

  /** After visiting `i` of the names: what has gone, what is spared, what is still to come. */
  ghost predicate Deleting(t: Nodes, u: Nodes, names: seq<string>, i: nat, rootDev: nat) {
    && i <= |names|
    && Outcome(t, u, names[..i], rootDev) && Spared(t, u, rootDev)
    && u.Keys <= t.Keys && (forall p <- u :: u[p] == t[p])
    && (forall j | i <= j < |names| :: [names[j]] in u)
  }

  lemma DeletesNext(t: Nodes, u: Nodes, t': Nodes, names: seq<string>, i: nat, rootDev: nat)
    requires i < |names| && (forall a, b :: 0 <= a < b < |names| ==> names[a] != names[b])
    requires Deleting(t, u, names, i, rootDev) && Deleted(u, t', [names[i]], rootDev)
    ensures Deleting(t, t', names, i + 1, rootDev)
  {
    var child := [names[i]];
    OutcomeStep(t, u, t', names, i, rootDev);
    assert RemovedBelow(u, u, child);
    if Foreign(u, child, rootDev) {
      assert t' == u;
    } else {
      SparesOthers(t, u, t', rootDev, child);
    }
    forall j | i + 1 <= j < |names| ensures [names[j]] in t' {
      assert [names[i]][0] != [names[j]][0];
    }
  }

  /** The callback at one top-level name, after its look-up and the reading of its names. */
  method DeleteTop(fs: FileSystem, names: seq<string>, i: nat, rootDev: nat, ghost t: Nodes) returns (ok: bool)
    requires i < |names| && (forall a, b :: 0 <= a < b < |names| ==> names[a] != names[b])
    requires WellFormed(t) && Deleting(t, fs.nodes, names, i, rootDev) && fs.Valid()
    modifies fs
    ensures (ok <==> fs.faults == old(fs.faults)) && old(fs.faults) <= fs.faults
    ensures if ok then Deleting(t, fs.nodes, names, i + 1, rootDev) else fs.nodes == old(fs.nodes)
    ensures ok && fs.failures == old(fs.failures) && Emptied(t, old(fs.nodes), names[..i], rootDev) ==>
              Emptied(t, fs.nodes, names[..i + 1], rootDev)
    ensures fs.Valid() && old(fs.history) <= fs.history
    ensures Later(fs.failures, old(fs.failures), |old(fs.history)|)
  {
    var child := [names[i]];
    ghost var u := fs.nodes;
    var info;
    ok, info := fs.Lstat(child);
    if ok && info.kind.Directory? {
      var below;
      ok, below := fs.ReadDirNames(child);
    }
    if !ok {
      return;
    }
    if !info.kind.Directory? {
      var _ := fs.Remove(child);
      forall p <- fs.nodes | Under(child, p) ensures p == child {
        NothingUnderFile(t, child, p);
      }
    } else if info.dev == rootDev {
      var _ := fs.RemoveAll(child);
    }
    DeletesNext(t, u, fs.nodes, names, i, rootDev);
    if fs.failures == old(fs.failures) && Emptied(t, u, names[..i], rootDev) {
      EmptiedMore(t, u, fs.nodes, names, i, rootDev);
    }
  }

  lemma NothingElse(t: Nodes, u: Nodes, names: seq<string>, rootDev: nat)
    requires WellFormed(t) && TopNames(t, names) && u.Keys <= t.Keys && Emptied(t, u, names, rootDev)
    ensures forall p <- u | p != [] :: Foreign(t, p[..1], rootDev)
  {
    forall p <- u | p != [] ensures Foreign(t, p[..1], rootDev) {
      TopDirectory(t, p);
      assert p[..1] == [p[0]];
    }
  }

  /** The third walk never leaves the top level: a directory there is removed as a whole, unless it
      is on another device. It succeeds exactly when no look-up fails by itself, whatever the removals
      do; and when all of them work, nothing else is left. */
  method DeleteOld(fs: FileSystem, rootDev: nat) returns (ok: bool)
    requires WellFormed(fs.nodes) && fs.Valid()
    modifies fs
    ensures (ok <==> fs.faults == old(fs.faults)) && old(fs.faults) <= fs.faults
    ensures ok ==> exists names :: TopNames(old(fs.nodes), names) && Outcome(old(fs.nodes), fs.nodes, names, rootDev)
    ensures Spared(old(fs.nodes), fs.nodes, rootDev)
    ensures ok && fs.failures == old(fs.failures) ==>
      forall p <- fs.nodes | p != [] ::
        && p[..1] in old(fs.nodes) && old(fs.nodes)[p[..1]].kind.Directory?
        && old(fs.nodes)[p[..1]].dev != rootDev
    ensures old(fs.history) <= fs.history && Later(fs.failures, old(fs.failures), |old(fs.history)|)
  {
    ghost var t := fs.nodes;
    var info, names;
    ok, info := fs.Lstat([]);
    if !ok {
      return;
    }
    ok, names := fs.ReadDirNames([]);
    if !ok {
      return;
    }
    forall n: string ensures n in names <==> [n] in t {
      assert [] + [n] == [n];
    }
    assert TopNames(t, names);
    ok := DeleteNames(fs, names, rootDev);
    if ok {
      assert exists ns :: TopNames(t, ns) && Outcome(t, fs.nodes, ns, rootDev);
      if fs.failures == old(fs.failures) {
        NothingElse(t, fs.nodes, names, rootDev);
      }
    }
  }

  /** The walk's loop over the top level. */
  method DeleteNames(fs: FileSystem, names: seq<string>, rootDev: nat) returns (ok: bool)
    requires WellFormed(fs.nodes) && fs.Valid() && TopNames(fs.nodes, names)
    modifies fs
    ensures (ok <==> fs.faults == old(fs.faults)) && old(fs.faults) <= fs.faults
    ensures ok ==> Outcome(old(fs.nodes), fs.nodes, names, rootDev) && fs.nodes.Keys <= old(fs.nodes).Keys
    ensures Spared(old(fs.nodes), fs.nodes, rootDev)
    ensures ok && fs.failures == old(fs.failures) ==> Emptied(old(fs.nodes), fs.nodes, names, rootDev)
    ensures old(fs.history) <= fs.history && Later(fs.failures, old(fs.failures), |old(fs.history)|)
  {
    ghost var t := fs.nodes;
    for i := 0 to |names|
      invariant Deleting(t, fs.nodes, names, i, rootDev)
      invariant fs.faults == old(fs.faults) && fs.Valid()
      invariant fs.failures == old(fs.failures) ==> Emptied(t, fs.nodes, names[..i], rootDev)
      invariant old(fs.history) <= fs.history && Later(fs.failures, old(fs.failures), |old(fs.history)|)
    {
      ok := DeleteTop(fs, names, i, rootDev, t);
      if !ok {
        return;
      }
    }
    ok := true;
    assert names[..|names|] == names;
  }

  // ---------- which roots survive ----------

  ghost predicate RootSurvives(t: Nodes, root: Path, rootDev: nat) {
    forall names, t' | TopNames(t, names) && Outcome(t, t', names, rootDev) :: SparedBelow(t, t', root)
  }

  lemma DeletedSpares(t: Nodes, u: Nodes, t': Nodes, child: Path, top: Path, rootDev: nat)
    requires Foreign(t, top, rootDev) && SparedBelow(t, u, top) && Deleted(u, t', child, rootDev) && |child| == 1
    ensures SparedBelow(t, t', top)
  {
    assert Under(top, top) && Same(u, t, top);
    forall p | Under(top, p) ensures Same(t', t, p) {
      assert Same(u, t, p);
      if Under(child, p) {
        OneAbove(top, child, p);
      }
    }
  }

  lemma {:induction false} OutcomeSpares(t: Nodes, t': Nodes, names: seq<string>, top: Path, rootDev: nat)
    requires Foreign(t, top, rootDev) && Outcome(t, t', names, rootDev)
    ensures SparedBelow(t, t', top)
    decreases |names|
  {
    if names != [] {
      var init, n := names[..|names| - 1], names[|names| - 1];
      var u :| Outcome(t, u, init, rootDev) && Deleted(u, t', [n], rootDev);
      OutcomeSpares(t, u, init, top, rootDev);
      DeletedSpares(t, u, t', [n], top, rootDev);
    }
  }

  /** Every top-level node but one may survive. */
  lemma {:induction false} OneMayGo(t: Nodes, names: seq<string>, top: string, rootDev: nat) returns (t': Nodes)
    requires [top] in t && t[[top]].kind.Directory? && t[[top]].dev == rootDev
    requires (forall n <- names :: [n] in t) && forall i, j :: 0 <= i < j < |names| ==> names[i] != names[j]
    ensures Outcome(t, t', names, rootDev)
    ensures if top in names then t' == map p | p in t && !Under([top], p) :: t[p] else t' == t
  {
    t' := t;
    if names != [] {
      var init, n := names[..|names| - 1], names[|names| - 1];
      var u := OneMayGo(t, init, top, rootDev);
      assert n !in init;
      assert [top][0] == top && [n][0] == n;
      if n == top {
        t' := map p | p in t && !Under([top], p) :: t[p];
      } else {
        t' := u;
        assert [n] in u;
      }
      assert Deleted(u, t', [n], rootDev);
    }
  }

  lemma TopNamesExist(t: Nodes) returns (names: seq<string>)
    ensures TopNames(t, names)
  {
    var all := set p | p in t && |p| == 1 :: p[0];
    names := Listing(all);
    forall n ensures n in names <==> [n] in t {
      if n in all {
        var p :| p in t && |p| == 1 && p[0] == n;
        assert p == [n];
      }
      if [n] in t {
        assert [n][0] == n;
      }
    }
  }

  /** Exactly which new roots the deletion walk spares, whatever it manages to remove: those in a
      top-level directory of another device. The program's new root is such a directory itself. */
  lemma RootSurvivesExact(t: Nodes, root: Path, rootDev: nat)
    requires WellFormed(t) && root in t && root != [] && t[root].kind.Directory?
    ensures RootSurvives(t, root, rootDev) <==> Foreign(t, root[..1], rootDev)
  {
    TopDirectory(t, root);
    var top := root[..1];
    assert top == [root[0]];
    if Foreign(t, top, rootDev) {
      forall names, t' | TopNames(t, names) && Outcome(t, t', names, rootDev) ensures SparedBelow(t, t', root) {
        OutcomeSpares(t, t', names, top, rootDev);
      }
    } else {
      var names := TopNamesExist(t);
      var t' := OneMayGo(t, names, root[0], rootDev);
      assert root !in t' && Under(root, root);
      assert !Same(t', t, root);
    }
  }

  /** The top-level name of a path is there, and what stands above anything is a directory. */
  lemma {:induction false} TopDirectory(t: Nodes, p: Path)
    requires WellFormed(t) && p in t && p != []
    ensures p[..1] in t && (|p| > 1 || t[p].kind.Directory? ==> t[p[..1]].kind.Directory?)
    decreases |p|
  {
    if |p| == 1 {
      assert p[..1] == p;
    } else {
      TopDirectory(t, Parent(p));
      assert Parent(p)[..1] == p[..1];
    }
  }

  // ---------- everything ----------

  /** Mounting an empty file system of a new device hides what was below the mount point. */
  function Mounted(t: Nodes, root: Path, dev: nat): Nodes {
    (map p | p in t && !Under(root, p) :: t[p])[root := Node(Directory, dev, 0, 0x3FF, 0)]
  }

  lemma MountedOk(t: Nodes, root: Path, dev: nat)
    requires WellFormed(t) && |root| == 1 && dev != t[[]].dev
    ensures LayoutOk(Layout(Mounted(t, root, dev), root, t[[]].dev, dev))
  {
    var m := Mounted(t, root, dev);
    forall p <- m | p != [] ensures Parent(p) in m && m[Parent(p)].kind.Directory? {
      if p != root {
        assert Under(root, Parent(p)) ==> Under(root, p);
      }
    }
  }

  lemma GrowingFine(t: Nodes, l: Layout)
    requires LayoutOk(l) && Growing(t, l)
    ensures Fine(t, l, true) && SameSizes(t, l.orig)
  {
    forall p ensures SizeAt(t, p) == SizeAt(l.orig, p) {
      if Under(l.root, p) {
        assert p == l.root + p[|l.root|..];
        assert p in t ==> t[p].kind.Directory?;
      } else {
        assert Same(t, l.orig, p);
      }
    }
    forall p <- Files(l, []) ensures p in t && t[p] == l.orig[p] && !Twice(t, l, p) {
      FilesOutside(l, p);
      assert Same(t, l.orig, p);
    }
  }

  lemma QuietRecorded(fs: FileSystem, from: nat, l: Layout, b: Budget)
    requires LayoutOk(l) && BudgetOk(b, l) && b.total == b.bytes(l.orig) && Quiet(fs, from, l) && fs.failures == {}
    ensures Recorded(fs, from, l, b)
  {
    forall i | from <= i < |fs.history|
      ensures Fine(fs.history[i], l, true) && b.bytes(fs.history[i]) == b.total
    {
      GrowingFine(fs.history[i], l);
    }
  }

  lemma BuiltMoving(t: Nodes, l: Layout)
    requires LayoutOk(l) && Built(t, l, Dirs(l, []))
    ensures Moving(t, l, {})
  {
    assert [] in Dirs(l, []);
    forall p <- l.orig | p != l.root ensures p in t && t[p] == l.orig[p] {
      assert Same(t, l.orig, p);
    }
    forall p | p !in l.orig && !Under(l.root, p) ensures p !in t {
      assert Same(t, l.orig, p);
    }
  }

  lemma BuiltSizes(t: Nodes, l: Layout, done: set<Path>)
    requires LayoutOk(l) && Built(t, l, done)
    ensures SameSizes(t, l.orig)
  {
    assert [] in Dirs(l, []) && l.root + [] == l.root && t[l.root].kind.Directory?;
    MakesOne(t, t, l, done, []);
    GrowingFine(t, l);
  }

  predicate IsDir(t: Nodes, p: Path) { p in t && t[p].kind.Directory? }

  /** The mount and the first walk: nothing but directories appears. */
  method BuildDirs(fs: FileSystem, ghost l: Layout, root: Path, rootDev: nat, dev: nat, ghost depth: nat)
    returns (ok: bool)
    requires LayoutOk(l) && l.root == root && l.rootDev == rootDev && l.orig == Mounted(fs.nodes, root, dev)
    requires Shallow(l.orig, depth)
    modifies fs
    ensures Quiet(fs, |old(fs.history)|, l)
    ensures fs.failures == old(fs.failures) && old(fs.faults) <= fs.faults
    ensures ok ==> Built(fs.nodes, l, Dirs(l, []))
    ensures ok <==> fs.faults == old(fs.faults) && IsDir(old(fs.nodes), root)
  {
    ghost var from := |fs.history|;
    ok := IsDir(fs.nodes, root);
    if ok {
      ok := fs.Attempt();
    }
    if !ok {
      return;
    }
    fs.Commit(Mounted(fs.nodes, root, dev));
    NothingThere(l);
    assert Built(fs.nodes, l, {});
    assert Reached(l, []) && Seen(l, []) == l.orig[[]] == fs.nodes[[]];
    var info;
    ok, info := fs.Lstat([]);
    if !ok {
      return;
    }
    var verdict := WalkDirs(fs, l, root, rootDev, [], info, {}, depth, from);
    assert {} + Dirs(l, []) == Dirs(l, []);
    ok := !verdict.Fail?;
  }

  lemma NothingThere(l: Layout)
    requires LayoutOk(l)
    ensures forall q | q != [] :: l.root + q !in l.orig
  {
    forall q | q != [] ensures l.root + q !in l.orig {
      RootPaths(l.root, q);
    }
  }

  /** No removal failed before `n` states were recorded. */
  ghost predicate NoneBefore(failures: set<nat>, n: nat) { forall i <- failures :: n <= i }

  lemma LaterFailures(failures: set<nat>, before: set<nat>, n: nat)
    requires Later(failures, before, n) && forall i <- before :: i < n
    ensures before == {} <==> NoneBefore(failures, n)
  {
    if i :| i in before {
      assert i in failures && i < n;
    }
  }

  /** Below top-level directories of other devices only: all that is left when the old tree has gone. */
  ghost predicate OldTreeGone(t: Nodes, l: Layout) {
    forall p <- t | p != [] ::
      p[..1] in l.orig && l.orig[p[..1]].kind.Directory? && l.orig[p[..1]].dev != l.rootDev
  }

  /** What the file walk leaves, seen from the top level. */
  ghost predicate SameTops(t: Nodes, l: Layout) {
    forall p <- t | |p| == 1 && t[p].kind.Directory? && t[p].dev != l.rootDev ::
      p in l.orig && l.orig[p].kind.Directory? && l.orig[p].dev != l.rootDev
  }

  /** The mount and the three walks. Until the deletion walk begins, after
      `copied` recorded states, no file is ever lost; if every removal until then succeeds, only one file
      at a time exists twice and the extra space never exceeds the largest file. The walks succeed exactly
      when there is a directory to mount on, no call but a removal fails by itself, and nothing on the root
      device is a socket or of unknown type. Then the tree below the new root is complete: the deletion
      walk has left it in place, and has removed everything else on the root device if no removal failed
      after that point. */
  method MoveTree(fs: FileSystem, root: Path, dev: nat, ghost depth: nat, ghost biggest: nat)
    returns (ok: bool, ghost l: Layout, ghost copied: nat, ghost removedAll: bool)
    requires WellFormed(fs.nodes) && |root| == 1 && dev != fs.nodes[[]].dev
    requires fs.failures == {}
    requires Shallow(Mounted(fs.nodes, root, dev), depth)
    requires var m := Mounted(fs.nodes, root, dev); forall p <- m :: Size(m[p]) <= biggest
    modifies fs
    ensures l == Layout(Mounted(old(fs.nodes), root, dev), root, old(fs.nodes)[[]].dev, dev)
    ensures |old(fs.history)| <= copied <= |fs.history|
    ensures removedAll <==> NoneBefore(fs.failures, copied)
    ensures forall i :: |old(fs.history)| <= i < copied ==> Fine(fs.history[i], l, removedAll)
    ensures removedAll ==>
      forall i :: |old(fs.history)| <= i < copied ==> Bytes(fs.history[i]) <= Bytes(l.orig) + biggest
    ensures ok <==>
      && root in old(fs.nodes) && old(fs.nodes)[root].kind.Directory? && fs.faults == old(fs.faults)
      && forall q | Reached(l, q) :: !l.orig[q].kind.Socket? && !l.orig[q].kind.Unknown?
    ensures ok ==> Complete(fs.nodes, l)
    ensures ok && (forall i <- fs.failures :: i < copied) ==> OldTreeGone(fs.nodes, l)
    ensures old(fs.faults) <= fs.faults
  {
    l := Layout(Mounted(fs.nodes, root, dev), root, fs.nodes[[]].dev, dev);
    copied, removedAll := |fs.history|, true;
    MountedOk(fs.nodes, root, dev);
    BytesAdd();
    ghost var b := Budget(Bytes, Bytes(l.orig), biggest);
    var info;
    ok, info := fs.Lstat([]);
    if !ok {
      return;
    }
    ok := CopyAll(fs, l, root, info.dev, dev, depth, b);
    ReachedFiles(l);
    copied, removedAll := |fs.history|, fs.failures == {};
    LaterFailures(fs.failures, fs.failures, copied);
    if !ok {
      return;
    }
    ok := fs.Attempt();
    if !ok {
      return;
    }
    ghost var t, h, f := fs.nodes, fs.history, fs.failures;
    ok := DeleteOld(fs, info.dev);
    StillComplete(t, fs.nodes, l);
    assert forall i :: 0 <= i < copied ==> fs.history[i] == h[i];
    LaterFailures(fs.failures, f, copied);
    if ok && forall i <- fs.failures :: i < copied {
      assert fs.failures == f;
      LeftBelowTops(t, fs.nodes, l);
    }
  }

  lemma LeftBelowTops(t: Nodes, t': Nodes, l: Layout)
    requires SameTops(t, l)
    requires forall p <- t' | p != [] :: p[..1] in t && t[p[..1]].kind.Directory? && t[p[..1]].dev != l.rootDev
    ensures OldTreeGone(t', l)
  {
    forall p <- t' | p != []
      ensures p[..1] in l.orig && l.orig[p[..1]].kind.Directory? && l.orig[p[..1]].dev != l.rootDev
    {
      assert |p[..1]| == 1 && p[..1] in t;
    }
  }

  lemma ReachedFiles(l: Layout)
    ensures AllSupported(l, Files(l, [])) <==>
            forall q | Reached(l, q) :: !l.orig[q].kind.Socket? && !l.orig[q].kind.Unknown?
  {
    forall q | Reached(l, q) ensures q in Files(l, []) || l.orig[q].kind.Directory? {
    }
  }

  /** What a process sees once the new root has become its root. */
  function Rerooted(t: Nodes, root: Path): Nodes {
    OnePath(root);
    map p | p in t && Under(root, p) :: p[|root|..] := t[p]
  }

  lemma OnePath(root: Path)
    ensures forall p, q | Under(root, p) && Under(root, q) && p[|root|..] == q[|root|..] :: p == q
  {
    forall p, q | Under(root, p) && Under(root, q) && p[|root|..] == q[|root|..] ensures p == q {
      assert p == root + p[|root|..] && q == root + q[|root|..];
    }
  }

  lemma RerootedAt(t: Nodes, root: Path, q: Path)
    ensures q in Rerooted(t, root) <==> root + q in t
    ensures root + q in t ==> Rerooted(t, root)[q] == t[root + q]
  {
    RootPaths(root, q);
    OnePath(root);
    if root + q in t {
      assert (root + q)[|root|..] in Rerooted(t, root);
    }
    if q in Rerooted(t, root) {
      var p :| p in t && Under(root, p) && p[|root|..] == q;
      assert p == root + q;
    }
  }

  /** The original tree, as far as it lies on the root device, at the same paths as before: what has only
      directories of that device above it is there, and nothing else. Files keep their bytes and links
      their text; owners and modes stay, except that a link's mode is its own, and the times of everything
      but directories do. The mount point has taken the owner and mode of the root. */
  ghost predicate Relocated(t: Nodes, l: Layout) {
    && (forall q :: q in t <==>
          q in l.orig && forall n | 0 <= n < |q| :: q[..n] in l.orig && l.orig[q[..n]].dev == l.rootDev)
    && [] in t && t[[]].dev == l.newDev
    && (forall q <- t | q in l.orig && [] in l.orig ::
          var like := if q == l.root then l.orig[[]] else l.orig[q];
          match l.orig[q].kind
          case Directory => t[q].kind.Directory? && t[q].owner == like.owner && t[q].mode == like.mode
          case Regular(bytes) =>
            && t[q].kind == Regular(bytes) && t[q].owner == like.owner
            && t[q].mode == like.mode && t[q].times == like.times
          case Symlink(target) =>
            t[q].kind == Symlink(target) && t[q].owner == like.owner && t[q].times == like.times
          case _ => t[q].owner == like.owner && t[q].mode == like.mode && t[q].times == like.times)
  }

  lemma CompleteIsRelocated(t: Nodes, l: Layout)
    requires LayoutOk(l) && Complete(t, l)
    ensures Relocated(Rerooted(t, l.root), l)
  {
    var u := Rerooted(t, l.root);
    assert l.root + [] == l.root && Reached(l, []);
    forall q ensures q in u <==> Reached(l, q) {
      RerootedAt(t, l.root, q);
    }
    forall q | Reached(l, q) ensures u[q] == t[l.root + q] {
      RerootedAt(t, l.root, q);
    }
  }

  /** copyFS: the walks, then the mount is moved to the root and becomes the root. It succeeds exactly
      when no call but a removal fails by itself and nothing to be relocated is a socket or of unknown
      type; and then the original tree of the root device is where it was, on the new device. */
  method CopyFS(fs: FileSystem, root: Path, dev: nat, ghost depth: nat, ghost biggest: nat)
    returns (ok: bool, ghost l: Layout, ghost copied: nat, ghost removedAll: bool)
    requires WellFormed(fs.nodes) && |root| == 1 && dev != fs.nodes[[]].dev
    requires fs.failures == {}
    requires Shallow(Mounted(fs.nodes, root, dev), depth)
    requires var m := Mounted(fs.nodes, root, dev); forall p <- m :: Size(m[p]) <= biggest
    modifies fs
    ensures l == Layout(Mounted(old(fs.nodes), root, dev), root, old(fs.nodes)[[]].dev, dev)
    ensures |old(fs.history)| <= copied <= |fs.history|
    ensures removedAll <==> NoneBefore(fs.failures, copied)
    ensures forall i :: |old(fs.history)| <= i < copied ==> Fine(fs.history[i], l, removedAll)
    ensures removedAll ==>
      forall i :: |old(fs.history)| <= i < copied ==> Bytes(fs.history[i]) <= Bytes(l.orig) + biggest
    ensures ok <==>
      && root in old(fs.nodes) && old(fs.nodes)[root].kind.Directory? && fs.faults == old(fs.faults)
      && forall q | Reached(l, q) :: !l.orig[q].kind.Socket? && !l.orig[q].kind.Unknown?
    ensures ok ==> Relocated(fs.nodes, l)
  {
    MountedOk(fs.nodes, root, dev);
    ok, l, copied, removedAll := MoveTree(fs, root, dev, depth, biggest);
    if !ok {
      return;
    }
    ghost var t, h := fs.nodes, fs.history;
    ok := EnterRoot(fs, root);
    assert forall i :: 0 <= i < copied ==> fs.history[i] == h[i];
    CompleteIsRelocated(t, l);
  }

  /** The mount is moved to the root, becomes the root of the process, and its working directory. */
  method EnterRoot(fs: FileSystem, root: Path) returns (ok: bool)
    modifies fs
    ensures ok ==> fs.nodes == Rerooted(old(fs.nodes), root)
    ensures (ok <==> fs.faults == old(fs.faults)) && old(fs.faults) <= fs.faults
    ensures old(fs.history) <= fs.history && fs.failures == old(fs.failures)
  {
    ok := fs.Attempt();
    if ok {
      ok := fs.Attempt();
    }
    if ok {
      fs.Commit(Rerooted(fs.nodes, root));
      ok := fs.Attempt();
    }
  }

  /** The first two walks. */
  method CopyAll(fs: FileSystem, ghost l: Layout, root: Path, rootDev: nat, dev: nat, ghost depth: nat, ghost b: Budget)
    returns (ok: bool)
    requires LayoutOk(l) && l.root == root && |root| == 1 && l.rootDev == rootDev
    requires l.orig == Mounted(fs.nodes, root, dev)
    requires Shallow(l.orig, depth) && BudgetOk(b, l) && b.total == b.bytes(l.orig) && fs.failures == {}
    modifies fs
    ensures Recorded(fs, |old(fs.history)|, l, b)
    ensures ok ==> Complete(fs.nodes, l) && (fs.failures == {} ==> b.bytes(fs.nodes) == b.total)
    ensures ok ==> WellFormed(fs.nodes) && SameTops(fs.nodes, l)
    ensures ok <==> fs.faults == old(fs.faults) && IsDir(old(fs.nodes), root) && AllSupported(l, Files(l, []))
    ensures old(fs.faults) <= fs.faults
  {
    ghost var from := |fs.history|;
    ok := BuildDirs(fs, l, root, rootDev, dev, depth);
    QuietRecorded(fs, from, l, b);
    if !ok {
      return;
    }
    BuiltMoving(fs.nodes, l);
    BuiltSizes(fs.nodes, l, Dirs(l, []));
    assert fs.faults == old(fs.faults) && IsDir(old(fs.nodes), root);
    ok := MoveAll(fs, l, root, rootDev, depth, from, b);
  }

  /** The second walk. */
  method MoveAll(fs: FileSystem, ghost l: Layout, root: Path, rootDev: nat, ghost depth: nat, ghost from: nat,
                 ghost b: Budget)
    returns (ok: bool)
    requires LayoutOk(l) && l.root == root && |root| == 1 && l.rootDev == rootDev
    requires Shallow(l.orig, depth) && BudgetOk(b, l) && Between(fs, from, l, {}, b)
    modifies fs
    ensures Recorded(fs, from, l, b)
    ensures ok ==> Complete(fs.nodes, l) && (fs.failures == {} ==> b.bytes(fs.nodes) == b.total)
    ensures ok ==> WellFormed(fs.nodes) && SameTops(fs.nodes, l)
    ensures ok <==> fs.faults == old(fs.faults) && AllSupported(l, Files(l, []))
    ensures old(fs.faults) <= fs.faults
  {
    assert Reached(l, []) && Seen(l, []) == l.orig[[]];
    ChildThere(l, [], fs.nodes, {});
    var info;
    ok, info := fs.Lstat([]);
    if !ok {
      return;
    }
    ok := WalkFiles(fs, l, root, rootDev, [], info, {}, depth, from, b);
    if ok {
      assert {} + Files(l, []) == Files(l, []);
      MovedIsComplete(fs.nodes, l);
      MovedWellFormed(fs.nodes, l);
    }
  }

  /** What stands above a reached path is a reached directory. */
  lemma AboveReached(l: Layout, q: Path)
    requires LayoutOk(l) && Reached(l, q) && q != []
    ensures Parent(q) in Dirs(l, [])
  {
    var above := Parent(q);
    assert above == q[..|q| - 1];
    assert forall n | 0 <= n < |above| :: above[..n] == q[..n];
  }

  lemma MovedWellFormed(t: Nodes, l: Layout)
    requires LayoutOk(l) && |l.root| == 1 && Moving(t, l, Files(l, []))
    ensures WellFormed(t) && SameTops(t, l)
  {
    forall p <- t | |p| == 1 && t[p].kind.Directory? && t[p].dev != l.rootDev
      ensures p in l.orig && l.orig[p].kind.Directory? && l.orig[p].dev != l.rootDev
    {
      if Under(l.root, p) {
        assert p == l.root;
      } else {
        assert p in l.orig && t[p] == l.orig[p];
      }
    }
    forall p <- t | p != [] ensures Parent(p) in t && t[Parent(p)].kind.Directory? {
      if p == l.root {
        assert Parent(p) == [];
      } else if Under(l.root, p) {
        var q := p[|l.root|..];
        assert p == l.root + q && Parent(p) == l.root + Parent(q);
        AboveReached(l, q);
        if Parent(q) == [] {
          assert Parent(p) == l.root;
        }
      } else {
        assert Parent(p) in l.orig && !Under(l.root, Parent(p));
      }
    }
  }

  /** The new root is a top-level directory of another device, so what is in it stays. */
  lemma StillComplete(t: Nodes, t': Nodes, l: Layout)
    requires LayoutOk(l) && |l.root| == 1 && Complete(t, l) && Spared(t, t', l.rootDev)
    requires t[l.root].dev == l.newDev
    ensures Complete(t', l)
  {
    assert Foreign(t, l.root, l.rootDev);
    forall q ensures Same(t', t, l.root + q) {
      RootPaths(l.root, q);
      assert SparedBelow(t, t', l.root);
    }
    assert l.root + [] == l.root;
  }
}
