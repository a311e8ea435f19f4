/** The second walk: files are moved one at a time into the directories that the first walk made. */
module MoveFiles {
  import opened FileTree
  import opened CopyTree

  ghost function Files(l: Layout, path: Path): set<Path> { Found(l, path, false) }

  /** Regular files and links are reproduced; of anything else, some node with its metadata is there. */
  predicate LikeFile(n: Node, info: Node) {
    && n.owner == info.owner && n.times == info.times && (!info.kind.Symlink? ==> n.mode == info.mode)
    && (info.kind.Regular? || info.kind.Symlink? ==> n.kind == info.kind)
  }

  /** Between two files: those in `moved` are complete below the new root, all the others are intact
      at their old place, and nothing else has changed. */
  ghost predicate Moving(t: Nodes, l: Layout, moved: set<Path>) {
    && [] in l.orig && l.root in t && l.root in l.orig && moved <= Files(l, [])
    && (forall p | p !in l.orig && !Under(l.root, p) :: p !in t)
    && (forall p <- l.orig | p != l.root ::
          if p in t then t[p] == l.orig[p] else p in moved && l.orig[p].kind.Regular?)
    && t[l.root] == WithMeta(l.orig[l.root], l.orig[[]])
    && [] !in moved
    && (forall q {:trigger l.root + q} | q != [] :: l.root + q in t <==> q in Dirs(l, []) || q in moved)
    && (forall q {:trigger l.root + q} | q in Dirs(l, []) && q != [] :: LikeDir(t[l.root + q], Seen(l, q)))
    && (forall q {:trigger l.root + q} | q in moved :: LikeFile(t[l.root + q], l.orig[q]))
  }

  /** No loss: every regular file is intact at its old path or complete at its new one. */
  ghost predicate NoLoss(t: Nodes, l: Layout) {
    forall p {:trigger p in Files(l, [])} | p in Files(l, []) && l.orig[p].kind.Regular? ::
      || (p in t && t[p] == l.orig[p])
      || (l.root + p in t && t[l.root + p].kind == l.orig[p].kind)
  }

  predicate Twice(t: Nodes, l: Layout, p: Path) { p in t && l.root + p in t }

  /** At most one regular file takes up space in both trees. */
  ghost predicate OneTwice(t: Nodes, l: Layout) {
    forall p, q | p in Files(l, []) && q in Files(l, []) && l.orig[p].kind.Regular? && l.orig[q].kind.Regular?
      && Twice(t, l, p) && Twice(t, l, q) :: p == q
  }

  /** While one file is being copied, the rest is as between two files. */
  ghost predicate InFlight(t: Nodes, l: Layout, moved: set<Path>, p: Path) {
    && p in Files(l, []) && p !in moved && p in t && l.root + p in t
    && Moving(t - {l.root + p}, l, moved)
  }

  /** Once its data is there, only its metadata is missing. */
  ghost predicate Landed(t: Nodes, l: Layout, moved: set<Path>, p: Path) {
    && p in Files(l, []) && l.root + p in t
    && Moving(t[l.root + p := WithMeta(t[l.root + p], l.orig[p])], l, moved + {p})
  }

  /** No moved file is still at its old place. */
  ghost predicate Gone(t: Nodes, l: Layout, moved: set<Path>) {
    forall p <- moved | p in t && p in l.orig :: !l.orig[p].kind.Regular?
  }

  ghost predicate Fine(t: Nodes, l: Layout, strict: bool) { NoLoss(t, l) && (strict ==> OneTwice(t, l)) }

  lemma FilesOutside(l: Layout, p: Path)
    requires LayoutOk(l) && p in Files(l, [])
    ensures p != [] && !Under(l.root, p) && p != l.root
  {
    NotInside(l, p);
  }

  lemma MovingFine(t: Nodes, l: Layout, moved: set<Path>, strict: bool)
    requires LayoutOk(l) && Moving(t, l, moved) && (strict ==> Gone(t, l, moved))
    ensures Fine(t, l, strict)
  {
    forall p <- Files(l, []) | l.orig[p].kind.Regular?
      ensures (p in t && t[p] == l.orig[p]) || (l.root + p in t && t[l.root + p].kind == l.orig[p].kind)
      ensures strict ==> !Twice(t, l, p)
    {
      FilesOutside(l, p);
    }
  }

  lemma InFlightFine(t: Nodes, l: Layout, moved: set<Path>, p: Path, strict: bool)
    requires LayoutOk(l) && InFlight(t, l, moved, p) && (strict ==> Gone(t, l, moved))
    ensures Fine(t, l, strict)
  {
    var base := t - {l.root + p};
    RootPaths(l.root, p);
    FilesOutside(l, p);
    forall q <- Files(l, []) | l.orig[q].kind.Regular?
      ensures (q in t && t[q] == l.orig[q]) || (l.root + q in t && t[l.root + q].kind == l.orig[q].kind)
      ensures strict && q != p ==> !Twice(t, l, q)
    {
      FilesOutside(l, q);
      RootPaths(l.root, q);
      assert l.root + q == l.root + p ==> q == p;
      assert q != l.root + p;
      assert q in base <==> q in t;
    }
  }

  lemma LandedFine(t: Nodes, l: Layout, moved: set<Path>, p: Path, strict: bool)
    requires LayoutOk(l) && Landed(t, l, moved, p)
    requires strict ==> Gone(t, l, moved) && p !in t
    ensures Fine(t, l, strict)
  {
    var u := t[l.root + p := WithMeta(t[l.root + p], l.orig[p])];
    MovingFine(u, l, moved + {p}, strict);
    RootPaths(l.root, p);
    forall q <- Files(l, []) | l.orig[q].kind.Regular?
      ensures (q in t && t[q] == l.orig[q]) || (l.root + q in t && t[l.root + q].kind == l.orig[q].kind)
      ensures strict ==> !Twice(t, l, q)
    {
      FilesOutside(l, q);
      assert q != l.root + p;
    }
  }

  /** How many bytes a tree holds, how many it held at the start, and what no file exceeds. */
  datatype Budget = Budget(bytes: Nodes -> nat, total: nat, biggest: nat)

  function Put(t: Nodes, p: Path, n: Node): Nodes { t[p := n] }

  function Drop(t: Nodes, p: Path): Nodes { t - {p} }

  /** Each node counts with its size, and nothing else counts. */
  ghost predicate Additive(bytes: Nodes -> nat) {
    && (forall t, p, n {:trigger Put(t, p, n)} :: bytes(Put(t, p, n)) == bytes(t) - SizeAt(t, p) + Size(n))
    && (forall t, p {:trigger Drop(t, p)} :: bytes(Drop(t, p)) == bytes(t) - SizeAt(t, p))
    && (forall t, u {:trigger SameSizes(t, u)} :: SameSizes(t, u) ==> bytes(t) == bytes(u))
  }

  lemma BytesAdd()
    ensures Additive(Bytes)
  {
    forall t, p, n ensures Bytes(Put(t, p, n)) == Bytes(t) - SizeAt(t, p) + Size(n) {
      BytesPut(t, p, n);
    }
    forall t, p ensures Bytes(Drop(t, p)) == Bytes(t) - SizeAt(t, p) {
      DropOne(t, p);
    }
    forall t, u ensures SameSizes(t, u) ==> Bytes(t) == Bytes(u) {
      if SameSizes(t, u) {
        SameBytes(t, u);
      }
    }
  }

  ghost predicate BudgetOk(b: Budget, l: Layout) {
    Additive(b.bytes) && forall p <- l.orig :: Size(l.orig[p]) <= b.biggest
  }

  lemma CountPut(b: Budget, t: Nodes, p: Path, n: Node)
    requires Additive(b.bytes)
    ensures b.bytes(t[p := n]) == b.bytes(t) - SizeAt(t, p) + Size(n)
  {
    assert Put(t, p, n) == t[p := n];
  }

  lemma CountDrop(b: Budget, t: Nodes, p: Path)
    requires Additive(b.bytes) && p in t
    ensures b.bytes(t - {p}) == b.bytes(t) - Size(t[p])
  {
    assert Drop(t, p) == t - {p};
  }

  lemma CountMeta(b: Budget, t: Nodes, t0: Nodes, path: Path)
    requires Additive(b.bytes) && OnlyMeta(t, t0, path)
    ensures b.bytes(t) == b.bytes(t0)
  {
    MetaSizes(t, t0, path);
  }

  /** Every state recorded since the walk began keeps the promises; the ones about space hold as long
      as every removal succeeds. */
  ghost predicate Recorded(fs: FileSystem, from: nat, l: Layout, b: Budget)
    reads fs`history, fs`failures
  {
    AllFine(fs.history, fs.failures, from, l, b)
  }

  ghost predicate AllFine(h: seq<Nodes>, failures: set<nat>, from: nat, l: Layout, b: Budget) {
    && from <= |h| && (forall i <- failures :: i < |h|)
    && (forall i :: from <= i < |h| ==> Fine(h[i], l, failures == {}))
    && (failures == {} ==> forall i :: from <= i < |h| ==> b.bytes(h[i]) <= b.total + b.biggest)
  }

  /** One more state, reached by a call that succeeded or by a removal that may have failed. */
  lemma OneMoreFine(h: seq<Nodes>, failures: set<nat>, from: nat, l: Layout, b: Budget, t: Nodes, ok: bool)
    requires AllFine(h, failures, from, l, b)
    requires var f := failures + (if ok then {} else {|h|});
      Fine(t, l, f == {}) && (f == {} ==> b.bytes(t) <= b.total + b.biggest)
    ensures AllFine(h + [t], failures + (if ok then {} else {|h|}), from, l, b)
  {
    StillFine(h, h + [t], from, l);
  }

  ghost predicate Between(fs: FileSystem, from: nat, l: Layout, moved: set<Path>, b: Budget)
    reads fs`nodes, fs`history, fs`failures
  {
    && Moving(fs.nodes, l, moved) && Recorded(fs, from, l, b)
    && (fs.failures == {} ==> Gone(fs.nodes, l, moved) && b.bytes(fs.nodes) == b.total)
  }

  lemma StartsFlight(t: Nodes, l: Layout, moved: set<Path>, p: Path, n: Node)
    requires LayoutOk(l) && Moving(t, l, moved) && p in Files(l, []) && p !in moved
    ensures l.root + p !in t && p in t && t[p] == l.orig[p]
    ensures InFlight(t[l.root + p := n], l, moved, p)
  {
    FilesOutside(l, p);
    RootPaths(l.root, p);
    assert p !in Dirs(l, []);
    assert t[l.root + p := n] - {l.root + p} == t;
  }

  lemma OnePlace(root: Path, p: Path)
    ensures forall q :: root + q == root + p <==> q == p
  {
    forall q ensures root + q == root + p <==> q == p {
      assert (root + q)[|root|..] == q && (root + p)[|root|..] == p;
    }
  }

  lemma MovingAdd(t: Nodes, l: Layout, moved: set<Path>, p: Path, n: Node)
    requires LayoutOk(l) && Moving(t, l, moved) && p in Files(l, []) && LikeFile(n, l.orig[p])
    ensures Moving(t[l.root + p := n], l, moved + {p})
  {
    FilesOutside(l, p);
    RootPaths(l.root, p);
    OnePlace(l.root, p);
    assert p !in Dirs(l, []);
  }

  lemma MovingDrop(t: Nodes, l: Layout, moved: set<Path>, p: Path)
    requires LayoutOk(l) && Moving(t, l, moved) && p in moved && l.orig[p].kind.Regular?
    ensures Moving(t - {p}, l, moved)
  {
    FilesOutside(l, p);
    forall q ensures l.root + q != p {
      RootPaths(l.root, q);
    }
  }

  lemma MovingSwap(t: Nodes, t': Nodes, l: Layout, moved: set<Path>, p: Path)
    requires LayoutOk(l) && Moving(t, l, moved) && p in moved && l.root + p in t && l.root + p in t'
    requires t' == t[l.root + p := t'[l.root + p]] && LikeFile(t'[l.root + p], l.orig[p])
    ensures Moving(t', l, moved)
  {
    MovingAdd(t, l, moved, p, t'[l.root + p]);
    assert moved + {p} == moved;
  }

  lemma Lands(t: Nodes, l: Layout, moved: set<Path>, p: Path, n: Node)
    requires LayoutOk(l) && Moving(t, l, moved) && p in Files(l, []) && p !in moved
    requires l.orig[p].kind.Regular? || l.orig[p].kind.Symlink? ==> n.kind == l.orig[p].kind
    ensures Landed(t[l.root + p := n], l, moved, p)
    ensures l.orig[p].kind.Regular? ==> Landed(t[l.root + p := n] - {p}, l, moved, p)
  {
    FilesOutside(l, p);
    RootPaths(l.root, p);
    var m := WithMeta(n, l.orig[p]);
    var u := t[l.root + p := n];
    MovingAdd(t, l, moved, p, m);
    assert u[l.root + p := m] == t[l.root + p := m];
    if l.orig[p].kind.Regular? {
      MovingDrop(t[l.root + p := m], l, moved + {p}, p);
      assert (u - {p})[l.root + p := m] == t[l.root + p := m] - {p};
    }
  }

  lemma MetaLands(t: Nodes, t': Nodes, l: Layout, moved: set<Path>, p: Path)
    requires LayoutOk(l) && Landed(t, l, moved, p) && OnlyMeta(t', t, l.root + p)
    ensures Landed(t', l, moved, p) && (p in t' <==> p in t)
  {
    var at := l.root + p;
    var u, u' := t[at := WithMeta(t[at], l.orig[p])], t'[at := WithMeta(t'[at], l.orig[p])];
    OnePlace(l.root, p);
    assert LikeFile(u[at], l.orig[p]);
    assert u' == u[at := u'[at]];
    MovingSwap(u, u', l, moved + {p}, p);
  }

  // What a file copy works on: where to, the node created there, and the bytes to write.
  datatype Job = Job(path: Path, dest: Path, start: Node, bytes: string)

  /** What stays the same while the file is copied: the tree as it was before. */
  ghost predicate JobOk(j: Job, l: Layout, moved: set<Path>, b: Budget, base: Nodes, strict: bool) {
    && LayoutOk(l) && Additive(b.bytes) && j.dest == l.root + j.path && j.dest !in base
    && |j.bytes| <= b.biggest && Moving(base, l, moved) && j.path in Files(l, []) && j.path !in moved
    && (strict ==> Gone(base, l, moved) && b.bytes(base) == b.total)
  }

  /** A file of which `n` bytes have arrived. */
  ghost predicate Copying(fs: FileSystem, from: nat, l: Layout, j: Job, base: Nodes, b: Budget, n: nat)
    reads fs`nodes, fs`history, fs`failures
  {
    && n <= |j.bytes| && fs.nodes == base[j.dest := j.start.(kind := Regular(j.bytes[..n]))]
    && Recorded(fs, from, l, b)
  }

  lemma ChunkFine(h: seq<Nodes>, failures: set<nat>, from: nat, l: Layout, j: Job, moved: set<Path>, b: Budget,
                  base: Nodes, next: Node)
    requires JobOk(j, l, moved, b, base, failures == {}) && AllFine(h, failures, from, l, b)
    requires Size(next) <= |j.bytes|
    ensures AllFine(h + [base[j.dest := next]], failures, from, l, b)
  {
    CreatedFine(base, l, moved, j.path, next, failures == {});
    CountPut(b, base, j.dest, next);
    OneMoreFine(h, failures, from, l, b, base[j.dest := next], true);
    assert failures + {} == failures;
  }

  /** One read and one write of up to the buffer's size; either may fail. */
  method CopyChunk(fs: FileSystem, j: Job, n: nat, ghost l: Layout, ghost moved: set<Path>, ghost from: nat,
                   ghost b: Budget, ghost base: Nodes)
    returns (k: nat)
    requires JobOk(j, l, moved, b, base, fs.failures == {})
    requires n < |j.bytes| && Copying(fs, from, l, j, base, b, n)
    modifies fs
    ensures n + k <= |j.bytes| && Copying(fs, from, l, j, base, b, n + k) && fs.failures == old(fs.failures)
    ensures (k > 0 <==> fs.faults == old(fs.faults)) && old(fs.faults) <= fs.faults
  {
    var works := fs.Attempt();
    if !works {
      return 0;
    }
    k :| 0 < k <= 32768 && n + k <= |j.bytes|;
    var next := j.start.(kind := Regular(j.bytes[..n + k]));
    assert fs.nodes[j.dest := next] == base[j.dest := next];
    ChunkFine(fs.history, fs.failures, from, l, j, moved, b, base, next);
    fs.Commit(fs.nodes[j.dest := next]);
  }

  /** io.CopyBuffer: some bytes at a time, until a read finds the end or a call fails. */
  method CopyBytes(fs: FileSystem, j: Job, ghost l: Layout, ghost moved: set<Path>, ghost from: nat, ghost b: Budget,
                   ghost base: Nodes)
    returns (ok: bool)
    requires JobOk(j, l, moved, b, base, fs.failures == {}) && Copying(fs, from, l, j, base, b, 0)
    modifies fs
    ensures fs.failures == old(fs.failures) && Recorded(fs, from, l, b)
    ensures ok ==> Copying(fs, from, l, j, base, b, |j.bytes|)
    ensures (ok <==> fs.faults == old(fs.faults)) && old(fs.faults) <= fs.faults
  {
    var copied, k := 0, 1;
    while copied < |j.bytes| && k > 0
      invariant copied <= |j.bytes| && Copying(fs, from, l, j, base, b, copied)
      invariant fs.failures == old(fs.failures)
      invariant (k > 0 <==> fs.faults == old(fs.faults)) && old(fs.faults) <= fs.faults
      decreases |j.bytes| - copied, k
    {
      k := CopyChunk(fs, j, copied, l, moved, from, b, base);
      copied := copied + k;
    }
    if k == 0 {
      return false;
    }
    ok := fs.Attempt();
  }

  lemma GoneAfter(t: Nodes, t': Nodes, l: Layout, moved: set<Path>, p: Path)
    requires LayoutOk(l) && moved <= Files(l, []) && Gone(t, l, moved)
    requires forall x | !Under(l.root, x) :: x in t' ==> x in t
    ensures Gone(t', l, moved)
  {
    forall q <- moved | q in t' && q in l.orig ensures !l.orig[q].kind.Regular? {
      FilesOutside(l, q);
    }
  }

  lemma CreatedFine(base: Nodes, l: Layout, moved: set<Path>, p: Path, n: Node, strict: bool)
    requires LayoutOk(l) && Moving(base, l, moved) && p in Files(l, []) && p !in moved
    requires strict ==> Gone(base, l, moved)
    ensures var t, dest := base[l.root + p := n], l.root + p;
      && dest !in base && dest != p && p in base && base[p] == l.orig[p] && InFlight(t, l, moved, p)
      && Fine(t, l, strict) && (strict ==> Gone(t, l, moved))
  {
    var t := base[l.root + p := n];
    FilesOutside(l, p);
    RootPaths(l.root, p);
    StartsFlight(base, l, moved, p, n);
    if strict {
      GoneAfter(base, t, l, moved, p);
    }
    InFlightFine(t, l, moved, p, strict);
  }

  /** Whether or not the old file could be removed, the new one has landed. */
  lemma RemovedFine(base: Nodes, t: Nodes, l: Layout, moved: set<Path>, p: Path, n: Node, strict: bool)
    requires LayoutOk(l) && Moving(base, l, moved) && p in Files(l, []) && p !in moved
    requires l.orig[p].kind.Regular? && n.kind == l.orig[p].kind
    requires t == base[l.root + p := n] - {p} || (t == base[l.root + p := n] && !strict)
    requires strict ==> Gone(base, l, moved)
    ensures Landed(t, l, moved, p) && Fine(t, l, strict) && (strict ==> Gone(t, l, moved) && p !in t)
  {
    Lands(base, l, moved, p, n);
    if strict {
      RootPaths(l.root, p);
      GoneAfter(base, t, l, moved, p);
    }
    LandedFine(t, l, moved, p, strict);
  }

  /** The directory that a file is moved into has been made. */
  lemma RoomToMake(t: Nodes, l: Layout, moved: set<Path>, p: Path)
    requires LayoutOk(l) && Moving(t, l, moved) && p in Files(l, []) && p !in moved
    ensures CanMake(t, l.root + p)
  {
    FilesOutside(l, p);
    var above := Parent(p);
    assert Parent(l.root + p) == l.root + above && above == p[..|p| - 1];
    assert forall n | 0 <= n < |above| :: above[..n] == p[..n];
    assert above in Dirs(l, []);
    if above == [] {
      assert l.root + above == l.root;
    }
  }

  /** A regular file: create, copy, close, remove the old one as well as possible, copy metadata. */
  method MoveRegular(fs: FileSystem, root: Path, path: Path, info: Node, ghost l: Layout, ghost moved: set<Path>,
                     ghost from: nat, ghost b: Budget)
    returns (ok: bool)
    requires LayoutOk(l) && BudgetOk(b, l) && root == l.root && Between(fs, from, l, moved, b)
    requires path in Files(l, []) && path !in moved && info == l.orig[path] && info.kind.Regular?
    modifies fs
    ensures Recorded(fs, from, l, b)
    ensures ok ==> Between(fs, from, l, moved + {path}, b)
    ensures (ok <==> fs.faults == old(fs.faults)) && old(fs.faults) <= fs.faults
  {
    var dest := root + path;
    ghost var base := fs.nodes;
    FilesOutside(l, path);
    RootPaths(l.root, path);
    var empty := Node(Regular(""), fs.nodes[root].dev, 0, info.mode, 0);
    CreatedFine(base, l, moved, path, empty, fs.failures == {});
    RoomToMake(base, l, moved, path);
    CountPut(b, base, dest, empty);
    ok := fs.Create(dest, empty);
    if !ok {
      return;
    }
    ok := FillRegular(fs, path, dest, info, empty, l, moved, from, b, base);
  }

  method FillRegular(fs: FileSystem, path: Path, dest: Path, info: Node, empty: Node, ghost l: Layout,
                     ghost moved: set<Path>, ghost from: nat, ghost b: Budget, ghost base: Nodes)
    returns (ok: bool)
    requires LayoutOk(l) && BudgetOk(b, l) && dest == l.root + path && empty.kind == Regular("")
    requires path in Files(l, []) && path !in moved && info == l.orig[path] && info.kind.Regular?
    requires Moving(base, l, moved) && dest !in base && fs.nodes == base[dest := empty]
    requires path in fs.nodes && fs.nodes[path] == info && Recorded(fs, from, l, b)
    requires fs.failures == {} ==> Gone(base, l, moved) && b.bytes(base) == b.total
    modifies fs
    ensures Recorded(fs, from, l, b)
    ensures ok ==> Between(fs, from, l, moved + {path}, b)
    ensures (ok <==> fs.faults == old(fs.faults)) && old(fs.faults) <= fs.faults
  {
    ok := fs.Attempt();
    if !ok {
      return;
    }
    var j := Job(path, dest, empty, fs.nodes[path].kind.bytes);
    assert Size(info) <= b.biggest;
    ok := CopyBytes(fs, j, l, moved, from, b, base);
    assert j.bytes[..|j.bytes|] == j.bytes;
    if !ok {
      return;
    }
    ok := fs.Attempt();
    if !ok {
      return;
    }
    ok := fs.Attempt();
    if !ok {
      return;
    }
    ok := FinishRegular(fs, path, dest, info, l, moved, from, b, base);
  }

  method FinishRegular(fs: FileSystem, path: Path, dest: Path, info: Node, ghost l: Layout, ghost moved: set<Path>,
                       ghost from: nat, ghost b: Budget, ghost base: Nodes)
    returns (ok: bool)
    requires LayoutOk(l) && BudgetOk(b, l) && dest == l.root + path
    requires path in Files(l, []) && path !in moved && info == l.orig[path] && info.kind.Regular?
    requires Moving(base, l, moved) && dest in fs.nodes && fs.nodes[dest].kind == info.kind
    requires fs.nodes == base[dest := fs.nodes[dest]] && Recorded(fs, from, l, b)
    requires fs.failures == {} ==> Gone(base, l, moved) && b.bytes(base) == b.total
    modifies fs
    ensures Recorded(fs, from, l, b)
    ensures ok ==> Between(fs, from, l, moved + {path}, b)
    ensures (ok <==> fs.faults == old(fs.faults)) && old(fs.faults) <= fs.faults
  {
    CreatedFine(base, l, moved, path, fs.nodes[dest], false);
    ghost var t, h, f := fs.nodes, fs.history, fs.failures;
    CountPut(b, base, dest, t[dest]);
    CountDrop(b, t, path);
    var removed := fs.Remove(path);
    RemovedFine(base, fs.nodes, l, moved, path, t[dest], fs.failures == {});
    OneMoreFine(h, f, from, l, b, fs.nodes, removed);
    ok := FinishMeta(fs, path, dest, info, l, moved, from, b);
  }

  // Weaker promises hold of a history that kept stronger ones.
  lemma StillFine(h: seq<Nodes>, h': seq<Nodes>, from: nat, l: Layout)
    requires h <= h' && from <= |h| && forall i :: from <= i < |h| ==> NoLoss(h[i], l)
    ensures forall i :: from <= i < |h| ==> NoLoss(h'[i], l)
  {
  }

  method FinishMeta(fs: FileSystem, path: Path, dest: Path, info: Node, ghost l: Layout, ghost moved: set<Path>,
                    ghost from: nat, ghost b: Budget)
    returns (ok: bool)
    requires LayoutOk(l) && BudgetOk(b, l) && dest == l.root + path && path in Files(l, []) && info == l.orig[path]
    requires Landed(fs.nodes, l, moved, path) && Recorded(fs, from, l, b)
    requires fs.failures == {} ==>
               Gone(fs.nodes, l, moved) && (info.kind.Regular? ==> path !in fs.nodes) && b.bytes(fs.nodes) == b.total
    modifies fs
    ensures Recorded(fs, from, l, b)
    ensures ok ==> Between(fs, from, l, moved + {path}, b)
    ensures (ok <==> fs.faults == old(fs.faults)) && old(fs.faults) <= fs.faults
  {
    ghost var t, h := fs.nodes, fs.history;
    FilesOutside(l, path);
    ok := fs.CopyMetadata(info, dest);
    forall i | |h| <= i < |fs.history| ensures Fine(fs.history[i], l, fs.failures == {}) {
      MetaLands(t, fs.history[i], l, moved, path);
      MetaFine(t, fs.history[i], l, moved, path, fs.failures == {});
    }
    forall i | |h| <= i < |fs.history| ensures b.bytes(fs.history[i]) == b.bytes(t) {
      CountMeta(b, fs.history[i], t, dest);
    }
    CountMeta(b, fs.nodes, t, dest);
    assert Recorded(fs, from, l, b) by {
      assert forall i :: 0 <= i < |h| ==> fs.history[i] == h[i];
    }
  }

  lemma MetaFine(t: Nodes, t': Nodes, l: Layout, moved: set<Path>, p: Path, strict: bool)
    requires LayoutOk(l) && p in Files(l, []) && Landed(t, l, moved, p) && Landed(t', l, moved, p)
    requires t'.Keys == t.Keys && moved <= Files(l, [])
    requires strict ==> Gone(t, l, moved) && (l.orig[p].kind.Regular? ==> p !in t)
    ensures Fine(t', l, strict)
  {
    if l.orig[p].kind.Regular? {
      LandedFine(t', l, moved, p, strict);
    } else {
      OtherLandedFine(t', l, moved, p, strict);
    }
  }

  lemma OtherLandedFine(t: Nodes, l: Layout, moved: set<Path>, p: Path, strict: bool)
    requires LayoutOk(l) && Landed(t, l, moved, p) && !l.orig[p].kind.Regular?
    requires strict ==> Gone(t, l, moved)
    ensures Fine(t, l, strict)
  {
    var u := t[l.root + p := WithMeta(t[l.root + p], l.orig[p])];
    MovingFine(u, l, moved + {p}, strict);
    RootPaths(l.root, p);
    OnePlace(l.root, p);
    forall q <- Files(l, []) | l.orig[q].kind.Regular?
      ensures (q in t && t[q] == l.orig[q]) || (l.root + q in t && t[l.root + q].kind == l.orig[q].kind)
      ensures strict ==> (Twice(t, l, q) <==> Twice(u, l, q))
    {
      FilesOutside(l, q);
      assert q != l.root + p;
    }
  }

  lemma OtherMade(base: Nodes, h: seq<Nodes>, failures: set<nat>, from: nat, l: Layout, moved: set<Path>, b: Budget,
                  path: Path, node: Node)
    requires LayoutOk(l) && Moving(base, l, moved) && path in Files(l, []) && path !in moved
    requires !l.orig[path].kind.Regular? && (l.orig[path].kind.Symlink? ==> node.kind == l.orig[path].kind)
    requires Size(node) == 0 && BudgetOk(b, l) && AllFine(h, failures, from, l, b)
    requires failures == {} ==> Gone(base, l, moved) && b.bytes(base) == b.total
    ensures var t := base[l.root + path := node];
      && CanMake(base, l.root + path) && Landed(t, l, moved, path) && AllFine(h + [t], failures, from, l, b)
      && (failures == {} ==> Gone(t, l, moved) && b.bytes(t) == b.total)
  {
    var t := base[l.root + path := node];
    FilesOutside(l, path);
    StartsFlight(base, l, moved, path, node);
    RoomToMake(base, l, moved, path);
    Lands(base, l, moved, path, node);
    if failures == {} {
      RootPaths(l.root, path);
      GoneAfter(base, t, l, moved, path);
    }
    OtherLandedFine(t, l, moved, path, failures == {});
    CountPut(b, base, l.root + path, node);
    OneMoreFine(h, failures, from, l, b, t, true);
    assert failures + {} == failures;
  }

  /** Links are recreated, and device nodes and pipes made anew as whatever the call makes of their
      mode; sockets and unknown types stop the walk. The old node stays. */
  method MoveOther(fs: FileSystem, root: Path, path: Path, info: Node, ghost l: Layout, ghost moved: set<Path>,
                   ghost from: nat, ghost b: Budget)
    returns (ok: bool)
    requires LayoutOk(l) && BudgetOk(b, l) && root == l.root && Between(fs, from, l, moved, b)
    requires path in Files(l, []) && path !in moved && info == l.orig[path] && !info.kind.Regular?
    modifies fs
    ensures Recorded(fs, from, l, b)
    ensures ok ==> Between(fs, from, l, moved + {path}, b)
    ensures ok <==> !info.kind.Socket? && !info.kind.Unknown? && fs.faults == old(fs.faults)
    ensures info.kind.Socket? || info.kind.Unknown? ==> fs.nodes == old(fs.nodes)
    ensures old(fs.faults) <= fs.faults
  {
    if info.kind.Socket? || info.kind.Unknown? {
      return false;
    }
    var dest := root + path;
    var kind := info.kind;
    if info.kind.Symlink? {
      ok := fs.Attempt();
      if !ok {
        return;
      }
    } else {
      kind :| kind in {Device, Pipe, Regular("")};
    }
    var node := Node(kind, fs.nodes[root].dev, 0, info.mode, 0);
    OtherMade(fs.nodes, fs.history, fs.failures, from, l, moved, b, path, node);
    ok := fs.Create(dest, node);
    if ok {
      ok := FinishMeta(fs, path, dest, info, l, moved, from, b);
    }
  }

  lemma NamesThere(l: Layout, path: Path, t: Nodes, moved: set<Path>, names: seq<string>)
    requires LayoutOk(l) && Reached(l, path) && l.orig[path].dev == l.rootDev && Moving(t, l, moved)
    requires Files(l, path) !! moved
    requires forall n :: n in names <==> path + [n] in t
    ensures forall n :: n in names <==> path + [n] in l.orig
  {
    forall n ensures path + [n] in t <==> path + [n] in l.orig {
      var p := path + [n];
      UnderParent(l.root, path, n);
      NotInside(l, path);
      if p in l.orig {
        ChildReached(l, path, n);
        assert p in Files(l, path) || l.orig[p].kind.Directory?;
      }
    }
  }

  lemma ChildThere(l: Layout, child: Path, t: Nodes, moved: set<Path>)
    requires LayoutOk(l) && Reached(l, child) && Moving(t, l, moved) && Files(l, child) !! moved
    ensures child in t && t[child] == Seen(l, child)
  {
    if !l.orig[child].kind.Directory? {
      assert child in Files(l, child);
      NotInside(l, child);
    }
  }

  lemma FileIsItself(l: Layout, child: Path)
    requires LayoutOk(l) && Reached(l, child) && !l.orig[child].kind.Directory?
    ensures Files(l, child) == {child} && child in Files(l, [])
  {
    forall q <- Files(l, child) ensures q == child {
      NothingUnderFile(l.orig, child, q);
    }
  }

  /** Nothing that the walk finds at and below this path is of a kind it refuses. */
  ghost predicate AllSupported(l: Layout, files: set<Path>) {
    forall q <- files | q in l.orig :: !l.orig[q].kind.Socket? && !l.orig[q].kind.Unknown?
  }

  /** filepath.Walk over the files: directories of other devices are skipped, those of the root device
      were made by the first walk. It succeeds exactly when no call fails by itself and there is no
      socket and nothing of unknown type among the files. */
  method WalkFiles(fs: FileSystem, ghost l: Layout, root: Path, rootDev: nat, path: Path, info: Node,
                   ghost moved: set<Path>, ghost depth: nat, ghost from: nat, ghost b: Budget)
    returns (ok: bool)
    requires LayoutOk(l) && root == l.root && rootDev == l.rootDev && Shallow(l.orig, depth) && BudgetOk(b, l)
    requires Between(fs, from, l, moved, b)
    requires Reached(l, path) && info == Seen(l, path) && info.kind.Directory? && Files(l, path) !! moved
    modifies fs
    ensures Recorded(fs, from, l, b)
    ensures ok ==> Between(fs, from, l, moved + Files(l, path), b)
    ensures ok <==> fs.faults == old(fs.faults) && AllSupported(l, Files(l, path))
    ensures old(fs.faults) <= fs.faults
    decreases depth - |path|, 1
  {
    ChildThere(l, path, fs.nodes, moved);
    var names;
    ok, names := fs.ReadDirNames(path);
    if !ok {
      return;
    }
    if info.dev != rootDev {
      OnlyItself(l, path);
      assert Files(l, path) == {} by {
        NoFilesBelow(l, path);
      }
      assert moved + Files(l, path) == moved;
      return;
    }
    NamesThere(l, path, fs.nodes, moved, names);
    assert moved + Part(l, path, names[..0], false) == moved;
    for i := 0 to |names|
      invariant Between(fs, from, l, moved + Part(l, path, names[..i], false), b)
      invariant fs.faults == old(fs.faults) && AllSupported(l, Part(l, path, names[..i], false))
    {
      assert names[i] in names;
      ghost var sofar := moved + Part(l, path, names[..i], false);
      NextFile(l, path, names, i, moved);
      ok := WalkEntry(fs, l, root, rootDev, path, names[i], sofar, depth, from, b);
      if !ok {
        return;
      }
    }
    AllParts(l, path, names, false);
    assert names[..|names|] == names;
    ok := true;
  }

  lemma NextFile(l: Layout, path: Path, names: seq<string>, i: nat, moved: set<Path>)
    requires i < |names| && (forall a, b :: 0 <= a < b < |names| ==> names[a] != names[b])
    requires Reached(l, path) && l.orig[path].dev == l.rootDev && path + [names[i]] in l.orig
    requires Files(l, path) !! moved
    ensures var child, sofar := path + [names[i]], moved + Part(l, path, names[..i], false);
      && Reached(l, child) && Files(l, child) !! sofar && Files(l, child) <= Files(l, path)
      && sofar + Files(l, child) == moved + Part(l, path, names[..i + 1], false)
      && Part(l, path, names[..i + 1], false) == Part(l, path, names[..i], false) + Files(l, child)
  {
    PartGrows(l, path, names, i, false);
    ChildReached(l, path, names[i]);
    ChildApart(l, path, names, i, moved, false);
  }

  /** One name of a directory being walked: it is looked up, and walked or moved. */
  method WalkEntry(fs: FileSystem, ghost l: Layout, root: Path, rootDev: nat, path: Path, name: string,
                   ghost moved: set<Path>, ghost depth: nat, ghost from: nat, ghost b: Budget)
    returns (ok: bool)
    requires LayoutOk(l) && root == l.root && rootDev == l.rootDev && Shallow(l.orig, depth) && BudgetOk(b, l)
    requires Between(fs, from, l, moved, b)
    requires Reached(l, path + [name]) && Files(l, path + [name]) !! moved
    modifies fs
    ensures Recorded(fs, from, l, b)
    ensures ok ==> Between(fs, from, l, moved + Files(l, path + [name]), b)
    ensures ok <==> fs.faults == old(fs.faults) && AllSupported(l, Files(l, path + [name]))
    ensures old(fs.faults) <= fs.faults
    decreases depth - |path|, 0
  {
    var child := path + [name];
    var info;
    ChildThere(l, child, fs.nodes, moved);
    ok, info := fs.Lstat(child);
    if !ok {
      return;
    }
    if info.kind.Directory? {
      ok := WalkFiles(fs, l, root, rootDev, child, info, moved, depth, from, b);
    } else {
      FileIsItself(l, child);
      NotInside(l, child);
      if info.kind.Regular? {
        ok := MoveRegular(fs, root, child, info, l, moved, from, b);
      } else {
        ok := MoveOther(fs, root, child, info, l, moved, from, b);
      }
    }
  }

  lemma NoFilesBelow(l: Layout, path: Path)
    requires Reached(l, path) && l.orig[path].dev != l.rootDev && l.orig[path].kind.Directory?
    ensures Files(l, path) == {}
  {
    forall q <- Files(l, path) ensures q == path {
      assert q[..|path|] == path;
    }
  }
}
