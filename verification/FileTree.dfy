/** A file system as a map from paths to what is there, across mounted devices, with the calls that
    the relocation makes. Every state is recorded. */
module FileTree {
  type Path = seq<string>

  // What the copy does not promise to reproduce is only told apart.
  datatype Kind = Directory | Regular(bytes: string) | Symlink(target: string) | Device | Pipe | Socket | Unknown

  // Times are kept for everything but directories.
  datatype Node = Node(kind: Kind, dev: nat, owner: nat, mode: nat, times: nat)

  type Nodes = map<Path, Node>

  predicate Under(p: Path, q: Path) { p <= q }

  function Parent(p: Path): Path
    requires p != []
  {
    p[..|p| - 1]
  }

  ghost predicate WellFormed(t: Nodes) {
    && [] in t && t[[]].kind.Directory?
    && forall p <- t | p != [] :: Parent(p) in t && t[Parent(p)].kind.Directory?
  }

  lemma {:induction false} NothingUnderFile(t: Nodes, path: Path, q: Path)
    requires WellFormed(t) && path in t && !t[path].kind.Directory? && q in t && Under(path, q)
    ensures q == path
    decreases |q|
  {
    if |q| > |path| {
      assert Under(path, Parent(q));
      NothingUnderFile(t, path, Parent(q));
    }
  }

  ghost predicate Same(t: Nodes, t0: Nodes, p: Path) {
    (p in t <==> p in t0) && (p in t ==> t[p] == t0[p])
  }

  function Size(n: Node): nat { if n.kind.Regular? then |n.kind.bytes| else 0 }

  function SizeAt(t: Nodes, p: Path): nat { if p in t then Size(t[p]) else 0 }

  /** The bytes that all regular files hold together. */
  ghost function Bytes(t: Nodes): nat {
    if t == map[] then 0 else var p :| p in t; Size(t[p]) + Bytes(t - {p})
  }

  lemma {:induction false} BytesDrop(t: Nodes, p: Path)
    requires p in t
    ensures Bytes(t) == Size(t[p]) + Bytes(t - {p})
    decreases |t|
  {
    var q :| q in t && Bytes(t) == Size(t[q]) + Bytes(t - {q});
    if q != p {
      BytesDrop(t - {q}, p);
      BytesDrop(t - {p}, q);
      assert t - {q} - {p} == t - {p} - {q};
    }
  }

  lemma BytesPut(t: Nodes, p: Path, n: Node)
    ensures Bytes(t[p := n]) == Bytes(t) - SizeAt(t, p) + Size(n)
  {
    BytesDrop(t[p := n], p);
    assert t[p := n] - {p} == t - {p};
    if p in t {
      BytesDrop(t, p);
    } else {
      assert t - {p} == t;
    }
  }

  ghost predicate SameSizes(t: Nodes, u: Nodes) { forall p :: SizeAt(t, p) == SizeAt(u, p) }

  lemma SameSizesDrop(t: Nodes, u: Nodes, p: Path)
    requires SameSizes(t, u)
    ensures SizeAt(t, p) == SizeAt(u, p) && SameSizes(t - {p}, u - {p})
  {
    forall q ensures SizeAt(t - {p}, q) == SizeAt(u - {p}, q) {
      assert SizeAt(t, q) == SizeAt(u, q);
    }
  }

  /** Trees that agree on the size of every file hold the same number of bytes. */
  lemma {:induction false} SameBytes(t: Nodes, u: Nodes)
    requires SameSizes(t, u)
    ensures Bytes(t) == Bytes(u)
    decreases |t| + |u|
  {
    if t.Keys + u.Keys == {} {
      assert t == map[] && u == map[];
    } else {
      var p :| p in t.Keys + u.Keys;
      SameSizesDrop(t, u, p);
      DropOne(t, p);
      DropOne(u, p);
      SameBytes(t - {p}, u - {p});
    }
  }

  lemma DropOne(t: Nodes, p: Path)
    ensures Bytes(t) == SizeAt(t, p) + Bytes(t - {p})
    ensures if p in t then |t - {p}| == |t| - 1 else t - {p} == t
  {
    if p in t {
      BytesDrop(t, p);
      assert (t - {p}).Keys == t.Keys - {p};
    } else {
      assert t - {p} == t;
    }
  }

  /** A call that makes something at this path has nothing in its way. */
  predicate CanMake(t: Nodes, p: Path) {
    p != [] && p !in t && Parent(p) in t && t[Parent(p)].kind.Directory?
  }

  /** What os.RemoveAll may leave: it asks no device and gives up wherever it likes. */
  ghost predicate RemovedBelow(t: Nodes, t': Nodes, path: Path) {
    && t'.Keys <= t.Keys
    && (forall p <- t' :: t'[p] == t[p])
    && forall p <- t | !Under(path, p) :: p in t'
  }

  class FileSystem {
    var nodes: Nodes
    ghost var history: seq<Nodes>
    ghost var failures: set<nat>  // the states recorded by removals that failed
    ghost var faults: nat         // how many other calls failed though nothing in the tree was in their way

    ghost predicate Valid()
      reads this`history, this`failures
    {
      forall i <- failures :: i < |history|
    }

    constructor (t: Nodes)
      ensures nodes == t && history == [t] && failures == {} && faults == 0
    {
      nodes, history, failures, faults := t, [t], {}, 0;
    }

    method Commit(t: Nodes)
      modifies this
      ensures nodes == t && history == old(history) + [t] && failures == old(failures) && faults == old(faults)
    {
      nodes, history := t, history + [t];
    }

    /** A call that nothing in the tree prevents; should it fail, that is recorded. */
    method Attempt() returns (ok: bool)
      modifies this`faults
      ensures faults == old(faults) + (if ok then 0 else 1)
    {
      ok := *;
      if !ok {
        faults := faults + 1;
      }
    }

    method Lstat(path: Path) returns (ok: bool, info: Node)
      modifies this`faults
      ensures ok <==> path in nodes && faults == old(faults)
      ensures old(faults) <= faults
      ensures ok ==> info == nodes[path]
    {
      ok, info := false, Node(Unknown, 0, 0, 0, 0);
      if path in nodes {
        info := nodes[path];
        ok := Attempt();
      }
    }

    /** The names in a directory, read at once, in whatever order. */
    method ReadDirNames(path: Path) returns (ok: bool, names: seq<string>)
      modifies this`faults
      ensures ok <==> path in nodes && nodes[path].kind.Directory? && faults == old(faults)
      ensures old(faults) <= faults
      ensures ok ==> forall n :: n in names <==> path + [n] in nodes
      ensures ok ==> forall i, j :: 0 <= i < j < |names| ==> names[i] != names[j]
    {
      ok, names := path in nodes && nodes[path].kind.Directory?, [];
      if ok {
        ok := Attempt();
      }
      var left := set p | p in nodes && |p| == |path| + 1 && p[..|path|] == path;
      ghost var all := left;
      while left != {}
        invariant left <= all
        invariant forall i :: 0 <= i < |names| ==> path + [names[i]] in all && path + [names[i]] !in left
        invariant forall p <- all - left :: p[|path|] in names
        invariant forall i, j :: 0 <= i < j < |names| ==> names[i] != names[j]
      {
        var p :| p in left;
        assert p == path + [p[|path|]];
        left, names := left - {p}, names + [p[|path|]];
      }
      forall n ensures n in names <==> path + [n] in nodes {
        if path + [n] in nodes {
          assert path + [n] in all && (path + [n])[|path|] == n;
        }
      }
    }

    method Mkdir(path: Path, mode: nat, dev: nat) returns (ok: bool)
      modifies this
      ensures ok <==> CanMake(old(nodes), path) && faults == old(faults)
      ensures nodes == if ok then old(nodes)[path := Node(Directory, dev, 0, mode, 0)] else old(nodes)
      ensures history == old(history) + [nodes]
      ensures failures == old(failures) && old(faults) <= faults
    {
      ok := CanMake(nodes, path);
      if ok {
        ok := Attempt();
      }
      Commit(if ok then nodes[path := Node(Directory, dev, 0, mode, 0)] else nodes);
    }

    method Chmod(path: Path, mode: nat) returns (ok: bool)
      modifies this
      ensures ok <==> path in old(nodes) && faults == old(faults)
      ensures nodes == if ok then old(nodes)[path := old(nodes)[path].(mode := mode)] else old(nodes)
      ensures history == old(history) + [nodes]
      ensures failures == old(failures) && old(faults) <= faults
    {
      ok := path in nodes;
      if ok {
        ok := Attempt();
      }
      Commit(if ok then nodes[path := nodes[path].(mode := mode)] else nodes);
    }

    method Create(path: Path, node: Node) returns (ok: bool)
      modifies this
      ensures ok <==> CanMake(old(nodes), path) && faults == old(faults)
      ensures ok ==> nodes == old(nodes)[path := node] && history == old(history) + [nodes]
      ensures !ok ==> nodes == old(nodes) && history == old(history)
      ensures failures == old(failures) && old(faults) <= faults
    {
      ok := CanMake(nodes, path);
      if ok {
        ok := Attempt();
      }
      if ok {
        Commit(nodes[path := node]);
      }
    }

    /** os.Remove of something that is not a directory. */
    method Remove(path: Path) returns (ok: bool)
      requires path in nodes && !nodes[path].kind.Directory?
      modifies this
      ensures nodes == if ok then old(nodes) - {path} else old(nodes)
      ensures history == old(history) + [nodes]
      ensures failures == old(failures) + (if ok then {} else {|old(history)|})
      ensures faults == old(faults)
    {
      ok := *;
      failures := failures + (if ok then {} else {|history|});
      Commit(if ok then nodes - {path} else nodes);
    }

    /** os.RemoveAll: it has failed if anything is left. */
    method RemoveAll(path: Path) returns (ok: bool)
      modifies this
      ensures RemovedBelow(old(nodes), nodes, path)
      ensures ok <==> forall p <- nodes :: !Under(path, p)
      ensures history == old(history) + [nodes]
      ensures failures == old(failures) + (if ok then {} else {|old(history)|})
      ensures faults == old(faults)
    {
      var below := set p | p in nodes && Under(path, p);
      var left: set<Path> := *;
      ok := left !! below;
      failures := failures + (if ok then {} else {|history|});
      if !ok {
        assert exists p :: p in left && p in below;
      }
      Commit(nodes - (below - left));
    }

    /** copyMetadata: owner, then times, then the mode once more, because the change of owner may drop bits
        of it; links have none to set. */
    method CopyMetadata(info: Node, path: Path) returns (ok: bool)
      modifies this
      ensures old(history) <= history
      ensures forall i :: |old(history)| <= i < |history| ==> OnlyMeta(history[i], old(nodes), path)
      ensures OnlyMeta(nodes, old(nodes), path)
      ensures ok <==> path in old(nodes) && faults == old(faults)
      ensures ok ==> nodes == old(nodes)[path := WithMeta(old(nodes)[path], info)]
      ensures failures == old(failures) && old(faults) <= faults
    {
      ok := path in nodes;
      if ok {
        ok := Attempt();
      }
      if !ok {
        Commit(nodes);
        return;
      }
      var kept: nat := *;
      Commit(nodes[path := nodes[path].(owner := info.owner,
                                        mode := if info.kind.Symlink? then nodes[path].mode else kept)]);
      ok := Attempt();
      if !ok {
        return;
      }
      Commit(nodes[path := nodes[path].(times := info.times)]);
      if !info.kind.Symlink? {
        ok := Chmod(path, info.mode);
      }
    }
  }

  function WithMeta(n: Node, info: Node): Node {
    Node(n.kind, n.dev, info.owner, if info.kind.Symlink? then n.mode else info.mode, info.times)
  }

  /** The trees differ at most in the owner, mode and times of one node. */
  ghost predicate OnlyMeta(t: Nodes, t0: Nodes, path: Path) {
    && t.Keys == t0.Keys
    && (forall p <- t | p != path :: t[p] == t0[p])
    && (path in t ==> t[path].kind == t0[path].kind && t[path].dev == t0[path].dev)
  }

  lemma MetaSizes(t: Nodes, t0: Nodes, path: Path)
    requires OnlyMeta(t, t0, path)
    ensures SameSizes(t, t0)
  {
  }
}
