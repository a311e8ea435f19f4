/** One directory of the installed system, as a map from entry names to what is stored there,
    and the system calls that the component upgrade and the key writer make on it.
    Link targets are single names, looked up in the same directory. */
module Disk {
  import opened Wrappers

  type Name = string

  // What lies below a version directory: each relative path with its content.
  datatype Item = SubDir(mode: nat) | Regular(mode: nat, bytes: string) | Symbolic(text: string)
  type Tree = map<string, Item>

  datatype Node = Dir(mode: nat, tree: Tree) | Link(target: Name) | File(text: string)
  type Entries = map<Name, Node>

  // Linux gives up (ELOOP) after following this many links in one lookup.
  const MAX_LINKS: nat := 40

  /** The name a lookup of `n` ends at once links are followed. */
  function Resolve(d: Entries, n: Name, hops: nat := MAX_LINKS): (r: Option<Name>)
    ensures r.Some? ==> r.value in d && !d[r.value].Link?
    decreases hops
  {
    if n !in d then None
    else if !d[n].Link? then Some(n)
    else if hops == 0 then None
    else Resolve(d, d[n].target, hops - 1)
  }

  /** stat(2): follows links. */
  function Stat(d: Entries, n: Name): Option<Node> {
    var r := Resolve(d, n);
    if r.None? then None else Some(d[r.value])
  }

  /** os.Rename: a directory never replaces anything, and nothing replaces a directory. */
  predicate CanRename(d: Entries, a: Name, b: Name) {
    && a in d
    && if d[a].Dir? then b !in d else b !in d || !d[b].Dir?
  }

  function Rename(d: Entries, a: Name, b: Name): Entries
    requires a in d
  {
    (d - {a})[b := d[a]]
  }

  /** os.Remove: a directory goes only when it is empty. */
  predicate CanRemove(d: Entries, n: Name) {
    n in d && (d[n].Dir? ==> d[n].tree == map[])
  }

  /** The name that opening `n` for writing creates or opens, once links are followed. */
  function Opened(d: Entries, n: Name, hops: nat := MAX_LINKS): (r: Option<Name>)
    ensures r.Some? && r.value in d ==> !d[r.value].Link?
    decreases hops
  {
    if n !in d || !d[n].Link? then Some(n)
    else if hops == 0 then None
    else Opened(d, d[n].target, hops - 1)
  }

  /** A tree whose files are copied onto themselves: each is cut to nothing before it is read. */
  function Emptied(tree: Tree): Tree {
    map p | p in tree :: if tree[p].Regular? then Regular(tree[p].mode, "") else tree[p]
  }

  /** copy.Copy of one alias onto another name; the alias is usually a link, whose text is copied. A
      file or directory copied onto itself through a link is cut first. The flag says whether the copy
      ran to its end. */
  function CopyAlias(d: Entries, from: Name, to: Name): (bool, Entries) {
    if from !in d then (false, d)
    else match d[from]
      case Link(t) =>
        if to in d then (false, d) else (true, d[to := Link(t)])
      case File(text) =>
        var r := Opened(d, to);
        if r.None? || (r.value in d && d[r.value].Dir?) then (false, d)
        else (true, d[r.value := File(if r.value == from then "" else text)])
      case Dir(mode, tree) =>
        if to !in d then (true, d[to := Dir(mode, tree)])
        else
          var r := Resolve(d, to);
          if r.None? || !d[r.value].Dir? then (false, d)
          else if r.value == from then (true, d[from := Dir(mode, Emptied(tree))])
          else (true, d[r.value := Dir(mode, d[r.value].tree + tree)])
  }

  /** Every state the directory goes through is kept in `history`, so that a cut-off after any
      call is one of its elements. */
  class Directory {
    var entries: Entries
    ghost var history: seq<Entries>

    constructor (initial: Entries)
      ensures entries == initial && history == [initial]
    {
      entries := initial;
      history := [initial];
    }

    /** Store the outcome of one system call. */
    method Commit(after: Entries)
      modifies this
      ensures entries == after
      ensures history == old(history) + [after]
    {
      entries := after;
      history := history + [after];
    }

    method Symlink(target: Name, at: Name, fails: bool) returns (ok: bool)
      modifies this
      ensures ok == (!fails && at !in old(entries))
      ensures entries == if ok then old(entries)[at := Link(target)] else old(entries)
      ensures history == old(history) + [entries]
    {
      ok := !fails && at !in entries;
      Commit(if ok then entries[at := Link(target)] else entries);
    }

    method Mkdir(at: Name, mode: nat, fails: bool) returns (ok: bool)
      modifies this
      ensures ok == (!fails && at !in old(entries))
      ensures entries == if ok then old(entries)[at := Dir(mode, map[])] else old(entries)
      ensures history == old(history) + [entries]
    {
      ok := !fails && at !in entries;
      Commit(if ok then entries[at := Dir(mode, map[])] else entries);
    }

    method Move(a: Name, b: Name, fails: bool) returns (ok: bool)
      modifies this
      ensures ok == (!fails && CanRename(old(entries), a, b))
      ensures entries == if ok then Rename(old(entries), a, b) else old(entries)
      ensures history == old(history) + [entries]
    {
      ok := !fails && CanRename(entries, a, b);
      Commit(if ok then Rename(entries, a, b) else entries);
    }

    method Delete(n: Name, fails: bool) returns (ok: bool)
      modifies this
      ensures ok == (!fails && CanRemove(old(entries), n))
      ensures entries == if ok then old(entries) - {n} else old(entries)
      ensures history == old(history) + [entries]
    {
      ok := !fails && CanRemove(entries, n);
      Commit(if ok then entries - {n} else entries);
    }
  }
}
