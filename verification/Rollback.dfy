/** What an upgrade that fails leaves behind, and exactly when that is what it found. */
module Rollback {
  import opened Wrappers
  import opened Disk
  import opened Component
  import opened CrashSafety

  // ---------- looking a version up while the temporary entries are there ----------

  /** The directory once the copy is complete and nothing has been moved yet. */
  function Staged(d0: Entries, b: Name, temp: Name, node: Node): Entries {
    d0[CURRENT_TMP := Link(b)][temp := node]
  }

  /** Names that were free on entry; no link refers to the random one. */
  predicate Fresh(d0: Entries, temp: Name) {
    && temp !in d0
    && forall n <- d0 :: d0[n] != Link(temp)
  }

  lemma {:induction false} MoreHops(d: Entries, n: Name, h: nat, h': nat)
    requires h <= h' && Resolve(d, n, h).Some?
    ensures Resolve(d, n, h') == Resolve(d, n, h)
    decreases h
  {
    if d[n].Link? {
      MoreHops(d, d[n].target, h - 1, h' - 1);
    }
  }

  lemma {:induction false} ResolveKept(d0: Entries, b: Name, temp: Name, node: Node, n: Name, h: nat)
    requires CURRENT_TMP !in d0 && Fresh(d0, temp) && temp != CURRENT_TMP && Resolve(d0, n, h).Some?
    ensures Resolve(Staged(d0, b, temp, node), n, h) == Resolve(d0, n, h)
    decreases h
  {
    if d0[n].Link? {
      ResolveKept(d0, b, temp, node, d0[n].target, h - 1);
    }
  }

  lemma {:induction false} ResolveBack(d0: Entries, b: Name, temp: Name, node: Node, n: Name, h: nat)
    requires CURRENT_TMP !in d0 && Fresh(d0, temp) && temp != CURRENT_TMP && n != temp && b != temp
    requires Resolve(Staged(d0, b, temp, node), n, h).Some?
    ensures var r := Resolve(Staged(d0, b, temp, node), n, h);
            Resolve(d0, n, h) == r || exists h' :: 0 <= h' < h && Resolve(d0, b, h') == r
    decreases h
  {
    var d := Staged(d0, b, temp, node);
    if n == CURRENT_TMP {
      ResolveBack(d0, b, temp, node, b, h - 1);
    } else if d[n].Link? {
      ResolveBack(d0, b, temp, node, d[n].target, h - 1);
    }
  }

  /** The temporary link and directory do not change where the version's own name leads. */
  lemma StagedStat(d0: Entries, b: Name, temp: Name, node: Node)
    requires CURRENT_TMP !in d0 && Fresh(d0, temp) && temp != CURRENT_TMP && b != temp
    ensures Stat(Staged(d0, b, temp, node), b) == Stat(d0, b)
  {
    var d := Staged(d0, b, temp, node);
    if Resolve(d0, b).Some? {
      ResolveKept(d0, b, temp, node, b, MAX_LINKS);
    } else if Resolve(d, b).Some? {
      ResolveBack(d0, b, temp, node, b, MAX_LINKS);
      var h' :| 0 <= h' < MAX_LINKS && Resolve(d0, b, h') == Resolve(d, b);
      MoreHops(d0, b, h', MAX_LINKS);
    }
  }

  // ---------- rollback ----------

  /** Moving the existing version aside loses something: it is a plain file (or a link to one),
      which is deleted, or a link to a directory that overwrites a file or link called `.old`. */
  predicate Clobbers(d0: Entries, b: Name) {
    var s := Stat(d0, b);
    s.Some? && (s.value.Dir? ==> d0[b].Link? && OldName(b) in d0 && !d0[OldName(b)].Dir?)
  }

  predicate CleanupsWork(c: Call) { {UndoMove, RemoveTemp, RemoveLink} !! c.fails }

  /** An unfinished upgrade that has not renamed its copy into place, with nothing lost so far. */
  ghost predicate Undoable(c: Call, l: Local, d: Entries, d0: Entries) {
    && StackOk(l)
    && match l.pc
       case StatSrc => d == d0 && l == START
       case StatDst | Remount | MakeLink | Done => d == d0
       case MakeTemp | RemoveLink => CURRENT_TMP !in d0 && d == d0[CURRENT_TMP := Link(l.version)]
       case CopyTree | RemoveTemp =>
         && CURRENT_TMP !in d0
         && exists node :: d == Staged(d0, l.version, c.temp, node)
       case StatOld | MoveOld | RemoveFile =>
         && CURRENT_TMP !in d0 && l.version in c.src
         && d == Staged(d0, l.version, c.temp, c.src[l.version])
         && (l.pc.MoveOld? ==> Stat(d, l.version).Some? && Stat(d, l.version).value.Dir?)
         && (l.pc.RemoveFile? ==> Stat(d, l.version).Some? && !Stat(d, l.version).value.Dir?)
       case Publish | UndoMove =>
         && CURRENT_TMP !in d0 && l.version in c.src
         && if l.pc.UndoMove? || l.deferred == MOVED
            then l.version in d0 && OldName(l.version) !in d0
                 && d == Staged(Rename(d0, l.version, OldName(l.version)), l.version, c.temp, c.src[l.version])
            else d == Staged(d0, l.version, c.temp, c.src[l.version])
       case _ => false
  }

  lemma UndoEarly(c: Call, l: Local, d: Entries, d0: Entries)
    requires Undoable(c, l, d, d0) && GoodCall(c) && CleanupsWork(c) && Fresh(d0, c.temp)
    requires !l.pc.StatSrc? ==> Some(l.version) == SourceVersion(c.src) || l.pc.Done?
    requires l.pc in {StatSrc, StatDst, Remount, MakeLink, MakeTemp, Done}
    ensures var s := Step(c, l, d); Undoable(c, s.0, s.1, d0)
  {
    if l.pc.MakeTemp? {
      NamesApart(c.temp, l.version);
      var node := Dir(0x1C0, map[]);
      assert d[c.temp := node] == Staged(d0, l.version, c.temp, node);
    }
  }

  lemma UndoCopy(c: Call, l: Local, d: Entries, d0: Entries)
    requires Undoable(c, l, d, d0) && l.pc.CopyTree?
    ensures var s := Step(c, l, d); Undoable(c, s.0, s.1, d0)
  {
    var node :| d == Staged(d0, l.version, c.temp, node);
    var (l', d') := Step(c, l, d);
    if d' != d {
      assert d' == Staged(d0, l.version, c.temp, d'[c.temp]);
    }
  }

  lemma UndoMoves(c: Call, l: Local, d: Entries, d0: Entries)
    requires Undoable(c, l, d, d0) && GoodCall(c) && Fresh(d0, c.temp)
    requires Some(l.version) == SourceVersion(c.src) && !Clobbers(d0, l.version)
    requires l.pc in {StatOld, MoveOld, RemoveFile}
    ensures var s := Step(c, l, d); Undoable(c, s.0, s.1, d0)
  {
    var b := l.version;
    NamesApart(c.temp, b);
    StagedStat(d0, b, c.temp, c.src[b]);
    if l.pc.MoveOld? && CanRename(d, b, OldName(b)) {
      assert OldName(b) !in d0;
      assert Rename(d, b, OldName(b)) == Staged(Rename(d0, b, OldName(b)), b, c.temp, c.src[b]);
    }
  }

  lemma UndoRename(c: Call, l: Local, d: Entries, d0: Entries)
    requires Undoable(c, l, d, d0) && GoodCall(c) && CleanupsWork(c) && Fresh(d0, c.temp)
    requires Some(l.version) == SourceVersion(c.src)
    requires l.pc in {Publish, UndoMove}
    ensures var s := Step(c, l, d); s.0.pc.Chmod? || Undoable(c, s.0, s.1, d0)
  {
    var b := l.version;
    NamesApart(c.temp, b);
    if l.pc.UndoMove? {
      assert b !in d && OldName(b) in d && d[OldName(b)] == d0[b];
      assert Rename(d, OldName(b), b) == Staged(d0, b, c.temp, c.src[b]);
    }
  }

  lemma UndoTemps(c: Call, l: Local, d: Entries, d0: Entries)
    requires Undoable(c, l, d, d0) && GoodCall(c) && CleanupsWork(c) && Fresh(d0, c.temp)
    requires Some(l.version) == SourceVersion(c.src)
    requires l.pc in {RemoveTemp, RemoveLink}
    ensures var s := Step(c, l, d); Undoable(c, s.0, s.1, d0)
  {
    var b := l.version;
    NamesApart(c.temp, b);
    if l.pc.RemoveTemp? {
      assert d - {c.temp} == d0[CURRENT_TMP := Link(b)];
    } else {
      assert d - {CURRENT_TMP} == d0;
    }
  }

  ghost predicate Published(c: Call, d0: Entries) { exists k: nat :: At(c, d0, k).0.pc.Chmod? }

  lemma StepVersion(c: Call, l: Local, d: Entries, b: Name)
    requires SourceVersion(c.src) == Some(b) && (l == START || l.pc.Done? || l.version == b)
    ensures var next := Step(c, l, d).0; next.pc.Done? || next.version == b
  {
  }

  lemma {:induction false} RunUndoable(c: Call, d0: Entries, b: Name, k: nat)
    requires GoodCall(c) && CleanupsWork(c) && Fresh(d0, c.temp) && SourceVersion(c.src) == Some(b)
    requires !Clobbers(d0, b) || CURRENT_TMP in d0
    requires !Published(c, d0)
    ensures Undoable(c, At(c, d0, k).0, At(c, d0, k).1, d0)
    ensures At(c, d0, k).0.pc in {StatSrc, Done} || At(c, d0, k).0.version == b
  {
    if k > 0 {
      RunUndoable(c, d0, b, k - 1);
      var (l, d) := At(c, d0, k - 1);
      StepVersion(c, l, d, b);
      assert !At(c, d0, k).0.pc.Chmod?;
      match l.pc {
        case StatOld | MoveOld | RemoveFile => UndoMoves(c, l, d, d0);
        case Publish | UndoMove => UndoRename(c, l, d, d0);
        case RemoveTemp | RemoveLink => UndoTemps(c, l, d, d0);
        case CopyTree => UndoCopy(c, l, d, d0);
        case _ => UndoEarly(c, l, d, d0);
      }
    }
  }

  /** A run that stops before its copy is renamed into place leaves the directory as it found it. */
  lemma RollsBack(c: Call, d0: Entries, b: Name)
    requires GoodCall(c) && CleanupsWork(c) && Fresh(d0, c.temp) && SourceVersion(c.src) == Some(b)
    requires !Clobbers(d0, b) || CURRENT_TMP in d0
    requires !Published(c, d0)
    ensures After(c, d0) == d0
  {
    RunUndoable(c, d0, b, LAST);
    RunEnds(c, d0, LAST);
  }

  ghost predicate RollsBackWhateverFails(src: Entries, d0: Entries, temp: Name) {
    forall c: Call | c.src == src && c.temp == temp && CleanupsWork(c) && !Published(c, d0) ::
      After(c, d0) == d0
  }

  /** The state in which an upgrade that failed to recognise its version reaches its fifth call. */
  lemma ReachesStatOld(src: Entries, d0: Entries, temp: Name, b: Name, fails: set<PC>)
    requires SourceVersion(src) == Some(b) && src[b].Dir?
    requires !Reserved(b) && IsTempName(temp, b) && Fresh(d0, temp) && CURRENT_TMP !in d0
    requires fails == {StatDst, Publish}
    ensures var c := Call(src, false, fails, temp, Dir(0, map[]), map[]);
            var mode := StatVersion(src, CURRENT).value.mode;
            At(c, d0, 5) == (Local(StatOld, b, mode, STAGED, Pending), Staged(d0, b, temp, src[b]))
  {
    NamesApart(temp, b);
    var c := Call(src, false, fails, temp, Dir(0, map[]), map[]);
    var mode := StatVersion(src, CURRENT).value.mode;
    assert At(c, d0, 1) == (Local(StatDst, b, mode, Empty, Pending), d0);
    assert At(c, d0, 2) == (Local(MakeLink, b, mode, Empty, Pending), d0);
    var d3 := d0[CURRENT_TMP := Link(b)];
    assert At(c, d0, 3) == (Local(MakeTemp, b, mode, LINKED, Pending), d3);
    assert At(c, d0, 4) == (Local(CopyTree, b, mode, STAGED, Pending), d3[temp := Dir(0x1C0, map[])]);
    assert d3[temp := Dir(0x1C0, map[])][temp := src[b]] == Staged(d0, b, temp, src[b]);
  }

  lemma UndoneBy(c: Call, d0: Entries, b: Name, mode: nat, d: Entries)
    requires At(c, d0, 8) == (Local(UndoMove, b, mode, STAGED, Failed), d) && c.fails == {StatDst, Publish}
    requires CanRename(d, OldName(b), b)
    ensures After(c, d0).Keys <= Rename(d, OldName(b), b).Keys
  {
    var d9 := Rename(d, OldName(b), b);
    assert At(c, d0, 9) == (Local(RemoveTemp, b, mode, LINKED, Failed), d9);
    assert At(c, d0, 10).0 == Local(RemoveLink, b, mode, Empty, Failed) && At(c, d0, 10).1.Keys <= d9.Keys;
    assert At(c, d0, 11).0.pc.Done?;
    RunEnds(c, d0, 11);
  }

  lemma LosesOldEntry(c: Call, d0: Entries, b: Name, mode: nat, d: Entries)
    requires At(c, d0, 5) == (Local(StatOld, b, mode, STAGED, Pending), d) && c.fails == {StatDst, Publish}
    requires b in d && d[b].Link? && Stat(d, b).Some? && Stat(d, b).value.Dir?
    requires OldName(b) in d && !d[OldName(b)].Dir? && OldName(b) != b
    ensures OldName(b) !in After(c, d0)
  {
    assert At(c, d0, 6) == (Local(MoveOld, b, mode, STAGED, Pending), d);
    var d7 := Rename(d, b, OldName(b));
    assert At(c, d0, 7) == (Local(Publish, b, mode, MOVED, Pending), d7);
    assert At(c, d0, 8) == (Local(UndoMove, b, mode, STAGED, Failed), d7);
    UndoneBy(c, d0, b, mode, d7);
  }

  lemma LosesFile(c: Call, d0: Entries, b: Name, mode: nat, d: Entries)
    requires At(c, d0, 5) == (Local(StatOld, b, mode, STAGED, Pending), d) && c.fails == {StatDst, Publish}
    requires b in d && Stat(d, b).Some? && !Stat(d, b).value.Dir?
    ensures b !in After(c, d0)
  {
    assert At(c, d0, 6) == (Local(RemoveFile, b, mode, STAGED, Pending), d);
    assert At(c, d0, 7) == (Local(Publish, b, mode, STAGED, Pending), d - {b});
    assert At(c, d0, 8) == (Local(RemoveTemp, b, mode, LINKED, Failed), d - {b});
    assert At(c, d0, 9) == (Local(RemoveLink, b, mode, Empty, Failed), d - {b} - {c.temp});
    assert At(c, d0, 10).0.pc.Done?;
    RunEnds(c, d0, 10);
  }

  /** When moving the old version aside loses something, a rename that fails afterwards shows it. */
  lemma ClobberedForGood(src: Entries, d0: Entries, temp: Name, b: Name)
    requires SourceVersion(src) == Some(b) && src[b].Dir?
    requires !Reserved(b) && IsTempName(temp, b) && Fresh(d0, temp) && CURRENT_TMP !in d0
    requires Clobbers(d0, b)
    ensures !RollsBackWhateverFails(src, d0, temp)
  {
    NamesApart(temp, b);
    var c := Call(src, false, {StatDst, Publish}, temp, Dir(0, map[]), map[]);
    var mode := StatVersion(src, CURRENT).value.mode;
    var d := Staged(d0, b, temp, src[b]);
    ReachesStatOld(src, d0, temp, b, c.fails);
    StagedStat(d0, b, temp, src[b]);
    forall k: nat ensures !At(c, d0, k).0.pc.Chmod? {
      NeverPublishes(c, d0, k);
    }
    if Stat(d0, b).value.Dir? {
      LosesOldEntry(c, d0, b, mode, d);
    } else {
      LosesFile(c, d0, b, mode, d);
    }
    assert After(c, d0) != d0;
  }

  lemma NotPublishing(c: Call, l: Local, d: Entries)
    requires Publish in c.fails && StackOk(l) && l.pc !in {Chmod, RemovePrev, CopyPrev, Swap}
    ensures Step(c, l, d).0.pc !in {Chmod, RemovePrev, CopyPrev, Swap}
  {
  }

  lemma {:induction false} NeverPublishes(c: Call, d0: Entries, k: nat)
    requires Publish in c.fails
    ensures At(c, d0, k).0.pc !in {Chmod, RemovePrev, CopyPrev, Swap}
  {
    if k > 0 {
      NeverPublishes(c, d0, k - 1);
      RunStack(c, d0, k - 1);
      NotPublishing(c, At(c, d0, k - 1).0, At(c, d0, k - 1).1);
    }
  }

  /** Exactly when a failed upgrade, its clean-ups working, always leaves the directory as it was:
      moving the old version aside loses nothing, or a left-over link stops the upgrade first. */
  lemma RollbackExact(src: Entries, d0: Entries, temp: Name, b: Name)
    requires SourceVersion(src) == Some(b) && src[b].Dir?
    requires !Reserved(b) && IsTempName(temp, b) && Fresh(d0, temp)
    ensures RollsBackWhateverFails(src, d0, temp) <==> CURRENT_TMP in d0 || !Clobbers(d0, b)
  {
    if CURRENT_TMP in d0 || !Clobbers(d0, b) {
      forall c: Call | c.src == src && c.temp == temp && CleanupsWork(c) && !Published(c, d0)
        ensures After(c, d0) == d0
      {
        RollsBack(c, d0, b);
      }
    } else {
      ClobberedForGood(src, d0, temp, b);
    }
  }
}
