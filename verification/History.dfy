/** Exactly when an upgrade succeeds, with or without failing calls, and after which histories. */
module History {
  import opened Wrappers
  import opened Disk
  import opened Component
  import opened CrashSafety
  import opened Rollback

  // ---------- success ----------

  /** The version's own name can be freed for the new copy: it is free already, it is a file, or it
      leads to a directory that may be renamed to `.old`. A dangling link is never moved away. */
  predicate Room(d0: Entries, b: Name) {
    var s := Stat(d0, b);
    b in d0 ==> s.Some? && (s.value.Dir? ==> CanRename(d0, b, OldName(b)))
  }

  /** What the directories must look like for an upgrade with no failing calls to go through. */
  predicate Ready(src: Entries, d0: Entries, b: Name) {
    && CURRENT_TMP !in d0
    && b in src && src[b].Dir?
    && Room(d0, b)
    && (CURRENT in d0 ==> !d0[CURRENT].Dir?)
  }

  predicate SameEntry(d: Entries, d0: Entries, n: Name) {
    (n in d <==> n in d0) && (n in d ==> d[n] == d0[n])
  }

  ghost predicate Track(c: Call, l: Local, d: Entries, d0: Entries, b: Name) {
    && StackOk(l)
    && (l.pc.StatSrc? ==> l == START && d == d0)
    && (!l.pc.StatSrc? ==> l.version == b && b in c.src)
    && (l.pc in {StatDst, Remount, MakeLink} ==> d == d0)
    && (l.pc in {MakeTemp, CopyTree, StatOld, MoveOld, RemoveFile, Publish, Chmod, RemovePrev, CopyPrev, Swap} ==>
          CURRENT_TMP !in d0 && CURRENT_TMP in d && d[CURRENT_TMP] == Link(b) && l.outcome.Pending?)
    && (l.pc.MakeTemp? ==> d == d0[CURRENT_TMP := Link(b)])
    && (l.pc.CopyTree? ==> d == d0[CURRENT_TMP := Link(b)][c.temp := Dir(0x1C0, map[])])
    && (l.pc in {StatOld, MoveOld, RemoveFile} ==> c.src[b].Dir? && d == Staged(d0, b, c.temp, c.src[b]))
    && (l.pc.MoveOld? ==> Stat(d0, b).Some? && Stat(d0, b).value.Dir?)
    && (l.pc.RemoveFile? ==> Stat(d0, b).Some? && !Stat(d0, b).value.Dir?)
    && (l.pc.Publish? ==> c.src[b].Dir? && c.temp in d && d[c.temp].Dir? && (b !in d <==> Room(d0, b)))
    && (l.pc in {Chmod, RemovePrev, CopyPrev, Swap} ==> c.src[b].Dir? && b in d && Room(d0, b))
    && (l.pc in {Chmod, RemovePrev, CopyPrev, Swap} ==> d[b].Dir?)
    && (l.pc.CopyPrev? ==> PREVIOUS in d ==> d[PREVIOUS].Dir?)
    && (l.pc in {StatSrc, StatDst, Remount, MakeLink} ==> l.outcome.Pending?)
    && (l.pc in {UndoMove, RemoveTemp, RemoveLink, Done} ==>
          l.outcome == if Ready(c.src, d0, b) then Copied else Failed)
    && (l.outcome != Copied ==> SameEntry(d, d0, CURRENT))
    && (b in d0 && d0[b].Dir? && (l.pc in {Publish, Chmod, RemovePrev, CopyPrev, Swap} || l.outcome.Copied?) ==>
          OldName(b) in d && d[OldName(b)] == d0[b])
    && (l.outcome.Copied? ==> b in d && d[b].Dir? && CURRENT in d && d[CURRENT] == Link(b))
  }

  lemma TrackLookUp(c: Call, l: Local, d: Entries, d0: Entries, b: Name)
    requires Track(c, l, d, d0, b) && GoodCall(c) && c.fails == {}
    requires SourceVersion(c.src) == Some(b) && SourceVersion(d0) != Some(b)
    requires l.pc in {StatSrc, StatDst, Remount}
    ensures var s := Step(c, l, d); Track(c, s.0, s.1, d0, b)
  {
    SourceIsThere(c.src, StatVersion(c.src, CURRENT).value);
  }

  lemma TrackEarly(c: Call, l: Local, d: Entries, d0: Entries, b: Name)
    requires Track(c, l, d, d0, b) && GoodCall(c) && Fresh(d0, c.temp) && c.fails == {}
    requires SourceVersion(c.src) == Some(b)
    requires l.pc in {MakeLink, MakeTemp, CopyTree}
    ensures var s := Step(c, l, d); Track(c, s.0, s.1, d0, b)
  {
    NamesApart(c.temp, b);
    assert c.src[b].Dir? ==>
      d0[CURRENT_TMP := Link(b)][c.temp := Dir(0x1C0, map[])][c.temp := c.src[b]] == Staged(d0, b, c.temp, c.src[b]);
  }

  lemma TrackOld(c: Call, l: Local, d: Entries, d0: Entries, b: Name)
    requires Track(c, l, d, d0, b) && GoodCall(c) && Fresh(d0, c.temp) && c.fails == {}
    requires SourceVersion(c.src) == Some(b) && l.pc.StatOld?
    ensures var s := Step(c, l, d); Track(c, s.0, s.1, d0, b)
  {
    NamesApart(c.temp, b);
    StagedStat(d0, b, c.temp, c.src[b]);
  }

  lemma TrackMove(c: Call, l: Local, d: Entries, d0: Entries, b: Name)
    requires Track(c, l, d, d0, b) && GoodCall(c) && Fresh(d0, c.temp) && c.fails == {}
    requires SourceVersion(c.src) == Some(b) && l.pc in {MoveOld, RemoveFile}
    ensures var s := Step(c, l, d); Track(c, s.0, s.1, d0, b)
  {
    NamesApart(c.temp, b);
  }

  lemma TrackPublish(c: Call, l: Local, d: Entries, d0: Entries, b: Name)
    requires Track(c, l, d, d0, b) && GoodCall(c) && c.fails == {} && l.pc.Publish?
    requires SourceVersion(c.src) == Some(b)
    ensures var s := Step(c, l, d); Track(c, s.0, s.1, d0, b)
  {
    NamesApart(c.temp, b);
  }

  lemma TrackChmod(c: Call, l: Local, d: Entries, d0: Entries, b: Name)
    requires Track(c, l, d, d0, b) && GoodCall(c) && c.fails == {}
    requires SourceVersion(c.src) == Some(b)
    requires l.pc in {Chmod, RemovePrev}
    ensures var s := Step(c, l, d); Track(c, s.0, s.1, d0, b)
  {
    NamesApart(c.temp, b);
  }

  lemma TrackAliases(c: Call, l: Local, d: Entries, d0: Entries, b: Name)
    requires Track(c, l, d, d0, b) && GoodCall(c) && c.fails == {}
    requires SourceVersion(c.src) == Some(b)
    requires l.pc in {CopyPrev, Swap}
    ensures var s := Step(c, l, d); Track(c, s.0, s.1, d0, b)
  {
    NamesApart(c.temp, b);
  }

  lemma TrackCleanup(c: Call, l: Local, d: Entries, d0: Entries, b: Name)
    requires Track(c, l, d, d0, b) && GoodCall(c) && c.fails == {}
    requires SourceVersion(c.src) == Some(b)
    requires l.pc in {UndoMove, RemoveTemp, RemoveLink, Done}
    ensures var s := Step(c, l, d); Track(c, s.0, s.1, d0, b)
  {
    NamesApart(c.temp, b);
  }

  lemma {:induction false} RunTracked(c: Call, d0: Entries, b: Name, k: nat)
    requires GoodCall(c) && Fresh(d0, c.temp) && c.fails == {}
    requires SourceVersion(c.src) == Some(b) && SourceVersion(d0) != Some(b)
    ensures Track(c, At(c, d0, k).0, At(c, d0, k).1, d0, b)
  {
    if k > 0 {
      RunTracked(c, d0, b, k - 1);
      var (l, d) := At(c, d0, k - 1);
      match l.pc {
        case StatSrc | StatDst | Remount => TrackLookUp(c, l, d, d0, b);
        case MakeLink | MakeTemp | CopyTree => TrackEarly(c, l, d, d0, b);
        case StatOld => TrackOld(c, l, d, d0, b);
        case MoveOld | RemoveFile => TrackMove(c, l, d, d0, b);
        case Publish => TrackPublish(c, l, d, d0, b);
        case Chmod | RemovePrev => TrackChmod(c, l, d, d0, b);
        case CopyPrev | Swap => TrackAliases(c, l, d, d0, b);
        case _ => TrackCleanup(c, l, d, d0, b);
      }
    }
  }

  /** With no failing calls, an upgrade to another version succeeds if and only if the directories
      are ready for it; otherwise it fails, and `current` is what it was. */
  lemma SuccessExact(c: Call, d0: Entries, b: Name)
    requires GoodCall(c) && Fresh(d0, c.temp) && c.fails == {}
    requires SourceVersion(c.src) == Some(b) && SourceVersion(d0) != Some(b)
    ensures Result(c, d0) == (if Ready(c.src, d0, b) then Copied else Failed)
    ensures Result(c, d0).Failed? ==> SameEntry(After(c, d0), d0, CURRENT)
  {
    RunTracked(c, d0, b, LAST);
    RunEnds(c, d0, LAST);
  }

  // ---------- what success needs, whatever fails ----------

  predicate Working(pc: PC) { pc in {Chmod, RemovePrev, CopyPrev, Swap} }

  predicate CleaningPC(pc: PC) { pc in {UndoMove, RemoveTemp, RemoveLink, Done} }

  /** What an upgrade has found out about the directory it started in. */
  ghost predicate Probed(c: Call, l: Local, d: Entries, d0: Entries) {
    var b := l.version;
    && StackOk(l) && CurrentKept(c, l, d, d0)
    && (l.pc.StatSrc? ==> l == START && d == d0)
    && (!l.pc.StatSrc? && !l.pc.Done? ==> SourceVersion(c.src) == Some(b))
    && (l.pc in {StatDst, Remount, MakeLink} ==> d == d0)
    && (l.pc in {MakeTemp, CopyTree, StatOld, MoveOld, RemoveFile, Publish} || Working(l.pc) ==>
          CURRENT_TMP !in d0 && CURRENT_TMP in d && d[CURRENT_TMP] == Link(b))
    && (l.pc.MakeTemp? ==> d == d0[CURRENT_TMP := Link(b)])
    && (l.pc.CopyTree? ==> d == Staged(d0, b, c.temp, Dir(0x1C0, map[])))
    && (l.pc in {StatOld, MoveOld, RemoveFile, Publish} || Working(l.pc) ==> b in c.src && c.src[b].Dir?)
    && (l.pc in {StatOld, MoveOld, RemoveFile} ==> d == Staged(d0, b, c.temp, c.src[b]))
    && (l.pc.MoveOld? ==> Stat(d0, b).Some? && Stat(d0, b).value.Dir?)
    && (l.pc.RemoveFile? ==> Stat(d0, b).Some? && !Stat(d0, b).value.Dir?)
    && (l.pc.Publish? ==> c.temp in d && d[c.temp].Dir? && (b !in d ==> Room(d0, b)))
    && (Working(l.pc) ==> Room(d0, b)) && (l.pc.Chmod? ==> b in d && d[b].Dir?)
    && (l.outcome.Copied? ==> SourceVersion(c.src) == Some(b) && Ready(c.src, d0, b))
    && (l.outcome.Skipped? ==> SourceVersion(c.src) == Some(b) && SourceVersion(d0) == Some(b))
    && (l.outcome.Pending? <==> !CleaningPC(l.pc))
  }

  /** A `current` that is no link may be copied onto itself when `previous` could not be removed. */
  predicate MayTruncate(c: Call, d0: Entries) {
    {RemovePrev} <= c.fails && CURRENT in d0 && !d0[CURRENT].Link?
  }

  ghost predicate CurrentKept(c: Call, l: Local, d: Entries, d0: Entries) {
    && (!l.outcome.Copied? && !MayTruncate(c, d0) ==> SameEntry(d, d0, CURRENT))
    && (!l.outcome.Copied? ==> SameKind(d, d0, CURRENT))
    && (l.pc.CopyPrev? && RemovePrev !in c.fails && PREVIOUS in d ==> d[PREVIOUS].Dir?)
  }

  predicate SameKind(d: Entries, d0: Entries, n: Name) {
    (n in d <==> n in d0) && (n in d ==> (d[n].Dir? <==> d0[n].Dir?) && (d[n].Link? <==> d0[n].Link?))
  }

  lemma ProbedLookUp(c: Call, l: Local, d: Entries, d0: Entries)
    requires Probed(c, l, d, d0) && l.pc in {StatSrc, StatDst, Remount}
    ensures var s := Step(c, l, d); Probed(c, s.0, s.1, d0)
  {
  }

  lemma ProbedLink(c: Call, l: Local, d: Entries, d0: Entries)
    requires Probed(c, l, d, d0) && GoodCall(c) && Fresh(d0, c.temp) && l.pc in {MakeLink, MakeTemp}
    ensures var s := Step(c, l, d); Probed(c, s.0, s.1, d0)
  {
    NamesApart(c.temp, l.version);
  }

  lemma ProbedCopy(c: Call, l: Local, d: Entries, d0: Entries)
    requires Probed(c, l, d, d0) && GoodCall(c) && Fresh(d0, c.temp) && l.pc.CopyTree?
    ensures var s := Step(c, l, d); Probed(c, s.0, s.1, d0)
  {
    var b := l.version;
    NamesApart(c.temp, b);
    assert b in c.src ==>
      Staged(d0, b, c.temp, Dir(0x1C0, map[]))[c.temp := c.src[b]] == Staged(d0, b, c.temp, c.src[b]);
  }

  lemma ProbedOld(c: Call, l: Local, d: Entries, d0: Entries)
    requires Probed(c, l, d, d0) && GoodCall(c) && Fresh(d0, c.temp) && l.pc.StatOld?
    ensures var s := Step(c, l, d); Probed(c, s.0, s.1, d0)
  {
    NamesApart(c.temp, l.version);
    StagedStat(d0, l.version, c.temp, c.src[l.version]);
  }

  lemma ProbedMove(c: Call, l: Local, d: Entries, d0: Entries)
    requires Probed(c, l, d, d0) && GoodCall(c) && Fresh(d0, c.temp) && l.pc in {MoveOld, RemoveFile}
    ensures var s := Step(c, l, d); Probed(c, s.0, s.1, d0)
  {
    NamesApart(c.temp, l.version);
  }

  lemma ProbedChmod(c: Call, l: Local, d: Entries, d0: Entries)
    requires Probed(c, l, d, d0) && GoodCall(c) && l.pc.Chmod?
    ensures var s := Step(c, l, d); Probed(c, s.0, s.1, d0)
  {
    NamesApart(c.temp, l.version);
    assert Resolve(d, l.version) == Some(l.version);
  }

  lemma ProbedPublish(c: Call, l: Local, d: Entries, d0: Entries)
    requires Probed(c, l, d, d0) && GoodCall(c) && l.pc.Publish?
    ensures var s := Step(c, l, d); Probed(c, s.0, s.1, d0)
  {
    NamesApart(c.temp, l.version);
  }

  /** Rebuilding `previous` writes to no link, and to `current` only when that is no link itself and
      `previous` leads to it. */
  lemma CopyAliasKeeps(d: Entries)
    requires CURRENT_TMP in d && d[CURRENT_TMP].Link?
    ensures var e := CopyAlias(d, CURRENT, PREVIOUS).1;
      && SameKind(e, d, CURRENT) && SameEntry(e, d, CURRENT_TMP)
      && (SameEntry(e, d, CURRENT) ||
          (CURRENT in d && !d[CURRENT].Link? && PREVIOUS in d && d[PREVIOUS].Link?))
  {
  }

  lemma ProbedPrevious(c: Call, l: Local, d: Entries, d0: Entries)
    requires Probed(c, l, d, d0) && l.pc in {RemovePrev, CopyPrev}
    ensures var s := Step(c, l, d); Probed(c, s.0, s.1, d0)
  {
    CopyAliasKeeps(d);
  }

  lemma ProbedSwap(c: Call, l: Local, d: Entries, d0: Entries)
    requires Probed(c, l, d, d0) && GoodCall(c) && l.pc.Swap?
    ensures var s := Step(c, l, d); Probed(c, s.0, s.1, d0)
  {
    NamesApart(c.temp, l.version);
  }

  lemma ProbedCleanup(c: Call, l: Local, d: Entries, d0: Entries)
    requires Probed(c, l, d, d0) && GoodCall(c) && CleaningPC(l.pc)
    ensures var s := Step(c, l, d); Probed(c, s.0, s.1, d0)
  {
    if !l.pc.Done? {
      NamesApart(c.temp, l.version);
    }
  }

  lemma {:induction false} RunProbed(c: Call, d0: Entries, k: nat)
    requires GoodCall(c) && Fresh(d0, c.temp)
    ensures Probed(c, At(c, d0, k).0, At(c, d0, k).1, d0)
  {
    if k > 0 {
      RunProbed(c, d0, k - 1);
      var (l, d) := At(c, d0, k - 1);
      match l.pc {
        case StatSrc | StatDst | Remount => ProbedLookUp(c, l, d, d0);
        case MakeLink | MakeTemp => ProbedLink(c, l, d, d0);
        case CopyTree => ProbedCopy(c, l, d, d0);
        case StatOld => ProbedOld(c, l, d, d0);
        case MoveOld | RemoveFile => ProbedMove(c, l, d, d0);
        case Publish => ProbedPublish(c, l, d, d0);
        case Chmod => ProbedChmod(c, l, d, d0);
        case RemovePrev | CopyPrev => ProbedPrevious(c, l, d, d0);
        case Swap => ProbedSwap(c, l, d, d0);
        case UndoMove | RemoveTemp | RemoveLink | Done => ProbedCleanup(c, l, d, d0);
      }
    }
  }

  /** Whatever fails or does not, an upgrade only succeeds from directories that are ready for it. */
  lemma CopiedMeansReady(c: Call, d0: Entries)
    requires GoodCall(c) && Fresh(d0, c.temp)
    ensures Result(c, d0).Copied? ==> SourceVersion(c.src).Some? && Ready(c.src, d0, SourceVersion(c.src).value)
    ensures Result(c, d0).Skipped? ==> SourceVersion(c.src) == SourceVersion(d0)
    ensures !Result(c, d0).Pending?
    ensures !Result(c, d0).Copied? && !MayTruncate(c, d0) ==> SameEntry(After(c, d0), d0, CURRENT)
    ensures !Result(c, d0).Copied? ==> SameKind(After(c, d0), d0, CURRENT)
  {
    RunProbed(c, d0, LAST);
    RunEnds(c, d0, LAST);
  }

  // ---------- histories of whole and cut-short upgrades ----------

  datatype Run = Run(call: Call, steps: nat)

  /** The directory after a list of upgrades, each cut off after some calls or run to its end. */
  function Left(runs: seq<Run>, d: Entries): Entries {
    if runs == [] then d
    else var last := runs[|runs| - 1]; At(last.call, Left(runs[..|runs| - 1], d), last.steps).1
  }

  /** What upgrades leave behind: versions are directories, and the aliases they make are links. */
  ghost predicate Tidy(d: Entries) {
    && CURRENT in d && d[CURRENT].Link? && (CURRENT_TMP in d ==> d[CURRENT_TMP].Link?)
    && forall n <- d | !Reserved(n) :: d[n].Dir?
  }

  /** A failed copy leaves a directory in the temporary directory's place. */
  predicate TidyCall(c: Call) { GoodCall(c) && c.partial.Dir? }

  lemma StepTidies(c: Call, l: Local, d: Entries)
    requires Tidy(d) && TidyCall(c) && StackOk(l)
    requires l.pc.StatSrc? || l.pc.Done? || SourceVersion(c.src) == Some(l.version)
    ensures var s := Step(c, l, d);
            Tidy(s.1) && (s.0.pc.StatSrc? || s.0.pc.Done? || SourceVersion(c.src) == Some(s.0.version))
  {
    if !l.pc.StatSrc? && !l.pc.Done? {
      NamesApart(c.temp, l.version);
    }
  }

  lemma {:induction false} RunTidies(c: Call, d: Entries, k: nat)
    requires Tidy(d) && TidyCall(c)
    ensures Tidy(At(c, d, k).1)
    ensures var l := At(c, d, k).0; l.pc.StatSrc? || l.pc.Done? || SourceVersion(c.src) == Some(l.version)
  {
    if k > 0 {
      RunTidies(c, d, k - 1);
      RunStack(c, d, k - 1);
      StepTidies(c, At(c, d, k - 1).0, At(c, d, k - 1).1);
    }
  }

  /** Upgrades keep a directory tidy, whatever fails and wherever they are cut off. */
  lemma {:induction false} HistoryTidies(runs: seq<Run>, d: Entries)
    requires Tidy(d) && forall r <- runs :: TidyCall(r.call)
    ensures Tidy(Left(runs, d))
  {
    if runs != [] {
      var last := runs[|runs| - 1];
      HistoryTidies(runs[..|runs| - 1], d);
      RunTidies(last.call, Left(runs[..|runs| - 1], d), last.steps);
    }
  }

  /** After any history only two left-overs can stop an upgrade: the temporary link of an upgrade that
      was cut off, or the version together with its `.old` copy. */
  lemma SuccessAfterHistory(runs: seq<Run>, start: Entries, c: Call, b: Name)
    requires Tidy(start) && forall r <- runs :: TidyCall(r.call)
    requires GoodCall(c) && Fresh(Left(runs, start), c.temp) && c.fails == {}
    requires SourceVersion(c.src) == Some(b) && c.src[b].Dir? && SourceVersion(Left(runs, start)) != Some(b)
    ensures var d0 := Left(runs, start);
      && (Result(c, d0).Copied? <==> CURRENT_TMP !in d0 && !(b in d0 && OldName(b) in d0))
      && (!Result(c, d0).Copied? ==> Result(c, d0).Failed? && SameEntry(After(c, d0), d0, CURRENT))
  {
    var d0 := Left(runs, start);
    HistoryTidies(runs, start);
    SuccessExact(c, d0, b);
    assert b in d0 ==> Resolve(d0, b) == Some(b);
  }

  ghost predicate Stopped(l: Local, d: Entries, d0: Entries) {
    d == d0 && l.pc in {StatSrc, StatDst, Remount, MakeLink, Done} && l.deferred.Empty? && !l.outcome.Copied?
  }

  lemma {:induction false} LeftoverStops(c: Call, d0: Entries, k: nat)
    requires CURRENT_TMP in d0
    ensures Stopped(At(c, d0, k).0, At(c, d0, k).1, d0)
  {
    if k > 0 {
      LeftoverStops(c, d0, k - 1);
    }
  }

  /** Once an upgrade has been cut off with its temporary link in place, no later upgrade, whole or
      cut short, failing or not, copies anything or changes the directory. */
  lemma {:induction false} LeftoverBlocks(runs: seq<Run>, d: Entries)
    requires CURRENT_TMP in d
    ensures Left(runs, d) == d && forall r <- runs :: !At(r.call, d, r.steps).0.outcome.Copied?
  {
    if runs != [] {
      var init, last := runs[..|runs| - 1], runs[|runs| - 1];
      LeftoverBlocks(init, d);
      LeftoverStops(last.call, d, last.steps);
      assert runs == init + [last];
    }
  }

  // ---------- going back ----------

  /** A directory that is neither the upgrade's version nor its temporary directory. */
  ghost predicate Bystander(c: Call, l: Local, d: Entries, x: Name) {
    && x in d && d[x].Dir? && StackOk(l)
    && (l.pc.StatSrc? || l.pc.Done? || SourceVersion(c.src) == Some(l.version))
    && (l.pc.UndoMove? || l.deferred == MOVED ==> x != OldName(l.version))
  }

  lemma BystanderStays(c: Call, l: Local, d: Entries, x: Name)
    requires Bystander(c, l, d, x) && GoodCall(c) && !Reserved(x) && x != c.temp && SourceVersion(c.src) != Some(x)
    ensures var s := Step(c, l, d); Bystander(c, s.0, s.1, x)
  {
    if !l.pc.StatSrc? && !l.pc.Done? {
      NamesApart(c.temp, l.version);
      StepStack(c, l, d);
    }
  }

  lemma {:induction false} OthersStay(c: Call, d0: Entries, x: Name, k: nat)
    requires GoodCall(c) && Fresh(d0, c.temp) && x in d0 && d0[x].Dir? && !Reserved(x)
    requires SourceVersion(c.src) != Some(x)
    ensures Bystander(c, At(c, d0, k).0, At(c, d0, k).1, x)
  {
    if k > 0 {
      OthersStay(c, d0, x, k - 1);
      BystanderStays(c, At(c, d0, k - 1).0, At(c, d0, k - 1).1, x);
    }
  }

  /** After a version was copied over itself: it is live, and its former directory is still there. */
  lemma OverwritingLeavesOld(c: Call, d0: Entries, b: Name)
    requires GoodCall(c) && Fresh(d0, c.temp) && c.fails == {}
    requires SourceVersion(c.src) == Some(b) && SourceVersion(d0) != Some(b)
    requires Tidy(d0) && b in d0 && Result(c, d0).Copied?
    ensures var d := After(c, d0); b in d && Live(d, b, d[b]) && OldName(b) in d && d[OldName(b)].Dir?
    ensures !Reserved(OldName(b)) && OldName(b) != b
  {
    NamesApart(c.temp, b);
    RunTracked(c, d0, b, LAST);
  }

  lemma OtherBecomesLive(other: Call, d: Entries, b: Name, e: Name)
    requires GoodCall(other) && Fresh(d, other.temp) && b in d && Live(d, b, d[b]) && StatDst !in other.fails
    requires SourceVersion(other.src) == Some(e) && Result(other, d).Copied?
    ensures var d1 := After(other, d); e != b && e in d1 && d1[e].Dir? && SourceVersion(d1) == Some(e)
  {
    RunProbed(other, d, LAST);
    CopiedIsNew(other, d, b, d[b], LAST);
    CrashSafe(other, d, b, d[b], LAST);
    LiveIsFound(After(other, d), e, other.src[e]);
  }

  lemma NewStays(c: Call, l: Local, d: Entries, d0: Entries, a: Name, na: Node)
    requires Inv(c, l, d, d0, a, na) && (l.outcome.Copied? ==> l.version != a)
    ensures Step(c, l, d).0.outcome.Copied? ==> Step(c, l, d).0.version != a
  {
  }

  lemma {:induction false} CopiedIsNew(c: Call, d0: Entries, a: Name, na: Node, k: nat)
    requires Live(d0, a, na) && GoodCall(c) && StatDst !in c.fails
    ensures var l := At(c, d0, k).0; l.outcome.Copied? ==> l.version != a
  {
    if k > 0 {
      CopiedIsNew(c, d0, a, na, k - 1);
      RunKeeps(c, d0, a, na, k - 1);
      NewStays(c, At(c, d0, k - 1).0, At(c, d0, k - 1).1, d0, a, na);
    }
  }

  /** Copying a version over a directory of the same name leaves that directory behind as `.old`: the
      clean-up meant to move it back is refused. So once another upgrade has made another version
      current, no upgrade back to this version succeeds, whatever fails or does not. */
  lemma OverwritingBlocksReturn(c: Call, other: Call, later: Call, d0: Entries, b: Name, e: Name)
    requires GoodCall(c) && Fresh(d0, c.temp) && c.fails == {}
    requires SourceVersion(c.src) == Some(b) && SourceVersion(d0) != Some(b)
    requires Tidy(d0) && b in d0 && Result(c, d0).Copied?
    requires var d := After(c, d0);
      && GoodCall(other) && Fresh(d, other.temp) && StatDst !in other.fails
      && SourceVersion(other.src) == Some(e) && Result(other, d).Copied?
    requires var d1 := After(other, After(c, d0));
      GoodCall(later) && Fresh(d1, later.temp) && SourceVersion(later.src) == Some(b)
    ensures Result(later, After(other, After(c, d0))).Failed?
  {
    var d := After(c, d0);
    var d1 := After(other, d);
    OverwritingLeavesOld(c, d0, b);
    OtherBecomesLive(other, d, b, e);
    OthersStay(other, d, b, LAST);
    if e != OldName(b) {
      OthersStay(other, d, OldName(b), LAST);
    }
    assert Resolve(d1, b) == Some(b);
    assert !Room(d1, b);
    CopiedMeansReady(later, d1);
  }
}
