/** The upgrade of one component: a program counter over the component's directory, one system
    call a step, with the deferred clean-ups on a stack; and the procedure that takes those steps. */
module Component {
  import opened Wrappers
  import opened Disk

  const CURRENT: Name := "current"
  const PREVIOUS: Name := "previous"
  const CURRENT_TMP: Name := "current.tmp"

  function OldName(version: Name): Name { version + ".old" }

  // The calls of one upgrade, in program order; the last three are the deferred ones.
  datatype PC =
    | StatSrc | StatDst | Remount | MakeLink | MakeTemp | CopyTree | StatOld | MoveOld | RemoveFile
    | Publish | Chmod | RemovePrev | CopyPrev | Swap
    | UndoMove | RemoveTemp | RemoveLink | Done

  datatype Outcome = Pending | Copied | Skipped | Failed

  /** One call of CopyComponent together with everything the environment decides: which calls fail
      without a reason in the directory, the random name of the temporary directory, what a failed
      copy leaves in it, and what a failed recursive removal leaves. */
  datatype Call = Call(
    src: Entries, remount: bool,
    fails: set<PC>, temp: Name, partial: Node, remnant: Tree)

  // The clean-ups registered so far, the last one first.
  datatype Stack = Empty | Push(top: PC, below: Stack)

  datatype Local = Local(pc: PC, version: Name, mode: nat, deferred: Stack, outcome: Outcome)

  const START := Local(StatSrc, "", 0, Empty, Pending)

  datatype Info = Info(name: Name, mode: nat)

  /** The version directory an alias points to; the alias itself must be a link and must end,
      through any number of further links, at a directory. */
  function StatVersion(d: Entries, alias: Name): Option<Info> {
    var a := Stat(d, alias);
    if a.None? || !a.value.Dir? || !d[alias].Link? then None
    else
      var v := Stat(d, d[alias].target);
      if v.None? || !v.value.Dir? then None else Some(Info(d[alias].target, v.value.mode))
  }

  /** Return with an outcome: the deferred calls still to run are taken from the top of the stack. */
  function Unwind(l: Local, outcome: Outcome): Local {
    match l.deferred
    case Empty => l.(pc := Done, outcome := outcome)
    case Push(top, below) => l.(pc := top, deferred := below, outcome := outcome)
  }

  function Defer(l: Local, undo: PC, next: PC): Local {
    l.(pc := next, deferred := Push(undo, l.deferred))
  }

  function RemoveAll(c: Call, d: Entries, n: Name): Entries {
    if RemoveTemp !in c.fails then d - {n}
    else if n in d && d[n].Dir? then d[n := Dir(d[n].mode, c.remnant)]
    else d
  }

  function ChmodAt(d: Entries, n: Name, mode: nat): Entries {
    var r := Resolve(d, n);
    if r.Some? && d[r.value].Dir? then d[r.value := Dir(mode, d[r.value].tree)] else d
  }

  /** One system call. */
  function Step(c: Call, l: Local, d: Entries): (Local, Entries) {
    var ok := l.pc !in c.fails;
    match l.pc
    case StatSrc =>
      var info := StatVersion(c.src, CURRENT);
      if !ok || info.None? then (Unwind(l, Failed), d)
      else (l.(pc := StatDst, version := info.value.name, mode := info.value.mode), d)
    case StatDst =>
      var info := if ok then StatVersion(d, CURRENT) else None;
      if info.Some? && info.value.name == l.version then (Unwind(l, Skipped), d)
      else (l.(pc := if c.remount then Remount else MakeLink), d)
    case Remount =>
      if ok then (l.(pc := MakeLink), d) else (Unwind(l, Failed), d)
    case MakeLink =>
      if ok && CURRENT_TMP !in d then
        (Defer(l, RemoveLink, MakeTemp), d[CURRENT_TMP := Link(l.version)])
      else (Unwind(l, Failed), d)
    case MakeTemp =>
      if ok && c.temp !in d then (Defer(l, RemoveTemp, CopyTree), d[c.temp := Dir(0x1C0, map[])])
      else (Unwind(l, Failed), d)
    case CopyTree =>
      if l.version in c.src && c.src[l.version].Dir? then
        if ok then (l.(pc := StatOld), d[c.temp := c.src[l.version]])
        else (Unwind(l, Failed), d[c.temp := c.partial])
      else (Unwind(l, Failed), d)
    case StatOld =>
      var info := if ok then Stat(d, l.version) else None;
      (l.(pc := if info.None? then Publish else if info.value.Dir? then MoveOld else RemoveFile), d)
    case MoveOld =>
      if ok && CanRename(d, l.version, OldName(l.version)) then
        (Defer(l, UndoMove, Publish), Rename(d, l.version, OldName(l.version)))
      else (Unwind(l, Failed), d)
    case RemoveFile =>
      (l.(pc := Publish), if ok && CanRemove(d, l.version) then d - {l.version} else d)
    case Publish =>
      if ok && CanRename(d, c.temp, l.version) then (l.(pc := Chmod), Rename(d, c.temp, l.version))
      else (Unwind(l, Failed), d)
    case Chmod =>
      (l.(pc := RemovePrev), if ok then ChmodAt(d, l.version, l.mode) else d)
    case RemovePrev =>
      (l.(pc := CopyPrev), if ok && CanRemove(d, PREVIOUS) then d - {PREVIOUS} else d)
    case CopyPrev =>
      (l.(pc := Swap), if ok then CopyAlias(d, CURRENT, PREVIOUS).1 else d)
    case Swap =>
      if ok && CanRename(d, CURRENT_TMP, CURRENT) then (Unwind(l, Copied), Rename(d, CURRENT_TMP, CURRENT))
      else (Unwind(l, Failed), d)
    case UndoMove =>
      (Unwind(l, l.outcome),
       if ok && CanRename(d, OldName(l.version), l.version) then Rename(d, OldName(l.version), l.version) else d)
    case RemoveTemp =>
      (Unwind(l, l.outcome), RemoveAll(c, d, c.temp))
    case RemoveLink =>
      (Unwind(l, l.outcome), if ok && CanRemove(d, CURRENT_TMP) then d - {CURRENT_TMP} else d)
    case Done => (l, d)
  }

  /** Where the upgrade is, and what the directory holds, after `k` calls. */
  function At(c: Call, d: Entries, k: nat): (Local, Entries) {
    if k == 0 then (START, d)
    else var s := At(c, d, k - 1); Step(c, s.0, s.1)
  }

  // No run makes more calls than this.
  const LAST: nat := 17

  function Result(c: Call, d: Entries): Outcome { At(c, d, LAST).0.outcome }
  function After(c: Call, d: Entries): Entries { At(c, d, LAST).1 }

  /** The directories after each of the first `k` calls. */
  function Trace(c: Call, d: Entries, k: nat): (t: seq<Entries>)
    ensures |t| == k
  {
    if k == 0 then [] else Trace(c, d, k - 1) + [At(c, d, k).1]
  }

  lemma {:induction false} TraceAt(c: Call, d: Entries, k: nat, i: nat)
    requires i < k
    ensures Trace(c, d, k)[i] == At(c, d, i + 1).1
  {
    if i < k - 1 {
      TraceAt(c, d, k - 1, i);
    }
  }

  // ---------- every run ends ----------

  function Rank(pc: PC): nat {
    match pc
    case StatSrc => 17 case StatDst => 16 case Remount => 15 case MakeLink => 14 case MakeTemp => 13
    case CopyTree => 12 case StatOld => 11 case MoveOld => 10 case RemoveFile => 10 case Publish => 9
    case Chmod => 8 case RemovePrev => 7 case CopyPrev => 6 case Swap => 5
    case UndoMove => 4 case RemoveTemp => 3 case RemoveLink => 2 case Done => 0
  }

  const LINKED := Push(RemoveLink, Empty)
  const STAGED := Push(RemoveTemp, LINKED)
  const MOVED := Push(UndoMove, STAGED)

  /** The stack holds the clean-ups of the calls made so far, in the order they were made. */
  ghost predicate StackOk(l: Local) {
    match l.pc
    case StatSrc | StatDst | Remount | MakeLink | Done => l.deferred == Empty
    case MakeTemp => l.deferred == LINKED
    case CopyTree | StatOld | MoveOld | RemoveFile => l.deferred == STAGED
    case Publish | Chmod | RemovePrev | CopyPrev | Swap => l.deferred == STAGED || l.deferred == MOVED
    case UndoMove => l.deferred == STAGED
    case RemoveTemp => l.deferred == LINKED
    case RemoveLink => l.deferred == Empty
  }

  /** The next call comes later in the program, and the stack fits it. */
  ghost predicate Goes(c: Call, l: Local, d: Entries) {
    var next := Step(c, l, d).0; StackOk(next) && Rank(next.pc) < Rank(l.pc)
  }

  lemma EarlyGoes(c: Call, l: Local, d: Entries)
    requires StackOk(l) && l.pc in {StatSrc, StatDst, Remount, MakeLink, MakeTemp, CopyTree}
    ensures Goes(c, l, d)
  {
  }

  lemma MiddleGoes(c: Call, l: Local, d: Entries)
    requires StackOk(l) && l.pc in {StatOld, MoveOld, RemoveFile, Publish, Chmod}
    ensures Goes(c, l, d)
  {
  }

  lemma LateGoes(c: Call, l: Local, d: Entries)
    requires StackOk(l) && l.pc in {RemovePrev, CopyPrev, Swap, UndoMove, RemoveTemp, RemoveLink}
    ensures Goes(c, l, d)
  {
  }

  lemma StepStack(c: Call, l: Local, d: Entries)
    requires StackOk(l)
    ensures StackOk(Step(c, l, d).0)
    ensures if l.pc.Done? then Step(c, l, d) == (l, d) else Rank(Step(c, l, d).0.pc) < Rank(l.pc)
  {
    match l.pc {
      case StatSrc | StatDst | Remount | MakeLink | MakeTemp | CopyTree => EarlyGoes(c, l, d);
      case StatOld | MoveOld | RemoveFile | Publish | Chmod => MiddleGoes(c, l, d);
      case RemovePrev | CopyPrev | Swap | UndoMove | RemoveTemp | RemoveLink => LateGoes(c, l, d);
      case Done =>
    }
  }

  lemma {:induction false} RunStack(c: Call, d: Entries, k: nat)
    ensures StackOk(At(c, d, k).0)
    ensures At(c, d, k).0.pc.Done? || Rank(At(c, d, k).0.pc) + k <= 17
  {
    if k > 0 {
      RunStack(c, d, k - 1);
      var s := At(c, d, k - 1);
      StepStack(c, s.0, s.1);
    }
  }

  /** Whatever fails, the upgrade returns, and nothing happens afterwards. */
  lemma {:induction false} RunEnds(c: Call, d: Entries, k: nat)
    requires LAST <= k || At(c, d, k).0.pc.Done?
    ensures At(c, d, k).0.pc.Done?
    ensures At(c, d, k) == At(c, d, LAST)
    decreases if k < LAST then LAST - k else k - LAST
  {
    RunStack(c, d, k);
    if k < LAST {
      StepStack(c, At(c, d, k).0, At(c, d, k).1);
      RunEnds(c, d, k + 1);
    } else if k > LAST {
      RunEnds(c, d, k - 1);
      StepStack(c, At(c, d, k - 1).0, At(c, d, k - 1).1);
    }
  }

  // ---------- before the first change ----------

  /** The two look-ups work and find different versions, so there is something to copy. */
  predicate Differs(c: Call, d: Entries) {
    && StatSrc !in c.fails && StatVersion(c.src, CURRENT).Some?
    && (StatDst !in c.fails && StatVersion(d, CURRENT).Some? ==>
          StatVersion(d, CURRENT).value.name != StatVersion(c.src, CURRENT).value.name)
  }

  lemma FirstSteps(c: Call, d: Entries)
    ensures At(c, d, 1).1 == At(c, d, 2).1 == d
    ensures if Differs(c, d) then At(c, d, 2).0.pc == (if c.remount then Remount else MakeLink)
                             else At(c, d, 2).0.pc.Done?
    ensures Differs(c, d) ==> At(c, d, 2).0.outcome.Pending? && At(c, d, 2).0.deferred == Empty
    ensures !Differs(c, d) ==> (At(c, d, 2).0.outcome ==
      if StatSrc in c.fails || StatVersion(c.src, CURRENT).None? then Failed else Skipped)
  {
    var (l, e) := At(c, d, 1);
    assert At(c, d, 0) == (START, d);
    assert (l, e) == Step(c, START, d);
    assert At(c, d, 2) == Step(c, l, e);
  }

  lemma {:induction false} NoLongerSkips(c: Call, d: Entries, k: nat)
    requires Differs(c, d) && k >= 2
    ensures !At(c, d, k).0.outcome.Skipped? && !At(c, d, k).0.pc.StatSrc? && !At(c, d, k).0.pc.StatDst?
    ensures At(c, d, k).0.pc.Remount? ==> k == 2 && c.remount
  {
    FirstSteps(c, d);
    if k > 2 {
      NoLongerSkips(c, d, k - 1);
      RunStack(c, d, k - 1);
      var (l, e) := At(c, d, k - 1);
      StepStack(c, l, e);
      assert Rank(l.pc) <= 15;
      StaysUnskipped(c, l, e);
    }
  }

  lemma StaysUnskipped(c: Call, l: Local, d: Entries)
    requires StackOk(l) && !l.outcome.Skipped? && !l.pc.StatDst?
    ensures !Step(c, l, d).0.outcome.Skipped?
  {
  }

  /** An upgrade is skipped exactly when both look-ups work and find the same version; then, and when
      the source has none, the directory stays as it is. */
  lemma SkippedExact(c: Call, d: Entries, k: nat)
    ensures Result(c, d).Skipped? <==>
      && StatSrc !in c.fails && StatDst !in c.fails
      && StatVersion(c.src, CURRENT).Some? && StatVersion(d, CURRENT).Some?
      && StatVersion(c.src, CURRENT).value.name == StatVersion(d, CURRENT).value.name
    ensures Result(c, d).Skipped? || StatSrc in c.fails || StatVersion(c.src, CURRENT).None? ==> At(c, d, k).1 == d
  {
    FirstSteps(c, d);
    if Differs(c, d) {
      NoLongerSkips(c, d, LAST);
    } else {
      RunEnds(c, d, 2);
      if k > 2 {
        StaysDone(c, d, 2, k);
      }
    }
  }

  lemma {:induction false} StaysDone(c: Call, d: Entries, j: nat, k: nat)
    requires At(c, d, j).0.pc.Done? && j <= k
    ensures At(c, d, k) == At(c, d, j)
  {
    if j < k {
      StaysDone(c, d, j, k - 1);
    }
  }

  /** When the remount is asked for, nothing changes before that call, the third, has been made and has
      succeeded; when it fails, nothing ever changes and the upgrade reports the failure. When it is not
      asked for, or there is nothing to copy, it is not made. */
  lemma RemountFirst(c: Call, d: Entries, k: nat)
    ensures At(c, d, k).0.pc.Remount? <==> k == 2 && c.remount && Differs(c, d)
    ensures c.remount && At(c, d, k).1 != d ==> k > 2 && At(c, d, 2).0.pc.Remount? && Remount !in c.fails
    ensures c.remount && Remount in c.fails && Differs(c, d) ==> Result(c, d).Failed? && After(c, d) == d
  {
    FirstSteps(c, d);
    assert At(c, d, 0) == (START, d);
    if Differs(c, d) {
      if k >= 2 {
        NoLongerSkips(c, d, k);
      }
      if c.remount && Remount in c.fails {
        assert At(c, d, 3) == Step(c, At(c, d, 2).0, d);
        RunEnds(c, d, 3);
        if k >= 3 {
          StaysDone(c, d, 3, k);
        }
      }
    } else if k > 2 {
      StaysDone(c, d, 2, k);
    }
  }

  // ---------- the procedure ----------

  /** The procedure has made `n` calls since the directory held `d0` and its history was `h0`. */
  ghost predicate Tracks(c: Call, d0: Entries, h0: seq<Entries>, n: nat, l: Local, d: Entries, h: seq<Entries>) {
    At(c, d0, n) == (l, d) && h == h0 + Trace(c, d0, n)
  }

  lemma Advance(c: Call, d0: Entries, h0: seq<Entries>, n: nat, l: Local, d: Entries, h: seq<Entries>,
                l': Local, d': Entries)
    requires Tracks(c, d0, h0, n, l, d, h) && Step(c, l, d) == (l', d')
    ensures Tracks(c, d0, h0, n + 1, l', d', h + [d'])
  {
    assert h0 + Trace(c, d0, n + 1) == (h0 + Trace(c, d0, n)) + [At(c, d0, n + 1).1];
  }

  /** Run the deferred calls, last registered first. */
  method RunDeferred(dst: Directory, c: Call, version: Name, stack: Stack, outcome: Outcome,
                     ghost l: Local, ghost d0: Entries, ghost h0: seq<Entries>, ghost k: nat)
    returns (ghost n: nat)
    requires stack in {Empty, LINKED, STAGED, MOVED}
    requires l.version == version && l.deferred == stack
    requires Tracks(c, d0, h0, k, Unwind(l, outcome), dst.entries, dst.history)
    modifies dst
    ensures At(c, d0, n).0.pc.Done?
    ensures outcome == Result(c, d0) && dst.entries == After(c, d0)
    ensures dst.history == h0 + Trace(c, d0, n)
  {
    n := k;
    var rest := stack;
    while rest.Push?
      invariant rest in {Empty, LINKED, STAGED, MOVED}
      invariant Tracks(c, d0, h0, n, Unwind(l.(deferred := rest), outcome), dst.entries, dst.history)
      decreases rest
    {
      ghost var now, d, h := Unwind(l.(deferred := rest), outcome), dst.entries, dst.history;
      var top := rest.top;
      rest := rest.below;
      match top {
        case UndoMove =>
          var _ := dst.Move(OldName(version), version, UndoMove in c.fails);
        case RemoveTemp =>
          dst.Commit(RemoveAll(c, dst.entries, c.temp));
        case RemoveLink =>
          var _ := dst.Delete(CURRENT_TMP, RemoveLink in c.fails);
      }
      Advance(c, d0, h0, n, now, d, h, Unwind(l.(deferred := rest), outcome), dst.entries);
      n := n + 1;
    }
    RunEnds(c, d0, n);
  }

  /** CopyComponent up to the first call that changes the directory: look up both versions, stop
      when they agree, and make the directory writable when asked to. */
  method CopyComponent(dst: Directory, c: Call) returns (outcome: Outcome, ghost n: nat)
    modifies dst
    ensures At(c, old(dst.entries), n).0.pc.Done?
    ensures outcome == Result(c, old(dst.entries))
    ensures dst.entries == After(c, old(dst.entries))
    ensures dst.history == old(dst.history) + Trace(c, old(dst.entries), n)
  {
    ghost var d0, h0, d, h := dst.entries, dst.history, dst.entries, dst.history;
    var srcInfo := if StatSrc in c.fails then None else StatVersion(c.src, CURRENT);
    dst.Commit(dst.entries);
    if srcInfo.None? {
      Advance(c, d0, h0, 0, START, d, h, Unwind(START, Failed), d);
      n := RunDeferred(dst, c, "", Empty, Failed, START, d0, h0, 1);
      return Failed, n;
    }
    var version, mode := srcInfo.value.name, srcInfo.value.mode;
    ghost var l := Local(StatDst, version, mode, Empty, Pending);
    Advance(c, d0, h0, 0, START, d, h, l, d);

    h := dst.history;
    var dstInfo := if StatDst in c.fails then None else StatVersion(dst.entries, CURRENT);
    dst.Commit(dst.entries);
    if dstInfo.Some? && dstInfo.value.name == version {
      Advance(c, d0, h0, 1, l, d, h, Unwind(l, Skipped), d);
      n := RunDeferred(dst, c, version, Empty, Skipped, l, d0, h0, 2);
      return Skipped, n;
    }
    Advance(c, d0, h0, 1, l, d, h, l.(pc := if c.remount then Remount else MakeLink), d);

    ghost var k := 2;
    if c.remount {
      h := dst.history;
      dst.Commit(dst.entries);
      if Remount in c.fails {
        Advance(c, d0, h0, k, l.(pc := Remount), d, h, Unwind(l, Failed), d);
        n := RunDeferred(dst, c, version, Empty, Failed, l, d0, h0, k + 1);
        return Failed, n;
      }
      Advance(c, d0, h0, k, l.(pc := Remount), d, h, l.(pc := MakeLink), d);
      k := k + 1;
    }
    outcome, n := Stage(dst, c, version, mode, d0, h0, k);
  }

  /** The temporary link, the temporary directory and the copy into it. */
  method Stage(dst: Directory, c: Call, version: Name, mode: nat,
               ghost d0: Entries, ghost h0: seq<Entries>, ghost k: nat)
    returns (outcome: Outcome, ghost n: nat)
    requires Tracks(c, d0, h0, k, Local(MakeLink, version, mode, Empty, Pending), dst.entries, dst.history)
    modifies dst
    ensures At(c, d0, n).0.pc.Done?
    ensures outcome == Result(c, d0) && dst.entries == After(c, d0)
    ensures dst.history == h0 + Trace(c, d0, n)
  {
    ghost var l, d, h := Local(MakeLink, version, mode, Empty, Pending), dst.entries, dst.history;
    var ok := dst.Symlink(version, CURRENT_TMP, MakeLink in c.fails);
    if !ok {
      Advance(c, d0, h0, k, l, d, h, Unwind(l, Failed), dst.entries);
      n := RunDeferred(dst, c, version, Empty, Failed, l, d0, h0, k + 1);
      return Failed, n;
    }
    ghost var l' := Local(MakeTemp, version, mode, LINKED, Pending);
    Advance(c, d0, h0, k, l, d, h, l', dst.entries);

    d, h, l := dst.entries, dst.history, l';
    ok := dst.Mkdir(c.temp, 0x1C0, MakeTemp in c.fails);
    if !ok {
      Advance(c, d0, h0, k + 1, l, d, h, Unwind(l, Failed), dst.entries);
      n := RunDeferred(dst, c, version, LINKED, Failed, l, d0, h0, k + 2);
      return Failed, n;
    }
    l' := Local(CopyTree, version, mode, STAGED, Pending);
    Advance(c, d0, h0, k + 1, l, d, h, l', dst.entries);

    d, h, l := dst.entries, dst.history, l';
    var copyable := version in c.src && c.src[version].Dir?;
    dst.Commit(if !copyable then dst.entries
               else dst.entries[c.temp := if CopyTree in c.fails then c.partial else c.src[version]]);
    if !copyable || CopyTree in c.fails {
      Advance(c, d0, h0, k + 2, l, d, h, Unwind(l, Failed), dst.entries);
      n := RunDeferred(dst, c, version, STAGED, Failed, l, d0, h0, k + 3);
      return Failed, n;
    }
    Advance(c, d0, h0, k + 2, l, d, h, l.(pc := StatOld), dst.entries);
    outcome, n := MoveAside(dst, c, version, mode, d0, h0, k + 3);
  }

  /** An existing version of the same name is moved out of the way. */
  method MoveAside(dst: Directory, c: Call, version: Name, mode: nat,
                   ghost d0: Entries, ghost h0: seq<Entries>, ghost k: nat)
    returns (outcome: Outcome, ghost n: nat)
    requires Tracks(c, d0, h0, k, Local(StatOld, version, mode, STAGED, Pending), dst.entries, dst.history)
    modifies dst
    ensures At(c, d0, n).0.pc.Done?
    ensures outcome == Result(c, d0) && dst.entries == After(c, d0)
    ensures dst.history == h0 + Trace(c, d0, n)
  {
    ghost var l, d, h := Local(StatOld, version, mode, STAGED, Pending), dst.entries, dst.history;
    var existing := if StatOld in c.fails then None else Stat(dst.entries, version);
    dst.Commit(dst.entries);
    if existing.None? {
      Advance(c, d0, h0, k, l, d, h, l.(pc := Publish), d);
      outcome, n := Activate(dst, c, version, mode, STAGED, d0, h0, k + 1);
      return;
    }
    ghost var l' := l.(pc := if existing.value.Dir? then MoveOld else RemoveFile);
    Advance(c, d0, h0, k, l, d, h, l', d);

    l, h := l', dst.history;
    if !existing.value.Dir? {
      var _ := dst.Delete(version, RemoveFile in c.fails);
      Advance(c, d0, h0, k + 1, l, d, h, l.(pc := Publish), dst.entries);
      outcome, n := Activate(dst, c, version, mode, STAGED, d0, h0, k + 2);
      return;
    }
    var ok := dst.Move(version, OldName(version), MoveOld in c.fails);
    if !ok {
      Advance(c, d0, h0, k + 1, l, d, h, Unwind(l, Failed), dst.entries);
      n := RunDeferred(dst, c, version, STAGED, Failed, l, d0, h0, k + 2);
      return Failed, n;
    }
    Advance(c, d0, h0, k + 1, l, d, h, l.(pc := Publish, deferred := MOVED), dst.entries);
    outcome, n := Activate(dst, c, version, mode, MOVED, d0, h0, k + 2);
  }

  /** The rename that publishes the copy under its own name. */
  method Activate(dst: Directory, c: Call, version: Name, mode: nat, deferred: Stack,
                  ghost d0: Entries, ghost h0: seq<Entries>, ghost k: nat)
    returns (outcome: Outcome, ghost n: nat)
    requires deferred == STAGED || deferred == MOVED
    requires Tracks(c, d0, h0, k, Local(Publish, version, mode, deferred, Pending), dst.entries, dst.history)
    modifies dst
    ensures At(c, d0, n).0.pc.Done?
    ensures outcome == Result(c, d0) && dst.entries == After(c, d0)
    ensures dst.history == h0 + Trace(c, d0, n)
  {
    ghost var l, d, h := Local(Publish, version, mode, deferred, Pending), dst.entries, dst.history;
    var ok := dst.Move(c.temp, version, Publish in c.fails);
    if !ok {
      Advance(c, d0, h0, k, l, d, h, Unwind(l, Failed), dst.entries);
      n := RunDeferred(dst, c, version, deferred, Failed, l, d0, h0, k + 1);
      return Failed, n;
    }
    Advance(c, d0, h0, k, l, d, h, l.(pc := Chmod), dst.entries);

    d, h := dst.entries, dst.history;
    dst.Commit(if Chmod in c.fails then dst.entries else ChmodAt(dst.entries, version, mode));
    Advance(c, d0, h0, k + 1, l.(pc := Chmod), d, h, l.(pc := RemovePrev), dst.entries);

    outcome, n := SwitchAliases(dst, c, version, mode, deferred, d0, h0, k + 2);
  }

  /** `previous` is rebuilt from `current`, and `current` is replaced by the temporary link. */
  method SwitchAliases(dst: Directory, c: Call, version: Name, mode: nat, deferred: Stack,
                       ghost d0: Entries, ghost h0: seq<Entries>, ghost k: nat)
    returns (outcome: Outcome, ghost n: nat)
    requires deferred == STAGED || deferred == MOVED
    requires Tracks(c, d0, h0, k, Local(RemovePrev, version, mode, deferred, Pending), dst.entries, dst.history)
    modifies dst
    ensures At(c, d0, n).0.pc.Done?
    ensures outcome == Result(c, d0) && dst.entries == After(c, d0)
    ensures dst.history == h0 + Trace(c, d0, n)
  {
    ghost var l, d, h := Local(RemovePrev, version, mode, deferred, Pending), dst.entries, dst.history;
    var _ := dst.Delete(PREVIOUS, RemovePrev in c.fails);
    Advance(c, d0, h0, k, l, d, h, l.(pc := CopyPrev), dst.entries);

    d, h := dst.entries, dst.history;
    dst.Commit(if CopyPrev in c.fails then dst.entries else CopyAlias(dst.entries, CURRENT, PREVIOUS).1);
    Advance(c, d0, h0, k + 1, l.(pc := CopyPrev), d, h, l.(pc := Swap), dst.entries);

    d, h := dst.entries, dst.history;
    var ok := dst.Move(CURRENT_TMP, CURRENT, Swap in c.fails);
    outcome := if ok then Copied else Failed;
    Advance(c, d0, h0, k + 2, l.(pc := Swap), d, h, Unwind(l, outcome), dst.entries);
    n := RunDeferred(dst, c, version, deferred, outcome, l, d0, h0, k + 3);
  }
}
