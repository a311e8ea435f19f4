/** What `current` and `previous` are after one upgrade and after many, whatever fails among the calls
    whose failure is reported. */
module Aliases {
  import opened Wrappers
  import opened Disk
  import opened Component
  import opened CrashSafety
  import opened Rollback
  import opened History

  /** The calls whose failure CopyComponent ignores or only logs, and on which the aliases depend. */
  predicate BestEffortWorks(c: Call) { {StatDst, RemovePrev, CopyPrev} !! c.fails }

  predicate PreviousRemovable(d: Entries) { PREVIOUS in d ==> !d[PREVIOUS].Dir? }

  predicate PreviousIs(d: Entries, v: Name) { PREVIOUS in d && d[PREVIOUS] == Link(v) }

  /** The run has attempted the swap within its first `k` calls. */
  ghost predicate Swapped(c: Call, d0: Entries, k: nat) {
    k > 0 && (At(c, d0, k - 1).0.pc.Swap? || Swapped(c, d0, k - 1))
  }

  /** `previous` on the way: as on entry, then gone, then the version found, which stays from the
      attempt to swap on. */
  ghost predicate Pairing(c: Call, l: Local, d: Entries, d0: Entries, a: Name, swapped: bool) {
    && (l.pc.CopyPrev? ==> PREVIOUS !in d)
    && (l.pc.Swap? || swapped ==> PreviousIs(d, a))
    && (l.pc !in {CopyPrev, Swap} && !swapped ==> SameEntry(d, d0, PREVIOUS))
    && (swapped ==> l.pc in {UndoMove, RemoveTemp, RemoveLink, Done} && l.outcome in {Copied, Failed})
    && (swapped ==> (l.outcome.Copied? <==> Swap !in c.fails))
    && (l.outcome.Copied? ==> swapped && l.version != a && Some(l.version) == SourceVersion(c.src))
    && (l.outcome.Skipped? ==> l.pc.Done? && d == d0)
    && (l.pc in {UndoMove, RemoveTemp, RemoveLink, Done} <==> !l.outcome.Pending?)
  }

  ghost predicate Paired(c: Call, l: Local, d: Entries, d0: Entries, a: Name, swapped: bool) {
    var s := Step(c, l, d); Pairing(c, s.0, s.1, d0, a, swapped)
  }

  lemma PairLookUp(c: Call, l: Local, d: Entries, d0: Entries, a: Name, na: Node)
    requires Pairing(c, l, d, d0, a, false) && Inv(c, l, d, d0, a, na) && l.pc in {StatSrc, StatDst, Remount}
    ensures Paired(c, l, d, d0, a, false)
  {
  }

  lemma PairStage(c: Call, l: Local, d: Entries, d0: Entries, a: Name, na: Node)
    requires Pairing(c, l, d, d0, a, false) && Inv(c, l, d, d0, a, na)
    requires l.pc in {MakeLink, MakeTemp, CopyTree, StatOld, MoveOld, RemoveFile, Publish}
    ensures Paired(c, l, d, d0, a, false)
  {
    NamesApart(c.temp, l.version);
  }

  lemma PairChmod(c: Call, l: Local, d: Entries, d0: Entries, a: Name, na: Node)
    requires Pairing(c, l, d, d0, a, false) && Inv(c, l, d, d0, a, na) && l.pc.Chmod?
    ensures Paired(c, l, d, d0, a, false)
  {
    NamesApart(c.temp, l.version);
    assert Resolve(d, l.version) == Some(l.version);
  }

  lemma PairPrevious(c: Call, l: Local, d: Entries, d0: Entries, a: Name, na: Node)
    requires Pairing(c, l, d, d0, a, false) && Inv(c, l, d, d0, a, na) && l.pc in {RemovePrev, CopyPrev}
    requires BestEffortWorks(c) && PreviousRemovable(d0)
    ensures Paired(c, l, d, d0, a, false)
  {
  }

  lemma PairSwap(c: Call, l: Local, d: Entries, d0: Entries, a: Name, na: Node)
    requires Pairing(c, l, d, d0, a, false) && Inv(c, l, d, d0, a, na) && l.pc.Swap?
    ensures Paired(c, l, d, d0, a, true)
  {
  }

  lemma PairCleanup(c: Call, l: Local, d: Entries, d0: Entries, a: Name, na: Node, swapped: bool)
    requires Pairing(c, l, d, d0, a, swapped) && Inv(c, l, d, d0, a, na)
    requires l.pc in {RemoveTemp, RemoveLink, Done}
    ensures Paired(c, l, d, d0, a, swapped)
  {
    if !l.pc.Done? {
      NamesApart(c.temp, l.version);
    }
  }

  lemma PairUndo(c: Call, l: Local, d: Entries, d0: Entries, a: Name, na: Node, swapped: bool)
    requires Pairing(c, l, d, d0, a, swapped) && Inv(c, l, d, d0, a, na) && l.pc.UndoMove?
    ensures Paired(c, l, d, d0, a, swapped)
  {
    NamesApart(c.temp, l.version);
  }

  lemma {:induction false} RunPairs(c: Call, d0: Entries, a: Name, na: Node, k: nat)
    requires Live(d0, a, na) && GoodCall(c) && BestEffortWorks(c) && PreviousRemovable(d0)
    ensures Pairing(c, At(c, d0, k).0, At(c, d0, k).1, d0, a, Swapped(c, d0, k))
  {
    if k > 0 {
      RunPairs(c, d0, a, na, k - 1);
      RunKeeps(c, d0, a, na, k - 1);
      var (l, d) := At(c, d0, k - 1);
      match l.pc {
        case StatSrc | StatDst | Remount => PairLookUp(c, l, d, d0, a, na);
        case MakeLink | MakeTemp | CopyTree | StatOld | MoveOld | RemoveFile | Publish => PairStage(c, l, d, d0, a, na);
        case Chmod => PairChmod(c, l, d, d0, a, na);
        case RemovePrev | CopyPrev => PairPrevious(c, l, d, d0, a, na);
        case Swap => PairSwap(c, l, d, d0, a, na);
        case UndoMove => PairUndo(c, l, d, d0, a, na, Swapped(c, d0, k - 1));
        case RemoveTemp | RemoveLink | Done => PairCleanup(c, l, d, d0, a, na, Swapped(c, d0, k - 1));
      }
    }
  }

  /** A failed upgrade that got as far as the swap. */
  ghost predicate SwapFails(c: Call, d0: Entries) { Result(c, d0).Failed? && Swapped(c, d0, LAST) }

  /** One completed upgrade: when it copies, `current` becomes the source's version and `previous`
      the one it found, and they differ; when it skips, nothing changes. When it fails, `current` is
      as before, and so is `previous`, unless it was the swap that failed: then it is `current`. */
  lemma OneUpgrade(c: Call, d0: Entries, a: Name, na: Node)
    requires Live(d0, a, na) && GoodCall(c) && BestEffortWorks(c) && PreviousRemovable(d0)
    ensures var d := After(c, d0);
      match Result(c, d0)
      case Copied =>
        && SourceVersion(c.src).Some? && var b := SourceVersion(c.src).value;
        && b != a && b in c.src && Live(d, b, c.src[b]) && PreviousIs(d, a)
      case Skipped => d == d0
      case Failed => Live(d, a, na) && if SwapFails(c, d0) then PreviousIs(d, a) else SameEntry(d, d0, PREVIOUS)
      case Pending => false
  {
    RunPairs(c, d0, a, na, LAST);
    RunKeeps(c, d0, a, na, LAST);
    RunEnds(c, d0, LAST);
  }

  // ---------- the failing swap ----------

  /** What must hold on entry for a run to get as far as the swap. */
  predicate Swappable(d0: Entries, a: Name, b: Name) { a != b && CURRENT_TMP !in d0 && Room(d0, b) }

  lemma {:induction false} SwapNeeds(c: Call, d0: Entries, a: Name, na: Node, b: Name, k: nat)
    requires Live(d0, a, na) && GoodCall(c) && Fresh(d0, c.temp) && StatDst !in c.fails
    requires SourceVersion(c.src) == Some(b) && Swapped(c, d0, k)
    ensures Swappable(d0, a, b)
  {
    if At(c, d0, k - 1).0.pc.Swap? {
      RunProbed(c, d0, k - 1);
      RunKeeps(c, d0, a, na, k - 1);
    } else {
      SwapNeeds(c, d0, a, na, b, k - 1);
    }
  }

  lemma {:induction false} SameUntilSwap(c: Call, sound: Call, d0: Entries, k: nat)
    requires c.fails == {Swap} && sound == c.(fails := {})
    ensures Swapped(c, d0, k) == Swapped(sound, d0, k)
    ensures !Swapped(c, d0, k) ==> At(c, d0, k) == At(sound, d0, k)
  {
    if k > 0 {
      SameUntilSwap(c, sound, d0, k - 1);
      var (l, d) := At(c, d0, k - 1);
      assert !l.pc.Swap? ==> Step(c, l, d) == Step(sound, l, d);
    }
  }

  /** A failing swap leaves `previous` at the version that is still current; what it named is lost. */
  lemma FailedSwapLosesPrevious(c: Call, d0: Entries, a: Name, na: Node, b: Name)
    requires Live(d0, a, na) && GoodCall(c) && Fresh(d0, c.temp) && PreviousRemovable(d0)
    requires SourceVersion(c.src) == Some(b) && c.src[b].Dir? && Swappable(d0, a, b) && c.fails == {Swap}
    ensures Result(c, d0).Failed? && Live(After(c, d0), a, na) && PreviousIs(After(c, d0), a)
  {
    var sound := c.(fails := {});
    LiveIsFound(d0, a, na);
    SuccessExact(sound, d0, b);
    RunPairs(sound, d0, a, na, LAST);
    SameUntilSwap(c, sound, d0, LAST);
    RunPairs(c, d0, a, na, LAST);
    OneUpgrade(c, d0, a, na);
  }

  ghost predicate FailuresKeepAliases(src: Entries, d0: Entries, temp: Name) {
    forall c: Call | c.src == src && c.temp == temp && BestEffortWorks(c) && Result(c, d0).Failed? ::
      SameEntry(After(c, d0), d0, CURRENT) && SameEntry(After(c, d0), d0, PREVIOUS)
  }

  /** Exactly when no failed upgrade changes an alias: the source offers the live version, or something
      in the directory stops every upgrade before its swap, or `previous` is `current` already. */
  lemma FailuresKeepAliasesExact(src: Entries, d0: Entries, temp: Name, a: Name, na: Node, b: Name)
    requires Live(d0, a, na) && PreviousRemovable(d0) && SourceVersion(src) == Some(b) && src[b].Dir?
    requires !Reserved(b) && IsTempName(temp, b) && Fresh(d0, temp)
    ensures FailuresKeepAliases(src, d0, temp) <==>
            a == b || CURRENT_TMP in d0 || !Room(d0, b) || PreviousIs(d0, a)
  {
    if Swappable(d0, a, b) && !PreviousIs(d0, a) {
      var c := Call(src, false, {Swap}, temp, Dir(0, map[]), map[]);
      FailedSwapLosesPrevious(c, d0, a, na, b);
    } else {
      forall c: Call | c.src == src && c.temp == temp && BestEffortWorks(c) && Result(c, d0).Failed?
        ensures SameEntry(After(c, d0), d0, CURRENT) && SameEntry(After(c, d0), d0, PREVIOUS)
      {
        OneUpgrade(c, d0, a, na);
        if SwapFails(c, d0) {
          SwapNeeds(c, d0, a, na, b, LAST);
        }
      }
    }
  }

  // ---------- many upgrades ----------

  /** The directory after a list of completed upgrades. */
  function Play(calls: seq<Call>, d: Entries): Entries {
    if calls == [] then d else After(calls[|calls| - 1], Play(calls[..|calls| - 1], d))
  }

  /** An upgrade that reports a copy adds its version. */
  function WithVersion(v: seq<Name>, c: Call, before: Entries): seq<Name> {
    var b := SourceVersion(c.src);
    v + (if Result(c, before).Copied? && b.Some? then [b.value] else [])
  }

  /** The version found at the start, then the version of every upgrade that reported a copy. */
  function Versions(calls: seq<Call>, d: Entries, a: Name): (v: seq<Name>)
    ensures |v| > 0
  {
    if calls == [] then [a]
    else
      var c, before := calls[|calls| - 1], Play(calls[..|calls| - 1], d);
      WithVersion(Versions(calls[..|calls| - 1], d, a), c, before)
  }

  ghost predicate StillFailed(failed: bool, c: Call, before: Entries) {
    !Result(c, before).Copied? && (failed || SwapFails(c, before))
  }

  /** A swap has failed since the last copy. */
  ghost predicate SwapFailed(calls: seq<Call>, d: Entries) {
    calls != [] &&
    StillFailed(SwapFailed(calls[..|calls| - 1], d), calls[|calls| - 1], Play(calls[..|calls| - 1], d))
  }

  /** `current` is the last version copied, with its directory, and `previous` the one before it,
      unless a swap has failed since: then it is `current`. No two versions in a row are the same. */
  ghost predicate Follows(v: seq<Name>, failed: bool, d: Entries, n: Node, d0: Entries, na: Node)
    requires |v| > 0
  {
    && Live(d, v[|v| - 1], n) && PreviousRemovable(d)
    && (if failed then PreviousIs(d, v[|v| - 1])
        else if |v| > 1 then PreviousIs(d, v[|v| - 2])
        else SameEntry(d, d0, PREVIOUS))
    && (|v| == 1 ==> n == na)
    && forall i :: 0 < i < |v| ==> v[i] != v[i - 1]
  }

  lemma FollowsOn(v: seq<Name>, failed: bool, d: Entries, n: Node, d0: Entries, na: Node, c: Call) returns (next: Node)
    requires |v| > 0 && Follows(v, failed, d, n, d0, na) && GoodCall(c) && BestEffortWorks(c)
    ensures Follows(WithVersion(v, c, d), StillFailed(failed, c, d), After(c, d), next, d0, na)
  {
    OneUpgrade(c, d, v[|v| - 1], n);
    next := if Result(c, d).Copied? then c.src[SourceVersion(c.src).value] else n;
    assert Result(c, d).Skipped? ==> !SwapFails(c, d);
  }

  /** After any list of upgrades, failing or not, the aliases follow the versions copied. */
  lemma {:induction false} AliasesFollowHistory(calls: seq<Call>, d0: Entries, a: Name, na: Node)
    requires Live(d0, a, na) && PreviousRemovable(d0)
    requires forall c <- calls :: GoodCall(c) && BestEffortWorks(c)
    ensures exists n :: Follows(Versions(calls, d0, a), SwapFailed(calls, d0), Play(calls, d0), n, d0, na)
  {
    if calls == [] {
      assert Follows(Versions(calls, d0, a), SwapFailed(calls, d0), Play(calls, d0), na, d0, na);
    } else {
      var init, c := calls[..|calls| - 1], calls[|calls| - 1];
      AliasesFollowHistory(init, d0, a, na);
      var v, d, failed := Versions(init, d0, a), Play(init, d0), SwapFailed(init, d0);
      var n :| Follows(v, failed, d, n, d0, na);
      var next := FollowsOn(v, failed, d, n, d0, na, c);
      assert Follows(Versions(calls, d0, a), SwapFailed(calls, d0), Play(calls, d0), next, d0, na);
    }
  }
}
