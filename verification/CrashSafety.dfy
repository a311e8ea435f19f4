/** What `current` points at while an upgrade runs, whatever fails and wherever it is cut off. */
module CrashSafety {
  import opened Wrappers
  import opened Disk
  import opened Component

  predicate Reserved(n: Name) { n == CURRENT || n == PREVIOUS || n == CURRENT_TMP }

  /** ioutil.TempDir appends digits to the version. */
  predicate IsTempName(temp: Name, version: Name) {
    && |version| < |temp| && temp[..|version|] == version
    && forall i :: |version| <= i < |temp| ==> '0' <= temp[i] <= '9'
  }

  function SourceVersion(src: Entries): Option<Name> {
    var info := StatVersion(src, CURRENT);
    if info.None? then None else Some(info.value.name)
  }

  /** Facts about the environment: version names are never alias names, and the temporary name has
      the shape the library gives it. */
  predicate GoodCall(c: Call) {
    var v := SourceVersion(c.src);
    v.Some? ==> !Reserved(v.value) && IsTempName(c.temp, v.value)
  }

  /** `current` names the directory `v`, and that directory is exactly `n`. */
  predicate Live(d: Entries, v: Name, n: Node) {
    && CURRENT in d && d[CURRENT] == Link(v)
    && v in d && d[v] == n && n.Dir? && v != PREVIOUS
  }

  /** The promise: the version found on entry, untouched, or the source's version, complete. */
  predicate Safe(c: Call, d: Entries, a: Name, na: Node) {
    || Live(d, a, na)
    || (var b := SourceVersion(c.src); b.Some? && b.value in c.src && Live(d, b.value, c.src[b.value]))
  }

  lemma NamesApart(temp: Name, version: Name)
    requires !Reserved(version) && IsTempName(temp, version)
    ensures temp != version && temp != OldName(version) && !Reserved(temp)
    ensures OldName(version) != version && !Reserved(OldName(version))
  {
    assert temp[|temp| - 1] <= '9';
    assert OldName(version)[|version|] == '.';
    assert OldName(version)[|OldName(version)| - 1] == 'd';
  }

  lemma LiveIsFound(d: Entries, a: Name, na: Node)
    requires Live(d, a, na)
    ensures StatVersion(d, CURRENT) == Some(Info(a, na.mode))
  {
    assert Resolve(d, a, MAX_LINKS - 1) == Some(a);
    assert Resolve(d, a) == Some(a);
  }

  /** What stops the upgrade from moving the live version away when it fails to recognise it. */
  predicate Shielded(d0: Entries, a: Name, b: Name) {
    a != b || CURRENT_TMP in d0 || OldName(b) in d0
  }

  ghost predicate Inv(c: Call, l: Local, d: Entries, d0: Entries, a: Name, na: Node) {
    && StackOk(l) && Live(d0, a, na) && GoodCall(c)
    && (l.pc.StatSrc? ==> d == d0 && l == START)
    && (l.pc in {StatDst, Remount, MakeLink} ==> d == d0)
    && (l.outcome == Copied ==> l.pc in {UndoMove, RemoveTemp, RemoveLink, Done})
    && if l.pc.StatSrc? then Live(d, a, na)
       else if SourceVersion(c.src) != Some(l.version) then l.pc.Done? && l.outcome != Copied && Live(d, a, na)
       else InvBody(c, l, d, d0, a, na)
  }

  ghost predicate InvBody(c: Call, l: Local, d: Entries, d0: Entries, a: Name, na: Node) {
    var b := l.version;
    var linked := l.pc in {MakeTemp, RemoveLink} || l.deferred.Push?;
    var staged := l.pc in {CopyTree, RemoveTemp} || l.deferred in {STAGED, MOVED};
    var moved := l.pc.UndoMove? || l.deferred == MOVED;
    && b in c.src && (!l.pc.Done? && c.src[b].Dir? ==> l.mode == c.src[b].mode)
    && (l.outcome != Copied ==> Live(d, a, na))
    && (l.outcome == Copied ==> Live(d, b, c.src[b]))
    && (linked ==> a != CURRENT_TMP)
    && (staged ==> a != c.temp)
    && (moved ==> a != OldName(b) && a != b)
    && (l.pc.RemoveFile? ==> a != b)
    && (l.pc in {MakeTemp, CopyTree, StatOld, MoveOld, RemoveFile, Publish, Chmod, RemovePrev, CopyPrev, Swap} ==>
          CURRENT_TMP in d && d[CURRENT_TMP] == Link(b))
    && (l.pc in {StatOld, MoveOld, RemoveFile, Publish} ==>
          c.temp in d && c.src[b].Dir? && d[c.temp] == c.src[b])
    && (l.pc in {Chmod, RemovePrev, CopyPrev, Swap} ==>
          a != b && b in d && c.src[b].Dir? && d[b] == c.src[b])
    && (a == b && l.pc in {MakeTemp, CopyTree, StatOld, MoveOld} ==> CURRENT_TMP !in d0)
    && (a == b && OldName(b) in d0 && l.pc in {MakeLink, MakeTemp, CopyTree, StatOld, MoveOld} ==> OldName(b) in d)
    && (a == b && l.pc in {Remount, MakeLink, MakeTemp, CopyTree, StatOld, MoveOld} ==> StatDst in c.fails)
  }

  lemma SourceIsThere(src: Entries, info: Info)
    requires StatVersion(src, CURRENT) == Some(info)
    ensures info.name in src && (src[info.name].Dir? ==> info.mode == src[info.name].mode)
  {
  }

  ghost predicate Kept(c: Call, l: Local, d: Entries, d0: Entries, a: Name, na: Node) {
    var s := Step(c, l, d); Inv(c, s.0, s.1, d0, a, na)
  }

  lemma LookingUp(c: Call, l: Local, d: Entries, d0: Entries, a: Name, na: Node)
    requires Inv(c, l, d, d0, a, na) && l.pc in {StatSrc, StatDst, Remount}
    ensures Kept(c, l, d, d0, a, na)
  {
    var info := StatVersion(c.src, CURRENT);
    if l.pc.StatSrc? && info.Some? {
      SourceIsThere(c.src, info.value);
    }
    LiveIsFound(d, a, na);
  }

  lemma Linking(c: Call, l: Local, d: Entries, d0: Entries, a: Name, na: Node)
    requires Inv(c, l, d, d0, a, na) && l.pc.MakeLink?
    ensures Kept(c, l, d, d0, a, na)
  {
    NamesApart(c.temp, l.version);
  }

  lemma Staging(c: Call, l: Local, d: Entries, d0: Entries, a: Name, na: Node)
    requires Inv(c, l, d, d0, a, na) && l.pc in {MakeTemp, CopyTree}
    ensures Kept(c, l, d, d0, a, na)
  {
    NamesApart(c.temp, l.version);
  }

  lemma MovingAside(c: Call, l: Local, d: Entries, d0: Entries, a: Name, na: Node)
    requires Inv(c, l, d, d0, a, na) && l.pc in {StatOld, MoveOld, RemoveFile}
    requires Shielded(d0, a, l.version) || StatDst !in c.fails
    ensures Kept(c, l, d, d0, a, na)
  {
    NamesApart(c.temp, l.version);
  }

  lemma Publishing(c: Call, l: Local, d: Entries, d0: Entries, a: Name, na: Node)
    requires Inv(c, l, d, d0, a, na) && l.pc in {Publish, Chmod}
    ensures Kept(c, l, d, d0, a, na)
  {
    NamesApart(c.temp, l.version);
  }

  lemma Switching(c: Call, l: Local, d: Entries, d0: Entries, a: Name, na: Node)
    requires Inv(c, l, d, d0, a, na) && l.pc in {RemovePrev, CopyPrev, Swap}
    ensures Kept(c, l, d, d0, a, na)
  {
    NamesApart(c.temp, l.version);
  }

  lemma MovingBack(c: Call, l: Local, d: Entries, d0: Entries, a: Name, na: Node)
    requires Inv(c, l, d, d0, a, na) && l.pc.UndoMove?
    ensures Kept(c, l, d, d0, a, na)
  {
    NamesApart(c.temp, l.version);
  }

  lemma CleaningUp(c: Call, l: Local, d: Entries, d0: Entries, a: Name, na: Node)
    requires Inv(c, l, d, d0, a, na) && l.pc in {RemoveTemp, RemoveLink, Done}
    ensures Kept(c, l, d, d0, a, na)
  {
    if !l.pc.Done? {
      NamesApart(c.temp, l.version);
    }
  }

  lemma {:induction false} RunKeeps(c: Call, d0: Entries, a: Name, na: Node, k: nat)
    requires Live(d0, a, na) && GoodCall(c)
    requires var b := SourceVersion(c.src);
             b.Some? ==> Shielded(d0, a, b.value) || StatDst !in c.fails
    ensures Inv(c, At(c, d0, k).0, At(c, d0, k).1, d0, a, na)
  {
    if k > 0 {
      RunKeeps(c, d0, a, na, k - 1);
      var (l, d) := At(c, d0, k - 1);
      match l.pc {
        case StatSrc | StatDst | Remount => LookingUp(c, l, d, d0, a, na);
        case MakeLink => Linking(c, l, d, d0, a, na);
        case MakeTemp | CopyTree => Staging(c, l, d, d0, a, na);
        case StatOld | MoveOld | RemoveFile => MovingAside(c, l, d, d0, a, na);
        case Publish | Chmod => Publishing(c, l, d, d0, a, na);
        case RemovePrev | CopyPrev | Swap => Switching(c, l, d, d0, a, na);
        case UndoMove => MovingBack(c, l, d, d0, a, na);
        case RemoveTemp | RemoveLink | Done => CleaningUp(c, l, d, d0, a, na);
      }
    }
  }

  /** Crash safety: after any number of calls, with any of them failing, `current` still points to
      the version found on entry with its contents untouched, or to the source's version with
      exactly the source's contents; it points to the latter once the upgrade reports success. */
  lemma CrashSafe(c: Call, d0: Entries, a: Name, na: Node, k: nat)
    requires Live(d0, a, na) && GoodCall(c)
    requires var b := SourceVersion(c.src);
             b.Some? ==> Shielded(d0, a, b.value) || StatDst !in c.fails
    ensures var (l, d) := At(c, d0, k);
            && Safe(c, d, a, na)
            && (l.outcome != Copied ==> Live(d, a, na))
            && (l.outcome == Copied ==> l.version in c.src && Live(d, l.version, c.src[l.version]))
  {
    RunKeeps(c, d0, a, na, k);
  }

  ghost predicate SafeWhateverFails(src: Entries, d0: Entries, temp: Name, a: Name, na: Node) {
    forall c: Call, k: nat | c.src == src && c.temp == temp :: Safe(c, At(c, d0, k).1, a, na)
  }

  /** The look-up of the destination's version is the one call whose failure is ignored. When it
      fails and the source holds that very version, the live directory is moved aside: after seven
      calls `current` dangles. */
  lemma IgnoredFailureBreaksCurrent(src: Entries, d0: Entries, temp: Name, a: Name, na: Node)
    requires Live(d0, a, na) && SourceVersion(src) == Some(a) && src[a].Dir?
    requires !Reserved(a) && IsTempName(temp, a) && temp !in d0
    requires !Shielded(d0, a, a)
    ensures var c := Call(src, false, {StatDst}, temp, na, map[]);
            var d := At(c, d0, 7).1;
            CURRENT in d && d[CURRENT] == Link(a) && a !in d
  {
    NamesApart(temp, a);
    var c := Call(src, false, {StatDst}, temp, na, map[]);
    var info := StatVersion(src, CURRENT).value;
    assert At(c, d0, 1) == (Local(StatDst, a, info.mode, Empty, Pending), d0);
    assert At(c, d0, 2) == (Local(MakeLink, a, info.mode, Empty, Pending), d0);
    var d3 := d0[CURRENT_TMP := Link(a)];
    assert At(c, d0, 3) == (Local(MakeTemp, a, info.mode, LINKED, Pending), d3);
    assert At(c, d0, 4) == (Local(CopyTree, a, info.mode, STAGED, Pending), d3[temp := Dir(0x1C0, map[])]);
    var d5 := At(c, d0, 5).1;
    assert At(c, d0, 5).0 == Local(StatOld, a, info.mode, STAGED, Pending);
    assert d5[a] == na && OldName(a) !in d5 && d5[CURRENT] == Link(a);
    assert Resolve(d5, a) == Some(a);
    assert At(c, d0, 6) == (Local(MoveOld, a, info.mode, STAGED, Pending), d5);
  }

  /** Exactly when an upgrade is crash safe under every choice of failing calls: the source offers
      another version than the live one, or a left-over entry makes an earlier call fail. */
  lemma CrashSafetyExact(src: Entries, d0: Entries, temp: Name, a: Name, na: Node, b: Name)
    requires Live(d0, a, na) && SourceVersion(src) == Some(b) && src[b].Dir?
    requires !Reserved(b) && IsTempName(temp, b) && temp !in d0
    ensures SafeWhateverFails(src, d0, temp, a, na) <==> a != b || CURRENT_TMP in d0 || OldName(b) in d0
  {
    if Shielded(d0, a, b) {
      forall c: Call, k: nat | c.src == src && c.temp == temp ensures Safe(c, At(c, d0, k).1, a, na) {
        CrashSafe(c, d0, a, na, k);
      }
    } else {
      var c := Call(src, false, {StatDst}, temp, na, map[]);
      IgnoredFailureBreaksCurrent(src, d0, temp, a, na);
      assert !Safe(c, At(c, d0, 7).1, a, na);
    }
  }
}
