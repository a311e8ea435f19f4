/** Adding keys to the authorized-keys file: an idempotent append, written to a temporary file that is
    renamed over the old one. */
module AuthorizedKeys {
  import opened Wrappers
  import opened Disk
  import opened Text

  /** The file holds the text; a missing file counts as empty. */
  predicate HasText(d: Entries, file: Name, text: string) {
    if file in d then d[file] == File(text) else text == ""
  }

  predicate StandsAt(s: string, key: string, i: nat) { i + |key| <= |s| && s[i..i + |key|] == key }

  /** strings.Contains */
  predicate Contains(s: string, key: string) {
    exists i :: 0 <= i <= |s| && StandsAt(s, key, i)
  }

  function WithKey(text: string, key: string): string {
    if key == "" || Contains(text, key) then text else text + key + "\n"
  }

  function WithKeys(text: string, keys: seq<string>): string {
    if keys == [] then text else WithKey(WithKeys(text, keys[..|keys| - 1]), keys[|keys| - 1])
  }

  // ---------- what the appends add up to ----------

  lemma StaysInside(s: string, t: string, key: string)
    requires s <= t && Contains(s, key)
    ensures Contains(t, key)
  {
    var i :| 0 <= i <= |s| && StandsAt(s, key, i);
    assert StandsAt(t, key, i);
  }

  lemma KeyIsIn(text: string, key: string)
    requires key != ""
    ensures text <= WithKey(text, key) && Contains(WithKey(text, key), key)
  {
    if !Contains(text, key) {
      var t := text + key + "\n";
      assert StandsAt(t, key, |text|);
    }
  }

  /** The old text stays in front, and every key is there. */
  lemma {:induction false} AllKeysIn(text: string, keys: seq<string>)
    ensures text <= WithKeys(text, keys)
    ensures forall key <- keys | key != "" :: Contains(WithKeys(text, keys), key)
  {
    if keys != [] {
      var init, last := keys[..|keys| - 1], keys[|keys| - 1];
      AllKeysIn(text, init);
      var before, after := WithKeys(text, init), WithKeys(text, keys);
      if last != "" {
        KeyIsIn(before, last);
      }
      forall key <- keys | key != "" ensures Contains(after, key) {
        if key != last {
          assert keys == init + [last] && key in init;
          StaysInside(before, after, key);
        }
      }
    }
  }

  lemma {:induction false} NothingToAdd(text: string, keys: seq<string>)
    requires forall key <- keys | key != "" :: Contains(text, key)
    ensures WithKeys(text, keys) == text
  {
    if keys != [] {
      NothingToAdd(text, keys[..|keys| - 1]);
    }
  }

  /** A second pass over the same keys, in any order and number, changes nothing. */
  lemma SecondPass(text: string, keys: seq<string>, again: seq<string>)
    requires forall key <- again :: key in keys
    ensures WithKeys(WithKeys(text, keys), again) == WithKeys(text, keys)
  {
    AllKeysIn(text, keys);
    NothingToAdd(WithKeys(text, keys), again);
  }

  lemma MissingBefore(text: string, keys: seq<string>, key: string)
    requires key != "" && !Contains(WithKeys(text, keys), key)
    ensures !Contains(text, key) && key !in keys
  {
    AllKeysIn(text, keys);
    if Contains(text, key) {
      StaysInside(text, WithKeys(text, keys), key);
    }
  }

  function OnLines(keys: seq<string>): string {
    if keys == [] then "" else OnLines(keys[..|keys| - 1]) + keys[|keys| - 1] + "\n"
  }

  lemma OneLineMore(text: string, added: seq<string>, key: string)
    ensures text + OnLines(added + [key]) == (text + OnLines(added)) + key + "\n"
  {
    var all := added + [key];
    assert all[..|all| - 1] == added && all[|all| - 1] == key;
    assert OnLines(all) == OnLines(added) + key + "\n";
  }

  /** Only keys that the text did not hold before are added, each once, in their order. */
  lemma {:induction false} OnlyMissingAdded(text: string, keys: seq<string>) returns (added: seq<string>)
    ensures WithKeys(text, keys) == text + OnLines(added)
    ensures forall key <- added :: key in keys && !Contains(text, key)
    ensures forall i, j :: 0 <= i < j < |added| ==> added[i] != added[j]
  {
    added := [];
    if keys == [] {
      assert text + "" == text;
    } else {
      var init, last := keys[..|keys| - 1], keys[|keys| - 1];
      added := OnlyMissingAdded(text, init);
      var before := WithKeys(text, init);
      if last != "" && !Contains(before, last) {
        MissingBefore(text, init, last);
        OneLineMore(text, added, last);
        added := added + [last];
      }
      assert keys == init + [last];
    }
  }

  // ---------- keys as lines ----------

  lemma ContainsSpelled(s: string, key: string)
    ensures Contains(s, key) <==> exists a, b :: s == a + key + b
  {
    if Contains(s, key) {
      var i :| 0 <= i <= |s| && StandsAt(s, key, i);
      assert s == s[..i] + key + s[i + |key|..];
    }
    if a, b :| s == a + key + b {
      assert StandsAt(s, key, |a|);
    }
  }

  /** The key is a line of the text, from its beginning to the line feed. */
  ghost predicate WholeLine(s: string, key: string) { exists i :: LineAt(s, key, i) }

  predicate LineAt(s: string, key: string, i: int) {
    0 <= i && i + |key| < |s| && s[i..i + |key|] == key && s[i + |key|] == '\n' && (i == 0 || s[i - 1] == '\n')
  }

  lemma KeyPart(text: string, key: string)
    requires '\n' !in key
    ensures var t := text + key + "\n"; forall m :: |text| <= m < |text| + |key| ==> t[m] != '\n'
  {
    assert forall m :: 0 <= m < |key| ==> key[m] in key;
  }

  lemma LinePlace(text: string, key: string, i: int)
    requires key != "" && '\n' !in key && LineAt(text + key + "\n", key, i)
    ensures i == |text| || Contains(text, key)
  {
    var t := text + key + "\n";
    if i + |key| < |text| {
      assert text[i..i + |key|] == t[i..i + |key|];
      assert StandsAt(text, key, i);
    } else {
      KeyPart(text, key);
    }
  }

  /** A new key gets a line of its own exactly when the text was ended by a line feed or empty;
      otherwise it is glued to the last line. */
  lemma OwnLineExact(text: string, key: string)
    requires key != "" && '\n' !in key && !Contains(text, key)
    ensures WholeLine(WithKey(text, key), key) <==> EndsLine(text)
  {
    var t := text + key + "\n";
    if EndsLine(text) {
      assert LineAt(t, key, |text|);
    }
    forall i | LineAt(t, key, i) ensures i == |text| {
      LinePlace(text, key, i);
    }
  }

  lemma LineStays(s: string, t: string, key: string)
    requires s <= t && WholeLine(s, key)
    ensures WholeLine(t, key)
  {
    var i :| LineAt(s, key, i);
    assert LineAt(t, key, i);
  }

  lemma LineAdded(before: string, key: string)
    requires EndsLine(before)
    ensures var after := before + key + "\n"; EndsLine(after) && WholeLine(after, key) && before <= after
  {
    assert LineAt(before + key + "\n", key, |before|);
  }

  /** So in a text that is ended by a line feed, all keys that are added stand on lines of their own. */
  lemma {:induction false} AddedOnLines(text: string, added: seq<string>)
    requires EndsLine(text)
    ensures EndsLine(text + OnLines(added)) && forall key <- added :: WholeLine(text + OnLines(added), key)
  {
    if added == [] {
      assert text + "" == text;
    } else {
      var init, last := added[..|added| - 1], added[|added| - 1];
      AddedOnLines(text, init);
      var before, after := text + OnLines(init), text + OnLines(added);
      assert added == init + [last];
      OneLineMore(text, init, last);
      LineAdded(before, last);
      forall key <- init ensures WholeLine(after, key) {
        LineStays(before, after, key);
      }
    }
  }

  // ---------- the procedures ----------

  /** Everything recorded since the history had `from` entries shows the file with its text from
      before or with the new one. */
  ghost predicate BeforeOrAfter(history: seq<Entries>, from: nat, file: Name, before: string, after: string) {
    forall i :: from <= i < |history| ==> HasText(history[i], file, before) || HasText(history[i], file, after)
  }

  // The calls that can fail by themselves.
  datatype Fault =
    | StatFile | CreateFile | PrepareFile | ReadFile | CreateTemp | WriteTemp | CloseTemp | ChmodTemp | RenameTemp
    | RemoveTemp | ChownFile

  const WRITE_FAULTS := {CreateTemp, WriteTemp, CloseTemp, ChmodTemp, RenameTemp}

  /** Only these two entries may differ. */
  ghost predicate Elsewhere(d: Entries, d0: Entries, file: Name, temp: Name) {
    forall n | n != file && n != temp :: (n in d <==> n in d0) && (n in d ==> d[n] == d0[n])
  }

  /** WriteFileAtomic, with a temporary name of the library's choice; `cut` is how much a failed
      write leaves. */
  method WriteFileAtomic(dir: Directory, file: Name, data: string, temp: Name, fails: set<Fault>, cut: nat,
                         ghost before: string)
    returns (ok: bool)
    requires temp != file && HasText(dir.entries, file, before)
    modifies dir
    ensures ok <==> fails !! WRITE_FAULTS && temp !in old(dir.entries)
    ensures old(dir.history) <= dir.history
    ensures BeforeOrAfter(dir.history, |old(dir.history)|, file, before, if ok then data else before)
    ensures HasText(dir.entries, file, if ok then data else before)
    ensures Elsewhere(dir.entries, old(dir.entries), file, temp)
    ensures ok || (RemoveTemp !in fails && temp !in old(dir.entries)) ==> temp !in dir.entries
  {
    if CreateTemp in fails || temp in dir.entries {
      return false;
    }
    WriteTempFile(dir, if WriteTemp !in fails || cut > |data| then data else data[..cut], temp);
    ghost var h := dir.history;
    assert forall i :: |old(dir.history)| <= i < |h| ==> HasText(h[i], file, before);
    ok := {WriteTemp, CloseTemp, ChmodTemp} !! fails;
    if ok {
      ok := dir.Move(temp, file, RenameTemp in fails);
    }
    var _ := dir.Delete(temp, RemoveTemp in fails);
  }

  /** ioutil.TempFile, then a write, of which a part may arrive. */
  method WriteTempFile(dir: Directory, written: string, temp: Name)
    modifies dir
    ensures dir.entries == old(dir.entries)[temp := File(written)]
    ensures dir.history == old(dir.history) + [old(dir.entries)[temp := File("")], dir.entries]
  {
    dir.Commit(dir.entries[temp := File("")]);
    dir.Commit(dir.entries[temp := File(written)]);
  }

  /** What resolving a configured key gives: its text, empty when there is nothing to add, or an
      error. With it comes everything the environment decides about adding it. */
  datatype Request = Request(key: Option<string>, temp: Name, fails: set<Fault>, cut: nat)

  function TextOf(r: Request): string { match r.key case None => "" case Some(key) => key }

  predicate Clean(r: Request) { r.key.Some? && r.fails == {} }

  /** Nothing stops the file from being replaced: only the change of its owner may still fail. */
  predicate Replaces(r: Request, d: Entries, file: Name) {
    && r.key.Some? && r.key.value != "" && r.temp !in d
    && r.fails !! {StatFile, ReadFile, CreateTemp, WriteTemp, CloseTemp, ChmodTemp, RenameTemp}
    && (file !in d ==> r.fails !! {CreateFile, PrepareFile})
  }

  /** authorizeSSHKey, for a key already resolved; a failing call leaves the text as it was, except
      that a failure to change the owner comes after the file has been replaced. */
  method AuthorizeKey(dir: Directory, file: Name, r: Request, ghost before: string)
    returns (ok: bool, ghost after: string)
    requires r.temp != file && HasText(dir.entries, file, before)
    modifies dir
    ensures old(dir.history) <= dir.history
    ensures BeforeOrAfter(dir.history, |old(dir.history)|, file, before, after)
    ensures HasText(dir.entries, file, after)
    ensures after == if Replaces(r, old(dir.entries), file) then WithKey(before, TextOf(r)) else before
    ensures ok <==> r.key == Some("") || (Replaces(r, old(dir.entries), file) && ChownFile !in r.fails)
    ensures Clean(r) && r.temp !in old(dir.entries) ==> r.temp !in dir.entries
    ensures Elsewhere(dir.entries, old(dir.entries), file, r.temp)
  {
    if r.key.None? {
      return false, before;
    }
    var key := r.key.value;
    if key == "" {
      return true, before;
    }
    if StatFile in r.fails {
      return false, before;
    }
    if file !in dir.entries {
      if CreateFile in r.fails {
        return false, before;
      }
      dir.Commit(dir.entries[file := File("")]);
      if PrepareFile in r.fails {
        return false, before;
      }
    }
    if ReadFile in r.fails {
      return false, before;
    }
    var bytes := dir.entries[file].text;
    if !Contains(bytes, key) {
      bytes := bytes + key + "\n";
    }
    ghost var h := dir.history;
    ok := WriteFileAtomic(dir, file, bytes, r.temp, r.fails, r.cut, before);
    assert h <= dir.history;
    after := if ok then bytes else before;
    ok := ok && ChownFile !in r.fails;
  }

  function Texts(rs: seq<Request>): (r: seq<string>)
    ensures |r| == |rs| && forall i :: 0 <= i < |rs| ==> r[i] == TextOf(rs[i])
  {
    if rs == [] then [] else Texts(rs[..|rs| - 1]) + [TextOf(rs[|rs| - 1])]
  }

  ghost predicate ShowsOne(d: Entries, file: Name, texts: seq<string>) {
    exists j :: 0 <= j < |texts| && HasText(d, file, texts[j])
  }

  /** Every state recorded since then shows the file with one of the texts. */
  ghost predicate Shows(history: seq<Entries>, from: nat, file: Name, texts: seq<string>) {
    forall i :: from <= i < |history| ==> ShowsOne(history[i], file, texts)
  }

  lemma ShowsMore(h: seq<Entries>, h': seq<Entries>, from: nat, file: Name, texts: seq<string>, next: string)
    requires h <= h' && from <= |h| && texts != []
    requires Shows(h, from, file, texts) && BeforeOrAfter(h', |h|, file, texts[|texts| - 1], next)
    ensures Shows(h', from, file, texts + [next])
  {
    var all := texts + [next];
    forall i | from <= i < |h'| ensures ShowsOne(h'[i], file, all) {
      if i < |h| {
        assert ShowsOne(h[i], file, texts);
        var j :| 0 <= j < |texts| && HasText(h[i], file, texts[j]);
        assert h'[i] == h[i] && all[j] == texts[j];
        assert HasText(h'[i], file, all[j]);
      } else {
        assert all[|texts| - 1] == texts[|texts| - 1] && all[|texts|] == next;
        assert HasText(h'[i], file, all[|texts| - 1]) || HasText(h'[i], file, all[|texts|]);
      }
    }
  }

  ghost predicate TempsFree(rs: seq<Request>, d: Entries) { forall r <- rs :: r.temp !in d }

  /** The file's text after each key: as before it, or with the key. */
  ghost predicate Steps(texts: seq<string>, rs: seq<Request>) {
    |texts| == |rs| + 1 &&
    forall i {:trigger rs[i]} :: 0 <= i < |rs| ==>
      texts[i + 1] == texts[i] || texts[i + 1] == WithKey(texts[i], TextOf(rs[i]))
  }

  lemma StepsOn(texts: seq<string>, rs: seq<Request>, k: nat, next: string)
    requires k < |rs| && Steps(texts, rs[..k])
    requires next == texts[k] || next == WithKey(texts[k], TextOf(rs[k]))
    ensures Steps(texts + [next], rs[..k + 1])
  {
    forall i {:trigger rs[i]} | 0 <= i < k + 1
      ensures var all := texts + [next]; all[i + 1] == all[i] || all[i + 1] == WithKey(all[i], TextOf(rs[i]))
    {
      assert i < k ==> rs[..k][i] == rs[i];
    }
  }

  lemma TempsStayFree(rs: seq<Request>, k: nat, file: Name, d: Entries, d0: Entries)
    requires k < |rs| && (forall r <- rs :: r.temp != file) && TempsFree(rs, d0)
    requires Elsewhere(d, d0, file, rs[k].temp) && rs[k].temp !in d
    ensures TempsFree(rs, d)
  {
  }

  ghost predicate TempsDiffer(rs: seq<Request>) {
    forall i, j :: 0 <= i < j < |rs| ==> rs[i].temp != rs[j].temp
  }

  /** Among the first `k`, every key whose own calls work has been added to what was there. */
  ghost predicate CleanAdded(texts: seq<string>, rs: seq<Request>, k: nat) {
    k <= |rs| && k < |texts| &&
    forall i {:trigger rs[i]} :: 0 <= i < k && Clean(rs[i]) ==> texts[i + 1] == WithKey(texts[i], TextOf(rs[i]))
  }

  /** With temporary names of their own, the later keys are not hindered by what earlier ones left. */
  ghost predicate Unhindered(apart: bool, texts: seq<string>, rs: seq<Request>, k: nat, d: Entries) {
    && |texts| == k + 1
    && (apart ==> CleanAdded(texts, rs, k) && forall j {:trigger rs[j]} :: k <= j < |rs| ==> rs[j].temp !in d)
  }

  lemma UnhinderedNext(apart: bool, texts: seq<string>, rs: seq<Request>, k: nat, file: Name, d: Entries, d': Entries,
                       next: string)
    requires k < |rs| && (apart ==> TempsDiffer(rs)) && (forall r <- rs :: r.temp != file)
    requires Unhindered(apart, texts, rs, k, d) && Elsewhere(d', d, file, rs[k].temp)
    requires Clean(rs[k]) && rs[k].temp !in d ==> next == WithKey(texts[k], TextOf(rs[k]))
    ensures Unhindered(apart, texts + [next], rs, k + 1, d')
  {
    if apart {
      assert rs[k].temp !in d;
      forall j {:trigger rs[j]} | k + 1 <= j < |rs| ensures rs[j].temp !in d' {
        assert rs[j] in rs && rs[k].temp != rs[j].temp;
      }
    }
  }

  lemma StartsUnhindered(apart: bool, before: string, rs: seq<Request>, d: Entries)
    requires apart ==> TempsFree(rs, d)
    ensures Unhindered(apart, [before], rs, 0, d)
  {
  }

  lemma {:induction false} TextsGrow(texts: seq<string>, rs: seq<Request>, i: nat, k: nat)
    requires Steps(texts, rs) && i <= k <= |rs|
    ensures texts[i] <= texts[k]
  {
    if i < k {
      TextsGrow(texts, rs, i, k - 1);
      var r := rs[k - 1];
      assert texts[k] == texts[k - 1] || texts[k] == WithKey(texts[k - 1], TextOf(r));
    }
  }

  lemma CleanStays(texts: seq<string>, rs: seq<Request>, i: nat)
    requires Steps(texts, rs) && CleanAdded(texts, rs, |rs|) && i < |rs| && Clean(rs[i]) && TextOf(rs[i]) != ""
    ensures Contains(texts[|rs|], TextOf(rs[i]))
  {
    KeyIsIn(texts[i], TextOf(rs[i]));
    TextsGrow(texts, rs, i + 1, |rs|);
    StaysInside(texts[i + 1], texts[|rs|], TextOf(rs[i]));
  }

  lemma AllCleanStay(texts: seq<string>, rs: seq<Request>)
    requires Steps(texts, rs) && CleanAdded(texts, rs, |rs|)
    ensures forall r <- rs | Clean(r) && TextOf(r) != "" :: Contains(texts[|rs|], TextOf(r))
  {
    forall r <- rs | Clean(r) && TextOf(r) != "" ensures Contains(texts[|rs|], TextOf(r)) {
      var i :| 0 <= i < |rs| && rs[i] == r;
      CleanStays(texts, rs, i);
    }
  }

  /** The loop has handled `k` keys. */
  ghost predicate Handled(h: seq<Entries>, h0: nat, d: Entries, file: Name, texts: seq<string>, rs: seq<Request>,
                          k: nat, before: string, allOk: bool, calm: bool)
  {
    && k <= |rs| && h0 <= |h| && Steps(texts, rs[..k]) && texts[0] == before && HasText(d, file, texts[k])
    && Shows(h, h0, file, texts)
    && (allOk ==> texts[k] == WithKeys(before, Texts(rs[..k])))
    && (calm ==> allOk && TempsFree(rs, d))
  }

  lemma HandledOne(h: seq<Entries>, h': seq<Entries>, h0: nat, d: Entries, d': Entries, file: Name, texts: seq<string>,
                   rs: seq<Request>, k: nat, before: string, allOk: bool, calm: bool, ok: bool, after: string)
    requires Handled(h, h0, d, file, texts, rs, k, before, allOk, calm) && k < |rs| && h <= h'
    requires (forall r <- rs :: r.temp != file) && (calm ==> forall r <- rs :: Clean(r))
    requires BeforeOrAfter(h', |h|, file, texts[k], after) && HasText(d', file, after)
    requires after == texts[k] || after == WithKey(texts[k], TextOf(rs[k]))
    requires ok ==> after == WithKey(texts[k], TextOf(rs[k]))
    requires Clean(rs[k]) && rs[k].temp !in d ==> ok && rs[k].temp !in d'
    requires Elsewhere(d', d, file, rs[k].temp)
    ensures Handled(h', h0, d', file, texts + [after], rs, k + 1, before, allOk && ok, calm)
  {
    ShowsMore(h, h', h0, file, texts, after);
    StepsOn(texts, rs, k, after);
    if allOk && ok {
      NextText(before, rs, k, texts[k], after);
    }
    if calm {
      assert rs[k] in rs;
      TempsStayFree(rs, k, file, d', d);
    }
  }

  /** Both at once: what has been handled, and that nothing hinders the rest. */
  ghost predicate Going(h: seq<Entries>, h0: nat, d: Entries, file: Name, texts: seq<string>, rs: seq<Request>,
                        k: nat, before: string, allOk: bool, calm: bool, apart: bool)
  {
    Handled(h, h0, d, file, texts, rs, k, before, allOk, calm) && Unhindered(apart, texts, rs, k, d)
  }

  lemma GoingOn(h: seq<Entries>, h': seq<Entries>, h0: nat, d: Entries, d': Entries, file: Name, texts: seq<string>,
                rs: seq<Request>, k: nat, before: string, allOk: bool, calm: bool, apart: bool, ok: bool, after: string)
    requires Going(h, h0, d, file, texts, rs, k, before, allOk, calm, apart) && k < |rs| && h <= h'
    requires (forall r <- rs :: r.temp != file) && (calm ==> forall r <- rs :: Clean(r)) && (apart ==> TempsDiffer(rs))
    requires BeforeOrAfter(h', |h|, file, texts[k], after) && HasText(d', file, after)
    requires after == if Replaces(rs[k], d, file) then WithKey(texts[k], TextOf(rs[k])) else texts[k]
    requires ok <==> rs[k].key == Some("") || (Replaces(rs[k], d, file) && ChownFile !in rs[k].fails)
    requires Clean(rs[k]) && rs[k].temp !in d ==> rs[k].temp !in d'
    requires Elsewhere(d', d, file, rs[k].temp)
    ensures Going(h', h0, d', file, texts + [after], rs, k + 1, before, allOk && ok, calm, apart)
  {
    HandledOne(h, h', h0, d, d', file, texts, rs, k, before, allOk, calm, ok, after);
    UnhinderedNext(apart, texts, rs, k, file, d, d', after);
  }

  /** The key loop of SetAuthorizedKeys: a failed key is skipped, and the others are added all the same.
      `texts` lists what the file held before the first key and after each one; every recorded state
      shows one of them. */
  method AuthorizeKeys(dir: Directory, file: Name, requests: seq<Request>, ghost before: string)
    returns (allOk: bool, ghost texts: seq<string>)
    requires (forall r <- requests :: r.temp != file) && HasText(dir.entries, file, before)
    modifies dir
    ensures old(dir.history) <= dir.history
    ensures Steps(texts, requests) && texts[0] == before && HasText(dir.entries, file, texts[|requests|])
    ensures Shows(dir.history, |old(dir.history)|, file, texts)
    ensures allOk ==> texts[|requests|] == WithKeys(before, Texts(requests))
    ensures (forall r <- requests :: Clean(r)) && TempsFree(requests, old(dir.entries)) ==> allOk
    ensures TempsDiffer(requests) && TempsFree(requests, old(dir.entries)) ==>
      forall r <- requests | Clean(r) && TextOf(r) != "" :: Contains(texts[|requests|], TextOf(r))
  {
    allOk, texts := true, [before];
    ghost var h0 := |dir.history|;
    ghost var apart := TempsDiffer(requests) && TempsFree(requests, dir.entries);
    ghost var calm := (forall r <- requests :: Clean(r)) && TempsFree(requests, dir.entries);
    StartsUnhindered(apart, before, requests, dir.entries);
    for k := 0 to |requests|
      invariant old(dir.history) <= dir.history
      invariant Going(dir.history, h0, dir.entries, file, texts, requests, k, before, allOk, calm, apart)
    {
      ghost var h, was, d := dir.history, texts, dir.entries;
      assert requests[k] in requests;
      var ok, after := AuthorizeKey(dir, file, requests[k], texts[k]);
      GoingOn(h, dir.history, h0, d, dir.entries, file, was, requests, k, before, allOk, calm, apart, ok, after);
      texts := texts + [after];
      allOk := allOk && ok;
    }
    assert requests[..|requests|] == requests;
    if apart {
      AllCleanStay(texts, requests);
    }
  }

  lemma NextText(before: string, rs: seq<Request>, k: nat, text: string, next: string)
    requires k < |rs| && text == WithKeys(before, Texts(rs[..k])) && next == WithKey(text, TextOf(rs[k]))
    ensures next == WithKeys(before, Texts(rs[..k + 1]))
  {
    assert rs[..k + 1][..k] == rs[..k];
    var ts := Texts(rs[..k + 1]);
    assert ts[..k] == Texts(rs[..k]) && ts[k] == TextOf(rs[k]);
  }
}
