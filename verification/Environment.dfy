/** /etc/environment: read line by line, overridden by the configuration, written back quoted. */
module Environment {
  import opened Wrappers
  import opened Quoting
  import opened Text

  type Env = map<string, string>

  predicate StartsWith(s: string, p: string) { |p| <= |s| && s[..|p|] == p }

  /** bufio.ScanLines: one carriage return before the line feed belongs to the line end. */
  function Lines(s: string): (r: seq<string>)
    decreases |s|
  {
    if s == "" then []
    else
      var i := IndexOf(s, '\n');
      [DropCR(s[..i])] + (if i == |s| then [] else Lines(s[i + 1..]))
  }

  function DropCR(s: string): string { if s != "" && s[|s| - 1] == '\r' then s[..|s| - 1] else s }

  // Lengths are counted in bytes; outside ASCII one character takes several.
  predicate TwoBytes(s: string) { |s| > 1 || (|s| == 1 && s[0] >= 0x80 as char) }

  /** The text of an assignment: nothing for a comment, and without a leading `export`. */
  function Entry(text: string): Option<string> {
    var line := TrimSpace(text);
    if StartsWith(line, "#") then None
    else Some(TrimSpace(if StartsWith(line, "export") then line[6..] else line))
  }

  function ParseEntry(entry: string): Option<(string, string)> {
    if !TwoBytes(entry) then None
    else
      var i := IndexOf(entry, '=');
      var raw := if i == |entry| then "" else entry[i + 1..];
      Some((entry[..i], match Unquote(raw) case Some(v) => v case None => raw))
  }

  function ParseLine(text: string): Option<(string, string)> {
    match Entry(text) case None => None case Some(entry) => ParseEntry(entry)
  }

  type Entries = string -> Option<(string, string)>

  /** The entries of the lines, later ones overriding earlier ones; `read` says what a line holds. */
  function AddLines(read: Entries, env: Env, lines: seq<string>): Env
    decreases |lines|
  {
    if lines == [] then env
    else
      var next := match read(lines[0]) case None => env case Some((k, v)) => env[k := v];
      AddLines(read, next, lines[1..])
  }

  function Parse(text: string): Env { AddLines(ParseLine, map[], Lines(text)) }

  function PrintLine(k: string, v: string, printable: Printable): string { k + "=" + Quote(v, printable) }

  /** The file's text, the entries taken in the given order. */
  function Print(env: Env, order: seq<string>, printable: Printable): string
    requires forall i :: 0 <= i < |order| ==> order[i] in env
  {
    if order == [] then ""
    else PrintLine(order[0], env[order[0]], printable) + "\n" + Print(env, order[1..], printable)
  }

  predicate Distinct(order: seq<string>) { forall i, j :: 0 <= i < j < |order| ==> order[i] != order[j] }

  ghost predicate Enumerates(order: seq<string>, env: Env) {
    Distinct(order) && forall k :: k in order <==> k in env
  }

  // ---------- one line ----------

  /** A key that survives: on one line, without `=`, without leading white space, and not looking
      like a comment or an `export`. */
  predicate KeyOk(k: string) {
    && Lacks(k, '=') && Lacks(k, '\n')
    && (k != "" ==> !IsWhite(k[0]))
    && !StartsWith(k, "#") && !StartsWith(k, "export")
  }

  lemma PrefixOf(k: string, p: string, tail: string)
    requires Lacks(p, '=')
    ensures StartsWith(k + "=" + tail, p) <==> StartsWith(k, p)
  {
    var l := k + "=" + tail;
    if |p| <= |k| {
      assert l[..|p|] == k[..|p|];
    } else if |p| <= |l| {
      assert l[..|p|][|k|] == '=';
    }
  }

  lemma CutAtEquals(k: string, q: string)
    requires Lacks(k, '=')
    ensures var l := k + "=" + q; IndexOf(l, '=') == |k| && l[..|k|] == k && l[|k| + 1..] == q
  {
    var l := k + "=" + q;
    assert l[|k|] == '=' && forall i :: 0 <= i < |k| ==> l[i] == k[i];
    IndexIs(l, '=', |k|);
  }

  lemma {:induction false} TrimLeftKeeps(s: string, j: nat)
    requires j < |s| && !IsWhite(s[j])
    ensures var t := TrimLeft(s); var i := j - (|s| - |t|); 0 <= i < |t| && t[i] == s[j]
  {
    if IsWhite(s[0]) {
      TrimLeftKeeps(s[1..], j - 1);
    }
  }

  lemma EqualsComesBy(e: string, i: nat)
    requires i < |e| && e[i] == '='
    ensures IndexOf(e, '=') <= i
  {
  }

  lemma Trimmed(s: string, j: nat)
    requires j < |s| && !IsWhite(s[j]) && !IsWhite(s[|s| - 1])
    ensures var t := TrimSpace(s); var i := j - (|s| - |t|);
            0 <= i < |t| && t[i] == s[j] && t[|t| - 1] == s[|s| - 1] && (IsWhite(s[0]) ==> i < j)
  {
    TrimLeftKeeps(s, j);
    TrimLeftKeeps(s, |s| - 1);
  }

  function KeyRoom(e: Option<(string, string)>): nat { match e case None => 0 case Some((k, _)) => |k| }

  lemma KeyOfTrimmed(s: string, i: nat)
    requires i < |s| && s[i] == '=' && s[|s| - 1] == '"'
    ensures KeyRoom(ParseEntry(TrimSpace(s))) <= i
  {
    Trimmed(s, i);
    var e := TrimSpace(s);
    EqualsComesBy(e, i - (|s| - |e|));
  }

  lemma KeyOfExport(t: string, i: nat)
    requires StartsWith(t, "export") && i < |t| && t[i] == '=' && t[|t| - 1] == '"'
    ensures 6 <= i && KeyRoom(ParseEntry(TrimSpace(t[6..]))) <= i - 6
  {
    assert t[..6] == "export";
    assert forall n :: 0 <= n < 6 ==> t[n] == "export"[n] && t[n] != '=' && t[n] != '"';
    KeyOfTrimmed(t[6..], i - 6);
  }

  /** The key that is read from a line ends before any equals sign of the line, and white space or
      `export` in front of it is gone. */
  lemma KeyLength(l: string, j: nat)
    requires j < |l| && l[j] == '=' && l[|l| - 1] == '"'
    ensures var r := ParseLine(l);
            r.Some? ==> |r.value.0| <= j && (IsWhite(l[0]) || StartsWith(l, "export") ==> |r.value.0| < j)
  {
    Trimmed(l, j);
    var t := TrimSpace(l);
    var i := j - (|l| - |t|);
    if !IsWhite(l[0]) {
      TrimNothing(l);
    }
    if StartsWith(t, "export") {
      KeyOfExport(t, i);
    } else {
      KeyOfTrimmed(t, i);
    }
  }

  lemma EntryOf(k: string, q: string)
    requires q != "" && q[|q| - 1] == '"' && (k != "" ==> !IsWhite(k[0]))
    ensures var l := k + "=" + q;
      Entry(l) == if StartsWith(k, "#") then None
                  else if StartsWith(k, "export") then Some(TrimSpace(k[6..] + "=" + q)) else Some(l)
  {
    var l := k + "=" + q;
    assert l[|l| - 1] == '"' && l[0] == (if k == "" then '=' else k[0]);
    TrimNothing(l);
    PrefixOf(k, "#", q);
    PrefixOf(k, "export", q);
    if StartsWith(k, "export") {
      assert l[6..] == k[6..] + "=" + q;
    }
  }

  /** What a key can be after reading: never with `=`, never with leading white space. */
  lemma ReadKey(text: string)
    ensures var r := ParseLine(text);
            r.Some? ==> Lacks(r.value.0, '=') && (r.value.0 != "" ==> !IsWhite(r.value.0[0]))
  {
  }

  /** A key that does not survive is read back shorter, or not at all. */
  lemma BadKeyShrinks(k: string, v: string, printable: Printable)
    requires Lacks(k, '\n') && !KeyOk(k)
    ensures var r := ParseLine(PrintLine(k, v, printable)); r.Some? ==> |r.value.0| < |k|
  {
    var q := Quote(v, printable);
    var l := PrintLine(k, v, printable);
    assert l[|k|] == '=' && l[|l| - 1] == '"';
    if !Lacks(k, '=') {
      var j :| 0 <= j < |k| && k[j] == '=';
      assert l[j] == k[j];
      KeyLength(l, j);
    } else if k != "" && IsWhite(k[0]) {
      assert l[0] == k[0];
      KeyLength(l, |k|);
    } else {
      EntryOf(k, q);
      PrefixOf(k, "export", q);
      KeyLength(l, |k|);
    }
  }

  /** A printed entry is read back as itself if and only if its key is one that survives. */
  lemma LineExact(k: string, v: string, printable: Printable)
    requires Lacks(k, '\n')
    ensures ParseLine(PrintLine(k, v, printable)) == Some((k, v)) <==> KeyOk(k)
  {
    if KeyOk(k) {
      var q := Quote(v, printable);
      EntryOf(k, q);
      UnquoteQuote(v, printable);
      CutAtEquals(k, q);
    } else {
      BadKeyShrinks(k, v, printable);
    }
  }

  // ---------- the whole file ----------

  function PrintedLines(env: Env, order: seq<string>, printable: Printable): (r: seq<string>)
    requires forall i :: 0 <= i < |order| ==> order[i] in env
    ensures |r| == |order|
    ensures forall i :: 0 <= i < |r| ==> r[i] == PrintLine(order[i], env[order[i]], printable)
  {
    if order == [] then []
    else [PrintLine(order[0], env[order[0]], printable)] + PrintedLines(env, order[1..], printable)
  }

  lemma FirstLine(l: string, rest: string)
    requires Lacks(l, '\n') && l != "" && l[|l| - 1] != '\r'
    ensures Lines(l + "\n" + rest) == [l] + Lines(rest)
  {
    var s := l + "\n" + rest;
    IndexIs(s, '\n', |l|);
    assert s[..|l|] == l && s[|l| + 1..] == rest;
  }

  lemma {:induction false} LinesOfPrint(env: Env, order: seq<string>, printable: Printable)
    requires forall i :: 0 <= i < |order| ==> order[i] in env && Lacks(order[i], '\n')
    ensures Lines(Print(env, order, printable)) == PrintedLines(env, order, printable)
  {
    if order != [] {
      var k, v := order[0], env[order[0]];
      UnquoteQuote(v, printable);
      var l := PrintLine(k, v, printable);
      assert Lacks(l, '\n') && l[|l| - 1] == '"';
      FirstLine(l, Print(env, order[1..], printable));
      LinesOfPrint(env, order[1..], printable);
    }
  }

  function Picked(env: Env, order: seq<string>): Env
    requires forall k <- order :: k in env
  {
    map k | k in order :: env[k]
  }

  lemma PickOneMore(env: Env, base: Env, order: seq<string>)
    requires order != [] && forall k <- order :: k in env
    ensures base[order[0] := env[order[0]]] + Picked(env, order[1..]) == base + Picked(env, order)
  {
    assert order == [order[0]] + order[1..];
  }

  lemma {:induction false} AddPrinted(read: Entries, base: Env, env: Env, order: seq<string>, lines: seq<string>)
    requires |lines| == |order| && forall k <- order :: k in env
    requires forall i :: 0 <= i < |order| ==> read(lines[i]) == Some((order[i], env[order[i]]))
    ensures AddLines(read, base, lines) == base + Picked(env, order)
    decreases |order|
  {
    if order != [] {
      PickOneMore(env, base, order);
      AddPrinted(read, base[order[0] := env[order[0]]], env, order[1..], lines[1..]);
    }
  }

  lemma {:induction false} KeysComeFromLines(read: Entries, base: Env, lines: seq<string>, k: string)
    requires k in AddLines(read, base, lines)
    ensures k in base || exists i :: 0 <= i < |lines| && read(lines[i]).Some? && read(lines[i]).value.0 == k
    decreases |lines|
  {
    if lines != [] {
      var next := match read(lines[0]) case None => base case Some((k, v)) => base[k := v];
      KeysComeFromLines(read, next, lines[1..], k);
      if i :| 0 <= i < |lines[1..]| && read(lines[1..][i]).Some? && read(lines[1..][i]).value.0 == k {
        assert lines[i + 1] == lines[1..][i];
      }
    }
  }

  lemma {:induction false} TrimLeftLacks(s: string, c: char)
    requires Lacks(s, c)
    ensures Lacks(TrimLeft(s), c)
  {
    if s != "" && IsWhite(s[0]) {
      TrimLeftLacks(s[1..], c);
    }
  }

  lemma KeyOnOneLine(l: string)
    requires Lacks(l, '\n')
    ensures ParseLine(l).Some? ==> Lacks(ParseLine(l).value.0, '\n')
  {
    TrimLeftLacks(l, '\n');
    var line := TrimSpace(l);
    TrimLeftLacks(line, '\n');
    if StartsWith(line, "export") {
      TrimLeftLacks(line[6..], '\n');
    }
  }

  lemma FirstLineLacks(s: string)
    ensures Lacks(DropCR(s[..IndexOf(s, '\n')]), '\n')
  {
  }

  /** What is left behind the first line. */
  function RestLines(s: string): seq<string> {
    var i := IndexOf(s, '\n');
    if i == |s| then [] else Lines(s[i + 1..])
  }

  lemma FirstAndRest(s: string)
    requires s != ""
    ensures Lines(s) == [DropCR(s[..IndexOf(s, '\n')])] + RestLines(s)
  {
  }

  lemma {:induction false} LinesLack(s: string, k: nat)
    requires k < |Lines(s)|
    ensures Lacks(Lines(s)[k], '\n')
    decreases |s|
  {
    FirstAndRest(s);
    if k == 0 {
      FirstLineLacks(s);
    } else {
      LinesLack(s[IndexOf(s, '\n') + 1..], k - 1);
    }
  }

  /** A longest key among the bad ones. */
  lemma {:induction false} LongestBad(keys: seq<string>, bad: set<string>) returns (k: string)
    requires exists b <- keys :: b in bad
    ensures k in keys && k in bad && forall b <- keys | b in bad :: |b| <= |k|
  {
    if exists b <- keys[1..] :: b in bad {
      k := LongestBad(keys[1..], bad);
      if keys[0] in bad && |keys[0]| > |k| {
        k := keys[0];
      }
    } else {
      k := keys[0];
    }
    assert keys == [keys[0]] + keys[1..];
  }

  /** If every line of a bad key is read as a shorter key, the longest bad key is read from no line. */
  lemma LostInFold(read: Entries, env: Env, order: seq<string>, lines: seq<string>, bad: set<string>)
    requires |lines| == |order| && Enumerates(order, env) && exists b <- order :: b in bad
    requires forall i :: 0 <= i < |order| && read(lines[i]).Some? ==>
      if order[i] in bad then |read(lines[i]).value.0| < |order[i]| else read(lines[i]).value.0 == order[i]
    ensures AddLines(read, map[], lines) != env
  {
    var worst := LongestBad(order, bad);
    if worst in AddLines(read, map[], lines) {
      KeysComeFromLines(read, map[], lines, worst);
    }
  }

  lemma LinesReadBack(env: Env, order: seq<string>, printable: Printable)
    requires forall i :: 0 <= i < |order| ==> order[i] in env && KeyOk(order[i])
    ensures forall i :: 0 <= i < |order| ==>
              ParseLine(PrintedLines(env, order, printable)[i]) == Some((order[i], env[order[i]]))
  {
    forall i | 0 <= i < |order|
      ensures ParseLine(PrintedLines(env, order, printable)[i]) == Some((order[i], env[order[i]]))
    {
      LineExact(order[i], env[order[i]], printable);
    }
  }

  lemma FoldBack(read: Entries, env: Env, order: seq<string>, lines: seq<string>)
    requires Enumerates(order, env) && |lines| == |order|
    requires forall i :: 0 <= i < |order| ==> order[i] in env && read(lines[i]) == Some((order[i], env[order[i]]))
    ensures AddLines(read, map[], lines) == env
  {
    AddPrinted(read, map[], env, order, lines);
    assert Picked(env, order) == env;
  }

  lemma KeysListed(env: Env, order: seq<string>)
    requires Enumerates(order, env) && forall k <- env :: KeyOk(k)
    ensures forall i :: 0 <= i < |order| ==> order[i] in env && KeyOk(order[i])
  {
    assert forall i :: 0 <= i < |order| ==> order[i] in order;
  }

  lemma GoodKeysReadBack(env: Env, order: seq<string>, printable: Printable)
    requires Enumerates(order, env) && forall k <- env :: KeyOk(k)
    ensures Parse(Print(env, order, printable)) == env
  {
    KeysListed(env, order);
    LinesOfPrint(env, order, printable);
    LinesReadBack(env, order, printable);
    FoldBack(ParseLine, env, order, PrintedLines(env, order, printable));
  }

  lemma ReadKeyOnOneLine(text: string, k: string)
    requires k in Parse(text)
    ensures Lacks(k, '\n')
  {
    var lines := Lines(text);
    KeysComeFromLines(ParseLine, map[], lines, k);
    var i :| 0 <= i < |lines| && ParseLine(lines[i]).Some? && ParseLine(lines[i]).value.0 == k;
    LinesLack(text, i);
    KeyOnOneLine(lines[i]);
  }

  predicate Disguised(k: string) { StartsWith(k, "#") || StartsWith(k, "export") }

  /** Of the keys read from a file only those that look like a comment or an `export` do not survive. */
  lemma ReadKeyOk(text: string, k: string)
    requires k in Parse(text)
    ensures KeyOk(k) <==> !Disguised(k)
  {
    var lines := Lines(text);
    KeysComeFromLines(ParseLine, map[], lines, k);
    var i :| 0 <= i < |lines| && ParseLine(lines[i]).Some? && ParseLine(lines[i]).value.0 == k;
    ReadKey(lines[i]);
    ReadKeyOnOneLine(text, k);
  }

  lemma BadKeyIsLost(env: Env, order: seq<string>, printable: Printable)
    requires Enumerates(order, env) && (forall k <- env :: Lacks(k, '\n')) && exists k <- env :: !KeyOk(k)
    ensures Parse(Print(env, order, printable)) != env
  {
    var lines := PrintedLines(env, order, printable);
    LinesOfPrint(env, order, printable);
    var bad := set k | k in order && !KeyOk(k);
    forall i | 0 <= i < |order| && ParseLine(lines[i]).Some?
      ensures if order[i] in bad then |ParseLine(lines[i]).value.0| < |order[i]|
              else ParseLine(lines[i]).value.0 == order[i]
    {
      if KeyOk(order[i]) {
        LineExact(order[i], env[order[i]], printable);
      } else {
        BadKeyShrinks(order[i], env[order[i]], printable);
      }
    }
    var k :| k in env && !KeyOk(k);
    assert k in order && k in bad;
    LostInFold(ParseLine, env, order, lines, bad);
  }

  /** Reading a printed environment gives it back, in whatever order it was printed and whatever the
      values hold, if and only if all its keys are ones that survive. */
  lemma FileExact(env: Env, order: seq<string>, printable: Printable)
    requires Enumerates(order, env)
    ensures Parse(Print(env, order, printable)) == env <==> forall k <- env :: KeyOk(k)
  {
    if forall k <- env :: KeyOk(k) {
      GoodKeysReadBack(env, order, printable);
    } else if k :| k in env && !Lacks(k, '\n') {
      if k in Parse(Print(env, order, printable)) {
        ReadKeyOnOneLine(Print(env, order, printable), k);
      }
    } else {
      BadKeyIsLost(env, order, printable);
    }
  }

  // ---------- the procedure ----------

  function FileText(file: Option<string>): string { match file case None => "" case Some(text) => text }

  /** What the file held, overridden by the configuration. */
  function Merged(config: Env, file: Option<string>): Env { Parse(FileText(file)) + config }

  lemma {:induction false} AddLinesSnoc(read: Entries, env: Env, lines: seq<string>, l: string)
    ensures AddLines(read, env, lines + [l]) ==
            var before := AddLines(read, env, lines);
            match read(l) case None => before case Some((k, v)) => before[k := v]
    decreases |lines|
  {
    if lines == [] {
      assert lines + [l] == [l];
    } else {
      var next := match read(lines[0]) case None => env case Some((k, v)) => env[k := v];
      AddLinesSnoc(read, next, lines[1..], l);
      assert (lines + [l])[1..] == lines[1..] + [l];
    }
  }

  lemma {:induction false} PrintSnoc(env: Env, order: seq<string>, k: string, printable: Printable)
    requires forall i :: 0 <= i < |order| ==> order[i] in env
    requires k in env
    ensures Print(env, order + [k], printable) ==
            Print(env, order, printable) + PrintLine(k, env[k], printable) + "\n"
  {
    if order == [] {
      assert order + [k] == [k];
    } else {
      PrintSnoc(env, order[1..], k, printable);
      assert (order + [k])[1..] == order[1..] + [k];
    }
  }

  lemma NextLine(read: Entries, lines: seq<string>, i: nat)
    requires i < |lines|
    ensures var env := AddLines(read, map[], lines[..i]);
            AddLines(read, map[], lines[..i + 1]) ==
            match read(lines[i]) case None => env case Some((k, v)) => env[k := v]
  {
    AddLinesSnoc(read, map[], lines[..i], lines[i]);
    assert lines[..i] + [lines[i]] == lines[..i + 1];
  }

  method ReadEntries(file: Option<string>) returns (env: Env)
    ensures env == Parse(FileText(file))
  {
    env := map[];
    if file.Some? {
      var lines := Lines(file.value);
      for i := 0 to |lines|
        invariant env == AddLines(ParseLine, map[], lines[..i])
      {
        NextLine(ParseLine, lines, i);
        var entry := ParseLine(lines[i]);
        if entry.Some? {
          env := env[entry.value.0 := entry.value.1];
        }
      }
      assert lines[..|lines|] == lines;
    }
  }

  /** The text lists every entry once, in some order. */
  ghost predicate Lists(text: string, env: Env, printable: Printable) {
    exists order :: Enumerates(order, env) && text == Print(env, order, printable)
  }

  method WriteEntries(env: Env, printable: Printable) returns (buf: string)
    ensures Lists(buf, env, printable)
  {
    buf := "";
    ghost var order: seq<string> := [];
    var left := env.Keys;
    while left != {}
      invariant left <= env.Keys && Distinct(order)
      invariant forall k :: k in order <==> k in env && k !in left
      invariant buf == Print(env, order, printable)
    {
      var k :| k in left;
      PrintSnoc(env, order, k, printable);
      buf := buf + PrintLine(k, env[k], printable) + "\n";
      left, order := left - {k}, order + [k];
    }
    assert Enumerates(order, env);
  }

  /** ApplyEnvironment: the text written, if any; an unreadable file counts as empty, and the entries
      come out in any order. */
  method ApplyEnvironment(config: Env, file: Option<string>, printable: Printable)
    returns (written: Option<string>)
    ensures config == map[] ==> written.None?
    ensures config != map[] ==> written.Some? && Lists(written.value, Merged(config, file), printable)
  {
    if config == map[] {
      return None;
    }
    var env := ReadEntries(file);
    var todo := config.Keys;
    ghost var base := env;
    while todo != {}
      invariant todo <= config.Keys
      invariant env == base + (map k | k in config && k !in todo :: config[k])
    {
      var k :| k in todo;
      env := env[k := config[k]];
      todo := todo - {k};
    }
    assert env == Merged(config, file);
    var buf := WriteEntries(env, printable);
    written := Some(buf);
  }

  /** What can be checked beforehand: no configured key and no key in the file gets lost. */
  predicate KeysSurvive(config: Env, file: Option<string>) {
    && (forall k <- config :: KeyOk(k))
    && forall k <- Parse(FileText(file)) :: !Disguised(k)
  }

  lemma MergedKeysOk(config: Env, file: Option<string>)
    ensures (forall k <- Merged(config, file) :: KeyOk(k)) <==> KeysSurvive(config, file)
  {
    var before := Parse(FileText(file));
    forall k <- before ensures KeyOk(k) <==> !Disguised(k) {
      ReadKeyOk(FileText(file), k);
    }
    assert Merged(config, file).Keys == before.Keys + config.Keys;
  }

  /** Applying a configuration makes the file read as the old entries overridden by the configuration,
      whatever the order, if and only if no key gets lost. */
  lemma ApplyOnceExact(config: Env, file: Option<string>, text: string, printable: Printable)
    requires Lists(text, Merged(config, file), printable)
    ensures Parse(text) == Merged(config, file) <==> KeysSurvive(config, file)
  {
    var order :| Enumerates(order, Merged(config, file)) && text == Print(Merged(config, file), order, printable);
    FileExact(Merged(config, file), order, printable);
    MergedKeysOk(config, file);
  }

  lemma ExportRead(x: string, v: string, printable: Printable)
    requires KeyOk(x)
    ensures ParseLine(PrintLine("export" + x, v, printable)) == Some((x, v))
  {
    var q, k := Quote(v, printable), "export" + x;
    UnquoteQuote(v, printable);
    EntryOf(k, q);
    assert k[6..] == x && StartsWith(k, "export") && !StartsWith(k, "#");
    var l := x + "=" + q;
    assert l[|l| - 1] == '"' && l[0] == (if x == "" then '=' else x[0]);
    TrimNothing(l);
    CutAtEquals(x, q);
  }

  lemma TwoLines(read: Entries, a: string, b: string, x: string, v: string, w: string)
    requires read(a) == Some((x, v)) && read(b) == Some((x, w))
    ensures AddLines(read, map[], [a, b]) == map[x := w]
  {
    var m := map[x := v];
    assert [a, b][1..] == [b] && [b][1..] == [];
    assert AddLines(read, map[x := w], []) == map[x := w];
    assert AddLines(read, m, [b]) == AddLines(read, m[x := w], [b][1..]);
    assert m[x := w] == map[x := w];
  }

  lemma PairRead(x: string, y: string, v: string, w: string, printable: Printable)
    requires KeyOk(x) && y == "export" + x
    ensures var env := map[x := v, y := w];
      && Parse(Print(env, [y, x], printable)) == map[x := v]
      && Parse(Print(env, [x, y], printable)) == map[x := w]
  {
    var env := map[x := v, y := w];
    assert Lacks(y, '\n') && y != x;
    LinesOfPrint(env, [y, x], printable);
    LinesOfPrint(env, [x, y], printable);
    var a, b := PrintLine(x, v, printable), PrintLine(y, w, printable);
    LineExact(x, v, printable);
    ExportRead(x, w, printable);
    assert PrintedLines(env, [y, x], printable) == [b, a] && PrintedLines(env, [x, y], printable) == [a, b];
    TwoLines(ParseLine, b, a, x, w, v);
    TwoLines(ParseLine, a, b, x, v, w);
  }

  lemma PairEnumerates(x: string, y: string, env: Env)
    requires x != y && env.Keys == {x, y}
    ensures Enumerates([x, y], env)
  {
  }

  /** One text per order of the two entries. */
  lemma PairTexts(x: string, y: string, v: string, w: string, env: Env, printable: Printable)
    returns (first: string, second: string)
    requires KeyOk(x) && y == "export" + x && env == map[x := v, y := w]
    ensures Lists(first, env, printable) && Parse(first) == map[x := v]
    ensures Lists(second, env, printable) && Parse(second) == map[x := w]
  {
    assert |y| == 6 + |x|;
    PairEnumerates(x, y, env);
    PairEnumerates(y, x, env);
    first, second := Print(env, [y, x], printable), Print(env, [x, y], printable);
    PairRead(x, y, v, w, printable);
  }

  lemma OneText(x: string, v: string, printable: Printable) returns (file: string)
    requires KeyOk(x)
    ensures Parse(file) == map[x := v]
  {
    file := Print(map[x := v], [x], printable);
    FileExact(map[x := v], [x], printable);
  }

  /** Applying it again may change what is read: a configured key that begins with `export` is read as
      the rest of it, and which of the two values wins depends on the order of each application. */
  lemma OrderMatters(x: string, y: string, v: string, w: string, printable: Printable)
    returns (file: string, first: string, second: string)
    requires KeyOk(x) && y == "export" + x && v != w
    ensures Parse(file) == map[x := v]
    ensures Lists(first, Merged(map[y := w], Some(file)), printable)
    ensures Lists(second, Merged(map[y := w], Some(first)), printable)
    ensures Parse(first) == map[x := v] && Parse(second) == map[x := w]
  {
    var env := map[x := v, y := w];
    file := OneText(x, v, printable);
    first, second := PairTexts(x, y, v, w, env, printable);
    assert x != y && map[x := v] + map[y := w] == env;
  }
}
