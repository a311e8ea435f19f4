/** Environment files as people write them: assignments without quotes, comments and blank lines. */
module PlainEnvironment {
  import opened Wrappers
  import opened Text
  import opened Quoting
  import opened Environment

  /** A line of such a file. White space may stand around it and behind its `export`, if it has one. */
  datatype FileLine =
    | Assign(indent: string, exported: Option<string>, key: string, value: string, trail: string)
    | Bare(indent: string, exported: Option<string>, key: string, trail: string)
    | Comment(indent: string, text: string)
    | Blank(indent: string)

  /** White space other than the line feed, by its code points. */
  predicate Space(c: char) {
    c as int in {0x09, 0x0B, 0x0C, 0x0D, 0x20, 0x85, 0xA0, 0x1680, 0x2000, 0x2001, 0x2002, 0x2003, 0x2004, 0x2005,
                 0x2006, 0x2007, 0x2008, 0x2009, 0x200A, 0x2028, 0x2029, 0x202F, 0x205F, 0x3000}
  }

  predicate White(s: string) { forall i :: 0 <= i < |s| ==> Space(s[i]) }

  function Exported(e: Option<string>): string { match e case None => "" case Some(gap) => "export" + gap }

  function LineText(l: FileLine): string {
    match l
    case Assign(indent, exported, key, value, trail) => indent + (Exported(exported) + (key + "=" + value)) + trail
    case Bare(indent, exported, key, trail) => indent + (Exported(exported) + key) + trail
    case Comment(indent, text) => indent + ("#" + text)
    case Blank(indent) => indent
  }

  /** Not wrapped in quotes, and not ending in white space. */
  predicate PlainValue(v: string) {
    && Lacks(v, '\n')
    && (v != "" ==> !Space(v[|v| - 1]))
    && (|v| > 1 ==> v[0] !in {'"', '`', '\''} || v[|v| - 1] != v[0])
  }

  predicate FileLineOk(l: FileLine) {
    match l
    case Assign(indent, exported, key, value, trail) =>
      && White(indent) && White(trail) && (exported.Some? ==> White(exported.value))
      && KeyOk(key) && PlainValue(value) && key + value != ""
    case Bare(indent, exported, key, trail) =>
      && White(indent) && White(trail) && (exported.Some? ==> White(exported.value))
      && KeyOk(key) && TwoBytes(key) && !IsWhite(key[|key| - 1])
    case Comment(indent, text) => White(indent) && Lacks(text, '\n')
    case Blank(indent) => White(indent)
  }

  // ---------- one line ----------

  lemma {:induction false} TrimIndent(a: string, s: string)
    requires White(a)
    ensures TrimLeft(a + s) == TrimLeft(s)
  {
    if a == "" {
      assert a + s == s;
    } else {
      assert (a + s)[1..] == a[1..] + s;
      TrimIndent(a[1..], s);
    }
  }

  lemma {:induction false} TrimTrail(s: string, b: string)
    requires White(b)
    ensures TrimRight(s + b) == TrimRight(s)
  {
    if b == "" {
      assert s + b == s;
    } else {
      var t := s + b;
      assert t[|t| - 1] == b[|b| - 1] && t[..|t| - 1] == s + b[..|b| - 1];
      TrimTrail(s, b[..|b| - 1]);
    }
  }

  lemma TrimAround(a: string, s: string, b: string)
    requires White(a) && White(b) && s != "" && !IsWhite(s[0]) && !IsWhite(s[|s| - 1])
    ensures TrimSpace(a + s + b) == s
  {
    assert a + s + b == a + (s + b);
    TrimIndent(a, s + b);
    assert (s + b)[0] == s[0];
    TrimTrail(s, b);
  }

  lemma {:induction false} TrimKeepsFirst(s: string)
    requires s != "" && !IsWhite(s[0])
    ensures TrimRight(s) != "" && TrimRight(s)[0] == s[0]
  {
    if IsWhite(s[|s| - 1]) {
      TrimKeepsFirst(s[..|s| - 1]);
    }
  }

  lemma TrimComment(a: string, text: string)
    requires White(a)
    ensures StartsWith(TrimSpace(a + ("#" + text)), "#")
  {
    TrimIndent(a, "#" + text);
    TrimKeepsFirst("#" + text);
    var line := TrimSpace(a + ("#" + text));
    assert line[..1] == "#";
  }

  lemma TrimBlank(a: string)
    requires White(a)
    ensures TrimSpace(a) == ""
  {
    TrimIndent(a, "");
    assert a + "" == a;
  }

  predicate Trim(core: string) { core != "" && !IsWhite(core[0]) && !IsWhite(core[|core| - 1]) }

  lemma ExportEntry(text: string, gap: string, core: string)
    requires White(gap) && Trim(core) && TrimSpace(text) == "export" + (gap + core)
    ensures Entry(text) == Some(core)
  {
    var line := "export" + (gap + core);
    assert line[0] == 'e' && line[..6] == "export" && line[6..] == gap + core;
    TrimAround(gap, core, "");
    assert gap + core + "" == gap + core;
  }

  /** What is left of an assignment once indentation and `export` are gone. */
  lemma EntryOfCore(indent: string, exported: Option<string>, core: string, trail: string)
    requires White(indent) && White(trail) && (exported.Some? ==> White(exported.value)) && Trim(core)
    requires !StartsWith(core, "#") && !StartsWith(core, "export")
    ensures Entry(indent + (Exported(exported) + core) + trail) == Some(core)
  {
    match exported {
      case None =>
        TrimAround(indent, core, trail);
        assert "" + core == core;
        TrimNothing(core);
      case Some(gap) =>
        var line := "export" + (gap + core);
        assert ("export" + gap) + core == line;
        assert line[|line| - 1] == core[|core| - 1] && line[0] == 'e';
        TrimAround(indent, line, trail);
        ExportEntry(indent + line + trail, gap, core);
    }
  }

  lemma PlainIsRaw(v: string)
    requires PlainValue(v)
    ensures Unquote(v) == None
  {
  }

  /** An assignment gives its key and its value as they stand, a bare word of two or more bytes an empty
      value, and comments and blank lines nothing. */
  function Reading(l: FileLine): Option<(string, string)> {
    match l case Assign(_, _, k, v, _) => Some((k, v)) case Bare(_, _, k, _) => Some((k, "")) case _ => None
  }

  /** So lines are read. */
  lemma ReadsLine(l: FileLine)
    requires FileLineOk(l)
    ensures ParseLine(LineText(l)) == Reading(l)
  {
    match l {
      case Assign(indent, exported, k, v, trail) => ReadsAssign(indent, exported, k, v, trail);
      case Bare(indent, exported, k, trail) =>
        EntryOfCore(indent, exported, k, trail);
        IndexIs(k, '=', |k|);
        assert k[..|k|] == k;
      case Comment(indent, text) => TrimComment(indent, text);
      case Blank(indent) => TrimBlank(indent);
    }
  }

  lemma ReadsAssign(indent: string, exported: Option<string>, k: string, v: string, trail: string)
    requires White(indent) && White(trail) && (exported.Some? ==> White(exported.value))
    requires KeyOk(k) && PlainValue(v) && k + v != ""
    ensures ParseLine(indent + (Exported(exported) + (k + "=" + v)) + trail) == Some((k, v))
  {
    var core := k + "=" + v;
    assert core[0] == (if k == "" then '=' else k[0]) && core[|core| - 1] == (if v == "" then '=' else v[|v| - 1]);
    PrefixOf(k, "#", v);
    PrefixOf(k, "export", v);
    EntryOfCore(indent, exported, core, trail);
    CutAtEquals(k, v);
    PlainIsRaw(v);
  }

  // ---------- the whole file ----------

  /** The last line feed may be missing. */
  function Joined(texts: seq<string>, ended: bool): string {
    if texts == [] then ""
    else if |texts| == 1 && !ended then texts[0]
    else texts[0] + "\n" + Joined(texts[1..], ended)
  }

  function FileOf(lines: seq<FileLine>, ended: bool): string {
    Joined(seq(|lines|, i requires 0 <= i < |lines| => LineText(lines[i])), ended)
  }

  predicate FileOk(lines: seq<FileLine>, ended: bool) {
    && (forall i :: 0 <= i < |lines| ==> FileLineOk(lines[i]))
    && (!ended && lines != [] ==> LineText(lines[|lines| - 1]) != "")
  }

  /** A carriage return at the end of a line is white space, or part of a comment. */
  function CutCR(l: FileLine): FileLine {
    match l
    case Assign(indent, exported, key, value, trail) => Assign(indent, exported, key, value, DropCR(trail))
    case Bare(indent, exported, key, trail) => Bare(indent, exported, key, DropCR(trail))
    case Comment(indent, text) => Comment(indent, DropCR(text))
    case Blank(indent) => Blank(DropCR(indent))
  }

  lemma DropCREnd(s: string, b: string)
    requires b == "" ==> s != "" && s[|s| - 1] != '\r'
    ensures DropCR(s + b) == s + DropCR(b)
  {
    if b != "" {
      assert (s + b)[|s + b| - 1] == b[|b| - 1] && (s + b)[..|s + b| - 1] == s + b[..|b| - 1];
    } else {
      assert s + b == s;
    }
  }

  lemma CutCROk(l: FileLine)
    requires FileLineOk(l)
    ensures FileLineOk(CutCR(l)) && LineText(CutCR(l)) == DropCR(LineText(l))
  {
    match l {
      case Assign(indent, exported, k, v, trail) =>
        var s := indent + (Exported(exported) + (k + "=" + v));
        assert s[|s| - 1] == if v == "" then '=' else v[|v| - 1];
        DropCREnd(s, trail);
      case Bare(indent, exported, k, trail) =>
        var s := indent + (Exported(exported) + k);
        assert s[|s| - 1] == k[|k| - 1];
        DropCREnd(s, trail);
      case Comment(indent, text) =>
        var s := indent + "#";
        assert s[|s| - 1] == '#' && indent + ("#" + text) == s + text;
        DropCREnd(s, text);
        assert indent + ("#" + DropCR(text)) == s + DropCR(text);
      case Blank(indent) =>
    }
  }

  lemma OnOneLine(l: FileLine)
    requires FileLineOk(l)
    ensures Lacks(LineText(l), '\n')
  {
  }

  lemma NextOfFile(l: string, rest: string)
    requires Lacks(l, '\n')
    ensures Lines(l + "\n" + rest) == [DropCR(l)] + Lines(rest)
    ensures l != "" ==> Lines(l) == [DropCR(l)]
  {
    var s := l + "\n" + rest;
    IndexIs(s, '\n', |l|);
    IndexIs(l, '\n', |l|);
    assert s[..|l|] == l && s[|l| + 1..] == rest && l[..|l|] == l;
  }

  function WithoutCR(texts: seq<string>): (r: seq<string>)
    ensures |r| == |texts| && forall i :: 0 <= i < |r| ==> r[i] == DropCR(texts[i])
  {
    if texts == [] then [] else [DropCR(texts[0])] + WithoutCR(texts[1..])
  }

  lemma {:induction false} LinesOfJoined(texts: seq<string>, ended: bool)
    requires forall i :: 0 <= i < |texts| ==> Lacks(texts[i], '\n')
    requires !ended && texts != [] ==> texts[|texts| - 1] != ""
    ensures Lines(Joined(texts, ended)) == WithoutCR(texts)
  {
    if texts != [] {
      NextOfFile(texts[0], Joined(texts[1..], ended));
      if |texts| > 1 || ended {
        LinesOfJoined(texts[1..], ended);
      } else {
        assert WithoutCR(texts[1..]) == [];
      }
    }
  }

  lemma ReadsFile(lines: seq<FileLine>, ended: bool)
    requires FileOk(lines, ended)
    ensures var texts := Lines(FileOf(lines, ended));
      |texts| == |lines| && forall i :: 0 <= i < |lines| ==> ParseLine(texts[i]) == Reading(lines[i])
  {
    var texts := seq(|lines|, i requires 0 <= i < |lines| => LineText(lines[i]));
    forall i | 0 <= i < |lines| ensures Lacks(texts[i], '\n') {
      OnOneLine(lines[i]);
    }
    LinesOfJoined(texts, ended);
    forall i | 0 <= i < |lines| ensures ParseLine(DropCR(LineText(lines[i]))) == Reading(lines[i]) {
      CutCROk(lines[i]);
      ReadsLine(CutCR(lines[i]));
    }
  }

  lemma {:induction false} LastWins(read: Entries, env: Env, lines: seq<string>, i: nat, k: string, v: string)
    requires i < |lines| && read(lines[i]) == Some((k, v))
    requires forall j | i < j < |lines| && read(lines[j]).Some? :: read(lines[j]).value.0 != k
    ensures k in AddLines(read, env, lines) && AddLines(read, env, lines)[k] == v
    decreases |lines|
  {
    var next := match read(lines[0]) case None => env case Some((k, v)) => env[k := v];
    if i > 0 {
      LastWins(read, next, lines[1..], i - 1, k, v);
    } else {
      StaysSet(read, next, lines[1..], k, v);
    }
  }

  lemma {:induction false} StaysSet(read: Entries, env: Env, lines: seq<string>, k: string, v: string)
    requires k in env && env[k] == v
    requires forall j | 0 <= j < |lines| && read(lines[j]).Some? :: read(lines[j]).value.0 != k
    ensures k in AddLines(read, env, lines) && AddLines(read, env, lines)[k] == v
    decreases |lines|
  {
    if lines != [] {
      var next := match read(lines[0]) case None => env case Some((k, v)) => env[k := v];
      assert forall j | 0 <= j < |lines[1..]| :: lines[1..][j] == lines[j + 1];
      StaysSet(read, next, lines[1..], k, v);
    }
  }

  predicate Sets(l: FileLine, k: string) { (l.Assign? || l.Bare?) && l.key == k }

  lemma FileKeys(lines: seq<FileLine>, ended: bool, k: string)
    requires FileOk(lines, ended)
    ensures k in Parse(FileOf(lines, ended)) ==> KeyOk(k) && exists l <- lines :: Sets(l, k)
  {
    var texts := Lines(FileOf(lines, ended));
    ReadsFile(lines, ended);
    if k in Parse(FileOf(lines, ended)) {
      KeysComeFromLines(ParseLine, map[], texts, k);
      var i :| 0 <= i < |texts| && ParseLine(texts[i]).Some? && ParseLine(texts[i]).value.0 == k;
      assert lines[i] in lines && Sets(lines[i], k);
    }
  }

  lemma FileValue(lines: seq<FileLine>, ended: bool, i: nat)
    requires FileOk(lines, ended) && i < |lines| && (lines[i].Assign? || lines[i].Bare?)
    requires forall j | i < j < |lines| :: !Sets(lines[j], lines[i].key)
    ensures var env, l := Parse(FileOf(lines, ended)), lines[i];
      l.key in env && env[l.key] == if l.Assign? then l.value else ""
  {
    ReadsFile(lines, ended);
    LastWins(ParseLine, map[], Lines(FileOf(lines, ended)), i, lines[i].key,
             if lines[i].Assign? then lines[i].value else "");
  }

  /** Applying a configuration to such a file keeps every entry that the configuration does not
      override, with the value of the last line that sets it, and adds exactly the configured ones. */
  lemma PlainFileKept(config: Env, lines: seq<FileLine>, ended: bool, written: string, printable: Printable)
    requires FileOk(lines, ended) && forall k <- config :: KeyOk(k)
    requires Lists(written, Merged(config, Some(FileOf(lines, ended))), printable)
    ensures forall i | 0 <= i < |lines| && (lines[i].Assign? || lines[i].Bare?) ::
      lines[i].key !in config && (forall j | i < j < |lines| :: !Sets(lines[j], lines[i].key)) ==>
        && lines[i].key in Parse(written)
        && Parse(written)[lines[i].key] == if lines[i].Assign? then lines[i].value else ""
    ensures forall k <- config :: k in Parse(written) && Parse(written)[k] == config[k]
    ensures forall k <- Parse(written) :: k in config || exists l <- lines :: Sets(l, k)
  {
    var file := FileOf(lines, ended);
    forall k <- Parse(file) ensures KeyOk(k) && exists l <- lines :: Sets(l, k) {
      FileKeys(lines, ended, k);
    }
    assert KeysSurvive(config, Some(file));
    ApplyOnceExact(config, Some(file), written, printable);
    forall i | 0 <= i < |lines| && (lines[i].Assign? || lines[i].Bare?)
      && lines[i].key !in config && (forall j | i < j < |lines| :: !Sets(lines[j], lines[i].key))
      ensures lines[i].key in Parse(written)
      ensures Parse(written)[lines[i].key] == if lines[i].Assign? then lines[i].value else ""
    {
      FileValue(lines, ended, i);
    }
  }
}
