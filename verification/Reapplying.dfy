/** Applying the environment again: exactly when it can change what is read. */
module Reapplying {
  import opened Wrappers
  import opened Text
  import opened Quoting
  import opened Environment

  // ---------- entries that are read under any keys ----------

  // What the lines printed for one entry are read as.
  type Reader = (string, string) -> Env

  /** The entries printed in this order and read; where two are read under one key, the later one wins. */
  function Unions(read: Reader, env: Env, order: seq<string>): Env
    requires forall k <- order :: k in env
  {
    if order == [] then map[]
    else
      var init, k := order[..|order| - 1], order[|order| - 1];
      Unions(read, env, init) + read(k, env[k])
  }

  /** The entry of `k` is read under `t`. */
  predicate Under(read: Reader, env: Env, k: string, t: string) { k in env && t in read(k, env[k]) }

  function ValueUnder(read: Reader, env: Env, k: string, t: string): string
    requires Under(read, env, k, t)
  {
    read(k, env[k])[t]
  }

  ghost predicate Arises(read: Reader, env: Env, t: string) { exists k :: Under(read, env, k, t) }

  /** Every value comes from an entry, and every entry is read under its keys. */
  lemma {:induction false} UnionsFrom(read: Reader, env: Env, order: seq<string>, t: string)
    requires forall k <- order :: k in env
    ensures forall k <- order | Under(read, env, k, t) :: t in Unions(read, env, order)
    ensures t in Unions(read, env, order) ==>
            exists k <- order :: Under(read, env, k, t) && Unions(read, env, order)[t] == ValueUnder(read, env, k, t)
  {
    if order != [] {
      var init, last := order[..|order| - 1], order[|order| - 1];
      assert order == init + [last];
      UnionsFrom(read, env, init, t);
      if Under(read, env, last, t) {
        assert last in order;
      } else if t in Unions(read, env, init) {
        var k :| k in init && Under(read, env, k, t) && Unions(read, env, init)[t] == ValueUnder(read, env, k, t);
        assert k in order;
      }
    }
  }

  lemma LastWins(read: Reader, env: Env, init: seq<string>, k: string, t: string)
    requires (forall j <- init :: j in env) && Under(read, env, k, t)
    ensures forall j <- init + [k] :: j in env
    ensures var r := Unions(read, env, init + [k]); t in r && r[t] == ValueUnder(read, env, k, t)
  {
    assert (init + [k])[..|init|] == init;
  }

  lemma LastButOne(read: Reader, env: Env, init: seq<string>, j: string, k: string, t: string)
    requires (forall i <- init :: i in env) && Under(read, env, j, t) && k in env && !Under(read, env, k, t)
    ensures forall i <- init + [j] + [k] :: i in env
    ensures var r := Unions(read, env, init + [j] + [k]); t in r && r[t] == ValueUnder(read, env, j, t)
  {
    LastWins(read, env, init, j, t);
    assert (init + [j] + [k])[..|init + [j]|] == init + [j];
  }

  lemma EndingIn(env: Env, k: string) returns (init: seq<string>)
    requires k in env
    ensures (forall j <- init :: j in env) && Enumerates(init + [k], env)
  {
    init := Listing(env.Keys - {k});
  }

  lemma EndingInBoth(env: Env, j: string, k: string) returns (init: seq<string>)
    requires j in env && k in env && j != k
    ensures (forall i <- init :: i in env) && Enumerates(init + [j] + [k], env)
  {
    init := Listing(env.Keys - {j, k});
  }

  // ---------- when reading again changes nothing ----------

  // What becomes of a key that was read: it is read as itself, not at all, or as another one.
  datatype Kind = Fixed | Silent | Moved(to: string)

  type Kinds = string -> Kind

  /** What reading is like: keys that were read are of some kind, and only configured entries can be
      read under several keys. */
  ghost predicate Lawful(read: Reader, kind: Kinds, config: Env, env: Env) {
    && (forall c <- config :: c in env && env[c] == config[c])
    && (forall t, v | Arises(read, env, t) :: OfKind(read(t, v), kind(t), t, v))
    && (forall t | Arises(read, env, t) :: kind(t) != Moved(t))
    && forall k, t, u | Under(read, env, k, t) && Under(read, env, k, u) && k !in config :: t == u
  }

  predicate OfKind(e: Env, kind: Kind, t: string, v: string) {
    match kind case Fixed => e == map[t := v] case Silent => e == map[] case Moved(u) => e == map[u := v]
  }

  /** A configured entry is read under the same keys again, so it must agree with all its rivals. */
  ghost predicate NoRivals(read: Reader, config: Env, env: Env) {
    forall c, k, t | c in config && Under(read, env, c, t) && Under(read, env, k, t) ::
      ValueUnder(read, env, c, t) == ValueUnder(read, env, k, t)
  }

  /** A key that is read under another one next time must find its own value there. */
  ghost predicate MovesAgree(read: Reader, kind: Kinds, config: Env, env: Env) {
    forall t, u | Arises(read, env, t) && t !in config && kind(t) == Moved(u) ::
      && Arises(read, env, u)
      && forall j, k | Under(read, env, j, t) && Under(read, env, k, u) ::
        ValueUnder(read, env, j, t) == ValueUnder(read, env, k, u)
  }

  /** A key that is not read as itself must be read from another entry. */
  ghost predicate Renewed(read: Reader, kind: Kinds, config: Env, env: Env) {
    forall t | Arises(read, env, t) && kind(t) != Fixed ::
      || (exists c <- config :: Under(read, env, c, t))
      || exists s :: Arises(read, env, s) && s !in config && kind(s) == Moved(t)
  }

  ghost predicate Steady(read: Reader, kind: Kinds, config: Env, env: Env) {
    NoRivals(read, config, env) && MovesAgree(read, kind, config, env) && Renewed(read, kind, config, env)
  }

  /** Whatever the orders of two applications, the second one is read like the first. */
  ghost predicate Settles(read: Reader, config: Env, env: Env) {
    forall o, p | Enumerates(o, env) && Enumerates(p, Unions(read, env, o) + config) ::
      Unions(read, Unions(read, env, o) + config, p) == Unions(read, env, o)
  }

  // ---------- sufficient ----------

  /** What the first application reads: a value of each key that arises, and nothing else. */
  lemma FirstReading(read: Reader, env: Env, o: seq<string>, t: string)
    requires Enumerates(o, env)
    ensures var r := Unions(read, env, o);
      && (t in r <==> Arises(read, env, t))
      && (t in r ==> exists k :: Under(read, env, k, t) && r[t] == ValueUnder(read, env, k, t))
  {
    UnionsFrom(read, env, o, t);
  }

  /** A key that was read keeps its value, under whatever key it is read next. */
  lemma MovedAlike(read: Reader, kind: Kinds, config: Env, env: Env, o: seq<string>, k: string, u: string)
    requires MovesAgree(read, kind, config, env) && Enumerates(o, env)
    requires k in Unions(read, env, o) && k !in config && kind(k) == Moved(u)
    ensures var r := Unions(read, env, o); u in r && r[u] == r[k]
  {
    FirstReading(read, env, o, k);
    FirstReading(read, env, o, u);
  }

  lemma RivalsAlike(read: Reader, config: Env, env: Env, o: seq<string>, c: string, t: string)
    requires NoRivals(read, config, env) && Enumerates(o, env) && c in config && Under(read, env, c, t)
    ensures var r := Unions(read, env, o); t in r && r[t] == ValueUnder(read, env, c, t)
  {
    FirstReading(read, env, o, t);
  }

  /** Every entry of the second file is read as something the first reading holds. */
  lemma ReadAlike(read: Reader, kind: Kinds, config: Env, env: Env, o: seq<string>, k: string, t: string)
    requires Lawful(read, kind, config, env) && Steady(read, kind, config, env) && Enumerates(o, env)
    requires Under(read, Unions(read, env, o) + config, k, t)
    ensures var r := Unions(read, env, o); t in r && r[t] == ValueUnder(read, r + config, k, t)
  {
    if k in config {
      RivalsAlike(read, config, env, o, k, t);
    } else {
      var r := Unions(read, env, o);
      FirstReading(read, env, o, k);
      assert OfKind(read(k, r[k]), kind(k), k, r[k]);
      if kind(k).Moved? {
        MovedAlike(read, kind, config, env, o, k, kind(k).to);
      }
    }
  }

  /** And every key of the first reading is read again. */
  lemma ReadAgain(read: Reader, kind: Kinds, config: Env, env: Env, o: seq<string>, t: string) returns (k: string)
    requires Lawful(read, kind, config, env) && Steady(read, kind, config, env) && Enumerates(o, env)
    requires t in Unions(read, env, o)
    ensures Under(read, Unions(read, env, o) + config, k, t)
  {
    var r := Unions(read, env, o);
    FirstReading(read, env, o, t);
    if kind(t) == Fixed {
      k := t;
      assert OfKind(read(t, (r + config)[t]), Fixed, t, (r + config)[t]);
    } else if c :| c in config && Under(read, env, c, t) {
      k := c;
    } else {
      k :| Arises(read, env, k) && k !in config && kind(k) == Moved(t);
      FirstReading(read, env, o, k);
      assert OfKind(read(k, r[k]), kind(k), k, r[k]);
    }
  }

  lemma SecondReading(read: Reader, kind: Kinds, config: Env, env: Env, o: seq<string>, p: seq<string>, t: string)
    requires Lawful(read, kind, config, env) && Steady(read, kind, config, env)
    requires Enumerates(o, env) && Enumerates(p, Unions(read, env, o) + config)
    ensures var r := Unions(read, env, o);
      var s := Unions(read, r + config, p);
      (t in s <==> t in r) && (t in s ==> s[t] == r[t])
  {
    var r := Unions(read, env, o);
    var s := Unions(read, r + config, p);
    FirstReading(read, r + config, p, t);
    if t in s {
      var k :| Under(read, r + config, k, t) && s[t] == ValueUnder(read, r + config, k, t);
      ReadAlike(read, kind, config, env, o, k, t);
    } else if t in r {
      var k := ReadAgain(read, kind, config, env, o, t);
    }
  }

  lemma SameMap(s: Env, r: Env)
    requires forall t :: (t in s <==> t in r) && (t in s ==> s[t] == r[t])
    ensures s == r
  {
  }

  lemma SteadySettles(read: Reader, kind: Kinds, config: Env, env: Env)
    requires Lawful(read, kind, config, env) && Steady(read, kind, config, env)
    ensures Settles(read, config, env)
  {
    forall o, p | Enumerates(o, env) && Enumerates(p, Unions(read, env, o) + config)
      ensures Unions(read, Unions(read, env, o) + config, p) == Unions(read, env, o)
    {
      var r := Unions(read, env, o);
      var s := Unions(read, r + config, p);
      forall t ensures (t in s <==> t in r) && (t in s ==> s[t] == r[t]) {
        SecondReading(read, kind, config, env, o, p, t);
      }
      SameMap(s, r);
    }
  }

  // ---------- necessary ----------

  /** Any entry of the second file can be the last one there. */
  lemma SettledEntry(read: Reader, config: Env, env: Env, o: seq<string>, k: string, t: string)
    requires Settles(read, config, env) && Enumerates(o, env)
    requires Under(read, Unions(read, env, o) + config, k, t)
    ensures var r := Unions(read, env, o); t in r && r[t] == ValueUnder(read, r + config, k, t)
  {
    var e := Unions(read, env, o) + config;
    var init := EndingIn(e, k);
    LastWins(read, e, init, k, t);
  }

  lemma SettledRivals(read: Reader, kind: Kinds, config: Env, env: Env)
    requires Lawful(read, kind, config, env) && Settles(read, config, env)
    ensures NoRivals(read, config, env)
  {
    forall c, k, t | c in config && Under(read, env, c, t) && Under(read, env, k, t)
      ensures ValueUnder(read, env, c, t) == ValueUnder(read, env, k, t)
    {
      var init := EndingIn(env, k);
      LastWins(read, env, init, k, t);
      SettledEntry(read, config, env, init + [k], c, t);
    }
  }

  /** A first reading in which the moved key has the value of `j`: next time it is read under `u`. */
  lemma MovedTo(read: Reader, kind: Kinds, config: Env, env: Env, o: seq<string>, j: string, t: string, u: string)
    requires Lawful(read, kind, config, env) && Settles(read, config, env) && Enumerates(o, env)
    requires Under(read, env, j, t) && t !in config && kind(t) == Moved(u)
    requires var r := Unions(read, env, o); t in r && r[t] == ValueUnder(read, env, j, t)
    ensures var r := Unions(read, env, o); u in r && r[u] == ValueUnder(read, env, j, t)
  {
    var r := Unions(read, env, o);
    assert OfKind(read(t, r[t]), kind(t), t, r[t]);
    SettledEntry(read, config, env, o, t, u);
  }

  lemma MovedAgrees(read: Reader, kind: Kinds, config: Env, env: Env, j: string, k: string, t: string, u: string)
    requires Lawful(read, kind, config, env) && Settles(read, config, env)
    requires Under(read, env, j, t) && t !in config && kind(t) == Moved(u) && Under(read, env, k, u)
    ensures ValueUnder(read, env, j, t) == ValueUnder(read, env, k, u)
  {
    assert t != u;
    SettledRivals(read, kind, config, env);
    if Under(read, env, j, u) {
      var init := EndingIn(env, j);
      LastWins(read, env, init, j, t);
      LastWins(read, env, init, j, u);
      MovedTo(read, kind, config, env, init + [j], j, t, u);
      assert j in config;
    } else {
      var init := EndingInBoth(env, k, j);
      LastWins(read, env, init + [k], j, t);
      LastButOne(read, env, init, k, j, u);
      MovedTo(read, kind, config, env, init + [k] + [j], j, t, u);
    }
  }

  lemma SettledMoves(read: Reader, kind: Kinds, config: Env, env: Env)
    requires Lawful(read, kind, config, env) && Settles(read, config, env)
    ensures MovesAgree(read, kind, config, env)
  {
    forall t, u | Arises(read, env, t) && t !in config && kind(t) == Moved(u)
      ensures Arises(read, env, u)
      ensures forall j, k | Under(read, env, j, t) && Under(read, env, k, u) ::
                ValueUnder(read, env, j, t) == ValueUnder(read, env, k, u)
    {
      var i :| Under(read, env, i, t);
      var init := EndingIn(env, i);
      LastWins(read, env, init, i, t);
      MovedTo(read, kind, config, env, init + [i], i, t, u);
      FirstReading(read, env, init + [i], u);
      forall j, k | Under(read, env, j, t) && Under(read, env, k, u)
        ensures ValueUnder(read, env, j, t) == ValueUnder(read, env, k, u)
      {
        MovedAgrees(read, kind, config, env, j, k, t, u);
      }
    }
  }

  lemma SettledRenews(read: Reader, kind: Kinds, config: Env, env: Env)
    requires Lawful(read, kind, config, env) && Settles(read, config, env)
    ensures Renewed(read, kind, config, env)
  {
    forall t | Arises(read, env, t) && kind(t) != Fixed
      ensures (exists c <- config :: Under(read, env, c, t)) ||
              exists s :: Arises(read, env, s) && s !in config && kind(s) == Moved(t)
    {
      var o := Listing(env.Keys);
      var r := Unions(read, env, o);
      var p := Listing((r + config).Keys);
      FirstReading(read, env, o, t);
      FirstReading(read, r + config, p, t);
      var k :| Under(read, r + config, k, t);
      if k in config {
        assert Under(read, env, k, t);
      } else {
        FirstReading(read, env, o, k);
        assert OfKind(read(k, r[k]), kind(k), k, r[k]);
      }
    }
  }

  lemma SettlesExact(read: Reader, kind: Kinds, config: Env, env: Env)
    requires Lawful(read, kind, config, env)
    ensures Settles(read, config, env) <==> Steady(read, kind, config, env)
  {
    if Settles(read, config, env) {
      SettledRivals(read, kind, config, env);
      SettledMoves(read, kind, config, env);
      SettledRenews(read, kind, config, env);
    }
    if Steady(read, kind, config, env) {
      SteadySettles(read, kind, config, env);
    }
  }

  // ---------- the file ----------

  /** The lines printed for one entry, read on their own; a key with line feeds makes several. */
  function Reads(printable: Printable): Reader { (k, v) => Parse(PrintLine(k, v, printable) + "\n") }

  function KindOf(t: string): Kind {
    if StartsWith(t, "#") then Silent
    else if StartsWith(t, "export") then Moved(TrimLeft(t[6..]))
    else Fixed
  }

  lemma IndexAppend(s: string, t: string, i: nat)
    requires i < |s| && i == IndexOf(s, '\n')
    ensures IndexOf(s + t, '\n') == i && (s + t)[..i] == s[..i] && (s + t)[i + 1..] == s[i + 1..] + t
  {
    IndexIs(s + t, '\n', i);
  }

  lemma CutFirst(s: string, i: nat, first: string, rest: string)
    requires i < |s| && i == IndexOf(s, '\n') && first == DropCR(s[..i]) && rest == s[i + 1..]
    ensures Lines(s) == [first] + Lines(rest)
  {
  }

  lemma Glue(first: string, rest: seq<string>, more: seq<string>)
    ensures [first] + rest + more == [first] + (rest + more)
  {
  }

  lemma {:induction false} LinesAppend(s: string, t: string)
    requires EndsLine(s)
    ensures Lines(s + t) == Lines(s) + Lines(t)
    decreases |s|
  {
    if s == "" {
      assert s + t == t;
    } else {
      var i := IndexOf(s, '\n');
      var first, rest := DropCR(s[..i]), s[i + 1..];
      IndexAppend(s, t, i);
      LinesAppend(rest, t);
      CutFirst(s, i, first, rest);
      CutFirst(s + t, i, first, rest + t);
      Glue(first, Lines(rest), Lines(t));
    }
  }

  lemma {:induction false} AddLinesAppend(read: Entries, env: Env, lines: seq<string>, more: seq<string>)
    ensures AddLines(read, env, lines + more) == AddLines(read, AddLines(read, env, lines), more)
    decreases |lines|
  {
    if lines == [] {
      assert lines + more == more;
    } else {
      var next := match read(lines[0]) case None => env case Some((k, v)) => env[k := v];
      AddLinesAppend(read, next, lines[1..], more);
      assert (lines + more)[1..] == lines[1..] + more;
    }
  }

  lemma {:induction false} AddLinesOver(read: Entries, env: Env, lines: seq<string>)
    ensures AddLines(read, env, lines) == env + AddLines(read, map[], lines)
    decreases |lines|
  {
    if lines != [] {
      match read(lines[0]) {
        case None => AddLinesOver(read, env, lines[1..]);
        case Some((k, v)) =>
          AddLinesOver(read, env[k := v], lines[1..]);
          AddLinesOver(read, map[k := v], lines[1..]);
      }
    }
  }

  lemma ParseAppend(s: string, t: string)
    requires EndsLine(s)
    ensures Parse(s + t) == Parse(s) + Parse(t)
  {
    LinesAppend(s, t);
    AddLinesAppend(ParseLine, map[], Lines(s), Lines(t));
    AddLinesOver(ParseLine, Parse(s), Lines(t));
  }

  lemma LineAdded(text: string, line: string, whole: string)
    requires EndsLine(text) && whole == text + line + "\n"
    ensures EndsLine(whole) && Parse(whole) == Parse(text) + Parse(line + "\n")
  {
    assert whole == text + (line + "\n");
    ParseAppend(text, line + "\n");
  }

  /** Reading a printed file puts together what its entries are read as. */
  lemma {:induction false} PrintedUnions(env: Env, order: seq<string>, printable: Printable)
    requires forall k <- order :: k in env
    ensures EndsLine(Print(env, order, printable))
    ensures Parse(Print(env, order, printable)) == Unions(Reads(printable), env, order)
  {
    if order != [] {
      var init, k := order[..|order| - 1], order[|order| - 1];
      assert order == init + [k];
      PrintedUnions(env, init, printable);
      PrintSnoc(env, init, k, printable);
      LineAdded(Print(env, init, printable), PrintLine(k, env[k], printable), Print(env, order, printable));
    }
  }

  // ---------- what reading is like ----------

  /** A key as it can come out of a file. */
  predicate Plain(t: string) { Lacks(t, '\n') && Lacks(t, '=') && (t != "" ==> !IsWhite(t[0])) }

  lemma ReadIsPlain(text: string, t: string)
    requires t in Parse(text)
    ensures Plain(t)
  {
    var lines := Lines(text);
    KeysComeFromLines(ParseLine, map[], lines, t);
    var i :| 0 <= i < |lines| && ParseLine(lines[i]).Some? && ParseLine(lines[i]).value.0 == t;
    ReadKey(lines[i]);
    ReadKeyOnOneLine(text, t);
  }

  function EntryMap(e: Option<(string, string)>): Env { match e case None => map[] case Some((k, v)) => map[k := v] }

  lemma OneLineAdded(read: Entries, l: string)
    ensures AddLines(read, map[], [l]) == EntryMap(read(l))
  {
    assert AddLines(read, map[], [l]) == AddLines(read, EntryMap(read(l)), [l][1..]);
  }

  lemma OneLineRead(l: string)
    requires Lacks(l, '\n') && l != "" && l[|l| - 1] != '\r'
    ensures Parse(l + "\n") == EntryMap(ParseLine(l))
  {
    FirstLine(l, "");
    assert l + "\n" + "" == l + "\n";
    OneLineAdded(ParseLine, l);
  }

  lemma {:induction false} TrimLeftAppend(s: string, t: string)
    requires t != "" && !IsWhite(t[0])
    ensures TrimLeft(s + t) == TrimLeft(s) + t
  {
    if s == "" {
      assert s + t == t;
    } else if IsWhite(s[0]) {
      assert (s + t)[1..] == s[1..] + t;
      TrimLeftAppend(s[1..], t);
    }
  }

  lemma EntryTrimmed(x: string, q: string)
    requires q != "" && !IsWhite(q[|q| - 1])
    ensures TrimSpace(x + "=" + q) == TrimLeft(x) + "=" + q
  {
    var eq := "=" + q;
    TrimLeftAppend(x, eq);
    assert x + "=" + q == x + eq && TrimLeft(x) + "=" + q == TrimLeft(x) + eq;
    TrimEnd(TrimLeft(x) + eq);
  }

  lemma EntryParsed(key: string, q: string, v: string)
    requires Lacks(key, '=') && |q| > 1 && Unquote(q) == Some(v)
    ensures ParseEntry(key + "=" + q) == Some((key, v))
  {
    CutAtEquals(key, q);
  }

  /** A key behind an `export` is read without the white space in front of it. */
  lemma MovedRead(t: string, v: string, printable: Printable)
    requires Plain(t) && StartsWith(t, "export") && !StartsWith(t, "#")
    ensures ParseLine(PrintLine(t, v, printable)) == Some((TrimLeft(t[6..]), v))
  {
    var q := Quote(v, printable);
    UnquoteQuote(v, printable);
    EntryOf(t, q);
    EntryTrimmed(t[6..], q);
    TrimLeftLacks(t[6..], '=');
    EntryParsed(TrimLeft(t[6..]), q, v);
  }

  lemma TrimEnd(l: string)
    requires l != "" && !IsWhite(l[|l| - 1])
    ensures TrimRight(l) == l
  {
  }

  lemma SilentRead(t: string, v: string, printable: Printable)
    requires Plain(t) && StartsWith(t, "#")
    ensures ParseLine(PrintLine(t, v, printable)).None?
  {
    EntryOf(t, Quote(v, printable));
  }

  lemma QuotedLine(t: string, v: string, printable: Printable)
    requires Lacks(t, '\n')
    ensures var l := PrintLine(t, v, printable); Lacks(l, '\n') && l != "" && l[|l| - 1] == '"'
  {
    UnquoteQuote(v, printable);
  }

  lemma PlainKind(t: string, v: string, printable: Printable)
    requires Plain(t)
    ensures OfKind(Reads(printable)(t, v), KindOf(t), t, v) && KindOf(t) != Moved(t)
  {
    var l := PrintLine(t, v, printable);
    QuotedLine(t, v, printable);
    OneLineRead(l);
    match KindOf(t) {
      case Silent => SilentRead(t, v, printable);
      case Moved(_) => MovedRead(t, v, printable);
      case Fixed => LineExact(t, v, printable);
    }
  }

  lemma OneLineOneKey(k: string, v: string, printable: Printable, t: string, u: string)
    requires Lacks(k, '\n') && t in Reads(printable)(k, v) && u in Reads(printable)(k, v)
    ensures t == u
  {
    QuotedLine(k, v, printable);
    OneLineRead(PrintLine(k, v, printable));
  }

  lemma ReadsLawful(config: Env, file: Option<string>, printable: Printable)
    ensures Lawful(Reads(printable), KindOf, config, Merged(config, file))
  {
    var read, env := Reads(printable), Merged(config, file);
    forall t, v | Arises(read, env, t) ensures OfKind(read(t, v), KindOf(t), t, v) && KindOf(t) != Moved(t) {
      var k :| Under(read, env, k, t);
      ReadIsPlain(PrintLine(k, env[k], printable) + "\n", t);
      PlainKind(t, v, printable);
    }
    forall k, t, u | Under(read, env, k, t) && Under(read, env, k, u) && k !in config ensures t == u {
      ReadIsPlain(FileText(file), k);
      OneLineOneKey(k, env[k], printable, t, u);
    }
  }

  // ---------- the result ----------

  /** No second application changes what is read, whatever the order of either. */
  ghost predicate AppliesTwice(config: Env, file: Option<string>, printable: Printable) {
    forall first, second
      | Lists(first, Merged(config, file), printable) && Lists(second, Merged(config, Some(first)), printable) ::
      Parse(second) == Parse(first)
  }

  lemma ListedUnions(text: string, env: Env, printable: Printable) returns (order: seq<string>)
    requires Lists(text, env, printable)
    ensures Enumerates(order, env) && Parse(text) == Unions(Reads(printable), env, order)
  {
    order :| Enumerates(order, env) && text == Print(env, order, printable);
    PrintedUnions(env, order, printable);
  }

  lemma SettlesTexts(config: Env, file: Option<string>, printable: Printable)
    ensures Settles(Reads(printable), config, Merged(config, file)) <==> AppliesTwice(config, file, printable)
  {
    var read, env := Reads(printable), Merged(config, file);
    if Settles(read, config, env) {
      forall first, second
        | Lists(first, env, printable) && Lists(second, Merged(config, Some(first)), printable)
        ensures Parse(second) == Parse(first)
      {
        var o := ListedUnions(first, env, printable);
        var p := ListedUnions(second, Merged(config, Some(first)), printable);
      }
    }
    if AppliesTwice(config, file, printable) {
      forall o, p | Enumerates(o, env) && Enumerates(p, Unions(read, env, o) + config)
        ensures Unions(read, Unions(read, env, o) + config, p) == Unions(read, env, o)
      {
        var first := Print(env, o, printable);
        PrintedUnions(env, o, printable);
        var second := Print(Unions(read, env, o) + config, p, printable);
        PrintedUnions(Unions(read, env, o) + config, p, printable);
        assert Lists(first, env, printable) && Lists(second, Merged(config, Some(first)), printable);
      }
    }
  }

  /** Exactly when applying a configuration again changes nothing that is read: no configured entry is
      read under the same key as an entry with another value; a key that is read as another one next
      time finds its own value there; and a key that is not read as itself is read from another entry. */
  lemma ReapplyExact(config: Env, file: Option<string>, printable: Printable)
    ensures AppliesTwice(config, file, printable) <==>
            Steady(Reads(printable), KindOf, config, Merged(config, file))
  {
    ReadsLawful(config, file, printable);
    SettlesExact(Reads(printable), KindOf, config, Merged(config, file));
    SettlesTexts(config, file, printable);
  }

  /** When no key looks like a comment or an `export` once it is read, only rivals matter. */
  lemma PlainReapplyExact(config: Env, file: Option<string>, printable: Printable)
    requires forall t | Arises(Reads(printable), Merged(config, file), t) :: KindOf(t) == Fixed
    ensures AppliesTwice(config, file, printable) <==> NoRivals(Reads(printable), config, Merged(config, file))
  {
    ReapplyExact(config, file, printable);
  }

  lemma SurvivorsFixed(config: Env, file: Option<string>, printable: Printable)
    requires KeysSurvive(config, file)
    ensures forall k, t | Under(Reads(printable), Merged(config, file), k, t) :: t == k && KindOf(t) == Fixed
  {
    var read, env := Reads(printable), Merged(config, file);
    MergedKeysOk(config, file);
    forall k, t | Under(read, env, k, t) ensures t == k && KindOf(t) == Fixed {
      assert KeyOk(k);
      PlainKind(k, env[k], printable);
    }
  }

  /** No key gets lost: the simplest case. */
  lemma SurvivorsSteady(config: Env, file: Option<string>, printable: Printable)
    requires KeysSurvive(config, file)
    ensures Steady(Reads(printable), KindOf, config, Merged(config, file))
  {
    SurvivorsFixed(config, file, printable);
  }

  /** So two applications in any orders read alike. */
  lemma ApplyTwice(config: Env, file: Option<string>, first: string, second: string, printable: Printable)
    requires Steady(Reads(printable), KindOf, config, Merged(config, file))
    requires Lists(first, Merged(config, file), printable)
    requires Lists(second, Merged(config, Some(first)), printable)
    ensures Parse(second) == Parse(first)
  {
    ReapplyExact(config, file, printable);
  }
}
