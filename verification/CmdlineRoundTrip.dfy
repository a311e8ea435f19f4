/** Printing items onto a command line and reading them back. */
module CmdlineRoundTrip {
  import opened Wrappers
  import opened Regex
  import opened Values
  import opened Accumulate
  import opened Cmdline
  import opened Text

  predicate Gap(g: string) { g != "" && forall i :: 0 <= i < |g| ==> Blank(g[i]) }

  predicate HasQuote(it: Item) { it.Quoted? || it.WholeFlag? || it.WholePair? }

  /** The items on one line, each followed by some white space. */
  function Line(items: seq<Item>, gaps: seq<string>): string
    requires |items| == |gaps|
  {
    if items == [] then "" else Print(items[0]) + gaps[0] + Line(items[1..], gaps[1..])
  }

  predicate LineOk(items: seq<Item>, gaps: seq<string>) {
    && |items| == |gaps|
    && (forall i :: 0 <= i < |items| ==> ItemOk(items[i]))
    && (forall i :: 0 <= i < |gaps| ==> Gap(gaps[i]))
  }

  function Meanings(items: seq<Item>): seq<Assignment> {
    if items == [] then [] else [Meaning(items[0])] + Meanings(items[1..])
  }

  lemma {:induction false} MeaningAt(items: seq<Item>)
    ensures |Meanings(items)| == |items| && forall i :: 0 <= i < |items| ==> Meanings(items)[i] == Meaning(items[i])
  {
    if items != [] {
      MeaningAt(items[1..]);
    }
  }

  lemma MeaningsOk(items: seq<Item>)
    requires forall i :: 0 <= i < |items| ==> ItemOk(items[i])
    ensures KeysOk(Meanings(items))
  {
    MeaningAt(items);
  }

  /** A quoted value without white space that ends in `=`: its closing quote can be taken for the
      opening one of a longer item. */
  predicate Risky(it: Item) {
    it.Quoted? && it.value != "" && it.value[|it.value| - 1] == '=' && Solid(it.value)
  }

  /** Behind a risky item there is none with quotes. */
  predicate Tame(items: seq<Item>) {
    forall i, j :: 0 <= i < j < |items| && Risky(items[i]) ==> !HasQuote(items[j])
  }

  lemma RunIs(s: string, k: Class, n: nat)
    requires n <= |s| && (n < |s| ==> !Member(s[n], k)) && forall i :: 0 <= i < n ==> Member(s[i], k)
    ensures RunLength(s, k) == n
  {
  }

  lemma {:induction false} NoneAssigned(s: string, n: nat)
    requires n <= |s|
    requires forall i :: 0 < i <= n && i + 1 < |s| ==> s[i] != '=' || s[i + 1] != '"'
    ensures AssignedLength(s, n) == None
  {
    if n > 0 {
      NoneAssigned(s, n - 1);
      assert n + 1 < |s| ==> s[n..][1..][0] == s[n + 1];
    }
  }

  lemma {:induction false} AssignedAt(s: string, n: nat, at: nat)
    requires 0 < at <= n <= |s| && ValueLength(s[at..]).Some?
    requires forall i {:trigger ValueLength(s[i..])} :: at < i <= n ==> ValueLength(s[i..]).None?
    ensures AssignedLength(s, n) == Some(at + ValueLength(s[at..]).value)
  {
    if at < n {
      AssignedAt(s, n - 1, at);
    }
  }

  predicate StartsWithSpace(s: string) { s == "" || IsSpace(s[0]) }

  lemma UnquotedItem(p: string, rest: string)
    requires p != "" && Solid(p) && Lacks(p, '"') && StartsWithSpace(rest)
    ensures ItemLength(p + rest) == Some(|p|)
  {
    var s := p + rest;
    RunIs(s, NotSpace, |p|);
    NoneAssigned(s, |p|);
  }

  /** The quoted value is measured from its opening quote to its closing one. */
  lemma QuoteMeasured(v: string, rest: string)
    requires v != "" && Lacks(v, '"')
    ensures QuotedLength("\"" + v + "\"" + rest) == Some(|v| + 2)
  {
    var s := "\"" + v + "\"" + rest;
    RunIs(s[1..], NotQuote, |v|);
  }

  lemma ItemIsAssigned(s: string, n: nat)
    requires s != "" && s[0] != '"' && AssignedLength(s, RunLength(s, NotSpace)) == Some(n)
    ensures ItemLength(s) == Some(n)
  {
  }

  /** The first white space of the item is not before the opening quote, nor behind the closing one. */
  lemma RunOfQuoted(k: string, v: string, rest: string, s: string)
    requires s == k + "=\"" + v + "\"" + rest && Solid(k) && StartsWithSpace(rest)
    ensures |k| < RunLength(s, NotSpace) <= |k| + |v| + 3
  {
    var run := RunLength(s, NotSpace);
    assert rest != "" ==> s[|k| + |v| + 3] == rest[0];
    assert forall i :: 0 <= i <= |k| ==> s[i] == if i < |k| then k[i] else '=';
  }

  lemma ValueMeasured(v: string, rest: string)
    requires v != "" && Lacks(v, '"')
    ensures ValueLength("=\"" + v + "\"" + rest) == Some(|v| + 3)
  {
    var t := "=\"" + v + "\"" + rest;
    assert t[1..] == "\"" + v + "\"" + rest;
    QuoteMeasured(v, rest);
  }

  lemma NoLaterValue(k: string, v: string, rest: string, s: string, run: nat)
    requires s == k + "=\"" + v + "\"" + rest && Solid(k) && run == RunLength(s, NotSpace)
    requires v != "" && Lacks(v, '"') && StartsWithSpace(rest)
    requires v[|v| - 1] == '=' && Solid(v) ==> Lacks(rest, '"')
    ensures forall i {:trigger ValueLength(s[i..])} :: |k| < i <= run ==> ValueLength(s[i..]).None?
  {
    forall i {:trigger ValueLength(s[i..])} | |k| < i <= run ensures ValueLength(s[i..]).None? {
      LaterEquals(k, v, rest, s, i);
    }
  }

  lemma QuotedAssigned(k: string, v: string, rest: string, s: string)
    requires s == k + "=\"" + v + "\"" + rest && k != "" && Solid(k)
    requires v != "" && Lacks(v, '"') && StartsWithSpace(rest)
    requires v[|v| - 1] == '=' && Solid(v) ==> Lacks(rest, '"')
    ensures AssignedLength(s, RunLength(s, NotSpace)) == Some(|k| + |v| + 3)
  {
    var run := RunLength(s, NotSpace);
    RunOfQuoted(k, v, rest, s);
    assert s[|k|..] == "=\"" + v + "\"" + rest;
    ValueMeasured(v, rest);
    NoLaterValue(k, v, rest, s, run);
    AssignedAt(s, run, |k|);
  }

  lemma QuotedItem(k: string, v: string, rest: string)
    requires k != "" && Solid(k) && Lacks(k, '"')
    requires v != "" && Lacks(v, '"') && StartsWithSpace(rest)
    requires v[|v| - 1] == '=' && Solid(v) ==> Lacks(rest, '"')
    ensures ItemLength(k + "=\"" + v + "\"" + rest) == Some(|k| + |v| + 3)
  {
    var s := k + "=\"" + v + "\"" + rest;
    QuotedAssigned(k, v, rest, s);
    assert s[0] == k[0];
    ItemIsAssigned(s, |k| + |v| + 3);
  }

  lemma LaterEquals(k: string, v: string, rest: string, s: string, i: nat)
    requires s == k + "=\"" + v + "\"" + rest && Solid(k)
    requires v != "" && Lacks(v, '"') && StartsWithSpace(rest)
    requires v[|v| - 1] == '=' && Solid(v) ==> Lacks(rest, '"')
    requires |k| < i <= RunLength(s, NotSpace)
    ensures ValueLength(s[i..]).None?
  {
    var close := |k| + |v| + 2;
    var t := s[i..];
    RunOfQuoted(k, v, rest, s);
    assert s[close] == '"' && (rest != "" ==> s[close + 1] == rest[0]);
    if t != "" && t[0] == '=' {
      assert s[i] == '=' && i < |s|;
      if i == close - 1 {
        assert v[|v| - 1] == '=';
        forall j | 0 <= j < |v| ensures !IsSpace(v[j]) {
          assert s[|k| + 2 + j] == v[j] && |k| + 2 + j <= i;
          if |k| + 2 + j == i {
            assert v[j] == '=';
          }
        }
        assert Lacks(rest, '"');
        assert t[1..] == "\"" + rest && t[1..][1..] == rest;
      } else if i < close - 1 {
        assert i != |k| + 1;
        assert t[1] == s[i + 1] == v[i - |k| - 1];
        assert t[1..][0] == t[1];
      }
    }
  }

  lemma BareMeasured(k: string, v: string, rest: string)
    requires Solid(k) && Lacks(k, '"') && Solid(v) && Lacks(v, '"') && StartsWithSpace(rest)
    ensures var p := k + "=" + v; ItemLength(p + rest) == Some(|p|)
  {
    var p := k + "=" + v;
    forall i | 0 <= i < |p| ensures !Blank(p[i]) && p[i] != '"' {
      if i > |k| {
        assert p[i] == v[i - |k| - 1];
      }
    }
    UnquotedItem(p, rest);
  }

  lemma WholeMeasured(t: string, rest: string)
    requires t != "" && Lacks(t, '"')
    ensures var p := "\"" + t + "\""; ItemLength(p + rest) == Some(|p|)
  {
    QuoteMeasured(t, rest);
  }

  lemma ItemMeasured(it: Item, rest: string)
    requires ItemOk(it) && StartsWithSpace(rest)
    requires Risky(it) ==> Lacks(rest, '"')
    ensures ItemLength(Print(it) + rest) == Some(|Print(it)|)
  {
    var k := Join(it.keys);
    JoinPlain(it.keys, it.WholeFlag? || it.WholePair?);
    match it {
      case Flag(_) => UnquotedItem(k, rest);
      case Bare(_, v) => BareMeasured(k, v, rest);
      case Quoted(_, v) => QuotedItem(k, v, rest);
      case WholeFlag(_) => WholeMeasured(k, rest);
      case WholePair(_, v) => WholeMeasured(k + "=" + v, rest);
    }
  }

  lemma RiskyRun(k: string, v: string, rest: string, s: string)
    requires s == k + "=\"" + v + "\"" + rest && Solid(k) && Solid(v) && rest != "" && IsSpace(rest[0])
    ensures RunLength(s, NotSpace) == |k| + |v| + 3
  {
    var n := |k| + |v| + 3;
    assert s[n] == rest[0];
    forall i | 0 <= i < n ensures !IsSpace(s[i]) {
      if i < |k| {
        assert s[i] == k[i];
      } else if |k| + 2 <= i < n - 1 {
        assert s[i] == v[i - |k| - 2];
      }
    }
    RunIs(s, NotSpace, n);
  }

  lemma RiskyAssigned(s: string, n: nat, rest: string, q: nat)
    requires 2 < n <= |s| && s[n..] == rest && s[n - 2] == '=' && s[n - 1] == '"'
    requires 0 < q < |rest| && rest[q] == '"' && forall i :: 0 <= i < q ==> rest[i] != '"'
    requires rest[0] != '='
    ensures AssignedLength(s, n) == Some(n + q + 1)
  {
    var t := s[n - 2..];
    assert t[1..][1..] == rest && t[1..][0] == '"';
    RunIs(rest, NotQuote, q);
    assert ValueLength(t) == Some(q + 3);
    assert s[n - 1..][0] == '"' && s[n..][0] == rest[0];
    AssignedAt(s, n, n - 2);
  }

  /** A risky item swallows everything up to the next quote. */
  lemma RiskyItemGrows(k: string, v: string, rest: string, q: nat)
    requires k != "" && Solid(k) && Lacks(k, '"') && v != "" && Solid(v) && v[|v| - 1] == '='
    requires rest != "" && IsSpace(rest[0])
    requires 0 < q < |rest| && rest[q] == '"' && forall i :: 0 <= i < q ==> rest[i] != '"'
    ensures ItemLength(k + "=\"" + v + "\"" + rest) == Some(|k| + |v| + 3 + q + 1)
  {
    var s := k + "=\"" + v + "\"" + rest;
    var n := |k| + |v| + 3;
    RiskyRun(k, v, rest, s);
    assert s[n..] == rest && s[n - 2] == v[|v| - 1];
    RiskyAssigned(s, n, rest, q);
    assert s[0] == k[0];
    ItemIsAssigned(s, n + q + 1);
  }

  // ---------- the whole line ----------

  lemma {:induction false} SkipGap(g: string, rest: string)
    requires forall i :: 0 <= i < |g| ==> IsSpace(g[i])
    ensures Tokens(g + rest) == Tokens(rest)
  {
    var s := g + rest;
    if g == "" {
      assert s == rest;
    } else {
      assert s[0] == g[0];
      RunIs(s, NotSpace, 0);
      assert ItemLength(s) == None;
      assert s[1..] == g[1..] + rest;
      SkipGap(g[1..], rest);
    }
  }

  lemma {:induction false} NoQuotesOnLine(items: seq<Item>, gaps: seq<string>)
    requires LineOk(items, gaps) && forall i :: 0 <= i < |items| ==> !HasQuote(items[i])
    ensures Lacks(Line(items, gaps), '"')
  {
    if items != [] {
      var it, g := items[0], gaps[0];
      assert ItemOk(it) && Gap(g);
      JoinPlain(it.keys, false);
      assert Lacks(Print(it), '"') && Lacks(g, '"');
      NoQuotesOnLine(items[1..], gaps[1..]);
    }
  }

  lemma {:induction false} QuoteOnLine(items: seq<Item>, gaps: seq<string>, j: nat)
    requires |items| == |gaps| && j < |items| && HasQuote(items[j])
    ensures !Lacks(Line(items, gaps), '"')
  {
    var rest := Line(items[1..], gaps[1..]);
    var s := Line(items, gaps);
    if j == 0 {
      assert s[if items[0].Quoted? then |Join(items[0].keys)| + 1 else 0] == '"';
    } else {
      QuoteOnLine(items[1..], gaps[1..], j - 1);
      var i :| 0 <= i < |rest| && rest[i] == '"';
      assert s[|s| - |rest| + i] == rest[i];
    }
  }

  /** A line whose first item is measured correctly is read as that item and the rest. */
  lemma ReadFirst(items: seq<Item>, gaps: seq<string>)
    requires LineOk(items, gaps) && items != []
    requires Risky(items[0]) ==> forall i :: 0 < i < |items| ==> !HasQuote(items[i])
    ensures ParseAll(Tokens(Line(items, gaps))) ==
            [Meaning(items[0])] + ParseAll(Tokens(Line(items[1..], gaps[1..])))
  {
    var it, g := items[0], gaps[0];
    var tail := Line(items[1..], gaps[1..]);
    var p, rest := Print(it), g + tail;
    var s := p + rest;
    assert s == Line(items, gaps) && ItemOk(it) && Gap(g);
    if Risky(it) {
      NoQuotesOnLine(items[1..], gaps[1..]);
    }
    ItemMeasured(it, rest);
    SkipGap(g, tail);
    ParsePrinted(it);
    TokensOf(p, rest, s);
    ParseCons(p, Tokens(tail));
  }

  lemma TokensOf(p: string, rest: string, s: string)
    requires s == p + rest && p != "" && ItemLength(s) == Some(|p|)
    ensures Tokens(s) == [p] + Tokens(rest)
  {
    assert s[..|p|] == p && s[|p|..] == rest;
  }

  lemma ParseCons(p: string, items: seq<string>)
    ensures ParseAll([p] + items) == [ParseItem(p)] + ParseAll(items)
  {
    assert ([p] + items)[1..] == items;
  }

  lemma TokensStart(s: string, n: nat)
    requires ItemLength(s) == Some(n)
    ensures var ts := ParseAll(Tokens(s)); ts != [] && ts[0] == ParseItem(s[..n])
  {
  }

  lemma LongerValue(k: string, v: string, rest: string, q: nat, item: string)
    requires Lacks(k, '=') && v != "" && Lacks(v, '"')
    requires 0 < q < |rest| && rest[q] == '"' && rest[q - 1] != '"'
    requires item == (k + "=\"" + v + "\"" + rest)[..|k| + |v| + 3 + q + 1]
    ensures |ParseItem(item).value| > |v|
  {
    IndexIs(item, '=', |k|);
    var inner := v + "\"" + rest[..q];
    assert item[|k| + 1..] == "\"" + inner + "\"";
    assert inner[0] == v[0] && inner[|inner| - 1] == rest[q - 1];
    TrimQuoted(inner);
  }

  /** A risky item with a quote behind it is read with a longer value than it was printed with. */
  lemma MisreadItem(it: Item, rest: string, at: nat)
    requires ItemOk(it) && Risky(it) && rest != "" && IsSpace(rest[0]) && at < |rest| && rest[at] == '"'
    ensures var ts := ParseAll(Tokens(Print(it) + rest)); ts != [] && |ts[0].value| > |it.value|
  {
    var k, v, q := Join(it.keys), it.value, RunLength(rest, NotQuote);
    var s := k + "=\"" + v + "\"" + rest;
    assert s == Print(it) + rest;
    JoinPlain(it.keys, false);
    RiskyItemGrows(k, v, rest, q);
    TokensStart(s, |k| + |v| + 3 + q + 1);
    LongerValue(k, v, rest, q, s[..|k| + |v| + 3 + q + 1]);
  }

  lemma MisreadFirst(items: seq<Item>, gaps: seq<string>, j: nat)
    requires LineOk(items, gaps)
    requires 0 < j < |items| && Risky(items[0]) && HasQuote(items[j])
    ensures var ts := ParseAll(Tokens(Line(items, gaps))); ts != [] && |ts[0].value| > |items[0].value|
  {
    var it, g, tail := items[0], gaps[0], Line(items[1..], gaps[1..]);
    var rest := g + tail;
    assert Print(it) + rest == Line(items, gaps) && ItemOk(it) && Gap(g);
    QuoteOnLine(items[1..], gaps[1..], j - 1);
    var i :| 0 <= i < |tail| && tail[i] == '"';
    assert rest[|g| + i] == '"' && rest[0] == g[0];
    MisreadItem(it, rest, |g| + i);
  }

  lemma TameRest(items: seq<Item>)
    requires items != [] && forall j :: 0 < j < |items| && Risky(items[0]) ==> !HasQuote(items[j])
    ensures Tame(items) <==> Tame(items[1..])
  {
    var rest := items[1..];
    assert forall j :: 0 <= j < |rest| ==> rest[j] == items[j + 1];
    assert forall j :: 0 < j < |items| ==> items[j] == rest[j - 1];
  }

  lemma SameRest(x: Assignment, a: seq<Assignment>, b: seq<Assignment>)
    ensures [x] + a == [x] + b <==> a == b
  {
    assert ([x] + a)[1..] == a && ([x] + b)[1..] == b;
  }

  lemma {:induction false} TokensRoundTrip(items: seq<Item>, gaps: seq<string>)
    requires LineOk(items, gaps)
    ensures ParseAll(Tokens(Line(items, gaps))) == Meanings(items) <==> Tame(items)
  {
    if items != [] {
      var rest := items[1..];
      if j: nat :| 0 < j < |items| && Risky(items[0]) && HasQuote(items[j]) {
        MisreadFirst(items, gaps, j);
        assert Meanings(items)[0].value == items[0].value;
      } else {
        ReadFirst(items, gaps);
        TokensRoundTrip(rest, gaps[1..]);
        TameRest(items);
        SameRest(Meaning(items[0]), ParseAll(Tokens(Line(rest, gaps[1..]))), Meanings(rest));
      }
    }
  }

  /** Reading back what was printed gives the same key paths and values, in order, if and only if no item
      with quotes comes after a quoted value that ends in `=` and has no white space. The white space
      behind the last item may be the line feed that ends the file. */
  lemma RoundTripExact(items: seq<Item>, gaps: seq<string>)
    requires LineOk(items, gaps)
    ensures Assignments(Line(items, gaps)) == Meanings(items) <==> Tame(items)
  {
    TokensAreMatches(Line(items, gaps));
    TokensRoundTrip(items, gaps);
  }

  /** From printed items to a field: when reading back is faithful and no key path lies below
      another, an array field holds the printed values of its key, in order. */
  lemma PrintedFieldCollects(items: seq<Item>, gaps: seq<string>, p: Path)
    requires LineOk(items, gaps) && Tame(items)
    requires var ts := Meanings(items);
             && p != [] && ValuesAt(ts, p) != []
             && forall t, u | t in ts && u in ts :: !Below(t.keys, u.keys)
    ensures var r := GetValue(Fold(Assignments(Line(items, gaps))), p);
            r.Some? && ToSlice(r.value) == Strs(ValuesAt(Meanings(items), p))
  {
    RoundTripExact(items, gaps);
    MeaningsOk(items);
    ArrayFieldCollects(Meanings(items), p);
  }

  /** An item quoted as a whole keeps the white space of its value, and the line feed at the end is no
      part of it. */
  lemma WholeItemRead()
    ensures Assignments("\"hostname=a b\"\n") == [Assignment(["hostname"], "a b")]
  {
    var it := WholePair(["hostname"], "a b");
    var items, gaps := [it], ["\n"];
    assert Join(it.keys) == "hostname" && Print(it) == "\"hostname=a b\"";
    assert Line(items[1..], gaps[1..]) == "" && Line(items, gaps) == "\"hostname=a b\"\n";
    assert Meanings(items[1..]) == [];
    RoundTripExact(items, gaps);
  }
}
