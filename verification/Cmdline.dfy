/** The kernel command line: cut into items by the pattern, each item split into a key path and a
    value, the values folded into a nested map. */
module Cmdline {
  import opened Wrappers
  import opened Regex
  import opened Values
  import opened Accumulate
  import opened Text

  // "[^"]+"  or  [^\s]+="[^"]+"  or  [^\s]+ , tried in this order.
  const QUOTED := Then(One(Just('"')), Then(Many(NotQuote), One(Just('"'))))
  const VALUE := Then(One(Just('=')), QUOTED)
  const ASSIGNED := Then(Many(NotSpace), VALUE)
  const PATTERN := Or(QUOTED, Or(ASSIGNED, Many(NotSpace)))

  // ---------- the pattern, solved ----------

  /** The length of a quoted text with something in it. */
  function QuotedLength(s: string): (r: Option<nat>)
    ensures r.Some? ==> 0 < r.value <= |s|
  {
    if s == [] || s[0] != '"' then None
    else
      var n := RunLength(s[1..], NotQuote);
      if n == 0 || 1 + n == |s| then None else Some(n + 2)
  }

  /** The length of an equals sign and a quoted text. */
  function ValueLength(s: string): (r: Option<nat>)
    ensures r.Some? ==> 0 < r.value <= |s|
  {
    if s == [] || s[0] != '=' || QuotedLength(s[1..]).None? then None
    else Some(1 + QuotedLength(s[1..]).value)
  }

  /** A key, an equals sign at most `n` characters in, and a quoted text: the longest key wins. */
  function AssignedLength(s: string, n: nat): (r: Option<nat>)
    requires n <= |s|
    ensures r.Some? ==> 0 < r.value <= |s|
  {
    if n == 0 then None
    else match ValueLength(s[n..])
      case Some(m) => Some(n + m)
      case None => AssignedLength(s, n - 1)
  }

  function ItemLength(s: string): (r: Option<nat>)
    ensures r.Some? ==> 0 < r.value <= |s|
  {
    var run := RunLength(s, NotSpace);
    if QuotedLength(s).Some? then QuotedLength(s)
    else if AssignedLength(s, run).Some? then AssignedLength(s, run)
    else if run > 0 then Some(run) else None
  }

  lemma ChainDown(second: Re, s: string, n: nat)
    requires 0 < n <= |s|
    ensures First(Chain(Down(n), second, s)) ==
            match First(Lengths(second, s[n..]))
            case Some(m) => Some(n + m)
            case None => First(Chain(Down(n - 1), second, s))
  {
    FirstOfChain(Down(n), second, s);
    assert Down(n)[1..] == Down(n - 1);
  }

  /** The preferred match of a run of at most `i` characters and then `second`, for every `i`. */
  ghost predicate AreFirsts(firsts: seq<Option<nat>>, second: Re, s: string) {
    |firsts| == |s| + 1 &&
    forall i {:trigger firsts[i]} :: 0 <= i <= |s| ==> firsts[i] == First(Chain(Down(i), second, s))
  }

  /** A longer run is preferred; only if the rest does not match behind it, a shorter one is tried. */
  ghost predicate Backtracks(firsts: seq<Option<nat>>, here: seq<Option<nat>>) {
    && |firsts| == |here| > 0 && firsts[0] == None
    && forall i {:trigger here[i]} :: 0 < i < |firsts| ==>
      firsts[i] == match here[i] case Some(m) => Some(i + m) case None => firsts[i - 1]
  }

  /** What matches behind each position. */
  ghost predicate Behind(here: seq<Option<nat>>, second: Re, s: string) {
    |here| == |s| + 1 && forall i {:trigger here[i]} :: 0 <= i <= |s| ==> here[i] == First(Lengths(second, s[i..]))
  }

  lemma FirstsBacktrack(second: Re, s: string, here: seq<Option<nat>>, firsts: seq<Option<nat>>)
    requires Behind(here, second, s) && AreFirsts(firsts, second, s)
    ensures Backtracks(firsts, here)
  {
    forall i | 0 < i < |firsts|
      ensures firsts[i] == match here[i] case Some(m) => Some(i + m) case None => firsts[i - 1]
    {
      ChainDown(second, s, i);
    }
  }

  lemma {:induction false} CloseQuote(firsts: seq<Option<nat>>, here: seq<Option<nat>>, s: string, n: nat)
    requires Backtracks(firsts, here) && |here| == |s| + 1 && n <= RunLength(s, NotQuote)
    requires forall i :: 0 <= i <= |s| ==> here[i] == if i < |s| && s[i] == '"' then Some(1) else None
    ensures firsts[n] == if 0 < n && n == RunLength(s, NotQuote) && n < |s| then Some(n + 1) else None
  {
    if n > 0 {
      CloseQuote(firsts, here, s, n - 1);
      assert here[n].None? || here[n] == Some(1);
    }
  }

  /** The same as AssignedLength, for whatever tells the length of a value. */
  function AssignedWith(value: string -> Option<nat>, s: string, n: nat): Option<nat>
    requires n <= |s|
  {
    if n == 0 then None
    else match value(s[n..]) case Some(m) => Some(n + m) case None => AssignedWith(value, s, n - 1)
  }

  lemma {:induction false} AssignedIsWith(s: string, n: nat)
    requires n <= |s|
    ensures AssignedLength(s, n) == AssignedWith(ValueLength, s, n)
  {
    if n > 0 {
      AssignedIsWith(s, n - 1);
    }
  }

  lemma {:induction false} AssignedBacktrack(value: string -> Option<nat>, firsts: seq<Option<nat>>,
                                             here: seq<Option<nat>>, s: string, n: nat)
    requires Backtracks(firsts, here) && |here| == |s| + 1 && n <= |s|
    requires forall i {:trigger here[i]} :: 0 <= i <= |s| ==> here[i] == value(s[i..])
    ensures firsts[n] == AssignedWith(value, s, n)
  {
    if n > 0 {
      AssignedBacktrack(value, firsts, here, s, n - 1);
      assert here[n] == value(s[n..]);
    }
  }

  lemma OneLengths(c: char, s: string)
    ensures Lengths(One(Just(c)), s) == if s != [] && s[0] == c then [1] else []
  {
  }

  lemma ChainNone(ns: seq<nat>, rest: Re, s: string)
    requires ns == []
    ensures Chain(ns, rest, s) == []
  {
  }

  lemma ChainOne(ns: seq<nat>, rest: Re, s: string)
    requires s != [] && ns == [1]
    ensures First(Chain(ns, rest, s)) ==
            match First(Lengths(rest, s[1..])) case Some(m) => Some(1 + m) case None => None
  {
    FirstOfChain(ns, rest, s);
    ChainNone(ns[1..], rest, s);
  }

  /** A character first: the rest must match behind it. */
  lemma AfterChar(c: char, rest: Re, s: string)
    ensures First(Lengths(Then(One(Just(c)), rest), s)) ==
            if s == [] || s[0] != c then None
            else match First(Lengths(rest, s[1..])) case Some(m) => Some(1 + m) case None => None
  {
    OneLengths(c, s);
    if s != [] && s[0] == c {
      ChainOne([1], rest, s);
    }
  }

  lemma JustSolved(c: char, s: string, i: nat)
    requires i <= |s|
    ensures First(Lengths(One(Just(c)), s[i..])) == if i < |s| && s[i] == c then Some(1) else None
  {
  }

  lemma QuoteClosed(s: string, quote: Re, n: nat)
    requires quote == One(Just('"')) && n == RunLength(s, NotQuote)
    ensures First(Chain(Down(n), quote, s)) == if 0 < n < |s| then Some(n + 1) else None
  {
    var here := seq(|s| + 1, i requires 0 <= i <= |s| => First(Lengths(quote, s[i..])));
    forall i | 0 <= i <= |s| ensures here[i] == if i < |s| && s[i] == '"' then Some(1) else None {
      JustSolved('"', s, i);
    }
    var firsts := seq(|s| + 1, i requires 0 <= i <= |s| => First(Chain(Down(i), quote, s)));
    FirstsBacktrack(quote, s, here, firsts);
    CloseQuote(firsts, here, s, n);
  }

  lemma QuotedSolved(s: string)
    ensures First(Lengths(QUOTED, s)) == QuotedLength(s)
  {
    AfterChar('"', Then(Many(NotQuote), One(Just('"'))), s);
    if s != [] && s[0] == '"' {
      QuoteClosed(s[1..], One(Just('"')), RunLength(s[1..], NotQuote));
    }
  }

  lemma ValueSolved(s: string)
    ensures First(Lengths(VALUE, s)) == ValueLength(s)
  {
    AfterChar('=', QUOTED, s);
    if s != [] {
      QuotedSolved(s[1..]);
    }
  }

  lemma AssignmentSolved(s: string, n: nat, value: Re)
    requires value == VALUE && n <= |s|
    ensures First(Chain(Down(n), value, s)) == AssignedLength(s, n)
  {
    var here := seq(|s| + 1, i requires 0 <= i <= |s| => ValueLength(s[i..]));
    forall i | 0 <= i <= |s| ensures here[i] == First(Lengths(value, s[i..])) {
      ValueSolved(s[i..]);
    }
    var firsts := seq(|s| + 1, i requires 0 <= i <= |s| => First(Chain(Down(i), value, s)));
    FirstsBacktrack(value, s, here, firsts);
    AssignedBacktrack(ValueLength, firsts, here, s, n);
    AssignedIsWith(s, n);
  }

  /** The matcher's preferred match of the pattern, as one computation. */
  lemma PatternSolved(s: string)
    ensures First(Lengths(PATTERN, s)) == ItemLength(s)
  {
    var run := RunLength(s, NotSpace);
    QuotedSolved(s);
    AssignmentSolved(s, run, VALUE);
    assert Lengths(ASSIGNED, s) == Chain(Down(run), VALUE, s);
    assert Lengths(PATTERN, s) == Lengths(QUOTED, s) + (Lengths(ASSIGNED, s) + Lengths(Many(NotSpace), s));
  }

  /** All items of a text, one after the other. */
  function Tokens(s: string): seq<string>
    decreases |s|
  {
    if s == "" then []
    else match ItemLength(s)
      case None => Tokens(s[1..])
      case Some(n) => [s[..n]] + Tokens(s[n..])
  }

  lemma {:induction false} TokensByMatcher(re: Re, s: string)
    requires forall t: string :: First(Lengths(re, t)) == ItemLength(t)
    ensures FindAll(re, s) == Tokens(s)
    decreases |s|
  {
    if s != "" {
      match ItemLength(s) {
        case None => TokensByMatcher(re, s[1..]);
        case Some(n) => TokensByMatcher(re, s[n..]);
      }
    }
  }

  /** The computation finds exactly the matches of the regular expression. */
  lemma TokensAreMatches(s: string)
    ensures FindAll(PATTERN, s) == Tokens(s)
  {
    forall t: string ensures First(Lengths(PATTERN, t)) == ItemLength(t) {
      PatternSolved(t);
    }
    TokensByMatcher(PATTERN, s);
  }

  // ---------- from an item to an assignment ----------

  /** strings.Split on one character. */
  function Split(s: string, c: char): (r: seq<string>)
    ensures r != []
    decreases |s|
  {
    var i := IndexOf(s, c);
    if i == |s| then [s] else [s[..i]] + Split(s[i + 1..], c)
  }

  /** strings.Trim of double quotes. */
  function Trim(s: string): string {
    if s == [] then []
    else if s[0] == '"' then Trim(s[1..])
    else if s[|s| - 1] == '"' then Trim(s[..|s| - 1])
    else s
  }

  function ParseItem(item: string): (t: Assignment)
    ensures t.keys != []
  {
    var i := IndexOf(item, '=');
    Assignment(Split(Trim(item[..i]), '.'), if i == |item| then "true" else Trim(item[i + 1..]))
  }

  function ParseAll(items: seq<string>): (ts: seq<Assignment>)
    ensures |ts| == |items| && KeysOk(ts) && forall i :: 0 <= i < |items| ==> ts[i] == ParseItem(items[i])
  {
    if items == [] then [] else [ParseItem(items[0])] + ParseAll(items[1..])
  }

  function Assignments(cmdline: string): seq<Assignment> { ParseAll(FindAll(PATTERN, cmdline)) }

  lemma FoldNext(ts: seq<Assignment>, i: nat)
    requires KeysOk(ts) && i < |ts|
    ensures Fold(ts[..i + 1]) == Assign(Fold(ts[..i]), ts[i])
  {
    assert ts[..i + 1][..i] == ts[..i];
  }

  /** readCmdline: a missing file gives nothing; otherwise every item is looked up and stored. */
  method ReadCmdline(file: Option<string>) returns (data: Option<Object>)
    ensures data == match file case None => None case Some(text) => Some(Fold(Assignments(text)))
  {
    if file.None? {
      return None;
    }
    var items := FindAll(PATTERN, file.value);
    ghost var ts := ParseAll(items);
    var d: Object := map[];
    for i := 0 to |items|
      invariant d == Fold(ts[..i])
    {
      FoldNext(ts, i);
      var item := items[i];
      var eq := IndexOf(item, '=');
      var value := "true";
      if eq < |item| {
        value := Trim(item[eq + 1..]);
      }
      var keys := Split(Trim(item[..eq]), '.');
      var existing := GetValue(d, keys);
      match existing {
        case Some(Str(v)) => d := PutValue(d, Strs([v, value]), keys);
        case Some(Strs(vs)) => d := PutValue(d, Strs(vs + [value]), keys);
        case Some(_) =>
        case None => d := PutValue(d, Str(value), keys);
      }
      assert ts[i] == Assignment(keys, value);
    }
    assert ts[..|items|] == ts;
    data := Some(d);
  }

  // ---------- printing items ----------

  // The last two are quoted as a whole.
  datatype Item =
    | Flag(keys: seq<string>)
    | Bare(keys: seq<string>, value: string)
    | Quoted(keys: seq<string>, value: string)
    | WholeFlag(keys: seq<string>)
    | WholePair(keys: seq<string>, value: string)

  /** The white space that separates items, one by one: blank, tab, line feed, carriage return, form feed. */
  predicate Blank(c: char) { c in {' ', 0x09 as char, 0x0A as char, 0x0D as char, 0x0C as char} }

  predicate Solid(s: string) { forall i :: 0 <= i < |s| ==> !Blank(s[i]) }

  /** A part of a key; only in quotes it may hold white space. */
  predicate SegmentOk(s: string, quoted: bool) {
    (quoted || Solid(s)) && Lacks(s, '"') && Lacks(s, '=') && Lacks(s, '.')
  }

  /** strings.Join with dots. */
  function Join(keys: seq<string>): string {
    if keys == [] then "" else if |keys| == 1 then keys[0] else keys[0] + "." + Join(keys[1..])
  }

  predicate ItemOk(it: Item) {
    && it.keys != [] && (forall k <- it.keys :: SegmentOk(k, it.WholeFlag? || it.WholePair?))
    && (Join(it.keys) == "" ==> it.WholePair?)
    && (it.Bare? ==> Solid(it.value) && Lacks(it.value, '"'))
    && (it.Quoted? ==> it.value != "" && Lacks(it.value, '"'))
    && (it.WholePair? ==> Lacks(it.value, '"'))
  }

  function Print(it: Item): string {
    match it
    case Flag(keys) => Join(keys)
    case Bare(keys, v) => Join(keys) + "=" + v
    case Quoted(keys, v) => Join(keys) + "=\"" + v + "\""
    case WholeFlag(keys) => "\"" + Join(keys) + "\""
    case WholePair(keys, v) => "\"" + (Join(keys) + "=" + v) + "\""
  }

  function Meaning(it: Item): Assignment {
    Assignment(it.keys, if it.Flag? || it.WholeFlag? then "true" else it.value)
  }

  lemma {:induction false} JoinLacks(keys: seq<string>, c: char)
    requires c != '.' && forall k <- keys :: Lacks(k, c)
    ensures Lacks(Join(keys), c)
  {
    if |keys| > 1 {
      JoinLacks(keys[1..], c);
      assert Lacks(keys[0], c);
    }
  }

  lemma {:induction false} JoinSolid(keys: seq<string>)
    requires forall k <- keys :: Solid(k)
    ensures Solid(Join(keys))
  {
    if |keys| > 1 {
      JoinSolid(keys[1..]);
      assert Solid(keys[0]);
    }
  }

  lemma JoinPlain(keys: seq<string>, quoted: bool)
    requires forall k <- keys :: SegmentOk(k, quoted)
    ensures var s := Join(keys); (quoted || Solid(s)) && Lacks(s, '"') && Lacks(s, '=')
  {
    JoinLacks(keys, '"');
    JoinLacks(keys, '=');
    if !quoted {
      JoinSolid(keys);
    }
  }

  lemma {:induction false} SplitJoin(keys: seq<string>)
    requires keys != [] && forall k <- keys :: Lacks(k, '.')
    ensures Split(Join(keys), '.') == keys
  {
    var s := Join(keys);
    assert Lacks(keys[0], '.');
    IndexIs(s, '.', |keys[0]|);
    if |keys| > 1 {
      assert s[..|keys[0]|] == keys[0] && s[|keys[0]| + 1..] == Join(keys[1..]);
      SplitJoin(keys[1..]);
    }
  }

  lemma TrimPlain(s: string)
    requires s == [] || (s[0] != '"' && s[|s| - 1] != '"')
    ensures Trim(s) == s
  {
  }

  lemma TrimQuoted(v: string)
    requires v != [] && v[0] != '"' && v[|v| - 1] != '"'
    ensures Trim("\"" + v + "\"") == v
  {
    var s := "\"" + v + "\"";
    assert s[1..] == v + "\"" && (v + "\"")[..|v|] == v;
    TrimPlain(v);
  }

  lemma ParseAssigned(k: string, w: string, p: string)
    requires p == k + "=" + w && Lacks(k, '=')
    ensures ParseItem(p) == Assignment(Split(Trim(k), '.'), Trim(w))
  {
    IndexIs(p, '=', |k|);
    assert p[..|k|] == k && p[|k| + 1..] == w;
  }

  lemma ParseFlag(k: string)
    requires Lacks(k, '=')
    ensures ParseItem(k) == Assignment(Split(Trim(k), '.'), "true")
  {
    IndexIs(k, '=', |k|);
    assert k[..|k|] == k;
  }

  lemma TrimOneEnd(s: string)
    requires Lacks(s, '"')
    ensures Trim("\"" + s) == s && Trim(s + "\"") == s
  {
    TrimPlain(s);
    assert ("\"" + s)[1..] == s;
    var t := s + "\"";
    assert t[..|s|] == s && t[0] == if s == "" then '"' else s[0];
    if s == "" {
      assert t[1..] == "";
    }
  }

  lemma ParseWhole(it: Item, k: string, p: string)
    requires ItemOk(it) && k == Join(it.keys) && p == Print(it) && Lacks(k, '=') && Lacks(k, '"')
    requires it.WholeFlag? || it.WholePair?
    ensures ParseItem(p) == Assignment(Split(k, '.'), Meaning(it).value)
  {
    TrimOneEnd(k);
    if it.WholeFlag? {
      ParseFlag(p);
      TrimQuoted(k);
    } else {
      var v := it.value;
      assert p == ("\"" + k) + "=" + (v + "\"");
      ParseAssigned("\"" + k, v + "\"", p);
      TrimOneEnd(v);
    }
  }

  lemma ParsePart(it: Item, k: string, p: string)
    requires ItemOk(it) && k == Join(it.keys) && p == Print(it) && Lacks(k, '=') && Lacks(k, '"')
    ensures ParseItem(p) == Assignment(Split(k, '.'), Meaning(it).value)
  {
    TrimPlain(k);
    match it {
      case Flag(_) =>
        ParseFlag(k);
      case Bare(_, v) =>
        ParseAssigned(k, v, p);
        TrimPlain(v);
      case Quoted(_, v) =>
        assert p == k + "=" + ("\"" + v + "\"");
        ParseAssigned(k, "\"" + v + "\"", p);
        TrimQuoted(v);
      case _ => ParseWhole(it, k, p);
    }
  }

  /** Splitting a printed item gives back its key path and its value. */
  lemma ParsePrinted(it: Item)
    requires ItemOk(it)
    ensures ParseItem(Print(it)) == Meaning(it)
  {
    var quoted := it.WholeFlag? || it.WholePair?;
    JoinPlain(it.keys, quoted);
    assert forall s <- it.keys :: SegmentOk(s, quoted) && Lacks(s, '.');
    SplitJoin(it.keys);
    ParsePart(it, Join(it.keys), Print(it));
  }

  lemma TwoSegments(first: string, second: string, k: string)
    requires Lacks(first, '.') && Lacks(second, '.') && k == first + "." + second
    ensures Split(k, '.') == [first, second]
  {
    assert Join([first, second]) == k;
    SplitJoin([first, second]);
  }

  lemma BracketText(a: string, b: string, c: string, first: string, second: string)
    requires SegmentOk(a, false) && SegmentOk(b, false) && SegmentOk(c, false)
    requires first == a + "[" + b && second == c + "]"
    ensures var k := first + "." + second;
      Lacks(first, '.') && Lacks(second, '.') && Lacks(k, '=') && k[0] != '"' && k[|k| - 1] != '"'
  {
  }

  /** Brackets in a key are nothing special: the path is cut at the dots only. */
  lemma BracketKey(a: string, b: string, c: string, v: string, first: string, second: string)
    requires SegmentOk(a, false) && SegmentOk(b, false) && SegmentOk(c, false)
    requires first == a + "[" + b && second == c + "]"
    ensures ParseItem(first + "." + second + "=" + v) == Assignment([first, second], Trim(v))
  {
    var k := first + "." + second;
    BracketText(a, b, c, first, second);
    ParseAssigned(k, v, k + "=" + v);
    TrimPlain(k);
    TwoSegments(first, second, k);
  }
}
