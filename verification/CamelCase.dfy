/** How the key spellings look: camel case against snake case, plurals against singulars. */
module CamelCase {
  import opened Naming

  lemma {:induction false} SnakePrefix(p: string, s: string)
    requires NoUpper(p)
    ensures SnakeRest(p + s, false) == p + SnakeRest(s, false)
  {
    if p == "" {
      assert p + s == s;
    } else {
      assert (p + s)[0] == p[0] && (p + s)[1..] == p[1..] + s;
      SnakePrefix(p[1..], s);
      assert p == [p[0]] + p[1..];
    }
  }

  /** A capital and no further ones. */
  predicate Word(w: string) { w != "" && IsUpper(w[0]) && NoUpper(w[1..]) }

  function Concat(words: seq<string>): string { if words == [] then "" else words[0] + Concat(words[1..]) }

  /** Every word with an underscore in front and its first letter made small. */
  function Snake(words: seq<string>): string {
    if words == [] then ""
    else (if words[0] == "" then "" else "_" + [LowerChar(words[0][0])] + words[0][1..]) + Snake(words[1..])
  }

  lemma OneWord(w: string, rest: string)
    requires Word(w)
    ensures SnakeRest(w + rest, false) == "_" + [LowerChar(w[0])] + w[1..] + SnakeRest(rest, false)
  {
    var s := w + rest;
    assert s[0] == w[0] && s[1..] == w[1..] + rest;
    SnakePrefix(w[1..], rest);
    assert SnakeRest(s, false) == "_" + [LowerChar(s[0])] + SnakeRest(s[1..], false);
  }

  lemma {:induction false} SnakeWords(words: seq<string>)
    requires forall w <- words :: Word(w)
    ensures SnakeRest(Concat(words), false) == Snake(words)
  {
    if words != [] {
      assert Word(words[0]);
      OneWord(words[0], Concat(words[1..]));
      SnakeWords(words[1..]);
    }
  }

  lemma KeyOfRest(c: char, tail: string)
    ensures YamlKey([c] + tail) == [LowerChar(c)] + SnakeRest(tail, IsUpper(c))
  {
    var s := [c] + tail;
    assert s[0] == c && s[1..] == tail;
  }

  /** Camel case becomes snake case: every word behind the first gets an underscore in front, and its
      capital becomes small. */
  lemma CamelToSnake(first: string, words: seq<string>)
    requires first != "" && NoUpper(first) && forall w <- words :: Word(w)
    ensures YamlKey(first + Concat(words)) == first + Snake(words)
  {
    var head, tail, rest := first[0], first[1..], Concat(words);
    Regroup(first, head, tail, rest);
    KeyOfRest(head, tail + rest);
    SnakePrefix(tail, rest);
    SnakeWords(words);
    Regroup(first, head, tail, Snake(words));
  }

  predicate AllUpper(s: string) { forall i :: 0 <= i < |s| ==> IsUpper(s[i]) }

  lemma {:induction false} CapitalRun(run: string, rest: string)
    requires AllUpper(run) && NoUpper(rest)
    ensures SnakeRest(run + rest, true) == ToLower(run) + rest
  {
    if run == "" {
      assert run + rest == rest;
      SnakeFixed(rest, true);
    } else {
      var s := run + rest;
      assert s[0] == run[0] && s[1..] == run[1..] + rest;
      CapitalRun(run[1..], rest);
      assert SnakeRest(s, true) == "" + [LowerChar(s[0])] + SnakeRest(s[1..], true);
    }
  }

  /** Capitals at the very front get no underscores. */
  lemma LeadingCapitals(run: string, rest: string)
    requires run != "" && AllUpper(run) && NoUpper(rest)
    ensures YamlKey(run + rest) == ToLower(run) + rest
  {
    var head, tail := run[0], run[1..];
    CapitalRun(tail, rest);
    KeyOfRest(head, tail + rest);
    Regroup(run, head, tail, rest);
    Regroup(ToLower(run), LowerChar(head), ToLower(tail), rest);
  }

  lemma Regroup(s: string, head: char, tail: string, rest: string)
    requires s == [head] + tail
    ensures s + rest == [head] + (tail + rest)
  {
  }

  lemma CutEnding(stem: string, ending: string)
    ensures var f := stem + ending; EndsWith(f, ending) && f[..|f| - |ending|] == stem
  {
  }

  /** The singular of a field's name is an alias as it stands in the file and in small letters, after
      cutting `s` as well as after cutting `es`; so is the name itself. */
  lemma PluralAliases(stem: string)
    requires stem != ""
    ensures {YamlKey(stem), ToLower(stem)} <= Aliases(stem + "s")
    ensures {YamlKey(stem), ToLower(stem)} <= Aliases(stem + "es")
    ensures {YamlKey(stem), ToLower(stem)} <= Aliases(stem)
  {
    CutEnding(stem, "s");
    CutEnding(stem, "es");
  }

  lemma TwoWords(first: string, word: string)
    requires first != "" && NoUpper(first) && Word(word)
    ensures YamlKey(first + word) == first + ("_" + [LowerChar(word[0])] + word[1..])
  {
    var words := [word];
    assert words[1..] == [] && Concat(words) == word + Concat(words[1..]) == word;
    CamelToSnake(first, words);
    assert Snake(words) == ("_" + [LowerChar(word[0])] + word[1..]) + Snake(words[1..]);
  }

  /** A field named by two words in the plural: its singular in snake case is an alias. */
  lemma SingularAlias(first: string, word: string, field: string, key: string)
    requires first != "" && NoUpper(first) && Word(word) && field == first + word + "s"
    requires key == first + ("_" + [LowerChar(word[0])] + word[1..])
    ensures key in Aliases(field)
  {
    TwoWords(first, word);
    PluralAliases(first + word);
  }
}
