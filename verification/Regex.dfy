/** Leftmost-first regular expressions, as far as the command line pattern needs them: for each
    expression the lengths it can match at the start of a text, in the order a backtracking search
    prefers them. */
module Regex {
  import opened Wrappers

  datatype Class = NotSpace | NotQuote | Just(c: char)

  predicate IsSpace(c: char) { c == ' ' || c == '\t' || c == '\n' || c == '\r' || c == 0x0C as char }

  predicate Member(c: char, k: Class) {
    match k case NotSpace => !IsSpace(c) case NotQuote => c != '"' case Just(d) => c == d
  }

  // Many is one or more, as many as possible first.
  datatype Re = One(k: Class) | Many(k: Class) | Then(first: Re, second: Re) | Or(left: Re, right: Re)

  function RunLength(s: string, k: Class): (n: nat)
    ensures n <= |s|
    ensures forall i :: 0 <= i < n ==> Member(s[i], k)
    ensures n < |s| ==> !Member(s[n], k)
  {
    if s == [] || !Member(s[0], k) then 0 else 1 + RunLength(s[1..], k)
  }

  function Down(n: nat): (r: seq<nat>)
    ensures |r| == n && forall i :: 0 <= i < n ==> r[i] == n - i
  {
    if n == 0 then [] else [n] + Down(n - 1)
  }

  function Shift(n: nat, ms: seq<nat>): (r: seq<nat>)
    ensures |r| == |ms| && forall i {:trigger r[i]} :: 0 <= i < |ms| ==> r[i] == n + ms[i]
  {
    if ms == [] then [] else [n + ms[0]] + Shift(n, ms[1..])
  }

  ghost predicate Fits(ns: seq<nat>, s: string) { forall i :: 0 <= i < |ns| ==> 0 < ns[i] <= |s| }

  function Lengths(re: Re, s: string): (r: seq<nat>)
    ensures Fits(r, s)
    decreases re, 0
  {
    match re
    case One(k) => if s != [] && Member(s[0], k) then [1] else []
    case Many(k) => Down(RunLength(s, k))
    case Or(left, right) => Lengths(left, s) + Lengths(right, s)
    case Then(first, second) => Chain(Lengths(first, s), second, s)
  }

  function Chain(ns: seq<nat>, second: Re, s: string): (r: seq<nat>)
    requires Fits(ns, s)
    ensures Fits(r, s)
    decreases second, 1 + |ns|
  {
    if ns == [] then []
    else Shift(ns[0], Lengths(second, s[ns[0]..])) + Chain(ns[1..], second, s)
  }

  function First(ns: seq<nat>): Option<nat> { if ns == [] then None else Some(ns[0]) }

  /** All matches: at the leftmost place where the expression matches, its preferred match; then on
      from the end of that match. */
  function FindAll(re: Re, s: string): seq<string>
    decreases |s|
  {
    if s == [] then []
    else
      match First(Lengths(re, s))
      case None => FindAll(re, s[1..])
      case Some(n) => [s[..n]] + FindAll(re, s[n..])
  }

  lemma FirstOfChain(ns: seq<nat>, second: Re, s: string)
    requires ns != [] && Fits(ns, s)
    ensures First(Chain(ns, second, s)) ==
            match First(Lengths(second, s[ns[0]..]))
            case Some(m) => Some(ns[0] + m)
            case None => First(Chain(ns[1..], second, s))
  {
  }
}
