// The one result shape every other module shares, and a list of a finite set's elements.
module Wrappers {
  datatype Option<+T> = None | Some(value: T)

  lemma {:induction false} Listing<T>(s: set<T>) returns (q: seq<T>)
    ensures (forall x :: x in q <==> x in s) && forall i, j :: 0 <= i < j < |q| ==> q[i] != q[j]
    decreases |s|
  {
    q := [];
    if x :| x in s {
      var rest := Listing(s - {x});
      q := rest + [x];
    }
  }
}
