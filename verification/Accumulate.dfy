/** Folding `key.path=value` assignments into a nested map: a repeated key collects its values. */
module Accumulate {
  import opened Wrappers
  import opened Values

  datatype Assignment = Assignment(keys: Path, value: string)

  /** One assignment: a second value turns a string into a list, further ones are appended; an
      object in the way, above or at the key, makes the assignment disappear. */
  function Assign(d: Object, t: Assignment): Object
    requires t.keys != []
  {
    match GetValue(d, t.keys)
    case None => PutValue(d, Str(t.value), t.keys)
    case Some(Str(v)) => PutValue(d, Strs([v, t.value]), t.keys)
    case Some(Strs(vs)) => PutValue(d, Strs(vs + [t.value]), t.keys)
    case Some(_) => d
  }

  predicate KeysOk(ts: seq<Assignment>) { forall t <- ts :: t.keys != [] }

  function Fold(ts: seq<Assignment>): Object
    requires KeysOk(ts)
  {
    if ts == [] then map[] else Assign(Fold(ts[..|ts| - 1]), ts[|ts| - 1])
  }

  // ---------- what the fold computes ----------

  predicate Clashes(acc: seq<Assignment>, keys: Path) {
    exists t <- acc :: Related(t.keys, keys)
  }

  /** The assignments that take effect: those whose key path neither extends nor is extended by the
      path of an earlier one that took effect. */
  function Accepted(ts: seq<Assignment>): (acc: seq<Assignment>)
    ensures forall t <- acc :: t in ts
  {
    if ts == [] then []
    else
      var acc, t := Accepted(ts[..|ts| - 1]), ts[|ts| - 1];
      if Clashes(acc, t.keys) then acc else acc + [t]
  }

  function ValuesAt(ts: seq<Assignment>, keys: Path): seq<string> {
    if ts == [] then []
    else
      var t := ts[|ts| - 1];
      ValuesAt(ts[..|ts| - 1], keys) + (if t.keys == keys then [t.value] else [])
  }

  /** The places of the list that assign to this key path. */
  function Places(ts: seq<Assignment>, keys: Path): set<nat> {
    set i: nat | i < |ts| && ts[i].keys == keys
  }

  lemma {:induction false} ValuesCounted(ts: seq<Assignment>, keys: Path)
    ensures |ValuesAt(ts, keys)| == |Places(ts, keys)|
  {
    if ts != [] {
      var init, last := ts[..|ts| - 1], |ts| - 1;
      ValuesCounted(init, keys);
      assert Places(ts, keys) == Places(init, keys) + (if ts[last].keys == keys then {last} else {});
    }
  }

  /** So a key path has one value for each place that assigns to it, in the order of the places. */
  lemma {:induction false} ValuesInOrder(ts: seq<Assignment>, keys: Path, i: nat)
    requires i < |ts| && ts[i].keys == keys
    ensures var n := |Places(ts[..i], keys)|;
      |ValuesAt(ts, keys)| == |Places(ts, keys)| > n && ValuesAt(ts, keys)[n] == ts[i].value
  {
    var init := ts[..|ts| - 1];
    ValuesCounted(ts, keys);
    ValuesCounted(init, keys);
    if i < |ts| - 1 {
      assert init[..i] == ts[..i];
      ValuesInOrder(init, keys, i);
    }
  }

  /** One value is stored as it is, several as their list. */
  function Stored(values: seq<string>): Value
    requires values != []
  {
    if |values| == 1 then Str(values[0]) else Strs(values)
  }

  ghost predicate Holds(d: Object, acc: seq<Assignment>, p: Path)
    requires p != []
  {
    var vs, r := ValuesAt(acc, p), GetValue(d, p);
    if vs != [] then r == Some(Stored(vs))
    else if exists t <- acc :: Below(p, t.keys) then r.Some? && r.value.Obj?
    else r.None?
  }

  lemma {:induction false} ValuesCome(acc: seq<Assignment>, p: Path)
    ensures ValuesAt(acc, p) != [] <==> exists t <- acc :: t.keys == p
  {
    if acc != [] {
      ValuesCome(acc[..|acc| - 1], p);
      assert acc == acc[..|acc| - 1] + [acc[|acc| - 1]];
    }
  }

  lemma BlockedMeansClash(d: Object, acc: seq<Assignment>, t: Assignment)
    requires t.keys != []
    requires forall p: Path | p != [] :: Holds(d, acc, p)
    ensures Blocked(d, t.keys) <==> exists a <- acc :: a.keys != [] && Below(a.keys, t.keys)
  {
    if Blocked(d, t.keys) {
      var p: Path :| p != [] && Below(p, t.keys) && GetValue(d, p).Some? && !GetValue(d, p).value.Obj?;
      assert Holds(d, acc, p);
      ValuesCome(acc, p);
    }
    if a :| a in acc && a.keys != [] && Below(a.keys, t.keys) {
      ValuesCome(acc, a.keys);
      assert Holds(d, acc, a.keys);
      assert !GetValue(d, a.keys).value.Obj?;
    }
  }

  /** No accepted path lies below another one. */
  ghost predicate Apart(acc: seq<Assignment>) {
    forall a, b | a in acc && b in acc :: !Below(a.keys, b.keys)
  }

  lemma Accept(d: Object, acc: seq<Assignment>, t: Assignment, p: Path)
    requires t.keys != [] && KeysOk(acc) && p != [] && Apart(acc)
    requires forall q: Path | q != [] :: Holds(d, acc, q)
    requires !Clashes(acc, t.keys)
    ensures Holds(Assign(d, t), acc + [t], p)
  {
    ValuesCome(acc, t.keys);
    assert Holds(d, acc, t.keys) && Holds(d, acc, p);
    BlockedMeansClash(d, acc, t);
    var vs := ValuesAt(acc, t.keys);
    var r := GetValue(d, t.keys);
    assert r.Some? ==> !r.value.Obj?;
    var v := if vs == [] then Str(t.value) else Strs(vs + [t.value]);
    assert |vs| == 1 ==> vs + [t.value] == [vs[0], t.value];
    assert Assign(d, t) == PutValue(d, v, t.keys);
    GetAfterPut(d, v, t.keys, p);
    var now := acc + [t];
    assert now[..|acc|] == acc && now[|acc|] == t;
    assert ValuesAt(now, p) == ValuesAt(acc, p) + (if t.keys == p then [t.value] else []);
    if p == t.keys {
      assert ValuesAt(now, p) == vs + [t.value];
    } else {
      assert ValuesAt(now, p) == ValuesAt(acc, p);
    }
    if Below(t.keys, p) {
      ValuesCome(acc, p);
      NoneBelow(d, acc, t, p);
    }
  }

  lemma BelowTrans(p: Path, q: Path, r: Path)
    ensures Below(p, q) && Below(q, r) ==> Below(p, r)
  {
    assert Below(p, q) && Below(q, r) ==> r[..|p|] == r[..|q|][..|p|];
  }

  // Below a path that is accepted nothing else is accepted.
  lemma NoneBelow(d: Object, acc: seq<Assignment>, t: Assignment, p: Path)
    requires Below(t.keys, p) && !Clashes(acc, t.keys)
    ensures forall a <- acc + [t] :: a.keys != p && !Below(p, a.keys)
  {
    forall a <- acc + [t] ensures a.keys != p && !Below(p, a.keys) {
      BelowTrans(t.keys, p, a.keys);
    }
  }

  lemma Refuse(d: Object, acc: seq<Assignment>, t: Assignment)
    requires t.keys != [] && KeysOk(acc) && Apart(acc)
    requires forall q: Path | q != [] :: Holds(d, acc, q)
    requires Clashes(acc, t.keys)
    ensures Assign(d, t) == d
  {
    var a :| a in acc && Related(a.keys, t.keys);
    ValuesCome(acc, t.keys);
    assert Holds(d, acc, t.keys);
    if Below(a.keys, t.keys) {
      BlockedMeansClash(d, acc, t);
      forall b <- acc ensures b.keys != t.keys && !Below(t.keys, b.keys) {
        assert !Below(a.keys, b.keys);
        BelowTrans(a.keys, t.keys, b.keys);
      }
      assert GetValue(d, t.keys).None?;
      BlockedPut(d, Str(t.value), t.keys);
    } else {
      forall b <- acc ensures b.keys != t.keys {
        assert !Below(b.keys, a.keys);
      }
    }
  }

  lemma {:induction false} FoldHolds(ts: seq<Assignment>)
    requires KeysOk(ts)
    ensures Apart(Accepted(ts)) && forall p: Path | p != [] :: Holds(Fold(ts), Accepted(ts), p)
  {
    if ts == [] {
      forall p: Path | p != [] ensures Holds(Fold(ts), Accepted(ts), p) {
        NothingBelow(p);
      }
    } else {
      var init, t := ts[..|ts| - 1], ts[|ts| - 1];
      FoldHolds(init);
      var d, acc := Fold(init), Accepted(init);
      if Clashes(acc, t.keys) {
        Refuse(d, acc, t);
      } else {
        forall p: Path | p != [] ensures Holds(Fold(ts), Accepted(ts), p) {
          Accept(d, acc, t, p);
        }
      }
    }
  }

  /** For every list of assignments and every key path: the map holds exactly the values of the
      assignments that took effect there, in order; one as a string, several as a list. */
  lemma FoldExact(ts: seq<Assignment>, p: Path)
    requires KeysOk(ts) && p != []
    ensures var vs := ValuesAt(Accepted(ts), p);
      var r := GetValue(Fold(ts), p);
      && (vs != [] ==> r == Some(Stored(vs)))
      && (vs == [] ==> r.None? || r.value.Obj?)
  {
    FoldHolds(ts);
    assert Holds(Fold(ts), Accepted(ts), p);
  }

  lemma {:induction false} AllAccepted(ts: seq<Assignment>)
    requires forall t, u | t in ts && u in ts :: !Below(t.keys, u.keys)
    ensures Accepted(ts) == ts
  {
    if ts != [] {
      AllAccepted(ts[..|ts| - 1]);
      assert ts == ts[..|ts| - 1] + [ts[|ts| - 1]];
    }
  }

  lemma {:induction false} AcceptedApart(ts: seq<Assignment>)
    ensures Apart(Accepted(ts))
  {
    if ts != [] {
      AcceptedApart(ts[..|ts| - 1]);
    }
  }

  /** Every assignment takes effect exactly when no key path lies below another one. */
  lemma AcceptedExact(ts: seq<Assignment>)
    ensures Accepted(ts) == ts <==> forall t, u | t in ts && u in ts :: !Below(t.keys, u.keys)
  {
    AcceptedApart(ts);
    if forall t, u | t in ts && u in ts :: !Below(t.keys, u.keys) {
      AllAccepted(ts);
    }
  }

  // ---------- coercion of array fields ----------

  /** The array converter: a lone string becomes a list of one. */
  function ToSlice(v: Value): Value { if v.Str? then Strs([v.text]) else v }

  /** When no key path lies below another, an array field ends up with exactly the values given for
      it, in order, whether there was one or many. */
  lemma ArrayFieldCollects(ts: seq<Assignment>, p: Path)
    requires KeysOk(ts) && p != [] && forall t, u | t in ts && u in ts :: !Below(t.keys, u.keys)
    requires ValuesAt(ts, p) != []
    ensures var r := GetValue(Fold(ts), p);
            r.Some? && ToSlice(r.value) == Strs(ValuesAt(ts, p))
  {
    AllAccepted(ts);
    FoldExact(ts, p);
  }
}
