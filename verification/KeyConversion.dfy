/** Converting all keys of nested maps in place, in whatever order: what comes out, and when nothing
    is lost. The conversion is any one that leaves its own results alone, as the YAML spelling does. */
module KeyConversion {
  import opened Wrappers
  import opened Values
  import opened Naming
  import opened Renaming

  type Speller = string -> string

  ghost predicate Settles(conv: Speller) { forall s :: conv(conv(s)) == conv(s) }

  lemma Settled(conv: Speller, s: string)
    requires Settles(conv)
    ensures conv(conv(s)) == conv(s)
  {
  }

  lemma YamlSettles()
    ensures Settles(YamlKey)
  {
    forall s ensures YamlKey(YamlKey(s)) == YamlKey(s) {
      YamlFixed(YamlKey(s));
    }
  }

  /** What converting the keys may come to: at every level exactly the converted keys, each with the
      converted value of one of the keys it comes from. */
  ghost predicate Converted(conv: Speller, v: Value, w: Value)
    decreases v
  {
    if !v.Obj? then w == v
    else
      && w.Obj?
      && (forall k <- v.fields :: conv(k) in w.fields)
      && (forall x <- w.fields :: exists k <- v.fields :: conv(k) == x && Converted(conv, v.fields[k], w.fields[x]))
  }

  lemma {:induction false} ConvertedAgain(conv: Speller, u: Value, v: Value, w: Value)
    requires Settles(conv) && Converted(conv, u, v) && Converted(conv, v, w)
    ensures Converted(conv, u, w)
    decreases u
  {
    if u.Obj? {
      forall k <- u.fields ensures conv(k) in w.fields {
        Settled(conv, k);
        assert conv(conv(k)) in w.fields;
      }
      forall x <- w.fields ensures exists k <- u.fields :: conv(k) == x && Converted(conv, u.fields[k], w.fields[x]) {
        var y :| y in v.fields && conv(y) == x && Converted(conv, v.fields[y], w.fields[x]);
        var k :| k in u.fields && conv(k) == y && Converted(conv, u.fields[k], v.fields[y]);
        Settled(conv, k);
        ConvertedAgain(conv, u.fields[k], v.fields[y], w.fields[x]);
      }
    }
  }

  /** Every entry is one not visited yet, as it was, or a converted one. */
  ghost predicate Underway(conv: Speller, m: Object, out: Object, todo: set<string>) {
    && (forall k <- m :: (k in todo && k in out) || conv(k) in out)
    && forall x <- out :: (x in todo && x in m && out[x] == m[x]) || Source(conv, m, x, out[x])
  }

  ghost predicate Source(conv: Speller, m: Object, x: string, v: Value) {
    exists k <- m :: conv(k) == x && Converted(conv, m[k], v)
  }

  lemma StepSource(conv: Speller, m: Object, out: Object, todo: set<string>, k: string, v: Value)
    requires Settles(conv) && Underway(conv, m, out, todo) && k in out && Converted(conv, out[k], v)
    ensures Source(conv, m, conv(k), v)
  {
    if !(k in m && out[k] == m[k]) {
      assert Source(conv, m, k, out[k]);
      var j :| j in m && conv(j) == k && Converted(conv, m[j], out[k]);
      ConvertedAgain(conv, m[j], out[k], v);
      Settled(conv, j);
      assert conv(j) == conv(k) && Converted(conv, m[j], v);
    }
  }

  lemma UnderwayStep(conv: Speller, m: Object, out: Object, todo: set<string>, k: string, v: Value)
    requires Settles(conv) && Underway(conv, m, out, todo) && k in todo && k in out && Converted(conv, out[k], v)
    ensures Underway(conv, m, (out - {k})[conv(k) := v], todo - {k})
  {
    var next := (out - {k})[conv(k) := v];
    StepSource(conv, m, out, todo, k, v);
    forall x <- next ensures (x in todo - {k} && x in m && next[x] == m[x]) || Source(conv, m, x, next[x]) {
      if x != conv(k) && !(x in todo && x in m && out[x] == m[x]) {
        assert Source(conv, m, x, out[x]);
      }
    }
    forall j <- m ensures (j in todo - {k} && j in next) || conv(j) in next {
      if !(j in todo && j in out) {
        Settled(conv, j);
        assert conv(j) == k ==> conv(k) == k;
      }
    }
  }

  /** How deep objects are nested. */
  ghost predicate Within(v: Value, depth: nat)
    decreases depth
  {
    v.Obj? ==> depth > 0 && forall k <- v.fields :: Within(v.fields[k], depth - 1)
  }

  lemma {:induction false} WithinMore(v: Value, depth: nat, more: nat)
    requires Within(v, depth) && depth <= more
    ensures Within(v, more)
    decreases depth
  {
    if v.Obj? {
      forall k <- v.fields ensures Within(v.fields[k], more - 1) {
        WithinMore(v.fields[k], depth - 1, more - 1);
      }
    }
  }

  lemma {:induction false} WithinSome(v: Value) returns (depth: nat)
    ensures Within(v, depth)
    decreases v, 1
  {
    depth := 0;
    if v.Obj? {
      var keys := Listing(v.fields.Keys);
      var d := WithinAll(v, keys);
      depth := d + 1;
    }
  }

  lemma {:induction false} WithinAll(v: Value, keys: seq<string>) returns (depth: nat)
    requires v.Obj? && forall k <- keys :: k in v.fields
    ensures forall k <- keys :: Within(v.fields[k], depth)
    decreases v, 0, |keys|
  {
    depth := 0;
    if keys != [] {
      var d := WithinAll(v, keys[1..]);
      var e := WithinSome(v.fields[keys[0]]);
      depth := if d < e then e else d;
      forall k <- keys ensures Within(v.fields[k], depth) {
        if k == keys[0] {
          WithinMore(v.fields[k], e, depth);
        } else {
          assert keys == [keys[0]] + keys[1..] && k in keys[1..];
          WithinMore(v.fields[k], d, depth);
        }
      }
    }
  }

  lemma SourceKey(conv: Speller, v: Value, w: Value, x: string) returns (k: string)
    requires v.Obj? && Converted(conv, v, w) && x in w.fields
    ensures k in v.fields && conv(k) == x && Converted(conv, v.fields[k], w.fields[x])
  {
    k :| k in v.fields && conv(k) == x && Converted(conv, v.fields[k], w.fields[x]);
  }

  lemma {:induction false} ConvertedWithin(conv: Speller, v: Value, w: Value, depth: nat)
    requires Converted(conv, v, w) && Within(v, depth)
    ensures Within(w, depth)
    decreases depth
  {
    if v.Obj? {
      forall x <- w.fields ensures Within(w.fields[x], depth - 1) {
        var k := SourceKey(conv, v, w, x);
        ConvertedWithin(conv, v.fields[k], w.fields[x], depth - 1);
      }
    }
  }

  ghost function Possible(conv: Speller, m: Object): set<string> { m.Keys + set k | k in m :: conv(k) }

  /** The state of the loop below. */
  ghost predicate Looping(conv: Speller, m: Object, out: Object, todo: set<string>, visited: set<string>) {
    Underway(conv, m, out, todo) && KeysOk(conv, m, out.Keys, todo, visited)
  }

  ghost predicate KeysOk(conv: Speller, m: Object, keys: set<string>, todo: set<string>, visited: set<string>) {
    && todo <= keys <= Possible(conv, m) && visited <= Possible(conv, m) && todo !! visited
    && forall x <- visited | conv(x) == x :: x in keys
  }

  lemma NewKeyPossible(conv: Speller, m: Object, k: string)
    requires Settles(conv) && k in Possible(conv, m)
    ensures conv(k) in Possible(conv, m)
  {
    if k !in m {
      var j :| j in m && conv(j) == k;
      Settled(conv, j);
    }
  }

  lemma KeysStep(conv: Speller, m: Object, keys: set<string>, todo: set<string>, visited: set<string>, k: string,
                 rest: set<string>)
    requires Settles(conv) && KeysOk(conv, m, keys, todo, visited) && k in todo
    requires rest == todo - {k} || (rest == todo - {k} + {conv(k)} && conv(k) !in keys)
    ensures KeysOk(conv, m, keys - {k} + {conv(k)}, rest, visited + {k})
  {
    Settled(conv, k);
    NewKeyPossible(conv, m, k);
  }

  lemma LoopStep(conv: Speller, m: Object, out: Object, todo: set<string>, visited: set<string>, k: string, v: Value,
                 again: bool)
    requires Settles(conv) && Looping(conv, m, out, todo, visited) && k in todo && Converted(conv, out[k], v)
    ensures var newK := conv(k);
      var rest := todo - {k} + (if newK !in out && again then {newK} else {});
      Looping(conv, m, (out - {k})[newK := v], rest, visited + {k})
  {
    var newK := conv(k);
    var next := (out - {k})[newK := v];
    UnderwayStep(conv, m, out, todo, k, v);
    assert next.Keys == out.Keys - {k} + {newK};
    if newK !in out && again {
      Settled(conv, k);
      NotOriginal(conv, m, out, todo, newK);
      WiderTodo(conv, m, next, todo - {k}, newK);
      KeysStep(conv, m, out.Keys, todo, visited, k, todo - {k} + {newK});
    } else {
      KeysStep(conv, m, out.Keys, todo, visited, k, todo - {k});
      assert todo - {k} + {} == todo - {k};
    }
  }

  /** A converted key that is not there was not one of the original keys either. */
  lemma NotOriginal(conv: Speller, m: Object, out: Object, todo: set<string>, k: string)
    requires Underway(conv, m, out, todo) && conv(k) == k && k !in out
    ensures k !in m
  {
  }

  /** toYAMLKeys: range over the map, converting nested maps first, then moving each value to the
      converted key; whether a key inserted on the way is visited too is left open. */
  method ToYAMLKeys(conv: Speller, data: Object, ghost depth: nat) returns (out: Object)
    requires Settles(conv) && Within(Obj(data), depth)
    ensures Converted(conv, Obj(data), Obj(out))
    decreases depth
  {
    out := data;
    var todo := data.Keys;
    ghost var visited := {};
    while todo != {}
      invariant Looping(conv, data, out, todo, visited)
      invariant forall x <- out :: Within(out[x], depth - 1)
      decreases Possible(conv, data) - visited
    {
      var k :| k in todo;
      var v := out[k];
      if v.Obj? {
        var sub := ToYAMLKeys(conv, v.fields, depth - 1);
        v := Obj(sub);
      }
      ConvertedWithin(conv, out[k], v, depth - 1);
      var newK := conv(k);
      var again: bool := *;
      LoopStep(conv, data, out, todo, visited, k, v, again);
      todo := todo - {k} + (if newK !in out && again then {newK} else {});
      out := (out - {k})[newK := v];
      visited := visited + {k};
    }
    EndsConverted(conv, data, out);
  }

  lemma WiderTodo(conv: Speller, m: Object, out: Object, todo: set<string>, k: string)
    requires Underway(conv, m, out, todo)
    requires k in out && k !in m
    ensures Underway(conv, m, out, todo + {k})
  {
  }

  lemma EndsConverted(conv: Speller, m: Object, out: Object)
    requires Underway(conv, m, out, {})
    ensures Converted(conv, Obj(m), Obj(out))
  {
    forall x <- out ensures exists k <- m :: conv(k) == x && Converted(conv, m[k], out[x]) {
      assert Source(conv, m, x, out[x]);
    }
  }

  // ---------- nothing is lost ----------

  /** At every level different keys stay different. */
  ghost predicate KeysApart(conv: Speller, v: Value)
    decreases v
  {
    v.Obj? ==>
      && (forall a, b | a in v.fields && b in v.fields && conv(a) == conv(b) :: a == b)
      && forall k <- v.fields :: KeysApart(conv, v.fields[k])
  }

  /** When converted keys are distinct there is only one outcome: no leaf is lost, whatever the order. */
  lemma {:induction false} ConvertedOnce(conv: Speller, v: Value, w: Value, x: Value)
    requires KeysApart(conv, v) && Converted(conv, v, w) && Converted(conv, v, x)
    ensures w == x
    decreases v
  {
    if v.Obj? {
      assert w.fields.Keys == x.fields.Keys;
      forall y <- w.fields ensures w.fields[y] == x.fields[y] {
        var k :| k in v.fields && conv(k) == y && Converted(conv, v.fields[k], w.fields[y]);
        ConvertedOnce(conv, v.fields[k], w.fields[y], x.fields[y]);
      }
    }
  }

  /** The conversions of both values are all the same one. */
  ghost predicate SameConversion(conv: Speller, u: Value, v: Value) {
    forall w, x | Converted(conv, u, w) && Converted(conv, v, x) :: w == x
  }

  ghost function ConvertedKeys(conv: Speller, m: Object): set<string> { set k | k in m :: conv(k) }

  lemma KeysOfConverted(conv: Speller, v: Value, w: Value)
    requires v.Obj? && Converted(conv, v, w)
    ensures w.Obj? && w.fields.Keys == ConvertedKeys(conv, v.fields)
  {
  }

  /** What that takes: the same converted keys, and any two values that go to one key are alike. */
  ghost predicate Alike(conv: Speller, u: Value, v: Value)
    decreases u
  {
    if u.Obj? && v.Obj? then
      && ConvertedKeys(conv, u.fields) == ConvertedKeys(conv, v.fields)
      && forall a, b | a in u.fields && b in v.fields && conv(a) == conv(b) :: Alike(conv, u.fields[a], v.fields[b])
    else u == v && !u.Obj?
  }

  /** Some conversion of the value. */
  ghost function SomeConversion(conv: Speller, v: Value): Value
    decreases v
  {
    if !v.Obj? then v
    else
      var keys := ConvertedKeys(conv, v.fields);
      Obj(map x | x in keys ::
        var k :| k in v.fields && conv(k) == x; SomeConversion(conv, v.fields[k]))
  }

  lemma {:induction false} SomeConverted(conv: Speller, v: Value)
    ensures Converted(conv, v, SomeConversion(conv, v))
    decreases v
  {
    if v.Obj? {
      var w := SomeConversion(conv, v);
      forall k <- v.fields ensures Converted(conv, v.fields[k], SomeConversion(conv, v.fields[k])) {
        SomeConverted(conv, v.fields[k]);
      }
      forall x <- w.fields ensures exists k <- v.fields :: conv(k) == x && Converted(conv, v.fields[k], w.fields[x]) {
        var k :| k in v.fields && conv(k) == x && w.fields[x] == SomeConversion(conv, v.fields[k]);
      }
    }
  }

  /** A conversion of one of the values inside can be part of a conversion of the whole. */
  lemma ConvertedWith(conv: Speller, v: Value, k: string, w: Value) returns (whole: Value)
    requires v.Obj? && k in v.fields && Converted(conv, v.fields[k], w)
    ensures Converted(conv, v, whole) && conv(k) in whole.fields && whole.fields[conv(k)] == w
  {
    var some := SomeConversion(conv, v);
    SomeConverted(conv, v);
    whole := Obj(some.fields[conv(k) := w]);
  }

  /** Where two values come from that stand under one converted key. */
  lemma AlikeSources(conv: Speller, u: Value, v: Value, w: Value, x: Value, y: string) returns (a: string, b: string)
    requires u.Obj? && v.Obj? && Alike(conv, u, v) && Converted(conv, u, w) && Converted(conv, v, x) && y in w.fields
    ensures a in u.fields && b in v.fields && y in x.fields && Alike(conv, u.fields[a], v.fields[b])
    ensures Converted(conv, u.fields[a], w.fields[y]) && Converted(conv, v.fields[b], x.fields[y])
  {
    KeysOfConverted(conv, u, w);
    KeysOfConverted(conv, v, x);
    a := SourceKey(conv, u, w, y);
    b := SourceKey(conv, v, x, y);
  }

  lemma {:induction false} AlikeOnce(conv: Speller, u: Value, v: Value, w: Value, x: Value)
    requires Alike(conv, u, v) && Converted(conv, u, w) && Converted(conv, v, x)
    ensures w == x
    decreases u
  {
    if u.Obj? {
      KeysOfConverted(conv, u, w);
      KeysOfConverted(conv, v, x);
      forall y <- w.fields ensures w.fields[y] == x.fields[y] {
        var a, b := AlikeSources(conv, u, v, w, x, y);
        AlikeOnce(conv, u.fields[a], v.fields[b], w.fields[y], x.fields[y]);
      }
    }
  }

  lemma SameInside(conv: Speller, u: Value, v: Value, a: string, b: string)
    requires SameConversion(conv, u, v) && u.Obj? && v.Obj?
    requires a in u.fields && b in v.fields && conv(a) == conv(b)
    ensures SameConversion(conv, u.fields[a], v.fields[b])
  {
    forall w, x | Converted(conv, u.fields[a], w) && Converted(conv, v.fields[b], x) ensures w == x {
      var wholeW := ConvertedWith(conv, u, a, w);
      var wholeX := ConvertedWith(conv, v, b, x);
    }
  }

  lemma {:induction false} SameAlike(conv: Speller, u: Value, v: Value)
    requires SameConversion(conv, u, v)
    ensures Alike(conv, u, v)
    decreases u
  {
    SomeConverted(conv, u);
    SomeConverted(conv, v);
    var w := SomeConversion(conv, u);
    assert Converted(conv, v, w);
    if u.Obj? && v.Obj? {
      KeysOfConverted(conv, u, w);
      KeysOfConverted(conv, v, w);
      forall a, b | a in u.fields && b in v.fields && conv(a) == conv(b)
        ensures Alike(conv, u.fields[a], v.fields[b])
      {
        SameInside(conv, u, v, a, b);
        SameAlike(conv, u.fields[a], v.fields[b]);
      }
    }
  }

  /** Exactly when there is only one outcome, whatever the order: at every level, keys that come to one
      converted key have values with the same single conversion. */
  lemma OneConversionExact(conv: Speller, v: Value)
    ensures SameConversion(conv, v, v) <==> Alike(conv, v, v)
  {
    if Alike(conv, v, v) {
      forall w, x | Converted(conv, v, w) && Converted(conv, v, x) ensures w == x {
        AlikeOnce(conv, v, v, w, x);
      }
    } else {
      NotSame(conv, v, v);
    }
  }

  lemma NotSame(conv: Speller, u: Value, v: Value)
    requires !Alike(conv, u, v)
    ensures !SameConversion(conv, u, v)
  {
    if SameConversion(conv, u, v) {
      SameAlike(conv, u, v);
    }
  }
}
