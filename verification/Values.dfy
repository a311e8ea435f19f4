/** The untyped configuration values, and looking them up and storing them along a path of keys. */
module Values {
  import opened Wrappers

  // Strs is a list known to hold strings; List is one decoded from a file. StrMap likewise.
  datatype Value =
    | Str(text: string) | Bool(b: bool) | Strs(items: seq<string>) | List(elements: seq<Value>)
    | Obj(fields: Object) | StrMap(entries: map<string, string>)

  type Object = map<string, Value>
  type Path = seq<string>

  /** A key that holds no object is like an object without keys. */
  function Inner(d: Object, key: string): Object {
    if key in d && d[key].Obj? then d[key].fields else map[]
  }

  function GetValue(d: Object, path: Path): Option<Value>
    requires path != []
    decreases |path|
  {
    if |path| == 1 then if path[0] in d then Some(d[path[0]]) else None
    else GetValue(Inner(d, path[0]), path[1..])
  }

  /** Missing objects along the path are created; a key that holds something else stops the store. */
  function PutValue(d: Object, v: Value, path: Path): Object
    requires path != []
    decreases |path|
  {
    if |path| == 1 then d[path[0] := v]
    else if path[0] in d && !d[path[0]].Obj? then d
    else d[path[0] := Obj(PutValue(Inner(d, path[0]), v, path[1..]))]
  }

  predicate Below(p: Path, q: Path) { |p| < |q| && q[..|p|] == p }

  predicate Related(p: Path, q: Path) { Below(p, q) || Below(q, p) }

  /** Some key on the way to the last one holds a value that is not an object. */
  ghost predicate Blocked(d: Object, path: Path)
    requires path != []
  {
    exists p: Path :: p != [] && Below(p, path) && GetValue(d, p).Some? && !GetValue(d, p).value.Obj?
  }

  lemma BlockedStep(d: Object, path: Path)
    requires |path| > 1
    ensures Blocked(d, path) <==>
            (path[0] in d && !d[path[0]].Obj?) || Blocked(Inner(d, path[0]), path[1..])
  {
    if Blocked(d, path) {
      var p :| p != [] && Below(p, path) && GetValue(d, p).Some? && !GetValue(d, p).value.Obj?;
      if |p| > 1 {
        assert Below(p[1..], path[1..]);
      }
    }
    if path[0] in d && !d[path[0]].Obj? {
      assert Below([path[0]], path) && GetValue(d, [path[0]]) == Some(d[path[0]]);
    }
    if Blocked(Inner(d, path[0]), path[1..]) {
      var p: Path :| p != [] && Below(p, path[1..]) && GetValue(Inner(d, path[0]), p).Some?
                     && !GetValue(Inner(d, path[0]), p).value.Obj?;
      var q := [path[0]] + p;
      assert q[1..] == p && Below(q, path);
    }
  }

  lemma {:induction false} BlockedPut(d: Object, v: Value, path: Path)
    requires path != [] && Blocked(d, path)
    ensures PutValue(d, v, path) == d
    decreases |path|
  {
    if |path| > 1 {
      BlockedStep(d, path);
      if !(path[0] in d && !d[path[0]].Obj?) {
        BlockedPut(Inner(d, path[0]), v, path[1..]);
        var p :| p != [] && Below(p, path[1..]) && GetValue(Inner(d, path[0]), p).Some?;
        assert path[0] in d;
      }
    }
  }

  function GetBelow(v: Value, path: Path): Option<Value>
    requires path != []
  {
    if v.Obj? then GetValue(v.fields, path) else None
  }

  /** What every look-up returns after an unblocked store. */
  lemma {:induction false} GetAfterPut(d: Object, v: Value, path: Path, p: Path)
    requires path != [] && p != [] && !Blocked(d, path)
    ensures var r := GetValue(PutValue(d, v, path), p);
            if p == path then r == Some(v)
            else if Below(p, path) then r.Some? && r.value.Obj?
            else if Below(path, p) then r == GetBelow(v, p[|path|..])
            else r == GetValue(d, p)
    decreases |path|
  {
    var e := PutValue(d, v, path);
    if |path| == 1 {
      if |p| > 1 && p[0] == path[0] {
        NothingBelow(p[1..]);
      }
    } else {
      BlockedStep(d, path);
      if p[0] == path[0] && |p| > 1 {
        GetAfterPut(Inner(d, path[0]), v, path[1..], p[1..]);
        assert p == path <==> p[1..] == path[1..];
        assert Below(p, path) <==> Below(p[1..], path[1..]);
        assert Below(path, p) <==> Below(path[1..], p[1..]);
        assert Below(path, p) ==> p[1..][|path| - 1..] == p[|path|..];
      }
    }
  }

  lemma {:induction false} NothingBelow(p: Path)
    requires p != []
    ensures GetValue(map[], p) == None
  {
    if |p| > 1 {
      NothingBelow(p[1..]);
    }
  }
}
