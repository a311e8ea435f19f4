/** Key spelling: camel case to snake case, and the alias table that reads any spelling back. The two
    procedures here change a map while going through it, in an order that is not theirs to choose. */
module Naming {
  import opened Values

  predicate IsUpper(c: char) { 'A' <= c <= 'Z' }

  function LowerChar(c: char): char { if IsUpper(c) then (c as int + 32) as char else c }

  function ToLower(s: string): (r: string)
    ensures |r| == |s| && NoUpper(r)
  {
    if s == "" then "" else [LowerChar(s[0])] + ToLower(s[1..])
  }

  predicate NoUpper(s: string) { forall i :: 0 <= i < |s| ==> !IsUpper(s[i]) }

  /** The characters after the first; `cap` tells that only capitals have come so far. */
  function SnakeRest(s: string, cap: bool): (r: string)
    ensures NoUpper(r)
  {
    if s == "" then ""
    else if !IsUpper(s[0]) then [s[0]] + SnakeRest(s[1..], false)
    else (if cap then "" else "_") + [LowerChar(s[0])] + SnakeRest(s[1..], cap)
  }

  /** convert.ToYAMLKey */
  function YamlKey(s: string): (r: string)
    ensures NoUpper(r)
  {
    if s == "" then "" else [LowerChar(s[0])] + SnakeRest(s[1..], IsUpper(s[0]))
  }

  lemma {:induction false} SnakeFixed(s: string, cap: bool)
    requires NoUpper(s)
    ensures SnakeRest(s, cap) == s
  {
    if s != "" {
      SnakeFixed(s[1..], false);
      assert s == [s[0]] + s[1..];
    }
  }

  /** A key is its own YAML spelling exactly when it has no capital. */
  lemma YamlFixed(s: string)
    ensures YamlKey(s) == s <==> NoUpper(s)
  {
    if s != "" && NoUpper(s) {
      SnakeFixed(s[1..], false);
      assert s == [s[0]] + s[1..];
    }
  }

  lemma {:induction false} LowerFixed(s: string)
    requires NoUpper(s)
    ensures ToLower(s) == s
  {
    if s != "" {
      LowerFixed(s[1..]);
      assert s == [s[0]] + s[1..];
    }
  }

  // ---------- the alias table ----------

  type Names = map<string, string>

  predicate EndsWith(s: string, t: string) { |t| <= |s| && s[|s| - |t|..] == t }

  /** The spellings under which a name is entered. */
  function Spellings(name: string): set<string> {
    {ToLower(name), YamlKey(name), ToLower(YamlKey(name))}
  }

  /** The aliases of a field: its spellings, with a plural ending also those of the singular. */
  function Aliases(field: string): set<string> {
    (if EndsWith(field, "s") && |field| > 1 then Spellings(field[..|field| - 1]) else {})
    + (if EndsWith(field, "es") && |field| > 2 then Spellings(field[..|field| - 2]) else {})
    + Spellings(field)
  }

  const PASSPHRASE := "passphrase"

  predicate IsPass(k: string) { k == "pass" || k == "password" }

  /** Every alias of a field leads to a field that has it, and the two pass words to the passphrase. */
  ghost predicate IsTable(names: Names, fields: set<string>) {
    && (forall k | IsPass(k) :: k in names && names[k] == PASSPHRASE)
    && (forall k | !IsPass(k) :: k in names <==> exists f <- fields :: k in Aliases(f))
    && (forall k <- names | !IsPass(k) :: names[k] in fields && k in Aliases(names[k]))
  }

  function Enter(names: Names, keys: set<string>, field: string): Names {
    names + map k | k in keys :: field
  }

  lemma EnterBoth(names: Names, a: set<string>, b: set<string>, field: string)
    ensures Enter(Enter(names, a, field), b, field) == Enter(names, a + b, field)
    ensures Enter(names, {}, field) == names
  {
  }

  lemma EnterAll(names: Names, a: set<string>, b: set<string>, c: set<string>, field: string)
    ensures Enter(Enter(Enter(names, a, field), b, field), c, field) == Enter(names, a + b + c, field)
    ensures Enter(names, {}, field) == names
  {
    EnterBoth(names, a, b, field);
    EnterBoth(names, a + b, c, field);
  }

  /** The table with one more field's aliases. */
  function Entered(names: Names, field: string): Names { Enter(names, Aliases(field), field) }

  /** The same for the fields entered so far, before the pass words. */
  ghost predicate Leads(names: Names, fields: set<string>) {
    && (forall k :: k in names <==> exists f <- fields :: k in Aliases(f))
    && (forall k <- names :: names[k] in fields && k in Aliases(names[k]))
  }

  lemma LeadsMore(names: Names, fields: set<string>, field: string)
    requires Leads(names, fields)
    ensures Leads(Entered(names, field), fields + {field})
  {
    var more := Entered(names, field);
    forall k ensures k in more <==> exists f <- fields + {field} :: k in Aliases(f) {
      if f :| f in fields + {field} && k in Aliases(f) {
        assert f in fields || f == field;
      }
      if k in more {
        assert more[k] in fields + {field} && k in Aliases(more[k]);
      }
    }
  }

  // ---------- renaming in place ----------

  predicate Renames(names: Names, k: string) { k in names && names[k] != k }

  /** The data after visiting keys in the given order; each visit reads what is there by then. */
  function Visit(names: Names, data: Object, order: seq<string>): Object {
    if order == [] then data
    else
      var d, k := Visit(names, data, order[..|order| - 1]), order[|order| - 1];
      if k in d && Renames(names, k) then d[names[k] := d[k]] else d
  }

  /** An order that ranging over a growing map may take: every key that was there at the start, and
      perhaps some that were inserted on the way. */
  ghost predicate Tour(names: Names, data: Object, order: seq<string>) {
    && (forall i, j :: 0 <= i < j < |order| ==> order[i] != order[j])
    && (forall k <- data :: k in order)
    && (forall k <- order :: k in data || k in names.Values)
  }

  class FuzzyNames {
    var names: Names

    constructor ()
      ensures names == map[]
    {
      names := map[];
    }

    method AddName(name: string, toName: string)
      modifies this
      ensures names == Enter(old(names), Spellings(name), toName)
    {
      names := names[ToLower(name) := toName];
      names := names[YamlKey(name) := toName];
      names := names[ToLower(YamlKey(name)) := toName];
    }

    method AddField(name: string)
      modifies this
      ensures names == Entered(old(names), name)
    {
      ghost var a := if EndsWith(name, "s") && |name| > 1 then Spellings(name[..|name| - 1]) else {};
      ghost var b := if EndsWith(name, "es") && |name| > 2 then Spellings(name[..|name| - 2]) else {};
      EnterAll(names, a, b, Spellings(name), name);
      EnterAll(Enter(names, a, name), b, {}, {}, name);
      if EndsWith(name, "s") && |name| > 1 {
        AddName(name[..|name| - 1], name);
      }
      if EndsWith(name, "es") && |name| > 2 {
        AddName(name[..|name| - 2], name);
      }
      AddName(name, name);
    }

    /** ModifySchema: the fields come in any order; where two fields share an alias, one of them gets it. */
    method ModifySchema(fields: set<string>)
      modifies this
      ensures IsTable(names, fields)
    {
      names := map[];
      var todo := fields;
      while todo != {}
        invariant todo <= fields && Leads(names, fields - todo)
      {
        var name :| name in todo;
        ghost var before := names;
        AddField(name);
        LeadsMore(before, fields - todo, name);
        todo := todo - {name};
        assert fields - todo == fields - (todo + {name}) + {name};
      }
      assert fields - todo == fields;
      names := names["pass" := PASSPHRASE];
      names := names["password" := PASSPHRASE];
    }

    /** ToInternal: range over the data, storing the value of an alias under its field's name; whether
        a key inserted on the way is visited too is left open. */
    method ToInternal(data: Object) returns (result: Object)
      ensures exists order :: Tour(names, data, order) && result == Visit(names, data, order)
    {
      result := data;
      ghost var order: seq<string> := [];
      var todo := data.Keys;
      ghost var seen := {};
      while todo != {}
        invariant todo <= result.Keys <= data.Keys + names.Values
        invariant result == Visit(names, data, order)
        invariant forall i, j :: 0 <= i < j < |order| ==> order[i] != order[j]
        invariant forall k <- order :: k in result && k !in todo
        invariant forall k <- data :: k in todo || k in order
        invariant (forall k <- order :: k in seen) && seen <= result.Keys && seen !! todo
        decreases data.Keys + names.Values - seen
      {
        var k :| k in todo;
        todo := todo - {k};
        ghost var was := order;
        order := order + [k];
        assert order[..|order| - 1] == was;
        if k in names && names[k] != k {
          var inserted := names[k] !in result;
          result := result[names[k] := result[k]];
          var visited: bool := *;
          if inserted && visited {
            todo := todo + {names[k]};
          }
        }
        seen := seen + {k};
      }
      assert Tour(names, data, order);
    }
  }
}
