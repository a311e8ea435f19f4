/** Reading data into the configuration structures: at every level the aliases are renamed in place,
    in whatever order, then each field is converted, then the structures below are read. */
module Reading {
  import opened Text
  import opened Values
  import opened Naming
  import opened Renaming
  import Accumulate

  // The field types of the configuration structures.
  datatype FieldType =
    | Text | Truth | Words | StringMap
    | Sub(fields: map<string, FieldType>) | SubList(fields: map<string, FieldType>)

  /** The fields of every structure have separate spellings. */
  ghost predicate SchemaOk(t: FieldType)
    decreases t
  {
    t.Sub? || t.SubList? ==>
      && Disjoint(t.fields.Keys) && PassOk(t.fields.Keys)
      && forall k <- t.fields :: SchemaOk(t.fields[k])
  }

  /** convert.ToString, for the values that a string map can hold. */
  function ToText(v: Value): string {
    match v
    case Str(text) => TrimSpace(text)
    case Bool(b) => if b then "true" else "false"
    case Strs(items) => if items == [] then "" else TrimSpace(items[0])
    case List(es) => if es != [] && es[0].Str? then TrimSpace(es[0].text) else ""
    case Obj(_) => ""
    case StrMap(_) => ""
  }

  /** The map converter. */
  function AllText(m: Object): Object { map k | k in m :: Str(ToText(m[k])) }

  function Texts(items: seq<string>): (r: seq<Value>)
    ensures |r| == |items| && forall i :: 0 <= i < |r| ==> r[i] == Str(items[i])
  {
    if items == [] then [] else [Str(items[0])] + Texts(items[1..])
  }

  /** What reading a field may come to: the converter for its type, then the structure below it; the
      result is in the encoder's form. */
  ghost predicate FieldRead(t: FieldType, v: Value, r: Value)
    decreases t, 2
  {
    match t
    case Text => r == v
    case Truth => r == if v.Str? then Bool(v.text == "true") else v
    case Words => r == WordsRead(v)
    case StringMap => r == if v.Obj? then Obj(AllText(v.fields)) else v
    case Sub(_) => StructRead(t, v, r)
    case SubList(_) =>
      if v.List? then
        r.List? && |r.elements| == |v.elements|
        && forall i :: 0 <= i < |v.elements| ==> StructRead(t, v.elements[i], r.elements[i])
      else r == v
  }

  function WordsRead(v: Value): Value {
    var w := Accumulate.ToSlice(v);
    if w.Strs? then List(Texts(w.items)) else w
  }

  /** The data after renaming in some order, with some alias table for the fields. */
  ghost predicate MayRename(fields: set<string>, data: Object, m: Object) {
    exists names, order :: IsTable(names, fields) && Tour(names, data, order) && m == Visit(names, data, order)
  }

  /** One structure: rename, keep what is a field, and read each field. */
  ghost predicate StructRead(t: FieldType, v: Value, r: Value)
    requires t.Sub? || t.SubList?
    decreases t, 1
  {
    if !v.Obj? then r == v
    else r.Obj? && exists m :: MayRename(t.fields.Keys, v.fields, m) && FieldsRead(t, m, r.fields)
  }

  ghost predicate FieldsRead(t: FieldType, m: Object, s: Object)
    requires t.Sub? || t.SubList?
    decreases t, 0
  {
    && s.Keys == m.Keys * t.fields.Keys
    && forall f | f in s && f in t.fields && f in m :: FieldRead(t.fields[f], m[f], s[f])
  }

  // ---------- the procedure ----------

  /** ModifySchema, then ToInternal, on one structure. */
  method RenameFields(fields: set<string>, data: Object) returns (m: Object)
    ensures MayRename(fields, data, m)
  {
    var fuzzy := new FuzzyNames();
    fuzzy.ModifySchema(fields);
    m := fuzzy.ToInternal(data);
    ghost var order :| Tour(fuzzy.names, data, order) && m == Visit(fuzzy.names, data, order);
    assert IsTable(fuzzy.names, fields);
  }

  method ReadField(t: FieldType, v: Value) returns (r: Value)
    ensures FieldRead(t, v, r)
    decreases t, 2
  {
    match t {
      case Text => r := v;
      case Truth => r := if v.Str? then Bool(v.text == "true") else v;
      case Words => r := WordsRead(v);
      case StringMap => r := if v.Obj? then Obj(AllText(v.fields)) else v;
      case Sub(_) => r := ReadStruct(t, v);
      case SubList(_) =>
        r := v;
        if v.List? {
          var elements: seq<Value> := [];
          for i := 0 to |v.elements|
            invariant |elements| == i && forall j :: 0 <= j < i ==> StructRead(t, v.elements[j], elements[j])
          {
            var e := ReadStruct(t, v.elements[i]);
            elements := elements + [e];
          }
          r := List(elements);
        }
    }
  }

  method ReadStruct(t: FieldType, v: Value) returns (r: Value)
    requires t.Sub? || t.SubList?
    ensures StructRead(t, v, r)
    decreases t, 1
  {
    if !v.Obj? {
      return v;
    }
    var m := RenameFields(t.fields.Keys, v.fields);
    var s: Object := map[];
    var todo := m.Keys * t.fields.Keys;
    while todo != {}
      invariant todo <= m.Keys * t.fields.Keys && s.Keys == m.Keys * t.fields.Keys - todo
      invariant forall f <- s :: FieldRead(t.fields[f], m[f], s[f])
    {
      var f :| f in todo;
      var value := ReadField(t.fields[f], m[f]);
      s := s[f := value];
      todo := todo - {f};
    }
    r := Obj(s);
    assert FieldsRead(t, m, s);
  }
}
