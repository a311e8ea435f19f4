/** Writing a configuration with YAML keys and reading it back through renaming and coercion. */
module WriteRead {
  import opened Text
  import opened Values
  import opened Naming
  import opened Renaming
  import opened KeyConversion
  import opened Reading

  /** A value of the given type, as the encoder produces it. */
  predicate Fits(t: FieldType, v: Value)
    decreases t
  {
    match t
    case Text => v.Str?
    case Truth => v.Bool?
    case Words => v.List? && forall e <- v.elements :: e.Str?
    case StringMap => v.Obj? && forall k <- v.fields :: v.fields[k].Str?
    case Sub(fields) => v.Obj? && forall k <- v.fields :: k in fields && Fits(fields[k], v.fields[k])
    case SubList(fields) =>
      v.List? && forall e <- v.elements :: e.Obj? && forall k <- e.fields :: k in fields && Fits(fields[k], e.fields[k])
  }

  // ---------- what survives ----------

  /** Keys of string maps without capitals, as far as they are converted, and values without white
      space around them. */
  predicate Survives(t: FieldType, v: Value, converted: bool)
    requires Fits(t, v)
    decreases t
  {
    match t
    case StringMap =>
      forall k <- v.fields :: (converted ==> NoUpper(k)) && TrimSpace(v.fields[k].text) == v.fields[k].text
    case Sub(fields) => forall k <- v.fields :: Survives(fields[k], v.fields[k], converted)
    case SubList(fields) =>
      forall e <- v.elements :: forall k <- e.fields :: Survives(fields[k], e.fields[k], false)
    case _ => true
  }

  /** Lists are written as they are, objects with converted keys. */
  ghost predicate Written(v: Value, w: Value, converted: bool) {
    if converted then Converted(YamlKey, v, w) else w == v
  }

  function KeyAs(f: string, converted: bool): string { if converted then YamlKey(f) else f }

  // ---------- one level ----------

  lemma AliasLeads(names: Names, fields: set<string>, f: string, a: string)
    requires IsTable(names, fields) && Disjoint(fields) && PassOk(fields) && f in fields
    requires a == YamlKey(f) || a == f
    ensures if IsPass(a) then f == "password" && a == f && PASSPHRASE !in fields
            else a in names ==> names[a] == f
  {
    if IsPass(a) {
      YamlPassword();
    } else if a in names {
      TableLeads(names, fields, a);
      assert YamlKey(f) in Aliases(f);
    }
  }

  lemma YamlPassword()
    ensures YamlKey("password") == "password"
  {
    assert NoUpper("password");
    YamlFixed("password");
  }

  /** The data of one level as written: each present field under one of its two keys. */
  ghost predicate Level(present: set<string>, data: Object, converted: bool) {
    && (forall f <- present :: KeyAs(f, converted) in data)
    && (forall x <- data :: exists f <- present :: KeyAs(f, converted) == x)
  }

  /** No other written key leads to a field. */
  lemma OnlyItsKey(names: Names, fields: set<string>, present: set<string>, data: Object, converted: bool, f: string,
                   a: string)
    requires IsTable(names, fields) && Disjoint(fields) && PassOk(fields)
    requires present <= fields && Level(present, data, converted)
    requires f in fields && a in data && Renames(names, a) && names[a] == f
    ensures f in present && a == KeyAs(f, converted)
  {
    var g :| g in present && KeyAs(g, converted) == a;
    AliasLeads(names, fields, g, a);
  }

  /** Of the pass words only the field of that name is written. */
  lemma OnlyPassword(names: Names, fields: set<string>, present: set<string>, data: Object, converted: bool, a: string)
    requires IsTable(names, fields) && Disjoint(fields) && PassOk(fields)
    requires present <= fields && Level(present, data, converted) && a in data && IsPass(a)
    ensures a == "password" && PASSPHRASE !in fields
  {
    var g :| g in present && KeyAs(g, converted) == a;
    AliasLeads(names, fields, g, a);
  }

  lemma PassTarget(names: Names, fields: set<string>, a: string, phrase: string)
    requires IsTable(names, fields) && phrase == PASSPHRASE && a in names
    ensures if IsPass(a) then names[a] == phrase else names[a] in fields
  {
  }

  /** So aliases that are both present agree: each field is written under one key. */
  lemma LevelAgrees(names: Names, fields: set<string>, present: set<string>, data: Object, converted: bool)
    requires IsTable(names, fields) && Disjoint(fields) && PassOk(fields)
    requires present <= fields && Level(present, data, converted)
    ensures Agree(names, data)
  {
    forall a, b | a in data && b in data && Renames(names, a) && Renames(names, b) && names[a] == names[b]
      ensures a == b
    {
      PassTarget(names, fields, a, PASSPHRASE);
      PassTarget(names, fields, b, PASSPHRASE);
      if IsPass(a) {
        OnlyPassword(names, fields, present, data, converted, a);
      }
      if IsPass(b) {
        OnlyPassword(names, fields, present, data, converted, b);
      }
      if !IsPass(a) && !IsPass(b) {
        OnlyItsKey(names, fields, present, data, converted, names[a], a);
        OnlyItsKey(names, fields, present, data, converted, names[a], b);
      }
    }
  }

  /** After renaming, a field has the value of its own key, and only fields that were written are there. */
  lemma FieldFound(names: Names, fields: set<string>, present: set<string>, data: Object, converted: bool, m: Object,
                   f: string)
    requires IsTable(names, fields) && Disjoint(fields) && PassOk(fields)
    requires present <= fields && Level(present, data, converted)
    requires IsRenamed(names, data, m) && f in fields
    ensures (f in m <==> f in present) && (f in present ==> m[f] == data[KeyAs(f, converted)])
  {
    AliasLeads(names, fields, f, KeyAs(f, converted));
    if f in Targets(names, data.Keys) {
      var a :| a in data && Renames(names, a) && names[a] == f;
      OnlyItsKey(names, fields, present, data, converted, f, a);
    } else if f in present {
      NotRenamedStays(names, fields, data, converted, f);
    } else if f in data {
      OwnKey(fields, present, converted, f);
    }
  }

  /** Whatever table and order renamed the data. */
  lemma LevelRead(fields: set<string>, present: set<string>, data: Object, converted: bool, m: Object, f: string)
    requires Disjoint(fields) && PassOk(fields) && present <= fields && Level(present, data, converted)
    requires MayRename(fields, data, m) && f in fields
    ensures (f in m <==> f in present) && (f in present ==> m[f] == data[KeyAs(f, converted)])
  {
    var names, order :| IsTable(names, fields) && Tour(names, data, order) && m == Visit(names, data, order);
    TableFlat(names, fields);
    LevelAgrees(names, fields, present, data, converted);
    OrderIndependentExact(names, data, order);
    FieldFound(names, fields, present, data, converted, m, f);
  }

  lemma OwnKey(fields: set<string>, present: set<string>, converted: bool, f: string)
    requires Disjoint(fields) && present <= fields && f in fields
    ensures forall g <- present | KeyAs(g, converted) == f :: g == f
  {
    forall g <- present ensures KeyAs(g, converted) == f ==> g == f {
      assert YamlKey(g) in Aliases(g);
    }
  }

  lemma NotRenamedStays(names: Names, fields: set<string>, data: Object, converted: bool, f: string)
    requires IsTable(names, fields) && Disjoint(fields) && PassOk(fields) && f in fields && KeyAs(f, converted) in data
    requires f !in Targets(names, data.Keys)
    ensures KeyAs(f, converted) == f
  {
    var x := KeyAs(f, converted);
    AliasLeads(names, fields, f, x);
    if !IsPass(x) && x != f {
      assert x in Aliases(f);
      assert Renames(names, x);
    }
  }

  // ---------- the round trip ----------

  lemma WrittenLevel(v: Value, w: Value, converted: bool)
    requires v.Obj? && Written(v, w, converted)
    ensures w.Obj? && Level(v.fields.Keys, w.fields, converted)
  {
  }

  /** Distinct fields have distinct written keys, so each key holds its own field's value. */
  lemma WrittenField(fields: set<string>, v: Value, w: Value, converted: bool, f: string)
    requires Disjoint(fields) && v.Obj? && v.fields.Keys <= fields && Written(v, w, converted) && f in v.fields
    ensures w.Obj? && KeyAs(f, converted) in w.fields && Written(v.fields[f], w.fields[KeyAs(f, converted)], converted)
  {
    if converted {
      var x := YamlKey(f);
      var k :| k in v.fields && YamlKey(k) == x && Converted(YamlKey, v.fields[k], w.fields[x]);
      assert YamlKey(k) in Aliases(k) && YamlKey(f) in Aliases(f);
    }
  }

  lemma KeptKeys(conv: Speller, v: Value, w: Value)
    requires Fits(StringMap, v) && Converted(conv, v, w) && forall k <- v.fields :: conv(k) == k
    ensures w == v
  {
    forall x <- w.fields ensures x in v.fields && w.fields[x] == v.fields[x] {
      var k :| k in v.fields && conv(k) == x && Converted(conv, v.fields[k], w.fields[x]);
    }
    assert w.fields == v.fields;
  }

  lemma SameKeys(conv: Speller, v: Value, w: Value)
    requires Settles(conv) && v.Obj? && Converted(conv, v, w) && w.fields.Keys == v.fields.Keys
    ensures forall k <- v.fields :: conv(k) == k
  {
    forall k <- v.fields ensures conv(k) == k {
      assert k in w.fields;
      var j :| j in v.fields && conv(j) == k && Converted(conv, v.fields[j], w.fields[k]);
      Settled(conv, j);
    }
  }

  /** The keys are unchanged exactly when none has a capital. */
  lemma MapKeys(v: Value, w: Value, converted: bool)
    requires Fits(StringMap, v) && Written(v, w, converted)
    ensures w.Obj? && (w.fields.Keys == v.fields.Keys ==> w == v)
    ensures w == v <==> (converted ==> forall k <- v.fields :: NoUpper(k))
  {
    if converted {
      YamlSettles();
      forall k <- v.fields ensures YamlKey(k) == k <==> NoUpper(k) {
        YamlFixed(k);
      }
      if w.fields.Keys == v.fields.Keys {
        SameKeys(YamlKey, v, w);
      }
      if forall k <- v.fields :: YamlKey(k) == k {
        KeptKeys(YamlKey, v, w);
      }
    }
  }

  lemma AllTextSame(m: Object)
    requires forall k <- m :: m[k].Str?
    ensures AllText(m).Keys == m.Keys
    ensures AllText(m) == m <==> forall k <- m :: TrimSpace(m[k].text) == m[k].text
  {
    var r := AllText(m);
    forall k <- m ensures r[k] == m[k] <==> TrimSpace(m[k].text) == m[k].text {
      assert r[k] == Str(TrimSpace(m[k].text));
    }
  }

  lemma AllTextKeys(m: Object)
    ensures AllText(m).Keys == m.Keys
  {
  }

  lemma MapSurvives(v: Value, converted: bool)
    requires Fits(StringMap, v)
    ensures Survives(StringMap, v, converted) <==>
            (converted ==> forall k <- v.fields :: NoUpper(k)) &&
            forall k <- v.fields :: TrimSpace(v.fields[k].text) == v.fields[k].text
  {
  }

  /** A string map comes back exactly when its keys and values survive. */
  lemma MapRoundTrip(v: Value, w: Value, r: Value, converted: bool)
    requires Fits(StringMap, v) && Written(v, w, converted) && FieldRead(StringMap, w, r)
    ensures r == v <==> Survives(StringMap, v, converted)
  {
    MapKeys(v, w, converted);
    MapSurvives(v, converted);
    AllTextKeys(w.fields);
    AllTextSame(v.fields);
  }

  /** Every value of every type, read in whatever order: it is what it was exactly when it survives. */
  lemma {:induction false} FieldRoundTrip(t: FieldType, v: Value, w: Value, r: Value, converted: bool)
    requires SchemaOk(t) && Fits(t, v) && Written(v, w, converted) && FieldRead(t, w, r)
    ensures r == v <==> Survives(t, v, converted)
    decreases t, 2
  {
    match t {
      case Text | Truth =>
      case Words => assert w == v;
      case StringMap => MapRoundTrip(v, w, r, converted);
      case Sub(_) => StructRoundTrip(t, v, w, r, converted);
      case SubList(fields) =>
        assert w == v;
        forall i | 0 <= i < |v.elements|
          ensures r.elements[i] == v.elements[i] <==>
                  forall k <- v.elements[i].fields ::
                    Survives(fields[k], v.elements[i].fields[k], false)
        {
          assert v.elements[i] in v.elements;
          StructRoundTrip(t, v.elements[i], v.elements[i], r.elements[i], false);
        }
        assert r == v <==> forall i :: 0 <= i < |v.elements| ==> r.elements[i] == v.elements[i];
    }
  }

  lemma {:induction false} OneField(t: FieldType, v: Value, w: Value, m: Object, s: Object, converted: bool, f: string)
    requires SchemaOk(t) && (t.Sub? || t.SubList?) && v.Obj? && Written(v, w, converted)
    requires forall k <- v.fields :: k in t.fields && Fits(t.fields[k], v.fields[k])
    requires w.Obj? && MayRename(t.fields.Keys, w.fields, m) && FieldsRead(t, m, s) && f in t.fields
    ensures f in s <==> f in v.fields
    ensures f in v.fields ==> (s[f] == v.fields[f] <==> Survives(t.fields[f], v.fields[f], converted))
    decreases t, 0
  {
    WrittenLevel(v, w, converted);
    LevelRead(t.fields.Keys, v.fields.Keys, w.fields, converted, m, f);
    if f in v.fields {
      WrittenField(t.fields.Keys, v, w, converted, f);
      FieldRoundTrip(t.fields[f], v.fields[f], w.fields[KeyAs(f, converted)], s[f], converted);
    }
  }

  lemma {:induction false} StructRoundTrip(t: FieldType, v: Value, w: Value, r: Value, converted: bool)
    requires SchemaOk(t) && (t.Sub? || t.SubList?) && v.Obj? && Written(v, w, converted) && StructRead(t, w, r)
    requires forall k <- v.fields :: k in t.fields && Fits(t.fields[k], v.fields[k])
    ensures r == v <==> forall k <- v.fields :: Survives(t.fields[k], v.fields[k], converted)
    decreases t, 1
  {
    WrittenLevel(v, w, converted);
    var m :| MayRename(t.fields.Keys, w.fields, m) && FieldsRead(t, m, r.fields);
    forall f | f in t.fields
      ensures f in r.fields <==> f in v.fields
      ensures f in v.fields ==>
                (r.fields[f] == v.fields[f] <==> Survives(t.fields[f], v.fields[f], converted))
    {
      OneField(t, v, w, m, r.fields, converted, f);
    }
    SameFields(t.fields.Keys, r.fields, v.fields);
  }

  lemma SameFields(fields: set<string>, r: Object, v: Object)
    requires r.Keys <= fields && v.Keys <= fields && forall f | f in fields :: f in r <==> f in v
    ensures r == v <==> forall f <- v :: f in r && r[f] == v[f]
  {
    assert r.Keys == v.Keys;
  }

  // ---------- the whole configuration ----------

  /** ToBytes clears the install section before it encodes. */
  function DropInstall(cfg: Value): Value {
    if cfg.Obj? && "edgi" in cfg.fields && cfg.fields["edgi"].Obj? then
      Obj(cfg.fields["edgi" := Obj(cfg.fields["edgi"].fields - {"install"})])
    else cfg
  }

  /** Of the configuration everything stays but the install section. */
  lemma OnlyInstallGoes(cfg: Value)
    requires cfg.Obj?
    ensures var kept := DropInstall(cfg);
      && kept.Obj? && kept.fields.Keys == cfg.fields.Keys
      && (forall k <- cfg.fields | k != "edgi" :: kept.fields[k] == cfg.fields[k])
      && ("edgi" in cfg.fields && cfg.fields["edgi"].Obj? ==>
            && kept.fields["edgi"].Obj?
            && forall k :: (k in kept.fields["edgi"].fields <==> k in cfg.fields["edgi"].fields && k != "install")
                           && (k in kept.fields["edgi"].fields ==>
                                 kept.fields["edgi"].fields[k] == cfg.fields["edgi"].fields[k]))
  {
  }

  /** ToBytes, up to the byte encoding, which is undone by the decoder. */
  method ToBytes(cfg: Value, ghost depth: nat) returns (written: Value)
    requires cfg.Obj? && Within(DropInstall(cfg), depth)
    ensures Converted(YamlKey, DropInstall(cfg), written)
  {
    YamlSettles();
    var data := DropInstall(cfg);
    var out := ToYAMLKeys(YamlKey, data.fields, depth);
    written := Obj(out);
  }

  lemma DropFits(t: FieldType, cfg: Value)
    requires Fits(t, cfg)
    ensures Fits(t, DropInstall(cfg))
  {
  }

  /** Write then read: whatever the order in which keys are converted when writing, and in which
      aliases are renamed when reading, what was written is read as the configuration without its
      install section if and only if the keys of its string maps have no capitals and their values no
      white space around them. */
  lemma WriteThenReadExact(t: FieldType, cfg: Value, written: Value, read: Value)
    requires SchemaOk(t) && Fits(t, cfg)
    requires Converted(YamlKey, DropInstall(cfg), written) && FieldRead(t, written, read)
    ensures Fits(t, DropInstall(cfg))
    ensures read == DropInstall(cfg) <==> Survives(t, DropInstall(cfg), true)
  {
    DropFits(t, cfg);
    FieldRoundTrip(t, DropInstall(cfg), written, read, true);
  }

  /** The same as one statement about a type. */
  ghost predicate RoundTrips(t: FieldType) {
    forall cfg, written, read
      | Fits(t, cfg) && Converted(YamlKey, DropInstall(cfg), written) && FieldRead(t, written, read) ::
      Fits(t, DropInstall(cfg)) && (read == DropInstall(cfg) <==> Survives(t, DropInstall(cfg), true))
  }

  lemma SchemaRoundTrips(t: FieldType)
    requires SchemaOk(t)
    ensures RoundTrips(t)
  {
    forall cfg, written, read
      | Fits(t, cfg) && Converted(YamlKey, DropInstall(cfg), written) && FieldRead(t, written, read)
      ensures Fits(t, DropInstall(cfg)) && (read == DropInstall(cfg) <==> Survives(t, DropInstall(cfg), true))
    {
      WriteThenReadExact(t, cfg, written, read);
    }
  }
}
