/** From the kernel command line to the configuration: a key path in any spelling of its fields reaches
    the field it means, with all its values in order. */
module CmdlineConfig {
  import opened Wrappers
  import opened Values
  import opened Accumulate
  import opened Cmdline
  import opened CmdlineRoundTrip
  import opened Text
  import opened Naming
  import opened CamelCase
  import opened Renaming
  import opened Reading
  import opened CloudConfig

  /** The key is the field's name or an alias that leads to it. */
  predicate Spelling(f: string, k: string) {
    k == f || if IsPass(k) then f == PASSPHRASE else k in Aliases(f)
  }

  /** The key path spells, level by level, the names of nested structures and then of a field of the
      given type. */
  predicate Reaches(t: FieldType, p: Path, fields: Path, leaf: FieldType)
    decreases |p|
  {
    && |p| == |fields| > 0 && t.Sub? && fields[0] in t.fields
    && Spelling(fields[0], p[0])
    && if |p| == 1 then t.fields[fields[0]] == leaf else Reaches(t.fields[fields[0]], p[1..], fields[1..], leaf)
  }

  predicate Present(d: Object, p: Path, i: nat, k: string)
    requires i < |p|
  {
    GetValue(d, p[..i] + [k]).Some?
  }

  /** At no level on the way another spelling is present as well. */
  ghost predicate Unmixed(d: Object, p: Path, fields: Path)
    requires |p| == |fields|
  {
    forall i, k | 0 <= i < |p| && Present(d, p, i, k) && Spelling(fields[i], k) :: k == p[i]
  }

  // ---------- one level ----------

  lemma VisitedLeads(names: Names, fields: set<string>, f: string, a: string)
    requires IsTable(names, fields) && a in names && names[a] == f
    ensures Spelling(f, a)
  {
  }

  lemma AliasTarget(names: Names, fields: set<string>, f: string, a: string)
    requires IsTable(names, fields) && Disjoint(fields) && f in fields && a in Aliases(f) && !IsPass(a)
    ensures a in names && names[a] == f
  {
    if a in names {
      TableLeads(names, fields, a);
    }
  }

  /** If the field has one spelling in the data, renaming leaves that value under its name. */
  lemma VisitedValue(names: Names, fields: set<string>, data: Object, order: seq<string>, f: string, a: string)
    requires IsTable(names, fields) && Disjoint(fields) && PassOk(fields) && Tour(names, data, order)
    requires f in fields && a in data && Spelling(f, a)
    requires forall k <- data | Spelling(f, k) :: k == a
    ensures var m := Visit(names, data, order); f in m && m[f] == data[a]
  {
    TableFlat(names, fields);
    VisitPartly(names, data, order);
    SeenTargets(names, data, order);
    var m := Visit(names, data, order);
    var seen := set k | k in order;
    if f in Targets(names, seen) {
      assert FromOne(names, data, seen, f, m[f]);
      var b :| b in seen && b in data && Renames(names, b) && names[b] == f && m[f] == data[b];
      VisitedLeads(names, fields, f, b);
    } else if a != f {
      if !IsPass(a) {
        AliasTarget(names, fields, f, a);
      }
      assert Renames(names, a);
    }
  }

  lemma RenamedValue(fields: set<string>, data: Object, m: Object, f: string, a: string)
    requires MayRename(fields, data, m) && Disjoint(fields) && PassOk(fields)
    requires f in fields && a in data && Spelling(f, a)
    requires forall k <- data | Spelling(f, k) :: k == a
    ensures f in m && m[f] == data[a]
  {
    var names, order :| IsTable(names, fields) && Tour(names, data, order) && m == Visit(names, data, order);
    VisitedValue(names, fields, data, order, f, a);
  }

  // ---------- all levels ----------

  lemma UnmixedTop(d: Object, p: Path, fields: Path)
    requires |p| == |fields| > 0 && Unmixed(d, p, fields)
    ensures forall k <- d | Spelling(fields[0], k) :: k == p[0]
  {
    forall k <- d | Spelling(fields[0], k) ensures k == p[0] {
      assert p[..0] + [k] == [k];
      assert Present(d, p, 0, k);
    }
  }

  lemma UnmixedBelow(d: Object, p: Path, fields: Path)
    requires |p| == |fields| > 1 && Unmixed(d, p, fields)
    ensures Unmixed(Inner(d, p[0]), p[1..], fields[1..])
  {
    var e, q := Inner(d, p[0]), p[1..];
    forall i, k | 0 <= i < |q| && Present(e, q, i, k) && Spelling(fields[1..][i], k) ensures k == q[i] {
      var whole := p[..i + 1] + [k];
      assert whole[0] == p[0] && whole[1..] == q[..i] + [k];
      assert Present(d, p, i + 1, k);
    }
  }

  lemma WordsOf(vs: seq<string>)
    requires vs != []
    ensures WordsRead(Stored(vs)) == List(Texts(vs))
  {
    assert |vs| == 1 ==> vs == [vs[0]];
  }

  /** The first field holds what reading makes of the value under its spelling. */
  lemma LevelReached(t: FieldType, p: Path, fields: Path, leaf: FieldType, d: Object, r: Value)
    requires SchemaOk(t) && Reaches(t, p, fields, leaf) && Unmixed(d, p, fields)
    requires p[0] in d && FieldRead(t, Obj(d), r)
    ensures r.Obj? && fields[0] in r.fields && FieldRead(t.fields[fields[0]], d[p[0]], r.fields[fields[0]])
  {
    var m :| MayRename(t.fields.Keys, d, m) && FieldsRead(t, m, r.fields);
    UnmixedTop(d, p, fields);
    RenamedValue(t.fields.Keys, d, m, fields[0], p[0]);
  }

  lemma GetStep(d: Object, p: Path)
    requires p != [] && GetValue(d, p).Some?
    ensures p[0] in d
    ensures |p| > 1 ==> d[p[0]].Obj? && GetValue(d[p[0]].fields, p[1..]) == GetValue(d, p)
    ensures |p| == 1 ==> GetValue(d, p).value == d[p[0]]
  {
    if |p| > 1 {
      NothingBelow(p[1..]);
    }
  }

  lemma GetOn(r: Value, fields: Path, v: Value)
    requires r.Obj? && fields != [] && fields[0] in r.fields
    requires if |fields| == 1 then r.fields[fields[0]] == v
             else r.fields[fields[0]].Obj? && GetValue(r.fields[fields[0]].fields, fields[1..]) == Some(v)
    ensures GetValue(r.fields, fields) == Some(v)
  {
  }

  lemma FieldSchema(t: FieldType, f: string)
    requires SchemaOk(t) && t.Sub? && f in t.fields
    ensures SchemaOk(t.fields[f])
  {
  }

  /** What is stored under the key path is read as the field's type says, and ends in that field. */
  lemma {:induction false} FieldReached(t: FieldType, p: Path, fields: Path, leaf: FieldType, d: Object, v: Value,
                                        r: Value)
    requires SchemaOk(t) && Reaches(t, p, fields, leaf) && Unmixed(d, p, fields)
    requires GetValue(d, p) == Some(v) && FieldRead(t, Obj(d), r)
    ensures r.Obj? && GetValue(r.fields, fields).Some?
    ensures FieldRead(leaf, v, GetValue(r.fields, fields).value)
    decreases |p|
  {
    var f, k := fields[0], p[0];
    GetStep(d, p);
    LevelReached(t, p, fields, leaf, d, r);
    if |p| == 1 {
      GetOn(r, fields, r.fields[f]);
    } else {
      UnmixedBelow(d, p, fields);
      FieldSchema(t, f);
      var below := r.fields[f];
      FieldReached(t.fields[f], p[1..], fields[1..], leaf, d[k].fields, v, below);
      GetOn(r, fields, GetValue(below.fields, fields[1..]).value);
    }
  }

  // ---------- from the items ----------

  /** Whenever an assignment goes the same way up to some level, it spells the field there alike. */
  ghost predicate Consistent(ts: seq<Assignment>, p: Path, fields: Path)
    requires |p| == |fields|
  {
    forall u, i | u in ts && 0 <= i < |p| && i < |u.keys| && u.keys[..i] == p[..i] && Spelling(fields[i], u.keys[i]) ::
      u.keys[i] == p[i]
  }

  lemma PresentComes(ts: seq<Assignment>, q: Path) returns (u: Assignment)
    requires KeysOk(ts) && Accepted(ts) == ts && q != [] && GetValue(Fold(ts), q).Some?
    ensures u in ts && |q| <= |u.keys| && u.keys[..|q|] == q
  {
    FoldHolds(ts);
    assert Holds(Fold(ts), ts, q);
    ValuesCome(ts, q);
    if ValuesAt(ts, q) != [] {
      u :| u in ts && u.keys == q;
    } else {
      u :| u in ts && Below(q, u.keys);
    }
  }

  lemma ConsistentUnmixed(ts: seq<Assignment>, p: Path, fields: Path)
    requires KeysOk(ts) && Accepted(ts) == ts && |p| == |fields| && Consistent(ts, p, fields)
    ensures Unmixed(Fold(ts), p, fields)
  {
    forall i, k | 0 <= i < |p| && Present(Fold(ts), p, i, k) && Spelling(fields[i], k) ensures k == p[i] {
      var q := p[..i] + [k];
      var u := PresentComes(ts, q);
      assert u.keys[..i] == q[..i] == p[..i] && u.keys[i] == q[i] == k;
    }
  }

  /** However the fields are spelled, as long as the same spelling is used throughout and no key path
      lies below another, what was printed for a key path ends in the field that it means. */
  lemma PrintedReached(items: seq<Item>, gaps: seq<string>, t: FieldType, p: Path, fields: Path, leaf: FieldType,
                       r: Value)
    requires LineOk(items, gaps) && Tame(items) && SchemaOk(t) && Reaches(t, p, fields, leaf)
    requires var ts := Meanings(items);
      && ValuesAt(ts, p) != [] && Consistent(ts, p, fields)
      && forall u, v | u in ts && v in ts :: !Below(u.keys, v.keys)
    requires FieldRead(t, Obj(Fold(Assignments(Line(items, gaps)))), r)
    ensures r.Obj? && GetValue(r.fields, fields).Some?
    ensures FieldRead(leaf, Stored(ValuesAt(Meanings(items), p)), GetValue(r.fields, fields).value)
  {
    var ts := Meanings(items);
    RoundTripExact(items, gaps);
    MeaningsOk(items);
    AllAccepted(ts);
    ConsistentUnmixed(ts, p, fields);
    FoldExact(ts, p);
    FieldReached(t, p, fields, leaf, Fold(ts), Stored(ValuesAt(ts, p)), r);
  }

  /** An array field holds the values printed for its key path, in order. */
  lemma PrintedFieldReached(items: seq<Item>, gaps: seq<string>, t: FieldType, p: Path, fields: Path, r: Value)
    requires LineOk(items, gaps) && Tame(items) && SchemaOk(t) && Reaches(t, p, fields, Words)
    requires var ts := Meanings(items);
      && ValuesAt(ts, p) != [] && Consistent(ts, p, fields)
      && forall u, v | u in ts && v in ts :: !Below(u.keys, v.keys)
    requires FieldRead(t, Obj(Fold(Assignments(Line(items, gaps)))), r)
    ensures r.Obj? && GetValue(r.fields, fields) == Some(List(Texts(ValuesAt(Meanings(items), p))))
  {
    PrintedReached(items, gaps, t, p, fields, Words, r);
    WordsOf(ValuesAt(Meanings(items), p));
  }

  /** Item `j` alone is printed for its key path. */
  ghost predicate Alone(items: seq<Item>, j: nat) {
    j < |items| && forall i | 0 <= i < |items| && i != j :: items[i].keys != items[j].keys
  }

  lemma AloneValue(items: seq<Item>, j: nat)
    requires Alone(items, j)
    ensures ValuesAt(Meanings(items), items[j].keys) == [Meaning(items[j]).value]
  {
    var ts, p := Meanings(items), items[j].keys;
    MeaningAt(items);
    ValuesInOrder(ts, p, j);
    assert Places(ts, p) == {j} && Places(ts[..j], p) == {};
  }

  /** A boolean field is true exactly when the one item for it is a flag or says `true`. */
  lemma PrintedTruth(items: seq<Item>, gaps: seq<string>, j: nat, t: FieldType, fields: Path, r: Value)
    requires LineOk(items, gaps) && Tame(items) && Alone(items, j)
    requires SchemaOk(t) && Reaches(t, items[j].keys, fields, Truth)
    requires var ts := Meanings(items);
      && Consistent(ts, items[j].keys, fields)
      && forall u, v | u in ts && v in ts :: !Below(u.keys, v.keys)
    requires FieldRead(t, Obj(Fold(Assignments(Line(items, gaps)))), r)
    ensures r.Obj? && GetValue(r.fields, fields) ==
            Some(Bool(items[j].Flag? || items[j].WholeFlag? || items[j].value == "true"))
  {
    AloneValue(items, j);
    PrintedReached(items, gaps, t, items[j].keys, fields, Truth, r);
  }

  /** A text field holds the one value printed for it as it is. */
  lemma PrintedText(items: seq<Item>, gaps: seq<string>, j: nat, t: FieldType, fields: Path, r: Value)
    requires LineOk(items, gaps) && Tame(items) && Alone(items, j)
    requires SchemaOk(t) && Reaches(t, items[j].keys, fields, FieldType.Text)
    requires var ts := Meanings(items);
      && Consistent(ts, items[j].keys, fields)
      && forall u, v | u in ts && v in ts :: !Below(u.keys, v.keys)
    requires FieldRead(t, Obj(Fold(Assignments(Line(items, gaps)))), r)
    ensures r.Obj? && GetValue(r.fields, fields) ==
            Some(Str(if items[j].Flag? || items[j].WholeFlag? then "true" else items[j].value))
  {
    AloneValue(items, j);
    PrintedReached(items, gaps, t, items[j].keys, fields, FieldType.Text, r);
  }

  // ---------- string maps ----------

  lemma {:induction false} GetSnoc(d: Object, p: Path, k: string)
    requires p != [] && GetValue(d, p).Some? && GetValue(d, p).value.Obj?
    ensures GetValue(d, p + [k]) ==
            if k in GetValue(d, p).value.fields then Some(GetValue(d, p).value.fields[k]) else None
    decreases |p|
  {
    var q := p + [k];
    if |p| == 1 {
      assert q[1..] == [k];
    } else {
      GetStep(d, p);
      assert q[1..] == p[1..] + [k];
      GetSnoc(Inner(d, p[0]), p[1..], k);
    }
  }

  /** A string map keeps its keys. A text is trimmed, a truth value is spelled out, and of several texts
      the first is taken. */
  lemma StringMapSpelled(m: Object, r: Value, k: string)
    requires FieldRead(StringMap, Obj(m), r)
    ensures r.Obj? && (k in r.fields <==> k in m)
    ensures k in m ==> match m[k]
      case Bool(b) => r.fields[k] == (if b then Str("true") else Str("false"))
      case Str(text) => r.fields[k] == Str(TrimSpace(text))
      case Strs(items) => r.fields[k] == (if items == [] then Str("") else Str(TrimSpace(items[0])))
      case _ => true
  {
  }

  /** An entry of a string map holds the first value printed for it, without the white space around it. */
  lemma PrintedEntryReached(items: seq<Item>, gaps: seq<string>, t: FieldType, p: Path, k: string, fields: Path,
                            r: Value)
    requires LineOk(items, gaps) && Tame(items) && SchemaOk(t) && Reaches(t, p, fields, StringMap)
    requires var ts := Meanings(items);
      && ValuesAt(ts, p + [k]) != [] && Consistent(ts, p, fields)
      && forall u, v | u in ts && v in ts :: !Below(u.keys, v.keys)
    requires FieldRead(t, Obj(Fold(Assignments(Line(items, gaps)))), r)
    ensures r.Obj? && GetValue(r.fields, fields + [k]) == Some(Str(TrimSpace(ValuesAt(Meanings(items), p + [k])[0])))
  {
    var ts := Meanings(items);
    RoundTripExact(items, gaps);
    MeaningsOk(items);
    AllAccepted(ts);
    ConsistentUnmixed(ts, p, fields);
    MapStored(ts, p, k);
    var v := GetValue(Fold(ts), p).value;
    FieldReached(t, p, fields, StringMap, Fold(ts), v, r);
    FoldExact(ts, p + [k]);
    EntryInMap(Fold(ts), p, k, v, ValuesAt(ts, p + [k]), fields, r.fields);
  }

  lemma EntryInMap(d: Object, p: Path, k: string, v: Value, vs: seq<string>, fields: Path, s: Object)
    requires p != [] && GetValue(d, p) == Some(v) && v.Obj? && vs != [] && GetValue(d, p + [k]) == Some(Stored(vs))
    requires fields != [] && GetValue(s, fields).Some? && FieldRead(StringMap, v, GetValue(s, fields).value)
    ensures GetValue(s, fields + [k]) == Some(Str(TrimSpace(vs[0])))
  {
    GetSnoc(d, p, k);
    StringMapSpelled(v.fields, GetValue(s, fields).value, k);
    GetSnoc(s, fields, k);
  }

  /** Above an assigned key path there is an object. */
  lemma MapStored(ts: seq<Assignment>, p: Path, k: string)
    requires KeysOk(ts) && Accepted(ts) == ts && p != [] && ValuesAt(ts, p + [k]) != []
    ensures GetValue(Fold(ts), p).Some? && GetValue(Fold(ts), p).value.Obj?
  {
    FoldHolds(ts);
    ValuesCome(ts, p + [k]);
    ValuesCome(ts, p);
    var u :| u in ts && u.keys == p + [k];
    assert Below(p, u.keys);
    assert Holds(Fold(ts), ts, p);
  }

  // ---------- an example ----------

  lemma DnsAlias(f: string, key: string)
    requires f == "dnsNameservers" && key == "dns_nameserver"
    ensures key in Aliases(f)
  {
    var first, word := "dns", "Nameserver";
    assert word[1..] == "ameserver" && [LowerChar(word[0])] == "n";
    SingularAlias(first, word, f, key);
  }

  predicate Declares(d: Decls, f: string, t: FieldType) {
    d.Field? && ((d.name == f && d.t == t) || Declares(d.rest, f, t))
  }

  lemma {:induction false} DeclaredField(d: Decls, from: int, f: string, t: FieldType)
    requires Ordered(_ => true, d, from) && Declares(d, f, t)
    ensures f in Fields(d) && Fields(d)[f] == t && |f| >= 3 && from <= Code(f)
  {
    if !(d.name == f && d.t == t) {
      DeclaredField(d.rest, Code(d.name) + 1, f, t);
    }
  }

  lemma EdgiField(edgi: FieldType, files: FieldType, f: string)
    requires f == "edgi"
    ensures var m := Fields(Config(edgi, files)); f in m && m[f] == edgi
  {
    ConfigOrdered(_ => true, edgi, files);
    DeclaredField(Config(edgi, files), Three('b', 'o', 'o'), f, edgi);
  }

  lemma DnsField(install: FieldType, wifi: FieldType, f: string)
    requires f == "dnsNameservers"
    ensures var m := Fields(Edgi(install, wifi)); f in m && m[f] == Words
  {
    EdgiOrdered(_ => true, install, wifi);
    DeclaredField(Edgi(install, wifi), Three('d', 'a', 't'), f, Words);
  }

  lemma NotPass(key: string)
    requires |key| > 8
    ensures !IsPass(key)
  {
  }

  lemma TwoLevels(t: FieldType, sub: FieldType, p: Path, fields: Path)
    requires |p| == |fields| == 2 && t.Sub? && fields[0] in t.fields && t.fields[fields[0]] == sub
    requires sub.Sub? && fields[1] in sub.fields && sub.fields[fields[1]].Words?
    requires p[0] == fields[0] && p[1] in Aliases(fields[1]) && !IsPass(p[1])
    ensures Reaches(t, p, fields, Words)
  {
  }

  /** `edgi.dns_nameserver` on the command line means the list of name servers. */
  lemma DnsReached(t: FieldType, sub: FieldType, install: FieldType, wifi: FieldType, files: FieldType,
                   edgi: string, field: string, key: string)
    requires edgi == "edgi" && field == "dnsNameservers" && key == "dns_nameserver"
    requires t == Sub(Fields(Config(sub, files))) && sub == Sub(Fields(Edgi(install, wifi)))
    ensures Reaches(t, [edgi, key], [edgi, field], Words)
  {
    EdgiField(sub, files, edgi);
    DnsField(install, wifi, field);
    DnsAlias(field, key);
    NotPass(key);
    TwoLevels(t, sub, [edgi, key], [edgi, field]);
  }

  /** In this system's configuration. */
  lemma DnsReachedHere(p: Path, fields: Path)
    requires p == ["edgi", "dns_nameserver"] && fields == ["edgi", "dnsNameservers"]
    ensures Reaches(CLOUD_CONFIG, p, fields, Words)
  {
    var install, wifi, files := Sub(Fields(Install())), SubList(Fields(Wifi())), SubList(Fields(File()));
    DnsReached(CLOUD_CONFIG, Sub(Fields(Edgi(install, wifi))), install, wifi, files, p[0], fields[1], p[1]);
  }

  lemma DeclaredLater(d: Decls, f: string, t: FieldType)
    requires d.Field? && Declares(d.rest, f, t)
    ensures Declares(d, f, t)
  {
  }

  lemma InstallField(install: FieldType, wifi: FieldType, f: string)
    requires f == "install"
    ensures var m := Fields(Edgi(install, wifi)); f in m && m[f] == install
  {
    var d := Edgi(install, wifi);
    EdgiOrdered(_ => true, install, wifi);
    assert d.rest.rest.rest.name == f && d.rest.rest.rest.t == install;
    DeclaredLater(d.rest.rest, f, install);
    DeclaredLater(d.rest, f, install);
    DeclaredLater(d, f, install);
    DeclaredField(d, Three('d', 'a', 't'), f, install);
  }

  lemma SilentField(f: string)
    requires f == "silent"
    ensures var m := Fields(Install()); f in m && m[f] == Truth
  {
    var d := Install();
    InstallOrdered(_ => true);
    var four := d.rest.rest.rest.rest;
    assert four.rest.rest.rest.name == f && four.rest.rest.rest.t == Truth;
    DeclaredLater(four.rest.rest, f, Truth);
    DeclaredLater(four.rest, f, Truth);
    DeclaredLater(four, f, Truth);
    DeclaredLater(d.rest.rest.rest, f, Truth);
    DeclaredLater(d.rest.rest, f, Truth);
    DeclaredLater(d.rest, f, Truth);
    DeclaredLater(d, f, Truth);
    DeclaredField(d, Three('c', 'o', 'n'), f, Truth);
  }

  lemma ThreeLevels(t: FieldType, sub: FieldType, inner: FieldType, leaf: FieldType, a: string, b: string, c: string)
    requires t.Sub? && a in t.fields && t.fields[a] == sub
    requires sub.Sub? && b in sub.fields && sub.fields[b] == inner
    requires inner.Sub? && c in inner.fields && inner.fields[c] == leaf
    ensures Reaches(t, [a, b, c], [a, b, c], leaf)
  {
    var p := [a, b, c];
    assert p[1..] == [b, c] && [b, c][1..] == [c];
  }

  lemma SilentReached(t: FieldType, sub: FieldType, install: FieldType, wifi: FieldType, files: FieldType,
                      edgi: string, section: string, field: string)
    requires edgi == "edgi" && section == "install" && field == "silent"
    requires t == Sub(Fields(Config(sub, files))) && sub == Sub(Fields(Edgi(install, wifi)))
    requires install == Sub(Fields(Install()))
    ensures Reaches(t, [edgi, section, field], [edgi, section, field], Truth)
  {
    EdgiField(sub, files, edgi);
    InstallField(install, wifi, section);
    SilentField(field);
    ThreeLevels(t, sub, install, Truth, edgi, section, field);
  }

  /** The manual's `edgi.install.silent` means a boolean field of this configuration. */
  lemma SilentReachedHere(p: Path)
    requires p == ["edgi", "install", "silent"]
    ensures Reaches(CLOUD_CONFIG, p, p, Truth)
  {
    var install, wifi, files := Sub(Fields(Install())), SubList(Fields(Wifi())), SubList(Fields(File()));
    SilentReached(CLOUD_CONFIG, Sub(Fields(Edgi(install, wifi))), install, wifi, files, p[0], p[1], p[2]);
  }

  // ---------- the pass words ----------

  lemma WifiFields(field: string)
    requires field == "passphrase"
    ensures var names := Fields(Wifi()).Keys; field in names && Disjoint(names) && PassOk(names)
  {
    SchemaAdmits();
    WifiOrdered(SchemaOk);
    assert SchemaOk(SubList(Fields(Wifi())));
  }

  /** In a wireless network's data, `pass` and `password` mean the passphrase. */
  lemma PassIsPassphrase(data: Object, m: Object, word: string, field: string)
    requires (word == "pass" || word == "password") && field == "passphrase" && word in data
    requires MayRename(Fields(Wifi()).Keys, data, m)
    requires forall k <- data | IsPass(k) || k == field || k in Aliases(field) :: k == word
    ensures field in m && m[field] == data[word]
  {
    var fields := Fields(Wifi()).Keys;
    WifiFields(field);
    RenamedPass(fields, data, m, word, field);
  }

  lemma RenamedPass(fields: set<string>, data: Object, m: Object, word: string, field: string)
    requires IsPass(word) && field == PASSPHRASE && word in data
    requires MayRename(fields, data, m) && Disjoint(fields) && PassOk(fields) && field in fields
    requires forall k <- data | IsPass(k) || k == field || k in Aliases(field) :: k == word
    ensures field in m && m[field] == data[word]
  {
    RenamedValue(fields, data, m, field, word);
  }
}
