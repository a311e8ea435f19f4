/** When the outcome of renaming aliases in place does not depend on the visiting order. */
module Renaming {
  import opened Wrappers
  import opened Values
  import opened Naming

  // ---------- alias renaming ----------

  /** No name that an alias leads to leads on to another one. */
  ghost predicate Flat(names: Names) {
    forall a | a in names && names[a] in names :: names[names[a]] == names[a]
  }

  /** Aliases of one field that are both present hold the same value. */
  ghost predicate Agree(names: Names, data: Object) {
    forall a, b | a in data && b in data && Renames(names, a) && Renames(names, b) && names[a] == names[b] ::
      data[a] == data[b]
  }

  ghost function Targets(names: Names, keys: set<string>): set<string> {
    set a | a in keys && Renames(names, a) :: names[a]
  }

  /** Every alias that is present gives its value to its field; everything else is as before. */
  ghost predicate IsRenamed(names: Names, data: Object, result: Object) {
    && result.Keys == data.Keys + Targets(names, data.Keys)
    && (forall a <- data | Renames(names, a) :: result[names[a]] == data[a])
    && (forall k <- data | k !in Targets(names, data.Keys) :: result[k] == data[k])
  }

  /** The field `t` holds the value of one of the aliases visited. */
  ghost predicate FromOne(names: Names, data: Object, seen: set<string>, t: string, v: Value) {
    exists a <- seen | a in data :: Renames(names, a) && names[a] == t && v == data[a]
  }

  /** After visiting some keys, each field visited an alias of holds the value of one of them. */
  ghost predicate Partly(names: Names, data: Object, seen: set<string>, d: Object) {
    && d.Keys == data.Keys + Targets(names, seen)
    && (forall k <- data | k !in Targets(names, seen) :: d[k] == data[k])
    && (forall t <- Targets(names, seen) :: FromOne(names, data, seen, t, d[t]))
  }

  lemma NotATarget(names: Names, seen: set<string>, k: string)
    requires Flat(names) && Renames(names, k)
    ensures k !in Targets(names, seen)
  {
  }

  lemma VisitAlias(names: Names, data: Object, seen: set<string>, d: Object, k: string)
    requires Flat(names) && Partly(names, data, seen, d) && k in data && Renames(names, k)
    ensures k in d && Partly(names, data, seen + {k}, d[names[k] := d[k]])
  {
    NotATarget(names, seen, k);
    var more, e := seen + {k}, d[names[k] := d[k]];
    assert Targets(names, more) == Targets(names, seen) + {names[k]};
    forall t <- Targets(names, more) ensures FromOne(names, data, more, t, e[t]) {
      if t == names[k] {
        assert e[t] == data[k];
      } else {
        assert FromOne(names, data, seen, t, d[t]);
      }
    }
  }

  lemma VisitOther(names: Names, data: Object, seen: set<string>, d: Object, k: string)
    requires Partly(names, data, seen, d) && !Renames(names, k)
    ensures Partly(names, data, seen + {k}, d)
  {
    var more := seen + {k};
    assert Targets(names, more) == Targets(names, seen);
    forall t <- Targets(names, more) ensures FromOne(names, data, more, t, d[t]) {
      assert FromOne(names, data, seen, t, d[t]);
    }
  }

  lemma {:induction false} VisitPartly(names: Names, data: Object, order: seq<string>)
    requires Flat(names) && forall k <- order :: k in data || k in names.Values
    ensures Partly(names, data, (set k | k in order), Visit(names, data, order))
  {
    if order == [] {
      assert Targets(names, (set k | k in order)) == {};
    } else {
      var init, k := order[..|order| - 1], order[|order| - 1];
      assert order == init + [k];
      VisitPartly(names, data, init);
      var seen := set x | x in init;
      assert (set x | x in order) == seen + {k};
      if Renames(names, k) {
        VisitAlias(names, data, seen, Visit(names, data, init), k);
      } else {
        VisitOther(names, data, seen, Visit(names, data, init), k);
      }
    }
  }

  lemma SeenTargets(names: Names, data: Object, order: seq<string>)
    requires Flat(names) && Tour(names, data, order)
    ensures Targets(names, (set k | k in order)) == Targets(names, data.Keys)
  {
    assert forall k <- order | Renames(names, k) :: k in data;
  }

  lemma TourRenames(names: Names, data: Object, order: seq<string>)
    requires Flat(names) && Agree(names, data) && Tour(names, data, order)
    ensures IsRenamed(names, data, Visit(names, data, order))
  {
    VisitPartly(names, data, order);
    SeenTargets(names, data, order);
    var seen := set k | k in order;
    var d := Visit(names, data, order);
    forall a <- data | Renames(names, a) ensures d[names[a]] == data[a] {
      assert FromOne(names, data, seen, names[a], d[names[a]]);
    }
  }

  ghost predicate OneOutcome(names: Names, data: Object) {
    forall o, p | Tour(names, data, o) && Tour(names, data, p) :: Visit(names, data, o) == Visit(names, data, p)
  }

  lemma AgreeingOutcome(names: Names, data: Object)
    requires Flat(names) && Agree(names, data)
    ensures OneOutcome(names, data)
  {
    forall o, p | Tour(names, data, o) && Tour(names, data, p)
      ensures Visit(names, data, o) == Visit(names, data, p)
    {
      TourRenames(names, data, o);
      TourRenames(names, data, p);
      RenamedOnce(names, data, Visit(names, data, o), Visit(names, data, p));
    }
  }

  lemma TourOf(names: Names, data: Object, a: string, b: string, rest: seq<string>)
    requires a in data && b in data && a != b
    requires forall k :: k in rest <==> k in data.Keys - {a, b}
    requires forall i, j :: 0 <= i < j < |rest| ==> rest[i] != rest[j]
    ensures Tour(names, data, rest + [a] + [b])
  {
    var o := rest + [a] + [b];
    assert forall i :: 0 <= i < |o| ==> o[i] == if i < |rest| then rest[i] else if i == |rest| then a else b;
    assert forall i :: 0 <= i < |rest| ==> rest[i] in rest;
  }

  lemma DifferentOutcomes(names: Names, data: Object, o: seq<string>, p: seq<string>)
    requires Tour(names, data, o) && Tour(names, data, p) && Visit(names, data, o) != Visit(names, data, p)
    ensures !OneOutcome(names, data)
  {
  }

  lemma TwoOutcomes(names: Names, data: Object, a: string, b: string)
    requires Flat(names) && a in data && b in data && Renames(names, a) && Renames(names, b)
    requires names[a] == names[b] && data[a] != data[b]
    ensures !OneOutcome(names, data)
  {
    var rest := Listing(data.Keys - {a, b});
    var o, p := rest + [a] + [b], rest + [b] + [a];
    TourOf(names, data, a, b, rest);
    TourOf(names, data, b, a, rest);
    LastOneWins(names, data, rest + [a], b);
    LastOneWins(names, data, rest + [b], a);
    DifferentOutcomes(names, data, o, p);
  }

  /** With a flat table the result is the same for every visiting order exactly when aliases of one
      field that are both present agree; and then it is the renamed data. */
  lemma OrderIndependentExact(names: Names, data: Object, order: seq<string>)
    requires Flat(names) && Tour(names, data, order)
    ensures OneOutcome(names, data) <==> Agree(names, data)
    ensures OneOutcome(names, data) ==> IsRenamed(names, data, Visit(names, data, order))
  {
    if Agree(names, data) {
      AgreeingOutcome(names, data);
      TourRenames(names, data, order);
    } else {
      var a, b :| a in data && b in data && Renames(names, a) && Renames(names, b) && names[a] == names[b]
                  && data[a] != data[b];
      TwoOutcomes(names, data, a, b);
    }
  }

  lemma RenamedOnce(names: Names, data: Object, r: Object, s: Object)
    requires IsRenamed(names, data, r) && IsRenamed(names, data, s)
    ensures r == s
  {
    forall k <- r ensures r[k] == s[k] {
      if k in Targets(names, data.Keys) {
        var a :| a in data && Renames(names, a) && names[a] == k;
      }
    }
  }

  lemma LastOneWins(names: Names, data: Object, order: seq<string>, k: string)
    requires Flat(names) && k in data && Renames(names, k) && forall x <- order :: x in data
    ensures var d := Visit(names, data, order + [k]); names[k] in d && d[names[k]] == data[k]
  {
    VisitPartly(names, data, order);
    assert (order + [k])[..|order|] == order;
    NotATarget(names, (set x | x in order), k);
  }

  // ---------- tables made from fields ----------

  /** No spelling of one field is a spelling of another one, or another one itself. */
  ghost predicate Disjoint(fields: set<string>) {
    forall f, g | f in fields && g in fields && f != g :: Aliases(f) !! Aliases(g) && f !in Aliases(g)
  }

  /** The pass words are not in the way of other fields. */
  ghost predicate PassOk(fields: set<string>) {
    && "pass" !in fields
    && (forall f <- fields | PASSPHRASE in Aliases(f) :: f == PASSPHRASE)
    && (PASSPHRASE in fields ==> "password" !in fields)
    && (forall f <- fields | IsPass(YamlKey(f)) :: f == "password")
  }

  lemma PasswordAliases()
    ensures Aliases("password") == {"password"}
  {
    assert NoUpper("password");
    LowerFixed("password");
    YamlFixed("password");
    assert "password"[|"password"| - 1] == 'd';
    assert "password"[|"password"| - 1..] == ['d'] && "password"[|"password"| - 2..] == ['r', 'd'];
  }

  lemma PhraseStays(names: Names, fields: set<string>, phrase: string)
    requires IsTable(names, fields) && PassOk(fields) && phrase == PASSPHRASE && phrase in names
    ensures names[phrase] == phrase
  {
    assert !IsPass(phrase);
  }

  lemma PassFieldAlias(fields: set<string>, f: string, a: string)
    requires PassOk(fields) && f in fields && IsPass(f) && a in Aliases(f)
    ensures a == f
  {
    PasswordAliases();
  }

  lemma TableLeads(names: Names, fields: set<string>, k: string)
    requires IsTable(names, fields) && k in names && !IsPass(k)
    ensures names[k] in fields && k in Aliases(names[k])
  {
  }

  lemma NoFieldsAlias(fields: set<string>, f: string, g: string)
    requires Disjoint(fields) && f in fields && g in fields && f in Aliases(g)
    ensures f == g
  {
  }

  lemma FieldStays(names: Names, fields: set<string>, f: string)
    requires IsTable(names, fields) && Disjoint(fields) && f in fields && !IsPass(f) && f in names
    ensures names[f] == f
  {
    TableLeads(names, fields, f);
    NoFieldsAlias(fields, f, names[f]);
  }

  lemma TableFlat(names: Names, fields: set<string>)
    requires IsTable(names, fields) && Disjoint(fields) && PassOk(fields)
    ensures Flat(names)
  {
    forall a | a in names && names[a] in names ensures names[names[a]] == names[a] {
      var f := names[a];
      if IsPass(a) {
        PhraseStays(names, fields, f);
      } else if IsPass(f) {
        PassFieldAlias(fields, f, a);
      } else {
        FieldStays(names, fields, f);
      }
    }
  }
}
