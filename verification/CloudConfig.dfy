/** The configuration structures themselves: their field names are told apart by three letters, so
    no spelling of one can be taken for another. */
module CloudConfig {
  import opened Naming
  import opened Renaming
  import opened Reading
  import WriteRead

  // The fields of a structure, in the alphabetical order of their names.
  datatype Decls = End | Field(name: string, t: FieldType, rest: Decls)

  function Fields(d: Decls): map<string, FieldType> {
    match d case End => map[] case Field(name, t, rest) => Fields(rest)[name := t]
  }

  function Wifi(): Decls {
    Field("name", Text,
    Field("passphrase", Text,
    End))
  }

  function File(): Decls {
    Field("content", Text,
    Field("encoding", Text,
    Field("owner", Text,
    Field("path", Text,
    Field("permissions", Text,
    End)))))
  }

  function Install(): Decls {
    Field("configUrl", Text,
    Field("debug", Truth,
    Field("device", Text,
    Field("forceEfi", Truth,
    Field("isoUrl", Text,
    Field("noFormat", Truth,
    Field("powerOff", Truth,
    Field("silent", Truth,
    Field("tty", Text,
    End)))))))))
  }

  function Edgi(install: FieldType, wifi: FieldType): Decls {
    Field("dataSources", Words,
    Field("dnsNameservers", Words,
    Field("environment", StringMap,
    Field("install", install,
    Field("k3sArgs", Words,
    Field("labels", StringMap,
    Field("modules", Words,
    Field("ntpServers", Words,
    Field("password", Text,
    Field("serverUrl", Text,
    Field("sysctls", StringMap,
    Field("taints", Words,
    Field("token", Text,
    Field("wifi", wifi,
    End))))))))))))))
  }

  function Config(edgi: FieldType, files: FieldType): Decls {
    Field("bootCmd", Words,
    Field("edgi", edgi,
    Field("hostname", Text,
    Field("initCmd", Words,
    Field("runCmd", Words,
    Field("sshAuthorizedKeys", Words,
    Field("writeFiles", files,
    End)))))))
  }

  const CLOUD_CONFIG: FieldType :=
    Sub(Fields(Config(Sub(Fields(Edgi(Sub(Fields(Install())), SubList(Fields(Wifi()))))), SubList(Fields(File())))))

  // ---------- telling field names apart ----------

  /** The letters of a key: lower case, without underscores. */
  function Squash(s: string): string {
    if s == "" then "" else (if s[0] == '_' then "" else [LowerChar(s[0])]) + Squash(s[1..])
  }

  /** Long enough to keep three letters without its plural ending. */
  predicate Tellable(f: string) {
    |f| >= 3 && f[0] != '_' && f[1] != '_' && f[2] != '_' && (f[|f| - 1] == 's' ==> |f| >= 5)
  }

  function Letters(f: string): (char, char, char)
    requires |f| >= 3
  {
    (LowerChar(f[0]), LowerChar(f[1]), LowerChar(f[2]))
  }

  /** The key's letters begin with these characters in lower case. */
  predicate Begins(q: string, s: string, n: nat)
    requires n <= |s|
  {
    n <= |q| && forall i :: 0 <= i < n ==> q[i] == LowerChar(s[i])
  }

  lemma {:induction false} SquashSnake(s: string, cap: bool, n: nat)
    requires n <= |s| && forall i :: 0 <= i < n ==> s[i] != '_'
    ensures Begins(Squash(SnakeRest(s, cap)), s, n)
  {
    if n > 0 {
      var c := cap && IsUpper(s[0]);
      var t := SnakeRest(s[1..], c);
      SquashSnake(s[1..], c, n - 1);
      var u := [LowerChar(s[0])] + t;
      assert u[1..] == t;
      if IsUpper(s[0]) && !cap {
        assert SnakeRest(s, cap) == "_" + u && ("_" + u)[1..] == u;
      } else {
        assert SnakeRest(s, cap) == u;
      }
    }
  }

  lemma {:induction false} SquashLower(s: string, n: nat)
    requires n <= |s| && forall i :: 0 <= i < n ==> s[i] != '_'
    ensures Begins(Squash(ToLower(s)), s, n) && Begins(Squash(s), s, n)
  {
    if n > 0 {
      SquashLower(s[1..], n - 1);
      assert ToLower(s)[1..] == ToLower(s[1..]);
    }
  }

  lemma SquashYaml(s: string, n: nat)
    requires 0 < n <= |s| && forall i :: 0 <= i < n ==> s[i] != '_'
    ensures Begins(Squash(YamlKey(s)), s, n)
  {
    var t := SnakeRest(s[1..], IsUpper(s[0]));
    SquashSnake(s[1..], IsUpper(s[0]), n - 1);
    assert YamlKey(s)[1..] == t;
    var q := Squash(YamlKey(s));
    assert q == [LowerChar(s[0])] + Squash(t);
    forall i | 0 <= i < n ensures q[i] == LowerChar(s[i]) {
      if i > 0 {
        assert q[i] == Squash(t)[i - 1];
      }
    }
  }

  lemma SpellingLetters(name: string, k: string)
    requires |name| >= 3 && name[0] != '_' && name[1] != '_' && name[2] != '_' && k in Spellings(name)
    ensures var q := Squash(k); |q| >= 3 && (q[0], q[1], q[2]) == Letters(name)
  {
    SquashLower(name, 3);
    SquashYaml(name, 3);
    LowerFixed(YamlKey(name));
    assert Begins(Squash(k), name, 3);
  }

  /** Every alias of a field begins with the field's letters. */
  lemma AliasLetters(f: string, k: string)
    requires Tellable(f) && k in Aliases(f)
    ensures var q := Squash(k); |q| >= 3 && (q[0], q[1], q[2]) == Letters(f)
  {
    assert EndsWith(f, "s") ==> f[|f| - 1..][0] == 's';
    assert EndsWith(f, "es") ==> f[|f| - 2..][1] == 's';
    var name :| name in {f, f[..|f| - 1], f[..|f| - 2]} && |name| >= 3 && k in Spellings(name);
    SpellingLetters(name, k);
  }

  ghost predicate ToldApart(fields: set<string>) {
    && (forall f <- fields :: Tellable(f))
    && forall f, g | f in fields && g in fields && Letters(f) == Letters(g) :: f == g
  }

  lemma OwnLetters(f: string)
    requires Tellable(f)
    ensures var q := Squash(f); |q| >= 3 && (q[0], q[1], q[2]) == Letters(f)
  {
    SquashLower(f, 3);
    assert Begins(Squash(f), f, 3);
  }

  lemma ToldApartDisjoint(fields: set<string>)
    requires ToldApart(fields)
    ensures Disjoint(fields)
  {
    forall f, g | f in fields && g in fields && f != g ensures Aliases(f) !! Aliases(g) && f !in Aliases(g) {
      forall k | k in Aliases(f) && k in Aliases(g) ensures false {
        AliasLetters(f, k);
        AliasLetters(g, k);
      }
      if f in Aliases(g) {
        AliasLetters(g, f);
        OwnLetters(f);
      }
    }
  }

  /** The only field beginning like the pass words is the password or the passphrase. */
  predicate PassApart(fields: set<string>) {
    && (forall f <- fields | |f| >= 3 && Letters(f) == ('p', 'a', 's') :: f == "password" || f == PASSPHRASE)
    && (PASSPHRASE in fields ==> "password" !in fields)
  }

  lemma PassLetters(f: string, k: string)
    requires Tellable(f) && k in Aliases(f) && (IsPass(k) || k == PASSPHRASE)
    ensures Letters(f) == ('p', 'a', 's')
  {
    AliasLetters(f, k);
    assert k[0] == 'p' && k[1] == 'a' && k[2] == 's';
    var q := Squash(k);
    assert q == ['p'] + Squash(k[1..]) && Squash(k[1..]) == ['a'] + Squash(k[1..][1..]);
    assert k[1..][1..][0] == 's';
  }

  lemma PassphraseFixed()
    ensures YamlKey(PASSPHRASE) == PASSPHRASE
  {
    assert NoUpper(PASSPHRASE);
    YamlFixed(PASSPHRASE);
  }

  lemma PassAlias(fields: set<string>, f: string, k: string, passphrase: string)
    requires ToldApart(fields) && PassApart(fields) && f in fields && k in Aliases(f)
    requires passphrase == PASSPHRASE && (IsPass(k) || k == passphrase)
    ensures f == "password" || f == passphrase
  {
    PassLetters(f, k);
  }

  lemma PasswordOnly(f: string, k: string)
    requires f == "password" && k in Aliases(f)
    ensures k == f
  {
    PasswordAliases();
  }

  lemma OnlyPassphrase(fields: set<string>, passphrase: string)
    requires ToldApart(fields) && PassApart(fields) && passphrase == PASSPHRASE
    ensures forall f <- fields | passphrase in Aliases(f) :: f == passphrase
  {
    forall f <- fields | passphrase in Aliases(f) ensures f == passphrase {
      PassAlias(fields, f, passphrase, passphrase);
      if f == "password" {
        PasswordOnly(f, passphrase);
      }
    }
  }

  lemma OnlyPassword(fields: set<string>)
    requires ToldApart(fields) && PassApart(fields)
    ensures forall f <- fields | IsPass(YamlKey(f)) :: f == "password"
  {
    PassphraseFixed();
    forall f <- fields | IsPass(YamlKey(f)) ensures f == "password" {
      PassAlias(fields, f, YamlKey(f), PASSPHRASE);
    }
  }

  lemma PassesOk(fields: set<string>)
    requires ToldApart(fields) && PassApart(fields) && "pass" !in fields
    ensures PassOk(fields)
  {
    OnlyPassphrase(fields, PASSPHRASE);
    OnlyPassword(fields);
  }

  // ---------- the structures ----------

  function Three(a: char, b: char, c: char): int { (a as int * 256 + b as int) * 256 + c as int }

  function Code(f: string): int
    requires |f| >= 3
  {
    Three(LowerChar(f[0]), LowerChar(f[1]), LowerChar(f[2]))
  }

  /** The name begins with these letters; nothing but the pass words begins like them. */
  predicate Named(f: string, code: int) {
    Tellable(f) && Code(f) == code && (code == Three('p', 'a', 's') ==> f == "password" || f == PASSPHRASE)
  }

  type TypeTest = FieldType -> bool

  /** The names come in the order of their first letters, which no two share; the types pass the test. */
  ghost predicate Ordered(ok: TypeTest, d: Decls, from: int) {
    match d
    case End => true
    case Field(name, t, rest) =>
      |name| >= 3 && from <= Code(name) && Named(name, Code(name)) && ok(t) && Ordered(ok, rest, Code(name) + 1)
  }

  /** One more field in front; `after` is where the others begin. */
  lemma Prepend(ok: TypeTest, name: string, t: FieldType, rest: Decls, code: int, after: int) returns (d: Decls)
    requires Named(name, code) && ok(t) && Ordered(ok, rest, after) && code < after
    ensures d == Field(name, t, rest) && Ordered(ok, d, code)
  {
    d := Field(name, t, rest);
  }

  ghost predicate Struct(ok: TypeTest, m: map<string, FieldType>, from: int) {
    && (forall f <- m :: |f| >= 3 && from <= Code(f) && Named(f, Code(f)) && ok(m[f]))
    && (forall f, g | f in m && g in m && Code(f) == Code(g) :: f == g)
  }

  lemma {:induction false} OrderedStruct(ok: TypeTest, d: Decls, from: int)
    requires Ordered(ok, d, from)
    ensures Struct(ok, Fields(d), from)
  {
    if d.Field? {
      OrderedStruct(ok, d.rest, Code(d.name) + 1);
    }
  }

  lemma StructPasses(ok: TypeTest, m: map<string, FieldType>, from: int)
    requires Struct(ok, m, from)
    ensures ToldApart(m.Keys) && PassApart(m.Keys) && "pass" !in m
  {
    forall f, g | f in m && g in m && Letters(f) == Letters(g) ensures f == g {
      assert Code(f) == Code(g);
    }
    forall f <- m | |f| >= 3 && Letters(f) == ('p', 'a', 's') ensures f == "password" || f == PASSPHRASE {
      assert Named(f, Code(f));
    }
    assert Code(PASSPHRASE) == Code("password") && !Named("pass", Code("pass"));
  }

  lemma StructOk(ok: TypeTest, m: map<string, FieldType>, from: int)
    requires Struct(ok, m, from) && ok == SchemaOk
    ensures ok(Sub(m)) && ok(SubList(m))
  {
    StructPasses(ok, m, from);
    ToldApartDisjoint(m.Keys);
    PassesOk(m.Keys);
  }

  /** A test passed by the plain types, and by structures declared like this. */
  ghost predicate Admits(ok: TypeTest) {
    && ok(Text) && ok(Truth) && ok(Words) && ok(StringMap)
    && forall d, from | Ordered(ok, d, from) :: ok(Sub(Fields(d))) && ok(SubList(Fields(d)))
  }

  lemma SchemaAdmits()
    ensures Admits(SchemaOk)
  {
    forall d, from | Ordered(SchemaOk, d, from) ensures SchemaOk(Sub(Fields(d))) && SchemaOk(SubList(Fields(d))) {
      OrderedStruct(SchemaOk, d, from);
      StructOk(SchemaOk, Fields(d), from);
    }
  }

  lemma WifiNames()
    ensures Named("name", Three('n', 'a', 'm'))
    ensures Named("passphrase", Three('p', 'a', 's'))
  {
  }

  lemma WifiOrdered(ok: TypeTest)
    requires ok(Text) && ok(Truth) && ok(Words) && ok(StringMap)
    ensures Ordered(ok, Wifi(), Three('n', 'a', 'm'))
  {
    WifiNames();
    var d := Prepend(ok, "passphrase", Text, End, Three('p', 'a', 's'), Three('p', 'a', 's') + 1);
    d := Prepend(ok, "name", Text, d, Three('n', 'a', 'm'), Three('p', 'a', 's'));
  }

  lemma FileNames()
    ensures Named("content", Three('c', 'o', 'n'))
    ensures Named("encoding", Three('e', 'n', 'c'))
    ensures Named("owner", Three('o', 'w', 'n'))
    ensures Named("path", Three('p', 'a', 't'))
    ensures Named("permissions", Three('p', 'e', 'r'))
  {
  }

  lemma FileOrdered(ok: TypeTest)
    requires ok(Text) && ok(Truth) && ok(Words) && ok(StringMap)
    ensures Ordered(ok, File(), Three('c', 'o', 'n'))
  {
    FileNames();
    var d := Prepend(ok, "permissions", Text, End, Three('p', 'e', 'r'), Three('p', 'e', 'r') + 1);
    d := Prepend(ok, "path", Text, d, Three('p', 'a', 't'), Three('p', 'e', 'r'));
    d := Prepend(ok, "owner", Text, d, Three('o', 'w', 'n'), Three('p', 'a', 't'));
    d := Prepend(ok, "encoding", Text, d, Three('e', 'n', 'c'), Three('o', 'w', 'n'));
    d := Prepend(ok, "content", Text, d, Three('c', 'o', 'n'), Three('e', 'n', 'c'));
  }

  lemma InstallNames()
    ensures Named("configUrl", Three('c', 'o', 'n'))
    ensures Named("debug", Three('d', 'e', 'b'))
    ensures Named("device", Three('d', 'e', 'v'))
    ensures Named("forceEfi", Three('f', 'o', 'r'))
    ensures Named("isoUrl", Three('i', 's', 'o'))
    ensures Named("noFormat", Three('n', 'o', 'f'))
    ensures Named("powerOff", Three('p', 'o', 'w'))
    ensures Named("silent", Three('s', 'i', 'l'))
    ensures Named("tty", Three('t', 't', 'y'))
  {
  }

  lemma InstallOrdered(ok: TypeTest)
    requires ok(Text) && ok(Truth) && ok(Words) && ok(StringMap)
    ensures Ordered(ok, Install(), Three('c', 'o', 'n'))
  {
    InstallNames();
    var d := Prepend(ok, "tty", Text, End, Three('t', 't', 'y'), Three('t', 't', 'y') + 1);
    d := Prepend(ok, "silent", Truth, d, Three('s', 'i', 'l'), Three('t', 't', 'y'));
    d := Prepend(ok, "powerOff", Truth, d, Three('p', 'o', 'w'), Three('s', 'i', 'l'));
    d := Prepend(ok, "noFormat", Truth, d, Three('n', 'o', 'f'), Three('p', 'o', 'w'));
    d := Prepend(ok, "isoUrl", Text, d, Three('i', 's', 'o'), Three('n', 'o', 'f'));
    d := Prepend(ok, "forceEfi", Truth, d, Three('f', 'o', 'r'), Three('i', 's', 'o'));
    d := Prepend(ok, "device", Text, d, Three('d', 'e', 'v'), Three('f', 'o', 'r'));
    d := Prepend(ok, "debug", Truth, d, Three('d', 'e', 'b'), Three('d', 'e', 'v'));
    d := Prepend(ok, "configUrl", Text, d, Three('c', 'o', 'n'), Three('d', 'e', 'b'));
  }

  lemma EdgiNames()
    ensures Named("dataSources", Three('d', 'a', 't'))
    ensures Named("dnsNameservers", Three('d', 'n', 's'))
    ensures Named("environment", Three('e', 'n', 'v'))
    ensures Named("install", Three('i', 'n', 's'))
    ensures Named("k3sArgs", Three('k', '3', 's'))
    ensures Named("labels", Three('l', 'a', 'b'))
    ensures Named("modules", Three('m', 'o', 'd'))
    ensures Named("ntpServers", Three('n', 't', 'p'))
    ensures Named("password", Three('p', 'a', 's'))
    ensures Named("serverUrl", Three('s', 'e', 'r'))
    ensures Named("sysctls", Three('s', 'y', 's'))
    ensures Named("taints", Three('t', 'a', 'i'))
    ensures Named("token", Three('t', 'o', 'k'))
    ensures Named("wifi", Three('w', 'i', 'f'))
  {
  }

  lemma EdgiOrdered(ok: TypeTest, install: FieldType, wifi: FieldType)
    requires ok(Text) && ok(Truth) && ok(Words) && ok(StringMap) && ok(install) && ok(wifi)
    ensures Ordered(ok, Edgi(install, wifi), Three('d', 'a', 't'))
  {
    EdgiNames();
    var d := Prepend(ok, "wifi", wifi, End, Three('w', 'i', 'f'), Three('w', 'i', 'f') + 1);
    d := Prepend(ok, "token", Text, d, Three('t', 'o', 'k'), Three('w', 'i', 'f'));
    d := Prepend(ok, "taints", Words, d, Three('t', 'a', 'i'), Three('t', 'o', 'k'));
    d := Prepend(ok, "sysctls", StringMap, d, Three('s', 'y', 's'), Three('t', 'a', 'i'));
    d := Prepend(ok, "serverUrl", Text, d, Three('s', 'e', 'r'), Three('s', 'y', 's'));
    d := Prepend(ok, "password", Text, d, Three('p', 'a', 's'), Three('s', 'e', 'r'));
    d := Prepend(ok, "ntpServers", Words, d, Three('n', 't', 'p'), Three('p', 'a', 's'));
    d := Prepend(ok, "modules", Words, d, Three('m', 'o', 'd'), Three('n', 't', 'p'));
    d := Prepend(ok, "labels", StringMap, d, Three('l', 'a', 'b'), Three('m', 'o', 'd'));
    d := Prepend(ok, "k3sArgs", Words, d, Three('k', '3', 's'), Three('l', 'a', 'b'));
    d := Prepend(ok, "install", install, d, Three('i', 'n', 's'), Three('k', '3', 's'));
    d := Prepend(ok, "environment", StringMap, d, Three('e', 'n', 'v'), Three('i', 'n', 's'));
    d := Prepend(ok, "dnsNameservers", Words, d, Three('d', 'n', 's'), Three('e', 'n', 'v'));
    d := Prepend(ok, "dataSources", Words, d, Three('d', 'a', 't'), Three('d', 'n', 's'));
  }

  lemma ConfigNames()
    ensures Named("bootCmd", Three('b', 'o', 'o'))
    ensures Named("edgi", Three('e', 'd', 'g'))
    ensures Named("hostname", Three('h', 'o', 's'))
    ensures Named("initCmd", Three('i', 'n', 'i'))
    ensures Named("runCmd", Three('r', 'u', 'n'))
    ensures Named("sshAuthorizedKeys", Three('s', 's', 'h'))
    ensures Named("writeFiles", Three('w', 'r', 'i'))
  {
  }

  lemma ConfigOrdered(ok: TypeTest, edgi: FieldType, files: FieldType)
    requires ok(Text) && ok(Truth) && ok(Words) && ok(StringMap) && ok(edgi) && ok(files)
    ensures Ordered(ok, Config(edgi, files), Three('b', 'o', 'o'))
  {
    ConfigNames();
    var d := Prepend(ok, "writeFiles", files, End, Three('w', 'r', 'i'), Three('w', 'r', 'i') + 1);
    d := Prepend(ok, "sshAuthorizedKeys", Words, d, Three('s', 's', 'h'), Three('w', 'r', 'i'));
    d := Prepend(ok, "runCmd", Words, d, Three('r', 'u', 'n'), Three('s', 's', 'h'));
    d := Prepend(ok, "initCmd", Words, d, Three('i', 'n', 'i'), Three('r', 'u', 'n'));
    d := Prepend(ok, "hostname", Text, d, Three('h', 'o', 's'), Three('i', 'n', 'i'));
    d := Prepend(ok, "edgi", edgi, d, Three('e', 'd', 'g'), Three('h', 'o', 's'));
    d := Prepend(ok, "bootCmd", Words, d, Three('b', 'o', 'o'), Three('e', 'd', 'g'));
  }

  lemma AllOk(ok: TypeTest)
    requires Admits(ok)
    ensures ok(CLOUD_CONFIG)
  {
    InstallOrdered(ok);
    WifiOrdered(ok);
    FileOrdered(ok);
    var install, wifi, files := Sub(Fields(Install())), SubList(Fields(Wifi())), SubList(Fields(File()));
    EdgiOrdered(ok, install, wifi);
    ConfigOrdered(ok, Sub(Fields(Edgi(install, wifi))), files);
  }

  /** The configuration of this system meets the condition of the round trip. */
  lemma CloudConfigOk()
    ensures SchemaOk(CLOUD_CONFIG)
  {
    SchemaAdmits();
    AllOk(SchemaOk);
  }

  lemma InstanceOf(ok: TypeTest, good: TypeTest)
    requires ok(CLOUD_CONFIG) && forall t :: ok(t) ==> good(t)
    ensures good(CLOUD_CONFIG)
  {
  }

  /** Write then read, for the configuration of this system. */
  lemma CloudConfigRoundTrips()
    ensures WriteRead.RoundTrips(CLOUD_CONFIG)
  {
    CloudConfigOk();
    forall t ensures SchemaOk(t) ==> WriteRead.RoundTrips(t) {
      if SchemaOk(t) {
        WriteRead.SchemaRoundTrips(t);
      }
    }
    InstanceOf(SchemaOk, WriteRead.RoundTrips);
  }
}
