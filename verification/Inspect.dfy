/** What repository inspection collects from config files. */
module Inspect {
  // The collection logic of `Inspect` in services/agent/internal/builder/inspector.go; Go iterates the
  // flattened properties of a file in random order.

  import opened Text
  import opened Sorting

  // ---- One property ----

  datatype Engine = Postgres | Mysql

  datatype EnvKey = EnvKey(key: string, example: string, dbRole: string, dbName: string)

  /** The calls a scan makes on its collector. */
  datatype Emit =
    | EngineSchema(engine: Engine, schema: string)
    | Loose(name: string)
    | Env(env: EnvKey)

  /** `strings.ToUpper` of `.` and `-` replaced, exact wherever the result is an ASCII character. */
  function Relaxed(c: char): char {
    if c == '.' || c == '-' then '_'
    else if 'a' <= c <= 'z' then (c as int - 32) as char
    else if c == '\U{131}' then 'I'
    else if c == '\U{17F}' then 'S'
    else c
  }

  function RelaxedEnvName(path: string): string { Map(Relaxed, path) }

  predicate IsIdent(s: string) {
    s != "" && forall c :: c in s ==> c == '_' || c == '-' || 'a' <= c <= 'z' || 'A' <= c <= 'Z' || '0' <= c <= '9'
  }

  const DB_CONTEXT := {
    "datasource", "r2dbc", "flyway", "jdbc", "database", "db", "mysql", "postgres",
    "postgresql", "mariadb", "hikari", "liquibase"
  }

  function RoleLeaf(leaf: string): string {
    if leaf in {"url", "jdbc-url", "jdbcurl", "jdbc_url"} then "url"
    else if leaf in {"host", "hostname"} then "host"
    else if leaf == "port" then "port"
    else if leaf in {"username", "user"} then "user"
    else if leaf in {"password", "pass"} then "password"
    else ""
  }

  const SCHEMA_LEAVES := {
    "database", "db-name", "dbname", "name", "schema",
    "admin-database", "admindatabase", "default-schema", "defaultschema"
  }

  /** `s` up to its first `?` or `#`. */
  function WithoutQuery(s: string): string {
    if s == "" || s[0] == '?' || s[0] == '#' then "" else [s[0]] + WithoutQuery(s[1..])
  }

  function AfterLast(s: string, c: char): Option<string> {
    if s == "" then None
    else if s[|s| - 1] == c then Some("")
    else
      match AfterLast(s[..|s| - 1], c)
      case None => None
      case Some(rest) => Some(rest + [s[|s| - 1]])
  }

  /** The schema named by the path of a URL, or "". */
  function SchemaFromUrl(val: string): string {
    match AfterLast(WithoutQuery(val), '/')
    case Some(name) => if IsIdent(name) then name else ""
    case None => ""
  }

  function EnginesFromValue(val: string): seq<Engine> {
    var l := Map(Lower, val);
    (if Contains(l, "postgres") then [Postgres] else [])
    + if Contains(l, "mysql") || Contains(l, "mariadb") then [Mysql] else []
  }

  function EngineFromScheme(scheme: string): Option<Engine> {
    var l := Map(Lower, scheme);
    if l == "postgres" || l == "postgresql" then Some(Postgres)
    else if l == "mysql" || l == "mariadb" then Some(Mysql)
    else None
  }

  predicate HasDbContext(segs: seq<string>) {
    exists i :: 0 <= i < |segs| && segs[i] in DB_CONTEXT
  }

  function PropertyEmits(path: string, val: string): seq<Emit> {
    var segs := Split(Map(Lower, path), '.');
    if !HasDbContext(segs) || Contains(val, "${") then [] else LeafEmits(path, segs[|segs| - 1], val)
  }

  function LeafEmits(path: string, leaf: string, val: string): seq<Emit> {
    var role := RoleLeaf(leaf);
    if role == "url" then
      var schema := SchemaFromUrl(val);
      Map(e => EngineSchema(e, schema), EnginesFromValue(val)) + [Env(EnvKey(RelaxedEnvName(path), val, role, schema))]
    else if role != "" then [Env(EnvKey(RelaxedEnvName(path), val, role, ""))]
    else if leaf in SCHEMA_LEAVES && IsIdent(val) then [Loose(val)]
    else []
  }

  /** A match of the database URL pattern in a file's text. */
  datatype Url = Url(scheme: string, schema: string)

  function UrlEmits(u: Url): seq<Emit> {
    var engine, schema := EngineFromScheme(u.scheme), WithoutQuery(u.schema);
    if engine.Some? && IsIdent(schema) then [EngineSchema(engine.value, schema)] else []
  }

  /** A config file: the URLs in its text and its flattened properties. */
  datatype ConfigFile = ConfigFile(urls: seq<Url>, properties: map<string, string>)

  // ---- What a property means ----

  /** A path from `db` to a leaf is a connection property, whatever lies between. */
  lemma DbProperty(middle: string, leaf: string, val: string)
    requires '.' !in leaf && Map(Lower, leaf) == leaf && !Contains(val, "${")
    ensures var path := "db." + middle + "." + leaf; PropertyEmits(path, val) == LeafEmits(path, leaf, val)
  {
    hide Contains, Split, LeafEmits, DB_CONTEXT;
    var path := "db." + middle + "." + leaf;
    var m := Map(Lower, middle);
    LowerPath(middle, leaf);
    SplitFirst("db", m + ['.'] + leaf, '.');
    SplitConcat(m, leaf, '.');
    SplitPart(leaf, '.');
    var segs := Split(Map(Lower, path), '.');
    DbIsContext();
    assert segs[0] == "db" && HasDbContext(segs);
    assert segs[|segs| - 1] == leaf;
  }

  lemma LowerPath(middle: string, leaf: string)
    requires Map(Lower, leaf) == leaf
    ensures Map(Lower, "db." + middle + "." + leaf) == "db" + ['.'] + (Map(Lower, middle) + ['.'] + leaf)
  {
    var path, out := "db." + middle + "." + leaf, "db" + ['.'] + (Map(Lower, middle) + ['.'] + leaf);
    forall i | 0 <= i < |path|
      ensures Lower(path[i]) == out[i]
    {
      assert i >= 4 + |middle| ==> path[i] == leaf[i - 4 - |middle|] && Map(Lower, leaf)[i - 4 - |middle|] == path[i];
    }
  }

  lemma DbIsContext()
    ensures "db" in DB_CONTEXT
  {
  }

  lemma NoPlaceholder(val: string)
    requires '$' !in val
    ensures !Contains(val, "${")
  {
    hide IndexOfSub;
    forall k | 0 <= k <= |val|
      ensures !("${" <= val[k..])
    {
      assert k + 2 <= |val| ==> val[k..][0] == val[k] && val[k] in val;
    }
  }

  /** Without a connection word the path is none, whatever its leaf. */
  lemma OtherPathsEmitNothing(val: string)
    ensures PropertyEmits("server.port", val) == [] && PropertyEmits("app.name", val) == []
  {
    hide Contains, LeafEmits, Split, DB_CONTEXT;
    ShortPath("server", "port");
    ShortPath("app", "name");
    NoContextWords();
    assert "server" + "." + "port" == "server.port" && "app" + "." + "name" == "app.name";
  }

  lemma NoContextWords()
    ensures forall w :: w in ["server", "port", "app", "name"] ==> w !in DB_CONTEXT
  {
    assert "server"[0] != "hikari"[0] && "server"[0] != "flyway"[0];
    assert "port"[0] != "jdbc"[0] && "name"[0] != "jdbc"[0] && "server"[1] != "jdbc"[1];
    assert "server" !in DB_CONTEXT && "port" !in DB_CONTEXT && "app" !in DB_CONTEXT && "name" !in DB_CONTEXT;
  }

  lemma ShortPath(a: string, b: string)
    requires '.' !in a && '.' !in b && Map(Lower, a) == a && Map(Lower, b) == b
    ensures Split(Map(Lower, a + "." + b), '.') == [a, b]
  {
    hide Split;
    MapConcat(Lower, a + ".", b);
    MapConcat(Lower, a, ".");
    assert Map(Lower, ".") == ".";
    assert a + "." + b == a + ['.'] + b;
    SplitFirst(a, b, '.');
    SplitPart(b, '.');
  }

  /** The variable a property is overridden by. */
  lemma RelaxedExample()
    ensures RelaxedEnvName("app.datasource.host") == "APP_DATASOURCE_HOST"
    ensures RelaxedEnvName("my-db.url") == "MY_DB_URL"
  {
  }

  /** A placeholder anywhere in the value makes the property none. */
  lemma PlaceholderEmitsNothing(path: string, before: string, after: string)
    ensures PropertyEmits(path, before + "${" + after) == []
  {
    hide Contains;
    ContainsExactly(before + "${" + after, "${");
  }

  /** A value mentions an engine when one of its words occurs in it, in any case. */
  ghost predicate Mentions(val: string, word: string) {
    exists a, w, b :: val == a + w + b && Map(Lower, w) == word
  }

  lemma LowerMentions(val: string, word: string)
    ensures Contains(Map(Lower, val), word) <==> Mentions(val, word)
  {
    hide Contains;
    var l := Map(Lower, val);
    ContainsExactly(l, word);
    if a, b :| l == a + word + b {
      var w := val[|a|..|a| + |word|];
      assert val == val[..|a|] + w + val[|a| + |word|..];
      assert forall i :: 0 <= i < |word| ==> Map(Lower, w)[i] == l[|a| + i] == word[i];
    }
    if a, w, b :| val == a + w + b && Map(Lower, w) == word {
      MapConcat(Lower, a + w, b);
      MapConcat(Lower, a, w);
      assert l == Map(Lower, a) + word + Map(Lower, b);
    }
  }

  /** The engines of a value are those it mentions. */
  lemma EnginesExactly(val: string)
    ensures Postgres in EnginesFromValue(val) <==> Mentions(val, "postgres")
    ensures Mysql in EnginesFromValue(val) <==> Mentions(val, "mysql") || Mentions(val, "mariadb")
  {
    hide Contains, Mentions;
    LowerMentions(val, "postgres");
    LowerMentions(val, "mysql");
    LowerMentions(val, "mariadb");
  }

  lemma {:induction false} QueryIsCut(s: string, query: string)
    requires '?' !in s && '#' !in s && (query == "" || query[0] == '?' || query[0] == '#')
    ensures WithoutQuery(s + query) == s
  {
    if s == "" {
      assert s + query == query;
    } else {
      assert (s + query)[1..] == s[1..] + query;
      QueryIsCut(s[1..], query);
    }
  }

  lemma {:induction false} LastPart(s: string, c: char, name: string)
    requires c !in name
    ensures AfterLast(s + [c] + name, c) == Some(name)
  {
    var t := s + [c] + name;
    if name == "" {
      assert t[|t| - 1] == c;
    } else {
      var n := |name| - 1;
      assert t[..|t| - 1] == s + [c] + name[..n] && t[|t| - 1] == name[n] && name == name[..n] + [name[n]];
      LastPart(s, c, name[..n]);
    }
  }

  /** A URL with a path names the schema in its last segment, whatever query or anchor follows. */
  lemma SchemaOfUrl(before: string, schema: string, query: string)
    requires IsIdent(schema) && '?' !in before && '#' !in before
    requires query == "" || query[0] == '?' || query[0] == '#'
    ensures SchemaFromUrl(before + "/" + schema + query) == schema
  {
    QueryIsCut(before + "/" + schema, query);
    LastPart(before, '/', schema);
  }

  /** So a URL property reports that schema for each engine it mentions, and one environment key. */
  lemma UrlProperty(middle: string, before: string, schema: string, query: string)
    requires IsIdent(schema) && '?' !in before && '#' !in before && (query == "" || query[0] == '?' || query[0] == '#')
    requires '$' !in before && '$' !in query
    ensures var path, val := "db." + middle + ".url", before + "/" + schema + query;
            forall e :: e in PropertyEmits(path, val) <==>
              || e == Env(EnvKey(RelaxedEnvName(path), val, "url", schema))
              || (e == EngineSchema(Postgres, schema) && Mentions(val, "postgres"))
              || (e == EngineSchema(Mysql, schema) && (Mentions(val, "mysql") || Mentions(val, "mariadb")))
  {
    hide Contains, Mentions, PropertyEmits, LeafEmits, SchemaFromUrl, EnginesFromValue, RelaxedEnvName;
    var val := before + "/" + schema + query;
    assert Map(Lower, "url") == "url" && "db." + middle + "." + "url" == "db." + middle + ".url";
    assert '$' !in val;
    NoPlaceholder(val);
    DbProperty(middle, "url", val);
    SchemaOfUrl(before, schema, query);
    EnginesExactly(val);
    var path := "db." + middle + ".url";
    UrlLeaf(path, val);
    assert PropertyEmits(path, val) == LeafEmits(path, "url", val) && SchemaFromUrl(val) == schema;
    forall e: Emit
      ensures e.EngineSchema? && e.schema == schema && e.engine in EnginesFromValue(val) <==>
                || (e == EngineSchema(Postgres, schema) && Mentions(val, "postgres"))
                || (e == EngineSchema(Mysql, schema) && (Mentions(val, "mysql") || Mentions(val, "mariadb")))
    {
      if e.EngineSchema? {
        match e.engine
        case Postgres =>
        case Mysql =>
      }
    }
  }

  lemma UrlLeaf(path: string, val: string)
    ensures forall e :: e in LeafEmits(path, "url", val) <==>
              || e == Env(EnvKey(RelaxedEnvName(path), val, "url", SchemaFromUrl(val)))
              || (e.EngineSchema? && e.schema == SchemaFromUrl(val) && e.engine in EnginesFromValue(val))
  {
    hide SchemaFromUrl, EnginesFromValue, RelaxedEnvName;
    var schema, es := SchemaFromUrl(val), EnginesFromValue(val);
    var emits := Map(e => EngineSchema(e, schema), es);
    assert LeafEmits(path, "url", val) == emits + [Env(EnvKey(RelaxedEnvName(path), val, "url", schema))];
    forall e: Engine ensures e in es <==> EngineSchema(e, schema) in emits {
      if e in es {
        var i :| 0 <= i < |es| && es[i] == e;
        assert emits[i] == EngineSchema(e, schema);
      }
    }
  }

  /** A name property reports its value as a schema of an engine not yet known, if it can be one. */
  lemma NameProperty(middle: string, val: string)
    requires '$' !in val
    ensures PropertyEmits("db." + middle + ".name", val) == if IsIdent(val) then [Loose(val)] else []
  {
    hide Contains, PropertyEmits, SchemaFromUrl, EnginesFromValue, RelaxedEnvName;
    assert Map(Lower, "name") == "name" && "db." + middle + "." + "name" == "db." + middle + ".name";
    NoPlaceholder(val);
    DbProperty(middle, "name", val);
    NameIsSchemaLeaf();
  }

  lemma NameIsSchemaLeaf()
    ensures RoleLeaf("name") == "" && "name" in SCHEMA_LEAVES
  {
  }

  /** A URL in a file's text reports its schema for the engine of its scheme, in any case. */
  lemma UrlMatch(scheme: string, schema: string, query: string)
    requires IsIdent(schema) && (query == "" || query[0] == '?' || query[0] == '#')
    ensures Map(Lower, scheme) in {"postgres", "postgresql"} ==>
              UrlEmits(Url(scheme, schema + query)) == [EngineSchema(Postgres, schema)]
    ensures Map(Lower, scheme) in {"mysql", "mariadb"} ==>
              UrlEmits(Url(scheme, schema + query)) == [EngineSchema(Mysql, schema)]
    ensures Map(Lower, scheme) !in {"postgres", "postgresql", "mysql", "mariadb"} ==>
              UrlEmits(Url(scheme, schema + query)) == []
  {
    QueryIsCut(schema, query);
    assert "postgres"[0] != "mysql"[0] && "postgres"[0] != "mariadb"[0];
    assert "postgresql"[0] != "mysql"[0] && "postgresql"[0] != "mariadb"[0];
  }

  // ---- The collector ----

  datatype Found = Found(engines: set<Engine>, schemas: set<(Engine, string)>, loose: seq<string>,
                         envKeys: seq<EnvKey>, seen: set<string>)

  function Collected(f: Found, e: Emit): Found {
    match e
    case EngineSchema(engine, schema) =>
      f.(engines := f.engines + {engine}, schemas := f.schemas + if schema == "" then {} else {(engine, schema)})
    case Loose(name) => f.(loose := f.loose + [name])
    case Env(env) =>
      if env.key == "" || env.key in f.seen then f
      else f.(seen := f.seen + {env.key}, envKeys := f.envKeys + [env])
  }

  function CollectedAll(f: Found, es: seq<Emit>): Found {
    if es == [] then f else Collected(CollectedAll(f, es[..|es| - 1]), es[|es| - 1])
  }

  function AllUrlEmits(urls: seq<Url>): seq<Emit> {
    if urls == [] then [] else AllUrlEmits(urls[..|urls| - 1]) + UrlEmits(urls[|urls| - 1])
  }

  /** The emits of a map's properties, visited in `order`. */
  function PropertiesEmits(order: seq<string>, properties: map<string, string>): seq<Emit>
    requires forall p :: p in order ==> p in properties
  {
    if order == [] then []
    else
      var last := order[|order| - 1];
      assert last in order;
      PropertiesEmits(order[..|order| - 1], properties) + PropertyEmits(last, properties[last])
  }

  /** An order in which Go may iterate the map. */
  ghost predicate IsOrder(order: seq<string>, properties: map<string, string>) {
    NoDuplicates(order) && forall p :: p in order <==> p in properties
  }

  function FileEmits(file: ConfigFile, order: seq<string>): seq<Emit>
    requires forall p :: p in order ==> p in file.properties
  {
    AllUrlEmits(file.urls) + PropertiesEmits(order, file.properties)
  }

  ghost predicate AreOrders(orders: seq<seq<string>>, files: seq<ConfigFile>) {
    |orders| == |files| && forall i :: 0 <= i < |files| ==> IsOrder(orders[i], files[i].properties)
  }

  ghost function AllEmits(files: seq<ConfigFile>, orders: seq<seq<string>>): seq<Emit>
    requires AreOrders(orders, files)
  {
    if files == [] then []
    else
      var n := |files| - 1;
      AllEmits(files[..n], orders[..n]) + FileEmits(files[n], orders[n])
  }

  function SingleEngine(engines: set<Engine>): Option<Engine> {
    if engines == {Postgres} then Some(Postgres)
    else if engines == {Mysql} then Some(Mysql)
    else None
  }

  datatype DatabaseNeed = DatabaseNeed(engine: Engine, schemas: seq<string>)

  /** The schemas of an engine, with the loose ones when it is the only engine. */
  function SchemasOf(f: Found, e: Engine): set<string> {
    (set s | s in f.schemas && s.0 == e :: s.1)
    + if SingleEngine(f.engines) == Some(e) then set s | s in f.loose && s != "" else {}
  }

  ghost predicate IsNeed(f: Found, e: Engine, need: seq<DatabaseNeed>) {
    if e in f.engines
    then |need| == 1 && need[0].engine == e && IsSorted(SchemasOf(f, e), need[0].schemas)
    else need == []
  }

  ghost predicate IsDatabases(f: Found, dbs: seq<DatabaseNeed>) {
    exists p, m :: IsNeed(f, Postgres, p) && IsNeed(f, Mysql, m) && dbs == p + m
  }

  lemma {:induction false} CollectedConcat(f: Found, a: seq<Emit>, b: seq<Emit>)
    ensures CollectedAll(f, a + b) == CollectedAll(CollectedAll(f, a), b)
  {
    hide Collected;
    if b == [] {
      assert a + b == a;
    } else {
      var n := |b| - 1;
      assert (a + b)[..|a| + n] == a + b[..n];
      CollectedConcat(f, a, b[..n]);
    }
  }

  lemma CollectedOne(f: Found, e: Emit)
    ensures CollectedAll(f, [e]) == Collected(f, e)
  {
    assert [e][..0] == [];
  }

  class Inspection {
    var engines: set<Engine>
    var schemas: set<(Engine, string)>
    var loose: seq<string>
    var envKeys: seq<EnvKey>
    var seen: set<string>

    ghost function State(): Found
      reads this
    {
      Found(engines, schemas, loose, envKeys, seen)
    }

    method AddSchema(engine: Engine, name: string)
      modifies this`schemas
      ensures schemas == old(schemas) + if name == "" then {} else {(engine, name)}
    {
      if name == "" {
        return;
      }
      schemas := schemas + {(engine, name)};
    }

    method EmitEngineSchema(engine: Engine, schema: string)
      modifies this
      ensures State() == Collected(old(State()), EngineSchema(engine, schema))
    {
      engines := engines + {engine};
      AddSchema(engine, schema);
    }

    method EmitLoose(name: string)
      modifies this
      ensures State() == Collected(old(State()), Loose(name))
    {
      loose := loose + [name];
    }

    method EmitEnvKey(env: EnvKey)
      modifies this
      ensures State() == Collected(old(State()), Env(env))
    {
      if env.key == "" || env.key in seen {
        return;
      }
      seen := seen + {env.key};
      envKeys := envKeys + [env];
    }

    method ScanConfigProp(path: string, val: string)
      modifies this
      ensures State() == CollectedAll(old(State()), PropertyEmits(path, val))
    {
      hide Collected, Contains, RoleLeaf, IsIdent, EnginesFromValue, SchemaFromUrl;
      var segs := Split(Map(Lower, path), '.');
      if !HasDbContext(segs) {
        return;
      }
      if Contains(val, "${") {
        return;
      }
      var leaf := segs[|segs| - 1];
      var role := RoleLeaf(leaf);
      if role != "" {
        var env := EnvKey(RelaxedEnvName(path), val, role, "");
        if role == "url" {
          env := env.(dbName := SchemaFromUrl(val));
          ScanUrlEngines(EnginesFromValue(val), env.dbName);
          CollectedConcat(old(State()), Map(e => EngineSchema(e, env.dbName), EnginesFromValue(val)), [Env(env)]);
        }
        CollectedOne(State(), Env(env));
        EmitEnvKey(env);
        return;
      }
      if leaf in SCHEMA_LEAVES && IsIdent(val) {
        CollectedOne(State(), Loose(val));
        EmitLoose(val);
      }
    }

    method ScanUrlEngines(es: seq<Engine>, schema: string)
      modifies this
      ensures State() == CollectedAll(old(State()), Map(e => EngineSchema(e, schema), es))
    {
      hide Collected;
      ghost var emits := Map(e => EngineSchema(e, schema), es);
      for i := 0 to |es|
        invariant State() == CollectedAll(old(State()), emits[..i])
      {
        assert emits[..i + 1][..i] == emits[..i];
        EmitEngineSchema(es[i], schema);
      }
      assert emits[..|es|] == emits;
    }

    method ScanUrls(urls: seq<Url>)
      modifies this
      ensures State() == CollectedAll(old(State()), AllUrlEmits(urls))
    {
      hide Collected, IsIdent, EngineFromScheme;
      for i := 0 to |urls|
        invariant State() == CollectedAll(old(State()), AllUrlEmits(urls[..i]))
      {
        assert urls[..i + 1][..i] == urls[..i];
        CollectedConcat(old(State()), AllUrlEmits(urls[..i]), UrlEmits(urls[i]));
        var engine := EngineFromScheme(urls[i].scheme);
        if engine.None? {
          continue;
        }
        var schema := WithoutQuery(urls[i].schema);
        if IsIdent(schema) {
          CollectedOne(State(), EngineSchema(engine.value, schema));
          EmitEngineSchema(engine.value, schema);
        }
      }
      assert urls[..|urls|] == urls;
    }

    method ScanFile(file: ConfigFile) returns (ghost order: seq<string>)
      modifies this
      ensures IsOrder(order, file.properties)
      ensures State() == CollectedAll(old(State()), FileEmits(file, order))
    {
      hide PropertyEmits, Collected;
      ScanUrls(file.urls);
      ghost var start := State();
      order := [];
      var left := file.properties.Keys;
      while left != {}
        invariant left <= file.properties.Keys && NoDuplicates(order)
        invariant forall p :: p in order <==> p in file.properties.Keys - left
        invariant State() == CollectedAll(start, PropertiesEmits(order, file.properties))
      {
        var path :| path in left;
        left := left - {path};
        assert path !in order;
        CollectedConcat(start, PropertiesEmits(order, file.properties), PropertyEmits(path, file.properties[path]));
        ScanConfigProp(path, file.properties[path]);
        assert (order + [path])[..|order|] == order;
        order := order + [path];
      }
      CollectedConcat(old(State()), AllUrlEmits(file.urls), PropertiesEmits(order, file.properties));
    }

    method ScanConfigs(files: seq<ConfigFile>) returns (ghost orders: seq<seq<string>>)
      modifies this
      ensures AreOrders(orders, files)
      ensures State() == CollectedAll(old(State()), AllEmits(files, orders))
    {
      hide FileEmits, Collected, NoDuplicates;
      orders := [];
      for i := 0 to |files|
        invariant AreOrders(orders, files[..i])
        invariant State() == CollectedAll(old(State()), AllEmits(files[..i], orders))
      {
        assert files[..i + 1][..i] == files[..i];
        ghost var order := ScanFile(files[i]);
        assert (orders + [order])[..i] == orders;
        CollectedConcat(old(State()), AllEmits(files[..i], orders), FileEmits(files[i], order));
        orders := orders + [order];
      }
      assert files[..|files|] == files;
    }

    method Databases() returns (dbs: seq<DatabaseNeed>)
      modifies this`schemas
      ensures IsDatabases(old(State()), dbs)
    {
      var single := SingleEngine(engines);
      if single.Some? {
        for i := 0 to |loose|
          invariant forall s :: s in schemas <==>
                      s in old(schemas) || (s.0 == single.value && s.1 != "" && s.1 in loose[..i])
        {
          AddSchema(single.value, loose[i]);
        }
        assert loose[..|loose|] == loose;
      }
      ghost var f := old(State());
      var postgres := Need(Postgres, f);
      var mysql := Need(Mysql, f);
      dbs := postgres + mysql;
    }

    method Need(e: Engine, ghost f: Found) returns (need: seq<DatabaseNeed>)
      requires engines == f.engines
      requires forall s :: (e, s) in schemas <==> s in SchemasOf(f, e)
      ensures IsNeed(f, e, need)
    {
      need := [];
      if e in engines {
        var names := set s | s in schemas && s.0 == e :: s.1;
        assert forall s :: s in names <==> (e, s) in schemas;
        assert names == SchemasOf(f, e);
        var sorted := SortedKeys(names);
        need := [DatabaseNeed(e, sorted)];
      }
    }
  }

  // ---- What the order cannot change ----

  /** The part of a collection that is the same whatever order the emits come in. */
  datatype Essence = Essence(engines: set<Engine>, schemas: set<(Engine, string)>, loose: set<string>,
                             seen: set<string>)

  ghost function EssenceOf(f: Found): Essence {
    Essence(f.engines, f.schemas, (set s | s in f.loose), f.seen)
  }

  ghost function Absorbed(x: Essence, es: set<Emit>): Essence {
    Essence(
      x.engines + (set e | e in es && e.EngineSchema? :: e.engine),
      x.schemas + (set e | e in es && e.EngineSchema? && e.schema != "" :: (e.engine, e.schema)),
      x.loose + (set e | e in es && e.Loose? :: e.name),
      x.seen + (set e | e in es && e.Env? && e.env.key != "" :: e.env.key))
  }

  ghost function Members(es: seq<Emit>): set<Emit> {
    set e | e in es
  }

  lemma AbsorbOne(f: Found, e: Emit)
    ensures EssenceOf(Collected(f, e)) == Absorbed(EssenceOf(f), {e})
  {
  }

  lemma AbsorbUnion(x: Essence, a: set<Emit>, b: set<Emit>)
    ensures Absorbed(Absorbed(x, a), b) == Absorbed(x, a + b)
  {
  }

  lemma {:induction false} CollectedAbsorbs(f: Found, es: seq<Emit>)
    ensures EssenceOf(CollectedAll(f, es)) == Absorbed(EssenceOf(f), Members(es))
  {
    hide Collected, EssenceOf, Absorbed;
    if es == [] {
      AbsorbNone(EssenceOf(f));
    } else {
      var n := |es| - 1;
      CollectedAbsorbs(f, es[..n]);
      AbsorbOne(CollectedAll(f, es[..n]), es[n]);
      AbsorbUnion(EssenceOf(f), Members(es[..n]), {es[n]});
      assert es == es[..n] + [es[n]];
      assert Members(es) == Members(es[..n]) + {es[n]};
    }
  }

  lemma AbsorbNone(x: Essence)
    ensures Absorbed(x, Members([])) == x
  {
  }

  /** The emits of a map's properties, whatever the order, are those of each property. */
  lemma {:induction false} PropertiesEmitsMembers(order: seq<string>, properties: map<string, string>, e: Emit)
    requires forall p :: p in order ==> p in properties
    ensures e in PropertiesEmits(order, properties) <==> exists p :: p in order && e in PropertyEmits(p, properties[p])
  {
    hide PropertyEmits;
    if order != [] {
      var n := |order| - 1;
      assert order == order[..n] + [order[n]];
      PropertiesEmitsMembers(order[..n], properties, e);
    }
  }

  lemma FileEmitsSame(file: ConfigFile, order: seq<string>, other: seq<string>)
    requires IsOrder(order, file.properties) && IsOrder(other, file.properties)
    ensures Members(FileEmits(file, order)) == Members(FileEmits(file, other))
  {
    hide PropertyEmits, AllUrlEmits, PropertiesEmits;
    forall e ensures e in FileEmits(file, order) <==> e in FileEmits(file, other) {
      PropertiesEmitsMembers(order, file.properties, e);
      PropertiesEmitsMembers(other, file.properties, e);
    }
  }

  lemma {:induction false} AllEmitsSame(files: seq<ConfigFile>, orders: seq<seq<string>>, others: seq<seq<string>>)
    requires AreOrders(orders, files) && AreOrders(others, files)
    ensures Members(AllEmits(files, orders)) == Members(AllEmits(files, others))
    decreases |files|
  {
    hide FileEmits, NoDuplicates;
    if files != [] {
      var n := |files| - 1;
      AllEmitsSame(files[..n], orders[..n], others[..n]);
      FileEmitsSame(files[n], orders[n], others[n]);
      MembersConcat(AllEmits(files[..n], orders[..n]), FileEmits(files[n], orders[n]));
      MembersConcat(AllEmits(files[..n], others[..n]), FileEmits(files[n], others[n]));
    }
  }

  lemma MembersConcat(a: seq<Emit>, b: seq<Emit>)
    ensures Members(a + b) == Members(a) + Members(b)
  {
  }

  lemma NeedIsUnique(f: Found, g: Found, e: Engine, need: seq<DatabaseNeed>, other: seq<DatabaseNeed>)
    requires EssenceOf(f) == EssenceOf(g)
    requires IsNeed(f, e, need) && IsNeed(g, e, other)
    ensures need == other
  {
    hide Increasing;
    SchemasSame(f, g, e);
    if e in f.engines {
      IncreasingIsUnique(need[0].schemas, other[0].schemas);
    }
  }

  lemma SchemasSame(f: Found, g: Found, e: Engine)
    requires EssenceOf(f) == EssenceOf(g)
    ensures f.engines == g.engines && SchemasOf(f, e) == SchemasOf(g, e)
  {
    assert forall s :: s in f.loose <==> s in EssenceOf(f).loose;
    assert forall s :: s in g.loose <==> s in EssenceOf(g).loose;
  }

  /** The databases reported do not depend on the orders in which Go iterates the properties, and
      neither do the names of the environment keys. */
  lemma {:induction false} DatabasesIgnoreOrder(f: Found, files: seq<ConfigFile>, orders: seq<seq<string>>,
                                                others: seq<seq<string>>,
                                                dbs: seq<DatabaseNeed>, dbs': seq<DatabaseNeed>)
    requires AreOrders(orders, files) && AreOrders(others, files)
    requires IsDatabases(CollectedAll(f, AllEmits(files, orders)), dbs)
    requires IsDatabases(CollectedAll(f, AllEmits(files, others)), dbs')
    ensures dbs == dbs'
    ensures CollectedAll(f, AllEmits(files, orders)).seen == CollectedAll(f, AllEmits(files, others)).seen
  {
    hide IsNeed, AllEmits, CollectedAll, AreOrders, Absorbed;
    AllEmitsSame(files, orders, others);
    var x, y := CollectedAll(f, AllEmits(files, orders)), CollectedAll(f, AllEmits(files, others));
    CollectedAbsorbs(f, AllEmits(files, orders));
    CollectedAbsorbs(f, AllEmits(files, others));
    assert EssenceOf(x) == EssenceOf(y);
    var p, m :| IsNeed(x, Postgres, p) && IsNeed(x, Mysql, m) && dbs == p + m;
    var p', m' :| IsNeed(y, Postgres, p') && IsNeed(y, Mysql, m') && dbs' == p' + m';
    NeedIsUnique(x, y, Postgres, p, p');
    NeedIsUnique(x, y, Mysql, m, m');
  }

  // ---- What is reported ----

  lemma {:induction false} UrlsEmitExactly(urls: seq<Url>, e: Emit)
    ensures e in AllUrlEmits(urls) <==> exists i :: 0 <= i < |urls| && e in UrlEmits(urls[i])
  {
    hide UrlEmits;
    if urls != [] {
      var n := |urls| - 1;
      UrlsEmitExactly(urls[..n], e);
      assert urls == urls[..n] + [urls[n]];
    }
  }

  /** A file emits for each URL in its text and for each of its properties. */
  ghost predicate FileEmitsOne(file: ConfigFile, e: Emit) {
    || (exists i :: 0 <= i < |file.urls| && e in UrlEmits(file.urls[i]))
    || (exists p :: p in file.properties && e in PropertyEmits(p, file.properties[p]))
  }

  /** What is collected comes from every file, from all of its URLs and all of its properties. */
  lemma {:induction false} FilesEmitExactly(files: seq<ConfigFile>, orders: seq<seq<string>>, e: Emit)
    requires AreOrders(orders, files)
    ensures e in AllEmits(files, orders) <==> exists k :: 0 <= k < |files| && FileEmitsOne(files[k], e)
    decreases |files|
  {
    hide NoDuplicates, FileEmits, FileEmitsOne;
    if files != [] {
      var n := |files| - 1;
      FilesEmitExactly(files[..n], orders[..n], e);
      OneFileEmits(files[n], orders[n], e);
      LastFileEmits(files, orders, e);
      hide AllEmits, AreOrders;
      if k :| 0 <= k < n && FileEmitsOne(files[..n][k], e) {
        assert FileEmitsOne(files[k], e);
      }
      if k :| 0 <= k < |files| && FileEmitsOne(files[k], e) {
        assert k < n ==> FileEmitsOne(files[..n][k], e);
      }
    }
  }

  lemma LastFileEmits(files: seq<ConfigFile>, orders: seq<seq<string>>, e: Emit)
    requires AreOrders(orders, files) && files != []
    ensures var n := |files| - 1;
            && AreOrders(orders[..n], files[..n]) && IsOrder(orders[n], files[n].properties)
            && (e in AllEmits(files, orders) <==>
                  e in AllEmits(files[..n], orders[..n]) || e in FileEmits(files[n], orders[n]))
  {
    hide NoDuplicates, FileEmits;
  }

  lemma OneFileEmits(file: ConfigFile, order: seq<string>, e: Emit)
    requires IsOrder(order, file.properties)
    ensures e in FileEmits(file, order) <==> FileEmitsOne(file, e)
  {
    hide UrlEmits, PropertyEmits, NoDuplicates, PropertiesEmits, AllUrlEmits;
    UrlsEmitExactly(file.urls, e);
    PropertiesEmitsMembers(order, file.properties, e);
    if p :| p in order && e in PropertyEmits(p, file.properties[p]) {
      assert p in file.properties;
    }
    if p :| p in file.properties && e in PropertyEmits(p, file.properties[p]) {
      assert p in order;
    }
  }

  /** Schema `s` of engine `e` was found with its engine. */
  ghost predicate FoundWith(f: Found, es: seq<Emit>, e: Engine, s: string) {
    (e, s) in f.schemas || (s != "" && EngineSchema(e, s) in es)
  }

  /** Engine `e` was found, with a schema or without. */
  ghost predicate FoundEngine(f: Found, es: seq<Emit>, e: Engine) {
    e in f.engines || exists s :: EngineSchema(e, s) in es
  }

  /** An engine is reported exactly when it was found, with exactly the schemas found with it and, when
      no other engine was, those found with none. */
  lemma DatabasesExactly(f: Found, es: seq<Emit>, dbs: seq<DatabaseNeed>, e: Engine)
    requires IsDatabases(CollectedAll(f, es), dbs)
    ensures (exists i :: 0 <= i < |dbs| && dbs[i].engine == e) <==> FoundEngine(f, es, e)
    ensures forall i, s :: 0 <= i < |dbs| && dbs[i].engine == e ==>
              (s in dbs[i].schemas <==>
                 || FoundWith(f, es, e, s)
                 || (s != "" && (s in f.loose || Loose(s) in es)
                     && forall other :: other != e ==> !FoundEngine(f, es, other)))
    ensures forall i :: 0 <= i < |dbs| ==> Increasing(dbs[i].schemas)
  {
    hide CollectedAll, Increasing, IsDatabases, SchemasOf, Absorbed;
    var g := CollectedAll(f, es);
    CollectedAbsorbs(f, es);
    AbsorbedExactly(f, es);
    assert EssenceOf(g).engines == g.engines && EssenceOf(g).schemas == g.schemas;
    assert forall s :: s in g.loose <==> s in EssenceOf(g).loose;
    assert forall other: Engine :: other in g.engines <==> FoundEngine(f, es, other);
    NeedsExactly(g, dbs, e);
    if e in g.engines {
      SchemasExactly(g, e);
    }
  }

  lemma NeedsExactly(g: Found, dbs: seq<DatabaseNeed>, e: Engine)
    requires IsDatabases(g, dbs)
    ensures (exists i :: 0 <= i < |dbs| && dbs[i].engine == e) <==> e in g.engines
    ensures forall i :: 0 <= i < |dbs| && dbs[i].engine == e ==>
              e in g.engines && forall s :: s in dbs[i].schemas <==> s in SchemasOf(g, e)
    ensures forall i :: 0 <= i < |dbs| ==> Increasing(dbs[i].schemas)
  {
    hide Increasing, SchemasOf;
    var p, m :| IsNeed(g, Postgres, p) && IsNeed(g, Mysql, m) && dbs == p + m;
    if e in g.engines {
      var i := if e == Postgres then 0 else |p|;
      assert dbs[i] == if e == Postgres then p[0] else m[0];
    }
  }

  lemma SchemasExactly(g: Found, e: Engine)
    requires e in g.engines
    ensures forall s :: s in SchemasOf(g, e) <==>
              || (e, s) in g.schemas
              || (s in g.loose && s != "" && forall other :: other != e ==> other !in g.engines)
  {
    SoleEngine(g.engines, e);
    hide SingleEngine;
  }

  lemma AbsorbedExactly(f: Found, es: seq<Emit>)
    ensures var x := Absorbed(EssenceOf(f), Members(es));
            && (forall e :: e in x.engines <==> FoundEngine(f, es, e))
            && (forall e, s :: (e, s) in x.schemas <==> FoundWith(f, es, e, s))
            && (forall s :: s in x.loose <==> s in f.loose || Loose(s) in es)
  {
    var x := Absorbed(EssenceOf(f), Members(es));
    forall e ensures e in x.engines <==> FoundEngine(f, es, e) {
      if s :| EngineSchema(e, s) in es {
        assert EngineSchema(e, s) in Members(es);
      }
    }
    forall e, s ensures (e, s) in x.schemas <==> FoundWith(f, es, e, s) {
      assert EngineSchema(e, s) in Members(es) <==> EngineSchema(e, s) in es;
    }
    forall s ensures s in x.loose <==> s in f.loose || Loose(s) in es {
      assert Loose(s) in Members(es) <==> Loose(s) in es;
    }
  }

  lemma SoleEngine(engines: set<Engine>, e: Engine)
    ensures SingleEngine(engines) == Some(e) <==> e in engines && forall other :: other != e ==> other !in engines
  {
    assert Postgres != Mysql;
    if e in engines && forall other :: other != e ==> other !in engines {
      assert forall other :: other in engines <==> other in {e};
      assert engines == {e};
    }
  }
}
