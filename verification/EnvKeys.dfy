/** What Go's random map order can change in an inspection's result: the environment keys of
    services/agent/internal/builder/inspector.go, which are appended in the order their properties
    are visited and never sorted. */
module EnvKeys {
  import opened Text
  import opened Sorting
  import opened Inspect

  /** Every environment key kept is marked seen. */
  ghost predicate Kept(f: Found) {
    forall env :: env in f.envKeys ==> env.key in f.seen
  }

  ghost predicate Emits(properties: map<string, string>, p: string, env: EnvKey) {
    p in properties && Env(env) in PropertyEmits(p, properties[p])
  }

  // ---- What one stretch of emits keeps ----

  ghost predicate New(f: Found, es: seq<Emit>, env: EnvKey) {
    Env(env) in es && env.key != "" && env.key !in f.seen
  }

  ghost predicate NewKey(f: Found, es: seq<Emit>, key: string) {
    exists env :: New(f, es, env) && env.key == key
  }

  lemma {:induction false} SeenAfter(f: Found, es: seq<Emit>)
    ensures forall key :: key in CollectedAll(f, es).seen <==> key in f.seen || NewKey(f, es, key)
    ensures f.envKeys <= CollectedAll(f, es).envKeys
  {
    if es != [] {
      var n := |es| - 1;
      var before, last := es[..n], es[n];
      SeenAfter(f, before);
      assert es == before + [last];
      assert forall env :: New(f, es, env) <==> New(f, before, env) || New(f, [last], env);
      assert forall key :: NewKey(f, es, key) <==> NewKey(f, before, key) || NewKey(f, [last], key);
      if last.Env? && last.env.key != "" && last.env.key !in CollectedAll(f, before).seen {
        assert New(f, [last], last.env);
      }
      assert forall key :: NewKey(f, [last], key) ==> last.Env? && key == last.env.key && key != "";
    }
  }

  lemma {:induction false} KeptAfter(f: Found, es: seq<Emit>)
    requires Kept(f)
    ensures Kept(CollectedAll(f, es))
  {
    if es != [] {
      KeptAfter(f, es[..|es| - 1]);
    }
  }

  /** Once a key is marked, nothing more is kept under it. */
  lemma {:induction false} SeenBlocks(f: Found, es: seq<Emit>, env: EnvKey)
    requires env.key in f.seen
    ensures env in CollectedAll(f, es).envKeys <==> env in f.envKeys
  {
    if es != [] {
      var before := es[..|es| - 1];
      SeenBlocks(f, before, env);
      SeenAfter(f, before);
    }
  }

  /** When the emits agree on each new key, exactly the new ones are kept. */
  lemma {:induction false} AgreeingAllKept(f: Found, es: seq<Emit>)
    requires Kept(f)
    requires forall a, b :: New(f, es, a) && New(f, es, b) && a.key == b.key ==> a == b
    ensures forall env :: env in CollectedAll(f, es).envKeys <==> env in f.envKeys || New(f, es, env)
  {
    if es != [] {
      var n := |es| - 1;
      var before, last := es[..n], es[n];
      assert es == before + [last];
      assert forall env :: New(f, es, env) <==> New(f, before, env) || New(f, [last], env);
      AgreeingAllKept(f, before);
      SeenAfter(f, before);
      LastKept(f, CollectedAll(f, before), before, last);
    }
  }

  lemma LastKept(f: Found, g: Found, before: seq<Emit>, last: Emit)
    requires forall a, b :: New(f, before + [last], a) && New(f, before + [last], b) && a.key == b.key ==> a == b
    requires forall env :: env in g.envKeys <==> env in f.envKeys || New(f, before, env)
    requires forall key :: key in g.seen <==> key in f.seen || NewKey(f, before, key)
    ensures forall env :: env in Collected(g, last).envKeys <==> env in g.envKeys || New(f, [last], env)
  {
    if last.Env? && New(f, [last], last.env) {
      var env := last.env;
      assert New(f, before + [last], env);
      if NewKey(f, before, env.key) {
        var other :| New(f, before, other) && other.key == env.key;
        assert New(f, before + [last], other);
      }
    }
  }

  /** When there is only one new environment key, it is appended, once. */
  lemma {:induction false} OnlyOneAppended(f: Found, es: seq<Emit>, only: EnvKey)
    requires forall env :: New(f, es, env) ==> env == only
    ensures CollectedAll(f, es).envKeys == f.envKeys + if New(f, es, only) then [only] else []
  {
    if es != [] {
      var n := |es| - 1;
      var before, last := es[..n], es[n];
      assert es == before + [last];
      assert forall env :: New(f, es, env) <==> New(f, before, env) || New(f, [last], env);
      OnlyOneAppended(f, before, only);
      SeenAfter(f, before);
      assert NewKey(f, before, only.key) <==> New(f, before, only);
    }
  }

  // ---- One file ----

  lemma {:induction false} UrlsEmitNoEnv(urls: seq<Url>, env: EnvKey)
    ensures Env(env) !in AllUrlEmits(urls)
  {
    if urls != [] {
      UrlsEmitNoEnv(urls[..|urls| - 1], env);
    }
  }

  lemma FileEnvs(file: ConfigFile, order: seq<string>, env: EnvKey)
    requires IsOrder(order, file.properties)
    ensures Env(env) in FileEmits(file, order) <==> exists p :: Emits(file.properties, p, env)
  {
    hide PropertyEmits, PropertiesEmits, AllUrlEmits, NoDuplicates;
    UrlsEmitNoEnv(file.urls, env);
    PropertiesEmitsMembers(order, file.properties, Env(env));
    if p :| p in order && Env(env) in PropertyEmits(p, file.properties[p]) {
      assert Emits(file.properties, p, env);
    }
    if p :| Emits(file.properties, p, env) {
      assert p in order;
    }
  }

  lemma {:induction false} PropertiesConcat(a: seq<string>, b: seq<string>, properties: map<string, string>)
    requires forall p :: p in a + b ==> p in properties
    ensures (forall p :: p in a ==> p in properties) && (forall p :: p in b ==> p in properties)
    ensures PropertiesEmits(a + b, properties) == PropertiesEmits(a, properties) + PropertiesEmits(b, properties)
  {
    hide PropertyEmits;
    assert forall p :: p in a || p in b ==> p in a + b;
    if b == [] {
      assert a + b == a;
    } else {
      var n := |b| - 1;
      assert (a + b)[..|a| + n] == a + b[..n];
      assert forall p :: p in a + b[..n] ==> p in a + b;
      PropertiesConcat(a, b[..n], properties);
    }
  }

  lemma {:induction false} Enumerate(s: set<string>) returns (r: seq<string>)
    ensures NoDuplicates(r) && forall x :: x in r <==> x in s
  {
    r := [];
    if s != {} {
      var x :| x in s;
      var rest := Enumerate(s - {x});
      r := rest + [x];
    }
  }

  lemma OrderFrom(properties: map<string, string>, p: string) returns (rest: seq<string>)
    requires p in properties
    ensures IsOrder([p] + rest, properties)
  {
    rest := Enumerate(properties.Keys - {p});
  }

  /** A property gives at most one environment key. */
  lemma OneEnvPerProperty(path: string, val: string, a: EnvKey, b: EnvKey)
    requires Env(a) in PropertyEmits(path, val) && Env(b) in PropertyEmits(path, val)
    ensures a == b
  {
    hide Contains, IsIdent, EnginesFromValue, SchemaFromUrl, RelaxedEnvName;
  }

  /** The property visited first appends its environment key first, and nothing else is ever kept
      under that key. */
  lemma FirstWins(f: Found, file: ConfigFile, p: string, rest: seq<string>, a: EnvKey)
    requires Kept(f) && IsOrder([p] + rest, file.properties) && Emits(file.properties, p, a)
    requires a.key != "" && a.key !in f.seen
    ensures var g := CollectedAll(f, FileEmits(file, [p] + rest));
            && f.envKeys + [a] <= g.envKeys && a.key in g.seen
            && forall env: EnvKey :: env.key == a.key ==> (env in g.envKeys <==> env == a)
  {
    hide PropertyEmits, Collected, AllUrlEmits, NoDuplicates;
    var properties := file.properties;
    PropertiesConcat([p], rest, properties);
    var first := AllUrlEmits(file.urls) + PropertyEmits(p, properties[p]);
    var later := PropertiesEmits(rest, properties);
    assert PropertiesEmits([p], properties) == PropertyEmits(p, properties[p]) by {
      assert [p][..0] == [] && [] + PropertyEmits(p, properties[p]) == PropertyEmits(p, properties[p]);
    }
    assert FileEmits(file, [p] + rest) == first + later;
    CollectedConcat(f, first, later);
    forall x | New(f, first, x) ensures x == a {
      UrlsEmitNoEnv(file.urls, x);
      OneEnvPerProperty(p, properties[p], x, a);
    }
    OnlyOneAppended(f, first, a);
    assert New(f, first, a);
    SeenAfter(f, first);
    assert NewKey(f, first, a.key);
    SeenAfter(CollectedAll(f, first), later);
    forall env: EnvKey | env.key == a.key
      ensures env in CollectedAll(CollectedAll(f, first), later).envKeys <==> env == a
    {
      SeenBlocks(CollectedAll(f, first), later, env);
    }
  }

  // ---- All files ----

  /** The key is marked before file `i` is scanned, whatever the orders. */
  ghost predicate KeyBefore(f: Found, files: seq<ConfigFile>, i: int, key: string) {
    || key in f.seen
    || (key != ""
        && exists k, p, env :: 0 <= k < i && k < |files| && Emits(files[k].properties, p, env) && env.key == key)
  }

  /** Property `p` of file `i` gives an environment key that no earlier file gave. */
  ghost predicate NewAt(f: Found, files: seq<ConfigFile>, i: int, p: string, env: EnvKey) {
    && 0 <= i < |files| && Emits(files[i].properties, p, env)
    && env.key != "" && !KeyBefore(f, files, i, env.key)
  }

  /** Two properties of one file give different new environment keys. */
  ghost predicate Rivals(f: Found, files: seq<ConfigFile>, i: int, p: string, q: string, a: EnvKey, b: EnvKey) {
    NewAt(f, files, i, p, a) && NewAt(f, files, i, q, b) && a != b
  }

  ghost function After(f: Found, files: seq<ConfigFile>, orders: seq<seq<string>>): Found
    requires AreOrders(orders, files)
  {
    CollectedAll(f, AllEmits(files, orders))
  }

  /** The environment keys, as a list, differ for some two choices of orders. */
  ghost predicate ListVaries(f: Found, files: seq<ConfigFile>) {
    exists orders, others ::
      && AreOrders(orders, files) && AreOrders(others, files)
      && After(f, files, orders).envKeys != After(f, files, others).envKeys
  }

  ghost predicate SameSet(f: Found, g: Found) {
    forall env :: env in f.envKeys <==> env in g.envKeys
  }

  /** They differ even as a set. */
  ghost predicate SetVaries(f: Found, files: seq<ConfigFile>) {
    exists orders, others ::
      && AreOrders(orders, files) && AreOrders(others, files)
      && !SameSet(After(f, files, orders), After(f, files, others))
  }

  lemma AfterLast(f: Found, files: seq<ConfigFile>, orders: seq<seq<string>>)
    requires AreOrders(orders, files) && files != []
    ensures var n := |files| - 1;
            && AreOrders(orders[..n], files[..n]) && IsOrder(orders[n], files[n].properties)
            && After(f, files, orders)
               == CollectedAll(After(f, files[..n], orders[..n]), FileEmits(files[n], orders[n]))
  {
    hide FileEmits, NoDuplicates, CollectedAll;
    var n := |files| - 1;
    CollectedConcat(f, AllEmits(files[..n], orders[..n]), FileEmits(files[n], orders[n]));
  }

  lemma {:induction false} SeenBefore(f: Found, files: seq<ConfigFile>, orders: seq<seq<string>>)
    requires Kept(f) && AreOrders(orders, files)
    ensures Kept(After(f, files, orders))
    ensures forall key :: key in After(f, files, orders).seen <==> KeyBefore(f, files, |files|, key)
    decreases |files|
  {
    hide FileEmits, NoDuplicates, CollectedAll, Emits;
    KeptAfter(f, AllEmits(files, orders));
    if files == [] {
      SeenAfter(f, []);
    } else {
      var n := |files| - 1;
      AfterLast(f, files, orders);
      SeenBefore(f, files[..n], orders[..n]);
      var g, es := After(f, files[..n], orders[..n]), FileEmits(files[n], orders[n]);
      SeenAfter(g, es);
      forall key ensures KeyBefore(f, files, n + 1, key) <==> key in g.seen || NewKey(g, es, key) {
        KeyBeforeLast(f, files, orders[n], g, key);
      }
    }
  }

  lemma {:induction false} KeyBeforeLast(f: Found, files: seq<ConfigFile>, order: seq<string>, g: Found, key: string)
    requires files != [] && IsOrder(order, files[|files| - 1].properties)
    requires forall k :: k in g.seen <==> KeyBefore(f, files[..|files| - 1], |files| - 1, k)
    ensures KeyBefore(f, files, |files|, key) <==> key in g.seen || NewKey(g, FileEmits(files[|files| - 1], order), key)
  {
    hide FileEmits, NoDuplicates, Emits;
    var n := |files| - 1;
    forall env ensures Env(env) in FileEmits(files[n], order) <==> exists p :: Emits(files[n].properties, p, env) {
      FileEnvs(files[n], order, env);
    }
    assert forall k :: 0 <= k < n ==> files[..n][k] == files[k];
    if k, p, env :| 0 <= k < n && Emits(files[k].properties, p, env) && env.key == key && key != "" {
      assert Emits(files[..n][k].properties, p, env);
    }
    if p, env :| Emits(files[n].properties, p, env) && env.key == key && key != "" && key !in g.seen {
      assert New(g, FileEmits(files[n], order), env);
    }
  }

  lemma PrefixKeys(f: Found, files: seq<ConfigFile>, n: nat, i: int, key: string)
    requires i <= n <= |files|
    ensures KeyBefore(f, files[..n], i, key) <==> KeyBefore(f, files, i, key)
  {
    hide Emits;
    assert forall k :: 0 <= k < n ==> files[..n][k] == files[k];
    if k, p, env :| 0 <= k < i && Emits(files[k].properties, p, env) && env.key == key {
      assert Emits(files[..n][k].properties, p, env);
    }
  }

  /** What the last file can add, and from which property. */
  lemma {:induction false} NewInLast(f: Found, files: seq<ConfigFile>, orders: seq<seq<string>>, env: EnvKey)
    requires Kept(f) && AreOrders(orders, files) && files != []
    ensures var n := |files| - 1;
            AreOrders(orders[..n], files[..n]) &&
            (New(After(f, files[..n], orders[..n]), FileEmits(files[n], orders[n]), env) <==>
               exists p :: NewAt(f, files, n, p, env))
  {
    hide FileEmits, NoDuplicates, CollectedAll, Emits;
    var n := |files| - 1;
    AfterLast(f, files, orders);
    SeenBefore(f, files[..n], orders[..n]);
    PrefixKeys(f, files, n, n, env.key);
    FileEnvs(files[n], orders[n], env);
    if p :| Emits(files[n].properties, p, env) && env.key != "" && !KeyBefore(f, files, n, env.key) {
      assert NewAt(f, files, n, p, env);
    }
  }

  lemma {:induction false} PrefixRivals(f: Found, files: seq<ConfigFile>, n: nat, i: int, p: string, q: string,
                                        a: EnvKey, b: EnvKey)
    requires n <= |files| && Rivals(f, files[..n], i, p, q, a, b)
    ensures Rivals(f, files, i, p, q, a, b)
  {
    hide Emits;
    PrefixKeys(f, files, n, i, a.key);
    PrefixKeys(f, files, n, i, b.key);
  }

  // ---- Two choices of orders ----

  /** Some order for each file. */
  lemma {:induction false} SomeOrders(files: seq<ConfigFile>) returns (orders: seq<seq<string>>)
    ensures AreOrders(orders, files)
    decreases |files|
  {
    hide NoDuplicates;
    orders := [];
    if files != [] {
      var n := |files| - 1;
      var before := SomeOrders(files[..n]);
      var last := Enumerate(files[n].properties.Keys);
      orders := before + [last];
      assert forall i :: 0 <= i < n ==> files[..n][i] == files[i] && orders[i] == before[i];
    }
  }

  /** What separates two collections: one has `a` first after `base`, the other `b`, and nothing
      more is kept under their keys. */
  ghost predicate Apart(base: seq<EnvKey>, f: Found, g: Found, a: EnvKey, b: EnvKey) {
    && base + [a] <= f.envKeys && base + [b] <= g.envKeys
    && a.key in f.seen && b.key in g.seen
    && (a.key == b.key ==> b !in f.envKeys)
  }

  lemma ApartStays(base: seq<EnvKey>, f: Found, g: Found, a: EnvKey, b: EnvKey, es: seq<Emit>)
    requires Apart(base, f, g, a, b)
    ensures Apart(base, CollectedAll(f, es), CollectedAll(g, es), a, b)
  {
    SeenAfter(f, es);
    SeenAfter(g, es);
    if a.key == b.key {
      SeenBlocks(f, es, b);
    }
  }

  /** In the last file, visiting `p` or `q` first tells them apart. */
  lemma {:induction false} LastTellsApart(f: Found, files: seq<ConfigFile>, before: seq<seq<string>>,
                                          p: string, q: string, a: EnvKey, b: EnvKey)
      returns (order: seq<string>, other: seq<string>)
    requires Kept(f) && files != [] && AreOrders(before, files[..|files| - 1])
    requires Rivals(f, files, |files| - 1, p, q, a, b)
    ensures AreOrders(before + [order], files) && AreOrders(before + [other], files)
    ensures Apart(After(f, files[..|files| - 1], before).envKeys,
                  After(f, files, before + [order]), After(f, files, before + [other]), a, b)
  {
    hide FileEmits, NoDuplicates, CollectedAll, AllEmits, PropertyEmits;
    var n := |files| - 1;
    var g := After(f, files[..n], before);
    var rest := OrderFrom(files[n].properties, p);
    var rest' := OrderFrom(files[n].properties, q);
    order, other := [p] + rest, [q] + rest';
    assert forall i :: 0 <= i < n ==> files[..n][i] == files[i];
    assert (before + [order])[..n] == before && (before + [other])[..n] == before;
    SeenBefore(f, files[..n], before);
    PrefixKeys(f, files, n, n, a.key);
    PrefixKeys(f, files, n, n, b.key);
    FirstWins(g, files[n], p, rest, a);
    FirstWins(g, files[n], q, rest', b);
    AfterLast(f, files, before + [order]);
    AfterLast(f, files, before + [other]);
  }

  lemma {:induction false} RivalsTellApart(f: Found, files: seq<ConfigFile>, i: int, p: string, q: string,
                                           a: EnvKey, b: EnvKey)
      returns (orders: seq<seq<string>>, others: seq<seq<string>>, base: seq<EnvKey>)
    requires Kept(f) && Rivals(f, files, i, p, q, a, b)
    ensures AreOrders(orders, files) && AreOrders(others, files)
    ensures Apart(base, After(f, files, orders), After(f, files, others), a, b)
    ensures a != b
    decreases |files|
  {
    hide FileEmits, NoDuplicates, CollectedAll, AllEmits, PropertyEmits;
    var n := |files| - 1;
    if i == n {
      var before := SomeOrders(files[..n]);
      var order, other := LastTellsApart(f, files, before, p, q, a, b);
      orders, others, base := before + [order], before + [other], After(f, files[..n], before).envKeys;
    } else {
      PrefixKeys(f, files, n, i, a.key);
      PrefixKeys(f, files, n, i, b.key);
      assert Rivals(f, files[..n], i, p, q, a, b);
      var xs, ys, base' := RivalsTellApart(f, files[..n], i, p, q, a, b);
      var last := Enumerate(files[n].properties.Keys);
      assert forall k :: 0 <= k < n ==> files[..n][k] == files[k];
      assert (xs + [last])[..n] == xs && (ys + [last])[..n] == ys;
      orders, others, base := xs + [last], ys + [last], base';
      AfterLast(f, files, orders);
      AfterLast(f, files, others);
      ApartStays(base, After(f, files[..n], xs), After(f, files[..n], ys), a, b, FileEmits(files[n], last));
    }
  }

  lemma {:induction false} WithoutRivalsSameList(f: Found, files: seq<ConfigFile>, orders: seq<seq<string>>,
                                                 others: seq<seq<string>>)
    requires Kept(f) && AreOrders(orders, files) && AreOrders(others, files)
    requires !exists i, p, q, a, b :: Rivals(f, files, i, p, q, a, b)
    ensures After(f, files, orders).envKeys == After(f, files, others).envKeys
    decreases |files|
  {
    hide FileEmits, NoDuplicates, CollectedAll, AllEmits, Emits;
    if files == [] {
      assert orders == others;
    } else {
      var n := |files| - 1;
      forall i, p, q, a, b | Rivals(f, files[..n], i, p, q, a, b) ensures false {
        PrefixRivals(f, files, n, i, p, q, a, b);
      }
      WithoutRivalsSameList(f, files[..n], orders[..n], others[..n]);
      AfterLast(f, files, orders);
      AfterLast(f, files, others);
      OneNewInLast(f, files, orders, others);
    }
  }

  lemma OneNewInLast(f: Found, files: seq<ConfigFile>, orders: seq<seq<string>>, others: seq<seq<string>>)
    requires Kept(f) && AreOrders(orders, files) && AreOrders(others, files) && files != []
    requires !exists i, p, q, a, b :: Rivals(f, files, i, p, q, a, b)
    requires After(f, files[..|files| - 1], orders[..|files| - 1]).envKeys
          == After(f, files[..|files| - 1], others[..|files| - 1]).envKeys
    ensures After(f, files, orders).envKeys == After(f, files, others).envKeys
  {
    hide FileEmits, NoDuplicates, CollectedAll, AllEmits, Emits, NewAt;
    var n := |files| - 1;
    AfterLast(f, files, orders);
    AfterLast(f, files, others);
    var x, y := After(f, files[..n], orders[..n]), After(f, files[..n], others[..n]);
    var only := if exists p, env :: NewAt(f, files, n, p, env)
                then var p, env :| NewAt(f, files, n, p, env); env else EnvKey("", "", "", "");
    forall env
      ensures New(x, FileEmits(files[n], orders[n]), env) <==> exists p :: NewAt(f, files, n, p, env)
      ensures New(y, FileEmits(files[n], others[n]), env) <==> exists p :: NewAt(f, files, n, p, env)
    {
      NewInLast(f, files, orders, env);
      NewInLast(f, files, others, env);
    }
    forall p, env | NewAt(f, files, n, p, env) ensures env == only {
      var q, b :| NewAt(f, files, n, q, b) && b == only;
      assert env != b ==> Rivals(f, files, n, p, q, env, b);
    }
    hide New;
    OnlyOneAppended(x, FileEmits(files[n], orders[n]), only);
    OnlyOneAppended(y, FileEmits(files[n], others[n]), only);
  }

  /** The list of environment keys depends on Go's map order exactly when some file has two
      properties that give different environment keys under names no earlier source gave. */
  lemma {:induction false} EnvKeyListDependsOnOrder(f: Found, files: seq<ConfigFile>)
    requires Kept(f)
    ensures ListVaries(f, files) <==> exists i, p, q, a, b :: Rivals(f, files, i, p, q, a, b)
  {
    hide Rivals, AreOrders, After, Kept;
    if i, p, q, a, b :| Rivals(f, files, i, p, q, a, b) {
      var orders, others, base := RivalsTellApart(f, files, i, p, q, a, b);
      assert After(f, files, orders).envKeys[|base|] == a;
      assert After(f, files, others).envKeys[|base|] == b;
    } else if ListVaries(f, files) {
      var orders, others :|
        && AreOrders(orders, files) && AreOrders(others, files)
        && After(f, files, orders).envKeys != After(f, files, others).envKeys;
      WithoutRivalsSameList(f, files, orders, others);
    }
  }

  /** Two properties of one file give one new name different contents. */
  ghost predicate Clash(f: Found, files: seq<ConfigFile>, i: int, p: string, q: string, a: EnvKey, b: EnvKey) {
    Rivals(f, files, i, p, q, a, b) && a.key == b.key
  }

  lemma {:induction false} PrefixClash(f: Found, files: seq<ConfigFile>, n: nat, i: int, p: string, q: string,
                                       a: EnvKey, b: EnvKey)
    requires n <= |files| && Clash(f, files[..n], i, p, q, a, b)
    ensures Clash(f, files, i, p, q, a, b)
  {
    PrefixRivals(f, files, n, i, p, q, a, b);
  }

  lemma {:induction false} WithoutClashSameSet(f: Found, files: seq<ConfigFile>, orders: seq<seq<string>>,
                                               others: seq<seq<string>>)
    requires Kept(f) && AreOrders(orders, files) && AreOrders(others, files)
    requires !exists i, p, q, a, b :: Clash(f, files, i, p, q, a, b)
    ensures SameSet(After(f, files, orders), After(f, files, others))
    decreases |files|
  {
    hide FileEmits, NoDuplicates, CollectedAll, AllEmits, Emits;
    if files == [] {
      assert orders == others;
    } else {
      var n := |files| - 1;
      forall i, p, q, a, b | Clash(f, files[..n], i, p, q, a, b) ensures false {
        PrefixClash(f, files, n, i, p, q, a, b);
      }
      WithoutClashSameSet(f, files[..n], orders[..n], others[..n]);
      LastKeepsNew(f, files, orders);
      LastKeepsNew(f, files, others);
    }
  }

  lemma LastKeepsNew(f: Found, files: seq<ConfigFile>, orders: seq<seq<string>>)
    requires Kept(f) && AreOrders(orders, files) && files != []
    requires !exists i, p, q, a, b :: Clash(f, files, i, p, q, a, b)
    ensures var n := |files| - 1;
            AreOrders(orders[..n], files[..n]) &&
            forall env :: env in After(f, files, orders).envKeys <==>
              env in After(f, files[..n], orders[..n]).envKeys || exists p :: NewAt(f, files, n, p, env)
  {
    hide FileEmits, NoDuplicates, CollectedAll, AllEmits, Emits, NewAt;
    var n := |files| - 1;
    AfterLast(f, files, orders);
    SeenBefore(f, files[..n], orders[..n]);
    var g, es := After(f, files[..n], orders[..n]), FileEmits(files[n], orders[n]);
    forall env ensures New(g, es, env) <==> exists p :: NewAt(f, files, n, p, env) {
      NewInLast(f, files, orders, env);
    }
    forall a, b | New(g, es, a) && New(g, es, b) && a.key == b.key ensures a == b {
      var p :| NewAt(f, files, n, p, a);
      var q :| NewAt(f, files, n, q, b);
      assert a != b ==> Clash(f, files, n, p, q, a, b);
    }
    AgreeingAllKept(g, es);
  }

  /** As a set they depend on it exactly when the two properties give one name. */
  lemma {:induction false} EnvKeySetDependsOnOrder(f: Found, files: seq<ConfigFile>)
    requires Kept(f)
    ensures SetVaries(f, files) <==> exists i, p, q, a, b :: Clash(f, files, i, p, q, a, b)
  {
    hide Rivals, AreOrders, After, Kept;
    if i, p, q, a, b :| Clash(f, files, i, p, q, a, b) {
      var orders, others, base := RivalsTellApart(f, files, i, p, q, a, b);
      assert After(f, files, others).envKeys[|base|] == b;
      assert b in After(f, files, others).envKeys && b !in After(f, files, orders).envKeys;
      assert !SameSet(After(f, files, orders), After(f, files, others));
    } else if SetVaries(f, files) {
      var orders, others :|
        && AreOrders(orders, files) && AreOrders(others, files)
        && !SameSet(After(f, files, orders), After(f, files, others));
      WithoutClashSameSet(f, files, orders, others);
    }
  }

  // ---- Both happen ----

  /** Whatever lies between, a property path from `db` to `host` gives one environment key. */
  lemma HostProperty(middle: string, val: string)
    requires '$' !in val
    ensures var path := "db." + middle + ".host";
            PropertyEmits(path, val) == [Env(EnvKey(RelaxedEnvName(path), val, "host", ""))]
  {
    hide RelaxedEnvName, PropertyEmits, LeafEmits;
    assert Map(Lower, "host") == "host" && "db." + middle + "." + "host" == "db." + middle + ".host";
    NoPlaceholder(val);
    DbProperty(middle, "host", val);
    HostLeaf("db." + middle + ".host", val);
  }

  lemma HostLeaf(path: string, val: string)
    ensures LeafEmits(path, "host", val) == [Env(EnvKey(RelaxedEnvName(path), val, "host", ""))]
  {
    hide RelaxedEnvName, SchemaFromUrl, EnginesFromValue, IsIdent;
    assert "host"[0] != "url"[0];
  }

  function HostPath(middle: string): string {
    "db." + middle + ".host"
  }

  /** An inspection that has found nothing before one file with two such properties. */
  function TwoHosts(s: string, t: string, x: string, y: string): seq<ConfigFile> {
    [ConfigFile([], map[HostPath(s) := x, HostPath(t) := y])]
  }

  const NOTHING := Found({}, {}, [], [], {})

  lemma TwoHostsRival(s: string, t: string, x: string, y: string)
    requires s != t && '$' !in x && '$' !in y
    requires x != y || RelaxedEnvName(HostPath(s)) != RelaxedEnvName(HostPath(t))
    ensures Rivals(NOTHING, TwoHosts(s, t, x, y), 0, HostPath(s), HostPath(t),
                   EnvKey(RelaxedEnvName(HostPath(s)), x, "host", ""),
                   EnvKey(RelaxedEnvName(HostPath(t)), y, "host", ""))
  {
    hide PropertyEmits;
    HostProperty(s, x);
    HostProperty(t, y);
    assert HostPath(s)[3..3 + |s|] == s && HostPath(t)[3..3 + |t|] == t;
    assert |s| == |t| ==> HostPath(s) != HostPath(t);
    assert |HostPath(s)| == |s| + 8 && |HostPath(t)| == |t| + 8;
  }

  /** A dot and a hyphen give one name: which of the two values is kept depends on the order. */
  lemma HyphenClashesWithDot(s: string, t: string, x: string, y: string)
    requires x != y && '$' !in x && '$' !in y
    ensures SetVaries(NOTHING, TwoHosts(s + "." + t, s + "-" + t, x, y))
  {
    hide Rivals, RelaxedEnvName, SetVaries, TwoHosts;
    var u, v := s + "." + t, s + "-" + t;
    assert u[|s|] != v[|s|];
    TwoHostsRival(u, v, x, y);
    SameRelaxedName(s, t);
    assert Clash(NOTHING, TwoHosts(u, v, x, y), 0, HostPath(u), HostPath(v),
                 EnvKey(RelaxedEnvName(HostPath(u)), x, "host", ""),
                 EnvKey(RelaxedEnvName(HostPath(v)), y, "host", ""));
    EnvKeySetDependsOnOrder(NOTHING, TwoHosts(u, v, x, y));
  }

  lemma SameRelaxedName(s: string, t: string)
    ensures RelaxedEnvName(HostPath(s + "." + t)) == RelaxedEnvName(HostPath(s + "-" + t))
  {
    var p, q := HostPath(s + "." + t), HostPath(s + "-" + t);
    forall i | 0 <= i < |p|
      ensures Relaxed(p[i]) == Relaxed(q[i])
    {
      assert i == 3 + |s| || p[i] == q[i];
    }
  }

  /** Two names are enough for the list to depend on it. */
  lemma TwoNamesReorder(s: string, t: string, x: string, y: string)
    requires '$' !in x && '$' !in y && RelaxedEnvName(HostPath(s)) != RelaxedEnvName(HostPath(t))
    ensures ListVaries(NOTHING, TwoHosts(s, t, x, y))
  {
    hide Rivals, RelaxedEnvName, ListVaries, TwoHosts;
    TwoHostsRival(s, t, x, y);
    EnvKeyListDependsOnOrder(NOTHING, TwoHosts(s, t, x, y));
  }
}
