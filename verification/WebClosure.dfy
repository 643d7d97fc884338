/**
 `_web_production_closure` of scripts/release-security.py: the packages a web image runs with, found by
 a worklist over a pnpm lock file. The outcome is compared with reachability along paths.
 */
module WebClosure {
  import opened Wrappers

  /** A parsed YAML or JSON value whose mappings have text keys; a mapping keeps the order of its keys. */
  datatype Value = Text(text: string) | Dict(fields: seq<Field>) | Other

  datatype Field = Field(name: string, value: Value)

  datatype Failure = NoLockData | NoWebDependencies | BadSharedPackage

  datatype Package = Package(name: string, version: string)

  /** One place of the queue: a dependency, its version, and the lock entry it stands for. */
  datatype Item = Item(name: string, version: string, key: string)

  function Get(fields: seq<Field>, name: string): (v: Option<Value>)
    ensures v.Some? <==> exists f | f in fields :: f.name == name
  {
    if fields == [] then None
    else if fields[0].name == name then Some(fields[0].value)
    else Get(fields[1..], name)
  }

  /** `fields.get(name, {})`. */
  function GetDict(fields: seq<Field>, name: string): Value {
    var v := Get(fields, name);
    if v.Some? then v.value else Dict([])
  }

  /** `dict(fields)` after `update(changes)`: changed values keep their places, new keys follow. */
  function Updated(fields: seq<Field>, changes: seq<Field>): seq<Field> {
    Changed(fields, changes) + Missing(fields, changes)
  }

  function Changed(fields: seq<Field>, changes: seq<Field>): seq<Field> {
    if fields == [] then []
    else
      var change := Get(changes, fields[0].name);
      [Field(fields[0].name, if change.Some? then change.value else fields[0].value)] + Changed(fields[1..], changes)
  }

  function Missing(fields: seq<Field>, changes: seq<Field>): seq<Field> {
    if changes == [] then []
    else (if Get(fields, changes[0].name).Some? then [] else [changes[0]]) + Missing(fields, changes[1..])
  }

  /** A changed key has its new value, any other key its old one. */
  lemma {:induction false} UpdatedGet(fields: seq<Field>, changes: seq<Field>, name: string)
    ensures Get(Updated(fields, changes), name)
            == if Get(changes, name).Some? then Get(changes, name) else Get(fields, name)
  {
    GetAppended(Changed(fields, changes), Missing(fields, changes), name);
    ChangedGet(fields, changes, name);
    if Get(fields, name).None? { MissingGet(fields, changes, name); }
  }

  lemma {:induction false} GetAppended(a: seq<Field>, b: seq<Field>, name: string)
    ensures Get(a + b, name) == if Get(a, name).Some? then Get(a, name) else Get(b, name)
  {
    if a == [] {
      assert a + b == b;
    } else {
      assert (a + b)[1..] == a[1..] + b;
      GetAppended(a[1..], b, name);
    }
  }

  lemma {:induction false} ChangedGet(fields: seq<Field>, changes: seq<Field>, name: string)
    ensures Get(Changed(fields, changes), name)
            == if Get(fields, name).Some? && Get(changes, name).Some? then Get(changes, name) else Get(fields, name)
  {
    if fields != [] {
      ChangedGet(fields[1..], changes, name);
      assert Changed(fields, changes)[1..] == Changed(fields[1..], changes);
    }
  }

  lemma {:induction false} MissingGet(fields: seq<Field>, changes: seq<Field>, name: string)
    requires Get(fields, name).None?
    ensures Get(Missing(fields, changes), name) == Get(changes, name)
  {
    if changes != [] {
      MissingGet(fields, changes[1..], name);
      GetAppended(if Get(fields, changes[0].name).Some? then [] else [changes[0]], Missing(fields, changes[1..]), name);
    }
  }

  predicate HasName(fields: seq<Field>, name: string) {
    exists f | f in fields :: f.name == name
  }

  /** The keys stay where they are, and the changes with a new key follow, in their order. */
  lemma {:induction false} UpdatedKeepsOrder(fields: seq<Field>, changes: seq<Field>) returns (at: seq<nat>)
    ensures KeepsOrder(fields, changes, Updated(fields, changes), at)
    ensures AreNew(fields, changes, at, 0)
  {
    ChangedKeepsNames(fields, changes);
    at := MissingPlaces(fields, changes, 0);
    assert changes[0..] == changes;
    InOrder(fields, changes, Changed(fields, changes), Missing(fields, changes), at);
  }

  /** The same keys first, and behind them the changes of these places. */
  predicate KeepsOrder(fields: seq<Field>, changes: seq<Field>, updated: seq<Field>, at: seq<nat>) {
    && |updated| == |fields| + |at|
    && (forall i | 0 <= i < |fields| :: updated[i].name == fields[i].name)
    && Selects(updated[|fields|..], changes, at, 0)
  }

  lemma {:induction false} InOrder(
      fields: seq<Field>, changes: seq<Field>, changed: seq<Field>, missing: seq<Field>, at: seq<nat>)
    requires |changed| == |fields| && forall i | 0 <= i < |fields| :: changed[i].name == fields[i].name
    requires Selects(missing, changes, at, 0)
    ensures KeepsOrder(fields, changes, changed + missing, at)
  {
    assert (changed + missing)[|fields|..] == missing;
  }

  lemma {:induction false} ChangedKeepsNames(fields: seq<Field>, changes: seq<Field>)
    ensures |Changed(fields, changes)| == |fields|
    ensures forall i | 0 <= i < |fields| :: Changed(fields, changes)[i].name == fields[i].name
  {
    if fields != [] { ChangedKeepsNames(fields[1..], changes); }
  }

  /** The fields at these places among the changes, from the n-th one on. */
  predicate Selects(missing: seq<Field>, changes: seq<Field>, at: seq<nat>, n: nat) {
    && |missing| == |at|
    && (forall i | 0 <= i < |at| :: n <= at[i] < |changes| && missing[i] == changes[at[i]])
    && (forall i, j | 0 <= i < j < |at| :: at[i] < at[j])
  }

  predicate AreNew(fields: seq<Field>, changes: seq<Field>, at: seq<nat>, n: nat) {
    forall k | n <= k < |changes| :: k in at <==> !HasName(fields, changes[k].name)
  }

  lemma {:induction false} MissingFrom(fields: seq<Field>, changes: seq<Field>, n: nat)
    requires n < |changes|
    ensures var rest := Missing(fields, changes[n + 1..]);
            Missing(fields, changes[n..]) == if HasName(fields, changes[n].name) then rest else [changes[n]] + rest
  {
    assert changes[n..][1..] == changes[n + 1..];
  }

  lemma {:induction false} SelectsFirst(missing: seq<Field>, changes: seq<Field>, at: seq<nat>, n: nat)
    requires n < |changes| && Selects(missing, changes, at, n + 1)
    ensures Selects([changes[n]] + missing, changes, [n] + at, n)
  {
  }

  lemma {:induction false} OneMoreNew(fields: seq<Field>, changes: seq<Field>, at: seq<nat>, n: nat)
    requires n < |changes| && AreNew(fields, changes, at, n + 1) && forall k | k in at :: k > n
    ensures AreNew(fields, changes, if HasName(fields, changes[n].name) then at else [n] + at, n)
  {
  }

  /** The missing fields from some change on, each with its place among the changes. */
  lemma {:induction false} MissingPlaces(fields: seq<Field>, changes: seq<Field>, n: nat) returns (at: seq<nat>)
    requires n <= |changes|
    ensures Selects(Missing(fields, changes[n..]), changes, at, n)
    ensures AreNew(fields, changes, at, n)
    decreases |changes| - n
  {
    at := [];
    if n < |changes| {
      var rest := MissingPlaces(fields, changes, n + 1);
      MissingFrom(fields, changes, n);
      OneMoreNew(fields, changes, rest, n);
      SelectsFirst(Missing(fields, changes[n + 1..]), changes, rest, n);
      at := if HasName(fields, changes[n].name) then rest else [n] + rest;
    }
  }

  // ---- Resolving a dependency to a lock entry ----

  predicate StartsWith(s: string, prefix: string) {
    prefix <= s
  }

  /** The text in front of the first parenthesis. */
  function Exact(version: string): (exact: string)
    ensures exact <= version && '(' !in exact
    ensures exact == version || version[|exact|] == '('
  {
    if version == "" || version[0] == '(' then "" else [version[0]] + Exact(version[1..])
  }

  /** The keys that pass the test, in order. */
  function Matching(nodes: seq<Field>, test: string -> bool): (keys: seq<string>)
    ensures forall key | key in keys :: test(key) && HasKey(nodes, key)
    ensures keys == [] <==> forall f | f in nodes :: !test(f.name)
  {
    if nodes == [] then []
    else (if test(nodes[0].name) then [nodes[0].name] else []) + Matching(nodes[1..], test)
  }

  predicate HasKey(nodes: seq<Field>, key: string) {
    exists f | f in nodes :: f.name == key
  }

  function Candidates(nodes: seq<Field>, name: string, version: string): seq<string> {
    Matching(nodes, key => key == name + "@" + version)
    + Matching(nodes, key => StartsWith(key, name + "@" + Exact(version) + "("))
    + Matching(nodes, key => key == name + "@" + Exact(version))
  }

  /** The lock entry and version of a dependency; none for links, files and unknown packages. */
  function Resolve(nodes: seq<Field>, name: string, value: Value): (item: Option<Item>)
    ensures item.Some? ==> item.value.name == name && HasKey(nodes, item.value.key)
  {
    var version := if value.Dict? then Get(value.fields, "version") else Some(value);
    if version.None? || !version.value.Text? then None
    else
      var text := version.value.text;
      if StartsWith(text, "link:") || StartsWith(text, "file:") then None
      else
        var candidates := Candidates(nodes, name, text);
        if candidates == [] then None else Some(Item(name, Exact(text), candidates[0]))
  }

  predicate IsFirst(nodes: seq<Field>, key: string, prefix: string) {
    exists i | 0 <= i < |nodes| ::
      nodes[i].name == key && StartsWith(key, prefix) && forall j | 0 <= j < i :: !StartsWith(nodes[j].name, prefix)
  }

  lemma {:induction false} MatchingStartsFirst(nodes: seq<Field>, test: string -> bool) returns (i: nat)
    requires Matching(nodes, test) != []
    ensures i < |nodes| && nodes[i].name == Matching(nodes, test)[0] && test(nodes[i].name)
    ensures forall j | 0 <= j < i :: !test(nodes[j].name)
  {
    if test(nodes[0].name) {
      i := 0;
    } else {
      i := MatchingStartsFirst(nodes[1..], test);
      i := i + 1;
    }
  }

  /**
   A version resolves to the lock entry of that very version; without one, to the first entry of the
   version with any peers; without that, to the plain one.
   */
  lemma {:induction false} ResolvePrefersExact(nodes: seq<Field>, name: string, version: string)
    requires !StartsWith(version, "link:") && !StartsWith(version, "file:")
    ensures var plain := name + "@" + Exact(version);
            match Resolve(nodes, name, Text(version))
            case None =>
              !HasKey(nodes, name + "@" + version) && !HasKey(nodes, plain)
              && forall f | f in nodes :: !StartsWith(f.name, plain + "(")
            case Some(item) =>
              && item == Item(name, Exact(version), item.key)
              && (if HasKey(nodes, name + "@" + version) then item.key == name + "@" + version
                  else IsFirst(nodes, item.key, plain + "(")
                       || (item.key == plain && forall f | f in nodes :: !StartsWith(f.name, plain + "(")))
  {
    var exactly := Matching(nodes, key => key == name + "@" + version);
    var prefix := name + "@" + Exact(version) + "(";
    var withPeers := Matching(nodes, key => StartsWith(key, prefix));
    if withPeers != [] {
      var i := MatchingStartsFirst(nodes, key => StartsWith(key, prefix));
      assert IsFirst(nodes, withPeers[0], prefix);
    }
    var plainly := Matching(nodes, key => key == name + "@" + Exact(version));
    assert Candidates(nodes, name, version) == exactly + withPeers + plainly;
  }

  /** The version that a dependency asks for, itself or in a mapping; links and files ask for none. */
  predicate AsksVersion(value: Value, version: string) {
    && (value == Text(version) || (value.Dict? && Get(value.fields, "version") == Some(Text(version))))
    && !("link:" <= version) && !("file:" <= version)
  }

  /** `plain` is the version without its peers, which stand in parentheses. */
  predicate IsPlain(plain: string, version: string) {
    plain <= version && '(' !in plain && (plain == version || version[|plain|] == '(')
  }

  /** Which entry stands for a dependency: that very version, else the first one with peers, else the plain one. */
  predicate StandsFor(nodes: seq<Field>, name: string, version: string, plain: string, key: string) {
    if HasKey(nodes, name + "@" + version) then key == name + "@" + version
    else if exists f | f in nodes :: name + "@" + plain + "(" <= f.name
         then IsFirst(nodes, key, name + "@" + plain + "(")
    else key == name + "@" + plain && HasKey(nodes, key)
  }

  /** A dependency of this name and value has this lock entry, which is listed under the plain version. */
  ghost predicate ResolvesTo(nodes: seq<Field>, name: string, value: Value, plain: string, key: string) {
    exists version :: AsksVersion(value, version) && IsPlain(plain, version)
        && StandsFor(nodes, name, version, plain, key)
  }

  lemma {:induction false} PlainUnique(version: string, plain: string)
    ensures IsPlain(plain, version) <==> plain == Exact(version)
  {
    var exact := Exact(version);
    if IsPlain(plain, version) {
      assert forall i | 0 <= i < |exact| :: version[i] == exact[i] != '(';
      assert forall i | 0 <= i < |plain| :: version[i] == plain[i] != '(';
    }
  }

  lemma {:induction false} FirstUnique(nodes: seq<Field>, prefix: string, key: string, other: string)
    requires IsFirst(nodes, key, prefix) && IsFirst(nodes, other, prefix)
    ensures key == other
  {
  }

  lemma {:induction false} ResolvedStands(nodes: seq<Field>, name: string, version: string, key: string)
    requires !StartsWith(version, "link:") && !StartsWith(version, "file:")
    ensures Resolve(nodes, name, Text(version)) == Some(Item(name, Exact(version), key)) <==>
            StandsFor(nodes, name, version, Exact(version), key)
  {
    ResolvePrefersExact(nodes, name, version);
    var item, prefix := Resolve(nodes, name, Text(version)), name + "@" + Exact(version) + "(";
    if item.Some? && IsFirst(nodes, key, prefix) && IsFirst(nodes, item.value.key, prefix) {
      FirstUnique(nodes, prefix, key, item.value.key);
    }
  }

  /** `resolve` finds exactly the entry that stands for the dependency. */
  lemma {:induction false} ResolveFinds(nodes: seq<Field>, name: string, value: Value, plain: string, key: string)
    ensures Resolve(nodes, name, value) == Some(Item(name, plain, key)) <==> ResolvesTo(nodes, name, value, plain, key)
  {
    var version := if value.Dict? then Get(value.fields, "version") else Some(value);
    if version.Some? && version.value.Text? {
      var text := version.value.text;
      assert Resolve(nodes, name, value) == Resolve(nodes, name, Text(text));
      assert forall v :: AsksVersion(value, v) ==> v == text;
      PlainUnique(text, plain);
      if !StartsWith(text, "link:") && !StartsWith(text, "file:") {
        ResolvedStands(nodes, name, text, key);
        assert AsksVersion(value, text);
      }
    }
  }

  const TEST_HARNESS := "@playwright/test"

  /** The resolved dependencies of a mapping, in order. */
  function Resolved(nodes: seq<Field>, dependencies: seq<Field>, skipsHarness: bool): seq<Item> {
    if dependencies == [] then []
    else
      var rest, last := dependencies[..|dependencies| - 1], dependencies[|dependencies| - 1];
      Resolved(nodes, rest, skipsHarness)
      + if skipsHarness && last.name == TEST_HARNESS then [] else Found(Resolve(nodes, last.name, last.value))
  }

  function Found(item: Option<Item>): seq<Item> {
    if item.Some? then [item.value] else []
  }

  lemma {:induction false} ResolvedMore(nodes: seq<Field>, dependencies: seq<Field>, i: nat, skipsHarness: bool)
    requires i < |dependencies|
    ensures Resolved(nodes, dependencies[..i + 1], skipsHarness)
            == Resolved(nodes, dependencies[..i], skipsHarness)
               + if skipsHarness && dependencies[i].name == TEST_HARNESS then []
                 else Found(Resolve(nodes, dependencies[i].name, dependencies[i].value))
  {
    assert dependencies[..i + 1][..i] == dependencies[..i];
  }

  /** No edge of a lock entry is the test harness. */
  lemma {:induction false} EdgesSkipHarness(nodes: seq<Field>, dependencies: seq<Field>)
    ensures forall item | item in Resolved(nodes, dependencies, true) :: item.name != TEST_HARNESS
  {
    if dependencies != [] { EdgesSkipHarness(nodes, dependencies[..|dependencies| - 1]); }
  }

  function FieldsOf(value: Value): seq<Field> {
    if value.Dict? then value.fields else []
  }

  /** The edges of one lock entry. */
  function Edges(nodes: seq<Field>, key: string): seq<Item> {
    var node := Get(nodes, key);
    if node.None? || !node.value.Dict? then []
    else
      Resolved(nodes, FieldsOf(GetDict(node.value.fields, "dependencies")), true)
      + Resolved(nodes, FieldsOf(GetDict(node.value.fields, "optionalDependencies")), true)
  }

  /** The keys of the lock entries, the root dependencies, and the edges of each entry. */
  datatype Graph = Graph(known: set<string>, roots: seq<Item>, edges: string -> seq<Item>)

  function NodeKeys(nodes: seq<Field>): set<string> {
    set field | field in nodes :: field.name
  }

  function GraphOf(nodes: seq<Field>, web: seq<Field>, shared: seq<Field>): Graph {
    Graph(NodeKeys(nodes), Resolved(nodes, web, false) + Resolved(nodes, shared, false), key => Edges(nodes, key))
  }

  function ReadGraph(lock: seq<Field>, shared: Value): Result<Graph, Failure> {
    var importers, snapshots := GetDict(lock, "importers"), GetDict(lock, "snapshots");
    var packages := GetDict(lock, "packages");
    if !importers.Dict? || !snapshots.Dict? || !packages.Dict? then Err(NoLockData)
    else
      var web := GetDict(importers.fields, "apps/web");
      if !web.Dict? || Get(web.fields, "dependencies").None? || !Get(web.fields, "dependencies").value.Dict? then
        Err(NoWebDependencies)
      else if !shared.Dict? || !GetDict(shared.fields, "dependencies").Dict? then Err(BadSharedPackage)
      else
        Ok(GraphOf(Updated(packages.fields, snapshots.fields), Get(web.fields, "dependencies").value.fields,
                   GetDict(shared.fields, "dependencies").fields))
  }

  /** Every dependency leads to a lock entry. */
  ghost predicate EndsKnown(g: Graph) {
    && (forall item | item in g.roots :: item.key in g.known)
    && (forall key, item | item in g.edges(key) :: item.key in g.known)
  }

  lemma {:induction false} ResolvedKnown(nodes: seq<Field>, dependencies: seq<Field>, skipsHarness: bool)
    ensures forall item | item in Resolved(nodes, dependencies, skipsHarness) :: item.key in NodeKeys(nodes)
  {
    if dependencies != [] {
      var last := dependencies[|dependencies| - 1];
      ResolvedKnown(nodes, dependencies[..|dependencies| - 1], skipsHarness);
      var item := Resolve(nodes, last.name, last.value);
      if item.Some? {
        assert HasKey(nodes, item.value.key);
      }
    }
  }

  lemma {:induction false} GraphEndsKnown(nodes: seq<Field>, web: seq<Field>, shared: seq<Field>)
    ensures EndsKnown(GraphOf(nodes, web, shared))
  {
    ResolvedKnown(nodes, web, false);
    ResolvedKnown(nodes, shared, false);
    forall key, item | item in Edges(nodes, key)
      ensures item.key in NodeKeys(nodes)
    {
      var node := Get(nodes, key);
      ResolvedKnown(nodes, FieldsOf(GetDict(node.value.fields, "dependencies")), true);
      ResolvedKnown(nodes, FieldsOf(GetDict(node.value.fields, "optionalDependencies")), true);
    }
  }

  // ---- What the lock file says ----

  /** The entry names this dependency in its `dependencies` or `optionalDependencies`; the harness does not count. */
  predicate Names(nodes: seq<Field>, key: string, dependency: Field) {
    var node := Get(nodes, key);
    && node.Some? && node.value.Dict? && dependency.name != "@playwright/test"
    && (InMapping(node.value.fields, "dependencies", dependency)
        || InMapping(node.value.fields, "optionalDependencies", dependency))
  }

  predicate InMapping(fields: seq<Field>, mapping: string, dependency: Field) {
    var v := Get(fields, mapping);
    v.Some? && v.value.Dict? && dependency in v.value.fields
  }

  /** A package is listed for a root dependency, or for one that an earlier entry names. */
  ghost predicate NamedBefore(
      nodes: seq<Field>, web: seq<Field>, shared: seq<Field>, package: Package, key: string, before: seq<string>) {
    exists dependency: Field ::
      && dependency.name == package.name
      && ResolvesTo(nodes, dependency.name, dependency.value, package.version, key)
      && (dependency in web || dependency in shared || exists k | k in before :: Names(nodes, k, dependency))
  }

  /** The entry that stands for a dependency, if any, is among the keys. */
  ghost predicate Includes(nodes: seq<Field>, dependency: Field, keys: seq<string>) {
    forall plain, key | ResolvesTo(nodes, dependency.name, dependency.value, plain, key) :: key in keys
  }

  /**
   What the packages are, on the lock file: one for each of these entries; every root dependency and every
   dependency that one of the entries names has its entry among them; and each was named by a root or before.
   */
  ghost predicate IsProduction(
      nodes: seq<Field>, web: seq<Field>, shared: seq<Field>, packages: seq<Package>, keys: seq<string>) {
    && |packages| == |keys| && NoRepeats(keys)
    && (forall dependency: Field | dependency in web || dependency in shared :: Includes(nodes, dependency, keys))
    && (forall key, dependency: Field | key in keys && Names(nodes, key, dependency) ::
        Includes(nodes, dependency, keys))
    && (forall i | 0 <= i < |keys| :: NamedBefore(nodes, web, shared, packages[i], keys[i], keys[..i]))
  }

  lemma {:induction false} InResolved(nodes: seq<Field>, dependencies: seq<Field>, skipsHarness: bool, item: Item)
    ensures item in Resolved(nodes, dependencies, skipsHarness) <==>
            exists dependency | dependency in dependencies ::
              && !(skipsHarness && dependency.name == TEST_HARNESS)
              && Resolve(nodes, dependency.name, dependency.value) == Some(item)
  {
    if dependencies != [] {
      var rest, last := dependencies[..|dependencies| - 1], dependencies[|dependencies| - 1];
      assert dependencies == rest + [last];
      InResolved(nodes, rest, skipsHarness, item);
    }
  }

  /** An item is an edge of an entry exactly if the entry names a dependency that resolves to it. */
  lemma {:induction false} EdgesAreNamed(nodes: seq<Field>, key: string, item: Item)
    ensures item in Edges(nodes, key) <==>
            exists dependency | Names(nodes, key, dependency) ::
                Resolve(nodes, dependency.name, dependency.value) == Some(item)
  {
    var node := Get(nodes, key);
    if node.Some? && node.value.Dict? {
      InResolved(nodes, FieldsOf(GetDict(node.value.fields, "dependencies")), true, item);
      InResolved(nodes, FieldsOf(GetDict(node.value.fields, "optionalDependencies")), true, item);
    }
  }

  lemma {:induction false} RootsAreNamed(nodes: seq<Field>, web: seq<Field>, shared: seq<Field>, item: Item)
    ensures item in GraphOf(nodes, web, shared).roots <==>
            exists dependency | dependency in web || dependency in shared ::
              Resolve(nodes, dependency.name, dependency.value) == Some(item)
  {
    InResolved(nodes, web, false, item);
    InResolved(nodes, shared, false, item);
  }

  lemma {:induction false} RootsIncluded(
      nodes: seq<Field>, web: seq<Field>, shared: seq<Field>, packages: seq<Package>, keys: seq<string>,
      dependency: Field)
    requires IsClosure(GraphOf(nodes, web, shared), packages, keys) && (dependency in web || dependency in shared)
    ensures Includes(nodes, dependency, keys)
  {
    forall plain, key | ResolvesTo(nodes, dependency.name, dependency.value, plain, key)
      ensures key in keys
    {
      var item := Item(dependency.name, plain, key);
      ResolveFinds(nodes, dependency.name, dependency.value, plain, key);
      RootsAreNamed(nodes, web, shared, item);
      RootReachable(GraphOf(nodes, web, shared), item);
    }
  }

  lemma {:induction false} NamedIncluded(
      nodes: seq<Field>, web: seq<Field>, shared: seq<Field>, packages: seq<Package>, keys: seq<string>,
      from: string, dependency: Field)
    requires IsClosure(GraphOf(nodes, web, shared), packages, keys) && from in keys && Names(nodes, from, dependency)
    ensures Includes(nodes, dependency, keys)
  {
    forall plain, key | ResolvesTo(nodes, dependency.name, dependency.value, plain, key)
      ensures key in keys
    {
      var item := Item(dependency.name, plain, key);
      ResolveFinds(nodes, dependency.name, dependency.value, plain, key);
      EdgesAreNamed(nodes, from, item);
      EdgeReachable(GraphOf(nodes, web, shared), from, item);
    }
  }

  lemma {:induction false} EdgeOfSome(g: Graph, keys: seq<string>, item: Item)
    requires item in EdgesOf(g, keys)
    ensures exists key | key in keys :: item in g.edges(key)
  {
    if item !in g.edges(keys[|keys| - 1]) { EdgeOfSome(g, keys[..|keys| - 1], item); }
  }

  lemma {:induction false} ListedIsNamed(
      nodes: seq<Field>, web: seq<Field>, shared: seq<Field>, package: Package, key: string, before: seq<string>)
    requires ListedFor(GraphOf(nodes, web, shared), package, key, before)
    ensures NamedBefore(nodes, web, shared, package, key, before)
  {
    var g := GraphOf(nodes, web, shared);
    var item :| (item in g.roots || item in EdgesOf(g, before)) && item.key == key
                && package == Package(item.name, item.version);
    if item in g.roots {
      RootsAreNamed(nodes, web, shared, item);
      var dependency :| (dependency in web || dependency in shared)
                        && Resolve(nodes, dependency.name, dependency.value) == Some(item);
      ResolveFinds(nodes, dependency.name, dependency.value, item.version, key);
    } else {
      EdgeOfSome(g, before, item);
      var k :| k in before && item in g.edges(k);
      EdgesAreNamed(nodes, k, item);
      var dependency :| Names(nodes, k, dependency) && Resolve(nodes, dependency.name, dependency.value) == Some(item);
      ResolveFinds(nodes, dependency.name, dependency.value, item.version, key);
    }
  }

  lemma {:induction false} ClosureIsProduction(
      nodes: seq<Field>, web: seq<Field>, shared: seq<Field>, packages: seq<Package>, keys: seq<string>)
    requires IsClosure(GraphOf(nodes, web, shared), packages, keys)
    ensures IsProduction(nodes, web, shared, packages, keys)
  {
    forall dependency: Field | dependency in web || dependency in shared
      ensures Includes(nodes, dependency, keys)
    {
      RootsIncluded(nodes, web, shared, packages, keys, dependency);
    }
    forall key, dependency: Field | key in keys && Names(nodes, key, dependency)
      ensures Includes(nodes, dependency, keys)
    {
      NamedIncluded(nodes, web, shared, packages, keys, key, dependency);
    }
    forall i | 0 <= i < |keys|
      ensures NamedBefore(nodes, web, shared, packages[i], keys[i], keys[..i])
    {
      ListedIsNamed(nodes, web, shared, packages[i], keys[i], keys[..i]);
    }
  }

  // ---- Paths ----

  predicate Leads(items: seq<Item>, key: string) {
    exists item | item in items :: item.key == key
  }

  /** A path of lock entries that starts at a root dependency. */
  ghost predicate IsPath(g: Graph, path: seq<string>) {
    && path != []
    && Leads(g.roots, path[0])
    && forall i, j | 0 <= i < j < |path| && j == i + 1 :: Follows(g, path[i], path[j])
  }

  predicate Follows(g: Graph, key: string, next: string) {
    Leads(g.edges(key), next)
  }

  ghost predicate Reachable(g: Graph, key: string) {
    exists path: seq<string> | path != [] && path[|path| - 1] == key :: IsPath(g, path)
  }

  lemma {:induction false} RootReachable(g: Graph, item: Item)
    requires item in g.roots
    ensures Reachable(g, item.key)
  {
    assert IsPath(g, [item.key]);
  }

  lemma {:induction false} EdgeReachable(g: Graph, key: string, item: Item)
    requires Reachable(g, key) && item in g.edges(key)
    ensures Reachable(g, item.key)
  {
    var path: seq<string> :| path != [] && path[|path| - 1] == key && IsPath(g, path);
    assert Follows(g, key, item.key);
    assert IsPath(g, path + [item.key]);
  }

  /** A set that holds the roots and is closed under edges holds everything reachable. */
  ghost predicate Closed(g: Graph, keys: set<string>) {
    && (forall item | item in g.roots :: item.key in keys)
    && (forall key, item | key in keys && item in g.edges(key) :: item.key in keys)
  }

  lemma {:induction false} ClosedHoldsPath(g: Graph, keys: set<string>, path: seq<string>, n: nat)
    requires Closed(g, keys) && IsPath(g, path) && n < |path|
    ensures path[n] in keys
  {
    if n > 0 {
      ClosedHoldsPath(g, keys, path, n - 1);
      assert Follows(g, path[n - 1], path[n]);
    }
  }

  ghost predicate ListedFor(g: Graph, package: Package, key: string, before: seq<string>) {
    exists item | item in g.roots || item in EdgesOf(g, before) ::
      item.key == key && package == Package(item.name, item.version)
  }

  function EdgesOf(g: Graph, keys: seq<string>): seq<Item> {
    if keys == [] then [] else EdgesOf(g, keys[..|keys| - 1]) + g.edges(keys[|keys| - 1])
  }

  /** The packages stand for these lock entries, one each, and each was met through an earlier one. */
  ghost predicate Lists(g: Graph, packages: seq<Package>, keys: seq<string>) {
    && |packages| == |keys| && NoRepeats(keys)
    && forall i | 0 <= i < |keys| :: ListedFor(g, packages[i], keys[i], keys[..i])
  }

  /** The lock entries found so far: `keys` in order, with everything they lead to in the queue or found. */
  ghost predicate Sweep(g: Graph, queue: seq<Item>, keys: seq<string>) {
    && (forall item | item in queue :: item in g.roots || item in EdgesOf(g, keys))
    && (forall item | item in g.roots || item in EdgesOf(g, keys) :: item.key in keys || item in queue)
    && (forall key | key in keys :: Reachable(g, key))
    && (forall item | item in EdgesOf(g, keys) :: Reachable(g, item.key))
  }

  lemma {:induction false} EdgesOfMore(g: Graph, keys: seq<string>, key: string)
    ensures EdgesOf(g, keys + [key]) == EdgesOf(g, keys) + g.edges(key)
  {
  }

  lemma {:induction false} SweepStarts(g: Graph)
    ensures Sweep(g, g.roots, [])
  {
  }

  /** A lock entry met again is dropped. */
  lemma {:induction false} SweepSkips(g: Graph, queue: seq<Item>, keys: seq<string>)
    requires Sweep(g, queue, keys) && queue != [] && queue[0].key in keys
    ensures Sweep(g, queue[1..], keys)
  {
  }

  /** A new lock entry is listed and its edges join the queue. */
  lemma {:induction false} SweepVisits(g: Graph, queue: seq<Item>, keys: seq<string>)
    requires Sweep(g, queue, keys) && queue != [] && queue[0].key !in keys
    ensures Sweep(g, queue[1..] + g.edges(queue[0].key), keys + [queue[0].key])
  {
    var item := queue[0];
    assert queue == [item] + queue[1..];
    EdgesOfMore(g, keys, item.key);
    if item in g.roots { RootReachable(g, item); }
    forall next | next in g.edges(item.key)
      ensures Reachable(g, next.key)
    {
      EdgeReachable(g, item.key, next);
    }
  }

  lemma {:induction false} ListsOneMore(g: Graph, packages: seq<Package>, keys: seq<string>, item: Item)
    requires Lists(g, packages, keys) && item.key !in keys
    requires item in g.roots || item in EdgesOf(g, keys)
    ensures Lists(g, packages + [Package(item.name, item.version)], keys + [item.key])
  {
    var longer, more := keys + [item.key], packages + [Package(item.name, item.version)];
    forall i | 0 <= i < |longer|
      ensures ListedFor(g, more[i], longer[i], longer[..i])
    {
      assert longer[..i] == keys[..i];
      if i < |keys| { assert ListedFor(g, packages[i], keys[i], keys[..i]); }
      else { assert keys[..i] == keys; }
    }
  }

  lemma {:induction false} SweepEnds(g: Graph, keys: seq<string>)
    requires Sweep(g, [], keys)
    ensures forall key :: key in keys <==> Reachable(g, key)
  {
    var found := set key | key in keys;
    forall key, item | key in found && item in g.edges(key)
      ensures item.key in found
    {
      EdgesAmong(g, keys, key, item);
    }
    ClosedHoldsReachable(g, found);
  }

  lemma {:induction false} ClosedHoldsReachable(g: Graph, keys: set<string>)
    requires Closed(g, keys)
    ensures forall key | Reachable(g, key) :: key in keys
  {
    forall key | Reachable(g, key)
      ensures key in keys
    {
      var path: seq<string> :| path != [] && path[|path| - 1] == key && IsPath(g, path);
      ClosedHoldsPath(g, keys, path, |path| - 1);
    }
  }

  lemma {:induction false} EdgesAmong(g: Graph, keys: seq<string>, key: string, item: Item)
    requires key in keys && item in g.edges(key)
    ensures item in EdgesOf(g, keys)
  {
    var rest := keys[..|keys| - 1];
    if key != keys[|keys| - 1] {
      assert keys == rest + [keys[|keys| - 1]];
      EdgesAmong(g, rest, key, item);
    }
  }

  lemma {:induction false} QueueKnown(g: Graph, queue: seq<Item>, keys: seq<string>)
    requires EndsKnown(g) && Sweep(g, queue, keys)
    ensures forall item | item in queue :: item.key in g.known
  {
    forall item | item in EdgesOf(g, keys)
      ensures item.key in g.known
    {
      EdgesOfKnown(g, keys, item);
    }
  }

  lemma {:induction false} EdgesOfKnown(g: Graph, keys: seq<string>, item: Item)
    requires EndsKnown(g) && item in EdgesOf(g, keys)
    ensures item.key in g.known
  {
    if item !in g.edges(keys[|keys| - 1]) { EdgesOfKnown(g, keys[..|keys| - 1], item); }
  }

  /** The loop over one mapping of dependencies. */
  method Enqueue(
      nodes: seq<Field>, dependencies: seq<Field>, skipsHarness: bool, queue: seq<Item>)
    returns (longer: seq<Item>)
    ensures longer == queue + Resolved(nodes, dependencies, skipsHarness)
  {
    longer := queue;
    for i := 0 to |dependencies|
      invariant longer == queue + Resolved(nodes, dependencies[..i], skipsHarness)
    {
      var dependency := dependencies[i];
      ResolvedMore(nodes, dependencies, i, skipsHarness);
      if skipsHarness && dependency.name == TEST_HARNESS {
        AppendedTwice(queue, Resolved(nodes, dependencies[..i], skipsHarness), []);
        continue;
      }
      var resolved := Resolve(nodes, dependency.name, dependency.value);
      AppendedTwice(queue, Resolved(nodes, dependencies[..i], skipsHarness), Found(resolved));
      if resolved.Some? { longer := longer + [resolved.value]; }
    }
    assert dependencies[..|dependencies|] == dependencies;
  }

  /** The lock file and the shared package file have the mappings that the closure starts from. */
  predicate InMappings(lock: seq<Field>, shared: Value) {
    && GetDict(lock, "packages").Dict? && GetDict(lock, "snapshots").Dict? && GetDict(lock, "importers").Dict?
    && GetDict(GetDict(lock, "importers").fields, "apps/web").Dict?
    && GetDict(GetDict(GetDict(lock, "importers").fields, "apps/web").fields, "dependencies").Dict?
    && shared.Dict? && GetDict(shared.fields, "dependencies").Dict?
  }

  function WebDependencies(lock: seq<Field>): seq<Field>
    requires GetDict(lock, "importers").Dict? && GetDict(GetDict(lock, "importers").fields, "apps/web").Dict?
  {
    FieldsOf(GetDict(GetDict(GetDict(lock, "importers").fields, "apps/web").fields, "dependencies"))
  }

  function SharedDependencies(shared: Value): seq<Field>
    requires shared.Dict?
  {
    FieldsOf(GetDict(shared.fields, "dependencies"))
  }

  /**
   The worklist. It lists exactly one package for every lock entry that a path of dependencies reaches
   from the roots, under the name and version of the dependency that led there: `IsProduction` says this on
   the mappings of the lock file, `IsClosure` by paths.
   */
  method WebProductionClosure(lock: seq<Field>, shared: Value) returns (r: Result<seq<Package>, Failure>)
    ensures r.Err? <==> ReadGraph(lock, shared).Err?
    ensures r.Err? ==> r.error == ReadGraph(lock, shared).error
    ensures r == Err(NoLockData) <==>
            !GetDict(lock, "importers").Dict? || !GetDict(lock, "snapshots").Dict? || !GetDict(lock, "packages").Dict?
    ensures r.Ok? ==> exists keys: seq<string> :: IsClosure(ReadGraph(lock, shared).value, r.value, keys)
    ensures r.Ok? ==>
              && InMappings(lock, shared)
              && exists keys: seq<string> :: IsProduction(
                   Updated(GetDict(lock, "packages").fields, GetDict(lock, "snapshots").fields),
                   WebDependencies(lock), SharedDependencies(shared), r.value, keys)
  {
    var importers, snapshots := GetDict(lock, "importers"), GetDict(lock, "snapshots");
    var resolvedPackages := GetDict(lock, "packages");
    if !importers.Dict? || !snapshots.Dict? || !resolvedPackages.Dict? { return Err(NoLockData); }
    var nodes := Updated(resolvedPackages.fields, snapshots.fields);
    var web := GetDict(importers.fields, "apps/web");
    if !web.Dict? { return Err(NoWebDependencies); }
    var webDependencies := Get(web.fields, "dependencies");
    if webDependencies.None? || !webDependencies.value.Dict? { return Err(NoWebDependencies); }
    var queue := Enqueue(nodes, webDependencies.value.fields, false, []);
    if !shared.Dict? { return Err(BadSharedPackage); }
    var sharedDependencies := GetDict(shared.fields, "dependencies");
    if !sharedDependencies.Dict? { return Err(BadSharedPackage); }
    queue := Enqueue(nodes, sharedDependencies.fields, false, queue);

    AppendedTwice([], Resolved(nodes, webDependencies.value.fields, false),
                  Resolved(nodes, sharedDependencies.fields, false));
    ghost var g := GraphOf(nodes, webDependencies.value.fields, sharedDependencies.fields);
    GraphEndsKnown(nodes, webDependencies.value.fields, sharedDependencies.fields);
    var packages := FollowQueue(nodes, queue, g);
    ghost var keys: seq<string> :| IsClosure(g, packages, keys);
    ClosureIsProduction(nodes, webDependencies.value.fields, sharedDependencies.fields, packages, keys);
    assert WebDependencies(lock) == webDependencies.value.fields
           && SharedDependencies(shared) == sharedDependencies.fields;
    assert IsProduction(nodes, WebDependencies(lock), SharedDependencies(shared), packages, keys);
    return Ok(packages);
  }

  /** The loop over the queue. */
  method FollowQueue(nodes: seq<Field>, roots: seq<Item>, ghost g: Graph) returns (packages: seq<Package>)
    requires g.known == NodeKeys(nodes) && roots == g.roots && EndsKnown(g)
    requires forall key :: g.edges(key) == Edges(nodes, key)
    ensures exists keys: seq<string> :: IsClosure(g, packages, keys)
  {
    SweepStarts(g);
    var queue := roots;
    var seen: set<string> := {};
    packages := [];
    ghost var keys: seq<string> := [];
    while queue != []
      invariant forall key :: key in seen <==> key in keys
      invariant Sweep(g, queue, keys) && Lists(g, packages, keys)
      decreases |g.known - seen|, |queue|
    {
      var item := queue[0];
      if item.key in seen {
        SweepSkips(g, queue, keys);
        queue := queue[1..];
        continue;
      }
      ListsOneMore(g, packages, keys, item);
      SweepVisits(g, queue, keys);
      OneFewer(g, queue, keys, seen, item.key);
      keys := keys + [item.key];
      seen := seen + {item.key};
      packages := packages + [Package(item.name, item.version)];
      queue := VisitEdges(nodes, item.key, queue[1..]);
    }
    SweepEnds(g, keys);
    assert IsClosure(g, packages, keys);
  }

  /** The two mappings of one lock entry, if it has them. */
  method VisitEdges(nodes: seq<Field>, key: string, queue: seq<Item>) returns (longer: seq<Item>)
    ensures longer == queue + Edges(nodes, key)
  {
    var snapshot := Get(nodes, key);
    if snapshot.None? || !snapshot.value.Dict? { return queue; }
    var dependencies := GetDict(snapshot.value.fields, "dependencies");
    var optionalDependencies := GetDict(snapshot.value.fields, "optionalDependencies");
    longer := queue;
    if dependencies.Dict? { longer := Enqueue(nodes, dependencies.fields, true, longer); }
    assert longer == queue + Resolved(nodes, FieldsOf(dependencies), true);
    if optionalDependencies.Dict? { longer := Enqueue(nodes, optionalDependencies.fields, true, longer); }
    AppendedTwice(queue, Resolved(nodes, FieldsOf(dependencies), true),
                  Resolved(nodes, FieldsOf(optionalDependencies), true));
  }

  lemma AppendedTwice(queue: seq<Item>, a: seq<Item>, b: seq<Item>)
    ensures queue + a + b == queue + (a + b)
    ensures [] + a + b == a + b && queue + [] == queue
  {
  }

  lemma {:induction false} OneFewer(g: Graph, queue: seq<Item>, keys: seq<string>, seen: set<string>, key: string)
    requires EndsKnown(g) && Sweep(g, queue, keys) && queue != [] && queue[0].key == key && key !in seen
    ensures |g.known - (seen + {key})| < |g.known - seen|
  {
    QueueKnown(g, queue, keys);
    assert g.known - (seen + {key}) == (g.known - seen) - {key};
  }

  ghost predicate IsClosure(g: Graph, packages: seq<Package>, keys: seq<string>) {
    Lists(g, packages, keys) && forall key :: key in keys <==> Reachable(g, key)
  }
}
