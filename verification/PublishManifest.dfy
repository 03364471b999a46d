/**
 The manifest `cargo publish` sees: the workspace hack leaves every `dependencies` table, workspace
 dev-dependencies leave every `dev-dependencies` table, and features lose the entries naming the hack.
 */
module PublishManifest {
  import Names
  import opened Wrappers

  datatype Toml =
    | Text(text: string)
    | Other(value: int)
    | List(items: seq<Toml>)
    | Table(entries: Entries)

  type Entries = map<string, Toml>

  // ---------------------------------------------------------------- entry names

  function StripPrefix(s: string, prefix: string): string {
    if prefix <= s then s[|prefix|..] else s
  }

  predicate StartsWith(s: string, prefix: string) {
    prefix <= s
  }

  /** The test `retain` makes: `x`, `x/…` and `x?/…`, each with or without `dep:` before it. */
  predicate NamesDependency(entry: string, dependency: string) {
    var e := StripPrefix(entry, "dep:");
    dependency <= e
    && var rest := e[|dependency|..];
       rest == "" || StartsWith(rest, "/") || StartsWith(rest, "?/")
  }

  /** The text before the first `/`, if there is one. */
  function BeforeSlash(s: string): Option<string> {
    if s == "" then None
    else if s[0] == '/' then Some("")
    else match BeforeSlash(s[1..])
      case None => None
      case Some(head) => Some([s[0]] + head)
  }

  function TrimOptional(s: string): string {
    if s != "" && s[|s| - 1] == '?' then s[..|s| - 1] else s
  }

  /** The dependency cargo reads in a feature entry, if it names one rather than a feature. */
  function NamedDependency(entry: string): Option<string> {
    if StartsWith(entry, "dep:") then Some(entry[4..])
    else match BeforeSlash(entry)
      case None => None
      case Some(head) => Some(TrimOptional(head))
  }

  predicate IsCrateName(name: string) {
    forall c :: c in name ==> c !in "/?:"
  }

  lemma {:induction false} BeforeSlashIs(s: string, head: string)
    requires '/' !in head && StartsWith(s, head + "/")
    ensures BeforeSlash(s) == Some(head)
  {
    assert s[|head|] == (head + "/")[|head|];
    if head != "" {
      assert s[0] == (head + "/")[0] == head[0] && head[0] in head;
      assert head == [head[0]] + head[1..];
      assert head[1..] + "/" <= s[1..] by {
        assert s[..|head| + 1] == head + "/";
        assert s[1..][..|head|] == head[1..] + "/";
      }
      BeforeSlashIs(s[1..], head[1..]);
    }
  }

  lemma {:induction false} BeforeSlashHas(s: string)
    requires BeforeSlash(s).Some?
    ensures var head := BeforeSlash(s).value; '/' !in head && StartsWith(s, head + "/")
  {
    if s[0] != '/' {
      BeforeSlashHas(s[1..]);
      var tail := BeforeSlash(s[1..]).value;
      assert s == [s[0]] + s[1..];
      assert [s[0]] + tail + "/" == [s[0]] + (tail + "/");
    }
  }

  /** An entry that names a dependency never passes the filter for it. */
  lemma NamedIsDropped(entry: string, name: string)
    requires NamedDependency(entry) == Some(name)
    ensures NamesDependency(entry, name)
  {
    if StartsWith(entry, "dep:") {
      assert name[|name|..] == "";
    } else {
      BeforeSlashHas(entry);
      var head := BeforeSlash(entry).value;
      var rest := entry[|name|..];
      assert entry[..|head| + 1] == head + "/";
      if head == name {
        assert rest[..1] == "/";
      } else {
        assert head == name + "?";
        assert rest[..2] == "?/";
      }
    }
  }

  /** A head that is `name`, marked or not, followed by a slash. */
  lemma HeadNames(entry: string, name: string, mark: string)
    requires IsCrateName(name) && (mark == "" || mark == "?") && StartsWith(entry, name + mark + "/")
    requires !StartsWith(entry, "dep:")
    ensures NamedDependency(entry) == Some(name)
  {
    var head := name + mark;
    assert forall i :: 0 <= i < |name| ==> head[i] in name;
    BeforeSlashIs(entry, head);
    if mark == "" {
      assert head == name;
      assert name != "" ==> name[|name| - 1] in name;
    } else {
      assert head[..|head| - 1] == name;
    }
  }

  /**
   The filter drops what names the crate, the bare name, which is the feature an optional dependency
   gives its crate, and a `dep:` form cargo has no meaning for; and nothing else.
   */
  lemma DropsExactly(entry: string, name: string)
    requires IsCrateName(name)
    ensures NamesDependency(entry, name) <==>
      || NamedDependency(entry) == Some(name)
      || (!StartsWith(entry, "dep:") && entry == name)
      || StartsWith(entry, "dep:" + name + "/") || StartsWith(entry, "dep:" + name + "?/")
  {
    if NamedDependency(entry) == Some(name) { NamedIsDropped(entry, name); }
    var e := StripPrefix(entry, "dep:");
    assert name <= e ==> e == name + e[|name|..];
    if StartsWith(entry, "dep:") {
      assert e == entry[4..] && entry == "dep:" + e;
      assert name <= e && e[|name|..] == "" ==> e == name;
      AfterDep(e, name, "/");
      AfterDep(e, name, "?/");
    } else if NamesDependency(entry, name) && entry != name {
      var rest := entry[|name|..];
      if StartsWith(rest, "/") {
        assert name + "" + "/" == name + rest[..1];
        HeadNames(entry, name, "");
      } else {
        assert name + "?" + "/" == name + rest[..2];
        HeadNames(entry, name, "?");
      }
    }
  }

  lemma AfterDep(e: string, name: string, mark: string)
    ensures StartsWith("dep:" + e, "dep:" + name + mark) <==> name <= e && StartsWith(e[|name|..], mark)
  {
    var long, short := "dep:" + e, "dep:" + name + mark;
    assert long[4..] == e && short[4..] == name + mark;
    if short <= long { assert long[..|short|][4..] == name + mark == e[..|short| - 4]; }
    if name <= e && StartsWith(e[|name|..], mark) {
      assert e[..|name| + |mark|] == name + e[|name|..][..|mark|];
      assert long[..|short|] == short;
    }
  }

  // ---------------------------------------------------------------- the rewrite as a function

  function Without(table: Entries, section: string, names: set<string>): Entries {
    if section in table && table[section].Table?
    then table[section := Table(table[section].entries - names)]
    else table
  }

  function StripTables(table: Entries, hack: string, devDeps: set<string>): Entries {
    Without(Without(table, "dependencies", {hack}), "dev-dependencies", devDeps)
  }

  function StripTargets(targets: Entries, hack: string, devDeps: set<string>): Entries {
    map cfg | cfg in targets ::
      if targets[cfg].Table? then Table(StripTables(targets[cfg].entries, hack, devDeps)) else targets[cfg]
  }

  function Filter<T>(items: seq<T>, keep: T -> bool): (kept: seq<T>) {
    if items == [] then []
    else (if keep(items[0]) then [items[0]] else []) + Filter(items[1..], keep)
  }

  /** What `retain` keeps: values that are no string, and strings that do not name the hack. */
  function Keeps(hack: string): Toml -> bool {
    (item: Toml) => item.Text? ==> !NamesDependency(item.text, hack)
  }

  function StripFeatures(features: Entries, hack: string): Entries {
    map name | name in features ::
      if features[name].List? then List(Filter(features[name].items, Keeps(hack))) else features[name]
  }

  function OnTargets(table: Entries, hack: string, devDeps: set<string>): Entries {
    if "target" in table && table["target"].Table?
    then table["target" := Table(StripTargets(table["target"].entries, hack, devDeps))]
    else table
  }

  function OnFeatures(table: Entries, hack: string): Entries {
    if "features" in table && table["features"].Table?
    then table["features" := Table(StripFeatures(table["features"].entries, hack))]
    else table
  }

  function Stripped(manifest: Entries, hack: string, devDeps: set<string>): Entries {
    OnFeatures(OnTargets(StripTables(manifest, hack, devDeps), hack, devDeps), hack)
  }

  // ---------------------------------------------------------------- the rewrite as it runs

  /** `deps.remove(name)` for each name. */
  method RemoveAll(deps0: Entries, names: seq<string>) returns (deps: Entries, removed: bool)
    ensures deps == deps0 - Names.Elements(names)
    ensures removed <==> deps != deps0
  {
    deps, removed := deps0, false;
    var i := 0;
    while i < |names|
      invariant 0 <= i <= |names|
      invariant deps == deps0 - Names.Elements(names[..i])
      invariant removed <==> exists j :: 0 <= j < i && names[j] in deps0
    {
      assert names[..i + 1] == names[..i] + [names[i]];
      if names[i] in deps {
        removed := true;
        deps := deps - {names[i]};
      }
      i := i + 1;
    }
    assert names[..i] == names;
    if removed {
      var j :| 0 <= j < i && names[j] in deps0;
      assert names[j] !in deps;
    }
  }

  method StripDependencyTables(table0: Entries, hack: string, devDeps: seq<string>)
    returns (table: Entries, removed: bool)
    ensures table == StripTables(table0, hack, Names.Elements(devDeps))
    ensures removed <==> table != table0
  {
    table, removed := table0, false;
    if "dependencies" in table && table["dependencies"].Table? {
      var deps, gone := RemoveAll(table["dependencies"].entries, [hack]);
      assert Names.Elements([hack]) == {hack};
      table := table["dependencies" := Table(deps)];
      assert gone ==> table["dependencies"] != table0["dependencies"];
      removed := removed || gone;
    }
    if "dev-dependencies" in table && table["dev-dependencies"].Table? {
      var deps, gone := RemoveAll(table["dev-dependencies"].entries, devDeps);
      table := table["dev-dependencies" := Table(deps)];
      assert gone ==> table["dev-dependencies"] != table0["dev-dependencies"];
      removed := removed || gone;
    }
  }

  method StripTargetTables(targets0: Entries, hack: string, devDeps: seq<string>)
    returns (targets: Entries, removed: bool)
    ensures targets == StripTargets(targets0, hack, Names.Elements(devDeps))
    ensures removed <==> targets != targets0
  {
    targets, removed := targets0, false;
    ghost var all := StripTargets(targets0, hack, Names.Elements(devDeps));
    var todo := targets0.Keys;
    while todo != {}
      invariant todo <= targets0.Keys && targets.Keys == targets0.Keys
      invariant forall cfg :: cfg in targets ==> targets[cfg] == if cfg in todo then targets0[cfg] else all[cfg]
      invariant removed <==> exists cfg :: cfg in targets0 && cfg !in todo && all[cfg] != targets0[cfg]
    {
      var cfg :| cfg in todo;
      if targets[cfg].Table? {
        var target, gone := StripDependencyTables(targets[cfg].entries, hack, devDeps);
        targets := targets[cfg := Table(target)];
        removed := removed || gone;
      }
      todo := todo - {cfg};
    }
    assert targets == all;
  }

  lemma {:induction false} FilterSplits<T>(before: seq<T>, after: seq<T>, keep: T -> bool)
    ensures Filter(before + after, keep) == Filter(before, keep) + Filter(after, keep)
  {
    if before == [] {
      assert before + after == after;
    } else {
      assert (before + after)[1..] == before[1..] + after && (before + after)[0] == before[0];
      FilterSplits(before[1..], after, keep);
      var head := if keep(before[0]) then [before[0]] else [];
      assert head + (Filter(before[1..], keep) + Filter(after, keep))
        == head + Filter(before[1..], keep) + Filter(after, keep);
    }
  }

  /** `retain` over one feature's entries. */
  method Retain(items: seq<Toml>, hack: string) returns (kept: seq<Toml>)
    ensures kept == Filter(items, Keeps(hack))
  {
    kept := [];
    var i := 0;
    ghost var keep := Keeps(hack);
    while i < |items|
      invariant 0 <= i <= |items|
      invariant kept == Filter(items[..i], keep)
    {
      FilterSplits(items[..i], [items[i]], keep);
      assert items[..i + 1] == items[..i] + [items[i]];
      if Keeps(hack)(items[i]) { kept := kept + [items[i]]; }
      i := i + 1;
    }
    assert items[..i] == items;
  }

  lemma {:induction false} FilterLength<T>(items: seq<T>, keep: T -> bool)
    ensures |Filter(items, keep)| <= |items|
    ensures |Filter(items, keep)| == |items| <==> Filter(items, keep) == items
  {
    if items != [] {
      FilterLength(items[1..], keep);
      assert items == [items[0]] + items[1..];
    }
  }

  method StripFeatureReferences(features0: Entries, hack: string) returns (features: Entries, removed: bool)
    ensures features == StripFeatures(features0, hack)
    ensures removed <==> features != features0
  {
    features, removed := features0, false;
    ghost var all := StripFeatures(features0, hack);
    var todo := features0.Keys;
    while todo != {}
      invariant todo <= features0.Keys && features.Keys == features0.Keys
      invariant forall name :: name in features ==>
        features[name] == if name in todo then features0[name] else all[name]
      invariant removed <==> exists name :: name in features0 && name !in todo && all[name] != features0[name]
    {
      var name :| name in todo;
      if features[name].List? {
        var before := |features[name].items|;
        FilterLength(features[name].items, Keeps(hack));
        var kept := Retain(features[name].items, hack);
        features := features[name := List(kept)];
        removed := removed || |kept| != before;
      }
      todo := todo - {name};
    }
    assert features == all;
  }

  /** The rewritten manifest, or `None`, which is returned exactly when the rewrite changes nothing. */
  method PublishManifest(manifest: Entries, hack: string, devDeps: seq<string>) returns (r: Option<Entries>)
    ensures var whole := Stripped(manifest, hack, Names.Elements(devDeps));
      r == if whole == manifest then None else Some(whole)
  {
    var table, removed := StripDependencyTables(manifest, hack, devDeps);
    ghost var rooted := table;
    if "target" in table && table["target"].Table? {
      var targets, gone := StripTargetTables(table["target"].entries, hack, devDeps);
      table := table["target" := Table(targets)];
      removed := removed || gone;
    }
    if "features" in table && table["features"].Table? {
      var features, gone := StripFeatureReferences(table["features"].entries, hack);
      table := table["features" := Table(features)];
      removed := removed || gone;
    }
    assert table == Stripped(manifest, hack, Names.Elements(devDeps));
    assert removed ==> table != manifest by {
      SectionsApart(manifest, hack, Names.Elements(devDeps));
      if removed && rooted != manifest {
        var key :| key in manifest && rooted[key] != manifest[key];
        assert table[key] == rooted[key];
      }
    }
    r := if removed then Some(table) else None;
  }

  lemma SectionsApart(manifest: Entries, hack: string, devDeps: set<string>)
    ensures var t := StripTables(manifest, hack, devDeps);
      t.Keys == manifest.Keys
      && forall key :: key in manifest && key != "dependencies" && key != "dev-dependencies" ==> t[key] == manifest[key]
  {}

  // ---------------------------------------------------------------- what the rewrite promises

  lemma WithoutIdles(table: Entries, section: string, names: set<string>)
    requires section in table && table[section].Table? ==> table[section].entries.Keys !! names
    ensures Without(table, section, names) == table
  {
    if section in table && table[section].Table? {
      assert table[section].entries - names == table[section].entries;
    }
  }

  lemma TablesTwice(table: Entries, hack: string, devDeps: set<string>)
    ensures StripTables(StripTables(table, hack, devDeps), hack, devDeps) == StripTables(table, hack, devDeps)
  {
    var once := StripTables(table, hack, devDeps);
    WithoutIdles(once, "dependencies", {hack});
    WithoutIdles(once, "dev-dependencies", devDeps);
  }

  lemma TargetsTwice(targets: Entries, hack: string, devDeps: set<string>)
    ensures StripTargets(StripTargets(targets, hack, devDeps), hack, devDeps) == StripTargets(targets, hack, devDeps)
  {
    forall cfg | cfg in targets && targets[cfg].Table? { TablesTwice(targets[cfg].entries, hack, devDeps); }
  }

  lemma FeaturesTwice(features: Entries, hack: string)
    ensures StripFeatures(StripFeatures(features, hack), hack) == StripFeatures(features, hack)
  {
    forall name | name in features && features[name].List? { FilterTwice(features[name].items, Keeps(hack)); }
  }

  lemma {:induction false} FilterTwice<T>(items: seq<T>, keep: T -> bool)
    ensures Filter(Filter(items, keep), keep) == Filter(items, keep)
  {
    if items != [] {
      FilterTwice(items[1..], keep);
      var head := if keep(items[0]) then [items[0]] else [];
      FilterSplits(head, Filter(items[1..], keep), keep);
    }
  }

  /** A published manifest needs no second rewrite. */
  lemma StrippedIsFixpoint(manifest: Entries, hack: string, devDeps: set<string>)
    ensures Stripped(Stripped(manifest, hack, devDeps), hack, devDeps) == Stripped(manifest, hack, devDeps)
  {
    var once := Stripped(manifest, hack, devDeps);
    var tables := StripTables(manifest, hack, devDeps);
    assert StripTables(once, hack, devDeps) == once by {
      SectionsApart(tables, hack, devDeps);
      WithoutIdles(once, "dependencies", {hack});
      WithoutIdles(once, "dev-dependencies", devDeps);
    }
    assert OnTargets(once, hack, devDeps) == once by {
      if "target" in once && once["target"].Table? { TargetsTwice(tables["target"].entries, hack, devDeps); }
    }
    assert OnFeatures(once, hack) == once by {
      if "features" in once && once["features"].Table? {
        FeaturesTwice(OnTargets(tables, hack, devDeps)["features"].entries, hack);
      }
    }
  }

  /** Every entry that does not name the hack stays, as often as it stood. */
  lemma {:induction false} FilterKeeps<T>(items: seq<T>, keep: T -> bool, item: T)
    ensures multiset(Filter(items, keep))[item] == if keep(item) then multiset(items)[item] else 0
  {
    if items != [] {
      FilterKeeps(items[1..], keep, item);
      assert items == [items[0]] + items[1..];
      assert multiset(items) == multiset{items[0]} + multiset(items[1..]);
    }
  }

  /** Where a manifest keeps dependency tables: at its root, or under a target. */
  datatype Place = Root | Target(cfg: string)

  ghost function TableAt(manifest: Entries, place: Place): Option<Entries> {
    match place
    case Root => Some(manifest)
    case Target(cfg) =>
      if "target" in manifest && manifest["target"].Table? && cfg in manifest["target"].entries
         && manifest["target"].entries[cfg].Table?
      then Some(manifest["target"].entries[cfg].entries)
      else None
  }

  predicate IsSection(section: string) {
    section == "dependencies" || section == "dev-dependencies" || section == "build-dependencies"
  }

  ghost predicate Holds(table: Entries, section: string, name: string) {
    section in table && table[section].Table? && name in table[section].entries
  }

  ghost predicate Stands(manifest: Entries, place: Place, section: string, name: string) {
    TableAt(manifest, place).Some? && Holds(TableAt(manifest, place).value, section, name)
  }

  /** Some dependency table of the manifest has the name. */
  ghost predicate IsListed(manifest: Entries, name: string) {
    exists place, section :: IsSection(section) && Stands(manifest, place, section, name)
  }

  /** `entry` is a string in some feature's list. */
  ghost predicate IsFeatureEntry(manifest: Entries, entry: string) {
    "features" in manifest && manifest["features"].Table?
    && exists name :: name in manifest["features"].entries && InFeature(manifest["features"].entries[name], entry)
  }

  ghost predicate InFeature(feature: Toml, entry: string) {
    feature.List? && Text(entry) in feature.items
  }

  /** What cargo demands: no feature entry names a dependency the manifest does not list. */
  ghost predicate FeaturesListed(manifest: Entries) {
    forall entry :: IsFeatureEntry(manifest, entry) && NamedDependency(entry).Some? ==>
      IsListed(manifest, NamedDependency(entry).value)
  }

  /** What the rewrite takes from a section. */
  ghost predicate Taken(hack: string, devDeps: set<string>, section: string, name: string) {
    (section == "dependencies" && name == hack) || (section == "dev-dependencies" && name in devDeps)
  }

  lemma HoldsAfter(table: Entries, hack: string, devDeps: set<string>, section: string, name: string)
    requires IsSection(section)
    ensures Holds(StripTables(table, hack, devDeps), section, name)
      <==> Holds(table, section, name) && !Taken(hack, devDeps, section, name)
  {}

  /** The manifest beside `target` and `features` is what `strip_dependency_tables` makes of it. */
  lemma RootAfter(manifest: Entries, hack: string, devDeps: set<string>, section: string, name: string)
    requires IsSection(section)
    ensures Holds(Stripped(manifest, hack, devDeps), section, name)
      == Holds(StripTables(manifest, hack, devDeps), section, name)
  {
    hide StripTables, StripTargets, StripFeatures;
  }

  lemma TargetAfter(manifest: Entries, hack: string, devDeps: set<string>, cfg: string)
    ensures TableAt(Stripped(manifest, hack, devDeps), Target(cfg))
      == match TableAt(manifest, Target(cfg)) case None => None case Some(t) => Some(StripTables(t, hack, devDeps))
  {
    SectionsApart(manifest, hack, devDeps);
    hide StripTables, StripFeatures;
  }

  /** In every place and every section, exactly what is taken there is gone. */
  lemma StandsAfter(manifest: Entries, hack: string, devDeps: set<string>, place: Place, section: string, name: string)
    requires IsSection(section)
    ensures Stands(Stripped(manifest, hack, devDeps), place, section, name)
      <==> Stands(manifest, place, section, name) && !Taken(hack, devDeps, section, name)
  {
    hide Stripped, StripTables, Taken, Holds;
    match place
    case Root =>
      RootAfter(manifest, hack, devDeps, section, name);
      HoldsAfter(manifest, hack, devDeps, section, name);
    case Target(cfg) =>
      TargetAfter(manifest, hack, devDeps, cfg);
      if TableAt(manifest, place).Some? { HoldsAfter(TableAt(manifest, place).value, hack, devDeps, section, name); }
  }

  /**
   The hack is left in no dependency table exactly when it stood in no `build-dependencies` table, which
   the rewrite passes over, and in no `dev-dependencies` table either unless it is among the names taken there.
   */
  lemma HackIsGoneExactly(manifest: Entries, hack: string, devDeps: set<string>)
    ensures !IsListed(Stripped(manifest, hack, devDeps), hack) <==>
      forall place :: !Stands(manifest, place, "build-dependencies", hack)
                      && (hack in devDeps || !Stands(manifest, place, "dev-dependencies", hack))
  {
    var after := Stripped(manifest, hack, devDeps);
    hide Stripped, Stands;
    forall place, section | IsSection(section)
      ensures Stands(after, place, section, hack)
        <==> Stands(manifest, place, section, hack) && !Taken(hack, devDeps, section, hack)
    {
      StandsAfter(manifest, hack, devDeps, place, section, hack);
    }
  }

  /** A manifest that needs the hack to build keeps it, and is reported as needing no rewrite. */
  lemma BuildHackStays(hack: string, devDeps: set<string>)
    ensures var manifest: Entries := map["build-dependencies" := Table(map[hack := Other(0)])];
      Stripped(manifest, hack, devDeps) == manifest && IsListed(manifest, hack)
  {
    var manifest: Entries := map["build-dependencies" := Table(map[hack := Other(0)])];
    assert Stands(manifest, Root, "build-dependencies", hack);
  }

  /** Some table keeps the name: one to build with, one no name of which is taken, or one it is not taken from. */
  ghost predicate Stays(manifest: Entries, hack: string, devDeps: set<string>, name: string) {
    exists place ::
      || Stands(manifest, place, "build-dependencies", name)
      || (name != hack && Stands(manifest, place, "dependencies", name))
      || (name !in devDeps && Stands(manifest, place, "dev-dependencies", name))
  }

  lemma ListedAfter(manifest: Entries, hack: string, devDeps: set<string>, name: string)
    ensures IsListed(Stripped(manifest, hack, devDeps), name) <==> Stays(manifest, hack, devDeps, name)
  {
    var after := Stripped(manifest, hack, devDeps);
    hide Stripped, Stands;
    forall place, section | IsSection(section)
      ensures Stands(after, place, section, name)
        <==> Stands(manifest, place, section, name) && !Taken(hack, devDeps, section, name)
    {
      StandsAfter(manifest, hack, devDeps, place, section, name);
    }
  }

  lemma EntriesAfter(manifest: Entries, hack: string, devDeps: set<string>, entry: string)
    ensures IsFeatureEntry(Stripped(manifest, hack, devDeps), entry)
      <==> IsFeatureEntry(manifest, entry) && !NamesDependency(entry, hack)
  {
    var after := Stripped(manifest, hack, devDeps);
    if "features" in manifest && manifest["features"].Table? {
      var old_, new_ := manifest["features"].entries, after["features"].entries;
      assert new_ == StripFeatures(old_, hack);
      forall name | name in old_
        ensures InFeature(new_[name], entry) <==> InFeature(old_[name], entry) && !NamesDependency(entry, hack)
      {
        if old_[name].List? {
          FilterKeeps(old_[name].items, Keeps(hack), Text(entry));
          assert Text(entry) in old_[name].items <==> Text(entry) in multiset(old_[name].items);
          assert Text(entry) in new_[name].items <==> Text(entry) in multiset(new_[name].items);
        }
      }
    }
  }

  /** The rewrite adds no key and loses none at the root, and beside the four it looks into it changes no value. */
  lemma RestStays(manifest: Entries, hack: string, devDeps: set<string>)
    ensures var after := Stripped(manifest, hack, devDeps);
      after.Keys == manifest.Keys
      && forall key :: key in manifest && key !in ["dependencies", "dev-dependencies", "target", "features"] ==>
           after[key] == manifest[key]
  {
    SectionsApart(manifest, hack, devDeps);
    hide StripTables, StripTargets, StripFeatures;
  }

  /** A target keeps what it has beside the two sections, and all its keys. */
  lemma TargetRestStays(manifest: Entries, hack: string, devDeps: set<string>, cfg: string)
    requires TableAt(manifest, Target(cfg)).Some?
    ensures var before := TableAt(manifest, Target(cfg)).value;
      var after := TableAt(Stripped(manifest, hack, devDeps), Target(cfg));
      after.Some? && after.value.Keys == before.Keys
      && forall key :: key in before && key != "dependencies" && key != "dev-dependencies" ==>
        after.value[key] == before[key]
  {
    TargetAfter(manifest, hack, devDeps, cfg);
    SectionsApart(TableAt(manifest, Target(cfg)).value, hack, devDeps);
    hide Stripped, StripTables;
  }

  /** A dependency that is left is specified as it was. */
  lemma SpecsStay(manifest: Entries, hack: string, devDeps: set<string>, place: Place, section: string, name: string)
    requires IsSection(section) && Stands(Stripped(manifest, hack, devDeps), place, section, name)
    ensures Stands(manifest, place, section, name)
      && TableAt(Stripped(manifest, hack, devDeps), place).value[section].entries[name]
         == TableAt(manifest, place).value[section].entries[name]
  {
    StandsAfter(manifest, hack, devDeps, place, section, name);
    match place
    case Root => hide StripTargets, StripFeatures;
    case Target(cfg) =>
      TargetAfter(manifest, hack, devDeps, cfg);
      hide Stripped;
  }

  /** A feature keeps, as often as it has it, every item but the strings that name the hack, and whatever is no list. */
  lemma FeatureAfter(manifest: Entries, hack: string, devDeps: set<string>, feature: string, item: Toml)
    requires "features" in manifest && manifest["features"].Table? && feature in manifest["features"].entries
    ensures var before, after := manifest["features"].entries, Stripped(manifest, hack, devDeps)["features"];
      after.Table? && after.entries.Keys == before.Keys
      && if before[feature].List? then
           after.entries[feature].List?
           && multiset(after.entries[feature].items)[item]
              == if item.Text? && NamesDependency(item.text, hack) then 0 else multiset(before[feature].items)[item]
         else after.entries[feature] == before[feature]
  {
    SectionsApart(manifest, hack, devDeps);
    hide StripTables, StripTargets, NamesDependency;
    var before := manifest["features"].entries;
    assert Stripped(manifest, hack, devDeps)["features"] == Table(StripFeatures(before, hack));
    if before[feature].List? { FilterKeeps(before[feature].items, Keeps(hack), item); }
  }

  /** An entry the filter leaves, and the dependency it names. */
  ghost predicate Leaves(manifest: Entries, hack: string, entry: string, name: string) {
    IsFeatureEntry(manifest, entry) && !NamesDependency(entry, hack) && NamedDependency(entry) == Some(name)
  }

  /**
   Whatever the manifest, its features name only listed dependencies afterwards exactly if what the entries
   left name stays.
   */
  lemma FeaturesListedAfter(manifest: Entries, hack: string, devDeps: set<string>)
    ensures FeaturesListed(Stripped(manifest, hack, devDeps))
      <==> forall entry, name :: Leaves(manifest, hack, entry, name) ==> Stays(manifest, hack, devDeps, name)
  {
    var after := Stripped(manifest, hack, devDeps);
    hide Stripped, IsFeatureEntry, NamesDependency, NamedDependency, IsListed, Stays;
    forall entry
      ensures IsFeatureEntry(after, entry) <==> IsFeatureEntry(manifest, entry) && !NamesDependency(entry, hack)
    {
      EntriesAfter(manifest, hack, devDeps, entry);
    }
    forall name ensures IsListed(after, name) <==> Stays(manifest, hack, devDeps, name) {
      ListedAfter(manifest, hack, devDeps, name);
    }
    if FeaturesListed(after) {
      forall entry, name | Leaves(manifest, hack, entry, name) ensures Stays(manifest, hack, devDeps, name) {
        assert IsFeatureEntry(after, entry);
      }
    }
    if forall entry, name :: Leaves(manifest, hack, entry, name) ==> Stays(manifest, hack, devDeps, name) {
      forall entry | IsFeatureEntry(after, entry) && NamedDependency(entry).Some?
        ensures IsListed(after, NamedDependency(entry).value)
      {
        assert Leaves(manifest, hack, entry, NamedDependency(entry).value);
      }
    }
  }

  /** `name` is a dev-dependency the rewrite takes, and no other kind of dependency. */
  ghost predicate OnlyForTests(manifest: Entries, devDeps: set<string>, name: string) {
    name in devDeps
    && forall place ::
         !Stands(manifest, place, "dependencies", name) && !Stands(manifest, place, "build-dependencies", name)
  }

  /**
   A manifest whose features name only listed dependencies keeps that through the rewrite exactly when no
   entry but the hack's own names a workspace dev-dependency that is no other kind of dependency.
   */
  lemma FeaturesStayListed(manifest: Entries, hack: string, devDeps: set<string>)
    requires FeaturesListed(manifest)
    ensures FeaturesListed(Stripped(manifest, hack, devDeps))
      <==> forall entry, name :: Leaves(manifest, hack, entry, name) ==> !OnlyForTests(manifest, devDeps, name)
  {
    FeaturesListedAfter(manifest, hack, devDeps);
    hide Stripped, IsFeatureEntry, Stands;
    forall entry, name | Leaves(manifest, hack, entry, name)
      ensures Stays(manifest, hack, devDeps, name) <==> !OnlyForTests(manifest, devDeps, name)
    {
      if name == hack { NamedIsDropped(entry, hack); }
      hide NamesDependency, NamedDependency;
      assert IsListed(manifest, name);
      var place, section :| IsSection(section) && Stands(manifest, place, section, name);
    }
  }

  lemma DepHas(entry: string)
    ensures StartsWith(entry, "dep:") ==> |entry| >= 4 && '/' !in entry[..4] && entry[3] == ':'
  {
    if StartsWith(entry, "dep:") { assert entry[..4] == "dep:"; }
  }

  lemma SlashIsNoDep(name: string, feature: string)
    requires IsCrateName(name)
    ensures !StartsWith(name + "/" + feature, "dep:")
  {
    var entry := name + "/" + feature;
    DepHas(entry);
    assert entry[|name|] == '/';
    assert forall i :: 0 <= i < |name| ==> entry[i] in name;
    assert |name| < 4 && |entry| >= 4 ==> entry[..4][|name|] == '/';
  }

  lemma NoDepNoMore(entry: string, rest: string)
    requires !StartsWith(entry, "dep:")
    ensures !StartsWith(entry, "dep:" + rest)
  {
    assert ("dep:" + rest)[..4] == "dep:";
  }

  /** An entry that turns on a feature of a crate is that crate's, and no other's. */
  lemma SlashNames(name: string, feature: string, hack: string)
    requires IsCrateName(name) && IsCrateName(hack) && name != hack
    ensures var entry := name + "/" + feature;
      NamedDependency(entry) == Some(name) && !NamesDependency(entry, hack)
  {
    hide NamedDependency, NamesDependency;
    var entry := name + "/" + feature;
    SlashIsNoDep(name, feature);
    assert name + "" + "/" == name + "/" == entry[..|name| + 1];
    HeadNames(entry, name, "");
    DropsExactly(entry, hack);
    assert entry[|name|] == '/' && '/' !in hack;
    NoDepNoMore(entry, hack + "/");
    NoDepNoMore(entry, hack + "?/");
    assert "dep:" + hack + "/" == "dep:" + (hack + "/") && "dep:" + hack + "?/" == "dep:" + (hack + "?/");
  }

  /** One test helper under `dev-dependencies`, and a feature that turns on one of its features. */
  function WithTestFeature(test: string, entry: string): Entries {
    map["dev-dependencies" := Table(map[test := Other(0)]), "features" := Table(map["flash" := List([Text(entry)])])]
  }

  lemma OnlyTestFeature(test: string, entry: string, e: string)
    ensures IsFeatureEntry(WithTestFeature(test, entry), e) <==> e == entry
  {
    assert InFeature(WithTestFeature(test, entry)["features"].entries["flash"], entry);
  }

  /** A feature that turns on a feature of a workspace test helper is left naming a dependency that is gone. */
  lemma TestFeatureDangles(test: string, feature: string, hack: string)
    requires IsCrateName(test) && IsCrateName(hack) && test != hack
    ensures var manifest := WithTestFeature(test, test + "/" + feature);
      FeaturesListed(manifest) && !FeaturesListed(Stripped(manifest, hack, {test}))
  {
    var entry := test + "/" + feature;
    var manifest := WithTestFeature(test, entry);
    SlashNames(test, feature, hack);
    forall e ensures IsFeatureEntry(manifest, e) <==> e == entry { OnlyTestFeature(test, entry, e); }
    assert Stands(manifest, Root, "dev-dependencies", test);
    assert OnlyForTests(manifest, {test}, test);
    hide IsFeatureEntry, NamedDependency, NamesDependency, Stripped, Stands, OnlyForTests;
    assert FeaturesListed(manifest);
    FeaturesStayListed(manifest, hack, {test});
    assert Leaves(manifest, hack, entry, test);
  }
}
