/** The registry of plugin DDL: one entry per table constraint and per free-form
    migration, ordered by plugin and version and run in that order. */
module PluginMigrations {
  import opened Options
  import opened JsWhitespace
  import opened TableSchema
  import TenantReferences

  datatype Action = AddConstraint(table: Table, constraint: Constraint) | RunSql(sql: string)
  datatype Entry = Entry(plugin: string, version: string, action: Action)
  datatype Migration = Migration(version: string, sql: string)
  datatype Plugin = Plugin(name: string, migrations: seq<Migration>)

  const COMPILER := "osf-compiler"

  // ---------- order ----------

  /** `localeCompare` as an abstract total order on strings. */
  datatype Collation = Collation(compare: (string, string) -> int)

  ghost predicate IsOrder(c: Collation) {
    && (forall a, b :: c.compare(a, b) == 0 <==> a == b)
    && (forall a, b :: c.compare(a, b) < 0 <==> c.compare(b, a) > 0)
    && (forall a, b, d :: c.compare(a, b) < 0 && c.compare(b, d) < 0 ==> c.compare(a, d) < 0)
  }

  function CompareIdentity(c: Collation, plugin: string, version: string, plugin': string, version': string): int {
    if c.compare(plugin, plugin') != 0 then c.compare(plugin, plugin') else c.compare(version, version')
  }

  function Compare(c: Collation, a: Entry, b: Entry): int {
    CompareIdentity(c, a.plugin, a.version, b.plugin, b.version)
  }

  ghost predicate Sorted(c: Collation, es: seq<Entry>) {
    forall i, j :: 0 <= i < j < |es| ==> Compare(c, es[i], es[j]) <= 0
  }

  function Insert(c: Collation, e: Entry, es: seq<Entry>): seq<Entry> {
    if es == [] then [e]
    else if Compare(c, e, es[0]) <= 0 then [e] + es
    else [es[0]] + Insert(c, e, es[1..])
  }

  /** Stable sort by plugin, then version. */
  function Sort(c: Collation, es: seq<Entry>): seq<Entry> {
    if es == [] then [] else Insert(c, es[0], Sort(c, es[1..]))
  }

  lemma CompareTransitive(c: Collation, a: Entry, b: Entry, d: Entry)
    requires IsOrder(c) && Compare(c, a, b) <= 0 && Compare(c, b, d) <= 0
    ensures Compare(c, a, d) <= 0
  {
  }

  lemma {:induction false} InsertPermutes(c: Collation, e: Entry, es: seq<Entry>)
    ensures multiset(Insert(c, e, es)) == multiset(es) + multiset{e}
  {
    if es != [] && Compare(c, e, es[0]) > 0 {
      InsertPermutes(c, e, es[1..]);
      assert es == [es[0]] + es[1..];
    }
  }

  lemma {:induction false} InsertSorted(c: Collation, e: Entry, es: seq<Entry>)
    requires IsOrder(c) && Sorted(c, es)
    ensures Sorted(c, Insert(c, e, es))
  {
    if es == [] {
    } else if Compare(c, e, es[0]) <= 0 {
      forall j | 0 <= j < |es| ensures Compare(c, e, es[j]) <= 0 {
        if j > 0 { CompareTransitive(c, e, es[0], es[j]); }
      }
    } else {
      var rest := Insert(c, e, es[1..]);
      InsertSorted(c, e, es[1..]);
      InsertPermutes(c, e, es[1..]);
      forall j | 0 <= j < |rest| ensures Compare(c, es[0], rest[j]) <= 0 {
        assert rest[j] in multiset(rest);
        assert rest[j] == e || rest[j] in es[1..];
      }
    }
  }

  lemma NothingSorted(c: Collation)
    ensures Sorted(c, [])
  {
  }

  lemma {:induction false} SortSorts(c: Collation, es: seq<Entry>)
    requires IsOrder(c)
    ensures Sorted(c, Sort(c, es)) && multiset(Sort(c, es)) == multiset(es)
  {
    hide Insert, Sorted, IsOrder, Compare;
    if es == [] {
      assert Sorted(c, Sort(c, es)) by { NothingSorted(c); }
    } else {
      SortSorts(c, es[1..]);
      InsertSorted(c, es[0], Sort(c, es[1..]));
      InsertPermutes(c, es[0], Sort(c, es[1..]));
      assert es == [es[0]] + es[1..];
    }
  }

  // ---------- manifest checks ----------

  predicate IsKey(c: Constraint) { c.kind == PrimaryKey || c.kind == Unique }

  function KeyColumns(columns: seq<Column>): seq<string> {
    if columns == [] then []
    else (if columns[0].primaryKey then [columns[0].name] else []) + KeyColumns(columns[1..])
  }

  predicate HasUniqueIndex(t: Table, columns: seq<string>) {
    exists i :: 0 <= i < |t.indexes| && t.indexes[i].unique && t.indexes[i].columns == columns
  }

  /** What the check takes for a key of the generated schema: partial indexes are not told apart. */
  predicate ImmediatelyUnique(t: Table, columns: seq<string>) {
    KeyColumns(t.columns) == columns || HasUniqueIndex(t, columns)
  }

  /** The first key constraint on exactly these columns. */
  function FirstKey(constraints: seq<Constraint>, columns: seq<string>): Option<Constraint> {
    if constraints == [] then None
    else if IsKey(constraints[0]) && constraints[0].columns == columns then Some(constraints[0])
    else FirstKey(constraints[1..], columns)
  }

  predicate Owned(t: Table) { t.pluginOwner.Some? && t.pluginOwner.value != "" }

  predicate HasColumns(t: Table, names: seq<string>) {
    forall i :: 0 <= i < |names| ==> exists k :: 0 <= k < |t.columns| && t.columns[k].name == names[i]
  }

  /** One foreign key passes the target check. */
  predicate TargetOk(c: Collation, tables: seq<Table>, t: Table, fk: Constraint)
    requires fk.kind.ForeignKey?
  {
    var target := Lookup(tables, Qualified(fk.kind.schema, fk.kind.table));
    && target.Some? && HasColumns(target.value, fk.kind.target)
    && (ImmediatelyUnique(target.value, fk.kind.target) ||
        var key := FirstKey(target.value.constraints, fk.kind.target);
        key.Some? && (Owned(t) && Owned(target.value) ==>
          CompareIdentity(c, target.value.pluginOwner.value, key.value.version, t.pluginOwner.value, fk.version) < 0))
  }

  predicate TargetsOk(c: Collation, tables: seq<Table>, t: Table, constraints: seq<Constraint>) {
    forall k :: 0 <= k < |constraints| && constraints[k].kind.ForeignKey? ==> TargetOk(c, tables, t, constraints[k])
  }

  /** Every foreign key has a known target with a key that is ordered before it. */
  method AssertForeignKeyTargets(c: Collation, tables: seq<Table>) returns (ok: bool)
    ensures ok <==> forall i :: 0 <= i < |tables| ==> TargetsOk(c, tables, tables[i], tables[i].constraints)
  {
    for i := 0 to |tables|
      invariant forall n :: 0 <= n < i ==> TargetsOk(c, tables, tables[n], tables[n].constraints)
    {
      var t := tables[i];
      for k := 0 to |t.constraints|
        invariant TargetsOk(c, tables, t, t.constraints[..k])
      {
        var fk := t.constraints[k];
        if fk.kind.ForeignKey? && !TargetOk(c, tables, t, fk) { return false; }
      }
      assert t.constraints[..|t.constraints|] == t.constraints;
    }
    return true;
  }

  // ---------- relation names ----------

  datatype Relation = Relation(schema: string, name: string)

  function TableRelations(t: Table): set<Relation> {
    {Relation(t.schema, t.name)} + set i | 0 <= i < |t.indexes| :: Relation(t.schema, t.indexes[i].name)
  }

  function Relations(tables: seq<Table>): set<Relation> {
    if tables == [] then {} else Relations(tables[..|tables| - 1]) + TableRelations(tables[|tables| - 1])
  }

  /** Names of the backing indexes of key constraints, in order. */
  function KeyRelations(schema: string, constraints: seq<Constraint>): seq<Relation> {
    if constraints == [] then []
    else
      var last := constraints[|constraints| - 1];
      KeyRelations(schema, constraints[..|constraints| - 1])
        + (if IsKey(last) then [Relation(schema, last.name)] else [])
  }

  function AllKeyRelations(tables: seq<Table>): seq<Relation> {
    if tables == [] then []
    else
      var last := tables[|tables| - 1];
      AllKeyRelations(tables[..|tables| - 1]) + KeyRelations(last.schema, last.constraints)
  }

  function PrimaryKeys(constraints: seq<Constraint>): nat {
    if constraints == [] then 0
    else
      var last := constraints[|constraints| - 1];
      PrimaryKeys(constraints[..|constraints| - 1]) + if last.kind == PrimaryKey then 1 else 0
  }

  predicate OnePrimaryKey(t: Table) {
    (if exists i :: 0 <= i < |t.columns| && t.columns[i].primaryKey then 1 else 0) + PrimaryKeys(t.constraints) <= 1
  }

  ghost predicate Distinct(names: seq<Relation>) {
    forall i, j :: 0 <= i < j < |names| ==> names[i] != names[j]
  }

  /** Backing indexes are new names, each used once, and no table has two primary keys. */
  ghost predicate RelationsOk(tables: seq<Table>) {
    && (forall i :: 0 <= i < |tables| ==> OnePrimaryKey(tables[i]))
    && Distinct(AllKeyRelations(tables))
    && forall i :: 0 <= i < |AllKeyRelations(tables)| ==> AllKeyRelations(tables)[i] !in Relations(tables)
  }

  ghost predicate Fresh(names: seq<Relation>, taken: set<Relation>) {
    Distinct(names) && forall i :: 0 <= i < |names| ==> names[i] !in taken
  }

  lemma FreshPrefix(a: seq<Relation>, b: seq<Relation>, taken: set<Relation>)
    requires Fresh(a + b, taken)
    ensures Fresh(a, taken)
  {
    assert forall i :: 0 <= i < |a| ==> (a + b)[i] == a[i];
  }

  lemma {:induction false} KeyRelationsPrefix(tables: seq<Table>, i: nat, k: nat) returns (rest: seq<Relation>)
    requires i < |tables| && k <= |tables[i].constraints|
    ensures AllKeyRelations(tables)
      == AllKeyRelations(tables[..i]) + KeyRelations(tables[i].schema, tables[i].constraints[..k]) + rest
  {
    hide KeyRelations;
    var t := tables[|tables| - 1];
    if i == |tables| - 1 {
      rest := KeyRelationsSplit(t.schema, t.constraints, k);
    } else {
      var front := tables[..|tables| - 1];
      var more := KeyRelationsPrefix(front, i, k);
      assert front[..i] == tables[..i];
      rest := more + KeyRelations(t.schema, t.constraints);
    }
  }

  lemma {:induction false} KeyRelationsSplit(schema: string, constraints: seq<Constraint>, k: nat)
    returns (more: seq<Relation>)
    requires k <= |constraints|
    ensures KeyRelations(schema, constraints) == KeyRelations(schema, constraints[..k]) + more
  {
    if k == |constraints| {
      assert constraints[..k] == constraints;
      more := [];
    } else {
      var front, last := constraints[..|constraints| - 1], constraints[|constraints| - 1];
      more := KeyRelationsSplit(schema, front, k);
      assert front[..k] == constraints[..k];
      more := more + if IsKey(last) then [Relation(schema, last.name)] else [];
    }
  }

  lemma FreshExtends(names: seq<Relation>, r: Relation, taken: set<Relation>)
    requires Fresh(names, taken)
    ensures Fresh(names + [r], taken) <==> r !in taken && r !in names
  {
    var longer := names + [r];
    assert longer[|names|] == r;
    if r in names {
      var n :| 0 <= n < |names| && names[n] == r;
      assert longer[n] == r;
    }
  }

  /** Claims one table's backing index names; stops at the first clash. */
  method ClaimKeys(t: Table, taken: set<Relation>, used: set<Relation>, ghost names: seq<Relation>)
    returns (ok: bool, used': set<Relation>, k: nat)
    requires Fresh(names, taken) && used == set r | r in names
    ensures ok ==> Fresh(names + KeyRelations(t.schema, t.constraints), taken)
    ensures ok ==> used' == set r | r in names + KeyRelations(t.schema, t.constraints)
    ensures !ok ==> k < |t.constraints| && !Fresh(names + KeyRelations(t.schema, t.constraints[..k + 1]), taken)
  {
    hide Fresh;
    used', k := used, 0;
    assert names + [] == names;
    while k < |t.constraints|
      invariant k <= |t.constraints|
      invariant Fresh(names + KeyRelations(t.schema, t.constraints[..k]), taken)
      invariant used' == set r | r in names + KeyRelations(t.schema, t.constraints[..k])
    {
      ghost var claimed := names + KeyRelations(t.schema, t.constraints[..k]);
      assert t.constraints[..k + 1][..k] == t.constraints[..k];
      var c := t.constraints[k];
      if IsKey(c) {
        var r := Relation(t.schema, c.name);
        FreshExtends(claimed, r, taken);
        assert names + KeyRelations(t.schema, t.constraints[..k + 1]) == claimed + [r];
        if r in taken || r in used' { return false, used', k; }
        used' := used' + {r};
      } else {
        assert names + KeyRelations(t.schema, t.constraints[..k + 1]) == claimed;
      }
      k := k + 1;
    }
    assert t.constraints[..|t.constraints|] == t.constraints;
    return true, used', k;
  }

  lemma ClashIsFinal(tables: seq<Table>, i: nat, k: nat, taken: set<Relation>)
    requires i < |tables| && k <= |tables[i].constraints|
    requires !Fresh(AllKeyRelations(tables[..i]) + KeyRelations(tables[i].schema, tables[i].constraints[..k]), taken)
    ensures !Fresh(AllKeyRelations(tables), taken)
  {
    var rest := KeyRelationsPrefix(tables, i, k);
    var claimed := AllKeyRelations(tables[..i]) + KeyRelations(tables[i].schema, tables[i].constraints[..k]);
    if Fresh(AllKeyRelations(tables), taken) { FreshPrefix(claimed, rest, taken); }
  }

  method CollectRelations(tables: seq<Table>) returns (taken: set<Relation>)
    ensures taken == Relations(tables)
  {
    taken := {};
    for i := 0 to |tables|
      invariant taken == Relations(tables[..i])
    {
      assert tables[..i + 1][..i] == tables[..i];
      taken := taken + TableRelations(tables[i]);
    }
    assert tables[..|tables|] == tables;
  }

  lemma NextTable(tables: seq<Table>, i: nat)
    requires i < |tables|
    ensures AllKeyRelations(tables[..i + 1])
      == AllKeyRelations(tables[..i]) + KeyRelations(tables[i].schema, tables[i].constraints)
  {
    assert tables[..i + 1][..i] == tables[..i];
  }

  /** The name check, table by table, filling the map of taken names. */
  method AssertConstraintRelations(tables: seq<Table>) returns (ok: bool)
    ensures ok <==> RelationsOk(tables)
  {
    hide OnePrimaryKey, Fresh, RelationsOk, Relations, AllKeyRelations, KeyRelations;
    var taken := CollectRelations(tables);
    RelationsOkMeans(tables);
    var used: set<Relation> := {};
    NothingClaimed(tables, taken);
    for i := 0 to |tables|
      invariant forall n :: 0 <= n < i ==> OnePrimaryKey(tables[n])
      invariant Fresh(AllKeyRelations(tables[..i]), taken)
      invariant used == set r | r in AllKeyRelations(tables[..i])
    {
      NextTable(tables, i);
      if !OnePrimaryKey(tables[i]) { return false; }
      var k;
      ok, used, k := ClaimKeys(tables[i], taken, used, AllKeyRelations(tables[..i]));
      if !ok {
        ClashIsFinal(tables, i, k + 1, taken);
        return false;
      }
    }
    assert tables[..|tables|] == tables;
    return true;
  }

  lemma NothingClaimed(tables: seq<Table>, taken: set<Relation>)
    ensures AllKeyRelations(tables[..0]) == [] && Fresh([], taken)
  {
  }

  lemma RelationsOkMeans(tables: seq<Table>)
    ensures RelationsOk(tables) <==>
      (forall i :: 0 <= i < |tables| ==> OnePrimaryKey(tables[i])) && Fresh(AllKeyRelations(tables), Relations(tables))
  {
  }

  // ---------- the registry ----------

  predicate Lowercase(ch: char) { 'a' <= ch <= 'z' }

  predicate Digit(ch: char) { '0' <= ch <= '9' }

  predicate KebabTail(s: string) {
    forall i :: 0 <= i < |s| ==> Lowercase(s[i]) || Digit(s[i]) || s[i] == '-'
  }

  predicate PluginName(s: string) { s != "" && Lowercase(s[0]) && KebabTail(s) }

  predicate MigrationVersion(s: string) {
    && |s| >= 6 && (forall i :: 0 <= i < 4 ==> Digit(s[i])) && s[4] == '_' && s[5] != '-' && KebabTail(s[5..])
  }

  datatype Failure = RelationClash | BadTarget | UnboundTenant | DuplicateConstraint | NoOwner | BadIdentity
    | NotRendered | EmptySql | DuplicateEntry
  datatype Result<+T> = Ok(value: T) | Err(failure: Failure)

  /** Who runs a constraint's entry. */
  function Runner(t: Table, c: Constraint): Option<string> {
    if c.compilerOwned then Some(COMPILER) else if Owned(t) then t.pluginOwner else None
  }

  function RunnerName(t: Table, c: Constraint): string { if Runner(t, c).Some? then Runner(t, c).value else "" }

  function ConstraintEntry(t: Table, c: Constraint): Entry {
    Entry(RunnerName(t, c), c.version, AddConstraint(t, c))
  }

  function ConstraintEntries(t: Table, constraints: seq<Constraint>): seq<Entry> {
    seq(|constraints|, i requires 0 <= i < |constraints| => ConstraintEntry(t, constraints[i]))
  }

  function TableEntries(tables: seq<Table>): seq<Entry> {
    if tables == [] then []
    else
      var last := tables[|tables| - 1];
      TableEntries(tables[..|tables| - 1]) + ConstraintEntries(last, last.constraints)
  }

  function Text(sql: string): string { if sql != "" && sql[|sql| - 1] == '\n' then sql else sql + "\n" }

  function MigrationEntries(plugin: string, migrations: seq<Migration>): seq<Entry> {
    seq(|migrations|, i requires 0 <= i < |migrations| => Entry(plugin, migrations[i].version,
      RunSql(Text(migrations[i].sql))))
  }

  function PluginEntries(plugins: seq<Plugin>): seq<Entry> {
    if plugins == [] then []
    else
      var last := plugins[|plugins| - 1];
      PluginEntries(plugins[..|plugins| - 1]) + MigrationEntries(last.name, last.migrations)
  }

  function DocumentEntries(documentSql: Option<string>): seq<Entry> {
    if documentSql in {None, Some("")} then []
    else [Entry(COMPILER, "9999_document-field-policies", RunSql(documentSql.value))]
  }

  function AllEntries(tables: seq<Table>, plugins: seq<Plugin>, documentSql: Option<string>): seq<Entry> {
    TableEntries(tables) + PluginEntries(plugins) + DocumentEntries(documentSql)
  }

  function Identity(e: Entry): string { e.plugin + ":" + e.version }

  ghost predicate DistinctIdentities(es: seq<Entry>) {
    forall i, j :: 0 <= i < j < |es| ==> Identity(es[i]) != Identity(es[j])
  }

  /** What a registry that builds has passed. */
  ghost predicate Built(c: Collation, tables: seq<Table>, plugins: seq<Plugin>, documentSql: Option<string>,
      es: seq<Entry>) {
    && RelationsOk(tables)
    && (forall i :: 0 <= i < |tables| ==> TargetsOk(c, tables, tables[i], tables[i].constraints))
    && TenantReferences.Accepted(tables)
    && es == Sort(c, AllEntries(tables, plugins, documentSql))
    && DistinctIdentities(es)
  }

  /** Whether a constraint's statement can be rendered: an input here. */
  type Renderer = (Table, Constraint) -> bool

  /** Every constraint has a runner, a well-formed identity and a name of its own, and is rendered. */
  predicate ConstraintsOk(renders: Renderer, t: Table, n: nat)
    requires n <= |t.constraints|
  {
    && (forall k :: 0 <= k < n ==> RunnerOk(t, t.constraints[k]) && renders(t, t.constraints[k]))
    && forall k, l :: 0 <= k < l < n ==> t.constraints[k].name != t.constraints[l].name
  }

  predicate RunnerOk(t: Table, c: Constraint) {
    Runner(t, c).Some? && PluginName(Runner(t, c).value) && MigrationVersion(c.version)
  }

  predicate MigrationOk(p: Plugin, m: Migration) { PluginName(p.name) && MigrationVersion(m.version) && !Blank(m.sql) }

  predicate MigrationsOk(p: Plugin) { forall k :: 0 <= k < |p.migrations| ==> MigrationOk(p, p.migrations[k]) }

  /** What a manifest and its plugins must meet for a registry to build. */
  ghost predicate Buildable(c: Collation, renders: Renderer, tables: seq<Table>, plugins: seq<Plugin>,
      documentSql: Option<string>) {
    && Built(c, tables, plugins, documentSql, Sort(c, AllEntries(tables, plugins, documentSql)))
    && (forall i :: 0 <= i < |tables| ==> ConstraintsOk(renders, tables[i], |tables[i].constraints|))
    && forall i :: 0 <= i < |plugins| ==> MigrationsOk(plugins[i])
  }

  method CollectConstraints(renders: Renderer, t: Table) returns (r: Result<seq<Entry>>)
    ensures r.Ok? <==> ConstraintsOk(renders, t, |t.constraints|)
    ensures r.Ok? ==> r.value == ConstraintEntries(t, t.constraints)
  {
    var entries: seq<Entry> := [];
    var names: set<string> := {};
    for k := 0 to |t.constraints|
      invariant entries == ConstraintEntries(t, t.constraints[..k])
      invariant names == set i | 0 <= i < k :: t.constraints[i].name
      invariant ConstraintsOk(renders, t, k)
    {
      var c := t.constraints[k];
      if c.name in names { return Err(DuplicateConstraint); }
      names := names + {c.name};
      var plugin := Runner(t, c);
      if plugin.None? {
        assert !RunnerOk(t, t.constraints[k]);
        return Err(NoOwner);
      }
      if !PluginName(plugin.value) || !MigrationVersion(c.version) {
        assert !RunnerOk(t, t.constraints[k]);
        return Err(BadIdentity);
      }
      if !renders(t, c) {
        assert !renders(t, t.constraints[k]);
        return Err(NotRendered);
      }
      entries := entries + [Entry(plugin.value, c.version, AddConstraint(t, c))];
    }
    assert t.constraints[..|t.constraints|] == t.constraints;
    return Ok(entries);
  }

  method CollectMigrations(p: Plugin) returns (r: Result<seq<Entry>>)
    ensures r.Ok? <==> MigrationsOk(p)
    ensures r.Ok? ==> r.value == MigrationEntries(p.name, p.migrations)
  {
    var entries: seq<Entry> := [];
    for k := 0 to |p.migrations|
      invariant entries == MigrationEntries(p.name, p.migrations[..k])
      invariant forall i :: 0 <= i < k ==> MigrationOk(p, p.migrations[i])
    {
      var m := p.migrations[k];
      if !PluginName(p.name) || !MigrationVersion(m.version) { return Err(BadIdentity); }
      if Blank(m.sql) { return Err(EmptySql); }
      entries := entries + [Entry(p.name, m.version, RunSql(Text(m.sql)))];
    }
    assert p.migrations[..|p.migrations|] == p.migrations;
    return Ok(entries);
  }

  method CollectTables(renders: Renderer, tables: seq<Table>) returns (r: Result<seq<Entry>>)
    ensures r.Ok? <==> forall i :: 0 <= i < |tables| ==> ConstraintsOk(renders, tables[i], |tables[i].constraints|)
    ensures r.Ok? ==> r.value == TableEntries(tables)
  {
    hide ConstraintsOk;
    var entries: seq<Entry> := [];
    for i := 0 to |tables|
      invariant entries == TableEntries(tables[..i])
      invariant forall k :: 0 <= k < i ==> ConstraintsOk(renders, tables[k], |tables[k].constraints|)
    {
      assert tables[..i + 1][..i] == tables[..i];
      var more := CollectConstraints(renders, tables[i]);
      if more.Err? { return more; }
      entries := entries + more.value;
    }
    assert tables[..|tables|] == tables;
    r := Ok(entries);
  }

  method CollectPlugins(plugins: seq<Plugin>) returns (r: Result<seq<Entry>>)
    ensures r.Ok? <==> forall i :: 0 <= i < |plugins| ==> MigrationsOk(plugins[i])
    ensures r.Ok? ==> r.value == PluginEntries(plugins)
  {
    hide MigrationsOk;
    var entries: seq<Entry> := [];
    for i := 0 to |plugins|
      invariant entries == PluginEntries(plugins[..i])
      invariant forall k :: 0 <= k < i ==> MigrationsOk(plugins[k])
    {
      assert plugins[..i + 1][..i] == plugins[..i];
      var more := CollectMigrations(plugins[i]);
      if more.Err? { return more; }
      entries := entries + more.value;
    }
    assert plugins[..|plugins|] == plugins;
    r := Ok(entries);
  }

  method IdentitiesDiffer(entries: seq<Entry>) returns (ok: bool)
    ensures ok <==> DistinctIdentities(entries)
  {
    var seen: set<string> := {};
    for i := 0 to |entries|
      invariant seen == set k | 0 <= k < i :: Identity(entries[k])
      invariant DistinctIdentities(entries[..i])
    {
      if Identity(entries[i]) in seen {
        var k :| 0 <= k < i && Identity(entries[k]) == Identity(entries[i]);
        return false;
      }
      seen := seen + {Identity(entries[i])};
    }
    assert entries[..|entries|] == entries;
    return true;
  }

  /** Builds the registry exactly when it may be built: checks, entries, sort, and one entry
      per identity. */
  method CollectRegistry(c: Collation, renders: Renderer, tables: seq<Table>, plugins: seq<Plugin>,
      documentSql: Option<string>)
    returns (r: Result<seq<Entry>>)
    ensures r.Ok? <==> Buildable(c, renders, tables, plugins, documentSql)
    ensures r.Ok? ==> Built(c, tables, plugins, documentSql, r.value)
  {
    hide RelationsOk, TargetsOk, Sort, MigrationsOk, ConstraintsOk, DistinctIdentities, TableEntries, PluginEntries,
      DocumentEntries;
    var related := AssertConstraintRelations(tables);
    if !related { return Err(RelationClash); }
    var targeted := AssertForeignKeyTargets(c, tables);
    if !targeted { return Err(BadTarget); }
    var bound := TenantReferences.AssertTenantBoundReferences(tables);
    if !bound { return Err(UnboundTenant); }
    var constraints := CollectTables(renders, tables);
    if constraints.Err? { return constraints; }
    var migrations := CollectPlugins(plugins);
    if migrations.Err? { return migrations; }
    var entries := Sort(c, constraints.value + migrations.value + DocumentEntries(documentSql));
    var distinct := IdentitiesDiffer(entries);
    r := if distinct then Ok(entries) else Err(DuplicateEntry);
  }

  // ---------- running the registry ----------

  /** A key that exists: a qualified table and exactly its columns. */
  datatype Key = Key(table: string, columns: seq<string>)

  predicate Partial(index: Index) { index.where.Some? && index.where.value != "" }

  predicate HasWholeUniqueIndex(t: Table, columns: seq<string>) {
    exists i :: 0 <= i < |t.indexes| && t.indexes[i].unique && !Partial(t.indexes[i]) && t.indexes[i].columns == columns
  }

  /** What a foreign key can refer to in the generated schema: the primary key, or a unique
      index over all rows. */
  predicate GeneratedKey(t: Table, columns: seq<string>) {
    columns != [] && (KeyColumns(t.columns) == columns || HasWholeUniqueIndex(t, columns))
  }

  /** Keys after the generated schema. */
  ghost predicate GeneratedAt(tables: seq<Table>, k: Key) {
    exists i :: 0 <= i < |tables| && Name(tables[i]) == k.table && GeneratedKey(tables[i], k.columns)
  }

  predicate Adds(e: Entry, k: Key) {
    e.action.AddConstraint? && IsKey(e.action.constraint) && Name(e.action.table) == k.table
      && e.action.constraint.columns == k.columns
  }

  /** The keys that exist after running the first `n` entries. */
  ghost predicate Exists(tables: seq<Table>, es: seq<Entry>, n: nat, k: Key)
    requires n <= |es|
  {
    GeneratedAt(tables, k) || exists i :: 0 <= i < n && Adds(es[i], k)
  }

  lemma {:induction false} FirstKeyFinds(constraints: seq<Constraint>, columns: seq<string>)
    ensures FirstKey(constraints, columns).Some? ==>
      FirstKey(constraints, columns).value in constraints && IsKey(FirstKey(constraints, columns).value)
      && FirstKey(constraints, columns).value.columns == columns
  {
    if constraints != [] && !(IsKey(constraints[0]) && constraints[0].columns == columns) {
      FirstKeyFinds(constraints[1..], columns);
    }
  }

  lemma {:induction false} EntryListed(tables: seq<Table>, t: Table, c: Constraint)
    requires t in tables && c in t.constraints
    ensures ConstraintEntry(t, c) in TableEntries(tables)
  {
    var last := tables[|tables| - 1];
    if t == last {
      var k :| 0 <= k < |t.constraints| && t.constraints[k] == c;
      assert ConstraintEntries(t, t.constraints)[k] == ConstraintEntry(t, c);
    } else {
      EntryListed(tables[..|tables| - 1], t, c);
    }
  }

  /** A constraint's entry in the built registry. */
  lemma EntryAt(c: Collation, tables: seq<Table>, plugins: seq<Plugin>, documentSql: Option<string>, es: seq<Entry>,
      t: Table, k: Constraint)
    returns (i: nat)
    requires IsOrder(c) && Built(c, tables, plugins, documentSql, es) && t in tables && k in t.constraints
    ensures i < |es| && es[i] == ConstraintEntry(t, k)
  {
    EntryListed(tables, t, k);
    var all := AllEntries(tables, plugins, documentSql);
    SortSorts(c, all);
    assert ConstraintEntry(t, k) in all;
    assert ConstraintEntry(t, k) in multiset(es);
    i :| 0 <= i < |es| && es[i] == ConstraintEntry(t, k);
  }

  /** In a built registry an entry comes strictly earlier exactly when its identity does. */
  lemma EarlierIffOrdered(c: Collation, tables: seq<Table>, plugins: seq<Plugin>, documentSql: Option<string>,
      es: seq<Entry>, i: nat, j: nat)
    requires IsOrder(c) && Built(c, tables, plugins, documentSql, es) && i < |es| && j < |es|
    ensures i < j <==> Compare(c, es[i], es[j]) < 0
  {
    SortSorts(c, AllEntries(tables, plugins, documentSql));
    if Compare(c, es[i], es[j]) == 0 { assert Identity(es[i]) == Identity(es[j]); }
  }

  /** The foreign key's target, as the check resolves it. */
  function Target(tables: seq<Table>, fk: Constraint): Option<Table>
    requires fk.kind.ForeignKey?
  {
    Lookup(tables, Qualified(fk.kind.schema, fk.kind.table))
  }

  /** Between plugin-owned tables, neither constraint run by the compiler. */
  ghost predicate PluginToPlugin(tables: seq<Table>, t: Table, fk: Constraint)
    requires fk.kind.ForeignKey?
  {
    && Owned(t) && !fk.compilerOwned && Target(tables, fk).Some? && Owned(Target(tables, fk).value)
    && (FirstKey(Target(tables, fk).value.constraints, fk.kind.target).Some? ==>
          !FirstKey(Target(tables, fk).value.constraints, fk.kind.target).value.compilerOwned)
  }

  // ---------- when a key exists ----------

  /** A constraint entry is the entry of a declared constraint. */
  lemma {:induction false} EntryIsDeclared(tables: seq<Table>, e: Entry)
    requires e in TableEntries(tables)
    ensures exists u, key :: u in tables && key in u.constraints && e == ConstraintEntry(u, key)
  {
    var last := tables[|tables| - 1];
    if e in ConstraintEntries(last, last.constraints) {
      var k :| 0 <= k < |last.constraints| && ConstraintEntry(last, last.constraints[k]) == e;
      assert last in tables && last.constraints[k] in last.constraints;
    } else {
      EntryIsDeclared(tables[..|tables| - 1], e);
    }
  }

  lemma {:induction false} PluginEntriesRunSql(plugins: seq<Plugin>, e: Entry)
    requires e in PluginEntries(plugins)
    ensures e.action.RunSql?
  {
    var last := plugins[|plugins| - 1];
    if e !in MigrationEntries(last.name, last.migrations) { PluginEntriesRunSql(plugins[..|plugins| - 1], e); }
  }

  lemma AddedIsDeclared(c: Collation, tables: seq<Table>, plugins: seq<Plugin>, documentSql: Option<string>,
      es: seq<Entry>, i: nat)
    requires IsOrder(c) && Built(c, tables, plugins, documentSql, es) && i < |es| && es[i].action.AddConstraint?
    ensures var u, key := es[i].action.table, es[i].action.constraint;
      u in tables && key in u.constraints && es[i] == ConstraintEntry(u, key)
  {
    hide RelationsOk, TargetsOk, Sort, Sorted, IsOrder;
    var all := AllEntries(tables, plugins, documentSql);
    SortSorts(c, all);
    assert es[i] in multiset(all);
    if es[i] in PluginEntries(plugins) { PluginEntriesRunSql(plugins, es[i]); }
    EntryIsDeclared(tables, es[i]);
  }

  /** A declared key on exactly these columns whose runner and version come before the constraint's. */
  predicate EarlierKey(c: Collation, tables: seq<Table>, t: Table, fk: Constraint, k: Key, u: Table, key: Constraint) {
    && u in tables && key in u.constraints && IsKey(key) && Name(u) == k.table && key.columns == k.columns
    && CompareIdentity(c, RunnerName(u, key), key.version, RunnerName(t, fk), fk.version) < 0
  }

  /** When a constraint's entry is about to run, a key exists exactly if the generated schema
      has it or a declared key on its columns has a smaller runner and version. */
  lemma KeyExistsIff(c: Collation, tables: seq<Table>, plugins: seq<Plugin>, documentSql: Option<string>,
      es: seq<Entry>,
      t: Table, fk: Constraint, n: nat, k: Key)
    requires IsOrder(c) && Built(c, tables, plugins, documentSql, es) && n < |es| && es[n] == ConstraintEntry(t, fk)
    ensures Exists(tables, es, n, k) <==>
      GeneratedAt(tables, k) || exists u, key :: EarlierKey(c, tables, t, fk, k, u, key)
  {
    hide Built, IsOrder, GeneratedAt;
    if i :| 0 <= i < n && Adds(es[i], k) {
      AddedIsDeclared(c, tables, plugins, documentSql, es, i);
      EarlierIffOrdered(c, tables, plugins, documentSql, es, i, n);
      assert EarlierKey(c, tables, t, fk, k, es[i].action.table, es[i].action.constraint);
    }
    if u, key :| EarlierKey(c, tables, t, fk, k, u, key) {
      var i := EntryAt(c, tables, plugins, documentSql, es, u, key);
      EarlierIffOrdered(c, tables, plugins, documentSql, es, i, n);
      assert Adds(es[i], k);
    }
  }

  /** The generated schema declares nothing unique on exactly these columns. */
  predicate NothingUnique(t: Table, columns: seq<string>) {
    && KeyColumns(t.columns) != columns
    && forall i :: 0 <= i < |t.indexes| && t.indexes[i].unique ==> t.indexes[i].columns != columns
  }

  lemma KeyColumnsCons(c: Column, rest: seq<Column>)
    ensures KeyColumns([c] + rest) == (if c.primaryKey then [c.name] else []) + KeyColumns(rest)
    ensures KeyColumns([]) == []
  {
    assert ([c] + rest)[1..] == rest;
  }

  lemma {:induction false} KeyColumnsJoin(a: seq<Column>, b: seq<Column>)
    ensures KeyColumns(a + b) == KeyColumns(a) + KeyColumns(b)
  {
    hide KeyColumns;
    if a == [] {
      assert a + b == b;
      KeyColumnsCons(Column("", "", false, false, None), []);
    } else {
      assert a == [a[0]] + a[1..] && a + b == [a[0]] + (a[1..] + b);
      KeyColumnsCons(a[0], a[1..]);
      KeyColumnsCons(a[0], a[1..] + b);
      KeyColumnsJoin(a[1..], b);
    }
  }

  lemma NothingUniqueMeans(t: Table, columns: seq<string>)
    ensures NothingUnique(t, columns) <==> !ImmediatelyUnique(t, columns)
  {
    hide KeyColumns;
  }

  /** The primary key's columns are the marked ones, in order. */
  lemma {:induction false} KeyColumnsMean(before: seq<Column>, c: Column, after: seq<Column>)
    ensures KeyColumns(before + [c] + after)
      == KeyColumns(before) + (if c.primaryKey then [c.name] else []) + KeyColumns(after)
  {
    hide KeyColumns;
    KeyColumnsJoin(before + [c], after);
    KeyColumnsJoin(before, [c]);
    KeyColumnsCons(c, []);
    assert [c] + [] == [c];
  }

  /** Migration safety, exactly: in a built registry a foreign key between plugin-owned tables finds
      a key on its target columns unless the check took a partial index (or no columns at all)
      for that key and there is no other. */
  lemma ForeignKeyFindsItsKeyIff(c: Collation, tables: seq<Table>, plugins: seq<Plugin>, documentSql: Option<string>,
      es: seq<Entry>, t: Table, fk: Constraint, n: nat)
    requires IsOrder(c) && Built(c, tables, plugins, documentSql, es)
    requires t in tables && fk in t.constraints && fk.kind.ForeignKey? && PluginToPlugin(tables, t, fk)
    requires n < |es| && es[n] == ConstraintEntry(t, fk)
    ensures var k := Key(Qualified(fk.kind.schema, fk.kind.table), fk.kind.target);
      Exists(tables, es, n, k) <==>
        (|| NothingUnique(Target(tables, fk).value, fk.kind.target)
         || GeneratedAt(tables, k)
         || exists u, key :: EarlierKey(c, tables, t, fk, k, u, key))
  {
    hide GeneratedAt, RelationsOk, Sort, AllEntries, ImmediatelyUnique, NothingUnique, IsOrder;
    var target, k := Target(tables, fk).value, Key(Qualified(fk.kind.schema, fk.kind.table), fk.kind.target);
    KeyExistsIff(c, tables, plugins, documentSql, es, t, fk, n, k);
    NothingUniqueMeans(target, fk.kind.target);
    if NothingUnique(target, fk.kind.target) {
      var i :| 0 <= i < |tables| && tables[i] == t;
      var j :| 0 <= j < |t.constraints| && t.constraints[j] == fk;
      assert TargetsOk(c, tables, tables[i], tables[i].constraints) && TargetOk(c, tables, t, fk);
      LookupFinds(tables, k.table);
      FirstKeyFinds(target.constraints, fk.kind.target);
      assert EarlierKey(c, tables, t, fk, k, target, FirstKey(target.constraints, fk.kind.target).value);
    }
  }

  /** So the key is always there where every unique index on the target columns that the check
      could take for it covers all rows. */
  lemma ForeignKeysFindTheirKeys(c: Collation, tables: seq<Table>, plugins: seq<Plugin>, documentSql: Option<string>,
      es: seq<Entry>, t: Table, fk: Constraint, n: nat)
    requires IsOrder(c) && Built(c, tables, plugins, documentSql, es)
    requires t in tables && fk in t.constraints && fk.kind.ForeignKey? && PluginToPlugin(tables, t, fk)
    requires n < |es| && es[n] == ConstraintEntry(t, fk)
    requires forall i :: 0 <= i < |Target(tables, fk).value.indexes| ==>
      var index := Target(tables, fk).value.indexes[i];
      index.unique && index.columns == fk.kind.target ==> index.where == None || index.where == Some("")
    ensures Exists(tables, es, n, Key(Qualified(fk.kind.schema, fk.kind.table), fk.kind.target))
  {
    hide IsOrder, RelationsOk, TargetsOk, Sort, AllEntries, DistinctIdentities, FirstKey;
    var target, columns := Target(tables, fk).value, fk.kind.target;
    ForeignKeyFindsItsKeyIff(c, tables, plugins, documentSql, es, t, fk, n);
    LookupFinds(tables, Qualified(fk.kind.schema, fk.kind.table));
    if !NothingUnique(target, columns) {
      PairsAreNotEmpty(tables, t, fk);
      assert GeneratedKey(target, columns);
      var i :| 0 <= i < |tables| && tables[i] == target;
    }
  }

  lemma PairsAreNotEmpty(tables: seq<Table>, t: Table, fk: Constraint)
    requires TenantReferences.Accepted(tables) && t in tables && fk in t.constraints && fk.kind.ForeignKey?
    ensures fk.kind.target != []
  {
    var i :| 0 <= i < |tables| && tables[i] == t;
    var j :| 0 <= j < |t.constraints| && t.constraints[j] == fk;
    assert TenantReferences.TableOk(tables, tables[i]) && TenantReferences.ConstraintOk(tables, t, t.constraints[j]);
  }

  // ---------- what running the registry creates ----------

  /** A table has at most one primary key, its columns' or a constraint's. */
  lemma {:induction false} OnePrimaryKeyMeans(t: Table)
    ensures OnePrimaryKey(t) <==>
      && (forall i, k :: 0 <= i < |t.columns| && 0 <= k < |t.constraints| ==>
           !(t.columns[i].primaryKey && t.constraints[k].kind == PrimaryKey))
      && forall i, k :: 0 <= i < k < |t.constraints| ==>
           !(t.constraints[i].kind == PrimaryKey && t.constraints[k].kind == PrimaryKey)
  {
    PrimaryKeysMean(t.constraints);
  }

  lemma {:induction false} PrimaryKeysMean(constraints: seq<Constraint>)
    ensures PrimaryKeys(constraints) == 0 <==>
      forall k :: 0 <= k < |constraints| ==> constraints[k].kind != PrimaryKey
    ensures PrimaryKeys(constraints) <= 1 <==> forall i, k :: 0 <= i < k < |constraints| ==>
      !(constraints[i].kind == PrimaryKey && constraints[k].kind == PrimaryKey)
  {
    if constraints != [] {
      var front := constraints[..|constraints| - 1];
      PrimaryKeysMean(front);
      assert forall k :: 0 <= k < |front| ==> front[k] == constraints[k];
    }
  }

  lemma {:induction false} PrimaryKeysCount(constraints: seq<Constraint>, a: Constraint, b: Constraint)
    requires a in constraints && a.kind == PrimaryKey && b in constraints && b.kind == PrimaryKey
    ensures PrimaryKeys(constraints) >= if a == b then 1 else 2
  {
    var front, last := constraints[..|constraints| - 1], constraints[|constraints| - 1];
    if a in front && b in front {
      PrimaryKeysCount(front, a, b);
    } else if a in front {
      PrimaryKeysCount(front, a, a);
    } else if b in front {
      PrimaryKeysCount(front, b, b);
    }
  }

  /** Running a built registry never gives a table a second primary key. */
  lemma NoSecondPrimaryKey(c: Collation, tables: seq<Table>, plugins: seq<Plugin>, documentSql: Option<string>,
      es: seq<Entry>, t: Table, i: nat, k: Constraint)
    requires IsOrder(c) && Built(c, tables, plugins, documentSql, es)
    requires i < |es| && es[i].action == AddConstraint(t, k) && k.kind == PrimaryKey
    ensures forall n :: 0 <= n < |t.columns| ==> !t.columns[n].primaryKey
    ensures forall j, l :: 0 <= j < |es| && es[j].action == AddConstraint(t, l) && l.kind == PrimaryKey ==> j == i
  {
    hide Sort, AllEntries, TargetsOk, IsOrder;
    AddedIsDeclared(c, tables, plugins, documentSql, es, i);
    var n :| 0 <= n < |tables| && tables[n] == t;
    PrimaryKeysCount(t.constraints, k, k);
    forall j, l | 0 <= j < |es| && es[j].action == AddConstraint(t, l) && l.kind == PrimaryKey ensures j == i {
      AddedIsDeclared(c, tables, plugins, documentSql, es, j);
      PrimaryKeysCount(t.constraints, k, l);
      assert OnePrimaryKey(tables[n]);
      assert es[i] == es[j] && Identity(es[i]) == Identity(es[j]);
    }
  }

  lemma {:induction false} RelationTaken(tables: seq<Table>, u: Table)
    requires u in tables
    ensures TableRelations(u) <= Relations(tables)
  {
    if u != tables[|tables| - 1] { RelationTaken(tables[..|tables| - 1], u); }
  }

  lemma {:induction false} KeyRelationListed(schema: string, constraints: seq<Constraint>, k: Constraint)
    requires k in constraints && IsKey(k)
    ensures Relation(schema, k.name) in KeyRelations(schema, constraints)
  {
    if k != constraints[|constraints| - 1] { KeyRelationListed(schema, constraints[..|constraints| - 1], k); }
  }

  lemma {:induction false} TableKeyListed(tables: seq<Table>, t: Table, k: Constraint)
    requires t in tables && k in t.constraints && IsKey(k)
    ensures Relation(t.schema, k.name) in AllKeyRelations(tables)
  {
    KeyRelationListed(t.schema, t.constraints, k);
    if t != tables[|tables| - 1] { TableKeyListed(tables[..|tables| - 1], t, k); }
  }

  lemma DistinctParts(a: seq<Relation>, b: seq<Relation>, r: Relation)
    requires Distinct(a + b)
    ensures Distinct(a) && Distinct(b) && !(r in a && r in b)
  {
    assert forall i :: 0 <= i < |a| ==> (a + b)[i] == a[i];
    assert forall i :: 0 <= i < |b| ==> (a + b)[|a| + i] == b[i];
  }

  lemma {:induction false} SameKeyInTable(schema: string, constraints: seq<Constraint>, k: Constraint, l: Constraint)
    requires Distinct(KeyRelations(schema, constraints)) && k in constraints && l in constraints
    requires IsKey(k) && IsKey(l) && k.name == l.name
    ensures k == l
  {
    var front, last := constraints[..|constraints| - 1], constraints[|constraints| - 1];
    var own := if IsKey(last) then [Relation(schema, last.name)] else [];
    DistinctParts(KeyRelations(schema, front), own, Relation(schema, k.name));
    if k in front { KeyRelationListed(schema, front, k); }
    if l in front { KeyRelationListed(schema, front, l); }
    if k in front && l in front { SameKeyInTable(schema, front, k, l); }
  }

  lemma {:induction false} SameKey(tables: seq<Table>, t: Table, k: Constraint, u: Table, l: Constraint)
    requires Distinct(AllKeyRelations(tables)) && t in tables && u in tables && k in t.constraints && l in u.constraints
    requires IsKey(k) && IsKey(l) && t.schema == u.schema && k.name == l.name
    ensures t == u && k == l
  {
    hide KeyRelations, Distinct;
    var front, last := tables[..|tables| - 1], tables[|tables| - 1];
    DistinctParts(AllKeyRelations(front), KeyRelations(last.schema, last.constraints), Relation(t.schema, k.name));
    if t in front { TableKeyListed(front, t, k); } else { KeyRelationListed(last.schema, last.constraints, k); }
    if u in front { TableKeyListed(front, u, l); } else { KeyRelationListed(last.schema, last.constraints, l); }
    if t in front && u in front {
      SameKey(front, t, k, u, l);
    } else {
      SameKeyInTable(last.schema, last.constraints, k, l);
    }
  }

  /** The index behind an added key takes a name no table and no index of its schema has, and no
      other entry takes it. */
  lemma BackingIndexIsNew(c: Collation, tables: seq<Table>, plugins: seq<Plugin>, documentSql: Option<string>,
      es: seq<Entry>, i: nat, t: Table, k: Constraint)
    requires IsOrder(c) && Built(c, tables, plugins, documentSql, es)
    requires i < |es| && es[i].action == AddConstraint(t, k) && k.kind in {PrimaryKey, Unique}
    ensures forall u :: u in tables && u.schema == t.schema ==>
      u.name != k.name && forall n :: 0 <= n < |u.indexes| ==> u.indexes[n].name != k.name
    ensures forall j, u, l :: 0 <= j < |es| && es[j].action == AddConstraint(u, l) ==>
      l.kind in {PrimaryKey, Unique} && u.schema == t.schema && l.name == k.name ==> j == i
  {
    hide Sort, AllEntries, TargetsOk, IsOrder, AllKeyRelations, Relations;
    AddedIsDeclared(c, tables, plugins, documentSql, es, i);
    TableKeyListed(tables, t, k);
    forall u | u in tables && u.schema == t.schema
      ensures u.name != k.name && forall n :: 0 <= n < |u.indexes| ==> u.indexes[n].name != k.name
    {
      RelationTaken(tables, u);
      assert Relation(t.schema, k.name) !in TableRelations(u);
      forall n | 0 <= n < |u.indexes|
        ensures u.indexes[n].name != k.name { assert Relation(u.schema, u.indexes[n].name) in TableRelations(u); }
    }
    forall j, u, l | && 0 <= j < |es| && es[j].action == AddConstraint(u, l) && l.kind in {PrimaryKey, Unique}
                     && u.schema == t.schema && l.name == k.name
      ensures j == i
    {
      AddedIsDeclared(c, tables, plugins, documentSql, es, j);
      SameKey(tables, t, k, u, l);
      assert Identity(es[i]) == Identity(es[j]);
    }
  }

  /** Every foreign key that passes refers to a declared table and to columns it has. */
  lemma TargetsExist(c: Collation, tables: seq<Table>, t: Table, fk: Constraint, n: nat)
    requires TargetsOk(c, tables, t, t.constraints) && fk in t.constraints && fk.kind.ForeignKey?
    requires n < |fk.kind.target|
    ensures exists u, i ::
      u in tables && Name(u) == Qualified(fk.kind.schema, fk.kind.table) && 0 <= i < |u.columns|
        && u.columns[i].name == fk.kind.target[n]
  {
    var j :| 0 <= j < |t.constraints| && t.constraints[j] == fk;
    assert TargetOk(c, tables, t, fk);
    LookupFinds(tables, Qualified(fk.kind.schema, fk.kind.table));
  }

  /** The one column of the examples' tables. */
  const EXAMPLE_COLUMN := Column("c", "uuid", false, false, None)

  lemma ExampleAccepted(t: Table, u: Table, fk: Constraint)
    requires t.columns == u.columns == [EXAMPLE_COLUMN] && !t.tenantScoped && !u.tenantScoped
    requires fk.kind == ForeignKey("s", "u", ["c"]) && fk.columns == ["c"] && t.constraints == [fk]
    requires Lookup([t, u], Qualified("s", "u")) == Some(u)
    requires forall i :: 0 <= i < |u.constraints| ==> !u.constraints[i].kind.ForeignKey?
    ensures TenantReferences.Accepted([t, u])
  {
    assert TenantReferences.PairOk(t, "c", u, "c");
    assert TenantReferences.TableOk([t, u], t) && TenantReferences.TableOk([t, u], u);
  }

  /** The check takes a partial unique index for a key: a registry that builds although no key
      on the foreign key's target columns ever exists. */
  lemma PartialIndexIsNoKey(c: Collation, renders: Renderer)
    returns (tables: seq<Table>, es: seq<Entry>, t: Table, fk: Constraint)
    requires IsOrder(c) && forall t, k :: renders(t, k)
    ensures Buildable(c, renders, tables, [], None) && Built(c, tables, [], None, es)
    ensures t in tables && fk in t.constraints && fk.kind.ForeignKey? && PluginToPlugin(tables, t, fk)
    ensures es == [ConstraintEntry(t, fk)]
    ensures !Exists(tables, es, |es|, Key(Qualified(fk.kind.schema, fk.kind.table), fk.kind.target))
  {
    fk := Constraint("f", "0002_f", false, ForeignKey("s", "u", ["c"]), ["c"]);
    t := Table("s", "t", [EXAMPLE_COLUMN], [], [fk], Some("a"), false, None);
    var index := Index("i", ["c"], true, Some("c is not null"));
    var u := Table("s", "u", [EXAMPLE_COLUMN], [index], [], Some("a"), false, None);
    tables, es := [t, u], [ConstraintEntry(t, fk)];
    PartialTargets(c, t, u, fk, index);
    PartialRelations(t, u, fk, index);
    PartialEntries(c, t, u, fk);
    ExampleAccepted(t, u, fk);
    hide RelationsOk, TargetsOk, Sort, AllEntries;
    assert "0002_f"[5..] == "f";
    assert RunnerOk(t, fk);
    PartialKeys(t, u, index);
    assert t.constraints[0] == fk;
  }

  lemma PartialKeys(t: Table, u: Table, index: Index)
    requires t.columns == u.columns == [EXAMPLE_COLUMN] && t.indexes == [] && u.indexes == [index] && Partial(index)
    ensures !GeneratedAt([t, u], Key(Qualified("s", "u"), ["c"]))
  {
    assert KeyColumns([EXAMPLE_COLUMN]) == [] + KeyColumns([]) == [];
  }

  lemma PartialTargets(c: Collation, t: Table, u: Table, fk: Constraint, index: Index)
    requires fk == Constraint("f", "0002_f", false, ForeignKey("s", "u", ["c"]), ["c"])
    requires t == Table("s", "t", [EXAMPLE_COLUMN], [], [fk], Some("a"), false, None)
    requires u == Table("s", "u", [EXAMPLE_COLUMN], [index], [], Some("a"), false, None)
    requires index == Index("i", ["c"], true, Some("c is not null"))
    ensures forall i :: 0 <= i < 2 ==> TargetsOk(c, [t, u], [t, u][i], [t, u][i].constraints)
    ensures PluginToPlugin([t, u], t, fk)
  {
    assert Lookup([t, u], Qualified("s", "u")) == Some(u);
    assert u.columns[0].name == "c" && u.indexes[0] == index;
    assert HasUniqueIndex(u, ["c"]) && HasColumns(u, ["c"]);
  }

  lemma PartialRelations(t: Table, u: Table, fk: Constraint, index: Index)
    requires fk.kind.ForeignKey? && t.columns == u.columns == [EXAMPLE_COLUMN]
    requires t.constraints == [fk] && u.constraints == []
    ensures RelationsOk([t, u])
  {
    assert [t, u][..1] == [t] && [t][..0] == [];
    OneConstraint(t.schema, fk);
    assert KeyRelations(u.schema, []) == [];
    assert AllKeyRelations([t]) == AllKeyRelations([]) + KeyRelations(t.schema, t.constraints);
    assert AllKeyRelations([t, u]) == AllKeyRelations([t]) + KeyRelations(u.schema, u.constraints);
    assert AllKeyRelations([t, u]) == [];
    assert PrimaryKeys([]) == 0;
  }

  lemma PartialEntries(c: Collation, t: Table, u: Table, fk: Constraint)
    requires t.constraints == [fk] && u.constraints == []
    ensures Sort(c, AllEntries([t, u], [], None)) == [ConstraintEntry(t, fk)]
  {
    var e := ConstraintEntry(t, fk);
    assert [t, u][..1] == [t] && [t][..0] == [];
    assert TableEntries([t]) == TableEntries([]) + ConstraintEntries(t, [fk]) && ConstraintEntries(t, [fk]) == [e];
    assert TableEntries([t, u]) == TableEntries([t]) + ConstraintEntries(u, []) && ConstraintEntries(u, []) == [];
    assert AllEntries([t, u], [], None) == [e] && [e][1..] == [];
    assert Sort(c, [e]) == Insert(c, e, Sort(c, []));
  }

  /** For a key run as the compiler's, the check compares the wrong owner: a registry that builds
      although the target key comes after the foreign key. The constraints the compiler itself
      marks are all checks; such a key comes from a table declaration that sets the mark. */
  lemma CompilerKeysMayComeLate(c: Collation, renders: Renderer)
    returns (tables: seq<Table>, es: seq<Entry>, fk: Constraint)
    requires forall t, k :: renders(t, k)
    requires IsOrder(c) && c.compare("a", COMPILER) < 0 && c.compare("0001_k", "0002_f") < 0
    ensures Buildable(c, renders, tables, [], None) && Built(c, tables, [], None, es)
    ensures fk.kind.ForeignKey? && es != [] && es[0].action.AddConstraint? && es[0].action.constraint == fk
    ensures !Exists(tables, es, 0, Key(Qualified(fk.kind.schema, fk.kind.table), fk.kind.target))
  {
    var key := Constraint("k", "0001_k", true, Unique, ["c"]);
    fk := Constraint("f", "0002_f", false, ForeignKey("s", "u", ["c"]), ["c"]);
    var t := Table("s", "t", [EXAMPLE_COLUMN], [], [fk], Some("a"), false, None);
    var u := Table("s", "u", [EXAMPLE_COLUMN], [], [key], Some("a"), false, None);
    tables := [t, u];
    var e0, e1 := ConstraintEntry(t, fk), ConstraintEntry(u, key);
    es := [e0, e1];
    ExampleTargets(c, t, u, key, fk);
    ExampleRelations(t, u, key, fk);
    ExampleEntries(c, t, u, key, fk);
    ExampleIdentities(t, u, key, fk);
    ExampleAccepted(t, u, fk);
    hide RelationsOk, TargetsOk, Sort, AllEntries, RunnerOk, GeneratedAt;
    assert Identity(e0) != Identity(e1) by { assert Identity(e0)[0] == 'a' && Identity(e1)[0] == 'o'; }
    ExampleKeys(t, u);
  }

  lemma ExampleIdentities(t: Table, u: Table, key: Constraint, fk: Constraint)
    requires !fk.compilerOwned && key.compilerOwned && t.pluginOwner == Some("a") && fk.version == "0002_f"
      && key.version == "0001_k"
    ensures RunnerOk(t, fk) && RunnerOk(u, key)
  {
    assert "0002_f"[5..] == "f" && "0001_k"[5..] == "k";
  }

  lemma ExampleKeys(t: Table, u: Table)
    requires t.columns == u.columns == [EXAMPLE_COLUMN] && t.indexes == u.indexes == []
    ensures !GeneratedAt([t, u], Key(Qualified("s", "u"), ["c"]))
  {
    assert KeyColumns([EXAMPLE_COLUMN]) == [] + KeyColumns([]) == [];
  }

  lemma ExampleTargets(c: Collation, t: Table, u: Table, key: Constraint, fk: Constraint)
    requires c.compare("0001_k", "0002_f") < 0 && c.compare("a", "a") == 0
    requires key == Constraint("k", "0001_k", true, Unique, ["c"])
    requires fk == Constraint("f", "0002_f", false, ForeignKey("s", "u", ["c"]), ["c"])
    requires t == Table("s", "t", [EXAMPLE_COLUMN], [], [fk], Some("a"), false, None)
    requires u == Table("s", "u", [EXAMPLE_COLUMN], [], [key], Some("a"), false, None)
    ensures forall i :: 0 <= i < 2 ==> TargetsOk(c, [t, u], [t, u][i], [t, u][i].constraints)
  {
    assert Lookup([t, u], Qualified("s", "u")) == Some(u);
    assert FirstKey(u.constraints, ["c"]) == Some(key);
    assert u.columns[0].name == "c";
  }

  lemma ExampleRelations(t: Table, u: Table, key: Constraint, fk: Constraint)
    requires key == Constraint("k", "0001_k", true, Unique, ["c"])
    requires fk == Constraint("f", "0002_f", false, ForeignKey("s", "u", ["c"]), ["c"])
    requires t == Table("s", "t", [EXAMPLE_COLUMN], [], [fk], Some("a"), false, None)
    requires u == Table("s", "u", [EXAMPLE_COLUMN], [], [key], Some("a"), false, None)
    ensures RelationsOk([t, u])
  {
    assert [t, u][..1] == [t] && [t][..0] == [];
    OneConstraint("s", fk);
    OneConstraint("s", key);
    assert AllKeyRelations([t]) == AllKeyRelations([]) + KeyRelations("s", t.constraints);
    assert AllKeyRelations([t, u]) == AllKeyRelations([t]) + KeyRelations("s", u.constraints);
    assert AllKeyRelations([t, u]) == [Relation("s", "k")];
    assert Relations([t, u]) == Relations([t]) + TableRelations(u) && Relations([t]) == {} + TableRelations(t);
    assert TableRelations(t) == {Relation("s", "t")} && TableRelations(u) == {Relation("s", "u")};
    assert "k" != "t" && "k" != "u";
  }

  lemma OneConstraint(schema: string, c: Constraint)
    ensures KeyRelations(schema, [c]) == if IsKey(c) then [Relation(schema, c.name)] else []
    ensures PrimaryKeys([c]) == if c.kind == PrimaryKey then 1 else 0
  {
    assert [c][..0] == [] && [c][1..] == [];
  }

  lemma ExampleEntries(c: Collation, t: Table, u: Table, key: Constraint, fk: Constraint)
    requires c.compare("a", COMPILER) < 0
    requires t.constraints == [fk] && u.constraints == [key] && key.compilerOwned && !fk.compilerOwned
      && t.pluginOwner == Some("a")
    ensures Sort(c, AllEntries([t, u], [], None)) == [ConstraintEntry(t, fk), ConstraintEntry(u, key)]
  {
    var e0, e1 := ConstraintEntry(t, fk), ConstraintEntry(u, key);
    assert [t, u][..1] == [t] && [t][..0] == [];
    assert TableEntries([t]) == TableEntries([]) + ConstraintEntries(t, [fk]) && ConstraintEntries(t, [fk]) == [e0];
    assert TableEntries([t, u]) == TableEntries([t]) + ConstraintEntries(u, [key])
      && ConstraintEntries(u, [key]) == [e1];
    assert AllEntries([t, u], [], None) == [e0, e1];
    assert [e0, e1][1..] == [e1] && [e1][1..] == [];
    assert Sort(c, [e1]) == Insert(c, e1, []);
    assert Compare(c, e0, e1) < 0;
  }
}
