/** What a built registry holds, entry by entry: exactly the declared constraints and
    migrations, each under its own well-formed name and each once. */
module PluginRegistry {
  import opened AsciiWords
  import opened JsWhitespace
  import opened Options
  import opened PluginMigrations
  import opened TableSchema

  // ---------- names ----------

  lemma PluginNameMeans(name: string)
    ensures PluginName(name) <==> Word(name, [LOWER], [LOWER, DIGITS, HYPHEN])
  {
    ClassMeans([LOWER]);
    ClassMeans([LOWER, DIGITS, HYPHEN]);
  }

  lemma CompilerIsNamed()
    ensures PluginName(COMPILER) && !PluginName("")
  {
  }

  /** Four digits, an underscore and a kebab-case name that may open with a digit. */
  predicate NumberedAs(version: string, number: string, name: string) {
    && version == number + "_" + name && |number| == 4 && Word(number, [DIGITS], [DIGITS])
    && Word(name, [LOWER, DIGITS], [LOWER, DIGITS, HYPHEN])
  }

  lemma MigrationVersionMeans(version: string)
    ensures MigrationVersion(version) <==> exists number, name :: NumberedAs(version, number, name)
  {
    ClassMeans([DIGITS]);
    ClassMeans([LOWER, DIGITS]);
    ClassMeans([LOWER, DIGITS, HYPHEN]);
    hide InClass;
    if MigrationVersion(version) {
      assert version[5..] != "" && KebabTail(version[5..]);
      assert NumberedAs(version, version[..4], version[5..]);
    }
    if number, name :| NumberedAs(version, number, name) {
      assert version[5..] == name && version[4] == '_' && version[5] == name[0];
      assert forall i :: 0 <= i < 4 ==> version[i] == number[i];
    }
  }

  /** Numbered somehow. */
  ghost predicate Numbered(version: string) { exists number, name :: NumberedAs(version, number, name) }

  predicate NamesDiffer(constraints: seq<Constraint>) {
    forall i, k :: 0 <= i < k < |constraints| ==> constraints[i].name != constraints[k].name
  }

  lemma ConstraintsMean(renders: Renderer, t: Table)
    ensures ConstraintsOk(renders, t, |t.constraints|) <==>
      && NamesDiffer(t.constraints)
      && forall k :: k in t.constraints ==>
        && renders(t, k) && Numbered(k.version)
        && (k.compilerOwned || exists plugin ::
             t.pluginOwner == Some(plugin) && Word(plugin, [LOWER], [LOWER, DIGITS, HYPHEN]))
  {
    hide Word, PluginName, MigrationVersion;
    CompilerIsNamed();
    forall k: Constraint ensures MigrationVersion(k.version) <==> Numbered(k.version) {
      MigrationVersionMeans(k.version);
    }
    forall name: string ensures PluginName(name) <==> Word(name, [LOWER], [LOWER, DIGITS, HYPHEN]) {
      PluginNameMeans(name);
    }
    assert forall i :: 0 <= i < |t.constraints| ==> t.constraints[i] in t.constraints;
  }

  lemma MigrationsMean(p: Plugin)
    ensures MigrationsOk(p) <==> forall m :: m in p.migrations ==>
      && Word(p.name, [LOWER], [LOWER, DIGITS, HYPHEN]) && Numbered(m.version)
      && exists i :: 0 <= i < |m.sql| && !IsSpace(m.sql[i])
  {
    PluginNameMeans(p.name);
    forall m: Migration ensures MigrationVersion(m.version) <==> Numbered(m.version) {
      MigrationVersionMeans(m.version);
    }
    hide Word, PluginName, MigrationVersion, Numbered;
    assert forall i :: 0 <= i < |p.migrations| ==> p.migrations[i] in p.migrations;
  }

  // ---------- the entries ----------

  /** The compiler runs the constraints marked as its own, and the table's plugin the others. */
  ghost predicate RunBy(t: Table, k: Constraint, plugin: string) {
    if k.compilerOwned then plugin == "osf-compiler" else t.pluginOwner == Some(plugin)
  }

  /** SQL text closed by a line end. */
  ghost predicate Closes(sql: string, text: string) {
    if exists front :: sql == front + "\n" then text == sql else text == sql + "\n"
  }

  /** The entry runs the plugin's migration. */
  ghost predicate Runs(e: Entry, p: Plugin, m: Migration, text: string) {
    e.plugin == p.name && e.version == m.version && Closes(m.sql, text)
  }

  /** The entry is declared: a constraint of a table, a migration of a plugin, or the document check. */
  ghost predicate Declared(tables: seq<Table>, plugins: seq<Plugin>, documentSql: Option<string>, e: Entry) {
    match e.action
    case AddConstraint(t, k) => t in tables && k in t.constraints && RunBy(t, k, e.plugin) && e.version == k.version
    case RunSql(text) =>
      || (exists p, m :: p in plugins && m in p.migrations && Runs(e, p, m, text))
      || (&& documentSql == Some(text) && text != "" && e.plugin == "osf-compiler"
          && e.version == "9999_document-field-policies")
  }

  lemma TextCloses(sql: string)
    ensures Closes(sql, Text(sql))
  {
    if front :| sql == front + "\n" { assert sql[|sql| - 1] == '\n'; }
    if sql != "" && sql[|sql| - 1] == '\n' { assert sql == sql[..|sql| - 1] + "\n"; }
  }

  lemma {:induction false} MigrationListed(plugins: seq<Plugin>, p: Plugin, m: Migration)
    requires p in plugins && m in p.migrations
    ensures Entry(p.name, m.version, RunSql(Text(m.sql))) in PluginEntries(plugins)
  {
    var last := plugins[|plugins| - 1];
    if p == last {
      var k :| 0 <= k < |p.migrations| && p.migrations[k] == m;
      assert MigrationEntries(p.name, p.migrations)[k] == Entry(p.name, m.version, RunSql(Text(m.sql)));
    } else {
      MigrationListed(plugins[..|plugins| - 1], p, m);
    }
  }

  lemma {:induction false} ListedMigration(plugins: seq<Plugin>, e: Entry) returns (p: Plugin, m: Migration)
    requires e in PluginEntries(plugins)
    ensures p in plugins && m in p.migrations && e == Entry(p.name, m.version, RunSql(Text(m.sql)))
  {
    var last := plugins[|plugins| - 1];
    if e in MigrationEntries(last.name, last.migrations) {
      var k :| 0 <= k < |last.migrations| && MigrationEntries(last.name, last.migrations)[k] == e;
      p, m := last, last.migrations[k];
    } else {
      p, m := ListedMigration(plugins[..|plugins| - 1], e);
    }
  }

  lemma ClosingIsText(sql: string, text: string)
    requires Closes(sql, text)
    ensures text == Text(sql)
  {
    TextCloses(sql);
  }

  lemma RunnerIsNamed(renders: Renderer, tables: seq<Table>, t: Table, k: Constraint, plugin: string)
    requires (forall i :: 0 <= i < |tables| ==> ConstraintsOk(renders, tables[i], |tables[i].constraints|))
    requires t in tables && k in t.constraints
    ensures RunBy(t, k, plugin) <==> plugin == RunnerName(t, k)
  {
    var i :| 0 <= i < |tables| && tables[i] == t;
    var j :| 0 <= j < |t.constraints| && t.constraints[j] == k;
    assert RunnerOk(t, t.constraints[j]);
  }

  /** A built registry holds exactly the declared entries. */
  lemma RegistryIsDeclared(c: Collation, renders: Renderer, tables: seq<Table>, plugins: seq<Plugin>,
      documentSql: Option<string>, es: seq<Entry>, e: Entry)
    requires IsOrder(c) && Buildable(c, renders, tables, plugins, documentSql)
    requires Built(c, tables, plugins, documentSql, es)
    ensures e in es <==> Declared(tables, plugins, documentSql, e)
  {
    hide Sort, RelationsOk, TargetsOk, ConstraintsOk, MigrationsOk, RunBy, Closes, Text, TableEntries, PluginEntries,
      IsOrder, Sorted, RunnerName;
    var all := AllEntries(tables, plugins, documentSql);
    SortSorts(c, all);
    assert e in es <==> e in multiset(es);
    assert e in all <==> e in multiset(all);
    if e in all { ListedIsDeclared(renders, tables, plugins, documentSql, e); }
    if Declared(tables, plugins, documentSql, e) { DeclaredIsListed(renders, tables, plugins, documentSql, e); }
  }

  lemma ListedIsDeclared(renders: Renderer, tables: seq<Table>, plugins: seq<Plugin>, documentSql: Option<string>,
      e: Entry)
    requires forall i :: 0 <= i < |tables| ==> ConstraintsOk(renders, tables[i], |tables[i].constraints|)
    requires e in AllEntries(tables, plugins, documentSql)
    ensures Declared(tables, plugins, documentSql, e)
  {
    hide ConstraintsOk, TableEntries, PluginEntries, RunBy, RunnerName, Text, Closes;
    if e in TableEntries(tables) {
      EntryIsDeclared(tables, e);
      var t, k :| t in tables && k in t.constraints && e == ConstraintEntry(t, k);
      RunnerIsNamed(renders, tables, t, k, e.plugin);
    } else if e in PluginEntries(plugins) {
      var p, m := ListedMigration(plugins, e);
      TextCloses(m.sql);
      assert Runs(e, p, m, e.action.sql);
    }
  }

  lemma DeclaredIsListed(renders: Renderer, tables: seq<Table>, plugins: seq<Plugin>, documentSql: Option<string>,
      e: Entry)
    requires forall i :: 0 <= i < |tables| ==> ConstraintsOk(renders, tables[i], |tables[i].constraints|)
    requires Declared(tables, plugins, documentSql, e)
    ensures e in AllEntries(tables, plugins, documentSql)
  {
    hide ConstraintsOk, TableEntries, PluginEntries, RunBy, RunnerName, Text, Closes;
    if e.action.AddConstraint? {
      var t, k := e.action.table, e.action.constraint;
      RunnerIsNamed(renders, tables, t, k, e.plugin);
      EntryListed(tables, t, k);
    } else if p, m :| p in plugins && m in p.migrations && Runs(e, p, m, e.action.sql) {
      ClosingIsText(m.sql, e.action.sql);
      MigrationListed(plugins, p, m);
    }
  }

  // ---------- identities ----------

  /** Every entry of a built registry is named as the patterns have it. */
  lemma EntriesAreNamed(c: Collation, renders: Renderer, tables: seq<Table>, plugins: seq<Plugin>,
      documentSql: Option<string>, es: seq<Entry>, e: Entry)
    requires IsOrder(c) && Buildable(c, renders, tables, plugins, documentSql)
    requires Built(c, tables, plugins, documentSql, es) && e in es
    ensures Word(e.plugin, [LOWER], [LOWER, DIGITS, HYPHEN]) && Numbered(e.version)
  {
    hide Sort, RelationsOk, TargetsOk, Closes, Word, IsOrder, PluginName, MigrationVersion, InClass;
    RegistryIsDeclared(c, renders, tables, plugins, documentSql, es, e);
    PluginNameMeans(e.plugin);
    MigrationVersionMeans(e.version);
    match e.action
    case AddConstraint(t, k) =>
      CompilerIsNamed();
      var i :| 0 <= i < |tables| && tables[i] == t;
      var j :| 0 <= j < |t.constraints| && t.constraints[j] == k;
      assert ConstraintsOk(renders, tables[i], |t.constraints|) && RunnerOk(t, t.constraints[j]);
    case RunSql(text) =>
      if p, m :| p in plugins && m in p.migrations && Runs(e, p, m, text) {
        var i :| 0 <= i < |plugins| && plugins[i] == p;
        var j :| 0 <= j < |p.migrations| && p.migrations[j] == m;
        assert MigrationsOk(plugins[i]) && MigrationOk(p, p.migrations[j]);
      } else {
        CompilerIsNamed();
        LastIsNumbered();
        MigrationVersionMeans("9999_document-field-policies");
      }
  }

  lemma LastIsNumbered()
    ensures MigrationVersion("9999_document-field-policies")
  {
    var version := "9999_document-field-policies";
    assert version[5..] == "document-field-policies";
  }

  lemma WordHasNoColon(name: string)
    requires Word(name, [LOWER], [LOWER, DIGITS, HYPHEN])
    ensures ':' !in name
  {
    PluginNameMeans(name);
  }

  /** Plugin names hold no colon, so entries clash exactly if they share plugin and version. */
  lemma IdentitySeparates(a: Entry, b: Entry)
    requires Word(a.plugin, [LOWER], [LOWER, DIGITS, HYPHEN]) && Word(b.plugin, [LOWER], [LOWER, DIGITS, HYPHEN])
    ensures Identity(a) == Identity(b) <==> a.plugin == b.plugin && a.version == b.version
  {
    hide Word;
    WordHasNoColon(a.plugin);
    WordHasNoColon(b.plugin);
    var text := Identity(a);
    if text == Identity(b) {
      assert text[|a.plugin|] == text[|b.plugin|] == ':';
      assert |a.plugin| == |b.plugin|;
      assert text[..|a.plugin|] == a.plugin == b.plugin;
      assert text[|a.plugin| + 1..] == a.version == b.version;
    }
  }

  // ---------- an order ----------

  /** Dictionary order by character. */
  function ByCharacter(a: string, b: string): int {
    if a == "" then (if b == "" then 0 else -1)
    else if b == "" then 1
    else if a[0] != b[0] then a[0] as int - b[0] as int
    else ByCharacter(a[1..], b[1..])
  }

  lemma {:induction false} ByCharacterDecides(a: string, b: string)
    ensures ByCharacter(a, b) == 0 <==> a == b
    ensures ByCharacter(a, b) < 0 <==> ByCharacter(b, a) > 0
  {
    if a != "" && b != "" && a[0] == b[0] {
      ByCharacterDecides(a[1..], b[1..]);
      assert a == [a[0]] + a[1..] && b == [b[0]] + b[1..];
    }
  }

  lemma {:induction false} ByCharacterChains(a: string, b: string, d: string)
    requires ByCharacter(a, b) < 0 && ByCharacter(b, d) < 0
    ensures ByCharacter(a, d) < 0
  {
    if a != "" && b != "" && d != "" && a[0] == b[0] == d[0] { ByCharacterChains(a[1..], b[1..], d[1..]); }
  }

  /** The assumption on the collation can be met. */
  lemma OrderExists() returns (c: Collation)
    ensures IsOrder(c)
  {
    c := Collation(ByCharacter);
    forall a, b ensures c.compare(a, b) == 0 <==> a == b { ByCharacterDecides(a, b); }
    forall a, b ensures c.compare(a, b) < 0 <==> c.compare(b, a) > 0 { ByCharacterDecides(a, b); }
    forall a, b, d | c.compare(a, b) < 0 && c.compare(b, d) < 0 ensures c.compare(a, d) < 0 {
      ByCharacterChains(a, b, d);
    }
  }
}
