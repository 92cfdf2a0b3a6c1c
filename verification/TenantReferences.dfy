/** Tenant safety of foreign keys: a reference into a tenant-scoped table carries the tenant on
    both sides, so a row of another tenant cannot be referenced at all. The check of the
    manifest, and what it means for the rows of a database. */
module TenantReferences {
  import opened Options
  import opened JsWhitespace
  import opened TableSchema

  const TENANT := "tenant_id"
  const IDENTITY_CHECK := "id = tenant_id"

  // ---------- the check ----------

  /** A column reference or a foreign-key constraint: the qualified target, the column it is
      declared on, and the paired columns. */
  datatype ForeignKeyPair = ForeignKeyPair(table: string, declared: string, local: seq<string>, target: seq<string>)

  /** The column that says whose row it is. */
  function IdentityColumn(t: Table): Option<string> {
    if t.tenantScoped then Some(TENANT)
    else if t.tenantIdentityColumn.Some? && t.tenantIdentityColumn.value != "" then t.tenantIdentityColumn
    else if FindColumn(t.columns, TENANT).Some? then Some(TENANT) else None
  }

  /** Each run of white space becomes one blank. */
  function Collapse(text: string): string {
    if text == "" then ""
    else if !IsSpace(text[0]) then [text[0]] + Collapse(text[1..])
    else if |text| > 1 && IsSpace(text[1]) then Collapse(text[1..])
    else " " + Collapse(text[1..])
  }

  predicate IsIdentityCheck(c: Constraint) { c.kind.Check? && Trim(Collapse(c.kind.expression)) == IDENTITY_CHECK }

  /** The rows of such a table are their own tenant. */
  predicate ProvesIdentity(t: Table) {
    exists k :: 0 <= k < |t.constraints| && IsIdentityCheck(t.constraints[k])
  }

  predicate NotNull(c: Column) { c.required || c.primaryKey }

  predicate AlwaysSet(t: Table, name: string) {
    var c := FindColumn(t.columns, name);
    c.Some? && NotNull(c.value)
  }

  predicate RequiredUuid(t: Table, name: string) {
    AlwaysSet(t, name) && FindColumn(t.columns, name).value.columnType == "uuid"
  }

  predicate PairOk(t: Table, local: string, u: Table, target: string) {
    var l, r := FindColumn(t.columns, local), FindColumn(u.columns, target);
    l.Some? && r.Some? && l.value.columnType == r.value.columnType
  }

  predicate PairsOk(t: Table, k: ForeignKeyPair, u: Table) {
    && |k.local| == |k.target| && k.local != []
    && forall i :: 0 <= i < |k.local| ==> PairOk(t, k.local[i], u, k.target[i])
  }

  function IndexOf(names: seq<string>, name: string): (n: nat)
    requires name in names
    ensures n < |names| && names[n] == name
  {
    if names[0] == name then 0 else 1 + IndexOf(names[1..], name)
  }

  /** The row's own tenant column alone. */
  predicate IsIdentity(t: Table, k: ForeignKeyPair) { |k.local| == 1 && IdentityColumn(t) == Some(k.declared) }

  predicate TenantPaired(t: Table, k: ForeignKeyPair) {
    && TENANT in k.target && |k.local| == |k.target|
    && var local := k.local[IndexOf(k.target, TENANT)];
    (t.tenantScoped ==> local == TENANT) && RequiredUuid(t, local)
  }

  predicate Bound(t: Table, k: ForeignKeyPair, u: Table) {
    PairsOk(t, k, u) && (u.tenantScoped ==>
      if IsIdentity(t, k) then RequiredUuid(t, k.declared) && k.target == ["id"] && ProvesIdentity(u)
      else TenantPaired(t, k))
  }

  function ColumnKey(c: Column): ForeignKeyPair
    requires c.references.Some?
  {
    var r := c.references.value;
    ForeignKeyPair(Qualified(r.schema, r.table), c.name,
      if r.localColumns.Some? then r.localColumns.value else [c.name],
      if r.targetColumns.Some? then r.targetColumns.value else [r.column])
  }

  /** The first column that is not the tenant's, or else the first. */
  function DeclaredColumn(t: Table, names: seq<string>): (r: string)
    ensures names != [] ==> r in names
  {
    if names == [] then ""
    else if IdentityColumn(t) != Some(names[0]) then names[0]
    else
      var rest := DeclaredColumn(t, names[1..]);
      if names[1..] == [] || IdentityColumn(t) == Some(rest) then names[0] else rest
  }

  function ConstraintKey(t: Table, c: Constraint): ForeignKeyPair
    requires c.kind.ForeignKey?
  {
    ForeignKeyPair(Qualified(c.kind.schema, c.kind.table), DeclaredColumn(t, c.columns), c.columns, c.kind.target)
  }

  predicate KeyOk(tables: seq<Table>, t: Table, k: ForeignKeyPair) {
    Lookup(tables, k.table).Some? && Bound(t, k, Lookup(tables, k.table).value)
  }

  predicate ColumnOk(tables: seq<Table>, t: Table, c: Column) {
    c.references.Some? ==>
      var r := c.references.value;
      && (r.localColumns.Some? <==> r.targetColumns.Some?)
      && KeyOk(tables, t, ColumnKey(c))
      && FindColumn(Lookup(tables, ColumnKey(c).table).value.columns, r.column).Some?
  }

  predicate ConstraintOk(tables: seq<Table>, t: Table, c: Constraint) {
    c.kind.ForeignKey? ==> KeyOk(tables, t, ConstraintKey(t, c))
  }

  predicate TableOk(tables: seq<Table>, t: Table) {
    && (forall i :: 0 <= i < |t.columns| ==> ColumnOk(tables, t, t.columns[i]))
    && forall i :: 0 <= i < |t.constraints| ==> ConstraintOk(tables, t, t.constraints[i])
  }

  /** What the check accepts. */
  predicate Accepted(tables: seq<Table>) {
    forall i :: 0 <= i < |tables| ==> TableOk(tables, tables[i])
  }

  method AssertReferencePairs(t: Table, k: ForeignKeyPair, u: Table) returns (ok: bool)
    ensures ok <==> PairsOk(t, k, u)
  {
    if |k.local| != |k.target| || |k.local| == 0 { return false; }
    for i := 0 to |k.target|
      invariant forall n :: 0 <= n < i ==> PairOk(t, k.local[n], u, k.target[n])
    {
      if !PairOk(t, k.local[i], u, k.target[i]) { return false; }
    }
    return true;
  }

  method AssertBoundReference(t: Table, k: ForeignKeyPair, u: Table) returns (ok: bool)
    ensures ok <==> Bound(t, k, u)
  {
    ok := AssertReferencePairs(t, k, u);
    if !ok || !u.tenantScoped { return; }
    if |k.local| == 1 && IdentityColumn(t) == Some(k.declared) {
      if !RequiredUuid(t, k.declared) { return false; }
      if k.target != ["id"] { return false; }
      return ProvesIdentity(u);
    }
    if TENANT !in k.target { return false; }
    var local := k.local[IndexOf(k.target, TENANT)];
    if t.tenantScoped && local != TENANT { return false; }
    return RequiredUuid(t, local);
  }

  method AssertTableReferences(tables: seq<Table>, t: Table) returns (ok: bool)
    ensures ok <==> TableOk(tables, t)
  {
    hide Bound;
    for i := 0 to |t.columns|
      invariant forall n :: 0 <= n < i ==> ColumnOk(tables, t, t.columns[n])
    {
      var c := t.columns[i];
      if c.references.Some? {
        var r := c.references.value;
        if r.localColumns.Some? != r.targetColumns.Some? { return false; }
        var target := Lookup(tables, Qualified(r.schema, r.table));
        if target.None? || FindColumn(target.value.columns, r.column).None? { return false; }
        var bound := AssertBoundReference(t, ColumnKey(c), target.value);
        if !bound { return false; }
      }
    }
    for i := 0 to |t.constraints|
      invariant forall n :: 0 <= n < i ==> ConstraintOk(tables, t, t.constraints[n])
    {
      var c := t.constraints[i];
      if c.kind.ForeignKey? {
        var target := Lookup(tables, Qualified(c.kind.schema, c.kind.table));
        if target.None? { return false; }
        var bound := AssertBoundReference(t, ConstraintKey(t, c), target.value);
        if !bound { return false; }
      }
    }
    return true;
  }

  method AssertTenantBoundReferences(tables: seq<Table>) returns (ok: bool)
    ensures ok <==> Accepted(tables)
  {
    hide TableOk;
    for i := 0 to |tables|
      invariant forall n :: 0 <= n < i ==> TableOk(tables, tables[n])
    {
      ok := AssertTableReferences(tables, tables[i]);
      if !ok { return; }
    }
    return true;
  }

  // ---------- rows ----------

  /** A row's cells; an absent or `None` cell is NULL. */
  type Row = map<string, Option<string>>

  /** The rows of each table, by qualified name. */
  type Rows = map<string, seq<Row>>

  function Cell(r: Row, name: string): Option<string> { if name in r then r[name] else None }

  function RowsOf(db: Rows, table: string): seq<Row> { if table in db then db[table] else [] }

  /** The row a foreign key refers to: equal cells, none of them NULL. */
  predicate Matches(k: ForeignKeyPair, r: Row, u: Row) {
    && |k.local| == |k.target|
    && forall i :: 0 <= i < |k.local| ==> Cell(r, k.local[i]).Some? && Cell(u, k.target[i]) == Cell(r, k.local[i])
  }

  /** NOT NULL, and a check `id = tenant_id` that is not false. */
  predicate RowOk(t: Table, r: Row) {
    && (forall i :: 0 <= i < |t.columns| && (t.columns[i].required || t.columns[i].primaryKey) ==>
          Cell(r, t.columns[i].name).Some?)
    && forall i :: 0 <= i < |t.constraints| && IsIdentityCheck(t.constraints[i]) ==>
         Cell(r, "id").Some? && Cell(r, TENANT).Some? ==> Cell(r, "id") == Cell(r, TENANT)
  }

  lemma RowOkMeans(t: Table, r: Row)
    ensures RowOk(t, r) <==>
      && (forall i :: 0 <= i < |t.columns| && NotNull(t.columns[i]) ==> Cell(r, t.columns[i].name).Some?)
      && (ProvesIdentity(t) && Cell(r, "id").Some? && Cell(r, TENANT).Some? ==> Cell(r, "id") == Cell(r, TENANT))
  {
    hide IsIdentityCheck;
  }

  /** A foreign key is checked where none of its columns is NULL. */
  ghost predicate KeyHolds(k: ForeignKeyPair, r: Row, db: Rows) {
    (forall i :: 0 <= i < |k.local| ==> Cell(r, k.local[i]).Some?) ==>
      exists u :: u in RowsOf(db, k.table) && Matches(k, r, u)
  }

  /** The keys a table declares. */
  predicate Declares(t: Table, k: ForeignKeyPair) {
    || (exists i :: 0 <= i < |t.columns| && t.columns[i].references.Some? && ColumnKey(t.columns[i]) == k)
    || exists i :: 0 <= i < |t.constraints| && t.constraints[i].kind.ForeignKey?
         && ConstraintKey(t, t.constraints[i]) == k
  }

  ghost predicate Conforms(tables: seq<Table>, db: Rows) {
    forall t, r | t in tables && r in RowsOf(db, Name(t)) ::
      RowOk(t, r) && forall k :: Declares(t, k) ==> KeyHolds(k, r, db)
  }

  // ---------- what the check means ----------

  /** The local column that carries the tenant. */
  function BindingColumn(k: ForeignKeyPair): string {
    if TENANT in k.target && |k.local| == |k.target| then k.local[IndexOf(k.target, TENANT)]
    else if k.local == [] then k.declared else k.local[0]
  }

  /** The rows are known to belong to different tenants. */
  predicate CrossesTenants(own: Option<string>, u: Row) {
    own.Some? && Cell(u, TENANT).Some? && Cell(u, TENANT) != own
  }

  /** Among rows that keep the constraints, a bound key matches only rows of the tenant that the
      referencing row shows: in its own tenant column, or, from a global table, in the required
      column paired with the tenant. */
  lemma BoundKeyKeepsTenant(t: Table, k: ForeignKeyPair, target: Table, r: Row, u: Row)
    requires Bound(t, k, target) && target.tenantScoped && k.declared in k.local
    requires RowOk(t, r) && RowOk(target, u) && Matches(k, r, u)
    ensures var own := BindingColumn(k);
      && Cell(r, own).Some? && !CrossesTenants(Cell(r, own), u)
      && (AlwaysSet(target, TENANT) ==> Cell(u, TENANT) == Cell(r, own))
  {
  }

  /** That column of the referencing row is never NULL, and it is the row's own tenant column
      where the row has a tenant or refers by its tenant alone. */
  lemma BindingIsOwn(t: Table, k: ForeignKeyPair, target: Table, r: Row)
    requires Bound(t, k, target) && target.tenantScoped && k.declared in k.local && RowOk(t, r)
    ensures Cell(r, BindingColumn(k)).Some?
    ensures t.tenantScoped || IsIdentity(t, k) ==> IdentityColumn(t) == Some(BindingColumn(k))
  {
  }

  /** The column is there, typed and set as the tenant's has to be. */
  ghost predicate TenantColumn(t: Table, name: string) {
    exists c :: FindColumn(t.columns, name) == Some(c) && c.columnType == "uuid" && (c.required || c.primaryKey)
  }

  predicate SameTypes(t: Table, k: ForeignKeyPair, u: Table) {
    && |k.local| == |k.target|
    && forall i :: 0 <= i < |k.local| ==>
      && FindColumn(t.columns, k.local[i]).Some? && FindColumn(u.columns, k.target[i]).Some?
      && FindColumn(t.columns, k.local[i]).value.columnType == FindColumn(u.columns, k.target[i]).value.columnType
  }

  /** The target's tenant column is among the pairs, always opposite a column that may carry it. */
  ghost predicate PairsTenant(t: Table, k: ForeignKeyPair)
    requires |k.local| == |k.target|
  {
    TENANT in k.target && forall i :: 0 <= i < |k.target| && k.target[i] == "tenant_id" ==>
      TenantColumn(t, k.local[i]) && (t.tenantScoped ==> k.local[i] == "tenant_id")
  }

  /** Nothing else is refused: a reference to a global table needs only its pairs, and one to a
      tenant's table is accepted once it pairs the tenant columns beside another column. */
  lemma OrdinaryKeysAreBound(t: Table, k: ForeignKeyPair, u: Table)
    requires SameTypes(t, k, u)
    ensures !u.tenantScoped && k.local != [] ==> Bound(t, k, u)
    ensures |k.local| > 1 && PairsTenant(t, k) ==> Bound(t, k, u)
  {
  }

  /** And nothing less is accepted: the pairs agree in type, and the column that carries the tenant
      is a required uuid. */
  lemma BoundIsTyped(t: Table, k: ForeignKeyPair, u: Table)
    requires Bound(t, k, u)
    ensures k.local != [] && SameTypes(t, k, u)
    ensures u.tenantScoped && k.declared in k.local ==> TenantColumn(t, BindingColumn(k))
  {
  }

  /** So is the tenant's own column against a registry whose rows are their own tenant. */
  lemma OwnTenantKeyIsBound(t: Table, k: ForeignKeyPair, u: Table, i: nat)
    requires SameTypes(t, k, u) && k.local == [k.declared] && k.target == ["id"]
    requires IdentityColumn(t) == Some(k.declared) && TenantColumn(t, k.declared)
    requires i < |u.constraints| && u.constraints[i].kind == Check("id = tenant_id")
    ensures Bound(t, k, u)
  {
    hide Collapse, Trim;
    IdentityText();
    assert IsIdentityCheck(u.constraints[i]);
  }

  /** A column reference pairs the columns it lists, or else the column with its target. */
  lemma ColumnKeyMeans(c: Column, s: string, table: string, target: string, local: seq<string>, paired: seq<string>)
    ensures c.references == Some(Reference(s, table, target, None, None)) ==>
      ColumnKey(c) == ForeignKeyPair(s + "." + table, c.name, [c.name], [target])
    ensures c.references == Some(Reference(s, table, target, Some(local), Some(paired))) ==>
      ColumnKey(c) == ForeignKeyPair(s + "." + table, c.name, local, paired)
  {
  }

  /** A table constraint is declared on its first column that is not the tenant's; on the tenant's
      own column where it has no other. */
  lemma {:induction false} DeclaredColumnMeans(t: Table, names: seq<string>, i: nat)
    requires i < |names| && forall k :: 0 <= k < i ==> IdentityColumn(t) == Some(names[k])
    ensures IdentityColumn(t) != Some(names[i]) ==> DeclaredColumn(t, names) == names[i]
    ensures i == |names| - 1 && IdentityColumn(t) == Some(names[i]) ==> DeclaredColumn(t, names) == names[0]
  {
    if i > 0 {
      assert forall k :: 0 <= k < i - 1 ==> names[1..][k] == names[k + 1];
      DeclaredColumnMeans(t, names[1..], i - 1);
    }
  }

  /** A table's tenant column: its declared one, or `tenant_id` where it has that. */
  lemma IdentityColumnMeans(t: Table, name: string)
    ensures IdentityColumn(t) == Some(name) <==>
      if t.tenantScoped then name == "tenant_id"
      else if t.tenantIdentityColumn in {None, Some("")}
      then name == "tenant_id" && exists i :: 0 <= i < |t.columns| && t.columns[i].name == "tenant_id"
      else t.tenantIdentityColumn == Some(name)
  {
  }

  lemma DeclaredIsOk(tables: seq<Table>, t: Table, k: ForeignKeyPair)
    requires Accepted(tables) && t in tables && Declares(t, k)
    ensures KeyOk(tables, t, k)
  {
  }

  /** Tenant safety by construction: in a database that keeps the constraints of an accepted
      manifest, a row whose pointer columns are set refers to a row, and every row it can refer
      to is of its own tenant; no NULL leaves the key unchecked. */
  lemma ForeignTenantIsUnexpressible(tables: seq<Table>, db: Rows, t: Table, k: ForeignKeyPair, r: Row)
    requires Accepted(tables) && Conforms(tables, db)
    requires t in tables && Declares(t, k) && k.declared in k.local && r in RowsOf(db, Name(t))
    requires Lookup(tables, k.table).value.tenantScoped
    requires forall i :: 0 <= i < |k.local| && k.local[i] != BindingColumn(k) ==> Cell(r, k.local[i]).Some?
    ensures exists u :: u in RowsOf(db, k.table) && Matches(k, r, u)
    ensures forall u | u in RowsOf(db, k.table) && Matches(k, r, u) ::
      !CrossesTenants(Cell(r, BindingColumn(k)), u)
        && (AlwaysSet(Lookup(tables, k.table).value, TENANT) ==> Cell(u, TENANT) == Cell(r, BindingColumn(k)))
  {
    hide Bound, RowOk, Declares, AlwaysSet, BindingColumn, CrossesTenants, Accepted;
    DeclaredIsOk(tables, t, k);
    LookupFinds(tables, k.table);
    var target := Lookup(tables, k.table).value;
    BindingIsOwn(t, k, target, r);
    assert KeyHolds(k, r, db);
    forall u | u in RowsOf(db, k.table) && Matches(k, r, u)
      ensures !CrossesTenants(Cell(r, BindingColumn(k)), u)
      ensures AlwaysSet(target, TENANT) ==> Cell(u, TENANT) == Cell(r, BindingColumn(k))
    {
      BoundKeyKeepsTenant(t, k, target, r, u);
    }
  }

  // ---------- the declaring column ----------

  /** What emission asks of a column reference besides: the declaring column is in its key, and
      no column is repeated or unknown. */
  predicate Renders(t: Table, c: Column)
    requires c.references.Some?
  {
    var k, r := ColumnKey(c), c.references.value;
    && (r.localColumns.Some? <==> r.targetColumns.Some?)
    && k.local != [] && |k.local| == |k.target|
    && Distinct(k.local) && Distinct(k.target)
    && c.name in k.local && forall i :: 0 <= i < |k.local| ==> FindColumn(t.columns, k.local[i]).Some?
  }

  /** A plain column reference can always be emitted. */
  lemma PlainReferenceRenders(t: Table, c: Column, r: Reference)
    requires c in t.columns && c.references == Some(r) && r.localColumns == None && r.targetColumns == None
    ensures Renders(t, c)
  {
    var i :| 0 <= i < |t.columns| && t.columns[i] == c;
  }

  predicate Distinct(names: seq<string>) { forall i, j :: 0 <= i < j < |names| ==> names[i] != names[j] }

  /** A table constraint's key always has its declaring column; a column's key has it once it
      can be emitted. */
  lemma EmittedIsDeclared(tables: seq<Table>, t: Table, k: ForeignKeyPair)
    requires Accepted(tables) && t in tables && Declares(t, k)
    requires forall i :: 0 <= i < |t.columns| && t.columns[i].references.Some? ==> Renders(t, t.columns[i])
    ensures k.declared in k.local
  {
  }

  /** The tenant is paired, or the referring column is the tenant's own. */
  predicate Bindable(t: Table, k: ForeignKeyPair) {
    k.declared in k.local || !IsIdentity(t, k) || (ProvesIdentity(t) && k.local == ["id"])
  }

  /** Whatever rows a key matches are of one tenant. */
  ghost predicate KeepsTenant(t: Table, k: ForeignKeyPair, target: Table) {
    forall r, u :: RowOk(t, r) && RowOk(target, u) && Matches(k, r, u) ==> !CrossesTenants(Cell(r, TENANT), u)
  }

  lemma BindableKeepsTenant(t: Table, k: ForeignKeyPair, target: Table, r: Row, u: Row)
    requires Bound(t, k, target) && t.tenantScoped && target.tenantScoped && Bindable(t, k)
    requires RowOk(t, r) && RowOk(target, u) && Matches(k, r, u)
    ensures !CrossesTenants(Cell(r, TENANT), u)
  {
    hide PairsOk, ProvesIdentity, RequiredUuid, RowOk;
    RowOkMeans(t, r);
    RowOkMeans(target, u);
    if IsIdentity(t, k) {
      assert k.target[0] == "id" && k.local == [k.local[0]];
    } else {
      assert k.target[IndexOf(k.target, TENANT)] == TENANT;
    }
  }

  lemma UnboundCrosses(t: Table, k: ForeignKeyPair, target: Table) returns (r: Row, u: Row)
    requires Bound(t, k, target) && t.tenantScoped && target.tenantScoped && !Bindable(t, k)
    ensures RowOk(t, r) && RowOk(target, u) && Matches(k, r, u) && CrossesTenants(Cell(r, TENANT), u)
  {
    hide PairsOk, ProvesIdentity, RequiredUuid, RowOk;
    r, u := Filled(t, "a")[k.local[0] := Some("b")], Filled(target, "b");
    RowOkMeans(t, r);
    RowOkMeans(target, u);
    assert k.local == [k.local[0]] && k.local[0] in k.local;
  }

  /** The check alone does not ask for the declaring column: for a row of a tenant, a bound key
      keeps every match in the tenant exactly if that column is in the key, the tenant is
      paired, or the key is the row's own `id` and that is its tenant. */
  lemma BoundKeepsTenantIff(t: Table, k: ForeignKeyPair, target: Table)
    requires Bound(t, k, target) && t.tenantScoped && target.tenantScoped
    ensures Bindable(t, k) <==> KeepsTenant(t, k, target)
  {
    hide Bound, Bindable, RowOk, Matches, CrossesTenants;
    if Bindable(t, k) {
      forall r, u | RowOk(t, r) && RowOk(target, u) && Matches(k, r, u) ensures !CrossesTenants(Cell(r, TENANT), u) {
        BindableKeepsTenant(t, k, target, r, u);
      }
    } else {
      var r, u := UnboundCrosses(t, k, target);
    }
  }

  /** A registry whose rows are their own tenant. */
  const REGISTRY := Table("s", "u", [REGISTRY_ID, REGISTRY_TENANT], [],
    [Constraint("c", "0001_c", true, Check(IDENTITY_CHECK), [])], None, true, None)
  const REGISTRY_ID := Column("id", "uuid", true, true, None)
  const REGISTRY_TENANT := Column(TENANT, "uuid", false, true, None)

  /** A table whose tenant column declares a reference to it by another column. */
  const STRAY := Table("s", "t", [REGISTRY_ID, STRAY_TENANT, STRAY_OTHER], [], [], None, true, None)
  const STRAY_TENANT := Column(TENANT, "uuid", false, true,
    Some(Reference("s", "u", "id", Some(["other"]), Some(["id"]))))
  const STRAY_OTHER := Column("other", "uuid", false, false, None)

  /** The check accepts a manifest with a key that is not bindable. Emission refuses it. */
  lemma UndeclaredKeyIsAccepted()
    ensures Accepted([REGISTRY, STRAY]) && Lookup([REGISTRY, STRAY], ColumnKey(STRAY_TENANT).table) == Some(REGISTRY)
    ensures Declares(STRAY, ColumnKey(STRAY_TENANT)) && !Bindable(STRAY, ColumnKey(STRAY_TENANT))
    ensures !Renders(STRAY, STRAY_TENANT)
  {
    hide FindColumn, Lookup, Bound;
    StrayIsBound();
    RegistryFound(REGISTRY, STRAY);
    StrayColumns();
    assert STRAY.columns[1] == STRAY_TENANT;
    assert TableOk([REGISTRY, STRAY], REGISTRY) && TableOk([REGISTRY, STRAY], STRAY);
  }

  /** A table whose tenant column refers to the registry. */
  const MEMBER := Table("s", "t", [REGISTRY_ID, MEMBER_TENANT], [], [], None, true, None)
  const MEMBER_TENANT := Column(TENANT, "uuid", false, true, Some(Reference("s", "u", "id", None, None)))

  /** An accepted manifest with rows that keep its constraints, one referring to another. */
  lemma ConformingRowsExist() returns (db: Rows)
    ensures Accepted([REGISTRY, MEMBER]) && Conforms([REGISTRY, MEMBER], db)
    ensures Declares(MEMBER, ColumnKey(MEMBER_TENANT))
    ensures "s.u" in db && "s.t" in db && db["s.u"] != [] && db["s.t"] != []
    ensures Matches(ColumnKey(MEMBER_TENANT), db["s.t"][0], db["s.u"][0])
  {
    hide FindColumn, Lookup, Bound, Filled, ProvesIdentity;
    MemberColumns();
    assert IdentityColumn(MEMBER) == Some(TENANT) && REGISTRY.constraints[0].kind == Check("id = tenant_id");
    OwnTenantKeyIsBound(MEMBER, ColumnKey(MEMBER_TENANT), REGISTRY, 0);
    RegistryFound(REGISTRY, MEMBER);
    assert TableOk([REGISTRY, MEMBER], REGISTRY) && TableOk([REGISTRY, MEMBER], MEMBER);
    assert MEMBER.columns[1] == MEMBER_TENANT;
    var r, u := Filled(MEMBER, "a"), Filled(REGISTRY, "a");
    db := map["s.u" := [u], "s.t" := [r]];
    assert Name(REGISTRY) == "s.u" && Name(MEMBER) == "s.t";
    FilledCells(MEMBER, "a");
    FilledCells(REGISTRY, "a");
    assert Matches(ColumnKey(MEMBER_TENANT), r, u) && u in RowsOf(db, "s.u");
  }

  lemma FilledCells(t: Table, text: string)
    ensures Cell(Filled(t, text), "id") == Cell(Filled(t, text), TENANT) == Some(text)
    ensures forall i :: 0 <= i < |t.columns| ==> Cell(Filled(t, text), t.columns[i].name) == Some(text)
  {
  }

  lemma MemberColumns()
    ensures FindColumn(REGISTRY.columns, "id") == Some(REGISTRY_ID)
    ensures FindColumn(MEMBER.columns, TENANT) == Some(MEMBER_TENANT)
  {
    assert MEMBER.columns[1..] == [MEMBER_TENANT];
    assert FindColumn([MEMBER_TENANT], TENANT) == Some(MEMBER_TENANT);
  }

  lemma StrayIsBound()
    ensures Bound(STRAY, ColumnKey(STRAY_TENANT), REGISTRY)
  {
    hide FindColumn, IsSpace, Collapse, Trim;
    StrayColumns();
    IdentityText();
    assert IsIdentityCheck(REGISTRY.constraints[0]);
  }

  lemma StrayColumns()
    ensures FindColumn(REGISTRY.columns, "id") == Some(REGISTRY_ID)
    ensures FindColumn(STRAY.columns, TENANT) == Some(STRAY_TENANT)
    ensures FindColumn(STRAY.columns, "other") == Some(STRAY_OTHER)
  {
    assert STRAY.columns[1..] == [STRAY_TENANT, STRAY_OTHER] && [STRAY_TENANT, STRAY_OTHER][1..] == [STRAY_OTHER];
    assert FindColumn([STRAY_OTHER], "other") == Some(STRAY_OTHER);
    assert FindColumn([STRAY_TENANT, STRAY_OTHER], "other") == Some(STRAY_OTHER);
  }

  lemma RegistryFound(u: Table, t: Table)
    requires u.schema == t.schema == "s" && u.name == "u" && t.name == "t"
    ensures Lookup([u, t], Qualified("s", "u")) == Some(u)
  {
    assert Name(u)[2] == 'u' && Name(t)[2] == 't';
    assert [u, t][..1] == [u];
  }

  /** Text whose white space is single blanks is kept. */
  lemma {:induction false} CollapseKeeps(text: string)
    requires forall i :: 0 <= i < |text| && IsSpace(text[i]) ==>
      text[i] == ' ' && (i + 1 < |text| ==> !IsSpace(text[i + 1]))
    ensures Collapse(text) == text
  {
    if text != "" { CollapseKeeps(text[1..]); }
  }

  predicate Spaceless(word: string) { forall i :: 0 <= i < |word| ==> !IsSpace(word[i]) }

  lemma {:induction false} WordStays(word: string, rest: string)
    requires Spaceless(word)
    ensures Collapse(word + rest) == word + Collapse(rest)
  {
    if word == "" {
      assert word + rest == rest;
    } else {
      WordStays(word[1..], rest);
      assert (word + rest)[1..] == word[1..] + rest;
    }
  }

  lemma {:induction false} BlankShrinks(blank: string, rest: string)
    requires blank != "" && Blank(blank) && Spaceless(rest[..if rest == "" then 0 else 1])
    ensures Collapse(blank + rest) == " " + Collapse(rest)
  {
    assert (blank + rest)[1..] == blank[1..] + rest;
    if |blank| == 1 {
      assert blank[1..] + rest == rest;
    } else {
      BlankShrinks(blank[1..], rest);
    }
  }

  lemma {:induction false} SpaceStays(text: string)
    requires text != ""
    ensures Collapse(text) != "" && Collapse(text)[0] == if IsSpace(text[0]) then ' ' else text[0]
  {
    if IsSpace(text[0]) && |text| > 1 && IsSpace(text[1]) { SpaceStays(text[1..]); }
  }

  lemma {:induction false} WordWasThere(text: string, word: string, tail: string) returns (rest: string)
    requires Spaceless(word) && Collapse(text) == word + tail
    ensures text == word + rest && Collapse(rest) == tail
  {
    if word == "" {
      rest := text;
    } else {
      SpaceStays(text);
      assert (word + tail)[0] == word[0] && (word + tail)[1..] == word[1..] + tail;
      rest := WordWasThere(text[1..], word[1..], tail);
      assert text == [text[0]] + text[1..];
    }
  }

  lemma {:induction false} BlankWasThere(text: string, tail: string) returns (blank: string, rest: string)
    requires Collapse(text) == " " + tail
    ensures text == blank + rest && blank != "" && Blank(blank) && Collapse(rest) == tail
  {
    SpaceStays(text);
    assert text == [text[0]] + text[1..];
    if |text| > 1 && IsSpace(text[1]) {
      var more;
      more, rest := BlankWasThere(text[1..], tail);
      blank := [text[0]] + more;
    } else {
      blank, rest := [text[0]], text[1..];
      assert (" " + Collapse(rest))[1..] == (" " + tail)[1..];
    }
  }

  lemma {:induction false} BlanksWereThere(text: string, blanks: string, tail: string)
    returns (blank: string, rest: string)
    requires Collapse(text) == blanks + tail && Blank(blanks)
    ensures text == blank + rest && Blank(blank) && Collapse(rest) == tail
    decreases |blanks|
  {
    if blanks == "" {
      blank, rest := "", text;
    } else {
      SpaceStays(text);
      assert (blanks + tail)[0] == blanks[0] == ' ';
      assert blanks + tail == " " + (blanks[1..] + tail);
      var first, after := BlankWasThere(text, blanks[1..] + tail);
      blank, rest := BlanksWereThere(after, blanks[1..], tail);
      blank := first + blank;
    }
  }

  /** Trimming takes away just the blanks around a text with neither end blank. */
  lemma TrimsTo(a: string, word: string, b: string)
    requires Blank(a) && Blank(b) && word != "" && !IsSpace(word[0]) && !IsSpace(word[|word| - 1])
    ensures Trim(a + (word + b)) == word
  {
    var text := a + (word + b);
    var n := TrimIsInside(text);
    var r := Trim(text);
    hide IsSpace, Trim;
    var m := |a| + |word|;
    assert text[|a|] == word[0] && text[m - 1] == word[|word| - 1];
    assert !Blank(text);
    assert r[0] == text[n] && r[|r| - 1] == text[n + |r| - 1];
    assert forall i :: 0 <= i < n ==> text[..n][i] == text[i];
    assert forall i :: n + |r| <= i < |text| ==> text[n + |r|..][i - n - |r|] == text[i];
    assert forall i :: 0 <= i < |a| ==> IsSpace(text[i]);
    assert forall i :: m <= i < |text| ==> text[i] == b[i - m];
    assert n == |a|;
    assert n + |r| == m;
    assert text[|a|..m] == word;
  }

  /** The check's expression with any white space around its three words. */
  predicate SpacedCheck(text: string, a: string, b: string, c: string, d: string) {
    && text == a + ("id" + (b + ("=" + (c + ("tenant_id" + d)))))
    && Blank(a) && Blank(b) && Blank(c) && Blank(d) && b != "" && c != ""
  }

  lemma SpacingIsIgnored(text: string, a: string, b: string, c: string, d: string)
    requires SpacedCheck(text, a, b, c, d)
    ensures Trim(Collapse(text)) == IDENTITY_CHECK
  {
    hide Collapse, Trim, IsSpace;
    var n3 := "tenant_id" + d;
    var n2 := "=" + (c + n3);
    var n1 := "id" + (b + n2);
    WordsAreSpaceless();
    WordStays("tenant_id", d);
    BlankShrinks(c, n3);
    WordStays("=", c + n3);
    BlankShrinks(b, n2);
    WordStays("id", b + n2);
    var front := if a == "" then "" else " ";
    var back := if d == "" then "" else " ";
    if d != "" { BlankShrinks(d, ""); assert d + "" == d; }
    NothingCollapsed();
    assert Collapse(n1) == IDENTITY_CHECK + back;
    if a == "" { assert text == n1; } else { BlankShrinks(a, n1); }
    assert Collapse(text) == front + (IDENTITY_CHECK + back);
    SolidEnds();
    TrimsTo(front, IDENTITY_CHECK, back);
  }

  lemma CheckWords(end: string)
    ensures IDENTITY_CHECK + end == "id" + (" " + ("=" + (" " + ("tenant_id" + end))))
  {
    assert IDENTITY_CHECK == "id" + (" " + ("=" + (" " + "tenant_id")));
  }

  lemma CollapsedIsSpaced(text: string) returns (a: string, b: string, c: string, d: string)
    requires Trim(Collapse(text)) == IDENTITY_CHECK
    ensures SpacedCheck(text, a, b, c, d)
  {
    hide Collapse, Trim, IsSpace;
    var whole := Collapse(text);
    var n := TrimIsInside(whole);
    var end := whole[n + |IDENTITY_CHECK|..];
    var w2 := "tenant_id" + end;
    var w1 := "=" + (" " + w2);
    WordsAreSpaceless();
    assert whole == whole[..n] + (IDENTITY_CHECK + end);
    CheckWords(end);
    var rest;
    a, rest := BlanksWereThere(text, whole[..n], "id" + (" " + w1));
    rest := WordWasThere(rest, "id", " " + w1);
    b, rest := BlankWasThere(rest, w1);
    rest := WordWasThere(rest, "=", " " + w2);
    c, rest := BlankWasThere(rest, w2);
    rest := WordWasThere(rest, "tenant_id", end);
    d, rest := BlanksWereThere(rest, end, "");
    assert rest == "" by { if rest != "" { SpaceStays(rest); } }
    assert end + "" == end && d + "" == d;
  }

  /** The check is the constraint that a row's `id` is its tenant, in whatever spacing. */
  lemma IdentityCheckMeans(k: Constraint)
    ensures IsIdentityCheck(k) <==>
      k.kind.Check? && exists a, b, c, d :: SpacedCheck(k.kind.expression, a, b, c, d)
  {
    hide Collapse, Trim, SpacedCheck;
    if k.kind.Check? {
      if IsIdentityCheck(k) { var a, b, c, d := CollapsedIsSpaced(k.kind.expression); }
      if a, b, c, d :| SpacedCheck(k.kind.expression, a, b, c, d) { SpacingIsIgnored(k.kind.expression, a, b, c, d); }
    }
  }

  lemma NothingCollapsed()
    ensures Collapse("") == ""
  {
  }

  lemma SolidEnds()
    ensures !IsSpace(IDENTITY_CHECK[0]) && !IsSpace(IDENTITY_CHECK[|IDENTITY_CHECK| - 1]) && Blank("") && Blank(" ")
  {
  }

  lemma WordsAreSpaceless()
    ensures Spaceless("id") && Spaceless("=") && Spaceless("tenant_id")
  {
  }

  lemma IdentityText()
    ensures Trim(Collapse(IDENTITY_CHECK)) == IDENTITY_CHECK
  {
    hide Collapse, Trim;
    CollapseKeeps(IDENTITY_CHECK);
  }

  /** A row with the same text in every cell. */
  function Filled(t: Table, text: string): Row {
    map name | name in Names(t.columns) + {"id", TENANT} :: Some(text)
  }

  function Names(columns: seq<Column>): set<string> { set i | 0 <= i < |columns| :: columns[i].name }
}
