/** The row-level-security policies of a table: how a row scope is lowered to SQL
    predicates, and what a session may then read and write. */
module RowPolicies {
  import opened Options
  import opened SqlLogic
  import opened JsWhitespace

  type Value = string
  type Row = map<string, Option<Value>>
  datatype Result<+T> = Ok(value: T) | Err(error: Error)

  // ---------- tables ----------

  datatype Expand = Descendants | Exact | Ancestors
  datatype Group = Group(column: string, expand: Expand)
  datatype Acl = Acl(column: string, emptyPublic: bool)
  datatype Scope = Scope(
    bypassRoles: seq<string>,
    group: Option<Group>,
    userColumns: seq<string>,
    relationColumns: seq<string>,
    nullVisibleColumns: seq<string>,
    recordPermissions: Option<Acl>)
  datatype OwnerAxis = OwnerAxis(column: string, roles: seq<string>)
  datatype Command = Command(setting: string, values: seq<string>)
  datatype OwnerPolicy = OwnerPolicy(axes: seq<OwnerAxis>, command: Option<Command>)
  datatype Source = Source(schema: string, table: string, column: string)

  /** `tenantCheck`: the table carries the constraint that its rows are their tenant. */
  datatype Table = Table(
    columns: set<string>,
    tenantScoped: bool,
    workerAccess: Option<string>,
    tenantIdentityColumn: Option<string>,
    tenantCheck: bool,
    rowScope: Option<Scope>,
    ownerAxis: Option<OwnerPolicy>,
    recordAccessFrom: Option<Source>)

  datatype Axis = GroupAxis | UserAxis | RelationAxis | NullAxis | RecordAxis
  datatype Error =
    | EmptyWorkerAccess
    | WorkerAccessNotTenantScoped
    | EmptyIdentityColumn
    | IdentityColumnTenantScoped
    | MissingIdentityColumn(column: string)
    | MissingScopeColumn(axis: Axis, column: string)
    | OwnerAxisNotTenantScoped
    | MissingOwnerColumn(column: string)
    | RecordAccessNotTenantScoped
    | MissingAccessColumn(column: string)

  // ---------- predicates ----------

  datatype Term = Column(name: string) | CurrentTenant | CurrentUserId | CurrentRelationId
  datatype Sql =
    | Bypass
    | HasScope(target: string)
    | IsDatabaseUser(role: string)
    | IsWorkerRole(role: string)
    | Same(left: Term, right: Term)
    | InGroups(column: string, expand: Expand)
    | IsNull(column: string)
    | IsNotNull(column: string)
    | RecordAllows(column: string, emptyPublic: bool)
    | HasAnyRole(roles: seq<string>)
    | SettingIn(setting: string, values: seq<string>)
    | Described(source: Source)
    | Conj(parts: seq<Sql>)
    | Disj(parts: seq<Sql>)

  /** What the helper functions of the `app` schema read from a session. `aclAllows`
      is the stored decision on a record's permission document; `visible` holds the
      rows of other tables this session sees through their own policies. */
  datatype Session = Session(
    bypass: bool,
    databaseUser: string,
    workerRole: Option<string>,
    tenant: Option<Value>,
    user: Option<Value>,
    relation: Option<Value>,
    groups: Expand -> seq<Value>,
    scope: Option<string>,
    roles: set<string>,
    settings: map<string, string>,
    aclAllows: (Option<Value>, bool) -> bool,
    visible: (string, string) -> set<Row>)

  /** A column's value; NULL when a snapshot leaves the column out. */
  function Cell(row: Row, column: string): Option<Value> { if column in row then row[column] else None }

  function TermValue(t: Term, s: Session, row: Row): Option<Value> {
    match t
    case Column(name) => Cell(row, name)
    case CurrentTenant => s.tenant
    case CurrentUserId => s.user
    case CurrentRelationId => s.relation
  }

  /** `a = ANY (items)`: false on the empty array even for NULL. */
  function EqAny(a: Option<Value>, items: seq<Value>): Tri { if items == [] then False else In(a, items) }

  /** `nullif(current_setting(name, true), '')` */
  function Setting(s: Session, name: string): Option<string> {
    if name in s.settings && s.settings[name] != "" then Some(s.settings[name]) else None
  }

  predicate IsDescribed(described: Row, source: Source, row: Row) {
    Eq(Cell(described, "tenant_id"), Cell(row, "tenant_id")) == True
      && Eq(Cell(described, "id"), Cell(row, source.column)) == True
  }

  predicate HoldsRole(s: Session, roles: seq<string>) { s.bypass || exists i ::
      0 <= i < |roles| && roles[i] in s.roles }

  predicate DescribedIsVisible(s: Session, source: Source, row: Row) {
    exists described :: described in s.visible(source.schema, source.table) && IsDescribed(described, source, row)
  }

  function Eval(q: Sql, s: Session, row: Row): Tri {
    match q
    case Bypass => Of(s.bypass)
    case HasScope(target) => Eq(s.scope, Some(target))
    case IsDatabaseUser(role) => Of(s.databaseUser == role)
    case IsWorkerRole(role) => Eq(s.workerRole, Some(role))
    case Same(l, r) => Eq(TermValue(l, s, row), TermValue(r, s, row))
    case InGroups(column, expand) => EqAny(Cell(row, column), s.groups(expand))
    case IsNull(column) => Of(Cell(row, column).None?)
    case IsNotNull(column) => Of(Cell(row, column).Some?)
    case RecordAllows(column, emptyPublic) => Of(s.aclAllows(Cell(row, column), emptyPublic))
    case HasAnyRole(roles) => Of(HoldsRole(s, roles))
    case SettingIn(setting, values) => In(Setting(s, setting), values)
    case Described(source) => Of(DescribedIsVisible(s, source, row))
    case Conj(parts) => AllOf(seq(|parts|, i requires 0 <= i < |parts| => Eval(parts[i], s, row)))
    case Disj(parts) => AnyOf(seq(|parts|, i requires 0 <= i < |parts| => Eval(parts[i], s, row)))
  }

  predicate Holds(q: Sql, s: Session, row: Row) { Eval(q, s, row) == True }

  lemma DisjHolds(parts: seq<Sql>, s: Session, row: Row)
    ensures Holds(Disj(parts), s, row) <==> exists i :: 0 <= i < |parts| && Holds(parts[i], s, row)
  {
    var values := seq(|parts|, i requires 0 <= i < |parts| => Eval(parts[i], s, row));
    AnyOfTrue(values);
    if i :| 0 <= i < |parts| && Holds(parts[i], s, row) { assert values[i] == True; }
    if Holds(Disj(parts), s, row) {
      var i :| 0 <= i < |values| && values[i] == True;
      assert Holds(parts[i], s, row);
    }
  }

  lemma {:induction false} AllOfTrue(items: seq<Tri>)
    ensures AllOf(items) == True <==> forall i :: 0 <= i < |items| ==> items[i] == True
  {
    if items != [] {
      var n := |items| - 1;
      AllOfTrue(items[..n]);
      assert forall i :: 0 <= i < n ==> items[..n][i] == items[i];
    }
  }

  lemma ConjHolds(parts: seq<Sql>, s: Session, row: Row)
    ensures Holds(Conj(parts), s, row) <==> forall i :: 0 <= i < |parts| ==> Holds(parts[i], s, row)
  {
    var values := seq(|parts|, i requires 0 <= i < |parts| => Eval(parts[i], s, row));
    AllOfTrue(values);
    assert forall i :: 0 <= i < |parts| ==> values[i] == Eval(parts[i], s, row);
  }

  // ---------- lowering ----------

  /** The worker disjunct, spliced behind the bypass; nothing without `workerAccess`. */
  function WorkerDisjunct(t: Table, databaseRole: string): Result<seq<Sql>> {
    if t.workerAccess.None? then Ok([])
    else if Blank(t.workerAccess.value) then Err(EmptyWorkerAccess)
    else if !t.tenantScoped then Err(WorkerAccessNotTenantScoped)
    else Ok([Conj([IsDatabaseUser(databaseRole), IsWorkerRole(t.workerAccess.value)])])
  }

  function TenantMatch(): Sql { Same(Column("tenant_id"), CurrentTenant) }

  function Tagged(axis: Axis, columns: seq<string>): seq<(Axis, string)> {
    seq(|columns|, i requires 0 <= i < |columns| => (axis, columns[i]))
  }

  /** The columns a scope names, in the order they are checked. */
  function ScopeColumns(scope: Scope): seq<(Axis, string)> {
    GroupColumns(scope)
    + Tagged(UserAxis, scope.userColumns) + Tagged(RelationAxis, scope.relationColumns)
    + Tagged(NullAxis, scope.nullVisibleColumns) + AclColumns(scope)
  }

  function GroupColumns(scope: Scope): seq<(Axis, string)> {
    if scope.group.Some? then [(GroupAxis, scope.group.value.column)] else []
  }

  function AclColumns(scope: Scope): seq<(Axis, string)> {
    if scope.recordPermissions.Some? then [(RecordAxis, scope.recordPermissions.value.column)] else []
  }

  function FirstMissing(named: seq<(Axis, string)>, present: set<string>): Option<(Axis, string)> {
    if named == [] then None
    else if named[0].1 !in present then Some(named[0])
    else FirstMissing(named[1..], present)
  }

  function ScopeBranches(scope: Scope): seq<Sql> {
    (if |scope.bypassRoles| > 0 then [HasScope("tenant")] else [])
    + (if scope.group.Some? then [InGroups(scope.group.value.column, scope.group.value.expand)] else [])
    + AxisBranches(UserAxis, scope.userColumns) + AxisBranches(RelationAxis, scope.relationColumns)
    + AxisBranches(NullAxis, scope.nullVisibleColumns)
  }

  function ScopeSql(scope: Scope, branches: seq<Sql>, worker: seq<Sql>, withAcl: bool): Sql {
    var axes := if branches == [] then [] else [Disj(branches)];
    var acl := if withAcl && scope.recordPermissions.Some?
      then [RecordAllows(scope.recordPermissions.value.column, scope.recordPermissions.value.emptyPublic)] else [];
    Disj([Bypass] + worker + [Conj([TenantMatch()] + axes + acl)])
  }

  /** The row-scope predicate; `None` for a table without a row scope. */
  function RowScopeSql(t: Table, worker: seq<Sql>, withAcl: bool): Result<Option<Sql>> {
    if t.rowScope.None? then Ok(None)
    else
      var scope := t.rowScope.value;
      var missing := FirstMissing(ScopeColumns(scope), t.columns);
      if missing.Some? then Err(MissingScopeColumn(missing.value.0, missing.value.1))
      else Ok(Some(ScopeSql(scope, ScopeBranches(scope), worker, withAcl)))
  }

  lemma {:induction false} FirstMissingSplit(a: seq<(Axis, string)>, b: seq<(Axis, string)>, present: set<string>)
    ensures FirstMissing(a + b, present)
         == if FirstMissing(a, present).Some? then FirstMissing(a, present) else FirstMissing(b, present)
  {
    if a == [] {
      assert a + b == b;
    } else {
      FirstMissingSplit(a[1..], b, present);
      assert (a + b)[1..] == a[1..] + b;
    }
  }

  lemma {:induction false} FirstMissingNone(named: seq<(Axis, string)>, present: set<string>)
    ensures FirstMissing(named, present) == None <==> forall i :: 0 <= i < |named| ==> named[i].1 in present
  {
    if named != [] {
      FirstMissingNone(named[1..], present);
      assert forall i :: 1 <= i < |named| ==> named[i] == named[1..][i - 1];
    }
  }

  /** Every column the scope names is one of these. */
  predicate AllPresent(scope: Scope, present: set<string>) {
    && (scope.group.Some? ==> scope.group.value.column in present)
    && (forall i :: 0 <= i < |scope.userColumns| ==> scope.userColumns[i] in present)
    && (forall i :: 0 <= i < |scope.relationColumns| ==> scope.relationColumns[i] in present)
    && (forall i :: 0 <= i < |scope.nullVisibleColumns| ==> scope.nullVisibleColumns[i] in present)
    && (scope.recordPermissions.Some? ==> scope.recordPermissions.value.column in present)
  }

  /** The predicate renders exactly when every column the scope names is defined. */
  lemma ScopeBuildsIff(t: Table, worker: seq<Sql>, withAcl: bool)
    ensures RowScopeSql(t, worker, withAcl).Ok? <==> (t.rowScope.Some? ==> AllPresent(t.rowScope.value, t.columns))
  {
    if t.rowScope.Some? {
      var scope := t.rowScope.value;
      var u, r, n := Tagged(UserAxis, scope.userColumns), Tagged(RelationAxis, scope.relationColumns),
        Tagged(NullAxis, scope.nullVisibleColumns);
      FirstMissingSplit(GroupColumns(scope) + u + r + n, AclColumns(scope), t.columns);
      FirstMissingSplit(GroupColumns(scope) + u + r, n, t.columns);
      FirstMissingSplit(GroupColumns(scope) + u, r, t.columns);
      FirstMissingSplit(GroupColumns(scope), u, t.columns);
      AxisPresentIff(UserAxis, scope.userColumns, t.columns);
      AxisPresentIff(RelationAxis, scope.relationColumns, t.columns);
      AxisPresentIff(NullAxis, scope.nullVisibleColumns, t.columns);
      FirstMissingNone(GroupColumns(scope), t.columns);
      FirstMissingNone(AclColumns(scope), t.columns);
    }
  }

  lemma AxisPresentIff(axis: Axis, columns: seq<string>, present: set<string>)
    ensures FirstMissing(Tagged(axis, columns), present) == None
      <==> forall i :: 0 <= i < |columns| ==> columns[i] in present
  {
    FirstMissingNone(Tagged(axis, columns), present);
    assert forall i :: 0 <= i < |columns| ==> Tagged(axis, columns)[i].1 == columns[i];
  }

  function AxisBranch(axis: Axis, column: string): Sql {
    match axis
    case UserAxis => Same(Column(column), CurrentUserId)
    case RelationAxis => Same(Column(column), CurrentRelationId)
    case _ => IsNull(column)
  }

  function AxisBranches(axis: Axis, columns: seq<string>): seq<Sql> {
    seq(|columns|, i requires 0 <= i < |columns| => AxisBranch(axis, columns[i]))
  }

  /** One more column of an axis, checked. */
  lemma CheckNext(axis: Axis, columns: seq<string>, present: set<string>, i: nat)
    requires i < |columns| && FirstMissing(Tagged(axis, columns)[..i], present) == None
    ensures columns[i] !in present ==> FirstMissing(Tagged(axis, columns), present) == Some((axis, columns[i]))
    ensures columns[i] in present ==> FirstMissing(Tagged(axis, columns)[..i + 1], present) == None
  {
    var tagged := Tagged(axis, columns);
    assert tagged == tagged[..i] + tagged[i..] && tagged[..i + 1] == tagged[..i] + [tagged[i]];
    FirstMissingSplit(tagged[..i], tagged[i..], present);
    FirstMissingSplit(tagged[..i], [tagged[i]], present);
    assert [tagged[i]][1..] == [];
  }

  /** One axis of the renderer: each column is checked, then its branch pushed. */
  method PushBranches(axis: Axis, columns: seq<string>, present: set<string>, start: seq<Sql>)
    returns (branches: seq<Sql>, missing: Option<(Axis, string)>)
    ensures missing == FirstMissing(Tagged(axis, columns), present)
    ensures missing == None ==> branches == start + AxisBranches(axis, columns)
  {
    hide FirstMissing, AxisBranch;
    branches := start;
    NothingMissing(present);
    for i := 0 to |columns|
      invariant FirstMissing(Tagged(axis, columns)[..i], present) == None
      invariant branches == start + AxisBranches(axis, columns)[..i]
    {
      CheckNext(axis, columns, present, i);
      if columns[i] !in present { return branches, Some((axis, columns[i])); }
      branches := branches + [AxisBranch(axis, columns[i])];
    }
    assert Tagged(axis, columns)[..|columns|] == Tagged(axis, columns);
    assert AxisBranches(axis, columns)[..|columns|] == AxisBranches(axis, columns);
    missing := None;
  }

  lemma NothingMissing(present: set<string>)
    ensures FirstMissing([], present) == None
  {
  }

  method RenderRowScopePredicate(t: Table, worker: seq<Sql>, withAcl: bool) returns (r: Result<Option<Sql>>)
    ensures r == RowScopeSql(t, worker, withAcl)
  {
    hide FirstMissing, Tagged, ScopeColumns, ScopeSql, AxisBranches;
    if t.rowScope.None? { return Ok(None); }
    var scope := t.rowScope.value;
    var branches: seq<Sql> := [];
    ScopeColumnsInOrder(scope, GroupColumns(scope), AclColumns(scope), t.columns);
    if |scope.bypassRoles| > 0 { branches := branches + [HasScope("tenant")]; }
    if scope.group.Some? {
      if scope.group.value.column !in t.columns { return Err(MissingScopeColumn(GroupAxis, scope.group.value.column)); }
      branches := branches + [InGroups(scope.group.value.column, scope.group.value.expand)];
    } else {
      NothingMissing(t.columns);
    }
    var missing: Option<(Axis, string)>;
    branches, missing := PushBranches(UserAxis, scope.userColumns, t.columns, branches);
    if missing.Some? { return Err(MissingScopeColumn(missing.value.0, missing.value.1)); }
    branches, missing := PushBranches(RelationAxis, scope.relationColumns, t.columns, branches);
    if missing.Some? { return Err(MissingScopeColumn(missing.value.0, missing.value.1)); }
    branches, missing := PushBranches(NullAxis, scope.nullVisibleColumns, t.columns, branches);
    if missing.Some? { return Err(MissingScopeColumn(missing.value.0, missing.value.1)); }
    if scope.recordPermissions.Some? && scope.recordPermissions.value.column !in t.columns {
      return Err(MissingScopeColumn(RecordAxis, scope.recordPermissions.value.column));
    }
    if scope.recordPermissions.None? { NothingMissing(t.columns); }
    assert branches == ScopeBranches(scope);
    return Ok(Some(ScopeSql(scope, branches, worker, withAcl)));
  }

  lemma ScopeColumnsInOrder(scope: Scope, g: seq<(Axis, string)>, acl: seq<(Axis, string)>, present: set<string>)
    requires g == GroupColumns(scope) && acl == AclColumns(scope)
    ensures FirstMissing(ScopeColumns(scope), present) ==
      if FirstMissing(g, present).Some? then FirstMissing(g, present)
      else if FirstMissing(Tagged(UserAxis, scope.userColumns), present).Some?
        then FirstMissing(Tagged(UserAxis, scope.userColumns), present)
      else if FirstMissing(Tagged(RelationAxis, scope.relationColumns), present).Some?
        then FirstMissing(Tagged(RelationAxis, scope.relationColumns), present)
      else if FirstMissing(Tagged(NullAxis, scope.nullVisibleColumns), present).Some?
        then FirstMissing(Tagged(NullAxis, scope.nullVisibleColumns), present)
      else FirstMissing(acl, present)
    ensures g != [] ==> FirstMissing(g, present) == if g[0].1 in present then None else Some(g[0])
    ensures acl != [] ==> FirstMissing(acl, present) == if acl[0].1 in present then None else Some(acl[0])
  {
    var u, r, n := Tagged(UserAxis, scope.userColumns), Tagged(RelationAxis, scope.relationColumns),
      Tagged(NullAxis, scope.nullVisibleColumns);
    FirstMissingSplit(g + u + r + n, acl, present);
    FirstMissingSplit(g + u + r, n, present);
    FirstMissingSplit(g + u, r, present);
    FirstMissingSplit(g, u, present);
    assert g != [] ==> g[1..] == [];
    assert acl != [] ==> acl[1..] == [];
  }

  // ---------- the policies of a table ----------

  datatype Applies = All | Select | Insert | Update | Delete
  datatype Policy = Policy(restrictive: bool, applies: Applies, read: Sql, write: Sql)

  /** Row security is enforced for a table with policies; a global table has none. */
  datatype Rls = Rls(enabled: bool, policies: seq<Policy>)

  function IdentityPolicies(t: Table): Result<seq<Policy>> {
    if t.tenantIdentityColumn.None? then Ok([])
    else if Blank(t.tenantIdentityColumn.value) then Err(EmptyIdentityColumn)
    else if t.tenantScoped then Err(IdentityColumnTenantScoped)
    else if t.tenantIdentityColumn.value !in t.columns then Err(MissingIdentityColumn(t.tenantIdentityColumn.value))
    else Ok([Policy(false, All, Disj([Bypass, Same(Column(t.tenantIdentityColumn.value), CurrentTenant)]), Bypass)])
  }

  function TenantPolicies(t: Table, worker: seq<Sql>): Result<seq<Policy>> {
    var read := RowScopeSql(t, worker, true);
    if read.Err? then Err(read.error)
    else if read.value.None? then
      var tenant := Disj([Bypass] + worker + [TenantMatch()]);
      Ok([Policy(false, All, tenant, tenant)])
    else if t.rowScope.value.recordPermissions.None? then Ok([Policy(false, All, read.value.value, read.value.value)])
    else Ok([Policy(false, All, read.value.value, RowScopeSql(t, worker, false).value.value)])
  }

  function AxisSql(axis: OwnerAxis): Sql { Conj([IsNotNull(axis.column), HasAnyRole(axis.roles)]) }

  function AxisSqls(axes: seq<OwnerAxis>): seq<Sql> {
    seq(|axes|, i requires 0 <= i < |axes| => AxisSql(axes[i]))
  }

  function FirstMissingAxis(axes: seq<OwnerAxis>, present: set<string>): Option<string> {
    if axes == [] then None
    else if axes[0].column !in present then Some(axes[0].column)
    else FirstMissingAxis(axes[1..], present)
  }

  function OwnerSql(policy: OwnerPolicy): Sql {
    var command := if policy.command.None? then []
      else [SettingIn(policy.command.value.setting, policy.command.value.values)];
    Disj([Bypass] + command + AxisSqls(policy.axes))
  }

  function OwnerPolicies(t: Table): Result<seq<Policy>> {
    if t.ownerAxis.None? then Ok([])
    else if !t.tenantScoped then Err(OwnerAxisNotTenantScoped)
    else
      var missing := FirstMissingAxis(t.ownerAxis.value.axes, t.columns);
      if missing.Some? then Err(MissingOwnerColumn(missing.value))
      else
        var sql := OwnerSql(t.ownerAxis.value);
        Ok([Policy(true, Select, sql, sql)])
  }

  method RenderOwnerAxisPolicy(t: Table) returns (r: Result<seq<Policy>>)
    ensures r == OwnerPolicies(t)
  {
    if t.ownerAxis.None? { return Ok([]); }
    var policy := t.ownerAxis.value;
    if !t.tenantScoped { return Err(OwnerAxisNotTenantScoped); }
    var branches := [Bypass];
    if policy.command.Some? {
      branches := branches + [SettingIn(policy.command.value.setting, policy.command.value.values)];
    }
    ghost var start := branches;
    for i := 0 to |policy.axes|
      invariant FirstMissingAxis(policy.axes, t.columns) == FirstMissingAxis(policy.axes[i..], t.columns)
      invariant branches == start + AxisSqls(policy.axes)[..i]
    {
      var axis := policy.axes[i];
      assert policy.axes[i..][1..] == policy.axes[i + 1..];
      if axis.column !in t.columns { return Err(MissingOwnerColumn(axis.column)); }
      branches := branches + [AxisSql(axis)];
    }
    assert AxisSqls(policy.axes)[..|policy.axes|] == AxisSqls(policy.axes);
    return Ok([Policy(true, Select, Disj(branches), Disj(branches))]);
  }

  function AccessPolicies(t: Table): Result<seq<Policy>> {
    if t.recordAccessFrom.None? then Ok([])
    else if !t.tenantScoped then Err(RecordAccessNotTenantScoped)
    else if t.recordAccessFrom.value.column !in t.columns then Err(MissingAccessColumn(t.recordAccessFrom.value.column))
    else
      var sql := Disj([Bypass, Described(t.recordAccessFrom.value)]);
      Ok([Policy(true, All, sql, sql)])
  }

  function RegistryPolicies(t: Table): seq<Policy> {
    if !t.tenantScoped || !t.tenantCheck then []
    else [Policy(true, Insert, Bypass, Bypass), Policy(true, Delete, Bypass, Bypass)]
  }

  /** The policy part of a table's schema text. */
  function TablePolicies(t: Table, databaseRole: string): Result<Rls> {
    var worker, identity := WorkerDisjunct(t, databaseRole), IdentityPolicies(t);
    if worker.Err? then Err(worker.error) else if identity.Err? then Err(identity.error) else
    var permissive := if t.tenantScoped then TenantPolicies(t, worker.value) else identity;
    if permissive.Err? then Err(permissive.error) else
    var owner, access := OwnerPolicies(t), AccessPolicies(t);
    if owner.Err? then Err(owner.error) else if access.Err? then Err(access.error) else
    Ok(Rls(permissive.value != [], permissive.value + owner.value + access.value + RegistryPolicies(t)))
  }

  method RenderTablePolicies(t: Table, databaseRole: string) returns (r: Result<Rls>)
    ensures r == TablePolicies(t, databaseRole)
  {
    var worker := WorkerDisjunct(t, databaseRole);
    if worker.Err? { return Err(worker.error); }
    var identity := IdentityPolicies(t);
    if identity.Err? { return Err(identity.error); }
    var policies: seq<Policy> := [];
    if t.tenantScoped {
      var read := RenderRowScopePredicate(t, worker.value, true);
      if read.Err? { return Err(read.error); }
      if read.value.Some? {
        var write := read;
        if t.rowScope.value.recordPermissions.Some? { write := RenderRowScopePredicate(t, worker.value, false); }
        policies := policies + [Policy(false, All, read.value.value, write.value.value)];
      } else {
        var tenant := Disj([Bypass] + worker.value + [TenantMatch()]);
        policies := policies + [Policy(false, All, tenant, tenant)];
      }
    } else {
      policies := policies + identity.value;
    }
    assert policies == (if t.tenantScoped then TenantPolicies(t, worker.value) else identity).value;
    var enabled := policies != [];
    var owner := RenderOwnerAxisPolicy(t);
    if owner.Err? { return Err(owner.error); }
    policies := policies + owner.value;
    var access := AccessPolicies(t);
    if access.Err? { return Err(access.error); }
    policies := policies + access.value;
    policies := policies + RegistryPolicies(t);
    return Ok(Rls(enabled, policies));
  }
}
