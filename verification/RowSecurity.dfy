/** What the rendered policies let a session do, against a plain reading of the scope. */
module RowSecurity {
  import opened Options
  import opened SqlLogic
  import opened JsWhitespace
  import opened RowPolicies

  // ---------- row security as PostgreSQL applies it ----------

  predicate Covers(p: Policy, command: Applies) { p.applies == All || p.applies == command }

  /** Some permissive policy for the command accepts the row, and no restrictive one rejects it. */
  predicate Admits(rls: Rls, command: Applies, s: Session, row: Row, write: bool) {
    !rls.enabled || (SomePermits(rls.policies, command, s, row, write)
      && NoneRestricts(rls.policies, command, s, row, write))
  }

  predicate SomePermits(policies: seq<Policy>, command: Applies, s: Session, row: Row, write: bool) {
    exists i :: 0 <= i < |policies| && Permits(policies[i], command, s, row, write)
  }

  predicate NoneRestricts(policies: seq<Policy>, command: Applies, s: Session, row: Row, write: bool) {
    forall i :: 0 <= i < |policies| ==> !Restricts(policies[i], command, s, row, write)
  }

  predicate Permits(p: Policy, command: Applies, s: Session, row: Row, write: bool) {
    !p.restrictive && Covers(p, command) && Holds(Side(p, write), s, row)
  }

  predicate Restricts(p: Policy, command: Applies, s: Session, row: Row, write: bool) {
    p.restrictive && Covers(p, command) && !Holds(Side(p, write), s, row)
  }

  function Side(p: Policy, write: bool): Sql { if write then p.write else p.read }

  datatype Access = Read | Add | Remove | Change
  predicate Allowed(rls: Rls, access: Access, s: Session, before: Row, after: Row) {
    match access
    case Read => Admits(rls, Select, s, before, false)
    case Add => Admits(rls, Insert, s, after, true)
    case Remove => Admits(rls, Delete, s, before, false)
    case Change => Admits(rls, Update, s, before, false) && Admits(rls, Update, s, after, true)
  }

  // ---------- a row scope, read plainly ----------

  predicate SameTenant(s: Session, row: Row) {
    s.tenant.Some? && Cell(row, "tenant_id") == s.tenant
  }

  predicate Scoped(scope: Scope) {
    |scope.bypassRoles| > 0 || scope.group.Some? || |scope.userColumns| > 0 || |scope.relationColumns| > 0
    || |scope.nullVisibleColumns| > 0
  }

  predicate OnSomeAxis(scope: Scope, s: Session, row: Row) {
    || (|scope.bypassRoles| > 0 && s.scope == Some("tenant"))
    || (scope.group.Some? && Cell(row, scope.group.value.column).Some?
        && Cell(row, scope.group.value.column).value in s.groups(scope.group.value.expand))
    || (s.user.Some? && exists i :: 0 <= i < |scope.userColumns| && Cell(row, scope.userColumns[i]) == s.user)
    || (s.relation.Some? && exists i ::
      0 <= i < |scope.relationColumns| && Cell(row, scope.relationColumns[i]) == s.relation)
    || (exists i :: 0 <= i < |scope.nullVisibleColumns| && Cell(row, scope.nullVisibleColumns[i]) == None)
  }

  predicate AclAllows(scope: Scope, s: Session, row: Row) {
    scope.recordPermissions.Some? ==>
      s.aclAllows(Cell(row, scope.recordPermissions.value.column), scope.recordPermissions.value.emptyPublic)
  }

  predicate InScope(t: Table, s: Session, row: Row, withAcl: bool) {
    SameTenant(s, row)
    && (t.rowScope.Some? ==>
        (Scoped(t.rowScope.value) ==> OnSomeAxis(t.rowScope.value, s, row))
          && (withAcl ==> AclAllows(t.rowScope.value, s, row)))
  }

  predicate IsWorker(t: Table, databaseRole: string, s: Session) {
    t.workerAccess.Some? && s.databaseUser == databaseRole && s.workerRole == t.workerAccess
  }

  predicate OwnerAdmits(t: Table, s: Session, row: Row) {
    t.ownerAxis.Some? ==>
      || s.bypass
      || (t.ownerAxis.value.command.Some? && CommandSet(t.ownerAxis.value.command.value, s))
      || exists i :: 0 <= i < |t.ownerAxis.value.axes| && AxisAdmits(t.ownerAxis.value.axes[i], s, row)
  }

  predicate CommandSet(command: Command, s: Session) {
    command.setting in s.settings && s.settings[command.setting] != "" && s.settings[command.setting] in command.values
  }

  predicate AxisAdmits(axis: OwnerAxis, s: Session, row: Row) {
    Cell(row, axis.column) != None && (s.bypass || exists role :: role in axis.roles && role in s.roles)
  }

  /** The session sees, through the other table's own policies, the row that this one points to
      within its tenant. */
  predicate SeesDescribed(s: Session, source: Source, row: Row) {
    exists described :: described in s.visible(source.schema, source.table)
      && Cell(row, "tenant_id") != None && Cell(described, "tenant_id") == Cell(row, "tenant_id")
      && Cell(row, source.column) != None && Cell(described, "id") == Cell(row, source.column)
  }

  predicate AccessAdmits(t: Table, s: Session, row: Row) {
    t.recordAccessFrom.Some? ==> s.bypass || SeesDescribed(s, t.recordAccessFrom.value, row)
  }

  // ---------- lowering keeps the meaning ----------

  lemma BranchesMeanAxes(scope: Scope, s: Session, row: Row)
    ensures AnyHolds(ScopeBranches(scope), s, row) <==> OnSomeAxis(scope, s, row)
    ensures ScopeBranches(scope) != [] <==> Scoped(scope)
  {
    var bypass := if |scope.bypassRoles| > 0 then [HasScope("tenant")] else [];
    var group := if scope.group.Some? then [InGroups(scope.group.value.column, scope.group.value.expand)] else [];
    var users, relations := AxisBranches(UserAxis, scope.userColumns),
      AxisBranches(RelationAxis, scope.relationColumns);
    var nulls := AxisBranches(NullAxis, scope.nullVisibleColumns);
    AnyHoldsSplit(bypass + group + users + relations, nulls, s, row);
    AnyHoldsSplit(bypass + group + users, relations, s, row);
    AnyHoldsSplit(bypass + group, users, s, row);
    AnyHoldsSplit(bypass, group, s, row);
    MatchesMean(UserAxis, scope.userColumns, s.user, s, row);
    MatchesMean(RelationAxis, scope.relationColumns, s.relation, s, row);
    NullsMean(scope.nullVisibleColumns, s, row);
    OneHolds(HasScope("tenant"), s, row);
    if scope.group.Some? { OneHolds(InGroups(scope.group.value.column, scope.group.value.expand), s, row); }
  }

  predicate AnyHolds(parts: seq<Sql>, s: Session, row: Row) { exists i :: 0 <= i < |parts| && Holds(parts[i], s, row) }

  lemma AnyHoldsSplit(a: seq<Sql>, b: seq<Sql>, s: Session, row: Row)
    ensures AnyHolds(a + b, s, row) <==> AnyHolds(a, s, row) || AnyHolds(b, s, row)
  {
    if i :| 0 <= i < |a| && Holds(a[i], s, row) { assert (a + b)[i] == a[i]; }
    if i :| 0 <= i < |b| && Holds(b[i], s, row) { assert (a + b)[|a| + i] == b[i]; }
  }

  lemma OneHolds(q: Sql, s: Session, row: Row)
    ensures AnyHolds([q], s, row) <==> Holds(q, s, row)
    ensures AllHold([q], s, row) <==> Holds(q, s, row)
  {
    assert [q][0] == q;
  }

  lemma MatchesMean(axis: Axis, columns: seq<string>, value: Option<Value>, s: Session, row: Row)
    requires (axis == UserAxis && value == s.user) || (axis == RelationAxis && value == s.relation)
    ensures AnyHolds(AxisBranches(axis, columns), s, row)
      <==> exists i :: 0 <= i < |columns| && Cell(row, columns[i]).Some? && Cell(row, columns[i]) == value
  {
    var m := AxisBranches(axis, columns);
    forall i | 0 <= i < |columns|
      ensures Holds(m[i], s, row) <==> Cell(row, columns[i]).Some? && Cell(row, columns[i]) == value {
      assert m[i] == AxisBranch(axis, columns[i]);
    }
  }

  lemma NullsMean(columns: seq<string>, s: Session, row: Row)
    ensures AnyHolds(AxisBranches(NullAxis, columns), s, row) <==>
      exists i :: 0 <= i < |columns| && Cell(row, columns[i]) == None
  {
    var m := AxisBranches(NullAxis, columns);
    forall i | 0 <= i < |columns| ensures Holds(m[i], s, row) <==> Cell(row, columns[i]) == None {
      assert m[i] == IsNull(columns[i]);
    }
  }

  lemma TenantMeans(s: Session, row: Row)
    ensures Holds(TenantMatch(), s, row) <==> SameTenant(s, row)
  {
  }

  lemma ScopeSqlMeans(scope: Scope, worker: seq<Sql>, withAcl: bool, s: Session, row: Row)
    ensures Holds(ScopeSql(scope, ScopeBranches(scope), worker, withAcl), s, row) <==>
      || s.bypass
      || AnyHolds(worker, s, row)
      || (SameTenant(s, row) && (Scoped(scope) ==> OnSomeAxis(scope, s, row)) && (withAcl ==> AclAllows(scope, s, row)))
  {
    hide OnSomeAxis, SameTenant, Scoped, ScopeBranches;
    var branches := ScopeBranches(scope);
    var axes := if branches == [] then [] else [Disj(branches)];
    var acl := if withAcl && scope.recordPermissions.Some?
      then [RecordAllows(scope.recordPermissions.value.column, scope.recordPermissions.value.emptyPublic)] else [];
    var inner := Conj([TenantMatch()] + axes + acl);
    ConjHolds([TenantMatch()] + axes + acl, s, row);
    DisjHolds(branches, s, row);
    BranchesMeanAxes(scope, s, row);
    TenantMeans(s, row);
    AllHoldSplit([TenantMatch()] + axes, acl, s, row);
    AllHoldSplit([TenantMatch()], axes, s, row);
    DisjHolds([Bypass] + worker + [inner], s, row);
    AnyHoldsSplit([Bypass] + worker, [inner], s, row);
    AnyHoldsSplit([Bypass], worker, s, row);
    OneHolds(Bypass, s, row);
    OneHolds(inner, s, row);
    OneHolds(TenantMatch(), s, row);
    OneHolds(Disj(branches), s, row);
    if acl != [] { OneHolds(acl[0], s, row); }
  }

  predicate AllHold(parts: seq<Sql>, s: Session, row: Row) { forall i :: 0 <= i < |parts| ==> Holds(parts[i], s, row) }

  lemma AllHoldSplit(a: seq<Sql>, b: seq<Sql>, s: Session, row: Row)
    ensures AllHold(a + b, s, row) <==> AllHold(a, s, row) && AllHold(b, s, row)
  {
    if AllHold(a + b, s, row) {
      forall i | 0 <= i < |a| ensures Holds(a[i], s, row) { assert (a + b)[i] == a[i]; }
      forall i | 0 <= i < |b| ensures Holds(b[i], s, row) { assert (a + b)[|a| + i] == b[i]; }
    }
  }

  // ---------- what a tenant-scoped table allows ----------

  /** The permissive policy of a tenant-scoped table, read plainly. */
  predicate Entry(t: Table, databaseRole: string, s: Session, row: Row, withAcl: bool) {
    s.bypass || IsWorker(t, databaseRole, s) || InScope(t, s, row, withAcl)
  }

  lemma WorkerMeans(t: Table, databaseRole: string, s: Session, row: Row)
    requires WorkerDisjunct(t, databaseRole).Ok?
    ensures AnyHolds(WorkerDisjunct(t, databaseRole).value, s, row) <==> IsWorker(t, databaseRole, s)
  {
    if t.workerAccess.Some? {
      var both := [IsDatabaseUser(databaseRole), IsWorkerRole(t.workerAccess.value)];
      ConjHolds(both, s, row);
      OneHolds(Conj(both), s, row);
      assert Holds(both[0], s, row) <==> s.databaseUser == databaseRole;
      assert Holds(both[1], s, row) <==> s.workerRole == t.workerAccess;
    }
  }

  lemma TenantPolicyMeans(t: Table, databaseRole: string, s: Session, row: Row)
    requires WorkerDisjunct(t, databaseRole).Ok? && TenantPolicies(t, WorkerDisjunct(t, databaseRole).value).Ok?
    ensures var policies := TenantPolicies(t, WorkerDisjunct(t, databaseRole).value).value;
      && |policies| == 1 && !policies[0].restrictive && policies[0].applies == All
      && (Holds(policies[0].read, s, row) <==> Entry(t, databaseRole, s, row, true))
      && (Holds(policies[0].write, s, row) <==> Entry(t, databaseRole, s, row, false))
  {
    hide OnSomeAxis, SameTenant, Scoped, ScopeBranches, ScopeSql, TenantMatch, IsWorker, Eval, ScopeColumns,
      FirstMissing;
    var worker := WorkerDisjunct(t, databaseRole).value;
    WorkerMeans(t, databaseRole, s, row);
    if t.rowScope.Some? {
      ScopeSqlMeans(t.rowScope.value, worker, true, s, row);
      ScopeSqlMeans(t.rowScope.value, worker, false, s, row);
    } else {
      PlainTenantMeans(worker, s, row);
    }
  }

  lemma PlainTenantMeans(worker: seq<Sql>, s: Session, row: Row)
    ensures Holds(Disj([Bypass] + worker + [TenantMatch()]), s, row) <==>
      s.bypass || AnyHolds(worker, s, row) || SameTenant(s, row)
  {
    DisjHolds([Bypass] + worker + [TenantMatch()], s, row);
    AnyHoldsSplit([Bypass] + worker, [TenantMatch()], s, row);
    AnyHoldsSplit([Bypass], worker, s, row);
    OneHolds(Bypass, s, row);
    OneHolds(TenantMatch(), s, row);
    TenantMeans(s, row);
  }

  lemma OwnerMeans(policy: OwnerPolicy, t: Table, s: Session, row: Row)
    requires t.ownerAxis == Some(policy)
    ensures Holds(OwnerSql(policy), s, row) <==> OwnerAdmits(t, s, row)
  {
    var command := if policy.command.None? then []
      else [SettingIn(policy.command.value.setting, policy.command.value.values)];
    var axes := AxisSqls(policy.axes);
    DisjHolds([Bypass] + command + axes, s, row);
    AnyHoldsSplit([Bypass] + command, axes, s, row);
    AnyHoldsSplit([Bypass], command, s, row);
    OneHolds(Bypass, s, row);
    if policy.command.Some? { OneHolds(command[0], s, row); }
    forall i | 0 <= i < |axes| ensures Holds(axes[i], s, row) <==> AxisAdmits(policy.axes[i], s, row) {
      AxisMeans(policy.axes[i], s, row);
    }
  }

  lemma AxisMeans(axis: OwnerAxis, s: Session, row: Row)
    ensures Holds(AxisSql(axis), s, row) <==> AxisAdmits(axis, s, row)
  {
    var parts := [IsNotNull(axis.column), HasAnyRole(axis.roles)];
    ConjHolds(parts, s, row);
    assert Holds(parts[0], s, row) <==> Cell(row, axis.column).Some?;
    assert Holds(parts[1], s, row) <==> HoldsRole(s, axis.roles);
    assert HoldsRole(s, axis.roles) <==> s.bypass || exists role :: role in axis.roles && role in s.roles by {
      if role :| role in axis.roles && role in s.roles { var i :| 0 <= i < |axis.roles| && axis.roles[i] == role; }
    }
  }

  lemma AccessMeans(source: Source, s: Session, row: Row)
    ensures Holds(Disj([Bypass, Described(source)]), s, row) <==> s.bypass || SeesDescribed(s, source, row)
  {
    var parts := [Bypass, Described(source)];
    DisjHolds(parts, s, row);
    assert Holds(parts[0], s, row) <==> s.bypass;
    assert Holds(parts[1], s, row) <==> DescribedIsVisible(s, source, row);
    if SeesDescribed(s, source, row) {
      var described :| && described in s.visible(source.schema, source.table)
        && Cell(row, "tenant_id") != None && Cell(described, "tenant_id") == Cell(row, "tenant_id")
        && Cell(row, source.column) != None && Cell(described, "id") == Cell(row, source.column);
      assert IsDescribed(described, source, row);
    }
  }

  lemma PoliciesSplit(a: seq<Policy>, b: seq<Policy>, command: Applies, s: Session, row: Row, write: bool)
    ensures SomePermits(a + b, command, s, row, write) <==>
      SomePermits(a, command, s, row, write) || SomePermits(b, command, s, row, write)
    ensures NoneRestricts(a + b, command, s, row, write) <==>
      NoneRestricts(a, command, s, row, write) && NoneRestricts(b, command, s, row, write)
  {
    hide Permits, Restricts;
    if i :| 0 <= i < |a| && Permits(a[i], command, s, row, write) { assert (a + b)[i] == a[i]; }
    if i :| 0 <= i < |b| && Permits(b[i], command, s, row, write) { assert (a + b)[|a| + i] == b[i]; }
    if NoneRestricts(a + b, command, s, row, write) {
      forall i | 0 <= i < |a| ensures !Restricts(a[i], command, s, row, write) { assert (a + b)[i] == a[i]; }
      forall i | 0 <= i < |b| ensures !Restricts(b[i], command, s, row, write) { assert (a + b)[|a| + i] == b[i]; }
    }
  }

  /** What the restrictive policies leave of a command. */
  predicate Kept(t: Table, command: Applies, s: Session, row: Row) {
    && AccessAdmits(t, s, row)
    && (command == Select ==> OwnerAdmits(t, s, row))
    && (command in {Insert, Delete} && t.tenantCheck ==> s.bypass)
  }

  lemma OnePolicy(p: Policy, command: Applies, s: Session, row: Row, write: bool)
    requires p.restrictive && p.read == p.write
    ensures !SomePermits([p], command, s, row, write)
    ensures NoneRestricts([p], command, s, row, write) <==> (Covers(p, command) ==> Holds(p.read, s, row))
  {
    hide Holds;
    assert [p][0] == p;
  }

  lemma OwnerRestricts(t: Table, command: Applies, s: Session, row: Row, write: bool)
    requires OwnerPolicies(t).Ok? && command != All
    ensures !SomePermits(OwnerPolicies(t).value, command, s, row, write)
    ensures NoneRestricts(OwnerPolicies(t).value, command, s, row, write) <==>
      (command == Select ==> OwnerAdmits(t, s, row))
  {
    if t.ownerAxis.Some? {
      var sql := OwnerSql(t.ownerAxis.value);
      OnePolicy(Policy(true, Select, sql, sql), command, s, row, write);
      OwnerMeans(t.ownerAxis.value, t, s, row);
    }
  }

  lemma AccessRestricts(t: Table, command: Applies, s: Session, row: Row, write: bool)
    requires AccessPolicies(t).Ok?
    ensures !SomePermits(AccessPolicies(t).value, command, s, row, write)
    ensures NoneRestricts(AccessPolicies(t).value, command, s, row, write) <==> AccessAdmits(t, s, row)
  {
    if t.recordAccessFrom.Some? {
      var sql := Disj([Bypass, Described(t.recordAccessFrom.value)]);
      OnePolicy(Policy(true, All, sql, sql), command, s, row, write);
      AccessMeans(t.recordAccessFrom.value, s, row);
    }
  }

  lemma RegistryRestricts(t: Table, command: Applies, s: Session, row: Row, write: bool)
    requires t.tenantScoped && command != All
    ensures !SomePermits(RegistryPolicies(t), command, s, row, write)
    ensures NoneRestricts(RegistryPolicies(t), command, s, row, write) <==>
      (command in {Insert, Delete} && t.tenantCheck ==> s.bypass)
  {
    if t.tenantCheck {
      var insert, remove := Policy(true, Insert, Bypass, Bypass), Policy(true, Delete, Bypass, Bypass);
      OnePolicy(insert, command, s, row, write);
      OnePolicy(remove, command, s, row, write);
      PoliciesSplit([insert], [remove], command, s, row, write);
      assert RegistryPolicies(t) == [insert] + [remove];
      BypassMeans(s, row);
    }
  }

  lemma RestrictionsMean(t: Table, command: Applies, s: Session, row: Row, write: bool)
    requires t.tenantScoped && OwnerPolicies(t).Ok? && AccessPolicies(t).Ok? && command != All
    ensures var policies := OwnerPolicies(t).value + AccessPolicies(t).value + RegistryPolicies(t);
      && !SomePermits(policies, command, s, row, write)
      && (NoneRestricts(policies, command, s, row, write) <==> Kept(t, command, s, row))
  {
    hide SomePermits, NoneRestricts, OwnerPolicies, AccessPolicies, RegistryPolicies, OwnerAdmits, AccessAdmits;
    var owner, access, registry := OwnerPolicies(t).value, AccessPolicies(t).value, RegistryPolicies(t);
    PoliciesSplit(owner + access, registry, command, s, row, write);
    PoliciesSplit(owner, access, command, s, row, write);
    OwnerRestricts(t, command, s, row, write);
    AccessRestricts(t, command, s, row, write);
    RegistryRestricts(t, command, s, row, write);
  }

  lemma BypassMeans(s: Session, row: Row)
    ensures Holds(Bypass, s, row) <==> s.bypass
  {
  }

  /** Exactly the rows a session reads, adds, removes and changes in a tenant-scoped table. */
  lemma TenantTableMeans(t: Table, databaseRole: string, s: Session, command: Applies, row: Row, write: bool)
    requires t.tenantScoped && TablePolicies(t, databaseRole).Ok? && command != All
    ensures Admits(TablePolicies(t, databaseRole).value, command, s, row, write)
      <==> Entry(t, databaseRole, s, row, !write) && Kept(t, command, s, row)
  {
    hide Eval, OwnerPolicies, AccessPolicies, RegistryPolicies, TenantPolicies, Entry, Kept;
    var first := TenantPolicies(t, WorkerDisjunct(t, databaseRole).value).value;
    var rest := OwnerPolicies(t).value + AccessPolicies(t).value + RegistryPolicies(t);
    TenantPolicyMeans(t, databaseRole, s, row);
    RestrictionsMean(t, command, s, row, write);
    PoliciesSplit(first, rest, command, s, row, write);
    assert TablePolicies(t, databaseRole).value.policies == first + rest;
    assert Permits(first[0], command, s, row, write) <==> Entry(t, databaseRole, s, row, !write);
  }

  /** Tenant isolation: without the bypass and the table's worker role, every row a session
      reads, adds, removes or changes, before and after, belongs to the session's tenant. */
  lemma TenantIsolation(t: Table, databaseRole: string, s: Session, access: Access, before: Row, after: Row)
    requires t.tenantScoped && TablePolicies(t, databaseRole).Ok? && !s.bypass && !IsWorker(t, databaseRole, s)
    requires Allowed(TablePolicies(t, databaseRole).value, access, s, before, after)
    ensures access != Add ==> SameTenant(s, before)
    ensures access in {Add, Change} ==> SameTenant(s, after)
  {
    hide Admits, TablePolicies;
    TenantTableMeans(t, databaseRole, s, Select, before, false);
    TenantTableMeans(t, databaseRole, s, Insert, after, true);
    TenantTableMeans(t, databaseRole, s, Delete, before, false);
    TenantTableMeans(t, databaseRole, s, Update, before, false);
    TenantTableMeans(t, databaseRole, s, Update, after, true);
  }

  /** Dropping the owner-axis and record-access declarations never takes a row away, and
      what they take away is exactly what their own conditions say. */
  lemma RestrictivePoliciesOnlyShrink(t: Table, databaseRole: string, s: Session, row: Row)
    requires t.tenantScoped && TablePolicies(t, databaseRole).Ok?
    ensures var bare := t.(ownerAxis := None, recordAccessFrom := None);
      && TablePolicies(bare, databaseRole).Ok?
      && (Admits(TablePolicies(t, databaseRole).value, Select, s, row, false)
          <==> (&& Admits(TablePolicies(bare, databaseRole).value, Select, s, row, false)
                && OwnerAdmits(t, s, row) && AccessAdmits(t, s, row)))
  {
    var bare := t.(ownerAxis := None, recordAccessFrom := None);
    assert TablePolicies(bare, databaseRole).Ok?;
    hide Admits, TablePolicies;
    TenantTableMeans(t, databaseRole, s, Select, row, false);
    TenantTableMeans(bare, databaseRole, s, Select, row, false);
    assert Entry(t, databaseRole, s, row, true) == Entry(bare, databaseRole, s, row, true);
  }

  /** USING implies WITH CHECK: what the permissive policy lets a session read it lets it write. */
  lemma ReadableIsWritable(t: Table, databaseRole: string, s: Session, row: Row)
    requires WorkerDisjunct(t, databaseRole).Ok? && TenantPolicies(t, WorkerDisjunct(t, databaseRole).value).Ok?
    ensures var p := TenantPolicies(t, WorkerDisjunct(t, databaseRole).value).value[0];
      Holds(p.read, s, row) ==> Holds(p.write, s, row)
  {
    TenantPolicyMeans(t, databaseRole, s, row);
  }

  /** A global tenant registry: without the bypass a session reads its own tenant's row and
      adds and changes nothing. It may remove that row: DELETE only asks the read side. */
  lemma RegistryMeans(t: Table, databaseRole: string, s: Session, access: Access, before: Row, after: Row)
    requires !t.tenantScoped && t.tenantIdentityColumn.Some? && TablePolicies(t, databaseRole).Ok?
    ensures Allowed(TablePolicies(t, databaseRole).value, access, s, before, after) <==>
      s.bypass || (access in {Read, Remove} && s.tenant.Some? && Cell(before, t.tenantIdentityColumn.value) == s.tenant)
  {
    var own := Same(Column(t.tenantIdentityColumn.value), CurrentTenant);
    var p := Policy(false, All, Disj([Bypass, own]), Bypass);
    assert TablePolicies(t, databaseRole).value == Rls(true, [p]);
    DisjHolds([Bypass, own], s, before);
    assert Holds(own, s, before) <==> s.tenant.Some? && Cell(before, t.tenantIdentityColumn.value) == s.tenant;
    assert Holds([Bypass, own][0], s, before) <==> s.bypass;
    assert Holds([Bypass, own][1], s, before) <==> Holds(own, s, before);
    assert [p][0] == p;
    BypassMeans(s, after);
    forall command, row, write
      ensures Admits(Rls(true, [p]), command, s, row, write) <==> Holds(Side(p, write), s, row) {
      assert SomePermits([p], command, s, row, write) <==> Permits([p][0], command, s, row, write);
    }
  }

  /** Any other global table may declare neither worker access nor an owner axis nor record access;
      it then gets no policy, and row security keeps nothing from anybody. */
  lemma GlobalTableMeans(t: Table, databaseRole: string, s: Session, access: Access, before: Row, after: Row)
    requires !t.tenantScoped && t.tenantIdentityColumn.None?
    ensures TablePolicies(t, databaseRole).Ok? <==>
      t.workerAccess.None? && t.ownerAxis.None? && t.recordAccessFrom.None?
    ensures TablePolicies(t, databaseRole).Ok? ==>
      && TablePolicies(t, databaseRole).value.policies == []
      && Allowed(TablePolicies(t, databaseRole).value, access, s, before, after)
  {
  }

  /** A table renders exactly when each of its declarations fits it: worker access, owner axis and
      record access only where rows have a tenant, an identity column only where they have none,
      and every column they name is there. */
  lemma TableRendersIff(t: Table, databaseRole: string)
    ensures TablePolicies(t, databaseRole).Ok? <==>
      && (t.workerAccess.Some? ==> t.tenantScoped && !Blank(t.workerAccess.value))
      && (t.tenantIdentityColumn.Some? ==>
            !t.tenantScoped && !Blank(t.tenantIdentityColumn.value) && t.tenantIdentityColumn.value in t.columns)
      && (t.tenantScoped && t.rowScope.Some? ==> AllPresent(t.rowScope.value, t.columns))
      && (t.ownerAxis.Some? ==> t.tenantScoped && forall i :: 0 <= i < |t.ownerAxis.value.axes| ==>
            t.ownerAxis.value.axes[i].column in t.columns)
      && (t.recordAccessFrom.Some? ==> t.tenantScoped && t.recordAccessFrom.value.column in t.columns)
  {
    hide ScopeColumns, FirstMissing, FirstMissingAxis, AllPresent, ScopeSql, OwnerSql;
    if t.rowScope.Some? { ScopeBuildsIff(t, [], true); }
    if t.ownerAxis.Some? { AxesPresentIff(t.ownerAxis.value.axes, t.columns); }
  }

  lemma {:induction false} AxesPresentIff(axes: seq<OwnerAxis>, present: set<string>)
    ensures FirstMissingAxis(axes, present).None? <==> forall i :: 0 <= i < |axes| ==> axes[i].column in present
  {
    if axes != [] {
      AxesPresentIff(axes[1..], present);
      assert forall i :: 0 < i < |axes| ==> axes[1..][i - 1] == axes[i];
    }
  }
}
