/** The read predicate the change stream evaluates over a stored snapshot of a row. */
module RealtimeReads {
  import opened Options
  import opened SqlLogic
  import opened RowPolicies
  import opened RowSecurity

  function ReadPredicate(t: Table): Result<Sql> {
    var scope := RowScopeSql(t, [], true);
    if scope.Err? then Err(scope.error) else Ok(if scope.value.Some? then scope.value.value else TenantMatch())
  }

  function VisibilityColumns(t: Table): set<string> {
    {"tenant_id"} + if t.rowScope.None? then {} else
      var scope := t.rowScope.value;
      (if scope.group.Some? then {scope.group.value.column} else {})
      + (set c | c in scope.userColumns) + (set c | c in scope.relationColumns)
        + (set c | c in scope.nullVisibleColumns)
      + (if scope.recordPermissions.Some? then {scope.recordPermissions.value.column} else {})
  }

  /** The stored snapshot: the visibility columns and nothing else. */
  function Snapshot(t: Table, row: Row): Row { map c | c in VisibilityColumns(t) :: Cell(row, c) }

  // ---------- a predicate reads only the columns it names ----------

  predicate Names(q: Sql, column: string) {
    match q
    case Same(l, r) => l == Column(column) || r == Column(column)
    case InGroups(c, _) => c == column
    case IsNull(c) => c == column
    case IsNotNull(c) => c == column
    case RecordAllows(c, _) => c == column
    case Described(source) => column == "tenant_id" || column == source.column
    case Conj(parts) => exists i :: 0 <= i < |parts| && Names(parts[i], column)
    case Disj(parts) => exists i :: 0 <= i < |parts| && Names(parts[i], column)
    case _ => false
  }

  ghost predicate AgreeOn(q: Sql, a: Row, b: Row) { forall c :: Names(q, c) ==> Cell(a, c) == Cell(b, c) }

  lemma {:induction false} ReadsOnlyNamed(q: Sql, s: Session, a: Row, b: Row)
    requires AgreeOn(q, a, b)
    ensures Eval(q, s, a) == Eval(q, s, b)
    decreases q
  {
    match q {
      case Conj(parts) => PartsReadOnlyNamed(q, parts, s, a, b);
      case Disj(parts) => PartsReadOnlyNamed(q, parts, s, a, b);
      case Same(l, r) =>
        if l.Column? { assert Names(q, l.name); }
        if r.Column? { assert Names(q, r.name); }
      case InGroups(c, _) => assert Names(q, c);
      case IsNull(c) => assert Names(q, c);
      case IsNotNull(c) => assert Names(q, c);
      case RecordAllows(c, _) => assert Names(q, c);
      case Described(source) =>
        assert Names(q, "tenant_id") && Names(q, source.column);
        assert forall d :: IsDescribed(d, source, a) <==> IsDescribed(d, source, b);
      case _ =>
    }
  }

  lemma PartsReadOnlyNamed(q: Sql, parts: seq<Sql>, s: Session, a: Row, b: Row)
    requires (q == Conj(parts) || q == Disj(parts)) && AgreeOn(q, a, b)
    ensures Eval(q, s, a) == Eval(q, s, b)
    decreases q, 0
  {
    forall i | 0 <= i < |parts| ensures Eval(parts[i], s, a) == Eval(parts[i], s, b) {
      forall c | Names(parts[i], c) ensures Names(q, c) {}
      ReadsOnlyNamed(parts[i], s, a, b);
    }
    var x := seq(|parts|, i requires 0 <= i < |parts| => Eval(parts[i], s, a));
    var y := seq(|parts|, i requires 0 <= i < |parts| => Eval(parts[i], s, b));
    assert x == y;
  }

  predicate NamedIn(parts: seq<Sql>, column: string) { exists i :: 0 <= i < |parts| && Names(parts[i], column) }

  lemma NamedInSplit(a: seq<Sql>, b: seq<Sql>, column: string)
    ensures NamedIn(a + b, column) <==> NamedIn(a, column) || NamedIn(b, column)
  {
    if i :| 0 <= i < |a + b| && Names((a + b)[i], column) {
      if i < |a| { assert a[i] == (a + b)[i]; } else { assert b[i - |a|] == (a + b)[i]; }
    }
    if i :| 0 <= i < |a| && Names(a[i], column) { assert (a + b)[i] == a[i]; }
    if i :| 0 <= i < |b| && Names(b[i], column) { assert (a + b)[|a| + i] == b[i]; }
  }

  lemma NamedInOne(q: Sql, column: string)
    ensures NamedIn([q], column) <==> Names(q, column)
  {
    assert [q][0] == q;
  }

  lemma NamedInAxis(axis: Axis, columns: seq<string>, column: string)
    ensures NamedIn(AxisBranches(axis, columns), column) <==> column in columns
  {
    var m := AxisBranches(axis, columns);
    forall i | 0 <= i < |columns| ensures Names(m[i], column) <==> column == columns[i] {
      assert m[i] == AxisBranch(axis, columns[i]);
    }
  }

  lemma NamedInBranches(scope: Scope, column: string)
    ensures NamedIn(ScopeBranches(scope), column) <==>
      (scope.group.Some? && column == scope.group.value.column)
      || column in scope.userColumns || column in scope.relationColumns || column in scope.nullVisibleColumns
  {
    var bypass := if |scope.bypassRoles| > 0 then [HasScope("tenant")] else [];
    var group := if scope.group.Some? then [InGroups(scope.group.value.column, scope.group.value.expand)] else [];
    var users, relations := AxisBranches(UserAxis, scope.userColumns),
      AxisBranches(RelationAxis, scope.relationColumns);
    var nulls := AxisBranches(NullAxis, scope.nullVisibleColumns);
    NamedInSplit(bypass + group + users + relations, nulls, column);
    NamedInSplit(bypass + group + users, relations, column);
    NamedInSplit(bypass + group, users, column);
    NamedInSplit(bypass, group, column);
    NamedInAxis(UserAxis, scope.userColumns, column);
    NamedInAxis(RelationAxis, scope.relationColumns, column);
    NamedInAxis(NullAxis, scope.nullVisibleColumns, column);
    NamedInOne(HasScope("tenant"), column);
    if scope.group.Some? { NamedInOne(InGroups(scope.group.value.column, scope.group.value.expand), column); }
  }

  lemma NamedInScope(scope: Scope, column: string)
    ensures Names(ScopeSql(scope, ScopeBranches(scope), [], true), column) <==>
      column == "tenant_id" || NamedIn(ScopeBranches(scope), column)
      || (scope.recordPermissions.Some? && column == scope.recordPermissions.value.column)
  {
    hide ScopeBranches, AxisBranches;
    var branches := ScopeBranches(scope);
    var axes := if branches == [] then [] else [Disj(branches)];
    var acl := if scope.recordPermissions.Some?
      then [RecordAllows(scope.recordPermissions.value.column, scope.recordPermissions.value.emptyPublic)] else [];
    var parts := [TenantMatch()] + axes + acl;
    assert [Bypass] + [] + [Conj(parts)] == [Bypass] + [Conj(parts)];
    NamedInSplit([Bypass], [Conj(parts)], column);
    NamedInOne(Bypass, column);
    NamedInOne(Conj(parts), column);
    NamedInSplit([TenantMatch()] + axes, acl, column);
    NamedInSplit([TenantMatch()], axes, column);
    NamedInOne(TenantMatch(), column);
    NamedInOne(Disj(branches), column);
    if acl != [] { NamedInOne(acl[0], column); }
    TenantMatchNames(column);
    assert ScopeSql(scope, branches, [], true) == Disj([Bypass] + [Conj(parts)]);
  }

  /** The visibility columns are the columns the predicate reads, and no others. */
  lemma VisibilityIsWhatIsRead(t: Table, column: string)
    requires ReadPredicate(t).Ok?
    ensures column in VisibilityColumns(t) <==> Names(ReadPredicate(t).value, column)
  {
    hide ScopeBranches, ScopeSql, Names;
    TenantMatchNames(column);
    if t.rowScope.Some? {
      NamedInScope(t.rowScope.value, column);
      NamedInBranches(t.rowScope.value, column);
    }
  }

  lemma TenantMatchNames(column: string)
    ensures Names(TenantMatch(), column) <==> column == "tenant_id"
  {
  }

  /** The verdict, NULL included, depends only on the visibility columns. */
  lemma VerdictReadsVisibility(t: Table, s: Session, a: Row, b: Row)
    requires ReadPredicate(t).Ok? && forall c :: c in VisibilityColumns(t) ==> Cell(a, c) == Cell(b, c)
    ensures Eval(ReadPredicate(t).value, s, a) == Eval(ReadPredicate(t).value, s, b)
  {
    forall c | Names(ReadPredicate(t).value, c) ensures Cell(a, c) == Cell(b, c) { VisibilityIsWhatIsRead(t, c); }
    ReadsOnlyNamed(ReadPredicate(t).value, s, a, b);
  }

  /** The snapshot decides exactly as the row would. */
  lemma SnapshotDecides(t: Table, s: Session, row: Row)
    requires ReadPredicate(t).Ok?
    ensures Eval(ReadPredicate(t).value, s, Snapshot(t, row)) == Eval(ReadPredicate(t).value, s, row)
  {
    assert forall c :: c in VisibilityColumns(t) ==> Cell(Snapshot(t, row), c) == Cell(row, c);
    VerdictReadsVisibility(t, s, Snapshot(t, row), row);
  }

  // ---------- agreement with the table's policies ----------

  lemma ReadPredicateMeans(t: Table, s: Session, row: Row)
    requires ReadPredicate(t).Ok?
    ensures Holds(ReadPredicate(t).value, s, row) <==> (t.rowScope.Some? && s.bypass) || InScope(t, s, row, true)
  {
    if t.rowScope.Some? {
      ScopeSqlMeans(t.rowScope.value, [], true, s, row);
    } else {
      TenantMeans(s, row);
    }
  }

  /** The table's permissive policy admits a row exactly when the stream's predicate is true of
      it, or the session is the table's worker, or it bypasses a table without a row scope. */
  lemma PermissivePolicyAgrees(t: Table, databaseRole: string, s: Session, row: Row)
    requires t.tenantScoped && TablePolicies(t, databaseRole).Ok?
    ensures ReadPredicate(t).Ok?
    ensures Entry(t, databaseRole, s, row, true) <==>
      || Holds(ReadPredicate(t).value, s, row)
      || IsWorker(t, databaseRole, s)
      || (s.bypass && t.rowScope.None?)
  {
    assert ReadPredicate(t).Ok?;
    ReadPredicateMeans(t, s, row);
  }

  /** For a session with neither bypass nor worker role: it may read the row exactly when the
      stream's predicate is true of the snapshot and the restrictive read policies let it. */
  lemma PlainSessionsAgree(t: Table, databaseRole: string, s: Session, row: Row)
    requires t.tenantScoped && TablePolicies(t, databaseRole).Ok? && !s.bypass && !IsWorker(t, databaseRole, s)
    ensures ReadPredicate(t).Ok?
    ensures Admits(TablePolicies(t, databaseRole).value, Select, s, row, false)
      <==> Holds(ReadPredicate(t).value, s, Snapshot(t, row)) && OwnerAdmits(t, s, row) && AccessAdmits(t, s, row)
  {
    hide TablePolicies, Admits;
    TenantTableMeans(t, databaseRole, s, Select, row, false);
    PermissivePolicyAgrees(t, databaseRole, s, row);
    SnapshotDecides(t, s, row);
  }

  /** The stream's predicate alone is wider than reading: it leaves the owner axis out. */
  lemma StreamIsWiderThanReading() returns (t: Table, s: Session, row: Row)
    ensures t.tenantScoped && TablePolicies(t, "worker").Ok? && !s.bypass && !IsWorker(t, "worker", s)
    ensures ReadPredicate(t).Ok? && Holds(ReadPredicate(t).value, s, row)
    ensures !Admits(TablePolicies(t, "worker").value, Select, s, row, false)
  {
    var axis := OwnerPolicy([OwnerAxis("left_id", ["Left.Read"])], None);
    t := Table({"tenant_id", "left_id"}, true, None, None, false, None, Some(axis), None);
    s := Session(false, "app", None, Some("a"), None, None, (_: Expand) => [], None, {}, map[],
      (_: Option<Value>, _: bool) => false, (_: string, _: string) => {});
    row := map["tenant_id" := Some("a"), "left_id" := Some("x")];
    assert FirstMissingAxis(axis.axes, t.columns) == FirstMissingAxis(axis.axes[1..], t.columns) == None;
    assert OwnerPolicies(t).Ok? && TablePolicies(t, "worker").Ok?;
    ReadPredicateMeans(t, s, row);
    PlainSessionsAgree(t, "worker", s, row);
    assert !AxisAdmits(axis.axes[0], s, row);
    assert !OwnerAdmits(t, s, row);
  }
}
