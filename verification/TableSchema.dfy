/** Tables, columns, indexes and constraints of a schema manifest. */
module TableSchema {
  import opened Options

  /** A column's foreign key; column lists widen it to a compound one. */
  datatype Reference = Reference(schema: string, table: string, column: string, localColumns: Option<seq<string>>,
    targetColumns: Option<seq<string>>)

  datatype Column = Column(name: string, columnType: string, primaryKey: bool, required: bool,
    references: Option<Reference>)

  /** A `where` predicate makes the index partial. */
  datatype Index = Index(name: string, columns: seq<string>, unique: bool, where: Option<string>)

  datatype Kind = PrimaryKey | Unique | ForeignKey(schema: string, table: string, target: seq<string>)
    | Check(expression: string)
  datatype Constraint = Constraint(name: string, version: string, compilerOwned: bool, kind: Kind, columns: seq<string>)

  datatype Table = Table(schema: string, name: string, columns: seq<Column>, indexes: seq<Index>,
    constraints: seq<Constraint>, pluginOwner: Option<string>, tenantScoped: bool, tenantIdentityColumn: Option<string>)

  function Qualified(schema: string, name: string): string { schema + "." + name }

  function Name(t: Table): string { Qualified(t.schema, t.name) }

  /** The table a qualified name stands for: the last one declared under it. */
  function Lookup(tables: seq<Table>, qualified: string): Option<Table> {
    if tables == [] then None
    else
      var last := tables[|tables| - 1];
      if Name(last) == qualified then Some(last) else Lookup(tables[..|tables| - 1], qualified)
  }

  lemma {:induction false} LookupFinds(tables: seq<Table>, qualified: string)
    ensures Lookup(tables, qualified).Some? ==>
      Lookup(tables, qualified).value in tables && Name(Lookup(tables, qualified).value) == qualified
  {
    if tables != [] && Name(tables[|tables| - 1]) != qualified { LookupFinds(tables[..|tables| - 1], qualified); }
  }

  /** The first column of a name. */
  function FindColumn(columns: seq<Column>, name: string): (c: Option<Column>)
    ensures c.Some? <==> exists k :: 0 <= k < |columns| && columns[k].name == name
    ensures c.Some? ==> c.value in columns && c.value.name == name
  {
    if columns == [] then None
    else if columns[0].name == name then
      assert columns[0].name == name;
      Some(columns[0])
    else
      var c := FindColumn(columns[1..], name);
      assert forall k :: 0 < k < |columns| ==> columns[1..][k - 1] == columns[k];
      c
  }
}
