/** The tables under their triggers: one SQL statement per step, each trigger run
    for every written row after the whole statement, a raised check aborting it. */
module DocumentStore {
  import opened Options
  import opened SqlLogic
  import opened DocumentPolicies

  datatype Statement =
    | WriteOwners(rows: map<RowKey, Row>, columns: set<string>)
    | DeleteOwners(keys: set<RowKey>)
    | InsertDocuments(documents: map<Id, Document>)
    | UpdateDocuments(documents: map<Id, Document>)
    | WriteVariants(variants: map<Id, Variant>)
    | DeleteVariants(ids: set<Id>)
    | WriteBlocks(blocks: map<Id, Block>)
    | DeleteBlocks(ids: set<Id>)
    | InsertVersions(versions: map<Id, Version>)

  /** Keys are unique, tenant ids never change, versions are never updated, and an
      update touches the columns it sets. */
  predicate Allowed(db: Database, s: Statement) {
    match s
    case WriteOwners(rows, columns) =>
      forall key :: key in rows && key in db.owners ==>
        && rows[key].tenant == db.owners[key].tenant
        && rows[key].refs - columns == db.owners[key].refs - columns
        && rows[key].definitions - columns == db.owners[key].definitions - columns
    case InsertDocuments(documents) => forall id :: id in documents ==> id !in db.documents
    case UpdateDocuments(documents) =>
      forall id :: id in documents ==> id in db.documents && documents[id].tenant == db.documents[id].tenant
    case WriteVariants(variants) =>
      forall id :: id in variants && id in db.variants ==> variants[id].tenant == db.variants[id].tenant
    case WriteBlocks(blocks) =>
      forall id :: id in blocks && id in db.blocks ==> blocks[id].tenant == db.blocks[id].tenant
    case InsertVersions(versions) => forall id :: id in versions ==> id !in db.versions
    case _ => true
  }

  function Apply(db: Database, s: Statement): Database {
    match s
    case WriteOwners(rows, _) => db.(owners := db.owners + rows)
    case DeleteOwners(keys) => db.(owners := db.owners - keys)
    case InsertDocuments(documents) => db.(documents := db.documents + documents)
    case UpdateDocuments(documents) => db.(documents := db.documents + documents)
    case WriteVariants(variants) => db.(variants := db.variants + variants)
    case DeleteVariants(ids) => db.(variants := db.variants - ids)
    case WriteBlocks(blocks) => db.(blocks := db.blocks + blocks)
    case DeleteBlocks(ids) => db.(blocks := db.blocks - ids)
    case InsertVersions(versions) => db.(versions := db.versions + versions)
  }

  // ---------- triggers ----------

  /** The owner trigger's check on a written row. */
  predicate OwnerTrigger(f: Field, db: Database, row: Row) {
    match f
    case Fixed(_, column, policy) => FixedPasses(policy, db, Ref(row, column), row.tenant)
    case TypedBy(_, column, definitionColumn) =>
      TypedPasses(Stored(row, definitionColumn), db, Ref(row, column), row.tenant)
  }

  predicate Refers(f: Field, db: Database, key: RowKey, doc: Option<Id>, tenant: Tenant) {
    && key in db.owners && key.table == f.table
    && Eq(Ref(db.owners[key], f.column), doc) == True && db.owners[key].tenant == tenant
  }

  /** The document, variant and block triggers, once they know the document. */
  predicate DocumentTrigger(f: Field, db: Database, doc: Option<Id>, tenant: Tenant) {
    match f
    case Fixed(_, _, policy) =>
      (exists key :: key in db.owners && Refers(f, db, key, doc, tenant)) ==> FixedPasses(policy, db, doc, tenant)
    case TypedBy(_, _, definitionColumn) =>
      forall key :: key in db.owners && Refers(f, db, key, doc, tenant) ==>
        TypedPasses(Stored(db.owners[key], definitionColumn), db, doc, tenant)
  }

  /** The document a block's variant belongs to, looked up within the block's tenant. */
  function DocumentOfBlock(db: Database, b: Block): Option<Id> {
    if b.variant.Some? && b.variant.value in db.variants && db.variants[b.variant.value].tenant == b.tenant
    then db.variants[b.variant.value].document else None
  }

  predicate OwnerFires(f: Field, db: Database, key: RowKey, columns: set<string>) {
    && key.table == f.table
    && (key !in db.owners || f.column in columns || (f.TypedBy? && f.definitionColumn in columns))
  }

  /** No trigger of the field raises for the statement, seen from the state it leaves. */
  predicate Passes(f: Field, db: Database, s: Statement) {
    var after := Apply(db, s);
    match s
    case WriteOwners(rows, columns) =>
      forall key :: key in rows && OwnerFires(f, db, key, columns) ==> OwnerTrigger(f, after, rows[key])
    case UpdateDocuments(documents) =>
      forall id :: id in documents ==> DocumentTrigger(f, after, Some(id), documents[id].tenant)
    case WriteVariants(variants) =>
      forall id :: id in variants ==> DocumentTrigger(f, after, variants[id].document, variants[id].tenant)
    case WriteBlocks(blocks) =>
      forall id :: id in blocks ==> DocumentTrigger(f, after, DocumentOfBlock(after, blocks[id]), blocks[id].tenant)
    case _ => true
  }

  predicate AllPass(fields: seq<Field>, db: Database, s: Statement) {
    forall i :: 0 <= i < |fields| ==> Passes(fields[i], db, s)
  }

  /** The schema's foreign key: a document's current version is a version of its tenant. */
  predicate VersionsBound(db: Database) {
    forall id :: id in db.documents && db.documents[id].currentVersion.Some? ==>
      var version := db.documents[id].currentVersion.value;
      version in db.versions && db.versions[version].tenant == db.documents[id].tenant
  }

  /** Nothing aborts the statement: no trigger, and not the foreign key. */
  predicate Commits(db: Database, fields: seq<Field>, s: Statement) {
    AllPass(fields, db, s) && VersionsBound(Apply(db, s))
  }

  /** One statement: applied, or aborted. */
  function Step(db: Database, fields: seq<Field>, s: Statement): Database {
    if Commits(db, fields, s) then Apply(db, s) else db
  }

  predicate AuthoredFields(fields: seq<Field>) {
    forall i :: 0 <= i < |fields| ==> fields[i].Fixed? ==> Authored(fields[i].policy)
  }

  // ---------- triggers and policies ----------

  lemma OwnerTriggerIsPolicy(f: Field, db: Database, row: Row)
    requires f.Fixed? ==> Authored(f.policy)
    ensures OwnerTrigger(f, db, row) <==> Holds(f, db, row)
  {
    hide Satisfies, FixedPasses, TypedPasses, StoredPolicy;
    if Ref(row, f.column).Some? {
      match f {
        case Fixed(_, column, policy) => FixedCheckIsPolicy(policy, db, Ref(row, column).value, row.tenant);
        case TypedBy(_, column, definitionColumn) =>
          TypedCheckIsPolicy(Stored(row, definitionColumn), db, Ref(row, column).value, row.tenant);
      }
    } else {
      NullPasses(f, db, row);
    }
  }

  lemma NullPasses(f: Field, db: Database, row: Row)
    requires Ref(row, f.column).None?
    ensures OwnerTrigger(f, db, row)
  {
  }

  ghost predicate HoldsForReferrers(f: Field, db: Database, doc: Option<Id>, tenant: Tenant) {
    forall key :: key in db.owners && Refers(f, db, key, doc, tenant) ==> Holds(f, db, db.owners[key])
  }

  /** The other triggers pass exactly when the policy holds of every row that refers to the document. */
  lemma DocumentTriggerIsPolicy(f: Field, db: Database, doc: Option<Id>, tenant: Tenant)
    requires f.Fixed? ==> Authored(f.policy)
    ensures DocumentTrigger(f, db, doc, tenant) <==> HoldsForReferrers(f, db, doc, tenant)
  {
    hide Satisfies, FixedPasses, TypedPasses, StoredPolicy;
    if doc.Some? {
      match f {
        case Fixed(_, column, policy) =>
          FixedCheckIsPolicy(policy, db, doc.value, tenant);
        case TypedBy(_, column, definitionColumn) =>
          forall key | key in db.owners && Refers(f, db, key, doc, tenant)
            ensures TypedPasses(Stored(db.owners[key], definitionColumn), db, doc, tenant) <==>
              Holds(f, db, db.owners[key])
          {
            TypedCheckIsPolicy(Stored(db.owners[key], definitionColumn), db, doc.value, tenant);
          }
      }
    }
  }

  // ---------- one field, one statement ----------

  ghost predicate FieldGood(f: Field, db: Database) {
    forall key :: key in db.owners && key.table == f.table ==> Holds(f, db, db.owners[key])
  }

  /** A verdict depends on the document, the versions and the presence of blocks only. */
  lemma SatisfiesDependsOn(policy: Policy, a: Database, b: Database, doc: Id, tenant: Tenant)
    requires doc in a.documents && doc in b.documents && a.documents[doc] == b.documents[doc]
      && a.versions == b.versions
    requires HasBlocks(a, doc, a.documents[doc].tenant) == HasBlocks(b, doc, a.documents[doc].tenant)
    ensures Satisfies(policy, a, doc, tenant) == Satisfies(policy, b, doc, tenant)
  {
    hide HasBlocks;
  }

  lemma OwnersAccepted(f: Field, db: Database, s: Statement)
    requires s.WriteOwners? && Allowed(db, s) && FieldGood(f, db) && (f.Fixed? ==> Authored(f.policy))
    ensures Passes(f, db, s) <==> FieldGood(f, Apply(db, s))
  {
    hide Satisfies, OwnerTrigger, StoredPolicy, Authored;
    var after := Apply(db, s);
    forall key | key in after.owners && key.table == f.table
      ensures if key in s.rows && OwnerFires(f, db, key, s.columns) then OwnerTrigger(f, after, s.rows[key]) <==>
        Holds(f, after, after.owners[key])
              else Holds(f, after, after.owners[key])
    {
      if key in s.rows && OwnerFires(f, db, key, s.columns) {
        OwnerTriggerIsPolicy(f, after, s.rows[key]);
      } else {
        UnfiredRowHolds(f, db, s, key);
      }
    }
  }

  lemma SameLookup<T>(a: map<string, T>, b: map<string, T>, columns: set<string>, c: string)
    requires a - columns == b - columns && c !in columns
    ensures (c in a <==> c in b) && (c in a ==> a[c] == b[c])
  {
    assert c in a <==> c in a - columns;
    assert c in b <==> c in b - columns;
    if c in a { assert (a - columns)[c] == (b - columns)[c]; }
  }

  lemma UnfiredRowHolds(f: Field, db: Database, s: Statement, key: RowKey)
    requires s.WriteOwners? && Allowed(db, s) && FieldGood(f, db)
    requires key in Apply(db, s).owners && key.table == f.table && !(key in s.rows && OwnerFires(f, db, key, s.columns))
    ensures Holds(f, Apply(db, s), Apply(db, s).owners[key])
  {
    hide StoredPolicy, Authored;
    var after := Apply(db, s);
    var row, prior := after.owners[key], db.owners[key];
    assert Ref(row, f.column) == Ref(prior, f.column) by {
      if key in s.rows { SameLookup(row.refs, prior.refs, s.columns, f.column); }
    }
    assert PolicyOf(f, row) == PolicyOf(f, prior) by {
      if f.TypedBy? && key in s.rows { SameLookup(row.definitions, prior.definitions, s.columns, f.definitionColumn); }
    }
    assert Holds(f, db, prior);
    if Ref(row, f.column).Some? {
      var doc := Ref(row, f.column).value;
      SameBlocks(db, after, doc, row.tenant);
      SatisfiesDependsOn(PolicyOf(f, row).value, db, after, doc, row.tenant);
    }
  }

  lemma SameBlocks(a: Database, b: Database, doc: Id, tenant: Tenant)
    requires a.blocks == b.blocks && a.variants == b.variants
    ensures HasBlocks(a, doc, tenant) == HasBlocks(b, doc, tenant)
  {
    assert forall x, v :: BlockOf(a, x, v, doc, tenant) == BlockOf(b, x, v, doc, tenant);
  }

  lemma DocumentsAccepted(f: Field, db: Database, s: Statement)
    requires s.UpdateDocuments? && Allowed(db, s) && FieldGood(f, db) && (f.Fixed? ==> Authored(f.policy))
    ensures Passes(f, db, s) <==> FieldGood(f, Apply(db, s))
  {
    hide StoredPolicy, Authored, DocumentTrigger, HasBlocks, ContentFits;
    var after := Apply(db, s);
    forall id | id in s.documents
      ensures DocumentTrigger(f, after, Some(id), s.documents[id].tenant) <==>
        HoldsForReferrers(f, after, Some(id), s.documents[id].tenant) {
      DocumentTriggerIsPolicy(f, after, Some(id), s.documents[id].tenant);
    }
    forall key | key in after.owners && key.table == f.table
      ensures Holds(f, after, after.owners[key]) ||
        exists id :: id in s.documents && Refers(f, after, key, Some(id), s.documents[id].tenant)
    {
      var row := after.owners[key];
      assert Holds(f, db, row);
      if Ref(row, f.column).Some? {
        var doc := Ref(row, f.column).value;
        if doc in s.documents {
          assert Refers(f, after, key, Some(doc), s.documents[doc].tenant);
        } else {
          SameBlocks(db, after, doc, row.tenant);
          SatisfiesDependsOn(PolicyOf(f, row).value, db, after, doc, row.tenant);
        }
      }
    }
  }

  /** Blocks appear in a document only through a written variant or block that the triggers look at. */
  lemma NewBlocksAreSeen(db: Database, s: Statement, doc: Id, tenant: Tenant)
    requires (s.WriteVariants? || s.WriteBlocks?) && Allowed(db, s)
    requires HasBlocks(Apply(db, s), doc, tenant) && !HasBlocks(db, doc, tenant)
    ensures s.WriteVariants? ==>
      exists id :: id in s.variants && s.variants[id].document == Some(doc) && s.variants[id].tenant == tenant
    ensures s.WriteBlocks? ==>
      exists id :: id in s.blocks && DocumentOfBlock(Apply(db, s), s.blocks[id]) == Some(doc)
        && s.blocks[id].tenant == tenant
  {
    var after := Apply(db, s);
    var b, v :| b in after.blocks && v in after.variants && BlockOf(after, b, v, doc, tenant);
    assert !(b in db.blocks && v in db.variants && BlockOf(db, b, v, doc, tenant));
  }

  lemma ContentWritesAccepted(f: Field, db: Database, s: Statement)
    requires (s.WriteVariants? || s.WriteBlocks?) && Allowed(db, s) && FieldGood(f, db)
      && (f.Fixed? ==> Authored(f.policy))
    ensures Passes(f, db, s) <==> FieldGood(f, Apply(db, s))
  {
    hide StoredPolicy, Authored, DocumentTrigger, HasBlocks, ContentFits, Allowed;
    var after := Apply(db, s);
    forall doc, tenant ensures DocumentTrigger(f, after, doc, tenant) <==> HoldsForReferrers(f, after, doc, tenant) {
      DocumentTriggerIsPolicy(f, after, doc, tenant);
    }
    if Passes(f, db, s) {
      forall key | key in after.owners && key.table == f.table ensures Holds(f, after, after.owners[key]) {
        ContentWriteKeeps(f, db, s, key);
      }
    }
  }

  lemma ContentWriteKeeps(f: Field, db: Database, s: Statement, key: RowKey)
    requires (s.WriteVariants? || s.WriteBlocks?) && Allowed(db, s) && FieldGood(f, db)
    requires key in db.owners && key.table == f.table
    requires s.WriteVariants? ==> forall id :: id in s.variants ==>
      HoldsForReferrers(f, Apply(db, s), s.variants[id].document, s.variants[id].tenant)
    requires s.WriteBlocks? ==> forall id :: id in s.blocks ==>
      HoldsForReferrers(f, Apply(db, s), DocumentOfBlock(Apply(db, s), s.blocks[id]), s.blocks[id].tenant)
    ensures Holds(f, Apply(db, s), db.owners[key])
  {
    hide StoredPolicy, HasBlocks, Allowed;
    var after, row := Apply(db, s), db.owners[key];
    assert Holds(f, db, row);
    if Ref(row, f.column).Some? {
      var doc := Ref(row, f.column).value;
      if HasBlocks(after, doc, row.tenant) && !HasBlocks(db, doc, row.tenant) {
        NewBlocksAreSeen(db, s, doc, row.tenant);
        assert Refers(f, after, key, Some(doc), row.tenant);
      } else if HasBlocks(db, doc, row.tenant) == HasBlocks(after, doc, row.tenant) {
        SatisfiesDependsOn(PolicyOf(f, row).value, db, after, doc, row.tenant);
      } else {
        LosingBlocksKeeps(PolicyOf(f, row).value, db, after, doc, row.tenant);
      }
    }
  }

  /** Losing blocks never breaks a policy. */
  lemma LosingBlocksKeeps(policy: Policy, a: Database, b: Database, doc: Id, tenant: Tenant)
    requires Satisfies(policy, a, doc, tenant) && !HasBlocks(b, doc, tenant)
    requires a.documents == b.documents && a.versions == b.versions
    ensures Satisfies(policy, b, doc, tenant)
  {
    hide HasBlocks;
  }

  /** Statements without a trigger: removals and new documents. */
  lemma UnguardedKeeps(f: Field, db: Database, s: Statement)
    requires s.DeleteOwners? || s.DeleteVariants? || s.DeleteBlocks? || s.InsertDocuments?
    requires Allowed(db, s) && FieldGood(f, db)
    ensures FieldGood(f, Apply(db, s))
  {
    hide StoredPolicy;
    var after := Apply(db, s);
    forall key | key in after.owners && key.table == f.table ensures Holds(f, after, after.owners[key]) {
      var row := after.owners[key];
      assert Holds(f, db, row);
      if Ref(row, f.column).Some? {
        var doc := Ref(row, f.column).value;
        RemovalAddsNoBlocks(db, s, doc, row.tenant);
        UnguardedSatisfies(PolicyOf(f, row).value, db, after, doc, row.tenant);
      }
    }
  }

  lemma RemovalAddsNoBlocks(db: Database, s: Statement, doc: Id, tenant: Tenant)
    requires s.DeleteOwners? || s.DeleteVariants? || s.DeleteBlocks? || s.InsertDocuments?
    ensures HasBlocks(Apply(db, s), doc, tenant) ==> HasBlocks(db, doc, tenant)
  {
    var after := Apply(db, s);
    if HasBlocks(after, doc, tenant) {
      var b, v :| b in after.blocks && v in after.variants && BlockOf(after, b, v, doc, tenant);
      assert BlockOf(db, b, v, doc, tenant);
    }
  }

  lemma UnguardedSatisfies(policy: Policy, a: Database, b: Database, doc: Id, tenant: Tenant)
    requires Satisfies(policy, a, doc, tenant)
    requires doc in b.documents && b.documents[doc] == a.documents[doc] && a.versions == b.versions
    requires HasBlocks(b, doc, tenant) ==> HasBlocks(a, doc, tenant)
    ensures Satisfies(policy, b, doc, tenant)
  {
    hide HasBlocks;
  }

  // ---------- all fields, all runs ----------

  lemma GoodByField(db: Database, fields: seq<Field>)
    ensures Good(db, fields) <==> forall i :: 0 <= i < |fields| ==> FieldGood(fields[i], db)
  {
    hide Holds;
    if Good(db, fields) {
      forall i | 0 <= i < |fields| ensures FieldGood(fields[i], db) {}
    }
    if forall i :: 0 <= i < |fields| ==> FieldGood(fields[i], db) {
      forall i, key | 0 <= i < |fields| && key in db.owners && key.table == fields[i].table
        ensures Holds(fields[i], db, db.owners[key]) {
        assert FieldGood(fields[i], db);
      }
    }
  }

  /** The triggers alone: from a good state they pass a statement on owners, documents, variants
      or blocks exactly when the state it leaves is good. */
  lemma TriggersPassIffGood(db: Database, fields: seq<Field>, s: Statement)
    requires Good(db, fields) && AuthoredFields(fields) && Allowed(db, s) && !s.InsertVersions?
    ensures AllPass(fields, db, s) <==> Good(Apply(db, s), fields)
  {
    hide Passes, FieldGood, Good, Allowed, Authored;
    GoodByField(db, fields);
    GoodByField(Apply(db, s), fields);
    forall i | 0 <= i < |fields| ensures Passes(fields[i], db, s) <==> FieldGood(fields[i], Apply(db, s)) {
      if s.WriteOwners? {
        OwnersAccepted(fields[i], db, s);
      } else if s.UpdateDocuments? {
        DocumentsAccepted(fields[i], db, s);
      } else if s.WriteVariants? || s.WriteBlocks? {
        ContentWritesAccepted(fields[i], db, s);
      } else {
        UnguardedKeeps(fields[i], db, s);
        NoTriggerPasses(fields[i], db, s);
      }
    }
  }

  lemma NoTriggerPasses(f: Field, db: Database, s: Statement)
    requires s.DeleteOwners? || s.DeleteVariants? || s.DeleteBlocks? || s.InsertDocuments? || s.InsertVersions?
    ensures Passes(f, db, s)
  {
  }

  /** No new version with an artifact is one that a policed document of its tenant points at. */
  ghost predicate Unpointed(db: Database, fields: seq<Field>, versions: map<Id, Version>) {
    forall i, key, id |
      0 <= i < |fields| && key in db.owners && key.table == fields[i].table && id in versions
        && versions[id].artifact.Some? ::
      !PointsAt(db, fields[i], key, id, versions[id].tenant)
  }

  predicate PointsAt(db: Database, f: Field, key: RowKey, id: Id, tenant: Tenant) {
    && key in db.owners && Ref(db.owners[key], f.column).Some?
    && var doc := Ref(db.owners[key], f.column).value;
       doc in db.documents && db.documents[doc].currentVersion == Some(id) && db.documents[doc].tenant == tenant
  }

  lemma VersionRowKept(f: Field, db: Database, s: Statement, key: RowKey)
    requires s.InsertVersions? && Allowed(db, s) && key in db.owners && Holds(f, db, db.owners[key])
    ensures Holds(f, Apply(db, s), db.owners[key]) <==>
      forall id :: id in s.versions && s.versions[id].artifact.Some? ==>
        !PointsAt(db, f, key, id, s.versions[id].tenant)
  {
    hide StoredPolicy, HasBlocks;
    var after, row := Apply(db, s), db.owners[key];
    if Ref(row, f.column).Some? {
      var doc := Ref(row, f.column).value;
      var d := db.documents[doc];
      SameBlocks(db, after, doc, row.tenant);
      if d.currentVersion.Some? && d.currentVersion.value in s.versions {
        assert CurrentVersion(db, d).None?;
        assert PointsAt(db, f, key, d.currentVersion.value, d.tenant);
      } else {
        assert CurrentVersion(after, d) == CurrentVersion(db, d);
      }
    }
  }

  /** No trigger watches versions. Inserting them keeps a good state good exactly when no policed
      document already points at one that carries an artifact. */
  lemma InsertedVersionsKeepGood(db: Database, fields: seq<Field>, s: Statement)
    requires Good(db, fields) && Allowed(db, s) && s.InsertVersions?
    ensures Good(Apply(db, s), fields) <==> Unpointed(db, fields, s.versions)
  {
    hide Holds, PointsAt, Allowed;
    forall i, key | 0 <= i < |fields| && key in db.owners && key.table == fields[i].table
      ensures Holds(fields[i], Apply(db, s), db.owners[key]) <==>
        forall id :: id in s.versions && s.versions[id].artifact.Some? ==>
          !PointsAt(db, fields[i], key, id, s.versions[id].tenant)
    {
      VersionRowKept(fields[i], db, s, key);
    }
  }

  /** The foreign key leaves no document pointing at a version yet to come. */
  lemma BoundIsUnpointed(db: Database, fields: seq<Field>, s: Statement)
    requires VersionsBound(db) && Allowed(db, s) && s.InsertVersions?
    ensures Unpointed(db, fields, s.versions) && VersionsBound(Apply(db, s))
  {
  }

  /** Every policy holds, and every current version exists. */
  ghost predicate Sound(db: Database, fields: seq<Field>) { Good(db, fields) && VersionsBound(db) }

  /** From a sound state every statement, version inserts included, commits exactly when the
      state it leaves is sound: nothing is refused without need, and nothing is missed. */
  lemma CommittedIffSound(db: Database, fields: seq<Field>, s: Statement)
    requires Sound(db, fields) && AuthoredFields(fields) && Allowed(db, s)
    ensures Commits(db, fields, s) <==> Sound(Apply(db, s), fields)
  {
    hide Good, Allowed, Unpointed, AuthoredFields, Apply, Passes;
    if s.InsertVersions? {
      InsertedVersionsKeepGood(db, fields, s);
      BoundIsUnpointed(db, fields, s);
      forall i | 0 <= i < |fields| ensures Passes(fields[i], db, s) { NoTriggerPasses(fields[i], db, s); }
    } else {
      TriggersPassIffGood(db, fields, s);
    }
  }

  /** A run of statements, each aborted if a check raises. */
  function Run(db: Database, fields: seq<Field>, ss: seq<Statement>): Database {
    if ss == [] then db else Step(Run(db, fields, ss[..|ss| - 1]), fields, ss[|ss| - 1])
  }

  ghost predicate RunAllowed(db: Database, fields: seq<Field>, ss: seq<Statement>) {
    forall i :: 0 <= i < |ss| ==> Allowed(Run(db, fields, ss[..i]), ss[i])
  }

  /** The policy invariant over all runs. */
  lemma {:induction false} RunsStaySound(db: Database, fields: seq<Field>, ss: seq<Statement>)
    requires Sound(db, fields) && AuthoredFields(fields) && RunAllowed(db, fields, ss)
    ensures Sound(Run(db, fields, ss), fields)
  {
    hide Sound, Allowed, AuthoredFields, Commits, Apply;
    if ss != [] {
      var n := |ss| - 1;
      forall i | 0 <= i < n ensures ss[..n][..i] == ss[..i] {}
      RunsStaySound(db, fields, ss[..n]);
      CommittedIffSound(Run(db, fields, ss[..n]), fields, ss[n]);
    }
  }

  /** The database object: executes statements in place. */
  class Store {
    var db: Database
    const fields: seq<Field>

    constructor (db: Database, fields: seq<Field>)
      ensures this.db == db && this.fields == fields
    {
      this.db, this.fields := db, fields;
    }

    /** Writes, runs every field's triggers, checks the foreign key, and rolls back if one raises. */
    method Execute(s: Statement) returns (committed: bool)
      requires AuthoredFields(fields) && Allowed(db, s)
      modifies this
      ensures db == Step(old(db), fields, s) && (committed <==> Commits(old(db), fields, s))
      ensures Sound(old(db), fields) ==> Sound(db, fields) && (committed <==> Sound(Apply(old(db), s), fields))
    {
      hide Sound, Passes, Apply, Allowed, AuthoredFields, VersionsBound;
      if Sound(db, fields) { CommittedIffSound(db, fields, s); }
      var before := db;
      db := Apply(db, s);
      for i := 0 to |fields|
        invariant db == Apply(before, s)
        invariant forall k :: 0 <= k < i ==> Passes(fields[k], before, s)
      {
        if !Passes(fields[i], before, s) {
          db := before;
          return false;
        }
      }
      if !VersionsBound(db) {
        db := before;
        return false;
      }
      return true;
    }
  }
}
