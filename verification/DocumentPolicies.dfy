/** Document fields and the triggers that keep their policies: a field refers to
    a document and demands a type, a kind of content, MIME types and a size.
    The emitted checks are evaluated in SQL's three-valued logic. */
module DocumentPolicies {
  import opened Options
  import opened SqlLogic

  type Id = nat
  type Tenant = nat

  datatype Document = Document(tenant: Tenant, documentType: Option<string>, currentVersion: Option<Id>)
  datatype Version = Version(tenant: Tenant, artifact: Option<Id>, mimeType: Option<string>, byteSize: Option<int>)
  datatype Variant = Variant(tenant: Tenant, document: Option<Id>)
  datatype Block = Block(tenant: Tenant, variant: Option<Id>)

  /** A stored field definition: what `definition->>'osfType'` and the members of
      `definition->'document'` read; absent members read as NULL, and so does JSON null,
      save for `mimeTypes`: it holds the strings for which the `?` operator answers true, and
      JSON null, a value that admits none, is `Some([])`. */
  datatype Definition = Definition(osfType: Option<string>, content: Option<string>, documentType: Option<string>,
    mimeTypes: Option<seq<string>>, maxBytes: Option<int>)

  datatype RowKey = RowKey(table: string, id: Id)
  datatype Row = Row(tenant: Tenant, refs: map<string, Id>, definitions: map<string, Definition>)

  datatype Database = Database(documents: map<Id, Document>, versions: map<Id, Version>, variants: map<Id, Variant>,
    blocks: map<Id, Block>, owners: map<RowKey, Row>)

  datatype Content = Blocks | File
  datatype Policy = Policy(documentType: Option<string>, content: Content, mimeTypes: Option<seq<string>>,
    maxBytes: Option<int>)

  /** A column with an authored policy, or one whose policy is stored beside it. */
  datatype Field =
    | Fixed(table: string, column: string, policy: Policy)
    | TypedBy(table: string, column: string, definitionColumn: string)

  function Ref(row: Row, column: string): Option<Id> {
    if column in row.refs then Some(row.refs[column]) else None
  }

  function Stored(row: Row, column: string): Option<Definition> {
    if column in row.definitions then Some(row.definitions[column]) else None
  }

  // ---------- what a policy means ----------

  function CurrentVersion(db: Database, d: Document): Option<Version> {
    if d.currentVersion.Some? && d.currentVersion.value in db.versions
      && db.versions[d.currentVersion.value].tenant == d.tenant
    then Some(db.versions[d.currentVersion.value]) else None
  }

  /** Variant `v` belongs to the document and block `b` sits in it. */
  predicate BlockOf(db: Database, b: Id, v: Id, doc: Id, tenant: Tenant) {
    && b in db.blocks && v in db.variants
    && db.blocks[b].variant == Some(v) && db.blocks[b].tenant == db.variants[v].tenant
    && db.variants[v].document == Some(doc) && db.variants[v].tenant == tenant
  }

  predicate HasBlocks(db: Database, doc: Id, tenant: Tenant) {
    exists b, v :: b in db.blocks && v in db.variants && BlockOf(db, b, v, doc, tenant)
  }

  predicate ContentFits(policy: Policy, db: Database, doc: Id, d: Document) {
    var v := CurrentVersion(db, d);
    if policy.content == Blocks then v.None? || v.value.artifact.None?
    else
      && v.Some? && v.value.artifact.Some?
      && !HasBlocks(db, doc, d.tenant)
      && (policy.mimeTypes.Some? ==> v.value.mimeType.Some? && v.value.mimeType.value in policy.mimeTypes.value)
      && (policy.maxBytes.Some? ==> v.value.byteSize.Some? && v.value.byteSize.value <= policy.maxBytes.value)
  }

  /** The document exists in the tenant and is what the policy asks for. */
  predicate Satisfies(policy: Policy, db: Database, doc: Id, tenant: Tenant) {
    && doc in db.documents && db.documents[doc].tenant == tenant
    && (policy.documentType.Some? ==> db.documents[doc].documentType == policy.documentType)
    && ContentFits(policy, db, doc, db.documents[doc])
  }

  /** The policy a stored definition expresses, if it is a Document field at all;
      a definition that names no content is treated as a file. */
  function StoredPolicy(def: Option<Definition>): Option<Policy> {
    if def.None? || def.value.osfType != Some("Document") then None
    else if def.value.content == Some("blocks") then Some(Policy(def.value.documentType, Blocks, None, None))
    else if def.value.content.None? || def.value.content == Some("file")
    then Some(Policy(def.value.documentType, File, def.value.mimeTypes, def.value.maxBytes))
    else None
  }

  function PolicyOf(f: Field, row: Row): Option<Policy> {
    match f
    case Fixed(_, _, policy) => Some(policy)
    case TypedBy(_, _, definitionColumn) => StoredPolicy(Stored(row, definitionColumn))
  }

  /** The field's policy holds of a row. */
  predicate Holds(f: Field, db: Database, row: Row) {
    Ref(row, f.column).Some? ==>
      PolicyOf(f, row).Some? && Satisfies(PolicyOf(f, row).value, db, Ref(row, f.column).value, row.tenant)
  }

  /** Every field's policy holds of every row at once. */
  ghost predicate Good(db: Database, fields: seq<Field>) {
    forall i, key :: 0 <= i < |fields| && key in db.owners && key.table == fields[i].table ==>
      Holds(fields[i], db, db.owners[key])
  }

  /** The block stands in the variant, and both are the tenant's. */
  predicate InVariant(db: Database, b: Id, v: Id, tenant: Tenant) {
    && b in db.blocks && db.blocks[b].variant == Some(v) && db.blocks[b].tenant == tenant
    && v in db.variants && db.variants[v].tenant == tenant
  }

  /** What a file field promises of the document it names: there, of the row's tenant and of the
      type, without a block in any variant of that tenant, and current in a stored artifact of an
      admitted type and size. */
  lemma FileFieldMeans(f: Field, db: Database, row: Row)
    requires f.Fixed? && f.policy.content == File && f.column in row.refs
    ensures var doc, p := row.refs[f.column], f.policy;
      Holds(f, db, row) <==>
        && doc in db.documents && db.documents[doc].tenant == row.tenant
        && (p.documentType.Some? ==> db.documents[doc].documentType == p.documentType)
        && (forall b, v :: InVariant(db, b, v, row.tenant) ==> db.variants[v].document != Some(doc))
        && (exists id, a :: id in db.versions && db.documents[doc].currentVersion == Some(id)
              && db.versions[id].tenant == row.tenant && db.versions[id].artifact == Some(a)
              && (p.mimeTypes.Some? ==>
                    exists m :: m in p.mimeTypes.value && db.versions[id].mimeType == Some(m))
              && (p.maxBytes.Some? ==>
                    exists n :: n <= p.maxBytes.value && db.versions[id].byteSize == Some(n)))
  {
    BlocksStand(db, row.refs[f.column], row.tenant);
    hide HasBlocks, InVariant;
  }

  lemma BlocksStand(db: Database, doc: Id, tenant: Tenant)
    ensures HasBlocks(db, doc, tenant) <==>
      exists b, v :: InVariant(db, b, v, tenant) && db.variants[v].document == Some(doc)
  {
    if b, v :| InVariant(db, b, v, tenant) && db.variants[v].document == Some(doc) {
      assert BlockOf(db, b, v, doc, tenant);
    }
    if b, v :| b in db.blocks && v in db.variants && BlockOf(db, b, v, doc, tenant) {
      assert InVariant(db, b, v, tenant);
    }
  }

  /** A field of blocks promises only that no stored artifact of the tenant is current. */
  lemma BlocksFieldMeans(f: Field, db: Database, row: Row)
    requires f.Fixed? && f.policy.content == Blocks && f.column in row.refs
    ensures var doc, p := row.refs[f.column], f.policy;
      Holds(f, db, row) <==>
        && doc in db.documents && db.documents[doc].tenant == row.tenant
        && (p.documentType.Some? ==> db.documents[doc].documentType == p.documentType)
        && forall id ::
             (id in db.versions && db.documents[doc].currentVersion == Some(id) && db.versions[id].tenant == row.tenant)
             ==> db.versions[id].artifact == None
  {
  }

  /** A field typed by a stored definition promises what an authored field with the definition's
      members would; a definition of another type, or of unknown content, lets no document in. */
  lemma TypedFieldMeans(f: Field, db: Database, row: Row)
    requires f.TypedBy? && f.column in row.refs
    ensures Holds(f, db, row) <==>
      && f.definitionColumn in row.definitions
      && var def := row.definitions[f.definitionColumn];
        && def.osfType == Some("Document") && def.content in {None, Some("file"), Some("blocks")}
        && Holds(Fixed(f.table, f.column,
             if def.content == Some("blocks") then Policy(def.documentType, Blocks, None, None)
             else Policy(def.documentType, File, def.mimeTypes, def.maxBytes)), db, row)
  {
    hide Satisfies;
  }

  // ---------- the emitted checks ----------

  /** The disjuncts of the fixed check, one per emitted condition. */
  datatype Condition = DocumentIsNull | TypeDiffers(documentType: string) | ArtifactIsNotNull | ArtifactIsNull
    | BlocksExist | MimeTypeRejected(mimeTypes: seq<string>) | ByteSizeRejected(maxBytes: int)

  /** What authoring accepts: positive sizes, file restrictions on files only, no empty type. */
  predicate Authored(policy: Policy) {
    && (policy.documentType.Some? ==> policy.documentType.value != "")
    && (policy.maxBytes.Some? ==> policy.maxBytes.value >= 1)
    && (policy.content == Blocks ==> policy.mimeTypes.None? && policy.maxBytes.None?)
  }

  function Evaluate(c: Condition, db: Database, doc: Id, d: Document): Tri {
    var v := CurrentVersion(db, d);
    var artifact := if v.Some? then v.value.artifact else None;
    var mimeType := if v.Some? then v.value.mimeType else None;
    var byteSize := if v.Some? then v.value.byteSize else None;
    match c
    case DocumentIsNull => False
    case TypeDiffers(t) => Not(Eq(d.documentType, Some(t)))
    case ArtifactIsNotNull => Of(artifact.Some?)
    case ArtifactIsNull => Of(artifact.None?)
    case BlocksExist => Of(HasBlocks(db, doc, d.tenant))
    case MimeTypeRejected(ms) => Or(Of(mimeType.None?), Not(In(mimeType, ms)))
    case ByteSizeRejected(n) => Or(Of(byteSize.None?), Not(AtMost(byteSize, Some(n))))
  }

  function Evaluated(cs: seq<Condition>, db: Database, doc: Id, d: Document): seq<Tri> {
    seq(|cs|, i requires 0 <= i < |cs| => Evaluate(cs[i], db, doc, d))
  }

  function Conditions(policy: Policy): seq<Condition> {
    [DocumentIsNull]
    + (if policy.documentType.Some? && policy.documentType.value != ""
       then [TypeDiffers(policy.documentType.value)] else [])
    + (if policy.content == Blocks then [ArtifactIsNotNull] else
         ([ArtifactIsNull, BlocksExist]
          + (if policy.mimeTypes.Some? then [MimeTypeRejected(policy.mimeTypes.value)] else [])
          + (if policy.maxBytes.Some? && policy.maxBytes.value != 0
             then [ByteSizeRejected(policy.maxBytes.value)] else [])))
  }

  /** The fixed check returns; otherwise it raises. */
  predicate FixedPasses(policy: Policy, db: Database, doc: Option<Id>, tenant: Tenant) {
    doc.None? || Finds(Conditions(policy), db, doc.value, tenant)
  }

  /** The query of the check finds the document: it is there and not one condition holds or is undecided. */
  predicate Finds(conditions: seq<Condition>, db: Database, doc: Id, tenant: Tenant) {
    && doc in db.documents && db.documents[doc].tenant == tenant
    && Not(AnyOf(Evaluated(conditions, db, doc, db.documents[doc]))) == True
  }

  function InvalidDefinition(def: Option<Definition>): Tri {
    var osfType := if def.Some? then def.value.osfType else None;
    var content := if def.Some? then def.value.content else None;
    Or(Of(osfType != Some("Document")), Not(In(content, ["file", "blocks"])))
  }

  function TypedCondition(p: Definition, db: Database, doc: Id, d: Document): Tri {
    var v := CurrentVersion(db, d);
    var artifact := if v.Some? then v.value.artifact else None;
    var mimeType := if v.Some? then v.value.mimeType else None;
    var byteSize := if v.Some? then v.value.byteSize else None;
    And(Or(Of(p.documentType.None?), Eq(d.documentType, p.documentType)),
      if Eq(p.content, Some("blocks")) == True then Of(artifact.None?)
      else And(Of(artifact.Some?), And(Not(Of(HasBlocks(db, doc, d.tenant))),
        And(Or(Of(p.mimeTypes.None?), In(mimeType, if p.mimeTypes.Some? then p.mimeTypes.value else [])),
            Or(Of(p.maxBytes.None?), AtMost(byteSize, p.maxBytes))))))
  }

  /** The typed check returns; otherwise it raises. */
  predicate TypedPasses(def: Option<Definition>, db: Database, doc: Option<Id>, tenant: Tenant) {
    doc.None? ||
    (InvalidDefinition(def) != True && def.Some? &&
     doc.value in db.documents && db.documents[doc.value].tenant == tenant &&
     TypedCondition(def.value, db, doc.value, db.documents[doc.value]) == True)
  }

  /** The fixed check passes exactly the documents that satisfy the policy, NULLs included. */
  lemma FixedCheckIsPolicy(policy: Policy, db: Database, doc: Id, tenant: Tenant)
    requires policy.documentType != Some("") && policy.maxBytes != Some(0)
    ensures FixedPasses(policy, db, Some(doc), tenant) <==> Satisfies(policy, db, doc, tenant)
  {
    if doc in db.documents {
      var d := db.documents[doc];
      var cs := Conditions(policy);
      var tris := Evaluated(cs, db, doc, d);
      AnyOfTrue(tris);
      assert forall i :: 0 <= i < |cs| ==> tris[i] == Evaluate(cs[i], db, doc, d);
      hide Evaluate, ContentFits, Conditions;
      ConditionsMeanPolicy(policy, db, doc, d);
    }
  }

  lemma ConditionsMeanPolicy(policy: Policy, db: Database, doc: Id, d: Document)
    requires policy.documentType != Some("") && policy.maxBytes != Some(0)
    ensures (forall i :: 0 <= i < |Conditions(policy)| ==> Evaluate(Conditions(policy)[i], db, doc, d) == False) <==>
      (policy.documentType.Some? ==> d.documentType == policy.documentType) && ContentFits(policy, db, doc, d)
  {
    hide HasBlocks;
    var cs := Conditions(policy);
    var typed := if policy.documentType.Some? then 1 else 0;
    assert cs[0] == DocumentIsNull;
    if policy.documentType.Some? { assert cs[1] == TypeDiffers(policy.documentType.value); }
    if policy.content == Blocks {
      assert |cs| == 2 + typed && cs[1 + typed] == ArtifactIsNotNull;
    } else {
      assert cs[1 + typed] == ArtifactIsNull && cs[2 + typed] == BlocksExist;
      var mimed := if policy.mimeTypes.Some? then 1 else 0;
      if policy.mimeTypes.Some? { assert cs[3 + typed] == MimeTypeRejected(policy.mimeTypes.value); }
      if policy.maxBytes.Some? { assert cs[3 + typed + mimed] == ByteSizeRejected(policy.maxBytes.value); }
      assert |cs| == 3 + typed + mimed + (if policy.maxBytes.Some? then 1 else 0);
    }
  }

  /** Emission of the fixed check, condition by condition: what is emitted for an authored
      policy finds exactly the documents that satisfy it. */
  method EmitConditions(policy: Policy) returns (conditions: seq<Condition>)
    ensures conditions == Conditions(policy)
    ensures policy.documentType != Some("") && policy.maxBytes != Some(0) ==>
      forall db, doc, tenant :: Finds(conditions, db, doc, tenant) <==> Satisfies(policy, db, doc, tenant)
  {
    hide Finds, Satisfies;
    conditions := [DocumentIsNull];
    if policy.documentType.Some? && policy.documentType.value != "" {
      conditions := conditions + [TypeDiffers(policy.documentType.value)];
    }
    if policy.content == Blocks {
      conditions := conditions + [ArtifactIsNotNull];
    } else {
      conditions := conditions + [ArtifactIsNull, BlocksExist];
      if policy.mimeTypes.Some? { conditions := conditions + [MimeTypeRejected(policy.mimeTypes.value)]; }
      if policy.maxBytes.Some? && policy.maxBytes.value != 0 {
        conditions := conditions + [ByteSizeRejected(policy.maxBytes.value)];
      }
    }
    assert conditions == Conditions(policy);
    if policy.documentType != Some("") && policy.maxBytes != Some(0) {
      forall db, doc, tenant ensures Finds(conditions, db, doc, tenant) <==> Satisfies(policy, db, doc, tenant) {
        FixedCheckIsPolicy(policy, db, doc, tenant);
      }
    }
  }

  /** The typed check passes exactly when the stored definition is a Document policy
      that the document satisfies; NULL members of the definition demand nothing. */
  lemma TypedCheckIsPolicy(def: Option<Definition>, db: Database, doc: Id, tenant: Tenant)
    ensures TypedPasses(def, db, Some(doc), tenant) <==>
      StoredPolicy(def).Some? && Satisfies(StoredPolicy(def).value, db, doc, tenant)
  {
    hide HasBlocks;
  }
}
