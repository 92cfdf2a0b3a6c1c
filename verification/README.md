# OpenShapeForge in Dafny

OpenShapeForge compiles authored entity and plugin declarations into a database schema, policies,
operation contracts and an OpenAPI document, and carries some protocol code: a Keycloak realm
reconciler, a signed identity bundle between services, and an audit of REST routes. This project
models the parts of it where a mistake would be silent and proves what each is for.

`dafny verify dfyconfig.toml` checks every file.

## What is modelled

**Realm reconciler** (`RealmManifest`, `ManifestFields`, `KeycloakServer`, `RealmPlan`, `RealmReconcile`,
`RealmConvergence`, `RealmOwnership`, `RealmProgress`). The server is mutable state: realms with a
settings record and a list of objects, each a map of fields. POST creates, PUT merges. An environment chosen freely for every call
may lose the call (its write committed or not), answer it falsely, or replace the realm before it. The
reconciler is a class with the source's fields `operations`, `changes` and `applied`; its methods
are proved against a plan defined on the server state, and the plan against runs cut at any write.
Safety of the trace holds in every environment; convergence and the frame hold where calls only fail,
whatever the server makes up for new objects; that planning stays possible and that clients stay
separated asks besides that it creates as the reconciler expects (ids, no foreign flags). Then, once
calls are delivered and made-up ids are new, a realm that can be planned or bootstrapped is deployed.
What a run must not touch, such as clients registered at run time, is told in the fields the server shows.

**Document fields** (`SqlLogic`, `DocumentPolicies`, `DocumentStore`). One SQL statement is one step;
every emitted trigger of every field runs on the state it leaves, in three-valued logic, and a raised
check undoes the step. The invariant is that every row's document satisfies its field's policy. No
trigger watches the version table; what makes that safe is the schema's foreign key, by which a
document's current version is an existing version of its tenant. The key is part of every step, and
what the triggers would leave open without it is stated exactly.

**Create contracts** (`JsonSchema`, `CreateSchema`, `CreateContracts`, `CreateAgreement`). An
evaluator for the part of JSON Schema 2020-12 the contracts use (Core sections 10.2.1 and 10.2.2.1,
Validation section 6.5), the composition of blueprint and binding controls, and the exact meaning of
what comes out, in the flat and the nested form, whatever conditions the original schema has. The
composition turns a conditional requirement of a bindable field into an unconditional one, so inputs
without controls are not always judged as before; the exact verdict and an example are stated.

**References in OpenAPI** (`Replacing`, `JsonPointer`, `SchemaEmbedding`). Rewriting local `$ref`s
when a request schema is placed in the document, against RFC 6901 resolution from the root, for the
document of all operations. A field carried by the route or by a header leaves the body, and
references to it then name nothing; every other reference to a part keeps its meaning. A reference
below a key of literal data stays as it was written, also where the key is the name of a field; so do
the references of response and parameter schemas, which then name what the document itself has there.

**Static strings** (`StaticStrings`). The evaluator behind persisted GraphQL operations against the
values an expression has under choices of branches. Reachable cycles can lose values; nothing else does.

**Row security** (`RowPolicies`, `RowSecurity`, `RealtimeReads`). A row scope is lowered to an SQL
tree, evaluated in three-valued logic and compared with a plain reading of the scope; policies are
combined as PostgreSQL combines permissive and restrictive ones per command. The comment on the
global tenant registry says that a plain session may write nothing; its policy covers all
commands with a read condition for DELETE, so what is proved is that such a session cannot add or
change a row. The realtime predicate is compared with the table's policies; it leaves the owner axis
and the record-access restriction out.

**Routes** (`RestRoutes`) as languages of requests, with the patterns that validation holds their
paths to (`AsciiWords`), under which the audit is exact; **JSON checks** (`JsonGraph`) over heaps with
sharing and cycles.

**Schema manifests** (`TableSchema`). **Plugin migrations** (`PluginMigrations`, `PluginRegistry`) are a registry that
holds exactly the declared constraints and migrations and is sorted and run. The foreign-key check takes any unique index on the target columns for a key, also a
partial one, which PostgreSQL takes for none; and it compares the table owner of the target key, not the
runner of its entry, so a compiler-run key may come late. Exactly when a foreign key finds its key is
stated for every constraint and runner, with an example of either failure. **Tenant-bound references**
(`TenantReferences`): what the check on foreign keys means for the rows of a database. The check by
itself does not look for the declaring column in its key; emission does, and exactly what the check
lets through without it is stated.

**Encodings**: canonical JSON (`JsText`, `JsonString`, `CanonicalJson`), which a JSON
reader gives back (`JsonReading`), the signed bundle
(`TrustedContext` over `JsWhitespace`, `Decimals`, `Delimited`), the organization cache key and SQL
quoting (`TextEncodings`). The comment on the bundle payload says that a newline inside a value can
never make two header sets share a payload. That holds between versions; within one it holds for a
bundle exactly when its signed values hold no newline, and HTTP headers carry none.

## How things are represented

Inputs from outside are parameters: server replies and failures, the clock, the signature (assumed to
tell secrets and payloads apart; a function that does is given), the URL parser's verdicts, the
collation behind `localeCompare` (any total order), the stored decision on a record's permission
document, and the rows of other tables a session sees. REST paths and manifest field names are
datatypes: `encodeURIComponent` is injective and the field lists are closed. Reported field lists are
sets, their order being presentation. JavaScript strings are code units where order or length
matters, and Dafny strings elsewhere. Text emitted as SQL is modelled by its structure; quoting of
names and literals is treated once, in `TextEncodings`.

## Model

| member | source | states |
|---|---|---|
| JsText.SortEqualIffSameItems | scripts/keycloak-realm-reconcile.ts:181 | two string lists have the same sorted copy exactly when they hold the same strings equally often, which is what array equality of owned fields rests on |
| RealmManifest.ValidateCollection | scripts/keycloak-realm-reconcile.ts:155-166 | a collection is accepted exactly when it has at most 1000 entries, each valid, with pairwise different names, and refused for a runtime name exactly when its first faulty entry is well-formed and uses one |
| RealmManifest.ValidateManifest | scripts/keycloak-realm-reconcile.ts:169-178 | a manifest is accepted exactly when the six members are there, no other is, and each is valid; it is refused for a runtime name exactly when its first faulty member is a collection refused for one |
| ManifestFields.SettingsMean | scripts/keycloak-realm-reconcile.ts:121-128 | the settings a manifest may hold and their values, field by field |
| ManifestFields.ObjectFieldsMean | scripts/keycloak-realm-reconcile.ts:135-136 | what a client scope and a realm role may hold |
| ManifestFields.ClientFieldsMean | scripts/keycloak-realm-reconcile.ts:129-134 | what a client may hold |
| ManifestFields.RealmNameMeans | scripts/keycloak-realm-reconcile.ts:105-106 | which realm names are taken: no colon, and not the master realm in any letter case |
| ManifestFields.SmallManifestIsValid | scripts/keycloak-realm-reconcile.ts:169-178 | a manifest that is accepted |
| RealmOwnership.RuntimeNameMeans | scripts/keycloak-realm-reconcile.ts:107-108 | which names provisioning owns, in any letter case: the prefixes and the UUIDs, and no others |
| RealmOwnership.EntryMeans | scripts/keycloak-realm-reconcile.ts:155-166 | an entry is taken exactly when its fields fit, its name is none of those, and it is no public client with a service account |
| RealmManifest.ValidManifestItems | scripts/keycloak-realm-reconcile.ts:169-178 | a valid manifest names every (kind, name) once, supplies only schema fields with values `equal` can match, and never asks for a client that is public and service-account enabled |
| RealmPlan.EqualIsSameValue | scripts/keycloak-realm-reconcile.ts:180-183 | the comparison used for planning is equality of values with the order of string arrays ignored |
| KeycloakServer.Server.Request | scripts/keycloak-realm-reconcile.ts:71-73 | one adapter call under an arbitrary environment: it may be delivered, lost with or without its write committed, answered falsely, or come after somebody else replaced the realm |
| KeycloakServer.RefusedLeavesState | scripts/keycloak-realm-reconcile.ts:205-211 | a write the server refuses leaves its state alone |
| RealmReconcile.Reconciler.Call | scripts/keycloak-realm-reconcile.ts:205-211 | a call succeeds only with the status of its verb (404 where allowed); a failed call left the state as it was or carried out exactly that request |
| RealmReconcile.Reconciler.Fetch | scripts/keycloak-realm-reconcile.ts:212 | a read sends one GET and, unless someone else writes, changes nothing and returns what the server shows |
| RealmReconcile.Reconciler.PlanScope | scripts/keycloak-realm-reconcile.ts:250-261 | planning one client scope only reads, and yields the operation the server state determines or refuses where it determines none |
| RealmReconcile.Reconciler.PlanRole | scripts/keycloak-realm-reconcile.ts:262-271 | planning one realm role, addressed by name, only reads and yields the operation the server state determines |
| RealmReconcile.Reconciler.PlanClient | scripts/keycloak-realm-reconcile.ts:272-291 | planning one client only reads, re-reads the match, and yields the operation the server state determines, refusing where none is determined; which clients those are, field by field, is ClientPlansIff |
| RealmReconcile.Reconciler.PlanObjects | scripts/keycloak-realm-reconcile.ts:244-291 | all managed objects are planned in order scopes, roles, clients before any write |
| RealmReconcile.Reconciler.ReadRealm | scripts/keycloak-realm-reconcile.ts:226-241 | the realm is read, created only when missing, allowed and applying, and re-read; its id is the one later writes are confirmed against |
| RealmReconcile.Reconciler.GuardedWrite | scripts/keycloak-realm-reconcile.ts:296-299 | a write is sent only right after a read that returned the planned realm name and id, and counts only if acknowledged |
| RealmReconcile.Reconciler.Apply | scripts/keycloak-realm-reconcile.ts:293-301 | the writes sent are the plan's non-unchanged operations in order, each confirmed; `applied` grows by the acknowledged ones even when a write fails |
| RealmReconcile.Reconciler.Prepare | scripts/keycloak-realm-reconcile.ts:226-292 | everything before the plan's first write: guarded bootstrap, a plan that the server state determines, and a failure only where planning is refused or a call is not delivered |
| RealmReconcile.Reconciler.Execute | scripts/keycloak-realm-reconcile.ts:225-305 | one whole run: every write after bootstrap directly follows a confirming read, `applied` equals the acknowledged writes on every outcome, a plan run sends reads only, a finished apply sent exactly the reported operations, and with delivered calls and new ids a run that can be planned succeeds |
| RealmReconcile.Reconcile | scripts/keycloak-realm-reconcile.ts:196-306 | invalid manifests and foreign realms send nothing; every other outcome carries the progress report; on a server that only fails calls the new state is that of a run cut at some write, and a failed run of a realm that was there sent nothing or a first part of its plan, which it then reports in full |
| RealmReconcile.DeployUntilDone | scripts/keycloak-realm-reconcile.ts:191-195 | repeating apply after failures: the first run that returns leaves the manifest on the server, nothing outside the manifest has changed since the start, and once calls are delivered a run does return, whether the realm was there or had to be bootstrapped |
| RealmProgress.WriteAccepted | scripts/keycloak-realm-reconcile.ts:294-299 | the server accepts the next write of a plan carried out so far, given an id no object of the kind has |
| RealmProgress.ServeKeepsNumbered | scripts/keycloak-realm-reconcile.ts:214-224 | a write that supplies no id leaves the ids still to be made up new |
| RealmProgress.RunStaysStartable | scripts/keycloak-realm-reconcile.ts:226-292 | from what a run cut anywhere leaves, bootstrap included, the next run can start |
| RealmProgress.BootedIsFresh | scripts/keycloak-realm-reconcile.ts:227-236 | bootstrapping a missing realm leaves one that can be planned and keeps the ids to come new |
| RealmReconcile.PlanThenApply | scripts/keycloak-realm-reconcile.ts:203-302 | from one stable state plan and apply report the same changes, and apply sends exactly the non-unchanged ones in order and converges; an apply that fails sent a first part of them and reports all of them, or stopped before planning with nothing sent and nothing reported |
| RealmReconcile.PlanIsUnique | scripts/keycloak-realm-reconcile.ts:213-224 | a server state determines the plan |
| RealmConvergence.CarriedOwn | scripts/keycloak-realm-reconcile.ts:214-224 | one operation leaves exactly one object of its name: the old one, or the server's new one, under the supplied fields |
| RealmConvergence.CarriedOthers | scripts/keycloak-realm-reconcile.ts:214-224 | one operation leaves the objects of every other (kind, name) alone |
| RealmConvergence.RunPrefix | scripts/keycloak-realm-reconcile.ts:293-301 | after any prefix of a plan's writes, the settings and the first items are reconciled, all others untouched, and the rest of the plan is still the plan |
| RealmConvergence.RunIsFramed | scripts/keycloak-realm-reconcile.ts:196-306 | a run cut anywhere removes nothing, changes no unmanaged object, no unsupplied field and no other realm |
| RealmConvergence.RunStaysPlannable | scripts/keycloak-realm-reconcile.ts:244-291 | wherever a run was cut, if the server creates objects properly the next run can plan again |
| RealmConvergence.CutRunsAreFramed | scripts/keycloak-realm-reconcile.ts:191-195 | the same frame over any number of runs, each cut anywhere |
| RealmConvergence.WholeRunConverges | scripts/keycloak-realm-reconcile.ts:293-302 | a run that returns leaves every owned field at the manifest's value, array order aside |
| RealmConvergence.WholeRunSeparatesClients | scripts/keycloak-realm-reconcile.ts:287-288 | after a finished apply no managed client is both public and service-account enabled, if the server's defaults have neither flag on |
| RealmConvergence.ConvergedPlansNothing | scripts/keycloak-realm-reconcile.ts:214-224 | from a converged server every plan is empty |
| RealmConvergence.ConvergedRunWritesNothing | scripts/keycloak-realm-reconcile.ts:293-301 | a run on a converged server commits no write, finished or cut anywhere |
| RealmConvergence.CrashConvergence | scripts/keycloak-realm-reconcile.ts:191-306 | for every valid manifest and well-formed server: any number of apply runs, each cut at any write, committed or not, then one that returns, gives a converged and framed server on which a further run, finished or cut, writes nothing, whatever the server makes up for new objects |
| RealmOwnership.ScopePlansIff | scripts/keycloak-realm-reconcile.ts:250-261 | a client scope can be planned for exactly when at most one carries its name and that one has a server id |
| RealmOwnership.RolePlansIff | scripts/keycloak-realm-reconcile.ts:262-271 | a realm role can be planned for exactly when the role of its name, where there is one, is none of a client and has a server id |
| RealmOwnership.ClientPlansIff | scripts/keycloak-realm-reconcile.ts:272-291 | a client can be planned for exactly when at most one carries its id, that one has a server id, no registration token and no protocol other than a supplied one, and it does not end up public and service-account enabled |
| RealmOwnership.PlannedMeans | scripts/keycloak-realm-reconcile.ts:214-224 | what a planned operation is: a creation, an update of an object that does not show every supplied value, or nothing, and exactly the supplied fields not shown are reported |
| RealmOwnership.PlannedWhere | scripts/keycloak-realm-reconcile.ts:250-291 | where an object is written: a new one below its kind, a role under its name, any other under the id the server gave it |
| RealmOwnership.EmptyRealmPlans | scripts/keycloak-realm-reconcile.ts:244-292 | in a realm without objects every valid manifest can be planned |
| RealmOwnership.BlockedRunsWriteNothing | scripts/keycloak-realm-reconcile.ts:244-292 | where one managed object cannot be planned for, no run writes anything of a plan or finishes |
| RealmOwnership.UnnamedStays | scripts/keycloak-realm-reconcile.ts:196-306 | an object whose name the manifest does not give is the same object after any run, finished or cut |
| RealmOwnership.ForeignClientsStay | scripts/keycloak-realm-reconcile.ts:282-289 | a client with a registration token, or with a protocol of another kind, is the same object after any run, finished or cut, and where the manifest names it nothing of the plan is written |
| RealmOwnership.ProvisionedObjectsStay | scripts/keycloak-realm-reconcile.ts:107-108 | an object with a name of the shapes provisioning gives, in any letter case, is the same object after any run of any accepted manifest |
| RealmOwnership.MasterRealmStays | scripts/keycloak-realm-reconcile.ts:106 | no run of an accepted manifest changes anything of the `master` realm |
| DocumentPolicies.EmitConditions | packages/compiler/src/document-field-invariants.ts:18-25 | what is emitted for an authored policy finds exactly the documents that satisfy it, in every state of the database |
| DocumentPolicies.FixedCheckIsPolicy | packages/compiler/src/document-field-invariants.ts:18-35 | under three-valued logic the emitted check passes exactly the documents that satisfy the field's policy, missing versions and NULL columns included |
| DocumentPolicies.TypedCheckIsPolicy | packages/compiler/src/document-field-invariants.ts:67-82 | the typed check passes exactly when the stored definition is a Document policy and the document satisfies it; a definition without content is read as a file policy |
| DocumentPolicies.FileFieldMeans | packages/compiler/src/document-field-invariants.ts:18-25 | what holding a file policy is: the document is there, of the tenant and of the type, no block stands in a variant of it, and its current version is one of the tenant with an artifact of an admitted type and size |
| DocumentPolicies.BlocksFieldMeans | packages/compiler/src/document-field-invariants.ts:18-25 | what holding a policy of blocks is: no version of the tenant with an artifact is current |
| DocumentPolicies.TypedFieldMeans | packages/compiler/src/document-field-invariants.ts:67-82 | a field typed by a stored definition holds exactly when an authored field with that definition would, and never under another type or an unknown content |
| DocumentStore.TriggersPassIffGood | packages/compiler/src/document-field-invariants.ts:36-58 | from a state where every policy holds, the triggers pass a statement on owners, documents, variants or blocks exactly when every policy still holds afterwards, fixed and typed fields alike |
| DocumentStore.CommittedIffSound | packages/compiler/src/document-field-invariants.ts:7-107 | with the foreign key on the current version, every statement, version inserts included, commits exactly when the state it leaves keeps every policy and that key |
| DocumentStore.RunsStaySound | packages/compiler/src/document-field-invariants.ts:7-107 | over any run of allowed statements, each aborted when a check raises, every referenced document satisfies every field's policy at once |
| DocumentStore.InsertedVersionsKeepGood | packages/compiler/src/document-field-invariants.ts:53-54 | no trigger watches versions: inserting them keeps the policies exactly when no policed document already points at one that carries an artifact |
| DocumentStore.BoundIsUnpointed | apps/api/src/db/migrations/core-invariants-documents.ts:91-104 | the foreign key leaves no document pointing at a version yet to come, which is what version inserts need |
| DocumentStore.Store.Execute | packages/compiler/src/document-field-invariants.ts:36-58 | one statement in place: applied with all triggers and the foreign key satisfied, or rolled back; from a sound state committed exactly when the result is sound |
| CreateSchema.ComposeBindingControls | packages/compiler/src/entity-operation-json-schema.ts:159-204 | the composition with its set of claimed names, condition by condition |
| CreateContracts.FlatCreateMeans | packages/compiler/src/entity-operation-json-schema.ts:159-204 | whatever conditions the original has, the composed flat contract accepts an input exactly when its shape fits, the conditions hold without the bindable names they require, every required field and every bindable name some condition requires is present, bound or covered by a blueprint, and blueprint bindings come with a blueprint |
| CreateContracts.RelaxedConditionMeans | packages/compiler/src/entity-operation-json-schema.ts:180-192 | a condition is its relaxed form plus, where its test holds, the bindable names it requires |
| CreateContracts.UnconditionalCreateMeans | packages/compiler/src/blueprint-create-schema.ts:7-20 | where no condition requires a bindable field: the original with the controls declared, and every required field present, bound or covered by a blueprint |
| CreateContracts.UncontrolledCreateMeans | packages/compiler/src/entity-operation-json-schema.ts:159-204 | for inputs without controls, whatever conditions the original has: accepted exactly when the original accepts and every bindable field that any condition may require is present |
| CreateContracts.ConditionalRequirementHardens | packages/compiler/src/entity-operation-json-schema.ts:183-204 | a conditional requirement of a bindable field becomes unconditional: an input the original accepts and the composed contract refuses |
| CreateContracts.AlternativeMeans | packages/compiler/src/entity-operation-json-schema.ts:194-198 | one alternative is met by a value, a binding, or a blueprint id where there is a blueprint |
| CreateContracts.BindableKeysMean | packages/compiler/src/entity-operation-json-schema.ts:84-93 | a name may be bound exactly when it is persisted and a field of that name takes variables |
| CreateContracts.UnbindableMustArrive | packages/compiler/src/entity-operation-json-schema.ts:159-204 | a required field that takes no variable or is not persisted arrives as a value or is copied by a named blueprint, in every accepted input |
| CreateContracts.BindingControlsMean | packages/compiler/src/entity-operation-json-schema.ts:129-158 | the binding controls are offered exactly where something may be bound; `bindings` accepts just such names, each by its own schema, and `unbind` just lists of such names without repetition |
| CreateContracts.BlueprintControlsMean | packages/compiler/src/blueprint-create-schema.ts:4-12 | the blueprint controls are declared exactly with a blueprint, with their bounds |
| CreateContracts.PresenceMeans | packages/compiler/src/entity-operation-json-schema.ts:194-198 | presence, name by name: a value, a binding where the name may be bound, or a blueprint that copies it or may bind it |
| CreateAgreement.NestedCreateMeans | packages/compiler/src/entity-operation-json-schema.ts:797-823 | the canonical nested contract accepts exactly the inputs that fit its shape and bring every required field as value, binding or through a blueprint |
| CreateAgreement.RelaxedNestedMeans | packages/compiler/src/entity-operation-json-schema.ts:183-192 | a nested condition is its relaxed form plus, where its test holds, the bindable names it requires of the values; a condition that asks nothing of the values is kept |
| CreateAgreement.ContractsAgree | packages/compiler/src/generate-mcp.ts:602-626 | the flat tool contract accepts an input exactly when the canonical contract accepts the same record under `values` and blueprint bindings come with a blueprint |
| CreateAgreement.OrdinaryContractsQualify | packages/compiler/src/generate-mcp.ts:602-626 | what both results assume of an entity holds of every closed record none of whose fields is named like a control |
| JsonPointer.EscapeRoundTrip | packages/compiler/src/generate-operations.ts:1480 | escaping `~` and `/` loses nothing and leaves no separator inside a token (sections 3 and 4 of RFC 6901) |
| JsonPointer.PointerParses | packages/compiler/src/generate-operations.ts:1480 | a printed pointer parses to its tokens whatever pointer text follows it |
| JsonPointer.UnescapedWasEscaped | packages/compiler/src/generate-operations.ts:1480 | a separator-free text that unescapes is the escaping of what it unescapes to: nothing else stands for a token |
| JsonPointer.TokensArePrinted | packages/compiler/src/generate-operations.ts:1480 | a text reads as given tokens exactly when it is their printed pointer |
| JsonPointer.IndexIsPrinted | packages/compiler/src/generate-operations.ts:1361-1368 | a token is an array index exactly when it is that number as printed, so without leading zeros (section 4 of RFC 6901) |
| JsonPointer.PointerTextSeparates | packages/compiler/src/generate-operations.ts:1480 | different token lists print differently |
| JsonPointer.ResolveSplit | packages/compiler/src/generate-operations.ts:1361-1368 | following a pointer is following its first part and then the rest |
| SchemaEmbedding.ResolveRewritten | packages/compiler/src/generate-operations.ts:1362-1368 | off the literal data, a pointer finds in the rewritten schema the rewriting of what it found in the original, and nothing where it found nothing |
| SchemaEmbedding.RewriteKeepsShape | packages/compiler/src/generate-operations.ts:1361-1368 | rewriting keeps scalars and texts, the length of lists and the keys of objects |
| SchemaEmbedding.ResolveLiteral | packages/compiler/src/generate-operations.ts:1366 | through a default, const, enum or example a pointer finds exactly the original data |
| SchemaEmbedding.ReferenceRewritten | packages/compiler/src/generate-operations.ts:1365-1366 | a local reference is moved below the location, any other reference is kept |
| SchemaEmbedding.EmbeddedReferenceResolves | packages/compiler/src/generate-operations.ts:1361-1368 | a schema placed anywhere in a document: each rewritten reference resolves from the root to the rewriting of the node it named, and to nothing where it named nothing |
| SchemaEmbedding.OperationOpenApiPaths | packages/compiler/src/generate-operations.ts:1370-1486 | the paths object built operation by operation, or the first repeated route and method; what stands in each body is told by the four rows below from the input, the path and the idempotency field |
| SchemaEmbedding.RouteShowsSegments | packages/compiler/src/generate-operations.ts:1411 | between its slashes a route shows the authored segments, parameters in braces |
| SchemaEmbedding.BodyByVerb | packages/compiler/src/generate-operations.ts:1478-1481 | a request body is described exactly for POST, PUT and PATCH, and all else of the operation object stays |
| SchemaEmbedding.BodyRequiresWhatIsAsked | packages/compiler/src/generate-operations.ts:1429-1437 | the body schema requires exactly the required names of the input that are no route parameter and not the idempotency field, each once, and has no `required` exactly when there is none; the request body is itself marked required exactly when there is one |
| SchemaEmbedding.BodyHoldsOtherFields | packages/compiler/src/generate-operations.ts:1424-1428 | the body schema declares exactly the fields that do not travel in the route or in the header, each as the input had it |
| SchemaEmbedding.BodyKeepsOtherMembers | packages/compiler/src/generate-operations.ts:1432-1437 | every member but `properties` and `required` is as the input had it |
| SchemaEmbedding.PathsHoldAll | packages/compiler/src/generate-operations.ts:1438-1443 | it is built exactly when no two operations share route and method, and then holds every operation's object and nothing else |
| SchemaEmbedding.LocationIsPlace | packages/compiler/src/generate-operations.ts:1479-1480 | the spelled location is the pointer to where the schema sits, whatever characters the route has |
| SchemaEmbedding.DocumentReferencesResolve | packages/compiler/src/generate-operations.ts:1478-1481 | in the finished document every local reference of every request body, off the literal data, resolves to the rewriting of the node it named in the body schema |
| SchemaEmbedding.EmbeddedLiteralResolves | packages/compiler/src/generate-operations.ts:1365-1366 | a moved reference into literal data names that data as it was |
| SchemaEmbedding.LiteralReferencesStay | packages/compiler/src/generate-operations.ts:1365-1366 | a reference written below a literal key, such as a field called default, is left as it was and names what the document root has there, which is nothing unless the document has such a member |
| SchemaEmbedding.MemberReferencesStay | packages/compiler/src/generate-operations.ts:1377-1423 | references in response and parameter schemas, and in all else beside the request body, are kept and name what the document root has there, which is nothing unless the document has such a member |
| SchemaEmbedding.BodyKeepsNodes | packages/compiler/src/generate-operations.ts:1424-1437 | what every pointer into the body schema names, told by the input schema: the schema, its properties and its required names without the moved fields, nothing below a moved field, everything else unchanged |
| SchemaEmbedding.ReferenceNamesInputNode | packages/compiler/src/generate-operations.ts:1424-1481 | from the document root a moved reference names the rewriting of what the body keeps of it |
| SchemaEmbedding.ReferenceKeepsMeaningIff | packages/compiler/src/generate-operations.ts:1424-1481 | it is the rewriting of what it named in the input schema exactly unless it named something below a field that moved to the route or a header |
| SchemaEmbedding.MovedFieldsDangle | packages/compiler/src/generate-operations.ts:1424-1437 | a PUT on /api/items/:id whose reference to the field id resolved in its input schema and does not in the document |
| StaticStrings.ResolveBinding | packages/compiler/src/persisted-operations.ts:25-33 | the result is a binding exactly when some scope of the chain binds the name to it and no scope nearer does, and nothing exactly when no scope binds it |
| StaticStrings.CombineMembers | packages/compiler/src/persisted-operations.ts:35-41 | the combined texts are exactly those picking one text from every part, in order |
| StaticStrings.EvaluateString | packages/compiler/src/persisted-operations.ts:43-93 | the evaluator terminates on every binding map, cyclic ones included, and computes the specified list in the source's order |
| StaticStrings.EvaluateExact | packages/compiler/src/persisted-operations.ts:43-93 | it returns exactly the values of the choices of branches that never re-enter a binding |
| StaticStrings.AcyclicIsComplete | packages/compiler/src/persisted-operations.ts:43-93 | where no binding the expression reaches reaches itself, it returns every value the expression can take and nothing else |
| StaticStrings.RankedIsAcyclic | packages/compiler/src/persisted-operations.ts:36-112 | initializers that name only bindings of a smaller rank, as in declaration order, form no cycle |
| StaticStrings.OrderedValues | packages/compiler/src/persisted-operations.ts:36-112 | a binding over another binding, and the value that comes out |
| StaticStrings.CyclesLoseValues | packages/compiler/src/persisted-operations.ts:56-61 | a cyclic binding one of whose values is missed |
| RowPolicies.RenderRowScopePredicate | packages/compiler/src/generate.ts:369-448 | the row-scope predicate with its branches pushed in order, or the first missing column |
| RowPolicies.ScopeBuildsIff | packages/compiler/src/generate.ts:377-436 | rendering succeeds exactly when the table has every column the scope names: the group's, those of every axis, and that of the record permissions |
| RowPolicies.RenderOwnerAxisPolicy | packages/compiler/src/generate.ts:461-484 | the restrictive owner-axis policy, or its refusals |
| RowPolicies.RenderTablePolicies | packages/compiler/src/generate.ts:600-660 | the policies of one table, in order, or the first refusal; what they admit in tenant-scoped, registry and other global tables is TenantTableMeans, RegistryMeans and GlobalTableMeans |
| RowSecurity.ScopeSqlMeans | packages/compiler/src/generate.ts:440-447 | under three-valued logic the rendered predicate is true exactly for bypass, for the worker, or for rows of the session's tenant on some authored axis that the record permissions allow |
| RowSecurity.OwnerMeans | packages/compiler/src/generate.ts:466-483 | the owner-axis predicate is true exactly for bypass, a marked command, or a set owner column with one of its roles |
| RowSecurity.AccessMeans | packages/compiler/src/generate.ts:501-503 | the record-access predicate is true exactly for bypass or when the described row, of the same tenant, is visible to the session |
| RowSecurity.TenantTableMeans | packages/compiler/src/generate.ts:600-660 | exactly which rows a session may read, insert, delete and update in a tenant-scoped table, all policies together |
| RowSecurity.TenantIsolation | packages/compiler/src/generate.ts:623-651 | without bypass and without the table's worker role, every row a session reads, adds, removes or changes, before and after, is of its own tenant |
| RowSecurity.RestrictivePoliciesOnlyShrink | packages/compiler/src/generate.ts:461-512 | owner-axis and record-access policies never add a readable row, and take away exactly those their own condition rejects |
| RowSecurity.ReadableIsWritable | packages/compiler/src/generate.ts:624-636 | USING true implies WITH CHECK true for the permissive policy of a tenant-scoped table |
| RowSecurity.RegistryMeans | packages/compiler/src/generate.ts:333-367 | a global tenant registry lets a plain session read its own tenant's row and neither add nor change one; deleting asks only the read side |
| RowSecurity.GlobalTableMeans | packages/compiler/src/generate.ts:652-656 | a global table that is no registry renders exactly without worker access, owner axis and record access, gets no policy and is not closed: every session may do everything the grants allow |
| RowSecurity.TableRendersIff | packages/compiler/src/generate.ts:600-660 | for every table, exactly when its policies can be rendered, told by its columns and declarations |
| RowSecurity.RegistryRestricts | packages/compiler/src/tenant-bound-references.ts:289-305 | rows that are their tenant are inserted and deleted only under the bypass |
| RealtimeReads.VerdictReadsVisibility | packages/compiler/src/generate.ts:910-922 | the realtime verdict, NULL included, is the same on any two rows that agree on the visibility columns |
| RealtimeReads.VisibilityIsWhatIsRead | packages/compiler/src/generate.ts:910-922 | the visibility columns are exactly the columns the read predicate mentions |
| RealtimeReads.SnapshotDecides | packages/compiler/src/generate.ts:910-922 | the stored snapshot of the visibility columns decides as the row would |
| RealtimeReads.PermissivePolicyAgrees | packages/compiler/src/generate.ts:369-448 | the permissive policy admits a row exactly when the realtime predicate is true, or the session is the table's worker, or it bypasses a table without a row scope |
| RealtimeReads.PlainSessionsAgree | packages/compiler/src/generate.ts:910-922 | for sessions with neither bypass nor worker role: readable exactly when the realtime predicate is true of the snapshot and the restrictive read policies let it |
| RealtimeReads.StreamIsWiderThanReading | packages/compiler/src/generate.ts:461-484 | a row the realtime predicate admits and the owner axis keeps unreadable |
| RestRoutes.RestRoutesOverlap | packages/compiler/src/generate-operations.ts:242-260 | the index loop decides the specified overlap |
| RestRoutes.OverlapIsIntersection | packages/compiler/src/generate-operations.ts:242-260 | overlap holds exactly when some request is matched by both routes, or an empty literal segment stands against a parameter |
| RestRoutes.OverlapIsExact | packages/compiler/src/generate-operations.ts:242-260 | on paths without empty segments overlap is exactly a shared request |
| RestRoutes.RestPathHasNoEmptySegments | packages/compiler/src/generate-operations.ts:114 | a path that passes the operation path pattern has no empty segment |
| RestRoutes.EntitySegments | packages/compiler/src/generate-operations.ts:586-592 | the segments of an entity's collection and item paths |
| RestRoutes.RestPathMeans | packages/compiler/src/generate-operations.ts:114 | the accepted operation paths are exactly those spelled as `/api/`, a namespace and further literal or parameter segments |
| RestRoutes.EntityClaimsMean | packages/compiler/src/generate-operations.ts:582-593 | an entity's claims match exactly the requests its enabled operations serve, on the collection and on one item |
| RestRoutes.Surface.Claim | packages/compiler/src/generate-operations.ts:567-580 | a route is added exactly when it overlaps nothing claimed |
| RestRoutes.ValidatedIsExact | packages/compiler/src/generate-operations.ts:565-633 | for validated base paths and operation paths being apart is sharing no request |
| RestRoutes.AuditRest | packages/compiler/src/generate-operations.ts:565-633 | the audit finishes exactly when all entity and operation routes are pairwise apart and apart from the core routes, and on validated paths exactly when no request is matched by two of them or by one and a core route |
| RestRoutes.AuditSeparatesRequests | packages/compiler/src/generate-operations.ts:567-593 | after an audit that finishes a request matches at most one claimed route, and none that also matches a core route |
| RestRoutes.AuditedEntitiesShareNothing | packages/compiler/src/generate-operations.ts:565-633 | after an audit that finishes no request is served by two entities, or by an entity and an operation or core route |
| JsonGraph.AcceptIsPlainAndAcyclic | packages/compiler/src/generate-operations.ts:281-302 | over heaps with sharing and cycles the check accepts exactly when every reachable node is plain JSON and no reachable cycle exists |
| JsonGraph.EdgeMeans | packages/compiler/src/generate-operations.ts:281-302 | from an array the check goes on to what its indexes hold, from an object to what its enumerable properties hold |
| JsonGraph.JsonArrayMeans | packages/compiler/src/generate-operations.ts:281-302 | what the value check asks of an array |
| JsonGraph.JsonObjectMeans | packages/compiler/src/generate-operations.ts:281-302 | what it asks of an object: hidden properties are not looked at |
| JsonGraph.ConfigurationArrayMeans | packages/compiler/src/generate-modules.ts:92-108 | what the configuration check asks of an array: any prototype, but nothing beside the indexes and no hidden or computed element |
| JsonGraph.ConfigurationObjectMeans | packages/compiler/src/generate-modules.ts:92-108 | what it asks of an object: a plain prototype and plain visible data throughout |
| JsonGraph.ConfigurationsAreJsonIff | packages/compiler/src/generate-modules.ts:92-108 | a value the configuration check accepts is accepted by the value check exactly when it holds no array with a prototype of its own |
| JsonGraph.IsJsonValue | packages/compiler/src/generate-operations.ts:281-302 | the recursion terminates on every heap, answers as specified and leaves the ancestor set as it was on every answer |
| JsonGraph.AssertJsonConfiguration | packages/compiler/src/generate-modules.ts:92-108 | the stricter check terminates, passes exactly as specified and on acceptance leaves the ancestor set as it was |
| JsonGraph.CheckJson | packages/compiler/src/generate-modules.ts:92-108 | called from outside, either check accepts exactly the plain, acyclic values |
| JsonGraph.SharingIsNoCycle | packages/compiler/src/generate-operations.ts:281-302 | an object held twice is accepted by either check |
| JsonGraph.SelfReferenceIsRefused | packages/compiler/src/generate-operations.ts:281-302 | an object that holds itself is plain and is refused by either check |
| PluginMigrations.AssertConstraintRelations | packages/compiler/src/generate-plugin-migrations.ts:73-110 | passes exactly when backing index names are new and used once and no table has two primary keys |
| PluginMigrations.OnePrimaryKeyMeans | packages/compiler/src/generate-plugin-migrations.ts:73-110 | a table passes exactly when it has one primary key at most, its columns or one constraint |
| PluginMigrations.NoSecondPrimaryKey | packages/compiler/src/generate-plugin-migrations.ts:73-110 | running a built registry never gives a table a second primary key |
| PluginMigrations.BackingIndexIsNew | packages/compiler/src/generate-plugin-migrations.ts:73-110 | the index behind an added primary key or unique constraint takes a name no table and no index of its schema has and no other entry takes |
| PluginMigrations.AssertForeignKeyTargets | packages/compiler/src/generate-plugin-migrations.ts:112-172 | passes exactly when every foreign key has a known target with a key on its columns, ordered strictly earlier between owned tables |
| PluginMigrations.TargetsExist | packages/compiler/src/generate-plugin-migrations.ts:112-135 | every foreign key that passes refers to a declared table and to columns it has |
| PluginMigrations.CollectConstraints | packages/compiler/src/generate-plugin-migrations.ts:201-220 | a table's constraint entries, exactly when every constraint has an owner, a well-formed identity and its own name, and is rendered |
| PluginMigrations.CollectMigrations | packages/compiler/src/generate-plugin-migrations.ts:174-184 | a plugin's migration entries, exactly when identities are well formed and no statement is empty |
| PluginMigrations.CollectRegistry | packages/compiler/src/generate-plugin-migrations.ts:191-252 | the registry builds exactly when all checks hold, tenant-bound references included, every constraint is rendered and no identity repeats, and is the sorted list of all entries |
| PluginRegistry.RegistryIsDeclared | packages/compiler/src/generate-plugin-migrations.ts:191-252 | a built registry holds exactly the declared entries: each constraint under the compiler or its plugin, each migration with its text closed by a line end, and the document checks |
| PluginRegistry.ConstraintsMean | packages/compiler/src/generate-plugin-migrations.ts:201-220 | a table's constraints are taken exactly when their names differ and each is rendered, numbered, and run by the compiler or by a plugin with a well-formed name |
| PluginRegistry.MigrationsMean | packages/compiler/src/generate-plugin-migrations.ts:174-184 | a plugin's migrations are taken exactly when its name and their versions are well formed and each holds more than white space |
| PluginRegistry.MigrationVersionMeans | packages/compiler/src/generate-plugin-migrations.ts:35 | the version pattern: four digits, an underscore, a kebab-case name |
| PluginRegistry.EntriesAreNamed | packages/compiler/src/generate-plugin-migrations.ts:42-53 | every entry of a built registry, the compiler included, is named as the patterns have it |
| PluginRegistry.IdentitySeparates | packages/compiler/src/generate-plugin-migrations.ts:236-252 | two well-named entries clash exactly when they share plugin and version |
| PluginRegistry.OrderExists | packages/compiler/src/generate-plugin-migrations.ts:56-64 | the assumption made of the collation can be met |
| PluginMigrations.EarlierIffOrdered | packages/compiler/src/generate-plugin-migrations.ts:56-64 | in a built registry one entry precedes another exactly when its plugin and version are smaller |
| PluginMigrations.ForeignKeysFindTheirKeys | packages/compiler/src/generate-plugin-migrations.ts:112-172 | running a built registry in order never adds a foreign key between plugin-owned tables before a key on exactly its target columns exists, provided no unique index on those columns has a `where` |
| PluginMigrations.ForeignKeyFindsItsKeyIff | packages/compiler/src/generate-plugin-migrations.ts:133-169 | such a foreign key finds its key exactly if the check did not take a generated unique index for it, or the generated schema has a primary key or a unique index over all rows there, or a declared key on those columns comes earlier |
| PluginMigrations.PartialIndexIsNoKey | packages/compiler/src/generate-plugin-migrations.ts:136-148 | a registry that builds on a partial unique index although no key on the target columns ever exists |
| PluginMigrations.KeyExistsIff | packages/compiler/src/generate-plugin-migrations.ts:191-252 | when a constraint's entry is about to run, a key on given columns exists exactly if the generated schema has a primary key or a unique index over all rows on them, or a declared key on those columns has a smaller runner and version, whoever runs them |
| PluginMigrations.CompilerKeysMayComeLate | packages/compiler/src/generate-plugin-migrations.ts:159-169 | a registry that builds although a compiler-run target key comes after the foreign key |
| TenantReferences.AssertTenantBoundReferences | packages/compiler/src/tenant-bound-references.ts:176-216 | passes exactly when every column reference and every foreign-key constraint names a known target and is bound to it |
| TenantReferences.AssertBoundReference | packages/compiler/src/tenant-bound-references.ts:91-168 | a key is bound exactly when its columns pair up by type and, into a tenant-scoped table, it is the row's required tenant column on a registry that proves id = tenant_id, or pairs the tenant with a required column that is the row's own where it has a tenant |
| TenantReferences.OrdinaryKeysAreBound | packages/compiler/src/tenant-bound-references.ts:91-168 | a reference to a global table needs only its pairs, and one into a tenant-scoped table is bound once it pairs the tenant columns beside another column |
| TenantReferences.OwnTenantKeyIsBound | packages/compiler/src/tenant-bound-references.ts:115-138 | so is the required tenant column against a registry whose rows are their own tenant |
| TenantReferences.BoundIsTyped | packages/compiler/src/tenant-bound-references.ts:91-168 | a bound key pairs columns of one type, and the column that carries the tenant is a required uuid |
| TenantReferences.IdentityColumnMeans | packages/compiler/src/tenant-bound-references.ts:40-58 | which column is a table's tenant column |
| TenantReferences.IdentityCheckMeans | packages/compiler/src/tenant-bound-references.ts:67-71 | a check proves `id = tenant_id` exactly when it says so in whatever spacing |
| TenantReferences.ColumnKeyMeans | packages/compiler/src/tenant-bound-references.ts:176-200 | which columns a column reference pairs |
| TenantReferences.DeclaredColumnMeans | packages/compiler/src/tenant-bound-references.ts:200-216 | a table constraint is declared on its first column that is not the tenant's, or on that where there is no other |
| TenantReferences.BoundKeyKeepsTenant | packages/compiler/src/tenant-bound-references.ts:115-168 | among rows that keep NOT NULL and the identity check, a bound key matches no row of another tenant |
| TenantReferences.BindingIsOwn | packages/compiler/src/tenant-bound-references.ts:120-167 | the column that carries the tenant is never NULL and is the row's own tenant column where the row has a tenant or refers by it alone |
| TenantReferences.ForeignTenantIsUnexpressible | packages/compiler/src/tenant-bound-references.ts:5-13 | in every database that keeps the constraints of an accepted manifest, a row whose pointer columns are set refers to a row, and no row it can refer to is of another tenant |
| TenantReferences.ConformingRowsExist | packages/compiler/src/tenant-bound-references.ts:5-13 | an accepted manifest and rows that keep its constraints, one referring to another |
| TenantReferences.EmittedIsDeclared | packages/compiler/src/generate.ts:680-690 | a table constraint's key has its declaring column, and so has every column reference that can be emitted |
| TenantReferences.PlainReferenceRenders | packages/compiler/src/generate.ts:672-692 | a plain column reference can always be emitted |
| TenantReferences.BoundKeepsTenantIff | packages/compiler/src/tenant-bound-references.ts:115-138 | for a row of a tenant a bound key keeps every match in the tenant exactly if the declaring column is in the key, the tenant is paired, or the key is the row's own id and that is its tenant |
| TenantReferences.UndeclaredKeyIsAccepted | packages/compiler/src/tenant-bound-references.ts:120-138 | a manifest the check accepts with a key for which that fails, and which emission refuses |
| JsonString.ReadQuoted | packages/compiler/src/event-contracts.ts:34-36 | a quoted string before any text reads back as exactly the string and that text (section 7 of RFC 8259) |
| JsonString.QuoteSeparates | packages/compiler/src/event-contracts.ts:34-36 | quoted strings are told apart whatever follows them |
| CanonicalJson.SameText | packages/compiler/src/event-contracts.ts:30-39 | values equal up to key order have the same canonical text |
| CanonicalJson.TextSeparates | packages/compiler/src/event-contracts.ts:30-39 | a canonical text before anything that may follow it determines the value and the rest |
| CanonicalJson.CanonicalTextIsIdentity | packages/compiler/src/event-contracts.ts:30-39 | two values have the same canonical text exactly when they are equal up to object key order, at any depth |
| JsonReading.CanonicalReadsBack | packages/compiler/src/event-contracts.ts:30-39 | a JSON reader reads a canonical text, before any text that may follow, as the value up to key order and as that text left over (RFC 8259) |
| JsWhitespace.Trim | packages/auth/src/trusted-context.ts:100-113 | trimming keeps a trimmed text, takes the white space off both ends, and gives the empty text exactly for blank ones |
| JsWhitespace.TrimIsInside | packages/auth/src/trusted-context.ts:100-113 | what is left is a part of the text with nothing but white space around it |
| Decimals.ParsesPrinted | packages/auth/src/trusted-context.ts:211 | a printed whole number, of either sign and before any text that does not go on with a digit, parses back to itself |
| Delimited.SplitJoined | packages/auth/src/trusted-context.ts:100-113 | joining separator-free parts and splitting again gives the parts |
| Delimited.FreePartsAreDetermined | packages/auth/src/trusted-context.ts:134-147 | separator-free parts are the only list of their length with their joined text |
| TrustedContext.SplitJoinDelimited | packages/auth/src/trusted-context.ts:100-113 | splitting a joined list of comma-free entries gives the trimmed, non-blank entries |
| TrustedContext.NormalSplits | packages/auth/src/trusted-context.ts:100-113 | the normal form of a list is piece by piece: blank entries go, the others are trimmed |
| TrustedContext.StableIff | packages/auth/src/trusted-context.ts:100-113 | a joined list survives split and join exactly when no piece between commas is empty or padded |
| TrustedContext.VersionsNeverCoincide | packages/auth/src/trusted-context.ts:124-147 | a v2 payload is never a v3 payload, newlines or not |
| TrustedContext.PayloadSeparates | packages/auth/src/trusted-context.ts:134-147 | a bundle whose signed fields hold no newline is told apart by its payload from every other bundle |
| TrustedContext.PayloadDeterminesFieldsIff | packages/auth/src/trusted-context.ts:124-147 | the signed fields are recoverable from the payload exactly when none of them holds a newline |
| TrustedContext.NewlinesCollide | packages/auth/src/trusted-context.ts:124-147 | two bundles with one payload, a newline inside a field |
| TrustedContext.ApplyTrustedContextHeaders | packages/auth/src/trusted-context.ts:184-219 | each bundle header is exactly the value the identity gives it or is absent, timestamp and signature exactly with a secret and a tenant, and every other header is as it came in |
| TrustedContext.InboundIsIgnored | packages/auth/src/trusted-context.ts:189-191 | whatever bundle headers came in, the outgoing ones are the same |
| TrustedContext.VerifyBundle | packages/auth/src/trusted-context.ts:233-269 | the loop over accepted versions computes the specified verdict, newest version first |
| TrustedContext.SignedRoundTrip | packages/auth/src/trusted-context.ts:184-269 | a signed bundle verifies at another time exactly under the same secret, with a tenant, inside the asymmetric window and with lists that survive the header form; it then gives back the normalised identity as v3 |
| TrustedContext.CommaFreeRoundTrip | packages/auth/src/trusted-context.ts:184-269 | with comma-free roles and groups it verifies exactly when it names a tenant and the age lies in [-30000, 300000], giving back the trimmed identity |
| TrustedContext.SignatureBindsFields | packages/auth/src/trusted-context.ts:233-269 | whatever headers carry a signature over newline-free fields, what they prove is those fields in the signed version, and a v2 signature never yields a principal class |
| TrustedContext.OlderBundlesVerify | packages/auth/src/trusted-context.ts:233-269 | headers signed in version v2 verify exactly inside the window, as the identity they show without a principal class |
| TrustedContext.ByteReads | packages/auth/src/trusted-context.ts:153-161 | a byte printed in hex reads as that byte, before any text |
| TrustedContext.HexIgnoresCase | packages/auth/src/trusted-context.ts:153-161 | letter case does not matter to the bytes a signature stands for |
| TrustedContext.IdealSignaturesExist | packages/auth/src/trusted-context.ts:149-161 | the assumption made of signatures can be met |
| TextEncodings.KeyReadsBack | packages/auth/src/organization-tenant.ts:66-83 | a cache key reads back as the one pair it was made of, whatever the two texts hold |
| TextEncodings.KeysSeparate | packages/auth/src/organization-tenant.ts:81-83 | two pairs have the same cache key exactly when they are the same pair |
| TextEncodings.SelectOrganizationMembership | packages/auth/src/organization-tenant.ts:44-64 | the pushing loop and the filter compute the specified selection |
| TextEncodings.SelectionIsForced | packages/auth/src/organization-tenant.ts:44-64 | a membership is selected exactly when it alone carries an id, or several do and it alone among them is named by a scope |
| TextEncodings.MembershipTestsMean | packages/auth/src/organization-tenant.ts:48-62 | carrying an id is having one that is not empty; an alias is named by exactly its `organization:` scope, and the wildcard names none |
| TextEncodings.QuotedReadsBack | packages/compiler/src/generate.ts:125-137 | a SQL lexer reading quoted text before a rest gives back exactly the text and the rest if and only if the rest does not open with the quote |
| TextEncodings.QuotesSeparate | packages/compiler/src/generate.ts:125-137 | different texts are quoted differently |

## Left out

- RealmManifest.ValidateManifest: the members of the manifest and of its entries are data; values of other shapes where a record or a list is asked for (all refused as an invalid manifest), accessor properties and `structuredClone` are not modelled.
- JsonPointer.PointerParses: percent-decoding of URI fragments (section 6 of RFC 6901) is not modelled; the rewriting does none.
- SchemaEmbedding.DocumentReferencesResolve: covers request bodies, the only schemas that are rewritten; what surrounds parameter and response schemas in an operation object is given as data.
- RestRoutes.OverlapIsIntersection: a `*` before the end of a path is read as any remainder, as the overlap loop reads it.
- RestRoutes.AuditRest: covers the REST routes, the core routes being a list without empty segments; the name maps of GraphQL fields and MCP tools, the tool budget and the wording of a refusal (`normalizedRestRoute`) are one-branch members.
- CreateContracts.BlueprintControlsMean: `format` is taken as an annotation (section 7 of JSON Schema Validation 2020-12), so a bound variable is any text.
- CreateAgreement.ContractsAgree: assumes, as generation has it, that no entity field is named like a control or `values` and that required fields are declared.
- PluginMigrations.CollectRegistry: an entry carries the constraint it adds; which constraints `renderConstraintSql` renders is a parameter, its text not part of this model.
- TenantReferences.ForeignTenantIsUnexpressible: tables are known by qualified name; a target whose `tenant_id` may be NULL can hold a matching row without a tenant, which counts as no other tenant's.
- CanonicalJson.CanonicalTextIsIdentity: not-a-number and infinities print as null and are identified with it, as the source does; numbers are represented by the text JavaScript prints.
- JsonGraph.AssertJsonConfiguration: accessors are slots of a node; getters with side effects are not modelled.
- TrustedContext.SignedRoundTrip: headers are an exact map from name to text; clocks are whole numbers without an upper bound, where JavaScript prints very large ones with an exponent.
- TextEncodings.KeyReadsBack: characters stand for the units `length` counts; the argument is the same for UTF-16 units.
- TextEncodings.QuotedReadsBack: reads string literals as with `standard_conforming_strings` on, and does not model PostgreSQL's limits on identifiers.
- RowSecurity.TenantTableMeans: an UPDATE is judged by the policies for UPDATE and a DELETE by those for DELETE; the additional SELECT check PostgreSQL makes of either when the statement reads columns, as with a WHERE clause, only narrows it.
- StaticStrings.EvaluateString: expression trees and scope chains are given; collecting bindings from TypeScript and parsing the texts as GraphQL are not part of this model.
- Statements on documents are atomic steps; row locks and concurrent transactions of PostgreSQL, document deletion and version updates are no steps.
- Relation predicates of extension tables, statistics, indexes and column SQL of a table.
- Connectors, bearer and JWKS verification, the Next proxy, acceptance and report scripts: network clients and rendering.
- Loading of YAML and files, plugin import and bundling: their parsed results are inputs.
- Manifest loading, operation validation and derived execution: long lists of single checks.
- Labels, descriptions, OpenAPI prose and byte budgets of MCP projections: presentation.
- `renderOnDeleteSql` and `ensureCompositeReferenceKeys`: they add clauses and indexes but no reference.
- The job queue, edit leases and capability grants.
