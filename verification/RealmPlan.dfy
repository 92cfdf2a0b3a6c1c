/** Planning as a function of the server state: which objects differ from the
    manifest, what each operation would send, and what the writes of a run do. */
module RealmPlan {
  import opened Options
  import opened JsText
  import opened RealmManifest
  import opened KeycloakServer

  /** Strict equality, except that arrays compare as sorted copies; two parsed
      JSON objects are never the same object. */
  predicate Equal(a: Value, b: Value) {
    if a.Arr? && b.Arr? then Sort(a.items) == Sort(b.items) else a == b && !a.Opaque?
  }

  /** The documented meaning: equal values, array order aside. */
  predicate SameValue(a: Value, b: Value) {
    a == b || (a.Arr? && b.Arr? && multiset(a.items) == multiset(b.items))
  }

  lemma EqualIsSameValue(a: Value, b: Value)
    requires !a.Opaque?
    ensures Equal(a, b) <==> SameValue(a, b)
  {
    if a.Arr? && b.Arr? { SortEqualIffSameItems(a.items, b.items); }
  }

  datatype Action = CreateObject | UpdateObject | Unchanged
  datatype Subject = RealmSubject | ObjectSubject(kind: Kind)
  datatype Change = Change(subject: Subject, name: Text, action: Action, fields: set<Field>)
  datatype Operation = Operation(change: Change, request: Option<WriteRequest>)

  function Differing(desired: Rep, current: Option<Rep>): set<Field> {
    set f | f in desired && (current.None? || f !in current.value || !Equal(desired[f], current.value[f]))
  }

  function Planned(subject: Subject, name: Text, desired: Rep, current: Option<Rep>, createPath: Path,
      updatePath: Path): Operation {
    var fields := Differing(desired, current);
    var action := if current.None? then CreateObject else if fields != {} then UpdateObject else Unchanged;
    Operation(Change(subject, name, action, fields),
      match action
      case CreateObject => Some(Request(POST, createPath, desired))
      case UpdateObject => Some(Request(PUT, updatePath, desired))
      case Unchanged => None)
  }

  // ---------- adoption checks ----------

  predicate ValidServerId(v: Option<Value>) {
    && v.Some? && v.value.Str? && 1 <= |v.value.text| <= 128
    && forall i :: 0 <= i < |v.value.text| ==>
         var c := v.value.text[i]; Letter(c) || Digit(c) || c == 95 || c == 45
  }

  predicate Truthy(v: Option<Value>) {
    v.Some? && v.value != Null && v.value != Bool(false) && v.value != Num(0) && v.value != Str([])
  }

  function Coalesce(desired: Rep, current: Option<Rep>, f: Field): Option<Value> {
    if f in desired && desired[f] != Null then Some(desired[f])
    else if current.Some? then Get(current.value, f) else None
  }

  predicate BothEnabled(desired: Rep, current: Option<Rep>) {
    && Coalesce(desired, current, PublicClient) == Some(Bool(true))
    && Coalesce(desired, current, ServiceAccountsEnabled) == Some(Bool(true))
  }

  predicate ProtocolChanges(desired: Rep, current: Option<Rep>) {
    && current.Some? && Truthy(Get(current.value, Protocol)) && Truthy(Get(desired, Protocol))
    && Get(current.value, Protocol) != Get(desired, Protocol)
  }

  /** Whether an existing object (or its absence) may be taken under management. */
  predicate Adoptable(it: Item, current: Option<Rep>) {
    && (current.Some? ==> ValidServerId(Get(current.value, Id)))
    && (it.kind == RealmRole && current.Some? ==> Get(current.value, ClientRole) == Some(Bool(false)))
    && (it.kind == Client ==>
          && (current.Some? ==> !Truthy(Get(current.value, RegistrationAccessToken)))
          && !BothEnabled(it.desired, current)
          && !ProtocolChanges(it.desired, current))
  }

  function Head(matches: seq<Rep>): Option<Rep> { if matches == [] then None else Some(matches[0]) }

  function MemberKey(it: Item, current: Option<Rep>): Key {
    if it.kind == RealmRole || current.None? || Id !in current.value then ByName(it.name) else ById(current.value[Id])
  }

  function PlannedItem(realm: Text, it: Item, current: Option<Rep>): Operation {
    Planned(ObjectSubject(it.kind), it.name, it.desired, current,
      Collection(realm, it.kind), Member(realm, it.kind, MemberKey(it, current)))
  }

  /** The plan for one item, or nothing where planning must stop. */
  function PlanItem(objects: seq<Entry>, realm: Text, it: Item): Option<Operation> {
    var matches := Matches(objects, it.kind, it.name);
    if (it.kind != RealmRole && |matches| > 1) || !Adoptable(it, Head(matches)) then None
    else Some(PlannedItem(realm, it, Head(matches)))
  }

  function PlanSettings(rep: Rep, realm: Text, settings: Rep): Operation {
    Planned(RealmSubject, realm, settings, Some(rep), Root(realm), Root(realm))
  }

  predicate RealmOk(rep: Rep, realm: Text) {
    Get(rep, RealmName) == Some(Str(realm)) && ValidServerId(Get(rep, Id))
  }

  predicate ItemPlans(objects: seq<Entry>, realm: Text, items: seq<Item>, ops: seq<Operation>) {
    |ops| == |items| && forall i :: 0 <= i < |items| ==> PlanItem(objects, realm, items[i]) == Some(ops[i])
  }

  /** Every managed object can be planned. */
  predicate Plannable(objects: seq<Entry>, realm: Text, items: seq<Item>) {
    forall i :: 0 <= i < |items| ==> PlanItem(objects, realm, items[i]).Some?
  }

  /** `ops` is the plan for a realm: its settings first, then every item in order. */
  predicate IsPlan(r: Realm, realm: Text, settings: Rep, items: seq<Item>, ops: seq<Operation>) {
    |ops| == |items| + 1 && ops[0] == PlanSettings(r.rep, realm, settings)
      && ItemPlans(r.objects, realm, items, ops[1..])
  }

  // ---------- writes ----------

  function Writes(ops: seq<Operation>): seq<Request> {
    if ops == [] then []
    else
      var last := ops[|ops| - 1];
      Writes(ops[..|ops| - 1]) + (if last.request.Some? then [last.request.value] else [])
  }

  datatype Write = Write(request: Request, choice: Choice)

  function ServeAll(s: State, ws: seq<Write>): State {
    if ws == [] then s
    else var w := ws[|ws| - 1]; Serve(ServeAll(s, ws[..|ws| - 1]), w.request, w.choice).state
  }

  /** Every write in turn is accepted by the server. */
  predicate Succeeds(s: State, ws: seq<Write>) {
    ws == [] ||
    (Succeeds(s, ws[..|ws| - 1]) &&
     var w := ws[|ws| - 1];
     Serve(ServeAll(s, ws[..|ws| - 1]), w.request, w.choice).response.status == ExpectedStatus(w.request.verb))
  }

  function Requests(ws: seq<Write>): seq<Request> {
    seq(|ws|, i requires 0 <= i < |ws| => ws[i].request)
  }

  /** Server-side creation as the reconciler expects it: well-formed ids, a realm role that
      says it is no client role, and a client without registration token or flag switched on. */
  ghost predicate Proper(c: Choice) {
    && ValidServerId(Get(c.scope, Id)) && ValidServerId(Get(c.role, Id)) && ValidServerId(Get(c.client, Id))
    && Get(c.role, ClientRole) == Some(Bool(false))
    && !Truthy(Get(c.client, RegistrationAccessToken))
    && Get(c.client, PublicClient) != Some(Bool(true)) && Get(c.client, ServiceAccountsEnabled) != Some(Bool(true))
  }

  ghost predicate AllProper(ws: seq<Write>) {
    forall i :: 0 <= i < |ws| ==> Proper(ws[i].choice)
  }

  /** Server-side uniqueness: ids per kind, and names of realm roles. */
  predicate WellFormed(objects: seq<Entry>) {
    forall i, j :: 0 <= i < j < |objects| && objects[i].kind == objects[j].kind ==>
      Get(objects[i].rep, Id) != Get(objects[j].rep, Id) &&
      (objects[i].kind == RealmRole ==> Get(objects[i].rep, Name) != Get(objects[j].rep, Name))
  }
}
