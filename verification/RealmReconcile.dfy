/** The reconciler itself: reads every managed object, plans, then writes one
    operation at a time, re-reading the realm before each write. */
module RealmReconcile {
  import opened Options
  import opened JsText
  import opened RealmManifest
  import opened KeycloakServer
  import opened RealmPlan
  import opened RealmConvergence
  import opened RealmProgress

  datatype Code = RestTransportFailed | RestRequestFailed | RealmMismatch | RealmMissingBootstrapRequired
    | InvalidServerResponse | AmbiguousManagedObject | ObjectIdentityMismatch | DynamicClientCollision
    | InvalidClientConfiguration | ProtocolChangeUnsupported | BadManifest(verdict: Verdict)

  datatype Result<+T> = Success(value: T) | Failure(code: Code) {
    predicate IsFailure() { Failure? }
    function PropagateFailure<U>(): Result<U> requires Failure? { Failure(code) }
    function Extract(): T requires Success? { value }
  }

  predicate RestFailure(code: Code) { code == RestTransportFailed || code == RestRequestFailed }

  /** A failure that delivered calls rule out. */
  ghost predicate Excused(code: Code, env: Environment, from: nat) { RestFailure(code) && !Delivers(env, from) }

  function Changes(ops: seq<Operation>): seq<Change> {
    seq(|ops|, i requires 0 <= i < |ops| => ops[i].change)
  }

  // ---------- the call log ----------

  predicate ReadsFrom(log: seq<Event>, k: nat) {
    forall i :: k <= i < |log| ==> !IsWrite(log[i].request)
  }

  function WritesFrom(log: seq<Event>, k: nat): seq<Request> {
    if |log| <= k then []
    else
      var last := log[|log| - 1].request;
      WritesFrom(log[..|log| - 1], k) + (if IsWrite(last) then [last] else [])
  }

  function AckedFrom(log: seq<Event>, k: nat): nat {
    if |log| <= k then 0
    else AckedFrom(log[..|log| - 1], k) + (if Acknowledged(log[|log| - 1]) then 1 else 0)
  }

  /** A read of the realm root that answered with this name and this id. */
  predicate Confirms(e: Event, realm: Text, id: Value) {
    && e.request == GetRequest(Root(realm))
    && e.response.Some? && e.response.value.status == 200 && e.response.value.body.One?
    && Get(e.response.value.body.rep, RealmName) == Some(Str(realm))
    && Get(e.response.value.body.rep, Id) == Some(id)
  }

  /** Every write from `k` on directly follows a confirming read. */
  predicate GuardedFrom(log: seq<Event>, k: nat, realm: Text, id: Value) {
    forall i :: k <= i < |log| && IsWrite(log[i].request) ==> i > k && Confirms(log[i - 1], realm, id)
  }

  predicate Missing(e: Event) {
    e.response.Some? && e.response.value.status == 404
  }

  function IdIn(e: Event): Option<Value> {
    if e.response.Some? && e.response.value.status == 200
      && e.response.value.body.One? then Get(e.response.value.body.rep, Id) else None
  }

  /** The realm id a run plans against: in its first read, or in the read after a bootstrap. */
  function PlannedId(log: seq<Event>, k: nat): Option<Value> {
    if k < |log| && IdIn(log[k]).Some? then IdIn(log[k])
    else if k + 2 < |log| then IdIn(log[k + 2]) else None
  }

  predicate BootstrapAt(log: seq<Event>, k: nat, i: int, realm: Text) {
    0 <= k < |log| && i == k + 1 < |log| && log[i].request == BootstrapRequest(realm) && Missing(log[k])
  }

  /** A whole run from `k` on: apart from bootstrapping a realm just found missing, every
      write directly follows a read that returned the planned realm id. */
  predicate GuardedRun(log: seq<Event>, k: nat, realm: Text) {
    forall i :: k <= i < |log| && IsWrite(log[i].request) ==>
      || BootstrapAt(log, k, i, realm)
      || (i > k && PlannedId(log, k).Some? && Confirms(log[i - 1], realm, PlannedId(log, k).value))
  }

  predicate OnlyBootstraps(log: seq<Event>, k: nat, realm: Text) {
    forall i :: k <= i < |log| && IsWrite(log[i].request) ==> BootstrapAt(log, k, i, realm)
  }

  lemma {:induction false} ReadsAddNothing(before: seq<Event>, after: seq<Event>, k: nat)
    requires k <= |before| && before <= after && ReadsFrom(after, |before|)
    ensures WritesFrom(after, k) == WritesFrom(before, k) && AckedFrom(after, k) == AckedFrom(before, k)
  {
    if |after| > |before| {
      ReadsAddNothing(before, after[..|after| - 1], k);
    } else {
      assert before == after;
    }
  }

  lemma {:induction false} LogSplits(log: seq<Event>, j: nat, k: nat)
    requires j <= k <= |log|
    ensures AckedFrom(log, j) == AckedFrom(log[..k], j) + AckedFrom(log, k)
    ensures WritesFrom(log, j) == WritesFrom(log[..k], j) + WritesFrom(log, k)
  {
    if |log| == k {
      assert log[..k] == log;
    } else {
      LogSplits(log[..|log| - 1], j, k);
      assert log[..|log| - 1][..k] == log[..k];
    }
  }

  lemma {:induction false} WritesPrefix(ops: seq<Operation>, k: nat)
    requires k <= |ops|
    ensures Writes(ops[..k]) <= Writes(ops)
  {
    if k < |ops| {
      WritesPrefix(ops[..|ops| - 1], k);
      assert ops[..|ops| - 1][..k] == ops[..k];
    } else {
      assert ops[..k] == ops;
    }
  }

  lemma GuardExtends(before: seq<Event>, after: seq<Event>, k: nat, realm: Text, id: Value, wrote: bool)
    requires k <= |before| && before <= after && |after| == |before| + (if wrote then 2 else 1)
    requires GuardedFrom(before, k, realm, id) && !IsWrite(after[|before|].request)
    requires wrote ==> Confirms(after[|before|], realm, id)
    ensures GuardedFrom(after, k, realm, id)
  {
    hide Confirms;
    forall i | k <= i < |after| && IsWrite(after[i].request) ensures i > k && Confirms(after[i - 1], realm, id) {
      if i < |before| {
        assert after[i] == before[i];
        assert after[i - 1] == before[i - 1];
      }
    }
  }

  lemma WritesNext(ops: seq<Operation>, k: nat)
    requires k < |ops| && ops[k].request.Some?
    ensures Writes(ops[..k + 1]) == Writes(ops[..k]) + [ops[k].request.value] && Writes(ops[..k + 1]) <= Writes(ops)
  {
    assert ops[..k + 1][..k] == ops[..k];
    WritesPrefix(ops, k + 1);
  }

  /** A read, and perhaps a write, at the end of the log. */
  lemma LogStep(before: seq<Event>, after: seq<Event>, k: nat, wrote: bool)
    requires k <= |before| && before <= after && |after| == |before| + (if wrote then 2 else 1)
    requires !IsWrite(after[|before|].request) && (wrote ==> IsWrite(after[|before| + 1].request))
    ensures WritesFrom(after, k) == WritesFrom(before, k) + (if wrote then [after[|before| + 1].request] else [])
    ensures AckedFrom(after, k) == AckedFrom(before, k) + (if wrote && Acknowledged(after[|before| + 1]) then 1 else 0)
  {
    var mid := after[..|before| + 1];
    assert mid[..|before|] == before;
    if wrote { assert after[..|after| - 1] == mid; } else { assert after == mid; }
  }

  /** A read and then a write. */
  lemma LogTwo(before: seq<Event>, after: seq<Event>)
    requires before <= after && |after| == |before| + 2
    requires !IsWrite(after[|before|].request) && IsWrite(after[|before| + 1].request)
    ensures WritesFrom(after, |before|) == [after[|before| + 1].request]
    ensures AckedFrom(after, |before|) == (if Acknowledged(after[|before| + 1]) then 1 else 0)
  {
    LogStep(before, after, |before|, true);
  }

  // ---------- what the reads find ----------

  function WithField(reps: seq<Rep>, f: Field, name: Text): seq<Rep> {
    if reps == [] then []
    else
      var last := reps[|reps| - 1];
      WithField(reps[..|reps| - 1], f, name) + (if Get(last, f) == Some(Str(name)) then [last] else [])
  }

  lemma {:induction false} ListedMatches(objects: seq<Entry>, kind: Kind, name: Text)
    ensures WithField(OfKind(objects, kind), IdentityField(kind), name) == Matches(objects, kind, name)
  {
    if objects != [] {
      var front := objects[..|objects| - 1];
      ListedMatches(front, kind, name);
      var reps := OfKind(objects, kind);
      if objects[|objects| - 1].kind == kind {
        assert reps[..|reps| - 1] == OfKind(front, kind) && reps[|reps| - 1] == objects[|objects| - 1].rep;
      } else {
        assert reps == OfKind(front, kind);
      }
    }
  }

  lemma {:induction false} FindHits(objects: seq<Entry>, kind: Kind, key: Key) returns (p: nat)
    ensures Find(objects, kind, key).Some? ==>
      p < |objects| && Hit(objects[p], kind, key) && Find(objects, kind, key).value == objects[p].rep
    ensures Find(objects, kind, key).None? ==> forall i :: 0 <= i < |objects| ==> !Hit(objects[i], kind, key)
  {
    p := 0;
    if objects != [] && !Hit(objects[0], kind, key) {
      var q := FindHits(objects[1..], kind, key);
      p := q + 1;
      forall i | 0 <= i < |objects| && Find(objects, kind, key).None? ensures !Hit(objects[i], kind, key) {
        if i > 0 { assert objects[i] == objects[1..][i - 1]; }
      }
    }
  }

  /** Addressing the planned object finds that object. */
  lemma FindIsMatch(objects: seq<Entry>, it: Item, key: Key)
    requires WellFormed(objects)
    requires it.kind == RealmRole ==> key == ByName(it.name)
    requires it.kind != RealmRole ==>
      |Matches(objects, it.kind, it.name)| == 1 && Id in Matches(objects, it.kind, it.name)[0] &&
      key == ById(Matches(objects, it.kind, it.name)[0][Id])
    ensures Find(objects, it.kind, key) == Head(Matches(objects, it.kind, it.name))
    ensures Matches(objects, it.kind, it.name) != [] ==>
      Get(Matches(objects, it.kind, it.name)[0], IdentityField(it.kind)) == Some(Str(it.name))
  {
    var p := FindHits(objects, it.kind, key);
    if Matches(objects, it.kind, it.name) != [] {
      var q := MatchHasIndex(objects, it.kind, it.name);
      assert Hit(objects[q], it.kind, key);
    } else if Find(objects, it.kind, key).Some? {
      NamedIsMatched(objects, it.kind, it.name, p);
    }
  }

  /** An environment that only fails calls, and a server that keeps the objects of a new realm
      well-formed. */
  ghost predicate Steady(env: Environment) {
    Quiet(env) && forall n: nat :: WellFormed(env.choice(n).realm.objects)
  }

  /** The realm answers with its own name and this valid id. */
  predicate Identified(s: State, realm: Text, id: Value) {
    realm in s && RealmOk(s[realm].rep, realm) && Get(s[realm].rep, Id) == Some(id)
  }

  function Objects(s: State, realm: Text, missing: bool): seq<Entry> {
    if missing || realm !in s then [] else s[realm].objects
  }

  ghost predicate Seen(s: State, realm: Text, missing: bool) {
    missing || (realm in s && WellFormed(s[realm].objects))
  }

  lemma PlannableParts(objects: seq<Entry>, realm: Text, a: seq<Item>, b: seq<Item>, c: seq<Item>)
    ensures Plannable(objects, realm, a + b + c) ==>
      Plannable(objects, realm, a) && Plannable(objects, realm, b) && Plannable(objects, realm, c)
  {
    var all := a + b + c;
    if Plannable(objects, realm, all) {
      forall i | 0 <= i < |a| ensures PlanItem(objects, realm, a[i]).Some? { assert a[i] == all[i]; }
      forall i | 0 <= i < |b| ensures PlanItem(objects, realm, b[i]).Some? { assert b[i] == all[|a| + i]; }
      forall i | 0 <= i < |c| ensures PlanItem(objects, realm, c[i]).Some? { assert c[i] == all[|a| + |b| + i]; }
    }
  }

  lemma ItemPlansJoin(objects: seq<Entry>, realm: Text, a: seq<Item>, b: seq<Item>, c: seq<Item>,
      x: seq<Operation>, y: seq<Operation>, z: seq<Operation>)
    requires ItemPlans(objects, realm, a, x) && ItemPlans(objects, realm, b, y) && ItemPlans(objects, realm, c, z)
    ensures ItemPlans(objects, realm, a + b + c, x + y + z)
  {
  }

  /** A client with a proper id that no dynamic registration owns. */
  predicate Takeable(client: Rep) { ValidServerId(Get(client, Id)) && !Truthy(Get(client, RegistrationAccessToken)) }

  class Reconciler {
    const server: Server
    const realm: Text
    const manifest: Manifest
    const apply: bool
    var changes: seq<Change>
    var applied: nat
    var operations: seq<Operation>

    constructor (server: Server, realm: Text, manifest: Manifest, apply: bool)
      ensures this.server == server && this.realm == realm && this.manifest == manifest && this.apply == apply
      ensures changes == [] && applied == 0 && operations == []
    {
      this.server, this.realm, this.manifest, this.apply := server, realm, manifest, apply;
      changes, applied, operations := [], 0, [];
    }

    /** One REST call with the status each verb must answer. */
    method Call(q: Request, allowMissing: bool) returns (r: Result<Response>)
      modifies server
      ensures |server.log| == |old(server.log)| + 1 && old(server.log) <= server.log
      ensures
        var e := server.log[|old(server.log)|];
        && e.request == q
        && (r.Success? ==> e.response == Some(r.value))
        && (r.Success? ==> r.value.status == ExpectedStatus(q.verb) || (allowMissing && r.value.status == 404))
        && (r.Failure? ==> RestFailure(r.code) && !Acknowledged(e) && (allowMissing ==> !Missing(e)))
      ensures Quiet(server.env) && r.Success? ==>
        var served := Serve(old(server.state), q, server.env.choice(old(server.tick)));
        server.state == served.state && r.value == served.response
      ensures Quiet(server.env) && r.Failure? ==>
        var served := Serve(old(server.state), q, server.env.choice(old(server.tick)));
        && (server.state == old(server.state)
          || (server.state == served.state && served.response.status == ExpectedStatus(q.verb)))
        && (Delivers(server.env, old(server.tick)) ==>
              served.response.status != ExpectedStatus(q.verb) && !(allowMissing && served.response.status == 404))
      ensures server.tick == old(server.tick) + 1
    {
      RefusedLeavesState(server.state, q, server.env.choice(server.tick));
      var response := server.Request(q);
      if response.None? { return Failure(RestTransportFailed); }
      var status := response.value.status;
      if status != ExpectedStatus(q.verb) && !(allowMissing && status == 404) { return Failure(RestRequestFailed); }
      return Success(response.value);
    }

    /** A read; nothing changes unless somebody else changes it. */
    method Fetch(path: Path, allowMissing: bool) returns (r: Result<Response>)
      modifies server
      ensures |server.log| == |old(server.log)| + 1 && old(server.log) <= server.log
      ensures
        var e := server.log[|old(server.log)|];
        && e.request == GetRequest(path)
        && (r.Success? ==>
          e.response == Some(r.value) && (r.value.status == 200 || (allowMissing && r.value.status == 404)))
        && (r.Failure? ==> RestFailure(r.code) && (allowMissing ==> !Missing(e)))
      ensures Quiet(server.env) ==>
        server.state == old(server.state) && (r.Success? ==> r.value == Read(server.state, path))
      ensures Quiet(server.env) && r.Failure? && Delivers(server.env, old(server.tick)) ==>
        Read(server.state, path).status != 200 && !(allowMissing && Read(server.state, path).status == 404)
      ensures server.tick == old(server.tick) + 1
    {
      r := Call(GetRequest(path), allowMissing);
    }

    method FetchObject(path: Path) returns (r: Result<Rep>)
      modifies server
      ensures old(server.log) <= server.log && ReadsFrom(server.log, |old(server.log)|)
      ensures Quiet(server.env) ==> server.state == old(server.state)
      ensures Quiet(server.env) && r.Success? ==> Read(server.state, path) == Response(200, One(r.value))
      ensures Quiet(server.env) && r.Failure? && Read(server.state, path).body.One? ==>
        Excused(r.code, server.env, old(server.tick))
      ensures old(server.tick) <= server.tick
    {
      var response :- Fetch(path, false);
      if !response.body.One? { return Failure(InvalidServerResponse); }
      return Success(response.body.rep);
    }

    method FetchList(path: Path) returns (r: Result<seq<Rep>>)
      modifies server
      ensures old(server.log) <= server.log && ReadsFrom(server.log, |old(server.log)|)
      ensures Quiet(server.env) ==> server.state == old(server.state)
      ensures Quiet(server.env) && r.Success? ==> Read(server.state, path) == Response(200, Many(r.value))
      ensures Quiet(server.env) && r.Failure? && Read(server.state, path).body.Many? ==>
        Excused(r.code, server.env, old(server.tick))
      ensures old(server.tick) <= server.tick
    {
      var response :- Fetch(path, false);
      if !response.body.Many? { return Failure(InvalidServerResponse); }
      return Success(response.body.reps);
    }

    /** Plans one client scope from the listed ones, re-reading the match. */
    method PlanScope(it: Item, scopes: seq<Rep>, ghost missing: bool) returns (r: Result<()>)
      requires it.kind == ClientScope && (missing ==> scopes == [])
      modifies server, this`operations
      ensures old(server.log) <= server.log && ReadsFrom(server.log, |old(server.log)|)
      ensures |operations| == |old(operations)| + (if r.Success? then 1 else 0) && old(operations) <= operations
      ensures Quiet(server.env) ==> server.state == old(server.state)
      ensures old(server.tick) <= server.tick
      ensures
        && Quiet(server.env) && Seen(server.state, realm, missing)
        && scopes == OfKind(Objects(server.state, realm, missing), ClientScope) ==>
        && (r.Success? ==>
          PlanItem(Objects(server.state, realm, missing), realm, it) == Some(operations[|old(operations)|]))
        && (r.Failure? && PlanItem(Objects(server.state, realm, missing), realm, it).Some? ==>
          Excused(r.code, server.env, old(server.tick)))
    {
      ghost var objects := Objects(server.state, realm, missing);
      ListedMatches(objects, ClientScope, it.name);
      var matches := WithField(scopes, Name, it.name);
      if |matches| > 1 { return Failure(AmbiguousManagedObject); }
      var current: Option<Rep> := None;
      if |matches| == 1 {
        if !ValidServerId(Get(matches[0], Id)) { return Failure(InvalidServerResponse); }
        var id := matches[0][Id];
        if Quiet(server.env) && Seen(server.state, realm, missing) && scopes == OfKind(objects, ClientScope) {
          FindIsMatch(objects, it, ById(id));
        }
        var rep :- FetchObject(Member(realm, ClientScope, ById(id)));
        if Get(rep, Id) != Some(id) || Get(rep, Name) != Some(Str(it.name)) { return Failure(ObjectIdentityMismatch); }
        current := Some(rep);
      }
      operations := operations + [PlannedItem(realm, it, current)];
      return Success(());
    }

    /** Plans one realm role, addressed by name. */
    method PlanRole(it: Item, missing: bool) returns (r: Result<()>)
      requires it.kind == RealmRole
      modifies server, this`operations
      ensures old(server.log) <= server.log && ReadsFrom(server.log, |old(server.log)|)
      ensures |operations| == |old(operations)| + (if r.Success? then 1 else 0) && old(operations) <= operations
      ensures Quiet(server.env) ==> server.state == old(server.state)
      ensures old(server.tick) <= server.tick
      ensures Quiet(server.env) && Seen(server.state, realm, missing) ==>
        && (r.Success? ==>
          PlanItem(Objects(server.state, realm, missing), realm, it) == Some(operations[|old(operations)|]))
        && (r.Failure? && PlanItem(Objects(server.state, realm, missing), realm, it).Some? ==>
          Excused(r.code, server.env, old(server.tick)))
    {
      var current: Option<Rep> := None;
      if !missing {
        if Quiet(server.env) && Seen(server.state, realm, missing) {
          FindIsMatch(Objects(server.state, realm, missing), it, ByName(it.name));
        }
        var response :- Fetch(Member(realm, RealmRole, ByName(it.name)), true);
        if response.status != 404 {
          if !response.body.One? { return Failure(InvalidServerResponse); }
          var rep := response.body.rep;
          if !ValidServerId(Get(rep, Id)) { return Failure(InvalidServerResponse); }
          if Get(rep, Name) != Some(Str(it.name))
            || Get(rep, ClientRole) != Some(Bool(false)) { return Failure(ObjectIdentityMismatch); }
          current := Some(rep);
        }
      }
      operations := operations + [PlannedItem(realm, it, current)];
      return Success(());
    }

    /** Reads the one client of an id, or finds there is none. */
    method FetchClient(it: Item) returns (r: Result<Option<Rep>>)
      requires it.kind == Client
      modifies server
      ensures old(server.log) <= server.log && ReadsFrom(server.log, |old(server.log)|)
      ensures Quiet(server.env) ==> server.state == old(server.state)
      ensures old(server.tick) <= server.tick
      ensures Quiet(server.env) && Seen(server.state, realm, false) ==>
        var matches := Matches(Objects(server.state, realm, false), Client, it.name);
        && (r.Success? ==>
          |matches| <= 1 && r.value == Head(matches)
            && (r.value.Some? ==> Takeable(r.value.value)))
        && (r.Failure? && |matches| <= 1 && (matches != [] ==> Takeable(matches[0])) ==>
              Excused(r.code, server.env, old(server.tick)))
    {
      ghost var objects := Objects(server.state, realm, false);
      var matches :- FetchList(ClientQuery(realm, it.name));
      if |matches| > 1 { return Failure(AmbiguousManagedObject); }
      if |matches| == 0 { return Success(None); }
      if !ValidServerId(Get(matches[0], Id)) { return Failure(InvalidServerResponse); }
      var id := matches[0][Id];
      if Quiet(server.env) && Seen(server.state, realm, false) { FindIsMatch(objects, it, ById(id)); }
      if Get(matches[0], ClientId) != Some(Str(it.name)) { return Failure(ObjectIdentityMismatch); }
      var rep :- FetchObject(Member(realm, Client, ById(id)));
      if Get(rep, Id) != Some(id)
        || Get(rep, ClientId) != Some(Str(it.name)) { return Failure(ObjectIdentityMismatch); }
      if Truthy(Get(rep, RegistrationAccessToken)) { return Failure(DynamicClientCollision); }
      return Success(Some(rep));
    }

    /** Plans one client. */
    method PlanClient(it: Item, missing: bool) returns (r: Result<()>)
      requires it.kind == Client
      modifies server, this`operations
      ensures old(server.log) <= server.log && ReadsFrom(server.log, |old(server.log)|)
      ensures |operations| == |old(operations)| + (if r.Success? then 1 else 0) && old(operations) <= operations
      ensures Quiet(server.env) ==> server.state == old(server.state)
      ensures old(server.tick) <= server.tick
      ensures Quiet(server.env) && Seen(server.state, realm, missing) ==>
        && (r.Success? ==>
          PlanItem(Objects(server.state, realm, missing), realm, it) == Some(operations[|old(operations)|]))
        && (r.Failure? && PlanItem(Objects(server.state, realm, missing), realm, it).Some? ==>
          Excused(r.code, server.env, old(server.tick)))
    {
      var current: Option<Rep> := None;
      if !missing { current :- FetchClient(it); }
      if BothEnabled(it.desired, current) { return Failure(InvalidClientConfiguration); }
      if ProtocolChanges(it.desired, current) { return Failure(ProtocolChangeUnsupported); }
      operations := operations + [PlannedItem(realm, it, current)];
      return Success(());
    }

    method PlanScopes(missing: bool) returns (r: Result<()>)
      modifies server, this`operations
      ensures old(server.log) <= server.log && ReadsFrom(server.log, |old(server.log)|)
      ensures old(operations) <= operations
      ensures Quiet(server.env) ==> server.state == old(server.state)
      ensures old(server.tick) <= server.tick
      ensures Quiet(server.env) && Seen(server.state, realm, missing) ==>
        var objects, items := Objects(server.state, realm, missing), ItemsOf(ClientScope, manifest.clientScopes);
        && (r.Success? ==> ItemPlans(objects, realm, items, operations[|old(operations)|..]))
        && (r.Failure? && Plannable(objects, realm, items) ==> Excused(r.code, server.env, old(server.tick)))
    {
      var items := ItemsOf(ClientScope, manifest.clientScopes);
      var scopes: seq<Rep> := [];
      if !missing && items != [] { scopes :- FetchList(Collection(realm, ClientScope)); }
      for k := 0 to |items|
        invariant old(server.log) <= server.log && ReadsFrom(server.log, |old(server.log)|)
        invariant old(operations) <= operations && |operations| == |old(operations)| + k
        invariant Quiet(server.env) ==> server.state == old(server.state)
        invariant old(server.tick) <= server.tick
        invariant missing ==> scopes == []
        invariant Quiet(server.env) && Seen(server.state, realm, missing) && items != [] ==>
          scopes == OfKind(Objects(server.state, realm, missing), ClientScope)
        invariant Quiet(server.env) && Seen(server.state, realm, missing) ==>
          forall i :: 0 <= i < k ==>
            PlanItem(Objects(server.state, realm, missing), realm, items[i]) == Some(operations[|old(operations)| + i])
      {
        var _ :- PlanScope(items[k], scopes, missing);
      }
      return Success(());
    }

    method PlanRoles(missing: bool) returns (r: Result<()>)
      modifies server, this`operations
      ensures old(server.log) <= server.log && ReadsFrom(server.log, |old(server.log)|)
      ensures old(operations) <= operations
      ensures Quiet(server.env) ==> server.state == old(server.state)
      ensures old(server.tick) <= server.tick
      ensures Quiet(server.env) && Seen(server.state, realm, missing) ==>
        var objects, items := Objects(server.state, realm, missing), ItemsOf(RealmRole, manifest.realmRoles);
        && (r.Success? ==> ItemPlans(objects, realm, items, operations[|old(operations)|..]))
        && (r.Failure? && Plannable(objects, realm, items) ==> Excused(r.code, server.env, old(server.tick)))
    {
      var items := ItemsOf(RealmRole, manifest.realmRoles);
      for k := 0 to |items|
        invariant old(server.log) <= server.log && ReadsFrom(server.log, |old(server.log)|)
        invariant old(operations) <= operations && |operations| == |old(operations)| + k
        invariant Quiet(server.env) ==> server.state == old(server.state)
        invariant old(server.tick) <= server.tick
        invariant Quiet(server.env) && Seen(server.state, realm, missing) ==>
          forall i :: 0 <= i < k ==>
            PlanItem(Objects(server.state, realm, missing), realm, items[i]) == Some(operations[|old(operations)| + i])
      {
        var _ :- PlanRole(items[k], missing);
      }
      return Success(());
    }

    method PlanClients(missing: bool) returns (r: Result<()>)
      modifies server, this`operations
      ensures old(server.log) <= server.log && ReadsFrom(server.log, |old(server.log)|)
      ensures old(operations) <= operations
      ensures Quiet(server.env) ==> server.state == old(server.state)
      ensures old(server.tick) <= server.tick
      ensures Quiet(server.env) && Seen(server.state, realm, missing) ==>
        var objects, items := Objects(server.state, realm, missing), ItemsOf(Client, manifest.clients);
        && (r.Success? ==> ItemPlans(objects, realm, items, operations[|old(operations)|..]))
        && (r.Failure? && Plannable(objects, realm, items) ==> Excused(r.code, server.env, old(server.tick)))
    {
      var items := ItemsOf(Client, manifest.clients);
      for k := 0 to |items|
        invariant old(server.log) <= server.log && ReadsFrom(server.log, |old(server.log)|)
        invariant old(operations) <= operations && |operations| == |old(operations)| + k
        invariant Quiet(server.env) ==> server.state == old(server.state)
        invariant old(server.tick) <= server.tick
        invariant Quiet(server.env) && Seen(server.state, realm, missing) ==>
          forall i :: 0 <= i < k ==>
            PlanItem(Objects(server.state, realm, missing), realm, items[i]) == Some(operations[|old(operations)| + i])
      {
        var _ :- PlanClient(items[k], missing);
      }
      return Success(());
    }

    /** Every managed object, in order; nothing is written. */
    method PlanObjects(missing: bool) returns (r: Result<()>)
      modifies server, this`operations
      ensures old(server.log) <= server.log && ReadsFrom(server.log, |old(server.log)|)
      ensures old(operations) <= operations
      ensures Quiet(server.env) ==> server.state == old(server.state)
      ensures old(server.tick) <= server.tick
      ensures Quiet(server.env) && Seen(server.state, realm, missing) ==>
        var objects := Objects(server.state, realm, missing);
        && (r.Success? ==> ItemPlans(objects, realm, Items(manifest), operations[|old(operations)|..]))
        && (r.Failure? && Plannable(objects, realm, Items(manifest)) ==> Excused(r.code, server.env, old(server.tick)))
    {
      hide PlanItem;
      ghost var objects := Objects(server.state, realm, missing);
      ghost var scopes, roles, clients :=
        ItemsOf(ClientScope, manifest.clientScopes), ItemsOf(RealmRole, manifest.realmRoles),
          ItemsOf(Client, manifest.clients);
      PlannableParts(objects, realm, scopes, roles, clients);
      ghost var ops0 := operations;
      var _ :- PlanScopes(missing);
      ghost var ops1 := operations;
      var _ :- PlanRoles(missing);
      ghost var ops2 := operations;
      var _ :- PlanClients(missing);
      if Quiet(server.env) && Seen(server.state, realm, missing) {
        assert ops1[|ops0|..] + ops2[|ops1|..] + operations[|ops2|..] == operations[|ops0|..];
        ItemPlansJoin(objects, realm, scopes, roles, clients, ops1[|ops0|..], ops2[|ops1|..], operations[|ops2|..]);
      }
      return Success(());
    }

    /** Confirms the realm, then sends one write. */
    method GuardedWrite(q: Request, realmId: Value)
      returns (r: Result<()>, ghost sent: bool, ghost committed: bool, ghost c: Choice)
      requires IsWrite(q)
      modifies server
      ensures old(server.log) <= server.log && |server.log| == |old(server.log)| + (if sent then 2 else 1)
      ensures !IsWrite(server.log[|old(server.log)|].request)
      ensures sent ==>
        Confirms(server.log[|old(server.log)|], realm, realmId) && server.log[|old(server.log)| + 1].request == q
      ensures r.Success? <==> sent && Acknowledged(server.log[|old(server.log)| + 1])
      ensures Steady(server.env) ==>
        && (r.Success? ==> committed)
        && (committed ==> Serve(old(server.state), q, c).response.status == ExpectedStatus(q.verb))
        && server.state == (if committed then Serve(old(server.state), q, c).state else old(server.state))
      ensures Steady(server.env) && Identified(old(server.state), realm, realmId) && r.Failure? ==>
        && RestFailure(r.code)
        && (Delivers(server.env, old(server.tick)) ==>
              sent && Serve(old(server.state), q, c).response.status != ExpectedStatus(q.verb))
      ensures server.tick == old(server.tick) + (if sent then 2 else 1) && c == server.env.choice(old(server.tick) + 1)
      ensures committed ==> sent
    {
      sent, committed, c := false, false, server.env.choice(server.tick + 1);
      var live := Fetch(Root(realm), false);
      c := server.env.choice(server.tick);
      if live.Failure? { return Failure(live.code), sent, committed, c; }
      if !live.value.body.One? { return Failure(InvalidServerResponse), sent, committed, c; }
      if Get(live.value.body.rep, RealmName) != Some(Str(realm)) || Get(live.value.body.rep, Id) != Some(realmId) {
        return Failure(RealmMismatch), sent, committed, c;
      }
      sent := true;
      ghost var before := server.state;
      var response := Call(q, false);
      committed := response.Success? || server.state != before;
      if response.Failure? { return Failure(response.code), sent, committed, c; }
      return Success(()), sent, committed, c;
    }

    /** The plan in `operations` was made for this state and this realm. */
    ghost predicate Plans(s: State, realmId: Value)
      reads this`operations
    {
      && realm in s && WellFormed(s[realm].objects) && ItemsOk(Items(manifest)) && SettingsOk(manifest.settings)
      && IsPlan(s[realm], realm, manifest.settings, Items(manifest), operations)
      && Identified(s, realm, realmId)
    }

    /** The first `j` operations were carried out from `s`, by the writes `ws`. */
    ghost predicate CarriedOut(s: State, t: State, ws: seq<Write>, j: nat)
      reads this`operations
    {
      && j <= |operations| && Requests(ws) == Writes(operations[..j])
      && Succeeds(s, ws) && t == ServeAll(s, ws)
      && (CreatesProperly(server.env) ==> AllProper(ws))
    }

    /** The log from `k0` on: guarded, and holding the writes of the first `k` operations, all acknowledged. */
    ghost predicate Logged(log: seq<Event>, k0: nat, realmId: Value, k: nat)
      reads this`operations
    {
      && k0 <= |log| && k <= |operations| && GuardedFrom(log, k0, realm, realmId)
      && WritesFrom(log, k0) == Writes(operations[..k]) && AckedFrom(log, k0) == |Writes(operations[..k])|
    }

    lemma LoggedNext(before: seq<Event>, after: seq<Event>, k0: nat, realmId: Value, k: nat, sent: bool)
      requires Logged(before, k0, realmId, k) && k < |operations| && operations[k].request.Some?
      requires before <= after && |after| == |before| + (if sent then 2 else 1) && !IsWrite(after[|before|].request)
      requires sent ==>
        Confirms(after[|before|], realm, realmId) && after[|before| + 1].request == operations[k].request.value
      ensures GuardedFrom(after, k0, realm, realmId) && WritesFrom(after, k0) <= Writes(operations)
      ensures AckedFrom(after, k0)
        == AckedFrom(before, k0) + (if sent && Acknowledged(after[|before| + 1]) then 1 else 0)
      ensures sent && Acknowledged(after[|before| + 1]) ==> Logged(after, k0, realmId, k + 1)
    {
      hide Confirms, Acknowledged, WritesFrom, AckedFrom, Writes, GuardedFrom;
      LogStep(before, after, k0, sent);
      WritesNext(operations, k);
      GuardExtends(before, after, k0, realm, realmId, sent);
      assert WritesFrom(after, k0) <= Writes(operations[..k + 1]) <= Writes(operations);
    }

    /** With new ids the server accepts the next write of the plan. */
    lemma StepAccepted(s: State, t: State, realmId: Value, ws: seq<Write>, k: nat, env: Environment, from: nat,
        until: nat)
      requires Plans(s, realmId) && CarriedOut(s, t, ws, k) && k < |operations| && operations[k].request.Some?
      requires Numbered(env, from, until, t, realm) && from + 1 < until
      ensures var q, c := operations[k].request.value, env.choice(from + 1);
        && Serve(t, q, c).response.status == ExpectedStatus(q.verb)
        && Numbered(env, from + 2, until, Serve(t, q, c).state, realm)
    {
      hide WellFormed, PlanItem, Serve, IsPlan;
      RunPrefix(s, realm, manifest.settings, Items(manifest), operations, k, ws, false);
      WriteAccepted(s, t, realm, manifest.settings, Items(manifest), operations, k, env.choice(from + 1));
      WritesSupplyNoId(s[realm], realm, manifest.settings, Items(manifest), operations, k);
      ServeKeepsNumbered(env, from, until, from + 1, t, realm, operations[k].request.value);
    }

    /** After a guarded write, whatever became of it. */
    lemma StepNumbered(s: State, t: State, u: State, realmId: Value, ws: seq<Write>, k: nat, env: Environment,
        from: nat, to: nat, until: nat, committed: bool)
      requires Plans(s, realmId) && CarriedOut(s, t, ws, k) && k < |operations| && operations[k].request.Some?
      requires Numbered(env, from, until, t, realm) && from < to <= from + 2 && to <= until
        && (committed ==> to == from + 2)
      requires u == if committed then Serve(t, operations[k].request.value, env.choice(from + 1)).state else t
      ensures Numbered(env, to, until, u, realm)
    {
      hide Numbered, Plans, CarriedOut, Serve;
      if committed {
        StepAccepted(s, t, realmId, ws, k, env, from, until);
      } else {
        NumberedLater(env, from, to, until, t, realm);
      }
    }

    /** Carries out the plan, one guarded write at a time. With delivered calls and new ids
        nothing stops it. */
    method Apply(realmId: Value, ghost until: nat) returns (r: Result<()>, ghost ws: seq<Write>, ghost j: nat)
      modifies server, this`applied
      ensures old(server.log) <= server.log && GuardedFrom(server.log, |old(server.log)|, realm, realmId)
      ensures applied == old(applied) + AckedFrom(server.log, |old(server.log)|)
      ensures WritesFrom(server.log, |old(server.log)|) <= Writes(operations)
      ensures r.Success? ==>
        WritesFrom(server.log, |old(server.log)|) == Writes(operations)
          && applied == old(applied) + |Writes(operations)|
      ensures Steady(server.env) && Plans(old(server.state), realmId) ==>
        && CarriedOut(old(server.state), server.state, ws, j)
        && (r.Success? ==> j == |operations|)
        && (r.Failure? ==> RestFailure(r.code))
      ensures old(server.tick) <= server.tick
      ensures
        && Steady(server.env) && Plans(old(server.state), realmId) && server.tick <= until
        && Numbered(server.env, old(server.tick), until, old(server.state), realm) ==>
          && Numbered(server.env, server.tick, until, server.state, realm)
          && (r.Failure? ==> !Delivers(server.env, old(server.tick)))
    {
      hide Steady, Plans, Confirms, Acknowledged, CarriedOut, Serve, Proper, Identified, Writes, WritesFrom, AckedFrom,
        GuardedFrom, Numbered;
      ws, j := [], 0;
      ghost var k0 := |server.log|;
      CarriedOutNothing(server.state);
      LoggedNothing(server.log, realmId);
      for k := 0 to |operations|
        invariant old(server.log) <= server.log && Logged(server.log, k0, realmId, k)
        invariant applied == old(applied) + AckedFrom(server.log, k0)
        invariant j == k
        invariant Steady(server.env) && Plans(old(server.state), realmId) ==>
          CarriedOut(old(server.state), server.state, ws, j)
        invariant old(server.tick) <= server.tick
        invariant
          && Steady(server.env) && Plans(old(server.state), realmId) && server.tick <= until
          && Numbered(server.env, old(server.tick), until, old(server.state), realm) ==>
            Numbered(server.env, server.tick, until, server.state, realm)
      {
        if operations[k].request.Some? {
          ghost var state0, log0, tick0 := server.state, server.log, server.tick;
          var step, sent, committed, c := GuardedWrite(operations[k].request.value, realmId);
          LoggedNext(log0, server.log, k0, realmId, k, sent);
          if Steady(server.env) && Plans(old(server.state), realmId) {
            StillConfirmed(old(server.state), state0, realmId, ws, k);
            if server.tick <= until && Numbered(server.env, old(server.tick), until, old(server.state), realm) {
              StepNumbered(old(server.state), state0, server.state, realmId, ws, k, server.env, tick0, server.tick,
                until, committed);
              if sent { StepAccepted(old(server.state), state0, realmId, ws, k, server.env, tick0, until); }
            }
            if committed { CarryOutOne(old(server.state), state0, server.state, ws, k, c); }
          }
          if committed { ws, j := ws + [Write(operations[k].request.value, c)], k + 1; }
          if step.Failure? { return step, ws, j; }
          applied := applied + 1;
        } else {
          LoggedSkip(server.log, k0, realmId, k);
          if Steady(server.env)
            && Plans(old(server.state), realmId) { CarryOutNone(old(server.state), server.state, ws, k); }
        }
        j := k + 1;
      }
      assert operations[..|operations|] == operations;
      return Success(()), ws, j;
    }

    lemma LoggedNothing(log: seq<Event>, realmId: Value)
      ensures Logged(log, |log|, realmId, 0) && AckedFrom(log, |log|) == 0
    {
    }

    lemma LoggedSkip(log: seq<Event>, k0: nat, realmId: Value, k: nat)
      requires Logged(log, k0, realmId, k) && k < |operations| && operations[k].request.None?
      ensures Logged(log, k0, realmId, k + 1)
    {
      assert operations[..k + 1][..k] == operations[..k];
    }

    lemma CarriedOutNothing(s: State)
      ensures CarriedOut(s, s, [], 0)
    {
    }

    lemma CarryOutOne(s: State, t: State, u: State, ws: seq<Write>, k: nat, c: Choice)
      requires CarriedOut(s, t, ws, k) && k < |operations| && operations[k].request.Some?
        && (CreatesProperly(server.env) ==> Proper(c))
      requires Serve(t, operations[k].request.value, c).response.status
        == ExpectedStatus(operations[k].request.value.verb)
      requires u == Serve(t, operations[k].request.value, c).state
      ensures CarriedOut(s, u, ws + [Write(operations[k].request.value, c)], k + 1)
    {
      hide Serve, Proper;
      var ws' := ws + [Write(operations[k].request.value, c)];
      assert ws'[..|ws'| - 1] == ws && operations[..k + 1][..k] == operations[..k];
      assert Requests(ws') == Requests(ws) + [operations[k].request.value];
    }

    lemma CarryOutNone(s: State, t: State, ws: seq<Write>, k: nat)
      requires CarriedOut(s, t, ws, k) && k < |operations| && operations[k].request.None?
      ensures CarriedOut(s, t, ws, k + 1)
    {
      assert operations[..k + 1][..k] == operations[..k];
    }

    /** The realm a plan was made for keeps answering with its name and id. */
    lemma StillConfirmed(s: State, t: State, realmId: Value, ws: seq<Write>, k: nat)
      requires Plans(s, realmId) && CarriedOut(s, t, ws, k)
      ensures Identified(t, realm, realmId)
    {
      RunPrefix(s, realm, manifest.settings, Items(manifest), operations, k, ws, false);
      assert Id !in manifest.settings && RealmName !in manifest.settings;
    }

    function BootstrapChange(): Change {
      Change(RealmSubject, realm, CreateObject, {RealmName})
    }

    /** A bootstrap is the second call of a run. */
    ghost predicate BootedBy(env: Environment, from: nat, to: nat, boot: Option<Write>) {
      boot.Some? ==> from + 2 <= to && boot.value.choice == env.choice(from + 1)
    }

    /** Reads the realm, bootstrapping a missing one if that is allowed; `None` when planning for a missing realm. */
    method ReadRealm(bootstrap: bool) returns (r: Result<Option<Rep>>, ghost boot: Option<Write>)
      requires changes == [] && applied == 0
      modifies server, this`changes, this`applied
      ensures old(server.log) < server.log && OnlyBootstraps(server.log, |old(server.log)|, realm)
      ensures applied == AckedFrom(server.log, |old(server.log)|)
        && (r.Success? ==> applied == |WritesFrom(server.log, |old(server.log)|)|)
      ensures !apply ==> ReadsFrom(server.log, |old(server.log)|)
      ensures r.Success? ==>
        && changes == (if Missing(server.log[|old(server.log)|]) then [BootstrapChange()] else [])
        && (r.value.None? ==> !apply && Missing(server.log[|old(server.log)|]))
        && (apply ==>
              WritesFrom(server.log, |old(server.log)|)
              == (if Missing(server.log[|old(server.log)|]) then [BootstrapRequest(realm)] else []))
      ensures r.Failure? ==>
        changes == [] || (Missing(server.log[|old(server.log)|]) && changes == [BootstrapChange()])
      ensures r.Success? && r.value.Some? ==>
        RealmOk(r.value.value, realm) && PlannedId(server.log, |old(server.log)|) == Get(r.value.value, Id)
      ensures Steady(server.env) ==>
        && server.state == Booted(old(server.state), RunLog(boot, []))
        && (boot.Some? ==>
          apply && realm !in old(server.state) && boot.value.request == BootstrapRequest(realm)
            && WellFormed(boot.value.choice.realm.objects))
        && (r.Success? && r.value.Some? ==> realm in server.state && server.state[realm].rep == r.value.value)
        && (r.Success? && r.value.None? ==> boot.None? && realm !in server.state)
        && (realm in old(server.state) ==> !Missing(server.log[|old(server.log)|]))
        && (r.Failure? && realm in old(server.state) && RealmOk(old(server.state)[realm].rep, realm) ==>
              Excused(r.code, server.env, old(server.tick)))
        && (r.Failure? && realm !in old(server.state) && bootstrap && apply
            && Delivers(server.env, old(server.tick)) ==>
              && old(server.tick) + 2 <= server.tick
              && !RealmOk(NewRealm(server.env.choice(old(server.tick) + 1), realm).rep, realm))
      ensures BootedBy(server.env, old(server.tick), server.tick, boot)
      ensures old(server.tick) < server.tick
    {
      hide WellFormed, ValidServerId;
      boot := None;
      ghost var log0 := server.log;
      var first := Fetch(Root(realm), true);
      ghost var log1 := server.log;
      LogStep(log0, log1, |log0|, false);
      if first.Failure? { return Failure(first.code), boot; }
      var response := first.value;
      if response.status == 404 {
        if !bootstrap { return Failure(RealmMissingBootstrapRequired), boot; }
        changes := [BootstrapChange()];
        if !apply { return Success(None), boot; }
        ghost var c, state0 := server.env.choice(server.tick), server.state;
        var created := Call(BootstrapRequest(realm), false);
        ghost var log2 := server.log;
        if created.Success? || server.state != state0 { boot := Some(Write(BootstrapRequest(realm), c)); }
        LogTwo(log0, log2);
        if created.Failure? { return Failure(created.code), boot; }
        applied := applied + 1;
        var again := Fetch(Root(realm), false);
        LogStep(log2, server.log, |log0|, false);
        if again.Failure? { return Failure(again.code), boot; }
        response := again.value;
      }
      if !response.body.One? { return Failure(InvalidServerResponse), boot; }
      if Get(response.body.rep, RealmName) != Some(Str(realm)) { return Failure(RealmMismatch), boot; }
      if !ValidServerId(Get(response.body.rep, Id)) { return Failure(InvalidServerResponse), boot; }
      return Success(Some(response.body.rep)), boot;
    }

    /** Settings first, then every managed object. */
    method PlanAll(rep: Option<Rep>) returns (r: Result<()>)
      requires operations == []
      modifies server, this`operations
      ensures old(server.log) <= server.log && ReadsFrom(server.log, |old(server.log)|)
      ensures Quiet(server.env) ==> server.state == old(server.state)
      ensures
        && Quiet(server.env) && rep.Some? && realm in server.state && WellFormed(server.state[realm].objects)
        && server.state[realm].rep == rep.value ==>
        && (r.Success? ==> IsPlan(server.state[realm], realm, manifest.settings, Items(manifest), operations))
        && (r.Failure? && Plannable(server.state[realm].objects, realm, Items(manifest)) ==>
              Excused(r.code, server.env, old(server.tick)))
      ensures old(server.tick) <= server.tick
    {
      var current := if rep.Some? then rep.value else map[];
      operations := [PlanSettings(current, realm, manifest.settings)];
      r := PlanObjects(rep.None?);
    }

    /** What a run did to a server whose environment only fails calls: the state is what
        the plan's writes made of it, cut anywhere; a success carried out the whole plan; once
        `planned` the operations are the plan; and
        where planning is possible only REST failures end the run. */
    ghost predicate RunOutcome(s: State, t: State, run: RunLog, r: Result<()>, planned: bool)
      reads this`operations
    {
      ItemsOk(Items(manifest)) && SettingsOk(manifest.settings) && WellFormedRealm(s, realm) ==>
        && t == AfterRun(s, run)
        && IsRun(s, realm, manifest.settings, Items(manifest), run, apply && r.Success?)
        && (CreatesProperly(server.env) ==> AllProper(run.writes))
        && (!apply ==> run == RunLog(None, []))
        && (planned && realm in s ==> IsPlan(s[realm], realm, manifest.settings, Items(manifest), operations))
        && (r.Failure? && PlanPossible(s, realm, Items(manifest)) ==> RestFailure(r.code))
    }

    ghost predicate Bootstrapped(s: State, t: State, boot: Option<Write>) {
      && t == Booted(s, RunLog(boot, []))
      && (boot.Some? ==>
        apply && realm !in s && boot.value.request == BootstrapRequest(realm)
          && WellFormed(boot.value.choice.realm.objects))
    }

    lemma StoppedEarly(s: State, t: State, boot: Option<Write>, r: Result<()>)
      requires Bootstrapped(s, t, boot) && r.Failure?
      requires WellFormedRealm(s, realm) && PlanPossible(s, realm, Items(manifest)) ==> RestFailure(r.code)
      ensures RunOutcome(s, t, RunLog(boot, []), r, false)
    {
    }

    lemma BootstrapWellFormed(s: State, t: State, boot: Option<Write>)
      requires Bootstrapped(s, t, boot) && WellFormedRealm(s, realm)
      ensures WellFormedRealm(t, realm) && (realm in s ==> t == s)
    {
    }

    lemma PlannedOnly(s: State, r: Result<()>)
      requires !apply && r.Success?
      requires realm in s && WellFormed(s[realm].objects) ==>
        IsPlan(s[realm], realm, manifest.settings, Items(manifest), operations)
      ensures RunOutcome(s, s, RunLog(None, []), r, true)
    {
    }

    lemma CarriedOutRun(s: State, t: State, u: State, boot: Option<Write>, realmId: Value, ws: seq<Write>, j: nat,
        r: Result<()>)
      requires apply && Bootstrapped(s, t, boot) && (Orderly(s) ==> Plans(t, realmId))
      requires Plans(t, realmId) ==>
        CarriedOut(t, u, ws, j) && (r.Success? ==> j == |operations|) && (r.Failure? ==> RestFailure(r.code))
      ensures RunOutcome(s, u, RunLog(boot, ws), r, true)
    {
      if Plans(t, realmId) {
        assert FollowsPlan(t, realm, manifest.settings, Items(manifest), ws, r.Success?) by { hide IsPlan; }
      }
    }

    lemma GuardedJoin(log1: seq<Event>, log2: seq<Event>, log: seq<Event>, k: nat, realmId: Value)
      requires k < |log1| && log1 <= log2 <= log
      requires OnlyBootstraps(log1, k, realm) && ReadsFrom(log2, |log1|) && GuardedFrom(log, |log2|, realm, realmId)
      requires PlannedId(log1, k) == Some(realmId)
      ensures GuardedRun(log, k, realm)
    {
      hide Confirms, IdIn;
      assert PlannedId(log, k) == Some(realmId);
    }

    lemma BootstrapsAreGuarded(log1: seq<Event>, log2: seq<Event>, k: nat)
      requires k < |log1| && log1 <= log2 && OnlyBootstraps(log1, k, realm) && ReadsFrom(log2, |log1|)
      ensures GuardedRun(log2, k, realm)
    {
    }

    /** The manifest and the realm are as validation and the server keep them. */
    ghost predicate Orderly(s: State) {
      WellFormedRealm(s, realm) && ItemsOk(Items(manifest)) && SettingsOk(manifest.settings)
    }

    /** A run can start here: the realm can be planned or bootstrapped, and the ids to come are new. */
    ghost predicate Ready(env: Environment, from: nat, until: nat, s: State, bootstrap: bool) {
      && Orderly(s) && Startable(s, realm, Items(manifest), bootstrap && apply)
      && Fresh(env, from, until, s, realm, Items(manifest))
    }

    /** Between two calls of a run that can start: the ids to come stay new, and a failure
        means that some call was not delivered. */
    ghost predicate Progress(env: Environment, from: nat, to: nat, until: nat, s: State, t: State, bootstrap: bool,
        failed: bool) {
      Steady(env) && to <= until && Ready(env, from, until, s, bootstrap) ==>
        Fresh(env, to, until, t, realm, Items(manifest)) && (failed ==> !Delivers(env, from))
    }

    lemma ProgressRead(env: Environment, from: nat, to: nat, until: nat, s: State, t: State, boot: Option<Write>,
        bootstrap: bool, failed: bool)
      requires from <= to && BootedBy(env, from, to, boot) && (Steady(env) ==> Bootstrapped(s, t, boot))
      requires failed && Steady(env) && realm in s && RealmOk(s[realm].rep, realm) ==> !Delivers(env, from)
      requires failed && Steady(env) && realm !in s && bootstrap && apply && Delivers(env, from) ==>
        from + 2 <= to && !RealmOk(NewRealm(env.choice(from + 1), realm).rep, realm)
      ensures Progress(env, from, to, until, s, t, bootstrap, failed)
    {
      if Steady(env) && to <= until && Ready(env, from, until, s, bootstrap) {
        hide WellFormed, RealmOk, ItemsOk, SettingsOk, Plannable, NumbersOnce, Unclaimed, Delivers;
        if boot.Some? {
          BootedIsFresh(env, from, to, until, s, realm, Items(manifest));
        } else {
          FreshLater(env, from, to, until, s, realm, Items(manifest));
        }
        if realm !in s && from + 2 <= to { assert BootsWell(env, from + 1, until, realm, Items(manifest)); }
      }
    }

    lemma ProgressJoins(env: Environment, from: nat, mid: nat, to: nat, until: nat, s: State, t: State, u: State,
        bootstrap: bool, failed: bool)
      requires from <= mid <= to
      requires Steady(env) && to <= until && Ready(env, from, until, s, bootstrap) ==>
        Ready(env, mid, until, t, bootstrap)
      requires Progress(env, mid, to, until, t, u, bootstrap, failed)
      ensures Progress(env, from, to, until, s, u, bootstrap, failed)
    {
      hide Ready, Fresh, Steady;
      if Delivers(env, from) { DeliversLater(env, from, mid); }
    }

    lemma ProgressStays(env: Environment, from: nat, to: nat, until: nat, s: State, bootstrap: bool, failed: bool)
      requires from <= to && (failed && Steady(env) && Ready(env, from, until, s, bootstrap) ==> !Delivers(env, from))
      ensures Progress(env, from, to, until, s, s, bootstrap, failed)
    {
      hide Orderly, Startable, Steady, Fresh;
      if Ready(env, from, until, s, bootstrap) { FreshLater(env, from, to, until, s, realm, Items(manifest)); }
    }

    /** Where the realm is there after the first reads, it can be planned. */
    lemma ReadyAfterRead(env: Environment, from: nat, to: nat, until: nat, s: State, t: State, boot: Option<Write>,
        bootstrap: bool)
      requires Ready(env, from, until, s, bootstrap) && Bootstrapped(s, t, boot) && BootedBy(env, from, to, boot)
      requires from <= to <= until && (realm in t || !apply)
      ensures Ready(env, to, until, t, bootstrap) && realm in t && WellFormed(t[realm].objects)
        && Plannable(t[realm].objects, realm, Items(manifest))
    {
      hide RealmOk, ItemsOk, SettingsOk, Plannable, NumbersOnce, Unclaimed, WellFormed;
      if boot.Some? {
        BootedIsFresh(env, from, to, until, s, realm, Items(manifest));
      } else {
        FreshLater(env, from, to, until, s, realm, Items(manifest));
      }
    }

    /** What planning in the state that the first reads left means for the run. */
    lemma AfterPlanning(from: nat, mid: nat, to: nat, until: nat, s: State, t: State, boot: Option<Write>,
        bootstrap: bool, found: Option<Rep>, planned: Result<()>)
      requires from <= mid <= to && Bootstrapped(s, t, boot) && BootedBy(server.env, from, mid, boot)
      requires found.Some? ==> realm in t && t[realm].rep == found.value && RealmOk(found.value, realm)
      requires found.None? ==> !apply && boot.None? && realm !in t
      requires found.Some? && WellFormed(t[realm].objects) ==>
        && (planned.Success? ==> IsPlan(t[realm], realm, manifest.settings, Items(manifest), operations))
        && (planned.Failure? && Plannable(t[realm].objects, realm, Items(manifest)) ==>
              Excused(planned.code, server.env, mid))
      ensures Progress(server.env, from, to, until, s, t, bootstrap, planned.Failure?)
      ensures planned.Failure? ==> RunOutcome(s, t, RunLog(boot, []), planned, false)
      ensures planned.Success? && !apply ==> RunOutcome(s, t, RunLog(boot, []), Success(()), true)
      ensures planned.Success? && found.Some? && Orderly(s) ==> Plans(t, found.value[Id])
    {
      hide Plannable, IsPlan, RunOutcome, WellFormed, Booted, Progress, Ready, Fresh, Delivers, ItemsOk, SettingsOk;
      WellFormedUnfold(s);
      if WellFormedRealm(s, realm) { BootstrapWellFormed(s, t, boot); }
      if to <= until && Ready(server.env, from, until, s, bootstrap) {
        ReadyAfterRead(server.env, from, mid, until, s, t, boot, bootstrap);
      }
      ProgressPlan(server.env, from, mid, to, until, s, t, found, bootstrap, planned);
      if planned.Failure? { StoppedEarly(s, t, boot, planned); }
      if planned.Success? && !apply {
        BootedByNothing(s);
        PlannedOnly(s, Success(()));
      }
    }

    /** Reads and plans: everything before the first write of the plan. */
    method Prepare(bootstrap: bool, ghost until: nat) returns (r: Result<Option<Value>>, ghost boot: Option<Write>)
      requires changes == [] && applied == 0 && operations == []
      modifies server, this`changes, this`applied, this`operations
      ensures old(server.log) < server.log && OnlyBootstraps(server.log, |old(server.log)|, realm)
      ensures applied == AckedFrom(server.log, |old(server.log)|)
        && (!apply ==> ReadsFrom(server.log, |old(server.log)|))
      ensures r.Failure? ==>
        changes == [] || (Missing(server.log[|old(server.log)|]) && changes == [BootstrapChange()])
      ensures r.Success? ==>
        var created := Missing(server.log[|old(server.log)|]);
        && changes == (if created then [BootstrapChange()] else []) + Changes(operations)
        && (apply ==> WritesFrom(server.log, |old(server.log)|) == (if created then [BootstrapRequest(realm)] else []))
        && (apply ==> r.value.Some? && PlannedId(server.log, |old(server.log)|) == r.value)
        && applied == |WritesFrom(server.log, |old(server.log)|)|
      ensures Steady(server.env) ==>
        && Bootstrapped(old(server.state), server.state, boot)
        && (r.Success? && r.value.Some? && Orderly(old(server.state)) ==> Plans(server.state, r.value.value))
        && (r.Failure? || !apply ==>
              RunOutcome(old(server.state), server.state, RunLog(boot, []),
                if r.Success? then Success(()) else Failure(r.code), r.Success?))
        && (realm in old(server.state) ==> !Missing(server.log[|old(server.log)|]))
      ensures old(server.tick) < server.tick
      ensures Progress(server.env, old(server.tick), server.tick, until, old(server.state), server.state, bootstrap,
        r.Failure?)
      ensures BootedBy(server.env, old(server.tick), server.tick, boot)
    {
      hide OnlyBootstraps, AckedFrom, WritesFrom, PlannedId, Missing, Plannable, IsPlan, RunOutcome, WellFormed,
        Steady, Proper, Booted, Progress, Ready, Fresh, Delivers, ItemsOk, SettingsOk, Plans, Orderly;
      ghost var k, s, tick0 := |server.log|, server.state, server.tick;
      var found;
      found, boot := ReadRealm(bootstrap);
      ghost var log1, t, tick1 := server.log, server.state, server.tick;
      ProgressRead(server.env, tick0, tick1, until, s, t, boot, bootstrap, found.Failure?);
      if found.Failure? {
        r := Failure(found.code);
        if Steady(server.env) { StoppedEarly(s, t, boot, Failure(found.code)); }
        return;
      }
      var planned := PlanAll(found.value);
      ReadsAddNothing(log1, server.log, k);
      ReadsKeepBootstraps(log1, server.log, k);
      if Steady(server.env) {
        SteadyIsQuiet(server.env);
        AfterPlanning(tick0, tick1, server.tick, until, s, t, boot, bootstrap, found.value, planned);
      }
      ProgressUnsteady(server.env, tick0, server.tick, until, s, server.state, bootstrap, planned.Failure?);
      if planned.Failure? { return Failure(planned.code), boot; }
      changes := changes + Changes(operations);
      r := Success(if found.value.Some? then Some(found.value.value[Id]) else None);
    }

    lemma ReadsKeepBootstraps(log1: seq<Event>, log2: seq<Event>, k: nat)
      requires k < |log1| && log1 <= log2 && OnlyBootstraps(log1, k, realm) && ReadsFrom(log2, |log1|)
      ensures OnlyBootstraps(log2, k, realm)
      ensures PlannedId(log1, k).Some? ==> PlannedId(log2, k) == PlannedId(log1, k)
      ensures Missing(log2[k]) == Missing(log1[k])
    {
      hide Confirms, IdIn;
    }

    /** One run. The first clauses hold whatever the environment does; the last says that with
        delivered calls and new ids a run that can start succeeds. A run that stops before its
        plan is complete (`planned`) reports no change but the bootstrap. */
    method Execute(bootstrap: bool, ghost until: nat)
      returns (r: Result<()>, ghost run: RunLog, ghost planned: bool)
      requires changes == [] && applied == 0 && operations == []
      modifies server, this`changes, this`applied, this`operations
      ensures old(server.log) < server.log && GuardedRun(server.log, |old(server.log)|, realm)
      ensures applied == AckedFrom(server.log, |old(server.log)|)
      ensures !apply ==> ReadsFrom(server.log, |old(server.log)|)
      ensures r.Success? ==> planned
      ensures !planned ==>
        && OnlyBootstraps(server.log, |old(server.log)|, realm)
        && (changes == [] || (Missing(server.log[|old(server.log)|]) && changes == [BootstrapChange()]))
      ensures planned ==>
        var created := Missing(server.log[|old(server.log)|]);
        && changes == (if created then [BootstrapChange()] else []) + Changes(operations)
        && (apply ==>
              WritesFrom(server.log, |old(server.log)|)
              <= (if created then [BootstrapRequest(realm)] else []) + Writes(operations))
      ensures r.Success? ==>
        var created := Missing(server.log[|old(server.log)|]);
        && (apply ==>
              WritesFrom(server.log, |old(server.log)|)
              == (if created then [BootstrapRequest(realm)] else []) + Writes(operations))
        && (apply ==> applied == |WritesFrom(server.log, |old(server.log)|)|)
      ensures Steady(server.env) ==> RunOutcome(old(server.state), server.state, run, r, planned)
      ensures Steady(server.env) && realm in old(server.state) ==> !Missing(server.log[|old(server.log)|])
      ensures old(server.tick) < server.tick
      ensures Progress(server.env, old(server.tick), server.tick, until, old(server.state), server.state, bootstrap,
        r.Failure?)
      ensures BootedBy(server.env, old(server.tick), server.tick, run.boot)
    {
      hide GuardedRun, OnlyBootstraps, GuardedFrom, AckedFrom, WritesFrom, Writes, PlannedId, Missing, RunOutcome,
        WellFormed, Steady, Proper,
        CarriedOut, Bootstrapped, Progress, Numbered, Delivers, Plans, Orderly;
      ghost var k, s, tick0 := |server.log|, server.state, server.tick;
      var prepared, boot := Prepare(bootstrap, until);
      run := RunLog(boot, []);
      ghost var log1, t, tick1 := server.log, server.state, server.tick;
      BootstrapsAreGuarded(log1, log1, k);
      planned := prepared.Success?;
      if prepared.Failure? { return Failure(prepared.code), run, planned; }
      r := Success(());
      if apply {
        var id := prepared.value.value;
        ghost var ws: seq<Write>, j: nat;
        r, ws, j := Apply(id, until);
        run := RunLog(boot, ws);
        GuardedJoin(log1, log1, server.log, k, id);
        LogSplits(server.log, k, |log1|);
        assert server.log[..|log1|] == log1;
        if Steady(server.env) {
          CarriedOutRun(s, t, server.state, boot, id, ws, j, r);
          ProgressApply(server.env, tick0, tick1, server.tick, until, s, t, server.state, boot, id, bootstrap, r);
        }
        ProgressUnsteady(server.env, tick0, server.tick, until, s, server.state, bootstrap, r.Failure?);
      }
    }

    lemma ProgressUnsteady(env: Environment, from: nat, to: nat, until: nat, s: State, t: State, bootstrap: bool,
        failed: bool)
      requires Steady(env) ==> Progress(env, from, to, until, s, t, bootstrap, failed)
      ensures Progress(env, from, to, until, s, t, bootstrap, failed)
    {
    }

    lemma ProgressPlan(env: Environment, from: nat, mid: nat, to: nat, until: nat, s: State, t: State,
        rep: Option<Rep>, bootstrap: bool, r: Result<()>)
      requires from <= mid <= to
      requires to <= until && Ready(env, from, until, s, bootstrap) ==>
        Ready(env, mid, until, t, bootstrap) && realm in t && rep == Some(t[realm].rep)
      requires rep.Some? && realm in t && WellFormed(t[realm].objects) && t[realm].rep == rep.value ==>
        (r.Failure? && Plannable(t[realm].objects, realm, Items(manifest)) ==> Excused(r.code, env, mid))
      ensures Progress(env, from, to, until, s, t, bootstrap, r.Failure?)
    {
      hide ItemsOk, SettingsOk, Fresh, WellFormed, RealmOk, Plannable;
      if to <= until && Ready(env, from, until, s, bootstrap) {
        ProgressStays(env, mid, to, until, t, bootstrap, r.Failure?);
        ProgressJoins(env, from, mid, to, until, s, t, t, bootstrap, r.Failure?);
      }
    }

    lemma ProgressApply(env: Environment, from: nat, mid: nat, to: nat, until: nat, s: State, t: State, u: State,
        boot: Option<Write>, realmId: Value, bootstrap: bool, r: Result<()>)
      requires Steady(env) && from <= mid <= to && Progress(env, from, mid, until, s, t, bootstrap, false)
      requires Orderly(s) ==> Plans(t, realmId)
      requires Plans(t, realmId) && to <= until && Numbered(env, mid, until, t, realm) ==>
        Numbered(env, to, until, u, realm) && (r.Failure? ==> !Delivers(env, mid))
      ensures Progress(env, from, to, until, s, u, bootstrap, r.Failure?)
    {
      hide ItemsOk, SettingsOk, WellFormed, RealmOk, Plannable, NumbersOnce, Unclaimed, Startable, IsPlan;
      if to <= until && Ready(env, from, until, s, bootstrap) {
        FreshIsNumbered(env, mid, until, t, realm, Items(manifest));
        if realm in u { FreshIsNumbered(env, to, until, u, realm, Items(manifest)); }
        if Delivers(env, from) { DeliversLater(env, from, mid); }
      }
    }

    lemma BootedByNothing(s: State)
      ensures Booted(s, RunLog(None, [])) == s
    {
    }

    lemma WellFormedUnfold(s: State)
      ensures realm in s && WellFormed(s[realm].objects) ==> WellFormedRealm(s, realm)
    {
    }
  }

  /** A run that found its realm and planned nothing sent nothing. */
  lemma OnlyReadsUnlessMissing(log: seq<Event>, k: nat, realm: Text)
    requires k < |log| && OnlyBootstraps(log, k, realm) && !Missing(log[k])
    ensures WritesFrom(log, k) == []
  {
    ReadsSendNothing(log, k);
  }

  lemma ReadsSendNothing(log: seq<Event>, k: nat)
    requires k <= |log| && ReadsFrom(log, k)
    ensures WritesFrom(log, k) == [] && AckedFrom(log, k) == 0
  {
    assert WritesFrom(log[..k], k) == [] && AckedFrom(log[..k], k) == 0;
    ReadsAddNothing(log[..k], log, k);
  }

  lemma SteadyIsQuiet(env: Environment)
    requires Steady(env)
    ensures Quiet(env)
  {
  }

  datatype Report = Report(apply: bool, changes: seq<Change>, applied: nat)
  datatype Outcome = Done(report: Report) | Failed(code: Code, progress: Option<Report>)

  /** What a failed run of a realm that was there sent and reports: nothing, or a first part of
      the plan and all of its changes. */
  ghost predicate StoppedShort(sent: seq<Request>, changes: seq<Change>, ops: seq<Operation>, r: Realm,
      realm: Text, settings: Rep, items: seq<Item>) {
    || (sent == [] && changes == [])
    || (sent <= Writes(ops) && changes == Changes(ops) && IsPlan(r, realm, settings, items, ops))
  }

  /** Validates before any call; then every outcome carries the progress report. */
  method Reconcile(m: Manifest, url: UrlRules, server: Server, expected: Text, apply: bool, bootstrap: bool,
      ghost until: nat)
    returns (o: Outcome, ghost run: RunLog, ghost ops: seq<Operation>)
    modifies server
    ensures old(server.log) <= server.log
    ensures !ValidManifest(m, url) || m.realm.text != expected ==>
      server.log == old(server.log) && server.state == old(server.state) && o.Failed? && o.progress.None?
    ensures ValidManifest(m, url) && m.realm.text == expected ==>
      && old(server.log) < server.log && GuardedRun(server.log, |old(server.log)|, expected)
      && (!apply ==> ReadsFrom(server.log, |old(server.log)|))
      && (o.Failed? ==> o.progress.Some? && o.progress.value.applied == AckedFrom(server.log, |old(server.log)|))
      && (o.Done? ==> o.report.applied == AckedFrom(server.log, |old(server.log)|))
    ensures o.Done? ==>
      var created := Missing(server.log[|old(server.log)|]);
      && ValidManifest(m, url) && m.realm.text == expected && old(server.log) < server.log
      && o.report.changes
        == (if created then [Change(RealmSubject, expected, CreateObject, {RealmName})] else []) + Changes(ops)
      && (apply ==>
            WritesFrom(server.log, |old(server.log)|)
            == (if created then [BootstrapRequest(expected)] else []) + Writes(ops))
      && (apply ==> o.report.applied == |WritesFrom(server.log, |old(server.log)|)|)
    ensures
      && Steady(server.env) && ValidManifest(m, url) && m.realm.text == expected
      && WellFormedRealm(old(server.state), expected) ==>
      && server.state == AfterRun(old(server.state), run)
      && IsRun(old(server.state), expected, m.settings, Items(m), run, apply && o.Done?)
      && (!apply ==> server.state == old(server.state))
      && (o.Done? && expected in old(server.state) ==>
        IsPlan(old(server.state)[expected], expected, m.settings, Items(m), ops))
      && (o.Done? && expected in old(server.state) ==> !Missing(server.log[|old(server.log)|]))
      && (o.Failed? && expected in old(server.state) ==>
            StoppedShort(WritesFrom(server.log, |old(server.log)|), o.progress.value.changes, ops,
              old(server.state)[expected], expected, m.settings, Items(m)))
      && (o.Failed? && PlanPossible(old(server.state), expected, Items(m)) ==> RestFailure(o.code))
      && (CreatesProperly(server.env) ==> AllProper(run.writes))
      && (run.boot.Some? ==>
            old(server.tick) + 2 <= server.tick && run.boot.value.choice == server.env.choice(old(server.tick) + 1))
    ensures ValidManifest(m, url) && m.realm.text == expected ==> old(server.tick) < server.tick
    ensures
      && Steady(server.env) && ValidManifest(m, url) && m.realm.text == expected
        && WellFormedRealm(old(server.state), expected)
      && Startable(old(server.state), expected, Items(m), bootstrap && apply) && server.tick <= until
      && Fresh(server.env, old(server.tick), until, old(server.state), expected, Items(m)) ==>
        && Fresh(server.env, server.tick, until, server.state, expected, Items(m))
        && (o.Failed? ==> !Delivers(server.env, old(server.tick)))
  {
    hide GuardedRun, WritesFrom, AckedFrom, Missing, Writes, IsPlan, IsRun, Fresh, Startable, OnlyBootstraps,
      ItemsOk, SettingsOk, WellFormed, Steady, AllProper, CreatesProperly, Delivers, ValidSettings, ValidCollection,
      PlanPossible;
    run, ops := RunLog(None, []), [];
    var verdict := ValidateManifest(m, url);
    if verdict != Valid { return Failed(BadManifest(verdict), None), run, ops; }
    ManifestOk(m, url);
    if m.realm.text != expected { return Failed(RealmMismatch, None), run, ops; }
    var reconciler := new Reconciler(server, expected, m, apply);
    var r;
    ghost var planned;
    r, run, planned := reconciler.Execute(bootstrap, until);
    ops := reconciler.operations;
    var report := Report(apply, reconciler.changes, reconciler.applied);
    assert reconciler.BootstrapChange() == Change(RealmSubject, expected, CreateObject, {RealmName});
    o := if r.Success? then Done(report) else Failed(r.code, Some(report));
    if !planned && !Missing(server.log[|old(server.log)|]) {
      OnlyReadsUnlessMissing(server.log, |old(server.log)|, expected);
    }
    if !apply { ReadsSendNothing(server.log, |old(server.log)|); }
  }

  /** Deploying again and again: whatever was cut before, a run that returns leaves the
      manifest on the server, and nothing the manifest does not own has changed. If the realm
      can be planned or bootstrapped, calls are delivered from `settled` on, and the server creates
      properly and with new ids, more attempts than there are calls before that are enough. */
  method DeployUntilDone(m: Manifest, url: UrlRules, server: Server, attempts: nat, bootstrap: bool,
      ghost settled: nat, ghost until: nat)
    returns (o: Outcome)
    requires ValidManifest(m, url) && Steady(server.env) && WellFormedRealm(server.state, m.realm.text)
    modifies server
    ensures WellFormedRealm(server.state, m.realm.text)
    ensures Framed(old(server.state), server.state, m.realm.text, m.settings, Items(m))
    ensures o.Done? ==> Converged(server.state, m.realm.text, m.settings, Items(m))
    ensures
      && Startable(old(server.state), m.realm.text, Items(m), bootstrap) && CreatesProperly(server.env)
      && Fresh(server.env, old(server.tick), until, old(server.state), m.realm.text, Items(m)) && server.tick <= until
      && Delivers(server.env, settled) && attempts > 0 && attempts > settled - old(server.tick) ==>
        o.Done?
  {
    hide Steady, ValidSettings, ValidCollection, WellFormedRealm, Framed, Converged, IsRun, AfterRun, GuardedRun,
      RealmOk, Plannable, IsPlan, Fresh, Startable, AllProper, CreatesProperly;
    var realm := m.realm.text;
    ManifestOk(m, url);
    FramedReflexive(server.state, realm, m.settings, Items(m));
    o := Failed(RestTransportFailed, None);
    ghost var smooth := Startable(server.state, realm, Items(m), bootstrap) && CreatesProperly(server.env)
      && Fresh(server.env, server.tick, until, server.state, realm, Items(m));
    for i := 0 to attempts
      invariant WellFormedRealm(server.state, realm)
      invariant Framed(old(server.state), server.state, realm, m.settings, Items(m))
      invariant o.Failed?
      invariant old(server.tick) + i <= server.tick
      invariant smooth && server.tick <= until ==>
        && Startable(server.state, realm, Items(m), bootstrap)
        && Fresh(server.env, server.tick, until, server.state, realm, Items(m))
      invariant smooth && server.tick <= until && Delivers(server.env, settled) && i > 0 ==>
        old(server.tick) + i - 1 < settled
    {
      ghost var before, tick := server.state, server.tick;
      ghost var run, ops;
      o, run, ops := Reconcile(m, url, server, realm, true, bootstrap, until);
      RunIsFramed(before, realm, m.settings, Items(m), run, o.Done?);
      FramedTransitive(old(server.state), before, server.state, realm, m.settings, Items(m));
      if o.Done? {
        WholeRunConverges(before, realm, m.settings, Items(m), run);
        return;
      }
      if smooth && server.tick <= until {
        RunStaysStartable(server.env, tick, until, before, realm, m.settings, Items(m), run, bootstrap);
      }
      if tick >= settled && Delivers(server.env, settled) { DeliversLater(server.env, settled, tick); }
    }
  }

  /** From one stable state a plan and an apply report the same changes, and the apply
      sends exactly the operations that are not `unchanged`, in order. An apply that fails
      sent a first part of them, or stopped before it had planned anything. */
  method PlanThenApply(m: Manifest, url: UrlRules, server: Server)
    returns (plan: Outcome, done: Outcome, ghost ops: seq<Operation>)
    requires ValidManifest(m, url) && Steady(server.env)
    requires m.realm.text in server.state && WellFormed(server.state[m.realm.text].objects)
    modifies server
    ensures old(server.log) <= server.log
    ensures plan.Done? ==> plan.report.changes == Changes(ops) && plan.report.applied == 0
    ensures plan.Done? && done.Done? ==>
      && done.report.changes == Changes(ops) && done.report.applied == |Writes(ops)|
      && WritesFrom(server.log, |old(server.log)|) == Writes(ops)
      && Converged(server.state, m.realm.text, m.settings, Items(m))
    ensures plan.Done? && done.Failed? ==>
      && done.progress.Some?
      && var sent, changes := WritesFrom(server.log, |old(server.log)|), done.progress.value.changes;
      (sent == [] && changes == []) || (sent <= Writes(ops) && changes == Changes(ops))
  {
    hide Converged, IsRun, GuardedRun, RealmOk, Plannable, IsPlan, ValidSettings, ValidCollection, WellFormed,
      WritesFrom, AckedFrom, Writes, Fresh, Startable, Steady, AfterRun, Missing;
    var realm := m.realm.text;
    ghost var s, run, more := server.state, RunLog(None, []), [];
    ghost var k := |server.log|;
    assert WellFormedRealm(s, realm);
    ManifestOk(m, url);
    plan, run, ops := Reconcile(m, url, server, realm, false, false, 0);
    ghost var log1 := server.log;
    done, run, more := Reconcile(m, url, server, realm, true, false, 0);
    if plan.Done? {
      ReadsSendNothing(log1, k);
      LogSplits(server.log, k, |log1|);
      assert server.log[..|log1|] == log1;
      if IsPlan(s[realm], realm, m.settings, Items(m), more) {
        PlanIsUnique(s[realm], realm, m.settings, Items(m), ops, more);
      }
      if done.Done? { WholeRunConverges(s, realm, m.settings, Items(m), run); }
    }
  }

  lemma PlanIsUnique(r: Realm, realm: Text, settings: Rep, items: seq<Item>, a: seq<Operation>, b: seq<Operation>)
    requires IsPlan(r, realm, settings, items, a) && IsPlan(r, realm, settings, items, b)
    ensures a == b
  {
    forall i | 0 <= i < |a| ensures a[i] == b[i] {
      if i > 0 { assert a[1..][i - 1] == a[i] && b[1..][i - 1] == b[i]; }
    }
  }
}
