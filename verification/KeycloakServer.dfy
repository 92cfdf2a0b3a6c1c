/** The Keycloak Admin REST surface the reconciler talks to: realms holding
    objects, GET reads, POST creates, PUT merges. Around it an environment that
    may lose or garble any call, let a lost write commit, and replace the whole
    server state between calls. */
module KeycloakServer {
  import opened Options
  import opened JsText
  import opened RealmManifest

  datatype Entry = Entry(kind: Kind, rep: Rep)
  datatype Realm = Realm(rep: Rep, objects: seq<Entry>)
  type State = map<Text, Realm>

  datatype Key = ById(id: Value) | ByName(name: Text)
  datatype Path = Realms | Root(realm: Text) | Collection(realm: Text, kind: Kind)
    | ClientQuery(realm: Text, clientId: Text) | Member(realm: Text, kind: Kind, key: Key)

  datatype Verb = GET | POST | PUT
  datatype Request = Request(verb: Verb, path: Path, body: Rep)
  datatype Body = Nothing | One(rep: Rep) | Many(reps: seq<Rep>)
  datatype Response = Response(status: int, body: Body)

  predicate IsWrite(q: Request) { q.verb != GET }

  type WriteRequest = q: Request | IsWrite(q) witness Request(POST, Realms, map[])

  function GetRequest(path: Path): Request { Request(GET, path, map[]) }

  /** What the server makes up when it creates: defaults and id of a new object,
      or a new realm with its default objects. */
  datatype Choice = Choice(scope: Rep, role: Rep, client: Rep, realm: Realm)

  /** The fields a new object of a kind shows before the body is laid over them. */
  function MadeUp(kind: Kind, c: Choice): Rep {
    match kind case ClientScope => c.scope case RealmRole => c.role case Client => c.client
  }
  datatype Served = Served(state: State, response: Response)

  // ---------- lookups ----------

  predicate Named(e: Entry, kind: Kind, name: Text) {
    e.kind == kind && Get(e.rep, IdentityField(kind)) == Some(Str(name))
  }

  predicate Hit(e: Entry, kind: Kind, key: Key) {
    match key
    case ById(id) => e.kind == kind && Get(e.rep, Id) == Some(id)
    case ByName(name) => Named(e, kind, name)
  }

  /** The objects of a kind carrying a name, in server order. */
  function Matches(objects: seq<Entry>, kind: Kind, name: Text): seq<Rep> {
    if objects == [] then []
    else
      var last := objects[|objects| - 1];
      Matches(objects[..|objects| - 1], kind, name) + (if Named(last, kind, name) then [last.rep] else [])
  }

  function OfKind(objects: seq<Entry>, kind: Kind): seq<Rep> {
    if objects == [] then []
    else
      var last := objects[|objects| - 1];
      OfKind(objects[..|objects| - 1], kind) + (if last.kind == kind then [last.rep] else [])
  }

  function Find(objects: seq<Entry>, kind: Kind, key: Key): Option<Rep> {
    if objects == [] then None
    else if Hit(objects[0], kind, key) then Some(objects[0].rep)
    else Find(objects[1..], kind, key)
  }

  /** PUT merges the body into the object it addresses and leaves the rest alone. */
  function Merge(objects: seq<Entry>, kind: Kind, key: Key, body: Rep): seq<Entry> {
    seq(|objects|, i requires 0 <= i < |objects| =>
      if Hit(objects[i], kind, key) then Entry(kind, objects[i].rep + body) else objects[i])
  }

  predicate Conflicts(objects: seq<Entry>, added: Entry) {
    exists i :: 0 <= i < |objects| && objects[i].kind == added.kind &&
      (Get(objects[i].rep, Id) == Get(added.rep, Id) ||
       Get(objects[i].rep, IdentityField(added.kind)) == Get(added.rep, IdentityField(added.kind)))
  }

  // ---------- one request ----------

  function First<T>(s: seq<T>, n: nat): seq<T> { if |s| <= n then s else s[..n] }

  function Read(s: State, path: Path): Response {
    match path
    case Realms => Response(405, Nothing)
    case Root(r) => if r in s then Response(200, One(s[r].rep)) else Response(404, Nothing)
    case Collection(r, kind) =>
      if r in s then Response(200, Many(OfKind(s[r].objects, kind))) else Response(404, Nothing)
    case ClientQuery(r, id) =>
      if r in s then Response(200, Many(First(Matches(s[r].objects, Client, id), 2))) else Response(404, Nothing)
    case Member(r, kind, key) =>
      if r in s && Find(s[r].objects, kind, key).Some?
      then Response(200, One(Find(s[r].objects, kind, key).value)) else Response(404, Nothing)
  }

  function Create(s: State, path: Path, body: Rep, c: Choice): Served {
    match path
    case Realms =>
      var n := Get(body, RealmName);
      if n.Some? && n.value.Str? && n.value.text !in s
      then Served(s[n.value.text := Realm(c.realm.rep + body, c.realm.objects)], Response(201, Nothing))
      else Served(s, Response(409, Nothing))
    case Collection(r, kind) =>
      var added := Entry(kind, MadeUp(kind, c) + body);
      if r !in s then Served(s, Response(404, Nothing))
      else if Conflicts(s[r].objects, added) then Served(s, Response(409, Nothing))
      else Served(s[r := Realm(s[r].rep, s[r].objects + [added])], Response(201, Nothing))
    case _ => Served(s, Response(405, Nothing))
  }

  function Update(s: State, path: Path, body: Rep): Served {
    match path
    case Root(r) =>
      if r in s then Served(s[r := Realm(s[r].rep + body, s[r].objects)], Response(204, Nothing))
      else Served(s, Response(404, Nothing))
    case Member(r, kind, key) =>
      if r in s && Find(s[r].objects, kind, key).Some?
      then Served(s[r := Realm(s[r].rep, Merge(s[r].objects, kind, key, body))], Response(204, Nothing))
      else Served(s, Response(404, Nothing))
    case _ => Served(s, Response(405, Nothing))
  }

  function Serve(s: State, q: Request, c: Choice): Served {
    match q.verb
    case GET => Served(s, Read(s, q.path))
    case POST => Create(s, q.path, q.body, c)
    case PUT => Update(s, q.path, q.body)
  }

  function ExpectedStatus(m: Verb): int {
    match m case GET => 200 case POST => 201 case PUT => 204
  }

  /** Refused writes change nothing. */
  lemma RefusedLeavesState(s: State, q: Request, c: Choice)
    ensures Serve(s, q, c).response.status != ExpectedStatus(q.verb) ==> Serve(s, q, c).state == s
  {
  }

  // ---------- the environment ----------

  datatype Fault = Deliver | Lose(committed: bool) | Reply(response: Response, committed: bool)

  /** For the n-th call: what happens to it, what the server would make up, and
      the state another party left behind just before it. */
  datatype Environment = Environment(fault: nat -> Fault, choice: nat -> Choice, meddle: nat -> Option<State>)

  /** Nobody else writes and the server never lies; calls may still fail at any
      point, and a failed write may have committed. */
  ghost predicate Quiet(env: Environment) {
    forall n: nat :: env.meddle(n).None? &&
      (env.fault(n).Reply? ==> env.fault(n).response.status !in {200, 201, 204, 404})
  }

  datatype Event = Event(request: Request, response: Option<Response>)

  predicate Acknowledged(e: Event) {
    IsWrite(e.request) && e.response.Some? && e.response.value.status == ExpectedStatus(e.request.verb)
  }

  class Server {
    var state: State
    var tick: nat
    ghost var log: seq<Event>
    const env: Environment

    constructor (state: State, env: Environment)
      ensures this.state == state && this.env == env && tick == 0 && log == []
    {
      this.state, this.env, tick, log := state, env, 0, [];
    }

    /** One adapter call; `None` is a transport exception. */
    method Request(q: Request) returns (r: Option<Response>)
      modifies this
      ensures tick == old(tick) + 1
      ensures log == old(log) + [Event(q, r)]
      ensures
        var before := if env.meddle(old(tick)).Some? then env.meddle(old(tick)).value else old(state);
        var served := Serve(before, q, env.choice(old(tick)));
        match env.fault(old(tick))
        case Deliver => r == Some(served.response) && state == served.state
        case Lose(committed) => r == None && state == (if committed then served.state else before)
        case Reply(response, committed) => r == Some(response) && state == (if committed then served.state else before)
    {
      var before := if env.meddle(tick).Some? then env.meddle(tick).value else state;
      var served := Serve(before, q, env.choice(tick));
      match env.fault(tick) {
        case Deliver => r, state := Some(served.response), served.state;
        case Lose(committed) => r, state := None, if committed then served.state else before;
        case Reply(response, committed) => r, state := Some(response), if committed then served.state else before;
      }
      log := log + [Event(q, r)];
      tick := tick + 1;
    }
  }
}
