/** Placing an operation's request schema in the OpenAPI document, with its local references. */
module SchemaEmbedding {
  import opened Options
  import opened JsonSchema
  import opened JsonPointer
  import Delimited
  import Sequences

  // ---------- rewriting ----------

  const LITERAL_KEYS := {"default", "const", "enum", "examples", "example"}

  /** `#`, or `#/` and more */
  predicate LocalReference(v: Json) { v.Str?
      && (v.text == "#" || (|v.text| > 1 && v.text[0] == '#' && v.text[1] == '/')) }

  function Rewrite(v: Json, location: string): Json {
    match v
    case Arr(items) => Arr(seq(|items|, i requires 0 <= i < |items| => Rewrite(items[i], location)))
    case Obj(members) => Obj(map key | key in members ::
      if key == "$ref" && LocalReference(members[key]) then Str(location + members[key].text[1..])
      else if key in LITERAL_KEYS then members[key]
      else Rewrite(members[key], location))
    case _ => v
  }

  function RewriteFound(found: Option<Json>, location: string): Option<Json> {
    if found.None? then None else Some(Rewrite(found.value, location))
  }

  predicate AvoidsLiterals(tokens: seq<string>) { forall i :: 0 <= i < |tokens| ==> tokens[i] !in LITERAL_KEYS }

  /** What the tokens find is the text of a local reference, not a schema; a property called `$ref`
      that holds a schema is none. */
  predicate NamesReference(v: Json, tokens: seq<string>) {
    tokens != [] && tokens[|tokens| - 1] == "$ref"
      && Resolve(v, tokens).Some? && LocalReference(Resolve(v, tokens).value)
  }

  /** Off the literal data, a pointer finds the rewriting of what it found before. */
  lemma {:induction false} ResolveRewritten(v: Json, tokens: seq<string>, location: string)
    requires AvoidsLiterals(tokens) && !NamesReference(v, tokens)
    ensures Resolve(Rewrite(v, location), tokens) == RewriteFound(Resolve(v, tokens), location)
    decreases |tokens|
  {
    if tokens != [] {
      var rest := tokens[1..];
      assert rest != [] ==> rest[|rest| - 1] == tokens[|tokens| - 1];
      match v {
        case Obj(members) =>
          if tokens[0] in members {
            ResolveRewritten(members[tokens[0]], rest, location);
          }
        case Arr(items) =>
          var index := ArrayIndex(tokens[0]);
          if index.Some? && index.value < |items| { ResolveRewritten(items[index.value], rest, location); }
        case _ =>
      }
    }
  }

  /** Nothing else is rewritten: texts and scalars stay, lists keep their length, objects their
      members. */
  lemma RewriteKeepsShape(v: Json, location: string)
    ensures v.Str? || v.Scalar? ==> Rewrite(v, location) == v
    ensures v.Arr? ==> Rewrite(v, location).Arr? && |Rewrite(v, location).items| == |v.items|
    ensures v.Obj? ==> Rewrite(v, location).Obj? && Rewrite(v, location).members.Keys == v.members.Keys
  {
  }

  /** Into the literal data, a pointer finds exactly what was there. */
  lemma {:induction false} ResolveLiteral(v: Json, tokens: seq<string>, n: nat, location: string)
    requires n < |tokens| && tokens[n] in LITERAL_KEYS && AvoidsLiterals(tokens[..n])
    ensures Resolve(Rewrite(v, location), tokens) == Resolve(v, tokens)
    decreases n
  {
    var rest := tokens[1..];
    match v {
      case Obj(members) =>
        if tokens[0] in members && n > 0 {
          assert tokens[..n][1..] == rest[..n - 1] && tokens[..n][0] == tokens[0];
          ResolveLiteral(members[tokens[0]], rest, n - 1, location);
        }
      case Arr(items) =>
        var index := ArrayIndex(tokens[0]);
        if n > 0 && index.Some? && index.value < |items| {
          assert tokens[..n][1..] == rest[..n - 1];
          ResolveLiteral(items[index.value], rest, n - 1, location);
        }
      case _ =>
    }
  }

  /** A local reference off the literal data is moved below the location. */
  lemma ReferenceRewritten(v: Json, tokens: seq<string>, text: string, location: string)
    requires AvoidsLiterals(tokens)
    requires Resolve(v, tokens).Some? && Resolve(v, tokens).value.Obj?
    requires "$ref" in Resolve(v, tokens).value.members && Resolve(v, tokens).value.members["$ref"] == Str(text)
    ensures Resolve(Rewrite(v, location), tokens + ["$ref"])
         == Some(Str(if LocalReference(Str(text)) then location + text[1..] else text))
  {
    hide Rewrite;
    ResolveRewritten(v, tokens, location);
    ResolveSplit(Rewrite(v, location), tokens, ["$ref"]);
    RewriteReference(Resolve(v, tokens).value.members, text, location);
  }

  lemma RewriteReference(members: map<string, Json>, text: string, location: string)
    requires "$ref" in members && members["$ref"] == Str(text)
    ensures Resolve(Rewrite(Obj(members), location), ["$ref"])
         == Some(Str(if LocalReference(Str(text)) then location + text[1..] else text))
  {
    var rewritten := Rewrite(Obj(members), location).members;
    ResolveStep(rewritten, "$ref", []);
    assert ["$ref"] + [] == ["$ref"];
  }

  /** The node a local reference names from a root. */
  function Follow(root: Json, reference: string): Option<Json> {
    if reference == "" || reference[0] != '#' then None else
    var tokens := Tokens(reference[1..]);
    if tokens.None? then None else Resolve(root, tokens.value)
  }

  lemma ReferenceIsPointer(reference: string)
    requires LocalReference(Str(reference))
    ensures StartsToken(reference[1..])
  {
  }

  /** A schema sits at `place`; a rewritten reference names the rewriting of what it named. */
  lemma EmbeddedReferenceResolves(root: Json, place: seq<string>, schema: Json, reference: string)
    requires Resolve(root, place) == Some(Rewrite(schema, "#" + PointerText(place)))
    requires LocalReference(Str(reference))
    requires var tokens := Tokens(reference[1..]); tokens.Some? ==>
      AvoidsLiterals(tokens.value) && !NamesReference(schema, tokens.value)
    ensures Follow(root, "#" + PointerText(place) + reference[1..])
      == RewriteFound(Follow(schema, reference), "#" + PointerText(place))
  {
    hide Rewrite, Resolve, PointerText, AvoidsLiterals, NamesReference, Tokens;
    var location, pointer := "#" + PointerText(place), reference[1..];
    ReferenceIsPointer(reference);
    PointerParses(place, pointer);
    assert (location + pointer)[1..] == PointerText(place) + pointer;
    if Tokens(pointer).Some? {
      ResolveSplit(root, place, Tokens(pointer).value);
      ResolveRewritten(schema, Tokens(pointer).value, location);
    }
  }

  // ---------- the document ----------

  datatype Verb = Get | Post | Put | Patch | Delete
  function VerbText(v: Verb): string {
    match v case Get => "get" case Post => "post" case Put => "put" case Patch => "patch" case Delete => "delete"
  }

  /** A route is a list of segments; a parameter is written `:name` by authors, `{name}` here. */
  datatype Segment = Literal(text: string) | Parameter(name: string)

  /** `idempotency`: the input field carried by a header; `members`: everything else of the
      operation object. */
  datatype Operation = Operation(
    path: seq<Segment>, verb: Verb, input: map<string, Json>, idempotency: Option<string>, members: map<string, Json>)

  function RouteOf(path: seq<Segment>): string {
    if path == [] then ""
    else RouteOf(path[..|path| - 1]) + "/" + SegmentText(path[|path| - 1])
  }

  function SegmentText(segment: Segment): string {
    match segment case Literal(text) => text case Parameter(name) => "{" + name + "}"
  }

  function Route(op: Operation): string { RouteOf(op.path) }

  predicate SlashFree(segment: Segment) {
    '/' !in (if segment.Literal? then segment.text else segment.name)
  }

  /** A literal shows itself, a parameter its name in braces. */
  predicate Shows(text: string, segment: Segment) {
    text == if segment.Literal? then segment.text else "{" + segment.name + "}"
  }

  /** Between its slashes a route shows the authored segments. */
  lemma {:induction false} RouteShowsSegments(path: seq<Segment>)
    requires forall i :: 0 <= i < |path| ==> SlashFree(path[i])
    ensures var parts := Delimited.Split(RouteOf(path), '/');
      |parts| == |path| + 1 && parts[0] == "" && forall i :: 0 <= i < |path| ==> Shows(parts[i + 1], path[i])
  {
    hide Delimited.Split, Delimited.Join, Delimited.AllFree, SegmentText, SlashFree, Shows;
    if path == [] {
      Delimited.SplitCons("", "", '/');
    } else {
      var n := |path| - 1;
      SegmentShows(path[n]);
      RouteEnds(path);
      hide RouteOf;
      RouteShowsSegments(path[..n]);
    }
  }

  lemma SegmentShows(segment: Segment)
    requires SlashFree(segment)
    ensures '/' !in SegmentText(segment) && Shows(SegmentText(segment), segment)
  {
  }

  lemma RouteEnds(path: seq<Segment>)
    requires path != [] && '/' !in SegmentText(path[|path| - 1])
    ensures Delimited.Split(RouteOf(path), '/')
      == Delimited.Split(RouteOf(path[..|path| - 1]), '/') + [SegmentText(path[|path| - 1])]
  {
    var front, text := RouteOf(path[..|path| - 1]), SegmentText(path[|path| - 1]);
    assert RouteOf(path) == front + "/" + text;
    hide Delimited.Split, Delimited.Join, Delimited.AllFree, Delimited.First, SegmentText, RouteOf;
    Sequences.Associate(front, "/", text);
    Delimited.SplitAppend(front, text, '/');
    Delimited.SplitCons(text, "", '/');
  }

  /** The field travels in the route or in the idempotency header. */
  predicate Moved(op: Operation, name: string) { Parameter(name) in op.path || Some(name) == op.idempotency }

  function Properties(op: Operation): map<string, Json> {
    if "properties" in op.input && op.input["properties"].Obj? then op.input["properties"].members else map[]
  }

  function BodyProperties(op: Operation): map<string, Json> {
    map name | name in Properties(op) && !Moved(op, name) :: Properties(op)[name]
  }

  /** The body's properties are the input's, without route parameters and the idempotency field. */
  lemma BodyHoldsOtherFields(op: Operation, name: string)
    requires "properties" in op.input && op.input["properties"].Obj?
    ensures "properties" in BodySchema(op) && BodySchema(op)["properties"].Obj?
    ensures var before, after := op.input["properties"].members, BodySchema(op)["properties"].members;
      && (name in after <==> name in before && Parameter(name) !in op.path && op.idempotency != Some(name))
      && (name in after ==> after[name] == before[name])
  {
  }

  /** The required names left for the body, each once. */
  function BodyRequired(op: Operation, names: seq<Json>): seq<Json> {
    if names == [] then []
    else
      var front, last := BodyRequired(op, names[..|names| - 1]), names[|names| - 1];
      if last in front || (last.Str? && Moved(op, last.text)) then front else front + [last]
  }

  function RequiredNames(op: Operation): seq<Json> {
    if "required" in op.input && op.input["required"].Arr? then op.input["required"].items else []
  }

  function BodySchema(op: Operation): map<string, Json> {
    var base := (op.input - {"required"})["properties" := Obj(BodyProperties(op))];
    var required := BodyRequired(op, RequiredNames(op));
    if required == [] then base else base["required" := Arr(required)]
  }

  /** The input schema requires the name, and it travels neither in the route nor in the header. */
  predicate Asked(op: Operation, v: Json) {
    && "required" in op.input && op.input["required"].Arr? && v in op.input["required"].items
    && (v.Str? ==> Parameter(v.text) !in op.path && op.idempotency != Some(v.text))
  }

  lemma {:induction false} BodyRequiredMeans(op: Operation, names: seq<Json>)
    ensures var left := BodyRequired(op, names);
      && (forall v :: v in left <==>
            v in names && (v.Str? ==> Parameter(v.text) !in op.path && op.idempotency != Some(v.text)))
      && forall i, j :: 0 <= i < j < |left| ==> left[i] != left[j]
  {
    if names != [] {
      var front, last := names[..|names| - 1], names[|names| - 1];
      BodyRequiredMeans(op, front);
      assert names == front + [last];
    }
  }

  /** The body requires exactly what the input asks for and neither the route nor the header
      carries, each name once; where nothing is left there is no such member, and the request
      body itself is required exactly when something is. */
  lemma BodyRequiresWhatIsAsked(op: Operation)
    ensures "required" in BodySchema(op) <==> exists v :: Asked(op, v)
    ensures "required" in BodySchema(op) ==>
      && BodySchema(op)["required"].Arr?
      && var items := BodySchema(op)["required"].items;
      && (forall v :: v in items <==> Asked(op, v)) && forall i, j :: 0 <= i < j < |items| ==> items[i] != items[j]
    ensures RequestBody(op).members["required"] == Scalar(if exists v :: Asked(op, v) then "true" else "false")
  {
    hide BodyRequired, Rewrite, Location;
    var left := BodyRequired(op, RequiredNames(op));
    BodyRequiredMeans(op, RequiredNames(op));
    forall v ensures v in left <==> Asked(op, v) {
    }
    if left != [] { assert Asked(op, left[0]); }
  }

  /** All else of the body schema is the input schema's. */
  lemma BodyKeepsOtherMembers(op: Operation, key: string)
    requires key != "required" && key != "properties"
    ensures key in BodySchema(op) <==> key in op.input
    ensures key in op.input ==> BodySchema(op)[key] == op.input[key]
  {
  }

  /** A request body is described exactly for the verbs that write with one. */
  lemma BodyByVerb(op: Operation)
    ensures op.verb in {Get, Delete} ==> OperationObject(op) == Obj(op.members)
    ensures op.verb in {Post, Put, Patch} ==> OperationObject(op) == Obj(op.members["requestBody" := RequestBody(op)])
  {
  }

  predicate HasBody(op: Operation) { !op.verb.Get? && !op.verb.Delete? }

  function Place(op: Operation): seq<string> {
    ["paths", Route(op), VerbText(op.verb), "requestBody", "content", "application/json", "schema"]
  }

  /** The location as the generator spells it. */
  function Location(op: Operation): string {
    "#/paths/" + Escape(Route(op)) + "/" + VerbText(op.verb)
      + ("/requestBody" + ("/content" + ("/application~1json" + "/schema")))
  }

  function Media(op: Operation): Json { Obj(map["schema" := Rewrite(Obj(BodySchema(op)), Location(op))]) }

  function RequestBody(op: Operation): Json {
    Obj(map[
      "required" := Scalar(if BodyRequired(op, RequiredNames(op)) != [] then "true" else "false"),
      "content" := Obj(map["application/json" := Media(op)])])
  }

  function OperationObject(op: Operation): Json {
    Obj(if HasBody(op) then op.members["requestBody" := RequestBody(op)] else op.members)
  }

  type Paths = map<string, map<string, Json>>
  datatype Result = Built(paths: Paths) | Duplicate(verb: Verb, route: string)

  function Under(paths: Paths, route: string): map<string, Json> { if route in paths then paths[route] else map[] }

  function PathsOf(ops: seq<Operation>): Result {
    if ops == [] then Built(map[])
    else
      var front, op := PathsOf(ops[..|ops| - 1]), ops[|ops| - 1];
      if front.Duplicate? then front
      else if VerbText(op.verb) in Under(front.paths, Route(op)) then Duplicate(op.verb, Route(op))
      else Built(front.paths[Route(op) := Under(front.paths, Route(op))[VerbText(op.verb) := OperationObject(op)]])
  }

  lemma {:induction false} DuplicateStays(ops: seq<Operation>, n: nat)
    requires n <= |ops| && PathsOf(ops[..n]).Duplicate?
    ensures PathsOf(ops) == PathsOf(ops[..n])
    decreases |ops|
  {
    if n < |ops| {
      assert ops[..|ops| - 1][..n] == ops[..n];
      DuplicateStays(ops[..|ops| - 1], n);
    } else {
      assert ops[..n] == ops;
    }
  }

  method OperationOpenApiPaths(ops: seq<Operation>) returns (r: Result)
    ensures r == PathsOf(ops)
  {
    var paths: Paths := map[];
    for i := 0 to |ops|
      invariant PathsOf(ops[..i]) == Built(paths)
    {
      var op := ops[i];
      assert ops[..i + 1][..i] == ops[..i];
      var under := if Route(op) in paths then paths[Route(op)] else map[];
      if VerbText(op.verb) in under {
        DuplicateStays(ops, i + 1);
        return Duplicate(op.verb, Route(op));
      }
      paths := paths[Route(op) := under[VerbText(op.verb) := OperationObject(op)]];
    }
    assert ops[..|ops|] == ops;
    r := Built(paths);
  }

  predicate SamePlace(a: Operation, b: Operation) { Route(a) == Route(b) && a.verb == b.verb }

  predicate Distinct(ops: seq<Operation>) { forall i, j :: 0 <= i < j < |ops| ==> !SamePlace(ops[i], ops[j]) }

  predicate Holds(paths: Paths, op: Operation) {
    Route(op) in paths && VerbText(op.verb) in paths[Route(op)]
      && paths[Route(op)][VerbText(op.verb)] == OperationObject(op)
  }

  lemma VerbTextSeparates(a: Verb, b: Verb)
    ensures VerbText(a) == VerbText(b) <==> a == b
    ensures '/' !in VerbText(a) && '~' !in VerbText(a)
  {
    assert VerbText(a)[..2] == VerbText(b)[..2] ==> VerbText(a)[1] == VerbText(b)[1];
  }

  ghost predicate OnlyFrom(paths: Paths, ops: seq<Operation>) {
    forall route, verb | verb in Under(paths, route) :: exists i :: 0 <= i < |ops| && At(ops[i], route, verb)
  }

  predicate At(op: Operation, route: string, verb: string) { Route(op) == route && VerbText(op.verb) == verb }

  /** Nothing but the operations' objects, and all of them. */
  ghost predicate Complete(paths: Paths, ops: seq<Operation>) {
    OnlyFrom(paths, ops) && forall i :: 0 <= i < |ops| ==> Holds(paths, ops[i])
  }

  lemma NothingComplete()
    ensures Complete(map[], []) && Distinct([])
  {
  }

  lemma DistinctFront(front: seq<Operation>, op: Operation)
    ensures Distinct(front + [op]) ==> Distinct(front)
  {
    if Distinct(front + [op]) {
      forall i, j | 0 <= i < j < |front| ensures !SamePlace(front[i], front[j]) {
        assert (front + [op])[i] == front[i] && (front + [op])[j] == front[j];
      }
    }
  }

  lemma TakenPlace(before: Paths, front: seq<Operation>, op: Operation)
    requires Complete(before, front) && VerbText(op.verb) in Under(before, Route(op))
    ensures !Distinct(front + [op])
  {
    hide OperationObject, RouteOf;
    var i :| 0 <= i < |front| && At(front[i], Route(op), VerbText(op.verb));
    VerbTextSeparates(front[i].verb, op.verb);
    assert SamePlace((front + [op])[i], (front + [op])[|front|]);
  }

  /** The document is built exactly when no two operations share route and method, and then
      it holds every operation's object and nothing else. */
  lemma {:induction false} PathsHoldAll(ops: seq<Operation>)
    ensures PathsOf(ops).Built? <==> Distinct(ops)
    ensures PathsOf(ops).Built? ==> Complete(PathsOf(ops).paths, ops)
  {
    hide OperationObject, RouteOf, Route, VerbText, Complete, Distinct;
    if ops == [] {
      NothingComplete();
    } else {
      var front, op := ops[..|ops| - 1], ops[|ops| - 1];
      assert front + [op] == ops;
      PathsHoldAll(front);
      DistinctFront(front, op);
      if PathsOf(front).Built? {
        var before := PathsOf(front).paths;
        if VerbText(op.verb) in Under(before, Route(op)) {
          TakenPlace(before, front, op);
        } else {
          NewPlace(before, front, op);
        }
      }
    }
  }

  lemma NewPlace(before: Paths, front: seq<Operation>, op: Operation)
    requires Complete(before, front) && Distinct(front) && VerbText(op.verb) !in Under(before, Route(op))
    ensures Distinct(front + [op])
    ensures Complete(before[Route(op) := Under(before, Route(op))[VerbText(op.verb) := OperationObject(op)]],
      front + [op])
  {
    hide OperationObject;
    var ops, n := front + [op], |front|;
    var after := before[Route(op) := Under(before, Route(op))[VerbText(op.verb) := OperationObject(op)]];
    forall i | 0 <= i < n ensures !SamePlace(ops[i], op) && Holds(after, ops[i]) {
      assert Holds(before, front[i]);
      VerbTextSeparates(front[i].verb, op.verb);
    }
    forall i, j | 0 <= i < j < |ops| ensures !SamePlace(ops[i], ops[j]) {
      if j < n { assert !SamePlace(front[i], front[j]); }
    }
    forall route, verb | verb in Under(after, route) ensures exists i :: 0 <= i < |ops| && At(ops[i], route, verb) {
      if verb in Under(before, route) {
        var i :| 0 <= i < n && At(front[i], route, verb);
        assert At(ops[i], route, verb);
      } else {
        assert At(ops[n], route, verb);
      }
    }
  }

  /** The document around the paths. */
  function Document(paths: Paths, rest: map<string, Json>): Json {
    Obj(rest["paths" := Obj(map route | route in paths :: Obj(paths[route]))])
  }

  // ---------- references in the document ----------

  lemma PlainStep(token: string, rest: seq<string>)
    requires '/' !in token && '~' !in token
    ensures PointerText([token] + rest) == "/" + token + PointerText(rest)
  {
    hide Escape;
    EscapePlain(token);
    assert ([token] + rest)[1..] == rest;
  }

  lemma MediaTypeEscapes()
    ensures Escape("application/json") == "application~1json"
  {
    hide Escape;
    EscapePlain("application");
    EscapePlain("json");
    EscapeStep("/json");
    EscapeAppend("application", "/json");
    assert "/json"[1..] == "json" && "application" + "/json" == "application/json";
    assert "application" + ("~1" + "json") == "application~1json";
  }

  lemma EmptyPointer()
    ensures PointerText([]) == ""
  {
  }

  lemma PointerStep(token: string, rest: seq<string>)
    ensures PointerText([token] + rest) == "/" + Escape(token) + PointerText(rest)
  {
    hide Escape;
    assert ([token] + rest)[1..] == rest;
  }

  lemma ContentText()
    ensures PointerText(["requestBody", "content", "application/json", "schema"])
         == "/requestBody" + ("/content" + ("/application~1json" + "/schema"))
  {
    hide Escape, PointerText;
    PlainStep("schema", []);
    EmptyPointer();
    MediaTypeEscapes();
    PointerStep("application/json", ["schema"] + []);
    PlainStep("content", ["application/json"] + (["schema"] + []));
    PlainStep("requestBody", ["content"] + (["application/json"] + (["schema"] + [])));
    assert ["requestBody"] + (["content"] + (["application/json"] + (["schema"] + [])))
        == ["requestBody", "content", "application/json", "schema"];
    assert "/" + "requestBody" == "/requestBody" && "/" + "content" == "/content";
    assert "/" + "application~1json" == "/application~1json" && "/" + "schema" + "" == "/schema";
  }

  lemma LocationIsPlace(op: Operation)
    ensures Location(op) == "#" + PointerText(Place(op))
  {
    hide Escape, PointerText, VerbText;
    var tail := ["requestBody", "content", "application/json", "schema"];
    VerbTextSeparates(op.verb, op.verb);
    ContentText();
    PlainStep(VerbText(op.verb), tail);
    PointerStep(Route(op), [VerbText(op.verb)] + tail);
    PlainStep("paths", [Route(op)] + ([VerbText(op.verb)] + tail));
    assert Place(op) == ["paths"] + ([Route(op)] + ([VerbText(op.verb)] + tail));
    var text := PointerText(tail);
    assert "#/paths/" + Escape(Route(op)) + "/" + VerbText(op.verb) + text
        == "#" + ("/" + "paths" + ("/" + Escape(Route(op)) + ("/" + VerbText(op.verb) + text)));
  }

  lemma SchemaIsAtPlace(ops: seq<Operation>, rest: map<string, Json>, i: nat)
    requires PathsOf(ops).Built? && i < |ops| && HasBody(ops[i])
    ensures Resolve(Document(PathsOf(ops).paths, rest), Place(ops[i]))
      == Some(Rewrite(Obj(BodySchema(ops[i])), Location(ops[i])))
  {
    hide Rewrite, Resolve, BodySchema, PathsOf, Location, BodyRequired, RequiredNames, VerbText;
    PathsHoldAll(ops);
    var op, paths := ops[i], PathsOf(ops).paths;
    assert Holds(paths, op);
    var verb := VerbText(op.verb);
    var t6 := ["schema"] + [];
    var t5 := ["application/json"] + t6;
    var t4 := ["content"] + t5;
    var t3 := ["requestBody"] + t4;
    var t2 := [verb] + t3;
    var t1 := [Route(op)] + t2;
    ResolveHere(Rewrite(Obj(BodySchema(op)), Location(op)));
    ResolveStep(Media(op).members, "schema", []);
    ResolveStep(RequestBody(op).members["content"].members, "application/json", t6);
    ResolveStep(RequestBody(op).members, "content", t5);
    ResolveStep(OperationObject(op).members, "requestBody", t4);
    ResolveStep(paths[Route(op)], verb, t3);
    ResolveStep(Document(paths, rest).members["paths"].members, Route(op), t2);
    ResolveStep(Document(paths, rest).members, "paths", t1);
    assert Place(op) == ["paths"] + t1;
  }

  /** Every local reference of a body schema, off the literal data, is moved below the schema's
      place, and from the document root names the rewriting of the node it named before. */
  lemma DocumentReferencesResolve(ops: seq<Operation>, rest: map<string, Json>, i: nat, at: seq<string>,
      reference: string)
    requires PathsOf(ops).Built? && i < |ops| && HasBody(ops[i])
    requires AvoidsLiterals(at) && LocalReference(Str(reference))
    requires var holder := Resolve(Obj(BodySchema(ops[i])), at);
      holder.Some? && holder.value.Obj? && "$ref" in holder.value.members
        && holder.value.members["$ref"] == Str(reference)
    requires var tokens := Tokens(reference[1..]); tokens.Some? ==>
      AvoidsLiterals(tokens.value) && !NamesReference(Obj(BodySchema(ops[i])), tokens.value)
    ensures var root, op := Document(PathsOf(ops).paths, rest), ops[i];
      && Resolve(root, Place(op) + (at + ["$ref"])) == Some(Str(Location(op) + reference[1..]))
      && Follow(root, Location(op) + reference[1..])
        == RewriteFound(Follow(Obj(BodySchema(op)), reference), Location(op))
  {
    var root, op := Document(PathsOf(ops).paths, rest), ops[i];
    SchemaIsAtPlace(ops, rest, i);
    LocationIsPlace(op);
    ReferenceRewritten(Obj(BodySchema(op)), at, reference, Location(op));
    ResolveSplit(root, Place(op), at + ["$ref"]);
    EmbeddedReferenceResolves(root, Place(op), Obj(BodySchema(op)), reference);
  }

  // ---------- into the literal data ----------

  /** A reference to literal data names that data as it was. */
  lemma EmbeddedLiteralResolves(root: Json, place: seq<string>, schema: Json, reference: string)
    requires Resolve(root, place) == Some(Rewrite(schema, "#" + PointerText(place)))
    requires LocalReference(Str(reference)) && Tokens(reference[1..]).Some?
      && !AvoidsLiterals(Tokens(reference[1..]).value)
    ensures Follow(root, "#" + PointerText(place) + reference[1..]) == Follow(schema, reference)
  {
    hide Rewrite, Resolve, PointerText, Tokens;
    var location, pointer := "#" + PointerText(place), reference[1..];
    var tokens := Tokens(pointer).value;
    ReferenceIsPointer(reference);
    PointerParses(place, pointer);
    assert (location + pointer)[1..] == PointerText(place) + pointer;
    ResolveSplit(root, place, tokens);
    var n := FirstLiteral(tokens);
    ResolveLiteral(schema, tokens, n, location);
  }

  function FirstLiteral(tokens: seq<string>): (n: nat)
    requires !AvoidsLiterals(tokens)
    ensures n < |tokens| && tokens[n] in LITERAL_KEYS && AvoidsLiterals(tokens[..n])
  {
    if tokens[0] in LITERAL_KEYS then 0
    else
      assert !AvoidsLiterals(tokens[1..]) by {
        var i :| 0 <= i < |tokens| && tokens[i] in LITERAL_KEYS;
        assert tokens[1..][i - 1] == tokens[i];
      }
      var n := 1 + FirstLiteral(tokens[1..]);
      assert tokens[..n] == [tokens[0]] + tokens[1..][..n - 1];
      n
  }

  /** A reference written below a literal key, such as below a field called `default`, is left
      as it was; from the document root it names what the document itself has there. */
  lemma LiteralReferencesStay(ops: seq<Operation>, rest: map<string, Json>, i: nat, at: seq<string>, reference: string)
    requires PathsOf(ops).Built? && i < |ops| && HasBody(ops[i]) && !AvoidsLiterals(at)
    requires Resolve(Obj(BodySchema(ops[i])), at + ["$ref"]) == Some(Str(reference))
    ensures var root := Document(PathsOf(ops).paths, rest);
      && Resolve(root, Place(ops[i]) + (at + ["$ref"])) == Some(Str(reference))
      && (forall first, more ::
            LocalReference(Str(reference)) && Tokens(reference[1..]) == Some([first] + more)
              && first != "paths" && first !in rest ==>
            Follow(root, reference) == None)
  {
    hide Rewrite, BodySchema, PathsOf, Tokens, Location, PointerText;
    var root, op, tokens := Document(PathsOf(ops).paths, rest), ops[i], at + ["$ref"];
    SchemaIsAtPlace(ops, rest, i);
    ResolveSplit(root, Place(op), tokens);
    var n := FirstLiteral(at);
    assert tokens[..n] == at[..n] && tokens[n] == at[n];
    ResolveLiteral(Obj(BodySchema(op)), tokens, n, Location(op));
  }

  /** Response and parameter schemas, and all else beside the request body, stand in the document
      as authored: their local references name what the document itself has there. */
  lemma MemberReferencesStay(ops: seq<Operation>, rest: map<string, Json>, i: nat, at: seq<string>, reference: string)
    requires PathsOf(ops).Built? && i < |ops| && (HasBody(ops[i]) ==> at == [] || at[0] != "requestBody")
    requires Resolve(Obj(ops[i].members), at + ["$ref"]) == Some(Str(reference))
    ensures var root, op := Document(PathsOf(ops).paths, rest), ops[i];
      && Resolve(root, ["paths", Route(op), VerbText(op.verb)] + (at + ["$ref"])) == Some(Str(reference))
      && (forall first, more ::
            LocalReference(Str(reference)) && Tokens(reference[1..]) == Some([first] + more)
              && first != "paths" && first !in rest ==>
            Follow(root, reference) == None)
  {
    hide Rewrite, PathsOf, Tokens, PointerText, RequestBody, VerbText, Route;
    PathsHoldAll(ops);
    var op, paths, tokens := ops[i], PathsOf(ops).paths, at + ["$ref"];
    assert Holds(paths, op);
    var verb := VerbText(op.verb);
    assert tokens[0] == if at == [] then "$ref" else at[0];
    assert Resolve(OperationObject(op), tokens) == Resolve(Obj(op.members), tokens);
    ResolveStep(paths[Route(op)], verb, tokens);
    ResolveStep(Document(paths, rest).members["paths"].members, Route(op), [verb] + tokens);
    ResolveStep(Document(paths, rest).members, "paths", [Route(op)] + ([verb] + tokens));
    assert ["paths", Route(op), verb] + tokens == ["paths"] + ([Route(op)] + ([verb] + tokens));
  }

  // ---------- against the whole input schema ----------

  /** What a pointer into the body schema names, told by the input schema: the schema and its
      properties without the moved fields, nothing below a moved field, the names still
      required, and everything else as the input schema has it. */
  function InputNode(op: Operation, tokens: seq<string>): Option<Json> {
    if tokens == [] then Some(Obj(BodySchema(op)))
    else if tokens[0] == "properties" && |tokens| == 1 then Some(Obj(BodyProperties(op)))
    else if tokens[0] == "properties" && Moved(op, tokens[1]) then None
    else if tokens[0] == "required" then
      var required := BodyRequired(op, RequiredNames(op));
      if required == [] then None else Resolve(Arr(required), tokens[1..])
    else Resolve(Obj(op.input), tokens)
  }

  lemma BodyKeepsNodes(op: Operation, tokens: seq<string>)
    requires "properties" in op.input ==> op.input["properties"].Obj?
    ensures Resolve(Obj(BodySchema(op)), tokens) == InputNode(op, tokens)
  {
    if tokens != [] && tokens[0] == "properties" {
      assert Resolve(Obj(BodySchema(op)), tokens) == Resolve(Obj(BodyProperties(op)), tokens[1..]);
      if |tokens| > 1 {
        assert tokens[1..][0] == tokens[1];
        if "properties" in op.input {
          assert Resolve(Obj(op.input), tokens) == Resolve(Obj(Properties(op)), tokens[1..]);
        }
      }
    }
  }

  /** From the document root a reference names the rewriting of what the body keeps of it. */
  lemma ReferenceNamesInputNode(ops: seq<Operation>, rest: map<string, Json>, i: nat, reference: string)
    requires PathsOf(ops).Built? && i < |ops| && HasBody(ops[i]) && LocalReference(Str(reference))
    requires "properties" in ops[i].input ==> ops[i].input["properties"].Obj?
    requires Tokens(reference[1..]).Some?
    requires AvoidsLiterals(Tokens(reference[1..]).value)
      && !NamesReference(Obj(BodySchema(ops[i])), Tokens(reference[1..]).value)
    ensures Follow(Document(PathsOf(ops).paths, rest), Location(ops[i]) + reference[1..])
         == RewriteFound(InputNode(ops[i], Tokens(reference[1..]).value), Location(ops[i]))
  {
    hide Rewrite, Resolve, BodySchema, PathsOf, Document, Tokens, Location, PointerText, InputNode;
    SchemaIsAtPlace(ops, rest, i);
    LocationIsPlace(ops[i]);
    EmbeddedReferenceResolves(Document(PathsOf(ops).paths, rest), Place(ops[i]), Obj(BodySchema(ops[i])), reference);
    BodyKeepsNodes(ops[i], Tokens(reference[1..]).value);
  }

  /** It is the rewriting of what it named in the input schema exactly unless it named
      something below a field that moved; the schema itself, all its properties and its
      required names, which the body changes, aside. */
  lemma ReferenceKeepsMeaningIff(ops: seq<Operation>, rest: map<string, Json>, i: nat, reference: string)
    requires PathsOf(ops).Built? && i < |ops| && HasBody(ops[i]) && LocalReference(Str(reference))
    requires "properties" in ops[i].input ==> ops[i].input["properties"].Obj?
    requires Tokens(reference[1..]).Some?
    requires AvoidsLiterals(Tokens(reference[1..]).value)
      && !NamesReference(Obj(ops[i].input), Tokens(reference[1..]).value)
    requires var tokens := Tokens(reference[1..]).value;
      tokens != [] && tokens[0] != "required" && (tokens[0] == "properties" ==> |tokens| > 1)
    ensures var op, tokens := ops[i], Tokens(reference[1..]).value;
      var before, after := Follow(Obj(op.input), reference),
        Follow(Document(PathsOf(ops).paths, rest), Location(op) + reference[1..]);
      after == RewriteFound(before, Location(op)) <==>
        !(tokens[0] == "properties" && Moved(op, tokens[1]) && before.Some?)
  {
    hide Rewrite, Resolve, BodySchema, PathsOf, Document, Tokens, Location, PointerText;
    BodyKeepsNodes(ops[i], Tokens(reference[1..]).value);
    ReferenceNamesInputNode(ops, rest, i, reference);
  }

  /** A reference that resolved in the input schema and does not in the document: a PUT on
      `/api/items/:id` whose field `copy` refers to the field `id`. */
  lemma MovedFieldsDangle() returns (op: Operation, reference: string)
    ensures HasBody(op) && LocalReference(Str(reference)) && PathsOf([op]).Built?
    ensures op.path == [Literal("api"), Literal("items"), Parameter("id")]
    ensures op.input.Keys == {"type", "properties", "required"} && op.input["type"] == Str("object")
    ensures Str("id") in RequiredNames(op) && "id" in Properties(op)
    ensures Resolve(Obj(op.input), ["properties", "copy", "$ref"]) == Some(Str(reference))
    ensures Follow(Obj(op.input), reference).Some?
    ensures Follow(Document(PathsOf([op]).paths, map[]), Location(op) + reference[1..]) == None
  {
    hide Resolve, Tokens, BodySchema, Document, Location, Rewrite, RouteOf, PathsOf, Holds, OnlyFrom;
    var copy := map["$ref" := Str("#/properties/id")];
    var fields := map["id" := Scalar("true"), "copy" := Obj(copy)];
    var input := map["type" := Str("object"), "properties" := Obj(fields), "required" := Arr([Str("id")])];
    op := Operation([Literal("api"), Literal("items"), Parameter("id")], Put, input, None, map[]);
    reference := "#/properties/id";
    PathsHoldAll([op]);
    FieldReference("id");
    assert reference[1..] == "/properties/" + "id";
    ResolveHere(Scalar("true"));
    ResolveStep(fields, "id", []);
    ResolveStep(op.input, "properties", ["id"] + []);
    assert ["properties"] + (["id"] + []) == ["properties", "id"];
    ResolveHere(Str(reference));
    ResolveStep(copy, "$ref", []);
    ResolveStep(fields, "copy", ["$ref"] + []);
    ResolveStep(op.input, "properties", ["copy"] + (["$ref"] + []));
    assert ["properties"] + (["copy"] + (["$ref"] + [])) == ["properties", "copy", "$ref"];
    ReferenceNamesInputNode([op], map[], 0, reference);
  }

  lemma FieldReference(name: string)
    requires '/' !in name && '~' !in name
    ensures Tokens("/properties/" + name) == Some(["properties", name])
  {
    hide Escape, PointerText, Tokens;
    var tokens := ["properties", name];
    PlainStep(name, []);
    PlainStep("properties", [name]);
    EmptyPointer();
    EmptyTokens();
    assert [name] + [] == [name] && ["properties"] + [name] == tokens;
    assert "/" + name + "" == "/" + name && "/" + "properties" + ("/" + name) == "/properties/" + name;
    PointerParses(tokens, "");
    assert PointerText(tokens) + "" == PointerText(tokens) && tokens + [] == tokens;
  }

  lemma EmptyTokens()
    ensures Tokens("") == Some([])
  {
  }
}
