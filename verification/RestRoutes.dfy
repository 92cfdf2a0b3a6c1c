/** REST routes as languages of requests, and the audit that keeps generated and
    plugin routes apart from each other and from the core. */
module RestRoutes {
  import opened AsciiWords
  import opened Delimited
  import opened Sequences

  datatype Route = Route(verb: string, path: string)

  /** `path.split("/").slice(1)` */
  function Segments(path: string): seq<string> { Split(path, '/')[1..] }

  predicate IsParameter(segment: string) { segment != "" && segment[0] == ':' }

  // ---------- what a route matches ----------

  /** A parameter matches one non-empty segment, `*` any remainder, a literal itself. */
  predicate Accepts(route: seq<string>, request: seq<string>) {
    if route == [] then request == []
    else if route[0] == "*" then true
    else
      && request != []
      && (if IsParameter(route[0]) then request[0] != "" else request[0] == route[0])
      && Accepts(route[1..], request[1..])
  }

  /** A concrete request: its verb and its path segments. */
  datatype Request = Request(verb: string, segments: seq<string>)

  predicate Matched(r: Route, q: Request) {
    q.verb == r.verb && Accepts(Segments(r.path), q.segments)
  }

  ghost predicate Intersect(left: Route, right: Route) {
    exists q :: Matched(left, q) && Matched(right, q)
  }

  // ---------- the overlap test ----------

  predicate SegmentOverlaps(l: string, r: string) {
    l == r || IsParameter(l) || IsParameter(r) || l == "*" || r == "*"
  }

  /** The index loop, as a recursion over both segment lists. */
  predicate Overlap(ls: seq<string>, rs: seq<string>) {
    if ls == [] && rs == [] then true
    else if (ls != [] && ls[0] == "*") || (rs != [] && rs[0] == "*") then true
    else if ls == [] || rs == [] then false
    else SegmentOverlaps(ls[0], rs[0]) && Overlap(ls[1..], rs[1..])
  }

  predicate Overlaps(left: Route, right: Route) {
    left.verb == right.verb && Overlap(Segments(left.path), Segments(right.path))
  }

  method RestRoutesOverlap(left: Route, right: Route) returns (overlap: bool)
    ensures overlap == Overlaps(left, right)
  {
    if left.verb != right.verb { return false; }
    var ls, rs := Segments(left.path), Segments(right.path);
    var index := 0;
    assert ls[0..] == ls && rs[0..] == rs;
    while index < |ls| || index < |rs|
      invariant index <= |ls| && index <= |rs|
      invariant Overlap(ls, rs) == Overlap(ls[index..], rs[index..])
      decreases |ls| + |rs| - index
    {
      if (index < |ls| && ls[index] == "*") || (index < |rs| && rs[index] == "*") { return true; }
      if index >= |ls| || index >= |rs| { return false; }
      if !SegmentOverlaps(ls[index], rs[index]) { return false; }
      assert ls[index..][1..] == ls[index + 1..] && rs[index..][1..] == rs[index + 1..];
      index := index + 1;
    }
    return true;
  }

  /** Before any `*`, an empty literal stands against a parameter. */
  predicate EmptyAgainstParameter(ls: seq<string>, rs: seq<string>) {
    ls != [] && rs != [] && ls[0] != "*" && rs[0] != "*" &&
    ((ls[0] == "" && IsParameter(rs[0])) || (rs[0] == "" && IsParameter(ls[0]))
      || EmptyAgainstParameter(ls[1..], rs[1..]))
  }

  /** A request for the rest of one route, when the other no longer constrains it. */
  function Sample(route: seq<string>): seq<string> {
    if route == [] || route[0] == "*" then []
    else [if IsParameter(route[0]) then "x" else route[0]] + Sample(route[1..])
  }

  /** A request both routes match. */
  function Common(ls: seq<string>, rs: seq<string>): seq<string>
    requires Overlap(ls, rs)
  {
    if ls == [] || ls[0] == "*" then Sample(rs)
    else if rs == [] || rs[0] == "*" then Sample(ls)
    else [if !IsParameter(ls[0]) then ls[0] else if !IsParameter(rs[0]) then rs[0] else "x"] + Common(ls[1..], rs[1..])
  }

  lemma {:induction false} SampleAccepted(route: seq<string>)
    ensures Accepts(route, Sample(route))
  {
    if route != [] && route[0] != "*" { SampleAccepted(route[1..]); }
  }

  lemma {:induction false} CommonAccepted(ls: seq<string>, rs: seq<string>)
    requires Overlap(ls, rs) && !EmptyAgainstParameter(ls, rs)
    ensures Accepts(ls, Common(ls, rs)) && Accepts(rs, Common(ls, rs))
  {
    SampleAccepted(ls);
    SampleAccepted(rs);
    if ls != [] && ls[0] != "*" && rs != [] && rs[0] != "*" {
      CommonAccepted(ls[1..], rs[1..]);
      assert Common(ls, rs)[1..] == Common(ls[1..], rs[1..]);
    }
  }

  lemma {:induction false} AcceptedOverlap(ls: seq<string>, rs: seq<string>, q: seq<string>)
    requires Accepts(ls, q) && Accepts(rs, q)
    ensures Overlap(ls, rs) && !EmptyAgainstParameter(ls, rs)
  {
    if ls != [] && ls[0] != "*" && rs != [] && rs[0] != "*" { AcceptedOverlap(ls[1..], rs[1..], q[1..]); }
  }

  /** The test is exact except where an empty literal meets a parameter, and there it errs
      on the side of refusing. */
  lemma OverlapIsIntersection(left: Route, right: Route)
    ensures Intersect(left, right) <==>
      Overlaps(left, right) && !EmptyAgainstParameter(Segments(left.path), Segments(right.path))
  {
    var ls, rs := Segments(left.path), Segments(right.path);
    if Intersect(left, right) {
      var q :| Matched(left, q) && Matched(right, q);
      AcceptedOverlap(ls, rs, q.segments);
    }
    if Overlaps(left, right) && !EmptyAgainstParameter(ls, rs) {
      CommonAccepted(ls, rs);
      assert Matched(left, Request(left.verb, Common(ls, rs))) && Matched(right, Request(left.verb, Common(ls, rs)));
    }
  }

  /** No literal segment is empty, as authored paths have it. */
  predicate NoEmptySegments(r: Route) {
    forall i :: 0 <= i < |Segments(r.path)| ==> Segments(r.path)[i] != ""
  }

  lemma {:induction false} NoEmptyNoClash(ls: seq<string>, rs: seq<string>)
    requires forall i :: 0 <= i < |ls| ==> ls[i] != ""
    requires forall i :: 0 <= i < |rs| ==> rs[i] != ""
    ensures !EmptyAgainstParameter(ls, rs)
  {
    if ls != [] && rs != [] { NoEmptyNoClash(ls[1..], rs[1..]); }
  }

  /** On ordinary paths the test decides intersection. */
  lemma OverlapIsExact(left: Route, right: Route)
    requires NoEmptySegments(left) && NoEmptySegments(right)
    ensures Overlaps(left, right) <==> Intersect(left, right)
  {
    NoEmptyNoClash(Segments(left.path), Segments(right.path));
    OverlapIsIntersection(left, right);
  }

  // ---------- the paths that reach the audit ----------

  predicate LowerLetter(c: char) { 'a' <= c <= 'z' }

  predicate LowerOrDigit(c: char) { LowerLetter(c) || '0' <= c <= '9' }

  predicate NameStart(c: char) { LowerLetter(c) || 'A' <= c <= 'Z' || c == '_' }

  /** A namespace or base path: `[a-z][a-z0-9-]*` */
  predicate KebabName(text: string) {
    text != "" && LowerLetter(text[0]) && forall i :: 1 <= i < |text| ==> LowerOrDigit(text[i]) || text[i] == '-'
  }

  /** `:[_A-Za-z][_0-9A-Za-z]*` */
  predicate ParameterSegment(segment: string) {
    && |segment| > 1 && segment[0] == ':' && NameStart(segment[1])
    && forall i :: 2 <= i < |segment| ==> NameStart(segment[i]) || '0' <= segment[i] <= '9'
  }

  /** `[a-z0-9][a-z0-9._-]*` */
  predicate LiteralSegment(segment: string) {
    && segment != "" && LowerOrDigit(segment[0])
    && forall i :: 1 <= i < |segment| ==> LowerOrDigit(segment[i]) || segment[i] in "._-"
  }

  /** `REST_PATH`: what every operation path is validated against. */
  predicate IsRestPath(path: string) {
    var parts := Split(path, '/');
    && |parts| >= 3 && parts[0] == "" && parts[1] == "api" && KebabName(parts[2])
    && forall i :: 3 <= i < |parts| ==> ParameterSegment(parts[i]) || LiteralSegment(parts[i])
  }

  lemma KebabMeans(text: string)
    ensures KebabName(text) <==> Word(text, [LOWER], [LOWER, DIGITS, HYPHEN])
  {
    ClassMeans([LOWER]);
    ClassMeans([LOWER, DIGITS, HYPHEN]);
  }

  lemma LiteralMeans(segment: string)
    ensures LiteralSegment(segment) <==> Word(segment, [LOWER, DIGITS], [LOWER, DIGITS, DOT, UNDERSCORE, HYPHEN])
  {
    ClassMeans([LOWER, DIGITS]);
    ClassMeans([LOWER, DIGITS, DOT, UNDERSCORE, HYPHEN]);
    assert "._-"[0] == '.' && "._-"[1] == '_' && "._-"[2] == '-';
  }

  lemma ParameterMeans(segment: string)
    ensures ParameterSegment(segment) <==>
      segment != "" && segment[0] == ':'
      && Word(segment[1..], [UNDERSCORE, UPPER, LOWER], [UNDERSCORE, DIGITS, UPPER, LOWER])
  {
    ClassMeans([UNDERSCORE, UPPER, LOWER]);
    ClassMeans([UNDERSCORE, DIGITS, UPPER, LOWER]);
    hide InClass;
    if segment != "" {
      assert forall i :: 1 <= i < |segment[1..]| ==> segment[1..][i] == segment[i + 1];
      assert forall i :: 2 <= i < |segment| ==> segment[i] == segment[1..][i - 1];
    }
  }

  /** A segment of a rest path after the namespace: a literal, or a parameter with its colon. */
  ghost predicate PathSegment(segment: string) {
    || Word(segment, [LOWER, DIGITS], [LOWER, DIGITS, DOT, UNDERSCORE, HYPHEN])
    || exists name :: segment == ":" + name
         && Word(name, [UNDERSCORE, UPPER, LOWER], [UNDERSCORE, DIGITS, UPPER, LOWER])
  }

  lemma PathSegmentMeans(segment: string)
    ensures PathSegment(segment) <==> ParameterSegment(segment) || LiteralSegment(segment)
    ensures PathSegment(segment) ==> Free(segment, '/')
  {
    LiteralMeans(segment);
    ParameterMeans(segment);
    if ParameterSegment(segment) { assert segment == ":" + segment[1..]; }
  }

  /** The path is `/api/`, a namespace and further segments. */
  ghost predicate Spells(path: string, name: string, rest: seq<string>) {
    && path == Join(["", "api", name] + rest, '/') && Word(name, [LOWER], [LOWER, DIGITS, HYPHEN])
    && forall i :: 0 <= i < |rest| ==> PathSegment(rest[i])
  }

  lemma SpelledIsRestPath(path: string, name: string, rest: seq<string>)
    requires Spells(path, name, rest)
    ensures IsRestPath(path)
  {
    hide Word, PathSegment, ParameterSegment, LiteralSegment, KebabName, Split, Join;
    KebabMeans(name);
    KebabIsFree(name);
    var parts := ["", "api", name] + rest;
    forall i | 3 <= i < |parts|
      ensures Free(parts[i], '/') && (ParameterSegment(parts[i]) || LiteralSegment(parts[i]))
    {
      assert parts[i] == rest[i - 3];
      PathSegmentMeans(parts[i]);
    }
    SplitJoined(parts, '/');
  }

  /** The accepted paths are exactly those spelled so. */
  lemma RestPathMeans(path: string)
    ensures IsRestPath(path) <==> exists name, rest :: Spells(path, name, rest)
  {
    hide Word, PathSegment, ParameterSegment, LiteralSegment, KebabName, Split, Join;
    if IsRestPath(path) {
      var parts := Split(path, '/');
      assert parts == ["", "api", parts[2]] + parts[3..];
      KebabMeans(parts[2]);
      forall i | 0 <= i < |parts[3..]| ensures PathSegment(parts[3..][i]) { PathSegmentMeans(parts[i + 3]); }
      assert Spells(path, parts[2], parts[3..]);
    }
    if name, rest :| Spells(path, name, rest) { SpelledIsRestPath(path, name, rest); }
  }

  lemma RestPathHasNoEmptySegments(r: Route)
    requires IsRestPath(r.path)
    ensures NoEmptySegments(r)
  {
    var parts := Split(r.path, '/');
    forall i | 0 <= i < |Segments(r.path)|
      ensures Segments(r.path)[i] != "" { assert Segments(r.path)[i] == parts[i + 1]; }
  }

  // ---------- the audit ----------

  /** The generated CRUD surface of one entity. */
  datatype EntityRest = EntityRest(basePath: string, list: bool, create: bool, get: bool, update: bool, delete: bool)

  const REST_MOUNT := "/api" + ("/rest" + "/v1")

  function CollectionPath(e: EntityRest): string { REST_MOUNT + ("/" + e.basePath) }

  function ItemPath(e: EntityRest): string { REST_MOUNT + ("/" + e.basePath + "/:id") }

  function EntityRoutes(e: EntityRest): seq<Route> {
    (if e.list then [Route("GET", CollectionPath(e))] else [])
    + (if e.create then [Route("POST", CollectionPath(e))] else [])
    + (if e.get then [Route("GET", ItemPath(e))] else [])
    + (if e.update then [Route("PATCH", ItemPath(e))] else [])
    + (if e.delete then [Route("DELETE", ItemPath(e))] else [])
  }

  lemma KebabIsFree(text: string)
    requires KebabName(text)
    ensures Free(text, '/')
  {
  }

  /** Both paths of an entity, segment by segment. */
  lemma EntitySegments(e: EntityRest)
    requires KebabName(e.basePath)
    ensures Segments(CollectionPath(e)) == ["api", "rest", "v1", e.basePath]
    ensures Segments(ItemPath(e)) == ["api", "rest", "v1", e.basePath, ":id"]
  {
    hide Join, Split;
    KebabIsFree(e.basePath);
    MountedJoins([e.basePath]);
    MountedJoins([e.basePath] + [":id"]);
    JoinCons(e.basePath, [], '/');
    JoinCons(e.basePath, [":id"], '/');
    JoinCons(":id", [], '/');
    assert [e.basePath] + [] == [e.basePath] && [":id"] + [] == [":id"];
    assert "/" + (e.basePath + ("/" + ":id")) == "/" + e.basePath + "/:id";
    SplitJoined(Mounted([e.basePath]), '/');
    SplitJoined(Mounted([e.basePath] + [":id"]), '/');
    assert Mounted([e.basePath])[1..] == ["api", "rest", "v1", e.basePath];
    assert Mounted([e.basePath] + [":id"])[1..] == ["api", "rest", "v1", e.basePath, ":id"];
  }

  function Mounted(parts: seq<string>): seq<string> { [""] + (["api"] + (["rest"] + (["v1"] + parts))) }

  lemma MountedJoins(parts: seq<string>)
    requires parts != []
    ensures Join(Mounted(parts), '/') == REST_MOUNT + ("/" + Join(parts, '/'))
  {
    hide Join;
    JoinCons("v1", parts, '/');
    JoinCons("rest", ["v1"] + parts, '/');
    JoinCons("api", ["rest"] + (["v1"] + parts), '/');
    JoinCons("", ["api"] + (["rest"] + (["v1"] + parts)), '/');
    var tail := "/" + Join(parts, '/');
    assert "/" + "v1" == "/v1" && "/" + "rest" == "/rest" && "/" + "api" == "/api";
    Associate("/", "v1", tail);
    Associate("/", "rest", "/v1" + tail);
    Associate("/", "api", "/rest" + ("/v1" + tail));
    Associate("/rest", "/v1", tail);
    Associate("/api", "/rest" + "/v1", tail);
    Nothing("/api" + ("/rest" + ("/v1" + tail)));
  }

  lemma Nothing(text: string)
    ensures "" + text == text
  {
  }

  lemma EntityRoutesHaveNoEmptySegments(e: EntityRest, r: Route)
    requires KebabName(e.basePath) && r in EntityRoutes(e)
    ensures NoEmptySegments(r)
  {
    EntitySegments(e);
    assert r.path == CollectionPath(e) || r.path == ItemPath(e);
    hide CollectionPath, ItemPath;
  }

  /** The requests an entity serves: its enabled operations on the collection, and on one item
      of whatever non-empty id. */
  predicate Serves(e: EntityRest, q: Request) {
    var collection := ["api", "rest", "v1", e.basePath];
    || (q.segments == collection && ((q.verb == "GET" && e.list) || (q.verb == "POST" && e.create)))
    || (&& |q.segments| == 5 && q.segments[..4] == collection && q.segments[4] != ""
        && ((q.verb == "GET" && e.get) || (q.verb == "PATCH" && e.update) || (q.verb == "DELETE" && e.delete)))
  }

  predicate IsLiteral(segment: string) { segment != "*" && !IsParameter(segment) }

  /** Literal segments match themselves, in order. */
  lemma {:induction false} LiteralsAccept(literals: seq<string>, rest: seq<string>, request: seq<string>)
    requires forall i :: 0 <= i < |literals| ==> IsLiteral(literals[i])
    ensures Accepts(literals + rest, request) <==>
      literals <= request && Accepts(rest, request[|literals|..])
  {
    if literals == [] {
      assert literals + rest == rest;
    } else {
      assert (literals + rest)[1..] == literals[1..] + rest;
      if request != [] {
        LiteralsAccept(literals[1..], rest, request[1..]);
        assert literals == [literals[0]] + literals[1..] && request == [request[0]] + request[1..];
        if literals <= request { assert request[1..][|literals| - 1..] == request[|literals|..]; }
      }
    }
  }

  /** Its claims match exactly the requests it serves. */
  lemma EntityClaimsMean(e: EntityRest, q: Request)
    requires KebabName(e.basePath)
    ensures (exists r :: r in EntityRoutes(e) && Matched(r, q)) <==> Serves(e, q)
  {
    var collection := ["api", "rest", "v1", e.basePath];
    EntitySegments(e);
    LiteralsAccept(collection, [], q.segments);
    LiteralsAccept(collection, [":id"], q.segments);
    assert collection + [] == collection && collection + [":id"] == ["api", "rest", "v1", e.basePath, ":id"];
    hide CollectionPath, ItemPath, Segments;
    var list, item := Segments(CollectionPath(e)), Segments(ItemPath(e));
    assert Accepts(list, q.segments) <==> q.segments == collection;
    assert Accepts(item, q.segments) <==>
      |q.segments| == 5 && q.segments[..4] == collection && q.segments[4] != "" by {
      if collection <= q.segments { OneParameter(q.segments[4..]); }
    }
    RoutesByOperation(e, q);
  }

  lemma OneParameter(request: seq<string>)
    ensures Accepts([":id"], request) <==> |request| == 1 && request[0] != ""
  {
    assert [":id"][1..] == [];
  }

  lemma RoutesByOperation(e: EntityRest, q: Request)
    ensures (exists r :: r in EntityRoutes(e) && Matched(r, q)) <==>
      || (Accepts(Segments(CollectionPath(e)), q.segments)
          && ((q.verb == "GET" && e.list) || (q.verb == "POST" && e.create)))
      || (Accepts(Segments(ItemPath(e)), q.segments)
          && ((q.verb == "GET" && e.get) || (q.verb == "PATCH" && e.update) || (q.verb == "DELETE" && e.delete)))
  {
    hide Accepts, Segments, CollectionPath, ItemPath;
    var routes := EntityRoutes(e);
    if e.list { assert Route("GET", CollectionPath(e)) in routes; }
    if e.create { assert Route("POST", CollectionPath(e)) in routes; }
    if e.get { assert Route("GET", ItemPath(e)) in routes; }
    if e.update { assert Route("PATCH", ItemPath(e)) in routes; }
    if e.delete { assert Route("DELETE", ItemPath(e)) in routes; }
  }

  function AllEntityRoutes(entities: seq<EntityRest>): seq<Route> {
    if entities == [] then [] else AllEntityRoutes(entities[..|entities| - 1]) + EntityRoutes(entities[|entities| - 1])
  }

  /** Claimed routes overlap neither a core route nor an earlier claim. */
  ghost predicate Apart(core: seq<Route>, claims: seq<Route>) {
    && (forall i, j :: 0 <= i < |core| && 0 <= j < |claims| ==> !Overlaps(core[i], claims[j]))
    && forall i, j :: 0 <= i < j < |claims| ==> !Overlaps(claims[i], claims[j])
  }

  /** The list of claimed routes, core first; `Claim` is the audit's `claimRest`. */
  class Surface {
    var rest: seq<Route>
    const core: seq<Route>

    constructor (core: seq<Route>)
      ensures this.core == core && rest == core
    {
      this.core := core;
      rest := core;
    }

    ghost predicate Valid()
      reads this
    {
      core <= rest && Apart(core, rest[|core|..])
    }

    method Claim(route: Route) returns (ok: bool)
      requires Valid()
      modifies this
      ensures Valid()
      ensures ok ==> rest == old(rest) + [route]
      ensures !ok ==> rest == old(rest) && !Apart(core, rest[|core|..] + [route])
    {
      for i := 0 to |rest|
        invariant rest == old(rest) && Valid()
        invariant forall k :: 0 <= k < i ==> !Overlaps(rest[k], route)
      {
        var overlap := RestRoutesOverlap(rest[i], route);
        if overlap {
          OverlapBreaks(core, rest[|core|..], route, rest, i);
          return false;
        }
      }
      ApartExtends(core, rest[|core|..], route, rest);
      rest := rest + [route];
      assert rest[|core|..] == old(rest)[|core|..] + [route];
      return true;
    }

    method ClaimAll(routes: seq<Route>) returns (ok: bool)
      requires Valid()
      modifies this
      ensures Valid()
      ensures ok ==> rest == old(rest) + routes
      ensures ok <==> Apart(core, old(rest)[|core|..] + routes)
    {
      hide Apart;
      for j := 0 to |routes|
        invariant Valid() && rest == old(rest) + routes[..j]
      {
        ok := Claim(routes[j]);
        if !ok {
          assert rest[|core|..] + [routes[j]] == old(rest)[|core|..] + routes[..j + 1];
          assert old(rest)[|core|..] + routes == (old(rest)[|core|..] + routes[..j + 1]) + routes[j + 1..];
          ApartPrefix(core, old(rest)[|core|..] + routes[..j + 1], routes[j + 1..]);
          return false;
        }
      }
      assert routes[..|routes|] == routes;
      assert rest[|core|..] == old(rest)[|core|..] + routes;
      return true;
    }
  }

  lemma ApartPrefix(core: seq<Route>, claims: seq<Route>, more: seq<Route>)
    ensures Apart(core, claims + more) ==> Apart(core, claims)
  {
    hide Overlaps;
    if Apart(core, claims + more) {
      assert forall i :: 0 <= i < |claims| ==> (claims + more)[i] == claims[i];
    }
  }

  lemma OverlapBreaks(core: seq<Route>, claims: seq<Route>, route: Route, rest: seq<Route>, i: nat)
    requires rest == core + claims && i < |rest| && Overlaps(rest[i], route)
    ensures !Apart(core, claims + [route])
  {
    hide Overlaps;
    assert (claims + [route])[|claims|] == route;
    if i >= |core| { assert (claims + [route])[i - |core|] == rest[i]; }
  }

  lemma ApartExtends(core: seq<Route>, claims: seq<Route>, route: Route, rest: seq<Route>)
    requires Apart(core, claims) && rest == core + claims
    requires forall k :: 0 <= k < |rest| ==> !Overlaps(rest[k], route)
    ensures Apart(core, claims + [route])
  {
    hide Overlaps;
    forall i | 0 <= i < |core| ensures !Overlaps(core[i], route) { assert rest[i] == core[i]; }
    forall i | 0 <= i < |claims| ensures !Overlaps(claims[i], route) { assert rest[|core| + i] == claims[i]; }
  }

  lemma {:induction false} EntityRoutesPrefix(entities: seq<EntityRest>, i: nat) returns (more: seq<Route>)
    requires i <= |entities|
    ensures AllEntityRoutes(entities) == AllEntityRoutes(entities[..i]) + more
  {
    hide EntityRoutes;
    if i == |entities| {
      assert entities[..i] == entities;
      more := [];
    } else {
      var front := entities[..|entities| - 1];
      assert front[..i] == entities[..i];
      more := EntityRoutesPrefix(front, i);
      more := more + EntityRoutes(entities[|entities| - 1]);
    }
  }

  /** The REST part of the audit: every entity route, then every operation route. */
  method AuditRest(core: seq<Route>, entities: seq<EntityRest>, operations: seq<Route>) returns (ok: bool)
    ensures ok <==> Apart(core, AllEntityRoutes(entities) + operations)
    ensures Validated(entities, operations) && (forall i :: 0 <= i < |core| ==> NoEmptySegments(core[i])) ==>
      (ok <==> Separate(core, AllEntityRoutes(entities) + operations))
  {
    hide Apart, EntityRoutes, Separate, Validated, NoEmptySegments;
    if Validated(entities, operations) && (forall i :: 0 <= i < |core| ==> NoEmptySegments(core[i])) {
      ValidatedIsExact(core, entities, operations);
    }
    var surface := new Surface(core);
    NothingClaimed(core);
    for i := 0 to |entities|
      invariant surface.Valid() && surface.core == core && surface.rest == core + AllEntityRoutes(entities[..i])
    {
      assert entities[..i + 1][..i] == entities[..i];
      ok := surface.ClaimAll(EntityRoutes(entities[i]));
      if !ok {
        ghost var more := EntityRoutesPrefix(entities, i + 1);
        assert AllEntityRoutes(entities) + operations == AllEntityRoutes(entities[..i + 1]) + (more + operations);
        ApartPrefix(core, AllEntityRoutes(entities[..i + 1]), more + operations);
        return false;
      }
    }
    assert entities[..|entities|] == entities;
    ok := surface.ClaimAll(operations);
  }

  /** No request is matched by two claims, or by a claim and a core route. */
  ghost predicate Separate(core: seq<Route>, claims: seq<Route>) {
    && (forall i, j :: 0 <= i < |core| && 0 <= j < |claims| ==> !Intersect(core[i], claims[j]))
    && forall i, j :: 0 <= i < j < |claims| ==> !Intersect(claims[i], claims[j])
  }

  /** On paths without empty segments being apart is sharing no request. */
  lemma ApartIsSeparate(core: seq<Route>, claims: seq<Route>)
    requires forall i :: 0 <= i < |core| ==> NoEmptySegments(core[i])
    requires forall i :: 0 <= i < |claims| ==> NoEmptySegments(claims[i])
    ensures Apart(core, claims) <==> Separate(core, claims)
  {
    hide Overlaps, Intersect, NoEmptySegments;
    forall i, j | 0 <= i < |core| && 0 <= j < |claims|
      ensures Overlaps(core[i], claims[j]) <==> Intersect(core[i], claims[j]) {
      OverlapIsExact(core[i], claims[j]);
    }
    forall i, j | 0 <= i < j < |claims| ensures Overlaps(claims[i], claims[j]) <==> Intersect(claims[i], claims[j]) {
      OverlapIsExact(claims[i], claims[j]);
    }
  }

  /** What validation lets through: kebab-case base paths and safe operation paths. */
  ghost predicate Validated(entities: seq<EntityRest>, operations: seq<Route>) {
    && (forall i :: 0 <= i < |entities| ==> KebabName(entities[i].basePath))
    && forall i :: 0 <= i < |operations| ==> IsRestPath(operations[i].path)
  }

  lemma {:induction false} EntityClaimsHaveNoEmptySegments(entities: seq<EntityRest>, i: nat)
    requires (forall k :: 0 <= k < |entities| ==> KebabName(entities[k].basePath)) && i < |AllEntityRoutes(entities)|
    ensures NoEmptySegments(AllEntityRoutes(entities)[i])
  {
    hide KebabName, NoEmptySegments, EntityRoutes;
    var front, last := entities[..|entities| - 1], entities[|entities| - 1];
    var before := AllEntityRoutes(front);
    assert forall k :: 0 <= k < |front| ==> front[k] == entities[k];
    if i < |before| {
      EntityClaimsHaveNoEmptySegments(front, i);
    } else {
      assert AllEntityRoutes(entities)[i] == EntityRoutes(last)[i - |before|];
      EntityRoutesHaveNoEmptySegments(last, EntityRoutes(last)[i - |before|]);
    }
  }

  lemma ValidatedIsExact(core: seq<Route>, entities: seq<EntityRest>, operations: seq<Route>)
    requires Validated(entities, operations) && forall i :: 0 <= i < |core| ==> NoEmptySegments(core[i])
    ensures Apart(core, AllEntityRoutes(entities) + operations) <==>
      Separate(core, AllEntityRoutes(entities) + operations)
  {
    hide Apart, Separate, NoEmptySegments, KebabName, IsRestPath;
    var routes := AllEntityRoutes(entities);
    forall i | 0 <= i < |routes + operations| ensures NoEmptySegments((routes + operations)[i]) {
      if i < |routes| {
        EntityClaimsHaveNoEmptySegments(entities, i);
      } else {
        RestPathHasNoEmptySegments(operations[i - |routes|]);
      }
    }
    ApartIsSeparate(core, routes + operations);
  }

  lemma NothingClaimed(core: seq<Route>)
    ensures core <= core && Apart(core, core[|core|..])
  {
  }

  /** After an audit that finishes, a request matches at most one entity or operation route,
      and none that also matches a core route. */
  lemma AuditSeparatesRequests(core: seq<Route>, claims: seq<Route>, q: Request)
    requires Apart(core, claims)
    ensures forall i, j :: 0 <= i < |claims| && 0 <= j < |claims| && Matched(claims[i], q) && Matched(claims[j], q) ==>
      i == j
    ensures forall i, j :: 0 <= i < |core| && 0 <= j < |claims| && Matched(core[i], q) ==> !Matched(claims[j], q)
  {
    forall i, j | 0 <= i < j < |claims| && Matched(claims[i], q) && Matched(claims[j], q) ensures false {
      OverlapIsIntersection(claims[i], claims[j]);
    }
    forall i, j | 0 <= i < |core| && 0 <= j < |claims| && Matched(core[i], q) && Matched(claims[j], q) ensures false {
      OverlapIsIntersection(core[i], claims[j]);
    }
  }

  lemma {:induction false} ClaimedRoute(entities: seq<EntityRest>, i: nat, r: Route) returns (n: nat)
    requires i < |entities| && r in EntityRoutes(entities[i])
    ensures n < |AllEntityRoutes(entities)| && AllEntityRoutes(entities)[n] == r
  {
    hide EntityRoutes;
    var front, own := entities[..|entities| - 1], EntityRoutes(entities[|entities| - 1]);
    if i < |front| {
      n := ClaimedRoute(front, i, r);
    } else {
      var k :| 0 <= k < |own| && own[k] == r;
      n := |AllEntityRoutes(front)| + k;
    }
  }

  /** A request that two entities serve is matched by two claims. */
  lemma {:induction false} ServedTwice(entities: seq<EntityRest>, i: nat, j: nat, q: Request) returns (a: nat, b: nat)
    requires i < j < |entities| && KebabName(entities[i].basePath) && KebabName(entities[j].basePath)
    requires Serves(entities[i], q) && Serves(entities[j], q)
    ensures a < b < |AllEntityRoutes(entities)|
    ensures Matched(AllEntityRoutes(entities)[a], q) && Matched(AllEntityRoutes(entities)[b], q)
  {
    hide EntityRoutes, Matched, Serves, KebabName;
    var front, own := entities[..|entities| - 1], EntityRoutes(entities[|entities| - 1]);
    if j < |front| {
      a, b := ServedTwice(front, i, j, q);
    } else {
      EntityClaimsMean(entities[i], q);
      EntityClaimsMean(entities[j], q);
      var r :| r in EntityRoutes(entities[i]) && Matched(r, q);
      var t :| t in EntityRoutes(entities[j]) && Matched(t, q);
      a := ClaimedRoute(front, i, r);
      var k :| 0 <= k < |own| && own[k] == t;
      b := |AllEntityRoutes(front)| + k;
    }
  }

  lemma ServedOnce(core: seq<Route>, entities: seq<EntityRest>, claims: seq<Route>, i: nat, j: nat, q: Request)
    requires Apart(core, claims) && AllEntityRoutes(entities) <= claims
    requires i < j < |entities| && KebabName(entities[i].basePath) && KebabName(entities[j].basePath)
    ensures !(Serves(entities[i], q) && Serves(entities[j], q))
  {
    hide Apart, Serves, Matched, KebabName, AllEntityRoutes;
    AuditSeparatesRequests(core, claims, q);
    if Serves(entities[i], q) && Serves(entities[j], q) {
      var a, b := ServedTwice(entities, i, j, q);
      assert false;
    }
  }

  /** After an audit that finishes no request is served by two entities, or by an entity and an
      operation or core route. */
  lemma AuditedEntitiesShareNothing(core: seq<Route>, entities: seq<EntityRest>, operations: seq<Route>, i: nat,
      q: Request)
    requires Apart(core, AllEntityRoutes(entities) + operations)
    requires (forall k :: 0 <= k < |entities| ==> KebabName(entities[k].basePath)) && i < |entities|
    requires Serves(entities[i], q)
    ensures forall j :: 0 <= j < |entities| && Serves(entities[j], q) ==> j == i
    ensures forall r :: r in operations || r in core ==> !Matched(r, q)
  {
    hide Apart, Serves, Matched, KebabName, AllEntityRoutes, EntityRoutes;
    var routes := AllEntityRoutes(entities);
    var claims := routes + operations;
    forall j | 0 <= j < |entities| && j != i ensures !Serves(entities[j], q) {
      ServedOnce(core, entities, claims, if i < j then i else j, if i < j then j else i, q);
    }
    EntityClaimsMean(entities[i], q);
    var t :| t in EntityRoutes(entities[i]) && Matched(t, q);
    var n := ClaimedRoute(entities, i, t);
    AuditSeparatesRequests(core, claims, q);
    assert claims[n] == t;
    forall k | 0 <= k < |operations| ensures !Matched(operations[k], q) {
      assert claims[|routes| + k] == operations[k];
    }
  }
}
