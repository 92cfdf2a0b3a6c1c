/** The build-time evaluator of string expressions: every value a GraphQL operation
    text can take, as far as the source shows it. */
module StaticStrings {
  import opened Options

  type Scope = nat
  /** An initializer node; `seen` tells nodes apart, not their text. */
  type Node = nat

  /** `Wrapped` is a parenthesis or `as`; `Fallback` is `??` or `||`. An identifier
      carries the lexical scopes around it, innermost first. */
  datatype Expr =
    | Literal(text: string)
    | Wrapped(inner: Expr)
    | Identifier(scopes: seq<Scope>, name: string)
    | Template(head: string, spans: seq<Span>)
    | Conditional(whenTrue: Expr, whenFalse: Expr)
    | Plus(left: Expr, right: Expr)
    | Fallback(left: Expr, right: Expr)
    | Dynamic
  datatype Span = Span(expr: Expr, literal: string)

  datatype Program = Program(bindings: map<Scope, map<string, Node>>, inits: map<Node, Expr>)

  predicate Closed(p: Program) {
    forall s, n :: s in p.bindings && n in p.bindings[s] ==> p.bindings[s][n] in p.inits
  }

  /** The nearest enclosing scope that binds the name. */
  function Resolve(p: Program, scopes: seq<Scope>, name: string): (r: Option<Node>)
    ensures Closed(p) && r.Some? ==> r.value in p.inits
  {
    if scopes == [] then None
    else if scopes[0] in p.bindings && name in p.bindings[scopes[0]] then Some(p.bindings[scopes[0]][name])
    else Resolve(p, scopes[1..], name)
  }

  predicate Binds(p: Program, s: Scope, name: string) { s in p.bindings && name in p.bindings[s] }

  /** The i-th enclosing scope binds the name and none inside it does. */
  predicate Nearest(p: Program, scopes: seq<Scope>, name: string, i: int) {
    0 <= i < |scopes| && Binds(p, scopes[i], name) && forall k :: 0 <= k < i ==> !Binds(p, scopes[k], name)
  }

  /** The binding of the nearest enclosing scope that has one; nothing where none has. */
  method ResolveBinding(p: Program, scopes: seq<Scope>, name: string) returns (r: Option<Node>)
    ensures r == Resolve(p, scopes, name)
    ensures forall n :: r == Some(n) <==> exists i :: Nearest(p, scopes, name, i) && p.bindings[scopes[i]][name] == n
    ensures r == None <==> forall i :: 0 <= i < |scopes| ==> !Binds(p, scopes[i], name)
  {
    var current := 0;
    while current < |scopes|
      invariant current <= |scopes| && Resolve(p, scopes, name) == Resolve(p, scopes[current..], name)
      invariant forall i :: 0 <= i < current ==> !Binds(p, scopes[i], name)
    {
      var scope := scopes[current];
      if scope in p.bindings && name in p.bindings[scope] {
        assert Nearest(p, scopes, name, current);
        return Some(p.bindings[scope][name]);
      }
      assert scopes[current..][1..] == scopes[current + 1..];
      current := current + 1;
    }
    return None;
  }

  // ---------- the evaluator ----------

  function Prefixed(prefix: string, values: seq<string>): seq<string> {
    seq(|values|, i requires 0 <= i < |values| => prefix + values[i])
  }

  function Cross(prefixes: seq<string>, values: seq<string>): seq<string> {
    if prefixes == [] then [] else Prefixed(prefixes[0], values) + Cross(prefixes[1..], values)
  }

  function CombineFrom(prefixes: seq<string>, parts: seq<seq<string>>): seq<string>
    decreases |parts|
  {
    if parts == [] then prefixes else CombineFrom(Cross(prefixes, parts[0]), parts[1..])
  }

  function Combine(parts: seq<seq<string>>): seq<string> { CombineFrom([""], parts) }

  function Suffixed(values: seq<string>, suffix: string): seq<string> {
    seq(|values|, i requires 0 <= i < |values| => values[i] + suffix)
  }

  /** Terminates on every binding map: a followed binding leaves the unseen ones,
      otherwise the expression gets smaller. */
  function Evaluate(p: Program, e: Expr, seen: set<Node>): seq<string>
    requires Closed(p)
    decreases p.inits.Keys - seen, e
  {
    match e
    case Literal(text) => [text]
    case Wrapped(inner) => Evaluate(p, inner, seen)
    case Identifier(scopes, name) =>
      var node := Resolve(p, scopes, name);
      if node.None? || node.value in seen then [] else Evaluate(p, p.inits[node.value], seen + {node.value})
    case Template(head, spans) =>
      var parts := EvaluateSpans(p, e, spans, seen);
      if parts.None? then [] else Combine([[head]] + parts.value)
    case Conditional(a, b) => Evaluate(p, a, seen) + Evaluate(p, b, seen)
    case Plus(l, r) =>
      var left, right := Evaluate(p, l, seen), Evaluate(p, r, seen);
      if left != [] && right != [] then Combine([left, right]) else []
    case Fallback(l, r) => Evaluate(p, l, seen) + Evaluate(p, r, seen)
    case Dynamic => []
  }

  /** The parts of a template; nothing as soon as one span has no value. */
  function EvaluateSpans(p: Program, e: Expr, spans: seq<Span>, seen: set<Node>): (parts: Option<seq<seq<string>>>)
    requires Closed(p) && forall i :: 0 <= i < |spans| ==> spans[i].expr < e
    ensures parts.Some? ==> |parts.value| == |spans|
    ensures parts.Some? <==> forall i :: 0 <= i < |spans| ==> Evaluate(p, spans[i].expr, seen) != []
    ensures parts.Some? ==>
      forall i :: 0 <= i < |spans| ==> parts.value[i] == Suffixed(Evaluate(p, spans[i].expr, seen), spans[i].literal)
    decreases p.inits.Keys - seen, e, |spans|
  {
    if spans == [] then Some([])
    else
      var n := |spans| - 1;
      var front := EvaluateSpans(p, e, spans[..n], seen);
      var values := Evaluate(p, spans[n].expr, seen);
      if front.None? || values == [] then None else Some(front.value + [Suffixed(values, spans[n].literal)])
  }

  /** The evaluator as written, pushing template parts in a loop. */
  method EvaluateString(p: Program, e: Expr, seen: set<Node>) returns (values: seq<string>)
    requires Closed(p)
    ensures values == Evaluate(p, e, seen)
    decreases p.inits.Keys - seen, e
  {
    match e {
      case Literal(text) => return [text];
      case Wrapped(inner) => values := EvaluateString(p, inner, seen);
      case Identifier(scopes, name) =>
        var node := ResolveBinding(p, scopes, name);
        if node.None? { return []; }
        if node.value in seen { return []; }
        values := EvaluateString(p, p.inits[node.value], seen + {node.value});
      case Template(head, spans) =>
        var parts: seq<seq<string>> := [[head]];
        for i := 0 to |spans|
          invariant |parts| == i + 1 && parts[0] == [head]
          invariant forall k :: 0 <= k < i ==> Evaluate(p, spans[k].expr, seen) != []
          invariant forall k :: 0 <= k < i ==>
            parts[k + 1] == Suffixed(Evaluate(p, spans[k].expr, seen), spans[k].literal)
        {
          var found := EvaluateString(p, spans[i].expr, seen);
          if found == [] { return []; }
          parts := parts + [Suffixed(found, spans[i].literal)];
        }
        assert parts == [[head]] + EvaluateSpans(p, e, spans, seen).value;
        return Combine(parts);
      case Conditional(a, b) =>
        var x := EvaluateString(p, a, seen);
        var y := EvaluateString(p, b, seen);
        return x + y;
      case Plus(l, r) =>
        var x := EvaluateString(p, l, seen);
        var y := EvaluateString(p, r, seen);
        return if x != [] && y != [] then Combine([x, y]) else [];
      case Fallback(l, r) =>
        var x := EvaluateString(p, l, seen);
        var y := EvaluateString(p, r, seen);
        return x + y;
      case Dynamic => return [];
    }
  }

  // ---------- what a value is ----------

  /** A choice of branches, as deep as the evaluation goes. */
  datatype Choices = Here | Through(inner: Choices) | First(inner: Choices) | Second(inner: Choices)
    | Both(one: Choices, two: Choices) | Each(spans: seq<Choices>)

  /** The value of an expression under one choice of branches, following bindings freely. */
  function ValueOf(p: Program, e: Expr, c: Choices): Option<string>
    requires Closed(p)
    decreases c
  {
    match e
    case Literal(text) => if c.Here? then Some(text) else None
    case Wrapped(inner) => if c.Through? then ValueOf(p, inner, c.inner) else None
    case Identifier(scopes, name) =>
      var node := Resolve(p, scopes, name);
      if c.Through? && node.Some? then ValueOf(p, p.inits[node.value], c.inner) else None
    case Template(head, spans) =>
      if c.Each? && |c.spans| == |spans| && SpanValues(p, spans, c.spans).Some?
      then Some(head + Flat(SpanValues(p, spans, c.spans).value)) else None
    case Conditional(a, b) =>
      if c.First? then ValueOf(p, a, c.inner) else if c.Second? then ValueOf(p, b, c.inner) else None
    case Fallback(a, b) =>
      if c.First? then ValueOf(p, a, c.inner) else if c.Second? then ValueOf(p, b, c.inner) else None
    case Plus(l, r) =>
      if c.Both? && ValueOf(p, l, c.one).Some? && ValueOf(p, r, c.two).Some?
      then Some(ValueOf(p, l, c.one).value + ValueOf(p, r, c.two).value) else None
    case Dynamic => None
  }

  function SpanValues(p: Program, spans: seq<Span>, cs: seq<Choices>): (r: Option<seq<string>>)
    requires Closed(p) && |spans| == |cs|
    ensures r.Some? <==> forall i :: 0 <= i < |cs| ==> ValueOf(p, spans[i].expr, cs[i]).Some?
    ensures r.Some? ==>
      |r.value| == |cs| && forall i :: 0 <= i < |cs| ==>
        r.value[i] == ValueOf(p, spans[i].expr, cs[i]).value + spans[i].literal
    decreases cs, 0
  {
    if cs == [] then Some([])
    else
      var first := ValueOf(p, spans[0].expr, cs[0]);
      var rest := SpanValues(p, spans[1..], cs[1..]);
      if first.None? || rest.None? then None else Some([first.value + spans[0].literal] + rest.value)
  }

  function Flat(texts: seq<string>): string {
    if texts == [] then "" else texts[0] + Flat(texts[1..])
  }

  /** No binding is followed again below itself, nor one already seen. */
  predicate Straight(p: Program, e: Expr, c: Choices, seen: set<Node>)
    requires Closed(p)
    decreases c
  {
    match e
    case Wrapped(inner) => c.Through? ==> Straight(p, inner, c.inner, seen)
    case Identifier(scopes, name) =>
      var node := Resolve(p, scopes, name);
      c.Through? && node.Some? ==> node.value !in seen && Straight(p, p.inits[node.value], c.inner, seen + {node.value})
    case Template(head, spans) =>
      c.Each? && |c.spans| == |spans| ==> forall i :: 0 <= i < |spans| ==> Straight(p, spans[i].expr, c.spans[i], seen)
    case Conditional(a, b) =>
      (c.First? ==> Straight(p, a, c.inner, seen)) && (c.Second? ==> Straight(p, b, c.inner, seen))
    case Fallback(a, b) =>
      (c.First? ==> Straight(p, a, c.inner, seen)) && (c.Second? ==> Straight(p, b, c.inner, seen))
    case Plus(l, r) => c.Both? ==> Straight(p, l, c.one, seen) && Straight(p, r, c.two, seen)
    case _ => true
  }

  // ---------- combining ----------

  lemma {:induction false} CrossMembers(prefixes: seq<string>, values: seq<string>, s: string)
    ensures s in Cross(prefixes, values) <==> exists a, b :: a in prefixes && b in values && s == a + b
  {
    if prefixes != [] {
      CrossMembers(prefixes[1..], values, s);
      var here := Prefixed(prefixes[0], values);
      if s in here {
        var i :| 0 <= i < |here| && here[i] == s;
        assert prefixes[0] in prefixes && values[i] in values && s == prefixes[0] + values[i];
      }
      if exists a, b :: a in prefixes && b in values && s == a + b {
        var a, b :| a in prefixes && b in values && s == a + b;
        if a == prefixes[0] {
          var i :| 0 <= i < |values| && values[i] == b;
          assert here[i] == s;
        } else {
          assert a in prefixes[1..];
        }
      }
    }
  }

  ghost predicate Picks(parts: seq<seq<string>>, picks: seq<string>) {
    |picks| == |parts| && forall i :: 0 <= i < |parts| ==> picks[i] in parts[i]
  }

  lemma FlatOne(a: string)
    ensures Flat([a]) == a
  {
    assert [a][1..] == [];
  }

  lemma FlatMore(a: string, rest: seq<string>)
    ensures Flat([a] + rest) == a + Flat(rest)
  {
    assert ([a] + rest)[1..] == rest;
  }

  /** The text is a prefix followed by one pick from every part. */
  ghost predicate Combined(prefixes: seq<string>, parts: seq<seq<string>>, s: string, a: string, picks: seq<string>) {
    a in prefixes && Picks(parts, picks) && s == a + Flat(picks)
  }

  lemma {:induction false} CombineFromMembers(prefixes: seq<string>, parts: seq<seq<string>>, s: string)
    ensures s in CombineFrom(prefixes, parts) <==> exists a, picks :: Combined(prefixes, parts, s, a, picks)
    decreases |parts|
  {
    if parts == [] {
      if s in prefixes { assert Combined(prefixes, parts, s, s, []); }
      if a, picks :| Combined(prefixes, parts, s, a, picks) { assert picks == [] && a + Flat(picks) == a; }
    } else {
      var crossed := Cross(prefixes, parts[0]);
      CombineFromMembers(crossed, parts[1..], s);
      if a, picks :| Combined(crossed, parts[1..], s, a, picks) { CombinedFront(prefixes, parts, s, a, picks); }
      if a, picks :| Combined(prefixes, parts, s, a, picks) { CombinedBack(prefixes, parts, s, a, picks); }
    }
  }

  lemma CombinedFront(prefixes: seq<string>, parts: seq<seq<string>>, s: string, a: string, picks: seq<string>)
    requires parts != [] && Combined(Cross(prefixes, parts[0]), parts[1..], s, a, picks)
    ensures exists x, longer :: Combined(prefixes, parts, s, x, longer)
  {
    CrossMembers(prefixes, parts[0], a);
    var x, y :| x in prefixes && y in parts[0] && a == x + y;
    FlatMore(y, picks);
    assert x + (y + Flat(picks)) == s;
    assert Picks(parts, [y] + picks);
    assert Combined(prefixes, parts, s, x, [y] + picks);
  }

  lemma CombinedBack(prefixes: seq<string>, parts: seq<seq<string>>, s: string, a: string, picks: seq<string>)
    requires parts != [] && Combined(prefixes, parts, s, a, picks)
    ensures Combined(Cross(prefixes, parts[0]), parts[1..], s, a + picks[0], picks[1..])
  {
    CrossMembers(prefixes, parts[0], a + picks[0]);
    FlatMore(picks[0], picks[1..]);
    assert picks == [picks[0]] + picks[1..];
    assert (a + picks[0]) + Flat(picks[1..]) == s;
  }

  lemma CombineMembers(parts: seq<seq<string>>, s: string)
    ensures s in Combine(parts) <==> exists picks :: Picks(parts, picks) && s == Flat(picks)
  {
    CombineFromMembers([""], parts, s);
    if picks :| Picks(parts, picks) && s == Flat(picks) {
      assert Combined([""], parts, s, "", picks);
    }
    if a, picks :| Combined([""], parts, s, a, picks) {
      assert a == "" && s == Flat(picks);
    }
  }

  // ---------- the evaluator against the choices ----------

  predicate Gives(p: Program, e: Expr, c: Choices, seen: set<Node>, s: string)
    requires Closed(p)
  {
    ValueOf(p, e, c) == Some(s) && Straight(p, e, c, seen)
  }

  /** The evaluator returns exactly the values of the choices that never re-enter a binding. */
  lemma {:induction false} EvaluateExact(p: Program, e: Expr, seen: set<Node>, s: string)
    requires Closed(p)
    ensures s in Evaluate(p, e, seen) <==> exists c :: Gives(p, e, c, seen, s)
    decreases p.inits.Keys - seen, e
  {
    match e {
      case Literal(text) => assert s == text ==> Gives(p, e, Here, seen, s);
      case Wrapped(inner) =>
        EvaluateExact(p, inner, seen, s);
        if s in Evaluate(p, e, seen) {
          var c :| Gives(p, inner, c, seen, s);
          assert Gives(p, e, Through(c), seen, s);
        }
        if c :| Gives(p, e, c, seen, s) { assert Gives(p, inner, c.inner, seen, s); }
      case Identifier(scopes, name) => ExactBinding(p, e, seen, s);
      case Template(head, spans) => ExactTemplate(p, e, seen, s);
      case Conditional(a, b) =>
        EvaluateExact(p, a, seen, s);
        EvaluateExact(p, b, seen, s);
        ExactBranches(p, e, a, b, seen, s);
      case Plus(l, r) => ExactPlus(p, e, seen, s);
      case Fallback(a, b) =>
        EvaluateExact(p, a, seen, s);
        EvaluateExact(p, b, seen, s);
        ExactBranches(p, e, a, b, seen, s);
      case Dynamic =>
    }
  }

  lemma ExactBinding(p: Program, e: Expr, seen: set<Node>, s: string)
    requires Closed(p) && e.Identifier?
    ensures s in Evaluate(p, e, seen) <==> exists c :: Gives(p, e, c, seen, s)
    decreases p.inits.Keys - seen, e, 0
  {
    var node := Resolve(p, e.scopes, e.name);
    if node.Some? && node.value !in seen {
      var below := seen + {node.value};
      EvaluateExact(p, p.inits[node.value], below, s);
      if s in Evaluate(p, e, seen) {
        var c :| Gives(p, p.inits[node.value], c, below, s);
        assert Gives(p, e, Through(c), seen, s);
      }
      if c :| Gives(p, e, c, seen, s) { assert Gives(p, p.inits[node.value], c.inner, below, s); }
    }
  }

  lemma ExactBranches(p: Program, e: Expr, a: Expr, b: Expr, seen: set<Node>, s: string)
    requires Closed(p) && (e == Conditional(a, b) || e == Fallback(a, b))
    requires s in Evaluate(p, a, seen) <==> exists c :: Gives(p, a, c, seen, s)
    requires s in Evaluate(p, b, seen) <==> exists c :: Gives(p, b, c, seen, s)
    ensures s in Evaluate(p, e, seen) <==> exists c :: Gives(p, e, c, seen, s)
  {
    if c :| Gives(p, a, c, seen, s) { assert Gives(p, e, First(c), seen, s); }
    if c :| Gives(p, b, c, seen, s) { assert Gives(p, e, Second(c), seen, s); }
    if c :| Gives(p, e, c, seen, s) { GivesBranch(p, e, a, b, c, seen, s); }
  }

  lemma GivesBranch(p: Program, e: Expr, a: Expr, b: Expr, c: Choices, seen: set<Node>, s: string)
    requires Closed(p) && (e == Conditional(a, b) || e == Fallback(a, b)) && Gives(p, e, c, seen, s)
    ensures (c.First? && Gives(p, a, c.inner, seen, s)) || (c.Second? && Gives(p, b, c.inner, seen, s))
  {
  }

  lemma ExactPlus(p: Program, e: Expr, seen: set<Node>, s: string)
    requires Closed(p) && e.Plus?
    ensures s in Evaluate(p, e, seen) <==> exists c :: Gives(p, e, c, seen, s)
    decreases p.inits.Keys - seen, e, 0
  {
    var left, right := Evaluate(p, e.left, seen), Evaluate(p, e.right, seen);
    PairMembers(left, right, s);
    if s in Evaluate(p, e, seen) {
      var x, y :| x in left && y in right && s == x + y;
      EvaluateExact(p, e.left, seen, x);
      EvaluateExact(p, e.right, seen, y);
      var c :| Gives(p, e.left, c, seen, x);
      var d :| Gives(p, e.right, d, seen, y);
      assert Gives(p, e, Both(c, d), seen, s);
    }
    if c :| Gives(p, e, c, seen, s) {
      var x, y := ValueOf(p, e.left, c.one).value, ValueOf(p, e.right, c.two).value;
      EvaluateExact(p, e.left, seen, x);
      EvaluateExact(p, e.right, seen, y);
      assert Gives(p, e.left, c.one, seen, x) && Gives(p, e.right, c.two, seen, y);
      assert x in left && y in right && s == x + y;
    }
  }

  lemma PairMembers(left: seq<string>, right: seq<string>, s: string)
    ensures s in Combine([left, right]) <==> exists x, y :: x in left && y in right && s == x + y
  {
    CombineMembers([left, right], s);
    if picks :| Picks([left, right], picks) && s == Flat(picks) {
      FlatMore(picks[0], picks[1..]);
      FlatOne(picks[1]);
      assert picks == [picks[0]] + picks[1..] && picks[1..] == [picks[1]];
      assert picks[0] in [left, right][0] && picks[1] in [left, right][1];
    }
    if x, y :| x in left && y in right && s == x + y {
      FlatMore(x, [y]);
      FlatOne(y);
      assert [x] + [y] == [x, y];
      assert Picks([left, right], [x, y]) && s == Flat([x, y]);
    }
  }

  lemma ExactTemplate(p: Program, e: Expr, seen: set<Node>, s: string)
    requires Closed(p) && e.Template?
    ensures s in Evaluate(p, e, seen) <==> exists c :: Gives(p, e, c, seen, s)
    decreases p.inits.Keys - seen, e, 1
  {
    var parts := EvaluateSpans(p, e, e.spans, seen);
    if parts.Some? { HeadMembers(e.head, parts.value, s); }
    if s in Evaluate(p, e, seen) {
      var texts :| Picks(parts.value, texts) && s == e.head + Flat(texts);
      var cs := SpanChoices(p, e, e.spans, seen, texts);
      GivesTemplate(p, e, cs, seen, texts);
    }
    if c :| Gives(p, e, c, seen, s) {
      var texts := SpanValues(p, e.spans, c.spans).value;
      forall i | 0 <= i < |e.spans|
        ensures texts[i] in Suffixed(Evaluate(p, e.spans[i].expr, seen), e.spans[i].literal) {
        SpanFound(p, e, e.spans[i], c.spans[i], seen);
      }
      assert parts.Some?;
      assert Picks(parts.value, texts);
    }
  }

  lemma HeadMembers(head: string, parts: seq<seq<string>>, s: string)
    ensures s in Combine([[head]] + parts) <==> exists texts :: Picks(parts, texts) && s == head + Flat(texts)
  {
    var all := [[head]] + parts;
    CombineMembers(all, s);
    if picks :| Picks(all, picks) && s == Flat(picks) {
      FlatMore(picks[0], picks[1..]);
      assert picks == [picks[0]] + picks[1..] && picks[0] in all[0];
      forall i | 0 <= i < |parts| ensures picks[1..][i] in parts[i] { assert all[i + 1] == parts[i]; }
      assert Picks(parts, picks[1..]);
    }
    if texts :| Picks(parts, texts) && s == head + Flat(texts) {
      FlatMore(head, texts);
      assert Picks(all, [head] + texts);
    }
  }

  lemma GivesTemplate(p: Program, e: Expr, cs: seq<Choices>, seen: set<Node>, texts: seq<string>)
    requires Closed(p) && e.Template? && |cs| == |e.spans| == |texts|
    requires forall i :: 0 <= i < |cs| ==>
      ValueOf(p, e.spans[i].expr, cs[i]).Some? && Straight(p, e.spans[i].expr, cs[i], seen)
    requires forall i :: 0 <= i < |cs| ==> texts[i] == ValueOf(p, e.spans[i].expr, cs[i]).value + e.spans[i].literal
    ensures Gives(p, e, Each(cs), seen, e.head + Flat(texts))
  {
    assert SpanValues(p, e.spans, cs).value == texts;
  }

  lemma SpanFound(p: Program, e: Expr, span: Span, c: Choices, seen: set<Node>)
    requires Closed(p) && span.expr < e && ValueOf(p, span.expr, c).Some? && Straight(p, span.expr, c, seen)
    ensures ValueOf(p, span.expr, c).value + span.literal in Suffixed(Evaluate(p, span.expr, seen), span.literal)
    decreases p.inits.Keys - seen, e, 0
  {
    var text := ValueOf(p, span.expr, c).value;
    EvaluateExact(p, span.expr, seen, text);
    assert Gives(p, span.expr, c, seen, text);
    var values := Evaluate(p, span.expr, seen);
    var i :| 0 <= i < |values| && values[i] == text;
    assert Suffixed(values, span.literal)[i] == text + span.literal;
  }

  /** The choices behind one text for every span. */
  lemma SpanChoices(p: Program, e: Expr, spans: seq<Span>, seen: set<Node>, texts: seq<string>)
    returns (cs: seq<Choices>)
    requires Closed(p) && |texts| == |spans| && forall i :: 0 <= i < |spans| ==> spans[i].expr < e
    requires forall i :: 0 <= i < |spans| ==> texts[i] in Suffixed(Evaluate(p, spans[i].expr, seen), spans[i].literal)
    ensures |cs| == |spans|
    ensures forall i :: 0 <= i < |spans| ==>
      ValueOf(p, spans[i].expr, cs[i]).Some? && Straight(p, spans[i].expr, cs[i], seen)
    ensures forall i :: 0 <= i < |spans| ==> texts[i] == ValueOf(p, spans[i].expr, cs[i]).value + spans[i].literal
    decreases p.inits.Keys - seen, e, 0, |spans|
  {
    if spans == [] { return []; }
    var n := |spans| - 1;
    var front := SpanChoices(p, e, spans[..n], seen, texts[..n]);
    var values := Evaluate(p, spans[n].expr, seen);
    var i :| 0 <= i < |values| && Suffixed(values, spans[n].literal)[i] == texts[n];
    EvaluateExact(p, spans[n].expr, seen, values[i]);
    var c :| Gives(p, spans[n].expr, c, seen, values[i]);
    cs := front + [c];
  }

  // ---------- acyclic bindings ----------

  /** The expression names the binding somewhere. */
  predicate Mentions(p: Program, e: Expr, node: Node) {
    match e
    case Literal(_) => false
    case Wrapped(inner) => Mentions(p, inner, node)
    case Identifier(scopes, name) => Resolve(p, scopes, name) == Some(node)
    case Template(_, spans) => exists i :: 0 <= i < |spans| && Mentions(p, spans[i].expr, node)
    case Conditional(a, b) => Mentions(p, a, node) || Mentions(p, b, node)
    case Plus(l, r) => Mentions(p, l, node) || Mentions(p, r, node)
    case Fallback(l, r) => Mentions(p, l, node) || Mentions(p, r, node)
    case Dynamic => false
  }

  /** Each binding's initializer names the next. */
  predicate Trail(p: Program, nodes: seq<Node>) {
    (forall i :: 0 <= i < |nodes| ==> nodes[i] in p.inits)
    && forall i :: 0 < i < |nodes| ==> Mentions(p, p.inits[nodes[i - 1]], nodes[i])
  }

  /** No binding the expression reaches is reached again from itself; other bindings may be. */
  ghost predicate Acyclic(p: Program, root: Expr) {
    forall nodes, i, j :: Trail(p, nodes) && 0 <= i < j < |nodes| && Mentions(p, root, nodes[0]) ==>
      nodes[i] != nodes[j]
  }

  /** Where every initializer names only bindings of a smaller rank, as in declaration order. */
  ghost predicate Ranked(p: Program, rank: Node -> int) {
    forall n, m :: n in p.inits && Mentions(p, p.inits[n], m) ==> rank(m) < rank(n)
  }

  lemma {:induction false} TrailDescends(p: Program, rank: Node -> int, nodes: seq<Node>, i: nat, j: nat)
    requires Ranked(p, rank) && Trail(p, nodes) && i < j < |nodes|
    ensures rank(nodes[j]) < rank(nodes[i])
    decreases j
  {
    hide Mentions;
    assert Mentions(p, p.inits[nodes[j - 1]], nodes[j]);
    if i < j - 1 { TrailDescends(p, rank, nodes, i, j - 1); }
  }

  lemma RankedIsAcyclic(p: Program, rank: Node -> int, root: Expr)
    requires Ranked(p, rank)
    ensures Acyclic(p, root)
  {
    hide Mentions;
    forall nodes, i, j | Trail(p, nodes) && 0 <= i < j < |nodes| && Mentions(p, root, nodes[0])
      ensures nodes[i] != nodes[j]
    {
      TrailDescends(p, rank, nodes, i, j);
    }
  }

  /** A trail from the root, and whatever the expression names comes next on it. */
  ghost predicate Below(p: Program, root: Expr, e: Expr, trail: seq<Node>) {
    && Trail(p, trail) && (trail != [] ==> Mentions(p, root, trail[0]))
    && forall n :: Mentions(p, e, n) ==>
      if trail == [] then Mentions(p, root, n) else Mentions(p, p.inits[trail[|trail| - 1]], n)
  }

  /** A part of an expression names nothing the whole does not name. */
  predicate PartOf(part: Expr, e: Expr) {
    match e
    case Wrapped(inner) => part == inner
    case Template(_, spans) => exists i :: 0 <= i < |spans| && part == spans[i].expr
    case Conditional(a, b) => part == a || part == b
    case Plus(l, r) => part == l || part == r
    case Fallback(l, r) => part == l || part == r
    case _ => false
  }

  lemma PartIsBelow(p: Program, root: Expr, e: Expr, part: Expr, trail: seq<Node>)
    requires Below(p, root, e, trail) && PartOf(part, e)
    ensures Below(p, root, part, trail)
  {
    forall n | Mentions(p, part, n) ensures Mentions(p, e, n) {}
  }

  /** Following a name from below the trail makes the trail longer, never closes it. */
  lemma TrailGrows(p: Program, root: Expr, e: Expr, node: Node, trail: seq<Node>)
    requires Closed(p) && Acyclic(p, root) && Below(p, root, e, trail) && node in p.inits && Mentions(p, e, node)
    ensures node !in trail && Below(p, root, p.inits[node], trail + [node])
  {
    hide Mentions;
    var longer := trail + [node];
    assert Trail(p, longer) && Mentions(p, root, longer[0]);
    forall k | 0 <= k < |trail| ensures trail[k] != node { assert longer[k] != longer[|trail|]; }
  }

  lemma {:induction false} AcyclicIsStraight(p: Program, root: Expr, e: Expr, c: Choices, trail: seq<Node>,
      seen: set<Node>)
    requires Closed(p) && Acyclic(p, root) && Below(p, root, e, trail) && seen == set n | n in trail
    ensures Straight(p, e, c, seen)
    decreases c
  {
    hide Acyclic, Below;
    match e {
      case Wrapped(inner) => if c.Through? { PartIsStraight(p, root, e, inner, c, c.inner, trail, seen); }
      case Identifier(scopes, name) =>
        var node := Resolve(p, scopes, name);
        if c.Through? && node.Some? {
          assert Mentions(p, e, node.value);
          TrailGrows(p, root, e, node.value, trail);
          AcyclicIsStraight(p, root, p.inits[node.value], c.inner, trail + [node.value], seen + {node.value});
        }
      case Template(head, spans) =>
        if c.Each? && |c.spans| == |spans| {
          forall i | 0 <= i < |spans| ensures Straight(p, spans[i].expr, c.spans[i], seen) {
            PartIsStraight(p, root, e, spans[i].expr, c, c.spans[i], trail, seen);
          }
        }
      case Conditional(a, b) =>
        if c.First? { PartIsStraight(p, root, e, a, c, c.inner, trail, seen); }
        if c.Second? { PartIsStraight(p, root, e, b, c, c.inner, trail, seen); }
      case Fallback(a, b) =>
        if c.First? { PartIsStraight(p, root, e, a, c, c.inner, trail, seen); }
        if c.Second? { PartIsStraight(p, root, e, b, c, c.inner, trail, seen); }
      case Plus(l, r) =>
        if c.Both? {
          PartIsStraight(p, root, e, l, c, c.one, trail, seen);
          PartIsStraight(p, root, e, r, c, c.two, trail, seen);
        }
      case _ =>
    }
  }

  lemma PartIsStraight(p: Program, root: Expr, e: Expr, part: Expr, c: Choices, below: Choices, trail: seq<Node>,
      seen: set<Node>)
    requires Closed(p) && Acyclic(p, root) && Below(p, root, e, trail) && seen == set n | n in trail
    requires PartOf(part, e) && below < c
    ensures Straight(p, part, below, seen)
    decreases c, 0
  {
    PartIsBelow(p, root, e, part, trail);
    AcyclicIsStraight(p, root, part, below, trail, seen);
  }

  /** Where no reachable binding reaches itself the evaluator returns every value and nothing else. */
  lemma AcyclicIsComplete(p: Program, e: Expr, s: string)
    requires Closed(p) && Acyclic(p, e)
    ensures s in Evaluate(p, e, {}) <==> exists c :: ValueOf(p, e, c) == Some(s)
  {
    EvaluateExact(p, e, {}, s);
    if c :| ValueOf(p, e, c) == Some(s) {
      AcyclicIsStraight(p, e, e, c, [], {});
      assert Gives(p, e, c, {}, s);
    }
    if s in Evaluate(p, e, {}) {
      var c :| Gives(p, e, c, {}, s);
      assert ValueOf(p, e, c) == Some(s);
    }
  }

  /** `x = "a"`, `y = x + "b"`: declared in order, so nothing is missed. */
  lemma OrderedValues() returns (p: Program, e: Expr)
    ensures Closed(p) && Acyclic(p, e) && "ab" in Evaluate(p, e, {})
  {
    var x := Identifier([0], "x");
    e := Identifier([0], "y");
    var sum := Plus(x, Literal("b"));
    p := Program(map[0 := map["x" := 0, "y" := 1]], map[0 := Literal("a"), 1 := sum]);
    assert Resolve(p, [0], "x") == Some(0) && Resolve(p, [0], "y") == Some(1);
    assert forall m :: Mentions(p, sum, m) ==> m == 0 by { assert forall m :: Mentions(p, x, m) ==> m == 0; }
    RankedIsAcyclic(p, (n: Node) => n, e);
    assert ValueOf(p, x, Through(Here)) == Some("a");
    assert ValueOf(p, sum, Both(Through(Here), Here)) == Some("a" + "b") && "a" + "b" == "ab";
    ValueIsReturned(p, e, Through(Both(Through(Here), Here)), "ab");
  }

  lemma ValueIsReturned(p: Program, e: Expr, c: Choices, s: string)
    requires Closed(p) && Acyclic(p, e) && ValueOf(p, e, c) == Some(s)
    ensures s in Evaluate(p, e, {})
  {
    AcyclicIsComplete(p, e, s);
  }

  /** `x = flag ? "b" : "a" + x`: "ab" is one of its values, and the evaluator misses it. */
  lemma CyclesLoseValues() returns (p: Program, e: Expr)
    ensures Closed(p) && !Acyclic(p, e)
    ensures exists c :: ValueOf(p, e, c) == Some("ab")
    ensures "ab" !in Evaluate(p, e, {})
  {
    e := Identifier([0], "x");
    var body := Conditional(Literal("b"), Plus(Literal("a"), e));
    p := Program(map[0 := map["x" := 7]], map[7 := body]);
    assert Resolve(p, [0], "x") == Some(7);
    assert Mentions(p, Plus(Literal("a"), e), 7) && Mentions(p, body, 7);
    assert Trail(p, [7, 7]) && Mentions(p, e, [7, 7][0]) && [7, 7][0] == [7, 7][1];
    var inner := Through(First(Here));
    assert ValueOf(p, body, First(Here)) == Some("b") && ValueOf(p, e, inner) == Some("b");
    var tail := Both(Here, inner);
    assert ValueOf(p, Plus(Literal("a"), e), tail) == Some("a" + "b");
    assert "a" + "b" == "ab";
    assert ValueOf(p, body, Second(tail)) == Some("ab");
    assert ValueOf(p, e, Through(Second(tail))) == Some("ab");
    assert Evaluate(p, e, {7}) == [];
    assert Evaluate(p, Plus(Literal("a"), e), {7}) == [];
    assert Evaluate(p, body, {7}) == ["b"];
    assert {7} == {} + {7} && Evaluate(p, e, {}) == ["b"];
  }
}
