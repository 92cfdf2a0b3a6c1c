/** JavaScript values as a heap of nodes with sharing and cycles, and the two
    checks that accept exactly the plain, acyclic JSON among them. */
module JsonGraph {
  import opened Options

  type Ref = nat

  /** `Alien` stands for undefined, functions, symbols and big integers. */
  datatype Value = Null | Text | Boolean | Number(finite: bool) | Alien | Object(ref: Ref)

  datatype Proto = ObjectPrototype | ArrayPrototype | NoPrototype | OtherPrototype

  /** A property: what reading it gives, and how it is defined. */
  datatype Slot = Slot(value: Value, enumerable: bool, accessor: bool)

  /** `elements` are the indexed properties of an array, holes included; `properties` the other string keys. */
  datatype Node = Node(isArray: bool, proto: Proto, symbols: bool, elements: seq<Option<Slot>>, properties: seq<Slot>)

  type Heap = map<Ref, Node>

  /** The two checks: `isJsonValue`, and the stricter `assertJsonConfiguration`. */
  datatype Rules = JsonValue | Configuration

  predicate Plain(rules: Rules, n: Node) {
    && !n.symbols
    && (n.isArray ==> forall i :: 0 <= i < |n.elements| ==> n.elements[i].Some?)
    && match rules
       case JsonValue => n.proto != OtherPrototype
       case Configuration =>
         && (!n.isArray ==> n.proto == ObjectPrototype || n.proto == NoPrototype)
         && (n.isArray ==> n.properties == [] && forall i :: 0 <= i < |n.elements| ==> DataSlot(n.elements[i].value))
         && (!n.isArray ==> forall i :: 0 <= i < |n.properties| ==> DataSlot(n.properties[i]))
  }

  predicate DataSlot(s: Slot) { s.enumerable && !s.accessor }

  function Elements(slots: seq<Option<Slot>>): seq<Value> {
    if slots == [] then []
    else Elements(slots[..|slots| - 1]) + (if slots[|slots| - 1].Some? then [slots[|slots| - 1].value.value] else [])
  }

  /** `Object.values`: the enumerable properties. */
  function Values(slots: seq<Slot>): seq<Value> {
    if slots == [] then []
    else Values(slots[..|slots| - 1]) + (if slots[|slots| - 1].enumerable then [slots[|slots| - 1].value] else [])
  }

  function Children(n: Node): seq<Value> {
    if n.isArray then Elements(n.elements) else Values(n.properties)
  }

  predicate Closed(heap: Heap) {
    forall r, i :: r in heap && 0 <= i < |Children(heap[r])| && Children(heap[r])[i].Object? ==>
      Children(heap[r])[i].ref in heap
  }

  predicate Known(heap: Heap, v: Value) { v.Object? ==> v.ref in heap }

  predicate LeafOk(v: Value) {
    match v
    case Number(finite) => finite
    case Alien => false
    case _ => true
  }

  // ---------- what acceptance means ----------

  /** The node is plain and its own leaves are JSON. */
  predicate NodeOk(rules: Rules, heap: Heap, r: Ref) {
    r in heap && Plain(rules, heap[r]) && forall i :: 0 <= i < |Children(heap[r])| ==> LeafOk(Children(heap[r])[i])
  }

  predicate Edge(heap: Heap, a: Ref, b: Ref) {
    a in heap && Object(b) in Children(heap[a])
  }

  ghost predicate Path(heap: Heap, p: seq<Ref>) {
    p != [] && forall i :: 0 <= i < |p| - 1 ==> Edge(heap, p[i], p[i + 1])
  }

  ghost predicate Reaches(heap: Heap, a: Ref, b: Ref) {
    exists p :: Path(heap, p) && p[0] == a && p[|p| - 1] == b
  }

  ghost predicate OnCycle(heap: Heap, a: Ref) {
    exists p :: Path(heap, p) && |p| >= 2 && p[0] == a && p[|p| - 1] == a
  }

  /** Every reachable node is plain JSON and none lies on a cycle; sharing is fine. */
  ghost predicate PlainAndAcyclic(rules: Rules, heap: Heap, v: Value) {
    LeafOk(v) && (v.Object? ==> forall r :: Reaches(heap, v.ref, r) ==> NodeOk(rules, heap, r) && !OnCycle(heap, r))
  }

  /** `v` is what some slot of the list reads as. */
  ghost predicate Read(slots: seq<Option<Slot>>, v: Value) {
    exists i :: 0 <= i < |slots| && slots[i].Some? && slots[i].value.value == v
  }

  lemma {:induction false} ElementsMean(slots: seq<Option<Slot>>, v: Value)
    ensures v in Elements(slots) <==> Read(slots, v)
  {
    if slots != [] {
      var front := slots[..|slots| - 1];
      ElementsMean(front, v);
      if i :| 0 <= i < |slots| && slots[i].Some? && slots[i].value.value == v {
        assert i < |front| ==> front[i] == slots[i];
      }
    }
  }

  /** `v` is what some enumerable slot reads as. */
  ghost predicate Shown(slots: seq<Slot>, v: Value) {
    exists i :: 0 <= i < |slots| && slots[i].enumerable && slots[i].value == v
  }

  lemma {:induction false} ValuesMean(slots: seq<Slot>, v: Value)
    ensures v in Values(slots) <==> Shown(slots, v)
  {
    if slots != [] {
      var front := slots[..|slots| - 1];
      ValuesMean(front, v);
      if i :| 0 <= i < |slots| && slots[i].enumerable && slots[i].value == v {
        assert i < |front| ==> front[i] == slots[i];
      }
    }
  }

  /** The check goes on from an array to what its indexes hold and from an object to what its
      enumerable properties hold. */
  lemma EdgeMeans(heap: Heap, a: Ref, b: Ref)
    ensures Edge(heap, a, b) <==>
      && a in heap
      && if heap[a].isArray then Read(heap[a].elements, Object(b)) else Shown(heap[a].properties, Object(b))
  {
    if a in heap {
      ElementsMean(heap[a].elements, Object(b));
      ValuesMean(heap[a].properties, Object(b));
    }
  }

  /** No undefined, function, symbol, big integer or number that is not finite. */
  predicate JsonLeaf(v: Value) { v != Alien && v != Number(false) }

  lemma LeavesMean(heap: Heap, r: Ref)
    requires r in heap
    ensures (forall i :: 0 <= i < |Children(heap[r])| ==> LeafOk(Children(heap[r])[i])) <==>
      if heap[r].isArray
      then forall i :: 0 <= i < |heap[r].elements| && heap[r].elements[i].Some? ==>
        JsonLeaf(heap[r].elements[i].value.value)
      else forall i :: 0 <= i < |heap[r].properties| && heap[r].properties[i].enumerable ==>
        JsonLeaf(heap[r].properties[i].value)
  {
    var n := heap[r];
    var children := Children(n);
    forall v ensures LeafOk(v) <==> JsonLeaf(v) { }
    forall i | 0 <= i < |n.elements| && n.elements[i].Some?
      ensures n.elements[i].value.value in Elements(n.elements)
    {
      ElementsMean(n.elements, n.elements[i].value.value);
    }
    forall i | 0 <= i < |n.properties| && n.properties[i].enumerable
      ensures n.properties[i].value in Values(n.properties)
    {
      ValuesMean(n.properties, n.properties[i].value);
    }
    forall i | 0 <= i < |children|
      ensures n.isArray ==> Read(n.elements, children[i])
      ensures !n.isArray ==> Shown(n.properties, children[i])
    {
      assert children[i] in children;
      if n.isArray { ElementsMean(n.elements, children[i]); } else { ValuesMean(n.properties, children[i]); }
    }
  }

  /** What the value check asks of an array: an ordinary prototype, no symbol keys, no holes, and
      JSON leaves. */
  lemma JsonArrayMeans(heap: Heap, r: Ref)
    requires r in heap && heap[r].isArray
    ensures NodeOk(JsonValue, heap, r) <==>
      && heap[r].proto != OtherPrototype && !heap[r].symbols
      && forall i :: 0 <= i < |heap[r].elements| ==>
        heap[r].elements[i].Some? && JsonLeaf(heap[r].elements[i].value.value)
  {
    LeavesMean(heap, r);
    hide Children, LeafOk, JsonLeaf;
  }

  /** And of an object: hidden properties are not looked at, accessors are read. */
  lemma JsonObjectMeans(heap: Heap, r: Ref)
    requires r in heap && !heap[r].isArray
    ensures NodeOk(JsonValue, heap, r) <==>
      && heap[r].proto != OtherPrototype && !heap[r].symbols
      && forall i :: 0 <= i < |heap[r].properties| && heap[r].properties[i].enumerable ==>
        JsonLeaf(heap[r].properties[i].value)
  {
    LeavesMean(heap, r);
    hide Children, LeafOk, JsonLeaf;
  }

  /** The configuration check admits any array prototype, but no property beside the indexes and
      no hidden or computed element. */
  lemma ConfigurationArrayMeans(heap: Heap, r: Ref)
    requires r in heap && heap[r].isArray
    ensures NodeOk(Configuration, heap, r) <==>
      && !heap[r].symbols && heap[r].properties == []
      && forall i :: 0 <= i < |heap[r].elements| ==>
        && heap[r].elements[i].Some? && JsonLeaf(heap[r].elements[i].value.value)
        && heap[r].elements[i].value.enumerable && !heap[r].elements[i].value.accessor
  {
    LeavesMean(heap, r);
    hide Children, LeafOk, JsonLeaf;
  }

  /** Of an object it wants a plain prototype and plain, visible data throughout. */
  lemma ConfigurationObjectMeans(heap: Heap, r: Ref)
    requires r in heap && !heap[r].isArray
    ensures NodeOk(Configuration, heap, r) <==>
      && (heap[r].proto == ObjectPrototype || heap[r].proto == NoPrototype) && !heap[r].symbols
      && forall i :: 0 <= i < |heap[r].properties| ==>
        && JsonLeaf(heap[r].properties[i].value)
        && heap[r].properties[i].enumerable && !heap[r].properties[i].accessor
  {
    LeavesMean(heap, r);
    hide Children, LeafOk, JsonLeaf;
  }

  /** A configuration is a JSON value unless it holds an array with a prototype of its own making. */
  lemma ConfigurationsAreJsonIff(heap: Heap, v: Value)
    requires PlainAndAcyclic(Configuration, heap, v)
    ensures PlainAndAcyclic(JsonValue, heap, v) <==>
      (v.Object? ==> forall r :: Reaches(heap, v.ref, r) && heap[r].isArray ==> heap[r].proto != OtherPrototype)
  {
    if v.Object? {
      forall r | Reaches(heap, v.ref, r)
        ensures NodeOk(JsonValue, heap, r) <==> (heap[r].isArray ==> heap[r].proto != OtherPrototype)
      {
        if heap[r].isArray {
          JsonArrayMeans(heap, r);
          ConfigurationArrayMeans(heap, r);
        } else {
          JsonObjectMeans(heap, r);
          ConfigurationObjectMeans(heap, r);
        }
      }
    }
  }

  // ---------- the recursion ----------

  /** The check from a set of ancestors. */
  predicate Accept(rules: Rules, heap: Heap, v: Value, ancestors: set<Ref>)
    requires Closed(heap) && Known(heap, v)
    decreases heap.Keys - ancestors
  {
    if !v.Object? then LeafOk(v)
    else
      && v.ref !in ancestors && Plain(rules, heap[v.ref])
      && forall i :: 0 <= i < |Children(heap[v.ref])| ==>
        Accept(rules, heap, Children(heap[v.ref])[i], ancestors + {v.ref})
  }

  ghost predicate CleanPath(rules: Rules, heap: Heap, p: seq<Ref>, ancestors: set<Ref>) {
    && (forall i :: 0 <= i < |p| ==> p[i] !in ancestors && NodeOk(rules, heap, p[i]))
    && forall i, j :: 0 <= i < j < |p| ==> p[i] != p[j]
  }

  lemma PathTail(heap: Heap, p: seq<Ref>)
    requires Path(heap, p) && |p| >= 2
    ensures Path(heap, p[1..]) && Edge(heap, p[0], p[1])
  {
  }

  /** Acceptance makes every path clean. */
  lemma {:induction false} AcceptedPathsAreClean(rules: Rules, heap: Heap, v: Value, ancestors: set<Ref>, p: seq<Ref>)
    requires Closed(heap) && Known(heap, v) && v.Object? && Accept(rules, heap, v, ancestors)
    requires Path(heap, p) && p[0] == v.ref
    ensures CleanPath(rules, heap, p, ancestors)
    decreases |p|
  {
    var children := Children(heap[v.ref]);
    forall i | 0 <= i < |children| ensures LeafOk(children[i]) {
      assert Accept(rules, heap, children[i], ancestors + {v.ref});
    }
    if |p| >= 2 {
      PathTail(heap, p);
      var i :| 0 <= i < |children| && children[i] == Object(p[1]);
      AcceptedPathsAreClean(rules, heap, children[i], ancestors + {v.ref}, p[1..]);
      forall i, j | 0 <= i < j < |p| ensures p[i] != p[j] {
        if i == 0 { assert p[1..][j - 1] == p[j]; } else { assert p[1..][i - 1] == p[i] && p[1..][j - 1] == p[j]; }
      }
      forall i | 0 <= i < |p| ensures p[i] !in ancestors && NodeOk(rules, heap, p[i]) {
        if i > 0 { assert p[1..][i - 1] == p[i]; }
      }
    }
  }

  /** Clean paths make acceptance. */
  lemma {:induction false} CleanPathsAreAccepted(rules: Rules, heap: Heap, v: Value, ancestors: set<Ref>)
    requires Closed(heap) && Known(heap, v) && v.Object?
    requires forall p :: Path(heap, p) && p[0] == v.ref ==> CleanPath(rules, heap, p, ancestors)
    ensures Accept(rules, heap, v, ancestors)
    decreases heap.Keys - ancestors
  {
    assert Path(heap, [v.ref]);
    assert CleanPath(rules, heap, [v.ref], ancestors);
    assert [v.ref][0] == v.ref;
    var children := Children(heap[v.ref]);
    forall i | 0 <= i < |children| ensures Accept(rules, heap, children[i], ancestors + {v.ref}) {
      if children[i].Object? {
        forall p | Path(heap, p) && p[0] == children[i].ref ensures CleanPath(rules, heap, p, ancestors + {v.ref}) {
          LongerPathClean(rules, heap, v.ref, p, ancestors);
        }
        CleanPathsAreAccepted(rules, heap, children[i], ancestors + {v.ref});
      }
    }
  }

  lemma LongerPathClean(rules: Rules, heap: Heap, r: Ref, p: seq<Ref>, ancestors: set<Ref>)
    requires Path(heap, p) && Edge(heap, r, p[0])
    requires forall q :: Path(heap, q) && q[0] == r ==> CleanPath(rules, heap, q, ancestors)
    ensures CleanPath(rules, heap, p, ancestors + {r})
  {
    var q := [r] + p;
    assert Path(heap, q) by {
      forall i | 0 <= i < |q| - 1 ensures Edge(heap, q[i], q[i + 1]) {
        if i > 0 { assert q[i] == p[i - 1] && q[i + 1] == p[i]; }
      }
    }
    assert CleanPath(rules, heap, q, ancestors);
    forall i | 0 <= i < |p|
      ensures p[i] !in ancestors + {r} && NodeOk(rules, heap, p[i]) { assert q[i + 1] == p[i] && q[0] == r; }
    forall i, j | 0 <= i < j < |p| ensures p[i] != p[j] { assert q[i + 1] == p[i] && q[j + 1] == p[j]; }
  }

  lemma SubPath(heap: Heap, p: seq<Ref>, i: nat, j: nat)
    requires Path(heap, p) && i < j <= |p|
    ensures Path(heap, p[i..j])
  {
  }

  lemma JoinPaths(heap: Heap, p: seq<Ref>, q: seq<Ref>)
    requires Path(heap, p) && Path(heap, q) && p[|p| - 1] == q[0]
    ensures Path(heap, p + q[1..])
  {
    var s := p + q[1..];
    forall i | 0 <= i < |s| - 1 ensures Edge(heap, s[i], s[i + 1]) {
      if i >= |p| - 1 { assert s[i] == q[i - |p| + 1] && s[i + 1] == q[i - |p| + 2]; }
    }
  }

  /** A reachable cycle gives a path that repeats a node. */
  lemma CycleIsUnclean(rules: Rules, heap: Heap, a: Ref, r: Ref)
    requires Reaches(heap, a, r) && OnCycle(heap, r)
    ensures exists s :: Path(heap, s) && s[0] == a && !CleanPath(rules, heap, s, {})
  {
    var p :| Path(heap, p) && p[0] == a && p[|p| - 1] == r;
    var q :| Path(heap, q) && |q| >= 2 && q[0] == r && q[|q| - 1] == r;
    JoinPaths(heap, p, q);
    var s := p + q[1..];
    assert s[|p| - 1] == r && s[|s| - 1] == r && s[0] == a;
    assert !CleanPath(rules, heap, s, {});
  }

  /** A path that repeats a node holds a cycle. */
  lemma RepeatIsCycle(heap: Heap, p: seq<Ref>, i: nat, j: nat)
    requires Path(heap, p) && i < j < |p| && p[i] == p[j]
    ensures OnCycle(heap, p[i])
  {
    SubPath(heap, p, i, j + 1);
    var q := p[i..j + 1];
    assert q[0] == p[i] && q[|q| - 1] == p[i];
  }

  /** All paths from a node are clean exactly when what it reaches is plain and acyclic. */
  lemma CleanIsAcyclic(rules: Rules, heap: Heap, v: Value)
    requires v.Object?
    ensures (forall p :: Path(heap, p) && p[0] == v.ref ==> CleanPath(rules, heap, p, {})) <==>
      PlainAndAcyclic(rules, heap, v)
  {
    hide NodeOk, Edge;
    if forall p :: Path(heap, p) && p[0] == v.ref ==> CleanPath(rules, heap, p, {}) {
      forall r | Reaches(heap, v.ref, r) ensures NodeOk(rules, heap, r) && !OnCycle(heap, r) {
        var p :| Path(heap, p) && p[0] == v.ref && p[|p| - 1] == r;
        assert CleanPath(rules, heap, p, {});
        if OnCycle(heap, r) { CycleIsUnclean(rules, heap, v.ref, r); }
      }
    }
    if PlainAndAcyclic(rules, heap, v) {
      forall p | Path(heap, p) && p[0] == v.ref ensures CleanPath(rules, heap, p, {}) {
        forall i | 0 <= i < |p| ensures NodeOk(rules, heap, p[i]) && !OnCycle(heap, p[i]) {
          SubPath(heap, p, 0, i + 1);
          assert p[0..i + 1][|p[0..i + 1]| - 1] == p[i];
          assert Reaches(heap, v.ref, p[i]);
        }
        forall i, j | 0 <= i < j < |p| ensures p[i] != p[j] {
          if p[i] == p[j] { RepeatIsCycle(heap, p, i, j); }
        }
      }
    }
  }

  /** The check accepts exactly the plain, acyclic values. */
  lemma AcceptIsPlainAndAcyclic(rules: Rules, heap: Heap, v: Value)
    requires Closed(heap) && Known(heap, v)
    ensures Accept(rules, heap, v, {}) <==> PlainAndAcyclic(rules, heap, v)
  {
    if v.Object? {
      CleanIsAcyclic(rules, heap, v);
      if Accept(rules, heap, v, {}) {
        forall p | Path(heap, p) && p[0] == v.ref ensures CleanPath(rules, heap, p, {}) {
          AcceptedPathsAreClean(rules, heap, v, {}, p);
        }
      }
      if PlainAndAcyclic(rules, heap, v) { CleanPathsAreAccepted(rules, heap, v, {}); }
    }
  }

  /** An object whose properties all hold the same value. */
  function Holder(slots: nat, r: Ref): Node {
    Node(false, ObjectPrototype, false, [], seq(slots, _ => Slot(Object(r), true, false)))
  }

  lemma HeldTwice(r: Ref)
    ensures Children(Holder(0, r)) == [] && Children(Holder(1, r)) == [Object(r)]
    ensures Children(Holder(2, r)) == [Object(r), Object(r)]
  {
    var slots := Holder(2, r).properties;
    assert slots[..1] == Holder(1, r).properties && Holder(1, r).properties[..0] == [] == Holder(0, r).properties;
    assert Values(slots[..1]) == Values(slots[..1][..0]) + [Object(r)] && Values([]) == [];
  }

  /** A value that occurs twice is accepted, by either check. */
  lemma SharingIsNoCycle(rules: Rules, heap: Heap)
    requires heap == map[0 := Holder(2, 1), 1 := Holder(0, 0)]
    ensures Closed(heap) && PlainAndAcyclic(rules, heap, Object(0))
  {
    hide Children, Holder, Values, Elements;
    HeldTwice(0);
    HeldTwice(1);
    PlainHolder(rules, 2, 1);
    PlainHolder(rules, 0, 0);
    assert Accept(rules, heap, Object(1), {} + {0});
    AcceptIsPlainAndAcyclic(rules, heap, Object(0));
  }

  lemma PlainHolder(rules: Rules, slots: nat, r: Ref)
    ensures Plain(rules, Holder(slots, r))
  {
  }

  /** One that holds itself is not, plain as it is. */
  lemma SelfReferenceIsRefused(rules: Rules, heap: Heap)
    requires heap == map[0 := Holder(1, 0)]
    ensures Closed(heap) && NodeOk(rules, heap, 0) && !PlainAndAcyclic(rules, heap, Object(0))
  {
    hide Children, Holder, Values, Elements;
    HeldTwice(0);
    PlainHolder(rules, 1, 0);
    assert Edge(heap, 0, 0);
    assert Path(heap, [0, 0]) && [0, 0][0] == [0, 0][1] == 0;
    assert OnCycle(heap, 0) && Reaches(heap, 0, 0);
  }

  // ---------- the checks as they run ----------

  /** The shared set of ancestors. */
  class Ancestors {
    var nodes: set<Ref>

    constructor ()
      ensures nodes == {}
    {
      nodes := {};
    }
  }

  /** `isJsonValue`: whatever it answers, the ancestor set is as it was. */
  method IsJsonValue(heap: Heap, v: Value, seen: Ancestors) returns (valid: bool)
    requires Closed(heap) && Known(heap, v)
    modifies seen
    ensures valid == Accept(JsonValue, heap, v, old(seen.nodes)) && seen.nodes == old(seen.nodes)
    decreases heap.Keys - seen.nodes
  {
    if !v.Object? { return LeafOk(v); }
    if v.ref in seen.nodes || !Plain(JsonValue, heap[v.ref]) { return false; }
    seen.nodes := seen.nodes + {v.ref};
    valid := true;
    var children := Children(heap[v.ref]);
    for i := 0 to |children|
      invariant seen.nodes == old(seen.nodes) + {v.ref}
      invariant valid && forall k :: 0 <= k < i ==> Accept(JsonValue, heap, children[k], old(seen.nodes) + {v.ref})
    {
      valid := IsJsonValue(heap, children[i], seen);
      if !valid { break; }
    }
    seen.nodes := seen.nodes - {v.ref};
    assert seen.nodes == old(seen.nodes);
  }

  /** `assertJsonConfiguration`: throws (`ok` false) or restores the ancestor set. */
  method AssertJsonConfiguration(heap: Heap, v: Value, ancestors: Ancestors) returns (ok: bool)
    requires Closed(heap) && Known(heap, v)
    modifies ancestors
    ensures ok == Accept(Configuration, heap, v, old(ancestors.nodes))
    ensures ok ==> ancestors.nodes == old(ancestors.nodes)
    ensures old(ancestors.nodes) <= ancestors.nodes
    decreases heap.Keys - ancestors.nodes
  {
    if !v.Object? { return LeafOk(v); }
    if v.ref in ancestors.nodes || !Plain(Configuration, heap[v.ref]) { return false; }
    ancestors.nodes := ancestors.nodes + {v.ref};
    var children := Children(heap[v.ref]);
    for i := 0 to |children|
      invariant ancestors.nodes == old(ancestors.nodes) + {v.ref}
      invariant forall k :: 0 <= k < i ==> Accept(Configuration, heap, children[k], old(ancestors.nodes) + {v.ref})
    {
      ok := AssertJsonConfiguration(heap, children[i], ancestors);
      if !ok { return false; }
    }
    ancestors.nodes := ancestors.nodes - {v.ref};
    assert ancestors.nodes == old(ancestors.nodes);
    return true;
  }

  /** A call from outside: accepted exactly when what is reachable is plain, acyclic JSON. */
  method CheckJson(rules: Rules, heap: Heap, v: Value) returns (ok: bool)
    requires Closed(heap) && Known(heap, v)
    ensures ok <==> PlainAndAcyclic(rules, heap, v)
  {
    var ancestors := new Ancestors();
    if rules == JsonValue {
      ok := IsJsonValue(heap, v, ancestors);
    } else {
      ok := AssertJsonConfiguration(heap, v, ancestors);
    }
    AcceptIsPlainAndAcyclic(rules, heap, v);
  }
}
