/** The canonical create contract keeps the fields under `values`; the flat MCP
    contract takes them at the top. They accept the same records. */
module CreateAgreement {
  import opened Options
  import opened JsonSchema
  import opened CreateSchema
  import opened CreateContracts

  /** The executor's own controls of an Operation. */
  datatype Controls = Controls(
    properties: map<string, Schema>, required: seq<string>, dependent: map<string, seq<string>>)

  /** The canonical create input, before the binding controls are merged. */
  function CreateInput(values: Schema, c: Contract, ops: Controls): Schema {
    var copied := if c.blueprint.Some?
      then values.(required := Some(Without(Names(values.required), Copied(c)))) else values;
    Anything.(
      isObject := true, closed := true, dependent := ops.dependent,
      properties := map["values" := copied] + BindingControlProperties(c) + BlueprintProperties(c) + ops.properties,
      required := Some(["values"] + ops.required),
      allOf := if c.blueprint.None? then [] else
        [Unless("blueprintId", Anything.(properties := map["values" := Requiring(Names(values.required))]))])
  }

  function NestedCreate(values: Schema, c: Contract, ops: Controls): Schema {
    WithBindingControls(CreateInput(values, c, ops), c)
  }

  function WithOperationControls(s: Schema, ops: Controls): Schema {
    s.(properties := s.properties + ops.properties,
       required := if s.required.None? && ops.required == [] then None else Some(Names(s.required) + ops.required),
       dependent := s.dependent + ops.dependent)
  }

  function FlatTool(values: Schema, c: Contract, ops: Controls): Schema {
    WithOperationControls(FlatCreate(values, c), ops)
  }

  /** The names that are controls in either form. */
  function ControlNames(c: Contract, ops: Controls): set<string> {
    BindingControlProperties(c).Keys + BlueprintProperties(c).Keys + ops.properties.Keys
  }

  /** The shape generated for entity values, with no field named like a control or `values`. */
  ghost predicate EntityValues(values: Schema, c: Contract, ops: Controls) {
    && values.isObject && values.closed && values.dependent == map[] && values.allOf == [] && values.anyOf == []
    && values.negated == None && values.branch == None && (forall j :: values.other(j))
    && ControlNames(c, ops) !! values.properties.Keys && "values" !in values.properties
    && "values" !in ControlNames(c, ops) && "blueprintId" !in BindableKeys(c)
    && BindingControlProperties(c).Keys !! ops.properties.Keys && BlueprintProperties(c).Keys !! ops.properties.Keys
  }

  // ---------- the nested contract ----------

  function NestedBase(values: Schema, c: Contract, ops: Controls): Schema {
    CreateInput(values, c, ops).(
      allOf := [],
      properties := map["values" := values.(required := None)] + BindingControlProperties(c) + BlueprintProperties(c)
        + ops.properties)
  }

  ghost predicate HasValues(j: Json) {
    Has(j, "values") && j.members["values"].Obj?
  }

  /** What the composed `values` schema still requires. */
  function LeftRequired(values: Schema, c: Contract): seq<string> {
    Without(Without(Names(values.required), Copied(c)), BindableKeys(c))
  }

  lemma {:induction false} WithoutNothing(names: seq<string>)
    ensures Without(names, {}) == names
  {
    KeepAll(names, {});
  }

  function NestedCondition(required: seq<string>): Schema {
    Unless("blueprintId", Anything.(properties := map["values" := Requiring(required)]))
  }

  lemma RelaxNestedCondition(required: seq<string>, bindable: set<string>)
    ensures RelaxCondition(NestedCondition(required), true, bindable) == NestedCondition(Without(required, bindable))
    ensures ThenRequired(NestedCondition(required), true) == required
  {
    var k := Anything.(properties := map["values" := Requiring(required)]);
    assert NestedCondition(required).branch.value.consequence == k;
    assert k.properties["values" := RelaxSchema(Requiring(required), bindable)]
      == map["values" := Requiring(Without(required, bindable))];
  }

  /** The `values` schema of the nested composition. */
  lemma NestedValues(values: Schema, c: Contract, ops: Controls)
    requires EntityValues(values, c, ops)
    ensures
      var t := NestedCreate(values, c, ops);
      && "values" in t.properties
      && t.properties["values"].(required := None) == values.(required := None)
      && Names(t.properties["values"].required) == LeftRequired(values, c)
  {
    hide BindingControlProperties, BlueprintProperties, BindableKeys, Claimed, Relaxed, Alternatives;
    NoBindable(c);
    if c.blueprint.None? { WithoutNothing(Names(values.required)); }
    if BindableKeys(c) == {} { WithoutNothing(Without(Names(values.required), Copied(c))); }
  }

  /** Merging the binding controls into the create input changes no other property. */
  lemma NestedMerge(s: Schema, c: Contract)
    requires IsNested(s) && "values" !in BindingControlProperties(c)
    requires forall k :: k in BindingControlProperties(c) ==>
      k in s.properties && s.properties[k] == BindingControlProperties(c)[k]
    ensures
      var t := WithBindingControls(s, c);
      && Bare(t.(allOf := [])) == Bare(s.(allOf := [])) && t.closed == s.closed
      && t.properties.Keys == s.properties.Keys
      && forall k :: k in t.properties && k != "values" ==> t.properties[k] == s.properties[k]
  {
    hide BindingControlProperties, BindableKeys, Claimed, Relaxed, Alternatives, RelaxSchema;
  }

  lemma InputProperties(values: Schema, c: Contract, ops: Controls)
    requires EntityValues(values, c, ops)
    ensures
      var s, b := CreateInput(values, c, ops), NestedBase(values, c, ops);
      && s.properties.Keys == b.properties.Keys
      && (forall k :: k in s.properties && k != "values" ==> s.properties[k] == b.properties[k])
      && (forall k :: k in BindingControlProperties(c) ==>
        k in s.properties && s.properties[k] == BindingControlProperties(c)[k])
      && "values" in b.properties && b.properties["values"] == values.(required := None)
  {
    hide BlueprintProperties, BindingControlProperties, EntityValues, NestedBase;
    KeysApart(values, c, ops);
    BaseProperties(values, c, ops);
    SumLookup(map["values" := values.(required := None)], BindingControlProperties(c), BlueprintProperties(c),
      ops.properties);
    SumLookup(map["values" := CreateInput(values, c, ops).properties["values"]], BindingControlProperties(c),
      BlueprintProperties(c), ops.properties);
  }

  /** Its other properties, and everything but its conditions. */
  lemma NestedProperties(values: Schema, c: Contract, ops: Controls)
    requires EntityValues(values, c, ops)
    ensures
      var t, b := NestedCreate(values, c, ops), NestedBase(values, c, ops);
      && Bare(t.(allOf := [])) == Bare(b) && t.closed == b.closed
      && t.properties.Keys == b.properties.Keys
      && (forall k :: k in t.properties && k != "values" ==> t.properties[k] == b.properties[k])
      && "values" in b.properties && b.properties["values"] == values.(required := None)
  {
    hide CreateInput, NestedBase, BindingControlProperties, BlueprintProperties, WithBindingControls, Bare;
    KeysApart(values, c, ops);
    InputProperties(values, c, ops);
    BaseShape(values, c, ops);
    NestedMerge(CreateInput(values, c, ops), c);
  }

  lemma BaseShape(values: Schema, c: Contract, ops: Controls)
    ensures Bare(NestedBase(values, c, ops)) == Bare(CreateInput(values, c, ops).(allOf := []))
    ensures NestedBase(values, c, ops).closed == CreateInput(values, c, ops).closed
  {
    hide BindingControlProperties, BlueprintProperties;
  }

  lemma BindingKeysApart(c: Contract, k: string)
    requires k in BindingControlProperties(c)
    ensures k !in BlueprintProperties(c)
  {
  }

  /** Its conditions. */
  lemma NestedConditions(values: Schema, c: Contract, ops: Controls)
    requires EntityValues(values, c, ops)
    ensures NestedCreate(values, c, ops).allOf ==
      (if c.blueprint.Some? then [NestedCondition(Without(Names(values.required), BindableKeys(c)))] else [])
      + (if BindableKeys(c) == {} then []
         else Alternatives(Claimed(CreateInput(values, c, ops), BindableKeys(c)), true, c.blueprint.Some?))
  {
    hide BindingControlProperties, BlueprintProperties, BindableKeys, Claimed, Alternatives;
    var s, bindable := CreateInput(values, c, ops), BindableKeys(c);
    NoBindable(c);
    if bindable == {} {
      WithoutNothing(Names(values.required));
    } else if c.blueprint.Some? {
      RelaxNestedCondition(Names(values.required), bindable);
      assert Relaxed(s.allOf, true, bindable)[0] == RelaxCondition(s.allOf[0], true, bindable);
    }
  }

  /** A valid `values` member, and what is required of it. */
  lemma NestedShell(values: Schema, c: Contract, ops: Controls, j: Json)
    requires EntityValues(values, c, ops)
    ensures
      var t, b := NestedCreate(values, c, ops), NestedBase(values, c, ops);
      Valid(t.(allOf := []), j) <==>
        Valid(b, j) && HasValues(j) && HasEach(j.members["values"], LeftRequired(values, c))
    ensures Valid(NestedBase(values, c, ops), j) ==> j.Obj? && HasValues(j)
  {
    var t, b := NestedCreate(values, c, ops), NestedBase(values, c, ops);
    NestedProperties(values, c, ops);
    NestedValues(values, c, ops);
    HasAllIsHasEach(j, b.required.value);
    assert "values" in b.required.value;
    assert b.properties["values"] == values.(required := None);
    if Valid(b, j) || Valid(t.(allOf := []), j) {
      assert j.Obj? && Has(j, "values");
      var v := j.members["values"];
      ValidSplits(t.properties["values"], v);
      ValidSplits(values.(required := None), v);
      assert Shell(t.properties["values"]) == Shell(values.(required := None));
      var u := t.(allOf := []);
      if Valid(b, j) {
        PropertyValid(b, "values", j);
        if HasEach(v, LeftRequired(values, c)) { OneProperty(b, u, "values", j); }
      }
      if Valid(u, j) {
        PropertyValid(u, "values", j);
        OneProperty(u, b, "values", j);
      }
    }
  }

  ghost predicate MembersFit(properties: map<string, Schema>, j: Json)
    requires j.Obj?
  {
    forall k :: k in properties && k in j.members ==> Valid(properties[k], j.members[k])
  }

  function Bare(s: Schema): Schema { s.(properties := map[], closed := false) }

  /** A schema asks for its properties and for everything else. */
  lemma PropertiesSplit(s: Schema, j: Json)
    requires j.Obj?
    ensures Valid(s, j) <==>
      Valid(Bare(s), j) && MembersFit(s.properties, j) && (s.closed ==> j.members.Keys <= s.properties.Keys)
  {
  }

  lemma PropertyValid(s: Schema, name: string, j: Json)
    requires Valid(s, j) && Has(j, name) && name in s.properties
    ensures Valid(s.properties[name], j.members[name])
  {
  }

  lemma OneMemberFits(a: map<string, Schema>, b: map<string, Schema>, name: string, j: Json)
    requires Has(j, name) && name in b && b.Keys == a.Keys
    requires forall k :: k in a && k != name ==> a[k] == b[k]
    requires MembersFit(a, j) && Valid(b[name], j.members[name])
    ensures MembersFit(b, j)
  {
    hide Valid;
  }

  /** A schema that differs from an accepting one in one property schema. */
  lemma OneProperty(a: Schema, b: Schema, name: string, j: Json)
    requires Bare(a) == Bare(b) && a.closed == b.closed && b.properties.Keys == a.properties.Keys
    requires forall k :: k in a.properties && k != name ==> a.properties[k] == b.properties[k]
    requires Has(j, name) && name in a.properties
    requires Valid(a, j) && Valid(b.properties[name], j.members[name])
    ensures Valid(b, j)
  {
    hide Valid, MembersFit, Bare;
    PropertiesSplit(a, j);
    PropertiesSplit(b, j);
    OneMemberFits(a.properties, b.properties, name, j);
  }

  /** The names a nested condition requires of the values. */
  ghost predicate AsksOfValues(consequence: Schema, r: string) {
    "values" in consequence.properties && consequence.properties["values"].required.Some?
      && r in consequence.properties["values"].required.value
  }

  /** A consequence with its `values` relaxed, next to the original. */
  lemma RelaxedValues(k: Schema, bindable: set<string>, j: Json)
    requires "values" in k.properties
    ensures var relaxed := k.(properties := k.properties["values" := RelaxSchema(k.properties["values"], bindable)]);
      Valid(k, j) <==> Valid(relaxed, j) && (Has(j, "values") && j.members["values"].Obj? ==>
        forall r :: r in bindable && AsksOfValues(k, r) ==> Has(j.members["values"], r))
  {
    var values := k.properties["values"];
    var relaxed := k.(properties := k.properties["values" := RelaxSchema(values, bindable)]);
    if Has(j, "values") {
      var v := j.members["values"];
      WithoutMembers(Names(values.required), bindable);
      ValidSplits(values, v);
      ValidSplits(RelaxSchema(values, bindable), v);
      assert Shell(RelaxSchema(values, bindable)) == Shell(values);
      if Valid(k, j) { PropertyValid(k, "values", j); OneProperty(k, relaxed, "values", j); }
      if Valid(relaxed, j) { PropertyValid(relaxed, "values", j); }
      if Valid(relaxed, j) && Valid(values, v) { OneProperty(relaxed, k, "values", j); }
    } else if j.Obj? {
      PropertiesOnly(k.(properties := k.properties - {"values"}), k, j);
      PropertiesOnly(k.(properties := k.properties - {"values"}), relaxed, j);
    }
  }

  /** A relaxed nested condition asks for what the condition asks for, the bindable names it
      requires of the values aside. */
  lemma RelaxedNestedMeans(condition: Schema, bindable: set<string>, j: Json)
    requires condition.branch.Some? && j.Obj?
    ensures Valid(condition, j) <==>
      && Valid(RelaxCondition(condition, true, bindable), j)
      && (Valid(condition.branch.value.test, j) && Has(j, "values") && j.members["values"].Obj? ==>
           forall r :: r in bindable && AsksOfValues(condition.branch.value.consequence, r) ==>
             Has(j.members["values"], r))
  {
    hide Valid;
    var relaxed, k := RelaxCondition(condition, true, bindable), condition.branch.value.consequence;
    BranchSplits(condition, j);
    BranchSplits(relaxed, j);
    if "values" in k.properties {
      RelaxedValues(k, bindable, j);
      assert relaxed.(branch := None) == condition.(branch := None);
    }
  }

  lemma NestedClaims(values: Schema, c: Contract, ops: Controls)
    requires EntityValues(values, c, ops)
    ensures forall r :: r in Claimed(CreateInput(values, c, ops), BindableKeys(c)) <==>
      r in BindableKeys(c) && r in Names(values.required)
  {
    var s, bindable, required := CreateInput(values, c, ops), BindableKeys(c), Names(values.required);
    assert s.properties["values"].required.Some? || values.required.None?;
    ClaimMembers([], TopRequired(s), bindable);
    ClaimAllMembers(Claim([], TopRequired(s), bindable), s.allOf, true, bindable);
    WithoutMembers(required, Copied(c));
    if c.blueprint.Some? {
      RelaxNestedCondition(required, bindable);
      assert s.allOf == [NestedCondition(required)];
      forall r ensures SomeThenRequires(s.allOf, true, r) <==> r in required {
        if r in required { assert r in ThenRequired(s.allOf[0], true); }
      }
    } else {
      assert Copied(c) == {};
    }
  }

  lemma NestedConditionMeans(required: seq<string>, j: Json)
    requires j.Obj? && HasValues(j)
    ensures Valid(NestedCondition(required), j) <==> Has(j, "blueprintId") || HasEach(j.members["values"], required)
  {
    var k := Anything.(properties := map["values" := Requiring(required)]);
    UnlessMeans("blueprintId", k, j);
    RequiringMeans(required, j.members["values"]);
    assert Valid(k, j) <==> Valid(Requiring(required), j.members["values"]);
  }

  /** The parts of the nested composition, put together name by name. */
  lemma NestedPresence(required: seq<string>, c: Contract, j: Json, claimed: seq<string>)
    requires j.Obj? && HasValues(j) && (Has(j, "bindings") && BindableKeys(c) != {} ==> j.members["bindings"].Obj?)
    requires forall r :: r in claimed <==> r in BindableKeys(c) && r in required
    ensures
      (&& (forall r :: r in required && r !in Copied(c) && r !in BindableKeys(c) ==> Has(j.members["values"], r))
       && (c.blueprint.Some? ==>
         Has(j, "blueprintId") || forall r :: r in required && r !in BindableKeys(c) ==> Has(j.members["values"], r))
       && (forall r :: r in claimed ==>
         Supplied(j, r, true) || Bound(j, r) || (c.blueprint.Some? && Has(j, "blueprintId"))))
      <==> Presence(required, c, j, true)
  {
    hide BindableKeys;
    if c.blueprint.None? { assert Copied(c) == {}; }
  }

  /** Exact meaning of the canonical create contract. */
  lemma NestedCreateMeans(values: Schema, c: Contract, ops: Controls, j: Json)
    requires EntityValues(values, c, ops)
    ensures Valid(NestedCreate(values, c, ops), j) <==>
      Valid(NestedBase(values, c, ops), j) && Presence(Names(values.required), c, j, true)
  {
    hide Valid, NestedCreate, NestedBase, Claimed, EntityValues, Supplied, Bound, Presence, NestedCondition,
      Alternatives, BindableKeys, Copied;
    var t, b, bindable, required := NestedCreate(values, c, ops), NestedBase(values, c, ops), BindableKeys(c),
      Names(values.required);
    NestedShell(values, c, ops, j);
    AllOfSplits(t, j);
    if Valid(b, j) {
      NestedConditions(values, c, ops);
      NestedClaims(values, c, ops);
      if bindable != {} && Has(j, "bindings") { NestedBindingsAreObjects(values, c, ops, j); }
      WithoutMembers(required, Copied(c));
      WithoutMembers(Without(required, Copied(c)), bindable);
      WithoutMembers(required, bindable);
      var claimed := Claimed(CreateInput(values, c, ops), bindable);
      var condition := if c.blueprint.Some? then [NestedCondition(Without(required, bindable))] else [];
      var alternatives := if bindable == {} then [] else Alternatives(claimed, true, c.blueprint.Some?);
      AllValidJoin(condition, alternatives, j);
      if c.blueprint.Some? { NestedConditionMeans(Without(required, bindable), j); }
      assert AllValid(condition, j) <==>
        (c.blueprint.Some? ==> Valid(NestedCondition(Without(required, bindable)), j)) by {
        if c.blueprint.Some? { assert condition[0] == NestedCondition(Without(required, bindable)); }
      }
      AlternativesMean(claimed, true, c.blueprint.Some?, j);
      NestedPresence(required, c, j, claimed);
      assert AllValid(alternatives, j) <==>
        forall r :: r in claimed ==>
          Supplied(j, r, true) || Bound(j, r) || (c.blueprint.Some? && Has(j, "blueprintId")) by {
        if bindable == {} { assert forall r :: r !in claimed; }
      }
    }
  }

  lemma AllOfSplits(s: Schema, j: Json)
    ensures Valid(s, j) <==> Valid(s.(allOf := []), j) && AllValid(s.allOf, j)
  {
  }

  lemma NestedBindingsAreObjects(values: Schema, c: Contract, ops: Controls, j: Json)
    requires EntityValues(values, c, ops) && Valid(NestedBase(values, c, ops), j) && BindableKeys(c) != {}
      && Has(j, "bindings")
    ensures j.members["bindings"].Obj?
  {
    NoBindable(c);
    var fields := BindableFields(c.fields, c.persisted);
    assert "bindings" in BindingControlProperties(c) && "bindings" !in ops.properties
      && "bindings" !in BlueprintProperties(c);
    assert NestedBase(values, c, ops).properties["bindings"] == BindingsSchema(fields);
    assert Valid(BindingsSchema(fields), j.members["bindings"]);
  }

  // ---------- agreement ----------

  /** Executor controls constrain one another only. */
  ghost predicate OwnControls(ops: Controls) {
    && (forall n :: n in ops.required ==> n in ops.properties)
    && forall k :: k in ops.dependent ==>
      k in ops.properties && forall n :: n in ops.dependent[k] ==> n in ops.properties
  }

  /** Both assumptions hold of any closed record none of whose fields is named like a control. */
  lemma OrdinaryContractsQualify(fields: map<string, Schema>, required: seq<string>, c: Contract)
    requires fields.Keys !! {"values", "bindings", "unbind", "blueprintId", "blueprintBindings"}
    requires BindableKeys(c) <= fields.Keys
    ensures var ops := Controls(map[], [], map[]);
      && OwnControls(ops)
      && EntityValues(
           Anything.(isObject := true, closed := true, required := Some(required), properties := fields), c, ops)
  {
    hide BindableKeys;
    assert BindingControlProperties(c).Keys <= {"bindings", "unbind"};
    assert BlueprintProperties(c).Keys <= {"blueprintId", "blueprintBindings"};
  }

  /** A flat input in canonical form: everything that is no control goes under `values`. */
  function Nest(j: Json, controls: set<string>): Json
    requires j.Obj?
  {
    Obj((map k | k in j.members && k in controls :: j.members[k])
      + map["values" := Obj(map k | k in j.members && k !in controls :: j.members[k])])
  }

  lemma NestHas(j: Json, controls: set<string>)
    requires j.Obj? && "values" !in controls
    ensures forall n :: n in controls ==> Has(Nest(j, controls), n) == Has(j, n)
    ensures forall n :: n in controls && Has(j, n) ==> Nest(j, controls).members[n] == j.members[n]
    ensures HasValues(Nest(j, controls))
    ensures forall n :: n !in controls ==> Has(Nest(j, controls).members["values"], n) == Has(j, n)
    ensures forall n :: n !in controls && Has(j, n) ==> Nest(j, controls).members["values"].members[n] == j.members[n]
    ensures Nest(j, controls).members.Keys <= controls + {"values"}
  {
  }

  /** What is required beyond the fields reads the same in both forms. */
  lemma PresenceNested(required: seq<string>, c: Contract, ops: Controls, j: Json)
    requires j.Obj? && "values" !in ControlNames(c, ops)
    requires forall r :: r in required ==> r !in ControlNames(c, ops)
    ensures Presence(required, c, j, false) <==> Presence(required, c, Nest(j, ControlNames(c, ops)), true)
    ensures BlueprintBindingsSourced(c, j) <==> BlueprintBindingsSourced(c, Nest(j, ControlNames(c, ops)))
  {
    NoBindable(c);
    var controls := ControlNames(c, ops);
    if BindableKeys(c) != {} { assert "bindings" in BindingControlProperties(c) && "bindings" in controls; }
    if c.blueprint.Some? { assert "blueprintId" in controls && "blueprintBindings" in controls; }
    hide ControlNames, BindingControlProperties, BindableKeys, Nest;
    NestHas(j, controls);
  }

  function FlatProperties(values: Schema, c: Contract, ops: Controls): map<string, Schema> {
    values.properties + BlueprintProperties(c) + BindingControlProperties(c) + ops.properties
  }

  lemma FlatToolShell(values: Schema, c: Contract, ops: Controls)
    requires EntityValues(values, c, ops)
    ensures Shell(FlatTool(values, c, ops))
      == Shell(values).(properties := FlatProperties(values, c, ops), dependent := ops.dependent)
    ensures FlatTool(values, c, ops).allOf == FlatCreate(values, c).allOf
    ensures Names(FlatTool(values, c, ops).required) == Names(FlatCreate(values, c).required) + ops.required
  {
    FlatShell(values, c);
    hide FlatCreate, BindingControlProperties, BlueprintProperties;
    assert FlatCreate(values, c).properties == Shell(FlatCreate(values, c)).properties;
    assert FlatCreate(values, c).dependent == Shell(FlatCreate(values, c)).dependent;
    assert values.dependent + ops.dependent == ops.dependent;
  }

  ghost predicate DependentsHold(dependent: map<string, seq<string>>, j: Json) {
    forall k :: k in dependent && Has(j, k) ==> HasAll(j, dependent[k])
  }

  lemma FlatShellMeans(values: Schema, c: Contract, ops: Controls, j: Json)
    requires EntityValues(values, c, ops) && j.Obj?
    ensures Valid(Shell(FlatTool(values, c, ops)), j) <==>
      && MembersFit(FlatProperties(values, c, ops), j)
      && j.members.Keys <= FlatProperties(values, c, ops).Keys && DependentsHold(ops.dependent, j)
  {
    FlatToolShell(values, c, ops);
    hide FlatTool, FlatProperties;
    var s := Shell(FlatTool(values, c, ops));
    PropertiesSplit(s, j);
    assert s.properties == FlatProperties(values, c, ops);
    assert Valid(Bare(s), j) <==> DependentsHold(ops.dependent, j);
  }

  lemma NestedBaseMeans(values: Schema, c: Contract, ops: Controls, j: Json)
    requires EntityValues(values, c, ops) && HasValues(j)
    ensures Valid(NestedBase(values, c, ops), j) <==>
      && MembersFit(NestedBase(values, c, ops).properties, j) && HasEach(j, ops.required)
      && j.members.Keys <= NestedBase(values, c, ops).properties.Keys && DependentsHold(ops.dependent, j)
  {
    var b := NestedBase(values, c, ops);
    PropertiesSplit(b, j);
    HasAllIsHasEach(j, b.required.value);
    assert forall r :: r in b.required.value <==> r == "values" || r in ops.required;
    assert Valid(Bare(b), j) <==> HasEach(j, ops.required) && DependentsHold(ops.dependent, j);
  }

  lemma ValuesMean(values: Schema, c: Contract, ops: Controls, j: Json)
    requires EntityValues(values, c, ops) && j.Obj?
    ensures Valid(values.(required := None), j) <==>
      MembersFit(values.properties, j) && j.members.Keys <= values.properties.Keys
  {
    PropertiesSplit(values.(required := None), j);
    assert Valid(Bare(values.(required := None)), j);
  }

  /** Member by member, both forms apply the same schemas. */
  lemma SameMembers(values: Schema, c: Contract, ops: Controls, j: Json)
    requires EntityValues(values, c, ops) && j.Obj?
    ensures
      var y := Nest(j, ControlNames(c, ops));
      MembersFit(FlatProperties(values, c, ops), j) && j.members.Keys <= FlatProperties(values, c, ops).Keys <==>
      MembersFit(NestedBase(values, c, ops).properties, y)
        && y.members.Keys <= NestedBase(values, c, ops).properties.Keys
  {
    var controls := ControlNames(c, ops);
    var y, flat, nested := Nest(j, controls), FlatProperties(values, c, ops), NestedBase(values, c, ops).properties;
    NestHas(j, controls);
    var v := y.members["values"];
    ValuesMean(values, c, ops, v);
    PropertiesOfBoth(values, c, ops);
    hide Nest, ControlNames, FlatProperties, NestedBase, EntityValues, Valid;
    if MembersFit(flat, j) && j.members.Keys <= flat.Keys {
      forall k | k in v.members ensures k in values.properties { assert Has(v, k) && Has(j, k) && k in flat; }
      forall k | k in values.properties && k in v.members
        ensures Valid(values.properties[k], v.members[k]) { assert Has(v, k) && Has(j, k); }
      forall k | k in nested && k in y.members ensures Valid(nested[k], y.members[k]) {
        if k != "values" { assert Has(y, k) && Has(j, k); }
      }
    }
    if MembersFit(nested, y) && y.members.Keys <= nested.Keys {
      assert Valid(nested["values"], v);
      forall k | k in j.members ensures k in flat {
        if k !in controls { assert Has(v, k); } else { assert Has(y, k); }
      }
      forall k | k in flat && k in j.members ensures Valid(flat[k], j.members[k]) {
        if k !in controls { assert Has(j, k) && Has(v, k); } else { assert Has(j, k) && Has(y, k); }
      }
    }
  }

  lemma PropertiesOfBoth(values: Schema, c: Contract, ops: Controls)
    requires EntityValues(values, c, ops)
    ensures
      var flat, nested, controls := FlatProperties(values, c, ops), NestedBase(values, c, ops).properties,
        ControlNames(c, ops);
      && flat.Keys == values.properties.Keys + controls && nested.Keys == controls + {"values"}
      && nested["values"] == values.(required := None) && "values" !in controls
      && (forall k :: k in controls ==> flat[k] == nested[k] && k !in values.properties)
      && forall k :: k in values.properties ==> flat[k] == values.properties[k] && k !in controls
  {
    hide BindingControlProperties, BlueprintProperties, BindableKeys, CreateInput, NestedBase, EntityValues;
    KeysApart(values, c, ops);
    BaseProperties(values, c, ops);
    BothSums(values.properties, map["values" := values.(required := None)], BlueprintProperties(c),
      BindingControlProperties(c), ops.properties);
  }

  lemma BothSums<T>(a: map<string, T>, z: map<string, T>, b: map<string, T>, c: map<string, T>, d: map<string, T>)
    requires a.Keys !! (b.Keys + c.Keys + d.Keys) && z.Keys !! (b.Keys + c.Keys + d.Keys) && b.Keys !! c.Keys
      && (b.Keys + c.Keys) !! d.Keys
    ensures
      var flat, nested, rest := a + b + c + d, z + c + b + d, b.Keys + c.Keys + d.Keys;
      && flat.Keys == a.Keys + rest && nested.Keys == z.Keys + rest
      && (forall k :: k in rest ==> flat[k] == nested[k])
      && (forall k :: k in a ==> flat[k] == a[k]) && (forall k :: k in z ==> nested[k] == z[k])
  {
    SumLookup(a, b, c, d);
    SumLookup(z, c, b, d);
  }

  lemma KeysApart(values: Schema, c: Contract, ops: Controls)
    requires EntityValues(values, c, ops)
    ensures ControlNames(c, ops) !! values.properties.Keys && "values" !in ControlNames(c, ops)
    ensures BindingControlProperties(c).Keys !! BlueprintProperties(c).Keys
    ensures (BindingControlProperties(c).Keys + BlueprintProperties(c).Keys) !! ops.properties.Keys
  {
    forall k | k in BindingControlProperties(c) ensures k !in BlueprintProperties(c) { BindingKeysApart(c, k); }
  }

  lemma BaseProperties(values: Schema, c: Contract, ops: Controls)
    ensures NestedBase(values, c, ops).properties ==
      map["values" := values.(required := None)] + BindingControlProperties(c) + BlueprintProperties(c) + ops.properties
  {
    hide BindingControlProperties, BlueprintProperties;
  }

  lemma SumLookup<T>(a: map<string, T>, b: map<string, T>, c: map<string, T>, d: map<string, T>)
    requires a.Keys !! (b.Keys + c.Keys + d.Keys) && b.Keys !! c.Keys && (b.Keys + c.Keys) !! d.Keys
    ensures (a + b + c + d).Keys == a.Keys + b.Keys + c.Keys + d.Keys
    ensures forall k :: k in a ==> (a + b + c + d)[k] == a[k]
    ensures forall k :: k in b ==> (a + b + c + d)[k] == b[k]
    ensures forall k :: k in c ==> (a + b + c + d)[k] == c[k]
    ensures forall k :: k in d ==> (a + b + c + d)[k] == d[k]
  {
    assert forall k :: k in a ==> k !in b.Keys + c.Keys + d.Keys;
  }

  /** The flat contract accepts an input exactly when the canonical one accepts the same
      record under `values` and no blueprint bindings come without a blueprint. */
  lemma ContractsAgree(values: Schema, c: Contract, ops: Controls, j: Json)
    requires EntityValues(values, c, ops) && OwnControls(ops) && j.Obj?
    requires forall r :: r in Names(values.required) ==> r in values.properties
    ensures Valid(FlatTool(values, c, ops), j) <==>
      Valid(NestedCreate(values, c, ops), Nest(j, ControlNames(c, ops))) && BlueprintBindingsSourced(c, j)
  {
    var t, b, y := FlatTool(values, c, ops), NestedBase(values, c, ops), Nest(j, ControlNames(c, ops));
    NestedCreateMeans(values, c, ops, y);
    ValidSplits(t, j);
    FlatToolShell(values, c, ops);
    FlatShellMeans(values, c, ops, j);
    NestHas(j, ControlNames(c, ops));
    NestedBaseMeans(values, c, ops, y);
    SameMembers(values, c, ops, j);
    PresenceNested(Names(values.required), c, ops, j);
    ControlsReadSame(c, ops, j);
    if Valid(b, y) {
      FlatBindingsAreObjects(values, c, ops, j);
      AgreedConditions(values, c, ops, j);
    }
    hide Valid, FlatTool, NestedBase, NestedCreate, FlatCreate, FlatProperties, Nest, ControlNames, EntityValues,
      Presence, MembersFit;
  }

  lemma ControlsReadSame(c: Contract, ops: Controls, j: Json)
    requires OwnControls(ops) && j.Obj? && "values" !in ControlNames(c, ops)
    ensures HasEach(j, ops.required) <==> HasEach(Nest(j, ControlNames(c, ops)), ops.required)
    ensures DependentsHold(ops.dependent, j) <==> DependentsHold(ops.dependent, Nest(j, ControlNames(c, ops)))
  {
    var controls := ControlNames(c, ops);
    NestHas(j, controls);
    forall k | k in ops.dependent ensures HasAll(j, ops.dependent[k]) <==> HasAll(Nest(j, controls), ops.dependent[k]) {
      HasAllIsHasEach(j, ops.dependent[k]);
      HasAllIsHasEach(Nest(j, controls), ops.dependent[k]);
    }
  }

  lemma FlatBindingsAreObjects(values: Schema, c: Contract, ops: Controls, j: Json)
    requires EntityValues(values, c, ops) && j.Obj? && Valid(NestedBase(values, c, ops), Nest(j, ControlNames(c, ops)))
    ensures BindableKeys(c) != {} && Has(j, "bindings") ==> j.members["bindings"].Obj?
  {
    if BindableKeys(c) != {} && Has(j, "bindings") {
      NoBindable(c);
      assert "bindings" in BindingControlProperties(c);
      NestHas(j, ControlNames(c, ops));
      NestedBindingsAreObjects(values, c, ops, Nest(j, ControlNames(c, ops)));
    }
  }

  lemma AgreedConditions(values: Schema, c: Contract, ops: Controls, j: Json)
    requires EntityValues(values, c, ops) && j.Obj?
    requires BindableKeys(c) != {} && Has(j, "bindings") ==> j.members["bindings"].Obj?
    ensures AllValid(FlatTool(values, c, ops).allOf, j) && HasEach(j, Names(FlatTool(values, c, ops).required)) <==>
      HasEach(j, ops.required) && Presence(Names(values.required), c, j, false) && BlueprintBindingsSourced(c, j)
  {
    FlatToolShell(values, c, ops);
    hide FlatTool, FlatCreate, Valid, Presence, BindableKeys;
    FlatConditionsMean(values, c, j);
  }
}
