/** How a create contract is composed: a blueprint relaxes what it copies, the
    binding controls relax what may be bound, flat (MCP) or nested under `values`. */
module CreateSchema {
  import opened Options
  import opened JsonSchema

  datatype FieldModel = FieldModel(key: string, variables: Option<string>, bindingSchema: Schema)

  /** What composition reads of an entity contract; `blueprint` lists the copied fields. */
  datatype Contract = Contract(fields: seq<FieldModel>, persisted: set<string>, blueprint: Option<seq<string>>)

  predicate Bindable(f: FieldModel, persisted: set<string>) {
    f.variables.Some? && f.variables.value != "none" && f.key in persisted
  }

  /** Persisted fields that accept a variable. Order does not matter to any schema built from them. */
  function BindableFields(fields: seq<FieldModel>, persisted: set<string>): seq<FieldModel> {
    if |fields| == 0 then []
    else (if Bindable(fields[0], persisted) then [fields[0]] else []) + BindableFields(fields[1..], persisted)
  }

  function Keys(fields: seq<FieldModel>): set<string> {
    if |fields| == 0 then {} else {fields[0].key} + Keys(fields[1..])
  }

  function BindableKeys(c: Contract): set<string> { Keys(BindableFields(c.fields, c.persisted)) }

  function BindingProperties(fields: seq<FieldModel>): map<string, Schema> {
    if |fields| == 0 then map[] else BindingProperties(fields[1..])[fields[0].key := fields[0].bindingSchema]
  }

  function BindingsSchema(fields: seq<FieldModel>): Schema {
    Anything.(isObject := true, closed := true, properties := BindingProperties(fields))
  }

  /** Distinct bindable keys. */
  predicate IsUnbindList(j: Json, keys: set<string>) {
    && j.Arr? && |j.items| <= |keys|
    && (forall i, k :: 0 <= i < k < |j.items| ==> j.items[i] != j.items[k])
    && forall i :: 0 <= i < |j.items| ==> j.items[i].Str? && j.items[i].text in keys
  }

  function UnbindSchema(keys: set<string>): Schema {
    Leaf((j: Json) => IsUnbindList(j, keys))
  }

  /** The two controls, offered only where a field is bindable. */
  function BindingControlProperties(c: Contract): map<string, Schema> {
    var fields := BindableFields(c.fields, c.persisted);
    if |fields| == 0 then map[]
    else map["bindings" := BindingsSchema(fields), "unbind" := UnbindSchema(BindableKeys(c))]
  }

  predicate IsNonEmptyText(j: Json) { j.Str? && j.text != "" }

  predicate IsBindingMap(j: Json) {
    j.Obj? && |j.members| <= 1000 && forall k :: k in j.members ==> j.members[k].Str?
  }

  predicate IsBlueprintBindings(j: Json) {
    j.Obj? && |j.members| <= 20 && forall k :: k in j.members ==> IsBindingMap(j.members[k])
  }

  const BlueprintId := Leaf(IsNonEmptyText)
  const BlueprintBindings := Leaf(IsBlueprintBindings)

  function BlueprintProperties(c: Contract): map<string, Schema> {
    if c.blueprint.None? then map[] else map["blueprintId" := BlueprintId, "blueprintBindings" := BlueprintBindings]
  }

  function Names(required: Option<seq<string>>): seq<string> {
    if required.Some? then required.value else []
  }

  function Without(names: seq<string>, dropped: set<string>): seq<string> {
    if names == [] then []
    else (if names[0] in dropped then [] else [names[0]]) + Without(names[1..], dropped)
  }

  function Copied(c: Contract): set<string> {
    if c.blueprint.Some? then set k | k in c.blueprint.value else {}
  }

  function If(test: Schema, consequence: Schema): Schema { Anything.(branch := Some(Branch(test, consequence))) }

  function Unless(name: string, consequence: Schema): Schema {
    If(Anything.(negated := Some(Requiring([name]))), consequence)
  }

  /** Flat inputs relax only copied fields, and only with an explicit source. */
  function WithBlueprintCreate(s: Schema, c: Contract): Schema {
    if c.blueprint.None? then s
    else s.(
      properties := s.properties + BlueprintProperties(c),
      required := Some(Without(Names(s.required), Copied(c))),
      allOf := s.allOf + [
        If(Requiring(["blueprintBindings"]), Requiring(["blueprintId"])),
        Unless("blueprintId", Requiring(Names(s.required)))])
  }

  // ---------- binding controls ----------

  /** The required names a relaxation sets aside, each once, in order of appearance. */
  function Claim(claimed: seq<string>, names: seq<string>, bindable: set<string>): seq<string>
    decreases names
  {
    if names == [] then claimed
    else
      var more := if names[0] in bindable && names[0] !in claimed then claimed + [names[0]] else claimed;
      Claim(more, names[1..], bindable)
  }

  function NestedThen(condition: Schema): Option<Schema> {
    if condition.branch.Some? && "values" in condition.branch.value.consequence.properties
    then Some(condition.branch.value.consequence.properties["values"]) else None
  }

  /** The names a condition's `then` requires of the fields, where composition looks for them. */
  function ThenRequired(condition: Schema, nested: bool): seq<string> {
    if nested then (if NestedThen(condition).Some? then Names(NestedThen(condition).value.required) else [])
    else if condition.branch.Some? then Names(condition.branch.value.consequence.required) else []
  }

  function RelaxSchema(s: Schema, bindable: set<string>): Schema {
    if s.required.None? then s else s.(required := Some(Without(s.required.value, bindable)))
  }

  function RelaxCondition(condition: Schema, nested: bool, bindable: set<string>): Schema {
    if condition.branch.None? then condition
    else
      var b := condition.branch.value;
      if nested && "values" in b.consequence.properties
      then
        var values := RelaxSchema(b.consequence.properties["values"], bindable);
        var consequence := b.consequence.(properties := b.consequence.properties["values" := values]);
        condition.(branch := Some(Branch(b.test, consequence)))
      else if !nested && b.consequence.required.Some?
      then condition.(branch := Some(Branch(b.test, RelaxSchema(b.consequence, bindable))))
      else condition
  }

  function Relaxed(conditions: seq<Schema>, nested: bool, bindable: set<string>): seq<Schema> {
    seq(|conditions|, i requires 0 <= i < |conditions| => RelaxCondition(conditions[i], nested, bindable))
  }

  function ClaimAll(claimed: seq<string>, conditions: seq<Schema>, nested: bool, bindable: set<string>): seq<string>
    decreases |conditions|
  {
    if |conditions| == 0 then claimed
    else ClaimAll(Claim(claimed, ThenRequired(conditions[0], nested), bindable), conditions[1..], nested, bindable)
  }

  /** A relaxed name must arrive as a value, as a binding, or from a blueprint. */
  function Alternative(name: string, nested: bool, blueprint: bool): Schema {
    Anything.(anyOf :=
      [if nested then Requiring(["values"]).(properties := map["values" := Requiring([name])]) else Requiring([name]),
       Requiring(["bindings"]).(properties := map["bindings" := Requiring([name])])]
      + (if blueprint then [Requiring(["blueprintId"])] else []))
  }

  function Alternatives(names: seq<string>, nested: bool, blueprint: bool): seq<Schema> {
    seq(|names|, i requires 0 <= i < |names| => Alternative(names[i], nested, blueprint))
  }

  predicate IsNested(s: Schema) { "values" in s.properties }

  function TopRequired(s: Schema): seq<string> {
    if IsNested(s) then Names(s.properties["values"].required) else Names(s.required)
  }

  function Claimed(s: Schema, bindable: set<string>): seq<string> {
    ClaimAll(Claim([], TopRequired(s), bindable), s.allOf, IsNested(s), bindable)
  }

  function WithBindingControls(s: Schema, c: Contract): Schema {
    var controls := BindingControlProperties(c);
    if controls.Keys == {} then s
    else
      var bindable, nested := BindableKeys(c), IsNested(s);
      var properties := s.properties + controls;
      s.(properties := if nested
        then properties["values" := RelaxSchema(s.properties["values"], bindable)] else properties,
         required := if nested || s.required.None? then s.required else Some(Without(s.required.value, bindable)),
         allOf := Relaxed(s.allOf, nested, bindable) + Alternatives(Claimed(s, bindable), nested, c.blueprint.Some?))
  }

  /** The composition as it is written: one pass over the required names and the
      conditions, filling the set of claimed names on the way. */
  method ComposeBindingControls(s: Schema, c: Contract) returns (r: Schema)
    ensures r == WithBindingControls(s, c)
  {
    var controls := BindingControlProperties(c);
    if controls.Keys == {} { return s; }
    var bindable, nested := BindableKeys(c), IsNested(s);
    var properties, required := s.properties + controls, s.required;
    var claimed: seq<string> := [];
    if nested {
      claimed := Claim(claimed, Names(s.properties["values"].required), bindable);
      properties := properties["values" := RelaxSchema(s.properties["values"], bindable)];
    } else {
      claimed := Claim(claimed, Names(required), bindable);
      if required.Some? { required := Some(Without(required.value, bindable)); }
    }
    var existing: seq<Schema> := [];
    for i := 0 to |s.allOf|
      invariant existing == Relaxed(s.allOf[..i], nested, bindable)
      invariant ClaimAll(claimed, s.allOf[i..], nested, bindable) == Claimed(s, bindable)
    {
      claimed := Claim(claimed, ThenRequired(s.allOf[i], nested), bindable);
      existing := existing + [RelaxCondition(s.allOf[i], nested, bindable)];
    }
    assert s.allOf[..|s.allOf|] == s.allOf;
    r := s.(properties := properties, required := required,
      allOf := existing + Alternatives(claimed, nested, c.blueprint.Some?));
  }
}
