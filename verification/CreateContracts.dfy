/** What the composed create contracts accept. */
module CreateContracts {
  import opened Options
  import opened JsonSchema
  import opened CreateSchema

  // ---------- names ----------

  lemma {:induction false} WithoutMembers(names: seq<string>, dropped: set<string>)
    ensures forall r :: r in Without(names, dropped) <==> r in names && r !in dropped
  {
    if names != [] { WithoutMembers(names[1..], dropped); }
  }

  lemma {:induction false} ClaimMembers(claimed: seq<string>, names: seq<string>, bindable: set<string>)
    ensures forall r :: r in Claim(claimed, names, bindable) <==> r in claimed || (r in names && r in bindable)
    decreases names
  {
    if names != [] {
      var more := if names[0] in bindable && names[0] !in claimed then claimed + [names[0]] else claimed;
      ClaimMembers(more, names[1..], bindable);
    }
  }

  ghost predicate SomeThenRequires(conditions: seq<Schema>, nested: bool, r: string) {
    exists i :: 0 <= i < |conditions| && r in ThenRequired(conditions[i], nested)
  }

  lemma {:induction false} ClaimAllMembers(claimed: seq<string>, conditions: seq<Schema>, nested: bool,
      bindable: set<string>)
    ensures forall r :: r in ClaimAll(claimed, conditions, nested, bindable) <==>
      r in claimed || (r in bindable && SomeThenRequires(conditions, nested, r))
    decreases |conditions|
  {
    if |conditions| > 0 {
      var next := Claim(claimed, ThenRequired(conditions[0], nested), bindable);
      ClaimMembers(claimed, ThenRequired(conditions[0], nested), bindable);
      ClaimAllMembers(next, conditions[1..], nested, bindable);
      forall r ensures SomeThenRequires(conditions, nested, r) <==>
        r in ThenRequired(conditions[0], nested) || SomeThenRequires(conditions[1..], nested, r)
      {
        ThenRequiresSplit(conditions, nested, r);
      }
    }
  }

  lemma ThenRequiresSplit(conditions: seq<Schema>, nested: bool, r: string)
    requires |conditions| > 0
    ensures SomeThenRequires(conditions, nested, r) <==>
      r in ThenRequired(conditions[0], nested) || SomeThenRequires(conditions[1..], nested, r)
  {
    hide ThenRequired;
    if SomeThenRequires(conditions, nested, r) {
      var i :| 0 <= i < |conditions| && r in ThenRequired(conditions[i], nested);
      if i > 0 { assert conditions[1..][i - 1] == conditions[i]; }
    }
    if SomeThenRequires(conditions[1..], nested, r) {
      var i :| 0 <= i < |conditions[1..]| && r in ThenRequired(conditions[1..][i], nested);
      assert conditions[i + 1] == conditions[1..][i];
    }
  }

  ghost predicate HasEach(j: Json, names: seq<string>) {
    forall r :: r in names ==> Has(j, r)
  }

  lemma HasAllIsHasEach(j: Json, names: seq<string>)
    ensures HasAll(j, names) <==> HasEach(j, names)
  {
    if HasEach(j, names) {
      forall i | 0 <= i < |names| ensures Has(j, names[i]) { assert names[i] in names; }
    }
  }

  // ---------- evaluating the built schemas ----------

  ghost predicate AllValid(ss: seq<Schema>, j: Json) {
    forall i :: 0 <= i < |ss| ==> Valid(ss[i], j)
  }

  function Shell(s: Schema): Schema { s.(required := None, allOf := []) }

  /** A schema asks for its shell, its required names and its `allOf`. */
  lemma ValidSplits(s: Schema, j: Json)
    ensures Valid(s, j) <==> Valid(Shell(s), j) && (j.Obj? ==> HasEach(j, Names(s.required))) && AllValid(s.allOf, j)
  {
    HasAllIsHasEach(j, Names(s.required));
  }

  lemma RequiringMeans(names: seq<string>, j: Json)
    ensures Valid(Requiring(names), j) <==> (j.Obj? ==> HasEach(j, names))
  {
    HasAllIsHasEach(j, names);
  }

  lemma IfMeans(test: Schema, consequence: Schema, j: Json)
    ensures Valid(If(test, consequence), j) <==> (Valid(test, j) ==> Valid(consequence, j))
  {
  }

  lemma UnlessMeans(name: string, consequence: Schema, j: Json)
    ensures Valid(Unless(name, consequence), j) <==> ((j.Obj? ==> Has(j, name)) || Valid(consequence, j))
  {
    RequiringMeans([name], j);
    var test := Anything.(negated := Some(Requiring([name])));
    assert Valid(test, j) <==> !Valid(Requiring([name]), j);
    IfMeans(test, consequence, j);
  }

  ghost predicate Bound(j: Json, name: string) {
    Has(j, "bindings") && (j.members["bindings"].Obj? ==> Has(j.members["bindings"], name))
  }

  ghost predicate Supplied(j: Json, name: string, nested: bool) {
    if nested then Has(j, "values") && (j.members["values"].Obj? ==> Has(j.members["values"], name)) else Has(j, name)
  }

  lemma MemberRequiringMeans(member: string, name: string, j: Json)
    requires j.Obj?
    ensures Valid(Requiring([member]).(properties := map[member := Requiring([name])]), j) <==>
      Has(j, member) && (j.members[member].Obj? ==> Has(j.members[member], name))
  {
    var s := Requiring([member]).(properties := map[member := Requiring([name])]);
    HasAllIsHasEach(j, [member]);
    if Has(j, member) { RequiringMeans([name], j.members[member]); }
  }

  /** Supplied as a value, bound, or taken from a blueprint. */
  lemma AlternativeMeans(name: string, nested: bool, blueprint: bool, j: Json)
    requires j.Obj?
    ensures Valid(Alternative(name, nested, blueprint), j) <==>
      Supplied(j, name, nested) || Bound(j, name) || (blueprint && Has(j, "blueprintId"))
  {
    hide Valid;
    MemberRequiringMeans("bindings", name, j);
    MemberRequiringMeans("values", name, j);
    RequiringMeans([name], j);
    RequiringMeans(["blueprintId"], j);
    var s := Alternative(name, nested, blueprint);
    var literal := if nested
      then Requiring(["values"]).(properties := map["values" := Requiring([name])]) else Requiring([name]);
    var bound := Requiring(["bindings"]).(properties := map["bindings" := Requiring([name])]);
    assert s.anyOf[0] == literal && s.anyOf[1] == bound;
    if blueprint { assert s.anyOf[2] == Requiring(["blueprintId"]); }
    assert |s.anyOf| == if blueprint then 3 else 2;
    AnyOfMeans(s.anyOf, j);
  }

  lemma AnyOfMeans(ss: seq<Schema>, j: Json)
    requires |ss| > 0
    ensures Valid(Anything.(anyOf := ss), j) <==> exists i :: 0 <= i < |ss| && Valid(ss[i], j)
  {
  }

  lemma AlternativesMean(names: seq<string>, nested: bool, blueprint: bool, j: Json)
    requires j.Obj?
    ensures AllValid(Alternatives(names, nested, blueprint), j) <==>
      forall r :: r in names ==> Supplied(j, r, nested) || Bound(j, r) || (blueprint && Has(j, "blueprintId"))
  {
    hide Alternative, Supplied, Bound, Valid;
    forall i | 0 <= i < |names|
      ensures Valid(Alternatives(names, nested, blueprint)[i], j) <==>
        Supplied(j, names[i], nested) || Bound(j, names[i]) || (blueprint && Has(j, "blueprintId"))
    {
      AlternativeMeans(names[i], nested, blueprint, j);
    }
    if AllValid(Alternatives(names, nested, blueprint), j) {
      forall r | r in names ensures Supplied(j, r, nested) || Bound(j, r) || (blueprint && Has(j, "blueprintId")) {
        var i :| 0 <= i < |names| && names[i] == r;
        assert Valid(Alternatives(names, nested, blueprint)[i], j);
      }
    }
  }

  lemma AllValidJoin(a: seq<Schema>, b: seq<Schema>, j: Json)
    ensures AllValid(a + b, j) <==> AllValid(a, j) && AllValid(b, j)
  {
    hide Valid;
    if AllValid(a + b, j) {
      forall i | 0 <= i < |a| ensures Valid(a[i], j) { assert (a + b)[i] == a[i]; }
      forall i | 0 <= i < |b| ensures Valid(b[i], j) { assert (a + b)[|a| + i] == b[i]; }
    }
  }

  // ---------- flat contracts ----------

  /** The composed flat schema. */
  function FlatCreate(s: Schema, c: Contract): Schema {
    WithBindingControls(WithBlueprintCreate(s, c), c)
  }

  /** The original with the controls declared and nothing required at the top. */
  function FlatBase(s: Schema, c: Contract): Schema {
    s.(required := None, properties := s.properties + BlueprintProperties(c) + BindingControlProperties(c))
  }

  /** Ordinary entities: no field is called `values`, and `blueprintId` is no bindable field. */
  predicate PlainFlat(s: Schema, c: Contract) {
    s.isObject && !IsNested(s) && "blueprintId" !in BindableKeys(c)
  }

  /** No condition of the original requires a bindable field. */
  ghost predicate Unconditional(s: Schema, c: Contract) {
    forall r :: r in BindableKeys(c) ==> !SomeThenRequires(s.allOf, false, r)
  }

  /** What an input must bring, name by name. */
  ghost predicate Presence(required: seq<string>, c: Contract, j: Json, nested: bool) {
    forall r :: r in required ==>
      || (if nested then Has(j, "values") && Has(j.members["values"], r) else Has(j, r))
      || (r in BindableKeys(c) && Has(j, "bindings") && Has(j.members["bindings"], r))
      || (c.blueprint.Some? && Has(j, "blueprintId") && (r in Copied(c) || r in BindableKeys(c)))
  }

  ghost predicate BlueprintBindingsSourced(c: Contract, j: Json) {
    c.blueprint.Some? && Has(j, "blueprintBindings") ==> Has(j, "blueprintId")
  }

  /** In the source's terms: a required field arrives as a value, as a binding where it may be
      bound, or from a named blueprint where that copies it or it may be bound. */
  lemma PresenceMeans(required: seq<string>, c: Contract, j: Json)
    ensures Presence(required, c, j, false) <==> forall r :: r in required ==>
      || Has(j, r)
      || (r in BindableKeys(c) && Has(j, "bindings") && Has(j.members["bindings"], r))
      || (&& Has(j, "blueprintId")
          && exists copied :: c.blueprint == Some(copied) && (r in copied || r in BindableKeys(c)))
  {
    hide BindableKeys;
  }

  lemma RelaxNothing(condition: Schema, bindable: set<string>)
    requires forall r :: r in bindable ==> r !in ThenRequired(condition, false)
    ensures RelaxCondition(condition, false, bindable) == condition
  {
    if condition.branch.Some? && condition.branch.value.consequence.required.Some? {
      KeepAll(condition.branch.value.consequence.required.value, bindable);
    }
  }

  lemma {:induction false} KeepAll(names: seq<string>, dropped: set<string>)
    requires forall r :: r in dropped ==> r !in names
    ensures Without(names, dropped) == names
  {
    if names != [] { KeepAll(names[1..], dropped); }
  }

  lemma RelaxedUnconditional(s: Schema, c: Contract)
    requires Unconditional(s, c)
    ensures Relaxed(s.allOf, false, BindableKeys(c)) == s.allOf
  {
    hide RelaxCondition, ThenRequired;
    forall i | 0 <= i < |s.allOf| ensures RelaxCondition(s.allOf[i], false, BindableKeys(c)) == s.allOf[i] {
      forall r | r in BindableKeys(c)
        ensures r !in ThenRequired(s.allOf[i], false) { assert !SomeThenRequires(s.allOf, false, r); }
      RelaxNothing(s.allOf[i], BindableKeys(c));
    }
  }

  /** The conditions a blueprint adds, before and after relaxation. */
  function BlueprintConditions(required: seq<string>): seq<Schema> {
    [If(Requiring(["blueprintBindings"]), Requiring(["blueprintId"])), Unless("blueprintId", Requiring(required))]
  }

  lemma BlueprintConditionsMean(required: seq<string>, j: Json)
    requires j.Obj?
    ensures AllValid(BlueprintConditions(required), j) <==>
      (Has(j, "blueprintBindings") ==> Has(j, "blueprintId")) && (Has(j, "blueprintId") || HasEach(j, required))
  {
    var cs := BlueprintConditions(required);
    IfMeans(Requiring(["blueprintBindings"]), Requiring(["blueprintId"]), j);
    RequiringMeans(["blueprintBindings"], j);
    RequiringMeans(["blueprintId"], j);
    UnlessMeans("blueprintId", Requiring(required), j);
    RequiringMeans(required, j);
    hide Valid, If, Unless, Requiring;
    assert AllValid(cs, j) <==> Valid(cs[0], j) && Valid(cs[1], j);
  }

  lemma RelaxBlueprintConditions(required: seq<string>, bindable: set<string>)
    requires "blueprintId" !in bindable
    ensures Relaxed(BlueprintConditions(required), false, bindable) == BlueprintConditions(Without(required, bindable))
  {
    KeepAll(["blueprintId"], bindable);
    var a, b := Relaxed(BlueprintConditions(required), false, bindable),
      BlueprintConditions(Without(required, bindable));
    assert a[0] == b[0];
    assert a[1] == b[1];
  }

  lemma RelaxedJoin(a: seq<Schema>, b: seq<Schema>, nested: bool, bindable: set<string>)
    ensures Relaxed(a + b, nested, bindable) == Relaxed(a, nested, bindable) + Relaxed(b, nested, bindable)
  {
    hide RelaxCondition;
  }

  lemma SomeThenRequiresJoin(a: seq<Schema>, b: seq<Schema>, nested: bool, r: string)
    ensures SomeThenRequires(a + b, nested, r) <==> SomeThenRequires(a, nested, r) || SomeThenRequires(b, nested, r)
  {
    hide ThenRequired;
    if SomeThenRequires(a, nested, r) {
      var i :| 0 <= i < |a| && r in ThenRequired(a[i], nested);
      assert (a + b)[i] == a[i];
    }
    if SomeThenRequires(b, nested, r) {
      var i :| 0 <= i < |b| && r in ThenRequired(b[i], nested);
      assert (a + b)[|a| + i] == b[i];
    }
  }

  lemma BlueprintConditionsRequire(required: seq<string>, r: string)
    ensures SomeThenRequires(BlueprintConditions(required), false, r) <==> r == "blueprintId" || r in required
  {
    var cs := BlueprintConditions(required);
    assert ThenRequired(cs[0], false) == ["blueprintId"] && ThenRequired(cs[1], false) == required;
  }

  /** Every name the composition sets aside, and no other. */
  lemma FlatClaims(s: Schema, c: Contract)
    requires PlainFlat(s, c)
    ensures forall r :: r in Claimed(WithBlueprintCreate(s, c), BindableKeys(c)) <==>
      r in BindableKeys(c) && (r in Names(s.required) || SomeThenRequires(s.allOf, false, r))
  {
    var t, bindable, required := WithBlueprintCreate(s, c), BindableKeys(c), Names(s.required);
    ClaimMembers([], TopRequired(t), bindable);
    ClaimAllMembers(Claim([], TopRequired(t), bindable), t.allOf, false, bindable);
    WithoutMembers(required, Copied(c));
    if c.blueprint.Some? {
      assert t.allOf == s.allOf + BlueprintConditions(required);
      forall r ensures SomeThenRequires(t.allOf, false, r) <==>
        SomeThenRequires(s.allOf, false, r) || r == "blueprintId" || r in required {
        SomeThenRequiresJoin(s.allOf, BlueprintConditions(required), false, r);
        BlueprintConditionsRequire(required, r);
      }
    }
  }

  /** Without bindable fields the binding controls change nothing. */
  lemma NoBindable(c: Contract)
    ensures BindingControlProperties(c).Keys == {} <==> BindableKeys(c) == {}
  {
    var fields := BindableFields(c.fields, c.persisted);
    if |fields| > 0 {
      assert fields[0].key in Keys(fields);
      assert "bindings" in BindingControlProperties(c);
    }
  }

  lemma FlatShell(s: Schema, c: Contract)
    requires PlainFlat(s, c)
    ensures Shell(FlatCreate(s, c)) == Shell(FlatBase(s, c))
  {
    if BindingControlProperties(c).Keys == {} { assert BindingControlProperties(c) == map[]; }
  }

  lemma FlatConditionsRelaxed(s: Schema, c: Contract)
    requires PlainFlat(s, c) && BindableKeys(c) != {}
    ensures
      var kept := if c.blueprint.Some? then BlueprintConditions(Without(Names(s.required), BindableKeys(c))) else [];
      FlatCreate(s, c).allOf == Relaxed(s.allOf, false, BindableKeys(c)) + kept
        + Alternatives(Claimed(WithBlueprintCreate(s, c), BindableKeys(c)), false, c.blueprint.Some?)
  {
    NoBindable(c);
    var required := Names(s.required);
    if c.blueprint.Some? {
      assert WithBlueprintCreate(s, c).allOf == s.allOf + BlueprintConditions(required);
      RelaxedJoin(s.allOf, BlueprintConditions(required), false, BindableKeys(c));
      RelaxBlueprintConditions(required, BindableKeys(c));
    }
  }

  lemma FlatRequired(s: Schema, c: Contract)
    requires PlainFlat(s, c)
    ensures forall r :: r in Names(FlatCreate(s, c).required) <==>
      r in Names(s.required) && r !in Copied(c) && r !in BindableKeys(c)
  {
    NoBindable(c);
    WithoutMembers(Names(s.required), Copied(c));
    WithoutMembers(Names(WithBlueprintCreate(s, c).required), BindableKeys(c));
  }

  /** A valid `bindings` member is an object. */
  lemma BindingsAreObjects(s: Schema, c: Contract, j: Json)
    requires BindableKeys(c) != {} && Valid(Shell(FlatBase(s, c)), j) && Has(j, "bindings")
    ensures j.members["bindings"].Obj?
  {
    NoBindable(c);
    assert FlatBase(s, c).properties["bindings"] == BindingsSchema(BindableFields(c.fields, c.persisted));
    assert Valid(BindingsSchema(BindableFields(c.fields, c.persisted)), j.members["bindings"]);
  }

  /** Every bindable name that some condition may require, required outright. */
  ghost predicate Hardened(s: Schema, c: Contract, j: Json) {
    forall r :: r in BindableKeys(c) && SomeThenRequires(s.allOf, false, r) ==> Presence([r], c, j, false)
  }

  lemma PresenceOfOne(r: string, c: Contract, j: Json)
    requires r in BindableKeys(c)
    ensures Presence([r], c, j, false) <==>
      Has(j, r) || (Has(j, "bindings") && Has(j.members["bindings"], r)) || (c.blueprint.Some? && Has(j, "blueprintId"))
  {
    assert r in [r];
  }

  /** The parts of the composition, put together name by name. */
  lemma FlatPresence(s: Schema, c: Contract, j: Json, claimed: seq<string>)
    requires j.Obj? && (BindableKeys(c) != {} && Has(j, "bindings") ==> j.members["bindings"].Obj?)
    requires forall r :: r in claimed <==>
      r in BindableKeys(c) && (r in Names(s.required) || SomeThenRequires(s.allOf, false, r))
    ensures var required := Names(s.required);
      (&& (forall r :: r in required && r !in Copied(c) && r !in BindableKeys(c) ==> Has(j, r))
       && (c.blueprint.Some? ==> Has(j, "blueprintBindings") ==> Has(j, "blueprintId"))
       && (c.blueprint.Some? ==>
         Has(j, "blueprintId") || forall r :: r in required && r !in BindableKeys(c) ==> Has(j, r))
       && (forall r :: r in claimed ==>
         Supplied(j, r, false) || Bound(j, r) || (c.blueprint.Some? && Has(j, "blueprintId"))))
      <==> Presence(required, c, j, false) && BlueprintBindingsSourced(c, j) && Hardened(s, c, j)
  {
    hide BindableKeys, SomeThenRequires, Names;
    if c.blueprint.None? { assert Copied(c) == {}; }
    forall r | r in BindableKeys(c)
      ensures Presence([r], c, j, false) <==>
        Supplied(j, r, false) || Bound(j, r) || (c.blueprint.Some? && Has(j, "blueprintId"))
    {
      PresenceOfOne(r, c, j);
    }
  }

  /** What the composed conditions and the remaining required names ask for. */
  lemma FlatConditionsMean(s: Schema, c: Contract, j: Json)
    requires PlainFlat(s, c) && j.Obj?
    requires BindableKeys(c) != {} && Has(j, "bindings") ==> j.members["bindings"].Obj?
    ensures AllValid(FlatCreate(s, c).allOf, j) && HasEach(j, Names(FlatCreate(s, c).required)) <==>
      (&& AllValid(Relaxed(s.allOf, false, BindableKeys(c)), j) && Presence(Names(s.required), c, j, false)
       && BlueprintBindingsSourced(c, j) && Hardened(s, c, j))
  {
    var required, bindable := Names(s.required), BindableKeys(c);
    FlatRequired(s, c);
    NoBindable(c);
    hide Valid, FlatCreate, FlatBase, Relaxed;
    WithoutMembers(required, bindable);
    if bindable == {} {
      RelaxedUnconditional(s, c);
      if c.blueprint.Some? {
        FlatConditionsUnbound(s, c);
        AllValidJoin(s.allOf, BlueprintConditions(required), j);
        BlueprintConditionsMean(required, j);
      } else {
        FlatUnchanged(s, c);
      }
    } else {
      var claimed := Claimed(WithBlueprintCreate(s, c), bindable);
      var kept := if c.blueprint.Some? then BlueprintConditions(Without(required, bindable)) else [];
      var relaxed := Relaxed(s.allOf, false, bindable);
      FlatConditionsRelaxed(s, c);
      FlatClaims(s, c);
      AllValidJoin(relaxed + kept, Alternatives(claimed, false, c.blueprint.Some?), j);
      AllValidJoin(relaxed, kept, j);
      if c.blueprint.Some? { BlueprintConditionsMean(Without(required, bindable), j); }
      AlternativesMean(claimed, false, c.blueprint.Some?, j);
      FlatPresence(s, c, j, claimed);
    }
  }

  /** Exact meaning of the flat create contract, whatever conditions the original has: they
      hold without the bindable names they require, and those names are required outright. */
  lemma FlatCreateMeans(s: Schema, c: Contract, j: Json)
    requires PlainFlat(s, c)
    ensures Valid(FlatCreate(s, c), j) <==>
      (&& Valid(Shell(FlatBase(s, c)), j) && AllValid(Relaxed(s.allOf, false, BindableKeys(c)), j)
       && Presence(Names(s.required), c, j, false) && BlueprintBindingsSourced(c, j) && Hardened(s, c, j))
  {
    FlatShell(s, c);
    ValidSplits(FlatCreate(s, c), j);
    if Valid(Shell(FlatBase(s, c)), j) {
      assert j.Obj? by { hide BindingControlProperties, BlueprintProperties; }
      if BindableKeys(c) != {} && Has(j, "bindings") { BindingsAreObjects(s, c, j); }
      FlatConditionsMean(s, c, j);
    }
  }

  // ---------- which fields may be bound ----------

  lemma {:induction false} BindableFieldsMean(fields: seq<FieldModel>, persisted: set<string>, f: FieldModel)
    ensures f in BindableFields(fields, persisted) <==>
      f in fields && f.variables.Some? && f.variables.value != "none" && f.key in persisted
  {
    if fields != [] {
      BindableFieldsMean(fields[1..], persisted, f);
      assert f in fields <==> f == fields[0] || f in fields[1..];
    }
  }

  lemma {:induction false} KeysMean(fields: seq<FieldModel>, key: string)
    ensures key in Keys(fields) <==> exists f :: f in fields && f.key == key
  {
    if fields != [] {
      KeysMean(fields[1..], key);
      assert fields[0] in fields;
      if f :| f in fields[1..] && f.key == key { assert f in fields; }
    }
  }

  /** A name may be bound exactly when it is persisted and a field of that name takes variables. */
  lemma BindableKeysMean(c: Contract, key: string)
    ensures key in BindableKeys(c) <==>
      key in c.persisted && exists f ::
        f in c.fields && f.key == key && f.variables.Some? && f.variables.value != "none"
  {
    var bindable := BindableFields(c.fields, c.persisted);
    KeysMean(bindable, key);
    if f :| f in bindable && f.key == key { BindableFieldsMean(c.fields, c.persisted, f); }
    if f :| f in c.fields && f.key == key && f.variables.Some? && f.variables.value != "none" {
      BindableFieldsMean(c.fields, c.persisted, f);
    }
  }

  /** A required field that takes no variable, or is not persisted, must arrive as a value or be
      copied by the blueprint; no binding stands in for it. */
  lemma UnbindableMustArrive(s: Schema, c: Contract, j: Json, r: string)
    requires PlainFlat(s, c) && r in Names(s.required) && Valid(FlatCreate(s, c), j)
    requires r !in c.persisted || forall f :: f in c.fields && f.key == r ==>
      f.variables.None? || f.variables.value == "none"
    ensures Has(j, r) || (c.blueprint.Some? && r in c.blueprint.value && Has(j, "blueprintId"))
  {
    hide Valid, FlatCreate, BindableKeys;
    FlatCreateMeans(s, c, j);
    BindableKeysMean(c, r);
  }

  lemma {:induction false} BindingPropertiesMean(fields: seq<FieldModel>, key: string)
    requires forall f, g :: f in fields && g in fields && f.key == g.key ==> f == g
    ensures key in BindingProperties(fields) <==> exists f :: f in fields && f.key == key
    ensures forall f :: f in fields && f.key == key ==>
      key in BindingProperties(fields) && BindingProperties(fields)[key] == f.bindingSchema
  {
    if fields != [] {
      assert forall f :: f in fields <==> f == fields[0] || f in fields[1..];
      BindingPropertiesMean(fields[1..], key);
    }
  }

  /** The controls are offered exactly where a field may be bound. `bindings` holds such fields
      only, each as its mode has it; `unbind` lists such fields, each once. */
  lemma BindingControlsMean(c: Contract, j: Json)
    requires forall f, g :: f in c.fields && g in c.fields && f.key == g.key ==> f == g
    ensures BindingControlProperties(c).Keys == if BindableKeys(c) == {} then {} else {"bindings", "unbind"}
    ensures BindableKeys(c) != {} ==>
      && (Valid(BindingControlProperties(c)["bindings"], j) <==> j.Obj? && forall k :: k in j.members ==>
            k in BindableKeys(c) && forall f :: f in c.fields && f.key == k ==> Valid(f.bindingSchema, j.members[k]))
      && (Valid(BindingControlProperties(c)["unbind"], j) <==>
            j.Arr? && Unique(j.items) && forall i :: 0 <= i < |j.items| ==>
              j.items[i].Str? && j.items[i].text in BindableKeys(c))
  {
    hide Valid;
    var fields := BindableFields(c.fields, c.persisted);
    NoBindable(c);
    forall f | f in fields ensures f in c.fields { BindableFieldsMean(c.fields, c.persisted, f); }
    if BindableKeys(c) != {} {
      UnbindMeans(BindableKeys(c), j);
      forall k ensures k in BindingProperties(fields) <==> k in BindableKeys(c) {
        BindingPropertiesMean(fields, k);
        KeysMean(fields, k);
      }
      BindingsMean(fields, j);
      forall k | k in BindableKeys(c)
        ensures exists f :: f in c.fields && f.key == k && BindingProperties(fields)[k] == f.bindingSchema
      {
        KeysMean(fields, k);
        var g :| g in fields && g.key == k;
        BindingPropertiesMean(fields, k);
      }
    }
  }

  lemma BindingsMean(fields: seq<FieldModel>, j: Json)
    ensures var properties := BindingProperties(fields);
      Valid(BindingsSchema(fields), j) <==>
        j.Obj? && forall k :: k in j.members ==> k in properties && Valid(properties[k], j.members[k])
  {
    hide BindingProperties;
  }

  predicate Unique(items: seq<Json>) { forall i, k :: 0 <= i < k < |items| ==> items[i] != items[k] }

  lemma UnbindMeans(keys: set<string>, j: Json)
    ensures Valid(UnbindSchema(keys), j) <==>
      j.Arr? && Unique(j.items) && forall i :: 0 <= i < |j.items| ==> j.items[i].Str? && j.items[i].text in keys
  {
    if j.Arr? && Unique(j.items) && forall i :: 0 <= i < |j.items| ==> j.items[i].Str? && j.items[i].text in keys {
      FewUnique(keys, j.items);
    }
  }

  /** Distinct names out of a set are at most as many as the set has. */
  lemma {:induction false} FewUnique(keys: set<string>, items: seq<Json>)
    requires Unique(items) && forall i :: 0 <= i < |items| ==> items[i].Str? && items[i].text in keys
    ensures |items| <= |keys|
  {
    if items != [] {
      var n := |items| - 1;
      forall i | 0 <= i < n ensures items[..n][i].Str? && items[..n][i].text in keys - {items[n].text} {
        assert items[i] != items[n];
      }
      FewUnique(keys - {items[n].text}, items[..n]);
    }
  }

  /** The blueprint controls are declared exactly for contracts with a blueprint: an id that is not
      empty, and at most twenty maps of at most a thousand variable names each. */
  lemma BlueprintControlsMean(c: Contract, j: Json)
    ensures BlueprintProperties(c).Keys == if c.blueprint.None? then {} else {"blueprintId", "blueprintBindings"}
    ensures c.blueprint.Some? ==>
      && (Valid(BlueprintProperties(c)["blueprintId"], j) <==> exists text :: text != "" && j == Str(text))
      && (Valid(BlueprintProperties(c)["blueprintBindings"], j) <==>
            j.Obj? && |j.members| <= 20 && forall name :: name in j.members ==>
              var bindings := j.members[name];
              bindings.Obj? && |bindings.members| <= 1000
                && forall key :: key in bindings.members ==> exists text :: bindings.members[key] == Str(text))
  {
  }

  /** Where no condition requires a bindable field, that is the original with the controls
      declared, and every required field present, bound or taken from a blueprint. */
  lemma UnconditionalCreateMeans(s: Schema, c: Contract, j: Json)
    requires PlainFlat(s, c) && Unconditional(s, c)
    ensures Valid(FlatCreate(s, c), j) <==>
      Valid(FlatBase(s, c), j) && Presence(Names(s.required), c, j, false) && BlueprintBindingsSourced(c, j)
  {
    hide Valid, FlatCreate, Presence;
    FlatCreateMeans(s, c, j);
    RelaxedUnconditional(s, c);
    ValidSplits(FlatBase(s, c), j);
  }

  lemma FlatConditionsUnbound(s: Schema, c: Contract)
    requires PlainFlat(s, c) && BindableKeys(c) == {} && c.blueprint.Some?
    ensures FlatCreate(s, c).allOf == s.allOf + BlueprintConditions(Names(s.required))
    ensures FlatBase(s, c).allOf == s.allOf && FlatBase(s, c).required == None
  {
    NoBindable(c);
  }

  lemma FlatUnchanged(s: Schema, c: Contract)
    requires BindableKeys(c) == {} && c.blueprint.None?
    ensures FlatCreate(s, c) == s && FlatBase(s, c).allOf == s.allOf && FlatBase(s, c).required == None
  {
    NoBindable(c);
  }

  // ---------- inputs that use no control ----------

  ghost predicate NoControls(c: Contract, j: Json) {
    j.Obj? && forall k :: k in BlueprintProperties(c) || k in BindingControlProperties(c) ==> k !in j.members
  }

  lemma NoControlsMeans(c: Contract, j: Json)
    requires NoControls(c, j)
    ensures c.blueprint.Some? ==> !Has(j, "blueprintId") && !Has(j, "blueprintBindings")
    ensures BindableKeys(c) != {} ==> !Has(j, "bindings")
  {
    NoBindable(c);
    if c.blueprint.Some? {
      assert "blueprintId" in BlueprintProperties(c) && "blueprintBindings" in BlueprintProperties(c);
    }
    if BindableKeys(c) != {} { assert "bindings" in BindingControlProperties(c); }
  }

  /** Declaring controls an input does not use leaves its verdict alone. */
  lemma ShellIgnoresUnused(s: Schema, c: Contract, j: Json)
    requires NoControls(c, j)
    ensures Valid(Shell(FlatBase(s, c)), j) == Valid(Shell(s), j)
  {
    var extended := s.properties + BlueprintProperties(c) + BindingControlProperties(c);
    assert forall k :: k in j.members ==> (k in extended <==> k in s.properties);
    assert forall k :: k in j.members && k in extended ==> extended[k] == s.properties[k];
    hide BlueprintProperties, BindingControlProperties;
    PropertiesOnly(Shell(s), Shell(FlatBase(s, c)), j);
  }

  lemma PropertiesOnly(a: Schema, b: Schema, j: Json)
    requires j.Obj? && b == a.(properties := b.properties)
    requires forall k :: k in j.members ==> (k in a.properties <==> k in b.properties)
    requires forall k :: k in j.members && k in a.properties ==> a.properties[k] == b.properties[k]
    ensures Valid(a, j) == Valid(b, j)
  {
  }

  lemma RelaxConditionMeans(condition: Schema, bindable: set<string>, j: Json)
    requires forall r :: r in bindable && r in ThenRequired(condition, false) ==> Has(j, r)
    ensures Valid(RelaxCondition(condition, false, bindable), j) == Valid(condition, j)
  {
    if condition.branch.Some? && condition.branch.value.consequence.required.Some? {
      var k := condition.branch.value.consequence;
      WithoutMembers(k.required.value, bindable);
      ValidSplits(k, j);
      ValidSplits(RelaxSchema(k, bindable), j);
      assert Shell(RelaxSchema(k, bindable)) == Shell(k);
      BranchOnly(condition, RelaxCondition(condition, false, bindable), j);
    }
  }

  /** A relaxed condition asks for what the condition asks for, the bindable names it requires aside. */
  lemma RelaxedConditionMeans(condition: Schema, bindable: set<string>, j: Json)
    requires condition.branch.Some? && j.Obj?
    ensures Valid(condition, j) <==>
      (&& Valid(RelaxCondition(condition, false, bindable), j)
       && (Valid(condition.branch.value.test, j) ==>
         forall r :: r in bindable && r in ThenRequired(condition, false) ==> Has(j, r)))
  {
    var b, relaxed := condition.branch.value, RelaxCondition(condition, false, bindable);
    var k := b.consequence;
    if k.required.Some? {
      WithoutMembers(k.required.value, bindable);
      ValidSplits(k, j);
      ValidSplits(RelaxSchema(k, bindable), j);
      assert Shell(RelaxSchema(k, bindable)) == Shell(k);
      BranchSplits(condition, j);
      BranchSplits(relaxed, j);
      assert relaxed.(branch := None) == condition.(branch := None);
    }
  }

  lemma BranchSplits(s: Schema, j: Json)
    requires s.branch.Some?
    ensures Valid(s, j) <==>
      Valid(s.(branch := None), j) && (Valid(s.branch.value.test, j) ==> Valid(s.branch.value.consequence, j))
  {
  }

  lemma BranchOnly(a: Schema, b: Schema, j: Json)
    requires a.branch.Some? && b.branch.Some? && b == a.(branch := b.branch)
      && b.branch.value.test == a.branch.value.test
    requires Valid(a.branch.value.consequence, j) == Valid(b.branch.value.consequence, j)
    ensures Valid(a, j) == Valid(b, j)
  {
  }

  /** Exact meaning for inputs without controls, whatever the original's conditions: the
      original verdict, and every bindable name that any condition may require. */
  lemma UncontrolledCreateMeans(s: Schema, c: Contract, j: Json)
    requires PlainFlat(s, c) && NoControls(c, j)
    ensures Valid(FlatCreate(s, c), j) <==>
      Valid(s, j) && forall r :: r in BindableKeys(c) && SomeThenRequires(s.allOf, false, r) ==> Has(j, r)
  {
    var t, b, required, bindable := FlatCreate(s, c), FlatBase(s, c), Names(s.required), BindableKeys(c);
    FlatShell(s, c);
    ShellIgnoresUnused(s, c, j);
    NoControlsMeans(c, j);
    ValidSplits(t, j);
    ValidSplits(s, j);
    FlatRequired(s, c);
    NoBindable(c);
    if bindable == {} {
      if c.blueprint.Some? {
        FlatConditionsUnbound(s, c);
        AllValidJoin(s.allOf, BlueprintConditions(required), j);
        BlueprintConditionsMean(required, j);
      } else {
        FlatUnchanged(s, c);
      }
    } else {
      UncontrolledConditions(s, c, j);
    }
  }

  lemma UncontrolledConditions(s: Schema, c: Contract, j: Json)
    requires PlainFlat(s, c) && NoControls(c, j) && BindableKeys(c) != {}
    ensures
      AllValid(FlatCreate(s, c).allOf, j) && HasEach(j, Names(FlatCreate(s, c).required)) <==>
      (&& AllValid(s.allOf, j) && HasEach(j, Names(s.required))
       && forall r :: r in BindableKeys(c) && SomeThenRequires(s.allOf, false, r) ==> Has(j, r))
  {
    var bindable, required := BindableKeys(c), Names(s.required);
    var claimed := Claimed(WithBlueprintCreate(s, c), bindable);
    NoControlsMeans(c, j);
    FlatClaims(s, c);
    FlatRequired(s, c);
    AlternativesMean(claimed, false, c.blueprint.Some?, j);
    var kept := if c.blueprint.Some? then BlueprintConditions(Without(required, bindable)) else [];
    var relaxed := Relaxed(s.allOf, false, bindable);
    FlatConditionsRelaxed(s, c);
    AllValidJoin(relaxed + kept, Alternatives(claimed, false, c.blueprint.Some?), j);
    AllValidJoin(relaxed, kept, j);
    WithoutMembers(required, bindable);
    if c.blueprint.Some? { BlueprintConditionsMean(Without(required, bindable), j); }
    if forall r :: r in bindable && SomeThenRequires(s.allOf, false, r) ==> Has(j, r) {
      RelaxedMeans(s.allOf, bindable, j);
    }
  }

  lemma RelaxedMeans(conditions: seq<Schema>, bindable: set<string>, j: Json)
    requires forall r :: r in bindable && SomeThenRequires(conditions, false, r) ==> Has(j, r)
    ensures AllValid(Relaxed(conditions, false, bindable), j) <==> AllValid(conditions, j)
  {
    hide Valid, RelaxCondition, ThenRequired;
    forall i | 0 <= i < |conditions|
      ensures Valid(Relaxed(conditions, false, bindable)[i], j) == Valid(conditions[i], j) {
      forall r | r in bindable && r in ThenRequired(conditions[i], false) ensures Has(j, r) {
        assert SomeThenRequires(conditions, false, r);
      }
      RelaxConditionMeans(conditions[i], bindable, j);
    }
  }

  /** A conditional requirement of a bindable field becomes unconditional: the original
      accepts the empty object, the composed contract does not. */
  lemma ConditionalRequirementHardens() returns (s: Schema, c: Contract, j: Json)
    ensures PlainFlat(s, c) && NoControls(c, j) && j == Obj(map[])
    ensures Valid(s, j) && !Valid(FlatCreate(s, c), j)
  {
    var condition := If(Requiring(["kind"]), Requiring(["name"]));
    s := Anything.(isObject := true, allOf := [condition]);
    var field := FieldModel("name", Some("whole"), Anything);
    c := Contract([field], {"name"}, None);
    j := Obj(map[]);
    assert BindableFields(c.fields, c.persisted) == [field] + BindableFields([], c.persisted);
    assert BindableKeys(c) == {"name"} + Keys([]);
    IfMeans(Requiring(["kind"]), Requiring(["name"]), j);
    RequiringMeans(["kind"], j);
    assert !Valid(Requiring(["kind"]), j) by { assert "kind" in ["kind"]; }
    assert Valid(s, j);
    assert ThenRequired(condition, false) == ["name"];
    assert SomeThenRequires(s.allOf, false, "name") by { assert s.allOf[0] == condition; }
    UncontrolledCreateMeans(s, c, j);
  }
}
