/** The part of JSON Schema 2020-12 that the create contracts are built from:
    assertions on object members (Validation section 6.5), in-place applicators
    (Core sections 10.2.1 and 10.2.2.1) and `properties` with a closed remainder. */
module JsonSchema {
  import opened Options

  datatype Json = Obj(members: map<string, Json>) | Arr(items: seq<Json>) | Str(text: string) | Scalar(literal: string)

  datatype Branch = Branch(test: Schema, consequence: Schema)

  /** `closed` is `additionalProperties: false`; `other` stands for every keyword not modelled;
      an empty `anyOf` is an absent one. */
  datatype Schema = Schema(
    isObject: bool, required: Option<seq<string>>, properties: map<string, Schema>, closed: bool,
    dependent: map<string, seq<string>>, allOf: seq<Schema>, anyOf: seq<Schema>,
    negated: Option<Schema>, branch: Option<Branch>, other: Json -> bool)

  const Anything := Schema(false, None, map[], false, map[], [], [], None, None, _ => true)

  function Leaf(other: Json -> bool): Schema { Anything.(other := other) }

  function Requiring(names: seq<string>): Schema { Anything.(required := Some(names)) }

  predicate Has(j: Json, name: string) { j.Obj? && name in j.members }

  predicate HasAll(j: Json, names: seq<string>) {
    forall i :: 0 <= i < |names| ==> Has(j, names[i])
  }

  predicate Valid(s: Schema, j: Json)
    decreases s
  {
    && s.other(j)
    && (s.isObject ==> j.Obj?)
    && (j.Obj? ==>
          && (s.required.Some? ==> HasAll(j, s.required.value))
          && (forall k :: k in s.properties && k in j.members ==> Valid(s.properties[k], j.members[k]))
          && (s.closed ==> j.members.Keys <= s.properties.Keys)
          && (forall k :: k in s.dependent && k in j.members ==> HasAll(j, s.dependent[k])))
    && (forall i :: 0 <= i < |s.allOf| ==> Valid(s.allOf[i], j))
    && (|s.anyOf| > 0 ==> exists i :: 0 <= i < |s.anyOf| && Valid(s.anyOf[i], j))
    && (s.negated.Some? ==> !Valid(s.negated.value, j))
    && (s.branch.Some? ==> (Valid(s.branch.value.test, j) ==> Valid(s.branch.value.consequence, j)))
  }
}
