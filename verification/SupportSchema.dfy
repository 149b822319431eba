/** The minimal JSON Schema checker of the support boundary: the keywords it implements,
    with `$ref` chains, against a declarative reading of the same keywords. */
module SupportSchema {
  import opened Options
  import opened Json

  /** `additionalProperties` absent or true, false, or a schema. */
  datatype Additional = Open | Closed | Typed(schema: Schema)

  datatype Schema =
    | Ref(reference: string)
    | Node(constant: Option<Value>, choices: Option<seq<Value>>, typeName: Option<string>, minLength: nat,
           minItems: nat, items: Option<Schema>, required: seq<string>, properties: map<string, Schema>,
           additional: Additional)

  /** What each `#/...` reference of the root schema leads to. */
  type Definitions = map<string, Schema>

  datatype Step = Key(name: string) | Index(at: nat)

  datatype Keyword = KRef | KConst | KEnum | KType | KMinLength | KMinItems | KRequired | KUnknown

  datatype Problem = Problem(path: seq<Step>, keyword: Keyword, name: string)

  /** A missing reference target and an endless chain of references raise. */
  datatype Outcome = Errors(problems: set<Problem>) | Crash

  // ------------------------------------------------------------------ references

  datatype Target = Found(node: Schema) | Unsupported | Broken

  predicate IsLocal(reference: string) { |reference| >= 2 && reference[0] == '#' && reference[1] == '/' }

  /** Follow a chain of references; meeting a reference again means the chain never ends. */
  function Follow(schema: Schema, defs: Definitions, seen: set<string>): (t: Target)
    ensures t.Found? ==> t.node.Node?
    decreases defs.Keys - seen
  {
    match schema
    case Node(_, _, _, _, _, _, _, _, _) => Found(schema)
    case Ref(reference) =>
      if !IsLocal(reference) then Unsupported
      else if reference !in defs || reference in seen then Broken
      else Follow(defs[reference], defs, seen + {reference})
  }

  /** What `n` hops along the references lead to, if there are that many. */
  function Hops(schema: Schema, defs: Definitions, n: nat): Option<Schema>
    decreases n
  {
    if n == 0 then Some(schema)
    else if schema.Ref? && IsLocal(schema.reference) && schema.reference in defs then
      Hops(defs[schema.reference], defs, n - 1)
    else None
  }

  ghost predicate EndsAfter(schema: Schema, defs: Definitions, n: nat, node: Schema) {
    node.Node? && Hops(schema, defs, n) == Some(node)
  }

  lemma {:induction false} EndIsUnique(schema: Schema, defs: Definitions, n: nat, a: Schema, m: nat, b: Schema)
    requires EndsAfter(schema, defs, n, a) && EndsAfter(schema, defs, m, b)
    ensures n == m && a == b
    decreases n
  {
    if n > 0 && m > 0 { EndIsUnique(defs[schema.reference], defs, n - 1, a, m - 1, b); }
  }

  /** A chain that ends is never mistaken for an endless one: every reference already met is farther from the end. */
  lemma {:induction false} EndIsFound(schema: Schema, defs: Definitions, seen: set<string>, n: nat, node: Schema)
    requires EndsAfter(schema, defs, n, node)
    requires forall q, m: nat, b | q in seen && EndsAfter(Ref(q), defs, m, b) :: m > n
    ensures Follow(schema, defs, seen) == Found(node)
    decreases n
  {
    if n > 0 {
      var p := schema.reference;
      forall q, m: nat, b | q in seen + {p} && EndsAfter(Ref(q), defs, m, b) ensures m > n - 1 {
        if q == p { EndIsUnique(schema, defs, n, node, m, b); }
      }
      EndIsFound(defs[p], defs, seen + {p}, n - 1, node);
    }
  }

  lemma {:induction false} FoundIsEnd(schema: Schema, defs: Definitions, seen: set<string>) returns (n: nat)
    requires Follow(schema, defs, seen).Found?
    ensures EndsAfter(schema, defs, n, Follow(schema, defs, seen).node)
    decreases defs.Keys - seen
  {
    if schema.Node? { n := 0; }
    else {
      var k := FoundIsEnd(defs[schema.reference], defs, seen + {schema.reference});
      n := k + 1;
    }
  }

  /** Following a chain finds a node exactly when finitely many hops reach it. */
  lemma FollowIffChainEnds(schema: Schema, defs: Definitions, node: Schema)
    ensures Follow(schema, defs, {}) == Found(node) <==> exists n: nat :: EndsAfter(schema, defs, n, node)
  {
    if Follow(schema, defs, {}).Found? { var n := FoundIsEnd(schema, defs, {}); }
    forall n: nat | EndsAfter(schema, defs, n, node) ensures Follow(schema, defs, {}) == Found(node) {
      EndIsFound(schema, defs, {}, n, node);
    }
  }

  predicate TypeMatches(v: Value, typeName: string) {
    match typeName
    case "object" => v.Obj?
    case "array" => v.Arr?
    case "string" => v.Str?
    case "boolean" => v.Bool?
    case "integer" => v.Int?
    case "number" => v.Int? || v.Float?
    case _ => true
  }

  /** The type names JSON Schema gives a value, of the six the checker knows. */
  function TypesOf(v: Value): set<string> {
    match v
    case Null => {}
    case Bool(_) => {"boolean"}
    case Int(_) => {"integer", "number"}
    case Float(_, _) => {"number"}
    case Str(_) => {"string"}
    case Arr(_) => {"array"}
    case Obj(_) => {"object"}
  }

  /** A name the checker does not know passes unchecked. */
  predicate HasType(v: Value, typeName: string) {
    typeName in {"object", "array", "string", "boolean", "integer", "number"} ==> typeName in TypesOf(v)
  }

  lemma TypeMatchesIff(v: Value, typeName: string)
    ensures TypeMatches(v, typeName) <==> HasType(v, typeName)
  {
  }

  // ------------------------------------------------------------------ the checker

  function Join(a: Outcome, b: Outcome): Outcome {
    if a.Crash? || b.Crash? then Crash else Errors(a.problems + b.problems)
  }

  function When(failed: bool, p: Problem): Outcome { Errors(if failed then {p} else {}) }

  /** `_schema_errors`: the value shrinks at every step into it, reference chains are followed
      to their end first. */
  function SchemaErrors(v: Value, schema: Schema, path: seq<Step>, defs: Definitions): Outcome
    decreases v, 1, 0
  {
    match Follow(schema, defs, {})
    case Unsupported => Errors({Problem(path, KRef, "")})
    case Broken => Crash
    case Found(node) =>
      var own := Join(When(node.constant.Some? && v != node.constant.value, Problem(path, KConst, "")),
                      When(node.choices.Some? && v !in node.choices.value, Problem(path, KEnum, "")));
      if node.typeName.Some? && !TypeMatches(v, node.typeName.value) then
        Errors({Problem(path, KType, node.typeName.value)})
      else
        match v
        case Str(s) => Join(own, When(|s| < node.minLength, Problem(path, KMinLength, "")))
        case Arr(items) =>
          Join(Join(own, When(|items| < node.minItems, Problem(path, KMinItems, ""))),
               if node.items.Some? then ItemErrors(v, node.items.value, path, defs, 0) else Errors({}))
        case Obj(fields) => Join(own, ObjectErrors(v, node, path, defs))
        case _ => own
  }

  /** The items from `k` on. */
  function ItemErrors(v: Value, schema: Schema, path: seq<Step>, defs: Definitions, k: nat): Outcome
    requires v.Arr? && k <= |v.items|
    decreases v, 0, |v.items| - k
  {
    if k == |v.items| then Errors({})
    else Join(SchemaErrors(v.items[k], schema, path + [Index(k)], defs), ItemErrors(v, schema, path, defs, k + 1))
  }

  /** `_object_schema_errors`. */
  function ObjectErrors(v: Value, node: Schema, path: seq<Step>, defs: Definitions): Outcome
    requires v.Obj? && node.Node?
    decreases v, 0, |v.fields| + 1
  {
    var missing := set k | k in node.required && k !in v.fields :: Problem(path, KRequired, k);
    var unknown :=
      set k | k in v.fields && node.additional.Closed? && k !in node.properties :: Problem(path, KUnknown, k);
    Join(Errors(missing + unknown), FieldErrors(v, node, path, defs, v.fields.Keys))
  }

  function FieldSchema(node: Schema, k: string): Option<Schema>
    requires node.Node?
  {
    if k in node.properties then Some(node.properties[k])
    else if node.additional.Typed? then Some(node.additional.schema)
    else None
  }

  /** The errors of the given members: each is checked against its property schema, or against
      the schema for additional ones. */
  function FieldErrors(v: Value, node: Schema, path: seq<Step>, defs: Definitions, names: set<string>): Outcome
    requires v.Obj? && node.Node? && names <= v.fields.Keys
    decreases v, 0, |names|
  {
    var checked := map k | k in names && FieldSchema(node, k).Some? ::
      SchemaErrors(v.fields[k], FieldSchema(node, k).value, path + [Key(k)], defs);
    if exists k | k in checked :: checked[k].Crash? then Crash
    else Errors(set k, p | k in checked && p in checked[k].problems :: p)
  }

  // -------------------------------------------------------------- the semantics

  /** What the keywords mean. Each speaks only of the values it applies to, and an instance
      satisfies a reference when it satisfies the schema at the end of the chain. */
  ghost predicate Satisfies(v: Value, schema: Schema, defs: Definitions)
    decreases v
  {
    && Follow(schema, defs, {}).Found?
    && var node := Follow(schema, defs, {}).node;
       && (node.constant.Some? ==> v == node.constant.value)
       && (node.choices.Some? ==> v in node.choices.value)
       && (node.typeName.Some? ==> HasType(v, node.typeName.value))
       && (v.Str? ==> |v.s| >= node.minLength)
       && (v.Arr? ==> |v.items| >= node.minItems)
       && (v.Arr? && node.items.Some? ==>
             forall i | 0 <= i < |v.items| :: Satisfies(v.items[i], node.items.value, defs))
       && (v.Obj? ==> forall k | k in node.required :: k in v.fields)
       && (v.Obj? ==>
             forall k | k in v.fields && k in node.properties :: Satisfies(v.fields[k], node.properties[k], defs))
       && (v.Obj? && node.additional.Closed? ==> forall k | k in v.fields :: k in node.properties)
       && (v.Obj? && node.additional.Typed? ==>
             forall k | k in v.fields && k !in node.properties :: Satisfies(v.fields[k], node.additional.schema, defs))
  }

  /** What the checker asks of the value itself, and of its items or members. */
  lemma ErrorsOwn(v: Value, schema: Schema, path: seq<Step>, defs: Definitions)
    ensures SchemaErrors(v, schema, path, defs) == Errors({}) <==>
            && Follow(schema, defs, {}).Found?
            && var node := Follow(schema, defs, {}).node;
               && (node.constant.Some? ==> v == node.constant.value)
               && (node.choices.Some? ==> v in node.choices.value)
               && (node.typeName.Some? ==> TypeMatches(v, node.typeName.value))
               && (v.Str? ==> |v.s| >= node.minLength)
               && (v.Arr? ==> |v.items| >= node.minItems)
               && (v.Arr? && node.items.Some? ==> ItemErrors(v, node.items.value, path, defs, 0) == Errors({}))
               && (v.Obj? ==> ObjectErrors(v, node, path, defs) == Errors({}))
  {
    hide Follow, ItemErrors, ObjectErrors, TypeMatches;
  }

  /** The checker reports nothing exactly on the values that satisfy the schema. */
  lemma {:induction false} NoErrorsIffSatisfied(v: Value, schema: Schema, path: seq<Step>, defs: Definitions)
    ensures SchemaErrors(v, schema, path, defs) == Errors({}) <==> Satisfies(v, schema, defs)
    decreases v, 1, 0
  {
    hide TypeMatches, HasType, Follow, ItemErrors, ObjectErrors, FieldErrors, SchemaErrors;
    ErrorsOwn(v, schema, path, defs);
    var target := Follow(schema, defs, {});
    if target.Found? {
      var node := target.node;
      if node.typeName.Some? { TypeMatchesIff(v, node.typeName.value); }
      if v.Arr? && node.items.Some? { ItemsIff(v, node.items.value, path, defs, 0); }
      if v.Obj? { FieldsIff(v, node, path, defs); ObjectIff(v, node, path, defs); }
    }
  }

  lemma {:induction false} ItemsIff(v: Value, schema: Schema, path: seq<Step>, defs: Definitions, k: nat)
    requires v.Arr? && k <= |v.items|
    ensures ItemErrors(v, schema, path, defs, k) == Errors({}) <==>
            forall i | k <= i < |v.items| :: Satisfies(v.items[i], schema, defs)
    decreases v, 0, |v.items| - k
  {
    if k < |v.items| {
      NoErrorsIffSatisfied(v.items[k], schema, path + [Index(k)], defs);
      ItemsIff(v, schema, path, defs, k + 1);
    }
  }

  lemma {:induction false} FieldsIff(v: Value, node: Schema, path: seq<Step>, defs: Definitions)
    requires v.Obj? && node.Node?
    ensures FieldErrors(v, node, path, defs, v.fields.Keys) == Errors({}) <==>
            forall k | k in v.fields && FieldSchema(node, k).Some? ::
              Satisfies(v.fields[k], FieldSchema(node, k).value, defs)
    decreases v, 0, 0
  {
    forall k | k in v.fields && FieldSchema(node, k).Some?
      ensures SchemaErrors(v.fields[k], FieldSchema(node, k).value, path + [Key(k)], defs) == Errors({})
              <==> Satisfies(v.fields[k], FieldSchema(node, k).value, defs)
    {
      NoErrorsIffSatisfied(v.fields[k], FieldSchema(node, k).value, path + [Key(k)], defs);
    }
    var checked := map k | k in v.fields.Keys && FieldSchema(node, k).Some? ::
      SchemaErrors(v.fields[k], FieldSchema(node, k).value, path + [Key(k)], defs);
    if FieldErrors(v, node, path, defs, v.fields.Keys) == Errors({}) {
      forall k | k in checked ensures checked[k] == Errors({}) {
        assert !checked[k].Crash?;
        assert forall p | p in checked[k].problems :: p in FieldErrors(v, node, path, defs, v.fields.Keys).problems;
      }
      forall k | k in v.fields && FieldSchema(node, k).Some?
        ensures Satisfies(v.fields[k], FieldSchema(node, k).value, defs)
      {
        assert k in checked && checked[k] == Errors({});
      }
    }
  }

  lemma ObjectIff(v: Value, node: Schema, path: seq<Step>, defs: Definitions)
    requires v.Obj? && node.Node?
    ensures ObjectErrors(v, node, path, defs) == Errors({}) <==>
            && (forall k | k in node.required :: k in v.fields)
            && (node.additional.Closed? ==> forall k | k in v.fields :: k in node.properties)
            && FieldErrors(v, node, path, defs, v.fields.Keys) == Errors({})
  {
    var missing := set k | k in node.required && k !in v.fields :: Problem(path, KRequired, k);
    var unknown :=
      set k | k in v.fields && node.additional.Closed? && k !in node.properties :: Problem(path, KUnknown, k);
    assert forall k | k in node.required && k !in v.fields :: Problem(path, KRequired, k) in missing;
    assert forall k | k in v.fields && node.additional.Closed? && k !in node.properties ::
             Problem(path, KUnknown, k) in unknown;
  }

  /** A reference that does not start with "#/" is reported, whatever the value; one to a missing
      target raises. */
  lemma ReferencesAreLocal(v: Value, reference: string, path: seq<Step>, defs: Definitions)
    ensures !("#/" <= reference) ==>
              SchemaErrors(v, Ref(reference), path, defs) == Errors({Problem(path, KRef, "")})
    ensures "#/" <= reference && reference !in defs ==> SchemaErrors(v, Ref(reference), path, defs) == Crash
  {
    assert IsLocal(reference) <==> "#/" <= reference by {
      if |reference| >= 2 { assert reference[..2] == [reference[0], reference[1]]; }
    }
  }

  // ------------------------------------------------------------------ no crashes

  /** Every reference in the schema, at any depth, leads to a schema node or is reported as unsupported. */
  predicate RefsSound(schema: Schema, defs: Definitions)
    decreases schema
  {
    match schema
    case Ref(_) => !Follow(schema, defs, {}).Broken?
    case Node(_, _, _, _, _, items, _, properties, additional) =>
      && (items.Some? ==> RefsSound(items.value, defs))
      && (forall k | k in properties :: RefsSound(properties[k], defs))
      && (additional.Typed? ==> RefsSound(additional.schema, defs))
  }

  predicate AllSound(defs: Definitions) { forall p | p in defs :: RefsSound(defs[p], defs) }

  lemma {:induction false} FollowSound(schema: Schema, defs: Definitions, seen: set<string>)
    requires AllSound(defs) && RefsSound(schema, defs)
    ensures var t := Follow(schema, defs, seen); t.Found? ==> RefsSound(t.node, defs)
    decreases defs.Keys - seen
  {
    if schema.Ref? && IsLocal(schema.reference) && schema.reference in defs && schema.reference !in seen {
      FollowSound(defs[schema.reference], defs, seen + {schema.reference});
    }
  }

  /** With sound references the checker always returns a list of problems. */
  lemma {:induction false} SoundRefsNeverCrash(v: Value, schema: Schema, path: seq<Step>, defs: Definitions)
    requires AllSound(defs) && RefsSound(schema, defs)
    ensures SchemaErrors(v, schema, path, defs).Errors?
    decreases v, 1, 0
  {
    FollowSound(schema, defs, {});
    var target := Follow(schema, defs, {});
    if target.Found? {
      var node := target.node;
      if v.Arr? && node.items.Some? { ItemsNeverCrash(v, node.items.value, path, defs, 0); }
      if v.Obj? { FieldsNeverCrash(v, node, path, defs); }
    }
  }

  lemma {:induction false} FieldsNeverCrash(v: Value, node: Schema, path: seq<Step>, defs: Definitions)
    requires v.Obj? && node.Node? && AllSound(defs) && RefsSound(node, defs)
    ensures ObjectErrors(v, node, path, defs).Errors?
    decreases v, 0, 0
  {
    hide SchemaErrors, Follow;
    forall k | k in v.fields && FieldSchema(node, k).Some?
      ensures SchemaErrors(v.fields[k], FieldSchema(node, k).value, path + [Key(k)], defs).Errors?
    {
      SoundRefsNeverCrash(v.fields[k], FieldSchema(node, k).value, path + [Key(k)], defs);
    }
    assert FieldErrors(v, node, path, defs, v.fields.Keys).Errors?;
  }

  lemma {:induction false} ItemsNeverCrash(v: Value, schema: Schema, path: seq<Step>, defs: Definitions, k: nat)
    requires v.Arr? && k <= |v.items| && AllSound(defs) && RefsSound(schema, defs)
    ensures ItemErrors(v, schema, path, defs, k).Errors?
    decreases v, 0, |v.items| - k
  {
    if k < |v.items| {
      SoundRefsNeverCrash(v.items[k], schema, path + [Index(k)], defs);
      ItemsNeverCrash(v, schema, path, defs, k + 1);
    }
  }
}
