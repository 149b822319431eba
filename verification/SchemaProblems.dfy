/** What the schema checker reports: exactly the keywords that fail, each at its place in the value. */
module SchemaProblems {
  import opened Options
  import opened Json
  import opened SupportSchema

  predicate TypeFits(v: Value, node: Schema)
    requires node.Node?
  {
    node.typeName.Some? ==> HasType(v, node.typeName.value)
  }

  /** The keyword of `p` fails at `v` itself. A value of the wrong type fails on its type alone. */
  predicate FailsHere(v: Value, node: Schema, p: Problem)
    requires node.Node?
  {
    match p.keyword
    case KType => node.typeName == Some(p.name) && !HasType(v, p.name)
    case KConst => TypeFits(v, node) && p.name == "" && node.constant.Some? && v != node.constant.value
    case KEnum => TypeFits(v, node) && p.name == "" && node.choices.Some? && v !in node.choices.value
    case KMinLength => TypeFits(v, node) && p.name == "" && v.Str? && |v.s| < node.minLength
    case KMinItems => TypeFits(v, node) && p.name == "" && v.Arr? && |v.items| < node.minItems
    case KRequired => TypeFits(v, node) && v.Obj? && p.name in node.required && p.name !in v.fields
    case KUnknown =>
      TypeFits(v, node) && v.Obj? && node.additional.Closed? && p.name in v.fields && p.name !in node.properties
    case KRef => false
  }

  /** The keyword of `p` fails at the place `at` leads to, through values of the right type. */
  ghost predicate Fails(v: Value, schema: Schema, at: seq<Step>, p: Problem, defs: Definitions)
    decreases at
  {
    match Follow(schema, defs, {})
    case Broken => false
    case Unsupported => at == [] && p.keyword == KRef && p.name == ""
    case Found(node) =>
      if at == [] then FailsHere(v, node, p)
      else
        && TypeFits(v, node)
        && match at[0]
           case Index(i) =>
             v.Arr? && i < |v.items| && node.items.Some? && Fails(v.items[i], node.items.value, at[1..], p, defs)
           case Key(k) =>
             && v.Obj? && k in v.fields && FieldSchema(node, k).Some?
             && Fails(v.fields[k], FieldSchema(node, k).value, at[1..], p, defs)
  }

  /** The problem lies at or below `base`, and its keyword fails there. */
  ghost predicate Real(v: Value, schema: Schema, base: seq<Step>, p: Problem, defs: Definitions) {
    base <= p.path && Fails(v, schema, p.path[|base|..], p, defs)
  }

  lemma OneDeeper(base: seq<Step>, step: Step, path: seq<Step>)
    ensures base + [step] <= path <==> base <= path && |path| > |base| && path[|base|] == step
    ensures base <= path && |path| > |base| ==>
              path[|base|..] != [] && path[|base|..][0] == path[|base|]
              && path[|base|..][1..] == path[|base + [step]|..]
    ensures base <= path && |path| == |base| ==> path[|base|..] == [] && path == base
  {
    if base <= path && |path| > |base| && path[|base|] == step {
      assert path[..|base| + 1] == base + [step];
    }
    if base + [step] <= path {
      assert (base + [step])[|base|] == path[|base|];
    }
  }

  /** Every reported problem is real and every real problem is reported, whenever the checker returns. */
  lemma {:induction false} ProblemsAreReal(v: Value, schema: Schema, base: seq<Step>, defs: Definitions, p: Problem)
    requires SchemaErrors(v, schema, base, defs).Errors?
    ensures p in SchemaErrors(v, schema, base, defs).problems <==> Real(v, schema, base, p, defs)
    decreases v, 1, 0
  {
    hide Follow, ItemErrors, ObjectErrors, HasType, TypeMatches, Real, RealItem, RealField, FieldSchema;
    RealIff(v, schema, base, defs, p);
    var target := Follow(schema, defs, {});
    if target.Found? {
      var node := target.node;
      if node.typeName.Some? { TypeMatchesIff(v, node.typeName.value); }
      if TypeFits(v, node) {
        if v.Arr? && node.items.Some? { ItemsReal(v, node.items.value, base, defs, 0, p); }
        if v.Obj? { ObjectReal(v, node, base, defs, p); }
      }
    }
  }

  lemma RealIff(v: Value, schema: Schema, base: seq<Step>, defs: Definitions, p: Problem)
    ensures Real(v, schema, base, p, defs) <==>
            match Follow(schema, defs, {})
            case Broken => false
            case Unsupported => p == Problem(base, KRef, "")
            case Found(node) =>
              || (p.path == base && FailsHere(v, node, p))
              || (TypeFits(v, node) && v.Arr? && node.items.Some? && RealItem(v, node.items.value, base, p, defs, 0))
              || (TypeFits(v, node) && v.Obj? && RealField(v, node, base, p, defs))
  {
    hide Follow, HasType, FieldSchema, FailsHere;
    OneDeeper(base, Index(0), p.path);
    if base <= p.path && |p.path| == |base| { assert p.path[|base|..] == []; }
  }

  ghost predicate RealItem(v: Value, schema: Schema, base: seq<Step>, p: Problem, defs: Definitions, k: nat)
    requires v.Arr?
  {
    && base <= p.path && |p.path| > |base| && p.path[|base|].Index? && k <= p.path[|base|].at < |v.items|
    && Fails(v.items[p.path[|base|].at], schema, p.path[|base|..][1..], p, defs)
  }

  lemma {:induction false} ItemsReal(v: Value, schema: Schema, base: seq<Step>, defs: Definitions, k: nat, p: Problem)
    requires v.Arr? && k <= |v.items| && ItemErrors(v, schema, base, defs, k).Errors?
    ensures p in ItemErrors(v, schema, base, defs, k).problems <==> RealItem(v, schema, base, p, defs, k)
    decreases v, 0, |v.items| - k
  {
    hide SchemaErrors, Fails;
    if k < |v.items| {
      ProblemsAreReal(v.items[k], schema, base + [Index(k)], defs, p);
      ItemsReal(v, schema, base, defs, k + 1, p);
      OneDeeper(base, Index(k), p.path);
    }
  }

  ghost predicate RealField(v: Value, node: Schema, base: seq<Step>, p: Problem, defs: Definitions)
    requires v.Obj? && node.Node?
  {
    && base <= p.path && |p.path| > |base| && p.path[|base|].Key? && p.path[|base|].name in v.fields
    && FieldSchema(node, p.path[|base|].name).Some?
    && Fails(v.fields[p.path[|base|].name], FieldSchema(node, p.path[|base|].name).value, p.path[|base|..][1..], p,
             defs)
  }

  lemma {:induction false} ObjectReal(v: Value, node: Schema, base: seq<Step>, defs: Definitions, p: Problem)
    requires v.Obj? && node.Node? && ObjectErrors(v, node, base, defs).Errors?
    ensures p in ObjectErrors(v, node, base, defs).problems <==>
            || (p.path == base && p.keyword == KRequired && p.name in node.required && p.name !in v.fields)
            || (&& p.path == base && p.keyword == KUnknown && node.additional.Closed?
                && p.name in v.fields && p.name !in node.properties)
            || RealField(v, node, base, p, defs)
    decreases v, 0, |v.fields| + 1
  {
    hide SchemaErrors, Fails, FieldSchema;
    FieldsReal(v, node, base, defs, p);
    hide FieldErrors, RealField;
    assert p == Problem(p.path, p.keyword, p.name);
  }

  lemma {:induction false} FieldsReal(v: Value, node: Schema, base: seq<Step>, defs: Definitions, p: Problem)
    requires v.Obj? && node.Node? && FieldErrors(v, node, base, defs, v.fields.Keys).Errors?
    ensures p in FieldErrors(v, node, base, defs, v.fields.Keys).problems <==> RealField(v, node, base, p, defs)
    decreases v, 0, |v.fields|
  {
    hide SchemaErrors, Fails, FieldSchema;
    var checked := map k | k in v.fields.Keys && FieldSchema(node, k).Some? ::
      SchemaErrors(v.fields[k], FieldSchema(node, k).value, base + [Key(k)], defs);
    forall k | k in checked
      ensures checked[k].Errors?
      ensures p in checked[k].problems <==>
              base <= p.path && |p.path| > |base| && p.path[|base|] == Key(k)
              && Fails(v.fields[k], FieldSchema(node, k).value, p.path[|base|..][1..], p, defs)
    {
      assert !checked[k].Crash?;
      ProblemsAreReal(v.fields[k], FieldSchema(node, k).value, base + [Key(k)], defs, p);
      OneDeeper(base, Key(k), p.path);
    }
    if p in FieldErrors(v, node, base, defs, v.fields.Keys).problems {
      var k :| k in checked && p in checked[k].problems;
    }
    if RealField(v, node, base, p, defs) {
      assert p.path[|base|].name in checked && p.path[|base|] == Key(p.path[|base|].name);
    }
  }
}
