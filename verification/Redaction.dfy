/** Redacting evidence: what stands under secret-shaped keys is replaced, and nothing else. */
module Redaction {
  import opened Options
  import opened Json

  const REDACTED: Value := Str("[REDACTED]")

  /** `sanitize`. */
  function Sanitize(v: Value, secret: string -> bool): Value
    decreases v
  {
    match v
    case Obj(fields) => Obj(map k | k in fields :: if secret(k) then REDACTED else Sanitize(fields[k], secret))
    case Arr(items) => Arr(seq(|items|, i requires 0 <= i < |items| => Sanitize(items[i], secret)))
    case _ => v
  }

  predicate Blank(v: Value) { v == Null || v == Str("") || v == Arr([]) || v == Obj(map[]) || v == REDACTED }

  /** `_is_sanitized`. */
  predicate IsSanitized(v: Value, secret: string -> bool)
    decreases v
  {
    match v
    case Obj(fields) => forall k | k in fields :: (secret(k) ==> Blank(fields[k])) && IsSanitized(fields[k], secret)
    case Arr(items) => forall i | 0 <= i < |items| :: IsSanitized(items[i], secret)
    case _ => true
  }

  lemma {:induction false} SanitizeEstablishes(v: Value, secret: string -> bool)
    ensures IsSanitized(Sanitize(v, secret), secret)
    decreases v
  {
    match v
    case Obj(fields) =>
      forall k | k in fields ensures IsSanitized(Sanitize(fields[k], secret), secret) {
        SanitizeEstablishes(fields[k], secret);
      }
    case Arr(items) =>
      forall i | 0 <= i < |items| ensures IsSanitized(Sanitize(items[i], secret), secret) {
        SanitizeEstablishes(items[i], secret);
      }
    case _ =>
  }

  lemma {:induction false} SanitizeIdempotent(v: Value, secret: string -> bool)
    ensures Sanitize(Sanitize(v, secret), secret) == Sanitize(v, secret)
    decreases v
  {
    match v
    case Obj(fields) =>
      forall k | k in fields ensures Sanitize(Sanitize(fields[k], secret), secret) == Sanitize(fields[k], secret) {
        SanitizeIdempotent(fields[k], secret);
      }
    case Arr(items) =>
      forall i | 0 <= i < |items| ensures Sanitize(Sanitize(items[i], secret), secret) == Sanitize(items[i], secret) {
        SanitizeIdempotent(items[i], secret);
      }
    case _ =>
  }

  /** The values are the same but for what stands under secret keys. */
  ghost predicate SameInPublic(a: Value, b: Value, secret: string -> bool)
    decreases a
  {
    match a
    case Obj(fields) =>
      && b.Obj? && b.fields.Keys == fields.Keys
      && forall k | k in fields && !secret(k) :: SameInPublic(fields[k], b.fields[k], secret)
    case Arr(items) =>
      b.Arr? && |b.items| == |items| && forall i | 0 <= i < |items| :: SameInPublic(items[i], b.items[i], secret)
    case _ => a == b
  }

  /** Redaction hides what is under secret keys and nothing else: two values are redacted to the
      same value exactly when they are the same in public. */
  lemma {:induction false} RedactionHidesExactlySecrets(a: Value, b: Value, secret: string -> bool)
    ensures Sanitize(a, secret) == Sanitize(b, secret) <==> SameInPublic(a, b, secret)
    decreases a
  {
    match a
    case Obj(fields) =>
      if b.Obj? && b.fields.Keys == fields.Keys {
        forall k | k in fields
          ensures Sanitize(fields[k], secret) == Sanitize(b.fields[k], secret) <==>
                  SameInPublic(fields[k], b.fields[k], secret)
        {
          RedactionHidesExactlySecrets(fields[k], b.fields[k], secret);
        }
        ObjectsAgree(fields, b.fields, secret);
      } else if b.Obj? {
        assert Sanitize(a, secret).fields.Keys == fields.Keys && Sanitize(b, secret).fields.Keys == b.fields.Keys;
      }
    case Arr(items) =>
      if b.Arr? && |b.items| == |items| {
        forall i | 0 <= i < |items|
          ensures Sanitize(items[i], secret) == Sanitize(b.items[i], secret) <==>
                  SameInPublic(items[i], b.items[i], secret)
        {
          RedactionHidesExactlySecrets(items[i], b.items[i], secret);
        }
        ItemsAgree(items, b.items, secret);
      } else if b.Arr? {
        assert |Sanitize(a, secret).items| == |items| && |Sanitize(b, secret).items| == |b.items|;
      }
    case _ =>
  }

  lemma ObjectsAgree(a: map<string, Value>, b: map<string, Value>, secret: string -> bool)
    requires a.Keys == b.Keys
    ensures Sanitize(Obj(a), secret) == Sanitize(Obj(b), secret) <==>
            forall k | k in a && !secret(k) :: Sanitize(a[k], secret) == Sanitize(b[k], secret)
  {
    var x, y := Sanitize(Obj(a), secret).fields, Sanitize(Obj(b), secret).fields;
    assert x.Keys == a.Keys && y.Keys == b.Keys;
    assert forall k | k in a && !secret(k) :: x[k] == Sanitize(a[k], secret) && y[k] == Sanitize(b[k], secret);
    if forall k | k in a && !secret(k) :: Sanitize(a[k], secret) == Sanitize(b[k], secret) {
      assert forall k | k in a :: x[k] == y[k];
      assert x == y;
    }
  }

  lemma ItemsAgree(a: seq<Value>, b: seq<Value>, secret: string -> bool)
    requires |a| == |b|
    ensures Sanitize(Arr(a), secret) == Sanitize(Arr(b), secret) <==>
            forall i | 0 <= i < |a| :: Sanitize(a[i], secret) == Sanitize(b[i], secret)
  {
    var x, y := Sanitize(Arr(a), secret).items, Sanitize(Arr(b), secret).items;
    assert |x| == |y| == |a|;
    assert forall i | 0 <= i < |a| :: x[i] == Sanitize(a[i], secret) && y[i] == Sanitize(b[i], secret);
    if forall i | 0 <= i < |a| :: Sanitize(a[i], secret) == Sanitize(b[i], secret) { assert x == y; }
  }

  // ------------------------------------------------------- the same, place by place

  /** One step into a value: a member of an object or an item of an array. */
  datatype Step = Member(key: string) | Item(index: nat)

  /** What the path leads to, if anything. */
  function Follow(v: Value, path: seq<Step>): Option<Value>
    decreases path
  {
    if path == [] then Some(v)
    else
      match path[0]
      case Member(key) => if v.Obj? && key in v.fields then Follow(v.fields[key], path[1..]) else None
      case Item(index) => if v.Arr? && index < |v.items| then Follow(v.items[index], path[1..]) else None
  }

  /** The path ends under a secret key, at something else than null, an empty string, array or
      object, or the redaction mark. */
  predicate Exposes(v: Value, path: seq<Step>, secret: string -> bool) {
    && path != [] && path[|path| - 1].Member? && secret(path[|path| - 1].key)
    && Follow(v, path).Some?
    && Follow(v, path).value !in [Null, Str(""), Arr([]), Obj(map[]), Str("[REDACTED]")]
  }

  lemma {:induction false} NothingExposed(v: Value, path: seq<Step>, secret: string -> bool)
    requires IsSanitized(v, secret)
    ensures !Exposes(v, path, secret)
    decreases path
  {
    if path != [] && Follow(v, path).Some? {
      var inner := match path[0] case Member(key) => v.fields[key] case Item(index) => v.items[index];
      if |path| > 1 {
        NothingExposed(inner, path[1..], secret);
      }
    }
  }

  lemma {:induction false} ExposingPath(v: Value, secret: string -> bool) returns (path: seq<Step>)
    requires !IsSanitized(v, secret)
    ensures Exposes(v, path, secret)
    decreases v
  {
    match v
    case Obj(fields) =>
      var k :| k in fields && !((secret(k) ==> Blank(fields[k])) && IsSanitized(fields[k], secret));
      if secret(k) && !Blank(fields[k]) {
        path := [Member(k)];
        assert path[1..] == [];
      } else {
        var rest := ExposingPath(fields[k], secret);
        path := [Member(k)] + rest;
        assert path[1..] == rest;
      }
    case Arr(items) =>
      var i :| 0 <= i < |items| && !IsSanitized(items[i], secret);
      var rest := ExposingPath(items[i], secret);
      path := [Item(i)] + rest;
      assert path[1..] == rest;
    case _ =>
  }

  /** The redaction check refuses exactly the values that expose something. */
  lemma SanitizedIffNothingExposed(v: Value, secret: string -> bool)
    ensures IsSanitized(v, secret) <==> forall path :: !Exposes(v, path, secret)
  {
    hide IsSanitized, Exposes;
    if IsSanitized(v, secret) {
      forall path ensures !Exposes(v, path, secret) { NothingExposed(v, path, secret); }
    } else {
      var path := ExposingPath(v, secret);
    }
  }

  predicate PassesSecret(path: seq<Step>, secret: string -> bool) {
    exists step | step in path :: step.Member? && secret(step.key)
  }

  /** Redaction puts the mark under every secret key and leaves every other place as it is. */
  lemma {:induction false} RedactedAt(v: Value, path: seq<Step>, secret: string -> bool)
    ensures !PassesSecret(path, secret) ==>
              && (Follow(Sanitize(v, secret), path).Some? <==> Follow(v, path).Some?)
              && (Follow(v, path).Some? ==>
                    Follow(Sanitize(v, secret), path).value == Sanitize(Follow(v, path).value, secret))
    ensures path != [] && !PassesSecret(path[..|path| - 1], secret) && path[|path| - 1].Member?
            && secret(path[|path| - 1].key) && Follow(v, path).Some? ==>
              Follow(Sanitize(v, secret), path) == Some(Str("[REDACTED]"))
    decreases path
  {
    hide PassesSecret;
    if path != [] {
      var rest := path[1..];
      PassesFirst(path, secret);
      if |path| == 1 {
        assert rest == [] && path[..0] == [];
      } else {
        PassesFirst(path[..|path| - 1], secret);
        assert path[..|path| - 1][1..] == rest[..|rest| - 1];
        assert rest[|rest| - 1] == path[|path| - 1];
      }
      match path[0]
      case Member(key) => if v.Obj? && key in v.fields { RedactedAt(v.fields[key], rest, secret); }
      case Item(index) => if v.Arr? && index < |v.items| { RedactedAt(v.items[index], rest, secret); }
    }
  }

  lemma PassesFirst(path: seq<Step>, secret: string -> bool)
    requires path != []
    ensures PassesSecret(path, secret) <==>
            (path[0].Member? && secret(path[0].key)) || PassesSecret(path[1..], secret)
  {
    assert path == [path[0]] + path[1..];
  }
}
