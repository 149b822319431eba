/** A text form of JSON values from which the value can be read back: what canonical JSON text
    is relied on for, shown to exist. */
module JsonText {
  import opened Json
  import opened Ordering

  function Unary(n: nat): string { if n == 0 then "0" else "1" + Unary(n - 1) }

  function StringText(s: string): string { Unary(|s|) + s }

  function Size(n: int): nat { if n < 0 then -n else n }

  function IntText(n: int): string { [if n < 0 then '-' else '+'] + Unary(Size(n)) }

  function Keys(fields: map<string, Value>): (keys: seq<string>)
    ensures Elements(keys) == fields.Keys && forall k | k in keys :: k in fields
  {
    StringOrder();
    var keys := SortedSet(StringLe, fields.Keys);
    assert forall k | k in keys :: k in Elements(keys);
    keys
  }

  /** Every form starts with its own letter and says how long it is. */
  function Text(v: Value): string
    decreases v, 1, 0
  {
    match v
    case Null => "n"
    case Bool(b) => if b then "t" else "f"
    case Int(n) => "i" + IntText(n)
    case Float(m, e) => "x" + (IntText(m) + IntText(e))
    case Str(s) => "s" + StringText(s)
    case Arr(items) => "a" + (Unary(|items|) + ItemsText(v, 0))
    case Obj(fields) => "o" + (Unary(|Keys(fields)|) + FieldsText(v, Keys(fields), 0))
  }

  function ItemsText(v: Value, k: nat): string
    requires v.Arr? && k <= |v.items|
    decreases v, 0, |v.items| - k
  {
    if k == |v.items| then "" else Text(v.items[k]) + ItemsText(v, k + 1)
  }

  function FieldsText(v: Value, keys: seq<string>, k: nat): string
    requires v.Obj? && k <= |keys| && forall key | key in keys :: key in v.fields
    decreases v, 0, |keys| - k
  {
    if k == |keys| then "" else StringText(keys[k]) + (Text(v.fields[keys[k]]) + FieldsText(v, keys, k + 1))
  }

  lemma Regroup(a: string, b: string, c: string)
    ensures (a + b) + c == a + (b + c)
  {
  }

  lemma {:induction false} UnaryRead(m: nat, n: nat, x: string, y: string)
    requires Unary(m) + x == Unary(n) + y
    ensures m == n && x == y
  {
    var s, t := Unary(m) + x, Unary(n) + y;
    if m == 0 || n == 0 {
      assert s[0] == Unary(m)[0] && t[0] == Unary(n)[0];
      assert s[1..] == x || m > 0;
      assert t[1..] == y || n > 0;
    } else {
      assert s[1..] == Unary(m - 1) + x && t[1..] == Unary(n - 1) + y;
      UnaryRead(m - 1, n - 1, x, y);
    }
  }

  lemma StringRead(a: string, b: string, x: string, y: string)
    requires StringText(a) + x == StringText(b) + y
    ensures a == b && x == y
  {
    Regroup(Unary(|a|), a, x);
    Regroup(Unary(|b|), b, y);
    UnaryRead(|a|, |b|, a + x, b + y);
    assert (a + x)[..|a|] == a && (b + y)[..|a|] == b;
    assert (a + x)[|a|..] == x && (b + y)[|a|..] == y;
  }

  lemma IntRead(m: int, n: int, x: string, y: string)
    requires IntText(m) + x == IntText(n) + y
    ensures m == n && x == y
  {
    hide Unary;
    var s := IntText(m) + x;
    assert s[0] == IntText(m)[0] && s[0] == IntText(n)[0];
    assert s[1..] == Unary(Size(m)) + x && s[1..] == Unary(Size(n)) + y;
    UnaryRead(Size(m), Size(n), x, y);
  }

  /** What follows the letter of a form. */
  function Body(v: Value): string {
    match v
    case Null => ""
    case Bool(_) => ""
    case Int(n) => IntText(n)
    case Float(m, e) => IntText(m) + IntText(e)
    case Str(s) => StringText(s)
    case Arr(items) => Unary(|items|) + ItemsText(v, 0)
    case Obj(fields) => Unary(|Keys(fields)|) + FieldsText(v, Keys(fields), 0)
  }

  function Letter(v: Value): char {
    match v
    case Null => 'n'
    case Bool(b) => if b then 't' else 'f'
    case Int(_) => 'i'
    case Float(_, _) => 'x'
    case Str(_) => 's'
    case Arr(_) => 'a'
    case Obj(_) => 'o'
  }

  lemma TextParts(v: Value)
    ensures Text(v) == [Letter(v)] + Body(v)
  {
  }

  /** No text is the start of another, so a value can be told from the text it begins. */
  lemma {:induction false} TextRead(a: Value, b: Value, x: string, y: string)
    requires Text(a) + x == Text(b) + y
    ensures a == b && x == y
    decreases a, 1, 0
  {
    hide Text, ItemsText, FieldsText, IntText, StringText, Keys, Unary;
    TextParts(a);
    TextParts(b);
    var s := Text(a) + x;
    assert s[0] == Letter(a) && s[0] == Letter(b);
    assert s[1..] == Body(a) + x && s[1..] == Body(b) + y;
    match a
    case Null =>
    case Bool(_) =>
    case Int(n) => IntRead(n, b.n, x, y);
    case Float(m, e) =>
      Regroup(IntText(m), IntText(e), x);
      Regroup(IntText(b.mantissa), IntText(b.exponent), y);
      IntRead(m, b.mantissa, IntText(e) + x, IntText(b.exponent) + y);
      IntRead(e, b.exponent, x, y);
    case Str(s') => StringRead(s', b.s, x, y);
    case Arr(items) =>
      Regroup(Unary(|items|), ItemsText(a, 0), x);
      Regroup(Unary(|b.items|), ItemsText(b, 0), y);
      UnaryRead(|items|, |b.items|, ItemsText(a, 0) + x, ItemsText(b, 0) + y);
      ItemsRead(a, b, 0, x, y);
      assert items == b.items;
    case Obj(fields) =>
      var ka, kb := Keys(fields), Keys(b.fields);
      Regroup(Unary(|ka|), FieldsText(a, ka, 0), x);
      Regroup(Unary(|kb|), FieldsText(b, kb, 0), y);
      UnaryRead(|ka|, |kb|, FieldsText(a, ka, 0) + x, FieldsText(b, kb, 0) + y);
      FieldsRead(a, ka, b, kb, 0, x, y);
      SameFields(fields, b.fields);
  }

  lemma {:induction false} ItemsRead(a: Value, b: Value, k: nat, x: string, y: string)
    requires a.Arr? && b.Arr? && |a.items| == |b.items| && k <= |a.items|
    requires ItemsText(a, k) + x == ItemsText(b, k) + y
    ensures x == y && forall i | k <= i < |a.items| :: a.items[i] == b.items[i]
    decreases a, 0, |a.items| - k
  {
    hide Text;
    if k == |a.items| {
      assert "" + x == x && "" + y == y;
    } else {
      Regroup(Text(a.items[k]), ItemsText(a, k + 1), x);
      Regroup(Text(b.items[k]), ItemsText(b, k + 1), y);
      TextRead(a.items[k], b.items[k], ItemsText(a, k + 1) + x, ItemsText(b, k + 1) + y);
      ItemsRead(a, b, k + 1, x, y);
    }
  }

  lemma {:induction false} FieldsRead(a: Value, ka: seq<string>, b: Value, kb: seq<string>, k: nat, x: string,
                                      y: string)
    requires a.Obj? && b.Obj? && |ka| == |kb| && k <= |ka|
    requires (forall key | key in ka :: key in a.fields) && (forall key | key in kb :: key in b.fields)
    requires FieldsText(a, ka, k) + x == FieldsText(b, kb, k) + y
    ensures x == y && forall i | k <= i < |ka| :: ka[i] == kb[i] && a.fields[ka[i]] == b.fields[kb[i]]
    decreases a, 0, |ka| - k
  {
    hide Text, StringText;
    if k == |ka| {
      assert "" + x == x && "" + y == y;
    } else {
      var va, vb := a.fields[ka[k]], b.fields[kb[k]];
      var ra, rb := FieldsText(a, ka, k + 1), FieldsText(b, kb, k + 1);
      Regroup(StringText(ka[k]), Text(va) + ra, x);
      Regroup(StringText(kb[k]), Text(vb) + rb, y);
      StringRead(ka[k], kb[k], (Text(va) + ra) + x, (Text(vb) + rb) + y);
      Regroup(Text(va), ra, x);
      Regroup(Text(vb), rb, y);
      TextRead(va, vb, ra + x, rb + y);
      FieldsRead(a, ka, b, kb, k + 1, x, y);
    }
  }

  lemma SameFields(a: map<string, Value>, b: map<string, Value>)
    requires |Keys(a)| == |Keys(b)|
    requires forall i | 0 <= i < |Keys(a)| :: Keys(a)[i] == Keys(b)[i] && a[Keys(a)[i]] == b[Keys(b)[i]]
    ensures a == b
  {
    hide Keys;
    var ka := Keys(a);
    assert ka == Keys(b);
    forall k | k in a ensures a[k] == b[k] {
      assert k in Elements(ka);
      var i :| 0 <= i < |ka| && ka[i] == k;
    }
  }

  /** The value a text stands for. */
  ghost function Parsed(s: string): Value {
    if exists v :: Text(v) == s then var v :| Text(v) == s; v else Null
  }

  /** Reading a value's text gives the value. */
  lemma ParsedText(v: Value)
    ensures Parsed(Text(v)) == v
  {
    hide Text;
    var w := Parsed(Text(v));
    assert Text(w) == Text(v);
    TextRead(w, v, "", "");
  }
}
