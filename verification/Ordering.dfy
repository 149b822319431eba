/** Sorting of strings, of lists of strings and of records by a key, as the
    release scripts use it: `sorted` on a list is stable insertion into order,
    `sorted` on a set lists each element once. */
module Ordering {

  predicate TotalAt<T>(le: (T, T) -> bool, x: T, y: T) { le(x, y) || le(y, x) }

  predicate TransitiveAt<T>(le: (T, T) -> bool, x: T, y: T, z: T) { le(x, y) && le(y, z) ==> le(x, z) }

  predicate AntisymmetricAt<T(==)>(le: (T, T) -> bool, x: T, y: T) { le(x, y) && le(y, x) ==> x == y }

  /** Comparing by a sort key: two different records may tie. */
  ghost predicate TotalPreorder<T(!new)>(le: (T, T) -> bool) {
    && (forall x, y {:trigger TotalAt(le, x, y)} :: TotalAt(le, x, y))
    && (forall x, y, z {:trigger TransitiveAt(le, x, y, z)} :: TransitiveAt(le, x, y, z))
  }

  ghost predicate TotalOrder<T(!new)>(le: (T, T) -> bool) {
    && TotalPreorder(le)
    && (forall x, y {:trigger AntisymmetricAt(le, x, y)} :: AntisymmetricAt(le, x, y))
  }

  ghost predicate Sorted<T>(le: (T, T) -> bool, s: seq<T>) {
    forall i, j | 0 <= i < j < |s| :: le(s[i], s[j])
  }

  ghost predicate Distinct<T>(s: seq<T>) {
    forall i, j | 0 <= i < j < |s| :: s[i] != s[j]
  }

  ghost predicate StrictlySorted<T>(le: (T, T) -> bool, s: seq<T>) {
    Sorted(le, s) && Distinct(s)
  }

  function Elements<T>(s: seq<T>): set<T> {
    set x | x in s
  }

  // ---------------------------------------------------------------- sorted(list)

  function Insert<T(!new)>(le: (T, T) -> bool, x: T, s: seq<T>): (r: seq<T>)
    requires TotalPreorder(le) && Sorted(le, s)
    ensures Sorted(le, r) && multiset(r) == multiset{x} + multiset(s)
  {
    if s == [] then [x]
    else if le(x, s[0]) then
      assert forall y | y in s :: le(x, y) by {
        forall y | y in s ensures le(x, y) {
          if y != s[0] { assert TransitiveAt(le, x, s[0], y); }
        }
      }
      [x] + s
    else
      var rest := Insert(le, x, s[1..]);
      assert s == [s[0]] + s[1..];
      assert forall y | y in rest :: le(s[0], y) by {
        assert TotalAt(le, x, s[0]);
        forall y | y in rest ensures le(s[0], y) {
          assert y in multiset(rest);
        }
      }
      [s[0]] + rest
  }

  /** Python's `sorted` on a list. */
  function Sort<T(!new)>(le: (T, T) -> bool, s: seq<T>): (r: seq<T>)
    requires TotalPreorder(le)
    ensures Sorted(le, r) && multiset(r) == multiset(s)
  {
    if s == [] then []
    else
      assert s == [s[0]] + s[1..];
      Insert(le, s[0], Sort(le, s[1..]))
  }

  lemma SameMultisetSameElements<T>(a: seq<T>, b: seq<T>)
    requires multiset(a) == multiset(b)
    ensures Elements(a) == Elements(b) && |a| == |b|
  {
    assert forall x | x in a :: x in multiset(a);
    assert forall x | x in b :: x in multiset(b);
    assert |a| == |multiset(a)| && |b| == |multiset(b)|;
  }

  lemma {:induction false} DistinctFromMultiset<T>(s: seq<T>)
    ensures Distinct(s) <==> forall x :: multiset(s)[x] <= 1
  {
    if s != [] {
      assert s == [s[0]] + s[1..];
      DistinctFromMultiset(s[1..]);
      if Distinct(s) {
        assert s[0] !in s[1..];
        assert Distinct(s[1..]);
      } else if s[0] in s[1..] {
        assert multiset(s[1..])[s[0]] >= 1;
        assert multiset(s)[s[0]] >= 2;
      } else {
        assert !Distinct(s[1..]);
        var x :| multiset(s[1..])[x] > 1;
        assert multiset(s)[x] > 1;
      }
    }
  }

  /** As many elements as entries means that none is repeated. */
  lemma {:induction false} CountDistinct<T>(s: seq<T>)
    ensures |Elements(s)| <= |s| && (|Elements(s)| == |s| <==> Distinct(s))
  {
    if s != [] {
      var front, last := s[..|s| - 1], s[|s| - 1];
      CountDistinct(front);
      assert s == front + [last] && Elements(s) == Elements(front) + {last};
      assert Distinct(s) <==> Distinct(front) && last !in front;
    }
  }

  lemma SortKeepsDistinct<T(!new)>(le: (T, T) -> bool, s: seq<T>)
    requires TotalPreorder(le)
    ensures Distinct(Sort(le, s)) <==> Distinct(s)
    ensures Elements(Sort(le, s)) == Elements(s)
  {
    DistinctFromMultiset(s);
    DistinctFromMultiset(Sort(le, s));
    SameMultisetSameElements(s, Sort(le, s));
  }

  // ----------------------------------------------------------------- sorted(set)

  lemma {:induction false} LeastExists<T(!new)>(le: (T, T) -> bool, s: set<T>)
    requires TotalPreorder(le) && s != {}
    ensures exists x :: x in s && forall y | y in s :: le(x, y)
  {
    var a :| a in s;
    assert TotalAt(le, a, a);
    if s != {a} {
      var rest := s - {a};
      LeastExists(le, rest);
      var b :| b in rest && forall y | y in rest :: le(b, y);
      assert TotalAt(le, a, b);
      var least := if le(a, b) then a else b;
      forall y | y in s ensures le(least, y) {
        if y != a { assert le(b, y) && TransitiveAt(le, a, b, y); }
      }
    }
  }

  /** Python's `sorted` on a set. */
  function SortedSet<T(!new)>(le: (T, T) -> bool, s: set<T>): (r: seq<T>)
    requires TotalOrder(le)
    ensures StrictlySorted(le, r) && Elements(r) == s && |r| == |s|
  {
    if s == {} then []
    else
      LeastExists(le, s);
      assert forall x, y | x in s && y in s && le(x, y) && le(y, x) :: x == y by {
        forall x, y | x in s && y in s && le(x, y) && le(y, x) ensures x == y { assert AntisymmetricAt(le, x, y); }
      }
      var x :| x in s && forall y | y in s :: le(x, y);
      var rest := SortedSet(le, s - {x});
      assert forall y :: y in rest <==> y in Elements(rest);
      [x] + rest
  }

  /** A strictly sorted list is determined by what it contains. */
  lemma {:induction false} SortedListUnique<T(!new)>(le: (T, T) -> bool, a: seq<T>, b: seq<T>)
    requires TotalOrder(le) && StrictlySorted(le, a) && StrictlySorted(le, b)
    requires Elements(a) == Elements(b)
    ensures a == b
  {
    assert forall y :: (y in a <==> y in Elements(a)) && (y in b <==> y in Elements(b));
    assert (a != [] ==> a[0] in b) && (b != [] ==> b[0] in a);
    if a != [] {
      assert a[0] in b && b[0] in a;
      assert TotalAt(le, a[0], a[0]) && TotalAt(le, b[0], b[0]) && AntisymmetricAt(le, a[0], b[0]);
      assert Elements(a[1..]) == Elements(a) - {a[0]};
      assert Elements(b[1..]) == Elements(b) - {b[0]};
      SortedListUnique(le, a[1..], b[1..]);
      assert a == [a[0]] + a[1..] && b == [b[0]] + b[1..];
    }
  }

  // ----------------------------------------------------------- the orders in use

  predicate LexLe<T(==)>(le: (T, T) -> bool, a: seq<T>, b: seq<T>) {
    if a == [] then true
    else if b == [] then false
    else if a[0] == b[0] then LexLe(le, a[1..], b[1..])
    else le(a[0], b[0])
  }

  lemma {:induction false} LexTotal<T(!new)>(le: (T, T) -> bool, a: seq<T>, b: seq<T>)
    requires TotalOrder(le)
    ensures LexLe(le, a, b) || LexLe(le, b, a)
    ensures LexLe(le, a, b) && LexLe(le, b, a) ==> a == b
  {
    if a != [] && b != [] {
      assert TotalAt(le, a[0], b[0]) && AntisymmetricAt(le, a[0], b[0]);
      if a[0] == b[0] {
        LexTotal(le, a[1..], b[1..]);
        assert a == [a[0]] + a[1..] && b == [b[0]] + b[1..];
      }
    }
  }

  lemma {:induction false} LexTransitive<T(!new)>(le: (T, T) -> bool, a: seq<T>, b: seq<T>, c: seq<T>)
    requires TotalOrder(le) && LexLe(le, a, b) && LexLe(le, b, c)
    ensures LexLe(le, a, c)
  {
    if a != [] {
      assert TransitiveAt(le, a[0], b[0], c[0]);
      assert AntisymmetricAt(le, a[0], b[0]);
      if a[0] == b[0] == c[0] {
        LexTransitive(le, a[1..], b[1..], c[1..]);
      }
    }
  }

  predicate CharLe(a: char, b: char) { a <= b }

  /** Python compares strings by code point. */
  predicate StringLe(a: string, b: string) { LexLe(CharLe, a, b) }

  /** Python compares lists element by element. */
  predicate NamesLe(a: seq<string>, b: seq<string>) { LexLe(StringLe, a, b) }

  lemma StringOrder()
    ensures TotalOrder(StringLe)
  {
    assert TotalOrder(CharLe);
    forall a, b ensures TotalAt(StringLe, a, b) && AntisymmetricAt(StringLe, a, b) {
      LexTotal(CharLe, a, b);
    }
    forall a, b, c ensures TransitiveAt(StringLe, a, b, c) {
      if StringLe(a, b) && StringLe(b, c) { LexTransitive(CharLe, a, b, c); }
    }
  }

  lemma NamesOrder()
    ensures TotalOrder(NamesLe)
  {
    StringOrder();
    forall a, b ensures TotalAt(NamesLe, a, b) && AntisymmetricAt(NamesLe, a, b) {
      LexTotal(StringLe, a, b);
    }
    forall a, b, c ensures TransitiveAt(NamesLe, a, b, c) {
      if NamesLe(a, b) && NamesLe(b, c) { LexTransitive(StringLe, a, b, c); }
    }
  }
}
