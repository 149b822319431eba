/** The 1.0.0 threshold of the support boundary against the full PEP 440 ordering
    (section "Summary of permitted suffixes and relative ordering"). */
module Pep440 {
  import opened Options

  datatype PreKind = Alpha | Beta | Candidate

  datatype Pre = Pre(kind: PreKind, number: nat)

  datatype Segment = Text(text: string) | Number(number: nat)

  /** A parsed version; the release has at least one component. */
  datatype Version = Version(epoch: nat, release: seq<nat>, pre: Option<Pre>, post: Option<nat>, dev: Option<nat>,
                             local: Option<seq<Segment>>)

  // ---------------------------------------------------- the check the script makes

  function Zeros(n: nat): (z: seq<nat>)
    ensures |z| == n && forall i | 0 <= i < n :: z[i] == 0
  {
    seq(n, _ => 0)
  }

  function Pad(release: seq<nat>): seq<nat> {
    release + Zeros(if |release| < 3 then 3 - |release| else 0)
  }

  /** Python compares tuples element by element, a proper prefix being smaller. */
  predicate TupleLess(a: seq<nat>, b: seq<nat>) {
    if b == [] then false
    else if a == [] then true
    else a[0] < b[0] || (a[0] == b[0] && TupleLess(a[1..], b[1..]))
  }

  /** `_version_is_at_least_1_0` on a version that parses. */
  predicate AtLeastOne(v: Version)
    requires v.release != []
  {
    if v.epoch != 0 then true
    else
      var release := Pad(v.release);
      if release[..3] != [1, 0, 0] || exists x | x in release[3..] :: x != 0 then TupleLess([1, 0, 0], release)
      else !(v.pre.Some? || (v.dev.Some? && v.post.None?))
  }

  // ------------------------------------------------------------ the PEP 440 order

  /** The order of one suffix: absent ones sort below all numbers, or above, by position. */
  datatype Bound = Lowest | At(n: int) | Highest

  predicate BoundLess(a: Bound, b: Bound) {
    match (a, b)
    case (Lowest, _) => !b.Lowest?
    case (At(m), At(n)) => m < n
    case (At(_), Highest) => true
    case (_, _) => false
  }

  function Trim(release: seq<nat>): seq<nat> {
    if release != [] && release[|release| - 1] == 0 then Trim(release[..|release| - 1]) else release
  }

  function KindRank(k: PreKind): int {
    match k case Alpha => 0 case Beta => 1 case Candidate => 2
  }

  /** A developmental release with neither pre nor post segment sorts before every pre-release
      of the same version; a version without pre segment sorts after them. */
  function PreBound(v: Version): Bound {
    if v.pre.Some? then At(KindRank(v.pre.value.kind))
    else if v.post.None? && v.dev.Some? then Lowest
    else Highest
  }

  function PreNumber(v: Version): int { if v.pre.Some? then v.pre.value.number else 0 }

  function PostBound(v: Version): Bound { if v.post.Some? then At(v.post.value) else Lowest }

  function DevBound(v: Version): Bound { if v.dev.Some? then At(v.dev.value) else Highest }

  predicate SegmentLess(a: Segment, b: Segment) {
    match (a, b)
    case (Text(_), Number(_)) => true
    case (Number(_), Text(_)) => false
    case (Number(m), Number(n)) => m < n
    case (Text(s), Text(t)) => StringLess(s, t)
  }

  predicate StringLess(a: string, b: string) {
    if b == "" then false
    else if a == "" then true
    else a[0] < b[0] || (a[0] == b[0] && StringLess(a[1..], b[1..]))
  }

  /** A version without local label sorts before the same version with one. */
  predicate LocalLess(a: Option<seq<Segment>>, b: Option<seq<Segment>>) {
    match (a, b)
    case (None, None) => false
    case (None, Some(_)) => true
    case (Some(_), None) => false
    case (Some(s), Some(t)) => SegmentsLess(s, t)
  }

  predicate SegmentsLess(a: seq<Segment>, b: seq<Segment>) {
    if b == [] then false
    else if a == [] then true
    else SegmentLess(a[0], b[0]) || (a[0] == b[0] && SegmentsLess(a[1..], b[1..]))
  }

  /** Epoch, release without trailing zeros, pre, post, dev, local: the first difference decides. */
  predicate Less(a: Version, b: Version) {
    if a.epoch != b.epoch then a.epoch < b.epoch
    else if Trim(a.release) != Trim(b.release) then TupleLess(Trim(a.release), Trim(b.release))
    else if PreBound(a) != PreBound(b) then BoundLess(PreBound(a), PreBound(b))
    else if PreNumber(a) != PreNumber(b) then PreNumber(a) < PreNumber(b)
    else if PostBound(a) != PostBound(b) then BoundLess(PostBound(a), PostBound(b))
    else if DevBound(a) != DevBound(b) then BoundLess(DevBound(a), DevBound(b))
    else LocalLess(a.local, b.local)
  }

  const ONE := Version(0, [1, 0, 0], None, None, None, None)

  // ------------------------------------------------------------------- they agree

  lemma {:induction false} TrimFacts(release: seq<nat>)
    ensures |Trim(release)| <= |release| && Trim(release) == release[..|Trim(release)|]
    ensures forall i | |Trim(release)| <= i < |release| :: release[i] == 0
    ensures Trim(release) == [] || Trim(release)[|Trim(release)| - 1] != 0
  {
    if release != [] && release[|release| - 1] == 0 {
      TrimFacts(release[..|release| - 1]);
    }
  }

  lemma TrimOne()
    ensures Trim([1, 0, 0]) == [1]
  {
    assert [1, 0, 0][..2] == [1, 0] && [1, 0][..1] == [1];
    assert Trim([1, 0]) == Trim([1]);
  }

  /** The padded release is [1, 0, 0] followed by zeros exactly when it trims to [1]. */
  lemma PaddedOneIff(release: seq<nat>)
    requires release != []
    ensures (Pad(release)[..3] == [1, 0, 0] && !exists x | x in Pad(release)[3..] :: x != 0) <==> Trim(release) == [1]
  {
    var p, t := Pad(release), Trim(release);
    TrimFacts(release);
    if t == [1] {
      assert p[0] == 1;
      forall i | 1 <= i < |p| ensures p[i] == 0 {
        if i < |release| { assert p[i] == release[i]; }
      }
      assert p[..3] == [1, 0, 0];
      assert forall i | 0 <= i < |p[3..]| :: p[3..][i] == p[i + 3];
    }
    if p[..3] == [1, 0, 0] && !exists x | x in p[3..] :: x != 0 {
      assert p[0] == 1 && p[1] == 0 && p[2] == 0;
      forall i | 1 <= i < |release| ensures release[i] == 0 {
        assert p[i] == release[i];
        if i >= 3 { assert p[3..][i - 3] == p[i] && p[i] in p[3..]; }
      }
      assert t != [] && |t| == 1;
    }
  }

  /** Comparing with [1, 0, 0] padded, or with [1] trimmed, gives the same answer. */
  lemma TupleAgree(release: seq<nat>)
    requires release != [] && Trim(release) != [1]
    ensures TupleLess([1, 0, 0], Pad(release)) <==> !TupleLess(Trim(release), [1])
  {
    var p, t := Pad(release), Trim(release);
    TrimFacts(release);
    assert p[0] == release[0];
    if t == [] {
      assert release[0] == 0;
    } else if release[0] == 1 {
      assert |t| > 1 && t[1..] != [] && t[|t| - 1] != 0;
      assert p[|t| - 1] == t[|t| - 1];
      assert [1, 0, 0][1..] == [0, 0];
      PositiveTail(p[1..], [0, 0], |t| - 2);
    }
  }

  /** A tuple with a nonzero entry is greater than zeros it is at least as long as. */
  lemma {:induction false} PositiveTail(p: seq<nat>, zeros: seq<nat>, k: nat)
    requires k < |p| && p[k] != 0 && |zeros| <= |p| && forall z | z in zeros :: z == 0
    ensures TupleLess(zeros, p)
  {
    if zeros != [] {
      assert zeros[0] in zeros && forall z | z in zeros[1..] :: z in zeros;
    }
    if zeros != [] && p[0] == 0 {
      PositiveTail(p[1..], zeros[1..], k - 1);
    }
  }

  /** The script's test is "not less than 1.0.0" in the PEP 440 order, for every version. */
  lemma AtLeastOneIsNotLess(v: Version)
    requires v.release != []
    ensures AtLeastOne(v) <==> !Less(v, ONE)
  {
    TrimOne();
    PaddedOneIff(v.release);
    if Trim(v.release) != [1] { TupleAgree(v.release); }
  }

  // ------------------------------------------------------- the order is an order

  lemma {:induction false} TupleTransitive(a: seq<nat>, b: seq<nat>, c: seq<nat>)
    requires TupleLess(a, b) && TupleLess(b, c)
    ensures TupleLess(a, c)
  {
    if a != [] && a[0] == b[0] == c[0] { TupleTransitive(a[1..], b[1..], c[1..]); }
  }

  lemma {:induction false} StringTransitive(a: string, b: string, c: string)
    requires StringLess(a, b) && StringLess(b, c)
    ensures StringLess(a, c)
  {
    if a != [] && a[0] == b[0] == c[0] { StringTransitive(a[1..], b[1..], c[1..]); }
  }

  lemma {:induction false} SegmentsTransitive(a: seq<Segment>, b: seq<Segment>, c: seq<Segment>)
    requires SegmentsLess(a, b) && SegmentsLess(b, c)
    ensures SegmentsLess(a, c)
  {
    if a != [] {
      if a[0].Text? && b[0].Text? && c[0].Text?
         && StringLess(a[0].text, b[0].text) && StringLess(b[0].text, c[0].text) {
        StringTransitive(a[0].text, b[0].text, c[0].text);
      }
      if a[0] == b[0] == c[0] && SegmentsLess(a[1..], b[1..]) && SegmentsLess(b[1..], c[1..]) {
        SegmentsTransitive(a[1..], b[1..], c[1..]);
      }
    }
  }

  lemma {:induction false} TupleTotal(a: seq<nat>, b: seq<nat>)
    ensures a == b || TupleLess(a, b) || TupleLess(b, a)
    ensures !TupleLess(a, a)
  {
    if a != [] {
      TupleTotal(a[1..], if b == [] then [] else b[1..]);
      if b != [] && a[0] == b[0] { assert a == [a[0]] + a[1..] && b == [b[0]] + b[1..]; }
    }
  }

  /** The PEP 440 order is transitive, so 1.0.0 splits the versions into two intervals. */
  lemma LessTransitive(a: Version, b: Version, c: Version)
    requires Less(a, b) && Less(b, c)
    ensures Less(a, c)
  {
    var ra, rb, rc := Trim(a.release), Trim(b.release), Trim(c.release);
    TupleTotal(ra, ra);
    TupleTotal(rb, rb);
    if TupleLess(ra, rb) && TupleLess(rb, rc) { TupleTransitive(ra, rb, rc); }
    if TupleLess(ra, rb) && TupleLess(rb, ra) { TupleTransitive(ra, rb, ra); }
    if a.local.Some? && b.local.Some? && c.local.Some? && SegmentsLess(a.local.value, b.local.value)
       && SegmentsLess(b.local.value, c.local.value) {
      SegmentsTransitive(a.local.value, b.local.value, c.local.value);
    }
  }

  function Plain(release: seq<nat>): Version { Version(0, release, None, None, None, None) }

  function WithPre(release: seq<nat>, kind: PreKind, number: nat): Version {
    Plain(release).(pre := Some(Pre(kind, number)))
  }

  /** The example in the summary of PEP 440, in its order: 1.dev0, 1.0.dev456, 1.0a1, 1.0a2.dev456,
      1.0a12.dev456, 1.0a12, 1.0b1.dev456, 1.0b2, 1.0b2.post345.dev456, 1.0b2.post345, 1.0rc1.dev456,
      1.0rc1, 1.0, 1.0+abc.5, 1.0+abc.7, 1.0+5, 1.0.post456.dev34, 1.0.post456, 1.0.15, 1.1.dev1. */
  const EXAMPLE: seq<Version> := [
    Plain([1]).(dev := Some(0)),
    Plain([1, 0]).(dev := Some(456)),
    WithPre([1, 0], Alpha, 1),
    WithPre([1, 0], Alpha, 2).(dev := Some(456)),
    WithPre([1, 0], Alpha, 12).(dev := Some(456)),
    WithPre([1, 0], Alpha, 12),
    WithPre([1, 0], Beta, 1).(dev := Some(456)),
    WithPre([1, 0], Beta, 2),
    WithPre([1, 0], Beta, 2).(post := Some(345), dev := Some(456)),
    WithPre([1, 0], Beta, 2).(post := Some(345)),
    WithPre([1, 0], Candidate, 1).(dev := Some(456)),
    WithPre([1, 0], Candidate, 1),
    Plain([1, 0]),
    Plain([1, 0]).(local := Some([Text("abc"), Number(5)])),
    Plain([1, 0]).(local := Some([Text("abc"), Number(7)])),
    Plain([1, 0]).(local := Some([Number(5)])),
    Plain([1, 0]).(post := Some(456), dev := Some(34)),
    Plain([1, 0]).(post := Some(456)),
    Plain([1, 0, 15]),
    Plain([1, 1]).(dev := Some(1))]

  lemma ExampleTrims()
    ensures Trim([1]) == [1] && Trim([1, 0]) == [1] && Trim([1, 0, 15]) == [1, 0, 15] && Trim([1, 1]) == [1, 1]
  {
    assert [1, 0][..1] == [1];
  }

  lemma ExampleFirstHalf()
    ensures forall i | 0 <= i < 10 :: Less(EXAMPLE[i], EXAMPLE[i + 1])
  {
    hide Trim;
    ExampleTrims();
  }

  lemma ExampleSecondHalf()
    ensures forall i | 10 <= i < 19 :: Less(EXAMPLE[i], EXAMPLE[i + 1])
  {
    hide Trim;
    ExampleTrims();
    assert [1, 0, 15][1..] == [0, 15] && [1, 1][1..] == [1] && [1][1..] == [];
    assert SegmentsLess([Text("abc"), Number(5)], [Text("abc"), Number(7)]) by {
      assert [Text("abc"), Number(5)][1..] == [Number(5)] && [Text("abc"), Number(7)][1..] == [Number(7)];
    }
  }

  /** The reference order puts that example in its order. */
  lemma ExampleInOrder()
    ensures forall i | 0 <= i < |EXAMPLE| - 1 :: Less(EXAMPLE[i], EXAMPLE[i + 1])
  {
    hide Less;
    ExampleFirstHalf();
    ExampleSecondHalf();
  }

  /** The threshold is monotone: nothing above a version at or over 1.0.0 falls below it. */
  lemma ThresholdMonotone(a: Version, b: Version)
    requires a.release != [] && b.release != [] && AtLeastOne(a) && Less(a, b)
    ensures AtLeastOne(b)
  {
    AtLeastOneIsNotLess(a);
    AtLeastOneIsNotLess(b);
    if Less(b, ONE) { LessTransitive(a, b, ONE); }
  }
}
