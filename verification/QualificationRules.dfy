/** The qualification rules on the bundles' own fields: which sets the gate accepts, why it refuses
    the others, what each verdict of the report stands for, and which sets it calls qualified. */
module QualificationRules {
  import opened Options
  import opened Ordering
  import opened Staging
  import opened Qualification

  /** On a clean host, from the installed artifacts and not by the promotion automation. */
  predicate RanClean(b: Bundle) {
    && b.environment.Some?
    && b.environment.value.cleanHost == Some(true)
    && b.environment.value.sourceCheckout == Some(false)
    && b.environment.value.promoting != Some(true)
  }

  predicate NamesHost(b: Bundle) { b.environment.Some? && b.environment.value.host != "" }

  predicate Timed(b: Bundle, s: Setting) {
    b.started.Some? && s.parse(b.started.value).Some? && b.finished.Some? && s.parse(b.finished.value).Some?
  }

  /** A passed run on a named clean host, consumed by no receipt, with readable times. */
  predicate QualifyingRun(b: Bundle, s: Setting) {
    b.passed && RanClean(b) && NamesHost(b) && b.checksum !in s.prior && Timed(b, s)
  }

  const SEVEN_DAYS := 604800

  predicate ThreeTrue(keep: seq<bool>) {
    exists i, j, k | 0 <= i < j < k < |keep| :: keep[i] && keep[j] && keep[k]
  }

  predicate FinishedRecently(b: Bundle, s: Setting) {
    b.finished.Some? && s.parse(b.finished.value).Some? && s.now - s.parse(b.finished.value).value <= SEVEN_DAYS
  }

  /** Not started before the candidate was staged. */
  predicate NotEarly(b: Bundle, s: Setting) {
    s.staged.Some? ==>
      && s.parse(s.staged.value).Some? && b.started.Some? && s.parse(b.started.value).Some?
      && s.parse(s.staged.value).value <= s.parse(b.started.value).value
  }

  // ---------------------------------------------------------------- small readings

  /** The bundles at the places marked. */
  function Kept(bundles: seq<Bundle>, keep: seq<bool>): seq<Bundle>
    requires |keep| == |bundles|
  {
    if bundles == [] then [] else (if keep[0] then [bundles[0]] else []) + Kept(bundles[1..], keep[1..])
  }

  lemma {:induction false} KeptIff(bundles: seq<Bundle>, keep: seq<bool>, b: Bundle)
    requires |keep| == |bundles|
    ensures b in Kept(bundles, keep) <==> exists i | 0 <= i < |bundles| :: keep[i] && bundles[i] == b
  {
    if bundles != [] {
      KeptIff(bundles[1..], keep[1..], b);
      if b in Kept(bundles[1..], keep[1..]) {
        var i :| 0 <= i < |bundles| - 1 && keep[1..][i] && bundles[1..][i] == b;
        assert keep[i + 1] && bundles[i + 1] == b;
      }
      forall i | 0 < i < |bundles| && keep[i] && bundles[i] == b ensures b in Kept(bundles[1..], keep[1..]) {
        assert keep[1..][i - 1] && bundles[1..][i - 1] == b;
      }
    }
  }

  /** So many places are marked, from left to right. */
  lemma {:induction false} KeptPlaces(bundles: seq<Bundle>, keep: seq<bool>, n: nat) returns (places: seq<nat>)
    requires |keep| == |bundles| && n <= |Kept(bundles, keep)|
    ensures |places| == n && forall m | 0 <= m < n :: places[m] < |keep| && keep[places[m]]
    ensures forall m | 0 < m < n :: places[m - 1] < places[m]
    decreases bundles
  {
    if n == 0 { return []; }
    var rest := KeptPlaces(bundles[1..], keep[1..], if keep[0] then n - 1 else n);
    var later := seq(|rest|, m requires 0 <= m < |rest| => rest[m] + 1);
    places := (if keep[0] then [0] else []) + later;
  }

  lemma {:induction false} KeptAt(bundles: seq<Bundle>, keep: seq<bool>, i: nat)
    requires |keep| == |bundles| && i < |bundles| && keep[i]
    ensures |Kept(bundles, keep)| >= 1 + |Kept(bundles[i + 1..], keep[i + 1..])|
    decreases i
  {
    if i > 0 {
      KeptAt(bundles[1..], keep[1..], i - 1);
      assert bundles[1..][i..] == bundles[i + 1..] && keep[1..][i..] == keep[i + 1..];
    }
  }

  lemma ThreeKept(bundles: seq<Bundle>, keep: seq<bool>)
    requires |keep| == |bundles|
    ensures |Kept(bundles, keep)| >= 3 <==> ThreeTrue(keep)
  {
    hide Kept;
    if |Kept(bundles, keep)| >= 3 {
      var p := KeptPlaces(bundles, keep, 3);
      assert p[0] < p[1] < p[2];
    }
    if ThreeTrue(keep) {
      var i, j, k :| 0 <= i < j < k < |keep| && keep[i] && keep[j] && keep[k];
      KeptAt(bundles, keep, i);
      KeptAt(bundles[i + 1..], keep[i + 1..], j - i - 1);
      KeptAt(bundles[i + 1..][j - i..], keep[i + 1..][j - i..], k - j - 1);
    }
  }

  function ValidFlags(bundles: seq<Bundle>, s: Setting): seq<bool> {
    seq(|bundles|, i requires 0 <= i < |bundles| => s.validate(bundles[i]))
  }

  lemma {:induction false} ValidatedIsKept(bundles: seq<Bundle>, s: Setting)
    ensures Validated(bundles, s) == Kept(bundles, ValidFlags(bundles, s))
  {
    if bundles != [] {
      ValidatedIsKept(bundles[1..], s);
      assert ValidFlags(bundles, s)[1..] == ValidFlags(bundles[1..], s);
    }
  }

  /** Three of the bundles, at different places, are valid. */
  predicate ThreeValid(bundles: seq<Bundle>, s: Setting) {
    exists i, j, k | 0 <= i < j < k < |bundles| ::
      s.validate(bundles[i]) && s.validate(bundles[j]) && s.validate(bundles[k])
  }

  lemma ThreeIff(bundles: seq<Bundle>, s: Setting)
    ensures |Validated(bundles, s)| >= 3 <==> ThreeValid(bundles, s)
  {
    hide Validated, Kept;
    var keep := ValidFlags(bundles, s);
    ValidatedIsKept(bundles, s);
    ThreeKept(bundles, keep);
    assert forall i | 0 <= i < |bundles| :: keep[i] == s.validate(bundles[i]);
  }

  lemma NotStaleIff(valid: seq<Bundle>, s: Setting)
    requires AllParse(valid, s) && valid != []
    ensures !Stale(valid, s) <==> exists b | b in valid :: FinishedRecently(b, s)
  {
    var times := FinishTimes(valid, s);
    if !Stale(valid, s) {
      var i :| 0 <= i < |times| && times[i] == Maximum(times);
      assert FinishedRecently(valid[i], s);
    }
    if b :| b in valid && FinishedRecently(b, s) {
      var i :| 0 <= i < |valid| && valid[i] == b;
      assert times[i] in times;
    }
  }

  lemma StagingIff(valid: seq<Bundle>, s: Setting)
    requires AllParse(valid, s) && valid != []
    ensures (s.staged.Some? ==> s.parse(s.staged.value).Some? && !Predating(valid, s, s.parse(s.staged.value).value))
            <==> forall b | b in valid :: NotEarly(b, s)
  {
    assert valid[0] in valid;
  }

  // -------------------------------------------------------------- the gate accepts

  /** The gate accepts exactly the sets of distinct bundles, all bound to the candidate, whose valid
      ones are all qualifying runs, three of them, one finished within seven days, none started
      before staging. */
  lemma GateAcceptsIff(bundles: seq<Bundle>, s: Setting)
    ensures Qualify(bundles, s).Ok? <==>
            && (forall i, j | 0 <= i < j < |bundles| :: bundles[i].checksum != bundles[j].checksum)
            && (forall b | b in bundles :: b.checksum != "" && b.candidate == Some(s.candidate))
            && (forall b | b in bundles && s.validate(b) :: QualifyingRun(b, s) && NotEarly(b, s))
            && ThreeValid(bundles, s)
            && exists b | b in bundles && s.validate(b) :: FinishedRecently(b, s)
    ensures Qualify(bundles, s).Ok? ==>
              && (forall b :: b in Qualify(bundles, s).value <==> b in bundles && s.validate(b))
              && |Qualify(bundles, s).value| >= 3
              && InStartOrder(Qualify(bundles, s).value, s)
  {
    hide InStartOrder, Screen, CheckSet, Validated, ThreeValid, Stale, Predating, Sort, FinishedRecently, NotEarly;
    var valid := Validated(bundles, s);
    ScreenIff(bundles, s, {});
    CheckSetIff(valid, s);
    ThreeIff(bundles, s);
    forall b ensures b in valid <==> b in bundles && s.validate(b) { ValidatedMember(bundles, s, b); }
    if valid != [] && AllParse(valid, s) {
      NotStaleIff(valid, s);
      StagingIff(valid, s);
    }
    StartOrder(s);
    if Qualify(bundles, s).Ok? {
      SameMembers(valid, Qualify(bundles, s).value);
      SortedByStart(Qualify(bundles, s).value, s);
    }
  }

  /** By the instant each run started, the earliest first. */
  ghost predicate InStartOrder(bundles: seq<Bundle>, s: Setting) {
    forall i, j | 0 <= i < j < |bundles| ::
      && bundles[i].started.Some? && s.parse(bundles[i].started.value).Some?
      && bundles[j].started.Some? && s.parse(bundles[j].started.value).Some?
      && s.parse(bundles[i].started.value).value <= s.parse(bundles[j].started.value).value
  }

  lemma SortedByStart(bundles: seq<Bundle>, s: Setting)
    requires Sorted(StartsBefore(s), bundles)
    requires forall b | b in bundles :: b.started.Some? && s.parse(b.started.value).Some?
    ensures InStartOrder(bundles, s)
  {
    forall i, j | 0 <= i < j < |bundles|
      ensures s.parse(bundles[i].started.value).value <= s.parse(bundles[j].started.value).value
    {
      assert StartsBefore(s)(bundles[i], bundles[j]);
      assert bundles[i] in bundles && bundles[j] in bundles;
    }
  }

  lemma SameMembers(a: seq<Bundle>, b: seq<Bundle>)
    requires multiset(a) == multiset(b)
    ensures |a| == |b| && forall x :: x in a <==> x in b
  {
    assert |multiset(a)| == |a| && |multiset(b)| == |b|;
    forall x ensures x in a <==> x in b { assert x in multiset(a) <==> x in multiset(b); }
  }

  // -------------------------------------------------------- why the gate refuses

  /** Distinct usable bundles bound to the candidate, whose valid ones passed and ran clean. */
  ghost predicate NoOffence(bundles: seq<Bundle>, s: Setting) {
    && (forall i, j | 0 <= i < j < |bundles| :: bundles[i].checksum != bundles[j].checksum)
    && (forall b | b in bundles :: b.checksum != "" && b.candidate == Some(s.candidate))
    && (forall b | b in bundles && s.validate(b) :: b.passed && RanClean(b))
  }

  /** The reason is what stands first in the first offending bundle. */
  ghost predicate FirstOffence(bundles: seq<Bundle>, s: Setting, k: nat, reason: Reason)
    requires k < |bundles|
  {
    var b := bundles[k];
    var repeated := exists i | 0 <= i < k :: bundles[i].checksum == b.checksum;
    && NoOffence(bundles[..k], s)
    && match reason
       case InvalidBundle => b.checksum == ""
       case DuplicateEvidence => b.checksum != "" && repeated
       case WrongCandidate => b.checksum != "" && !repeated && b.candidate != Some(s.candidate)
       case FailedRun =>
         b.checksum != "" && !repeated && b.candidate == Some(s.candidate) && s.validate(b) && !b.passed
       case WrongEnvironment =>
         && b.checksum != "" && !repeated && b.candidate == Some(s.candidate)
         && s.validate(b) && b.passed && !RanClean(b)
       case _ => false
  }

  lemma {:induction false} ScreenAppend(bundles: seq<Bundle>, b: Bundle, s: Setting, seen: set<string>)
    requires Screen(bundles, s, seen).Ok?
    ensures Screen(bundles + [b], s, seen).Err? <==> Screen([b], s, seen + Checksums(bundles)).Err?
    ensures Screen(bundles + [b], s, seen).Err? ==>
              Screen(bundles + [b], s, seen).reason == Screen([b], s, seen + Checksums(bundles)).reason
  {
    if bundles == [] {
      assert bundles + [b] == [b] && seen + Checksums(bundles) == seen;
    } else {
      assert (bundles + [b])[0] == bundles[0] && (bundles + [b])[1..] == bundles[1..] + [b];
      assert bundles == [bundles[0]] + bundles[1..];
      assert seen + {bundles[0].checksum} + Checksums(bundles[1..]) == seen + Checksums(bundles);
      ScreenAppend(bundles[1..], b, s, seen + {bundles[0].checksum});
    }
  }

  lemma {:induction false} ErrorStays(bundles: seq<Bundle>, b: Bundle, s: Setting, seen: set<string>)
    requires Screen(bundles, s, seen).Err?
    ensures Screen(bundles + [b], s, seen) == Screen(bundles, s, seen)
  {
    assert (bundles + [b])[0] == bundles[0] && (bundles + [b])[1..] == bundles[1..] + [b];
    if Screen(bundles[1..], s, seen + {bundles[0].checksum}).Err? {
      ErrorStays(bundles[1..], b, s, seen + {bundles[0].checksum});
    }
  }

  lemma OneScreened(bundles: seq<Bundle>, b: Bundle, s: Setting)
    requires NoOffence(bundles, s) && Screen([b], s, Checksums(bundles)).Err?
    ensures FirstOffence(bundles + [b], s, |bundles|, Screen([b], s, Checksums(bundles)).reason)
  {
    var all := bundles + [b];
    assert all[..|bundles|] == bundles && [b][1..] == [];
    assert Screen([b][1..], s, Checksums(bundles) + {b.checksum}).Ok?;
    forall c | c in bundles ensures exists i | 0 <= i < |bundles| :: all[i] == c {
      var i :| 0 <= i < |bundles| && bundles[i] == c;
      assert all[i] == c;
    }
    forall i | 0 <= i < |bundles| ensures all[i].checksum in Checksums(bundles) { assert all[i] in bundles; }
  }

  lemma {:induction false} ScreenRefuses(bundles: seq<Bundle>, s: Setting) returns (k: nat)
    requires Screen(bundles, s, {}).Err?
    ensures k < |bundles| && FirstOffence(bundles, s, k, Screen(bundles, s, {}).reason)
    decreases |bundles|
  {
    hide FirstOffence, NoOffence, RanClean;
    var front, last := bundles[..|bundles| - 1], bundles[|bundles| - 1];
    assert bundles == front + [last];
    if Screen(front, s, {}).Err? {
      ErrorStays(front, last, s, {});
      k := ScreenRefuses(front, s);
      OffenceIn(front, last, s, k, Screen(front, s, {}).reason);
    } else {
      ScreenAppend(front, last, s, {});
      ScreenedClean(front, s);
      assert {} + Checksums(front) == Checksums(front);
      OneScreened(front, last, s);
      k := |front|;
    }
  }

  lemma OffenceIn(bundles: seq<Bundle>, b: Bundle, s: Setting, k: nat, reason: Reason)
    requires k < |bundles| && FirstOffence(bundles, s, k, reason)
    ensures FirstOffence(bundles + [b], s, k, reason)
  {
    hide NoOffence, RanClean;
    var all := bundles + [b];
    assert all[..k] == bundles[..k] && all[k] == bundles[k];
    assert forall i | 0 <= i < k :: all[i] == bundles[i];
  }

  lemma ScreenedClean(bundles: seq<Bundle>, s: Setting)
    ensures Screen(bundles, s, {}).Ok? <==> NoOffence(bundles, s)
  {
    ScreenIff(bundles, s, {});
  }

  /** What is wrong with a set without offence, seen on its valid bundles. */
  ghost predicate SetFlaw(bundles: seq<Bundle>, s: Setting, reason: Reason) {
    match reason
    case InvalidBundle => forall b | b in bundles :: !s.validate(b)
    case ReplayedEvidence => exists b | b in bundles :: s.validate(b) && b.checksum in s.prior
    case InsufficientRuns => !ThreeValid(bundles, s)
    case WrongEnvironment => ThreeValid(bundles, s) && exists b | b in bundles :: s.validate(b) && !NamesHost(b)
    case InvalidTimestamp =>
      || (exists b | b in bundles :: s.validate(b) && !Timed(b, s))
      || (s.staged.Some? && s.parse(s.staged.value).None?)
    case StaleEvidence => forall b | b in bundles && s.validate(b) :: Timed(b, s) && !FinishedRecently(b, s)
    case PredatesStaging =>
      && s.staged.Some? && s.parse(s.staged.value).Some?
      && exists b | b in bundles :: s.validate(b) && Timed(b, s) && !NotEarly(b, s)
    case _ => false
  }

  /** Every refusal of the gate names the first offence, or a flaw of a set without offence. */
  lemma GateRefuses(bundles: seq<Bundle>, s: Setting)
    ensures Qualify(bundles, s) == Err(MissingEvidence) <==> bundles == []
    ensures bundles != [] && Qualify(bundles, s).Err? ==>
              var reason := Qualify(bundles, s).reason;
              if NoOffence(bundles, s) then SetFlaw(bundles, s, reason)
              else exists k: nat | k < |bundles| :: FirstOffence(bundles, s, k, reason)
  {
    hide FirstOffence, NoOffence, SetFlaw, CheckSet;
    if bundles != [] && Qualify(bundles, s).Err? {
      ScreenedClean(bundles, s);
      if NoOffence(bundles, s) {
        ScreenIff(bundles, s, {});
        SetFlawed(bundles, s);
      } else {
        var k := ScreenRefuses(bundles, s);
        assert Qualify(bundles, s).reason == Screen(bundles, s, {}).reason;
      }
    }
    if bundles != [] {
      ScreenedClean(bundles, s);
      NotMissing(bundles, s);
    }
  }

  lemma NotMissing(bundles: seq<Bundle>, s: Setting)
    requires bundles != []
    ensures Qualify(bundles, s) != Err(MissingEvidence)
  {
    if Screen(bundles, s, {}).Err? {
      var k := ScreenRefuses(bundles, s);
      assert FirstOffence(bundles, s, k, Screen(bundles, s, {}).reason);
    }
  }

  lemma SetFlawed(bundles: seq<Bundle>, s: Setting)
    requires Screen(bundles, s, {}) == Ok(Validated(bundles, s)) && Qualify(bundles, s).Err? && bundles != []
    ensures SetFlaw(bundles, s, Qualify(bundles, s).reason)
  {
    hide Screen, Validated, Stale, Predating, ThreeValid, FinishedRecently, NotEarly;
    var valid := Validated(bundles, s);
    forall b ensures b in valid <==> b in bundles && s.validate(b) { ValidatedMember(bundles, s, b); }
    ThreeIff(bundles, s);
    if valid == [] {
      forall b | b in bundles ensures !s.validate(b) { assert b !in valid; }
    } else if AllParse(valid, s) {
      NotStaleIff(valid, s);
      StagingIff(valid, s);
    }
  }

  // ------------------------------------------------- what the report's verdicts mean

  /** An earlier bundle goes by the name of this one. */
  ghost predicate Repeats(bundles: seq<Bundle>, i: nat)
    requires i < |bundles|
  {
    exists j | 0 <= j < i ::
      bundles[j].checksum == bundles[i].checksum
      || (bundles[j].checksum == "" && bundles[i].checksum == "<no checksum>")
  }

  function Names(bundles: seq<Bundle>): set<string> { set b | b in bundles :: SeenAs(b) }

  lemma {:induction false} VerdictAt(bundles: seq<Bundle>, s: Setting, seen: set<string>, i: nat)
    requires i < |bundles|
    ensures |Verdicts(bundles, s, seen)| == |bundles|
    ensures Verdicts(bundles, s, seen)[i] == Judge(bundles[i], s, seen + Names(bundles[..i]))
  {
    hide Judge;
    var b, rest := bundles[0], bundles[1..];
    if i == 0 {
      assert seen + Names(bundles[..0]) == seen;
      if rest != [] { VerdictAt(rest, s, seen + {SeenAs(b)}, 0); }
    } else {
      VerdictAt(rest, s, seen + {SeenAs(b)}, i - 1);
      assert bundles[..i] == [b] + rest[..i - 1];
      assert seen + {SeenAs(b)} + Names(rest[..i - 1]) == seen + Names(bundles[..i]);
    }
  }

  lemma SeenBefore(bundles: seq<Bundle>, i: nat)
    requires i < |bundles| && bundles[i].checksum != ""
    ensures SeenAs(bundles[i]) in {} + Names(bundles[..i]) <==> Repeats(bundles, i)
  {
    if SeenAs(bundles[i]) in Names(bundles[..i]) {
      var b :| b in bundles[..i] && SeenAs(b) == SeenAs(bundles[i]);
      var j :| 0 <= j < i && bundles[..i][j] == b;
      assert bundles[j] == b;
    }
    forall j | 0 <= j < i ensures bundles[j] in bundles[..i] { assert bundles[..i][j] == bundles[j]; }
  }

  /** A bundle qualifies in the report exactly when it is usable, bound, valid, no repetition and a
      qualifying run; each rejection names the first thing that is wrong with it. */
  lemma VerdictMeans(bundles: seq<Bundle>, s: Setting, i: nat)
    requires i < |bundles|
    ensures |Verdicts(bundles, s, {})| == |bundles|
    ensures var b, verdict := bundles[i], Verdicts(bundles, s, {})[i];
            var bound := b.checksum != "" && b.candidate == Some(s.candidate);
            var clean := bound && s.validate(b) && b.passed && RanClean(b) && NamesHost(b);
            && (verdict == None <==> bound && s.validate(b) && QualifyingRun(b, s) && !Repeats(bundles, i))
            && (verdict == Some(WrongCandidate) <==> b.checksum != "" && b.candidate != Some(s.candidate))
            && (verdict == Some(FailedRun) <==> bound && s.validate(b) && !b.passed)
            && (verdict == Some(WrongEnvironment) <==>
                  bound && s.validate(b) && b.passed && !(RanClean(b) && NamesHost(b)))
            && (verdict == Some(DuplicateEvidence) <==> clean && Repeats(bundles, i))
            && (verdict == Some(ReplayedEvidence) <==> clean && !Repeats(bundles, i) && b.checksum in s.prior)
            && (verdict == Some(InvalidBundle) <==>
                  || b.checksum == "" || (bound && !s.validate(b))
                  || (clean && !Repeats(bundles, i) && b.checksum !in s.prior && !Timed(b, s)))
  {
    hide Verdicts, Repeats;
    VerdictAt(bundles, s, {}, i);
    if bundles[i].checksum != "" { SeenBefore(bundles, i); }
  }

  // ------------------------------------------------------ when the report qualifies

  function GoodFlags(verdicts: seq<Option<Reason>>): seq<bool> {
    seq(|verdicts|, i requires 0 <= i < |verdicts| => verdicts[i].None?)
  }

  lemma {:induction false} QualifyingIsKept(bundles: seq<Bundle>, s: Setting, seen: set<string>)
    ensures |Verdicts(bundles, s, seen)| == |bundles|
    ensures Qualifying(bundles, s, seen) == Kept(bundles, GoodFlags(Verdicts(bundles, s, seen)))
  {
    hide Judge;
    if bundles != [] {
      var later := seen + {SeenAs(bundles[0])};
      QualifyingIsKept(bundles[1..], s, later);
      assert GoodFlags(Verdicts(bundles, s, seen))[1..] == GoodFlags(Verdicts(bundles[1..], s, later));
    }
  }

  /** The report qualifies exactly when three bundles do, one of them finished within seven days,
      and none that does started before staging. */
  lemma ReportQualifiesIff(bundles: seq<Bundle>, s: Setting)
    ensures var v := Verdicts(bundles, s, {});
            && |v| == |bundles|
            && (Qualified(bundles, s) <==>
                  && (s.staged.Some? ==> s.parse(s.staged.value).Some?)
                  && (exists i, j, k | 0 <= i < j < k < |bundles| :: v[i].None? && v[j].None? && v[k].None?)
                  && (exists i | 0 <= i < |bundles| :: v[i].None? && FinishedRecently(bundles[i], s))
                  && (forall i | 0 <= i < |bundles| && v[i].None? :: NotEarly(bundles[i], s)))
  {
    hide Verdicts, Qualifying, Kept, Stale, Predating, FinishedRecently, NotEarly, AllParse;
    var v, q := Verdicts(bundles, s, {}), Qualifying(bundles, s, {});
    QualifyingIsKept(bundles, s, {});
    var keep := GoodFlags(v);
    ThreeKept(bundles, keep);
    forall b ensures b in q <==> exists i | 0 <= i < |bundles| :: v[i].None? && bundles[i] == b {
      KeptIff(bundles, keep, b);
    }
    assert forall i | 0 <= i < |bundles| :: keep[i] == v[i].None?;
    if q != [] {
      NotStaleIff(q, s);
      StagingIff(q, s);
    }
  }

  // ------------------------------------------------------------- what the gaps say

  /** The newest of the bundles finished at this instant. */
  ghost predicate Newest(bundles: seq<Bundle>, s: Setting, instant: int)
    requires AllParse(bundles, s)
  {
    && (exists b | b in bundles :: s.parse(b.finished.value).value == instant)
    && forall b | b in bundles :: s.parse(b.finished.value).value <= instant
  }

  /** The names are those of the bundles that started before staging. */
  ghost predicate EarlyNames(bundles: seq<Bundle>, s: Setting, names: seq<string>)
    requires AllParse(bundles, s) && s.staged.Some? && s.parse(s.staged.value).Some?
  {
    forall n :: n in names <==>
      exists b | b in bundles :: s.parse(b.started.value).value < s.parse(s.staged.value).value && SeenAs(b) == n
  }

  lemma {:induction false} EarlyIff(bundles: seq<Bundle>, s: Setting, stagedAt: int, n: string)
    requires AllParse(bundles, s)
    ensures n in Early(bundles, s, stagedAt) <==>
            exists b | b in bundles :: s.parse(b.started.value).value < stagedAt && SeenAs(b) == n
  {
    hide SeenAs;
    if bundles != [] {
      var front, last := bundles[..|bundles| - 1], bundles[|bundles| - 1];
      assert bundles == front + [last];
      EarlyIff(front, s, stagedAt, n);
    }
  }

  /** A gap is listed exactly when it is there, with the right count, instant or names. */
  lemma GapsMean(q: seq<Bundle>, s: Setting, gap: Gap)
    requires AllParse(q, s) && StagingReadable(s)
    ensures gap in Gaps(q, s) ==>
              match gap
              case FewRuns(count) => count == |q| && |q| < 3
              case OldEvidence(newest) => Newest(q, s, newest) && s.now - newest > SEVEN_DAYS
              case EarlyRuns(names) => s.staged.Some? && names != [] && EarlyNames(q, s, names)
    ensures |q| < 3 ==> FewRuns(|q|) in Gaps(q, s)
    ensures forall newest | Newest(q, s, newest) && s.now - newest > SEVEN_DAYS :: OldEvidence(newest) in Gaps(q, s)
    ensures s.staged.Some? && (exists b | b in q :: !NotEarly(b, s)) ==> exists names :: EarlyRuns(names) in Gaps(q, s)
  {
    hide Early, Maximum;
    if q != [] { MaximumIsNewest(q, s); }
    if s.staged.Some? {
      var stagedAt := s.parse(s.staged.value).value;
      forall n
        ensures n in Early(q, s, stagedAt) <==>
                exists b | b in q :: s.parse(b.started.value).value < stagedAt && SeenAs(b) == n
      {
        EarlyIff(q, s, stagedAt, n);
      }
      if b :| b in q && !NotEarly(b, s) { assert EarlyRuns(Early(q, s, stagedAt)) in Gaps(q, s); }
    }
  }

  lemma MaximumIsNewest(q: seq<Bundle>, s: Setting)
    requires AllParse(q, s) && q != []
    ensures forall t :: Newest(q, s, t) <==> t == Maximum(FinishTimes(q, s))
  {
    var times := FinishTimes(q, s);
    var i :| 0 <= i < |times| && times[i] == Maximum(times);
    assert q[i] in q;
    forall b | b in q ensures s.parse(b.finished.value).value in times {
      var j :| 0 <= j < |q| && q[j] == b;
      assert times[j] == s.parse(b.finished.value).value;
    }
  }
}
