/** Two adjudicators of one evidence set: the promotion gate, which stops at the first
    offence, and the status report, which judges each bundle on its own. */
module Qualification {
  import opened Options
  import opened Ordering
  import opened Staging

  /** `None` stands for a missing value or one of the wrong JSON type; `host` is "" when
      missing or blank. */
  datatype Environment = Environment(cleanHost: Option<bool>, sourceCheckout: Option<bool>, promoting: Option<bool>,
                                     host: string)

  datatype Identity = Identity(commit: Digest, canonical: Digest)

  /** `checksum` is "" when the bundle carries no usable one. */
  datatype Bundle = Bundle(checksum: string, candidate: Option<Identity>, passed: bool,
                           environment: Option<Environment>, started: Option<string>,
                           finished: Option<string>, payload: string)

  datatype Reason = MissingEvidence | InvalidBundle | DuplicateEvidence | WrongCandidate | FailedRun | WrongEnvironment
                  | ReplayedEvidence | InsufficientRuns | InvalidTimestamp | StaleEvidence | PredatesStaging

  const MIN_QUALIFYING_RUNS := 3
  const MAX_EVIDENCE_AGE := 7 * 86400

  /** What both adjudicators are given besides the bundles: the candidate, the evidence
      validator, the timestamp parser (seconds), the clock, the staging instant if any, and
      the bundles prior receipts consumed. */
  datatype Setting = Setting(candidate: Identity, validate: Bundle -> bool, parse: string -> Option<int>,
                             now: int, staged: Option<string>, prior: set<string>)

  datatype Result<+T> = Ok(value: T) | Err(reason: Reason)

  predicate EnvironmentFits(b: Bundle) {
    && b.environment.Some?
    && b.environment.value.cleanHost == Some(true)
    && b.environment.value.sourceCheckout == Some(false)
    && b.environment.value.promoting != Some(true)
  }

  predicate HasHost(b: Bundle) { b.environment.Some? && b.environment.value.host != "" }

  predicate BoundTo(b: Bundle, candidate: Identity) { b.candidate == Some(candidate) }

  function Parsed(s: Setting, stamp: Option<string>): Option<int> {
    if stamp.Some? then s.parse(stamp.value) else None
  }

  // -------------------------------------------------------------------- the gate

  /** `_screen_bundles`: bundles failing the validator are set aside, any other offence raises. */
  function Screen(bundles: seq<Bundle>, s: Setting, seen: set<string>): Result<seq<Bundle>> {
    if bundles == [] then Ok([])
    else
      var b := bundles[0];
      if b.checksum == "" then Err(InvalidBundle)
      else if b.checksum in seen then Err(DuplicateEvidence)
      else if !BoundTo(b, s.candidate) then Err(WrongCandidate)
      else if s.validate(b) && !b.passed then Err(FailedRun)
      else if s.validate(b) && !EnvironmentFits(b) then Err(WrongEnvironment)
      else
        match Screen(bundles[1..], s, seen + {b.checksum})
        case Err(reason) => Err(reason)
        case Ok(rest) => Ok((if s.validate(b) then [b] else []) + rest)
  }

  function Maximum(values: seq<int>): (m: int)
    requires values != []
    ensures m in values && forall v | v in values :: v <= m
  {
    if |values| == 1 then values[0]
    else
      var rest := Maximum(values[1..]);
      assert values == [values[0]] + values[1..];
      if values[0] >= rest then values[0] else rest
  }

  predicate AllParse(bundles: seq<Bundle>, s: Setting) {
    forall b | b in bundles :: Parsed(s, b.started).Some? && Parsed(s, b.finished).Some?
  }

  function FinishTimes(bundles: seq<Bundle>, s: Setting): seq<int>
    requires AllParse(bundles, s)
  {
    seq(|bundles|, i requires 0 <= i < |bundles| => Parsed(s, bundles[i].finished).value)
  }

  predicate Stale(bundles: seq<Bundle>, s: Setting)
    requires AllParse(bundles, s) && bundles != []
  {
    s.now - Maximum(FinishTimes(bundles, s)) > MAX_EVIDENCE_AGE
  }

  predicate Predating(bundles: seq<Bundle>, s: Setting, stagedAt: int)
    requires AllParse(bundles, s)
  {
    exists b | b in bundles :: Parsed(s, b.started).value < stagedAt
  }

  /** `_check_replay_and_counts` then `_check_timing`. */
  function CheckSet(valid: seq<Bundle>, s: Setting): Result<()> {
    if exists b | b in valid :: b.checksum in s.prior then Err(ReplayedEvidence)
    else if |valid| < MIN_QUALIFYING_RUNS then Err(InsufficientRuns)
    else if exists b | b in valid :: !HasHost(b) then Err(WrongEnvironment)
    else if !AllParse(valid, s) then Err(InvalidTimestamp)
    else if Stale(valid, s) then Err(StaleEvidence)
    else if s.staged.Some? && s.parse(s.staged.value).None? then Err(InvalidTimestamp)
    else if s.staged.Some? && Predating(valid, s, s.parse(s.staged.value).value) then Err(PredatesStaging)
    else Ok(())
  }

  /** Ordering by start time; bundles without a readable start compare as equal to all. */
  function StartsBefore(s: Setting): (Bundle, Bundle) -> bool {
    (a, b) => StartKey(s, a) <= StartKey(s, b)
  }

  function StartKey(s: Setting, b: Bundle): int {
    if Parsed(s, b.started).Some? then Parsed(s, b.started).value else 0
  }

  lemma StartOrder(s: Setting)
    ensures TotalPreorder(StartsBefore(s))
  {
  }

  /** `qualify_evidence_set`. */
  function Qualify(bundles: seq<Bundle>, s: Setting): Result<seq<Bundle>> {
    if bundles == [] then Err(MissingEvidence)
    else
      match Screen(bundles, s, {})
      case Err(reason) => Err(reason)
      case Ok(valid) =>
        if valid == [] then Err(InvalidBundle)
        else
          match CheckSet(valid, s)
          case Err(reason) => Err(reason)
          case Ok(_) => StartOrder(s); Ok(Sort(StartsBefore(s), valid))
  }

  function Behind(valid: seq<Bundle>, r: Result<seq<Bundle>>): Result<seq<Bundle>> {
    match r
    case Err(reason) => Err(reason)
    case Ok(rest) => Ok(valid + rest)
  }

  lemma BehindJoin(a: seq<Bundle>, b: seq<Bundle>, r: Result<seq<Bundle>>)
    ensures Behind([], r) == r && Behind(a, Behind(b, r)) == Behind(a + b, r)
  {
    if r.Ok? {
      assert [] + r.value == r.value && a + (b + r.value) == (a + b) + r.value;
    }
  }

  method ScreenBundles(bundles: seq<Bundle>, s: Setting) returns (r: Result<seq<Bundle>>)
    ensures r == Screen(bundles, s, {})
  {
    var valid: seq<Bundle>, seen: set<string> := [], {};
    ghost var goal := Screen(bundles, s, {});
    BehindJoin([], [], goal);
    assert bundles[0..] == bundles;
    for k := 0 to |bundles|
      invariant goal == Behind(valid, Screen(bundles[k..], s, seen))
    {
      var b := bundles[k];
      assert bundles[k..][1..] == bundles[k + 1..];
      BehindJoin(valid, if s.validate(b) then [b] else [], Screen(bundles[k + 1..], s, seen + {b.checksum}));
      if b.checksum == "" { return Err(InvalidBundle); }
      if b.checksum in seen { return Err(DuplicateEvidence); }
      seen := seen + {b.checksum};
      if !BoundTo(b, s.candidate) { return Err(WrongCandidate); }
      if s.validate(b) {
        if !b.passed { return Err(FailedRun); }
        if !EnvironmentFits(b) { return Err(WrongEnvironment); }
        valid := valid + [b];
      }
    }
    assert bundles[|bundles|..] == [] && valid + [] == valid;
    return Ok(valid);
  }

  // ------------------------------------------------------------------ the report

  /** `evaluate_bundle`. */
  function Evaluate(b: Bundle, s: Setting): Option<Reason> {
    if b.checksum == "" then Some(InvalidBundle)
    else if !BoundTo(b, s.candidate) then Some(WrongCandidate)
    else if !s.validate(b) then Some(InvalidBundle)
    else if !b.passed then Some(FailedRun)
    else if !EnvironmentFits(b) || !HasHost(b) then Some(WrongEnvironment)
    else None
  }

  /** The name a bundle is remembered under. */
  function SeenAs(b: Bundle): string { if b.checksum == "" then "<no checksum>" else b.checksum }

  function Judge(b: Bundle, s: Setting, seen: set<string>): Option<Reason> {
    if Evaluate(b, s).Some? then Evaluate(b, s)
    else if SeenAs(b) in seen then Some(DuplicateEvidence)
    else if SeenAs(b) in s.prior then Some(ReplayedEvidence)
    else if Parsed(s, b.started).None? || Parsed(s, b.finished).None? then Some(InvalidBundle)
    else None
  }

  function Verdicts(bundles: seq<Bundle>, s: Setting, seen: set<string>): seq<Option<Reason>> {
    if bundles == [] then []
    else [Judge(bundles[0], s, seen)] + Verdicts(bundles[1..], s, seen + {SeenAs(bundles[0])})
  }

  /** The bundles judged qualifying, in order. */
  function Qualifying(bundles: seq<Bundle>, s: Setting, seen: set<string>): (q: seq<Bundle>)
    ensures AllParse(q, s)
  {
    if bundles == [] then []
    else
      (if Judge(bundles[0], s, seen).None? then [bundles[0]] else [])
      + Qualifying(bundles[1..], s, seen + {SeenAs(bundles[0])})
  }

  datatype Gap = FewRuns(count: nat) | OldEvidence(newest: int) | EarlyRuns(checksums: seq<string>)

  /** A staging time that cannot be read raises. */
  datatype StatusReport = Report(verdicts: seq<Option<Reason>>, gaps: seq<Gap>) | Raised

  /** The bundles that started before staging, by checksum. */
  function Early(bundles: seq<Bundle>, s: Setting, stagedAt: int): (r: seq<string>)
    requires AllParse(bundles, s)
    ensures r == [] <==> !Predating(bundles, s, stagedAt)
  {
    if bundles == [] then []
    else
      var front, last := bundles[..|bundles| - 1], bundles[|bundles| - 1];
      assert bundles == front + [last];
      Early(front, s, stagedAt) + if Parsed(s, last.started).value < stagedAt then [SeenAs(last)] else []
  }

  predicate StagingReadable(s: Setting) { s.staged.Some? ==> s.parse(s.staged.value).Some? }

  function Gaps(q: seq<Bundle>, s: Setting): seq<Gap>
    requires AllParse(q, s) && StagingReadable(s)
  {
    (if |q| < MIN_QUALIFYING_RUNS then [FewRuns(|q|)] else [])
    + (if q != [] && Stale(q, s) then [OldEvidence(Maximum(FinishTimes(q, s)))] else [])
    + (if s.staged.Some? && Predating(q, s, s.parse(s.staged.value).value)
       then [EarlyRuns(Early(q, s, s.parse(s.staged.value).value))] else [])
  }

  /** The report is produced and lists no gap. */
  predicate Qualified(bundles: seq<Bundle>, s: Setting) {
    var q := Qualifying(bundles, s, {});
    && StagingReadable(s)
    && |q| >= MIN_QUALIFYING_RUNS
    && !Stale(q, s)
    && (s.staged.Some? ==> !Predating(q, s, s.parse(s.staged.value).value))
  }

  /** The first loop of `report_status`: one verdict for each bundle. */
  method JudgeAll(bundles: seq<Bundle>, s: Setting) returns (verdicts: seq<Option<Reason>>, qualifying: seq<Bundle>)
    ensures verdicts == Verdicts(bundles, s, {}) && qualifying == Qualifying(bundles, s, {})
  {
    hide Verdicts, Qualifying, Judge;
    var seen: set<string> := {};
    verdicts, qualifying := [], [];
    assert bundles[0..] == bundles;
    for k := 0 to |bundles|
      invariant verdicts + Verdicts(bundles[k..], s, seen) == Verdicts(bundles, s, {})
      invariant qualifying + Qualifying(bundles[k..], s, seen) == Qualifying(bundles, s, {})
    {
      var b := bundles[k];
      JudgeNext(bundles, k, s, seen, verdicts, qualifying);
      var reason := Judge(b, s, seen);
      seen := seen + {SeenAs(b)};
      verdicts := verdicts + [reason];
      if reason.None? { qualifying := qualifying + [b]; }
    }
    NothingJudged(bundles, s, seen);
  }

  lemma NothingJudged(bundles: seq<Bundle>, s: Setting, seen: set<string>)
    ensures Verdicts(bundles[|bundles|..], s, seen) == [] && Qualifying(bundles[|bundles|..], s, seen) == []
  {
  }

  lemma JudgeNext(bundles: seq<Bundle>, k: nat, s: Setting, seen: set<string>, verdicts: seq<Option<Reason>>,
                  qualifying: seq<Bundle>)
    requires k < |bundles|
    ensures var b, later := bundles[k], seen + {SeenAs(bundles[k])};
            && verdicts + Verdicts(bundles[k..], s, seen) ==
               verdicts + [Judge(b, s, seen)] + Verdicts(bundles[k + 1..], s, later)
            && qualifying + Qualifying(bundles[k..], s, seen) ==
               (if Judge(b, s, seen).None? then qualifying + [b] else qualifying)
               + Qualifying(bundles[k + 1..], s, later)
  {
    hide Judge, AllParse;
    assert bundles[k..][0] == bundles[k] && bundles[k..][1..] == bundles[k + 1..];
  }

  method EarlyRunsOf(bundles: seq<Bundle>, s: Setting, stagedAt: int) returns (early: seq<string>)
    requires AllParse(bundles, s)
    ensures early == Early(bundles, s, stagedAt)
  {
    early := [];
    for k := 0 to |bundles|
      invariant early == Early(bundles[..k], s, stagedAt)
    {
      assert bundles[..k + 1][..k] == bundles[..k];
      assert bundles[k] in bundles;
      if Parsed(s, bundles[k].started).value < stagedAt { early := early + [SeenAs(bundles[k])]; }
    }
    assert bundles[..|bundles|] == bundles;
  }

  /** `report_status`. */
  method ReportStatus(bundles: seq<Bundle>, s: Setting) returns (r: StatusReport)
    ensures r == if StagingReadable(s) then Report(Verdicts(bundles, s, {}), Gaps(Qualifying(bundles, s, {}), s))
                 else Raised
    ensures Qualified(bundles, s) <==> r.Report? && r.gaps == []
  {
    hide Verdicts, Qualifying, Stale, Judge, Predating, AllParse, Early;
    var verdicts, qualifying := JudgeAll(bundles, s);
    var gaps: seq<Gap> := [];
    if |qualifying| < MIN_QUALIFYING_RUNS { gaps := gaps + [FewRuns(|qualifying|)]; }
    if qualifying != [] && Stale(qualifying, s) { gaps := gaps + [OldEvidence(Maximum(FinishTimes(qualifying, s)))]; }
    if s.staged.Some? {
      var staged := s.parse(s.staged.value);
      if staged.None? { return Raised; }
      var early := EarlyRunsOf(qualifying, s, staged.value);
      if early != [] { gaps := gaps + [EarlyRuns(early)]; }
    }
    return Report(verdicts, gaps);
  }

  // ------------------------------------------------------------- they agree

  function Checksums(bundles: seq<Bundle>): set<string> { set b | b in bundles :: b.checksum }

  ghost predicate DistinctChecksums(bundles: seq<Bundle>) {
    forall i, j | 0 <= i < j < |bundles| :: bundles[i].checksum != bundles[j].checksum
  }

  /** Passed, in a fitting environment on a named host, not consumed before, and timed. */
  predicate Flawless(b: Bundle, s: Setting) {
    && b.passed && EnvironmentFits(b) && HasHost(b) && b.checksum !in s.prior
    && Parsed(s, b.started).Some? && Parsed(s, b.finished).Some?
  }

  /** The only flaw the gate overlooks in a bundle: it fails the evidence validator. */
  ghost predicate Tolerated(bundles: seq<Bundle>, s: Setting) {
    && DistinctChecksums(bundles)
    && (forall b | b in bundles :: b.checksum != "" && BoundTo(b, s.candidate))
    && (forall b | b in bundles && s.validate(b) :: Flawless(b, s))
  }

  function Validated(bundles: seq<Bundle>, s: Setting): seq<Bundle> {
    if bundles == [] then []
    else (if s.validate(bundles[0]) then [bundles[0]] else []) + Validated(bundles[1..], s)
  }

  /** Screening succeeds exactly on distinct, usable, bound bundles whose valid ones passed in
      a fitting environment, and keeps the valid ones. */
  lemma {:induction false} ScreenIff(bundles: seq<Bundle>, s: Setting, seen: set<string>)
    ensures Screen(bundles, s, seen).Ok? <==>
            && DistinctChecksums(bundles) && Checksums(bundles) !! seen
            && (forall b | b in bundles :: b.checksum != "" && BoundTo(b, s.candidate))
            && (forall b | b in bundles && s.validate(b) :: b.passed && EnvironmentFits(b))
    ensures Screen(bundles, s, seen).Ok? ==> Screen(bundles, s, seen).value == Validated(bundles, s)
  {
    if bundles != [] {
      var b, rest := bundles[0], bundles[1..];
      ScreenIff(rest, s, seen + {b.checksum});
      assert bundles == [b] + rest;
      assert Checksums(bundles) == {b.checksum} + Checksums(rest);
      DistinctHead(bundles);
    }
  }

  lemma DistinctHead(bundles: seq<Bundle>)
    requires bundles != []
    ensures DistinctChecksums(bundles) <==>
            DistinctChecksums(bundles[1..]) && bundles[0].checksum !in Checksums(bundles[1..])
  {
    var rest := bundles[1..];
    if DistinctChecksums(bundles) {
      forall b | b in rest ensures b.checksum != bundles[0].checksum {
        var i :| 0 <= i < |rest| && rest[i] == b;
        assert bundles[i + 1] == b;
      }
    }
    if DistinctChecksums(rest) && bundles[0].checksum !in Checksums(rest) {
      forall i, j | 0 <= i < j < |bundles| ensures bundles[i].checksum != bundles[j].checksum {
        assert bundles[j] == rest[j - 1] && rest[j - 1] in rest;
        if i > 0 { assert bundles[i] == rest[i - 1]; }
      }
    }
  }

  lemma {:induction false} ValidatedMember(bundles: seq<Bundle>, s: Setting, b: Bundle)
    ensures b in Validated(bundles, s) <==> b in bundles && s.validate(b)
  {
    if bundles != [] {
      ValidatedMember(bundles[1..], s, b);
      assert bundles == [bundles[0]] + bundles[1..];
    }
  }

  /** What a qualifying verdict says of its bundle. */
  predicate Sound(b: Bundle, s: Setting) {
    Evaluate(b, s).None? && b.checksum !in s.prior && Parsed(s, b.started).Some? && Parsed(s, b.finished).Some?
  }

  lemma {:induction false} QualifyingSound(bundles: seq<Bundle>, s: Setting, seen: set<string>)
    ensures forall b | b in Qualifying(bundles, s, seen) :: b in bundles && Sound(b, s) && b.checksum !in seen
    ensures DistinctChecksums(Qualifying(bundles, s, seen))
  {
    if bundles != [] {
      var rest := Qualifying(bundles[1..], s, seen + {SeenAs(bundles[0])});
      QualifyingSound(bundles[1..], s, seen + {SeenAs(bundles[0])});
      assert bundles == [bundles[0]] + bundles[1..];
      if Judge(bundles[0], s, seen).None? {
        assert ([bundles[0]] + rest)[1..] == rest;
        DistinctHead([bundles[0]] + rest);
      }
    }
  }

  /** Where screening succeeds and no valid bundle is replayed, hostless or untimed, the two
      programs keep the same bundles. */
  lemma {:induction false} SameBundles(bundles: seq<Bundle>, s: Setting, seen: set<string>)
    requires Screen(bundles, s, seen).Ok?
    requires forall b | b in Validated(bundles, s) :: HasHost(b) && b.checksum !in s.prior && AllParse([b], s)
    ensures Qualifying(bundles, s, seen) == Validated(bundles, s)
  {
    if bundles != [] {
      var b := bundles[0];
      if s.validate(b) { assert b in Validated(bundles, s) && b in [b]; }
      SameBundles(bundles[1..], s, seen + {b.checksum});
    }
  }

  lemma CheckSetIff(valid: seq<Bundle>, s: Setting)
    ensures CheckSet(valid, s).Ok? <==>
            && (forall b | b in valid :: b.checksum !in s.prior && HasHost(b) && AllParse([b], s))
            && |valid| >= MIN_QUALIFYING_RUNS
            && AllParse(valid, s) && !Stale(valid, s)
            && (s.staged.Some? ==> s.parse(s.staged.value).Some? && !Predating(valid, s, s.parse(s.staged.value).value))
  {
    if AllParse(valid, s) { forall b | b in valid ensures AllParse([b], s) { } }
  }

  /** If the gate accepts a set, the report calls it qualified and names the same bundles. */
  lemma GateImpliesReport(bundles: seq<Bundle>, s: Setting)
    requires Qualify(bundles, s).Ok?
    ensures Qualified(bundles, s) && Tolerated(bundles, s)
    ensures multiset(Qualify(bundles, s).value) == multiset(Qualifying(bundles, s, {}))
    ensures Sorted(StartsBefore(s), Qualify(bundles, s).value)
  {
    hide EnvironmentFits, BoundTo, HasHost, Stale, Predating, Sort;
    var valid := Validated(bundles, s);
    ScreenIff(bundles, s, {});
    CheckSetIff(valid, s);
    SameBundles(bundles, s, {});
    forall b | b in bundles && s.validate(b) ensures Flawless(b, s) {
      ValidatedMember(bundles, s, b);
      assert AllParse([b], s) && b in [b];
    }
    StartOrder(s);
    hide Screen, CheckSet, AllParse;
  }

  /** If the report calls a set qualified, the gate accepts the bundles it names. */
  lemma ReportImpliesGate(bundles: seq<Bundle>, s: Setting)
    requires Qualified(bundles, s)
    ensures var q := Qualifying(bundles, s, {});
            Qualify(q, s).Ok? && multiset(Qualify(q, s).value) == multiset(q)
  {
    hide EnvironmentFits, BoundTo, HasHost, Stale, Predating, Sort;
    var q := Qualifying(bundles, s, {});
    QualifyingSound(bundles, s, {});
    ScreenIff(q, s, {});
    AllValidated(q, s);
    CheckSetIff(q, s);
    StartOrder(s);
  }

  lemma {:induction false} AllValidated(bundles: seq<Bundle>, s: Setting)
    requires forall b | b in bundles :: s.validate(b)
    ensures Validated(bundles, s) == bundles
  {
    if bundles != [] {
      assert bundles[0] in bundles && forall b | b in bundles[1..] :: b in bundles;
      AllValidated(bundles[1..], s);
    }
  }

  /** Exactly when the two agree on the whole set: the gate accepts what the report calls
      qualified, provided every other bundle merely fails the evidence validator. */
  lemma GateIffReport(bundles: seq<Bundle>, s: Setting)
    ensures Qualify(bundles, s).Ok? <==> Qualified(bundles, s) && Tolerated(bundles, s)
  {
    hide EnvironmentFits, BoundTo, HasHost, Stale, Predating, Sort;
    if Qualify(bundles, s).Ok? { GateImpliesReport(bundles, s); }
    if Qualified(bundles, s) && Tolerated(bundles, s) {
      QualifyingSound(bundles, s, {});
      ScreenIff(bundles, s, {});
      forall b | b in Validated(bundles, s) ensures HasHost(b) && b.checksum !in s.prior && AllParse([b], s) {
        ValidatedMember(bundles, s, b);
      }
      SameBundles(bundles, s, {});
      CheckSetIff(Validated(bundles, s), s);
      hide Judge, Evaluate, AllParse;
    }
  }

  // --------------------------------------------- where the report is more lenient

  lemma {:induction false} QualifyingIgnores(bundles: seq<Bundle>, s: Setting, seen: set<string>, b: Bundle)
    requires Evaluate(b, s).Some?
    ensures Qualifying(bundles + [b], s, seen) == Qualifying(bundles, s, seen)
  {
    hide Evaluate;
    if bundles == [] {
      assert [] + [b] == [b] && [b][1..] == [];
      assert Qualifying([b], s, seen) == [];
    } else {
      assert (bundles + [b])[0] == bundles[0] && (bundles + [b])[1..] == bundles[1..] + [b];
      QualifyingIgnores(bundles[1..], s, seen + {SeenAs(bundles[0])}, b);
    }
  }

  lemma DistinctAppend(bundles: seq<Bundle>, b: Bundle)
    ensures DistinctChecksums(bundles + [b]) <==> DistinctChecksums(bundles) && b.checksum !in Checksums(bundles)
  {
    var all := bundles + [b];
    if DistinctChecksums(all) {
      assert forall i | 0 <= i < |bundles| :: all[i] == bundles[i];
      forall c | c in bundles ensures c.checksum != b.checksum {
        var i :| 0 <= i < |bundles| && bundles[i] == c;
        assert all[i].checksum != all[|bundles|].checksum;
      }
    }
    if DistinctChecksums(bundles) && b.checksum !in Checksums(bundles) {
      forall i, j | 0 <= i < j < |all| ensures all[i].checksum != all[j].checksum {
        if j == |bundles| { assert all[i] in bundles; }
      }
    }
  }

  /** One more bundle that the report rejects on its own, for any setting: the report stays
      qualified, and the gate accepts the larger set exactly when it tolerates the rest and the new
      bundle is usable, new, bound to the candidate and merely fails the evidence validator. */
  lemma RejectedBundleAdded(bundles: seq<Bundle>, s: Setting, b: Bundle)
    requires Qualified(bundles, s) && Evaluate(b, s).Some?
    ensures Qualified(bundles + [b], s)
    ensures Qualify(bundles + [b], s).Ok? <==>
            && Tolerated(bundles, s) && b.checksum != "" && b.checksum !in Checksums(bundles)
            && BoundTo(b, s.candidate) && !s.validate(b)
  {
    hide EnvironmentFits, BoundTo, HasHost, Stale, Predating, Qualify;
    QualifyingIgnores(bundles, s, {}, b);
    GateIffReport(bundles + [b], s);
    DistinctAppend(bundles, b);
    assert forall c :: c in bundles + [b] <==> c in bundles || c == b;
  }

  /** So a run for another candidate among the evidence makes the gate refuse what the report
      calls qualified. */
  lemma ForeignBundleSplitsThem(bundles: seq<Bundle>, s: Setting, b: Bundle)
    requires Qualified(bundles, s) && !BoundTo(b, s.candidate)
    ensures Qualified(bundles + [b], s) && Qualify(bundles + [b], s).Err?
  {
    RejectedBundleAdded(bundles, s, b);
  }
}
